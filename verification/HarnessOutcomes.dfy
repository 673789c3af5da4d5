/** When the gates let a call go, park it or refuse it, and what each handler leaves in the tables,
    stated over the rules and the stored rows. */
module HarnessOutcomes {
  import opened Prelude
  import opened Verdicts
  import opened ParamSchema
  import opened HarnessModel
  import opened HarnessSafety
  import Permissions
  import Policies
  import Rbac

  // ---- the gates, exactly ----

  /** What the tables and the configuration guarantee: effects are allow or deny, one policy a scope,
      and a ceiling that names a tier. */
  ghost predicate WellServed(e: Env) {
    && (e.permissions.Some? ==> Permissions.KnownEffects(e.permissions.value))
    && (e.policies.Some? ==> Policies.UniqueKeys(e.policies.value))
    && (e.ceiling.Some? ==> e.ceiling.value in {Low, Medium, High})
  }

  predicate Declared(p: Proposal, e: Env) {
    p.tool in e.tools && p.action in e.tools[p.tool].actions
  }

  function Checked(p: Proposal, e: Env): Option<Params> {
    ValidateParams(e.tools, p.tool, p.action, p.params)
  }

  /** Of the agent's rules that cover the call, every narrowest one allows it, and there is one. */
  ghost predicate Entitled(p: Proposal, e: Env) {
    && e.agentKind.Some? && e.permissions.Some?
    && Permissions.Granted(e.permissions.value, e.agentKind.value, p.tool, p.action)
  }

  /** pol covers the call and nothing that covers it beats pol. */
  ghost predicate Governing(p: Proposal, e: Env, pol: Policies.Policy) {
    && e.policies.Some? && pol in e.policies.value && pol.Matches(p.tool, p.action)
    && forall o | o in e.policies.value && o.Matches(p.tool, p.action) :: !Policies.Beats(o, pol)
  }

  /** The policy asks for no human. */
  predicate Unattended(p: Proposal, e: Env, pol: Policies.Policy) {
    && e.ceiling.Some? && Policies.Covers(e.ceiling.value, pol.risk)
    && !pol.requiresApproval && p.confidence >= pol.minConfidence
  }

  ghost predicate MayGo(p: Proposal, e: Env) {
    Checked(p, e).Some? && Entitled(p, e) && exists pol :: Governing(p, e, pol) && Unattended(p, e, pol)
  }

  lemma GoverningIsResolved(p: Proposal, e: Env, pol: Policies.Policy)
    requires WellServed(e) && Governing(p, e, pol)
    ensures Policies.Compile(e.policies.value).For(p.tool, p.action) == Some(pol)
  {
    forall o | o in e.policies.value && o.Matches(p.tool, p.action)
      ensures || o.Specificity() < pol.Specificity()
              || (o.Specificity() == pol.Specificity() &&
                  (o.priority < pol.priority || (o.priority == pol.priority && o.risk.Rank() <= pol.risk.Rank())))
    {
      assert !Policies.Beats(o, pol);
    }
    Policies.GoverningPolicyIsUnique(e.policies.value, pol, p.tool, p.action);
  }

  lemma ResolvedGoverns(p: Proposal, e: Env)
    requires e.policies.Some?
    ensures var f := Policies.Compile(e.policies.value).For(p.tool, p.action);
            f.Some? ==> Governing(p, e, f.value)
  {
    Policies.ForIsUnbeaten(e.policies.value, p.tool, p.action);
  }

  /** The ruling of the policy gate, by what governs. */
  lemma RulingByGoverning(p: Proposal, e: Env)
    requires WellServed(e) && e.policies.Some?
    ensures var r := RulingFor(p, e.policies.value, e);
            && (r.decision == Allowed <==> exists pol :: Governing(p, e, pol) && Unattended(p, e, pol))
            && (r.decision == DeniedPolicy <==> !exists pol :: Governing(p, e, pol) && pol.risk != Forbidden)
            && r.decision in {Allowed, DeniedPolicy, AwaitingApproval}
            && (r.decision == DeniedPolicy ==> r.risk == Forbidden)
            && (r.decision != DeniedPolicy ==> exists pol :: Governing(p, e, pol) && pol.risk == r.risk)
  {
    var f := Policies.Compile(e.policies.value).For(p.tool, p.action);
    forall pol | Governing(p, e, pol) ensures f == Some(pol) { GoverningIsResolved(p, e, pol); }
    ResolvedGoverns(p, e);
    if f.Some? {
      Policies.AllowedByTier(e.policies.value, e.ceiling, p.tool, p.action, p.confidence, f.value);
      assert Governing(p, e, f.value);
    }
  }

  /** Each verdict of the gates, exactly. */
  lemma GatesDecide(p: Proposal, e: Env)
    requires WellServed(e)
    ensures var g := Gates(p, e);
            && (g.Go? <==> MayGo(p, e))
            && (g.Go? ==> Checked(p, e) == Some(g.params) && exists pol :: Governing(p, e, pol) && pol.risk == g.risk)
            && (g.Park? <==> && Checked(p, e).Some? && Entitled(p, e) && !MayGo(p, e)
                             && exists pol :: Governing(p, e, pol) && pol.risk != Forbidden)
            && (g.Park? ==> exists pol :: Governing(p, e, pol) && pol.risk == g.risk)
            && (g == Refuse(DeniedUnknown, None) <==> !Declared(p, e))
            && (g == Refuse(DeniedParams, None) <==> Declared(p, e) && Checked(p, e).None?)
            && (g == Refuse(DeniedPermission, None) <==>
                  Checked(p, e).Some? && e.agentKind.Some? && e.permissions.Some? && !Entitled(p, e))
            && (g == Refuse(DeniedPolicy, Some(Forbidden)) <==>
                  && Checked(p, e).Some? && Entitled(p, e) && e.policies.Some?
                  && !exists pol :: Governing(p, e, pol) && pol.risk != Forbidden)
            && (g.Faulted? <==>
                  && Checked(p, e).Some?
                  && (e.agentKind.None? || e.permissions.None? || (Entitled(p, e) && e.policies.None?)))
  {
    if e.agentKind.Some? && e.permissions.Some? {
      Permissions.AllowsIsGranted(e.permissions.value, e.agentKind.value, p.tool, p.action);
    }
    if e.policies.Some? { RulingByGoverning(p, e); }
  }

  // ---- what a list of effects leaves behind ----

  lemma DoFirst(s: Store, first: Effect, rest: seq<Effect>)
    ensures DoAll(s, [first] + rest) == DoAll(Do(s, first), rest)
  {
    DoAllConcat(s, [first], rest);
    DoOne(s, first);
  }

  lemma DoOne(s: Store, only: Effect)
    ensures DoAll(s, [only]) == Do(s, only)
  {
    DoAllAppend(s, [], only);
    assert [] + [only] == [only];
  }

  /** The tables other than the ledger's attempts are these. */
  predicate Leaves(t: Store, calls: map<Id, Row>, execs: map<Id, Execution>, invoked: seq<Invocation>) {
    t.calls == calls && t.execs == execs && t.invoked == invoked
  }

  /** The execution record of a call, by how its tool ended. */
  predicate Recorded(x: Execution, id: Id, e: Env) {
    && x.call == id && x.dryRun == e.dryRun
    && (x.status == TimedOut <==> e.toolResult == Overran)
    && (x.status == Failed <==> e.toolResult == Errored)
    && (x.status == DryRun <==> e.toolResult == Returned && e.dryRun)
  }

  lemma ExecutionLeaves(s: Store, id: Id, p: Proposal, d: Decision, params: Params, e: Env)
    ensures var t := DoAll(s, ExecuteEffects(s, id, p, d, params, e));
            && t.calls == s.calls
            && t.invoked == s.invoked + [Invocation(id, p.tool, p.action, params, e.dryRun)]
            && (e.saveFails || id in s.execs ==> t.execs == s.execs)
            && (!e.saveFails && id !in s.execs ==>
                  id in t.execs && t.execs == s.execs[id := t.execs[id]] && Recorded(t.execs[id], id, e))
  {
    var effects := ExecuteEffects(s, id, p, d, params, e);
    var rest := effects[1..];
    assert effects == [effects[0]] + rest;
    DoFirst(s, effects[0], rest);
    var u := Do(s, effects[0]);
    if |rest| == 2 {
      assert rest == [rest[0]] + [rest[1]];
      DoFirst(u, rest[0], [rest[1]]);
      DoOne(Do(u, rest[0]), rest[1]);
    } else {
      assert rest == [rest[0]];
      DoOne(u, rest[0]);
    }
  }

  lemma PermittedLeaves(s: Store, id: Id, v: Verdict, params: Params, e: Env)
    requires id in s.calls && !e.updateFails
    ensures var p := s.calls[id].proposal;
            var t := DoAll(s, PermittedEffects(s, id, v, params, e));
            && t.calls == s.calls[id := Row(p, v)]
            && t.invoked == s.invoked + [Invocation(id, p.tool, p.action, params, e.dryRun)]
            && (!e.saveFails && id !in s.execs ==> id in t.execs && Recorded(t.execs[id], id, e))
  {
    var p := s.calls[id].proposal;
    var rest := ExecuteEffects(s, id, p, v.decision, params, e);
    DoFirst(s, Persist(id, v), rest);
    var u := Do(s, Persist(id, v));
    assert rest == ExecuteEffects(u, id, p, v.decision, params, e);
    ExecutionLeaves(u, id, p, v.decision, params, e);
  }

  lemma WriteLeaves(s: Store, id: Id, v: Verdict, last: Effect)
    requires id in s.calls && last.Audit?
    ensures Leaves(DoAll(s, [Persist(id, v), last]), s.calls[id := Row(s.calls[id].proposal, v)], s.execs, s.invoked)
    ensures Leaves(DoAll(s, [last]), s.calls, s.execs, s.invoked)
  {
    assert [Persist(id, v), last] == [Persist(id, v)] + [last];
    DoFirst(s, Persist(id, v), [last]);
    DoOne(Do(s, Persist(id, v)), last);
    DoOne(s, last);
  }

  // ---- evaluation ----

  lemma GateLeaves(s: Store, id: Id, g: Gate, e: Env)
    requires id in s.calls
    ensures var t := DoAll(s, GateEffects(s, id, g, e)); var Row(p, v) := s.calls[id];
            && (e.updateFails || g.Faulted? ==> Leaves(t, s.calls, s.execs, s.invoked))
            && (!e.updateFails && g.Park? ==>
                  Leaves(t, s.calls[id := Row(p, v.(decision := AwaitingApproval, risk := g.risk))],
                         s.execs, s.invoked))
            && (!e.updateFails && g.Refuse? ==>
                  Leaves(t, s.calls[id := Row(p, v.(decision := g.decision, decidedAt := Some(e.now),
                                                    risk := if g.tier.Some? then g.tier.value else v.risk))],
                         s.execs, s.invoked))
            && (!e.updateFails && g.Go? ==>
                  && t.calls == s.calls[id := Row(p, v.(decision := Allowed, risk := g.risk))]
                  && t.invoked == s.invoked + [Invocation(id, p.tool, p.action, g.params, e.dryRun)])
  {
    var Row(p, v) := s.calls[id];
    var effects := GateEffects(s, id, g, e);
    if g.Go? && !e.updateFails {
      PermittedLeaves(s, id, v.(decision := Allowed, risk := g.risk), g.params, e);
    } else if |effects| == 1 {
      assert effects == [effects[0]];
      WriteLeaves(s, id, v, effects[0]);
    } else {
      assert effects == [effects[0], effects[1]];
      WriteLeaves(s, id, effects[0].verdict, effects[1]);
    }
  }

  /** The store once a handler has done all it does. */
  function After(s: Store, event: Event, e: Env): Store {
    DoAll(s, Effects(s, event, e))
  }

  /** A delivered, undecided call reaches its tool exactly when the rules let it go unattended and its
      decision could be stored; then that decision is Allowed, at the tier of the governing policy. */
  lemma DeliveryInvokesExactlyWhen(s: Store, id: Id, e: Env)
    requires WellServed(e) && id in s.calls && !s.calls[id].verdict.decision.Terminal()
    ensures var t := After(s, Requested(id), e); var Row(p, v) := s.calls[id];
            && (MayGo(p, e) && !e.updateFails ==>
                  && t.invoked == s.invoked + [Invocation(id, p.tool, p.action, Checked(p, e).value, e.dryRun)]
                  && exists pol ::
                       Governing(p, e, pol)
                       && t.calls == s.calls[id := Row(p, v.(decision := Allowed, risk := pol.risk))])
            && (!MayGo(p, e) || e.updateFails ==> t.invoked == s.invoked)
  {
    var p := s.calls[id].proposal;
    GatesDecide(p, e);
    GateLeaves(s, id, Gates(p, e), e);
    assert Effects(s, Requested(id), e) == GateEffects(s, id, Gates(p, e), e);
  }

  // ---- rulings ----

  /** Still waiting, and not for longer than the TTL. */
  predicate InTime(row: Row, e: Env) {
    row.verdict.decision == AwaitingApproval && e.now - row.proposal.createdAt <= e.ttl
  }

  predicate Authorised(role: Rbac.Role, risk: Risk) {
    (role == Rbac.Admin && risk in {Low, Medium, High}) || (role == Rbac.Operator && risk in {Low, Medium})
  }

  predicate Approvable(row: Row, ruling: HumanRuling, approver: Approver, e: Env) {
    ruling == Approve && InTime(row, e) && Authorised(approver.role, row.verdict.risk)
  }

  ghost predicate PolicyStands(p: Proposal, e: Env) {
    exists pol :: Governing(p, e, pol) && pol.risk != Forbidden
  }

  /** The verdict that names the human and the hour. */
  function Decided(v: Verdict, d: Decision, approver: Approver, e: Env): Verdict {
    v.(decision := d, decidedBy := Some(approver.user), decidedAt := Some(e.now))
  }

  lemma HumanDecides(row: Row, ruling: HumanRuling, approver: Approver, e: Env)
    ensures var hv := HumanVerdict(row, ruling, approver, e);
            && (ruling == Reject && InTime(row, e) ==> hv == Some(Decided(row.verdict, Rejected, approver, e)))
            && (Approvable(row, ruling, approver, e) ==> hv == Some(Decided(row.verdict, Approved, approver, e)))
            && (!Approvable(row, ruling, approver, e) && !(ruling == Reject && InTime(row, e)) ==> hv == None)
  {
    Rbac.ApprovalAuthority(approver.role, row.verdict.risk);
  }

  /** What an approval leaves, once given: the policy served now, then the write, then the parameters. */
  lemma ApprovedLeaves(s: Store, id: Id, v: Verdict, e: Env)
    requires WellServed(e) && id in s.calls && v.decision == Approved
    ensures var t := DoAll(s, ApprovedEffects(s, id, v, e)); var p := s.calls[id].proposal;
            && (e.policies.None? || e.updateFails ==> Leaves(t, s.calls, s.execs, s.invoked))
            && (e.policies.Some? && !e.updateFails && !PolicyStands(p, e) ==>
                  Leaves(t, s.calls[id := Row(p, v.(decision := DeniedPolicy))], s.execs, s.invoked))
            && (e.policies.Some? && !e.updateFails && PolicyStands(p, e) && Checked(p, e).None? ==>
                  && t.invoked == s.invoked
                  && t.calls == s.calls[id := Row(p, if e.denialFails then v else v.(decision := DeniedParams))])
            && (e.policies.Some? && !e.updateFails && PolicyStands(p, e) && Checked(p, e).Some? ==>
                  && t.calls == s.calls[id := Row(p, v)]
                  && t.invoked == s.invoked + [Invocation(id, p.tool, p.action, Checked(p, e).value, e.dryRun)])
  {
    var p, effects := s.calls[id].proposal, ApprovedEffects(s, id, v, e);
    if e.policies.Some? { RulingByGoverning(p, e); }
    if e.policies.Some? && !e.updateFails && PolicyStands(p, e) {
      StandingLeaves(s, id, v, e);
    } else if |effects| == 1 {
      assert effects == [effects[0]];
      WriteLeaves(s, id, v, effects[0]);
    } else {
      WriteLeaves(s, id, effects[0].verdict, effects[1]);
    }
  }

  lemma StandingLeaves(s: Store, id: Id, v: Verdict, e: Env)
    requires id in s.calls
    ensures var t := DoAll(s, [Persist(id, v)] + RevalidatedEffects(s, id, v, e)); var p := s.calls[id].proposal;
            && (Checked(p, e).None? ==>
                  && t.invoked == s.invoked
                  && t.calls == s.calls[id := Row(p, if e.denialFails then v else v.(decision := DeniedParams))])
            && (Checked(p, e).Some? ==>
                  && t.calls == s.calls[id := Row(p, v)]
                  && t.invoked == s.invoked + [Invocation(id, p.tool, p.action, Checked(p, e).value, e.dryRun)])
  {
    var p, rest := s.calls[id].proposal, RevalidatedEffects(s, id, v, e);
    var u := Do(s, Persist(id, v));
    DoFirst(s, Persist(id, v), rest);
    if Checked(p, e).Some? {
      assert rest == ExecuteEffects(u, id, p, v.decision, Checked(p, e).value, e);
      ExecutionLeaves(u, id, p, v.decision, Checked(p, e).value, e);
    } else if |rest| == 1 {
      assert rest == [rest[0]];
      WriteLeaves(u, id, v, rest[0]);
    } else {
      assert rest == [rest[0], rest[1]];
      WriteLeaves(u, id, rest[0].verdict, rest[1]);
    }
  }

  /** An approval that is authorised, in time, still allowed, still valid and can be stored. */
  ghost predicate GoesThrough(row: Row, ruling: HumanRuling, approver: Approver, e: Env) {
    && Approvable(row, ruling, approver, e) && PolicyStands(row.proposal, e)
    && Checked(row.proposal, e).Some? && !e.updateFails
  }

  /** What a ruling leaves. It runs the tool exactly when it is an approval that goes through; a
      rejection stores who, when and Rejected; an approval a policy has since forbidden stores
      DeniedPolicy; anything else unauthorised, late or unstorable changes nothing. */
  lemma RulingLeaves(s: Store, id: Id, ruling: HumanRuling, approver: Approver, e: Env)
    requires WellServed(e) && id in s.calls
    ensures var t := After(s, Ruled(id, ruling, approver), e); var row := s.calls[id]; var Row(p, v) := row;
            && (ruling == Reject && InTime(row, e) && !e.updateFails ==>
                  Leaves(t, s.calls[id := Row(p, Decided(v, Rejected, approver, e))], s.execs, s.invoked))
            && (GoesThrough(row, ruling, approver, e) ==>
                  && t.calls == s.calls[id := Row(p, Decided(v, Approved, approver, e))]
                  && t.invoked == s.invoked + [Invocation(id, p.tool, p.action, Checked(p, e).value, e.dryRun)])
            && (!GoesThrough(row, ruling, approver, e) ==> t.invoked == s.invoked)
            && (Approvable(row, ruling, approver, e) && e.policies.Some? && !PolicyStands(p, e) && !e.updateFails ==>
                  Leaves(t, s.calls[id := Row(p, Decided(v, DeniedPolicy, approver, e))], s.execs, s.invoked))
            && (Approvable(row, ruling, approver, e) && PolicyStands(p, e) && Checked(p, e).None?
                && !e.updateFails && !e.denialFails ==>
                  t.calls == s.calls[id := Row(p, Decided(v, DeniedParams, approver, e))])
    ensures var t := After(s, Ruled(id, ruling, approver), e); var row := s.calls[id];
            (e.updateFails || !InTime(row, e) || (ruling != Reject && !Approvable(row, ruling, approver, e)) ==>
               Leaves(t, s.calls, s.execs, s.invoked))
  {
    var Row(p, v) := s.calls[id];
    HumanDecides(s.calls[id], ruling, approver, e);
    var hv := HumanVerdict(s.calls[id], ruling, approver, e);
    var effects := ApprovalEffects(s, id, ruling, approver, e);
    if hv.Some? && hv.value.decision == Approved {
      ApprovedLeaves(s, id, hv.value, e);
    } else if |effects| == 1 {
      assert effects == [effects[0]];
      WriteLeaves(s, id, v, effects[0]);
    } else {
      assert effects == [effects[0], effects[1]];
      WriteLeaves(s, id, effects[0].verdict, effects[1]);
    }
  }

  // ---- creation and the sweep ----

  /** A new proposal is stored as it came, undecided and at no recognised tier; an old one is not touched. */
  lemma ProposalIsStored(s: Store, id: Id, p: Proposal, e: Env)
    ensures var t := DoAll(s, Effects(s, Proposed(id, p), e));
            if id in s.calls then t == s
            else t.calls == s.calls[id := Row(p, Verdict(Unrecognised(""), Pending, None, None))]
                 && t.invoked == s.invoked
  {
    if id !in s.calls { DoOne(s, Create(id, p)); }
  }

  /** The sweep stores Expired, and when, for exactly the listed calls that wait longer than the TTL and
      whose write succeeds; every other row stays. */
  lemma {:induction false} SweepLeaves(s: Store, page: seq<Id>, e: Env)
    requires Distinct(page) && forall id | id in page :: id in s.calls
    ensures var t := DoAll(s, SweepEffects(s, page, e));
            && t.invoked == s.invoked && t.calls.Keys == s.calls.Keys
            && forall id | id in s.calls ::
                 t.calls[id] ==
                 if id in page && s.calls[id].verdict.decision == AwaitingApproval
                    && e.now - s.calls[id].proposal.createdAt > e.ttl && id !in e.sweepFails
                 then Row(s.calls[id].proposal, s.calls[id].verdict.(decision := Expired, decidedAt := Some(e.now)))
                 else s.calls[id]
  {
    if page != [] {
      var front, last := page[..|page| - 1], page[|page| - 1];
      SweepLeaves(s, front, e);
      var t := DoAll(s, SweepEffects(s, front, e));
      var tail := ExpireEffects(s, last, e);
      assert page == front + [last] && last !in front;
      DoAllConcat(s, SweepEffects(s, front, e), tail);
      if tail != [] { WriteLeaves(t, last, tail[0].verdict, tail[1]); }
    }
  }
}
