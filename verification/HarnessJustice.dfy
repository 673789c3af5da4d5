/** Why each tool invocation happened: every one in every run traces back to rules that
    allowed it at the time, or to a human with the authority for the tier it was parked at. */
module HarnessJustice {
  import opened Prelude
  import opened Verdicts
  import opened ParamSchema
  import opened HarnessModel
  import opened HarnessSafety
  import Permissions
  import Policies
  import Rbac

  // ---- the reasons, stated over the rule tables and not over the compiled forms ----

  /** The rules then served permit this agent kind the action, and the parameters are valid. */
  ghost predicate Permitted(p: Proposal, e: Env) {
    && ValidateParams(e.tools, p.tool, p.action, p.params).Some?
    && e.agentKind.Some? && e.permissions.Some? && e.policies.Some?
    && Permissions.WonByAllow(e.permissions.value, e.agentKind.value, p.tool, p.action)
  }

  ghost predicate Governed(p: Proposal, e: Env, pol: Policies.Policy) {
    e.policies.Some? && Policies.Governs(pol, e.policies.value, p.tool, p.action)
  }

  /** Nothing asked for a human: not forbidden, within a real ceiling, no approval demanded, sure enough. */
  ghost predicate AutoAllowed(p: Proposal, e: Env) {
    && Permitted(p, e)
    && exists pol :: Governed(p, e, pol) && pol.risk != Forbidden && !pol.requiresApproval
                     && e.ceiling.Some? && pol.risk.Rank() <= e.ceiling.value.Rank()
                     && p.confidence >= pol.minConfidence
  }

  /** This delivery put the call in front of a human, at the tier of the policy it met. */
  ghost predicate Parks(a: Activation, id: Id, p: Proposal, tier: Risk) {
    && a.event == Requested(id) && Gates(p, a.env) == Park(tier)
    && Permitted(p, a.env) && tier != Forbidden
    && exists pol :: Governed(p, a.env, pol) && pol.risk == tier
  }

  /** Before every later activation of the run, the stored row was exactly this. */
  ghost predicate StandsSince(run: seq<Activation>, j: nat, id: Id, row: Row) {
    forall m | j < m < |run| :: id in Run(run[..m]).calls && Run(run[..m]).calls[id] == row
  }

  /** Activation j parked the call as `row` records it, and nothing has rewritten the row since. */
  ghost predicate Waiting(run: seq<Activation>, j: nat, id: Id, row: Row) {
    j < |run| && Parks(run[j], id, row.proposal, row.verdict.risk) && StandsSince(run, j, id, row)
  }

  /** This ruling approves the call as it is stored now: awaiting, in time, by a role with the
      authority for the recorded tier, under a policy that still exists and is not forbidden. */
  ghost predicate Approves(s: Store, a: Activation, id: Id) {
    && id in s.calls && s.calls[id].verdict.decision == AwaitingApproval
    && a.event.Ruled? && a.event.call == id && a.event.ruling == Approve
    && Rbac.CanApproveRisk(a.event.approver.role, s.calls[id].verdict.risk)
    && a.env.now - s.calls[id].proposal.createdAt <= a.env.ttl
    && exists pol :: Governed(s.calls[id].proposal, a.env, pol) && pol.risk != Forbidden
  }

  /** Why activation a, coming after `before`, may make this invocation. */
  ghost predicate Reason(before: seq<Activation>, a: Activation, i: Invocation, p: Proposal) {
    && i.tool == p.tool && i.action == p.action && i.dryRun == a.env.dryRun
    && ValidateParams(a.env.tools, p.tool, p.action, p.params) == Some(i.params)
    && !WasInvoked(Run(before), i.call)
    && (|| (a.event == Requested(i.call) && Gates(p, a.env).Go? && AutoAllowed(p, a.env))
        || (Approves(Run(before), a, i.call) &&
            exists j: nat :: Waiting(before, j, i.call, Run(before).calls[i.call])))
  }

  /** Activation k made the invocation, with a reason; the last activation may not be over yet. */
  ghost predicate Made(run: seq<Activation>, k: nat, i: Invocation, p: Proposal) {
    && k < |run| && Reason(run[..k], run[k], i, p)
    && (k + 1 < |run| ==> i in Run(run[..k + 1]).invoked)
  }

  ghost predicate Justified(run: seq<Activation>, s: Store, i: Invocation) {
    i.call in s.calls && exists k: nat :: Made(run, k, i, s.calls[i.call].proposal)
  }

  ghost predicate WaitsLegitimately(run: seq<Activation>, s: Store, id: Id) {
    id in s.calls &&
    (s.calls[id].verdict.decision == AwaitingApproval ==> exists j: nat :: Waiting(run, j, id, s.calls[id]))
  }

  ghost predicate Just(run: seq<Activation>, s: Store) {
    && (forall i | i in s.invoked :: Justified(run, s, i))
    && (forall id | id in s.calls :: WaitsLegitimately(run, s, id))
  }

  // ---- a gate verdict gives its reason ----

  lemma GateReasons(p: Proposal, e: Env)
    ensures var g := Gates(p, e);
            && (g.Go? ==> AutoAllowed(p, e) && ValidateParams(e.tools, p.tool, p.action, p.params) == Some(g.params))
            && (g.Park? ==> Permitted(p, e) && exists pol :: Governed(p, e, pol) && pol.risk == g.risk != Forbidden)
  {
    var g := Gates(p, e);
    if g.Go? || g.Park? {
      Permissions.AllowsPicksABestRule(e.permissions.value, e.agentKind.value, p.tool, p.action);
      Policies.AllowedExactlyWhen(e.policies.value, e.ceiling, p.tool, p.action, p.confidence);
      Policies.ForGoverns(e.policies.value, p.tool, p.action);
      var ruling := RulingFor(p, e.policies.value, e);
      assert Governed(p, e, ruling.policy.value);
    }
  }

  // ---- what one handler call adds ----

  /** A run keeps its reasons when it goes on. */
  lemma ReasonsExtend(run: seq<Activation>, a: Activation)
    requires Just(run, Run(run))
    ensures Just(run + [a], Run(run))
  {
    var longer, s := run + [a], Run(run);
    assert longer[..|run|] == run;
    assert forall m: nat | m <= |run| :: longer[..m] == run[..m];
    forall i | i in s.invoked ensures Justified(longer, s, i) {
      assert Justified(run, s, i);
      var k: nat :| Made(run, k, i, s.calls[i.call].proposal);
      assert run[..k + 1] == run || k + 1 < |run|;
      assert Made(longer, k, i, s.calls[i.call].proposal);
    }
    forall id | id in s.calls ensures WaitsLegitimately(longer, s, id) {
      assert WaitsLegitimately(run, s, id);
      if s.calls[id].verdict.decision == AwaitingApproval {
        var j: nat :| Waiting(run, j, id, s.calls[id]);
        assert Waiting(longer, j, id, s.calls[id]);
      }
    }
  }

  /** Everything this effect brings about has a reason in the run. */
  ghost predicate EffectJust(run: seq<Activation>, s: Store, eff: Effect) {
    match eff
    case Create(id, p) => id !in s.calls
    case Persist(id, v) =>
      id in s.calls && (v.decision == AwaitingApproval ==>
                          exists j: nat :: Waiting(run, j, id, Row(s.calls[id].proposal, v)))
    case Invoke(i) => Justified(run, s, i)
    case _ => true
  }

  /** Each effect is just in the store the handler found; nothing is created over an old row. */
  ghost predicate AllJust(run: seq<Activation>, s: Store, effects: seq<Effect>) {
    forall n | 0 <= n < |effects| :: EffectJust(run, s, effects[n])
  }

  predicate AtMostOneCreate(effects: seq<Effect>) {
    forall n | 0 <= n < |effects| :: effects[n].Create? ==> |effects| == 1
  }

  lemma {:induction false} JustEffectsKeepJust(run: seq<Activation>, s: Store, effects: seq<Effect>)
    requires Just(run, s) && AllJust(run, s, effects) && AtMostOneCreate(effects)
    ensures Just(run, DoAll(s, effects))
  {
    if effects != [] {
      var front, last := effects[..|effects| - 1], effects[|effects| - 1];
      JustEffectsKeepJust(run, s, front);
      ProposalsStay(s, front);
      OneMoreJustEffect(run, s, DoAll(s, front), last);
    }
  }

  /** From any store the handler has reached so far. */
  lemma OneMoreJustEffect(run: seq<Activation>, s: Store, t: Store, last: Effect)
    requires Just(run, t) && EffectJust(run, s, last)
    requires forall id | id in s.calls :: id in t.calls && t.calls[id].proposal == s.calls[id].proposal
    requires last.Create? ==> last.call !in t.calls
    ensures Just(run, Do(t, last))
  {
    var u := Do(t, last);
    forall i | i in u.invoked ensures Justified(run, u, i) {
      if i in t.invoked { assert Justified(run, t, i); } else { assert Justified(run, s, i); }
    }
    forall id | id in u.calls ensures WaitsLegitimately(run, u, id) {
      if id in t.calls { assert WaitsLegitimately(run, t, id); }
    }
  }

  lemma PrependJust(run: seq<Activation>, s: Store, first: Effect, rest: seq<Effect>)
    requires EffectJust(run, s, first) && AllJust(run, s, rest)
    ensures AllJust(run, s, [first] + rest)
  {
    var all := [first] + rest;
    forall n | 0 <= n < |all| ensures EffectJust(run, s, all[n]) { if n > 0 { assert all[n] == rest[n - 1]; } }
  }

  lemma ExecutionIsJust(run: seq<Activation>, s: Store, id: Id, p: Proposal, d: Decision, params: Params, e: Env)
    requires Justified(run, s, Invocation(id, p.tool, p.action, params, e.dryRun))
    ensures AllJust(run, s, ExecuteEffects(s, id, p, d, params, e))
  {
    var rest := ExecuteParts(s, id, p, d, params, e);
    HarmlessIsJust(run, s, rest);
    PrependJust(run, s, Invoke(Invocation(id, p.tool, p.action, params, e.dryRun)), rest);
  }

  lemma ExecuteParts(s: Store, id: Id, p: Proposal, d: Decision, params: Params, e: Env) returns (rest: seq<Effect>)
    ensures ExecuteEffects(s, id, p, d, params, e) ==
            [Invoke(Invocation(id, p.tool, p.action, params, e.dryRun))] + rest
    ensures forall n | 0 <= n < |rest| :: rest[n].SaveExecution? || rest[n].Audit?
  {
    rest := ExecuteEffects(s, id, p, d, params, e)[1..];
  }

  lemma HarmlessIsJust(run: seq<Activation>, s: Store, effects: seq<Effect>)
    requires forall n | 0 <= n < |effects| :: effects[n].SaveExecution? || effects[n].Audit?
    ensures AllJust(run, s, effects)
  {
  }

  lemma PermittedIsJust(run: seq<Activation>, s: Store, id: Id, v: Verdict, params: Params, e: Env)
    requires id in s.calls && v.decision != AwaitingApproval
    requires var p := s.calls[id].proposal; Justified(run, s, Invocation(id, p.tool, p.action, params, e.dryRun))
    ensures AllJust(run, s, PermittedEffects(s, id, v, params, e))
  {
    if !e.updateFails {
      var p := s.calls[id].proposal;
      ExecutionIsJust(run, s, id, p, v.decision, params, e);
      PrependJust(run, s, Persist(id, v), ExecuteEffects(s, id, p, v.decision, params, e));
    }
  }

  lemma LastMade(before: seq<Activation>, a: Activation, i: Invocation, p: Proposal)
    requires Reason(before, a, i, p)
    ensures Made(before + [a], |before|, i, p)
  {
    assert (before + [a])[..|before|] == before;
  }

  lemma EvaluationIsJust(run: seq<Activation>, s: Store, id: Id, e: Env)
    requires id in s.calls && !s.calls[id].verdict.decision.Terminal()
    requires var p := s.calls[id].proposal; var g := Gates(p, e);
             g.Go? ==> Justified(run, s, Invocation(id, p.tool, p.action, g.params, e.dryRun))
    requires var row := s.calls[id]; var g := Gates(row.proposal, e);
             g.Park? ==>
               exists j: nat ::
                 Waiting(run, j, id, row.(verdict := row.verdict.(decision := AwaitingApproval, risk := g.risk)))
    ensures AllJust(run, s, EvaluateEffects(s, id, e))
  {
    var Row(p, v) := s.calls[id];
    var g := Gates(p, e);
    if g.Go? {
      PermittedIsJust(run, s, id, v.(decision := Allowed, risk := g.risk), g.params, e);
    } else {
      StoppedIsJust(run, s, id, e, g);
    }
  }

  lemma EvaluateIsJust(before: seq<Activation>, id: Id, a: Activation)
    requires a.event == Requested(id) && id in Run(before).calls
    ensures AllJust(before + [a], Run(before), EvaluateEffects(Run(before), id, a.env))
  {
    var s, e := Run(before), a.env;
    var Row(p, v) := s.calls[id];
    if !v.decision.Terminal() {
      GateReasons(p, e);
      var g := Gates(p, e);
      if g.Go? {
        InvokedAtMostOnceInEveryRun(before);
        UndecidedIsNotInvoked(s, id);
        LastMade(before, a, Invocation(id, p.tool, p.action, g.params, e.dryRun), p);
      } else if g.Park? {
        assert Waiting(before + [a], |before|, id, Row(p, v.(decision := AwaitingApproval, risk := g.risk)));
      }
      EvaluationIsJust(before + [a], s, id, e);
    }
  }

  lemma StoppedIsJust(run: seq<Activation>, s: Store, id: Id, e: Env, g: Gate)
    requires id in s.calls && g == Gates(s.calls[id].proposal, e) && !g.Go?
    requires var row := s.calls[id];
             g.Park? ==>
               exists j: nat ::
                 Waiting(run, j, id, row.(verdict := row.verdict.(decision := AwaitingApproval, risk := g.risk)))
    ensures AllJust(run, s, EvaluateEffects(s, id, e))
  {
    RefusalsDoNotPark(s.calls[id].proposal, e);
  }

  lemma RefusalsDoNotPark(p: Proposal, e: Env)
    ensures Gates(p, e).Refuse? ==> Gates(p, e).decision != AwaitingApproval
  {
  }

  /** What an approval that goes through says, over the stored row it rules on. */
  lemma ApprovalHasAReason(s: Store, id: Id, a: Activation, v: Verdict)
    requires a.event.Ruled? && a.event.call == id && id in s.calls
    requires HumanVerdict(s.calls[id], a.event.ruling, a.event.approver, a.env) == Some(v) && v.decision == Approved
    requires a.env.policies.Some?
    requires RulingFor(s.calls[id].proposal, a.env.policies.value, a.env).decision != DeniedPolicy
    ensures Approves(s, a, id)
  {
    var p, e := s.calls[id].proposal, a.env;
    Policies.AllowedExactlyWhen(e.policies.value, e.ceiling, p.tool, p.action, p.confidence);
    Policies.ForGoverns(e.policies.value, p.tool, p.action);
    assert Governed(p, e, RulingFor(p, e.policies.value, e).policy.value);
  }

  lemma ApprovedCallIsJustified(before: seq<Activation>, id: Id, a: Activation, v: Verdict, params: Params)
    requires a.event.Ruled? && a.event.call == id && id in Run(before).calls
    requires WaitsLegitimately(before, Run(before), id) && Approves(Run(before), a, id)
    requires var p := Run(before).calls[id].proposal;
             ValidateParams(a.env.tools, p.tool, p.action, p.params) == Some(params)
    ensures var p := Run(before).calls[id].proposal;
            Justified(before + [a], Run(before), Invocation(id, p.tool, p.action, params, a.env.dryRun))
  {
    var p := Run(before).calls[id].proposal;
    InvokedAtMostOnceInEveryRun(before);
    UndecidedIsNotInvoked(Run(before), id);
    LastMade(before, a, Invocation(id, p.tool, p.action, params, a.env.dryRun), p);
  }

  lemma RevalidatedIsJust(run: seq<Activation>, s: Store, id: Id, v: Verdict, e: Env)
    requires id in s.calls && v.decision == Approved
    requires RunningIsJust(run, s, id, e)
    ensures AllJust(run, s, [Persist(id, v)] + RevalidatedEffects(s, id, v, e))
  {
    var p := s.calls[id].proposal;
    var params := ValidateParams(e.tools, p.tool, p.action, p.params);
    if params.Some? { ExecutionIsJust(run, s, id, p, v.decision, params.value, e); }
    PrependJust(run, s, Persist(id, v), RevalidatedEffects(s, id, v, e));
  }

  /** The policies now served still let an approval through. */
  predicate StillAllowed(p: Proposal, e: Env) {
    e.policies.Some? && RulingFor(p, e.policies.value, e).decision != DeniedPolicy
  }

  lemma WithdrawnIsJust(run: seq<Activation>, s: Store, id: Id, v: Verdict, e: Env)
    requires id in s.calls && !StillAllowed(s.calls[id].proposal, e)
    ensures AllJust(run, s, ApprovedEffects(s, id, v, e))
  {
  }

  /** If running it now would be justified, all that follows an approval is. */
  ghost predicate RunningIsJust(run: seq<Activation>, s: Store, id: Id, e: Env)
    requires id in s.calls
  {
    var p := s.calls[id].proposal;
    var params := ValidateParams(e.tools, p.tool, p.action, p.params);
    params.Some? ==> Justified(run, s, Invocation(id, p.tool, p.action, params.value, e.dryRun))
  }

  lemma ApprovedIsJust(run: seq<Activation>, s: Store, id: Id, v: Verdict, e: Env)
    requires id in s.calls && v.decision == Approved
    requires StillAllowed(s.calls[id].proposal, e) ==> RunningIsJust(run, s, id, e)
    ensures AllJust(run, s, ApprovedEffects(s, id, v, e))
  {
    if StillAllowed(s.calls[id].proposal, e) {
      RevalidatedIsJust(run, s, id, v, e);
    } else {
      WithdrawnIsJust(run, s, id, v, e);
    }
  }

  lemma RulingIsJust(run: seq<Activation>, s: Store, id: Id, ruling: HumanRuling, approver: Approver, e: Env)
    requires id in s.calls
    requires var hv := HumanVerdict(s.calls[id], ruling, approver, e);
             hv.Some? && hv.value.decision == Approved && StillAllowed(s.calls[id].proposal, e) ==>
               RunningIsJust(run, s, id, e)
    ensures AllJust(run, s, ApprovalEffects(s, id, ruling, approver, e))
  {
    var hv := HumanVerdict(s.calls[id], ruling, approver, e);
    if hv.Some? && hv.value.decision == Approved { ApprovedIsJust(run, s, id, hv.value, e); }
  }

  lemma ApprovalIsJust(before: seq<Activation>, id: Id, a: Activation)
    requires a.event.Ruled? && a.event.call == id && id in Run(before).calls
    requires WaitsLegitimately(before, Run(before), id)
    ensures AllJust(before + [a], Run(before),
                    ApprovalEffects(Run(before), id, a.event.ruling, a.event.approver, a.env))
  {
    var s, e := Run(before), a.env;
    var p := s.calls[id].proposal;
    var hv := HumanVerdict(s.calls[id], a.event.ruling, a.event.approver, e);
    var params := ValidateParams(e.tools, p.tool, p.action, p.params);
    if hv.Some? && hv.value.decision == Approved && StillAllowed(p, e) {
      ApprovalHasAReason(s, id, a, hv.value);
      if params.Some? { ApprovedCallIsJustified(before, id, a, hv.value, params.value); }
    }
    RulingIsJust(before + [a], s, id, a.event.ruling, a.event.approver, e);
  }

  lemma {:induction false} SweepIsJust(run: seq<Activation>, s: Store, page: seq<Id>, e: Env)
    requires forall id | id in page :: id in s.calls
    ensures AllJust(run, s, SweepEffects(s, page, e))
    ensures forall n | 0 <= n < |SweepEffects(s, page, e)| :: !SweepEffects(s, page, e)[n].Create?
  {
    if page != [] { SweepIsJust(run, s, page[..|page| - 1], e); }
  }

  lemma CreationStandsAlone(s: Store, event: Event, e: Env)
    ensures AtMostOneCreate(Effects(s, event, e))
  {
    if !event.Proposed? && Effects(s, event, e) != [] {
      match event
      case Requested(id) =>
        EvaluateShape(s, id, e);
        ShapedCreatesNothing(id, EvaluateEffects(s, id, e));
      case Ruled(id, ruling, approver) =>
        ApprovalShape(s, id, ruling, approver, e);
        ShapedCreatesNothing(id, ApprovalEffects(s, id, ruling, approver, e));
      case Swept(page) => SweepIsJust([], s, page, e);
    }
  }

  lemma ShapedCreatesNothing(id: Id, effects: seq<Effect>)
    requires Shape(id, effects)
    ensures AtMostOneCreate(effects)
  {
    forall n | 0 <= n < |effects| ensures !effects[n].Create? {
      if n < |effects| - 1 { assert Inner(id, effects[n]); }
    }
  }

  lemma HandlersAreJust(before: seq<Activation>, a: Activation)
    requires Just(before, Run(before))
    ensures AllJust(before + [a], Run(before), Effects(Run(before), a.event, a.env))
  {
    var s := Run(before);
    match a.event
    case Proposed(id, p) =>
    case Requested(id) => if id in s.calls { EvaluateIsJust(before, id, a); }
    case Ruled(id, ruling, approver) =>
      if id in s.calls {
        assert WaitsLegitimately(before, s, id);
        ApprovalIsJust(before, id, a);
      }
    case Swept(page) => if Effects(s, a.event, a.env) != [] { SweepIsJust(before + [a], s, page, a.env); }
  }

  lemma {:induction false} RunsAreJust(run: seq<Activation>)
    ensures Just(run, Run(run))
  {
    if run != [] {
      var before, a := run[..|run| - 1], run[|run| - 1];
      assert run == before + [a];
      RunsAreJust(before);
      var s := Run(before);
      ReasonsExtend(before, a);
      HandlersAreJust(before, a);
      CreationStandsAlone(s, a.event, a.env);
      var effects := Effects(s, a.event, a.env);
      var prefix := Prefix(effects, a.kept);
      assert forall n | 0 <= n < |prefix| :: prefix[n] == effects[n];
      JustEffectsKeepJust(run, s, prefix);
    }
  }

  /** The activation that made the invocation: the call was not invoked before it and is after it. */
  ghost predicate Explains(run: seq<Activation>, k: nat, i: Invocation) {
    && k < |run| && i.call in Run(run).calls
    && Reason(run[..k], run[k], i, Run(run).calls[i.call].proposal)
    && i in Run(run[..k + 1]).invoked
  }

  /** Justified execution: for every run, every stop point and every failure, each invocation was made
      by an activation that had a reason at that very step. */
  lemma EveryInvocationIsJustified(run: seq<Activation>)
    ensures forall i | i in Run(run).invoked :: exists k: nat :: Explains(run, k, i)
  {
    RunsAreJust(run);
    forall i | i in Run(run).invoked ensures exists k: nat :: Explains(run, k, i) {
      assert Justified(run, Run(run), i);
      var k: nat :| Made(run, k, i, Run(run).calls[i.call].proposal);
      assert k + 1 < |run| || run[..k + 1] == run;
      assert Explains(run, k, i);
    }
  }
}
