/** At most once, decided first, never undecided, always audited: every run, every
    failure, every point at which the process may stop. */
module HarnessSafety {
  import opened Prelude
  import opened Verdicts
  import opened ParamSchema
  import opened HarnessModel

  // ---- lists of effects ----

  lemma DoAllAppend(s: Store, front: seq<Effect>, last: Effect)
    ensures DoAll(s, front + [last]) == Do(DoAll(s, front), last)
  {
    assert (front + [last])[..|front|] == front;
  }

  lemma {:induction false} DoAllConcat(s: Store, a: seq<Effect>, b: seq<Effect>)
    ensures DoAll(s, a + b) == DoAll(DoAll(s, a), b)
  {
    if b == [] {
      assert a + b == a;
    } else {
      var front, last := b[..|b| - 1], b[|b| - 1];
      DoAllConcat(s, a, front);
      DoAllAppend(s, a + front, last);
      assert a + b == a + front + [last];
    }
  }

  predicate WasInvoked(s: Store, id: Id) {
    exists i | 0 <= i < |s.invoked| :: s.invoked[i].call == id
  }

  // ---- the discipline every effect respects ----

  /** A verdict is written only for a call no tool has seen; a tool is reached only for a call
      whose permitting verdict is already stored and that no tool has seen. */
  predicate Legal(s: Store, eff: Effect) {
    match eff
    case Create(id, _) => id !in s.calls
    case Persist(id, _) => id in s.calls && !WasInvoked(s, id)
    case Invoke(i) => i.call in s.calls && s.calls[i.call].verdict.decision.Permits() && !WasInvoked(s, i.call)
    case SaveExecution(x) => WasInvoked(s, x.call)
    case Audit(_) => true
  }

  predicate LegalAlong(s: Store, effects: seq<Effect>) {
    effects == [] || (LegalAlong(s, effects[..|effects| - 1]) &&
                      Legal(DoAll(s, effects[..|effects| - 1]), effects[|effects| - 1]))
  }

  lemma LegalAppend(s: Store, front: seq<Effect>, last: Effect)
    requires LegalAlong(s, front) && Legal(DoAll(s, front), last)
    ensures LegalAlong(s, front + [last])
  {
    assert (front + [last])[..|front|] == front;
  }

  lemma {:induction false} LegalConcat(s: Store, a: seq<Effect>, b: seq<Effect>)
    requires LegalAlong(s, a) && LegalAlong(DoAll(s, a), b)
    ensures LegalAlong(s, a + b)
  {
    if b == [] {
      assert a + b == a;
    } else {
      var front, last := b[..|b| - 1], b[|b| - 1];
      LegalConcat(s, a, front);
      DoAllConcat(s, a, front);
      LegalAppend(s, a + front, last);
      assert a + b == a + front + [last];
    }
  }

  lemma {:induction false} LegalPrefix(s: Store, effects: seq<Effect>, k: nat)
    requires LegalAlong(s, effects) && k <= |effects|
    ensures LegalAlong(s, effects[..k])
    decreases |effects|
  {
    if k == |effects| {
      assert effects[..k] == effects;
    } else {
      LegalPrefix(s, effects[..|effects| - 1], k);
      assert effects[..|effects| - 1][..k] == effects[..k];
    }
  }

  /** Invoked at most once, only under a permitting stored verdict, and only invoked calls have records. */
  ghost predicate AtMostOnce(s: Store) {
    && (forall i, j | 0 <= i < j < |s.invoked| :: s.invoked[i].call != s.invoked[j].call)
    && (forall i | 0 <= i < |s.invoked| ::
          s.invoked[i].call in s.calls && s.calls[s.invoked[i].call].verdict.decision.Permits())
    && (forall id | id in s.execs :: WasInvoked(s, id))
  }

  lemma LegalKeepsAtMostOnce(s: Store, eff: Effect)
    requires AtMostOnce(s) && Legal(s, eff)
    ensures AtMostOnce(Do(s, eff))
  {
    var t := Do(s, eff);
    forall id | WasInvoked(s, id) ensures WasInvoked(t, id) {
      var i :| 0 <= i < |s.invoked| && s.invoked[i].call == id;
      assert t.invoked[i].call == id;
    }
  }

  lemma {:induction false} LegalRunKeepsAtMostOnce(s: Store, effects: seq<Effect>)
    requires AtMostOnce(s) && LegalAlong(s, effects)
    ensures AtMostOnce(DoAll(s, effects))
  {
    if effects != [] {
      LegalRunKeepsAtMostOnce(s, effects[..|effects| - 1]);
      LegalKeepsAtMostOnce(DoAll(s, effects[..|effects| - 1]), effects[|effects| - 1]);
    }
  }

  // ---- the handlers respect it ----

  lemma ExecuteIsLegal(s: Store, id: Id, p: Proposal, decision: Decision, params: Params, e: Env, v: Verdict)
    requires AtMostOnce(s) && id in s.calls && !WasInvoked(s, id) && v.decision.Permits()
    ensures LegalAlong(s, [Persist(id, v)] + ExecuteEffects(s, id, p, decision, params, e))
  {
    var effects := ExecuteEffects(s, id, p, decision, params, e);
    var persist, invoke, audit := Persist(id, v), effects[0], effects[|effects| - 1];
    LegalAppend(s, [], persist);
    assert [] + [persist] == [persist];
    DoAllAppend(s, [], persist);
    LegalAppend(s, [persist], invoke);
    DoAllAppend(s, [persist], invoke);
    var t := DoAll(s, [persist] + [invoke]);
    assert t.invoked[|s.invoked|].call == id;
    if |effects| == 3 {
      LegalAppend(s, [persist] + [invoke], effects[1]);
      LegalAppend(s, [persist] + [invoke] + [effects[1]], audit);
      assert [persist] + effects == [persist] + [invoke] + [effects[1]] + [audit];
    } else {
      LegalAppend(s, [persist] + [invoke], audit);
      assert [persist] + effects == [persist] + [invoke] + [audit];
    }
  }

  lemma PersistsAreLegal(s: Store, id: Id, v: Verdict, second: seq<Effect>, audit: Effect)
    requires id in s.calls && !WasInvoked(s, id) && audit.Audit?
    requires second == [] || (|second| == 1 && second[0].Persist? && second[0].call == id)
    ensures LegalAlong(s, [Persist(id, v)] + second + [audit])
    ensures LegalAlong(s, [audit]) && LegalAlong(s, [Persist(id, v), audit])
  {
    var persist := Persist(id, v);
    LegalAppend(s, [], persist);
    LegalAppend(s, [], audit);
    assert [] + [persist] == [persist] && [] + [audit] == [audit];
    DoAllAppend(s, [], persist);
    assert !WasInvoked(DoAll(s, [persist]), id);
    LegalAppend(s, [persist], audit);
    assert [persist] + [audit] == [persist, audit];
    if second != [] {
      assert second == [second[0]];
      LegalAppend(s, [persist], second[0]);
    } else {
      assert [persist] + second == [persist];
    }
    LegalAppend(s, [persist] + second, audit);
  }

  lemma UndecidedIsNotInvoked(s: Store, id: Id)
    requires AtMostOnce(s) && id in s.calls && !s.calls[id].verdict.decision.Permits()
    ensures !WasInvoked(s, id)
  {
  }

  lemma EvaluateIsLegal(s: Store, id: Id, e: Env)
    requires AtMostOnce(s) && id in s.calls
    ensures LegalAlong(s, EvaluateEffects(s, id, e))
  {
    var Row(p, v) := s.calls[id];
    if !v.decision.Terminal() {
      UndecidedIsNotInvoked(s, id);
      var effects := EvaluateEffects(s, id, e);
      var gate := Gates(p, e);
      if gate.Go? && !e.updateFails {
        ExecuteIsLegal(s, id, p, Allowed, gate.params, e, v.(decision := Allowed, risk := gate.risk));
      } else if |effects| == 1 {
        PersistsAreLegal(s, id, v, [], effects[0]);
        assert effects == [effects[0]];
      } else {
        PersistsAreLegal(s, id, effects[0].verdict, [], effects[1]);
        assert effects == [effects[0], effects[1]];
      }
    }
  }

  lemma ApprovalIsLegal(s: Store, id: Id, ruling: HumanRuling, approver: Approver, e: Env)
    requires AtMostOnce(s) && id in s.calls
    ensures LegalAlong(s, ApprovalEffects(s, id, ruling, approver, e))
  {
    var row := s.calls[id];
    var hv := HumanVerdict(row, ruling, approver, e);
    var effects := ApprovalEffects(s, id, ruling, approver, e);
    if hv.None? {
      LegalAppend(s, [], effects[0]);
      assert [] + [effects[0]] == effects;
    } else {
      UndecidedIsNotInvoked(s, id);
      if |effects| == 1 {
        PersistsAreLegal(s, id, hv.value, [], effects[0]);
        assert effects == [effects[0]];
      } else if effects[1].Audit? {
        PersistsAreLegal(s, id, effects[0].verdict, [], effects[1]);
        assert effects == [effects[0], effects[1]];
      } else if effects[1].Persist? {
        PersistsAreLegal(s, id, hv.value, [effects[1]], effects[2]);
        assert effects == [Persist(id, hv.value)] + [effects[1]] + [effects[2]];
      } else {
        var params := ValidateParams(e.tools, row.proposal.tool, row.proposal.action, row.proposal.params);
        ExecuteIsLegal(s, id, row.proposal, Approved, params.value, e, hv.value);
      }
    }
  }

  lemma ExpiryIsLegal(t: Store, id: Id, tail: seq<Effect>)
    requires tail == [] || (|tail| == 2 && tail[0].Persist? && tail[0].call == id && tail[1].Audit?)
    requires tail != [] ==> id in t.calls && !WasInvoked(t, id)
    ensures LegalAlong(t, tail) && DoAll(t, tail).invoked == t.invoked && t.calls.Keys <= DoAll(t, tail).calls.Keys
  {
    if tail != [] {
      PersistsAreLegal(t, id, tail[0].verdict, [], tail[1]);
      DoAllAppend(t, [], tail[0]);
      DoAllAppend(t, [tail[0]], tail[1]);
      assert [tail[0]] + [tail[1]] == tail == [tail[0], tail[1]] && [] + [tail[0]] == [tail[0]];
    }
  }

  lemma {:induction false} SweepIsLegal(s: Store, page: seq<Id>, e: Env)
    requires AtMostOnce(s) && forall id | id in page :: id in s.calls
    ensures LegalAlong(s, SweepEffects(s, page, e))
    ensures DoAll(s, SweepEffects(s, page, e)).invoked == s.invoked
    ensures s.calls.Keys <= DoAll(s, SweepEffects(s, page, e)).calls.Keys
  {
    if page != [] {
      var front, id := page[..|page| - 1], page[|page| - 1];
      SweepIsLegal(s, front, e);
      var before, tail := SweepEffects(s, front, e), ExpireEffects(s, id, e);
      var t := DoAll(s, before);
      if tail != [] {
        UndecidedIsNotInvoked(s, id);
        assert !WasInvoked(t, id);
      }
      ExpiryIsLegal(t, id, tail);
      LegalConcat(s, before, tail);
      DoAllConcat(s, before, tail);
    }
  }

  lemma HandlersAreLegal(s: Store, event: Event, e: Env)
    requires AtMostOnce(s)
    ensures LegalAlong(s, Effects(s, event, e))
  {
    match event
    case Proposed(id, proposal) =>
      if id !in s.calls {
        LegalAppend(s, [], Create(id, proposal));
        assert [] + [Create(id, proposal)] == Effects(s, event, e);
      }
    case Requested(id) => if id in s.calls { EvaluateIsLegal(s, id, e); }
    case Ruled(id, ruling, approver) => if id in s.calls { ApprovalIsLegal(s, id, ruling, approver, e); }
    case Swept(page) => if Effects(s, event, e) != [] { SweepIsLegal(s, page, e); }
  }

  lemma StepKeepsAtMostOnce(s: Store, a: Activation)
    requires AtMostOnce(s)
    ensures AtMostOnce(Step(s, a))
  {
    var effects := Effects(s, a.event, a.env);
    HandlersAreLegal(s, a.event, a.env);
    LegalPrefix(s, effects, |Prefix(effects, a.kept)|);
    assert effects[..|Prefix(effects, a.kept)|] == Prefix(effects, a.kept);
    LegalRunKeepsAtMostOnce(s, Prefix(effects, a.kept));
  }

  /** Under any mix of redelivery, failing writes and stops: no call reaches a tool twice, and
      one that did has its permitting decision stored. */
  lemma {:induction false} InvokedAtMostOnceInEveryRun(run: seq<Activation>)
    ensures AtMostOnce(Run(run))
  {
    if run != [] {
      InvokedAtMostOnceInEveryRun(run[..|run| - 1]);
      StepKeepsAtMostOnce(Run(run[..|run| - 1]), run[|run| - 1]);
    }
  }

  // ---- decided means decided ----

  /** The list neither rewrites nor re-creates this row. */
  predicate LeavesAlone(effects: seq<Effect>, id: Id) {
    forall i | 0 <= i < |effects| :: (effects[i].Create? || effects[i].Persist?) ==> effects[i].call != id
  }

  lemma {:induction false} LeftAlone(s: Store, effects: seq<Effect>, id: Id)
    requires id in s.calls && LeavesAlone(effects, id)
    ensures id in DoAll(s, effects).calls && DoAll(s, effects).calls[id] == s.calls[id]
  {
    if effects != [] { LeftAlone(s, effects[..|effects| - 1], id); }
  }

  predicate CreatesNothingOld(s: Store, effects: seq<Effect>) {
    forall i | 0 <= i < |effects| :: effects[i].Create? ==> effects[i].call !in s.calls
  }

  lemma {:induction false} ProposalsStay(s: Store, effects: seq<Effect>)
    requires CreatesNothingOld(s, effects)
    ensures forall id | id in s.calls ::
              id in DoAll(s, effects).calls && DoAll(s, effects).calls[id].proposal == s.calls[id].proposal
  {
    if effects != [] { ProposalsStay(s, effects[..|effects| - 1]); }
  }

  lemma {:induction false} SweepTouches(s: Store, page: seq<Id>, e: Env)
    requires forall id | id in page :: id in s.calls
    ensures forall i | 0 <= i < |SweepEffects(s, page, e)| ::
              var eff := SweepEffects(s, page, e)[i];
              (eff.Persist? && eff.call in page && eff.call in s.calls && Lapsed(s.calls[eff.call], e)) || eff.Audit?
  {
    if page != [] { SweepTouches(s, page[..|page| - 1], e); }
  }

  // ---- the shape of a handler's effects ----

  /** Writes to one row and calls to its tool, then one ledger attempt about it. */
  ghost predicate Shape(id: Id, effects: seq<Effect>) {
    && effects != [] && effects[|effects| - 1].Audit? && effects[|effects| - 1].attempt.call == id
    && forall i | 0 <= i < |effects| - 1 :: Inner(id, effects[i])
  }

  predicate Inner(id: Id, eff: Effect) {
    (eff.Persist? && eff.call == id) || eff.Invoke? || eff.SaveExecution?
  }

  lemma PrependShape(id: Id, first: Effect, rest: seq<Effect>)
    requires Inner(id, first) && Shape(id, rest)
    ensures Shape(id, [first] + rest)
  {
    var all := [first] + rest;
    forall i | 0 <= i < |all| - 1 ensures Inner(id, all[i]) { if i > 0 { assert all[i] == rest[i - 1]; } }
  }

  lemma PermittedShape(s: Store, id: Id, v: Verdict, params: Params, e: Env)
    requires id in s.calls
    ensures Shape(id, PermittedEffects(s, id, v, params, e))
  {
    if !e.updateFails {
      PrependShape(id, Persist(id, v), ExecuteEffects(s, id, s.calls[id].proposal, v.decision, params, e));
    }
  }

  lemma ApprovedShape(s: Store, id: Id, v: Verdict, e: Env)
    requires id in s.calls
    ensures Shape(id, ApprovedEffects(s, id, v, e))
  {
    if ApprovedEffects(s, id, v, e) == [Persist(id, v)] + RevalidatedEffects(s, id, v, e) {
      assert Shape(id, RevalidatedEffects(s, id, v, e));
      PrependShape(id, Persist(id, v), RevalidatedEffects(s, id, v, e));
    }
  }

  lemma EvaluateShape(s: Store, id: Id, e: Env)
    requires id in s.calls && !s.calls[id].verdict.decision.Terminal()
    ensures Shape(id, EvaluateEffects(s, id, e))
  {
    var g := Gates(s.calls[id].proposal, e);
    if g.Go? { PermittedShape(s, id, s.calls[id].verdict.(decision := Allowed, risk := g.risk), g.params, e); }
  }

  lemma ApprovalShape(s: Store, id: Id, ruling: HumanRuling, approver: Approver, e: Env)
    requires id in s.calls
    ensures Shape(id, ApprovalEffects(s, id, ruling, approver, e))
    ensures s.calls[id].verdict.decision.Terminal() ==> |ApprovalEffects(s, id, ruling, approver, e)| == 1
  {
    var hv := HumanVerdict(s.calls[id], ruling, approver, e);
    if hv.Some? && hv.value.decision == Approved { ApprovedShape(s, id, hv.value, e); }
  }

  /** A handler may write an undecided row it was called for, or a new one. */
  predicate MayTouch(s: Store, eff: Effect) {
    && (eff.Create? ==> eff.call !in s.calls)
    && (eff.Persist? ==> eff.call in s.calls && !s.calls[eff.call].verdict.decision.Terminal())
  }

  lemma ShapedMayTouch(s: Store, id: Id, effects: seq<Effect>)
    requires Shape(id, effects) && id in s.calls && (s.calls[id].verdict.decision.Terminal() ==> |effects| == 1)
    ensures forall i | 0 <= i < |effects| :: MayTouch(s, effects[i])
  {
    forall i | 0 <= i < |effects| ensures MayTouch(s, effects[i]) {
      if i < |effects| - 1 { assert Inner(id, effects[i]); }
    }
  }

  lemma HandlersTouchOnlyUndecided(s: Store, event: Event, e: Env)
    ensures forall i | 0 <= i < |Effects(s, event, e)| :: MayTouch(s, Effects(s, event, e)[i])
  {
    match event
    case Proposed(_, _) =>
    case Requested(id) =>
      if Effects(s, event, e) != [] {
        EvaluateShape(s, id, e);
        ShapedMayTouch(s, id, EvaluateEffects(s, id, e));
      }
    case Ruled(id, ruling, approver) =>
      if id in s.calls {
        ApprovalShape(s, id, ruling, approver, e);
        ShapedMayTouch(s, id, ApprovalEffects(s, id, ruling, approver, e));
      }
    case Swept(page) => if Effects(s, event, e) != [] { SweepTouches(s, page, e); }
  }

  /** The decisions that end a call, and the two of them that let its tool run. */
  lemma DecidedMeans(d: Decision)
    ensures d.Terminal() <==> d in {Allowed, DeniedUnknown, DeniedParams, DeniedPermission, DeniedPolicy, Approved,
                                    Rejected, Expired}
    ensures d.Permits() <==> d in {Allowed, Approved}
  {
  }

  /** No handler call, however it ends, changes a terminal stored decision or any proposal. */
  lemma TerminalIsForever(s: Store, a: Activation, id: Id)
    requires id in s.calls
    ensures id in Step(s, a).calls && Step(s, a).calls[id].proposal == s.calls[id].proposal
    ensures s.calls[id].verdict.decision.Terminal() ==> Step(s, a).calls[id] == s.calls[id]
  {
    HandlersTouchOnlyUndecided(s, a.event, a.env);
    var effects := Effects(s, a.event, a.env);
    var prefix := Prefix(effects, a.kept);
    assert forall i | 0 <= i < |prefix| :: prefix[i] == effects[i];
    ProposalsStay(s, prefix);
    if s.calls[id].verdict.decision.Terminal() { LeftAlone(s, prefix, id); }
  }
}
