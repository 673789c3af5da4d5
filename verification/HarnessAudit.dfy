/** The ledger side of the pipeline: one attempt per decision, and an honest outcome. */
module HarnessAudit {
  import opened Prelude
  import opened Verdicts
  import opened ParamSchema
  import opened HarnessModel
  import opened HarnessSafety

  function Audits(effects: seq<Effect>): nat {
    if effects == [] then 0
    else Audits(effects[..|effects| - 1]) + if effects[|effects| - 1].Audit? then 1 else 0
  }

  function Persists(effects: seq<Effect>): nat {
    if effects == [] then 0
    else Persists(effects[..|effects| - 1]) + if effects[|effects| - 1].Persist? then 1 else 0
  }

  lemma {:induction false} CountsAdd(a: seq<Effect>, b: seq<Effect>)
    ensures Audits(a + b) == Audits(a) + Audits(b)
    ensures Persists(a + b) == Persists(a) + Persists(b)
  {
    if b == [] {
      assert a + b == a;
    } else {
      CountsAdd(a, b[..|b| - 1]);
      assert (a + b)[..|a + b| - 1] == a + b[..|b| - 1];
    }
  }

  /** Exactly the last effect is the ledger attempt. */
  predicate AuditedOnce(effects: seq<Effect>) {
    && effects != [] && effects[|effects| - 1].Audit?
    && forall i | 0 <= i < |effects| - 1 :: !effects[i].Audit?
  }

  lemma {:induction false} NoAudits(effects: seq<Effect>)
    requires forall i | 0 <= i < |effects| :: !effects[i].Audit?
    ensures Audits(effects) == 0
  {
    if effects != [] { NoAudits(effects[..|effects| - 1]); }
  }

  /** Every non-terminal evaluation and every ruling on a call that loads makes one attempt, last;
      a terminal one does nothing at all. */
  lemma OneAttemptPerDecision(s: Store, event: Event, e: Env)
    requires (event.Requested? || event.Ruled?) && event.call in s.calls
    ensures var effects := Effects(s, event, e);
            if event.Requested? && s.calls[event.call].verdict.decision.Terminal() then effects == []
            else AuditedOnce(effects) && Audits(effects) == 1 && effects[|effects| - 1].attempt.call == event.call
  {
    match event {
      case Requested(id) =>
        if !s.calls[id].verdict.decision.Terminal() {
          EvaluateShape(s, id, e);
          ShapedIsAuditedOnce(id, EvaluateEffects(s, id, e));
        }
      case Ruled(id, ruling, approver) =>
        ApprovalShape(s, id, ruling, approver, e);
        ShapedIsAuditedOnce(id, ApprovalEffects(s, id, ruling, approver, e));
    }
  }

  lemma ShapedIsAuditedOnce(id: Id, effects: seq<Effect>)
    requires Shape(id, effects)
    ensures AuditedOnce(effects) && Audits(effects) == 1
  {
    forall i | 0 <= i < |effects| - 1 ensures !effects[i].Audit? { assert Inner(id, effects[i]); }
    NoAudits(effects[..|effects| - 1]);
  }

  /** The sweep makes one attempt for each expiry it stored, and none for the rest. */
  lemma {:induction false} OneAttemptPerExpiry(s: Store, page: seq<Id>, e: Env)
    requires forall id | id in page :: id in s.calls
    ensures Audits(SweepEffects(s, page, e)) == Persists(SweepEffects(s, page, e))
  {
    if page != [] {
      var tail := ExpireEffects(s, page[|page| - 1], e);
      OneAttemptPerExpiry(s, page[..|page| - 1], e);
      CountsAdd(SweepEffects(s, page[..|page| - 1], e), tail);
      if tail != [] {
        CountsAdd([tail[0]], [tail[1]]);
        assert tail == [tail[0]] + [tail[1]];
        assert Audits([tail[0]]) == 0 && Persists([tail[0]]) == 1 by { assert [tail[0]][..0] == []; }
        assert Audits([tail[1]]) == 1 && Persists([tail[1]]) == 0 by { assert [tail[1]][..0] == []; }
      }
    }
  }

  predicate Reaches(effects: seq<Effect>) {
    exists i | 0 <= i < |effects| :: effects[i].Invoke?
  }

  /** What an outcome says about the tool: executed and dry_run only if it ran, denied and
      allowed only if it did not. */
  ghost predicate Honest(effects: seq<Effect>, e: Env) {
    effects != [] && effects[|effects| - 1].Audit? &&
    var outcome := effects[|effects| - 1].attempt.outcome;
    && (outcome == OutcomeExecuted <==> Reaches(effects) && !e.saveFails && !e.dryRun && e.toolResult == Returned)
    && (outcome == OutcomeDryRun <==> Reaches(effects) && !e.saveFails && e.dryRun)
    && (outcome in {OutcomeDenied, OutcomeAllowed} ==> !Reaches(effects))
  }

  lemma ExecutionIsHonest(s: Store, id: Id, p: Proposal, d: Decision, params: Params, e: Env, first: Effect)
    requires d.Permits() && first.Persist?
    ensures Honest([first] + ExecuteEffects(s, id, p, d, params, e), e)
  {
    assert ([first] + ExecuteEffects(s, id, p, d, params, e))[1].Invoke?;
  }

  lemma EvaluationIsHonest(s: Store, id: Id, e: Env)
    requires id in s.calls && !s.calls[id].verdict.decision.Terminal()
    ensures Honest(EvaluateEffects(s, id, e), e)
    ensures EvaluateEffects(s, id, e)[|EvaluateEffects(s, id, e)| - 1].attempt.outcome == OutcomeAllowed <==>
            Gates(s.calls[id].proposal, e).Park? && !e.updateFails
    ensures EvaluateEffects(s, id, e)[|EvaluateEffects(s, id, e)| - 1].attempt.outcome == OutcomeDenied <==>
            Gates(s.calls[id].proposal, e).Refuse?
  {
    var Row(p, v) := s.calls[id];
    var g := Gates(p, e);
    if g.Go? && !e.updateFails {
      ExecutionIsHonest(s, id, p, Allowed, g.params, e, EvaluateEffects(s, id, e)[0]);
    }
  }

  /** The policy now served, or the schema, no longer lets the approved call through. */
  predicate Withdrawn(p: Proposal, e: Env) {
    && e.policies.Some?
    && (RulingFor(p, e.policies.value, e).decision == DeniedPolicy
        || ValidateParams(e.tools, p.tool, p.action, p.params).None?)
  }

  lemma RulingIsHonest(s: Store, id: Id, ruling: HumanRuling, approver: Approver, e: Env)
    requires id in s.calls
    ensures Honest(ApprovalEffects(s, id, ruling, approver, e), e)
    ensures var effects := ApprovalEffects(s, id, ruling, approver, e);
            effects[|effects| - 1].attempt.outcome != OutcomeAllowed
    ensures var effects := ApprovalEffects(s, id, ruling, approver, e);
            effects[|effects| - 1].attempt.outcome == OutcomeDenied <==>
              || HumanVerdict(s.calls[id], ruling, approver, e).None?
              || (!e.updateFails && (ruling == Reject || Withdrawn(s.calls[id].proposal, e)))
  {
    var row := s.calls[id];
    var params := ValidateParams(e.tools, row.proposal.tool, row.proposal.action, row.proposal.params);
    var effects := ApprovalEffects(s, id, ruling, approver, e);
    if |effects| > 1 && effects[1].Invoke? {
      ExecutionIsHonest(s, id, row.proposal, Approved, params.value, e, effects[0]);
    }
  }
}
