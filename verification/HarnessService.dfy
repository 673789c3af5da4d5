/** The harness itself: requests mutated in place and stores written step by step,
    proved to perform exactly the effects of the model. */
module HarnessService {
  import opened Prelude
  import opened Verdicts
  import opened ParamSchema
  import opened HarnessModel
  import opened HarnessAudit
  import HarnessSafety
  import Paging
  import Permissions
  import Policies
  import Rbac

  /** A request as loaded from the store: the proposal is fixed, the verdict is not. */
  class Request {
    const call: Id
    const proposal: Proposal
    var risk: Risk
    var decision: Decision
    var decidedBy: Option<Id>
    var decidedAt: Option<Time>

    constructor (call: Id, row: Row)
      ensures this.call == call && proposal == row.proposal && Verdict() == row.verdict
    {
      this.call, proposal := call, row.proposal;
      risk, decision := row.verdict.risk, row.verdict.decision;
      decidedBy, decidedAt := row.verdict.decidedBy, row.verdict.decidedAt;
    }

    function Verdict(): Verdict
      reads this
    {
      HarnessModel.Verdict(risk, decision, decidedBy, decidedAt)
    }

    method Deny(d: Decision, now: Time)
      modifies this
      ensures Verdict() == old(Verdict()).(decision := d, decidedAt := Some(now))
    {
      decision, decidedAt := d, Some(now);
    }

    method Approve(approver: Id, now: Time)
      modifies this
      ensures Verdict() == old(Verdict()).(decision := Approved, decidedBy := Some(approver), decidedAt := Some(now))
    {
      decision, decidedBy, decidedAt := Approved, Some(approver), Some(now);
    }
  }

  /** Gate four, on the loaded request; false means an ApprovalError and no change. */
  method Rule(req: Request, ruling: HumanRuling, approver: Approver, e: Env) returns (ok: bool)
    modifies req
    ensures var hv := HumanVerdict(Row(req.proposal, old(req.Verdict())), ruling, approver, e);
            && (ok <==> hv.Some?)
            && req.Verdict() == if ok then hv.value else old(req.Verdict())
  {
    if ruling == NotARuling || req.decision != AwaitingApproval || Lapsed(Row(req.proposal, req.Verdict()), e) {
      return false;
    }
    if ruling == Reject {
      req.decision, req.decidedBy, req.decidedAt := Rejected, Some(approver.user), Some(e.now);
      return true;
    }
    if req.risk == Forbidden {
      return false;
    }
    var needed := Rbac.ApprovalPermissionFor(req.risk);
    if needed.None? || !Rbac.Can(approver.role, needed.value) {
      return false;
    }
    req.Approve(approver.user, e.now);
    ok := true;
  }

  class Harness {
    var calls: map<Id, Row>
    var execs: map<Id, Execution>
    ghost var attempts: seq<Attempt>
    ghost var invoked: seq<Invocation>
    // Where this process started, and every effect since.
    ghost var origin: Store
    ghost var log: seq<Effect>

    constructor (ghost from: Store, calls: map<Id, Row>, execs: map<Id, Execution>)
      requires from.calls == calls && from.execs == execs
      ensures Valid() && Now() == origin == from && log == []
    {
      this.calls, this.execs := calls, execs;
      attempts, invoked, origin, log := from.attempts, from.invoked, from, [];
    }

    ghost function Now(): Store
      reads this
    {
      Store(calls, execs, attempts, invoked)
    }

    ghost predicate Valid()
      reads this
    {
      Now() == DoAll(origin, log)
    }

    ghost predicate Loaded(req: Request)
      reads this, req
    {
      req.call in calls && calls[req.call] == Row(req.proposal, req.Verdict())
    }

    // ---- the stores ----

    method Update(req: Request, fails: bool) returns (ok: bool)
      requires Valid() && req.call in calls
      modifies this
      ensures Valid() && origin == old(origin) && req.call in calls
      ensures ok <==> !fails
      ensures log == old(log) + if ok then [Persist(req.call, req.Verdict())] else []
      ensures Now() == if ok then Do(old(Now()), Persist(req.call, req.Verdict())) else old(Now())
    {
      if fails {
        return false;
      }
      calls := calls[req.call := calls[req.call].(verdict := req.Verdict())];
      HarnessSafety.DoAllAppend(origin, log, Persist(req.call, req.Verdict()));
      log := log + [Persist(req.call, req.Verdict())];
      ok := true;
    }

    /** The executor: refuses what is not permitted, otherwise invokes and classifies. */
    method Invoke(req: Request, params: Params, e: Env) returns (x: Option<Execution>)
      requires Valid()
      modifies this
      ensures Valid() && origin == old(origin) && calls == old(calls) && execs == old(execs)
      ensures x.Some? <==> req.decision.Permits() && Known(e.tools, req.proposal.tool, req.proposal.action)
      ensures x.Some? ==> x.value == Execution(req.call, StatusOf(e), e.dryRun)
      ensures log == old(log) + if x.None? then [] else
                [HarnessModel.Invoke(Invocation(req.call, req.proposal.tool, req.proposal.action, params, e.dryRun))]
    {
      if !req.decision.Permits() || !Known(e.tools, req.proposal.tool, req.proposal.action) {
        return None;
      }
      ghost var i := Invocation(req.call, req.proposal.tool, req.proposal.action, params, e.dryRun);
      invoked := invoked + [i];
      HarnessSafety.DoAllAppend(origin, log, HarnessModel.Invoke(i));
      log := log + [HarnessModel.Invoke(i)];
      var status := Succeeded;
      if e.toolResult == Overran {
        status := TimedOut;
      } else if e.toolResult == Errored {
        status := Failed;
      } else if e.dryRun {
        status := DryRun;
      }
      x := Some(Execution(req.call, status, e.dryRun));
    }

    /** Saves the execution record unless one is there already, which is not a failure. */
    method Save(x: Execution, fails: bool) returns (failure: Failure)
      requires Valid()
      modifies this
      ensures Valid() && origin == old(origin)
      ensures failure == if fails then HarnessFailure else NoFailure
      ensures log == old(log) + if !fails && x.call !in old(execs) then [SaveExecution(x)] else []
    {
      if fails {
        return HarnessFailure;
      }
      if x.call !in execs {
        execs := execs[x.call := x];
        HarnessSafety.DoAllAppend(origin, log, SaveExecution(x));
        log := log + [SaveExecution(x)];
      }
      failure := NoFailure;
    }

    /** Runs the tool and records the execution. */
    method Execute(req: Request, params: Params, e: Env) returns (x: Option<Execution>, failure: Failure)
      requires Valid() && req.decision.Permits() && Known(e.tools, req.proposal.tool, req.proposal.action)
      modifies this
      ensures Valid() && origin == old(origin)
      ensures log + [Record(req.call, OutcomeFor(req.decision, x, failure), e)]
              == old(log) + old(ExecuteEffects(Now(), req.call, req.proposal, req.decision, params, e))
    {
      ghost var start := Now();
      x := Invoke(req, params, e);
      ghost var invoked := log;
      failure := Save(x.value, e.saveFails);
      ghost var saved := if !e.saveFails && req.call !in start.execs then [SaveExecution(x.value)] else [];
      assert log == invoked + saved;
      JoinExecuteEffects(old(log), start, req.call, req.proposal, req.decision, params, e, saved);
    }

    /** The deferred ledger write. */
    method Append(id: Id, outcome: Outcome, e: Env)
      requires Valid()
      modifies this
      ensures Valid() && origin == old(origin) && log == old(log) + [Record(id, outcome, e)]
      ensures calls == old(calls) && execs == old(execs)
    {
      ghost var attempt := Attempt(id, outcome, !e.appendFails);
      attempts := attempts + [attempt];
      HarnessSafety.DoAllAppend(origin, log, Audit(attempt));
      log := log + [Audit(attempt)];
    }

    // ---- the handlers ----

    method OnToolRequested(id: Id, e: Env)
      requires Valid()
      modifies this
      ensures Valid() && origin == old(origin)
      ensures log == old(log) + old(Effects(Now(), Requested(id), e))
    {
      if id in calls {
        var req := new Request(id, calls[id]);
        Evaluate(req, e);
      }
    }

    method Evaluate(req: Request, e: Env)
      requires Valid() && Loaded(req)
      modifies this, req
      ensures Valid() && origin == old(origin)
      ensures log == old(log) + old(EvaluateEffects(Now(), req.call, e))
    {
      if req.decision.Terminal() {
        return;
      }
      var x, failure := PassGates(req, e);
      Append(req.call, OutcomeFor(req.decision, x, failure), e);
    }

    /** The three gates in order, each returning as soon as it knows. */
    method Consult(p: Proposal, e: Env) returns (g: Gate)
      ensures g == Gates(p, e)
    {
      if !Known(e.tools, p.tool, p.action) {
        return HarnessModel.Refuse(DeniedUnknown, None);
      }
      var normalised := Revalidate(p, e);
      if normalised.None? {
        return HarnessModel.Refuse(DeniedParams, None);
      }
      if e.agentKind.None? || e.permissions.None? {
        return Faulted;
      }
      var matrix := Permissions.CompilePermissions(e.permissions.value);
      if !matrix.Allows(e.agentKind.value, p.tool, p.action).0 {
        return HarnessModel.Refuse(DeniedPermission, None);
      }
      if e.policies.None? {
        return Faulted;
      }
      var ruling := RulingFor(p, e.policies.value, e);
      if ruling.decision == DeniedPolicy {
        return HarnessModel.Refuse(DeniedPolicy, Some(ruling.risk));
      }
      if ruling.decision == AwaitingApproval {
        return HarnessModel.Park(ruling.risk);
      }
      g := Go(ruling.risk, normalised.value);
    }

    /** The body of Evaluate; its caller appends to the ledger whatever path was taken. */
    method PassGates(req: Request, e: Env) returns (x: Option<Execution>, failure: Failure)
      requires Valid() && Loaded(req) && !req.decision.Terminal()
      modifies this, req
      ensures Valid() && origin == old(origin)
      ensures log + [Record(req.call, OutcomeFor(req.decision, x, failure), e)]
              == old(log) + old(EvaluateEffects(Now(), req.call, e))
    {
      var g := Consult(req.proposal, e);
      if g.Go? { GoMeansKnown(req.proposal, e); }
      x, failure := Follow(req, g, e);
    }

    method Follow(req: Request, g: Gate, e: Env) returns (x: Option<Execution>, failure: Failure)
      requires Valid() && Loaded(req)
      requires g.Go? ==> Known(e.tools, req.proposal.tool, req.proposal.action)
      modifies this, req
      ensures Valid() && origin == old(origin)
      ensures log + [Record(req.call, OutcomeFor(req.decision, x, failure), e)]
              == old(log) + old(GateEffects(Now(), req.call, g, e))
    {
      ghost var effects := GateEffects(Now(), req.call, g, e);
      match g {
        case Refuse(d, tier) =>
          if tier.Some? {
            req.risk := tier.value;
          }
          x, failure := Refuse(req, d, e);
          ghost var stored := if e.updateFails then [] else [Persist(req.call, req.Verdict())];
          assert effects == stored + [Record(req.call, OutcomeFor(d, None, NoFailure), e)];
        case Faulted =>
          x, failure := None, HarnessFailure;
        case Park(risk) =>
          x, failure := Park(req, risk, e);
          ghost var stored := if e.updateFails then [] else [Persist(req.call, req.Verdict())];
          assert effects == stored + [Record(req.call, OutcomeFor(AwaitingApproval, None, failure), e)];
        case Go(risk, params) =>
          req.risk, req.decision := risk, Allowed;
          x, failure := Proceed(req, params, e);
      }
    }

    /** Persists the permitting verdict, then runs the tool. */
    method Proceed(req: Request, params: Params, e: Env) returns (x: Option<Execution>, failure: Failure)
      requires Valid() && req.call in calls && calls[req.call].proposal == req.proposal
      requires req.decision.Permits() && Known(e.tools, req.proposal.tool, req.proposal.action)
      modifies this
      ensures Valid() && origin == old(origin)
      ensures log + [Record(req.call, OutcomeFor(req.decision, x, failure), e)]
              == old(log) + old(PermittedEffects(Now(), req.call, req.Verdict(), params, e))
    {
      var stored := Update(req, e.updateFails);
      if !stored {
        return None, HarnessFailure;
      }
      x, failure := Execute(req, params, e);
    }

    method Park(req: Request, risk: Risk, e: Env) returns (x: Option<Execution>, failure: Failure)
      requires Valid() && req.call in calls
      modifies this, req
      ensures Valid() && origin == old(origin) && x == None
      ensures failure == if e.updateFails then HarnessFailure else NoFailure
      ensures req.Verdict() == old(req.Verdict()).(risk := risk, decision := AwaitingApproval)
      ensures log == old(log) + if e.updateFails then [] else [Persist(req.call, req.Verdict())]
    {
      req.risk, req.decision := risk, AwaitingApproval;
      var parked := Update(req, e.updateFails);
      x, failure := None, if parked then NoFailure else HarnessFailure;
    }

    method Refuse(req: Request, d: Decision, e: Env) returns (x: Option<Execution>, failure: Failure)
      requires Valid() && req.call in calls
      modifies this, req
      ensures Valid() && origin == old(origin) && x == None && failure == NoFailure
      ensures req.Verdict() == old(req.Verdict()).(decision := d, decidedAt := Some(e.now))
      ensures log == old(log) + if e.updateFails then [] else [Persist(req.call, req.Verdict())]
    {
      req.Deny(d, e.now);
      var _ := Update(req, e.updateFails);
      x, failure := None, NoFailure;
    }

    method ApplyApproval(id: Id, ruling: HumanRuling, approver: Approver, e: Env)
      requires Valid()
      modifies this
      ensures Valid() && origin == old(origin)
      ensures log == old(log) + old(Effects(Now(), Ruled(id, ruling, approver), e))
    {
      if id !in calls {
        return;
      }
      var req := new Request(id, calls[id]);
      var x, failure := ApplyRuling(req, ruling, approver, e);
      Append(id, OutcomeFor(req.decision, x, failure), e);
    }

    method ApplyRuling(req: Request, ruling: HumanRuling, approver: Approver, e: Env)
      returns (x: Option<Execution>, failure: Failure)
      requires Valid() && Loaded(req)
      modifies this, req
      ensures Valid() && origin == old(origin)
      ensures log + [Record(req.call, OutcomeFor(req.decision, x, failure), e)]
              == old(log) + old(ApprovalEffects(Now(), req.call, ruling, approver, e))
    {
      var p := req.proposal;
      var ok := Rule(req, ruling, approver, e);
      if !ok {
        return None, ApprovalRefused;
      }
      if req.decision == Approved {
        x, failure := ApplyApproved(req, e);
      } else {
        var stored := Update(req, e.updateFails);
        x, failure := None, if stored then NoFailure else HarnessFailure;
      }
    }

    /** What follows an approval: policy again, persist, parameters again, run. */
    method ApplyApproved(req: Request, e: Env) returns (x: Option<Execution>, failure: Failure)
      requires Valid() && req.call in calls && calls[req.call].proposal == req.proposal && req.decision == Approved
      requires req.decidedAt == Some(e.now)
      modifies this, req
      ensures Valid() && origin == old(origin)
      ensures log + [Record(req.call, OutcomeFor(req.decision, x, failure), e)]
              == old(log) + old(ApprovedEffects(Now(), req.call, req.Verdict(), e))
    {
      ghost var start, v, effects := Now(), req.Verdict(), ApprovedEffects(Now(), req.call, req.Verdict(), e);
      ghost var failed := Record(req.call, OutcomeFailed, e);
      if e.policies.None? {
        assert effects == [failed];
        return None, HarnessFailure;
      }
      var current := RulingFor(req.proposal, e.policies.value, e);
      if current.decision == DeniedPolicy {
        req.Deny(DeniedPolicy, e.now);
        assert effects == if e.updateFails then [failed]
                          else [Persist(req.call, req.Verdict()), Record(req.call, OutcomeDenied, e)];
        var stored := Update(req, e.updateFails);
        return None, if stored then ApprovalRefused else HarnessFailure;
      }
      ghost var rest := RevalidatedEffects(start, req.call, v, e);
      assert effects == if e.updateFails then [failed] else [Persist(req.call, v)] + rest;
      var stored := Update(req, e.updateFails);
      if !stored {
        return None, HarnessFailure;
      }
      SameCallSameRest(start, Now(), req.call, v, e);
      ghost var logged := log;
      x, failure := RunApproved(req, e);
      assert log + [Record(req.call, OutcomeFor(req.decision, x, failure), e)] == logged + rest;
      assert logged + rest == old(log) + ([Persist(req.call, v)] + rest);
    }

    method RunApproved(req: Request, e: Env) returns (x: Option<Execution>, failure: Failure)
      requires Valid() && req.call in calls && calls[req.call].proposal == req.proposal && req.decision == Approved
      requires req.decidedAt == Some(e.now)
      modifies this, req
      ensures Valid() && origin == old(origin)
      ensures log + [Record(req.call, OutcomeFor(req.decision, x, failure), e)]
              == old(log) + old(RevalidatedEffects(Now(), req.call, req.Verdict(), e))
    {
      var normalised := Revalidate(req.proposal, e);
      if normalised.None? {
        req.Deny(DeniedParams, e.now);
        var _ := Update(req, e.denialFails);
        return None, NoFailure;
      }
      x, failure := Execute(req, normalised.value, e);
    }

    method Revalidate(p: Proposal, e: Env) returns (params: Option<Params>)
      ensures params == ValidateParams(e.tools, p.tool, p.action, p.params)
    {
      if !Known(e.tools, p.tool, p.action) {
        return None;
      }
      var ad := e.tools[p.tool].actions[p.action];
      params := CheckParams(ad.params, CompiledPatterns(ad), p.params);
    }

    /** The sweep: lists the newest pending approvals, expires the lapsed ones among them, and counts
        the expiries it stored. `rows` is the database's answer for the page, or nothing if it fails. */
    method ExpirePending(c: Paging.Codec, rows: Option<seq<Paging.Key>>, e: Env)
      returns (expired: Option<nat>, ghost page: seq<Id>)
      requires Valid()
      requires rows.Some? ==> Paging.Selects(PendingKeys(calls), None, SWEEP_LIMIT + 1, rows.value)
      modifies this
      ensures Valid() && origin == old(origin)
      ensures expired.None? <==> rows.None?
      ensures rows.None? ==> log == old(log)
      ensures rows.Some? ==> Listed(c, old(calls), page)
      ensures rows.Some? ==> log == old(log) + old(Effects(Now(), Swept(page), e))
      ensures rows.Some? ==> expired == Some(Persists(old(Effects(Now(), Swept(page), e))))
    {
      if rows.None? {
        return None, [];
      }
      var listed := Paging.List(c, PendingKeys(calls), SWEEP_LIMIT, "", rows.value);
      var ids := Ids(listed.value.items);
      ListedIdsAreDistinct(calls, listed.value.items);
      var n := ExpireAll(ids, e);
      expired, page := Some(n), ids;
    }

    /** The loop over one listed page; returns how many expiries were stored. */
    method ExpireAll(page: seq<Id>, e: Env) returns (expired: nat)
      requires Valid() && Distinct(page) && forall id | id in page :: id in calls
      modifies this
      ensures Valid() && origin == old(origin)
      ensures log == old(log) + old(SweepEffects(Now(), page, e))
      ensures expired == Persists(old(SweepEffects(Now(), page, e)))
    {
      expired := 0;
      ghost var start, done := Now(), SweepEffects(Now(), page[..0], e);
      for n := 0 to |page|
        invariant Valid() && origin == old(origin)
        invariant done == SweepEffects(start, page[..n], e) && log == old(log) + done
        invariant calls.Keys == start.calls.Keys
        invariant forall k | n <= k < |page| :: calls[page[k]] == start.calls[page[k]]
        invariant expired == Persists(done)
      {
        ghost var tail := ExpireEffects(start, page[n], e);
        SweepOneMore(start, page, n, e);
        var stored := ExpireNext(start, page, n, e);
        if stored {
          expired := expired + 1;
        }
        assert old(log) + done + tail == old(log) + (done + tail);
        done := done + tail;
      }
      assert page[..|page|] == page;
    }

    /** One listed call, as the sweep found it when it began. */
    method ExpireNext(ghost start: Store, page: seq<Id>, n: nat, e: Env) returns (stored: bool)
      requires Valid() && n < |page| && Distinct(page) && forall id | id in page :: id in start.calls
      requires calls.Keys == start.calls.Keys && forall k | n <= k < |page| :: calls[page[k]] == start.calls[page[k]]
      modifies this
      ensures Valid() && origin == old(origin)
      ensures log == old(log) + ExpireEffects(start, page[n], e)
      ensures Persists(ExpireEffects(start, page[n], e)) == if stored then 1 else 0
      ensures calls.Keys == start.calls.Keys && forall k | n < k < |page| :: calls[page[k]] == start.calls[page[k]]
    {
      SameRowSameExpiry(start, Now(), page[n], e);
      ExpiryCounts(start, page[n], e);
      stored := ExpireOne(page[n], e);
    }

    method ExpireOne(id: Id, e: Env) returns (stored: bool)
      requires Valid() && id in calls
      modifies this
      ensures Valid() && origin == old(origin)
      ensures log == old(log) + old(ExpireEffects(Now(), id, e))
      ensures stored == old(Lapsed(calls[id], e) && id !in e.sweepFails)
      ensures calls.Keys == old(calls.Keys) && forall k | k in calls && k != id :: calls[k] == old(calls[k])
    {
      var req := new Request(id, calls[id]);
      ghost var expiry := ExpireEffects(Now(), id, e);
      if !Lapsed(calls[id], e) {
        assert expiry == [];
        return false;
      }
      req.Deny(Expired, e.now);
      ghost var persist, record := Persist(id, req.Verdict()), Record(id, OutcomeDenied, e);
      assert expiry == if id in e.sweepFails then [] else [persist, record];
      stored := Update(req, id in e.sweepFails);
      if stored {
        assert log == old(log) + [persist];
        Append(id, OutcomeFor(req.decision, None, NoFailure), e);
        assert log == old(log) + [persist] + [record] == old(log) + expiry;
      }
    }
  }

  // ---- what the sweep lists ----

  const SWEEP_LIMIT := 200

  /** The sort positions of the calls awaiting approval. */
  function PendingKeys(calls: map<Id, Row>): set<Paging.Key> {
    set id | id in calls && calls[id].verdict.decision == AwaitingApproval ::
      Paging.Key(calls[id].proposal.createdAt, id)
  }

  function Ids(keys: seq<Paging.Key>): (ids: seq<Id>)
    ensures |ids| == |keys| && forall i | 0 <= i < |ids| :: ids[i] == keys[i].id
  {
    seq(|keys|, i requires 0 <= i < |keys| => keys[i].id)
  }

  /** The page is the newest 200 of the pending calls. */
  ghost predicate Listed(c: Paging.Codec, calls: map<Id, Row>, page: seq<Id>) {
    && Distinct(page) && (forall id | id in page :: id in calls)
    && exists p: Paging.Page :: Paging.IsPage(c, PendingKeys(calls), None, SWEEP_LIMIT, p) && page == Ids(p.items)
  }

  lemma ListedIdsAreDistinct(calls: map<Id, Row>, items: seq<Paging.Key>)
    requires Paging.Descending(items) && forall k | k in items :: k in PendingKeys(calls)
    ensures Distinct(Ids(items)) && forall id | id in Ids(items) :: id in calls
  {
    forall i | 0 <= i < |items| ensures items[i] in PendingKeys(calls) {}
  }

  lemma {:induction false} ListedLapsedIsExpired(s: Store, page: seq<Id>, e: Env, id: Id)
    requires forall x | x in page :: x in s.calls
    requires id in s.calls && Lapsed(s.calls[id], e) && id !in e.sweepFails
    ensures id in page <==> exists eff :: eff in SweepEffects(s, page, e) && eff.Persist? && eff.call == id
  {
    if page != [] {
      var front, last := page[..|page| - 1], page[|page| - 1];
      ListedLapsedIsExpired(s, front, e, id);
      assert page == front + [last];
      var tail := ExpireEffects(s, last, e);
      if tail != [] { assert tail[0] in tail && tail[0].Persist? && tail[0].call == last; }
      if id in page {
        if id == last {
          assert tail[0] in SweepEffects(s, page, e);
        } else {
          var eff :| eff in SweepEffects(s, front, e) && eff.Persist? && eff.call == id;
          assert eff in SweepEffects(s, page, e);
        }
      }
      forall eff | eff in SweepEffects(s, page, e) && eff.Persist? && eff.call == id ensures id in page {
        if eff in tail { assert eff == tail[0]; }
      }
    }
  }

  /** The calls awaiting approval; each has one sort position. */
  function Waiting(calls: map<Id, Row>): set<Id> {
    set id | id in calls && calls[id].verdict.decision == AwaitingApproval
  }

  /** id was proposed first of the calls awaiting approval, the smaller id first at equal times. */
  ghost predicate IsOldest(s: Store, id: Id) {
    && id in Waiting(s.calls)
    && forall x | x in Waiting(s.calls) && x != id ::
         var mine, its := s.calls[id].proposal.createdAt, s.calls[x].proposal.createdAt;
         mine < its || (mine == its && id < x)
  }

  lemma OldestIsListedExactlyWhenFewWait(s: Store, c: Paging.Codec, page: seq<Id>, id: Id)
    requires Listed(c, s.calls, page) && IsOldest(s, id)
    ensures id in page <==> |Waiting(s.calls)| <= SWEEP_LIMIT
  {
    var keys, oldest := PendingKeys(s.calls), KeyOf(s, id);
    var p: Paging.Page :| Paging.IsPage(c, keys, None, SWEEP_LIMIT, p) && page == Ids(p.items);
    OneKeyEach(s.calls, Waiting(s.calls));
    assert keys == set x | x in Waiting(s.calls) :: Paging.Key(s.calls[x].proposal.createdAt, x);
    forall k | k in keys ensures k == oldest || Paging.Below(oldest, k) { assert k == KeyOf(s, k.id); }
    Paging.OldestIsMissedExactlyWhenTooMany(c, keys, SWEEP_LIMIT, p, oldest);
    SameMembers(s, p.items, id);
  }

  lemma SameMembers(s: Store, items: seq<Paging.Key>, id: Id)
    requires id in s.calls && forall k | k in items :: k in PendingKeys(s.calls)
    ensures id in Ids(items) <==> KeyOf(s, id) in items
  {
    forall i | 0 <= i < |items| && items[i].id == id ensures items[i] == KeyOf(s, id) {
      assert items[i] in PendingKeys(s.calls);
    }
    if KeyOf(s, id) in items {
      var i :| 0 <= i < |items| && items[i] == KeyOf(s, id);
      assert Ids(items)[i] == id;
    }
  }

  /** Of the calls awaiting approval the oldest, though lapsed, is expired by a sweep exactly when no
      more than 200 are waiting. */
  lemma OldestIsExpiredExactlyWhenFewWait(s: Store, c: Paging.Codec, page: seq<Id>, e: Env, id: Id)
    requires Listed(c, s.calls, page) && IsOldest(s, id) && Lapsed(s.calls[id], e) && id !in e.sweepFails
    ensures (exists eff :: eff in Effects(s, Swept(page), e) && eff.Persist? && eff.call == id) <==>
            |Waiting(s.calls)| <= 200
  {
    OldestIsListedExactlyWhenFewWait(s, c, page, id);
    ListedLapsedIsExpired(s, page, e, id);
  }

  function KeyOf(s: Store, id: Id): Paging.Key
    requires id in s.calls
  {
    Paging.Key(s.calls[id].proposal.createdAt, id)
  }

  /** One sort position for each waiting call. */
  lemma {:induction false} OneKeyEach(calls: map<Id, Row>, ids: set<Id>)
    requires forall id | id in ids :: id in calls
    ensures |set id | id in ids :: Paging.Key(calls[id].proposal.createdAt, id)| == |ids|
    decreases ids
  {
    if ids != {} {
      var x :| x in ids;
      var rest := ids - {x};
      OneKeyEach(calls, rest);
      var keys := set id | id in rest :: Paging.Key(calls[id].proposal.createdAt, id);
      var k := Paging.Key(calls[x].proposal.createdAt, x);
      assert (set id | id in ids :: Paging.Key(calls[id].proposal.createdAt, id)) == keys + {k};
      assert k !in keys;
    }
  }

  /** The three parts of an execution follow one another in the log. */
  lemma JoinExecuteEffects(
      before: seq<Effect>, s: Store, id: Id, p: Proposal, d: Decision, params: Params, e: Env, saved: seq<Effect>)
    requires var x := Execution(id, StatusOf(e), e.dryRun);
             saved == if !e.saveFails && id !in s.execs then [SaveExecution(x)] else []
    ensures var x := Execution(id, StatusOf(e), e.dryRun);
            var failure := if e.saveFails then HarnessFailure else NoFailure;
            before + [Invoke(Invocation(id, p.tool, p.action, params, e.dryRun))] + saved
              + [Record(id, OutcomeFor(d, Some(x), failure), e)]
            == before + ExecuteEffects(s, id, p, d, params, e)
  {
  }

  lemma SameCallSameRest(s: Store, t: Store, id: Id, v: Verdict, e: Env)
    requires id in s.calls && id in t.calls && s.calls[id].proposal == t.calls[id].proposal && s.execs == t.execs
    ensures RevalidatedEffects(s, id, v, e) == RevalidatedEffects(t, id, v, e)
  {
  }

  lemma SameRowSameExpiry(s: Store, t: Store, id: Id, e: Env)
    requires id in s.calls && id in t.calls && s.calls[id] == t.calls[id]
    ensures ExpireEffects(s, id, e) == ExpireEffects(t, id, e)
  {
  }

  lemma ExpiryCounts(s: Store, id: Id, e: Env)
    requires id in s.calls
    ensures Persists(ExpireEffects(s, id, e)) == if Lapsed(s.calls[id], e) && id !in e.sweepFails then 1 else 0
  {
    var tail := ExpireEffects(s, id, e);
    if tail != [] {
      CountsAdd([tail[0]], [tail[1]]);
      assert tail == [tail[0]] + [tail[1]];
      assert [tail[0]][..0] == [] && [tail[1]][..0] == [];
    }
  }

  lemma SweepOneMore(s: Store, page: seq<Id>, n: nat, e: Env)
    requires n < |page| && forall id | id in page :: id in s.calls
    ensures SweepEffects(s, page[..n + 1], e) == SweepEffects(s, page[..n], e) + ExpireEffects(s, page[n], e)
    ensures Persists(SweepEffects(s, page[..n + 1], e))
            == Persists(SweepEffects(s, page[..n], e)) + Persists(ExpireEffects(s, page[n], e))
  {
    assert page[..n + 1][..n] == page[..n];
    CountsAdd(SweepEffects(s, page[..n], e), ExpireEffects(s, page[n], e));
  }

  lemma GoMeansKnown(p: Proposal, e: Env)
    requires Gates(p, e).Go?
    ensures Known(e.tools, p.tool, p.action)
  {
  }
}
