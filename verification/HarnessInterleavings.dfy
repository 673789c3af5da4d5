/** Handlers of different calls at work at the same time. Whatever their order, each call fares as if
    they had run one after the other; two handlers on one call may not be so. */
module HarnessInterleavings {
  import opened Prelude
  import opened Verdicts
  import opened HarnessModel
  import opened HarnessSafety
  import HarnessJustice
  import HarnessOutcomes

  // ---- what concerns one call ----

  function CallOf(eff: Effect): Id {
    match eff
    case Create(id, _) => id
    case Persist(id, _) => id
    case Invoke(i) => i.call
    case SaveExecution(x) => x.call
    case Audit(a) => a.call
  }

  /** All the tables say of one call. */
  datatype View = View(row: Option<Row>, record: Option<Execution>, invoked: seq<Invocation>, attempts: seq<Attempt>)

  function InvocationsOf(invoked: seq<Invocation>, id: Id): seq<Invocation> {
    if invoked == [] then []
    else
      var front, last := InvocationsOf(invoked[..|invoked| - 1], id), invoked[|invoked| - 1];
      if last.call == id then front + [last] else front
  }

  function AttemptsOf(attempts: seq<Attempt>, id: Id): seq<Attempt> {
    if attempts == [] then []
    else
      var front, last := AttemptsOf(attempts[..|attempts| - 1], id), attempts[|attempts| - 1];
      if last.call == id then front + [last] else front
  }

  function ViewOf(s: Store, id: Id): View {
    View(if id in s.calls then Some(s.calls[id]) else None, if id in s.execs then Some(s.execs[id]) else None,
         InvocationsOf(s.invoked, id), AttemptsOf(s.attempts, id))
  }

  predicate Agree(s: Store, t: Store, id: Id) {
    ViewOf(s, id) == ViewOf(t, id)
  }

  lemma DoTouchesOneCall(s: Store, eff: Effect, id: Id)
    requires CallOf(eff) != id
    ensures Agree(Do(s, eff), s, id)
  {
    if eff.Invoke? {
      assert (s.invoked + [eff.invocation])[..|s.invoked|] == s.invoked;
    } else if eff.Audit? {
      assert (s.attempts + [eff.attempt])[..|s.attempts|] == s.attempts;
    }
  }

  lemma DoDependsOnOneCall(s: Store, t: Store, eff: Effect)
    requires Agree(s, t, CallOf(eff))
    ensures Agree(Do(s, eff), Do(t, eff), CallOf(eff))
  {
    if eff.Invoke? {
      assert (s.invoked + [eff.invocation])[..|s.invoked|] == s.invoked;
      assert (t.invoked + [eff.invocation])[..|t.invoked|] == t.invoked;
    } else if eff.Audit? {
      assert (s.attempts + [eff.attempt])[..|s.attempts|] == s.attempts;
      assert (t.attempts + [eff.attempt])[..|t.attempts|] == t.attempts;
    }
  }

  lemma {:induction false} DoAllDependsOnOneCall(s: Store, t: Store, effects: seq<Effect>, id: Id)
    requires Agree(s, t, id)
    ensures Agree(DoAll(s, effects), DoAll(t, effects), id)
  {
    if effects != [] {
      var front, last := effects[..|effects| - 1], effects[|effects| - 1];
      DoAllDependsOnOneCall(s, t, front, id);
      if CallOf(last) == id {
        DoDependsOnOneCall(DoAll(s, front), DoAll(t, front), last);
      } else {
        DoTouchesOneCall(DoAll(s, front), last, id);
        DoTouchesOneCall(DoAll(t, front), last, id);
      }
    }
  }

  lemma {:induction false} DoAllLeaves(s: Store, effects: seq<Effect>, id: Id)
    requires forall i | 0 <= i < |effects| :: CallOf(effects[i]) != id
    ensures Agree(DoAll(s, effects), s, id)
  {
    if effects != [] {
      DoAllLeaves(s, effects[..|effects| - 1], id);
      DoTouchesOneCall(DoAll(s, effects[..|effects| - 1]), effects[|effects| - 1], id);
    }
  }

  // ---- a handler keeps to its calls ----

  function Touches(event: Event): set<Id> {
    match event
    case Proposed(id, _) => {id}
    case Requested(id) => {id}
    case Ruled(id, _, _) => {id}
    case Swept(page) => set id | id in page
  }

  /** Every effect is about this call, and at most one of them saves its record, which is not there yet. */
  ghost predicate Own(s: Store, id: Id, effects: seq<Effect>) {
    && (forall i | 0 <= i < |effects| :: CallOf(effects[i]) == id && !effects[i].Create?)
    && (forall i | 0 <= i < |effects| && effects[i].SaveExecution? ::
          id !in s.execs && forall j | 0 <= j < i :: !effects[j].SaveExecution?)
  }

  lemma PrependOwn(s: Store, id: Id, first: Effect, rest: seq<Effect>)
    requires CallOf(first) == id && first.Persist? && Own(s, id, rest)
    ensures Own(s, id, [first] + rest)
  {
    var all := [first] + rest;
    forall i | 0 <= i < |all|
      ensures CallOf(all[i]) == id && !all[i].Create?
      ensures all[i].SaveExecution? ==> id !in s.execs && forall j | 0 <= j < i :: !all[j].SaveExecution?
    {
      if i > 0 { assert all[i] == rest[i - 1]; }
    }
  }

  lemma EvaluateOwns(s: Store, id: Id, e: Env)
    requires id in s.calls
    ensures Own(s, id, EvaluateEffects(s, id, e))
  {
    var Row(p, v) := s.calls[id];
    var g := Gates(p, e);
    if !v.decision.Terminal() && g.Go? && !e.updateFails {
      PrependOwn(s, id, Persist(id, v.(decision := Allowed, risk := g.risk)),
                 ExecuteEffects(s, id, p, Allowed, g.params, e));
    }
  }

  lemma ApprovedOwns(s: Store, id: Id, v: Verdict, e: Env)
    requires id in s.calls
    ensures Own(s, id, ApprovedEffects(s, id, v, e))
  {
    var p := s.calls[id].proposal;
    if e.policies.Some? && RulingFor(p, e.policies.value, e).decision != DeniedPolicy && !e.updateFails {
      PrependOwn(s, id, Persist(id, v), RevalidatedEffects(s, id, v, e));
    }
  }

  lemma ApprovalOwns(s: Store, id: Id, ruling: HumanRuling, approver: Approver, e: Env)
    requires id in s.calls
    ensures Own(s, id, ApprovalEffects(s, id, ruling, approver, e))
  {
    var hv := HumanVerdict(s.calls[id], ruling, approver, e);
    if hv.Some? && hv.value.decision == Approved { ApprovedOwns(s, id, hv.value, e); }
  }

  lemma {:induction false} SweepOwns(s: Store, t: Store, page: seq<Id>, e: Env)
    requires forall id | id in page :: id in s.calls && Agree(s, t, id)
    ensures forall id | id in page :: id in t.calls
    ensures SweepEffects(s, page, e) == SweepEffects(t, page, e)
    ensures forall i | 0 <= i < |SweepEffects(s, page, e)| ::
              var eff := SweepEffects(s, page, e)[i]; CallOf(eff) in page && (eff.Persist? || eff.Audit?)
  {
    forall id | id in page ensures id in t.calls && t.calls[id] == s.calls[id] {
      assert Agree(s, t, id);
    }
    if page != [] { SweepOwns(s, t, page[..|page| - 1], e); }
  }

  lemma SameViewSameFinding(s: Store, t: Store, id: Id)
    requires Agree(s, t, id)
    ensures id in s.calls <==> id in t.calls
    ensures id in s.calls ==> s.calls[id] == t.calls[id]
    ensures id in s.execs <==> id in t.execs
  {
  }

  lemma EvaluationKeepsToItsCall(s: Store, t: Store, id: Id, e: Env)
    requires Agree(s, t, id)
    ensures Effects(s, Requested(id), e) == Effects(t, Requested(id), e)
    ensures forall i | 0 <= i < |Effects(s, Requested(id), e)| :: CallOf(Effects(s, Requested(id), e)[i]) == id
  {
    SameViewSameFinding(s, t, id);
    if id in s.calls { EvaluateOwns(s, id, e); }
  }

  lemma RulingKeepsToItsCall(s: Store, t: Store, id: Id, ruling: HumanRuling, approver: Approver, e: Env)
    requires Agree(s, t, id)
    ensures var event := Ruled(id, ruling, approver);
            && Effects(s, event, e) == Effects(t, event, e)
            && forall i | 0 <= i < |Effects(s, event, e)| :: CallOf(Effects(s, event, e)[i]) == id
  {
    SameViewSameFinding(s, t, id);
    if id in s.calls { ApprovalOwns(s, id, ruling, approver, e); }
  }

  lemma SweepKeepsToItsCalls(s: Store, t: Store, page: seq<Id>, e: Env)
    requires forall id | id in page :: Agree(s, t, id)
    ensures var event := Swept(page);
            && Effects(s, event, e) == Effects(t, event, e)
            && forall i | 0 <= i < |Effects(s, event, e)| :: CallOf(Effects(s, event, e)[i]) in page
  {
    forall id | id in page ensures id in s.calls <==> id in t.calls { SameViewSameFinding(s, t, id); }
    if forall id | id in page :: id in s.calls { SweepOwns(s, t, page, e); }
  }

  /** What a handler does depends on its own calls only, and is about them only. */
  lemma HandlersKeepToTheirCalls(s: Store, t: Store, event: Event, e: Env)
    requires forall id | id in Touches(event) :: Agree(s, t, id)
    ensures Effects(s, event, e) == Effects(t, event, e)
    ensures forall i | 0 <= i < |Effects(s, event, e)| :: CallOf(Effects(s, event, e)[i]) in Touches(event)
  {
    match event
    case Proposed(id, _) => SameViewSameFinding(s, t, id);
    case Requested(id) => EvaluationKeepsToItsCall(s, t, id, e);
    case Ruled(id, ruling, approver) => RulingKeepsToItsCall(s, t, id, ruling, approver, e);
    case Swept(page) => SweepKeepsToItsCalls(s, t, page, e);
  }

  // ---- the tables' own guards ----

  /** The keys of both tables are free. */
  predicate KeyIsFree(s: Store, eff: Effect) {
    && (eff.Create? ==> eff.call !in s.calls)
    && (eff.SaveExecution? ==> eff.execution.call !in s.execs)
  }

  /** An insert over an existing key is refused. */
  function Now(s: Store, eff: Effect): Store {
    if KeyIsFree(s, eff) then Do(s, eff) else s
  }

  lemma {:induction false} NoRecordSaved(s: Store, effects: seq<Effect>, k: nat)
    requires k <= |effects| && forall i | 0 <= i < k :: !effects[i].SaveExecution?
    ensures DoAll(s, effects[..k]).execs == s.execs
  {
    if k > 0 {
      NoRecordSaved(s, effects, k - 1);
      assert effects[..k][..k - 1] == effects[..k - 1];
    }
  }

  lemma OwnKeysAreFree(s: Store, id: Id, effects: seq<Effect>, k: nat)
    requires Own(s, id, effects) && k < |effects|
    ensures KeyIsFree(DoAll(s, effects[..k]), effects[k])
  {
    if effects[k].SaveExecution? { NoRecordSaved(s, effects, k); }
  }

  lemma KeysAreFreeAlong(s: Store, event: Event, e: Env, k: nat)
    requires k < |Effects(s, event, e)|
    ensures KeyIsFree(DoAll(s, Effects(s, event, e)[..k]), Effects(s, event, e)[k])
  {
    match event
    case Proposed(_, _) =>
    case Requested(id) =>
      EvaluateOwns(s, id, e);
      OwnKeysAreFree(s, id, EvaluateEffects(s, id, e), k);
    case Ruled(id, ruling, approver) =>
      ApprovalOwns(s, id, ruling, approver, e);
      OwnKeysAreFree(s, id, ApprovalEffects(s, id, ruling, approver, e), k);
    case Swept(page) => SweepOwns(s, s, page, e);
  }

  // ---- handlers at work ----

  /** A handler call: its place in the log of all calls, and the effects it set out to perform when it
      read its rows. The log's `kept` counts those it has performed. */
  datatype Job = Job(place: nat, effects: seq<Effect>)

  datatype System = System(store: Store, log: seq<Activation>, jobs: map<nat, Job>)

  datatype Move =
    | Begin(w: nat, event: Event, env: Env)
    | Perform(w: nat)
    | End(w: nat)      // done, or stopped half-way

  function KeptMore(a: Activation): Activation {
    a.(kept := a.kept + 1)
  }

  predicate Enabled(sys: System, m: Move) {
    match m
    case Begin(w, _, _) => w !in sys.jobs
    case Perform(w) =>
      && w in sys.jobs && sys.jobs[w].place < |sys.log|
      && sys.log[sys.jobs[w].place].kept < |sys.jobs[w].effects|
    case End(w) => w in sys.jobs
  }

  function Next(sys: System, m: Move): System
    requires Enabled(sys, m)
  {
    match m
    case Begin(w, event, env) =>
      System(sys.store, sys.log + [Activation(event, env, 0)],
             sys.jobs[w := Job(|sys.log|, Effects(sys.store, event, env))])
    case Perform(w) =>
      var Job(n, effects) := sys.jobs[w];
      System(Now(sys.store, effects[sys.log[n].kept]), sys.log[n := KeptMore(sys.log[n])], sys.jobs)
    case End(w) => sys.(jobs := sys.jobs - {w})
  }

  /** A move that cannot be made is skipped. */
  function Then(sys: System, m: Move): System {
    if Enabled(sys, m) then Next(sys, m) else sys
  }

  function RunFrom(sys: System, moves: seq<Move>): System {
    if moves == [] then sys else Then(RunFrom(sys, moves[..|moves| - 1]), moves[|moves| - 1])
  }

  const IDLE := System(EMPTY, [], map[])

  /** A handler that begins now would share no call with one at work. */
  predicate Apart(sys: System, m: Move) {
    m.Begin? ==>
      forall w | w in sys.jobs && sys.jobs[w].place < |sys.log| ::
        Touches(sys.log[sys.jobs[w].place].event) !! Touches(m.event)
  }

  /** No two handlers work on one call at a time. */
  predicate Separate(moves: seq<Move>) {
    moves == [] ||
    (Separate(moves[..|moves| - 1]) && Apart(RunFrom(IDLE, moves[..|moves| - 1]), moves[|moves| - 1]))
  }

  // ---- one after the other ----

  function Continue(s: Store, log: seq<Activation>): Store {
    if log == [] then s else Step(Continue(s, log[..|log| - 1]), log[|log| - 1])
  }

  lemma {:induction false} RunSplits(a: seq<Activation>, b: seq<Activation>)
    ensures Run(a + b) == Continue(Run(a), b)
  {
    if b == [] {
      assert a + b == a;
    } else {
      RunSplits(a, b[..|b| - 1]);
      assert (a + b)[..|a + b| - 1] == a + b[..|b| - 1];
    }
  }

  predicate Avoids(log: seq<Activation>, c: Id) {
    forall n | 0 <= n < |log| :: c !in Touches(log[n].event)
  }

  lemma StepKeepsToItsCalls(s: Store, t: Store, a: Activation)
    requires forall id | id in Touches(a.event) :: Agree(s, t, id)
    ensures forall id | Agree(s, t, id) :: Agree(Step(s, a), Step(t, a), id)
    ensures forall id | id !in Touches(a.event) :: Agree(Step(s, a), s, id)
  {
    HandlersKeepToTheirCalls(s, t, a.event, a.env);
    var effects := Prefix(Effects(s, a.event, a.env), a.kept);
    assert forall i | 0 <= i < |effects| :: effects[i] == Effects(s, a.event, a.env)[i];
    forall id | Agree(s, t, id) ensures Agree(Step(s, a), Step(t, a), id) { DoAllDependsOnOneCall(s, t, effects, id); }
    forall id | id !in Touches(a.event) ensures Agree(Step(s, a), s, id) { DoAllLeaves(s, effects, id); }
  }

  /** Handlers of other calls neither see a difference at c nor make one. */
  lemma {:induction false} OthersPassBy(s: Store, t: Store, log: seq<Activation>, c: Id)
    requires Avoids(log, c) && forall id | id != c :: Agree(s, t, id)
    ensures forall id | id != c :: Agree(Continue(s, log), Continue(t, log), id)
    ensures Agree(Continue(s, log), s, c) && Agree(Continue(t, log), t, c)
  {
    if log != [] {
      var front, a := log[..|log| - 1], log[|log| - 1];
      OthersPassBy(s, t, front, c);
      StepKeepsToItsCalls(Continue(s, front), Continue(t, front), a);
      StepKeepsToItsCalls(Continue(t, front), Continue(s, front), a);
    }
  }

  lemma RunOneMore(log: seq<Activation>, n: nat)
    requires n < |log|
    ensures Run(log[..n + 1]) == Step(Run(log[..n]), log[n])
  {
    assert log[..n + 1][..n] == log[..n];
  }

  lemma SlicesJoin(log: seq<Activation>, n: nat, upto: nat)
    requires n <= upto <= |log|
    ensures log[..upto] == log[..n] + log[n..upto]
  {
  }

  lemma SplitAt(log: seq<Activation>, n: nat, upto: nat)
    requires n < upto <= |log|
    ensures Run(log[..upto]) == Continue(Step(Run(log[..n]), log[n]), log[n + 1..upto])
  {
    SlicesJoin(log, n + 1, upto);
    RunSplits(log[..n + 1], log[n + 1..upto]);
    RunOneMore(log, n);
  }

  lemma DoOneMore(p: Store, effects: seq<Effect>, k: nat)
    requires k < |effects|
    ensures DoAll(p, effects[..k + 1]) == Do(DoAll(p, effects[..k]), effects[k])
  {
    assert effects[..k + 1] == effects[..k] + [effects[k]];
    DoAllAppend(p, effects[..k], effects[k]);
  }

  lemma StepGrows(p: Store, a: Activation)
    requires a.kept < |Effects(p, a.event, a.env)|
    ensures var effects := Effects(p, a.event, a.env);
            && Step(p, a) == DoAll(p, effects[..a.kept])
            && Step(p, KeptMore(a)) == Do(Step(p, a), effects[a.kept])
  {
    var effects := Effects(p, a.event, a.env);
    DoOneMore(p, effects, a.kept);
    if a.kept + 1 == |effects| { assert effects[..a.kept + 1] == effects; }
  }

  /** Activation n keeps one more effect, about c, and nothing between it and `upto` is about c. */
  ghost predicate Extends(log: seq<Activation>, n: nat, upto: nat, eff: Effect) {
    && n < upto <= |log| && Avoids(log[n + 1..upto], CallOf(eff))
    && var a := log[n]; var effects := Effects(Run(log[..n]), a.event, a.env);
       a.kept < |effects| && effects[a.kept] == eff
  }

  /** t is s after one effect, as far as anyone can tell. */
  ghost predicate DiffersBy(s: Store, t: Store, eff: Effect) {
    && (forall id | id != CallOf(eff) :: Agree(s, t, id))
    && Agree(t, Do(s, eff), CallOf(eff))
  }

  lemma DoneIsElsewhereTheSame(s: Store, eff: Effect)
    ensures forall id | id != CallOf(eff) :: Agree(s, Do(s, eff), id)
  {
    forall id | id != CallOf(eff) ensures Agree(s, Do(s, eff), id) { DoTouchesOneCall(s, eff, id); }
  }

  lemma DiffersLater(s: Store, t: Store, s': Store, t': Store, eff: Effect)
    requires t == Do(s, eff) && Agree(s', s, CallOf(eff)) && Agree(t', t, CallOf(eff))
    requires forall id | id != CallOf(eff) :: Agree(s', t', id)
    ensures DiffersBy(s', t', eff)
  {
    DoDependsOnOneCall(s', s, eff);
  }

  lemma DoPassesBy(s: Store, t: Store, eff: Effect, log: seq<Activation>)
    requires Avoids(log, CallOf(eff)) && t == Do(s, eff)
    ensures DiffersBy(Continue(s, log), Continue(t, log), eff)
    ensures Agree(Continue(s, log), s, CallOf(eff))
  {
    DoneIsElsewhereTheSame(s, eff);
    OthersPassBy(s, t, log, CallOf(eff));
    DiffersLater(s, t, Continue(s, log), Continue(t, log), eff);
  }

  /** Then the run up to there differs by that effect. */
  lemma OneMoreKept(log: seq<Activation>, n: nat, upto: nat, eff: Effect)
    requires Extends(log, n, upto, eff)
    ensures DiffersBy(Run(log[..upto]), Run(log[n := KeptMore(log[n])][..upto]), eff)
    ensures Agree(Run(log[..upto]), Step(Run(log[..n]), log[n]), CallOf(eff))
  {
    var more := log[n := KeptMore(log[n])];
    StepGrows(Run(log[..n]), log[n]);
    SplitAt(log, n, upto);
    SplitAt(more, n, upto);
    assert more[..n] == log[..n] && more[n + 1..upto] == log[n + 1..upto];
    DoPassesBy(Step(Run(log[..n]), log[n]), Step(Run(log[..n]), more[n]), eff, log[n + 1..upto]);
  }

  // ---- what every move keeps ----

  ghost predicate Planned(log: seq<Activation>, j: Job) {
    && j.place < |log|
    && j.effects == Effects(Run(log[..j.place]), log[j.place].event, log[j.place].env)
    && log[j.place].kept <= |j.effects|
  }

  /** Nothing begun after this job shares a call with it. */
  predicate Undisturbed(log: seq<Activation>, j: Job) {
    j.place < |log| && forall n | j.place < n < |log| :: Touches(log[n].event) !! Touches(log[j.place].event)
  }

  ghost predicate AsIfSerial(sys: System) {
    && (forall id :: Agree(sys.store, Run(sys.log), id))
    && (forall w | w in sys.jobs :: Planned(sys.log, sys.jobs[w]) && Undisturbed(sys.log, sys.jobs[w]))
    && (forall w, x | w in sys.jobs && x in sys.jobs && w != x :: sys.jobs[w].place != sys.jobs[x].place)
  }

  lemma BegunAddsNothing(log: seq<Activation>, a: Activation)
    requires a.kept == 0
    ensures Run(log + [a]) == Run(log)
  {
    assert (log + [a])[..|log|] == log;
    assert Prefix(Effects(Run(log), a.event, a.env), 0) == [];
  }

  lemma BegunKeepsPlans(log: seq<Activation>, a: Activation, j: Job)
    requires Planned(log, j) && Undisturbed(log, j) && Touches(log[j.place].event) !! Touches(a.event)
    ensures Planned(log + [a], j) && Undisturbed(log + [a], j)
  {
    assert (log + [a])[..j.place] == log[..j.place];
  }

  lemma BegunIsPlanned(s: Store, log: seq<Activation>, event: Event, env: Env)
    requires forall id :: Agree(s, Run(log), id)
    ensures Planned(log + [Activation(event, env, 0)], Job(|log|, Effects(s, event, env)))
  {
    assert (log + [Activation(event, env, 0)])[..|log|] == log;
    HandlersKeepToTheirCalls(s, Run(log), event, env);
  }

  lemma BeginKeepsSerial(sys: System, m: Move)
    requires AsIfSerial(sys) && m.Begin? && Enabled(sys, m) && Apart(sys, m)
    ensures AsIfSerial(Next(sys, m))
  {
    var sys', a := Next(sys, m), Activation(m.event, m.env, 0);
    BegunAddsNothing(sys.log, a);
    BegunIsPlanned(sys.store, sys.log, m.event, m.env);
    forall w | w in sys'.jobs ensures Planned(sys'.log, sys'.jobs[w]) && Undisturbed(sys'.log, sys'.jobs[w]) {
      if w != m.w {
        assert Planned(sys.log, sys.jobs[w]);
        BegunKeepsPlans(sys.log, a, sys.jobs[w]);
      }
    }
  }

  function Due(sys: System, w: nat): Effect
    requires Enabled(sys, Perform(w))
  {
    sys.jobs[w].effects[sys.log[sys.jobs[w].place].kept]
  }

  lemma DueExtends(sys: System, w: nat, upto: nat)
    requires AsIfSerial(sys) && Enabled(sys, Perform(w)) && sys.jobs[w].place < upto <= |sys.log|
    ensures Extends(sys.log, sys.jobs[w].place, upto, Due(sys, w))
    ensures CallOf(Due(sys, w)) in Touches(sys.log[sys.jobs[w].place].event)
  {
    var n, log := sys.jobs[w].place, sys.log;
    assert Planned(log, sys.jobs[w]) && Undisturbed(log, sys.jobs[w]);
    HandlersKeepToTheirCalls(Run(log[..n]), Run(log[..n]), log[n].event, log[n].env);
  }

  lemma DueKeyIsFree(sys: System, w: nat)
    requires AsIfSerial(sys) && Enabled(sys, Perform(w))
    ensures var n := sys.jobs[w].place; KeyIsFree(Step(Run(sys.log[..n]), sys.log[n]), Due(sys, w))
  {
    var n, a := sys.jobs[w].place, sys.log[sys.jobs[w].place];
    assert Planned(sys.log, sys.jobs[w]);
    StepGrows(Run(sys.log[..n]), a);
    KeysAreFreeAlong(Run(sys.log[..n]), a.event, a.env, a.kept);
  }

  lemma SameEffectSameViews(s: Store, t: Store, t': Store, eff: Effect)
    requires (forall id :: Agree(s, t, id)) && DiffersBy(t, t', eff)
    ensures forall id :: Agree(Do(s, eff), t', id)
  {
    assert Agree(s, t, CallOf(eff));
    DoDependsOnOneCall(s, t, eff);
    forall id ensures Agree(Do(s, eff), t', id) {
      if id != CallOf(eff) {
        DoTouchesOneCall(s, eff, id);
        assert Agree(s, t, id) && Agree(t, t', id);
      }
    }
  }

  lemma FreeKeyByView(s: Store, t: Store, eff: Effect)
    requires Agree(s, t, CallOf(eff)) && KeyIsFree(t, eff)
    ensures Now(s, eff) == Do(s, eff)
  {
    SameViewSameFinding(s, t, CallOf(eff));
  }

  lemma PerformKeepsViews(sys: System, w: nat)
    requires AsIfSerial(sys) && Enabled(sys, Perform(w))
    ensures forall id :: Agree(Next(sys, Perform(w)).store, Run(Next(sys, Perform(w)).log), id)
  {
    var n, log, eff := sys.jobs[w].place, sys.log, Due(sys, w);
    var more := log[n := KeptMore(log[n])];
    assert log[..|log|] == log && more[..|log|] == more;
    DueExtends(sys, w, |log|);
    OneMoreKept(log, n, |log|, eff);
    DueKeyIsFree(sys, w);
    assert Agree(sys.store, Run(log), CallOf(eff));
    FreeKeyByView(sys.store, Step(Run(log[..n]), log[n]), eff);
    SameEffectSameViews(sys.store, Run(log), Run(more), eff);
  }

  lemma DifferenceIsElsewhere(s: Store, t: Store, eff: Effect, event: Event)
    requires DiffersBy(s, t, eff) && CallOf(eff) !in Touches(event)
    ensures forall id | id in Touches(event) :: Agree(s, t, id)
  {
    forall id | id in Touches(event) ensures Agree(s, t, id) {}
  }

  lemma PerformKeepsOtherPlans(sys: System, w: nat, x: nat)
    requires AsIfSerial(sys) && Enabled(sys, Perform(w)) && x in sys.jobs && sys.jobs[w].place < sys.jobs[x].place
    ensures Planned(sys.log[sys.jobs[w].place := KeptMore(sys.log[sys.jobs[w].place])], sys.jobs[x])
  {
    var n, m, log, eff := sys.jobs[w].place, sys.jobs[x].place, sys.log, Due(sys, w);
    var more := log[n := KeptMore(log[n])];
    assert Planned(log, sys.jobs[x]) && Undisturbed(log, sys.jobs[w]);
    DueExtends(sys, w, m);
    OneMoreKept(log, n, m, eff);
    DifferenceIsElsewhere(Run(log[..m]), Run(more[..m]), eff, log[m].event);
    HandlersKeepToTheirCalls(Run(log[..m]), Run(more[..m]), log[m].event, log[m].env);
  }

  lemma PerformKeepsPlans(sys: System, w: nat, x: nat)
    requires AsIfSerial(sys) && Enabled(sys, Perform(w)) && x in sys.jobs
    ensures var log := Next(sys, Perform(w)).log; Planned(log, sys.jobs[x]) && Undisturbed(log, sys.jobs[x])
  {
    var n, m, log := sys.jobs[w].place, sys.jobs[x].place, sys.log;
    var more := log[n := KeptMore(log[n])];
    assert Planned(log, sys.jobs[x]) && Undisturbed(log, sys.jobs[x]);
    assert forall k | 0 <= k < |log| :: more[k].event == log[k].event && more[k].env == log[k].env;
    if m <= n {
      assert more[..m] == log[..m];
    } else {
      PerformKeepsOtherPlans(sys, w, x);
    }
  }

  lemma MoveKeepsSerial(sys: System, m: Move)
    requires AsIfSerial(sys) && Enabled(sys, m) && Apart(sys, m)
    ensures AsIfSerial(Next(sys, m))
  {
    match m
    case Begin(_, _, _) => BeginKeepsSerial(sys, m);
    case Perform(w) =>
      PerformKeepsViews(sys, w);
      forall x | x in sys.jobs
        ensures var log := Next(sys, m).log; Planned(log, sys.jobs[x]) && Undisturbed(log, sys.jobs[x])
      {
        PerformKeepsPlans(sys, w, x);
      }
    case End(_) =>
  }

  lemma {:induction false} SeparateRunsAreSerial(moves: seq<Move>)
    requires Separate(moves)
    ensures AsIfSerial(RunFrom(IDLE, moves))
  {
    if moves != [] {
      var front, m := moves[..|moves| - 1], moves[|moves| - 1];
      SeparateRunsAreSerial(front);
      if Enabled(RunFrom(IDLE, front), m) { MoveKeepsSerial(RunFrom(IDLE, front), m); }
    }
  }

  // ---- what follows ----

  /** As long as no two handlers work on one call at a time, the tables say of every call what they would
      say had the handlers run one after the other, each stopped where it is. */
  lemma EachCallFaresAsInOneRun(moves: seq<Move>, id: Id)
    requires Separate(moves)
    ensures Agree(RunFrom(IDLE, moves).store, Run(RunFrom(IDLE, moves).log), id)
  {
    SeparateRunsAreSerial(moves);
  }

  lemma {:induction false} InvocationsOfMeans(invoked: seq<Invocation>, i: Invocation)
    ensures i in InvocationsOf(invoked, i.call) <==> i in invoked
  {
    if invoked != [] {
      InvocationsOfMeans(invoked[..|invoked| - 1], i);
      assert invoked == invoked[..|invoked| - 1] + [invoked[|invoked| - 1]];
    }
  }

  lemma {:induction false} OnceMeansOne(invoked: seq<Invocation>, id: Id)
    requires forall i, j | 0 <= i < j < |invoked| :: invoked[i].call != invoked[j].call
    ensures |InvocationsOf(invoked, id)| <= 1
    ensures InvocationsOf(invoked, id) != [] ==> exists i | 0 <= i < |invoked| :: invoked[i].call == id
  {
    if invoked != [] { OnceMeansOne(invoked[..|invoked| - 1], id); }
  }

  /** So no call reaches its tool twice, and every invocation has its reason in the log. */
  lemma SeparateHandlersAreSafe(moves: seq<Move>)
    requires Separate(moves)
    ensures var sys := RunFrom(IDLE, moves);
            && (forall id :: |InvocationsOf(sys.store.invoked, id)| <= 1)
            && forall i | i in sys.store.invoked :: exists k: nat :: HarnessJustice.Explains(sys.log, k, i)
  {
    var sys := RunFrom(IDLE, moves);
    SeparateRunsAreSerial(moves);
    InvokedAtMostOnceInEveryRun(sys.log);
    HarnessJustice.EveryInvocationIsJustified(sys.log);
    forall id ensures |InvocationsOf(sys.store.invoked, id)| <= 1 {
      assert Agree(sys.store, Run(sys.log), id);
      OnceMeansOne(Run(sys.log).invoked, id);
    }
    forall i | i in sys.store.invoked ensures exists k: nat :: HarnessJustice.Explains(sys.log, k, i) {
      assert Agree(sys.store, Run(sys.log), i.call);
      InvocationsOfMeans(sys.store.invoked, i);
      InvocationsOfMeans(Run(sys.log).invoked, i);
    }
  }

  // ---- and what two handlers on one call can do ----

  /** A job that is to store a verdict and then run the tool. */
  predicate SetsOut(sys: System, w: nat, v: Verdict, i: Invocation) {
    && w in sys.jobs && sys.jobs[w].place < |sys.log| && sys.log[sys.jobs[w].place].kept == 0
    && |sys.jobs[w].effects| >= 2 && sys.jobs[w].effects[0] == Persist(i.call, v) && sys.jobs[w].effects[1] == Invoke(i)
  }

  /** It does both. */
  lemma WriteThenInvoke(sys: System, w: nat, v: Verdict, i: Invocation, a: System, b: System)
    requires SetsOut(sys, w, v, i)
    requires i.call in sys.store.calls && a == Then(sys, Perform(w)) && b == Then(a, Perform(w))
    ensures b.store.invoked == sys.store.invoked + [i] && b.jobs == sys.jobs
    ensures b.store.calls == sys.store.calls[i.call := sys.store.calls[i.call].(verdict := v)]
    ensures |b.log| == |sys.log| && forall n | 0 <= n < |b.log| && n != sys.jobs[w].place :: b.log[n] == sys.log[n]
  {
    assert a.store == Do(sys.store, Persist(i.call, v));
    assert b.store == Do(a.store, Invoke(i));
  }

  lemma BothInvoke(sys: System, w: nat, x: nat, v: Verdict, i: Invocation, u: Verdict, j: Invocation,
                   a: System, b: System, c: System, d: System)
    requires SetsOut(sys, w, v, i) && SetsOut(sys, x, u, j) && sys.jobs[w].place != sys.jobs[x].place
    requires i.call == j.call && i.call in sys.store.calls
    requires a == Then(sys, Perform(w)) && b == Then(a, Perform(w))
    requires c == Then(b, Perform(x)) && d == Then(c, Perform(x))
    ensures d.store.invoked == sys.store.invoked + [i] + [j]
  {
    WriteThenInvoke(sys, w, v, i, a, b);
    WriteThenInvoke(b, x, u, j, c, d);
  }

  lemma BothBegin(sys: System, w: nat, x: nat, first: Event, second: Event, e: Env, f: Env, read: System)
    requires w !in sys.jobs && x !in sys.jobs && w != x
    requires read == Then(Then(sys, Begin(w, first, e)), Begin(x, second, f))
    ensures read.store == sys.store && {w, x} <= read.jobs.Keys
    ensures read.jobs[w] == Job(|sys.log|, Effects(sys.store, first, e))
    ensures read.jobs[x] == Job(|sys.log| + 1, Effects(sys.store, second, f))
    ensures |read.log| == |sys.log| + 2 && read.log[|sys.log|].kept == 0 && read.log[|sys.log| + 1].kept == 0
  {
  }

  lemma DeliveryPlans(s: Store, id: Id, e: Env) returns (v: Verdict, i: Invocation)
    requires HarnessOutcomes.WellServed(e) && id in s.calls && !s.calls[id].verdict.decision.Terminal()
    requires HarnessOutcomes.MayGo(s.calls[id].proposal, e) && !e.updateFails
    ensures var effects := Effects(s, Requested(id), e);
            |effects| >= 2 && effects[0] == Persist(id, v) && effects[1] == Invoke(i) && i.call == id
  {
    var p := s.calls[id].proposal;
    HarnessOutcomes.GatesDecide(p, e);
    v := s.calls[id].verdict.(decision := Allowed, risk := Gates(p, e).risk);
    i := Invocation(id, p.tool, p.action, Gates(p, e).params, e.dryRun);
  }

  /** Two deliveries of one undecided call that both read it before either writes run its tool twice,
      whenever the rules let it go. */
  lemma OverlappingDeliveriesInvokeTwice(
      sys: System, id: Id, w: nat, x: nat, e: Env, f: Env,
      read: System, a: System, b: System, c: System, d: System)
    requires id in sys.store.calls && !sys.store.calls[id].verdict.decision.Terminal()
    requires w !in sys.jobs && x !in sys.jobs && w != x
    requires HarnessOutcomes.WellServed(e) && HarnessOutcomes.WellServed(f) && !e.updateFails && !f.updateFails
    requires var p := sys.store.calls[id].proposal; HarnessOutcomes.MayGo(p, e) && HarnessOutcomes.MayGo(p, f)
    requires read == Then(Then(sys, Begin(w, Requested(id), e)), Begin(x, Requested(id), f))
    requires a == Then(read, Perform(w)) && b == Then(a, Perform(w))
    requires c == Then(b, Perform(x)) && d == Then(c, Perform(x))
    ensures exists i: Invocation, j: Invocation ::
              i.call == j.call == id && d.store.invoked == sys.store.invoked + [i] + [j]
  {
    var v, i := DeliveryPlans(sys.store, id, e);
    var u, j := DeliveryPlans(sys.store, id, f);
    BothBegin(sys, w, x, Requested(id), Requested(id), e, f, read);
    assert SetsOut(read, w, v, i) && SetsOut(read, x, u, j);
    BothInvoke(read, w, x, v, i, u, j, a, b, c, d);
  }

  lemma ApprovalPlans(s: Store, id: Id, approver: Approver, e: Env) returns (i: Invocation)
    requires HarnessOutcomes.WellServed(e) && id in s.calls
    requires HarnessOutcomes.GoesThrough(s.calls[id], HumanRuling.Approve, approver, e)
    ensures var effects := Effects(s, Ruled(id, HumanRuling.Approve, approver), e);
            && |effects| >= 2 && effects[1] == Invoke(i) && i.call == id
            && effects[0] == Persist(id, HarnessOutcomes.Decided(s.calls[id].verdict, Approved, approver, e))
  {
    var p := s.calls[id].proposal;
    HarnessOutcomes.HumanDecides(s.calls[id], HumanRuling.Approve, approver, e);
    HarnessOutcomes.RulingByGoverning(p, e);
    i := Invocation(id, p.tool, p.action, HarnessOutcomes.Checked(p, e).value, e.dryRun);
  }

  lemma SweepOfOne(s: Store, id: Id, f: Env)
    requires id in s.calls && Lapsed(s.calls[id], f) && id !in f.sweepFails
    ensures Effects(s, Swept([id]), f) ==
            [Persist(id, s.calls[id].verdict.(decision := Expired, decidedAt := Some(f.now))),
             Record(id, OutcomeDenied, f)]
  {
    assert [id][..0] == [] && SweepEffects(s, [id][..0], f) == [];
  }

  /** An approval that read its call in time and a sweep that finds it lapsed: the sweep stores Expired,
      and the approval then stores Approved over it and runs the tool. */
  lemma OverlappingApprovalRevivesExpired(
      sys: System, id: Id, w: nat, x: nat, approver: Approver, e: Env, f: Env,
      read: System, swept: System, a: System, b: System)
    requires id in sys.store.calls && w !in sys.jobs && x !in sys.jobs && w != x
    requires HarnessOutcomes.WellServed(e)
    requires HarnessOutcomes.GoesThrough(sys.store.calls[id], HumanRuling.Approve, approver, e)
    requires Lapsed(sys.store.calls[id], f) && id !in f.sweepFails
    requires read == Then(Then(sys, Begin(w, Ruled(id, HumanRuling.Approve, approver), e)), Begin(x, Swept([id]), f))
    requires swept == Then(read, Perform(x)) && a == Then(swept, Perform(w)) && b == Then(a, Perform(w))
    ensures id in swept.store.calls && swept.store.calls[id].verdict.decision == Expired
    ensures id in b.store.calls && b.store.calls[id].verdict.decision == Approved
    ensures |b.store.invoked| == |sys.store.invoked| + 1 && b.store.invoked[|sys.store.invoked|].call == id
  {
    var row := sys.store.calls[id];
    var i := ApprovalPlans(sys.store, id, approver, e);
    var lapsed := Persist(id, row.verdict.(decision := Expired, decidedAt := Some(f.now)));
    SweepOfOne(sys.store, id, f);
    BothBegin(sys, w, x, Ruled(id, HumanRuling.Approve, approver), Swept([id]), e, f, read);
    assert swept.store == Do(sys.store, lapsed);
    WriteThenInvoke(swept, w, HarnessOutcomes.Decided(row.verdict, Approved, approver, e), i, a, b);
  }
}
