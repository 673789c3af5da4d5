/** Investigations: admission, the order of the agents, and the hand-off of intents. */
module Orchestrator {
  import opened Prelude

  type IncidentId = Id
  type CallId = Id
  type RunId = nat

  datatype Kind = IncidentManager | Monitoring | LogAnalysis | Security | Diagnosis | Action | Documentation

  function FirstWave(): set<Kind> {
    {Monitoring, LogAnalysis, Security}
  }

  /** What an agent concluded; only a diagnosis carries a confidence here. */
  datatype Findings = Findings(confidence: Option<real>)

  /** Findings may be absent; a call may be nil. */
  datatype Output = Output(findings: Option<Findings>, calls: seq<Option<CallId>>)

  type Evidence = map<Kind, Findings>

  function Record(e: Evidence, kind: Kind, out: Output): Evidence {
    if out.findings.Some? then e[kind := out.findings.value] else e
  }

  predicate Complete(e: Evidence) {
    Monitoring in e
  }

  const MIN_REMEDIATION_CONFIDENCE := 0.5

  /** The diagnosis agent: refuses without telemetry. `answer` is the reasoner's confidence. */
  function Diagnose(e: Evidence, answer: Option<real>): Option<Output> {
    if !Complete(e) || answer.None? then None else Some(Output(Some(Findings(answer)), []))
  }

  datatype Plan = NoAnswer | Unparseable | Unbuildable | Proposed(call: CallId)

  /** The action agent: proposes nothing on a diagnosis below the floor. */
  function Remediate(e: Evidence, plan: Plan): Option<Output> {
    if Diagnosis !in e then None
    else
      var confidence := if e[Diagnosis].confidence.Some? then e[Diagnosis].confidence.value else 0.0;
      if confidence < MIN_REMEDIATION_CONFIDENCE then Some(Output(Some(Findings(None)), []))
      else match plan
        case NoAnswer => None
        case Unparseable => Some(Output(Some(Findings(None)), []))
        case Unbuildable => None
        case Proposed(call) => Some(Output(Some(Findings(None)), [Some(call)]))
  }

  // ---- admission and hand-off, as the object does them ----

  datatype Admission = Ignored | Deferred | Started

  function Admit(running: map<IncidentId, RunId>, limit: int, incident: IncidentId): Admission {
    if incident == NIL_ID || incident in running then Ignored
    else if |running| >= limit then Deferred
    else Started
  }

  class Desk {
    const limit: int
    var running: map<IncidentId, RunId>

    constructor (max: int)
      ensures limit == (if max <= 0 then 4 else max) && running == map[]
    {
      limit := if max <= 0 then 4 else max;
      running := map[];
    }

    method OnIncidentDetected(incident: IncidentId, run: RunId) returns (a: Admission)
      modifies this
      ensures a == Admit(old(running), limit, incident)
      ensures running == if a == Started then old(running)[incident := run] else old(running)
    {
      if incident == NIL_ID {
        return Ignored;
      }
      if incident in running {
        return Ignored;
      }
      if |running| >= limit {
        return Deferred;
      }
      running := running[incident := run];
      a := Started;
    }

    method Finished(incident: IncidentId)
      modifies this
      ensures running == old(running) - {incident}
    {
      running := running - {incident};
    }
  }

  /** The calls whose row could be written, in order; without a store, all of them. */
  function Publishable(calls: seq<Option<CallId>>, wired: bool, creates: CallId -> bool): seq<CallId> {
    if calls == [] then []
    else
      var front, last := Publishable(calls[..|calls| - 1], wired, creates), calls[|calls| - 1];
      if last.Some? && (!wired || creates(last.value)) then front + [last.value] else front
  }

  /** Persists each call, then publishes it; a call whose row failed is not published. */
  method PublishIntents(calls: seq<Option<CallId>>, wired: bool, creates: CallId -> bool)
      returns (published: seq<CallId>, rows: seq<CallId>)
    ensures published == Publishable(calls, wired, creates)
    ensures wired ==> rows == published
    ensures !wired ==> rows == []
  {
    published, rows := [], [];
    for i := 0 to |calls|
      invariant published == Publishable(calls[..i], wired, creates)
      invariant rows == if wired then published else []
    {
      assert calls[..i + 1][..i] == calls[..i];
      if calls[i].None? {
        continue;
      }
      var call := calls[i].value;
      if wired {
        if !creates(call) {
          continue;
        }
        rows := rows + [call];
      }
      published := published + [call];
    }
    assert calls[..|calls|] == calls;
  }

  lemma {:induction false} PublishableMeans(
      calls: seq<Option<CallId>>, wired: bool, creates: CallId -> bool, call: CallId)
    ensures call in Publishable(calls, wired, creates) <==> Some(call) in calls && (!wired || creates(call))
  {
    if calls != [] {
      PublishableMeans(calls[..|calls| - 1], wired, creates, call);
      assert calls == calls[..|calls| - 1] + [calls[|calls| - 1]];
    }
  }

  /** Publishing keeps order: what a list publishes is what its parts publish, one after the other. */
  lemma {:induction false} PublishableJoins(
      a: seq<Option<CallId>>, b: seq<Option<CallId>>, wired: bool, creates: CallId -> bool)
    ensures Publishable(a + b, wired, creates) == Publishable(a, wired, creates) + Publishable(b, wired, creates)
  {
    if b == [] {
      assert a + b == a;
    } else {
      PublishableJoins(a, b[..|b| - 1], wired, creates);
      assert (a + b)[..|a + b| - 1] == a + b[..|b| - 1];
    }
  }

  /** The published calls are a subsequence of those asked for: these positions, in this order. */
  lemma {:induction false} PublishedIsASubsequence(
      calls: seq<Option<CallId>>, wired: bool, creates: CallId -> bool) returns (at: seq<nat>)
    ensures |at| == |Publishable(calls, wired, creates)|
    ensures forall i, j | 0 <= i < j < |at| :: at[i] < at[j]
    ensures forall i | 0 <= i < |at| :: at[i] < |calls| && calls[at[i]] == Some(Publishable(calls, wired, creates)[i])
  {
    at := [];
    if calls != [] {
      var front, last := calls[..|calls| - 1], calls[|calls| - 1];
      at := PublishedIsASubsequence(front, wired, creates);
      if last.Some? && (!wired || creates(last.value)) { at := at + [|calls| - 1]; }
    }
  }

  /** Each call is published as often as it was asked for, if its row can be written, and else never. */
  lemma {:induction false} PublishedAsOftenAsAsked(
      calls: seq<Option<CallId>>, wired: bool, creates: CallId -> bool, call: CallId)
    ensures multiset(Publishable(calls, wired, creates))[call] ==
            if !wired || creates(call) then multiset(calls)[Some(call)] else 0
  {
    if calls != [] {
      var front, last := calls[..|calls| - 1], calls[|calls| - 1];
      PublishedAsOftenAsAsked(front, wired, creates, call);
      assert calls == front + [last];
    }
  }

  /** A new incident is started exactly when it is named, not running, and there is room. */
  lemma StartedExactlyWhen(running: map<IncidentId, RunId>, limit: int, incident: IncidentId)
    ensures Admit(running, limit, incident) == Started <==>
            incident != NIL_ID && incident !in running && |running| < limit
    ensures Admit(running, limit, incident) == Deferred <==>
            incident != NIL_ID && incident !in running && |running| >= limit
  {
  }

  /** The action agent hands over its call exactly when it proposed one on a recorded diagnosis of at
      least one half; the diagnosis agent concludes exactly when there is telemetry and an answer. */
  lemma AgentsActExactlyWhen(e: Evidence, plan: Plan, answer: Option<real>, call: CallId)
    ensures Remediate(e, plan).Some? && Some(call) in Remediate(e, plan).value.calls <==>
            && Diagnosis in e && e[Diagnosis].confidence.Some? && e[Diagnosis].confidence.value >= 0.5
            && plan == Proposed(call)
    ensures Diagnose(e, answer).Some? <==> Monitoring in e && answer.Some?
    ensures Diagnose(e, answer).Some? ==>
              Record(e, Diagnosis, Diagnose(e, answer).value)[Diagnosis].confidence == answer
  {
  }
}

/** Any number of investigations, interleaved. */
module OrchestratorRuns {
  import opened Prelude
  import opened Orchestrator

  datatype Stage = Planning | Gathering | Diagnosing | Acting | HandingOff | Documenting | Ended | Gone

  datatype Progress = Running | Folding | Finished

  /** One investigation. `queue` is the list its publishIntents call is working through, `ready`
      says the row of the call at its head is written, `proposals` what the action agent asked for. */
  datatype Investigation = Investigation(
    incident: IncidentId, registered: bool, stage: Stage, wave: map<Kind, Progress>, evidence: Evidence,
    queue: seq<Option<CallId>>, ready: bool, proposals: seq<Option<CallId>>)

  /** `wired` says a call store is configured; `rows` and `requested` record creates that succeeded
      and events published. */
  datatype State = State(
    limit: int, wired: bool, running: map<IncidentId, RunId>, runs: map<RunId, Investigation>,
    rows: set<CallId>, requested: set<CallId>)

  datatype Step =
    | Detected(run: RunId, incident: IncidentId)
    | Direct(run: RunId, incident: IncidentId)
    | Planned(run: RunId)
    | GiveUp(run: RunId)
    | AgentReturns(run: RunId, kind: Kind, out: Option<Output>)
    | SkipNil(run: RunId)
    | WriteRow(run: RunId, ok: bool)
    | Publish(run: RunId)
    | AgentDone(run: RunId, kind: Kind)
    | Join(run: RunId)
    | DiagnosisReturns(run: RunId, answer: Option<real>)
    | ActionReturns(run: RunId, plan: Plan)
    | HandedOff(run: RunId)
    | Documented(run: RunId)
    | CleanedUp(run: RunId)

  function Begin(incident: IncidentId, registered: bool): Investigation {
    Investigation(incident, registered, Planning, map[], map[], [], false, [])
  }

  predicate NobodyFolding(i: Investigation) {
    forall k | k in i.wave :: i.wave[k] != Folding
  }

  predicate AllFinished(i: Investigation) {
    forall k | k in FirstWave() :: k in i.wave && i.wave[k] == Finished
  }

  predicate Enabled(s: State, a: Step) {
    if a.Detected? || a.Direct? then a.run !in s.runs
    else
      && a.run in s.runs
      && var i := s.runs[a.run];
         match a
         case Planned(_) => i.stage == Planning
         case GiveUp(_) => i.stage == Planning || i.stage == Diagnosing
         case AgentReturns(_, kind, _) =>
           i.stage == Gathering && kind in i.wave && i.wave[kind] == Running && NobodyFolding(i)
         case SkipNil(_) => i.queue != [] && i.queue[0].None?
         case WriteRow(_, _) => i.queue != [] && i.queue[0].Some? && !i.ready
         case Publish(_) => i.queue != [] && i.queue[0].Some? && i.ready
         case AgentDone(_, kind) => i.stage == Gathering && kind in i.wave && i.wave[kind] == Folding && i.queue == []
         case Join(_) => i.stage == Gathering && AllFinished(i)
         case DiagnosisReturns(_, _) => i.stage == Diagnosing
         case ActionReturns(_, _) => i.stage == Acting
         case HandedOff(_) => i.stage == HandingOff && i.queue == []
         case Documented(_) => i.stage == Documenting
         case CleanedUp(_) => i.stage == Ended
         case _ => true
  }

  function Put(s: State, run: RunId, i: Investigation): State {
    s.(runs := s.runs[run := i])
  }

  function Do(s: State, a: Step): State
    requires Enabled(s, a)
  {
    match a
    case Detected(run, incident) =>
      if Admit(s.running, s.limit, incident) != Started then s
      else Put(s, run, Begin(incident, true)).(running := s.running[incident := run])
    case Direct(run, incident) => Put(s, run, Begin(incident, false))
    case _ => DoIn(s, a, s.runs[a.run])
  }

  function DoIn(s: State, a: Step, i: Investigation): State
    requires Enabled(s, a) && a.run in s.runs && i == s.runs[a.run]
  {
    var run := a.run;
    match a
    case Planned(_) => Put(s, run, i.(stage := Gathering, wave := map k | k in FirstWave() :: Running))
    case GiveUp(_) => Put(s, run, i.(stage := Ended))
    case AgentReturns(_, kind, out) =>
      Put(s, run,
          if out.None? then i.(wave := i.wave[kind := Finished])
          else i.(wave := i.wave[kind := Folding], evidence := Record(i.evidence, kind, out.value),
                  queue := out.value.calls))
    case SkipNil(_) => Put(s, run, i.(queue := i.queue[1..], ready := false))
    case WriteRow(_, ok) =>
      if !s.wired then Put(s, run, i.(ready := true))
      else if ok then Put(s, run, i.(ready := true)).(rows := s.rows + {i.queue[0].value})
      else Put(s, run, i.(queue := i.queue[1..], ready := false))
    case Publish(_) =>
      Put(s, run, i.(queue := i.queue[1..], ready := false)).(requested := s.requested + {i.queue[0].value})
    case AgentDone(_, kind) => Put(s, run, i.(wave := i.wave[kind := Finished]))
    case Join(_) => Put(s, run, i.(stage := if Complete(i.evidence) then Diagnosing else Ended))
    case DiagnosisReturns(_, answer) =>
      var out := Diagnose(i.evidence, answer);
      Put(s, run, if out.None? then i.(stage := Ended)
                  else i.(stage := Acting, evidence := Record(i.evidence, Diagnosis, out.value)))
    case ActionReturns(_, plan) =>
      var out := Remediate(i.evidence, plan);
      Put(s, run, if out.None? then i.(stage := HandingOff)
                  else i.(stage := HandingOff, evidence := Record(i.evidence, Action, out.value),
                          queue := out.value.calls, proposals := out.value.calls))
    case HandedOff(_) => Put(s, run, i.(stage := Documenting))
    case Documented(_) => Put(s, run, i.(stage := Ended))
    case CleanedUp(_) =>
      var gone := Put(s, run, i.(stage := Gone));
      if i.registered then gone.(running := s.running - {i.incident}) else gone
    case _ => s
  }

  function Run(limit: int, wired: bool, steps: seq<Step>): State {
    if steps == [] then State(limit, wired, map[], map[], {}, {})
    else
      var s, a := Run(limit, wired, steps[..|steps| - 1]), steps[|steps| - 1];
      if Enabled(s, a) then Do(s, a) else s
  }

  // ---- what every step keeps ----

  predicate Live(i: Investigation) {
    i.registered && i.stage != Gone
  }

  /** The running map is exactly the live investigations that events started. */
  ghost predicate Registered(s: State) {
    && (forall n | n in s.running ::
          s.running[n] in s.runs && Live(s.runs[s.running[n]]) && s.runs[s.running[n]].incident == n)
    && (forall r | r in s.runs && Live(s.runs[r]) ::
          s.runs[r].incident in s.running && s.running[s.runs[r].incident] == r)
    && |s.running| <= s.limit
  }

  predicate PastGathering(stage: Stage) {
    stage == Diagnosing || stage == Acting || stage == HandingOff || stage == Documenting
  }

  predicate BeforeProposal(stage: Stage) {
    stage == Planning || stage == Gathering || stage == Diagnosing || stage == Acting
  }

  /** Diagnosis waits for the whole first wave and for telemetry; proposals wait for a diagnosis
      of at least the floor. */
  ghost predicate InOrder(i: Investigation) {
    && (PastGathering(i.stage) ==> AllFinished(i) && Complete(i.evidence))
    && (i.proposals != [] ==> Diagnosis in i.evidence && ConfidentEnough(i.evidence[Diagnosis]))
    && (BeforeProposal(i.stage) ==> i.proposals == [])
    && Tidy(i)
  }

  predicate ConfidentEnough(f: Findings) {
    f.confidence.Some? && f.confidence.value >= MIN_REMEDIATION_CONFIDENCE
  }

  /** Only one publishIntents call is at work, and only where the program has one. */
  ghost predicate Tidy(i: Investigation) {
    && (forall k | k in i.wave :: k in FirstWave())
    && (i.stage != HandingOff && NobodyFolding(i) ==> i.queue == [])
    && (i.stage != Gathering ==> NobodyFolding(i))
    && (forall j, k | j in i.wave && k in i.wave && i.wave[j] == Folding && i.wave[k] == Folding :: j == k)
    && (i.ready ==> i.queue != [] && i.queue[0].Some?)
  }

  /** With a store, a call is announced only when its row is written. */
  ghost predicate PersistedFirst(s: State) {
    s.wired ==>
      && s.requested <= s.rows
      && forall r | r in s.runs && s.runs[r].ready :: HeadIsWritten(s, s.runs[r])
  }

  ghost predicate HeadIsWritten(s: State, i: Investigation) {
    i.queue != [] && i.queue[0].Some? && i.queue[0].value in s.rows
  }

  ghost predicate Ordered(s: State) {
    forall r | r in s.runs :: InOrder(s.runs[r])
  }

  ghost predicate Sound(s: State) {
    Registered(s) && PersistedFirst(s) && Ordered(s)
  }

  lemma InnerStepChangesNoStanding(s: State, a: Step)
    requires Enabled(s, a) && !a.Detected? && !a.Direct? && !a.CleanedUp?
    ensures var s' := Do(s, a);
            && s'.running == s.running && s'.limit == s.limit
            && s'.runs == s.runs[a.run := s'.runs[a.run]]
            && s'.runs[a.run].incident == s.runs[a.run].incident
            && s'.runs[a.run].registered == s.runs[a.run].registered
            && (s'.runs[a.run].stage == Gone <==> s.runs[a.run].stage == Gone)
  {
  }

  lemma SameStandingKeepsRegistered(s: State, s': State, r: RunId)
    requires Registered(s) && s'.running == s.running && s'.limit == s.limit && r in s.runs && r in s'.runs
    requires s'.runs == s.runs[r := s'.runs[r]]
    requires s'.runs[r].incident == s.runs[r].incident && Live(s'.runs[r]) == Live(s.runs[r])
    ensures Registered(s')
  {
  }

  lemma DetectedKeepsRegistered(s: State, a: Step)
    requires Registered(s) && Enabled(s, a) && a.Detected?
    ensures Registered(Do(s, a))
  {
    assert a.incident !in s.running ==> |s.running[a.incident := a.run]| == |s.running| + 1;
  }

  lemma LeavingKeepsRegistered(s: State, s': State, r: RunId)
    requires Registered(s) && r in s.runs && Live(s.runs[r])
    requires s'.running == s.running - {s.runs[r].incident} && s'.limit == s.limit
    requires s'.runs == s.runs[r := s.runs[r].(stage := Gone)]
    ensures Registered(s')
  {
    var n := s.runs[r].incident;
    assert s.running.Keys == s'.running.Keys + {n};
    forall q | q in s'.runs && Live(s'.runs[q])
      ensures s'.runs[q].incident in s'.running && s'.running[s'.runs[q].incident] == q
    {
      assert s.running[s.runs[q].incident] == q && s.running[n] == r;
    }
  }

  lemma StepKeepsRegistered(s: State, a: Step)
    requires Registered(s) && Enabled(s, a)
    ensures Registered(Do(s, a))
  {
    if a.Detected? {
      DetectedKeepsRegistered(s, a);
    } else if a.CleanedUp? {
      if Live(s.runs[a.run]) {
        LeavingKeepsRegistered(s, Do(s, a), a.run);
      } else {
        SameStandingKeepsRegistered(s, Do(s, a), a.run);
      }
    } else if !a.Direct? {
      InnerStepChangesNoStanding(s, a);
      SameStandingKeepsRegistered(s, Do(s, a), a.run);
    }
  }

  lemma StepKeepsPersistedFirst(s: State, a: Step)
    requires PersistedFirst(s) && Ordered(s) && Enabled(s, a)
    ensures PersistedFirst(Do(s, a))
  {
    var s' := Do(s, a);
    if s.wired {
      RowsOnlyGrow(s, a);
      forall r | r in s'.runs && s'.runs[r].ready ensures HeadIsWritten(s', s'.runs[r]) {
        if r in s.runs && s'.runs[r] == s.runs[r] {
          assert HeadIsWritten(s, s.runs[r]);
        } else if r in s.runs {
          OwnHeadIsWritten(s, a);
        }
      }
    }
  }

  lemma RowsOnlyGrow(s: State, a: Step)
    requires s.wired && PersistedFirst(s) && Enabled(s, a)
    ensures var s' := Do(s, a); s.rows <= s'.rows && s'.requested <= s'.rows
  {
    if a.Publish? { assert HeadIsWritten(s, s.runs[a.run]); }
  }

  lemma OwnHeadIsWritten(s: State, a: Step)
    requires s.wired && PersistedFirst(s) && Enabled(s, a) && a.run in s.runs && InOrder(s.runs[a.run])
    ensures var s' := Do(s, a); s'.runs[a.run].ready ==> HeadIsWritten(s', s'.runs[a.run])
  {
    if s.runs[a.run].ready { assert HeadIsWritten(s, s.runs[a.run]); }
  }

  /** Where the program is decides which agents have run. */
  lemma WaveStepKeepsInOrder(s: State, a: Step)
    requires Enabled(s, a) && a.run in s.runs && InOrder(s.runs[a.run])
    requires a.Planned? || a.AgentReturns? || a.AgentDone? || a.Join?
    ensures InOrder(Do(s, a).runs[a.run])
  {
    var i, i' := s.runs[a.run], Do(s, a).runs[a.run];
    if a.AgentReturns? && a.out.Some? { assert i'.wave[a.kind] == Folding; }
    if a.AgentDone? {
      forall k | k in i'.wave ensures i'.wave[k] != Folding {
        if k != a.kind { assert i.wave[k] == i'.wave[k]; }
      }
    }
  }

  lemma StepKeepsInOrder(s: State, a: Step)
    requires Ordered(s) && Enabled(s, a)
    ensures Ordered(Do(s, a))
  {
    OthersStandStill(s, a);
    if a.run in s.runs { OwnStepKeepsInOrder(s, a); }
  }

  /** A step changes at most its own investigation, or begins it. */
  lemma OthersStandStill(s: State, a: Step)
    requires Enabled(s, a)
    ensures var s' := Do(s, a);
            && (s'.runs == s.runs || (a.run in s'.runs && s'.runs == s.runs[a.run := s'.runs[a.run]]))
            && (a.run in s'.runs && a.run !in s.runs ==> InOrder(s'.runs[a.run]))
  {
  }

  lemma OwnStepKeepsInOrder(s: State, a: Step)
    requires Enabled(s, a) && a.run in s.runs && InOrder(s.runs[a.run])
    ensures InOrder(Do(s, a).runs[a.run])
  {
    if a.Planned? || a.AgentReturns? || a.AgentDone? || a.Join? {
      WaveStepKeepsInOrder(s, a);
    } else if a.SkipNil? || a.WriteRow? || a.Publish? {
      QueueStepKeepsInOrder(s, a);
    } else {
      StageStepKeepsInOrder(s, a);
    }
  }

  lemma QueueStepKeepsInOrder(s: State, a: Step)
    requires Enabled(s, a) && a.run in s.runs && InOrder(s.runs[a.run]) && (a.SkipNil? || a.WriteRow? || a.Publish?)
    ensures InOrder(Do(s, a).runs[a.run])
  {
  }

  lemma StageStepKeepsInOrder(s: State, a: Step)
    requires Enabled(s, a) && a.run in s.runs && InOrder(s.runs[a.run])
    requires a.GiveUp? || a.DiagnosisReturns? || a.ActionReturns? || a.HandedOff? || a.Documented? || a.CleanedUp?
    ensures InOrder(Do(s, a).runs[a.run])
  {
  }

  lemma {:induction false} EveryRunIsSound(limit: int, wired: bool, steps: seq<Step>)
    requires limit > 0
    ensures Sound(Run(limit, wired, steps))
  {
    if steps != [] {
      var s, a := Run(limit, wired, steps[..|steps| - 1]), steps[|steps| - 1];
      EveryRunIsSound(limit, wired, steps[..|steps| - 1]);
      if Enabled(s, a) {
        StepKeepsRegistered(s, a);
        StepKeepsPersistedFirst(s, a);
        StepKeepsInOrder(s, a);
      }
    }
  }

  // ---- each step goes on ----

  /** What an agent of the first wave finds is recorded, and its calls wait to be handed over. */
  lemma FindingsAreRecorded(s: State, run: RunId, kind: Kind, out: Output)
    requires Enabled(s, AgentReturns(run, kind, Some(out))) && out.findings.Some?
    ensures var i := Do(s, AgentReturns(run, kind, Some(out))).runs[run];
            kind in i.evidence && i.evidence[kind] == out.findings.value && i.queue == out.calls
  {
  }

  /** Once the wave has ended, diagnosis begins exactly when there is telemetry. */
  lemma DiagnosisBeginsExactlyWhen(s: State, run: RunId)
    requires Enabled(s, Join(run))
    ensures Do(s, Join(run)).runs[run].stage == Diagnosing <==> Monitoring in s.runs[run].evidence
  {
  }

  /** A call at the head of the queue is published once its row is written, or at once without a store;
      a call whose row failed is dropped. */
  lemma HeadIsPublished(s: State, run: RunId)
    requires Enabled(s, WriteRow(run, true)) && Enabled(s, WriteRow(run, false))
    ensures var call := s.runs[run].queue[0].value;
            var written := Do(s, WriteRow(run, true));
            && Enabled(written, Publish(run)) && call in Do(written, Publish(run)).requested
            && (s.wired ==> call in written.rows)
            && Do(written, Publish(run)).runs[run].queue == s.runs[run].queue[1..]
            && (s.wired ==> Do(s, WriteRow(run, false)).runs[run].queue == s.runs[run].queue[1..])
  {
  }

  // ---- every call is handed over ----

  /** The calls the agents of an investigation ask for in one step. */
  ghost function AsksFor(s: State, a: Step, r: RunId): set<CallId> {
    if a.run != r || !Enabled(s, a) then {}
    else match a
      case AgentReturns(_, _, Some(out)) => set o | o in out.calls && o.Some? :: o.value
      case ActionReturns(_, Proposed(call)) =>
        if Diagnosis in s.runs[r].evidence && ConfidentEnough(s.runs[r].evidence[Diagnosis]) then {call} else {}
      case _ => {}
  }

  /** The call of it whose row a step fails to write. */
  ghost function FailsToWrite(s: State, a: Step, r: RunId): set<CallId> {
    if s.wired && a == WriteRow(r, false) && Enabled(s, a) then {s.runs[r].queue[0].value} else {}
  }

  ghost function Asked(limit: int, wired: bool, steps: seq<Step>, r: RunId): set<CallId> {
    if steps == [] then {}
    else
      var front, a := steps[..|steps| - 1], steps[|steps| - 1];
      Asked(limit, wired, front, r) + AsksFor(Run(limit, wired, front), a, r)
  }

  ghost function Unwritten(limit: int, wired: bool, steps: seq<Step>, r: RunId): set<CallId> {
    if steps == [] then {}
    else
      var front, a := steps[..|steps| - 1], steps[|steps| - 1];
      Unwritten(limit, wired, front, r) + FailsToWrite(Run(limit, wired, front), a, r)
  }

  /** What was asked for is published, or its row failed, or it still waits. */
  ghost predicate Accounted(s: State, r: RunId, asked: set<CallId>, unwritten: set<CallId>) {
    if r in s.runs then forall c | c in asked :: c in s.requested || c in unwritten || Some(c) in s.runs[r].queue
    else asked == {}
  }

  lemma QueueStepAccounts(s: State, a: Step, r: RunId, asked: set<CallId>, unwritten: set<CallId>)
    requires Enabled(s, a) && a.run == r && (a.SkipNil? || a.WriteRow? || a.Publish?)
    requires Accounted(s, r, asked, unwritten)
    ensures Accounted(Do(s, a), r, asked, unwritten + FailsToWrite(s, a, r))
  {
    var queue := s.runs[r].queue;
    assert queue == [queue[0]] + queue[1..];
  }

  lemma AgentStepAccounts(s: State, a: Step, r: RunId, asked: set<CallId>, unwritten: set<CallId>)
    requires Enabled(s, a) && a.run == r && (a.AgentReturns? || a.ActionReturns?) && InOrder(s.runs[r])
    requires Accounted(s, r, asked, unwritten)
    ensures Accounted(Do(s, a), r, asked + AsksFor(s, a, r), unwritten)
  {
    assert s.runs[r].queue == [];
  }

  lemma OtherStepAccounts(s: State, a: Step, r: RunId, asked: set<CallId>, unwritten: set<CallId>)
    requires Enabled(s, a) && Accounted(s, r, asked, unwritten)
    requires a.run != r || !(a.SkipNil? || a.WriteRow? || a.Publish? || a.AgentReturns? || a.ActionReturns?)
    ensures Accounted(Do(s, a), r, asked, unwritten) && AsksFor(s, a, r) == {} && FailsToWrite(s, a, r) == {}
  {
  }

  lemma {:induction false} EveryCallIsAccountedFor(limit: int, wired: bool, steps: seq<Step>, r: RunId)
    requires limit > 0
    ensures Accounted(Run(limit, wired, steps), r, Asked(limit, wired, steps, r), Unwritten(limit, wired, steps, r))
  {
    if steps != [] {
      var front, a := steps[..|steps| - 1], steps[|steps| - 1];
      var s := Run(limit, wired, front);
      var asked, unwritten := Asked(limit, wired, front, r), Unwritten(limit, wired, front, r);
      EveryCallIsAccountedFor(limit, wired, front, r);
      EveryRunIsSound(limit, wired, front);
      if Enabled(s, a) { StepAccounts(s, a, r, asked, unwritten); }
    }
  }

  lemma StepAccounts(s: State, a: Step, r: RunId, asked: set<CallId>, unwritten: set<CallId>)
    requires Enabled(s, a) && Accounted(s, r, asked, unwritten) && Ordered(s)
    ensures Accounted(Do(s, a), r, asked + AsksFor(s, a, r), unwritten + FailsToWrite(s, a, r))
  {
    if a.run == r && (a.SkipNil? || a.WriteRow? || a.Publish?) {
      QueueStepAccounts(s, a, r, asked, unwritten);
    } else if a.run == r && (a.AgentReturns? || a.ActionReturns?) {
      AgentStepAccounts(s, a, r, asked, unwritten);
    } else {
      OtherStepAccounts(s, a, r, asked, unwritten);
    }
  }

  /** An investigation that has gone past the hand-off has had every call it asked for published, but
      for those whose row could not be written. */
  lemma NothingAskedForIsLost(limit: int, wired: bool, steps: seq<Step>, r: RunId, c: CallId)
    requires limit > 0 && c in Asked(limit, wired, steps, r)
    requires r in Run(limit, wired, steps).runs
    requires Run(limit, wired, steps).runs[r].stage in {Diagnosing, Acting, Documenting, Ended, Gone}
    ensures var s := Run(limit, wired, steps); c in s.requested || c in Unwritten(limit, wired, steps, r)
  {
    EveryCallIsAccountedFor(limit, wired, steps, r);
    EveryRunIsSound(limit, wired, steps);
    assert InOrder(Run(limit, wired, steps).runs[r]);
  }

  // ---- what follows ----

  /** Live investigations of events are never two on one incident, and never more than the limit. */
  lemma AdmissionHolds(s: State, live: set<RunId>)
    requires Registered(s) && forall r | r in live :: r in s.runs && Live(s.runs[r])
    ensures |live| <= s.limit
    ensures forall q, r | q in live && r in live && s.runs[q].incident == s.runs[r].incident :: q == r
  {
    LiveFitsRunning(s, live, s.running.Keys);
  }

  lemma {:induction false} LiveFitsRunning(s: State, live: set<RunId>, incidents: set<IncidentId>)
    requires Registered(s) && forall r | r in live :: r in s.runs && Live(s.runs[r]) && s.runs[r].incident in incidents
    ensures |live| <= |incidents|
    decreases live
  {
    if live != {} {
      var r :| r in live;
      var n := s.runs[r].incident;
      forall q | q in live - {r} ensures s.runs[q].incident in incidents - {n} {
        assert s.running[s.runs[q].incident] == q && s.running[n] == r;
      }
      LiveFitsRunning(s, live - {r}, incidents - {n});
    }
  }

  /** In some step of the run this agent's call of this investigation came back, with a result or not. */
  ghost predicate Returned(limit: int, wired: bool, steps: seq<Step>, r: RunId, kind: Kind) {
    steps != [] &&
    var front, a := steps[..|steps| - 1], steps[|steps| - 1];
    Returned(limit, wired, front, r, kind)
    || (a.AgentReturns? && a.run == r && a.kind == kind && Enabled(Run(limit, wired, front), a))
  }

  ghost predicate NotBefore(limit: int, wired: bool, steps: seq<Step>, r: RunId) {
    var s := Run(limit, wired, steps);
    r in s.runs ==>
      forall k | k in s.runs[r].wave && s.runs[r].wave[k] != Running :: Returned(limit, wired, steps, r, k)
  }

  lemma WaveMovesOnlyByReturning(s: State, a: Step, r: RunId, k: Kind)
    requires Enabled(s, a) && r in Do(s, a).runs && k in Do(s, a).runs[r].wave && Do(s, a).runs[r].wave[k] != Running
    ensures || (a.AgentReturns? && a.run == r && a.kind == k)
            || (r in s.runs && k in s.runs[r].wave && s.runs[r].wave[k] != Running)
  {
    if a.run != r {
      OthersStandStill(s, a);
    } else if a.AgentReturns? || a.AgentDone? {
      assert Do(s, a).runs[r].wave == s.runs[r].wave[a.kind := Do(s, a).runs[r].wave[a.kind]];
    }
  }

  lemma {:induction false} NoAgentEndsBeforeItReturns(limit: int, wired: bool, steps: seq<Step>, r: RunId)
    ensures NotBefore(limit, wired, steps, r)
  {
    if steps != [] {
      var front, a := steps[..|steps| - 1], steps[|steps| - 1];
      NoAgentEndsBeforeItReturns(limit, wired, front, r);
      var s, s' := Run(limit, wired, front), Run(limit, wired, steps);
      if Enabled(s, a) && r in s'.runs {
        forall k | k in s'.runs[r].wave && s'.runs[r].wave[k] != Running ensures Returned(limit, wired, steps, r, k) {
          WaveMovesOnlyByReturning(s, a, r, k);
        }
      }
    }
  }

  /** What reaching a stage says, in every interleaving of any number of investigations. */
  lemma OrderOfTheAgents(limit: int, wired: bool, steps: seq<Step>, r: RunId)
    requires limit > 0 && r in Run(limit, wired, steps).runs
    ensures var s := Run(limit, wired, steps); var i := s.runs[r];
            && (i.stage == Diagnosing ==>
                  && Monitoring in i.evidence
                  && forall k | k in {Monitoring, LogAnalysis, Security} ::
                       k in i.wave && i.wave[k] == Finished && Returned(limit, wired, steps, r, k))
            && (i.proposals != [] ==> Diagnosis in i.evidence && ConfidentEnough(i.evidence[Diagnosis]))
            && (wired ==> s.requested <= s.rows)
  {
    EveryRunIsSound(limit, wired, steps);
    NoAgentEndsBeforeItReturns(limit, wired, steps, r);
    RunKeepsWiring(limit, wired, steps);
    assert InOrder(Run(limit, wired, steps).runs[r]);
  }

  lemma {:induction false} RunKeepsWiring(limit: int, wired: bool, steps: seq<Step>)
    ensures Run(limit, wired, steps).wired == wired && Run(limit, wired, steps).limit == limit
  {
    if steps != [] { RunKeepsWiring(limit, wired, steps[..|steps| - 1]); }
  }
}
