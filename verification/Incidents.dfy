/** The incident aggregate and its optimistically locked row. */
module Incidents {
  import opened Prelude

  datatype Status =
    | Detected | Investigating | Diagnosing | AwaitingApproval | Remediating | Verifying
    | Resolved | Closed | Failed | Unknown(name: string)

  /** The lifecycle graph. */
  function Successors(s: Status): set<Status> {
    match s
    case Detected => {Investigating, Failed, Closed}
    case Investigating => {Diagnosing, Resolved, Failed, Closed}
    case Diagnosing => {AwaitingApproval, Remediating, Resolved, Failed, Closed}
    case AwaitingApproval => {Remediating, Diagnosing, Failed, Closed}
    case Remediating => {Verifying, Failed, Closed}
    case Verifying => {Resolved, Diagnosing, Failed, Closed}
    case Resolved => {Closed, Investigating}
    case Failed => {Investigating, Closed}
    case Closed => {}
    case Unknown(_) => {}
  }

  predicate CanTransition(from: Status, next: Status) {
    next in Successors(from)
  }

  predicate Active(s: Status) {
    s != Resolved && s != Closed && s != Failed
  }

  /** One incident, as a row. `details` stands for the columns no lifecycle step touches. */
  datatype Row = Row(
    details: string, status: Status, rootCause: string, confidence: real,
    acknowledgedAt: Option<Time>, resolvedAt: Option<Time>, closedAt: Option<Time>, updatedAt: Time, version: int)

  const MAX_ROOT_CAUSE := 20000

  datatype Outcome = Ok | Invalid | Conflict

  function Stamp(before: Option<Time>, now: Time, wanted: bool): Option<Time> {
    if wanted && before.None? then Some(now) else before
  }

  function MoveOutcome(row: Row, next: Status): Outcome {
    if next.Unknown? then Invalid
    else if row.status == next || CanTransition(row.status, next) then Ok
    else Conflict
  }

  function Moved(row: Row, now: Time, next: Status): Row {
    if MoveOutcome(row, next) != Ok || row.status == next then row
    else row.(status := next, updatedAt := now,
              acknowledgedAt := Stamp(row.acknowledgedAt, now, next == Investigating),
              resolvedAt := Stamp(row.resolvedAt, now, next == Resolved),
              closedAt := Stamp(row.closedAt, now, next == Closed))
  }

  predicate DiagnosisValid(rootCause: string, confidence: real) {
    rootCause != "" && |rootCause| <= MAX_ROOT_CAUSE && 0.0 <= confidence <= 1.0
  }

  function Diagnosed(row: Row, now: Time, rootCause: string, confidence: real): Row {
    if !DiagnosisValid(rootCause, confidence) then row
    else row.(rootCause := rootCause, confidence := confidence, updatedAt := now)
  }

  /** What one lawful write may do to the row. */
  ghost predicate Lawful(before: Row, after: Row) {
    && after.version == before.version + 1
    && (after.status == before.status || CanTransition(before.status, after.status))
    && (before.acknowledgedAt.Some? ==> after.acknowledgedAt == before.acknowledgedAt)
    && (before.resolvedAt.Some? ==> after.resolvedAt == before.resolvedAt)
    && (before.closedAt.Some? ==> after.closedAt == before.closedAt)
    && (after.status == Investigating && before.status != Investigating ==> after.acknowledgedAt.Some?)
    && (after.status == Closed && before.status != Closed ==> after.closedAt.Some?)
    && after.details == before.details
  }

  // ---- the object and its repository ----

  class Incident {
    var details: string
    var status: Status
    var rootCause: string
    var confidence: real
    var acknowledgedAt: Option<Time>
    var resolvedAt: Option<Time>
    var closedAt: Option<Time>
    var updatedAt: Time
    var version: int

    function Value(): Row
      reads this
    {
      Row(details, status, rootCause, confidence, acknowledgedAt, resolvedAt, closedAt, updatedAt, version)
    }

    method Load(row: Row)
      modifies this
      ensures Value() == row
    {
      details, status, rootCause, confidence := row.details, row.status, row.rootCause, row.confidence;
      acknowledgedAt, resolvedAt, closedAt := row.acknowledgedAt, row.resolvedAt, row.closedAt;
      updatedAt, version := row.updatedAt, row.version;
    }

    method TransitionTo(now: Time, next: Status) returns (outcome: Outcome)
      modifies this
      ensures outcome == MoveOutcome(old(Value()), next)
      ensures Value() == Moved(old(Value()), now, next)
    {
      if next.Unknown? {
        return Invalid;
      }
      if status == next {
        return Ok;
      }
      if !CanTransition(status, next) {
        return Conflict;
      }
      status := next;
      updatedAt := now;
      match next {
        case Investigating => if acknowledgedAt.None? { acknowledgedAt := Some(now); }
        case Resolved => if resolvedAt.None? { resolvedAt := Some(now); }
        case Closed => if closedAt.None? { closedAt := Some(now); }
        case _ =>
      }
      outcome := Ok;
    }

    method SetDiagnosis(now: Time, cause: string, sureness: real) returns (outcome: Outcome)
      modifies this
      ensures outcome == if DiagnosisValid(cause, sureness) then Ok else Invalid
      ensures outcome == Ok <==> 0 < |cause| <= 20000 && 0.0 <= sureness <= 1.0
      ensures Value() == Diagnosed(old(Value()), now, cause, sureness)
    {
      if !DiagnosisValid(cause, sureness) {
        return Invalid;
      }
      rootCause := cause;
      confidence := sureness;
      updatedAt := now;
      outcome := Ok;
    }
  }

  /** What the guarded UPDATE leaves in the row: everything the caller holds, one version on. */
  function Written(row: Row, held: Row): Row {
    if row.version == held.version then held.(version := held.version + 1) else row
  }

  class IncidentRepo {
    var row: Row

    /** Writes only over the version the caller read. */
    method Update(inc: Incident) returns (outcome: Outcome)
      modifies this, inc`version
      ensures outcome == if old(row.version == inc.version) then Ok else Conflict
      ensures row == Written(old(row), old(inc.Value()))
      ensures row == if outcome == Ok then old(inc.Value()).(version := old(inc.version) + 1) else old(row)
      ensures inc.Value() == if outcome == Ok then row else old(inc.Value())
    {
      if row.version != inc.version {
        return Conflict;
      }
      row := inc.Value().(version := row.version + 1);
      inc.version := inc.version + 1;
      outcome := Ok;
    }
  }

  /** From where each state may be entered. */
  function Entrances(next: Status): set<Status> {
    match next
    case Detected => {}
    case Investigating => {Detected, Resolved, Failed}
    case Diagnosing => {Investigating, AwaitingApproval, Verifying}
    case AwaitingApproval => {Diagnosing}
    case Remediating => {Diagnosing, AwaitingApproval}
    case Verifying => {Remediating}
    case Resolved => {Investigating, Diagnosing, Verifying}
    case Failed => {Detected, Investigating, Diagnosing, AwaitingApproval, Remediating, Verifying}
    case Closed => {Detected, Investigating, Diagnosing, AwaitingApproval, Remediating, Verifying, Resolved, Failed}
    case Unknown(_) => {}
  }

  /** A move along an edge, or to the same known state, is never refused; any other is. */
  lemma MovesExactlyAlongEdges(row: Row, next: Status)
    ensures MoveOutcome(row, next) == Ok <==> !next.Unknown? && (row.status == next || row.status in Entrances(next))
    ensures MoveOutcome(row, next) == Invalid <==> next.Unknown?
  {
  }

  /** A move to another state sets the state and the time of change, and on first entry the state's own
      stamp; it touches nothing else. A move to the same state, or a refused one, changes nothing. */
  lemma MoveStamps(row: Row, now: Time, next: Status)
    ensures row.status == next || row.status !in Entrances(next) ==> Moved(row, now, next) == row
    ensures row.status != next && row.status in Entrances(next) ==>
              var moved := Moved(row, now, next);
              && moved.status == next && moved.updatedAt == now
              && moved.acknowledgedAt ==
                 (if next == Investigating && row.acknowledgedAt.None? then Some(now) else row.acknowledgedAt)
              && moved.resolvedAt == (if next == Resolved && row.resolvedAt.None? then Some(now) else row.resolvedAt)
              && moved.closedAt == (if next == Closed && row.closedAt.None? then Some(now) else row.closedAt)
              && (moved.details, moved.rootCause, moved.confidence, moved.version) ==
                 (row.details, row.rootCause, row.confidence, row.version)
  {
  }

  lemma MoveIsLawful(row: Row, now: Time, next: Status)
    ensures Lawful(row, Moved(row, now, next).(version := row.version + 1))
  {
  }

  lemma DiagnosisIsLawful(row: Row, now: Time, rootCause: string, confidence: real)
    ensures Lawful(row, Diagnosed(row, now, rootCause, confidence).(version := row.version + 1))
  {
  }
}

/** Any number of investigators and closers working on one incident, their reads, in-memory
    changes and guarded writes interleaved in any way. */
module IncidentRace {
  import opened Prelude
  import opened Incidents

  /** Where a writer is in its program. An investigator moves to investigating, gathers, moves to
      diagnosing, diagnoses and records, or fails; a closer closes. */
  datatype Stage = Loading | Moving(next: Status) | Gathering | Thinking | Recording | Done

  datatype Phase = Change | Write | ReRead

  /** `held` is the object in memory; `base` remembers the row it was last read from or written as. */
  datatype Writer = Writer(closer: bool, stage: Stage, phase: Phase, held: Row, base: Row)

  datatype State = State(row: Row, writers: map<nat, Writer>, history: seq<Row>)

  datatype Fault = Fine | NotApplied | ReplyLost

  datatype Action =
    | Begin(w: nat, closer: bool)
    | Load(w: nat, found: bool)
    | Alter(w: nat, now: Time, cause: string, confidence: real)
    | Save(w: nat, fault: Fault)
    | Refresh(w: nat, found: bool)
    | Decide(w: nat, good: bool)      // evidence complete, or diagnosis reached

  function Initial(row: Row): State {
    State(row, map[], [row])
  }

  function Put(s: State, w: nat, writer: Writer): State {
    s.(writers := s.writers[w := writer])
  }

  /** Where the program goes once a move is over, however it ended. */
  function AfterMove(w: Writer): Writer {
    match w.stage
    case Moving(Investigating) => w.(stage := Gathering, phase := Change)
    case Moving(Diagnosing) => w.(stage := Thinking, phase := Change)
    case _ => w.(stage := Done, phase := Change)
  }

  function Loaded(w: Writer, row: Row): Writer {
    var read := w.(held := row, base := row);
    if w.closer then read.(stage := Moving(Closed))
    else if !Active(row.status) then read.(stage := Done)
    else read.(stage := Moving(Investigating))
  }

  function Changed(w: Writer, now: Time, cause: string, confidence: real): Writer {
    match w.stage
    case Moving(next) =>
      if MoveOutcome(w.held, next) == Ok then w.(held := Moved(w.held, now, next), phase := Write)
      else AfterMove(w)      // the conflict is swallowed, or reported by a closer, which is done
    case Recording =>
      if DiagnosisValid(cause, confidence) then w.(held := Diagnosed(w.held, now, cause, confidence), phase := Write)
      else w.(stage := Done)
    case _ => w
  }

  function Wrote(s: State, w: Writer, id: nat, fault: Fault): State {
    var accepted := fault != NotApplied && s.row.version == w.held.version;
    var row := if accepted then Written(s.row, w.held) else s.row;
    var after :=
      if fault != Fine then w.(stage := Done, phase := Change)
      else if accepted then AfterMove(w.(held := row, base := row))
      else if w.stage.Moving? && !w.closer then w.(phase := ReRead)
      else w.(stage := Done, phase := Change);
    State(row, s.writers[id := after], if accepted then s.history + [row] else s.history)
  }

  function Step(s: State, a: Action): State {
    if a.Begin? then
      (if a.w in s.writers then s else Put(s, a.w, Writer(a.closer, Loading, Change, s.row, s.row)))
    else if a.w !in s.writers then s
    else
      var w := s.writers[a.w];
      match a
      case Begin(_, _) => s
      case Load(id, found) =>
        if w.stage != Loading then s else Put(s, id, if found then Loaded(w, s.row) else w.(stage := Done))
      case Alter(id, now, cause, confidence) =>
        if w.phase != Change then s else Put(s, id, Changed(w, now, cause, confidence))
      case Save(id, fault) =>
        if w.phase != Write then s else Wrote(s, w, id, fault)
      case Refresh(id, found) =>
        if w.phase != ReRead then s
        else Put(s, id, AfterMove(if found then w.(held := s.row, base := s.row) else w))
      case Decide(id, good) =>
        if w.stage == Gathering then Put(s, id, w.(stage := Moving(if good then Diagnosing else Failed)))
        else if w.stage == Thinking then Put(s, id, w.(stage := if good then Recording else Moving(Failed)))
        else s
  }

  function Run(row: Row, actions: seq<Action>): State {
    if actions == [] then Initial(row) else Step(Run(row, actions[..|actions| - 1]), actions[|actions| - 1])
  }

  // ---- what every step keeps ----

  ghost predicate HistoryLawful(s: State) {
    && s.history != [] && s.history[|s.history| - 1] == s.row
    && forall i | 0 < i < |s.history| :: Lawful(s.history[i - 1], s.history[i])
  }

  /** `held` differs from `base` by at most one in-memory change. */
  ghost predicate OneChange(base: Row, held: Row) {
    || held == base
    || (exists now, next :: held == Moved(base, now, next))
    || (exists now, cause, confidence :: held == Diagnosed(base, now, cause, confidence))
  }

  /** A writer is behind for good, or it started from the current row and changed it at most once. */
  ghost predicate Tracking(s: State, w: Writer) {
    && w.held.version == w.base.version <= s.row.version
    && (w.held.version == s.row.version ==>
          && w.base == s.row
          && (w.phase == Change && w.stage != Done ==> w.held == w.base)
          && (w.phase == Write ==> OneChange(w.base, w.held)))
    && (w.phase == ReRead ==> w.held.version < s.row.version)
    && (w.stage.Loading? || w.stage.Gathering? || w.stage.Thinking? ==> w.phase == Change)
  }

  ghost predicate Sound(s: State) {
    HistoryLawful(s) && forall id | id in s.writers :: Tracking(s, s.writers[id])
  }

  lemma OneChangeIsLawful(base: Row, held: Row)
    requires OneChange(base, held) && held.version == base.version
    ensures Lawful(base, held.(version := base.version + 1))
  {
    if now, next :| held == Moved(base, now, next) {
      MoveIsLawful(base, now, next);
    } else if now, cause, confidence :| held == Diagnosed(base, now, cause, confidence) {
      DiagnosisIsLawful(base, now, cause, confidence);
    }
  }

  /** A write is accepted only over the very row the writer's change started from. */
  lemma NoLostUpdate(s: State, id: nat, fault: Fault)
    requires Sound(s) && id in s.writers && s.writers[id].phase == Write
    ensures var s' := Step(s, Save(id, fault));
            s'.row != s.row ==>
              s.writers[id].base == s.row && Lawful(s.row, s'.row) && s'.history == s.history + [s'.row]
  {
    var w := s.writers[id];
    if w.held.version == s.row.version { OneChangeIsLawful(w.base, w.held); }
  }

  lemma WriteKeepsSound(s: State, id: nat, fault: Fault)
    requires Sound(s) && id in s.writers && s.writers[id].phase == Write
    ensures Sound(Step(s, Save(id, fault)))
  {
    NoLostUpdate(s, id, fault);
    var s' := Step(s, Save(id, fault));
    forall x | x in s'.writers ensures Tracking(s', s'.writers[x]) {
      assert Tracking(s, s.writers[x]);
    }
  }

  /** A step that writes nothing keeps the writer that takes it on track. */
  lemma BeginTracks(s: State, a: Action)
    requires Sound(s) && a.Begin? && a.w !in s.writers
    ensures Tracking(Step(s, a), Step(s, a).writers[a.w])
  {
  }

  lemma AlterTracks(s: State, a: Action)
    requires Sound(s) && a.Alter? && a.w in s.writers
    ensures Tracking(Step(s, a), Step(s, a).writers[a.w])
  {
    assert Tracking(s, s.writers[a.w]);
  }

  lemma ReadOrDecideTracks(s: State, a: Action)
    requires Sound(s) && (a.Load? || a.Refresh? || a.Decide?) && a.w in s.writers
    ensures Tracking(Step(s, a), Step(s, a).writers[a.w])
  {
    assert Tracking(s, s.writers[a.w]);
  }

  /** Only the row a writer works from and the stored row decide whether it is on track. */
  lemma OnlyOneWriterMoves(s: State, s': State, w: nat)
    requires Sound(s) && s'.row == s.row && s'.history == s.history
    requires s'.writers == s.writers || (w in s'.writers && s'.writers == s.writers[w := s'.writers[w]])
    requires w in s'.writers ==> Tracking(s', s'.writers[w])
    ensures Sound(s')
  {
    forall x | x in s'.writers ensures Tracking(s', s'.writers[x]) {
      if x != w { assert Tracking(s, s.writers[x]); }
    }
  }

  lemma QuietStepWritesNothing(s: State, a: Action)
    requires !(a.Save? && a.w in s.writers && s.writers[a.w].phase == Write)
    ensures var s' := Step(s, a);
            && s'.row == s.row && s'.history == s.history
            && (s'.writers == s.writers || (a.w in s'.writers && s'.writers == s.writers[a.w := s'.writers[a.w]]))
  {
  }

  lemma StepKeepsSound(s: State, a: Action)
    requires Sound(s)
    ensures Sound(Step(s, a))
  {
    if a.Save? && a.w in s.writers && s.writers[a.w].phase == Write {
      WriteKeepsSound(s, a.w, a.fault);
    } else if Step(s, a) != s {
      QuietStepWritesNothing(s, a);
      if a.Begin? {
        BeginTracks(s, a);
      } else if a.Alter? {
        AlterTracks(s, a);
      } else {
        ReadOrDecideTracks(s, a);
      }
      OnlyOneWriterMoves(s, Step(s, a), a.w);
    }
  }

  lemma {:induction false} EveryRunIsSound(row: Row, actions: seq<Action>)
    ensures Sound(Run(row, actions))
  {
    if actions != [] {
      EveryRunIsSound(row, actions[..|actions| - 1]);
      StepKeepsSound(Run(row, actions[..|actions| - 1]), actions[|actions| - 1]);
    }
  }

  /** Along the whole history a closed incident stays closed, and a stamp once set stays. */
  lemma {:induction false} HistoryIsMonotone(row: Row, actions: seq<Action>, i: nat, j: nat)
    requires i <= j < |Run(row, actions).history|
    ensures var h := Run(row, actions).history;
            && h[j].version == h[i].version + (j - i)
            && (h[i].status == Closed ==> h[j].status == Closed)
            && (h[i].acknowledgedAt.Some? ==> h[j].acknowledgedAt == h[i].acknowledgedAt)
            && (h[i].resolvedAt.Some? ==> h[j].resolvedAt == h[i].resolvedAt)
            && (h[i].closedAt.Some? ==> h[j].closedAt == h[i].closedAt)
    decreases j - i
  {
    EveryRunIsSound(row, actions);
    if i < j {
      HistoryIsMonotone(row, actions, i, j - 1);
      assert Lawful(Run(row, actions).history[j - 1], Run(row, actions).history[j]);
    }
  }

  // ---- undisturbed programs get through ----

  /** A closer that finds the incident goes on to close it; an investigator goes on unless it is over. */
  lemma GoesOnExactlyWhen(s: State, w: nat, closer: bool)
    requires w !in s.writers
    ensures var s' := Step(Step(s, Begin(w, closer)), Load(w, true));
            && w in s'.writers && s'.writers[w].held == s.row && s'.row == s.row
            && s'.writers[w].stage ==
               if closer then Moving(Closed)
               else if s.row.status in {Resolved, Closed, Failed} then Done
               else Moving(Investigating)
  {
  }

  /** An investigator's move that loses the race writes nothing, and goes on from the row that won. */
  lemma LostMoveIsReadAgain(s: State, w: nat)
    requires w in s.writers && s.writers[w].stage.Moving? && !s.writers[w].closer
    requires s.writers[w].phase == Write && s.writers[w].held.version != s.row.version
    ensures var next := s.writers[w].stage.next;
            var lost := Step(s, Save(w, Fine));
            var s' := Step(lost, Refresh(w, true));
            && lost.row == s.row && lost.history == s.history && s'.row == s.row && s'.history == s.history
            && s'.writers[w].held == s.row && s'.writers[w].base == s.row && s'.writers[w].phase == Change
            && s'.writers[w].stage ==
               if next == Investigating then Gathering else if next == Diagnosing then Thinking else Done
  {
  }

  /** A write that reports a fault ends its writer's program; it is in the row exactly when only the reply
      was lost and the version was current. */
  lemma FaultEndsTheWriter(s: State, w: nat, fault: Fault)
    requires w in s.writers && s.writers[w].phase == Write && fault in {NotApplied, ReplyLost}
    ensures var s' := Step(s, Save(w, fault)); var held := s.writers[w].held;
            && s'.writers[w].stage == Done
            && s'.row == if fault == ReplyLost && s.row.version == held.version
                         then held.(version := held.version + 1) else s.row
  {
  }

  /** A move changed and saved with nobody in between. */
  lemma MoveAndSave(s: State, w: nat, now: Time)
    requires w in s.writers && s.writers[w].stage.Moving? && s.writers[w].phase == Change && s.writers[w].held == s.row
    requires MoveOutcome(s.row, s.writers[w].stage.next) == Ok
    ensures var row' := Moved(s.row, now, s.writers[w].stage.next).(version := s.row.version + 1);
            var s' := Step(Step(s, Alter(w, now, "", 0.0)), Save(w, Fine));
            && s'.row == row' && w in s'.writers
            && s'.writers[w] == AfterMove(s.writers[w].(held := row', base := row', phase := Write))
  {
  }

  /** A diagnosis recorded and saved with nobody in between. */
  lemma RecordAndSave(s: State, w: nat, now: Time, cause: string, confidence: real)
    requires w in s.writers && s.writers[w].stage == Recording && s.writers[w].phase == Change
    requires s.writers[w].held == s.row && DiagnosisValid(cause, confidence)
    ensures var s' := Step(Step(s, Alter(w, now, cause, confidence)), Save(w, Fine));
            && s'.row == s.row.(rootCause := cause, confidence := confidence, updatedAt := now,
                                version := s.row.version + 1)
            && w in s'.writers && s'.writers[w].stage == Done
  {
  }

  /** Nobody else writing, an investigation begins, and acknowledges a new incident. */
  lemma UndisturbedBeginning(row: Row, t1: Time, s0: State, s1: State)
    requires row.status in {Detected, Investigating}
    requires s0 == Step(Step(Initial(row), Begin(0, false)), Load(0, true))
    requires s1 == Step(Step(s0, Alter(0, t1, "", 0.0)), Save(0, Fine))
    ensures s1.row.status == Investigating && s1.row.version == row.version + 1
    ensures row.status == Detected && row.acknowledgedAt.None? ==> s1.row.acknowledgedAt == Some(t1)
    ensures 0 in s1.writers && s1.writers[0].stage == Gathering && !s1.writers[0].closer
    ensures s1.writers[0].held == s1.row && s1.writers[0].phase == Change
  {
    assert 0 in s0.writers && s0.writers[0] == Writer(false, Moving(Investigating), Change, row, row);
    MoveAndSave(s0, 0, t1);
  }

  /** With its evidence complete it moves on to diagnosing. */
  lemma UndisturbedMove(s1: State, t2: Time, s2: State)
    requires 0 in s1.writers && s1.writers[0].stage == Gathering && s1.writers[0].phase == Change
    requires s1.writers[0].held == s1.row && s1.row.status == Investigating
    requires s2 == Step(Step(Step(s1, Decide(0, true)), Alter(0, t2, "", 0.0)), Save(0, Fine))
    ensures s2.row.status == Diagnosing && s2.row.version == s1.row.version + 1
    ensures s2.row.acknowledgedAt == s1.row.acknowledgedAt
    ensures 0 in s2.writers && s2.writers[0].stage == Thinking
    ensures s2.writers[0].held == s2.row && s2.writers[0].phase == Change
  {
    MoveAndSave(Step(s1, Decide(0, true)), 0, t2);
  }

  /** And once it reaches a valid diagnosis the incident is diagnosing with the cause on record, three
      versions on. */
  lemma UndisturbedInvestigationRecords(
      row: Row, t1: Time, t2: Time, t3: Time, cause: string, confidence: real,
      s0: State, s1: State, s2: State, s3: State)
    requires row.status in {Detected, Investigating} && DiagnosisValid(cause, confidence)
    requires s0 == Step(Step(Initial(row), Begin(0, false)), Load(0, true))
    requires s1 == Step(Step(s0, Alter(0, t1, "", 0.0)), Save(0, Fine))
    requires s2 == Step(Step(Step(s1, Decide(0, true)), Alter(0, t2, "", 0.0)), Save(0, Fine))
    requires s3 == Step(Step(Step(s2, Decide(0, true)), Alter(0, t3, cause, confidence)), Save(0, Fine))
    ensures s3.row.status == Diagnosing && s3.row.rootCause == cause && s3.row.confidence == confidence
    ensures s3.row.version == row.version + 3
    ensures row.status == Detected && row.acknowledgedAt.None? ==> s3.row.acknowledgedAt == Some(t1)
    ensures 0 in s3.writers && s3.writers[0].stage == Done
  {
    UndisturbedBeginning(row, t1, s0, s1);
    UndisturbedMove(s1, t2, s2);
    RecordAndSave(Step(s2, Decide(0, true)), 0, t3, cause, confidence);
  }

  /** And a closer closes any incident that is not closed yet. */
  lemma UndisturbedCloseCloses(row: Row, now: Time)
    requires row.status in Entrances(Closed)
    ensures var s := Step(Step(Initial(row), Begin(0, true)), Load(0, true));
            var s' := Step(Step(s, Alter(0, now, "", 0.0)), Save(0, Fine));
            && s'.row.status == Closed && s'.row.version == row.version + 1 && s'.writers[0].stage == Done
            && s'.row.closedAt == if row.closedAt.None? then Some(now) else row.closedAt
  {
  }
}
