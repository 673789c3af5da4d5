/** The in-process event bus: publishers, subscribers, closers and workers in any interleaving. */
module Bus {
  import opened Prelude
  import opened Subscription
  import opened Topics
  import opened Text

  type SubId = nat
  type Pid = nat

  /** A Publish call that holds the read lock and has offered its event to the first `next`
      subscriptions of the list. `list` records the subscriptions it found when it began, `origin`
      which Publish call it is, and `full` how long each queue was that turned the event away. */
  datatype Publisher = Publisher(event: Event, next: nat, list: seq<SubId>, origin: nat, full: map<SubId, nat>)

  /** `subs` is the registered list, `all` every subscription ever made, `closing` the closeQueue
      calls still to run, `panics` what Go would have punished with a crash, `begun` how many
      Publish calls there have been. */
  datatype State = State(
    cfg: Config, subs: seq<SubId>, closed: bool, all: seq<Sub>, publishers: map<Pid, Publisher>,
    closing: multiset<SubId>, panics: nat, begun: nat)

  datatype Action =
    | Subscribe(pattern: string)
    | Begin(pid: Pid, event: Event)   // Publish takes the read lock
    | Offer(pid: Pid)                 // ... and enqueues to the next subscription
    | Finish(pid: Pid)                // ... and releases the lock
    | Unsubscribe(id: SubId)
    | Close
    | CloseQueue(id: SubId)
    | Take(id: SubId, w: nat)
    | Succeed(id: SubId, w: nat)
    | Fail(id: SubId, w: nat)
    | Retry(id: SubId, w: nat)
    | Abandon(id: SubId, w: nat)
    | Leave(id: SubId, w: nat)

  function Initial(cfg: Config): State {
    State(cfg.WithDefaults(), [], false, [], map[], multiset{}, 0, 0)
  }

  ghost predicate Wants(s: Sub, e: Event) {
    Fits(Split(s.pattern, '.'), Split(e.topic, '.'))
  }

  predicate WorkerIs(s: State, id: SubId, w: nat) {
    id < |s.all| && w < |s.all[id].workers|
  }

  function Without(subs: seq<SubId>, id: SubId): seq<SubId> {
    if subs == [] then [] else if subs[0] == id then subs[1..] else [subs[0]] + Without(subs[1..], id)
  }

  /** When the step can be taken. The write lock waits for every publisher; a full queue blocks a
      publisher that may not drop. */
  ghost predicate Enabled(s: State, a: Action) {
    match a
    case Subscribe(_) => s.publishers == map[]
    case Begin(pid, _) => pid !in s.publishers
    case Offer(pid) =>
      && pid in s.publishers && s.publishers[pid].next < |s.subs|
      && var id := s.subs[s.publishers[pid].next];
         && id < |s.all|
         && (s.cfg.blockOnFull && Wants(s.all[id], s.publishers[pid].event) && s.all[id].open ==>
             |s.all[id].queue| < s.cfg.queueSize)
    case Finish(pid) => pid in s.publishers && s.publishers[pid].next == |s.subs|
    case Unsubscribe(id) => s.publishers == map[] && id < |s.all|
    case Close => s.publishers == map[]
    case CloseQueue(id) => id in s.closing && id < |s.all|
    case Take(id, w) => WorkerIs(s, id, w) && s.all[id].workers[w].Idle? && s.all[id].queue != []
    case Succeed(id, w) => WorkerIs(s, id, w) && s.all[id].workers[w].Handling?
    case Fail(id, w) => WorkerIs(s, id, w) && s.all[id].workers[w].Handling?
    case Retry(id, w) => WorkerIs(s, id, w) && s.all[id].workers[w].BackingOff?
    case Abandon(id, w) => WorkerIs(s, id, w) && s.all[id].workers[w].BackingOff?
    case Leave(id, w) => WorkerIs(s, id, w) && s.all[id].workers[w].Idle? && !s.all[id].open && s.all[id].queue == []
  }

  function With(s: State, id: SubId, sub: Sub): State
    requires id < |s.all|
  {
    s.(all := s.all[id := sub])
  }

  /** One subscription offered one event: sent, dropped because full, or not wanted. */
  ghost function Offered(s: State, id: SubId, e: Event, origin: nat): State
    requires id < |s.all|
  {
    var sub := s.all[id];
    if !Wants(sub, e) then s
    else if !sub.open then s.(panics := s.panics + 1)   // send on a closed channel
    else if |sub.queue| < s.cfg.queueSize then With(s, id, Accept(sub, e, origin))
    else s
  }

  /** The subscription wants the event and its queue has no room. */
  ghost predicate TurnsAway(s: State, id: SubId, e: Event)
    requires id < |s.all|
  {
    Wants(s.all[id], e) && s.all[id].open && |s.all[id].queue| >= s.cfg.queueSize
  }

  function QueueClosed(s: State, id: SubId): State
    requires id < |s.all|
  {
    var sub := s.all[id];
    if sub.closeOnce then s
    else if !sub.open then s.(panics := s.panics + 1)   // close of a closed channel
    else With(s, id, Subscription.CloseQueue(sub))
  }

  ghost function Do(s: State, a: Action): State
    requires s.cfg.Valid() && Enabled(s, a)
  {
    match a
    case Subscribe(pattern) =>
      if s.closed || pattern == "" then s
      else s.(subs := s.subs + [|s.all|], all := s.all + [NewSub(s.cfg, pattern)])
    case Begin(pid, e) =>
      if s.closed || e.topic == "" then s
      else s.(publishers := s.publishers[pid := Publisher(e, 0, s.subs, s.begun, map[])], begun := s.begun + 1)
    case Offer(pid) =>
      var p := s.publishers[pid];
      var id := s.subs[p.next];
      var full := if TurnsAway(s, id, p.event) then p.full[id := |s.all[id].queue|] else p.full;
      Offered(s, id, p.event, p.origin).(publishers := s.publishers[pid := p.(next := p.next + 1, full := full)])
    case Finish(pid) => s.(publishers := s.publishers - {pid})
    case Unsubscribe(id) => s.(subs := Without(s.subs, id), closing := s.closing + multiset{id})
    case Close =>
      if s.closed then s else s.(closed := true, subs := [], closing := s.closing + multiset(s.subs))
    case CloseQueue(id) => QueueClosed(s, id).(closing := s.closing - multiset{id})
    case Take(id, w) => With(s, id, Subscription.Take(s.all[id], w))
    case Succeed(id, w) => With(s, id, Subscription.Succeed(s.all[id], w))
    case Fail(id, w) => With(s, id, Subscription.Fail(s.cfg, s.all[id], w))
    case Retry(id, w) => With(s, id, Subscription.Retry(s.all[id], w))
    case Abandon(id, w) => With(s, id, Subscription.Abandon(s.all[id], w))
    case Leave(id, w) => With(s, id, Subscription.Leave(s.all[id], w))
  }

  /** Actions that cannot be taken are skipped, so every action list is a run. */
  ghost function Run(cfg: Config, actions: seq<Action>): (s: State)
    ensures s.cfg == cfg.WithDefaults()
  {
    if actions == [] then Initial(cfg)
    else
      var s, a := Run(cfg, actions[..|actions| - 1]), actions[|actions| - 1];
      if Enabled(s, a) then Do(s, a) else s
  }

  // ---- what every step keeps: the list and the lock ----

  ghost predicate Distinct(subs: seq<SubId>) {
    forall i, j | 0 <= i < j < |subs| :: subs[i] != subs[j]
  }

  ghost predicate OpenAndStaying(s: State, id: SubId) {
    id < |s.all| && s.all[id].open && id !in s.closing
  }

  /** A registered subscription is open and no close of it is pending; an open one that is no
      longer registered has its close pending. */
  ghost predicate Registered(s: State) {
    && (forall id | id in s.subs :: OpenAndStaying(s, id))
    && Distinct(s.subs)
    && (s.closed ==> s.subs == [])
    && (forall id | id in s.closing :: id < |s.all|)
    && (forall id | 0 <= id < |s.all| :: s.all[id].open ==> id in s.subs || id in s.closing)
    && (forall id | 0 <= id < |s.all| :: s.all[id].closeOnce <==> !s.all[id].open)
  }

  /** While a publisher walks the list, the list stands still. */
  ghost predicate Locked(s: State) {
    forall pid | pid in s.publishers :: s.publishers[pid].list == s.subs && s.publishers[pid].next <= |s.subs|
  }

  ghost predicate Orderly(s: State) {
    s.panics == 0 && Registered(s) && Locked(s)
  }

  lemma {:induction false} WithoutRemoves(subs: seq<SubId>, id: SubId)
    requires Distinct(subs)
    ensures forall x :: x in Without(subs, id) <==> x in subs && x != id
    ensures Distinct(Without(subs, id))
  {
    if subs != [] {
      var rest := Without(subs[1..], id);
      WithoutRemoves(subs[1..], id);
      assert subs == [subs[0]] + subs[1..];
      assert subs[0] !in subs[1..];
      if subs[0] != id {
        forall i, j | 0 <= i < j < |rest| + 1 ensures ([subs[0]] + rest)[i] != ([subs[0]] + rest)[j] {
          assert rest[j - 1] in rest;
        }
      }
    }
  }

  lemma SubChangeKeepsOrderly(s: State, id: SubId, sub: Sub)
    requires Orderly(s) && id < |s.all| && sub.open == s.all[id].open && sub.closeOnce == s.all[id].closeOnce
    ensures Orderly(With(s, id, sub))
  {
    var s' := With(s, id, sub);
    forall x | x in s'.subs ensures OpenAndStaying(s', x) { assert OpenAndStaying(s, x); }
  }

  lemma SubscribeKeepsOrderly(s: State, pattern: string)
    requires Orderly(s) && s.cfg.Valid() && Enabled(s, Subscribe(pattern))
    ensures Orderly(Do(s, Subscribe(pattern)))
  {
    var s' := Do(s, Subscribe(pattern));
    forall x | x in s'.subs ensures OpenAndStaying(s', x) {
      if x in s.subs { assert OpenAndStaying(s, x); }
    }
    forall i | 0 <= i < |s.subs| ensures s.subs[i] < |s.all| { assert OpenAndStaying(s, s.subs[i]); }
    if s' != s { assert s'.subs[|s.subs|] == |s.all|; }
    forall id | 0 <= id < |s'.all| && s'.all[id].open ensures id in s'.subs || id in s'.closing {}
  }

  lemma OfferKeepsOrderly(s: State, pid: Pid)
    requires Orderly(s) && s.cfg.Valid() && Enabled(s, Offer(pid))
    ensures Orderly(Do(s, Offer(pid)))
  {
    var p := s.publishers[pid];
    var id := s.subs[p.next];
    assert OpenAndStaying(s, id);
    var offered := Offered(s, id, p.event, p.origin);
    if offered != s { SubChangeKeepsOrderly(s, id, Accept(s.all[id], p.event, p.origin)); }
    assert Orderly(offered);
    var s' := Do(s, Offer(pid));
    forall x | x in s'.subs ensures OpenAndStaying(s', x) { assert OpenAndStaying(offered, x); }
  }

  lemma UnsubscribeKeepsOrderly(s: State, id: SubId)
    requires Orderly(s) && s.cfg.Valid() && Enabled(s, Unsubscribe(id))
    ensures Orderly(Do(s, Unsubscribe(id)))
  {
    WithoutRemoves(s.subs, id);
    var s' := Do(s, Unsubscribe(id));
    forall x | x in s'.subs ensures OpenAndStaying(s', x) { assert OpenAndStaying(s, x); }
  }

  lemma CloseKeepsOrderly(s: State)
    requires Orderly(s) && s.cfg.Valid() && Enabled(s, Close)
    ensures Orderly(Do(s, Close))
  {
    var s' := Do(s, Close);
    forall id | id in s'.closing ensures id < |s'.all| {
      if id in s.subs { assert OpenAndStaying(s, id); }
    }
  }

  lemma CloseQueueKeepsOrderly(s: State, id: SubId)
    requires Orderly(s) && s.cfg.Valid() && Enabled(s, CloseQueue(id))
    ensures Orderly(Do(s, CloseQueue(id)))
  {
    var s' := Do(s, CloseQueue(id));
    forall x | x in s'.subs ensures OpenAndStaying(s', x) { assert OpenAndStaying(s, x); }
  }

  lemma StepKeepsOrderly(s: State, a: Action)
    requires Orderly(s) && s.cfg.Valid() && Enabled(s, a)
    ensures Orderly(Do(s, a))
  {
    match a
    case Subscribe(pattern) => SubscribeKeepsOrderly(s, pattern);
    case Offer(pid) => OfferKeepsOrderly(s, pid);
    case Unsubscribe(id) => UnsubscribeKeepsOrderly(s, id);
    case Close => CloseKeepsOrderly(s);
    case CloseQueue(id) => CloseQueueKeepsOrderly(s, id);
    case Begin(_, _) => ReadLockKeepsOrderly(s, a);
    case Finish(_) => ReadLockKeepsOrderly(s, a);
    case Take(id, w) => SubChangeKeepsOrderly(s, id, Subscription.Take(s.all[id], w));
    case Succeed(id, w) => SubChangeKeepsOrderly(s, id, Subscription.Succeed(s.all[id], w));
    case Fail(id, w) => SubChangeKeepsOrderly(s, id, Subscription.Fail(s.cfg, s.all[id], w));
    case Retry(id, w) => SubChangeKeepsOrderly(s, id, Subscription.Retry(s.all[id], w));
    case Abandon(id, w) => SubChangeKeepsOrderly(s, id, Subscription.Abandon(s.all[id], w));
    case Leave(id, w) => SubChangeKeepsOrderly(s, id, Subscription.Leave(s.all[id], w));
  }

  lemma ReadLockKeepsOrderly(s: State, a: Action)
    requires Orderly(s) && s.cfg.Valid() && Enabled(s, a) && (a.Begin? || a.Finish?)
    ensures Orderly(Do(s, a))
  {
    var s' := Do(s, a);
    forall x | x in s'.subs ensures OpenAndStaying(s', x) { assert OpenAndStaying(s, x); }
  }

  // ---- what every step keeps: the books ----

  ghost predicate Booked(s: State, sub: Sub) {
    Good(s.cfg, sub)
  }

  ghost predicate AllGood(s: State) {
    forall id | 0 <= id < |s.all| :: Booked(s, s.all[id])
  }

  lemma StepKeepsGood(s: State, a: Action)
    requires Orderly(s) && s.cfg.Valid() && AllGood(s) && Enabled(s, a)
    ensures AllGood(Do(s, a))
  {
    StepKeepsShape(s, a);
    forall id | 0 <= id < |Do(s, a).all| ensures Booked(Do(s, a), Do(s, a).all[id]) {
      SubStaysGood(s, a, id);
    }
  }

  lemma StepKeepsShape(s: State, a: Action)
    requires s.cfg.Valid() && Enabled(s, a)
    ensures Do(s, a).cfg == s.cfg && |s.all| <= |Do(s, a).all|
    ensures |s.all| < |Do(s, a).all| ==> a.Subscribe? && Do(s, a).all == s.all + [NewSub(s.cfg, a.pattern)]
  {
  }

  lemma SubStaysGood(s: State, a: Action, id: SubId)
    requires Orderly(s) && s.cfg.Valid() && Enabled(s, a) && id < |Do(s, a).all|
    requires id < |s.all| ==> Booked(s, s.all[id])
    ensures Booked(Do(s, a), Do(s, a).all[id])
  {
    StepKeepsShape(s, a);
    if id == |s.all| {
      NewSubIsGood(s.cfg, a.pattern);
    } else if Do(s, a).all[id] != s.all[id] {
      ChangedSubIsGood(s, a, id);
    }
  }

  /** The action acts on this subscription, and leaves it as this. */
  lemma ChangedSubIsGood(s: State, a: Action, id: SubId)
    requires Orderly(s) && s.cfg.Valid() && Enabled(s, a) && id < |s.all| && id < |Do(s, a).all|
    requires Booked(s, s.all[id]) && Do(s, a).all[id] != s.all[id]
    ensures Good(s.cfg, Do(s, a).all[id])
  {
    if a.Offer? {
      AcceptKeepsGood(s.cfg, s.all[id], s.publishers[a.pid].event, s.publishers[a.pid].origin);
    } else if a.CloseQueue? {
      CloseKeepsGood(s.cfg, s.all[id]);
    } else {
      OnlyWorkersChangeTheRest(s, a, id);
      WorkerStepKeepsGood(s.cfg, s.all[id], a);
    }
  }

  predicate WorkerAction(a: Action) {
    a.Take? || a.Succeed? || a.Fail? || a.Retry? || a.Abandon? || a.Leave?
  }

  /** What a worker's action makes of its subscription, where it may. */
  predicate WorkerMay(sub: Sub, a: Action)
    requires WorkerAction(a)
  {
    && a.w < |sub.workers|
    && match a
       case Take(_, w) => sub.workers[w].Idle? && sub.queue != []
       case Leave(_, w) => sub.workers[w].Idle? && !sub.open && sub.queue == []
       case Retry(_, w) => sub.workers[w].BackingOff?
       case Abandon(_, w) => sub.workers[w].BackingOff?
       case _ => sub.workers[a.w].Handling?
  }

  function Worked(cfg: Config, sub: Sub, a: Action): Sub
    requires WorkerAction(a) && WorkerMay(sub, a)
  {
    match a
    case Take(_, w) => Subscription.Take(sub, w)
    case Succeed(_, w) => Subscription.Succeed(sub, w)
    case Fail(_, w) => Subscription.Fail(cfg, sub, w)
    case Retry(_, w) => Subscription.Retry(sub, w)
    case Abandon(_, w) => Subscription.Abandon(sub, w)
    case Leave(_, w) => Subscription.Leave(sub, w)
  }

  lemma OnlyWorkersChangeTheRest(s: State, a: Action, id: SubId)
    requires s.cfg.Valid() && Enabled(s, a) && id < |s.all| && id < |Do(s, a).all|
    requires Do(s, a).all[id] != s.all[id] && !a.Offer? && !a.CloseQueue?
    ensures WorkerAction(a) && a.id == id && WorkerMay(s.all[id], a) && Do(s, a).all[id] == Worked(s.cfg, s.all[id], a)
  {
  }

  lemma WorkerStepKeepsGood(cfg: Config, sub: Sub, a: Action)
    requires Good(cfg, sub) && WorkerAction(a) && WorkerMay(sub, a)
    ensures Good(cfg, Worked(cfg, sub, a))
  {
    match a
    case Take(_, w) => TakeKeepsGood(cfg, sub, w);
    case Succeed(_, w) => SucceedKeepsGood(cfg, sub, w);
    case Fail(_, w) => FailKeepsGood(cfg, sub, w);
    case Retry(_, w) => RetryKeepsGood(cfg, sub, w);
    case Abandon(_, w) => AbandonKeepsGood(cfg, sub, w);
    case Leave(_, w) => LeaveKeepsGood(cfg, sub, w);
  }

  // ---- every run ----

  /** In every run: nothing is sent on a closed queue, no queue is closed twice, no list changes
      under a publisher, and every subscription's books balance. */
  lemma {:induction false} EveryRunIsSafe(cfg: Config, actions: seq<Action>)
    ensures Orderly(Run(cfg, actions)) && AllGood(Run(cfg, actions))
  {
    if actions != [] {
      var s, a := Run(cfg, actions[..|actions| - 1]), actions[|actions| - 1];
      EveryRunIsSafe(cfg, actions[..|actions| - 1]);
      if Enabled(s, a) {
        StepKeepsOrderly(s, a);
        StepKeepsGood(s, a);
      }
    }
  }

  /** Per subscription, in every run. */
  lemma AcceptedEventsAreAccountedFor(cfg: Config, actions: seq<Action>, id: SubId, p: Parcel)
    requires id < |Run(cfg, actions).all|
    ensures var s := Run(cfg, actions); var sub := s.all[id];
            && sub.accepted == multiset(sub.queue) + sub.handled + sub.dead + sub.abandoned + Held(sub.workers)
            && sub.calls[p] <= s.cfg.maxAttempts
            && (p in sub.dead <==> sub.failures[p] == s.cfg.maxAttempts)
  {
    EveryRunIsSafe(cfg, actions);
    assert Booked(Run(cfg, actions), Run(cfg, actions).all[id]);
    AttemptsAreBounded(Run(cfg, actions).cfg, Run(cfg, actions).all[id], p);
  }

  /** What `Close` waits for before it returns nil. */
  ghost predicate Drained(s: State) {
    s.closed && forall id, w | 0 <= id < |s.all| && 0 <= w < |s.all[id].workers| :: s.all[id].workers[w].Gone?
  }

  /** A drained close has settled every event any subscription ever accepted. */
  lemma DrainedMeansSettled(cfg: Config, actions: seq<Action>)
    requires Drained(Run(cfg, actions))
    ensures forall sub | sub in Run(cfg, actions).all :: sub.accepted == sub.handled + sub.dead + sub.abandoned
  {
    EveryRunIsSafe(cfg, actions);
    var s := Run(cfg, actions);
    forall sub | sub in s.all ensures sub.accepted == sub.handled + sub.dead + sub.abandoned {
      assert Booked(s, sub);
      LeavingSettlesEverything(s.cfg, sub);
    }
  }
}
