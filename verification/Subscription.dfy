/** One subscription of the in-process bus: its bounded queue, its workers, its retries. */
module Subscription {
  import opened Prelude

  datatype Event = Event(topic: string, id: Id)

  /** An accepted event and the Publish call it came from; the ticket tells two acceptances apart. */
  datatype Parcel = Parcel(ticket: nat, event: Event, origin: nat)

  datatype Config = Config(queueSize: int, workers: int, maxAttempts: int, blockOnFull: bool) {
    predicate Valid() {
      queueSize > 0 && workers > 0 && maxAttempts > 0
    }

    function WithDefaults(): (c: Config)
      ensures c.Valid() && (Valid() ==> c == this)
    {
      Config(if queueSize <= 0 then 256 else queueSize, if workers <= 0 then 4 else workers,
             if maxAttempts <= 0 then 3 else maxAttempts, blockOnFull)
    }
  }

  /** Without sizes of its own a subscription holds 256 events, has four workers, and tries each event
      three times; a size that is given is kept. */
  lemma SizesByDefault(c: Config)
    ensures var d := c.WithDefaults();
            && d.queueSize == (if c.queueSize > 0 then c.queueSize else 256)
            && d.workers == (if c.workers > 0 then c.workers else 4)
            && d.maxAttempts == (if c.maxAttempts > 0 then c.maxAttempts else 3)
            && d.blockOnFull == c.blockOnFull
  {
  }

  datatype Worker =
    | Idle
    | Handling(parcel: Parcel, attempt: nat)
    | BackingOff(parcel: Parcel, attempt: nat)
    | Gone

  /** The channel and goroutines of one subscription, and a record of what happened to each parcel. */
  datatype Sub = Sub(
    pattern: string, queue: seq<Parcel>, open: bool, closeOnce: bool, workers: seq<Worker>,
    issued: nat, accepted: multiset<Parcel>, handled: multiset<Parcel>, dead: multiset<Parcel>,
    abandoned: multiset<Parcel>, calls: multiset<Parcel>, failures: multiset<Parcel>)

  function NewSub(cfg: Config, pattern: string): Sub
    requires cfg.Valid()
  {
    Sub(pattern, [], true, false, seq(cfg.workers, _ => Idle), 0,
        multiset{}, multiset{}, multiset{}, multiset{}, multiset{}, multiset{})
  }

  // ---- steps ----

  function Accept(s: Sub, e: Event, origin: nat): Sub {
    var p := Parcel(s.issued, e, origin);
    s.(queue := s.queue + [p], issued := s.issued + 1, accepted := s.accepted + multiset{p})
  }

  function CloseQueue(s: Sub): Sub {
    s.(open := false, closeOnce := true)
  }

  function Start(s: Sub, w: nat, p: Parcel, attempt: nat): Sub
    requires w < |s.workers|
  {
    s.(workers := s.workers[w := Handling(p, attempt)], calls := s.calls + multiset{p})
  }

  /** A worker receives the oldest parcel and makes its first attempt. */
  function Take(s: Sub, w: nat): Sub
    requires w < |s.workers| && s.workers[w].Idle? && s.queue != []
  {
    Start(s.(queue := s.queue[1..]), w, s.queue[0], 1)
  }

  function Succeed(s: Sub, w: nat): Sub
    requires w < |s.workers| && s.workers[w].Handling?
  {
    s.(workers := s.workers[w := Idle], handled := s.handled + multiset{s.workers[w].parcel})
  }

  function Fail(cfg: Config, s: Sub, w: nat): Sub
    requires w < |s.workers| && s.workers[w].Handling?
  {
    var Handling(p, attempt) := s.workers[w];
    var failed := s.(failures := s.failures + multiset{p});
    if attempt == cfg.maxAttempts then failed.(workers := s.workers[w := Idle], dead := s.dead + multiset{p})
    else failed.(workers := s.workers[w := BackingOff(p, attempt)])
  }

  function Retry(s: Sub, w: nat): Sub
    requires w < |s.workers| && s.workers[w].BackingOff?
  {
    Start(s, w, s.workers[w].parcel, s.workers[w].attempt + 1)
  }

  /** The context ended while waiting to retry. */
  function Abandon(s: Sub, w: nat): Sub
    requires w < |s.workers| && s.workers[w].BackingOff?
  {
    s.(workers := s.workers[w := Idle], abandoned := s.abandoned + multiset{s.workers[w].parcel})
  }

  /** A worker leaves when the queue is closed and empty. */
  function Leave(s: Sub, w: nat): Sub
    requires w < |s.workers|
  {
    s.(workers := s.workers[w := Gone])
  }

  // ---- what every step keeps ----

  function HeldBy(w: Worker): multiset<Parcel> {
    if w.Handling? || w.BackingOff? then multiset{w.parcel} else multiset{}
  }

  function Held(workers: seq<Worker>): multiset<Parcel> {
    if workers == [] then multiset{} else Held(workers[..|workers| - 1]) + HeldBy(workers[|workers| - 1])
  }

  lemma {:induction false} HeldAfter(workers: seq<Worker>, w: nat, after: Worker)
    requires w < |workers|
    ensures HeldBy(workers[w]) <= Held(workers)
    ensures Held(workers[w := after]) == Held(workers) - HeldBy(workers[w]) + HeldBy(after)
  {
    var n := |workers| - 1;
    var changed := workers[w := after];
    if w == n {
      assert changed[..n] == workers[..n];
    } else {
      HeldAfter(workers[..n], w, after);
      assert changed[..n] == workers[..n][w := after];
    }
  }

  function Elsewhere(s: Sub): multiset<Parcel> {
    multiset(s.queue) + s.handled + s.dead + s.abandoned
  }

  /** Accepted = queued + handled + dead-lettered + abandoned + in delivery. */
  ghost predicate Conserved(s: Sub) {
    s.accepted == Elsewhere(s) + Held(s.workers)
  }

  ghost predicate Tickets(s: Sub) {
    forall p :: s.accepted[p] <= 1 && (p.ticket >= s.issued ==> s.accepted[p] == 0)
  }

  /** What a parcel's place says about how often its handler was called. */
  ghost predicate Tallied(cfg: Config, s: Sub) {
    && (forall p :: p !in s.accepted || p in s.queue ==> s.calls[p] == 0 && s.failures[p] == 0)
    && (forall w | 0 <= w < |s.workers| :: WorkerTallied(cfg, s, s.workers[w]))
    && (forall p | p in s.handled :: s.calls[p] == s.failures[p] + 1 <= cfg.maxAttempts)
    && (forall p | p in s.dead :: s.calls[p] == s.failures[p] == cfg.maxAttempts)
    && (forall p | p in s.abandoned :: 0 < s.calls[p] == s.failures[p] < cfg.maxAttempts)
  }

  ghost predicate WorkerTallied(cfg: Config, s: Sub, w: Worker) {
    && (w.Handling? ==> s.calls[w.parcel] == w.attempt == s.failures[w.parcel] + 1 <= cfg.maxAttempts)
    && (w.BackingOff? ==> 0 < s.calls[w.parcel] == w.attempt == s.failures[w.parcel] < cfg.maxAttempts)
  }

  ghost predicate Shape(cfg: Config, s: Sub) {
    && |s.queue| <= cfg.queueSize && |s.workers| == cfg.workers && (s.closeOnce <==> !s.open)
    && forall w | 0 <= w < |s.workers| && s.workers[w].Gone? :: !s.open && s.queue == []
  }

  ghost predicate Good(cfg: Config, s: Sub) {
    cfg.Valid() && Shape(cfg, s) && Conserved(s) && Tickets(s) && Tallied(cfg, s)
  }

  lemma {:induction false} NobodyHoldsAnything(workers: seq<Worker>)
    requires forall w | 0 <= w < |workers| :: workers[w].Idle? || workers[w].Gone?
    ensures Held(workers) == multiset{}
  {
    if workers != [] { NobodyHoldsAnything(workers[..|workers| - 1]); }
  }

  lemma NewSubIsGood(cfg: Config, pattern: string)
    requires cfg.Valid()
    ensures Good(cfg, NewSub(cfg, pattern))
  {
    NobodyHoldsAnything(NewSub(cfg, pattern).workers);
  }

  lemma AcceptKeepsGood(cfg: Config, s: Sub, e: Event, origin: nat)
    requires Good(cfg, s) && s.open && |s.queue| < cfg.queueSize
    ensures Good(cfg, Accept(s, e, origin))
  {
    AcceptKeepsAccounts(cfg, s, e, origin);
    AcceptKeepsTallies(cfg, s, e, origin);
  }

  lemma AcceptKeepsAccounts(cfg: Config, s: Sub, e: Event, origin: nat)
    requires Accounts(cfg, s) && s.open && |s.queue| < cfg.queueSize
    ensures Accounts(cfg, Accept(s, e, origin))
  {
    var p, s' := Parcel(s.issued, e, origin), Accept(s, e, origin);
    assert multiset(s'.queue) == multiset(s.queue) + multiset{p};
    assert Elsewhere(s') == Elsewhere(s) + multiset{p};
  }

  lemma AcceptKeepsTallies(cfg: Config, s: Sub, e: Event, origin: nat)
    requires Tallied(cfg, s) && Tickets(s)
    ensures Tallied(cfg, Accept(s, e, origin))
  {
    var p, s' := Parcel(s.issued, e, origin), Accept(s, e, origin);
    assert p !in s.accepted;
    forall q | q in s'.queue ensures q in s.queue || q == p {}
    forall w | 0 <= w < |s.workers| ensures WorkerTallied(cfg, s', s.workers[w]) {
      assert WorkerTallied(cfg, s, s.workers[w]);
    }
  }

  lemma CloseKeepsGood(cfg: Config, s: Sub)
    requires Good(cfg, s)
    ensures Good(cfg, CloseQueue(s))
  {
  }

  /** The parcel a worker holds is nowhere else. */
  lemma HolderIsAlone(cfg: Config, s: Sub, w: nat)
    requires Good(cfg, s) && w < |s.workers| && (s.workers[w].Handling? || s.workers[w].BackingOff?)
    ensures var p := s.workers[w].parcel;
            && p in s.accepted && p !in s.queue && p !in s.handled && p !in s.dead && p !in s.abandoned
            && forall v | 0 <= v < |s.workers| && v != w :: HeldBy(s.workers[v])[p] == 0
  {
    var p := s.workers[w].parcel;
    HeldAfter(s.workers, w, Idle);
    assert Held(s.workers)[p] >= 1 && s.accepted[p] == 1;
    forall v | 0 <= v < |s.workers| && v != w ensures HeldBy(s.workers[v])[p] == 0 {
      HeldAfter(s.workers[w := Idle], v, Idle);
    }
    assert p in s.queue ==> multiset(s.queue)[p] >= 1;
  }

  ghost predicate Accounts(cfg: Config, s: Sub) {
    cfg.Valid() && Shape(cfg, s) && Conserved(s) && Tickets(s)
  }

  /** Moving worker w's parcel keeps the books when everything it let go of is written down elsewhere. */
  lemma MoveKeepsAccounts(cfg: Config, s: Sub, s': Sub, w: nat, after: Worker)
    requires Accounts(cfg, s) && w < |s.workers| && !s.workers[w].Gone? && !after.Gone?
    requires s'.workers == s.workers[w := after] && s'.open == s.open && s'.closeOnce == s.closeOnce
    requires s'.queue == s.queue || (s.queue != [] && s'.queue == s.queue[1..])
    requires s'.accepted == s.accepted && s'.issued == s.issued
    requires Elsewhere(s') + HeldBy(after) == Elsewhere(s) + HeldBy(s.workers[w])
    ensures Accounts(cfg, s')
  {
    HeldAfter(s.workers, w, after);
    MoveConserves(Elsewhere(s), Held(s.workers), HeldBy(s.workers[w]), Elsewhere(s'), HeldBy(after));
  }

  lemma MoveConserves(rest: multiset<Parcel>, held: multiset<Parcel>, gone: multiset<Parcel>,
                      rest': multiset<Parcel>, taken: multiset<Parcel>)
    requires gone <= held && rest' + taken == rest + gone
    ensures rest' + (held - gone + taken) == rest + held
  {
    forall p ensures (rest' + (held - gone + taken))[p] == (rest + held)[p] {
      assert (rest' + taken)[p] == (rest + gone)[p];
    }
  }

  lemma TakeKeepsGood(cfg: Config, s: Sub, w: nat)
    requires Good(cfg, s) && w < |s.workers| && s.workers[w].Idle? && s.queue != []
    ensures Good(cfg, Take(s, w))
  {
    assert s.queue == [s.queue[0]] + s.queue[1..];
    MoveKeepsAccounts(cfg, s, Take(s, w), w, Handling(s.queue[0], 1));
    TakeKeepsTallies(cfg, s, w);
  }

  /** The oldest queued parcel is nowhere else. */
  lemma HeadIsAlone(cfg: Config, s: Sub)
    requires Good(cfg, s) && s.queue != []
    ensures var p := s.queue[0];
            && p in s.accepted && p !in s.queue[1..] && p !in s.handled && p !in s.dead && p !in s.abandoned
            && forall v | 0 <= v < |s.workers| :: HeldBy(s.workers[v])[p] == 0
  {
    var p := s.queue[0];
    assert s.queue == [p] + s.queue[1..];
    assert multiset(s.queue)[p] == 1 + multiset(s.queue[1..])[p];
    assert s.accepted[p] == 1;
    forall v | 0 <= v < |s.workers| ensures HeldBy(s.workers[v])[p] == 0 {
      HeldAfter(s.workers, v, Idle);
    }
  }

  lemma TakeKeepsTallies(cfg: Config, s: Sub, w: nat)
    requires Good(cfg, s) && w < |s.workers| && s.workers[w].Idle? && s.queue != []
    ensures Tallied(cfg, Take(s, w))
  {
    var p, s' := s.queue[0], Take(s, w);
    HeadIsAlone(cfg, s);
    OthersKeepTallies(cfg, s, s', w, p);
  }

  /** A step about parcel p at worker w leaves every other tally as it was. */
  lemma OthersKeepTallies(cfg: Config, s: Sub, s': Sub, w: nat, p: Parcel)
    requires Tallied(cfg, s) && w < |s.workers| && |s'.workers| == |s.workers|
    requires forall v | 0 <= v < |s.workers| && v != w :: s'.workers[v] == s.workers[v] && HeldBy(s.workers[v])[p] == 0
    requires WorkerTallied(cfg, s', s'.workers[w])
    requires forall q | q != p :: s'.calls[q] == s.calls[q] && s'.failures[q] == s.failures[q]
    requires s'.accepted == s.accepted && forall q | q in s'.queue :: q in s.queue && q != p
    requires p in s.accepted
    requires forall q | q != p :: s'.handled[q] == s.handled[q] && s'.dead[q] == s.dead[q]
    requires forall q | q != p :: s'.abandoned[q] == s.abandoned[q]
    requires p in s'.handled ==> s'.calls[p] == s'.failures[p] + 1 <= cfg.maxAttempts
    requires p in s'.dead ==> s'.calls[p] == s'.failures[p] == cfg.maxAttempts
    requires p in s'.abandoned ==> 0 < s'.calls[p] == s'.failures[p] < cfg.maxAttempts
    ensures Tallied(cfg, s')
  {
    forall v | 0 <= v < |s.workers| ensures WorkerTallied(cfg, s', s'.workers[v]) {
      if v != w {
        assert WorkerTallied(cfg, s, s.workers[v]);
        assert HeldBy(s.workers[v])[p] == 0;
      }
    }
  }

  lemma SucceedKeepsGood(cfg: Config, s: Sub, w: nat)
    requires Good(cfg, s) && w < |s.workers| && s.workers[w].Handling?
    ensures Good(cfg, Succeed(s, w))
  {
    MoveKeepsAccounts(cfg, s, Succeed(s, w), w, Idle);
    SucceedKeepsTallies(cfg, s, w);
  }

  lemma SucceedKeepsTallies(cfg: Config, s: Sub, w: nat)
    requires Good(cfg, s) && w < |s.workers| && s.workers[w].Handling?
    ensures Tallied(cfg, Succeed(s, w))
  {
    HolderIsAlone(cfg, s, w);
    assert WorkerTallied(cfg, s, s.workers[w]);
    OthersKeepTallies(cfg, s, Succeed(s, w), w, s.workers[w].parcel);
  }

  lemma FailKeepsGood(cfg: Config, s: Sub, w: nat)
    requires Good(cfg, s) && w < |s.workers| && s.workers[w].Handling?
    ensures Good(cfg, Fail(cfg, s, w))
  {
    MoveKeepsAccounts(cfg, s, Fail(cfg, s, w), w, Fail(cfg, s, w).workers[w]);
    FailKeepsTallies(cfg, s, w);
  }

  lemma FailKeepsTallies(cfg: Config, s: Sub, w: nat)
    requires Good(cfg, s) && w < |s.workers| && s.workers[w].Handling?
    ensures Tallied(cfg, Fail(cfg, s, w))
  {
    if s.workers[w].attempt == cfg.maxAttempts {
      LastFailKeepsTallies(cfg, s, w);
    } else {
      EarlyFailKeepsTallies(cfg, s, w);
    }
  }

  lemma LastFailKeepsTallies(cfg: Config, s: Sub, w: nat)
    requires Good(cfg, s) && w < |s.workers| && s.workers[w].Handling? && s.workers[w].attempt == cfg.maxAttempts
    ensures Tallied(cfg, Fail(cfg, s, w))
  {
    HolderIsAlone(cfg, s, w);
    assert WorkerTallied(cfg, s, s.workers[w]);
    OthersKeepTallies(cfg, s, Fail(cfg, s, w), w, s.workers[w].parcel);
  }

  lemma EarlyFailKeepsTallies(cfg: Config, s: Sub, w: nat)
    requires Good(cfg, s) && w < |s.workers| && s.workers[w].Handling? && s.workers[w].attempt != cfg.maxAttempts
    ensures Tallied(cfg, Fail(cfg, s, w))
  {
    HolderIsAlone(cfg, s, w);
    assert WorkerTallied(cfg, s, s.workers[w]);
    OthersKeepTallies(cfg, s, Fail(cfg, s, w), w, s.workers[w].parcel);
  }

  lemma RetryKeepsGood(cfg: Config, s: Sub, w: nat)
    requires Good(cfg, s) && w < |s.workers| && s.workers[w].BackingOff?
    ensures Good(cfg, Retry(s, w))
  {
    MoveKeepsAccounts(cfg, s, Retry(s, w), w, Handling(s.workers[w].parcel, s.workers[w].attempt + 1));
    RetryKeepsTallies(cfg, s, w);
  }

  lemma RetryKeepsTallies(cfg: Config, s: Sub, w: nat)
    requires Good(cfg, s) && w < |s.workers| && s.workers[w].BackingOff?
    ensures Tallied(cfg, Retry(s, w))
  {
    HolderIsAlone(cfg, s, w);
    assert WorkerTallied(cfg, s, s.workers[w]);
    OthersKeepTallies(cfg, s, Retry(s, w), w, s.workers[w].parcel);
  }

  lemma AbandonKeepsGood(cfg: Config, s: Sub, w: nat)
    requires Good(cfg, s) && w < |s.workers| && s.workers[w].BackingOff?
    ensures Good(cfg, Abandon(s, w))
  {
    MoveKeepsAccounts(cfg, s, Abandon(s, w), w, Idle);
    AbandonKeepsTallies(cfg, s, w);
  }

  lemma AbandonKeepsTallies(cfg: Config, s: Sub, w: nat)
    requires Good(cfg, s) && w < |s.workers| && s.workers[w].BackingOff?
    ensures Tallied(cfg, Abandon(s, w))
  {
    HolderIsAlone(cfg, s, w);
    assert WorkerTallied(cfg, s, s.workers[w]);
    OthersKeepTallies(cfg, s, Abandon(s, w), w, s.workers[w].parcel);
  }

  lemma LeaveKeepsGood(cfg: Config, s: Sub, w: nat)
    requires Good(cfg, s) && w < |s.workers| && s.workers[w].Idle? && !s.open && s.queue == []
    ensures Good(cfg, Leave(s, w))
  {
    HeldAfter(s.workers, w, Gone);
    LeaveKeepsTallies(cfg, s, w);
  }

  lemma LeaveKeepsTallies(cfg: Config, s: Sub, w: nat)
    requires Tallied(cfg, s) && w < |s.workers|
    ensures Tallied(cfg, Leave(s, w))
  {
    var s' := Leave(s, w);
    forall v | 0 <= v < |s.workers| ensures WorkerTallied(cfg, s', s'.workers[v]) {
      assert WorkerTallied(cfg, s, s.workers[v]);
    }
  }

  // ---- one delivery ----

  datatype Fate = Delivered | DeadLettered | Cancelled

  /** The retry loop of one worker. `succeeds` and `cancelled` say what the handler and the context
      do at each attempt. */
  method Deliver(cfg: Config, s: Sub, w: nat, succeeds: nat -> bool, cancelled: nat -> bool)
      returns (after: Sub, fate: Fate, attempts: nat)
    requires cfg.Valid() && w < |s.workers| && s.workers[w].Handling? && s.workers[w].attempt == 1
    ensures 1 <= attempts <= cfg.maxAttempts
    ensures forall i | 1 <= i < attempts :: !succeeds(i) && !cancelled(i)
    ensures fate.Delivered? <==> succeeds(attempts)
    ensures fate.DeadLettered? <==> !succeeds(attempts) && attempts == cfg.maxAttempts
    ensures fate.Cancelled? ==> cancelled(attempts)
    ensures after.workers == s.workers[w := Idle] && after.queue == s.queue && after.accepted == s.accepted
    ensures var p := s.workers[w].parcel;
            && after.calls[p] == s.calls[p] + attempts - 1
            && after.handled == s.handled + (if fate.Delivered? then multiset{p} else multiset{})
            && after.dead == s.dead + (if fate.DeadLettered? then multiset{p} else multiset{})
            && after.abandoned == s.abandoned + (if fate.Cancelled? then multiset{p} else multiset{})
  {
    var p := s.workers[w].parcel;
    after := s;
    for attempt := 1 to cfg.maxAttempts + 1
      invariant attempt <= cfg.maxAttempts
      invariant after.workers == s.workers[w := Handling(p, attempt)]
      invariant after.calls[p] == s.calls[p] + attempt - 1
      invariant after.queue == s.queue && after.accepted == s.accepted && after.handled == s.handled
      invariant after.dead == s.dead && after.abandoned == s.abandoned
      invariant forall i | 1 <= i < attempt :: !succeeds(i) && !cancelled(i)
    {
      if succeeds(attempt) {
        return Succeed(after, w), Delivered, attempt;
      }
      after := Fail(cfg, after, w);
      if attempt == cfg.maxAttempts {
        return after, DeadLettered, attempt;
      }
      if cancelled(attempt) {
        return Abandon(after, w), Cancelled, attempt;
      }
      after := Retry(after, w);
    }
    assert false;
  }

  // ---- what follows ----

  /** However often it is retried, a parcel's handler is called at most MaxAttempts times, and it is
      dead-lettered only after that many failures. */
  lemma AttemptsAreBounded(cfg: Config, s: Sub, p: Parcel)
    requires Good(cfg, s)
    ensures s.calls[p] <= cfg.maxAttempts
    ensures p in s.dead ==> s.failures[p] == cfg.maxAttempts
    ensures s.failures[p] == cfg.maxAttempts ==> p in s.dead
  {
    if p in Held(s.workers) {
      var w := Holder(s.workers, p);
      assert WorkerTallied(cfg, s, s.workers[w]);
    }
    assert p in s.accepted ==> p in Elsewhere(s) || p in Held(s.workers);
  }

  lemma {:induction false} Holder(workers: seq<Worker>, p: Parcel) returns (w: nat)
    requires p in Held(workers)
    ensures w < |workers| && p in HeldBy(workers[w])
  {
    var n := |workers| - 1;
    if p in HeldBy(workers[n]) { w := n; } else { w := Holder(workers[..n], p); }
  }

  /** Once every worker has left, every accepted parcel was handled, dead-lettered or abandoned. */
  lemma LeavingSettlesEverything(cfg: Config, s: Sub)
    requires Good(cfg, s) && forall w | 0 <= w < |s.workers| :: s.workers[w].Gone?
    ensures s.accepted == s.handled + s.dead + s.abandoned
  {
    NobodyHoldsAnything(s.workers);
    assert s.workers[0].Gone?;
  }
}
