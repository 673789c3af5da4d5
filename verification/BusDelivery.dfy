/** Which subscriptions an event reaches. */
module BusDelivery {
  import opened Prelude
  import opened Subscription
  import opened Bus

  /** What a subscription has accepted from one Publish call. */
  ghost function FromCall(sub: Sub, origin: nat): set<Parcel> {
    set q | q in sub.accepted && q.origin == origin
  }

  /** What became of a call's event at a subscription it has been offered to: accepted once if wanted
      and there was room, turned away by a full queue where dropping is allowed, or not wanted. */
  ghost predicate Settled(cfg: Config, sub: Sub, id: SubId, p: Publisher) {
    && (id in p.full ==> Wants(sub, p.event) && p.full[id] == cfg.queueSize && !cfg.blockOnFull)
    && (if Wants(sub, p.event) && id !in p.full
        then exists t :: FromCall(sub, p.origin) == {Parcel(t, p.event, p.origin)}
        else FromCall(sub, p.origin) == {})
  }

  /** Everything accepted is wanted, and comes from a call that has begun. */
  ghost predicate Welcome(s: State, sub: Sub) {
    forall q | q in sub.accepted :: Wants(sub, q.event) && q.origin < s.begun
  }

  ghost predicate Progress(s: State, p: Publisher) {
    && p.origin < s.begun
    && (forall id | 0 <= id < |s.all| && id in p.list[..Min(p.next, |p.list|)] :: Settled(s.cfg, s.all[id], id, p))
    && (forall id | 0 <= id < |s.all| && id !in p.list[..Min(p.next, |p.list|)] ::
          FromCall(s.all[id], p.origin) == {} && id !in p.full)
  }

  function Min(a: nat, b: nat): (m: nat)
    ensures m <= b
  {
    if a < b then a else b
  }

  ghost predicate Fair(s: State) {
    && (forall id | 0 <= id < |s.all| :: Welcome(s, s.all[id]))
    && (forall pid | pid in s.publishers :: Progress(s, s.publishers[pid]))
    && (forall p, q | p in s.publishers && q in s.publishers && p != q ::
          s.publishers[p].origin != s.publishers[q].origin)
  }

  // ---- steps that offer nothing ----

  lemma WorkerAcceptsNothing(cfg: Config, sub: Sub, a: Action)
    requires WorkerAction(a) && WorkerMay(sub, a)
    ensures Worked(cfg, sub, a).accepted == sub.accepted && Worked(cfg, sub, a).pattern == sub.pattern
  {
  }

  lemma QuietStep(s: State, a: Action)
    requires s.cfg.Valid() && Enabled(s, a) && !a.Offer?
    ensures var s' := Do(s, a);
            && s'.cfg == s.cfg && |s.all| <= |s'.all| && s.begun <= s'.begun
            && forall id | 0 <= id < |s.all| ::
                 s'.all[id].accepted == s.all[id].accepted && s'.all[id].pattern == s.all[id].pattern
  {
    var s' := Do(s, a);
    StepKeepsShape(s, a);
    forall id | 0 <= id < |s.all|
      ensures s'.all[id].accepted == s.all[id].accepted && s'.all[id].pattern == s.all[id].pattern
    {
      if s'.all[id] != s.all[id] && !a.CloseQueue? {
        OnlyWorkersChangeTheRest(s, a, id);
        WorkerAcceptsNothing(s.cfg, s.all[id], a);
      }
    }
  }

  /** Nothing new was accepted, no publisher moved: nothing to say. */
  lemma SameAcceptances(s: State, s': State, p: Publisher)
    requires Progress(s, p) && s'.cfg == s.cfg && |s'.all| == |s.all| && s.begun <= s'.begun
    requires forall id | 0 <= id < |s.all| ::
               s'.all[id].accepted == s.all[id].accepted && s'.all[id].pattern == s.all[id].pattern
    ensures Progress(s', p)
  {
    forall id | 0 <= id < |s.all| ensures FromCall(s'.all[id], p.origin) == FromCall(s.all[id], p.origin) {}
    forall id | 0 <= id < |s'.all| && id in p.list[..Min(p.next, |p.list|)]
      ensures Settled(s'.cfg, s'.all[id], id, p)
    {
      assert Settled(s.cfg, s.all[id], id, p);
    }
  }

  lemma BeginIsFair(s: State, a: Action)
    requires Fair(s) && s.cfg.Valid() && Enabled(s, a) && a.Begin?
    ensures Fair(Do(s, a))
  {
    var s' := Do(s, a);
    forall id | 0 <= id < |s.all| ensures Welcome(s', s'.all[id]) && FromCall(s.all[id], s.begun) == {} {
      assert Welcome(s, s.all[id]);
    }
    forall pid | pid in s'.publishers ensures Progress(s', s'.publishers[pid]) {
      if pid in s.publishers && s'.publishers[pid] == s.publishers[pid] {
        SameAcceptances(s, s', s.publishers[pid]);
      }
    }
    forall p | p in s.publishers ensures s.publishers[p].origin < s.begun { assert Progress(s, s.publishers[p]); }
  }

  lemma QuietStepIsFair(s: State, a: Action)
    requires Fair(s) && s.cfg.Valid() && Enabled(s, a) && !a.Offer? && !a.Begin?
    ensures Fair(Do(s, a))
  {
    var s' := Do(s, a);
    QuietStep(s, a);
    forall id | 0 <= id < |s'.all| ensures Welcome(s', s'.all[id]) {
      if id < |s.all| { assert Welcome(s, s.all[id]); }
    }
    assert forall pid | pid in s'.publishers :: pid in s.publishers && s'.publishers[pid] == s.publishers[pid];
    forall pid | pid in s'.publishers ensures Progress(s', s'.publishers[pid]) {
      assert |s'.all| == |s.all|;
      SameAcceptances(s, s', s.publishers[pid]);
    }
  }

  // ---- the step that offers ----

  /** One offer changes one subscription and one publisher. */
  ghost predicate OneOffer(s: State, s': State, pid: Pid)
    requires pid in s.publishers && pid in s'.publishers
    requires s.publishers[pid].next < |s.subs| && s.subs[s.publishers[pid].next] < |s.all|
  {
    var p, p' := s.publishers[pid], s'.publishers[pid];
    var id := s.subs[p.next];
    && s'.cfg == s.cfg && s'.begun == s.begun && |s'.all| == |s.all| && s'.publishers == s.publishers[pid := p']
    && p'.event == p.event && p'.origin == p.origin && p'.list == p.list && p'.next == p.next + 1
    && (forall x | x != id :: x in p'.full <==> x in p.full)
    && (forall x | x in p.full && x != id :: p'.full[x] == p.full[x])
    && (forall x | 0 <= x < |s.all| && x != id :: s'.all[x] == s.all[x])
    && s'.all[id].pattern == s.all[id].pattern
  }

  lemma OfferIsOneOffer(s: State, pid: Pid)
    requires s.cfg.Valid() && Enabled(s, Offer(pid))
    ensures pid in Do(s, Offer(pid)).publishers && OneOffer(s, Do(s, Offer(pid)), pid)
  {
  }

  /** The subscription takes the event exactly when it wants it and has room. */
  lemma OfferIsTakenExactlyWhen(s: State, pid: Pid)
    requires s.cfg.Valid() && Enabled(s, Offer(pid))
    requires var id := s.subs[s.publishers[pid].next]; s.all[id].open
    ensures var s' := Do(s, Offer(pid)); var p := s.publishers[pid]; var id := s.subs[p.next]; var sub := s.all[id];
            && s'.all[id].accepted ==
               (if Wants(sub, p.event) && |sub.queue| < s.cfg.queueSize
                then sub.accepted + multiset{Parcel(sub.issued, p.event, p.origin)} else sub.accepted)
            && pid in s'.publishers
            && s'.publishers[pid].full ==
               if Wants(sub, p.event) && |sub.queue| >= s.cfg.queueSize then p.full[id := |sub.queue|] else p.full
  {
  }

  /** So its part in the call is settled. */
  lemma OfferSettles(s: State, pid: Pid)
    requires Orderly(s) && s.cfg.Valid() && AllGood(s) && Fair(s) && Enabled(s, Offer(pid))
    ensures var s' := Do(s, Offer(pid)); var id := s.subs[s.publishers[pid].next];
            pid in s'.publishers && Settled(s'.cfg, s'.all[id], id, s'.publishers[pid])
  {
    var p := s.publishers[pid];
    var id := s.subs[p.next];
    var sub, s' := s.all[id], Do(s, Offer(pid));
    assert OpenAndStaying(s, id) && Booked(s, sub) && Progress(s, p);
    OfferIsOneOffer(s, pid);
    OfferIsTakenExactlyWhen(s, pid);
    NotYetOffered(s, p);
    TakenOnce(s'.cfg, sub, s'.all[id], id, p, s'.publishers[pid]);
  }

  lemma NotYetOffered(s: State, p: Publisher)
    requires Progress(s, p) && Distinct(p.list) && p.next < |p.list| && p.list[p.next] < |s.all|
    ensures FromCall(s.all[p.list[p.next]], p.origin) == {} && p.list[p.next] !in p.full
  {
    assert p.list[p.next] !in p.list[..p.next];
  }

  lemma TakenOnce(cfg: Config, sub: Sub, sub': Sub, id: SubId, p: Publisher, p': Publisher)
    requires FromCall(sub, p.origin) == {} && id !in p.full && |sub.queue| <= cfg.queueSize
    requires p'.event == p.event && p'.origin == p.origin && sub'.pattern == sub.pattern
    requires sub'.accepted == if Wants(sub, p.event) && |sub.queue| < cfg.queueSize
                              then sub.accepted + multiset{Parcel(sub.issued, p.event, p.origin)} else sub.accepted
    requires p'.full ==
             if Wants(sub, p.event) && |sub.queue| >= cfg.queueSize then p.full[id := |sub.queue|] else p.full
    requires cfg.blockOnFull && Wants(sub, p.event) ==> |sub.queue| < cfg.queueSize
    ensures Settled(cfg, sub', id, p')
  {
    if Wants(sub, p.event) && |sub.queue| < cfg.queueSize {
      var q := Parcel(sub.issued, p.event, p.origin);
      assert FromCall(sub', p.origin) == FromCall(sub, p.origin) + {q};
      assert FromCall(sub', p'.origin) == {Parcel(sub.issued, p'.event, p'.origin)};
    } else {
      assert FromCall(sub', p.origin) == FromCall(sub, p.origin);
    }
  }

  /** A call other than the one that offers sees no difference. */
  lemma OthersSeeNothing(s: State, s': State, id: SubId, q: Parcel, p: Publisher)
    requires Progress(s, p) && s'.cfg == s.cfg && s'.begun == s.begun && |s'.all| == |s.all| && id < |s.all|
    requires forall x | 0 <= x < |s.all| && x != id :: s'.all[x] == s.all[x]
    requires s'.all[id].pattern == s.all[id].pattern && q.origin != p.origin
    requires s'.all[id].accepted == s.all[id].accepted || s'.all[id].accepted == s.all[id].accepted + multiset{q}
    ensures Progress(s', p)
  {
    forall x | 0 <= x < |s.all| ensures FromCall(s'.all[x], p.origin) == FromCall(s.all[x], p.origin) {}
    forall x | 0 <= x < |s'.all| && x in p.list[..Min(p.next, |p.list|)] ensures Settled(s'.cfg, s'.all[x], x, p) {
      assert Settled(s.cfg, s.all[x], x, p);
    }
  }

  /** The call that offers has one more subscription settled. */
  lemma OneMoreSettled(s: State, s': State, id: SubId, p: Publisher, p': Publisher)
    requires Progress(s, p) && s'.cfg == s.cfg && s'.begun == s.begun && |s'.all| == |s.all| && id < |s.all|
    requires p.next < |p.list| && p.list[p.next] == id && Distinct(p.list)
    requires p'.event == p.event && p'.origin == p.origin && p'.list == p.list && p'.next == p.next + 1
    requires forall x | x != id :: x in p'.full <==> x in p.full
    requires forall x | x in p.full && x != id :: p'.full[x] == p.full[x]
    requires forall x | 0 <= x < |s.all| && x != id :: s'.all[x] == s.all[x]
    requires Settled(s'.cfg, s'.all[id], id, p')
    ensures Progress(s', p')
  {
    assert p.list[..p.next + 1] == p.list[..p.next] + [id];
    forall x | 0 <= x < |s'.all| && x in p'.list[..Min(p'.next, |p'.list|)] ensures Settled(s'.cfg, s'.all[x], x, p') {
      if x != id { assert Settled(s.cfg, s.all[x], x, p); }
    }
  }

  lemma OfferIsFair(s: State, pid: Pid)
    requires Orderly(s) && s.cfg.Valid() && AllGood(s) && Fair(s) && Enabled(s, Offer(pid))
    ensures Fair(Do(s, Offer(pid)))
  {
    var s', p := Do(s, Offer(pid)), s.publishers[pid];
    var id := s.subs[p.next];
    assert OpenAndStaying(s, id) && Welcome(s, s.all[id]) && Progress(s, p);
    OfferIsOneOffer(s, pid);
    OfferIsTakenExactlyWhen(s, pid);
    OfferSettles(s, pid);
    OneOfferIsFair(s, s', pid, Parcel(s.all[id].issued, p.event, p.origin));
  }

  lemma OneOfferIsFair(s: State, s': State, pid: Pid, q: Parcel)
    requires Fair(s) && pid in s.publishers && pid in s'.publishers
    requires s.publishers[pid].list == s.subs && Distinct(s.subs)
    requires s.publishers[pid].next < |s.subs| && s.subs[s.publishers[pid].next] < |s.all|
    requires OneOffer(s, s', pid)
    requires var id := s.subs[s.publishers[pid].next];
             && Settled(s'.cfg, s'.all[id], id, s'.publishers[pid])
             && q.origin == s.publishers[pid].origin
             && (s'.all[id].accepted == s.all[id].accepted ||
                 (Wants(s.all[id], q.event) && s'.all[id].accepted == s.all[id].accepted + multiset{q}))
    ensures Fair(s')
  {
    var p := s.publishers[pid];
    var id := s.subs[p.next];
    forall x | 0 <= x < |s'.all| ensures Welcome(s', s'.all[x]) { assert Welcome(s, s.all[x]) && Progress(s, p); }
    forall x | x in s'.publishers ensures Progress(s', s'.publishers[x]) {
      if x == pid {
        OneMoreSettled(s, s', id, p, s'.publishers[pid]);
      } else {
        OthersSeeNothing(s, s', id, q, s.publishers[x]);
      }
    }
  }

  lemma {:induction false} EveryRunIsFair(cfg: Config, actions: seq<Action>)
    ensures Fair(Run(cfg, actions))
  {
    if actions != [] {
      var s, a := Run(cfg, actions[..|actions| - 1]), actions[|actions| - 1];
      EveryRunIsFair(cfg, actions[..|actions| - 1]);
      EveryRunIsSafe(cfg, actions[..|actions| - 1]);
      if Enabled(s, a) {
        match a
        case Offer(pid) => OfferIsFair(s, pid);
        case Begin(_, _) => BeginIsFair(s, a);
        case _ => QuietStepIsFair(s, a);
      }
    }
  }

  // ---- what follows ----

  /** In every run a subscription has accepted only events that fit its pattern. */
  lemma OnlyWantedEventsAreAccepted(cfg: Config, actions: seq<Action>, id: SubId, q: Parcel)
    requires id < |Run(cfg, actions).all| && q in Run(cfg, actions).all[id].accepted
    ensures Wants(Run(cfg, actions).all[id], q.event)
  {
    EveryRunIsFair(cfg, actions);
    assert Welcome(Run(cfg, actions), Run(cfg, actions).all[id]);
  }

  /** When a Publish call is about to return, every registered subscription that fits has accepted its
      event exactly once from it, or turned it away with a full queue where dropping is allowed; no
      other subscription has accepted anything from it. */
  lemma FinishedCallReachedEveryone(cfg: Config, actions: seq<Action>, pid: Pid, id: SubId)
    requires Enabled(Run(cfg, actions), Finish(pid)) && id < |Run(cfg, actions).all|
    ensures var s := Run(cfg, actions); var p := s.publishers[pid]; var sub := s.all[id];
            && (id in s.subs && Wants(sub, p.event) && id !in p.full ==>
                  exists q :: FromCall(sub, p.origin) == {q} && q.event == p.event && sub.accepted[q] == 1)
            && (id in p.full ==>
                  id in s.subs && Wants(sub, p.event) && p.full[id] == s.cfg.queueSize && !s.cfg.blockOnFull)
            && (id !in s.subs || !Wants(sub, p.event) || id in p.full ==> FromCall(sub, p.origin) == {})
  {
    var s := Run(cfg, actions);
    EveryRunIsFair(cfg, actions);
    EveryRunIsSafe(cfg, actions);
    assert Booked(s, s.all[id]);
    AllOffered(s, s.publishers[pid], id);
    if id in s.subs && Wants(s.all[id], s.publishers[pid].event) && id !in s.publishers[pid].full {
      AcceptedOnce(s.all[id], s.publishers[pid]);
    }
  }

  lemma AllOffered(s: State, p: Publisher, id: SubId)
    requires Progress(s, p) && p.list == s.subs && p.next == |s.subs| && id < |s.all|
    ensures if id in s.subs then Settled(s.cfg, s.all[id], id, p)
            else FromCall(s.all[id], p.origin) == {} && id !in p.full
  {
    assert p.list[..p.next] == p.list;
  }

  lemma AcceptedOnce(sub: Sub, p: Publisher)
    requires Tickets(sub) && exists t :: FromCall(sub, p.origin) == {Parcel(t, p.event, p.origin)}
    ensures exists q :: FromCall(sub, p.origin) == {q} && q.event == p.event && sub.accepted[q] == 1
  {
    var t :| FromCall(sub, p.origin) == {Parcel(t, p.event, p.origin)};
    assert Parcel(t, p.event, p.origin) in FromCall(sub, p.origin);
  }

  // ---- who is registered ----

  /** This very action was taken, and not skipped, somewhere in the run. */
  ghost predicate Happened(cfg: Config, actions: seq<Action>, a: Action) {
    actions != [] &&
    var front, last := actions[..|actions| - 1], actions[|actions| - 1];
    Happened(cfg, front, a) || (last == a && Enabled(Run(cfg, front), last))
  }

  predicate Registers(a: Action) {
    a.Subscribe? || a.Unsubscribe? || a == Close
  }

  lemma OthersRegisterNothing(s: State, a: Action)
    requires s.cfg.Valid() && Enabled(s, a) && !Registers(a)
    ensures var s' := Do(s, a); s'.subs == s.subs && s'.closed == s.closed && |s'.all| == |s.all|
  {
  }

  ghost predicate Tells(s: State, id: SubId, closed: bool, unsubscribed: bool) {
    && (id in s.subs <==> id < |s.all| && !closed && !unsubscribed)
    && (s.closed <==> closed) && (unsubscribed ==> id < |s.all|)
  }

  lemma TellsAfter(s: State, a: Action, id: SubId, closed: bool, unsubscribed: bool)
    requires Orderly(s) && s.cfg.Valid() && Enabled(s, a) && Tells(s, id, closed, unsubscribed)
    ensures Tells(Do(s, a), id, closed || a == Close, unsubscribed || a == Unsubscribe(id))
  {
    if !Registers(a) {
      OthersRegisterNothing(s, a);
    } else if a.Unsubscribe? {
      WithoutRemoves(s.subs, a.id);
    }
  }

  lemma {:induction false} RunTells(cfg: Config, actions: seq<Action>, id: SubId)
    ensures Tells(Run(cfg, actions), id, Happened(cfg, actions, Close), Happened(cfg, actions, Unsubscribe(id)))
  {
    if actions != [] {
      var front, a := actions[..|actions| - 1], actions[|actions| - 1];
      RunTells(cfg, front, id);
      EveryRunIsSafe(cfg, front);
      if Enabled(Run(cfg, front), a) {
        TellsAfter(Run(cfg, front), a, id, Happened(cfg, front, Close), Happened(cfg, front, Unsubscribe(id)));
      }
    }
  }

  /** A subscription is registered exactly until it is unsubscribed or the bus is closed. */
  lemma RegisteredExactlyWhen(cfg: Config, actions: seq<Action>, id: SubId)
    ensures id in Run(cfg, actions).subs <==>
            && id < |Run(cfg, actions).all|
            && !Happened(cfg, actions, Close) && !Happened(cfg, actions, Unsubscribe(id))
  {
    RunTells(cfg, actions, id);
  }

  /** A Publish call goes to work, on the subscriptions then registered, exactly when the bus is open and
      its event has a topic; otherwise it is an error and changes nothing. */
  lemma PublishBeginsExactlyWhen(s: State, pid: Pid, e: Event)
    requires s.cfg.Valid() && Enabled(s, Begin(pid, e))
    ensures var s' := Do(s, Begin(pid, e));
            && (pid in s'.publishers <==> !s.closed && e.topic != "")
            && (pid in s'.publishers ==> s'.publishers[pid].event == e && s'.publishers[pid].list == s.subs)
            && (pid !in s'.publishers ==> s' == s)
  {
  }

  /** A subscription made while the bus is open is new, listens on its pattern and is open. */
  lemma SubscribeListens(s: State, pattern: string)
    requires s.cfg.Valid() && Enabled(s, Subscribe(pattern)) && !s.closed && pattern != ""
    ensures var s' := Do(s, Subscribe(pattern));
            && |s'.all| == |s.all| + 1 && s'.all[..|s.all|] == s.all && |s.all| in s'.subs
            && s'.all[|s.all|].pattern == pattern && s'.all[|s.all|].open && s'.all[|s.all|].accepted == multiset{}
  {
    assert Do(s, Subscribe(pattern)).subs[|s.subs|] == |s.all|;
  }
}
