/** Refresh tokens: rotation, replay and revocation of whole families. */
module Sessions {
  import opened Prelude

  type FamilyId = Id
  type UserId = Id

  datatype Token = Token(
    id: Id, user: UserId, family: FamilyId, createdAt: Time, expiresAt: Time,
    rotatedTo: Option<Id>, rotatedAt: Option<Time>, revokedAt: Option<Time>)

  predicate Valid(t: Token) {
    && t.id != NIL_ID && t.user != NIL_ID && t.family != NIL_ID
    && t.expiresAt > t.createdAt && (t.rotatedTo.None? <==> t.rotatedAt.None?)
  }

  datatype Usability = Usable | Replayed | Revoked | Expired

  /** A replay is reported as one even when the token has also been revoked or has expired. */
  function Judge(t: Token, now: Time): Usability {
    if t.rotatedAt.Some? then Replayed
    else if t.revokedAt.Some? then Revoked
    else if now > t.expiresAt then Expired
    else Usable
  }

  function Minted(id: Id, user: UserId, family: FamilyId, now: Time, ttl: Time): Token {
    Token(id, user, family, now, now + ttl, None, None, None)
  }

  /** The token table, by id. Its unique constraint refuses a second row with the same id. */
  type Table = map<Id, Token>

  function Created(t: Table, token: Token): Table {
    if Valid(token) && token.id !in t then t[token.id := token] else t
  }

  datatype Rotation = Rotated | Refused | LostRace

  function RotationOutcome(t: Table, prior: Id, next: Token): Rotation {
    if !Valid(next) || next.id in t then Refused
    else if prior in t && t[prior].rotatedAt.None? then Rotated
    else LostRace
  }

  /** Both rows or neither. The guard looks only at rotation, not at revocation. */
  function AfterRotation(t: Table, prior: Id, next: Token): Table {
    if RotationOutcome(t, prior, next) != Rotated then t
    else t[next.id := next][prior := t[prior].(rotatedTo := Some(next.id), rotatedAt := Some(next.createdAt))]
  }

  function Mark(token: Token, at: Time): Token {
    if token.revokedAt.None? then token.(revokedAt := Some(at)) else token
  }

  function FamilyRevoked(t: Table, family: FamilyId, at: Time): Table {
    map id | id in t :: if t[id].family == family then Mark(t[id], at) else t[id]
  }

  function UserRevoked(t: Table, user: UserId, at: Time): Table {
    map id | id in t :: if t[id].user == user then Mark(t[id], at) else t[id]
  }

  function TokenRevoked(t: Table, id: Id, at: Time): Table {
    if id in t then t[id := Mark(t[id], at)] else t
  }

  /** Exactly these tokens are now revoked: at this time, unless they already were; nothing else changed. */
  ghost predicate Stamped(t: Table, t': Table, ids: set<Id>, at: Time) {
    && t'.Keys == t.Keys
    && (forall id | id in t && id in ids && t[id].revokedAt.None? :: t'[id] == t[id].(revokedAt := Some(at)))
    && (forall id | id in t && (id !in ids || t[id].revokedAt.Some?) :: t'[id] == t[id])
  }

  function InFamily(t: Table, family: FamilyId): set<Id> {
    set id | id in t && t[id].family == family
  }

  function OfUser(t: Table, user: UserId): set<Id> {
    set id | id in t && t[id].user == user
  }

  // ---- the repository and the service ----

  class SessionRepo {
    var table: Table

    method Create(token: Token) returns (ok: bool)
      modifies this
      ensures table == Created(old(table), token) && (ok <==> Valid(token) && token.id !in old(table))
      ensures table == if ok then old(table)[token.id := token] else old(table)
    {
      if !Valid(token) || token.id in table {
        return false;
      }
      table := table[token.id := token];
      ok := true;
    }

    method Rotate(prior: Id, next: Token) returns (outcome: Rotation)
      modifies this
      ensures outcome == RotationOutcome(old(table), prior, next)
      ensures table == AfterRotation(old(table), prior, next)
      ensures outcome == Rotated ==>
                && prior in old(table) && old(table)[prior].rotatedAt.None? && next.id !in old(table)
                && table == old(table)[next.id := next]
                                      [prior := old(table)[prior].(rotatedTo := Some(next.id),
                                                                   rotatedAt := Some(next.createdAt))]
      ensures outcome != Rotated ==> table == old(table)
    {
      if !Valid(next) {
        return Refused;
      }
      var before := table;
      if next.id in table {
        return Refused;
      }
      table := table[next.id := next];
      if prior !in table || table[prior].rotatedAt.Some? || prior == next.id {
        table := before;      // rolled back, replacement and all
        return LostRace;
      }
      table := table[prior := table[prior].(rotatedTo := Some(next.id), rotatedAt := Some(next.createdAt))];
      outcome := Rotated;
    }

    method RevokeFamily(family: FamilyId, at: Time)
      modifies this
      ensures table == FamilyRevoked(old(table), family, at)
      ensures Stamped(old(table), table, InFamily(old(table), family), at)
    {
      table := map id | id in table :: if table[id].family == family then Mark(table[id], at) else table[id];
    }

    method RevokeAllForUser(user: UserId, at: Time)
      modifies this
      ensures table == UserRevoked(old(table), user, at)
      ensures Stamped(old(table), table, OfUser(old(table), user), at)
    {
      table := map id | id in table :: if table[id].user == user then Mark(table[id], at) else table[id];
    }

    method Revoke(id: Id, at: Time)
      modifies this
      ensures table == TokenRevoked(old(table), id, at)
      ensures Stamped(old(table), table, {id}, at)
    {
      if id in table {
        table := table[id := Mark(table[id], at)];
      }
    }
  }

  /** What a Refresh has decided once it has read the presented token. */
  datatype Pending =
    | Nothing
    | Rotating(prior: Id, user: UserId, family: FamilyId)
    | RevokingFamily(family: FamilyId)
    | RevokingUser(user: UserId)

  function Decide(t: Table, presented: Id, now: Time, active: bool): Pending {
    if presented !in t then Nothing
    else match Judge(t[presented], now)
      case Replayed => RevokingFamily(t[presented].family)
      case Usable =>
        if active then Rotating(presented, t[presented].user, t[presented].family)
        else RevokingUser(t[presented].user)
      case _ => Nothing
  }

  /** The one write that follows. `fails` is a store that cannot be reached. */
  function Conclude(t: Table, p: Pending, newId: Id, now: Time, ttl: Time, fails: bool): Table {
    if fails then t
    else match p
      case Nothing => t
      case Rotating(prior, user, family) => AfterRotation(t, prior, Minted(newId, user, family, now, ttl))
      case RevokingFamily(family) => FamilyRevoked(t, family, now)
      case RevokingUser(user) => UserRevoked(t, user, now)
  }

  /** The token exists, was neither rotated nor revoked, and has not expired. */
  predicate Redeemable(t: Table, id: Id, now: Time) {
    id in t && t[id].rotatedAt.None? && t[id].revokedAt.None? && now <= t[id].expiresAt
  }

  /** One whole refresh. `active` is the user's state, `fails` whether the write reaches the store. */
  method Refresh(repo: SessionRepo, presented: Id, newId: Id, now: Time, ttl: Time, active: bool, fails: bool)
      returns (issued: Option<Token>)
    modifies repo
    ensures repo.table ==
            Conclude(old(repo.table), Decide(old(repo.table), presented, now, active), newId, now, ttl, fails)
    ensures issued.Some? <==>
              && Redeemable(old(repo.table), presented, now) && active && !fails
              && newId != NIL_ID && newId !in old(repo.table) && ttl > 0
              && old(repo.table)[presented].user != NIL_ID && old(repo.table)[presented].family != NIL_ID
    ensures issued.Some? ==>
              var rec := old(repo.table)[presented];
              && issued.value == Token(newId, rec.user, rec.family, now, now + ttl, None, None, None)
              && repo.table == old(repo.table)[newId := issued.value]
                                              [presented := rec.(rotatedTo := Some(newId), rotatedAt := Some(now))]
    ensures presented in old(repo.table) && old(repo.table)[presented].rotatedAt.Some? && !fails ==>
              Stamped(old(repo.table), repo.table,
                      InFamily(old(repo.table), old(repo.table)[presented].family), now)
    ensures Redeemable(old(repo.table), presented, now) && !active && !fails ==>
              Stamped(old(repo.table), repo.table,
                      OfUser(old(repo.table), old(repo.table)[presented].user), now)
    ensures fails || presented !in old(repo.table)
            || (old(repo.table)[presented].rotatedAt.None? && !Redeemable(old(repo.table), presented, now)) ==>
              repo.table == old(repo.table)
  {
    if presented !in repo.table {
      return None;
    }
    var rec := repo.table[presented];
    var state := Judge(rec, now);
    if state != Usable {
      if state == Replayed && !fails {
        repo.RevokeFamily(rec.family, now);
      }
      return None;
    }
    if !active {
      if !fails { repo.RevokeAllForUser(rec.user, now); }
      return None;
    }
    var next := Minted(newId, rec.user, rec.family, now, ttl);
    if fails {
      return None;
    }
    var outcome := repo.Rotate(presented, next);
    issued := if outcome == Rotated then Some(next) else None;
  }
}

/** Token families under any interleaving of logins, refreshes, logouts and revocations. */
module SessionRuns {
  import opened Prelude
  import opened Sessions

  /** `workers` are refreshes between their read and their write. */
  datatype State = State(table: Table, workers: map<nat, Pending>)

  datatype Action =
    | Login(id: Id, user: UserId, family: FamilyId, now: Time, ttl: Time)
    | Read(w: nat, presented: Id, now: Time, active: bool)
    | Write(w: nat, newId: Id, now: Time, ttl: Time, fails: bool)
    | Logout(id: Id, now: Time)
    | LogoutAll(user: UserId, now: Time)

  predicate FamilyUsed(t: Table, family: FamilyId) {
    exists id | id in t :: t[id].family == family
  }

  /** A login draws a family nobody has; a refresh is read once and written once. */
  predicate Enabled(s: State, a: Action) {
    match a
    case Login(_, _, family, _, _) =>
      && !FamilyUsed(s.table, family)
      && forall w | w in s.workers && s.workers[w].Rotating? :: s.workers[w].family != family
    case Read(w, _, _, _) => w !in s.workers
    case Write(w, _, _, _, _) => w in s.workers
    case _ => true
  }

  function Do(s: State, a: Action): State {
    match a
    case Login(id, user, family, now, ttl) => s.(table := Created(s.table, Minted(id, user, family, now, ttl)))
    case Read(w, presented, now, active) => s.(workers := s.workers[w := Decide(s.table, presented, now, active)])
    case Write(w, newId, now, ttl, fails) =>
      if w !in s.workers then s
      else State(Conclude(s.table, s.workers[w], newId, now, ttl, fails), s.workers - {w})
    case Logout(id, now) => s.(table := TokenRevoked(s.table, id, now))
    case LogoutAll(user, now) => s.(table := UserRevoked(s.table, user, now))
  }

  function Step(s: State, a: Action): State {
    if Enabled(s, a) then Do(s, a) else s
  }

  function Run(s: State, actions: seq<Action>): State
    decreases |actions|
  {
    if actions == [] then s else Run(Step(s, actions[0]), actions[1..])
  }

  // ---- one chain per family ----

  function Next(chain: seq<Id>, i: nat): Option<Id> {
    if i + 1 < |chain| then Some(chain[i + 1]) else None
  }

  /** The family's tokens, oldest first: each was rotated to the next, and only the last is not rotated. */
  ghost predicate IsChain(t: Table, family: FamilyId, chain: seq<Id>) {
    && (forall i | 0 <= i < |chain| :: chain[i] in t && t[chain[i]].family == family)
    && (forall id | id in t && t[id].family == family :: id in chain)
    && (forall i, j | 0 <= i < j < |chain| :: chain[i] != chain[j])
    && (forall i {:trigger Next(chain, i)} | 0 <= i < |chain| :: t[chain[i]].rotatedTo == Next(chain, i))
  }

  ghost predicate HasChain(t: Table, family: FamilyId) {
    exists chain :: IsChain(t, family, chain)
  }

  ghost predicate Sound(s: State) {
    && (forall id | id in s.table :: s.table[id].id == id && Valid(s.table[id]))
    && (forall family :: HasChain(s.table, family))
    && (forall w | w in s.workers && s.workers[w].Rotating? ::
          s.workers[w].prior in s.table && s.table[s.workers[w].prior].family == s.workers[w].family &&
          s.table[s.workers[w].prior].user == s.workers[w].user)
  }

  /** Same tokens, same families, same rotations: same chains. */
  lemma SameChains(t: Table, t': Table)
    requires t.Keys == t'.Keys
    requires forall id | id in t :: t'[id].family == t[id].family && t'[id].rotatedTo == t[id].rotatedTo
    requires forall family :: HasChain(t, family)
    ensures forall family :: HasChain(t', family)
  {
    forall family ensures HasChain(t', family) {
      assert HasChain(t, family);
      var chain :| IsChain(t, family, chain);
      assert IsChain(t', family, chain);
    }
  }

  lemma CreatedKeepsChains(t: Table, token: Token)
    requires forall family :: HasChain(t, family)
    requires !FamilyUsed(t, token.family) && token.rotatedTo == None && token.id !in t
    ensures var t' := t[token.id := token]; forall family :: HasChain(t', family)
  {
    var t' := t[token.id := token];
    forall family ensures HasChain(t', family) {
      if family == token.family {
        assert IsChain(t', family, [token.id]);
      } else {
        assert HasChain(t, family);
        var chain :| IsChain(t, family, chain);
        assert IsChain(t', family, chain);
      }
    }
  }

  lemma RotationKeepsChains(t: Table, prior: Id, next: Token)
    requires forall family :: HasChain(t, family)
    requires forall id | id in t :: Valid(t[id])
    requires RotationOutcome(t, prior, next) == Rotated && next.rotatedTo == None && next.family == t[prior].family
    ensures var t' := AfterRotation(t, prior, next); forall family :: HasChain(t', family)
  {
    var t' := AfterRotation(t, prior, next);
    forall family ensures HasChain(t', family) {
      assert HasChain(t, family);
      var chain :| IsChain(t, family, chain);
      if family == next.family {
        RotationExtendsTheChain(t, prior, next, chain);
      } else {
        assert IsChain(t', family, chain);
      }
    }
  }

  lemma RotationExtendsTheChain(t: Table, prior: Id, next: Token, chain: seq<Id>)
    requires RotationOutcome(t, prior, next) == Rotated && next.rotatedTo == None && next.family == t[prior].family
    requires Valid(t[prior]) && IsChain(t, next.family, chain)
    ensures IsChain(AfterRotation(t, prior, next), next.family, chain + [next.id])
  {
    var t', longer := AfterRotation(t, prior, next), chain + [next.id];
    TipIsLast(t, next.family, chain, prior);
    forall i | 0 <= i < |longer| ensures t'[longer[i]].rotatedTo == Next(longer, i) {
      if i < |chain| { assert t[chain[i]].rotatedTo == Next(chain, i); }
    }
  }

  /** The only unrotated token of a family is the last of its chain. */
  lemma TipIsLast(t: Table, family: FamilyId, chain: seq<Id>, id: Id)
    requires IsChain(t, family, chain) && id in t && t[id].family == family && t[id].rotatedTo == None
    ensures chain != [] && chain[|chain| - 1] == id
  {
    var i :| 0 <= i < |chain| && chain[i] == id;
    assert t[chain[i]].rotatedTo == Next(chain, i);
  }

  lemma StepKeepsSound(s: State, a: Action)
    requires Sound(s)
    ensures Sound(Step(s, a))
  {
    var s' := Step(s, a);
    if s'.table.Keys == s.table.Keys && (forall id | id in s.table :: s'.table[id].rotatedTo == s.table[id].rotatedTo) {
      SameChains(s.table, s'.table);
    } else if a.Login? {
      CreatedKeepsChains(s.table, Minted(a.id, a.user, a.family, a.now, a.ttl));
    } else {
      var p := s.workers[a.w];
      RotationKeepsChains(s.table, p.prior, Minted(a.newId, p.user, p.family, a.now, a.ttl));
    }
  }

  const NOBODY := State(map[], map[])

  /** In every interleaving each family is one acyclic chain with one unrotated token at its end. */
  lemma {:induction false} EveryRunIsSound(s: State, actions: seq<Action>)
    requires Sound(s)
    ensures Sound(Run(s, actions))
    decreases |actions|
  {
    if actions != [] {
      StepKeepsSound(s, actions[0]);
      EveryRunIsSound(Step(s, actions[0]), actions[1..]);
    }
  }

  lemma NobodyIsSound()
    ensures Sound(NOBODY)
  {
    forall family ensures HasChain(map[], family) { assert IsChain(map[], family, []); }
  }

  lemma OneUnrotatedToken(s: State, a: Id, b: Id)
    requires Sound(s) && a in s.table && b in s.table && s.table[a].family == s.table[b].family
    requires s.table[a].rotatedAt.None? && s.table[b].rotatedAt.None?
    ensures a == b
  {
    var family := s.table[a].family;
    assert HasChain(s.table, family);
    var chain :| IsChain(s.table, family, chain);
    TipIsLast(s.table, family, chain, a);
    TipIsLast(s.table, family, chain, b);
  }

  // ---- revocation ----

  /** Every token of the family is revoked: none can be redeemed. */
  ghost predicate Dead(t: Table, family: FamilyId) {
    forall id | id in t && t[id].family == family :: t[id].revokedAt.Some?
  }

  lemma DeadMeansUnusable(t: Table, id: Id, now: Time)
    requires id in t && Dead(t, t[id].family)
    ensures Judge(t[id], now) != Usable
  {
  }

  /** The family has the same tokens in the same state: none added, none rotated again. */
  ghost predicate Frozen(t: Table, t': Table, family: FamilyId) {
    && (forall id | id in t && t[id].family == family :: id in t' && t'[id] == t[id])
    && (forall id | id in t' && t'[id].family == family :: id in t && t[id].family == family)
  }

  /** A refresh that has already read the family's newest token and not yet written. */
  ghost predicate InFlight(s: State, family: FamilyId) {
    exists w :: w in s.workers && Holds(s, s.workers[w], family)
  }

  ghost predicate Holds(s: State, p: Pending, family: FamilyId) {
    p.Rotating? && p.family == family && p.prior in s.table && s.table[p.prior].rotatedAt.None?
  }

  lemma StepFreezesDead(s: State, a: Action, family: FamilyId)
    requires Sound(s) && FamilyUsed(s.table, family) && Dead(s.table, family) && !InFlight(s, family)
    ensures var s' := Step(s, a); Dead(s'.table, family) && Frozen(s.table, s'.table, family)
  {
    var s' := Step(s, a);
    if a.Write? && a.w in s.workers { assert !Holds(s, s.workers[a.w], family); }
    forall x | x in s'.table && s'.table[x].family == family ensures s'.table[x].revokedAt.Some? {
      if x in s.table { assert s.table[x].family == family; }
    }
  }

  lemma StepKeepsDead(s: State, a: Action, family: FamilyId)
    requires Sound(s) && FamilyUsed(s.table, family) && Dead(s.table, family) && !InFlight(s, family)
    ensures var s' := Step(s, a); FamilyUsed(s'.table, family) && Dead(s'.table, family) && !InFlight(s', family)
    ensures Frozen(s.table, Step(s, a).table, family)
  {
    var s' := Step(s, a);
    StepFreezesDead(s, a, family);
    var id :| id in s.table && s.table[id].family == family;
    assert id in s'.table && s'.table[id].family == family;
    forall w | w in s'.workers ensures !Holds(s', s'.workers[w], family) {
      if w in s.workers && s'.workers[w] == s.workers[w] { assert !Holds(s, s.workers[w], family); }
    }
  }

  lemma {:induction false} RunKeepsDead(s: State, actions: seq<Action>, family: FamilyId)
    requires Sound(s) && FamilyUsed(s.table, family) && Dead(s.table, family) && !InFlight(s, family)
    ensures Dead(Run(s, actions).table, family) && Frozen(s.table, Run(s, actions).table, family)
    decreases |actions|
  {
    if actions != [] {
      StepKeepsSound(s, actions[0]);
      StepKeepsDead(s, actions[0], family);
      RunKeepsDead(Step(s, actions[0]), actions[1..], family);
    }
  }

  ghost predicate StaysDead(s: State, family: FamilyId) {
    forall actions :: Dead(Run(s, actions).table, family) && Frozen(s.table, Run(s, actions).table, family)
  }

  /** Once revoked, a family stays dead in every continuation exactly when no refresh of it was
      already in flight: the rotation guard does not look at revocation. */
  lemma RevocationHoldsExactlyWhen(s: State, family: FamilyId, at: Time)
    requires Sound(s) && FamilyUsed(s.table, family)
    ensures StaysDead(s.(table := FamilyRevoked(s.table, family, at)), family) <==> !InFlight(s, family)
  {
    var s' := s.(table := FamilyRevoked(s.table, family, at));
    SameChains(s.table, s'.table);
    if InFlight(s, family) {
      var w :| w in s.workers && Holds(s, s.workers[w], family);
      var newId := Unused(s'.table);
      var write := Write(w, newId, at, 1, false);
      assert Run(s', [write]) == Step(s', write) by { assert [write][1..] == []; }
      assert Holds(s', s'.workers[w], family);
      InFlightRefreshRevives(s', w, newId, at, family);
      assert !Dead(Run(s', [write]).table, family);
    } else {
      var id :| id in s.table && s.table[id].family == family;
      assert id in s'.table && s'.table[id].family == family;
      assert !InFlight(s', family) by {
        forall w | w in s'.workers ensures !Holds(s', s'.workers[w], family) { assert !Holds(s, s.workers[w], family); }
      }
      forall actions ensures Dead(Run(s', actions).table, family) && Frozen(s'.table, Run(s', actions).table, family) {
        RunKeepsDead(s', actions, family);
      }
    }
  }

  /** With each refresh one uninterrupted step, presenting a rotated token ends its family: from
      then on none of its tokens is usable and none is rotated again, whatever follows. */
  lemma ReplayEndsTheFamily(
      s: State, w: nat, presented: Id, now: Time, active: bool, newId: Id, at: Time, ttl: Time)
    requires Sound(s) && s.workers == map[] && presented in s.table && s.table[presented].rotatedAt.Some?
    ensures StaysDead(Run(s, [Read(w, presented, now, active), Write(w, newId, at, ttl, false)]),
                      s.table[presented].family)
  {
    var family := s.table[presented].family;
    var read, write := Read(w, presented, now, active), Write(w, newId, at, ttl, false);
    var s' := Step(Step(s, read), write);
    assert [read, write][1..] == [write] && [write][1..] == [];
    assert Run(s, [read, write]) == Run(Step(s, read), [write]) == s';
    assert s'.table == FamilyRevoked(s.table, family, at) && s'.workers == s.workers;
    RevocationHoldsExactlyWhen(s, family, at);
    assert s' == s.(table := FamilyRevoked(s.table, family, at));
  }

  lemma InFlightRefreshRevives(s: State, w: nat, newId: Id, at: Time, family: FamilyId)
    requires Sound(s) && w in s.workers && Holds(s, s.workers[w], family) && newId != NIL_ID && newId !in s.table
    ensures !Dead(Step(s, Write(w, newId, at, 1, false)).table, family)
  {
    var p := s.workers[w];
    assert Valid(s.table[p.prior]);
    var s' := Step(s, Write(w, newId, at, 1, false));
    assert newId in s'.table;
  }

  ghost function Unused(t: Table): (id: Id)
    ensures id != NIL_ID && id !in t
  {
    AboveAll(t.Keys)
  }

  ghost function AboveAll(ids: set<Id>): (id: Id)
    ensures id != NIL_ID && forall x | x in ids :: x < id
  {
    if ids == {} then 1
    else
      var x :| x in ids;
      var rest := AboveAll(ids - {x});
      assert forall y | y in ids :: y == x || y in ids - {x};
      if x < rest then rest else x + 1
  }

  // ---- expiry ----

  lemma {:induction false} RunOneMore(s: State, actions: seq<Action>, a: Action)
    ensures Run(s, actions + [a]) == Step(Run(s, actions), a)
    decreases |actions|
  {
    if actions == [] {
      assert ([] + [a])[1..] == [];
      assert [] + [a] == [a];
    } else {
      assert (actions + [a])[1..] == actions[1..] + [a];
      RunOneMore(Step(s, actions[0]), actions[1..], a);
    }
  }

  /** Action i read this token for an active user while it could still be redeemed. */
  ghost predicate TimelyRead(actions: seq<Action>, i: int, w: nat, id: Id) {
    && 0 <= i < |actions| && actions[i].Read? && actions[i].w == w && actions[i].presented == id && actions[i].active
    && Redeemable(Run(NOBODY, actions[..i]).table, id, actions[i].now)
  }

  /** A refresh that read this token in time and wrote later. */
  ghost predicate TimelyRefresh(actions: seq<Action>, i: int, j: int, w: nat, id: Id) {
    TimelyRead(actions, i, w, id) && i < j < |actions| && actions[j].Write? && actions[j].w == w
  }

  ghost predicate Explained(actions: seq<Action>, s: State) {
    && (forall w | w in s.workers && s.workers[w].Rotating? ::
          exists i :: TimelyRead(actions, i, w, s.workers[w].prior))
    && (forall id | id in s.table && s.table[id].rotatedAt.Some? ::
          exists i, j, w :: TimelyRefresh(actions, i, j, w, id))
  }

  lemma ReadsExtend(actions: seq<Action>, a: Action)
    ensures forall i, w, id :: TimelyRead(actions, i, w, id) ==> TimelyRead(actions + [a], i, w, id)
    ensures forall i, j, w, id :: TimelyRefresh(actions, i, j, w, id) ==> TimelyRefresh(actions + [a], i, j, w, id)
  {
    var more := actions + [a];
    forall i | 0 <= i < |actions| ensures more[..i] == actions[..i] && more[i] == actions[i] {}
  }

  lemma StepIsExplained(actions: seq<Action>, a: Action)
    requires Explained(actions, Run(NOBODY, actions))
    ensures Explained(actions + [a], Step(Run(NOBODY, actions), a))
  {
    var s, more, n := Run(NOBODY, actions), actions + [a], |actions|;
    var s' := Step(s, a);
    ReadsExtend(actions, a);
    assert more[..n] == actions && more[n] == a;
    forall w | w in s'.workers && s'.workers[w].Rotating?
      ensures exists i :: TimelyRead(more, i, w, s'.workers[w].prior)
    {
      if !(w in s.workers && s'.workers[w] == s.workers[w]) {
        assert TimelyRead(more, n, w, s'.workers[w].prior);
      }
    }
    forall id | id in s'.table && s'.table[id].rotatedAt.Some?
      ensures exists i, j, w :: TimelyRefresh(more, i, j, w, id)
    {
      if !(id in s.table && s.table[id].rotatedAt.Some?) {
        var i :| TimelyRead(actions, i, a.w, s.workers[a.w].prior);
        assert TimelyRefresh(more, i, n, a.w, id);
      }
    }
  }

  lemma {:induction false} RunIsExplained(actions: seq<Action>)
    ensures Explained(actions, Run(NOBODY, actions))
  {
    if actions != [] {
      var front, a := actions[..|actions| - 1], actions[|actions| - 1];
      assert actions == front + [a];
      RunIsExplained(front);
      StepIsExplained(front, a);
      RunOneMore(NOBODY, front, a);
    }
  }

  /** In every interleaving a token is rotated only by a refresh that read it no later than its expiry,
      when it was neither rotated nor revoked, for an active user. */
  lemma RotatedOnlyByATimelyRefresh(actions: seq<Action>, id: Id)
    requires id in Run(NOBODY, actions).table && Run(NOBODY, actions).table[id].rotatedAt.Some?
    ensures exists i, j, w :: TimelyRefresh(actions, i, j, w, id)
  {
    RunIsExplained(actions);
  }

  /** And a refresh that meets those conditions, read and written without interruption, does rotate it. */
  lemma TimelyRefreshRotates(s: State, w: nat, id: Id, now: Time, newId: Id, at: Time, ttl: Time)
    requires Sound(s) && w !in s.workers && Redeemable(s.table, id, now)
    requires newId != NIL_ID && newId !in s.table && ttl > 0
    ensures var t := Run(s, [Read(w, id, now, true), Write(w, newId, at, ttl, false)]).table;
            && id in t && t[id].rotatedTo == Some(newId) && t[id].rotatedAt == Some(at)
            && newId in t && Redeemable(t, newId, at + ttl) && t[newId].family == s.table[id].family
  {
    var read, write := Read(w, id, now, true), Write(w, newId, at, ttl, false);
    assert [read, write][1..] == [write] && [write][1..] == [];
    assert Run(s, [read, write]) == Run(Step(s, read), [write]) == Step(Step(s, read), write);
    assert Valid(s.table[id]);
  }

  /** A login that draws new ids stores a token that can be redeemed until it expires. */
  lemma LoginStoresAToken(s: State, id: Id, user: UserId, family: FamilyId, now: Time, ttl: Time, later: Time)
    requires Enabled(s, Login(id, user, family, now, ttl))
    requires id !in s.table && id != NIL_ID && user != NIL_ID && family != NIL_ID && ttl > 0
    ensures var t := Step(s, Login(id, user, family, now, ttl)).table;
            && id in t && t[id].user == user && t[id].family == family
            && (Redeemable(t, id, later) <==> later <= now + ttl)
            && forall x | x in s.table :: x in t && t[x] == s.table[x]
  {
  }

  // ---- logging out ----

  /** A revoked token stays revoked, and so can never be redeemed. */
  lemma {:induction false} RevokedIsForever(s: State, actions: seq<Action>, id: Id)
    requires Sound(s) && id in s.table && s.table[id].revokedAt.Some?
    ensures var t := Run(s, actions).table;
            && id in t && t[id].revokedAt == s.table[id].revokedAt && forall now :: !Redeemable(t, id, now)
    decreases |actions|
  {
    if actions != [] {
      StepKeepsSound(s, actions[0]);
      RevokedIsForever(Step(s, actions[0]), actions[1..], id);
    }
  }

  /** After a logout the token can never be redeemed again, whatever follows and whenever it is tried. */
  lemma LoggedOutForGood(s: State, id: Id, at: Time, actions: seq<Action>, now: Time)
    requires Sound(s) && id in s.table
    ensures !Redeemable(Run(Step(s, Logout(id, at)), actions).table, id, now)
  {
    StepKeepsSound(s, Logout(id, at));
    RevokedIsForever(Step(s, Logout(id, at)), actions, id);
  }

  /** After logging out everywhere, none of the user's tokens can, and no other user's is touched. */
  lemma LoggedOutEverywhere(s: State, user: UserId, at: Time, actions: seq<Action>, id: Id, now: Time)
    requires Sound(s) && id in s.table
    ensures s.table[id].user == user ==> !Redeemable(Run(Step(s, LogoutAll(user, at)), actions).table, id, now)
    ensures s.table[id].user != user ==> Step(s, LogoutAll(user, at)).table[id] == s.table[id]
  {
    StepKeepsSound(s, LogoutAll(user, at));
    if s.table[id].user == user { RevokedIsForever(Step(s, LogoutAll(user, at)), actions, id); }
  }
}
