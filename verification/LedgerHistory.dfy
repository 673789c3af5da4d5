/** Rows built from contents appended one after the other, and when they verify. */
module LedgerHistory {
  import opened Prelude
  import opened LedgerEncoding
  import opened LedgerChain
  import opened LedgerStore

  /** The rows that appending these contents one after the other leaves. */
  function Built<C(!new)>(s: Scheme<C>, xs: seq<C>): seq<Entry<C>> {
    if xs == [] then [] else Grow(s, Built(s, xs[..|xs| - 1]), xs[|xs| - 1])
  }

  lemma BuiltGrows<C(!new)>(s: Scheme<C>, xs: seq<C>, x: C)
    ensures Built(s, xs + [x]) == Grow(s, Built(s, xs), x)
  {
    assert (xs + [x])[..|xs|] == xs;
  }

  /** Storing and hashing each content does not make two different strings collide. */
  ghost predicate NoStorageCollisions<C(!new)>(s: Scheme<C>, xs: seq<C>) {
    forall i | 0 <= i < |xs| :: NoStorageCollision(s, xs[i], i + 1, HeadHash(Built(s, xs[..i])))
  }

  ghost predicate NoStorageCollision<C(!new)>(s: Scheme<C>, x: C, seqNo: int, prev: Bytes) {
    NoCollision(s.sha, s.encode(prev, seqNo, x), s.encode(prev, seqNo, s.stored(x)))
  }

  lemma GrownIsSoundExactlyWhen<C(!new)>(s: Scheme<C>, rows: seq<Entry<C>>, x: C)
    ensures Sound(s, Grow(s, rows, x)) <==>
            Sound(s, rows) && Links(s, HeadHash(rows), Linked(s, x, |rows| + 1, HeadHash(rows)))
  {
    var more := Grow(s, rows, x);
    if Sound(s, more) {
      FrontIsSound(s, more, |rows|);
      assert more[..|rows|] == rows && Before(more, [], |rows|) == HeadHash(rows);
    }
    if Sound(s, rows) && Links(s, HeadHash(rows), Linked(s, x, |rows| + 1, HeadHash(rows))) {
      forall i | 0 <= i < |more| ensures more[i].seqNo == i + 1 && Links(s, Before(more, [], i), more[i]) {
        if i < |rows| { assert Links(s, Before(rows, [], i), rows[i]); }
      }
    }
  }

  /** Appended contents leave a sound ledger exactly when storage keeps every one of them. */
  lemma {:induction false} BuiltIsSoundExactlyWhen<C(!new)>(s: Scheme<C>, xs: seq<C>)
    requires s.Faithful() && Int64(|xs|) && NoStorageCollisions(s, xs)
    ensures |Built(s, xs)| == |xs|
    ensures Sound(s, Built(s, xs)) <==> forall x | x in xs :: Kept(s, x)
  {
    if xs != [] {
      var front, x := xs[..|xs| - 1], xs[|xs| - 1];
      forall i | 0 <= i < |front| ensures NoStorageCollision(s, front[i], i + 1, HeadHash(Built(s, front[..i]))) {
        assert front[..i] == xs[..i] && NoStorageCollision(s, xs[i], i + 1, HeadHash(Built(s, xs[..i])));
      }
      BuiltIsSoundExactlyWhen(s, front);
      var rows := Built(s, front);
      GrownIsSoundExactlyWhen(s, rows, x);
      assert NoStorageCollision(s, x, |xs|, HeadHash(rows));
      RowSurvivesStorage(s, x, |xs|, HeadHash(rows));
      assert xs == front + [x];
    }
  }

  /** Checking the whole ledger finds it intact exactly when it is sound. */
  lemma WholeCheckDecides<C(!new)>(s: Scheme<C>, xs: seq<C>, v: Verification)
    requires |Built(s, xs)| == |xs| && Numbered(Built(s, xs)) && Answers(s, TableOf(Built(s, xs)), 1, |xs|, v)
    ensures v.Intact? <==> Sound(s, Built(s, xs))
  {
    var rows := Built(s, xs);
    if Sound(s, rows) { EveryRangeIsIntact(s, rows, 1, |xs|, v); }
    if v.Intact? {
      RangeOfRows(rows, 1, |xs|);
      AnchorOfRows(rows, 1);
      if xs == [] { assert rows == []; } else { assert rows[0..|xs|] == rows; }
    }
  }

  ghost predicate Numbered<C(!new)>(rows: seq<Entry<C>>) {
    forall i | 0 <= i < |rows| :: rows[i].seqNo == i + 1
  }

  lemma {:induction false} BuiltIsNumbered<C(!new)>(s: Scheme<C>, xs: seq<C>)
    ensures |Built(s, xs)| == |xs| && Numbered(Built(s, xs))
  {
    if xs != [] { BuiltIsNumbered(s, xs[..|xs| - 1]); }
  }
}
