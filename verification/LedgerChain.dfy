/** Walking the hash chain, and what an accepted walk proves. Nothing here depends on what an
    entry says, only on the encoding saying it without ambiguity. */
module LedgerChain {
  import opened LedgerEncoding

  /** An entry: its number, what it says, and the two hashes that place it. */
  datatype Entry<C(!new)> = Entry(seqNo: int, content: C, prevHash: Bytes, hash: Bytes)

  /** A hash, the byte string it is given, the committed form of a content, and its form once stored. */
  datatype Scheme<!C(!new)> = Scheme(
    sha: Bytes -> Digest, encode: (Bytes, int, C) -> Bytes, committed: C -> C, stored: C -> C)
  {
    function Hash(prev: Bytes, seqNo: int, x: C): Digest {
      sha(encode(prev, seqNo, x))
    }

    /** The encoding says its predecessor, its number and its committed content, and nothing else. */
    ghost predicate Faithful() {
      DependsOnCommitted() && Unambiguous()
    }

    ghost predicate DependsOnCommitted() {
      forall p, n, x, y {:trigger encode(p, n, x), encode(p, n, y)} ::
        committed(x) == committed(y) ==> encode(p, n, x) == encode(p, n, y)
    }

    ghost predicate Unambiguous() {
      forall p, m, x, q, n, y {:trigger encode(p, m, x), encode(q, n, y)} :: TellsApart(p, m, x, q, n, y)
    }

    ghost predicate TellsApart(p: Bytes, m: int, x: C, q: Bytes, n: int, y: C) {
      |p| == |q| && Int64(m) && Int64(n) && encode(p, m, x) == encode(q, n, y) ==>
      p == q && m == n && committed(x) == committed(y)
    }
  }

  function LedgerScheme(c: Codec): Scheme<Content> {
    Scheme(c.sha, (p, n, x) => Encode(c, p, n, x), x => Committed(x), x => Stored(x))
  }

  lemma LedgerSchemeDependsOnCommitted(c: Codec)
    ensures LedgerScheme(c).DependsOnCommitted()
  {
    var s := LedgerScheme(c);
    forall p, n, x, y | s.committed(x) == s.committed(y) ensures s.encode(p, n, x) == s.encode(p, n, y) {
      SameContentSameEncoding(c, p, n, x, y);
    }
  }

  lemma LedgerSchemeIsFaithful(c: Codec)
    requires StampsDiffer(c)
    ensures LedgerScheme(c).Faithful()
  {
    LedgerSchemeDependsOnCommitted(c);
    LedgerSchemeIsUnambiguous(c);
  }

  lemma LedgerSchemeIsUnambiguous(c: Codec)
    requires StampsDiffer(c)
    ensures LedgerScheme(c).Unambiguous()
  {
    var s := LedgerScheme(c);
    forall p, m, x, q, n, y ensures s.TellsApart(p, m, x, q, n, y) {
      LedgerSchemeTellsApart(c, s, p, m, x, q, n, y);
    }
  }

  lemma LedgerSchemeTellsApart(c: Codec, s: Scheme<Content>, p: Bytes, m: int, x: Content, q: Bytes, n: int, y: Content)
    requires StampsDiffer(c) && s == LedgerScheme(c)
    ensures s.TellsApart(p, m, x, q, n, y)
  {
    if |p| == |q| && Int64(m) && Int64(n) && s.encode(p, m, x) == s.encode(q, n, y) {
      EncodingIsUnambiguous(c, p, m, x, q, n, y);
    }
  }

  /** The chain's hash is the one the program computes field by field. */
  method EntryHash(c: Codec, prev: Bytes, seqNo: int, x: Content) returns (h: Digest)
    ensures h == LedgerScheme(c).Hash(prev, seqNo, x)
  {
    h := ComputeHash(c, prev, seqNo, x);
  }

  // ---- the walk ----

  datatype Why = Altered | MissingRow

  datatype Verification = Intact(checked: nat) | Broken(checked: nat, at: int, why: Why)

  ghost predicate Links<C(!new)>(s: Scheme<C>, prev: Bytes, e: Entry<C>) {
    e.hash == s.Hash(prev, e.seqNo, e.content) && e.prevHash == prev
  }

  function Before<C(!new)>(entries: seq<Entry<C>>, start: Bytes, i: nat): Bytes
    requires i <= |entries|
  {
    if i == 0 then start else entries[i - 1].hash
  }

  ghost predicate LinkedUpTo<C(!new)>(s: Scheme<C>, entries: seq<Entry<C>>, start: Bytes, n: nat)
    requires n <= |entries|
  {
    forall i {:trigger Before(entries, start, i)} | 0 <= i < n :: Links(s, Before(entries, start, i), entries[i])
  }

  ghost predicate Chained<C(!new)>(s: Scheme<C>, entries: seq<Entry<C>>, start: Bytes) {
    LinkedUpTo(s, entries, start, |entries|)
  }

  /** The first entry that does not link, and which of its two hashes gave it away. */
  ghost predicate FirstBreak<C(!new)>(s: Scheme<C>, entries: seq<Entry<C>>, start: Bytes, k: nat, why: Why) {
    && k < |entries| && LinkedUpTo(s, entries, start, k) && !Links(s, Before(entries, start, k), entries[k])
    && (why == Altered <==>
        entries[k].hash != s.Hash(Before(entries, start, k), entries[k].seqNo, entries[k].content))
  }

  /** What checking these entries may answer. */
  ghost predicate Reports<C(!new)>(s: Scheme<C>, entries: seq<Entry<C>>, start: Bytes, v: Verification) {
    && v.checked == |entries|
    && (v.Intact? ==> Chained(s, entries, start))
    && (v.Broken? ==> exists k: nat :: FirstBreak(s, entries, start, k, v.why) && v.at == entries[k].seqNo)
  }

  method VerifyChain<C(!new)>(s: Scheme<C>, entries: seq<Entry<C>>, start: Bytes) returns (v: Verification)
    ensures Reports(s, entries, start, v)
  {
    var prev := start;
    for i := 0 to |entries|
      invariant prev == Before(entries, start, i) && LinkedUpTo(s, entries, start, i)
    {
      var e := entries[i];
      var want := s.Hash(prev, e.seqNo, e.content);
      if want != e.hash {
        assert FirstBreak(s, entries, start, i, Altered);
        return Broken(|entries|, e.seqNo, Altered);
      }
      if prev != e.prevHash {
        assert FirstBreak(s, entries, start, i, MissingRow);
        return Broken(|entries|, e.seqNo, MissingRow);
      }
      prev := e.hash;
    }
    v := Intact(|entries|);
  }

  // ---- what the head hash pins ----

  /** These two byte strings do not collide. */
  predicate NoCollision(sha: Bytes -> Digest, x: Bytes, y: Bytes) {
    sha(x) == sha(y) ==> x == y
  }

  /** What the i-th entries of two histories give the hash does not collide: all that is ever
      asked of SHA-256 here, and only of the finitely many strings it was given. */
  ghost predicate NoCollisions<C(!new)>(s: Scheme<C>, a: seq<Entry<C>>, b: seq<Entry<C>>, start: Bytes) {
    forall i {:trigger Before(a, start, i)} | 0 <= i < |a| && i < |b| ::
      NoCollision(s.sha, s.encode(Before(a, start, i), a[i].seqNo, a[i].content),
                         s.encode(Before(b, start, i), b[i].seqNo, b[i].content))
  }

  ghost predicate MachineSized<C(!new)>(entries: seq<Entry<C>>) {
    forall i | 0 <= i < |entries| :: Int64(entries[i].seqNo)
  }

  /** Same number, hashes and committed content. */
  ghost predicate Agree<C(!new)>(s: Scheme<C>, x: Entry<C>, y: Entry<C>) {
    && x.seqNo == y.seqNo && s.committed(x.content) == s.committed(y.content)
    && x.hash == y.hash && x.prevHash == y.prevHash
  }

  /** Equal hashes of two linked entries: same predecessor, same entry. */
  lemma EqualHashesEqualEntries<C(!new)>(s: Scheme<C>, p: Bytes, x: Entry<C>, q: Bytes, y: Entry<C>)
    requires s.Faithful() && |p| == |q| && Int64(x.seqNo) && Int64(y.seqNo)
    requires Links(s, p, x) && Links(s, q, y) && x.hash == y.hash
    requires NoCollision(s.sha, s.encode(p, x.seqNo, x.content), s.encode(q, y.seqNo, y.content))
    ensures p == q && Agree(s, x, y)
  {
    var a, b := s.encode(p, x.seqNo, x.content), s.encode(q, y.seqNo, y.content);
    assert s.sha(a) == s.sha(b);
  }

  /** Two accepted histories from the same start whose first n entries end in the same hash have
      the same first n entries, field for field. */
  lemma {:induction false} HeadHashPinsHistory<C(!new)>(
      s: Scheme<C>, a: seq<Entry<C>>, b: seq<Entry<C>>, start: Bytes, n: nat)
    requires s.Faithful() && MachineSized(a) && MachineSized(b) && n <= |a| && n <= |b|
    requires Chained(s, a, start) && Chained(s, b, start)
    requires Before(a, start, n) == Before(b, start, n)
    requires NoCollisions(s, a, b, start)
    ensures forall i | 0 <= i < n :: Agree(s, a[i], b[i])
  {
    if n > 0 {
      LastEntriesAgree(s, a, b, start, n - 1);
      HeadHashPinsHistory(s, a, b, start, n - 1);
    }
  }

  lemma LastEntriesAgree<C(!new)>(s: Scheme<C>, a: seq<Entry<C>>, b: seq<Entry<C>>, start: Bytes, i: nat)
    requires s.Faithful() && MachineSized(a) && MachineSized(b) && i < |a| && i < |b|
    requires Chained(s, a, start) && Chained(s, b, start) && a[i].hash == b[i].hash
    requires NoCollisions(s, a, b, start)
    ensures Before(a, start, i) == Before(b, start, i) && Agree(s, a[i], b[i])
  {
    var p, q := Before(a, start, i), Before(b, start, i);
    assert Links(s, p, a[i]) && Links(s, q, b[i]);
    assert |p| == |q| by {
      if i > 0 { assert Links(s, Before(a, start, i - 1), a[i - 1]) && Links(s, Before(b, start, i - 1), b[i - 1]); }
    }
    EqualHashesEqualEntries(s, p, a[i], q, b[i]);
  }
}
