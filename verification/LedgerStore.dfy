/** The ledger table: locked appends, range verification, and what tampering it reveals. */
module LedgerStore {
  import opened Prelude
  import opened LedgerEncoding
  import opened LedgerChain

  // ---- one appended row ----

  /** The row Append inserts after `prev`, as it is later read back. */
  function Linked<C(!new)>(s: Scheme<C>, x: C, seqNo: int, prev: Bytes): Entry<C> {
    Entry(seqNo, s.stored(x), prev, s.Hash(prev, seqNo, x))
  }

  /** Content the database gives back as it was committed. */
  ghost predicate Kept<C(!new)>(s: Scheme<C>, x: C) {
    s.committed(s.stored(x)) == s.committed(x)
  }

  lemma KeptMeansStorable(c: Codec, x: Content)
    ensures Kept(LedgerScheme(c), x) <==> Storable(x)
  {
    StorageKeepsWhatIsCommitted(x);
  }

  /** A row links after the round trip exactly when storage keeps what was committed. */
  lemma RowSurvivesStorage<C(!new)>(s: Scheme<C>, x: C, seqNo: int, prev: Bytes)
    requires s.Faithful() && Int64(seqNo)
    requires NoCollision(s.sha, s.encode(prev, seqNo, x), s.encode(prev, seqNo, s.stored(x)))
    ensures Links(s, prev, Linked(s, x, seqNo, prev)) <==> Kept(s, x)
  {
    assert s.sha(s.encode(prev, seqNo, s.stored(x))) == s.Hash(prev, seqNo, s.stored(x));
  }

  // ---- appending under the ledger lock ----

  type Tx = nat

  datatype Ledger<C(!new)> = Ledger(rows: seq<Entry<C>>, holder: Option<Tx>, pending: seq<Entry<C>>, doomed: bool)

  datatype Op<C(!new)> =
    | Append(tx: Tx, content: C, fails: bool)
    | Commit(tx: Tx)
    | Rollback(tx: Tx)

  function HeadHash<C(!new)>(rows: seq<Entry<C>>): Bytes {
    if rows == [] then [] else rows[|rows| - 1].hash
  }

  function Grow<C(!new)>(s: Scheme<C>, rows: seq<Entry<C>>, x: C): seq<Entry<C>> {
    rows + [Linked(s, x, |rows| + 1, HeadHash(rows))]
  }

  /** The advisory lock is held to commit or rollback; a failed statement dooms its transaction. */
  function Apply<C(!new)>(s: Scheme<C>, l: Ledger<C>, op: Op<C>): Ledger<C> {
    match op
    case Append(tx, x, fails) =>
      if l.holder.Some? && l.holder.value != tx then l   // still waiting for the lock
      else if fails || l.doomed then l.(holder := Some(tx), doomed := true)
      else l.(holder := Some(tx), pending := Grow(s, l.rows + l.pending, x)[|l.rows|..])
    case Commit(tx) =>
      if l.holder != Some(tx) then l
      else Ledger(if l.doomed then l.rows else l.rows + l.pending, None, [], false)
    case Rollback(tx) =>
      if l.holder != Some(tx) then l else Ledger(l.rows, None, [], false)
  }

  function RunOps<C(!new)>(s: Scheme<C>, ops: seq<Op<C>>): Ledger<C> {
    if ops == [] then Ledger([], None, [], false) else Apply(s, RunOps(s, ops[..|ops| - 1]), ops[|ops| - 1])
  }

  /** Numbered 1..n without a gap, each row linked to the one before, the first to nothing. */
  ghost predicate Sound<C(!new)>(s: Scheme<C>, rows: seq<Entry<C>>) {
    && (forall i | 0 <= i < |rows| :: rows[i].seqNo == i + 1)
    && Chained(s, rows, [])
  }

  lemma GrowKeepsSound<C(!new)>(s: Scheme<C>, rows: seq<Entry<C>>, x: C)
    requires s.DependsOnCommitted() && Sound(s, rows) && Kept(s, x)
    ensures Sound(s, Grow(s, rows, x))
  {
    var more := Grow(s, rows, x);
    assert Links(s, HeadHash(rows), Linked(s, x, |rows| + 1, HeadHash(rows)));
    forall i | 0 <= i < |more| ensures more[i].seqNo == i + 1 && Links(s, Before(more, [], i), more[i]) {
      if i < |rows| { assert Links(s, Before(rows, [], i), rows[i]); }
    }
  }

  /** Every ledger that interleaved appends, commits and rollbacks can reach is sound. */
  lemma {:induction false} EveryReachableLedgerIsSound<C(!new)>(s: Scheme<C>, ops: seq<Op<C>>)
    requires s.DependsOnCommitted() && forall i | 0 <= i < |ops| :: ops[i].Append? ==> Kept(s, ops[i].content)
    ensures var l := RunOps(s, ops);
            && Sound(s, l.rows) && Sound(s, l.rows + l.pending)
            && (l.holder.None? ==> l.pending == [] && !l.doomed)
  {
    if ops == [] {
      var none: seq<Entry<C>> := [];
      assert none + none == none;
    } else {
      EveryReachableLedgerIsSound(s, ops[..|ops| - 1]);
      var l, op := RunOps(s, ops[..|ops| - 1]), ops[|ops| - 1];
      if op.Append? && Apply(s, l, op).pending != l.pending {
        GrowKeepsSound(s, l.rows + l.pending, op.content);
        var more := Grow(s, l.rows + l.pending, op.content);
        assert l.rows + more[|l.rows|..] == more;
      }
      var l' := Apply(s, l, op);
      if l'.pending == [] { assert l'.rows + l'.pending == l'.rows; }
    }
  }

  // ---- the table as verification reads it ----

  /** Rows by sequence number, which the table's unique constraint makes a key. */
  type Table<C(!new)> = map<int, Entry<C>>

  function TableOf<C(!new)>(rows: seq<Entry<C>>): (t: Table<C>)
    ensures forall k :: k in t <==> 1 <= k <= |rows|
    ensures forall k | k in t :: t[k] == rows[k - 1]
  {
    if rows == [] then map[] else TableOf(rows[..|rows| - 1])[|rows| := rows[|rows| - 1]]
  }

  /** Rows with lo <= seq <= hi, ascending. */
  function Range<C(!new)>(t: Table<C>, lo: int, hi: int): seq<Entry<C>>
    decreases hi - lo
  {
    if lo > hi then [] else (if lo in t then [t[lo]] else []) + Range(t, lo + 1, hi)
  }

  /** The hash of the last row before `n`, or nothing. */
  function Anchor<C(!new)>(t: Table<C>, n: int): Bytes
    decreases n
  {
    if n <= 1 then [] else if n - 1 in t then t[n - 1].hash else Anchor(t, n - 1)
  }

  ghost predicate WellKeyed<C(!new)>(t: Table<C>, top: int) {
    forall k | k in t :: 1 <= k <= top && t[k].seqNo == k
  }

  ghost predicate NoGap<C(!new)>(rows: seq<Entry<C>>, lo: int) {
    forall i | 0 <= i < |rows| :: rows[i].seqNo == lo + i
  }

  ghost predicate FirstGap<C(!new)>(rows: seq<Entry<C>>, lo: int, at: int) {
    && 0 <= at - lo < |rows| && rows[at - lo].seqNo != at
    && forall i | 0 <= i < at - lo :: rows[i].seqNo == lo + i
  }

  /** What a check of these rows may answer. */
  ghost predicate Explains<C(!new)>(s: Scheme<C>, rows: seq<Entry<C>>, start: Bytes, lo: int, v: Verification) {
    if NoGap(rows, lo) then Reports(s, rows, start, v)
    else v.Broken? && v.checked == |rows| && FirstGap(rows, lo, v.at) && v.why == MissingRow
  }

  ghost predicate Answers<C(!new)>(s: Scheme<C>, t: Table<C>, lo: int, hi: int, v: Verification) {
    Explains(s, Range(t, lo, hi), Anchor(t, lo), lo, v)
  }

  datatype Check = BadRange | Checked(result: Verification)

  function Lo(from: int): int {
    if from < 1 then 1 else from
  }

  function Hi(to: int, top: int): int {
    if to > 0 then to else top
  }

  /** What a range request may be answered. */
  ghost predicate Replies<C(!new)>(s: Scheme<C>, t: Table<C>, from: int, to: int, top: int, r: Check) {
    && (r.BadRange? <==> 0 < to < Lo(from))
    && (r.Checked? ==> Answers(s, t, Lo(from), Hi(to, top), r.result))
  }

  /** Verifies the rows from `from` to `to`, or to the end; `top` bounds the stored sequence numbers. */
  method VerifyRange<C(!new)>(s: Scheme<C>, t: Table<C>, from: int, to: int, top: int) returns (r: Check)
    requires WellKeyed(t, top)
    ensures Replies(s, t, from, to, top, r)
  {
    var lo := Lo(from);
    if to > 0 && to < lo {
      return BadRange;
    }
    var start := Anchor(t, lo);
    var rows := Range(t, lo, Hi(to, top));
    for i := 0 to |rows|
      invariant forall j | 0 <= j < i :: rows[j].seqNo == lo + j
    {
      if rows[i].seqNo != lo + i {
        assert FirstGap(rows, lo, lo + i);
        return Checked(Broken(|rows|, lo + i, MissingRow));
      }
    }
    var v := VerifyChain(s, rows, start);
    r := Checked(v);
  }

  lemma {:induction false} SameRowsSameRange<C(!new)>(t: Table<C>, u: Table<C>, lo: int, hi: int)
    requires forall k | lo <= k <= hi :: (k in t <==> k in u) && (k in t ==> t[k] == u[k])
    ensures Range(t, lo, hi) == Range(u, lo, hi)
    decreases hi - lo
  {
    if lo <= hi { SameRowsSameRange(t, u, lo + 1, hi); }
  }

  lemma {:induction false} SameRowsSameAnchor<C(!new)>(t: Table<C>, u: Table<C>, n: int)
    requires forall k | k < n :: (k in t <==> k in u) && (k in t ==> t[k] == u[k])
    ensures Anchor(t, n) == Anchor(u, n)
    decreases n
  {
    if n > 1 && n - 1 !in t { SameRowsSameAnchor(t, u, n - 1); }
  }

  /** A range check with an end answers the same whatever lies beyond it, and one that starts below the
      first entry starts there. */
  lemma RowsBeyondTheRangeAreNotRead<C(!new)>(
      s: Scheme<C>, t: Table<C>, u: Table<C>, from: int, to: int, top: int, r: Check)
    requires 0 < to && forall k | k <= to :: (k in t <==> k in u) && (k in t ==> t[k] == u[k])
    ensures Replies(s, t, from, to, top, r) <==> Replies(s, u, from, to, top, r)
    ensures from <= 1 ==> (Replies(s, t, from, to, top, r) <==> Replies(s, t, 1, to, top, r))
  {
    if Lo(from) <= to {
      SameRowsSameRange(t, u, Lo(from), to);
      SameRowsSameAnchor(t, u, Lo(from));
    }
  }

  // ---- what a range check reveals ----

  lemma {:induction false} RangeFront<C(!new)>(t: Table<C>, lo: int, m: int, hi: int)
    requires lo <= m <= hi + 1 && forall k | lo <= k < m :: k in t
    ensures |Range(t, lo, hi)| == m - lo + |Range(t, m, hi)|
    ensures forall i | 0 <= i < m - lo :: Range(t, lo, hi)[i] == t[lo + i]
    ensures Range(t, lo, hi)[m - lo..] == Range(t, m, hi)
    decreases m - lo
  {
    if lo < m {
      RangeFront(t, lo + 1, m, hi);
      var rows := Range(t, lo, hi);
      assert rows[1..] == Range(t, lo + 1, hi);
      forall i | 0 < i < m - lo ensures rows[i] == t[lo + i] { assert rows[i] == rows[1..][i - 1]; }
      assert rows[1..][m - lo - 1..] == rows[m - lo..];
    }
  }

  lemma {:induction false} RangeStartsLater<C(!new)>(t: Table<C>, m: int, hi: int, later: int, top: int)
    requires WellKeyed(t, top) && m <= later <= hi && later in t
    ensures var rows := Range(t, m, hi); rows != [] && rows[0].seqNo >= m
    decreases hi - m
  {
    if m !in t { RangeStartsLater(t, m + 1, hi, later, top); }
  }

  lemma {:induction false} NothingPastTheEnd<C(!new)>(t: Table<C>, lo: int, hi: int, top: int)
    requires WellKeyed(t, top) && top < lo
    ensures Range(t, lo, hi) == []
    decreases hi - lo
  {
    if lo <= hi { NothingPastTheEnd(t, lo + 1, hi, top); }
  }

  function Min(a: int, b: int): int {
    if a < b then a else b
  }

  lemma RangeInside<C(!new)>(rows: seq<Entry<C>>, lo: int, hi: int)
    requires 1 <= lo <= Min(hi, |rows|) && forall i | 0 <= i < |rows| :: rows[i].seqNo == i + 1
    ensures Range(TableOf(rows), lo, hi) == rows[lo - 1..Min(hi, |rows|)]
  {
    var t, m := TableOf(rows), Min(hi, |rows|) + 1;
    RangeFront(t, lo, m, hi);
    if hi > |rows| { NothingPastTheEnd(t, m, hi, |rows|); }
    var got := Range(t, lo, hi);
    assert Range(t, m, hi) == [] && |got| == m - lo;
    forall i | 0 <= i < m - lo ensures got[i] == rows[lo - 1..m - 1][i] { assert got[i] == t[lo + i]; }
  }

  /** The rows of a gap-free table inside a range. */
  lemma RangeOfRows<C(!new)>(rows: seq<Entry<C>>, lo: int, hi: int)
    requires lo >= 1 && forall i | 0 <= i < |rows| :: rows[i].seqNo == i + 1
    ensures var got := Range(TableOf(rows), lo, hi);
            && (lo <= Min(hi, |rows|) ==> got == rows[lo - 1..Min(hi, |rows|)])
            && (lo > Min(hi, |rows|) ==> got == [])
  {
    if lo <= Min(hi, |rows|) {
      RangeInside(rows, lo, hi);
    } else if lo <= hi {
      NothingPastTheEnd(TableOf(rows), lo, hi, |rows|);
    }
  }

  lemma {:induction false} AnchorOfRows<C(!new)>(rows: seq<Entry<C>>, lo: int)
    requires lo >= 1
    ensures Anchor(TableOf(rows), lo) == Before(rows, [], Min(lo - 1, |rows|))
    decreases lo
  {
    if lo > |rows| + 1 { AnchorOfRows(rows, lo - 1); }
  }

  /** An honest ledger passes every range check. */
  lemma EveryRangeIsIntact<C(!new)>(s: Scheme<C>, rows: seq<Entry<C>>, lo: int, hi: int, v: Verification)
    requires Sound(s, rows) && lo >= 1 && Answers(s, TableOf(rows), lo, hi, v)
    ensures v.Intact?
  {
    var got, start := Range(TableOf(rows), lo, hi), Anchor(TableOf(rows), lo);
    RangeOfRows(rows, lo, hi);
    if got != [] {
      RangeIsSlice(rows, lo, hi);
      SliceIsChained(s, rows, lo - 1, got, start);
    }
    ChainedIsIntact(s, got, start, lo, v);
  }

  lemma SliceIsChained<C(!new)>(s: Scheme<C>, rows: seq<Entry<C>>, from: nat, got: seq<Entry<C>>, start: Bytes)
    requires Sound(s, rows) && Slice(rows, from, got, start)
    ensures Chained(s, got, start) && NoGap(got, from + 1)
  {
    forall j | 0 <= j < |got| ensures Links(s, Before(got, start, j), got[j]) {
      SameLink(s, rows, from, got, start, j);
      assert Before(rows, [], from + j) == Before(rows, [], from + j);
    }
  }

  lemma ChainedIsIntact<C(!new)>(s: Scheme<C>, got: seq<Entry<C>>, start: Bytes, lo: int, v: Verification)
    requires NoGap(got, lo) && Chained(s, got, start) && Explains(s, got, start, lo, v)
    ensures v.Intact?
  {
    forall k: nat, why ensures !FirstBreak(s, got, start, k, why) {
      if k < |got| { assert Links(s, Before(got, start, k), got[k]); }
    }
  }

  /** A removed row is named exactly by any range that covers it and some later surviving row. */
  lemma MissingRowIsReported<C(!new)>(
      s: Scheme<C>, t: Table<C>, top: int, lo: int, k: int, later: int, hi: int, v: Verification)
    requires WellKeyed(t, top) && lo <= k < later <= hi
    requires k !in t && later in t && forall j | lo <= j < k :: j in t
    requires Answers(s, t, lo, hi, v)
    ensures v.Broken? && v.at == k && v.why == MissingRow
  {
    var rows := Range(t, lo, hi);
    RangeFront(t, lo, k, hi);
    RangeStartsLater(t, k + 1, hi, later, top);
    assert rows[k - lo] == rows[k - lo..][0];
    assert !NoGap(rows, lo) by { assert rows[k - lo].seqNo != lo + (k - lo); }
  }

  /** A row changed in anything the hash covers, and not the newest, is reported at itself or at its successor. */
  lemma AlteredRowIsReported<C(!new)>(
      s: Scheme<C>, rows: seq<Entry<C>>, lo: int, k: int, hi: int, forged: Entry<C>, v: Verification)
    requires s.Faithful() && Sound(s, rows) && 1 <= lo <= k < hi && k < |rows| && Int64(k)
    requires forged.seqNo == k && !Agree(s, forged, rows[k - 1])
    requires var p := Before(rows, [], k - 1);
             NoCollision(s.sha, s.encode(p, k, rows[k - 1].content), s.encode(p, k, forged.content))
    requires Answers(s, TableOf(rows)[k := forged], lo, hi, v)
    ensures v.Broken? && (v.at == k || v.at == k + 1)
  {
    TableWith(rows, k, forged);
    ForgedRowStopsTheLinks(s, rows, k, forged);
    BrokenLinkIsReported(s, rows[k - 1 := forged], lo, k, hi, v);
  }

  lemma ForgedRowStopsTheLinks<C(!new)>(s: Scheme<C>, rows: seq<Entry<C>>, k: int, forged: Entry<C>)
    requires s.Faithful() && Sound(s, rows) && 1 <= k < |rows| && Int64(k)
    requires forged.seqNo == k && !Agree(s, forged, rows[k - 1])
    requires var p := Before(rows, [], k - 1);
             NoCollision(s.sha, s.encode(p, k, rows[k - 1].content), s.encode(p, k, forged.content))
    ensures var rows' := rows[k - 1 := forged]; LinkedUpTo(s, rows', [], k - 1) && !LinkedUpTo(s, rows', [], k + 1)
  {
    var rows', p := rows[k - 1 := forged], Before(rows, [], k - 1);
    assert Links(s, p, rows[k - 1]) && Links(s, Before(rows, [], k), rows[k]);
    ForgedRowBreaksALink(s, p, rows[k - 1], forged, rows[k]);
    forall i | 0 <= i < k - 1 ensures Links(s, Before(rows', [], i), rows'[i]) {
      assert Before(rows', [], i) == Before(rows, [], i);
    }
    assert Before(rows', [], k - 1) == p && Before(rows', [], k) == forged.hash;
  }

  lemma TableWith<C(!new)>(rows: seq<Entry<C>>, k: int, e: Entry<C>)
    requires 1 <= k <= |rows|
    ensures TableOf(rows[k - 1 := e]) == TableOf(rows)[k := e]
  {
  }

  /** `got` is the slice of `rows` that starts at index `from`, and `start` what precedes it. */
  ghost predicate Slice<C(!new)>(rows: seq<Entry<C>>, from: nat, got: seq<Entry<C>>, start: Bytes) {
    && from + |got| <= |rows| && got == rows[from..from + |got|] && start == Before(rows, [], from)
  }

  lemma RangeIsSlice<C(!new)>(rows: seq<Entry<C>>, lo: int, hi: int)
    requires 1 <= lo <= Min(hi, |rows|) && forall i | 0 <= i < |rows| :: rows[i].seqNo == i + 1
    ensures var got := Range(TableOf(rows), lo, hi);
            |got| == Min(hi, |rows|) - lo + 1 && Slice(rows, lo - 1, got, Anchor(TableOf(rows), lo))
  {
    RangeOfRows(rows, lo, hi);
    AnchorOfRows(rows, lo);
  }

  lemma SameLink<C(!new)>(s: Scheme<C>, rows: seq<Entry<C>>, from: nat, got: seq<Entry<C>>, start: Bytes, j: nat)
    requires Slice(rows, from, got, start) && j < |got|
    ensures Links(s, Before(got, start, j), got[j]) <==> Links(s, Before(rows, [], from + j), rows[from + j])
  {
    assert Before(got, start, j) == Before(rows, [], from + j);
  }

  /** Linked so far in the whole, linked so far in the slice; and likewise for the entry that breaks. */
  lemma SliceBreaksAlike<C(!new)>(
      s: Scheme<C>, rows: seq<Entry<C>>, from: nat, got: seq<Entry<C>>, start: Bytes, m: nat)
    requires Slice(rows, from, got, start) && from + m + 2 <= |rows| && m + 2 <= |got|
    requires LinkedUpTo(s, rows, [], from + m) && !LinkedUpTo(s, rows, [], from + m + 2)
    ensures LinkedUpTo(s, got, start, m) && !LinkedUpTo(s, got, start, m + 2)
  {
    forall j | 0 <= j < m ensures Links(s, Before(got, start, j), got[j]) {
      SameLink(s, rows, from, got, start, j);
      assert Before(rows, [], from + j) == Before(rows, [], from + j);
    }
    var i :| 0 <= i < from + m + 2 && !Links(s, Before(rows, [], i), rows[i]);
    SameLink(s, rows, from, got, start, i - from);
    assert Before(got, start, i - from) == Before(rows, [], i);
  }

  lemma BrokenLinkIsReported<C(!new)>(s: Scheme<C>, rows: seq<Entry<C>>, lo: int, k: int, hi: int, v: Verification)
    requires 1 <= lo <= k < hi && k < |rows| && forall i | 0 <= i < |rows| :: rows[i].seqNo == i + 1
    requires LinkedUpTo(s, rows, [], k - 1) && !LinkedUpTo(s, rows, [], k + 1)
    requires Answers(s, TableOf(rows), lo, hi, v)
    ensures v.Broken? && (v.at == k || v.at == k + 1)
  {
    var got, start := Range(TableOf(rows), lo, hi), Anchor(TableOf(rows), lo);
    RangeIsSlice(rows, lo, hi);
    SliceBreakIsReported(s, rows, lo, k, got, start, v);
  }

  lemma SliceBreakIsReported<C(!new)>(
      s: Scheme<C>, rows: seq<Entry<C>>, lo: int, k: int, got: seq<Entry<C>>, start: Bytes, v: Verification)
    requires 1 <= lo <= k <= lo + |got| - 2 && Slice(rows, lo - 1, got, start)
    requires forall i | 0 <= i < |rows| :: rows[i].seqNo == i + 1
    requires LinkedUpTo(s, rows, [], k - 1) && !LinkedUpTo(s, rows, [], k + 1)
    requires Explains(s, got, start, lo, v)
    ensures v.Broken? && (v.at == k || v.at == k + 1)
  {
    SliceBreaksAlike(s, rows, lo - 1, got, start, k - lo);
    BreakIsWhereLinksStop(s, got, start, k - lo, v);
  }

  lemma BreakIsWhereLinksStop<C(!new)>(s: Scheme<C>, got: seq<Entry<C>>, start: Bytes, i: nat, v: Verification)
    requires i + 2 <= |got| && LinkedUpTo(s, got, start, i) && !LinkedUpTo(s, got, start, i + 2)
    requires Reports(s, got, start, v)
    ensures v.Broken? && (v.at == got[i].seqNo || v.at == got[i + 1].seqNo)
  {
    var k: nat :| FirstBreak(s, got, start, k, v.why) && v.at == got[k].seqNo;
    assert Before(got, start, k) == Before(got, start, k);
  }

  lemma ForgedRowBreaksALink<C(!new)>(s: Scheme<C>, p: Bytes, row: Entry<C>, forged: Entry<C>, next: Entry<C>)
    requires s.Faithful() && Int64(row.seqNo) && forged.seqNo == row.seqNo && !Agree(s, forged, row)
    requires Links(s, p, row) && Links(s, row.hash, next)
    requires NoCollision(s.sha, s.encode(p, row.seqNo, row.content), s.encode(p, row.seqNo, forged.content))
    ensures !Links(s, p, forged) || !Links(s, forged.hash, next)
  {
    var x, y := s.encode(p, row.seqNo, row.content), s.encode(p, row.seqNo, forged.content);
    assert s.sha(x) == row.hash;
  }

  lemma FrontIsSound<C(!new)>(s: Scheme<C>, rows: seq<Entry<C>>, n: nat)
    requires Sound(s, rows) && n <= |rows|
    ensures Sound(s, rows[..n])
  {
    forall i | 0 <= i < n ensures Links(s, Before(rows[..n], [], i), rows[..n][i]) {
      assert Before(rows[..n], [], i) == Before(rows, [], i);
    }
  }

  /** The limit of the chain: whoever holds the table can replace its newest row unnoticed. */
  lemma NewestRowCanBeReplaced<C(!new)>(s: Scheme<C>, rows: seq<Entry<C>>, x: C, lo: int, hi: int, v: Verification)
    requires s.DependsOnCommitted() && Sound(s, rows) && rows != [] && Kept(s, x) && lo >= 1
    requires var n := |rows|;
             Answers(s, TableOf(rows)[n := Linked(s, x, n, HeadHash(rows[..n - 1]))], lo, hi, v)
    ensures v.Intact?
  {
    var n := |rows|;
    var newest := Linked(s, x, n, HeadHash(rows[..n - 1]));
    FrontIsSound(s, rows, n - 1);
    GrowKeepsSound(s, rows[..n - 1], x);
    TableWith(rows, n, newest);
    assert rows[n - 1 := newest] == Grow(s, rows[..n - 1], x);
    EveryRangeIsIntact(s, rows[n - 1 := newest], lo, hi, v);
  }
}
