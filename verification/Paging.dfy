/** Keyset pagination: walking a table newest first while it changes. */
module Paging {
  import opened Prelude

  // ---- keys and cursors ----

  /** A sort position: the creation or detection time, with the id to break ties. */
  datatype Key = Key(time: Time, id: Id)

  predicate Below(a: Key, b: Key) {
    a.time < b.time || (a.time == b.time && a.id < b.id)
  }

  predicate Under(k: Key, cursor: Option<Key>) {
    cursor.None? || Below(k, cursor.value)
  }

  /** Rendering of times, ids and opaque text. */
  datatype Codec = Codec(
    stamp: Time -> string, parseStamp: string -> Option<Time>, idText: Id -> string, parseId: string -> Option<Id>,
    wrap: string -> string, unwrap: string -> Option<string>)
  {
    ghost predicate Faithful() {
      && (forall t :: parseStamp(stamp(t)) == Some(t) && '|' !in stamp(t))
      && (forall i: Id :: parseId(idText(i)) == Some(i))
      && (forall s :: unwrap(wrap(s)) == Some(s) && (s != "" ==> wrap(s) != ""))
    }
  }

  // A codec that meets this: signs and strokes.

  function Strokes(n: nat): (s: string)
    ensures |s| == n && forall c | c in s :: c == 'x'
  {
    seq(n, _ => 'x')
  }

  function Signed(t: Time): string {
    if t >= 0 then "+" + Strokes(t) else "-" + Strokes(-t)
  }

  function Unsigned(s: string): Option<Time> {
    if s == "" then None else if s[0] == '+' then Some(|s| - 1) else Some(1 - |s|)
  }

  function StrokeCodec(): Codec {
    Codec(t => Signed(t), s => Unsigned(s), (i: Id) => Strokes(i), s => Some(|s|), s => s, s => Some(s))
  }

  lemma CodecsCanBeFaithful()
    ensures StrokeCodec().Faithful()
  {
    var c := StrokeCodec();
    forall t ensures c.parseStamp(c.stamp(t)) == Some(t) && '|' !in c.stamp(t) {}
    forall i: Id ensures c.parseId(c.idText(i)) == Some(i) {}
  }

  /** The text before and after the first separator. */
  function Cut(s: string, sep: char): Option<(string, string)> {
    if s == "" then None
    else if s[0] == sep then Some(("", s[1..]))
    else match Cut(s[1..], sep)
      case None => None
      case Some((front, back)) => Some(([s[0]] + front, back))
  }

  lemma {:induction false} CutAtTheSeparator(a: string, b: string, sep: char)
    requires sep !in a
    ensures Cut(a + [sep] + b, sep) == Some((a, b))
  {
    var s := a + [sep] + b;
    if a != "" {
      assert s[1..] == a[1..] + [sep] + b;
      CutAtTheSeparator(a[1..], b, sep);
      assert a == [a[0]] + a[1..];
    }
  }

  function EncodeCursor(c: Codec, k: Key): string {
    c.wrap(c.stamp(k.time) + ['|'] + c.idText(k.id))
  }

  function DecodeCursor(c: Codec, cursor: string): Option<Key> {
    match c.unwrap(cursor)
    case None => None
    case Some(raw) =>
      match Cut(raw, '|')
      case None => None
      case Some((front, back)) =>
        if c.parseStamp(front).None? || c.parseId(back).None? then None
        else Some(Key(c.parseStamp(front).value, c.parseId(back).value))
  }

  lemma CursorRoundTrips(c: Codec, k: Key)
    requires c.Faithful()
    ensures DecodeCursor(c, EncodeCursor(c, k)) == Some(k) && EncodeCursor(c, k) != ""
  {
    CutAtTheSeparator(c.stamp(k.time), c.idText(k.id), '|');
  }

  // ---- one page ----

  const DEFAULT_LIMIT := 50
  const MAX_LIMIT := 500

  function Normalise(limit: int): (n: int)
    ensures 1 <= n <= 500 && (1 <= limit <= 500 ==> n == limit) && (limit <= 0 ==> n == 50)
    ensures limit > 500 ==> n == 500
  {
    if limit <= 0 then DEFAULT_LIMIT else if limit > MAX_LIMIT then MAX_LIMIT else limit
  }

  ghost predicate Descending(ks: seq<Key>) {
    forall i, j | 0 <= i < j < |ks| :: Below(ks[j], ks[i])
  }

  /** The answer of the ordered query: the first n matching keys under the cursor. */
  ghost predicate Selects(keys: set<Key>, cursor: Option<Key>, n: nat, rows: seq<Key>) {
    && Descending(rows) && |rows| <= n
    && (forall k | k in rows :: k in keys && Under(k, cursor))
    && (forall k | k in keys && Under(k, cursor) && k !in rows ::
          |rows| == n && forall r | r in rows :: Below(k, r))
  }

  datatype Page = Page(items: seq<Key>, next: string, hasMore: bool)

  /** A page is the first `limit` keys under the cursor, and says truly whether more were there. */
  ghost predicate IsPage(c: Codec, keys: set<Key>, cursor: Option<Key>, limit: nat, p: Page) {
    && Selects(keys, cursor, limit, p.items)
    && (p.hasMore <==> exists k | k in keys && Under(k, cursor) :: k !in p.items)
    && (p.hasMore ==> p.items != [] && p.next == EncodeCursor(c, p.items[|p.items| - 1]))
    && (!p.hasMore ==> p.next == "")
  }

  /** A page is newest first; at equal times the greater id comes first. */
  lemma PageIsNewestFirst(c: Codec, keys: set<Key>, cursor: Option<Key>, limit: nat, p: Page, i: nat, j: nat)
    requires IsPage(c, keys, cursor, limit, p) && i < j < |p.items|
    ensures p.items[i].time >= p.items[j].time
    ensures p.items[i].time == p.items[j].time ==> p.items[i].id > p.items[j].id
    ensures forall k | k in keys && Under(k, cursor) && k.time > p.items[j].time :: k in p.items
  {
    assert p.items[j] in p.items;
  }

  /** Where a cursor text asks the page to start. */
  function StartOf(c: Codec, cursor: string): Option<Option<Key>> {
    if cursor == "" then Some(None)
    else match DecodeCursor(c, cursor)
      case None => None
      case Some(k) => Some(Some(k))
  }

  /** `List`, given the rows the database returns for the limit plus one. */
  method List(c: Codec, ghost keys: set<Key>, limit: int, cursor: string, rows: seq<Key>) returns (page: Option<Page>)
    requires StartOf(c, cursor).Some? ==> Selects(keys, StartOf(c, cursor).value, Normalise(limit) + 1, rows)
    ensures page.None? <==> StartOf(c, cursor).None?
    ensures page.Some? ==> IsPage(c, keys, StartOf(c, cursor).value, Normalise(limit), page.value)
  {
    var n := Normalise(limit);
    if cursor != "" && DecodeCursor(c, cursor).None? {
      return None;
    }
    ghost var start := StartOf(c, cursor).value;
    var items := [];
    for i := 0 to |rows|
      invariant items == rows[..i]
    {
      items := items + [rows[i]];
    }
    assert items == rows;
    if |items| > n {
      assert rows[n] in keys && Under(rows[n], start) && rows[n] !in rows[..n];
      items := rows[..n];
      page := Some(Page(items, EncodeCursor(c, items[n - 1]), true));
      TrimmedSelects(keys, start, n, rows);
    } else {
      page := Some(Page(items, "", false));
    }
  }

  lemma TrimmedSelects(keys: set<Key>, cursor: Option<Key>, n: nat, rows: seq<Key>)
    requires Selects(keys, cursor, n + 1, rows) && |rows| == n + 1
    ensures Selects(keys, cursor, n, rows[..n])
  {
    forall k | k in keys && Under(k, cursor) && k !in rows[..n] ensures forall r | r in rows[..n] :: Below(k, r) {
      assert rows == rows[..n] + [rows[n]];
    }
  }

  lemma {:induction false} DescendingIsDistinct(ks: seq<Key>)
    requires Descending(ks)
    ensures |set k | k in ks| == |ks|
  {
    if ks != [] {
      DescendingIsDistinct(ks[1..]);
      assert (set k | k in ks) == {ks[0]} + set k | k in ks[1..];
      assert ks[0] !in ks[1..];
    }
  }

  /** A page from the top leaves something out exactly when more keys match than it holds. */
  lemma MoreExactlyWhenTooMany(c: Codec, keys: set<Key>, limit: nat, p: Page)
    requires IsPage(c, keys, None, limit, p)
    ensures p.hasMore <==> |keys| > limit
  {
    var taken := set k | k in p.items;
    DescendingIsDistinct(p.items);
    Cardinality(taken, keys);
    if !p.hasMore { assert taken == keys; }
  }

  lemma Cardinality(a: set<Key>, b: set<Key>)
    requires a <= b
    ensures |a| <= |b| && (a != b ==> |a| < |b|)
  {
    assert b == a + (b - a);
  }

  /** A page from the top misses the oldest match exactly when more keys match than it holds. */
  lemma OldestIsMissedExactlyWhenTooMany(c: Codec, keys: set<Key>, limit: nat, p: Page, oldest: Key)
    requires IsPage(c, keys, None, limit, p)
    requires oldest in keys && forall k | k in keys :: k == oldest || Below(oldest, k)
    ensures oldest !in p.items <==> |keys| > limit
  {
    MoreExactlyWhenTooMany(c, keys, limit, p);
    if p.hasMore {
      var k :| k in keys && k !in p.items;
      assert k == oldest || oldest !in p.items;
    }
  }

  // ---- a whole walk ----

  /** Following the cursors from `cursor` on; `snapshots[i]` are the matching keys when page i was read. */
  ghost predicate Walk(c: Codec, snapshots: seq<set<Key>>, limits: seq<int>, cursor: Option<Key>, pages: seq<Page>)
    decreases |pages|
  {
    && |snapshots| == |limits| == |pages|
    && (pages != [] ==>
          && IsPage(c, snapshots[0], cursor, Normalise(limits[0]), pages[0])
          && (|pages| > 1 ==>
                && pages[0].hasMore
                && StartOf(c, pages[0].next).Some?
                && Walk(c, snapshots[1..], limits[1..], StartOf(c, pages[0].next).value, pages[1..])))
  }

  /** The walk went on until a page said there was no more. */
  predicate Completed(pages: seq<Page>) {
    pages != [] && !pages[|pages| - 1].hasMore
  }

  function Returned(pages: seq<Page>): seq<Key> {
    if pages == [] then [] else pages[0].items + Returned(pages[1..])
  }

  /** The next page starts right under the last key of this one. */
  lemma NextStartsUnderLast(c: Codec, keys: set<Key>, cursor: Option<Key>, limit: nat, p: Page)
    requires c.Faithful() && IsPage(c, keys, cursor, limit, p) && p.hasMore
    ensures p.items != [] && StartOf(c, p.next) == Some(Some(p.items[|p.items| - 1]))
  {
    CursorRoundTrips(c, p.items[|p.items| - 1]);
  }

  /** No key is returned twice: keys fall strictly along the whole walk. */
  lemma {:induction false} KeysFallAlongTheWalk(
      c: Codec, snapshots: seq<set<Key>>, limits: seq<int>, cursor: Option<Key>, pages: seq<Page>)
    requires c.Faithful() && Walk(c, snapshots, limits, cursor, pages)
    ensures Descending(Returned(pages)) && forall k | k in Returned(pages) :: Under(k, cursor)
    decreases |pages|
  {
    if |pages| == 1 {
      assert Returned(pages[1..]) == [];
      assert Returned(pages) == pages[0].items;
    } else if |pages| > 1 {
      var items, rest := pages[0].items, Returned(pages[1..]);
      NextStartsUnderLast(c, snapshots[0], cursor, Normalise(limits[0]), pages[0]);
      KeysFallAlongTheWalk(c, snapshots[1..], limits[1..], Some(items[|items| - 1]), pages[1..]);
      JoinDescending(items, rest);
      assert Under(items[0], cursor);
    }
  }

  lemma JoinDescending(a: seq<Key>, b: seq<Key>)
    requires a != [] && Descending(a) && Descending(b) && forall k | k in b :: Below(k, a[|a| - 1])
    ensures Descending(a + b) && forall k | k in a + b :: k == a[0] || Below(k, a[0])
  {
    var n := |a|;
    forall i, j | 0 <= i < j < n + |b| ensures Below((a + b)[j], (a + b)[i]) {
      if j >= n { assert (a + b)[j] == b[j - n] && b[j - n] in b; }
    }
    forall k | k in a + b ensures k == a[0] || Below(k, a[0]) {
      var i :| 0 <= i < n + |b| && (a + b)[i] == k;
      assert (a + b)[0] == a[0];
    }
  }

  /** A key that matches at every page of a completed walk is returned, and exactly once. */
  lemma {:induction false} PersistentKeyIsReturned(
      c: Codec, snapshots: seq<set<Key>>, limits: seq<int>, cursor: Option<Key>, pages: seq<Page>, k: Key)
    requires c.Faithful() && Walk(c, snapshots, limits, cursor, pages) && Completed(pages)
    requires Under(k, cursor) && forall i | 0 <= i < |snapshots| :: k in snapshots[i]
    ensures k in Returned(pages)
    decreases |pages|
  {
    if k !in pages[0].items {
      var items := pages[0].items;
      assert k in snapshots[0];
      NextStartsUnderLast(c, snapshots[0], cursor, Normalise(limits[0]), pages[0]);
      assert items[|items| - 1] in items;
      PersistentKeyIsReturned(c, snapshots[1..], limits[1..], Some(items[|items| - 1]), pages[1..], k);
    }
  }

  lemma WalkNeitherSkipsNorRepeats(
      c: Codec, snapshots: seq<set<Key>>, limits: seq<int>, pages: seq<Page>, k: Key)
    requires c.Faithful() && Walk(c, snapshots, limits, None, pages) && Completed(pages)
    requires forall i | 0 <= i < |snapshots| :: k in snapshots[i]
    ensures multiset(Returned(pages))[k] == 1
  {
    KeysFallAlongTheWalk(c, snapshots, limits, None, pages);
    PersistentKeyIsReturned(c, snapshots, limits, None, pages, k);
    OnceIfDescending(Returned(pages), k);
  }

  lemma {:induction false} OnceIfDescending(ks: seq<Key>, k: Key)
    requires Descending(ks)
    ensures multiset(ks)[k] == if k in ks then 1 else 0
  {
    if ks != [] {
      OnceIfDescending(ks[1..], k);
      assert ks == [ks[0]] + ks[1..];
      assert ks[0] !in ks[1..];
    }
  }
}
