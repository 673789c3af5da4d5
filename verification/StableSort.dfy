/** The contract of `sort.SliceStable` followed by a first-match scan: the element
    the scan meets first is the best one, and the earliest among equally good ones. */
module StableSort {
  import opened Prelude

  ghost predicate StrictWeakOrder<T(!new)>(less: (T, T) -> bool) {
    && (forall x, y :: less(x, y) ==> !less(y, x))
    && (forall x, y, z :: less(x, z) ==> less(x, y) || less(y, z))
  }

  /** Puts x in front of the first element that is not strictly before it. */
  function Insert<T>(less: (T, T) -> bool, x: T, s: seq<T>): seq<T> {
    if s == [] || !less(s[0], x) then [x] + s else [s[0]] + Insert(less, x, s[1..])
  }

  function Sort<T>(less: (T, T) -> bool, s: seq<T>): seq<T> {
    if s == [] then [] else Insert(less, s[0], Sort(less, s[1..]))
  }

  function First<T>(p: T -> bool, s: seq<T>): Option<T> {
    if s == [] then None else if p(s[0]) then Some(s[0]) else First(p, s[1..])
  }

  /** No element comes strictly before an earlier one. */
  ghost predicate Sorted<T>(less: (T, T) -> bool, s: seq<T>) {
    forall i, j | 0 <= i < j < |s| :: !less(s[j], s[i])
  }

  /** s[i] satisfies p, strictly beats every earlier candidate and is beaten by none. */
  ghost predicate Wins<T>(less: (T, T) -> bool, p: T -> bool, s: seq<T>, i: int) {
    && 0 <= i < |s| && p(s[i])
    && (forall j | 0 <= j < |s| && p(s[j]) ::
          (j < i ==> less(s[i], s[j])) && (i < j ==> !less(s[j], s[i])))
  }

  lemma NotLessTransitive<T(!new)>(less: (T, T) -> bool, a: T, b: T, c: T)
    requires StrictWeakOrder(less) && !less(a, b) && !less(b, c)
    ensures !less(a, c)
  {
  }

  lemma {:induction false} InsertKeepsElements<T>(less: (T, T) -> bool, x: T, s: seq<T>)
    ensures multiset(Insert(less, x, s)) == multiset{x} + multiset(s)
  {
    if s != [] && less(s[0], x) {
      InsertKeepsElements(less, x, s[1..]);
      assert s == [s[0]] + s[1..];
    }
  }

  lemma {:induction false} SortIsPermutation<T>(less: (T, T) -> bool, s: seq<T>)
    ensures multiset(Sort(less, s)) == multiset(s)
  {
    if s != [] {
      SortIsPermutation(less, s[1..]);
      InsertKeepsElements(less, s[0], Sort(less, s[1..]));
      assert s == [s[0]] + s[1..];
    }
  }

  lemma {:induction false} InsertKeepsSorted<T(!new)>(less: (T, T) -> bool, x: T, s: seq<T>)
    requires StrictWeakOrder(less) && Sorted(less, s)
    ensures Sorted(less, Insert(less, x, s))
  {
    if s != [] && less(s[0], x) {
      var rest := Insert(less, x, s[1..]);
      InsertKeepsSorted(less, x, s[1..]);
      InsertKeepsElements(less, x, s[1..]);
      forall j | 0 <= j < |rest| ensures !less(rest[j], s[0]) {
        assert rest[j] in multiset(rest);
        assert rest[j] == x || rest[j] in s[1..];
      }
    } else if s != [] {
      forall j | 0 <= j < |s| ensures !less(s[j], x) {
        NotLessTransitive(less, s[j], s[0], x);
      }
    }
  }

  lemma {:induction false} SortSorts<T(!new)>(less: (T, T) -> bool, s: seq<T>)
    requires StrictWeakOrder(less)
    ensures Sorted(less, Sort(less, s))
  {
    if s != [] {
      SortSorts(less, s[1..]);
      InsertKeepsSorted(less, s[0], Sort(less, s[1..]));
    }
  }

  /** Scanning after an insertion compares the newcomer with the old first match only. */
  lemma {:induction false} FirstAfterInsert<T(!new)>(less: (T, T) -> bool, p: T -> bool, x: T, s: seq<T>)
    requires StrictWeakOrder(less) && Sorted(less, s)
    ensures First(p, Insert(less, x, s)) ==
            var f := First(p, s);
            if !p(x) then f else if f.None? || !less(f.value, x) then Some(x) else f
  {
    if s != [] && less(s[0], x) {
      FirstAfterInsert(less, p, x, s[1..]);
    } else if s != [] {
      FirstIsLater(less, p, x, s);
      assert Insert(less, x, s)[1..] == s;
    }
  }

  lemma {:induction false} FirstIsLater<T(!new)>(less: (T, T) -> bool, p: T -> bool, x: T, s: seq<T>)
    requires StrictWeakOrder(less) && Sorted(less, s) && s != [] && !less(s[0], x)
    ensures First(p, s).Some? ==> !less(First(p, s).value, x)
  {
    if !p(s[0]) && |s| > 1 {
      NotLessTransitive(less, s[1], s[0], x);
      FirstIsLater(less, p, x, s[1..]);
    }
  }

  /** The refinement: sort once then scan gives the winner of the unsorted list. */
  lemma {:induction false} SortThenScan<T(!new)>(less: (T, T) -> bool, p: T -> bool, s: seq<T>)
    returns (w: int)
    requires StrictWeakOrder(less)
    ensures First(p, Sort(less, s)).None? <==> forall j | 0 <= j < |s| :: !p(s[j])
    ensures First(p, Sort(less, s)).Some? ==>
              Wins(less, p, s, w) && First(p, Sort(less, s)) == Some(s[w])
  {
    w := -1;
    if s != [] {
      var x, rest := s[0], s[1..];
      var v := SortThenScan(less, p, rest);
      SortSorts(less, rest);
      FirstAfterInsert(less, p, x, Sort(less, rest));
      var f := First(p, Sort(less, rest));
      if p(x) && (f.None? || !less(f.value, x)) {
        w := 0;
        forall j | 0 < j < |s| && p(s[j]) ensures !less(s[j], x) {
          assert s[j] == rest[j - 1];
          if f.Some? { NotLessTransitive(less, s[j], f.value, x); }
        }
      } else if f.Some? {
        w := v + 1;
        forall j | 0 <= j < |s| && p(s[j])
          ensures (j < w ==> less(s[w], s[j])) && (w < j ==> !less(s[j], s[w]))
        {
          if j > 0 { assert s[j] == rest[j - 1]; }
        }
      } else {
        forall j | 0 <= j < |s| ensures !p(s[j]) {
          if j > 0 { assert s[j] == rest[j - 1]; }
        }
      }
    }
  }
}
