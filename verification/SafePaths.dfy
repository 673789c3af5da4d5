/** The catalog's path languages: what they admit, and why cleaning leaves it alone. */
module SafePaths {
  import opened Prelude
  import opened Patterns
  import opened Text
  import ParamSchema

  const SEGMENT_START: set<char> :=
    set c: char | ('a' <= c <= 'z') || ('A' <= c <= 'Z') || ('0' <= c <= '9') || c == '_'
  const SEGMENT_REST: set<char> := SEGMENT_START + {'.', '-'}

  const SEGMENT := Cat(Chars(SEGMENT_START), Star(Chars(SEGMENT_REST)))
  const DIRECTORIES := Star(Cat(SEGMENT, Chars({'/'})))
  const RELATIVE_PATH := Cat(DIRECTORIES, SEGMENT)
  const ABSOLUTE_PATH := Cat(Chars({'/'}), RELATIVE_PATH)

  /** A segment as the catalog promises it: no leading dot, hence neither "." nor "..". */
  predicate GoodSegment(s: string) {
    s != [] && s[0] in SEGMENT_START && forall i | 0 <= i < |s| :: s[i] in SEGMENT_REST
  }

  predicate AllGood(parts: seq<string>) {
    forall i | 0 <= i < |parts| :: GoodSegment(parts[i])
  }

  // ---- the languages, exactly ----

  lemma {:induction false} StarOfChars(allowed: set<char>, s: string)
    ensures Matches(Star(Chars(allowed)), s) <==> forall i | 0 <= i < |s| :: s[i] in allowed
    decreases |s|
  {
    if s != [] {
      StarOfChars(allowed, s[1..]);
      if Matches(Star(Chars(allowed)), s) {
        var k :| 0 < k <= |s| && Matches(Chars(allowed), s[..k]) && Matches(Star(Chars(allowed)), s[k..]);
        assert k == 1;
        forall i | 0 <= i < |s| ensures s[i] in allowed {
          if i > 0 { assert s[i] == s[1..][i - 1]; }
        }
      } else if forall i | 0 <= i < |s| :: s[i] in allowed {
        assert Matches(Chars(allowed), s[..1]);
      }
    }
  }

  lemma SegmentLanguage(s: string)
    ensures Matches(SEGMENT, s) <==> GoodSegment(s)
  {
    if Matches(SEGMENT, s) {
      var k :| 0 <= k <= |s| && Matches(Chars(SEGMENT_START), s[..k]) && Matches(Star(Chars(SEGMENT_REST)), s[k..]);
      StarOfChars(SEGMENT_REST, s[k..]);
      forall i | 0 <= i < |s| ensures s[i] in SEGMENT_REST {
        if i > 0 { assert s[i] == s[k..][i - 1]; }
      }
    } else if GoodSegment(s) {
      StarOfChars(SEGMENT_REST, s[1..]);
      assert Matches(Chars(SEGMENT_START), s[..1]);
    }
  }

  lemma {:induction false} SplitAfterSegment(seg: string, rest: string, sep: char)
    requires sep !in seg
    ensures Split(seg + [sep] + rest, sep) == [seg] + Split(rest, sep)
  {
    var whole := seg + [sep] + rest;
    if seg == [] {
      assert whole[1..] == rest;
    } else {
      assert seg[0] in seg && [seg[0]] + seg[1..] == seg;
      SplitAfterSegment(seg[1..], rest, sep);
      assert whole[1..] == seg[1..] + [sep] + rest;
    }
  }

  lemma {:induction false} SplitOfSegment(seg: string, sep: char)
    requires sep !in seg
    ensures Split(seg, sep) == [seg]
  {
    if seg != [] {
      assert seg[0] in seg && [seg[0]] + seg[1..] == seg;
      SplitOfSegment(seg[1..], sep);
    }
  }

  /** A relative path of the catalog is exactly one or more good segments. */
  lemma {:induction false} RelativeLanguage(s: string)
    ensures Matches(RELATIVE_PATH, s) <==> AllGood(Split(s, '/'))
    decreases |s|
  {
    if Matches(RELATIVE_PATH, s) { RelativeIsGood(s); }
    if AllGood(Split(s, '/')) { GoodIsRelative(s); }
  }

  /** A non-empty directory prefix starts with one good segment and its slash. */
  lemma FirstDirectory(d: string) returns (n: nat)
    requires d != [] && Matches(DIRECTORIES, d)
    ensures n < |d| && GoodSegment(d[..n]) && d[n] == '/' && Matches(DIRECTORIES, d[n + 1..])
  {
    var j :| 0 < j <= |d| && Matches(Cat(SEGMENT, Chars({'/'})), d[..j]) && Matches(DIRECTORIES, d[j..]);
    var head := d[..j];
    n :| 0 <= n <= |head| && Matches(SEGMENT, head[..n]) && Matches(Chars({'/'}), head[n..]);
    assert head[..n] == d[..n];
    SegmentLanguage(d[..n]);
  }

  lemma {:induction false} RelativeIsGood(s: string)
    requires Matches(RELATIVE_PATH, s)
    ensures AllGood(Split(s, '/'))
    decreases |s|
  {
    var k :| 0 <= k <= |s| && Matches(DIRECTORIES, s[..k]) && Matches(SEGMENT, s[k..]);
    if k == 0 {
      assert s[0..] == s;
      SegmentLanguage(s);
      SplitOfSegment(s, '/');
    } else {
      var n := FirstDirectory(s[..k]);
      var seg, rest := s[..k][..n], s[n + 1..];
      assert s == seg + ['/'] + rest;
      RelativeParts(rest, k - n - 1, s[..k][n + 1..], s[k..]);
      RelativeIsGood(rest);
      SplitAfterSegment(seg, rest, '/');
    }
  }

  lemma RelativeParts(s: string, k: nat, dirs: string, last: string)
    requires k <= |s| && s[..k] == dirs && s[k..] == last
    requires Matches(DIRECTORIES, dirs) && Matches(SEGMENT, last)
    ensures Matches(RELATIVE_PATH, s)
  {
  }

  lemma {:induction false} GoodIsRelative(s: string)
    requires AllGood(Split(s, '/'))
    ensures Matches(RELATIVE_PATH, s)
    decreases |s|
  {
    var parts := Split(s, '/');
    JoinOfSplit(s, '/');
    assert GoodSegment(parts[0]);
    SegmentLanguage(parts[0]);
    if |parts| == 1 {
      RelativeParts(s, 0, [], s);
    } else {
      var seg, rest := parts[0], Join(parts[1..], '/');
      assert s == seg + ['/'] + rest;
      SplitAfterSegment(seg, rest, '/');
      assert Split(rest, '/') == parts[1..];
      GoodIsRelative(rest);
      var k :| 0 <= k <= |rest| && Matches(DIRECTORIES, rest[..k]) && Matches(SEGMENT, rest[k..]);
      PrependDirectory(seg, rest[..k]);
      RelativeParts(s, |seg| + 1 + k, seg + ['/'] + rest[..k], rest[k..]);
    }
  }

  lemma PrependDirectory(seg: string, dirs: string)
    requires Matches(SEGMENT, seg) && Matches(DIRECTORIES, dirs)
    ensures Matches(DIRECTORIES, seg + ['/'] + dirs)
  {
    var d, j := seg + ['/'] + dirs, |seg| + 1;
    assert d[..j][..j - 1] == seg && d[..j][j - 1..] == ['/'] && d[j..] == dirs;
    assert Matches(Cat(SEGMENT, Chars({'/'})), d[..j]);
  }

  lemma AbsoluteLanguage(s: string)
    ensures Matches(ABSOLUTE_PATH, s) <==> s != [] && s[0] == '/' && AllGood(Split(s[1..], '/'))
  {
    if Matches(ABSOLUTE_PATH, s) {
      var k :| 0 <= k <= |s| && Matches(Chars({'/'}), s[..k]) && Matches(RELATIVE_PATH, s[k..]);
      RelativeLanguage(s[1..]);
    }
    if s != [] && s[0] == '/' && AllGood(Split(s[1..], '/')) {
      RelativeLanguage(s[1..]);
      assert Matches(Chars({'/'}), s[..1]);
    }
  }

  // ---- lexical cleaning, as path.Clean does it ----

  /** Keeps real segments, drops "" and ".", lets ".." remove what precedes it. */
  function Reduce(parts: seq<string>, kept: seq<string>, rooted: bool): seq<string> {
    if parts == [] then kept
    else if parts[0] == "" || parts[0] == "." then Reduce(parts[1..], kept, rooted)
    else if parts[0] == ".." then
      if kept != [] && kept[|kept| - 1] != ".." then Reduce(parts[1..], kept[..|kept| - 1], rooted)
      else if rooted then Reduce(parts[1..], kept, rooted)
      else Reduce(parts[1..], kept + [".."], rooted)
    else Reduce(parts[1..], kept + [parts[0]], rooted)
  }

  function Clean(path: string): string {
    if path != [] && path[0] == '/' then "/" + Join(Reduce(Split(path[1..], '/'), [], true), '/')
    else
      var body := Join(Reduce(Split(path, '/'), [], false), '/');
      if body == "" then "." else body
  }

  lemma {:induction false} ReduceKeepsGood(parts: seq<string>, kept: seq<string>, rooted: bool)
    requires AllGood(parts)
    ensures Reduce(parts, kept, rooted) == kept + parts
  {
    if parts != [] {
      assert GoodSegment(parts[0]);
      ReduceKeepsGood(parts[1..], kept + [parts[0]], rooted);
    }
  }

  /** No value the schema accepts is changed by cleaning: there is nothing to traverse. */
  lemma CleanIsIdentity(s: string)
    requires Matches(ABSOLUTE_PATH, s) || Matches(RELATIVE_PATH, s)
    ensures Clean(s) == s
    ensures forall seg | seg in Split(s, '/') :: seg != "." && seg != ".."
  {
    if Matches(ABSOLUTE_PATH, s) {
      AbsoluteLanguage(s);
      var parts := Split(s[1..], '/');
      ReduceKeepsGood(parts, [], true);
      assert [] + parts == parts;
      JoinOfSplit(s[1..], '/');
      assert Split(s, '/') == [[]] + parts;
    } else {
      RelativeLanguage(s);
      var parts := Split(s, '/');
      ReduceKeepsGood(parts, [], false);
      assert [] + parts == parts;
      JoinOfSplit(s, '/');
    }
  }

  // ---- the catalog's patterns ----

  const SEGMENT_TEXT := "[a-zA-Z0-9_][a-zA-Z0-9_.-]*"
  const RELATIVE_TEXT := "(" + SEGMENT_TEXT + "/)*" + SEGMENT_TEXT

  function RelativePattern(): Pattern {
    [[Piece(RELATIVE_TEXT, RELATIVE_PATH)]]
  }

  function AbsolutePattern(): Pattern {
    [[Piece("/" + RELATIVE_TEXT, ABSOLUTE_PATH)]]
  }

  lemma OnePieceTakesItsLanguage(text: string, re: Regex, s: string)
    requires text != "" && text[0] != '^' && text[|text| - 1] != '$'
    ensures Search(Anchored([[Piece(text, re)]]), s) <==> Matches(re, s)
  {
    var p: Pattern := [[Piece(text, re)]];
    SingleBranchIsAnchored(p, s);
    assert p[0][1..] == [] && s[0..|s|] == s;
    assert MatchesAt(p[0][1..], s, |s|, |s|);
    assert MatchesAt(p[0], s, 0, |s|) <==> Matches(re, s);
    assert FullMatch(p, s) <==> MatchesAt(p[0], s, 0, |s|);
  }

  /** A path parameter the registry accepts is one that cleaning leaves alone. */
  lemma AcceptedPathIsClean(spec: ParamSchema.ParamSpec, raw: ParamSchema.Value, p: Pattern)
    requires spec.kind == ParamSchema.StringKind && (p == RelativePattern() || p == AbsolutePattern())
    requires ParamSchema.Coerce(spec, Some(Anchored(p)), raw).Some?
    ensures raw.Str? && Clean(raw.s) == raw.s && forall seg | seg in Split(raw.s, '/') :: seg != "." && seg != ".."
  {
    OnePieceTakesItsLanguage(RELATIVE_TEXT, RELATIVE_PATH, raw.s);
    OnePieceTakesItsLanguage("/" + RELATIVE_TEXT, ABSOLUTE_PATH, raw.s);
    CleanIsIdentity(raw.s);
  }
}
