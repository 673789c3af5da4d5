/** The regular-expression fragment the parameter schemas are written in, and what anchoring its text does. */
module Patterns {
  datatype Regex =
    | Chars(allowed: set<char>)
    | Cat(first: Regex, second: Regex)
    | Star(inner: Regex)
    | Opt(inner: Regex)

  /** s, taken whole, is in the language of re. */
  predicate Matches(re: Regex, s: string)
    decreases re, |s|
  {
    match re
    case Chars(allowed) => |s| == 1 && s[0] in allowed
    case Cat(first, second) => exists k | 0 <= k <= |s| :: Matches(first, s[..k]) && Matches(second, s[k..])
    case Opt(inner) => s == [] || Matches(inner, s)
    case Star(inner) =>
      s == [] || exists k | 0 < k <= |s| :: Matches(inner, s[..k]) && Matches(re, s[k..])
  }

  // ---- patterns as their authors write them ----

  /** A piece of a branch: an anchor, a dollar escaped by a backslash, or anything else with its text. */
  datatype Item =
    | Begin
    | End
    | Dollar
    | Piece(text: string, meaning: Regex)
  {
    function Text(): string {
      match this
      case Begin => "^"
      case End => "$"
      case Dollar => "\\$"
      case Piece(t, _) => t
    }
  }

  // Text that begins with a caret or ends with a dollar is an anchor or an escaped dollar.
  type Token = i: Item | i.Piece? ==> i.text != "" && i.text[0] != '^' && i.text[|i.text| - 1] != '$' witness Begin

  type Branch = seq<Token>

  /** The branches of a top-level alternation. */
  type Pattern = branches: seq<Branch> | |branches| > 0 witness [[]]

  function BranchText(b: Branch): string {
    if b == [] then "" else b[0].Text() + BranchText(b[1..])
  }

  function Written(p: Pattern): string {
    if |p| == 1 then BranchText(p[0]) else BranchText(p[0]) + "|" + Written(p[1..])
  }

  /** Branch b takes exactly s[lo..hi]; the anchors look at the whole of s. */
  predicate MatchesAt(b: Branch, s: string, lo: nat, hi: nat)
    requires lo <= hi <= |s|
    decreases |b|
  {
    if b == [] then lo == hi
    else match b[0]
      case Begin => lo == 0 && MatchesAt(b[1..], s, lo, hi)
      case End => lo == |s| && MatchesAt(b[1..], s, lo, hi)
      case Dollar => lo < hi && s[lo] == '$' && MatchesAt(b[1..], s, lo + 1, hi)
      case Piece(_, re) => exists k | lo <= k <= hi :: Matches(re, s[lo..k]) && MatchesAt(b[1..], s, k, hi)
  }

  /** What a compiled pattern accepts: some branch matches somewhere. */
  predicate Search(p: Pattern, s: string) {
    exists i, lo, hi | 0 <= i < |p| && 0 <= lo <= hi <= |s| :: MatchesAt(p[i], s, lo, hi)
  }

  /** Membership of the whole string, which is what a schema author means. */
  predicate FullMatch(p: Pattern, s: string) {
    exists i | 0 <= i < |p| :: MatchesAt(p[i], s, 0, |s|)
  }

  // ---- anchoring ----

  /** The registry's `anchor`, on text. */
  function Anchor(text: string): string {
    var begun := if text != "" && text[0] == '^' then text else "^" + text;
    if begun[|begun| - 1] == '$' then begun else begun + "$"
  }

  function WithBegin(p: Pattern): Pattern {
    if p[0] != [] && p[0][0].Begin? then p else p[0 := [Begin] + p[0]]
  }

  /** The text ends in a dollar, escaped or not. */
  predicate LooksClosed(b: Branch) {
    b != [] && (b[|b| - 1].End? || b[|b| - 1].Dollar?)
  }

  function WithEnd(p: Pattern): Pattern {
    var n := |p| - 1;
    if LooksClosed(p[n]) then p else p[n := p[n] + [End]]
  }

  function Anchored(p: Pattern): Pattern {
    WithEnd(WithBegin(p))
  }

  /** The text ends in an escaped dollar, so no end anchor is added. */
  predicate EndsEscaped(p: Pattern) {
    var b := p[|p| - 1];
    b != [] && b[|b| - 1].Dollar?
  }

  lemma {:induction false} BranchTextEnds(b: Branch)
    ensures b == [] <==> BranchText(b) == ""
    ensures b != [] ==> (BranchText(b)[0] == '^' <==> b[0].Begin?)
    ensures b != [] ==> (BranchText(b)[|BranchText(b)| - 1] == '$' <==> LooksClosed(b))
  {
    if |b| > 1 {
      BranchTextEnds(b[1..]);
    } else if b != [] {
      assert BranchText(b[1..]) == "";
      assert BranchText(b) == b[0].Text();
    }
  }

  lemma {:induction false} BranchTextAppends(b: Branch, t: Token)
    ensures BranchText(b + [t]) == BranchText(b) + t.Text()
  {
    if b == [] {
      var one: Branch := [t];
      assert one[1..] == [];
    } else {
      assert (b + [t])[1..] == b[1..] + [t];
      BranchTextAppends(b[1..], t);
    }
  }

  lemma WithBeginText(p: Pattern)
    ensures Written(WithBegin(p)) == if Written(p) != "" && Written(p)[0] == '^' then Written(p) else "^" + Written(p)
  {
    BranchTextEnds(p[0]);
    var q := WithBegin(p);
    if q != p {
      assert ([Begin] + p[0])[1..] == p[0];
      assert |p| > 1 ==> q[1..] == p[1..];
    }
  }

  lemma {:induction false} WithEndText(p: Pattern)
    requires Written(p) != ""
    ensures Written(WithEnd(p)) == if Written(p)[|Written(p)| - 1] == '$' then Written(p) else Written(p) + "$"
  {
    if |p| == 1 {
      BranchTextEnds(p[0]);
      BranchTextAppends(p[0], End);
    } else if Written(p[1..]) != "" {
      WithEndText(p[1..]);
      assert WithEnd(p)[1..] == WithEnd(p[1..]);
    } else {
      NothingWritten(p[1..]);
      assert p[1..][0] == p[1] == [] && p[1] + [End] == [End];
      assert WithEnd(p)[1..] == [[End]];
      assert Written([[End]]) == "$" by { BranchTextAppends([], End); }
    }
  }

  lemma NothingWritten(p: Pattern)
    requires Written(p) == ""
    ensures |p| == 1 && p[0] == []
  {
    BranchTextEnds(p[0]);
  }

  /** Anchoring the text is adding these tokens. */
  lemma AnchorIsOnTokens(p: Pattern)
    ensures Written(Anchored(p)) == Anchor(Written(p))
  {
    WithBeginText(p);
    WithEndText(WithBegin(p));
  }

  lemma {:induction false} EndMeansTheEnd(b: Branch, s: string, lo: nat, hi: nat)
    requires lo <= hi <= |s|
    ensures MatchesAt(b + [End], s, lo, hi) <==> hi == |s| && MatchesAt(b, s, lo, hi)
    decreases |b|
  {
    if b == [] {
      var one: Branch := [End];
      assert one[1..] == [];
    } else {
      assert (b + [End])[1..] == b[1..] + [End];
      forall k: nat | lo <= k <= hi { EndMeansTheEnd(b[1..], s, k, hi); }
    }
  }

  /** The anchors reach the outer branches only, and the end one only when the text lacks a dollar. */
  ghost predicate WithinAnchors(p: Pattern, s: string, i: nat, lo: nat, hi: nat) {
    && i < |p| && lo <= hi <= |s| && MatchesAt(p[i], s, lo, hi)
    && (i == 0 ==> lo == 0) && (i == |p| - 1 && !EndsEscaped(p) ==> hi == |s|)
  }

  lemma BranchWithin(p: Pattern, s: string, i: nat, lo: nat, hi: nat)
    requires i < |p| && lo <= hi <= |s|
    ensures MatchesAt(Anchored(p)[i], s, lo, hi) <==> WithinAnchors(p, s, i, lo, hi)
  {
    var q, n := WithBegin(p), |p| - 1;
    if i == 0 && q != p { assert ([Begin] + p[0])[1..] == p[0]; }
    assert MatchesAt(q[i], s, lo, hi) <==> MatchesAt(p[i], s, lo, hi) && (i == 0 ==> lo == 0);
    if i == n {
      if LooksClosed(q[n]) && q[n][|q[n]| - 1].End? {
        assert q[n] == q[n][..|q[n]| - 1] + [End];
        EndMeansTheEnd(q[n][..|q[n]| - 1], s, lo, hi);
      } else {
        EndMeansTheEnd(q[n], s, lo, hi);
      }
    }
  }

  /** What an anchored pattern accepts, for every pattern. */
  lemma AnchoredMeans(p: Pattern, s: string)
    ensures Search(Anchored(p), s) <==> exists i, lo, hi :: WithinAnchors(p, s, i, lo, hi)
  {
    if Search(Anchored(p), s) {
      var i, lo, hi :| 0 <= i < |Anchored(p)| && 0 <= lo <= hi <= |s| && MatchesAt(Anchored(p)[i], s, lo, hi);
      BranchWithin(p, s, i, lo, hi);
    }
    if i, lo, hi :| WithinAnchors(p, s, i, lo, hi) {
      BranchWithin(p, s, i, lo, hi);
    }
  }

  lemma FullMatchIsAccepted(p: Pattern, s: string)
    requires FullMatch(p, s)
    ensures Search(Anchored(p), s)
  {
    var i :| 0 <= i < |p| && MatchesAt(p[i], s, 0, |s|);
    assert WithinAnchors(p, s, i, 0, |s|);
    AnchoredMeans(p, s);
  }

  /** One branch whose text does not end in an escaped dollar: the whole string is bound. */
  lemma SingleBranchIsAnchored(p: Pattern, s: string)
    requires |p| == 1 && !EndsEscaped(p)
    ensures Search(Anchored(p), s) <==> FullMatch(p, s)
  {
    AnchoredMeans(p, s);
    if FullMatch(p, s) { FullMatchIsAccepted(p, s); }
  }

  // ---- where the anchors do not reach ----

  lemma {:induction false} MatchGoesOn(b: Branch, s: string, lo: nat, hi: nat, tail: string)
    requires End !in b && lo <= hi <= |s| && MatchesAt(b, s, lo, hi)
    ensures MatchesAt(b, s + tail, lo, hi)
    decreases |b|
  {
    if b != [] {
      match b[0]
      case Begin => MatchGoesOn(b[1..], s, lo, hi, tail);
      case Dollar => MatchGoesOn(b[1..], s, lo + 1, hi, tail);
      case Piece(_, re) =>
        var k :| lo <= k <= hi && Matches(re, s[lo..k]) && MatchesAt(b[1..], s, k, hi);
        MatchGoesOn(b[1..], s, k, hi, tail);
        assert (s + tail)[lo..k] == s[lo..k];
    }
  }

  lemma {:induction false} MatchStartsLater(b: Branch, s: string, lo: nat, hi: nat, head: string)
    requires Begin !in b && lo <= hi <= |s| && MatchesAt(b, s, lo, hi)
    ensures MatchesAt(b, head + s, |head| + lo, |head| + hi)
    decreases |b|
  {
    if b != [] {
      match b[0]
      case End => MatchStartsLater(b[1..], s, lo, hi, head);
      case Dollar => MatchStartsLater(b[1..], s, lo + 1, hi, head);
      case Piece(_, re) =>
        var k :| lo <= k <= hi && Matches(re, s[lo..k]) && MatchesAt(b[1..], s, k, hi);
        MatchStartsLater(b[1..], s, k, hi, head);
        assert (head + s)[|head| + lo..|head| + k] == s[lo..k];
    }
  }

  /** With two or more branches, or a text ending in an escaped dollar, whatever the first branch
      matches is accepted with any tail. */
  lemma OpenEndAcceptsAnyTail(p: Pattern, w: string, tail: string)
    requires |p| >= 2 || EndsEscaped(p)
    requires End !in p[0] && MatchesAt(p[0], w, 0, |w|)
    ensures Search(Anchored(p), w + tail)
  {
    MatchGoesOn(p[0], w, 0, |w|, tail);
    assert WithinAnchors(p, w + tail, 0, 0, |w|);
    AnchoredMeans(p, w + tail);
  }

  /** With two or more branches, whatever the last one matches is accepted after any head. */
  lemma OpenStartAcceptsAnyHead(p: Pattern, head: string, w: string)
    requires |p| >= 2 && Begin !in p[|p| - 1] && MatchesAt(p[|p| - 1], w, 0, |w|)
    ensures Search(Anchored(p), head + w)
  {
    MatchStartsLater(p[|p| - 1], w, 0, |w|, head);
    assert WithinAnchors(p, head + w, |p| - 1, |head|, |head + w|);
    AnchoredMeans(p, head + w);
  }

  lemma {:induction false} EscapedEndTakesADollar(b: Branch, s: string, lo: nat, hi: nat)
    requires b != [] && b[|b| - 1].Dollar? && lo <= hi <= |s| && MatchesAt(b, s, lo, hi)
    ensures lo < hi && s[hi - 1] == '$'
    decreases |b|
  {
    if |b| > 1 {
      match b[0]
      case Begin => EscapedEndTakesADollar(b[1..], s, lo, hi);
      case End => EscapedEndTakesADollar(b[1..], s, lo, hi);
      case Dollar => EscapedEndTakesADollar(b[1..], s, lo + 1, hi);
      case Piece(_, re) =>
        var k :| lo <= k <= hi && Matches(re, s[lo..k]) && MatchesAt(b[1..], s, k, hi);
        EscapedEndTakesADollar(b[1..], s, k, hi);
    } else {
      assert b[1..] == [];
    }
  }

  ghost predicate Bounded(p: Pattern) {
    forall s :: Search(Anchored(p), s) <==> FullMatch(p, s)
  }

  /** A single branch that brings no end anchor of its own and matches something is bounded exactly
      when its text does not end in an escaped dollar. */
  lemma BoundedExactlyWhen(p: Pattern, w: string)
    requires |p| == 1 && End !in p[0] && MatchesAt(p[0], w, 0, |w|)
    ensures Bounded(p) <==> !EndsEscaped(p)
  {
    if EndsEscaped(p) {
      var s := w + "/";
      OpenEndAcceptsAnyTail(p, w, "/");
      assert Search(Anchored(p), s);
      if FullMatch(p, s) { EscapedEndTakesADollar(p[0], s, 0, |s|); }
    } else {
      forall s ensures Search(Anchored(p), s) <==> FullMatch(p, s) { SingleBranchIsAnchored(p, s); }
    }
  }

  /** Several branches are not bounded as soon as a match of the first has a longer string outside the language. */
  lemma AlternationEscapesTheAnchors(p: Pattern, w: string, tail: string)
    requires |p| >= 2 && End !in p[0] && MatchesAt(p[0], w, 0, |w|) && !FullMatch(p, w + tail)
    ensures Search(Anchored(p), w + tail) && !Bounded(p)
  {
    OpenEndAcceptsAnyTail(p, w, tail);
  }
}
