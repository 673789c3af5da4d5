/** Topic patterns over dot-separated routing keys, as section 3.1.3.3 of AMQP 0-9-1 defines them. */
module Topics {
  import opened Text

  type Segments = seq<string>

  // ---- what a pattern means ----

  /** `*` takes one segment, `#` any number of them, anything else itself. */
  predicate Takes(word: string, part: Segments) {
    if word == "#" then true else if word == "*" then |part| == 1 else part == [word]
  }

  function Concat(parts: seq<Segments>): Segments {
    if parts == [] then [] else parts[0] + Concat(parts[1..])
  }

  /** The key falls into one part for each word of the pattern. */
  ghost predicate Splits(pattern: Segments, key: Segments, parts: seq<Segments>) {
    |parts| == |pattern| && Concat(parts) == key && forall i | 0 <= i < |pattern| :: Takes(pattern[i], parts[i])
  }

  ghost predicate Fits(pattern: Segments, key: Segments) {
    exists parts :: Splits(pattern, key, parts)
  }

  // ---- one word at a time ----

  lemma NoWordsFitNothingElse(key: Segments)
    ensures Fits([], key) <==> key == []
  {
    if key == [] { assert Splits([], [], []); }
  }

  lemma PrependPart(pattern: Segments, part: Segments, rest: Segments)
    requires pattern != [] && Takes(pattern[0], part) && Fits(pattern[1..], rest)
    ensures Fits(pattern, part + rest)
  {
    var parts :| Splits(pattern[1..], rest, parts);
    var more := [part] + parts;
    assert more[1..] == parts;
    forall i | 0 <= i < |pattern| ensures Takes(pattern[i], more[i]) {
      if i > 0 { assert pattern[1..][i - 1] == pattern[i] && parts[i - 1] == more[i]; }
    }
    assert Splits(pattern, part + rest, more);
  }

  /** A match gives the first word a prefix of the key, and the rest a match. */
  lemma FirstPart(pattern: Segments, key: Segments) returns (n: nat)
    requires pattern != [] && Fits(pattern, key)
    ensures n <= |key| && Takes(pattern[0], key[..n]) && Fits(pattern[1..], key[n..])
  {
    var parts :| Splits(pattern, key, parts);
    n := |parts[0]|;
    assert key == parts[0] + Concat(parts[1..]);
    assert key[..n] == parts[0] && key[n..] == Concat(parts[1..]);
    assert Splits(pattern[1..], key[n..], parts[1..]);
  }

  lemma HashTakesSomePrefix(pattern: Segments, key: Segments)
    requires pattern != [] && pattern[0] == "#"
    ensures Fits(pattern, key) <==> exists n: nat :: n <= |key| && Fits(pattern[1..], key[n..])
  {
    if Fits(pattern, key) {
      var n := FirstPart(pattern, key);
    }
    forall n: nat | n <= |key| && Fits(pattern[1..], key[n..]) ensures Fits(pattern, key) {
      PrependPart(pattern, key[..n], key[n..]);
      assert key[..n] + key[n..] == key;
    }
  }

  lemma TrailingHashFitsAll(key: Segments)
    ensures Fits(["#"], key)
  {
    NoWordsFitNothingElse([]);
    assert ["#"][1..] == [];
    PrependPart(["#"], key, []);
    assert key + [] == key;
  }

  lemma OneWordOneSegment(pattern: Segments, key: Segments)
    requires pattern != [] && pattern[0] != "#"
    ensures Fits(pattern, key) <==>
              key != [] && (pattern[0] == "*" || pattern[0] == key[0]) && Fits(pattern[1..], key[1..])
  {
    if Fits(pattern, key) {
      var n := FirstPart(pattern, key);
      assert n == 1;
    }
    if key != [] && (pattern[0] == "*" || pattern[0] == key[0]) && Fits(pattern[1..], key[1..]) {
      PrependPart(pattern, key[..1], key[1..]);
      assert key[..1] + key[1..] == key;
    }
  }

  /** Every key fits itself read as a pattern. */
  lemma {:induction false} EveryKeyFitsItself(key: Segments)
    ensures Fits(key, key)
  {
    if key == [] {
      NoWordsFitNothingElse([]);
    } else {
      EveryKeyFitsItself(key[1..]);
      PrependPart(key, key[..1], key[1..]);
      assert key[..1] + key[1..] == key;
    }
  }

  // ---- the matcher ----

  /** Walks pattern and key together, trying every split at `#`. */
  method MatchSegments(pattern: Segments, key: Segments) returns (found: bool)
    ensures found <==> Fits(pattern, key)
    decreases |pattern|
  {
    var words, segments := pattern, key;
    while words != []
      invariant |words| <= |pattern|
      invariant Fits(words, segments) <==> Fits(pattern, key)
      decreases |words|
    {
      if words[0] == "#" {
        if |words| == 1 {
          assert words == ["#"];
          TrailingHashFitsAll(segments);
          return true;
        }
        HashTakesSomePrefix(words, segments);
        for i := 0 to |segments| + 1
          invariant forall n: nat | n < i :: !Fits(words[1..], segments[n..])
        {
          var rest := MatchSegments(words[1..], segments[i..]);
          if rest {
            return true;
          }
        }
        return false;
      }
      OneWordOneSegment(words, segments);
      if words[0] == "*" {
        if segments == [] {
          return false;
        }
      } else if segments == [] || words[0] != segments[0] {
        return false;
      }
      words, segments := words[1..], segments[1..];
    }
    NoWordsFitNothingElse(segments);
    found := segments == [];
  }

  /** Both shortcuts agree with the meaning of the pattern. */
  method Matches(pattern: string, key: string) returns (found: bool)
    ensures found <==> Fits(Split(pattern, '.'), Split(key, '.'))
  {
    if pattern == "#" {
      SplitHash();
      TrailingHashFitsAll(Split(key, '.'));
      return true;
    }
    if pattern == key {
      EveryKeyFitsItself(Split(key, '.'));
      return true;
    }
    found := MatchSegments(Split(pattern, '.'), Split(key, '.'));
  }

  lemma SplitHash()
    ensures Split("#", '.') == ["#"]
  {
    assert Split("", '.') == [""];
    assert "#"[1..] == "";
    assert ['#'] + "" == "#";
  }
}
