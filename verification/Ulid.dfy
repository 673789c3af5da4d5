/** Sortable identifiers: ten characters of milliseconds, sixteen of entropy, in Crockford base 32. */
module Ulid {
  import opened Prelude

  // "0123456789ABCDEFGHJKMNPQRSTVWXYZ", in two halves.
  const LOWER_HALF := "0123456789ABCDEF"
  const UPPER_HALF := "GHJKMNPQRSTVWXYZ"
  const ALPHABET := LOWER_HALF + UPPER_HALF
  const LENGTH := 26
  const TIME_CHARS := 10
  const RAND_CHARS := 16
  const TWO64 := 0x1_0000_0000_0000_0000
  const TWO50 := 0x4_0000_0000_0000

  type Byte = b: int | 0 <= b < 256
  type Entropy = e: seq<Byte> | |e| == 10 witness seq(10, _ => 0)
  type Digit = d: int | 0 <= d < 32

  // ---- what an identifier says ----

  /** The last `count` base-32 digits of n, most significant first. */
  function Digits(n: nat, count: nat): (ds: seq<Digit>)
    ensures |ds| == count
  {
    if count == 0 then [] else Digits(n / 32, count - 1) + [n % 32]
  }

  function Value(ds: seq<Digit>): nat {
    if ds == [] then 0 else 32 * Value(ds[..|ds| - 1]) + ds[|ds| - 1]
  }

  function Number(bytes: seq<Byte>): nat {
    if bytes == [] then 0 else 256 * Number(bytes[..|bytes| - 1]) + bytes[|bytes| - 1]
  }

  function Render(ds: seq<Digit>): (s: string)
    ensures |s| == |ds| && forall i | 0 <= i < |s| :: s[i] == ALPHABET[ds[i]]
  {
    seq(|ds|, i requires 0 <= i < |ds| => ALPHABET[ds[i]])
  }

  function Encoded(ms: int, entropy: Entropy): (s: string)
    ensures |s| == LENGTH
  {
    Render(Digits(ms % TWO64, TIME_CHARS) + Digits(Number(entropy), RAND_CHARS))
  }

  // ---- the encoder ----

  /** Fills positions 9 down to 0 with the low fifty bits of the time. */
  method WriteTime(b: array<char>, unixMillis: int)
    requires b.Length == LENGTH
    modifies b
    ensures b[..TIME_CHARS] == Render(Digits(unixMillis % TWO64, TIME_CHARS))
    ensures b[TIME_CHARS..] == old(b[TIME_CHARS..])
  {
    var ms := unixMillis % TWO64;
    var i := TIME_CHARS - 1;
    ghost var all := Digits(ms, TIME_CHARS);
    while i >= 0
      invariant -1 <= i < TIME_CHARS && ms >= 0
      invariant all[..i + 1] == Digits(ms, i + 1)
      invariant forall k | i < k < TIME_CHARS :: b[k] == ALPHABET[all[k]]
      invariant b[TIME_CHARS..] == old(b[TIME_CHARS..])
    {
      assert all[i] == all[..i + 1][i] == ms % 32;
      assert all[..i] == all[..i + 1][..i];
      b[i] := ALPHABET[ms % 32];
      ms := ms / 32;
      i := i - 1;
    }
  }

  function Shifted(n: nat, bits: nat): nat {
    if bits == 0 then n else Shifted(n / 2, bits - 1)
  }

  function Doubled(n: nat, times: nat): nat {
    if times == 0 then n else 2 * Doubled(n, times - 1)
  }

  lemma {:induction false} DoubledTwice(n: nat, a: nat, b: nat)
    ensures Doubled(Doubled(n, a), b) == Doubled(n, a + b)
  {
    if b > 0 { DoubledTwice(n, a, b - 1); }
  }

  /** What lies above the digit shifted to does not change it. */
  lemma {:induction false} HighBitsDoNotMatter(n: nat, low: nat, high: nat, shift: nat)
    requires n == low + Doubled(32 * high, shift)
    ensures Shifted(n, shift) % 32 == Shifted(low, shift) % 32
  {
    if shift > 0 { HighBitsDoNotMatter(n / 2, low / 2, high, shift - 1); }
  }

  lemma FewDoublings(n: nat)
    ensures Doubled(n, 5) == 32 * n && Doubled(n, 8) == 256 * n && Doubled(n, 11) == 2048 * n
  {
    assert Doubled(n, 1) == 2 * n;
    assert Doubled(n, 2) == 4 * n;
    assert Doubled(n, 4) == 16 * n;
    assert Doubled(n, 6) == 64 * n;
    assert Doubled(n, 8) == 256 * n;
    assert Doubled(n, 10) == 1024 * n;
  }

  lemma {:induction false} DoubledScales(n: nat, times: nat)
    ensures Doubled(32 * n, times) == 32 * Doubled(n, times)
  {
    if times > 0 { DoubledScales(n, times - 1); }
  }

  /** Five more bits fall out of a sixteen-bit accumulator as they would out of the whole number. */
  lemma AccumulatorSuffices(n: nat, acc: nat, shift: nat)
    requires acc == n % 65536 && shift <= 7
    ensures Shifted(acc, shift) % 32 == Shifted(n, shift) % 32
  {
    var q := n / 65536;
    var high := Doubled(q, 11 - shift);
    DoubledTwice(q, 11 - shift, shift);
    FewDoublings(q);
    DoubledScales(high, shift);
    HighBitsDoNotMatter(n, acc, high, shift);
  }

  /** The bits not yet written out stay where they are when a byte is appended. */
  lemma NextByte(n: nat, next: Byte, bits: nat)
    ensures Shifted(256 * n + next, bits + 8) == Shifted(n, bits)
  {
    var m := 256 * n + next;
    assert Shifted(m, bits + 8) == Shifted(m / 2, bits + 7) == Shifted(m / 4, bits + 6) == Shifted(m / 8, bits + 5);
    assert Shifted(m / 8, bits + 5) == Shifted(m / 16, bits + 4) == Shifted(m / 32, bits + 3);
    assert Shifted(m / 32, bits + 3) == Shifted(m / 64, bits + 2) == Shifted(m / 128, bits + 1);
    assert Shifted(m / 128, bits + 1) == Shifted(m / 256, bits);
  }

  lemma NextAccumulator(n: nat, acc: nat, next: Byte)
    requires acc == n % 65536
    ensures (acc * 256) % 65536 + next == (256 * n + next) % 65536
  {
    var kept := 256 * (acc % 256);
    WrapAround(acc / 256, kept);
    assert 65536 * (acc / 256) + kept == acc * 256;
    WrapAround(256 * (n / 65536) + acc / 256, kept + next);
    assert 65536 * (256 * (n / 65536) + acc / 256) + (kept + next) == 256 * n + next;
  }

  lemma WrapAround(high: nat, low: nat)
    requires low < 65536
    ensures (65536 * high + low) % 65536 == low
  {
  }

  lemma {:induction false} ShiftOnce(n: nat, bits: nat)
    ensures Shifted(n, bits + 1) == Shifted(n, bits) / 2
  {
    if bits > 0 { ShiftOnce(n / 2, bits - 1); }
  }

  lemma ShiftFive(n: nat, bits: nat)
    requires bits >= 5
    ensures Shifted(n, bits - 5) / 32 == Shifted(n, bits)
  {
    ShiftOnce(n, bits - 1);
    ShiftOnce(n, bits - 2);
    ShiftOnce(n, bits - 3);
    ShiftOnce(n, bits - 4);
    ShiftOnce(n, bits - 5);
  }

  /** Taking five bits off the accumulator appends the whole number's next digit. */
  lemma NextDigit(n: nat, acc: nat, bits: nat, count: nat)
    requires 5 <= bits <= 12 && acc == n % 65536
    ensures Digits(Shifted(n, bits - 5), count + 1) == Digits(Shifted(n, bits), count) + [Shifted(acc, bits - 5) % 32]
  {
    ShiftFive(n, bits);
    AccumulatorSuffices(n, acc, bits - 5);
  }

  /** The characters from position 10 on spell these digits. */
  ghost predicate Spells(b: array<char>, digits: seq<Digit>)
    reads b
  {
    TIME_CHARS + |digits| <= b.Length && forall i | 0 <= i < |digits| :: b[TIME_CHARS + i] == ALPHABET[digits[i]]
  }

  /** Writes out whole digits while the accumulator holds five bits or more. */
  method Drain(b: array<char>, acc: nat, bits: nat, pos: nat, ghost n: nat) returns (left: nat, next: nat)
    requires b.Length == LENGTH && acc == n % 65536 && bits <= 12
    requires TIME_CHARS <= pos && 5 * pos + bits <= 5 * LENGTH
    requires Spells(b, Digits(Shifted(n, bits), pos - TIME_CHARS))
    modifies b
    ensures left <= 4 && pos <= next <= LENGTH && 5 * next + left == 5 * pos + bits
    ensures Spells(b, Digits(Shifted(n, left), next - TIME_CHARS))
    ensures forall i | 0 <= i < TIME_CHARS :: b[i] == old(b[i])
  {
    left, next := bits, pos;
    while left >= 5
      invariant left <= bits && pos <= next <= LENGTH && 5 * next + left == 5 * pos + bits
      invariant Spells(b, Digits(Shifted(n, left), next - TIME_CHARS))
      invariant forall i | 0 <= i < TIME_CHARS :: b[i] == old(b[i])
    {
      NextDigit(n, acc, left, next - TIME_CHARS);
      left := left - 5;
      b[next] := ALPHABET[Shifted(acc, left) % 32];
      next := next + 1;
    }
  }

  /** Streams eighty bits into positions 10 to 25, with nothing left over. */
  method WriteEntropy(b: array<char>, entropy: Entropy) returns (pos: nat, bits: nat)
    requires b.Length == LENGTH
    modifies b
    ensures pos == LENGTH && bits == 0
    ensures forall i | 0 <= i < TIME_CHARS :: b[i] == old(b[i])
    ensures Spells(b, Digits(Number(entropy), RAND_CHARS))
  {
    var acc: nat := 0;
    bits := 0;
    pos := TIME_CHARS;
    for k := 0 to |entropy|
      invariant acc == Number(entropy[..k]) % 65536
      invariant bits <= 4 && 8 * k == 5 * (pos - TIME_CHARS) + bits && TIME_CHARS <= pos
      invariant Spells(b, Digits(Shifted(Number(entropy[..k]), bits), pos - TIME_CHARS))
      invariant forall i | 0 <= i < TIME_CHARS :: b[i] == old(b[i])
    {
      ghost var n := Number(entropy[..k]);
      assert entropy[..k + 1][..k] == entropy[..k];
      NextByte(n, entropy[k], bits);
      NextAccumulator(n, acc, entropy[k]);
      acc := (acc * 256) % 65536 + entropy[k];
      bits, pos := Drain(b, acc, bits + 8, pos, 256 * n + entropy[k]);
    }
    assert entropy[..|entropy|] == entropy;
    assert Shifted(Number(entropy), 0) == Number(entropy);
  }

  method NewAt(unixMillis: int, entropy: Entropy) returns (s: string)
    ensures s == Encoded(unixMillis, entropy)
  {
    var b := new char[LENGTH];
    WriteTime(b, unixMillis);
    assert forall i | 0 <= i < TIME_CHARS :: b[i] == b[..TIME_CHARS][i];
    var pos, bits := WriteEntropy(b, entropy);
    s := b[..];
    assert s == Render(Digits(unixMillis % TWO64, TIME_CHARS)) + Render(Digits(Number(entropy), RAND_CHARS));
  }

  // ---- the decoder ----

  function Upper(c: char): char {
    if 'a' <= c <= 'z' then c - 'a' + 'A' else c
  }

  /** Position of a character, or -1. */
  function IndexByte(s: string, c: char): (i: int)
    ensures -1 <= i < |s| && (i >= 0 ==> s[i] == c)
  {
    if s == [] then -1
    else if s[0] == c then 0
    else var rest := IndexByte(s[1..], c); if rest < 0 then -1 else rest + 1
  }

  predicate InAlphabet(c: char) {
    IndexByte(ALPHABET, Upper(c)) >= 0
  }

  predicate WellFormed(s: string) {
    |s| == LENGTH && forall i | 0 <= i < |s| :: InAlphabet(s[i])
  }

  function DigitOf(c: char): Digit
    requires InAlphabet(c)
  {
    IndexByte(ALPHABET, Upper(c))
  }

  function TimeDigits(s: string): (ds: seq<Digit>)
    requires WellFormed(s)
    ensures |ds| == TIME_CHARS && forall i | 0 <= i < TIME_CHARS :: ds[i] == DigitOf(s[i])
  {
    seq(TIME_CHARS, i requires 0 <= i < TIME_CHARS => DigitOf(s[i]))
  }

  method Valid(s: string) returns (ok: bool)
    ensures ok <==> WellFormed(s)
  {
    if |s| != LENGTH {
      return false;
    }
    for i := 0 to |s|
      invariant forall k | 0 <= k < i :: InAlphabet(s[k])
    {
      if IndexByte(ALPHABET, Upper(s[i])) < 0 {
        return false;
      }
    }
    ok := true;
  }

  method Time(s: string) returns (ms: Option<int>)
    ensures ms == if WellFormed(s) then Some(Value(TimeDigits(s))) else None
  {
    var ok := Valid(s);
    if !ok {
      return None;
    }
    var acc := 0;
    ghost var all := TimeDigits(s);
    for i := 0 to TIME_CHARS
      invariant acc == Value(all[..i])
    {
      assert all[..i + 1][..i] == all[..i];
      acc := acc * 32 + IndexByte(ALPHABET, Upper(s[i]));
    }
    assert all[..TIME_CHARS] == all;
    ms := Some(acc);
  }

  // ---- what the codec promises ----

  function Pow32(n: nat): (p: nat)
    ensures p > 0
  {
    if n == 0 then 1 else 32 * Pow32(n - 1)
  }

  lemma {:induction false} ValueOfDigits(n: nat, count: nat)
    requires n < Pow32(count)
    ensures Value(Digits(n, count)) == n
  {
    if count > 0 {
      ValueOfDigits(n / 32, count - 1);
      assert Digits(n, count)[..count - 1] == Digits(n / 32, count - 1);
    }
  }

  function Raised(n: nat, count: nat): nat {
    if count == 0 then n else 32 * Raised(n, count - 1)
  }

  /** Digits above the ones kept do not show. */
  lemma {:induction false} HighDigitsDoNotShow(n: nat, high: nat, count: nat)
    ensures Digits(n + Raised(high, count), count) == Digits(n, count)
  {
    if count > 0 {
      HighDigitsDoNotShow(n / 32, high, count - 1);
      assert (n + Raised(high, count)) / 32 == n / 32 + Raised(high, count - 1);
    }
  }

  lemma RaisedTen(high: nat)
    ensures Raised(high, TIME_CHARS) == TWO50 * high
  {
    assert Raised(high, 1) == 32 * high;
    assert Raised(high, 2) == 0x400 * high;
    assert Raised(high, 4) == 0x10_0000 * high;
    assert Raised(high, 6) == 0x4000_0000 * high;
    assert Raised(high, 8) == 0x100_0000_0000 * high;
  }

  lemma {:induction false} LowerHalfAscends(i: nat, j: nat)
    requires i < j < 16
    ensures LOWER_HALF[i] < LOWER_HALF[j]
    decreases j - i
  {
    if i + 1 < j { LowerHalfAscends(i + 1, j); }
  }

  lemma {:induction false} UpperHalfAscends(i: nat, j: nat)
    requires i < j < 16
    ensures UPPER_HALF[i] < UPPER_HALF[j]
    decreases j - i
  {
    if i + 1 < j { UpperHalfAscends(i + 1, j); }
  }

  lemma AlphabetAscends(i: nat, j: nat)
    requires i < j < 32
    ensures ALPHABET[i] < ALPHABET[j]
  {
    if i < 15 { LowerHalfAscends(i, 15); }
    if j > 16 { UpperHalfAscends(0, j - 16); }
    if j < 16 { LowerHalfAscends(i, j); }
    if i >= 16 { UpperHalfAscends(i - 16, j - 16); }
  }

  lemma {:induction false} IndexOfFirst(s: string, i: nat)
    requires i < |s| && forall j | 0 <= j < i :: s[j] != s[i]
    ensures IndexByte(s, s[i]) == i
  {
    if i > 0 { IndexOfFirst(s[1..], i - 1); }
  }

  /** Decoding a character of the alphabet gives its digit back. */
  lemma DigitOfChar(d: Digit)
    ensures InAlphabet(ALPHABET[d]) && DigitOf(ALPHABET[d]) == d
  {
    forall j: nat | j < d ensures ALPHABET[j] != ALPHABET[d] { AlphabetAscends(j, d); }
    IndexOfFirst(ALPHABET, d);
    if d < 31 { AlphabetAscends(d, 31); }
  }

  lemma RenderedIsDecodable(ds: seq<Digit>)
    ensures forall i | 0 <= i < |ds| :: InAlphabet(Render(ds)[i]) && DigitOf(Render(ds)[i]) == ds[i]
  {
    forall i | 0 <= i < |ds| ensures InAlphabet(Render(ds)[i]) && DigitOf(Render(ds)[i]) == ds[i] {
      DigitOfChar(ds[i]);
    }
  }

  lemma ValueOfLowDigits(low: nat, high: nat, count: nat)
    requires low < Pow32(count)
    ensures Value(Digits(low + Raised(high, count), count)) == low
  {
    HighDigitsDoNotShow(low, high, count);
    ValueOfDigits(low, count);
  }

  lemma EncodedIsDecodable(n: nat, tail: nat)
    ensures var s := Render(Digits(n, TIME_CHARS) + Digits(tail, RAND_CHARS));
            WellFormed(s) && TimeDigits(s) == Digits(n, TIME_CHARS)
  {
    var ds := Digits(n, TIME_CHARS) + Digits(tail, RAND_CHARS);
    RenderedIsDecodable(ds);
    forall i | 0 <= i < LENGTH ensures InAlphabet(Render(ds)[i]) {}
  }

  /** Every identifier made is well formed, and its decoded time is the low fifty bits of its time. */
  lemma EncodedTime(ms: int, entropy: Entropy)
    ensures WellFormed(Encoded(ms, entropy)) && Value(TimeDigits(Encoded(ms, entropy))) == ms % TWO50
  {
    var n: nat := ms % TWO64;
    EncodedIsDecodable(n, Number(entropy));
    LowFiftyBits(n);
    FiftyOfSixtyFour(ms);
  }

  lemma FiftyOfSixtyFour(ms: int)
    ensures (ms % TWO64) % TWO50 == ms % TWO50
  {
  }

  lemma LowFiftyBits(n: nat)
    ensures Value(Digits(n, TIME_CHARS)) == n % TWO50
  {
    TenDigits();
    RaisedTen(n / TWO50);
    ValueOfLowDigits(n % TWO50, n / TWO50, TIME_CHARS);
  }

  /** Decoding inverts encoding exactly for times the fifty bits can hold. */
  lemma TimeRoundTrips(ms: int, entropy: Entropy)
    ensures WellFormed(Encoded(ms, entropy))
    ensures Value(TimeDigits(Encoded(ms, entropy))) == ms <==> 0 <= ms < TWO50
  {
    EncodedTime(ms, entropy);
    FitsExactlyWhen(ms);
  }

  lemma FitsExactlyWhen(ms: int)
    ensures ms % TWO50 == ms <==> 0 <= ms < TWO50
  {
  }

  /** The same character, or the same letter in the other case. */
  predicate SameLetter(a: char, b: char) {
    || a == b
    || ('A' <= a <= 'Z' && b as int == a as int + 32)
    || ('A' <= b <= 'Z' && a as int == b as int + 32)
  }

  /** The case of letters does not matter to the decoder. */
  lemma CaseFolds(s: string, t: string)
    requires |s| == |t| && forall i | 0 <= i < |s| :: SameLetter(s[i], t[i])
    ensures WellFormed(s) <==> WellFormed(t)
    ensures WellFormed(s) ==> TimeDigits(s) == TimeDigits(t)
  {
    forall i | 0 <= i < |s| ensures Upper(s[i]) == Upper(t[i]) { SameLetterFolds(s[i], t[i]); }
    forall i | 0 <= i < |s| ensures InAlphabet(s[i]) <==> InAlphabet(t[i]) {}
  }

  lemma SameLetterFolds(a: char, b: char)
    requires SameLetter(a, b)
    ensures Upper(a) == Upper(b)
  {
  }

  // ---- order ----

  ghost predicate LexLess(s: string, t: string) {
    exists k: nat :: k < |s| && k < |t| && s[..k] == t[..k] && s[k] < t[k]
  }

  /** The first digit where a smaller number differs is smaller. */
  lemma {:induction false} FirstDifference(m: nat, n: nat, count: nat) returns (k: nat)
    requires m < n < Pow32(count)
    ensures k < count && Digits(m, count)[..k] == Digits(n, count)[..k] && Digits(m, count)[k] < Digits(n, count)[k]
  {
    var front, front' := Digits(m / 32, count - 1), Digits(n / 32, count - 1);
    if m / 32 < n / 32 {
      k := FirstDifference(m / 32, n / 32, count - 1);
      assert Digits(m, count)[..k] == front[..k] && Digits(n, count)[..k] == front'[..k];
    } else {
      k := count - 1;
      assert Digits(m, count)[..k] == front && Digits(n, count)[..k] == front';
    }
  }

  /** An earlier time gives a lexicographically smaller identifier, whatever the entropy. */
  lemma TimeOrdersIdentifiers(early: int, late: int, e: Entropy, f: Entropy)
    requires 0 <= early < late < TWO50
    ensures LexLess(Encoded(early, e), Encoded(late, f))
  {
    TenDigits();
    InRangeTimeIsWhole(early);
    InRangeTimeIsWhole(late);
    SmallerNumberSmallerText(early, late, TIME_CHARS, Digits(Number(e), RAND_CHARS), Digits(Number(f), RAND_CHARS));
  }

  lemma InRangeTimeIsWhole(ms: int)
    requires 0 <= ms < TWO64
    ensures ms % TWO64 == ms
  {
  }

  lemma TenDigits()
    ensures Pow32(TIME_CHARS) == TWO50
  {
    assert Pow32(2) == 0x400;
    assert Pow32(4) == 0x10_0000;
    assert Pow32(6) == 0x4000_0000;
    assert Pow32(8) == 0x100_0000_0000;
  }

  lemma SmallerNumberSmallerText(m: nat, n: nat, count: nat, rest: seq<Digit>, rest': seq<Digit>)
    requires m < n < Pow32(count)
    ensures LexLess(Render(Digits(m, count) + rest), Render(Digits(n, count) + rest'))
  {
    var a, b := Digits(m, count), Digits(n, count);
    var k := FirstDifference(m, n, count);
    var s, t := Render(a + rest), Render(b + rest');
    forall i | 0 <= i < k ensures s[i] == t[i] { assert a[..k][i] == b[..k][i]; }
    AlphabetAscends(a[k], b[k]);
    assert s[..k] == t[..k];
  }

  // ---- entropy ----

  lemma {:induction false} NumberIsInjective(a: seq<Byte>, b: seq<Byte>)
    requires |a| == |b| && Number(a) == Number(b)
    ensures a == b
  {
    if a != [] {
      NumberIsInjective(a[..|a| - 1], b[..|b| - 1]);
      assert a == a[..|a| - 1] + [a[|a| - 1]] && b == b[..|b| - 1] + [b[|b| - 1]];
    }
  }

  lemma {:induction false} NumberIsBounded(a: seq<Byte>)
    ensures Number(a) < Doubled(1, 8 * |a|)
  {
    if a != [] {
      NumberIsBounded(a[..|a| - 1]);
      var n := 8 * (|a| - 1);
      DoubledTwice(1, n, 8);
      FewDoublings(Doubled(1, n));
    }
  }

  lemma {:induction false} DigitsHoldBits(count: nat)
    ensures Pow32(count) == Doubled(1, 5 * count)
  {
    if count > 0 {
      DigitsHoldBits(count - 1);
      var n := 5 * (count - 1);
      DoubledTwice(1, n, 5);
      FewDoublings(Doubled(1, n));
    }
  }

  lemma DigitsKeepBytes(e: seq<Byte>, f: seq<Byte>, count: nat)
    requires |e| == |f| && 8 * |e| == 5 * count && Digits(Number(e), count) == Digits(Number(f), count)
    ensures e == f
  {
    NumberIsBounded(e);
    NumberIsBounded(f);
    DigitsHoldBits(count);
    ValueOfDigits(Number(e), count);
    ValueOfDigits(Number(f), count);
    NumberIsInjective(e, f);
  }

  /** Different entropy gives a different identifier at the same time. */
  lemma EntropyIsKept(ms: int, e: Entropy, f: Entropy)
    requires Encoded(ms, e) == Encoded(ms, f)
    ensures e == f
  {
    RenderIsInjective(Digits(ms % TWO64, TIME_CHARS), Digits(Number(e), RAND_CHARS), Digits(Number(f), RAND_CHARS));
    DigitsKeepBytes(e, f, RAND_CHARS);
  }

  lemma RenderIsInjective(front: seq<Digit>, a: seq<Digit>, b: seq<Digit>)
    requires |a| == |b| && Render(front + a) == Render(front + b)
    ensures a == b
  {
    forall i | 0 <= i < |a| ensures a[i] == b[i] {
      assert Render(front + a)[|front| + i] == ALPHABET[a[i]] && Render(front + b)[|front| + i] == ALPHABET[b[i]];
      DigitOfChar(a[i]);
      DigitOfChar(b[i]);
    }
  }

  /** Digits, then letters but for I, L, O and U. */
  lemma AlphabetIsCrockford()
    ensures |ALPHABET| == 32
    ensures forall i, j | 0 <= i < j < 32 :: ALPHABET[i] < ALPHABET[j]
    ensures forall c :: c in ALPHABET <==> '0' <= c <= '9' || ('A' <= c <= 'Z' && c !in {'I', 'L', 'O', 'U'})
  {
    forall i, j | 0 <= i < j < 32 ensures ALPHABET[i] < ALPHABET[j] { AlphabetAscends(i, j); }
  }
}
