/** The byte string an audit entry's chain hash commits to, and why it is unambiguous. */
module LedgerEncoding {
  import opened Prelude

  type Byte = b: int | 0 <= b < 256
  type Bytes = seq<Byte>

  // Lengths are machine integers, so a field's length always fits its 8-byte prefix.
  type Text = s: Bytes | |s| < 0x1_0000_0000_0000_0000 witness []
  type Digest = d: Bytes | |d| == 32 witness seq(32, _ => 0)
  type Uuid = u: Bytes | |u| == 16 witness seq(16, _ => 0)

  const NIL_UUID: Uuid := [0, 0, 0, 0, 0, 0, 0, 0, 0, 0, 0, 0, 0, 0, 0, 0]
  const TWO64 := 0x1_0000_0000_0000_0000

  // Years 1 to 9999, counted from 1970: nanoseconds as the program holds them, microseconds as they are rendered.
  const FIRST_MICRO := -62_135_596_800_000_000
  const END_MICRO := 253_402_300_800_000_000

  type Micro = m: int | FIRST_MICRO <= m < END_MICRO
  type Moment = t: int | 1000 * FIRST_MICRO <= t < 1000 * END_MICRO

  /** SHA-256, and RFC 3339 rendering of an instant given in whole microseconds. */
  datatype Codec = Codec(sha: Bytes -> Digest, stamp: Micro -> Text)

  /** What an audit entry says; its place in the chain is kept beside it. */
  datatype Content = Content(
    id: Uuid, occurredAt: Moment, actorType: Text, actorId: Uuid, actorName: Text,
    action: Text, resourceType: Text, resourceId: Text, outcome: Text, reason: Text, error: Text,
    requestId: Text, buildVersion: Text, incident: Option<Uuid>, toolCall: Option<Uuid>)

  function Micros(t: Moment): Micro {
    t / 1000
  }

  // ---- identifiers in canonical hexadecimal ----

  function HexDigit(n: int): Byte
    requires 0 <= n < 16
  {
    if n < 10 then 48 + n else 87 + n
  }

  function Hex(bs: Bytes): (h: Bytes)
    ensures |h| == 2 * |bs|
  {
    if bs == [] then [] else [HexDigit(bs[0] / 16), HexDigit(bs[0] % 16)] + Hex(bs[1..])
  }

  const HYPHEN: Byte := 45

  function UuidText(u: Uuid): (t: Text)
    ensures |t| == 36
  {
    Hex(u[..4]) + [HYPHEN] + Hex(u[4..6]) + [HYPHEN] + Hex(u[6..8]) + [HYPHEN] + Hex(u[8..10]) + [HYPHEN] + Hex(u[10..])
  }

  lemma {:induction false} HexIsInjective(a: Bytes, b: Bytes)
    requires Hex(a) == Hex(b)
    ensures a == b
  {
    if a != [] {
      var x, y := Hex(a), Hex(b);
      assert x[0] == y[0] && x[1] == y[1] && x[2..] == y[2..];
      assert x[2..] == Hex(a[1..]) && y[2..] == Hex(b[1..]);
      HexIsInjective(a[1..], b[1..]);
      assert a[0] == 16 * (a[0] / 16) + a[0] % 16;
      assert a == [a[0]] + a[1..] && b == [b[0]] + b[1..];
    }
  }

  lemma UuidTextIsInjective(a: Uuid, b: Uuid)
    requires UuidText(a) == UuidText(b)
    ensures a == b
  {
    var s, t := UuidText(a), UuidText(b);
    assert s[..8] == Hex(a[..4]) && t[..8] == Hex(b[..4]);
    assert s[9..13] == Hex(a[4..6]) && t[9..13] == Hex(b[4..6]);
    assert s[14..18] == Hex(a[6..8]) && t[14..18] == Hex(b[6..8]);
    assert s[19..23] == Hex(a[8..10]) && t[19..23] == Hex(b[8..10]);
    assert s[24..] == Hex(a[10..]) && t[24..] == Hex(b[10..]);
    HexIsInjective(a[..4], b[..4]);
    HexIsInjective(a[4..6], b[4..6]);
    HexIsInjective(a[6..8], b[6..8]);
    HexIsInjective(a[8..10], b[8..10]);
    HexIsInjective(a[10..], b[10..]);
    assert a == a[..4] + a[4..6] + a[6..8] + a[8..10] + a[10..];
    assert b == b[..4] + b[4..6] + b[6..8] + b[8..10] + b[10..];
  }

  function OptionalText(u: Option<Uuid>): Text {
    if u.None? then [] else UuidText(u.value)
  }

  // ---- integers, big endian ----

  function BigEndian(n: nat, width: nat): (b: Bytes)
    ensures |b| == width
  {
    if width == 0 then [] else BigEndian(n / 256, width - 1) + [n % 256]
  }

  function Pow256(k: nat): nat {
    if k == 0 then 1 else 256 * Pow256(k - 1)
  }

  lemma {:induction false} BigEndianIsInjective(a: nat, b: nat, width: nat)
    requires a < Pow256(width) && b < Pow256(width) && BigEndian(a, width) == BigEndian(b, width)
    ensures a == b
  {
    if width > 0 {
      var x, y := BigEndian(a, width), BigEndian(b, width);
      assert x[width - 1] == y[width - 1] && x[..width - 1] == y[..width - 1];
      assert x[..width - 1] == BigEndian(a / 256, width - 1) && y[..width - 1] == BigEndian(b / 256, width - 1);
      BigEndianIsInjective(a / 256, b / 256, width - 1);
    }
  }

  function U64(n: int): (b: Bytes)
    ensures |b| == 8
  {
    BigEndian(n % TWO64, 8)
  }

  lemma U64IsInjective(a: int, b: int)
    requires U64(a) == U64(b)
    ensures a % TWO64 == b % TWO64
  {
    assert Pow256(8) == TWO64 by {
      assert Pow256(4) == 0x1_0000_0000;
    }
    BigEndianIsInjective(a % TWO64, b % TWO64, 8);
  }

  lemma SameRemainder(a: int, b: int)
    requires a % TWO64 == b % TWO64 && -TWO64 < a - b < TWO64
    ensures a == b
  {
    assert a - b == TWO64 * (a / TWO64 - b / TWO64);
  }

  // ---- length-prefixed fields ----

  function Field(s: Text): Bytes {
    U64(|s|) + s
  }

  function Flatten(parts: seq<Bytes>): Bytes {
    if parts == [] then [] else Flatten(parts[..|parts| - 1]) + parts[|parts| - 1]
  }

  lemma {:induction false} FlattenFront(parts: seq<Bytes>)
    requires parts != []
    ensures Flatten(parts) == parts[0] + Flatten(parts[1..])
  {
    if |parts| == 1 {
      assert parts[..0] == [] && parts[1..] == [];
    } else {
      var front, last, rest := parts[..|parts| - 1], parts[|parts| - 1], parts[1..];
      FlattenFront(front);
      assert front[1..] == rest[..|rest| - 1] && rest[|rest| - 1] == last;
      assert Flatten(rest) == Flatten(front[1..]) + last;
      assert parts[0] + Flatten(front[1..]) + last == parts[0] + (Flatten(front[1..]) + last);
    }
  }

  function EncodeFields(fs: seq<Text>): Bytes {
    Flatten(seq(|fs|, i requires 0 <= i < |fs| => Field(fs[i])))
  }

  /** A length prefix tells where its field ends. */
  lemma FieldParses(a: Text, restA: Bytes, b: Text, restB: Bytes)
    requires Field(a) + restA == Field(b) + restB
    ensures a == b && restA == restB
  {
    var x, y := Field(a) + restA, Field(b) + restB;
    assert x[..8] == U64(|a|) && y[..8] == U64(|b|);
    U64IsInjective(|a|, |b|);
    assert x[8..8 + |a|] == a && y[8..8 + |b|] == b;
    assert x[8 + |a|..] == restA && y[8 + |b|..] == restB;
  }

  lemma EncodeFieldsFront(fs: seq<Text>)
    requires fs != []
    ensures EncodeFields(fs) == Field(fs[0]) + EncodeFields(fs[1..])
  {
    var parts := seq(|fs|, i requires 0 <= i < |fs| => Field(fs[i]));
    FlattenFront(parts);
    assert parts[1..] == seq(|fs[1..]|, i requires 0 <= i < |fs[1..]| => Field(fs[1..][i]));
  }

  /** The length prefixes make the concatenation parse back in one way only. */
  lemma {:induction false} FieldsAreUnambiguous(a: seq<Text>, b: seq<Text>)
    requires |a| == |b| && EncodeFields(a) == EncodeFields(b)
    ensures a == b
  {
    if a != [] {
      EncodeFieldsFront(a);
      EncodeFieldsFront(b);
      FieldParses(a[0], EncodeFields(a[1..]), b[0], EncodeFields(b[1..]));
      FieldsAreUnambiguous(a[1..], b[1..]);
      assert a == [a[0]] + a[1..] && b == [b[0]] + b[1..];
    }
  }

  // ---- one entry ----

  function Fields(c: Codec, x: Content): seq<Text> {
    [UuidText(x.id), c.stamp(Micros(x.occurredAt)), x.actorType, UuidText(x.actorId), x.actorName,
     x.action, x.resourceType, x.resourceId, x.outcome, x.reason, x.error, x.requestId, x.buildVersion,
     OptionalText(x.incident), OptionalText(x.toolCall)]
  }

  function Encode(c: Codec, prev: Bytes, seqNo: int, x: Content): Bytes {
    prev + U64(seqNo) + EncodeFields(Fields(c, x))
  }

  lemma OneMoreField(fs: seq<Text>, f: Text)
    ensures EncodeFields(fs + [f]) == EncodeFields(fs) + Field(f)
  {
    var parts := seq(|fs|, i requires 0 <= i < |fs| => Field(fs[i]));
    var more := seq(|fs + [f]|, i requires 0 <= i < |fs + [f]| => Field((fs + [f])[i]));
    assert more == parts + [Field(f)] && more[..|more| - 1] == parts;
  }

  /** The hash state: what was written to it, and ghostly the fields that makes after the start. */
  class Hasher {
    var written: Bytes
    ghost var start: Bytes
    ghost var fields: seq<Text>

    ghost predicate Valid()
      reads this
    {
      written == start + EncodeFields(fields)
    }

    constructor (prev: Bytes, seqNo: int)
      ensures Valid() && start == prev + U64(seqNo) && fields == []
    {
      written := prev + U64(seqNo);
      start := prev + U64(seqNo);
      fields := [];
    }

    /** Writes one field after its length. */
    method WriteField(f: Text)
      requires Valid()
      modifies this
      ensures Valid() && start == old(start) && fields == old(fields) + [f]
    {
      OneMoreField(fields, f);
      written := written + U64(|f|);
      written := written + f;
      fields := fields + [f];
    }

    /** Writes an identifier that may be absent, as the empty field then. */
    method WriteOptional(u: Option<Uuid>)
      requires Valid()
      modifies this
      ensures Valid() && start == old(start) && fields == old(fields) + [OptionalText(u)]
    {
      if u.Some? {
        WriteField(UuidText(u.value));
      } else {
        WriteField([]);
      }
    }
  }

  method WriteActor(state: Hasher, x: Content)
    requires state.Valid()
    modifies state
    ensures state.Valid() && state.start == old(state.start)
    ensures state.fields == old(state.fields) + [x.actorType, UuidText(x.actorId), x.actorName]
  {
    state.WriteField(x.actorType);
    state.WriteField(UuidText(x.actorId));
    state.WriteField(x.actorName);
  }

  method WriteWho(state: Hasher, c: Codec, x: Content)
    requires state.Valid()
    modifies state
    ensures state.Valid() && state.start == old(state.start)
    ensures state.fields == old(state.fields) +
            [UuidText(x.id), c.stamp(Micros(x.occurredAt)), x.actorType, UuidText(x.actorId), x.actorName]
  {
    state.WriteField(UuidText(x.id));
    state.WriteField(c.stamp(Micros(x.occurredAt)));
    WriteActor(state, x);
  }

  method WriteWhat(state: Hasher, x: Content)
    requires state.Valid()
    modifies state
    ensures state.Valid() && state.start == old(state.start)
    ensures state.fields == old(state.fields) +
            [x.action, x.resourceType, x.resourceId, x.outcome, x.reason, x.error, x.requestId, x.buildVersion]
  {
    state.WriteField(x.action);
    state.WriteField(x.resourceType);
    state.WriteField(x.resourceId);
    state.WriteField(x.outcome);
    state.WriteField(x.reason);
    state.WriteField(x.error);
    state.WriteField(x.requestId);
    state.WriteField(x.buildVersion);
  }

  method ComputeHash(c: Codec, prev: Bytes, seqNo: int, x: Content) returns (h: Digest)
    ensures h == c.sha(Encode(c, prev, seqNo, x))
  {
    var state := new Hasher(prev, seqNo);
    WriteWho(state, c, x);
    WriteWhat(state, x);
    state.WriteOptional(x.incident);
    state.WriteOptional(x.toolCall);
    assert state.fields == Fields(c, x);
    h := c.sha(state.written);
  }

  /** The committed form: time in whole microseconds. */
  function Committed(x: Content): Content {
    x.(occurredAt := 1000 * Micros(x.occurredAt))
  }

  /** What the database gives back: microseconds, and NULL for a nil id. */
  function Stored(x: Content): Content {
    Committed(x).(incident := NullNil(x.incident), toolCall := NullNil(x.toolCall))
  }

  function NullNil(u: Option<Uuid>): Option<Uuid> {
    if u == Some(NIL_UUID) then None else u
  }

  /** Optional identifiers, when present, are real ones. */
  predicate Storable(x: Content) {
    x.incident != Some(NIL_UUID) && x.toolCall != Some(NIL_UUID)
  }

  lemma StorageKeepsWhatIsCommitted(x: Content)
    ensures Committed(Stored(x)) == Committed(x) <==> Storable(x)
  {
    assert Stored(x).incident == NullNil(x.incident) && Stored(x).toolCall == NullNil(x.toolCall);
  }

  /** Different microseconds render differently. */
  ghost predicate StampsDiffer(c: Codec) {
    forall a: Micro, b: Micro :: c.stamp(a) == c.stamp(b) ==> a == b
  }

  /** A rendering that meets this: the distance from the first microsecond, in eight bytes. */
  function Count(m: Micro): Text {
    U64(m - FIRST_MICRO)
  }

  function CountingCodec(): Codec {
    Codec(_ => seq(32, _ => 0), m => Count(m))
  }

  lemma StampsCanDiffer()
    ensures StampsDiffer(CountingCodec())
  {
    var c := CountingCodec();
    forall a: Micro, b: Micro | c.stamp(a) == c.stamp(b) ensures a == b { CountsDiffer(a, b); }
  }

  lemma CountsDiffer(a: Micro, b: Micro)
    requires Count(a) == Count(b)
    ensures a == b
  {
    U64IsInjective(a - FIRST_MICRO, b - FIRST_MICRO);
    SameRemainder(a - FIRST_MICRO, b - FIRST_MICRO);
  }

  predicate Int64(n: int) {
    -0x8000_0000_0000_0000 <= n < 0x8000_0000_0000_0000
  }

  lemma OptionalTextIsInjective(a: Option<Uuid>, b: Option<Uuid>)
    requires OptionalText(a) == OptionalText(b)
    ensures a == b
  {
    if a.Some? && b.Some? { UuidTextIsInjective(a.value, b.value); }
  }

  /** Three parts of equal fixed lengths are found again in their concatenation. */
  lemma PartsOf(p: Bytes, n: Bytes, rest: Bytes, p': Bytes, n': Bytes, rest': Bytes)
    requires |p| == |p'| && |n| == |n'| && p + n + rest == p' + n' + rest'
    ensures p == p' && n == n' && rest == rest'
  {
    var s, t, l, m := p + n + rest, p' + n' + rest', |p|, |p| + |n|;
    assert s[..l] == p && t[..l] == p' && s[l..m] == n && t[l..m] == n' && s[m..] == rest && t[m..] == rest';
  }

  lemma SameBytesSameFields(prev: Bytes, m: int, fs: seq<Text>, prev': Bytes, n: int, gs: seq<Text>)
    requires |prev| == |prev'| && Int64(m) && Int64(n) && |fs| == |gs|
    requires prev + U64(m) + EncodeFields(fs) == prev' + U64(n) + EncodeFields(gs)
    ensures prev == prev' && m == n && fs == gs
  {
    PartsOf(prev, U64(m), EncodeFields(fs), prev', U64(n), EncodeFields(gs));
    U64IsInjective(m, n);
    SameRemainder(m, n);
    FieldsAreUnambiguous(fs, gs);
  }

  /** Same bytes after predecessors of the same length: same predecessor, number and committed content. */
  lemma EncodingIsUnambiguous(c: Codec, prev: Bytes, m: int, x: Content, prev': Bytes, n: int, y: Content)
    requires StampsDiffer(c) && |prev| == |prev'| && Int64(m) && Int64(n)
    requires Encode(c, prev, m, x) == Encode(c, prev', n, y)
    ensures prev == prev' && m == n && Committed(x) == Committed(y)
  {
    SameBytesSameFields(prev, m, Fields(c, x), prev', n, Fields(c, y));
    SameFieldsSameContent(c, x, y);
  }

  lemma SameFieldsSameContent(c: Codec, x: Content, y: Content)
    requires StampsDiffer(c) && Fields(c, x) == Fields(c, y)
    ensures Committed(x) == Committed(y)
  {
    var f, g := Fields(c, x), Fields(c, y);
    assert f[0] == g[0] && f[1] == g[1] && f[2] == g[2] && f[3] == g[3] && f[4] == g[4];
    assert f[5] == g[5] && f[6] == g[6] && f[7] == g[7] && f[8] == g[8] && f[9] == g[9];
    assert f[10] == g[10] && f[11] == g[11] && f[12] == g[12] && f[13] == g[13] && f[14] == g[14];
    UuidTextIsInjective(x.id, y.id);
    UuidTextIsInjective(x.actorId, y.actorId);
    OptionalTextIsInjective(x.incident, y.incident);
    OptionalTextIsInjective(x.toolCall, y.toolCall);
  }

  lemma SameContentSameEncoding(c: Codec, prev: Bytes, n: int, x: Content, y: Content)
    requires Committed(x) == Committed(y)
    ensures Encode(c, prev, n, x) == Encode(c, prev, n, y)
  {
    var a, b := Committed(x), Committed(y);
    assert a.id == b.id && a.occurredAt == b.occurredAt && a.actorType == b.actorType && a.actorId == b.actorId;
    assert a.incident == b.incident && a.toolCall == b.toolCall;
    assert Fields(c, x) == Fields(c, y);
  }
}
