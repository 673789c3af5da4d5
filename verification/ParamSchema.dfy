/** Gate one: the tools that exist and the parameters each action accepts. */
module ParamSchema {
  import opened Prelude
  import opened Patterns

  const DEFAULT_MAX_PARAM_LEN := 4096
  const MAX_PARAMS := 64
  const MIN_INT64: int := -0x8000_0000_0000_0000
  const END_INT64: int := 0x8000_0000_0000_0000

  // ---- values as they arrive from JSON or from Go code ----

  datatype Float = Finite(r: real) | Infinite(negative: bool) | NotANumber

  datatype Value =
    | Null
    | Str(s: string)
    | Int(i: int)
    | Num(f: Float)
    | NumText(parsed: Option<Float>)
    | Bool(b: bool)
    | Composite(shape: nat)

  datatype Kind = StringKind | IntKind | FloatKind | BoolKind | UnknownKind

  datatype PatternText = NoPattern | Malformed | Regular(pattern: Pattern)

  datatype ParamSpec = ParamSpec(
    kind: Kind, required: bool, default: Value, options: seq<string>, pattern: PatternText,
    min: real, max: real, maxLen: int)

  datatype ActionDescriptor = ActionDescriptor(params: map<string, ParamSpec>, mutating: bool)

  datatype ToolDescriptor = ToolDescriptor(name: string, actions: map<string, ActionDescriptor>)

  type Params = map<string, Value>

  // ---- coercion of one value ----

  function ToFloat(raw: Value): Option<Float> {
    match raw
    case Int(i) => Some(Finite(i as real))
    case Num(f) => Some(f)
    case NumText(parsed) => parsed
    case _ => None
  }

  predicate IsWhole(f: Float) {
    match f
    case Finite(r) => r == r.Floor as real
    case Infinite(_) => true
    case NotANumber => false
  }

  predicate FitsInt64(f: Float) {
    f.Finite? && MIN_INT64 as real <= f.r < END_INT64 as real
  }

  /** Go's float-to-int64 conversion; outside the range it yields the indefinite value. */
  function ToInt64(f: Float): int {
    if FitsInt64(f) then f.r.Floor else MIN_INT64
  }

  predicate InRange(spec: ParamSpec, f: Float) {
    || (spec.min == 0.0 && spec.max == 0.0)
    || (f.Finite? && spec.min <= f.r <= spec.max)
  }

  predicate HasControl(s: string) {
    exists i | 0 <= i < |s| :: s[i] < 0x20 as char || s[i] == 0x7f as char
  }

  function Limit(spec: ParamSpec): int {
    if spec.maxLen <= 0 then DEFAULT_MAX_PARAM_LEN else spec.maxLen
  }

  function Coerce(spec: ParamSpec, compiled: Option<Pattern>, raw: Value): Option<Value> {
    match spec.kind
    case StringKind =>
      if !raw.Str? then None
      else if |raw.s| > Limit(spec) then None
      else if HasControl(raw.s) then None
      else if spec.options != [] && raw.s !in spec.options then None
      else if compiled.Some? && !Search(compiled.value, raw.s) then None
      else Some(Str(raw.s))
    case IntKind =>
      var f := ToFloat(raw);
      if f.None? || !IsWhole(f.value) || !InRange(spec, f.value) then None else Some(Int(ToInt64(f.value)))
    case FloatKind =>
      var f := ToFloat(raw);
      if f.None? || !f.value.Finite? || !InRange(spec, f.value) then None else Some(Num(f.value))
    case BoolKind => if raw.Bool? then Some(raw) else None
    case UnknownKind => None
  }

  /** out meets every constraint its spec states, said without the conversion. */
  predicate Meets(spec: ParamSpec, compiled: Option<Pattern>, out: Value) {
    match spec.kind
    case StringKind =>
      && out.Str? && |out.s| <= Limit(spec) && !HasControl(out.s)
      && (spec.options != [] ==> out.s in spec.options)
      && (compiled.Some? ==> Search(compiled.value, out.s))
    case IntKind => out.Int? && MIN_INT64 <= out.i < END_INT64
    case FloatKind => out.Num? && out.f.Finite? && InRange(spec, out.f)
    case BoolKind => out.Bool?
    case UnknownKind => false
  }

  /** The same value, whatever Go type carries it. */
  predicate SameValue(a: Value, b: Value) {
    a == b || (ToFloat(a).Some? && ToFloat(a) == ToFloat(b) && ToFloat(a).value.Finite?)
  }

  /** An accepted value meets its spec, and it is the supplied value exactly when an
      integer parameter's number fits in 64 bits. */
  lemma CoerceIsSound(spec: ParamSpec, compiled: Option<Pattern>, raw: Value)
    requires Coerce(spec, compiled, raw).Some?
    ensures var out := Coerce(spec, compiled, raw).value;
            && Meets(spec, compiled, out)
            && (SameValue(raw, out) <==> (spec.kind == IntKind ==> FitsInt64(ToFloat(raw).value)))
            && (spec.kind == IntKind && FitsInt64(ToFloat(raw).value) ==> InRange(spec, Finite(out.i as real)))
  {
    if spec.kind == IntKind {
      var f := ToFloat(raw).value;
      if FitsInt64(f) {
        assert f.r == f.r.Floor as real;
      } else if f.Finite? {
        assert f.r != MIN_INT64 as real;
      }
    }
  }

  /** A bounded integer parameter within the 64-bit range always keeps its value. */
  lemma BoundedIntIsKept(spec: ParamSpec, compiled: Option<Pattern>, raw: Value)
    requires Coerce(spec, compiled, raw).Some? && spec.kind == IntKind
    requires spec.min != 0.0 || spec.max != 0.0
    requires MIN_INT64 as real <= spec.min && spec.max < END_INT64 as real
    ensures SameValue(raw, Coerce(spec, compiled, raw).value)
  {
    CoerceIsSound(spec, compiled, raw);
  }

  /** An unbounded one does not: a whole number past 64 bits becomes a different number. */
  lemma UnboundedIntCanChange(spec: ParamSpec)
    requires spec.kind == IntKind && spec.min == 0.0 && spec.max == 0.0
    ensures Coerce(spec, None, Num(Finite(END_INT64 as real))) == Some(Int(MIN_INT64))
  {
  }

  /** No range is declared. */
  predicate Unbounded(spec: ParamSpec) {
    spec.min == 0.0 && spec.max == 0.0
  }

  lemma ControlCharacters(s: string)
    ensures HasControl(s) <==> exists c :: c in s && (c < ' ' || c as int == 127)
  {
    if HasControl(s) {
      var i :| 0 <= i < |s| && (s[i] < 0x20 as char || s[i] == 0x7f as char);
      assert s[i] in s;
    }
  }

  /** Which strings a parameter accepts: short enough, with no control character, one of the options if
      there are any, and of the required form if there is one. */
  lemma StringAcceptedExactlyWhen(spec: ParamSpec, compiled: Option<Pattern>, raw: Value)
    requires spec.kind == StringKind
    ensures Coerce(spec, compiled, raw).Some? <==>
              && raw.Str? && |raw.s| <= (if spec.maxLen > 0 then spec.maxLen else 4096)
              && !(exists c :: c in raw.s && (c < ' ' || c as int == 127))
              && (spec.options == [] || raw.s in spec.options)
              && (compiled.None? || Search(compiled.value, raw.s))
  {
    if raw.Str? { ControlCharacters(raw.s); }
  }

  /** Which numbers and flags: an integer is a whole number inside its range, if one is declared, a float
      any finite one, and infinities pass only for integers without a range. */
  lemma NumberAcceptedExactlyWhen(spec: ParamSpec, compiled: Option<Pattern>, raw: Value)
    ensures spec.kind == IntKind ==>
              (Coerce(spec, compiled, raw).Some? <==>
                match ToFloat(raw)
                case None => false
                case Some(NotANumber) => false
                case Some(Infinite(_)) => Unbounded(spec)
                case Some(Finite(r)) => r == r.Floor as real && (Unbounded(spec) || spec.min <= r <= spec.max))
    ensures spec.kind == FloatKind ==>
              (Coerce(spec, compiled, raw).Some? <==>
                match ToFloat(raw)
                case Some(Finite(r)) => Unbounded(spec) || spec.min <= r <= spec.max
                case _ => false)
    ensures spec.kind == BoolKind ==> (Coerce(spec, compiled, raw).Some? <==> raw.Bool?)
    ensures spec.kind == UnknownKind ==> Coerce(spec, compiled, raw).None?
  {
  }

  // ---- one call's parameters ----

  type PatternMap = map<string, Pattern>

  function PatternFor(patterns: PatternMap, name: string): Option<Pattern> {
    if name in patterns then Some(patterns[name]) else None
  }

  predicate Supplied(params: Params, name: string) {
    name in params && params[name] != Null
  }

  predicate Acceptable(specs: map<string, ParamSpec>, patterns: PatternMap, params: Params, name: string)
    requires name in specs
  {
    if Supplied(params, name) then Coerce(specs[name], PatternFor(patterns, name), params[name]).Some?
    else !specs[name].required
  }

  predicate Accepts(specs: map<string, ParamSpec>, patterns: PatternMap, params: Params) {
    && |params| <= MAX_PARAMS
    && params.Keys <= specs.Keys
    && forall name | name in specs :: Acceptable(specs, patterns, params, name)
  }

  /** What the normalised set holds under a declared name. */
  function Entry(spec: ParamSpec, compiled: Option<Pattern>, params: Params, name: string): Option<Value> {
    if Supplied(params, name) then Coerce(spec, compiled, params[name])
    else if spec.default != Null then Some(spec.default)
    else None
  }

  function Normalised(specs: map<string, ParamSpec>, patterns: PatternMap, params: Params): Params {
    map name | name in specs && Entry(specs[name], PatternFor(patterns, name), params, name).Some? ::
      Entry(specs[name], PatternFor(patterns, name), params, name).value
  }

  function Validated(specs: map<string, ParamSpec>, patterns: PatternMap, params: Params): Option<Params> {
    if Accepts(specs, patterns, params) then Some(Normalised(specs, patterns, params)) else None
  }

  /** The loops of ValidateParams, visiting the map in an arbitrary order. */
  method CheckParams(specs: map<string, ParamSpec>, patterns: PatternMap, params: Params)
    returns (result: Option<Params>)
    ensures result == Validated(specs, patterns, params)
  {
    if |params| > MAX_PARAMS {
      return None;
    }
    if !(params.Keys <= specs.Keys) {
      return None;
    }
    var out: Params := map[];
    var todo := specs.Keys;
    while todo != {}
      invariant todo <= specs.Keys
      invariant forall name | name in specs && name !in todo :: Acceptable(specs, patterns, params, name)
      invariant forall name | name in out :: name in specs && name !in todo
      invariant forall name | name in specs && name !in todo ::
                  var e := Entry(specs[name], PatternFor(patterns, name), params, name);
                  if e.Some? then name in out && out[name] == e.value else name !in out
    {
      var name :| name in todo;
      var spec := specs[name];
      if !Supplied(params, name) {
        if spec.required {
          assert !Acceptable(specs, patterns, params, name);
          return None;
        }
        if spec.default != Null {
          out := out[name := spec.default];
        }
      } else {
        var v := Coerce(spec, PatternFor(patterns, name), params[name]);
        if v.None? {
          assert !Acceptable(specs, patterns, params, name);
          return None;
        }
        out := out[name := v.value];
      }
      todo := todo - {name};
    }
    assert out == Normalised(specs, patterns, params);
    result := Some(out);
  }

  /** What success means to the executor. */
  lemma ValidationIsSound(specs: map<string, ParamSpec>, patterns: PatternMap, params: Params)
    requires Validated(specs, patterns, params).Some?
    ensures var out := Validated(specs, patterns, params).value;
            && params.Keys <= specs.Keys
            && (forall name | name in specs && specs[name].required :: Supplied(params, name) && name in out)
            && (forall name | name in params && Supplied(params, name) ::
                  && name in out && Meets(specs[name], PatternFor(patterns, name), out[name])
                  && (specs[name].kind == IntKind ==> ToFloat(params[name]).Some?)
                  && ((specs[name].kind == IntKind ==> FitsInt64(ToFloat(params[name]).value)) <==>
                        SameValue(params[name], out[name])))
            && (forall name | name in out && !Supplied(params, name) ::
                  name in specs && out[name] == specs[name].default)
  {
    forall name | name in specs && Supplied(params, name)
      ensures Meets(specs[name], PatternFor(patterns, name), Normalised(specs, patterns, params)[name])
      ensures specs[name].kind == IntKind ==> ToFloat(params[name]).Some?
      ensures (specs[name].kind == IntKind ==> FitsInt64(ToFloat(params[name]).value)) <==>
                SameValue(params[name], Normalised(specs, patterns, params)[name])
    {
      assert Acceptable(specs, patterns, params, name);
      CoerceIsSound(specs[name], PatternFor(patterns, name), params[name]);
    }
    assert forall name | name in specs && specs[name].required :: Acceptable(specs, patterns, params, name);
  }

  /** A call is accepted exactly when it carries no more than 64 parameters, all declared, with every
      required one supplied and every supplied one accepted; then a missing one takes its default, if any. */
  lemma ValidatedExactlyWhen(specs: map<string, ParamSpec>, patterns: PatternMap, params: Params)
    ensures Validated(specs, patterns, params).Some? <==>
              && |params| <= 64 && (forall name | name in params :: name in specs)
              && forall name | name in specs ::
                   if name in params && params[name] != Null
                   then Coerce(specs[name], PatternFor(patterns, name), params[name]).Some?
                   else !specs[name].required
    ensures Validated(specs, patterns, params).Some? ==>
              forall name | name in specs && !(name in params && params[name] != Null) ::
                var out := Validated(specs, patterns, params).value;
                if specs[name].default == Null then name !in out
                else name in out && out[name] == specs[name].default
  {
    assert params.Keys <= specs.Keys <==> forall name | name in params :: name in specs;
    forall name | name in specs
      ensures Acceptable(specs, patterns, params, name) <==>
              if name in params && params[name] != Null
              then Coerce(specs[name], PatternFor(patterns, name), params[name]).Some?
              else !specs[name].required
    {
    }
  }

  /** Every default would itself be accepted unchanged. */
  predicate DefaultsMeetTheirSpecs(specs: map<string, ParamSpec>, patterns: PatternMap) {
    forall name | name in specs && specs[name].default != Null ::
      Coerce(specs[name], PatternFor(patterns, name), specs[name].default) == Some(specs[name].default)
  }

  /** The integer a supplied value was turned into is itself inside the declared range. */
  predicate StaysInRange(spec: ParamSpec, raw: Value) {
    spec.kind == IntKind && ToFloat(raw).Some? ==> InRange(spec, Finite(ToInt64(ToFloat(raw).value) as real))
  }

  /** Coercing a coerced value again changes nothing, exactly when its conversion stayed in range. */
  lemma CoerceTwice(spec: ParamSpec, compiled: Option<Pattern>, raw: Value)
    requires Coerce(spec, compiled, raw).Some?
    ensures var once := Coerce(spec, compiled, raw);
            && (Coerce(spec, compiled, once.value) == once <==> StaysInRange(spec, raw))
            && (Coerce(spec, compiled, once.value).Some? <==> StaysInRange(spec, raw))
  {
    if spec.kind == IntKind {
      var i := ToInt64(ToFloat(raw).value);
      assert (i as real).Floor == i;
    }
  }

  /** Re-validating one entry of the normalised set finds it unchanged, exactly when it stayed in range. */
  lemma EntryIsStable(spec: ParamSpec, compiled: Option<Pattern>, params: Params, out: Params, name: string)
    requires if Supplied(params, name) then Coerce(spec, compiled, params[name]).Some? else !spec.required
    requires spec.default != Null ==> Coerce(spec, compiled, spec.default) == Some(spec.default)
    requires var e := Entry(spec, compiled, params, name);
             if e.Some? then name in out && out[name] == e.value else name !in out
    ensures Supplied(params, name) && !StaysInRange(spec, params[name]) ==>
              Supplied(out, name) && Coerce(spec, compiled, out[name]).None?
    ensures !Supplied(params, name) || StaysInRange(spec, params[name]) ==>
              Entry(spec, compiled, out, name) == Entry(spec, compiled, params, name)
    ensures !Supplied(params, name) || StaysInRange(spec, params[name]) ==>
              if Supplied(out, name) then Coerce(spec, compiled, out[name]).Some? else !spec.required
  {
    if Supplied(params, name) { CoerceTwice(spec, compiled, params[name]); }
  }

  /** The names that will hold a value: those supplied, and those with a default. */
  function Filled(specs: map<string, ParamSpec>, params: Params): set<string> {
    set name | name in specs && (Supplied(params, name) || specs[name].default != Null)
  }

  predicate AllStayInRange(specs: map<string, ParamSpec>, params: Params) {
    forall name | name in specs && Supplied(params, name) :: StaysInRange(specs[name], params[name])
  }

  lemma OneNameAgain(specs: map<string, ParamSpec>, patterns: PatternMap, params: Params, name: string)
    requires Accepts(specs, patterns, params) && DefaultsMeetTheirSpecs(specs, patterns) && name in specs
    ensures var out := Normalised(specs, patterns, params);
            && (name in out <==> name in Filled(specs, params))
            && (Acceptable(specs, patterns, out, name) <==>
                  (Supplied(params, name) ==> StaysInRange(specs[name], params[name])))
            && (Acceptable(specs, patterns, out, name) ==>
                  Entry(specs[name], PatternFor(patterns, name), out, name)
                  == Entry(specs[name], PatternFor(patterns, name), params, name))
  {
    assert Acceptable(specs, patterns, params, name);
    EntryIsStable(specs[name], PatternFor(patterns, name), params, Normalised(specs, patterns, params), name);
  }

  /** Re-validating the whole set returns it unchanged exactly when supplied and defaulted names
      together fit the count limit, and every supplied integer stays in its range once converted. */
  lemma RevalidationIsStable(specs: map<string, ParamSpec>, patterns: PatternMap, params: Params)
    requires Validated(specs, patterns, params).Some? && DefaultsMeetTheirSpecs(specs, patterns)
    ensures var out := Validated(specs, patterns, params).value;
            (Validated(specs, patterns, out) == Some(out) <==>
              |Filled(specs, params)| <= MAX_PARAMS && AllStayInRange(specs, params))
  {
    var out := Normalised(specs, patterns, params);
    forall name | name in specs
      ensures name in out <==> name in Filled(specs, params)
      ensures Acceptable(specs, patterns, out, name) <==>
                (Supplied(params, name) ==> StaysInRange(specs[name], params[name]))
    {
      OneNameAgain(specs, patterns, params, name);
    }
    assert out.Keys == Filled(specs, params) && |out| == |out.Keys|;
    if AllStayInRange(specs, params) {
      forall name | name in specs
        ensures Entry(specs[name], PatternFor(patterns, name), out, name)
                == Entry(specs[name], PatternFor(patterns, name), params, name)
      {
        OneNameAgain(specs, patterns, params, name);
      }
      assert Normalised(specs, patterns, out) == out;
    }
  }

  /** An unbounded integer changes once and then stays. */
  lemma UnboundedIntIsStable(spec: ParamSpec, raw: Value)
    requires spec.kind == IntKind && spec.min == 0.0 && spec.max == 0.0
    ensures StaysInRange(spec, raw)
  {
  }

  /** A range that reaches past 64 bits accepts a number that its own result fails. */
  lemma WideRangeIsNotStable()
    ensures var wide := ParamSpec(IntKind, false, Null, [], NoPattern, 1.0, END_INT64 as real, 0);
            var raw := Num(Finite(END_INT64 as real));
            && Coerce(wide, None, raw) == Some(Int(MIN_INT64))
            && Coerce(wide, None, Int(MIN_INT64)) == None
  {
  }

  // ---- more defaults than one call may carry ----

  const FLAG := ParamSpec(BoolKind, false, Bool(false), [], NoPattern, 0.0, 0.0, 0)

  function Flags(n: nat): map<string, ParamSpec> {
    if n == 0 then map[] else Flags(n - 1)[seq(n, _ => 'x') := FLAG]
  }

  lemma {:induction false} FlagsAreMany(n: nat)
    ensures |Flags(n)| == n && forall name | name in Flags(n) :: Flags(n)[name] == FLAG && |name| <= n
  {
    if n > 0 {
      FlagsAreMany(n - 1);
      assert |seq(n, _ => 'x')| == n;
      assert seq(n, _ => 'x') !in Flags(n - 1);
    }
  }

  /** An empty call to an action with 65 defaulted parameters is accepted, and its result is not. */
  lemma DefaultsCanExceedTheLimit()
    ensures var specs := Flags(65); var first := Validated(specs, map[], map[]);
            first.Some? && |first.value| == 65 && Validated(specs, map[], first.value) == None
  {
    var specs := Flags(65);
    FlagsAreMany(65);
    var out := Normalised(specs, map[], map[]);
    assert out.Keys == specs.Keys;
    assert |out| == |out.Keys| && |specs| == |specs.Keys|;
  }

  // ---- the registry's lookups ----

  type Catalogue = map<string, ToolDescriptor>

  predicate Known(tools: Catalogue, tool: string, action: string) {
    tool in tools && action in tools[tool].actions
  }

  /** The compiled patterns of one action's parameters, anchored when the tool is registered. */
  function CompiledPatterns(ad: ActionDescriptor): PatternMap {
    map name | name in ad.params && ad.params[name].pattern.Regular? :: Anchored(ad.params[name].pattern.pattern)
  }

  function ValidateParams(tools: Catalogue, tool: string, action: string, params: Params): Option<Params> {
    if Known(tools, tool, action) then
      var ad := tools[tool].actions[action];
      Validated(ad.params, CompiledPatterns(ad), params)
    else None
  }

  /** A string accepted under a pattern of one branch is wholly of the pattern's form. */
  lemma AcceptedStringFillsItsPattern(tools: Catalogue, tool: string, action: string, params: Params, name: string)
    requires ValidateParams(tools, tool, action, params).Some? && name in params && params[name] != Null
    requires var spec := tools[tool].actions[action].params[name];
             && spec.kind == StringKind && spec.pattern.Regular?
             && |spec.pattern.pattern| == 1 && !EndsEscaped(spec.pattern.pattern)
    ensures params[name].Str? && FullMatch(tools[tool].actions[action].params[name].pattern.pattern, params[name].s)
  {
    var ad := tools[tool].actions[action];
    assert Acceptable(ad.params, CompiledPatterns(ad), params, name);
    SingleBranchIsAnchored(ad.params[name].pattern.pattern, params[name].s);
  }
}
