/** The token-bucket limiter. Time is in seconds, from a clock that does not run backwards. */
module RateLimiter {
  import opened Prelude

  type Key = string

  const DEFAULT_RATE := 20.0
  const DEFAULT_BURST := 40
  const DEFAULT_TTL := 600.0
  const SWEEP_INTERVAL := 60.0

  /** `gain` is what refills in a time, `wait` the time a number of tokens takes to refill. */
  datatype Config = Config(burst: int, ttl: real, gain: real -> real, wait: real -> real) {
    ghost predicate AddsUp(a: real, b: real) {
      gain(a + b) == gain(a) + gain(b)
    }

    ghost predicate Grows(a: real, b: real) {
      a < b ==> gain(a) < gain(b)
    }

    ghost predicate Refills(missing: real) {
      gain(wait(missing)) == missing
    }

    /** A steady refill: all that the limiter's promises rest on. */
    ghost predicate Steady() {
      && burst > 0 && ttl > 0.0
      && (forall a, b :: AddsUp(a, b)) && (forall a, b :: Grows(a, b)) && (forall m :: Refills(m))
    }

    /** An idle bucket is evicted only once it is full again. */
    predicate OutlastsRefill() {
      gain(ttl) >= burst as real
    }
  }

  /** The refill of a token bucket: `rate` tokens a second. */
  function Linear(rate: real, burst: int, ttl: real): Config
    requires rate > 0.0
  {
    Config(burst, ttl, elapsed => elapsed * rate, missing => missing / rate)
  }

  lemma LinearIsSteady(rate: real, burst: int, ttl: real)
    requires rate > 0.0 && burst > 0 && ttl > 0.0
    ensures Linear(rate, burst, ttl).Steady()
    ensures Linear(rate, burst, ttl).OutlastsRefill() <==> ttl * rate >= burst as real
  {
    var cfg := Linear(rate, burst, ttl);
    forall a, b ensures cfg.AddsUp(a, b) { Distribute(rate, a, b); }
    forall a, b ensures cfg.Grows(a, b) { if a < b { Positive(b - a, rate); Distribute(rate, a, b - a); } }
    forall m ensures cfg.Refills(m) { DivideBack(m, rate); }
  }

  lemma Distribute(rate: real, a: real, b: real)
    ensures (a + b) * rate == a * rate + b * rate
  {
  }

  lemma Positive(a: real, b: real)
    requires a > 0.0 && b > 0.0
    ensures a * b > 0.0
  {
  }

  lemma DivideBack(m: real, rate: real)
    requires rate > 0.0
    ensures m / rate * rate == m
  {
  }

  /** The configuration as built, with defaults for what is missing or not positive. */
  function WithDefaults(rate: real, burst: int, ttl: real): Config {
    Linear(if rate <= 0.0 then DEFAULT_RATE else rate, if burst <= 0 then DEFAULT_BURST else burst,
           if ttl <= 0.0 then DEFAULT_TTL else ttl)
  }

  lemma DefaultsAreSteady(rate: real, burst: int, ttl: real)
    ensures WithDefaults(0.0, 0, 0.0) == Linear(20.0, 40, 600.0)
    ensures WithDefaults(rate, burst, ttl).Steady()
    ensures rate > 0.0 && burst > 0 && ttl > 0.0 ==> WithDefaults(rate, burst, ttl) == Linear(rate, burst, ttl)
    ensures WithDefaults(0.0, 0, 0.0).OutlastsRefill()
  {
    LinearIsSteady(if rate <= 0.0 then DEFAULT_RATE else rate, if burst <= 0 then DEFAULT_BURST else burst,
                   if ttl <= 0.0 then DEFAULT_TTL else ttl);
    LinearIsSteady(DEFAULT_RATE, DEFAULT_BURST, DEFAULT_TTL);
  }

  datatype Bucket = Bucket(tokens: real, lastSeen: real)

  type Buckets = map<Key, Bucket>

  datatype Store = Store(buckets: Buckets, lastSweep: real)

  datatype Decision = Decision(allowed: bool, remaining: int, limit: int, retryAfter: real, resetAt: Option<real>)

  function MinReal(a: real, b: real): real {
    if a < b then a else b
  }

  /** Conversion of a real to an integer, toward zero. */
  function Truncate(x: real): int {
    if x >= 0.0 then x.Floor else -(-x).Floor
  }

  function Refilled(cfg: Config, tokens: real, elapsed: real): real {
    if elapsed > 0.0 then MinReal(cfg.burst as real, tokens + cfg.gain(elapsed)) else tokens
  }

  /** What the key could spend at `now`. An unknown key has a full bucket. */
  function LevelAt(cfg: Config, buckets: Buckets, key: Key, now: real): real {
    if key in buckets then Refilled(cfg, buckets[key].tokens, now - buckets[key].lastSeen) else cfg.burst as real
  }

  predicate Stale(cfg: Config, b: Bucket, now: real) {
    now - b.lastSeen > cfg.ttl
  }

  function Evicted(cfg: Config, buckets: Buckets, now: real): Buckets {
    map k | k in buckets && !Stale(cfg, buckets[k], now) :: buckets[k]
  }

  function Swept(cfg: Config, s: Store, now: real): Store {
    if now - s.lastSweep >= SWEEP_INTERVAL then Store(Evicted(cfg, s.buckets, now), now) else s
  }

  function FullRefill(cfg: Config, level: real): real {
    if cfg.burst as real - level <= 0.0 then 0.0 else cfg.wait(cfg.burst as real - level)
  }

  // ---- the calls, as functions of the state ----

  datatype Call =
    | AllowN(key: Key, cost: int, at: real)
    | Peek(key: Key, at: real)
    | Reset(key: Key, at: real)

  function Grant(cfg: Config, left: real, now: real): Decision {
    Decision(true, Truncate(left), cfg.burst, 0.0, Some(now + FullRefill(cfg, left)))
  }

  function Refusal(cfg: Config, level: real, cost: int, remaining: int, now: real): Decision {
    Decision(false, remaining, cfg.burst, cfg.wait(cost as real - level), Some(now + FullRefill(cfg, level)))
  }

  function Spend(cfg: Config, level: real, n: int, now: real): Decision {
    if level < n as real then Refusal(cfg, level, n, Truncate(level), now) else Grant(cfg, level - n as real, now)
  }

  function Look(cfg: Config, buckets: Buckets, key: Key, now: real): Decision {
    var level := LevelAt(cfg, buckets, key, now);
    if key !in buckets then Decision(true, cfg.burst, cfg.burst, 0.0, None)
    else if level < 1.0 then Refusal(cfg, level, 1, 0, now)
    else Grant(cfg, level, now)
  }

  function Charged(cfg: Config, buckets: Buckets, key: Key, n: int, now: real): Buckets {
    var level := LevelAt(cfg, buckets, key, now);
    buckets[key := Bucket(if level < n as real then level else level - n as real, now)]
  }

  /** The state a call acts on. Only AllowN sweeps; a limiter that never evicts never does. */
  function Ready(cfg: Config, sweeps: bool, s: Store, call: Call): Store {
    if sweeps && call.AllowN? then Swept(cfg, s, call.at) else s
  }

  function Step(cfg: Config, sweeps: bool, s: Store, call: Call): Store {
    var r := Ready(cfg, sweeps, s, call);
    match call
    case AllowN(key, n, now) => r.(buckets := Charged(cfg, r.buckets, key, n, now))
    case Peek(_, _) => r
    case Reset(key, _) => r.(buckets := r.buckets - {key})
  }

  function Reply(cfg: Config, sweeps: bool, s: Store, call: Call): Option<Decision> {
    var r := Ready(cfg, sweeps, s, call);
    match call
    case AllowN(key, n, now) => Some(Spend(cfg, LevelAt(cfg, r.buckets, key, now), n, now))
    case Peek(key, now) => Some(Look(cfg, r.buckets, key, now))
    case Reset(_, _) => None
  }

  function Run(cfg: Config, sweeps: bool, s: Store, calls: seq<Call>): Store
    decreases |calls|
  {
    if calls == [] then s else Run(cfg, sweeps, Step(cfg, sweeps, s, calls[0]), calls[1..])
  }

  // ---- the object ----

  class Limiter {
    const cfg: Config
    var buckets: Buckets
    var lastSweep: real

    ghost function Value(): Store
      reads this
    {
      Store(buckets, lastSweep)
    }

    constructor (rate: real, burst: int, ttl: real, now: real)
      ensures cfg == WithDefaults(rate, burst, ttl) && Value() == Store(map[], now)
    {
      cfg := WithDefaults(rate, burst, ttl);
      buckets := map[];
      lastSweep := now;
    }

    method EvictLocked(now: real)
      modifies this`buckets
      ensures buckets == Evicted(cfg, old(buckets), now)
    {
      ghost var before := buckets;
      var keys := buckets.Keys;
      while keys != {}
        invariant keys <= buckets.Keys
        invariant buckets.Keys <= before.Keys
        invariant forall k | k in buckets :: buckets[k] == before[k] && (k in keys || !Stale(cfg, before[k], now))
        invariant forall k | k in before && k !in buckets :: Stale(cfg, before[k], now)
        decreases |keys|
      {
        var key :| key in keys;
        if Stale(cfg, buckets[key], now) {
          buckets := buckets - {key};
        }
        keys := keys - {key};
      }
    }

    method AllowN(key: Key, n: int, now: real) returns (d: Decision)
      modifies this
      ensures Value() == Step(cfg, true, old(Value()), Call.AllowN(key, n, now))
      ensures Some(d) == Reply(cfg, true, old(Value()), Call.AllowN(key, n, now))
    {
      if now - lastSweep >= SWEEP_INTERVAL {
        EvictLocked(now);
        lastSweep := now;
      }
      assert Value() == Swept(cfg, old(Value()), now);
      d := Consume(key, n, now);
    }

    method Consume(key: Key, n: int, now: real) returns (d: Decision)
      modifies this`buckets
      ensures buckets == Charged(cfg, old(buckets), key, n, now)
      ensures d == Spend(cfg, LevelAt(cfg, old(buckets), key, now), n, now)
    {
      var tokens := cfg.burst as real;
      if key in buckets {
        var elapsed := now - buckets[key].lastSeen;
        tokens := buckets[key].tokens;
        if elapsed > 0.0 {
          tokens := MinReal(cfg.burst as real, tokens + cfg.gain(elapsed));
        }
      }
      assert tokens == LevelAt(cfg, buckets, key, now);
      var cost := n as real;
      if tokens < cost {
        buckets := buckets[key := Bucket(tokens, now)];
        var retryAfter := cfg.wait(cost - tokens);
        return Decision(false, Truncate(tokens), cfg.burst, retryAfter, Some(now + FullRefill(cfg, tokens)));
      }
      tokens := tokens - cost;
      buckets := buckets[key := Bucket(tokens, now)];
      d := Decision(true, Truncate(tokens), cfg.burst, 0.0, Some(now + FullRefill(cfg, tokens)));
    }

    /** Looks without a trace. */
    method Peek(key: Key, now: real) returns (d: Decision)
      ensures Some(d) == Reply(cfg, true, Value(), Call.Peek(key, now))
    {
      if key !in buckets {
        return Decision(true, cfg.burst, cfg.burst, 0.0, None);
      }
      var tokens := buckets[key].tokens;
      var elapsed := now - buckets[key].lastSeen;
      if elapsed > 0.0 {
        tokens := MinReal(cfg.burst as real, tokens + cfg.gain(elapsed));
      }
      if tokens < 1.0 {
        return Decision(false, 0, cfg.burst, cfg.wait(1.0 - tokens), Some(now + FullRefill(cfg, tokens)));
      }
      d := Decision(true, Truncate(tokens), cfg.burst, 0.0, Some(now + FullRefill(cfg, tokens)));
    }

    method Reset(key: Key)
      modifies this`buckets
      ensures forall now :: Value() == Step(cfg, true, old(Value()), Call.Reset(key, now))
    {
      buckets := buckets - {key};
    }
  }
}

/** What the limiter promises over every run of calls. */
module RateLimiterRuns {
  import opened Prelude
  import opened RateLimiter

  /** Calls in clock order, none before `now`. */
  ghost predicate InOrder(calls: seq<Call>, now: real) {
    && (forall i | 0 <= i < |calls| :: now <= calls[i].at)
    && (forall i, j | 0 <= i < j < |calls| :: calls[i].at <= calls[j].at)
  }

  ghost predicate Sane(cfg: Config, s: Store, now: real) {
    forall k | k in s.buckets :: s.buckets[k].tokens >= 0.0 && s.buckets[k].lastSeen <= now
  }

  // ---- levels ----

  lemma GainSplits(cfg: Config, a: real, b: real)
    requires cfg.Steady()
    ensures cfg.gain(a + b) == cfg.gain(a) + cfg.gain(b)
  {
    assert cfg.AddsUp(a, b);
  }

  lemma GainIsNonnegative(cfg: Config, a: real)
    requires cfg.Steady() && a >= 0.0
    ensures cfg.gain(a) >= 0.0
  {
    GainOfNothing(cfg);
    assert cfg.Grows(0.0, a);
  }

  lemma GainOfNothing(cfg: Config)
    requires cfg.Steady()
    ensures cfg.gain(0.0) == 0.0
  {
    assert cfg.AddsUp(0.0, 0.0);
    assert 0.0 + 0.0 == 0.0;
  }

  lemma GainGrows(cfg: Config, a: real, b: real)
    requires cfg.Steady() && a <= b
    ensures cfg.gain(a) <= cfg.gain(b)
  {
    assert cfg.Grows(a, b);
  }

  /** A key's level now decides its level from now on. */
  lemma LevelEvolves(cfg: Config, buckets: Buckets, key: Key, now: real, after: real)
    requires cfg.Steady() && now <= after
    requires key in buckets ==> buckets[key].lastSeen <= now
    ensures LevelAt(cfg, buckets, key, after) == Refilled(cfg, LevelAt(cfg, buckets, key, now), after - now)
  {
    GainIsNonnegative(cfg, after - now);
    if key in buckets {
      var seen := buckets[key].lastSeen;
      GainSplits(cfg, now - seen, after - now);
      assert (now - seen) + (after - now) == after - seen;
      if now >= seen { GainIsNonnegative(cfg, now - seen); }
    }
  }

  lemma LevelIsNonnegative(cfg: Config, s: Store, key: Key, now: real)
    requires cfg.Steady() && Sane(cfg, s, now)
    ensures LevelAt(cfg, s.buckets, key, now) >= 0.0
  {
    if key in s.buckets { GainIsNonnegative(cfg, now - s.buckets[key].lastSeen); }
  }

  lemma StepKeepsSane(cfg: Config, sweeps: bool, s: Store, call: Call)
    requires cfg.Steady() && Sane(cfg, s, call.at)
    ensures Sane(cfg, Step(cfg, sweeps, s, call), call.at)
  {
    LevelIsNonnegative(cfg, Ready(cfg, sweeps, s, call), call.key, call.at);
  }

  /** A bucket the sweep drops was full again. */
  lemma EvictionKeepsLevels(cfg: Config, buckets: Buckets, key: Key, now: real)
    requires cfg.Steady() && cfg.OutlastsRefill()
    requires key in buckets ==> buckets[key].tokens >= 0.0
    ensures LevelAt(cfg, Evicted(cfg, buckets, now), key, now) == LevelAt(cfg, buckets, key, now)
  {
    if key in buckets && Stale(cfg, buckets[key], now) {
      GainGrows(cfg, cfg.ttl, now - buckets[key].lastSeen);
    }
  }

  lemma ReadyKeepsLevels(cfg: Config, sweeps: bool, s: Store, call: Call, key: Key)
    requires cfg.Steady() && (sweeps ==> cfg.OutlastsRefill()) && Sane(cfg, s, call.at)
    ensures LevelAt(cfg, Ready(cfg, sweeps, s, call).buckets, key, call.at) == LevelAt(cfg, s.buckets, key, call.at)
  {
    if sweeps { EvictionKeepsLevels(cfg, s.buckets, key, call.at); }
  }

  function CostTo(call: Call, key: Key): int {
    if call.AllowN? && call.key == key then call.cost else 0
  }

  predicate Granted(reply: Option<Decision>) {
    reply.Some? && reply.value.allowed
  }

  /** What the call admits for the key. */
  function Admits(cfg: Config, sweeps: bool, s: Store, call: Call, key: Key): int {
    if Granted(Reply(cfg, sweeps, s, call)) then CostTo(call, key) else 0
  }

  predicate Resets(call: Call, key: Key) {
    call.Reset? && call.key == key
  }

  /** A call takes from a key's level what it admits for that key, and nothing else. */
  lemma StepTakesWhatItAdmits(cfg: Config, sweeps: bool, s: Store, call: Call, key: Key)
    requires cfg.Steady() && (sweeps ==> cfg.OutlastsRefill()) && Sane(cfg, s, call.at) && !Resets(call, key)
    ensures LevelAt(cfg, Step(cfg, sweeps, s, call).buckets, key, call.at)
         == LevelAt(cfg, s.buckets, key, call.at) - Admits(cfg, sweeps, s, call, key) as real
  {
    ReadyKeepsLevels(cfg, sweeps, s, call, key);
  }

  // ---- the bound ----

  function Admitted(cfg: Config, sweeps: bool, s: Store, calls: seq<Call>, key: Key): int
    decreases |calls|
  {
    if calls == [] then 0
    else Admits(cfg, sweeps, s, calls[0], key) + Admitted(cfg, sweeps, Step(cfg, sweeps, s, calls[0]), calls[1..], key)
  }

  predicate NoReset(calls: seq<Call>, key: Key) {
    forall i | 0 <= i < |calls| :: !Resets(calls[i], key)
  }

  predicate CostsNonnegative(calls: seq<Call>) {
    forall i | 0 <= i < |calls| :: calls[i].AllowN? ==> calls[i].cost >= 0
  }

  lemma RefillIsGradual(cfg: Config, level: real, now: real, at: real, end: real)
    requires cfg.Steady() && now <= at <= end
    ensures Refilled(cfg, level, at - now) + cfg.gain(end - at) <= level + cfg.gain(end - now)
  {
    GainSplits(cfg, at - now, end - at);
    assert (at - now) + (end - at) == end - now;
    GainIsNonnegative(cfg, at - now);
  }

  /** A run admits at most what the key could spend at its start plus what refilled meanwhile. */
  lemma {:induction false} BudgetBound(
      cfg: Config, sweeps: bool, s: Store, calls: seq<Call>, key: Key, now: real, end: real)
    requires cfg.Steady() && (sweeps ==> cfg.OutlastsRefill()) && Sane(cfg, s, now)
    requires InOrder(calls, now) && now <= end && forall i | 0 <= i < |calls| :: calls[i].at <= end
    requires NoReset(calls, key)
    ensures Admitted(cfg, sweeps, s, calls, key) as real <= LevelAt(cfg, s.buckets, key, now) + cfg.gain(end - now)
    decreases |calls|
  {
    if calls == [] {
      GainIsNonnegative(cfg, end - now);
      LevelIsNonnegative(cfg, s, key, now);
    } else {
      var at, s' := calls[0].at, Step(cfg, sweeps, s, calls[0]);
      LevelEvolves(cfg, s.buckets, key, now, at);
      StepTakesWhatItAdmits(cfg, sweeps, s, calls[0], key);
      StepKeepsSane(cfg, sweeps, s, calls[0]);
      LevelIsNonnegative(cfg, s', key, at);
      BudgetBound(cfg, sweeps, s', calls[1..], key, at, end);
      RefillIsGradual(cfg, LevelAt(cfg, s.buckets, key, now), now, at, end);
    }
  }

  /** With nonnegative costs no bucket ever holds more than the burst. */
  ghost predicate WithinBurst(cfg: Config, s: Store) {
    forall k | k in s.buckets :: s.buckets[k].tokens <= cfg.burst as real
  }

  lemma {:induction false} RunStaysSane(cfg: Config, sweeps: bool, s: Store, calls: seq<Call>, now: real, end: real)
    requires cfg.Steady() && Sane(cfg, s, now) && InOrder(calls, now)
    requires now <= end && forall i | 0 <= i < |calls| :: calls[i].at <= end
    ensures Sane(cfg, Run(cfg, sweeps, s, calls), end)
    ensures WithinBurst(cfg, s) && CostsNonnegative(calls) ==> WithinBurst(cfg, Run(cfg, sweeps, s, calls))
    decreases |calls|
  {
    if calls != [] {
      StepKeepsSane(cfg, sweeps, s, calls[0]);
      RunStaysSane(cfg, sweeps, Step(cfg, sweeps, s, calls[0]), calls[1..], calls[0].at, end);
    }
  }

  function Fresh(now: real): Store {
    Store(map[], now)
  }

  /** In any window of any run, the cost admitted for a key is at most the burst plus the refill,
      wherever sweeps fall. */
  lemma WindowBound(cfg: Config, t0: real, before: seq<Call>, window: seq<Call>, key: Key, from: real, to: real)
    requires cfg.Steady() && cfg.OutlastsRefill() && InOrder(before + window, t0)
    requires CostsNonnegative(before) && NoReset(window, key)
    requires from <= to && forall i | 0 <= i < |window| :: from <= window[i].at <= to
    ensures Admitted(cfg, true, Run(cfg, true, Fresh(t0), before), window, key) as real
         <= cfg.burst as real + cfg.gain(to - from)
  {
    if window == [] {
      GainIsNonnegative(cfg, to - from);
    } else {
      WindowStart(cfg, t0, before, window, key);
      WindowFrom(cfg, Run(cfg, true, Fresh(t0), before), window, key, from, to);
    }
  }

  lemma WindowStart(cfg: Config, t0: real, before: seq<Call>, window: seq<Call>, key: Key)
    requires cfg.Steady() && InOrder(before + window, t0) && window != [] && CostsNonnegative(before)
    ensures var s := Run(cfg, true, Fresh(t0), before);
            && InOrder(window, window[0].at) && Sane(cfg, s, window[0].at)
            && LevelAt(cfg, s.buckets, key, window[0].at) <= cfg.burst as real
  {
    OrderOfParts(before, window, t0);
    RunStaysSane(cfg, true, Fresh(t0), before, t0, window[0].at);
    LevelIsWithinBurst(cfg, Run(cfg, true, Fresh(t0), before), key, window[0].at);
  }

  lemma WindowFrom(cfg: Config, s: Store, window: seq<Call>, key: Key, from: real, to: real)
    requires window != [] && from <= window[0].at && forall i | 0 <= i < |window| :: window[i].at <= to
    requires cfg.Steady() && cfg.OutlastsRefill() && Sane(cfg, s, window[0].at)
    requires InOrder(window, window[0].at) && NoReset(window, key)
    requires LevelAt(cfg, s.buckets, key, window[0].at) <= cfg.burst as real
    ensures Admitted(cfg, true, s, window, key) as real <= cfg.burst as real + cfg.gain(to - from)
  {
    var start := window[0].at;
    BudgetBound(cfg, true, s, window, key, start, to);
    WiderWindow(cfg, Admitted(cfg, true, s, window, key) as real, LevelAt(cfg, s.buckets, key, start), start, from, to);
  }

  lemma WiderWindow(cfg: Config, admitted: real, level: real, start: real, from: real, to: real)
    requires cfg.Steady() && level <= cfg.burst as real && from <= start
    requires admitted <= level + cfg.gain(to - start)
    ensures admitted <= cfg.burst as real + cfg.gain(to - from)
  {
    GainGrows(cfg, to - start, to - from);
  }

  lemma OrderOfParts(before: seq<Call>, window: seq<Call>, t0: real)
    requires InOrder(before + window, t0) && window != []
    ensures InOrder(before, t0) && InOrder(window, window[0].at) && t0 <= window[0].at
    ensures forall i | 0 <= i < |before| :: before[i].at <= window[0].at
  {
    var calls, n := before + window, |before|;
    assert calls[n] == window[0];
    forall i | 0 <= i < n ensures before[i] == calls[i] {}
    forall i | 0 <= i < |window| ensures window[i] == calls[n + i] {}
  }

  lemma LevelIsWithinBurst(cfg: Config, s: Store, key: Key, now: real)
    requires cfg.Steady() && Sane(cfg, s, now) && WithinBurst(cfg, s)
    ensures LevelAt(cfg, s.buckets, key, now) <= cfg.burst as real
  {
  }

  // ---- eviction cannot be observed ----

  ghost predicate SameLevels(cfg: Config, a: Store, b: Store, now: real) {
    forall key :: LevelAt(cfg, a.buckets, key, now) == LevelAt(cfg, b.buckets, key, now)
  }

  function Replies(cfg: Config, sweeps: bool, s: Store, calls: seq<Call>): (r: seq<Option<Decision>>)
    ensures |r| == |calls|
    decreases |calls|
  {
    if calls == [] then []
    else [Reply(cfg, sweeps, s, calls[0])] + Replies(cfg, sweeps, Step(cfg, sweeps, s, calls[0]), calls[1..])
  }

  /** The same answer, apart from the time a full bucket is promised. */
  predicate Alike(a: Option<Decision>, b: Option<Decision>) {
    && (a.None? <==> b.None?)
    && (a.Some? ==> a.value.(resetAt := None) == b.value.(resetAt := None))
  }

  lemma StepsStayAlike(cfg: Config, a: Store, b: Store, call: Call)
    requires cfg.Steady() && cfg.OutlastsRefill() && Sane(cfg, a, call.at) && Sane(cfg, b, call.at)
    requires SameLevels(cfg, a, b, call.at)
    ensures Alike(Reply(cfg, true, a, call), Reply(cfg, false, b, call))
    ensures SameLevels(cfg, Step(cfg, true, a, call), Step(cfg, false, b, call), call.at)
  {
    var a', b' := Step(cfg, true, a, call), Step(cfg, false, b, call);
    ReadyKeepsLevels(cfg, true, a, call, call.key);
    assert LevelAt(cfg, a.buckets, call.key, call.at) == LevelAt(cfg, b.buckets, call.key, call.at);
    forall key ensures LevelAt(cfg, a'.buckets, key, call.at) == LevelAt(cfg, b'.buckets, key, call.at) {
      ReadyKeepsLevels(cfg, true, a, call, key);
    }
  }

  lemma {:induction false} RunsStayAlike(cfg: Config, a: Store, b: Store, calls: seq<Call>, now: real)
    requires cfg.Steady() && cfg.OutlastsRefill() && Sane(cfg, a, now) && Sane(cfg, b, now)
    requires SameLevels(cfg, a, b, now) && InOrder(calls, now)
    ensures forall i | 0 <= i < |calls| :: Alike(Replies(cfg, true, a, calls)[i], Replies(cfg, false, b, calls)[i])
    decreases |calls|
  {
    if calls != [] {
      var call := calls[0];
      forall key ensures LevelAt(cfg, a.buckets, key, call.at) == LevelAt(cfg, b.buckets, key, call.at) {
        LevelEvolves(cfg, a.buckets, key, now, call.at);
        LevelEvolves(cfg, b.buckets, key, now, call.at);
      }
      StepsStayAlike(cfg, a, b, call);
      StepKeepsSane(cfg, true, a, call);
      StepKeepsSane(cfg, false, b, call);
      RunsStayAlike(cfg, Step(cfg, true, a, call), Step(cfg, false, b, call), calls[1..], call.at);
    }
  }

  ghost predicate Unobservable(cfg: Config, t0: real, calls: seq<Call>) {
    forall i | 0 <= i < |calls| ::
      Alike(Replies(cfg, true, Fresh(t0), calls)[i], Replies(cfg, false, Fresh(t0), calls)[i])
  }

  /** Eviction cannot be told from keeping every bucket, by any run of calls, exactly when the
      TTL outlasts a full refill. */
  lemma EvictionIsUnobservable(cfg: Config, t0: real)
    requires cfg.Steady()
    ensures cfg.OutlastsRefill() <==> forall calls | InOrder(calls, t0) :: Unobservable(cfg, t0, calls)
  {
    if cfg.OutlastsRefill() {
      forall calls | InOrder(calls, t0) ensures Unobservable(cfg, t0, calls) {
        RunsStayAlike(cfg, Fresh(t0), Fresh(t0), calls, t0);
      }
    } else {
      ShortTTLShows(cfg, t0);
    }
  }

  /** A gap longer than the TTL and shorter than a full refill. */
  function Gap(cfg: Config): real {
    (cfg.ttl + cfg.wait(cfg.burst as real)) / 2.0
  }

  /** Spend everything, wait past the TTL with a sweep due, spend everything again. */
  function Telltale(cfg: Config, t0: real): seq<Call> {
    var g := Gap(cfg);
    var start := if g < SWEEP_INTERVAL then t0 + SWEEP_INTERVAL - g else t0;
    [AllowN("k", cfg.burst, start), AllowN("k", cfg.burst, start + g)]
  }

  lemma GapIsShort(cfg: Config)
    requires cfg.Steady() && !cfg.OutlastsRefill()
    ensures cfg.ttl < Gap(cfg) && cfg.gain(Gap(cfg)) < cfg.burst as real
  {
    var full := cfg.wait(cfg.burst as real);
    assert cfg.Refills(cfg.burst as real);
    if cfg.ttl >= full { GainGrows(cfg, full, cfg.ttl); }
    assert cfg.Grows(Gap(cfg), full);
  }

  /** After the first of those calls the bucket is empty; at the second a sweep is due. */
  lemma DrainedAndDue(cfg: Config, t0: real)
    requires cfg.Steady() && !cfg.OutlastsRefill()
    ensures var calls := Telltale(cfg, t0); var start, end := calls[0].at, calls[1].at;
            var s := Step(cfg, true, Fresh(t0), calls[0]);
            && InOrder(calls, t0) && s == Step(cfg, false, Fresh(t0), calls[0])
            && s == Store(map["k" := Bucket(0.0, start)], t0)
            && Admits(cfg, true, Fresh(t0), calls[0], "k") == cfg.burst
            && Swept(cfg, s, end).buckets == map[] && LevelAt(cfg, s.buckets, "k", end) == cfg.gain(Gap(cfg))
            && cfg.gain(Gap(cfg)) < cfg.burst as real
  {
    GapIsShort(cfg);
  }

  /** With a TTL shorter than a refill, eviction hands out a second burst too early. */
  lemma ShortTTLShows(cfg: Config, t0: real)
    requires cfg.Steady() && !cfg.OutlastsRefill()
    ensures var calls := Telltale(cfg, t0);
            && InOrder(calls, t0) && !Unobservable(cfg, t0, calls)
            && Admitted(cfg, true, Fresh(t0), calls, "k") as real > cfg.burst as real + cfg.gain(Gap(cfg))
  {
    DrainedAndDue(cfg, t0);
    var calls := Telltale(cfg, t0);
    var s := Step(cfg, true, Fresh(t0), calls[0]);
    assert calls[1..] == [calls[1]] && calls[1..][1..] == [];
    assert Replies(cfg, true, Fresh(t0), calls)[1] == Reply(cfg, true, s, calls[1]);
    assert Replies(cfg, false, Fresh(t0), calls)[1] == Reply(cfg, false, s, calls[1]);
    assert Admitted(cfg, true, s, calls[1..], "k") == cfg.burst;
  }

  // ---- advice ----

  /** Peek says what Allow would do at that instant, with the same advice and one token more to show. */
  predicate PeekAgrees(cfg: Config, s: Store, key: Key, now: real) {
    var peek := Reply(cfg, true, s, Peek(key, now)).value;
    var allow := Reply(cfg, true, s, AllowN(key, 1, now)).value;
    && peek.allowed == allow.allowed && peek.retryAfter == allow.retryAfter
    && peek.remaining == allow.remaining + if allow.allowed then 1 else 0
  }

  lemma PeekIsHonest(cfg: Config, s: Store, key: Key, now: real)
    requires cfg.Steady() && cfg.OutlastsRefill() && Sane(cfg, s, now)
    ensures PeekAgrees(cfg, s, key, now) && Step(cfg, true, s, Peek(key, now)) == s
  {
    ReadyKeepsLevels(cfg, true, s, AllowN(key, 1, now), key);
    var level := LevelAt(cfg, s.buckets, key, now);
    LevelIsNonnegative(cfg, s, key, now);
    if level >= 1.0 {
      assert (level - 1.0).Floor == level.Floor - 1;
    }
  }

  /** Peek can be trusted after every run of calls exactly when the TTL outlasts a full refill. */
  lemma PeekIsHonestExactlyWhen(cfg: Config, t0: real)
    requires cfg.Steady()
    ensures cfg.OutlastsRefill() <==>
            forall calls, key, now | InOrder(calls, t0) && NoneAfter(calls, t0, now) ::
              PeekAgrees(cfg, Run(cfg, true, Fresh(t0), calls), key, now)
  {
    if cfg.OutlastsRefill() {
      forall calls, key, now | InOrder(calls, t0) && NoneAfter(calls, t0, now)
        ensures PeekAgrees(cfg, Run(cfg, true, Fresh(t0), calls), key, now)
      {
        RunStaysSane(cfg, true, Fresh(t0), calls, t0, now);
        PeekIsHonest(cfg, Run(cfg, true, Fresh(t0), calls), key, now);
      }
    } else {
      var calls := [Telltale(cfg, t0)[0]];
      var now := Telltale(cfg, t0)[1].at;
      DrainedAndDue(cfg, t0);
      assert calls[1..] == [];
      assert Run(cfg, true, Fresh(t0), calls) == Step(cfg, true, Fresh(t0), calls[0]);
      assert NoneAfter(calls, t0, now);
      StalePeekDisagrees(cfg, Run(cfg, true, Fresh(t0), calls), now);
    }
  }

  predicate NoneAfter(calls: seq<Call>, t0: real, now: real) {
    t0 <= now && forall i | 0 <= i < |calls| :: calls[i].at <= now
  }

  lemma StalePeekDisagrees(cfg: Config, s: Store, now: real)
    requires cfg.Steady() && "k" in s.buckets && LevelAt(cfg, s.buckets, "k", now) < cfg.burst as real
    requires Swept(cfg, s, now).buckets == map[]
    ensures !PeekAgrees(cfg, s, "k", now)
  {
    assert Truncate(cfg.burst as real - 1.0) == cfg.burst - 1;
  }

  /** No call admits anything for the key or resets it. */
  ghost predicate Quiet(cfg: Config, s: Store, calls: seq<Call>, key: Key) {
    forall i | 0 <= i < |calls| && calls[i].key == key ::
      !calls[i].Reset? && (calls[i].AllowN? ==> !Granted(Replies(cfg, true, s, calls)[i]))
  }

  lemma {:induction false} QuietRunKeepsLevel(cfg: Config, s: Store, calls: seq<Call>, key: Key, now: real, end: real)
    requires cfg.Steady() && cfg.OutlastsRefill() && Sane(cfg, s, now) && InOrder(calls, now)
    requires now <= end && forall i | 0 <= i < |calls| :: calls[i].at <= end
    requires Quiet(cfg, s, calls, key)
    ensures LevelAt(cfg, Run(cfg, true, s, calls).buckets, key, end) == LevelAt(cfg, s.buckets, key, end)
    decreases |calls|
  {
    if calls != [] {
      var call, s' := calls[0], Step(cfg, true, s, calls[0]);
      assert Admits(cfg, true, s, call, key) == 0 by {
        assert Replies(cfg, true, s, calls)[0] == Reply(cfg, true, s, call);
      }
      StepTakesWhatItAdmits(cfg, true, s, call, key);
      StepKeepsSane(cfg, true, s, call);
      LevelEvolves(cfg, s.buckets, key, call.at, end);
      LevelEvolves(cfg, s'.buckets, key, call.at, end);
      assert Quiet(cfg, s', calls[1..], key) by {
        forall i | 0 <= i < |calls[1..]|
          ensures Replies(cfg, true, s', calls[1..])[i] == Replies(cfg, true, s, calls)[i + 1] {}
      }
      QuietRunKeepsLevel(cfg, s', calls[1..], key, call.at, end);
    }
  }

  function Meanwhile(cfg: Config, s: Store, first: Call, between: seq<Call>): Store {
    Run(cfg, true, Step(cfg, true, s, first), between)
  }

  /** After a refusal and no admission since, the key can spend what the wait has refilled. */
  lemma LevelAfterQuiet(cfg: Config, s: Store, key: Key, n: int, now: real, between: seq<Call>, retry: real)
    requires cfg.Steady() && cfg.OutlastsRefill() && Sane(cfg, s, now) && now <= retry
    requires !Granted(Reply(cfg, true, s, AllowN(key, n, now)))
    requires InOrder(between, now) && forall i | 0 <= i < |between| :: between[i].at <= retry
    requires Quiet(cfg, Step(cfg, true, s, AllowN(key, n, now)), between, key)
    ensures Refilled(cfg, LevelAt(cfg, s.buckets, key, now), retry - now) ==
            LevelAt(cfg,
                    Ready(cfg, true, Meanwhile(cfg, s, AllowN(key, n, now), between), AllowN(key, n, retry)).buckets,
                    key, retry)
  {
    var refused, again := AllowN(key, n, now), AllowN(key, n, retry);
    var s' := Step(cfg, true, s, refused);
    StepTakesWhatItAdmits(cfg, true, s, refused, key);
    StepKeepsSane(cfg, true, s, refused);
    QuietRunKeepsLevel(cfg, s', between, key, now, retry);
    LevelEvolves(cfg, s'.buckets, key, now, retry);
    RunStaysSane(cfg, true, s', between, now, retry);
    ReadyKeepsLevels(cfg, true, Run(cfg, true, s', between), again, key);
  }

  /** A refused cost, retried with nothing admitted for the key meanwhile, is admitted exactly when it
      fits the burst at all and the advised wait is over. */
  lemma RetryAdviceIsHonest(cfg: Config, s: Store, key: Key, n: int, now: real, between: seq<Call>, retry: real)
    requires cfg.Steady() && cfg.OutlastsRefill() && Sane(cfg, s, now) && now <= retry
    requires !Reply(cfg, true, s, AllowN(key, n, now)).value.allowed
    requires InOrder(between, now) && forall i | 0 <= i < |between| :: between[i].at <= retry
    requires Quiet(cfg, Step(cfg, true, s, AllowN(key, n, now)), between, key)
    ensures n <= cfg.burst && now + Reply(cfg, true, s, AllowN(key, n, now)).value.retryAfter <= retry <==>
            Granted(Reply(cfg, true, Meanwhile(cfg, s, AllowN(key, n, now), between), AllowN(key, n, retry)))
  {
    var level := LevelAt(cfg, s.buckets, key, now);
    ReadyKeepsLevels(cfg, true, s, AllowN(key, n, now), key);
    RefillsExactlyWhen(cfg, n as real - level, retry - now);
    LevelAfterQuiet(cfg, s, key, n, now, between, retry);
  }

  /** The wait is the exact time the missing tokens take. */
  lemma RefillsExactlyWhen(cfg: Config, missing: real, elapsed: real)
    requires cfg.Steady() && missing > 0.0 && elapsed >= 0.0
    ensures cfg.wait(missing) > 0.0
    ensures elapsed >= cfg.wait(missing) <==> cfg.gain(elapsed) >= missing
  {
    assert cfg.Refills(missing) && cfg.Grows(elapsed, cfg.wait(missing));
    WaitRefills(cfg, missing, cfg.wait(missing));
    if elapsed >= cfg.wait(missing) { WaitRefills(cfg, missing, elapsed); }
  }

  /** The level reaches the burst at ResetAt and not before. */
  lemma ResetAtIsExact(cfg: Config, s: Store, key: Key, n: int, now: real, later: real)
    requires cfg.Steady() && cfg.OutlastsRefill() && Sane(cfg, s, now) && WithinBurst(cfg, s) && n >= 0 && now <= later
    ensures var call := AllowN(key, n, now); var resetAt := Reply(cfg, true, s, call).value.resetAt;
            && resetAt.Some?
            && (LevelAt(cfg, Step(cfg, true, s, call).buckets, key, later) == cfg.burst as real <==>
                  resetAt.value <= later)
  {
    var call := AllowN(key, n, now);
    var level := LevelAt(cfg, s.buckets, key, now);
    ReadyKeepsLevels(cfg, true, s, call, key);
    LevelIsWithinBurst(cfg, s, key, now);
    var left := if level < n as real then level else level - n as real;
    FullExactlyWhen(cfg, left, later - now);
  }

  lemma FullExactlyWhen(cfg: Config, level: real, elapsed: real)
    requires cfg.Steady() && level <= cfg.burst as real && elapsed >= 0.0
    ensures Refilled(cfg, level, elapsed) == cfg.burst as real <==> FullRefill(cfg, level) <= elapsed
  {
    if level < cfg.burst as real {
      RefillsExactlyWhen(cfg, cfg.burst as real - level, elapsed);
    } else {
      GainIsNonnegative(cfg, elapsed);
    }
  }

  lemma WaitRefills(cfg: Config, missing: real, elapsed: real)
    requires cfg.Steady() && missing > 0.0 && elapsed >= cfg.wait(missing)
    ensures elapsed > 0.0 && cfg.gain(elapsed) >= missing
  {
    assert cfg.Refills(missing);
    GainGrows(cfg, cfg.wait(missing), elapsed);
    GainOfNothing(cfg);
    if elapsed <= 0.0 { GainGrows(cfg, elapsed, 0.0); }
  }

  /** What an answer shows: the whole tokens left, the burst, and a wait only when refused. */
  lemma AnswerShowsTheLevel(cfg: Config, s: Store, key: Key, n: int, now: real)
    requires cfg.Steady() && cfg.OutlastsRefill() && Sane(cfg, s, now)
    ensures var d := Reply(cfg, true, s, AllowN(key, n, now)).value;
            var left := LevelAt(cfg, Step(cfg, true, s, AllowN(key, n, now)).buckets, key, now);
            && 0 <= d.remaining && d.remaining as real <= left < d.remaining as real + 1.0
            && d.limit == cfg.burst && (d.allowed ==> d.retryAfter == 0.0) && (!d.allowed ==> d.retryAfter > 0.0)
  {
    var level := LevelAt(cfg, s.buckets, key, now);
    ReadyKeepsLevels(cfg, true, s, AllowN(key, n, now), key);
    LevelIsNonnegative(cfg, s, key, now);
    if level < n as real { RefillsExactlyWhen(cfg, n as real - level, 0.0); }
  }

  /** After a reset the key has its whole burst, and no other key's level has changed. */
  lemma ResetRestoresTheBurst(cfg: Config, s: Store, key: Key, other: Key, now: real)
    ensures var s' := Step(cfg, true, s, Reset(key, now));
            && LevelAt(cfg, s'.buckets, key, now) == cfg.burst as real
            && (other != key ==> LevelAt(cfg, s'.buckets, other, now) == LevelAt(cfg, s.buckets, other, now))
  {
  }

  /** A call drops another key's bucket exactly when it is a minute since the last sweep and the bucket has
      been idle for longer than the TTL; else it leaves it alone. */
  lemma ForgottenExactlyWhen(cfg: Config, s: Store, key: Key, other: Key, n: int, now: real)
    requires other in s.buckets && other != key
    ensures var s' := Step(cfg, true, s, AllowN(key, n, now));
            && (other !in s'.buckets <==> now - s.lastSweep >= 60.0 && now - s.buckets[other].lastSeen > cfg.ttl)
            && (other in s'.buckets ==> s'.buckets[other] == s.buckets[other])
            && s'.lastSweep == (if now - s.lastSweep >= 60.0 then now else s.lastSweep)
  {
  }

  // ---- the limiter admits all that the bound allows ----

  /** The least room any window that begins at one of the calls and ends at `end` leaves. */
  function Room(cfg: Config, sweeps: bool, s: Store, calls: seq<Call>, key: Key, end: real): real
    decreases |calls|
  {
    if calls == [] then cfg.burst as real
    else
      MinReal(cfg.burst as real + cfg.gain(end - calls[0].at) - Admitted(cfg, sweeps, s, calls, key) as real,
              Room(cfg, sweeps, Step(cfg, sweeps, s, calls[0]), calls[1..], key, end))
  }

  lemma LevelThenRefill(cfg: Config, buckets: Buckets, key: Key, now: real, end: real)
    requires cfg.Steady() && now <= end && LevelAt(cfg, buckets, key, now) <= cfg.burst as real
    requires key in buckets ==> buckets[key].lastSeen <= now
    ensures LevelAt(cfg, buckets, key, end)
         == MinReal(LevelAt(cfg, buckets, key, now) + cfg.gain(end - now), cfg.burst as real)
  {
    LevelEvolves(cfg, buckets, key, now, end);
    if end == now { GainOfNothing(cfg); }
  }

  /** The room since `now`, when the key could spend its level. */
  function RoomSince(cfg: Config, sweeps: bool, s: Store, calls: seq<Call>, key: Key, now: real, end: real): real {
    MinReal(LevelAt(cfg, s.buckets, key, now) + cfg.gain(end - now) - Admitted(cfg, sweeps, s, calls, key) as real,
            Room(cfg, sweeps, s, calls, key, end))
  }

  lemma RoomSinceFirst(cfg: Config, sweeps: bool, s: Store, calls: seq<Call>, key: Key, now: real, end: real)
    requires cfg.Steady() && (sweeps ==> cfg.OutlastsRefill()) && Sane(cfg, s, now) && WithinBurst(cfg, s)
    requires calls != [] && now <= calls[0].at && !Resets(calls[0], key)
    ensures RoomSince(cfg, sweeps, Step(cfg, sweeps, s, calls[0]), calls[1..], key, calls[0].at, end)
         == RoomSince(cfg, sweeps, s, calls, key, now, end)
  {
    var call, at, s', rest := calls[0], calls[0].at, Step(cfg, sweeps, s, calls[0]), calls[1..];
    LevelAfterOne(cfg, sweeps, s, call, key, now);
    GainSplits(cfg, at - now, end - at);
    assert (at - now) + (end - at) == end - now;
    RoomArithmetic(cfg.burst as real, LevelAt(cfg, s.buckets, key, now), cfg.gain(at - now), cfg.gain(end - at),
                   Admits(cfg, sweeps, s, call, key) as real, Admitted(cfg, sweeps, s', rest, key) as real,
                   Room(cfg, sweeps, s', rest, key, end));
    assert Admitted(cfg, sweeps, s, calls, key) as real
        == Admits(cfg, sweeps, s, call, key) as real + Admitted(cfg, sweeps, s', rest, key) as real;
  }

  lemma {:induction false} LevelIsRoom(
      cfg: Config, sweeps: bool, s: Store, calls: seq<Call>, key: Key, now: real, end: real)
    requires cfg.Steady() && (sweeps ==> cfg.OutlastsRefill()) && Sane(cfg, s, now) && WithinBurst(cfg, s)
    requires InOrder(calls, now) && now <= end && forall i | 0 <= i < |calls| :: calls[i].at <= end
    requires CostsNonnegative(calls) && NoReset(calls, key)
    ensures LevelAt(cfg, Run(cfg, sweeps, s, calls).buckets, key, end) ==
            RoomSince(cfg, sweeps, s, calls, key, now, end)
    decreases |calls|
  {
    if calls == [] {
      LevelIsWithinBurst(cfg, s, key, now);
      LevelThenRefill(cfg, s.buckets, key, now, end);
    } else {
      StepKeepsSane(cfg, sweeps, s, calls[0]);
      StepStaysWithinBurst(cfg, sweeps, s, calls[0]);
      LevelIsRoom(cfg, sweeps, Step(cfg, sweeps, s, calls[0]), calls[1..], key, calls[0].at, end);
      RoomSinceFirst(cfg, sweeps, s, calls, key, now, end);
    }
  }

  lemma LevelAfterOne(cfg: Config, sweeps: bool, s: Store, call: Call, key: Key, now: real)
    requires cfg.Steady() && (sweeps ==> cfg.OutlastsRefill()) && Sane(cfg, s, now) && WithinBurst(cfg, s)
    requires now <= call.at && !Resets(call, key)
    ensures LevelAt(cfg, Step(cfg, sweeps, s, call).buckets, key, call.at)
         == MinReal(LevelAt(cfg, s.buckets, key, now) + cfg.gain(call.at - now), cfg.burst as real)
            - Admits(cfg, sweeps, s, call, key) as real
  {
    LevelIsWithinBurst(cfg, s, key, now);
    LevelThenRefill(cfg, s.buckets, key, now, call.at);
    StepTakesWhatItAdmits(cfg, sweeps, s, call, key);
  }

  lemma RoomArithmetic(burst: real, level: real, before: real, after: real, first: real, rest: real, room: real)
    ensures MinReal(MinReal(level + before, burst) - first + after - rest, room)
         == MinReal(level + (before + after) - (first + rest), MinReal(burst + after - (first + rest), room))
  {
  }

  lemma StepStaysWithinBurst(cfg: Config, sweeps: bool, s: Store, call: Call)
    requires cfg.Steady() && WithinBurst(cfg, s) && (call.AllowN? ==> call.cost >= 0)
    ensures WithinBurst(cfg, Step(cfg, sweeps, s, call))
  {
  }

  /** The cost fits this window, from its first call to `end`. */
  ghost predicate FitsWindow(cfg: Config, sweeps: bool, s: Store, calls: seq<Call>, key: Key, n: int, end: real, i: nat)
    requires i < |calls|
  {
    (Admitted(cfg, sweeps, Run(cfg, sweeps, s, calls[..i]), calls[i..], key) + n) as real
    <= cfg.burst as real + cfg.gain(end - calls[i].at)
  }

  lemma LaterWindow(cfg: Config, sweeps: bool, s: Store, calls: seq<Call>, key: Key, n: int, end: real, i: nat)
    requires i + 1 < |calls|
    ensures FitsWindow(cfg, sweeps, Step(cfg, sweeps, s, calls[0]), calls[1..], key, n, end, i) <==>
            FitsWindow(cfg, sweeps, s, calls, key, n, end, i + 1)
  {
    assert calls[..i + 1][0] == calls[0] && calls[..i + 1][1..] == calls[1..][..i];
    assert calls[i + 1..] == calls[1..][i..];
  }

  lemma WholeWindow(cfg: Config, sweeps: bool, s: Store, calls: seq<Call>, key: Key, n: int, end: real)
    requires calls != []
    ensures FitsWindow(cfg, sweeps, s, calls, key, n, end, 0) <==>
            n as real <= cfg.burst as real + cfg.gain(end - calls[0].at) - Admitted(cfg, sweeps, s, calls, key) as real
  {
    assert calls[..0] == [] && calls[0..] == calls;
  }

  lemma {:induction false} RoomMeansWindows(
      cfg: Config, sweeps: bool, s: Store, calls: seq<Call>, key: Key, n: int, end: real)
    ensures n as real <= Room(cfg, sweeps, s, calls, key, end) <==>
            n <= cfg.burst && forall i | 0 <= i < |calls| :: FitsWindow(cfg, sweeps, s, calls, key, n, end, i)
    decreases |calls|
  {
    if calls != [] {
      var s', rest := Step(cfg, sweeps, s, calls[0]), calls[1..];
      RoomMeansWindows(cfg, sweeps, s', rest, key, n, end);
      WholeWindow(cfg, sweeps, s, calls, key, n, end);
      forall i | 0 <= i < |rest|
        ensures FitsWindow(cfg, sweeps, s', rest, key, n, end, i) <==>
                FitsWindow(cfg, sweeps, s, calls, key, n, end, i + 1)
      {
        LaterWindow(cfg, sweeps, s, calls, key, n, end, i);
      }
      forall i | 0 < i < |calls|
        ensures FitsWindow(cfg, sweeps, s, calls, key, n, end, i) <==>
                FitsWindow(cfg, sweeps, s', rest, key, n, end, i - 1)
      {
        LaterWindow(cfg, sweeps, s, calls, key, n, end, i - 1);
      }
    }
  }

  lemma LevelOfRun(cfg: Config, t0: real, calls: seq<Call>, key: Key, n: int, end: real)
    requires cfg.Steady() && cfg.OutlastsRefill() && InOrder(calls, t0) && NoneAfter(calls, t0, end)
    requires CostsNonnegative(calls) && NoReset(calls, key)
    ensures LevelAt(cfg, Ready(cfg, true, Run(cfg, true, Fresh(t0), calls), AllowN(key, n, end)).buckets, key, end)
         == Room(cfg, true, Fresh(t0), calls, key, end)
  {
    LevelIsRoom(cfg, true, Fresh(t0), calls, key, t0, end);
    FreshStartIsNoWindow(cfg, t0, calls, key, end);
    RunStaysSane(cfg, true, Fresh(t0), calls, t0, end);
    ReadyKeepsLevels(cfg, true, Run(cfg, true, Fresh(t0), calls), AllowN(key, n, end), key);
  }

  lemma GrantedExactlyWhen(cfg: Config, s: Store, key: Key, n: int, now: real)
    ensures Granted(Reply(cfg, true, s, AllowN(key, n, now))) <==>
            n as real <= LevelAt(cfg, Ready(cfg, true, s, AllowN(key, n, now)).buckets, key, now)
  {
  }

  /** A cost is admitted exactly when it fits the burst and no window of the run that ends now would
      then hold more than the burst and its refill: the limiter refuses only what the bound forbids. */
  lemma AdmitsExactlyWhatFits(cfg: Config, t0: real, calls: seq<Call>, key: Key, n: int, end: real)
    requires cfg.Steady() && cfg.OutlastsRefill() && InOrder(calls, t0) && NoneAfter(calls, t0, end)
    requires CostsNonnegative(calls) && NoReset(calls, key)
    ensures Granted(Reply(cfg, true, Run(cfg, true, Fresh(t0), calls), AllowN(key, n, end))) <==>
            && n <= cfg.burst
            && forall i | 0 <= i < |calls| :: FitsWindow(cfg, true, Fresh(t0), calls, key, n, end, i)
  {
    LevelOfRun(cfg, t0, calls, key, n, end);
    GrantedExactlyWhen(cfg, Run(cfg, true, Fresh(t0), calls), key, n, end);
    RoomMeansWindows(cfg, true, Fresh(t0), calls, key, n, end);
  }

  lemma FreshStartIsNoWindow(cfg: Config, t0: real, calls: seq<Call>, key: Key, end: real)
    requires cfg.Steady() && InOrder(calls, t0) && NoneAfter(calls, t0, end)
    ensures Room(cfg, true, Fresh(t0), calls, key, end)
         <= cfg.burst as real + cfg.gain(end - t0) - Admitted(cfg, true, Fresh(t0), calls, key) as real
  {
    if calls == [] { GainIsNonnegative(cfg, end - t0); } else { GainGrows(cfg, end - calls[0].at, end - t0); }
  }
}
