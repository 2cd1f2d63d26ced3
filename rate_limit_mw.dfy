/** The fixed-window rate limiter (mws/__rateLimit.mw.js). For an action
    with a configured `{window, max}` it counts calls per identity, action
    and window slot in a shared cache, lets the first `max` of a slot
    through and answers the rest with 429. A failing cache lets the call
    through. */
module RateLimit {
  import opened Common
  import opened Numerals

  type Positive = n: nat | n > 0 witness 1

  /** A module's `rateLimits[fnName]`: window length in seconds and the
      number of calls it admits. */
  datatype LimitConfig = LimitConfig(window: Positive, max: nat)

  /** `X-RateLimit-Limit`, `X-RateLimit-Remaining`, `X-RateLimit-Reset`. */
  datatype Headers = Headers(limit: nat, remaining: nat, reset: nat)

  /** How the middleware ends: `next()` or a dispatched error. */
  datatype Outcome = Next | Dispatch(code: nat, error: string)

  /** Whether the cache throws, and at which call. */
  datatype CacheFault = Healthy | IncrementThrows | ExpireThrows

  /** `managers[moduleName]?.rateLimits?.[fnName]`; a module without
      `rateLimits` is simply absent from the outer map. */
  function LookupLimit(rateLimits: map<string, map<string, LimitConfig>>, moduleName: string, fnName: string)
    : (c: Option<LimitConfig>)
    ensures c.Some? <==> moduleName in rateLimits && fnName in rateLimits[moduleName]
  {
    if moduleName in rateLimits && fnName in rateLimits[moduleName]
    then Some(rateLimits[moduleName][fnName]) else None
  }

  /** `windowSec * 1000`. */
  function WindowMs(window: Positive): (ms: Positive)
    ensures ms >= 1000
  {
    1000 * window
  }

  /** `Math.floor(n / d)` for non-negative `n`: the unique `q` with
      `q * d <= n < (q + 1) * d`. */
  function Quotient(n: nat, d: Positive): (q: nat)
    ensures q * d <= n < q * d + d
    decreases n
  {
    if n < d then 0 else 1 + Quotient(n - d, d)
  }

  lemma {:induction false} QuotientOfMultiple(x: nat, d: Positive)
    ensures Quotient(x * d, d) == x
    decreases x
  {
    if x > 0 {
      assert x * d - d == (x - 1) * d;
      QuotientOfMultiple(x - 1, d);
    }
  }

  lemma {:induction false} QuotientMonotone(n: nat, m: nat, d: Positive)
    requires n <= m
    ensures Quotient(n, d) <= Quotient(m, d)
    decreases n
  {
    if n >= d {
      QuotientMonotone(n - d, m - d, d);
    }
  }

  /** `Math.floor(now / windowMs)`: the index of the window holding `now`. */
  function WindowSlot(now: nat, window: Positive): nat {
    Quotient(now, WindowMs(window))
  }

  /** `Math.floor(((windowSlot + 1) * windowMs) / 1000)`: the end of the
      current window, in epoch seconds. */
  function ResetTime(now: nat, window: Positive): nat {
    Quotient((WindowSlot(now, window) + 1) * WindowMs(window), 1000)
  }

  /** The reset time is the next window boundary: strictly after `now` and at
      most one window away. */
  lemma ResetTimeBounds(now: nat, window: Positive)
    ensures ResetTime(now, window) == (WindowSlot(now, window) + 1) * window
    ensures now < ResetTime(now, window) * 1000 <= now + window * 1000
  {
    var w := WindowMs(window);
    var q := WindowSlot(now, window);
    assert (q + 1) * w == ((q + 1) * window) * 1000;
    QuotientOfMultiple((q + 1) * window, 1000);
  }

  /** The slot never goes back as time moves on. */
  lemma SlotMonotone(now: nat, later: nat, window: Positive)
    requires now <= later
    ensures WindowSlot(now, window) <= WindowSlot(later, window)
  {
    QuotientMonotone(now, later, WindowMs(window));
  }

  /** `results.__token?.userId || results.__device?.ip`, as the template
      literal prints it. */
  function Identifier(userId: Option<string>, ip: Option<string>): (id: string)
    ensures userId.Some? && userId.value != "" ==> id == userId.value
    ensures (userId.None? || userId.value == "") && ip.Some? ==> id == ip.value
    ensures (userId.None? || userId.value == "") && ip.None? ==> id == "undefined"
  {
    if userId.Some? && userId.value != "" then userId.value
    else if ip.Some? then ip.value
    else "undefined"
  }

  /** `rl:<identifier>:<module>:<fn>:<slot>`. */
  function CacheKey(identifier: string, moduleName: string, fnName: string, slot: nat): string {
    "rl:" + identifier + ":" + moduleName + ":" + fnName + ":" + ToDecimal(slot)
  }

  /** Each window slot of one identity and action has its own counter. */
  lemma CacheKeySeparatesSlots(identifier: string, moduleName: string, fnName: string, slot1: nat, slot2: nat)
    requires CacheKey(identifier, moduleName, fnName, slot1) == CacheKey(identifier, moduleName, fnName, slot2)
    ensures slot1 == slot2
  {
    var prefix := "rl:" + identifier + ":" + moduleName + ":" + fnName + ":";
    var k1, k2 := CacheKey(identifier, moduleName, fnName, slot1), CacheKey(identifier, moduleName, fnName, slot2);
    assert k1 == prefix + ToDecimal(slot1) && k2 == prefix + ToDecimal(slot2);
    assert ToDecimal(slot1) == k1[|prefix|..];
    assert ToDecimal(slot2) == k2[|prefix|..];
    ToDecimalInjective(slot1, slot2);
  }

  /** `Math.max(0, max - count)`. */
  function Remaining(max: nat, count: nat): (n: nat)
    ensures n <= max
    ensures count <= max ==> n + count == max
    ensures count >= max ==> n == 0
  {
    if count <= max then max - count else 0
  }

  /** The counter store (`cache.hash` field `c` per key, and key expiry). */
  class Cache {
    var counters: map<string, nat>
    var ttls: map<string, nat>

    constructor ()
      ensures counters == map[] && ttls == map[]
    {
      counters, ttls := map[], map[];
    }
  }

  function CountOf(counters: map<string, nat>, key: string): nat {
    if key in counters then counters[key] else 0
  }

  /** The middleware for one request at time `now` (ms). */
  method Handle(cache: Cache, rateLimits: map<string, map<string, LimitConfig>>, moduleName: string, fnName: string,
                userId: Option<string>, ip: Option<string>, now: nat, fault: CacheFault)
    returns (outcome: Outcome, headers: Option<Headers>)
    modifies cache
    ensures LookupLimit(rateLimits, moduleName, fnName).None? ==>
      outcome == Next && headers == None && unchanged(cache)
    ensures LookupLimit(rateLimits, moduleName, fnName).Some? && fault == IncrementThrows ==>
      outcome == Next && headers == None && unchanged(cache)
    ensures LookupLimit(rateLimits, moduleName, fnName).Some? && fault != IncrementThrows ==>
      var cfg := LookupLimit(rateLimits, moduleName, fnName).value;
      var key := CacheKey(Identifier(userId, ip), moduleName, fnName, WindowSlot(now, cfg.window));
      var count := CountOf(old(cache.counters), key) + 1;
      && cache.counters == old(cache.counters)[key := count]
      && (if count == 1 && fault == ExpireThrows then
            outcome == Next && headers == None && cache.ttls == old(cache.ttls)
          else
            && cache.ttls == (if count == 1 then old(cache.ttls)[key := cfg.window + 1] else old(cache.ttls))
            && headers == Some(Headers(cfg.max, Remaining(cfg.max, count), ResetTime(now, cfg.window)))
            && outcome == (if count > cfg.max then Dispatch(429, "rate_limit_exceeded") else Next))
  {
    var limitConfig := LookupLimit(rateLimits, moduleName, fnName);
    if limitConfig.None? {
      return Next, None;
    }
    var windowSec, max := limitConfig.value.window, limitConfig.value.max;
    var windowSlot := WindowSlot(now, windowSec);
    var resetTime := ResetTime(now, windowSec);
    var key := CacheKey(Identifier(userId, ip), moduleName, fnName, windowSlot);

    // try
    if fault == IncrementThrows {
      return Next, None;
    }
    var count := CountOf(cache.counters, key) + 1;
    cache.counters := cache.counters[key := count];
    if count == 1 {
      if fault == ExpireThrows {
        return Next, None;
      }
      cache.ttls := cache.ttls[key := windowSec + 1];
    }
    headers := Some(Headers(max, Remaining(max, count), resetTime));
    if count > max {
      return Dispatch(429, "rate_limit_exceeded"), headers;
    }
    outcome := Next;
  }

  /** How many of `n` consecutive calls on one key are let through when the
      counter stands at `start` before the first. */
  function Admitted(start: nat, n: nat, max: nat): nat
    decreases n
  {
    if n == 0 then 0
    else (if start + 1 <= max then 1 else 0) + Admitted(start + 1, n - 1, max)
  }

  /** Of `n` calls on a counter at `start`, exactly the ones that bring it to
      at most `max` are admitted. */
  lemma {:induction false} AdmittedCount(start: nat, n: nat, max: nat)
    ensures Admitted(start, n, max) == if start >= max then 0 else if n <= max - start then n else max - start
    decreases n
  {
    if n > 0 {
      AdmittedCount(start + 1, n - 1, max);
    }
  }

  /** Per key and window slot, exactly `max` calls pass and every later one
      is refused. */
  lemma ExactlyMaxPerWindow(n: nat, max: nat)
    ensures Admitted(0, n, max) == if n <= max then n else max
  {
    AdmittedCount(0, n, max);
  }

  /** One caller's requests for one limited action at the times `times`,
      all in the same window slot, on a healthy cache: each goes through
      `Handle`, and the ones let through are counted. On a fresh key that is
      exactly `min(|times|, max)`. */
  method HandleBurst(cache: Cache, rateLimits: map<string, map<string, LimitConfig>>, moduleName: string,
                     fnName: string, userId: Option<string>, ip: Option<string>, times: seq<nat>)
    returns (admitted: nat)
    requires LookupLimit(rateLimits, moduleName, fnName).Some?
    requires forall i :: 0 <= i < |times| ==>
      WindowSlot(times[i], LookupLimit(rateLimits, moduleName, fnName).value.window) ==
      WindowSlot(times[0], LookupLimit(rateLimits, moduleName, fnName).value.window)
    modifies cache
    ensures |times| > 0 ==>
      var cfg := LookupLimit(rateLimits, moduleName, fnName).value;
      var key := CacheKey(Identifier(userId, ip), moduleName, fnName, WindowSlot(times[0], cfg.window));
      && admitted == Admitted(CountOf(old(cache.counters), key), |times|, cfg.max)
      && CountOf(cache.counters, key) == CountOf(old(cache.counters), key) + |times|
      && (key !in old(cache.counters) ==> admitted == if |times| <= cfg.max then |times| else cfg.max)
    ensures |times| == 0 ==> admitted == 0 && unchanged(cache)
  {
    admitted := 0;
    if |times| == 0 {
      return;
    }
    var cfg := LookupLimit(rateLimits, moduleName, fnName).value;
    var key := CacheKey(Identifier(userId, ip), moduleName, fnName, WindowSlot(times[0], cfg.window));
    ghost var start := CountOf(cache.counters, key);
    var i := 0;
    while i < |times|
      invariant 0 <= i <= |times|
      invariant CountOf(cache.counters, key) == start + i
      invariant admitted + Admitted(start + i, |times| - i, cfg.max) == Admitted(start, |times|, cfg.max)
    {
      var outcome, headers := Handle(cache, rateLimits, moduleName, fnName, userId, ip, times[i], Healthy);
      if outcome == Next {
        admitted := admitted + 1;
      }
      i := i + 1;
    }
    if start == 0 {
      ExactlyMaxPerWindow(|times|, cfg.max);
    }
  }
}
