/**
 * The fixed-window rate limiter of src/lib/rate-limit.ts.
 *
 * The process-wide `STORE` map becomes the `store` field of a `Limiter`
 * object; the clock reading `Date.now()` is the parameter `now`, and the two
 * environment knobs are passed in already parsed.
 */
module RateLimit {
  import opened Wrappers
  import Env

  /** The store size from which a call first sweeps expired windows. */
  const PruneThreshold: int := 5000
  const DefaultWindowMs: int := 60000
  const DefaultMaxRequests: int := 20

  /** One key's window: how many calls it admitted and when it ends (epoch ms). */
  datatype Hit = Hit(count: int, resetAt: int)

  /** `Partial<RateLimitOptions>`: a field that is present overrides the environment. */
  datatype Options = Options(windowMs: Option<int>, maxRequests: Option<int>)

  /** `RATE_LIMIT_WINDOW_MS` and `RATE_LIMIT_REQUESTS`, as parsed. */
  datatype Settings = Settings(windowEnv: Option<int>, maxEnv: Option<int>)

  datatype RateLimitResult = RateLimitResult(ok: bool, remaining: int, resetAt: int)

  /** The state after a call together with what the call returned. */
  datatype Step = Step(store: map<string, Hit>, result: RateLimitResult)

  function Max0(x: int): int { if x < 0 then 0 else x }

  /** `getWindowMs`: a positive parsed value, else one minute. */
  function WindowMs(env: Option<int>): (r: int)
    ensures r > 0
    ensures r == (if env.Some? && env.value > 0 then env.value else 60000)
  {
    Env.PositiveOr(env, DefaultWindowMs)
  }

  /** `getMaxRequests`: a positive parsed value, else 20. */
  function MaxRequests(env: Option<int>): (r: int)
    ensures r > 0
    ensures r == (if env.Some? && env.value > 0 then env.value else 20)
  {
    Env.PositiveOr(env, DefaultMaxRequests)
  }

  /** The window length a call uses: an explicit option wins, whatever its value. */
  function EffectiveWindow(opts: Options, env: Settings): (r: int)
    ensures opts.windowMs.Some? ==> r == opts.windowMs.value
    ensures opts.windowMs.None? ==> r == WindowMs(env.windowEnv) && r > 0
  {
    opts.windowMs.GetOr(WindowMs(env.windowEnv))
  }

  /** The request limit a call uses: an explicit option wins, whatever its value. */
  function EffectiveMax(opts: Options, env: Settings): (r: int)
    ensures opts.maxRequests.Some? ==> r == opts.maxRequests.value
    ensures opts.maxRequests.None? ==> r == MaxRequests(env.maxEnv) && r > 0
  {
    opts.maxRequests.GetOr(MaxRequests(env.maxEnv))
  }

  /** A window that has reached its end is treated as absent. */
  predicate Expired(h: Hit, now: int) { h.resetAt <= now }

  /**
   * `maybePrune`: below the threshold nothing happens; from it on, exactly the
   * expired windows go and every live one stays as it was.
   */
  function Pruned(store: map<string, Hit>, now: int): (r: map<string, Hit>)
    ensures |store| < PruneThreshold ==> r == store
    ensures forall k :: k in r <==> k in store && (|store| < PruneThreshold || !Expired(store[k], now))
    ensures forall k :: k in r ==> r[k] == store[k]
  {
    if |store| < PruneThreshold then store
    else map k | k in store && !Expired(store[k], now) :: store[k]
  }

  /** The decision `rateLimit` takes once pruning is done. */
  function Admit(store: map<string, Hit>, key: string, now: int, windowMs: int, maxRequests: int): Step
  {
    if key !in store || Expired(store[key], now) then
      Step(store[key := Hit(1, now + windowMs)], RateLimitResult(true, Max0(maxRequests - 1), now + windowMs))
    else if store[key].count >= maxRequests then
      Step(store, RateLimitResult(false, 0, store[key].resetAt))
    else
      var h := store[key].(count := store[key].count + 1);
      Step(store[key := h], RateLimitResult(true, Max0(maxRequests - h.count), h.resetAt))
  }

  /**
   * One call of `rateLimit` on `store`: prune, then decide. Only `key` is
   * created or changed; every other key keeps what pruning left it.
   */
  function Call(store: map<string, Hit>, key: string, now: int, windowMs: int, maxRequests: int): (s: Step)
    ensures s.result.remaining >= 0
    ensures !s.result.ok ==> s.result.remaining == 0
    ensures key in s.store && s.result.resetAt == s.store[key].resetAt
    ensures forall k :: k != key ==> (k in s.store <==> k in Pruned(store, now))
    ensures forall k :: k != key && k in s.store ==> k in store && s.store[k] == store[k]
  {
    Admit(Pruned(store, now), key, now, windowMs, maxRequests)
  }

  /** An absent or expired window is replaced by a fresh one holding one call. */
  lemma FreshWindow(store: map<string, Hit>, key: string, now: int, windowMs: int, maxRequests: int)
    requires key !in store || Expired(store[key], now)
    ensures Call(store, key, now, windowMs, maxRequests).store[key] == Hit(1, now + windowMs)
    ensures Call(store, key, now, windowMs, maxRequests).result
         == RateLimitResult(true, Max0(maxRequests - 1), now + windowMs)
  {
    assert key !in Pruned(store, now) || Expired(Pruned(store, now)[key], now);
  }

  /** A live window that is full rejects the call and stays as it was. */
  lemma RejectionConsumesNothing(store: map<string, Hit>, key: string, now: int, windowMs: int, maxRequests: int)
    requires key in store && !Expired(store[key], now) && store[key].count >= maxRequests
    ensures Call(store, key, now, windowMs, maxRequests).store == Pruned(store, now)
    ensures Call(store, key, now, windowMs, maxRequests).store[key] == store[key]
    ensures Call(store, key, now, windowMs, maxRequests).result == RateLimitResult(false, 0, store[key].resetAt)
  {
    assert key in Pruned(store, now);
  }

  /** A live window with room counts one more call and keeps its end. */
  lemma AdmitWithinWindow(store: map<string, Hit>, key: string, now: int, windowMs: int, maxRequests: int)
    requires key in store && !Expired(store[key], now) && store[key].count < maxRequests
    ensures Call(store, key, now, windowMs, maxRequests).store[key]
         == Hit(store[key].count + 1, store[key].resetAt)
    ensures Call(store, key, now, windowMs, maxRequests).result
         == RateLimitResult(true, Max0(maxRequests - store[key].count - 1), store[key].resetAt)
  {
    assert key in Pruned(store, now);
  }

  /** With a fixed limit of at least one, no window ever counts more calls than the limit. */
  ghost predicate CountsBounded(store: map<string, Hit>, maxRequests: int)
  {
    forall k :: k in store ==> 1 <= store[k].count <= maxRequests
  }

  lemma CallKeepsCountsBounded(store: map<string, Hit>, key: string, now: int, windowMs: int, maxRequests: int)
    requires maxRequests >= 1 && CountsBounded(store, maxRequests)
    ensures CountsBounded(Call(store, key, now, windowMs, maxRequests).store, maxRequests)
  {
  }

  /** Which of a run of calls on one key, at the given times, were admitted. */
  function Replay(store: map<string, Hit>, key: string, times: seq<int>, windowMs: int, maxRequests: int): (r: seq<bool>)
    ensures |r| == |times|
    decreases |times|
  {
    if times == [] then []
    else
      var s := Call(store, key, times[0], windowMs, maxRequests);
      [s.result.ok] + Replay(s.store, key, times[1..], windowMs, maxRequests)
  }

  /**
   * While a window is live, the i-th further call is admitted exactly when the
   * window's count plus i is still below the limit.
   */
  lemma {:induction false} ReplayLiveWindow(store: map<string, Hit>, key: string, times: seq<int>, windowMs: int, maxRequests: int)
    requires key in store
    requires forall i :: 0 <= i < |times| ==> times[i] < store[key].resetAt
    ensures forall i :: 0 <= i < |times| ==>
              Replay(store, key, times, windowMs, maxRequests)[i] == (store[key].count + i < maxRequests)
    decreases |times|
  {
    if times != [] {
      var s := Call(store, key, times[0], windowMs, maxRequests);
      var h := store[key];
      if h.count >= maxRequests {
        RejectionConsumesNothing(store, key, times[0], windowMs, maxRequests);
      } else {
        AdmitWithinWindow(store, key, times[0], windowMs, maxRequests);
      }
      assert s.store[key].resetAt == h.resetAt;
      assert s.store[key].count == if h.count >= maxRequests then h.count else h.count + 1;
      ReplayLiveWindow(s.store, key, times[1..], windowMs, maxRequests);
      var r := Replay(store, key, times, windowMs, maxRequests);
      forall i | 0 <= i < |times| ensures r[i] == (h.count + i < maxRequests) {
        if i > 0 {
          assert r[i] == Replay(s.store, key, times[1..], windowMs, maxRequests)[i - 1];
        }
      }
    }
  }

  /**
   * Within one window opened by the first call, exactly the first `maxRequests`
   * calls are admitted and every later one is rejected.
   */
  lemma ExactlyMaxPerWindow(store: map<string, Hit>, key: string, times: seq<int>, windowMs: int, maxRequests: int)
    requires maxRequests >= 1 && |times| > 0
    requires key !in store || Expired(store[key], times[0])
    requires forall i :: 0 <= i < |times| ==> times[i] < times[0] + windowMs
    ensures forall i :: 0 <= i < |times| ==> Replay(store, key, times, windowMs, maxRequests)[i] == (i < maxRequests)
  {
    var s := Call(store, key, times[0], windowMs, maxRequests);
    FreshWindow(store, key, times[0], windowMs, maxRequests);
    ReplayLiveWindow(s.store, key, times[1..], windowMs, maxRequests);
    var r := Replay(store, key, times, windowMs, maxRequests);
    forall i | 0 <= i < |times| ensures r[i] == (i < maxRequests) {
      if i > 0 {
        assert r[i] == Replay(s.store, key, times[1..], windowMs, maxRequests)[i - 1];
      }
    }
  }

  /** The process-wide store of src/lib/rate-limit.ts as an object. */
  class Limiter {
    var store: map<string, Hit>

    constructor ()
      ensures store == map[]
    {
      store := map[];
    }

    /** `maybePrune`: from the threshold on, delete expired windows one key at a time. */
    method MaybePrune(now: int)
      modifies this
      ensures store == Pruned(old(store), now)
    {
      if |store| < PruneThreshold {
        return;
      }
      ghost var initial := store;
      var pending := store.Keys;
      while pending != {}
        invariant pending <= initial.Keys
        invariant forall k :: k in store <==> k in initial && (k in pending || !Expired(initial[k], now))
        invariant forall k :: k in store ==> store[k] == initial[k]
        decreases pending
      {
        var key :| key in pending;
        if store[key].resetAt <= now {
          store := store - {key};
        }
        pending := pending - {key};
      }
      assert store == Pruned(initial, now);
    }

    /** `rateLimit(key, opts)` at time `now`. */
    method RateLimit(key: string, opts: Options, env: Settings, now: int) returns (r: RateLimitResult)
      modifies this
      ensures Step(store, r) == Call(old(store), key, now, EffectiveWindow(opts, env), EffectiveMax(opts, env))
    {
      var windowMs := EffectiveWindow(opts, env);
      var maxRequests := EffectiveMax(opts, env);
      MaybePrune(now);
      if key !in store || store[key].resetAt <= now {
        var resetAt := now + windowMs;
        store := store[key := Hit(1, resetAt)];
        return RateLimitResult(true, Max0(maxRequests - 1), resetAt);
      }
      var existing := store[key];
      if existing.count >= maxRequests {
        return RateLimitResult(false, 0, existing.resetAt);
      }
      existing := existing.(count := existing.count + 1);
      store := store[key := existing];
      r := RateLimitResult(true, Max0(maxRequests - existing.count), existing.resetAt);
    }
  }
}
