/** The fixed-window rate limiter: an in-memory table from a client key to
    the count of calls in its current window and the window's end, and the
    client identifier read from proxy headers. */
module RateLimit {
  import opened Domain
  import opened Text

  /** One key's window: calls counted so far and the instant it ends. */
  datatype Window = Window(count: int, resetAt: Instant)

  datatype RateLimitConfig = RateLimitConfig(interval: int, maxRequests: int)

  datatype Verdict = Verdict(success: bool, remaining: int, resetAt: Instant)

  /** The presets: AUTH 5 calls per 15 minutes, ADMIN 100 per minute, API 200 per minute. */
  const Auth := RateLimitConfig(15 * 60 * 1000, 5)
  const AdminApi := RateLimitConfig(60 * 1000, 100)
  const Api := RateLimitConfig(60 * 1000, 200)

  /** The key's window after one call at `now`: a missing or expired window
      is replaced by a fresh one ending `interval` from now, and the call
      is counted. At `now == resetAt` the old window still holds. */
  function Hit(current: Option<Window>, config: RateLimitConfig, now: Instant): (w: Window)
    ensures current.None? || now > current.value.resetAt ==> w == Window(1, now + config.interval)
    ensures current.Some? && now <= current.value.resetAt ==>
              w == Window(current.value.count + 1, current.value.resetAt)
  {
    var base := if current.None? || now > current.value.resetAt then Window(0, now + config.interval)
                else current.value;
    base.(count := base.count + 1)
  }

  /** The answer for a window that has just counted a call. */
  function VerdictOf(w: Window, config: RateLimitConfig): (v: Verdict)
    ensures v.success <==> w.count <= config.maxRequests
    ensures v.remaining >= 0 && v.remaining >= config.maxRequests - w.count
    ensures v.remaining == 0 || v.remaining == config.maxRequests - w.count
    ensures v.resetAt == w.resetAt
  {
    var left := config.maxRequests - w.count;
    Verdict(w.count <= config.maxRequests, if left > 0 then left else 0, w.resetAt)
  }

  function Lookup(store: map<string, Window>, key: string): Option<Window>
  {
    if key in store then Some(store[key]) else None
  }

  /** The entries still open at `now`. */
  function Unexpired(store: map<string, Window>, now: Instant): (kept: map<string, Window>)
    ensures forall k :: k in kept <==> k in store && now <= store[k].resetAt
    ensures forall k :: k in kept ==> kept[k] == store[k]
  {
    map k | k in store && now <= store[k].resetAt :: store[k]
  }

  class RateLimiter {
    var store: map<string, Window>

    constructor ()
      ensures store == map[]
    {
      store := map[];
    }

    /** rateLimit(identifier, config) at `now`; `runCleanup` is the outcome
        of the random 1-in-100 draw that triggers a cleanup first. */
    method RateLimit(identifier: string, config: RateLimitConfig, now: Instant, runCleanup: bool)
      returns (v: Verdict)
      modifies this
      ensures v == VerdictOf(Hit(Lookup(old(store), identifier), config, now), config)
      ensures store == (if runCleanup then Unexpired(old(store), now) else old(store))
                         [identifier := Hit(Lookup(old(store), identifier), config, now)]
    {
      var record := Lookup(store, identifier);
      if runCleanup {
        CleanupExpired(now);
      }
      var current: Window;
      if record.None? || now > record.value.resetAt {
        current := Window(0, now + config.interval);
      } else {
        current := record.value;
      }
      current := current.(count := current.count + 1);
      store := store[identifier := current];
      var success := current.count <= config.maxRequests;
      var remaining := if config.maxRequests - current.count > 0 then config.maxRequests - current.count else 0;
      v := Verdict(success, remaining, current.resetAt);
    }

    /** cleanupExpired: deletes the entries whose window ended before `now`. */
    method CleanupExpired(now: Instant)
      modifies this
      ensures store == Unexpired(old(store), now)
    {
      var keys := store.Keys;
      while keys != {}
        invariant keys <= old(store).Keys
        invariant forall k :: k in store <==> k in old(store) && (k in keys || now <= old(store)[k].resetAt)
        invariant forall k :: k in store ==> store[k] == old(store)[k]
        decreases keys
      {
        var key :| key in keys;
        if now > store[key].resetAt {
          store := store - {key};
        }
        keys := keys - {key};
      }
    }
  }

  /** A cleanup before the call never changes the answer for the caller,
      nor that caller's new window: the window is read before the cleanup,
      and a window the cleanup would drop is expired and replaced anyway. */
  lemma CleanupIrrelevantToCaller(store: map<string, Window>, identifier: string, config: RateLimitConfig, now: Instant)
    ensures Hit(Lookup(Unexpired(store, now), identifier), config, now) == Hit(Lookup(store, identifier), config, now)
  {
  }

  /** The table after a run of calls by one key, with no cleanup. */
  function Replay(store: map<string, Window>, key: string, config: RateLimitConfig, times: seq<Instant>)
    : (after: map<string, Window>)
    ensures forall k :: k != key ==> Lookup(after, k) == Lookup(store, k)
    ensures times != [] ==> key in after
  {
    if times == [] then store
    else
      var before := Replay(store, key, config, times[..|times| - 1]);
      before[key := Hit(Lookup(before, key), config, times[|times| - 1])]
  }

  /** Calls that all fall inside the window opened by the first one. */
  predicate OneWindow(times: seq<Instant>, config: RateLimitConfig)
  {
    forall i :: 0 <= i < |times| ==> times[0] <= times[i] <= times[0] + config.interval
  }

  /** Starting with no window (or an expired one), the n-th call inside one
      window leaves the count at n and the window's end where the first
      call put it. */
  lemma {:induction false} WindowCount(store: map<string, Window>, key: string, config: RateLimitConfig,
                                       times: seq<Instant>)
    requires times != [] && OneWindow(times, config)
    requires key !in store || times[0] > store[key].resetAt
    ensures Replay(store, key, config, times)[key] == Window(|times|, times[0] + config.interval)
  {
    var n := |times|;
    if n > 1 {
      var init := times[..n - 1];
      assert OneWindow(init, config);
      WindowCount(store, key, config, init);
    }
  }

  /** Within one window the first `maxRequests` calls succeed and every
      later one fails, and `remaining` counts down to 0. */
  lemma KthCallInWindow(store: map<string, Window>, key: string, config: RateLimitConfig, times: seq<Instant>)
    requires times != [] && OneWindow(times, config)
    requires key !in store || times[0] > store[key].resetAt
    ensures var v := VerdictOf(Replay(store, key, config, times)[key], config);
            && (v.success <==> |times| <= config.maxRequests)
            && v.remaining == (if config.maxRequests > |times| then config.maxRequests - |times| else 0)
            && v.resetAt == times[0] + config.interval
  {
    WindowCount(store, key, config, times);
  }

  /** The sixth login attempt inside 15 minutes is refused. */
  lemma SixthAuthCallRefused(store: map<string, Window>, key: string, times: seq<Instant>)
    requires |times| == 6 && OneWindow(times, Auth)
    requires key !in store
    ensures !VerdictOf(Replay(store, key, Auth, times)[key], Auth).success
    ensures VerdictOf(Replay(store, key, Auth, times[..5])[key], Auth).success
  {
    WindowCount(store, key, Auth, times);
    assert OneWindow(times[..5], Auth);
    WindowCount(store, key, Auth, times[..5]);
  }

  /** The first comma-separated entry of a header value. */
  lemma FirstPiece(s: string, sep: char)
    ensures var p := Split(s, sep)[0];
            |p| <= |s| && s[..|p|] == p && (|p| == |s| || s[|p|] == sep)
  {
    var parts := Split(s, sep);
    if |parts| > 1 {
      assert s == parts[0] + [sep] + Join(parts[1..], sep);
      assert s[..|parts[0]|] == parts[0];
    }
  }

  /** getClientIdentifier: the first entry of `x-forwarded-for`, trimmed, if
      that header is present and not empty; otherwise `x-real-ip` if present
      and not empty; otherwise "unknown". */
  function GetClientIdentifier(forwardedFor: Option<string>, realIp: Option<string>): (id: string)
    ensures forwardedFor.Some? && forwardedFor.value != [] ==>
              exists n :: 0 <= n <= |forwardedFor.value|
                && ',' !in forwardedFor.value[..n]
                && (n == |forwardedFor.value| || forwardedFor.value[n] == ',')
                && id == Trim(forwardedFor.value[..n])
    ensures (forwardedFor.None? || forwardedFor.value == []) && realIp.Some? && realIp.value != [] ==>
              id == realIp.value
    ensures (forwardedFor.None? || forwardedFor.value == []) && (realIp.None? || realIp.value == []) ==>
              id == "unknown"
  {
    if forwardedFor.Some? && forwardedFor.value != [] then
      var first := Split(forwardedFor.value, ',')[0];
      FirstPiece(forwardedFor.value, ',');
      Trim(first)
    else if realIp.Some? && realIp.value != [] then realIp.value
    else "unknown"
  }
}
