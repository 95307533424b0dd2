/**
 * The counter behind every rate limit, and the guard and interceptor that
 * spend from it. Time is in integer milliseconds.
 */
module RateLimit {
  import opened Wrappers

  /** Flood counts belong to a caller on a route, failure counts to an account on a route pattern. */
  datatype Key = Flood(route: string, caller: string) | Failures(pattern: string, subject: string)

  datatype Window = Window(count: nat, expiresAt: int)

  type Windows = map<Key, Window>

  const SWEEP_ABOVE := 10_000

  // ---------------------------------------------------------------- the counter

  predicate Live(windows: Windows, key: Key, now: int)
  {
    key in windows && windows[key].expiresAt > now
  }

  function CountAt(windows: Windows, key: Key, now: int): nat
  {
    if Live(windows, key, now) then windows[key].count else 0
  }

  function Sweep(windows: Windows, now: int): Windows
  {
    map k | k in windows && windows[k].expiresAt > now :: windows[k]
  }

  /** A hit on a store that never forgets. */
  function AfterHitKept(windows: Windows, key: Key, windowSeconds: nat, now: int): (Windows, nat)
  {
    if !Live(windows, key, now) then (windows[key := Window(1, now + windowSeconds * 1000)], 1)
    else (windows[key := windows[key].(count := windows[key].count + 1)], windows[key].count + 1)
  }

  /** A hit on the store as it is: a new window may sweep the expired ones away. */
  function AfterHit(windows: Windows, key: Key, windowSeconds: nat, now: int): (Windows, nat)
  {
    var (next, count) := AfterHitKept(windows, key, windowSeconds, now);
    if !Live(windows, key, now) && |next| > SWEEP_ABOVE then (Sweep(next, now), count) else (next, count)
  }

  class MemoryRateLimitStore {
    var windows: Windows

    constructor ()
      ensures windows == map[]
    {
      windows := map[];
    }

    method Hit(key: Key, windowSeconds: nat, now: int) returns (count: nat)
      modifies this
      ensures (windows, count) == AfterHit(old(windows), key, windowSeconds, now)
    {
      if key !in windows || windows[key].expiresAt <= now {
        windows := windows[key := Window(1, now + windowSeconds * 1000)];
        if |windows| > SWEEP_ABOVE {
          ghost var full := windows;
          var candidates := windows.Keys;
          while candidates != {}
            invariant candidates <= windows.Keys <= full.Keys
            invariant forall k :: k in windows ==> windows[k] == full[k]
            invariant forall k :: k in full && k !in candidates ==> (k in windows <==> full[k].expiresAt > now)
            decreases candidates
          {
            var candidate :| candidate in candidates;
            if windows[candidate].expiresAt <= now {
              windows := windows - {candidate};
            }
            candidates := candidates - {candidate};
          }
          assert windows == Sweep(full, now);
        }
        return 1;
      }
      var existing := windows[key];
      windows := windows[key := existing.(count := existing.count + 1)];
      return existing.count + 1;
    }

    method Peek(key: Key, now: int) returns (count: nat)
      ensures count == CountAt(windows, key, now)
    {
      if key !in windows || windows[key].expiresAt <= now { return 0; }
      return windows[key].count;
    }
  }

  // ---------------------------------------------------------------- the guard and the interceptor

  datatype Budget = Budget(limit: nat, windowSeconds: nat)

  datatype Request = Request(flood: Key, failures: Key, credential: bool)

  datatype Verdict = Admitted | TooManyRequests | TooManyFailures

  const UNAUTHORIZED := 401
  const FORBIDDEN := 403

  predicate Rejected(status: int) { status == UNAUTHORIZED || status == FORBIDDEN }

  function Guarded(windows: Windows, request: Request, flood: Budget, credential: Budget, now: int): (Windows, Verdict)
  {
    var (next, count) := AfterHit(windows, request.flood, flood.windowSeconds, now);
    if count > flood.limit then (next, TooManyRequests)
    else if request.credential && CountAt(next, request.failures, now) >= credential.limit then (next, TooManyFailures)
    else (next, Admitted)
  }

  /** `status` is what the handler threw, or 0 for an answer or another error. */
  function Recorded(windows: Windows, request: Request, status: int, credential: Budget, now: int): Windows
  {
    if request.credential && Rejected(status) then AfterHit(windows, request.failures, credential.windowSeconds, now).0 else windows
  }

  class RateLimitGuard {
    const store: MemoryRateLimitStore

    constructor (store: MemoryRateLimitStore)
      ensures this.store == store
    {
      this.store := store;
    }

    method CanActivate(request: Request, flood: Budget, credential: Budget, now: int) returns (verdict: Verdict)
      modifies store
      ensures (store.windows, verdict) == Guarded(old(store.windows), request, flood, credential, now)
      ensures flood.windowSeconds > 0 ==> (verdict == TooManyRequests <==> CountAt(store.windows, request.flood, now) > flood.limit)
      ensures verdict == TooManyFailures <==>
        verdict != TooManyRequests && request.credential && CountAt(store.windows, request.failures, now) >= credential.limit
    {
      var count := store.Hit(request.flood, flood.windowSeconds, now);
      if count > flood.limit { return TooManyRequests; }
      if !request.credential { return Admitted; }
      var failures := store.Peek(request.failures, now);
      if failures >= credential.limit { return TooManyFailures; }
      return Admitted;
    }
  }

  class CredentialFailureInterceptor {
    const store: MemoryRateLimitStore

    constructor (store: MemoryRateLimitStore)
      ensures this.store == store
    {
      this.store := store;
    }

    /** The handler has settled with `status`. */
    method Intercept(request: Request, status: int, credential: Budget, now: int)
      modifies store
      ensures store.windows == Recorded(old(store.windows), request, status, credential, now)
    {
      if !request.credential { return; }
      if status == UNAUTHORIZED || status == FORBIDDEN {
        var _ := store.Hit(request.failures, credential.windowSeconds, now);
      }
    }
  }

  // ---------------------------------------------------------------- keys as strings

  const RATE_LIMIT_KEY := "memoar:rate-limit"

  function FloodKey(verb: string, pattern: string, caller: string): string
  {
    RATE_LIMIT_KEY + ":" + (verb + ":" + (pattern + ":" + caller))
  }

  function FailureKey(pattern: string, subject: string): string
  {
    RATE_LIMIT_KEY + ":" + ("failed" + ":" + (pattern + ":" + subject))
  }

  /** A flood count and a failure count never share a key: no HTTP method is `failed`, and none has a colon. */
  lemma KeysApart(verb: string, pattern: string, caller: string, failedPattern: string, subject: string)
    requires verb != "failed" && ':' !in verb
    ensures FloodKey(verb, pattern, caller) != FailureKey(failedPattern, subject)
  {
    var head := RATE_LIMIT_KEY + ":";
    var a, b := verb + ":" + (pattern + ":" + caller), "failed" + ":" + (failedPattern + ":" + subject);
    assert (head + a)[|head|..] == a && (head + b)[|head|..] == b;
    UpToColonOf(verb, pattern + ":" + caller);
    UpToColonOf("failed", failedPattern + ":" + subject);
  }

  function UpToColon(text: string): string
  {
    if text == "" || text[0] == ':' then "" else [text[0]] + UpToColon(text[1..])
  }

  lemma {:induction false} UpToColonOf(a: string, rest: string)
    requires ':' !in a
    ensures UpToColon(a + ":" + rest) == a
  {
    if a == "" {
      assert a + ":" + rest == ":" + rest;
    } else {
      assert (a + ":" + rest)[1..] == a[1..] + ":" + rest;
      UpToColonOf(a[1..], rest);
    }
  }
}
