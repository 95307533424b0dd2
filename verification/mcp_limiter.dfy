/** The MCP call limiter: one fixed-window counter with two backends. */
module McpLimiter {
  import opened Wrappers

  datatype Counter = Counter(window: int, count: nat)

  /** A Redis counter and when it expires. */
  datatype Bucket = Bucket(count: nat, expiresAt: Option<int>)

  type Counters = map<string, Counter>

  type Buckets = map<(string, int), Bucket>

  datatype Limits = Limits(maximum: int, windowMs: int)

  type Positive = l: Limits | l.windowMs > 0 witness Limits(120, 60_000)

  function WindowOf(limits: Positive, now: int): int { now / limits.windowMs }

  // ---------------------------------------------------------------- one call

  function Mapped(counters: Counters, limits: Positive, key: string, now: int): (Counters, bool)
  {
    var window := WindowOf(limits, now);
    if key !in counters || counters[key].window != window then (counters[key := Counter(window, 1)], true)
    else (counters[key := Counter(window, counters[key].count + 1)], counters[key].count + 1 <= limits.maximum)
  }

  predicate Held(buckets: Buckets, bucket: (string, int), now: int)
  {
    bucket in buckets && (buckets[bucket].expiresAt.None? || buckets[bucket].expiresAt.value > now)
  }

  function Incr(buckets: Buckets, bucket: (string, int), now: int): Bucket
  {
    if Held(buckets, bucket, now) then buckets[bucket].(count := buckets[bucket].count + 1) else Bucket(1, None)
  }

  /** INCR, and PEXPIRE by the call that counts one. */
  function Incremented(buckets: Buckets, limits: Positive, key: string, now: int): (Buckets, bool)
  {
    var bucket := (key, WindowOf(limits, now));
    var next := Incr(buckets, bucket, now);
    (buckets[bucket := if next.count == 1 then next.(expiresAt := Some(now + limits.windowMs * 2)) else next],
     next.count <= limits.maximum)
  }

  class McpRateLimiter {
    const limits: Positive
    const redis: bool
    var windows: Counters
    var buckets: Buckets

    constructor (limits: Positive, redis: bool)
      ensures this.limits == limits && this.redis == redis && windows == map[] && buckets == map[]
    {
      this.limits, this.redis := limits, redis;
      windows, buckets := map[], map[];
    }

    method Consume(key: string, now: int) returns (allowed: bool)
      modifies this
      ensures redis ==> (buckets, allowed) == Incremented(old(buckets), limits, key, now) && windows == old(windows)
      ensures !redis ==> (windows, allowed) == Mapped(old(windows), limits, key, now) && buckets == old(buckets)
    {
      var window := now / limits.windowMs;
      if redis {
        var bucket := (key, window);
        var next := Incr(buckets, bucket, now);
        buckets := buckets[bucket := next];
        if next.count == 1 {
          buckets := buckets[bucket := next.(expiresAt := Some(now + limits.windowMs * 2))];
        }
        assert buckets == Incremented(old(buckets), limits, key, now).0;
        return next.count <= limits.maximum;
      }
      if key !in windows || windows[key].window != window {
        windows := windows[key := Counter(window, 1)];
        return true;
      }
      var count := windows[key].count + 1;
      windows := windows[key := Counter(window, count)];
      return count <= limits.maximum;
    }
  }

  // ---------------------------------------------------------------- traces

  datatype Call = Call(key: string, at: int)

  predicate Ordered(trace: seq<Call>)
  {
    forall i, j :: 0 <= i < j < |trace| ==> trace[i].at <= trace[j].at
  }

  function CountersAfter(limits: Positive, trace: seq<Call>): Counters
  {
    if trace == [] then map[]
    else var n := |trace| - 1; Mapped(CountersAfter(limits, trace[..n]), limits, trace[n].key, trace[n].at).0
  }

  function BucketsAfter(limits: Positive, trace: seq<Call>): Buckets
  {
    if trace == [] then map[]
    else var n := |trace| - 1; Incremented(BucketsAfter(limits, trace[..n]), limits, trace[n].key, trace[n].at).0
  }

  /** The answers to the last call of a trace. */
  function MapAnswer(limits: Positive, trace: seq<Call>): bool
    requires trace != []
  {
    var n := |trace| - 1; Mapped(CountersAfter(limits, trace[..n]), limits, trace[n].key, trace[n].at).1
  }

  function RedisAnswer(limits: Positive, trace: seq<Call>): bool
    requires trace != []
  {
    var n := |trace| - 1; Incremented(BucketsAfter(limits, trace[..n]), limits, trace[n].key, trace[n].at).1
  }

  /** The calls of a trace on one key in one window. */
  function Calls(limits: Positive, trace: seq<Call>, key: string, window: int): nat
  {
    if trace == [] then 0
    else
      var n := |trace| - 1;
      Calls(limits, trace[..n], key, window) + if trace[n].key == key && WindowOf(limits, trace[n].at) == window then 1 else 0
  }

  lemma WindowsOrdered(limits: Positive, a: int, b: int)
    requires a <= b
    ensures WindowOf(limits, a) <= WindowOf(limits, b)
    ensures WindowOf(limits, a) == WindowOf(limits, b) ==> b < a + limits.windowMs
  {
    var w := limits.windowMs;
    assert a == w * (a / w) + a % w && b == w * (b / w) + b % w;
    assert w * (b / w + 1) == w * (b / w) + w;
    Cancel(w, a / w, b / w + 1);
  }

  lemma Cancel(w: int, x: int, y: int)
    requires w > 0 && w * x < w * y
    ensures x < y
  {
    assert w * (y - x) == w * y - w * x;
    assert w * (y - x) > 0;
  }

  lemma OrderedPrefix(trace: seq<Call>)
    requires Ordered(trace) && trace != []
    ensures Ordered(trace[..|trace| - 1])
  {
  }

  /** What a counter in the map says: the last window its key was called in, and the calls in it. */
  lemma {:induction false} MapCounts(limits: Positive, trace: seq<Call>, key: string, window: int)
    requires Ordered(trace) && (trace != [] ==> WindowOf(limits, trace[|trace| - 1].at) <= window)
    ensures var counters := CountersAfter(limits, trace);
      && (key in counters ==> counters[key].window <= window && counters[key].count >= 1)
      && Calls(limits, trace, key, window) == if key in counters && counters[key].window == window then counters[key].count else 0
  {
    if trace != [] {
      var n := |trace| - 1;
      var here := WindowOf(limits, trace[n].at);
      OrderedPrefix(trace);
      if n > 0 {
        WindowsOrdered(limits, trace[n - 1].at, trace[n].at);
      }
      hide WindowOf, Ordered;
      MapCounts(limits, trace[..n], key, window);
      MapCounts(limits, trace[..n], key, here);
    }
  }

  /** What a Redis counter says, at any time in its window: the calls on its key in that window. */
  lemma {:induction false} RedisCounts(limits: Positive, trace: seq<Call>, key: string, now: int)
    requires Ordered(trace) && (trace != [] ==> trace[|trace| - 1].at <= now)
    ensures var buckets, bucket := BucketsAfter(limits, trace), (key, WindowOf(limits, now));
      && (bucket in buckets ==> Held(buckets, bucket, now) && buckets[bucket].count >= 1)
      && Calls(limits, trace, key, WindowOf(limits, now)) == if bucket in buckets then buckets[bucket].count else 0
  {
    if trace != [] {
      var n := |trace| - 1;
      OrderedPrefix(trace);
      RedisCounts(limits, trace[..n], key, now);
      RedisCounts(limits, trace[..n], trace[n].key, trace[n].at);
      WindowsOrdered(limits, trace[n].at, now);
    }
  }

  /** The Redis form allows a call exactly when its window has seen at most the maximum, this call included. */
  lemma {:induction false} RedisExact(limits: Positive, trace: seq<Call>)
    requires trace != [] && Ordered(trace)
    ensures var last := trace[|trace| - 1];
      RedisAnswer(limits, trace) <==> Calls(limits, trace, last.key, WindowOf(limits, last.at)) <= limits.maximum
  {
    var n := |trace| - 1;
    OrderedPrefix(trace);
    RedisCounts(limits, trace[..n], trace[n].key, trace[n].at);
  }

  /** The map form does too, except that it never asks on the first call of a window. */
  lemma {:induction false} MapExact(limits: Positive, trace: seq<Call>)
    requires trace != [] && Ordered(trace)
    ensures var last := trace[|trace| - 1];
      var calls := Calls(limits, trace, last.key, WindowOf(limits, last.at));
      MapAnswer(limits, trace) <==> calls == 1 || calls <= limits.maximum
  {
    var n := |trace| - 1;
    OrderedPrefix(trace);
    if n > 0 {
      WindowsOrdered(limits, trace[n - 1].at, trace[n].at);
    }
    MapCounts(limits, trace[..n], trace[n].key, WindowOf(limits, trace[n].at));
  }

  /** The two forms give every trace the same answers exactly when the maximum lets a first call through. */
  lemma FormsAgreeExactly(limits: Positive)
    ensures (forall trace: seq<Call> :: trace != [] && Ordered(trace) ==> MapAnswer(limits, trace) == RedisAnswer(limits, trace))
      <==> limits.maximum >= 1
  {
    if limits.maximum >= 1 {
      forall trace: seq<Call> | trace != [] && Ordered(trace) ensures MapAnswer(limits, trace) == RedisAnswer(limits, trace) {
        MapExact(limits, trace);
        RedisExact(limits, trace);
      }
    } else {
      var one := [Call("tenant", 0)];
      assert one[..0] == [];
      assert MapAnswer(limits, one) && !RedisAnswer(limits, one);
    }
  }

  /** A clock that runs back into an earlier window makes the map forget, and not Redis. */
  lemma ClockRunsBack()
    ensures var limits: Positive := Limits(1, 10);
      var trace := [Call("tenant", 10), Call("tenant", 0), Call("tenant", 10)];
      MapAnswer(limits, trace) && !RedisAnswer(limits, trace)
  {
    var limits: Positive := Limits(1, 10);
    var a, b := Call("tenant", 10), Call("tenant", 0);
    var trace := [a, b, a];
    assert trace[..2] == [a, b] && [a, b][..1] == [a] && [a][..0] == [];
    assert CountersAfter(limits, [a]) == map["tenant" := Counter(1, 1)];
    assert CountersAfter(limits, [a, b]) == map["tenant" := Counter(0, 1)];
    assert BucketsAfter(limits, [a]) == map[("tenant", 1) := Bucket(1, Some(30))];
    assert BucketsAfter(limits, [a, b])[("tenant", 1)] == Bucket(1, Some(30));
  }
}
