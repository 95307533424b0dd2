/**
 * What the guard answers, counted from the events alone: arrivals, and requests
 * that settle, in time order. No store appears in the counts.
 */
module RateLimitVerdicts {
  import opened Wrappers
  import opened RateLimit
  import opened RateLimitTheorems

  /** In time order, with flood keys and failure keys where they belong. */
  predicate Trace(events: seq<TimedEvent>)
  {
    && (forall i, j :: 0 <= i < j < |events| ==> events[i].at <= events[j].at)
    && (forall i :: 0 <= i < |events| ==> Keyed(events[i].event.request))
  }

  // ---------------------------------------------------------------- counting events

  /** An arrival counts for its caller on the route; a settlement for the account, when it was a 401 or a 403. */
  predicate Counts(e: Event, key: Key)
  {
    match e
    case Arrive(request) => request.flood == key
    case Settle(request, status) => request.credential && (status == 401 || status == 403) && request.failures == key
  }

  function Milliseconds(budgets: Budgets, key: Key): nat
  {
    (if key.Flood? then budgets.flood.windowSeconds else budgets.credential.windowSeconds) * 1000
  }

  /** The event that opened the last window of `key` among the first `n`: the first to count, or the first past the end of the one before. */
  function Opening(events: seq<TimedEvent>, budgets: Budgets, key: Key, n: nat): (o: Option<nat>)
    requires n <= |events|
    ensures o.Some? ==> o.value < n && Counts(events[o.value].event, key)
  {
    if n == 0 then None
    else
      var before := Opening(events, budgets, key, n - 1);
      if Counts(events[n - 1].event, key)
         && (before.None? || events[n - 1].at >= events[before.value].at + Milliseconds(budgets, key))
      then Some(n - 1) else before
  }

  /** The events from `i` to `j` that count for `key`. */
  function Counted(events: seq<TimedEvent>, key: Key, i: nat, j: nat): nat
    requires i <= j <= |events|
    decreases j - i
  {
    if i == j then 0 else Counted(events, key, i, j - 1) + if Counts(events[j - 1].event, key) then 1 else 0
  }

  /** What counts since the last window opened. */
  function SinceOpening(events: seq<TimedEvent>, budgets: Budgets, key: Key, n: nat): nat
    requires n <= |events|
  {
    match Opening(events, budgets, key, n)
    case None => 0
    case Some(o) => Counted(events, key, o, n)
  }

  /** The last window is still open. */
  predicate StillOpen(events: seq<TimedEvent>, budgets: Budgets, key: Key, n: nat, now: int)
    requires n <= |events|
  {
    match Opening(events, budgets, key, n)
    case None => false
    case Some(o) => now < events[o].at + Milliseconds(budgets, key)
  }

  // ---------------------------------------------------------------- the store counts the same

  function WindowsAfter(events: seq<TimedEvent>, budgets: Budgets, n: nat): Windows
    requires n <= |events|
  {
    if n == 0 then map[]
    else Step(System(WindowsAfter(events, budgets, n - 1), multiset{}), events[n - 1].event, budgets, events[n - 1].at).windows
  }

  /** What the guard answers arrival `i`. */
  function VerdictOf(events: seq<TimedEvent>, budgets: Budgets, i: nat): Verdict
    requires i < |events| && events[i].event.Arrive?
  {
    Guarded(WindowsAfter(events, budgets, i), events[i].event.request, budgets.flood, budgets.credential, events[i].at).1
  }

  /** The window the store holds for `key` is the one the events opened, with their count. */
  predicate Holds(windows: Windows, events: seq<TimedEvent>, budgets: Budgets, key: Key, n: nat, now: int)
    requires n <= |events|
  {
    && (Live(windows, key, now) <==> StillOpen(events, budgets, key, n, now))
    && (Live(windows, key, now) ==>
          && windows[key].count == SinceOpening(events, budgets, key, n)
          && windows[key].expiresAt == events[Opening(events, budgets, key, n).value].at + Milliseconds(budgets, key))
  }

  /** An event that counts for `key` is a hit on it, and no other event touches it. */
  lemma StepIsHit(windows: Windows, e: Event, budgets: Budgets, at: int, key: Key)
    requires Keyed(e.request)
    ensures var next := Step(System(windows, multiset{}), e, budgets, at).windows;
      if Counts(e, key) then next == AfterHit(windows, key, Milliseconds(budgets, key) / 1000, at).0
      else
        && (Live(next, key, at) <==> Live(windows, key, at))
        && (key in next ==> key in windows && next[key] == windows[key])
  {
    hide AfterHit;
    if !Counts(e, key) {
      match e
      case Arrive(request) => HitElsewhere(windows, request.flood, budgets.flood.windowSeconds, at, key);
      case Settle(request, status) =>
        if request.credential && Rejected(status) {
          HitElsewhere(windows, request.failures, budgets.credential.windowSeconds, at, key);
        }
    }
  }

  lemma HitHolds(windows: Windows, events: seq<TimedEvent>, budgets: Budgets, key: Key, n: nat, now: int)
    requires n < |events| && Counts(events[n].event, key) && events[n].at <= now
    requires Holds(windows, events, budgets, key, n, events[n].at)
    ensures Holds(AfterHit(windows, key, Milliseconds(budgets, key) / 1000, events[n].at).0, events, budgets, key, n + 1, now)
  {
    hide Counts;
    var o := Opening(events, budgets, key, n);
    assert Opening(events, budgets, key, n + 1) == if StillOpen(events, budgets, key, n, events[n].at) then o else Some(n);
    assert Counted(events, key, n, n + 1) == Counted(events, key, n, n) + 1 == 1;
    if o.Some? {
      assert Counted(events, key, o.value, n + 1) == Counted(events, key, o.value, n) + 1;
    }
  }

  lemma PassHolds(windows: Windows, next: Windows, events: seq<TimedEvent>, budgets: Budgets, key: Key, n: nat, now: int)
    requires n < |events| && !Counts(events[n].event, key) && events[n].at <= now
    requires Holds(windows, events, budgets, key, n, now)
    requires Live(next, key, events[n].at) <==> Live(windows, key, events[n].at)
    requires key in next ==> key in windows && next[key] == windows[key]
    ensures Holds(next, events, budgets, key, n + 1, now)
  {
    hide Counts;
    var o := Opening(events, budgets, key, n);
    if o.Some? {
      assert Counted(events, key, o.value, n + 1) == Counted(events, key, o.value, n);
    }
  }

  lemma {:induction false} NothingHolds(events: seq<TimedEvent>, budgets: Budgets, key: Key, now: int)
    ensures Holds(WindowsAfter(events, budgets, 0), events, budgets, key, 0, now)
  {
  }

  lemma WindowsNext(events: seq<TimedEvent>, budgets: Budgets, n: nat)
    requires 0 < n <= |events|
    ensures WindowsAfter(events, budgets, n)
      == Step(System(WindowsAfter(events, budgets, n - 1), multiset{}), events[n - 1].event, budgets, events[n - 1].at).windows
  {
    hide Step;
  }

  lemma OneEarlier(events: seq<TimedEvent>, n: nat)
    requires Trace(events) && 0 < n <= |events|
    ensures Keyed(events[n - 1].event.request) && (n > 1 ==> events[n - 2].at <= events[n - 1].at)
  {
  }

  lemma {:induction false} AlwaysHolds(events: seq<TimedEvent>, budgets: Budgets, key: Key, n: nat, now: int)
    requires Trace(events) && n <= |events| && (n > 0 ==> events[n - 1].at <= now)
    ensures Holds(WindowsAfter(events, budgets, n), events, budgets, key, n, now)
  {
    hide *;
    if n == 0 {
      NothingHolds(events, budgets, key, now);
    } else {
      var e, windows := events[n - 1], WindowsAfter(events, budgets, n - 1);
      OneEarlier(events, n);
      WindowsNext(events, budgets, n);
      StepIsHit(windows, e.event, budgets, e.at, key);
      if Counts(e.event, key) {
        AlwaysHolds(events, budgets, key, n - 1, e.at);
        HitHolds(windows, events, budgets, key, n - 1, now);
      } else {
        AlwaysHolds(events, budgets, key, n - 1, now);
        PassHolds(windows, WindowsAfter(events, budgets, n), events, budgets, key, n - 1, now);
      }
    }
  }

  // ---------------------------------------------------------------- the verdict

  /**
   * Too many requests exactly when the arrivals since the flood window opened,
   * this one with them, are more than the limit; past that, for a credential
   * route, too many failures exactly when those of a window still open have
   * reached theirs.
   */
  lemma VerdictExact(events: seq<TimedEvent>, budgets: Budgets, i: nat)
    requires Trace(events) && i < |events| && events[i].event.Arrive?
    ensures var r, at, verdict := events[i].event.request, events[i].at, VerdictOf(events, budgets, i);
      var flooded := SinceOpening(events, budgets, r.flood, i + 1) > budgets.flood.limit;
      var failed := if StillOpen(events, budgets, r.failures, i, at) then SinceOpening(events, budgets, r.failures, i) else 0;
      && (verdict == TooManyRequests <==> flooded)
      && (verdict == TooManyFailures <==> !flooded && r.credential && failed >= budgets.credential.limit)
      && (verdict == Admitted <==> !flooded && (r.credential ==> failed < budgets.credential.limit))
  {
    var r, at, windows := events[i].event.request, events[i].at, WindowsAfter(events, budgets, i);
    AlwaysHolds(events, budgets, r.flood, i, at);
    AlwaysHolds(events, budgets, r.failures, i, at);
    CountsUp(events, budgets, r.flood, i);
    HitHere(windows, r.flood, budgets.flood.windowSeconds, at);
    HitElsewhere(windows, r.flood, budgets.flood.windowSeconds, at, r.failures);
    hide AfterHit, Opening, Counted, WindowsAfter;
  }

  /** An arrival is one more in its window, or the first of a new one. */
  lemma CountsUp(events: seq<TimedEvent>, budgets: Budgets, key: Key, i: nat)
    requires i < |events| && Counts(events[i].event, key)
    ensures Opening(events, budgets, key, i + 1)
      == if StillOpen(events, budgets, key, i, events[i].at) then Opening(events, budgets, key, i) else Some(i)
    ensures SinceOpening(events, budgets, key, i + 1)
      == if StillOpen(events, budgets, key, i, events[i].at) then SinceOpening(events, budgets, key, i) + 1 else 1
  {
    hide Counts;
    assert Counted(events, key, i, i + 1) == Counted(events, key, i, i) + 1 == 1;
  }

  // ---------------------------------------------------------------- any stretch

  /** The arrivals on `key` from `i` to `j` that got past the flood check. */
  function Passed(events: seq<TimedEvent>, budgets: Budgets, key: Key, i: nat, j: nat): nat
    requires i <= j <= |events|
    decreases j - i
  {
    if i == j then 0
    else
      Passed(events, budgets, key, i, j - 1)
      + if events[j - 1].event.Arrive? && events[j - 1].event.request.flood == key
           && VerdictOf(events, budgets, j - 1) != TooManyRequests then 1 else 0
  }

  lemma PassedLast(events: seq<TimedEvent>, budgets: Budgets, key: Key, i: nat, j: nat)
    requires i < j <= |events|
    ensures Passed(events, budgets, key, i, j) == Passed(events, budgets, key, i, j - 1) + Passed(events, budgets, key, j - 1, j)
  {
    hide VerdictOf;
    assert Passed(events, budgets, key, j - 1, j - 1) == 0;
  }

  lemma {:induction false} PassedSplit(events: seq<TimedEvent>, budgets: Budgets, key: Key, i: nat, k: nat, j: nat)
    requires i <= k <= j <= |events|
    ensures Passed(events, budgets, key, i, j) == Passed(events, budgets, key, i, k) + Passed(events, budgets, key, k, j)
    decreases j - k
  {
    hide *;
    if k == j {
      NonePassed(events, budgets, key, j);
    } else {
      PassedLast(events, budgets, key, i, j);
      PassedLast(events, budgets, key, k, j);
      PassedSplit(events, budgets, key, i, k, j - 1);
    }
  }

  /** One event: it passes exactly when it counts and the count it makes is within the limit. */
  lemma PassedOne(events: seq<TimedEvent>, budgets: Budgets, key: Key, k: nat)
    requires Trace(events) && key.Flood? && k < |events|
    ensures Passed(events, budgets, key, k, k + 1)
      == if Counts(events[k].event, key) && SinceOpening(events, budgets, key, k + 1) <= budgets.flood.limit then 1 else 0
    ensures !Counts(events[k].event, key) ==>
      Opening(events, budgets, key, k + 1) == Opening(events, budgets, key, k)
      && SinceOpening(events, budgets, key, k + 1) == SinceOpening(events, budgets, key, k)
  {
    hide VerdictOf;
    assert Passed(events, budgets, key, k, k) == 0;
    if events[k].event.Arrive? {
      VerdictExact(events, budgets, k);
    }
  }

  /** While no window opens, what passes is what the count grows by, up to the limit. */
  lemma {:induction false} OneWindow(events: seq<TimedEvent>, budgets: Budgets, key: Key, i: nat, j: nat)
    requires Trace(events) && key.Flood? && i <= j <= |events|
    requires forall k :: i <= k < j ==> Opening(events, budgets, key, k + 1) != Some(k)
    ensures Passed(events, budgets, key, i, j)
      == Min(SinceOpening(events, budgets, key, j), budgets.flood.limit) - Min(SinceOpening(events, budgets, key, i), budgets.flood.limit)
    ensures Opening(events, budgets, key, j) == Opening(events, budgets, key, i)
    decreases j - i
  {
    hide Passed, Opening, SinceOpening, StillOpen, Counts;
    if i == j {
      NonePassed(events, budgets, key, j);
    } else {
      OneWindow(events, budgets, key, i, j - 1);
      PassedOne(events, budgets, key, j - 1);
      PassedLast(events, budgets, key, i, j);
      if Counts(events[j - 1].event, key) {
        CountsUp(events, budgets, key, j - 1);
      }
    }
  }

  /** The first window that opens in a stretch. */
  lemma {:induction false} FirstOpened(events: seq<TimedEvent>, budgets: Budgets, key: Key, i: nat, j: nat) returns (k: nat)
    requires i <= j <= |events|
    ensures i <= k <= j && (k < j ==> Opening(events, budgets, key, k + 1) == Some(k))
    ensures forall l :: i <= l < k ==> Opening(events, budgets, key, l + 1) != Some(l)
    decreases j - i
  {
    if i == j || Opening(events, budgets, key, i + 1) == Some(i) {
      k := i;
    } else {
      k := FirstOpened(events, budgets, key, i + 1, j);
    }
  }

  /** And the only one, in less than its length. */
  lemma {:induction false} NoOther(events: seq<TimedEvent>, budgets: Budgets, key: Key, k: nat, j: nat)
    requires k < j <= |events| && Opening(events, budgets, key, k + 1) == Some(k)
    requires forall l :: k < l < j ==> events[l].at < events[k].at + Milliseconds(budgets, key)
    ensures forall l :: k < l < j ==> Opening(events, budgets, key, l + 1) != Some(l)
    ensures Opening(events, budgets, key, j) == Some(k)
    decreases j - k
  {
    if k + 1 < j {
      hide Counts;
      NoOther(events, budgets, key, k, j - 1);
    }
  }

  /** From the opening of a window to the end of a stretch within its length, at most the limit passes. */
  lemma {:induction false} FromOpening(events: seq<TimedEvent>, budgets: Budgets, key: Key, k: nat, j: nat)
    requires Trace(events) && key.Flood? && k < j <= |events| && Opening(events, budgets, key, k + 1) == Some(k)
    requires forall l :: k < l < j ==> events[l].at < events[k].at + Milliseconds(budgets, key)
    ensures Passed(events, budgets, key, k, j) <= budgets.flood.limit
  {
    hide Passed, Opening, SinceOpening, Counts, Trace, Milliseconds;
    NoOther(events, budgets, key, k, j);
    PassedSplit(events, budgets, key, k, k + 1, j);
    PassedOne(events, budgets, key, k);
    OpenedWithOne(events, budgets, key, k);
    OneWindow(events, budgets, key, k + 1, j);
  }

  /** Any stretch shorter than a window lets at most twice the limit past the flood check. */
  lemma {:induction false} StretchBound(events: seq<TimedEvent>, budgets: Budgets, key: Key, i: nat, j: nat)
    requires Trace(events) && key.Flood? && i <= j <= |events|
    requires i < j ==> events[j - 1].at - events[i].at < budgets.flood.windowSeconds * 1000
    ensures Passed(events, budgets, key, i, j) <= 2 * budgets.flood.limit
  {
    hide Passed, Opening, SinceOpening, Counts;
    var k := FirstOpened(events, budgets, key, i, j);
    OneWindow(events, budgets, key, i, k);
    PassedSplit(events, budgets, key, i, k, j);
    if k < j {
      forall l | k < l < j ensures events[l].at < events[k].at + Milliseconds(budgets, key) {
        assert events[i].at <= events[k].at && events[l].at <= events[j - 1].at;
      }
      FromOpening(events, budgets, key, k, j);
    } else {
      NonePassed(events, budgets, key, j);
    }
  }

  lemma OpenedWithOne(events: seq<TimedEvent>, budgets: Budgets, key: Key, k: nat)
    requires k < |events| && Opening(events, budgets, key, k + 1) == Some(k)
    ensures SinceOpening(events, budgets, key, k + 1) == 1
  {
    assert Counted(events, key, k, k + 1) == Counted(events, key, k, k) + 1 == 1;
  }

  lemma {:induction false} NonePassed(events: seq<TimedEvent>, budgets: Budgets, key: Key, j: nat)
    requires j <= |events|
    ensures Passed(events, budgets, key, j, j) == 0
  {
  }
}
