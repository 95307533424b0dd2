/** What the counter and the guard keep over every trace with a clock that does not run back. */
module RateLimitTheorems {
  import opened Wrappers
  import opened RateLimit

  // ---------------------------------------------------------------- forgetting is invisible

  datatype Call = HitCall(key: Key, windowSeconds: nat) | PeekCall(key: Key)

  datatype Timed = Timed(at: int, call: Call)

  predicate Ordered(trace: seq<Timed>)
  {
    forall i, j :: 0 <= i < j < |trace| ==> trace[i].at <= trace[j].at
  }

  function Answer(windows: Windows, t: Timed): (Windows, nat)
  {
    match t.call
    case HitCall(key, seconds) => AfterHit(windows, key, seconds, t.at)
    case PeekCall(key) => (windows, CountAt(windows, key, t.at))
  }

  function AnswerKept(windows: Windows, t: Timed): (Windows, nat)
  {
    match t.call
    case HitCall(key, seconds) => AfterHitKept(windows, key, seconds, t.at)
    case PeekCall(key) => (windows, CountAt(windows, key, t.at))
  }

  function Answers(windows: Windows, trace: seq<Timed>): seq<nat>
    decreases |trace|
  {
    if trace == [] then [] else [Answer(windows, trace[0]).1] + Answers(Answer(windows, trace[0]).0, trace[1..])
  }

  function AnswersKept(windows: Windows, trace: seq<Timed>): seq<nat>
    decreases |trace|
  {
    if trace == [] then [] else [AnswerKept(windows, trace[0]).1] + AnswersKept(AnswerKept(windows, trace[0]).0, trace[1..])
  }

  /** The same windows are live in both from `now` on. */
  ghost predicate Alike(a: Windows, b: Windows, now: int)
  {
    forall k :: (Live(a, k, now) <==> Live(b, k, now)) && (Live(a, k, now) && Live(b, k, now) ==> a[k] == b[k])
  }

  lemma AlikeLater(a: Windows, b: Windows, now: int, later: int)
    requires Alike(a, b, now) && now <= later
    ensures Alike(a, b, later)
  {
    forall k ensures (Live(a, k, later) <==> Live(b, k, later)) && (Live(a, k, later) && Live(b, k, later) ==> a[k] == b[k]) {
      assert Live(a, k, now) <==> Live(b, k, now);
    }
  }

  lemma AnswerAlike(a: Windows, b: Windows, t: Timed)
    requires Alike(a, b, t.at)
    ensures Answer(a, t).1 == AnswerKept(b, t).1
    ensures Alike(Answer(a, t).0, AnswerKept(b, t).0, t.at)
  {
    if t.call.HitCall? {
      var key := t.call.key;
      assert Live(a, key, t.at) <==> Live(b, key, t.at);
      var x, y := AfterHitKept(a, key, t.call.windowSeconds, t.at).0, AfterHitKept(b, key, t.call.windowSeconds, t.at).0;
      forall k ensures (Live(x, k, t.at) <==> Live(y, k, t.at)) && (Live(x, k, t.at) && Live(y, k, t.at) ==> x[k] == y[k]) {
        assert k != key ==> (Live(x, k, t.at) <==> Live(a, k, t.at)) && (Live(y, k, t.at) <==> Live(b, k, t.at));
      }
      SweptAlike(x, t.at);
    }
  }

  lemma SweptAlike(windows: Windows, now: int)
    ensures forall k :: Live(Sweep(windows, now), k, now) <==> Live(windows, k, now)
  {
  }

  /** The store that sweeps answers every hit and every peek as one that keeps everything would. */
  lemma {:induction false} SweepInvisible(a: Windows, b: Windows, trace: seq<Timed>, now: int)
    requires Alike(a, b, now) && Ordered(trace) && (trace != [] ==> now <= trace[0].at)
    ensures Answers(a, trace) == AnswersKept(b, trace)
    decreases |trace|
  {
    if trace != [] {
      var t := trace[0];
      AlikeLater(a, b, now, t.at);
      AnswerAlike(a, b, t);
      SweepInvisible(Answer(a, t).0, AnswerKept(b, t).0, trace[1..], t.at);
    }
  }

  // ---------------------------------------------------------------- any interval

  function Min(a: int, b: int): int { if a <= b then a else b }

  /** The kept windows after the first `k` calls. */
  function After(trace: seq<Timed>, k: nat): Windows
    requires k <= |trace|
  {
    if k == 0 then map[] else AnswerKept(After(trace, k - 1), trace[k - 1]).0
  }

  predicate Hits(trace: seq<Timed>, key: Key, k: nat)
    requires k < |trace|
  {
    trace[k].call.HitCall? && trace[k].call.key == key
  }

  function CountOf(windows: Windows, key: Key): nat
  {
    if key in windows then windows[key].count else 0
  }

  /** The hits on `key` among calls `i` to `j` that were within the limit. */
  function Admissions(trace: seq<Timed>, key: Key, limit: nat, i: nat, j: nat): nat
    requires i <= j <= |trace|
    decreases j - i
  {
    if i == j then 0
    else
      Admissions(trace, key, limit, i, j - 1)
      + if Hits(trace, key, j - 1) && AnswerKept(After(trace, j - 1), trace[j - 1]).1 <= limit then 1 else 0
  }

  /** Call `k` opens a window for `key`. */
  predicate Opens(trace: seq<Timed>, key: Key, k: nat)
    requires k < |trace|
  {
    Hits(trace, key, k) && !Live(After(trace, k), key, trace[k].at)
  }

  lemma {:induction false} AdmissionsSplit(trace: seq<Timed>, key: Key, limit: nat, i: nat, k: nat, j: nat)
    requires i <= k <= j <= |trace|
    ensures Admissions(trace, key, limit, i, j) == Admissions(trace, key, limit, i, k) + Admissions(trace, key, limit, k, j)
    decreases j - k
  {
    if k < j {
      AdmissionsSplit(trace, key, limit, i, k, j - 1);
    }
  }

  /** While no window opens, the admissions are what the count grew by, up to the limit. */
  lemma {:induction false} WithinWindow(trace: seq<Timed>, key: Key, limit: nat, i: nat, j: nat)
    requires i <= j <= |trace| && forall k :: i <= k < j ==> !Opens(trace, key, k)
    ensures Admissions(trace, key, limit, i, j) == Min(CountOf(After(trace, j), key), limit) - Min(CountOf(After(trace, i), key), limit)
    ensures key in After(trace, i) ==> key in After(trace, j) && After(trace, j)[key].expiresAt == After(trace, i)[key].expiresAt
    decreases j - i
  {
    if i < j {
      WithinWindow(trace, key, limit, i, j - 1);
      assert !Opens(trace, key, j - 1);
    }
  }

  lemma {:induction false} FirstOpening(trace: seq<Timed>, key: Key, i: nat, j: nat) returns (k: nat)
    requires i <= j <= |trace|
    ensures i <= k <= j && (forall l :: i <= l < k ==> !Opens(trace, key, l)) && (k < j ==> Opens(trace, key, k))
    decreases j - i
  {
    if i == j || Opens(trace, key, i) {
      k := i;
    } else {
      k := FirstOpening(trace, key, i + 1, j);
    }
  }

  /** In the window opened at `k`, no other opens. */
  lemma {:induction false} NoneOpens(trace: seq<Timed>, key: Key, k: nat, j: nat, seconds: nat)
    requires k < j <= |trace| && Opens(trace, key, k) && trace[k].call.windowSeconds == seconds
    requires forall l :: k < l < j ==> trace[l].at < trace[k].at + seconds * 1000
    ensures forall l :: k < l < j ==> !Opens(trace, key, l)
    decreases j - k
  {
    if k + 1 < j {
      NoneOpens(trace, key, k, j - 1, seconds);
      WithinWindow(trace, key, 0, k + 1, j - 1);
      assert key in After(trace, k + 1) && After(trace, k + 1)[key].expiresAt == trace[k].at + seconds * 1000;
    }
  }

  /** Any stretch of calls shorter than one window admits at most twice the limit. */
  lemma {:induction false} TwiceTheLimit(trace: seq<Timed>, key: Key, limit: nat, seconds: nat, i: nat, j: nat)
    requires Ordered(trace) && i <= j <= |trace|
    requires forall k :: 0 <= k < |trace| && Hits(trace, key, k) ==> trace[k].call.windowSeconds == seconds
    requires i < j ==> trace[j - 1].at - trace[i].at < seconds * 1000
    ensures Admissions(trace, key, limit, i, j) <= 2 * limit
  {
    var k := FirstOpening(trace, key, i, j);
    AdmissionsSplit(trace, key, limit, i, k, j);
    WithinWindow(trace, key, limit, i, k);
    if k < j {
      forall l | k < l < j ensures trace[l].at < trace[k].at + seconds * 1000 {
        assert trace[l].at <= trace[j - 1].at;
      }
      NoneOpens(trace, key, k, j, seconds);
      AdmissionsSplit(trace, key, limit, k, k + 1, j);
      WithinWindow(trace, key, limit, k + 1, j);
      OpeningAdmits(trace, key, limit, k);
    }
  }

  lemma {:induction false} OpeningAdmits(trace: seq<Timed>, key: Key, limit: nat, k: nat)
    requires k < |trace| && Opens(trace, key, k)
    ensures Admissions(trace, key, limit, k, k + 1) == Min(1, limit) == Min(CountOf(After(trace, k + 1), key), limit)
  {
    assert Admissions(trace, key, limit, k, k) == 0;
  }

  lemma {:induction false} AnswersAt(windows: Windows, trace: seq<Timed>, k: nat)
    requires k < |trace|
    ensures |AnswersKept(windows, trace)| == |trace|
    ensures AnswersKept(windows, trace)[k] == AnswerKept(From(windows, trace[..k]), trace[k]).1
    decreases |trace|
  {
    var t := trace[0];
    if k == 0 {
      assert trace[..0] == [];
      if |trace| > 1 {
        AnswersAt(AnswerKept(windows, t).0, trace[1..], 0);
      }
    } else {
      AnswersAt(AnswerKept(windows, t).0, trace[1..], k - 1);
      assert trace[..k][1..] == trace[1..][..k - 1];
    }
  }

  /** The kept windows after a trace. */
  function From(windows: Windows, trace: seq<Timed>): Windows
    decreases |trace|
  {
    if trace == [] then windows else From(AnswerKept(windows, trace[0]).0, trace[1..])
  }

  lemma {:induction false} FromEnd(windows: Windows, trace: seq<Timed>)
    requires trace != []
    ensures From(windows, trace) == AnswerKept(From(windows, trace[..|trace| - 1]), trace[|trace| - 1]).0
    decreases |trace|
  {
    if |trace| > 1 {
      FromEnd(AnswerKept(windows, trace[0]).0, trace[1..]);
      assert trace[1..][..|trace| - 2] == trace[..|trace| - 1][1..];
    }
  }

  lemma {:induction false} FromIsAfter(trace: seq<Timed>, k: nat)
    requires k <= |trace|
    ensures From(map[], trace[..k]) == After(trace, k)
  {
    if k > 0 {
      FromIsAfter(trace, k - 1);
      FromEnd(map[], trace[..k]);
      assert trace[..k][..k - 1] == trace[..k - 1];
    }
  }

  /** The hits on `key` among calls `i` to `j` that were answered within the limit. */
  function Granted(trace: seq<Timed>, answers: seq<nat>, key: Key, limit: nat, i: nat, j: nat): nat
    requires i <= j <= |trace| == |answers|
    decreases j - i
  {
    if i == j then 0
    else Granted(trace, answers, key, limit, i, j - 1) + if Hits(trace, key, j - 1) && answers[j - 1] <= limit then 1 else 0
  }

  lemma {:induction false} GrantedIsAdmissions(trace: seq<Timed>, key: Key, limit: nat, i: nat, j: nat)
    requires Ordered(trace) && i <= j <= |trace|
    ensures |Answers(map[], trace)| == |trace|
    ensures Granted(trace, Answers(map[], trace), key, limit, i, j) == Admissions(trace, key, limit, i, j)
    decreases j - i
  {
    SweepInvisible(map[], map[], trace, if trace == [] then 0 else trace[0].at);
    AnswersLength(map[], trace);
    if i < j {
      GrantedIsAdmissions(trace, key, limit, i, j - 1);
      AnswersAt(map[], trace, j - 1);
      FromIsAfter(trace, j - 1);
    }
  }

  lemma {:induction false} AnswersLength(windows: Windows, trace: seq<Timed>)
    ensures |AnswersKept(windows, trace)| == |trace|
    decreases |trace|
  {
    if trace != [] {
      AnswersLength(AnswerKept(windows, trace[0]).0, trace[1..]);
    }
  }

  /** So says the store as it is, sweep and all: any interval of one window length grants at most twice the limit. */
  lemma {:induction false} IntervalBound(trace: seq<Timed>, key: Key, limit: nat, seconds: nat, i: nat, j: nat)
    requires Ordered(trace) && i <= j <= |trace|
    requires forall k :: 0 <= k < |trace| && Hits(trace, key, k) ==> trace[k].call.windowSeconds == seconds
    requires i < j ==> trace[j - 1].at - trace[i].at < seconds * 1000
    ensures |Answers(map[], trace)| == |trace|
    ensures Granted(trace, Answers(map[], trace), key, limit, i, j) <= 2 * limit
  {
    GrantedIsAdmissions(trace, key, limit, i, j);
    TwiceTheLimit(trace, key, limit, seconds, i, j);
  }

  // ---------------------------------------------------------------- the failure budget

  /** The store, and for each account the credential requests admitted and not yet settled. */
  datatype System = System(windows: Windows, flying: multiset<Key>)

  datatype Event = Arrive(request: Request) | Settle(request: Request, status: int)

  datatype Budgets = Budgets(flood: Budget, credential: Budget)

  predicate Keyed(request: Request) { request.flood.Flood? && request.failures.Failures? }

  predicate Possible(s: System, e: Event)
  {
    Keyed(e.request) && (e.Settle? && e.request.credential ==> e.request.failures in s.flying)
  }

  function Step(s: System, e: Event, budgets: Budgets, now: int): System
  {
    match e
    case Arrive(request) =>
      var (windows, verdict) := Guarded(s.windows, request, budgets.flood, budgets.credential, now);
      System(windows, if verdict.Admitted? && request.credential then s.flying + multiset{request.failures} else s.flying)
    case Settle(request, status) =>
      System(Recorded(s.windows, request, status, budgets.credential, now),
             if request.credential then s.flying - multiset{request.failures} else s.flying)
  }

  /** The account's live failures and its requests in flight, together. */
  predicate Within(s: System, account: Key, limit: nat, most: nat, now: int)
  {
    && CountAt(s.windows, account, now) + s.flying[account] <= limit + most - 1
    && (account in s.windows ==> s.windows[account].count <= limit + most - 1)
    && (limit == 0 ==> s.flying[account] == 0)
  }

  /** A hit on another key leaves a live window alone, and revives none. */
  lemma HitElsewhere(windows: Windows, key: Key, seconds: nat, now: int, other: Key)
    requires other != key
    ensures var next := AfterHit(windows, key, seconds, now).0;
      && (Live(next, other, now) <==> Live(windows, other, now))
      && (other in next ==> other in windows && next[other] == windows[other])
  {
  }

  lemma HitHere(windows: Windows, key: Key, seconds: nat, now: int)
    ensures var (next, count) := AfterHit(windows, key, seconds, now);
      && count == CountAt(windows, key, now) + 1
      && (key in next ==> next[key].count == count)
      && CountAt(next, key, now) <= count
      && (seconds > 0 ==> CountAt(next, key, now) == count)
  {
  }

  /** An answered request, a refused one, and one that fails for another reason leave every account's failures as they were. */
  lemma OnlyRejectionsCount(s: System, e: Event, budgets: Budgets, now: int, account: Key)
    requires account.Failures? && Possible(s, e)
    requires e.Arrive? || !e.request.credential || !Rejected(e.status)
    ensures var next := Step(s, e, budgets, now).windows;
      && (Live(next, account, now) <==> Live(s.windows, account, now))
      && (account in next ==> account in s.windows && next[account] == s.windows[account])
  {
    if e.Arrive? {
      HitElsewhere(s.windows, e.request.flood, budgets.flood.windowSeconds, now, account);
    }
  }

  lemma StepWithin(s: System, e: Event, budgets: Budgets, now: int, account: Key, most: nat)
    requires account.Failures? && Possible(s, e) && Within(s, account, budgets.credential.limit, most, now)
    requires Step(s, e, budgets, now).flying[account] <= most
    requires s.flying[account] <= most
    ensures Within(Step(s, e, budgets, now), account, budgets.credential.limit, most, now)
  {
    hide AfterHit;
    match e
    case Arrive(request) =>
      HitElsewhere(s.windows, request.flood, budgets.flood.windowSeconds, now, account);
    case Settle(request, status) =>
      if request.credential && Rejected(status) {
        if request.failures == account {
          HitHere(s.windows, account, budgets.credential.windowSeconds, now);
        } else {
          HitElsewhere(s.windows, request.failures, budgets.credential.windowSeconds, now, account);
        }
      }
  }

  datatype TimedEvent = TimedEvent(at: int, event: Event)

  /** Events in time order, each possible, with at most `most` requests of the account in flight throughout. */
  ghost predicate Run(s: System, events: seq<TimedEvent>, budgets: Budgets, account: Key, most: nat, now: int)
    decreases |events|
  {
    && s.flying[account] <= most
    && (events != [] ==>
          && now <= events[0].at && Possible(s, events[0].event)
          && Run(Step(s, events[0].event, budgets, events[0].at), events[1..], budgets, account, most, events[0].at))
  }

  function End(s: System, events: seq<TimedEvent>, budgets: Budgets): System
    decreases |events|
  {
    if events == [] then s else End(Step(s, events[0].event, budgets, events[0].at), events[1..], budgets)
  }

  lemma {:induction false} RunWithin(s: System, events: seq<TimedEvent>, budgets: Budgets, account: Key, most: nat, now: int)
    requires account.Failures? && Run(s, events, budgets, account, most, now)
    requires Within(s, account, budgets.credential.limit, most, now)
    ensures var end := End(s, events, budgets).windows;
      account in end ==> end[account].count <= budgets.credential.limit + most - 1
    decreases |events|
  {
    if events != [] {
      var e := events[0];
      hide Step;
      assert Within(s, account, budgets.credential.limit, most, e.at);
      StepWithin(s, e.event, budgets, e.at, account, most);
      RunWithin(Step(s, e.event, budgets, e.at), events[1..], budgets, account, most, e.at);
    }
  }

  /**
   * From an empty store: with at most `most` credential requests of one account
   * in flight, no window of it records more than `limit + most - 1` failures,
   * from however many addresses they come.
   */
  lemma {:induction false} FailureBudget(events: seq<TimedEvent>, budgets: Budgets, account: Key, most: nat, now: int)
    requires account.Failures? && most >= 1
    requires Run(System(map[], multiset{}), events, budgets, account, most, now)
    ensures var end := End(System(map[], multiset{}), events, budgets).windows;
      account in end ==> end[account].count <= budgets.credential.limit + most - 1
  {
    hide Run, End;
    RunWithin(System(map[], multiset{}), events, budgets, account, most, now);
  }

  // ---------------------------------------------------------------- the budget is reached

  /** Counts at time 0: failures, flood, in flight. */
  predicate At(s: System, r: Request, failures: nat, flood: nat, flying: nat)
  {
    CountAt(s.windows, r.failures, 0) == failures && CountAt(s.windows, r.flood, 0) == flood && s.flying[r.failures] == flying
  }

  predicate Roomy(r: Request, budgets: Budgets)
  {
    Keyed(r) && r.credential && budgets.flood.windowSeconds > 0 && budgets.credential.windowSeconds > 0
  }

  lemma ArriveAt(s: System, r: Request, budgets: Budgets, c: nat, f: nat, g: nat)
    requires Roomy(r, budgets) && At(s, r, c, f, g) && f < budgets.flood.limit && c < budgets.credential.limit
    ensures Possible(s, Arrive(r)) && At(Step(s, Arrive(r), budgets, 0), r, c, f + 1, g + 1)
  {
    hide AfterHit;
    HitHere(s.windows, r.flood, budgets.flood.windowSeconds, 0);
    HitElsewhere(s.windows, r.flood, budgets.flood.windowSeconds, 0, r.failures);
  }

  lemma FailAt(s: System, r: Request, budgets: Budgets, c: nat, f: nat, g: nat)
    requires Roomy(r, budgets) && At(s, r, c, f, g) && g > 0
    ensures Possible(s, Settle(r, UNAUTHORIZED)) && At(Step(s, Settle(r, UNAUTHORIZED), budgets, 0), r, c + 1, f, g - 1)
  {
    hide AfterHit;
    HitHere(s.windows, r.failures, budgets.credential.windowSeconds, 0);
    HitElsewhere(s.windows, r.failures, budgets.credential.windowSeconds, 0, r.flood);
  }

  /** One event in front of a run. */
  lemma {:induction false} Before(s: System, e: Event, rest: seq<TimedEvent>, budgets: Budgets, account: Key, most: nat)
    requires s.flying[account] <= most && Possible(s, e)
    requires Run(Step(s, e, budgets, 0), rest, budgets, account, most, 0)
    ensures Run(s, [TimedEvent(0, e)] + rest, budgets, account, most, 0)
    ensures End(s, [TimedEvent(0, e)] + rest, budgets) == End(Step(s, e, budgets, 0), rest, budgets)
  {
    hide Step, Possible;
    assert ([TimedEvent(0, e)] + rest)[1..] == rest;
  }

  /** Everything in flight fails. */
  lemma {:induction false} AllFail(s: System, r: Request, budgets: Budgets, most: nat, c: nat, f: nat, g: nat) returns (events: seq<TimedEvent>)
    requires Roomy(r, budgets) && At(s, r, c, f, g) && g <= most
    ensures Run(s, events, budgets, r.failures, most, 0) && CountAt(End(s, events, budgets).windows, r.failures, 0) == c + g
    decreases g
  {
    if g == 0 {
      events := [];
    } else {
      FailAt(s, r, budgets, c, f, g);
      hide Step;
      var rest := AllFail(Step(s, Settle(r, UNAUTHORIZED), budgets, 0), r, budgets, most, c + 1, f, g - 1);
      Before(s, Settle(r, UNAUTHORIZED), rest, budgets, r.failures, most);
      events := [TimedEvent(0, Settle(r, UNAUTHORIZED))] + rest;
    }
  }

  /** As many as may be in flight are admitted, and then all fail. */
  lemma {:induction false} FillAndFail(s: System, r: Request, budgets: Budgets, most: nat, c: nat, f: nat, g: nat) returns (events: seq<TimedEvent>)
    requires Roomy(r, budgets) && At(s, r, c, f, g) && g <= most
    requires c < budgets.credential.limit && f + (most - g) <= budgets.flood.limit
    ensures Run(s, events, budgets, r.failures, most, 0) && CountAt(End(s, events, budgets).windows, r.failures, 0) == c + most
    decreases most - g
  {
    if g == most {
      events := AllFail(s, r, budgets, most, c, f, g);
    } else {
      ArriveAt(s, r, budgets, c, f, g);
      hide Step;
      var rest := FillAndFail(Step(s, Arrive(r), budgets, 0), r, budgets, most, c, f + 1, g + 1);
      Before(s, Arrive(r), rest, budgets, r.failures, most);
      events := [TimedEvent(0, Arrive(r))] + rest;
    }
  }

  /** One by one up to one short of the limit, then as many at once as may be. */
  lemma {:induction false} Climb(s: System, r: Request, budgets: Budgets, most: nat, c: nat) returns (events: seq<TimedEvent>)
    requires Roomy(r, budgets) && At(s, r, c, c, 0) && 1 <= most
    requires c < budgets.credential.limit && budgets.credential.limit - 1 + most <= budgets.flood.limit
    ensures Run(s, events, budgets, r.failures, most, 0)
    ensures CountAt(End(s, events, budgets).windows, r.failures, 0) == budgets.credential.limit - 1 + most
    decreases budgets.credential.limit - c
  {
    if c == budgets.credential.limit - 1 {
      events := FillAndFail(s, r, budgets, most, c, c, 0);
    } else {
      ArriveAt(s, r, budgets, c, c, 0);
      hide Step;
      var one := Step(s, Arrive(r), budgets, 0);
      FailAt(one, r, budgets, c, c + 1, 1);
      var rest := Climb(Step(one, Settle(r, UNAUTHORIZED), budgets, 0), r, budgets, most, c + 1);
      Before(one, Settle(r, UNAUTHORIZED), rest, budgets, r.failures, most);
      var two := [TimedEvent(0, Settle(r, UNAUTHORIZED))] + rest;
      Before(s, Arrive(r), two, budgets, r.failures, most);
      events := [TimedEvent(0, Arrive(r))] + two;
    }
  }

  /** The bound is exact: some run records `limit + most - 1` failures in one window. */
  lemma BudgetReached(r: Request, budgets: Budgets, most: nat) returns (events: seq<TimedEvent>)
    requires Roomy(r, budgets) && most >= 1 && budgets.credential.limit >= 1
    requires budgets.credential.limit - 1 + most <= budgets.flood.limit
    ensures Run(System(map[], multiset{}), events, budgets, r.failures, most, 0)
    ensures CountAt(End(System(map[], multiset{}), events, budgets).windows, r.failures, 0) == budgets.credential.limit + most - 1
  {
    events := Climb(System(map[], multiset{}), r, budgets, most, 0);
  }
}
