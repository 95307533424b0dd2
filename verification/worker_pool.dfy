/**
 * Workers sharing one counter. A worker claims an index and awaits its run; the
 * only interleaving there is lies between awaits, so one step is one run
 * settling, followed at once by that worker's next claim.
 */
module WorkerPool {
  import opened Wrappers

  datatype Worker = Running(index: nat) | Done | Failed(index: nat)

  /** `claimed` records every index handed to `run`, in order. */
  datatype Pool<R> = Pool(next: nat, workers: seq<Worker>, results: seq<Option<R>>, claimed: seq<nat>)

  function Min(a: nat, b: nat): nat { if a <= b then a else b }

  function UpTo(n: nat): (s: seq<nat>)
    ensures |s| == n && forall i :: 0 <= i < n ==> s[i] == i
  {
    seq(n, i requires 0 <= i < n => i)
  }

  /** `index = next++`, and the loop test. */
  function Claim<R>(p: Pool<R>, w: nat, n: nat): Pool<R>
    requires w < |p.workers|
  {
    if p.next < n then p.(next := p.next + 1, workers := p.workers[w := Running(p.next)], claimed := p.claimed + [p.next])
    else p.(next := p.next + 1, workers := p.workers[w := Done])
  }

  /** Every worker is created in turn, and runs to its first await. */
  function Start<R>(n: nat, limit: nat): (p: Pool<R>)
    ensures |p.results| == n
  {
    var width := Min(limit, n);
    Pool(width, seq(width, w requires 0 <= w < width => Running(w)), seq(n, _ => None), UpTo(width))
  }

  /** The run of worker `w` settles: with an answer, or by rejecting, which ends the worker. */
  function Settle<T, R>(p: Pool<R>, w: nat, items: seq<T>, run: T -> Option<R>): Pool<R>
    requires w < |p.workers| && p.workers[w].Running? && p.workers[w].index < |items| == |p.results|
  {
    var i := p.workers[w].index;
    match run(items[i])
    case None => p.(workers := p.workers[w := Failed(i)])
    case Some(r) => Claim(p.(results := p.results[i := Some(r)]), w, |items|)
  }

  ghost predicate Inv<T(!new), R(!new)>(p: Pool<R>, items: seq<T>, limit: nat, run: T -> Option<R>)
  {
    var n := |items|;
    && |p.results| == n && |p.workers| == Min(limit, n) && p.next >= |p.workers|
    && p.claimed == UpTo(Min(p.next, n))
    && (forall w :: 0 <= w < |p.workers| ==> Placed(p, w, items, run))
    && (forall w, v :: 0 <= w < |p.workers| && 0 <= v < |p.workers| && w != v && !p.workers[w].Done? && !p.workers[v].Done? ==> p.workers[w].index != p.workers[v].index)
    && (forall i :: 0 <= i < n ==> Held(p, i, items, run))
  }

  /** A worker at work holds an index it has claimed and not answered. */
  predicate Placed<T, R(==)>(p: Pool<R>, w: nat, items: seq<T>, run: T -> Option<R>)
    requires w < |p.workers| && |p.results| == |items|
  {
    match p.workers[w]
    case Done => p.next > |items|
    case Running(i) => i < p.next && i < |items| && p.results[i].None?
    case Failed(i) => i < p.next && i < |items| && p.results[i].None? && run(items[i]).None?
  }

  /** An answer is the answer to its own item; a claimed index without one has its worker. */
  ghost predicate Held<T, R>(p: Pool<R>, i: nat, items: seq<T>, run: T -> Option<R>)
    requires i < |items| == |p.results|
  {
    && (p.results[i].Some? ==> i < p.next && p.results[i] == run(items[i]))
    && (i < p.next && p.results[i].None? ==> exists w :: 0 <= w < |p.workers| && !p.workers[w].Done? && p.workers[w].index == i)
  }

  // ---------------------------------------------------------------- every interleaving

  /** The schedules: at each step some running worker settles. */
  predicate Possible<T, R(==)>(p: Pool<R>, schedule: seq<nat>, items: seq<T>, run: T -> Option<R>)
    requires |p.results| == |items|
    decreases |schedule|
  {
    schedule == [] ||
    (var w := schedule[0];
     && w < |p.workers| && p.workers[w].Running? && p.workers[w].index < |items|
     && Possible(Settle(p, w, items, run), schedule[1..], items, run))
  }

  function After<T, R(==)>(p: Pool<R>, schedule: seq<nat>, items: seq<T>, run: T -> Option<R>): (q: Pool<R>)
    requires |p.results| == |items| && Possible(p, schedule, items, run)
    ensures |q.results| == |items|
    decreases |schedule|
  {
    if schedule == [] then p else After(Settle(p, schedule[0], items, run), schedule[1..], items, run)
  }

  predicate Stopped<R>(p: Pool<R>)
  {
    forall w :: 0 <= w < |p.workers| ==> !p.workers[w].Running?
  }

  /** What `Promise.all` and the return statement make of it: nothing when a worker rejected. */
  function Outcome<R>(p: Pool<R>): Option<seq<Option<R>>>
  {
    if exists w :: 0 <= w < |p.workers| && p.workers[w].Failed? then None else Some(p.results)
  }

  lemma StartInv<T(!new), R(!new)>(items: seq<T>, limit: nat, run: T -> Option<R>)
    ensures Inv(Start<R>(|items|, limit), items, limit, run)
  {
    var p := Start<R>(|items|, limit);
    forall i | 0 <= i < |items| ensures Held(p, i, items, run) {
      if i < p.next {
        assert p.workers[i].index == i;
      }
    }
  }

  lemma SettleInv<T(!new), R(!new)>(p: Pool<R>, w: nat, items: seq<T>, limit: nat, run: T -> Option<R>)
    requires Inv(p, items, limit, run)
    requires w < |p.workers| && p.workers[w].Running?
    ensures p.workers[w].index < |items| && Inv(Settle(p, w, items, run), items, limit, run)
  {
    assert Placed(p, w, items, run);
    var k := p.workers[w].index;
    var q := Settle(p, w, items, run);
    assert Held(p, k, items, run) && (p.next < |items| ==> Held(p, p.next, items, run));
    forall v | 0 <= v < |p.workers|
      ensures Placed(q, v, items, run)
      ensures v != w && !q.workers[v].Done? ==> q.workers[v].index < p.next && q.workers[v].index != k
    {
      assert Placed(p, v, items, run);
    }
    forall i | 0 <= i < |items| ensures Held(q, i, items, run) {
      assert Held(p, i, items, run);
      if i < p.next && p.results[i].None? && i != k {
        var v :| 0 <= v < |p.workers| && !p.workers[v].Done? && p.workers[v].index == i;
        assert v != w && q.workers[v] == p.workers[v];
      } else if i == k && run(items[k]).None? {
        assert q.workers[w].index == i;
      } else if i == p.next && q.next > p.next {
        assert run(items[k]).Some? && q.workers[w].index == i;
      }
    }
    assert p.next < |items| ==> UpTo(p.next) + [p.next] == UpTo(p.next + 1);
  }

  // ---------------------------------------------------------------- the measure

  function InFlight(workers: seq<Worker>): nat
  {
    if workers == [] then 0 else InFlight(workers[..|workers| - 1]) + if workers[|workers| - 1].Running? then 1 else 0
  }

  /** Items not settled: those never claimed, and those in flight. */
  function Unfinished<R>(p: Pool<R>, n: nat): nat
  {
    n - Min(p.next, n) + InFlight(p.workers)
  }

  lemma {:induction false} InFlightUpdate(workers: seq<Worker>, w: nat, to: Worker)
    requires w < |workers| && workers[w].Running?
    ensures InFlight(workers[w := to]) == InFlight(workers) - if to.Running? then 0 else 1
    ensures InFlight(workers) >= 1
  {
    var last := |workers| - 1;
    if w == last {
      assert workers[w := to][..last] == workers[..last];
    } else {
      assert workers[w := to][..last] == workers[..last][w := to];
      InFlightUpdate(workers[..last], w, to);
    }
  }

  lemma {:induction false} AllInFlight(workers: seq<Worker>)
    ensures InFlight(workers) <= |workers|
    ensures (forall w :: 0 <= w < |workers| ==> workers[w].Running?) ==> InFlight(workers) == |workers|
    ensures (forall w :: 0 <= w < |workers| ==> !workers[w].Running?) <==> InFlight(workers) == 0
  {
    if workers != [] {
      AllInFlight(workers[..|workers| - 1]);
      assert forall w :: 0 <= w < |workers| - 1 ==> workers[..|workers| - 1][w] == workers[w];
      assert InFlight(workers) == 0 ==> !workers[|workers| - 1].Running?;
    }
  }

  // ---------------------------------------------------------------- theorems

  /** Along every schedule: the invariant, and one item fewer for each step. */
  lemma {:induction false} Along<T(!new), R(!new)>(p: Pool<R>, schedule: seq<nat>, items: seq<T>, limit: nat, run: T -> Option<R>)
    requires Inv(p, items, limit, run) && Possible(p, schedule, items, run)
    ensures Inv(After(p, schedule, items, run), items, limit, run)
    ensures Unfinished(After(p, schedule, items, run), |items|) == Unfinished(p, |items|) - |schedule|
    decreases |schedule|
  {
    if schedule != [] {
      var w := schedule[0];
      SettleInv(p, w, items, limit, run);
      hide Inv;
      var q := Settle(p, w, items, run);
      InFlightUpdate(p.workers, w, q.workers[w]);
      Along(q, schedule[1..], items, limit, run);
    }
  }

  lemma StartUnfinished<R>(n: nat, limit: nat)
    ensures Unfinished(Start<R>(n, limit), n) == n
  {
    AllInFlight(Start<R>(n, limit).workers);
  }

  lemma {:induction false} FromStart<T(!new), R(!new)>(schedule: seq<nat>, items: seq<T>, limit: nat, run: T -> Option<R>)
    requires Possible(Start(|items|, limit), schedule, items, run)
    ensures var p := After(Start(|items|, limit), schedule, items, run);
      && Inv(p, items, limit, run)
      && Unfinished(p, |items|) == |items| - |schedule|
  {
    hide *;
    StartInv(items, limit, run);
    StartUnfinished<R>(|items|, limit);
    Along(Start(|items|, limit), schedule, items, limit, run);
  }

  /** In every state of every interleaving: distinct claims in order, and no more in flight than allowed. */
  lemma {:induction false} ClaimedOnce<T(!new), R(!new)>(schedule: seq<nat>, items: seq<T>, limit: nat, run: T -> Option<R>)
    requires Possible(Start(|items|, limit), schedule, items, run)
    ensures var p := After(Start(|items|, limit), schedule, items, run);
      && p.claimed == UpTo(Min(p.next, |items|))
      && InFlight(p.workers) <= Min(limit, |items|)
      && |schedule| <= |items|
  {
    hide *;
    FromStart(schedule, items, limit, run);
    InvBounds(After(Start(|items|, limit), schedule, items, run), items, limit, run);
  }

  lemma InvBounds<T(!new), R(!new)>(p: Pool<R>, items: seq<T>, limit: nat, run: T -> Option<R>)
    requires Inv(p, items, limit, run)
    ensures p.claimed == UpTo(Min(p.next, |items|))
    ensures InFlight(p.workers) <= Min(limit, |items|)
  {
    AllInFlight(p.workers);
  }

  /** A schedule that can go no further answers every item from its own run, or rejects; it rejects exactly when some item does. */
  lemma {:induction false} EveryInterleaving<T(!new), R(!new)>(schedule: seq<nat>, items: seq<T>, limit: nat, run: T -> Option<R>)
    requires limit >= 1 && Possible(Start(|items|, limit), schedule, items, run)
    requires Stopped(After(Start(|items|, limit), schedule, items, run))
    ensures var p := After(Start(|items|, limit), schedule, items, run);
      && (Outcome(p).None? <==> exists i :: 0 <= i < |items| && run(items[i]).None?)
      && (Outcome(p).Some? ==>
            && p.claimed == UpTo(|items|) && |schedule| == |items|
            && |Outcome(p).value| == |items|
            && forall i :: 0 <= i < |items| ==> Outcome(p).value[i] == run(items[i]))
  {
    hide *;
    FromStart(schedule, items, limit, run);
    AtRest(After(Start(|items|, limit), schedule, items, run), items, limit, run);
  }

  lemma AtRest<T(!new), R(!new)>(p: Pool<R>, items: seq<T>, limit: nat, run: T -> Option<R>)
    requires limit >= 1 && Inv(p, items, limit, run) && Stopped(p)
    ensures Outcome(p).None? <==> exists i :: 0 <= i < |items| && run(items[i]).None?
    ensures Outcome(p).Some? ==>
      && p.claimed == UpTo(|items|) && Unfinished(p, |items|) == 0 && |Outcome(p).value| == |items|
      && forall i :: 0 <= i < |items| ==> Outcome(p).value[i] == run(items[i])
  {
    AllInFlight(p.workers);
    if Outcome(p).None? {
      var w :| 0 <= w < |p.workers| && p.workers[w].Failed?;
      assert Placed(p, w, items, run);
    } else {
      if |items| > 0 {
        assert Placed(p, 0, items, run) && p.workers[0].Done?;
      }
      forall i | 0 <= i < |items| ensures p.results[i].Some? && p.results[i] == run(items[i]) {
        assert Held(p, i, items, run);
      }
    }
  }

  /** Until it stops, a run can go on: no state is stuck. */
  lemma {:induction false} Progress<T(!new), R(!new)>(p: Pool<R>, items: seq<T>, limit: nat, run: T -> Option<R>)
    requires Inv(p, items, limit, run) && !Stopped(p)
    ensures exists w :: Possible(p, [w], items, run)
  {
    var w :| 0 <= w < |p.workers| && p.workers[w].Running?;
    assert Placed(p, w, items, run);
    assert Possible(Settle(p, w, items, run), [w][1..], items, run);
    assert Possible(p, [w], items, run);
  }

  /** With no worker allowed there is nobody to claim, and nothing is answered. */
  lemma NobodyToClaim<T(!new), R(!new)>(items: seq<T>, run: T -> Option<R>)
    requires items != []
    ensures var p := Start<R>(|items|, 0);
      Stopped(p) && Outcome(p).Some? && Outcome(p).value[0].None?
  {
  }
}
