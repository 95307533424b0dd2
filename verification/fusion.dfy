/**
 * Ranked lists merged by summing, for each id, one fraction per appearance. Sums
 * are exact here.
 * A session id is its place in the collation order that `localeCompare` uses,
 * which is total on the ids an archive hands out.
 */
module Fusion {
  import opened Wrappers
  import opened Sorting

  datatype Candidate = Candidate(id: int, highlight: string)

  datatype Scored = Scored(candidate: Candidate, score: real)

  function Weight(index: nat): real { 1.0 / (60 + index + 1) as real }

  // ---------------------------------------------------------------- what a fusion is

  /** The sum of one list's reciprocal ranks for one id, every occurrence counted. */
  function ScoreIn(list: seq<Candidate>, id: int): real
  {
    if list == [] then 0.0
    else
      var n := |list| - 1;
      ScoreIn(list[..n], id) + if list[n].id == id then Weight(n) else 0.0
  }

  function Score(lists: seq<seq<Candidate>>, id: int): real
  {
    if lists == [] then 0.0
    else Score(lists[..|lists| - 1], id) + ScoreIn(lists[|lists| - 1], id)
  }

  function FirstIn(list: seq<Candidate>, id: int): (c: Option<Candidate>)
    ensures c.Some? ==> c.value in list && c.value.id == id
    ensures c.None? ==> forall k :: 0 <= k < |list| ==> list[k].id != id
  {
    if list == [] then None
    else
      var n := |list| - 1;
      var earlier := FirstIn(list[..n], id);
      if earlier.Some? then earlier else if list[n].id == id then Some(list[n]) else None
  }

  /** The candidate an id is first seen as, list by list. */
  function First(lists: seq<seq<Candidate>>, id: int): (c: Option<Candidate>)
    ensures c.Some? ==> c.value.id == id
  {
    if lists == [] then None
    else
      var earlier := First(lists[..|lists| - 1], id);
      if earlier.Some? then earlier else FirstIn(lists[|lists| - 1], id)
  }

  /** The comparator: the higher score first, then the lower id. */
  predicate Before(a: Scored, b: Scored)
  {
    a.score > b.score || (a.score == b.score && a.candidate.id < b.candidate.id)
  }

  predicate Ranked(out: seq<Scored>)
  {
    forall i, j :: 0 <= i < j < |out| ==> Before(out[i], out[j])
  }

  function Ids(out: seq<Scored>): set<int>
  {
    set s | s in out :: s.candidate.id
  }

  /** Every id of every list once, with its whole score, in strict order. */
  ghost predicate IsFusion(lists: seq<seq<Candidate>>, out: seq<Scored>)
  {
    && Ranked(out)
    && (forall id :: id in Ids(out) <==> First(lists, id).Some?)
    && (forall i :: 0 <= i < |out| ==> out[i] == Entry(lists, out[i].candidate.id))
  }

  function Entry(lists: seq<seq<Candidate>>, id: int): (s: Scored)
    ensures s.candidate.id == id
  {
    Scored(if First(lists, id).Some? then First(lists, id).value else Candidate(id, ""), Score(lists, id))
  }

  // ---------------------------------------------------------------- the accumulation

  ghost predicate Tallied(fused: map<int, Scored>, lists: seq<seq<Candidate>>)
  {
    && (forall id :: id in fused <==> First(lists, id).Some?)
    && (forall id :: id in fused ==> fused[id] == Entry(lists, id))
  }

  lemma {:induction false} FirstScores(list: seq<Candidate>, id: int)
    ensures FirstIn(list, id).None? ==> ScoreIn(list, id) == 0.0
  {
    if list != [] {
      FirstScores(list[..|list| - 1], id);
    }
  }

  lemma {:induction false} UnseenScoresNothing(lists: seq<seq<Candidate>>, id: int)
    ensures First(lists, id).None? ==> Score(lists, id) == 0.0
  {
    if lists != [] {
      UnseenScoresNothing(lists[..|lists| - 1], id);
      FirstScores(lists[|lists| - 1], id);
    }
  }

  /** One more candidate at the end of the last list. */
  lemma {:induction false} Extended(lists: seq<seq<Candidate>>, list: seq<Candidate>, n: nat, id: int)
    requires n < |list|
    ensures var was, now := lists + [list[..n]], lists + [list[..n + 1]];
      && First(now, id) == (if First(was, id).Some? then First(was, id) else if list[n].id == id then Some(list[n]) else None)
      && Score(now, id) == Score(was, id) + if list[n].id == id then Weight(n) else 0.0
  {
    var was, now := lists + [list[..n]], lists + [list[..n + 1]];
    assert was[..|was| - 1] == lists && now[..|now| - 1] == lists;
    assert list[..n + 1][..n] == list[..n];
  }

  lemma {:induction false} NewList(lists: seq<seq<Candidate>>, id: int)
    ensures First(lists + [[]], id) == First(lists, id)
    ensures Score(lists + [[]], id) == Score(lists, id)
  {
    assert (lists + [[]])[..|lists|] == lists;
  }

  lemma TalliedNewList(fused: map<int, Scored>, lists: seq<seq<Candidate>>)
    ensures Tallied(fused, lists + [[]]) <==> Tallied(fused, lists)
  {
    forall id ensures First(lists + [[]], id) == First(lists, id) && Score(lists + [[]], id) == Score(lists, id) {
      NewList(lists, id);
    }
  }

  lemma TalliedOne(fused: map<int, Scored>, lists: seq<seq<Candidate>>, list: seq<Candidate>, n: nat)
    requires n < |list|
    requires Tallied(fused, lists + [list[..n]])
    ensures var c := list[n];
      var next := if c.id in fused then fused[c.id].(score := fused[c.id].score + Weight(n)) else Scored(c, Weight(n));
      Tallied(fused[c.id := next], lists + [list[..n + 1]])
  {
    hide First, Score;
    var was, now, c := lists + [list[..n]], lists + [list[..n + 1]], list[n];
    var next := if c.id in fused then fused[c.id].(score := fused[c.id].score + Weight(n)) else Scored(c, Weight(n));
    forall id
      ensures id in fused[c.id := next] <==> First(now, id).Some?
      ensures id in fused[c.id := next] ==> fused[c.id := next][id] == Entry(now, id)
    {
      Extended(lists, list, n, id);
      UnseenScoresNothing(was, id);
    }
  }

  /** The comparator as `sort` uses it. */
  function NotAfter(): (Scored, Scored) -> bool
  {
    (a: Scored, b: Scored) => Before(a, b) || (a.score == b.score && a.candidate.id == b.candidate.id)
  }

  method Fuse(lists: seq<seq<Candidate>>) returns (out: seq<Scored>)
    ensures IsFusion(lists, out)
  {
    var fused: map<int, Scored> := map[];
    var order: seq<int> := [];
    for l := 0 to |lists|
      invariant Tallied(fused, lists[..l])
      invariant Lists(order, fused)
    {
      var list := lists[l];
      TalliedNewList(fused, lists[..l]);
      assert list[..0] == [];
      for index := 0 to |list|
        invariant Tallied(fused, lists[..l] + [list[..index]])
        invariant Lists(order, fused)
      {
        var candidate := list[index];
        TalliedOne(fused, lists[..l], list, index);
        if candidate.id in fused {
          var current := fused[candidate.id];
          fused := fused[candidate.id := current.(score := current.score + Weight(index))];
        } else {
          fused := fused[candidate.id := Scored(candidate, Weight(index))];
          order := order + [candidate.id];
        }
      }
      assert lists[..l + 1] == lists[..l] + [list];
      assert list[..|list|] == list;
    }
    assert lists[..|lists|] == lists;
    out := Rank(order, fused, lists);
    forall id ensures id in Ids(out) <==> First(lists, id).Some? {
      if id in fused {
        assert fused[id] in out;
      }
    }
  }

  /** `order` enumerates the map, first insertion first. */
  ghost predicate Lists(order: seq<int>, fused: map<int, Scored>)
  {
    && (forall id :: id in fused <==> id in order)
    && (forall i, j :: 0 <= i < j < |order| ==> order[i] != order[j])
  }

  /** The map's values in the comparator's order. */
  method Rank(order: seq<int>, fused: map<int, Scored>, ghost lists: seq<seq<Candidate>>) returns (out: seq<Scored>)
    requires Lists(order, fused) && Tallied(fused, lists)
    ensures Ranked(out)
    ensures forall s :: s in out ==> s.candidate.id in fused && s == Entry(lists, s.candidate.id)
    ensures forall id :: id in fused ==> fused[id] in out
  {
    var values := ValuesOf(order, fused);
    out := Sort(values, NotAfter());
    Comparator();
    SortSorted(values, NotAfter());
    hide *;
    OneEach(order, fused, lists, values);
    StrictlyRanked(values, out);
    SameElements(out, values);
  }

  function ValuesOf(order: seq<int>, fused: map<int, Scored>): (values: seq<Scored>)
    requires Lists(order, fused)
    ensures |values| == |order|
    ensures forall k :: 0 <= k < |order| ==> order[k] in fused && values[k] == fused[order[k]]
  {
    assert forall k :: 0 <= k < |order| ==> order[k] in order;
    seq(|order|, k requires 0 <= k < |order| => fused[order[k]])
  }

  lemma Comparator()
    ensures TotalPreorder(NotAfter())
  {
  }

  lemma OneEach(order: seq<int>, fused: map<int, Scored>, lists: seq<seq<Candidate>>, values: seq<Scored>)
    requires Lists(order, fused) && Tallied(fused, lists) && values == ValuesOf(order, fused)
    ensures forall i, j :: 0 <= i < j < |values| ==> values[i].candidate.id != values[j].candidate.id
    ensures forall s :: s in values ==> s.candidate.id in fused && s == Entry(lists, s.candidate.id)
    ensures forall id :: id in fused ==> fused[id] in values
  {
    hide First, Score, ValuesOf;
    assert forall k :: 0 <= k < |order| ==> fused[order[k]] == Entry(lists, order[k]) && values[k].candidate.id == order[k];
    forall id | id in fused ensures fused[id] in values {
      var k :| 0 <= k < |order| && order[k] == id;
      assert values[k] == fused[id];
    }
  }

  /** With one entry an id, the sort leaves no ties. */
  lemma StrictlyRanked(values: seq<Scored>, out: seq<Scored>)
    requires forall i, j :: 0 <= i < j < |values| ==> values[i].candidate.id != values[j].candidate.id
    requires multiset(out) == multiset(values) && Sorted(out, NotAfter())
    ensures Ranked(out)
  {
    forall i, j | 0 <= i < j < |out| ensures Before(out[i], out[j]) {
      assert NotAfter()(out[i], out[j]);
      if out[i].candidate.id == out[j].candidate.id {
        SameElements(out, values);
        assert out[i] in values && out[j] in values;
        assert out[i] == out[j];
        Twice(out, i, j);
        Once(values, out[i]);
      }
    }
  }

  lemma {:induction false} Once(values: seq<Scored>, s: Scored)
    requires forall i, j :: 0 <= i < j < |values| ==> values[i].candidate.id != values[j].candidate.id
    ensures multiset(values)[s] <= 1
  {
    if values != [] {
      var n := |values| - 1;
      assert values == values[..n] + [values[n]];
      Once(values[..n], s);
    }
  }

  // ---------------------------------------------------------------- it is the only one

  /** What a result page shows of an entry besides its text. */
  function Marks(out: seq<Scored>): (marks: seq<(int, real)>)
    ensures |marks| == |out|
    ensures forall i :: 0 <= i < |out| ==> marks[i] == (out[i].candidate.id, out[i].score)
  {
    seq(|out|, i requires 0 <= i < |out| => (out[i].candidate.id, out[i].score))
  }

  lemma {:induction false} RankedUnique(a: seq<Scored>, b: seq<Scored>)
    requires Ranked(a) && Ranked(b)
    requires forall m :: m in Marks(a) <==> m in Marks(b)
    ensures Marks(a) == Marks(b)
    decreases |a|
  {
    NoneWithout(a, b);
    NoneWithout(b, a);
    if a != [] {
      Head(a, b);
      Head(b, a);
      Tails(a, b);
      RankedUnique(a[1..], b[1..]);
      TailMarks(a);
      TailMarks(b);
    }
  }

  lemma Tails(a: seq<Scored>, b: seq<Scored>)
    requires Ranked(a) && Ranked(b) && a != [] && b != []
    requires forall m :: m in Marks(a) <==> m in Marks(b)
    requires Marks(a)[0] == Marks(b)[0]
    ensures Ranked(a[1..]) && Ranked(b[1..])
    ensures forall m :: m in Marks(a[1..]) <==> m in Marks(b[1..])
  {
    hide Marks;
    TailMarks(a);
    TailMarks(b);
  }

  lemma NoneWithout(a: seq<Scored>, b: seq<Scored>)
    requires forall m :: m in Marks(a) ==> m in Marks(b)
    ensures b == [] ==> a == []
  {
    if a != [] {
      assert Marks(a)[0] in Marks(a);
    }
  }

  lemma TailMarks(a: seq<Scored>)
    requires Ranked(a) && a != []
    ensures Marks(a) == [Marks(a)[0]] + Marks(a[1..])
    ensures forall m :: m in Marks(a[1..]) <==> m in Marks(a) && m != Marks(a)[0]
  {
    forall i | 0 < i < |a| ensures Marks(a)[i] != Marks(a)[0] {
      assert Before(a[0], a[i]);
    }
    assert Marks(a) == [Marks(a)[0]] + Marks(a[1..]);
    forall m | m in Marks(a[1..]) ensures m != Marks(a)[0] {
      var i :| 0 <= i < |a| - 1 && Marks(a[1..])[i] == m;
      assert Marks(a)[i + 1] == m;
    }
  }

  /** The first of one is not behind the first of the other. */
  lemma Head(a: seq<Scored>, b: seq<Scored>)
    requires Ranked(a) && Ranked(b) && a != [] && b != []
    requires forall m :: m in Marks(b) ==> m in Marks(a)
    ensures Marks(a)[0] == Marks(b)[0] || Before(a[0], b[0])
  {
    assert Marks(b)[0] in Marks(a);
    var i :| 0 <= i < |a| && Marks(a)[i] == Marks(b)[0];
    assert i > 0 ==> Before(a[0], a[i]);
  }

  /** Equal scores and equal ids seen make equal pages. */
  lemma {:induction false} SameScoresSameMarks(xs: seq<seq<Candidate>>, ys: seq<seq<Candidate>>, a: seq<Scored>, b: seq<Scored>)
    requires IsFusion(xs, a) && IsFusion(ys, b)
    requires forall id :: First(xs, id).Some? <==> First(ys, id).Some?
    requires forall id :: Score(xs, id) == Score(ys, id)
    ensures Marks(a) == Marks(b)
  {
    MarksWithin(xs, ys, a, b);
    MarksWithin(ys, xs, b, a);
    RankedUnique(a, b);
  }

  lemma {:induction false} MarksWithin(xs: seq<seq<Candidate>>, ys: seq<seq<Candidate>>, a: seq<Scored>, b: seq<Scored>)
    requires IsFusion(xs, a) && IsFusion(ys, b)
    requires forall id :: First(xs, id).Some? <==> First(ys, id).Some?
    requires forall id :: Score(xs, id) == Score(ys, id)
    ensures forall m :: m in Marks(a) ==> m in Marks(b)
  {
    hide First, Score;
    forall m | m in Marks(a) ensures m in Marks(b) {
      var i :| 0 <= i < |a| && Marks(a)[i] == m;
      var id := a[i].candidate.id;
      assert a[i] in a && id in Ids(a);
      assert id in Ids(b);
      var s :| s in b && s.candidate.id == id;
      var j :| 0 <= j < |b| && b[j] == s;
      assert Marks(b)[j] == m;
    }
  }

  /** What is required of a fusion leaves no choice. */
  lemma FusionUnique(lists: seq<seq<Candidate>>, a: seq<Scored>, b: seq<Scored>)
    requires IsFusion(lists, a) && IsFusion(lists, b)
    ensures a == b
  {
    hide First, Score;
    SameScoresSameMarks(lists, lists, a, b);
    forall i | 0 <= i < |a| ensures a[i] == b[i] {
      assert Marks(a)[i] == Marks(b)[i];
    }
  }

  // ---------------------------------------------------------------- list order

  lemma {:induction false} Drop(lists: seq<seq<Candidate>>, k: nat, id: int)
    requires k < |lists|
    ensures var rest := lists[..k] + lists[k + 1..];
      && Score(lists, id) == Score(rest, id) + ScoreIn(lists[k], id)
      && (First(lists, id).Some? <==> First(rest, id).Some? || FirstIn(lists[k], id).Some?)
  {
    var n := |lists| - 1;
    var rest := lists[..k] + lists[k + 1..];
    if k == n {
      assert rest == lists[..n];
    } else {
      Drop(lists[..n], k, id);
      assert rest[..|rest| - 1] == lists[..n][..k] + lists[..n][k + 1..];
      assert rest[|rest| - 1] == lists[n];
    }
  }

  lemma Remainder<T>(xs: seq<T>, ys: seq<T>, k: nat)
    requires xs != [] && k < |ys| && ys[k] == xs[|xs| - 1] && multiset(xs) == multiset(ys)
    ensures multiset(xs[..|xs| - 1]) == multiset(ys[..k] + ys[k + 1..])
  {
    var n := |xs| - 1;
    assert ys == (ys[..k] + [ys[k]]) + ys[k + 1..];
    assert xs == xs[..n] + [xs[n]];
    var whole := multiset(xs[..n]) + multiset{xs[n]};
    assert multiset(xs) == whole;
    assert multiset(ys) == multiset(ys[..k]) + multiset{xs[n]} + multiset(ys[k + 1..]);
    assert whole - multiset{xs[n]} == multiset(xs[..n]);
  }

  lemma {:induction false} ListOrderScores(xs: seq<seq<Candidate>>, ys: seq<seq<Candidate>>, id: int)
    requires multiset(xs) == multiset(ys)
    ensures Score(xs, id) == Score(ys, id)
    ensures First(xs, id).Some? <==> First(ys, id).Some?
  {
    if xs == [] {
      assert |multiset(ys)| == 0;
    } else {
      var n := |xs| - 1;
      assert xs[n] in multiset(ys);
      var k :| 0 <= k < |ys| && ys[k] == xs[n];
      Drop(ys, k, id);
      Remainder(xs, ys, k);
      ListOrderScores(xs[..n], ys[..k] + ys[k + 1..], id);
    }
  }

  /** The ids and scores of the result, in order, do not depend on the order of the lists. */
  lemma ListOrderFree(xs: seq<seq<Candidate>>, ys: seq<seq<Candidate>>, a: seq<Scored>, b: seq<Scored>)
    requires multiset(xs) == multiset(ys)
    requires IsFusion(xs, a) && IsFusion(ys, b)
    ensures Marks(a) == Marks(b)
  {
    forall id ensures Score(xs, id) == Score(ys, id) && (First(xs, id).Some? <==> First(ys, id).Some?) {
      ListOrderScores(xs, ys, id);
    }
    SameScoresSameMarks(xs, ys, a, b);
  }

  // ---------------------------------------------------------------- dominance

  function Count(list: seq<Candidate>, id: int): nat
  {
    if list == [] then 0
    else Count(list[..|list| - 1], id) + if list[|list| - 1].id == id then 1 else 0
  }

  /** Each appearance of `b` has one more appearance of `a` above it than of `b`; without repeats, `a` is above `b`. */
  predicate Ahead(list: seq<Candidate>, a: int, b: int)
  {
    forall j :: 0 <= j < |list| && list[j].id == b ==> Count(list[..j], a) > Count(list[..j], b)
  }

  lemma WeightFalls(n: nat)
    ensures 0.0 < Weight(n + 1) < Weight(n)
  {
    var x, y := (61 + n) as real, (62 + n) as real;
    assert (60 + n + 1) as real == x && (60 + (n + 1) + 1) as real == y && 0.0 < x < y;
    assert (1.0 / x) * x == 1.0 && (1.0 / y) * y == 1.0;
    if 1.0 / y >= 1.0 / x {
      assert (1.0 / y) * y > (1.0 / y) * x >= (1.0 / x) * x;
    }
  }

  /** The product, by name, so that a proof can be about it without multiplying. */
  function Times(x: real, y: real): real { x * y }

  lemma TimesSign(x: real, y: real)
    requires x >= 0.0 && y >= 0.0
    ensures Times(x, y) >= 0.0
  {
  }

  lemma TimesPositive(x: real, y: real)
    requires x > 0.0 && y > 0.0
    ensures Times(x, y) > 0.0
  {
  }

  lemma TimesDifference(x: real, v: real, w: real)
    ensures Times(x, v - w) == Times(x, v) - Times(x, w)
  {
  }

  lemma TimesNext(x: real, w: real)
    ensures Times(x + 1.0, w) == Times(x, w) + w
  {
  }

  /** A lead in score of at least `d` weights, and more once `strict`. */
  predicate Leads(lead: real, d: int, w: real, strict: bool)
  {
    lead >= Times(d as real, w) && (strict ==> lead > Times(d as real, w))
  }

  /** One step of the sum: the lead survives a lighter weight, and gains or loses one of it. */
  lemma LeadStep(lead: real, d: int, v: real, w: real, strict: bool)
    requires v >= w >= 0.0 && d >= 0 && Leads(lead, d, v, strict)
    ensures Leads(lead, d, w, strict)
    ensures Leads(lead + w, d + 1, w, strict)
    ensures Leads(lead - w, d - 1, w, strict || (d > 0 && v > w))
  {
    hide Times;
    var x := d as real;
    TimesDifference(x, v, w);
    TimesSign(x, v - w);
    TimesNext(x, w);
    TimesNext(x - 1.0, w);
    assert (d + 1) as real == x + 1.0 && (d - 1) as real == x - 1.0 && x - 1.0 + 1.0 == x;
    if d > 0 && v > w {
      TimesPositive(x, v - w);
    }
  }

  lemma {:induction false} AheadPrefix(list: seq<Candidate>, a: int, b: int)
    requires Ahead(list, a, b) && list != []
    ensures Ahead(list[..|list| - 1], a, b)
  {
    var init := list[..|list| - 1];
    forall j | 0 <= j < |init| && init[j].id == b ensures Count(init[..j], a) > Count(init[..j], b) {
      assert init[..j] == list[..j];
    }
  }

  /** Summation by parts: the lead in score is at least the lead in count at the current weight. */
  lemma {:induction false} Lead(list: seq<Candidate>, a: int, b: int)
    requires a != b && Ahead(list, a, b) && list != []
    ensures Count(list, a) >= Count(list, b)
    ensures Leads(ScoreIn(list, a) - ScoreIn(list, b), Count(list, a) - Count(list, b), Weight(|list| - 1), Count(list, b) > 0)
  {
    hide Weight;
    var n := |list| - 1;
    WeightFalls(n);
    if n > 0 {
      hide Leads;
      AheadPrefix(list, a, b);
      Lead(list[..n], a, b);
      WeightFalls(n - 1);
      LeadStep(ScoreIn(list[..n], a) - ScoreIn(list[..n], b), Count(list[..n], a) - Count(list[..n], b),
               Weight(n - 1), Weight(n), Count(list[..n], b) > 0);
    } else {
      assert list[..n] == [];
      assert list[n].id != b;
    }
  }

  lemma {:induction false} LeadIn(list: seq<Candidate>, a: int, b: int)
    requires a != b && Ahead(list, a, b)
    ensures ScoreIn(list, a) >= ScoreIn(list, b)
    ensures FirstIn(list, b).Some? ==> ScoreIn(list, a) > ScoreIn(list, b)
  {
    hide Weight, Ahead;
    if list != [] {
      Lead(list, a, b);
      WeightFalls(|list| - 1);
      Counted(list, b);
      hide ScoreIn, Count, FirstIn;
      LeadStep(ScoreIn(list, a) - ScoreIn(list, b), Count(list, a) - Count(list, b), Weight(|list| - 1), 0.0, Count(list, b) > 0);
    }
  }

  lemma {:induction false} Counted(list: seq<Candidate>, id: int)
    ensures FirstIn(list, id).Some? <==> Count(list, id) > 0
  {
    if list != [] {
      Counted(list[..|list| - 1], id);
    }
  }

  lemma {:induction false} LeadAll(lists: seq<seq<Candidate>>, a: int, b: int)
    requires a != b && forall l :: l in lists ==> Ahead(l, a, b)
    ensures Score(lists, a) >= Score(lists, b)
    ensures First(lists, b).Some? ==> Score(lists, a) > Score(lists, b)
  {
    if lists != [] {
      LeadAll(lists[..|lists| - 1], a, b);
      LeadIn(lists[|lists| - 1], a, b);
    }
  }

  /** An id ahead of another in every list comes first in the fusion. */
  lemma Dominance(lists: seq<seq<Candidate>>, out: seq<Scored>, a: int, b: int, j: nat)
    requires IsFusion(lists, out)
    requires a != b && forall l :: l in lists ==> Ahead(l, a, b)
    requires j < |out| && out[j].candidate.id == b
    ensures exists i :: 0 <= i < j && out[i].candidate.id == a
  {
    assert out[j] in out && b in Ids(out);
    LeadAll(lists, a, b);
    UnseenScoresNothing(lists, a);
    NonNegative(lists, b);
    assert a in Ids(out);
    var s :| s in out && s.candidate.id == a;
    var i :| 0 <= i < |out| && out[i] == s;
  }

  lemma {:induction false} NonNegative(lists: seq<seq<Candidate>>, id: int)
    ensures Score(lists, id) >= 0.0
  {
    if lists != [] {
      NonNegative(lists[..|lists| - 1], id);
      NonNegativeIn(lists[|lists| - 1], id);
    }
  }

  lemma {:induction false} NonNegativeIn(list: seq<Candidate>, id: int)
    ensures ScoreIn(list, id) >= 0.0
  {
    if list != [] {
      NonNegativeIn(list[..|list| - 1], id);
    }
  }

  predicate Distinct(list: seq<Candidate>)
  {
    forall i, j :: 0 <= i < j < |list| ==> list[i].id != list[j].id
  }

  /** `a` appears higher up wherever `b` appears. */
  predicate Above(list: seq<Candidate>, a: int, b: int)
  {
    forall j :: 0 <= j < |list| && list[j].id == b ==> exists i :: 0 <= i < j && list[i].id == a
  }

  /** Without repeats, which is how a backend ranks, being ahead is being above. */
  lemma AheadPlain(list: seq<Candidate>, a: int, b: int)
    requires Distinct(list)
    ensures Ahead(list, a, b) <==> Above(list, a, b)
  {
    forall j | 0 <= j < |list| && list[j].id == b
      ensures Count(list[..j], a) > Count(list[..j], b) <==> exists i :: 0 <= i < j && list[i].id == a
    {
      Counted(list[..j], a);
      Counted(list[..j], b);
      assert forall k :: 0 <= k < j ==> list[..j][k] == list[k];
    }
  }

  lemma DominancePlain(lists: seq<seq<Candidate>>, out: seq<Scored>, a: int, b: int, j: nat)
    requires IsFusion(lists, out)
    requires a != b && forall l :: l in lists ==> Distinct(l) && Above(l, a, b)
    requires j < |out| && out[j].candidate.id == b
    ensures exists i :: 0 <= i < j && out[i].candidate.id == a
  {
    forall l | l in lists ensures Ahead(l, a, b) {
      AheadPlain(l, a, b);
    }
    Dominance(lists, out, a, b, j);
  }

  /** With repeats, being above is not enough: two lower places outweigh one higher. */
  lemma RepeatsOutweigh()
    ensures var list := [Candidate(1, ""), Candidate(2, ""), Candidate(2, "")];
      && Above(list, 1, 2) && !Ahead(list, 1, 2)
      && Score([list], 2) > Score([list], 1)
  {
    var list := [Candidate(1, ""), Candidate(2, ""), Candidate(2, "")];
    var one, two := [Candidate(1, "")], [Candidate(1, ""), Candidate(2, "")];
    assert list[0].id == 1;
    assert one[..0] == [] && two[..1] == one == list[..1] && list[..2] == two;
    assert Count(one, 1) == 1 && Count(one, 2) == 0;
    assert Count(two, 1) == Count(one, 1) && Count(two, 2) == Count(one, 2) + 1;
    assert list[1].id == 2 && Count(list[..2], 1) == Count(list[..2], 2);
    assert ScoreIn(one, 1) == Weight(0) && ScoreIn(one, 2) == 0.0;
    assert ScoreIn(two, 1) == Weight(0) && ScoreIn(two, 2) == Weight(1);
    assert ScoreIn(list, 1) == Weight(0) && ScoreIn(list, 2) == Weight(1) + Weight(2);
    assert Score([list], 1) == Weight(0) && Score([list], 2) == Weight(1) + Weight(2) by {
      assert [list][..0] == [];
    }
  }
}
