/** A stable sort, as `Array.prototype.sort` is, over any total preorder. */
module Sorting {
  ghost predicate TotalPreorder<T(!new)>(le: (T, T) -> bool)
  {
    && (forall a, b :: le(a, b) || le(b, a))
    && (forall a, b, c :: le(a, b) && le(b, c) ==> le(a, c))
  }

  predicate Sorted<T>(xs: seq<T>, le: (T, T) -> bool)
  {
    forall i, j :: 0 <= i < j < |xs| ==> le(xs[i], xs[j])
  }

  /** `x`, which came before everything in `sorted`, goes in front of its equals. */
  function Insert<T>(x: T, sorted: seq<T>, le: (T, T) -> bool): (r: seq<T>)
    ensures multiset(r) == multiset{x} + multiset(sorted)
  {
    if sorted == [] then [x]
    else if le(x, sorted[0]) then [x] + sorted
    else
      assert sorted == [sorted[0]] + sorted[1..];
      [sorted[0]] + Insert(x, sorted[1..], le)
  }

  function Sort<T>(xs: seq<T>, le: (T, T) -> bool): (r: seq<T>)
    ensures multiset(r) == multiset(xs)
  {
    if xs == [] then []
    else
      assert xs == [xs[0]] + xs[1..];
      Insert(xs[0], Sort(xs[1..], le), le)
  }

  lemma SameElements<T>(xs: seq<T>, ys: seq<T>)
    requires multiset(xs) == multiset(ys)
    ensures |xs| == |ys| && forall x :: x in xs <==> x in ys
  {
    assert |multiset(xs)| == |xs| && |multiset(ys)| == |ys|;
    assert forall x :: x in xs <==> x in multiset(xs);
    assert forall x :: x in ys <==> x in multiset(ys);
  }

  lemma Twice<T>(xs: seq<T>, i: nat, j: nat)
    requires i < j < |xs| && xs[i] == xs[j]
    ensures multiset(xs)[xs[i]] >= 2
  {
    assert xs == xs[..i] + [xs[i]] + xs[i + 1..j] + [xs[j]] + xs[j + 1..];
  }

  lemma {:induction false} InsertSorted<T(!new)>(x: T, sorted: seq<T>, le: (T, T) -> bool)
    requires TotalPreorder(le) && Sorted(sorted, le)
    ensures Sorted(Insert(x, sorted, le), le)
  {
    if sorted != [] && !le(x, sorted[0]) {
      InsertSorted(x, sorted[1..], le);
      var rest := Insert(x, sorted[1..], le);
      SameElements(rest, [x] + sorted[1..]);
      assert le(sorted[0], x);
      forall y | y in rest ensures le(sorted[0], y) {
        assert y in [x] + sorted[1..];
      }
    }
  }

  lemma {:induction false} SortSorted<T(!new)>(xs: seq<T>, le: (T, T) -> bool)
    requires TotalPreorder(le)
    ensures Sorted(Sort(xs, le), le)
  {
    if xs != [] {
      SortSorted(xs[1..], le);
      InsertSorted(xs[0], Sort(xs[1..], le), le);
    }
  }

  /** What is sorted stays as it is. */
  lemma {:induction false} SortFixed<T>(xs: seq<T>, le: (T, T) -> bool)
    requires Sorted(xs, le)
    ensures Sort(xs, le) == xs
  {
    if xs != [] {
      SortFixed(xs[1..], le);
      assert |xs| > 1 ==> le(xs[0], xs[1]);
    }
  }

  lemma SameHead<T(!new)>(xs: seq<T>, ys: seq<T>, le: (T, T) -> bool)
    requires xs != [] && ys != [] && Sorted(xs, le) && Sorted(ys, le) && xs[0] in ys && ys[0] in xs
    requires forall a, b :: a in xs && b in xs && le(a, b) && le(b, a) ==> a == b
    ensures xs[0] == ys[0]
  {
    var i :| 0 <= i < |ys| && ys[i] == xs[0];
    var j :| 0 <= j < |xs| && xs[j] == ys[0];
    assert i > 0 ==> le(ys[0], ys[i]);
    assert j > 0 ==> le(xs[0], xs[j]);
  }

  lemma SameTail<T(!new)>(xs: seq<T>, ys: seq<T>)
    requires xs != [] && ys != [] && xs[0] == ys[0] && multiset(xs) == multiset(ys)
    ensures multiset(xs[1..]) == multiset(ys[1..])
  {
    assert xs == [xs[0]] + xs[1..] && ys == [ys[0]] + ys[1..];
    assert multiset(xs[1..]) == multiset(xs) - multiset{xs[0]};
    assert multiset(ys[1..]) == multiset(ys) - multiset{xs[0]};
  }

  /** Two sorted arrangements of the same elements are one, when no two distinct elements tie. */
  lemma {:induction false} SortedUnique<T(!new)>(xs: seq<T>, ys: seq<T>, le: (T, T) -> bool)
    requires Sorted(xs, le) && Sorted(ys, le) && multiset(xs) == multiset(ys)
    requires forall a, b :: a in xs && b in xs && le(a, b) && le(b, a) ==> a == b
    ensures xs == ys
  {
    SameElements(xs, ys);
    if xs != [] {
      assert xs[0] in xs && ys[0] in ys;
      SameHead(xs, ys, le);
      SameTail(xs, ys);
      SortedUnique(xs[1..], ys[1..], le);
      assert xs == [xs[0]] + xs[1..] && ys == [ys[0]] + ys[1..];
    }
  }

  // ---------------------------------------------------------------- filtering

  function Filter<T(!new)>(xs: seq<T>, p: T -> bool): (r: seq<T>)
    ensures forall x :: x in r <==> x in xs && p(x)
  {
    if xs == [] then []
    else
      assert xs == [xs[0]] + xs[1..];
      (if p(xs[0]) then [xs[0]] else []) + Filter(xs[1..], p)
  }

  lemma {:induction false} FilterSorted<T(!new)>(xs: seq<T>, p: T -> bool, le: (T, T) -> bool)
    requires Sorted(xs, le)
    ensures Sorted(Filter(xs, p), le)
  {
    if xs != [] {
      FilterSorted(xs[1..], p, le);
      assert forall x :: x in xs[1..] ==> le(xs[0], x);
    }
  }

  lemma {:induction false} FilterConcat<T(!new)>(xs: seq<T>, ys: seq<T>, p: T -> bool)
    ensures Filter(xs + ys, p) == Filter(xs, p) + Filter(ys, p)
  {
    if xs == [] {
      assert xs + ys == ys;
    } else {
      assert (xs + ys)[1..] == xs[1..] + ys;
      FilterConcat(xs[1..], ys, p);
    }
  }

  lemma {:induction false} FilterAll<T(!new)>(xs: seq<T>, p: T -> bool)
    ensures (forall x :: x in xs ==> p(x)) ==> Filter(xs, p) == xs
    ensures (forall x :: x in xs ==> !p(x)) ==> Filter(xs, p) == []
  {
    if xs != [] {
      FilterAll(xs[1..], p);
    }
  }

  lemma {:induction false} FilterCons<T(!new)>(x: T, xs: seq<T>, p: T -> bool)
    ensures Filter([x] + xs, p) == if p(x) then [x] + Filter(xs, p) else Filter(xs, p)
  {
    assert ([x] + xs)[1..] == xs;
  }

  lemma {:induction false} InsertCons<T(!new)>(x: T, y: T, ys: seq<T>, le: (T, T) -> bool)
    ensures Insert(x, [y] + ys, le) == if le(x, y) then [x] + ([y] + ys) else [y] + Insert(x, ys, le)
  {
    assert ([y] + ys)[1..] == ys;
  }

  lemma {:induction false} InsertFirst<T(!new)>(x: T, ys: seq<T>, le: (T, T) -> bool)
    requires forall y :: y in ys ==> le(x, y)
    ensures Insert(x, ys, le) == [x] + ys
  {
  }

  lemma {:induction false} FilterInsertFirst<T(!new)>(x: T, sorted: seq<T>, p: T -> bool, le: (T, T) -> bool)
    requires forall y :: y in sorted ==> le(x, y)
    ensures Filter(Insert(x, sorted, le), p) == if p(x) then Insert(x, Filter(sorted, p), le) else Filter(sorted, p)
  {
    hide *;
    FilterCons(x, sorted, p);
    InsertFirst(x, sorted, le);
    InsertFirst(x, Filter(sorted, p), le);
  }

  lemma {:induction false} FilterInsertLater<T(!new)>(x: T, y: T, rest: seq<T>, p: T -> bool, le: (T, T) -> bool)
    requires !le(x, y)
    requires Filter(Insert(x, rest, le), p) == if p(x) then Insert(x, Filter(rest, p), le) else Filter(rest, p)
    ensures Filter(Insert(x, [y] + rest, le), p) == if p(x) then Insert(x, Filter([y] + rest, p), le) else Filter([y] + rest, p)
  {
    hide *;
    InsertCons(x, y, rest, le);
    FilterCons(y, rest, p);
    FilterCons(y, Insert(x, rest, le), p);
    InsertCons(x, y, Filter(rest, p), le);
  }

  lemma {:induction false} FilterInsert<T(!new)>(x: T, sorted: seq<T>, p: T -> bool, le: (T, T) -> bool)
    requires TotalPreorder(le) && Sorted(sorted, le)
    ensures Filter(Insert(x, sorted, le), p) == if p(x) then Insert(x, Filter(sorted, p), le) else Filter(sorted, p)
    decreases |sorted|
  {
    hide TotalPreorder, Insert, Filter;
    if sorted == [] {
      FilterInsertFirst(x, sorted, p, le);
    } else if le(x, sorted[0]) {
      AllAfter(x, sorted, le);
      FilterInsertFirst(x, sorted, p, le);
    } else {
      FilterInsert(x, sorted[1..], p, le);
      FilterInsertLater(x, sorted[0], sorted[1..], p, le);
      assert sorted == [sorted[0]] + sorted[1..];
    }
  }

  lemma AllAfter<T(!new)>(x: T, sorted: seq<T>, le: (T, T) -> bool)
    requires TotalPreorder(le) && Sorted(sorted, le) && sorted != [] && le(x, sorted[0])
    ensures forall y :: y in sorted ==> le(x, y)
  {
    forall y | y in sorted ensures le(x, y) {
      var i :| 0 <= i < |sorted| && sorted[i] == y;
      assert i > 0 ==> le(sorted[0], sorted[i]);
    }
  }

  /** A stable sort of what is kept is what is kept of the sort. */
  lemma {:induction false} FilterSort<T(!new)>(xs: seq<T>, p: T -> bool, le: (T, T) -> bool)
    requires TotalPreorder(le)
    ensures Filter(Sort(xs, le), p) == Sort(Filter(xs, p), le)
  {
    hide TotalPreorder, Insert, Filter, Sort;
    if xs == [] {
      NothingSorted(p, le);
    } else {
      var x, rest := xs[0], xs[1..];
      assert xs == [x] + rest;
      FilterSort(rest, p, le);
      SortCons(x, rest, le);
      FilterCons(x, rest, p);
      SortSorted(rest, le);
      FilterInsert(x, Sort(rest, le), p, le);
      SortCons(x, Filter(rest, p), le);
    }
  }

  lemma NothingSorted<T(!new)>(p: T -> bool, le: (T, T) -> bool)
    ensures Sort([], le) == [] && Filter([], p) == []
  {
  }

  lemma {:induction false} SortCons<T(!new)>(x: T, xs: seq<T>, le: (T, T) -> bool)
    ensures Sort([x] + xs, le) == Insert(x, Sort(xs, le), le)
  {
    assert ([x] + xs)[1..] == xs;
  }

  lemma {:induction false} FilterMultiset<T(!new)>(xs: seq<T>, p: T -> bool, x: T)
    ensures multiset(Filter(xs, p))[x] == if p(x) then multiset(xs)[x] else 0
  {
    if xs != [] {
      FilterMultiset(xs[1..], p, x);
      assert xs == [xs[0]] + xs[1..];
    }
  }

  // ---------------------------------------------------------------- bytes

  /** `Buffer.compare(left, right) <= 0` */
  predicate LexLe(a: seq<int>, b: seq<int>)
  {
    a == [] || (b != [] && (a[0] < b[0] || (a[0] == b[0] && LexLe(a[1..], b[1..]))))
  }

  lemma {:induction false} LexTotal(a: seq<int>, b: seq<int>)
    ensures LexLe(a, b) || LexLe(b, a)
    ensures LexLe(a, b) && LexLe(b, a) ==> a == b
  {
    if a != [] && b != [] {
      LexTotal(a[1..], b[1..]);
    }
  }

  lemma {:induction false} LexTransitive(a: seq<int>, b: seq<int>, c: seq<int>)
    ensures LexLe(a, b) && LexLe(b, c) ==> LexLe(a, c)
  {
    if a != [] && b != [] && c != [] {
      LexTransitive(a[1..], b[1..], c[1..]);
    }
  }
}
