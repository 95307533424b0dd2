/**
 * The canonical form of a report and the manifest that is hashed. A value is as
 * JavaScript holds it: an object is its own keys in enumeration order, which
 * puts array-index keys first, by number, and the rest as they were added.
 */
module Serialize {
  import opened Wrappers
  import opened Sorting
  import Text

  datatype Entry = Entry(key: string, value: Json)

  /** `Leaf` is null, a boolean, a number or a string. */
  datatype Json = Leaf(text: string) | Arr(items: seq<Json>) | Obj(entries: seq<Entry>)

  /** How a key or path is written in bytes. */
  type Encoding = string -> seq<int>

  // ---------------------------------------------------------------- own keys

  function Value(digits: string): nat
  {
    if digits == "" then 0
    else Value(digits[..|digits| - 1]) * 10 + Digit(digits[|digits| - 1])
  }

  function Digit(c: char): (d: nat)
    ensures d < 10
  {
    if '0' <= c <= '9' then c as int - '0' as int else 0
  }

  /** A canonical numeric string below 2^32 - 1. */
  predicate IsIndex(key: string)
  {
    && key != "" && (forall i :: 0 <= i < |key| ==> '0' <= key[i] <= '9')
    && (key[0] == '0' ==> key == "0")
    && Value(key) < 4294967295
  }

  function ByIndex(): (Entry, Entry) -> bool { (a: Entry, b: Entry) => Value(a.key) <= Value(b.key) }

  function Indexed(): Entry -> bool { (e: Entry) => IsIndex(e.key) }

  function Named(): Entry -> bool { (e: Entry) => !IsIndex(e.key) }

  /** The enumeration order of an object built by adding `entries` in turn. */
  function OwnOrder(entries: seq<Entry>): seq<Entry>
  {
    Sort(Filter(entries, Indexed()), ByIndex()) + Filter(entries, Named())
  }

  predicate DistinctKeys(entries: seq<Entry>)
  {
    forall i, j :: 0 <= i < j < |entries| ==> entries[i].key != entries[j].key
  }

  // ---------------------------------------------------------------- canonicalize

  function ByBytes(enc: Encoding): (Entry, Entry) -> bool
  {
    (a: Entry, b: Entry) => LexLe(enc(a.key), enc(b.key))
  }

  function Canonicalize(v: Json, enc: Encoding): (c: Json)
    ensures c.Leaf? == v.Leaf? && c.Arr? == v.Arr?
    decreases v, 0
  {
    match v
    case Leaf(_) => v
    case Arr(items) => Arr(seq(|items|, i requires 0 <= i < |items| => Canonicalize(items[i], enc)))
    case Obj(entries) => Obj(Rearrange(CanonicalChildren(entries, enc), enc))
  }

  /** `Object.fromEntries` of the entries sorted by the bytes of their keys; children are canonical already. */
  function Rearrange(entries: seq<Entry>, enc: Encoding): seq<Entry>
  {
    OwnOrder(Sort(entries, ByBytes(enc)))
  }

  function CanonicalChildren(entries: seq<Entry>, enc: Encoding): (r: seq<Entry>)
    ensures |r| == |entries|
    ensures forall i :: 0 <= i < |entries| ==> r[i] == Entry(entries[i].key, Canonicalize(entries[i].value, enc))
    decreases entries, 0
  {
    seq(|entries|, i requires 0 <= i < |entries| => Entry(entries[i].key, Canonicalize(entries[i].value, enc)))
  }

  function CanonicalChild(e: Entry, enc: Encoding): Entry { Entry(e.key, Canonicalize(e.value, enc)) }

  lemma {:induction false} ChildrenCons(e: Entry, rest: seq<Entry>, enc: Encoding)
    ensures CanonicalChildren([e] + rest, enc) == [CanonicalChild(e, enc)] + CanonicalChildren(rest, enc)
  {
    hide Canonicalize;
  }

  /** Sorting before the children are canonicalized, as the code does, comes to the same. */
  lemma {:induction false} ChildrenSorted(entries: seq<Entry>, enc: Encoding)
    ensures CanonicalChildren(Sort(entries, ByBytes(enc)), enc) == Sort(CanonicalChildren(entries, enc), ByBytes(enc))
  {
    if entries == [] {
      assert CanonicalChildren([], enc) == [];
    } else {
      var e, rest := entries[0], entries[1..];
      assert entries == [e] + rest;
      ChildrenSorted(rest, enc);
      ChildrenInserted(e, Sort(rest, ByBytes(enc)), enc);
      hide *;
      ChildrenCons(e, rest, enc);
      SortCons(e, rest, ByBytes(enc));
      SortCons(CanonicalChild(e, enc), CanonicalChildren(rest, enc), ByBytes(enc));
    }
  }

  lemma {:induction false} ChildrenInserted(e: Entry, sorted: seq<Entry>, enc: Encoding)
    ensures CanonicalChildren(Insert(e, sorted, ByBytes(enc)), enc)
         == Insert(CanonicalChild(e, enc), CanonicalChildren(sorted, enc), ByBytes(enc))
  {
    if sorted == [] {
      hide Canonicalize;
      assert CanonicalChildren([e], enc) == [CanonicalChild(e, enc)];
    } else {
      var head, rest := sorted[0], sorted[1..];
      assert sorted == [head] + rest;
      assert ByBytes(enc)(e, head) == ByBytes(enc)(CanonicalChild(e, enc), CanonicalChild(head, enc));
      ChildrenInserted(e, rest, enc);
      hide *;
      InsertCons(e, head, rest, ByBytes(enc));
      InsertCons(CanonicalChild(e, enc), CanonicalChild(head, enc), CanonicalChildren(rest, enc), ByBytes(enc));
      ChildrenCons(head, rest, enc);
      ChildrenCons(e, [head] + rest, enc);
      ChildrenCons(head, Insert(e, rest, ByBytes(enc)), enc);
    }
  }

  // ---------------------------------------------------------------- the order of keys

  lemma {:induction false} ValueInjective(a: string, b: string)
    requires forall i :: 0 <= i < |a| ==> '0' <= a[i] <= '9'
    requires forall i :: 0 <= i < |b| ==> '0' <= b[i] <= '9'
    requires a != "" ==> a[0] != '0'
    requires b != "" ==> b[0] != '0'
    requires Value(a) == Value(b)
    ensures a == b
    decreases |a|
  {
    if a == "" || b == "" {
      Positive(a);
      Positive(b);
    } else {
      var m, n := |a| - 1, |b| - 1;
      assert Digit(a[m]) == Digit(b[n]) && Value(a[..m]) == Value(b[..n]);
      ValueInjective(a[..m], b[..n]);
      assert a == a[..m] + [a[m]] && b == b[..n] + [b[n]];
    }
  }

  lemma {:induction false} Positive(a: string)
    requires forall i :: 0 <= i < |a| ==> '0' <= a[i] <= '9'
    requires a != "" ==> a[0] != '0'
    ensures a != "" <==> Value(a) > 0
  {
    if |a| > 1 {
      Positive(a[..|a| - 1]);
    } else if |a| == 1 {
      assert a[..0] == "";
    }
  }

  lemma {:induction false} IndexInjective(a: string, b: string)
    requires IsIndex(a) && IsIndex(b) && Value(a) == Value(b)
    ensures a == b
  {
    assert Value("0") == 0 by { assert "0"[..0] == ""; }
    if a[0] == '0' || b[0] == '0' {
      if a[0] != '0' { Positive(a); }
      if b[0] != '0' { Positive(b); }
    } else {
      ValueInjective(a, b);
    }
  }

  lemma {:induction false} DigitsValue(n: nat)
    ensures var digits := Text.Digits(n);
      Value(digits) == n && (forall i :: 0 <= i < |digits| ==> '0' <= digits[i] <= '9') && (digits[0] == '0' ==> n == 0)
  {
    var digits := Text.Digits(n);
    if n < 10 {
      assert digits[..0] == "";
    } else {
      DigitsValue(n / 10);
      assert digits[..|digits| - 1] == Text.Digits(n / 10);
    }
  }

  /** A number as it prints is an index key up to 4294967294, and a name from there on. */
  lemma {:induction false} NumbersIndexed(n: nat)
    ensures IsIndex(Text.Digits(n)) <==> n <= 4294967294
  {
    DigitsValue(n);
  }

  /** Index keys first, by number; then the others, by bytes. */
  function InOrder(enc: Encoding): (Entry, Entry) -> bool
  {
    (a: Entry, b: Entry) =>
      if IsIndex(a.key) then !IsIndex(b.key) || Value(a.key) <= Value(b.key)
      else !IsIndex(b.key) && LexLe(enc(a.key), enc(b.key))
  }

  lemma Preorders(enc: Encoding)
    ensures TotalPreorder(ByBytes(enc)) && TotalPreorder(ByIndex()) && TotalPreorder(InOrder(enc))
  {
    forall a: Entry, b: Entry ensures LexLe(enc(a.key), enc(b.key)) || LexLe(enc(b.key), enc(a.key)) {
      LexTotal(enc(a.key), enc(b.key));
    }
    forall a: Entry, b: Entry, c: Entry
      ensures LexLe(enc(a.key), enc(b.key)) && LexLe(enc(b.key), enc(c.key)) ==> LexLe(enc(a.key), enc(c.key))
    {
      LexTransitive(enc(a.key), enc(b.key), enc(c.key));
    }
  }

  /** The encoding tells the keys that are not indices apart; UTF-8 does for all but unpaired surrogates. */
  predicate ToldApart(entries: seq<Entry>, enc: Encoding)
  {
    forall i, j :: 0 <= i < j < |entries| ==> !Untold(entries[i], entries[j], enc)
  }

  predicate Untold(a: Entry, b: Entry, enc: Encoding)
  {
    !IsIndex(a.key) && !IsIndex(b.key) && enc(a.key) == enc(b.key)
  }

  lemma RearrangePermutes(entries: seq<Entry>, enc: Encoding)
    ensures multiset(Rearrange(entries, enc)) == multiset(entries)
  {
    var sorted := Sort(entries, ByBytes(enc));
    forall e ensures multiset(Rearrange(entries, enc))[e] == multiset(entries)[e] {
      FilterMultiset(sorted, Indexed(), e);
      FilterMultiset(sorted, Named(), e);
    }
  }

  lemma RearrangeOrders(entries: seq<Entry>, enc: Encoding)
    ensures Sorted(Rearrange(entries, enc), InOrder(enc))
  {
    Preorders(enc);
    var sorted := Sort(entries, ByBytes(enc));
    var first, rest := Sort(Filter(sorted, Indexed()), ByIndex()), Filter(sorted, Named());
    SortSorted(entries, ByBytes(enc));
    SortSorted(Filter(sorted, Indexed()), ByIndex());
    FilterSorted(sorted, Named(), ByBytes(enc));
    SameElements(first, Filter(sorted, Indexed()));
    hide TotalPreorder, Sort, Filter, LexLe, IsIndex, Value;
    var r := first + rest;
    forall i, j | 0 <= i < j < |r| ensures InOrder(enc)(r[i], r[j]) {
      if j < |first| {
        assert ByIndex()(first[i], first[j]) && first[i] in first && first[j] in first;
      } else if i >= |first| {
        assert ByBytes(enc)(rest[i - |first|], rest[j - |first|]);
        assert rest[i - |first|] in rest && rest[j - |first|] in rest;
      } else {
        assert first[i] in first && rest[j - |first|] in rest;
      }
    }
  }

  /** No two entries told apart tie. */
  lemma NoTies(entries: seq<Entry>, enc: Encoding, a: Entry, b: Entry)
    requires DistinctKeys(entries) && ToldApart(entries, enc) && a in entries && b in entries
    requires InOrder(enc)(a, b) && InOrder(enc)(b, a)
    ensures a == b
  {
    if IsIndex(a.key) {
      IndexInjective(a.key, b.key);
    } else {
      LexTotal(enc(a.key), enc(b.key));
    }
    var i :| 0 <= i < |entries| && entries[i] == a;
    var j :| 0 <= j < |entries| && entries[j] == b;
  }

  /** The arrangement forgets the order it was given. */
  lemma RearrangeUnique(xs: seq<Entry>, ys: seq<Entry>, enc: Encoding)
    requires DistinctKeys(xs) && ToldApart(xs, enc) && multiset(xs) == multiset(ys)
    ensures Rearrange(xs, enc) == Rearrange(ys, enc)
  {
    Preorders(enc);
    RearrangeOrders(xs, enc);
    RearrangeOrders(ys, enc);
    RearrangePermutes(xs, enc);
    RearrangePermutes(ys, enc);
    SameElements(Rearrange(xs, enc), xs);
    forall a, b | a in Rearrange(xs, enc) && b in Rearrange(xs, enc) && InOrder(enc)(a, b) && InOrder(enc)(b, a) ensures a == b {
      NoTies(xs, enc, a, b);
    }
    SortedUnique(Rearrange(xs, enc), Rearrange(ys, enc), InOrder(enc));
  }

  // ---------------------------------------------------------------- when the given order shows

  /** What is kept of a sequence, when only two of its elements are. */
  lemma {:induction false} KeepTwo(left: seq<Entry>, a: Entry, mid: seq<Entry>, b: Entry, right: seq<Entry>, p: Entry -> bool)
    requires p(a) && p(b) && forall e :: e in left || e in mid || e in right ==> !p(e)
    ensures Filter(left + [a] + mid + [b] + right, p) == [a, b]
  {
    hide Filter;
    FilterAll(left, p);
    FilterAll([a], p);
    FilterAll(mid, p);
    FilterAll([b], p);
    FilterAll(right, p);
    FilterConcat(left + [a] + mid + [b], right, p);
    FilterConcat(left + [a] + mid, [b], p);
    FilterConcat(left + [a], mid, p);
    FilterConcat(left, [a], p);
  }

  /** What an arrangement keeps of named keys is the sort of what the entries keep of them. */
  lemma {:induction false} RearrangeKeeps(entries: seq<Entry>, enc: Encoding, p: Entry -> bool)
    requires forall e :: p(e) ==> !IsIndex(e.key)
    ensures Filter(Rearrange(entries, enc), p) == Sort(Filter(entries, p), ByBytes(enc))
  {
    Preorders(enc);
    var sorted := Sort(entries, ByBytes(enc));
    var first := Sort(Filter(sorted, Indexed()), ByIndex());
    SameElements(first, Filter(sorted, Indexed()));
    hide TotalPreorder, Sort, Filter, IsIndex, LexLe;
    FilterConcat(first, Filter(sorted, Named()), p);
    FilterAll(first, p);
    FilterTwice(sorted, Named(), p);
    FilterSort(entries, p, ByBytes(enc));
  }

  lemma {:induction false} FilterTwice(entries: seq<Entry>, q: Entry -> bool, p: Entry -> bool)
    requires forall e :: p(e) ==> q(e)
    ensures Filter(Filter(entries, q), p) == Filter(entries, p)
  {
    if entries != [] {
      var e, rest := entries[0], entries[1..];
      FilterTwice(rest, q, p);
      assert entries == [e] + rest;
      hide Filter;
      FilterCons(e, rest, q);
      FilterCons(e, rest, p);
      FilterCons(e, Filter(rest, q), p);
    }
  }

  function Swap(entries: seq<Entry>, i: nat, j: nat): (r: seq<Entry>)
    requires i < j < |entries|
    ensures multiset(r) == multiset(entries)
  {
    entries[i := entries[j]][j := entries[i]]
  }

  lemma SwapSplits(entries: seq<Entry>, i: nat, j: nat)
    requires i < j < |entries|
    ensures entries == entries[..i] + [entries[i]] + entries[i + 1..j] + [entries[j]] + entries[j + 1..]
    ensures Swap(entries, i, j) == entries[..i] + [entries[j]] + entries[i + 1..j] + [entries[i]] + entries[j + 1..]
  {
  }

  lemma OnlyTwo(entries: seq<Entry>, i: nat, j: nat)
    requires DistinctKeys(entries) && i < j < |entries|
    ensures forall e :: e in entries[..i] || e in entries[i + 1..j] || e in entries[j + 1..] ==> e != entries[i] && e != entries[j]
  {
  }

  /** Either of two entries. */
  function Either(a: Entry, b: Entry): Entry -> bool { (e: Entry) => e == a || e == b }

  lemma {:induction false} KeepsBoth(entries: seq<Entry>, i: nat, j: nat)
    requires DistinctKeys(entries) && i < j < |entries|
    ensures var p := Either(entries[i], entries[j]);
      Filter(entries, p) == [entries[i], entries[j]] && Filter(Swap(entries, i, j), p) == [entries[j], entries[i]]
  {
    var a, b := entries[i], entries[j];
    var p := Either(a, b);
    SwapSplits(entries, i, j);
    OnlyTwo(entries, i, j);
    assert forall e :: p(e) <==> e == a || e == b;
    hide *;
    KeepTwo(entries[..i], a, entries[i + 1..j], b, entries[j + 1..], p);
    KeepTwo(entries[..i], b, entries[i + 1..j], a, entries[j + 1..], p);
  }

  /** Two entries the encoding confuses come out in the order they were given. */
  lemma SwapShows(entries: seq<Entry>, enc: Encoding, i: nat, j: nat)
    requires DistinctKeys(entries) && i < j < |entries| && Untold(entries[i], entries[j], enc)
    ensures Rearrange(Swap(entries, i, j), enc) != Rearrange(entries, enc)
  {
    var a, b := entries[i], entries[j];
    var p := Either(a, b);
    assert forall e :: p(e) ==> !IsIndex(e.key);
    LexTotal(enc(a.key), enc(b.key));
    assert a != b;
    hide *;
    TwoSorted(a, b, enc);
    TwoSorted(b, a, enc);
    KeepsBoth(entries, i, j);
    RearrangeKeeps(entries, enc, p);
    RearrangeKeeps(Swap(entries, i, j), enc, p);
    assert [a, b][0] != [b, a][0];
  }

  lemma TwoSorted(a: Entry, b: Entry, enc: Encoding)
    requires LexLe(enc(a.key), enc(b.key))
    ensures Sort([a, b], ByBytes(enc)) == [a, b]
  {
    SortFixed([a, b], ByBytes(enc));
  }

  /** The arrangement forgets every order it could be given exactly when no two named keys are confused. */
  lemma OrderForgottenExact(entries: seq<Entry>, enc: Encoding)
    requires DistinctKeys(entries)
    ensures (forall given :: multiset(given) == multiset(entries) ==> Rearrange(given, enc) == Rearrange(entries, enc))
      <==> ToldApart(entries, enc)
  {
    hide Rearrange, DistinctKeys, Untold;
    if ToldApart(entries, enc) {
      forall given | multiset(given) == multiset(entries) ensures Rearrange(given, enc) == Rearrange(entries, enc) {
        RearrangeUnique(entries, given, enc);
      }
    } else {
      var i, j :| 0 <= i < j < |entries| && Untold(entries[i], entries[j], enc);
      SwapShows(entries, enc, i, j);
    }
  }
}
