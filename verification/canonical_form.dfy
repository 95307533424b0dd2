/** What the canonical form identifies, and what the bundle hash is computed from. */
module CanonicalForm {
  import opened Wrappers
  import opened Sorting
  import opened Serialize

  // ---------------------------------------------------------------- values

  /** Distinct keys at every depth, as any object has. */
  ghost predicate Owned(v: Json)
    decreases v
  {
    match v
    case Leaf(_) => true
    case Arr(items) => forall i :: 0 <= i < |items| ==> Owned(items[i])
    case Obj(entries) => DistinctKeys(entries) && forall i :: 0 <= i < |entries| ==> Owned(entries[i].value)
  }

  /** Owned, and the encoding confuses no two named keys of one object. */
  ghost predicate Proper(v: Json, enc: Encoding)
    decreases v
  {
    match v
    case Leaf(_) => true
    case Arr(items) => forall i :: 0 <= i < |items| ==> Proper(items[i], enc)
    case Obj(entries) =>
      && DistinctKeys(entries) && ToldApart(entries, enc)
      && forall i :: 0 <= i < |entries| ==> Proper(entries[i].value, enc)
  }

  /** Equal up to the order of keys, at every depth. */
  ghost predicate Same(a: Json, b: Json)
    decreases a
  {
    match a
    case Leaf(_) => a == b
    case Arr(xs) => b.Arr? && |xs| == |b.items| && forall i :: 0 <= i < |xs| ==> Same(xs[i], b.items[i])
    case Obj(es) => b.Obj? && SameEntries(es, b.entries)
  }

  /** The same keys, and the same value under each. */
  ghost predicate SameEntries(es: seq<Entry>, fs: seq<Entry>)
    decreases es
  {
    && Keys(es) == Keys(fs)
    && forall i, j :: KeyMeets(es, fs, i, j) ==> Same(es[i].value, fs[j].value)
  }

  function Keys(entries: seq<Entry>): set<string>
  {
    set e | e in entries :: e.key
  }

  predicate KeyMeets(es: seq<Entry>, fs: seq<Entry>, i: int, j: int)
  {
    0 <= i < |es| && 0 <= j < |fs| && es[i].key == fs[j].key
  }

  lemma Meets(es: seq<Entry>, fs: seq<Entry>, i: nat) returns (j: nat)
    requires Keys(es) <= Keys(fs) && i < |es|
    ensures KeyMeets(es, fs, i, j)
  {
    assert es[i] in es && es[i].key in Keys(fs);
    var f :| f in fs && f.key == es[i].key;
    var k :| 0 <= k < |fs| && fs[k] == f;
    j := k;
  }

  // ---------------------------------------------------------------- equal forms

  lemma {:induction false} DistinctChildren(entries: seq<Entry>, enc: Encoding)
    requires DistinctKeys(entries)
    ensures DistinctKeys(CanonicalChildren(entries, enc))
    ensures ToldApart(entries, enc) ==> ToldApart(CanonicalChildren(entries, enc), enc)
  {
    hide Canonicalize;
  }

  lemma {:induction false} DistinctMultiset(entries: seq<Entry>, e: Entry)
    requires DistinctKeys(entries)
    ensures multiset(entries)[e] == if e in entries then 1 else 0
  {
    if entries != [] {
      var n := |entries| - 1;
      DistinctMultiset(entries[..n], e);
      assert entries == entries[..n] + [entries[n]];
    }
  }

  lemma SameMembersMultiset(xs: seq<Entry>, ys: seq<Entry>)
    requires DistinctKeys(xs) && DistinctKeys(ys) && forall e :: e in xs <==> e in ys
    ensures multiset(xs) == multiset(ys)
  {
    forall e ensures multiset(xs)[e] == multiset(ys)[e] {
      DistinctMultiset(xs, e);
      DistinctMultiset(ys, e);
    }
  }

  /** The form of an object, from its children. */
  lemma {:induction false} CanonicalObject(es: seq<Entry>, enc: Encoding)
    ensures Canonicalize(Obj(es), enc) == Obj(Rearrange(CanonicalChildren(es, enc), enc))
  {
  }

  lemma {:induction false} SameThenEqual(a: Json, b: Json, enc: Encoding)
    requires Proper(a, enc) && Owned(b) && Same(a, b)
    ensures Canonicalize(a, enc) == Canonicalize(b, enc)
    decreases a
  {
    hide DistinctKeys, ToldApart, Rearrange, Keys;
    match a
    case Leaf(_) =>
    case Arr(xs) =>
      forall i | 0 <= i < |xs| ensures Canonicalize(xs[i], enc) == Canonicalize(b.items[i], enc) {
        SameThenEqual(xs[i], b.items[i], enc);
      }
      assert Canonicalize(a, enc).items == Canonicalize(b, enc).items;
    case Obj(es) =>
      var xs, ys := CanonicalChildren(es, enc), CanonicalChildren(b.entries, enc);
      forall i, j | KeyMeets(es, b.entries, i, j) ensures xs[i] == ys[j] {
        SameThenEqual(es[i].value, b.entries[j].value, enc);
      }
      ObjectsEqual(es, b.entries, enc);
  }

  lemma {:induction false} ObjectsEqual(es: seq<Entry>, fs: seq<Entry>, enc: Encoding)
    requires DistinctKeys(es) && DistinctKeys(fs) && ToldApart(es, enc)
    requires Keys(es) == Keys(fs)
    requires forall i, j :: KeyMeets(es, fs, i, j) ==> CanonicalChildren(es, enc)[i] == CanonicalChildren(fs, enc)[j]
    ensures Canonicalize(Obj(es), enc) == Canonicalize(Obj(fs), enc)
  {
    CanonicalObject(es, enc);
    CanonicalObject(fs, enc);
    var xs, ys := CanonicalChildren(es, enc), CanonicalChildren(fs, enc);
    hide *;
    DistinctChildren(es, enc);
    DistinctChildren(fs, enc);
    forall i | 0 <= i < |es| ensures xs[i] in ys {
      var j := Meets(es, fs, i);
      Met(es, fs, i, j);
      assert xs[i] == ys[j];
    }
    forall j | 0 <= j < |fs| ensures ys[j] in xs {
      var i := Meets(fs, es, j);
      Met(es, fs, i, j);
      assert xs[i] == ys[j];
    }
    SameMembersMultiset(xs, ys);
    RearrangeUnique(xs, ys, enc);
  }

  lemma Met(es: seq<Entry>, fs: seq<Entry>, i: nat, j: nat)
    ensures KeyMeets(fs, es, j, i) <==> KeyMeets(es, fs, i, j)
    ensures KeyMeets(es, fs, i, j) ==> i < |es| && j < |fs|
  {
  }

  lemma {:induction false} EqualThenSame(a: Json, b: Json, enc: Encoding)
    requires Owned(a) && Owned(b) && Canonicalize(a, enc) == Canonicalize(b, enc)
    ensures Same(a, b)
    decreases a
  {
    hide Rearrange, DistinctKeys;
    match a
    case Leaf(_) =>
    case Arr(xs) =>
      forall i | 0 <= i < |xs| ensures Same(xs[i], b.items[i]) {
        assert Canonicalize(a, enc).items[i] == Canonicalize(b, enc).items[i];
        EqualThenSame(xs[i], b.items[i], enc);
      }
    case Obj(es) =>
      CanonicalObject(es, enc);
      CanonicalObject(b.entries, enc);
      EqualMembers(es, b.entries, enc);
      EqualKeys(es, b.entries, enc);
      forall i, j | KeyMeets(es, b.entries, i, j) ensures Same(es[i].value, b.entries[j].value) {
        EqualUnder(es, b.entries, enc, i, j);
        EqualThenSame(es[i].value, b.entries[j].value, enc);
      }
  }

  lemma {:induction false} EqualKeys(es: seq<Entry>, fs: seq<Entry>, enc: Encoding)
    requires forall e :: e in CanonicalChildren(es, enc) <==> e in CanonicalChildren(fs, enc)
    ensures Keys(es) == Keys(fs)
  {
    hide Canonicalize;
    KeysOf(es, enc);
    KeysOf(fs, enc);
  }

  lemma {:induction false} KeysOf(es: seq<Entry>, enc: Encoding)
    ensures Keys(CanonicalChildren(es, enc)) == Keys(es)
  {
    hide Canonicalize;
    var xs := CanonicalChildren(es, enc);
    forall i | 0 <= i < |es| ensures es[i].key in Keys(xs) && xs[i].key in Keys(es) {
      assert es[i] in es && xs[i] in xs;
    }
  }

  lemma {:induction false} EqualUnder(es: seq<Entry>, fs: seq<Entry>, enc: Encoding, i: int, j: int)
    requires DistinctKeys(fs) && KeyMeets(es, fs, i, j)
    requires forall e :: e in CanonicalChildren(es, enc) ==> e in CanonicalChildren(fs, enc)
    ensures 0 <= i < |es| && 0 <= j < |fs|
    ensures Canonicalize(es[i].value, enc) == Canonicalize(fs[j].value, enc)
  {
    hide Canonicalize;
    var e := CanonicalChildren(es, enc)[i];
    assert e in CanonicalChildren(fs, enc);
    var k :| 0 <= k < |fs| && CanonicalChildren(fs, enc)[k] == e;
    assert k == j;
  }

  lemma {:induction false} EqualMembers(es: seq<Entry>, fs: seq<Entry>, enc: Encoding)
    requires Rearrange(CanonicalChildren(es, enc), enc) == Rearrange(CanonicalChildren(fs, enc), enc)
    ensures forall e :: e in CanonicalChildren(es, enc) <==> e in CanonicalChildren(fs, enc)
  {
    hide Rearrange, Canonicalize;
    RearrangePermutes(CanonicalChildren(es, enc), enc);
    RearrangePermutes(CanonicalChildren(fs, enc), enc);
    SameElements(CanonicalChildren(es, enc), CanonicalChildren(fs, enc));
  }

  /** Equal canonical forms are equal values up to key order, both ways. */
  lemma {:induction false} CanonicalExact(a: Json, b: Json, enc: Encoding)
    requires Proper(a, enc) && Owned(b)
    ensures Canonicalize(a, enc) == Canonicalize(b, enc) <==> Same(a, b)
  {
    if Same(a, b) {
      SameThenEqual(a, b, enc);
    }
    if Canonicalize(a, enc) == Canonicalize(b, enc) {
      ProperOwned(a, enc);
      EqualThenSame(a, b, enc);
    }
  }

  lemma {:induction false} ProperOwned(v: Json, enc: Encoding)
    requires Proper(v, enc)
    ensures Owned(v)
    decreases v
  {
    match v
    case Leaf(_) =>
    case Arr(items) =>
      forall i | 0 <= i < |items| ensures Owned(items[i]) {
        ProperOwned(items[i], enc);
      }
    case Obj(entries) =>
      forall i | 0 <= i < |entries| ensures Owned(entries[i].value) {
        ProperOwned(entries[i].value, enc);
      }
  }

  lemma {:induction false} SameItself(v: Json)
    requires Owned(v)
    ensures Same(v, v)
    decreases v
  {
    match v
    case Leaf(_) =>
    case Arr(items) =>
      forall i | 0 <= i < |items| ensures Same(items[i], items[i]) {
        SameItself(items[i]);
      }
    case Obj(entries) =>
      forall i, j | KeyMeets(entries, entries, i, j) ensures Same(entries[i].value, entries[j].value) {
        OnePlace(entries, i, j);
        SameItself(entries[i].value);
      }
  }

  lemma OnePlace(entries: seq<Entry>, i: int, j: int)
    requires DistinctKeys(entries) && KeyMeets(entries, entries, i, j)
    ensures i == j
  {
  }

  /** Another order of the same keys that the form does not forget. */
  lemma SwappedShows(es: seq<Entry>, enc: Encoding) returns (fs: seq<Entry>)
    requires Owned(Obj(es)) && !ToldApart(es, enc)
    ensures Owned(Obj(fs)) && Same(Obj(es), Obj(fs)) && Canonicalize(Obj(es), enc) != Canonicalize(Obj(fs), enc)
  {
    hide Untold, Rearrange, Canonicalize, Same, Owned;
    var i, j :| 0 <= i < j < |es| && Untold(es[i], es[j], enc);
    fs := Swap(es, i, j);
    SwappedSame(es, i, j);
    ChildrenSwapped(es, enc, i, j);
    ChildrenUntold(es, enc, i, j);
    DistinctChildren(es, enc);
    SwapShows(CanonicalChildren(es, enc), enc, i, j);
    CanonicalObject(es, enc);
    CanonicalObject(fs, enc);
  }

  lemma SwappedSame(es: seq<Entry>, i: nat, j: nat)
    requires Owned(Obj(es)) && i < j < |es|
    ensures DistinctKeys(es) && Owned(Obj(Swap(es, i, j))) && Same(Obj(es), Obj(Swap(es, i, j)))
  {
    var fs := Swap(es, i, j);
    hide DistinctKeys;
    SwappedKeys(es, i, j);
    forall k, l | KeyMeets(es, fs, k, l) ensures Same(es[k].value, fs[l].value) {
      var m := if l == i then j else if l == j then i else l;
      OnePlace(es, k, m);
      SameItself(es[k].value);
    }
  }

  lemma SwappedKeys(es: seq<Entry>, i: nat, j: nat)
    requires DistinctKeys(es) && i < j < |es|
    ensures DistinctKeys(Swap(es, i, j)) && Keys(Swap(es, i, j)) == Keys(es)
  {
    SameElements(Swap(es, i, j), es);
  }

  /** Where the entry now at `k` was before the swap. */
  function Origin(i: nat, j: nat, k: nat): nat { if k == i then j else if k == j then i else k }

  lemma SwapAt(es: seq<Entry>, i: nat, j: nat, k: nat)
    requires i < j < |es| && k < |es|
    ensures |Swap(es, i, j)| == |es| && Swap(es, i, j)[k] == es[Origin(i, j, k)]
  {
  }

  lemma SwapIs(es: seq<Entry>, i: nat, j: nat, fs: seq<Entry>)
    requires i < j < |es| == |fs| && forall k: nat :: k < |es| ==> fs[k] == es[Origin(i, j, k)]
    ensures fs == Swap(es, i, j)
  {
    forall k: nat | k < |es| ensures fs[k] == Swap(es, i, j)[k] {
      SwapAt(es, i, j, k);
    }
  }

  lemma {:induction false} ChildAt(es: seq<Entry>, enc: Encoding, k: nat)
    requires k < |es|
    ensures |CanonicalChildren(es, enc)| == |es| && CanonicalChildren(es, enc)[k] == CanonicalChild(es[k], enc)
  {
    hide Canonicalize;
  }

  lemma {:induction false} ChildrenSwapped(es: seq<Entry>, enc: Encoding, i: nat, j: nat)
    requires i < j < |es|
    ensures CanonicalChildren(Swap(es, i, j), enc) == Swap(CanonicalChildren(es, enc), i, j)
  {
    var fs, xs := Swap(es, i, j), CanonicalChildren(es, enc);
    SwapAt(es, i, j, i);
    hide Swap, Canonicalize, CanonicalChildren, CanonicalChild;
    forall k: nat | k < |es| ensures CanonicalChildren(fs, enc)[k] == xs[Origin(i, j, k)] {
      SwapAt(es, i, j, k);
      ChildAt(fs, enc, k);
      ChildAt(es, enc, Origin(i, j, k));
    }
    SwapIs(xs, i, j, CanonicalChildren(fs, enc));
  }

  lemma {:induction false} ChildrenUntold(es: seq<Entry>, enc: Encoding, i: nat, j: nat)
    requires i < |es| && j < |es| && Untold(es[i], es[j], enc)
    ensures Untold(CanonicalChildren(es, enc)[i], CanonicalChildren(es, enc)[j], enc)
  {
    hide Untold, CanonicalChildren, Canonicalize;
    UntoldAlike(es[i], es[j], CanonicalChildren(es, enc)[i], CanonicalChildren(es, enc)[j], enc);
  }

  lemma UntoldAlike(a: Entry, b: Entry, c: Entry, d: Entry, enc: Encoding)
    requires a.key == c.key && b.key == d.key
    ensures Untold(a, b, enc) <==> Untold(c, d, enc)
  {
    hide IsIndex;
  }

  /** Replacing the value under one key. */
  lemma ChildShows(es: seq<Entry>, enc: Encoding, i: nat, v: Json)
    requires Owned(Obj(es)) && i < |es| && Owned(v) && Same(es[i].value, v)
    requires Canonicalize(es[i].value, enc) != Canonicalize(v, enc)
    ensures var fs := es[i := Entry(es[i].key, v)];
      Owned(Obj(fs)) && Same(Obj(es), Obj(fs)) && Canonicalize(Obj(es), enc) != Canonicalize(Obj(fs), enc)
  {
    var fs := es[i := Entry(es[i].key, v)];
    hide *;
    ReplacedOwned(es, i, v);
    ReplacedSame(es, i, v);
    CanonicalObject(es, enc);
    CanonicalObject(fs, enc);
    if Canonicalize(Obj(es), enc) == Canonicalize(Obj(fs), enc) {
      EqualMembers(es, fs, enc);
      AtSamePlace(es, fs, i);
      EqualUnder(es, fs, enc, i, i);
    }
  }

  lemma AtSamePlace(es: seq<Entry>, fs: seq<Entry>, i: nat)
    requires i < |es| && i < |fs| && es[i].key == fs[i].key
    ensures KeyMeets(es, fs, i, i)
  {
  }

  lemma ReplacedOwned(es: seq<Entry>, i: nat, v: Json)
    requires Owned(Obj(es)) && i < |es| && Owned(v)
    ensures DistinctKeys(es) && DistinctKeys(es[i := Entry(es[i].key, v)]) && Owned(Obj(es[i := Entry(es[i].key, v)]))
  {
  }

  lemma {:induction false} ReplacedSame(es: seq<Entry>, i: nat, v: Json)
    requires Owned(Obj(es)) && DistinctKeys(es) && i < |es| && Same(es[i].value, v)
    ensures Same(Obj(es), Obj(es[i := Entry(es[i].key, v)]))
  {
    var fs := es[i := Entry(es[i].key, v)];
    hide DistinctKeys, Keys;
    ReplacedKeys(es, i, v);
    forall k, l | KeyMeets(es, fs, k, l) ensures Same(es[k].value, fs[l].value) {
      OnePlace(es, k, l);
      SameItself(es[k].value);
    }
  }

  lemma ReplacedKeys(es: seq<Entry>, i: nat, v: Json)
    requires i < |es|
    ensures Keys(es[i := Entry(es[i].key, v)]) == Keys(es)
  {
    var fs := es[i := Entry(es[i].key, v)];
    forall k | 0 <= k < |es| ensures es[k].key in Keys(fs) && fs[k].key in Keys(es) {
      assert es[k] in es && fs[k] in fs;
    }
  }

  /** A value with confused keys somewhere has an equal one with another form. */
  lemma {:induction false} Improper(a: Json, enc: Encoding) returns (b: Json)
    requires Owned(a) && !Proper(a, enc)
    ensures Owned(b) && Same(a, b) && Canonicalize(a, enc) != Canonicalize(b, enc)
    decreases a
  {
    match a
    case Arr(xs) =>
      var i :| 0 <= i < |xs| && !Proper(xs[i], enc);
      var v := Improper(xs[i], enc);
      b := Arr(xs[i := v]);
      hide Proper;
      forall k | 0 <= k < |xs| ensures Same(xs[k], b.items[k]) {
        SameItself(xs[k]);
      }
      assert Canonicalize(a, enc).items[i] != Canonicalize(b, enc).items[i];
    case Obj(es) =>
      if ToldApart(es, enc) {
        var i :| 0 <= i < |es| && !Proper(es[i].value, enc);
        var v := Improper(es[i].value, enc);
        hide *;
        ChildOwned(es, i);
        ChildShows(es, enc, i, v);
        b := Obj(es[i := Entry(es[i].key, v)]);
      } else {
        hide *;
        var fs := SwappedShows(es, enc);
        b := Obj(fs);
      }
  }

  lemma ChildOwned(es: seq<Entry>, i: nat)
    requires Owned(Obj(es)) && i < |es|
    ensures Owned(es[i].value)
  {
  }

  /** The form forgets every order the keys of a value could have exactly when the encoding confuses none of them. */
  lemma {:induction false} KeyOrderForgottenExact(a: Json, enc: Encoding)
    requires Owned(a)
    ensures (forall b :: Owned(b) && Same(a, b) ==> Canonicalize(a, enc) == Canonicalize(b, enc)) <==> Proper(a, enc)
  {
    hide Canonicalize, Same, Owned, Proper;
    if Proper(a, enc) {
      forall b | Owned(b) && Same(a, b) ensures Canonicalize(a, enc) == Canonicalize(b, enc) {
        SameThenEqual(a, b, enc);
      }
    } else {
      var b := Improper(a, enc);
    }
  }

  /** Two names written alike, in an object and in the same object the other way round. */
  lemma UntoldKeysShow(x: string, y: string, v: Json, enc: Encoding)
    requires x != y && !IsIndex(x) && !IsIndex(y) && enc(x) == enc(y) && v.Leaf?
    ensures var a, b := Obj([Entry(x, v), Entry(y, v)]), Obj([Entry(y, v), Entry(x, v)]);
      Same(a, b) && Canonicalize(a, enc) != Canonicalize(b, enc)
  {
    var e, f := Entry(x, v), Entry(y, v);
    hide Canonicalize, Rearrange, IsIndex;
    SwappedSame([e, f], 0, 1);
    ChildrenSwapped([e, f], enc, 0, 1);
    ChildrenUntold([e, f], enc, 0, 1);
    DistinctChildren([e, f], enc);
    SwapShows(CanonicalChildren([e, f], enc), enc, 0, 1);
    CanonicalObject([e, f], enc);
    CanonicalObject([f, e], enc);
    assert Swap([e, f], 0, 1) == [f, e];
  }

  // ---------------------------------------------------------------- once is enough

  lemma RearrangeFixed(entries: seq<Entry>, enc: Encoding)
    requires DistinctKeys(entries)
    ensures Rearrange(Rearrange(entries, enc), enc) == Rearrange(entries, enc)
  {
    Preorders(enc);
    var sorted := Sort(entries, ByBytes(enc));
    var kept, rest := Filter(sorted, Indexed()), Filter(sorted, Named());
    SameElements(sorted, entries);
    SameElements(Sort(kept, ByIndex()), kept);
    SortSorted(entries, ByBytes(enc));
    FilterSorted(sorted, Named(), ByBytes(enc));
    hide TotalPreorder, Sort, LexLe, Value;
    Again(entries, kept, rest, enc);
  }

  lemma {:induction false} Again(entries: seq<Entry>, kept: seq<Entry>, rest: seq<Entry>, enc: Encoding)
    requires DistinctKeys(entries) && Sorted(rest, ByBytes(enc))
    requires forall e :: e in kept ==> e in entries && IsIndex(e.key)
    requires forall e :: e in rest ==> !IsIndex(e.key)
    ensures Rearrange(Sort(kept, ByIndex()) + rest, enc) == Sort(kept, ByIndex()) + rest
  {
    var first := Sort(kept, ByIndex());
    Preorders(enc);
    SameElements(first, kept);
    SplitBack(first, rest);
    hide TotalPreorder, Sort, Filter, LexLe, IsIndex, Value, DistinctKeys, Sorted;
    FilterSort(first + rest, Named(), ByBytes(enc));
    SortFixed(rest, ByBytes(enc));
    FilterSort(first + rest, Indexed(), ByBytes(enc));
    IndicesFixed(entries, first, Sort(first, ByBytes(enc)), kept);
  }

  lemma {:induction false} SplitBack(first: seq<Entry>, rest: seq<Entry>)
    requires forall e :: e in first ==> IsIndex(e.key)
    requires forall e :: e in rest ==> !IsIndex(e.key)
    ensures Filter(first + rest, Indexed()) == first && Filter(first + rest, Named()) == rest
  {
    FilterConcat(first, rest, Indexed());
    FilterConcat(first, rest, Named());
    FilterAll(first, Indexed());
    FilterAll(first, Named());
    FilterAll(rest, Indexed());
    FilterAll(rest, Named());
  }

  lemma {:induction false} IndicesFixed(entries: seq<Entry>, first: seq<Entry>, mixed: seq<Entry>, kept: seq<Entry>)
    requires DistinctKeys(entries) && first == Sort(kept, ByIndex()) && multiset(mixed) == multiset(first)
    requires forall e :: e in kept ==> e in entries && IsIndex(e.key)
    ensures Sort(mixed, ByIndex()) == first
  {
    Preorders(_ => []);
    SortSorted(kept, ByIndex());
    SortSorted(mixed, ByIndex());
    SameElements(first, kept);
    SameElements(Sort(mixed, ByIndex()), first);
    hide TotalPreorder, Sort;
    forall a, b | a in Sort(mixed, ByIndex()) && b in Sort(mixed, ByIndex()) && ByIndex()(a, b) && ByIndex()(b, a) ensures a == b {
      assert a in entries && b in entries;
      IndexInjective(a.key, b.key);
      SameKeySameEntry(entries, a, b);
    }
    SortedUnique(Sort(mixed, ByIndex()), first, ByIndex());
  }

  lemma SameKeySameEntry(entries: seq<Entry>, a: Entry, b: Entry)
    requires DistinctKeys(entries) && a in entries && b in entries && a.key == b.key
    ensures a == b
  {
  }

  /** Canonicalizing again changes nothing, whatever the encoding. */
  lemma {:induction false} CanonicalizeIdempotent(v: Json, enc: Encoding)
    requires Owned(v)
    ensures Canonicalize(Canonicalize(v, enc), enc) == Canonicalize(v, enc)
    decreases v
  {
    match v
    case Leaf(_) =>
    case Arr(xs) =>
      forall i | 0 <= i < |xs| ensures Canonicalize(Canonicalize(xs[i], enc), enc) == Canonicalize(xs[i], enc) {
        CanonicalizeIdempotent(xs[i], enc);
      }
      assert Canonicalize(Canonicalize(v, enc), enc).items == Canonicalize(v, enc).items;
    case Obj(es) =>
      forall i | 0 <= i < |es| ensures Canonicalize(Canonicalize(es[i].value, enc), enc) == Canonicalize(es[i].value, enc) {
        CanonicalizeIdempotent(es[i].value, enc);
      }
      var children := CanonicalChildren(es, enc);
      CanonicalObject(es, enc);
      var r := Rearrange(children, enc);
      CanonicalObject(r, enc);
      ChildrenFixed(children, r, enc);
      DistinctChildren(es, enc);
      RearrangeFixed(children, enc);
  }

  lemma {:induction false} ChildrenFixed(children: seq<Entry>, r: seq<Entry>, enc: Encoding)
    requires r == Rearrange(children, enc)
    requires forall i :: 0 <= i < |children| ==> Canonicalize(children[i].value, enc) == children[i].value
    ensures CanonicalChildren(r, enc) == r
  {
    hide Canonicalize, Rearrange;
    RearrangePermutes(children, enc);
    SameElements(r, children);
    forall k | 0 <= k < |r| ensures CanonicalChildren(r, enc)[k] == r[k] {
      assert r[k] in r;
    }
  }

  // ---------------------------------------------------------------- byte order

  /** Enumeration agrees with the byte order on two keys. */
  predicate Agrees(a: Entry, b: Entry, enc: Encoding)
  {
    InOrder(enc)(a, b) <==> ByBytes(enc)(a, b)
  }

  /** The encoding tells all keys apart, index keys among them. */
  predicate AllToldApart(entries: seq<Entry>, enc: Encoding)
  {
    forall i, j :: 0 <= i < j < |entries| ==> enc(entries[i].key) != enc(entries[j].key)
  }

  lemma AllThenNamed(entries: seq<Entry>, enc: Encoding)
    requires AllToldApart(entries, enc)
    ensures ToldApart(entries, enc)
  {
    hide IsIndex;
  }

  /**
   * The keys come out in byte order, which is what another language computes,
   * exactly when index keys and bytes order every two of them alike.
   */
  lemma {:induction false} ByteOrderExact(entries: seq<Entry>, enc: Encoding)
    requires DistinctKeys(entries) && AllToldApart(entries, enc)
    ensures Rearrange(entries, enc) == Sort(entries, ByBytes(enc))
      <==> forall a, b :: a in entries && b in entries ==> Agrees(a, b, enc)
  {
    Preorders(enc);
    var r, s := Rearrange(entries, enc), Sort(entries, ByBytes(enc));
    RearrangeOrders(entries, enc);
    RearrangePermutes(entries, enc);
    SortSorted(entries, ByBytes(enc));
    SameElements(r, entries);
    AllThenNamed(entries, enc);
    hide *;
    if forall a, b :: a in entries && b in entries ==> Agrees(a, b, enc) {
      AllAgree(entries, r, s, enc);
    }
    if r == s {
      forall a, b | a in entries && b in entries ensures Agrees(a, b, enc) {
        BothOrders(entries, r, enc, a, b);
      }
    }
  }

  lemma AllAgree(entries: seq<Entry>, r: seq<Entry>, s: seq<Entry>, enc: Encoding)
    requires DistinctKeys(entries) && ToldApart(entries, enc) && TotalPreorder(ByBytes(enc))
    requires Sorted(r, InOrder(enc)) && Sorted(s, ByBytes(enc)) && multiset(r) == multiset(s)
    requires forall e :: e in r <==> e in entries
    requires forall a, b :: a in entries && b in entries ==> Agrees(a, b, enc)
    ensures r == s
  {
    hide TotalPreorder, LexLe, IsIndex, Value, DistinctKeys, ToldApart;
    forall i, j | 0 <= i < j < |r| ensures ByBytes(enc)(r[i], r[j]) {
      assert Agrees(r[i], r[j], enc);
    }
    forall a, b | a in r && b in r && ByBytes(enc)(a, b) && ByBytes(enc)(b, a) ensures a == b {
      assert Agrees(a, b, enc) && Agrees(b, a, enc);
      NoTies(entries, enc, a, b);
    }
    SortedUnique(r, s, ByBytes(enc));
  }

  lemma BothOrders(entries: seq<Entry>, r: seq<Entry>, enc: Encoding, a: Entry, b: Entry)
    requires DistinctKeys(entries) && ToldApart(entries, enc) && AllToldApart(entries, enc)
    requires TotalPreorder(InOrder(enc)) && TotalPreorder(ByBytes(enc))
    requires Sorted(r, InOrder(enc)) && Sorted(r, ByBytes(enc)) && forall e :: e in r <==> e in entries
    requires a in entries && b in entries
    ensures Agrees(a, b, enc)
  {
    var i :| 0 <= i < |r| && r[i] == a;
    var j :| 0 <= j < |r| && r[j] == b;
    LexTotal(enc(a.key), enc(b.key));
    if InOrder(enc)(a, b) && InOrder(enc)(b, a) {
      NoTies(entries, enc, a, b);
    }
    if ByBytes(enc)(a, b) && ByBytes(enc)(b, a) {
      SameBytes(entries, enc, a, b);
    }
  }

  lemma SameBytes(entries: seq<Entry>, enc: Encoding, a: Entry, b: Entry)
    requires AllToldApart(entries, enc) && a in entries && b in entries && enc(a.key) == enc(b.key)
    ensures a == b
  {
  }

  function Ascii(): Encoding { (s: string) => seq(|s|, i requires 0 <= i < |s| => s[i] as int) }

  /** A dash comes before a digit in bytes, and the index key before it all the same. */
  lemma DashAndDigit(v: Json, w: Json)
    ensures var entries := [Entry("-", v), Entry("1", w)];
      && DistinctKeys(entries) && AllToldApart(entries, Ascii())
      && Rearrange(entries, Ascii()) != Sort(entries, ByBytes(Ascii()))
  {
    var a, b := Entry("-", v), Entry("1", w);
    OneIsIndex();
    assert Ascii()(a.key) == [45] && Ascii()(b.key) == [49];
    assert !LexLe([49], [45]);
    assert !Agrees(b, a, Ascii());
    hide Rearrange, Sort, Agrees;
    ByteOrderExact([a, b], Ascii());
    assert a in [a, b] && b in [a, b];
  }

  lemma OneIsIndex()
    ensures IsIndex("1") && !IsIndex("-")
  {
    assert "1"[..0] == "";
    assert Value("1") == Value("1"[..0]) * 10 + Digit('1');
    assert "-"[0] == '-';
  }

  // ---------------------------------------------------------------- the manifest

  /** `content` stands for the bytes, whose base64, digest and size are functions of them. */
  datatype File = File(path: string, mediaType: string, content: seq<int>)

  datatype Bundle = Bundle(target: string, sessionId: string, files: seq<File>, resumeCommand: string, report: Json)

  /** What `JSON.stringify` is given to hash. */
  datatype Manifest = Manifest(target: string, sessionId: string, files: seq<File>, resumeCommand: string, report: Json)

  function ByPath(enc: Encoding): (File, File) -> bool
  {
    (a: File, b: File) => LexLe(enc(a.path), enc(b.path))
  }

  function HashInput(bundle: Bundle, enc: Encoding): Manifest
  {
    Manifest(bundle.target, bundle.sessionId, Sort(bundle.files, ByPath(enc)), bundle.resumeCommand, Canonicalize(bundle.report, enc))
  }

  predicate DistinctPaths(files: seq<File>, enc: Encoding)
  {
    forall i, j :: 0 <= i < j < |files| ==> enc(files[i].path) != enc(files[j].path)
  }

  /**
   * Two bundles hash the same input exactly when they hold the same files in
   * any order, and reports equal up to key order, for the same session and target.
   */
  lemma HashInputExact(a: Bundle, b: Bundle, enc: Encoding)
    requires DistinctPaths(a.files, enc) && Proper(a.report, enc) && Owned(b.report)
    ensures HashInput(a, enc) == HashInput(b, enc) <==>
      && a.target == b.target && a.sessionId == b.sessionId && a.resumeCommand == b.resumeCommand
      && multiset(a.files) == multiset(b.files)
      && Same(a.report, b.report)
  {
    CanonicalExact(a.report, b.report, enc);
    if multiset(a.files) == multiset(b.files) {
      FileOrderFree(a.files, b.files, enc);
    }
  }

  lemma {:induction false} FileOrderFree(xs: seq<File>, ys: seq<File>, enc: Encoding)
    requires DistinctPaths(xs, enc) && multiset(xs) == multiset(ys)
    ensures Sort(xs, ByPath(enc)) == Sort(ys, ByPath(enc))
  {
    PathPreorder(enc);
    SortSorted(xs, ByPath(enc));
    SortSorted(ys, ByPath(enc));
    SameElements(Sort(xs, ByPath(enc)), xs);
    hide TotalPreorder, Sort;
    forall a, b | a in Sort(xs, ByPath(enc)) && b in Sort(xs, ByPath(enc)) && ByPath(enc)(a, b) && ByPath(enc)(b, a) ensures a == b {
      LexTotal(enc(a.path), enc(b.path));
      OneAtPath(xs, enc, a, b);
    }
    SortedUnique(Sort(xs, ByPath(enc)), Sort(ys, ByPath(enc)), ByPath(enc));
  }

  lemma OneAtPath(files: seq<File>, enc: Encoding, a: File, b: File)
    requires DistinctPaths(files, enc) && a in files && b in files && enc(a.path) == enc(b.path)
    ensures a == b
  {
  }

  lemma PathPreorder(enc: Encoding)
    ensures TotalPreorder(ByPath(enc))
  {
    forall a: File, b: File ensures LexLe(enc(a.path), enc(b.path)) || LexLe(enc(b.path), enc(a.path)) {
      LexTotal(enc(a.path), enc(b.path));
    }
    forall a: File, b: File, c: File
      ensures LexLe(enc(a.path), enc(b.path)) && LexLe(enc(b.path), enc(c.path)) ==> LexLe(enc(a.path), enc(c.path))
    {
      LexTransitive(enc(a.path), enc(b.path), enc(c.path));
    }
  }
}
