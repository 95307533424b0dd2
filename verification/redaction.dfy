/**
 * What leaves an archive: reviewed masks cut out of block text, then patterns
 * over every text field, then tool payloads replaced. A pattern is an arbitrary
 * function on strings.
 */
module Redaction {
  import opened Wrappers
  import opened Sorting

  datatype Mask = Mask(blockId: string, start: int, end: int, kind: string)

  /** Non-empty, inside no other mask, overlapping none. */
  predicate Disjoint(masks: seq<Mask>)
  {
    && (forall m :: m in masks ==> 0 <= m.start < m.end)
    && (forall i, j :: 0 <= i < |masks| && 0 <= j < |masks| && i != j ==> masks[i].end <= masks[j].start || masks[j].end <= masks[i].start)
  }

  predicate Covered(masks: seq<Mask>, p: int)
  {
    exists m :: m in masks && m.start <= p < m.end
  }

  function Marker(kind: string): string { "[REDACTED " + kind + "]" }

  // ---------------------------------------------------------------- what masking means

  function MaskAt(masks: seq<Mask>, p: int): (m: Option<Mask>)
    ensures m.Some? ==> m.value in masks && m.value.start == p
    ensures m.None? ==> forall n :: n in masks ==> n.start != p
  {
    if masks == [] then None else if masks[0].start == p then Some(masks[0]) else MaskAt(masks[1..], p)
  }

  function UpTo(end: int, limit: nat): (r: nat)
    requires end >= 0
    ensures r <= limit && r <= end && (r == limit || r == end)
  {
    if end <= limit then end else limit
  }

  /** Reading `text` from `p`: a marker where a mask starts, else the character. */
  function Masked(text: string, masks: seq<Mask>, p: nat): string
    requires Disjoint(masks)
    decreases |text| - p
  {
    if p >= |text| then ""
    else match MaskAt(masks, p)
      case Some(m) => Marker(m.kind) + Masked(text, masks, UpTo(m.end, |text|))
      case None => [text[p]] + Masked(text, masks, p + 1)
  }

  /** Not strictly inside a mask. */
  predicate Boundary(masks: seq<Mask>, p: int)
  {
    forall m :: m in masks ==> !(m.start < p < m.end)
  }

  /** A stretch in which no mask starts is copied. */
  lemma {:induction false} Verbatim(text: string, masks: seq<Mask>, p: nat, q: nat)
    requires Disjoint(masks) && p <= q <= |text|
    requires forall m :: m in masks ==> !(p <= m.start < q)
    ensures Masked(text, masks, p) == text[p..q] + Masked(text, masks, q)
    decreases q - p
  {
    if p < q {
      Verbatim(text, masks, p + 1, q);
      assert MaskAt(masks, p).None?;
      assert text[p..q] == [text[p]] + text[p + 1..q];
      hide Disjoint, MaskAt;
      assert Masked(text, masks, p) == [text[p]] + Masked(text, masks, p + 1);
    }
  }

  // ---------------------------------------------------------------- the loop, right to left

  /** The comparator: the greater start comes before. */
  function LaterFirst(): (Mask, Mask) -> bool { (a: Mask, b: Mask) => a.start >= b.start }

  function SortDown(masks: seq<Mask>): (r: seq<Mask>)
    ensures multiset(r) == multiset(masks)
  {
    Sort(masks, LaterFirst())
  }

  predicate Descending(masks: seq<Mask>)
  {
    forall i, j :: 0 <= i < j < |masks| ==> masks[i].start >= masks[j].start
  }

  lemma SortDescends(masks: seq<Mask>)
    ensures Descending(SortDown(masks))
  {
    SortSorted(masks, LaterFirst());
    var sorted := SortDown(masks);
    forall i, j | 0 <= i < j < |sorted| ensures sorted[i].start >= sorted[j].start {
      assert LaterFirst()(sorted[i], sorted[j]);
    }
  }

  /** The order of the masks is lost: a position has at most one. */
  lemma {:induction false} OrderFree(text: string, xs: seq<Mask>, ys: seq<Mask>, p: nat)
    requires Disjoint(xs) && Disjoint(ys) && forall m :: m in xs <==> m in ys
    ensures Masked(text, xs, p) == Masked(text, ys, p)
    decreases |text| - p
  {
    if p < |text| {
      SameAt(xs, ys, p);
      if MaskAt(xs, p).Some? {
        OrderFree(text, xs, ys, UpTo(MaskAt(xs, p).value.end, |text|));
      } else {
        OrderFree(text, xs, ys, p + 1);
      }
    }
  }

  lemma {:induction false} SameAt(xs: seq<Mask>, ys: seq<Mask>, p: int)
    requires Disjoint(ys) && forall m :: m in xs <==> m in ys
    ensures MaskAt(xs, p) == MaskAt(ys, p)
  {
    hide MaskAt;
    var at, bt := MaskAt(xs, p), MaskAt(ys, p);
    if at.Some? && bt.Some? {
      OneAt(ys, at.value, bt.value);
    }
  }

  lemma OneAt(masks: seq<Mask>, m: Mask, n: Mask)
    requires Disjoint(masks) && m in masks && n in masks && m.start == n.start
    ensures m == n
  {
  }

  lemma {:induction false} PermutedDisjoint(xs: seq<Mask>, ys: seq<Mask>)
    requires Disjoint(xs) && multiset(xs) == multiset(ys)
    ensures Disjoint(ys)
  {
    forall m | m in ys ensures 0 <= m.start < m.end {
      assert m in multiset(ys);
      assert m in xs;
    }
    forall i, j | 0 <= i < |ys| && 0 <= j < |ys| && i != j
      ensures ys[i].end <= ys[j].start || ys[j].end <= ys[i].start
    {
      var a, b := ys[i], ys[j];
      assert a in multiset(ys) && b in multiset(ys);
      var k :| 0 <= k < |xs| && xs[k] == a;
      if a == b {
        Twice(ys, if i < j then i else j, if i < j then j else i);
        TwiceIn(xs, k);
      } else {
        var l :| 0 <= l < |xs| && xs[l] == b;
      }
    }
  }

  lemma TwiceIn(xs: seq<Mask>, k: nat)
    requires Disjoint(xs) && k < |xs|
    ensures multiset(xs)[xs[k]] == 1
  {
    var m := xs[k];
    assert xs == xs[..k] + [m] + xs[k + 1..];
    assert m !in xs[..k] && m !in xs[k + 1..];
  }

  predicate Ranges(masks: seq<Mask>)
  {
    forall m :: m in masks ==> 0 <= m.start < m.end
  }

  /** The replacements one after another, each in the text the one before left. */
  function ApplyInOrder(masked: string, masks: seq<Mask>): string
    requires Ranges(masks)
    decreases |masks|
  {
    if masks == [] then masked
    else
      var m := masks[0];
      var next := if m.start >= |masked| then masked else masked[..m.start] + Marker(m.kind) + masked[UpTo(m.end, |masked|)..];
      ApplyInOrder(next, masks[1..])
  }

  lemma SortedRanges(masks: seq<Mask>)
    requires Ranges(masks)
    ensures Ranges(SortDown(masks))
  {
    SameElements(masks, SortDown(masks));
  }

  /** What the code makes of a text under any masks. */
  function Applied(text: string, masks: seq<Mask>): string
    requires Ranges(masks)
  {
    SortedRanges(masks);
    ApplyInOrder(text, SortDown(masks))
  }

  method ApplyMasks(text: string, masks: seq<Mask>) returns (masked: string)
    requires Ranges(masks)
    ensures masked == Applied(text, masks)
    ensures Disjoint(masks) ==> masked == Masked(text, masks, 0)
  {
    masked := text;
    var sorted := SortDown(masks);
    SortedRanges(masks);
    assert sorted[0..] == sorted;
    for k := 0 to |sorted|
      invariant Ranges(sorted[k..]) && ApplyInOrder(masked, sorted[k..]) == ApplyInOrder(text, sorted)
    {
      hide ApplyInOrder, Ranges, SortDown, Marker;
      var mask := sorted[k];
      OneMore(masked, sorted, k);
      if mask.start >= |masked| { continue; }
      masked := masked[..mask.start] + Marker(mask.kind) + masked[UpTo(mask.end, |masked|)..];
    }
    NoMore(masked, sorted);
    if Disjoint(masks) {
      ApplyDisjoint(text, masks);
    }
  }

  /** For disjoint masks the replacements, right to left, amount to one reading left to right. */
  lemma {:induction false} ApplyDisjoint(text: string, masks: seq<Mask>)
    requires Disjoint(masks)
    ensures Ranges(masks) && Applied(text, masks) == Masked(text, masks, 0)
  {
    hide Masked, ApplyInOrder, Disjoint, Ranges, SortDown;
    InRange(masks);
    SortDescends(masks);
    PermutedDisjoint(masks, SortDown(masks));
    InRange(SortDown(masks));
    ApplySorted(text, SortDown(masks));
    SameElements(masks, SortDown(masks));
    OrderFree(text, SortDown(masks), masks, 0);
  }

  lemma {:induction false} ApplySorted(text: string, sorted: seq<Mask>)
    requires Disjoint(sorted) && Descending(sorted)
    ensures Ranges(sorted) && ApplyInOrder(text, sorted) == Masked(text, sorted, 0)
  {
    hide *;
    NoneDone(text, sorted);
    InRange(sorted);
    ghost var b := |text|;
    ghost var masked := text;
    assert sorted[0..] == sorted;
    for k := 0 to |sorted|
      invariant 0 <= b <= |text|
      invariant Done(text, sorted, k, b, masked)
      invariant Ranges(sorted[k..]) && ApplyInOrder(masked, sorted[k..]) == ApplyInOrder(text, sorted)
    {
      ghost var mask := sorted[k];
      MaskStep(text, sorted, k, b, masked);
      OneMore(masked, sorted, k);
      if mask.start < |masked| {
        masked := masked[..mask.start] + Marker(mask.kind) + masked[UpTo(mask.end, |masked|)..];
        b := mask.start;
      }
    }
    AllDone(text, sorted, b, masked);
    NoMore(masked, sorted);
  }

  lemma InRange(masks: seq<Mask>)
    requires Disjoint(masks)
    ensures Ranges(masks)
  {
  }

  lemma {:induction false} OneMore(masked: string, sorted: seq<Mask>, k: nat)
    requires k < |sorted| && Ranges(sorted[k..])
    ensures Ranges(sorted[k + 1..])
    ensures var m := sorted[k];
      && 0 <= m.start < m.end
      && ApplyInOrder(masked, sorted[k..])
         == ApplyInOrder(if m.start >= |masked| then masked else masked[..m.start] + Marker(m.kind) + masked[UpTo(m.end, |masked|)..], sorted[k + 1..])
  {
    assert sorted[k..][1..] == sorted[k + 1..];
    assert sorted[k] in sorted[k..];
  }

  lemma {:induction false} NoMore(masked: string, sorted: seq<Mask>)
    requires Ranges(sorted[|sorted|..])
    ensures ApplyInOrder(masked, sorted[|sorted|..]) == masked
  {
  }

  /** Without disjointness the masks do not hide what they cover: a mask inside another shifts the outer one's end. */
  lemma OverlapUncovers(text: string)
    requires |text| == 14
    ensures var masks := [Mask("b", 0, 14, "k"), Mask("b", 2, 3, "k")];
      Ranges(masks) && Applied(text, masks) == Marker("k") + text[3..]
  {
    var outer, inner := Mask("b", 0, 14, "k"), Mask("b", 2, 3, "k");
    SortCons(outer, [inner], LaterFirst());
    SortCons(inner, [], LaterFirst());
    assert [outer, inner] == [outer] + [inner] && [inner] == [inner] + [];
    assert [inner][1..] == [];
    assert SortDown([outer, inner]) == [inner, outer];
    var once := text[..2] + Marker("k") + text[3..];
    assert once[..0] == "" && once[14..] == text[3..];
    assert [inner, outer][1..] == [outer] && [outer][1..] == [];
    assert ApplyInOrder(once, [outer]) == ApplyInOrder(Marker("k") + text[3..], []);
  }

  lemma NoneDone(text: string, sorted: seq<Mask>)
    requires Disjoint(sorted)
    ensures Done(text, sorted, 0, |text|, text)
  {
    assert text[..|text|] == text;
  }

  lemma {:induction false} AllDone(text: string, sorted: seq<Mask>, b: nat, masked: string)
    requires Disjoint(sorted) && b <= |text| && Done(text, sorted, |sorted|, b, masked)
    ensures masked == Masked(text, sorted, 0)
  {
    hide Masked;
    forall m | m in sorted ensures !(0 <= m.start < b) {
      var i :| 0 <= i < |sorted| && sorted[i] == m;
    }
    Verbatim(text, sorted, 0, b);
  }

  /** The first `k` masks are applied, and nothing has changed before `b`, where the last of them starts. */
  predicate Done(text: string, sorted: seq<Mask>, k: nat, b: nat, masked: string)
    requires Disjoint(sorted) && k <= |sorted| && b <= |text|
  {
    && masked == text[..b] + Masked(text, sorted, b)
    && (forall i :: 0 <= i < k ==> sorted[i].start >= b)
    && (b < |text| ==> exists i :: 0 <= i < k && sorted[i].start == b)
  }

  /** Where the next mask lies: past the text, or wholly before `b` but for what reaches past the text. */
  lemma {:induction false} NextLies(text: string, sorted: seq<Mask>, k: nat, b: nat)
    requires Disjoint(sorted) && Descending(sorted) && k < |sorted| && b <= |text|
    requires forall i :: 0 <= i < k ==> sorted[i].start >= b
    requires b < |text| ==> exists i :: 0 <= i < k && sorted[i].start == b
    ensures b < |text| ==> sorted[k].end <= b && MaskAt(sorted, b).Some?
    ensures forall n :: n in sorted ==> !(sorted[k].end <= n.start < b)
    ensures MaskAt(sorted, sorted[k].start) == Some(sorted[k])
  {
    hide MaskAt;
    var m := sorted[k];
    OneAt(sorted, m, MaskAt(sorted, m.start).value);
    forall n | n in sorted ensures !(m.end <= n.start < b) {
      var j :| 0 <= j < |sorted| && sorted[j] == n;
    }
  }

  lemma Splice(text: string, marker: string, rest: string, start: nat, e: nat, b: nat)
    requires start <= e <= b <= |text|
    ensures var masked := text[..b] + rest;
      masked[..start] + marker + masked[e..] == text[..start] + (marker + (text[e..b] + rest))
  {
    var masked := text[..b] + rest;
    assert masked[..start] == text[..start];
    assert masked[e..] == text[e..b] + rest;
  }

  /** What the text reads as from where the next mask starts. */
  lemma {:induction false} FromNext(text: string, sorted: seq<Mask>, k: nat, b: nat)
    requires Disjoint(sorted) && Descending(sorted) && k < |sorted| && b <= |text|
    requires forall i :: 0 <= i < k ==> sorted[i].start >= b
    requires b < |text| ==> exists i :: 0 <= i < k && sorted[i].start == b
    requires sorted[k].start < b
    ensures var m := sorted[k];
      var e := UpTo(m.end, b);
      Masked(text, sorted, m.start) == Marker(m.kind) + (text[e..b] + Masked(text, sorted, b))
  {
    NextLies(text, sorted, k, b);
    Verbatim(text, sorted, UpTo(sorted[k].end, b), b);
  }

  /** One mask of the loop. */
  lemma MaskStep(text: string, sorted: seq<Mask>, k: nat, b: nat, masked: string)
    requires Disjoint(sorted) && Descending(sorted) && k < |sorted| && b <= |text|
    requires Done(text, sorted, k, b, masked)
    ensures 0 <= sorted[k].start < sorted[k].end
    ensures sorted[k].start >= |masked| ==> Done(text, sorted, k + 1, b, masked)
    ensures sorted[k].start < |masked| ==>
      && sorted[k].start <= UpTo(sorted[k].end, |masked|) && sorted[k].start < |text|
      && Done(text, sorted, k + 1, sorted[k].start,
              masked[..sorted[k].start] + Marker(sorted[k].kind) + masked[UpTo(sorted[k].end, |masked|)..])
  {
    hide Masked, Disjoint, Descending, MaskAt, Marker;
    var m := sorted[k];
    Positive(sorted, k);
    NextLies(text, sorted, k, b);
    var rest := Masked(text, sorted, b);
    AtEnd(text, sorted, b);
    if m.start < |masked| {
      assert m.start < b;
      FromNext(text, sorted, k, b);
      Splice(text, Marker(m.kind), rest, m.start, UpTo(m.end, b), b);
    }
  }

  lemma Positive(masks: seq<Mask>, k: nat)
    requires Disjoint(masks) && k < |masks|
    ensures 0 <= masks[k].start < masks[k].end
  {
    assert masks[k] in masks;
  }

  lemma {:induction false} AtEnd(text: string, masks: seq<Mask>, b: nat)
    requires Disjoint(masks) && b <= |text|
    ensures b == |text| <==> Masked(text, masks, b) == ""
  {
  }
}
