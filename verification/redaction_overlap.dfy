/** Which characters of a text survive its masks, overlapping or not, and when a covered one does. */
module RedactionOverlap {
  import opened Wrappers
  import opened Sorting
  import opened Redaction

  // ---------------------------------------------------------------- where each character comes from

  /** A character of a masked text: one of the original, by its position, or one of a marker. */
  type Cell = Option<nat>

  function Positions(n: nat): (cells: seq<Cell>)
    ensures |cells| == n && forall p :: 0 <= p < n ==> cells[p] == Some(p)
  {
    seq(n, p requires 0 <= p < n => Some(p))
  }

  function MarkerCells(kind: string): (cells: seq<Cell>)
    ensures |cells| == |Marker(kind)| && forall i :: 0 <= i < |cells| ==> cells[i] == None
  {
    seq(|Marker(kind)|, _ => None)
  }

  /** One replacement, in a text or in its cells. */
  function Replaced<T>(xs: seq<T>, m: Mask, marker: seq<T>): seq<T>
    requires 0 <= m.start < m.end
  {
    if m.start >= |xs| then xs else xs[..m.start] + marker + xs[UpTo(m.end, |xs|)..]
  }

  /** The replacements of `ApplyInOrder`, made on cells. */
  function Traced(cells: seq<Cell>, masks: seq<Mask>): seq<Cell>
    requires Ranges(masks)
    decreases |masks|
  {
    if masks == [] then cells else Traced(Replaced(cells, masks[0], MarkerCells(masks[0].kind)), masks[1..])
  }

  /** The cells say truly where the characters are from. */
  predicate Describes(cells: seq<Cell>, masked: string, text: string)
  {
    && |cells| == |masked|
    && forall k :: 0 <= k < |cells| && cells[k].Some? ==> cells[k].value < |text| && masked[k] == text[cells[k].value]
  }

  lemma {:induction false} TracedDescribes(cells: seq<Cell>, masked: string, text: string, masks: seq<Mask>)
    requires Ranges(masks) && Describes(cells, masked, text)
    ensures Describes(Traced(cells, masks), ApplyInOrder(masked, masks), text)
    decreases |masks|
  {
    if masks != [] {
      var m := masks[0];
      ReplacedDescribes(cells, masked, text, m);
      hide Describes, Replaced, Marker;
      assert ApplyInOrder(masked, masks) == ApplyInOrder(Replaced(masked, m, Marker(m.kind)), masks[1..]) by { ReplacedIs(masked, m); }
      TracedDescribes(Replaced(cells, m, MarkerCells(m.kind)), Replaced(masked, m, Marker(m.kind)), text, masks[1..]);
    }
  }

  lemma ReplacedIs(masked: string, m: Mask)
    requires 0 <= m.start < m.end
    ensures Replaced(masked, m, Marker(m.kind))
      == if m.start >= |masked| then masked else masked[..m.start] + Marker(m.kind) + masked[UpTo(m.end, |masked|)..]
  {
  }

  /** A cell that is not a marker's lies before or behind it. */
  lemma InMiddle(before: seq<Cell>, marker: seq<Cell>, behind: seq<Cell>, k: nat)
    requires (forall i :: 0 <= i < |marker| ==> marker[i] == None) && k < |before + marker + behind| && (before + marker + behind)[k].Some?
    ensures k < |before| || |before| + |marker| <= k
  {
    var cells := before + marker;
    assert forall i :: |before| <= i < |cells| ==> cells[i] == None;
  }

  lemma ReplacedDescribes(cells: seq<Cell>, masked: string, text: string, m: Mask)
    requires 0 <= m.start < m.end && Describes(cells, masked, text)
    ensures Describes(Replaced(cells, m, MarkerCells(m.kind)), Replaced(masked, m, Marker(m.kind)), text)
  {
    hide Marker;
    var marker := MarkerCells(m.kind);
    if m.start < |cells| {
      var e := UpTo(m.end, |cells|);
      var xs, ys := cells[..m.start] + marker + cells[e..], masked[..m.start] + Marker(m.kind) + masked[e..];
      forall k | 0 <= k < |xs| && xs[k].Some? ensures xs[k].value < |text| && ys[k] == text[xs[k].value] {
        InMiddle(cells[..m.start], marker, cells[e..], k);
      }
    }
  }

  /** The character at `p` is still in the masked text. */
  predicate Shown(text: string, masks: seq<Mask>, p: nat)
    requires Ranges(masks)
  {
    SortedRanges(masks);
    Some(p) in Traced(Positions(|text|), SortDown(masks))
  }

  /** A shown position is a character of the result, at some index, and it is the one of the text. */
  lemma ShownIsThere(text: string, masks: seq<Mask>, p: nat)
    requires Ranges(masks) && Shown(text, masks, p)
    ensures p < |text| && exists k :: 0 <= k < |Applied(text, masks)| && Applied(text, masks)[k] == text[p]
  {
    SortedRanges(masks);
    TracedDescribes(Positions(|text|), text, text, SortDown(masks));
    var cells := Traced(Positions(|text|), SortDown(masks));
    var k :| 0 <= k < |cells| && cells[k] == Some(p);
    assert Applied(text, masks)[k] == text[p];
  }

  // ---------------------------------------------------------------- the condition

  /** How far the first `k` masks have moved the character at `p`. */
  function Shift(sorted: seq<Mask>, k: nat, p: nat): int
    requires k <= |sorted|
  {
    if k == 0 then 0
    else
      var m := sorted[k - 1];
      Shift(sorted, k - 1, p) + if m.start <= p then |Marker(m.kind)| - (m.end - m.start) else 0
  }

  /** Each of the first `k` masks, when its turn comes, ends before where `p` has moved to. */
  predicate Escapes(sorted: seq<Mask>, k: nat, p: nat)
    requires k <= |sorted|
  {
    forall i :: 0 <= i < k && sorted[i].start <= p ==> sorted[i].end <= p + Shift(sorted, i, p)
  }

  lemma {:induction false} Unmoved(sorted: seq<Mask>, k: nat, p: nat)
    requires k <= |sorted| && forall i :: 0 <= i < k ==> p < sorted[i].start
    ensures Shift(sorted, k, p) == 0
  {
    if k > 0 {
      Unmoved(sorted, k - 1, p);
    }
  }

  /** A character that escaped stays behind every start at or before it. */
  lemma {:induction false} StaysBehind(sorted: seq<Mask>, k: nat, p: nat, v: nat)
    requires k <= |sorted| && Escapes(sorted, k, p) && v <= p && forall i :: 0 <= i < k ==> v <= sorted[i].start
    ensures p + Shift(sorted, k, p) >= v
  {
    if k > 0 {
      hide Marker;
      StaysBehind(sorted, k - 1, p, v);
    }
  }

  /** After the first `k` masks: exactly the characters that escaped them, each where its shift says. */
  ghost predicate Placed(sorted: seq<Mask>, k: nat, n: nat, cells: seq<Cell>)
    requires k <= |sorted|
  {
    && (forall p :: 0 <= p < n && Escapes(sorted, k, p) ==> CellAt(cells, p + Shift(sorted, k, p), p))
    && (forall x :: 0 <= x < |cells| && cells[x].Some? ==>
          var p := cells[x].value; p < n && Escapes(sorted, k, p) && x == p + Shift(sorted, k, p))
  }

  predicate CellAt(cells: seq<Cell>, x: int, p: nat)
  {
    0 <= x < |cells| && cells[x] == Some(p)
  }

  lemma EscapesNext(sorted: seq<Mask>, k: nat, p: nat)
    requires k < |sorted|
    ensures Escapes(sorted, k + 1, p) <==> Escapes(sorted, k, p) && (sorted[k].start <= p ==> sorted[k].end <= p + Shift(sorted, k, p))
  {
  }

  lemma PlacedForward(sorted: seq<Mask>, k: nat, n: nat, cells: seq<Cell>, p: nat)
    requires Descending(sorted) && k < |sorted| && 0 <= sorted[k].start < sorted[k].end && Placed(sorted, k, n, cells)
    requires p < n && Escapes(sorted, k + 1, p)
    ensures CellAt(Replaced(cells, sorted[k], MarkerCells(sorted[k].kind)), p + Shift(sorted, k + 1, p), p)
  {
    hide Marker, Escapes;
    EscapesNext(sorted, k, p);
    if p < sorted[k].start {
      Unmoved(sorted, k, p);
    }
  }

  lemma {:induction false} PlacedBack(sorted: seq<Mask>, k: nat, n: nat, cells: seq<Cell>, x: nat)
    requires Descending(sorted) && k < |sorted| && 0 <= sorted[k].start < sorted[k].end && Placed(sorted, k, n, cells)
    requires var next := Replaced(cells, sorted[k], MarkerCells(sorted[k].kind)); x < |next| && next[x].Some?
    ensures var p := Replaced(cells, sorted[k], MarkerCells(sorted[k].kind))[x].value;
      p < n && Escapes(sorted, k + 1, p) && x == p + Shift(sorted, k + 1, p)
  {
    var m := sorted[k];
    var marker := MarkerCells(m.kind);
    var next := Replaced(cells, m, marker);
    hide Marker, Escapes;
    if m.start >= |cells| || x < m.start {
      assert next[x] == cells[x];
      var p := cells[x].value;
      if m.start <= p {
        StaysBehind(sorted, k, p, m.start);
      }
      EscapesNext(sorted, k, p);
    } else {
      var e := UpTo(m.end, |cells|);
      InMiddle(cells[..m.start], marker, cells[e..], x);
      var y := x - |marker| - m.start + e;
      assert next[x] == cells[y];
      var p := cells[y].value;
      if p < m.start {
        Unmoved(sorted, k, p);
      }
      EscapesNext(sorted, k, p);
    }
  }

  lemma {:induction false} TracedPlaced(sorted: seq<Mask>, k: nat, n: nat, cells: seq<Cell>)
    requires Ranges(sorted) && Descending(sorted) && k <= |sorted| && Placed(sorted, k, n, cells)
    ensures Ranges(sorted[k..]) && Placed(sorted, |sorted|, n, Traced(cells, sorted[k..]))
    decreases |sorted| - k
  {
    if k < |sorted| {
      var m := sorted[k];
      var next := Replaced(cells, m, MarkerCells(m.kind));
      var done := k + 1;
      assert Placed(sorted, done, n, next) by {
        hide Replaced, Escapes, Marker;
        forall p | 0 <= p < n && Escapes(sorted, done, p) ensures CellAt(next, p + Shift(sorted, done, p), p) {
          PlacedForward(sorted, k, n, cells, p);
        }
        forall x | 0 <= x < |next| && next[x].Some?
          ensures var p := next[x].value; p < n && Escapes(sorted, done, p) && x == p + Shift(sorted, done, p)
        {
          PlacedBack(sorted, k, n, cells, x);
        }
      }
      hide Placed, Replaced;
      TracedPlaced(sorted, done, n, next);
      assert sorted[k..][1..] == sorted[done..];
    }
  }

  /** A character survives its masks, whatever they overlap, exactly when it escapes each in turn. */
  lemma SurvivalExact(text: string, masks: seq<Mask>, p: nat)
    requires Ranges(masks) && p < |text|
    ensures Shown(text, masks, p) <==> Escapes(SortDown(masks), |SortDown(masks)|, p)
  {
    var sorted := SortDown(masks);
    SortedRanges(masks);
    SortDescends(masks);
    SameElements(sorted, masks);
    NothingMoved(sorted, |text|);
    hide Escapes, Shift;
    TracedPlaced(sorted, 0, |text|, Positions(|text|));
    assert sorted[0..] == sorted;
  }

  lemma NothingMoved(sorted: seq<Mask>, n: nat)
    ensures Placed(sorted, 0, n, Positions(n))
  {
  }

  // ---------------------------------------------------------------- what that means for a review

  /** Disjoint masks hide exactly what they cover. */
  lemma DisjointExact(text: string, masks: seq<Mask>, p: nat)
    requires Disjoint(masks) && p < |text|
    ensures Ranges(masks) && (Shown(text, masks, p) <==> !Covered(masks, p))
  {
    InRange(masks);
    var sorted := SortDown(masks);
    SortDescends(masks);
    SameElements(sorted, masks);
    PermutedDisjoint(masks, sorted);
    hide *;
    SurvivalExact(text, masks, p);
    CoveredAlike(masks, sorted, p);
    if Covered(sorted, p) {
      CoveredCaught(sorted, p);
    } else {
      UncoveredEscapes(sorted, |sorted|, p);
    }
  }

  lemma CoveredAlike(xs: seq<Mask>, ys: seq<Mask>, p: nat)
    requires forall m :: m in xs <==> m in ys
    ensures Covered(xs, p) <==> Covered(ys, p)
  {
  }

  /** What covers a character catches it where it was: nothing that starts later has moved it. */
  lemma CoveredCaught(sorted: seq<Mask>, p: nat)
    requires Disjoint(sorted) && Descending(sorted) && Covered(sorted, p)
    ensures !Escapes(sorted, |sorted|, p)
  {
    hide Marker;
    var m :| m in sorted && m.start <= p < m.end;
    var k :| 0 <= k < |sorted| && sorted[k] == m;
    Unmoved(sorted, k, p);
  }

  lemma {:induction false} UncoveredEscapes(sorted: seq<Mask>, k: nat, p: nat)
    requires Disjoint(sorted) && Descending(sorted) && k <= |sorted|
    requires !Covered(sorted, p)
    ensures Escapes(sorted, k, p)
  {
    if k > 0 {
      UncoveredEscapes(sorted, k - 1, p);
      var m := sorted[k - 1];
      assert m in sorted;
      if m.start <= p {
        forall i | 0 <= i < k - 1 ensures m.end <= sorted[i].start {
          assert sorted[i] in sorted;
        }
        StaysBehind(sorted, k - 1, p, m.end);
      }
      EscapesNext(sorted, k - 1, p);
    }
  }

  /** Some covered character is still there. */
  ghost predicate ShowsCovered(text: string, masks: seq<Mask>)
    requires Ranges(masks)
  {
    exists p: nat :: p < |text| && Covered(masks, p) && Shown(text, masks, p)
  }

  /** Some character no mask covers is gone. */
  ghost predicate LosesUncovered(text: string, masks: seq<Mask>)
    requires Ranges(masks)
  {
    exists p: nat :: p < |text| && !Covered(masks, p) && !Shown(text, masks, p)
  }

  /** `i` is replaced first, then `j`, which starts no later and reaches into it. */
  predicate Overlap(text: string, masks: seq<Mask>, i: Mask, j: Mask)
  {
    Ranges(masks) && SortDown(masks) == [i, j] && j.start <= i.start < j.end && i.start < |text|
  }

  lemma TwoEscape(i: Mask, j: Mask, p: nat)
    ensures Escapes([i, j], 2, p) <==>
      && (i.start <= p ==> i.end <= p)
      && (j.start <= p ==> j.end <= p + if i.start <= p then |Marker(i.kind)| - (i.end - i.start) else 0)
  {
    hide Marker;
    assert Shift([i, j], 0, p) == 0;
    assert Shift([i, j], 1, p) == if i.start <= p then |Marker(i.kind)| - (i.end - i.start) else 0;
    EscapesNext([i, j], 0, p);
    EscapesNext([i, j], 1, p);
  }

  lemma TwoShown(text: string, masks: seq<Mask>, i: Mask, j: Mask, p: nat)
    requires Overlap(text, masks, i, j) && p < |text|
    ensures 0 <= i.start < i.end && 0 <= j.start < j.end
    ensures Covered(masks, p) <==> i.start <= p < i.end || j.start <= p < j.end
    ensures Shown(text, masks, p) <==>
      p < j.start || (i.end <= p && j.end <= p + |Marker(i.kind)| - (i.end - i.start))
  {
    SameElements(SortDown(masks), masks);
    assert i in [i, j] && j in [i, j];
    hide SortDown, Shown, Marker;
    SurvivalExact(text, masks, p);
    TwoEscape(i, j, p);
  }

  /** Two overlapping masks show a covered character exactly when the last one the outer covers is moved past its end. */
  lemma OverlapShowsExact(text: string, masks: seq<Mask>, i: Mask, j: Mask)
    requires Overlap(text, masks, i, j)
    ensures var last := UpTo(j.end, |text|) - 1;
      ShowsCovered(text, masks) <==> i.end <= last && j.end <= last + |Marker(i.kind)| - (i.end - i.start)
  {
    TwoShown(text, masks, i, j, i.start);
    hide Overlap, Shown, Marker, Covered;
    var last := UpTo(j.end, |text|) - 1;
    if ShowsCovered(text, masks) {
      var p: nat :| p < |text| && Covered(masks, p) && Shown(text, masks, p);
      TwoShown(text, masks, i, j, p);
    }
    if i.end <= last && j.end <= last + |Marker(i.kind)| - (i.end - i.start) {
      TwoShown(text, masks, i, j, last);
    }
  }

  /** Inside the text: exactly when the outer mask ends later and the inner one is shorter than its own marker. */
  lemma OverlapInsideExact(text: string, masks: seq<Mask>, i: Mask, j: Mask)
    requires Overlap(text, masks, i, j) && j.end <= |text|
    ensures ShowsCovered(text, masks) <==> i.end < j.end && i.end - i.start < |Marker(i.kind)|
  {
    hide Marker, ShowsCovered;
    OverlapShowsExact(text, masks, i, j);
  }

  /** And they swallow an uncovered character exactly when the first one behind both is moved before the outer end. */
  lemma OverlapLosesExact(text: string, masks: seq<Mask>, i: Mask, j: Mask)
    requires Overlap(text, masks, i, j)
    ensures var first := if i.end <= j.end then j.end else i.end;
      LosesUncovered(text, masks) <==> first < |text| && first + |Marker(i.kind)| - (i.end - i.start) < j.end
  {
    TwoShown(text, masks, i, j, i.start);
    hide Overlap, Shown, Marker, Covered;
    var first := if i.end <= j.end then j.end else i.end;
    if LosesUncovered(text, masks) {
      var p: nat :| p < |text| && !Covered(masks, p) && !Shown(text, masks, p);
      TwoShown(text, masks, i, j, p);
    }
    if first < |text| && first + |Marker(i.kind)| - (i.end - i.start) < j.end {
      TwoShown(text, masks, i, j, first);
    }
  }
}
