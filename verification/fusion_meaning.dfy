/** What a fused score is made of, place by place. */
module FusionMeaning {
  import opened Wrappers
  import opened Fusion

  // ---------------------------------------------------------------- scores

  /** The places of an id in one list, the first place being `from`. */
  function PlacesFrom(list: seq<Candidate>, id: int, from: nat): seq<nat>
    decreases |list|
  {
    if list == [] then [] else (if list[0].id == id then [from] else []) + PlacesFrom(list[1..], id, from + 1)
  }

  /** Its places in each list, one list after another. */
  function Places(lists: seq<seq<Candidate>>, id: int): seq<nat>
    decreases |lists|
  {
    if lists == [] then [] else PlacesFrom(lists[0], id, 0) + Places(lists[1..], id)
  }

  /** One over sixty-one for a first place, one over sixty-two for a second, and so on. */
  function Reciprocals(places: seq<nat>): real
  {
    if places == [] then 0.0 else 1.0 / (61 + places[0]) as real + Reciprocals(places[1..])
  }

  lemma {:induction false} ReciprocalsConcat(a: seq<nat>, b: seq<nat>)
    ensures Reciprocals(a + b) == Reciprocals(a) + Reciprocals(b)
  {
    if a == [] {
      assert a + b == b;
    } else {
      assert (a + b)[1..] == a[1..] + b;
      ReciprocalsConcat(a[1..], b);
    }
  }

  lemma {:induction false} PlacesLast(list: seq<Candidate>, id: int, from: nat)
    requires list != []
    ensures var n := |list| - 1;
      PlacesFrom(list, id, from) == PlacesFrom(list[..n], id, from) + if list[n].id == id then [from + n] else []
    decreases |list|
  {
    var n := |list| - 1;
    if n > 0 {
      PlacesLast(list[1..], id, from + 1);
      assert list[1..][..n - 1] == list[..n][1..];
    }
  }

  lemma {:induction false} ScoreInList(list: seq<Candidate>, id: int)
    ensures ScoreIn(list, id) == Reciprocals(PlacesFrom(list, id, 0))
  {
    if list != [] {
      var n := |list| - 1;
      ScoreInList(list[..n], id);
      PlacesLast(list, id, 0);
      ReciprocalsConcat(PlacesFrom(list[..n], id, 0), if list[n].id == id then [n] else []);
      OneReciprocal(n);
    }
  }

  lemma OneReciprocal(n: nat)
    ensures Reciprocals([n]) == 1.0 / (61 + n) as real == Weight(n) && Reciprocals([]) == 0.0
  {
    assert [n][1..] == [];
  }

  lemma {:induction false} PlacesLastList(lists: seq<seq<Candidate>>, id: int)
    requires lists != []
    ensures Places(lists, id) == Places(lists[..|lists| - 1], id) + PlacesFrom(lists[|lists| - 1], id, 0)
    decreases |lists|
  {
    var n := |lists| - 1;
    if n > 0 {
      PlacesLastList(lists[1..], id);
      assert lists[1..][..n - 1] == lists[..n][1..];
    } else {
      assert lists[1..] == [] && lists[..0] == [];
    }
  }

  lemma {:induction false} ScoreIsPlaces(lists: seq<seq<Candidate>>, id: int)
    ensures Score(lists, id) == Reciprocals(Places(lists, id))
  {
    if lists != [] {
      var n := |lists| - 1;
      ScoreIsPlaces(lists[..n], id);
      ScoreInList(lists[n], id);
      PlacesLastList(lists, id);
      ReciprocalsConcat(Places(lists[..n], id), PlacesFrom(lists[n], id, 0));
    }
  }

  /** Nothing before it, in its own list or an earlier one, has its id. */
  predicate SeenFirst(lists: seq<seq<Candidate>>, l: nat, k: nat)
    requires l < |lists| && k < |lists[l]|
  {
    && (forall m, j :: 0 <= m < l && 0 <= j < |lists[m]| ==> lists[m][j].id != lists[l][k].id)
    && (forall j :: 0 <= j < k ==> lists[l][j].id != lists[l][k].id)
  }

  lemma {:induction false} FirstInPlace(list: seq<Candidate>, id: int) returns (k: nat)
    requires FirstIn(list, id).Some?
    ensures k < |list| && list[k] == FirstIn(list, id).value && forall j :: 0 <= j < k ==> list[j].id != id
  {
    var n := |list| - 1;
    if FirstIn(list[..n], id).Some? {
      k := FirstInPlace(list[..n], id);
    } else {
      k := n;
      assert forall j :: 0 <= j < n ==> list[j] == list[..n][j];
    }
  }

  lemma {:induction false} FirstPlace(lists: seq<seq<Candidate>>, id: int) returns (l: nat, k: nat)
    requires First(lists, id).Some?
    ensures l < |lists| && k < |lists[l]| && lists[l][k] == First(lists, id).value && SeenFirst(lists, l, k)
  {
    var n := |lists| - 1;
    if First(lists[..n], id).Some? {
      l, k := FirstPlace(lists[..n], id);
    } else {
      l := n;
      k := FirstInPlace(lists[n], id);
      forall m, j | 0 <= m < n && 0 <= j < |lists[m]| ensures lists[m][j].id != id {
        NotFirst(lists[..n], id, m, j);
      }
    }
  }

  lemma {:induction false} NotFirst(lists: seq<seq<Candidate>>, id: int, m: nat, j: nat)
    requires First(lists, id).None? && m < |lists| && j < |lists[m]|
    ensures lists[m][j].id != id
  {
    var n := |lists| - 1;
    if m < n {
      NotFirst(lists[..n], id, m, j);
    }
  }

  lemma {:induction false} FirstIsThere(lists: seq<seq<Candidate>>, m: nat, j: nat)
    requires m < |lists| && j < |lists[m]|
    ensures First(lists, lists[m][j].id).Some?
  {
    var n := |lists| - 1;
    if m < n {
      FirstIsThere(lists[..n], m, j);
    }
  }

  /** Every candidate is the first of its id, and scored by the places of that id, all of them. */
  lemma {:induction false} FusedExact(lists: seq<seq<Candidate>>, out: seq<Scored>, i: nat)
    requires IsFusion(lists, out) && i < |out|
    ensures out[i].score == Reciprocals(Places(lists, out[i].candidate.id))
    ensures exists l, k :: 0 <= l < |lists| && 0 <= k < |lists[l]| && lists[l][k] == out[i].candidate && SeenFirst(lists, l, k)
  {
    ScoreIsPlaces(lists, out[i].candidate.id);
    assert out[i].candidate.id in Ids(out);
    hide SeenFirst;
    var l, k := FirstPlace(lists, out[i].candidate.id);
  }

  predicate Distinct(list: seq<Candidate>)
  {
    forall i, j :: 0 <= i < j < |list| ==> list[i].id != list[j].id
  }

  lemma {:induction false} OnlyPlace(list: seq<Candidate>, from: nat, k: nat)
    requires Distinct(list) && k < |list|
    ensures PlacesFrom(list, list[k].id, from) == [from + k]
    decreases |list|
  {
    if k > 0 {
      OnlyPlace(list[1..], from + 1, k - 1);
    } else {
      NoPlace(list[1..], list[0].id, from + 1);
    }
  }

  lemma {:induction false} NoPlace(list: seq<Candidate>, id: int, from: nat)
    requires forall c :: c in list ==> c.id != id
    ensures PlacesFrom(list, id, from) == []
    decreases |list|
  {
    if list != [] {
      NoPlace(list[1..], id, from + 1);
    }
  }

  /** Fusing one list without repeats keeps its order, and scores place `k` one over `61 + k`. */
  lemma OneList(list: seq<Candidate>, out: seq<Scored>)
    requires Distinct(list) && IsFusion([list], out)
    ensures |out| == |list| && forall k :: 0 <= k < |list| ==> out[k] == Scored(list[k], 1.0 / (61 + k) as real)
  {
    var alone := seq(|list|, k requires 0 <= k < |list| => Scored(list[k], 1.0 / (61 + k) as real));
    forall k | 0 <= k < |list| ensures alone[k] == Fusion.Entry([list], list[k].id) && First([list], list[k].id).Some? {
      AloneEntry(list, k);
    }
    AloneRanked(alone);
    AloneIds(list, alone);
    hide Fusion.Entry, Score, First, Ranked;
    FusionUnique([list], out, alone);
  }

  lemma AloneEntry(list: seq<Candidate>, k: nat)
    requires Distinct(list) && k < |list|
    ensures First([list], list[k].id) == Some(list[k])
    ensures Fusion.Entry([list], list[k].id) == Scored(list[k], 1.0 / (61 + k) as real)
  {
    OnlyPlace(list, 0, k);
    ScoreIsPlaces([list], list[k].id);
    assert [list][1..] == [] && Places([], list[k].id) == [];
    assert Places([list], list[k].id) == [k];
    OneReciprocal(k);
    FirstIsThere([list], 0, k);
    var l, j := FirstPlace([list], list[k].id);
  }

  lemma AloneRanked(alone: seq<Scored>)
    requires forall k :: 0 <= k < |alone| ==> alone[k].score == 1.0 / (61 + k) as real
    ensures Ranked(alone)
  {
    forall i, j | 0 <= i < j < |alone| ensures Before(alone[i], alone[j]) {
      Falls(61 + i, 61 + j);
    }
  }

  lemma Falls(m: int, n: int)
    requires 0 < m < n
    ensures 1.0 / m as real > 1.0 / n as real
  {
    var x, y := 1.0 / m as real, 1.0 / n as real;
    assert x * m as real == 1.0 && y * n as real == 1.0;
    Less(x, y, m as real, n as real);
  }

  lemma Less(x: real, y: real, a: real, b: real)
    requires x * a == 1.0 && y * b == 1.0 && 0.0 < a < b
    ensures x > y
  {
    assert y > 0.0;
    assert y * a < y * b;
    assert (x - y) * a > 0.0;
  }

  lemma AloneIds(list: seq<Candidate>, alone: seq<Scored>)
    requires |alone| == |list| && forall k :: 0 <= k < |list| ==> alone[k].candidate == list[k] && First([list], list[k].id).Some?
    ensures forall id :: id in Ids(alone) <==> First([list], id).Some?
  {
    forall id ensures id in Ids(alone) <==> First([list], id).Some? {
      if First([list], id).Some? {
        var l, k := FirstPlace([list], id);
        assert alone[k] in alone;
      }
    }
  }
}
