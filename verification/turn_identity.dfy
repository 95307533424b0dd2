/**
 * Turn ids across an archive. Captured ids can repeat between sessions; one that
 * another session holds is exchanged for an id made of it and of the session.
 */
module TurnIdentity {
  import opened Wrappers

  /** `Derived` is injective, as a hash of both parts is; `Minted` ids are handed out once. */
  datatype Id = Native(n: nat) | Derived(session: nat, of: Id) | Minted(n: nat)

  datatype Turn = Turn(id: Id, parent: Option<Id>)

  function IdsOf(turns: seq<Turn>): set<Id>
  {
    set t | t in turns :: t.id
  }

  predicate DistinctIds(turns: seq<Turn>)
  {
    forall i, j :: 0 <= i < j < |turns| ==> turns[i].id != turns[j].id
  }

  // ---------------------------------------------------------------- scoping

  function Rename(session: nat, ids: set<Id>, taken: set<Id>, id: Id): Id
  {
    if id in ids && id in taken then Derived(session, id) else id
  }

  function RenameParent(session: nat, ids: set<Id>, taken: set<Id>, parent: Option<Id>): Option<Id>
  {
    if parent.Some? then Some(Rename(session, ids, taken, parent.value)) else None
  }

  function Scope(session: nat, turns: seq<Turn>, taken: set<Id>): (r: seq<Turn>)
    ensures |r| == |turns|
    ensures forall i :: 0 <= i < |turns| ==>
      r[i] == Turn(Rename(session, IdsOf(turns), taken, turns[i].id), RenameParent(session, IdsOf(turns), taken, turns[i].parent))
  {
    seq(|turns|, i requires 0 <= i < |turns| =>
      Turn(Rename(session, IdsOf(turns), taken, turns[i].id), RenameParent(session, IdsOf(turns), taken, turns[i].parent)))
  }

  method ScopeCollidingTurns(session: nat, turns: seq<Turn>, takenElsewhere: set<Id>) returns (scoped: seq<Turn>)
    ensures scoped == Scope(session, turns, takenElsewhere)
  {
    if takenElsewhere == {} { return turns; }
    var rescoped: map<Id, Id> := map[];
    for i := 0 to |turns|
      invariant forall id :: id in rescoped <==> id in IdsOf(turns[..i]) && id in takenElsewhere
      invariant forall id :: id in rescoped ==> rescoped[id] == Derived(session, id)
    {
      assert IdsOf(turns[..i + 1]) == IdsOf(turns[..i]) + {turns[i].id} by {
        assert turns[..i + 1] == turns[..i] + [turns[i]];
      }
      if turns[i].id in takenElsewhere {
        rescoped := rescoped[turns[i].id := Derived(session, turns[i].id)];
      }
    }
    assert turns[..|turns|] == turns;
    if |rescoped| == 0 { return turns; }
    var remap := (id: Id) => if id in rescoped then rescoped[id] else id;
    scoped := seq(|turns|, i requires 0 <= i < |turns| =>
      Turn(remap(turns[i].id), if turns[i].parent.Some? then Some(remap(turns[i].parent.value)) else None));
  }

  // ---------------------------------------------------------------- the parent forest

  /** No captured id or parent is the one this session would derive from another of its ids. */
  predicate Underived(session: nat, turns: seq<Turn>)
  {
    forall t, u :: t in turns && u in turns ==> t.id != Derived(session, u.id) && t.parent != Some(Derived(session, u.id))
  }

  /** One turn is another's parent after scoping exactly when it was before, and a parent outside the session stays what it was. */
  lemma ForestKept(session: nat, turns: seq<Turn>, taken: set<Id>, i: nat, j: nat)
    requires DistinctIds(turns) && Underived(session, turns)
    requires i < |turns| && j < |turns|
    ensures var scoped := Scope(session, turns, taken);
      && (scoped[i].parent == Some(scoped[j].id) <==> turns[i].parent == Some(turns[j].id))
      && (scoped[i].parent.None? <==> turns[i].parent.None?)
      && (turns[i].parent.Some? && turns[i].parent.value !in IdsOf(turns) ==> scoped[i].parent == turns[i].parent)
  {
    assert turns[i] in turns && turns[j] in turns;
  }

  lemma ScopedDistinct(session: nat, turns: seq<Turn>, taken: set<Id>)
    requires DistinctIds(turns) && Underived(session, turns)
    ensures DistinctIds(Scope(session, turns, taken))
  {
    var scoped := Scope(session, turns, taken);
    forall i, j | 0 <= i < j < |turns| ensures scoped[i].id != scoped[j].id {
      assert turns[i] in turns && turns[j] in turns;
    }
  }

  // ---------------------------------------------------------------- copies

  /** The last turn with an id is the one the map ends up with. */
  function Position(turns: seq<Turn>, id: Id): (p: Option<nat>)
    ensures p.Some? ==> p.value < |turns| && turns[p.value].id == id
    ensures p.None? <==> id !in IdsOf(turns)
  {
    if turns == [] then None
    else
      var last := |turns| - 1;
      assert turns == turns[..last] + [turns[last]];
      if turns[last].id == id then Some(last) else Position(turns[..last], id)
  }

  /** The id minted for a turn, given that the first one minted is `n`. */
  function CopyId(turns: seq<Turn>, n: nat, id: Id): Id
  {
    var p := Position(turns, id);
    if p.Some? then Minted(n + p.value) else id
  }

  /** Fresh ids from `n` on; links between copied turns follow, others stay. */
  function CopyOf(turns: seq<Turn>, n: nat): (r: seq<Turn>)
    ensures |r| == |turns|
    ensures forall i :: 0 <= i < |turns| ==>
      r[i] == Turn(CopyId(turns, n, turns[i].id),
                   if turns[i].parent.Some? then Some(CopyId(turns, n, turns[i].parent.value)) else None)
  {
    seq(|turns|, i requires 0 <= i < |turns| =>
      Turn(CopyId(turns, n, turns[i].id), if turns[i].parent.Some? then Some(CopyId(turns, n, turns[i].parent.value)) else None))
  }

  /** What the map of fresh ids holds once the first `k` turns are in it. */
  ghost predicate MapsFirst(turnIdMap: map<Id, Id>, turns: seq<Turn>, next: nat, k: nat)
    requires k <= |turns|
  {
    && (forall id :: id in turnIdMap <==> Position(turns[..k], id).Some?)
    && (forall id :: id in turnIdMap ==> turnIdMap[id] == CopyId(turns[..k], next, id))
  }

  lemma MapsOneMore(turnIdMap: map<Id, Id>, turns: seq<Turn>, next: nat, k: nat)
    requires k < |turns| && MapsFirst(turnIdMap, turns, next, k)
    ensures MapsFirst(turnIdMap[turns[k].id := Minted(next + k)], turns, next, k + 1)
  {
    assert turns[..k + 1][..k] == turns[..k];
  }

  method CopyTransferredTurns(turns: seq<Turn>, next: nat) returns (copied: seq<Turn>, after: nat)
    ensures copied == CopyOf(turns, next) && after == next + |turns|
  {
    hide Position, CopyId, IdsOf;
    var turnIdMap: map<Id, Id> := map[];
    after := next;
    NoTurns(turns, next);
    for i := 0 to |turns|
      invariant after == next + i
      invariant MapsFirst(turnIdMap, turns, next, i)
    {
      MapsOneMore(turnIdMap, turns, next, i);
      turnIdMap := turnIdMap[turns[i].id := Minted(after)];
      after := after + 1;
    }
    Mapped(turnIdMap, turns, next);
    copied := seq(|turns|, i requires 0 <= i < |turns| =>
      Turn(turnIdMap[turns[i].id],
           if turns[i].parent.Some? && turns[i].parent.value in turnIdMap then Some(turnIdMap[turns[i].parent.value]) else turns[i].parent));
  }

  lemma NoTurns(turns: seq<Turn>, next: nat)
    ensures MapsFirst(map[], turns, next, 0)
  {
  }

  lemma Mapped(turnIdMap: map<Id, Id>, turns: seq<Turn>, next: nat)
    requires MapsFirst(turnIdMap, turns, next, |turns|)
    ensures forall id :: (if id in turnIdMap then turnIdMap[id] else id) == CopyId(turns, next, id)
    ensures forall i :: 0 <= i < |turns| ==> turns[i].id in turnIdMap
  {
    assert turns[..|turns|] == turns;
    forall i | 0 <= i < |turns| ensures turns[i].id in turnIdMap {
      assert turns[i] in turns;
    }
  }

  /** Each copied turn has an id of its own, counted from `n`. */
  lemma {:induction false} CopyIds(turns: seq<Turn>, n: nat)
    requires DistinctIds(turns)
    ensures forall i :: 0 <= i < |turns| ==> Position(turns, turns[i].id) == Some(i) && CopyOf(turns, n)[i].id == Minted(n + i)
    ensures DistinctIds(CopyOf(turns, n))
  {
    hide Position;
    forall i | 0 <= i < |turns| ensures Position(turns, turns[i].id) == Some(i) {
      PositionOf(turns, i);
    }
  }

  lemma {:induction false} PositionOf(turns: seq<Turn>, i: nat)
    requires DistinctIds(turns) && i < |turns|
    ensures Position(turns, turns[i].id) == Some(i)
  {
    var last := |turns| - 1;
    if i < last {
      PositionOf(turns[..last], i);
    }
  }

  /** A copy has the forest of what it copies. */
  lemma CopyForest(turns: seq<Turn>, n: nat, i: nat, j: nat)
    requires DistinctIds(turns) && i < |turns| && j < |turns|
    requires forall t :: t in turns && t.parent.Some? && t.parent.value.Minted? ==> t.parent.value.n < n
    ensures CopyOf(turns, n)[i].parent == Some(CopyOf(turns, n)[j].id) <==> turns[i].parent == Some(turns[j].id)
  {
    CopyIds(turns, n);
    assert turns[i] in turns && turns[j] in turns;
  }

  // ---------------------------------------------------------------- the table

  datatype Row = Row(session: nat, ordinal: nat, parent: Option<Id>)

  function HeldIn(rows: map<Id, Row>, session: nat): set<Id>
  {
    set id | id in rows && rows[id].session != session
  }

  function Others(rows: map<Id, Row>, session: nat): map<Id, Row>
  {
    map id | id in rows && rows[id].session != session :: rows[id]
  }

  /** Every turn written under its id, over whatever row is there. */
  function Written(rows: map<Id, Row>, session: nat, turns: seq<Turn>): map<Id, Row>
    decreases |turns|
  {
    if turns == [] then rows
    else
      var last := |turns| - 1;
      Written(rows, session, turns[..last])[turns[last].id := Row(session, last, turns[last].parent)]
  }

  /** The rows of the session go, then its turns are written under the ids a lookup of the others leaves them. */
  function SavedRows(rows: map<Id, Row>, session: nat, captured: seq<Turn>): map<Id, Row>
  {
    Written(Others(rows, session), session, Scope(session, captured, HeldIn(rows, session)))
  }

  /** One tenant's turn rows, keyed by turn id. */
  class TurnTable {
    var rows: map<Id, Row>

    constructor ()
      ensures rows == map[]
    {
      rows := map[];
    }

    method SaveTurns(session: nat, captured: seq<Turn>)
      modifies this
      ensures rows == SavedRows(old(rows), session, captured)
      ensures SparesOthers(old(rows), rows, session) <==> NoneTaken(old(rows), session, captured)
      ensures DistinctIds(captured) && Underived(session, captured) && NoneTaken(old(rows), session, captured)
        ==> Replaces(old(rows), rows, session, captured)
    {
      SparesExact(rows, session, captured);
      SavedReplaces(rows, session, captured);
      hide Scope, Underived, DistinctIds, IdsOf, SparesOthers, NoneTaken, Replaces, Written;
      var taken: set<Id> := set t | t in captured && t.id in rows && rows[t.id].session != session :: t.id;
      TakenIsHeld(session, captured, taken, HeldIn(rows, session));
      var scoped := ScopeCollidingTurns(session, captured, taken);
      rows := map id | id in rows && rows[id].session != session :: rows[id];
      WriteTurns(session, scoped);
    }

    /** One upsert a turn. */
    method WriteTurns(session: nat, turns: seq<Turn>)
      modifies this
      ensures rows == Written(old(rows), session, turns)
    {
      assert turns[..|turns|] == turns;
      for i := 0 to |turns|
        invariant rows == Written(old(rows), session, turns[..i])
      {
        assert turns[..i + 1][..i] == turns[..i];
        rows := rows[turns[i].id := Row(session, i, turns[i].parent)];
      }
    }
  }

  /** Looking up only the session's own ids gives the same scoping. */
  lemma TakenIsHeld(session: nat, turns: seq<Turn>, taken: set<Id>, held: set<Id>)
    requires taken == set t | t in turns && t.id in held :: t.id
    ensures Scope(session, turns, taken) == Scope(session, turns, held)
  {
  }

  /** The row is the turn it says it is. */
  predicate IsTurn(turns: seq<Turn>, session: nat, id: Id, row: Row)
  {
    row.session == session && row.ordinal < |turns| && turns[row.ordinal] == Turn(id, row.parent)
  }

  lemma {:induction false} WrittenRows(rows: map<Id, Row>, session: nat, turns: seq<Turn>)
    ensures var written := Written(rows, session, turns);
      && (forall id :: id in written <==> id in rows || id in IdsOf(turns))
      && (forall id :: id in written ==> if id in IdsOf(turns) then IsTurn(turns, session, id, written[id]) else written[id] == rows[id])
    decreases |turns|
  {
    if turns != [] {
      var last := |turns| - 1;
      WrittenRows(rows, session, turns[..last]);
      assert IdsOf(turns) == IdsOf(turns[..last]) + {turns[last].id} by {
        assert turns == turns[..last] + [turns[last]];
      }
    }
  }

  /** Every row of another session is as it was. */
  predicate SparesOthers(before: map<Id, Row>, after: map<Id, Row>, session: nat)
  {
    forall id :: id in before && before[id].session != session ==> id in after && after[id] == before[id]
  }

  /** No id the save would derive is held by another session. */
  predicate NoneTaken(rows: map<Id, Row>, session: nat, captured: seq<Turn>)
  {
    forall t :: t in captured && t.id in HeldIn(rows, session) ==> Derived(session, t.id) !in HeldIn(rows, session)
  }

  lemma ScopedIds(session: nat, turns: seq<Turn>, taken: set<Id>, id: Id)
    ensures id in IdsOf(Scope(session, turns, taken)) <==> exists t :: t in turns && id == if t.id in taken then Derived(session, t.id) else t.id
  {
    var scoped := Scope(session, turns, taken);
    if id in IdsOf(scoped) {
      var i :| 0 <= i < |scoped| && scoped[i].id == id;
      assert turns[i] in turns;
    }
    if t :| t in turns && id == if t.id in taken then Derived(session, t.id) else t.id {
      var i :| 0 <= i < |turns| && turns[i] == t;
      assert scoped[i] in scoped && scoped[i].id == id;
    }
  }

  /** For any table and capture: a save spares the other sessions' rows exactly when it derives no id they hold. */
  lemma SparesExact(rows: map<Id, Row>, session: nat, captured: seq<Turn>)
    ensures SparesOthers(rows, SavedRows(rows, session, captured), session) <==> NoneTaken(rows, session, captured)
  {
    var held := HeldIn(rows, session);
    var scoped := Scope(session, captured, held);
    var after := SavedRows(rows, session, captured);
    hide Written, Scope, IdsOf;
    WrittenRows(Others(rows, session), session, scoped);
    if NoneTaken(rows, session, captured) {
      forall id | id in held ensures id in after && after[id] == rows[id] {
        ScopedIds(session, captured, held, id);
      }
    }
    if SparesOthers(rows, after, session) {
      forall t | t in captured && t.id in held ensures Derived(session, t.id) !in held {
        ScopedIds(session, captured, held, Derived(session, t.id));
      }
    }
  }

  /** The session's rows are its turns under their scoped ids, and there are no others but those that were there. */
  predicate Replaces(before: map<Id, Row>, after: map<Id, Row>, session: nat, captured: seq<Turn>)
  {
    var scoped := Scope(session, captured, HeldIn(before, session));
    && HeldIn(before, session) == HeldIn(after, session)
    && SparesOthers(before, after, session)
    && (forall i :: 0 <= i < |scoped| ==> scoped[i].id in after && after[scoped[i].id] == Row(session, i, scoped[i].parent))
    && (forall id :: id in after && after[id].session == session ==> IsTurn(scoped, session, id, after[id]))
  }

  lemma SavedReplaces(rows: map<Id, Row>, session: nat, captured: seq<Turn>)
    ensures DistinctIds(captured) && Underived(session, captured) && NoneTaken(rows, session, captured)
      ==> Replaces(rows, SavedRows(rows, session, captured), session, captured)
  {
    if DistinctIds(captured) && Underived(session, captured) && NoneTaken(rows, session, captured) {
      var held := HeldIn(rows, session);
      var scoped := Scope(session, captured, held);
      ScopedDistinct(session, captured, held);
      SparesExact(rows, session, captured);
      hide Written, Scope, Underived, NoneTaken, DistinctIds, SparesOthers, IdsOf;
      var after := SavedRows(rows, session, captured);
      WrittenRows(Others(rows, session), session, scoped);
      TurnsWritten(after, session, scoped);
      HeldSame(rows, after, session, scoped);
    }
  }

  lemma TurnsWritten(after: map<Id, Row>, session: nat, turns: seq<Turn>)
    requires DistinctIds(turns)
    requires forall id :: id in IdsOf(turns) ==> id in after && IsTurn(turns, session, id, after[id])
    ensures forall i :: 0 <= i < |turns| ==> turns[i].id in after && after[turns[i].id] == Row(session, i, turns[i].parent)
  {
    forall i | 0 <= i < |turns| ensures turns[i].id in after && after[turns[i].id] == Row(session, i, turns[i].parent) {
      assert turns[i] in turns && turns[i].id in IdsOf(turns);
    }
  }

  lemma HeldSame(before: map<Id, Row>, after: map<Id, Row>, session: nat, turns: seq<Turn>)
    requires SparesOthers(before, after, session)
    requires forall id :: id in after ==> (id in IdsOf(turns) && IsTurn(turns, session, id, after[id])) || id in Others(before, session)
    ensures HeldIn(before, session) == HeldIn(after, session)
  {
    hide IdsOf;
  }
}
