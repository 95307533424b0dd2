/** The table of turn rows behind the archive, over the same runs of saves and imported copies. */
module TurnRows {
  import opened Wrappers
  import opened TurnIdentity
  import opened TurnArchive

  /** The row is a turn of one of the tenant's sessions. */
  predicate RowOf(archive: Archive, tenant: nat, id: Id, row: Row)
  {
    && row.session in archive.sessions && archive.sessions[row.session].tenant == tenant
    && IsTurn(archive.sessions[row.session].turns, row.session, id, row)
  }

  predicate HasRow(rows: map<Id, Row>, id: Id, row: Row)
  {
    id in rows && rows[id] == row
  }

  /** The rows of one tenant are the turns of its sessions. */
  ghost predicate Represents(archive: Archive, tenant: nat, rows: map<Id, Row>)
  {
    forall id, row :: HasRow(rows, id, row) <==> RowOf(archive, tenant, id, row)
  }

  lemma EmptyRepresented(tenant: nat)
    ensures Represents(Archive(map[], 0), tenant, map[])
  {
  }

  // ---------------------------------------------------------------- one save

  /** The table's lookup finds what the archive holds elsewhere. */
  lemma LookupAlike(archive: Archive, tenant: nat, rows: map<Id, Row>, session: nat)
    requires Represents(archive, tenant, rows)
    ensures HeldIn(rows, session) == Held(archive, tenant, session)
  {
    forall id ensures id in HeldIn(rows, session) <==> id in Held(archive, tenant, session) {
      if id in HeldIn(rows, session) {
        assert HasRow(rows, id, rows[id]);
        RowHeld(archive, tenant, session, id, rows[id]);
      }
      if id in Held(archive, tenant, session) {
        var row := HeldRow(archive, tenant, session, id);
        assert HasRow(rows, id, row);
      }
    }
  }

  lemma RowHeld(archive: Archive, tenant: nat, session: nat, id: Id, row: Row)
    requires RowOf(archive, tenant, id, row) && row.session != session
    ensures id in Held(archive, tenant, session)
  {
    hide Held;
    var turns := archive.sessions[row.session].turns;
    assert turns[row.ordinal] in turns;
    HolderHolds(archive, tenant, session, row.session, id);
  }

  lemma HeldRow(archive: Archive, tenant: nat, session: nat, id: Id) returns (row: Row)
    requires id in Held(archive, tenant, session)
    ensures RowOf(archive, tenant, id, row) && row.session != session
  {
    hide Held;
    var s := Holder(archive, tenant, session, id);
    var turns := archive.sessions[s].turns;
    var t :| t in turns && t.id == id;
    var i :| 0 <= i < |turns| && turns[i] == t;
    row := Row(s, i, t.parent);
  }

  /** In a tenant no id derived for a session is held by another. */
  lemma NeverTaken(archive: Archive, tenant: nat, rows: map<Id, Row>, session: nat, captured: seq<Turn>)
    requires Inv(archive) && Represents(archive, tenant, rows)
    requires session in archive.sessions ==> archive.sessions[session].tenant == tenant
    ensures NoneTaken(rows, session, captured)
  {
    hide Represents, Inv;
    LookupAlike(archive, tenant, rows, session);
    forall t | t in captured && t.id in HeldIn(rows, session) ensures Derived(session, t.id) !in HeldIn(rows, session) {
      DerivedNotHeld(archive, tenant, session, t.id);
    }
  }

  lemma DerivedNotHeld(archive: Archive, tenant: nat, session: nat, of: Id)
    requires Inv(archive) && (session in archive.sessions ==> archive.sessions[session].tenant == tenant)
    ensures Derived(session, of) !in Held(archive, tenant, session)
  {
    hide Held, Inv;
    if Derived(session, of) in Held(archive, tenant, session) {
      var r := Holder(archive, tenant, session, Derived(session, of));
      var t :| t in archive.sessions[r].turns && t.id == Derived(session, of);
      DerivedOwner(archive, r, t);
    }
  }

  /** A save on the table is the archive's save, and no other session's row is touched. */
  lemma SaveRepresented(archive: Archive, tenant: nat, rows: map<Id, Row>, session: nat, captured: seq<Turn>)
    requires Inv(archive) && Represents(archive, tenant, rows) && Capturable(archive, tenant, session, captured)
    ensures Represents(Save(archive, tenant, session, captured), tenant, SavedRows(rows, session, captured))
    ensures SparesOthers(rows, SavedRows(rows, session, captured), session)
  {
    CaptureIs(archive, tenant, session, captured);
    hide *;
    LookupAlike(archive, tenant, rows, session);
    NeverTaken(archive, tenant, rows, session, captured);
    SparesExact(rows, session, captured);
    SavedReplaces(rows, session, captured);
    ReplacedRepresents(archive, tenant, rows, SavedRows(rows, session, captured), session, captured);
  }

  lemma CaptureIs(archive: Archive, tenant: nat, session: nat, captured: seq<Turn>)
    requires Capturable(archive, tenant, session, captured)
    ensures DistinctIds(captured) && Underived(session, captured)
    ensures session in archive.sessions ==> archive.sessions[session].tenant == tenant
  {
  }

  lemma ReplacedRepresents(archive: Archive, tenant: nat, rows: map<Id, Row>, after: map<Id, Row>, session: nat, captured: seq<Turn>)
    requires Represents(archive, tenant, rows) && Replaces(rows, after, session, captured)
    requires HeldIn(rows, session) == Held(archive, tenant, session)
    ensures Represents(Save(archive, tenant, session, captured), tenant, after)
  {
    var saved := Save(archive, tenant, session, captured);
    var scoped := Scope(session, captured, HeldIn(rows, session));
    forall id, row ensures HasRow(after, id, row) <==> RowOf(saved, tenant, id, row) {
      hide Scope, Held;
      assert HasRow(rows, id, row) <==> RowOf(archive, tenant, id, row);
      if row.session == session {
        assert RowOf(saved, tenant, id, row) <==> IsTurn(scoped, session, id, row);
      } else {
        assert RowOf(saved, tenant, id, row) <==> RowOf(archive, tenant, id, row);
        assert id in HeldIn(rows, session) <==> id in HeldIn(after, session);
      }
    }
  }

  /** A save in another tenant is nothing to this one's rows. */
  lemma ElsewhereRepresented(archive: Archive, home: nat, rows: map<Id, Row>, tenant: nat, session: nat, captured: seq<Turn>)
    requires Represents(archive, home, rows) && tenant != home
    requires session in archive.sessions ==> archive.sessions[session].tenant == tenant
    ensures Represents(Save(archive, tenant, session, captured), home, rows)
  {
    var saved := Save(archive, tenant, session, captured);
    forall id, row ensures HasRow(rows, id, row) <==> RowOf(saved, home, id, row) {
      hide Scope, Held;
      assert RowOf(saved, home, id, row) <==> RowOf(archive, home, id, row);
    }
  }

  // ---------------------------------------------------------------- runs

  function TakeRows(archive: Archive, home: nat, rows: map<Id, Row>, step: Step): map<Id, Row>
    requires Allowed(archive, step)
  {
    if step.tenant != home then rows
    else match step
      case Capture(_, session, captured) => SavedRows(rows, session, captured)
      case Copy(from, _, session) => SavedRows(rows, session, CopyOf(archive.sessions[from].turns, archive.minted))
  }

  function RunRows(archive: Archive, home: nat, rows: map<Id, Row>, steps: seq<Step>): map<Id, Row>
    requires AllAllowed(archive, steps)
    decreases |steps|
  {
    if steps == [] then rows
    else RunRows(Take(archive, steps[0]), home, TakeRows(archive, home, rows, steps[0]), steps[1..])
  }

  lemma TakeRepresented(archive: Archive, home: nat, rows: map<Id, Row>, step: Step)
    requires Inv(archive) && Represents(archive, home, rows) && Allowed(archive, step)
    ensures Represents(Take(archive, step), home, TakeRows(archive, home, rows, step))
    ensures SparesOthers(rows, TakeRows(archive, home, rows, step), step.session)
  {
    hide Inv, Represents, Capturable, Save, SavedRows, CopyOf, SparesOthers;
    match step {
      case Capture(tenant, session, captured) =>
        SavedOrElsewhere(archive, home, rows, tenant, session, captured);
      case Copy(from, tenant, session) =>
        var more := archive.minted + |archive.sessions[from].turns|;
        MintedKeeps(archive, more);
        MintedRepresented(archive, home, rows, more);
        CopyCapturable(archive, from, tenant, session);
        SavedOrElsewhere(archive.(minted := more), home, rows, tenant, session, CopyOf(archive.sessions[from].turns, archive.minted));
    }
  }

  lemma MintedRepresented(archive: Archive, home: nat, rows: map<Id, Row>, more: nat)
    requires Represents(archive, home, rows)
    ensures Represents(archive.(minted := more), home, rows)
  {
    forall id, row ensures HasRow(rows, id, row) <==> RowOf(archive.(minted := more), home, id, row) {
      assert HasRow(rows, id, row) <==> RowOf(archive, home, id, row);
    }
  }

  lemma SavedOrElsewhere(archive: Archive, home: nat, rows: map<Id, Row>, tenant: nat, session: nat, captured: seq<Turn>)
    requires Inv(archive) && Represents(archive, home, rows) && Capturable(archive, tenant, session, captured)
    ensures var after := if tenant == home then SavedRows(rows, session, captured) else rows;
      Represents(Save(archive, tenant, session, captured), home, after) && SparesOthers(rows, after, session)
  {
    CaptureIs(archive, tenant, session, captured);
    hide Inv, Represents, Capturable, Save, SavedRows;
    if tenant == home {
      SaveRepresented(archive, home, rows, session, captured);
    } else {
      ElsewhereRepresented(archive, home, rows, tenant, session, captured);
    }
  }

  /** Through any run a tenant's table holds exactly the turns of its sessions. */
  lemma {:induction false} TableFollows(archive: Archive, home: nat, rows: map<Id, Row>, steps: seq<Step>)
    requires Inv(archive) && Represents(archive, home, rows) && AllAllowed(archive, steps)
    ensures Represents(Run(archive, steps), home, RunRows(archive, home, rows, steps))
    decreases |steps|
  {
    hide Inv, Represents, Allowed, Take, TakeRows, SparesOthers;
    if steps != [] {
      TakeKeeps(archive, steps[0]);
      TakeRepresented(archive, home, rows, steps[0]);
      TableFollows(Take(archive, steps[0]), home, TakeRows(archive, home, rows, steps[0]), steps[1..]);
    }
  }

  lemma {:induction false} TableAlways(steps: seq<Step>, home: nat)
    requires AllAllowed(Archive(map[], 0), steps)
    ensures Represents(Run(Archive(map[], 0), steps), home, RunRows(Archive(map[], 0), home, map[], steps))
  {
    hide Inv, Represents, AllAllowed, Run, RunRows;
    EmptyInv();
    EmptyRepresented(home);
    TableFollows(Archive(map[], 0), home, map[], steps);
  }

  /** Along any run a row stays its session's, at its place: no other save moves a turn into itself. */
  lemma {:induction false} NoTurnLost(archive: Archive, home: nat, rows: map<Id, Row>, steps: seq<Step>, id: Id)
    requires Inv(archive) && Represents(archive, home, rows) && AllAllowed(archive, steps)
    requires id in rows
    ensures var after := RunRows(archive, home, rows, steps);
      id in after && after[id].session == rows[id].session && after[id].ordinal == rows[id].ordinal
  {
    hide Inv, AllAllowed, Run, RunRows;
    var row := rows[id];
    assert HasRow(rows, id, row);
    TableFollows(archive, home, rows, steps);
    IdsKeptAlways(archive, steps, row.session);
    var end, after := Run(archive, steps), RunRows(archive, home, rows, steps);
    var now := Row(row.session, row.ordinal, end.sessions[row.session].turns[row.ordinal].parent);
    assert RowOf(end, home, id, now);
    assert HasRow(after, id, now);
  }

  /** A row of a session no step of a run saves is not touched at all. */
  lemma {:induction false} UntouchedRow(archive: Archive, home: nat, rows: map<Id, Row>, steps: seq<Step>, id: Id)
    requires Inv(archive) && Represents(archive, home, rows) && AllAllowed(archive, steps)
    requires id in rows && forall i :: 0 <= i < |steps| ==> steps[i].session != rows[id].session
    ensures id in RunRows(archive, home, rows, steps) && RunRows(archive, home, rows, steps)[id] == rows[id]
    decreases |steps|
  {
    hide Inv, Represents, Allowed, Take, TakeRows;
    if steps != [] {
      TakeKeeps(archive, steps[0]);
      TakeRepresented(archive, home, rows, steps[0]);
      UntouchedRow(Take(archive, steps[0]), home, TakeRows(archive, home, rows, steps[0]), steps[1..], id);
    }
  }
}
