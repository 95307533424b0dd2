/** Turn ids over every sequence of saves and imported copies of sessions that only grow. */
module TurnArchive {
  import opened Wrappers
  import opened TurnIdentity

  /** A session as it was last captured, and as it is stored. */
  datatype Stored = Stored(tenant: nat, captured: seq<Turn>, turns: seq<Turn>)

  /** `minted` is above every fresh id handed out so far. */
  datatype Archive = Archive(sessions: map<nat, Stored>, minted: nat)

  /** The turn ids another session of the tenant holds, which is where a save looks. */
  function Held(archive: Archive, tenant: nat, session: nat): set<Id>
  {
    set s, t | s in archive.sessions && s != session && archive.sessions[s].tenant == tenant && t in archive.sessions[s].turns :: t.id
  }

  function Save(archive: Archive, tenant: nat, session: nat, captured: seq<Turn>): Archive
  {
    archive.(sessions := archive.sessions[session :=
      Stored(tenant, captured, Scope(session, captured, Held(archive, tenant, session)))])
  }

  /**
   * What a capture can carry: distinct ids, all of what it carried before, and
   * no derived or fresh id from before the archive made it. It may carry the
   * ids of any other session, in its tenant or not, as a converted one does.
   */
  predicate Capturable(archive: Archive, tenant: nat, session: nat, captured: seq<Turn>)
  {
    && DistinctIds(captured) && Underived(session, captured)
    && (session in archive.sessions ==> archive.sessions[session].tenant == tenant && archive.sessions[session].captured <= captured)
    && (forall t :: t in captured ==> Known(archive, session, t.id))
    && (forall t :: t in captured && t.parent.Some? ==> Below(t.parent.value, archive.minted))
  }

  /** An id derived for another session is one that session stores, in whatever tenant. */
  predicate Known(archive: Archive, session: nat, id: Id)
  {
    Below(id, archive.minted) && (id.Derived? && id.session != session ==> StoredBy(archive, id.session, id))
  }

  predicate StoredBy(archive: Archive, s: nat, id: Id)
  {
    s in archive.sessions && id in IdsOf(archive.sessions[s].turns)
  }

  /** Made of nothing minted from `n` on. */
  predicate Below(id: Id, n: nat)
  {
    match id
    case Native(_) => true
    case Derived(_, of) => Below(of, n)
    case Minted(m) => m < n
  }

  /** `copyTransferredSession` and the save of what it returns. */
  function Import(archive: Archive, from: nat, tenant: nat, session: nat): Archive
    requires from in archive.sessions
  {
    var turns := archive.sessions[from].turns;
    Save(archive.(minted := archive.minted + |turns|), tenant, session, CopyOf(turns, archive.minted))
  }

  // ---------------------------------------------------------------- the invariant

  ghost predicate Inv(archive: Archive)
  {
    forall s {:trigger SessionInv(archive, s)} :: s in archive.sessions ==> SessionInv(archive, s)
  }

  /** Every session is what its capture scopes to now, whenever it was saved. */
  ghost predicate SessionInv(archive: Archive, s: nat)
    requires s in archive.sessions
  {
    var x := archive.sessions[s];
    var held := Held(archive, x.tenant, s);
    && x.turns == Scope(s, x.captured, held)
    && DistinctIds(x.captured) && Underived(s, x.captured)
    && (forall t :: t in x.captured ==> Known(archive, s, t.id))
    && (forall t :: t in x.captured && t.parent.Some? ==> Below(t.parent.value, archive.minted))
  }

  lemma EmptyInv()
    ensures Inv(Archive(map[], 0))
  {
  }

  /** A stored id is a captured one that nobody else holds, or is derived from one that somebody does. */
  lemma StoredId(archive: Archive, s: nat, t: Turn) returns (c: Turn)
    requires s in archive.sessions && SessionInv(archive, s) && t in archive.sessions[s].turns
    ensures c in archive.sessions[s].captured
    ensures var held := Held(archive, archive.sessions[s].tenant, s);
      t.id == if c.id in held then Derived(s, c.id) else c.id
  {
    var x := archive.sessions[s];
    var i :| 0 <= i < |x.turns| && x.turns[i] == t;
    c := x.captured[i];
    assert c.id in IdsOf(x.captured);
  }

  /** Within a tenant, a turn id belongs to one session. */
  lemma OneOwner(archive: Archive, a: nat, b: nat, t: Turn, u: Turn)
    requires Inv(archive)
    requires a in archive.sessions && b in archive.sessions && archive.sessions[a].tenant == archive.sessions[b].tenant
    requires t in archive.sessions[a].turns && u in archive.sessions[b].turns && t.id == u.id
    ensures a == b
  {
    if a != b {
      var held, other := Held(archive, archive.sessions[a].tenant, a), Held(archive, archive.sessions[b].tenant, b);
      assert u.id in held && t.id in other;
      hide SessionInv, Held;
      assert SessionInv(archive, a) && SessionInv(archive, b);
      var c := StoredId(archive, a, t);
      var d := StoredId(archive, b, u);
    }
  }

  lemma KnownTurn(archive: Archive, s: nat, c: Turn)
    requires s in archive.sessions && SessionInv(archive, s) && c in archive.sessions[s].captured
    ensures Known(archive, s, c.id)
  {
  }

  // ---------------------------------------------------------------- a save

  /** A session saved again, grown, keeps the ids it had. */
  lemma GrowthKeepsIds(archive: Archive, tenant: nat, session: nat, captured: seq<Turn>)
    requires session in archive.sessions && SessionInv(archive, session) && Capturable(archive, tenant, session, captured)
    ensures var was, now := archive.sessions[session].turns, Save(archive, tenant, session, captured).sessions[session].turns;
      |was| <= |now| && forall i :: 0 <= i < |was| ==> now[i].id == was[i].id
  {
    var before := archive.sessions[session].captured;
    forall i | 0 <= i < |before| ensures captured[i] == before[i] && before[i].id in IdsOf(before) && captured[i].id in IdsOf(captured) {
      assert before[i] in before && captured[i] in captured;
    }
  }

  /** What the others of the tenant see held: nothing less, and nothing new that they captured. */
  lemma HeldAfter(archive: Archive, tenant: nat, session: nat, captured: seq<Turn>, s: nat)
    requires Inv(archive) && Capturable(archive, tenant, session, captured)
    requires s in archive.sessions && s != session
    ensures var after := Save(archive, tenant, session, captured);
      var was, now := Held(archive, archive.sessions[s].tenant, s), Held(after, archive.sessions[s].tenant, s);
      && was <= now
      && forall c :: c in archive.sessions[s].captured && c.id in now ==> c.id in was
  {
    var after := Save(archive, tenant, session, captured);
    var home := archive.sessions[s].tenant;
    var was, now := Held(archive, home, s), Held(after, home, s);
    forall id | id in was ensures id in now {
      HeldStays(archive, tenant, session, captured, s, id);
    }
    forall c | c in archive.sessions[s].captured && c.id in now ensures c.id in was {
      NotNewlyHeld(archive, tenant, session, captured, s, c);
    }
  }

  /** Session `r` of the tenant, which is not `s`, holds `id`. */
  predicate HeldBy(archive: Archive, tenant: nat, s: nat, r: nat, id: Id)
  {
    r in archive.sessions && r != s && archive.sessions[r].tenant == tenant && id in IdsOf(archive.sessions[r].turns)
  }

  lemma Holder(archive: Archive, tenant: nat, s: nat, id: Id) returns (r: nat)
    requires id in Held(archive, tenant, s)
    ensures HeldBy(archive, tenant, s, r, id)
  {
    var q, t :| q in archive.sessions && q != s && archive.sessions[q].tenant == tenant && t in archive.sessions[q].turns && t.id == id;
    r := q;
  }

  lemma HolderHolds(archive: Archive, tenant: nat, s: nat, r: nat, id: Id)
    requires HeldBy(archive, tenant, s, r, id)
    ensures id in Held(archive, tenant, s)
  {
  }

  lemma NoHolder(archive: Archive, tenant: nat, s: nat, r: nat, id: Id)
    requires id !in Held(archive, tenant, s)
    ensures !HeldBy(archive, tenant, s, r, id)
  {
  }

  lemma GrowthKeepsId(archive: Archive, tenant: nat, session: nat, captured: seq<Turn>, id: Id)
    requires session in archive.sessions && SessionInv(archive, session) && Capturable(archive, tenant, session, captured)
    requires id in IdsOf(archive.sessions[session].turns)
    ensures id in IdsOf(Save(archive, tenant, session, captured).sessions[session].turns)
  {
    hide SessionInv, Capturable;
    GrowthKeepsIds(archive, tenant, session, captured);
    var was, now := archive.sessions[session].turns, Save(archive, tenant, session, captured).sessions[session].turns;
    var t :| t in was && t.id == id;
    var i :| 0 <= i < |was| && was[i] == t;
    assert now[i] in now;
  }

  /** What a session stores it goes on storing. */
  lemma KnownStays(archive: Archive, tenant: nat, session: nat, captured: seq<Turn>, s: nat, id: Id)
    requires Inv(archive) && Capturable(archive, tenant, session, captured) && Known(archive, s, id)
    ensures Known(Save(archive, tenant, session, captured), s, id)
  {
    hide SessionInv, Capturable, Below;
    if id.Derived? && id.session == session && s != session {
      assert SessionInv(archive, session);
      GrowthKeepsId(archive, tenant, session, captured, id);
    }
  }

  lemma HeldStays(archive: Archive, tenant: nat, session: nat, captured: seq<Turn>, s: nat, id: Id)
    requires Inv(archive) && Capturable(archive, tenant, session, captured)
    requires s in archive.sessions && s != session && id in Held(archive, archive.sessions[s].tenant, s)
    ensures id in Held(Save(archive, tenant, session, captured), archive.sessions[s].tenant, s)
  {
    hide Held, SessionInv, Scope;
    var after := Save(archive, tenant, session, captured);
    var home := archive.sessions[s].tenant;
    var r := Holder(archive, home, s, id);
    if r == session {
      GrowthKeepsId(archive, tenant, session, captured, id);
    }
    HolderHolds(after, home, s, r, id);
  }

  lemma NotNewlyHeld(archive: Archive, tenant: nat, session: nat, captured: seq<Turn>, s: nat, c: Turn)
    requires Inv(archive) && Capturable(archive, tenant, session, captured)
    requires s in archive.sessions && s != session && c in archive.sessions[s].captured
    requires c.id in Held(Save(archive, tenant, session, captured), archive.sessions[s].tenant, s)
    ensures c.id in Held(archive, archive.sessions[s].tenant, s)
  {
    hide Held, SessionInv, Scope, Capturable;
    var after := Save(archive, tenant, session, captured);
    var home := archive.sessions[s].tenant;
    assert SessionInv(archive, s);
    KnownTurn(archive, s, c);
    var r := Holder(after, home, s, c.id);
    if r != session {
      HolderHolds(archive, home, s, r, c.id);
    } else if c.id !in Held(archive, home, s) {
      Holds(archive, s, session, c);
      SavedId(archive, tenant, session, captured, c.id);
      SameTenant(archive, tenant, session, captured);
      HolderHolds(archive, home, s, session, c.id);
    }
  }

  lemma SameTenant(archive: Archive, tenant: nat, session: nat, captured: seq<Turn>)
    requires Capturable(archive, tenant, session, captured) && session in archive.sessions
    ensures archive.sessions[session].tenant == tenant
  {
  }

  /** An id a save stores is derived from its session, or was held by no other. */
  lemma SavedId(archive: Archive, tenant: nat, session: nat, captured: seq<Turn>, id: Id)
    requires id in IdsOf(Save(archive, tenant, session, captured).sessions[session].turns)
    ensures (id.Derived? && id.session == session) || id !in Held(archive, tenant, session)
  {
    hide Held;
    var turns := Scope(session, captured, Held(archive, tenant, session));
    var t :| t in turns && t.id == id;
    var i :| 0 <= i < |turns| && turns[i] == t;
    assert captured[i] in captured;
  }

  /** A session holds, itself, what it captured and nobody else held. */
  lemma Holds(archive: Archive, s: nat, session: nat, c: Turn)
    requires s in archive.sessions && s != session && SessionInv(archive, s) && c in archive.sessions[s].captured
    requires c.id !in Held(archive, archive.sessions[s].tenant, s)
    ensures c.id in Held(archive, archive.sessions[s].tenant, session)
  {
    var x := archive.sessions[s];
    var i :| 0 <= i < |x.captured| && x.captured[i] == c;
    assert x.turns[i].id == c.id && x.turns[i] in x.turns;
  }

  /** Every save keeps the invariant. */
  lemma SaveKeeps(archive: Archive, tenant: nat, session: nat, captured: seq<Turn>)
    requires Inv(archive) && Capturable(archive, tenant, session, captured)
    ensures Inv(Save(archive, tenant, session, captured))
  {
    var after := Save(archive, tenant, session, captured);
    forall s | s in after.sessions ensures SessionInv(after, s) {
      if s == session {
        SelfHeld(archive, tenant, session, captured);
      } else {
        OtherKeeps(archive, tenant, session, captured, s);
      }
    }
  }

  lemma SelfHeld(archive: Archive, tenant: nat, session: nat, captured: seq<Turn>)
    requires Capturable(archive, tenant, session, captured)
    ensures Held(Save(archive, tenant, session, captured), tenant, session) == Held(archive, tenant, session)
    ensures SessionInv(Save(archive, tenant, session, captured), session)
  {
    var after := Save(archive, tenant, session, captured);
    assert forall s :: s != session ==> (s in after.sessions <==> s in archive.sessions) && (s in archive.sessions ==> after.sessions[s] == archive.sessions[s]);
  }

  lemma OtherKeeps(archive: Archive, tenant: nat, session: nat, captured: seq<Turn>, s: nat)
    requires Inv(archive) && Capturable(archive, tenant, session, captured) && s in archive.sessions && s != session
    ensures SessionInv(Save(archive, tenant, session, captured), s)
  {
    var after := Save(archive, tenant, session, captured);
    var x := archive.sessions[s];
    assert SessionInv(archive, s) && after.sessions[s] == x;
    HeldAfter(archive, tenant, session, captured, s);
    forall t | t in x.captured ensures Known(after, s, t.id) {
      KnownTurn(archive, s, t);
      KnownStays(archive, tenant, session, captured, s, t.id);
    }
    hide Held, Known, Capturable;
    ScopeAlike(s, x.captured, Held(archive, x.tenant, s), Held(after, x.tenant, s));
  }

  lemma ScopeAlike(session: nat, turns: seq<Turn>, a: set<Id>, b: set<Id>)
    requires a <= b && forall c :: c in turns && c.id in b ==> c.id in a
    ensures Scope(session, turns, a) == Scope(session, turns, b)
  {
    assert forall id :: id in IdsOf(turns) ==> (id in a <==> id in b);
  }

  // ---------------------------------------------------------------- an import

  lemma {:induction false} BelowMore(id: Id, n: nat, m: nat)
    requires Below(id, n) && n <= m
    ensures Below(id, m)
  {
    if id.Derived? {
      BelowMore(id.of, n, m);
    }
  }

  lemma MintedKeeps(archive: Archive, more: nat)
    requires Inv(archive) && archive.minted <= more
    ensures Inv(archive.(minted := more))
  {
    var after := archive.(minted := more);
    forall s | s in after.sessions ensures SessionInv(after, s) {
      assert SessionInv(archive, s);
      assert Held(after, archive.sessions[s].tenant, s) == Held(archive, archive.sessions[s].tenant, s);
      forall id | Below(id, archive.minted) ensures Below(id, more) {
        BelowMore(id, archive.minted, more);
      }
    }
  }

  predicate ParentsBelow(turns: seq<Turn>, n: nat)
  {
    forall t :: t in turns && t.parent.Some? ==> Below(t.parent.value, n)
  }

  /** What is stored links to nothing not minted yet. */
  lemma StoredBelow(archive: Archive, s: nat)
    requires s in archive.sessions && SessionInv(archive, s)
    ensures ParentsBelow(archive.sessions[s].turns, archive.minted)
  {
    hide Held, Known, Underived, DistinctIds;
    var x := archive.sessions[s];
    forall t | t in x.turns && t.parent.Some? ensures Below(t.parent.value, archive.minted) {
      var i :| 0 <= i < |x.turns| && x.turns[i] == t;
      assert x.captured[i] in x.captured;
    }
  }

  /** What a copied turn is made of. */
  predicate Copied(t: Turn, from: nat, to: nat)
  {
    && t.id.Minted? && from <= t.id.n < to
    && (t.parent.Some? ==> Below(t.parent.value, to) && (t.parent.value.Derived? ==> Below(t.parent.value, from)))
  }

  predicate AllCopied(turns: seq<Turn>, from: nat, to: nat)
  {
    forall t :: t in turns ==> Copied(t, from, to)
  }

  lemma CopiesAreCopied(turns: seq<Turn>, n: nat)
    requires DistinctIds(turns)
    requires ParentsBelow(turns, n)
    ensures AllCopied(CopyOf(turns, n), n, n + |turns|)
  {
    CopyIds(turns, n);
    var copied := CopyOf(turns, n);
    forall t | t in copied ensures Copied(t, n, n + |turns|) {
      var i :| 0 <= i < |copied| && copied[i] == t;
      assert turns[i] in turns;
      if turns[i].parent.Some? {
        BelowMore(turns[i].parent.value, n, n + |turns|);
      }
    }
  }

  lemma CopiedUnderived(session: nat, copied: seq<Turn>, from: nat, to: nat)
    requires AllCopied(copied, from, to)
    ensures Underived(session, copied)
  {
    forall t, u | t in copied && u in copied
      ensures t.id != Derived(session, u.id) && t.parent != Some(Derived(session, u.id))
    {
      assert Copied(t, from, to) && Copied(u, from, to);
      assert Below(Derived(session, u.id), from) <==> u.id.n < from;
    }
  }

  lemma CopiedCapturable(archive: Archive, tenant: nat, session: nat, copied: seq<Turn>, from: nat)
    requires DistinctIds(copied) && Underived(session, copied) && session !in archive.sessions
    requires AllCopied(copied, from, archive.minted)
    ensures Capturable(archive, tenant, session, copied)
  {
    hide Held, DistinctIds, Underived;
  }

  /** A copy is capturable under a session id not used before. */
  lemma CopyCapturable(archive: Archive, from: nat, tenant: nat, session: nat)
    requires Inv(archive) && from in archive.sessions && session !in archive.sessions
    ensures var turns := archive.sessions[from].turns;
      Capturable(archive.(minted := archive.minted + |turns|), tenant, session, CopyOf(turns, archive.minted))
  {
    hide *;
    StoredWell(archive, from);
    TurnsCapturable(archive, archive.sessions[from].turns, tenant, session);
  }

  lemma TurnsCapturable(archive: Archive, turns: seq<Turn>, tenant: nat, session: nat)
    requires DistinctIds(turns) && ParentsBelow(turns, archive.minted) && session !in archive.sessions
    ensures Capturable(archive.(minted := archive.minted + |turns|), tenant, session, CopyOf(turns, archive.minted))
  {
    hide *;
    var n := archive.minted;
    var copied := CopyOf(turns, n);
    CopyIds(turns, n);
    CopiesAreCopied(turns, n);
    CopiedUnderived(session, copied, n, n + |turns|);
    CopiedCapturable(archive.(minted := n + |turns|), tenant, session, copied, n);
  }

  lemma StoredWell(archive: Archive, s: nat)
    requires Inv(archive) && s in archive.sessions
    ensures DistinctIds(archive.sessions[s].turns) && ParentsBelow(archive.sessions[s].turns, archive.minted)
  {
    hide *;
    StoredDistinct(archive, s);
    StoredBelow(archive, s);
  }

  lemma StoredDistinct(archive: Archive, s: nat)
    requires Inv(archive) && s in archive.sessions
    ensures SessionInv(archive, s) && DistinctIds(archive.sessions[s].turns)
  {
    hide Held, Scope;
    assert SessionInv(archive, s);
    ScopedDistinct(s, archive.sessions[s].captured, Held(archive, archive.sessions[s].tenant, s));
  }

  lemma ImportKeeps(archive: Archive, from: nat, tenant: nat, session: nat)
    requires Inv(archive) && from in archive.sessions && session !in archive.sessions
    ensures Inv(Import(archive, from, tenant, session))
  {
    hide Inv, Capturable, Save, CopyOf;
    var more := archive.minted + |archive.sessions[from].turns|;
    MintedKeeps(archive, more);
    CopyCapturable(archive, from, tenant, session);
    SaveKeeps(archive.(minted := more), tenant, session, CopyOf(archive.sessions[from].turns, archive.minted));
  }

  // ---------------------------------------------------------------- runs

  datatype Step = Capture(tenant: nat, session: nat, captured: seq<Turn>) | Copy(from: nat, tenant: nat, session: nat)

  predicate Allowed(archive: Archive, step: Step)
  {
    match step
    case Capture(tenant, session, captured) => Capturable(archive, tenant, session, captured)
    case Copy(from, _, session) => from in archive.sessions && session !in archive.sessions
  }

  function Take(archive: Archive, step: Step): Archive
    requires Allowed(archive, step)
  {
    match step
    case Capture(tenant, session, captured) => Save(archive, tenant, session, captured)
    case Copy(from, tenant, session) => Import(archive, from, tenant, session)
  }

  predicate AllAllowed(archive: Archive, steps: seq<Step>)
    decreases |steps|
  {
    steps == [] || (Allowed(archive, steps[0]) && AllAllowed(Take(archive, steps[0]), steps[1..]))
  }

  function Run(archive: Archive, steps: seq<Step>): Archive
    requires AllAllowed(archive, steps)
    decreases |steps|
  {
    if steps == [] then archive else Run(Take(archive, steps[0]), steps[1..])
  }

  lemma TakeKeeps(archive: Archive, step: Step)
    requires Inv(archive) && Allowed(archive, step)
    ensures Inv(Take(archive, step))
  {
    hide Inv, Capturable;
    match step
    case Capture(tenant, session, captured) => SaveKeeps(archive, tenant, session, captured);
    case Copy(from, tenant, session) => ImportKeeps(archive, from, tenant, session);
  }

  lemma {:induction false} RunKeeps(archive: Archive, steps: seq<Step>)
    requires Inv(archive) && AllAllowed(archive, steps)
    ensures Inv(Run(archive, steps))
    decreases |steps|
  {
    hide Inv, Allowed, Take;
    if steps != [] {
      TakeKeeps(archive, steps[0]);
      RunKeeps(Take(archive, steps[0]), steps[1..]);
    }
  }

  /** After any run: one owner for each turn id of a tenant. */
  lemma {:induction false} OneOwnerAlways(steps: seq<Step>, a: nat, b: nat, t: Turn, u: Turn)
    requires AllAllowed(Archive(map[], 0), steps)
    requires var end := Run(Archive(map[], 0), steps);
      && a in end.sessions && b in end.sessions && end.sessions[a].tenant == end.sessions[b].tenant
      && t in end.sessions[a].turns && u in end.sessions[b].turns && t.id == u.id
    ensures a == b
  {
    hide AllAllowed, Run;
    EmptyInv();
    RunKeeps(Archive(map[], 0), steps);
    OneOwner(Run(Archive(map[], 0), steps), a, b, t, u);
  }

  /** What a step leaves of a session: the same tenant, and every id it had, in place. */
  predicate IdsKept(was: Stored, now: Stored)
  {
    && now.tenant == was.tenant && |was.turns| <= |now.turns|
    && forall i :: 0 <= i < |was.turns| ==> now.turns[i].id == was.turns[i].id
  }

  lemma TakeKeepsIds(archive: Archive, step: Step, s: nat)
    requires Inv(archive) && Allowed(archive, step) && s in archive.sessions
    ensures s in Take(archive, step).sessions && IdsKept(archive.sessions[s], Take(archive, step).sessions[s])
    ensures s != step.session ==> Take(archive, step).sessions[s] == archive.sessions[s]
  {
    if step.Capture? && s == step.session {
      assert SessionInv(archive, s);
      GrowthKeepsIds(archive, step.tenant, s, step.captured);
    }
  }

  /** Along any run a turn keeps its id, and with it whatever is anchored to it. */
  lemma {:induction false} IdsKeptAlways(archive: Archive, steps: seq<Step>, s: nat)
    requires Inv(archive) && AllAllowed(archive, steps) && s in archive.sessions
    ensures s in Run(archive, steps).sessions && IdsKept(archive.sessions[s], Run(archive, steps).sessions[s])
    decreases |steps|
  {
    hide Inv, Allowed, Take;
    if steps != [] {
      TakeKeeps(archive, steps[0]);
      TakeKeepsIds(archive, steps[0], s);
      IdsKeptAlways(Take(archive, steps[0]), steps[1..], s);
    }
  }

  /** In every reachable archive the stored forest is the captured one, under the new names. */
  lemma {:induction false} ForestAlways(steps: seq<Step>, s: nat, i: nat, j: nat)
    requires AllAllowed(Archive(map[], 0), steps)
    requires var end := Run(Archive(map[], 0), steps);
      s in end.sessions && i < |end.sessions[s].captured| && j < |end.sessions[s].captured|
    ensures var x := Run(Archive(map[], 0), steps).sessions[s];
      && |x.turns| == |x.captured|
      && (x.turns[i].parent == Some(x.turns[j].id) <==> x.captured[i].parent == Some(x.captured[j].id))
  {
    hide AllAllowed, Run;
    EmptyInv();
    RunKeeps(Archive(map[], 0), steps);
    var end := Run(Archive(map[], 0), steps);
    assert SessionInv(end, s);
    ForestKept(s, end.sessions[s].captured, Held(end, end.sessions[s].tenant, s), i, j);
  }

  // ---------------------------------------------------------------- across tenants

  /** No two tenants hold one id, which the table's key asks for. */
  predicate OneOwnerArchiveWide(archive: Archive)
  {
    forall a, b :: a in archive.sessions && b in archive.sessions && a != b
      ==> IdsOf(archive.sessions[a].turns) !! IdsOf(archive.sessions[b].turns)
  }

  /** The save stores, as it is, an id that a session of another tenant holds. */
  predicate ClashesAcross(archive: Archive, tenant: nat, session: nat, captured: seq<Turn>)
  {
    exists t, r :: t in captured && t.id !in Held(archive, tenant, session)
      && r in archive.sessions && r != session && archive.sessions[r].tenant != tenant && t.id in IdsOf(archive.sessions[r].turns)
  }

  /** A derived id is stored by the session it is derived for, and, within its tenant, by no other. */
  lemma DerivedOwner(archive: Archive, r: nat, t: Turn)
    requires Inv(archive) && r in archive.sessions && t in archive.sessions[r].turns && t.id.Derived?
    ensures StoredBy(archive, t.id.session, t.id)
    ensures t.id.session == r || archive.sessions[t.id.session].tenant != archive.sessions[r].tenant
  {
    assert SessionInv(archive, r);
    hide Held, SessionInv;
    var c := StoredId(archive, r, t);
    KnownTurn(archive, r, c);
    if t.id.session != r {
      NoHolder(archive, archive.sessions[r].tenant, r, t.id.session, t.id);
    }
  }

  /**
   * The lookup before a save sees one tenant, so ids stay unique across the
   * archive exactly when no id saved as captured is held in another tenant.
   */
  lemma AcrossExact(archive: Archive, tenant: nat, session: nat, captured: seq<Turn>)
    requires Inv(archive) && OneOwnerArchiveWide(archive) && Capturable(archive, tenant, session, captured)
    ensures OneOwnerArchiveWide(Save(archive, tenant, session, captured)) <==> !ClashesAcross(archive, tenant, session, captured)
  {
    var after := Save(archive, tenant, session, captured);
    assert forall s :: s in archive.sessions && s != session ==> s in after.sessions && after.sessions[s] == archive.sessions[s];
    hide Inv, Capturable, Save, Held;
    if ClashesAcross(archive, tenant, session, captured) {
      var t, r :| t in captured && t.id !in Held(archive, tenant, session)
        && r in archive.sessions && r != session && archive.sessions[r].tenant != tenant && t.id in IdsOf(archive.sessions[r].turns);
      SavedAsIs(archive, tenant, session, captured, t);
      assert !(IdsOf(after.sessions[session].turns) !! IdsOf(after.sessions[r].turns));
    } else {
      forall r, id | r in archive.sessions && r != session && id in IdsOf(after.sessions[session].turns)
        ensures id !in IdsOf(archive.sessions[r].turns)
      {
        NoClash(archive, tenant, session, captured, r, id);
      }
      assert forall s :: s in after.sessions ==> s == session || s in archive.sessions by { SaveDomain(archive, tenant, session, captured); }
    }
  }

  lemma SaveDomain(archive: Archive, tenant: nat, session: nat, captured: seq<Turn>)
    ensures Save(archive, tenant, session, captured).sessions.Keys == archive.sessions.Keys + {session}
  {
  }

  lemma SavedAsIs(archive: Archive, tenant: nat, session: nat, captured: seq<Turn>, t: Turn)
    requires t in captured && t.id !in Held(archive, tenant, session)
    ensures t.id in IdsOf(Save(archive, tenant, session, captured).sessions[session].turns)
  {
    hide Held;
    var turns := Save(archive, tenant, session, captured).sessions[session].turns;
    var i :| 0 <= i < |captured| && captured[i] == t;
    assert turns[i] in turns && turns[i].id == t.id;
  }

  lemma NoClash(archive: Archive, tenant: nat, session: nat, captured: seq<Turn>, r: nat, id: Id)
    requires Inv(archive) && OneOwnerArchiveWide(archive) && !ClashesAcross(archive, tenant, session, captured)
    requires r in archive.sessions && r != session
    requires id in IdsOf(Save(archive, tenant, session, captured).sessions[session].turns)
    ensures id !in IdsOf(archive.sessions[r].turns)
  {
    hide Inv, Held;
    SavedFrom(archive, tenant, session, captured, id);
    if id in IdsOf(archive.sessions[r].turns) {
      var t :| t in archive.sessions[r].turns && t.id == id;
      if id.Derived? {
        DerivedOwner(archive, r, t);
      }
      if archive.sessions[r].tenant == tenant {
        HolderHolds(archive, tenant, session, r, id);
      }
    }
  }

  lemma SavedFrom(archive: Archive, tenant: nat, session: nat, captured: seq<Turn>, id: Id)
    requires id in IdsOf(Save(archive, tenant, session, captured).sessions[session].turns)
    ensures (id.Derived? && id.session == session) || (id !in Held(archive, tenant, session) && exists t :: t in captured && t.id == id)
  {
    hide Held;
    var turns := Scope(session, captured, Held(archive, tenant, session));
    var t :| t in turns && t.id == id;
    var i :| 0 <= i < |turns| && turns[i] == t;
    assert captured[i] in captured;
  }

  lemma {:induction false} TwoSteps(archive: Archive, a: Step, b: Step)
    requires Allowed(archive, a) && Allowed(Take(archive, a), b)
    ensures AllAllowed(archive, [a, b]) && Run(archive, [a, b]) == Take(Take(archive, a), b)
  {
    hide Allowed, Take;
    OneStep(Take(archive, a), b);
    assert [a, b][1..] == [b];
  }

  lemma {:induction false} OneStep(archive: Archive, a: Step)
    requires Allowed(archive, a)
    ensures AllAllowed(archive, [a]) && Run(archive, [a]) == Take(archive, a)
  {
    hide Allowed, Take;
    assert [a][1..] == [];
    assert AllAllowed(Take(archive, a), []);
  }

  /** Two tenants that capture one native id: every save is allowed, and the second clashes. */
  lemma TwoTenantsClash(n: nat)
    ensures var steps := [Capture(0, 0, [Turn(Native(n), None)]), Capture(1, 1, [Turn(Native(n), None)])];
      AllAllowed(Archive(map[], 0), steps) && !OneOwnerArchiveWide(Run(Archive(map[], 0), steps))
  {
    var empty, captured := Archive(map[], 0), [Turn(Native(n), None)];
    var first := Save(empty, 0, 0, captured);
    EmptyInv();
    SaveKeeps(empty, 0, 0, captured);
    NothingHeld(empty, 0, 0);
    SavedAsIs(empty, 0, 0, captured, captured[0]);
    NothingHeld(first, 1, 1);
    assert Allowed(empty, Capture(0, 0, captured)) && Allowed(first, Capture(1, 1, captured));
    TwoSteps(empty, Capture(0, 0, captured), Capture(1, 1, captured));
    hide Held, Scope, Capturable, Inv, AllAllowed, Run;
    assert OneOwnerArchiveWide(first);
    AcrossExact(first, 1, 1, captured);
    assert captured[0] in captured && 0 in first.sessions;
  }

  lemma NothingHeld(archive: Archive, tenant: nat, session: nat)
    requires forall s :: s in archive.sessions ==> archive.sessions[s].tenant != tenant
    ensures Held(archive, tenant, session) == {}
  {
  }
}
