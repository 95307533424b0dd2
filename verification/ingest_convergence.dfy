/**
 * Retry convergence: what any number of aborted attempts and one completed
 * attempt leave behind, compared with a single clean attempt.
 */
module IngestConvergence {
  import opened Wrappers
  import opened IngestRecords
  import opened IngestSpec

  /** Every artifact row sits under its own digest. */
  predicate Keyed(db: Db)
  {
    forall k :: k in db.artifacts ==> db.artifacts[k].meta.sha256 == k
  }

  /** Equal in everything but the best-effort embeddings. */
  predicate Same(a: Db, b: Db)
  {
    a.(embeddings := map[]) == b.(embeddings := map[])
  }

  /** The tables after one attempt per plan, oldest first. */
  function AfterAttempts(w: World, sha256: string, db: Db, plans: seq<seq<Fault>>): Db
  {
    if |plans| == 0 then db
    else Process(w, sha256, AfterAttempts(w, sha256, db, plans[..|plans| - 1]), plans[|plans| - 1]).db
  }

  ghost predicate AllAborted(w: World, sha256: string, db: Db, plans: seq<seq<Fault>>)
  {
    forall i :: 0 <= i < |plans| ==> Process(w, sha256, AfterAttempts(w, sha256, db, plans[..i]), plans[i]).answer.Threw?
  }

  /** Whatever was aborted before it, an attempt that completes ends where a clean one does. */
  ghost predicate Converges(w: World, sha256: string, db: Db)
  {
    forall plans: seq<seq<Fault>>, last: seq<Fault> ::
      AllAborted(w, sha256, db, plans) && Process(w, sha256, AfterAttempts(w, sha256, db, plans), last).answer.Done? ==>
        var finished := Process(w, sha256, AfterAttempts(w, sha256, db, plans), last);
        var clean := Process(w, sha256, db, []);
        Same(finished.db, clean.db) && finished.answer == clean.answer
  }

  /**
   * The condition, which a caller can read off the row before the first call.
   *
   * A failure report replaces the row's session ids, so an id the row proposed
   * and no identity yet records is lost to the next attempt. It matters unless
   * the parser proposes the same id, or an earlier session of the same artifact
   * settles the identity first.
   */
  predicate Settled(w: World, sha256: string, db: Db)
  {
    sha256 in db.artifacts && db.artifacts[sha256].meta.objectKey in w.objects ==>
      var row := db.artifacts[sha256];
      match Parsing(w, row.meta)
      case ParserThrew(_) => true
      case Unknown(_) => row.sessionIds == []
      case Sessions(_, sessions) =>
        forall i :: 0 <= i < |sessions| && i < |row.sessionIds| ==> IdSettled(w, row, sessions, db.identities, i)
  }

  predicate IdSettled(w: World, row: Artifact, sessions: seq<Session>, identities: map<IdentityKey, string>, i: nat)
    requires i < |sessions| && i < |row.sessionIds|
  {
    var key := KeyOf(w, row.meta, sessions[i], i);
    key in identities || row.sessionIds[i] == sessions[i].id
    || exists j :: 0 <= j < i && KeyOf(w, row.meta, sessions[j], j) == key
  }

  // ---------------------------------------------------------------- one session

  function TeamsAfter(db: Db, teams: map<string, Option<string>>, session: Session): map<string, Option<string>>
  {
    if !Stampable(session) || session.source.machineId in teams then teams
    else teams[session.source.machineId := TeamOf(db, session.source.machineId)]
  }

  function IdFor(w: World, row: Artifact, session: Session, index: nat, db: Db): string
  {
    var key := KeyOf(w, row.meta, session, index);
    Identify(db, key, Proposed(row, session, index)).identities[key]
  }

  /** The session row one loop turn writes. */
  function Written(w: World, row: Artifact, parser: string, session: Session, findings: seq<Finding>, index: nat, r: Run): Session
  {
    var parsed := Captured(session, IdFor(w, row, session, index, r.db), parser, findings);
    Stamped(parsed, TeamsAfter(r.db, r.teams, parsed))
  }

  lemma CallEffect(r: Run, applied: Db)
    ensures var c := Call(r, applied);
      && c.teams == r.teams && c.saved == r.saved
      && (c.db == applied || c.db == r.db)
      && (c.error.None? ==> c.db == applied)
      && (r.error.None? && r.plan == [] ==> c.error.None? && c.plan == [])
  {
  }

  lemma PrepareEffect(w: World, row: Artifact, parser: string, session: Session, findings: seq<Finding>, index: nat, r: Run)
    requires r.error.None?
    ensures var (r', stamped) := Prepare(w, row, parser, session, findings, index, r);
      var key := KeyOf(w, row.meta, session, index);
      var id := IdFor(w, row, session, index, r.db);
      && r'.db == r.db.(identities := r'.db.identities)
      && (r'.db.identities == r.db.identities || r'.db.identities == r.db.identities[key := id])
      && r'.saved == r.saved
      && (r.plan == [] ==> r'.error.None? && r'.plan == [])
      && (r'.error.None? ==>
        && r'.db.identities == r.db.identities[key := id]
        && stamped == Written(w, row, parser, session, findings, index, r)
        && r'.teams == TeamsAfter(r.db, r.teams, Captured(session, id, parser, findings)))
  {
    hide KeyOf, Proposed, Captured, Stamped, Stampable, Call;
    var key := KeyOf(w, row.meta, session, index);
    var id := IdFor(w, row, session, index, r.db);
    var named := Identify(r.db, key, Proposed(row, session, index));
    assert named.identities == r.db.identities[key := id];
    assert named == r.db.(identities := named.identities);
    CallEffect(r, named);
    var r1 := Call(r, named);
    if r1.error.None? {
      LookupEffect(r1, Captured(session, id, parser, findings));
      hide LookupTeam, TeamsAfter, Identify;
    }
  }

  lemma LookupEffect(r: Run, parsed: Session)
    requires r.error.None?
    ensures var r' := LookupTeam(r, parsed);
      && r'.db == r.db && r'.saved == r.saved
      && (r.plan == [] ==> r'.error.None? && r'.plan == [])
      && (r'.error.None? ==> r'.teams == TeamsAfter(r.db, r.teams, parsed))
  {
    hide Call, Stampable;
    CallEffect(r, r.db);
  }

  lemma StoreEffect(w: World, session: Session, findings: seq<Finding>, r: Run)
    requires r.error.None?
    ensures var r' := Store(w, session, findings, r);
      var sessions := r.db.sessions[session.id := session];
      var annotations := ReplaceScannerRows(r.db.annotations, session.id, findings);
      && r'.db == r.db.(sessions := r'.db.sessions, annotations := r'.db.annotations, embeddings := r'.db.embeddings)
      && (r'.db.sessions == r.db.sessions || r'.db.sessions == sessions)
      && (r'.db.annotations == r.db.annotations || r'.db.annotations == annotations)
      && r'.teams == r.teams
      && (r.plan == [] ==> r'.error.None? && r'.plan == [])
      && (r'.error.Some? ==> r'.saved == r.saved)
      && (r'.error.None? ==> r'.saved == r.saved + [session.id] && r'.db.sessions == sessions && r'.db.annotations == annotations)
  {
    hide ReplaceScannerRows, Call;
    var saved := r.db.(sessions := r.db.sessions[session.id := session]);
    CallEffect(r, saved);
    var r1 := Call(r, saved);
    var annotated := saved.(annotations := ReplaceScannerRows(r.db.annotations, session.id, findings));
    CallEffect(r1, annotated);
    var r2 := Call(r1, annotated);
    CallEffect(r2, annotated.(embeddings := annotated.embeddings[session.id := session.content]));
  }

  lemma WrittenId(w: World, row: Artifact, parser: string, session: Session, findings: seq<Finding>, index: nat, r: Run)
    ensures Written(w, row, parser, session, findings, index, r).id == IdFor(w, row, session, index, r.db)
  {
  }

  // ---------------------------------------------------------------- what no attempt changes

  lemma {:induction false} WithoutScannerRowsKeeps(kept: seq<Annotation>, findings: seq<Finding>)
    ensures WithoutScannerRows(WithoutScannerRows(kept) + ScannerRows(findings)) == WithoutScannerRows(kept)
    decreases |kept|
  {
    if |kept| == 0 {
      assert [] + ScannerRows(findings) == ScannerRows(findings);
      OnlyScannerRows(ScannerRows(findings));
    } else {
      WithoutScannerRowsKeeps(kept[1..], findings);
      if !ScannerRow(kept[0]) {
        var rest := WithoutScannerRows(kept[1..]);
        assert WithoutScannerRows(kept) == [kept[0]] + rest;
        hide ScannerRow, ScannerRows;
        assert ([kept[0]] + rest) + ScannerRows(findings) == [kept[0]] + (rest + ScannerRows(findings));
        KeepsHandRow(kept[0], rest + ScannerRows(findings));
      }
    }
  }

  lemma {:induction false} KeepsHandRow(row: Annotation, rest: seq<Annotation>)
    requires !ScannerRow(row)
    ensures WithoutScannerRows([row] + rest) == [row] + WithoutScannerRows(rest)
  {
    assert ([row] + rest)[1..] == rest;
  }

  lemma {:induction false} OnlyScannerRows(rows: seq<Annotation>)
    requires forall i :: 0 <= i < |rows| ==> ScannerRow(rows[i])
    ensures WithoutScannerRows(rows) == []
  {
    if |rows| > 0 {
      OnlyScannerRows(rows[1..]);
    }
  }

  ghost predicate Sub(a: map<IdentityKey, string>, b: map<IdentityKey, string>)
  {
    forall k :: k in a ==> k in b && a[k] == b[k]
  }

  ghost predicate AgreeAt(a: Db, b: Db, id: string)
  {
    && (id in a.sessions <==> id in b.sessions) && (id in a.sessions ==> a.sessions[id] == b.sessions[id])
    && (id in a.annotations <==> id in b.annotations) && RowsOf(a.annotations, id) == RowsOf(b.annotations, id)
  }

  ghost predicate HandRowsAgree(a: Db, b: Db)
  {
    forall id :: WithoutScannerRows(RowsOf(a.annotations, id)) == WithoutScannerRows(RowsOf(b.annotations, id))
  }

  /** Only rows of `ids` are written, identities only grow, and hand-written annotations stay. */
  ghost predicate Within(a: Db, b: Db, ids: seq<string>)
  {
    && a.settings == b.settings && a.optins == b.optins
    && Sub(a.identities, b.identities)
    && (forall id :: id !in ids ==> AgreeAt(a, b, id))
    && HandRowsAgree(a, b)
  }

  lemma WritesWithin(a: Db, b: Db, id: string, session: Session, findings: seq<Finding>)
    requires b == a.(sessions := b.sessions, annotations := b.annotations, embeddings := b.embeddings)
    requires b.sessions == a.sessions || b.sessions == a.sessions[id := session]
    requires b.annotations == a.annotations || b.annotations == ReplaceScannerRows(a.annotations, id, findings)
    ensures Within(a, b, [id])
  {
    hide WithoutScannerRows, ScannerRows;
    forall other ensures WithoutScannerRows(RowsOf(a.annotations, other)) == WithoutScannerRows(RowsOf(b.annotations, other)) {
      WithoutScannerRowsKeeps(RowsOf(a.annotations, id), findings);
    }
  }

  lemma IdentityWithin(a: Db, b: Db, key: IdentityKey, id: string)
    requires b == a.(identities := b.identities)
    requires b.identities == a.identities || (b.identities == a.identities[key := id] && (key in a.identities ==> a.identities[key] == id))
    ensures Within(a, b, [])
  {
    hide WithoutScannerRows;
  }

  lemma WithinTrans(a: Db, b: Db, c: Db, ab: seq<string>, bc: seq<string>, ac: seq<string>)
    requires Within(a, b, ab) && Within(b, c, bc)
    requires forall id :: id in ab || id in bc ==> id in ac
    ensures Within(a, c, ac)
  {
    hide WithoutScannerRows, RowsOf;
  }

  lemma SaveOneWithin(w: World, row: Artifact, parser: string, session: Session, findings: seq<Finding>, index: nat, r: Run)
    requires r.error.None?
    ensures var r' := SaveOne(w, row, parser, session, findings, index, r);
      && Within(r.db, r'.db, [IdFor(w, row, session, index, r.db)])
      && r'.db.artifacts == r.db.artifacts
      && (r'.error.Some? ==> r'.saved == r.saved)
  {
    hide Prepare, Store, IdFor, Written, KeyOf, Within, ReplaceScannerRows, TeamsAfter, Captured;
    var id := IdFor(w, row, session, index, r.db);
    var (prepared, stamped) := Prepare(w, row, parser, session, findings, index, r);
    PrepareEffect(w, row, parser, session, findings, index, r);
    IdForKnown(w, row, session, index, r.db);
    IdentityWithin(r.db, prepared.db, KeyOf(w, row.meta, session, index), id);
    WrittenId(w, row, parser, session, findings, index, r);
    var r' := SaveOne(w, row, parser, session, findings, index, r);
    if prepared.error.None? {
      StoreEffect(w, stamped, findings, prepared);
      WritesWithin(prepared.db, r'.db, id, stamped, findings);
      WithinTrans(r.db, prepared.db, r'.db, [], [id], [id]);
    } else {
      WithinSelf(r'.db);
      WithinTrans(r.db, prepared.db, r'.db, [], [], [id]);
    }
  }

  lemma WithinSelf(a: Db)
    ensures Within(a, a, [])
  {
  }

  lemma IdForKnown(w: World, row: Artifact, session: Session, index: nat, db: Db)
    ensures var key := KeyOf(w, row.meta, session, index);
      IdFor(w, row, session, index, db) == if key in db.identities then db.identities[key] else Proposed(row, session, index)
  {
  }

  // ---------------------------------------------------------------- a retry beside a clean attempt

  /** Two attempts level in the loop, having saved the same ids. */
  ghost predicate InStep(c: Run, b: Run)
  {
    && c.error.None? && b.error.None? && c.saved == b.saved && c.teams == b.teams
    && c.db.settings == b.db.settings && c.db.optins == b.db.optins
    && Sub(c.db.identities, b.db.identities)
    && HandRowsAgree(c.db, b.db)
    && (forall id :: id in c.saved ==> AgreeAt(c.db, b.db, id))
  }

  lemma StepTogether(w: World, row: Artifact, row': Artifact, parser: string, session: Session, findings: seq<Finding>, index: nat, c: Run, b: Run)
    requires InStep(c, b) && c.plan == [] && row.meta == row'.meta
    requires IdFor(w, row, session, index, c.db) == IdFor(w, row', session, index, b.db)
    ensures var c' := SaveOne(w, row, parser, session, findings, index, c);
      var b' := SaveOne(w, row', parser, session, findings, index, b);
      var key := KeyOf(w, row.meta, session, index);
      var id := IdFor(w, row, session, index, c.db);
      && c'.error.None? && c'.plan == [] && c'.saved == c.saved + [id]
      && c'.db.identities == c.db.identities[key := id]
      && (b'.db.identities == b.db.identities || b'.db.identities == b.db.identities[key := id])
      && (b'.error.Some? ==> b'.saved == b.saved)
      && (b'.error.None? ==> InStep(c', b') && b'.db.identities == b.db.identities[key := id])
  {
    hide Prepare, Store, IdFor, KeyOf, Captured, Stamped, Stampable, ScannerRows, WithoutScannerRows;
    PrepareEffect(w, row, parser, session, findings, index, c);
    PrepareEffect(w, row', parser, session, findings, index, b);
    WrittenId(w, row, parser, session, findings, index, c);
    WrittenId(w, row', parser, session, findings, index, b);
    var (pc, sc) := Prepare(w, row, parser, session, findings, index, c);
    var (pb, sb) := Prepare(w, row', parser, session, findings, index, b);
    StoreEffect(w, sc, findings, pc);
    if pb.error.None? {
      assert sc == sb;
      StoreEffect(w, sb, findings, pb);
      var c' := SaveOne(w, row, parser, session, findings, index, c);
      var b' := SaveOne(w, row', parser, session, findings, index, b);
      if b'.error.None? {
        SameWritesAgree(pc.db, c'.db, pb.db, b'.db, sc.id, sc, findings);
        assert forall id :: id in c.saved ==> AgreeAt(c.db, b.db, id);
      }
    }
  }

  lemma SameWritesAgree(c: Db, c': Db, b: Db, b': Db, id: string, session: Session, findings: seq<Finding>)
    requires HandRowsAgree(c, b)
    requires c'.sessions == c.sessions[id := session] && b'.sessions == b.sessions[id := session]
    requires c'.annotations == ReplaceScannerRows(c.annotations, id, findings)
    requires b'.annotations == ReplaceScannerRows(b.annotations, id, findings)
    ensures HandRowsAgree(c', b') && AgreeAt(c', b', id)
    ensures forall other :: other != id && AgreeAt(c, b, other) ==> AgreeAt(c', b', other)
  {
    hide WithoutScannerRows, ScannerRows;
    assert WithoutScannerRows(RowsOf(c.annotations, id)) == WithoutScannerRows(RowsOf(b.annotations, id));
    forall other ensures WithoutScannerRows(RowsOf(c'.annotations, other)) == WithoutScannerRows(RowsOf(b'.annotations, other)) {
      assert WithoutScannerRows(RowsOf(c.annotations, other)) == WithoutScannerRows(RowsOf(b.annotations, other));
    }
  }

  /** The clean loop: no exception, one id per session, and each id is what its identity resolves to. */
  lemma {:induction false} CleanLoop(w: World, row: Artifact, parser: string, sessions: seq<Session>, findings: seq<Finding>, c: Run, n: nat)
    requires n <= |sessions|
    requires c.error.None? && c.plan == [] && c.saved == []
    ensures var done := SaveFirst(w, row, parser, sessions, findings, c, n);
      && done.error.None? && done.plan == [] && |done.saved| == n
      && (forall j :: 0 <= j < n ==>
        var key := KeyOf(w, row.meta, sessions[j], j);
        key in done.db.identities && done.saved[j] == done.db.identities[key])
      && Sub(c.db.identities, done.db.identities)
      && done.db.artifacts == c.db.artifacts
  {
    hide SaveOne, IdFor, KeyOf, Within, InStep;
    if n > 0 {
      CleanLoop(w, row, parser, sessions, findings, c, n - 1);
      var before := SaveFirst(w, row, parser, sessions, findings, c, n - 1);
      InStepSelf(before);
      StepTogether(w, row, row, parser, sessions[n - 1], findings, n - 1, before, before);
      IdForKnown(w, row, sessions[n - 1], n - 1, before.db);
      SaveOneWithin(w, row, parser, sessions[n - 1], findings, n - 1, before);
    }
  }

  lemma InStepSelf(r: Run)
    requires r.error.None?
    ensures InStep(r, r)
  {
  }

  /** Later turns of the clean loop only append and only add identities. */
  lemma {:induction false} CleanPrefix(w: World, row: Artifact, parser: string, sessions: seq<Session>, findings: seq<Finding>, c: Run, i: nat, n: nat)
    requires i <= n <= |sessions|
    requires c.error.None? && c.plan == [] && c.saved == []
    ensures var early, late := SaveFirst(w, row, parser, sessions, findings, c, i), SaveFirst(w, row, parser, sessions, findings, c, n);
      && early.saved <= late.saved && Sub(early.db.identities, late.db.identities)
  {
    hide SaveOne, IdFor, KeyOf, Within, InStep;
    if i < n {
      CleanPrefix(w, row, parser, sessions, findings, c, i, n - 1);
      CleanLoop(w, row, parser, sessions, findings, c, n - 1);
      var before := SaveFirst(w, row, parser, sessions, findings, c, n - 1);
      InStepSelf(before);
      StepTogether(w, row, row, parser, sessions[n - 1], findings, n - 1, before, before);
      IdForKnown(w, row, sessions[n - 1], n - 1, before.db);
    }
  }

  /** The ids a row proposes are the original ones, or a reported prefix whose identities are all known. */
  ghost predicate Proposes(w: World, row: Artifact, row': Artifact, sessions: seq<Session>, ids: seq<string>, identities: map<IdentityKey, string>)
  {
    && row'.meta == row.meta
    && (row'.sessionIds == row.sessionIds
        || (row'.sessionIds <= ids && |row'.sessionIds| <= |sessions|
            && forall j :: 0 <= j < |row'.sessionIds| ==> KeyOf(w, row.meta, sessions[j], j) in identities))
  }

  ghost predicate AllSettled(w: World, row: Artifact, sessions: seq<Session>, identities: map<IdentityKey, string>)
  {
    forall i :: 0 <= i < |sessions| && i < |row.sessionIds| ==> IdSettled(w, row, sessions, identities, i)
  }

  /** What every state between two attempts keeps, for one artifact with parsed sessions. */
  ghost predicate Between(w: World, row: Artifact, sessions: seq<Session>, done: Run, db0: Db, db: Db)
  {
    && row.meta.sha256 in db.artifacts
    && db.artifacts == db0.artifacts[row.meta.sha256 := db.artifacts[row.meta.sha256]]
    && Proposes(w, row, db.artifacts[row.meta.sha256], sessions, done.saved, db.identities)
    && Within(db0, db, done.saved)
    && Sub(db.identities, done.db.identities)
  }

  /** Level with the clean attempt, a retry resolves the next session to the same id. */
  lemma ResolvesAlike(w: World, row: Artifact, row': Artifact, sessions: seq<Session>, start: Run, retry: Run, cp: Run, bp: Run, done: Run, i: nat)
    requires i < |sessions| && i < |done.saved|
    requires InStep(cp, bp) && |cp.saved| == i
    requires forall j :: 0 <= j < i ==> KeyOf(w, row.meta, sessions[j], j) in cp.db.identities
    requires Sub(start.db.identities, cp.db.identities) && Sub(retry.db.identities, bp.db.identities)
    requires Proposes(w, row, row', sessions, done.saved, retry.db.identities)
    requires Sub(bp.db.identities, done.db.identities)
    requires AllSettled(w, row, sessions, start.db.identities)
    requires var key := KeyOf(w, row.meta, sessions[i], i); key in done.db.identities && done.saved[i] == done.db.identities[key]
    requires IdFor(w, row, sessions[i], i, cp.db) == done.saved[i]
    ensures IdFor(w, row', sessions[i], i, bp.db) == done.saved[i]
  {
    hide KeyOf, IdFor;
    var key := KeyOf(w, row.meta, sessions[i], i);
    IdForKnown(w, row, sessions[i], i, cp.db);
    IdForKnown(w, row', sessions[i], i, bp.db);
    if key !in bp.db.identities {
      assert key !in cp.db.identities && key !in start.db.identities && key !in retry.db.identities;
      if i < |row.sessionIds| {
        assert IdSettled(w, row, sessions, start.db.identities, i);
      }
    }
  }

  /** One session further, the retry writes within what the clean attempt writes, and keeps level unless it is cut off. */
  lemma OneFurther(w: World, row: Artifact, row': Artifact, parser: string, session: Session, findings: seq<Finding>, c: Run, b: Run, start: Db, done: Run, i: nat)
    requires InStep(c, b) && b.error.None? && c.plan == [] && row.meta == row'.meta && i < |done.saved|
    requires IdFor(w, row, session, i, c.db) == done.saved[i] == IdFor(w, row', session, i, b.db)
    requires Within(start, b.db, done.saved) && Sub(b.db.identities, done.db.identities)
    requires var key := KeyOf(w, row.meta, session, i); key in done.db.identities && done.db.identities[key] == done.saved[i]
    ensures var c' := SaveOne(w, row, parser, session, findings, i, c);
      var b' := SaveOne(w, row', parser, session, findings, i, b);
      && b.db.identities.Keys <= b'.db.identities.Keys && Sub(b'.db.identities, done.db.identities)
      && Within(start, b'.db, done.saved) && b'.db.artifacts == b.db.artifacts
      && (b'.error.Some? ==> b'.saved == b.saved)
      && (b'.error.None? ==> InStep(c', b') && b'.saved == b.saved + [done.saved[i]] && KeyOf(w, row.meta, session, i) in b'.db.identities)
  {
    hide SaveOne, IdFor, KeyOf, Within, InStep;
    StepTogether(w, row, row', parser, session, findings, i, c, b);
    SaveOneWithin(w, row', parser, session, findings, i, b);
    var c' := SaveOne(w, row, parser, session, findings, i, c);
    var b' := SaveOne(w, row', parser, session, findings, i, b);
    assert done.saved[i] in done.saved;
    WithinTrans(start, b.db, b'.db, done.saved, [done.saved[i]], done.saved);
    SavedAlike(c, b);
    if b'.error.None? {
      SavedAlike(c', b');
    }
  }

  /**
   * A retry's loop beside the clean one: as far as the retry gets, it saves the
   * same ids, and whatever it writes lies within what the clean attempt writes.
   */
  lemma {:induction false} Lockstep(w: World, row: Artifact, row': Artifact, parser: string, sessions: seq<Session>, findings: seq<Finding>, c: Run, b: Run, n: nat)
    requires n <= |sessions|
    requires c.error.None? && c.plan == [] && c.saved == [] && InStep(c, b)
    requires var done := SaveFirst(w, row, parser, sessions, findings, c, |sessions|);
      && Proposes(w, row, row', sessions, done.saved, b.db.identities)
      && Sub(b.db.identities, done.db.identities)
    requires AllSettled(w, row, sessions, c.db.identities)
    ensures var done := SaveFirst(w, row, parser, sessions, findings, c, |sessions|);
      var cn := SaveFirst(w, row, parser, sessions, findings, c, n);
      var bn := SaveFirst(w, row', parser, sessions, findings, b, n);
      && Sub(bn.db.identities, done.db.identities)
      && Within(b.db, bn.db, done.saved)
      && bn.db.artifacts == b.db.artifacts
      && bn.saved <= done.saved && |bn.saved| <= n
      && (forall j :: 0 <= j < |bn.saved| ==> KeyOf(w, row.meta, sessions[j], j) in bn.db.identities)
      && (bn.error.None? ==> InStep(cn, bn))
  {
    hide SaveOne, IdFor, KeyOf, Within, InStep, Sub;
    var done := SaveFirst(w, row, parser, sessions, findings, c, |sessions|);
    if n == 0 {
      WithinSelf(b.db);
      WithinTrans(b.db, b.db, b.db, [], [], done.saved);
      assert InStep(c, b);
      SavedAlike(c, b);
    } else {
      Lockstep(w, row, row', parser, sessions, findings, c, b, n - 1);
      var bp := SaveFirst(w, row', parser, sessions, findings, b, n - 1);
      if bp.error.None? {
        var cp := SaveFirst(w, row, parser, sessions, findings, c, n - 1);
        CleanLoop(w, row, parser, sessions, findings, c, n - 1);
        CleanLoop(w, row, parser, sessions, findings, c, n);
        CleanLoop(w, row, parser, sessions, findings, c, |sessions|);
        CleanPrefix(w, row, parser, sessions, findings, c, n, |sessions|);
        InStepSelf(cp);
        StepTogether(w, row, row, parser, sessions[n - 1], findings, n - 1, cp, cp);
        WithinSub(b.db, bp.db, done.saved);
        ResolvesAlike(w, row, row', sessions, c, b, cp, bp, done, n - 1);
        OneFurther(w, row, row', parser, sessions[n - 1], findings, cp, bp, b.db, done, n - 1);
        SavedAlike(cp, bp);
      }
    }
  }

  lemma SavedAlike(c: Run, b: Run)
    requires InStep(c, b)
    ensures b.saved == c.saved
  {
  }

  lemma WithinSub(a: Db, b: Db, ids: seq<string>)
    requires Within(a, b, ids)
    ensures Sub(a.identities, b.identities)
  {
  }

  // ---------------------------------------------------------------- whole attempts

  function Fresh(db: Db, plan: seq<Fault>): Run { Run(db, plan, map[], [], None) }

  /** The clean loop of an artifact whose bytes parse into sessions. */
  function CleanRun(w: World, row: Artifact, db: Db): Run
    requires row.meta.objectKey in w.objects && Parsing(w, row.meta).Sessions?
  {
    var p := Parsing(w, row.meta);
    SaveFirst(w, row, p.parser, p.sessions, w.scan(w.objects[row.meta.objectKey], db.settings), Fresh(db, []), |p.sessions|)
  }

  function ParsedRow(row: Artifact, ids: seq<string>): Artifact
  {
    row.(sessionIds := ids, status := Parsed, diagnostic := None)
  }

  lemma CleanProcess(w: World, sha256: string, db: Db)
    requires sha256 in db.artifacts && db.artifacts[sha256].meta.objectKey in w.objects
    requires Parsing(w, db.artifacts[sha256].meta).Sessions?
    ensures var row := db.artifacts[sha256];
      var done := CleanRun(w, row, db);
      var clean := Process(w, sha256, db, []);
      clean.db == WriteRow(done.db, ParsedRow(row, done.saved)) && clean.answer == Done(Parsed, done.saved)
  {
    hide SaveFirst, SaveOne;
    var row := db.artifacts[sha256];
    var p := Parsing(w, row.meta);
    CleanLoop(w, row, p.parser, p.sessions, w.scan(w.objects[row.meta.objectKey], db.settings), Fresh(db, []), |p.sessions|);
  }

  /** Where a retry's `parse` can stop, and where it arrives. */
  lemma RetryParse(w: World, row: Artifact, db0: Db, db: Db, plan: seq<Fault>)
    requires row.meta.objectKey in w.objects && Parsing(w, row.meta).Sessions?
    requires AllSettled(w, row, Parsing(w, row.meta).sessions, db0.identities)
    requires Between(w, row, Parsing(w, row.meta).sessions, CleanRun(w, row, db0), db0, db)
    ensures var sessions := Parsing(w, row.meta).sessions;
      var done := CleanRun(w, row, db0);
      var row' := db.artifacts[row.meta.sha256];
      var (r, answer) := Parse(w, row', Fresh(db, plan));
      && Within(db, r.db, done.saved) && Sub(r.db.identities, done.db.identities)
      && r.saved <= done.saved && |r.saved| <= |sessions|
      && (forall j :: 0 <= j < |r.saved| ==> KeyOf(w, row.meta, sessions[j], j) in r.db.identities)
      && (r.db.artifacts == db.artifacts || (r.saved == done.saved && r.db.artifacts == db.artifacts[row.meta.sha256 := ParsedRow(row, done.saved)]))
      && answer.Threw? == r.error.Some?
      && (r.error.None? ==>
        && Same(r.db, WriteRow(done.db, ParsedRow(row, done.saved))) && answer == Done(Parsed, done.saved))
  {
    hide SaveFirst, SaveOne, KeyOf, Within, Sub, AllSettled, Call;
    var p := Parsing(w, row.meta);
    var done := CleanRun(w, row, db0);
    var row' := db.artifacts[row.meta.sha256];
    var findings := w.scan(w.objects[row.meta.objectKey], db0.settings);
    var c := Fresh(db0, []);
    var r := Fresh(db, plan);
    NothingWritten(db, done.saved);
    CallEffect(r, db);
    var r0 := Call(r, db);
    CallEffect(r0, db);
    var r1 := Call(r0, db);
    if r0.error.None? && r1.error.None? {
      LevelStart(db0, db, done.saved, c, r1);
      Lockstep(w, row, row', p.parser, p.sessions, findings, c, r1, |p.sessions|);
      var r2 := SaveFirst(w, row', p.parser, p.sessions, findings, r1, |p.sessions|);
      if r2.error.None? {
        SavedAlike(done, r2);
        CallEffect(r2, WriteRow(r2.db, ParsedRow(row, done.saved)));
        CleanLoop(w, row, p.parser, p.sessions, findings, c, |p.sessions|);
        InStepSelf(c);
        Lockstep(w, row, row, p.parser, p.sessions, findings, c, c, |p.sessions|);
        Arrives(db0, db, done, r2, ParsedRow(row, done.saved));
        RowOnly(db, r2.db, WriteRow(r2.db, ParsedRow(row, done.saved)), done.saved);
      }
    }
  }

  lemma NothingWritten(db: Db, ids: seq<string>)
    ensures Within(db, db, ids)
  {
  }

  lemma RowOnly(a: Db, b: Db, c: Db, ids: seq<string>)
    requires Within(a, b, ids) && c == b.(artifacts := c.artifacts)
    ensures Within(a, c, ids)
  {
  }

  lemma LevelStart(db0: Db, db: Db, ids: seq<string>, c: Run, b: Run)
    requires Within(db0, db, ids)
    requires c.db == db0 && b.db == db && c.error.None? && b.error.None? && c.saved == b.saved == [] && c.teams == b.teams
    ensures InStep(c, b) && db.settings == db0.settings
  {
  }

  lemma Arrives(db0: Db, db: Db, done: Run, r: Run, row: Artifact)
    requires Within(db0, db, done.saved) && Within(db, r.db, done.saved) && Within(db0, done.db, done.saved)
    requires InStep(done, r) && Sub(r.db.identities, done.db.identities)
    requires done.db.artifacts == db0.artifacts && r.db.artifacts == db.artifacts
    requires row.meta.sha256 in db.artifacts && db.artifacts == db0.artifacts[row.meta.sha256 := db.artifacts[row.meta.sha256]]
    ensures Same(WriteRow(r.db, row), WriteRow(done.db, row))
  {
    hide WithoutScannerRows;
    WithinTrans(db0, db, r.db, done.saved, done.saved, done.saved);
    forall id
      ensures (id in done.db.sessions <==> id in r.db.sessions) && (id in done.db.sessions ==> done.db.sessions[id] == r.db.sessions[id])
      ensures (id in done.db.annotations <==> id in r.db.annotations) && (id in done.db.annotations ==> done.db.annotations[id] == r.db.annotations[id])
    {
      if id in done.saved {
        assert AgreeAt(done.db, r.db, id);
      } else {
        assert AgreeAt(db0, done.db, id) && AgreeAt(db0, r.db, id);
      }
    }
    assert done.db.sessions == r.db.sessions;
    assert done.db.annotations == r.db.annotations;
    assert done.db.identities == r.db.identities;
    assert WriteRow(r.db, row).artifacts == WriteRow(done.db, row).artifacts;
  }

  /** An aborted retry stays between; a completed one arrives at the clean result. */
  lemma RetryAttempt(w: World, sha256: string, row: Artifact, db0: Db, db: Db, plan: seq<Fault>)
    requires row.meta.sha256 == sha256 && sha256 in db0.artifacts && db0.artifacts[sha256] == row
    requires row.meta.objectKey in w.objects && Parsing(w, row.meta).Sessions?
    requires AllSettled(w, row, Parsing(w, row.meta).sessions, db0.identities)
    requires Between(w, row, Parsing(w, row.meta).sessions, CleanRun(w, row, db0), db0, db)
    ensures var a := Process(w, sha256, db, plan);
      var clean := Process(w, sha256, db0, []);
      && (a.answer.Threw? ==> Between(w, row, Parsing(w, row.meta).sessions, CleanRun(w, row, db0), db0, a.db))
      && (a.answer.Done? ==> Same(a.db, clean.db) && a.answer == clean.answer)
  {
    hide Parse, CleanRun, KeyOf, Within, Sub, AllSettled, Call;
    var sessions := Parsing(w, row.meta).sessions;
    var done := CleanRun(w, row, db0);
    var row' := db.artifacts[sha256];
    var start := Fresh(db, plan);
    CleanProcess(w, sha256, db0);
    CallEffect(start, db);
    var started := Call(start, db);
    if started.error.None? {
      RetryParse(w, row, db0, db, started.plan);
      assert started == Fresh(db, started.plan);
      var (r, answer) := Parse(w, row', started);
      if r.error.Some? {
        var report := FailureRow(row', r.saved, r.error.value);
        CallEffect(r, WriteRow(r.db, report));
        WithinTrans(db0, db, r.db, done.saved, done.saved, done.saved);
        RowOnly(db0, r.db, WriteRow(r.db, report), done.saved);
        WithinSub(db, r.db, done.saved);
        Reported(w, row, sessions, done, db0, db, r, Process(w, sha256, db, plan).db, report);
      }
    }
  }

  lemma Reported(w: World, row: Artifact, sessions: seq<Session>, done: Run, db0: Db, db: Db, r: Run, after: Db, report: Artifact)
    requires Between(w, row, sessions, done, db0, db)
    requires Within(db0, r.db, done.saved) && Within(db0, after, done.saved) && Sub(r.db.identities, done.db.identities)
    requires Sub(db.identities, r.db.identities)
    requires r.saved <= done.saved && |r.saved| <= |sessions|
    requires forall j :: 0 <= j < |r.saved| ==> KeyOf(w, row.meta, sessions[j], j) in r.db.identities
    requires r.db.artifacts == db.artifacts || (r.saved == done.saved && r.db.artifacts == db.artifacts[row.meta.sha256 := ParsedRow(row, done.saved)])
    requires report.meta == row.meta && report.sessionIds == r.saved
    requires after == r.db || after == WriteRow(r.db, report)
    ensures Between(w, row, sessions, done, db0, after)
  {
    hide KeyOf, Within;
  }

  lemma {:induction false} RetriesBetween(w: World, sha256: string, row: Artifact, db0: Db, plans: seq<seq<Fault>>)
    requires row.meta.sha256 == sha256 && sha256 in db0.artifacts && db0.artifacts[sha256] == row
    requires row.meta.objectKey in w.objects && Parsing(w, row.meta).Sessions?
    requires AllSettled(w, row, Parsing(w, row.meta).sessions, db0.identities)
    requires AllAborted(w, sha256, db0, plans)
    ensures Between(w, row, Parsing(w, row.meta).sessions, CleanRun(w, row, db0), db0, AfterAttempts(w, sha256, db0, plans))
  {
    hide Process, KeyOf, Parsing;
    if |plans| == 0 {
      var p := Parsing(w, row.meta);
      CleanLoop(w, row, p.parser, p.sessions, w.scan(w.objects[row.meta.objectKey], db0.settings), Fresh(db0, []), |p.sessions|);
      assert db0.artifacts == db0.artifacts[sha256 := row];
    } else {
      var earlier := plans[..|plans| - 1];
      assert forall i :: 0 <= i < |earlier| ==> earlier[..i] == plans[..i];
      assert AllAborted(w, sha256, db0, earlier);
      RetriesBetween(w, sha256, row, db0, earlier);
      RetryAttempt(w, sha256, row, db0, AfterAttempts(w, sha256, db0, earlier), plans[|plans| - 1]);
      assert Process(w, sha256, AfterAttempts(w, sha256, db0, plans[..|plans| - 1]), plans[|plans| - 1]).answer.Threw?;
    }
  }

  // ---------------------------------------------------------------- artifacts of unknown format

  /** Between attempts on an artifact no parser knows, only its row has changed, and it names no session. */
  ghost predicate BetweenUnknown(row: Artifact, db0: Db, db: Db)
  {
    && row.meta.sha256 in db.artifacts
    && db == db0.(artifacts := db0.artifacts[row.meta.sha256 := db.artifacts[row.meta.sha256]])
    && db.artifacts[row.meta.sha256].meta == row.meta && db.artifacts[row.meta.sha256].sessionIds == []
  }

  lemma RetryUnknown(w: World, sha256: string, row: Artifact, db0: Db, db: Db, plan: seq<Fault>)
    requires row.meta.sha256 == sha256 && sha256 in db0.artifacts && db0.artifacts[sha256] == row
    requires row.meta.objectKey in w.objects && Parsing(w, row.meta).Unknown? && row.sessionIds == []
    requires BetweenUnknown(row, db0, db)
    ensures var a := Process(w, sha256, db, plan);
      var clean := Process(w, sha256, db0, []);
      && (a.answer.Threw? ==> BetweenUnknown(row, db0, a.db))
      && (a.answer.Done? ==> Same(a.db, clean.db) && a.answer == clean.answer)
  {
    hide Call, Parsing, Parse, BetweenUnknown, WriteRow;
    RowRewritten(row, db0, db, row);
    var row' := db.artifacts[sha256];
    var written := UnknownRow(row', Parsing(w, row.meta).diagnostic);
    var start := Fresh(db, plan);
    CallEffect(start, db);
    var r0 := Call(start, db);
    CleanUnknown(w, sha256, db0);
    RowRewritten(row, db0, db, written);
    if r0.error.None? {
      ParseUnknown(w, row', r0);
      var r := Parse(w, row', r0).0;
      if r.error.Some? {
        var report := FailureRow(row', [], r.error.value);
        CallEffect(r, WriteRow(r.db, report));
        RowRewritten(row, db0, db, report);
        RowRewritten(row, db0, r.db, report);
      }
    }
  }

  lemma RowRewritten(row: Artifact, db0: Db, db: Db, newRow: Artifact)
    requires BetweenUnknown(row, db0, db) && newRow.meta == row.meta && newRow.sessionIds == []
    ensures BetweenUnknown(row, db0, WriteRow(db, newRow)) && WriteRow(db, newRow) == WriteRow(db0, newRow)
    ensures row.meta.sha256 in db.artifacts
    ensures var row' := db.artifacts[row.meta.sha256]; row'.meta == row.meta && row'.sessionIds == []
  {
  }

  function UnknownRow(row: Artifact, diagnostic: string): Artifact
  {
    row.(status := UnknownFormat, diagnostic := Some(diagnostic))
  }

  lemma ParseUnknown(w: World, row: Artifact, r: Run)
    requires r.error.None? && row.meta.objectKey in w.objects && Parsing(w, row.meta).Unknown?
    ensures var (r', answer) := Parse(w, row, r);
      var written := WriteRow(r.db, UnknownRow(row, Parsing(w, row.meta).diagnostic));
      && (r'.db == r.db || r'.db == written) && r'.saved == r.saved
      && (if r'.error.Some? then answer.Threw? else answer == Done(UnknownFormat, []) && r'.db == written)
  {
    hide Call, Parsing;
    CallEffect(r, r.db);
    CallEffect(Call(r, r.db), WriteRow(r.db, UnknownRow(row, Parsing(w, row.meta).diagnostic)));
  }

  lemma CleanUnknown(w: World, sha256: string, db: Db)
    requires sha256 in db.artifacts && db.artifacts[sha256].meta.objectKey in w.objects
    requires Parsing(w, db.artifacts[sha256].meta).Unknown?
    ensures var row := db.artifacts[sha256];
      Process(w, sha256, db, []) ==
        Attempt(WriteRow(db, UnknownRow(row, Parsing(w, row.meta).diagnostic)), [], Done(UnknownFormat, []))
  {
    hide Parsing;
  }

  lemma {:induction false} RetriesBetweenUnknown(w: World, sha256: string, row: Artifact, db0: Db, plans: seq<seq<Fault>>)
    requires row.meta.sha256 == sha256 && sha256 in db0.artifacts && db0.artifacts[sha256] == row
    requires row.meta.objectKey in w.objects && Parsing(w, row.meta).Unknown? && row.sessionIds == []
    requires AllAborted(w, sha256, db0, plans)
    ensures BetweenUnknown(row, db0, AfterAttempts(w, sha256, db0, plans))
  {
    hide Process, Parsing;
    if |plans| == 0 {
      assert db0.artifacts == db0.artifacts[sha256 := row];
    } else {
      var earlier := plans[..|plans| - 1];
      assert forall i :: 0 <= i < |earlier| ==> earlier[..i] == plans[..i];
      assert AllAborted(w, sha256, db0, earlier);
      RetriesBetweenUnknown(w, sha256, row, db0, earlier);
      RetryUnknown(w, sha256, row, db0, AfterAttempts(w, sha256, db0, earlier), plans[|plans| - 1]);
      assert Process(w, sha256, AfterAttempts(w, sha256, db0, plans[..|plans| - 1]), plans[|plans| - 1]).answer.Threw?;
    }
  }

  // ---------------------------------------------------------------- artifacts that never complete

  predicate Hopeless(w: World, sha256: string, db: Db)
  {
    sha256 !in db.artifacts || db.artifacts[sha256].meta.objectKey !in w.objects || Parsing(w, db.artifacts[sha256].meta).ParserThrew?
  }

  lemma HopelessParse(w: World, row: Artifact, r: Run)
    requires r.error.None? && r.saved == []
    requires row.meta.objectKey !in w.objects || Parsing(w, row.meta).ParserThrew?
    ensures var (after, answer) := Parse(w, row, r);
      after.error.Some? && after.db == r.db && after.saved == [] && answer.Threw?
  {
    hide Call, Parsing, SaveFirst;
    CallEffect(r, r.db);
  }

  lemma HopelessThrows(w: World, sha256: string, db: Db, plan: seq<Fault>)
    requires Hopeless(w, sha256, db) && Keyed(db)
    ensures var a := Process(w, sha256, db, plan);
      a.answer.Threw? && Hopeless(w, sha256, a.db) && Keyed(a.db)
  {
    hide Call, Parsing, Parse, SaveFirst;
    var start := Fresh(db, plan);
    CallEffect(start, db);
    var r0 := Call(start, db);
    if r0.error.None? && sha256 in db.artifacts {
      var row := db.artifacts[sha256];
      var r := Parse(w, row, r0).0;
      HopelessParse(w, row, r0);
      CallEffect(r, WriteRow(db, FailureRow(row, [], r.error.value)));
    }
  }

  lemma {:induction false} HopelessStays(w: World, sha256: string, db: Db, plans: seq<seq<Fault>>)
    requires Hopeless(w, sha256, db) && Keyed(db)
    ensures var after := AfterAttempts(w, sha256, db, plans); Hopeless(w, sha256, after) && Keyed(after)
  {
    hide Process, Hopeless;
    if |plans| > 0 {
      HopelessStays(w, sha256, db, plans[..|plans| - 1]);
      HopelessThrows(w, sha256, AfterAttempts(w, sha256, db, plans[..|plans| - 1]), plans[|plans| - 1]);
    }
  }

  // ---------------------------------------------------------------- the condition is exact

  /** The schedule that loses a proposal: fetching the bytes fails once, and the report is written. */
  const LOST_FETCH: seq<Fault> := [Fine, Lost(false, "storage unavailable")]

  lemma FetchLost(w: World, sha256: string, db: Db)
    requires sha256 in db.artifacts && db.artifacts[sha256].meta.objectKey in w.objects
    ensures var row := db.artifacts[sha256];
      Process(w, sha256, db, LOST_FETCH) ==
        Attempt(WriteRow(db, FailureRow(row, [], "storage unavailable")), [], Threw("storage unavailable"))
  {
    hide Parsing;
    assert LOST_FETCH[1..] == [Lost(false, "storage unavailable")];
    assert LOST_FETCH[1..][1..] == [];
  }

  /** An identity nobody knew takes the id the first session that has it proposes. */
  lemma {:induction false} Unnamed(w: World, row: Artifact, parser: string, sessions: seq<Session>, findings: seq<Finding>, c: Run, i: nat, key: IdentityKey)
    requires i <= |sessions| && c.error.None? && c.plan == [] && c.saved == []
    requires key !in c.db.identities
    requires forall j :: 0 <= j < i ==> KeyOf(w, row.meta, sessions[j], j) != key
    ensures key !in SaveFirst(w, row, parser, sessions, findings, c, i).db.identities
  {
    hide SaveOne, IdFor, KeyOf, InStep;
    if i > 0 {
      Unnamed(w, row, parser, sessions, findings, c, i - 1, key);
      CleanLoop(w, row, parser, sessions, findings, c, i - 1);
      var before := SaveFirst(w, row, parser, sessions, findings, c, i - 1);
      InStepSelf(before);
      StepTogether(w, row, row, parser, sessions[i - 1], findings, i - 1, before, before);
    }
  }

  lemma {:induction false} FirstProposalWins(w: World, row: Artifact, parser: string, sessions: seq<Session>, findings: seq<Finding>, c: Run, i: nat)
    requires i < |sessions| && c.error.None? && c.plan == [] && c.saved == []
    requires KeyOf(w, row.meta, sessions[i], i) !in c.db.identities
    requires forall j :: 0 <= j < i ==> KeyOf(w, row.meta, sessions[j], j) != KeyOf(w, row.meta, sessions[i], i)
    ensures var done := SaveFirst(w, row, parser, sessions, findings, c, |sessions|);
      var key := KeyOf(w, row.meta, sessions[i], i);
      key in done.db.identities && done.db.identities[key] == Proposed(row, sessions[i], i)
  {
    hide SaveOne, IdFor, KeyOf, InStep, Proposed;
    var key := KeyOf(w, row.meta, sessions[i], i);
    Unnamed(w, row, parser, sessions, findings, c, i, key);
    CleanLoop(w, row, parser, sessions, findings, c, i);
    var before := SaveFirst(w, row, parser, sessions, findings, c, i);
    InStepSelf(before);
    StepTogether(w, row, row, parser, sessions[i], findings, i, before, before);
    IdForKnown(w, row, sessions[i], i, before.db);
    CleanPrefix(w, row, parser, sessions, findings, c, i + 1, |sessions|);
  }

  lemma LostProposal(w: World, sha256: string, db: Db)
    requires Keyed(db) && !Settled(w, sha256, db)
    ensures !Converges(w, sha256, db)
  {
    hide Parsing, KeyOf, SaveFirst, Process, IdSettled;
    var row := db.artifacts[sha256];
    var lost := WriteRow(db, FailureRow(row, [], "storage unavailable"));
    FetchLost(w, sha256, db);
    var plans := [LOST_FETCH];
    assert plans[..0] == [];
    assert AfterAttempts(w, sha256, db, []) == db;
    assert AfterAttempts(w, sha256, db, plans) == lost;
    assert AllAborted(w, sha256, db, plans);
    var finished, clean := Process(w, sha256, lost, []), Process(w, sha256, db, []);
    if Parsing(w, row.meta).Unknown? {
      CleanUnknown(w, sha256, db);
      CleanUnknown(w, sha256, lost);
      assert finished.db.artifacts[sha256].sessionIds == [] && clean.db.artifacts[sha256].sessionIds == row.sessionIds;
    } else {
      LostIdentity(w, sha256, db, lost);
    }
  }

  /** A parser that now names a session its earlier version did not. */
  function Upgraded(native: string): World
  {
    World(Context("tenant", "user", None), map["object" := "bytes"],
          (source, raw) => Format(source, "2"),
          (format: Format, raw, seed: Seed) =>
            Sessions("parser", [Session("parsed", Source("v", "tool", "2", "m", Some(native)), [], seed.visibility, Clear, raw)]),
          (raw, settings) => [], name => name, false)
  }

  /** The row of an earlier parse, with the one session id it gave. */
  function ParsedBefore(): Artifact
  {
    Artifact(ArtifactMeta("artifact", "tenant", "digest", "object", "tool", None, "then"), ["kept"], Parsed, None)
  }

  /** Such a row read by such a parser: a failed fetch before the parse changes the id the session gets. */
  lemma LostOnUpgrade(native: string)
    requires native != "old"
    ensures var db := Db(map["digest" := ParsedBefore()], map[], map[IdentityKey("tool", "old") := "kept"], map[], map[], Settings([]), map[]);
      Keyed(db) && !Settled(Upgraded(native), "digest", db) && !Converges(Upgraded(native), "digest", db)
  {
    var db := Db(map["digest" := ParsedBefore()], map[], map[IdentityKey("tool", "old") := "kept"], map[], map[], Settings([]), map[]);
    var w := Upgraded(native);
    assert Parsing(w, ParsedBefore().meta).sessions[0].id == "parsed" != "kept";
    assert !IdSettled(w, ParsedBefore(), Parsing(w, ParsedBefore().meta).sessions, db.identities, 0);
    hide Converges;
    LostProposal(w, "digest", db);
  }

  lemma LostIdentity(w: World, sha256: string, db: Db, lost: Db)
    requires Keyed(db) && !Settled(w, sha256, db) && !Parsing(w, db.artifacts[sha256].meta).Unknown?
    requires lost == WriteRow(db, FailureRow(db.artifacts[sha256], [], "storage unavailable"))
    ensures Process(w, sha256, lost, []).answer.Done?
    ensures !Same(Process(w, sha256, lost, []).db, Process(w, sha256, db, []).db)
  {
    hide Parsing, KeyOf, SaveFirst, Process;
    var row := db.artifacts[sha256];
    var p := Parsing(w, row.meta);
    var i: nat :| i < |p.sessions| && i < |row.sessionIds| && !IdSettled(w, row, p.sessions, db.identities, i);
    var findings := w.scan(w.objects[row.meta.objectKey], db.settings);
    FirstProposalWins(w, row, p.parser, p.sessions, findings, Fresh(db, []), i);
    FirstProposalWins(w, lost.artifacts[sha256], p.parser, p.sessions, findings, Fresh(lost, []), i);
    CleanProcess(w, sha256, db);
    CleanProcess(w, sha256, lost);
    var key := KeyOf(w, row.meta, p.sessions[i], i);
    assert Process(w, sha256, lost, []).db.identities[key] == p.sessions[i].id;
    assert Process(w, sha256, db, []).db.identities[key] == row.sessionIds[i];
  }

  // ---------------------------------------------------------------- main results

  lemma {:induction false} Retried(w: World, sha256: string, db: Db, plans: seq<seq<Fault>>, last: seq<Fault>)
    requires Keyed(db) && Settled(w, sha256, db)
    requires AllAborted(w, sha256, db, plans)
    requires Process(w, sha256, AfterAttempts(w, sha256, db, plans), last).answer.Done?
    ensures var finished := Process(w, sha256, AfterAttempts(w, sha256, db, plans), last);
      var clean := Process(w, sha256, db, []);
      Same(finished.db, clean.db) && finished.answer == clean.answer
  {
    hide Process, Parsing, KeyOf, IdSettled;
    if Hopeless(w, sha256, db) {
      HopelessStays(w, sha256, db, plans);
      HopelessThrows(w, sha256, AfterAttempts(w, sha256, db, plans), last);
    } else {
      var row := db.artifacts[sha256];
      if Parsing(w, row.meta).Unknown? {
        RetriesBetweenUnknown(w, sha256, row, db, plans);
        RetryUnknown(w, sha256, row, db, AfterAttempts(w, sha256, db, plans), last);
      } else {
        RetriesBetween(w, sha256, row, db, plans);
        RetryAttempt(w, sha256, row, db, AfterAttempts(w, sha256, db, plans), last);
      }
    }
  }

  /** Retries converge exactly when the condition holds. */
  lemma RetryConvergence(w: World, sha256: string, db: Db)
    requires Keyed(db)
    ensures Converges(w, sha256, db) <==> Settled(w, sha256, db)
  {
    hide Process, Settled;
    if Settled(w, sha256, db) {
      forall plans: seq<seq<Fault>>, last: seq<Fault>
        | AllAborted(w, sha256, db, plans) && Process(w, sha256, AfterAttempts(w, sha256, db, plans), last).answer.Done?
        ensures Same(Process(w, sha256, AfterAttempts(w, sha256, db, plans), last).db, Process(w, sha256, db, []).db)
        ensures Process(w, sha256, AfterAttempts(w, sha256, db, plans), last).answer == Process(w, sha256, db, []).answer
      {
        Retried(w, sha256, db, plans, last);
      }
    } else {
      LostProposal(w, sha256, db);
    }
  }

  lemma {:induction false} LoopKeepsHandRows(w: World, row: Artifact, parser: string, sessions: seq<Session>, findings: seq<Finding>, r: Run, n: nat)
    requires n <= |sessions| && r.error.None?
    ensures var r' := SaveFirst(w, row, parser, sessions, findings, r, n);
      HandRowsAgree(r.db, r'.db) && r'.db.settings == r.db.settings && r'.db.optins == r.db.optins
  {
    hide SaveOne, WithoutScannerRows, RowsOf, IdFor;
    if n > 0 {
      LoopKeepsHandRows(w, row, parser, sessions, findings, r, n - 1);
      var before := SaveFirst(w, row, parser, sessions, findings, r, n - 1);
      if before.error.None? {
        SaveOneWithin(w, row, parser, sessions[n - 1], findings, n - 1, before);
      }
    }
  }

  /** The annotations somebody or something other than the secret scanner wrote. */
  function ByHand(rows: seq<Annotation>): seq<Annotation>
  {
    if rows == [] then []
    else (if rows[0].kind == "redaction_mask" && rows[0].origin == Some("secret-scanner") then [] else [rows[0]]) + ByHand(rows[1..])
  }

  lemma {:induction false} ByHandIs(rows: seq<Annotation>)
    ensures ByHand(rows) == WithoutScannerRows(rows)
  {
    if rows != [] {
      ByHandIs(rows[1..]);
    }
  }

  /** However an attempt ends, annotations the scanner did not write, the settings and the opt-ins stay. */
  lemma AttemptKeepsHandRows(w: World, sha256: string, db: Db, plan: seq<Fault>, sessionId: string)
    ensures var after := Process(w, sha256, db, plan).db;
      && ByHand(RowsOf(after.annotations, sessionId)) == ByHand(RowsOf(db.annotations, sessionId))
      && after.settings == db.settings && after.optins == db.optins
  {
    hide SaveFirst, WithoutScannerRows, RowsOf, Call, Parsing, ByHand;
    ByHandIs(RowsOf(db.annotations, sessionId));
    ByHandIs(RowsOf(Process(w, sha256, db, plan).db.annotations, sessionId));
    var start := Fresh(db, plan);
    CallEffect(start, db);
    var r0 := Call(start, db);
    if r0.error.None? && sha256 in db.artifacts {
      var row := db.artifacts[sha256];
      var (r, _) := Parse(w, row, r0);
      ParseKeepsHandRows(w, row, r0);
      if r.error.Some? {
        CallEffect(r, WriteRow(r.db, FailureRow(row, r.saved, r.error.value)));
      }
      assert HandRowsAgree(db, r.db);
    }
  }

  /** Nor do any number of attempts, aborted or not. */
  lemma {:induction false} RetriesKeepHandRows(w: World, sha256: string, db: Db, plans: seq<seq<Fault>>, sessionId: string)
    ensures var after := AfterAttempts(w, sha256, db, plans);
      && ByHand(RowsOf(after.annotations, sessionId)) == ByHand(RowsOf(db.annotations, sessionId))
      && after.settings == db.settings && after.optins == db.optins
  {
    hide Process, ByHand, RowsOf;
    if |plans| > 0 {
      var earlier := plans[..|plans| - 1];
      RetriesKeepHandRows(w, sha256, db, earlier, sessionId);
      AttemptKeepsHandRows(w, sha256, AfterAttempts(w, sha256, db, earlier), plans[|plans| - 1], sessionId);
    }
  }

  lemma ParseKeepsHandRows(w: World, row: Artifact, r: Run)
    requires r.error.None?
    ensures var (r', _) := Parse(w, row, r);
      HandRowsAgree(r.db, r'.db) && r'.db.settings == r.db.settings && r'.db.optins == r.db.optins
  {
    hide SaveFirst, WithoutScannerRows, RowsOf, Call, Parsing;
    if row.meta.objectKey in w.objects {
      CallEffect(r, r.db);
      var r0 := Call(r, r.db);
      var p := Parsing(w, row.meta);
      if r0.error.None? && p.Unknown? {
        CallEffect(r0, WriteRow(r0.db, row.(status := UnknownFormat, diagnostic := Some(p.diagnostic))));
      } else if r0.error.None? && p.Sessions? {
        CallEffect(r0, r0.db);
        var r1 := Call(r0, r0.db);
        if r1.error.None? {
          var findings := w.scan(w.objects[row.meta.objectKey], r1.db.settings);
          LoopKeepsHandRows(w, row, p.parser, p.sessions, findings, r1, |p.sessions|);
          var r2 := SaveFirst(w, row, p.parser, p.sessions, findings, r1, |p.sessions|);
          CallEffect(r2, WriteRow(r2.db, ParsedRow(row, r2.saved)));
        }
      }
    }
  }
}
