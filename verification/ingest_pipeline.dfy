/**
 * The pipeline as the source writes it: a store object updated call by call,
 * any call of which can throw, and a loop over the parsed sessions.
 */
module IngestPipeline {
  import opened Wrappers
  import opened IngestRecords
  import opened IngestSpec

  /** The store one attempt talks to, together with the fate of the calls still to come. */
  class ArchiveStore {
    var artifacts: map<string, Artifact>
    var sessions: map<string, Session>
    var identities: map<IdentityKey, string>
    var annotations: map<string, seq<Annotation>>
    var embeddings: map<string, string>
    var settings: Settings
    var optins: map<string, string>
    var plan: seq<Fault>

    function View(): Db
      reads this
    {
      Db(artifacts, sessions, identities, annotations, embeddings, settings, optins)
    }

    constructor (db: Db, plan: seq<Fault>)
      ensures View() == db && this.plan == plan
    {
      artifacts, sessions, identities := db.artifacts, db.sessions, db.identities;
      annotations, embeddings := db.annotations, db.embeddings;
      settings, optins := db.settings, db.optins;
      this.plan := plan;
    }

    /** The next call's fate, spent. */
    method Spend() returns (fault: Fault)
      modifies this`plan
      ensures fault == Fate(old(plan)) && plan == Later(old(plan))
    {
      fault := Fate(plan);
      plan := Later(plan);
    }

    method Read() returns (error: Option<string>)
      modifies this`plan
      ensures forall r: Run :: r.db == View() && r.plan == old(plan) && r.error == None ==>
        Call(r, r.db) == r.(plan := plan, error := error)
    {
      var fault := Spend();
      error := if fault.Lost? then Some(fault.message) else None;
    }

    method GetRawArtifact(sha256: string) returns (error: Option<string>, row: Option<Artifact>)
      modifies this`plan
      ensures forall r: Run :: r.db == View() && r.plan == old(plan) && r.error == None ==>
        Call(r, r.db) == r.(plan := plan, error := error)
      ensures error.None? ==> row == if sha256 in artifacts then Some(artifacts[sha256]) else None
    {
      error := Read();
      row := if error.None? && sha256 in artifacts then Some(artifacts[sha256]) else None;
    }

    method UpdateRawArtifact(row: Artifact) returns (error: Option<string>)
      modifies this
      ensures forall r: Run :: r.db == old(View()) && r.plan == old(plan) ==>
        Call(r, WriteRow(r.db, row)) == r.(db := View(), plan := plan, error := if error.Some? then error else r.error)
      ensures artifacts == if old(plan) == [] || old(plan)[0].Fine? || old(plan)[0].applied then old(artifacts)[row.meta.sha256 := row] else old(artifacts)
      ensures error.Some? <==> old(plan) != [] && old(plan)[0].Lost?
    {
      var fault := Spend();
      if fault.Fine? || fault.applied {
        artifacts := artifacts[row.meta.sha256 := row];
      }
      error := if fault.Lost? then Some(fault.message) else None;
    }

    method ResolveSessionIdentity(key: IdentityKey, proposed: string) returns (error: Option<string>, id: string)
      modifies this
      ensures forall r: Run :: r.db == old(View()) && r.plan == old(plan) && r.error == None ==>
        Call(r, Identify(r.db, key, proposed)) == r.(db := View(), plan := plan, error := error)
      ensures error.None? ==> key in identities && id == identities[key]
    {
      var fault := Spend();
      if fault.Fine? || fault.applied {
        if key !in identities {
          identities := identities[key := proposed];
        }
      }
      error := if fault.Lost? then Some(fault.message) else None;
      id := if key in identities then identities[key] else "";
    }

    method ResolveIngestTeam(machineId: string) returns (error: Option<string>, team: Option<string>)
      modifies this`plan
      ensures forall r: Run :: r.db == View() && r.plan == old(plan) && r.error == None ==>
        Call(r, r.db) == r.(plan := plan, error := error)
      ensures team == TeamOf(View(), machineId)
    {
      error := Read();
      team := if machineId in optins then Some(optins[machineId]) else None;
    }

    method SaveSession(session: Session) returns (error: Option<string>)
      modifies this
      ensures forall r: Run :: r.db == old(View()) && r.plan == old(plan) && r.error == None ==>
        Call(r, r.db.(sessions := r.db.sessions[session.id := session])) == r.(db := View(), plan := plan, error := error)
    {
      var fault := Spend();
      if fault.Fine? || fault.applied {
        sessions := sessions[session.id := session];
      }
      error := if fault.Lost? then Some(fault.message) else None;
    }

    /** Deletes the scanner's own rows of one session and writes the new ones. */
    method ReplaceAnnotations(sessionId: string, findings: seq<Finding>) returns (error: Option<string>)
      modifies this
      ensures forall r: Run :: r.db == old(View()) && r.plan == old(plan) && r.error == None ==>
        Call(r, r.db.(annotations := ReplaceScannerRows(r.db.annotations, sessionId, findings))) == r.(db := View(), plan := plan, error := error)
    {
      var fault := Spend();
      if fault.Fine? || fault.applied {
        var rows := if sessionId in annotations then annotations[sessionId] else [];
        var kept: seq<Annotation> := [];
        for i := 0 to |rows|
          invariant kept + WithoutScannerRows(rows[i..]) == WithoutScannerRows(rows)
        {
          assert rows[i..][1..] == rows[i + 1..];
          if !ScannerRow(rows[i]) {
            kept := kept + [rows[i]];
          }
        }
        assert rows[|rows|..] == [];
        var created: seq<Annotation> := [];
        for i := 0 to |findings|
          invariant created == ScannerRows(findings)[..i]
        {
          created := created + [Annotation(REDACTION_MASK, Some(SCANNER_ORIGIN), findings[i])];
        }
        assert kept == WithoutScannerRows(rows) && created == ScannerRows(findings);
        annotations := annotations[sessionId := kept + created];
      }
      error := if fault.Lost? then Some(fault.message) else None;
    }

    method SaveSessionEmbedding(sessionId: string, document: string)
      modifies this
      ensures forall r: Run :: r.db == old(View()) && r.plan == old(plan) && r.error == None ==>
        Call(r, r.db.(embeddings := r.db.embeddings[sessionId := document])).(error := None) == r.(db := View(), plan := plan)
    {
      var fault := Spend();
      if fault.Fine? || fault.applied {
        embeddings := embeddings[sessionId := document];
      }
    }
  }

  class Pipeline {
    const world: World
    const store: ArchiveStore

    constructor (world: World, store: ArchiveStore)
      ensures this.world == world && this.store == store
    {
      this.world, this.store := world, store;
    }

    /** One call the queue makes. A thrown exception is the `Threw` answer. */
    method Process(sha256: string) returns (answer: Answer)
      modifies store
      ensures IngestSpec.Process(world, sha256, old(store.View()), old(store.plan)) == Attempt(store.View(), store.plan, answer)
    {
      ghost var started := Run(store.View(), store.plan, map[], [], None);
      var error, found := store.GetRawArtifact(sha256);
      if error.Some? { return Threw(error.value); }
      if found.None? { return Threw("artifact_not_found"); }
      var row := found.value;
      ghost var r0 := started.(plan := store.plan);
      var saved;
      answer, error, saved := ParseArtifact(row, r0);
      if error.Some? {
        // The report may be lost as well; what is thrown is still the first error.
        var _ := store.UpdateRawArtifact(FailureRow(row, saved, error.value));
      }
    }

    method ParseArtifact(row: Artifact, ghost r: Run) returns (answer: Answer, error: Option<string>, saved: seq<string>)
      requires r == Run(store.View(), store.plan, map[], [], None)
      modifies store
      ensures var (after, said) := Parse(world, row, r);
        answer == said && after.db == store.View() && after.plan == store.plan && after.error == error && after.saved == saved
    {
      saved := [];
      if row.meta.objectKey !in world.objects { return Threw("object_not_found"), Some("object_not_found"), []; }
      error := store.Read();
      if error.Some? { return Threw(error.value), error, []; }
      var result := Parsing(world, row.meta);
      if result.ParserThrew? { return Threw(result.message), Some(result.message), []; }
      if result.Unknown? {
        error := store.UpdateRawArtifact(row.(status := UnknownFormat, diagnostic := Some(result.diagnostic)));
        answer := if error.Some? then Threw(error.value) else Done(UnknownFormat, []);
        return;
      }
      error := store.Read();
      if error.Some? { return Threw(error.value), error, []; }
      var findings := world.scan(world.objects[row.meta.objectKey], store.settings);
      error, saved := SaveSessions(row, result, findings, r.(plan := store.plan));
      if error.Some? { return Threw(error.value), error, saved; }
      error := store.UpdateRawArtifact(row.(sessionIds := saved, status := Parsed, diagnostic := None));
      answer := if error.Some? then Threw(error.value) else Done(Parsed, saved);
    }

    /** The session loop, with the ids pushed so far surviving an exception. */
    method SaveSessions(row: Artifact, result: ParseResult, findings: seq<Finding>, ghost r: Run)
      returns (error: Option<string>, saved: seq<string>)
      requires result.Sessions?
      requires r == Run(store.View(), store.plan, map[], [], None)
      modifies store
      ensures var after := SaveFirst(world, row, result.parser, result.sessions, findings, r, |result.sessions|);
        after.db == store.View() && after.plan == store.plan && after.error == error && after.saved == saved
    {
      hide SaveOne;
      saved := [];
      var teams: map<string, Option<string>> := map[];
      var index := 0;
      while index < |result.sessions|
        invariant index <= |result.sessions|
        invariant SaveFirst(world, row, result.parser, result.sessions, findings, r, index)
          == Run(store.View(), store.plan, teams, saved, None)
      {
        ghost var before := Run(store.View(), store.plan, teams, saved, None);
        var ids;
        error, teams, ids := SaveSession(row, result.parser, result.sessions[index], findings, index, teams, before);
        saved := saved + ids;
        index := index + 1;
        if error.Some? {
          StopsAtError(world, row, result.parser, result.sessions, findings, r, index, |result.sessions|);
          return;
        }
      }
      error := None;
    }

    method SaveSession(row: Artifact, parser: string, session: Session, findings: seq<Finding>, index: nat,
                       teams: map<string, Option<string>>, ghost r: Run)
      returns (error: Option<string>, teams': map<string, Option<string>>, ids: seq<string>)
      requires r.db == store.View() && r.plan == store.plan && r.teams == teams && r.error == None
      modifies store
      ensures SaveOne(world, row, parser, session, findings, index, r) == Run(store.View(), store.plan, teams', r.saved + ids, error)
    {
      ids, teams' := [], teams;
      var id;
      var key := KeyOf(world, row.meta, session, index);
      error, id := store.ResolveSessionIdentity(key, Proposed(row, session, index));
      ghost var r1 := r.(db := store.View(), plan := store.plan, error := error);
      assert Call(r, Identify(r.db, key, Proposed(row, session, index))) == r1;
      if error.Some? { return; }
      var parsed := Captured(session, id, parser, findings);
      if Stampable(parsed) && parsed.source.machineId !in teams {
        var team;
        error, team := store.ResolveIngestTeam(parsed.source.machineId);
        assert Call(r1, r1.db) == r1.(plan := store.plan, error := error);
        if error.Some? { return; }
        teams' := teams[parsed.source.machineId := team];
      }
      ghost var r2 := r1.(plan := store.plan, teams := teams');
      assert LookupTeam(r1, parsed) == r2;
      var stamped := Stamped(parsed, teams');
      assert Prepare(world, row, parser, session, findings, index, r) == (r2, stamped);
      error := store.SaveSession(stamped);
      ghost var r3 := r2.(db := store.View(), plan := store.plan, error := error);
      assert Call(r2, r2.db.(sessions := r2.db.sessions[stamped.id := stamped])) == r3;
      if error.Some? { return; }
      error := store.ReplaceAnnotations(stamped.id, findings);
      ghost var r4 := r3.(db := store.View(), plan := store.plan, error := error);
      assert Call(r3, r3.db.(annotations := ReplaceScannerRows(r3.db.annotations, stamped.id, findings))) == r4;
      if error.Some? { return; }
      if world.embeds {
        store.SaveSessionEmbedding(stamped.id, stamped.content);
      }
      ghost var r5 := r4.(db := store.View(), plan := store.plan);
      assert Embed(world, r4, stamped) == r5;
      assert Store(world, stamped, findings, r2) == r5.(saved := r5.saved + [stamped.id]);
      ids := [stamped.id];
    }
  }

  lemma {:induction false} StopsAtError(w: World, row: Artifact, parser: string, sessions: seq<Session>, findings: seq<Finding>, r: Run, n: nat, m: nat)
    requires n <= m <= |sessions|
    requires SaveFirst(w, row, parser, sessions, findings, r, n).error.Some?
    ensures SaveFirst(w, row, parser, sessions, findings, r, m) == SaveFirst(w, row, parser, sessions, findings, r, n)
  {
    hide SaveOne;
    if n < m {
      StopsAtError(w, row, parser, sessions, findings, r, n, m - 1);
    }
  }
}
