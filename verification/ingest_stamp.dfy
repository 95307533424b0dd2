/**
 * What an attempt makes of each session: its redaction status, who may see it,
 * whose parser is on record, and the findings kept beside it.
 */
module IngestStamp {
  import opened Wrappers
  import opened IngestRecords
  import opened IngestSpec
  import opened IngestConvergence

  /** `stored` is what `parsed` should become when the scan of the artifact found `findings`. */
  predicate StoredAs(parsed: Session, stored: Session, parser: string, findings: seq<Finding>, optins: map<string, string>)
  {
    && stored.source == parsed.source && stored.content == parsed.content
    && stored.redactionStatus == (if findings == [] then RedactionStatus.Clear else RedactionStatus.Findings)
    && (stored.visibility != parsed.visibility <==> Shared(parsed, findings, optins))
    && (Shared(parsed, findings, optins) ==>
          stored.visibility == Visibility("team", parsed.visibility.ownerId, Some(optins[parsed.source.machineId])))
    && |stored.provenance| == |parsed.provenance|
    && forall i :: 0 <= i < |parsed.provenance| ==>
         stored.provenance[i] == (if parsed.provenance[i].kind == "native"
           then Provenance("native", parsed.provenance[i].sourceId, parser) else parsed.provenance[i])
  }

  /** Nothing was found, the parser left it private, and its machine is enrolled with a team. */
  predicate Shared(parsed: Session, findings: seq<Finding>, optins: map<string, string>)
  {
    && findings == [] && parsed.visibility.scope == "private"
    && parsed.source.machineId in optins && optins[parsed.source.machineId] != ""
  }

  /** The values of the masks the scanner wrote, in order. */
  function FoundIn(rows: seq<Annotation>): seq<Finding>
  {
    if rows == [] then []
    else
      (if rows[0].kind == "redaction_mask" && rows[0].origin == Some("secret-scanner") then [rows[0].value] else [])
      + FoundIn(rows[1..])
  }

  // ---------------------------------------------------------------- one session

  /** Every team looked up so far is the one on record. */
  ghost predicate TeamsRight(r: Run)
  {
    forall m :: m in r.teams ==> r.teams[m] == if m in r.db.optins then Some(r.db.optins[m]) else None
  }

  lemma WrittenAs(w: World, row: Artifact, parser: string, session: Session, findings: seq<Finding>, index: nat, r: Run)
    requires TeamsRight(r)
    ensures StoredAs(session, Written(w, row, parser, session, findings, index, r), parser, findings, r.db.optins)
  {
    hide IdFor;
  }

  lemma TeamsStayRight(r: Run, r': Run, session: Session)
    requires TeamsRight(r) && r'.db.optins == r.db.optins && r'.teams == TeamsAfter(r.db, r.teams, session)
    ensures TeamsRight(r')
  {
  }

  lemma {:induction false} FoundConcat(a: seq<Annotation>, b: seq<Annotation>)
    ensures FoundIn(a + b) == FoundIn(a) + FoundIn(b)
  {
    if a == [] {
      assert a + b == b;
    } else {
      assert (a + b)[1..] == a[1..] + b;
      FoundConcat(a[1..], b);
    }
  }

  lemma {:induction false} NoneFoundWithout(rows: seq<Annotation>)
    ensures FoundIn(WithoutScannerRows(rows)) == []
  {
    if rows != [] {
      NoneFoundWithout(rows[1..]);
      if !ScannerRow(rows[0]) {
        assert ([rows[0]] + WithoutScannerRows(rows[1..]))[1..] == WithoutScannerRows(rows[1..]);
      }
    }
  }

  lemma {:induction false} AllFound(findings: seq<Finding>)
    ensures FoundIn(ScannerRows(findings)) == findings
  {
    if findings != [] {
      AllFound(findings[1..]);
      assert ScannerRows(findings)[1..] == ScannerRows(findings[1..]);
      assert findings == [findings[0]] + findings[1..];
    }
  }

  /** The scanner's rows of a session are its findings, once it has written them. */
  lemma ReplacedFound(annotations: map<string, seq<Annotation>>, id: string, findings: seq<Finding>)
    ensures FoundIn(RowsOf(ReplaceScannerRows(annotations, id, findings), id)) == findings
    ensures forall other :: other != id ==> RowsOf(ReplaceScannerRows(annotations, id, findings), other) == RowsOf(annotations, other)
  {
    var kept := WithoutScannerRows(RowsOf(annotations, id));
    NoneFoundWithout(RowsOf(annotations, id));
    AllFound(findings);
    FoundConcat(kept, ScannerRows(findings));
  }

  // ---------------------------------------------------------------- the loop

  /** The row was there before, or is what one of the first `n` parsed sessions became. */
  ghost predicate Explained(s: string, was: map<string, Session>, now: map<string, Session>, parser: string, sessions: seq<Session>,
                            findings: seq<Finding>, optins: map<string, string>, n: nat)
    requires n <= |sessions| && s in now
  {
    || (s in was && was[s] == now[s])
    || exists i :: 0 <= i < n && now[s].id == s && StoredAs(sessions[i], now[s], parser, findings, optins)
  }

  /** Session `i` was saved, or a later one in its place under the same id, with the findings beside it. */
  ghost predicate Saved(i: nat, db: Db, parser: string, sessions: seq<Session>, findings: seq<Finding>, ids: seq<string>)
    requires i < |ids| <= |sessions|
  {
    && ids[i] in db.sessions && FoundIn(RowsOf(db.annotations, ids[i])) == findings
    && exists j :: i <= j < |ids| && ids[j] == ids[i] && StoredAs(sessions[j], db.sessions[ids[i]], parser, findings, db.optins)
  }

  /** Each of the first so many sessions was saved. */
  ghost predicate AllSaved(db: Db, parser: string, sessions: seq<Session>, findings: seq<Finding>, ids: seq<string>)
    requires |ids| <= |sessions|
  {
    forall i :: 0 <= i < |ids| ==> Saved(i, db, parser, sessions, findings, ids)
  }

  /** What the loop has done after `n` sessions, from the tables `db0`. */
  ghost predicate Progress(db0: Db, r: Run, parser: string, sessions: seq<Session>, findings: seq<Finding>, n: nat)
    requires n <= |sessions|
  {
    && r.db.optins == db0.optins && r.db.settings == db0.settings
    && (forall s :: s in db0.sessions ==> s in r.db.sessions)
    && (forall s :: s in r.db.sessions ==> Explained(s, db0.sessions, r.db.sessions, parser, sessions, findings, db0.optins, n))
    && (r.error.None? ==>
          TeamsRight(r) && |r.saved| == n && AllSaved(r.db, parser, sessions, findings, r.saved))
  }

  lemma SaveOneProgress(w: World, row: Artifact, parser: string, sessions: seq<Session>, findings: seq<Finding>, n: nat, db0: Db, r: Run)
    requires n < |sessions| && r.error.None? && Progress(db0, r, parser, sessions, findings, n)
    ensures Progress(db0, SaveOne(w, row, parser, sessions[n], findings, n, r), parser, sessions, findings, n + 1)
  {
    hide Prepare, Store, StoredAs, Written, ReplaceScannerRows, IdFor, KeyOf, Captured, Progress, TeamsAfter;
    ProgressTeams(db0, r, parser, sessions, findings, n);
    var (prepared, stamped) := Prepare(w, row, parser, sessions[n], findings, n, r);
    PrepareEffect(w, row, parser, sessions[n], findings, n, r);
    if prepared.error.None? {
      WrittenAs(w, row, parser, sessions[n], findings, n, r);
      TeamsStayRight(r, prepared, Captured(sessions[n], IdFor(w, row, sessions[n], n, r.db), parser, findings));
      StoreEffect(w, stamped, findings, prepared);
      StoreProgress(parser, sessions, findings, n, db0, r, prepared, stamped, Store(w, stamped, findings, prepared));
    } else {
      Stopped(parser, sessions, findings, n, db0, r, prepared);
    }
  }

  lemma ProgressTeams(db0: Db, r: Run, parser: string, sessions: seq<Session>, findings: seq<Finding>, n: nat)
    requires n <= |sessions| && r.error.None? && Progress(db0, r, parser, sessions, findings, n)
    ensures TeamsRight(r) && r.db.optins == db0.optins && r.db.settings == db0.settings
  {
  }

  lemma Stopped(parser: string, sessions: seq<Session>, findings: seq<Finding>, n: nat, db0: Db, r: Run, r': Run)
    requires n < |sessions| && r.error.None? && Progress(db0, r, parser, sessions, findings, n)
    requires r'.error.Some? && r'.db == r.db.(identities := r'.db.identities)
    ensures Progress(db0, r', parser, sessions, findings, n + 1)
  {
    hide StoredAs;
    forall s | s in r'.db.sessions ensures Explained(s, db0.sessions, r'.db.sessions, parser, sessions, findings, db0.optins, n + 1) {
      assert Explained(s, db0.sessions, r.db.sessions, parser, sessions, findings, db0.optins, n);
    }
  }

  lemma StoreProgress(parser: string, sessions: seq<Session>, findings: seq<Finding>, n: nat, db0: Db, r: Run, prepared: Run, stamped: Session, r': Run)
    requires n < |sessions| && r.error.None? && Progress(db0, r, parser, sessions, findings, n)
    requires prepared.db == r.db.(identities := prepared.db.identities) && prepared.saved == r.saved && TeamsRight(prepared)
    requires StoredAs(sessions[n], stamped, parser, findings, r.db.optins)
    requires r'.db == prepared.db.(sessions := r'.db.sessions, annotations := r'.db.annotations, embeddings := r'.db.embeddings)
    requires r'.teams == prepared.teams
    requires r'.db.sessions == r.db.sessions || r'.db.sessions == r.db.sessions[stamped.id := stamped]
    requires r'.error.None? ==>
      && r'.saved == r.saved + [stamped.id] && r'.db.sessions == r.db.sessions[stamped.id := stamped]
      && r'.db.annotations == ReplaceScannerRows(r.db.annotations, stamped.id, findings)
    ensures Progress(db0, r', parser, sessions, findings, n + 1)
  {
    hide StoredAs, ReplaceScannerRows, AllSaved;
    forall s | s in r'.db.sessions ensures Explained(s, db0.sessions, r'.db.sessions, parser, sessions, findings, db0.optins, n + 1) {
      if r'.db.sessions == r.db.sessions || s != stamped.id {
        assert Explained(s, db0.sessions, r.db.sessions, parser, sessions, findings, db0.optins, n);
      }
    }
    if r'.error.None? {
      OneMoreSaved(parser, sessions, findings, r.db, r.saved, stamped, r'.db);
    }
  }

  lemma OneMoreSaved(parser: string, sessions: seq<Session>, findings: seq<Finding>, db: Db, ids: seq<string>, stamped: Session, db': Db)
    requires |ids| < |sessions| && AllSaved(db, parser, sessions, findings, ids)
    requires StoredAs(sessions[|ids|], stamped, parser, findings, db.optins) && db'.optins == db.optins
    requires db'.sessions == db.sessions[stamped.id := stamped]
    requires db'.annotations == ReplaceScannerRows(db.annotations, stamped.id, findings)
    ensures AllSaved(db', parser, sessions, findings, ids + [stamped.id])
  {
    hide StoredAs, ReplaceScannerRows, FoundIn, RowsOf;
    var more := ids + [stamped.id];
    ReplacedFound(db.annotations, stamped.id, findings);
    forall i | 0 <= i < |more| ensures Saved(i, db', parser, sessions, findings, more) {
      if more[i] == stamped.id {
        assert more[|ids|] == more[i];
      } else {
        assert Saved(i, db, parser, sessions, findings, ids);
        var j :| i <= j < |ids| && ids[j] == ids[i] && StoredAs(sessions[j], db.sessions[ids[i]], parser, findings, db.optins);
        assert more[j] == more[i];
      }
    }
  }

  lemma {:induction false} LoopProgress(w: World, row: Artifact, parser: string, sessions: seq<Session>, findings: seq<Finding>, r: Run, n: nat)
    requires n <= |sessions| && r.error.None? && r.saved == [] && r.teams == map[]
    ensures Progress(r.db, SaveFirst(w, row, parser, sessions, findings, r, n), parser, sessions, findings, n)
  {
    hide SaveOne, Progress;
    if n == 0 {
      NoProgress(parser, sessions, findings, r);
    } else {
      LoopProgress(w, row, parser, sessions, findings, r, n - 1);
      var before := SaveFirst(w, row, parser, sessions, findings, r, n - 1);
      if before.error.None? {
        SaveOneProgress(w, row, parser, sessions, findings, n - 1, r.db, before);
      } else {
        StillStopped(r.db, before, parser, sessions, findings, n - 1);
      }
    }
  }

  lemma NoProgress(parser: string, sessions: seq<Session>, findings: seq<Finding>, r: Run)
    requires r.saved == [] && r.teams == map[]
    ensures Progress(r.db, r, parser, sessions, findings, 0)
  {
  }

  lemma StillStopped(db0: Db, r: Run, parser: string, sessions: seq<Session>, findings: seq<Finding>, n: nat)
    requires n < |sessions| && r.error.Some? && Progress(db0, r, parser, sessions, findings, n)
    ensures Progress(db0, r, parser, sessions, findings, n + 1)
  {
    hide StoredAs;
    forall s | s in r.db.sessions ensures Explained(s, db0.sessions, r.db.sessions, parser, sessions, findings, db0.optins, n + 1) {
      assert Explained(s, db0.sessions, r.db.sessions, parser, sessions, findings, db0.optins, n);
    }
  }

  // ---------------------------------------------------------------- the attempt

  /** The artifact's bytes are there and parse into sessions. */
  predicate Parses(w: World, sha256: string, db: Db)
  {
    && sha256 in db.artifacts && db.artifacts[sha256].meta.objectKey in w.objects
    && Parsing(w, db.artifacts[sha256].meta).Sessions?
  }

  /** What the scan of the stored bytes finds under the tenant's settings. */
  function Scan(w: World, sha256: string, db: Db): seq<Finding>
    requires Parses(w, sha256, db)
  {
    w.scan(w.objects[db.artifacts[sha256].meta.objectKey], db.settings)
  }

  /** No session row changes but as one of the parsed sessions, stamped as it should be. */
  ghost predicate WellStamped(w: World, sha256: string, db: Db, after: Db)
  {
    && (forall s :: s in db.sessions ==> s in after.sessions)
    && forall s :: s in after.sessions && !(s in db.sessions && db.sessions[s] == after.sessions[s]) ==>
         Parses(w, sha256, db) && StampedFrom(w, sha256, db, s, after.sessions[s])
  }

  ghost predicate StampedFrom(w: World, sha256: string, db: Db, s: string, stored: Session)
    requires Parses(w, sha256, db)
  {
    var p := Parsing(w, db.artifacts[sha256].meta);
    exists i :: 0 <= i < |p.sessions| && stored.id == s && StoredAs(p.sessions[i], stored, p.parser, Scan(w, sha256, db), db.optins)
  }

  /**
   * Whatever fails on the way: a session is stored with findings exactly when
   * the scan is not empty, and widened to its machine's team exactly when the
   * scan is empty and the parser left it private.
   */
  lemma StampExact(w: World, sha256: string, db: Db, plan: seq<Fault>)
    ensures WellStamped(w, sha256, db, Process(w, sha256, db, plan).db)
    ensures var a := Process(w, sha256, db, plan);
      a.answer.Done? && a.answer.status == Status.Parsed ==>
        && Parses(w, sha256, db)
        && var p := Parsing(w, db.artifacts[sha256].meta);
           && |a.answer.sessionIds| == |p.sessions|
           && AllSaved(a.db, p.parser, p.sessions, Scan(w, sha256, db), a.answer.sessionIds)
  {
    hide SaveFirst, Call, Parsing, Explained, AllSaved, StampedFrom, Parse, Scan;
    var start := Fresh(db, plan);
    CallEffect(start, db);
    var r0 := Call(start, db);
    if r0.error.None? && sha256 in db.artifacts {
      var row := db.artifacts[sha256];
      var (r, answer) := Parse(w, row, r0);
      ParseStamped(w, sha256, db, r0);
      if r.error.Some? {
        CallEffect(r, WriteRow(r.db, FailureRow(row, r.saved, r.error.value)));
      }
    }
  }

  lemma ParseStamped(w: World, sha256: string, db: Db, r: Run)
    requires sha256 in db.artifacts && r.error.None? && r.db == db && r.saved == [] && r.teams == map[]
    ensures var (r', answer) := Parse(w, db.artifacts[sha256], r);
      && WellStamped(w, sha256, db, r'.db)
      && (r'.error.Some? ==> answer.Threw?)
      && (answer.Done? && answer.status == Status.Parsed ==>
            && Parses(w, sha256, db)
            && var p := Parsing(w, db.artifacts[sha256].meta);
               |answer.sessionIds| == |p.sessions| && AllSaved(r'.db, p.parser, p.sessions, Scan(w, sha256, db), answer.sessionIds))
  {
    hide SaveFirst, Call, Parsing, Explained, AllSaved, StampedFrom, Progress;
    var row := db.artifacts[sha256];
    if row.meta.objectKey in w.objects {
      CallEffect(r, r.db);
      var r0 := Call(r, r.db);
      var p := Parsing(w, row.meta);
      if r0.error.None? && p.Unknown? {
        CallEffect(r0, WriteRow(r0.db, row.(status := UnknownFormat, diagnostic := Some(p.diagnostic))));
      } else if r0.error.None? && p.Sessions? {
        CallEffect(r0, r0.db);
        var r1 := Call(r0, r0.db);
        if r1.error.None? {
          var findings := Scan(w, sha256, db);
          var r2 := SaveFirst(w, row, p.parser, p.sessions, findings, r1, |p.sessions|);
          LoopProgress(w, row, p.parser, p.sessions, findings, r1, |p.sessions|);
          ProgressStamped(w, sha256, db, r2);
          CallEffect(r2, WriteRow(r2.db, ParsedRow(row, r2.saved)));
          if r2.error.None? {
            RowAside(p.parser, p.sessions, findings, r2, ParsedRow(row, r2.saved));
          }
        }
      }
    }
  }

  lemma ProgressStamped(w: World, sha256: string, db: Db, r: Run)
    requires Parses(w, sha256, db)
    requires var p := Parsing(w, db.artifacts[sha256].meta); Progress(db, r, p.parser, p.sessions, Scan(w, sha256, db), |p.sessions|)
    ensures WellStamped(w, sha256, db, r.db)
    ensures var p := Parsing(w, db.artifacts[sha256].meta);
      r.error.None? ==> |r.saved| == |p.sessions| && AllSaved(r.db, p.parser, p.sessions, Scan(w, sha256, db), r.saved)
  {
    hide StoredAs, Parsing, Scan, AllSaved;
    var p := Parsing(w, db.artifacts[sha256].meta);
    forall s | s in r.db.sessions && !(s in db.sessions && db.sessions[s] == r.db.sessions[s])
      ensures StampedFrom(w, sha256, db, s, r.db.sessions[s])
    {
      assert Explained(s, db.sessions, r.db.sessions, p.parser, p.sessions, Scan(w, sha256, db), db.optins, |p.sessions|);
    }
  }

  /** Writing the artifact row moves no session. */
  lemma RowAside(parser: string, sessions: seq<Session>, findings: seq<Finding>, r: Run, row: Artifact)
    requires |r.saved| <= |sessions| && AllSaved(r.db, parser, sessions, findings, r.saved)
    ensures AllSaved(WriteRow(r.db, row), parser, sessions, findings, r.saved)
  {
    hide StoredAs, FoundIn;
    forall i | 0 <= i < |r.saved| ensures Saved(i, WriteRow(r.db, row), parser, sessions, findings, r.saved) {
      assert Saved(i, r.db, parser, sessions, findings, r.saved);
    }
  }

  // ---------------------------------------------------------------- embeddings

  /** Every saved session is there with its own content embedded. */
  ghost predicate AllEmbedded(db: Db, ids: seq<string>)
  {
    forall id :: id in ids ==> id in db.sessions && id in db.embeddings && db.embeddings[id] == db.sessions[id].content
  }

  /** Nothing without a provider; with one, and nothing failing, each saved session's own content. */
  ghost predicate Embedded(w: World, db0: Db, clean: bool, r: Run)
  {
    && (!w.embeds ==> r.db.embeddings == db0.embeddings)
    && (clean ==> r.plan == [] && r.error.None? && (w.embeds ==> AllEmbedded(r.db, r.saved)))
  }

  lemma StoreEmbeds(w: World, session: Session, findings: seq<Finding>, db0: Db, clean: bool, r: Run)
    requires r.error.None? && Embedded(w, db0, clean, r)
    ensures Embedded(w, db0, clean, Store(w, session, findings, r))
  {
    hide ReplaceScannerRows;
  }

  lemma SaveOneEmbeds(w: World, row: Artifact, parser: string, session: Session, findings: seq<Finding>, index: nat, db0: Db, clean: bool, r: Run)
    requires r.error.None? && Embedded(w, db0, clean, r)
    ensures Embedded(w, db0, clean, SaveOne(w, row, parser, session, findings, index, r))
  {
    hide Prepare, Store, KeyOf, IdFor, Written, TeamsAfter, Captured;
    PrepareEffect(w, row, parser, session, findings, index, r);
    var (prepared, stamped) := Prepare(w, row, parser, session, findings, index, r);
    if prepared.error.None? {
      StoreEmbeds(w, stamped, findings, db0, clean, prepared);
    }
  }

  lemma {:induction false} LoopEmbeds(w: World, row: Artifact, parser: string, sessions: seq<Session>, findings: seq<Finding>, clean: bool, r: Run, n: nat)
    requires n <= |sessions| && r.error.None? && r.saved == [] && (clean ==> r.plan == [])
    ensures Embedded(w, r.db, clean, SaveFirst(w, row, parser, sessions, findings, r, n))
  {
    hide SaveOne;
    if n > 0 {
      LoopEmbeds(w, row, parser, sessions, findings, clean, r, n - 1);
      var before := SaveFirst(w, row, parser, sessions, findings, r, n - 1);
      if before.error.None? {
        SaveOneEmbeds(w, row, parser, sessions[n - 1], findings, n - 1, r.db, clean, before);
      }
    }
  }

  /** Without a provider an attempt embeds nothing; with one, a clean attempt embeds every session it saves. */
  lemma EmbedExact(w: World, sha256: string, db: Db, plan: seq<Fault>)
    ensures !w.embeds ==> Process(w, sha256, db, plan).db.embeddings == db.embeddings
    ensures var a := Process(w, sha256, db, []);
      w.embeds && a.answer.Done? && a.answer.status == Status.Parsed ==> AllEmbedded(a.db, a.answer.sessionIds)
  {
    AttemptEmbeds(w, sha256, db, plan, false);
    AttemptEmbeds(w, sha256, db, [], true);
  }

  lemma AttemptEmbeds(w: World, sha256: string, db: Db, plan: seq<Fault>, clean: bool)
    requires clean ==> plan == []
    ensures var a := Process(w, sha256, db, plan);
      && (!w.embeds ==> a.db.embeddings == db.embeddings)
      && (clean && w.embeds && a.answer.Done? && a.answer.status == Status.Parsed ==> AllEmbedded(a.db, a.answer.sessionIds))
  {
    hide SaveFirst, Call, Parsing, AllEmbedded, Parse;
    var start := Fresh(db, plan);
    CallEffect(start, db);
    var r0 := Call(start, db);
    if r0.error.None? && sha256 in db.artifacts {
      var row := db.artifacts[sha256];
      ParseEmbeds(w, row, r0, clean);
      var (r, answer) := Parse(w, row, r0);
      if r.error.Some? {
        CallEffect(r, WriteRow(r.db, FailureRow(row, r.saved, r.error.value)));
      }
    }
  }

  lemma ParseEmbeds(w: World, row: Artifact, r: Run, clean: bool)
    requires r.error.None? && r.saved == [] && (clean ==> r.plan == [])
    ensures var (r', answer) := Parse(w, row, r);
      && (!w.embeds ==> r'.db.embeddings == r.db.embeddings)
      && (r'.error.Some? ==> answer.Threw?)
      && (clean && w.embeds && answer.Done? && answer.status == Status.Parsed ==> AllEmbedded(r'.db, answer.sessionIds))
  {
    hide SaveFirst, Call, Parsing, AllEmbedded;
    if row.meta.objectKey in w.objects {
      CallEffect(r, r.db);
      var r0 := Call(r, r.db);
      var p := Parsing(w, row.meta);
      if r0.error.None? && p.Unknown? {
        CallEffect(r0, WriteRow(r0.db, row.(status := UnknownFormat, diagnostic := Some(p.diagnostic))));
      } else if r0.error.None? && p.Sessions? {
        CallEffect(r0, r0.db);
        var r1 := Call(r0, r0.db);
        if r1.error.None? {
          var findings := w.scan(w.objects[row.meta.objectKey], r1.db.settings);
          LoopEmbeds(w, row, p.parser, p.sessions, findings, clean, r1, |p.sessions|);
          var r2 := SaveFirst(w, row, p.parser, p.sessions, findings, r1, |p.sessions|);
          CallEffect(r2, WriteRow(r2.db, ParsedRow(row, r2.saved)));
          RowEmbedded(r2.db, ParsedRow(row, r2.saved), r2.saved);
        }
      }
    }
  }

  lemma RowEmbedded(db: Db, row: Artifact, ids: seq<string>)
    ensures AllEmbedded(db, ids) <==> AllEmbedded(WriteRow(db, row), ids)
  {
  }
}
