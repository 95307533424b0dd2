/**
 * One ingest attempt as a function of the tables and of how each store call fares.
 *
 * A store call can fail before it takes effect or after (the commit went
 * through and the answer was lost), so an attempt is driven by a plan that
 * settles the fate of every call in order. Calls beyond the plan go well.
 */
module IngestSpec {
  import opened Wrappers
  import opened IngestRecords
  import Text

  datatype Fault = Fine | Lost(applied: bool, message: string)

  /** An attempt in progress. `error` holds the exception on its way out. */
  datatype Run = Run(
    db: Db, plan: seq<Fault>, teams: map<string, Option<string>>, saved: seq<string>, error: Option<string>)

  datatype Answer = Done(status: Status, sessionIds: seq<string>) | Threw(message: string)

  datatype Attempt = Attempt(db: Db, plan: seq<Fault>, answer: Answer)

  function Fate(plan: seq<Fault>): Fault { if |plan| == 0 then Fine else plan[0] }

  function Later(plan: seq<Fault>): seq<Fault> { if |plan| == 0 then [] else plan[1..] }

  /** One store call whose effect, if it takes effect, is `applied`. */
  function Call(r: Run, applied: Db): Run
  {
    match Fate(r.plan)
    case Fine => r.(db := applied, plan := Later(r.plan))
    case Lost(took, message) => r.(db := if took then applied else r.db, plan := Later(r.plan), error := Some(message))
  }

  /** A failure that is not a store call. */
  function Throw(r: Run, message: string): Run { r.(error := Some(message)) }

  function FallbackNativeSessionId(w: World, meta: ArtifactMeta): string
  {
    if w.context.machineId.Some? && w.context.machineId.value != "" && meta.sourcePath.Some? && meta.sourcePath.value != ""
    then "path:" + w.context.machineId.value + ":" + meta.sourcePath.value
    else "sha:" + meta.sha256[..Text.Min(16, |meta.sha256|)]
  }

  function SeedOf(w: World, meta: ArtifactMeta, format: Format): Seed
  {
    var native := FallbackNativeSessionId(w, meta);
    var sessionId := w.uuidV5(w.context.tenantId + ":" + format.source + ":" + format.version + ":" + native);
    var machineId := if w.context.machineId.Some? then w.context.machineId.value else w.uuidV5(w.context.tenantId + ":uploads");
    Seed(sessionId,
         Source(format.source, format.source, format.version, machineId, Some(native)),
         if meta.sourcePath.Some? then meta.sourcePath.value else "/memoar/imports",
         meta.capturedAt,
         [Provenance("native", meta.sha256, "pending")],
         Visibility("private", w.context.userId, None),
         meta.id)
  }

  /** The parse the stored bytes of one artifact always give. */
  function Parsing(w: World, meta: ArtifactMeta): ParseResult
    requires meta.objectKey in w.objects
  {
    var raw := w.objects[meta.objectKey];
    var format := w.detect(meta.source, raw);
    w.parse(format, raw, SeedOf(w, meta, format))
  }

  function KeyOf(w: World, meta: ArtifactMeta, session: Session, index: nat): IdentityKey
  {
    IdentityKey(session.source.tool,
      if session.source.nativeSessionId.Some? then session.source.nativeSessionId.value
      else FallbackNativeSessionId(w, meta) + ":" + Text.Digits(index))
  }

  /** The id the row remembers for this place, or else the parser's own. */
  function Proposed(row: Artifact, session: Session, index: nat): string
  {
    if index < |row.sessionIds| then row.sessionIds[index] else session.id
  }

  function Identify(db: Db, key: IdentityKey, proposed: string): (after: Db)
    ensures key in after.identities
  {
    if key in db.identities then db else db.(identities := db.identities[key := proposed])
  }

  function Restamp(provenance: seq<Provenance>, parser: string): seq<Provenance>
  {
    seq(|provenance|, i requires 0 <= i < |provenance| =>
      if provenance[i].kind == "native" then provenance[i].(parserVersion := parser) else provenance[i])
  }

  /** The session as captured, before the team stamp. */
  function Captured(session: Session, id: string, parser: string, findings: seq<Finding>): (captured: Session)
    ensures captured.redactionStatus == Findings <==> findings != []
  {
    session.(id := id, provenance := Restamp(session.provenance, parser),
             redactionStatus := if |findings| > 0 then Findings else Clear)
  }

  /** What the team stamp looks at before it widens anything. */
  predicate Stampable(session: Session)
  {
    session.redactionStatus == Clear && session.visibility.scope == "private"
  }

  /** The opt-in lookup, made once per machine and attempt. */
  function LookupTeam(r: Run, session: Session): Run
  {
    if !Stampable(session) || session.source.machineId in r.teams then r
    else
      var called := Call(r, r.db);
      if called.error.Some? then called
      else called.(teams := called.teams[session.source.machineId := TeamOf(r.db, session.source.machineId)])
  }

  function TeamOf(db: Db, machineId: string): Option<string>
  {
    if machineId in db.optins then Some(db.optins[machineId]) else None
  }

  /** A team, and not an empty name for one. */
  predicate Named(team: Option<string>) { team.Some? && team.value != "" }

  function Stamped(session: Session, teams: map<string, Option<string>>): Session
  {
    if Stampable(session) && session.source.machineId in teams && Named(teams[session.source.machineId])
    then session.(visibility := session.visibility.(scope := "team", teamId := teams[session.source.machineId]))
    else session
  }

  predicate ScannerRow(a: Annotation) { a.kind == REDACTION_MASK && a.origin == Some(SCANNER_ORIGIN) }

  function WithoutScannerRows(rows: seq<Annotation>): seq<Annotation>
  {
    if |rows| == 0 then []
    else if ScannerRow(rows[0]) then WithoutScannerRows(rows[1..])
    else [rows[0]] + WithoutScannerRows(rows[1..])
  }

  function ScannerRows(findings: seq<Finding>): seq<Annotation>
  {
    seq(|findings|, i requires 0 <= i < |findings| => Annotation(REDACTION_MASK, Some(SCANNER_ORIGIN), findings[i]))
  }

  function RowsOf(annotations: map<string, seq<Annotation>>, sessionId: string): seq<Annotation>
  {
    if sessionId in annotations then annotations[sessionId] else []
  }

  /** `replaceAnnotations` for the scanner: its own rows of one session, and no others. */
  function ReplaceScannerRows(annotations: map<string, seq<Annotation>>, sessionId: string, findings: seq<Finding>): map<string, seq<Annotation>>
  {
    annotations[sessionId := WithoutScannerRows(RowsOf(annotations, sessionId)) + ScannerRows(findings)]
  }

  /** Best effort: whatever the provider or the store does here, the attempt goes on. */
  function Embed(w: World, r: Run, session: Session): Run
  {
    if !w.embeds then r
    else Call(r, r.db.(embeddings := r.db.embeddings[session.id := session.content])).(error := r.error)
  }

  /** Resolves whose session this is and stamps it: everything before the writes. */
  function Prepare(w: World, row: Artifact, parser: string, session: Session, findings: seq<Finding>, index: nat, r: Run): (Run, Session)
  {
    var key := KeyOf(w, row.meta, session, index);
    var r1 := Call(r, Identify(r.db, key, Proposed(row, session, index)));
    if r1.error.Some? then (r1, session) else
    var parsed := Captured(session, r1.db.identities[key], parser, findings);
    var r2 := LookupTeam(r1, parsed);
    (r2, Stamped(parsed, r2.teams))
  }

  /** Writes the session, its scanner annotations and its embedding. */
  function Store(w: World, session: Session, findings: seq<Finding>, r: Run): Run
  {
    var r1 := Call(r, r.db.(sessions := r.db.sessions[session.id := session]));
    if r1.error.Some? then r1 else
    var r2 := Call(r1, r1.db.(annotations := ReplaceScannerRows(r1.db.annotations, session.id, findings)));
    if r2.error.Some? then r2 else
    var r3 := Embed(w, r2, session);
    r3.(saved := r3.saved + [session.id])
  }

  /** One turn of the session loop. */
  function SaveOne(w: World, row: Artifact, parser: string, session: Session, findings: seq<Finding>, index: nat, r: Run): Run
  {
    var (prepared, stamped) := Prepare(w, row, parser, session, findings, index, r);
    if prepared.error.Some? then prepared else Store(w, stamped, findings, prepared)
  }

  /** The loop after its first `n` sessions, stopped at the first exception. */
  function SaveFirst(w: World, row: Artifact, parser: string, sessions: seq<Session>, findings: seq<Finding>, r: Run, n: nat): Run
    requires n <= |sessions|
  {
    if n == 0 then r
    else
      var before := SaveFirst(w, row, parser, sessions, findings, r, n - 1);
      if before.error.Some? then before else SaveOne(w, row, parser, sessions[n - 1], findings, n - 1, before)
  }

  function WriteRow(db: Db, row: Artifact): Db
  {
    db.(artifacts := db.artifacts[row.meta.sha256 := row])
  }

  /** `parse`: the run it leaves, and its answer when no exception is on its way out. */
  function Parse(w: World, row: Artifact, r: Run): (Run, Answer)
  {
    var r0 := if row.meta.objectKey in w.objects then Call(r, r.db) else Throw(r, "object_not_found");
    if r0.error.Some? then (r0, Threw(r0.error.value)) else
    match Parsing(w, row.meta)
    case ParserThrew(message) => (Throw(r0, message), Threw(message))
    case Unknown(diagnostic) =>
      var r1 := Call(r0, WriteRow(r0.db, row.(status := UnknownFormat, diagnostic := Some(diagnostic))));
      (r1, if r1.error.Some? then Threw(r1.error.value) else Done(UnknownFormat, []))
    case Sessions(parser, sessions) =>
      var r1 := Call(r0, r0.db);
      if r1.error.Some? then (r1, Threw(r1.error.value)) else
      var findings := w.scan(w.objects[row.meta.objectKey], r1.db.settings);
      var r2 := SaveFirst(w, row, parser, sessions, findings, r1, |sessions|);
      if r2.error.Some? then (r2, Threw(r2.error.value)) else
      var r3 := Call(r2, WriteRow(r2.db, row.(sessionIds := r2.saved, status := Parsed, diagnostic := None)));
      (r3, if r3.error.Some? then Threw(r3.error.value) else Done(Parsed, r3.saved))
  }

  function FailureRow(row: Artifact, sessionIds: seq<string>, message: string): Artifact
  {
    row.(sessionIds := sessionIds, status := Failed, diagnostic := Some("parse failed: " + message))
  }

  /** `process`: the whole attempt, its own failure report included. */
  function Process(w: World, sha256: string, db: Db, plan: seq<Fault>): Attempt
  {
    var started := Call(Run(db, plan, map[], [], None), db);
    if started.error.Some? then Attempt(started.db, started.plan, Threw(started.error.value))
    else if sha256 !in db.artifacts then Attempt(started.db, started.plan, Threw("artifact_not_found"))
    else
      var row := db.artifacts[sha256];
      var (r, answer) := Parse(w, row, started);
      if r.error.None? then Attempt(r.db, r.plan, answer)
      else
        var reported := Call(r, WriteRow(r.db, FailureRow(row, r.saved, r.error.value)));
        Attempt(reported.db, reported.plan, answer)
  }
}
