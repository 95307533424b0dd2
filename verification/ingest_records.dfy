/** The rows the ingest pipeline reads and writes. */
module IngestRecords {
  import opened Wrappers

  datatype Context = Context(tenantId: string, userId: string, machineId: Option<string>)

  /** The columns of a raw artifact no attempt ever changes. */
  datatype ArtifactMeta = ArtifactMeta(
    id: string, tenantId: string, sha256: string, objectKey: string,
    source: string, sourcePath: Option<string>, capturedAt: string)

  datatype Status = Stored | Queued | Parsed | UnknownFormat | Failed

  datatype Artifact = Artifact(
    meta: ArtifactMeta, sessionIds: seq<string>, status: Status, diagnostic: Option<string>)

  datatype Source = Source(vendor: string, tool: string, version: string, machineId: string, nativeSessionId: Option<string>)

  datatype Provenance = Provenance(kind: string, sourceId: string, parserVersion: string)

  datatype Visibility = Visibility(scope: string, ownerId: string, teamId: Option<string>)

  datatype RedactionStatus = Clear | Findings | Reviewed

  /** `content` stands for the title, summary, turns and blocks, which the pipeline carries unchanged. */
  datatype Session = Session(
    id: string, source: Source, provenance: seq<Provenance>, visibility: Visibility,
    redactionStatus: RedactionStatus, content: string)

  datatype Finding = Finding(kind: string, start: nat, end: nat, preview: string)

  /** One annotation without the id and the timestamps the store mints for it. */
  datatype Annotation = Annotation(kind: string, origin: Option<string>, value: Finding)

  /** Version is recorded with an identity but is not part of what it is found by. */
  datatype IdentityKey = IdentityKey(tool: string, nativeSessionId: string)

  datatype Settings = Settings(patterns: seq<string>)

  datatype Format = Format(source: string, version: string)

  /** What a parser is told about a capture that names no session of its own. */
  datatype Seed = Seed(
    id: string, source: Source, workspacePath: string, createdAt: string,
    provenance: seq<Provenance>, visibility: Visibility, rawArtifactId: string)

  datatype ParseResult =
    | Sessions(parser: string, sessions: seq<Session>)
    | Unknown(diagnostic: string)
    | ParserThrew(message: string)

  /** The tables of one tenant. */
  datatype Db = Db(
    artifacts: map<string, Artifact>,
    sessions: map<string, Session>,
    identities: map<IdentityKey, string>,
    annotations: map<string, seq<Annotation>>,
    embeddings: map<string, string>,
    settings: Settings,
    optins: map<string, string>)

  /**
   * What one attempt reads and no attempt writes: the object storage, and the
   * detector, parsers, scanner and uuid derivation as pure functions.
   */
  datatype World = World(
    context: Context,
    objects: map<string, string>,
    detect: (string, string) -> Format,
    parse: (Format, string, Seed) -> ParseResult,
    scan: (string, Settings) -> seq<Finding>,
    uuidV5: string -> string,
    embeds: bool)

  const SCANNER_ORIGIN := "secret-scanner"
  const REDACTION_MASK := "redaction_mask"
}
