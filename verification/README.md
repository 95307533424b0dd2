# Memoar, verified

Memoar archives coding-agent sessions: it parses captured transcripts, keeps them
per tenant, searches and excerpts them under a budget, rewrites them for sharing
and for other tools, and guards all of it with credentials and rate limits. This
project models the parts of its server where the argument is hard and proves them
with Dafny's verifier. `dafny verify dfyconfig.toml` checks everything.

## What is modelled

**Ingest with retries** (`ingest_*.dfy`). One call of the pipeline is a function of
the tables and of a plan that settles how every store call fares: well, failing
before it takes effect, or failing after. The class `Pipeline` is the code as
written, over a store object any call of which can fail, and is proved to be that
function. Object storage, detector, parsers, scanner and uuid derivation are
arbitrary pure functions. The result is an if and only if: an attempt that completes
after any number of aborted ones leaves what a single clean attempt leaves, exactly
when the artifact row proposes nothing a failure report can lose. A failure report
replaces the row's session ids by those saved so far, so an id the row proposed, and
no identity yet records, is gone for the next attempt. The best-effort embeddings are
not part of the comparison.

**Credentials** (`auth_*.dfy`, `scopes.dfy`). Users, sign-in identities, API keys,
machine tokens, MCP tokens and the deny-list of signed-out browser tokens are one
state machine with a non-decreasing clock in milliseconds; every request is
authenticated at one clock reading. `AuthServer` has the services as classes that
update tables in place, each method proved to be one step. Hashes are injective and
named by what they hash; a signed token is a member of the set of tokens ever issued.
The code reads the clock once to verify a token and again to consult the deny-list;
`auth_readings.dfy` authenticates across two readings, with other requests between
them, and says for each backend exactly when that shows (`InMemoryExact`,
`InTableExact`; `SlipsThrough` is a run on which it does). `auth_history.dfy` tells
passwords and keys from the requests and answers of a run alone.

**Evidence under a budget** (`fusion*.dfy`, `worker_pool.dfy`, `team_*.dfy`,
`citation.dfy`, `pack*.dfy`, `injection.dfy`). Rank fusion with exact rational
scores, the worker pool as a machine over every interleaving, the evidence pack with
its citations, and the paste-in prelude with its omission report.

**Rewriting sessions** (`redaction*.dfy`, `turn_*.dfy`, `serialize.dfy`,
`canonical_form.dfy`, `sorting.dfy`, `native_paths.dfy`). The outbound projection,
turn ids over runs of saves and copies with the table of rows behind them, the
canonical report and the hash input, and the native paths with the guard they pass.

**Rate limits** (`rate_limit*.dfy`, `mcp_limiter.dfy`). The sweeping counter, the guard
and the interceptor that spend from it, and the two backends of the MCP limiter.

## Where the code does not do what one would expect

The code is kept as it is. Each entry names a lemma that states exactly when the
expected property holds and, after "for instance", one that gives an input on which it
does not, where the exact lemma leaves that to be found.

- Retries do not always converge: `RetryConvergence`; for instance `LostOnUpgrade`,
  a parser that names a session its earlier version did not.
- A semantic backend that fails with an empty message is not noticed, and a team
  page then mixes two rankings: `OneRegimeExact`; for instance `SilentTenant`.
- The last break of the evidence-pack builder can end a pack when a later turn has a
  shorter ordinal than an earlier one: `BreakExact`; for instance `TenThenTwo`, with
  the request `BreaksAlone` builds for it.
- The prelude reports a zero or negative number of removed characters when the first
  turn fits the budget, but not a quarter of it, and the last does not fit:
  `CutCountExact`; for instance `CutByMinusTwo`.
- Masks that overlap can leave a character they cover in the text. A character survives
  any list of masks exactly when it escapes each in turn (`SurvivalExact`); disjoint masks
  hide just what they cover (`DisjointExact`); two that overlap show a covered character
  exactly when the outer one ends later and the inner one is shorter than its own marker
  (`OverlapShowsExact`, `OverlapInsideExact`), and can also swallow text nobody masked
  (`OverlapLosesExact`); for instance `OverlapUncovers`.
- With disjoint masks, agreeing outside them is not enough when the texts differ in
  length: `VisibleExact`; for instance `LengthShows`.
- The lookup that keeps turn ids apart sees one tenant, while the table's key spans
  the archive: `AcrossExact`; for instance `TwoTenantsClash`.
- JavaScript enumerates array-index keys first, so the canonical key order is the byte
  order the source's comment promises only under the condition of `ByteOrderExact`; for
  instance `DashAndDigit`.
- Names the encoding confuses keep the order they came in, so the form forgets key order
  exactly when there are none: `KeyOrderForgottenExact`; for instance `UntoldKeysShow`.
- A workspace named `.` or `..`, and a timestamp of more than 204 characters, fail the
  guard: `ClaudePathExact`, `CodexPathExact`.
- The MCP limiter's map form lets the first call of a window through whatever the
  maximum: `FormsAgreeExactly`.
- A token that was signed out is let in when it expires between the two readings of
  the clock: `InMemoryExact`, `InTableExact`; for instance `SlipsThrough`.

Two lemmas only show why an assumption is made, and characterise nothing:
`RepeatsOutweigh`, why `Dominance` compares counts in every prefix and not places alone,
and `ClockRunsBack`, why `FormsAgreeExactly` is over clocks that do not run back.

## Model

| member | source | states |
|---|---|---|
| IngestPipeline.ArchiveStore.UpdateRawArtifact | server/src/store/interfaces.ts:238-246 | a write that may be lost before or after it takes effect, and nothing else changes |
| IngestPipeline.ArchiveStore.ResolveSessionIdentity | server/src/store/interfaces.ts:24-28 | the first proposal for an identity is kept and every later one answered with it, under any fault |
| IngestPipeline.ArchiveStore.ReplaceAnnotations | server/src/store/interfaces.ts:63-84 | the scanner's own rows of one session are replaced, all other rows kept in order |
| IngestPipeline.Pipeline.Process | server/src/ingest/pipeline.ts:84-122 | the method as written is the attempt function for every plan of faults, its failure report included |
| IngestPipeline.Pipeline.ParseArtifact | server/src/ingest/pipeline.ts:124-207 | parse and its answer, and the session ids pushed before an exception |
| IngestPipeline.Pipeline.SaveSessions | server/src/ingest/pipeline.ts:138-204 | the session loop stops at the first exception with exactly the ids saved before it |
| IngestPipeline.Pipeline.SaveSession | server/src/ingest/pipeline.ts:139-199 | identity, stamp, save, rescan and best-effort embedding, in that order |
| IngestConvergence.RetryConvergence | server/src/ingest/pipeline.ts:84-206 | any aborted attempts then a completed one equal one clean attempt, if and only if no proposal can be lost |
| IngestConvergence.Retried | server/src/ingest/pipeline.ts:84-206 | the same sessions, identities, annotations, artifact row and answer, for any plans |
| IngestConvergence.LostProposal | server/src/ingest/pipeline.ts:115-122 | when a proposal can be lost, one failed fetch and a retry end elsewhere |
| IngestConvergence.LostOnUpgrade | server/src/ingest/pipeline.ts:115-143 | a row parsed before, read by a parser that names its session anew, does not converge |
| IngestConvergence.FirstProposalWins | server/src/ingest/pipeline.ts:139-143 | an identity nobody knew takes the id its first session proposes and keeps it to the end of the loop |
| IngestConvergence.HopelessStays | server/src/ingest/pipeline.ts:124-128 | an artifact that cannot be fetched or parsed fails on every attempt |
| IngestConvergence.AttemptKeepsHandRows | server/src/ingest/pipeline.ts:182-190 | however an attempt ends, annotations the scanner did not write, settings and opt-ins are untouched |
| IngestConvergence.RetriesKeepHandRows | server/src/ingest/pipeline.ts:182-190 | nor does any number of attempts touch them |
| IngestStamp.StampExact | server/src/ingest/pipeline.ts:130-199 | whatever fails: every session row an attempt writes has findings exactly when the scan of the stored bytes has, is widened to its machine's team exactly when the scan is empty and the parser left it private, names the parser that ran and is otherwise as parsed; a completed attempt has one for each, with the findings beside it |
| IngestStamp.EmbedExact | server/src/ingest/pipeline.ts:191-199 | without a provider nothing is embedded; with one, a clean attempt embeds each saved session's own content |
| IngestIdentity.FallbackExact | server/src/ingest/pipeline.ts:40-44 | two captures are known by one name exactly when they are of one file on one machine, or uploads with the same first sixteen digits of digest |
| IngestIdentity.KeyExact | server/src/ingest/pipeline.ts:139-143 | sessions without an id of their own are one exactly when tool, origin and place are the same |
| IngestIdentity.NativeKeyExact | server/src/ingest/pipeline.ts:139-143 | a session with one is known by it and its tool, wherever captured |
| IngestIdentity.SeedExact | server/src/ingest/pipeline.ts:46-68 | the parser is given one session id for captures of one origin, another for others, and the machine that captured |
| AuthServer.BrowserSessions.ForgetExpired | server/src/auth/browser-sessions.ts:60-65 | the loop removes exactly the expired entries |
| AuthServer.BrowserSessions.Revoke | server/src/auth/browser-sessions.ts:32-49 | the token is denied until it expires, and expired entries go |
| AuthServer.BrowserSessions.IsRevoked | server/src/auth/browser-sessions.ts:51-58 | the answer, and what reading it forgets |
| AuthServer.Accounts.Login | server/src/auth/auth.service.ts:62-78 | a session for a live password identity with the right password, and nothing otherwise |
| AuthServer.Accounts.CreateApiKey | server/src/auth/credentials.service.ts:64-88 | one row in each ledger under one new prefix, or no change |
| AuthServer.Accounts.RevokeApiKey | server/src/auth/credentials.service.ts:103-118 | both ledgers, found by id in one and by prefix in the other |
| AuthServer.Accounts.IssueMachineToken | server/src/auth/credentials.service.ts:153-175 | one row in each ledger for the new token's hash |
| AuthServer.Accounts.RevokeMachineTokens | server/src/auth/credentials.service.ts:186-203 | the machine's live rows in both ledgers, and their number |
| AuthServer.Accounts.ChangePassword | server/src/auth/password-change.ts:75-108 | a new hash and a cut that keeps the caller's session, or no change |
| AuthServer.Accounts.RevokeCredentials | server/src/reset-password.ts:58-72 | the loop over tenants revokes, in both mirror tables, what one pass over the identities found |
| AuthServer.Accounts.ResetPassword | server/src/reset-password.ts:41-80 | new password, every session cut, every key and machine token revoked |
| AuthServer.Accounts.Logout | server/src/auth/auth.service.ts:246-249 | only a valid browser token is added to the deny-list |
| AuthServer.Accounts.AuthenticateBearer | server/src/auth/auth.service.ts:271-296 | the context of a token that verifies, is not signed out and whose credential is live, and none otherwise |
| AuthInvariant.RegisterKeeps | server/src/auth/auth.service.ts:105-164 | registering keeps the invariant and revives nothing |
| AuthInvariant.OAuthKeeps | server/src/auth/oauth-accounts.ts:50-91 | so does a provider sign-in, with or without an account |
| AuthInvariant.CreateApiKeyKeeps | server/src/auth/credentials.service.ts:64-88 | so does making a key, in both ledgers |
| AuthInvariant.RevokeApiKeyKeeps | server/src/auth/credentials.service.ts:103-118 | so does revoking one, so the ledgers still agree |
| AuthInvariant.HandshakeKeeps | server/src/mcp/handshake.controller.ts:57-81 | so does exchanging a key for an MCP token, which stays within its key |
| AuthInvariant.IssueMachineTokenKeeps | server/src/auth/credentials.service.ts:153-175 | so does minting a machine token |
| AuthInvariant.RevokeMachineTokensKeeps | server/src/auth/credentials.service.ts:186-203 | so does revoking a machine's tokens, by machine in both ledgers |
| AuthInvariant.ResetPasswordKeeps | server/src/reset-password.ts:41-80 | so does a reset, by user in one ledger and tenant by tenant in the others |
| AuthInvariant.ChangePasswordKeeps | server/src/auth/password-change.ts:75-108 | so does a password change |
| AuthRun.AuthenticatedContext | server/src/auth/auth.service.ts:271-286 | whoever is let in has an account, and the credential the context names |
| AuthRun.RunKeeps | server/src/auth/credentials.service.ts:64-203 | every run of requests keeps the invariant and forgets or revives nothing |
| AuthRun.LedgersNeverDisagree | server/src/auth/credentials.service.ts:177-185 | in every reachable state the two ledgers match one to one and agree on what is revoked, and when |
| AuthHistory.SignInExact | server/src/auth/auth.service.ts:62-78 | after any run a sign-in is answered with a token exactly when its password is the one the last accepted sign-up, reset or change set for the address, and the token is the account's that a sign-up made for it |
| AuthHistory.ResetExact | server/src/reset-password.ts:41-50 | a reset goes through exactly for an address with such a password |
| AuthHistory.ResetReplaces | server/src/reset-password.ts:41-55 | after it that password signs in and no other |
| AuthHistory.ChangeExact | server/src/auth/password-change.ts:75-108 | a change goes through exactly when its token would be let in, is a browser's, and the current password given is the one last set |
| AuthHistory.KeyWasMade | server/src/auth/credentials.service.ts:205-214 | a key lets its bearer in only if that very secret was handed out in the run |
| AuthEntrances.SignUpExact | server/src/auth/auth.service.ts:105-164 | after any run a sign-up is answered with a token exactly when nobody has signed up with its address or come in by a provider under it |
| AuthEntrances.ProviderExact | server/src/auth/oauth-accounts.ts:50-91 | a provider sign-in exactly when somebody has, or signup is open |
| AuthAnswers.MakeKeyExact | server/src/auth/credentials.service.ts:64-88 | a key is made exactly for scopes that exist and the caller holds, by one who may write keys, and both ledgers then file it as asked |
| AuthAnswers.DropKeyExact | server/src/auth/credentials.service.ts:103-118 | dropped exactly when listed for the caller's tenant, and then revoked in both ledgers |
| AuthAnswers.ExchangeExact | server/src/mcp/handshake.controller.ts:57-81 | exchanged exactly by an API key that holds `mcp:use` or the wildcard, for a token of that key |
| AuthAnswers.EnrolExact | server/src/machines.ts:87-105 | enrolled exactly by one who may write machines, under a new id of the caller's tenant |
| AuthAnswers.MachineExact | server/src/machine-revocation.ts:37-55 | tokens are minted, dropped and retired exactly for an enrolled machine of that tenant |
| AuthTheorems.ResetIsFinal | server/src/reset-password.ts:25-40 | nothing of the account from before a reset authenticates in any later state, whatever is served |
| AuthTheorems.RunCut | server/src/auth/session-cutoff.ts:24-48 | no later cut, and no session kept by one, reaches back behind the reset |
| AuthTheorems.PruningIsInvisible | server/src/auth/browser-sessions.ts:32-65 | either way of pruning gives, in every run, the answers of a list that never forgets |
| AuthTheorems.SignedOutForEver | server/src/auth/auth.service.ts:245-249 | a signed-out token is refused after any further requests |
| AuthReadings.OneReading | server/src/auth/auth.service.ts:271-286 | with one clock reading the split authentication is the guard |
| AuthReadings.KeptIsSignedOut | server/src/auth/auth.service.ts:245-249 | a list that never forgets holds exactly the sessions some request of the run signed out |
| AuthReadings.InMemoryExact | server/src/auth/browser-sessions.ts:51-65 | with separate readings the map backend lets a token of the run in wrongly exactly when it was signed out and expires between them, its credential still live |
| AuthReadings.TableHolds | server/src/auth/browser-sessions.ts:39-48 | a row stays in the table from the sign-out to another session's first sign-out past its expiry |
| AuthReadings.InTableExact | server/src/auth/browser-sessions.ts:39-58 | and the table backend exactly when such a sign-out came in as well |
| AuthReadings.SlipsThrough | server/src/auth/browser-sessions.ts:51-65 | a run on which it happens, one millisecond apart |
| AuthTheorems.McpLivesAsItsKey | server/src/auth/token-liveness.ts:52-69 | an exchanged token is live if and only if its one key is unrevoked |
| AuthTheorems.DelegationNarrows | server/src/auth/scopes.ts:30-60 | in every run a context holds no more than its key and its sign-in, and never the wildcard |
| AuthTheorems.MadeKeyNarrows | server/src/auth/credentials.service.ts:64-88 | a key never outranks its creator, and its secret authenticates as that key |
| AuthTheorems.ExchangedTokenCallsSameTools | server/src/mcp/handshake.controller.ts:69-81 | an exchanged token may call exactly the tools its key may, for any gate table |
| AuthTheorems.ChangeKeepsCallerOnly | server/src/auth/password-change.ts:66-74 | a change ends every earlier session but the caller's, and the new password signs in |
| AuthTheorems.OnePasswordIdentity | server/src/auth/password-change.ts:97-101 | looking the password identity up by account finds the one under its address |
| AuthTheorems.SignInWorks | server/src/auth/session-cutoff.ts:24-30 | a fresh sign-in works at once, even in the instant of a cut, and verifies for an hour |
| AuthTheorems.MachineTokenWorks | server/src/auth/credentials.service.ts:153-203 | a machine token works for an hour, in its three scopes, unless its machine's tokens are revoked |
| AuthTheorems.DroppedKeyIsDead | server/src/auth/credentials.service.ts:103-113 | revoking a key ends that key and no other credential |
| AuthTheorems.RevokedTokensCounted | server/src/auth/credentials.service.ts:177-203 | the number reported is the number of tokens ended, which are the machine's live ones |
| Scopes.GrantExact | server/src/auth/scopes.ts:38-60 | a grant is exactly a known request within what the caller holds |
| Scopes.ToolScopesExact | server/src/mcp/tool-scopes.ts:126-144 | a call goes ahead exactly when the tool is gated and every scope is held or implied |
| Scopes.ExchangeKeepsTools | server/src/mcp/tool-scopes.ts:102-144 | narrowing a key to the MCP vocabulary loses and gains no tool, for any table |
| Scopes.ExchangeNarrows | server/src/mcp/tool-scopes.ts:102-114 | a token holds no more than its key, and no wildcard unless a gate names it |
| Scopes.ShippedVocabulary | server/src/mcp/tool-scopes.ts:70-81 | the shipped vocabulary is the one its table derives |
| Scopes.McpUseAloneReads | server/src/mcp/tool-scopes.ts:83-100 | with `mcp:use` and no other scope exactly the reading tools are open |
| Fusion.Fuse | server/src/search/search.service.ts:20-31 | every id once, as first seen, with the sum of its reciprocal ranks, in strict order |
| Fusion.FusionUnique | server/src/search/search.service.ts:20-31 | those requirements leave one result |
| Fusion.ListOrderFree | server/src/search/search.service.ts:11-19 | ids and scores in order do not depend on the order of the lists |
| Fusion.Dominance | server/src/search/search.service.ts:20-31 | an id ahead of another in every list comes first, by prefix counts |
| Fusion.DominancePlain | server/src/search/search.service.ts:20-31 | without repeats, being above wherever the other appears is enough |
| Fusion.RepeatsOutweigh | server/src/search/search.service.ts:24-28 | with repeats it is not |
| FusionMeaning.FusedExact | server/src/search/search.service.ts:20-31 | each candidate is the first of its id, with a score that adds one over `61 + k` for every place `k` the id has in any list |
| FusionMeaning.OneList | server/src/search/search.service.ts:20-31 | one list without repeats keeps its order, place `k` scored one over `61 + k` |
| WorkerPool.ClaimedOnce | server/src/search/team-search.ts:28-38 | under every interleaving each index is claimed once, in order, with at most `min(limit, n)` in flight |
| WorkerPool.EveryInterleaving | server/src/search/team-search.ts:28-38 | when all workers stop every result is its own item's, or the pool rejects, exactly when some item does |
| WorkerPool.Along | server/src/search/team-search.ts:31-35 | each step finishes one item: the measure every schedule runs down |
| WorkerPool.Progress | server/src/search/team-search.ts:31-36 | no state with a worker running is stuck |
| WorkerPool.NobodyToClaim | server/src/search/team-search.ts:31 | with a limit of zero no worker starts and the pool answers holes |
| TeamSearch.Execute | server/src/search/team-search.ts:63-92 | refused above 25 tenants, rejected with any lexical leg, else the first `limit` of one fusion |
| TeamSearch.FanOut | server/src/search/team-search.ts:75 | however the workers interleave, the legs are those of the tenants in order |
| TeamSearch.TenantOrderFree | server/src/search/team-search.ts:75-91 | mode, ids and scores do not depend on the order of the tenants |
| TeamSearch.OneRegimeExact | server/src/search/team-search.ts:76-85 | the page is one ranking regime unless a tenant fails silently and none loudly |
| TeamSearch.SilentTenant | server/src/search/team-search.ts:76-85 | two tenants, one failing with an empty message: a hybrid page that ranks it lexically and reports nothing |
| TeamPage.PageExact | server/src/search/team-search.ts:76-92 | the failure is that of the first tenant to report one, the mode is lexical then and the one asked for otherwise, and the page is the best of a fusion of just the lists of that mode |
| Citation.CitedTurnEnd | server/src/search/search.service.ts:141-150 | the ordinal of the greatest piece whose beginning lies within the kept prefix |
| Citation.LastKeptIndex | server/src/mcp/core-tools.ts:254-263 | its index, by the same specification, so the two agree on all inputs |
| Citation.LastKept | server/src/mcp/core-tools.ts:253-263 | begins inside what is kept, and nothing later does |
| Citation.CitationExact | server/src/search/search.service.ts:133-150 | the excerpt is a prefix of the pieces up to the cited one and a separator, reaches into it, and holds all before it |
| Citation.GetExcerpt | server/src/mcp/core-tools.ts:167-212 | an empty span is refused, a cut one names the last turn that survived, an uncut one the last turn |
| Citation.PieceExact | server/src/mcp/core-tools.ts:194-195 | a turn is quoted under its role and ordinal with everything its blocks say |
| Pack.Build | server/src/search/search.service.ts:179-231 | which candidates are quoted, in what words, where it stops and why, and every count and status it reports |
| PackTheorems.PackUnique | server/src/search/search.service.ts:191-222 | that leaves one choice of candidates and one wording |
| PackTheorems.WithinBudget | server/src/search/search.service.ts:183-229 | at most `maxTokens * 4` characters, `tokenEstimate` within `maxTokens`, and the slice never cuts evidence |
| PackTheorems.BreakExact | server/src/search/search.service.ts:206-215 | for no request and no list of candidates does the last break end the pack at a session, exactly when no ordinal of it prints longer than its last |
| PackTheorems.BreaksAlone | server/src/search/search.service.ts:206-215 | otherwise some request, with the session its only candidate, breaks there, and every pack for it is empty |
| PackTheorems.TenThenTwo | server/src/search/search.service.ts:206-208 | turns 10 and 2, in that order, are such a session |
| PackTheorems.OrderedIsWidest | server/src/search/search.service.ts:206-208 | non-decreasing ordinals meet that condition |
| PackTheorems.WithinBounds | server/src/search/search.service.ts:191-221 | evidence, session, excerpt and strict-freshness bounds |
| PackFreshness.FreshnessExact | server/src/search/search.service.ts:191-221 | in milliseconds: each age is its candidate's; before the stop exactly the candidates with text, and under strict freshness none past the limit, are quoted; and the stale ones quoted are the ones counted |
| PackFreshness.TextTurnsExact | server/src/search/search.service.ts:197-201 | the turns quoted from are those with text, in order, with what their blocks say |
| PackFreshness.ExcerptExact | server/src/search/search.service.ts:201-215 | an excerpt is the session's lines from the beginning, and ends early only where its own limit or, under the widest heading, the pack's is reached |
| PackTheorems.Cites | server/src/search/search.service.ts:211-213 | every quote's cited span is exact |
| PackTheorems.StatusExact | server/src/search/search.service.ts:152-165 | the three pack statuses in terms of the sessions quoted |
| Injection.InjectionFallbackWriter.Select | server/src/convert/injection-writer.ts:87-110 | the opening and the tail of the choice, and the one cut reported |
| Injection.InjectionFallbackWriter.Truncate | server/src/convert/injection-writer.ts:112-122 | nothing without a budget, else the prefix, the marker and one entry |
| Injection.InjectionFallbackWriter.Omissions | server/src/convert/injection-writer.ts:124-143 | ranges that cover exactly the turns not kept, in order and apart |
| Injection.InjectionFallbackWriter.Write | server/src/convert/injection-writer.ts:45-54 | what is included, and the report of it |
| Injection.LongestSuffix | server/src/convert/injection-writer.ts:94-101 | no earlier start of the tail would have fitted |
| Injection.OpeningKept | server/src/convert/injection-writer.ts:87-92 | an opening of at most a quarter of the budget comes first and whole, and a budget always keeps something |
| Injection.EndingKept | server/src/convert/injection-writer.ts:93-107 | the prelude ends with the last turn exactly when that fits the budget, the first is short enough to open it, or there is no other, and a last turn that is cut spends all of it |
| Injection.SourceWithinBudget | server/src/convert/injection-writer.ts:86-110 | source characters kept never exceed the budget |
| Injection.IncludedFromParts | server/src/convert/injection-writer.ts:86-122 | every included section is a turn, whole or cut to the prefix counted |
| Injection.OneOmission | server/src/convert/injection-writer.ts:124-143 | at most one omission, the complement of what was kept, and the two add up to the turn count |
| Injection.CutCountExact | server/src/convert/injection-writer.ts:87-121 | a cut is counted as zero or less exactly when the first turn is past a quarter of the budget and within it and the last is past it, and then the turn is kept whole with a marker |
| Injection.CutByMinusTwo | server/src/convert/injection-writer.ts:102-121 | two characters within a budget of four, reported as cut by minus two |
| Redaction.ApplyMasks | server/src/redaction.ts:128-136 | for disjoint masks the right-to-left loop is one left-to-right reading |
| Redaction.Verbatim | server/src/redaction.ts:128-136 | text where no mask starts is kept verbatim |
| Redaction.OrderFree | server/src/redaction.ts:131 | the order of the masks is lost |
| Redaction.ApplyDisjoint | server/src/redaction.ts:128-136 | the replacements one by one come to that reading |
| Redaction.OverlapUncovers | server/src/redaction.ts:128-136 | an instance: with a mask inside another, eleven covered characters come out |
| RedactionOverlap.SurvivalExact | server/src/redaction.ts:128-136 | for any masks, a character is in the result exactly when it escapes each mask in turn, by arithmetic on offsets alone |
| RedactionOverlap.ShownIsThere | server/src/redaction.ts:128-136 | such a character is there, at an index of the result |
| RedactionOverlap.DisjointExact | server/src/redaction.ts:128-136 | disjoint masks hide exactly the characters they cover |
| RedactionOverlap.OverlapShowsExact | server/src/redaction.ts:128-136 | two overlapping masks show a covered character exactly when the outer one's last character is moved past its end |
| RedactionOverlap.OverlapInsideExact | server/src/redaction.ts:128-136 | inside the text: exactly when the outer mask ends later and the inner is shorter than its marker |
| RedactionOverlap.OverlapLosesExact | server/src/redaction.ts:128-136 | and lose one nobody masked exactly when the first behind both is moved before the outer end |
| RedactionProjection.ReviewedMasks | server/src/redaction.ts:112-126 | exactly the anchored, well-ranged masks, in order |
| RedactionProjection.MasksExact | server/src/redaction.ts:112-126 | a mask is there exactly when its range exists and some annotation of that kind asks for it on a named block |
| RedactionProjection.MasksInOrder | server/src/redaction.ts:112-126 | the masks of two runs of annotations are those of the one and then of the other |
| RedactionProjection.MaskLiterals | server/src/redaction.ts:83-89 | the patterns applied in order |
| RedactionProjection.TwoPasses | server/src/redaction.ts:83-89 | one pattern gives its own value, and a list split in two is two passes |
| RedactionProjection.ApplyRedactionProjection | server/src/redaction.ts:157-197 | the clone, field by field, is the projection, and satisfies whatever each pattern establishes and the later ones keep, in every text field |
| RedactionProjection.ProjectionClean | server/src/redaction.ts:83-89 | so does the projection of any session |
| RedactionProjection.OnePatternMore | server/src/redaction.ts:176-197 | one more pattern goes over every text the earlier ones left, of blocks already masked, and changes nothing else |
| RedactionProjection.NoPatterns | server/src/redaction.ts:187-197 | without patterns blocks are masked, tool payloads go, and that is all |
| RedactionProjection.VisibleExact | server/src/redaction.ts:128-136 | texts that agree outside the masks come out equal exactly when the same masks start inside both |
| RedactionProjection.LengthShows | server/src/redaction.ts:128-136 | a mask over the end of a text tells it from the text without that end |
| RedactionProjection.OnlyVisible | server/src/redaction.ts:145-197 | sessions alike outside masks and tool payloads have one projection, whatever the patterns |
| RedactionProjection.MaskOrderFree | server/src/redaction.ts:157-162 | masks in another order give the same projection |
| TurnIdentity.ScopeCollidingTurns | server/src/store/turn-identity.ts:32-44 | ids held elsewhere are derived anew, in turns and parent links alike, all others kept |
| TurnIdentity.ForestKept | server/src/store/turn-identity.ts:29-43 | parent links among the turns are those captured, and links out of the session stay |
| TurnIdentity.CopyTransferredTurns | server/src/store/transfer-copy.ts:20-29 | every turn a fresh id, every link between copied turns followed |
| TurnIdentity.CopyForest | server/src/store/transfer-copy.ts:11-29 | a copy has the forest of what it copies |
| TurnIdentity.TurnTable.SaveTurns | server/src/store/postgres/sessions.ts:89-132 | delete, then upsert turn by turn, on any rows; other sessions' rows stay exactly when no id derived is held by one, and the session's own are then replaced |
| TurnIdentity.SparesExact | server/src/store/turn-identity.ts:14-20 | for any table and capture, when a save moves no other session's row |
| TurnArchive.SaveKeeps | server/src/store/turn-identity.ts:19-30 | after any save every session is still what its capture scopes to |
| TurnArchive.RunKeeps | server/src/store/turn-identity.ts:19-30 | and so over every run of saves and imports |
| TurnArchive.OneOwnerAlways | server/src/store/turn-identity.ts:4-10 | in every reachable archive a turn id of a tenant belongs to one session |
| TurnArchive.IdsKeptAlways | server/src/store/turn-identity.ts:21-26 | no step of any run changes the id under which a turn is stored |
| TurnArchive.ForestAlways | server/src/store/turn-identity.ts:28-29 | in every reachable archive the stored forest is the captured one |
| TurnArchive.ImportKeeps | server/src/store/transfer-copy.ts:11-39 | an imported copy disturbs nothing |
| TurnRows.SaveRepresented | server/src/store/postgres/sessions.ts:89-132 | a save on the table is the archive's save and touches no other session's row |
| TurnRows.TableAlways | server/src/store/postgres/sessions.ts:89-132 | after any run, from the empty table, a tenant's rows are exactly the turns of its sessions |
| TurnRows.NoTurnLost | server/src/store/turn-identity.ts:14-20 | along any run a row stays with its session, at its place |
| TurnRows.UntouchedRow | server/src/store/turn-identity.ts:22-24 | a row of a session no step saves is not changed at all |
| TurnArchive.AcrossExact | server/src/store/postgres/sessions.ts:89-98 | across tenants ids stay unique exactly when none saved as captured is held in another tenant |
| TurnArchive.TwoTenantsClash | server/src/store/postgres/sessions.ts:89-98 | a run of two saves, each allowed, after which one id is held in two tenants |
| Serialize.ChildrenSorted | server/src/convert/serialize.ts:20-22 | canonicalizing children before or after the sort comes to the same |
| Serialize.RearrangeUnique | server/src/convert/serialize.ts:17-25 | the key order forgets the order it was given |
| Serialize.NumbersIndexed | server/src/convert/serialize.ts:19-22 | a printed number is an index key up to 4294967294 |
| Serialize.OrderForgottenExact | server/src/convert/serialize.ts:17-25 | every order of one object's keys comes out alike exactly when no two names are encoded alike |
| CanonicalForm.CanonicalExact | server/src/convert/serialize.ts:17-25 | equal canonical forms are values equal up to key order at every depth, both ways, when one of them has no confused names |
| CanonicalForm.CanonicalizeIdempotent | server/src/convert/serialize.ts:17-25 | canonicalizing twice is canonicalizing once, whatever the encoding |
| CanonicalForm.ByteOrderExact | server/src/convert/serialize.ts:6-16 | keys come out in byte order exactly when index keys and bytes agree on every pair |
| CanonicalForm.DashAndDigit | server/src/convert/serialize.ts:6-16 | the keys `-` and `1` do not come out in byte order |
| CanonicalForm.KeyOrderForgottenExact | server/src/convert/serialize.ts:17-25 | every value equal up to key order has the same form exactly when no object in it has names encoded alike |
| CanonicalForm.UntoldKeysShow | server/src/convert/serialize.ts:20-21 | an instance: two such names in either order |
| CanonicalForm.HashInputExact | server/src/convert/serialize.ts:27-48 | two bundles hash the same input exactly when files agree in any order and reports up to key order |
| NativePaths.GuardExact | server/src/convert/bundle-guard.ts:30-53 | the guard passes exactly the bundles a machine will accept |
| NativePaths.SplitExact | server/src/convert/bundle-guard.ts:43 | components hold no separator and join back to the path |
| NativePaths.WorkspaceNameExact | server/src/convert/workspace-name.ts:31-44 | one component of at most 180 bytes, normal unless the workspace is `.` or `..` |
| NativePaths.LongNamesApart | server/src/convert/workspace-name.ts:39-43 | long names that end alike still differ, as their digests do |
| NativePaths.ClaudePathExact | server/src/convert/native-writers.ts:23-30 | passes exactly when the workspace is neither `.` nor `..` |
| NativePaths.CodexPathExact | server/src/convert/native-writers.ts:57-65 | passes exactly when the timestamp has at most 204 characters |
| NativePaths.AntigravityPathsPass | server/src/convert/native-writers.ts:87-110 | always passes |
| RateLimit.MemoryRateLimitStore.Hit | server/src/rate-limit.ts:84-100 | count, window and sweep |
| RateLimit.MemoryRateLimitStore.Peek | server/src/rate-limit.ts:102-105 | the live count |
| RateLimit.RateLimitGuard.CanActivate | server/src/rate-limit.ts:197-246 | flood first, then the account's failures |
| RateLimit.CredentialFailureInterceptor.Intercept | server/src/rate-limit.ts:264-291 | only a rejected credential is recorded |
| RateLimit.KeysApart | server/src/rate-limit.ts:166-178 | a flood count and a failure count never share a key |
| RateLimitVerdicts.VerdictExact | server/src/rate-limit.ts:197-246 | over every ordered run of arrivals and settlements: refused for requests exactly when the arrivals since the flood window opened exceed the limit, and past that for failures exactly when the 401 and 403 settlements of a window still open have reached theirs |
| RateLimitVerdicts.StretchBound | server/src/rate-limit.ts:222-224 | any stretch shorter than a window lets at most twice the limit past the flood check |
| RateLimitTheorems.SweepInvisible | server/src/rate-limit.ts:80-106 | the sweeping store answers every hit and peek as one that keeps everything |
| RateLimitTheorems.TwiceTheLimit | server/src/rate-limit.ts:84-100 | any stretch of calls shorter than one window admits at most twice the limit, without a sweep |
| RateLimitTheorems.IntervalBound | server/src/rate-limit.ts:84-106 | and so do the answers of the store that sweeps |
| RateLimitTheorems.FailureBudget | server/src/rate-limit.ts:226-291 | with at most M requests in flight no window records more than `limit + M - 1` failures |
| RateLimitTheorems.BudgetReached | server/src/rate-limit.ts:226-291 | some run records exactly that many |
| RateLimitTheorems.OnlyRejectionsCount | server/src/rate-limit.ts:248-289 | answered, refused and otherwise failing requests move neither count nor window |
| McpLimiter.McpRateLimiter.Consume | server/src/mcp.ts:35-50 | each backend's counter and answer |
| McpLimiter.RedisExact | server/src/mcp.ts:37-42 | allowed exactly within the maximum of calls on the key in the window |
| McpLimiter.MapExact | server/src/mcp.ts:43-49 | the same, except that a first call is never asked |
| McpLimiter.FormsAgreeExactly | server/src/mcp.ts:34-50 | the two forms agree on every trace exactly when the maximum is at least one |
| McpLimiter.ClockRunsBack | server/src/mcp.ts:34-50 | why the clock is assumed not to run back: a trace on which the forms part |

## Left out

- Store implementations: the pipeline talks to the contracts in `server/src/store/interfaces.ts`; saving a session there is one upsert, and the rescoping of turn ids is modelled apart from it.
- The source version of a session identity, which is recorded and never looked up by.
- Embeddings are best effort in the source, so the convergence result does not compare them.
- Two attempts on one artifact at the same time: the queue runs one at a time, and so does the model.
- AuthRun.RunKeeps: account deletion, retention, teams and `lastUsedAt` or `lastSeenAt` stamps are not requests of the model.
- AuthAnswers.EnrolExact: a registration that names an installation already enrolled updates that machine in the source; here every registration is of a new one.
- AuthTheorems.PruningIsInvisible: one clock reading serves both the check and the pruning; `AuthReadings` covers two. A third, before the credential itself is looked up, is taken together with the second.
- Development auth and the legacy MCP token branch (`server/src/auth/token-liveness.ts:72-75`), which only add exceptions.
- Registration, provider sign-in, enrolment and the handshake are functions on the tables, not methods of `AuthServer.Accounts`; trimming and lower-casing of addresses and the choice of status codes are not modelled.
- Cryptography: signatures, scrypt and SHA-256 are opaque; a token cannot be presented unless it was issued.
- OAuth state and nonces, cookies, DTO validation, metrics, decorators and the two-header corner of the guard.
- Fusion.Fuse: scores are exact rationals where the source adds floating-point numbers, and an id is its place in the collation order.
- The single-tenant `SearchService.execute`, whose legs fall back to the lexical list unfused; the fusion it calls is `Fusion.Fuse`.
- The prelude's markdown around the selected turns, and how a block is rendered to text: a section arrives rendered.
- Injection.OneOmission: assumes consecutive ordinals, without which the source's ranges name turns that are not there.
- RedactionProjection.OnlyVisible: for masks that are disjoint on each block, which nothing in the source enforces; what overlapping ones show is `RedactionOverlap`.
- Regular expressions: a pattern is any function on strings.
- Deletions, retention and tenants that move in the turn-identity model; sessions there only grow. The table keyed by turn id is one tenant's; what its archive-wide key adds is `TurnArchive.AcrossExact`.
- Block ids of a copy, its visibility and its provenance entry.
- The bytes of a file stand for their base64, digest and size; `JSON.stringify` is taken to tell manifests apart.
- Unpaired surrogates: a character is a Unicode scalar value in paths, and an encoding that may confuse keys in canonical forms.
- The contents of the native bundles, and the resume commands.
- RateLimitTheorems.FailureBudget: a failure is recorded in the step that settles the request; a lost record only lowers the count, but one that arrives late lets requests leave flight before they are counted, and the bound can then be exceeded.
- The Redis form of the HTTP rate limit, response headers, and reading budgets from the environment.
- The web app, desktop, Rust materializer, npx launcher, HTML export and logging.
