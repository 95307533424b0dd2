/**
 * The credential tables and every operation on them, each as one step at one
 * clock reading. Time is in integer milliseconds; `exp` is in seconds, as the
 * tokens carry it. Hashes are injective, so a hash is named by what it hashes.
 */
module AuthTables {
  import opened Wrappers
  import Scopes

  datatype TokenKind = Browser | Machine | Mcp

  datatype Claims = Claims(
    jti: nat, sub: nat, tenant: nat, scopes: seq<string>, kind: TokenKind,
    iat: int, exp: int, machineId: Option<nat>, credentialId: Option<nat>)

  datatype Secret = Secret(prefix: nat, tail: nat)

  datatype Hash = Unusable | OfPassword(password: string) | OfKey(secret: Secret) | OfToken(token: Claims)

  /** `(kind, lookupKey)`, which the identity table keeps unique. */
  datatype Lookup = Password(email: string) | OAuth(email: string) | ApiKey(prefix: nat) | MachineToken(token: Claims)

  datatype Identity = Identity(
    id: nat, tenant: nat, user: nat, secretHash: Hash, scopes: seq<string>,
    machineId: Option<nat>, expiresAt: Option<int>, revokedAt: Option<int>)

  datatype User = User(email: string, passwordHash: Option<Hash>, notBefore: Option<int>, keptJti: Option<nat>)

  datatype ApiKeyRow = ApiKeyRow(
    tenant: nat, user: nat, prefix: nat, secretHash: Hash, scopes: seq<string>, revokedAt: Option<int>)

  datatype MachineTokenRow = MachineTokenRow(tenant: nat, machineId: nat, expiresAt: int, revokedAt: Option<int>)

  /** `next` is above every id, jti and prefix handed out so far; `issued` is every token ever signed. */
  datatype Tables = Tables(
    now: int, next: nat,
    users: map<nat, User>,
    identities: map<Lookup, Identity>,
    apiKeys: map<nat, ApiKeyRow>,
    machineTokens: map<Claims, MachineTokenRow>,
    machines: set<(nat, nat)>,
    issued: set<Claims>)

  datatype AuthType = ByBrowser | ByMachine | ByMcp | ByApiKey

  datatype Context = Context(
    tenant: nat, user: nat, scopes: seq<string>, authType: AuthType, machineId: Option<nat>, credentialId: Option<nat>)

  const HOUR := 3600

  function Seconds(ms: int): int { ms / 1000 }

  predicate Live(t: Tables, l: Lookup) { l in t.identities && t.identities[l].revokedAt.None? }

  // ---------------------------------------------------------------- tokens

  /** `TokenService.issue` */
  function NewToken(t: Tables, sub: nat, tenant: nat, scopes: seq<string>, kind: TokenKind,
                    machineId: Option<nat>, credentialId: Option<nat>): Claims
  {
    Claims(t.next, sub, tenant, scopes, kind, t.now, Seconds(t.now) + HOUR, machineId, credentialId)
  }

  function Sign(t: Tables, claims: Claims): Tables
  {
    t.(next := t.next + 1, issued := t.issued + {claims})
  }

  /** `TokenService.verify`: signed here, and not yet expired. */
  predicate Verifies(t: Tables, claims: Claims)
  {
    claims in t.issued && claims.exp > Seconds(t.now)
  }

  // ---------------------------------------------------------------- what is live

  predicate SurvivesCutoff(claims: Claims, user: User)
  {
    || user.notBefore.None?
    || user.keptJti == Some(claims.jti)
    || claims.iat >= user.notBefore.value
  }

  predicate SignInLive(t: Tables, claims: Claims)
  {
    && (exists l :: l in t.identities && (l.Password? || l.OAuth?)
          && t.identities[l].tenant == claims.tenant && t.identities[l].user == claims.sub && t.identities[l].revokedAt.None?)
    && (claims.sub in t.users ==> SurvivesCutoff(claims, t.users[claims.sub]))
  }

  predicate ApiKeyCredentialLive(t: Tables, tenant: nat, user: nat, credentialId: nat)
  {
    exists l :: l in t.identities && l.ApiKey? && t.identities[l].id == credentialId
      && t.identities[l].tenant == tenant && t.identities[l].user == user && t.identities[l].revokedAt.None?
  }

  predicate MachineTokenLive(t: Tables, claims: Claims)
  {
    var l := MachineToken(claims);
    && Live(t, l)
    && t.identities[l].tenant == claims.tenant && t.identities[l].user == claims.sub
    && t.identities[l].machineId == claims.machineId
    && t.identities[l].expiresAt.Some? && t.identities[l].expiresAt.value > t.now
  }

  /** What decides for a token that verifies and is not signed out. */
  predicate CredentialLive(t: Tables, claims: Claims)
  {
    match claims.kind
    case Browser => SignInLive(t, claims)
    case Mcp => claims.credentialId.Some? && ApiKeyCredentialLive(t, claims.tenant, claims.sub, claims.credentialId.value)
    case Machine =>
      claims.machineId.Some? && MachineTokenLive(t, claims) && (claims.tenant, claims.machineId.value) in t.machines
  }

  function BearerContext(claims: Claims): Context
  {
    Context(claims.tenant, claims.sub, claims.scopes,
      match claims.kind case Browser => ByBrowser case Mcp => ByMcp case Machine => ByMachine,
      claims.machineId, None)
  }

  function AuthenticateApiKey(t: Tables, secret: Secret): Option<Context>
  {
    var l := ApiKey(secret.prefix);
    if Live(t, l) && t.identities[l].secretHash == OfKey(secret)
    then Some(Context(t.identities[l].tenant, t.identities[l].user, t.identities[l].scopes, ByApiKey, None, Some(t.identities[l].id)))
    else None
  }

  /** The guard on an account route: the scope, and no credential confined to its own channel. */
  predicate Admits(ctx: Context, scope: string)
  {
    (Scopes.WILDCARD in ctx.scopes || scope in ctx.scopes) && (ctx.authType.ByBrowser? || ctx.authType.ByApiKey?)
  }

  // ---------------------------------------------------------------- signing in

  function Register(t: Tables, email: string, password: string): (Tables, Option<Claims>)
  {
    if Password(email) in t.identities || (exists u :: u in t.users && t.users[u].email == email) then (t, None)
    else
      var user, tenant := t.next, t.next + 1;
      var t' := t.(next := t.next + 3,
        users := t.users[user := User(email, Some(OfPassword(password)), None, None)],
        identities := t.identities[Password(email) :=
          Identity(t.next + 2, tenant, user, OfPassword(password), Scopes.PASSWORD_SCOPES, None, None, None)]);
      var claims := NewToken(t', user, tenant, Scopes.PASSWORD_SCOPES, Browser, None, None);
      (Sign(t', claims), Some(claims))
  }

  function Login(t: Tables, email: string, password: string): (Tables, Option<Claims>)
  {
    var l := Password(email);
    if Live(t, l) && t.identities[l].user in t.users && t.identities[l].secretHash == OfPassword(password) then
      var claims := NewToken(t, t.identities[l].user, t.identities[l].tenant, Scopes.PASSWORD_SCOPES, Browser, None, None);
      (Sign(t, claims), Some(claims))
    else (t, None)
  }

  /** A verified provider address: the account it is already in, or a new one while signup is open. */
  ghost function OAuthSignIn(t: Tables, email: string, open: bool): (Tables, Option<Claims>)
  {
    if Live(t, OAuth(email)) || Live(t, Password(email)) then
      var identity := t.identities[if Live(t, OAuth(email)) then OAuth(email) else Password(email)];
      var claims := NewToken(t, identity.user, identity.tenant, Scopes.PASSWORD_SCOPES, Browser, None, None);
      (Sign(t, claims), Some(claims))
    else if !open || OAuth(email) in t.identities then (t, None)
    else
      var user, tenant := UserFor(t, email), t.next + 1;
      var t' := t.(next := t.next + 3,
        users := if user in t.users then t.users else t.users[user := User(email, None, None, None)],
        identities := t.identities[OAuth(email) :=
          Identity(t.next + 2, tenant, user, Unusable, Scopes.PASSWORD_SCOPES, None, None, None)]);
      var claims := NewToken(t', user, tenant, Scopes.PASSWORD_SCOPES, Browser, None, None);
      (Sign(t', claims), Some(claims))
  }

  /** The user row already under an address, or a fresh id. */
  ghost function UserFor(t: Tables, email: string): nat
  {
    if exists u :: u in t.users && t.users[u].email == email
    then var u :| u in t.users && t.users[u].email == email; u
    else t.next
  }

  // ---------------------------------------------------------------- API keys

  /** One row in each ledger, under one new prefix. */
  function AddKey(t: Tables, ctx: Context, scopes: seq<string>, tail: nat): Tables
  {
    var secret := Secret(t.next + 2, tail);
    t.(next := t.next + 3,
       apiKeys := t.apiKeys[t.next := ApiKeyRow(ctx.tenant, ctx.user, t.next + 2, OfKey(secret), scopes, None)],
       identities := t.identities[ApiKey(t.next + 2) :=
         Identity(t.next + 1, ctx.tenant, ctx.user, OfKey(secret), scopes, None, None, None)])
  }

  function CreateApiKey(t: Tables, ctx: Context, scopes: seq<string>, tail: nat): (Tables, Option<Secret>)
  {
    if !Scopes.AssertGrantable(scopes, ctx.scopes).Granted? then (t, None)
    else
      (AddKey(t, ctx, scopes, tail), Some(Secret(t.next + 2, tail)))
  }

  /** Revokes the identities of `which` at `at`. */
  function RevokeIdentities(identities: map<Lookup, Identity>, which: set<Lookup>, at: int): map<Lookup, Identity>
  {
    map l | l in identities :: if l in which then identities[l].(revokedAt := Some(at)) else identities[l]
  }

  function RevokeKeyRows(rows: map<nat, ApiKeyRow>, which: set<nat>, at: int): map<nat, ApiKeyRow>
  {
    map k | k in rows :: if k in which then rows[k].(revokedAt := Some(at)) else rows[k]
  }

  function RevokeTokenRows(rows: map<Claims, MachineTokenRow>, which: set<Claims>, at: int): map<Claims, MachineTokenRow>
  {
    map c | c in rows :: if c in which then rows[c].(revokedAt := Some(at)) else rows[c]
  }

  /** By id in one ledger, by prefix in the other. */
  function RevokeApiKey(t: Tables, ctx: Context, keyId: nat): (Tables, bool)
  {
    if keyId !in t.apiKeys || t.apiKeys[keyId].tenant != ctx.tenant then (t, false)
    else
      var l := ApiKey(t.apiKeys[keyId].prefix);
      (t.(apiKeys := RevokeKeyRows(t.apiKeys, {keyId}, t.now),
          identities := RevokeIdentities(t.identities,
            if l in t.identities && t.identities[l].tenant == ctx.tenant then {l} else {}, t.now)),
       true)
  }

  /** The MCP handshake: an API key, and no other credential, is exchanged. */
  function Handshake(t: Tables, vocabulary: seq<string>, ctx: Context): (Tables, Option<Claims>)
  {
    if !ctx.authType.ByApiKey? || (Scopes.MCP_USE !in ctx.scopes && Scopes.WILDCARD !in ctx.scopes) then (t, None)
    else
      var claims := NewToken(t, ctx.user, ctx.tenant, Scopes.McpTokenScopes(vocabulary, ctx.scopes), Mcp, None, ctx.credentialId);
      (Sign(t, claims), Some(claims))
  }

  // ---------------------------------------------------------------- machines

  function EnrolMachine(t: Tables, ctx: Context): (Tables, nat)
  {
    (t.(next := t.next + 1, machines := t.machines + {(ctx.tenant, t.next)}), t.next)
  }

  /** The signed token, and one row for its hash in each ledger. */
  function AddMachineToken(t: Tables, claims: Claims, id: nat): Tables
    requires claims.machineId.Some?
  {
    var expiresAt := claims.exp * 1000;
    t.(issued := t.issued + {claims},
       machineTokens := t.machineTokens[claims := MachineTokenRow(claims.tenant, claims.machineId.value, expiresAt, None)],
       identities := t.identities[MachineToken(claims) :=
         Identity(id, claims.tenant, claims.sub, OfToken(claims), claims.scopes, claims.machineId, Some(expiresAt), None)],
       next := t.next + 2)
  }

  function IssueMachineToken(t: Tables, ctx: Context, machineId: nat): (Tables, Option<Claims>)
  {
    if (ctx.tenant, machineId) !in t.machines then (t, None)
    else
      var claims := NewToken(t, ctx.user, ctx.tenant, Scopes.MACHINE_SCOPES, Machine, Some(machineId), None);
      (AddMachineToken(t, claims, t.next + 1), Some(claims))
  }

  /** By machine in both ledgers, live rows only. */
  function RevokeMachineTokens(t: Tables, tenant: nat, machineId: nat): (Tables, nat)
  {
    var rows := set c | c in t.machineTokens && t.machineTokens[c].tenant == tenant
                        && t.machineTokens[c].machineId == machineId && t.machineTokens[c].revokedAt.None?;
    var which := set l | l in t.identities && l.MachineToken? && t.identities[l].tenant == tenant
                         && t.identities[l].machineId == Some(machineId) && t.identities[l].revokedAt.None?;
    (t.(machineTokens := RevokeTokenRows(t.machineTokens, rows, t.now),
        identities := RevokeIdentities(t.identities, which, t.now)),
     |which|)
  }

  function RetireMachine(t: Tables, tenant: nat, machineId: nat): Tables
  {
    var (t', _) := RevokeMachineTokens(t, tenant, machineId);
    t'.(machines := t'.machines - {(tenant, machineId)})
  }

  // ---------------------------------------------------------------- passwords

  function SetPassword(t: Tables, l: Lookup, user: nat, password: string, kept: Option<nat>): Tables
    requires l in t.identities && user in t.users
  {
    t.(identities := t.identities[l := t.identities[l].(secretHash := OfPassword(password))],
       users := t.users[user := t.users[user].(
         passwordHash := Some(OfPassword(password)), notBefore := Some(t.now), keptJti := kept)])
  }

  /** A browser context with the right password moves the cut line, and its own jti stays on the living side. */
  function ChangePassword(t: Tables, ctx: Context, claims: Claims, current: string, password: string): (Tables, bool)
  {
    if !ctx.authType.ByBrowser? || !claims.kind.Browser? || claims.sub != ctx.user || ctx.user !in t.users then (t, false)
    else
      var l := Password(t.users[ctx.user].email);
      if Live(t, l) && t.identities[l].user == ctx.user && t.identities[l].tenant == ctx.tenant
         && t.identities[l].secretHash == OfPassword(current)
      then (SetPassword(t, l, ctx.user, password, Some(claims.jti)), true)
      else (t, false)
  }

  /** Unrevoked key and machine-token identities of one user, in any tenant. */
  function CredentialsOf(t: Tables, user: nat): set<Lookup>
  {
    set l | l in t.identities && (l.ApiKey? || l.MachineToken?) && t.identities[l].user == user && t.identities[l].revokedAt.None?
  }

  function TenantsOf(t: Tables, credentials: set<Lookup>): set<nat>
  {
    set l | l in credentials && l in t.identities :: t.identities[l].tenant
  }

  function KeyRowsToRevoke(t: Tables, user: nat, tenants: set<nat>): set<nat>
  {
    set k | k in t.apiKeys && t.apiKeys[k].tenant in tenants && t.apiKeys[k].user == user && t.apiKeys[k].revokedAt.None?
  }

  function TokenRowsToRevoke(t: Tables, credentials: set<Lookup>, tenants: set<nat>): set<Claims>
  {
    set c | c in t.machineTokens && t.machineTokens[c].tenant in tenants && MachineToken(c) in credentials
            && MachineToken(c) in t.identities && t.identities[MachineToken(c)].tenant == t.machineTokens[c].tenant
  }

  /** Every credential of the account ends: identities in one update, each ledger tenant by tenant. */
  function RevokeAll(t: Tables, user: nat): Tables
  {
    var credentials := CredentialsOf(t, user);
    var tenants := TenantsOf(t, credentials);
    t.(identities := RevokeIdentities(t.identities, credentials, t.now),
       apiKeys := RevokeKeyRows(t.apiKeys, KeyRowsToRevoke(t, user, tenants), t.now),
       machineTokens := RevokeTokenRows(t.machineTokens, TokenRowsToRevoke(t, credentials, tenants), t.now))
  }

  function Resettable(t: Tables, email: string): Option<nat>
  {
    if Live(t, Password(email)) && t.identities[Password(email)].user in t.users then Some(t.identities[Password(email)].user) else None
  }

  /** The operator's reset: a new password, no session kept, no credential left. */
  function ResetPassword(t: Tables, email: string, password: string): (Tables, bool)
  {
    var user := Resettable(t, email);
    if user.None? then (t, false)
    else (RevokeAll(SetPassword(t, Password(email), user.value, password, None), user.value), true)
  }
}
