/**
 * The services as the source writes them: tables updated in place, statement by
 * statement, and a deny-list that prunes itself. Each method is proved to be
 * one step of `AuthTables` or `AuthRun`.
 */
module AuthServer {
  import opened Wrappers
  import opened AuthTables
  import AuthRun
  import Scopes

  /** The deny-list as the backend without a database holds it: expiry by token id. */
  class BrowserSessions {
    var revokedInMemory: map<nat, int>

    constructor ()
      ensures revokedInMemory == map[]
    {
      revokedInMemory := map[];
    }

    method ForgetExpired(now: int)
      modifies this
      ensures revokedInMemory == AuthRun.ForgetExpired(old(revokedInMemory), now)
    {
      var entries := revokedInMemory.Keys;
      while entries != {}
        invariant entries <= revokedInMemory.Keys <= old(revokedInMemory).Keys
        invariant forall j :: j in revokedInMemory ==> revokedInMemory[j] == old(revokedInMemory)[j]
        invariant forall j :: j in old(revokedInMemory) && j !in entries ==> (j in revokedInMemory <==> old(revokedInMemory)[j] > Seconds(now))
        decreases entries
      {
        var jti :| jti in entries;
        if revokedInMemory[jti] <= Seconds(now) {
          revokedInMemory := revokedInMemory - {jti};
        }
        entries := entries - {jti};
      }
    }

    method Revoke(claims: Claims, now: int)
      modifies this
      ensures revokedInMemory == AuthRun.Deny(AuthRun.InMemory, old(revokedInMemory), claims, now)
    {
      revokedInMemory := revokedInMemory[claims.jti := claims.exp];
      ForgetExpired(now);
    }

    method IsRevoked(claims: Claims, now: int) returns (revoked: bool)
      modifies this
      ensures revokedInMemory == AuthRun.OnRead(AuthRun.InMemory, old(revokedInMemory), now)
      ensures revoked <==> claims.jti in revokedInMemory
    {
      ForgetExpired(now);
      revoked := claims.jti in revokedInMemory;
    }
  }

  /** One tenant's `UPDATE api_keys`: the user's live rows there. */
  function KeyPass(rows: map<nat, ApiKeyRow>, tenant: nat, user: nat, now: int): map<nat, ApiKeyRow>
  {
    map k | k in rows ::
      if rows[k].tenant == tenant && rows[k].user == user && rows[k].revokedAt.None?
      then rows[k].(revokedAt := Some(now)) else rows[k]
  }

  /** One tenant's `UPDATE machine_tokens`: the rows whose hash is among the identities found there. */
  function TokenPass(rows: map<Claims, MachineTokenRow>, found: map<Lookup, Identity>, tenant: nat, now: int): map<Claims, MachineTokenRow>
  {
    map c | c in rows ::
      if rows[c].tenant == tenant && MachineToken(c) in found && found[MachineToken(c)].tenant == tenant
      then rows[c].(revokedAt := Some(now)) else rows[c]
  }

  lemma NothingRevokedYet(t: Tables, user: nat, credentials: set<Lookup>)
    ensures t.apiKeys == RevokeKeyRows(t.apiKeys, KeyRowsToRevoke(t, user, {}), t.now)
    ensures t.machineTokens == RevokeTokenRows(t.machineTokens, TokenRowsToRevoke(t, credentials, {}), t.now)
  {
  }

  lemma KeyPassCovers(t: Tables, user: nat, did: set<nat>, tenant: nat)
    ensures KeyPass(RevokeKeyRows(t.apiKeys, KeyRowsToRevoke(t, user, did), t.now), tenant, user, t.now)
         == RevokeKeyRows(t.apiKeys, KeyRowsToRevoke(t, user, did + {tenant}), t.now)
  {
  }

  lemma TokenPassCovers(t: Tables, user: nat, did: set<nat>, tenant: nat)
    ensures var credentials := CredentialsOf(t, user);
      var found := map l | l in credentials :: t.identities[l];
      TokenPass(RevokeTokenRows(t.machineTokens, TokenRowsToRevoke(t, credentials, did), t.now), found, tenant, t.now)
      == RevokeTokenRows(t.machineTokens, TokenRowsToRevoke(t, credentials, did + {tenant}), t.now)
  {
  }

  /** The account tables and the services over them. */
  class Accounts {
    var now: int
    var next: nat
    var users: map<nat, User>
    var identities: map<Lookup, Identity>
    var apiKeys: map<nat, ApiKeyRow>
    var machineTokens: map<Claims, MachineTokenRow>
    var machines: set<(nat, nat)>
    var issued: set<Claims>

    function View(): Tables
      reads this
    {
      Tables(now, next, users, identities, apiKeys, machineTokens, machines, issued)
    }

    constructor (t: Tables)
      ensures View() == t
    {
      now, next, users, identities := t.now, t.next, t.users, t.identities;
      apiKeys, machineTokens, machines, issued := t.apiKeys, t.machineTokens, t.machines, t.issued;
    }

    method Fresh() returns (id: nat)
      modifies this`next
      ensures id == old(next) && next == id + 1
    {
      id := next;
      next := next + 1;
    }

    /** `TokenService.issue`, which remembers nothing; `issued` is what its signature stands for. */
    method Issue(sub: nat, tenant: nat, scopes: seq<string>, kind: TokenKind, machineId: Option<nat>, credentialId: Option<nat>) returns (claims: Claims)
      modifies this`next, this`issued
      ensures claims == NewToken(old(View()), sub, tenant, scopes, kind, machineId, credentialId)
      ensures View() == Sign(old(View()), claims)
    {
      var jti := Fresh();
      claims := Claims(jti, sub, tenant, scopes, kind, now, Seconds(now) + HOUR, machineId, credentialId);
      issued := issued + {claims};
    }

    method Login(email: string, password: string) returns (session: Option<Claims>)
      modifies this`next, this`issued
      ensures (View(), session) == AuthTables.Login(old(View()), email, password)
      ensures session.Some? <==> var l := Password(email);
        l in old(identities) && old(identities)[l].revokedAt == None && old(identities)[l].user in users
        && old(identities)[l].secretHash == OfPassword(password)
    {
      var l := Password(email);
      if l in identities && identities[l].revokedAt.None? && identities[l].user in users && identities[l].secretHash == OfPassword(password) {
        var claims := Issue(identities[l].user, identities[l].tenant, Scopes.PASSWORD_SCOPES, Browser, None, None);
        return Some(claims);
      }
      return None;
    }

    method CreateApiKey(ctx: Context, scopes: seq<string>, tail: nat) returns (secret: Option<Secret>)
      modifies this
      ensures (View(), secret) == AuthTables.CreateApiKey(old(View()), ctx, scopes, tail)
    {
      if !Scopes.AssertGrantable(scopes, ctx.scopes).Granted? { return None; }
      var id := Fresh();
      var identityId := Fresh();
      var prefix := Fresh();
      var minted := Secret(prefix, tail);
      apiKeys := apiKeys[id := ApiKeyRow(ctx.tenant, ctx.user, prefix, OfKey(minted), scopes, None)];
      identities := identities[ApiKey(prefix) := Identity(identityId, ctx.tenant, ctx.user, OfKey(minted), scopes, None, None, None)];
      return Some(minted);
    }

    method RevokeApiKey(ctx: Context, keyId: nat) returns (found: bool)
      modifies this`apiKeys, this`identities
      ensures (View(), found) == AuthTables.RevokeApiKey(old(View()), ctx, keyId)
    {
      if keyId !in apiKeys || apiKeys[keyId].tenant != ctx.tenant { return false; }
      var row := apiKeys[keyId];
      apiKeys := apiKeys[keyId := row.(revokedAt := Some(now))];
      assert apiKeys == RevokeKeyRows(old(apiKeys), {keyId}, now);
      var l := ApiKey(row.prefix);
      if l in identities && identities[l].tenant == ctx.tenant {
        identities := identities[l := identities[l].(revokedAt := Some(now))];
        assert identities == RevokeIdentities(old(identities), {l}, now);
      } else {
        assert identities == RevokeIdentities(old(identities), {}, now);
      }
      return true;
    }

    method IssueMachineToken(ctx: Context, machineId: nat) returns (token: Option<Claims>)
      modifies this
      ensures (View(), token) == AuthTables.IssueMachineToken(old(View()), ctx, machineId)
    {
      if (ctx.tenant, machineId) !in machines { return None; }
      var claims := Issue(ctx.user, ctx.tenant, Scopes.MACHINE_SCOPES, Machine, Some(machineId), None);
      var expiresAt := claims.exp * 1000;
      machineTokens := machineTokens[claims := MachineTokenRow(ctx.tenant, machineId, expiresAt, None)];
      var id := Fresh();
      identities := identities[MachineToken(claims) :=
        Identity(id, ctx.tenant, ctx.user, OfToken(claims), Scopes.MACHINE_SCOPES, Some(machineId), Some(expiresAt), None)];
      return Some(claims);
    }

    method RevokeMachineTokens(ctx: Context, machineId: nat) returns (revoked: nat)
      modifies this`machineTokens, this`identities
      ensures (View(), revoked) == AuthTables.RevokeMachineTokens(old(View()), ctx.tenant, machineId)
    {
      var rows := set c | c in machineTokens && machineTokens[c].tenant == ctx.tenant
                          && machineTokens[c].machineId == machineId && machineTokens[c].revokedAt.None?;
      machineTokens := RevokeTokenRows(machineTokens, rows, now);
      var which := set l | l in identities && l.MachineToken? && identities[l].tenant == ctx.tenant
                           && identities[l].machineId == Some(machineId) && identities[l].revokedAt.None?;
      identities := RevokeIdentities(identities, which, now);
      revoked := |which|;
    }

    method CutSessions(user: nat, keptJti: Option<nat>)
      requires user in users
      modifies this`users
      ensures users == old(users)[user := old(users)[user].(notBefore := Some(now), keptJti := keptJti)]
    {
      users := users[user := users[user].(notBefore := Some(now), keptJti := keptJti)];
    }

    method ReplacePassword(l: Lookup, user: nat, password: string, kept: Option<nat>)
      requires l in identities && user in users
      modifies this`identities, this`users
      ensures View() == SetPassword(old(View()), l, user, password, kept)
    {
      identities := identities[l := identities[l].(secretHash := OfPassword(password))];
      users := users[user := users[user].(passwordHash := Some(OfPassword(password)))];
      CutSessions(user, kept);
    }

    method ChangePassword(ctx: Context, claims: Claims, current: string, password: string) returns (changed: bool)
      modifies this`identities, this`users
      ensures (View(), changed) == AuthTables.ChangePassword(old(View()), ctx, claims, current, password)
    {
      if !ctx.authType.ByBrowser? || !claims.kind.Browser? || claims.sub != ctx.user || ctx.user !in users { return false; }
      var l := Password(users[ctx.user].email);
      if l !in identities || identities[l].revokedAt.Some? || identities[l].user != ctx.user || identities[l].tenant != ctx.tenant { return false; }
      if identities[l].secretHash != OfPassword(current) { return false; }
      ReplacePassword(l, ctx.user, password, Some(claims.jti));
      return true;
    }

    /** The operator's reset, its two mirror tables written tenant by tenant. */
    method ResetPassword(email: string, password: string) returns (done: bool)
      modifies this`identities, this`users, this`apiKeys, this`machineTokens
      ensures (View(), done) == AuthTables.ResetPassword(old(View()), email, password)
    {
      var l := Password(email);
      if l !in identities || identities[l].revokedAt.Some? || identities[l].user !in users { return false; }
      var user := identities[l].user;
      ReplacePassword(l, user, password, None);
      RevokeCredentials(user);
      return true;
    }

    method RevokeCredentials(user: nat)
      modifies this`identities, this`apiKeys, this`machineTokens
      ensures View() == RevokeAll(old(View()), user)
    {
      ghost var before := View();
      var credentials := CredentialsOf(View(), user);
      var tenants := TenantsOf(View(), credentials);
      var found := map l | l in credentials :: identities[l];
      identities := RevokeIdentities(identities, credentials, now);
      var left := tenants;
      ghost var did: set<nat> := {};
      NothingRevokedYet(before, user, credentials);
      while left != {}
        invariant did + left == tenants && did !! left
        invariant identities == RevokeIdentities(before.identities, credentials, now)
        invariant apiKeys == RevokeKeyRows(before.apiKeys, KeyRowsToRevoke(before, user, did), now)
        invariant machineTokens == RevokeTokenRows(before.machineTokens, TokenRowsToRevoke(before, credentials, did), now)
        decreases left
      {
        hide RevokeKeyRows, KeyRowsToRevoke, RevokeTokenRows, TokenRowsToRevoke, KeyPass, TokenPass;
        var tenant :| tenant in left;
        KeyPassCovers(before, user, did, tenant);
        apiKeys := KeyPass(apiKeys, tenant, user, now);
        TokenPassCovers(before, user, did, tenant);
        machineTokens := TokenPass(machineTokens, found, tenant, now);
        left := left - {tenant};
        did := did + {tenant};
      }
      assert did == tenants;
      assert View() == before.(identities := identities, apiKeys := apiKeys, machineTokens := machineTokens);
    }

    method Logout(sessions: BrowserSessions, claims: Claims)
      modifies sessions
      ensures sessions.revokedInMemory == AuthRun.Serve(AuthRun.InMemory, AuthRun.Server(View(), old(sessions.revokedInMemory)), AuthRun.SignOut(claims)).0.denied
    {
      if claims in issued && claims.exp > Seconds(now) && claims.kind.Browser? {
        sessions.Revoke(claims, now);
      }
    }

    method AuthenticateBearer(sessions: BrowserSessions, claims: Claims) returns (ctx: Option<Context>)
      modifies sessions
      ensures (AuthRun.Server(View(), sessions.revokedInMemory), ctx)
        == AuthRun.Authenticate(AuthRun.InMemory, AuthRun.Server(old(View()), old(sessions.revokedInMemory)), AuthRun.Bearer(claims))
    {
      if claims !in issued || claims.exp <= Seconds(now) { return None; }
      if claims.kind.Machine? {
        return if CredentialLive(View(), claims) then Some(BearerContext(claims)) else None;
      }
      var revoked := sessions.IsRevoked(claims, now);
      if revoked { return None; }
      return if CredentialLive(View(), claims) then Some(BearerContext(claims)) else None;
    }
  }
}
