/** What holds of every run of the server. */
module AuthTheorems {
  import opened Wrappers
  import opened AuthTables
  import opened AuthInvariant
  import opened AuthRun
  import Scopes

  // ---------------------------------------------------------------- reset is final

  /** From `at` on, no session of this account minted before `at` counts, and none is kept across. */
  ghost predicate CutSince(t: Tables, user: nat, at: int)
  {
    && user in t.users && at <= t.now
    && t.users[user].notBefore.Some? && t.users[user].notBefore.value >= at
    && (t.users[user].keptJti.Some? ==> forall c :: c in t.issued && c.jti == t.users[user].keptJti.value ==> c.iat >= at)
  }

  /** The cut line of an account and its kept session are as they were. */
  predicate SameLine(s: Tables, t: Tables, user: nat)
  {
    user in s.users ==> user in t.users && t.users[user].notBefore == s.users[user].notBefore && t.users[user].keptJti == s.users[user].keptJti
  }

  lemma CutFrame(s: Tables, t: Tables, user: nat, at: int)
    requires CutSince(s, user, at) && Extends(s, t) && SameLine(s, t, user)
    ensures CutSince(t, user, at)
  {
  }

  lemma OpenLine(t: Tables, request: Request, user: nat)
    requires Inv(t)
    ensures var t' := Open(t, request).0;
      SameLine(t, t', user) || (request.Reset? && Resettable(t, request.email) == Some(user)
        && user in t'.users && t'.users[user].notBefore == Some(t.now) && t'.users[user].keptJti == None)
  {
    FreshUser(t);
    hide Inv, Register, Login, OAuthSignIn, ResetPassword, SameLine, Resettable;
    match request {
      case SignUp(email, password) => RegisterLine(t, email, password, user);
      case SignIn(email, password) => LoginLine(t, email, password, user);
      case ProviderSignIn(email, open) => OAuthLine(t, email, open, user);
      case Reset(email, password) => ResetLine(t, email, password, user);
      case _ => SameUsers(t, Open(t, request).0, user);
    }
  }

  lemma SameUsers(s: Tables, t: Tables, user: nat)
    requires t.users == s.users
    ensures SameLine(s, t, user)
  {
  }

  lemma RegisterLine(t: Tables, email: string, password: string, user: nat)
    requires t.next !in t.users
    ensures SameLine(t, Register(t, email, password).0, user)
  {
  }

  lemma LoginLine(t: Tables, email: string, password: string, user: nat)
    ensures SameLine(t, Login(t, email, password).0, user)
  {
  }

  lemma OAuthLine(t: Tables, email: string, open: bool, user: nat)
    requires t.next !in t.users
    ensures SameLine(t, OAuthSignIn(t, email, open).0, user)
  {
    hide UserFor;
    UserForOk(t, email);
  }

  lemma ResetLine(t: Tables, email: string, password: string, user: nat)
    ensures var t' := ResetPassword(t, email, password).0;
      SameLine(t, t', user) || (Resettable(t, email) == Some(user)
        && user in t'.users && t'.users[user].notBefore == Some(t.now) && t'.users[user].keptJti == None)
  {
    hide RevokeIdentities, RevokeKeyRows, RevokeTokenRows, CredentialsOf, TenantsOf, KeyRowsToRevoke, TokenRowsToRevoke;
  }

  lemma ActLine(t: Tables, ctx: Context, request: Request, user: nat)
    ensures var t' := Act(t, ctx, request).0;
      SameLine(t, t', user) || (request.NewPassword? && ctx.user == user && ctx.authType.ByBrowser? && request.claims.sub == user
        && user in t'.users && t'.users[user].notBefore == Some(t.now) && t'.users[user].keptJti == Some(request.claims.jti))
  {
    hide RevokeIdentities, RevokeKeyRows, RevokeTokenRows, Scopes.AssertGrantable, Scopes.McpTokenScopes;
  }

  lemma ServeCut(mode: Pruning, s: Server, request: Request, user: nat, at: int)
    requires Inv(s.tables) && CutSince(s.tables, user, at)
    ensures CutSince(Serve(mode, s, request).0.tables, user, at)
  {
    hide Inv, Extends, Open, Act, CutSince;
    var s' := Serve(mode, s, request).0;
    ServeKeeps(mode, s, request);
    if request.SignOut? {
    } else if Caller(request).None? {
      OpenLine(s.tables, request, user);
      if SameLine(s.tables, s'.tables, user) {
        CutFrame(s.tables, s'.tables, user, at);
      } else {
        CutAgain(s.tables, s'.tables, user, at);
      }
    } else {
      AuthenticatedContext(mode, s, Caller(request).value);
      var (_, ctx) := Authenticate(mode, s, Caller(request).value);
      if ctx.Some? {
        ActLine(s.tables, ctx.value, request, user);
        if SameLine(s.tables, s'.tables, user) {
          CutFrame(s.tables, s'.tables, user, at);
        } else {
          KeptIsLive(mode, s, request.claims, user, at);
          CutKeeping(s.tables, s'.tables, user, at, request.claims);
        }
      }
    }
  }

  lemma CutAgain(s: Tables, t: Tables, user: nat, at: int)
    requires CutSince(s, user, at) && Extends(s, t)
    requires user in t.users && t.users[user].notBefore == Some(s.now) && t.users[user].keptJti == None
    ensures CutSince(t, user, at)
  {
  }

  /** The session a password change keeps has itself survived the cut. */
  lemma KeptIsLive(mode: Pruning, s: Server, claims: Claims, user: nat, at: int)
    requires Inv(s.tables) && CutSince(s.tables, user, at)
    requires Authenticate(mode, s, Bearer(claims)).1.Some? && Authenticate(mode, s, Bearer(claims)).1.value.authType.ByBrowser? && claims.sub == user
    ensures claims in s.tables.issued && claims.iat >= at
  {
    hide KeysNarrow, TokensBacked, LedgersAgree, Owned;
  }

  lemma CutKeeping(s: Tables, t: Tables, user: nat, at: int, claims: Claims)
    requires Inv(s) && Inv(t) && CutSince(s, user, at) && Extends(s, t)
    requires claims in s.issued && claims.iat >= at
    requires user in t.users && t.users[user].notBefore == Some(s.now) && t.users[user].keptJti == Some(claims.jti)
    ensures CutSince(t, user, at)
  {
    hide KeysNarrow, TokensBacked, LedgersAgree, Owned;
  }

  lemma {:induction false} RunCut(mode: Pruning, s: Server, requests: seq<Request>, user: nat, at: int)
    requires Inv(s.tables) && CutSince(s.tables, user, at)
    ensures CutSince(Run(mode, s, requests).0.tables, user, at)
  {
    hide Inv, Serve, CutSince;
    if |requests| > 0 {
      var earlier := requests[..|requests| - 1];
      RunCut(mode, s, earlier, user, at);
      RunKeeps(mode, s, earlier);
      ServeCut(mode, Run(mode, s, earlier).0, requests[|requests| - 1], user, at);
    }
  }

  /** A credential of the account that existed when it was reset. */
  ghost predicate Predates(t: Tables, user: nat, who: Presented)
  {
    match who
    case Bearer(claims) => claims in t.issued && claims.sub == user && (claims.kind.Browser? ==> claims.iat < t.now)
    case Key(secret) => ApiKey(secret.prefix) in t.identities && t.identities[ApiKey(secret.prefix)].user == user
  }

  /** Every key and machine token the account had in `s` is revoked in `t`. */
  ghost predicate AllRevoked(s: Tables, t: Tables, user: nat)
  {
    forall l :: l in s.identities && (l.ApiKey? || l.MachineToken?) && s.identities[l].user == user ==>
      l in t.identities && t.identities[l].revokedAt.Some?
  }

  /** A reset leaves no API key or machine token of the account unrevoked. */
  lemma ResetRevokes(t: Tables, email: string, password: string, user: nat)
    requires Inv(t) && Resettable(t, email) == Some(user)
    ensures var t' := ResetPassword(t, email, password).0;
      CutSince(t', user, t.now) && AllRevoked(t, t', user)
  {
    hide Inv, KeyRowsToRevoke, TokenRowsToRevoke, RevokeKeyRows, RevokeTokenRows, TenantsOf;
  }

  lemma DeadMcp(s: Tables, t: Tables, user: nat, claims: Claims)
    requires TokensBacked(s) && Numbered(t) && Extends(s, t) && AllRevoked(s, t, user)
    requires claims in s.issued && claims.sub == user && claims.kind.Mcp?
    ensures !CredentialLive(t, claims)
  {
    assert TokenBacked(s, claims);
    var l :| Exchanged(s, claims, l);
    assert SameIdentity(s.identities[l], t.identities[l]);
  }

  lemma DeadMachine(s: Tables, t: Tables, user: nat, claims: Claims)
    requires TokensBacked(s) && AllRevoked(s, t, user)
    requires claims in s.issued && claims.sub == user && claims.kind.Machine?
    ensures !CredentialLive(t, claims)
  {
    assert TokenBacked(s, claims);
  }

  lemma DeadBrowser(s: Tables, t: Tables, user: nat, claims: Claims)
    requires Extends(s, t) && CutSince(t, user, s.now)
    requires claims in s.issued && claims.sub == user && claims.kind.Browser? && claims.iat < s.now
    ensures !CredentialLive(t, claims)
  {
  }

  lemma DeadAfter(mode: Pruning, s: Tables, t: Server, user: nat, who: Presented)
    requires Inv(s) && Inv(t.tables) && Extends(s, t.tables)
    requires Predates(s, user, who)
    requires CutSince(t.tables, user, s.now) && AllRevoked(s, t.tables, user)
    ensures Authenticate(mode, t, who).1.None?
  {
    match who
    case Key(secret) =>
    case Bearer(claims) =>
      hide CredentialLive, Numbered, TokensBacked, AllRevoked, CutSince, Extends, KeysNarrow, LedgersAgree, Owned;
      match claims.kind
      case Mcp => DeadMcp(s, t.tables, user, claims);
      case Machine => DeadMachine(s, t.tables, user, claims);
      case Browser => DeadBrowser(s, t.tables, user, claims);
  }

  /**
   * Reset is final. Whatever was served before it and whatever is served after
   * it, no browser token minted strictly before the reset, and no API key, MCP
   * token or machine token that existed then, authenticates again.
   */
  lemma {:induction false} ResetIsFinal(mode: Pruning, before: seq<Request>, email: string, password: string, after: seq<Request>, user: nat, who: Presented)
    requires var s := Run(mode, START, before).0;
      Resettable(s.tables, email) == Some(user) && Predates(s.tables, user, who)
    ensures var s := Run(mode, START, before).0;
      Authenticate(mode, Run(mode, Serve(mode, s, Reset(email, password)).0, after).0, who).1.None?
  {
    hide Inv, Extends, Run, CutSince, Predates, ResetPassword, Authenticate;
    EmptyInv();
    RunKeeps(mode, START, before);
    var s := Run(mode, START, before).0;
    var reset := Serve(mode, s, Reset(email, password)).0;
    ServeKeeps(mode, s, Reset(email, password));
    ResetRevokes(s.tables, email, password, user);
    RunKeeps(mode, reset, after);
    RunCut(mode, reset, after, user, s.tables.now);
    var t := Run(mode, reset, after).0;
    ExtendsTrans(s.tables, reset.tables, t.tables);
    StaysRevoked(s.tables, reset.tables, t.tables, user);
    DeadAfter(mode, s.tables, t, user, who);
  }

  lemma StaysRevoked(s: Tables, r: Tables, t: Tables, user: nat)
    requires Extends(r, t)
    requires AllRevoked(s, r, user)
    ensures AllRevoked(s, t, user)
  {
  }

  // ---------------------------------------------------------------- pruning is invisible

  /** The same server with a pruned deny-list and with one that never forgets. */
  ghost predicate Alike(pruned: Server, kept: Server)
  {
    && pruned.tables == kept.tables
    && (forall j :: j in pruned.denied ==> j in kept.denied && pruned.denied[j] == kept.denied[j])
    && (forall j :: j in kept.denied && j !in pruned.denied ==> kept.denied[j] <= Seconds(kept.tables.now))
    && (forall j :: j in kept.denied ==> j < kept.tables.next)
    && (forall c :: c in kept.tables.issued && c.jti in kept.denied ==> kept.denied[c.jti] == c.exp)
  }

  lemma AuthenticateAlike(mode: Pruning, a: Server, b: Server, who: Presented)
    requires Alike(a, b)
    ensures var (a', x) := Authenticate(mode, a, who);
      var (b', y) := Authenticate(KeepAll, b, who);
      x == y && Alike(a', b') && b' == b && a'.tables == a.tables
  {
    hide CredentialLive, AuthenticateApiKey;
  }

  lemma SignOutAlike(mode: Pruning, a: Server, b: Server, claims: Claims)
    requires Alike(a, b) && Inv(b.tables) && Verifies(b.tables, claims)
    ensures Alike(a.(denied := Deny(mode, a.denied, claims, a.tables.now)), b.(denied := Deny(KeepAll, b.denied, claims, b.tables.now)))
  {
    hide KeysNarrow, TokensBacked, LedgersAgree, Owned;
    assert forall j: int :: j * 1000 < a.tables.now ==> j <= Seconds(a.tables.now);
  }

  lemma AlikeLater(a: Server, b: Server, t: Tables)
    requires Alike(a, b) && Extends(b.tables, t)
    ensures Alike(a.(tables := t), b.(tables := t))
  {
    assert Seconds(b.tables.now) <= Seconds(t.now);
  }

  lemma ServeAlike(mode: Pruning, a: Server, b: Server, request: Request)
    requires Alike(a, b) && Inv(b.tables)
    ensures var (a', x) := Serve(mode, a, request);
      var (b', y) := Serve(KeepAll, b, request);
      x == y && Alike(a', b')
  {
    hide Inv, Extends, Open, Act, Alike, Deny, Authenticate, ContextOk;
    AlikeTables(a, b);
    if request.SignOut? {
      if Verifies(b.tables, request.claims) {
        SignOutAlike(mode, a, b, request.claims);
      }
    } else if Caller(request).None? {
      OpenKeeps(b.tables, request);
      AlikeLater(a, b, Open(b.tables, request).0);
    } else {
      var who := Caller(request).value;
      AuthenticateAlike(mode, a, b, who);
      AuthenticatedContext(KeepAll, b, who);
      var (a', ctx) := Authenticate(mode, a, who);
      if ctx.Some? {
        CallerIssued(KeepAll, b, request);
        ActKeeps(b.tables, ctx.value, request);
        AlikeLater(a', b, Act(b.tables, ctx.value, request).0);
      }
    }
  }

  lemma CallerIssued(mode: Pruning, s: Server, request: Request)
    requires Caller(request).Some? && Authenticate(mode, s, Caller(request).value).1.Some?
    ensures request.NewPassword? ==> request.claims in s.tables.issued
  {
  }

  lemma AlikeTables(a: Server, b: Server)
    requires Alike(a, b)
    ensures a.tables == b.tables
  {
  }

  lemma {:induction false} RunAlike(mode: Pruning, requests: seq<Request>)
    ensures var (a, x) := Run(mode, START, requests);
      var (b, y) := Run(KeepAll, START, requests);
      x == y && Alike(a, b)
  {
    hide Serve, Alike, Inv, Extends;
    if |requests| == 0 {
      StartAlike();
    } else {
      var earlier := requests[..|requests| - 1];
      RunAlike(mode, earlier);
      EmptyInv();
      RunKeeps(KeepAll, START, earlier);
      ServeAlike(mode, Run(mode, START, earlier).0, Run(KeepAll, START, earlier).0, requests[|requests| - 1]);
    }
  }

  lemma StartAlike()
    ensures Alike(START, START)
  {
  }

  /** Every answer of every run, and every table, is what a server that never forgets a sign-out gives. */
  lemma {:induction false} PruningIsInvisible(mode: Pruning, requests: seq<Request>)
    ensures Run(mode, START, requests).1 == Run(KeepAll, START, requests).1
    ensures Run(mode, START, requests).0.tables == Run(KeepAll, START, requests).0.tables
  {
    hide Serve;
    RunAlike(mode, requests);
  }

  lemma {:induction false} NeverForgotten(s: Server, requests: seq<Request>, jti: nat)
    requires jti in s.denied
    ensures jti in Run(KeepAll, s, requests).0.denied
  {
    hide Open, Act, CredentialLive;
    if |requests| > 0 {
      NeverForgotten(s, requests[..|requests| - 1], jti);
    }
  }

  lemma {:induction false} RunConcat(mode: Pruning, s: Server, first: seq<Request>, second: seq<Request>)
    ensures Run(mode, s, first + second).0 == Run(mode, Run(mode, s, first).0, second).0
  {
    hide Serve;
    if |second| == 0 {
      assert first + second == first;
    } else {
      var earlier := second[..|second| - 1];
      RunConcat(mode, s, first, earlier);
      assert (first + second)[..|first + second| - 1] == first + earlier;
    }
  }

  /** A signed-out token stays refused for ever, whatever the deny-list has forgotten. */
  lemma {:induction false} SignedOutForEver(mode: Pruning, before: seq<Request>, claims: Claims, after: seq<Request>)
    requires claims.kind.Browser? && Verifies(Run(mode, START, before).0.tables, claims)
    ensures Authenticate(mode, Run(mode, START, before + [SignOut(claims)] + after).0, Bearer(claims)).1.None?
  {
    hide Open, Act, CredentialLive;
    var all := before + [SignOut(claims)] + after;
    PruningIsInvisible(mode, before);
    var kept := Run(KeepAll, START, before).0;
    RunConcat(KeepAll, START, before, [SignOut(claims)]);
    assert [SignOut(claims)][..0] == [];
    assert Run(KeepAll, kept, []).0 == kept;
    var out := Run(KeepAll, START, before + [SignOut(claims)]).0;
    assert out == Serve(KeepAll, kept, SignOut(claims)).0;
    NeverForgotten(out, after, claims.jti);
    RunConcat(KeepAll, START, before + [SignOut(claims)], after);
    RunAlike(mode, all);
    AuthenticateAlike(mode, Run(mode, START, all).0, Run(KeepAll, START, all).0, Bearer(claims));
  }

  // ---------------------------------------------------------------- delegation only narrows

  /** Whether an exchanged token is live is decided by the identity row of its key, and by nothing else. */
  lemma McpLivesAsItsKey(t: Tables, claims: Claims, l: Lookup)
    requires Inv(t) && claims.kind.Mcp? && Exchanged(t, claims, l)
    ensures CredentialLive(t, claims) <==> t.identities[l].revokedAt.None?
  {
    hide KeysNarrow, TokensBacked, LedgersAgree, Owned;
  }

  /** A live key of the same account that holds everything the context holds, and nothing a sign-in does not. */
  ghost predicate LiveKeyAbove(t: Tables, ctx: Context, l: Lookup)
  {
    && l.ApiKey? && Live(t, l) && t.identities[l].tenant == ctx.tenant && t.identities[l].user == ctx.user
    && (forall x :: x in ctx.scopes ==> x in t.identities[l].scopes)
    && (forall x :: x in t.identities[l].scopes ==> x in Scopes.PASSWORD_SCOPES)
  }

  ghost predicate Narrow(t: Tables, ctx: Context)
  {
    && Scopes.WILDCARD !in ctx.scopes
    && (ctx.authType.ByBrowser? ==> ctx.scopes == Scopes.PASSWORD_SCOPES)
    && (ctx.authType.ByMachine? ==> ctx.scopes == Scopes.MACHINE_SCOPES)
    && (ctx.authType.ByApiKey? ==> forall x :: x in ctx.scopes ==> x in Scopes.PASSWORD_SCOPES)
    && (ctx.authType.ByMcp? ==> exists l :: LiveKeyAbove(t, ctx, l))
  }

  lemma ContextNarrows(mode: Pruning, s: Server, who: Presented)
    requires Inv(s.tables)
    ensures Authenticate(mode, s, who).1.Some? ==> Narrow(s.tables, Authenticate(mode, s, who).1.value)
  {
    hide CredentialLive, AuthenticateApiKey, Inv, Narrow, BearerContext;
    match who
    case Key(secret) =>
      KeyNarrows(s.tables, secret);
    case Bearer(claims) =>
      if Authenticate(mode, s, who).1.Some? {
        BearerNarrows(s.tables, claims);
      }
  }

  lemma NoWildcard()
    ensures Scopes.WILDCARD !in Scopes.PASSWORD_SCOPES && Scopes.WILDCARD !in Scopes.MACHINE_SCOPES
  {
  }

  lemma KeyNarrows(t: Tables, secret: Secret)
    requires Inv(t)
    ensures AuthenticateApiKey(t, secret).Some? ==> Narrow(t, AuthenticateApiKey(t, secret).value)
  {
    hide Numbered, LedgersAgree, Owned, TokensBacked;
    NoWildcard();
  }

  lemma BearerNarrows(t: Tables, claims: Claims)
    requires Inv(t) && claims in t.issued && CredentialLive(t, claims)
    ensures Narrow(t, BearerContext(claims))
  {
    hide CredentialLive, Numbered, LedgersAgree, Owned, KeysNarrow;
    NoWildcard();
    assert TokenBacked(t, claims);
    if claims.kind.Mcp? {
      var l :| Exchanged(t, claims, l);
      LiveKeyOf(t, claims, l);
      assert LiveKeyAbove(t, BearerContext(claims), l);
    }
  }

  /** Along sign-in, API key and MCP token the scopes only shrink, and the wildcard is never issued. */
  lemma {:induction false} DelegationNarrows(mode: Pruning, requests: seq<Request>, who: Presented)
    ensures var s := Run(mode, START, requests).0;
      var ctx := Authenticate(mode, s, who).1;
      ctx.Some? ==> Narrow(s.tables, ctx.value)
  {
    hide Inv, Extends, Narrow, Authenticate, Run;
    EmptyInv();
    RunKeeps(mode, START, requests);
    ContextNarrows(mode, Run(mode, START, requests).0, who);
  }

  lemma LiveKeyOf(t: Tables, claims: Claims, l: Lookup)
    requires Inv(t) && claims.kind.Mcp? && Exchanged(t, claims, l) && CredentialLive(t, claims)
    ensures Live(t, l) && forall x :: x in t.identities[l].scopes ==> x in Scopes.PASSWORD_SCOPES
  {
    McpLivesAsItsKey(t, claims, l);
  }

  /** A key never outranks its creator, and the secret handed out authenticates as exactly that key. */
  lemma MadeKeyNarrows(t: Tables, ctx: Context, scopes: seq<string>, tail: nat)
    ensures var (t', secret) := CreateApiKey(t, ctx, scopes, tail);
      secret.Some? ==>
        && Scopes.WILDCARD !in scopes
        && (Scopes.WILDCARD in ctx.scopes || forall x :: x in scopes ==> x in ctx.scopes)
        && AuthenticateApiKey(t', secret.value) == Some(Context(ctx.tenant, ctx.user, scopes, ByApiKey, None, Some(t.next + 1)))
  {
    Scopes.GrantExact(scopes, ctx.scopes);
  }

  /** An exchanged token holds no more than its key and may call exactly the tools its key may. */
  lemma ExchangedTokenCallsSameTools(t: Tables, gates: Scopes.Gates, vocabulary: seq<string>, ctx: Context, tool: string)
    requires Scopes.Vocabulary(gates, vocabulary) && Scopes.WILDCARD !in ctx.scopes
    ensures var claims := Handshake(t, vocabulary, ctx).1;
      claims.Some? ==>
        && ctx.authType.ByApiKey? && claims.value.credentialId == ctx.credentialId
        && (forall x :: x in claims.value.scopes ==> x in ctx.scopes)
        && (Scopes.AssertToolScopes(gates, claims.value.scopes, tool).None? <==> Scopes.AssertToolScopes(gates, ctx.scopes, tool).None?)
  {
    Scopes.ExchangeKeepsTools(gates, vocabulary, ctx.scopes, tool);
    Scopes.ExchangeNarrows(gates, vocabulary, ctx.scopes);
  }

  // ---------------------------------------------------------------- what stays usable

  /** A change of password ends every session but the caller's and those minted from that instant on. */
  lemma ChangeKeepsCallerOnly(t: Tables, ctx: Context, claims: Claims, current: string, password: string, other: Claims)
    requires Inv(t) && claims in t.issued && other in t.issued && other.sub == ctx.user
    ensures var (t', ok) := ChangePassword(t, ctx, claims, current, password);
      ok ==>
        && ctx.user in t'.users
        && (SurvivesCutoff(other, t'.users[ctx.user]) <==> other == claims || other.iat >= t.now)
        && Login(t', t.users[ctx.user].email, password).1.Some?
  {
    hide KeysNarrow, TokensBacked, LedgersAgree;
  }

  /** Looking a password identity up by account finds the one under the account's address, and no other. */
  lemma OnePasswordIdentity(t: Tables, user: nat, l: Lookup)
    requires Inv(t) && l in t.identities && l.Password? && t.identities[l].user == user
    ensures user in t.users && l == Password(t.users[user].email)
  {
    hide Numbered, KeysNarrow, TokensBacked, LedgersAgree;
  }

  /** A session signed in with the right password works at once, even in the instant of a cut, and expires in an hour. */
  lemma SignInWorks(t: Tables, email: string, password: string)
    requires Inv(t)
    ensures var (t', claims) := Login(t, email, password);
      claims.Some? ==>
        && Verifies(t', claims.value) && CredentialLive(t', claims.value)
        && (forall later :: Verifies(t'.(now := later), claims.value) <==> later / 1000 < t.now / 1000 + 3600)
  {
    hide KeysNarrow, TokensBacked, LedgersAgree;
    var (t', claims) := Login(t, email, password);
    if claims.Some? {
      assert Password(email) in t'.identities;
    }
  }

  /** A machine token works for its machine until it expires, is revoked or the machine is retired. */
  lemma MachineTokenWorks(t: Tables, ctx: Context, machineId: nat)
    requires Inv(t)
    ensures var (t', claims) := IssueMachineToken(t, ctx, machineId);
      && (claims.Some? <==> (ctx.tenant, machineId) in t.machines)
      && (claims.Some? ==>
        && Verifies(t', claims.value) && CredentialLive(t', claims.value)
        && claims.value.scopes == ["ingest:write", "machine:heartbeat", "materialize:read"]
        && (forall later :: Verifies(t'.(now := later), claims.value) && MachineTokenLive(t'.(now := later), claims.value)
              <==> later / 1000 < t.now / 1000 + 3600)
        && !CredentialLive(RevokeMachineTokens(t', ctx.tenant, machineId).0, claims.value))
  {
    hide Inv;
  }

  /** Dropping a key ends it and every token exchanged for it, and no other credential. */
  lemma DroppedKeyIsDead(t: Tables, ctx: Context, keyId: nat, other: Lookup)
    requires Inv(t) && RevokeApiKey(t, ctx, keyId).1 && other in t.identities
    ensures var t' := RevokeApiKey(t, ctx, keyId).0;
      Live(t', other) <==> Live(t, other) && other != ApiKey(t.apiKeys[keyId].prefix)
  {
    hide Numbered, KeysNarrow, TokensBacked, TokenLedger, Owned;
    assert KeyRowAgrees(t, keyId);
  }

  /** The number `revokeMachineTokens` reports is the number of tokens it ended. */
  lemma RevokedTokensCounted(t: Tables, tenant: nat, machineId: nat, other: Lookup)
    requires other in t.identities
    ensures var (t', revoked) := RevokeMachineTokens(t, tenant, machineId);
      var ended := set l | l in t.identities && Live(t, l) && !Live(t', l);
      && revoked == |ended|
      && (other in ended <==> Live(t, other) && other.MachineToken? && t.identities[other].tenant == tenant && t.identities[other].machineId == Some(machineId))
  {
    var (t', revoked) := RevokeMachineTokens(t, tenant, machineId);
    var which := set l | l in t.identities && l.MachineToken? && t.identities[l].tenant == tenant
                         && t.identities[l].machineId == Some(machineId) && t.identities[l].revokedAt.None?;
    var ended := set l | l in t.identities && Live(t, l) && !Live(t', l);
    assert which == ended;
  }
}
