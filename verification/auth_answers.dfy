/** Which requests are granted, in the caller's own terms: what a presented credential is admitted as, and what it may do. */
module AuthAnswers {
  import opened Wrappers
  import opened AuthTables
  import opened AuthInvariant
  import opened AuthRun
  import Scopes

  /** The caller is let in, as `ctx`. */
  ghost predicate LetInAs(mode: Pruning, s: Server, who: Presented, ctx: Context)
  {
    Serve(mode, s, Present(who)).1 == Admitted(ctx)
  }

  /** A browser or an API key that holds the scope, or the wildcard. */
  predicate MayUse(ctx: Context, scope: string)
  {
    && (scope in ctx.scopes || "*" in ctx.scopes)
    && (ctx.authType == ByBrowser || ctx.authType == ByApiKey)
  }

  /** Nobody is let in as two, and only who is let in gets past a refusal. */
  lemma LetIn(mode: Pruning, s: Server, request: Request)
    requires Caller(request).Some? && !request.SignOut?
    ensures var who := Caller(request).value;
      var (s', ctx) := Authenticate(mode, s, who);
      && s'.tables == s.tables
      && (forall c :: LetInAs(mode, s, who, c) <==> ctx == Some(c))
      && (if ctx.Some? then
            && Serve(mode, s, request).0.tables == Act(s.tables, ctx.value, request).0
            && Serve(mode, s, request).1 == Act(s.tables, ctx.value, request).1
          else Serve(mode, s, request) == (s', Refused))
  {
    hide CredentialLive, AuthenticateApiKey;
  }

  /** Scopes there are, and that the context holds. */
  predicate MayGrant(ctx: Context, scopes: seq<string>)
  {
    forall x :: x in scopes ==> x in Scopes.KNOWN_SCOPES && (x in ctx.scopes || "*" in ctx.scopes)
  }

  lemma FreshKey(t: Tables)
    requires Inv(t)
    ensures t.next !in t.apiKeys
  {
  }

  lemma GrantsExact(ctx: Context, scopes: seq<string>)
    ensures Scopes.AssertGrantable(scopes, ctx.scopes).Granted? <==> MayGrant(ctx, scopes)
  {
    hide Scopes.AssertGrantable;
    Scopes.GrantExact(scopes, ctx.scopes);
  }

  lemma NewKeyFiled(t: Tables, ctx: Context, scopes: seq<string>, tail: nat)
    requires t.next !in t.apiKeys
    ensures KeyFiled(t, AddKey(t, ctx, scopes, tail), ctx, scopes, Secret(t.next + 2, tail))
  {
    assert t.next in AddKey(t, ctx, scopes, tail).apiKeys;
  }

  /** A key is made exactly for scopes that exist and that the caller holds, and the two ledgers say whose it is. */
  lemma MakeKeyExact(mode: Pruning, s: Server, who: Presented, scopes: seq<string>, tail: nat)
    requires Inv(s.tables)
    ensures var (s', answer) := Serve(mode, s, MakeKey(who, scopes, tail));
      && (answer.KeyMade? <==> exists ctx :: LetInAs(mode, s, who, ctx) && MayUse(ctx, "keys:write") && MayGrant(ctx, scopes))
      && (!answer.KeyMade? ==> answer == Refused && s'.tables == s.tables)
      && (answer.KeyMade? ==>
            && answer.secret.tail == tail
            && forall ctx :: LetInAs(mode, s, who, ctx) ==> KeyFiled(s.tables, s'.tables, ctx, scopes, answer.secret))
  {
    LetIn(mode, s, MakeKey(who, scopes, tail));
    var ctx := Authenticate(mode, s, who).1;
    hide Serve, Authenticate;
    if ctx.Some? {
      assert LetInAs(mode, s, who, ctx.value);
      hide LetInAs, Inv, AddKey, KeyFiled, MayGrant, Scopes.AssertGrantable;
      FreshKey(s.tables);
      NewKeyFiled(s.tables, ctx.value, scopes, tail);
      GrantsExact(ctx.value, scopes);
    }
  }

  /** One new key: live in the sign-in ledger and listed for its owner, with the scopes asked for. */
  predicate KeyFiled(t: Tables, t': Tables, ctx: Context, scopes: seq<string>, secret: Secret)
  {
    && ApiKey(secret.prefix) in t'.identities
    && var row := t'.identities[ApiKey(secret.prefix)];
       && row.tenant == ctx.tenant && row.user == ctx.user && row.scopes == scopes && row.secretHash == OfKey(secret) && row.revokedAt == None
       && exists k :: k in t'.apiKeys && k !in t.apiKeys && t'.apiKeys[k] == ApiKeyRow(ctx.tenant, ctx.user, secret.prefix, OfKey(secret), scopes, None)
  }

  predicate Lists(t: Tables, keyId: nat, ctx: Context)
  {
    keyId in t.apiKeys && t.apiKeys[keyId].tenant == ctx.tenant
  }

  /** A key is dropped exactly when it is listed for the caller's tenant, and is then revoked in both ledgers. */
  lemma DropKeyExact(mode: Pruning, s: Server, who: Presented, keyId: nat)
    requires Inv(s.tables)
    ensures var (s', answer) := Serve(mode, s, DropKey(who, keyId));
      && (answer.Done? <==> exists ctx :: LetInAs(mode, s, who, ctx) && MayUse(ctx, "keys:write") && Lists(s.tables, keyId, ctx))
      && (answer.Done? ==>
            && keyId in s'.tables.apiKeys && s'.tables.apiKeys[keyId].revokedAt.Some?
            && !Live(s'.tables, ApiKey(s.tables.apiKeys[keyId].prefix)))
  {
    LetIn(mode, s, DropKey(who, keyId));
    var ctx := Authenticate(mode, s, who).1;
    hide Serve, Authenticate;
    if ctx.Some? {
      assert LetInAs(mode, s, who, ctx.value);
      hide LetInAs, Numbered, Owned, KeysNarrow, TokensBacked;
      if keyId in s.tables.apiKeys {
        assert KeyRowAgrees(s.tables, keyId);
      }
    }
  }

  /** A key is exchanged exactly when it is a key, and holds `mcp:use` or the wildcard. */
  lemma ExchangeExact(mode: Pruning, s: Server, who: Presented, vocabulary: seq<string>)
    ensures var answer := Serve(mode, s, Exchange(who, vocabulary)).1;
      && (answer.Token? <==> exists ctx :: LetInAs(mode, s, who, ctx) && ctx.authType == ByApiKey && ("mcp:use" in ctx.scopes || "*" in ctx.scopes))
      && (answer.Token? ==> forall ctx :: LetInAs(mode, s, who, ctx) ==>
            && answer.claims.kind == Mcp && answer.claims.sub == ctx.user && answer.claims.tenant == ctx.tenant
            && answer.claims.credentialId == ctx.credentialId)
  {
    LetIn(mode, s, Exchange(who, vocabulary));
    var ctx := Authenticate(mode, s, who).1;
    hide Serve, Authenticate, Scopes.McpTokenScopes;
    if ctx.Some? {
      assert LetInAs(mode, s, who, ctx.value);
      hide LetInAs;
    }
  }

  /** A machine is enrolled exactly for who may write machines, in the caller's tenant, under a new id. */
  lemma EnrolExact(mode: Pruning, s: Server, who: Presented)
    ensures var (s', answer) := Serve(mode, s, Enrol(who));
      && (answer.Done? <==> exists ctx :: LetInAs(mode, s, who, ctx) && MayUse(ctx, "machines:write"))
      && (answer.Done? ==> forall ctx :: LetInAs(mode, s, who, ctx) ==> s'.tables.machines == s.tables.machines + {(ctx.tenant, s.tables.next)})
  {
    LetIn(mode, s, Enrol(who));
    var ctx := Authenticate(mode, s, who).1;
    hide Serve, Authenticate;
    if ctx.Some? {
      assert LetInAs(mode, s, who, ctx.value);
      hide LetInAs;
    }
  }

  ghost predicate OnMachine(mode: Pruning, s: Server, who: Presented, machineId: nat, ctx: Context)
  {
    LetInAs(mode, s, who, ctx) && MayUse(ctx, "machines:write") && (ctx.tenant, machineId) in s.tables.machines
  }

  lemma MintExact(mode: Pruning, s: Server, who: Presented, machineId: nat)
    ensures Serve(mode, s, MintMachineToken(who, machineId)).1.Token? <==> exists ctx :: OnMachine(mode, s, who, machineId, ctx)
  {
    LetIn(mode, s, MintMachineToken(who, machineId));
    var ctx := Authenticate(mode, s, who).1;
    hide Serve, Authenticate, AddMachineToken;
    if ctx.Some? {
      assert LetInAs(mode, s, who, ctx.value);
      hide LetInAs;
      assert MayUse(ctx.value, "machines:write") && (ctx.value.tenant, machineId) in s.tables.machines
        ==> OnMachine(mode, s, who, machineId, ctx.value);
    }
  }

  lemma DropTokensExact(mode: Pruning, s: Server, who: Presented, machineId: nat)
    ensures Serve(mode, s, DropMachineTokens(who, machineId)).1.Done? <==> exists ctx :: OnMachine(mode, s, who, machineId, ctx)
  {
    LetIn(mode, s, DropMachineTokens(who, machineId));
    var ctx := Authenticate(mode, s, who).1;
    hide Serve, Authenticate, RevokeMachineTokens;
    if ctx.Some? {
      assert LetInAs(mode, s, who, ctx.value);
      hide LetInAs;
      assert MayUse(ctx.value, "machines:write") && (ctx.value.tenant, machineId) in s.tables.machines
        ==> OnMachine(mode, s, who, machineId, ctx.value);
    }
  }

  lemma RetireExact(mode: Pruning, s: Server, who: Presented, machineId: nat)
    ensures Serve(mode, s, Retire(who, machineId)).1.Done? <==> exists ctx :: OnMachine(mode, s, who, machineId, ctx)
    ensures var t := Serve(mode, s, Retire(who, machineId)).0.tables;
      forall ctx :: OnMachine(mode, s, who, machineId, ctx) ==> t.machines == s.tables.machines - {(ctx.tenant, machineId)}
  {
    LetIn(mode, s, Retire(who, machineId));
    var ctx := Authenticate(mode, s, who).1;
    hide Serve, Authenticate, RevokeIdentities, RevokeTokenRows;
    if ctx.Some? {
      assert LetInAs(mode, s, who, ctx.value);
      hide LetInAs;
      assert MayUse(ctx.value, "machines:write") && (ctx.value.tenant, machineId) in s.tables.machines
        ==> OnMachine(mode, s, who, machineId, ctx.value);
    }
  }

  /** Tokens are minted, dropped and retired exactly for an enrolled machine of the tenant of one who may write machines. */
  lemma MachineExact(mode: Pruning, s: Server, who: Presented, machineId: nat)
    ensures Serve(mode, s, MintMachineToken(who, machineId)).1.Token? <==> exists ctx :: OnMachine(mode, s, who, machineId, ctx)
    ensures Serve(mode, s, DropMachineTokens(who, machineId)).1.Done? <==> exists ctx :: OnMachine(mode, s, who, machineId, ctx)
    ensures Serve(mode, s, Retire(who, machineId)).1.Done? <==> exists ctx :: OnMachine(mode, s, who, machineId, ctx)
    ensures var t := Serve(mode, s, Retire(who, machineId)).0.tables;
      forall ctx :: OnMachine(mode, s, who, machineId, ctx) ==> t.machines == s.tables.machines - {(ctx.tenant, machineId)}
  {
    MintExact(mode, s, who, machineId);
    DropTokensExact(mode, s, who, machineId);
    RetireExact(mode, s, who, machineId);
    hide *;
  }
}
