/** What every operation on the credential tables keeps. */
module AuthInvariant {
  import opened Wrappers
  import opened AuthTables
  import Scopes

  /** Ids, jtis and prefixes are fresh when handed out, and never shared. */
  ghost predicate Numbered(t: Tables)
  {
    && (forall u :: u in t.users ==> u < t.next && (t.users[u].keptJti.Some? ==> t.users[u].keptJti.value < t.next))
    && (forall u :: u in t.users && t.users[u].notBefore.Some? ==> t.users[u].notBefore.value <= t.now)
    && (forall k :: k in t.apiKeys ==> k < t.next)
    && (forall l :: l in t.identities ==> t.identities[l].id < t.next)
    && (forall l :: l in t.identities && l.ApiKey? ==> l.prefix < t.next)
    && (forall l :: l in t.identities && l.MachineToken? ==> l.token in t.issued)
    && (forall l, m :: l in t.identities && m in t.identities && t.identities[l].id == t.identities[m].id ==> l == m)
    && (forall c :: c in t.issued ==> c.jti < t.next && c.iat <= t.now)
    && (forall c, d :: c in t.issued && d in t.issued && c.jti == d.jti ==> c == d)
  }

  ghost predicate Owned(t: Tables)
  {
    && (forall l :: l in t.identities ==> t.identities[l].user in t.users)
    && (forall l :: l in t.identities && l.Password? ==> t.users[t.identities[l].user].email == l.email)
    && (forall l :: l in t.identities && l.OAuth? ==> t.users[t.identities[l].user].email == l.email)
    && (forall l :: l in t.identities && (l.Password? || l.OAuth?) ==> t.identities[l].revokedAt.None?)
  }

  /** No API key outranks a sign-in. */
  ghost predicate KeysNarrow(t: Tables)
  {
    forall l :: l in t.identities && l.ApiKey? ==> forall s :: s in t.identities[l].scopes ==> s in Scopes.PASSWORD_SCOPES
  }

  /** The key an MCP token was exchanged for, at least as wide as the token. */
  ghost predicate Exchanged(t: Tables, c: Claims, l: Lookup)
  {
    && l in t.identities && l.ApiKey? && c.credentialId == Some(t.identities[l].id)
    && t.identities[l].tenant == c.tenant && t.identities[l].user == c.sub
    && forall s :: s in c.scopes ==> s in t.identities[l].scopes
  }

  ghost predicate TokenBacked(t: Tables, c: Claims)
  {
    match c.kind
    case Browser => c.scopes == Scopes.PASSWORD_SCOPES
    case Mcp => exists l :: Exchanged(t, c, l)
    case Machine =>
      var l := MachineToken(c);
      && c.scopes == Scopes.MACHINE_SCOPES
      && l in t.identities && t.identities[l].tenant == c.tenant && t.identities[l].user == c.sub && t.identities[l].machineId == c.machineId
  }

  ghost predicate TokensBacked(t: Tables)
  {
    forall c :: c in t.issued ==> TokenBacked(t, c)
  }

  ghost predicate KeyRowAgrees(t: Tables, k: nat)
    requires k in t.apiKeys
  {
    var row := t.apiKeys[k];
    var l := ApiKey(row.prefix);
    && l in t.identities
    && t.identities[l].tenant == row.tenant && t.identities[l].user == row.user
    && t.identities[l].secretHash == row.secretHash && t.identities[l].scopes == row.scopes
    && t.identities[l].revokedAt == row.revokedAt
  }

  ghost predicate TokenRowAgrees(t: Tables, c: Claims)
    requires c in t.machineTokens
  {
    var row := t.machineTokens[c];
    var l := MachineToken(c);
    && l in t.identities
    && t.identities[l].tenant == row.tenant && t.identities[l].machineId == Some(row.machineId)
    && t.identities[l].expiresAt == Some(row.expiresAt)
    && t.identities[l].revokedAt == row.revokedAt
  }

  predicate PrefixesApart(rows: map<nat, ApiKeyRow>)
  {
    forall k, m :: k in rows && m in rows && rows[k].prefix == rows[m].prefix ==> k == m
  }

  predicate Listed(rows: map<nat, ApiKeyRow>, prefix: nat)
  {
    exists k :: k in rows && rows[k].prefix == prefix
  }

  ghost predicate KeyLedger(t: Tables)
  {
    && (forall k :: k in t.apiKeys ==> KeyRowAgrees(t, k))
    && PrefixesApart(t.apiKeys)
    && (forall l :: l in t.identities && l.ApiKey? ==> Listed(t.apiKeys, l.prefix))
  }

  ghost predicate TokenLedger(t: Tables)
  {
    && (forall c :: c in t.machineTokens ==> TokenRowAgrees(t, c))
    && (forall l :: l in t.identities && l.MachineToken? ==> l.token in t.machineTokens)
  }

  /** Two ledgers, one truth: the rows match one to one and agree on who is revoked, and when. */
  ghost predicate LedgersAgree(t: Tables)
  {
    KeyLedger(t) && TokenLedger(t)
  }

  ghost predicate Inv(t: Tables)
  {
    Numbered(t) && Owned(t) && KeysNarrow(t) && TokensBacked(t) && LedgersAgree(t)
  }

  const EMPTY := Tables(0, 0, map[], map[], map[], map[], {}, {})

  lemma EmptyInv()
    ensures Inv(EMPTY)
  {
  }

  /** What a later state keeps of an earlier one: nothing is forgotten, nothing is revived. */
  ghost predicate Extends(s: Tables, t: Tables)
  {
    && s.now <= t.now && s.next <= t.next && s.issued <= t.issued
    && (forall c :: c in t.issued && c !in s.issued ==> c.jti >= s.next && c.iat >= s.now)
    && (forall u :: u in s.users ==> u in t.users)
    && (forall l :: l in s.identities ==> l in t.identities && SameIdentity(s.identities[l], t.identities[l]))
    && (forall l :: l in t.identities && l !in s.identities ==> t.identities[l].id >= s.next)
  }

  predicate SameIdentity(a: Identity, b: Identity)
  {
    && a.id == b.id && a.tenant == b.tenant && a.user == b.user && a.scopes == b.scopes && a.machineId == b.machineId
    && (a.revokedAt.Some? ==> b.revokedAt.Some?)
  }

  lemma ExtendsTrans(a: Tables, b: Tables, c: Tables)
    requires Extends(a, b) && Extends(b, c)
    ensures Extends(a, c)
  {
  }

  // ---------------------------------------------------------------- frames

  /** Tokens stay backed while identities stay. */
  lemma BackedPersists(s: Tables, t: Tables, c: Claims)
    requires forall l :: l in s.identities ==> l in t.identities && SameIdentity(s.identities[l], t.identities[l])
    requires TokenBacked(s, c)
    ensures TokenBacked(t, c)
  {
    if c.kind.Mcp? {
      var l :| Exchanged(s, c, l);
      assert Exchanged(t, c, l);
    }
  }

  lemma AllBackedPersist(s: Tables, t: Tables)
    requires forall l :: l in s.identities ==> l in t.identities && SameIdentity(s.identities[l], t.identities[l])
    requires TokensBacked(s)
    requires forall c :: c in t.issued && c !in s.issued ==> TokenBacked(t, c)
    ensures TokensBacked(t)
  {
    hide TokenBacked, SameIdentity;
    forall c | c in t.issued ensures TokenBacked(t, c) {
      if c in s.issued {
        BackedPersists(s, t, c);
      }
    }
  }

  lemma KeyLedgerFrame(s: Tables, t: Tables)
    requires KeyLedger(s) && s.apiKeys == t.apiKeys
    requires forall l: Lookup :: l.ApiKey? ==> (l in s.identities <==> l in t.identities)
    requires forall l: Lookup :: l.ApiKey? && l in s.identities ==> t.identities[l] == s.identities[l]
    ensures KeyLedger(t)
  {
    forall k | k in t.apiKeys ensures KeyRowAgrees(t, k) { assert KeyRowAgrees(s, k); }
  }

  lemma TokenLedgerFrame(s: Tables, t: Tables)
    requires TokenLedger(s) && s.machineTokens == t.machineTokens
    requires forall l: Lookup :: l.MachineToken? ==> (l in s.identities <==> l in t.identities)
    requires forall l: Lookup :: l.MachineToken? && l in s.identities ==> t.identities[l] == s.identities[l]
    ensures TokenLedger(t)
  {
    forall c | c in t.machineTokens ensures TokenRowAgrees(t, c) { assert TokenRowAgrees(s, c); }
  }

  /** Neither ledger nor any key or token identity changed. */
  lemma LedgersFrame(s: Tables, t: Tables)
    requires LedgersAgree(s) && s.apiKeys == t.apiKeys && s.machineTokens == t.machineTokens
    requires forall l: Lookup :: l.ApiKey? || l.MachineToken? ==> (l in s.identities <==> l in t.identities)
    requires forall l: Lookup :: (l.ApiKey? || l.MachineToken?) && l in s.identities ==> t.identities[l] == s.identities[l]
    ensures LedgersAgree(t)
  {
    hide KeyLedger, TokenLedger;
    KeyLedgerFrame(s, t);
    TokenLedgerFrame(s, t);
  }

  lemma KeysFrame(s: Tables, t: Tables)
    requires KeysNarrow(s)
    requires forall l: Lookup :: l.ApiKey? && l in t.identities ==> l in s.identities && t.identities[l].scopes == s.identities[l].scopes
    ensures KeysNarrow(t)
  {
  }

  // ---------------------------------------------------------------- issuing

  lemma SignNumbered(t: Tables, claims: Claims)
    requires Numbered(t) && claims.jti == t.next && claims.iat == t.now
    ensures Numbered(Sign(t, claims))
  {
  }

  lemma SignKeeps(t: Tables, claims: Claims)
    requires Inv(t) && claims.jti == t.next && claims.iat == t.now && !claims.kind.Machine? && TokenBacked(t, claims)
    ensures Inv(Sign(t, claims)) && Extends(t, Sign(t, claims))
  {
    hide Numbered, KeysNarrow, TokensBacked, LedgersAgree, TokenBacked;
    var t' := Sign(t, claims);
    SignNumbered(t, claims);
    LedgersFrame(t, t');
    KeysFrame(t, t');
    BackedPersists(t, t', claims);
    AllBackedPersist(t, t');
  }

  function WithAccount(t: Tables, l: Lookup, user: nat, tenant: nat, email: string, hash: Hash, passwordHash: Option<Hash>): Tables
  {
    t.(next := t.next + 3,
       users := if user in t.users then t.users else t.users[user := User(email, passwordHash, None, None)],
       identities := t.identities[l := Identity(t.next + 2, tenant, user, hash, Scopes.PASSWORD_SCOPES, None, None, None)])
  }

  lemma AccountNumbered(t: Tables, l: Lookup, user: nat, tenant: nat, email: string, hash: Hash, passwordHash: Option<Hash>)
    requires Numbered(t) && (l.Password? || l.OAuth?) && l !in t.identities
    requires user == t.next || user in t.users
    ensures Numbered(WithAccount(t, l, user, tenant, email, hash, passwordHash))
  {
  }

  lemma AccountOwned(t: Tables, l: Lookup, user: nat, tenant: nat, email: string, hash: Hash, passwordHash: Option<Hash>)
    requires Owned(t) && (l == Password(email) || l == OAuth(email)) && l !in t.identities
    requires user !in t.users || t.users[user].email == email
    ensures Owned(WithAccount(t, l, user, tenant, email, hash, passwordHash))
  {
  }

  lemma NewAccountKeeps(t: Tables, l: Lookup, user: nat, tenant: nat, email: string, hash: Hash, passwordHash: Option<Hash>)
    requires Inv(t) && (l == Password(email) || l == OAuth(email)) && l !in t.identities
    requires user == t.next || (user in t.users && t.users[user].email == email)
    ensures var t' := WithAccount(t, l, user, tenant, email, hash, passwordHash);
      Inv(t') && Extends(t, t')
  {
    hide Numbered, Owned, KeysNarrow, TokensBacked, LedgersAgree, TokenBacked, Extends, WithAccount;
    var t' := WithAccount(t, l, user, tenant, email, hash, passwordHash);
    FreshUser(t);
    AccountNumbered(t, l, user, tenant, email, hash, passwordHash);
    AccountOwned(t, l, user, tenant, email, hash, passwordHash);
    AccountExtends(t, l, user, tenant, email, hash, passwordHash);
    AllBackedPersist(t, t');
    LedgersFrame(t, t');
    KeysFrame(t, t');
  }

  lemma AccountExtends(t: Tables, l: Lookup, user: nat, tenant: nat, email: string, hash: Hash, passwordHash: Option<Hash>)
    requires (l.Password? || l.OAuth?) && l !in t.identities
    ensures var t' := WithAccount(t, l, user, tenant, email, hash, passwordHash);
      && Extends(t, t') && t'.issued == t.issued && t'.apiKeys == t.apiKeys && t'.machineTokens == t.machineTokens
      && t'.next == t.next + 3 && t'.now == t.now
      && (forall m :: m in t.identities ==> m in t'.identities && SameIdentity(t.identities[m], t'.identities[m]))
      && (forall m: Lookup :: m.ApiKey? || m.MachineToken? ==> (m in t.identities <==> m in t'.identities))
      && (forall m: Lookup :: (m.ApiKey? || m.MachineToken?) && m in t.identities ==> t'.identities[m] == t.identities[m])
  {
  }

  lemma RegisterKeeps(t: Tables, email: string, password: string)
    requires Inv(t)
    ensures var t' := Register(t, email, password).0; Inv(t') && Extends(t, t')
  {
    hide Inv, Extends;
    if Register(t, email, password).1.Some? {
      var t1 := WithAccount(t, Password(email), t.next, t.next + 1, email, OfPassword(password), Some(OfPassword(password)));
      FreshUser(t);
      NewAccountKeeps(t, Password(email), t.next, t.next + 1, email, OfPassword(password), Some(OfPassword(password)));
      var claims := NewToken(t1, t.next, t.next + 1, Scopes.PASSWORD_SCOPES, Browser, None, None);
      SignKeeps(t1, claims);
      ExtendsTrans(t, t1, Sign(t1, claims));
    } else {
      ExtendsSelf(t);
    }
  }

  lemma FreshUser(t: Tables)
    requires Inv(t)
    ensures t.next !in t.users
  {
  }

  lemma ExtendsSelf(t: Tables)
    ensures Extends(t, t)
  {
  }

  lemma LoginKeeps(t: Tables, email: string, password: string)
    requires Inv(t)
    ensures var t' := Login(t, email, password).0; Inv(t') && Extends(t, t')
  {
    hide Inv, Extends;
    ExtendsSelf(t);
    var (_, claims) := Login(t, email, password);
    if claims.Some? {
      SignKeeps(t, claims.value);
    }
  }

  lemma OAuthKeeps(t: Tables, email: string, open: bool)
    requires Inv(t)
    ensures var t' := OAuthSignIn(t, email, open).0; Inv(t') && Extends(t, t')
  {
    hide Inv, Extends, UserFor;
    ExtendsSelf(t);
    var (t', claims) := OAuthSignIn(t, email, open);
    if Live(t, OAuth(email)) || Live(t, Password(email)) {
      SignKeeps(t, claims.value);
    } else if claims.Some? {
      var user := UserFor(t, email);
      assert user == t.next || (user in t.users && t.users[user].email == email) by { UserForOk(t, email); }
      var t1 := WithAccount(t, OAuth(email), user, t.next + 1, email, Unusable, None);
      NewAccountKeeps(t, OAuth(email), user, t.next + 1, email, Unusable, None);
      SignKeeps(t1, claims.value);
      ExtendsTrans(t, t1, t');
    }
  }

  lemma UserForOk(t: Tables, email: string)
    ensures var user := UserFor(t, email); user == t.next || (user in t.users && t.users[user].email == email)
  {
  }

  // ---------------------------------------------------------------- revoking

  function Revoked(t: Tables, which: set<Lookup>, keys: set<nat>, tokens: set<Claims>): Tables
  {
    t.(identities := RevokeIdentities(t.identities, which, t.now),
       apiKeys := RevokeKeyRows(t.apiKeys, keys, t.now),
       machineTokens := RevokeTokenRows(t.machineTokens, tokens, t.now))
  }

  /** The rows picked in each ledger are the ones of the identities picked. */
  ghost predicate Matching(t: Tables, which: set<Lookup>, keys: set<nat>, tokens: set<Claims>)
  {
    && (forall l :: l in which ==> l in t.identities && (l.ApiKey? || l.MachineToken?))
    && (forall k :: k in t.apiKeys ==> (k in keys <==> ApiKey(t.apiKeys[k].prefix) in which))
    && (forall c :: c in t.machineTokens ==> (c in tokens <==> MachineToken(c) in which))
  }

  lemma RevokedKeyLedger(t: Tables, which: set<Lookup>, keys: set<nat>, tokens: set<Claims>)
    requires KeyLedger(t) && Matching(t, which, keys, tokens)
    ensures KeyLedger(Revoked(t, which, keys, tokens))
  {
    var t' := Revoked(t, which, keys, tokens);
    forall k | k in t'.apiKeys ensures KeyRowAgrees(t', k) {
      RevokedKeyRow(t, which, keys, tokens, k);
    }
    RevokedPrefixes(t.apiKeys, keys, t.now);
  }

  /** A revocation leaves the prefixes alone. */
  lemma RevokedPrefixes(rows: map<nat, ApiKeyRow>, which: set<nat>, at: int)
    requires PrefixesApart(rows)
    ensures PrefixesApart(RevokeKeyRows(rows, which, at))
    ensures forall prefix :: Listed(rows, prefix) ==> Listed(RevokeKeyRows(rows, which, at), prefix)
  {
    forall prefix | Listed(rows, prefix) ensures Listed(RevokeKeyRows(rows, which, at), prefix) {
      var k :| k in rows && rows[k].prefix == prefix;
      assert k in RevokeKeyRows(rows, which, at);
    }
  }

  lemma RevokedKeyRow(t: Tables, which: set<Lookup>, keys: set<nat>, tokens: set<Claims>, k: nat)
    requires Matching(t, which, keys, tokens) && k in t.apiKeys && KeyRowAgrees(t, k)
    ensures k in Revoked(t, which, keys, tokens).apiKeys && KeyRowAgrees(Revoked(t, which, keys, tokens), k)
  {
  }

  lemma RevokedTokenLedger(t: Tables, which: set<Lookup>, keys: set<nat>, tokens: set<Claims>)
    requires TokenLedger(t) && Matching(t, which, keys, tokens)
    ensures TokenLedger(Revoked(t, which, keys, tokens))
  {
    var t' := Revoked(t, which, keys, tokens);
    forall c | c in t'.machineTokens ensures TokenRowAgrees(t', c) { assert TokenRowAgrees(t, c); }
  }

  lemma RevokedNumbered(t: Tables, which: set<Lookup>, keys: set<nat>, tokens: set<Claims>)
    requires Numbered(t)
    ensures Numbered(Revoked(t, which, keys, tokens))
  {
  }

  lemma RevokedOwned(t: Tables, which: set<Lookup>, keys: set<nat>, tokens: set<Claims>)
    requires Owned(t) && Matching(t, which, keys, tokens)
    ensures Owned(Revoked(t, which, keys, tokens))
  {
  }

  lemma RevokedExtends(t: Tables, which: set<Lookup>, keys: set<nat>, tokens: set<Claims>)
    ensures var t' := Revoked(t, which, keys, tokens);
      && Extends(t, t') && t'.issued == t.issued
      && (forall l :: l in t.identities <==> l in t'.identities)
      && (forall l :: l in t.identities ==> SameIdentity(t.identities[l], t'.identities[l]))
      && (forall l :: l in t.identities && l in which ==> t'.identities[l].revokedAt == Some(t.now))
      && (forall l :: l in t.identities && l !in which ==> t'.identities[l] == t.identities[l])
  {
  }

  lemma RevokeKeeps(t: Tables, which: set<Lookup>, keys: set<nat>, tokens: set<Claims>)
    requires Inv(t) && Matching(t, which, keys, tokens)
    ensures var t' := Revoked(t, which, keys, tokens); Inv(t') && Extends(t, t')
  {
    hide Numbered, Owned, KeysNarrow, TokensBacked, KeyLedger, TokenLedger, TokenBacked, Extends, Revoked;
    RevokedExtends(t, which, keys, tokens);
    RevokedNumbered(t, which, keys, tokens);
    RevokedOwned(t, which, keys, tokens);
    RevokedKeyLedger(t, which, keys, tokens);
    RevokedTokenLedger(t, which, keys, tokens);
    AllBackedPersist(t, Revoked(t, which, keys, tokens));
    KeysFrame(t, Revoked(t, which, keys, tokens));
  }

  lemma RevokeApiKeyKeeps(t: Tables, ctx: Context, keyId: nat)
    requires Inv(t)
    ensures var t' := RevokeApiKey(t, ctx, keyId).0; Inv(t') && Extends(t, t')
  {
    ExtendsSelf(t);
    if RevokeApiKey(t, ctx, keyId).1 {
      OneKeyMatches(t, keyId);
      DroppedIsRevoked(t, ctx, keyId);
      hide *;
      RevokeKeeps(t, {ApiKey(t.apiKeys[keyId].prefix)}, {keyId}, {});
    }
  }

  /** A key and its identity are the one pair a revocation by id and by prefix can mean. */
  lemma OneKeyMatches(t: Tables, keyId: nat)
    requires Inv(t) && keyId in t.apiKeys
    ensures var l := ApiKey(t.apiKeys[keyId].prefix);
      && Matching(t, {l}, {keyId}, {})
      && l in t.identities && t.identities[l].tenant == t.apiKeys[keyId].tenant
  {
    hide Numbered, Owned, KeysNarrow, TokensBacked;
    assert KeyRowAgrees(t, keyId);
  }

  lemma DroppedIsRevoked(t: Tables, ctx: Context, keyId: nat)
    requires RevokeApiKey(t, ctx, keyId).1
    requires var l := ApiKey(t.apiKeys[keyId].prefix); l in t.identities && t.identities[l].tenant == t.apiKeys[keyId].tenant
    ensures RevokeApiKey(t, ctx, keyId).0 == Revoked(t, {ApiKey(t.apiKeys[keyId].prefix)}, {keyId}, {})
  {
    hide RevokeIdentities, RevokeKeyRows;
    assert RevokeTokenRows(t.machineTokens, {}, t.now) == t.machineTokens;
  }

  lemma RevokeMachineTokensKeeps(t: Tables, tenant: nat, machineId: nat)
    requires Inv(t)
    ensures var t' := RevokeMachineTokens(t, tenant, machineId).0; Inv(t') && Extends(t, t')
  {
    hide Numbered, Owned, KeysNarrow, TokensBacked;
    var rows := set c | c in t.machineTokens && t.machineTokens[c].tenant == tenant
                        && t.machineTokens[c].machineId == machineId && t.machineTokens[c].revokedAt.None?;
    var which := set l | l in t.identities && l.MachineToken? && t.identities[l].tenant == tenant
                         && t.identities[l].machineId == Some(machineId) && t.identities[l].revokedAt.None?;
    assert Matching(t, which, {}, rows) by {
      assert forall c :: c in t.machineTokens ==> TokenRowAgrees(t, c);
    }
    assert RevokeKeyRows(t.apiKeys, {}, t.now) == t.apiKeys;
    RevokeKeeps(t, which, {}, rows);
    assert RevokeMachineTokens(t, tenant, machineId).0 == Revoked(t, which, {}, rows);
  }

  lemma LaterNumbered(t: Tables, now: int, next: nat, machines: set<(nat, nat)>)
    requires Numbered(t) && t.now <= now && t.next <= next
    ensures Numbered(t.(now := now, next := next, machines := machines))
  {
  }

  /** The clock, the counter and the machine list touch no credential. */
  lemma LaterKeeps(t: Tables, now: int, next: nat, machines: set<(nat, nat)>)
    requires Inv(t) && t.now <= now && t.next <= next
    ensures var t' := t.(now := now, next := next, machines := machines); Inv(t') && Extends(t, t')
  {
    hide TokenBacked, Numbered, TokensBacked, LedgersAgree, KeysNarrow;
    var t' := t.(now := now, next := next, machines := machines);
    LaterNumbered(t, now, next, machines);
    LedgersFrame(t, t');
    AllBackedPersist(t, t');
    KeysFrame(t, t');
  }

  lemma EnrolKeeps(t: Tables, ctx: Context)
    requires Inv(t)
    ensures var t' := EnrolMachine(t, ctx).0; Inv(t') && Extends(t, t')
  {
    hide Inv, Extends;
    LaterKeeps(t, t.now, t.next + 1, t.machines + {(ctx.tenant, t.next)});
  }

  lemma RetireKeeps(t: Tables, tenant: nat, machineId: nat)
    requires Inv(t)
    ensures var t' := RetireMachine(t, tenant, machineId); Inv(t') && Extends(t, t')
  {
    hide Inv, Extends, RevokeMachineTokens;
    var t1 := RevokeMachineTokens(t, tenant, machineId).0;
    RevokeMachineTokensKeeps(t, tenant, machineId);
    LaterKeeps(t1, t1.now, t1.next, t1.machines - {(tenant, machineId)});
    ExtendsTrans(t, t1, RetireMachine(t, tenant, machineId));
  }

  // ---------------------------------------------------------------- new credentials

  /** What authentication hands an operation. */
  ghost predicate ContextOk(t: Tables, ctx: Context)
  {
    && ctx.user in t.users
    && (forall s :: s in ctx.scopes ==> s in Scopes.PASSWORD_SCOPES || s in Scopes.MACHINE_SCOPES)
    && (ctx.authType.ByBrowser? || ctx.authType.ByApiKey? ==> forall s :: s in ctx.scopes ==> s in Scopes.PASSWORD_SCOPES)
    && (ctx.authType.ByApiKey? ==> exists l :: KeyOf(t, ctx, l))
  }

  ghost predicate KeyOf(t: Tables, ctx: Context, l: Lookup)
  {
    && Live(t, l) && l.ApiKey? && ctx.credentialId == Some(t.identities[l].id)
    && t.identities[l].tenant == ctx.tenant && t.identities[l].user == ctx.user && t.identities[l].scopes == ctx.scopes
  }

  lemma KeyLedgers(t: Tables, ctx: Context, scopes: seq<string>, tail: nat)
    requires LedgersAgree(t) && Numbered(t)
    ensures LedgersAgree(AddKey(t, ctx, scopes, tail))
  {
    assert forall l :: l in t.identities && l.ApiKey? ==> l.prefix < t.next;
    assert t.next !in t.apiKeys;
    hide Numbered, KeyLedger, TokenLedger;
    NewKeyLedger(t, ctx, scopes, tail);
    TokenLedgerFrame(t, AddKey(t, ctx, scopes, tail));
  }

  lemma NewKeyLedger(t: Tables, ctx: Context, scopes: seq<string>, tail: nat)
    requires KeyLedger(t) && t.next !in t.apiKeys && forall l :: l in t.identities && l.ApiKey? ==> l.prefix < t.next
    ensures KeyLedger(AddKey(t, ctx, scopes, tail))
  {
    var t' := AddKey(t, ctx, scopes, tail);
    forall k | k in t'.apiKeys ensures KeyRowAgrees(t', k) {
      NewKeyRow(t, ctx, scopes, tail, k);
    }
    forall k | k in t.apiKeys ensures t.apiKeys[k].prefix < t.next {
      assert KeyRowAgrees(t, k);
    }
    AddedPrefix(t.apiKeys, t.next, t'.apiKeys[t.next]);
  }

  /** So does adding a row, but for the prefix it brings. */
  lemma AddedPrefix(rows: map<nat, ApiKeyRow>, id: nat, row: ApiKeyRow)
    requires PrefixesApart(rows) && id !in rows && forall k :: k in rows ==> rows[k].prefix != row.prefix
    ensures PrefixesApart(rows[id := row])
    ensures forall prefix :: Listed(rows, prefix) || prefix == row.prefix ==> Listed(rows[id := row], prefix)
  {
    var more := rows[id := row];
    forall prefix | Listed(rows, prefix) || prefix == row.prefix ensures Listed(more, prefix) {
      if prefix == row.prefix {
        assert id in more;
      } else {
        var k :| k in rows && rows[k].prefix == prefix;
        assert k in more;
      }
    }
  }

  lemma NewKeyRow(t: Tables, ctx: Context, scopes: seq<string>, tail: nat, k: nat)
    requires forall l :: l in t.identities && l.ApiKey? ==> l.prefix < t.next
    requires k != t.next ==> k in t.apiKeys && KeyRowAgrees(t, k)
    ensures k in AddKey(t, ctx, scopes, tail).apiKeys && KeyRowAgrees(AddKey(t, ctx, scopes, tail), k)
  {
  }

  lemma KeyNumbered(t: Tables, ctx: Context, scopes: seq<string>, tail: nat)
    requires Numbered(t)
    ensures Numbered(AddKey(t, ctx, scopes, tail))
  {
  }

  lemma KeyExtends(t: Tables, ctx: Context, scopes: seq<string>, tail: nat)
    requires ApiKey(t.next + 2) !in t.identities
    ensures var t' := AddKey(t, ctx, scopes, tail);
      && Extends(t, t') && t'.issued == t.issued
      && (forall m :: m in t.identities ==> m in t'.identities && SameIdentity(t.identities[m], t'.identities[m]))
  {
  }

  lemma KeyOwned(t: Tables, ctx: Context, scopes: seq<string>, tail: nat)
    requires Owned(t) && KeysNarrow(t) && ctx.user in t.users
    requires forall s :: s in scopes ==> s in Scopes.PASSWORD_SCOPES
    ensures Owned(AddKey(t, ctx, scopes, tail)) && KeysNarrow(AddKey(t, ctx, scopes, tail))
  {
  }

  lemma CreateApiKeyKeeps(t: Tables, ctx: Context, scopes: seq<string>, tail: nat)
    requires Inv(t) && ContextOk(t, ctx) && (ctx.authType.ByBrowser? || ctx.authType.ByApiKey?)
    ensures var t' := CreateApiKey(t, ctx, scopes, tail).0; Inv(t') && Extends(t, t')
  {
    ExtendsSelf(t);
    if CreateApiKey(t, ctx, scopes, tail).1.Some? {
      Scopes.GrantExact(scopes, ctx.scopes);
      assert Scopes.WILDCARD !in Scopes.PASSWORD_SCOPES;
      assert forall s :: s in scopes ==> s in Scopes.PASSWORD_SCOPES;
      assert ApiKey(t.next + 2) !in t.identities;
      hide Numbered, Owned, KeysNarrow, TokensBacked, LedgersAgree, TokenBacked, Extends, ContextOk;
      KeyNumbered(t, ctx, scopes, tail);
      KeyLedgers(t, ctx, scopes, tail);
      KeyExtends(t, ctx, scopes, tail);
      KeyOwned(t, ctx, scopes, tail);
      AllBackedPersist(t, AddKey(t, ctx, scopes, tail));
    }
  }

  lemma HandshakeKeeps(t: Tables, vocabulary: seq<string>, ctx: Context)
    requires Inv(t) && ContextOk(t, ctx)
    ensures var t' := Handshake(t, vocabulary, ctx).0; Inv(t') && Extends(t, t')
  {
    hide Inv, Extends;
    ExtendsSelf(t);
    var (_, claims) := Handshake(t, vocabulary, ctx);
    if claims.Some? {
      var l :| KeyOf(t, ctx, l);
      assert Scopes.WILDCARD !in Scopes.PASSWORD_SCOPES && Scopes.WILDCARD !in Scopes.MACHINE_SCOPES;
      assert Exchanged(t, claims.value, l);
      SignKeeps(t, claims.value);
    }
  }

  lemma MachineTokenLedgers(t: Tables, claims: Claims, id: nat)
    requires LedgersAgree(t) && claims.machineId.Some?
    ensures LedgersAgree(AddMachineToken(t, claims, id))
  {
    var t' := AddMachineToken(t, claims, id);
    KeyLedgerFrame(t, t') by { hide KeyLedger, TokenLedger; }
    forall c | c in t'.machineTokens ensures TokenRowAgrees(t', c) {
      if c != claims { assert TokenRowAgrees(t, c); }
    }
  }

  lemma MachineTokenNumbered(t: Tables, claims: Claims)
    requires Numbered(t) && claims.machineId.Some? && claims.jti == t.next && claims.iat == t.now
    ensures Numbered(AddMachineToken(t, claims, t.next + 1))
  {
  }

  lemma MachineTokenExtends(t: Tables, claims: Claims)
    requires claims !in t.issued && MachineToken(claims) !in t.identities
    requires claims.machineId.Some? && claims.jti == t.next && claims.iat == t.now
    ensures var t' := AddMachineToken(t, claims, t.next + 1);
      && Extends(t, t') && t'.issued == t.issued + {claims}
      && (forall m :: m in t.identities ==> m in t'.identities && SameIdentity(t.identities[m], t'.identities[m]))
  {
  }

  lemma MachineTokenOwned(t: Tables, claims: Claims)
    requires Owned(t) && KeysNarrow(t) && claims.sub in t.users
    requires claims.machineId.Some? && claims.kind.Machine? && claims.scopes == Scopes.MACHINE_SCOPES
    ensures var t' := AddMachineToken(t, claims, t.next + 1);
      Owned(t') && KeysNarrow(t') && TokenBacked(t', claims)
  {
  }

  lemma UnusedToken(t: Tables, claims: Claims)
    requires Numbered(t) && claims.jti == t.next
    ensures claims !in t.issued && MachineToken(claims) !in t.identities
  {
  }

  lemma AddMachineTokenKeeps(t: Tables, claims: Claims)
    requires Inv(t) && claims.machineId.Some? && claims.jti == t.next && claims.iat == t.now && claims.sub in t.users
    requires claims.kind.Machine? && claims.scopes == Scopes.MACHINE_SCOPES
    ensures var t' := AddMachineToken(t, claims, t.next + 1); Inv(t') && Extends(t, t')
  {
    hide Numbered, Owned, KeysNarrow, TokensBacked, LedgersAgree, TokenBacked, Extends, AddMachineToken, SameIdentity;
    MachineTokenNumbered(t, claims);
    MachineTokenLedgers(t, claims, t.next + 1);
    UnusedToken(t, claims);
    MachineTokenExtends(t, claims);
    MachineTokenOwned(t, claims);
    AllBackedPersist(t, AddMachineToken(t, claims, t.next + 1));
  }

  lemma IssueMachineTokenKeeps(t: Tables, ctx: Context, machineId: nat)
    requires Inv(t) && ctx.user in t.users
    ensures var t' := IssueMachineToken(t, ctx, machineId).0; Inv(t') && Extends(t, t')
  {
    hide Inv, Extends, AddMachineToken;
    ExtendsSelf(t);
    var (_, claims) := IssueMachineToken(t, ctx, machineId);
    if claims.Some? {
      AddMachineTokenKeeps(t, claims.value);
    }
  }

  // ---------------------------------------------------------------- passwords

  lemma SetPasswordKeeps(t: Tables, l: Lookup, user: nat, password: string, kept: Option<nat>)
    requires Inv(t) && l in t.identities && l.Password? && user in t.users && t.identities[l].user == user
    requires kept.Some? ==> kept.value < t.next
    ensures var t' := SetPassword(t, l, user, password, kept); Inv(t') && Extends(t, t')
  {
    var t' := SetPassword(t, l, user, password, kept);
    SetPasswordNumbered(t, l, user, password, kept);
    SetPasswordOwned(t, l, user, password, kept);
    SetPasswordExtends(t, l, user, password, kept);
    hide TokenBacked, Numbered, TokensBacked, LedgersAgree, KeysNarrow, Owned, Extends, SetPassword;
    AllBackedPersist(t, t');
    LedgersFrame(t, t');
    KeysFrame(t, t');
  }

  lemma SetPasswordExtends(t: Tables, l: Lookup, user: nat, password: string, kept: Option<nat>)
    requires l in t.identities && l.Password? && user in t.users
    ensures var t' := SetPassword(t, l, user, password, kept);
      && Extends(t, t') && t'.issued == t.issued && t'.apiKeys == t.apiKeys && t'.machineTokens == t.machineTokens
      && (forall m :: m in t.identities <==> m in t'.identities)
      && (forall m :: m in t.identities ==> SameIdentity(t.identities[m], t'.identities[m]))
      && (forall m :: m in t.identities && m != l ==> t'.identities[m] == t.identities[m])
  {
  }

  lemma SetPasswordNumbered(t: Tables, l: Lookup, user: nat, password: string, kept: Option<nat>)
    requires Numbered(t) && l in t.identities && user in t.users && (kept.Some? ==> kept.value < t.next)
    ensures Numbered(SetPassword(t, l, user, password, kept))
  {
  }

  lemma SetPasswordOwned(t: Tables, l: Lookup, user: nat, password: string, kept: Option<nat>)
    requires Owned(t) && l in t.identities && user in t.users
    ensures Owned(SetPassword(t, l, user, password, kept))
  {
  }

  lemma RevokeAllKeeps(t: Tables, user: nat)
    requires Inv(t)
    ensures var t' := RevokeAll(t, user); Inv(t') && Extends(t, t')
  {
    hide Numbered, Owned, KeysNarrow, TokensBacked;
    var credentials := CredentialsOf(t, user);
    var tenants := TenantsOf(t, credentials);
    var keys := KeyRowsToRevoke(t, user, tenants);
    var tokens := TokenRowsToRevoke(t, credentials, tenants);
    RevokeAllMatching(t, user);
    RevokeKeeps(t, credentials, keys, tokens);
    assert RevokeAll(t, user) == Revoked(t, credentials, keys, tokens);
  }

  /** Looking each ledger up tenant by tenant finds exactly the rows of the identities found by user. */
  lemma RevokeAllMatching(t: Tables, user: nat)
    requires LedgersAgree(t)
    ensures var credentials := CredentialsOf(t, user);
      var tenants := TenantsOf(t, credentials);
      Matching(t, credentials, KeyRowsToRevoke(t, user, tenants), TokenRowsToRevoke(t, credentials, tenants))
  {
    var credentials := CredentialsOf(t, user);
    var tenants := TenantsOf(t, credentials);
    forall k | k in t.apiKeys
      ensures k in KeyRowsToRevoke(t, user, tenants) <==> ApiKey(t.apiKeys[k].prefix) in credentials
    {
      assert KeyRowAgrees(t, k);
      var l := ApiKey(t.apiKeys[k].prefix);
      assert l in credentials ==> t.identities[l].tenant in tenants;
    }
    forall c | c in t.machineTokens
      ensures c in TokenRowsToRevoke(t, credentials, tenants) <==> MachineToken(c) in credentials
    {
      assert TokenRowAgrees(t, c);
      assert MachineToken(c) in credentials ==> t.identities[MachineToken(c)].tenant in tenants;
    }
  }

  lemma ResetPasswordKeeps(t: Tables, email: string, password: string)
    requires Inv(t)
    ensures var t' := ResetPassword(t, email, password).0; Inv(t') && Extends(t, t')
  {
    hide Inv, Extends, RevokeAll, SetPassword;
    ExtendsSelf(t);
    var user := Resettable(t, email);
    if user.Some? {
      var t1 := SetPassword(t, Password(email), user.value, password, None);
      SetPasswordKeeps(t, Password(email), user.value, password, None);
      RevokeAllKeeps(t1, user.value);
      ExtendsTrans(t, t1, RevokeAll(t1, user.value));
    }
  }

  lemma ChangePasswordKeeps(t: Tables, ctx: Context, claims: Claims, current: string, password: string)
    requires Inv(t) && claims in t.issued
    ensures var t' := ChangePassword(t, ctx, claims, current, password).0; Inv(t') && Extends(t, t')
  {
    ExtendsSelf(t);
    if ChangePassword(t, ctx, claims, current, password).1 {
      assert claims.jti < t.next;
      hide Inv, Extends, SetPassword;
      SetPasswordKeeps(t, Password(t.users[ctx.user].email), ctx.user, password, Some(claims.jti));
    }
  }
}
