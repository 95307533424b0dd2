/**
 * Passwords and keys as the requests and answers of a run tell them: which
 * password an address has, whose account it is, and which secrets were handed
 * out. No table appears in these definitions.
 */
module AuthHistory {
  import opened Wrappers
  import opened AuthTables
  import opened AuthInvariant
  import opened AuthRun
  import opened AuthTheorems

  // ---------------------------------------------------------------- what was asked and answered

  /** Request `i` made account `user` for `email`. */
  predicate Makes(requests: seq<Request>, answers: seq<Answer>, i: nat, email: string, user: nat)
  {
    && i < |requests| && i < |answers|
    && requests[i].SignUp? && requests[i].email == email && answers[i].Token? && answers[i].claims.sub == user
  }

  ghost predicate Made(requests: seq<Request>, answers: seq<Answer>, email: string, user: nat)
  {
    exists i: nat :: Makes(requests, answers, i, email, user)
  }

  /** The password the last accepted sign-up, reset or change set for an address. */
  ghost function PasswordOf(requests: seq<Request>, answers: seq<Answer>, email: string): Option<string>
    requires |requests| == |answers|
  {
    if requests == [] then None
    else
      var n := |requests| - 1;
      var before := PasswordOf(requests[..n], answers[..n], email);
      match requests[n]
      case SignUp(address, password) => if address == email && answers[n].Token? then Some(password) else before
      case Reset(address, password) => if address == email && answers[n].Done? then Some(password) else before
      case NewPassword(claims, _, password) =>
        if answers[n].Done? && Made(requests[..n], answers[..n], email, claims.sub) then Some(password) else before
      case _ => before
  }

  // ---------------------------------------------------------------- what the tables remember

  /** The password row of an address: whose it is, and of which password. */
  predicate HasPassword(t: Tables, email: string, user: nat, password: string)
  {
    && Password(email) in t.identities
    && t.identities[Password(email)].user == user && t.identities[Password(email)].secretHash == OfPassword(password)
  }

  ghost predicate PasswordsRemembered(t: Tables, requests: seq<Request>, answers: seq<Answer>)
    requires |requests| == |answers|
  {
    && (forall email :: Password(email) in t.identities <==> PasswordOf(requests, answers, email).Some?)
    && (forall email :: Password(email) in t.identities ==>
          t.identities[Password(email)].secretHash == OfPassword(PasswordOf(requests, answers, email).value))
    && (forall email, user :: Made(requests, answers, email, user)
          <==> Password(email) in t.identities && t.identities[Password(email)].user == user)
  }

  ghost predicate KeysRemembered(t: Tables, answers: seq<Answer>)
  {
    forall prefix, secret :: ApiKey(prefix) in t.identities && t.identities[ApiKey(prefix)].secretHash == OfKey(secret) ==> KeyMade(secret) in answers
  }

  /** Every user signs in through the one identity under its address. */
  ghost predicate OneWayIn(t: Tables)
  {
    && (forall u :: u in t.users ==> Password(t.users[u].email) in t.identities || OAuth(t.users[u].email) in t.identities)
    && (forall l, m :: l in t.identities && m in t.identities && SignsIn(l) && SignsIn(m) && t.identities[l].user == t.identities[m].user ==> l == m)
  }

  predicate SignsIn(l: Lookup) { l.Password? || l.OAuth? }

  // ---------------------------------------------------------------- one step on the tables

  /** The password rows are the same. */
  ghost predicate SamePasswords(s: Tables, t: Tables)
  {
    forall email ::
      && (Password(email) in s.identities <==> Password(email) in t.identities)
      && (Password(email) in s.identities && Password(email) in t.identities ==>
            && t.identities[Password(email)].user == s.identities[Password(email)].user
            && t.identities[Password(email)].secretHash == s.identities[Password(email)].secretHash)
  }

  /** The same but for the row of `email`, which is now `user`'s, of `password`. */
  ghost predicate PasswordSet(s: Tables, t: Tables, email: string, user: nat, password: string)
  {
    && HasPassword(t, email, user, password)
    && forall other :: other != email ==>
      && (Password(other) in s.identities <==> Password(other) in t.identities)
      && (Password(other) in s.identities && Password(other) in t.identities ==>
            && t.identities[Password(other)].user == s.identities[Password(other)].user
            && t.identities[Password(other)].secretHash == s.identities[Password(other)].secretHash)
  }

  /** No key row is new, or of another secret. */
  ghost predicate NoNewKey(s: Tables, t: Tables)
  {
    forall prefix :: ApiKey(prefix) in t.identities ==>
      ApiKey(prefix) in s.identities && t.identities[ApiKey(prefix)].secretHash == s.identities[ApiKey(prefix)].secretHash
  }

  /** The same ways in for the same users. */
  ghost predicate SameWaysIn(s: Tables, t: Tables)
  {
    && t.users.Keys == s.users.Keys && (forall u :: u in s.users ==> u in t.users && t.users[u].email == s.users[u].email)
    && (forall l :: SignsIn(l) ==> (l in s.identities <==> l in t.identities))
    && (forall l :: SignsIn(l) && l in s.identities && l in t.identities ==> t.identities[l].user == s.identities[l].user)
  }

  /** A new user with one identity under its address, and perhaps a token. */
  ghost predicate NewAccount(s: Tables, t: Tables, l: Lookup, user: nat, email: string)
  {
    && user !in s.users && l !in s.identities && (l == Password(email) || l == OAuth(email))
    && t.users.Keys == s.users.Keys + {user} && (forall u :: u in s.users ==> u in t.users && t.users[u] == s.users[u])
    && user in t.users && t.users[user].email == email
    && t.identities.Keys == s.identities.Keys + {l} && (forall m :: m in s.identities ==> m in t.identities && t.identities[m] == s.identities[m])
    && l in t.identities && t.identities[l].user == user
  }

  lemma NewWayIn(s: Tables, t: Tables, l: Lookup, user: nat, email: string)
    requires Owned(s) && OneWayIn(s) && NewAccount(s, t, l, user, email)
    ensures OneWayIn(t) && NoNewKey(s, t)
  {
    forall a, b | a in t.identities && b in t.identities && SignsIn(a) && SignsIn(b) && t.identities[a].user == t.identities[b].user
      ensures a == b
    {
      assert a != l ==> a in s.identities && s.identities[a].user in s.users;
      assert b != l ==> b in s.identities && s.identities[b].user in s.users;
    }
  }

  lemma NewAccountSets(s: Tables, t: Tables, l: Lookup, user: nat, email: string)
    requires NewAccount(s, t, l, user, email)
    ensures l.OAuth? ==> SamePasswords(s, t)
    ensures l.Password? && t.identities[l].secretHash.OfPassword? ==> PasswordSet(s, t, email, user, t.identities[l].secretHash.password)
  {
  }

  lemma SameSets(t: Tables)
    ensures SamePasswords(t, t) && NoNewKey(t, t)
  {
  }

  lemma RegisterNew(t: Tables, email: string, password: string)
    requires t.next !in t.users
    ensures var (t', claims) := Register(t, email, password);
      if claims.Some? then
        && NewAccount(t, t', Password(email), t.next, email) && claims.value.sub == t.next
        && t'.identities[Password(email)].secretHash == OfPassword(password)
      else t' == t
  {
  }

  lemma RegisterSets(t: Tables, email: string, password: string)
    requires Inv(t) && OneWayIn(t)
    ensures var (t', claims) := Register(t, email, password);
      && NoNewKey(t, t') && OneWayIn(t')
      && (if claims.Some? then Password(email) !in t.identities && PasswordSet(t, t', email, claims.value.sub, password) else SamePasswords(t, t'))
  {
    var (t', claims) := Register(t, email, password);
    NewAccountHas(t, t', Password(email), t.next, email);
    hide *;
    FreshUser(t);
    InvOwned(t);
    SameSets(t);
    RegisterNew(t, email, password);
    if claims.Some? {
      NewWayIn(t, t', Password(email), t.next, email);
      NewAccountSets(t, t', Password(email), t.next, email);
    }
  }

  lemma NewAccountHas(s: Tables, t: Tables, l: Lookup, user: nat, email: string)
    ensures NewAccount(s, t, l, user, email) ==> l !in s.identities && l in t.identities
  {
  }

  lemma InvOwned(t: Tables)
    requires Inv(t)
    ensures Owned(t)
  {
  }

  lemma OAuthNew(t: Tables, email: string, open: bool)
    requires t.next !in t.users
    requires Live(t, Password(email)) || OAuth(email) in t.identities || forall u :: u in t.users ==> t.users[u].email != email
    ensures var t' := OAuthSignIn(t, email, open).0;
      NewAccount(t, t', OAuth(email), t.next, email) || (t'.users == t.users && t'.identities == t.identities)
  {
    UserForOk(t, email);
    hide UserFor;
  }

  lemma OAuthSets(t: Tables, email: string, open: bool)
    requires Inv(t) && OneWayIn(t)
    ensures var t' := OAuthSignIn(t, email, open).0; NoNewKey(t, t') && SamePasswords(t, t') && OneWayIn(t')
  {
    var t' := OAuthSignIn(t, email, open).0;
    hide *;
    FreshUser(t);
    InvOwned(t);
    NewcomerOrIn(t, email);
    OAuthNew(t, email, open);
    if NewAccount(t, t', OAuth(email), t.next, email) {
      NewWayIn(t, t', OAuth(email), t.next, email);
      NewAccountSets(t, t', OAuth(email), t.next, email);
    } else {
      UntouchedSets(t, t');
    }
  }

  lemma UntouchedSets(s: Tables, t: Tables)
    requires t.users == s.users && t.identities == s.identities
    ensures NoNewKey(s, t) && SamePasswords(s, t) && (OneWayIn(s) ==> OneWayIn(t))
  {
  }

  /** An address that is nobody's sign-in is nobody's address. */
  lemma NewcomerOrIn(t: Tables, email: string)
    requires OneWayIn(t) && Owned(t)
    ensures Live(t, Password(email)) || OAuth(email) in t.identities || forall u :: u in t.users ==> t.users[u].email != email
  {
  }

  lemma SetPasswordSets(t: Tables, email: string, user: nat, password: string, kept: Option<nat>)
    requires Password(email) in t.identities && user in t.users && t.identities[Password(email)].user == user && OneWayIn(t)
    ensures var t' := SetPassword(t, Password(email), user, password, kept);
      NoNewKey(t, t') && PasswordSet(t, t', email, user, password) && OneWayIn(t')
  {
  }

  /** Revoking rows of keys and machine tokens is nothing to passwords. */
  lemma RevokeAllSets(t: Tables, user: nat)
    requires OneWayIn(t)
    ensures var t' := RevokeAll(t, user);
      && NoNewKey(t, t') && SamePasswords(t, t') && OneWayIn(t')
      && forall l :: l in t'.identities <==> l in t.identities
  {
    hide TenantsOf, KeyRowsToRevoke, TokenRowsToRevoke, RevokeKeyRows, RevokeTokenRows, CredentialsOf;
    RevokedWaysIn(t, RevokeAll(t, user));
  }

  lemma RevokedWaysIn(s: Tables, t: Tables)
    requires OneWayIn(s) && SameWaysIn(s, t)
    ensures OneWayIn(t)
  {
  }

  lemma ResetSets(t: Tables, email: string, password: string)
    requires Inv(t) && OneWayIn(t)
    ensures var (t', ok) := ResetPassword(t, email, password);
      && NoNewKey(t, t') && OneWayIn(t')
      && (ok <==> Password(email) in t.identities)
      && (!ok ==> t' == t)
      && (ok ==> PasswordSet(t, t', email, t.identities[Password(email)].user, password))
  {
    hide KeysNarrow, TokensBacked, LedgersAgree, Numbered, OneWayIn, SetPassword, RevokeAll;
    if Password(email) in t.identities {
      var user := t.identities[Password(email)].user;
      SetPasswordSets(t, email, user, password, None);
      RevokeAllSets(SetPassword(t, Password(email), user, password, None), user);
    }
  }

  lemma OpenSets(t: Tables, request: Request)
    requires Inv(t) && OneWayIn(t)
    ensures var (t', answer) := Open(t, request);
      && NoNewKey(t, t') && OneWayIn(t')
      && (if request.SignUp? && answer.Token? then
            Password(request.email) !in t.identities && PasswordSet(t, t', request.email, answer.claims.sub, request.password)
          else if request.Reset? && answer.Done? then
            Password(request.email) in t.identities && PasswordSet(t, t', request.email, t.identities[Password(request.email)].user, request.password)
          else SamePasswords(t, t'))
  {
    hide Inv, OneWayIn, Register, OAuthSignIn, ResetPassword;
    match request {
      case SignUp(email, password) => RegisterSets(t, email, password);
      case ProviderSignIn(email, open) => OAuthSets(t, email, open);
      case Reset(email, password) => ResetSets(t, email, password);
      case SignIn(email, password) => LoginSets(t, email, password);
      case Tick(ms) => RevokedWaysIn(t, t.(now := t.now + ms));
      case _ =>
    }
  }

  lemma LoginSets(t: Tables, email: string, password: string)
    requires OneWayIn(t)
    ensures var t' := Login(t, email, password).0; NoNewKey(t, t') && SamePasswords(t, t') && OneWayIn(t')
  {
    RevokedWaysIn(t, Login(t, email, password).0);
  }

  /** What a change of password asks for and leaves. */
  lemma ChangeSets(t: Tables, ctx: Context, claims: Claims, current: string, password: string)
    requires Inv(t) && OneWayIn(t)
    ensures var (t', ok) := ChangePassword(t, ctx, claims, current, password);
      && NoNewKey(t, t') && OneWayIn(t')
      && (!ok ==> t' == t)
      && (ok ==>
            && claims.sub in t.users
            && HasPassword(t, t.users[claims.sub].email, claims.sub, current)
            && PasswordSet(t, t', t.users[claims.sub].email, claims.sub, password))
  {
    hide KeysNarrow, TokensBacked, LedgersAgree, Numbered, OneWayIn, SetPassword;
    if ChangePassword(t, ctx, claims, current, password).1 {
      SetPasswordSets(t, t.users[ctx.user].email, ctx.user, password, Some(claims.jti));
    }
  }

  lemma ActSets(t: Tables, ctx: Context, request: Request)
    requires Inv(t) && OneWayIn(t)
    ensures var (t', answer) := Act(t, ctx, request);
      && OneWayIn(t')
      && (if request.MakeKey? && answer.KeyMade? then OneNewKey(t, t', answer.secret) else NoNewKey(t, t'))
      && (if request.NewPassword? && answer.Done? then
            && request.claims.sub in t.users
            && HasPassword(t, t.users[request.claims.sub].email, request.claims.sub, request.current)
            && PasswordSet(t, t', t.users[request.claims.sub].email, request.claims.sub, request.password)
          else SamePasswords(t, t'))
  {
    hide Inv, OneWayIn, ChangePassword, CreateApiKey, RevokeApiKey, Handshake, EnrolMachine, IssueMachineToken, RevokeMachineTokens, RetireMachine;
    match request {
      case NewPassword(claims, current, password) => ChangeSets(t, ctx, claims, current, password);
      case MakeKey(_, scopes, tail) => KeySets(t, ctx, scopes, tail);
      case DropKey(_, keyId) => DropKeySets(t, ctx, keyId);
      case Exchange(_, vocabulary) => HandshakeSets(t, vocabulary, ctx);
      case Enrol(_) => EnrolSets(t, ctx);
      case MintMachineToken(_, machineId) => MintSets(t, ctx, machineId);
      case DropMachineTokens(_, machineId) => DropTokensSets(t, ctx.tenant, machineId);
      case Retire(_, machineId) => DropTokensSets(t, ctx.tenant, machineId);
      case _ =>
    }
  }

  /** One key row is new, of the secret handed out. */
  ghost predicate OneNewKey(s: Tables, t: Tables, secret: Secret)
  {
    forall prefix :: ApiKey(prefix) in t.identities ==>
      if prefix == secret.prefix then t.identities[ApiKey(prefix)].secretHash == OfKey(secret)
      else ApiKey(prefix) in s.identities && t.identities[ApiKey(prefix)].secretHash == s.identities[ApiKey(prefix)].secretHash
  }

  lemma KeySets(t: Tables, ctx: Context, scopes: seq<string>, tail: nat)
    requires OneWayIn(t)
    ensures var (t', secret) := CreateApiKey(t, ctx, scopes, tail);
      && SamePasswords(t, t') && OneWayIn(t')
      && (if secret.Some? then OneNewKey(t, t', secret.value) else NoNewKey(t, t'))
  {
    RevokedWaysIn(t, CreateApiKey(t, ctx, scopes, tail).0);
  }

  lemma DropKeySets(t: Tables, ctx: Context, keyId: nat)
    requires OneWayIn(t)
    ensures var t' := RevokeApiKey(t, ctx, keyId).0; NoNewKey(t, t') && SamePasswords(t, t') && OneWayIn(t')
  {
    RevokedWaysIn(t, RevokeApiKey(t, ctx, keyId).0);
  }

  lemma HandshakeSets(t: Tables, vocabulary: seq<string>, ctx: Context)
    requires OneWayIn(t)
    ensures var t' := Handshake(t, vocabulary, ctx).0; NoNewKey(t, t') && SamePasswords(t, t') && OneWayIn(t')
  {
    RevokedWaysIn(t, Handshake(t, vocabulary, ctx).0);
  }

  lemma EnrolSets(t: Tables, ctx: Context)
    requires OneWayIn(t)
    ensures var t' := EnrolMachine(t, ctx).0; NoNewKey(t, t') && SamePasswords(t, t') && OneWayIn(t')
  {
    RevokedWaysIn(t, EnrolMachine(t, ctx).0);
  }

  lemma MintSets(t: Tables, ctx: Context, machineId: nat)
    requires OneWayIn(t)
    ensures var t' := IssueMachineToken(t, ctx, machineId).0; NoNewKey(t, t') && SamePasswords(t, t') && OneWayIn(t')
  {
    RevokedWaysIn(t, IssueMachineToken(t, ctx, machineId).0);
  }

  lemma DropTokensSets(t: Tables, tenant: nat, machineId: nat)
    requires OneWayIn(t)
    ensures var t' := RevokeMachineTokens(t, tenant, machineId).0; NoNewKey(t, t') && SamePasswords(t, t') && OneWayIn(t')
    ensures var t' := RetireMachine(t, tenant, machineId); NoNewKey(t, t') && SamePasswords(t, t') && OneWayIn(t')
  {
    RevokedWaysIn(t, RevokeMachineTokens(t, tenant, machineId).0);
    RevokedWaysIn(t, RetireMachine(t, tenant, machineId));
  }

  // ---------------------------------------------------------------- runs

  ghost predicate Remembers(t: Tables, requests: seq<Request>, answers: seq<Answer>)
  {
    |requests| == |answers| && PasswordsRemembered(t, requests, answers) && KeysRemembered(t, answers) && OneWayIn(t)
  }

  /** Accounts made by the last request, and by those before it. */
  lemma MadeNext(requests: seq<Request>, answers: seq<Answer>, email: string, user: nat)
    requires requests != [] && |requests| == |answers|
    ensures var n := |requests| - 1;
      Made(requests, answers, email, user) <==> Made(requests[..n], answers[..n], email, user) || Makes(requests, answers, n, email, user)
  {
    var n := |requests| - 1;
    if Made(requests, answers, email, user) {
      var i: nat :| Makes(requests, answers, i, email, user);
      assert i < n ==> Makes(requests[..n], answers[..n], i, email, user);
    }
    if Made(requests[..n], answers[..n], email, user) {
      var i: nat :| Makes(requests[..n], answers[..n], i, email, user);
      assert Makes(requests, answers, i, email, user);
    }
  }

  /** The last request sets no password. */
  lemma NotSet(s: Tables, t: Tables, requests: seq<Request>, answers: seq<Answer>)
    requires requests != [] && |requests| == |answers|
    requires var n := |requests| - 1;
      && PasswordsRemembered(s, requests[..n], answers[..n]) && SamePasswords(s, t)
      && !(requests[n].SignUp? && answers[n].Token?) && !((requests[n].Reset? || requests[n].NewPassword?) && answers[n].Done?)
    ensures PasswordsRemembered(t, requests, answers)
  {
    var n := |requests| - 1;
    forall email ensures PasswordOf(requests, answers, email) == PasswordOf(requests[..n], answers[..n], email) {
    }
    hide PasswordOf, Made;
    forall email, user ensures Made(requests, answers, email, user) <==> Made(requests[..n], answers[..n], email, user) {
      MadeNext(requests, answers, email, user);
    }
  }

  /** It sets one: that of `email`, whose account is `user`. */
  lemma {:induction false} IsSet(s: Tables, t: Tables, requests: seq<Request>, answers: seq<Answer>, email: string, user: nat, password: string)
    requires requests != [] && |requests| == |answers|
    requires var n := |requests| - 1; PasswordsRemembered(s, requests[..n], answers[..n]) && PasswordSet(s, t, email, user, password)
    requires var n := |requests| - 1;
      forall e :: PasswordOf(requests, answers, e) == if e == email then Some(password) else PasswordOf(requests[..n], answers[..n], e)
    requires var n := |requests| - 1;
      if Password(email) in s.identities then s.identities[Password(email)].user == user && !(requests[n].SignUp? && answers[n].Token?)
      else forall e, u :: Makes(requests, answers, n, e, u) <==> e == email && u == user
    ensures PasswordsRemembered(t, requests, answers)
  {
    var n := |requests| - 1;
    hide PasswordOf, Made;
    forall e, u ensures Made(requests, answers, e, u) <==> Password(e) in t.identities && t.identities[Password(e)].user == u {
      MadeNext(requests, answers, e, u);
    }
  }

  lemma SignUpRemembered(s: Tables, t: Tables, requests: seq<Request>, answers: seq<Answer>)
    requires requests != [] && |requests| == |answers|
    requires var n := |requests| - 1;
      && PasswordsRemembered(s, requests[..n], answers[..n])
      && requests[n].SignUp? && answers[n].Token? && Password(requests[n].email) !in s.identities
      && PasswordSet(s, t, requests[n].email, answers[n].claims.sub, requests[n].password)
    ensures PasswordsRemembered(t, requests, answers)
  {
    var n := |requests| - 1;
    hide PasswordsRemembered, PasswordSet;
    IsSet(s, t, requests, answers, requests[n].email, answers[n].claims.sub, requests[n].password);
  }

  lemma ResetRemembered(s: Tables, t: Tables, requests: seq<Request>, answers: seq<Answer>)
    requires requests != [] && |requests| == |answers|
    requires var n := |requests| - 1;
      && PasswordsRemembered(s, requests[..n], answers[..n])
      && requests[n].Reset? && answers[n].Done? && Password(requests[n].email) in s.identities
      && PasswordSet(s, t, requests[n].email, s.identities[Password(requests[n].email)].user, requests[n].password)
    ensures PasswordsRemembered(t, requests, answers)
  {
    var n := |requests| - 1;
    hide PasswordsRemembered, PasswordSet;
    IsSet(s, t, requests, answers, requests[n].email, s.identities[Password(requests[n].email)].user, requests[n].password);
  }

  lemma ChangeRemembered(s: Tables, t: Tables, requests: seq<Request>, answers: seq<Answer>)
    requires requests != [] && |requests| == |answers|
    requires var n := |requests| - 1;
      && PasswordsRemembered(s, requests[..n], answers[..n]) && Owned(s)
      && requests[n].NewPassword? && answers[n].Done? && requests[n].claims.sub in s.users
      && HasPassword(s, s.users[requests[n].claims.sub].email, requests[n].claims.sub, requests[n].current)
      && PasswordSet(s, t, s.users[requests[n].claims.sub].email, requests[n].claims.sub, requests[n].password)
    ensures PasswordsRemembered(t, requests, answers)
  {
    var n := |requests| - 1;
    var user := requests[n].claims.sub;
    assert forall e :: Made(requests[..n], answers[..n], e, user) <==> e == s.users[user].email;
    hide PasswordsRemembered, PasswordSet, Made;
    IsSet(s, t, requests, answers, s.users[user].email, user, requests[n].password);
  }

  lemma KeysNext(s: Tables, t: Tables, answers: seq<Answer>)
    requires answers != [] && KeysRemembered(s, answers[..|answers| - 1])
    requires var a := answers[|answers| - 1]; NoNewKey(s, t) || (a.KeyMade? && OneNewKey(s, t, a.secret))
    ensures KeysRemembered(t, answers)
  {
    var n := |answers| - 1;
    assert answers == answers[..n] + [answers[n]];
  }

  /** One request, whoever makes it. */
  lemma ServeRemembers(mode: Pruning, s: Server, requests: seq<Request>, answers: seq<Answer>)
    requires requests != [] && |requests| == |answers| && Inv(s.tables)
    requires var n := |requests| - 1; Remembers(s.tables, requests[..n], answers[..n]) && Serve(mode, s, requests[n]).1 == answers[n]
    ensures Remembers(Serve(mode, s, requests[|requests| - 1]).0.tables, requests, answers)
  {
    hide Inv, Open, Act, PasswordsRemembered, KeysRemembered, OneWayIn, SamePasswords, PasswordSet, NoNewKey, OneNewKey, HasPassword, Deny;
    var n := |requests| - 1;
    var request, t := requests[n], s.tables;
    var t' := Serve(mode, s, request).0.tables;
    InvOwned(t);
    if request.SignOut? || (Caller(request).Some? && Authenticate(mode, s, Caller(request).value).1.None?) {
      Unmoved(mode, s, request);
      SameSets(t);
      NotSet(t, t', requests, answers);
    } else if Caller(request).None? {
      OpenSets(t, request);
      if request.SignUp? && answers[n].Token? {
        SignUpRemembered(t, t', requests, answers);
      } else if request.Reset? && answers[n].Done? {
        ResetRemembered(t, t', requests, answers);
      } else {
        NotSet(t, t', requests, answers);
      }
    } else {
      var ctx := Authenticate(mode, s, Caller(request).value).1.value;
      Acted(mode, s, request);
      ActSets(t, ctx, request);
      if request.NewPassword? && answers[n].Done? {
        ChangeRemembered(t, t', requests, answers);
      } else {
        NotSet(t, t', requests, answers);
      }
    }
    KeysNext(t, t', answers);
  }

  lemma Unmoved(mode: Pruning, s: Server, request: Request)
    requires request.SignOut? || (Caller(request).Some? && Authenticate(mode, s, Caller(request).value).1.None?)
    ensures Serve(mode, s, request).0.tables == s.tables
    ensures Serve(mode, s, request).1 == if request.SignOut? then Done else Refused
  {
    hide CredentialLive, AuthenticateApiKey, Open, Act;
  }

  lemma Acted(mode: Pruning, s: Server, request: Request)
    requires !request.SignOut? && Caller(request).Some? && Authenticate(mode, s, Caller(request).value).1.Some?
    ensures var (t, answer) := Act(s.tables, Authenticate(mode, s, Caller(request).value).1.value, request);
      Serve(mode, s, request).0.tables == t && Serve(mode, s, request).1 == answer
  {
    hide CredentialLive, AuthenticateApiKey, Open, Act;
  }

  lemma {:induction false} RunRemembers(mode: Pruning, requests: seq<Request>)
    ensures var (s, answers) := Run(mode, START, requests); |answers| == |requests| && Inv(s.tables) && Remembers(s.tables, requests, answers)
  {
    hide Inv, Serve, Remembers;
    if requests == [] {
      NothingRemembered();
      EmptyInv();
    } else {
      var n := |requests| - 1;
      RunRemembers(mode, requests[..n]);
      var (s, answers) := Run(mode, START, requests);
      var (before, earlier) := Run(mode, START, requests[..n]);
      assert answers[..n] == earlier;
      ServeRemembers(mode, before, requests, answers);
      ServeKeeps(mode, before, requests[n]);
    }
  }

  lemma NothingRemembered()
    ensures Remembers(START.tables, [], [])
  {
  }

  // ---------------------------------------------------------------- what the answers say

  /**
   * After any run a sign-in is answered with a token exactly when its password
   * is the one last set for the address, and the token is its account's.
   */
  lemma {:induction false} SignInExact(mode: Pruning, requests: seq<Request>, email: string, password: string)
    ensures var (s, answers) := Run(mode, START, requests);
      var answer := Serve(mode, s, SignIn(email, password)).1;
      && |answers| == |requests|
      && (answer.Token? <==> PasswordOf(requests, answers, email) == Some(password))
      && (answer.Token? ==> Made(requests, answers, email, answer.claims.sub))
      && (answer.Token? || answer.Refused?)
  {
    RunRemembers(mode, requests);
    var (s, answers) := Run(mode, START, requests);
    hide Run;
    SignInAnswer(s.tables, requests, answers, email, password);
  }

  lemma {:induction false} SignInAnswer(t: Tables, requests: seq<Request>, answers: seq<Answer>, email: string, password: string)
    requires Inv(t) && Remembers(t, requests, answers)
    ensures var answer := Open(t, SignIn(email, password)).1;
      && (answer.Token? <==> PasswordOf(requests, answers, email) == Some(password))
      && (answer.Token? ==> Made(requests, answers, email, answer.claims.sub))
      && (answer.Token? || answer.Refused?)
  {
    hide Numbered, KeysNarrow, TokensBacked, LedgersAgree, PasswordOf, Made, OneWayIn, KeysRemembered;
  }

  /** An operator's reset goes through exactly for an address with a password. */
  lemma {:induction false} ResetExact(mode: Pruning, requests: seq<Request>, email: string, password: string)
    ensures var (s, answers) := Run(mode, START, requests);
      && |answers| == |requests|
      && (Serve(mode, s, Reset(email, password)).1.Done? <==> PasswordOf(requests, answers, email).Some?)
  {
    RunRemembers(mode, requests);
    var (s, answers) := Run(mode, START, requests);
    hide Run, PasswordOf;
    ResetSets(s.tables, email, password);
  }

  /** Once a reset has gone through, its password signs in and no other does. */
  lemma {:induction false} ResetReplaces(mode: Pruning, requests: seq<Request>, email: string, password: string, other: string)
    requires Serve(mode, Run(mode, START, requests).0, Reset(email, password)).1.Done?
    ensures var s := Run(mode, START, requests + [Reset(email, password)]).0;
      Serve(mode, s, SignIn(email, other)).1.Token? <==> other == password
  {
    var all := requests + [Reset(email, password)];
    assert all[..|requests|] == requests;
    hide Serve;
    RunRemembers(mode, requests);
    SignInExact(mode, all, email, other);
    var answers := Run(mode, START, all).1;
    assert answers[..|requests|] == Run(mode, START, requests).1;
  }

  /** A key lets its bearer in only if that very secret was handed out. */
  lemma {:induction false} KeyWasMade(mode: Pruning, requests: seq<Request>, secret: Secret)
    ensures var (s, answers) := Run(mode, START, requests);
      Serve(mode, s, Present(Key(secret))).1.Admitted? ==> KeyMade(secret) in answers
  {
    RunRemembers(mode, requests);
    var (s, answers) := Run(mode, START, requests);
    hide Run, Inv, PasswordsRemembered, OneWayIn;
    KeyAdmitted(mode, s, secret);
  }

  lemma KeyAdmitted(mode: Pruning, s: Server, secret: Secret)
    ensures Serve(mode, s, Present(Key(secret))).1.Admitted? ==>
      var l := ApiKey(secret.prefix); l in s.tables.identities && s.tables.identities[l].secretHash == OfKey(secret)
  {
  }

  /**
   * A change of password goes through exactly when its token would be let in,
   * is a browser's, and the current password given is the one last set.
   */
  lemma {:induction false} ChangeExact(mode: Pruning, requests: seq<Request>, claims: Claims, current: string, password: string)
    ensures var (s, answers) := Run(mode, START, requests);
      && |answers| == |requests|
      && (Serve(mode, s, NewPassword(claims, current, password)).1.Done?
          <==> Serve(mode, s, Present(Bearer(claims))).1.Admitted? && claims.kind.Browser?
               && exists email :: Made(requests, answers, email, claims.sub) && PasswordOf(requests, answers, email) == Some(current))
  {
    RunRemembers(mode, requests);
    var (s, answers) := Run(mode, START, requests);
    hide Run, Inv, Remembers, PasswordOf, Made, ChangePassword;
    AuthenticatedContext(mode, s, Bearer(claims));
    ChangeAnswer(mode, s, claims, current, password);
    if s.tables.issued >= {claims} && claims.kind.Browser? && CredentialLive(s.tables, claims) {
      ChangeAsked(s.tables, requests, answers, claims, current, password);
    }
  }

  /** Asking for a change is presenting the token and then changing. */
  lemma ChangeAnswer(mode: Pruning, s: Server, claims: Claims, current: string, password: string)
    ensures Serve(mode, s, Present(Bearer(claims))).1.Admitted? ==>
      claims in s.tables.issued && CredentialLive(s.tables, claims)
    ensures Serve(mode, s, NewPassword(claims, current, password)).1.Done?
      <==> Serve(mode, s, Present(Bearer(claims))).1.Admitted? && ChangePassword(s.tables, BearerContext(claims), claims, current, password).1
    ensures ChangePassword(s.tables, BearerContext(claims), claims, current, password).1 ==> claims.kind.Browser?
  {
    hide CredentialLive, BearerContext;
    assert BearerContext(claims).authType.ByBrowser? ==> claims.kind.Browser? by { BearerType(claims); }
  }

  lemma BearerType(claims: Claims)
    ensures BearerContext(claims).authType.ByBrowser? <==> claims.kind.Browser?
  {
  }

  /** For a live browser token the current password decides. */
  lemma {:induction false} ChangeAsked(t: Tables, requests: seq<Request>, answers: seq<Answer>, claims: Claims, current: string, password: string)
    requires Inv(t) && Remembers(t, requests, answers)
    requires claims in t.issued && claims.kind.Browser? && CredentialLive(t, claims)
    ensures ChangePassword(t, BearerContext(claims), claims, current, password).1
      <==> exists email :: Made(requests, answers, email, claims.sub) && PasswordOf(requests, answers, email) == Some(current)
  {
    hide Numbered, KeysNarrow, TokensBacked, LedgersAgree, PasswordOf, Made, KeysRemembered;
    var l :| l in t.identities && SignsIn(l) && t.identities[l].tenant == claims.tenant && t.identities[l].user == claims.sub;
    assert claims.sub in t.users;
    var address := Password(t.users[claims.sub].email);
    assert address in t.identities && t.identities[address].user == claims.sub ==> address == l;
    var home := t.users[claims.sub].email;
    if ChangePassword(t, BearerContext(claims), claims, current, password).1 {
      assert Made(requests, answers, home, claims.sub) && PasswordOf(requests, answers, home) == Some(current);
    }
    if email :| Made(requests, answers, email, claims.sub) && PasswordOf(requests, answers, email) == Some(current) {
      assert t.identities[Password(email)].user == claims.sub && email == home;
    }
  }
}
