/** Who may make an account: an address is taken exactly once somebody signed up with it or came in by a provider under it. */
module AuthEntrances {
  import opened Wrappers
  import opened AuthTables
  import opened AuthInvariant
  import opened AuthRun
  import opened AuthHistory
  import Scopes

  /** Request `i` let somebody in under `email` for the first or another time, by sign-up or by provider. */
  predicate Enters(requests: seq<Request>, answers: seq<Answer>, i: nat, email: string)
  {
    && i < |requests| && i < |answers| && answers[i].Token?
    && ((requests[i].SignUp? && requests[i].email == email) || (requests[i].ProviderSignIn? && requests[i].email == email))
  }

  ghost predicate Taken(requests: seq<Request>, answers: seq<Answer>, email: string)
  {
    exists i: nat :: Enters(requests, answers, i, email)
  }

  /** The address has an identity to sign in with. */
  predicate HasEntrance(t: Tables, email: string)
  {
    Password(email) in t.identities || OAuth(email) in t.identities
  }

  ghost predicate EntrancesRemembered(t: Tables, requests: seq<Request>, answers: seq<Answer>)
  {
    forall email :: HasEntrance(t, email) <==> Taken(requests, answers, email)
  }

  ghost predicate SameEntrances(s: Tables, t: Tables)
  {
    forall email :: HasEntrance(s, email) <==> HasEntrance(t, email)
  }

  /** The same, and an entrance for one more address. */
  ghost predicate EntranceFor(s: Tables, t: Tables, email: string)
  {
    forall other :: HasEntrance(t, other) <==> HasEntrance(s, other) || other == email
  }

  // ---------------------------------------------------------------- one step

  /** Sign-up asks for an address without an entrance; a provider makes one while signup is open. */
  lemma SignUpEnters(t: Tables, email: string, password: string)
    requires Inv(t) && OneWayIn(t)
    ensures var (t', claims) := Register(t, email, password);
      && (claims.Some? <==> !HasEntrance(t, email))
      && (if claims.Some? then EntranceFor(t, t', email) else SameEntrances(t, t'))
  {
    Addresses(t, email);
    hide Inv, OneWayIn;
  }

  /** An address is a user's exactly when it has an entrance. */
  lemma Addresses(t: Tables, email: string)
    requires Inv(t) && OneWayIn(t)
    ensures (exists u :: u in t.users && t.users[u].email == email) <==> HasEntrance(t, email)
    ensures HasEntrance(t, email) <==> Live(t, Password(email)) || Live(t, OAuth(email))
  {
    hide Numbered, KeysNarrow, TokensBacked, LedgersAgree;
    if Password(email) in t.identities {
      assert t.identities[Password(email)].user in t.users;
    }
    if OAuth(email) in t.identities {
      assert t.identities[OAuth(email)].user in t.users;
    }
  }

  lemma ProviderEnters(t: Tables, email: string, open: bool)
    requires Inv(t) && OneWayIn(t)
    ensures var (t', claims) := OAuthSignIn(t, email, open);
      && (claims.Some? <==> open || HasEntrance(t, email))
      && (if claims.Some? then EntranceFor(t, t', email) else SameEntrances(t, t'))
  {
    Addresses(t, email);
    hide Inv, OneWayIn, UserFor;
  }

  lemma ResetEnters(t: Tables, email: string, password: string)
    ensures SameEntrances(t, ResetPassword(t, email, password).0)
  {
    hide TenantsOf, KeyRowsToRevoke, TokenRowsToRevoke, RevokeKeyRows, RevokeTokenRows, CredentialsOf;
  }

  lemma ActEnters(t: Tables, ctx: Context, request: Request)
    ensures SameEntrances(t, Act(t, ctx, request).0)
  {
    hide RevokeKeyRows, RevokeTokenRows, Scopes.AssertGrantable, Scopes.McpTokenScopes;
  }

  lemma EntersNext(requests: seq<Request>, answers: seq<Answer>, email: string)
    requires requests != [] && |requests| == |answers|
    ensures var n := |requests| - 1;
      Taken(requests, answers, email) <==> Taken(requests[..n], answers[..n], email) || Enters(requests, answers, n, email)
  {
    var n := |requests| - 1;
    if Taken(requests, answers, email) {
      var i: nat :| Enters(requests, answers, i, email);
      assert i < n ==> Enters(requests[..n], answers[..n], i, email);
    }
    if Taken(requests[..n], answers[..n], email) {
      var i: nat :| Enters(requests[..n], answers[..n], i, email);
      assert Enters(requests, answers, i, email);
    }
  }

  lemma StepRemembered(s: Tables, t: Tables, requests: seq<Request>, answers: seq<Answer>)
    requires requests != [] && |requests| == |answers|
    requires EntrancesRemembered(s, requests[..|requests| - 1], answers[..|requests| - 1])
    requires var n := |requests| - 1;
      if (requests[n].SignUp? || requests[n].ProviderSignIn?) && answers[n].Token? then EntranceFor(s, t, requests[n].email) else SameEntrances(s, t)
    ensures EntrancesRemembered(t, requests, answers)
  {
    hide HasEntrance, Taken;
    forall email ensures HasEntrance(t, email) <==> Taken(requests, answers, email) {
      EntersNext(requests, answers, email);
    }
  }

  lemma ServeEnters(mode: Pruning, s: Server, request: Request)
    requires Inv(s.tables) && OneWayIn(s.tables)
    ensures var (s', answer) := Serve(mode, s, request);
      if (request.SignUp? || request.ProviderSignIn?) && answer.Token? then EntranceFor(s.tables, s'.tables, request.email)
      else SameEntrances(s.tables, s'.tables)
  {
    hide Inv, OneWayIn, Open, Act, SameEntrances, EntranceFor, Deny;
    if request.SignOut? || (Caller(request).Some? && Authenticate(mode, s, Caller(request).value).1.None?) {
      Unmoved(mode, s, request);
      Still(s.tables);
    } else if Caller(request).None? {
      OpenEnters(s.tables, request);
    } else {
      Acted(mode, s, request);
      ActEnters(s.tables, Authenticate(mode, s, Caller(request).value).1.value, request);
    }
  }

  lemma Still(t: Tables)
    ensures SameEntrances(t, t)
  {
  }

  lemma OpenEnters(t: Tables, request: Request)
    requires Inv(t) && OneWayIn(t)
    ensures var (t', answer) := Open(t, request);
      if (request.SignUp? || request.ProviderSignIn?) && answer.Token? then EntranceFor(t, t', request.email) else SameEntrances(t, t')
  {
    hide Inv, OneWayIn, Register, OAuthSignIn, ResetPassword, EntranceFor;
    match request {
      case SignUp(email, password) => SignUpEnters(t, email, password);
      case ProviderSignIn(email, open) => ProviderEnters(t, email, open);
      case Reset(email, password) => ResetEnters(t, email, password);
      case _ =>
    }
  }

  // ---------------------------------------------------------------- runs

  lemma {:induction false} RunEntrances(mode: Pruning, requests: seq<Request>)
    ensures var (s, answers) := Run(mode, START, requests);
      |answers| == |requests| && Inv(s.tables) && OneWayIn(s.tables) && EntrancesRemembered(s.tables, requests, answers)
  {
    hide Inv, Serve, OneWayIn, EntrancesRemembered, PasswordsRemembered, KeysRemembered, SameEntrances, EntranceFor;
    RunRemembers(mode, requests);
    if requests == [] {
      NoneTaken();
    } else {
      var n := |requests| - 1;
      RunEntrances(mode, requests[..n]);
      var (s, answers) := Run(mode, START, requests);
      var (before, earlier) := Run(mode, START, requests[..n]);
      assert answers[..n] == earlier;
      ServeEnters(mode, before, requests[n]);
      StepRemembered(before.tables, s.tables, requests, answers);
    }
  }

  lemma NoneTaken()
    ensures EntrancesRemembered(START.tables, [], [])
  {
  }

  /** After any run a sign-up is answered with a token exactly when its address is not taken. */
  lemma {:induction false} SignUpExact(mode: Pruning, requests: seq<Request>, email: string, password: string)
    ensures var (s, answers) := Run(mode, START, requests);
      Serve(mode, s, SignUp(email, password)).1.Token? <==> !Taken(requests, answers, email)
  {
    RunEntrances(mode, requests);
    hide Run, Inv, OneWayIn, Taken;
    SignUpEnters(Run(mode, START, requests).0.tables, email, password);
  }

  /** And a provider's, exactly when it is, or signup is open. */
  lemma {:induction false} ProviderExact(mode: Pruning, requests: seq<Request>, email: string, open: bool)
    ensures var (s, answers) := Run(mode, START, requests);
      Serve(mode, s, ProviderSignIn(email, open)).1.Token? <==> open || Taken(requests, answers, email)
  {
    RunEntrances(mode, requests);
    hide Run, Inv, OneWayIn, Taken;
    ProviderEnters(Run(mode, START, requests).0.tables, email, open);
  }
}
