/** Runs of the server: requests in any order, each authenticated at its own clock reading. */
module AuthRun {
  import opened Wrappers
  import opened AuthTables
  import opened AuthInvariant
  import Scopes

  /** How the deny-list of signed-out tokens forgets: never, in the map on every use, or in the table on sign-out. */
  datatype Pruning = KeepAll | InMemory | InTable

  datatype Server = Server(tables: Tables, denied: map<nat, int>)

  datatype Presented = Bearer(claims: Claims) | Key(secret: Secret)

  // ---------------------------------------------------------------- the deny-list

  /** `forgetExpired` */
  function ForgetExpired(denied: map<nat, int>, now: int): map<nat, int>
  {
    map jti | jti in denied && denied[jti] > Seconds(now) :: denied[jti]
  }

  /** `revoke`, with the pruning each backend does there. */
  function Deny(mode: Pruning, denied: map<nat, int>, claims: Claims, now: int): map<nat, int>
  {
    match mode
    case KeepAll => denied[claims.jti := claims.exp]
    case InMemory => ForgetExpired(denied[claims.jti := claims.exp], now)
    case InTable =>
      if claims.jti in denied then denied
      else
        var rows := denied[claims.jti := claims.exp];
        map jti | jti in rows && rows[jti] * 1000 >= now :: rows[jti]
  }

  /** What `isRevoked` reads. */
  function OnRead(mode: Pruning, denied: map<nat, int>, now: int): map<nat, int>
  {
    if mode.InMemory? then ForgetExpired(denied, now) else denied
  }

  // ---------------------------------------------------------------- one request

  /** The guard: a key by its header, anything else by its bearer token. */
  function Authenticate(mode: Pruning, s: Server, who: Presented): (Server, Option<Context>)
  {
    match who
    case Key(secret) => (s, AuthenticateApiKey(s.tables, secret))
    case Bearer(claims) =>
      if !Verifies(s.tables, claims) then (s, None)
      else if claims.kind.Machine? then (s, if CredentialLive(s.tables, claims) then Some(BearerContext(claims)) else None)
      else
        var denied := OnRead(mode, s.denied, s.tables.now);
        (s.(denied := denied),
         if claims.jti !in denied && CredentialLive(s.tables, claims) then Some(BearerContext(claims)) else None)
  }

  datatype Request =
    | Tick(ms: nat)
    | SignUp(email: string, password: string)
    | SignIn(email: string, password: string)
    | ProviderSignIn(email: string, open: bool)
    | SignOut(claims: Claims)
    | Reset(email: string, password: string)
    | Present(who: Presented)
    | MakeKey(who: Presented, scopes: seq<string>, tail: nat)
    | DropKey(who: Presented, keyId: nat)
    | Exchange(who: Presented, vocabulary: seq<string>)
    | Enrol(who: Presented)
    | MintMachineToken(who: Presented, machineId: nat)
    | DropMachineTokens(who: Presented, machineId: nat)
    | Retire(who: Presented, machineId: nat)
    | NewPassword(claims: Claims, current: string, password: string)

  datatype Answer = Refused | Admitted(ctx: Context) | Token(claims: Claims) | KeyMade(secret: Secret) | Done

  function Caller(request: Request): Option<Presented>
  {
    match request
    case Present(who) => Some(who)
    case MakeKey(who, _, _) => Some(who)
    case DropKey(who, _) => Some(who)
    case Exchange(who, _) => Some(who)
    case Enrol(who) => Some(who)
    case MintMachineToken(who, _) => Some(who)
    case DropMachineTokens(who, _) => Some(who)
    case Retire(who, _) => Some(who)
    case NewPassword(claims, _, _) => Some(Bearer(claims))
    case _ => None
  }

  function TokenAnswer(claims: Option<Claims>): Answer { if claims.Some? then Token(claims.value) else Refused }

  /** A request anybody may make. */
  ghost function Open(t: Tables, request: Request): (Tables, Answer)
  {
    match request
    case Tick(ms) => (t.(now := t.now + ms), Done)
    case SignUp(email, password) => var (t', claims) := Register(t, email, password); (t', TokenAnswer(claims))
    case SignIn(email, password) => var (t', claims) := Login(t, email, password); (t', TokenAnswer(claims))
    case ProviderSignIn(email, open) => var (t', claims) := OAuthSignIn(t, email, open); (t', TokenAnswer(claims))
    case Reset(email, password) => var (t', ok) := ResetPassword(t, email, password); (t', if ok then Done else Refused)
    case _ => (t, Refused)
  }

  /** A request made as `ctx`. */
  function Act(t: Tables, ctx: Context, request: Request): (Tables, Answer)
  {
    match request
    case Present(_) => (t, Admitted(ctx))
    case MakeKey(_, scopes, tail) =>
      if !Admits(ctx, "keys:write") then (t, Refused)
      else var (t', secret) := CreateApiKey(t, ctx, scopes, tail); (t', if secret.Some? then KeyMade(secret.value) else Refused)
    case DropKey(_, keyId) =>
      if !Admits(ctx, "keys:write") then (t, Refused)
      else var (t', ok) := RevokeApiKey(t, ctx, keyId); (t', if ok then Done else Refused)
    case Exchange(_, vocabulary) => var (t', claims) := Handshake(t, vocabulary, ctx); (t', TokenAnswer(claims))
    case Enrol(_) =>
      if !Admits(ctx, "machines:write") then (t, Refused) else (EnrolMachine(t, ctx).0, Done)
    case MintMachineToken(_, machineId) =>
      if !Admits(ctx, "machines:write") then (t, Refused)
      else var (t', claims) := IssueMachineToken(t, ctx, machineId); (t', TokenAnswer(claims))
    case DropMachineTokens(_, machineId) =>
      if !Admits(ctx, "machines:write") || (ctx.tenant, machineId) !in t.machines then (t, Refused)
      else (RevokeMachineTokens(t, ctx.tenant, machineId).0, Done)
    case Retire(_, machineId) =>
      if !Admits(ctx, "machines:write") || (ctx.tenant, machineId) !in t.machines then (t, Refused)
      else (RetireMachine(t, ctx.tenant, machineId), Done)
    case NewPassword(claims, current, password) =>
      var (t', ok) := ChangePassword(t, ctx, claims, current, password); (t', if ok then Done else Refused)
    case _ => (t, Refused)
  }

  ghost function Serve(mode: Pruning, s: Server, request: Request): (Server, Answer)
  {
    if request.SignOut? then
      // `logout` answers the same whether or not there was a session to end.
      (if Verifies(s.tables, request.claims) && request.claims.kind.Browser?
       then s.(denied := Deny(mode, s.denied, request.claims, s.tables.now)) else s, Done)
    else if Caller(request).None? then
      var (t, answer) := Open(s.tables, request);
      (s.(tables := t), answer)
    else
      var (s', ctx) := Authenticate(mode, s, Caller(request).value);
      if ctx.None? then (s', Refused)
      else
        var (t, answer) := Act(s'.tables, ctx.value, request);
        (s'.(tables := t), answer)
  }

  ghost function Run(mode: Pruning, s: Server, requests: seq<Request>): (Server, seq<Answer>)
  {
    if |requests| == 0 then (s, [])
    else
      var (before, answers) := Run(mode, s, requests[..|requests| - 1]);
      var (after, answer) := Serve(mode, before, requests[|requests| - 1]);
      (after, answers + [answer])
  }

  // ---------------------------------------------------------------- the invariant along a run

  lemma AuthenticatedContext(mode: Pruning, s: Server, who: Presented)
    requires Inv(s.tables)
    ensures var (s', ctx) := Authenticate(mode, s, who);
      s'.tables == s.tables && (ctx.Some? ==> ContextOk(s.tables, ctx.value))
  {
    hide Numbered, LedgersAgree;
    var t := s.tables;
    var (_, ctx) := Authenticate(mode, s, who);
    if ctx.Some? {
      match who
      case Key(secret) =>
        assert KeyOf(t, ctx.value, ApiKey(secret.prefix));
      case Bearer(claims) =>
        assert TokenBacked(t, claims);
        if claims.kind.Mcp? {
          var l :| Exchanged(t, claims, l);
          assert forall x :: x in claims.scopes ==> x in t.identities[l].scopes;
        }
    }
  }

  lemma OpenKeeps(t: Tables, request: Request)
    requires Inv(t)
    ensures var t' := Open(t, request).0; Inv(t') && Extends(t, t')
  {
    hide Inv, Extends, Register, Login, OAuthSignIn, ResetPassword;
    ExtendsSelf(t);
    match request
    case Tick(ms) => LaterKeeps(t, t.now + ms, t.next, t.machines);
    case SignUp(email, password) => RegisterKeeps(t, email, password);
    case SignIn(email, password) => LoginKeeps(t, email, password);
    case ProviderSignIn(email, open) => OAuthKeeps(t, email, open);
    case Reset(email, password) => ResetPasswordKeeps(t, email, password);
    case _ =>
  }

  lemma ActKeeps(t: Tables, ctx: Context, request: Request)
    requires Inv(t) && ContextOk(t, ctx)
    requires request.NewPassword? ==> request.claims in t.issued
    ensures var t' := Act(t, ctx, request).0; Inv(t') && Extends(t, t')
  {
    hide Inv, Extends, ContextOk, Admits, CreateApiKey, RevokeApiKey, Handshake, EnrolMachine, IssueMachineToken, RevokeMachineTokens, RetireMachine, ChangePassword;
    ExtendsSelf(t);
    ContextUser(t, ctx);
    match request
    case MakeKey(_, scopes, tail) => if Admits(ctx, "keys:write") { AdmitsAccount(ctx, "keys:write"); CreateApiKeyKeeps(t, ctx, scopes, tail); }
    case DropKey(_, keyId) => RevokeApiKeyKeeps(t, ctx, keyId);
    case Exchange(_, vocabulary) => HandshakeKeeps(t, vocabulary, ctx);
    case Enrol(_) => EnrolKeeps(t, ctx);
    case MintMachineToken(_, machineId) => IssueMachineTokenKeeps(t, ctx, machineId);
    case DropMachineTokens(_, machineId) => RevokeMachineTokensKeeps(t, ctx.tenant, machineId);
    case Retire(_, machineId) => RetireKeeps(t, ctx.tenant, machineId);
    case NewPassword(claims, current, password) => ChangePasswordKeeps(t, ctx, claims, current, password);
    case _ =>
  }

  lemma ContextUser(t: Tables, ctx: Context)
    requires ContextOk(t, ctx)
    ensures ctx.user in t.users
  {
  }

  lemma AdmitsAccount(ctx: Context, scope: string)
    requires Admits(ctx, scope)
    ensures ctx.authType.ByBrowser? || ctx.authType.ByApiKey?
  {
  }

  lemma ServeKeeps(mode: Pruning, s: Server, request: Request)
    requires Inv(s.tables)
    ensures var s' := Serve(mode, s, request).0; Inv(s'.tables) && Extends(s.tables, s'.tables)
  {
    hide Inv, Extends, Open, Act, ContextOk;
    ExtendsSelf(s.tables);
    if request.SignOut? {
    } else if Caller(request).None? {
      OpenKeeps(s.tables, request);
    } else {
      AuthenticatedContext(mode, s, Caller(request).value);
      var (s', ctx) := Authenticate(mode, s, Caller(request).value);
      if ctx.Some? {
        ActKeeps(s'.tables, ctx.value, request);
      }
    }
  }

  /** Every run keeps the invariant and forgets nothing. */
  lemma {:induction false} RunKeeps(mode: Pruning, s: Server, requests: seq<Request>)
    requires Inv(s.tables)
    ensures var s' := Run(mode, s, requests).0; Inv(s'.tables) && Extends(s.tables, s'.tables)
  {
    hide Inv, Extends, Serve;
    if |requests| == 0 {
      ExtendsSelf(s.tables);
    } else {
      var earlier := requests[..|requests| - 1];
      RunKeeps(mode, s, earlier);
      var before := Run(mode, s, earlier).0;
      ServeKeeps(mode, before, requests[|requests| - 1]);
      ExtendsTrans(s.tables, before.tables, Run(mode, s, requests).0.tables);
    }
  }

  const START := Server(EMPTY, map[])

  /** Two ledgers, one truth, in every reachable state. */
  lemma {:induction false} LedgersNeverDisagree(mode: Pruning, requests: seq<Request>)
    ensures LedgersAgree(Run(mode, START, requests).0.tables)
  {
    EmptyInv();
    RunKeeps(mode, START, requests);
  }
}
