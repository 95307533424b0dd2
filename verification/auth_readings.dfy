/**
 * A bearer token authenticated over two readings of the clock, as the code does
 * it: one to verify the token, a later one to consult the deny-list. Other
 * requests may be served between the two.
 */
module AuthReadings {
  import opened Wrappers
  import opened AuthTables
  import opened AuthInvariant
  import opened AuthRun
  import opened AuthTheorems
  import Scopes

  /** Verified against `verified`, and looked up in `s`. */
  function AuthenticateAcross(mode: Pruning, verified: Tables, s: Server, claims: Claims): Option<Context>
  {
    if !Verifies(verified, claims) then None
    else if claims.kind.Machine? then (if CredentialLive(s.tables, claims) then Some(BearerContext(claims)) else None)
    else if claims.jti !in OnRead(mode, s.denied, s.tables.now) && CredentialLive(s.tables, claims) then Some(BearerContext(claims))
    else None
  }

  /** With one reading for both it is the guard. */
  lemma OneReading(mode: Pruning, s: Server, claims: Claims)
    ensures AuthenticateAcross(mode, s.tables, s, claims) == Authenticate(mode, s, Bearer(claims)).1
  {
    hide CredentialLive;
  }

  // ---------------------------------------------------------------- sign-outs of a run

  ghost function StateAt(mode: Pruning, requests: seq<Request>, i: nat): Server
    requires i <= |requests|
  {
    Run(mode, START, requests[..i]).0
  }

  /** Request `i` signs out a session of its caller's. */
  ghost predicate SignsOut(requests: seq<Request>, i: nat)
  {
    && i < |requests| && requests[i].SignOut? && requests[i].claims.kind.Browser?
    && Verifies(StateAt(KeepAll, requests, i).tables, requests[i].claims)
  }

  /** Some request of the run signs the session out. */
  ghost predicate SignedOut(requests: seq<Request>, jti: nat)
  {
    exists i: nat :: SignsOut(requests, i) && requests[i].claims.jti == jti
  }

  /** Some request signs another session out, for the first time, once the clock is past `exp`. */
  ghost predicate SweptPast(requests: seq<Request>, exp: int)
  {
    exists i: nat :: SweepsPast(requests, i, exp)
  }

  ghost predicate SweepsPast(requests: seq<Request>, i: nat, exp: int)
  {
    && SignsOut(requests, i) && !SignedOut(requests[..i], requests[i].claims.jti)
    && exp * 1000 < StateAt(KeepAll, requests, i).tables.now
  }

  lemma Earlier(requests: seq<Request>, n: nat, i: nat)
    requires n <= |requests|
    ensures SignsOut(requests[..n], i) <==> SignsOut(requests, i) && i < n
    ensures i < n ==> requests[..n][..i] == requests[..i]
  {
    hide Run;
    if i < n {
      assert requests[..n][..i] == requests[..i];
    }
  }

  /** What the last request adds. */
  lemma OneMoreRequest(requests: seq<Request>, jti: nat, exp: int)
    requires requests != []
    ensures var n := |requests| - 1;
      && (SignedOut(requests, jti) <==> SignedOut(requests[..n], jti) || (SignsOut(requests, n) && requests[n].claims.jti == jti))
      && (SweptPast(requests, exp) <==> SweptPast(requests[..n], exp) || SweepsPast(requests, n, exp))
  {
    hide SignsOut, Run;
    var n := |requests| - 1;
    forall i: nat
      ensures SignsOut(requests[..n], i) <==> SignsOut(requests, i) && i < n
      ensures i < n ==> requests[..n][..i] == requests[..i]
    {
      Earlier(requests, n, i);
    }
    OnlyRequests(requests);
    SignedOneMore(requests, jti);
    SweptOneMore(requests, exp);
  }

  lemma OnlyRequests(requests: seq<Request>)
    ensures forall i: nat :: SignsOut(requests, i) ==> i < |requests| && requests[i].SignOut?
  {
  }

  lemma SignedOneMore(requests: seq<Request>, jti: nat)
    requires requests != []
    requires forall i: nat :: SignsOut(requests, i) ==> i < |requests| && requests[i].SignOut?
    requires forall i: nat :: SignsOut(requests[..|requests| - 1], i) <==> SignsOut(requests, i) && i < |requests| - 1
    ensures var n := |requests| - 1;
      SignedOut(requests, jti) <==> SignedOut(requests[..n], jti) || (SignsOut(requests, n) && requests[n].claims.jti == jti)
  {
    hide SignsOut;
    var n := |requests| - 1;
    if SignedOut(requests, jti) {
      var i: nat :| SignsOut(requests, i) && requests[i].claims.jti == jti;
      assert i < n ==> SignsOut(requests[..n], i);
    }
    if SignedOut(requests[..n], jti) {
      OnlyRequests(requests[..n]);
      var i: nat :| SignsOut(requests[..n], i) && requests[..n][i].claims.jti == jti;
      assert SignsOut(requests, i);
    }
  }

  lemma SweptOneMore(requests: seq<Request>, exp: int)
    requires requests != []
    ensures var n := |requests| - 1;
      SweptPast(requests, exp) <==> SweptPast(requests[..n], exp) || SweepsPast(requests, n, exp)
  {
    hide SweepsPast;
    var n := |requests| - 1;
    if SweptPast(requests, exp) {
      var i: nat :| SweepsPast(requests, i, exp);
      SweepAlike(requests, i, exp);
    }
    if SweptPast(requests[..n], exp) {
      var i: nat :| SweepsPast(requests[..n], i, exp);
      SweepAlike(requests, i, exp);
    }
  }

  lemma SweepAlike(requests: seq<Request>, i: nat, exp: int)
    requires requests != []
    ensures var n := |requests| - 1;
      && (SweepsPast(requests, i, exp) ==> i <= n)
      && (SweepsPast(requests[..n], i, exp) <==> SweepsPast(requests, i, exp) && i < n)
  {
    hide Run, SignedOut;
    var n := |requests| - 1;
    Earlier(requests, n, i);
  }

  /** The tables and the clock at an earlier place of a run. */
  lemma {:induction false} StateGrows(mode: Pruning, requests: seq<Request>, i: nat)
    requires i <= |requests|
    ensures Inv(Run(mode, START, requests[..i]).0.tables)
    ensures Extends(Run(mode, START, requests[..i]).0.tables, Run(mode, START, requests).0.tables)
  {
    hide Inv, Extends, Run;
    assert requests == requests[..i] + requests[i..];
    RunConcat(mode, START, requests[..i], requests[i..]);
    EmptyInv();
    RunKeeps(mode, START, requests[..i]);
    RunKeeps(mode, Run(mode, START, requests[..i]).0, requests[i..]);
  }

  /** Only a sign-out writes the deny-list, when reading it prunes nothing. */
  lemma ServeDenied(mode: Pruning, s: Server, request: Request)
    requires !mode.InMemory?
    ensures Serve(mode, s, request).0.denied
      == if request.SignOut? && Verifies(s.tables, request.claims) && request.claims.kind.Browser?
         then Deny(mode, s.denied, request.claims, s.tables.now) else s.denied
    ensures request.SignOut? ==> Serve(mode, s, request).0.tables == s.tables
  {
    hide Open, Act, CredentialLive, AuthenticateApiKey, Deny, Verifies;
  }

  /** A list that never forgets holds exactly what the run signed out. */
  lemma {:induction false} KeptIsSignedOut(requests: seq<Request>, jti: nat)
    ensures jti in Run(KeepAll, START, requests).0.denied <==> SignedOut(requests, jti)
  {
    hide Serve, SignedOut, SweptPast, SweepsPast;
    if requests == [] {
      NoneSignedOut(jti);
    } else {
      var n := |requests| - 1;
      KeptIsSignedOut(requests[..n], jti);
      OneMoreRequest(requests, jti, 0);
      ServeDenied(KeepAll, Run(KeepAll, START, requests[..n]).0, requests[n]);
    }
  }

  lemma NoneSignedOut(jti: nat)
    ensures !SignedOut([], jti)
  {
  }

  // ---------------------------------------------------------------- what the table backend still holds

  /** A row of the deny-list table is there from the sign-out until another session's first sign-out past its expiry. */
  lemma {:induction false} TableHolds(requests: seq<Request>, claims: Claims)
    requires claims in Run(InTable, START, requests).0.tables.issued
    ensures claims.jti in Run(InTable, START, requests).0.denied
      <==> SignedOut(requests, claims.jti) && !SweptPast(requests, claims.exp)
  {
    hide *;
    if requests == [] {
      StartsEmpty(InTable);
    } else {
      var n := |requests| - 1;
      var before := Run(InTable, START, requests[..n]).0;
      LastServed(InTable, requests);
      ServeDenied(InTable, before, requests[n]);
      if claims in before.tables.issued {
        TableHolds(requests[..n], claims);
        OneMoreRequest(requests, claims.jti, claims.exp);
        TableStep(requests, claims);
      } else {
        NotYetIssued(requests, claims);
      }
    }
  }

  lemma {:induction false} StartsEmpty(mode: Pruning)
    ensures Run(mode, START, []).0 == START && START.tables.issued == {} && START.denied == map[]
  {
  }

  lemma {:induction false} LastServed(mode: Pruning, requests: seq<Request>)
    requires requests != []
    ensures var n := |requests| - 1;
      Run(mode, START, requests).0 == Serve(mode, Run(mode, START, requests[..n]).0, requests[n]).0
  {
    hide Serve;
  }

  /** A token issued by the last request is in no list and signed out by none. */
  lemma {:induction false} NotYetIssued(requests: seq<Request>, claims: Claims)
    requires requests != []
    requires var n := |requests| - 1;
      claims !in Run(InTable, START, requests[..n]).0.tables.issued && claims in Run(InTable, START, requests).0.tables.issued
    ensures claims.jti !in Run(InTable, START, requests).0.denied && !SignedOut(requests, claims.jti)
  {
    hide *;
    var n := |requests| - 1;
    var before := Run(InTable, START, requests[..n]).0;
    LastServed(InTable, requests);
    ServeDenied(InTable, before, requests[n]);
    RunAlike(InTable, requests[..n]);
    StateGrows(InTable, requests, n);
    TooNew(before, Run(KeepAll, START, requests[..n]).0, Run(InTable, START, requests).0.tables, claims);
    KeptIsSignedOut(requests[..n], claims.jti);
    OneMoreRequest(requests, claims.jti, 0);
    OnlyRequests(requests);
  }

  lemma TooNew(pruned: Server, kept: Server, later: Tables, claims: Claims)
    requires Alike(pruned, kept) && Extends(pruned.tables, later)
    requires claims !in pruned.tables.issued && claims in later.issued
    ensures claims.jti !in pruned.denied && claims.jti !in kept.denied
  {
  }

  lemma {:induction false} TableStep(requests: seq<Request>, claims: Claims)
    requires requests != []
    requires var n := |requests| - 1;
      && claims in Run(InTable, START, requests[..n]).0.tables.issued
      && (claims.jti in Run(InTable, START, requests[..n]).0.denied
          <==> SignedOut(requests[..n], claims.jti) && !SweptPast(requests[..n], claims.exp))
    ensures var n := |requests| - 1;
      claims.jti in Run(InTable, START, requests).0.denied
      <==> (SignedOut(requests[..n], claims.jti) || (SignsOut(requests, n) && requests[n].claims.jti == claims.jti))
           && !(SweptPast(requests[..n], claims.exp) || SweepsPast(requests, n, claims.exp))
  {
    hide *;
    var n := |requests| - 1;
    var before, kept := Run(InTable, START, requests[..n]).0, Run(KeepAll, START, requests[..n]).0;
    LastServed(InTable, requests);
    ServeDenied(InTable, before, requests[n]);
    RunAlike(InTable, requests[..n]);
    StateGrows(KeepAll, requests, n);
    AlikeTables(before, kept);
    SignsOutIs(requests, n);
    if SignsOut(requests, n) {
      var c := requests[n].claims;
      KeptIsSignedOut(requests[..n], c.jti);
      SweepsPastIs(requests, n, claims.exp);
      DenyExact(before, kept, c, claims);
      if c.jti == claims.jti {
        NotSweptBefore(requests, claims);
      }
    } else {
      SweepsPastIs(requests, n, claims.exp);
    }
  }

  lemma SignsOutIs(requests: seq<Request>, n: nat)
    requires n < |requests|
    ensures SignsOut(requests, n) <==>
      && requests[n].SignOut? && requests[n].claims.kind.Browser?
      && Verifies(Run(KeepAll, START, requests[..n]).0.tables, requests[n].claims)
  {
    hide Run, Verifies;
  }

  lemma SweepsPastIs(requests: seq<Request>, n: nat, exp: int)
    requires n < |requests|
    ensures SweepsPast(requests, n, exp) <==>
      && SignsOut(requests, n) && !SignedOut(requests[..n], requests[n].claims.jti)
      && exp * 1000 < Run(KeepAll, START, requests[..n]).0.tables.now
  {
    hide Run, SignsOut, SignedOut;
    OnlyRequests(requests);
  }

  /** One sign-out on the table: what becomes of the row of `claims`. */
  lemma DenyExact(before: Server, kept: Server, c: Claims, claims: Claims)
    requires Alike(before, kept) && Inv(kept.tables)
    requires Verifies(kept.tables, c) && claims in kept.tables.issued
    ensures c.jti in before.denied <==> c.jti in kept.denied
    ensures c.jti == claims.jti ==> c == claims && claims.jti in Deny(InTable, before.denied, c, kept.tables.now)
    ensures c.jti != claims.jti ==>
      (claims.jti in Deny(InTable, before.denied, c, kept.tables.now)
       <==> claims.jti in before.denied && !(c.jti !in kept.denied && claims.exp * 1000 < kept.tables.now))
  {
    hide KeysNarrow, TokensBacked, LedgersAgree, Owned;
  }

  /** No sweep passed the expiry of a token that still verifies. */
  lemma NotSweptBefore(requests: seq<Request>, claims: Claims)
    requires requests != []
    requires Verifies(Run(KeepAll, START, requests[..|requests| - 1]).0.tables, claims)
    ensures var n := |requests| - 1; !SweptPast(requests[..n], claims.exp) && !SweepsPast(requests, n, claims.exp)
  {
    var n := |requests| - 1;
    var now := Run(KeepAll, START, requests[..n]).0.tables.now;
    assert now < claims.exp * 1000;
    hide *;
    SweepsPastIs(requests, n, claims.exp);
    forall i: nat ensures !SweepsPast(requests[..n], i, claims.exp) {
      if i < n {
        SweepsPastIs(requests[..n], i, claims.exp);
        StateGrows(KeepAll, requests[..n], i);
        ClockGrows(Run(KeepAll, START, requests[..n][..i]).0.tables, Run(KeepAll, START, requests[..n]).0.tables);
      } else {
        Beyond(requests[..n], i, claims.exp);
      }
    }
    Unswept(requests[..n], claims.exp);
  }

  lemma Beyond(requests: seq<Request>, i: nat, exp: int)
    requires i >= |requests|
    ensures !SweepsPast(requests, i, exp)
  {
  }

  lemma Unswept(requests: seq<Request>, exp: int)
    requires forall i: nat :: !SweepsPast(requests, i, exp)
    ensures !SweptPast(requests, exp)
  {
  }

  lemma ClockGrows(s: Tables, t: Tables)
    requires Extends(s, t)
    ensures s.now <= t.now
  {
  }

  // ---------------------------------------------------------------- what two readings change

  /** When the answer for a token of a run is not that of a list that never forgets. */
  lemma {:induction false} AcrossExact(mode: Pruning, before: seq<Request>, between: seq<Request>, claims: Claims)
    ensures var verified := Run(mode, START, before).0.tables;
      var s, kept := Run(mode, START, before + between).0, Run(KeepAll, START, before + between).0;
      && kept.tables == s.tables
      && (AuthenticateAcross(mode, verified, s, claims) != AuthenticateAcross(KeepAll, verified, kept, claims)
          <==> Verifies(verified, claims) && !claims.kind.Machine? && CredentialLive(s.tables, claims)
               && SignedOut(before + between, claims.jti) && claims.jti !in OnRead(mode, s.denied, s.tables.now))
      && (Verifies(verified, claims) ==> claims in s.tables.issued)
  {
    hide Run, Alike, CredentialLive, SignedOut, Inv, Seconds, OnRead;
    var all := before + between;
    RunAlike(mode, all);
    AlikeTables(Run(mode, START, all).0, Run(KeepAll, START, all).0);
    KeptIsSignedOut(all, claims.jti);
    PrunedOnly(mode, Run(mode, START, all).0, Run(KeepAll, START, all).0);
    assert all[..|before|] == before;
    StateGrows(mode, all, |before|);
    hide Verifies;
    IssuedStays(Run(mode, START, before).0.tables, Run(mode, START, all).0.tables, claims);
  }

  lemma PrunedOnly(mode: Pruning, s: Server, kept: Server)
    requires Alike(s, kept)
    ensures forall j :: j in OnRead(mode, s.denied, s.tables.now) ==> j in kept.denied
    ensures OnRead(KeepAll, kept.denied, kept.tables.now) == kept.denied
  {
  }

  lemma IssuedStays(s: Tables, t: Tables, claims: Claims)
    requires Extends(s, t)
    ensures Verifies(s, claims) ==> claims in t.issued
  {
  }

  /**
   * The map backend, which prunes as it reads: a token that verified is let in
   * though the run signed it out exactly when it expires between the readings.
   */
  lemma {:induction false} InMemoryExact(before: seq<Request>, between: seq<Request>, claims: Claims)
    ensures var verified := Run(InMemory, START, before).0.tables;
      var s, kept := Run(InMemory, START, before + between).0, Run(KeepAll, START, before + between).0;
      AuthenticateAcross(InMemory, verified, s, claims) != AuthenticateAcross(KeepAll, verified, kept, claims)
      <==> Verifies(verified, claims) && !claims.kind.Machine? && CredentialLive(s.tables, claims)
           && SignedOut(before + between, claims.jti) && claims.exp <= Seconds(s.tables.now)
  {
    hide *;
    var all := before + between;
    var s, kept := Run(InMemory, START, all).0, Run(KeepAll, START, all).0;
    AcrossExact(InMemory, before, between, claims);
    RunAlike(InMemory, all);
    KeptIsSignedOut(all, claims.jti);
    if claims in s.tables.issued {
      ForgottenInMemory(s, kept, claims);
    }
  }

  lemma ForgottenInMemory(s: Server, kept: Server, claims: Claims)
    requires Alike(s, kept) && claims in s.tables.issued
    ensures claims.jti in kept.denied ==> (claims.jti !in OnRead(InMemory, s.denied, s.tables.now) <==> claims.exp <= Seconds(s.tables.now))
  {
  }

  /**
   * The table backend, which prunes when a session is signed out: exactly when,
   * besides, another session's first sign-out came after the expiry.
   */
  lemma {:induction false} InTableExact(before: seq<Request>, between: seq<Request>, claims: Claims)
    ensures var verified := Run(InTable, START, before).0.tables;
      var s, kept := Run(InTable, START, before + between).0, Run(KeepAll, START, before + between).0;
      AuthenticateAcross(InTable, verified, s, claims) != AuthenticateAcross(KeepAll, verified, kept, claims)
      <==> Verifies(verified, claims) && !claims.kind.Machine? && CredentialLive(s.tables, claims)
           && SignedOut(before + between, claims.jti) && SweptPast(before + between, claims.exp)
  {
    hide *;
    var all := before + between;
    var s := Run(InTable, START, all).0;
    AcrossExact(InTable, before, between, claims);
    TableReads(s);
    if claims in s.tables.issued {
      TableHolds(all, claims);
    }
  }

  lemma TableReads(s: Server)
    ensures OnRead(InTable, s.denied, s.tables.now) == s.denied
  {
  }

  // ---------------------------------------------------------------- an instance

  /** The token of the first account ever made. */
  function FirstToken(): Claims
  {
    Claims(3, 0, 1, Scopes.PASSWORD_SCOPES, Browser, 0, HOUR, None, None)
  }

  lemma FirstAccount(email: string, password: string, now: int)
    ensures var t := Register(EMPTY, email, password).0;
      t.now == 0 && FirstToken() in t.issued && CredentialLive(t.(now := now), FirstToken())
  {
    var t := Register(EMPTY, email, password).0;
    assert FirstToken() in t.issued;
    assert Password(email) in t.identities;
  }

  lemma {:induction false} Then(mode: Pruning, requests: seq<Request>, r: Request)
    ensures Run(mode, START, requests + [r]).0 == Serve(mode, Run(mode, START, requests).0, r).0
  {
    hide Serve;
    assert (requests + [r])[..|requests|] == requests;
  }

  /** The account made, its session signed out, and some time later. */
  lemma OutAndLater(email: string, password: string, ms: nat)
    ensures var s := Run(InMemory, START, [SignUp(email, password), SignOut(FirstToken()), Tick(ms)]).0;
      s.tables == Register(EMPTY, email, password).0.(now := ms) && s.denied == map[3 := HOUR]
    ensures SignedOut([SignUp(email, password), SignOut(FirstToken()), Tick(ms)], 3)
  {
    var up, out := SignUp(email, password), SignOut(FirstToken());
    FirstAccount(email, password, 0);
    var requests := [up, out, Tick(ms)];
    assert [] + [up] == [up] == requests[..1] && [up] + [out] == [up, out] && [up, out] + [Tick(ms)] == requests;
    hide Register, Run;
    StartsEmpty(InMemory);
    StartsEmpty(KeepAll);
    Then(InMemory, [], up);
    Then(KeepAll, [], up);
    Then(InMemory, [up], out);
    Then(InMemory, [up, out], Tick(ms));
    assert SignsOut(requests, 1);
  }

  /** A session signed out, verified in its last millisecond and looked up one millisecond later, is let in. */
  lemma SlipsThrough(email: string, password: string)
    ensures var before := [SignUp(email, password), SignOut(FirstToken()), Tick(HOUR * 1000 - 1)];
      var verified, s := Run(InMemory, START, before).0.tables, Run(InMemory, START, before + [Tick(1)]).0;
      && SignedOut(before, FirstToken().jti)
      && AuthenticateAcross(InMemory, verified, s, FirstToken()) == Some(BearerContext(FirstToken()))
  {
    var before := [SignUp(email, password), SignOut(FirstToken()), Tick(HOUR * 1000 - 1)];
    OutAndLater(email, password, HOUR * 1000 - 1);
    FirstAccount(email, password, HOUR * 1000);
    hide Register, Run, CredentialLive, SignedOut;
    Then(InMemory, before, Tick(1));
  }
}
