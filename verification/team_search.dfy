/** A team search: one leg per member tenant, then one fusion over all of them. */
module TeamSearch {
  import opened Wrappers
  import opened Fusion
  import WorkerPool

  datatype Mode = Hybrid | Lexical | Semantic

  datatype SemanticAnswer = Found(list: seq<Candidate>) | Broken(message: string)

  /** What one tenant's two backends answer; no lexical answer is a rejection. */
  datatype Answer = Answer(lexical: Option<seq<Candidate>>, semantic: SemanticAnswer)

  datatype Leg = Leg(lexical: seq<Candidate>, semantic: Option<seq<Candidate>>, failure: Option<string>)

  datatype Page = Page(candidates: seq<Scored>, realized: Mode, failure: Option<string>)

  datatype Outcome = Refused | Rejected | Answered(page: Page)

  const MAX_TENANTS := 25
  const CONCURRENCY := 4

  function RunLeg(mode: Mode, answer: Answer): Option<Leg>
  {
    if answer.lexical.None? then None
    else if mode.Lexical? then Some(Leg(answer.lexical.value, None, None))
    else match answer.semantic
      case Found(list) => Some(Leg(answer.lexical.value, Some(list), None))
      case Broken(message) => Some(Leg(answer.lexical.value, None, Some(message)))
  }

  /** The first message that is not empty; an empty one counts for nothing. */
  function Failure(legs: seq<Leg>): (f: Option<string>)
    ensures f.Some? <==> exists l :: l in legs && l.failure.Some? && l.failure.value != ""
    ensures f.Some? ==> f.value != ""
  {
    if legs == [] then None
    else if legs[0].failure.Some? && legs[0].failure.value != "" then legs[0].failure
    else
      assert legs == [legs[0]] + legs[1..];
      Failure(legs[1..])
  }

  function Realized(mode: Mode, legs: seq<Leg>): Mode
  {
    if mode.Lexical? || Failure(legs).Some? then Lexical else mode
  }

  function OrEmpty(list: Option<seq<Candidate>>): seq<Candidate>
  {
    if list.Some? then list.value else []
  }

  function LegLists(realized: Mode, leg: Leg): seq<seq<Candidate>>
  {
    match realized
    case Lexical => [leg.lexical]
    case Semantic => [OrEmpty(leg.semantic)]
    case Hybrid => [leg.lexical, OrEmpty(leg.semantic)]
  }

  function Lists(realized: Mode, legs: seq<Leg>): seq<seq<Candidate>>
  {
    if legs == [] then [] else LegLists(realized, legs[0]) + Lists(realized, legs[1..])
  }

  /** The legs in tenant order, unless one rejects. */
  function Legs(mode: Mode, answers: seq<Answer>): (r: Option<seq<Leg>>)
    ensures r.Some? <==> forall i :: 0 <= i < |answers| ==> answers[i].lexical.Some?
    ensures r.Some? ==> |r.value| == |answers| && forall i :: 0 <= i < |answers| ==> Some(r.value[i]) == RunLeg(mode, answers[i])
  {
    if answers == [] then Some([])
    else
      var rest := Legs(mode, answers[1..]);
      assert forall i :: 1 <= i < |answers| ==> answers[1..][i - 1] == answers[i];
      match RunLeg(mode, answers[0])
      case None => None
      case Some(leg) => if rest.None? then None else Some([leg] + rest.value)
  }

  ghost predicate IsPage(mode: Mode, legs: seq<Leg>, limit: nat, page: Page)
  {
    && page.realized == Realized(mode, legs)
    && page.failure == Failure(legs)
    && exists whole :: IsFusion(Lists(page.realized, legs), whole) && page.candidates == FirstOf(whole, limit)
  }

  function FirstOf(whole: seq<Scored>, limit: nat): seq<Scored>
  {
    if limit <= |whole| then whole[..limit] else whole
  }

  method Execute(answers: seq<Answer>, mode: Mode, limit: nat) returns (r: Outcome)
    ensures r.Refused? <==> |answers| > MAX_TENANTS
    ensures |answers| <= MAX_TENANTS ==> (r.Rejected? <==> exists i :: 0 <= i < |answers| && answers[i].lexical.None?)
    ensures r.Answered? ==> Legs(mode, answers).Some? && IsPage(mode, Legs(mode, answers).value, limit, r.page)
  {
    if |answers| > MAX_TENANTS { return Refused; }
    var legs := Legs(mode, answers);
    if legs.None? { return Rejected; }
    var realized := Realized(mode, legs.value);
    var whole := Fuse(Lists(realized, legs.value));
    return Answered(Page(FirstOf(whole, limit), realized, Failure(legs.value)));
  }

  // ---------------------------------------------------------------- the fan-out

  /** However the four workers interleave, the fan-out yields the legs in tenant order, or rejects. */
  lemma {:induction false} FanOut(schedule: seq<nat>, mode: Mode, answers: seq<Answer>, run: Answer -> Option<Leg>)
    requires forall a :: run(a) == RunLeg(mode, a)
    requires WorkerPool.Possible(WorkerPool.Start(|answers|, CONCURRENCY), schedule, answers, run)
    requires WorkerPool.Stopped(WorkerPool.After(WorkerPool.Start(|answers|, CONCURRENCY), schedule, answers, run))
    ensures var pool := WorkerPool.After(WorkerPool.Start(|answers|, CONCURRENCY), schedule, answers, run);
      match Legs(mode, answers)
      case None => WorkerPool.Outcome(pool).None?
      case Some(legs) => WorkerPool.Outcome(pool) == Some(seq(|legs|, i requires 0 <= i < |legs| => Some(legs[i])))
  {
    assert CONCURRENCY >= 1;
    hide WorkerPool.Possible, WorkerPool.After, WorkerPool.Outcome, WorkerPool.Start, WorkerPool.Stopped, Legs;
    WorkerPool.EveryInterleaving(schedule, answers, CONCURRENCY, run);
    if Legs(mode, answers).None? {
      var i :| 0 <= i < |answers| && answers[i].lexical.None?;
      assert run(answers[i]).None?;
    } else {
      var legs := Legs(mode, answers).value;
      assert forall i :: 0 <= i < |answers| ==> run(answers[i]) == Some(legs[i]);
      var pool := WorkerPool.After(WorkerPool.Start(|answers|, CONCURRENCY), schedule, answers, run);
      assert WorkerPool.Outcome(pool).value == seq(|legs|, i requires 0 <= i < |legs| => Some(legs[i]));
    }
  }

  // ---------------------------------------------------------------- the order of the tenants

  lemma {:induction false} ListsConcat(realized: Mode, xs: seq<Leg>, ys: seq<Leg>)
    ensures Lists(realized, xs + ys) == Lists(realized, xs) + Lists(realized, ys)
  {
    if xs == [] {
      assert xs + ys == ys;
    } else {
      assert (xs + ys)[1..] == xs[1..] + ys;
      ListsConcat(realized, xs[1..], ys);
    }
  }

  lemma {:induction false} ListsBy(realized: Mode, legs: seq<Leg>, k: nat)
    requires k < |legs|
    ensures multiset(Lists(realized, legs)) == multiset(Lists(realized, legs[..k] + legs[k + 1..])) + multiset(LegLists(realized, legs[k]))
  {
    hide LegLists;
    var one := [legs[k]];
    assert legs == (legs[..k] + one) + legs[k + 1..];
    assert one[1..] == [] && Lists(realized, one) == LegLists(realized, legs[k]);
    hide Lists;
    ListsConcat(realized, legs[..k] + one, legs[k + 1..]);
    ListsConcat(realized, legs[..k], one);
    ListsConcat(realized, legs[..k], legs[k + 1..]);
  }

  lemma {:induction false} ListsOf(realized: Mode, xs: seq<Leg>, ys: seq<Leg>)
    requires multiset(xs) == multiset(ys)
    ensures multiset(Lists(realized, xs)) == multiset(Lists(realized, ys))
  {
    if xs == [] {
      assert |multiset(ys)| == 0;
    } else {
      var n := |xs| - 1;
      assert xs[n] in multiset(ys);
      var k :| 0 <= k < |ys| && ys[k] == xs[n];
      Remainder(xs, ys, k);
      ListsBy(realized, xs, n);
      ListsBy(realized, ys, k);
      assert xs[..n] + xs[n + 1..] == xs[..n];
      ListsOf(realized, xs[..n], ys[..k] + ys[k + 1..]);
    }
  }

  lemma {:induction false} FailureOf(xs: seq<Leg>, ys: seq<Leg>)
    requires multiset(xs) == multiset(ys)
    ensures Failure(xs).Some? <==> Failure(ys).Some?
  {
    assert forall l :: l in xs <==> l in multiset(xs);
    assert forall l :: l in ys <==> l in multiset(ys);
  }

  /** The mode realized, and the ids and scores shown, do not depend on the order of the tenants; the message shown may. */
  lemma TenantOrderFree(mode: Mode, xs: seq<Leg>, ys: seq<Leg>, limit: nat, p: Page, q: Page)
    requires multiset(xs) == multiset(ys)
    requires IsPage(mode, xs, limit, p) && IsPage(mode, ys, limit, q)
    ensures p.realized == q.realized
    ensures p.failure.Some? <==> q.failure.Some?
    ensures Marks(p.candidates) == Marks(q.candidates)
  {
    hide IsFusion, Lists, Failure, Marks, FirstOf;
    FailureOf(xs, ys);
    ListsOf(p.realized, xs, ys);
    var a :| IsFusion(Lists(p.realized, xs), a) && p.candidates == FirstOf(a, limit);
    var b :| IsFusion(Lists(q.realized, ys), b) && q.candidates == FirstOf(b, limit);
    ListOrderFree(Lists(p.realized, xs), Lists(q.realized, ys), a, b);
    FirstMarks(a, b, limit);
  }

  lemma FirstMarks(a: seq<Scored>, b: seq<Scored>, limit: nat)
    requires Marks(a) == Marks(b)
    ensures Marks(FirstOf(a, limit)) == Marks(FirstOf(b, limit))
  {
    assert |a| == |Marks(a)| == |b|;
    forall i | 0 <= i < |FirstOf(a, limit)| ensures Marks(FirstOf(a, limit))[i] == Marks(FirstOf(b, limit))[i] {
      assert Marks(a)[i] == Marks(b)[i];
    }
  }

  // ---------------------------------------------------------------- one ranking regime

  /** No tenant is ranked by a regime the page does not name. */
  predicate OneRegime(realized: Mode, legs: seq<Leg>)
  {
    realized.Lexical? || forall l :: l in legs ==> l.semantic.Some?
  }

  /** A tenant whose semantic backend failed with an empty message. */
  predicate Silent(answer: Answer) { answer.semantic == Broken("") }

  predicate Loud(answer: Answer) { answer.semantic.Broken? && answer.semantic.message != "" }

  /** The page is one regime unless a tenant fails silently and none fails loudly. */
  lemma {:induction false} OneRegimeExact(mode: Mode, answers: seq<Answer>)
    requires Legs(mode, answers).Some?
    ensures var legs := Legs(mode, answers).value;
      OneRegime(Realized(mode, legs), legs)
      <==> mode.Lexical? || (exists a :: a in answers && Loud(a)) || (forall a :: a in answers ==> !Silent(a))
  {
    var legs := Legs(mode, answers).value;
    if !mode.Lexical? {
      if exists a :: a in answers && Loud(a) {
        var i :| 0 <= i < |answers| && Loud(answers[i]);
        assert legs[i] in legs && legs[i].failure.Some? && legs[i].failure.value != "";
      } else {
        forall l | l in legs ensures l.failure.Some? ==> l.failure.value == "" {
          var i :| 0 <= i < |legs| && legs[i] == l;
          assert answers[i] in answers;
        }
        if exists a :: a in answers && Silent(a) {
          var i :| 0 <= i < |answers| && Silent(answers[i]);
          assert legs[i] in legs && legs[i].semantic.None?;
        } else {
          forall l | l in legs ensures l.semantic.Some? {
            var i :| 0 <= i < |legs| && legs[i] == l;
            assert answers[i] in answers;
          }
        }
      }
    }
  }

  /** One tenant fails with an empty message: the page says hybrid, reports nothing, and ranks that tenant lexically. */
  lemma SilentTenant(list: seq<Candidate>, other: seq<Candidate>)
    ensures var answers := [Answer(Some(list), Broken("")), Answer(Some(other), Found(other))];
      var legs := Legs(Hybrid, answers);
      && legs.Some? && Failure(legs.value).None?
      && Realized(Hybrid, legs.value) == Hybrid && !OneRegime(Hybrid, legs.value)
  {
    var answers := [Answer(Some(list), Broken("")), Answer(Some(other), Found(other))];
    assert Silent(answers[0]);
    OneRegimeExact(Hybrid, answers);
  }
}
