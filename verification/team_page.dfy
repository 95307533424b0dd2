/** What a team page shows: whose failure, which mode, and a fusion of which lists. */
module TeamPage {
  import opened Wrappers
  import Fusion
  import opened TeamSearch

  /** A semantic backend that failed and said how. */
  predicate Failing(answer: Answer, message: string)
  {
    answer.semantic == Broken(message) && message != ""
  }

  /** Tenant `i` is the first to fail with a message, and that is its message. */
  predicate FirstFailing(answers: seq<Answer>, i: nat, message: string)
  {
    && i < |answers| && Failing(answers[i], message)
    && forall j :: 0 <= j < i ==> !(answers[j].semantic.Broken? && answers[j].semantic.message != "")
  }

  /** The lists ranked: of each tenant in turn the lexical one, the semantic one, or both. */
  predicate RankedBy(realized: Mode, answers: seq<Answer>, lists: seq<seq<Fusion.Candidate>>)
    requires forall a :: a in answers ==> a.lexical.Some?
  {
    match realized
    case Lexical => |lists| == |answers| && forall i :: 0 <= i < |answers| ==> lists[i] == answers[i].lexical.value
    case Semantic => |lists| == |answers| && forall i :: 0 <= i < |answers| ==> lists[i] == FoundBy(answers[i])
    case Hybrid =>
      && |lists| == 2 * |answers|
      && forall i :: 0 <= i < |answers| ==> lists[2 * i] == answers[i].lexical.value && lists[2 * i + 1] == FoundBy(answers[i])
  }

  function FoundBy(answer: Answer): seq<Fusion.Candidate>
  {
    if answer.semantic.Found? then answer.semantic.list else []
  }

  /** The first `limit` of `whole`, or all of it. */
  predicate FirstFew(shown: seq<Fusion.Scored>, whole: seq<Fusion.Scored>, limit: nat)
  {
    |shown| <= limit && shown <= whole && (|shown| < limit ==> shown == whole)
  }

  lemma {:induction false} ListsAt(realized: Mode, legs: seq<Leg>)
    ensures var lists := Lists(realized, legs);
      match realized
      case Lexical => |lists| == |legs| && forall i :: 0 <= i < |legs| ==> lists[i] == legs[i].lexical
      case Semantic => |lists| == |legs| && forall i :: 0 <= i < |legs| ==> lists[i] == OrEmpty(legs[i].semantic)
      case Hybrid =>
        && |lists| == 2 * |legs|
        && forall i :: 0 <= i < |legs| ==> lists[2 * i] == legs[i].lexical && lists[2 * i + 1] == OrEmpty(legs[i].semantic)
  {
    if legs != [] {
      ListsAt(realized, legs[1..]);
    }
  }

  predicate Silenced(leg: Leg) { leg.failure.None? || leg.failure.value == "" }

  /** The failure shown is the first there is. */
  lemma {:induction false} FailureFirst(legs: seq<Leg>) returns (i: nat)
    ensures i <= |legs| && (forall j :: 0 <= j < i ==> Silenced(legs[j]))
    ensures if i < |legs| then !Silenced(legs[i]) && Failure(legs) == legs[i].failure else Failure(legs).None?
  {
    if legs == [] || !Silenced(legs[0]) {
      i := 0;
    } else {
      var k := FailureFirst(legs[1..]);
      i := k + 1;
      assert forall j :: 1 <= j < |legs| ==> legs[j] == legs[1..][j - 1];
    }
  }

  /**
   * The failure of the first tenant to report one, the mode that leaves, and
   * the best of a fusion of the lists of that mode and no others.
   */
  lemma {:induction false} PageExact(mode: Mode, answers: seq<Answer>, limit: nat, page: Page)
    requires Legs(mode, answers).Some? && IsPage(mode, Legs(mode, answers).value, limit, page)
    ensures forall a :: a in answers ==> a.lexical.Some?
    ensures page.failure.None? <==> mode.Lexical? || forall i, message :: 0 <= i < |answers| ==> !Failing(answers[i], message)
    ensures page.failure.Some? ==> exists i :: FirstFailing(answers, i, page.failure.value)
    ensures page.realized == if page.failure.Some? then Mode.Lexical else mode
    ensures exists lists, whole :: RankedBy(page.realized, answers, lists) && Fusion.IsFusion(lists, whole) && FirstFew(page.candidates, whole, limit)
  {
    var legs := Legs(mode, answers).value;
    LegsSay(mode, answers, legs);
    hide Fusion.IsFusion, Failure, Legs, Lists, FirstFailing;
    FailureExact(mode, answers, legs);
    ListsExact(page.realized, mode, answers, legs);
    var whole :| Fusion.IsFusion(Lists(page.realized, legs), whole) && page.candidates == FirstOf(whole, limit);
    assert FirstFew(page.candidates, whole, limit);
  }

  lemma {:induction false} FailureExact(mode: Mode, answers: seq<Answer>, legs: seq<Leg>)
    requires Legs(mode, answers) == Some(legs)
    ensures Failure(legs).None? <==> mode.Lexical? || forall i, message :: 0 <= i < |answers| ==> !Failing(answers[i], message)
    ensures Failure(legs).Some? ==> exists i :: FirstFailing(answers, i, Failure(legs).value)
  {
    var first := FailureFirst(legs);
    LegsSay(mode, answers, legs);
    hide Failure, Legs;
    if first < |legs| {
      assert FirstFailing(answers, first, Failure(legs).value);
      assert Failing(answers[first], Failure(legs).value);
    } else {
      forall i, message | 0 <= i < |answers| && !mode.Lexical? ensures !Failing(answers[i], message) {
        assert Silenced(legs[i]);
      }
    }
  }

  lemma {:induction false} ListsExact(realized: Mode, mode: Mode, answers: seq<Answer>, legs: seq<Leg>)
    requires Legs(mode, answers) == Some(legs) && (mode.Lexical? ==> realized.Lexical?)
    ensures forall a :: a in answers ==> a.lexical.Some?
    ensures RankedBy(realized, answers, Lists(realized, legs))
  {
    LegsSay(mode, answers, legs);
    ListsAt(realized, legs);
    hide Legs, Lists;
    forall i | 0 <= i < |answers| ensures answers[i] in answers {
    }
  }

  /** What a leg keeps of its tenant's answer. */
  lemma {:induction false} LegsSay(mode: Mode, answers: seq<Answer>, legs: seq<Leg>)
    requires Legs(mode, answers) == Some(legs)
    ensures |legs| == |answers| && forall a :: a in answers ==> a.lexical.Some?
    ensures forall i :: 0 <= i < |legs| ==>
      && Some(legs[i].lexical) == answers[i].lexical
      && (!mode.Lexical? ==> OrEmpty(legs[i].semantic) == FoundBy(answers[i]))
      && legs[i].failure == (if !mode.Lexical? && answers[i].semantic.Broken? then Some(answers[i].semantic.message) else None)
  {
    forall i | 0 <= i < |legs|
      ensures Some(legs[i].lexical) == answers[i].lexical
      ensures !mode.Lexical? ==> OrEmpty(legs[i].semantic) == FoundBy(answers[i])
      ensures legs[i].failure == if !mode.Lexical? && answers[i].semantic.Broken? then Some(answers[i].semantic.message) else None
    {
      assert Some(legs[i]) == RunLeg(mode, answers[i]);
    }
  }
}
