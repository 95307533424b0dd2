/** What every evidence pack keeps, whatever the request and the candidates. */
module PackTheorems {
  import opened Wrappers
  import opened Text
  import opened Citation
  import opened Pack

  // ---------------------------------------------------------------- the budget

  lemma SectionsNonEmpty(evidence: seq<Evidence>)
    requires evidence != []
    ensures |Concat(Sections(evidence))| >= 1
  {
    assert Sections(evidence)[0] == Section(1, evidence[0]);
  }

  /** The markdown fits the budget, and the final slice cuts nothing once there is evidence. */
  lemma WithinBudget(request: Request, now: int, candidates: seq<Session>, chosen: seq<nat>, stop: nat, evidence: seq<Evidence>)
    requires IsPack(request, now, candidates, chosen, stop, evidence)
    ensures var whole := Prefix(request) + Concat(Sections(evidence));
      var markdown := Cut(whole, request.maxTokens * 4);
      && |markdown| <= request.maxTokens * 4
      && (|markdown| + 3) / 4 <= request.maxTokens
      && (evidence != [] ==> markdown == whole)
      && (evidence == [] ==> markdown == Cut(Prefix(request), request.maxTokens * 4))
  {
    hide Section, Prefix;
    if evidence != [] {
      SectionsNonEmpty(evidence);
    } else {
      assert Sections([]) == [];
    }
  }

  // ---------------------------------------------------------------- the last break

  /** No turn's ordinal prints longer than the last one's. */
  predicate LastIsWidest(session: Session)
  {
    var turns := TextTurns(session.turns);
    forall i :: 0 <= i < |turns| ==> |Digits(turns[i].ordinal)| <= |Digits(turns[|turns| - 1].ordinal)|
  }

  lemma {:induction false} HeadingLength(number: nat, id: string, from: nat, to: nat, days: nat)
    ensures |Heading(number, id, from, to, days)|
         == 22 + |id| + |Digits(number)| + |Digits(from)| + |Digits(to)| + |Digits(days)|
  {
  }

  /** How long a section is, against what was left for it. */
  lemma SectionLength(request: Request, now: int, session: Session, number: nat, remaining: nat)
    requires TextTurns(session.turns) != [] && Available(request, now, session, number, remaining) >= 1
    ensures var e := Quote(request, now, session, number, remaining);
      var last := TextTurns(session.turns)[|TextTurns(session.turns)| - 1].ordinal;
      && |e.excerpt| <= Available(request, now, session, number, remaining) <= remaining
      && |Section(number, e)| + (Available(request, now, session, number, remaining) - |e.excerpt|)
         <= remaining + |Digits(e.turnEnd)| - |Digits(last)|
      && (request.maxExcerptChars >= remaining && |e.excerpt| == Available(request, now, session, number, remaining)
          ==> |Section(number, e)| == remaining + |Digits(e.turnEnd)| - |Digits(last)|)
  {
    hide TextTurns, Pieces, LastKept, Join, Digits, Heading;
    var turns := TextTurns(session.turns);
    var e := Quote(request, now, session, number, remaining);
    HeadingLength(number, session.id, turns[0].ordinal, turns[|turns| - 1].ordinal, e.ageDays);
    HeadingLength(number, session.id, turns[0].ordinal, e.turnEnd, e.ageDays);
  }

  /** With the last ordinal the widest, a section always fits what was left for it. */
  lemma NeverOverflows(request: Request, now: int, session: Session, number: nat, remaining: nat)
    requires TextTurns(session.turns) != [] && LastIsWidest(session)
    requires Available(request, now, session, number, remaining) >= 1
    ensures !Overflows(request, now, session, number, remaining)
  {
    SectionLength(request, now, session, number, remaining);
  }

  lemma {:induction false} OrderedIsWidest(session: Session)
    requires var turns := TextTurns(session.turns); forall i, j :: 0 <= i < j < |turns| ==> turns[i].ordinal <= turns[j].ordinal
    ensures LastIsWidest(session)
  {
    var turns := TextTurns(session.turns);
    forall i | 0 <= i < |turns| ensures |Digits(turns[i].ordinal)| <= |Digits(turns[|turns| - 1].ordinal)| {
      DigitsMonotone(turns[i].ordinal, turns[|turns| - 1].ordinal);
    }
  }

  /** A request with room for exactly the first character of turn `i`. */
  lemma SomeBudgetOverflows(request: Request, now: int, session: Session, number: nat, i: nat) returns (remaining: nat)
    requires i < |TextTurns(session.turns)|
    requires |Digits(TextTurns(session.turns)[i].ordinal)| > |Digits(TextTurns(session.turns)[|TextTurns(session.turns)| - 1].ordinal)|
    ensures var roomy := request.(maxExcerptChars := remaining);
      Available(roomy, now, session, number, remaining) >= 1 && Overflows(roomy, now, session, number, remaining)
  {
    hide TextTurns, Pieces, LastKept, Join, Digits, Heading;
    var turns := TextTurns(session.turns);
    var pieces := Pieces(turns);
    var widest := Heading(number, session.id, turns[0].ordinal, turns[|turns| - 1].ordinal, Age(now, session.updatedAt));
    var kept := Offset(pieces, i) + 1;
    remaining := |widest| + 1 + kept;
    var roomy := request.(maxExcerptChars := remaining);
    PieceBegins(pieces, i);
    if i + 1 < |pieces| {
      OffsetsGrow(pieces, i, i + 1);
    }
    LastKeptOnly(pieces, kept, i);
    SectionLength(roomy, now, session, number, remaining);
  }

  /** A pack that ends at an eligible candidate with room for a character, because its section came out too long. */
  ghost predicate BreaksAt(request: Request, now: int, candidates: seq<Session>, chosen: seq<nat>, stop: nat, evidence: seq<Evidence>)
  {
    && IsPack(request, now, candidates, chosen, stop, evidence) && stop < |candidates|
    && Eligible(request, now, candidates[stop]) && Open(request, evidence) && Remaining(request, evidence) >= 0
    && Available(request, now, candidates[stop], |evidence| + 1, Remaining(request, evidence)) >= 1
    && Overflows(request, now, candidates[stop], |evidence| + 1, Remaining(request, evidence))
  }

  /** A request that leaves exactly `remaining` characters behind its prefix. */
  function Leaving(remaining: nat, maximum: nat): Request
  {
    var tokens := remaining + |Prefix(Request("", 0, 0, 0, 0, false, 0))|;
    Request(seq(tokens * 3, _ => 'q'), tokens, 1, 1, maximum, false, 0)
  }

  lemma LeavesExactly(remaining: nat, maximum: nat)
    ensures var request := Leaving(remaining, maximum);
      && Remaining(request, []) == remaining && request.maxExcerptChars == maximum
      && request.maxEvidence == request.maxSessions == 1 && !request.strict
  {
    var request := Leaving(remaining, maximum);
    assert |Prefix(request)| == |Prefix(Request("", 0, 0, 0, 0, false, 0))| + |request.query|;
    assert Sections([]) == [];
    hide Prefix;
    assert request.maxTokens * 4 - |Prefix(request)| == remaining;
  }

  /** A session with a wider ordinal before its last is turned away by some request, though it is all there is to quote. */
  lemma BreaksAlone(now: int, session: Session) returns (request: Request)
    requires !LastIsWidest(session)
    ensures BreaksAt(request, now, [session], [], 0, [])
    ensures forall chosen, stop, evidence :: IsPack(request, now, [session], chosen, stop, evidence) ==> evidence == []
  {
    hide Available, Overflows, TextTurns, Digits, Remaining, Leaving, IsPack;
    var turns := TextTurns(session.turns);
    var i :| 0 <= i < |turns| && |Digits(turns[i].ordinal)| > |Digits(turns[|turns| - 1].ordinal)|;
    var remaining := SomeBudgetOverflows(Leaving(0, 0), now, session, 1, i);
    request := Leaving(remaining, remaining);
    LeavesExactly(remaining, remaining);
    OnlyExcerptMatters(Leaving(0, 0).(maxExcerptChars := remaining), request, now, session, 1, remaining);
    AloneIsPack(request, now, session);
    forall chosen, stop, evidence | IsPack(request, now, [session], chosen, stop, evidence) ensures evidence == [] {
      PackUnique(request, now, [session], chosen, stop, evidence, [], 0, []);
    }
  }

  lemma OnlyExcerptMatters(a: Request, b: Request, now: int, session: Session, number: nat, remaining: nat)
    requires a.maxExcerptChars == b.maxExcerptChars && TextTurns(session.turns) != []
    ensures Available(a, now, session, number, remaining) == Available(b, now, session, number, remaining)
    ensures Overflows(a, now, session, number, remaining) <==> Overflows(b, now, session, number, remaining)
  {
    hide Heading, LastKept, Join, TextTurns, Pieces;
  }

  lemma AloneIsPack(request: Request, now: int, session: Session)
    requires request.maxEvidence == request.maxSessions == 1 && !request.strict && TextTurns(session.turns) != []
    requires Remaining(request, []) >= 0 && Overflows(request, now, session, 1, Remaining(request, []))
    ensures Eligible(request, now, session) && Open(request, [])
    ensures IsPack(request, now, [session], [], 0, [])
  {
    hide Available, Overflows, TextTurns, Remaining;
    assert SessionIds([]) == {};
  }

  /** The last break never ends a pack at a session, whatever the request and the other candidates, exactly when its last ordinal is its widest. */
  lemma BreakExact(now: int, session: Session)
    ensures LastIsWidest(session) <==>
      forall request, candidates, chosen, stop, evidence :: BreaksAt(request, now, candidates, chosen, stop, evidence) ==> candidates[stop] != session
  {
    hide LastIsWidest, IsPack, Available, Overflows, TextTurns, Remaining;
    if LastIsWidest(session) {
      forall request, candidates, chosen, stop, evidence | BreaksAt(request, now, candidates, chosen, stop, evidence)
        ensures candidates[stop] != session
      {
        if candidates[stop] == session {
          NeverOverflows(request, now, session, |evidence| + 1, Remaining(request, evidence));
        }
      }
    } else {
      var request := BreaksAlone(now, session);
    }
  }

  /** Turns 10 and 2, in that order. */
  lemma TenThenTwo(id: string, first: string, last: string)
    requires first != "" && last != ""
    ensures !LastIsWidest(Session(id, 0, [SessionTurn(10, [Block(Some(first))]), SessionTurn(2, [Block(Some(last))])], Status.Clear))
  {
    var ten, two := SessionTurn(10, [Block(Some(first))]), SessionTurn(2, [Block(Some(last))]);
    OneBlock(first);
    OneBlock(last);
    assert [ten, two][1..] == [two] && [two][1..] == [];
    assert TextTurns([two]) == [TextTurn(2, last)];
    assert TextTurns([ten, two]) == [TextTurn(10, first), TextTurn(2, last)];
    assert |Digits(10)| == |Digits(1)| + 1 == 2 && |Digits(2)| == 1;
    assert TextTurns([ten, two])[0].ordinal == 10;
  }

  lemma OneBlock(text: string)
    requires text != ""
    ensures Join(BlockTexts([Block(Some(text))]), '\n') == text
  {
    assert [Block(Some(text))][1..] == [];
    assert BlockTexts([Block(Some(text))]) == [text];
  }

  // ---------------------------------------------------------------- the other bounds

  /** Evidence, sessions, excerpt lengths and freshness stay within the request. */
  lemma {:induction false} WithinBounds(request: Request, now: int, candidates: seq<Session>, chosen: seq<nat>, stop: nat, evidence: seq<Evidence>)
    requires IsPack(request, now, candidates, chosen, stop, evidence)
    ensures |evidence| <= request.maxEvidence
    ensures |SessionIds(evidence)| <= request.maxSessions
    ensures forall e :: e in evidence ==> 1 <= |e.excerpt| <= request.maxExcerptChars
    ensures request.strict ==> StaleCount(request, evidence) == 0 && forall e :: e in evidence ==> e.ageDays <= request.staleAfterDays
    ensures Placed(candidates, chosen, evidence)
    ensures request.strict ==> forall c :: c in chosen ==> now - candidates[c].updatedAt < (request.staleAfterDays + 1) * 86_400_000
  {
    hide IsPack, Quotes, StaleCount, SessionIds;
    NotOverfull(request, now, candidates, chosen, stop, evidence);
    forall e | e in evidence
      ensures 1 <= |e.excerpt| <= request.maxExcerptChars && (request.strict ==> e.ageDays <= request.staleAfterDays)
    {
      var k :| 0 <= k < |evidence| && evidence[k] == e;
      EvidenceBounds(request, now, candidates, chosen, stop, evidence, k);
    }
    ChosenPlaced(request, now, candidates, chosen, stop, evidence);
    if request.strict {
      FreshCount(request, evidence);
      forall c | c in chosen ensures now - candidates[c].updatedAt < (request.staleAfterDays + 1) * 86_400_000 {
        var k :| 0 <= k < |chosen| && chosen[k] == c;
        EvidenceBounds(request, now, candidates, chosen, stop, evidence, k);
      }
    }
  }

  predicate Placed(candidates: seq<Session>, chosen: seq<nat>, evidence: seq<Evidence>)
  {
    |chosen| == |evidence| && forall c :: c in chosen ==> c < |candidates|
  }

  lemma ChosenPlaced(request: Request, now: int, candidates: seq<Session>, chosen: seq<nat>, stop: nat, evidence: seq<Evidence>)
    requires IsPack(request, now, candidates, chosen, stop, evidence)
    ensures Placed(candidates, chosen, evidence)
  {
    hide QuotedAt, StaleCount, Remaining, TextTurns, Age, StopsAt, Eligible;
  }

  lemma NotOverfull(request: Request, now: int, candidates: seq<Session>, chosen: seq<nat>, stop: nat, evidence: seq<Evidence>)
    requires IsPack(request, now, candidates, chosen, stop, evidence)
    ensures |evidence| <= request.maxEvidence
    ensures |SessionIds(evidence)| <= request.maxSessions
  {
    hide Quote, Remaining, Eligible;
    if evidence != [] {
      var n := |evidence| - 1;
      assert QuotedAt(request, now, candidates[chosen[n]], evidence, n);
      assert evidence == evidence[..n] + [evidence[n]];
      assert SessionIds(evidence) == SessionIds(evidence[..n]) + {evidence[n].sessionId};
    } else {
      assert SessionIds(evidence) == {};
    }
  }

  lemma EvidenceBounds(request: Request, now: int, candidates: seq<Session>, chosen: seq<nat>, stop: nat, evidence: seq<Evidence>, k: nat)
    requires IsPack(request, now, candidates, chosen, stop, evidence) && k < |evidence|
    ensures 1 <= |evidence[k].excerpt| <= request.maxExcerptChars
    ensures request.strict ==> evidence[k].ageDays <= request.staleAfterDays
    ensures Placed(candidates, chosen, evidence)
    ensures request.strict ==> now - candidates[chosen[k]].updatedAt < (request.staleAfterDays + 1) * 86_400_000
  {
    hide Quote, Remaining, Open;
    assert QuotedAt(request, now, candidates[chosen[k]], evidence, k);
    QuoteBounds(request, now, candidates[chosen[k]], k + 1, Remaining(request, evidence[..k]));
  }

  lemma QuoteBounds(request: Request, now: int, session: Session, number: nat, remaining: nat)
    requires TextTurns(session.turns) != []
    ensures var e := Quote(request, now, session, number, remaining);
      |e.excerpt| <= request.maxExcerptChars && e.ageDays == Age(now, session.updatedAt)
  {
    hide Heading, LastKept, Join, TextTurns;
  }

  lemma {:induction false} FreshCount(request: Request, evidence: seq<Evidence>)
    requires forall e :: e in evidence ==> e.ageDays <= request.staleAfterDays
    ensures StaleCount(request, evidence) == 0
  {
    if evidence != [] {
      FreshCount(request, evidence[..|evidence| - 1]);
    }
  }

  /** Each citation is exact: what is quoted reaches into its last cited turn, and no further. */
  lemma Cites(request: Request, now: int, candidates: seq<Session>, chosen: seq<nat>, stop: nat, evidence: seq<Evidence>, k: nat)
    requires IsPack(request, now, candidates, chosen, stop, evidence) && k < |evidence|
    ensures var e, turns := evidence[k], TextTurns(candidates[chosen[k]].turns);
      var pieces := Pieces(turns);
      exists last :: 0 <= last < |turns|
        && e.sessionId == candidates[chosen[k]].id
        && e.turnStart == turns[0].ordinal && e.turnEnd == turns[last].ordinal
        && e.excerpt <= Join(pieces[..last + 1], '\n') + "\n"
        && Offset(pieces, last) < |e.excerpt| && e.excerpt[Offset(pieces, last)] == pieces[last][0]
  {
    var session, remaining := candidates[chosen[k]], Remaining(request, evidence[..k]);
    assert QuotedAt(request, now, session, evidence, k);
    hide Remaining, Available, TextTurns, Join, Pieces, LastKept, Offset, IsPack;
    CitationExact(Pieces(TextTurns(session.turns)), Available(request, now, session, k + 1, remaining));
  }

  /** What a pack says of redaction is what its sessions say together: nothing hidden, everything, or both. */
  lemma StatusExact(candidates: seq<Session>, chosen: seq<nat>)
    requires forall k :: k in chosen ==> k < |candidates|
    ensures var status := PackRedactionStatus(Statuses(candidates, chosen));
      && (status == AllClear <==> forall k :: k in chosen ==> candidates[k].redactionStatus.Clear?)
      && (status == SomeFindings <==> chosen != [] && forall k :: k in chosen ==> !candidates[k].redactionStatus.Clear?)
  {
    var statuses := Statuses(candidates, chosen);
    forall k | k in chosen ensures candidates[k].redactionStatus in statuses {
    }
    if chosen != [] {
      assert chosen[0] in chosen;
    }
  }

  // ---------------------------------------------------------------- it is the only one

  /** The packs agree on their first `k` quotes. */
  predicate AgreeUpTo(a: seq<nat>, b: seq<nat>, es: seq<Evidence>, fs: seq<Evidence>, k: nat)
  {
    k <= |a| == |es| && k <= |b| == |fs| && a[..k] == b[..k] && es[..k] == fs[..k]
  }

  lemma NotPassedOver(request: Request, now: int, candidates: seq<Session>, chosen: seq<nat>, stop: nat, evidence: seq<Evidence>, k: nat, c: nat)
    requires Quotes(request, now, candidates, chosen, stop, evidence) && k < |chosen|
    requires c < stop && Eligible(request, now, candidates[c]) && c !in chosen[..k]
    ensures chosen[k] <= c
  {
    hide QuotedAt, Remaining, Eligible;
    assert c in chosen;
    var j :| 0 <= j < |chosen| && chosen[j] == c;
    Earlier(chosen, k, j);
  }

  lemma Earlier(chosen: seq<nat>, k: nat, j: nat)
    requires k < |chosen| && j < |chosen| && chosen[j] !in chosen[..k]
    requires forall a, b :: 0 <= a < b < |chosen| ==> chosen[a] < chosen[b]
    ensures chosen[k] <= chosen[j]
  {
    assert forall i :: 0 <= i < k ==> chosen[i] in chosen[..k];
  }

  lemma NextAgrees(request: Request, now: int, candidates: seq<Session>, k: nat,
                   a: seq<nat>, s: nat, es: seq<Evidence>, b: seq<nat>, t: nat, fs: seq<Evidence>)
    requires Quotes(request, now, candidates, a, s, es) && Quotes(request, now, candidates, b, t, fs)
    requires AgreeUpTo(a, b, es, fs, k) && k < |a| && k < |b|
    ensures AgreeUpTo(a, b, es, fs, k + 1)
  {
    hide Eligible, Remaining, Quote, Open;
    assert QuotedAt(request, now, candidates[a[k]], es, k) && QuotedAt(request, now, candidates[b[k]], fs, k);
    Ascending(a, k);
    Ascending(b, k);
    if a[k] < b[k] {
      NotPassedOver(request, now, candidates, b, t, fs, k, a[k]);
    } else if b[k] < a[k] {
      NotPassedOver(request, now, candidates, a, s, es, k, b[k]);
    }
    assert a[..k + 1] == a[..k] + [a[k]] && b[..k + 1] == b[..k] + [b[k]];
    assert es[..k + 1] == es[..k] + [es[k]] && fs[..k + 1] == fs[..k] + [fs[k]];
  }

  lemma Ascending(chosen: seq<nat>, k: nat)
    requires k < |chosen| && forall i, j :: 0 <= i < j < |chosen| ==> chosen[i] < chosen[j]
    ensures forall c :: c in chosen[..k] ==> c < chosen[k]
  {
  }

  /** A pack with more quotes would have had room where the other stopped. */
  lemma NoneFurther(request: Request, now: int, candidates: seq<Session>,
                    a: seq<nat>, s: nat, es: seq<Evidence>, b: seq<nat>, t: nat, fs: seq<Evidence>)
    requires IsPack(request, now, candidates, a, s, es) && IsPack(request, now, candidates, b, t, fs)
    requires AgreeUpTo(a, b, es, fs, |a|)
    ensures |b| == |a|
  {
    var k := |a|;
    if |b| > k {
      assert a[..k] == a && es[..k] == es;
      Ascending(b, k);
      assert QuotedAt(request, now, candidates[b[k]], fs, k);
      NotPassedOver(request, now, candidates, b, t, fs, k, s);
      FitsWhenTaken(request, now, candidates, b, t, fs, k);
    }
  }

  /** What was quoted had room: it was not squeezed out, and its section fitted. */
  lemma FitsWhenTaken(request: Request, now: int, candidates: seq<Session>, chosen: seq<nat>, stop: nat, evidence: seq<Evidence>, k: nat)
    requires Quotes(request, now, candidates, chosen, stop, evidence) && k < |chosen|
    ensures !NoRoom(request, now, candidates[chosen[k]], evidence[..k])
  {
    hide Remaining, Section, Sections, SessionIds, StaleCount;
    var session, before := candidates[chosen[k]], evidence[..k];
    assert QuotedAt(request, now, session, evidence, k);
    assert evidence[..k + 1] == before + [evidence[k]];
    Appended(request, candidates, chosen[..k], chosen[k], before, evidence[k]);
    if k + 1 < |chosen| {
      assert QuotedAt(request, now, candidates[chosen[k + 1]], evidence, k + 1);
    } else {
      assert evidence[..k + 1] == evidence;
    }
  }

  lemma {:induction false} AgreeAll(request: Request, now: int, candidates: seq<Session>, k: nat,
                                    a: seq<nat>, s: nat, es: seq<Evidence>, b: seq<nat>, t: nat, fs: seq<Evidence>)
    requires Quotes(request, now, candidates, a, s, es) && Quotes(request, now, candidates, b, t, fs)
    requires k <= |a| && k <= |b|
    ensures AgreeUpTo(a, b, es, fs, k)
  {
    if k > 0 {
      AgreeAll(request, now, candidates, k - 1, a, s, es, b, t, fs);
      NextAgrees(request, now, candidates, k - 1, a, s, es, b, t, fs);
    }
  }

  /** What is required of a pack leaves no choice: the same candidates are quoted, in the same words. */
  lemma PackUnique(request: Request, now: int, candidates: seq<Session>,
                   a: seq<nat>, s: nat, es: seq<Evidence>, b: seq<nat>, t: nat, fs: seq<Evidence>)
    requires IsPack(request, now, candidates, a, s, es) && IsPack(request, now, candidates, b, t, fs)
    ensures a == b && es == fs
  {
    hide Quotes, StopsAt;
    var k := if |a| <= |b| then |a| else |b|;
    AgreeAll(request, now, candidates, k, a, s, es, b, t, fs);
    if |a| <= |b| {
      NoneFurther(request, now, candidates, a, s, es, b, t, fs);
    } else {
      Mirrored(a, b, es, fs, k);
      NoneFurther(request, now, candidates, b, t, fs, a, s, es);
    }
    assert a[..k] == b[..k] && es[..k] == fs[..k];
    assert a[..|a|] == a && b[..|b|] == b && es[..|es|] == es && fs[..|fs|] == fs;
  }

  lemma Mirrored(a: seq<nat>, b: seq<nat>, es: seq<Evidence>, fs: seq<Evidence>, k: nat)
    requires AgreeUpTo(a, b, es, fs, k)
    ensures AgreeUpTo(b, a, fs, es, k)
  {
  }
}
