/** Which text a pack quotes and how old it may be, in milliseconds and in the candidates' own blocks. */
module PackFreshness {
  import opened Wrappers
  import opened Text
  import opened Citation
  import opened Pack
  import opened PackTheorems

  // ---------------------------------------------------------------- age

  /** Whole days, each of 86,400,000 milliseconds, in what lies between the two instants; none when the second is not earlier. */
  predicate DaysBetween(days: nat, now: int, updatedAt: int)
  {
    if now <= updatedAt then days == 0
    else days * 86_400_000 <= now - updatedAt < (days + 1) * 86_400_000
  }

  /** Past the age limit: at least one full day more than it. */
  predicate Stale(request: Request, now: int, session: Session)
  {
    now - session.updatedAt >= (request.staleAfterDays + 1) * 86_400_000
  }

  lemma AgeIsDays(now: int, updatedAt: int)
    ensures DaysBetween(Age(now, updatedAt), now, updatedAt)
  {
  }

  lemma StaleByDays(request: Request, now: int, session: Session, days: nat)
    requires DaysBetween(days, now, session.updatedAt)
    ensures days > request.staleAfterDays <==> Stale(request, now, session)
  {
    var limit := request.staleAfterDays;
    if days > limit {
      assert days * 86_400_000 >= (limit + 1) * 86_400_000;
    } else {
      assert (days + 1) * 86_400_000 <= (limit + 1) * 86_400_000;
    }
  }

  /** The candidates quoted although, or counted because, they are stale. */
  function StaleChosen(request: Request, now: int, candidates: seq<Session>, chosen: seq<nat>): set<nat>
  {
    set c | c in chosen && c < |candidates| && Stale(request, now, candidates[c])
  }

  /**
   * Freshness of a pack, against the candidates' timestamps: each age is theirs;
   * a strict pack quotes no stale candidate and, before it stops, every one with
   * text that is not; and the stale ones quoted are the ones counted.
   */
  lemma {:induction false} FreshnessExact(request: Request, now: int, candidates: seq<Session>, chosen: seq<nat>, stop: nat, evidence: seq<Evidence>)
    requires IsPack(request, now, candidates, chosen, stop, evidence)
    ensures |chosen| == |evidence| && forall c :: c in chosen ==> c < stop <= |candidates|
    ensures forall k :: 0 <= k < |evidence| ==> DaysBetween(evidence[k].ageDays, now, candidates[chosen[k]].updatedAt)
    ensures forall c :: 0 <= c < stop ==>
      (c in chosen <==> HasText(candidates[c]) && !(request.strict && Stale(request, now, candidates[c])))
    ensures StaleCount(request, evidence) == |StaleChosen(request, now, candidates, chosen)|
  {
    hide QuotedAt, StaleCount, Remaining, Stale, DaysBetween, TextTurns, Age, HasText, StopsAt;
    forall k | 0 <= k < |evidence| ensures DaysBetween(evidence[k].ageDays, now, candidates[chosen[k]].updatedAt) {
      QuotedAge(request, now, candidates[chosen[k]], evidence, k);
    }
    forall c | 0 <= c < stop ensures Eligible(request, now, candidates[c]) <==> HasText(candidates[c]) && !(request.strict && Stale(request, now, candidates[c])) {
      EligibleExact(request, now, candidates[c]);
    }
    StaleCounted(request, now, candidates, chosen, evidence);
  }

  lemma QuotedAge(request: Request, now: int, session: Session, evidence: seq<Evidence>, k: nat)
    requires k < |evidence| && QuotedAt(request, now, session, evidence, k)
    ensures DaysBetween(evidence[k].ageDays, now, session.updatedAt)
  {
    hide Quote, Remaining, Open, Age, DaysBetween;
    QuoteBounds(request, now, session, k + 1, Remaining(request, evidence[..k]));
    AgeIsDays(now, session.updatedAt);
  }

  lemma EligibleExact(request: Request, now: int, session: Session)
    ensures Eligible(request, now, session) <==> HasText(session) && !(request.strict && Stale(request, now, session))
  {
    hide Age, DaysBetween, Stale, TextTurns;
    AgeIsDays(now, session.updatedAt);
    StaleByDays(request, now, session, Age(now, session.updatedAt));
    TextTurnsExact(session.turns);
  }

  lemma {:induction false} StaleCounted(request: Request, now: int, candidates: seq<Session>, chosen: seq<nat>, evidence: seq<Evidence>)
    requires |chosen| == |evidence| && forall i, j :: 0 <= i < j < |chosen| ==> chosen[i] < chosen[j]
    requires forall k :: 0 <= k < |chosen| ==> chosen[k] < |candidates|
    requires forall k :: 0 <= k < |chosen| ==> DaysBetween(evidence[k].ageDays, now, candidates[chosen[k]].updatedAt)
    ensures StaleCount(request, evidence) == |StaleChosen(request, now, candidates, chosen)|
  {
    hide DaysBetween, Stale;
    if chosen == [] {
      assert StaleChosen(request, now, candidates, chosen) == {};
    } else {
      var n := |chosen| - 1;
      StaleCounted(request, now, candidates, chosen[..n], evidence[..n]);
      StaleByDays(request, now, candidates[chosen[n]], evidence[n].ageDays);
      var earlier := StaleChosen(request, now, candidates, chosen[..n]);
      assert chosen == chosen[..n] + [chosen[n]];
      assert chosen[n] !in chosen[..n];
      assert StaleChosen(request, now, candidates, chosen)
          == if Stale(request, now, candidates[chosen[n]]) then earlier + {chosen[n]} else earlier;
    }
  }

  // ---------------------------------------------------------------- text

  predicate Speaks(block: Block) { block.text.Some? && block.text.value != "" }

  predicate TurnSpeaks(turn: SessionTurn) { exists b :: b in turn.blocks && Speaks(b) }

  /** Some block of some turn has text. */
  predicate HasText(session: Session) { exists t :: t in session.turns && TurnSpeaks(t) }

  /** The speaking blocks' texts with a newline between each two. */
  predicate SpokenBy(text: string, blocks: seq<Block>)
    decreases |blocks|
  {
    if blocks == [] then text == ""
    else if !Speaks(blocks[0]) then SpokenBy(text, blocks[1..])
    else
      var head := blocks[0].text.value;
      if exists b :: b in blocks[1..] && Speaks(b)
      then head + "\n" <= text && SpokenBy(text[|head| + 1..], blocks[1..])
      else text == head
  }

  lemma {:induction false} Spoken(blocks: seq<Block>)
    ensures SpokenBy(Join(BlockTexts(blocks), '\n'), blocks)
    ensures BlockTexts(blocks) == [] <==> forall b :: b in blocks ==> !Speaks(b)
    ensures forall text :: text in BlockTexts(blocks) ==> text != ""
    ensures Join(BlockTexts(blocks), '\n') != "" <==> exists b :: b in blocks && Speaks(b)
    decreases |blocks|
  {
    if blocks != [] {
      var rest := blocks[1..];
      Spoken(rest);
      assert blocks == [blocks[0]] + rest;
      if Speaks(blocks[0]) {
        var head, texts := blocks[0].text.value, BlockTexts(blocks);
        assert texts == [head] + BlockTexts(rest) && texts[1..] == BlockTexts(rest);
        if BlockTexts(rest) != [] {
          var text := Join(texts, '\n');
          assert text == head + ['\n'] + Join(BlockTexts(rest), '\n');
          assert text[|head| + 1..] == Join(BlockTexts(rest), '\n');
        }
      } else {
        assert BlockTexts(blocks) == BlockTexts(rest);
      }
    }
  }

  /** Turn by turn: a text turn for each that speaks, in order, with its ordinal and what its blocks say. */
  predicate TextOf(texts: seq<TextTurn>, turns: seq<SessionTurn>)
    decreases |turns|
  {
    if turns == [] then texts == []
    else if TurnSpeaks(turns[0]) then
      && texts != [] && texts[0].ordinal == turns[0].ordinal && SpokenBy(texts[0].text, turns[0].blocks)
      && TextOf(texts[1..], turns[1..])
    else TextOf(texts, turns[1..])
  }

  lemma {:induction false} TextTurnsExact(turns: seq<SessionTurn>)
    ensures TextOf(TextTurns(turns), turns)
    ensures TextTurns(turns) != [] <==> exists t :: t in turns && TurnSpeaks(t)
    decreases |turns|
  {
    if turns != [] {
      hide SpokenBy, Join, BlockTexts;
      Spoken(turns[0].blocks);
      TextTurnsExact(turns[1..]);
      assert turns == [turns[0]] + turns[1..];
      var text := Join(BlockTexts(turns[0].blocks), '\n');
      if text != "" {
        assert TextTurns(turns) == [TextTurn(turns[0].ordinal, text)] + TextTurns(turns[1..]);
        assert TextTurns(turns)[1..] == TextTurns(turns[1..]);
      } else {
        assert TextTurns(turns) == TextTurns(turns[1..]);
      }
    }
  }

  // ---------------------------------------------------------------- excerpts

  /** A line for each turn with text, under its ordinal. */
  function Lines(turns: seq<TextTurn>): (lines: seq<string>)
    ensures lines == Pieces(turns)
  {
    seq(|turns|, i requires 0 <= i < |turns| => "[turn " + Digits(turns[i].ordinal) + "] " + turns[i].text)
  }

  /** The heading a quote would have if its last turn were cited. */
  function Widest(number: nat, session: Session, ageDays: nat): string
    requires TextTurns(session.turns) != []
  {
    var turns := TextTurns(session.turns);
    "\n## [" + Digits(number) + "] " + session.id + " turns " + Digits(turns[0].ordinal) + "-"
    + Digits(turns[|turns| - 1].ordinal) + " age " + Digits(ageDays) + "d\n"
  }

  /**
   * An excerpt is the session's text from its beginning, and ends early only where
   * its own limit does or, under that heading, the pack's.
   */
  lemma ExcerptExact(request: Request, now: int, candidates: seq<Session>, chosen: seq<nat>, stop: nat, evidence: seq<Evidence>, k: nat)
    requires IsPack(request, now, candidates, chosen, stop, evidence) && k < |evidence|
    ensures var e, session := evidence[k], candidates[chosen[k]];
      var whole := Join(Lines(TextTurns(session.turns)), '\n');
      var before := |Prefix(request)| + |Concat(Sections(evidence[..k]))|;
      && e.excerpt <= whole
      && (e.excerpt == whole || |e.excerpt| == request.maxExcerptChars
          || before + |Widest(k + 1, session, e.ageDays)| + |e.excerpt| + 1 == request.maxTokens * 4)
  {
    var session, remaining := candidates[chosen[k]], Remaining(request, evidence[..k]);
    assert QuotedAt(request, now, session, evidence, k);
    hide IsPack, Quotes, StopsAt, TextTurns, Join, Pieces, Lines, LastKept, Prefix, Concat, Sections, Age, Digits;
    QuoteBounds(request, now, session, k + 1, remaining);
  }
}
