/** The evidence pack: cited excerpts under one character budget. */
module Pack {
  import opened Wrappers
  import opened Text
  import opened Citation

  datatype Status = Clear | Findings | Reviewed

  datatype PackStatus = AllClear | SomeFindings | Mixed

  datatype Block = Block(text: Option<string>)

  datatype SessionTurn = SessionTurn(ordinal: nat, blocks: seq<Block>)

  /** `updatedAt` in milliseconds. */
  datatype Session = Session(id: string, updatedAt: int, turns: seq<SessionTurn>, redactionStatus: Status)

  datatype Request = Request(
    query: string, maxTokens: nat, maxEvidence: nat, maxSessions: nat, maxExcerptChars: nat,
    strict: bool, staleAfterDays: nat)

  datatype Evidence = Evidence(sessionId: string, turnStart: nat, turnEnd: nat, ageDays: nat, excerpt: string)

  datatype Result = Result(
    markdown: string, evidence: seq<Evidence>, tokenEstimate: nat, staleCount: nat, redactionStatus: PackStatus)

  datatype TextTurn = TextTurn(ordinal: nat, text: string)

  const DAY := 86_400_000

  // ---------------------------------------------------------------- one candidate

  /** The texts of a turn's blocks that have any. */
  function BlockTexts(blocks: seq<Block>): seq<string>
  {
    if blocks == [] then []
    else (if blocks[0].text.Some? && blocks[0].text.value != "" then [blocks[0].text.value] else []) + BlockTexts(blocks[1..])
  }

  function TextTurns(turns: seq<SessionTurn>): (r: seq<TextTurn>)
    ensures forall i :: 0 <= i < |r| ==> r[i].text != ""
  {
    if turns == [] then []
    else
      var text := Join(BlockTexts(turns[0].blocks), '\n');
      (if text != "" then [TextTurn(turns[0].ordinal, text)] else []) + TextTurns(turns[1..])
  }

  function PieceOf(turn: TextTurn): string
  {
    "[turn " + Digits(turn.ordinal) + "] " + turn.text
  }

  function Pieces(turns: seq<TextTurn>): (pieces: seq<string>)
    ensures |pieces| == |turns|
    ensures forall i :: 0 <= i < |pieces| ==> pieces[i] == PieceOf(turns[i]) != ""
  {
    seq(|turns|, i requires 0 <= i < |turns| => PieceOf(turns[i]))
  }

  function Age(now: int, updatedAt: int): (days: nat)
    ensures now <= updatedAt ==> days == 0
    ensures now > updatedAt ==> days * 86_400_000 <= now - updatedAt < (days + 1) * 86_400_000
  {
    Max(0, (now - updatedAt) / DAY)
  }

  function Heading(number: nat, id: string, turnStart: nat, turnEnd: nat, ageDays: nat): string
  {
    "\n## [" + Digits(number) + "] " + id + " turns " + Digits(turnStart) + "-" + Digits(turnEnd) + " age " + Digits(ageDays) + "d\n"
  }

  predicate Eligible(request: Request, now: int, session: Session)
  {
    !(request.strict && Age(now, session.updatedAt) > request.staleAfterDays) && TextTurns(session.turns) != []
  }

  /** What is left for the excerpt once the widest heading is paid for. */
  function Available(request: Request, now: int, session: Session, number: nat, remaining: nat): nat
    requires TextTurns(session.turns) != []
  {
    var turns := TextTurns(session.turns);
    var widest := Heading(number, session.id, turns[0].ordinal, turns[|turns| - 1].ordinal, Age(now, session.updatedAt));
    Min(request.maxExcerptChars, Max(0, remaining - |widest| - 1))
  }

  /** The evidence a session gives as number `number` of a pack with `remaining` characters left. */
  function Quote(request: Request, now: int, session: Session, number: nat, remaining: nat): Evidence
    requires TextTurns(session.turns) != []
  {
    var turns := TextTurns(session.turns);
    var excerpt := Cut(Join(Pieces(turns), '\n'), Available(request, now, session, number, remaining));
    Evidence(session.id, turns[0].ordinal, turns[LastKept(Pieces(turns), |excerpt|)].ordinal, Age(now, session.updatedAt), excerpt)
  }

  function Section(number: nat, e: Evidence): string
  {
    Heading(number, e.sessionId, e.turnStart, e.turnEnd, e.ageDays) + e.excerpt + "\n"
  }

  // ---------------------------------------------------------------- the whole pack

  function Prefix(request: Request): string { "# Memoar evidence\n\nQuery: " + request.query + "\n" }

  function Sections(evidence: seq<Evidence>): (sections: seq<string>)
    ensures |sections| == |evidence|
  {
    seq(|evidence|, k requires 0 <= k < |evidence| => Section(k + 1, evidence[k]))
  }

  function Remaining(request: Request, evidence: seq<Evidence>): int
  {
    Max(0, request.maxTokens * 4 - |Prefix(request)|) - |Concat(Sections(evidence))|
  }

  function SessionIds(evidence: seq<Evidence>): set<string>
  {
    set e | e in evidence :: e.sessionId
  }

  function StaleCount(request: Request, evidence: seq<Evidence>): nat
  {
    if evidence == [] then 0
    else StaleCount(request, evidence[..|evidence| - 1]) + if evidence[|evidence| - 1].ageDays > request.staleAfterDays then 1 else 0
  }

  function PackRedactionStatus(statuses: set<Status>): PackStatus
  {
    if !(Findings in statuses || Reviewed in statuses) then AllClear
    else if Clear in statuses then Mixed else SomeFindings
  }

  /** Whether a pack with this much evidence may still take more. */
  predicate Open(request: Request, evidence: seq<Evidence>)
  {
    |evidence| < request.maxEvidence && |SessionIds(evidence)| < request.maxSessions
  }

  /** Why a pack stops at a candidate it could have used. */
  predicate NoRoom(request: Request, now: int, session: Session, evidence: seq<Evidence>)
  {
    && Eligible(request, now, session) && Remaining(request, evidence) >= 0
    && var number, remaining := |evidence| + 1, Remaining(request, evidence);
       || Available(request, now, session, number, remaining) < 1
       || Overflows(request, now, session, number, remaining)
  }

  /** The last break: the section is longer than what is left. */
  predicate Overflows(request: Request, now: int, session: Session, number: nat, remaining: nat)
    requires TextTurns(session.turns) != []
  {
    |Section(number, Quote(request, now, session, number, remaining))| > remaining
  }

  /** `chosen` are the candidates quoted, in order: every eligible one before `stop`. */
  ghost predicate Quotes(request: Request, now: int, candidates: seq<Session>, chosen: seq<nat>, stop: nat, evidence: seq<Evidence>)
  {
    && |chosen| == |evidence| && stop <= |candidates|
    && (forall k :: 0 <= k < |chosen| ==> chosen[k] < stop && Eligible(request, now, candidates[chosen[k]]))
    && (forall j, k :: 0 <= j < k < |chosen| ==> chosen[j] < chosen[k])
    && (forall c :: 0 <= c < stop && Eligible(request, now, candidates[c]) ==> c in chosen)
    && (forall k :: 0 <= k < |chosen| ==> QuotedAt(request, now, candidates[chosen[k]], evidence, k))
    && Remaining(request, evidence) >= 0
  }

  /** Evidence `k` is its session's quote, taken while there was room for more, with what was then left. */
  predicate QuotedAt(request: Request, now: int, session: Session, evidence: seq<Evidence>, k: nat)
    requires k < |evidence|
  {
    && Eligible(request, now, session)
    && Open(request, evidence[..k])
    && Remaining(request, evidence[..k]) >= 0
    && evidence[k] == Quote(request, now, session, k + 1, Remaining(request, evidence[..k]))
    && evidence[k].excerpt != ""
  }

  /** The end of the list, or where the evidence is full or has no room. */
  predicate StopsAt(request: Request, now: int, candidates: seq<Session>, stop: nat, evidence: seq<Evidence>)
  {
    stop < |candidates| ==> !Open(request, evidence) || NoRoom(request, now, candidates[stop], evidence)
  }

  ghost predicate IsPack(request: Request, now: int, candidates: seq<Session>, chosen: seq<nat>, stop: nat, evidence: seq<Evidence>)
  {
    Quotes(request, now, candidates, chosen, stop, evidence) && StopsAt(request, now, candidates, stop, evidence)
  }

  function Statuses(candidates: seq<Session>, chosen: seq<nat>): set<Status>
  {
    set k | k in chosen && k < |candidates| :: candidates[k].redactionStatus
  }

  method Build(request: Request, now: int, candidates: seq<Session>)
    returns (result: Result, ghost chosen: seq<nat>, ghost stop: nat)
    ensures IsPack(request, now, candidates, chosen, stop, result.evidence)
    ensures result.markdown == Cut(Prefix(request) + Concat(Sections(result.evidence)), request.maxTokens * 4)
    ensures result.tokenEstimate == (|result.markdown| + 3) / 4
    ensures result.staleCount == StaleCount(request, result.evidence)
    ensures result.redactionStatus == PackRedactionStatus(Statuses(candidates, chosen))
  {
    hide Heading, Concat, Prefix, Quotes, Remaining, Sections, StaleCount, Statuses, SessionIds, Join, LastKept,
      TextTurns, Pieces, NoRoom, StopsAt, IsPack, Cut, Age, Digits, PackRedactionStatus;
    Nothing(request, now, candidates);
    var maximumCharacters := request.maxTokens * 4;
    var prefix := Prefix(request);
    var remaining := Max(0, maximumCharacters - |prefix|);
    var evidence: seq<Evidence> := [];
    var selectedSessions: set<string> := {};
    var staleCount := 0;
    var redactions: set<Status> := {};
    var sections: seq<string> := [];
    chosen, stop := [], 0;
    for c := 0 to |candidates|
      invariant sections == Sections(evidence) && remaining == Remaining(request, evidence) >= 0
      invariant selectedSessions == SessionIds(evidence)
      invariant staleCount == StaleCount(request, evidence)
      invariant redactions == Statuses(candidates, chosen)
      invariant stop == c && Quotes(request, now, candidates, chosen, c, evidence)
    {
      if |evidence| >= request.maxEvidence || |selectedSessions| >= request.maxSessions {
        Full(request, now, candidates, c, evidence);
        break;
      }
      var candidate := candidates[c];
      var ageDays := Age(now, candidate.updatedAt);
      var stale := ageDays > request.staleAfterDays;
      if stale && request.strict {
        Skipped(request, now, candidates, chosen, c, evidence);
        stop := c + 1;
        continue;
      }
      var textualTurns := TextTurns(candidate.turns);
      if |textualTurns| == 0 {
        Skipped(request, now, candidates, chosen, c, evidence);
        stop := c + 1;
        continue;
      }
      var number := |evidence| + 1;
      var turnStart := textualTurns[0].ordinal;
      var pieces := Pieces(textualTurns);
      var fullExcerpt := Join(pieces, '\n');
      var widestHeading := Heading(number, candidate.id, turnStart, textualTurns[|textualTurns| - 1].ordinal, ageDays);
      var availableExcerpt := Min(request.maxExcerptChars, Max(0, remaining - |widestHeading| - 1));
      if availableExcerpt < 1 {
        Squeezed(request, now, candidates, c, evidence);
        break;
      }
      var excerpt := Cut(fullExcerpt, availableExcerpt);
      var turnEnd := CitedTurnEnd(Ordinals(textualTurns), pieces, |excerpt|);
      var section := Heading(number, candidate.id, turnStart, turnEnd, ageDays) + excerpt + "\n";
      var item := Evidence(candidate.id, turnStart, turnEnd, ageDays, excerpt);
      PieceBegins(pieces, 0);
      if |section| > remaining {
        Squeezed(request, now, candidates, c, evidence);
        break;
      }
      Appended(request, candidates, chosen, c, evidence, item);
      Taken(request, now, candidates, chosen, c, evidence, item);
      remaining := remaining - |section|;
      sections := sections + [section];
      evidence := evidence + [item];
      selectedSessions := selectedSessions + {candidate.id};
      if stale { staleCount := staleCount + 1; }
      redactions := redactions + {candidate.redactionStatus};
      chosen, stop := chosen + [c], c + 1;
    }
    Whole(request, now, candidates, chosen, stop, evidence);
    var markdown := Cut(prefix + Concat(sections), maximumCharacters);
    result := Result(markdown, evidence, (|markdown| + 3) / 4, staleCount, PackRedactionStatus(redactions));
  }

  function Ordinals(turns: seq<TextTurn>): (r: seq<nat>)
    ensures |r| == |turns| && forall i :: 0 <= i < |turns| ==> r[i] == turns[i].ordinal
  {
    seq(|turns|, i requires 0 <= i < |turns| => turns[i].ordinal)
  }

  lemma {:induction false} Nothing(request: Request, now: int, candidates: seq<Session>)
    ensures Sections([]) == [] && SessionIds([]) == {} && StaleCount(request, []) == 0 && Statuses(candidates, []) == {}
    ensures Remaining(request, []) == Max(0, request.maxTokens * 4 - |Prefix(request)|) >= 0
    ensures Quotes(request, now, candidates, [], 0, [])
  {
  }

  lemma Full(request: Request, now: int, candidates: seq<Session>, c: nat, evidence: seq<Evidence>)
    requires |evidence| >= request.maxEvidence || |SessionIds(evidence)| >= request.maxSessions
    ensures StopsAt(request, now, candidates, c, evidence)
  {
    hide NoRoom, SessionIds;
  }

  lemma Squeezed(request: Request, now: int, candidates: seq<Session>, c: nat, evidence: seq<Evidence>)
    requires c < |candidates| && Eligible(request, now, candidates[c]) && Remaining(request, evidence) >= 0
    requires
      || Available(request, now, candidates[c], |evidence| + 1, Remaining(request, evidence)) < 1
      || Overflows(request, now, candidates[c], |evidence| + 1, Remaining(request, evidence))
    ensures StopsAt(request, now, candidates, c, evidence)
  {
    hide Available, Overflows, Remaining, Open, Eligible;
  }

  lemma Whole(request: Request, now: int, candidates: seq<Session>, chosen: seq<nat>, stop: nat, evidence: seq<Evidence>)
    requires Quotes(request, now, candidates, chosen, stop, evidence)
    requires stop == |candidates| || StopsAt(request, now, candidates, stop, evidence)
    ensures IsPack(request, now, candidates, chosen, stop, evidence)
  {
    hide Quotes, Open, NoRoom;
  }

  lemma Skipped(request: Request, now: int, candidates: seq<Session>, chosen: seq<nat>, c: nat, evidence: seq<Evidence>)
    requires c < |candidates| && Quotes(request, now, candidates, chosen, c, evidence)
    requires !Eligible(request, now, candidates[c])
    ensures Quotes(request, now, candidates, chosen, c + 1, evidence)
  {
    hide QuotedAt, Eligible, Remaining;
  }

  lemma {:induction false} Appended(request: Request, candidates: seq<Session>, chosen: seq<nat>, c: nat, evidence: seq<Evidence>, item: Evidence)
    requires c < |candidates|
    ensures var more, section := evidence + [item], Section(|evidence| + 1, item);
      && Sections(more) == Sections(evidence) + [section]
      && Remaining(request, more) == Remaining(request, evidence) - |section|
      && SessionIds(more) == SessionIds(evidence) + {item.sessionId}
      && StaleCount(request, more) == StaleCount(request, evidence) + (if item.ageDays > request.staleAfterDays then 1 else 0)
      && Statuses(candidates, chosen + [c]) == Statuses(candidates, chosen) + {candidates[c].redactionStatus}
  {
    var more := evidence + [item];
    assert more[..|evidence|] == evidence;
    assert Sections(more) == Sections(evidence) + [Section(|evidence| + 1, item)];
    ConcatAppend(Sections(evidence), Section(|evidence| + 1, item));
  }

  lemma Taken(request: Request, now: int, candidates: seq<Session>, chosen: seq<nat>, c: nat, evidence: seq<Evidence>, item: Evidence)
    requires c < |candidates| && Quotes(request, now, candidates, chosen, c, evidence)
    requires Eligible(request, now, candidates[c]) && Open(request, evidence) && Remaining(request, evidence) >= 0
    requires item == Quote(request, now, candidates[c], |evidence| + 1, Remaining(request, evidence)) && item.excerpt != ""
    requires Remaining(request, evidence + [item]) >= 0
    ensures Quotes(request, now, candidates, chosen + [c], c + 1, evidence + [item])
  {
    hide Section, Sections, Remaining, Eligible, Quote, Open, QuotedAt;
    var more, picked := evidence + [item], chosen + [c];
    forall k | 0 <= k < |picked| ensures QuotedAt(request, now, candidates[picked[k]], more, k) {
      if k < |chosen| {
        QuotedStill(request, now, candidates[chosen[k]], evidence, item, k);
      } else {
        QuotedNew(request, now, candidates[c], evidence, item);
      }
    }
    forall d | 0 <= d < c + 1 && Eligible(request, now, candidates[d]) ensures d in picked {
      if d == c { assert picked[|chosen|] == c; }
    }
  }

  lemma QuotedStill(request: Request, now: int, session: Session, evidence: seq<Evidence>, item: Evidence, k: nat)
    requires k < |evidence| && QuotedAt(request, now, session, evidence, k)
    ensures QuotedAt(request, now, session, evidence + [item], k)
  {
    hide Remaining, Open, Eligible, Quote;
    assert (evidence + [item])[..k] == evidence[..k];
  }

  lemma QuotedNew(request: Request, now: int, session: Session, evidence: seq<Evidence>, item: Evidence)
    requires Eligible(request, now, session) && Open(request, evidence) && Remaining(request, evidence) >= 0
    requires item == Quote(request, now, session, |evidence| + 1, Remaining(request, evidence)) && item.excerpt != ""
    ensures QuotedAt(request, now, session, evidence + [item], |evidence|)
  {
    hide Remaining, Open, Quote;
    assert (evidence + [item])[..|evidence|] == evidence;
  }
}
