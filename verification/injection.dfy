/**
 * The paste-in prelude: which turns of a conversation survive a token budget,
 * and what the report says of the rest. A section is one rendered turn.
 */
module Injection {
  import opened Wrappers
  import opened Text

  datatype Section = Section(turnId: nat, blockId: nat, ordinal: int, text: string)

  datatype Degraded = Degraded(turnId: nat, blockId: nat, removed: int)

  /** Turns `from` to `to` inclusive, dropped for the budget. */
  datatype Omission = Omission(from: int, to: int)

  class Report {
    var mapped: nat
    var degraded: seq<Degraded>
    var dropped: seq<Omission>

    constructor ()
      ensures mapped == 0 && degraded == [] && dropped == []
    {
      mapped, degraded, dropped := 0, [], [];
    }
  }

  // ---------------------------------------------------------------- what is chosen

  function Size(sections: seq<Section>): nat
  {
    if sections == [] then 0 else |sections[0].text| + Size(sections[1..])
  }

  /** Where the longest suffix that starts at or after `low` and fits in `room` starts. */
  function SuffixStart(sections: seq<Section>, low: nat, room: nat): (k: nat)
    requires low <= |sections|
    ensures low <= k <= |sections|
    decreases |sections| - low
  {
    if low == |sections| || Size(sections[low..]) <= room then low else SuffixStart(sections, low + 1, room)
  }

  /** What `select` decides: turns kept whole, or the one it has to cut. */
  datatype Choice =
    | Whole(opening: bool, k: nat)
    | CutFirst
    | OpeningAndCutLast(room: nat)

  function Opens(sections: seq<Section>, maxTokens: nat): bool
  {
    sections != [] && |sections[0].text| <= maxTokens
  }

  function Room(sections: seq<Section>, maxTokens: nat): nat
  {
    if Opens(sections, maxTokens) then maxTokens * 4 - |sections[0].text| else maxTokens * 4
  }

  function Low(sections: seq<Section>, maxTokens: nat): nat
  {
    if Opens(sections, maxTokens) then 1 else 0
  }

  function Choose(sections: seq<Section>, maxTokens: nat): Choice
  {
    var n := |sections|;
    var opening := Opens(sections, maxTokens);
    var k := SuffixStart(sections, Low(sections, maxTokens), Room(sections, maxTokens));
    if n == 0 then Whole(false, 0)
    else if k == n && !opening then (if maxTokens == 0 then Whole(false, n) else CutFirst)
    else if k == n && n > 1 && Room(sections, maxTokens) > 0 then OpeningAndCutLast(Room(sections, maxTokens))
    else Whole(opening, k)
  }

  /** At most the first `budget` characters, and the marker behind them. */
  function Truncated(section: Section, budget: nat): Section
  {
    var cut := |section.text| - budget;
    section.(text := (if budget <= |section.text| then section.text[..budget] else section.text)
      + "\n[Memoar truncated " + Signed(cut) + " characters]\n")
  }

  function Signed(n: int): string { if n < 0 then "-" + Digits(-n) else Digits(n) }

  function CutEntry(section: Section, budget: nat): Degraded
  {
    Degraded(section.turnId, section.blockId, |section.text| - budget)
  }

  function Included(sections: seq<Section>, maxTokens: nat): seq<Section>
  {
    match Choose(sections, maxTokens)
    case Whole(opening, k) => (if opening && sections != [] then [sections[0]] else []) + (if k <= |sections| then sections[k..] else [])
    case CutFirst => if sections == [] then [] else [Truncated(sections[0], maxTokens * 4)]
    case OpeningAndCutLast(room) => if sections == [] then [] else [sections[0], Truncated(sections[|sections| - 1], room)]
  }

  function Cuts(sections: seq<Section>, maxTokens: nat): seq<Degraded>
  {
    match Choose(sections, maxTokens)
    case Whole(_, _) => []
    case CutFirst => if sections == [] then [] else [CutEntry(sections[0], maxTokens * 4)]
    case OpeningAndCutLast(room) => if sections == [] then [] else [CutEntry(sections[|sections| - 1], room)]
  }

  // ---------------------------------------------------------------- the loops

  lemma {:induction false} SuffixStartOnly(sections: seq<Section>, low: nat, room: nat, k: nat)
    requires low <= k <= |sections|
    requires k == |sections| || Size(sections[k..]) <= room
    requires k > low ==> Size(sections[k - 1..]) > room
    ensures SuffixStart(sections, low, room) == k
    decreases |sections| - low
  {
    if low < k {
      SuffixShrinks(sections, low, k - 1);
      SuffixStartOnly(sections, low + 1, room, k);
    }
  }

  lemma {:induction false} SuffixShrinks(sections: seq<Section>, i: nat, j: nat)
    requires i <= j <= |sections|
    ensures Size(sections[i..]) >= Size(sections[j..])
    decreases j - i
  {
    if i < j {
      assert sections[i..][1..] == sections[i + 1..];
      SuffixShrinks(sections, i + 1, j);
    }
  }

  lemma SizeFrom(sections: seq<Section>, i: nat)
    requires i < |sections|
    ensures Size(sections[i..]) == |sections[i].text| + Size(sections[i + 1..])
  {
    assert sections[i..][1..] == sections[i + 1..];
  }

  lemma SizeNone(sections: seq<Section>)
    ensures Size(sections[|sections|..]) == 0
  {
  }

  /** What is included and cut, by where the tail starts. */
  lemma {:induction false} Chosen(sections: seq<Section>, maxTokens: nat, k: nat)
    requires sections != [] && k <= |sections| && k == SuffixStart(sections, Low(sections, maxTokens), Room(sections, maxTokens))
    ensures var first, last, room := sections[0], sections[|sections| - 1], Room(sections, maxTokens);
      var included, cuts := Included(sections, maxTokens), Cuts(sections, maxTokens);
      if k < |sections| then included == (if Opens(sections, maxTokens) then [first] else []) + sections[k..] && cuts == []
      else if !Opens(sections, maxTokens) then
        if maxTokens == 0 then included == [] && cuts == []
        else included == [Truncated(first, maxTokens * 4)] && cuts == [CutEntry(first, maxTokens * 4)]
      else if |sections| > 1 && room > 0 then included == [first, Truncated(last, room)] && cuts == [CutEntry(last, room)]
      else included == [first] && cuts == []
  {
    hide SuffixStart, Truncated;
  }

  lemma NothingChosen(maxTokens: nat)
    ensures Included([], maxTokens) == [] && Cuts([], maxTokens) == []
  {
  }

  class InjectionFallbackWriter {
    const maxTokens: nat

    constructor (maxTokens: nat)
      ensures this.maxTokens == maxTokens
    {
      this.maxTokens := maxTokens;
    }

    method Truncate(section: Section, budget: int, report: Report) returns (r: Option<Section>)
      modifies report`degraded
      ensures budget <= 0 ==> r.None? && report.degraded == old(report.degraded)
      ensures budget > 0 ==> r == Some(Truncated(section, budget)) && report.degraded == old(report.degraded) + [CutEntry(section, budget)]
    {
      if budget <= 0 { return None; }
      var cut := |section.text| - budget;
      report.degraded := report.degraded + [Degraded(section.turnId, section.blockId, cut)];
      return Some(section.(text := (if budget <= |section.text| then section.text[..budget] else section.text)
        + "\n[Memoar truncated " + Signed(cut) + " characters]\n"));
    }

    method Select(sections: seq<Section>, report: Report) returns (opening: Option<Section>, tail: seq<Section>)
      modifies report`degraded
      ensures (if opening.Some? then [opening.value] else []) + tail == Included(sections, maxTokens)
      ensures report.degraded == old(report.degraded) + Cuts(sections, maxTokens)
    {
      hide SuffixStart, Truncated, Size, Included, Cuts, Choose, CutEntry;
      NothingChosen(maxTokens);
      var budget := maxTokens * 4;
      if |sections| == 0 { return None, []; }
      var first := sections[0];
      opening := if |first.text| <= maxTokens then Some(first) else None;
      var remaining := budget - if opening.Some? then |opening.value.text| else 0;
      tail := [];
      var low := if opening.Some? then 1 else 0;
      SizeNone(sections);
      var index := |sections| - 1;
      while index >= low
        invariant low - 1 <= index < |sections|
        invariant report.degraded == old(report.degraded)
        invariant tail == sections[index + 1..]
        invariant remaining == Room(sections, maxTokens) - Size(sections[index + 1..]) >= 0
      {
        var section := sections[index];
        SizeFrom(sections, index);
        if |section.text| > remaining { break; }
        remaining := remaining - |section.text|;
        tail := [section] + tail;
        index := index - 1;
      }
      SuffixStartOnly(sections, low, Room(sections, maxTokens), index + 1);
      Chosen(sections, maxTokens, index + 1);
      if |tail| == 0 && opening.None? {
        opening := Truncate(first, budget, report);
        return opening, [];
      }
      if |tail| == 0 && |sections| > 1 {
        var last := Truncate(sections[|sections| - 1], remaining, report);
        return opening, if last.Some? then [last.value] else [];
      }
    }

    /** One omission per run of turns not kept. */
    method Omissions(sections: seq<Section>, included: seq<Section>, report: Report)
      modifies report`dropped
      ensures old(report.dropped) <= report.dropped
      ensures Consecutive(sections) ==> Runs(report.dropped[|old(report.dropped)|..], sections, Ordinals(included), |sections|)
    {
      hide Scanned, Consecutive, Runs, Ordinals;
      var kept := Ordinals(included);
      ScanStarts(sections, kept);
      var ranges: seq<Omission> := [];
      var start: Option<int> := None;
      for i := 0 to |sections|
        invariant report.dropped == old(report.dropped)
        invariant Scanned(ranges, start, sections, kept, i)
        invariant start.Some? ==> sections != []
      {
        Scan(ranges, start, sections, kept, i);
        var ordinal := sections[i].ordinal;
        if ordinal !in kept {
          if start.None? { start := Some(ordinal); }
          continue;
        }
        if start.Some? { ranges := ranges + [Omission(start.value, ordinal - 1)]; }
        start := None;
      }
      ScanEnds(ranges, start, sections, kept);
      if start.Some? {
        ranges := ranges + [Omission(start.value, sections[|sections| - 1].ordinal)];
      }
      report.dropped := report.dropped + ranges;
      assert report.dropped[|old(report.dropped)|..] == ranges;
    }

    method Write(sections: seq<Section>, report: Report) returns (included: seq<Section>)
      requires report.dropped == [] && report.degraded == []
      modifies report
      ensures included == Included(sections, maxTokens)
      ensures report.mapped == |included|
      ensures report.degraded == Cuts(sections, maxTokens)
      ensures Consecutive(sections) ==> Runs(report.dropped, sections, Ordinals(included), |sections|)
    {
      var opening, tail := Select(sections, report);
      included := (if opening.Some? then [opening.value] else []) + tail;
      report.mapped := |included|;
      Omissions(sections, included, report);
    }
  }

  // ---------------------------------------------------------------- omissions

  predicate Consecutive(sections: seq<Section>)
  {
    forall i :: 0 <= i < |sections| ==> sections[i].ordinal == sections[0].ordinal + i
  }

  function Ordinals(sections: seq<Section>): set<int>
  {
    set s | s in sections :: s.ordinal
  }

  predicate Covers(ranges: seq<Omission>, ordinal: int)
  {
    exists r :: r in ranges && r.from <= ordinal <= r.to
  }

  /** `ranges` cover exactly the turns before `n` that are not kept, in order and apart from each other. */
  predicate Runs(ranges: seq<Omission>, sections: seq<Section>, kept: set<int>, n: nat)
    requires n <= |sections|
  {
    && (forall i :: 0 <= i < n ==> (Covers(ranges, sections[i].ordinal) <==> sections[i].ordinal !in kept))
    && (forall r :: r in ranges ==> sections != [] && sections[0].ordinal <= r.from <= r.to < sections[0].ordinal + n)
    && (forall a, b :: 0 <= a < b < |ranges| ==> ranges[a].to + 1 < ranges[b].from)
  }

  predicate Scanning(ranges: seq<Omission>, start: Option<int>, sections: seq<Section>, kept: set<int>, i: nat)
    requires i <= |sections|
  {
    if start.None? then Runs(ranges, sections, kept, i) && (ranges != [] ==> ranges[|ranges| - 1].to + 1 < sections[0].ordinal + i)
    else
      && i > 0 && sections[0].ordinal <= start.value < sections[0].ordinal + i
      && Runs(ranges, sections, kept, start.value - sections[0].ordinal)
      && (ranges != [] ==> ranges[|ranges| - 1].to + 1 < start.value)
      && (forall j :: start.value - sections[0].ordinal <= j < i ==> sections[j].ordinal !in kept)
  }

  /** The open run, closed at turn `i`. */
  lemma Close(ranges: seq<Omission>, start: int, sections: seq<Section>, kept: set<int>, i: nat)
    requires 0 < i <= |sections|
    ensures Consecutive(sections) && Scanning(ranges, Some(start), sections, kept, i)
      ==> Runs(ranges + [Omission(start, sections[i - 1].ordinal)], sections, kept, i)
  {
    if Consecutive(sections) && Scanning(ranges, Some(start), sections, kept, i) {
      var last := Omission(start, sections[i - 1].ordinal);
      var more := ranges + [last];
      forall o ensures Covers(more, o) <==> Covers(ranges, o) || last.from <= o <= last.to {
        CoversOneMore(ranges, last, o);
      }
      assert forall j :: 0 <= j < start - sections[0].ordinal ==> sections[j].ordinal < start;
      forall j | start - sections[0].ordinal <= j < i ensures last.from <= sections[j].ordinal <= last.to {
      }
    }
  }

  lemma CoversOneMore(ranges: seq<Omission>, last: Omission, ordinal: int)
    ensures Covers(ranges + [last], ordinal) <==> Covers(ranges, ordinal) || last.from <= ordinal <= last.to
  {
    var more := ranges + [last];
    assert more[|ranges|] == last;
    if Covers(ranges, ordinal) {
      var r :| r in ranges && r.from <= ordinal <= r.to;
      assert r in more;
    }
  }

  predicate Scanned(ranges: seq<Omission>, start: Option<int>, sections: seq<Section>, kept: set<int>, i: nat)
    requires i <= |sections|
  {
    Consecutive(sections) ==> Scanning(ranges, start, sections, kept, i)
  }

  lemma ScanStarts(sections: seq<Section>, kept: set<int>)
    ensures Scanned([], None, sections, kept, 0)
  {
  }

  /** One turn of the scan. */
  lemma Scan(ranges: seq<Omission>, start: Option<int>, sections: seq<Section>, kept: set<int>, i: nat)
    requires i < |sections| && Scanned(ranges, start, sections, kept, i)
    ensures var o := sections[i].ordinal;
      if o !in kept then Scanned(ranges, if start.None? then Some(o) else start, sections, kept, i + 1)
      else Scanned(if start.Some? then ranges + [Omission(start.value, o - 1)] else ranges, None, sections, kept, i + 1)
  {
    hide Runs;
    if Consecutive(sections) && sections[i].ordinal in kept {
      var o := sections[i].ordinal;
      if start.Some? {
        Close(ranges, start.value, sections, kept, i);
        assert o - 1 == sections[i - 1].ordinal;
        KeptNext(ranges + [Omission(start.value, o - 1)], sections, kept, i);
      } else {
        KeptNext(ranges, sections, kept, i);
      }
    }
  }

  lemma KeptNext(ranges: seq<Omission>, sections: seq<Section>, kept: set<int>, i: nat)
    requires i < |sections| && Consecutive(sections) && Runs(ranges, sections, kept, i)
    requires sections[i].ordinal in kept
    ensures Runs(ranges, sections, kept, i + 1)
  {
    NotBeyond(ranges, sections, kept, i, sections[i].ordinal);
  }

  lemma ScanEnds(ranges: seq<Omission>, start: Option<int>, sections: seq<Section>, kept: set<int>)
    requires Scanned(ranges, start, sections, kept, |sections|)
    requires start.Some? ==> sections != []
    ensures var whole := if start.Some? then ranges + [Omission(start.value, sections[|sections| - 1].ordinal)] else ranges;
      Consecutive(sections) ==> Runs(whole, sections, kept, |sections|)
  {
    if start.Some? {
      Close(ranges, start.value, sections, kept, |sections|);
    }
  }

  lemma NotBeyond(ranges: seq<Omission>, sections: seq<Section>, kept: set<int>, n: nat, ordinal: int)
    requires n <= |sections| && Runs(ranges, sections, kept, n)
    requires sections != [] ==> ordinal >= sections[0].ordinal + n
    ensures !Covers(ranges, ordinal)
  {
  }

  // ---------------------------------------------------------------- theorems

  /** The tail is the longest: no earlier start would have fitted. */
  lemma LongestSuffix(sections: seq<Section>, maxTokens: nat, j: nat)
    requires Choose(sections, maxTokens).Whole?
    requires Low(sections, maxTokens) <= j < Choose(sections, maxTokens).k
    requires Choose(sections, maxTokens).k <= |sections|
    ensures Size(sections[Choose(sections, maxTokens).k..]) <= Room(sections, maxTokens)
    ensures Size(sections[j..]) > Room(sections, maxTokens)
  {
    SuffixLongest(sections, Low(sections, maxTokens), Room(sections, maxTokens), j);
  }

  lemma {:induction false} SuffixLongest(sections: seq<Section>, low: nat, room: nat, j: nat)
    requires low <= |sections| && low <= j < SuffixStart(sections, low, room)
    ensures Size(sections[SuffixStart(sections, low, room)..]) <= room
    ensures Size(sections[j..]) > room
    decreases |sections| - low
  {
    if low < j {
      SuffixLongest(sections, low + 1, room, j);
    } else {
      SuffixFits(sections, low, room);
    }
  }

  lemma {:induction false} SuffixFits(sections: seq<Section>, low: nat, room: nat)
    requires low <= |sections|
    ensures Size(sections[SuffixStart(sections, low, room)..]) <= room
    decreases |sections| - low
  {
    if low < |sections| && Size(sections[low..]) > room {
      SuffixFits(sections, low + 1, room);
    }
  }

  /** An opening of at most a quarter of the budget is always kept whole and first, and with any budget something is kept. */
  lemma OpeningKept(sections: seq<Section>, maxTokens: nat)
    requires sections != []
    ensures |sections[0].text| * 4 <= maxTokens * 4 ==> Included(sections, maxTokens) != [] && Included(sections, maxTokens)[0] == sections[0]
    ensures maxTokens > 0 ==> Included(sections, maxTokens) != []
  {
    hide SuffixStart, Truncated;
    var low, room := Low(sections, maxTokens), Room(sections, maxTokens);
    assert low <= SuffixStart(sections, low, room) <= |sections|;
  }

  /** A kept turn and how many characters of it are kept. */
  datatype Part = Part(index: nat, kept: nat)

  function WholeParts(sections: seq<Section>, k: nat): (parts: seq<Part>)
    requires k <= |sections|
    ensures |parts| == |sections| - k
    ensures forall i :: 0 <= i < |parts| ==> parts[i] == Part(k + i, |sections[k + i].text|)
  {
    seq(|sections| - k, i requires 0 <= i < |sections| - k => Part(k + i, |sections[k + i].text|))
  }

  function Parts(sections: seq<Section>, maxTokens: nat): seq<Part>
  {
    match Choose(sections, maxTokens)
    case Whole(opening, k) =>
      (if opening && sections != [] then [Part(0, |sections[0].text|)] else []) + (if k <= |sections| then WholeParts(sections, k) else [])
    case CutFirst => if sections == [] then [] else [Part(0, Min(|sections[0].text|, maxTokens * 4))]
    case OpeningAndCutLast(room) =>
      if sections == [] then [] else [Part(0, |sections[0].text|), Part(|sections| - 1, Min(|sections[|sections| - 1].text|, room))]
  }

  function Kept(parts: seq<Part>): nat
  {
    if parts == [] then 0 else parts[0].kept + Kept(parts[1..])
  }

  /** An included section is its turn, whole or cut to a prefix. */
  ghost predicate FromPart(sections: seq<Section>, part: Part, included: Section)
  {
    && part.index < |sections| && part.kept <= |sections[part.index].text|
    && included.turnId == sections[part.index].turnId && included.ordinal == sections[part.index].ordinal
    && (|| (included.text == sections[part.index].text && part.kept == |sections[part.index].text|)
        || (exists n :: included.text == sections[part.index].text[..part.kept] + "\n[Memoar truncated " + Signed(n) + " characters]\n"))
  }

  lemma {:induction false} KeptWhole(sections: seq<Section>, k: nat)
    requires k <= |sections|
    ensures Kept(WholeParts(sections, k)) == Size(sections[k..])
    decreases |sections| - k
  {
    if k < |sections| {
      assert WholeParts(sections, k)[1..] == WholeParts(sections, k + 1);
      assert sections[k..][1..] == sections[k + 1..];
      KeptWhole(sections, k + 1);
    }
  }

  /**
   * The prelude ends with the last turn, unless neither the first is short enough
   * to open it nor the last fits; and a last turn that is cut spends what is left.
   */
  lemma EndingKept(sections: seq<Section>, maxTokens: nat)
    requires sections != [] && maxTokens > 0
    ensures var parts, last := Parts(sections, maxTokens), |sections| - 1;
      parts != [] && var ending := parts[|parts| - 1];
      && (ending.index == last <==> last == 0 || |sections[0].text| <= maxTokens || |sections[last].text| <= maxTokens * 4)
      && (ending.index == last > 0 && ending.kept < |sections[last].text| ==> Kept(parts) == maxTokens * 4)
  {
    hide SuffixStart;
    var n, low, room := |sections|, Low(sections, maxTokens), Room(sections, maxTokens);
    var k, parts := SuffixStart(sections, low, room), Parts(sections, maxTokens);
    if low < n {
      LastTooLong(sections, low, room);
    }
    match Choose(sections, maxTokens)
    case Whole(opening, from) =>
      if from < n {
        assert parts[|parts| - 1] == WholeParts(sections, from)[n - from - 1];
      }
    case CutFirst =>
    case OpeningAndCutLast(left) =>
      KeptTwo(parts[0], parts[1]);
  }

  lemma KeptTwo(first: Part, second: Part)
    ensures Kept([first, second]) == first.kept + second.kept
  {
    assert [first, second][1..] == [second] && [second][1..] == [];
    assert Kept([second]) == second.kept;
  }

  /** Every included section comes from one part. */
  lemma IncludedFromParts(sections: seq<Section>, maxTokens: nat)
    ensures |Parts(sections, maxTokens)| == |Included(sections, maxTokens)|
    ensures forall p :: 0 <= p < |Parts(sections, maxTokens)| ==>
      FromPart(sections, Parts(sections, maxTokens)[p], Included(sections, maxTokens)[p])
  {
    hide SuffixStart, Digits;
    var parts, included := Parts(sections, maxTokens), Included(sections, maxTokens);
    var choice := Choose(sections, maxTokens);
    match choice
    case Whole(opening, k) =>
      var ahead := if opening then 1 else 0;
      forall p | 0 <= p < |parts| ensures FromPart(sections, parts[p], included[p]) {
        if p >= ahead {
          assert parts[p] == WholeParts(sections, k)[p - ahead];
          assert included[p] == sections[k + p - ahead];
        }
      }
    case CutFirst =>
      CutFromPart(sections, 0, maxTokens * 4);
    case OpeningAndCutLast(room) =>
      CutFromPart(sections, |sections| - 1, room);
  }

  lemma CutFromPart(sections: seq<Section>, i: nat, budget: nat)
    requires i < |sections|
    ensures FromPart(sections, Part(i, Min(|sections[i].text|, budget)), Truncated(sections[i], budget))
  {
  }

  /** The characters kept of the turns, without the marker a cut adds, never exceed the budget. */
  lemma SourceWithinBudget(sections: seq<Section>, maxTokens: nat)
    ensures Kept(Parts(sections, maxTokens)) <= maxTokens * 4
  {
    var parts := Parts(sections, maxTokens);
    var low, room := Low(sections, maxTokens), Room(sections, maxTokens);
    hide SuffixStart;
    SuffixFits(sections, low, room);
    match Choose(sections, maxTokens)
    case Whole(opening, k) =>
      KeptWhole(sections, k);
      if opening {
        assert parts[1..] == WholeParts(sections, k);
      } else {
        assert parts == WholeParts(sections, k);
      }
    case CutFirst =>
      assert parts[1..] == [];
    case OpeningAndCutLast(r) =>
      assert parts[1..] == [parts[1]] && parts[1..][1..] == [];
      assert Kept(parts[1..]) == parts[1].kept <= r;
      assert Opens(sections, maxTokens);
  }

  /** Which turns are kept: the first or not, then everything from one place on. */
  lemma KeptTurns(sections: seq<Section>, maxTokens: nat) returns (opening: bool, k: nat)
    requires Consecutive(sections)
    ensures k <= |sections| && (opening ==> k >= 1)
    ensures |Included(sections, maxTokens)| == |sections| - k + if opening then 1 else 0
    ensures forall i :: 0 <= i < |sections| ==>
      (sections[i].ordinal in Ordinals(Included(sections, maxTokens)) <==> (opening && i == 0) || i >= k)
  {
    var included := Included(sections, maxTokens);
    hide SuffixStart;
    match Choose(sections, maxTokens) {
      case Whole(o, j) => opening, k := o, j;
      case CutFirst => opening, k := true, |sections|;
      case OpeningAndCutLast(_) => opening, k := true, |sections| - 1;
    }
    forall i | 0 <= i < |sections|
      ensures sections[i].ordinal in Ordinals(included) <==> (opening && i == 0) || i >= k
    {
      if opening && i == 0 {
        assert included[0].ordinal == sections[i].ordinal && included[0] in included;
      } else if i >= k {
        var at := i - k + if opening then 1 else 0;
        assert included[at].ordinal == sections[i].ordinal && included[at] in included;
      }
    }
  }

  /** At most one omission, exactly the turns not kept; kept and omitted turns add up. */
  lemma OneOmission(sections: seq<Section>, maxTokens: nat, dropped: seq<Omission>)
    requires Consecutive(sections)
    requires Runs(dropped, sections, Ordinals(Included(sections, maxTokens)), |sections|)
    ensures |dropped| <= 1
    ensures |Included(sections, maxTokens)| + (if dropped == [] then 0 else dropped[0].to - dropped[0].from + 1) == |sections|
  {
    var kept := Ordinals(Included(sections, maxTokens));
    var opening, k := KeptTurns(sections, maxTokens);
    hide Included, Ordinals;
    var from := if opening then 1 else 0;
    var base := if sections == [] then 0 else sections[0].ordinal;
    NotApart(dropped, sections, kept, opening, k);
    if dropped == [] {
      assert from < k ==> !Covers(dropped, sections[from].ordinal);
    } else {
      var r := dropped[0];
      assert r in dropped;
      assert Covers(dropped, sections[r.from - base].ordinal) && Covers(dropped, sections[r.to - base].ordinal);
      assert from <= r.from - base && r.to - base < k;
      assert Covers(dropped, sections[from].ordinal) && Covers(dropped, sections[k - 1].ordinal);
    }
  }

  lemma NotApart(dropped: seq<Omission>, sections: seq<Section>, kept: set<int>, opening: bool, k: nat)
    requires Consecutive(sections) && Runs(dropped, sections, kept, |sections|)
    requires k <= |sections|
    requires forall i :: 0 <= i < |sections| ==> (sections[i].ordinal in kept <==> (opening && i == 0) || i >= k)
    ensures |dropped| <= 1
  {
    if |dropped| >= 2 {
      var i, j := Gap(dropped, sections, kept);
    }
  }

  /** Two omissions have a kept turn between turns that are not. */
  lemma Gap(dropped: seq<Omission>, sections: seq<Section>, kept: set<int>) returns (i: nat, j: nat)
    requires Consecutive(sections) && Runs(dropped, sections, kept, |sections|) && |dropped| >= 2
    ensures 0 < i < j < |sections|
    ensures sections[i - 1].ordinal !in kept && sections[i].ordinal in kept && sections[j].ordinal !in kept
  {
    var a, b := dropped[0], dropped[1];
    assert a in dropped && b in dropped;
    var base := sections[0].ordinal;
    i, j := a.to + 1 - base, b.from - base;
    assert Covers(dropped, sections[i - 1].ordinal) && Covers(dropped, sections[j].ordinal);
    forall r | r in dropped ensures !(r.from <= a.to + 1 <= r.to) {
      var c :| 0 <= c < |dropped| && dropped[c] == r;
      assert c > 1 ==> b.to + 1 < dropped[c].from;
    }
  }

  /** The first turn is past a quarter of the budget but within it, and the last one is past it. */
  predicate FitsButCut(sections: seq<Section>, maxTokens: nat)
  {
    && sections != []
    && maxTokens < |sections[0].text| <= maxTokens * 4
    && |sections[|sections| - 1].text| > maxTokens * 4
  }

  /** A cut is reported with a count that is not positive exactly when the turn cut would have fitted. */
  lemma CutCountExact(sections: seq<Section>, maxTokens: nat)
    ensures |Cuts(sections, maxTokens)| <= 1
    ensures (exists c :: c in Cuts(sections, maxTokens) && c.removed <= 0) <==> FitsButCut(sections, maxTokens)
    ensures FitsButCut(sections, maxTokens) ==>
      Included(sections, maxTokens) == [Truncated(sections[0], maxTokens * 4)] && sections[0].text < Included(sections, maxTokens)[0].text
  {
    hide SuffixStart, Truncated;
    if sections != [] {
      var low, room := Low(sections, maxTokens), Room(sections, maxTokens);
      CutsNothingWhole(sections, maxTokens);
      if low < |sections| {
        LastTooLong(sections, low, room);
      }
      if FitsButCut(sections, maxTokens) {
        WholeStillMarked(sections[0], maxTokens * 4);
        assert CutEntry(sections[0], maxTokens * 4) in Cuts(sections, maxTokens);
      }
    }
  }

  lemma CutsNothingWhole(sections: seq<Section>, maxTokens: nat)
    requires sections != []
    ensures forall c :: c in Cuts(sections, maxTokens) ==>
      var choice := Choose(sections, maxTokens);
      if choice.CutFirst? then c.removed == |sections[0].text| - maxTokens * 4
      else choice.OpeningAndCutLast? && c.removed == |sections[|sections| - 1].text| - choice.room
  {
    hide SuffixStart;
  }

  lemma WholeStillMarked(section: Section, budget: nat)
    requires |section.text| <= budget
    ensures section.text < Truncated(section, budget).text
  {
    hide Digits;
  }

  /** No suffix fits exactly when the last turn alone does not. */
  lemma {:induction false} LastTooLong(sections: seq<Section>, low: nat, room: nat)
    requires low < |sections|
    ensures SuffixStart(sections, low, room) == |sections| <==> |sections[|sections| - 1].text| > room
    decreases |sections| - low
  {
    var n := |sections|;
    assert sections[n - 1..] == [sections[n - 1]];
    assert [sections[n - 1]][1..] == [];
    assert Size(sections[n - 1..]) == |sections[n - 1].text|;
    if low < n - 1 {
      LastTooLong(sections, low + 1, room);
      SuffixShrinks(sections, low, n - 1);
    } else {
      assert SuffixStart(sections, low + 1, room) == n;
    }
  }

  /** Two characters within a budget of four are reported as cut by minus two. */
  lemma CutByMinusTwo(first: Section, last: Section)
    requires |first.text| == 2 && |last.text| == 5
    ensures FitsButCut([first, last], 1)
    ensures Cuts([first, last], 1) == [Degraded(first.turnId, first.blockId, -2)]
    ensures Included([first, last], 1) == [first.(text := first.text + "\n[Memoar truncated -2 characters]\n")]
  {
    LastTooLong([first, last], 0, 4);
    assert Included([first, last], 1) == [Truncated(first, 4)];
    assert Signed(-2) == "-" + "2" == "-2";
    var opens, closes := "\n[Memoar truncated ", " characters]\n";
    assert first.text + opens + "-2" + closes == first.text + (opens + "-2" + closes);
    assert opens + "-2" + closes == "\n[Memoar truncated -2 characters]\n";
  }
}
