/**
 * Which turn a cut excerpt reaches. Pieces are joined by newlines and the text
 * is cut at a length; both the evidence pack and `get_excerpt` then name the
 * last turn that begins inside what was kept.
 */
module Citation {
  import opened Wrappers
  import opened Text

  /** Where piece `i` begins in the joined text. */
  function Offset(pieces: seq<string>, i: nat): nat
    requires i <= |pieces|
  {
    if i == 0 then 0 else Offset(pieces, i - 1) + |pieces[i - 1]| + 1
  }

  /** The greatest index up to `n` whose piece begins before `kept`, or 0. */
  function LastFrom(pieces: seq<string>, kept: nat, n: nat): (last: nat)
    requires n < |pieces|
    ensures last <= n
    ensures last == 0 || Offset(pieces, last) < kept
    ensures forall i :: last < i <= n ==> Offset(pieces, i) >= kept
  {
    if n == 0 || Offset(pieces, n) < kept then n else LastFrom(pieces, kept, n - 1)
  }

  function LastKept(pieces: seq<string>, kept: nat): (last: nat)
    requires pieces != []
    ensures last < |pieces|
    ensures last == 0 || Offset(pieces, last) < kept
    ensures forall i :: last < i < |pieces| ==> Offset(pieces, i) >= kept
  {
    LastFrom(pieces, kept, |pieces| - 1)
  }

  lemma {:induction false} OffsetsGrow(pieces: seq<string>, i: nat, j: nat)
    requires i < j <= |pieces|
    ensures Offset(pieces, i) < Offset(pieces, j)
  {
    if i < j - 1 {
      OffsetsGrow(pieces, i, j - 1);
    }
  }

  /** Nothing else begins inside, and nothing later: the index is the only one of its kind. */
  lemma LastKeptOnly(pieces: seq<string>, kept: nat, last: nat)
    requires last < |pieces| && (last == 0 || Offset(pieces, last) < kept)
    requires last + 1 < |pieces| ==> Offset(pieces, last + 1) >= kept
    ensures last == LastKept(pieces, kept)
  {
    var other := LastKept(pieces, kept);
    if other > last + 1 {
      OffsetsGrow(pieces, last + 1, other);
    }
  }

  // ---------------------------------------------------------------- the two loops

  /** The loop of the evidence pack: the ordinal of the last turn quoted. */
  method CitedTurnEnd(ordinals: seq<nat>, pieces: seq<string>, keptLength: nat) returns (ordinal: nat)
    requires |ordinals| == |pieces| > 0
    ensures ordinal == ordinals[LastKept(pieces, keptLength)]
  {
    var offset, last := 0, 0;
    for index := 0 to |pieces|
      invariant offset == Offset(pieces, index)
      invariant last == if index == 0 then 0 else index - 1
      invariant last == 0 || Offset(pieces, last) < keptLength
    {
      if offset >= keptLength { break; }
      last := index;
      offset := offset + |pieces[index]| + 1;
    }
    LastKeptOnly(pieces, keptLength, last);
    return ordinals[last];
  }

  /** The loop of `get_excerpt`: the index. */
  method LastKeptIndex(pieces: seq<string>, kept: nat) returns (last: nat)
    requires pieces != []
    ensures last == LastKept(pieces, kept)
  {
    var offset := 0;
    last := 0;
    for index := 0 to |pieces|
      invariant offset == Offset(pieces, index)
      invariant last == if index == 0 then 0 else index - 1
      invariant last == 0 || Offset(pieces, last) < kept
    {
      if offset >= kept { break; }
      last := index;
      offset := offset + |pieces[index]| + 1;
    }
    LastKeptOnly(pieces, kept, last);
  }

  // ---------------------------------------------------------------- the joined text

  lemma {:induction false} JoinSplit(pieces: seq<string>, i: nat)
    requires 0 < i < |pieces|
    ensures Join(pieces, '\n') == Join(pieces[..i], '\n') + "\n" + Join(pieces[i..], '\n')
  {
    if i == 1 {
      assert pieces[..1] == [pieces[0]];
    } else {
      JoinSplit(pieces[1..], i - 1);
      assert pieces[1..][..i - 1] == pieces[..i][1..];
      assert pieces[1..][i - 1..] == pieces[i..];
      assert pieces[..i][0] == pieces[0];
    }
  }

  lemma {:induction false} JoinLength(pieces: seq<string>)
    requires pieces != []
    ensures |Join(pieces, '\n')| == Offset(pieces, |pieces|) - 1
  {
    var n := |pieces| - 1;
    if n > 0 {
      JoinSplit(pieces, n);
      assert pieces[n..] == [pieces[n]];
      JoinLength(pieces[..n]);
      OffsetPrefix(pieces, n, n);
    }
  }

  lemma {:induction false} OffsetPrefix(pieces: seq<string>, n: nat, i: nat)
    requires i <= n <= |pieces|
    ensures Offset(pieces[..n], i) == Offset(pieces, i)
  {
    if i > 0 {
      OffsetPrefix(pieces, n, i - 1);
    }
  }

  /** `text.slice(0, n)` */
  function Cut(text: string, n: nat): (s: string)
    ensures |s| == if n <= |text| then n else |text|
    ensures s <= text
  {
    if n <= |text| then text[..n] else text
  }

  /**
   * The cited turn is exact: everything before it is whole, it contributes at
   * least one character, and nothing after it does.
   */
  lemma {:induction false} CitationExact(pieces: seq<string>, maximum: nat)
    requires pieces != [] && maximum >= 1
    requires forall i :: 0 <= i < |pieces| ==> pieces[i] != ""
    ensures var excerpt := Cut(Join(pieces, '\n'), maximum);
      var last := LastKept(pieces, |excerpt|);
      && excerpt <= Join(pieces[..last + 1], '\n') + "\n"
      && Offset(pieces, last) < |excerpt| && excerpt[Offset(pieces, last)] == pieces[last][0]
      && (last > 0 ==> Join(pieces[..last], '\n') + "\n" <= excerpt)
      && (last + 1 < |pieces| ==> |excerpt| < |Join(pieces, '\n')|)
  {
    hide Join, Offset, LastKept, Cut;
    var whole := Join(pieces, '\n');
    var excerpt := Cut(whole, maximum);
    var last := LastKept(pieces, |excerpt|);
    PieceBegins(pieces, 0);
    OffsetZero(pieces);
    PieceBegins(pieces, last);
    NothingAfter(pieces, last);
    AllBefore(pieces, last);
    var upTo := Join(pieces[..last + 1], '\n') + "\n";
    if last + 1 < |pieces| {
      PieceBegins(pieces, last + 1);
      Prefixes(excerpt, upTo, whole);
    } else {
      assert whole <= upTo;
    }
    if last > 0 {
      Prefixes(Join(pieces[..last], '\n') + "\n", excerpt, whole);
    }
  }

  lemma {:induction false} OffsetZero(pieces: seq<string>)
    ensures Offset(pieces, 0) == 0
  {
  }

  /** Of two prefixes of one text the shorter is a prefix of the longer. */
  lemma Prefixes(a: string, b: string, whole: string)
    requires a <= whole && b <= whole && |a| <= |b|
    ensures a <= b
  {
  }

  /** What begins the joined text up to and including piece `last`. */
  lemma NothingAfter(pieces: seq<string>, last: nat)
    requires last < |pieces|
    ensures var upTo := Join(pieces[..last + 1], '\n');
      if last + 1 < |pieces| then upTo + "\n" <= Join(pieces, '\n') && |upTo| + 1 == Offset(pieces, last + 1) else upTo == Join(pieces, '\n')
  {
    if last + 1 < |pieces| {
      JoinSplit(pieces, last + 1);
      JoinLength(pieces[..last + 1]);
      OffsetPrefix(pieces, last + 1, last + 1);
    } else {
      assert pieces[..last + 1] == pieces;
    }
  }

  lemma {:induction false} AllBefore(pieces: seq<string>, last: nat)
    requires last < |pieces|
    ensures last > 0 ==> Join(pieces[..last], '\n') + "\n" <= Join(pieces, '\n') && |Join(pieces[..last], '\n')| + 1 == Offset(pieces, last)
  {
    if last > 0 {
      NothingAfter(pieces, last - 1);
    }
  }

  lemma {:induction false} PieceBegins(pieces: seq<string>, i: nat)
    requires i < |pieces| && pieces[i] != ""
    ensures Offset(pieces, i) < |Join(pieces, '\n')| && Join(pieces, '\n')[Offset(pieces, i)] == pieces[i][0]
  {
    JoinHead(pieces[i..]);
    if i > 0 {
      JoinSplit(pieces, i);
      JoinLength(pieces[..i]);
      OffsetPrefix(pieces, i, i);
    } else {
      assert pieces[0..] == pieces;
    }
  }

  lemma {:induction false} JoinHead(pieces: seq<string>)
    requires pieces != [] && pieces[0] != ""
    ensures Join(pieces, '\n') != "" && Join(pieces, '\n')[0] == pieces[0][0]
  {
  }

  /** An excerpt that was not cut cites the last turn. */
  lemma {:induction false} UncutCitesLast(pieces: seq<string>)
    requires pieces != [] && forall i :: 0 <= i < |pieces| ==> pieces[i] != ""
    ensures LastKept(pieces, |Join(pieces, '\n')|) == |pieces| - 1
  {
    PieceBegins(pieces, |pieces| - 1);
    LastKeptOnly(pieces, |Join(pieces, '\n')|, |pieces| - 1);
  }

  // ---------------------------------------------------------------- get_excerpt

  datatype Turn = Turn(ordinal: nat, role: string, texts: seq<Option<string>>)

  datatype Answer =
    | EmptySpan(turnCount: nat, first: nat, last: nat)
    | Excerpt(turnStart: nat, turnEnd: nat, requestedTurnEnd: nat, excerpt: string, truncated: bool)

  function Select(turns: seq<Turn>, from: nat, to: nat): (r: seq<Turn>)
    ensures forall t :: t in r <==> t in turns && from <= t.ordinal <= to
  {
    if turns == [] then []
    else
      assert turns == [turns[0]] + turns[1..];
      (if from <= turns[0].ordinal <= to then [turns[0]] else []) + Select(turns[1..], from, to)
  }

  function Texts(blocks: seq<Option<string>>): seq<string>
  {
    seq(|blocks|, i requires 0 <= i < |blocks| => if blocks[i].Some? then blocks[i].value else "")
  }

  function Piece(turn: Turn): string
  {
    "[" + turn.role + " " + Digits(turn.ordinal) + "] " + Join(Texts(turn.texts), '\n')
  }

  /** The texts of all blocks, nothing for one without, with a newline between each two. */
  predicate WrittenOut(text: string, blocks: seq<Option<string>>)
    decreases |blocks|
  {
    if blocks == [] then text == ""
    else
      var head := match blocks[0] case Some(t) => t case None => "";
      if |blocks| == 1 then text == head
      else head + "\n" <= text && WrittenOut(text[|head| + 1..], blocks[1..])
  }

  lemma {:induction false} TextsWritten(blocks: seq<Option<string>>)
    ensures WrittenOut(Join(Texts(blocks), '\n'), blocks)
    decreases |blocks|
  {
    if |blocks| > 1 {
      TextsWritten(blocks[1..]);
      var head, texts := Texts(blocks)[0], Texts(blocks);
      assert texts[1..] == Texts(blocks[1..]);
      var text := Join(texts, '\n');
      assert text == head + ['\n'] + Join(texts[1..], '\n');
      assert text[|head| + 1..] == Join(texts[1..], '\n');
    }
  }

  /** A turn is quoted under its role and ordinal, with everything its blocks say. */
  lemma PieceExact(turn: Turn)
    ensures var lead := "[" + turn.role + " " + Digits(turn.ordinal) + "] ";
      lead <= Piece(turn) && WrittenOut(Piece(turn)[|lead|..], turn.texts)
  {
    var lead := "[" + turn.role + " " + Digits(turn.ordinal) + "] ";
    TextsWritten(turn.texts);
    hide Join, WrittenOut, Texts, Digits;
    assert Piece(turn) == lead + Join(Texts(turn.texts), '\n');
    assert Piece(turn)[|lead|..] == Join(Texts(turn.texts), '\n');
  }

  function PiecesOf(turns: seq<Turn>): (pieces: seq<string>)
    ensures |pieces| == |turns|
    ensures forall i :: 0 <= i < |pieces| ==> pieces[i] == Piece(turns[i]) != ""
  {
    seq(|turns|, i requires 0 <= i < |turns| => Piece(turns[i]))
  }

  /** No turn in the span is an error; otherwise the end cited is the turn the kept text stops in. */
  method GetExcerpt(turns: seq<Turn>, turnStart: nat, turnEnd: nat, maximum: nat) returns (r: Answer)
    requires maximum >= 1
    ensures r.EmptySpan? <==> forall t :: t in turns ==> !(turnStart <= t.ordinal <= turnEnd)
    ensures r.EmptySpan? ==> r.turnCount == |turns|
    ensures r.Excerpt? ==>
      var selected := Select(turns, turnStart, turnEnd);
      && selected != [] && r.turnStart == selected[0].ordinal && r.requestedTurnEnd == selected[|selected| - 1].ordinal
      && r.excerpt == Cut(Join(PiecesOf(selected), '\n'), maximum)
      && (r.truncated <==> r.excerpt != Join(PiecesOf(selected), '\n'))
      && r.turnEnd == selected[LastKept(PiecesOf(selected), |r.excerpt|)].ordinal
      && (!r.truncated ==> r.turnEnd == r.requestedTurnEnd)
  {
    hide Join, LastKept, Piece, Digits;
    var selected := Select(turns, turnStart, turnEnd);
    if |selected| == 0 {
      assert forall t :: t in turns ==> t !in selected;
      return EmptySpan(|turns|, if turns == [] then 0 else turns[0].ordinal, if turns == [] then 0 else turns[|turns| - 1].ordinal);
    }
    assert selected[0] in selected;
    var pieces := PiecesOf(selected);
    var full := Join(pieces, '\n');
    var excerpt := Cut(full, maximum);
    var truncated := |full| > maximum;
    var last := LastKeptIndex(pieces, |excerpt|);
    UncutCitesLast(pieces);
    return Excerpt(selected[0].ordinal, selected[last].ordinal, selected[|selected| - 1].ordinal, excerpt, truncated);
  }
}
