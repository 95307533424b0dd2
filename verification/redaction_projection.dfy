/** The projection of a whole session, and what it depends on. */
module RedactionProjection {
  import opened Wrappers
  import opened Redaction
  import opened Sorting

  datatype BlockKind = ToolCall | ToolResult | OtherKind(name: string)

  /** A tool payload: none, as captured, or the stub that replaces it. */
  datatype Data = NoData | Raw(payload: string) | Removed

  datatype Block = Block(id: string, kind: BlockKind, text: Option<string>, data: Data)

  datatype Turn = Turn(id: string, parentId: Option<string>, blocks: seq<Block>, rest: string)

  /** `rest` stands for the fields the projection copies. */
  datatype Session = Session(
    id: string, title: string, summary: Option<string>, path: string, gitRemote: Option<string>, turns: seq<Turn>, rest: string)

  type Pattern = string -> string

  // ---------------------------------------------------------------- reviewed masks

  /** `start` and `end` are `None` when the stored value is not an integer. */
  datatype Annotation = Annotation(
    kind: string, blockId: Option<string>, valueBlockId: Option<string>, start: Option<int>, end: Option<int>, valueKind: Option<string>)

  function Anchor(a: Annotation): Option<string>
  {
    if a.blockId.Some? then a.blockId else a.valueBlockId
  }

  /** A mask is an annotation of the right kind, anchored to a named block, over a range that exists. */
  predicate IsMask(a: Annotation)
  {
    && a.kind == "redaction_mask"
    && Anchor(a).Some? && Anchor(a).value != ""
    && a.start.Some? && a.end.Some? && 0 <= a.start.value < a.end.value
  }

  function ToMask(a: Annotation): Mask
    requires IsMask(a)
  {
    Mask(Anchor(a).value, a.start.value, a.end.value, if a.valueKind.Some? then a.valueKind.value else "manual")
  }

  function MasksOf(annotations: seq<Annotation>): seq<Mask>
  {
    if annotations == [] then []
    else
      var n := |annotations| - 1;
      MasksOf(annotations[..n]) + if IsMask(annotations[n]) then [ToMask(annotations[n])] else []
  }

  method ReviewedMasks(annotations: seq<Annotation>) returns (masks: seq<Mask>)
    ensures masks == MasksOf(annotations)
    ensures forall m :: m in masks ==> m.blockId != "" && 0 <= m.start < m.end
  {
    masks := [];
    assert annotations[..0] == [];
    for i := 0 to |annotations|
      invariant masks == MasksOf(annotations[..i])
      invariant forall m :: m in masks ==> m.blockId != "" && 0 <= m.start < m.end
    {
      var annotation := annotations[i];
      assert annotations[..i + 1][..i] == annotations[..i];
      if annotation.kind != "redaction_mask" { continue; }
      var blockId := if annotation.blockId.Some? then annotation.blockId else annotation.valueBlockId;
      if blockId.None? || blockId.value == "" || annotation.start.None? || annotation.end.None?
        || annotation.end.value <= annotation.start.value || annotation.start.value < 0 { continue; }
      masks := masks + [Mask(blockId.value, annotation.start.value, annotation.end.value,
                             if annotation.valueKind.Some? then annotation.valueKind.value else "manual")];
    }
    assert annotations[..|annotations|] == annotations;
  }

  /** The annotation asks for the mask: of the kind placed by hand, over that range of that block. */
  predicate AsksFor(a: Annotation, m: Mask)
  {
    && a.kind == "redaction_mask" && a.start == Some(m.start) && a.end == Some(m.end)
    && m.blockId != "" && (a.blockId == Some(m.blockId) || (a.blockId == None && a.valueBlockId == Some(m.blockId)))
    && (a.valueKind == Some(m.kind) || (a.valueKind == None && m.kind == "manual"))
  }

  /** The masks are the well-formed ones asked for, each once for each annotation that asks, in their order. */
  lemma {:induction false} MasksExact(annotations: seq<Annotation>, m: Mask)
    ensures m in MasksOf(annotations) <==> 0 <= m.start < m.end && exists a :: a in annotations && AsksFor(a, m)
  {
    if annotations != [] {
      var n := |annotations| - 1;
      MasksExact(annotations[..n], m);
      var last := annotations[n];
      assert annotations == annotations[..n] + [last];
      assert AsksFor(last, m) && 0 <= m.start < m.end <==> IsMask(last) && ToMask(last) == m;
    }
  }

  lemma {:induction false} MasksInOrder(first: seq<Annotation>, second: seq<Annotation>)
    ensures MasksOf(first + second) == MasksOf(first) + MasksOf(second)
    decreases |second|
  {
    hide IsMask, ToMask;
    if second == [] {
      assert first + second == first;
    } else {
      var n := |second| - 1;
      MasksInOrder(first, second[..n]);
      LastMask(first + second);
      LastMask(second);
      assert (first + second)[..|first| + n] == first + second[..n];
      hide MasksOf;
    }
  }

  lemma {:induction false} LastMask(annotations: seq<Annotation>)
    requires annotations != []
    ensures var n := |annotations| - 1;
      MasksOf(annotations) == MasksOf(annotations[..n]) + (if IsMask(annotations[n]) then [ToMask(annotations[n])] else [])
  {
  }

  lemma OneAtMost(a: Annotation)
    ensures |MasksOf([a])| <= 1
  {
    assert [a][..0] == [];
  }

  // ---------------------------------------------------------------- the projection

  function MaskAll(text: string, patterns: seq<Pattern>): string
  {
    if patterns == [] then text else patterns[|patterns| - 1](MaskAll(text, patterns[..|patterns| - 1]))
  }

  method MaskLiterals(text: string, patterns: seq<Pattern>) returns (masked: string)
    ensures masked == MaskAll(text, patterns)
    ensures |patterns| == 1 ==> masked == patterns[0](text)
    ensures forall clean: seq<Property> :: Establishes(patterns, clean) ==> Clean(masked, clean)
  {
    forall clean: seq<Property> | Establishes(patterns, clean) ensures Clean(MaskAll(text, patterns), clean) {
      MaskedClean(text, patterns, clean);
    }
    hide Establishes, Clean;
    masked := text;
    assert patterns[..0] == [];
    for i := 0 to |patterns|
      invariant masked == MaskAll(text, patterns[..i])
    {
      assert patterns[..i + 1][..i] == patterns[..i];
      masked := patterns[i](masked);
    }
    assert patterns[..|patterns|] == patterns;
  }

  /** The masks of one block, in the order given. */
  function ForBlock(masks: seq<Mask>, id: string): (r: seq<Mask>)
    ensures forall m :: m in r <==> m in masks && m.blockId == id
  {
    if masks == [] then []
    else
      var n := |masks| - 1;
      assert masks == masks[..n] + [masks[n]];
      ForBlock(masks[..n], id) + if masks[n].blockId == id then [masks[n]] else []
  }

  /** No two masks of one block overlap. Nothing rejects masks that do; what they show is settled in `RedactionOverlap`. */
  ghost predicate Reviewed(masks: seq<Mask>)
  {
    forall id :: Disjoint(ForBlock(masks, id))
  }

  lemma {:induction false} InRanges(masks: seq<Mask>, id: string)
    requires Ranges(masks)
    ensures Ranges(ForBlock(masks, id))
  {
  }

  /** Reviewed masks are ranges: each is its own block's. */
  lemma ReviewedRanges(masks: seq<Mask>)
    requires Reviewed(masks)
    ensures Ranges(masks)
  {
    forall m | m in masks ensures 0 <= m.start < m.end {
      assert m in ForBlock(masks, m.blockId);
    }
  }

  predicate IsTool(kind: BlockKind) { kind.ToolCall? || kind.ToolResult? }

  function ProjectBlock(block: Block, masks: seq<Mask>, patterns: seq<Pattern>): Block
    requires Ranges(masks)
  {
    InRanges(masks, block.id);
    block.(
      text := if block.text.Some? then Some(MaskAll(Applied(block.text.value, ForBlock(masks, block.id)), patterns)) else None,
      data := if IsTool(block.kind) && !block.data.NoData? then Removed else block.data)
  }

  function ProjectTurn(turn: Turn, masks: seq<Mask>, patterns: seq<Pattern>): Turn
    requires Ranges(masks)
  {
    turn.(blocks := seq(|turn.blocks|, i requires 0 <= i < |turn.blocks| => ProjectBlock(turn.blocks[i], masks, patterns)))
  }

  function ProjectOptional(text: Option<string>, patterns: seq<Pattern>): Option<string>
  {
    if text.Some? then Some(MaskAll(text.value, patterns)) else None
  }

  function Project(session: Session, masks: seq<Mask>, patterns: seq<Pattern>): Session
    requires Ranges(masks)
  {
    session.(
      title := MaskAll(session.title, patterns),
      summary := ProjectOptional(session.summary, patterns),
      path := MaskAll(session.path, patterns),
      gitRemote := ProjectOptional(session.gitRemote, patterns),
      turns := seq(|session.turns|, t requires 0 <= t < |session.turns| => ProjectTurn(session.turns[t], masks, patterns)))
  }

  method ByBlock(masks: seq<Mask>) returns (byBlock: map<string, seq<Mask>>)
    ensures forall id :: (if id in byBlock then byBlock[id] else []) == ForBlock(masks, id)
  {
    byBlock := map[];
    for i := 0 to |masks|
      invariant forall id :: (if id in byBlock then byBlock[id] else []) == ForBlock(masks[..i], id)
    {
      var mask := masks[i];
      assert masks[..i + 1][..i] == masks[..i];
      byBlock := byBlock[mask.blockId := (if mask.blockId in byBlock then byBlock[mask.blockId] else []) + [mask]];
    }
    assert masks[..|masks|] == masks;
  }

  method ProjectBlocks(blocks: seq<Block>, byBlock: map<string, seq<Mask>>, patterns: seq<Pattern>, ghost masks: seq<Mask>) returns (projected: seq<Block>)
    requires Ranges(masks)
    requires forall id :: (if id in byBlock then byBlock[id] else []) == ForBlock(masks, id)
    ensures projected == seq(|blocks|, i requires 0 <= i < |blocks| => ProjectBlock(blocks[i], masks, patterns))
  {
    hide Masked, MaskAll, ForBlock, Applied;
    projected := [];
    for i := 0 to |blocks|
      invariant |projected| == i
      invariant forall j :: 0 <= j < i ==> projected[j] == ProjectBlock(blocks[j], masks, patterns)
    {
      var block := blocks[i];
      var text := block.text;
      InRanges(masks, block.id);
      if block.text.Some? {
        var masked := ApplyMasks(block.text.value, if block.id in byBlock then byBlock[block.id] else []);
        masked := MaskLiterals(masked, patterns);
        text := Some(masked);
      }
      var data := if (block.kind.ToolCall? || block.kind.ToolResult?) && !block.data.NoData? then Removed else block.data;
      projected := projected + [block.(text := text, data := data)];
    }
  }

  method MaskOptional(text: Option<string>, patterns: seq<Pattern>) returns (masked: Option<string>)
    ensures masked == ProjectOptional(text, patterns)
  {
    if text.None? { return None; }
    var m := MaskLiterals(text.value, patterns);
    return Some(m);
  }

  method ApplyRedactionProjection(session: Session, masks: seq<Mask>, patterns: seq<Pattern>) returns (clone: Session)
    requires Ranges(masks)
    ensures clone == Project(session, masks, patterns)
    ensures forall clean: seq<Property> :: Establishes(patterns, clean) ==> CleanSession(clone, clean)
  {
    forall clean: seq<Property> | Establishes(patterns, clean) ensures CleanSession(Project(session, masks, patterns), clean) {
      ProjectionClean(session, masks, patterns, clean);
    }
    hide Establishes, CleanSession;
    var byBlock := ByBlock(masks);
    clone := session;
    var title := MaskLiterals(clone.title, patterns);
    var summary := MaskOptional(clone.summary, patterns);
    var path := MaskLiterals(clone.path, patterns);
    var gitRemote := MaskOptional(clone.gitRemote, patterns);
    var turns := clone.turns;
    for t := 0 to |turns|
      invariant |turns| == |session.turns|
      invariant forall j :: 0 <= j < t ==> turns[j] == ProjectTurn(session.turns[j], masks, patterns)
      invariant forall j :: t <= j < |turns| ==> turns[j] == session.turns[j]
    {
      var blocks := ProjectBlocks(turns[t].blocks, byBlock, patterns, masks);
      turns := turns[t := turns[t].(blocks := blocks)];
    }
    clone := clone.(title := title, summary := summary, path := path, gitRemote := gitRemote, turns := turns);
    assert clone.turns == Project(session, masks, patterns).turns;
  }

  // ---------------------------------------------------------------- what the patterns do

  /** A property of strings, as of one that holds nothing a pattern looks for. */
  type Property = string -> bool

  /** Each pattern establishes its own property of any string, and every later pattern keeps it. */
  ghost predicate Establishes(patterns: seq<Pattern>, clean: seq<Property>)
  {
    && |clean| == |patterns|
    && (forall i, text :: 0 <= i < |patterns| ==> clean[i](patterns[i](text)))
    && (forall i, j, text :: 0 <= i < j < |patterns| && clean[i](text) ==> clean[i](patterns[j](text)))
  }

  predicate Clean(text: string, clean: seq<Property>)
  {
    forall i :: 0 <= i < |clean| ==> clean[i](text)
  }

  predicate CleanOptional(text: Option<string>, clean: seq<Property>)
  {
    text.Some? ==> Clean(text.value, clean)
  }

  predicate CleanBlocks(blocks: seq<Block>, clean: seq<Property>)
  {
    forall b :: b in blocks ==> CleanOptional(b.text, clean)
  }

  /** Every text a session carries. */
  predicate CleanSession(session: Session, clean: seq<Property>)
  {
    && Clean(session.title, clean) && CleanOptional(session.summary, clean)
    && Clean(session.path, clean) && CleanOptional(session.gitRemote, clean)
    && forall t :: t in session.turns ==> CleanBlocks(t.blocks, clean)
  }

  lemma {:induction false} MaskedClean(text: string, patterns: seq<Pattern>, clean: seq<Property>)
    requires Establishes(patterns, clean)
    ensures Clean(MaskAll(text, patterns), clean)
  {
    if patterns != [] {
      var n := |patterns| - 1;
      MaskedClean(text, patterns[..n], clean[..n]);
      var before := MaskAll(text, patterns[..n]);
      forall i | 0 <= i < |clean| ensures clean[i](patterns[n](before)) {
        if i < n {
          assert clean[..n][i](before);
        }
      }
    }
  }

  lemma BlockClean(block: Block, masks: seq<Mask>, patterns: seq<Pattern>, clean: seq<Property>)
    requires Ranges(masks) && Establishes(patterns, clean)
    ensures CleanOptional(ProjectBlock(block, masks, patterns).text, clean)
  {
    hide MaskAll, Applied, Establishes, Clean;
    if block.text.Some? {
      InRanges(masks, block.id);
      MaskedClean(Applied(block.text.value, ForBlock(masks, block.id)), patterns, clean);
    }
  }

  /** What leaves has been through every pattern, in every text field. */
  lemma ProjectionClean(session: Session, masks: seq<Mask>, patterns: seq<Pattern>, clean: seq<Property>)
    requires Ranges(masks) && Establishes(patterns, clean)
    ensures CleanSession(Project(session, masks, patterns), clean)
  {
    hide MaskAll, Establishes, Clean, ProjectBlock;
    MaskedClean(session.title, patterns, clean);
    MaskedClean(session.path, patterns, clean);
    if session.summary.Some? {
      MaskedClean(session.summary.value, patterns, clean);
    }
    if session.gitRemote.Some? {
      MaskedClean(session.gitRemote.value, patterns, clean);
    }
    var turns := Project(session, masks, patterns).turns;
    forall t, b | t in turns && b in t.blocks ensures CleanOptional(b.text, clean) {
      var i :| 0 <= i < |turns| && turns[i] == t;
      var j :| 0 <= j < |t.blocks| && t.blocks[j] == b;
      BlockClean(session.turns[i].blocks[j], masks, patterns, clean);
    }
  }

  /** One pattern gives its own value, and a list split in two is two passes. */
  lemma {:induction false} TwoPasses(text: string, first: seq<Pattern>, second: seq<Pattern>)
    ensures MaskAll(text, []) == text
    ensures |second| == 1 ==> MaskAll(text, second) == second[0](text)
    ensures MaskAll(text, first + second) == MaskAll(MaskAll(text, first), second)
    decreases |second|
  {
    if second == [] {
      assert first + second == first;
    } else {
      var n := |second| - 1;
      TwoPasses(text, first, second[..n]);
      assert (first + second)[..|first| + n] == first + second[..n];
    }
  }

  /** `after` is `before` with `f` over every text, and nothing else about it changed. */
  ghost predicate TextsThrough(f: Pattern, before: Session, after: Session)
  {
    && after.id == before.id && after.rest == before.rest
    && after.title == f(before.title) && after.path == f(before.path)
    && OptionalThrough(f, before.summary, after.summary) && OptionalThrough(f, before.gitRemote, after.gitRemote)
    && |after.turns| == |before.turns|
    && forall t :: 0 <= t < |before.turns| ==> TurnThrough(f, before.turns[t], after.turns[t])
  }

  predicate OptionalThrough(f: Pattern, before: Option<string>, after: Option<string>)
  {
    if before.Some? then after == Some(f(before.value)) else after == None
  }

  predicate TurnThrough(f: Pattern, before: Turn, after: Turn)
  {
    && after.id == before.id && after.parentId == before.parentId && after.rest == before.rest
    && |after.blocks| == |before.blocks|
    && forall b :: 0 <= b < |before.blocks| ==> BlockThrough(f, before.blocks[b], after.blocks[b])
  }

  predicate BlockThrough(f: Pattern, before: Block, after: Block)
  {
    after.id == before.id && after.kind == before.kind && after.data == before.data && OptionalThrough(f, before.text, after.text)
  }

  /** A further pattern goes over the texts the ones before it left, of blocks already masked. */
  lemma OnePatternMore(session: Session, masks: seq<Mask>, patterns: seq<Pattern>, f: Pattern)
    requires Ranges(masks)
    ensures TextsThrough(f, Project(session, masks, patterns), Project(session, masks, patterns + [f]))
  {
    hide Applied;
    assert (patterns + [f])[..|patterns|] == patterns;
    assert forall text :: MaskAll(text, patterns + [f]) == f(MaskAll(text, patterns));
    hide MaskAll;
    var before, after := Project(session, masks, patterns), Project(session, masks, patterns + [f]);
    forall t | 0 <= t < |session.turns| ensures TurnThrough(f, before.turns[t], after.turns[t]) {
      forall b | 0 <= b < |session.turns[t].blocks| ensures BlockThrough(f, before.turns[t].blocks[b], after.turns[t].blocks[b]) {
        assert before.turns[t].blocks[b] == ProjectBlock(session.turns[t].blocks[b], masks, patterns);
      }
    }
  }

  /** `after` is `before` with its blocks masked and no tool payload left. */
  ghost predicate OnlyMasked(before: Session, after: Session, masks: seq<Mask>)
    requires Ranges(masks)
  {
    && after.(turns := []) == before.(turns := [])
    && |after.turns| == |before.turns|
    && forall t :: 0 <= t < |before.turns| ==> TurnOnlyMasked(before.turns[t], after.turns[t], masks)
  }

  predicate TurnOnlyMasked(before: Turn, after: Turn, masks: seq<Mask>)
    requires Ranges(masks)
  {
    && after.(blocks := []) == before.(blocks := [])
    && |after.blocks| == |before.blocks|
    && forall b :: 0 <= b < |before.blocks| ==> BlockOnlyMasked(before.blocks[b], after.blocks[b], masks)
  }

  predicate BlockOnlyMasked(before: Block, after: Block, masks: seq<Mask>)
    requires Ranges(masks)
  {
    InRanges(masks, before.id);
    && after.id == before.id && after.kind == before.kind
    && (if before.text.Some? then after.text == Some(Applied(before.text.value, ForBlock(masks, before.id))) else after.text == None)
    && (before.kind.ToolCall? || before.kind.ToolResult? ==> !after.data.Raw? && (after.data.NoData? <==> before.data.NoData?))
    && (before.kind.OtherKind? ==> after.data == before.data)
  }

  /** Without patterns the blocks are masked and the payloads go; that is all. */
  lemma NoPatterns(session: Session, masks: seq<Mask>)
    requires Ranges(masks)
    ensures OnlyMasked(session, Project(session, masks, []), masks)
  {
    hide Applied, ForBlock;
    var after := Project(session, masks, []);
    forall t | 0 <= t < |session.turns| ensures TurnOnlyMasked(session.turns[t], after.turns[t], masks) {
      forall b | 0 <= b < |session.turns[t].blocks| ensures BlockOnlyMasked(session.turns[t].blocks[b], after.turns[t].blocks[b], masks) {
        assert after.turns[t].blocks[b] == ProjectBlock(session.turns[t].blocks[b], masks, []);
      }
    }
  }

  // ---------------------------------------------------------------- only what is visible

  /** The same characters at every position no mask covers. */
  ghost predicate AgreeOutside(a: string, b: string, masks: seq<Mask>)
  {
    forall p: nat :: !Covered(masks, p) ==> (p < |a| <==> p < |b|) && (p < |a| && p < |b| ==> a[p] == b[p])
  }

  /** The same masks start inside both. */
  predicate SameStarts(a: string, b: string, masks: seq<Mask>)
  {
    forall m :: m in masks ==> (m.start < |a| <==> m.start < |b|)
  }

  /** From a boundary on, the longer text reads as the shorter one and then as its own rest from `e`. */
  lemma {:induction false} Longer(a: string, b: string, masks: seq<Mask>, p: nat) returns (e: nat)
    requires Disjoint(masks) && AgreeOutside(a, b, masks)
    requires p <= |a| <= |b| && Boundary(masks, p)
    ensures |a| <= e <= |b| && (e == |b| || Boundary(masks, e))
    ensures Masked(b, masks, p) == Masked(a, masks, p) + Masked(b, masks, e)
    ensures forall m :: m in masks ==> !(|a| <= m.start < e)
    decreases |a| - p
  {
    hide Disjoint, AgreeOutside, Boundary, Covered, MaskAt, Marker;
    if p == |a| {
      e := p;
    } else {
      match MaskAt(masks, p)
      case Some(m) =>
        After(masks, m);
        if m.end <= |a| {
          e := Longer(a, b, masks, m.end);
        } else {
          e := UpTo(m.end, |b|);
          Alone(masks, m, |a|, e);
        }
      case None =>
        Step(masks, p);
        Same(a, b, masks, p);
        e := Longer(a, b, masks, p + 1);
    }
  }

  lemma Same(a: string, b: string, masks: seq<Mask>, p: nat)
    requires AgreeOutside(a, b, masks) && !Covered(masks, p) && p < |a|
    ensures p < |b| && a[p] == b[p]
  {
  }

  lemma After(masks: seq<Mask>, m: Mask)
    requires Disjoint(masks) && m in masks
    ensures 0 <= m.start < m.end && Boundary(masks, m.end)
  {
  }

  lemma Step(masks: seq<Mask>, p: nat)
    requires Disjoint(masks) && Boundary(masks, p) && MaskAt(masks, p).None?
    ensures Boundary(masks, p + 1) && !Covered(masks, p)
  {
  }

  /** No mask starts inside another. */
  lemma Alone(masks: seq<Mask>, m: Mask, from: int, to: int)
    requires Disjoint(masks) && m in masks && m.start < from && to <= m.end
    ensures forall n :: n in masks ==> !(from <= n.start < to)
  {
  }

  /** Past the shorter text every position is covered, so what is left is markers, or nothing. */
  lemma {:induction false} RestIsMarkers(a: string, b: string, masks: seq<Mask>, e: nat)
    requires Disjoint(masks) && AgreeOutside(a, b, masks) && |a| <= e <= |b|
    requires e == |b| || Boundary(masks, e)
    ensures Masked(b, masks, e) == "" <==> forall m :: m in masks ==> !(e <= m.start < |b|)
  {
    AtEnd(b, masks, e);
    if e < |b| {
      assert Covered(masks, e);
      var m :| m in masks && m.start <= e < m.end;
      assert m.start == e;
    }
  }

  lemma {:induction false} VisibleOrdered(a: string, b: string, masks: seq<Mask>)
    requires Disjoint(masks) && AgreeOutside(a, b, masks) && |a| <= |b|
    ensures Masked(a, masks, 0) == Masked(b, masks, 0) <==> SameStarts(a, b, masks)
  {
    var e := Longer(a, b, masks, 0);
    RestIsMarkers(a, b, masks, e);
    var short, long, rest := Masked(a, masks, 0), Masked(b, masks, 0), Masked(b, masks, e);
    assert long == short <==> rest == "" by {
      if rest != "" {
        assert |long| > |short|;
      }
    }
  }

  /** Texts that agree outside the masks are masked alike exactly when the same masks start inside both. */
  lemma {:induction false} VisibleExact(a: string, b: string, masks: seq<Mask>)
    requires Disjoint(masks) && AgreeOutside(a, b, masks)
    ensures Masked(a, masks, 0) == Masked(b, masks, 0) <==> SameStarts(a, b, masks)
  {
    if |a| <= |b| {
      VisibleOrdered(a, b, masks);
    } else {
      VisibleOrdered(b, a, masks);
    }
  }

  /** A mask over a secret at the end of a text tells that text from the one without the secret. */
  lemma {:induction false} LengthShows(text: string, secret: string, kind: string)
    requires secret != ""
    ensures var masks := [Mask("block", |text|, |text| + |secret|, kind)];
      && Disjoint(masks) && AgreeOutside(text, text + secret, masks)
      && Masked(text, masks, 0) != Masked(text + secret, masks, 0)
  {
    var mask := Mask("block", |text|, |text| + |secret|, kind);
    OneMask(mask);
    AgreesBefore(text, secret, [mask]);
    hide *;
    VisibleExact(text, text + secret, [mask]);
    StartsInside(mask, text, text + secret);
  }

  lemma AgreesBefore(text: string, secret: string, masks: seq<Mask>)
    requires forall p :: Covered(masks, p) <==> |text| <= p < |text| + |secret|
    ensures AgreeOutside(text, text + secret, masks)
  {
    hide Covered;
  }

  lemma StartsInside(mask: Mask, a: string, b: string)
    requires |a| <= mask.start < |b|
    ensures !SameStarts(a, b, [mask])
  {
    assert mask in [mask];
  }

  lemma OneMask(mask: Mask)
    requires 0 <= mask.start < mask.end
    ensures Disjoint([mask])
    ensures forall p :: Covered([mask], p) <==> mask.start <= p < mask.end
  {
    assert mask in [mask];
  }

  /** Blocks that differ only under masks and in tool payloads. */
  ghost predicate AlikeBlocks(a: Block, b: Block, masks: seq<Mask>)
  {
    && a.id == b.id && a.kind == b.kind
    && (a.text.Some? <==> b.text.Some?)
    && (a.text.Some? && b.text.Some? ==>
          AgreeOutside(a.text.value, b.text.value, ForBlock(masks, a.id)) && SameStarts(a.text.value, b.text.value, ForBlock(masks, a.id)))
    && (if IsTool(a.kind) then a.data.NoData? <==> b.data.NoData? else a.data == b.data)
  }

  ghost predicate AlikeTurns(a: Turn, b: Turn, masks: seq<Mask>)
  {
    && a.(blocks := []) == b.(blocks := [])
    && |a.blocks| == |b.blocks|
    && forall i :: 0 <= i < |a.blocks| ==> AlikeBlocks(a.blocks[i], b.blocks[i], masks)
  }

  ghost predicate Alike(a: Session, b: Session, masks: seq<Mask>)
  {
    && a.(turns := []) == b.(turns := [])
    && |a.turns| == |b.turns|
    && forall t :: 0 <= t < |a.turns| ==> AlikeTurns(a.turns[t], b.turns[t], masks)
  }

  lemma {:induction false} BlocksProjectAlike(a: Block, b: Block, masks: seq<Mask>, patterns: seq<Pattern>)
    requires Ranges(masks) && Disjoint(ForBlock(masks, a.id)) && AlikeBlocks(a, b, masks)
    ensures a.id == b.id
    ensures ProjectBlock(a, masks, patterns) == ProjectBlock(b, masks, patterns)
  {
    hide Disjoint, Masked, MaskAll, ForBlock, Applied;
    if a.text.Some? {
      VisibleExact(a.text.value, b.text.value, ForBlock(masks, a.id));
      ApplyDisjoint(a.text.value, ForBlock(masks, a.id));
      ApplyDisjoint(b.text.value, ForBlock(masks, a.id));
    }
  }

  lemma TurnsProjectAlike(a: Turn, b: Turn, masks: seq<Mask>, patterns: seq<Pattern>)
    requires Reviewed(masks) && Ranges(masks) && AlikeTurns(a, b, masks)
    ensures ProjectTurn(a, masks, patterns) == ProjectTurn(b, masks, patterns)
  {
    hide Disjoint, ForBlock, ProjectBlock, AlikeBlocks;
    forall i | 0 <= i < |a.blocks|
      ensures a.blocks[i].id == b.blocks[i].id
      ensures ProjectBlock(a.blocks[i], masks, patterns) == ProjectBlock(b.blocks[i], masks, patterns)
    {
      BlocksProjectAlike(a.blocks[i], b.blocks[i], masks, patterns);
    }
    assert ProjectTurn(a, masks, patterns).blocks == ProjectTurn(b, masks, patterns).blocks;
    assert ProjectTurn(a, masks, patterns) == a.(blocks := []).(blocks := ProjectTurn(a, masks, patterns).blocks);
    assert ProjectTurn(b, masks, patterns) == b.(blocks := []).(blocks := ProjectTurn(b, masks, patterns).blocks);
  }

  /** The projection depends only on what is visible, whatever the patterns. */
  lemma OnlyVisible(a: Session, b: Session, masks: seq<Mask>, patterns: seq<Pattern>)
    requires Reviewed(masks) && Ranges(masks) && Alike(a, b, masks)
    ensures Project(a, masks, patterns) == Project(b, masks, patterns)
  {
    hide Reviewed, MaskAll, ProjectTurn, AlikeTurns;
    forall t | 0 <= t < |a.turns| ensures ProjectTurn(a.turns[t], masks, patterns) == ProjectTurn(b.turns[t], masks, patterns) {
      TurnsProjectAlike(a.turns[t], b.turns[t], masks, patterns);
    }
    assert Project(a, masks, patterns).turns == Project(b, masks, patterns).turns;
    Fields(a, b);
  }

  lemma Fields(a: Session, b: Session)
    requires a.(turns := []) == b.(turns := [])
    ensures a.id == b.id && a.title == b.title && a.summary == b.summary && a.path == b.path && a.gitRemote == b.gitRemote && a.rest == b.rest
  {
    assert a.(turns := []).id == a.id && b.(turns := []).id == b.id;
  }

  // ---------------------------------------------------------------- mask order

  lemma {:induction false} ForBlockMultiset(masks: seq<Mask>, id: string, m: Mask)
    ensures multiset(ForBlock(masks, id))[m] == if m.blockId == id then multiset(masks)[m] else 0
  {
    if masks != [] {
      var n := |masks| - 1;
      ForBlockMultiset(masks[..n], id, m);
      assert masks == masks[..n] + [masks[n]];
    }
  }

  lemma {:induction false} ForBlockPermuted(xs: seq<Mask>, ys: seq<Mask>, id: string)
    requires multiset(xs) == multiset(ys)
    ensures multiset(ForBlock(xs, id)) == multiset(ForBlock(ys, id))
  {
    forall m ensures multiset(ForBlock(xs, id))[m] == multiset(ForBlock(ys, id))[m] {
      ForBlockMultiset(xs, id, m);
      ForBlockMultiset(ys, id, m);
    }
  }

  /** Masks given in another order give the same projection. */
  lemma MaskOrderFree(session: Session, xs: seq<Mask>, ys: seq<Mask>, patterns: seq<Pattern>)
    requires Reviewed(xs) && Ranges(xs) && multiset(xs) == multiset(ys)
    ensures Reviewed(ys) && Ranges(ys) && Project(session, xs, patterns) == Project(session, ys, patterns)
  {
    hide Disjoint, Masked, MaskAll, ForBlock;
    forall id ensures Disjoint(ForBlock(ys, id)) {
      ForBlockPermuted(xs, ys, id);
      PermutedDisjoint(ForBlock(xs, id), ForBlock(ys, id));
    }
    ReviewedRanges(ys);
    forall t | 0 <= t < |session.turns| ensures ProjectTurn(session.turns[t], xs, patterns) == ProjectTurn(session.turns[t], ys, patterns) {
      var blocks := session.turns[t].blocks;
      forall i | 0 <= i < |blocks| ensures ProjectBlock(blocks[i], xs, patterns) == ProjectBlock(blocks[i], ys, patterns) {
        BlockOrderFree(blocks[i], xs, ys, patterns);
      }
      assert ProjectTurn(session.turns[t], xs, patterns).blocks == ProjectTurn(session.turns[t], ys, patterns).blocks;
    }
    assert Project(session, xs, patterns).turns == Project(session, ys, patterns).turns;
  }

  lemma {:induction false} BlockOrderFree(block: Block, xs: seq<Mask>, ys: seq<Mask>, patterns: seq<Pattern>)
    requires Ranges(xs) && Ranges(ys) && multiset(xs) == multiset(ys)
    requires Disjoint(ForBlock(xs, block.id)) && Disjoint(ForBlock(ys, block.id))
    ensures ProjectBlock(block, xs, patterns) == ProjectBlock(block, ys, patterns)
  {
    hide Masked, MaskAll, Disjoint, Applied;
    ForBlockPermuted(xs, ys, block.id);
    SameElements(ForBlock(xs, block.id), ForBlock(ys, block.id));
    if block.text.Some? {
      OrderFree(block.text.value, ForBlock(xs, block.id), ForBlock(ys, block.id), 0);
      ApplyDisjoint(block.text.value, ForBlock(xs, block.id));
      ApplyDisjoint(block.text.value, ForBlock(ys, block.id));
    }
  }
}
