/**
 * Estimating how many lines a turn draws, and choosing how many turns one page
 * sends (packages/agent-runtime-contract/src/turn-page.ts).
 */
module TurnPage {
  import opened Text
  import opened TurnFold
  import opened FoldDecision

  const TURN_PAGE_TURN_CAP := 24
  const TURN_PAGE_BYTE_CAP := 256 * 1024
  const TURN_PAGE_FILL_SCREENS := 2
  const TURN_CHROME_LINES := 3
  const FOLD_ROW_LINES := 2
  const GROUP_ROW_LINES := 2
  const FENCE_FRAME_LINES := 2

  /** An assistant message; an error is kept by its name. */
  datatype Message = Message(id: string, completed: bool, error: Option<string>, parts: seq<Part>)

  const ABORTED := "MessageAbortedError"

  // ---------------------------------------------------------------- the shape of a turn

  predicate IsSettled(m: Message) {
    m.completed || m.error.Some?
  }

  function FirstIndex(messages: seq<Message>, test: Message -> bool): (i: int)
    ensures -1 <= i < |messages| && (i >= 0 ==> test(messages[i]))
    ensures forall k :: 0 <= k < (if i < 0 then |messages| else i) ==> !test(messages[k])
  {
    if messages == [] then -1
    else if test(messages[0]) then 0
    else
      var i := FirstIndex(messages[1..], test);
      if i < 0 then -1 else i + 1
  }

  function InterruptedAt(messages: seq<Message>, cancelled: Option<string>): int {
    var harness := FirstIndex(messages, (m: Message) => m.error == Some(ABORTED));
    if harness != -1 || cancelled.None? then harness
    else FirstIndex(messages, (m: Message) => m.id == cancelled.value)
  }

  /** The parts of the last message with this id, as a map built over the messages answers. */
  function PartsOf(messages: seq<Message>, id: string): seq<Part> {
    if messages == [] then []
    else if messages[|messages| - 1].id == id then messages[|messages| - 1].parts
    else PartsOf(messages[..|messages| - 1], id)
  }

  function Resolved(messages: seq<Message>): (r: seq<Message>)
    ensures |r| == |messages|
  {
    seq(|messages|, i requires 0 <= i < |messages| => messages[i].(parts := PartsOf(messages, messages[i].id)))
  }

  function Tagged(m: Message, index: nat): (items: seq<Item>)
    ensures |items| == |m.parts|
    ensures forall i :: 0 <= i < |items| ==> items[i] == Item(m.id, index, m.parts[i])
  {
    seq(|m.parts|, i requires 0 <= i < |m.parts| => Item(m.id, index, m.parts[i]))
  }

  /** Every part of every message, in order, with the message that holds it. */
  function AllItems(messages: seq<Message>, index: nat): seq<Item> {
    if messages == [] then [] else Tagged(messages[0], index) + AllItems(messages[1..], index + 1)
  }

  function KeepParts(messages: seq<Message>, keep: Part -> bool): (r: seq<Message>)
    ensures |r| == |messages|
    ensures forall i :: 0 <= i < |r| ==> r[i] == messages[i].(parts := Filter(messages[i].parts, keep))
  {
    seq(|messages|, i requires 0 <= i < |messages| => messages[i].(parts := Filter(messages[i].parts, keep)))
  }

  datatype Shape = Shape(interruptedIndex: int, errored: bool, settled: bool, compaction: bool, refs: seq<Item>)

  predicate InShape(p: Part, reasoning: bool, interrupted: bool) {
    IsGroupable(p, reasoning) && !(interrupted && p.ToolPart? && (p.status.Pending? || p.status.Running?))
  }

  function FoldShape(messages: seq<Message>, reasoning: bool, cancelled: Option<string>, compaction: bool): Shape {
    var interruption := InterruptedAt(messages, cancelled);
    Shape(
      interruption,
      FirstIndex(messages, (m: Message) => m.error.Some? && m.error.value != ABORTED) >= 0,
      FirstIndex(messages, (m: Message) => IsSettled(m)) >= 0,
      compaction,
      AllItems(KeepParts(Resolved(messages), (p: Part) => InShape(p, reasoning, interruption != -1)), 0))
  }

  function Segments(shape: Shape): seq<PartGroup> {
    if shape.interruptedIndex == -1 || shape.compaction then Grouping(Shown(shape.refs))
    else
      Grouping(Shown(Filter(shape.refs, (x: Item) => x.messageIndex <= shape.interruptedIndex))) +
      Grouping(Shown(Filter(shape.refs, (x: Item) => x.messageIndex > shape.interruptedIndex)))
  }

  /** The part with this id; of several, the last, as a map built over the items answers. */
  function FindPart(items: seq<Item>, id: string): Option<Part> {
    if items == [] then None
    else if items[|items| - 1].part.id == id then Some(items[|items| - 1].part)
    else FindPart(items[..|items| - 1], id)
  }

  function PartLookup(items: seq<Item>): Lookup {
    (ref: PartRef) =>
      match FindPart(items, ref.partId)
      case None => None
      case Some(p) => Some(FoldablePart(TypeOf(p), false))
  }

  // ---------------------------------------------------------------- where a turn was interrupted

  /** The first aborted message; with none, the first message of the cancelled id; with neither, nowhere. */
  lemma InterruptedExactly(messages: seq<Message>, cancelled: Option<string>)
    ensures var at := InterruptedAt(messages, cancelled);
      var aborted := exists k :: 0 <= k < |messages| && messages[k].error == Some(ABORTED);
      && -1 <= at < |messages|
      && (aborted ==> at >= 0 && messages[at].error == Some(ABORTED))
      && (aborted ==> forall k :: 0 <= k < at ==> messages[k].error != Some(ABORTED))
      && (!aborted && cancelled.None? ==> at == -1)
      && (!aborted && at >= 0 ==> Some(messages[at].id) == cancelled && forall k :: 0 <= k < at ==> Some(messages[k].id) != cancelled)
      && (!aborted && at == -1 ==> forall k :: 0 <= k < |messages| ==> Some(messages[k].id) != cancelled)
  {
  }

  /** Every member of the group comes from a message up to the cut, or every one from a message after it. */
  ghost predicate OnOneSide(g: PartGroup, refs: seq<Item>, cut: int) {
    || (forall ref :: ref in Members(g) ==> exists x :: x in refs && RefOf(x) == ref && x.messageIndex <= cut)
    || (forall ref :: ref in Members(g) ==> exists x :: x in refs && RefOf(x) == ref && x.messageIndex > cut)
  }

  lemma MembersFrom(items: seq<Item>, g: PartGroup, ref: PartRef) returns (x: Item)
    requires g in Grouping(Shown(items)) && ref in Members(g)
    ensures x in items && RefOf(x) == ref
  {
    hide Tiles, GroupsFrom, Members;
    GroupingCorrect(items);
    var j := MemberIsItem(Grouping(Shown(items)), Shown(items), g, ref);
    x := Shown(items)[j];
    assert x in Shown(items);
  }

  /** No group reaches across the message the turn was interrupted at. */
  lemma GroupsKeepToTheirSide(shape: Shape, g: PartGroup)
    requires shape.interruptedIndex != -1 && !shape.compaction && g in Segments(shape)
    ensures OnOneSide(g, shape.refs, shape.interruptedIndex)
  {
    hide GroupsFrom, Members, Shown, RefOf;
    var cut := shape.interruptedIndex;
    var before, after := (x: Item) => x.messageIndex <= cut, (x: Item) => x.messageIndex > cut;
    if g in Grouping(Shown(Filter(shape.refs, before))) {
      forall ref | ref in Members(g) ensures exists x :: x in shape.refs && RefOf(x) == ref && x.messageIndex <= cut
      {
        var x := MembersFrom(Filter(shape.refs, before), g, ref);
        assert before(x);
      }
    } else {
      assert g in Grouping(Shown(Filter(shape.refs, after)));
      forall ref | ref in Members(g) ensures exists x :: x in shape.refs && RefOf(x) == ref && x.messageIndex > cut
      {
        var x := MembersFrom(Filter(shape.refs, after), g, ref);
        assert after(x);
      }
    }
  }

  /** A turn that was not interrupted, or is a compaction, is grouped as a whole. */
  lemma UncutTurnHasNoTwins(shape: Shape)
    requires shape.interruptedIndex == -1 || shape.compaction
    ensures NoTwins(Segments(shape))
  {
    hide GroupsFrom, Tiles;
    GroupingCorrect(shape.refs);
  }

  // ---------------------------------------------------------------- what is drawn

  datatype LineRequest = LineRequest(cols: nat, reasoning: bool, cancelled: Option<string>)

  function DecisionFor(assistants: seq<Message>, shape: Shape): Decision
    requires assistants != []
  {
    var groups, part := Segments(shape), PartLookup(shape.refs);
    Decide(FoldStatus(CountFoldable(groups, part), shape.settled, shape.interruptedIndex != -1, shape.errored,
                      !IsSettled(assistants[|assistants| - 1]), None, None))
  }

  function KeptIds(groups: seq<PartGroup>, folded: set<string>): set<string> {
    set g, ref | g in groups && g.key !in folded && ref in Members(g) :: ref.partId
  }

  datatype Drawn = Drawn(assistants: seq<Message>, folded: bool)

  function DrawnAssistants(assistants: seq<Message>, request: LineRequest, compaction: bool): Drawn {
    if assistants == [] then Drawn(assistants, false)
    else
      var shape := FoldShape(assistants, request.reasoning, request.cancelled, compaction);
      var groups, part := Segments(shape), PartLookup(shape.refs);
      var decision := DecisionFor(assistants, shape);
      if !decision.folded then Drawn(assistants, false)
      else
        var kept := KeptIds(groups, FoldedKeys(decision, groups, part));
        Drawn(KeepParts(assistants, (p: Part) => p.id in kept), true)
  }

  function DrawnItems(assistants: seq<Message>, reasoning: bool): seq<Item> {
    AllItems(KeepParts(assistants, (p: Part) => IsGroupable(p, reasoning)), 0)
  }

  /**
   * When a turn folds, told from its messages: the last one is completed, none has an error, none is the one cancelled, and at least two
   * groups are foldable.
   */
  lemma FoldsExactly(messages: seq<Message>, request: LineRequest, compaction: bool)
    requires messages != []
    ensures var shape := FoldShape(messages, request.reasoning, request.cancelled, compaction);
      DrawnAssistants(messages, request, compaction).folded <==>
      && messages[|messages| - 1].completed
      && (forall i :: 0 <= i < |messages| ==> messages[i].error.None? && Some(messages[i].id) != request.cancelled)
      && CountFoldable(Segments(shape), PartLookup(shape.refs)) >= 2
  {
    hide Segments, PartLookup, CountFoldable, FoldedKeys, KeptIds, KeepParts, AllItems, Resolved;
    InterruptedExactly(messages, request.cancelled);
  }

  // ---------------------------------------------------------------- a turn with usable ids

  /** Part ids are distinct and free of ":", and message ids are distinct. */
  ghost predicate UsableIds(messages: seq<Message>) {
    && (forall i, j :: 0 <= i < j < |messages| ==> messages[i].id != messages[j].id)
    && DistinctIds(AllItems(messages, 0)) && ColonFree(AllItems(messages, 0))
  }

  lemma {:induction false} PartsOfOwn(messages: seq<Message>, i: nat)
    requires i < |messages|
    requires forall i, j :: 0 <= i < j < |messages| ==> messages[i].id != messages[j].id
    ensures PartsOf(messages, messages[i].id) == messages[i].parts
  {
    if i < |messages| - 1 {
      PartsOfOwn(messages[..|messages| - 1], i);
    }
  }

  lemma ResolvedSame(messages: seq<Message>)
    requires forall i, j :: 0 <= i < j < |messages| ==> messages[i].id != messages[j].id
    ensures Resolved(messages) == messages
  {
    hide PartsOf;
    forall i | 0 <= i < |messages| ensures Resolved(messages)[i] == messages[i] {
      PartsOfOwn(messages, i);
    }
  }

  lemma {:induction false} TaggedFilter(m: Message, index: nat, keep: Part -> bool)
    ensures Tagged(m.(parts := Filter(m.parts, keep)), index) == Filter(Tagged(m, index), (x: Item) => keep(x.part))
    decreases |m.parts|
  {
    hide Tagged;
    if m.parts == [] {
      assert Tagged(m, index) == [] && m.(parts := []) == m;
    } else {
      var rest := m.(parts := m.parts[1..]);
      TaggedFilter(rest, index, keep);
      TaggedSplits(m, index);
      var kept := Filter(rest.parts, keep);
      if keep(m.parts[0]) {
        TaggedSplits(m.(parts := [m.parts[0]] + kept), index);
        assert ([m.parts[0]] + kept)[1..] == kept;
      }
    }
  }

  lemma TaggedSplits(m: Message, index: nat)
    requires m.parts != []
    ensures Tagged(m, index) == [Item(m.id, index, m.parts[0])] + Tagged(m.(parts := m.parts[1..]), index)
    ensures Tagged(m, index)[1..] == Tagged(m.(parts := m.parts[1..]), index)
  {
  }

  lemma {:induction false} KeptItemsOfMessages(messages: seq<Message>, index: nat, keep: Part -> bool)
    ensures AllItems(KeepParts(messages, keep), index) == Filter(AllItems(messages, index), (x: Item) => keep(x.part))
  {
    if messages != [] {
      var kept := KeepParts(messages, keep);
      assert kept[1..] == KeepParts(messages[1..], keep);
      KeptItemsOfMessages(messages[1..], index + 1, keep);
      TaggedFilter(messages[0], index, keep);
      FilterConcat(Tagged(messages[0], index), AllItems(messages[1..], index + 1), (x: Item) => keep(x.part));
    }
  }

  lemma {:induction false} FilterTwice<T>(s: seq<T>, first: T -> bool, second: T -> bool, both: T -> bool)
    requires forall i :: 0 <= i < |s| ==> (both(s[i]) <==> first(s[i]) && second(s[i]))
    ensures Filter(Filter(s, first), second) == Filter(s, both)
  {
    if s != [] {
      FilterTwice(s[1..], first, second, both);
      if first(s[0]) {
        assert ([s[0]] + Filter(s[1..], first))[1..] == Filter(s[1..], first);
      }
    }
  }

  lemma {:induction false} FilterAgrees<T>(s: seq<T>, p: T -> bool, q: T -> bool)
    requires forall i :: 0 <= i < |s| ==> (p(s[i]) <==> q(s[i]))
    ensures Filter(s, p) == Filter(s, q)
  {
    if s != [] {
      FilterAgrees(s[1..], p, q);
    }
  }

  lemma DistinctCons(x: Item, rest: seq<Item>)
    requires DistinctIds(rest) && forall y :: y in rest ==> y.part.id != x.part.id
    ensures DistinctIds([x] + rest)
  {
    var all := [x] + rest;
    forall i, j | 0 <= i < j < |all| ensures all[i].part.id != all[j].part.id
    {
      assert all[j] == rest[j - 1] && rest[j - 1] in rest;
      if i > 0 { assert all[i] == rest[i - 1]; }
    }
  }

  lemma DistinctUncons(s: seq<Item>)
    requires s != [] && DistinctIds(s)
    ensures DistinctIds(s[1..]) && forall y :: y in s[1..] ==> y.part.id != s[0].part.id
  {
  }

  lemma {:induction false} FilterStaysDistinct(s: seq<Item>, keep: Item -> bool)
    requires DistinctIds(s)
    ensures DistinctIds(Filter(s, keep))
  {
    hide DistinctIds;
    if s == [] {
      EmptyIsDistinct();
    } else {
      DistinctUncons(s);
      FilterStaysDistinct(s[1..], keep);
      if keep(s[0]) { DistinctCons(s[0], Filter(s[1..], keep)); }
    }
  }

  lemma EmptyIsDistinct()
    ensures DistinctIds([])
  {
  }

  lemma FilterStaysUsable(s: seq<Item>, keep: Item -> bool)
    requires DistinctIds(s) && ColonFree(s)
    ensures DistinctIds(Filter(s, keep)) && ColonFree(Filter(s, keep))
  {
    FilterStaysDistinct(s, keep);
    forall i | 0 <= i < |Filter(s, keep)| ensures Filter(s, keep)[i] in s {}
  }

  /** The items of a turn's shape are the turn's own items that pass its filter. */
  lemma ShapeItems(messages: seq<Message>, reasoning: bool, cancelled: Option<string>, compaction: bool)
    requires UsableIds(messages)
    ensures var shape := FoldShape(messages, reasoning, cancelled, compaction);
      && shape.refs == Filter(AllItems(messages, 0), (x: Item) => InShape(x.part, reasoning, shape.interruptedIndex != -1))
      && DistinctIds(shape.refs) && ColonFree(shape.refs)
  {
    hide AllItems, DistinctIds, ColonFree, InShape, InterruptedAt;
    var shape := FoldShape(messages, reasoning, cancelled, compaction);
    ResolvedSame(messages);
    KeptItemsOfMessages(messages, 0, (p: Part) => InShape(p, reasoning, shape.interruptedIndex != -1));
    var keep := (x: Item) => InShape(x.part, reasoning, shape.interruptedIndex != -1);
    FilterAgrees(AllItems(messages, 0), keep,
                 (x: Item) => ((p: Part) => InShape(p, reasoning, shape.interruptedIndex != -1))(x.part));
    FilterStaysUsable(AllItems(messages, 0), keep);
  }

  /** An uninterrupted turn's shape holds what is drawn of it unfolded; an interrupted one's holds that less the unfinished tools. */
  lemma ShapeIsDrawn(messages: seq<Message>, request: LineRequest, compaction: bool)
    requires UsableIds(messages)
    ensures var shape := FoldShape(messages, request.reasoning, request.cancelled, compaction);
      shape.refs == if shape.interruptedIndex == -1 then DrawnItems(messages, request.reasoning)
                    else Filter(DrawnItems(messages, request.reasoning), (x: Item) => !(x.part.ToolPart? && x.part.status in {Pending, Running}))
  {
    hide AllItems, DistinctIds, ColonFree, InterruptedAt, IsGroupable;
    var shape := FoldShape(messages, request.reasoning, request.cancelled, compaction);
    var all := AllItems(messages, 0);
    var inShape := (x: Item) => InShape(x.part, request.reasoning, shape.interruptedIndex != -1);
    var drawn := (x: Item) => IsGroupable(x.part, request.reasoning);
    ShapeItems(messages, request.reasoning, request.cancelled, compaction);
    KeptItemsOfMessages(messages, 0, (p: Part) => IsGroupable(p, request.reasoning));
    FilterAgrees(all, drawn, (x: Item) => ((p: Part) => IsGroupable(p, request.reasoning))(x.part));
    var finished := (x: Item) => !(x.part.ToolPart? && x.part.status in {Pending, Running});
    FilterTwice(all, drawn, finished, (x: Item) => drawn(x) && finished(x));
    if shape.interruptedIndex == -1 {
      FilterAgrees(all, inShape, drawn);
    } else {
      FilterAgrees(all, inShape, (x: Item) => drawn(x) && finished(x));
    }
  }

  /** Turning thoughts off hides the thoughts, and nothing else; a text or thought is drawn only if it is not blank. */
  lemma DrawnWithoutThoughts(messages: seq<Message>)
    ensures DrawnItems(messages, false) == Filter(DrawnItems(messages, true), (x: Item) => !x.part.ReasoningPart?)
    ensures forall x, reasoning :: x in DrawnItems(messages, reasoning) && (x.part.TextPart? || x.part.ReasoningPart?) ==>
      exists i :: 0 <= i < |x.part.text| && !IsSpace(x.part.text[i])
  {
    hide AllItems, IsHiddenTool, IsPendingQuestion, IsSpace, KeepParts;
    var all := AllItems(messages, 0);
    forall reasoning: bool ensures DrawnItems(messages, reasoning) == Filter(all, (x: Item) => IsGroupable(x.part, reasoning))
    {
      KeptItemsOfMessages(messages, 0, (p: Part) => IsGroupable(p, reasoning));
      FilterAgrees(all, (x: Item) => IsGroupable(x.part, reasoning), (x: Item) => ((p: Part) => IsGroupable(p, reasoning))(x.part));
    }
    FilterTwice(all, (x: Item) => IsGroupable(x.part, true), (x: Item) => !x.part.ReasoningPart?, (x: Item) => IsGroupable(x.part, false));
    forall x, reasoning | x in DrawnItems(messages, reasoning) && (x.part.TextPart? || x.part.ReasoningPart?) ensures TextIsPresent(x.part.text)
    {
      DrawnIsGroupable(messages, reasoning, x);
    }
  }

  /** Of tools, the to-do list and a question that waits for its answer are not drawn, and every other is. */
  lemma ToolsDrawnExactly(messages: seq<Message>, reasoning: bool, x: Item)
    requires x in AllItems(messages, 0) && x.part.ToolPart?
    ensures x in DrawnItems(messages, reasoning) <==>
      && !(x.part.name != "" && x.part.canonical == "todowrite")
      && !(x.part.name != "" && x.part.canonical == "question" && x.part.status in {Pending, Running})
  {
    hide AllItems, KeepParts;
    KeptItemsOfMessages(messages, 0, (p: Part) => IsGroupable(p, reasoning));
  }

  lemma DrawnIsGroupable(messages: seq<Message>, reasoning: bool, x: Item)
    requires x in DrawnItems(messages, reasoning)
    ensures IsGroupable(x.part, reasoning)
  {
    hide AllItems, IsGroupable, KeepParts;
    KeptItemsOfMessages(messages, 0, (p: Part) => IsGroupable(p, reasoning));
  }

  lemma {:induction false} FindPartOwn(items: seq<Item>, i: nat)
    requires i < |items| && DistinctIds(items)
    ensures FindPart(items, items[i].part.id) == Some(items[i].part)
  {
    if i < |items| - 1 {
      FindPartOwn(items[..|items| - 1], i);
    }
  }

  lemma LookupResolves(items: seq<Item>)
    requires DistinctIds(items)
    ensures Resolves(PartLookup(items), items)
  {
    hide FindPart, DistinctIds;
    forall i | 0 <= i < |items| ensures IsOfType(RefOf(items[i]), PartLookup(items), TypeOf(items[i].part))
    {
      FindPartOwn(items, i);
    }
  }

  /** The estimate knows of no part that was opened by hand. */
  lemma NothingOpened(items: seq<Item>, groups: seq<PartGroup>)
    ensures NobodyOpened(groups, PartLookup(items))
  {
    hide FindPart;
  }

  // ---------------------------------------------------------------- segments

  ghost predicate InOrder(items: seq<Item>) {
    forall i, j :: 0 <= i < j < |items| ==> items[i].messageIndex <= items[j].messageIndex
  }

  lemma {:induction false} ItemsInOrder(messages: seq<Message>, index: nat)
    ensures InOrder(AllItems(messages, index))
    ensures forall i :: 0 <= i < |AllItems(messages, index)| ==> AllItems(messages, index)[i].messageIndex >= index
  {
    if messages != [] {
      ItemsInOrder(messages[1..], index + 1);
    }
  }

  /** Cutting items in message order at a message index leaves them in order. */
  lemma {:induction false} CutInOrder(items: seq<Item>, cut: int, before: Item -> bool, after: Item -> bool)
    requires InOrder(items)
    requires forall i :: 0 <= i < |items| ==> (before(items[i]) <==> items[i].messageIndex <= cut)
    requires forall i :: 0 <= i < |items| ==> (after(items[i]) <==> items[i].messageIndex > cut)
    ensures Filter(items, before) + Filter(items, after) == items
  {
    hide Filter;
    if items == [] || items[0].messageIndex > cut {
      FilterNone(items, before);
      FilterAll(items, after);
    } else {
      CutInOrder(items[1..], cut, before, after);
      CutStep(items[0], items[1..], before, after);
      assert items == [items[0]] + items[1..];
    }
  }

  lemma CutStep<T>(x: T, rest: seq<T>, before: T -> bool, after: T -> bool)
    requires Filter(rest, before) + Filter(rest, after) == rest && before(x) && !after(x)
    ensures Filter([x] + rest, before) + Filter([x] + rest, after) == [x] + rest
  {
    assert ([x] + rest)[1..] == rest;
  }

  lemma ShownIsAll(items: seq<Item>)
    requires forall i :: 0 <= i < |items| ==> !IsPendingQuestion(items[i].part)
    ensures Shown(items) == items
  {
    FilterAll(items, (item: Item) => !IsPendingQuestion(item.part));
  }

  /** However the turn is cut into segments, its groups together cover the shape's items in order. */
  lemma SegmentsTile(shape: Shape)
    requires InOrder(shape.refs)
    requires forall i :: 0 <= i < |shape.refs| ==> !IsPendingQuestion(shape.refs[i].part)
    ensures Tiles(Segments(shape), shape.refs)
  {
    hide Tiles, GroupsFrom, IsPendingQuestion, InOrder, Shown;
    if shape.interruptedIndex == -1 || shape.compaction {
      ShownIsAll(shape.refs);
      GroupingCorrect(shape.refs);
    } else {
      var before, after := (x: Item) => x.messageIndex <= shape.interruptedIndex, (x: Item) => x.messageIndex > shape.interruptedIndex;
      var first, second := Filter(shape.refs, before), Filter(shape.refs, after);
      CutInOrder(shape.refs, shape.interruptedIndex, before, after);
      forall i | 0 <= i < |first| ensures !IsPendingQuestion(first[i].part) { assert first[i] in shape.refs; }
      forall i | 0 <= i < |second| ensures !IsPendingQuestion(second[i].part) { assert second[i] in shape.refs; }
      ShownIsAll(first);
      ShownIsAll(second);
      GroupingCorrect(first);
      GroupingCorrect(second);
      TilesConcat(Grouping(first), first, Grouping(second), second);
    }
  }

  // ---------------------------------------------------------------- what a folded turn draws

  lemma InShapeIsGroupable(p: Part, reasoning: bool, interrupted: bool)
    requires InShape(p, reasoning, interrupted)
    ensures IsGroupable(p, reasoning) && !IsPendingQuestion(p)
  {
  }

  lemma ShapeFacts(messages: seq<Message>, request: LineRequest, compaction: bool)
    requires UsableIds(messages)
    ensures var shape := FoldShape(messages, request.reasoning, request.cancelled, compaction);
      && Tiles(Segments(shape), shape.refs) && Resolves(PartLookup(shape.refs), shape.refs)
      && (forall i :: 0 <= i < |shape.refs| ==> !IsPendingQuestion(shape.refs[i].part))
      && DistinctIds(shape.refs) && ColonFree(shape.refs)
  {
    hide Tiles, AllItems, DistinctIds, ColonFree, InShape, InterruptedAt, Resolves, IsPendingQuestion, IsGroupable,
         Segments, Resolved, PartLookup, InOrder;
    var shape := FoldShape(messages, request.reasoning, request.cancelled, compaction);
    ShapeItems(messages, request.reasoning, request.cancelled, compaction);
    var keep := (x: Item) => InShape(x.part, request.reasoning, shape.interruptedIndex != -1);
    assert forall x :: x in Filter(AllItems(messages, 0), keep) ==> keep(x);
    forall i | 0 <= i < |shape.refs| ensures !IsPendingQuestion(shape.refs[i].part)
    {
      assert shape.refs[i] in shape.refs && keep(shape.refs[i]);
      InShapeIsGroupable(shape.refs[i].part, request.reasoning, shape.interruptedIndex != -1);
    }
    LookupResolves(shape.refs);
    ItemsInOrder(KeepParts(Resolved(messages), (p: Part) => InShape(p, request.reasoning, shape.interruptedIndex != -1)), 0);
    SegmentsTile(shape);
  }

  lemma KeptIdsExactly(groups: seq<PartGroup>, folded: set<string>, kept: seq<Item>, id: string)
    requires Filter(groups, (g: PartGroup) => g.key !in folded) == Singles(kept)
    ensures id in KeptIds(groups, folded) <==> exists x :: x in kept && x.part.id == id
  {
    hide SingleOf;
    var unfolded := Filter(groups, (g: PartGroup) => g.key !in folded);
    if id in KeptIds(groups, folded) {
      var g, ref :| g in groups && g.key !in folded && ref in Members(g) && ref.partId == id;
      assert g in unfolded;
      var i :| 0 <= i < |kept| && unfolded[i] == g;
      SingleMember(kept[i]);
      assert kept[i] in kept;
    }
    if x :| x in kept && x.part.id == id {
      var i :| 0 <= i < |kept| && kept[i] == x;
      assert unfolded[i] in unfolded;
      SingleMember(x);
      assert RefOf(x) in Members(unfolded[i]);
    }
  }

  lemma SingleMember(x: Item)
    ensures Members(SingleOf(x)) == [RefOf(x)]
  {
  }

  /** The kept items of a turn, read off the turn itself. */
  function KeptOf(messages: seq<Message>, request: LineRequest, compaction: bool): seq<Item> {
    var shape := FoldShape(messages, request.reasoning, request.cancelled, compaction);
    KeptItems(shape.refs, Segments(shape))
  }

  lemma FoldedTurnUnfolded(messages: seq<Message>, request: LineRequest, compaction: bool)
    requires UsableIds(messages) && messages != [] && DrawnAssistants(messages, request, compaction).folded
    ensures var shape := FoldShape(messages, request.reasoning, request.cancelled, compaction);
      var part, decision := PartLookup(shape.refs), DecisionFor(messages, shape);
      var kept := KeptOf(messages, request, compaction);
      && Unfolded(decision, Segments(shape), part) == Singles(kept) && Shown(kept) == kept && WorkOrAlone(kept)
      && (Grouping(kept) == Singles(kept) <==> NoWorkPairs(kept))
  {
    hide Tiles, Segments, PartLookup, Resolves, KeptItems, Unfolded, NobodyOpened, WorkOrAlone, NoWorkPairs, GroupsFrom, Shown, AllItems, FoldedKeys, KeptIds, CountFoldable,
         DistinctIds, ColonFree, IsPendingQuestion, InShape, InterruptedAt, KeepParts;
    var shape := FoldShape(messages, request.reasoning, request.cancelled, compaction);
    ShapeFacts(messages, request, compaction);
    NothingOpened(shape.refs, Segments(shape));
    RegroupingKept(DecisionFor(messages, shape), Segments(shape), shape.refs, PartLookup(shape.refs));
  }

  lemma KeptIdNamesKept(all: seq<Item>, refs: seq<Item>, kept: seq<Item>, x: Item)
    requires DistinctIds(all) && x in all && (forall y :: y in refs ==> y in all) && (forall y :: y in kept ==> y in refs)
    ensures (exists y :: y in kept && y.part.id == x.part.id) <==> x in kept
  {
    hide DistinctIds;
    if y :| y in kept && y.part.id == x.part.id {
      SameId(all, x, y);
    }
  }

  lemma DrawnParts(messages: seq<Message>, ids: set<string>, reasoning: bool)
    ensures DrawnItems(KeepParts(messages, (p: Part) => p.id in ids), reasoning) ==
            Filter(AllItems(messages, 0), (x: Item) => x.part.id in ids && IsGroupable(x.part, reasoning))
  {
    hide AllItems, IsGroupable, Filter;
    var byId, groupable := (p: Part) => p.id in ids, (p: Part) => IsGroupable(p, reasoning);
    KeptItemsOfMessages(messages, 0, byId);
    KeptItemsOfMessages(KeepParts(messages, byId), 0, groupable);
    FilterTwice(AllItems(messages, 0), (x: Item) => byId(x.part), (x: Item) => groupable(x.part),
                (x: Item) => x.part.id in ids && IsGroupable(x.part, reasoning));
  }

  /** The parts a folded turn hands to the line estimate are exactly its kept items. */
  lemma FoldedTurnItems(messages: seq<Message>, request: LineRequest, compaction: bool)
    requires UsableIds(messages) && messages != [] && DrawnAssistants(messages, request, compaction).folded
    ensures DrawnItems(DrawnAssistants(messages, request, compaction).assistants, request.reasoning) == KeptOf(messages, request, compaction)
  {
    hide AllItems, Tiles, Segments, SoloIds, WorkOrAlone, NoWorkPairs, PartLookup, FoldedKeys, KeptIds, AnswerItems, InShape, IsGroupable, DistinctIds, ColonFree,
         InterruptedAt, CountFoldable, Stays, Resolved, GroupsFrom, Shown, SingleOf, KeepParts;
    var shape := FoldShape(messages, request.reasoning, request.cancelled, compaction);
    var interrupted := shape.interruptedIndex != -1;
    var all, solo := AllItems(messages, 0), SoloIds(Segments(shape));
    var answers := AnswerItems(shape.refs, solo);
    var kept := KeptOf(messages, request, compaction);
    var decision := DecisionFor(messages, shape);
    var folded := FoldedKeys(decision, Segments(shape), PartLookup(shape.refs));
    var ids := KeptIds(Segments(shape), folded);
    var inShape := (x: Item) => InShape(x.part, request.reasoning, interrupted);
    var both := (x: Item) => x.part.id in ids && IsGroupable(x.part, request.reasoning);
    ShapeItems(messages, request.reasoning, request.cancelled, compaction);
    FoldedTurnUnfolded(messages, request, compaction);
    DrawnParts(messages, ids, request.reasoning);
    forall i | 0 <= i < |all| ensures both(all[i]) <==> inShape(all[i]) && Stays(all[i], answers, solo)
    {
      KeptIdsExactly(Segments(shape), folded, kept, all[i].part.id);
      KeptIdNamesKept(all, shape.refs, kept, all[i]);
      if inShape(all[i]) { InShapeIsGroupable(all[i].part, request.reasoning, interrupted); }
    }
    FilterTwice(all, inShape, (x: Item) => Stays(x, answers, solo), both);
  }

  /**
   * A turn's part stays drawn exactly when it is no text, thought or tool, is an answer tool drawn on its own, or is a text with no tool
   * after it, such answer tools not counting.
   */
  lemma KeptExactly(messages: seq<Message>, request: LineRequest, compaction: bool, i: nat)
    requires UsableIds(messages) && i < |FoldShape(messages, request.reasoning, request.cancelled, compaction).refs|
    ensures var shape := FoldShape(messages, request.reasoning, request.cancelled, compaction);
      var refs, solo := shape.refs, SoloIds(Segments(shape));
      refs[i] in KeptOf(messages, request, compaction) <==>
      || refs[i].part.OtherPart? || (IsAnswerTool(refs[i].part) && refs[i].part.id in solo)
      || (refs[i].part.TextPart? && NoPlainTool(refs[i + 1..], solo))
  {
    hide FoldShape, IsAnswerTool, DistinctIds, ColonFree, AllItems, NoPlainTool, Segments, SoloIds;
    var shape := FoldShape(messages, request.reasoning, request.cancelled, compaction);
    ShapeItems(messages, request.reasoning, request.cancelled, compaction);
    AnswerItemsExactly(shape.refs, SoloIds(Segments(shape)), i);
  }

  // ---------------------------------------------------------------- lines

  predicate IsFence(line: string) {
    StartsWith(TrimStart(line), "```")
  }

  function FencesBefore(lines: seq<string>, i: nat): nat
    requires i <= |lines|
  {
    if i == 0 then 0 else FencesBefore(lines, i - 1) + (if IsFence(lines[i - 1]) then 1 else 0)
  }

  lemma RowsHold(n: nat, cols: nat)
    requires cols >= 1
    ensures var rows := (n + cols - 1) / cols; rows * cols >= n && (rows >= 1 ==> (rows - 1) * cols < n)
  {
    var rows, rest := (n + cols - 1) / cols, (n + cols - 1) % cols;
    assert n + cols - 1 == rows * cols + rest;
    assert (rows - 1) * cols == rows * cols - cols;
  }

  /** The fewest rows of `cols` characters, but at least one, that hold the line. */
  function WrappedLines(line: string, cols: nat): (rows: nat)
    requires cols >= 1
    ensures rows >= 1 && rows * cols >= |line| && (rows > 1 ==> (rows - 1) * cols < |line|)
  {
    RowsHold(|line|, cols);
    var rows := (|line| + cols - 1) / cols;
    if rows < 1 then 1 else rows
  }

  /** What one line adds: an opening fence its frame, a fenced line one row, any other line its wrapped rows. */
  function LineHeight(lines: seq<string>, i: nat, cols: nat): nat
    requires i < |lines| && cols >= 1
  {
    var inside := FencesBefore(lines, i) % 2 == 1;
    if IsFence(lines[i]) then if inside then 0 else FENCE_FRAME_LINES
    else if inside then 1
    else if |Trim(lines[i])| > 0 then WrappedLines(lines[i], cols)
    else 0
  }

  function HeightUpTo(lines: seq<string>, n: nat, cols: nat): nat
    requires n <= |lines| && cols >= 1
  {
    if n == 0 then 0 else HeightUpTo(lines, n - 1, cols) + LineHeight(lines, n - 1, cols)
  }

  function TextHeight(text: string, cols: nat): nat
    requires cols >= 1
  {
    var lines := Split(text, '\n');
    HeightUpTo(lines, |lines|, cols)
  }

  // ---------------------------------------------------------------- what heights mean

  lemma {:induction false} FencesSplit(a: seq<string>, b: seq<string>, i: nat)
    requires i <= |b|
    ensures FencesBefore(a + b, |a| + i) == FencesBefore(a, |a|) + FencesBefore(b, i)
  {
    hide IsFence;
    if i > 0 {
      FencesSplit(a, b, i - 1);
      assert (a + b)[|a| + i - 1] == b[i - 1];
    } else {
      FencesOfPrefix(a, b, |a|);
    }
  }

  lemma {:induction false} FencesOfPrefix(a: seq<string>, b: seq<string>, i: nat)
    requires i <= |a|
    ensures FencesBefore(a + b, i) == FencesBefore(a, i)
  {
    hide IsFence;
    if i > 0 { FencesOfPrefix(a, b, i - 1); }
  }

  lemma {:induction false} HeightOfPrefix(a: seq<string>, b: seq<string>, i: nat, cols: nat)
    requires i <= |a| && cols >= 1
    ensures HeightUpTo(a + b, i, cols) == HeightUpTo(a, i, cols)
  {
    hide IsFence, WrappedLines, Trim, FencesBefore;
    if i > 0 {
      HeightOfPrefix(a, b, i - 1, cols);
      FencesOfPrefix(a, b, i - 1);
    }
  }

  lemma {:induction false} HeightSplits(a: seq<string>, b: seq<string>, i: nat, cols: nat)
    requires i <= |b| && cols >= 1 && FencesBefore(a, |a|) % 2 == 0
    ensures HeightUpTo(a + b, |a| + i, cols) == HeightUpTo(a, |a|, cols) + HeightUpTo(b, i, cols)
  {
    hide IsFence, WrappedLines, Trim, FencesBefore;
    if i > 0 {
      HeightSplits(a, b, i - 1, cols);
      FencesSplit(a, b, i - 1);
      assert (a + b)[|a| + i - 1] == b[i - 1];
    } else {
      HeightOfPrefix(a, b, |a|, cols);
    }
  }

  /** The text's fences are paired off: it ends outside a block. */
  predicate FencesClosed(text: string) {
    var lines := Split(text, '\n');
    FencesBefore(lines, |lines|) % 2 == 0
  }

  /** Lines after a text whose fences are closed are counted as on their own. */
  lemma TextHeightSplits(a: string, b: string, cols: nat)
    requires cols >= 1 && FencesClosed(a)
    ensures TextHeight(a + "\n" + b, cols) == TextHeight(a, cols) + TextHeight(b, cols)
  {
    hide Split, IsFence;
    SplitAtSeparator(a, b, '\n');
    assert a + "\n" + b == a + ['\n'] + b;
    HeightSplits(Split(a, '\n'), Split(b, '\n'), |Split(b, '\n')|, cols);
  }

  /** One line on its own: a fence takes two rows, a blank line none, and any other as many as hold it. */
  lemma OneLineHeight(line: string, cols: nat)
    requires cols >= 1 && '\n' !in line
    ensures TextHeight(line, cols) == if IsFence(line) then 2 else if Trim(line) == "" then 0 else WrappedLines(line, cols)
  {
    hide IsFence, Trim, WrappedLines;
    SplitOfPiece(line, '\n');
    assert FencesBefore([line], 0) == 0 && HeightUpTo([line], 0, cols) == 0;
  }

  lemma {:induction false} BlockHeight(lines: seq<string>, fence: string, i: nat, cols: nat)
    requires cols >= 1 && i <= |lines| && IsFence(fence) && forall k :: 0 <= k < |lines| ==> !IsFence(lines[k])
    ensures FencesBefore([fence] + lines, 1 + i) == 1 && HeightUpTo([fence] + lines, 1 + i, cols) == 2 + i
  {
    hide IsFence, Trim, WrappedLines;
    var all := [fence] + lines;
    if i > 0 {
      BlockHeight(lines, fence, i - 1, cols);
      assert all[i] == lines[i - 1];
    } else {
      assert all[0] == fence && FencesBefore(all, 0) == 0 && HeightUpTo(all, 0, cols) == 0;
    }
  }

  /** A fenced block takes two rows for its frame and one for each of its lines, however long or blank, and closes its fence. */
  lemma FencedBlockHeight(open: string, code: string, close: string, cols: nat)
    requires cols >= 1 && IsFence(open) && IsFence(close) && '\n' !in open && '\n' !in close
    requires forall k :: 0 <= k < |Split(code, '\n')| ==> !IsFence(Split(code, '\n')[k])
    ensures TextHeight(open + "\n" + code + "\n" + close, cols) == 2 + |Split(code, '\n')|
    ensures FencesClosed(open + "\n" + code + "\n" + close)
  {
    hide Split, IsFence, Trim, WrappedLines;
    var lines := Split(code, '\n');
    var text, all := open + "\n" + code + "\n" + close, [open] + lines + [close];
    SplitOfPiece(open, '\n');
    SplitOfPiece(close, '\n');
    SplitAtSeparator(code, close, '\n');
    SplitAtSeparator(open, code + "\n" + close, '\n');
    assert text == open + ['\n'] + (code + "\n" + close) && code + "\n" + close == code + ['\n'] + close;
    assert Split(text, '\n') == all && all == ([open] + lines) + [close];
    BlockHeight(lines, open, |lines|, cols);
    var n := 1 + |lines|;
    FencesOfPrefix([open] + lines, [close], n);
    HeightOfPrefix([open] + lines, [close], n, cols);
    assert all[n] == close && |all| == n + 1;
  }

  method TextLines(text: string, cols: nat) returns (height: nat)
    requires cols >= 1
    ensures height == TextHeight(text, cols)
  {
    hide TrimStart, TrimEnd, WrappedLines, Split;
    height := 0;
    var fenced := false;
    var lines := Split(text, '\n');
    for i := 0 to |lines|
      invariant height == HeightUpTo(lines, i, cols)
      invariant fenced <==> FencesBefore(lines, i) % 2 == 1
    {
      if IsFence(lines[i]) {
        if !fenced { height := height + FENCE_FRAME_LINES; }
        fenced := !fenced;
        continue;
      }
      if fenced {
        height := height + 1;
      } else if |Trim(lines[i])| > 0 {
        height := height + WrappedLines(lines[i], cols);
      }
    }
  }

  function GroupLines(g: PartGroup, items: seq<Item>, cols: nat): nat
    requires cols >= 1
  {
    if !g.Single? then GROUP_ROW_LINES
    else
      match FindPart(items, g.ref.partId)
      case Some(TextPart(_, text)) => TextHeight(text, cols)
      case _ => GROUP_ROW_LINES
  }

  function SumGroupLines(groups: seq<PartGroup>, items: seq<Item>, cols: nat): nat
    requires cols >= 1
  {
    if groups == [] then 0 else GroupLines(groups[0], items, cols) + SumGroupLines(groups[1..], items, cols)
  }

  function DrawnGroupLines(messages: seq<Message>, cols: nat, reasoning: bool): nat
    requires cols >= 1
  {
    var items := DrawnItems(messages, reasoning);
    SumGroupLines(Grouping(Shown(items)), items, cols)
  }

  function ItemLines(x: Item, cols: nat): nat
    requires cols >= 1
  {
    if x.part.TextPart? then TextHeight(x.part.text, cols) else GROUP_ROW_LINES
  }

  function SumItemLines(items: seq<Item>, cols: nat): nat
    requires cols >= 1
  {
    if items == [] then 0 else ItemLines(items[0], cols) + SumItemLines(items[1..], cols)
  }

  /** A turn as one read answers it: the user's visible prompt, and the assistant messages after it. */
  datatype Turn = Turn(prompt: string, compaction: bool, assistants: seq<Message>)

  /** Eight tenths of the columns, rounded down, but at least one. */
  function BubbleCols(cols: nat): (bubble: nat)
    ensures bubble >= 1 && (cols >= 2 ==> 10 * bubble <= 8 * cols < 10 * (bubble + 1))
  {
    var bubble := cols * 4 / 5;
    if bubble < 1 then 1 else bubble
  }

  function PromptLines(turn: Turn, request: LineRequest): nat {
    TextHeight(turn.prompt, BubbleCols(request.cols))
  }

  function EstimateTurnLines(turn: Turn, request: LineRequest): nat
    requires request.cols >= 1
  {
    var drawn := DrawnAssistants(turn.assistants, request, turn.compaction);
    TURN_CHROME_LINES + PromptLines(turn, request) +
    (if drawn.folded then FOLD_ROW_LINES else 0) + DrawnGroupLines(drawn.assistants, request.cols, request.reasoning)
  }

  lemma {:induction false} SumItemLinesConcat(a: seq<Item>, b: seq<Item>, cols: nat)
    requires cols >= 1
    ensures SumItemLines(a + b, cols) == SumItemLines(a, cols) + SumItemLines(b, cols)
  {
    hide ItemLines;
    if a == [] {
      assert a + b == b;
    } else {
      assert (a + b)[1..] == a[1..] + b;
      SumItemLinesConcat(a[1..], b, cols);
    }
  }

  lemma {:induction false} WorkRunLines(run: seq<Item>, cols: nat)
    requires cols >= 1 && forall k :: 0 <= k < |run| ==> IsWork(run[k])
    ensures SumItemLines(run, cols) == GROUP_ROW_LINES * |run|
  {
    hide ClassOf, TextHeight;
    if run != [] {
      WorkRunLines(run[1..], cols);
      assert IsWork(run[0]);
      WorkIsTool(run[0].part);
    }
  }

  /** Two neighbours from `i` on are both work tools. */
  predicate HasWorkPair(items: seq<Item>, i: nat) {
    exists k :: i <= k < |items| - 1 && IsWork(items[k]) && IsWork(items[k + 1])
  }

  /** A part drawn on its own adds its own lines. */
  lemma LoneLines(items: seq<Item>, i: nat, cols: nat)
    requires cols >= 1 && i < |items| && WorkOrAlone(items) && DistinctIds(items) && StandsAlone(items, i)
    ensures SumGroupLines(GroupsFrom(items, i), items, cols) == ItemLines(items[i], cols) + SumGroupLines(GroupsFrom(items, i + 1), items, cols)
    ensures SumItemLines(items[i..], cols) == ItemLines(items[i], cols) + SumItemLines(items[i + 1..], cols)
  {
    hide TextHeight, DistinctIds, FindPart, GroupsFrom, StandsAlone;
    SinglesStep(items, i);
    FindPartOwn(items, i);
    assert ([SingleOf(items[i])] + GroupsFrom(items, i + 1))[1..] == GroupsFrom(items, i + 1);
    assert items[i..][1..] == items[i + 1..];
  }

  /** A run of two work tools or more adds one row, where its parts would add one each. */
  lemma MergedLines(items: seq<Item>, i: nat, cols: nat)
    requires cols >= 1 && i < |items| && WorkOrAlone(items) && !StandsAlone(items, i)
    ensures var e := RunEnd(items, i);
      && e > i + 1 && IsWork(items[i]) && IsWork(items[i + 1])
      && SumGroupLines(GroupsFrom(items, i), items, cols) == GROUP_ROW_LINES + SumGroupLines(GroupsFrom(items, e), items, cols)
      && SumItemLines(items[i..], cols) == GROUP_ROW_LINES * (e - i) + SumItemLines(items[e..], cols)
  {
    hide ClassOf, KindAt, GroupsFrom, SumItemLines;
    KindsAreClasses(items);
    var e := RunEnd(items, i);
    var run := items[i..e];
    FirstRun(items, i);
    assert KindAt(items, i) == WorkRun && IsWork(items[i]);
    assert e > i + 1;
    assert KindAt(items, i + 1) == WorkRun;
    TwoTools(run);
    forall k | 0 <= k < |run| ensures IsWork(run[k]) { assert KindAt(items, i + k) == WorkRun; }
    WorkRunLines(run, cols);
    assert items[i..] == run + items[e..];
    SumItemLinesConcat(run, items[e..], cols);
    assert GroupsFrom(items, i) == [WorkOf(run)] + GroupsFrom(items, e);
    assert ([WorkOf(run)] + GroupsFrom(items, e))[1..] == GroupsFrom(items, e);
  }

  /** Regrouping can only save lines, and saves some exactly when two work tools stand side by side. */
  lemma {:induction false} RegroupedLines(items: seq<Item>, i: nat, cols: nat)
    requires cols >= 1 && i <= |items| && WorkOrAlone(items) && DistinctIds(items)
    ensures SumGroupLines(GroupsFrom(items, i), items, cols) <= SumItemLines(items[i..], cols)
    ensures SumGroupLines(GroupsFrom(items, i), items, cols) == SumItemLines(items[i..], cols) <==> !HasWorkPair(items, i)
    decreases |items| - i
  {
    hide GroupsFrom, StandsAlone, WorkOrAlone, DistinctIds, IsWork, ItemLines, GroupLines;
    if i == |items| {
      EmptyTail(items);
    } else if StandsAlone(items, i) {
      RegroupedLines(items, i + 1, cols);
      LoneLines(items, i, cols);
      LoneIsNoPair(items, i);
      assert HasWorkPair(items, i) <==> HasWorkPair(items, i + 1);
    } else {
      MergedLines(items, i, cols);
      RegroupedLines(items, RunEnd(items, i), cols);
      assert HasWorkPair(items, i);
    }
  }

  lemma LoneIsNoPair(items: seq<Item>, i: nat)
    requires i < |items| && WorkOrAlone(items) && StandsAlone(items, i)
    ensures !(i + 1 < |items| && IsWork(items[i]) && IsWork(items[i + 1]))
  {
    hide ClassOf, KindAt;
    KindsAreClasses(items);
  }

  /**
   * What a folded turn hands to the estimate is exactly what it keeps, its unfolded groups are single parts in order, and grouping
   * gives them back exactly when no two work tools stand side by side. The estimate then counts each kept text at its own height, each
   * other kept part as one row, and nothing else; with such neighbours it counts less.
   */
  lemma FoldedTurnRegroups(turn: Turn, request: LineRequest)
    requires request.cols >= 1 && UsableIds(turn.assistants) && turn.assistants != []
    requires DrawnAssistants(turn.assistants, request, turn.compaction).folded
    ensures var shape := FoldShape(turn.assistants, request.reasoning, request.cancelled, turn.compaction);
      var drawn := DrawnItems(DrawnAssistants(turn.assistants, request, turn.compaction).assistants, request.reasoning);
      var kept := KeptOf(turn.assistants, request, turn.compaction);
      var unfolded := Unfolded(DecisionFor(turn.assistants, shape), Segments(shape), PartLookup(shape.refs));
      && drawn == kept && unfolded == Singles(kept)
      && (Grouping(Shown(drawn)) == unfolded <==> NoWorkPairs(kept))
    ensures var kept := KeptOf(turn.assistants, request, turn.compaction);
      var own := 3 + PromptLines(turn, request) + 2 + SumItemLines(kept, request.cols);
      EstimateTurnLines(turn, request) <= own && (EstimateTurnLines(turn, request) == own <==> NoWorkPairs(kept))
  {
    hide DrawnAssistants, DrawnItems, KeptItems, FoldShape, GroupsFrom, Shown, Unfolded, Segments, PartLookup, DecisionFor, TextHeight,
         DistinctIds, UsableIds, WorkOrAlone, SumItemLines, SumGroupLines, IsWork;
    var kept := KeptOf(turn.assistants, request, turn.compaction);
    FoldedTurnItems(turn.assistants, request, turn.compaction);
    FoldedTurnUnfolded(turn.assistants, request, turn.compaction);
    KeptDistinct(turn.assistants, request, turn.compaction);
    RegroupedLines(kept, 0, request.cols);
    assert kept[0..] == kept;
    assert NoWorkPairs(kept) <==> !HasWorkPair(kept, 0);
  }

  function CountTexts(items: seq<Item>): nat {
    if items == [] then 0 else (if items[0].part.TextPart? then 1 else 0) + CountTexts(items[1..])
  }

  function SumTextHeights(items: seq<Item>, cols: nat): nat
    requires cols >= 1
  {
    if items == [] then 0 else (if items[0].part.TextPart? then TextHeight(items[0].part.text, cols) else 0) + SumTextHeights(items[1..], cols)
  }

  lemma {:induction false} NoTextsNoHeights(run: seq<Item>, rest: seq<Item>, cols: nat)
    requires cols >= 1 && forall k :: 0 <= k < |run| ==> !run[k].part.TextPart?
    ensures CountTexts(run + rest) == CountTexts(rest) && SumTextHeights(run + rest, cols) == SumTextHeights(rest, cols)
  {
    hide TextHeight;
    if run == [] {
      assert run + rest == rest;
    } else {
      assert (run + rest)[1..] == run[1..] + rest;
      NoTextsNoHeights(run[1..], rest, cols);
    }
  }

  lemma MultiHasNoText(g: PartGroup, run: seq<Item>)
    requires Covers(g, run) && !g.Single?
    ensures forall k :: 0 <= k < |run| ==> !run[k].part.TextPart?
  {
    hide ToolCount, WorkGroupTool, Refs;
  }

  lemma SingleLines(x: Item, all: seq<Item>, cols: nat)
    requires cols >= 1 && DistinctIds(all) && x in all
    ensures GroupLines(SingleOf(x), all, cols) == if x.part.TextPart? then TextHeight(x.part.text, cols) else 2
  {
    hide TextHeight, FindPart, DistinctIds;
    var i :| 0 <= i < |all| && all[i] == x;
    FindPartOwn(all, i);
  }

  /** Groups draw each text at its height and every other group as two rows. */
  lemma {:induction false} GroupedLines(groups: seq<PartGroup>, items: seq<Item>, all: seq<Item>, cols: nat)
    requires cols >= 1 && Tiles(groups, items) && DistinctIds(all) && Within(items, all)
    ensures CountTexts(items) <= |groups|
    ensures SumGroupLines(groups, all, cols) == SumTextHeights(items, cols) + 2 * (|groups| - CountTexts(items))
    decreases |groups|
  {
    hide Tiles, Covers, GroupLines, TextHeight, DistinctIds, Members;
    TilesUncons(groups, items);
    if groups != [] {
      var n := |Members(groups[0])|;
      var run, rest := items[..n], items[n..];
      GroupedLines(groups[1..], rest, all, cols);
      assert items == run + rest;
      if groups[0].Single? {
        CoversSingle(groups[0], run);
        assert items[0] in all && run == [items[0]] && rest == items[1..];
        SingleLines(items[0], all, cols);
      } else {
        MultiHasNoText(groups[0], run);
        NoTextsNoHeights(run, rest, cols);
        MultiLines(groups[0], all, cols);
      }
    }
  }

  lemma MultiLines(g: PartGroup, all: seq<Item>, cols: nat)
    requires cols >= 1 && !g.Single?
    ensures GroupLines(g, all, cols) == 2
  {
  }

  /** The estimate of a turn that is not folded: the chrome, the prompt, each drawn text at its height, and two rows for every other group. */
  lemma UnfoldedTurnLines(turn: Turn, request: LineRequest)
    requires request.cols >= 1 && UsableIds(turn.assistants) && !DrawnAssistants(turn.assistants, request, turn.compaction).folded
    ensures var items := DrawnItems(turn.assistants, request.reasoning);
      EstimateTurnLines(turn, request) ==
      3 + TextHeight(turn.prompt, BubbleCols(request.cols)) + SumTextHeights(items, request.cols) + 2 * (|Grouping(items)| - CountTexts(items))
  {
    hide TextHeight, Tiles, DistinctIds, GroupsFrom, AllItems, ColonFree, SumGroupLines, SumTextHeights, Segments, FoldedKeys, KeptIds,
         CountFoldable, IsGroupable, IsPendingQuestion, FoldShape;
    var items := DrawnItems(turn.assistants, request.reasoning);
    KeptItemsOfMessages(turn.assistants, 0, (p: Part) => IsGroupable(p, request.reasoning));
    FilterStaysDistinct(AllItems(turn.assistants, 0), (x: Item) => ((p: Part) => IsGroupable(p, request.reasoning))(x.part));
    forall i | 0 <= i < |items| ensures !IsPendingQuestion(items[i].part)
    {
      DrawnIsGroupable(turn.assistants, request.reasoning, items[i]);
      GroupableIsNoQuestion(items[i].part, request.reasoning);
    }
    ShownIsAll(items);
    GroupingCorrect(items);
    GroupedLines(Grouping(items), items, items, request.cols);
  }

  lemma GroupableIsNoQuestion(p: Part, reasoning: bool)
    requires IsGroupable(p, reasoning)
    ensures !IsPendingQuestion(p)
  {
  }

  lemma KeptDistinct(messages: seq<Message>, request: LineRequest, compaction: bool)
    requires UsableIds(messages)
    ensures DistinctIds(KeptOf(messages, request, compaction))
  {
    hide FoldShape, DistinctIds, ColonFree, AllItems, AnswerItems, Stays, Segments, SoloIds;
    var shape := FoldShape(messages, request.reasoning, request.cancelled, compaction);
    ShapeItems(messages, request.reasoning, request.cancelled, compaction);
    var solo := SoloIds(Segments(shape));
    var answers := AnswerItems(shape.refs, solo);
    FilterStaysDistinct(shape.refs, (x: Item) => Stays(x, answers, solo));
  }

  // ---------------------------------------------------------------- paging

  /** Where a page ends: before the turn at this position, or after the newest turn. */
  type Cursor = Option<nat>

  datatype PageTurn = PageTurn(turn: Turn, cursor: Cursor)

  /** Caps of one request; a page read before a cursor has no byte cap. */
  datatype Caps = Caps(wanted: nat, bytes: Option<nat>)

  function CapsOf(rows: nat, before: Cursor): Caps {
    Caps(rows * (1 + TURN_PAGE_FILL_SCREENS), if before.None? then Some(TURN_PAGE_BYTE_CAP) else None)
  }

  function End(session: seq<Turn>, before: Cursor): nat
    requires before.Some? ==> before.value <= |session|
  {
    if before.None? then |session| else before.value
  }

  function Sum(turns: seq<Turn>, size: Turn -> nat): nat {
    if turns == [] then 0 else size(turns[0]) + Sum(turns[1..], size)
  }

  /** A page of these turns is already enough. */
  predicate Full(turns: seq<Turn>, caps: Caps, lines: Turn -> nat, bytes: Turn -> nat) {
    Sum(turns, lines) >= caps.wanted || |turns| >= TURN_PAGE_TURN_CAP || (caps.bytes.Some? && Sum(turns, bytes) >= caps.bytes.value)
  }

  /** The oldest turn of the page that ends at `end`, given that the page already starts at `start`. */
  function StartFrom(session: seq<Turn>, start: nat, end: nat, caps: Caps, lines: Turn -> nat, bytes: Turn -> nat): (first: nat)
    requires start <= end <= |session|
    ensures first <= start
    ensures first > 0 ==> Full(session[first..end], caps, lines, bytes)
    ensures forall s :: first < s <= start ==> !Full(session[s..end], caps, lines, bytes)
  {
    if start == 0 || Full(session[start..end], caps, lines, bytes) then start
    else StartFrom(session, start - 1, end, caps, lines, bytes)
  }

  function Slice(session: seq<Turn>, start: nat, end: nat): (page: seq<PageTurn>)
    requires start <= end <= |session|
    ensures |page| == end - start
    ensures forall i :: 0 <= i < |page| ==> page[i] == PageTurn(session[start + i], if start + i > 0 then Some(start + i) else None)
  {
    seq(end - start, i requires 0 <= i < end - start => PageTurn(session[start + i], if start + i > 0 then Some(start + i) else None))
  }

  function PageOf(session: seq<Turn>, before: Cursor, rows: nat, lines: Turn -> nat, bytes: Turn -> nat): seq<PageTurn>
    requires before.Some? ==> before.value <= |session|
  {
    var end := End(session, before);
    if end == 0 then [] else Slice(session, StartFrom(session, end - 1, end, CapsOf(rows, before), lines, bytes), end)
  }

  method ReadTurnPage(session: seq<Turn>, before: Cursor, rows: nat, lines: Turn -> nat, bytes: Turn -> nat)
    returns (turns: seq<PageTurn>)
    requires before.Some? ==> before.value <= |session|
    ensures turns == PageOf(session, before, rows, lines, bytes)
  {
    hide Full, StartFrom, Sum, Slice;
    turns := [];
    var caps := CapsOf(rows, before);
    var height, size := 0, 0;
    var next := before;
    ghost var end := End(session, before);
    ghost var at := end;
    EmptyPage(session, end, lines);
    EmptyPage(session, end, bytes);
    while true
      invariant at <= end && next == (if at == |session| && before.None? then None else Some(at))
      invariant turns == Slice(session, at, end)
      invariant height == Sum(session[at..end], lines) && size == Sum(session[at..end], bytes)
      invariant at < end ==> at > 0 && !Full(session[at..end], caps, lines, bytes)
      invariant at < end ==> StartFrom(session, end - 1, end, caps, lines, bytes) == StartFrom(session, at, end, caps, lines, bytes)
      decreases at
    {
      var page := ReadTurn(session, next);
      if page.None? { break; }
      turns := [page.value] + turns;
      height := height + lines(page.value.turn);
      size := size + bytes(page.value.turn);
      next := page.value.cursor;
      at := at - 1;
      SumStep(session, at, end, lines);
      SumStep(session, at, end, bytes);
      SliceStep(session, at, end);
      StartStep(session, at, end, caps, lines, bytes);
      FullIs(session[at..end], caps, lines, bytes, height, size);
      if !(next.Some? && height < caps.wanted && |turns| < TURN_PAGE_TURN_CAP && (caps.bytes.None? || size < caps.bytes.value)) { break; }
    }
  }

  /** One whole turn ending before the cursor, with the cursor at its user message when older turns exist. */
  function ReadTurn(session: seq<Turn>, before: Cursor): Option<PageTurn>
    requires before.Some? ==> before.value <= |session|
  {
    var end := End(session, before);
    if end == 0 then None else Some(PageTurn(session[end - 1], if end - 1 > 0 then Some(end - 1) else None))
  }

  lemma EmptyPage(session: seq<Turn>, end: nat, size: Turn -> nat)
    requires end <= |session|
    ensures Sum(session[end..end], size) == 0 && Slice(session, end, end) == []
  {
  }

  lemma SumStep(session: seq<Turn>, at: nat, end: nat, size: Turn -> nat)
    requires at < end <= |session|
    ensures Sum(session[at..end], size) == size(session[at]) + Sum(session[at + 1..end], size)
  {
    assert session[at..end][1..] == session[at + 1..end];
  }

  lemma SliceStep(session: seq<Turn>, at: nat, end: nat)
    requires at < end <= |session|
    ensures Slice(session, at, end) == [PageTurn(session[at], if at > 0 then Some(at) else None)] + Slice(session, at + 1, end)
  {
  }

  lemma StartStep(session: seq<Turn>, at: nat, end: nat, caps: Caps, lines: Turn -> nat, bytes: Turn -> nat)
    requires at <= end <= |session|
    ensures StartFrom(session, at, end, caps, lines, bytes) ==
      if at == 0 || Full(session[at..end], caps, lines, bytes) then at else StartFrom(session, at - 1, end, caps, lines, bytes)
  {
    hide Full;
  }

  lemma FullIs(turns: seq<Turn>, caps: Caps, lines: Turn -> nat, bytes: Turn -> nat, height: nat, size: nat)
    requires height == Sum(turns, lines) && size == Sum(turns, bytes)
    ensures Full(turns, caps, lines, bytes) <==>
            !(height < caps.wanted && |turns| < TURN_PAGE_TURN_CAP && (caps.bytes.None? || size < caps.bytes.value))
  {
  }

  lemma CapFills(turns: seq<Turn>, caps: Caps, lines: Turn -> nat, bytes: Turn -> nat)
    ensures !Full(turns, caps, lines, bytes) ==> |turns| < TURN_PAGE_TURN_CAP
  {
  }

  /** A page: the contiguous turns ending at the cursor, oldest first, as few as fill it, never more than the cap. */
  lemma PageShape(session: seq<Turn>, before: Cursor, rows: nat, lines: Turn -> nat, bytes: Turn -> nat)
    requires before.Some? ==> before.value <= |session|
    ensures var page, end := PageOf(session, before, rows, lines, bytes), End(session, before);
      var caps := CapsOf(rows, before);
      && |page| <= end && |page| <= TURN_PAGE_TURN_CAP && (end > 0 ==> |page| > 0)
      && page == Slice(session, end - |page|, end)
      && (0 < |page| < end ==> Full(session[end - |page|..end], caps, lines, bytes))
      && (|page| > 1 ==> !Full(session[end - |page| + 1..end], caps, lines, bytes))
  {
    hide Full, CapsOf;
    var end := End(session, before);
    if end > 0 {
      var caps := CapsOf(rows, before);
      var first := StartFrom(session, end - 1, end, caps, lines, bytes);
      if first < end - 1 {
        assert !Full(session[first + 1..end], caps, lines, bytes);
        CapFills(session[first + 1..end], caps, lines, bytes);
      }
    } else {
      assert Slice(session, 0, 0) == [];
    }
  }

  /** A page is enough at three screens of lines, at twenty-four turns, or, in a first read alone, at 262,144 bytes. */
  predicate Enough(turns: seq<Turn>, first: bool, rows: nat, lines: Turn -> nat, bytes: Turn -> nat) {
    Sum(turns, lines) >= 3 * rows || |turns| >= 24 || (first && Sum(turns, bytes) >= 262_144)
  }

  /** When reading stops: as soon as the page is enough or the first turn is reached, and no sooner. */
  lemma PageStops(session: seq<Turn>, before: Cursor, rows: nat, lines: Turn -> nat, bytes: Turn -> nat)
    requires before.Some? ==> before.value <= |session|
    ensures var n, end := |PageOf(session, before, rows, lines, bytes)|, if before.Some? then before.value else |session|;
      && (0 < n < end ==> Enough(session[end - n..end], before.None?, rows, lines, bytes))
      && (n > 1 ==> !Enough(session[end - n + 1..end], before.None?, rows, lines, bytes))
      && n <= 24 && (n == 0 <==> end == 0)
  {
    hide PageOf, Sum;
    PageShape(session, before, rows, lines, bytes);
  }

  /** The turns of a page are those of the session, and its first turn's cursor reads what comes before the page. */
  lemma SliceShape(session: seq<Turn>, start: nat, end: nat)
    requires start < end <= |session|
    ensures Slice(session, start, end)[0].cursor == if start > 0 then Some(start) else None
    ensures Slice(session, 0, end) == Slice(session, 0, start) + Slice(session, start, end)
    ensures forall i :: start <= i < end ==> Slice(session, start, end)[i - start].turn == session[i]
  {
  }

  /** All the turns reached by reading a page and following its first turn's cursor until there is none, oldest first. */
  ghost function FollowAll(session: seq<Turn>, before: Cursor, rows: nat, lines: Turn -> nat, bytes: Turn -> nat): (r: (seq<PageTurn>, nat))
    requires before.Some? ==> before.value <= |session|
    decreases End(session, before), if before.None? then 1 else 0
  {
    hide PageOf;
    var page := PageOf(session, before, rows, lines, bytes);
    PageShape(session, before, rows, lines, bytes);
    if page == [] || page[0].cursor.None? then (page, 1)
    else
      var (earlier, count) := FollowAll(session, page[0].cursor, rows, lines, bytes);
      (earlier + page, count + 1)
  }

  /** Following cursors visits every turn before the first one exactly once, in order, in at most one read a turn. */
  lemma {:induction false} FollowAllVisitsAll(session: seq<Turn>, before: Cursor, rows: nat, lines: Turn -> nat, bytes: Turn -> nat)
    requires before.Some? ==> before.value <= |session|
    ensures var (all, count) := FollowAll(session, before, rows, lines, bytes);
      all == Slice(session, 0, End(session, before)) && count <= (if End(session, before) == 0 then 1 else End(session, before))
    decreases End(session, before)
  {
    hide Full, PageOf, CapsOf;
    var page, end := PageOf(session, before, rows, lines, bytes), End(session, before);
    PageShape(session, before, rows, lines, bytes);
    if page != [] {
      SliceShape(session, end - |page|, end);
      if page[0].cursor.Some? {
        FollowAllVisitsAll(session, page[0].cursor, rows, lines, bytes);
      }
    }
  }
}
