/**
 * Grouping a turn's parts and deciding which groups a settled turn folds away
 * (packages/agent-runtime-contract/src/turn-fold.ts).
 *
 * `GroupParts` is the one-pass machine of the source, with its four run markers.
 * `Grouping` is an independent description of what it must produce: give every
 * part a kind by looking forward, and cut the sequence into maximal runs.
 */
module TurnFold {
  import opened Text

  datatype ToolStatus = Pending | Running | Completed | Errored

  datatype OtherKind = Compaction | Handoff | Notice | File | Ungroupable

  /**
   * A content part. Of a tool the model keeps what grouping reads: its name and canonical name,
   * the Claxedo tool it names if any, whether it spawns a subagent, and whether it returned an image.
   */
  datatype Part =
    | TextPart(id: string, text: string)
    | ReasoningPart(id: string, text: string)
    | ToolPart(id: string, name: string, canonical: string, claxedo: Option<string>, subagent: bool,
               status: ToolStatus, image: bool)
    | OtherPart(id: string, kind: OtherKind)

  datatype PartRef = PartRef(messageId: string, partId: string)

  datatype WorkTool = Bash | Edit | WebFetch

  datatype PartGroup =
    | Single(key: string, ref: PartRef, answer: bool)
    | Context(key: string, refs: seq<PartRef>)
    | Work(key: string, tool: WorkTool, refs: seq<PartRef>)
    | Agents(key: string, refs: seq<PartRef>)

  /** A part together with the message that holds it. */
  datatype Item = Item(messageId: string, messageIndex: nat, part: Part)

  // ---------------------------------------------------------------- part classes

  const CONTEXT_GROUP_TOOLS: set<string> := {"read", "glob", "grep", "list"}
  const STANDALONE_TOOLS: set<string> := {"question"}
  const EDIT_TOOL_NAMES: set<string> := {"edit", "write", "apply_patch"}
  const WEB_TOOL_NAMES: set<string> := {"webfetch", "websearch"}
  const HIDDEN_TOOLS: set<string> := {"todowrite"}
  const ANSWER_TOOLS: set<string> := {"ui_show"}

  predicate IsHiddenTool(p: Part) {
    p.ToolPart? && p.name != "" && p.canonical in HIDDEN_TOOLS
  }

  predicate IsStandaloneTool(p: Part) {
    p.ToolPart? && p.name != "" && p.canonical in STANDALONE_TOOLS
  }

  predicate IsPendingQuestion(p: Part) {
    IsStandaloneTool(p) && (p.status.Pending? || p.status.Running?)
  }

  predicate IsClaxedoTool(p: Part) {
    p.ToolPart? && p.name != "" && p.claxedo.Some?
  }

  predicate IsAnswerTool(p: Part) {
    p.ToolPart? && p.claxedo.Some? && p.claxedo.value in ANSWER_TOOLS
  }

  predicate IsContextTool(p: Part) {
    p.ToolPart? && p.canonical in CONTEXT_GROUP_TOOLS && !IsClaxedoTool(p) && !(p.status.Completed? && p.image)
  }

  predicate IsWorkTool(p: Part) {
    && p.ToolPart?
    && !(p.canonical in CONTEXT_GROUP_TOOLS || IsHiddenTool(p) || IsStandaloneTool(p))
    && !p.subagent && !IsClaxedoTool(p)
  }

  predicate IsTask(p: Part) {
    p.ToolPart? && !IsClaxedoTool(p) && p.subagent && !p.status.Errored?
  }

  /** `/\S/.test(text)`. */
  predicate TextIsPresent(text: string) {
    exists i :: 0 <= i < |text| && !IsSpace(text[i])
  }

  predicate PartHasText(p: Part) {
    (p.TextPart? || p.ReasoningPart?) && TextIsPresent(p.text)
  }

  predicate IsGroupable(p: Part, showReasoning: bool) {
    match p
    case ToolPart(_, _, _, _, _, _, _) => !IsHiddenTool(p) && !IsPendingQuestion(p)
    case TextPart(_, _) => PartHasText(p)
    case ReasoningPart(_, _) => showReasoning && PartHasText(p)
    case OtherPart(_, kind) => kind != Ungroupable
  }

  // ---------------------------------------------------------------- group constructors

  function RefOf(item: Item): PartRef {
    PartRef(item.messageId, item.part.id)
  }

  function Refs(items: seq<Item>): (r: seq<PartRef>)
    ensures |r| == |items|
    ensures forall i :: 0 <= i < |items| ==> r[i] == RefOf(items[i])
  {
    seq(|items|, i requires 0 <= i < |items| => RefOf(items[i]))
  }

  function SingleOf(item: Item): PartGroup {
    Single("part:" + item.messageId + ":" + item.part.id, RefOf(item), IsAnswerTool(item.part))
  }

  function Singles(items: seq<Item>): (r: seq<PartGroup>)
    ensures |r| == |items|
    ensures forall i :: 0 <= i < |items| ==> r[i] == SingleOf(items[i])
  {
    seq(|items|, i requires 0 <= i < |items| => SingleOf(items[i]))
  }

  predicate HasToolNamed(items: seq<Item>, names: set<string>) {
    exists i :: 0 <= i < |items| && items[i].part.ToolPart? && items[i].part.canonical in names
  }

  /** An edit anywhere makes it an edit group, else a web tool a web group, else it is a shell group. */
  function WorkGroupTool(items: seq<Item>): (tool: WorkTool)
    ensures tool == Edit <==> exists i :: 0 <= i < |items| && items[i].part.ToolPart? && items[i].part.canonical in EDIT_TOOL_NAMES
    ensures tool == WebFetch <==>
      && (forall i :: 0 <= i < |items| && items[i].part.ToolPart? ==> items[i].part.canonical !in EDIT_TOOL_NAMES)
      && (exists i :: 0 <= i < |items| && items[i].part.ToolPart? && items[i].part.canonical in WEB_TOOL_NAMES)
  {
    if HasToolNamed(items, EDIT_TOOL_NAMES) then Edit
    else if HasToolNamed(items, WEB_TOOL_NAMES) then WebFetch
    else Bash
  }

  function ToolCount(items: seq<Item>): nat {
    if items == [] then 0 else (if items[0].part.ToolPart? then 1 else 0) + ToolCount(items[1..])
  }

  function ContextOf(items: seq<Item>): PartGroup
    requires items != []
  {
    Context("context:" + items[0].part.id, Refs(items))
  }

  function WorkOf(items: seq<Item>): PartGroup
    requires items != []
  {
    Work("work:" + items[0].part.id, WorkGroupTool(items), Refs(items))
  }

  function AgentsOf(items: seq<Item>): PartGroup
    requires items != []
  {
    Agents("agents:" + items[0].part.id, Refs(items))
  }

  function Members(g: PartGroup): seq<PartRef> {
    if g.Single? then [g.ref] else g.refs
  }

  function AllMembers(groups: seq<PartGroup>): seq<PartRef> {
    if groups == [] then [] else Members(groups[0]) + AllMembers(groups[1..])
  }

  // ---------------------------------------------------------------- what grouping means

  /** The kind of run a part belongs to; a thought takes the kind of the context or work tool it leads up to. */
  datatype Kind = ContextRun | WorkRun | TaskRun | Thought | Alone

  function ClassOf(p: Part): Kind {
    if p.ReasoningPart? then Thought
    else if IsContextTool(p) then ContextRun
    else if IsWorkTool(p) then WorkRun
    else if IsTask(p) then TaskRun
    else Alone
  }

  function KindAt(parts: seq<Item>, i: nat): Kind
    requires i < |parts|
    decreases |parts| - i
  {
    var own := ClassOf(parts[i].part);
    if own != Thought then own
    else if i + 1 < |parts| && KindAt(parts, i + 1) in {ContextRun, WorkRun} then KindAt(parts, i + 1)
    else Thought
  }

  predicate Groups(kind: Kind) {
    kind == ContextRun || kind == WorkRun || kind == TaskRun
  }

  /** Where the run that starts at `i` ends: the first later part of another kind. */
  function RunEnd(parts: seq<Item>, i: nat): (e: nat)
    requires i < |parts|
    ensures i < e <= |parts|
    ensures forall k :: i <= k < e ==> KindAt(parts, k) == KindAt(parts, i)
    ensures Groups(KindAt(parts, i)) && e < |parts| ==> KindAt(parts, e) != KindAt(parts, i)
    ensures !Groups(KindAt(parts, i)) ==> e == i + 1
    decreases |parts| - i
  {
    if i + 1 < |parts| && Groups(KindAt(parts, i)) && KindAt(parts, i + 1) == KindAt(parts, i)
    then RunEnd(parts, i + 1)
    else i + 1
  }

  /** The groups one run is drawn as: a work run with fewer than two tools stays as single parts. */
  function RunGroups(run: seq<Item>, kind: Kind): seq<PartGroup>
    requires run != []
  {
    match kind
    case ContextRun => [ContextOf(run)]
    case WorkRun => if ToolCount(run) >= 2 then [WorkOf(run)] else Singles(run)
    case TaskRun => [AgentsOf(run)]
    case Thought => Singles(run)
    case Alone => Singles(run)
  }

  function GroupsFrom(parts: seq<Item>, i: nat): seq<PartGroup>
    requires i <= |parts|
    decreases |parts| - i
  {
    if i == |parts| then []
    else
      var e := RunEnd(parts, i);
      RunGroups(parts[i..e], KindAt(parts, i)) + GroupsFrom(parts, e)
  }

  function Grouping(parts: seq<Item>): seq<PartGroup> {
    GroupsFrom(parts, 0)
  }

  function Shown(input: seq<Item>): seq<Item> {
    Filter(input, (item: Item) => !IsPendingQuestion(item.part))
  }

  /** A question that waits for its answer is not shown; everything else is. */
  lemma ShownExactly(input: seq<Item>, x: Item)
    requires x in input
    ensures x in Shown(input) <==>
      !(x.part.ToolPart? && x.part.name != "" && x.part.canonical == "question" && x.part.status in {Pending, Running})
  {
  }

  // ---------------------------------------------------------------- the one-pass machine

  ghost predicate Uniform(parts: seq<Item>, s: nat, e: nat, kind: Kind) {
    s <= e <= |parts| && forall k :: s <= k < e ==> KindAt(parts, k) == kind
  }

  ghost predicate Thoughts(parts: seq<Item>, s: nat, e: nat) {
    s <= e <= |parts| && forall k :: s <= k < e ==> parts[k].part.ReasoningPart?
  }

  lemma {:induction false} ThoughtKinds(parts: seq<Item>, s: nat, e: nat)
    requires Thoughts(parts, s, e)
    requires e < |parts| ==> !parts[e].part.ReasoningPart?
    ensures e < |parts| && KindAt(parts, e) in {ContextRun, WorkRun} ==> Uniform(parts, s, e, KindAt(parts, e))
    ensures !(e < |parts| && KindAt(parts, e) in {ContextRun, WorkRun}) ==> Uniform(parts, s, e, Thought)
    decreases e - s
  {
    if s < e {
      ThoughtKinds(parts, s + 1, e);
    }
  }

  lemma OwnKind(parts: seq<Item>, i: nat)
    requires i < |parts| && ClassOf(parts[i].part) != Thought
    ensures KindAt(parts, i) == ClassOf(parts[i].part) && !parts[i].part.ReasoningPart?
  {
  }

  lemma RunEndOfUniform(parts: seq<Item>, s: nat, e: nat, kind: Kind)
    requires s < e && Uniform(parts, s, e, kind) && Groups(kind)
    requires e < |parts| ==> KindAt(parts, e) != kind
    ensures RunEnd(parts, s) == e
  {
  }

  /** A part drawn on its own: in no run, or the only part of a work run. */
  predicate StandsAlone(parts: seq<Item>, i: nat)
    requires i < |parts|
  {
    !Groups(KindAt(parts, i)) || (KindAt(parts, i) == WorkRun && RunEnd(parts, i) == i + 1)
  }

  lemma SinglesStep(parts: seq<Item>, s: nat)
    requires s < |parts| && StandsAlone(parts, s)
    ensures GroupsFrom(parts, s) == [SingleOf(parts[s])] + GroupsFrom(parts, s + 1)
  {
    hide KindAt, SingleOf;
    assert RunEnd(parts, s) == s + 1;
    var run := parts[s..s + 1];
    assert run[1..] == [] && ToolCount(run) <= 1;
    assert RunGroups(run, KindAt(parts, s)) == Singles(run) == [SingleOf(parts[s])];
  }

  /** Each of these parts is drawn on its own, its run ending with it. */
  lemma {:induction false} SinglesFrom(parts: seq<Item>, s: nat, e: nat)
    requires s <= e <= |parts|
    requires forall k :: s <= k < e ==> StandsAlone(parts, k)
    ensures GroupsFrom(parts, s) == Singles(parts[s..e]) + GroupsFrom(parts, e)
    decreases e - s
  {
    hide GroupsFrom, KindAt, SingleOf, StandsAlone;
    if s < e {
      SinglesStep(parts, s);
      SinglesFrom(parts, s + 1, e);
      assert Singles(parts[s..e]) == [SingleOf(parts[s])] + Singles(parts[s + 1..e]);
    } else {
      assert Singles(parts[s..e]) == [];
    }
  }

  lemma FlushRun(parts: seq<Item>, start: nat, end: nat, kind: Kind)
    requires start < end && Uniform(parts, start, end, kind) && Groups(kind)
    requires end < |parts| ==> KindAt(parts, end) != kind
    ensures GroupsFrom(parts, start) == RunGroups(parts[start..end], kind) + GroupsFrom(parts, end)
  {
    RunEndOfUniform(parts, start, end, kind);
  }

  /** The variables that the grouping pass shares with its flushes; a start below zero means no such run is open. */
  class Grouper {
    const parts: seq<Item>
    var result: seq<PartGroup>
    var contextStart: int
    var workStart: int
    var taskStart: int
    var thoughtStart: int

    constructor (parts: seq<Item>)
      ensures this.parts == parts && Valid(0)
    {
      this.parts := parts;
      result := [];
      contextStart, workStart, taskStart, thoughtStart := -1, -1, -1, -1;
    }

    /** Where the trailing thoughts begin, which is where an open run ends. */
    function RunStart(index: nat): (start: nat)
      reads this
    {
      if thoughtStart < 0 then index else thoughtStart
    }

    /** The first part that is not in `result` yet. */
    function FirstOpen(index: nat): nat
      reads this
    {
      if contextStart >= 0 then contextStart else if workStart >= 0 then workStart
      else if taskStart >= 0 then taskStart else RunStart(index)
    }

    ghost predicate Open(start: int, end: nat, kind: Kind)
      reads this
    {
      start >= 0 ==> start < end && Uniform(parts, start, end, kind)
    }

    /** At most one run is open, the open thoughts follow it, and what is left to emit completes `Grouping(parts)`. */
    ghost predicate Valid(index: nat)
      reads this
    {
      && index <= |parts|
      && thoughtStart < index && (thoughtStart >= 0 ==> Thoughts(parts, thoughtStart, index))
      && Open(contextStart, RunStart(index), ContextRun)
      && Open(workStart, RunStart(index), WorkRun)
      && Open(taskStart, RunStart(index), TaskRun)
      && (contextStart >= 0 ==> workStart < 0 && taskStart < 0)
      && (workStart >= 0 ==> taskStart < 0)
      && result + GroupsFrom(parts, FirstOpen(index)) == Grouping(parts)
    }

    ghost predicate Ends(index: nat, kind: Kind)
      reads this
    {
      RunStart(index) < |parts| ==> KindAt(parts, RunStart(index)) != kind
    }

    method FlushContext(index: nat)
      requires Valid(index) && Ends(index, ContextRun)
      modifies this
      ensures Valid(index) && contextStart < 0
      ensures workStart == old(workStart) && taskStart == old(taskStart) && thoughtStart == old(thoughtStart)
    {
      hide GroupsFrom, KindAt;
      if contextStart < 0 { return; }
      FlushRun(parts, contextStart, RunStart(index), ContextRun);
      result := result + [ContextOf(parts[contextStart..RunStart(index)])];
      contextStart := -1;
    }

    method FlushWork(index: nat)
      requires Valid(index) && Ends(index, WorkRun)
      modifies this
      ensures Valid(index) && workStart < 0
      ensures contextStart == old(contextStart) && taskStart == old(taskStart) && thoughtStart == old(thoughtStart)
    {
      hide GroupsFrom, KindAt;
      if workStart < 0 { return; }
      FlushRun(parts, workStart, RunStart(index), WorkRun);
      var slice := parts[workStart..RunStart(index)];
      if ToolCount(slice) >= 2 {
        result := result + [WorkOf(slice)];
      } else {
        result := result + Singles(slice);
      }
      workStart := -1;
    }

    method FlushTask(index: nat)
      requires Valid(index) && Ends(index, TaskRun)
      modifies this
      ensures Valid(index) && taskStart < 0
      ensures contextStart == old(contextStart) && workStart == old(workStart) && thoughtStart == old(thoughtStart)
    {
      hide GroupsFrom, KindAt;
      if taskStart < 0 { return; }
      FlushRun(parts, taskStart, RunStart(index), TaskRun);
      result := result + [AgentsOf(parts[taskStart..RunStart(index)])];
      taskStart := -1;
    }

    method FlushThoughts(index: nat)
      requires Valid(index) && contextStart < 0 && workStart < 0
      requires thoughtStart >= 0 ==> taskStart < 0 && Uniform(parts, thoughtStart, index, Thought)
      modifies this
      ensures Valid(index) && thoughtStart < 0
      ensures contextStart == old(contextStart) && workStart == old(workStart) && taskStart == old(taskStart)
    {
      hide GroupsFrom, KindAt;
      if thoughtStart < 0 { return; }
      SinglesFrom(parts, thoughtStart, index);
      result := result + Singles(parts[thoughtStart..index]);
      thoughtStart := -1;
    }

    method TakeContext(index: nat)
      requires Valid(index) && index < |parts| && ClassOf(parts[index].part) == ContextRun
      modifies this
      ensures Valid(index + 1)
    {
      hide GroupsFrom, KindAt, ClassOf;
      OwnKind(parts, index);
      ThoughtKinds(parts, RunStart(index), index);
      FlushWork(index);
      FlushTask(index);
      if contextStart < 0 { contextStart := RunStart(index); }
      thoughtStart := -1;
    }

    method TakeWork(index: nat)
      requires Valid(index) && index < |parts| && ClassOf(parts[index].part) == WorkRun
      modifies this
      ensures Valid(index + 1)
    {
      hide GroupsFrom, KindAt, ClassOf;
      OwnKind(parts, index);
      ThoughtKinds(parts, RunStart(index), index);
      FlushContext(index);
      FlushTask(index);
      if workStart < 0 { workStart := RunStart(index); }
      thoughtStart := -1;
    }

    method TakeOther(index: nat)
      requires Valid(index) && index < |parts|
      requires ClassOf(parts[index].part) == if IsTask(parts[index].part) then TaskRun else Alone
      modifies this
      ensures Valid(index + 1)
    {
      hide GroupsFrom, KindAt, ClassOf, IsTask, SingleOf;
      OwnKind(parts, index);
      ThoughtKinds(parts, RunStart(index), index);
      var isTask := IsTask(parts[index].part);
      FlushContext(index);
      FlushWork(index);
      if !isTask || thoughtStart >= 0 { FlushTask(index); }
      FlushThoughts(index);
      if isTask {
        if taskStart < 0 { taskStart := index; }
        return;
      }
      SinglesStep(parts, index);
      result := result + [SingleOf(parts[index])];
    }

    /** One turn of the source's `forEach`. */
    method Take(index: nat)
      requires Valid(index) && index < |parts|
      modifies this
      ensures Valid(index + 1)
    {
      hide GroupsFrom, KindAt, IsContextTool, IsWorkTool, IsTask;
      var part := parts[index].part;
      if part.ReasoningPart? {
        if thoughtStart < 0 { thoughtStart := index; }
      } else if IsContextTool(part) {
        TakeContext(index);
      } else if IsWorkTool(part) {
        TakeWork(index);
      } else {
        TakeOther(index);
      }
    }

    method Finish()
      requires Valid(|parts|)
      modifies this
      ensures result == Grouping(parts)
    {
      ThoughtKinds(parts, RunStart(|parts|), |parts|);
      FlushContext(|parts|);
      FlushWork(|parts|);
      FlushTask(|parts|);
      FlushThoughts(|parts|);
    }
  }

  method GroupParts(input: seq<Item>) returns (result: seq<PartGroup>)
    ensures result == Grouping(Shown(input))
    ensures Tiles(result, Shown(input)) && AllMembers(result) == Refs(Shown(input)) && NoTwins(result)
  {
    hide GroupsFrom, Tiles;
    var parts := Shown(input);
    var grouper := new Grouper(parts);
    for index := 0 to |parts|
      invariant grouper.parts == parts && grouper.Valid(index)
    {
      grouper.Take(index);
    }
    grouper.Finish();
    result := grouper.result;
    GroupingCorrect(input);
  }

  // ---------------------------------------------------------------- what the groups hold

  /** The part is no context tool and no task, which are never drawn on their own. */
  predicate MayStandAlone(item: Item) {
    ClassOf(item.part) != ContextRun && ClassOf(item.part) != TaskRun
  }

  /** `g` is the group drawn for exactly the consecutive items `run`. */
  ghost predicate Covers(g: PartGroup, run: seq<Item>) {
    && run != []
    && match g
       case Single(_, _, _) => |run| == 1 && g == SingleOf(run[0]) && MayStandAlone(run[0])
       case Context(_, _) => g == ContextOf(run) && LedBy(run, ContextRun)
       case Work(_, _, _) => g == WorkOf(run) && LedBy(run, WorkRun) && ToolCount(run) >= 2
       case Agents(_, _) => g == AgentsOf(run) && LedBy(run, TaskRun) && forall k :: 0 <= k < |run| ==> !run[k].part.ReasoningPart?
  }

  /** Every part is of the class or a thought leading up to one, and the run ends on one. */
  ghost predicate LedBy(run: seq<Item>, kind: Kind) {
    && run != [] && ClassOf(run[|run| - 1].part) == kind
    && forall k :: 0 <= k < |run| ==> run[k].part.ReasoningPart? || ClassOf(run[k].part) == kind
  }

  /** Read left to right the groups cover the items: nothing is lost, repeated or moved. */
  ghost predicate Tiles(groups: seq<PartGroup>, items: seq<Item>) {
    if groups == [] then items == []
    else
      var n := |Members(groups[0])|;
      1 <= n <= |items| && Covers(groups[0], items[..n]) && Tiles(groups[1..], items[n..])
  }

  lemma TilesCons(g: PartGroup, run: seq<Item>, groups: seq<PartGroup>, items: seq<Item>)
    requires Covers(g, run) && Tiles(groups, items)
    ensures Tiles([g] + groups, run + items)
  {
    hide Covers;
    CoversMembers(g, run);
    assert (run + items)[..|run|] == run && (run + items)[|run|..] == items;
    assert ([g] + groups)[0] == g && ([g] + groups)[1..] == groups;
  }

  lemma TilesUncons(groups: seq<PartGroup>, items: seq<Item>)
    requires Tiles(groups, items)
    ensures groups == [] <==> items == []
    ensures groups != [] ==>
      var n := |Members(groups[0])|;
      1 <= n <= |items| && Covers(groups[0], items[..n]) && Tiles(groups[1..], items[n..])
  {
    hide Covers;
  }

  lemma {:induction false} TilesConcat(a: seq<PartGroup>, xs: seq<Item>, b: seq<PartGroup>, ys: seq<Item>)
    requires Tiles(a, xs) && Tiles(b, ys)
    ensures Tiles(a + b, xs + ys)
  {
    hide Covers, Tiles;
    TilesUncons(a, xs);
    if a == [] {
      assert a + b == b && xs + ys == ys;
    } else {
      var n := |Members(a[0])|;
      TilesConcat(a[1..], xs[n..], b, ys);
      TilesCons(a[0], xs[..n], a[1..] + b, xs[n..] + ys);
      assert [a[0]] + (a[1..] + b) == a + b;
      assert xs[..n] + (xs[n..] + ys) == xs + ys;
    }
  }

  lemma {:induction false} SinglesTile(items: seq<Item>)
    requires forall i :: 0 <= i < |items| ==> MayStandAlone(items[i])
    ensures Tiles(Singles(items), items)
  {
    hide MayStandAlone;
    if items != [] {
      SinglesTile(items[1..]);
      TilesCons(SingleOf(items[0]), items[..1], Singles(items[1..]), items[1..]);
      assert [SingleOf(items[0])] + Singles(items[1..]) == Singles(items);
      assert items[..1] + items[1..] == items;
    }
  }

  lemma OneTile(g: PartGroup, run: seq<Item>)
    requires Covers(g, run)
    ensures Tiles([g], run)
  {
    hide Covers;
    assert Tiles([], []);
    TilesCons(g, run, [], []);
    assert [g] + [] == [g] && run + [] == run;
  }

  lemma KindMember(parts: seq<Item>, i: nat)
    requires i < |parts| && Groups(KindAt(parts, i))
    ensures ClassOf(parts[i].part) == KindAt(parts, i) ||
            (parts[i].part.ReasoningPart? && KindAt(parts, i) != TaskRun && i + 1 < |parts| && KindAt(parts, i + 1) == KindAt(parts, i))
  {
    hide IsContextTool, IsWorkTool, IsTask;
  }

  lemma RunIsLed(parts: seq<Item>, i: nat)
    requires i < |parts| && Groups(KindAt(parts, i))
    ensures LedBy(parts[i..RunEnd(parts, i)], KindAt(parts, i))
    ensures KindAt(parts, i) == TaskRun ==> forall k :: i <= k < RunEnd(parts, i) ==> !parts[k].part.ReasoningPart?
  {
    hide KindAt, ClassOf;
    var e := RunEnd(parts, i);
    forall k | i <= k < e ensures parts[k].part.ReasoningPart? || ClassOf(parts[k].part) == KindAt(parts, i)
    {
      KindMember(parts, k);
    }
    KindMember(parts, e - 1);
    if KindAt(parts, i) == TaskRun {
      forall k | i <= k < e ensures !parts[k].part.ReasoningPart? { KindMember(parts, k); OwnKind(parts, k); }
    }
  }

  lemma LedMayStandAlone(run: seq<Item>)
    requires LedBy(run, WorkRun)
    ensures forall k :: 0 <= k < |run| ==> MayStandAlone(run[k])
  {
    hide IsContextTool, IsWorkTool, IsTask;
  }

  lemma SingleMayStandAlone(parts: seq<Item>, i: nat)
    requires i < |parts| && !Groups(KindAt(parts, i))
    ensures MayStandAlone(parts[i])
  {
    hide IsContextTool, IsWorkTool, IsTask;
  }

  lemma RunTiles(parts: seq<Item>, i: nat)
    requires i < |parts|
    ensures Tiles(RunGroups(parts[i..RunEnd(parts, i)], KindAt(parts, i)), parts[i..RunEnd(parts, i)])
  {
    hide KindAt, ClassOf, Tiles, LedBy, MayStandAlone;
    var run := parts[i..RunEnd(parts, i)];
    if Groups(KindAt(parts, i)) {
      RunIsLed(parts, i);
      if KindAt(parts, i) == WorkRun { LedMayStandAlone(run); }
    } else {
      SingleMayStandAlone(parts, i);
    }
    match KindAt(parts, i)
    case ContextRun => OneTile(ContextOf(run), run);
    case TaskRun => OneTile(AgentsOf(run), run);
    case WorkRun => if ToolCount(run) >= 2 { OneTile(WorkOf(run), run); } else { SinglesTile(run); }
    case Thought => SinglesTile(run);
    case Alone => SinglesTile(run);
  }

  lemma EmptyTiles()
    ensures Tiles([], [])
  {
  }

  lemma {:induction false} GroupingTiles(parts: seq<Item>, i: nat)
    requires i <= |parts|
    ensures Tiles(GroupsFrom(parts, i), parts[i..])
    decreases |parts| - i
  {
    hide KindAt, ClassOf, Tiles, RunGroups;
    if i == |parts| {
      EmptyTiles();
    } else {
      var e := RunEnd(parts, i);
      RunTiles(parts, i);
      GroupingTiles(parts, e);
      TilesConcat(RunGroups(parts[i..e], KindAt(parts, i)), parts[i..e], GroupsFrom(parts, e), parts[e..]);
      assert parts[i..] == parts[i..e] + parts[e..];
    }
  }

  lemma CoversMembers(g: PartGroup, run: seq<Item>)
    requires Covers(g, run)
    ensures run != [] && Members(g) == Refs(run)
  {
    hide LedBy, ToolCount, WorkGroupTool;
  }

  /** The conservation law: the members, read left to right, are the references of the items in order. */
  lemma {:induction false} TilesConserve(groups: seq<PartGroup>, items: seq<Item>)
    requires Tiles(groups, items)
    ensures AllMembers(groups) == Refs(items)
  {
    hide Covers, Tiles;
    TilesUncons(groups, items);
    if groups != [] {
      var n := |Members(groups[0])|;
      CoversMembers(groups[0], items[..n]);
      TilesConserve(groups[1..], items[n..]);
      assert Refs(items) == Refs(items[..n]) + Refs(items[n..]);
    }
  }

  predicate SameSort(a: PartGroup, b: PartGroup) {
    (a.Context? && b.Context?) || (a.Work? && b.Work?) || (a.Agents? && b.Agents?)
  }

  predicate NoTwins(groups: seq<PartGroup>) {
    forall k :: 0 <= k < |groups| - 1 ==> !SameSort(groups[k], groups[k + 1])
  }

  predicate SortFits(g: PartGroup, kind: Kind) {
    match g
    case Single(_, _, _) => true
    case Context(_, _) => kind == ContextRun
    case Work(_, _, _) => kind == WorkRun
    case Agents(_, _) => kind == TaskRun
  }

  lemma RunGroupsShape(run: seq<Item>, kind: Kind)
    requires run != []
    ensures NoTwins(RunGroups(run, kind)) && |RunGroups(run, kind)| >= 1
    ensures forall k :: 0 <= k < |RunGroups(run, kind)| ==> SortFits(RunGroups(run, kind)[k], kind)
    ensures !Groups(kind) ==> forall k :: 0 <= k < |RunGroups(run, kind)| ==> RunGroups(run, kind)[k].Single?
  {
    hide ToolCount, WorkGroupTool;
  }

  /** Runs are maximal, so no two neighbouring groups are both context, both work or both agents. */
  lemma {:induction false} GroupingHasNoTwins(parts: seq<Item>, i: nat)
    requires i <= |parts|
    ensures NoTwins(GroupsFrom(parts, i))
    ensures i < |parts| ==> |GroupsFrom(parts, i)| >= 1 && SortFits(GroupsFrom(parts, i)[0], KindAt(parts, i))
    decreases |parts| - i
  {
    hide KindAt, RunGroups;
    if i < |parts| {
      var e := RunEnd(parts, i);
      var head, tail := RunGroups(parts[i..e], KindAt(parts, i)), GroupsFrom(parts, e);
      RunGroupsShape(parts[i..e], KindAt(parts, i));
      GroupingHasNoTwins(parts, e);
      forall k | 0 <= k < |head + tail| - 1 ensures !SameSort((head + tail)[k], (head + tail)[k + 1])
      {
        if k + 1 == |head| {
          assert SortFits(head[k], KindAt(parts, i)) && SortFits(tail[0], KindAt(parts, e));
        }
      }
    }
  }

  /** The three promises of `groupParts`, for every input. */
  lemma GroupingCorrect(input: seq<Item>)
    ensures Tiles(Grouping(Shown(input)), Shown(input))
    ensures AllMembers(Grouping(Shown(input))) == Refs(Shown(input))
    ensures NoTwins(Grouping(Shown(input)))
  {
    hide Tiles, Refs, GroupsFrom;
    var parts := Shown(input);
    GroupingTiles(parts, 0);
    assert parts[0..] == parts;
    TilesConserve(Grouping(parts), parts);
    GroupingHasNoTwins(parts, 0);
  }

  // ---------------------------------------------------------------- which parts share a group

  /** The group that covers an item. */
  lemma {:induction false} CoveredBy(groups: seq<PartGroup>, items: seq<Item>, i: nat) returns (g: PartGroup, run: seq<Item>)
    requires Tiles(groups, items) && i < |items|
    ensures g in groups && Covers(g, run) && items[i] in run
    decreases |groups|
  {
    hide Covers, Tiles;
    TilesUncons(groups, items);
    var n := |Members(groups[0])|;
    if i < n {
      g, run := groups[0], items[..n];
      assert run[i] == items[i];
    } else {
      g, run := CoveredBy(groups[1..], items[n..], i - n);
    }
  }

  lemma GroupOfClass(g: PartGroup, run: seq<Item>, x: Item)
    requires Covers(g, run) && x in run && !x.part.ReasoningPart?
    ensures ClassOf(x.part) == ContextRun ==> g.Context?
    ensures ClassOf(x.part) == TaskRun ==> g.Agents?
    ensures ClassOf(x.part) == WorkRun ==> g.Work? || g == SingleOf(x)
    ensures ClassOf(x.part) == Alone ==> g == SingleOf(x)
    ensures RefOf(x) in Members(g)
  {
    hide IsContextTool, IsWorkTool, IsTask, ToolCount, WorkGroupTool, SingleOf;
    CoversMembers(g, run);
    var k :| 0 <= k < |run| && run[k] == x;
    assert Refs(run)[k] == RefOf(x);
  }

  /**
   * What a tool is decides the group it is drawn in. A Claxedo tool, a spawn that failed, an answered question and a lookup that returned an
   * image are drawn on their own; any other lookup is drawn in a context group, and any other spawn in an agents group.
   */
  lemma ToolsAreDrawn(parts: seq<Item>, i: nat) returns (g: PartGroup)
    requires i < |parts| && parts[i].part.ToolPart?
    ensures g in Grouping(parts) && RefOf(parts[i]) in Members(g)
    ensures var p := parts[i].part;
      var lookup := p.canonical in {"read", "glob", "grep", "list"};
      var image := p.status.Completed? && p.image;
      var claxedo := p.name != "" && p.claxedo.Some?;
      && (claxedo ==> g == SingleOf(parts[i]))
      && (!claxedo && lookup && !image ==> g.Context?)
      && (!claxedo && lookup && image && !p.subagent ==> g == SingleOf(parts[i]))
      && (!claxedo && !lookup && p.subagent ==> if p.status.Errored? then g == SingleOf(parts[i]) else g.Agents?)
      && (!claxedo && !p.subagent && p.name != "" && p.canonical == "question" ==> g == SingleOf(parts[i]))
  {
    hide Tiles, Covers, GroupsFrom, Members, SingleOf;
    GroupingTiles(parts, 0);
    assert parts[0..] == parts;
    var run;
    g, run := CoveredBy(Grouping(parts), parts, i);
    GroupOfClass(g, run, parts[i]);
  }

  lemma {:induction false} ToolCounts(run: seq<Item>, k: nat)
    requires k + 1 < |run| && run[k].part.ToolPart? && run[k + 1].part.ToolPart?
    ensures ToolCount(run) >= 2
  {
    if k > 0 { ToolCounts(run[1..], k - 1); } else { assert run[1..][0] == run[1]; }
  }

  /** Two work tools in a row are drawn in one work group. */
  lemma {:induction false} PairIsOneGroup(parts: seq<Item>, s: nat, k: nat) returns (g: PartGroup)
    requires s <= k && k + 1 < |parts| && ClassOf(parts[k].part) == ClassOf(parts[k + 1].part) == WorkRun
    ensures g in GroupsFrom(parts, s) && g.Work? && RefOf(parts[k]) in Members(g) && RefOf(parts[k + 1]) in Members(g)
    decreases |parts| - s
  {
    hide KindAt, ClassOf, WorkGroupTool, GroupsFrom;
    OwnKind(parts, k);
    OwnKind(parts, k + 1);
    var e := RunEnd(parts, s);
    assert GroupsFrom(parts, s) == RunGroups(parts[s..e], KindAt(parts, s)) + GroupsFrom(parts, e) by { FirstRun(parts, s); }
    if k < e {
      assert k + 1 < e;
      var run := parts[s..e];
      WorkIsTool(parts[k].part);
      WorkIsTool(parts[k + 1].part);
      assert run[k - s] == parts[k] && run[k - s + 1] == parts[k + 1];
      ToolCounts(run, k - s);
      g := WorkOf(run);
      assert Refs(run)[k - s] == RefOf(parts[k]) && Refs(run)[k - s + 1] == RefOf(parts[k + 1]);
    } else {
      g := PairIsOneGroup(parts, e, k);
    }
  }

  lemma FirstRun(parts: seq<Item>, s: nat)
    requires s < |parts|
    ensures GroupsFrom(parts, s) == RunGroups(parts[s..RunEnd(parts, s)], KindAt(parts, s)) + GroupsFrom(parts, RunEnd(parts, s))
  {
    hide KindAt, RunGroups;
  }

  lemma WorkIsTool(p: Part)
    requires ClassOf(p) == WorkRun
    ensures p.ToolPart?
  {
  }

  lemma OthersWork(x: Item)
    requires IsOtherTool(x)
    ensures ClassOf(x.part) == WorkRun
  {
  }

  /** Any other tool is work: two in a row share a work group, and one is drawn in a work group or on its own. */
  lemma WorkIsDrawn(parts: seq<Item>, i: nat) returns (g: PartGroup)
    requires i < |parts| && IsOtherTool(parts[i])
    ensures g in Grouping(parts) && RefOf(parts[i]) in Members(g) && (g.Work? || g == SingleOf(parts[i]))
    ensures i + 1 < |parts| && IsOtherTool(parts[i + 1]) ==> g.Work? && RefOf(parts[i + 1]) in Members(g)
  {
    hide Tiles, Covers, GroupsFrom, Members, SingleOf, ClassOf, IsOtherTool;
    OthersWork(parts[i]);
    if i + 1 < |parts| && IsOtherTool(parts[i + 1]) {
      OthersWork(parts[i + 1]);
      g := PairIsOneGroup(parts, 0, i);
    } else {
      GroupingTiles(parts, 0);
      assert parts[0..] == parts;
      var run;
      g, run := CoveredBy(Grouping(parts), parts, i);
      OwnKind(parts, i);
      GroupOfClass(g, run, parts[i]);
    }
  }

  predicate IsOtherTool(x: Item) {
    x.part.ToolPart? && !x.part.subagent && x.part.claxedo.None? &&
    x.part.canonical !in {"read", "glob", "grep", "list", "question", "todowrite"}
  }
}
