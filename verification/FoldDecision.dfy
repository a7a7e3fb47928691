/**
 * Which groups a settled turn folds away, and which it must keep
 * (packages/agent-runtime-contract/src/turn-fold.ts:246-406).
 */
module FoldDecision {
  import opened Text
  import opened TurnFold

  datatype PartType = TextType | ReasoningType | ToolType | OtherType

  datatype FoldablePart = FoldablePart(kind: PartType, userOpen: bool)

  type Lookup = PartRef -> Option<FoldablePart>

  function TypeOf(p: Part): PartType {
    match p
    case TextPart(_, _) => TextType
    case ReasoningPart(_, _) => ReasoningType
    case ToolPart(_, _, _, _, _, _, _) => ToolType
    case OtherPart(_, _) => OtherType
  }

  const FOLD_MINIMUM := 2

  predicate IsOfType(ref: PartRef, part: Lookup, kind: PartType) {
    part(ref).Some? && part(ref).value.kind == kind
  }

  predicate HoldsTool(g: PartGroup, part: Lookup) {
    !g.Single? || (!g.answer && IsOfType(g.ref, part, ToolType))
  }

  /** `groups.findLastIndex(holdsTool)`. */
  function LastTool(groups: seq<PartGroup>, part: Lookup): (last: int)
    ensures -1 <= last < |groups|
  {
    if groups == [] then -1
    else
      var last := LastTool(groups[1..], part);
      if last >= 0 then last + 1 else if HoldsTool(groups[0], part) then 0 else -1
  }

  predicate IsTextGroup(g: PartGroup, part: Lookup) {
    g.Single? && IsOfType(g.ref, part, TextType)
  }

  function TextGroups(groups: seq<PartGroup>, part: Lookup): seq<PartGroup> {
    if groups == [] then [] else (if IsTextGroup(groups[0], part) then [groups[0]] else []) + TextGroups(groups[1..], part)
  }

  function AnswerGroups(groups: seq<PartGroup>, part: Lookup): seq<PartGroup> {
    TextGroups(groups[LastTool(groups, part) + 1..], part)
  }

  function Keys(groups: seq<PartGroup>): set<string> {
    set g | g in groups :: g.key
  }

  predicate IsFoldable(g: PartGroup, part: Lookup, answerKeys: set<string>) {
    if !g.Single? then true
    else if g.answer || g.key in answerKeys then false
    else part(g.ref).Some? && !part(g.ref).value.kind.OtherType?
  }

  function CountFoldable(groups: seq<PartGroup>, part: Lookup): nat {
    var answerKeys := Keys(AnswerGroups(groups, part));
    |Filter(groups, (g: PartGroup) => IsFoldable(g, part, answerKeys))|
  }

  datatype FoldStatus = FoldStatus(foldableCount: nat, settled: bool, interrupted: bool, errored: bool, busy: bool,
                                   foldWhenSettled: Option<bool>, userChoice: Option<bool>)

  datatype Decision = Decision(canFold: bool, folded: bool, explicit: bool)

  function Decide(status: FoldStatus): Decision {
    var running := status.busy && !status.errored;
    var canFold := !running && status.foldWhenSettled != Some(false) && status.settled && status.foldableCount >= FOLD_MINIMUM;
    var explainsItself := status.interrupted || status.errored;
    Decision(
      canFold,
      canFold && (if status.userChoice.Some? then status.userChoice.value else !explainsItself),
      status.userChoice.Some?)
  }

  /** A choice by hand decides whenever the turn may fold, and never whether it may. */
  lemma ChoiceByHandDecides(status: FoldStatus, choice: bool)
    ensures Decide(status.(userChoice := Some(choice))) == Decision(Decide(status).canFold, Decide(status).canFold && choice, true)
  {
  }

  /** Left to itself, a turn folds exactly when it may and neither was interrupted nor failed. */
  lemma UnchosenTurnFolds(status: FoldStatus)
    requires status.userChoice.None?
    ensures Decide(status).folded <==> Decide(status).canFold && !status.interrupted && !status.errored
    ensures !Decide(status).explicit
  {
  }

  /** No turn folds while it runs without an error, before it settles, with fewer than two groups to fold, or where folding is off. */
  lemma MayFoldExactly(status: FoldStatus)
    ensures status.busy && !status.errored ==> !Decide(status).canFold
    ensures !status.settled || status.foldableCount < 2 || status.foldWhenSettled == Some(false) ==> !Decide(status).canFold
    ensures status.settled && status.foldableCount >= 2 && (!status.busy || status.errored) && status.foldWhenSettled != Some(false) ==>
      Decide(status).canFold
    ensures Decide(status).folded ==> Decide(status).canFold
  {
  }

  predicate AnyUserOpen(refs: seq<PartRef>, part: Lookup) {
    exists i :: 0 <= i < |refs| && part(refs[i]).Some? && part(refs[i]).value.userOpen
  }

  function FoldedKeys(decision: Decision, groups: seq<PartGroup>, part: Lookup): set<string> {
    if !decision.folded then {}
    else
      var answerKeys := Keys(AnswerGroups(groups, part));
      Keys(Filter(groups, (g: PartGroup) =>
        IsFoldable(g, part, answerKeys) && (decision.explicit || !AnyUserOpen(Members(g), part))))
  }

  /** What a folded turn still draws. */
  function Unfolded(decision: Decision, groups: seq<PartGroup>, part: Lookup): seq<PartGroup> {
    var folded := FoldedKeys(decision, groups, part);
    Filter(groups, (g: PartGroup) => g.key !in folded)
  }

  // ---------------------------------------------------------------- parts by position

  /** The ids of the parts drawn on their own. */
  function SoloIds(groups: seq<PartGroup>): set<string> {
    set g | g in groups && g.Single? :: g.ref.partId
  }

  /** A tool other than an answer tool drawn on its own. */
  predicate IsPlainTool(x: Item, solo: set<string>) {
    x.part.ToolPart? && !(IsAnswerTool(x.part) && x.part.id in solo)
  }

  predicate NoPlainTool(items: seq<Item>, solo: set<string>) {
    forall i :: 0 <= i < |items| ==> !IsPlainTool(items[i], solo)
  }

  /** The texts with no tool after them, an answer tool drawn on its own not counting. */
  function AnswerItems(items: seq<Item>, solo: set<string>): (answers: seq<Item>)
    ensures forall x :: x in answers ==> x in items && x.part.TextPart?
  {
    if items == [] then []
    else if items[0].part.TextPart? && NoPlainTool(items[1..], solo) then [items[0]] + AnswerItems(items[1..], solo)
    else AnswerItems(items[1..], solo)
  }

  predicate Stays(x: Item, answers: seq<Item>, solo: set<string>) {
    x.part.OtherPart? || (IsAnswerTool(x.part) && x.part.id in solo) || x in answers
  }

  function KeptItems(items: seq<Item>, groups: seq<PartGroup>): seq<Item> {
    var solo := SoloIds(groups);
    var answers := AnswerItems(items, solo);
    Filter(items, (x: Item) => Stays(x, answers, solo))
  }

  ghost predicate DistinctIds(items: seq<Item>) {
    forall i, j :: 0 <= i < j < |items| ==> items[i].part.id != items[j].part.id
  }

  ghost predicate ColonFree(items: seq<Item>) {
    forall i :: 0 <= i < |items| ==> ':' !in items[i].part.id
  }

  /** The lookup answers for the items; a part may have been opened by hand. */
  ghost predicate Resolves(part: Lookup, items: seq<Item>) {
    forall i :: 0 <= i < |items| ==> IsOfType(RefOf(items[i]), part, TypeOf(items[i].part))
  }

  predicate NobodyOpened(groups: seq<PartGroup>, part: Lookup) {
    forall g :: g in groups ==> !AnyUserOpen(Members(g), part)
  }

  lemma {:induction false} AnswerItemsExactly(items: seq<Item>, solo: set<string>, i: nat)
    requires i < |items| && DistinctIds(items)
    ensures items[i] in AnswerItems(items, solo) <==> items[i].part.TextPart? && NoPlainTool(items[i + 1..], solo)
  {
    hide IsPlainTool;
    var rest := items[1..];
    if i == 0 {
      assert items[0] !in rest;
    } else {
      AnswerItemsExactly(rest, solo, i - 1);
      assert rest[i - 1] == items[i] && rest[i..] == items[i + 1..];
      assert items[0] != items[i];
    }
  }

  // ---------------------------------------------------------------- groups and their parts

  ghost predicate Within(items: seq<Item>, all: seq<Item>) {
    forall i :: 0 <= i < |items| ==> items[i] in all
  }

  lemma {:induction false} TileOf(groups: seq<PartGroup>, items: seq<Item>, g: PartGroup) returns (run: seq<Item>)
    requires Tiles(groups, items) && g in groups
    ensures Covers(g, run) && Within(run, items)
    decreases |groups|
  {
    hide Covers, Tiles;
    TilesUncons(groups, items);
    var n := |Members(groups[0])|;
    if g == groups[0] {
      run := items[..n];
    } else {
      run := TileOf(groups[1..], items[n..], g);
    }
  }

  lemma CoversSingle(g: PartGroup, run: seq<Item>)
    requires Covers(g, run) && g.Single?
    ensures |run| == 1 && g == SingleOf(run[0]) && MayStandAlone(run[0])
  {
  }

  lemma SameId(all: seq<Item>, x: Item, y: Item)
    requires DistinctIds(all) && x in all && y in all && x.part.id == y.part.id
    ensures x == y
  {
  }

  /** A group's member is the reference of one of the items. */
  lemma MemberIsItem(groups: seq<PartGroup>, items: seq<Item>, g: PartGroup, ref: PartRef) returns (j: nat)
    requires Tiles(groups, items) && g in groups && ref in Members(g)
    ensures j < |items| && RefOf(items[j]) == ref
  {
    hide Covers, Tiles, Members;
    var run := TileOf(groups, items, g);
    CoversMembers(g, run);
    var k :| 0 <= k < |Refs(run)| && Refs(run)[k] == ref;
    j :| 0 <= j < |items| && items[j] == run[k];
  }

  lemma HeadDiffers(groups: seq<PartGroup>, items: seq<Item>, g: PartGroup, x: PartRef, y: PartRef)
    requires Tiles(groups, items) && DistinctIds(items) && g in groups && g != groups[0]
    requires x in Members(groups[0]) && y in Members(g)
    ensures x.partId != y.partId
  {
    hide Covers, Tiles;
    TilesUncons(groups, items);
    var n := |Members(groups[0])|;
    CoversMembers(groups[0], items[..n]);
    var i :| 0 <= i < n && Members(groups[0])[i] == x;
    var j := MemberIsItem(groups[1..], items[n..], g, y);
    assert items[n..][j] == items[n + j];
  }

  /** Two groups that share a part are one group. */
  lemma {:induction false} SharedPartSameGroup(groups: seq<PartGroup>, items: seq<Item>, f: PartGroup, g: PartGroup, x: PartRef, y: PartRef)
    requires Tiles(groups, items) && DistinctIds(items) && f in groups && g in groups
    requires x in Members(f) && y in Members(g) && x.partId == y.partId
    ensures f == g
    decreases |groups|
  {
    hide Covers, Tiles, Members, DistinctIds;
    if f != g {
      if f == groups[0] {
        HeadDiffers(groups, items, g, x, y);
      } else if g == groups[0] {
        HeadDiffers(groups, items, f, y, x);
      } else {
        TilesUncons(groups, items);
        var n := |Members(groups[0])|;
        DropDistinct(items, n);
        SharedPartSameGroup(groups[1..], items[n..], f, g, x, y);
      }
    }
  }

  lemma DropDistinct(items: seq<Item>, n: nat)
    requires DistinctIds(items) && n <= |items|
    ensures DistinctIds(items[n..])
  {
  }

  /** The parts of single groups, and no others, are in `solo`. */
  ghost predicate SoloSplits(groups: seq<PartGroup>, solo: set<string>) {
    forall g, ref :: g in groups && ref in Members(g) ==> (ref.partId in solo <==> g.Single?)
  }

  lemma SoloIdsSplit(groups: seq<PartGroup>, items: seq<Item>)
    requires Tiles(groups, items) && DistinctIds(items)
    ensures SoloSplits(groups, SoloIds(groups))
  {
    hide Tiles, DistinctIds;
    forall g, ref | g in groups && ref in Members(g) ensures ref.partId in SoloIds(groups) <==> g.Single?
    {
      if ref.partId in SoloIds(groups) {
        var f :| f in groups && f.Single? && f.ref.partId == ref.partId;
        assert f.ref in Members(f);
        SharedPartSameGroup(groups, items, f, g, f.ref, ref);
      }
    }
  }

  lemma SoloSplitsRest(groups: seq<PartGroup>, solo: set<string>)
    requires groups != [] && SoloSplits(groups, solo)
    ensures SoloSplits(groups[1..], solo)
    ensures forall ref :: ref in Members(groups[0]) ==> (ref.partId in solo <==> groups[0].Single?)
  {
    hide Members;
    assert groups[0] in groups;
  }

  /** A part drawn on its own is no context tool and no task. */
  lemma SoloMayStandAlone(groups: seq<PartGroup>, items: seq<Item>, x: Item)
    requires Tiles(groups, items) && DistinctIds(items) && x in items && x.part.id in SoloIds(groups)
    ensures MayStandAlone(x)
  {
    hide Tiles, Covers, MayStandAlone, DistinctIds;
    var g :| g in groups && g.Single? && g.ref.partId == x.part.id;
    var run := TileOf(groups, items, g);
    CoversSingle(g, run);
    SameId(items, x, run[0]);
  }

  // ---------------------------------------------------------------- keys

  lemma LastColonDiffers(a: string, x: string, b: string, y: string)
    requires |a| < |b| && ':' !in x
    ensures a + ":" + x != b + ":" + y
  {
    var s, t := a + ":" + x, b + ":" + y;
    assert t[|b|] == ':';
    if |b| < |s| {
      assert s[|b|] == x[|b| - |a| - 1] && x[|b| - |a| - 1] in x;
    }
  }

  lemma ColonSplit(a: string, x: string, b: string, y: string)
    requires a + ":" + x == b + ":" + y && ':' !in x && ':' !in y
    ensures x == y
  {
    if |a| < |b| {
      LastColonDiffers(a, x, b, y);
    } else if |b| < |a| {
      LastColonDiffers(b, y, a, x);
    } else {
      assert (a + ":" + x)[|a| + 1..] == x && (b + ":" + y)[|b| + 1..] == y;
    }
  }

  lemma KeyNamesPart(x: Item, y: Item)
    requires SingleOf(x).key == SingleOf(y).key && ':' !in x.part.id && ':' !in y.part.id
    ensures x.part.id == y.part.id
  {
    ColonSplit("part:" + x.messageId, x.part.id, "part:" + y.messageId, y.part.id);
  }

  /** A key is a prefix that tells the sort, then the id of the group's first part. */
  lemma KeyOf(g: PartGroup, run: seq<Item>)
    requires Covers(g, run)
    ensures g.Single? ==> g == SingleOf(run[0]) && g.key[0] == 'p'
    ensures g.Context? ==> g.key == "context:" + run[0].part.id
    ensures g.Work? ==> g.key == "work:" + run[0].part.id
    ensures g.Agents? ==> g.key == "agents:" + run[0].part.id
  {
    hide LedBy, ToolCount, WorkGroupTool, MayStandAlone;
  }

  lemma KeyNamesHead(f: PartGroup, other: seq<Item>, g: PartGroup, run: seq<Item>)
    requires Covers(f, other) && Covers(g, run) && f.key == g.key
    requires ':' !in other[0].part.id && ':' !in run[0].part.id
    ensures other[0].part.id == run[0].part.id
  {
    KeyOf(f, other);
    KeyOf(g, run);
    hide Covers, SingleOf;
    var x, y := other[0].part.id, run[0].part.id;
    if f.Single? && g.Single? {
      KeyNamesPart(other[0], run[0]);
    } else {
      assert f.key[0] == g.key[0];
      assert f.Context? && g.Context? ==> f.key[|"context:"|..] == x && g.key[|"context:"|..] == y;
      assert f.Work? && g.Work? ==> f.key[|"work:"|..] == x && g.key[|"work:"|..] == y;
      assert f.Agents? && g.Agents? ==> f.key[|"agents:"|..] == x && g.key[|"agents:"|..] == y;
    }
  }

  /** No two groups share a key. */
  lemma SameKeySameGroup(groups: seq<PartGroup>, items: seq<Item>, f: PartGroup, g: PartGroup)
    requires Tiles(groups, items) && DistinctIds(items) && ColonFree(items)
    requires f in groups && g in groups && f.key == g.key
    ensures f == g
  {
    hide Covers, Tiles, Members, DistinctIds;
    var other := TileOf(groups, items, f);
    var run := TileOf(groups, items, g);
    CoversMembers(f, other);
    CoversMembers(g, run);
    ColonFreeIn(items, other[0]);
    ColonFreeIn(items, run[0]);
    KeyNamesHead(f, other, g, run);
    assert Members(f)[0] == RefOf(other[0]) && Members(g)[0] == RefOf(run[0]);
    SharedPartSameGroup(groups, items, f, g, Members(f)[0], Members(g)[0]);
  }

  lemma ColonFreeIn(items: seq<Item>, x: Item)
    requires ColonFree(items) && x in items
    ensures ':' !in x.part.id
  {
  }

  // ---------------------------------------------------------------- answers

  lemma MultiRun(g: PartGroup, run: seq<Item>, solo: set<string>)
    requires Covers(g, run) && !g.Single? && forall ref :: ref in Members(g) ==> ref.partId !in solo
    ensures forall k :: 0 <= k < |run| ==> run[k].part.id !in solo && (run[k].part.ReasoningPart? || run[k].part.ToolPart?)
    ensures !NoPlainTool(run, solo)
  {
    hide ToolCount, WorkGroupTool, Refs;
    CoversMembers(g, run);
    forall k | 0 <= k < |run| ensures run[k].part.id !in solo { assert Refs(run)[k] in Members(g); }
    assert IsPlainTool(run[|run| - 1], solo);
  }

  lemma {:induction false} AnswerItemsSkip(run: seq<Item>, rest: seq<Item>, solo: set<string>)
    requires forall k :: 0 <= k < |run| ==> !run[k].part.TextPart?
    ensures AnswerItems(run + rest, solo) == AnswerItems(rest, solo)
  {
    if run == [] {
      assert run + rest == rest;
    } else {
      assert (run + rest)[1..] == run[1..] + rest;
      AnswerItemsSkip(run[1..], rest, solo);
    }
  }

  lemma LastToolStep(groups: seq<PartGroup>, part: Lookup)
    requires groups != []
    ensures LastTool(groups, part) ==
      if LastTool(groups[1..], part) >= 0 then LastTool(groups[1..], part) + 1 else if HoldsTool(groups[0], part) then 0 else -1
  {
    hide HoldsTool;
  }

  lemma TextGroupsStep(groups: seq<PartGroup>, part: Lookup)
    requires groups != []
    ensures TextGroups(groups, part) == (if IsTextGroup(groups[0], part) then [groups[0]] else []) + TextGroups(groups[1..], part)
  {
    hide IsTextGroup;
  }

  lemma AnswerGroupsStep(groups: seq<PartGroup>, part: Lookup)
    requires groups != []
    ensures AnswerGroups(groups, part) ==
      (if LastTool(groups[1..], part) < 0 && !HoldsTool(groups[0], part) && IsTextGroup(groups[0], part)
       then [groups[0]] else []) + AnswerGroups(groups[1..], part)
  {
    hide HoldsTool, IsTextGroup, LastTool, TextGroups;
    var rest := groups[1..];
    var last := LastTool(rest, part);
    LastToolStep(groups, part);
    assert rest[0..] == rest && groups[0..] == groups;
    if last >= 0 {
      assert groups[last + 2..] == rest[last + 1..];
      assert [] + AnswerGroups(rest, part) == AnswerGroups(rest, part);
    } else if HoldsTool(groups[0], part) {
      assert [] + AnswerGroups(rest, part) == AnswerGroups(rest, part);
    } else {
      TextGroupsStep(groups, part);
    }
  }

  lemma {:induction false} AnswersOfSingle(groups: seq<PartGroup>, items: seq<Item>, part: Lookup, solo: set<string>)
    requires groups != [] && items != [] && groups[0] == SingleOf(items[0])
    requires AnswerGroups(groups[1..], part) == Singles(AnswerItems(items[1..], solo))
    requires LastTool(groups[1..], part) < 0 <==> NoPlainTool(items[1..], solo)
    requires IsOfType(RefOf(items[0]), part, TypeOf(items[0].part)) && items[0].part.id in solo
    ensures AnswerGroups(groups, part) == Singles(AnswerItems(items, solo))
  {
    hide AnswerGroups, IsAnswerTool, LastTool, NoPlainTool;
    AnswerGroupsStep(groups, part);
    assert HoldsTool(groups[0], part) <==> IsPlainTool(items[0], solo);
    assert Singles([items[0]] + AnswerItems(items[1..], solo)) == [groups[0]] + Singles(AnswerItems(items[1..], solo));
  }

  lemma {:induction false} LastToolOfSingle(groups: seq<PartGroup>, items: seq<Item>, part: Lookup, solo: set<string>)
    requires groups != [] && items != [] && groups[0] == SingleOf(items[0])
    requires LastTool(groups[1..], part) < 0 <==> NoPlainTool(items[1..], solo)
    requires IsOfType(RefOf(items[0]), part, TypeOf(items[0].part)) && items[0].part.id in solo
    ensures LastTool(groups, part) < 0 <==> NoPlainTool(items, solo)
  {
    hide LastTool, IsAnswerTool;
    LastToolStep(groups, part);
    assert items == [items[0]] + items[1..];
    NoPlainToolSplit([items[0]], items[1..], solo);
  }

  lemma AnswersOfMulti(g: PartGroup, run: seq<Item>, rest: seq<Item>, groups: seq<PartGroup>, part: Lookup, solo: set<string>)
    requires AnswerGroups(groups, part) == Singles(AnswerItems(rest, solo))
    requires Covers(g, run) && !g.Single? && forall ref :: ref in Members(g) ==> ref.partId !in solo
    ensures AnswerGroups([g] + groups, part) == Singles(AnswerItems(run + rest, solo))
  {
    hide AnswerGroups, AnswerItems, IsAnswerTool, Covers, IsTextGroup, NoPlainTool;
    assert ([g] + groups)[1..] == groups;
    AnswerGroupsStep([g] + groups, part);
    MultiRun(g, run, solo);
    assert HoldsTool(([g] + groups)[0], part);
    AnswerItemsSkip(run, rest, solo);
  }

  lemma LastToolOfMulti(g: PartGroup, run: seq<Item>, rest: seq<Item>, groups: seq<PartGroup>, part: Lookup, solo: set<string>)
    requires Covers(g, run) && !g.Single? && forall ref :: ref in Members(g) ==> ref.partId !in solo
    ensures LastTool([g] + groups, part) >= 0 && !NoPlainTool(run + rest, solo)
  {
    hide Covers, NoPlainTool;
    MultiRun(g, run, solo);
    LastToolStep([g] + groups, part);
    NoPlainToolSplit(run, rest, solo);
  }

  lemma {:induction false} AnswersTileFor(groups: seq<PartGroup>, items: seq<Item>, part: Lookup, solo: set<string>)
    requires Tiles(groups, items) && Resolves(part, items) && SoloSplits(groups, solo)
    ensures AnswerGroups(groups, part) == Singles(AnswerItems(items, solo))
    ensures LastTool(groups, part) < 0 <==> NoPlainTool(items, solo)
    decreases |groups|
  {
    hide Tiles, Covers, IsAnswerTool, AnswerGroups, AnswerItems, LastTool, SoloSplits, IsOfType, NoPlainTool;
    TilesUncons(groups, items);
    if groups == [] {
      EmptyAnswers(groups, items, part, solo);
    } else {
      var n := |Members(groups[0])|;
      var run, rest := items[..n], items[n..];
      SoloSplitsRest(groups, solo);
      AnswersTileFor(groups[1..], rest, part, solo);
      assert items == run + rest && groups == [groups[0]] + groups[1..];
      if groups[0].Single? {
        CoversSingle(groups[0], run);
        assert run == [items[0]] && groups[0].ref in Members(groups[0]);
        AnswersOfSingle(groups, items, part, solo);
        LastToolOfSingle(groups, items, part, solo);
      } else {
        AnswersOfMulti(groups[0], run, rest, groups[1..], part, solo);
        LastToolOfMulti(groups[0], run, rest, groups[1..], part, solo);
      }
    }
  }

  /** The answer groups of a grouping are its texts with no tool after them, an answer tool drawn on its own not counting. */
  lemma AnswersTile(groups: seq<PartGroup>, items: seq<Item>, part: Lookup)
    requires Tiles(groups, items) && Resolves(part, items) && DistinctIds(items)
    ensures AnswerGroups(groups, part) == Singles(AnswerItems(items, SoloIds(groups)))
    ensures LastTool(groups, part) < 0 <==> NoPlainTool(items, SoloIds(groups))
  {
    hide Tiles, Resolves, SoloSplits, DistinctIds, AnswerGroups, AnswerItems, LastTool, SoloIds;
    SoloIdsSplit(groups, items);
    AnswersTileFor(groups, items, part, SoloIds(groups));
  }

  lemma EmptyAnswers(groups: seq<PartGroup>, items: seq<Item>, part: Lookup, solo: set<string>)
    requires groups == [] && items == []
    ensures AnswerGroups(groups, part) == Singles(AnswerItems(items, solo))
    ensures LastTool(groups, part) < 0 <==> NoPlainTool(items, solo)
  {
  }

  lemma NoPlainToolSplit(a: seq<Item>, b: seq<Item>, solo: set<string>)
    ensures NoPlainTool(a + b, solo) <==> NoPlainTool(a, solo) && NoPlainTool(b, solo)
  {
    hide IsPlainTool;
    if NoPlainTool(a + b, solo) {
      assert forall i :: 0 <= i < |a| ==> a[i] == (a + b)[i];
      assert forall i :: 0 <= i < |b| ==> b[i] == (a + b)[|a| + i];
    }
  }

  // ---------------------------------------------------------------- what stays drawn

  lemma SingleKeyIsAnswer(x: Item, answers: seq<Item>, all: seq<Item>)
    requires DistinctIds(all) && ColonFree(all) && x in all && Within(answers, all)
    ensures SingleOf(x).key in Keys(Singles(answers)) <==> x in answers
  {
    hide SingleOf;
    if x in answers {
      var i :| 0 <= i < |answers| && answers[i] == x;
      assert Singles(answers)[i] == SingleOf(x);
    }
    if SingleOf(x).key in Keys(Singles(answers)) {
      var g :| g in Singles(answers) && g.key == SingleOf(x).key;
      var i :| 0 <= i < |answers| && Singles(answers)[i] == g;
      KeyNamesPart(x, answers[i]);
      SameId(all, x, answers[i]);
    }
  }

  /** For the single group of an item, being foldable is the opposite of staying drawn. */
  lemma FoldableSingle(x: Item, answers: seq<Item>, all: seq<Item>, part: Lookup, solo: set<string>)
    requires DistinctIds(all) && ColonFree(all) && x in all && Within(answers, all)
    requires IsOfType(RefOf(x), part, TypeOf(x.part)) && x.part.id in solo
    ensures IsFoldable(SingleOf(x), part, Keys(Singles(answers))) <==> !Stays(x, answers, solo)
  {
    hide IsAnswerTool, Keys, Singles;
    SingleKeyIsAnswer(x, answers, all);
  }

  lemma {:induction false} FilterNone<T>(s: seq<T>, keep: T -> bool)
    requires forall i :: 0 <= i < |s| ==> !keep(s[i])
    ensures Filter(s, keep) == []
  {
    if s != [] {
      FilterNone(s[1..], keep);
    }
  }

  lemma FilterOnSingle(x: Item, items: seq<Item>, groups: seq<PartGroup>, keepGroup: PartGroup -> bool, keepItem: Item -> bool)
    requires Filter(groups, keepGroup) == Singles(Filter(items, keepItem))
    requires keepGroup(SingleOf(x)) <==> keepItem(x)
    ensures Filter([SingleOf(x)] + groups, keepGroup) == Singles(Filter([x] + items, keepItem))
  {
    hide SingleOf;
    assert ([SingleOf(x)] + groups)[1..] == groups && ([x] + items)[1..] == items;
    assert Singles([x] + Filter(items, keepItem)) == [SingleOf(x)] + Singles(Filter(items, keepItem));
  }

  lemma FilterOnMulti(g: PartGroup, run: seq<Item>, items: seq<Item>, groups: seq<PartGroup>, keepGroup: PartGroup -> bool, keepItem: Item -> bool)
    requires Filter(groups, keepGroup) == Singles(Filter(items, keepItem))
    requires !keepGroup(g) && forall i :: 0 <= i < |run| ==> !keepItem(run[i])
    ensures Filter([g] + groups, keepGroup) == Singles(Filter(run + items, keepItem))
  {
    hide Filter;
    FilterConcat([g], groups, keepGroup);
    FilterNone([g], keepGroup);
    FilterConcat(run, items, keepItem);
    FilterNone(run, keepItem);
  }

  /** A test that agrees on items and their single groups, and passes no other group and nothing in one, filters both alike. */
  lemma {:induction false} FilterTiles(groups: seq<PartGroup>, items: seq<Item>, solo: set<string>, keepGroup: PartGroup -> bool, keepItem: Item -> bool)
    requires Tiles(groups, items) && SoloSplits(groups, solo)
    requires forall i :: 0 <= i < |items| && SingleOf(items[i]) in groups ==> (keepGroup(SingleOf(items[i])) <==> keepItem(items[i]))
    requires forall i :: 0 <= i < |items| && items[i].part.id !in solo && (items[i].part.ReasoningPart? || items[i].part.ToolPart?) ==>
      !keepItem(items[i])
    requires forall k :: 0 <= k < |groups| && !groups[k].Single? ==> !keepGroup(groups[k])
    ensures Filter(groups, keepGroup) == Singles(Filter(items, keepItem))
    decreases |groups|
  {
    hide Tiles, Covers, NoPlainTool, SingleOf, Filter, Singles, SoloSplits;
    TilesUncons(groups, items);
    if groups == [] {
      FilterNone(groups, keepGroup);
      FilterNone(items, keepItem);
      assert Singles([]) == [];
    } else {
      var n := |Members(groups[0])|;
      var run, rest := items[..n], items[n..];
      SoloSplitsRest(groups, solo);
      FilterTiles(groups[1..], rest, solo, keepGroup, keepItem);
      assert items == run + rest && groups == [groups[0]] + groups[1..];
      if groups[0].Single? {
        CoversSingle(groups[0], run);
        assert run == [items[0]];
        FilterOnSingle(items[0], rest, groups[1..], keepGroup, keepItem);
      } else {
        MultiRun(groups[0], run, solo);
        FilterOnMulti(groups[0], run, rest, groups[1..], keepGroup, keepItem);
      }
    }
  }

  /** A group's key is folded exactly when the group is foldable and nobody opened a part of it: no other group shares its key. */
  lemma FoldedExactly(decision: Decision, groups: seq<PartGroup>, items: seq<Item>, part: Lookup, g: PartGroup)
    requires decision.folded && Tiles(groups, items) && g in groups
    requires DistinctIds(items) && ColonFree(items)
    ensures g.key in FoldedKeys(decision, groups, part) <==>
      IsFoldable(g, part, Keys(AnswerGroups(groups, part))) && (decision.explicit || !AnyUserOpen(Members(g), part))
  {
    hide Tiles, Members, AnyUserOpen, AnswerGroups, DistinctIds, ColonFree, IsFoldable;
    var answerKeys := Keys(AnswerGroups(groups, part));
    if g.key in FoldedKeys(decision, groups, part) {
      var f :| f in groups && IsFoldable(f, part, answerKeys) && (decision.explicit || !AnyUserOpen(Members(f), part)) && f.key == g.key;
      SameKeySameGroup(groups, items, f, g);
    }
  }

  lemma MultiIsFoldable(g: PartGroup, part: Lookup, keys: set<string>)
    requires !g.Single?
    ensures IsFoldable(g, part, keys)
  {
  }

  lemma InSingles(x: Item, kept: seq<Item>, all: seq<Item>)
    requires DistinctIds(all) && x in all && Within(kept, all)
    ensures SingleOf(x) in Singles(kept) <==> x in kept
  {
    hide DistinctIds;
    if SingleOf(x) in Singles(kept) {
      var i :| 0 <= i < |kept| && Singles(kept)[i] == SingleOf(x);
      SameId(all, x, kept[i]);
    }
    if x in kept {
      var i :| 0 <= i < |kept| && kept[i] == x;
      assert Singles(kept)[i] == SingleOf(x);
    }
  }

  /** A group is not foldable exactly when it is the single group of a part that stays. */
  lemma UnfoldableIsKept(groups: seq<PartGroup>, items: seq<Item>, part: Lookup, g: PartGroup)
    requires Tiles(groups, items) && Resolves(part, items) && DistinctIds(items) && ColonFree(items) && g in groups
    ensures !IsFoldable(g, part, Keys(AnswerGroups(groups, part))) <==> g in Singles(KeptItems(items, groups))
  {
    hide Tiles, Covers, IsFoldable, AnswerGroups, AnswerItems, Keys, DistinctIds, ColonFree, SingleOf, Stays, Members, IsOfType, MayStandAlone;
    var solo := SoloIds(groups);
    var kept, answers := KeptItems(items, groups), AnswerItems(items, solo);
    AnswersTile(groups, items, part);
    if g.Single? {
      var run := TileOf(groups, items, g);
      CoversSingle(g, run);
      SingleIsSolo(groups, run[0]);
      FoldableSingle(run[0], answers, items, part, solo);
      InSingles(run[0], kept, items);
    } else {
      MultiIsFoldable(g, part, Keys(AnswerGroups(groups, part)));
      NotSingle(g, kept);
    }
  }

  lemma SingleIsSolo(groups: seq<PartGroup>, x: Item)
    requires SingleOf(x) in groups
    ensures x.part.id in SoloIds(groups)
  {
    assert SingleOf(x).Single? && SingleOf(x).ref.partId == x.part.id;
  }

  lemma NotSingle(g: PartGroup, items: seq<Item>)
    requires !g.Single?
    ensures g !in Singles(items)
  {
  }

  /**
   * What a folded turn keeps. In general a group is kept exactly when it is the single group of a part that stays or a part of it was
   * opened by hand; with nothing opened, or an explicit choice to fold, that is the single groups of the parts that stay, in order.
   */
  lemma UnfoldedIsKept(decision: Decision, groups: seq<PartGroup>, items: seq<Item>, part: Lookup)
    requires decision.folded && Tiles(groups, items) && Resolves(part, items) && DistinctIds(items) && ColonFree(items)
    ensures forall g :: g in groups ==> (g in Unfolded(decision, groups, part) <==>
      g in Singles(KeptItems(items, groups)) || (!decision.explicit && AnyUserOpen(Members(g), part)))
    ensures decision.explicit || NobodyOpened(groups, part) ==> Unfolded(decision, groups, part) == Singles(KeptItems(items, groups))
  {
    hide Tiles, Resolves, FoldedKeys, IsFoldable, AnswerGroups, Keys, DistinctIds, ColonFree, SingleOf, KeptItems, Members, AnyUserOpen;
    forall g | g in groups
      ensures g.key in FoldedKeys(decision, groups, part) <==>
        g !in Singles(KeptItems(items, groups)) && (decision.explicit || !AnyUserOpen(Members(g), part))
    {
      FoldedExactly(decision, groups, items, part, g);
      UnfoldableIsKept(groups, items, part, g);
    }
    if decision.explicit || NobodyOpened(groups, part) {
      UnopenedUnfolded(decision, groups, items, part);
    }
  }

  lemma UnopenedUnfolded(decision: Decision, groups: seq<PartGroup>, items: seq<Item>, part: Lookup)
    requires Tiles(groups, items) && DistinctIds(items)
    requires forall g :: g in groups ==> (g.key in FoldedKeys(decision, groups, part) <==> g !in Singles(KeptItems(items, groups)))
    ensures Unfolded(decision, groups, part) == Singles(KeptItems(items, groups))
  {
    hide Tiles, FoldedKeys, AnswerItems, DistinctIds, SingleOf, SoloSplits, SoloIds;
    var folded, kept := FoldedKeys(decision, groups, part), KeptItems(items, groups);
    var solo := SoloIds(groups);
    var answers := AnswerItems(items, solo);
    SoloIdsSplit(groups, items);
    forall i | 0 <= i < |items| && SingleOf(items[i]) in groups
      ensures SingleOf(items[i]).key !in folded <==> Stays(items[i], answers, solo)
    {
      InSingles(items[i], kept, items);
    }
    forall g | g in groups && !g.Single? ensures g.key in folded { NotSingle(g, kept); }
    FilterTiles(groups, items, solo, (g: PartGroup) => g.key !in folded, (x: Item) => Stays(x, answers, solo));
  }

  lemma {:induction false} FilterComplement<T>(s: seq<T>, p: T -> bool, q: T -> bool)
    requires forall i :: 0 <= i < |s| ==> (p(s[i]) <==> !q(s[i]))
    ensures |Filter(s, p)| + |Filter(s, q)| == |s|
  {
    if s != [] {
      FilterComplement(s[1..], p, q);
    }
  }

  /** Every group either counts as foldable or is the single group of a part that stays. */
  lemma FoldableOrKept(groups: seq<PartGroup>, items: seq<Item>, part: Lookup)
    requires Tiles(groups, items) && Resolves(part, items) && DistinctIds(items) && ColonFree(items)
    ensures CountFoldable(groups, part) + |KeptItems(items, groups)| == |groups|
  {
    hide Tiles, Resolves, DistinctIds, ColonFree, IsFoldable, AnswerGroups, Keys, SoloIds, SoloSplits, AnswerItems, SingleOf, Filter;
    var keys := Keys(AnswerGroups(groups, part));
    var solo := SoloIds(groups);
    var answers, kept := AnswerItems(items, solo), KeptItems(items, groups);
    var foldable, stays := (g: PartGroup) => IsFoldable(g, part, keys), (g: PartGroup) => !IsFoldable(g, part, keys);
    forall g | g in groups ensures stays(g) <==> g in Singles(kept) { UnfoldableIsKept(groups, items, part, g); }
    SoloIdsSplit(groups, items);
    KeptInItems(items, groups);
    forall i | 0 <= i < |items| && SingleOf(items[i]) in groups ensures stays(SingleOf(items[i])) <==> Stays(items[i], answers, solo)
    {
      InSingles(items[i], kept, items);
      StaysIsKept(items, groups, items[i]);
    }
    forall g | g in groups && !g.Single? ensures !stays(g) { NotSingle(g, kept); }
    FilterTiles(groups, items, solo, stays, (x: Item) => Stays(x, answers, solo));
    FilterComplement(groups, foldable, stays);
  }

  lemma KeptInItems(items: seq<Item>, groups: seq<PartGroup>)
    ensures Within(KeptItems(items, groups), items)
  {
    hide AnswerItems, SoloIds, Stays;
    var kept := KeptItems(items, groups);
    forall i | 0 <= i < |kept| ensures kept[i] in items { assert kept[i] in kept; }
  }

  lemma StaysIsKept(items: seq<Item>, groups: seq<PartGroup>, x: Item)
    requires x in items
    ensures x in KeptItems(items, groups) <==> Stays(x, AnswerItems(items, SoloIds(groups)), SoloIds(groups))
  {
    hide AnswerItems, SoloIds, Stays;
  }

  // ---------------------------------------------------------------- regrouping

  predicate IsWork(x: Item) {
    ClassOf(x.part) == WorkRun
  }

  /** No two neighbours are both work tools. */
  predicate NoWorkPairs(items: seq<Item>) {
    forall i :: 0 <= i < |items| - 1 ==> !(IsWork(items[i]) && IsWork(items[i + 1]))
  }

  /** Every part is a work tool or of no class. */
  predicate WorkOrAlone(items: seq<Item>) {
    forall i :: 0 <= i < |items| ==> ClassOf(items[i].part) == Alone || IsWork(items[i])
  }

  lemma KindsAreClasses(items: seq<Item>)
    requires WorkOrAlone(items)
    ensures forall i :: 0 <= i < |items| ==> KindAt(items, i) == ClassOf(items[i].part)
  {
    hide ClassOf, KindAt;
    forall i | 0 <= i < |items| ensures KindAt(items, i) == ClassOf(items[i].part) { OwnKind(items, i); }
  }

  lemma LoneWorkStandsAlone(items: seq<Item>, i: nat)
    requires WorkOrAlone(items) && i < |items| && !(i + 1 < |items| && IsWork(items[i]) && IsWork(items[i + 1]))
    ensures StandsAlone(items, i)
  {
    hide ClassOf, KindAt;
    KindsAreClasses(items);
  }

  /** The groups that two work tools in a row, with only lone parts before them, are drawn as. */
  lemma WorkPairMerges(items: seq<Item>, i: nat)
    requires WorkOrAlone(items) && i + 1 < |items| && IsWork(items[i]) && IsWork(items[i + 1])
    requires forall k :: 0 <= k < i ==> StandsAlone(items, k)
    ensures i < |Grouping(items)| && Grouping(items)[i].Work?
  {
    hide ClassOf, KindAt, GroupsFrom, StandsAlone, SingleOf;
    KindsAreClasses(items);
    SinglesFrom(items, 0, i);
    var e := RunEnd(items, i);
    assert e > i + 1;
    var run := items[i..e];
    TwoTools(run);
    FirstRun(items, i);
    assert RunGroups(run, WorkRun) == [WorkOf(run)];
    assert |Singles(items[0..i])| == i;
  }

  lemma TwoTools(run: seq<Item>)
    requires |run| >= 2 && IsWork(run[0]) && IsWork(run[1])
    ensures ToolCount(run) >= 2
  {
    assert run[1..][0] == run[1];
  }

  lemma {:induction false} FirstWorkPair(items: seq<Item>, n: nat) returns (i: nat)
    requires n + 1 < |items| && IsWork(items[n]) && IsWork(items[n + 1])
    ensures i <= n && IsWork(items[i]) && IsWork(items[i + 1])
    ensures forall k :: 0 <= k < i ==> !(IsWork(items[k]) && IsWork(items[k + 1]))
  {
    hide IsWork;
    if k :| 0 <= k < n && IsWork(items[k]) && IsWork(items[k + 1]) {
      i := FirstWorkPair(items, k);
    } else {
      i := n;
    }
  }

  /** Lone parts regroup as themselves exactly when no two work tools stand side by side. */
  lemma RegroupsExactly(items: seq<Item>)
    requires WorkOrAlone(items)
    ensures Grouping(items) == Singles(items) <==> NoWorkPairs(items)
  {
    hide GroupsFrom, StandsAlone, SingleOf, IsWork, WorkOrAlone;
    if NoWorkPairs(items) {
      forall k | 0 <= k < |items| ensures StandsAlone(items, k) { LoneWorkStandsAlone(items, k); }
      SinglesFrom(items, 0, |items|);
      assert items[0..|items|] == items;
      EmptyTail(items);
    } else {
      var n :| 0 <= n < |items| - 1 && IsWork(items[n]) && IsWork(items[n + 1]);
      var i := FirstWorkPair(items, n);
      forall k | 0 <= k < i ensures StandsAlone(items, k) { LoneWorkStandsAlone(items, k); }
      WorkPairMerges(items, i);
      assert Singles(items)[i] == SingleOf(items[i]);
      SingleIsSingle(items[i]);
    }
  }

  lemma SingleIsSingle(x: Item)
    ensures SingleOf(x).Single?
  {
  }

  lemma EmptyTail(items: seq<Item>)
    ensures GroupsFrom(items, |items|) == []
  {
  }

  lemma {:induction false} FilterAll<T>(s: seq<T>, keep: T -> bool)
    requires forall i :: 0 <= i < |s| ==> keep(s[i])
    ensures Filter(s, keep) == s
  {
    if s != [] {
      FilterAll(s[1..], keep);
    }
  }

  lemma KeptAreWorkOrAlone(groups: seq<PartGroup>, items: seq<Item>)
    requires Tiles(groups, items) && DistinctIds(items)
    ensures WorkOrAlone(KeptItems(items, groups))
  {
    hide Tiles, DistinctIds, AnswerItems, SoloIds, IsContextTool, IsWorkTool, IsTask;
    var kept := KeptItems(items, groups);
    forall i | 0 <= i < |kept| ensures ClassOf(kept[i].part) == Alone || IsWork(kept[i])
    {
      assert kept[i] in items;
      LoneClass(kept[i].part);
      if IsAnswerTool(kept[i].part) { SoloMayStandAlone(groups, items, kept[i]); }
    }
  }

  lemma LoneClass(p: Part)
    ensures p.TextPart? || p.OtherPart? ==> ClassOf(p) == Alone
    ensures p.ToolPart? ==> ClassOf(p) != Thought
    ensures IsAnswerTool(p) ==> p.ToolPart?
  {
  }

  /**
   * Grouping again only what a folded turn keeps gives back the groups that were not folded, exactly when no two work tools among
   * what it keeps stand side by side.
   */
  lemma RegroupingKept(decision: Decision, groups: seq<PartGroup>, items: seq<Item>, part: Lookup)
    requires decision.folded && Tiles(groups, items) && Resolves(part, items) && DistinctIds(items) && ColonFree(items)
    requires decision.explicit || NobodyOpened(groups, part)
    requires forall i :: 0 <= i < |items| ==> !IsPendingQuestion(items[i].part)
    ensures Unfolded(decision, groups, part) == Singles(KeptItems(items, groups))
    ensures Grouping(Shown(KeptItems(items, groups))) == Unfolded(decision, groups, part) <==> NoWorkPairs(KeptItems(items, groups))
    ensures Shown(KeptItems(items, groups)) == KeptItems(items, groups) && WorkOrAlone(KeptItems(items, groups))
  {
    hide Tiles, Resolves, DistinctIds, ColonFree, Unfolded, GroupsFrom, Stays, SingleOf, IsPendingQuestion, AnswerItems, SoloIds,
         NobodyOpened, WorkOrAlone, NoWorkPairs;
    var kept := KeptItems(items, groups);
    UnfoldedIsKept(decision, groups, items, part);
    forall i | 0 <= i < |kept| ensures !IsPendingQuestion(kept[i].part) { assert kept[i] in items; }
    FilterAll(kept, (item: Item) => !IsPendingQuestion(item.part));
    KeptAreWorkOrAlone(groups, items);
    RegroupsExactly(kept);
  }

  /** When every answer tool that is kept has a name and so is a Claxedo tool, no work tool is kept at all. */
  lemma NamedAnswersNeverPair(groups: seq<PartGroup>, items: seq<Item>)
    requires forall x :: x in items && IsAnswerTool(x.part) ==> x.part.name != ""
    ensures NoWorkPairs(KeptItems(items, groups))
  {
    hide AnswerItems, SoloIds;
    forall x | x in KeptItems(items, groups) ensures !IsWork(x) { assert x in items; }
  }

  // ---------------------------------------------------------------- turns that do not regroup

  /** Two answer tools that count as work, a text between them, and a lone tool of another kind after them. */
  ghost predicate SplitPair(items: seq<Item>) {
    && |items| == 4 && WorkOrAlone(items) && DistinctIds(items) && ColonFree(items)
    && IsAnswerTool(items[0].part) && items[1].part.TextPart? && IsAnswerTool(items[2].part)
    && IsWork(items[0]) && !IsWork(items[1]) && IsWork(items[2]) && !IsWork(items[3])
    && items[3].part.ToolPart? && !IsAnswerTool(items[3].part)
    && forall i :: 0 <= i < 4 ==> !IsPendingQuestion(items[i].part)
  }

  lemma SplitPairGroups(items: seq<Item>)
    requires SplitPair(items)
    ensures Grouping(items) == Singles(items) && Tiles(Singles(items), items) && Shown(items) == items
  {
    hide GroupsFrom, SingleOf, WorkOrAlone, IsWork, IsAnswerTool, DistinctIds, ColonFree, Tiles, IsPendingQuestion;
    RegroupsExactly(items);
    GroupingTiles(items, 0);
    assert items[0..] == items;
    FilterAll(items, (item: Item) => !IsPendingQuestion(item.part));
  }

  lemma SplitPairSolo(items: seq<Item>)
    ensures forall i :: 0 <= i < |items| ==> items[i].part.id in SoloIds(Singles(items))
  {
    hide SoloIds, SingleOf;
    forall i | 0 <= i < |items| ensures items[i].part.id in SoloIds(Singles(items))
    {
      assert Singles(items)[i] in Singles(items);
      SingleIsSolo(Singles(items), items[i]);
    }
  }

  lemma SplitPairStays(items: seq<Item>, answers: seq<Item>, solo: set<string>)
    requires SplitPair(items) && answers == AnswerItems(items, solo) && forall i :: 0 <= i < 4 ==> items[i].part.id in solo
    ensures Stays(items[0], answers, solo) && Stays(items[2], answers, solo)
    ensures !Stays(items[1], answers, solo) && !Stays(items[3], answers, solo)
  {
    hide IsWork, WorkOrAlone, AnswerItems, IsPendingQuestion;
    AnswerItemsExactly(items, solo, 1);
    assert items[2..][1] == items[3] && IsPlainTool(items[3], solo);
    assert items[3] !in answers;
    IsTool(items[3].part);
  }

  lemma IsTool(p: Part)
    requires p.ToolPart?
    ensures !p.OtherPart? && !p.TextPart?
  {
  }

  lemma FilterAlternate<T>(s: seq<T>, keep: T -> bool)
    requires |s| == 4 && keep(s[0]) == keep(s[2]) != keep(s[1]) == keep(s[3])
    ensures Filter(s, keep) == if keep(s[0]) then [s[0], s[2]] else [s[1], s[3]]
  {
    assert s[1..] == [s[1], s[2], s[3]] && s[1..][1..] == [s[2], s[3]] && s[1..][1..][1..] == [s[3]];
    assert [s[3]][1..] == [];
    assert Filter([s[3]], keep) == if keep(s[3]) then [s[3]] else [];
    assert Filter([s[2], s[3]], keep) == if keep(s[2]) then [s[2]] else [s[3]];
    assert Filter([s[1], s[2], s[3]], keep) == if keep(s[1]) then [s[1], s[3]] else [s[2]];
  }

  lemma SplitPairKeeps(items: seq<Item>)
    requires SplitPair(items)
    ensures KeptItems(items, Singles(items)) == [items[0], items[2]]
  {
    hide SplitPair, SoloIds, AnswerItems, Stays, SingleOf;
    var solo := SoloIds(Singles(items));
    var answers := AnswerItems(items, solo);
    SplitPairSolo(items);
    assert |items| == 4 by { SplitPairSize(items); }
    SplitPairStays(items, answers, solo);
    FilterAlternate(items, (x: Item) => Stays(x, answers, solo));
  }

  lemma SplitPairSize(items: seq<Item>)
    requires SplitPair(items)
    ensures |items| == 4 && items[1] !in [items[0], items[2]] && items[3] !in [items[0], items[2]] && DistinctIds(items) && ColonFree(items)
    ensures IsWork(items[0]) && IsWork(items[2]) && WorkOrAlone([items[0], items[2]])
    ensures forall i :: 0 <= i < 4 ==> !IsPendingQuestion(items[i].part)
  {
    hide ClassOf, IsAnswerTool, IsPendingQuestion;
  }

  lemma SplitPairFolds(items: seq<Item>, part: Lookup)
    requires SplitPair(items) && Resolves(part, items)
    ensures CountFoldable(Singles(items), part) == FOLD_MINIMUM
  {
    hide SplitPair, SingleOf, KeptItems, IsFoldable, Resolves, AnswerGroups, Keys, Tiles, GroupsFrom, DistinctIds, ColonFree;
    SplitPairSize(items);
    SplitPairKeeps(items);
    SplitPairGroups(items);
    var groups, kept := Singles(items), [items[0], items[2]];
    var keys := Keys(AnswerGroups(groups, part));
    forall i | 0 <= i < 4 ensures IsFoldable(groups[i], part, keys) <==> items[i] !in kept
    {
      assert groups[i] in groups && items[i] in items;
      UnfoldableIsKept(groups, items, part, groups[i]);
      InSingles(items[i], kept, items);
    }
    FilterAlternate(groups, (g: PartGroup) => IsFoldable(g, part, keys));
  }

  lemma PairMerges(kept: seq<Item>)
    requires |kept| == 2 && WorkOrAlone(kept) && IsWork(kept[0]) && IsWork(kept[1])
    ensures Grouping(kept) == [WorkOf(kept)] != Singles(kept)
  {
    hide ClassOf, KindAt, WorkGroupTool;
    KindsAreClasses(kept);
    FirstRun(kept, 0);
    assert RunEnd(kept, 0) == 2 && kept[0..2] == kept;
    TwoTools(kept);
    EmptyTail(kept);
    assert [WorkOf(kept)] + [] == [WorkOf(kept)];
  }

  /**
   * Folded turns whose kept parts do not regroup: the two answer tools are groups of their own, yet once the text between them is
   * folded away the pass merges them into one.
   */
  lemma UnnamedAnswersMerge(items: seq<Item>, decision: Decision, part: Lookup)
    requires SplitPair(items) && decision.folded && Resolves(part, items)
    requires decision.explicit || NobodyOpened(Grouping(items), part)
    ensures var kept := [items[0], items[2]];
      && CountFoldable(Grouping(Shown(items)), part) == FOLD_MINIMUM
      && Unfolded(decision, Grouping(Shown(items)), part) == Singles(kept)
      && Grouping(Shown(kept)) == [WorkOf(kept)] != Singles(kept)
  {
    hide SplitPair, GroupsFrom, SingleOf, KeptItems, Resolves, Unfolded, NobodyOpened, WorkGroupTool, CountFoldable, Tiles, Shown,
         IsPendingQuestion, DistinctIds, ColonFree, IsWork, WorkOrAlone;
    SplitPairSize(items);
    SplitPairGroups(items);
    SplitPairKeeps(items);
    SplitPairFolds(items, part);
    RegroupingKept(decision, Singles(items), items, part);
    PairMerges([items[0], items[2]]);
  }

  function Tool(id: string, name: string, claxedo: string): Item {
    Item("m", 0, ToolPart(id, name, "", Some(claxedo), false, Completed, false))
  }

  /** There are such turns: answer tools count as work when they have no name. */
  lemma UnnamedAnswersExample()
    ensures SplitPair([Tool("1", "", "ui_show"), Item("m", 0, TextPart("2", "x")), Tool("3", "", "ui_show"), Tool("4", "t", "t")])
  {
    var items := [Tool("1", "", "ui_show"), Item("m", 0, TextPart("2", "x")), Tool("3", "", "ui_show"), Tool("4", "t", "t")];
    assert IsWork(items[0]) && IsWork(items[2]) && ClassOf(items[1].part) == ClassOf(items[3].part) == Alone;
  }
}
