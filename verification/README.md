# Verified models of Claxedo's stateful core

This project models, in Dafny, the parts of the Claxedo repository whose correctness is not visible from one function body:
a one-pass grouping machine and what is folded and paged on top of it, the OAuth and device attempt protocol, connection storage
across two ports without a transaction, the promise-based queue, serializer and limiter, the two-dialect host path algebra,
per-scope usage folding, the import-graph search, a hand-written scanner, leap-second acceptance, the updater feed, and the
bounded session transcript. `dafny verify dfyconfig.toml` checks all of it.

| file | models | main results |
|---|---|---|
| `TurnFold.dfy` | `groupParts` | the machine with four run markers equals a description by lookahead kinds and maximal runs |
| `FoldDecision.dfy`, `TurnPage.dfy` | the fold decision, the line estimate, paging | exactly which groups fold and which parts stay; exactly when regrouping gives them back; pages tile the session |
| `Attempts.dfy`, `AttemptProtocol.dfy`, `AttemptOutcomes.dfy` | the attempt store; polls, callbacks, sweeps, clock | one write per grant, from the winner; terminal statuses are final; the outcome is exactly what the provider's answers and the writes say |
| `ConnectionStorage.dfy` | `connect` and `storeConnection` | rows always backed and unique; a refusal changes nothing; who is refused; what a row says |
| `AsyncQueue.dfy`, `KeyedSerializer.dfy`, `ConcurrencyLimit.dfy` | the async primitives | first in, first out; exclusion exactly without re-entry; the limit exactly without barging |
| `HostPath.dfy` | host paths | text containment is containment of places; the laws of dot segments |
| `UsageStreams.dfy` | usage folding | order across scopes is irrelevant; each field of the total is its known sum; clamps hold in every scope and in the total |
| `ImportClosure.dfy`, `Walk.dfy` | the import closure and its search | exactly the reachable modules; a shortest chain; both together judge the tree itself |
| `Scan.dfy`, `ScanExtents.dfy` | the scanner | how far each string, template, regular expression and comment reaches; what the counters count; its numeric template stack refines an explicit bracket stack; exactly which offset stays unfilled |
| `DateTime.dfy` | date and date-time answers | exactly the spellings of RFC 3339 are read; a leap second is judged by its UTC minute |
| `UpdateFeed.dfy` | the updater feed | the round trip is the identity exactly on well-formed feeds |
| `SessionHandoff.dfy` | the session transcript | the longest run of newest messages that fits |

How to read it. Code that computes a value is a function of the same shape, and what it promises is a lemma about it. Code that
loops or updates fields is a method or a class whose `ensures` ties it to such a function. Protocols are state machines: a step is
what happens between two `await`s, `After(steps)` is the state after any list of steps, and a theorem about `After(steps)` for all
`steps` is a theorem about every interleaving. A run that crashed is one whose steps stop.

Where a promise turns out to hold only sometimes, the code is kept as it is, a lemma at a concrete input shows it failing, and a lemma
says exactly when it holds:

- a POSIX path whose first kept segments read as a server and a share is not normalised idempotently (`MisreadExample`,
  `NormalizeIdempotent`, `MisreadExactly`), and for exactly those paths text containment is not containment of places (`WithinExactly`);
- joining two or more segments onto the POSIX root builds text that reads as a UNC path (`RootJoinExample`, `JoinAppends`,
  `RootJoinIsTheException`), and so does joining back a folder of the root whose name holds a backslash (`LoneShareExample`,
  `ParentJoinsBack`);
- an operation that calls `run` for its own key from its synchronous start overlaps with that call (`ReentryExample`,
  `ExclusiveExactlyWithoutReentry`);
- a caller arriving between a wake and its resume exceeds the limit (`BargingExample`, `LimitHoldsExactlyWithoutBarging`);
- the last offset of a text is left unfilled when the scanner steps over it (`UnfilledExample`, `UnfilledExactly`);
- feeds with blank fields or zero sizes do not survive a round trip, and zero block map sizes are dropped (`ZeroSizesExample`,
  `RoundTrip`);
- two answer tools without a name that folding brings together are merged when what the fold keeps is regrouped
  (`UnnamedAnswersMerge`, `UnnamedAnswersExample`, `RegroupingKept`).

## Model

| member | source | states |
|---|---|---|
| TurnFold.GroupParts | packages/agent-runtime-contract/src/turn-fold.ts:139-244 | for every input the one-pass machine yields the grouping given by lookahead kinds and maximal runs; members read left to right are the shown parts' references in order; no two neighbours are both context, both work or both agents |
| TurnFold.Grouper.Take | packages/agent-runtime-contract/src/turn-fold.ts:201-236 | one turn of the pass keeps at most one run open and what is emitted plus what is open equal to the whole grouping |
| TurnFold.Grouper.FlushWork | packages/agent-runtime-contract/src/turn-fold.ts:162-181 | a work run ends as one group with two tools or more, and otherwise as single parts, with nothing lost |
| TurnFold.Grouper.FlushThoughts | packages/agent-runtime-contract/src/turn-fold.ts:195-199 | thoughts that lead to no context or work tool stand alone |
| TurnFold.Grouper.Finish | packages/agent-runtime-contract/src/turn-fold.ts:238-243 | the closing flushes complete the grouping |
| TurnFold.GroupingCorrect | packages/agent-runtime-contract/src/turn-fold.ts:139-244 | every group covers exactly its consecutive parts, a work group holds at least two tools, a context group only context tools and the thoughts before them; conservation and no twin neighbours |
| TurnFold.TilesConserve | packages/agent-runtime-contract/src/turn-fold.ts:319-321 | the members of groups that cover items are the items' references, none lost, repeated or moved |
| TurnFold.ToolsAreDrawn | packages/agent-runtime-contract/src/turn-fold.ts:82-112 | a Claxedo tool, a failed spawn, an answered question and a lookup that returned an image stand alone; any other lookup is in a context group and any other spawn in an agents group |
| TurnFold.WorkIsDrawn | packages/agent-runtime-contract/src/turn-fold.ts:87-91 | any other tool is in a work group or alone, and two in a row share a work group |
| TurnFold.WorkGroupTool | packages/agent-runtime-contract/src/turn-fold.ts:128-132 | an edit anywhere makes an edit group, else a web tool a web group |
| TurnFold.ShownExactly | packages/agent-runtime-contract/src/turn-fold.ts:76-80 | grouping leaves out exactly the questions that wait for an answer |
| FoldDecision.AnswersTile | packages/agent-runtime-contract/src/turn-fold.ts:258-269 | the answer groups are exactly the texts with no tool after them, an answer tool drawn on its own not counting |
| FoldDecision.AnswerItemsExactly | packages/agent-runtime-contract/src/turn-fold.ts:262-265 | by position: an item is an answer iff it is a text and no later item is a tool, an answer tool drawn on its own not counting |
| FoldDecision.SameKeySameGroup | packages/agent-runtime-contract/src/turn-fold.ts:134-191 | with distinct colon-free ids no two groups share a key |
| FoldDecision.FoldedExactly | packages/agent-runtime-contract/src/turn-fold.ts:323-339 | with distinct colon-free ids a group's key is folded iff that group is foldable and, unless folding was chosen by hand, none of its parts was opened by hand |
| FoldDecision.ChoiceByHandDecides | packages/agent-runtime-contract/src/turn-fold.ts:304-317 | a choice by hand decides whenever the turn may fold, and never whether it may |
| FoldDecision.UnchosenTurnFolds | packages/agent-runtime-contract/src/turn-fold.ts:311-315 | without a choice a turn folds iff it may and was neither interrupted nor failed |
| FoldDecision.MayFoldExactly | packages/agent-runtime-contract/src/turn-fold.ts:305-310 | no turn folds while it runs without an error, before it settles, with fewer than two foldable groups or with folding off; any other may |
| FoldDecision.FoldableOrKept | packages/agent-runtime-contract/src/turn-fold.ts:283-286 | the foldable groups and the kept parts together number the groups |
| FoldDecision.UnfoldedIsKept | packages/agent-runtime-contract/src/turn-fold.ts:275-339 | a group stays unfolded iff it is the single group of another part, of an answer tool or of an answer text, or a part of it was opened by hand; with nothing opened those single groups in order are all that is left |
| FoldDecision.RegroupingKept | packages/agent-runtime-contract/src/turn-page.ts:149-157 | grouping only the kept parts again gives back exactly the groups that were not folded, iff no two work tools among them stand side by side |
| FoldDecision.NamedAnswersNeverPair | packages/agent-runtime-contract/src/turn-fold.ts:93-101 | when every answer tool has a name no work tool is kept, so regrouping gives the unfolded groups back |
| FoldDecision.UnnamedAnswersMerge | packages/agent-runtime-contract/src/turn-fold.ts:87-101 | folded turns for which regrouping fails: two answer tools that count as work, apart and unfolded before, are merged once the text between them is folded |
| FoldDecision.UnnamedAnswersExample | packages/agent-runtime-contract/src/turn-fold.ts:93-101 | such a turn: two nameless answer tools, a text between them, a named tool of another kind |
| TurnPage.SegmentsTile | packages/agent-runtime-contract/src/turn-fold.ts:397-406 | however an interruption cuts a turn, its groups cover the turn's parts in order |
| TurnPage.InterruptedExactly | packages/agent-runtime-contract/src/turn-fold.ts:364-368 | a turn is interrupted at its first aborted message, else at the first message of the cancelled id |
| TurnPage.GroupsKeepToTheirSide | packages/agent-runtime-contract/src/turn-fold.ts:397-406 | no group reaches across the message a turn was interrupted at |
| TurnPage.UncutTurnHasNoTwins | packages/agent-runtime-contract/src/turn-fold.ts:401 | an uninterrupted turn, or a compaction, is grouped as a whole |
| TurnPage.ShapeIsDrawn | packages/agent-runtime-contract/src/turn-fold.ts:387-394 | an uninterrupted turn's shape is what is drawn of it; an interrupted one's is that less the unfinished tools |
| TurnPage.DrawnWithoutThoughts | packages/agent-runtime-contract/src/turn-fold.ts:119-120 | turning thoughts off hides exactly the thoughts; blank texts and thoughts are not drawn |
| TurnPage.ToolsDrawnExactly | packages/agent-runtime-contract/src/turn-fold.ts:114-118 | of tools, exactly the to-do list and waiting questions are not drawn |
| TurnPage.FoldsExactly | packages/agent-runtime-contract/src/turn-page.ts:162-173 | a turn folds iff its last message is completed, none has an error, none is the cancelled one, and at least two groups are foldable |
| TurnPage.KeptExactly | packages/agent-runtime-contract/src/turn-page.ts:162-177 | a part of a folded turn stays drawn iff it is no text, thought or tool, is an answer tool drawn on its own, or is a text with no tool after it |
| TurnPage.FoldedTurnItems | packages/agent-runtime-contract/src/turn-page.ts:174-176 | the parts a folded turn hands to the estimate are exactly its kept parts |
| TurnPage.FoldedTurnRegroups | packages/agent-runtime-contract/src/turn-page.ts:149-187 | a folded turn's unfolded groups are single parts, the estimate's regrouping gives them back iff no two kept work tools stand side by side, and exactly then its line count is the chrome, the prompt, the fold row and each kept part's own height, and otherwise it is less |
| TurnPage.UnfoldedTurnLines | packages/agent-runtime-contract/src/turn-page.ts:149-187 | the estimate of a turn that is not folded is the chrome, the prompt, each drawn text at its height, and two rows for every other group |
| TurnPage.RegroupedLines | packages/agent-runtime-contract/src/turn-page.ts:149-157 | regrouping lone parts never adds lines, and saves some iff two work tools stand side by side |
| TurnPage.TextLines | packages/agent-runtime-contract/src/turn-page.ts:130-143 | the loop with its fence flag equals the sum of line heights by the parity of fences before each line |
| TurnPage.TextHeightSplits | packages/agent-runtime-contract/src/turn-page.ts:130-143 | lines after a text whose fences are closed count as on their own |
| TurnPage.OneLineHeight | packages/agent-runtime-contract/src/turn-page.ts:133-141 | a fence takes two rows, a blank line none, any other line the fewest rows that hold it |
| TurnPage.FencedBlockHeight | packages/agent-runtime-contract/src/turn-page.ts:134-139 | a fenced block takes two rows and one for each of its lines, however long or blank |
| TurnPage.ReadTurnPage | packages/agent-runtime-contract/src/turn-page.ts:192-209 | the paging loop yields the page that ends at the cursor and starts at the latest turn from which it is full |
| TurnPage.PageShape | packages/agent-runtime-contract/src/turn-page.ts:192-209 | a page is contiguous, oldest first, non-empty when a turn exists, at most 24 turns, full unless it reaches the first turn, and not full without its oldest turn |
| TurnPage.PageStops | packages/agent-runtime-contract/src/turn-page.ts:192-209 | reading stops as soon as the page has three screens of lines, 24 turns or, in a first read alone, 262,144 bytes, or the first turn, and no sooner |
| TurnPage.SliceShape | packages/agent-runtime-contract/src/turn-page.ts:200-206 | (corollary of the slice's own contract) a page's turns are the session's and its first turn's cursor reads what comes before it |
| TurnPage.FollowAllVisitsAll | packages/agent-runtime-contract/src/turn-page.ts:192-209 | following first-turn cursors visits every turn exactly once, in order, and ends within one read a turn |
| Attempts.TakenOnce | packages/claxedo-connections/src/attempts.ts:152-224 | what `create` made the first `consume` within its lifetime gets, exactly; after that no `consume`, `peek` or sweep gets, lapses or removes it; a first `consume` after that time finds it expired |
| Attempts.DecidedOnce | packages/claxedo-connections/src/attempts.ts:126-247 | the first decision on an attempt stands against any later one, nothing takes it again, and a sweep removes it iff its retention is over |
| Attempts.SweptInTime | packages/claxedo-connections/src/attempts.ts:126-144 | a sweep lapses an attempt nobody took iff its lifetime is over |
| Attempts.AttemptStore.Create | packages/claxedo-connections/src/attempts.ts:152-168 | the attempt can be taken, tells what was asked for, and expires a lifetime later; every other entry is unchanged |
| Attempts.AttemptStore.Peek | packages/claxedo-connections/src/attempts.ts:180-202 | answers iff the attempt is a device one, free and within its time, and then changes nothing; otherwise at most that attempt runs out; a completing one reads as absent |
| Attempts.AttemptStore.Take | packages/claxedo-connections/src/attempts.ts:203-224 | gives the attempt iff it is free and within its time, and marks it completing; otherwise at most that attempt runs out |
| Attempts.AttemptStore.Settle | packages/claxedo-connections/src/attempts.ts:225-236 | a pending entry gets its outcome, message and removal time and keeps whose it is; anything else is unchanged |
| Attempts.AttemptStore.Expire | packages/claxedo-connections/src/attempts.ts:237-247 | a pending entry becomes expired and keeps whose it is; anything else is unchanged |
| Attempts.AttemptStore.StatusOf | packages/claxedo-connections/src/attempts.ts:248-257 | answers exactly for known attempts, with their integration and scope, and the outcome and message of a settled one |
| Attempts.AttemptStore.Sweep | packages/claxedo-connections/src/attempts.ts:126-144 | the loop over entries removes the retired ones and lapses the free ones past their time, and touches no completing one |
| AttemptProtocol.StepKeepsValid | packages/claxedo-connections/src/service.ts:295-331 | every step of every poll, callback, sweep and clock keeps the protocol invariant |
| AttemptProtocol.WinKeepsValid | packages/claxedo-connections/src/service.ts:314-323 | winning `consume` makes a job the only one to work on an attempt |
| AttemptProtocol.DecideKeepsValid | packages/claxedo-connections/src/service.ts:457-488 | the winner's decision is what the entry then shows |
| AttemptProtocol.AttemptRuns | packages/claxedo-connections/src/service.ts:295-331 | over every interleaving a grant is written at most once, only by the winner of `consume`; a consumed attempt's outcome is its winner's decision; it reads complete only if its grant was written |
| AttemptOutcomes.OutcomesTell | packages/claxedo-connections/src/service.ts:300-331 | over every interleaving a consumed attempt reads complete iff its winner's row was written, expired iff the provider called its grant expired, failed iff it was denied, the callback unusable, the exchange or a write failed; one nobody consumed reads expired |
| AttemptOutcomes.DecidingSettles | packages/claxedo-connections/src/service.ts:316-329 | when a job decides, its attempt is settled at once with what its steps told |
| AttemptOutcomes.OnlyGrantsAreStored | packages/claxedo-connections/src/service.ts:314-326 | over every interleaving whatever reached storage was granted to its job: tokens to a poll, an exchanged code to a callback |
| AttemptOutcomes.FateExactly | packages/claxedo-connections/src/service.ts:457-488 | what the steps told of a job is exactly what their labels say, and nothing is told twice |
| AttemptProtocol.TerminalIsFinal | packages/claxedo-connections/src/attempts.ts:126-247 | over every run a terminal entry stays as it is until, at or after its removal time, it is gone, and then it stays gone |
| ConnectionStorage.StorageRuns | packages/claxedo-connections/src/service.ts:136-179 | over every interleaving and crash point each row names a credential that exists and each integration and owner has at most one row |
| ConnectionStorage.StepKeepsValid | packages/claxedo-connections/src/service.ts:136-179 | each port call, one that writes and then throws included, keeps rows backed, partitions unique, and a new id out of the rows until its own run writes it |
| ConnectionStorage.ExistingIsNotHeld | packages/claxedo-connections/src/types.ts:222-239 | a run that found its row is never refused as a duplicate |
| ConnectionStorage.RefusalChangesNothing | packages/claxedo-connections/src/service.ts:346-371 | a connect refused as a duplicate, early or by the store, has at none of its steps touched a row or a row's credential |
| ConnectionStorage.RefusedExactly | packages/claxedo-connections/src/service.ts:356-357 | a run is refused by a look that finds its partition taken when it did not confirm a replacement, or by a store that does, and by nothing else |
| ConnectionStorage.RefusalRuns | packages/claxedo-connections/src/service.ts:346-371 | in every run a refusal has its cause, a row of that partition that is not the run's, and a run that confirmed a replacement was refused only by losing a race |
| ConnectionStorage.RowsKeepTheirBirth | packages/claxedo-connections/src/service.ts:176 | over every interleaving a row keeps its partition and its time of creation |
| ConnectionStorage.UpsertWrites | packages/claxedo-connections/src/service.ts:168-178 | an upsert writes what the run was asked, updated now, created when the row before was or else now, and no other row |
| ConnectionStorage.OnlyAcceptedConnectsStore | packages/claxedo-connections/src/service.ts:356-370 | over every interleaving a connect that put a credential or wrote a row had been accepted by its provider |
| ConnectionStorage.RejectedStoresNothing | packages/claxedo-connections/src/service.ts:359-360 | a connect its provider turned down has failed for good and never stores |
| AsyncQueue.QueueRuns | packages/claxedo-helpers/src/async-queue.ts:1-58 | in every run the values pushed while open are those handed out, in call order, then those stored; values and readers never both wait; closing leaves no waiter; a drain released while open came after everything pushed before it was taken |
| AsyncQueue.AnswersAreFinal | packages/claxedo-helpers/src/async-queue.ts:28-34 | what a `next()` call was answered it stays answered |
| AsyncQueue.RunAccepts | packages/claxedo-helpers/src/async-queue.ts:7-12 | what a run accepts is exactly what was pushed before its first `end` or `fail` |
| AsyncQueue.CloseTells | packages/claxedo-helpers/src/async-queue.ts:14-34 | in every run a call answered without a value is told of the first `end` or `fail`, and only once every accepted value was handed out |
| AsyncQueue.AsyncPushQueue.Push | packages/claxedo-helpers/src/async-queue.ts:7-12 | hands the value to the oldest waiting reader, or stores it, or ignores it once closed |
| AsyncQueue.AsyncPushQueue.End | packages/claxedo-helpers/src/async-queue.ts:14-19 | answers every waiting reader done and releases every drain |
| AsyncQueue.AsyncPushQueue.Fail | packages/claxedo-helpers/src/async-queue.ts:21-26 | rejects every waiting reader and releases every drain |
| AsyncQueue.AsyncPushQueue.Next | packages/claxedo-helpers/src/async-queue.ts:28-34 | answers with the oldest stored value, the failure or the end, or waits, releasing drains first |
| AsyncQueue.AsyncPushQueue.Drained | packages/claxedo-helpers/src/async-queue.ts:42-45 | resolves at once when closed or when a reader waits with nothing stored, and otherwise waits |
| KeyedSerializer.SerializerRuns | packages/claxedo-helpers/src/async.ts:44-69 | without re-entry operations of a key run one at a time, start in call order, wait for their own key alone, and leave an empty map once cleaned up |
| KeyedSerializer.ExclusiveExactlyWithoutReentry | packages/claxedo-helpers/src/async.ts:48-56 | one operation of a key at a time holds throughout a run iff no call is made from inside the synchronous start of an operation of its own key |
| KeyedSerializer.ReentryExample | packages/claxedo-helpers/src/async.ts:51-56 | the second of two calls of one key, made inside the first one's synchronous start, makes both run at once |
| KeyedSerializer.WaitsForItsOwnKey | packages/claxedo-helpers/src/async.ts:48-51 | while an operation waits, some operation of its own key is running or can step |
| ConcurrencyLimit.NoLostWakeup | packages/claxedo-helpers/src/async.ts:115-128 | in every run, while a caller is queued, running and woken callers number at least the limit; callers wake in queue order and none is dropped |
| ConcurrencyLimit.LimitHoldsExactlyWithoutBarging | packages/claxedo-helpers/src/async.ts:119-126 | running and woken callers stay within the limit throughout a run iff no caller is let in while every slot is taken or promised |
| ConcurrencyLimit.LoadIsBounded | packages/claxedo-helpers/src/async.ts:115-128 | running and woken callers exceed the limit by at most the number of callers let in that way |
| ConcurrencyLimit.BargingExample | packages/claxedo-helpers/src/async.ts:119-125 | with a limit of one, a caller between a wake and its resume makes two run at once |
| HostPath.DotsDetermine | packages/account-contract/src/host-path.ts:28-40 | plain segments stay, blanks and single dots drop out, a double dot cancels the plain segment before it and stops at the volume; nothing but collapsing obeys this |
| HostPath.DotsCancel | packages/account-contract/src/host-path.ts:32-36 | a plain segment and a double dot after it cancel wherever they stand |
| HostPath.DetourIsNothing | packages/account-contract/src/host-path.ts:28-82 | going into a folder and back by `..` changes neither the normal form nor what contains the path |
| HostPath.DotsGoToParent | packages/account-contract/src/host-path.ts:28-115 | joining `..` goes to the parent and stays at a root, iff the segments with `..` after them do not read as a server and a share |
| HostPath.DotsExample | packages/account-contract/src/host-path.ts:28-82 | `/srv/app/../../etc` is `/etc` and not within `/srv/app` |
| HostPath.CollapseDotSegments | packages/account-contract/src/host-path.ts:29-40 | the loop with push and pop equals the recursive collapse, which `DotsDetermine` characterises |
| HostPath.CollapseConcat | packages/account-contract/src/host-path.ts:28-40 | collapsing a list is collapsing its second part onto its collapsed first part |
| HostPath.NormalizeSpellsPlace | packages/account-contract/src/host-path.ts:50-59 | the normal form is the spelling of the volume and collapsed segments the path names |
| HostPath.SpellRoundTrip | packages/account-contract/src/host-path.ts:22-59 | the spelling of a place names that place, unless it is misread |
| HostPath.MisreadExactly | packages/account-contract/src/host-path.ts:14-26 | a normal form is misread iff it is POSIX, its first kept segment is a backslash and a server's name, and a share's name follows after the segment's next backslash or, if it has none, in the next segment |
| HostPath.NormalizeIdempotent | packages/account-contract/src/host-path.ts:50-59 | normalising twice is normalising once iff a POSIX path's first kept segments do not read as a server and a share |
| HostPath.BackslashFreeIsStable | packages/account-contract/src/host-path.ts:14-26 | Windows paths and backslash-free POSIX paths are never misread |
| HostPath.MisreadExample | packages/account-contract/src/host-path.ts:20-24 | a POSIX path whose normal form reads as a server and share |
| HostPath.WithinMeansContains | packages/account-contract/src/host-path.ts:72-82 | text containment holds iff kind and volume agree and the root's segments begin the path's, case-folded on Windows |
| HostPath.WithinExactly | packages/account-contract/src/host-path.ts:72-82 | for every path, text containment agrees with containment of places for all roots iff the path's first kept segments do not read as a server and a share |
| HostPath.WithinIsAnOrder | packages/account-contract/src/host-path.ts:62-82 | containment is reflexive on absolute paths, transitive, and mutual iff the two name one folder |
| HostPath.ParentAndBasename | packages/account-contract/src/host-path.ts:93-124 | a root has no parent and no basename; any other path's parent drops its last segment, which is its basename |
| HostPath.ParentJoinsBack | packages/account-contract/src/host-path.ts:101-124 | joining the parent with the basename gives the path back iff the path is not a folder of the POSIX root whose name reads as a server and a share; the parent always contains the path |
| HostPath.LoneShareExample | packages/account-contract/src/host-path.ts:101-115 | a folder of the POSIX root that does not join back |
| HostPath.ClimbReachesRoot | packages/account-contract/src/host-path.ts:101-108 | climbing reaches the volume root in exactly as many steps as there are segments |
| HostPath.JoinAppends | packages/account-contract/src/host-path.ts:111-115 | joining segments without separators of the base's dialect appends and collapses iff the joined text of a POSIX base is not read as UNC |
| HostPath.RootJoinIsTheException | packages/account-contract/src/host-path.ts:111-115 | for a normalized backslash-free base the exception is the root with two segments that look like a server and a share |
| HostPath.RootJoinExample | packages/account-contract/src/host-path.ts:111-115 | joining `a` and `b` onto the POSIX root answers a share |
| UsageStreams.OrderAcrossScopesIsIrrelevant | packages/agent-runtime-contract/src/usage-streams.ts:84-97 | orders of observations that agree within each scope fold to the same streams and the same total |
| UsageStreams.ScopesAreIndependent | packages/agent-runtime-contract/src/usage-streams.ts:84-90 | each scope's tokens and last key come from its own observations alone |
| UsageStreams.CumulativeReplaces | packages/agent-runtime-contract/src/usage-streams.ts:22-23 | a cumulative observation, repeated or not, leaves its scope at its own clamped tokens, whatever came before |
| UsageStreams.RepeatIsIgnored | packages/agent-runtime-contract/src/usage-streams.ts:79-85 | (corollary of how one observation is recorded) recording an observation again at once changes nothing |
| UsageStreams.ClampFits | packages/agent-runtime-contract/src/usage-streams.ts:46-51 | the clamp leaves one-hour writes within cache writes, and tokens that fit as they are |
| UsageStreams.OneHourNeverExceedsWrites | packages/agent-runtime-contract/src/usage-streams.ts:41-57 | with non-negative writes one-hour writes never exceed cache writes in any scope or in the total |
| UsageStreams.SumOverAnyOrder | packages/agent-runtime-contract/src/usage-streams.ts:53-57 | the total does not depend on the order in which streams are added |
| UsageStreams.TotalIsSum | packages/agent-runtime-contract/src/usage-streams.ts:53-57 | each field of the total is unknown iff it is unknown in every scope, and otherwise the sum of what the scopes know of it |
| UsageStreams.DeltasAddUp | packages/agent-runtime-contract/src/usage-streams.ts:22-37 | after deltas none of which repeats the one before, each count of a scope is the known sum of theirs, and so is the one-hour share when each delta's fits its writes |
| UsageStreams.RepeatsExactly | packages/agent-runtime-contract/src/usage-streams.ts:59-81 | two reports of a scope have one key iff they are deltas of one provider id or say the same in every field |
| UsageStreams.Streams.Record | packages/agent-runtime-contract/src/usage-streams.ts:84-90 | applies one observation to its scope, and says whether it did |
| UsageStreams.Streams.Sum | packages/agent-runtime-contract/src/usage-streams.ts:53-57 | the loop over streams is their sum |
| UsageStreams.FoldObservations | packages/agent-runtime-contract/src/usage-streams.ts:93-97 | the fold over observations is the total of their recorded streams |
| ImportClosure.ShortestChain | script/product-boundary/closure.ts:350-391 | returns nothing iff nothing forbidden is reachable, and otherwise a real chain from the entry such that no shorter one exists |
| ImportClosure.Expand | script/product-boundary/closure.ts:380-387 | following one module's imports sees all of them, queues the new ones with real chains, or stops at a forbidden one |
| ImportClosure.FindForbiddenPackage | script/product-boundary/closure.ts:375-379 | finds a forbidden package edge of a module iff it has one |
| Walk.WalkFrom | script/product-boundary/closure.ts:247-330 | visits exactly the modules reachable under the roots, each once, ends, and records exactly their edges, package edges, misses, edges that leave the roots and imports from variables |
| Walk.SearchTree | script/product-boundary/policy.ts:160-239 | walking a tree and searching the closure finds nothing iff nothing the entry reaches in the tree is forbidden, and otherwise a chain no longer than any walk of the tree to a forbidden module |
| Walk.ForbiddenHasChain | script/product-boundary/closure.ts:350-391 | whatever forbidden module or package import the entry reaches in the tree, the closure has a chain to one |
| Walk.ReadFile | script/product-boundary/closure.ts:269-316 | reading one module records exactly its imports and queues exactly the unseen ones it follows |
| Scan.ScanText | script/helpers/extract.ts:123-314 | every offset up to the last position visited holds the depth, parenthesis depth, line and code flag of the first position visited at or after it; the offset after the text holds the final counts; exactly the comment text is marked; the two lists hold exactly the statement starts in order; the loop ends |
| Scan.StartsAreCode | script/helpers/extract.ts:292-307 | a statement begins only at a filled character of code that is no comment text |
| ScanExtents.StringExtent | script/helpers/extract.ts:182-190 | a string opened at a visited offset reaches up to the first unescaped quote of its own kind, and the offset after is code with nothing counted |
| ScanExtents.RegexExtent | script/helpers/extract.ts:191-230 | a regular expression reaches up to the first slash neither escaped nor in a class |
| ScanExtents.TemplateExtent | script/helpers/extract.ts:202-221 | template text reaches up to the first unescaped backtick or substitution opener |
| ScanExtents.BlockCommentExtent | script/helpers/extract.ts:171-181 | a block comment reaches up to its first closing marker, all of it marked, and leaves the scan as it was |
| ScanExtents.LineCommentExtent | script/helpers/extract.ts:165-170 | a line comment reaches up to the end of its line and leaves the scan as it was |
| ScanExtents.CodeGoesOn | script/helpers/extract.ts:223-308 | any other character of code is followed by code |
| ScanExtents.BraceReenters | script/helpers/extract.ts:281-291 | a closing brace re-enters a template iff the innermost open bracket is a substitution |
| ScanExtents.CountersAreCounts | script/helpers/extract.ts:260-291 | at every offset the parenthesis depth is the code parentheses opened less those closed, and the depth the code braces and substitutions opened less the braces closed |
| ScanExtents.PrevIsLastSignificant | script/helpers/extract.ts:143-145 | what tells a division from a regular expression is the last significant character of code |
| ScanExtents.StartsExactly | script/helpers/extract.ts:292-307 | exactly where a statement begins, told by position |
| Scan.DeclarationLetters | script/helpers/extract.ts:316-321 | the characters that may start a declaration are the first letters of its seven words |
| Scan.ScannerFollowsBrackets | script/helpers/extract.ts:138-291 | at every offset the depth is the open code brackets less the strays, and the template stack is exactly the depths at which the open substitutions began, so strictly increasing and below the depth |
| Scan.StepRefines | script/helpers/extract.ts:162-308 | one turn with the numeric stack is one turn with an explicit bracket stack, on which a closing brace re-enters a template iff it closes a substitution |
| Scan.TextMovesNothing | script/helpers/extract.ts:165-221 | string, regular expression, comment and template text moves no counter, but for the opening of a substitution |
| Scan.UnfilledExactly | script/helpers/extract.ts:147-161 | an offset is left unfilled iff the scan visits the last character but one and there, with the last, it reads a comment opener or closer, an escape or a substitution opener; and then only the last one is |
| Scan.UnfilledExample | script/helpers/extract.ts:232-238 | a text that ends in a comment opener leaves its last offset at depth zero inside a brace |
| DateTime.Rfc3339DateTime | packages/agent-runtime-contract/src/elicitation.ts:78-101 | accepts exactly the well-formed texts in range whose second 60, if any, falls in a minute that can hold a leap second |
| DateTime.SpelledIsRead | packages/agent-runtime-contract/src/elicitation.ts:81-88 | every spelling of some fields is read as those fields, each from its own place and with the sign as written |
| DateTime.ReadIsSpelled | packages/agent-runtime-contract/src/elicitation.ts:81-88 | a text that is read is a spelling of what is read |
| DateTime.LeapSecondExamples | packages/agent-runtime-contract/src/elicitation.ts:89-100 | the leap second of 1990 in UTC and in Pacific time, and the same text with the sign turned |
| DateTime.EndsUtcMonth | packages/agent-runtime-contract/src/elicitation.ts:92-100 | the date changed step by step answers whether the UTC minute is 23:59 on the last day of a month |
| DateTime.LeapSecondByUtcDate | packages/agent-runtime-contract/src/elicitation.ts:89-100 | a second 60 is accepted iff the UTC minute is 23:59 and the UTC date is the last of its own month |
| DateTime.SpellingsAgree | packages/agent-runtime-contract/src/elicitation.ts:89-98 | (corollary of the UTC-minute rule) every offset spelling of one instant gets the same answer |
| DateTime.DayShiftIsSmall | packages/agent-runtime-contract/src/elicitation.ts:96-97 | an offset moves the date by at most one day |
| DateTime.DayOfDate | packages/agent-runtime-contract/src/elicitation.ts:92-95 | every Gregorian date is the date of its own day number |
| DateTime.MonthEndsBeforeFirst | packages/agent-runtime-contract/src/elicitation.ts:99-100 | a day ends its month iff the next day is a first |
| UpdateFeed.Parse | packages/claxedo-desktop/scripts/finalize-latest-yml.ts:36-72 | the loop over lines equals the line-by-line parse |
| UpdateFeed.Serialize | packages/claxedo-desktop/scripts/finalize-latest-yml.ts:74-84 | the loop over files prints the feed's lines |
| UpdateFeed.FileIsPrinted | packages/claxedo-desktop/scripts/finalize-latest-yml.ts:76-81 | the lines of a file, with their keys and indents |
| UpdateFeed.FeedIsPrinted | packages/claxedo-desktop/scripts/finalize-latest-yml.ts:75-83 | a feed is its version line, the files heading, the files' lines in order, and its quoted date |
| UpdateFeed.StrayLineEndsFile | packages/claxedo-desktop/scripts/finalize-latest-yml.ts:54-67 | a line of no known field that is not indented ends the file being read and changes nothing else |
| UpdateFeed.CompletedExactly | packages/claxedo-desktop/scripts/finalize-latest-yml.ts:43-51 | a file counts iff its url, hash and size are there, none empty or zero |
| UpdateFeed.ParseOfSerialize | packages/claxedo-desktop/scripts/finalize-latest-yml.ts:36-84 | for every feed without line breaks, parsing what is printed gives the feed with fields trimmed, files with a blank field or no size dropped, and zero block maps gone |
| UpdateFeed.RoundTrip | packages/claxedo-desktop/scripts/finalize-latest-yml.ts:36-84 | the round trip is the identity iff no field has a line break, fields are trimmed, urls and hashes not empty, sizes and block map sizes numbers other than zero |
| UpdateFeed.ZeroSizesExample | packages/claxedo-desktop/scripts/finalize-latest-yml.ts:47-49 | a file of no size and a block map of no size are lost by the round trip |
| UpdateFeed.ParsedIsTidy | packages/claxedo-desktop/scripts/finalize-latest-yml.ts:36-72 | whatever text is parsed, the feed has no line breaks, and trimmed non-empty urls and hashes with non-zero sizes |
| UpdateFeed.MergedMacReadsBack | packages/claxedo-desktop/scripts/finalize-latest-yml.ts:106-116 | whatever the two macOS texts hold, the merged feed parses back to the arm64 files then the x64 files, with the base's version and date |
| SessionHandoff.EscapingIsOnePass | packages/agent-runtime-contract/src/session-handoff.ts:7-11 | the three replacement passes escape each character exactly once |
| SessionHandoff.EscapeRoundTrip | packages/agent-runtime-contract/src/session-handoff.ts:7-11 | escaped text can be read back |
| SessionHandoff.QuotedFits | packages/agent-runtime-contract/src/session-handoff.ts:7-14 | quoted text has no angle bracket and at most 29,028 characters |
| SessionHandoff.QuotedKeepsEnd | packages/agent-runtime-contract/src/session-handoff.ts:7-14 | quoting says all of the escaped text, or that it is truncated and then its last 29,000 characters |
| SessionHandoff.RetractedSaysNothing | packages/agent-runtime-contract/src/session-handoff.ts:16-19 | a retracted part leaves no trace in its message |
| SessionHandoff.TextIsSaid | packages/agent-runtime-contract/src/session-handoff.ts:25-34 | a text is said under its author's label, and only users, agents and assistants have one |
| SessionHandoff.ToolIsSaid | packages/agent-runtime-contract/src/session-handoff.ts:18-22 | a finished tool says its name, how it ended and what it returned; an unfinished one nothing |
| SessionHandoff.ErrorIsSaid | packages/agent-runtime-contract/src/session-handoff.ts:28-33 | a turn that ended in an error says so, even with nothing else |
| SessionHandoff.MessageFits | packages/agent-runtime-contract/src/session-handoff.ts:25-34 | one message always fits a transcript |
| SessionHandoff.RenderSessionTranscript | packages/agent-runtime-contract/src/session-handoff.ts:36-48 | the backward loop keeps newest messages until one more would not fit, and always the newest |
| SessionHandoff.TranscriptIsLongest | packages/agent-runtime-contract/src/session-handoff.ts:36-48 | the transcript is the longest run of newest non-empty messages that fits 60,000 characters, without angle brackets |

## Left out

- Reading files, resolving specifiers, providers, the network, randomness and the clock: they are parameters or arbitrary step labels. Attempt states, connection ids, serializer keys, module and package ids are numbers, fresh where the source draws them at random.
- Tool-name alias tables and the Claxedo tool list: a tool part carries its name, canonical name, Claxedo name and subagent flag as given.
- The promise-level serialization of polls per attempt (`devicePolls`): the attempt theorems hold for any number of overlapping polls, so they do not use it; the same tail pattern is what `KeyedSerializer.dfy` covers.
- Attempt context and routing maps, `inspect`, `ownership` and `dispose`: carried or dropped unchanged.
- `remove`, `removeOwner`, `reverify` and token refresh: with removals a row can outlive its credential midway, so the pairing is stated for runs that only connect.
- `KeyedSerializer.clear` and `singleFlightUntil`: teardown, and a smaller instance of the same bookkeeping.
- Host paths: lower-casing is any per-character map that keeps the separator (`WithinExactly`: and the slash); platform lower-casing that changes a text's length is not covered.
- JavaScript numbers: counts, sizes and positions are unbounded integers; the bubble width `floor(cols * 0.8)` is computed as `cols * 4 / 5`.
- How numbers other than natural ones are written and read is a parameter of the feed: any way that writes each in one word that is no digits and reads it back as the same number.
- Text length counts Dafny characters, where the source counts UTF-16 units.
- The specifier in `shortestChain`'s predicate for modules: modules are judged by id, package edges by anything the edge says. The order of `walk`'s sorted lists, and its list of package names, which its package edges already tell.
- Regrouping is stated for turns in which no part was opened by hand, or folding was chosen by hand: the line estimate, the only caller that regroups, knows of no opened part.
- The header projection of tool parts in a sent turn, and its byte count: a page is stated for any byte measure of a turn.
