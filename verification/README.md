# Verified models of the Limcode Test core

A Dafny project that models the hard parts of the Limcode Test extension and proves what each one is for. Text and
protocol code become functions and lemmas. Code that changes things step by step becomes methods and classes; each
is proved against a specification function, and the properties are proved about that function. Each module names
the file it models at its head.

`dafny verify dfyconfig.toml` checks everything.

| module | what it models | central theorem |
|---|---|---|
| EditScripts, EditGrid, MyersDiff, LineDiff, Hunks | the line diff (`backend/capabilities/fileDiff.ts`) | the diff replays to both texts and is a shortest one exactly when the search limits allow it; the hunks patch the old text into the new one |
| ResponsesSession | the WebSocket session that sends only the end of its history (`backend/capabilities/openAIResponsesWebSocketSession.ts`) | in every run the server answers from the full input, with nothing added but the tails of the last calls, each in its own place |
| ContinuationProjection, TerminalProjection, StreamRecord, StreamRoundTrip | the accumulator that checks a stream against its terminal output (`backend/capabilities/openAIResponsesContinuationProjection.ts`) | a projection is yielded exactly when the chunks spell out the terminal output, and a turn streamed in the regular way comes back whole |
| OwnerClaim | the workspace lock made of directory renames (`vscode/WorkspaceRuntimeOwnerClaim.ts`) | no two live owners while no liveness check is late, and such a check can bring two about |
| ToolCallRepair | matching tool responses with calls (`backend/capabilities/llmProvider.ts`) | after repair nothing is open or orphaned, exactly when no content reuses an open id |
| ParentChains, HistoryForest, HistoryPages | the history forest and its pages (`shared/conversationHistoryTree.ts`) | any parent links, cycles included, give a forest that lists every conversation once |
| RunScope | runs and their conversations (`shared/clientStateConversationScope.ts`) | the loop computes the least solution |
| ClientFeed, FeedReplica | the bounded client's replica (`shared/reliableKernelClientFeed.ts`) | under loss, repetition and reordering the replica is a state the host was in |
| ChunkedBody, ResponseBody | chunked framing and the end of a body (`backend/capabilities/proxyFetch.ts`) | decoding inverts encoding, and where the network cuts the bytes does not matter |
| PreviewLexer, PreviewStream, PreviewText | the incremental JSON preview (`shared/toolCallPreview.ts`) | two deltas do what their concatenation does exactly when the second opens no field the first has decoded text for; a field shows the very text that was written, whatever its escapes and cuts |
| TaskList, TasksByKey | the task list replay (`shared/taskListProjection.ts`) | the keyed map with order numbers is an insertion-ordered list, and what an operation does to each key and to the order |
| WorkerPool, JobOutcomes | the worker pool (`backend/ecs/SystemWorkerPool.ts`) | no job is lost, none is settled twice, none waits beside a free slot, and each ends in the way and for the cause it should |
| StreamBatcher | the delta batcher (`backend/capabilities/llmStreamEventBatcher.ts`) | consumers cannot notice batching |
| BoundedAdmission | bounded admission (`backend/capabilities/boundedConcurrency.ts`) | slots are bounded and full, every result is in its own place |

Options holds the `Option` datatype.

Some properties do not hold for every input. There the model keeps the code as it is, and a lemma states the
condition under which the property holds:

- A diff is shortest exactly when the search does not give up or the trimmed middles share no line. With the default
  limits it gives up exactly beyond 1,000,000 table cells and 1,414 edits: the cell cap binds, and the cap of 4,000
  edits never does (`LineDiff.DefaultLimitsGiveUp`). It does happen, and then a shared line is lost
  (`LineDiff.GivingUpHappens`).
- Two live owners are possible after a process concluded from an old read that an owner is dead, when that owner had
  released its claim and exited in between. From any such step they are reachable, and such a step is reachable
  (`OwnerClaim.HazardBreaksExclusion`, `OwnerClaim.HazardIsReachable`). Without it there is never a second owner, and
  when reading and checking are one action it cannot happen (`OwnerClaim.AtomicExclusion`).
- Repair is complete exactly when every content answers an id before using it for another call
  (`ToolCallRepair.RepairIsCompleteExactly`). Distinct ids within each content are a special case
  (`ToolCallRepair.DistinctIdsAreRepaired`).
- The preview of a delta is right exactly when the delta does not reopen a field of which it already decoded some text
  (`PreviewLexer.AdvanceIsIdealExactly`). Where a stream is cut in two matters exactly when the second delta opens a
  field for which the first one has decoded text (`PreviewLexer.SplitInvariance`). When each field is opened at most
  once, no cuts matter (`PreviewStream.StreamInvariance`).
- Two deltas of one tool call merge faithfully exactly when no explicit `replace: false` follows a `replace: true`
  (`StreamBatcher.MergeCallExactly`).
  So batching is transparent in every run in which no call takes an earlier replacement of its id back
  (`StreamBatcher.NewBatcherIsTransparent`).
- A body of fixed length completes exactly when some event ends at its last byte (`ResponseBody.FixedLengthCompletes`).
- Every run keeps at most one task in progress exactly when none of the titles it may use normalizes to the empty key,
  or all of them do (`TaskList.OneActiveExactly`). The parser refuses blank titles.

## Model

| member | source | states |
|---|---|---|
| EditScripts.EditsFromKept | backend/capabilities/fileDiff.ts:92-110 | the add and del ops of a script are its old and new lines less two for every kept line |
| EditScripts.KeptAtMostLcs | backend/capabilities/fileDiff.ts:120-130 | no script keeps more lines than a longest common subsequence has |
| EditScripts.LcsScript | backend/capabilities/fileDiff.ts:132-157 | some script keeps exactly that many |
| EditScripts.ShortestMeetsDistance | backend/capabilities/fileDiff.ts:159-198 | a script is shortest among all scripts of the two texts exactly when its edits are the distance, which bounds every script from below |
| EditScripts.LcsCommonPrefix | backend/capabilities/fileDiff.ts:93-95 | a common prefix adds its length to the longest common subsequence |
| EditScripts.LcsCommonSuffix | backend/capabilities/fileDiff.ts:97-103 | a common suffix does too |
| EditScripts.LcsLast | backend/capabilities/fileDiff.ts:120-130 | the recurrence of the longest common subsequence also holds at the last lines, so tables filled from either end agree |
| EditGrid.CostIsDistance | backend/capabilities/fileDiff.ts:159-198 | the cost of a grid point is the edit distance of the two prefixes |
| EditGrid.CostAlongDiagonal | backend/capabilities/fileDiff.ts:180-188 | sliding down a diagonal never lowers the cost |
| EditGrid.CostOfDiagonal | backend/capabilities/fileDiff.ts:171-173 | a point on diagonal k costs at least abs(k) and has k's parity, so round d needs only every second diagonal from -d to d |
| EditGrid.CostBesideGrid | backend/capabilities/fileDiff.ts:172-184 | each step off the grid costs one edit more |
| EditGrid.CostPastCorner | backend/capabilities/fileDiff.ts:188-190 | a point past the corner costs more than the corner by the steps beyond it |
| EditGrid.CostOfOneMove | backend/capabilities/fileDiff.ts:174-179 | a horizontal or vertical move changes the cost by at most one |
| MyersDiff.EntryIsReachable | backend/capabilities/fileDiff.ts:172-179 | the neighbours a round reads are always stored, and the entry point it takes is reachable with d edits |
| MyersDiff.StepKeepsALine | backend/capabilities/fileDiff.ts:180-186 | while a farther point of the diagonal is within d edits, the next step on it keeps a line |
| MyersDiff.BeyondFurthest | backend/capabilities/fileDiff.ts:180-187 | no point of the diagonal within d edits lies beyond the furthest one |
| MyersDiff.SlideEndIsFurthest | backend/capabilities/fileDiff.ts:180-187 | the end of the slide is the furthest point of its diagonal reachable with d edits |
| MyersDiff.StopIsCorner | backend/capabilities/fileDiff.ts:188-190 | the search can stop only exactly at the corner, never off the grid, and only in the round that is the edit distance |
| MyersDiff.CornerCost | backend/capabilities/fileDiff.ts:188-190 | the corner's cost is the edit distance of the two texts |
| MyersDiff.CornerRoundStops | backend/capabilities/fileDiff.ts:188-190 | in the round of the edit distance the corner's diagonal does stop |
| MyersDiff.StoredDiagonalsShape | backend/capabilities/fileDiff.ts:166-175 | which diagonals are stored before round d, and how many they are |
| MyersDiff.CellsOfRound | backend/capabilities/fileDiff.ts:167-170 | the cells recorded by round d are the sizes of all the maps saved so far |
| MyersDiff.StoredAfterRound | backend/capabilities/fileDiff.ts:166-194 | after round d the stored diagonals are those the next round expects |
| MyersDiff.FollowDiagonal | backend/capabilities/fileDiff.ts:172-187 | one diagonal of a round arrives at the furthest point reachable with that many edits |
| MyersDiff.SearchRound | backend/capabilities/fileDiff.ts:171-195 | a round stops exactly when it is the edit distance, at the corner, and otherwise leaves what the next round reads |
| MyersDiff.DiffSegmentByMyers | backend/capabilities/fileDiff.ts:159-198 | gives a script exactly when the distance fits both limits, and then the script has exactly the distance's number of edits |
| MyersDiff.BacktrackMyersDiff | backend/capabilities/fileDiff.ts:200-247 | walking back over the saved maps reads no unset diagonal, never leaves the grid, and gives a script with exactly the search's number of edits |
| LineDiff.DefaultLimitsGiveUp | backend/capabilities/fileDiff.ts:4-6 | with the default limits the search is given up exactly beyond 1,000,000 table cells and 1,414 edits |
| LineDiff.DefaultSearchFits | backend/capabilities/fileDiff.ts:159-170 | the default search fits exactly up to distance 1,414, so the limit of 4,000 edits never binds |
| LineDiff.GivingUpHappens | backend/capabilities/fileDiff.ts:159-170 | two texts of more than a thousand lines for which the default search gives up and a line they share is not kept |
| LineDiff.TrimmedParts | backend/capabilities/fileDiff.ts:92-103 | both texts are the same prefix, their middle, and the same suffix |
| LineDiff.TrimmingKeepsDistance | backend/capabilities/fileDiff.ts:92-110 | a shared prefix and suffix leave the edit distance alone, so trimming loses nothing |
| LineDiff.FullReplacementReplays | backend/capabilities/fileDiff.ts:253-258 | deleting all and adding all is a script, with every line an edit |
| LineDiff.FillTable | backend/capabilities/fileDiff.ts:120-130 | every cell of the table is the length of a longest common subsequence of the two remainders |
| LineDiff.StuckAdds | backend/capabilities/fileDiff.ts:140-147 | after an addition the table walk adds on until it keeps a line |
| LineDiff.FullReplacementDeletesFirst | backend/capabilities/fileDiff.ts:253-258 | a full replacement deletes before it adds |
| LineDiff.DiffSegmentByTable | backend/capabilities/fileDiff.ts:120-157 | the table walk gives a script that keeps exactly the longest common subsequence, and within a changed block deletes first |
| LineDiff.DiffSegment | backend/capabilities/fileDiff.ts:112-118 | whichever branch is taken, a script; its edits are the distance unless both the table and the search are too large; deletions come first unless the search found it |
| LineDiff.TrimEnds | backend/capabilities/fileDiff.ts:93-103 | the two loops find the common prefix and the longest common suffix beside it |
| LineDiff.BuildRawDiffOps | backend/capabilities/fileDiff.ts:92-110 | always a script of the two texts, and a shortest one exactly when the search does not give up or the middles share no line; deletions come before additions within a block unless the search found it |
| Hunks.NumberDiffOps | backend/capabilities/fileDiff.ts:260-280 | every op gets the old and new line numbers it stands at |
| Hunks.HunkRanges | backend/capabilities/fileDiff.ts:282-293 | ranges are ordered, apart and inside the list, and they cover exactly the ops within the context distance of a change |
| Hunks.HeaderNamesPlace | backend/capabilities/fileDiff.ts:299-306 | a header's starts and counts name the place of its body in both texts, empty sides included |
| Hunks.SliceHeader | backend/capabilities/fileDiff.ts:295-306 | the header of a slice of the op list names the lines before the slice |
| Hunks.UnchangedGap | backend/capabilities/fileDiff.ts:282-293 | between ranges the old and new lines are the same |
| Hunks.PatchFrom | backend/capabilities/fileDiff.ts:295-313 | from any op on, applying the remaining hunks where their headers say writes the remaining new lines |
| Hunks.NoHunkForEqualTexts | backend/capabilities/fileDiff.ts:69-75 | a text compared with itself has no range |
| Hunks.BuildHunks | backend/capabilities/fileDiff.ts:68-79 | applying all hunks at their headers' places to the old text gives the new text; there are none exactly when the texts are equal; they are the slices near the changes of a script that is shortest unless the search gave up |
| RunScope.Propagate | shared/clientStateConversationScope.ts:109-119 | the loop ends, and each run then holds exactly the seeds of the runs connected to it; no smaller map contains the seeds and is closed under the links |
| RunScope.DerivableIsLeast | shared/clientStateConversationScope.ts:109-119 | any map that contains the seeds and is closed under the links holds everything derivable |
| RunScope.ClosedAlongPath | shared/clientStateConversationScope.ts:109-119 | in a closed map a conversation travels along any path of links |
| RunScope.PushAlong | shared/clientStateConversationScope.ts:264-283 | copying along one direction of a link keeps the map sound and shrinks what is missing, so the loop ends |
| RunScope.SoundAndClosed | shared/clientStateConversationScope.ts:95-122 | a map that is sound and closed is the least solution |
| OwnerClaim.StepKeepsInv | vscode/WorkspaceRuntimeOwnerClaim.ts:50-147 | publishing, reading, checking, isolating, releasing and exiting keep the lock's invariant, unless a check is late |
| OwnerClaim.RunKeepsInv | vscode/WorkspaceRuntimeOwnerClaim.ts:50-147 | so does every interleaving of them |
| OwnerClaim.MutualExclusion | vscode/WorkspaceRuntimeOwnerClaim.ts:65-84 | in every run without a late check at most one live process owns the workspace, and the claim directory is its own |
| OwnerClaim.AtomicObservationIsSafe | vscode/WorkspaceRuntimeOwnerClaim.ts:70-83 | a check right after its read is never late, so reading and checking as one step is safe |
| OwnerClaim.AtomicExclusion | vscode/WorkspaceRuntimeOwnerClaim.ts:65-84 | in every run in which each check comes right after its read there is at most one live owner |
| OwnerClaim.DeadClaimCanBeIsolated | vscode/WorkspaceRuntimeOwnerClaim.ts:137-147 | a dead owner's claim that is still in place is moved aside under the dead token |
| OwnerClaim.SecondStarterIsRefused | vscode/WorkspaceRuntimeOwnerClaim.ts:65-82 | while the owner lives and holds the claim a contender that lost is refused, and nothing else changes |
| OwnerClaim.RefusedStays | vscode/WorkspaceRuntimeOwnerClaim.ts:72-80 | and stays refused in every run |
| OwnerClaim.HazardBreaksExclusion | vscode/WorkspaceRuntimeOwnerClaim.ts:70-83 | after any late check some run has two live owners, so the condition cannot be weakened |
| OwnerClaim.HazardIsReachable | vscode/WorkspaceRuntimeOwnerClaim.ts:95-109 | a run from the start leads to a late check |
| OwnerClaim.CleanExitOpensHazard | vscode/WorkspaceRuntimeOwnerClaim.ts:111-135 | a clean release and exit between read and check makes the check late |
| OwnerClaim.ClaimForNewcomer | vscode/WorkspaceRuntimeOwnerClaim.ts:50-84 | when no live process holds the claim, a newcomer can always come to own it |
| ResponsesSession.BoundaryExactly | backend/capabilities/openAIResponsesWebSocketSession.ts:784-863 | an input that ends in the managed tail is cut just before it; any other is not cut, and the reason for a full request is the one its fault calls for |
| ResponsesSession.PrefixMismatchReason | backend/capabilities/openAIResponsesWebSocketSession.ts:899-907 | no reason exactly when the cached items are a prefix of the input; otherwise it names the first difference |
| ResponsesSession.WebSocketSession.InvalidateContinuation | backend/capabilities/openAIResponsesWebSocketSession.ts:1577-1581 | forgets the baseline and the count, and keeps the socket |
| ResponsesSession.WebSocketSession.CloseAndInvalidate | backend/capabilities/openAIResponsesWebSocketSession.ts:1560-1575 | drops socket and baseline together |
| ResponsesSession.WebSocketSession.EnsureSocket | backend/capabilities/openAIResponsesWebSocketSession.ts:568-641 | reuses the socket or opens a new one of the next generation without a baseline |
| ResponsesSession.WebSocketSession.StreamLocked | backend/capabilities/openAIResponsesWebSocketSession.ts:276-420 | one request: what is sent, and what the session believes afterwards for every outcome |
| ResponsesSession.MatchedHistory | backend/capabilities/openAIResponsesWebSocketSession.ts:743-782 | an incremental request is resolvable and its context is exactly what the calls since the last full one left behind, then its own new durable items, then its own tail |
| ResponsesSession.FullHistory | backend/capabilities/openAIResponsesWebSocketSession.ts:705-742 | for any other request the context is the input itself |
| ResponsesSession.DurableIsBaseline | backend/capabilities/openAIResponsesWebSocketSession.ts:386-419 | the new durable items and the outputs of a chain of calls add up to the baseline the client compares with |
| ResponsesSession.ChainRebuilds | backend/capabilities/openAIResponsesWebSocketSession.ts:743-782 | the context of a chain differs from the input only by the tails of its calls, at most 16, each right after the durable items it was sent with |
| ResponsesSession.RequestRebuildsInput | backend/capabilities/openAIResponsesWebSocketSession.ts:705-782 | from any sound state the server answers from the input, with nothing between the durable items but the tails of the calls since the last full one, each in its place; without tails, or in full, from exactly the input |
| ResponsesSession.StepKeepsInv | backend/capabilities/openAIResponsesWebSocketSession.ts:386-419 | completing, failing, rebasing, reconnecting and losing the socket keep the server holding exactly the new items, tail and output of each call since the last full one |
| ResponsesSession.RunKeepsInv | backend/capabilities/openAIResponsesWebSocketSession.ts:276-420 | so does every run |
| ResponsesSession.ContinuationSafety | backend/capabilities/openAIResponsesWebSocketSession.ts:705-782 | after any run from a new session the next request is resolvable, and rebuilds its input over the last calls of that very run |
| ResponsesSession.NewSocketStartsOver | backend/capabilities/openAIResponsesWebSocketSession.ts:618-624 | on a new socket everything is sent, and a lost socket takes its baseline along |
| ResponsesSession.NextTurnSendsOnlyNews | backend/capabilities/openAIResponsesWebSocketSession.ts:743-757 | a turn whose durable part goes on from the baseline sends only the new items and the tail |
| ResponsesSession.NextTurnContinues | backend/capabilities/openAIResponsesWebSocketSession.ts:743-757 | end to end, after any run: a reliable answer to durable items and a tail, then a call on the same socket with those items, the answer, some news and another tail, sends exactly the news and that tail and names the answered response |
| ToolCallRepair.PartKeepsValid | backend/capabilities/llmProvider.ts:3129-3152 | matching a part keeps ids and name queues true of the open calls; closed calls stay closed |
| ToolCallRepair.ContentsKeepValid | backend/capabilities/llmProvider.ts:3121-3152 | so does a whole conversation |
| ToolCallRepair.RepairIsComplete | backend/capabilities/llmProvider.ts:3121-3179 | when each content answers an id before using it again, normalizing the result finds no orphan and no open call |
| ToolCallRepair.RepairIsCompleteExactly | backend/capabilities/llmProvider.ts:3121-3202 | and only then |
| ToolCallRepair.DistinctIdsAreRepaired | backend/capabilities/llmProvider.ts:3121-3202 | distinct non-empty call ids within each content are enough |
| ToolCallRepair.ReuseLosesACall | backend/capabilities/llmProvider.ts:3132-3135 | a second call with an id that is still open leaves the first one unmatchable |
| ToolCallRepair.CanonicalIsUnchanged | backend/capabilities/llmProvider.ts:3164-3166 | contents without orphans and open calls come back as they are |
| ToolCallRepair.CallsAreConserved | backend/capabilities/llmProvider.ts:3156-3178 | answered calls and fallback responses together are all the calls |
| ToolCallRepair.OpenCallGetsFallback | backend/capabilities/llmProvider.ts:3156-3162 | a content with an open call gets fallback responses |
| ToolCallRepair.MatchExactly | backend/capabilities/llmProvider.ts:3181-3202 | a response answers the open call with its id, or else the oldest open call without an id under its name, and is an orphan exactly when there is neither |
| ToolCallRepair.FallbacksAnswer | backend/capabilities/llmProvider.ts:3156-3162 | each open call of a content has a fallback under its own id and name, and every fallback is one of these |
| ToolCallRepair.FallbacksNameCalls | backend/capabilities/llmProvider.ts:3216-3231 | the calls tracked are those of the contents in order, and every fallback names one of its content |
| ToolCallRepair.OrphanTextKeeps | backend/capabilities/llmProvider.ts:3204-3214 | the text in place of an orphan keeps its name, its id and its result |
| ToolCallRepair.NormalizeToolCallResponseContext | backend/capabilities/llmProvider.ts:3121-3179 | the loops compute the specified repair: contents and both counts |
| ToolCallRepair.NormalizeParts | backend/capabilities/llmProvider.ts:3129-3152 | the parts of one content, with the orphans among them |
| ToolCallRepair.VisitPart | backend/capabilities/llmProvider.ts:3130-3151 | one part: a call opens, a response closes the call of its id or else the oldest nameless call of its name, and one that closes nothing is an orphan |
| ToolCallRepair.CollectFallbacks | backend/capabilities/llmProvider.ts:3156-3162 | the fallbacks of every content, in the order of its calls |
| ToolCallRepair.AddFallbacks | backend/capabilities/llmProvider.ts:3168-3176 | the fallbacks follow their contents, and their count is right |
| ParentChains.PathSuffix | shared/conversationHistoryTree.ts:169-181 | the chain from an ancestor is the rest of the chain that reached it |
| ParentChains.AboveIsLinear | shared/conversationHistoryTree.ts:169-181 | two ancestors of one conversation are above one another |
| ParentChains.ParentIsAbove | shared/conversationHistoryTree.ts:169-181 | a parent is above its child, and never the other way round |
| ParentChains.ChildBetween | shared/conversationHistoryTree.ts:71-86 | every ancestor reaches a descendant through one of its children |
| ParentChains.SiblingsApart | shared/conversationHistoryTree.ts:71-86 | subtrees of siblings share no conversation |
| ParentChains.WalkEnds | shared/conversationHistoryTree.ts:169-181 | a walk that arrives at a root shows that its chain ends |
| ParentChains.LoopNeverEnds | shared/conversationHistoryTree.ts:169-181 | a walk that comes back to itself shows that its chain never ends |
| ParentChains.ParentPathContainsCycle | shared/conversationHistoryTree.ts:169-181 | the visited-set walk says yes exactly when the chain of parents does not end |
| HistoryForest.SelectConversationOriginLinks | shared/conversationHistoryTree.ts:157-167 | every conversation with a link gets its first one in the links' order, ties to the earlier |
| HistoryForest.EarliestMeans | shared/conversationHistoryTree.ts:210-215 | the earliest link was created first; ties go to the lower id, then to the first in the list |
| HistoryForest.IndexEntries | shared/conversationHistoryTree.ts:43-46 | every non-empty id has its last entry, and nothing else is listed |
| HistoryForest.ResolveParents | shared/conversationHistoryTree.ts:48-60 | the claims to a parent, and exactly those whose chain does not end |
| HistoryForest.KeptAllEnd | shared/conversationHistoryTree.ts:55-60 | once the cyclic claims are dropped every chain ends |
| HistoryForest.AttachNodes | shared/conversationHistoryTree.ts:62-86 | each node is attached once to the parent it keeps, and the roots are those without one |
| HistoryForest.SortGivesOrder | shared/conversationHistoryTree.ts:193-208 | sorting puts newer subtrees first, ties by the entries' order |
| HistoryForest.SortIsStable | shared/conversationHistoryTree.ts:189 | nodes that compare equal keep their order |
| HistoryForest.OrderMeans | shared/conversationHistoryTree.ts:193-208 | the order is the newest subtree first, then the entry updated last, then the one created last, then the greater id |
| HistoryForest.OrderIsUnique | shared/conversationHistoryTree.ts:193-208 | where different ids compare different, there is only one way to put siblings in order |
| HistoryForest.BelowIsTopAndChildren | shared/conversationHistoryTree.ts:183-191 | a subtree is its top and the subtrees of its children |
| HistoryForest.SettleNext | shared/conversationHistoryTree.ts:183-191 | settling one more sibling's subtree leaves the others settled |
| HistoryForest.RootsCoverAll | shared/conversationHistoryTree.ts:71-91 | every conversation is below some root |
| HistoryForest.UpdateSubtreeActivityAndSort | shared/conversationHistoryTree.ts:183-191 | within the subtree every latest time is its subtree's maximum and children are sorted; nothing outside changes |
| HistoryForest.BuildConversationHistoryForest | shared/conversationHistoryTree.ts:39-91 | for any entries and links: exactly the distinct non-empty ids, each with its last entry and first link; a claim is kept exactly when its chain ends; latest times are subtree maxima; siblings and roots are sorted |
| HistoryPages.FlattenLists | shared/conversationHistoryTree.ts:94-104 | a flattened subtree lists its conversations once each, parents before descendants |
| HistoryPages.FlattenAllLists | shared/conversationHistoryTree.ts:94-104 | so do sibling subtrees, one after the other |
| HistoryPages.ForestIsConserved | shared/conversationHistoryTree.ts:94-104 | the flattened forest lists every conversation of the table exactly once, each after its ancestors |
| HistoryPages.FlattenJoin | shared/conversationHistoryTree.ts:94-104 | flattening roots in two groups gives the two lists one after the other |
| HistoryPages.Append | shared/conversationHistoryTree.ts:98-101 | the recursive push adds exactly the subtree's list |
| HistoryPages.FlattenConversationHistoryForest | shared/conversationHistoryTree.ts:94-104 | the list of all roots' subtrees |
| HistoryPages.NormalizedPageSize | shared/conversationHistoryTree.ts:113 | whatever page size is asked for, the one used is a positive integer |
| HistoryPages.PackConversationHistoryForestIntoPages | shared/conversationHistoryTree.ts:109-131 | the pages together are the flat list; each holds whole trees, fits unless it is a single tree, and takes as many trees as fit |
| ClientFeed.FillBucket | shared/reliableKernelClientFeed.ts:467-476 | the bucket gets the records with a non-empty string id, later ones winning |
| ClientFeed.VisitArray | shared/reliableKernelClientFeed.ts:467-476 | an array under a known key fills the bucket of its type and no other |
| ClientFeed.Visit | shared/reliableKernelClientFeed.ts:461-480 | the nested visit collects the records anywhere in a value |
| ClientFeed.SeedRecordsFromSnapshot | shared/reliableKernelClientFeed.ts:403-483 | the buckets seeded from a snapshot are new objects that hold exactly the specified records |
| ClientFeed.CopyBucket | shared/reliableKernelClientFeed.ts:373-376 | a bucket is copied before its first change, and a missing one is created |
| ClientFeed.ApplyOne | shared/reliableKernelClientFeed.ts:363-388 | one change: upsert, remove or refusal, with writes only to buckets copied before |
| ClientFeed.ApplyToBuckets | shared/reliableKernelClientFeed.ts:361-389 | all changes or the first refusal; no bucket the client shares is written |
| ClientFeed.ApplyStops | shared/reliableKernelClientFeed.ts:363-388 | after a refused change no later one matters |
| ClientFeed.RequireSnapshotOf | shared/reliableKernelClientFeed.ts:485-497 | a rejection keeps the records, and a changed host or session empties them |
| ClientFeed.ApplyReliableKernelDataMessage | shared/reliableKernelClientFeed.ts:309-401 | the result for every message, and the state given is left as it was although buckets are shared |
| FeedReplica.SeededIsRows | shared/reliableKernelClientFeed.ts:403-483 | seeding by nested visits gives the table of all rows in a plain reading of the projections |
| FeedReplica.ChangesAreApplied | shared/reliableKernelClientFeed.ts:361-389 | sound changes are all taken, and the buckets follow the host's table |
| FeedReplica.RefusalKeepsRecords | shared/reliableKernelClientFeed.ts:485-497 | a rejected message sends no ack and changes no record; only a different host or session empties the state |
| FeedReplica.SnapshotIsTaken | shared/reliableKernelClientFeed.ts:318-344 | any snapshot that was sent puts the client in the host's state of that message, and is acknowledged |
| FeedReplica.NextIsTaken | shared/reliableKernelClientFeed.ts:350-397 | the next changes message moves the client to the host's next state, and is acknowledged |
| FeedReplica.TakesExactlyTheNext | shared/reliableKernelClientFeed.ts:346-360 | of the messages ever sent the client acknowledges exactly the snapshots and the one that is next |
| FeedReplica.DeliveryKeepsInSync | shared/reliableKernelClientFeed.ts:309-401 | whatever arrives, the client is blank or stands where the host once stood, and an ack is for just that place |
| FeedReplica.RunKeepsInSync | shared/reliableKernelClientFeed.ts:309-401 | for every sequence of deliveries with loss, repetition, reordering and mixed sessions |
| FeedReplica.CatchesUp | shared/reliableKernelClientFeed.ts:318-397 | from any state, a snapshot and the messages after it in order bring the client to the last of them |
| ChunkedBody.FoundStays | backend/capabilities/proxyFetch.ts:444 | a line end that was found stays found when more bytes come |
| ChunkedBody.TrailersStay | backend/capabilities/proxyFetch.ts:458-469 | decided trailers stay decided |
| ChunkedBody.StepStays | backend/capabilities/proxyFetch.ts:443-477 | a decided front of the data stays decided |
| ChunkedBody.DecodeInTwo | backend/capabilities/proxyFetch.ts:439-480 | decoding the whole equals decoding a part and then what was left of it with the rest |
| ChunkedBody.RoundTrip | backend/capabilities/proxyFetch.ts:439-480 | decoding any encoded body followed by other bytes gives the payloads, completes, and leaves just those bytes |
| ChunkedBody.CompleteIsCoded | backend/capabilities/proxyFetch.ts:439-480 | only encoded bodies are decoded to completion |
| ChunkedBody.HexValueOfDigits | backend/capabilities/proxyFetch.ts:447-455 | reading back the hexadecimal digits of a size gives the size |
| ChunkedBody.CanonicalSizes | backend/capabilities/proxyFetch.ts:447-455 | the plain size lines are accepted exactly up to the largest safe integer |
| ChunkedBody.AnySpellingIsRead | backend/capabilities/proxyFetch.ts:447-455 | a size in either case, with leading zeros, white space around it and any extension behind it is read as the number it spells |
| ChunkedBody.IndexOfCrlf | backend/capabilities/proxyFetch.ts:444 | the first line end from an offset on, or none |
| ChunkedBody.SkipTrailers | backend/capabilities/proxyFetch.ts:458-469 | the trailer loop ends after the empty line, waits, or refuses a line without a colon |
| ChunkedBody.ReadFront | backend/capabilities/proxyFetch.ts:443-477 | one turn of the loop at an offset reads what the specification reads at the front of the rest |
| ChunkedBody.DecodeChunkedStream | backend/capabilities/proxyFetch.ts:439-480 | the offset loop computes the recursive decoding |
| ResponseBody.BodyReader.Fail | backend/capabilities/proxyFetch.ts:279-288 | a failure is final, and a body that ended stays ended |
| ResponseBody.BodyReader.ProcessBodyData | backend/capabilities/proxyFetch.ts:306-335 | what every framing does with a piece of the body |
| ResponseBody.BodyReader.ValidateEof | backend/capabilities/proxyFetch.ts:401-422 | at the end of the connection only a complete framing closes cleanly |
| ResponseBody.RunAccounts | backend/capabilities/proxyFetch.ts:306-335 | in every run what was delivered is what the framing makes of the bytes taken so far |
| ResponseBody.CleanCloseIsComplete | backend/capabilities/proxyFetch.ts:401-422 | a clean close means a complete chunked body, exactly the announced length, or the end of the stream |
| ResponseBody.ChunkedSplitInvariance | backend/capabilities/proxyFetch.ts:306-335 | failing, completing and the delivered bytes of a chunked body depend only on the bytes, not on the cuts |
| ResponseBody.BrokenByData | backend/capabilities/proxyFetch.ts:306-319 | a chunked body fails while receiving only when its bytes are not well formed |
| ResponseBody.StaysDecided | backend/capabilities/proxyFetch.ts:439-480 | once failed or complete, further bytes change neither that nor the payloads |
| ResponseBody.FixedLengthCompletes | backend/capabilities/proxyFetch.ts:321-335 | a body of fixed length completes exactly when some piece ends at its last byte |
| ResponseBody.UntilEndCompletes | backend/capabilities/proxyFetch.ts:401-422 | a body that runs until the end completes exactly when the first event that is no data is the end |
| ResponseBody.EofExactly | backend/capabilities/proxyFetch.ts:401-422 | an end or close of an open body is a failure, except for the end of one that runs until it |
| PreviewLexer.StepIsSound | shared/toolCallPreview.ts:78-139 | text goes only to a field whose string was opened |
| PreviewLexer.CharKeepsAgreement | shared/toolCallPreview.ts:78-150 | after any character the buffered and the immediate reading differ by exactly the text lost to reopened fields |
| PreviewLexer.ScanAgrees | shared/toolCallPreview.ts:72-150 | over a delta; nothing is lost exactly when it reopens no field it had decoded text of |
| PreviewLexer.AdvanceIsIdealExactly | shared/toolCallPreview.ts:72-150 | advancing equals decoding character by character exactly when the delta reopens no such field |
| PreviewLexer.SplitInvariance | shared/toolCallPreview.ts:72-150 | advancing over a then b equals advancing over both at once exactly when b opens no field for which a has decoded text |
| PreviewLexer.PiecesWithoutReopening | shared/toolCallPreview.ts:72-150 | in particular when the whole reopens no field; and when neither piece reopens one alone, only then |
| PreviewStream.EachIsIdeal | shared/toolCallPreview.ts:72-150 | advancing over any number of deltas of which none reopens a field is decoding their text character by character |
| PreviewStream.OnceIsNotReopened | shared/toolCallPreview.ts:297-308 | a text that opens each field at most once, counting one open at its start, reopens none |
| PreviewStream.StreamInvariance | shared/toolCallPreview.ts:72-150 | when the whole stream opens each field at most once, any cut into any number of deltas gives the state of the whole |
| PreviewStream.MemberInPieces | shared/toolCallPreview.ts:120-138 | however it is cut, a field name, a colon and a quote, with any white space, open the field empty |
| PreviewStream.FragmentInPieces | shared/toolCallPreview.ts:368-407 | inside an open field, after any deltas, value and closed flag are what decoding their whole text at once gives, at every prefix of a well-formed body |
| PreviewStream.FieldInPieces | shared/toolCallPreview.ts:82-117 | from its key on, however it is cut, a member shows the direct decoding of its body, and no other field changes |
| PreviewStream.RepeatedFieldExactly | shared/toolCallPreview.ts:141-148 | when a field comes twice in one delta, with anything but quotes in between, it is shown rightly exactly when its first value is empty |
| PreviewText.EveryTextCanBeWritten | shared/toolCallPreview.ts:347-354 | every text of code units can be written as a JSON string |
| PreviewText.DigitsReadBack | shared/toolCallPreview.ts:384-393 | the four hexadecimal digits of a code unit, in either case, read back as that unit |
| PreviewText.ShortReadsBack | shared/toolCallPreview.ts:347-354 | every short escape reads back as the character it stands for |
| PreviewText.DecodesWhatWasWritten | shared/toolCallPreview.ts:368-407 | decoding a text written with any mix of plain characters, short escapes and digits gives back that text, closed by its quote |
| PreviewText.ShowsWhatWasWritten | shared/toolCallPreview.ts:72-150 | however its JSON is cut into deltas and escaped, a field shows the very text that was written, and no other field changes |
| PreviewLexer.Scanner.OpenIncrementalString | shared/toolCallPreview.ts:297-308 | opening a string resets its field and leaves the buffered text alone |
| PreviewLexer.Scanner.CloseIncrementalString | shared/toolCallPreview.ts:310-328 | closing a key remembers its name, closing a field marks it closed |
| PreviewLexer.Scanner.AppendDecodedCharacter | shared/toolCallPreview.ts:330-345 | a decoded character goes to the key or to the field's buffer |
| PreviewLexer.Scanner.ReadInString | shared/toolCallPreview.ts:82-118 | one character within a string |
| PreviewLexer.Scanner.ReadChar | shared/toolCallPreview.ts:79-139 | one character anywhere |
| PreviewLexer.AdvanceToolCallPreviewFields | shared/toolCallPreview.ts:72-150 | the loop and the final merge compute the specified state, from an empty one when replacing |
| PreviewLexer.DecodeJsonStringFragment | shared/toolCallPreview.ts:368-407 | the index loop computes the recursive decoding of the fragment |
| TaskList.InputsKeepOne | shared/taskListProjection.ts:365-384 | while inputs are applied the keys stay distinct, and unless an input has named a task to keep in progress there is at most one |
| TaskList.ApplyKeepsOne | shared/taskListProjection.ts:350-399 | an operation keeps the keys distinct and, its titles not being empty, at most one task in progress |
| TaskList.ReplayKeepsOne | shared/taskListProjection.ts:87-112 | so does every run from the empty list |
| TaskList.OneActiveExactly | shared/taskListProjection.ts:386 | every run over a set of titles keeps at most one task in progress exactly when no title of the set lacks a key, or all do |
| TaskList.ReplayInTwo | shared/taskListProjection.ts:95-111 | replaying a run in two parts is replaying it at once |
| TaskList.TailReplayIsFullReplay | shared/taskListProjection.ts:114-143 | the tail replayed on the tasks of the saved part gives the same tasks in the same order as the full replay |
| TaskList.StatsAddUp | shared/taskListProjection.ts:469-488 | the five counts add up to the number of tasks |
| TaskList.ComputeStats | shared/taskListProjection.ts:469-488 | the loop counts each status, the total and the unfinished ones |
| TaskList.SortKeepsOrder | shared/taskListProjection.ts:463 | items whose order numbers grow stay in place when sorted |
| TaskList.SortIsStable | shared/taskListProjection.ts:463 | sorting puts the items in order and leaves those that compare equal as they come, so none is lost or added |
| TaskList.SnapshotFromItems | shared/taskListProjection.ts:462-467 | for any items: the sorted list, its counts and the first task in progress; items whose order numbers grow stay as they are |
| TaskList.MaxCreatedOrder | shared/taskListProjection.ts:506-510 | the greatest order number, or -1 when there is none |
| TaskList.InsertionMap.Set | shared/taskListProjection.ts:376-383 | setting a key replaces its item in place or appends a new one |
| TaskList.InsertionMap.Delete | shared/taskListProjection.ts:369-373 | deleting a key closes the gap |
| TaskList.ApplyInputToMap | shared/taskListProjection.ts:365-384 | one input on the map with order numbers is one input on the plain list, and the order numbers keep growing |
| TaskList.ApplyInputsToMap | shared/taskListProjection.ts:365-384 | so are all inputs of an operation |
| TaskList.DemoteOthers | shared/taskListProjection.ts:386-396 | every other task in progress goes back to pending, in place |
| TaskList.LoadItems | shared/taskListProjection.ts:355-358 | the map starts as the snapshot's items in their order |
| TaskList.ApplyTaskListOperationToSnapshot | shared/taskListProjection.ts:350-399 | the tasks of the new snapshot are those of the ordered list after the operation; order numbers stay distinct and growing, stats right |
| TaskList.BuildTaskListTimeline | shared/taskListProjection.ts:87-112 | the full replay: the ordered list after all applied calls |
| TaskList.NextOperationIndex | shared/taskListProjection.ts:512-516 | the first operation index whose order numbers are above all those in the snapshot |
| TaskList.ApplyTaskListOperationsAfterMessageSeq | shared/taskListProjection.ts:114-143 | the ordered list after the calls later than the saved position |
| TaskList.ReplayBothWays | shared/taskListProjection.ts:87-143 | the snapshots of the two replays show the same tasks in the same order, the same counts and the same active task, whatever index the tail starts from |
| TasksByKey.UpdateByKey | shared/taskListProjection.ts:350-399 | after an update the keys are those not deleted, where they were, then those added, as they were last added; each key's task is what its own inputs make of it, back to pending if another was started last |
| TasksByKey.RewriteForgets | shared/taskListProjection.ts:355-363 | a rewrite does not look at the list it is given |
| TasksByKey.RewriteByKey | shared/taskListProjection.ts:355-363 | after a rewrite there are exactly the keys whose last input is no deletion, in the order in which they were added |
| TasksByKey.TaskAfterExactly | shared/taskListProjection.ts:365-384 | a key no input names keeps its task; a named one has the title of its last input and what that gives, the rest as it was just before or the defaults |
| TasksByKey.InputsByKey | shared/taskListProjection.ts:365-384 | applying inputs to the list is applying them to each key by itself |
| TasksByKey.InputsInOrder | shared/taskListProjection.ts:365-384 | and the order of the keys is that of an insertion-ordered map |
| TasksByKey.InputsStart | shared/taskListProjection.ts:365-384 | the task kept in progress is that of the last input that leaves one so |
| WorkerPool.DrainOnceKeepsInv | backend/ecs/SystemWorkerPool.ts:73-84 | starting one job keeps the invariant and takes the oldest job |
| WorkerPool.DrainKeepsInv | backend/ecs/SystemWorkerPool.ts:73-84 | the recursive drain ends, and after it a job waits only when all maxSize slots are busy |
| WorkerPool.DrainTwice | backend/ecs/SystemWorkerPool.ts:73-84 | a second drain does nothing, so the recursion from a failed start is harmless |
| WorkerPool.GiveUpKeepsJobs | backend/ecs/SystemWorkerPool.ts:152-165 | taking a job off its slot and settling it loses no job and settles none twice |
| WorkerPool.FailKeepsInv | backend/ecs/SystemWorkerPool.ts:152-165 | so does a failing worker, also one that has failed before |
| WorkerPool.MessageKeepsInv | backend/ecs/SystemWorkerPool.ts:129-145 | so does any message, expected, foreign or malformed |
| WorkerPool.SubmitKeepsInv | backend/ecs/SystemWorkerPool.ts:43-52 | so does a new job, also on a disposed pool |
| WorkerPool.DisposeSettlesAll | backend/ecs/SystemWorkerPool.ts:54-71 | after dispose every job ever submitted is settled, exactly once |
| WorkerPool.EventKeepsInv | backend/ecs/SystemWorkerPool.ts:43-170 | every event keeps the invariant, only adds settlements, and leaves no job waiting beside a free slot |
| WorkerPool.RunKeepsInv | backend/ecs/SystemWorkerPool.ts:43-170 | so in every run each job is in exactly one of queue, slot and settlement, and live slots stay within maxSize |
| JobOutcomes.DrainStarts | backend/ecs/SystemWorkerPool.ts:73-84 | a drain starts the first jobs of the queue in order: each is on a slot of its own, or rejected if it cannot be posted, and no other job moves |
| JobOutcomes.EventEnds | backend/ecs/SystemWorkerPool.ts:43-165 | every event but a disposal settles just the job of its own slot, before any job is started |
| JobOutcomes.StepSettles | backend/ecs/SystemWorkerPool.ts:43-170 | what one event settles: resolved exactly the job its slot answered with that output, rejected exactly those that lost their worker, could not be posted, or were live at the disposal |
| JobOutcomes.RunCarries | backend/ecs/SystemWorkerPool.ts:43-52 | in every run job n carries the n-th accepted input |
| JobOutcomes.JobsEndForCause | backend/ecs/SystemWorkerPool.ts:43-170 | in every run a job is settled in a way exactly when some event of the run caused just that |
| WorkerPool.SystemWorkerPool.TakeIdle | backend/ecs/SystemWorkerPool.ts:86-92 | the latest idle slot that is still live |
| WorkerPool.SystemWorkerPool.CreateIfAvailable | backend/ecs/SystemWorkerPool.ts:94-114 | a new slot while fewer than maxSize are live |
| WorkerPool.SystemWorkerPool.DrainQueue | backend/ecs/SystemWorkerPool.ts:73-84 | the pool after the specified drain |
| WorkerPool.SystemWorkerPool.Start | backend/ecs/SystemWorkerPool.ts:116-127 | the job runs on the slot, or posting fails, which rejects it and drains on |
| WorkerPool.SystemWorkerPool.Release | backend/ecs/SystemWorkerPool.ts:147-150 | a live slot becomes idle, a closed one does not |
| WorkerPool.SystemWorkerPool.RunJob | backend/ecs/SystemWorkerPool.ts:43-52 | a job gets the next number and waits or starts; a disposed pool refuses it |
| WorkerPool.SystemWorkerPool.FailWorker | backend/ecs/SystemWorkerPool.ts:152-165 | the slot is gone, its job rejected, the queue drained |
| WorkerPool.SystemWorkerPool.ReceiveMessage | backend/ecs/SystemWorkerPool.ts:129-145 | a matching answer settles the slot's job and frees the slot, any other message fails it |
| WorkerPool.SystemWorkerPool.DisposeAll | backend/ecs/SystemWorkerPool.ts:54-71 | queue and slots are emptied, and their jobs rejected in order |
| StreamBatcher.MergeCallExactly | backend/capabilities/llmStreamEventBatcher.ts:241-246 | two deltas of one call merge faithfully for every consumer exactly when no explicit false follows a replacing one |
| StreamBatcher.MergeCallsTakes | backend/capabilities/llmStreamEventBatcher.ts:228-249 | merging two lists of call deltas does to every consumer what both lists do, unless a call takes back a replacement it is merged into |
| StreamBatcher.MergeTakesBoth | backend/capabilities/llmStreamEventBatcher.ts:162-206 | so does merging any two adjacent deltas: text, thought, signature and arguments |
| StreamBatcher.FlushKeepsInv | backend/capabilities/llmStreamEventBatcher.ts:80-89 | flushing brings the consumer to where it would be without batching |
| StreamBatcher.QueueKeepsInv | backend/capabilities/llmStreamEventBatcher.ts:100-119 | queueing a delta keeps consumer, counts and limits right, whether it merges, flushes first or fills the batch |
| StreamBatcher.ActionKeepsInv | backend/capabilities/llmStreamEventBatcher.ts:121-152 | any emission, flush or disposal does too, and at an event that is no delta the consumer is exactly where it would be |
| StreamBatcher.BatchingIsTransparent | backend/capabilities/llmStreamEventBatcher.ts:44-153 | over every run with any timing of flushes, unless a call takes back a replacement still pending; raw deltas equal delivered plus pending ones |
| StreamBatcher.NothingBackIsHarmless | backend/capabilities/llmStreamEventBatcher.ts:228-249 | no call takes back a pending replacement when none in the run carries an explicit false after a replacing one of its id |
| StreamBatcher.NewBatcherIsTransparent | backend/capabilities/llmStreamEventBatcher.ts:44-153 | so every such run of a new batcher, whatever its limits, brings the consumer to where it would be without batching |
| StreamBatcher.MergesExactly | backend/capabilities/llmStreamEventBatcher.ts:162-217 | two deltas merge exactly when they are of one kind, on one stream, unnumbered, and of one signature |
| StreamBatcher.WaitsToMerge | backend/capabilities/llmStreamEventBatcher.ts:100-119 | a delta that belongs to the pending one is merged and not delivered while both limits allow more |
| StreamBatcher.RunBuffers | backend/capabilities/llmStreamEventBatcher.ts:100-119 | in every run what is pending stands for the last deltas handed in, and the character count is the length of their text |
| StreamBatcher.NothingFollowsTerminal | backend/capabilities/llmStreamEventBatcher.ts:121-139 | after the terminal event no action delivers anything |
| StreamBatcher.MergeToolCallArgumentDeltas | backend/capabilities/llmStreamEventBatcher.ts:228-249 | the loop with an index by id computes the specified merge |
| StreamBatcher.LlmStreamEventBatcher.FlushPending | backend/capabilities/llmStreamEventBatcher.ts:80-89 | delivers what is pending and counts it |
| StreamBatcher.LlmStreamEventBatcher.QueueMergeable | backend/capabilities/llmStreamEventBatcher.ts:100-119 | merges or flushes, then holds back, then flushes at a limit |
| StreamBatcher.LlmStreamEventBatcher.EmitEvent | backend/capabilities/llmStreamEventBatcher.ts:121-139 | deltas are queued; other events follow what is pending; a terminal one is the last |
| StreamBatcher.LlmStreamEventBatcher.DisposeBatcher | backend/capabilities/llmStreamEventBatcher.ts:144-150 | flushes or drops what is pending, once |
| BoundedAdmission.LaunchFills | backend/capabilities/boundedConcurrency.ts:53-77 | launching admits values in order until every slot is held or none is left |
| BoundedAdmission.ReleaseFills | backend/capabilities/boundedConcurrency.ts:61-66 | a released slot is given to the next value at once |
| BoundedAdmission.ReleaseKeepsInv | backend/capabilities/boundedConcurrency.ts:61-66 | a release keeps the invariant, also a repeated one and one after the end |
| BoundedAdmission.SettleKeepsInv | backend/capabilities/boundedConcurrency.ts:79-94 | settling writes one result at its own index and resolves when all are there |
| BoundedAdmission.AbortKeepsInv | backend/capabilities/boundedConcurrency.ts:41-50 | an abort gives up all slots and signals every launched worker that has not settled |
| BoundedAdmission.AbortExactly | backend/capabilities/boundedConcurrency.ts:41-50 | an abort of a running batch ends it, signals exactly the launched workers that have not settled, and launches and writes nothing |
| BoundedAdmission.EventKeepsInv | backend/capabilities/boundedConcurrency.ts:35-102 | every possible event keeps the invariant |
| BoundedAdmission.BeginIsSound | backend/capabilities/boundedConcurrency.ts:96-101 | so does the beginning, with no values or already aborted |
| BoundedAdmission.BeginExactly | backend/capabilities/boundedConcurrency.ts:96-101 | a batch that is already aborted launches nothing, an empty one is over, any other launches as many as it may |
| BoundedAdmission.RunKeepsInv | backend/capabilities/boundedConcurrency.ts:35-102 | in every run held slots stay within `concurrency` and none is free while a value waits; it resolves only with all results in place; after an end no worker starts |
| BoundedAdmission.FinishedStays | backend/capabilities/boundedConcurrency.ts:41-50 | after resolving or aborting nothing changes and no worker is called |
| BoundedAdmission.AdmissionBatch.LaunchAvailable | backend/capabilities/boundedConcurrency.ts:53-77 | the launch loop computes the specified launch |
| BoundedAdmission.AdmissionBatch.ReleaseAdmission | backend/capabilities/boundedConcurrency.ts:61-66 | a first release frees the slot and launches again, a later one does nothing |
| BoundedAdmission.AdmissionBatch.SettleWorker | backend/capabilities/boundedConcurrency.ts:79-94 | the result, the slot and the end, unless the batch is over |
| BoundedAdmission.AdmissionBatch.FinishAborted | backend/capabilities/boundedConcurrency.ts:41-50 | a running batch ends aborted, an ended one is left alone |
| ContinuationProjection.ItemForKeeps | backend/capabilities/openAIResponsesContinuationProjection.ts:411-450 | finding, naming or creating the item of an event rewrites no text |
| ContinuationProjection.PieceKeepsItem | backend/capabilities/openAIResponsesContinuationProjection.ts:156-185 | a piece added to the last or the next block keeps the text equal to the blocks joined by newlines |
| ContinuationProjection.AddDeltaKeeps | backend/capabilities/openAIResponsesContinuationProjection.ts:160-166 | so does a delta |
| ContinuationProjection.AddFullTextKeeps | backend/capabilities/openAIResponsesContinuationProjection.ts:167-184 | so does a full text, which adds just what was missing or makes the stream untrusted |
| ContinuationProjection.CanonicalKeeps | backend/capabilities/openAIResponsesContinuationProjection.ts:140-205 | so does any reasoning event, in or out of order |
| ContinuationProjection.ValidateKeeps | backend/capabilities/openAIResponsesContinuationProjection.ts:308-322 | an item's terminal event can only complete its text or make the stream untrusted |
| ContinuationProjection.ObserveKeeps | backend/capabilities/openAIResponsesContinuationProjection.ts:65-75 | every event keeps the invariant, only appends to texts, and forgets no reason for distrust |
| ContinuationProjection.RunKeeps | backend/capabilities/openAIResponsesContinuationProjection.ts:65-75 | over every sequence of events: until its terminal event an item's text is its blocks joined, numbered from 0 without a gap |
| StreamRecord.EventIsRecorded | backend/capabilities/openAIResponsesContinuationProjection.ts:207-255 | an event adds just its visible text, the thought it shows, and its calls |
| StreamRecord.CallsAreRecorded | backend/capabilities/openAIResponsesContinuationProjection.ts:234-255 | the first call with each id is kept, in order, and the stream stays trusted exactly while every call has an id and repeats say the same |
| StreamRecord.RunIsRecorded | backend/capabilities/openAIResponsesContinuationProjection.ts:65-75 | after any run the visible text is the chunks' texts in order, the thought text the shown thoughts in order, and the calls the first ones with each id; a call without an id, or one that changed, ends the trust |
| StreamRecord.SpelledOutAgrees | backend/capabilities/openAIResponsesContinuationProjection.ts:368-409 | the terminal members agree with the record exactly when the chunks of the run spell them out |
| StreamRecord.YieldsExactly | backend/capabilities/openAIResponsesContinuationProjection.ts:77-128 | a run yields a projection exactly when it is trusted, its chunks spell out the terminal output, and that can be encoded |
| StreamRoundTrip.PiecesAreTaken | backend/capabilities/openAIResponsesContinuationProjection.ts:140-205 | the pieces of a summary make one reasoning item with their text, its blocks a line each |
| StreamRoundTrip.StreamedIsHeld | backend/capabilities/openAIResponsesContinuationProjection.ts:65-75 | after items streamed one after the other the accumulator holds exactly what they said, trusted |
| StreamRoundTrip.StreamIsHeld | backend/capabilities/openAIResponsesContinuationProjection.ts:140-205 | after the whole stream it holds them still; what it showed as thoughts are the summaries that are not empty, each from a new line on |
| StreamRoundTrip.TurnComesBack | backend/capabilities/openAIResponsesContinuationProjection.ts:77-128 | for every regular turn of reasoning, message and calls, cut into pieces in any way, the projection has exactly the parts the turn said, whether or not the completed event lists them |
| ContinuationProjection.Accumulator.Distrust | backend/capabilities/openAIResponsesContinuationProjection.ts:458-460 | the first reason is kept |
| ContinuationProjection.Accumulator.ReasoningItemForEvent | backend/capabilities/openAIResponsesContinuationProjection.ts:411-450 | the item by id or by output index, a new one, or a conflict |
| ContinuationProjection.Accumulator.RegisterSummaryBlock | backend/capabilities/openAIResponsesContinuationProjection.ts:187-205 | only the next block can be opened, and only the last one continued |
| ContinuationProjection.Accumulator.AddToBlock | backend/capabilities/openAIResponsesContinuationProjection.ts:156-184 | item, block and shown chunk after a delta or full text |
| ContinuationProjection.Accumulator.CanonicalThought | backend/capabilities/openAIResponsesContinuationProjection.ts:140-185 | the chunk to show and the state after any reasoning event |
| ContinuationProjection.Accumulator.CaptureTerminalEvidence | backend/capabilities/openAIResponsesContinuationProjection.ts:257-306 | done items and the completed output are kept, conflicting ones distrusted |
| ContinuationProjection.Accumulator.WithReasoningItemBoundary | backend/capabilities/openAIResponsesContinuationProjection.ts:130-138 | a new reasoning item is shown apart from the text before it |
| ContinuationProjection.Accumulator.AccumulateFunctionCall | backend/capabilities/openAIResponsesContinuationProjection.ts:234-255 | calls are kept by id, and a changed one is distrusted |
| ContinuationProjection.Accumulator.AcceptSignature | backend/capabilities/openAIResponsesContinuationProjection.ts:212-225 | a signature belongs to one item and does not change |
| ContinuationProjection.Accumulator.AccumulateChunk | backend/capabilities/openAIResponsesContinuationProjection.ts:207-232 | texts, signature and calls of a chunk are added |
| ContinuationProjection.Accumulator.ValidateReasoningTerminal | backend/capabilities/openAIResponsesContinuationProjection.ts:308-322 | the item's text becomes its terminal summary if that extends it |
| ContinuationProjection.Accumulator.ObserveEvent | backend/capabilities/openAIResponsesContinuationProjection.ts:65-75 | one event: the chunk to show and the whole new state |
| TerminalProjection.Problem | backend/capabilities/openAIResponsesContinuationProjection.ts:368-409 | no problem exactly when the kinds count up and every member agrees with the stream |
| TerminalProjection.ProjectionAgrees | backend/capabilities/openAIResponsesContinuationProjection.ts:77-128 | a yielded projection comes from a trusted stream, its parts say member by member what the terminal output says, and its output items are the encoding of just those parts |
| TerminalProjection.ProjectionExactly | backend/capabilities/openAIResponsesContinuationProjection.ts:77-128 | a projection is yielded exactly when the stream is trusted, agrees with a terminal output, and its parts can be encoded |
| TerminalProjection.DistrustIsFinal | backend/capabilities/openAIResponsesContinuationProjection.ts:77-82 | once distrusted, no later events lead to a projection |
| TerminalProjection.MatchedIsCompleted | backend/capabilities/openAIResponsesContinuationProjection.ts:344-363 | a matching keeps every completed item in its place, and each done item it consumed says the same as one of them |
| TerminalProjection.TerminalIsTheOutput | backend/capabilities/openAIResponsesContinuationProjection.ts:324-366 | the terminal items are the completed output with every done item accounted for, or the done items by output index when that output is empty |
| TerminalProjection.DoneInAnyOrder | backend/capabilities/openAIResponsesContinuationProjection.ts:324-342 | done items with the output indexes 0 to n-1, each once and in any order, always give terminal items, each at its index |
| TerminalProjection.MatchCompleted | backend/capabilities/openAIResponsesContinuationProjection.ts:344-363 | the loop with its consumed set computes the specified matching |
| TerminalProjection.ValidateTerminalProjection | backend/capabilities/openAIResponsesContinuationProjection.ts:368-409 | the member loop and the counts find the first problem, or none |

## Left out

- The text of a unified diff, its truncation, the replacement hunks for edits and `countDiffStats`; lines arrive already split.
- Sockets, TLS, HTTP header parsing, idle and overall deadlines, timers and worker threads: they are events or parameters of the models.
- The pool of sessions with its eviction, and the queue in front of a session: one request at a time is taken for granted.
- `MergeableAsyncQueue`, `mergeDeltaEvents` and `captureToolCallArgumentDeltas` of the WebSocket session.
- Hashes and canonical JSON text: items, requests and signatures are compared as values.
- ResponsesSession.ContinuationSafety: the server is modelled as remembering, per response id and socket, the request's context and its output; that a trusted terminal output is what the server remembers is assumed of each event.
- RunScope.Propagate: the loops that collect the seed conversations before line 109 are left out; any seed map is allowed.
- OwnerClaim.MutualExclusion: processes are tokens and death is a set of tokens; clocks, process ids, retry delays and failing disk operations are not modelled.
- ToolCallRepair.NormalizeToolCallResponseContext: ids arrive trimmed, and the fixed wording of fallback results and of the text around an orphan is left out.
- HistoryForest.BuildConversationHistoryForest: nodes are records in a table by id rather than objects that point to one another, so sharing of nodes is not captured; collation is a rank per text.
- HistoryForest.UpdateSubtreeActivityAndSort: the order of children whose ids differ but compare equal is stated for the sort (SortIsStable), not for the forest as a whole.
- The scope filter and `summarizeDescendantAgents` of the history tree.
- ClientFeed.ApplyReliableKernelDataMessage: the tables of array keys and change types are parameters, and decimal strings are numbers.
- FeedReplica.RunKeepsInSync: the channel delivers messages that were sent, or malformed ones; altered but well-formed messages are not considered.
- ChunkedBody.DecodeChunkedStream: bytes are unbounded integers; no operation depends on their range.
- ResponseBody.ChunkedSplitInvariance: of a malformed body, how much is delivered before the failure depends on the cuts and is not stated.
- Preview texts and titles, `appendToolCallPreviewArguments` and the regular expression that finds a field in a finished source.
- TaskList.BuildTaskListTimeline: the order of the calls, whether each was applied, and its parsed operation are given; change kinds and timeline entries are left out.
- TaskList.ReplayBothWays: the values of the order numbers differ between the two replays and are not compared.
- WorkerPool.SystemWorkerPool.CreateIfAvailable: slots are keys of a table and creating a worker does not fail.
- StreamBatcher.BatchingIsTransparent: the batcher's timer is a flush at any time; durations and start times are not part of the metrics, and disposing without a flush is excluded while something is pending, since it drops it.
- BoundedAdmission.RunKeepsInv: a worker's first turn, releases and settling come in any possible order; the exact order of promise callbacks is not modelled.
- The two simpler variants in `backend/capabilities/boundedConcurrency.ts`.
- ContinuationProjection.RunKeeps: JSON records are reduced to the parts that are compared, the parts of a chunk to their joined texts; that an item had its terminal event is a history variable.
- TerminalProjection.ProjectionExactly: the encoder of the parts is a parameter, so what its output items look like is not described.
- Provider setup, retries, prompts and settings around these components.
- StreamRoundTrip.TurnComesBack: a regular turn streams its items one after the other and its summaries as deltas; for full-text events and interleaved items only StreamRecord.YieldsExactly and ContinuationProjection.RunKeeps are stated.
