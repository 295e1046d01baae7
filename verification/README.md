# Verified model of the chat and document-index core

A Dafny 4.11 project that models the stateful core of the repository and proves what it is meant to keep.
`dafny verify dfyconfig.toml` checks all of it.

## What is modelled

**The chat-run lifecycle** (`ChatData`, `ChatStore`, `ChatProtocol`, `ChatSafety`, `ChatTheorems`,
`ChatMessages`, `ChatStatus`, `ChatRecovery`, `ChatPaths`, `ChatProgress`, `ChatWitness`). `ChatData` holds
the rows of runs, sessions and messages, the queue and the clock, and every change of them as a function.
`ChatStore` is the same operations on mutable tables, each method proved equal to its function and, beside
that, specified column by column. `ChatProtocol` interleaves them: any number of workers, clients and
sweepers, crashes at any step, duplicate messages, lease expiry, exceptions before a claim and after a final
commit. The theorems are about every reachable state and every behaviour; `ChatMessages` and `ChatStatus`
say where every stored text comes from and how every status moves, `ChatRecovery` says what is never lost
and exactly where the guarantees end, `ChatWitness` gives behaviours that reach those points, and
`ChatProgress` shows that one idle worker can finish every queued run of a session.

**The single-flight cache** (`SingleFlight`, `SingleFlightValues`, `SingleFlightAborts`): the critical
sections of `RunReuseCache` as steps of concurrent calls, with `close` at any moment; whose values the calls
return; and the loaders that end with an exception `except Exception` does not catch.

**Document trees**: Markdown extraction, thinning and the stack-based build (`Text`, `Filters`,
`MarkdownHeaders`, `Markdown`, `Thinning`, `ThinningLoop`, `TreeBuilder`, `Forest`); dotted codes
(`Decimal`, `TocTree`, `TocRoundTrip`); PDF outline end pages (`Outline`). A tree node is the index of its
list entry and its mutable child list is `kids[index]`, so appending to a parent found on a stack or in a
dict is an update in place.

**Refinements of simple specifications**: page retrieval and the lazily loaded workspace against a client
that keeps everything (`Retrieve`, `Workspace`); the history window (`History`); routing-index revisions
over all parse jobs (`RoutingVersion`); overlapping page groups (`PageGroups`); the incremental event
stream against the server's encoder (`EventStream`, `EventStreamLineEnds`); the table-of-contents repair
loop (`TocRepair`).

Functions that compute something by recursion are characterized without it: what a split, a stripped text, a
header, a page range, the nearest trusted entries, an average or a parsed event is, is said by quantifiers
over positions and pieces, and where it matters a lemma adds that nothing else has the property.

## Assumptions

* Starting a run (app/services/chat_service.py:1721-1756) and finalizing one (1671-1681) are one step
  each, and so are the sweep's select and commit (1636-1659) and the read and the write of a cancellation
  (1615-1627); a crash may fall between any other two steps. `CancelInsideStartLeaks`,
  `CrashInsideFinalizeLeaks`, `ClaimInsideSweep` and `ClaimInsideCancel` say exactly when finer
  interleavings break the claims.
* The lease of an executing run expires only after its worker has died (the guard of `Tick`).
* `(created_at, id)` grows in creation order within a session (the guard of `Create`). Run ids are
  numbers, so that they can be compared.
* Progress needs a lease longer than zero: with a lease of zero no time passes while a run is executed.
* Parse jobs of one document version run one at a time, and no other version of its document is parsed in
  between (`RoutingVersion`).
* The claims are about session-bound runs. A run without a session skips the slot, so its duplicates may
  execute together.
* A worker whose exception handler runs before its own claim does not finalize a session-bound run that
  another worker executes (the guard of `Fail`). `FailureIsSafeExactly` proves that this guard is exactly
  what the invariant needs; in every other state the handler is a step of the model.
* Identifiers drawn at random (`uuid4`) are fresh where `Create` and `CrashInsideSave` need them to be.
* Language-model calls, tokenizers, PDF files and checkers are arbitrary functions or arbitrary step
  parameters. Token counts are naturals.
* JSON written to a workspace file is read back unchanged, and a write outside the modelled crash
  completes.

## What does not hold

Where a property fails, a lemma gives the exact condition (for sharing after `close`, a necessary one),
and for the concurrent parts another one a behaviour that reaches it.

* A finished run stays finished, but a completed or cancelled one can still become failed: exactly when a
  failure handler finalizes it again (`ChatTheorems.FinalStatusExactly`, `ChatWitness.CompletedCanFail`).
* A handler that fails a run another worker executes breaks the serialization, and no other handler does
  (`ChatRecovery.FailureIsSafeExactly`, `UnownedFailureBreaksSerialization`,
  `ChatWitness.FailureBreaksTranscript`).
* A run created but never queued blocks its session exactly until it is queued or cancelled
  (`ChatRecovery.AcceptedRunBlocksSession`, `AcceptedExactly`, `ChatWitness.BlockedReachable`).
* A cancellation inside a start leaks the slot exactly when the claim goes through, a crash inside a
  finalization exactly when the run held the slot (`ChatRecovery.CancelInsideStartLeaks`,
  `CrashInsideFinalizeLeaks`); the leak ends exactly when a failure handler of a duplicate message runs
  (`LeakEndsExactly`). Both are reachable (`ChatWitness.CancelLeakReachable`, `CrashLeakReachable`).
* A claim between the select and the commit of a sweep leaves a worker executing a run without its slot
  exactly when the sweep has selected that run; a claim between the read and the write of a cancellation
  breaks the invariant whenever it succeeds (`ChatRecovery.ClaimInsideSweep`, `ClaimInsideCancel`,
  `ChatWitness.SweepRaceReachable`).
* A loader that ends with an exception outside `Exception` strands exactly the calls that wait for its
  future and those that look the key up while it is in flight for that future; all others return, however
  many loaders end like that (`SingleFlightAborts.StrandedExactly`, `OthersReturn`, `KeyIsLost`,
  `StrandingReachable`).
* After `close` two calls can load one key side by side (`SingleFlight.CloseEndsSharing`), but only once
  the cache has been cleared and the key has left flight between their look-ups (`TwoLoadersNeedClear`,
  `SecondLoaderNeedsRemoval`).
* A crash inside a save leaves the document unlisted exactly when a meta file existed; beside a nonempty
  one it is unknown until it is indexed again or a client starts after the meta file was lost, and exactly
  until then (`Workspace.CrashInsideSave`, `HiddenForever`).
* A routing revision is reused exactly when an index without nodes is followed by an outer failure
  (`RoutingVersion.ReuseExactly`), and with more than 28 digits the counter always turns back
  (`CounterTurnsBack`, `CounterCycles`).
* Re-execution selects another history exactly when the filtered transcript already ended with the
  question (`History.RerunSelectsSame`).
* An outline node reaches into the next node outside it, if that has a start other than 0, exactly when
  one of its descendants that is a later sibling starts behind that node (`Outline.OverlapsExactly`,
  `DisorderedOverlaps`); in page order a node gets no page exactly when the next one starts on its own
  page (`Outline.EmptyRange`).
* A table-of-contents item drops out of the incorrect list unfixed exactly when its own check raised in
  one of the rounds in which it was listed (`TocRepair.ItemFate`).
* The event splitter cuts only at "\n\n". That gives the events of the stream with normalized line ends
  exactly when in no piece of the stream a "\r" follows another line end
  (`EventStreamLineEnds.AgreesExactly`); a stream whose line ends all are CR LF is never cut
  (`CrLfIsNotABlankLine`).

## Model

| member | source | states |
|---|---|---|
| ChatStore.Store.CreatePendingRun | app/services/chat_service.py:1197-1280 | a new run enters as accepted, without heartbeat and without cancel flag; no other row changes |
| ChatStore.Store.MarkRunQueued | app/services/chat_service.py:1283-1293 | a missing run is reported; an accepted run becomes queued, any run gets a heartbeat and is pushed; all rows are those of the specification function |
| ChatStore.Store.ClaimSessionSlot | app/services/chat_service.py:1445-1460 | succeeds exactly when the run has no session, or the slot is free and no run of the session without a final status is older by time or by id; then, and only then, the slot names the run |
| ChatStore.Store.ReleaseSessionSlot | app/services/chat_service.py:1463-1474 | frees the slot only if it names this run |
| ChatStore.Store.FinalizeRun | app/services/chat_service.py:1663-1681 | status and heartbeat are written and the run's own slot is freed, nothing else |
| ChatStore.Store.RequestRunCancel | app/services/chat_service.py:1608-1631 | three outcomes: a finished run is left alone; an accepted or queued run gets the reason and becomes failed if that is the client's abort and cancelled otherwise, and lets go of its slot; an executing run only gets the flag and the reason |
| ChatStore.Store.StartRun | app/services/chat_service.py:1721-1756 | a finished or missing run is dropped; a waiting run with the cancel flag is finalized by its stored reason and dropped; any other is sent back unless it may claim its slot, and then becomes retrieving with a fresh heartbeat |
| ChatStore.Store.MarkOrphanedForRetry | app/services/chat_service.py:1634-1660 | the row-by-row loop requeues exactly the queued or executing runs whose last heartbeat is longer ago than the lease, frees exactly the slots that name one of them, and returns their ids, each once |
| ChatStore.Store.AppendMessage | app/services/session_service.py:117-157 | a message of the run and role that is there is returned and nothing changes; otherwise the transcript gets one message more, with this content and the number after the largest; a missing session is reported |
| ChatSafety.StepSound | app/services/chat_service.py:1713-1756 | every step of every worker, client, sweeper, clock and failure handler keeps the invariant: slots name active runs, older runs of an active run are finished, heartbeats are set, transcripts are serial, executing workers own their run, closing workers have finished theirs |
| ChatSafety.AppendTranscript | app/services/session_service.py:130-157 | appending a message of an unfinished run keeps a transcript serial, numbered and ordered, also when the message is already there |
| ChatSafety.SweepSound | app/services/chat_service.py:1634-1660 | the sweep keeps the invariant |
| ChatTheorems.ReachableInv | app/services/chat_service.py:1713-1756 | the invariant holds in every state of every behaviour |
| ChatTheorems.ExtendsBetween | app/services/chat_service.py:900-909 | over any number of steps rows persist, finished session-bound runs stay finished and new runs come later in their session |
| ChatTheorems.FinishedStaysFinished | app/services/chat_service.py:1663-1681 | a session-bound run with a final status has a final status for ever |
| ChatTheorems.FinalStatusExactly | app/services/chat_service.py:2986-3009 | the final status changes exactly when a failure handler finalizes the run again, before its worker's claim or after the final commit, and then to failed; otherwise it stays what it was |
| ChatTheorems.OneWorkerPerSession | app/services/chat_service.py:1445-1460 | however often a run is queued, at most one worker at a time is between start and finalize in a session, and the slot names its run |
| ChatTheorems.SlotNamesUnfinishedRun | app/services/chat_service.py:1463-1474 | a held slot names an unfinished run of that session |
| ChatTheorems.ClaimFindsOlderFinished | app/services/chat_service.py:900-909 | when a claim succeeds every older run of the session is finished |
| ChatTheorems.ClaimsNeverGoBack | app/services/chat_service.py:1445-1460 | in every behaviour the claimed runs of a session never decrease in (created_at, id), also after crashes and requeues |
| ChatTheorems.RenderBlocksOf | app/services/session_service.py:130-157 | reading a transcript as blocks and writing the blocks out again gives the transcript |
| ChatTheorems.TranscriptIsSerial | app/services/chat_service.py:1893-1902 | in every reachable state a transcript is the concatenation, in creation order, of one block per run, each a question or a question and an answer, numbered 1..n |
| ChatTheorems.TranscriptOnlyGrows | app/services/session_service.py:143-157 | messages are only ever added at the end |
| ChatMessages.MessagesAreFirstWrites | app/services/chat_service.py:2205-2214 | in every reachable state a transcript shows a text for a run and a role exactly if a worker executing the run wrote that text and nothing was written for them before: answers are stored as given, and a second attempt replaces nothing |
| ChatMessages.BlocksAreGiven | app/services/session_service.py:130-157 | the answer in a run's block is the first one a worker executing the run wrote, its question was written by such a worker and is the one the run was created with |
| ChatMessages.QuestionWasAsked | app/services/chat_service.py:1197-1280 | every run of a reachable state was created by a step with the session, time and question it has |
| ChatStatus.StatusMoves | app/services/chat_service.py:1608-1756 | which step moves a run's status where, exactly: queueing, cancelling a waiting run, the sweep over an expired one, a start (claimed, or dropped with the final status its reason gives), progress, the end of an execution, a failure handler; every other step leaves it alone |
| ChatStatus.CompletedIsAnswered | app/services/chat_service.py:2205-2214 | in every reachable state the transcript of a session shows an answer for each completed run, and a worker executing the run wrote it |
| ChatRecovery.NoRunIsLost | app/worker.py:201-213 | from any reachable state, once the lease of a queued or executing run has passed, a sweep by any idle worker leaves it queued, pushed and without a slot |
| ChatRecovery.LostPushIsRecovered | app/worker.py:201-213 | the same when the sweeper dies between its commit and its pushes |
| ChatRecovery.PushAll | app/worker.py:210-213 | a worker left alone pushes everything its sweep found, in order |
| ChatProgress.SessionProgress | app/services/chat_service.py:1713-1756 | from every state that satisfies the invariant the oldest unfinished run of a session, once queued, reaches a final status on a path without crashes, cancellations and failures: through the worker that executes it, or through any idle worker alone, which waits for the lease, sweeps and serves the queue |
| ChatProgress.SessionDrains | app/services/chat_service.py:1713-1756 | the same for all runs of a session in which every run has been queued |
| ChatRecovery.AcceptedRunBlocksSession | app/services/chat_service.py:900-909 | a run that was created but never queued stays accepted and no younger run of its session is ever claimed, until someone queues or cancels it |
| ChatRecovery.AcceptedExactly | app/services/chat_service.py:1283-1293 | in every behaviour an accepted run is accepted later on exactly if nobody queued or cancelled it in between |
| ChatRecovery.CancelInsideStartLeaks | app/services/chat_service.py:1734-1746 | a cancellation between the status check and the claim leaves the slot held by a finished run exactly when the claim then succeeds, which is when it could before |
| ChatRecovery.CrashInsideFinalizeLeaks | app/services/chat_service.py:1671-1681 | a crash between the two commits of finalizing leaves the slot held by a finished run exactly when the run held it: always for an executing worker |
| ChatRecovery.ClaimInsideSweep | app/services/chat_service.py:1634-1660 | a claim committed between the select and the commit of a sweep keeps the invariant exactly when the sweep has not selected the run; otherwise the run is executed as queued and without its slot |
| ChatRecovery.ClaimInsideCancel | app/services/chat_service.py:1608-1631 | a claim committed between the read and the write of a cancellation of a waiting run keeps the invariant exactly when it is refused |
| ChatRecovery.LeakEndsExactly | app/services/chat_service.py:1445-1460 | such a slot stays held exactly until a failure handler of a duplicate message of that run frees it, and meanwhile no run of the session is claimed |
| ChatRecovery.FailureIsSafeExactly | app/services/chat_service.py:2997-3009 | wherever the handler runs for a worker that is not executing - sweeping, pushing, starting, putting back, publishing - it keeps the invariant exactly when no worker executes the run; after a final commit that is always so |
| ChatRecovery.UnownedFailureBreaksSerialization | app/services/chat_service.py:2997-3009 | otherwise the next run of the session starts beside the executing worker and the finished run turns active again |
| ChatWitness.FailureBreaksTranscript | app/services/chat_service.py:2997-3009 | a behaviour from the empty database in which such a handler leads to a transcript that is no concatenation of blocks |
| ChatWitness.CompletedCanFail | app/services/chat_service.py:2986-3009 | a reachable state in which a completed run becomes failed, through its own worker or through the holder of a duplicate message |
| ChatWitness.CancelLeakReachable | app/services/chat_service.py:1734-1746 | a reachable state in which a cancellation inside the start leaks the slot |
| ChatWitness.CrashLeakReachable | app/services/chat_service.py:1671-1681 | a reachable state in which a crash inside the finalization leaks the slot |
| ChatWitness.SweepRaceReachable | app/services/chat_service.py:1634-1660 | a reachable state in which a worker can claim a run that a sweep selects |
| ChatWitness.BlockedReachable | app/services/chat_service.py:900-909 | a reachable state in which a worker is sent back because of an older run that was never queued |
| SingleFlight.ResolvedByCreator | pageindex/utils.py:96-107 | whenever close happens, a future changes only from pending, once, in a step of the call that created it |
| SingleFlight.ResolvedExactlyOnce | pageindex/utils.py:96-107 | over any behaviour a future is resolved at most once, and exactly once by the time the call that created it has returned |
| SingleFlight.SomeCallCanStep | pageindex/utils.py:78-107 | in every reachable state with an unfinished call some call can step: nobody is stranded |
| SingleFlight.RunsAreShort | pageindex/utils.py:78-107 | no behaviour contains more than six steps per call, so calls that keep stepping all return |
| SingleFlight.OneLoaderPerKey | pageindex/utils.py:84-107 | while the cache is open at most one loader per key runs, none once one has succeeded, and at most one ever succeeds |
| SingleFlight.OneValuePerKey | pageindex/utils.py:84-107 | while the cache is open all calls of a key that return normally return one value |
| SingleFlight.WaitersGetCreatorsOutcome | pageindex/utils.py:94-107 | whenever close happens, a resolved future holds exactly the value or the error its creator returns |
| SingleFlightValues.ReturnsALoadersOutcome | pageindex/utils.py:78-107 | in every behaviour, also across close, a call that has returned returns exactly what a loader of its key returned, value or error, and its own loader if it ran one |
| SingleFlightValues.OutcomesFromLoaders | pageindex/utils.py:96-107 | the same for every value in the cache and every resolved future |
| SingleFlight.AloneIs | pageindex/utils.py:78-107 | what the steps of one undisturbed call do to the cache and where they leave the call, from any state of the cache |
| SingleFlight.CloseEndsSharing | pageindex/utils.py:53-61 | after close two overlapping calls of one key can both be loading |
| SingleFlight.TwoLoadersNeedClear | pageindex/utils.py:53-61 | two calls of one key are both loading only in behaviours in which the cache has been cleared before, closed or not |
| SingleFlight.SecondLoaderNeedsRemoval | pageindex/utils.py:84-107 | a call begins to load a key that an earlier call still loads only after, between their look-ups, a clear or a third call that had loaded the key took it out of flight |
| SingleFlightAborts.StrandedExactly | pageindex/utils.py:84-102 | in runs with any number of loaders that end with an exception outside Exception: a call waits for the future of such a loader exactly if it did so when the loader ended or has looked the key up since while it was in flight for that future |
| SingleFlightAborts.OthersReturn | pageindex/utils.py:84-107 | calls that wait for such futures never step again, and all others return: some call can step as long as one of them has not, and no run has more than six steps per call |
| SingleFlightAborts.KeyIsLost | pageindex/utils.py:84-102 | until close clears the cache every call that looks the key up joins the orphaned future |
| SingleFlightAborts.StrandingReachable | pageindex/utils.py:84-102 | a run in which a call that looks the key up only after the abort is stranded |
| SingleFlight.RunReuseCache.MarkClosed | pageindex/utils.py:53-56 | the flag is set, and only the first close goes on |
| SingleFlight.RunReuseCache.ClearAll | pageindex/utils.py:57-61 | values and keys in flight are dropped, the futures stay |
| SingleFlight.RunReuseCache.FindOrCreate | pageindex/utils.py:84-94 | the second critical section: a hit, an existing future, or a new pending future put in flight |
| SingleFlight.RunReuseCache.LoadOnce | pageindex/utils.py:78-107 | load_once without interference: the loader runs exactly when the cache is closed or the key is neither stored nor in flight, only a value is kept, and a key in flight is joined; the steps of one call, with no other in between, end in the same cache and the same outcome |
| Markdown.ExtractNodes | pageindex/page_index_md.py:32-59 | every header line outside fences, once, in order, with its title |
| Markdown.ExtractNodeTexts | pageindex/page_index_md.py:62-87 | the unindented headers with their levels and titles, each with the stripped text of exactly the lines up to the next one: ranges disjoint and gap-free |
| MarkdownHeaders.HeaderIs | pageindex/page_index_md.py:33-56 | the header pattern and its two groups: after stripping, one to six hashes, whitespace, and a title that is stripped and not empty |
| MarkdownHeaders.InFenceIs | pageindex/page_index_md.py:39-47 | a line lies in a code block exactly if an odd number of fence lines stands before it |
| MarkdownHeaders.LevelIs | pageindex/page_index_md.py:65-74 | the level taken from the raw line is the number of hashes of the header |
| MarkdownHeaders.OpensIs | pageindex/page_index_md.py:39-74 | a line opens a section, with a level and a title, exactly if it begins with a hash, stands outside code blocks and is a header with them |
| Markdown.SectionsHoldAllWords | pageindex/page_index_md.py:76-87 | the sections hold every word of the document from the first section on, in order |
| Text.SplitIs | pageindex/page_index_md.py:37 | the parts of a split text joined again give the text, and no part contains the separator |
| Text.OnlySplit | pageindex/page_index_md.py:37 | no other parts do |
| Text.StripIs | pageindex/page_index_md.py:83-87 | stripping takes whitespace off both ends, all of it and nothing else |
| Text.OnlyStrip | pageindex/page_index_md.py:83-87 | no other text is the stripped one |
| Markdown.MdToTree | pageindex/page_index_md.py:243-262 | for every document: its lines are the pieces between its line breaks; the list has one section for every line that opens one, with its level, title and the stripped text of its lines up to the next; the tree read in document order holds, thinned or not, exactly the words of the document from the first section's line on; token counts are those of whole subtrees, and thinning yields the collapsed tree |
| Markdown.WriteNodeIds | pageindex/utils.py:582-592 | every node of a built tree gets its position in document order |
| ThinningLoop.UpdateTokenCounts | pageindex/page_index_md.py:89-132 | every section gets the token count of its own text and all texts below it; nothing else changes |
| ThinningLoop.CombinedIs | pageindex/page_index_md.py:117-127 | the text that is counted is the section's own and the nonempty ones below it, one per line |
| ThinningLoop.TreeThinning | pageindex/page_index_md.py:135-187 | the in-place backward loop leaves exactly the recursive specification; its skip of removed entries is never taken |
| ThinningLoop.SurvivorsAreThin | pageindex/page_index_md.py:149-187 | the entries not removed are the thinning of their stretch: the removed set is closed under descendants |
| Thinning.ThinConserves | pageindex/page_index_md.py:165-180 | thinning keeps every word, in order |
| Thinning.MergedIs | pageindex/page_index_md.py:165-180 | what a small section becomes: its text and the nonblank texts below it, with empty lines between them, and the count of that, or the section as it was if they are all blank |
| Thinning.ThinSurvivors | pageindex/page_index_md.py:149-187 | every entry left is one of the sections, changed at most in text and count, and only if it was below the threshold |
| Thinning.ThinThenBuildIsCollapse | pageindex/page_index_md.py:135-221 | thinning and then building is building and then turning every small node into a leaf with its subtree's words |
| TreeBuilder.BuildTreeFromNodes | pageindex/page_index_md.py:190-221 | the stack algorithm hangs every node below its nearest earlier node of smaller level, children in order |
| TreeBuilder.FindAllChildren | pageindex/page_index_md.py:136-147 | the flat scan returns exactly the descendants of a node |
| TreeBuilder.BuiltForest | pageindex/utils.py:609-620 | the built tree flattened in document order is the input list, and its parents are the nearest earlier smaller levels |
| TreeBuilder.ScanIsSubtree | pageindex/page_index_md.py:136-147 | the scanned indices are the node's subtree in document order |
| Forest.BuildOfPreorder | pageindex/page_index_md.py:190-221 | every forest is rebuilt from its document order and depths |
| Forest.PreorderOfBuild | pageindex/utils.py:609-620 | flattening a built forest gives the list back |
| TocTree.ParentCode | pageindex/utils.py:775-780 | the parent code is a shorter nonempty prefix of the text of the code followed by a dot, or missing; a number is split as its text, zero has no parent |
| TocTree.ParentCodeIs | pageindex/utils.py:775-780 | the parent of a code is p exactly if the code's text is p, a dot and a last part without a dot, and p is not empty |
| TocTree.ListToTree | pageindex/utils.py:782-808 | an item stands in the child list of p exactly if p is the latest earlier item whose code is the text before the last dot of the item's code, and among the roots exactly if there is none; all lists keep the order of the items |
| TocTree.NumbersAreLeaves | pageindex/utils.py:789-806 | an item whose code is a number never gets children, because parent codes are texts |
| TocTree.EveryItemOnce | pageindex/utils.py:782-820 | for arbitrary codes (duplicates, missing parents, missing or numeric codes) the tree holds every item exactly once |
| TocRoundTrip.ParentOfDotted | pageindex/utils.py:775-780 | dropping the last part of a code is dropping the last number of its path |
| TocRoundTrip.DottedInjective | pageindex/utils.py:775-780 | different paths have different codes |
| TocRoundTrip.NumberThenBuild | pageindex/utils.py:774-820 | numbering any forest with dotted codes, flattening it and calling list_to_tree rebuilds the forest |
| Outline.AssignEnds | pageindex/utils.py:1219-1233 | the recursive pass writes exactly the ends of its nodes and nothing else, by the code's rule for siblings and children |
| Outline.EndsExactly | pageindex/utils.py:1219-1233 | for any starts, missing, 0, or out of order: a node ends by page m exactly when the page its position allows is at most m and every later sibling below it starts by page m + 1 or has no start that counts |
| Outline.LimitIsPage | pageindex/utils.py:1220-1231 | the search among later siblings with its fallbacks is one search over the list: a missing start passes it on to the next sibling, a start of 0 to the siblings of the parent |
| Outline.EndPageIs | pageindex/utils.py:1220-1231 | without any search: the page before the first later node, no deeper than the node itself, that has a start other than 0 and before which all nodes in between are at least as deep if they have no start and deeper otherwise; the last page if there is none |
| Outline.StartsInPreorder | pageindex/utils.py:1219-1233 | the list of starts is that of the nodes in document order |
| Outline.EndsAreEndPages | pageindex/utils.py:1219-1233 | for starts in page order, some of them missing or 0, every node ends exactly on the page its position allows, which is said without the search |
| Outline.RangesNest | pageindex/utils.py:1219-1233 | if no start is missing or 0 either, ranges of descendants lie inside their ancestors' and other nodes start after the earlier range has ended |
| Outline.EmptyRange | pageindex/utils.py:1226-1233 | a node is left without a page exactly when the next node outside it starts on its own page |
| Outline.OverlapsExactly | pageindex/utils.py:1226-1233 | a node reaches the start of the next node outside it, if that counts, exactly when some later sibling among its descendants starts behind that start |
| Outline.DisorderedOverlaps | pageindex/utils.py:1226-1233 | an outline whose first node ends on page 9 although the next one starts on page 3 |
| Retrieve.ParsePages | pageindex/retrieve.py:15-27 | the pages are read off the comma-separated pieces of the string: an error if one of them does not read as a number or a rising range, and otherwise the ascending list of exactly the numbers they contain |
| Retrieve.ParsedIs | pageindex/retrieve.py:15-27 | a page string is accepted exactly when each part is, and then gives the ascending list of all numbers in its parts |
| Retrieve.RangeIs | pageindex/retrieve.py:19-26 | what a part denotes: itself as one number, or the numbers from the text before its first dash to the text behind it, all stripped |
| Retrieve.PageMapIs | pageindex/retrieve.py:42-46 | among cached pages with one number the last one counts |
| Retrieve.PickMapIs | pageindex/retrieve.py:42-46 | the answer from cached pages lists exactly the requested pages that are cached |
| Retrieve.CacheIsFile | pageindex/retrieve.py:39-56 | cached pages answer every request as the PDF itself would |
| Retrieve.PickIs | pageindex/retrieve.py:48-56 | the answer lists, in the order asked for, exactly the pages that exist, with their text |
| Retrieve.GetMdPageContent | pageindex/retrieve.py:59-79 | the recursive walk with its seen set and the final sort: rising lines, and exactly the texts of the first nodes of the lines in the range |
| Retrieve.MdContentIs | pageindex/retrieve.py:59-79 | rising line numbers, and for each wanted line the text of the first node of that line in document order |
| Retrieve.RemoveTextIs | pageindex/utils.py:929-935 | removing the texts keeps every nested node in its place with title and line number, and leaves none with a text |
| Retrieve.OnlyRemoveText | pageindex/utils.py:929-935 | no other structure is like that |
| Workspace.SaveRefines | pageindex/client.py:160-171 | saving and dropping keeps memory, files and kept documents related, and leaves a meta file equal to one rebuilt from the files |
| Workspace.WorkspaceIsTransparent | pageindex/client.py:160-237 | after any sequence of index calls, queries, restarts and losses of the meta file every answer is that of a client that kept everything |
| Workspace.FreshWorkspace | pageindex/client.py:199-237 | the same from an empty workspace, with or without an empty meta file |
| Workspace.CrashInsideSave | pageindex/client.py:160-171 | after a crash between the document file and the meta file the document is listed exactly when there was no meta file |
| Workspace.HiddenForever | pageindex/client.py:184-209 | after such a crash beside a nonempty meta file and any sequence of calls, restarts and losses the document is known exactly if it was indexed again or a client started after a loss of the meta file |
| Workspace.PageIndexClient.constructor | pageindex/client.py:199-209 | a new client lists the meta file's documents, or those rebuilt from the files, without their content |
| Workspace.PageIndexClient.Rebuilt | pageindex/client.py:173-182 | one entry per document file, whatever the order of the listing |
| Workspace.PageIndexClient.AddDocument | pageindex/client.py:160-197 | the document file holds what the document holds, without node texts for a PDF; the meta file is extended or rebuilt, and the heavy fields are dropped from memory |
| Workspace.PageIndexClient.LoadDocument | pageindex/client.py:211-221 | structure and nonempty pages are refilled exactly when missing and stored |
| Workspace.PageIndexClient.DocumentStructure | pageindex/client.py:227-231 | loads on demand and answers with all nodes of the loaded structure in their places, without their texts |
| Workspace.PageIndexClient.PageContent | pageindex/client.py:233-237 | loads on demand and answers with exactly the pages asked for that the document has, read off the comma-separated pieces of the string; from the cache if there is one, else from the file, and by lines for Markdown |
| Workspace.PageIndexClient.DocumentInfo | pageindex/client.py:223-225 | name, description, kind and count of the document: for a PDF the stored page count, else that of the cached pages, else that of the file |
| Workspace.FileStores | pageindex/client.py:160-171 | a document file holds what the document holds, except the texts of a PDF's nodes |
| Workspace.ContentShown | pageindex/retrieve.py:116-140 | every answer of get_page_content lists exactly the requested pages the document has, or reports why not |
| History.LoadSessionHistory | app/services/chat_service.py:246-312 | the loops compute the specified selection and its counters; HistoryIsWindow and LoadedIs say what that is |
| History.HistoryIsWindow | app/services/chat_service.py:266-306 | the messages considered are exactly the wanted ones, in order, without the question at the end; the history is a contiguous end piece of them, at most history_turn_limit turns, within the budget unless it is one message, and maximal |
| History.LoadedIs | app/services/chat_service.py:256-312 | the same with the counters: messages, user messages and tokens of what is selected, and nothing without history |
| History.TotalConcat | app/services/chat_service.py:285-304 | the token count of messages is the sum of their counts |
| History.RerunSelectsSame | app/services/chat_service.py:276-277 | with the run's own question already stored the selection is the same exactly when the filtered transcript did not end with that question before |
| RoutingVersion.NextIsSuccessor | app/services/parse_service.py:60-67 | the next version is the next revision exactly while that has at most 28 digits |
| RoutingVersion.NextFollows | app/services/parse_service.py:60-67 | for any current version: stripped, v1 if nothing is left; the number behind the -r at its end raised by one, or -r2 added if there is none; cut to 32 characters |
| RoutingVersion.CounterTurnsBack | app/services/parse_service.py:67 | from 10^28 on the cut to 32 characters turns every next revision into its first 28 digits |
| RoutingVersion.CounterCycles | app/services/parse_service.py:60-67 | revision 10^28 - 1 is followed by revision 10^27 |
| RoutingVersion.JobsClimb | app/services/parse_service.py:316-335 | over any jobs the persisted revisions climb above what is already in use |
| RoutingVersion.RevisionsClimb | app/services/parse_service.py:264-293 | every routing index of a document version carries a strictly larger revision than all earlier ones, if every index has a node |
| RoutingVersion.ReuseExactly | app/services/parse_service.py:489-505 | the next job reuses a persisted version exactly when that index has no node and the outer failure handler ran in between |
| RoutingVersion.ColumnsAlwaysAgree | app/services/parse_service.py:296-505 | after any jobs, wherever they ended: document and parse status agree, an index is ready only behind a finished parsing and with its path, a routing error is there exactly after a failure, and a finished parsing leaves no parse error |
| RoutingVersion.DocumentVersion.BeginJob | app/services/parse_service.py:316-335 | the columns after the first commit of a job, with the bump of the revision |
| RoutingVersion.DocumentVersion.RunParseJob | app/services/parse_service.py:296-505 | one job through any of its commits to any of its endings, column by column: the version it takes and persists, the nodes, and the routing, parse and document status with their errors and the path, by how far the job got, whether its routing part failed and whether the outer handler ran |
| PageGroups.AverageWithin | pageindex/page_index.py:438-439 | the rounded average never exceeds max_tokens |
| PageGroups.AverageIs | pageindex/page_index.py:438-439 | the average is the least integer not below half of total / parts + max_tokens, where parts is the least number of parts that can hold everything |
| PageGroups.PageListToGroupText | pageindex/page_index.py:426-459 | each text is that of a group's pages one after the other, for the groups that OnlyGroups determines |
| PageGroups.GroupsRestorePages | pageindex/page_index.py:441-456 | groups are consecutive page runs; dropping each later group's overlap and joining gives all pages |
| PageGroups.OnlyGroups | pageindex/page_index.py:429-456 | exactly one list of groups does all this: all pages in one group if they fit; otherwise the first group starts with the first page within the average, each later one repeats the last overlap_page pages and adds at least one and more only within the average, and each but the last ends because the next page would exceed it |
| PageGroups.JoinConcat | pageindex/page_index.py:431-444 | the text of two lists of pages is the text of the first and then that of the second, and the text of one page is that page |
| PageGroups.GroupsFit | pageindex/page_index.py:438-456 | every group holds at most max_tokens tokens or at most overlap_page + 1 pages |
| EventStream.Continue | scripts/b4_4_latency_compare.py:158-165 | more text completes what was left in the buffer and leaves complete events alone |
| EventStream.StreamRestored | scripts/b4_4_latency_compare.py:163-165 | the events with their blank lines and the rest make up the stream again; no event contains a blank line or ends with a line feed, and the rest contains no blank line |
| EventStream.OnlyCut | scripts/b4_4_latency_compare.py:163-165 | there is no other way to cut the stream like that |
| EventStream.ParseEvents | scripts/b4_4_latency_compare.py:152-167 | however the stream is cut into chunks the events are those of the whole stream, cut at its blank lines, and the rest unless it is blank (a subset of section 9.2.5 of the WHATWG HTML Living Standard) |
| EventStream.ParseRawEvent | scripts/b4_4_latency_compare.py:170-187 | with CR LF replaced and whitespace stripped: nothing for a blank text; otherwise the stripped value of the last event line, or message without one, and the values of all data lines in order, each stripped in front, joined by line feeds and stripped |
| EventStream.ParsedRaw | app/api/routers/chat.py:46 | parsing what the server encodes gives the event back |
| EventStream.StreamRoundTrip | scripts/b4_4_latency_compare.py:152-187 | whatever the server sends, in whatever chunks, the client reads the same events in the same order |
| EventStreamLineEnds.UncutExactly | scripts/b4_4_latency_compare.py:163-165 | the stream is not cut at all exactly when two line feeds never follow each other |
| EventStreamLineEnds.AgreesExactly | scripts/b4_4_latency_compare.py:163-174 | cutting first and normalizing the pieces gives the pieces of the normalized stream exactly when in no piece a carriage return follows another line end |
| EventStreamLineEnds.SingleStreamAgrees | scripts/b4_4_latency_compare.py:163-174 | a stream in which no carriage return follows another line end is cut as its normalized form is |
| EventStreamLineEnds.CrAfterCutAgrees | scripts/b4_4_latency_compare.py:163-174 | that condition is not necessary: right after a cut a carriage return does no harm |
| EventStreamLineEnds.CrLfIsNotABlankLine | scripts/b4_4_latency_compare.py:163-164 | a stream whose line feeds all follow a carriage return is never cut, which is right exactly when no carriage return follows another line end |
| TocRepair.FixIncorrectToc | pageindex/page_index.py:785-899 | one round: every item is asked before any entry is written, about the pages from its nearest earlier trusted entry to its nearest later one; an entry keeps its index or gets one accepted for it, the items that stay carry the index rejected for them, and no item leaves the list unless its check raised or its entry holds an accepted index |
| TocRepair.FixIncorrectTocWithRetries | pageindex/page_index.py:903-921 | the retry loop computes the specified rounds |
| TocRepair.PrevCorrectIs | pageindex/page_index.py:806-816 | the lower end of the range an item is asked about is its nearest earlier entry outside the incorrect set that has an index, or the page before the first |
| TocRepair.NextCorrectIs | pageindex/page_index.py:818-828 | the upper end is the nearest such later entry, or the last page |
| TocRepair.SaidIs | pageindex/page_index.py:806-848 | the question an item is asked has the nearest earlier trusted entry as its lower and the nearest later one as its upper end |
| TocRepair.RoundsBounded | pageindex/page_index.py:903-921 | at most max_attempts rounds, one if that is not positive, none without items, and fewer only if no item remains |
| TocRepair.RemainingShrinks | pageindex/page_index.py:872-897 | the remaining items are among the initial ones, in order |
| TocRepair.RetriesAreRounds | pageindex/page_index.py:903-921 | the outcome of the loop is the state its rounds lead to |
| TocRepair.AcceptedIs | pageindex/page_index.py:872-882 | an index counts as accepted for an entry exactly if some round of the loop asked about it, on the entries and items that round began with, and got that answer |
| TocRepair.OnlyAcceptedChanges | pageindex/page_index.py:874-882 | entries outside the initially incorrect set never change, and a changed entry holds an index that the checker accepted for it in one of the rounds, for an item of that round and the range its neighbours then gave |
| TocRepair.ItemFate | pageindex/page_index.py:867-897 | every initially incorrect item meets exactly one fate: it remains, its entry holds an index one of the rounds accepted, or its own check raised in a round in which it was listed |
| TocRepair.NothingLost | pageindex/page_index.py:867-897 | the same without distinct list indices: an item remains, is fixed, or its own check raised |
| TocRepair.RaisedItemsVanish | pageindex/page_index.py:867-872 | when every check raises the loop stops after one round, reports nothing and has fixed nothing |

## Left out

- ChatStore.Store.CreatePendingRun: row creation only; the permission, skill and document checks before it are not part of this model.
- ChatTheorems.ExtendsBetween: that a finished run keeps its very status is not promised, because the code does not keep it; FinalStatusExactly says when it changes.
- ChatStore.Store.RequestRunCancel: the lookup that answers 404 for a missing or foreign run is left out; the method takes an existing run.
- Retrieve.GetMdPageContent: takes an ascending nonempty list of numbers, which is what `_parse_pages` returns.
- SingleFlight.RunReuseCache.LoadOnce: run without interference; a call that joins a pending future answers that it waits, and goes on in the step model. Temporary files and the namespace part of keys are left out.
- SingleFlight.OneLoaderPerKey: loaders do not call `load_once` for their own key; a loader that ends outside `Exception` is the subject of SingleFlightAborts.
- RoutingVersion.NextIsSuccessor: `str.isdigit` is modelled for ASCII digits, the only ones a revision can contain.
- RoutingVersion.DocumentVersion.RunParseJob: the job row (status, step, progress, durations), the structure path, the active version and time stamps are left out; they do not enter the columns that are modelled.
- PageGroups.PageListToGroupText: `num_tokens / max_tokens` and the average are exact fractions, not floating point.
- EventStreamLineEnds.AgreesExactly: about where the stream is cut; the parser of one event replaces CR LF but not a lone CR.
- EventStream.ParseEvents: characters, not bytes: the code decodes each chunk on its own, so a character cut in two is outside this model. Time stamps are left out.
- EventStream.ParseRawEvent: the data text is returned as text; `json.loads` is left out.
- TocTree.ListToTree: a structure value is missing, a text or a number; lists, objects and NaN are left out. Removing empty `nodes` keys is representation only.
- Markdown.WriteNodeIds: numbers without the four-digit formatting.
- Workspace.PageIndexClient.AddDocument: building the document from a file (`index`) is an arbitrary document of the right shape; relative paths in old meta files are left out.
- Tree nodes as heap objects: nodes are indices with mutable child lists, and the sections of a Markdown document are a reassigned list of values, so aliasing between a node and its dict is not captured.
- `asyncio.gather`, Redis, SQL and file handles: their effects are the steps and table updates above.
- The worker loop's bookkeeping (payload decoding, recycling after a number of tasks or at a memory limit, reconnecting): a worker that stops is a crash between steps.
- Tenants, workspaces, users and skills: constant filters on every query.
- `list_session_messages`: ordering by sequence number is the order of the transcript.
- `post_processing`, `create_node_mapping`, `get_nodes`, summaries and tree formatting: only easy members.
- `process_large_node_recursively`, `meta_processor`, prompts, reranking, embeddings and Elasticsearch: recursion and results depend on model output.
- Compliance runs: they have no session slot and only repeat the sweep argument.
- Frontend, routing, schemas, authentication, audit events, metrics and observations.
