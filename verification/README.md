# Verified models of the judge's Agent service and of its reference programs

This project models the parts of the repository whose correctness rests on more than one function at a time,
and proves what they promise.

**The Agent service.** Every database transaction, and every stretch of code between two awaits, is one atomic step.
For a store there are three layers: pure functions that say what one transaction does to the tables, a class whose
methods carry out the same transactions by updating their fields in place, are proved equal to those functions and keep the
invariant of the tables, and lemmas over every sequence of transactions. The modules
whose names end in `Effects` say, in every reachable state, when a call is accepted and what it then leaves behind.

| files | models |
|---|---|
| `RagTables`, `RagIndex`, `RagEffects`, `RagStore` | the knowledge store, its workers' leases and the vector index, interleaved with administrators |
| `MemoryQueue` | the coalescing queue of the conversation memory worker |
| `ConversationTables`, `ConversationEffects`, `ConversationStore` | conversations, runs and messages; the query that pairs them into turns |
| `MemoryArchive`, `MemoryWorker`, `ConversationContext` | archiving of old turns under a versioned cursor, and the prompt history that must fit to it |
| `DirectAnswer`, `ReAct` | one model call with retries; the cyclic graph of calls and tools under nested budgets |
| `ConfigTables`, `ConfigEffects`, `ConfigStore`, `ConfigGraph` | immutable configuration versions, replays, the reference graph and its two readers |
| `EvalTables`, `EvalEffects`, `EvalStore` | evaluation runs, results, human and model reviews, and the verdict written twice |
| `Sse` | the incremental event-stream parser and the writer of the chat stream |
| `Splitter` | the token-window document splitter |

**The reference programs.** `SegmentTree`, `Dijkstra`, `Kmp`, `Lis`, `Mst`, `Huffman` and `Topological` are programs
whose output the platform takes as the expected answers of its problems. Each is proved against a definition of the problem that does not mention the
algorithm.

Protocols are proved for all interleavings: a run is a list of steps chosen freely, and the results hold in every state
that a run can reach. Loops that interleave with the outside world (the memory queue, the archiver, the ReAct graph) take
the outside world as an input: what arrives at each await, what the provider and the tools answer, when a deadline passes.

Where the code and its documentation part:

- `list_completed_turn_records` ignores `oldest_first` when there is no cursor. `MemoryArchive.FirstScanDecides` says
  for every run exactly when turns are therefore never archived, `MemoryArchive.FirstScanMaySkip` gives runs on which it
  happens, and `MemoryArchive.ArchivedOnceInOrder` and `MemoryWorker.ConversationMemory.Process` state the result for both
  cases.
- With `recent_turns` of 200 or more nothing is ever archived, because a page never holds more than 200 turns
  (`MemoryWorker.ConversationMemory.Process`).
- `sse_data` follows section 9.2.6 of the WHATWG HTML Living Standard in framing only: it drops all leading spaces of a
  data line instead of one, strips both ends of an event name, ends lines at LF alone, and fails on an unfinished line or
  an unclosed data line instead of discarding it. The model does what the code does. A connection that is lost right after
  the first line of a frame, before any data, therefore still ends normally: `Sse.LostAfterName` is the example, and
  `Sse.CutInsideFrame` says for every cut whether it fails.
- The second test of `notify_completed` (`key in self._overflow`) can never succeed; the assertion in
  `MemoryQueue.Worker.NotifyCompleted` says so.

## Model

| member | source | states |
|---|---|---|
| SegmentTree.Tree.Build | scripts/build_algorithm_corpus.py:547-549 | building makes the subtree show exactly the array and touches no entry outside the subtree; every index stays below 4n |
| SegmentTree.Tree.Push | scripts/build_algorithm_corpus.py:551-553 | handing marks down changes nothing that the subtree shows and leaves no mark at an inner node |
| SegmentTree.Tree.Change | scripts/build_algorithm_corpus.py:554-558 | a node that showed a shows a with x added to the queried positions, and nothing outside its subtree moves |
| SegmentTree.Tree.Query | scripts/build_algorithm_corpus.py:560-565 | the answer is the sum over the common positions, and the represented array stays the same although marks move |
| SegmentTree.Execute | scripts/build_algorithm_corpus.py:567-570 | one input line acts on the tree as it does on a plain array |
| SegmentTree.Solve | scripts/build_algorithm_corpus.py:545-570 | the whole output equals that of a plain array under the same operations |
| SegmentTree.SubtreesDisjoint | scripts/build_algorithm_corpus.py:549 | the heap indices below two siblings never meet, which is what makes the frame reasoning possible |
| SegmentTree.ShowsLift | scripts/build_algorithm_corpus.py:550 | one mark at a node stands for an addition to its whole range |
| Dijkstra.ShortestPath | scripts/build_algorithm_corpus.py:327-337 | prints the weight of a lightest walk from s to t, and -1 exactly when no walk exists, zero-weight edges included |
| Dijkstra.EmptyHeapIsOptimal | scripts/build_algorithm_corpus.py:699-704 | with an empty heap every distance is the least walk weight, and infinite exactly for unreachable vertices |
| Dijkstra.ExpandLeast | scripts/build_algorithm_corpus.py:333-334 | the least entry, if not stale, belongs to a vertex never expanded before |
| Dijkstra.PushKeepsHeap | scripts/build_algorithm_corpus.py:336 | an improved distance is never one that the heap already holds, so a set of entries stands for the list |
| Dijkstra.ClosedIsLowerBound | scripts/build_algorithm_corpus.py:335-336 | when all edges are settled no walk undercuts the distances |
| Kmp.PrefixTable | scripts/build_algorithm_corpus.py:411-415 | entry i is the length of the longest proper border of the prefix of length i + 1 |
| Kmp.FallBack | scripts/build_algorithm_corpus.py:413 | the fall-back loop skips no match that the next character could extend |
| Kmp.LongestNext | scripts/build_algorithm_corpus.py:417-419 | what the fall-back leaves, plus an equal character, is the longest match one position on |
| Kmp.Find | scripts/build_algorithm_corpus.py:411-421 | prints the 1-based start of the first occurrence, and -1 exactly when there is none |
| Lis.LongestIncreasing | scripts/build_algorithm_corpus.py:248-254 | the number printed is the greatest length of a strictly increasing subsequence |
| Lis.PlacedReached | scripts/build_algorithm_corpus.py:250-253 | after a replacement every tail is still the end of some increasing subsequence of its length |
| Lis.PlacedLeast | scripts/build_algorithm_corpus.py:250-253 | after a replacement no increasing subsequence ends below the tail of its length |
| Mst.Kruskal | scripts/build_algorithm_corpus.py:446-459 | prints the least weight of any n - 1 edges that connect all vertices, and -1 when none do |
| Mst.Find | scripts/build_algorithm_corpus.py:450-452 | find with path halving ends at the root and changes no component |
| Mst.Consider | scripts/build_algorithm_corpus.py:454-458 | one edge joins two trees of the forest exactly when it joins two components of the edges before it |
| Mst.KthIsLightest | scripts/build_algorithm_corpus.py:445 | the k-th chosen edge is no heavier than the k-th edge of any spanning tree |
| Mst.GreedyIsLightest | scripts/build_algorithm_corpus.py:445 | the chosen edges weigh no more than any spanning tree, and there are n - 1 of them if any spanning tree exists |
| Mst.OnePart | scripts/build_algorithm_corpus.py:458-459 | connected, in the sense that no proper part is closed, means one component |
| Huffman.MergeAll | scripts/build_algorithm_corpus.py:590-594 | prints the least cost of merging all heaps into one, over all binary merge trees |
| Huffman.LeastFirst | scripts/build_algorithm_corpus.py:589 | any way to merge can be exchanged for one that first merges the two least heaps and costs no more |
| Huffman.SwapCost | scripts/build_algorithm_corpus.py:589 | a lighter leaf that goes deeper never makes merging dearer |
| Huffman.GreedyMerge | scripts/build_algorithm_corpus.py:592-593 | the least cost after the greedy merge, plus the merge, is the least cost |
| Topological.LeastOrder | scripts/build_algorithm_corpus.py:711-721 | the order printed is the lexicographically least topological order, and IMPOSSIBLE is printed exactly when there is none |
| Topological.GreedyIsLeast | scripts/build_algorithm_corpus.py:709 | where any topological order first leaves the one found it has a larger number |
| Topological.SomethingCanFollow | scripts/build_algorithm_corpus.py:709 | while tasks are open, any topological order shows one that can come next, so the heap empties early only on a cycle |
| Topological.Release | scripts/build_algorithm_corpus.py:716-720 | after the loop over the successors the heap holds exactly the open tasks whose predecessors are all done |
| Sse.SseData | agent/app/clients/model.py:24-61 | events and outcome equal those of the concatenated bytes, whatever the chunk boundaries, size failures included |
| Sse.MoreBytesAfterLine | agent/app/clients/model.py:30-32 | reading a complete line first and the later bytes afterwards means the same as reading all bytes |
| Sse.OversizedStaysRejected | agent/app/clients/model.py:57-58 | the early size failure on an unfinished line is the failure that every continuation would meet |
| Sse.RoundTrip | agent/app/api/chat.py:29-30 | what the chat endpoint writes is read back event by event, up to the first frame over the limit |
| Sse.ReadBackAll | agent/app/clients/model.py:24-61 | whatever follows what was written is read as if nothing had come before it |
| Sse.CutInsideFrame | agent/app/clients/model.py:59-61 | a written stream that is cut inside a frame gives exactly the events before that frame, and fails exactly unless the cut is right after the frame's first line |
| Sse.LostAfterName | agent/app/clients/model.py:59-61 | a stream that stops after the name of an event ends normally, with no event |
| Sse.UnfinishedFails | agent/app/clients/model.py:59-61 | a stream that ends in an unfinished line never ends normally |
| Sse.UnclosedDataFails | agent/app/clients/model.py:59-61 | a stream with a data line that no empty line closes never ends normally, whatever came before |
| Sse.LinesRoundTrip | agent/app/clients/model.py:36-56 | a payload of several lines, sent as that many data lines, is read back whole, up to the frame limit |
| Sse.ReadBackHeartbeat | agent/app/api/chat.py:153 | a heartbeat comment is read as nothing at all |
| Splitter.SplitDocument | agent/embedding/server.py:61-86 | the chunks are, one for each and in order, those of the windows chained from the first token to the last, with the text of their spans |
| Splitter.WindowsTile | agent/embedding/server.py:66-85 | windows hold at most 360 tokens, all but the last at least 200, neighbours share exactly 48, the last ends at the end |
| Splitter.EveryTokenCovered | agent/embedding/server.py:66-85 | every token's span lies in the span of some chunk |
| Splitter.EveryCharacterCovered | agent/embedding/server.py:77-85 | every character between the first and the last token stands in the text of some chunk, even between tokens |
| Splitter.ChunkLimit | agent/app/rag/clients.py:100-105 | 120,000 tokens give at most 789 chunks, under the client's limit of 1,000 |
| Splitter.CutAtLineEnd | agent/embedding/server.py:70-76 | a full window stops at the last token that ends by the last line break in its second half, keeping 200 tokens |
| Splitter.NoLineEndNoCut | agent/embedding/server.py:72-73 | without a line break there the window stays 360 tokens long |
| RagStore.KnowledgeStore.Write | agent/app/rag/store.py:37-87 | an administrator's transaction with its replay by request, equal to the table function |
| RagStore.KnowledgeStore.StoreVersion | agent/app/rag/store.py:133-243 | an upload stores the next version of its document and queues its task |
| RagStore.KnowledgeStore.ChangeState | agent/app/rag/store.py:322-390 | retry, enable, disable and archive, with the guards of each |
| RagStore.KnowledgeStore.Claim | agent/app/rag/store.py:469-523 | the claim of one due task for a minute under a new token, or the failure of a task with no attempts left |
| RagStore.KnowledgeStore.Heartbeat | agent/app/rag/store.py:525-537 | the lease is set to a minute from now exactly for the holder of the token before it expires |
| RagStore.KnowledgeStore.Finish | agent/app/rag/store.py:539-590 | effective exactly under its token and an unexpired lease; READY, PENDING or FAILED by error and claims, and the current version published on success |
| RagTables.WriteKeeps | agent/app/rag/store.py:133-243 | every administrator's write keeps active versions READY and of their own document, and enabled ones published |
| RagTables.FinishKeeps | agent/app/rag/store.py:539-590 | finishing keeps that too, and READY is never left |
| RagTables.WriteReplays | agent/app/rag/store.py:37-87 | repeating a request gives the first answer and changes nothing |
| RagIndex.RunKeeps | agent/app/rag/worker.py:33-84 | every state of every interleaving of administrators and workers is in order |
| RagIndex.RunForward | agent/app/rag/store.py:329-390 | along every run READY is never left and the published version of a document only moves forward in upload order |
| RagIndex.RetrievedIsComplete | agent/app/rag/store.py:392-433 | whatever active or pinned can return has every chunk of its split in the vector index, with the right text |
| RagIndex.WriteBatchKeeps | agent/app/rag/clients.py:130-153 | overlapping and half-landed batches of several workers never leave a wrong point |
| RagIndex.FinishOnlyNewestClaim | agent/app/rag/store.py:539-590 | a finish takes effect only for the newest claim of its task; any other changes neither task nor document |
| RagIndex.ClaimsAreBounded | agent/app/rag/store.py:469-523 | a task is claimed at most four times between retries |
| RagIndex.FinishOnlyRunning | agent/app/rag/store.py:539-590 | with a shared clock that does not go back a finish takes effect only on a task that is still running |
| RagEffects.CurrentIsPublished | agent/app/rag/store.py:539-590 | in every reachable state the current version of a document is the published one exactly if it is READY |
| RagEffects.FinishDecides | agent/app/rag/store.py:539-590 | an effective success makes the task READY with its chunk count and publishes the version exactly if it is current; a failure waits with doubled delay below four claims and fails at four; nothing else changes |
| RagEffects.RetrievedIsAnUpload | agent/app/rag/store.py:392-433 | whatever retrieval returns has the chunks, word for word, of an upload to one of the bases asked |
| RagEffects.IndexedIsFound | agent/app/rag/store.py:392-433 | the current version of an enabled document, once READY, is returned for its base and may be pinned |
| RagEffects.ClaimDecides | agent/app/rag/store.py:469-523 | a due task is leased for a minute under a new token below four claims, and failed at four |
| RagEffects.BeatDecides | agent/app/rag/store.py:525-537 | a heartbeat gives the holder of the newest claim another minute and changes nothing for anyone else |
| RagEffects.ChangeDecides | agent/app/rag/store.py:322-390 | exactly when enable, archive and retry are accepted, and what each leaves in document and task |
| RagEffects.EnabledOnlyByChange | agent/app/rag/store.py:322-390 | only an accepted enable or archive of a document ever moves its switch |
| RagEffects.UploadDecides | agent/app/rag/store.py:133-243 | exactly when an upload is accepted, and that it becomes the newest version, due at once, while what was published stays |
| RagEffects.UndisturbedJobPublishes | agent/app/rag/worker.py:33-84 | a worker that nobody disturbs during its lease takes a due task of 1 to 1,000 chunks to READY and publishes it if it is current |
| MemoryQueue.Worker.NotifyCompleted | agent/app/memory/worker.py:100-119 | the whole new state of each outcome; a False on a full queue is kept all the same; pending is the disjoint union of queued, overflowed and active |
| MemoryQueue.Worker.PromoteOverflow | agent/app/memory/worker.py:176-179 | keys move from the overflow to the end of the queue until one is empty or the other full; none is lost |
| MemoryQueue.Worker.FinishJob | agent/app/memory/worker.py:164-174 | a key notified while it ran is queued again exactly once, any other leaves pending |
| MemoryQueue.Worker.Round | agent/app/memory/worker.py:152-162 | one turn of the loop keeps the queue's invariant and makes progress once the worker is stopping |
| MemoryQueue.Worker.Run | agent/app/memory/worker.py:151-162 | under every schedule the loop ends with all sets empty, and every notification was followed by a processing that began after it |
| ConversationStore.AgentStore.CreateRunWithUserMessage | agent/app/storage/repository.py:515-620 | checks, run row and user message as one transaction, equal to the table function |
| ConversationStore.AgentStore.FinishRun | agent/app/storage/repository.py:622-711 | the guards in their order, the terminal row and, when completed, the answer, equal to the table function that `ConversationEffects.FinishStores` is about |
| ConversationStore.AgentStore.ExpireRunningRuns | agent/app/storage/repository.py:911-919 | exactly the running runs whose deadline has passed become INTERRUPTED with time and code, every other row stays, and the result is their number |
| ConversationStore.AgentStore.InterruptRunningRuns | agent/app/storage/repository.py:901-909 | exactly the running runs become INTERRUPTED with time and code, every other row stays, and the result is their number |
| ConversationTables.OneRunningRun | agent/app/storage/repository.py:565-597 | in every reachable state a conversation has at most one running run |
| ConversationTables.NothingIsUndone | agent/app/storage/repository.py:622-711 | terminal rows never change, messages are only appended, and the turns of a conversation only grow at their end |
| ConversationTables.CompletedTurns | agent/app/storage/repository.py:326-352 | the join of runs with user and assistant messages yields exactly the turns, and turns never interleave |
| ConversationTables.CompletedRunIsTurn | agent/app/storage/repository.py:691-700 | every completed run is one of the turns |
| ConversationTables.CompletedInTime | agent/app/storage/repository.py:622-711 | in every reachable state a completed run finished before its deadline |
| ConversationEffects.RunByHistory | agent/app/storage/repository.py:515-711 | a run exists exactly if a call created it, and its row is what that call and the step that ended it say |
| ConversationEffects.MessageByHistory | agent/app/storage/repository.py:691-700 | every message is, word for word, the question of the call that created its run or the answer of the one that completed it |
| ConversationEffects.TurnSaysWhatWasSaid | agent/app/storage/repository.py:326-352 | every turn ever read has exactly the question asked and the answer given |
| ConversationEffects.FinishStores | agent/app/storage/repository.py:622-711 | after an accepted finish the row has the status, code and time given, and a completed run is a turn with that answer, at every later time |
| ConversationEffects.CreateAccepted | agent/app/storage/repository.py:515-620 | exactly when a run is created |
| ConversationEffects.FinishAccepted | agent/app/storage/repository.py:622-711 | exactly when a run is finished |
| ConversationTables.CursorCutsHistory | agent/app/storage/repository.py:353-362 | the filter on assistant ids keeps exactly the turns after the one that the cursor names |
| ConversationTables.TurnsAreBounded | agent/app/storage/repository.py:637-640 | both sides of a stored turn have 1 to 32,000 characters |
| MemoryArchive.PickedContinues | agent/app/memory/worker.py:206-216 | a batch starts right after what the record covers, leaves the recent turns alone, and is empty exactly when no more than those remain or 200 must be kept |
| MemoryArchive.ArchivedOnceInOrder | agent/app/memory/worker.py:203-228 | with any number of workers the summary holds the turns from the first scanned one up to the cursor, each once and in order, and its version counts the saves |
| MemoryArchive.SavedCovers | agent/app/storage/repository.py:401-513 | a save that passes the compare and swap was made from the record that is still stored |
| MemoryArchive.OnlyAdds | agent/app/storage/repository.py:454-492 | after the first save cursor, version and summary only grow |
| MemoryArchive.FirstScanDecides | agent/app/storage/repository.py:354-362 | in every run the scan behind the first save decides: the first turn is archived, then and ever after, exactly if that scan could see all turns there were, and the turns it did not see are never archived |
| MemoryArchive.ArchivedIfSeen | agent/app/memory/worker.py:203-228 | at every later time a turn is in the summary exactly if it was not skipped and the cursor has passed it |
| MemoryArchive.FirstScanMaySkip | agent/app/storage/repository.py:354-362 | a lone worker that begins when n turns are stored archives the first turn exactly if n is at most batch_size + recent_turns, capped at 200 |
| MemoryArchive.StoreTellsTurns | agent/app/storage/repository.py:326-362 | the turns of a conversation, in every history of the store, are turns that the archive can be given |
| MemoryWorker.ConversationMemory.SaveConversationSummary | agent/app/storage/repository.py:401-513 | compare and swap on the version; the cursor must not go back and must name a completed turn |
| MemoryWorker.ConversationMemory.Process | agent/app/memory/worker.py:203-228 | while turns keep arriving the loop ends; on return only the recent turns of the last scan are left; only the generator can stop it early |
| ConversationContext.ContextAssembler.Assemble | agent/app/graphs/context.py:37-57 | the history is the longest suffix of the unsummarised turns within the turn and character caps |
| ConversationContext.NothingTwice | agent/app/graphs/service.py:237-248 | in every run, with the record read at one time and the turns at any later one, summary and history never show a turn twice and keep the order |
| ConversationContext.NothingMissing | agent/app/graphs/context.py:42-57 | in every run, together they are the whole conversation exactly when the first scan skipped nothing and the turns after the cursor fit the caps |
| ConversationContext.NewestShown | agent/app/graphs/context.py:52-54 | in every run the newest turn is shown, since any turn the store accepts fits the default cap |
| DirectAnswer.Prepare | agent/app/graphs/direct_answer.py:105-125 | the kept history is the longest run of whole pairs at the end of the newest 40 messages that fits the input limit |
| DirectAnswer.Complete | agent/app/clients/model.py:314-470 | exactly the acceptable responses are accepted, with all their calls, at most 32 and with different ids, and with everything that goes back in the next round; of the others exactly those may be tried again whose first fault is an invalid item or shape and of which nothing was shown |
| DirectAnswer.Try | agent/app/graphs/direct_answer.py:166-243 | an accepted reply is billed by the provider's figures if it brings any, every other attempt by the estimate and the bytes of its calls or text; an attempt completes exactly if its reply is accepted and its cost still fits |
| DirectAnswer.Stream | agent/app/graphs/direct_answer.py:135-278 | attempts never exceed the run's limit and each is billed as it should be; only failures that may be repeated and showed nothing are followed by another attempt; the call is answered exactly when its last attempt completed, with all charges, failed retries included, within budget, and fails only when calls, input or retries are used up or the last failure is final |
| DirectAnswer.MeaningIsValid | agent/app/clients/model.py:444-470 | what is accepted has at most 32 calls with different ids, all of which go back, or is visible text |
| ReAct.ReActRun.CheckBudget | agent/app/graphs/react.py:95-111 | a call is allowed exactly while calls and output remain and its input fits window and budget, and asks for no more output than remains |
| ReAct.ReActRun.Reason | agent/app/graphs/react.py:113-163 | an answered call leaves the books of the run equal to the bill and within budget, and gives exactly the calls of the accepted reply |
| ReAct.ReActRun.ValidateAction | agent/app/graphs/react.py:165-285 | the round goes on exactly if every call is permitted and the valid ones repeat no id and no fingerprint of an executed call; the valid ones, and only those, are approved with their decoded arguments |
| ReAct.ReActRun.Act | agent/app/graphs/react.py:287-389 | the approved calls run in order, all of them if the node succeeds, which it does exactly if no deadline passes and no result is too large; every call gets its observation, rejected ones the reason |
| ReAct.ReActRun.Observe | agent/app/graphs/react.py:391-414 | the round goes back with one output for each call, rejected ones included, and the input estimate grows by exactly the size of what was appended |
| ReAct.RoundAnswers | agent/app/graphs/react.py:392-400 | outputs follow the calls in the same order, whatever else the continuation holds |
| ReAct.ReActRun.Run | agent/app/graphs/react.py:431-453 | however a run ends, each of its attempts is billed for its reply and for the size of all that was sent until then; it stays within its attempts and tool calls, repeats no call and needs at most 82 supersteps of the 128 allowed; an answer is an accepted reply without calls and within budget, and a failure has its cause |
| ReAct.PartOfRound | agent/app/graphs/react.py:293-340 | wherever a round stops, what has run repeats nothing and was allowed; a whole round adds exactly the calls with valid arguments |
| ReAct.CallBooked | agent/app/graphs/direct_answer.py:166-267 | all attempts of a call, retries included, are billed for what had been sent when the call began |
| ConfigStore.ConfigurationStore.CreateOrReplace | agent/app/storage/configuration.py:369-457 | replay, compare and swap, reference checks and the inserts, equal to the table function |
| ConfigStore.ConfigurationStore.ChangeState | agent/app/storage/configuration.py:459-494 | archive, enable and disable with replay and compare and swap: archive archives the expected version, the others set the switch |
| ConfigStore.CheckReferences | agent/app/storage/configuration.py:311-367 | the worklist accepts exactly the bodies whose references, direct and indirect, are all usable |
| ConfigTables.OneChain | agent/app/storage/configuration.py:414-444 | the versions of a resource form one unforked chain of previous ids that ends at the current one, and all others are archived |
| ConfigTables.OneWinner | agent/app/storage/configuration.py:390-393 | of the saves that race on one expected id at most one ever wins |
| ConfigTables.SaveReplays | agent/app/storage/configuration.py:240-259 | a replay at any later time gives the same version id and changes nothing; another content or actor is a conflict |
| ConfigTables.ChangeReplays | agent/app/storage/configuration.py:459-494 | the same for a change of state |
| ConfigEffects.DisabledIsSwitchedOff | agent/app/storage/configuration.py:459-494 | in every reachable state a resource is disabled exactly if its last accepted switch was a disable |
| ConfigEffects.ArchivedIsRetired | agent/app/storage/configuration.py:414-494 | a version is archived exactly if it was archived itself or replaced by a save |
| ConfigEffects.RunnableByHistory | agent/app/storage/configuration.py:188-224 | an agent can run exactly if its current version was not archived and its last switch did not turn it off |
| ConfigEffects.StoppedAgent | agent/app/storage/configuration.py:459-494 | an agent that was disabled or archived does not run |
| ConfigEffects.OffAndOn | agent/app/storage/configuration.py:459-494 | disabling an agent that is on and enabling it again gives back what it was |
| ConfigEffects.SavedForGood | agent/app/storage/configuration.py:414-444 | an accepted save stores its body after the version it expected, and both stay |
| ConfigEffects.SaveAccepted | agent/app/storage/configuration.py:369-413 | exactly when a save is accepted |
| ConfigEffects.ChangeAccepted | agent/app/storage/configuration.py:459-478 | exactly when a change of state is accepted |
| ConfigGraph.LoadGraph | agent/app/storage/configuration.py:188-224 | the traversal ends, returns exactly the versions reachable from the root, and succeeds exactly when the agent is runnable and the depth-3 predicate holds |
| ConfigGraph.AvailableIsSound | agent/app/storage/configuration_query.py:21-55 | the SQL predicate of fixed depth sees everything below a version once its depth reaches the version's rank |
| ConfigGraph.Traverse | agent/app/storage/configuration.py:209-224 | the worklist agrees with the recursive definition of a usable version |
| EvalStore.EvaluationStore.BeginModelReview | agent/app/evals/store.py:810-917 | replay, readiness, attempt check, then the new row and the result in step |
| EvalStore.EvaluationStore.FinishModelReview | agent/app/evals/store.py:919-948 | result and row change together, and only while that attempt is running |
| EvalStore.EvaluationStore.RecoverOrphanedModelReviews | agent/app/evals/store.py:422-466 | the three updates of the recovery as one transaction |
| EvalStore.EvaluationStore.AddResult | agent/app/evals/store.py:474-489 | the row and the three counters of its run |
| EvalStore.EvaluationStore.FinishRun | agent/app/evals/store.py:491-501 | an open run ends, as CANCELLED if a cancellation was accepted |
| EvalStore.EvaluationStore.RequestCancel | agent/app/evals/store.py:366-398 | compare and swap on the run's version, only while the run is open |
| EvalStore.EvaluationStore.SaveReview | agent/app/evals/store.py:682-763 | compare and swap on the review version; no pass for a hard failure |
| EvalTables.ReviewsInStep | agent/app/evals/store.py:810-948 | the attempt counter is the number of review rows, only the last can be running and exactly when the result says so |
| EvalTables.LateFinishIsIgnored | agent/app/evals/store.py:928-942 | a review that arrives after a retry or recovery changes nothing |
| EvalTables.RowsAreFinal | agent/app/evals/store.py:919-948 | a review row that is over never changes again |
| EvalTables.ReviewIsFinal | agent/app/evals/store.py:866-895 | a result whose model review succeeded keeps its attempt and its review: no retry, late finish or recovery replaces them |
| EvalEffects.FinishStores | agent/app/evals/store.py:919-948 | the finish of a running attempt stores exactly the review and error it brought, in result and row, for good |
| EvalEffects.StoredReviewWasGiven | agent/app/evals/store.py:919-948 | every stored model review is one that a finish brought while its attempt was running |
| EvalEffects.ShownReviewWasGiven | agent/app/evals/store.py:919-948 | so is the review that a result shows |
| EvalEffects.BeginAccepted | agent/app/evals/store.py:810-873 | exactly when a model review begins, told from the rows and not from the counter |
| EvalEffects.BeginStores | agent/app/evals/store.py:874-898 | the attempt that begins is the next one and runs, and its row says who asked |
| EvalEffects.AddStores | agent/app/evals/store.py:474-489 | a result is stored as it was added and stays so; it waits for a review exactly if there is a reviewer and it passed without a hard failure |
| EvalEffects.AddAccepted | agent/app/evals/store.py:474-489 | exactly when a result is accepted, by the number of result rows |
| EvalEffects.SaveStores | agent/app/evals/store.py:682-763 | exactly when a human review is accepted, and that it is stored as given beside the one before |
| EvalEffects.HumanRowsAreFinal | agent/app/evals/store.py:718-745 | a human review row never changes |
| EvalEffects.CancelTakesEffect | agent/app/evals/store.py:366-398 | after an accepted cancellation the run can only end cancelled, or fail in a crash recovery |
| EvalEffects.RunStep | agent/app/evals/store.py:366-501 | what each kind of step makes of a run; every change counts the version up by one |
| EvalEffects.RecoveryStores | agent/app/evals/store.py:422-466 | recovery ends what ran or waited, with its reason, and touches nothing else |
| EvalEffects.VerdictByReviews | agent/app/evals/store.py:566-583 | a result is shown as passed exactly by the newest human review, else by the newest model attempt, else by its own checks, and never with a hard failure |
| EvalTables.RecoveryLeavesNothingRunning | agent/app/evals/store.py:422-466 | after recovery nothing is running or pending in either table |
| EvalTables.CountersAreCounts | agent/app/evals/store.py:474-489 | the counters of a run are the counts of its result rows |
| EvalTables.EndsForGood | agent/app/evals/store.py:491-501 | a run that ended keeps its status, and a cancelled one never becomes COMPLETED |
| EvalTables.RequestsReplay | agent/app/evals/store.py:846-865 | repeating a review request names the attempt it began and changes nothing |
| EvalTables.HumanReviewsChained | agent/app/evals/store.py:718-745 | human reviews are a chain as long as the version says, each recording the one before |
| EvalTables.VerdictOfEveryResult | agent/app/evals/store.py:503-520 | on every reachable row the SQL verdict is the one that is shown, and a human review never passes a hard failure |
| EvalTables.MetricsCountWhatIsShown | agent/app/evals/store.py:522-583 | the passes that the metrics count are the results shown as passed |

## Left out

- HTTP routes, authentication, gRPC and HTTP clients, object storage, the vector database, the tokenizer and model calls: plumbing or foreign code; they appear as parameters.
- SQL: tables are maps, each transaction is one atomic step, unique keys and row locks are guards; deadlocks and isolation anomalies are outside the model.
- JSON, hashing and UUIDs: fingerprints are taken to be injective, encoded JSON to be one line, and fresh identifiers to be new.
- Go services, the `pkg` validators, web UI, settings, tracing and metrics: no effect on the properties above.
- Most corpus programs: they would mainly add simple members; range sums, for one, are proved for the segment tree and not again for the Fenwick tree.
- Reference programs: reading and printing text, and the shift between numbers from 1 and from 0; integers are unbounded as in Python.
- Dijkstra.PopLeast: a binary heap is modelled by its entries and the removal of a least one, here and in `Huffman` and `Topological`; sorted() is modelled by the insertion sort `Mst.Sort`.
- RagIndex.FinishOnlyRunning: needs one shared clock that does not go back; the safety of the publisher (`RagIndex.FinishOnlyNewestClaim`) does not.
- RagStore.KnowledgeStore.Claim: one clock reading per transaction, and any claimable task may be taken, since ordering and skipped locks decide only which; creating and renaming groups, evidence and pages are not modelled.
- MemoryQueue.Worker.Run: the timeout of close() and the cancellation it leads to are not modelled; the loop is the one that is allowed to finish. Retries inside one processing are part of it.
- MemoryWorker.ConversationMemory.Process: one worker at a time; several are covered by `MemoryArchive`. The text of a summary is modelled by the turns that went into it.
- ConversationStore.AgentStore.FinishRun: model summaries, trace ids and export states are not part of this model.
- ConversationTables.Space: the white space that str.strip removes is modelled for code points up to U+0020.
- DirectAnswer.Stream: cancellation, text that has no UTF-8 encoding, sleeping between attempts and streaming of partial text; a provider's stream is one reply with the bytes it showed.
- ReAct.ReActRun.Run: error codes are abbreviated to causes, public events and traces are not modelled; the size of an item's JSON is a parameter.
- ConfigTables.SaveResult: knowledge bases, test expiry and the caller's validator are one flag; tools and provider policy are one predicate on bodies.
- ConfigGraph.LoadGraph: visibility, runtime support and expiry of `agent_available` are single-row filters and not modelled.
- EvalTables.BeginAnswer: latencies, timestamps, datasets and cases are not modelled; the unique index on (result, attempt) is the key of the table.
- Splitter.SplitDocument: the section heading of a chunk.
