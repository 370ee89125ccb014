# Drift: the state machines around the tensors

Drift serves large language models from a swarm of servers, each of which holds a run of consecutive transformer blocks. The
tensor arithmetic is done by libraries. This project models what Drift itself adds around it and proves that it does what its
users rely on. Tokens, activations, cached keys and values and gradients are abstract values, blocks are arbitrary functions,
and numbers are exact.

The parts, in the order in which they build on each other:

- **Rebalancing** (`LexOrder`, `BlockSelection`, `Rebalancing`). Servers move to the weakest window of blocks, one after
  another, until nobody wants to move. The sorted throughput vector rises with every move of a server that contributes
  anything; a second measure takes care of the servers that contribute nothing. So the loop ends for every swarm and every
  shuffle, the weakest block never gets weaker, and at the end every server sits at its own best place at the same time.
- **All-reduce between threads** (`TensorSplit`, `AllReduceSums`, `Communications`). A state machine with one step per shared
  access, for any number of ranks and of consecutive calls. Every call returns the sum of that round's inputs, no part is
  seen in another round, and some rank can always go on.
- **Paged key/value pool** (`Multiples`, `Pages`, `PageCounts`, `PageContents`, `Reordering`, `PagedKVPool`,
  `ContiguousCaches`, `CacheAgreement`, `PageBudget`, `CacheReplay`). The pool is a class over a free list, block tables and
  page arrays. Its invariant says which page belongs to which place and what every page shows. The contiguous cache is a second
  class, and any run of operations over many slots shows the same entries in both. The operations alone decide how many pages
  are free at every point of a run, and so whether it succeeds.
- **Bounded tensor cache** (`MemoryCache`). A state machine of reservations, the pipe to the runtime, and the thread that
  waits for memory.
- **Inference with rollback** (`CausalModel`, `InferenceSession`, `SpeculativeDecoding`). Cached, chunked steps over a chain
  of servers equal one run over everything that was kept, and speculative decoding equals greedy decoding for any drafter.
- **Fault-tolerant training passes** (`ChainRule`, `Derivatives`, `Failures`, `SequentialAutograd`, `BatchSplitting`). Under
  every schedule of failures the forward pass is the composition of all blocks and the backward pass is the chain rule, with
  the gradient of every block taken where the forward pass ran it.
- **Routing** (`SpanTilings`, `FiniteSets`, `Routing`, `SessionChain`, `Swarm`). Any path through the server graph becomes an
  exact tiling of the requested blocks, and a session's list of servers stays one whatever fails. `Swarm` puts the parts
  together: from what servers announce to the outputs and gradients of a training step.
- **Head-parallel sharding** (`TensorParallel`), **wire packing** (`Packaging`), **steps of a session** (`Handler`), **pushes
  between handler processes** (`PushRouting`) and **entries shared between blocks** (`SharedKV`).

Conventions: a Python exception is a `Result`, an `Option` or an `ok` that is false. A schedule argument stands for everything
that other machines do; because it is arbitrary, a contract holds for every behaviour of theirs. A ghost argument names the
input of the whole computation where the code only holds intermediate values.

## Model

| member | source | states |
|---|---|---|
| `LexOrder.LexLessIffCountLess` | src/drift/server/block_selection.py:24-26 | Python's order of sorted lists is an order of multisets: the lists differ at the smallest value whose multiplicities differ |
| `BlockSelection.BestStartUpToIsBest` | src/drift/server/block_selection.py:24-26 | the chosen window is no later in the order than any other, and the leftmost of the smallest ones |
| `BlockSelection.ChosenWindowIsWeaker` | src/drift/server/block_selection.py:53-58 | what the extra eps does: once the server is taken out, a different window is chosen only if the server's own window was not weaker before, so ties do not cause moves |
| `BlockSelection.LoadAfterPlacing` | src/drift/server/block_selection.py:67-69 | the incrementally updated throughput array equals the one computed from the spans after the move |
| `BlockSelection.LoadIsWhatServersHave` | src/drift/server/block_selection.py:13-21 | a block without servers has no throughput, and one server more adds its own to exactly its blocks |
| `BlockSelection.MoveRaisesPotential` | src/drift/server/block_selection.py:77-87 | a move of a server with positive throughput strictly raises the sorted throughput vector |
| `BlockSelection.IdleMoveKeepsLoad` | src/drift/server/block_selection.py:77-87 | a move of a server without throughput changes no throughput |
| `BlockSelection.MoveKeepsMinimum` | src/drift/server/block_selection.py:77-89 | no move lowers the throughput of the weakest block |
| `BlockSelection.MoveLowersRank` | src/drift/server/block_selection.py:71-87 | a natural number falls with every move, idle servers included |
| `BlockSelection.RunsAreBounded` | src/drift/server/block_selection.py:71-87 | every sequence of moves, in any order of the servers, is at most as long as the rank of the swarm it starts from |
| `BlockSelection.NoArrangementComesBack` | src/drift/server/block_selection.py:71-87 | no arrangement of the servers occurs twice |
| `Rebalancing.RemoteSpanInfo.MoveTo` | src/drift/server/block_selection.py:37-38 | the span keeps its length and throughput and starts at the new place |
| `Rebalancing.ComputeThroughputs` | src/drift/server/block_selection.py:13-21 | each block's throughput is the sum over the spans that contain it |
| `Rebalancing.Relocate` | src/drift/server/block_selection.py:78-87 | one visit to a server in place: spans and array afterwards are those of the specified move |
| `Rebalancing.Rebalance` | src/drift/server/block_selection.py:71-87 | the loop ends, the array still equals the throughputs of the spans, and no server has a better place |
| `Rebalancing.ShouldChooseOtherBlocks` | src/drift/server/block_selection.py:41-96 | the answer in every branch, over the throughputs: after a move it is true if and only if the weakest block has at least 0.001 in the balanced swarm and had less than (`balance_quality` - 0.001) times that before; all servers then sit at their best places. An empty model and an unannounced server are errors, in this order |
| `Rebalancing.AnswerComparesWeakest` | src/drift/server/block_selection.py:89-96 | what that answer means: with a `balance_quality` of at most 1, true means a strictly stronger weakest block, and with one above 0.001 a swarm whose weakest block had nothing and ends at 0.001 or more is answered true |
| `Rebalancing.DisconnectsIfNearlyAlone` | src/drift/server/block_selection.py:60-61 | the early "no" is given exactly when every block had more than 0.001 and, at some block, all other servers together have no more than a thousandth of this one's throughput |
| `AllReduceSums.ArrivedChunksAddUp` | src/drift/utils/tensor_parallel/communications.py:81-90 | parts reduced in the order in which they arrived are the chunk of the sum of the inputs |
| `AllReduceSums.GatheredPartsAreTheSum` | src/drift/utils/tensor_parallel/communications.py:69-71 | the reduced parts, gathered by rank, are the sum of the inputs |
| `AllReduceSums.EachRankAddsItsInput` | src/drift/utils/tensor_parallel/communications.py:58-126 | the sum for one rank is its own input, and every further rank adds its input |
| `Communications.StepKeepsInvariant` | src/drift/utils/tensor_parallel/communications.py:81-126 | every step of every thread keeps what is known of lists, events, generations and values |
| `Communications.AllReduceIsCorrect` | src/drift/utils/tensor_parallel/communications.py:58-126 | in every run, for every rank and round, the result is the element-wise sum of that round's inputs |
| `Communications.NoPartLeaks` | src/drift/utils/tensor_parallel/communications.py:82-94 | a list of parts never mixes rounds and never holds two parts of one rank |
| `Communications.NoEventLeaks` | src/drift/utils/tensor_parallel/communications.py:85-94 | in every run, an event that a rank finds set was set for its own round, with the parts of all ranks there |
| `Communications.EveryUnblockedRankCanStep` | src/drift/utils/tensor_parallel/communications.py:81-126 | in every run, only an unset event holds a rank back; no other step can fail |
| `Communications.WaitsForAnotherRank` | src/drift/utils/tensor_parallel/communications.py:85-88 | a rank that waits, waits for a rank that has not delivered or is about to set the event |
| `Communications.SomeRankCanGoOn` | src/drift/utils/tensor_parallel/communications.py:88-126 | no reachable state is a deadlock |
| `Pages.NoPageTwice` | src/drift/server/memory_cache.py:416-442 | no page is in two places of the block tables, nor in a table and free |
| `Pages.EveryPageIsSomewhere` | src/drift/server/memory_cache.py:416-442 | every page that was not lost is free or in some row |
| `PagedKVPool.PagedKVPool.RegisterSlot` | src/drift/server/memory_cache.py:427-430 | a new slot gets empty rows, an announced one is left as it is |
| `PagedKVPool.PagedKVPool.FreeSlot` | src/drift/server/memory_cache.py:432-437 | all pages of the slot go back to the free list, and an unknown slot changes nothing |
| `PagedKVPool.PagedKVPool.AcquirePage` | src/drift/server/memory_cache.py:439-442 | the last free page, or failure when there is none |
| `PagedKVPool.PagedKVPool.GrowTo` | src/drift/server/memory_cache.py:486-489 | every row gets exactly the pages it lacks; it fails exactly when fewer pages are free than are missing |
| `PagedKVPool.PagedKVPool.Scatter` | src/drift/server/memory_cache.py:471-500 | the entries from the prefix on replace those of every row and no other entry of any slot changes; when pages run out nothing is written and none is lost |
| `PagedKVPool.PagedKVPool.Gather` | src/drift/server/memory_cache.py:444-469 | contiguous rows of the wanted length that show what was stored, up to each row's high-water mark, and past it what the pages hold |
| `PagedKVPool.PagedKVPool.Reorder` | src/drift/server/memory_cache.py:502-523 | the rows become those that were named; it fails exactly when fewer pages are free than its copies take, and the exact number of free pages is known afterwards |
| `PageCounts.EvenRowsKeepPages` | src/drift/server/memory_cache.py:502-523 | with rows of equal length and an unchanged number of rows, as many pages are released as copied |
| `PageContents.FilledWithLeast` | src/drift/server/memory_cache.py:487-490 | a grown row has the least number of pages that holds the wanted positions, or those it had if they are more |
| `ContiguousCaches.ContiguousCache.UpdateCache` | src/drift/utils/kv_cache.py:133-143 | the slice of new positions is replaced in every row |
| `ContiguousCaches.ContiguousCache.ReorderInPlace` | src/drift/server/backend.py:277-281 | all rows are read before any is written |
| `ContiguousCaches.ContiguousCache.SelectLayerPast` | src/drift/utils/kv_cache.py:121-131 | the first entries of every row |
| `CacheAgreement.StepAgrees` | src/drift/server/memory_cache.py:427-523 | after any allowed operation the pool holds a prefix of every row of the contiguous cache |
| `CacheReplay.Perform` | src/drift/server/backend.py:223-234 | an operation succeeds if and only if as many pages are free as it takes; then contents and page counts change as specified. If it fails, the contents stay, and only a failed reorder loses pages |
| `CacheReplay.Replay` | src/drift/server/backend.py:223-234 | a run over many slots, with rollbacks, succeeds if and only if every operation finds its pages, which the operations and the number of free pages decide; then no page is lost, the page counts are those foreseen, and gathering any written prefix yields what the contiguous caches hold after the same run |
| `CacheReplay.CompareBeside` | src/drift/server/backend.py:176-234 | the same calls made on a pool and on a contiguous cache object: the one gathers and the other selects the same entries, which are the first ones of what the run has stored |
| `MemoryCache.GetAllocationSize` | src/drift/server/memory_cache.py:129-136 | the largest sum over the devices |
| `MemoryCache.EveryRunIsGood` | src/drift/server/memory_cache.py:138-242 | every interleaving of allocations, frees, the waiting thread and the runtime keeps the invariant |
| `MemoryCache.RuntimeStaysWithinBudget` | src/drift/server/memory_cache.py:145-154 | after each message the bytes on each device are at most the counter's value when that message was sent, hence at most the limit |
| `MemoryCache.NoUnknownHandleIsDeleted` | src/drift/server/memory_cache.py:230-242 | the warning about an unknown handle never appears |
| `MemoryCache.LiveHandlesAreFound` | src/drift/server/memory_cache.py:231-244 | once all messages are read, every admitted allocation's tensors are under its handles |
| `MemoryCache.NoLostWakeup` | src/drift/server/memory_cache.py:189-213 | a thread that waits on an unset event does not fit, or someone has lowered the counter and is about to set the event; it is the only one with the lock |
| `MemoryCache.EventFollowsFrees` | src/drift/server/memory_cache.py:194-213 | the event rises only when a task has lowered the counter, and falls only when the waiting thread uses it up |
| `MemoryCache.WakeUpUsesTheEvent` | src/drift/server/memory_cache.py:196-213 | whoever has lowered the counter sets the event next, and whoever woke up clears it before it checks again |
| `MemoryCache.CountersAreSums` | src/drift/server/memory_cache.py:156-197 | the enqueued size is the sum of the requests not yet admitted or failed, the current size that of the reserved ones |
| `MemoryCache.FittingRequestIsAdmitted` | src/drift/server/memory_cache.py:167-181 | a request that fits when its task has the lock is admitted, with its size counted and its message sent, and never sent to wait or to fail |
| `MemoryCache.FailsOnlyWhileWaiting` | src/drift/server/memory_cache.py:165-187 | a request fails only while it waits for the lock or for memory, or when it does not fit at that moment or ever |
| `MemoryCache.WaitsOnlyWithoutMemory` | src/drift/server/memory_cache.py:199-213 | the waiting thread lets a request go on exactly when it fits, and fails it if it never can |
| `CausalModel.OutputsSplit` | src/drift/server/backend.py:236-267 | one call over a long input equals two calls, the second with the entries of the first as its past |
| `CausalModel.CachedStep` | src/drift/server/backend.py:202-217 | with everything before cached, a step yields the last outputs of a run over everything, and the cache of that run |
| `CausalModel.Causality` | src/drift/server/backend.py:176-221 | later positions do not influence earlier outputs of any number of blocks |
| `CausalModel.LayersAreRun` | src/drift/server/backend.py:176-221 | a run is determined position by position: each block attends, at each position, to what it caches for this position and all before it |
| `InferenceSession.ForwardChunked` | src/drift/server/backend.py:236-267 | chunks of any size give the output and the entries of one call |
| `InferenceSession.ChunkUsesBudget` | src/drift/server/backend.py:269-275 | a chunk is the longest that fits the budget for its attention matrices, or one position |
| `InferenceSession.ServerSession.SetPosition` | src/drift/client/inference_session.py:94-99 | rolling back keeps the first inputs; going ahead of the position is an error |
| `InferenceSession.ServerSession.Step` | src/drift/client/inference_session.py:101-204 | position, history and the server's prefix grow together, and the output is that of a run over the history; it fails exactly when the length is exceeded, and then nothing changes |
| `InferenceSession.ServerSession.Serve` | src/drift/server/block_functions.py:160-307 | the server goes back to the position it is told, runs its blocks over their caches and advances; a position ahead of its own, or past the length, is an error that leaves the caches as they are |
| `InferenceSession.InferenceSession.SetPosition` | src/drift/client/inference_session.py:274-279 | all servers' sessions roll back together |
| `InferenceSession.InferenceSession.Step` | src/drift/client/inference_session.py:316-419 | the output is the end of a run of all blocks over all kept inputs; afterwards client, histories and servers agree on the position; the exact condition of success, and where everything stands when the step fails |
| `InferenceSession.Converse` | src/drift/client/inference_session.py:252-419 | the same for every output of every run of steps and rollbacks, up to the first that fails, and which one this is |
| `SpeculativeDecoding.GreedyChoosesEveryToken` | src/drift/models/llama/speculative_model.py:67-84 | in greedy decoding every token after the prompt is the model's choice on its full prefix |
| `SpeculativeDecoding.RunGivesChoices` | src/drift/models/llama/speculative_model.py:62-66 | one run over a sequence gives the choices after all of its prefixes |
| `SpeculativeDecoding.Accept` | src/drift/models/llama/speculative_model.py:68-86 | the drafted tokens up to the first that was not chosen, or the first choice when there is none |
| `SpeculativeDecoding.AcceptedAreGreedy` | src/drift/models/llama/speculative_model.py:68-95 | accepted tokens continue a greedy run |
| `SpeculativeDecoding.Verify` | src/drift/models/llama/speculative_model.py:54-65 | one session step, after a legal rollback, yields the choices at all drafted positions |
| `SpeculativeDecoding.Iterate` | src/drift/models/llama/speculative_model.py:42-95 | every round adds at least one token and at most as many as were drafted |
| `SpeculativeDecoding.Sample` | src/drift/models/llama/speculative_model.py:14-104 | for any drafter the result is a greedy run, within the session's length; the stopping rule holds after no round but the last, and it holds there if and only if the outcome is that it was finished; every other way of ending is named |
| `ChainRule.RunInTwoParts` | src/drift/client/sequential_autograd.py:64-100 | the composition over a range is the composition over its parts |
| `ChainRule.GradientInTwoParts` | src/drift/client/sequential_autograd.py:137-180 | the gradient over a range is the gradient over its first part, applied to that over its second |
| `ChainRule.PromptGradientsInTwoParts` | src/drift/client/sequential_autograd.py:137-190 | the prompt gradients of the parts, one after the other, are those of the range |
| `ChainRule.ServeForward` | src/drift/server/block_functions.py:33-82 | the requested blocks with their prompts, composed |
| `ChainRule.CollectInputs` | src/drift/server/block_functions.py:107-127 | the input of every requested block, prompt included |
| `ChainRule.ServeBackward` | src/drift/server/block_functions.py:85-142 | the composed gradients and one prompt slice per block, in block order |
| `ChainRule.ActivationsAreRun` | src/drift/server/block_functions.py:33-82 | a run is determined block by block: every block runs on what the one before it returned, with its own prompt added |
| `Derivatives.GradientDerives` | src/drift/server/block_functions.py:85-142 | for any notion of derivative that obeys the chain rule and holds of every single block, the composed gradient is a derivative of the composed run |
| `Derivatives.PromptGradientDerives` | src/drift/client/sequential_autograd.py:113-196 | and each slice is a derivative of the run with respect to the prompt of its block |
| `Derivatives.SliceOfBlock` | src/drift/server/block_functions.py:130-141 | the slice for a block is cut from the gradient that arrives at this block's input |
| `SequentialAutograd.SequentialForward` | src/drift/client/sequential_autograd.py:26-110 | under every schedule: the output is the composition of all blocks, the spans tile the range, each saved input is the composition before its span; which events were the attempts at each span, of which only the last came through and which are at most `maxRetries`; every span is one that a route offered during this call; it succeeds when nothing fails, and gives up only when the schedule ends or after `maxRetries` attempts in a row, all failed, at one place |
| `SequentialAutograd.ForwardSpan` | src/drift/client/sequential_autograd.py:53-104 | at most `maxRetries` attempts are made; the first that finds a route and an answering server is the one that counts, and the span and the spans to come are those of the route in use at that attempt, which is the old one only if the first attempt succeeds; giving up means that `maxRetries` attempts failed |
| `SequentialAutograd.RunAgain` | src/drift/client/sequential_autograd.py:144-155 | re-running a failed span takes at least one further event and puts spans that tile it on the stacks, each offered by a route made during the re-run; it succeeds when nothing fails, and otherwise, after `maxRetries` failed attempts, leaves the stacks as they are |
| `SequentialAutograd.BackwardSpan` | src/drift/client/sequential_autograd.py:138-187 | one step back over the last span on the stacks, in at most `maxRetries` attempts, of which only the last succeeds: the span whose gradient is returned is the recorded one only if this is the first attempt, and otherwise one that was offered after the last failure; it gives up only when the schedule ends or `maxRetries` attempts failed |
| `SequentialAutograd.SequentialBackward` | src/drift/client/sequential_autograd.py:113-196 | under every schedule the result is the chain rule over all blocks, with one prompt slice per block in block order; the visits tile the range from its end, and each went back over the span on top of the stacks or over one offered after a failure; there is none only when the schedule ends or `maxRetries` attempts failed at one span |
| `BatchSplitting.BatchTokens` | src/drift/client/sequential_autograd.py:231-232 | a batch has at most 1024 tokens unless it is a single row, no batch is empty when there are rows, and a batch that is not the last could not take one more row |
| `BatchSplitting.RunRows` | src/drift/client/sequential_autograd.py:231-251 | rows of a run are the run over these rows, with these rows of the prompts |
| `BatchSplitting.ForwardInBatches` | src/drift/client/sequential_autograd.py:230-251 | splitting, running each batch under its own failures, and joining gives the run over the whole batch |
| `BatchSplitting.PromptGradientRows` | src/drift/client/sequential_autograd.py:253-278 | rows of every block's prompt gradient over the whole batch are the prompt gradients of these rows |
| `BatchSplitting.BackwardInBatches` | src/drift/client/sequential_autograd.py:253-278 | from the records that the forward passes left: the input gradient is that of the whole batch, and so is the prompt gradient of every block, joined along the batch; without prompts there is none |
| `Routing.ComputeSpans` | src/drift/utils/dht.py:134-153 | one pass over blocks and servers gives every server the span that its own announcements determine |
| `Routing.EntriesAreInRange` | src/drift/utils/dht.py:134-153 | a server has a span exactly when it is up for some block, and no span ends past the last block |
| `Routing.EntryIsOfHighestState` | src/drift/utils/dht.py:134-153 | of the announcements of a server only those of its highest state count: the first of them gives the span, and the last may extend it; without one above the minimum there is no span |
| `Routing.ConsecutiveBlocksAreTheSpan` | src/drift/utils/dht.py:144-152 | consecutive announcements without a range are joined to exactly their span |
| `Routing.AnnouncedRangeIsTheSpan` | src/drift/utils/dht.py:149-151 | a range announced at its blocks becomes the span, clipped to the model |
| `Routing.SortSpans` | src/drift/client/routing/sequence_info.py:57-67 | every block's list has exactly the spans that contain it, and the spans are in order of length |
| `Routing.BuildInferenceGraph` | src/drift/client/routing/sequence_manager.py:224-285 | the graph has exactly the client, server and switching edges; missing blocks are reported, all of them |
| `Routing.SpansOfPath` | src/drift/client/routing/sequence_manager.py:210-222 | every start-to-end path gives non-empty spans that tile the blocks, each inside what its server announces; every block is served by the server on which the path crosses it, and neighbouring spans are on different servers |
| `Routing.OneServerPerBlock` | src/drift/client/routing/sequence_manager.py:210-222 | a path crosses each block on one server only, so it leaves no choice of spans |
| `Routing.ReachableIffNothingMissing` | src/drift/client/routing/sequence_manager.py:190-208 | there is a path if and only if no block is missing |
| `Routing.MakeSequenceWithMinLatency` | src/drift/client/routing/sequence_manager.py:184-222 | a tiling inside the announced spans that follows the chosen path, or an error exactly when a block is missing |
| `Routing.MakeSequenceWithMaxThroughput` | src/drift/client/routing/sequence_manager.py:309-331 | whatever is drawn, the spans cover the blocks and tile them once the last one is clipped |
| `Routing.DrawDecides` | src/drift/client/routing/sequence_manager.py:315-330 | any server that holds the block may be drawn, and it is used from the block to the end of its span |
| `Swarm.Update` | src/drift/client/routing/sequence_info.py:48-67 | after an update the router has a server for a block exactly if the server announces the block |
| `Swarm.ForwardOverSwarm` | src/drift/client/sequential_autograd.py:26-110 | on routes made from announcements: all blocks are run, each on a server that announced it; it succeeds if all blocks are announced and nobody fails |
| `Swarm.TrainStep` | src/drift/client/sequential_autograd.py:26-196 | from announcements to the output of all blocks, its gradient and the prompt gradients, whatever fails on the way |
| `SessionChain.SessionChain.UpdateSequence` | src/drift/client/inference_session.py:421-448 | one session is replaced by new ones, or the first ones are added, exactly if there is a route; all others stay, the first new one takes over the history, every session pushes to the one behind it, and the blocks stay tiled |
| `SessionChain.SessionChain.Step` | src/drift/client/inference_session.py:366-414 | after any run of failures the sessions cover every block once and push to each other in order; a session from before is kept only if it answered its first event, and every other one is the first of the route of the last event before its answer; at most `maxRetries` attempts are made at a session, and all before the answer failed; it gives up only when the schedule ends or all of them fail; nothing changes when nothing fails |
| `TensorParallel.SplitHeadsIsRange` | src/drift/utils/tensor_parallel/configs.py:28-38 | a rank gets the entries of its heads, whole heads only, also when the split is uneven |
| `TensorParallel.SplitHeadsFails` | src/drift/utils/tensor_parallel/configs.py:32 | a tensor is refused exactly when it is no whole number of heads |
| `TensorParallel.EveryRankHasAHead` | src/drift/utils/tensor_parallel/configs.py:134-139 | with as many key/value heads as ranks or more, no rank is empty |
| `TensorParallel.PairingIsKept` | src/drift/utils/tensor_parallel/configs.py:111-125 | a rank's query head uses the same key/value head as before the split |
| `TensorParallel.HeadUsesItsGroup` | src/drift/utils/tensor_parallel/configs.py:111-125 | consecutive groups of query heads use consecutive key/value heads |
| `TensorParallel.ShardedHeadIsSame` | src/drift/utils/tensor_parallel/configs.py:111-125 | it attends with the same query, key, value and past as the head of the whole block |
| `TensorParallel.ShardedAttentionIsWhole` | src/drift/utils/tensor_parallel/configs.py:128-161 | the ranks' outputs, with their shares of the bias, add up to the unsharded attention |
| `TensorParallel.ShardedFeedForwardIsWhole` | src/drift/utils/tensor_parallel/configs.py:145-157 | the same for the feed-forward layer |
| `TensorParallel.RowParallelSum` | src/drift/utils/tensor_parallel/slicer.py:158-166 | splitting the columns and scaling the bias is undone by the sum |
| `Packaging.PackRestores` | src/drift/utils/tensor_parallel/utils.py:37-51 | packing as many leaves as the structure has uses exactly these and keeps the nesting |
| `Packaging.FirstOccurrencesAreTensors` | src/drift/utils/packaging.py:28-34 | the flat list has every tensor of the arguments once and no other |
| `Packaging.PackArgs` | src/drift/utils/packaging.py:23-37 | tensors in order of first occurrence, and every leaf replaced by the mark of its place or left |
| `Packaging.ParseOfDecimal` | src/drift/utils/packaging.py:9-18 | the number written into a mark is read back |
| `Packaging.UnpackAfterPack` | src/drift/utils/packaging.py:40-50 | unpacking restores the arguments if and only if no leaf is a byte string that begins like a mark |
| `Handler.StepsAreServedOnce` | src/drift/server/handler.py:257-275 | no step number is served twice |
| `Handler.EveryStepIsServed` | src/drift/server/handler.py:257-275 | every step that reached the session with tensors is served |
| `Handler.ServedInOrderOfArrival` | src/drift/server/handler.py:257-275 | the requests served are those at the places where a step with tensors comes for the first time, in the order of these places |
| `Handler.ServedGrows` | src/drift/server/handler.py:257-275 | what has been served is never taken back: it stays a first part of what will have been served |
| `Handler.NothingSkippedOrRepeated` | src/drift/server/handler.py:277-298 | of each channel exactly the first messages are examined, in order |
| `Handler.NextRequest` | src/drift/server/handler.py:277-298 | the pending tasks never lose the message they hold |
| `Handler.IterateInferenceSteps` | src/drift/server/handler.py:248-306 | for every interleaving of the two channels, the requests served are the fresh ones among those examined, and why it ended |
| `PushRouting.StepKeepsGood` | src/drift/server/handler.py:198-246 | every opening, closing, arrival and reading keeps what is known of handlers, channels and queues |
| `PushRouting.NoPushIsLost` | src/drift/server/handler.py:215-246 | in every run and while the session lives: of the pushes that a handler accepted for it, a first part is in its queue, each once and in order, and the rest is on its way to the owner |
| `PushRouting.NoPushIsMisled` | src/drift/server/handler.py:215-246 | a session's queue holds no push for another session and none that was not accepted, also after the session's end |
| `PushRouting.KnownOnceRead` | src/drift/server/handler.py:199-238 | a handler that has read the owner's messages knows of a session exactly as long as it lives, and who owns it; the owner's own assertion never fails |
| `PushRouting.IgnoredOnlyBeforeTheNews` | src/drift/server/handler.py:216-218 | a push for a live session is ignored only while the news of the session are on their way to the handler it reached |
| `PushRouting.ArrivalsNeverFail` | src/drift/server/handler.py:215-222 | no arriving push looks up a queue that is not there |
| `PushRouting.KnownPushIsKept` | src/drift/server/handler.py:216-230 | a push for a session that the handler knows of is queued if the handler owns it and sent to the owner otherwise, and only a push for an unknown session is ignored |
| `PushRouting.PassedOnIsQueued` | src/drift/server/handler.py:223-242 | a push that was passed on comes to the end of the session's queue when the owner reads it, unless the session has ended |
| `SharedKV.FlattenRoundTrip` | src/drift/utils/shared_kv.py:20-36 | what one end flattens the other restores |
| `SharedKV.MergedStep` | src/drift/server/backend.py:316-344 | the blocks share one dictionary, and what is new in it goes out in name order |
| `SharedKV.MergedIsTrace` | src/drift/server/backend.py:331-344 | each block finds in the dictionary what it was seeded with and what every block before it wrote, the later over the earlier |
| `SharedKV.FindsEarlierDonor` | src/drift/server/backend.py:331-344 | a block finds under its type what the last donor of the type before it wrote |
| `SharedKV.NamesPair` | src/drift/server/block_functions.py:260-264 | the sorted donor types are the names of the returned tensors |
| `SharedKV.ServeSpan` | src/drift/server/block_functions.py:207-301 | a server returns exactly the entries its blocks wrote |
| `SharedKV.InferAcross` | src/drift/client/inference_session.py:366-396 | every server runs on what was collected before it, and only its new entries are added; where no layer type has donors on two servers, the result is the output and the entries of one server with all blocks |
| `SharedKV.AcrossIsMergedIffApart` | src/drift/server/block_functions.py:291-293 | for given donors and a given spread of the blocks, the spread makes no difference to any blocks with these donors if and only if no layer type has donors on two servers |
| `SharedKV.EverySpreadApartIffOneDonor` | src/drift/client/inference_session.py:366-369 | every spread is such a spread if and only if each layer type has at most one donor, which is what the code says of a model |

## Left out

- Floating-point rounding: throughputs and sharded activations are exact reals, the tensors that the threads reduce exact integers.
- BlockSelection.ChosenWindowIsWeaker: eps is the one of the code, but since nothing is rounded its second purpose, hiding rounding errors, does not show.
- Communications.AllReduceIsCorrect: the length check and the `set` that follows it (lines 85-86 and 115-116) are one step. A `set` delayed past the `clear` of line 94 would start the next call early; the model does not contain that interleaving.
- CollectiveOperation and the barrier of AllGather: a library barrier separates their phases, nothing is left to prove.
- MemoryCache.RuntimeStaysWithinBudget: one event loop. With several handler processes the lock is released before the counter rises (lines 170 and 149).
- MemoryCache.NoLostWakeup: a timeout ends the waiting thread too; a thread that outlives its cancelled coroutine is not modelled. The handle counter does not overflow.
- Waiting for pages in paged mode: the event is set before the used-page count is refreshed (lines 358 and 364), so there is no wakeup to claim.
- PagedKVPool.PagedKVPool.Reorder: when it raises part-way, the pages it had acquired are in no table and not free; the contract says so rather than claiming a partition.
- Key/value heads and head dimensions inside a page or a cache row: one entry holds all heads of a position.
- CacheReplay.Replay: callers write at most one past the mark and reorder to the same number of rows, as the inference step does.
- InferenceSession.InferenceSession.Step: no failures, and no deep prompts, per-layer inputs or `hypo_ids`. After a failover in mid-session the new server's session starts at position 0 and the position check fails, so nothing is claimed; `SessionChain` covers what failures do to the list of servers.
- InferenceSession.ServerSession.Step: no deep prompts, per-layer inputs or `hypo_ids`, which are added to the inputs of single blocks; the reorder of the caches is in `CacheReplay`.
- InferenceSession.ServerSession.Serve: as for `Step`.
- SessionChain.SessionChain.UpdateSequence: a session is a number, and what the source keeps in it is kept in maps from numbers. Closing the failed connection is left out.
- Rebalancing.ShouldChooseOtherBlocks: spans are not empty. A server that announces a range outside the model gets a span whose start is not before its end; such spans are excluded.
- SpeculativeDecoding.Sample: batch size 1 and no logits processor. The slice handed to a processor is empty for the last drafted token (line 72), which an identity processor does not see.
- SequentialAutograd.SequentialForward: unlimited retries under a schedule that never lets a server answer do not return; a used-up schedule stands for that.
- Weights of the graph edges and of the random draw, pings, bans and retry delays; the path search is a library and any path is allowed.
- Sharding of Falcon, BLOOM and mixture-of-experts layouts, the alibi and mask splits, and the gathering of per-rank caches: the same splits with other layouts.
- Packaging.UnpackAfterPack: `int()` also reads signs, spaces and underscores; here such marks are errors. They only occur for reserved byte strings, which are not restored either way.
- PushRouting.NoPushIsLost: session ids are not used twice (they are random), the queues between processes keep the order of one sender, and the shutdown event is left out.
- SharedKV.InferAcross: the merged path. The per-block path does not put what it collects into the dictionary that later blocks read.
- Sessions with zero blocks, and the `None` that ends a push queue.
- Serialisation, compression, devices, dtypes, adapters, networking, the DHT, the HTTP API and the command line.
