# A verified model of AetherMoE

AetherMoE is a serving engine for mixture-of-experts models. This project models its hard core in
Dafny and proves what that core is for:

- **The lock-free ring** (`RingBuffer`, `RingRefinement`, `SpmcRing`). Every atomic access of every
  thread is a step. An ownership invariant over tickets holds after every schedule of any number of
  threads, and every run is a run of a bounded first-in first-out queue. The invariant needs two cells;
  with one, a concrete schedule overruns the ring. No call ever waits for another: run alone from any
  reachable state, it returns within seven steps.
- **Telemetry** (`Telemetry`, `TelemetryDrain`). On top of the same interleavings: every sample
  brought while recording is on is recorded, none is lost or counted twice, and a last drain accounts
  for all of them.
- **The paged KV cache and the continuous-batching scheduler** (`PageTable`, `PagedKVCache`,
  `Sequences`, `SchedulerSpec`, `SchedulerInvariants`, `SchedulerBlocked`, `SchedulerProgress`,
  `SchedulerReport`, `SchedulerRuns`, `SchedulerHistory`, `Scheduler`). Block ownership is a partition
  of the pool after every run, each iteration pays exactly for what it processes and reports exactly
  what it changed, generating sequences are never starved, an iteration processes nothing exactly when
  everything it could do is refused, and the scheduler drains exactly when that never happens with work
  left.
- **Encoding, framing and the socket transport** (`Bytes`, `Wire`, `Codec`, `Framing`, `Transport`).
  Round trips, rejection of every truncation, and recovery of the message sequence under any
  splitting of reads and writes.
- **Router, workers and failures** (`Assignment`, `RoutingSpec`, `Router`, `RoutingTheorems`,
  `Worker`, `ShardProtocol`, `ShardInvariants`, `ShardTermination`, `ShardCalls`, `Degradation`).
  The router, N workers and two bounded byte channels per shard form a transition system with a kill
  step that can fire anywhere. Nothing deadlocks, every call returns, and over any number of batches
  every result is its own token's or an accounted-for failure; a shard that is never killed is never
  affected.
- **The kernels over the reals** (`FlatBuffers`, `SimdSum`, `TopK`, `Gating`, `FusedGating`, `QuantizedGemm`). The
  fused gating kernel computes the reference, whose weights the ratios of the exponentials fix, with the
  exact condition under which tied logits can change the chosen experts; the fused INT8 product is
  dequantise-then-multiply, within bounds on the scale and on the weights themselves.

Code that the source writes as loops and mutation is a method or a class here, proved against a
function or a predicate on values; the theorems are about those functions and about whole runs of
them. `Wrappers`, `Counting` and `Metrics` hold what several modules share.
`dafny verify dfyconfig.toml` checks everything.

## Properties of the code worth knowing

- `try_push` and `try_pop` may report full or empty while a call on the opposite side is between its
  compare-exchange and its sequence store. `PushFailure` and `PopFailure` say exactly when;
  `FullWhileEmpty` and `EmptyWhileHeld` are schedules in which a push reports a full ring that holds
  nothing, and a pop reports an empty ring although a push has returned true and its item is held.
- A waiting sequence with an empty prompt is never admitted and blocks the queue behind it
  (src/core/scheduler.hpp:135-138). `DrainsIffNoEmptyPrompt` makes this an equivalence.
- `max_new_tokens == 0` still generates one token (src/core/scheduler.hpp:106-108), so a finished
  sequence has generated `max(1, max_new_tokens)`.
- There is no preemption. `NothingDoneIff` says exactly when an iteration processes nothing,
  `BlockedForever` that it then never will, and `DrainsIffNeverStuck` that this is the only obstacle.
  `HalfGrownReached` runs two short requests into such a state, `HalfGrownStuck`.
- `route_batch` names the expert found at index `batch_position` (src/orchestration/router.hpp:96-98)
  although the table is indexed by input order. `StrictEqualsTolerant` gives the exact condition under
  which that is right, `StrictMisannotates` a batch for which it is not.
- A batch or payload with 2^32 or more elements is written with a truncated count
  (src/orchestration/serialization.hpp:42, 87). `TokenBatchRoundTripIff` and
  `ResultBatchRoundTripIff` are the exact conditions.

## Model

| member | source | states |
|---|---|---|
| `RingBuffer.SlotIsRemainder` | src/core/spmc_ring_buffer.hpp:58 | the cell of a ticket is its position modulo the capacity |
| `RingBuffer.ClaimPush` | src/core/spmc_ring_buffer.hpp:62-66 | a producer that wins the compare-exchange found its cell free for this very ticket, with room in the ring; the invariant holds after |
| `RingBuffer.ClaimPop` | src/core/spmc_ring_buffer.hpp:87-91 | a consumer that wins the compare-exchange found its ticket published with the producer's item; the invariant holds after |
| `RingBuffer.NextInv` | src/core/spmc_ring_buffer.hpp:54-101 | every atomic step of every thread keeps the per-ticket ownership invariant and `deq <= enq <= deq + Capacity` |
| `RingBuffer.RunInv` | src/core/spmc_ring_buffer.hpp:35-101 | that invariant holds after every schedule of any number of threads, for any capacity of at least two |
| `RingBuffer.ExclusiveOwnership` | src/core/spmc_ring_buffer.hpp:73-74 | no two threads own the data of one cell at once |
| `RingBuffer.ConsumerReadsItsTicket` | src/core/spmc_ring_buffer.hpp:98 | the consumer of ticket p reads the item the producer of ticket p brought |
| `RingBuffer.PushFailure` | src/core/spmc_ring_buffer.hpp:67-68 | a push returns false if and only if, at its sequence load, its position was the cursor and the ticket one lap back was still queued or not yet released |
| `RingBuffer.PopFailure` | src/core/spmc_ring_buffer.hpp:92-93 | a pop returns false if and only if, at its sequence load, its position was the cursor and the ticket was not given out or not yet published |
| `RingRefinement.StepRefinesFifo` | src/core/spmc_ring_buffer.hpp:54-111 | every atomic step is a step of a bounded FIFO queue or invisible; reported sizes never exceed the capacity |
| `RingRefinement.RunRefinesFifo` | src/core/spmc_ring_buffer.hpp:54-111 | the run of the ring under any schedule is, state by state, a run of the queue from empty, so every queue content and every value returned during the run is the queue's |
| `RingRefinement.SoloPush` | src/core/spmc_ring_buffer.hpp:53-76 | with no other call in flight a push fails exactly when Capacity items are held, else appends its item |
| `RingRefinement.SoloPop` | src/core/spmc_ring_buffer.hpp:78-101 | with no other call in flight a pop fails exactly when the ring is empty, else takes the oldest item |
| `RingRefinement.SoloSize` | src/core/spmc_ring_buffer.hpp:107-111 | with no other call in flight the reported size is the number of items held |
| `RingRefinement.EveryCallReturnsAlone` | src/core/spmc_ring_buffer.hpp:54-111 | no call waits for another thread: from every reachable state, however the other calls were stopped halfway, a call that runs alone returns within seven atomic steps |
| `RingRefinement.FullWhileEmpty` | src/core/spmc_ring_buffer.hpp:67-68 | a schedule in which a push returns false while the ring holds nothing, a pop being between its compare-exchange and its release |
| `RingRefinement.EmptyWhileHeld` | src/core/spmc_ring_buffer.hpp:92-93 | a schedule in which a pop returns false while a completed push's item is held, an earlier push being between its compare-exchange and its publication |
| `RingRefinement.OneCellOverruns` | src/core/spmc_ring_buffer.hpp:35-36 | with one cell a schedule exists in which a second push claims the cell before the first item was popped |
| `SpmcRing.LockFreeRingBuffer.constructor` | src/core/spmc_ring_buffer.hpp:42-48 | an empty ring of the given capacity |
| `SpmcRing.LockFreeRingBuffer.TryPush` | src/core/spmc_ring_buffer.hpp:54-76 | sequential use: fails exactly when full and changes nothing then, else appends |
| `SpmcRing.LockFreeRingBuffer.TryPop` | src/core/spmc_ring_buffer.hpp:79-101 | sequential use: fails exactly when empty, else removes the oldest item |
| `SpmcRing.LockFreeRingBuffer.SizeApprox` | src/core/spmc_ring_buffer.hpp:107-111 | sequential use: exact, and at most the capacity |
| `Telemetry.StepConserves` | src/core/telemetry.hpp:165-170 | every step of a recorder or a drain keeps: samples recorded are samples collected, lost, in the ring or in the hands of a call, however samples are chosen |
| `Telemetry.RecordsIffEnabled` | src/core/telemetry.hpp:165-170 | recording a sample starts its push if telemetry is on and changes nothing if it is off; no other step records |
| `Telemetry.RecordedAreOffered` | src/core/telemetry.hpp:165-170 | over any interleaving the recorded samples are exactly those brought while the last switch had left telemetry on, in order |
| `Telemetry.RunConserves` | src/core/telemetry.hpp:165-235 | the same after any interleaving of recorders, drains and switching on and off; the drop counter counts the lost samples and each list holds the collected latencies of its kind in order |
| `Telemetry.LatenciesSum` | src/core/telemetry.hpp:231-234 | the latencies of a kind accumulate in the order of the samples |
| `Telemetry.LatenciesOfKind` | src/core/telemetry.hpp:231-234 | samples of a kind contribute their latencies to its list |
| `Telemetry.LatenciesOfOther` | src/core/telemetry.hpp:231-234 | and samples of the other kind nothing |
| `Telemetry.QuietAccount` | src/core/telemetry.hpp:165-235 | with no call in progress, samples recorded equal collected plus dropped plus still in the ring |
| `TelemetryDrain.PassCollects` | src/core/telemetry.hpp:231-234 | one pass of the loop succeeds exactly if the ring holds a sample, and else changes nothing |
| `TelemetryDrain.DrainCollectsAll` | src/core/telemetry.hpp:228-235 | with no recorder active the drain loop, run up to its failing `try_pop`, stops after exactly as many successful pops as the ring held samples, having collected them oldest first and nothing else |
| `TelemetryDrain.LastDrainAccountsForAll` | src/core/telemetry.hpp:203-207 | after the final drain every recorded sample was collected or counted as dropped |
| `PageTable.BlocksNeededIsRoundedUp` | src/core/page_table.hpp:60-62 | the block count is the rounded-up quotient the allocator computes |
| `PageTable.BlocksNeededIsCeiling` | src/core/page_table.hpp:18-22 | it is the least sufficient number of blocks and wastes at most block_size - 1 slots |
| `PageTable.GrowCorrect` | src/core/page_table.hpp:69-84 | a request succeeds exactly when the missing blocks are free, gives exactly what is needed, the top of the free stack first, keeps what was owned and affects nobody else |
| `PageTable.GrowKeepsLedger` | src/core/page_table.hpp:69-84 | every block stays exactly once on the free stack or in one table |
| `PageTable.FreeSequenceCorrect` | src/core/page_table.hpp:89-97 | freeing returns exactly the sequence's blocks |
| `PageTable.FreeKeepsLedger` | src/core/page_table.hpp:89-97 | every block stays exactly once on the free stack or in one remaining table |
| `PageTable.LedgerPartitions` | src/core/page_table.hpp:18-22 | block by block: never free twice, owned twice, owned by two, both free and owned, or lost |
| `PageTable.Conservation` | src/core/page_table.hpp:69-97 | free plus owned blocks are the whole pool |
| `PagedKVCache.PagedKVCacheAllocator.constructor` | src/core/page_table.hpp:36-49 | all blocks free, block 0 on top |
| `PagedKVCache.PagedKVCacheAllocator.Create` | src/core/page_table.hpp:36-49 | construction fails exactly for an empty pool or a zero block size |
| `PagedKVCache.PagedKVCacheAllocator.FreeBlockCount` | src/core/page_table.hpp:54-57 | the size of the free stack |
| `PagedKVCache.PagedKVCacheAllocator.BlocksNeededFor` | src/core/page_table.hpp:60-62 | the specification's block count |
| `PagedKVCache.PagedKVCacheAllocator.PopBlocks` | src/core/page_table.hpp:79-82 | the allocation loop takes the top blocks in order |
| `PagedKVCache.PagedKVCacheAllocator.EnsureCapacity` | src/core/page_table.hpp:69-84 | in place, the specification's all-or-nothing growth |
| `PagedKVCache.PagedKVCacheAllocator.FreeSequence` | src/core/page_table.hpp:89-97 | in place, the specification's free; unknown ids are a no-op |
| `Scheduler.SequenceObject.TransitionTo` | src/core/sequence.hpp:91-106 | throws exactly on the illegal pairs of the table and then changes nothing |
| `Sequences.NeverBack` | src/core/sequence.hpp:91-97 | the table allows exactly the transitions that do not go back in the order PREFILL, DECODE, FINISHED |
| `Scheduler.ContinuousBatchingScheduler.Admit` | src/core/scheduler.hpp:66-68 | appends to the waiting queue |
| `Scheduler.ContinuousBatchingScheduler.AppendToken` | src/core/scheduler.hpp:99-108 | one token and one latency sample, the first of a sequence being its time to first token |
| `Scheduler.ContinuousBatchingScheduler.FinishSequence` | src/core/scheduler.hpp:109-117 | phase FINISHED, blocks freed, out of the active set; the transition never throws |
| `Scheduler.ContinuousBatchingScheduler.EmitToken` | src/core/scheduler.hpp:99-117 | the decode loop's body after the grant computes the specification's |
| `Scheduler.ContinuousBatchingScheduler.DecodeOne` | src/core/scheduler.hpp:83-120 | one pass of the decode loop computes the specification's |
| `Scheduler.ContinuousBatchingScheduler.PrefillChunk` | src/core/scheduler.hpp:154-171 | the chunk computes the specification's; its transitions never throw |
| `Scheduler.ContinuousBatchingScheduler.DecodeLoop` | src/core/scheduler.hpp:83-120 | the first loop computes the specification's |
| `Scheduler.ContinuousBatchingScheduler.PrefillLoop` | src/core/scheduler.hpp:125-133 | the second loop computes the specification's |
| `Scheduler.ContinuousBatchingScheduler.AdmitLoop` | src/core/scheduler.hpp:135-143 | the third loop computes the specification's |
| `Scheduler.ContinuousBatchingScheduler.Step` | src/core/scheduler.hpp:75-146 | one iteration on the mutable objects computes the specification's state and results |
| `SchedulerInvariants.ChunkCorrect` | src/core/scheduler.hpp:154-171 | after a chunk the sequence owns exactly the blocks of its processed tokens and the pool is still partitioned |
| `SchedulerInvariants.ChunkSequence` | src/core/scheduler.hpp:154-171 | the cursor advances by the chunk, DECODE is entered exactly at the prompt's end, and a chunk of zero means refused, complete or chunk size zero |
| `SchedulerInvariants.StepCorrect` | src/core/scheduler.hpp:75-171 | every iteration keeps the invariant; its tokens sum to at most the budget and equal the exact drop in remaining work |
| `SchedulerReport.StepReport` | src/core/scheduler.hpp:75-171 | the results of an iteration are read off the sequences before and after it: one line for each active sequence that generated a token, then one for each active sequence whose cursor rose, each with its id, the number of tokens, and its phase after the iteration; nothing else is reported |
| `SchedulerReport.StepChunks` | src/core/scheduler.hpp:154-171 | a chunk never exceeds max_prefill_chunk, and is smaller only if the prompt ends or the budget is spent |
| `SchedulerBlocked.NothingDoneIff` | src/core/scheduler.hpp:75-171 | with positive budget and chunk size, in any pool, an iteration processes nothing if and only if every next request of an active sequence and of the queue's head is refused (or that head's prompt is empty) |
| `SchedulerBlocked.BlockedStep` | src/core/scheduler.hpp:75-171 | a blocked iteration reports nothing, changes no sequence except the phase of an empty prompt at the head, and leaves the scheduler blocked |
| `SchedulerProgress.NoStarvation` | src/core/scheduler.hpp:79-120 | with an active set within the budget and no refusal, the iteration's results start with exactly one token for every sequence in DECODE, in order, before any prefill, and the active set stays within the budget |
| `SchedulerProgress.StepNeverDenied` | src/core/scheduler.hpp:75-171 | if the worst cases of all live sequences jointly fit the pool, no block request of the iteration is refused and they still fit after |
| `SchedulerProgress.WorstCaseIs` | src/core/page_table.hpp:60-62 | the worst case of a sequence is the rounded-up block count of its prompt and all its tokens to generate |
| `SchedulerProgress.StepProgress` | src/core/scheduler.hpp:75-171 | under joint fit and no empty prompt an iteration with work processes at least one token |
| `SchedulerProgress.Drains` | src/core/scheduler.hpp:75-171 | then everything is finished after at most total-remaining-work iterations |
| `SchedulerProgress.DrainsIffNoEmptyPrompt` | src/core/scheduler.hpp:135-138 | under joint fit the scheduler drains if and only if no waiting prompt is empty |
| `SchedulerProgress.FittingIsNotBlocked` | src/core/page_table.hpp:69-84 | under joint fit and no empty prompt a scheduler with work is not blocked |
| `SchedulerProgress.BlockedForever` | src/core/scheduler.hpp:75-171 | once blocked, every later iteration is blocked and reports nothing |
| `SchedulerProgress.DrainsIffNeverStuck` | src/core/scheduler.hpp:75-171 | in any pool the scheduler drains if and only if it is never blocked with work left |
| `SchedulerRuns.RunInv` | src/core/scheduler.hpp:66-171 | after every run of arrivals and iterations: each active sequence owns exactly the blocks of its processed tokens, waiting ones own none, free and owned blocks partition the pool |
| `SchedulerRuns.ActiveFitsBudget` | src/core/scheduler.hpp:79-143 | in every run without a refused request the active set never exceeds `max_batch_tokens` |
| `SchedulerRuns.FittingRunNeverDenied` | src/core/page_table.hpp:69-84 | in every run whose arrivals jointly fit, no block request is ever refused |
| `SchedulerRuns.BoundedWaste` | src/core/page_table.hpp:18-22 | after every run each active sequence has fewer than block_size unused slots |
| `SchedulerRuns.HalfGrownReached` | src/core/scheduler.hpp:86-89 | two one-token requests reach a state in which each owns one of two blocks and needs another |
| `SchedulerRuns.HalfGrownStuck` | src/core/scheduler.hpp:86-89 | that state is blocked: every later iteration leaves it as it is |
| `SchedulerHistory.RunHistory` | src/core/scheduler.hpp:66-143 | over every run: finished, active and waiting hold each admitted sequence exactly once, active followed by waiting keeps admission order, and the telemetry log matches the generated tokens |
| `SchedulerHistory.RunAccountsForEverySequence` | src/core/scheduler.hpp:99-108 | every finished sequence generated max_new tokens, or one if that is zero, and recorded one time-to-first-token and an inter-token sample for each later token |
| `Wire.TokenBatchRoundTrip` | src/orchestration/serialization.hpp:85-113 | decoding an encoded token batch returns it |
| `Wire.TokenBatchRoundTripIff` | src/orchestration/serialization.hpp:85-113 | exactly when all counts fit 32 bits |
| `Bytes.PutLEAt` | src/orchestration/serialization.hpp:31-36 | byte k of a number is the one of weight 256^k |
| `Wire.WordAt` | src/orchestration/serialization.hpp:38-48 | payload word k stands at offset 4k |
| `Wire.TokenLayout` | src/orchestration/serialization.hpp:85-96 | the fields of a token, their widths and their order; the count is truncated to 32 bits |
| `Wire.ResultLayout` | src/orchestration/serialization.hpp:115-125 | the same of a result; the router-only fields do not travel |
| `Wire.BatchLayout` | src/orchestration/serialization.hpp:85-125 | a batch is its count, modulo 2^32, and its elements one after the other |
| `Wire.ResultBatchRoundTrip` | src/orchestration/serialization.hpp:115-141 | decoding an encoded result batch returns it with the router-only fields at their defaults |
| `Wire.ResultBatchRoundTripIff` | src/orchestration/serialization.hpp:115-141 | exactly when all counts fit 32 bits |
| `Wire.TokenBatchRejectsPrefixes` | src/orchestration/serialization.hpp:50-113 | every strict prefix of an encoded token batch is rejected as truncated |
| `Wire.ResultBatchRejectsPrefixes` | src/orchestration/serialization.hpp:50-141 | every strict prefix of an encoded result batch is rejected as truncated |
| `Codec.EncodeTokenBatch` | src/orchestration/serialization.hpp:85-96 | the appending loop writes the specified encoding |
| `Codec.DecodeTokenBatch` | src/orchestration/serialization.hpp:98-113 | the reading loop returns the specified tokens or the truncation error, for all bytes |
| `Codec.EncodeResultBatch` | src/orchestration/serialization.hpp:115-125 | the appending loop writes the specified encoding |
| `Codec.DecodeResultBatch` | src/orchestration/serialization.hpp:127-141 | the reading loop returns the specified results or the truncation error, for all bytes |
| `Framing.BERoundTrip` | src/orchestration/unix_socket_transport.hpp:87-101 | the eight-byte length decodes to what was encoded |
| `Framing.FrameLayout` | src/orchestration/unix_socket_transport.hpp:63-101 | a frame is an eight-byte header, most significant byte first, and the message |
| `Framing.ReceiveOne` | src/orchestration/unix_socket_transport.hpp:63-82 | receiving a frame returns the message and leaves what follows |
| `Framing.AtTheEnd` | src/orchestration/unix_socket_transport.hpp:129-145 | a closed stream gives the clean-close signal on a frame boundary and the error anywhere else |
| `Framing.ReceiverRecoversMessages` | src/orchestration/unix_socket_transport.hpp:63-150 | the receiver gets exactly the sent messages in order, then the right outcome for any partial frame |
| `Transport.UnixSocketTransport.EncodeLength` | src/orchestration/unix_socket_transport.hpp:87-93 | big-endian bytes of the length |
| `Transport.UnixSocketTransport.DecodeLength` | src/orchestration/unix_socket_transport.hpp:95-101 | the number the header writes |
| `Transport.UnixSocketTransport.WriteAll` | src/orchestration/unix_socket_transport.hpp:106-119 | writes exactly the data under any partial and interrupted writes, and throws only for a gone peer or a fault |
| `Transport.UnixSocketTransport.ReadAll` | src/orchestration/unix_socket_transport.hpp:129-150 | reads exactly the bytes asked for under any splitting, with the right outcome at the end of the stream |
| `Transport.UnixSocketTransport.Send` | src/orchestration/unix_socket_transport.hpp:63-70 | one frame; if it throws, what went out is a prefix of the frame |
| `Transport.UnixSocketTransport.Receive` | src/orchestration/unix_socket_transport.hpp:72-82 | the specified outcome and remaining bytes |
| `Worker.ProcessTokenPlaceholder` | src/orchestration/worker_shard.hpp:24-34 | id and position kept, the shard named; each payload word has its sign bit flipped and its other bits kept |
| `Worker.NegateAllInvolutive` | src/orchestration/worker_shard.hpp:30-32 | negation loses nothing |
| `Worker.ReplyDecodes` | src/orchestration/worker_shard.hpp:57-64 | the reply to an encoded batch decodes to each token's result, in order: its id, its position, the shard, and its payload with every sign bit flipped |
| `Worker.RunWorkerLoop` | src/orchestration/worker_shard.hpp:47-71 | under any schedule of the system calls: what went out are the replies of the messages answered so far and at most a part of the next one; without faults that part is empty and the loop stops exactly where no further answer is possible |
| `Worker.EveryBatchAnswered` | src/orchestration/worker_shard.hpp:47-71 | every batch a live router framed is answered, in order, and nothing else is sent |
| `Assignment.AssignEffectiveExperts` | src/orchestration/router.hpp:249-266 | the grouping and sorting loops carry out the ceiling rule, for any sort and any hash order |
| `Assignment.AssignedExactly` | src/orchestration/router.hpp:259-264 | with distinct positions a token keeps its primary exactly if fewer than capacity tokens with the same primary have a lower position, and else gets its secondary |
| `Assignment.AssignmentUnique` | src/orchestration/router.hpp:249-266 | with distinct positions the assignment is unique |
| `Assignment.KeepersCount` | src/orchestration/router.hpp:259-264 | exactly min(capacity, count) tokens of a group keep their expert |
| `Assignment.KeepersAreLowest` | src/orchestration/router.hpp:256-264 | they are those with the lowest positions |
| `Assignment.OrderIndependent` | src/orchestration/router.hpp:249-266 | each token gets the same expert in every order of the input |
| `RoutingSpec.EffectiveIsTheAssignment` | src/orchestration/router.hpp:249-266 | with distinct positions every way of carrying out the rule gives the same closed form |
| `RoutingSpec.EffectiveIsAssigned` | src/orchestration/router.hpp:249-266 | and the closed form is such a way |
| `RoutingSpec.DecodedPlain` | src/orchestration/router.hpp:174 | no reply can set the router-only fields, whatever its bytes |
| `RoutingSpec.FirstAtIsFirst` | src/orchestration/router.hpp:199-206 | the result taken for a position is the first one a reply holds for it |
| `RoutingSpec.BrokenIff` | src/orchestration/router.hpp:171-187 | a shard asked in a batch is found broken exactly if it has no transport, its transport throws or its reply does not decode |
| `Routing.Reassemble` | src/orchestration/router.hpp:286-313 | succeeds if and only if the positions are a bijection with 0..n-1, and then puts every result on its position; otherwise names a violation that is there |
| `Routing.Router.MakePlan` | src/orchestration/router.hpp:249-275 | effective experts and their shards, or the error of an expert without a shard |
| `Routing.Router.GroupByShard` | src/orchestration/router.hpp:131-134 | each shard's token indices in order |
| `Routing.Router.FailGroup` | src/orchestration/router.hpp:143-154 | exactly the group's slots get an accounted-for failure |
| `Routing.Router.PlaceResults` | src/orchestration/router.hpp:199-206 | each empty slot gets the first result for its position, with the token's own expert if it was sent to this shard; all else is unchanged |
| `Routing.Router.RouteBatchTolerant` | src/orchestration/router.hpp:127-234 | for arbitrary shard behaviour and visiting order: fails only for an expert without a shard; else the unhealthy set grows by exactly the shards found broken and every slot is as specified |
| `Routing.Router.RouteBatch` | src/orchestration/router.hpp:67-100 | for tokens with any positions: returns normally if and only if every shard answers and the replies cover 0..n-1 once; the expert is looked up by position as an index |
| `RoutingTheorems.CarriedIsPlain` | src/orchestration/router.hpp:174 | results arrive with the router-only fields unset, whatever bytes the transports deliver |
| `RoutingTheorems.EverySlotAccounted` | src/orchestration/router.hpp:136-233 | n results; slot p holds batch_position p, failed exactly when it is its own token's failure with the right id and expert, otherwise the first result for p that a shard asked in this call returned, with the token's expert if that shard is the token's own |
| `RoutingTheorems.TolerantOverHonest` | src/orchestration/router.hpp:127-234 | over honest shards, dead or alive, each slot is determined: failure if the shard is or becomes unhealthy, else the token's genuine result, its payload negated |
| `RoutingTheorems.StrictAccepts` | src/orchestration/router.hpp:67-100 | over live honest shards the strict method's positions are a bijection, for any order |
| `RoutingTheorems.StrictOverHonest` | src/orchestration/router.hpp:92-98 | the strict slot is the genuine result with the expert found at index batch_position |
| `RoutingTheorems.StrictEqualsTolerant` | src/orchestration/router.hpp:67-100 | strict and tolerant results are equal if and only if every token's expert is also the one at index batch_position |
| `RoutingTheorems.StrictEqualsTolerantInOrder` | src/orchestration/router.hpp:67-100 | in particular when every token stands at its own position |
| `RoutingTheorems.StrictMisannotates` | src/orchestration/router.hpp:96-98 | two swapped tokens with different experts get the wrong expert from the strict method |
| `RoutingTheorems.FaithfulIsHonest` | src/orchestration/worker_shard.hpp:47-71 | transports that deliver the worker's own reply or throw make the shards honest |
| `ShardProtocol.WorkerKeepsLink` | src/orchestration/worker_shard.hpp:47-71 | every step of a worker, and its death, conserves the bytes of the exchange under way |
| `ShardProtocol.RouterWriteKeepsLink` | src/orchestration/unix_socket_transport.hpp:106-119 | so does every partial write of the router |
| `ShardProtocol.RouterReadKeepsLink` | src/orchestration/unix_socket_transport.hpp:129-150 | so does every partial read; a whole reply is what the worker computed and leaves both channels empty |
| `ShardInvariants.StepKeepsInv` | src/orchestration/router.hpp:156-186 | every step of any process keeps the global invariant |
| `ShardInvariants.ChannelsEmptyBetweenCalls` | src/orchestration/router.hpp:127-234 | between calls every shard that was not given up has two empty channels |
| `ShardInvariants.GivenUpOnlyGrows` | src/orchestration/router.hpp:183-187 | over any run the set of unhealthy shards only grows |
| `ShardInvariants.NoDeadlock` | src/orchestration/router.hpp:78-90 | in every reachable state with a call under way some process can move, for any channel capacity of at least one byte and any kills |
| `ShardTermination.StepFalls` | src/orchestration/unix_socket_transport.hpp:106-150 | every step lowers a measure on the bytes left to move |
| `ShardTermination.EveryCallReturns` | src/orchestration/router.hpp:67-234 | no run within a call is longer than the measure at its start |
| `ShardTermination.CanFinish` | src/orchestration/router.hpp:67-234 | from every reachable state the call can be run to its end |
| `ShardCalls.TolerantIsAPlan` | src/orchestration/router.hpp:156-186 | the tolerant method's exchanges form a program the theorems cover |
| `ShardCalls.TolerantShape` | src/orchestration/router.hpp:156-186 | it sends one group and reads its reply before the next |
| `ShardCalls.ScatterGatherIsAPlan` | src/orchestration/router.hpp:76-90 | so does sending every group before reading any reply |
| `ShardCalls.ScatterGatherShape` | src/orchestration/router.hpp:76-90 | all sends in order, then all reads in the same order |
| `ShardCalls.TolerantCallSpares` | src/orchestration/worker_shard.hpp:47-71 | a worker that can answer what it is asked dies in a call only if it is killed |
| `ShardCalls.TolerantCall` | src/orchestration/router.hpp:171-187 | after a call each asked shard is given up, or answered this call's request with what the worker computes on it |
| `Degradation.RoundCorrect` | src/orchestration/router.hpp:127-234 | one batch end to end: every slot right, the unhealthy set matches the given-up links, all other channels empty |
| `Degradation.RoundPossible` | src/orchestration/router.hpp:102-234 | each round of a session starts in the processes' state and with the unhealthy set the rounds before it left |
| `Degradation.EveryRoundRight` | src/orchestration/router.hpp:102-234 | for every round of any session with workers killed at arbitrary points: every slot is right for the unhealthy set after the round, that set is the one before plus exactly the shards found broken, it names exactly the given-up links, and all other channels are empty |
| `Degradation.FreshSessionRight` | src/orchestration/router.hpp:102-234 | the same from fresh workers and an empty unhealthy set |
| `Degradation.NeverKilledNeverUnhealthy` | src/orchestration/router.hpp:116-117 | a shard whose worker is not killed is never marked unhealthy, whatever happens to the others |
| `Degradation.HealthyShardServed` | src/orchestration/router.hpp:116-117 | each token of a shard that is healthy after a round got its genuine result in it |
| `SimdSum.LanesAreDot` | src/kernels/fused_gating_metal.py:265-268 | every dimension is handled by one lane: the strided lane sums add up to the dot product |
| `SimdSum.GroupDot` | src/kernels/fused_gating_metal.py:259-268 | a SIMD group computes the dot product of two rows standing in flat buffers |
| `FlatBuffers.RowStandsAt` | src/kernels/fused_gating_metal.py:266 | row i of a flattened matrix begins at offset i times the width |
| `TopK.TopIsOrdered` | src/kernels/reference_gating.py:44-45 | a top selection has distinct in-range indices, descending logits, and leaves nothing larger out |
| `TopK.TopValuesAgree` | src/kernels/reference_gating.py:44-51 | all top selections have the same logits position by position |
| `TopK.ArgsortPrefixIsTop` | src/kernels/reference_gating.py:44-45 | the first k of any descending argsort are a top selection |
| `TopK.SetIsForcedIff` | src/kernels/reference_gating.py:44-45 | the selected set is the only possible one if and only if no tie crosses its boundary |
| `TopK.TiesLowestFirst` | src/kernels/fused_gating_metal.py:282-289 | an expert taken by extraction has a lower index than every later or untaken one of equal logit |
| `Gating.WeightsSumToOne` | src/kernels/reference_gating.py:56 | routing weights sum to one |
| `Gating.WeightsOrdered` | src/kernels/reference_gating.py:56 | weights lie in (0, 1] and a larger logit never weighs less |
| `Gating.SoftmaxInRatio` | src/kernels/reference_gating.py:56 | any two weights are to one another as the exponentials of their logits |
| `Gating.RatioUnique` | src/kernels/reference_gating.py:56 | that and the sum of one leave no other weights |
| `Gating.WeightsAgree` | src/kernels/reference_gating.py:38-56 | the kernel's weights equal the reference's at every position, for any order of ties |
| `Gating.ExpertsAgreeIff` | src/kernels/reference_gating.py:44-45 | the kernel picks the experts of every possible argsort if and only if no tie crosses its boundary |
| `Gating.ExtractedUnique` | src/kernels/fused_gating_metal.py:281-293 | extraction is deterministic, ties going to the lowest index |
| `FusedGating.GroupLogits` | src/kernels/fused_gating_metal.py:258-272 | a SIMD group writes the logits of every eighth expert and no others |
| `FusedGating.ComputeLogits` | src/kernels/fused_gating_metal.py:258-273 | after the barrier all logits are there, in any order of the groups |
| `FusedGating.LogitsAreReference` | src/kernels/reference_gating.py:38 | the logit of an expert is its bias plus the product of the row with column e of the weight matrix |
| `FusedGating.Transpose` | src/kernels/fused_gating_metal.py:328-345 | the host's copy is the expert-major layout of the row-major weights |
| `FusedGating.Scan` | src/kernels/fused_gating_metal.py:282-289 | the first strict maximum, or none |
| `FusedGating.ExtractTopK` | src/kernels/fused_gating_metal.py:276-293 | k rounds of destructive extraction select the k largest, lowest index first among ties |
| `FusedGating.WriteSlots` | src/kernels/fused_gating_metal.py:302-305 | the token's slots of the output buffers get its experts and weights |
| `FusedGating.Normalise` | src/kernels/fused_gating_metal.py:295-305 | weights sum to one and are to one another as the exponentials of the chosen values, shifted by the first |
| `FusedGating.FusedGating` | src/kernels/fused_gating_metal.py:361-388 | refuses exactly the unsupported shapes; otherwise the output buffers hold every token's experts and weights one token after the other, each gated by the token's own logits |
| `FusedGating.GatedMatchesReference` | src/kernels/reference_gating.py:38-57 | kernel and reference agree on the weights of a token over k distinct experts; they sum to one and are to one another as the exponentials of those experts' logits, the row's products with their weight columns plus bias |
| `QuantizedGemm.ClipChangesNothing` | src/kernels/quantized_gemm.py:72-75 | clipping never changes a quantised weight, also where the floor on the scale applies |
| `QuantizedGemm.WeightError` | src/kernels/quantized_gemm.py:70-83 | every weight survives the round trip within half a scale |
| `QuantizedGemm.RoundTies` | src/kernels/quantized_gemm.py:74 | a value halfway between two integers goes to the even one |
| `QuantizedGemm.FullRange` | src/kernels/quantized_gemm.py:70-75 | a column with an element of at least 127 times the floor uses the whole range: its largest element in magnitude is quantised to 127 or -127 |
| `QuantizedGemm.WeightWithin` | src/kernels/quantized_gemm.py:70-83 | if the elements stay within m, every weight survives the round trip within m / 254 |
| `QuantizedGemm.ZeroColumn` | src/kernels/quantized_gemm.py:73 | an all-zero column survives exactly |
| `QuantizedGemm.OutputError` | src/kernels/quantized_gemm.py:86-92 | an output is within half its column's scale times the sum of absolute inputs of the unquantised product |
| `QuantizedGemm.OutputWithin` | src/kernels/quantized_gemm.py:86-92 | if the elements of the column stay within m, an output is within m / 254 times the sum of absolute inputs |
| `QuantizedGemm.FusedElement` | src/kernels/quantized_gemm.py:120-137 | dequantise-at-multiply over strided lanes equals dequantise-then-multiply |
| `QuantizedGemm.FusedRow` | src/kernels/quantized_gemm.py:120-137 | for every output of a token, in any order of the SIMD groups |
| `QuantizedGemm.QuantizedMatmulRow` | prototype/math_proto.py:63-86 | quantise and multiply: every output is within both bounds, half the column's scale and m / 254 for any m the column's elements stay within, each times the sum of absolute inputs |

## Left out

- Weak memory orders, 64-bit cursor wrap-around and cache-line padding of the ring: the interleaving is sequentially consistent and cursors are unbounded. A weak compare-exchange may fail spuriously.
- The restriction of the capacity to powers of two: the ring is proved for every capacity of at least two, of which powers of two are an instance.
- Mutexes of the allocator and the flusher: their critical sections are single steps or single calls.
- Clock readings, and `compute_stats`, `snapshot` and `reset_for_testing` of src/core/telemetry.hpp: the mean, maximum and percentiles of the collected latencies are not computed; the lists they are taken from are modelled.
- Memory exhaustion in the C++ allocator, for example for a header that announces a huge message.
- Host byte order in src/orchestration/serialization.hpp: fixed to little-endian. Floats travel as 32-bit patterns and negation flips the sign bit.
- Failure-reason strings, and which shard a failed result names: the source leaves that field uninitialised and the model leaves it arbitrary.
- Strict calls that throw: they may leave unread replies behind, so the multi-batch theorems are about the tolerant method; the deadlock and termination theorems cover both programs, with a failed shard's operations dropped.
- Reconnection, cascading overflow and retries in the router: the source does not provide them.
- Worker.RunWorkerLoop: `answer` is a ghost parameter that names the function the shard computes, so that the contract can be stated without unfolding it; `Routing.Router.RouteBatch` and `Routing.Router.RouteBatchTolerant` take `talk` in the same way, and `peer` as what each shard's exchange comes to.
- The host-side caches of transposed weights and scalars in src/kernels: every launch transposes anew. The INT8 kernel's rows are given as sequences, without the offsets into its flat buffers.
- Scheduler.ContinuousBatchingScheduler.Admit: does not admit a finished or already queued sequence, which the source accepts; the first would make a later transition throw, the second would give two entries one identity.
- Routing.Router.RouteBatchTolerant: requires positions that are a permutation of 0..n-1, because the source writes failure results at the position without a bounds check (src/orchestration/router.hpp:151).
- Floating-point rounding, NaN and infinite inputs in the kernels: arithmetic is over the reals and the exponential is an abstract positive monotone function.
- src/api, src/main.cpp, src/orchestration/process_spawn.hpp, src/orchestration/chaos.hpp: arrivals are events of a run and deaths are kill steps; delays do not change behaviour.
- tools/double_buffer_demo.mm, benchmarks, plots and validation scripts.
