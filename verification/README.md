# A Dafny model of the BitMamba inference engine

BitMamba runs a recurrent language model with ternary weights on the CPU. Most of its code exists twice: a simple
form, and a parallel, unrolled, table-driven, in-place or incremental one that must agree with it. This project models
the fast forms in Dafny and proves the agreement.

* **Fork-join pool and in-dispatch barriers** (`NumaPlacement`, `Barrier`, `BarrierProgress`, `ForkJoin`,
  `ForkJoinProgress`, `ForkJoinPoll`, `ForkJoinFair`, `ForkJoinTask`): transition systems with one program counter per
  thread and one step per atomic operation. A run is a schedule, that is, a sequence of thread ids or actions, so
  statements about all schedules are statements about all interleavings. `Barrier.Step` models lines 594-670 of
  src/threadpool.c, `ForkJoin.Step` lines 170-229 and 445-541. `ForkJoinTask` runs the fused layer step inside the
  pool.
* **Work distribution** (`WorkRange`, `WorkSteal`): the static partition and the chunk-claiming row worker.
* **One layer step** (`Scan`, `ScanReference`, `ScanBatch`, `FusedBlock`, `FusedBlockRuns`, `FusedDispatch`,
  `FusedMachine`, `FusedStale`): the ring buffer as a shift register, the scalar kernel against its written-out
  recurrence, the channel-sliced batch scan, and the four-phase dispatch with its three barriers. `FusedBlock` guards
  the barriers by who has arrived; `FusedDispatch` puts the counters of the two-level barrier in place of the guards
  and shows the guarded dispatch to simulate it; `FusedMachine` takes the barrier a pool gets on a given machine, and
  `FusedStale` follows what a race costs there.
* **Prompt ingestion** (`Prefill`, `LayerDispatch`): layer-major against token-major order. The plain layer step and
  batch scan it uses are shown in `LayerDispatch` to be what the fused dispatch and the sliced scan compute on every
  schedule.
* **Ternary products** (`Ternary`, `Tmac`, `Avx2`, `Avx2Rows`, `RowDispatch`): packed format, lookup tables, cache
  blocks, lanes with saturating and wrapping arithmetic, all equal to the naive product, in any order of the rows.
* **Sampling** (`TopHeap`, `TopK`, `Nucleus`, `Sampler`, `SampleSpec`, `SampleMeaning`, `SampleAdvanced`): histogram
  cutoff, in-place heap, nucleus, partial sort, and the whole sampler against a textbook one.
* **Tokenizer** (`ProbeIndex`, `ByteEncoding`, `Tokenizer`, `TokenizerLaws`) and **chat** (`StopMachine`, `Evaluator`,
  `EvaluatorLaws`).
* **Weight file** (`WeightFile`, `WeightLayout`): exporter stream, its bytes, and mapped reader.

## Assumptions

* Interleaving semantics: every atomic operation, lock operation and wait is one indivisible step. The release and
  acquire pairs of the source (mailbox generation, done generation, barrier phases) are what justifies it.
* Floating-point numbers are reals; exp, softplus, silu, log, pow, fmod, strtod, qsort and the hash function are
  parameters, with only the properties a statement names. The per-channel formula of the scalar kernel is written out
  (`Scan.ScalarKernel`), but the equalities hold for any deterministic formula.
* Files, the clock, the random generator and the model's answers in a chat turn are parameters.
* One row product, one channel update and one quantized element are single steps of the fused dispatch.
  `FusedMachine.NoRace` is what makes a finer grain indistinguishable.

## Where the promise needs a condition

* The barrier is safe on all runs exactly when there is one NUMA node or a CPU for every thread
  (`BarrierProgress.BarrierSafeIff`): the placement loop leaves later tids on no node's count. A fused layer step with
  a row for every thread is free of data races under the same condition (`FusedMachine.RaceFreeIff`); without it a
  scan can start on a projection that lacks a row (`FusedMachine.Unprovided`), and the channel keeps the wrong value
  (`FusedStale.StaysStale`, `FusedStale.ScannedRightIff`).
* No wakeup is lost exactly when poll intensity never goes back to 100 after having been below it, or there are no
  condition variables (`ForkJoinPoll.NoLostWakeupIff`); otherwise a call can wait for ever
  (`ForkJoinPoll.LostWakeup`).
* Top-k selection is exact on all inputs exactly when converting a distance of 2^31 or more to a C int saturates
  (`TopK.ExactIff`); the C standard leaves that conversion undefined. The guard against an empty candidate list is
  reachable only if all logits lie below -1e30 (`TopK.GuardUnreachable`, `TopK.GuardIff`).
* The row offsets of the products are C ints exactly while `(rows - 1) * stride < 2^31` (`Tmac.OffsetsFitIff`; with
  the column tail `rows * stride <= 2^31`, `Tmac.IndicesFitIff`). The header limits each dimension to 2^20 and so does
  not ensure it (`Tmac.OffsetsOverflow`).
* The batched and the stepwise path agree on all models exactly for prompts without an invalid id
  (`Prefill.EitherWayIff`).
* A float tensor stays inside the file exactly when the extent its header announces ends below 2^64
  (`WeightFile.ReadInside`); `WeightFile.ReadEscapes` gives legal dimensions for which it does not. The reader tests
  its short headers without wrap-around in the model, which is the same thing for a file mapped in the lower half of
  the address space.
* The comment at line 1112 of src/chat.c says the n-gram test covers lengths 4 to 16; the code, and the model, cover 3
  to 16.
* The evaluator's grammar is relative to the number reader. A factor takes one leading minus itself; a second sign
  goes to `strtod`, so `--2^2` is minus the square of minus two.

## Model

| member | source | states |
|---|---|---|
| NumaPlacement.ThreadPool.PlaceThreads | src/threadpool.c:283-294 | after the placement loop every tid below the CPU total is on the node that owns its CPU, every reached node records exactly its share and first tid, whatever earlier pools left in the tables |
| NumaPlacement.ThreadPool.BarrierInit | src/threadpool.c:566-592 | the per-node counts are the numbers of tids the CPU ranges give each node, and the active-node count is the number of nodes that got one; a flat barrier on one node |
| NumaPlacement.OnNodeUnique | src/threadpool.c:285-293 | a tid lies in the CPU range of at most one node |
| Barrier.StepInv | src/threadpool.c:594-670 | the inductive invariant of the two-level barrier survives every atomic step of every thread: arrival counters equal the sizes of the current rounds, one leader per node, a recorded phase is at most one behind |
| Barrier.RunInv | src/threadpool.c:594-670 | hence on every schedule |
| Barrier.BarrierSafe | src/threadpool.c:594-670 | on every run no thread returns from its k-th wait before all n threads have entered their k-th wait, with 32-bit counters that wrap |
| BarrierProgress.RefinesSpec | src/threadpool.c:594-670 | every step of the two-level barrier is an arrival, a legal return or invisible with respect to an abstract barrier that knows only how often each thread has arrived and left |
| BarrierProgress.CanAdvance | src/threadpool.c:594-670 | no deadlock: while a thread has not completed its k-th wait, some such thread can take a step |
| BarrierProgress.StepWork | src/threadpool.c:594-670 | every step that changes something brings the round nearer its end |
| BarrierProgress.CanFinish | src/threadpool.c:594-670 | from every reachable state all threads can complete any number of further rounds |
| BarrierProgress.CountersOnReentry | src/threadpool.c:594-670 | a waiter is at most one release behind its counter; a counter nobody has reached in its current round reads the number of arrivals so far, and one about to be released reads zero; the phase is the number of releases modulo 2^32 |
| BarrierProgress.PoolMakesConfig | src/threadpool.c:283-302 | the pool tables built by the placement loop are the node map the barrier model runs on |
| BarrierProgress.PoolExact | src/threadpool.c:577-591 | with a CPU for every thread, or one node, each node count equals the number of active tids placed on that node |
| BarrierProgress.Oversubscribed | src/threadpool.c:283-294 | with more threads than CPUs on several nodes some run lets threads through before another has arrived (the schedule is constructed) |
| BarrierProgress.BarrierSafeIff | src/threadpool.c:566-670 | the barrier is safe on all runs if and only if the machine has one node or at least as many CPUs as threads |
| ForkJoin.StepInv | src/threadpool.c:170-229 | every atomic step of the dispatcher, a worker, a spurious wakeup, a poll change or a shutdown keeps the pool invariant (mailbox generation, own generation, done generation and execution log of every worker) |
| ForkJoinProgress.ExactlyOnce | src/threadpool.c:445-508 | whenever main is between operations, each tid has executed, in order, exactly the calls the schedule asked for that include it, each with the function and argument asked for and the smaller of task count and pool size as thread count, and no worker is inside a task |
| ForkJoinProgress.NeverStale | src/threadpool.c:214-227 | a worker inside a task runs the call in progress, and that call includes it |
| ForkJoinProgress.PublishAlone | src/threadpool.c:466-469 | the dispatch fields are written only while every worker is in its wait loop |
| ForkJoinProgress.NoLostWakeup | src/threadpool.c:187-217 | a worker asleep with a new generation or the shutdown flag posted has a signal still to come, as long as poll intensity is not raised to 100 after having been below |
| ForkJoinProgress.OperationsEnd | src/threadpool.c:502-541 | every call and the shutdown can run to their end; after the shutdown every worker has returned |
| ForkJoinProgress.ShutdownIsFinal | src/threadpool.c:519-541 | once shutdown is posted no schedule executes a task again |
| ForkJoinProgress.CanAdvance | src/threadpool.c:170-229 | unless the dispatcher is idle or gone, the dispatcher or the worker it waits for can take a step that decreases a measure |
| ForkJoinPoll.LostWakeup | src/threadpool.c:170-217 | for every pool with condition variables and every sequence of poll intensities in which 100 follows a lower value: a schedule that goes through a part of the sequence ends in a call that waits for ever, whatever the threads do |
| ForkJoinPoll.NoLostWakeupIff | src/threadpool.c:476-517 | on all schedules whose poll intensities follow a given sequence no wakeup is lost, if and only if there are no condition variables or the sequence never goes back to 100 from below |
| ForkJoinPoll.SteadyMeans | src/threadpool.c:510-517 | that condition, spelled out over positions of the sequence |
| ForkJoinFair.StepNearer | src/threadpool.c:170-229 | no step of any thread moves the operation in progress away from its end; one that does not bring it nearer is spinning |
| ForkJoinFair.FairRunsReturn | src/threadpool.c:445-541 | every schedule in which every thread keeps taking steps completes the call or shutdown in progress, within a number of rounds computed from the state |
| WorkRange.Adjacent | src/threadpool.h:26-49 | ranges start at 0, each begins where the previous one ends, the last ends at the number of tasks, sizes differ by at most one |
| WorkRange.Partition | src/threadpool.h:26-49 | every task belongs to exactly one thread's range |
| WorkSteal.StepInv | src/arch/avx2.c:245-268 | every claim, row and fetch-add step keeps the invariant that chunks in hand are distinct and each row of a finished chunk has been computed once |
| WorkSteal.NoRowRace | src/arch/avx2.c:245-268 | no two threads are ever about to compute the same row, and the row about to be computed is fresh |
| WorkSteal.FinalRuns | src/arch/avx2.c:245-268 | at the end a row has been computed exactly once, or not at all if its chunk lies between the participating tids and the counter's initial value |
| WorkSteal.CoversIff | src/arch/avx2.c:245-268 | every complete run computes every row exactly once if and only if no chunk falls in that gap |
| WorkSteal.ForwardDispatchCovers | src/arch/avx2.c:689-712 | the capped dispatch of the forward pass never has such a gap, because chunks hold at least eight rows |
| WorkSteal.CanFinish | src/arch/avx2.c:245-268 | every reachable state can be run to completion |
| Scan.SsmInner | src/kernel.c:34-70 | the kernel with cached head values leaves exactly what stepping the channels one by one with freshly computed head values leaves |
| Scan.ScanRangeMeaning | src/kernel.c:34-70 | after channels lo to hi, each of them has its input in the written slot and its new state and output computed from the old taps; nothing else has changed |
| Scan.RingIsShift | src/block.c:88-107 | overwriting the oldest slot and moving the position on is a shift register, for every channel and ring position; other channels are untouched |
| Scan.PosAfterIsModulo | src/block.c:107-107 | the incremental ring position after k tokens is the position plus k modulo three |
| Scan.TapsAreLastInputs | scripts/generate-golden.py:122-127 | the three taps are always the last three inputs in order, with zeros before the first |
| Scan.Block.constructor | src/block.c:25-25 | a fresh block remembers three zero inputs and a zero state on every channel |
| Scan.Block.ScanToken | src/block.c:83-108 | one token takes every channel one step of the shift-register reference, writes its output row and nothing else, and moves the ring position |
| Scan.Block.ScanPrompt | src/block.c:427-430 | token after token: output row t holds the reference outputs of token t, states and windows are those after the last token |
| ScanReference.FirstPrompt | scripts/generate-golden.py:100-140 | a fresh block fed a prompt: every output and state is that of the written-out recurrence, convolution bias plus four taps over projs[t-3..t][d+i] with zeros before the first token, decay, input, gate and skip read from the named entries of the projection rows |
| ScanReference.OutputsAre | scripts/generate-golden.py:118-140 | the scalar kernel's output of channel i at token t is that recurrence's, for all weights and prompts |
| ScanReference.AllTokens | scripts/generate-golden.py:118-140 | and so are its state and its window |
| Scan.OutputOverwritten | src/kernel.c:46-69 | a full call overwrites the output row, so what the scratch row held before does not matter |
| ScanBatch.StepInv | src/block.c:127-160 | every channel step of every thread keeps: each channel has seen exactly the tokens its owner has processed |
| ScanBatch.DisjointChannels | src/block.c:127-160 | threads at work are on different channels |
| ScanBatch.BatchIsSequential | src/block.c:412-430 | for every token count, thread count and interleaving the batch leaves the outputs, states, ring contents and ring position of token-by-token stepping |
| FusedBlock.StagesAreBarrierSteps | src/block.c:188-260 | threads change phase only as the abstract barrier allows |
| FusedBlock.LeaveIsOpen | src/block.c:188-260 | and whenever the abstract barrier lets a thread leave, the guard of the model is open |
| FusedBlock.StepInv | src/block.c:188-260 | every row, channel, quantization, claim and barrier step keeps the phase invariant |
| FusedBlock.InputIntact | src/block.c:296-319 | while a thread can still read the quantized input, nobody has overwritten it |
| FusedBlockRuns.FusedIsSequential | src/block.c:188-371 | behind barriers that open once all have arrived, the fused dispatch leaves on every complete interleaving the memory of in_proj, scan, prepare, out_proj run in order |
| FusedBlockRuns.NoRace | src/block.c:188-260 | behind such barriers no two threads are ever about to touch one location with a write among the two accesses |
| FusedBlockRuns.WritesOnly | src/block.c:188-260 | a step changes nothing outside its write footprint |
| FusedBlockRuns.ReadsOnly | src/block.c:188-260 | what a step writes and where it goes depends only on its read footprint |
| FusedBlockRuns.OverwriteIsLate | src/block.c:233-241 | behind such barriers thread 0 quantizes into the shared buffer only when every thread is through with its in_proj rows |
| FusedBlockRuns.CanAdvance | src/block.c:188-260 | behind such barriers some worker can move while one has not returned |
| FusedBlockRuns.CanFinish | src/block.c:188-260 | and every reachable state can be run until all workers have returned |
| FusedDispatch.ReturnIsOpen | src/block.c:188-260 | when the two-level barrier lets a thread return, the guard of the abstract dispatch is open for it |
| FusedDispatch.StepInv | src/block.c:188-371 | the dispatch on the real barrier, one atomic operation of a wait at a time, simulates the guarded one: every step is a step of it or invisible to it |
| FusedMachine.FusedIsSequential | src/block.c:188-371 | with one node or a CPU for every thread: on every complete interleaving of row, channel, claim and barrier operations the dispatch leaves the projection, scan output, ring and states, quantized buffer, scale and layer output of the four phases run in order |
| FusedMachine.NoRace | src/block.c:188-260 | under the same condition no two threads are ever about to touch one location with a write among the two accesses |
| FusedMachine.OverwriteIsLate | src/block.c:233-241 | under the same condition thread 0 quantizes into the shared buffer only when every thread is through with in_proj |
| FusedMachine.StepNearer | src/block.c:188-260 | every step of every thread is spinning or brings the dispatch nearer its end |
| FusedMachine.CanAdvance | src/block.c:188-260 | while a worker has not returned, some worker has a step that is not spinning |
| FusedMachine.FairRunsReturn | src/block.c:188-260 | on every infinite schedule that keeps giving every thread a step all workers return |
| FusedMachine.CanFinish | src/block.c:188-260 | every reachable state can be run until all workers have returned |
| FusedMachine.Unprovided | src/threadpool.c:283-302 | with several nodes and a thread that has no CPU but a row of in_proj: a constructed run on which thread 0 scans a projection that lacks this row |
| FusedMachine.RaceFreeIff | src/block.c:188-371 | a fused step with a row for every thread is free of data races on all runs if and only if the machine has one node or a CPU for every thread |
| FusedStale.StaysStale | src/block.c:188-371 | with several nodes and a thread that has no CPU but a row of in_proj: a constructed run after which state and output of channel 0 come from a projection with stale rows, whatever happens afterwards |
| FusedStale.ScannedRightIff | src/block.c:188-371 | for a layer whose first channel feels those rows: on all runs every scanned channel has its sequential state and output if and only if the machine has one node or a CPU for every thread |
| ForkJoinTask.StepInv | src/threadpool.c:170-229 | pool, fused worker and real barrier in one state: every step of every thread keeps that a worker done with the call, and main once it collects, has returned from the function |
| ForkJoinTask.StepLower | src/block.c:188-371 | and is spinning or brings the call nearer its end |
| ForkJoinTask.CallEnds | src/threadpool.c:445-508 | from every state inside a call, on every infinite schedule that keeps giving every thread a step, main comes back |
| ForkJoinTask.FusedCallReturns | src/block.c:272-371 | from every idle pool, with one node or a CPU for every thread: the dispatched fused step returns on every such schedule, its three barriers included, and leaves the memory of the four phases in order |
| LayerDispatch.FusedIsLayerStep | src/block.c:272-371 | on every schedule, on the real barrier, the fused dispatch followed by the residual is the plain layer step that prompt ingestion is compared with |
| LayerDispatch.BatchScanIsScanTokens | src/block.c:412-430 | on every schedule the batched scan leaves the ring, position and outputs of the plain batched layer |
| Prefill.BatchHead | src/block.c:378-450 | a batched layer on a first token and the rest is that layer on the token, then batched on the rest from the new state |
| Prefill.LayerMajorIsTokenMajor | src/model.c:1130-1148 | for all layers, states and tokens, layer by layer over the batch ends in the same recurrent states and final activations as token by token through all layers |
| Prefill.PrefillSplit | src/model.c:1130-1148 | prefill of a concatenation is prefill of the first part followed by prefill of the second |
| Prefill.Model.Prefill | src/model.c:1113-1148 | the two loops leave what token-by-token stepping leaves; entry by entry: rows of the input projection, channel steps, and every final activation is the embedding (of id 0 for an invalid id) plus the sum over the layers of the output row |
| Prefill.Model.ForwardStep | src/model.c:1189-1216 | one token through all layers, entry by entry, the final activation being the embedding plus the sum over the layers of the output row; an invalid id is refused and no state changes |
| Prefill.TokenStepAdds | src/model.c:1205-1216 | the layers' projections, channel states, ring windows and outputs entry by entry, and the residual sum over all layers as a sum of reals |
| Prefill.TokenMajorAdds | src/model.c:1130-1148 | the same for every token of a prompt, with the states in between |
| Prefill.PrefillIsStepping | src/model.c:1130-1220 | for valid ids ingesting a prompt in a batch or one id at a time leaves the same states |
| Prefill.InvalidIdsDiffer | src/model.c:1114-1119 | for every prompt with an invalid id the two ways differ on a one-channel block of the scalar formula, with explicit weights, from every state |
| Prefill.EitherWayIff | src/model.c:1113-1220 | the two ways agree on every model if and only if the prompt has no invalid id (given library functions with exp(0) = 1 and a positive activation and time step at some bias) |
| Ternary.Tables.constructor | src/quantization.c:33-53 | the tables hold the decoded weights and the positive and negative masks of every byte |
| Ternary.MaskBits | src/quantization.c:40-51 | bit j of a mask is set exactly when weight j has that sign |
| Ternary.PackUnpack | scripts/export-bin.py:99-107 | every packed ternary weight is read back through the unpack table |
| Tmac.BuildLut | src/kernel.c:136-157 | each of the sixteen entries is the subset sum of its mask |
| Tmac.TermIsGroupDot | src/kernel.c:179-232 | the positive entry minus the negative entry is the four-weight dot product |
| Tmac.LutSumIsDot | src/kernel.c:174-290 | a block of lookups is the naive dot product over the block's columns |
| Tmac.BlockBound | src/kernel.c:412-425 | a block total lies within 2^17 in magnitude when activations are 8-bit |
| Tmac.OneRow | src/kernel.c:259-288 | four accumulators over eight groups at a time and the tail give the block total |
| Tmac.TwoRows | src/kernel.c:188-254 | the same for two rows side by side |
| Tmac.RowWorker | src/kernel.c:174-290 | a worker adds the block total to exactly the rows of its range |
| Tmac.Forward | src/kernel.c:393-447 | tables, cache blocks, unrolling, threads and the remainder columns give the scale times the naive ternary product, for every shape (offsets unbounded, see Tmac.OffsetsFitIff) |
| Tmac.OffsetsFitIff | src/kernel.c:189-190 | every row offset the kernels compute is a C int if and only if (rows - 1) * stride < 2^31 |
| Tmac.IndicesFitIff | src/arch/avx2.c:157-158 | and every byte index of the column tail if and only if rows * stride <= 2^31 |
| Tmac.OffsetsOverflow | src/model.c:402-421 | legal dimensions, 2^20 rows and 2^14 columns, for which it is not |
| Avx2.ShiftedField | src/arch/avx2.c:128-135 | shifting the little-endian 64-bit word and masking takes the wanted two bits of every byte, whatever is shifted in |
| Avx2.WeightAt | src/arch/avx2.c:128-135 | lane position 8k+j holds weight k of byte j, decoded as the table does |
| Avx2.DeinterleaveAt | src/arch/avx2.c:142-146 | byte shuffle and word permutation bring activation 4j+k to lane position 8k+j |
| Avx2.OffsetCancels | src/arch/avx2.c:136-137 | with activations offset by 128 neither 16-bit pair sum saturates, the difference does not wrap, and it is the signed product |
| Avx2.LaneAt | src/arch/avx2.c:126-146 | each 32-bit lane of one step is the sum of its four weight-activation products |
| Avx2.MachineArithmetic | src/arch/avx2.c:126-139 | the instructions modelled saturate to the nearest 16-bit value or wrap modulo 2^16 and 2^32 |
| Avx2Rows.StepLanes | src/arch/avx2.c:126-139 | accumulating a step never wraps a 32-bit lane for up to 2^20 columns |
| Avx2Rows.LanesAreDot | src/arch/avx2.c:126-139 | the eight lanes together are the naive dot product so far |
| Avx2Rows.HorizontalIsDot | src/arch/avx2.c:12-20 | the horizontal sum adds the lanes without wrap-around |
| Avx2Rows.RowGroup | src/arch/avx2.c:163-183 | a group of rows sharing each activation load gets the naive totals, column tail included |
| Avx2Rows.RowBlock | src/arch/avx2.c:99-230 | 8-row, 4-row and 1-row loops store the scaled naive product of every row of the range and nothing else |
| Avx2Rows.Rows | src/arch/avx2.c:99-230 | on the packed file layout the kernel gives the scale times the naive ternary product of each row, for up to 2^20 columns (offsets unbounded, see Tmac.IndicesFitIff) |
| Avx2Rows.RowSumIsDot | src/arch/avx2.c:99-230 | accumulating lane steps, summing the lanes and adding the column tail is the naive product of one row |
| RowDispatch.UpdatedOnce | src/arch/avx2.c:245-268 | on every complete schedule without a chunk gap each output is updated exactly once, from its old value |
| RowDispatch.LaneForward | src/arch/avx2.c:667-712 | for every thread count, node count and interleaving of claims and rows storing in each row step what the lanes compute leaves the scaled naive product in every row |
| RowDispatch.TableForward | src/kernel.c:393-447 | whatever the interleaving inside the dispatch of each cache block, every row of the table product ends as the scaled naive product |
| TopHeap.SiftDown | src/model.c:50-66 | in-place sifting computes the sift function on the first n items and leaves the rest alone |
| TopHeap.SiftHeap | src/model.c:50-66 | sifting repairs a heap with one fault |
| TopHeap.SiftKeeps | src/model.c:50-66 | sifting permutes |
| TopHeap.OfferTop | src/model.c:247-252 | replacing the root by a larger candidate keeps the heap exactly the largest items seen |
| TopHeap.SelectTop | src/model.c:240-254 | heap of the first k, then the others in order: exactly the k largest, as a multiset |
| TopHeap.SelectInPlace | src/model.c:240-254 | the same in the candidate buffer, whose other places keep their items |
| TopK.CandsAre | src/model.c:216-224 | candidates are exactly the id-logit pairs at or above the threshold, each once |
| TopK.CountedAreExtracted | src/model.c:182-224 | what the top buckets count, the extraction finds |
| TopK.SurvivorsExact | src/model.c:178-254 | survivors are the top min(k, size of C) of the set C of logits within 128 buckets of the maximum that pass min_p, provided every out-of-range conversion lands in the last bucket |
| TopK.GuardIff | src/model.c:226-237 | no candidate is extracted if and only if every logit is below the limit |
| TopK.GuardUnreachable | src/model.c:226-237 | the guard cannot fire as soon as one logit reaches -1e30, whatever an out-of-range conversion gives |
| TopK.ExactIff | src/model.c:189-194 | selection is exact on all inputs if and only if the float-to-int conversion of distances from 2^31 on saturates |
| TopK.SpreadFails | src/model.c:189-194 | for any conversion that does not, three concrete logits lose a member of the top two |
| TopK.SelectCandidates | src/model.c:178-254 | histogram, cutoff, extraction and heap loops leave exactly the survivors in the buffer |
| TopK.ScaleAndMax | src/model.c:157-163 | one pass scales every logit and finds the maximum, starting from -1e30 |
| Nucleus.MinPKeeps | src/model.c:79-87 | on a descending list the min_p cut keeps exactly the items at or above the threshold, and the first |
| Nucleus.NucleusIff | src/model.c:90-99 | the nucleus is the shortest non-empty prefix whose sum reaches top_p, or everything |
| Nucleus.PickIff | src/model.c:105-117 | index i is chosen exactly when the draw lies between consecutive prefix sums, the last index also beyond the end; the interval is as long as the probability |
| Nucleus.NoFallback | src/model.c:110-117 | with a draw below one and positive mass the fallback return is not taken |
| Nucleus.FilterAndSample | src/model.c:72-118 | the loops return the id at the position the cuts and the draw determine |
| Nucleus.TopPlaces | src/model.c:322-354 | the sorted top k and the sorted whole have equal values place by place, whatever the sort does with ties |
| Nucleus.PartialIsFull | src/model.c:322-354 | when the top reaches top_p: same nucleus, same renormalizing sum, same position, same probability as after a full sort, and the same id if probabilities are distinct |
| Nucleus.SampleNucleus | src/model.c:322-360 | with or without the shortcut the returned id is as probable as the one a full sort draws, and that very one if all differ |
| Sampler.MinPEquivalence | src/model.c:165-174 | the threshold on logits is the post-softmax min_p filter |
| Sampler.Softmax | src/model.c:256-269 | in place every item keeps its id and gets exp(value - shift) over the sum |
| Sampler.SoftmaxOrder | src/model.c:256-269 | softmax keeps the order |
| Sampler.Greedy | src/model.c:143-154 | the first largest logit, if one exceeds -1e9 |
| Sampler.SampleTopK | src/model.c:176-280 | the returned id is a token in range, namely the one the draw selects from the softmax of the survivors (in descending order when the nucleus is cut), or the argmax when there is no survivor |
| SampleAdvanced.Sample | src/model.c:135-361 | below temperature 0.05 the greedy choice; otherwise every logit becomes itself over the temperature, the token returned is at least min_p times as likely as the likeliest, and it is the one a textbook sampler draws: softmax, exactly the tokens that pass min_p (with top_k up to 256 the best of them in reach of the histogram), in descending order if a cut needs it, nucleus and top_k cut, share of the mass the draw falls into |
| SampleMeaning.SampledIsTextbook | src/model.c:165-361 | threshold, selection, softmax, arrangement and draw are those of the textbook sampler, unless all logits lie below -1e30 or an out-of-range conversion does not saturate |
| SampleMeaning.SampledIsLikely | src/model.c:165-361 | whatever the logits and the conversion, the token returned passes min_p |
| SampleMeaning.ThresholdIsPasses | src/model.c:165-174 | a logit reaches the threshold if and only if its softmax probability over all tokens is at least min(1, min_p) times the largest |
| SampleMeaning.SoftShift | src/model.c:256-269 | softmax of logits less the maximum is the textbook softmax |
| ProbeIndex.InsertKeeps | src/tokenizer.c:250-254 | putting a token in the first empty slot of its probe keeps every token reachable behind smaller ids only |
| ProbeIndex.Index.Insert | src/tokenizer.c:250-254 | the probe ends and the token gets the next id |
| ProbeIndex.Index.Lookup | src/tokenizer.c:208-220 | for every string the probe ends with the smallest id whose token equals it, or -1 exactly when none does; for any hash function |
| ProbeIndex.Index.Load | src/tokenizer.c:234-254 | loading succeeds exactly when all entries are there and none is overlong, and then indexes them all |
| ByteEncoding.ByteMap | src/tokenizer.c:18-52 | the byte map is injective and the reverse map is its inverse, defined exactly on its values |
| ByteEncoding.Maps.constructor | src/tokenizer.c:18-52 | the initialization loops fill both maps so |
| ByteEncoding.DecodeEncode | src/tokenizer.c:55-120 | decoding inverts encoding for every byte string |
| ByteEncoding.PrefixCode | src/tokenizer.c:55-66 | an encoding is a prefix of another only if the byte strings are (UTF-8, section 3 of RFC 3629) |
| ByteEncoding.EncodeText | src/tokenizer.c:69-78 | the loop computes the encoding, and its bytes are UTF-8: one byte below 128, or a lead in 194..223 and a continuation in 128..191, spelling the code points of the byte map in order |
| ByteEncoding.EncodeSpells | src/tokenizer.c:55-66 | every encoding is UTF-8 for the code points of its bytes |
| ByteEncoding.CodePointTable | src/tokenizer.c:18-52 | bytes 0..32 move up by 256, 127..160 by 162, 173 to 323, the others stay |
| ByteEncoding.DecodesUtf8 | src/tokenizer.c:80-98 | two- and three-byte UTF-8 sequences are read as their code points |
| ByteEncoding.DecodesStray | src/tokenizer.c:80-98 | a continuation byte, a lead without room and a byte from 240 on stand for themselves |
| ByteEncoding.RawByteIs | src/tokenizer.c:109-115 | a code point of the byte map gives its byte, any other one its low byte |
| ByteEncoding.DecodeToken | src/tokenizer.c:101-120 | the loop computes the decoding, stray bytes and foreign code points included |
| Tokenizer.WordProgress | src/tokenizer.c:137-205 | every word is a non-empty piece of the remaining text |
| Tokenizer.WordIsFirstAlternative | src/tokenizer.c:133-205 | for disjoint character classes the word is the first alternative of the pattern that matches, the seven contractions spelled out, as long as it can be; one always matches |
| Tokenizer.RunIsMaximal | src/tokenizer.c:155-203 | a run holds only its class and cannot be extended |
| Tokenizer.MatchWord | src/tokenizer.c:137-205 | the splitter returns the length of the first word, contractions first, for any character classes |
| Tokenizer.Encoder.Match | src/tokenizer.c:306-316 | the longest token at a position and its smallest id |
| Tokenizer.Encoder.Encode | src/tokenizer.c:274-331 | the greedy tokens of the words in order, up to the output limit |
| TokenizerLaws.EncodeWordIsGreedy | src/tokenizer.c:296-325 | in a word the tokens are, each in turn, the longest one that starts there and the first with that text; bytes no token starts with are left out; for any vocabulary |
| TokenizerLaws.EncodeFromEncodes | src/tokenizer.c:274-331 | a text is encoded word by word in that way, up to the limit |
| Tokenizer.CStringIs | src/tokenizer.c:336-370 | a token counts up to its terminator |
| Tokenizer.RoundTrip | src/tokenizer.c:274-370 | with a complete vocabulary, decoding the tokens of any NUL-free text gives a prefix of it, and the whole text if the limit is not hit |
| StopMachine.Generate | src/chat.c:1052-1148 | the streamed tokens are exactly the model's tokens before the first one that meets a stop rule stated on the full history |
| StopMachine.EmittedUnique | src/chat.c:1052-1148 | the rules determine the streamed text |
| StopMachine.StopsIff | src/chat.c:1052-1137 | a token is stopped if and only if with it the text ends in an end token, a turn marker after a newline, a line break too many, an equal-token run at the limit, or a repetition of 3 to 16 tokens |
| StopMachine.EmittedIff | src/chat.c:1052-1148 | the text is exactly the stream up to the first such token: nothing earlier stops it, and nothing later is streamed |
| StopMachine.FindLoop | src/chat.c:1112-1137 | comparing slots of the 64-slot ring finds a repeated n-gram exactly when the full history ends in one |
| StopMachine.RingPush | src/chat.c:1114-1117 | the ring always holds the last 64 tokens |
| StopMachine.NeverLoops | src/chat.c:1037-1148 | at no place does streamed text hold a repetition of 3 to 16 tokens, an equal-token run of max(2, limit), an end token, or in template mode line breaks at the limit or a turn marker after a newline |
| Evaluator.ExprSound | src/chat.c:638-723 | whatever the parser reads is a text of the grammar, with that tree |
| EvaluatorLaws.ExprComplete | src/chat.c:638-723 | every text of the grammar is read to its end, with its tree |
| EvaluatorLaws.SentenceParses | src/chat.c:638-755 | a sentence has one tree |
| EvaluatorLaws.EvalContext.EvalBase | src/chat.c:638-660 | fails exactly when no base without a zero divisor can be read; otherwise its value and end |
| EvaluatorLaws.EvalContext.EvalFactor | src/chat.c:662-679 | unary minus applies to the power, powers associate to the right |
| EvaluatorLaws.EvalContext.EvalTerm | src/chat.c:681-708 | products associate to the left; a zero divisor fails the term |
| EvaluatorLaws.EvalContext.EvalExpr | src/chat.c:710-723 | sums associate to the left; the error flag is sticky |
| EvaluatorLaws.TryEval | src/chat.c:741-755 | evaluation ends on every text and succeeds exactly on the sentences without a zero divisor whose value is finite, with that value; over finite operands a difference plus the subtrahend is the minuend, and likewise for sums, products, quotients and signs; a power such as 0^-1 may be non-finite |
| EvaluatorLaws.PrintParses | src/chat.c:638-755 | printing a tree and parsing the text gives the tree back |
| WeightFile.ReadTensor | src/model.c:367-475 | the moving-pointer reader computes the read function |
| WeightFile.ReadDims | src/model.c:436-453 | the dimension loop succeeds exactly when all dimensions are legal and their product fits 64 bits |
| WeightFile.ReadInside | src/model.c:379-471 | on arbitrary bytes a successful read stays inside the file if and only if it is of packed weights or the extent its header announces does not run past 2^64 |
| WeightFile.ReadEscapes | src/model.c:457-468 | legal dimensions for which a read succeeds and leaves the file, wherever the header stands in a file mapped at 2^44 or above |
| WeightFile.TensorRoundTrip | scripts/export-bin.py:168-192 | reading an exported tensor recovers shape, scale and every weight or float, and ends where the exporter ended |
| WeightLayout.PackedLayout | scripts/export-bin.py:168-178 | byte by byte: type 2, rows and columns low byte first, scale, then weight i plus one in bit pair i mod 4 of byte i / 4 |
| WeightLayout.FloatsLayout | scripts/export-bin.py:179-187 | type 0, number of dimensions, dimensions low byte first, data |
| WeightFile.FileRoundTrip | scripts/export-bin.py:144-192 | tensor by tensor, a whole exported stream is recovered and exactly the bytes written are consumed |

## Left out

- Barrier.BarrierSafe: weak memory is not modelled, only interleavings of atomic operations.
- ForkJoin.StepInv: the 64-bit generation counter is unbounded, so its wrap-around after 2^64 dispatches is not modelled; the spin count before sleeping is part of the worker's state, the pause instructions are not.
- ForkJoinFair.FairRunsReturn: the schedules consist of thread steps; a stream of spurious wakeups could keep an idle worker taking its mutex.
- ForkJoinTask.FusedCallReturns: no spurious wakeups, as there; calls with at least two tasks, since the caller runs a single task itself, without a dispatch.
- TopK.SurvivorsExact: sufficient for one input; the exact condition is stated over all inputs in TopK.ExactIff, because an unlucky conversion may still leave a single input right.
- Tmac.OneRow: float scaling and accumulation are over reals; only the integer block totals carry a bound.
- Tmac.Forward: the method runs the workers of a block one after the other; RowDispatch.TableForward states the result for every interleaving, one row at a time. Row offsets are unbounded, as for Avx2Rows.Rows.
- Avx2Rows.Rows: row offsets are unbounded integers; the exact bounds under which they fit an int are Tmac.OffsetsFitIff and Tmac.IndicesFitIff.
- FusedMachine.FusedIsSequential: the normalization scratch buffer, written and read by thread 0 only, and the per-node weight replicas, which hold equal bytes, are not part of the memory.
- Prefill.Model.Prefill: activations are one sequence per token instead of one flat buffer; scratch buffers and their size check are not modelled.
- Prefill.Model.ForwardStep: what follows the layers, the final norm, the LM head, the repetition penalty and the draw, is not part of it; the LM head is one more ternary product.
- Nucleus.SampleNucleus: sorting is any routine that returns a descending permutation.
- SampleAdvanced.Sample: the logarithm of min_p is a parameter, and so is the draw from the random generator. When all logits lie below -1e30, or a top_k meets an out-of-range conversion that does not saturate, only min_p is promised.
- FusedStale.ScannedRightIff: for a layer whose first channel does not feel the stale rows the theorem says nothing; FusedMachine.RaceFreeIff holds for it as well.
- Tokenizer.WordIsFirstAlternative: the underscore counts as an other character, as in the code; the pattern quoted at line 135 of src/tokenizer.c would exclude it.
- ProbeIndex.Index.Load: reading the file is replaced by a list of entries, and the detection of its format (token 220) by the parameter `byteEncoded`.
- EvaluatorLaws.TryEval: the extraction of an expression from a chat message and the formatting of the result are not modelled; `pow`, `fmod` and the number reader may give a non-finite value, sums and products of finite values are real and do not overflow.
- WeightFile.FileRoundTrip: the exporter's quantization of the float weights is not modelled, only the packing and framing of ternary ones.
- src/arch/neon.c is a twin of the AVX2 kernel and is not part of this model.
- The Metal path, the vectorized exp and silu approximations and the SIMD scan are not modelled.
- NUMA page binding, CPU pinning and topology discovery: node capacities are an input.
- Command line, REPL, prompt templates, query rewriting, repetition penalty, profiling and state files are not modelled.
- Checkpoint conversion and vocabulary download in the scripts are not modelled.
