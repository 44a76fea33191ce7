# A model of the serving overlay's algorithms and protocols

The repository overlays an inference engine with seven self-contained pieces of hard logic. Each is modelled here in
Dafny in the form the code has (functions where it computes, methods with loops where it updates, classes for objects
whose fields change, step systems where threads or processes interleave) and proved to do what the repository promises.

| files | what they model |
|---|---|
| `NumberFormats`, `MoeMath`, `Routing`, `MoeKernel`, `MoeLayer`, `MoeForward`, `MoeRun`, `MoeLoad`, `MoeDecode`, `MoeFormula`, `MoeCall` | the CPU expert kernel: counting sort by expert, permuted activations against nibble-packed rows, block tasks whose rows interleave in any way, the combine; proved against the naive mixture-of-experts sum in exact arithmetic, down to a call through the cached staging. The two number formats are treated as bit patterns |
| `ShadowPlan`, `ShadowModel`, `ShadowForward`, `ShadowTheorem`, `ShadowReference`, `ShadowRank`, `ShadowWeights` | pipeline cuts inside kv-sharing groups: the per-rank plan, the forward pass over explicit caches and buffers, the equality of a cut run with the uncut one, and the uncut one written out in terms of the kernels |
| `TokenProtocol`, `TokenScheduler`, `TokenWorkers`, `TokenLedger`, `TokenObjects` | the token bookkeeping between the scheduler and non-last workers under speculative decoding, with chunked prefill, preemption, stale output and message queues; and which outputs reach a request |
| `CaptureSizes`, `Dispatcher` | CUDA graph size selection and dispatch to FULL families for every uniform query length |
| `JobPool`, `RowStore`, `LookupPool`, `EngramLookup`, `Staging`, `MoeStaging` | the row store's thread pool, its reads, the lookup whose rows interleave on shared buffers, its dequantised result against the reference, and the pre-warmed staging buffers of both host callbacks |
| `TopK`, `ShardMerge` | the sparse indexer's masked top-k fallback, its row-chunked loop, and the sharded merge |
| `FindLoop`, `McNemar`, `McNemarExact` | the degenerate-repetition detector and the exact McNemar test |
| `Basics` | options, minima, powers of two, slices and sorting, shared by the others |

## How to read it

* Real numbers stand for the kernel's floats, so that sums and products are exact; the activation, the decoded
  half scale and the two bfloat16 conversions are parameters of the expert layer (`MoeDecode.RowExact` puts the kernel's
  own scale decoder in). Attention, compressor, indexer and mixing kernels are uninterpreted functions. Tensors in the
  pipeline model are opaque values, except that the shared top-k and candidate buffers are modelled row by row, because
  a step touches only its first rows.
* Nondeterminism is a parameter that the theorems quantify over: how the rows of running blocks interleave, the answers
  of positional reads, the interleaving of pool threads and of the rows they fetch, the choices of the scheduler, the
  accepted drafts.
* Assumptions taken from the code's own setting: H and I are multiples of 32 and I is at most 2H; pipeline ranges are
  non-empty, contiguous and cover the stack; kv sources are index sources, sources are compressed layers, and every
  compressed layer has a source at or below it; a request id is not reused while its old steps are in flight; one
  caller at a time runs the pool; the dispatcher's query length and the one its keys are built with are the same.

## Where the code does not do what its text says

* Engram injection happens only on an unfinished residual (`nvidia/model.py:465-515`), so the first layer of a rank after
  the first never injects. A cut is therefore sound if and only if no such rank starts on an engram layer
  (`ShadowTheorem.CutExact`, with `ShadowTheorem.CutBreaks` as the failing family).
* The header of `pp_shadow.py` says cuts must sit on index-source boundaries, but the check for it is never called and
  is not needed: `ShadowTheorem.CutPreserves` holds for every legal partition.
* The declared intermediate tensors are said to be exactly what the previous rank sends. They contain candidate blocks
  that are not sent exactly on a rank that owns the candidate source and is not the last (`ShadowPlan.DeclaredIsSent`,
  with `ShadowPlan.DeclaredNotSent` as an example).
* The comment on the scale decoder says byte 0 gives zero; byte 1 does too, and decoding is exact exactly from byte 2
  (`NumberFormats.DecodeExact`).
* The CPU layer's cached staging and descriptors leave the slot count out of their keys, and nothing checks it. Over every
  history of calls, a call of K slots is served right whatever is routed if and only if it has no tokens, or the first
  call on its device and batch size and the first on its device and capacity had K slots; a single token may also use
  wider rows (`MoeStaging.NativeCpuMoe.Forward`, `MoeStaging.RightExact`, and `MoeCall.Serve` for the results). After a call of (4, 2) a call of (4, 1) gets
  the two-slot descriptor; after (3, 2) a call of (4, 1) reads one slot per token from two-slot rows, and token 1 gets
  what token 0 was routed to (`MoeStaging.SecondCall`, `MoeStaging.NeighbourRead`).
* The lookup's dequantisation is described as fp8 times 2^(e8m0 - 127); the shifted scale is exactly that for every byte
  but 0, which becomes zero (`EngramLookup.ScaleExact`).
* The store's size check is done in 64-bit arithmetic; it implies that the table fits exactly when neither end of the
  table exceeds 64 bits (`RowStore.OpenExact`).

## Model

| member | source | states |
|---|---|---|
| NumberFormats.RoundsPattern | overlay/hybrid/cpu_moe.cpp:144-150 | on every finite pattern the result is the pattern divided by 2^16, rounded to nearest with ties to even, and the addition does not overflow 32 bits |
| NumberFormats.RoundsToClosest | overlay/hybrid/cpu_moe.cpp:144-150 | the sign is kept and no bfloat16 value is closer to the input (roundTiesToEven, section 4.3.1 of IEEE 754-2019) |
| NumberFormats.TiesToEven | overlay/hybrid/cpu_moe.cpp:144-150 | when another bfloat16 of the same sign is equally close, the result is the even one |
| NumberFormats.RoundUndoesWiden | overlay/hybrid/cpu_moe.cpp:144-154 | rounding undoes widening for every bfloat16 pattern |
| NumberFormats.NaNSurvives | overlay/hybrid/cpu_moe.cpp:147-147 | exactly which NaNs stay NaN when the low half is cut off |
| NumberFormats.SignNegates | overlay/hybrid/cpu_moe.cpp:152-154 | patterns below the sign bit have values that are not negative, and setting the bit negates them |
| NumberFormats.LutIsE2M1 | overlay/hybrid/cpu_moe.cpp:79-80 | every table entry is twice the E2M1 value of its code (section 5.3.3 of OCP Microscaling Formats v1.0) |
| NumberFormats.DecodeExact | overlay/hybrid/cpu_moe.cpp:57-62 | for scale bytes below 255 the decoded product is E2M1 times 2^(s - 127) exactly for all codes if and only if the byte is at least 2; bytes 0 and 1 give zero (section 5.4.1 of OCP Microscaling Formats v1.0) |
| Routing.PairsExact | overlay/hybrid/cpu_moe.cpp:290-291 | an expert's list is exactly the indices routed to it, strictly ascending |
| Routing.StartCounts | overlay/hybrid/cpu_moe.cpp:287-288 | an expert starts after exactly the pairs of smaller valid ids, so the groups' sizes sum to the number of valid pairs |
| Routing.CountPairs | overlay/hybrid/cpu_moe.cpp:287-287 | the first loop leaves each expert's count of pairs one place up, invalid ids dropped |
| Routing.PrefixSums | overlay/hybrid/cpu_moe.cpp:288-288 | the second loop turns counts into starts |
| Routing.FillSlots | overlay/hybrid/cpu_moe.cpp:289-292 | the third loop leaves every group's slots filled with its ascending pairs |
| Routing.GroupByExpert | overlay/hybrid/cpu_moe.cpp:285-292 | for every expert the slots between its start and the next are exactly the ascending pairs routed to it |
| Routing.ActiveExperts | overlay/hybrid/cpu_moe.cpp:293-293 | the experts with a non-empty group, ascending |
| MoeMath.PermutedCell | overlay/hybrid/cpu_moe.cpp:65-70 | element i of a 32-group lands at its permuted place, for every group |
| MoeMath.PermuteRow | overlay/hybrid/cpu_moe.cpp:67-70 | whatever the scratch row held, it ends as the row with every group permuted |
| MoeMath.DotPermuted | overlay/hybrid/cpu_moe.cpp:64-70 | permuting both factors group by group does not change a dot product |
| MoeMath.UnpackPairs | overlay/hybrid/cpu_moe.cpp:83-96 | the unpacked and scaled lanes of a group are that group's elements in permuted order: low nibbles are the even elements, high nibbles the odd ones |
| MoeMath.DequantRow | overlay/hybrid/cpu_moe.cpp:119-131 | writes the permuted dequantised row and nothing outside it |
| MoeMath.DotRow | overlay/hybrid/cpu_moe.cpp:99-116 | the fused product with one scale per group equals the dot product of the permuted dequantised row |
| MoeMath.DotF32 | overlay/hybrid/cpu_moe.cpp:133-140 | sixteen lanes at a time gives the dot product |
| MoeKernel.OneTaskPerCell | overlay/hybrid/cpu_moe.cpp:173-177 | every cell of every routed pair belongs to exactly one block, so blocks write disjoint cells that cover everything, for both phases |
| MoeKernel.GateUpRow | overlay/hybrid/cpu_moe.cpp:177-196 | one row sets its column for every pair of the group to the clamped, activated product and changes nothing else, on the fused path for a lone pair and on the shared path |
| MoeKernel.DownRow | overlay/hybrid/cpu_moe.cpp:209-221 | one row sets its column of every pair of the group to the dot product with the pair's hidden row and changes nothing else |
| MoeKernel.RowKeepsDone | overlay/hybrid/cpu_moe.cpp:177-197 | row k of a running block takes that block from k to k + 1 rows done and undoes no row of any block, so rows of running blocks may interleave |
| MoeForward.OneLoopWorks | overlay/hybrid/cpu_moe.cpp:320-323 | up to 16 tokens the first of the two worksharing loops is empty, above the second; together they give every block its 32 rows |
| MoeForward.UnitOfRows | overlay/hybrid/cpu_moe.cpp:178-187 | on permuted rows and inputs the kernel computes the naive hidden unit |
| MoeForward.DownOfRows | overlay/hybrid/cpu_moe.cpp:209-213 | on the permuted hidden row the kernel computes the naive output |
| MoeFormula.UnitExact | overlay/hybrid/cpu_moe.cpp:183-194 | the hidden unit in terms of silu and the inner products with the w1 and w3 rows: the plain product without a limit and inside the limits; a gate above the limit counts as the limit, one below is never raised, an up product beyond either limit counts as that limit |
| MoeFormula.DownExact | overlay/hybrid/cpu_moe.cpp:209-218 | one output of an expert is the inner product of its w2 row with the hidden units |
| MoeFormula.CombinedExact | overlay/hybrid/cpu_moe.cpp:343-349 | one output of a token is the sum, over its slots with an id in [0, E), of weight times that expert's output |
| MoeRun.RunGateUp | overlay/hybrid/cpu_moe.cpp:320-323 | for any interleaving of the blocks' rows, every block that got its 32 rows ends complete, earlier ones stay complete, and no cell outside the loop's blocks changes |
| MoeRun.RunDown | overlay/hybrid/cpu_moe.cpp:330-333 | the same for the output blocks, given complete hidden rows |
| MoeRun.GateUpTask | overlay/hybrid/cpu_moe.cpp:169-198 | a block run alone sets exactly its 32 rows of its expert's pairs, at their permuted places, to the naive hidden units |
| MoeRun.DownTask | overlay/hybrid/cpu_moe.cpp:200-223 | given complete hidden rows a block run alone sets exactly its 32 output columns of its expert's pairs |
| MoeRun.PhaseOneDone | overlay/hybrid/cpu_moe.cpp:320-333 | when all gate/up blocks have run, every hidden row a down block reads is complete, whatever was in it before |
| MoeRun.PhaseTwoDone | overlay/hybrid/cpu_moe.cpp:330-333 | when all down blocks have run, every routed pair's output row is its expert's output on its token |
| MoeRun.CombineToken | overlay/hybrid/cpu_moe.cpp:341-351 | the accumulator ends as the sum over the token's routed slots of weight times output, padding skipped |
| MoeRun.Forward | overlay/hybrid/cpu_moe.cpp:276-352 | for every batch, routing, interleaving of block rows and leftover scratch, row t is the rounded naive sum over valid slots on unpermuted data |
| MoeRun.MaskingIsLocal | overlay/hybrid/cpu_moe.cpp:345-346 | replacing the routing of some rows by -1 never changes another row, and a masked row sums to zero |
| MoeLayer.Layer.Reserve | overlay/hybrid/cpu_moe.cpp:282-284 | scratch grows to the batch and keeps what it held |
| MoeLoad.Interleave | overlay/hybrid/cpu_moe.cpp:261-268 | gate bytes before up bytes in every row, scales likewise, other experts untouched |
| MoeLoad.Load | overlay/hybrid/cpu_moe.cpp:243-273 | the return code says whether the file opened and every expert was read in full; every fully read expert holds exactly the file's rows even when others fail |
| MoeLoad.LoadedLayer | overlay/hybrid/cpu_moe.cpp:243-273 | after a complete load the layer is the one the forward theorem is about |
| MoeDecode.RowExact | overlay/hybrid/cpu_moe.cpp:57-62 | with the kernel's scale decoder every element of a packed row is E2M1 of its nibble times 2^(s - 127), zero for bytes 0 and 1 |
| ShadowPlan.NeedsExact | overlay/hybrid/pp_shadow.py:38-55 | a source is needed exactly when a local compressed layer reads its cache or top-k from before the start, and its top-k is recomputed exactly in the second case |
| ShadowPlan.ShadowNeedsFor | overlay/hybrid/pp_shadow.py:38-55 | the loop, with its two ways of recording a need, computes these needs |
| ShadowPlan.AtMostTwoShadows | overlay/hybrid/pp_shadow.py:45-55 | a rank shadows at most the kv source and the index source just below its start; only the latter, and later, one can need top-k |
| ShadowPlan.ShipMatchesRecv | overlay/hybrid/pp_shadow.py:82-97 | what rank r ships is what rank r + 1 receives, for sources and for candidates |
| ShadowPlan.EndsAreQuiet | overlay/hybrid/pp_shadow.py:79-97 | the first rank receives nothing and the last ships nothing |
| ShadowPlan.DeclaredIsSent | overlay/patch_pp_shadow.py:106-115 | the declared candidates are what the previous rank sends if and only if this rank does not both own the candidate source and precede another rank |
| ShadowPlan.DeclaredNotSent | overlay/patch_pp_shadow.py:106-115 | three ranks with the candidate source in the middle: the middle rank declares candidates its predecessor does not send |
| ShadowPlan.PPShadowPlan.constructor | overlay/hybrid/pp_shadow.py:74-97 | the object's fields are the plan, ids ascending |
| ShadowForward.PlansAreGood | overlay/hybrid/pp_shadow.py:38-97 | every local compressed layer has its caches and top-k on its rank, and the shadow that needs top-k comes last, after the shadow that holds its keys |
| ShadowForward.LayerTracks | overlay/vllm/models/deepseek_v4_1/nvidia/model.py:449-566 | one layer keeps a rank in agreement with the uncut stack on everything that is still read |
| ShadowForward.CachesAt | overlay/vllm/models/deepseek_v4_1/attention.py:651-734 | within a step each source and each window is written once, at its own layer, from that layer's attention input |
| ShadowForward.ShadowRows | overlay/hybrid/pp_shadow.py:140-156 | a shadow with top-k publishes the rows the uncut stack holds at the rank's first layer, candidates included |
| ShadowForward.ShadowsRun | overlay/patch_pp_shadow.py:136-141 | running the shadows in ascending order catches every shadowed cache and the wanted top-k up with the uncut stack |
| ShadowForward.LayersTrack | overlay/vllm/models/deepseek_v4_1/nvidia/model.py:880-896 | a rank's layers compute the uncut stack's carries and attention inputs |
| ShadowForward.RankSteps | overlay/patch_pp_shadow.py:119-164 | a rank given the right wire ends in agreement and puts out the uncut stream |
| ShadowForward.WireServes | overlay/patch_pp_shadow.py:150-163 | every shipped key carries exactly that layer's attention input, owned or forwarded, and the candidate rows are the uncut ones |
| ShadowTheorem.StepPreserves | overlay/patch_pp_shadow.py:119-164 | one step of all ranks is one step of the uncut stack, in states and in result |
| ShadowTheorem.CutPreserves | overlay/patch_pp_shadow.py:119-164 | over any sequence of steps and any legal partition that keeps the injections, the results equal the uncut model's and every shadowed cache equals its owner's |
| ShadowTheorem.CutBreaks | overlay/vllm/models/deepseek_v4_1/nvidia/model.py:465-515 | a cut on an engram layer changes the result of a stack that counts injections, in one step, for any such partition |
| ShadowTheorem.CutExact | overlay/vllm/models/deepseek_v4_1/nvidia/model.py:465-515 | a legal partition is sound for all kernels, memories and steps if and only if no rank after the first starts on an engram layer |
| ShadowReference.ChosenBy | overlay/vllm/models/deepseek_v4_1/attention.py:398-420 | an index source leaves its first n top-k rows as: everything in a short context; its selection masked by the candidate rows behind the candidate source; its plain selection otherwise; from its own input and its kv source's cache of this step |
| ShadowReference.CandsAre | overlay/vllm/models/deepseek_v4_1/attention.py:1021-1024 | behind the candidate source the candidate rows are the blocks it found this step from its own input and keys |
| ShadowReference.CutComputes | overlay/vllm/models/deepseek_v4_1/nvidia/model.py:449-566 | a step of any legal partition that keeps the injections puts out what the kernels compose to, written out layer by layer without state: engram injection, both mixes, window, kv source's cache, chosen rows |
| ShadowReference.CutComputesRun | overlay/patch_pp_shadow.py:119-164 | the same over whole runs, on memories that evolve as the kernels say: every kv source and window by its own layer's input, the candidates as published |
| ShadowRank.Rank.RunShadow | overlay/hybrid/pp_shadow.py:140-156 | the in-place shadow: cache updated, top-k and candidates overwritten only as asked |
| ShadowRank.Rank.RunLayer | overlay/vllm/models/deepseek_v4_1/nvidia/model.py:449-566 | the in-place layer, returning the attention input a later rank may need |
| ShadowRank.Rank.Forward | overlay/patch_pp_shadow.py:119-164 | the imperative rank has the state and the wire the theorems are about |
| ShadowWeights.PrefixUnique | overlay/hybrid/pp_shadow.py:165-170 | a checkpoint name belongs to at most one layer's attention prefix |
| ShadowWeights.RemapExact | overlay/hybrid/pp_shadow.py:165-170 | a shadowed layer's weight goes to its shadow whatever the order of the ids, all other names stay |
| ShadowWeights.DecimalExact | overlay/hybrid/pp_shadow.py:167-169 | the layer number in a name is spelled in decimal digits |
| TokenScheduler.GuardExact | overlay/patch_pp_spec_tokens.py:57-72 | among the counts the budget allows, a step carries a real token if and only if the guard holds |
| TokenScheduler.StepShape | overlay/vllm/v1/core/sched/scheduler.py:748-766 | a scheduled step has a real token, its real part ends at the last real token at the latest, and drafts follow only that token |
| TokenScheduler.ScheduledDrafts | overlay/vllm/v1/core/sched/scheduler.py:748-766 | a step's drafts are the proposed ones in order from the first, as many as its tokens past the last real one, and the workers' message carries the same |
| TokenScheduler.SampleInv | overlay/vllm/v1/core/sched/scheduler.py:1922-1940 | the output of the sampling step rolls back the rejected drafts and leaves exactly one real token to compute |
| TokenScheduler.DrainsInLockstep | overlay/vllm/v1/core/sched/scheduler.py:1893-1899 | the stale counter covers the oldest step whenever it is positive, which is exactly while that step is stale |
| TokenScheduler.ScheduleInv | overlay/patch_pp_spec_tokens.py:23-72 | scheduling a running request keeps the scheduler invariant |
| TokenScheduler.AdmitInv | overlay/vllm/v1/core/sched/scheduler.py:825-834 | starting or resuming, with a prefix hit, a chunk or padding, keeps it |
| TokenScheduler.PreemptInv | overlay/vllm/v1/core/sched/scheduler.py:1425-1466 | preempting with any steps in flight keeps it |
| TokenScheduler.OutputInv | overlay/vllm/v1/core/sched/scheduler.py:1889-1982 | output of any step, stale or live, dropped or delivered, stopping or not, keeps it and never shortens the token list |
| TokenWorkers.SliceContinues | overlay/patch_pp_spec_tokens.py:23-32 | the slice sent continues exactly where the previous one ended and moves the tracker to its end |
| TokenWorkers.DeliverOk | overlay/patch_pp_spec_tokens.py:94-136 | a continuing message can be applied, the drop rule drops nothing, and the batch row settles exactly the tokens it brings |
| TokenWorkers.StepInv | overlay/patch_pp_spec_tokens.py:23-136 | every step of the system keeps the system invariant and every delivery is defined |
| TokenWorkers.WorkersFollow | overlay/patch_pp_spec_tokens.py:23-136 | in every reachable state, for each worker, its tokens followed by its queue are the request's tokens up to max(sent, prompt length), nothing is repeated, and the batch row is the token list |
| TokenWorkers.OneSamplingStep | overlay/patch_pp_spec_tokens.py:48-72 | in every reachable state each step in flight has a real token, at most one live step reaches the last real token and it is the newest, and no scheduled end passes it |
| TokenLedger.OutputTokens | overlay/vllm/v1/core/sched/scheduler.py:1889-1982 | a dropped stale output adds nothing; any other, stale or live, adds the generated tokens up to and including the first that stops, which ends the request |
| TokenLedger.TokensAreDelivered | overlay/vllm/v1/core/sched/scheduler.py:1444-1466 | in every run the request's tokens are its prompt followed by exactly the delivered outputs in order, where a ledger kept from the steps alone loses what is in flight at a preemption that drops, or that comes while lost output is in flight, and delivers all else |
| TokenObjects.SentTracker.Send | overlay/patch_pp_spec_tokens.py:28-32 | the slice from the tracked position and the tracker's new value, other requests untouched |
| TokenObjects.Request.ScheduleRunning | overlay/patch_pp_spec_tokens.py:23-72 | the imperative scheduling of a running request, guard included, is the system's step |
| TokenObjects.Request.AdmitWaiting | overlay/vllm/v1/core/sched/scheduler.py:958-1208 | the imperative start or resumption of a waiting request is the system's step |
| TokenObjects.Request.PreemptRequest | overlay/vllm/v1/core/sched/scheduler.py:1425-1466 | the imperative preemption is the system's step |
| TokenObjects.Request.UpdateFromOutput | overlay/vllm/v1/core/sched/scheduler.py:1889-1982 | the imperative output handling, with its token-by-token append, is the system's step |
| TokenObjects.WorkerRecord.Update | overlay/patch_pp_spec_tokens.py:94-136 | the worker's list and its row of token_ids_cpu, updated in place, follow the system's delivery |
| CaptureSizes.SortedSetExact | overlay/vllm/config/vllm.py:2198-2199 | sorting a set leaves a strictly ascending list with the same members |
| CaptureSizes.RequestCounts | overlay/vllm/config/vllm.py:2083-2090 | exactly the request counts of the decode grid, ascending, the cap included |
| CaptureSizes.DecodeSizes | overlay/vllm/config/vllm.py:2137-2144 | exactly the scaled request counts of every tier within the ceiling |
| CaptureSizes.DefaultList | overlay/vllm/config/vllm.py:2166-2199 | exactly the sizes of the default rule, strictly ascending |
| CaptureSizes.CompilationConfig.SetCudagraphSizes | overlay/vllm/config/vllm.py:2048-2252 | which inputs fail and how; otherwise sizes are strictly ascending with the recorded maximum last, and are exactly the user's sizes within the token limit or the default rule's, whose maximum is within 16 of min(token limit, user's maximum or min(2 * sequences * query length, platform default)), and equal to it if the token limit is the smaller |
| CaptureSizes.DefaultIsPositive | overlay/vllm/config/vllm.py:2166-2199 | the default list starts at 1 and stays within the ceiling |
| Dispatcher.FirstFitIsLeast | overlay/vllm/v1/cudagraph_dispatcher.py:147-158 | the first fitting candidate is the least captured size that holds the batch and is a multiple of the query length, or there is none |
| Dispatcher.CudagraphDispatcher.ComputeTable | overlay/vllm/v1/cudagraph_dispatcher.py:83-92 | the table maps every n up to the maximum to the least captured size at least n |
| Dispatcher.CudagraphDispatcher.Describe | overlay/vllm/v1/cudagraph_dispatcher.py:133-172 | the padded descriptor: uniform exactly if a fitting multiple exists, its least size, the clamped request count |
| Dispatcher.CudagraphDispatcher.InitializeKeys | overlay/vllm/v1/cudagraph_dispatcher.py:182-271 | FULL keys are exactly the members of the families, PIECEWISE keys exactly the captured sizes |
| Dispatcher.KeyExact | overlay/vllm/v1/cudagraph_dispatcher.py:161-172 | a clamped descriptor is a FULL key exactly when it fits its own family or splits evenly over the request limit into another family |
| Dispatcher.CudagraphDispatcher.Dispatch | overlay/vllm/v1/cudagraph_dispatcher.py:273-364 | for a uniform step, its length named or not, FULL exactly under that condition on the least fitting size; a PIECEWISE answer has the least captured size at least n, or the least fitting multiple for a uniform step that has one; no graph only above the maximum or without PIECEWISE |
| Dispatcher.CaptureRecovers | overlay/patch_full_q1.py:181-188 | the query length recovered from a key at capture is its family's |
| Dispatcher.ReplayedLength | overlay/patch_full_q1.py:181-188 | the recovered length is the step's own while the padded batch fits the request limit, otherwise a strictly longer family's |
| Dispatcher.StepHasFamily | overlay/patch_full_qall.py:59-73 | for every list of request lengths, the runner's test on their maximum, sum and number holds exactly when all are equal and that length has a family |
| Dispatcher.RuleIsCaptured | overlay/vllm/config/vllm.py:2166-2252 | the default rule's sizes are what the dispatcher needs: non-empty, strictly ascending, positive |
| Dispatcher.SizeGraphs | overlay/vllm/config/vllm.py:2154-2252 | sizing fails exactly on an empty range or list or inconsistent user values; otherwise the dispatcher's needs are met by the default rule always, by configured sizes exactly if one is within the token limit and those within it are positive |
| Dispatcher.DecodeCovered | overlay/vllm/config/vllm.py:2067-2144 | under the default rule, for every tier whose query length has a family, every decode batch at that length up to a captured request count of the tier replays a FULL graph |
| JobPool.StepInv | overlay/engram_ssd/row_store.cpp:45-70 | every step of every thread, rows inside a job call included, keeps the pool invariant |
| JobPool.ReturnMeansAllOnce | overlay/engram_ssd/row_store.cpp:61-69 | for every interleaving, row by row, run returns only after all jobs finished, each index's call returned exactly once, always with this run's function |
| JobPool.NeverTwice | overlay/engram_ssd/row_store.cpp:45-60 | at no moment has the call of an index returned twice |
| JobPool.NoDeadlock | overlay/engram_ssd/row_store.cpp:45-69 | while run waits a step other than a spurious wake-up is enabled: no notification is lost |
| JobPool.Progress | overlay/engram_ssd/row_store.cpp:45-69 | every such step strictly decreases a bound on the work left |
| RowStore.PreadAll | overlay/engram_ssd/row_store.cpp:92-100 | whatever lengths and interruptions the calls return, a completed read has exactly the file's bytes, an abort means an error or the end of the file, and len answers with bytes complete it |
| RowStore.OpenExact | overlay/engram_ssd/row_store.cpp:113-125 | a fitting table opens and owns all its rows; an opened table fits exactly when its ends do not exceed 64 bits |
| RowStore.OpenWraps | overlay/engram_ssd/row_store.cpp:118-119 | a row count whose byte size is a multiple of 2^64 passes the check against any file without fitting it |
| RowStore.SetRange | overlay/engram_ssd/row_store.cpp:127-130 | a range is accepted exactly when it lies within the table; afterwards exactly its ids are owned, and the store stays sound |
| RowStore.FetchOne | overlay/engram_ssd/row_store.cpp:102-109 | an id in the range yields the file's bytes of its row and scales, any other id zero bytes, other slots untouched; the bounds abort is never reached |
| EngramLookup.DequantRow | overlay/engram_ssd/engram_ssd.py:221-224 | scale byte b scales exactly the columns 32 b to 32 b + 31 |
| LookupPool.RowOfJob | overlay/engram_ssd/row_store.cpp:141-150 | every row of the lookup lies in one of its jobs, at a place that job reaches |
| LookupPool.NewlyDone | overlay/engram_ssd/row_store.cpp:147-151 | of all steps of all threads only the fetch of a row finishes that row |
| LookupPool.TakeInv | overlay/engram_ssd/row_store.cpp:45-70 | every step, and every new lookup, keeps the rows fetched so far in place on the shared buffers and the bytes behind the slots untouched |
| LookupPool.LookupInterleaved | overlay/engram_ssd/row_store.cpp:133-152 | for every sequence of lookups and every interleaving of the threads' row fetches, whenever run has returned the buffers are the sequential map of single fetches over the ids, and nothing behind them changed |
| LookupPool.Lookup | overlay/engram_ssd/row_store.cpp:133-152 | the in-place lookup, without ids, with one job or through the pool under any schedule and any partial reads: a finished one is that map, nothing behind it changes, it aborts only on a read error and finishes once the reads have brought bytes often enough |
| EngramLookup.LookupIsReference | overlay/engram_ssd/engram_ssd.py:237-250 | for ids the table owns the dequantised staging rows are the reference lookup of the mapped file |
| EngramLookup.Lookup | overlay/engram_ssd/engram_ssd.py:193-224 | row h of token t is the reference's row of hash column head + h, dequantised zeros outside the vocabulary range; with all ids in range the result is the reference lookup |
| EngramLookup.ScaleExact | overlay/engram_ssd/engram_ssd.py:220-223 | the shifted scale byte c below 255 is 2^(c - 127) exactly if c is not 0 |
| Staging.CapacityExact | overlay/engram_ssd/engram_ssd.py:164-164 | the capacity is the least power of two that holds the count, and two for an empty batch |
| Staging.SsdEngramTable.StagingFor | overlay/engram_ssd/engram_ssd.py:163-181 | at most one allocation per key, never replaced, failing only when it would allocate during capture |
| Staging.SsdEngramTable.Warmup | overlay/engram_ssd/engram_ssd.py:183-190 | afterwards every count up to the warmed maximum finds its capacity allocated |
| Staging.SsdEngramTable.WorkFor | overlay/engram_ssd/engram_ssd.py:193-209 | over all call sequences a cached descriptor points into the one staging set of its capacity, which holds its count |
| Staging.AllocationKeeps | overlay/engram_ssd/engram_ssd.py:166-180 | a new staging set disturbs no earlier set and no cached descriptor |
| MoeStaging.RightExact | overlay/hybrid/cpu_moe.py:132-141 | which descriptors make the kernel see every token's own slots for all routings and leftovers: no tokens, or K slots in rows of K, or one token's only slot in wider rows |
| MoeStaging.WorksStep | overlay/hybrid/cpu_moe.py:136-139 | over all call histories a cached descriptor points into the one staging set of its capacity, which holds its rows, with the slot count of the first call served for its size |
| MoeStaging.NativeCpuMoe.Warmup | overlay/hybrid/cpu_moe.py:124-127 | afterwards every batch up to the maximum finds its capacity allocated |
| MoeStaging.NativeCpuMoe.Forward | overlay/hybrid/cpu_moe.py:109-140 | it fails exactly when it would allocate during capture or the slot count is neither 1 nor that of the capacity's first call; otherwise it is right for every routing if and only if the first calls on its size and on its capacity had its slot count, up to the cases of no and of one token |
| MoeStaging.ConstantSlots | overlay/hybrid/cpu_moe.py:109-140 | if all earlier calls of the same device and capacity had K slots, a call of K slots fits and is right |
| MoeStaging.SecondCall | overlay/hybrid/cpu_moe.py:129-140 | of two calls with one capacity on a fresh layer the second, with more than one token, is right exactly if the slot counts agree |
| MoeStaging.NeighbourRead | overlay/hybrid/cpu_moe.py:134-138 | one slot per token read from wider rows gives token 1 what token 0 was routed to |
| MoeCall.CopyStages | overlay/hybrid/cpu_moe.py:133-135 | copying the routing into the first rows of any leftover staging puts every slot, broadcast or not, where the kernel's model expects it |
| MoeCall.Serve | overlay/hybrid/cpu_moe.py:129-145 | over every history of calls: exactly which calls fail, and then nothing is written; a served call whose slot count is that of the first calls on its size and on its capacity gives every row the rounded naive sum over the caller's own routing of that token, whatever the staging held |
| TopK.RowMeets | overlay/vllm/model_executor/layers/sparse_attn_indexer.py:105-121 | masking, selection with any tie-breaking, sorting with the sentinel and padding meet the row contract |
| TopK.TopRow | overlay/vllm/model_executor/layers/sparse_attn_indexer.py:93-121 | a row holds, strictly ascending, min(topk, number of finite in-range columns) relative indices that dominate every omitted one, then only -1 |
| TopK.PrefillTorch | overlay/vllm/model_executor/layers/sparse_attn_indexer.py:93-121 | logits masked in place and the contract on every row, other rows untouched |
| TopK.Prefill | overlay/vllm/model_executor/layers/sparse_attn_indexer.py:609-642 | for any block height, row by row and by mode: plain rows are selected from as they are, a masking layer from the mask kernel's scores for the row, its range and its candidates, a publishing layer's candidates become the block kernel's pick; every row meets the contract |
| ShardMerge.TopSize | overlay/vllm/model_executor/layers/sparse_attn_indexer.py:172-176 | there are exactly K winners, or all positions |
| ShardMerge.MergeExact | overlay/vllm/model_executor/layers/sparse_attn_indexer.py:171-180 | for any division over ranks and any total order that ranks and merge share, the global top-K lies in the union of the ranks' top-Ks, and the top-K of that union is the global one |
| ShardMerge.MergeAnyTies | overlay/vllm/model_executor/layers/sparse_attn_indexer.py:171-180 | whichever way each rank breaks score ties, any selection of K by score from the gathered picks is a selection of K by score from all positions |
| ShardMerge.TopSelects | overlay/vllm/model_executor/layers/sparse_attn_indexer.py:208-211 | the top-K by score with ties to the smaller id is such a selection |
| ShardMerge.SharesMerge | overlay/vllm/model_executor/layers/sparse_attn_indexer.py:161-211 | from rows that meet the top-k contract on every rank, a selection by score among the ids sent is a selection by score among all finite in-range columns of all ranks |
| ShardMerge.ByScoreIsTotal | overlay/vllm/model_executor/layers/sparse_attn_indexer.py:171-180 | a higher score, then the smaller id, is such an order |
| FindLoop.CountReps | tools/detect.py:22-24 | the inner loop counts the back-to-back copies of the unit |
| FindLoop.ScanOne | tools/detect.py:16-27 | the scan for one unit length, with its jumps |
| FindLoop.Find | tools/detect.py:11-28 | the three nested loops compute the scan over all unit lengths |
| FindLoop.FindComplete | tools/detect.py:11-28 | any stretch with period size, of length at least (k + 1) * size - 1, with k at least 2 and at least min_reps, whose unit has an alphanumeric and no newline, forces a result of at least k repetitions, wherever the jumps land |
| FindLoop.FindBoundIsTight | tools/detect.py:11-28 | for every unit length and count some run one character shorter is not reported at any unit length |
| FindLoop.FindSound | tools/detect.py:11-28 | a nonzero result stands in the text: its copies back to back and no further one, its unit with an alphanumeric and without a newline, within the length and repetition thresholds |
| McNemar.PValueRange | tools/qreport.py:97-99 | p lies in (0, 1] and is 1 exactly when the two discordant counts differ by at most one |
| McNemar.PValueStrictlyFalls | tools/qreport.py:97-99 | for a fixed total p strictly falls as the gap grows beyond that |
| McNemar.PValueSymmetric | tools/qreport.py:97-99 | p does not depend on which model is first |
| McNemar.TailComplement | tools/qreport.py:98-98 | a lower tail and its complement partition the power set |
| McNemarExact.PValueExact | tools/qreport.py:97-99 | p times 2^(aw + bw) is the number of subsets of the disagreements that split them at least as unevenly as observed |
| McNemarExact.CompareExact | tools/qreport.py:93-100 | on the shared tasks the points are the difference of the numbers of correct answers in percent, and the test counts the tasks that only one model gets right |
| McNemar.CompareSwap | tools/qreport.py:93-100 | swapping the models negates the difference and keeps p and the number of shared questions |
| McNemar.CompareDefined | tools/qreport.py:94-100 | the comparison fails exactly when no question is shared |

## Left out

- Floating-point rounding in sums and products, the exponential, SIMD lanes, prefetching and huge pages: exact arithmetic stands for them.
- Scratch matrices of the expert kernel are arrays of rows; the multiplication of row index by row width is not modelled.
- A row of a block, and the fetch of a row, is one step of its thread; system calls and cells within a row do not interleave with another row's.
- MoeLoad.Load: of an expert whose reads fail it promises nothing about the rows a short read has partly overwritten.
- The call-time trace output, thread counts and chunk sizes of the worksharing loops.
- Scale byte 255, which the format reserves for NaN, is outside the decoding theorem.
- Sequence parallelism, auxiliary hidden states, the multi-token-prediction buffer and tensor padding in the pipeline model.
- The rolling store behind the n-gram hashes: a step either has hashes, the same on every rank, or has none.
- Eager and captured execution of shadows, and the metadata that gates cache writes during capture.
- Other requests in a scheduling step: the token protocol is per request id, and budgets only bound the count a step gets.
- Streaming sessions, remote kv loads and their failures, encoder inputs, structured output and asynchronous scheduling.
- The write of draft tokens behind the settled part of a batch row; gpu_input_batch.py is not part of this model.
- LoRA cases, sequence-parallel size filtering, compile-size validation and modes other than FULL_AND_PIECEWISE.
- The derivation of dynamic speculation tiers: the tiers are inputs of the sizing rule.
- Destruction of the pool, the job index's narrowing to int, and the store's statistics counters.
- The fp8 product and its rounding after a lookup are one function shared with the reference; streams, pinned memory and host-function launches.
- NaN and positive infinite logits, the CUDA top-k kernel and the candidate selection kernels, which are per-row functions here.
- The formula from a rank's columns to global token ids in the sharded merge: any injective numbering stands for it.
- Alphanumeric tests on characters are a parameter of the loop detector.
- The patch scripts' text editing, registries, server clients, benchmarks, report printing and option validation.
