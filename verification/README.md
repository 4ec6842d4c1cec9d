# Cognitora inference: verified core

This project models the state-carrying core of the Cognitora inference stack in
Dafny and proves what that core promises over every input, every run and every
interleaving. To verify it, use `dafny verify dfyconfig.toml` with Dafny 4.11.

## What is modelled

**The native engine's forward pass and its three runtimes.** A layer is two
uninterpreted functions, one giving the cache entry of a position and one giving
its output from the entries it may see. On top of them stand the chunked pass
with its causal mask and per-layer caches (`Transformer`), batched decoding
(`BatchDecode`), and the contract every runtime claims: logits are a function of
one sequence's own token history (`BatchContract`). `BatchedRuntime`,
`SequentialRuntime` and `PipelinedRuntime` are the code; `BatchedSpec` and the
lemmas beside the other two say what each call does to every cache, intact,
torn or missing. `BatchedExact.Play`, `SequentialExact.Play` and
`PipelineTrust.Play` show that any calls given to a runtime are a run of that one
contract, which `BatchContract.AnswersMatchCaller` turns into a statement about
what the caller sees. The two `RightIffWhole` theorems say exactly when a success
is right.

**The layer pipeline.** `LayerSplit` covers slicing, `PipelineReference` and
`PipelineWire` what the sliced model computes, `Pipeline` the protocol between
coordinator and workers, `PipelinedRuntime` the code, `PipelineTrust` the shared
contract over whole runs, `PipelineExact` (with `StaleWitness`) the exact limit of
the protocol's position check, and `Codec` the activation encodings.

**The admission pool.** `Admission` is the protocol as interleaved atomic steps
with its invariant, `AdmissionPool` the code, `AdmissionRuns` the statements over
whole runs: accounting, timeouts, lost slots and bounded bypass.

**Prefix hashing and indexes.** `PrefixHash` and `BlockCache` prove that chained
digests stand for whole token prefixes; `PrefixIndex` and `PrefixRuns` prove the
router's walk and its garbage collection; `BlockCache` also holds the block pool.

**The two-tier store.** `RamTier`, `TieredStore`, `SpillRace` and `Eviction`:
the byte counter under any interleaving, the store against the history of each
block alone, spills, promotions and forgets split at their awaits, and the
eviction pass.

**Limits.** `TokenBucket` is the shared rate limiter in thousandths of a token,
`UsageLedger` the per-key token accounting.

**Event-stream framing.** `SseFraming` is the engine driver's loop over network
chunks, for the LF and CRLF line ends of section 9.2.5 of the WHATWG HTML Living
Standard.

## Where the code does less than it seems to

Each entry names the instance that shows it and the theorem that says exactly
when it happens.

- A batched decode in which some sequence has no position left fails after it
  has extended the first layer's slot of every sequence listed before it
  (`BatchDecode.FailedStepKeepsCachesIff`). The next decode of such a sequence
  succeeds and is wrong (`BatchedExact.TornSequenceAnswersWrong`). A batch that
  names an unknown id loses the caches listed before it; after a refused
  continuation the next decode succeeds on an empty history
  (`BatchedExact.LostSequenceAnswersAfresh`). `BatchedExact.RightIffWhole` is the
  exact condition for both.
- A continuation on the sequential runtime that begins inside the context and
  runs past it leaves more in the cache than is on record, and the next decode is
  wrong (`SequentialExact.TornContinuationExample`, `SequentialExact.RightIffWhole`).
- A pipeline restart stopped by a codec error before it reached a worker can
  leave all workers with an older log of the same length, or with what an earlier
  coordinator left; the position check then accepts the next decode
  (`PipelineExact.StaleRestartExample`, `PipelineExact.LeftoverExample`,
  `PipelineExact.GuaranteeIff`). Lost requests, lost replies and worker restarts
  cannot do this: they end the link, and `Pipeline.CleanPush` and
  `PipelineTrust.Play` then tie every success to the tokens on record without any
  condition on the caller.
  `PipelineTrust.SettledFromSuccessOn` is the rule that stays safe with codec
  errors: after a failed restart, only restart or drop.
- A request that goes away after it was sent a slot and before it collected it
  keeps that slot counted for ever (`AdmissionRuns.LostSlotExample`,
  `AdmissionRuns.LostIff`).
- Model names that end in NUL bytes can be taken for another model's name and
  tokens (`PrefixHash.NulNameExample`, `PrefixHash.FirstDigestsCollideIff`,
  `PrefixHash.SomeDigestsCollideIff`).
- A batch of 32 empty coldest blocks stops an eviction pass above its target
  (`Eviction.EmptyBatchStopsPass`, `Eviction.PassEndsAboveIff`).
- A block rewritten with other bytes while it is being spilled, promoted or
  expired loses the update (`SpillRace.LostUpdateExample`,
  `SpillRace.SpillLosesUpdateIff`, `SpillRace.PromoteLosesUpdateIff`,
  `SpillRace.FreshPutLostIff`; with jobs overlapping at will
  `SpillRace.UpdateSurvivesIff`), and a forgotten block can come back
  (`SpillRace.StaysGoneIff`).
- A forget whose file removal fails can expose older bytes or leave a listed
  block that cannot be read (`TieredStore.StaleAfterFailedForget`,
  `TieredStore.ListedButGone`, `TieredStore.FailedForgetIff`).
- A clock that steps back refills the token bucket twice for the same time
  (`TokenBucket.BackwardClockExample`, `TokenBucket.BoundIffMonotone`;
  `TokenBucket.PaidFor` is the bound that holds on any clock).
- The ledger's documentation (rust/services/cgn-router/src/usage.rs:8-9) says a
  request in flight overshoots by its own size and never by more. Several in
  flight overshoot by the sum of their sizes (`UsageLedger.TwoInFlightExample`,
  `UsageLedger.OvershootIsExact`, `UsageLedger.WithinOwnSizeIff`).
- A budget of zero lets a key through until it is first charged
  (`UsageLedger.ZeroBudgetExample`, `UsageLedger.ZeroBudgetIff`).

## Assumptions

- The hash has no collision on the finite set of inputs hashed for the sequences
  in question; for the router's digests it also never yields the all-zero digest.
  No hash is injective on all byte strings, so nothing more is assumed.
- A layer's arithmetic is total and deterministic. Inside a pass the only failures
  are running past the position table and a mask that does not fit the cache.
- A pipeline exchange fails in one of two ways. A transport fault (a request or
  reply lost, a worker restarted) ends that worker's stream, which is opened once
  and never again (rust/services/cgn-infer/src/pipeline/mod.rs:450-485, 517-527).
  A codec error (lines 176-185, 213, 504 and 534-544) fails the call and leaves
  the stream open.
- The necessary half of `PipelineExact.GuaranteeIff` asks of the wire that it
  carries 0 and 1 unchanged, as f16 and int8 do (`Codec.F16CarriesBits`,
  `Codec.Int8CarriesBits`).
- Clock readings, file and network failures, the moment a client goes away and
  the parse of a frame's text are parameters.

## Model

| member | source | states |
|---|---|---|
| Transformer.Causal | rust/services/cgn-infer/src/model/llama.rs:561-572 | later positions never change an earlier position's row, in any layer |
| Transformer.SliceRow | rust/services/cgn-infer/src/model/llama.rs:479-498 | running layers `lo..mid` and feeding their output to `mid..hi` is running `lo..hi` |
| Transformer.MaskIsCausal | rust/services/cgn-infer/src/model/llama.rs:561-572 | with the mask `j > start + i` on a cache of the right length, the query at `start + i` sees exactly positions `0..start + i`, its own included |
| Transformer.LayerForwardIsReference | rust/services/cgn-infer/src/model/llama.rs:595-640 | one layer over a chunk, on a clean cache, yields the reference rows and a clean, longer cache slot |
| Transformer.ForwardHidden | rust/services/cgn-infer/src/model/llama.rs:479-498 | the layer loop over rows and slots computes the specification pass, errors and partial cache updates included |
| Transformer.ForwardIsReference | rust/services/cgn-infer/src/model/llama.rs:479-498 | a slice that has seen `ins` and is given `more` answers the reference rows of `ins + more` and leaves exactly the reference cache |
| Transformer.ForwardPastContext | rust/services/cgn-infer/src/model/llama.rs:479-498 | a chunk that runs past the position table fails and leaves every slot as it was |
| Transformer.CutsAgree | rust/services/cgn-infer/src/model/llama.rs:479-498 | any two ways of cutting the same rows into non-empty chunks leave the same per-layer caches and the same last row: chunked prefill, one prefill and token-by-token decode agree |
| LayerSplit.TilesOwnEachLayerOnce | rust/services/cgn-infer/src/model/llama.rs:107-123 | in a tiling by non-empty ranges every layer belongs to exactly one range |
| LayerSplit.ValidateCoverage | rust/services/cgn-infer/src/model/llama.rs:107-123 | accepts exactly the range lists that tile `[0, total)` in order |
| LayerSplit.SplitLayers | rust/services/cgn-infer/src/model/llama.rs:85-104 | refuses exactly zero parts or more parts than layers; otherwise tiles all layers, sizes differ by at most one and the larger ones come first |
| BatchDecode.LayerBatch | rust/services/cgn-infer/src/model/llama.rs:642-693 | the per-sequence loop of one batched layer: every sequence gets what the single-sequence layer would give it, up to the first that has no position left |
| BatchDecode.DecodeStep | rust/services/cgn-infer/src/model/llama.rs:508-532 | when every sequence has a position left, row `i` and cache `i` are those of a decode of sequence `i` alone; otherwise the step fails and exactly the sequences listed before the first full one have a longer first slot under an unchanged length |
| BatchDecode.FailedStepKeepsCachesIff | rust/services/cgn-infer/src/model/llama.rs:508-532 | a failed step leaves every cache intact if and only if the first listed sequence is the full one |
| BatchContract.BeliefIsRecorded | rust/services/cgn-infer/src/runtime/mod.rs:45-68 | in every run of a runtime that serves the contract, the history a caller can infer from its own successful calls is the one on the books |
| BatchContract.AnswersMatchCaller | rust/services/cgn-infer/src/runtime/mod.rs:45-68 | whatever other sequences did, a decode that succeeds answers the model applied to exactly the caller's own tokens |
| BatchedSpec.ChunkOnHistory | rust/services/cgn-infer/src/runtime/mod.rs:121-150 | a chunk on an intact cache is answered with the model's logits on history plus chunk, and the cache becomes that of the longer history |
| BatchedSpec.LayersAtZero | rust/services/cgn-infer/src/model/llama.rs:595-640 | at position 0 whatever the slots held plays no part |
| BatchedSpec.TornForward | rust/services/cgn-infer/src/model/llama.rs:479-498 | a cache whose first slot outgrew its length takes one token at a time as if nothing had happened, and refuses every longer chunk because the mask no longer fits |
| BatchedSpec.TouchedSeated | rust/services/cgn-infer/src/model/llama.rs:508-532 | a step that ran out of positions tears the cache of every sequence before the full one, except an empty cache |
| BatchedSpec.PrefillServes | rust/services/cgn-infer/src/runtime/mod.rs:121-150 | every outcome of a prefill, on intact, torn and missing caches and empty chunks, satisfies the shared contract |
| BatchedSpec.DecodeTracks | rust/services/cgn-infer/src/runtime/mod.rs:152-187 | whether a decode succeeds and what every cache is afterwards can be told from which caches are intact, torn or missing; every intact listed sequence is answered from its own history alone |
| BatchedSpec.NextServes | rust/services/cgn-infer/src/runtime/mod.rs:121-191 | any call, from any state the runtime can be in, succeeds exactly when the caller can predict it, leaves the predicted caches and serves the shared contract |
| BatchedRuntime.PrefillOn | rust/services/cgn-infer/src/runtime/mod.rs:121-150 | the prefill procedure on the cache map computes the specified step: entry created, cleared at 0, position checked, pass run, an empty chunk refused only when logits are wanted |
| BatchedRuntime.TakeOut | rust/services/cgn-infer/src/runtime/mod.rs:152-167 | caches are removed in batch order; at a missing id the earlier ones are already gone |
| BatchedRuntime.StepTaken | rust/services/cgn-infer/src/runtime/mod.rs:168-182 | stepping the removed caches gives each sequence its own single-decode logits and cache, or touches exactly those before the first full one |
| BatchedRuntime.DecodeOn | rust/services/cgn-infer/src/runtime/mod.rs:152-187 | taking the caches out, stepping them together and putting them back computes the specified decode, losses and torn caches included |
| BatchedRuntime.BatchedLlama.Prefill | rust/services/cgn-infer/src/runtime/mod.rs:121-150 | the method does what the caller can predict and serves the contract |
| BatchedRuntime.BatchedLlama.Decode | rust/services/cgn-infer/src/runtime/mod.rs:152-187 | batched decode answers each intact listed sequence from its own history alone, or fails and leaves exactly the predicted caches lost or torn |
| BatchedRuntime.BatchedLlama.DropSeq | rust/services/cgn-infer/src/runtime/mod.rs:189-191 | only the dropped sequence is forgotten; an unknown id changes nothing |
| BatchedExact.Play | rust/services/cgn-infer/src/runtime/mod.rs:45-68 | the runtime, given any calls one after another, is a run of the shared contract |
| BatchedExact.WholeMeansIntact | rust/services/cgn-infer/src/runtime/mod.rs:121-187 | while no failed decode harmed a sequence since its start, its cache is that of the caller's own tokens; once harmed it is gone, torn, or that of fewer tokens |
| BatchedExact.RightIffWhole | rust/services/cgn-infer/src/runtime/mod.rs:121-187 | a decode that succeeds for a sequence answers the caller's own tokens under every model, if and only if no failed decode harmed the sequence since its last successful start |
| BatchedExact.LostUntilPrefill | rust/services/cgn-infer/src/runtime/mod.rs:152-167 | once a cache is lost, a decode of it succeeds only after another prefill of it was attempted |
| BatchedExact.TornSequenceAnswersWrong | rust/services/cgn-infer/src/runtime/mod.rs:168-187 | a run of the runtime: a batch fails on a full sequence, and the retry of a sequence listed before it succeeds with an answer that is not the model's |
| BatchedExact.LostSequenceAnswersAfresh | rust/services/cgn-infer/src/runtime/mod.rs:152-187 | a run of the runtime: a cache lost to a failed batch, then a refused continuation prefill, then a decode that succeeds on an empty history, for every model |
| SequentialRuntime.ContinuedSeated | rust/services/cgn-infer/src/runtime/mod.rs:345-354 | feeding a continuation token by token ends on the cache of the longer history with its logits, or fails where the context ends and leaves more cached than is on record |
| SequentialRuntime.SequentialModel.ForwardTokens | rust/services/cgn-infer/src/runtime/mod.rs:327-359 | the loop over a continuation computes the specified token-by-token pass |
| SequentialRuntime.SequentialModel.Prefill | rust/services/cgn-infer/src/runtime/mod.rs:327-359 | the method computes the specified call, empty chunks included |
| SequentialRuntime.SequentialModel.Decode | rust/services/cgn-infer/src/runtime/mod.rs:361-381 | the method computes the specified call; any batch but one of the resident sequence is refused |
| SequentialRuntime.SequentialModel.DropSeq | rust/services/cgn-infer/src/runtime/mod.rs:383-387 | only the named sequence is forgotten |
| SequentialRuntime.NextServes | rust/services/cgn-infer/src/runtime/mod.rs:327-387 | any call succeeds exactly when the caller can predict it, leaves the predicted cache and serves the shared contract |
| SequentialExact.Play | rust/services/cgn-infer/src/runtime/mod.rs:45-68 | the runtime, given any calls one after another, is a run of the shared contract |
| SequentialExact.RightIffWhole | rust/services/cgn-infer/src/runtime/mod.rs:327-381 | a decode that succeeds answers the caller's own tokens under every model, if and only if no continuation since the sequence was started began inside the context and ran past it |
| SequentialExact.TornContinuationExample | rust/services/cgn-infer/src/runtime/mod.rs:345-354 | the smallest such run: one token, a continuation of two at a context of two, and a decode that succeeds with a wrong answer |
| PipelineReference.StageForward | rust/services/cgn-infer/src/pipeline/mod.rs:169-225 | one stage that holds log `g` and is fed the next chunk answers the reference rows and holds the longer log |
| Pipeline.FoundMatches | rust/services/cgn-infer/src/pipeline/mod.rs:186-204 | the cache a worker finds for a chunk is the cache of something the caller can list, and of nothing at position 0 |
| Pipeline.WorkerSafe | rust/services/cgn-infer/src/pipeline/mod.rs:169-225 | on a safe chunk a worker refuses, or holds the longer log and answers the reference rows; it accepts exactly at position 0 or when its length is the coordinator's |
| Pipeline.RemoteSafe | rust/services/cgn-infer/src/pipeline/mod.rs:490-547 | for every pattern of faults: if the pass of a safe chunk succeeds its rows are the reference rows and every worker holds the longer log; if it fails each worker holds what it held, nothing, or the longer log |
| Pipeline.RemoteAny | rust/services/cgn-infer/src/pipeline/mod.rs:490-547 | for any other pass the lengths workers may have are still exactly those the caller can list |
| Pipeline.CleanPass | rust/services/cgn-infer/src/pipeline/mod.rs:517-527 | without codec errors a pass over workers in step is taken by all of them and answers the reference rows, or ends a link for good |
| Pipeline.CleanPush | rust/services/cgn-infer/src/pipeline/mod.rs:490-547 | the protocol theorem: when requests and replies are lost and workers restart but no codec fails, every push keeps all workers in step behind open links, every success answers exactly the log the coordinator records, a push that fails ends a link for good, and with every link open and no fault the push succeeds and the links stay open, with no condition on the caller |
| Pipeline.ChunkSound | rust/services/cgn-infer/src/pipeline/mod.rs:574-641 | with codec errors as well: knowledge about every sequence is kept, and success on a trusted sequence is the reference answer to exactly the log the coordinator records |
| PipelinedRuntime.StepWorker | rust/services/cgn-infer/src/pipeline/mod.rs:169-225 | the worker's procedure is the specification step: find or create, clear at 0, refuse another length, run the slice |
| PipelinedRuntime.ForwardRemote | rust/services/cgn-infer/src/pipeline/mod.rs:490-547 | the loop over workers computes the specification pass for any transport and codec faults, links closed by earlier ones included, position sent as 32 bits |
| PipelinedRuntime.PushChunk | rust/services/cgn-infer/src/pipeline/mod.rs:584-606 | local slice, remote pass and head: outcome, workers and links are those of the specified pass, and with workers in step, links open and no fault the push succeeds with the reference answer |
| PipelinedRuntime.PipelinedModel.Prefill | rust/services/cgn-infer/src/pipeline/mod.rs:574-611 | every outcome under every fault pattern; as long as no codec has failed every success is the reference answer to the recorded log, and after a codec error every success on a trusted sequence is; with links open and no fault it succeeds exactly when the chunk is at its place, fits, and asks no logits of an empty chunk |
| PipelinedRuntime.PipelinedModel.Decode | rust/services/cgn-infer/src/pipeline/mod.rs:613-641 | as for prefill, for a batch of one; larger batches are refused without effect; with links open and no fault it succeeds exactly on a known sequence with a position left |
| PipelinedRuntime.PipelinedModel.DropSeq | rust/services/cgn-infer/src/pipeline/mod.rs:643-647 | the coordinator forgets the sequence, exactly the workers reached forget it too, and every other cache stays |
| PipelineWire.PipelineIsWireNet | rust/services/cgn-infer/src/pipeline/mod.rs:407-432 | with a wire that treats rows separately, the sliced pipeline is the unsliced model with the wire's rounding at each slice boundary, whatever the chunking |
| PipelineWire.ExactWireIsWholeModel | rust/services/cgn-infer/src/pipeline/mod.rs:407-432 | over an exact wire the pipeline's answer is the whole model's on the concatenated tokens |
| PipelineTrust.SettledFromSuccessOn | rust/services/cgn-infer/src/pipeline/mod.rs:574-641 | one success on a trusted sequence settles it, and a settled sequence stays trusted through every later success and failure of continuations |
| PipelineTrust.PrefillServes | rust/services/cgn-infer/src/pipeline/mod.rs:574-611 | what the pipelined prefill promises implies the contract the local runtimes serve |
| PipelineTrust.DecodeServes | rust/services/cgn-infer/src/pipeline/mod.rs:613-641 | what the pipelined decode promises implies the contract the local runtimes serve |
| PipelineTrust.DropServes | rust/services/cgn-infer/src/pipeline/mod.rs:643-647 | so does a drop, whichever workers it reaches |
| PipelineTrust.Play | rust/services/cgn-infer/src/pipeline/mod.rs:574-647 | the pipelined runtime, given any calls and any faults, is a run of the shared contract; if no codec fails, every success answers exactly the tokens the calls so far put on record, a function of the calls and the context alone, and once tokens were sent in vain nothing is sent with success again; if nothing fails, exactly the calls the record allows succeed |
| PipelineWire.SameTokensSameAnswer | rust/services/cgn-infer/src/pipeline/mod.rs:490-547 | over a wire that treats rows separately caches and answers depend on the tokens alone |
| PipelineExact.ReplaySound | rust/services/cgn-infer/src/pipeline/mod.rs:490-547 | every fault pattern and every leftover of an earlier coordinator that explains what the caller saw leaves every worker with something on the caller's list |
| PipelineExact.PlanFor | rust/services/cgn-infer/src/pipeline/mod.rs:490-547 | everything on the caller's list, leftovers included, can come about at all workers together in a way that agrees with every outcome the caller saw |
| PipelineExact.Executes | rust/services/cgn-infer/src/pipeline/mod.rs:490-547 | such a plan is carried out by codec errors alone: the payload of a missed push is not encoded, the last reply of a push taken in vain is not decoded, and resets reach nobody |
| PipelineExact.GuaranteeIff | rust/services/cgn-infer/src/pipeline/mod.rs:490-547 | over a wire that treats rows separately, for any number of workers, any leftovers and any run of pushes and drops a caller can see: the next push is answered correctly under every model and every explanation of the run, if and only if nothing a worker may hold has the coordinator's length without being the cache of its tokens |
| PipelineExact.GuaranteeBounds | rust/services/cgn-infer/src/pipeline/mod.rs:490-547 | over any wire that carries bits, int8 among them: guaranteed when every cache of the coordinator's length is that of its very chunks, and only when every such cache is that of its tokens |
| PipelineExact.SafeIsRight | rust/services/cgn-infer/src/pipeline/mod.rs:490-547 | the sufficient half, for every model, every wire and any number of workers |
| PipelineExact.UnsafeCanBeWrong | rust/services/cgn-infer/src/pipeline/mod.rs:490-547 | the necessary half, over any wire that carries bits: from every unsafe state some model, some leftovers and some codec errors that explain what the caller saw make the next push succeed with a wrong answer |
| PipelineExact.StaleRestartExample | rust/services/cgn-infer/src/pipeline/mod.rs:504-504 | the smallest unsafe run on fresh workers: a prefill, then a restart with another prompt of the same length whose payload cannot be encoded |
| PipelineExact.LeftoverExample | rust/services/cgn-infer/src/pipeline/mod.rs:504-504 | with leftovers one push is enough: a first prompt whose payload cannot be encoded, where an earlier coordinator left a cache of its length |
| Codec.Decode | rust/services/cgn-infer/src/pipeline/mod.rs:90-129 | refuses exactly an unspecified encoding or a payload of another size, and otherwise returns `seq_len` rows |
| Codec.PayloadReads | rust/services/cgn-infer/src/pipeline/mod.rs:90-129 | an f16 payload reads as two bytes a value, low byte first, an int8 payload as one byte in two's complement times the scale |
| Codec.TripShape | rust/services/cgn-infer/src/pipeline/mod.rs:63-129 | every well-shaped chunk makes the trip and keeps its shape and order |
| Codec.ReshapeUndoesFlatten | rust/services/cgn-infer/src/pipeline/mod.rs:63-129 | flattening and reshaping are inverse |
| Codec.Int8Error | rust/services/cgn-infer/src/pipeline/mod.rs:76-85 | every int8 value comes back within max/254 of the original, and the byte -128 is never sent |
| Codec.Int8KeepsMax | rust/services/cgn-infer/src/pipeline/mod.rs:76-85 | the largest magnitude survives the trip exactly |
| Codec.RelayIsLossless | rust/services/cgn-infer/src/pipeline/mod.rs:63-129 | a second int8 trip sends the same scale and bytes, so relaying through another machine adds no error |
| Codec.F16IsRowwise | rust/services/cgn-infer/src/pipeline/mod.rs:69-75 | an f16 trip rounds each value on its own |
| Codec.F16RelayIsLossless | rust/services/cgn-infer/src/pipeline/mod.rs:69-75 | a second f16 trip changes nothing when narrowing the value of a half gives a half of the same value, the two zeros being one value |
| Codec.F16CarriesBits | rust/services/cgn-infer/src/pipeline/mod.rs:69-75 | an f16 wire treats rows separately and carries zero and one unchanged |
| Codec.Int8IsScaled | rust/services/cgn-infer/src/pipeline/mod.rs:76-85 | an int8 trip rebuilds every value from the one scale of its chunk, row by row |
| Codec.Int8CarriesBits | rust/services/cgn-infer/src/pipeline/mod.rs:76-85 | an int8 wire carries chunks of zeros and ones unchanged |
| Codec.F16PipelineIgnoresChunking | rust/services/cgn-infer/src/pipeline/mod.rs:490-547 | over an f16 wire the pipeline's answer depends on the tokens alone |
| Codec.Int8DependsOnChunk | rust/services/cgn-infer/src/pipeline/mod.rs:76-85 | a concrete row that comes back differently when a larger row shares its chunk |
| Admission.ReleaseKeeps | rust/services/cgn-router/src/admission.rs:78-98 | a release keeps the whole invariant, never meets a zero counter, and consumes exactly one permit |
| Admission.PopShrinks | rust/services/cgn-router/src/admission.rs:80-95 | every iteration of the release loop leaves exactly one parked waiter fewer, so it ends |
| Admission.StepKeeps | rust/services/cgn-router/src/admission.rs:129-191 | every step of every interleaving keeps the invariant |
| Admission.PoolIsSafe | rust/services/cgn-router/src/admission.rs:78-191 | in every reachable state: `inflight` = live permits + slots in transit + slots lost, at most `max_queue`; `turn` lists exactly the tenants with waiters, once each; queues stay within their limit; nobody is parked while a slot is free; a pending waiter is always queued; arrivals of each tenant = popped in order + still queued |
| AdmissionRuns.ReleaseOutcome | rust/services/cgn-router/src/admission.rs:78-98 | a release skips exactly the waiters that are gone and sends the slot to the first live one in rotation; it frees the slot only when nobody is live |
| AdmissionRuns.StepChannels | rust/services/cgn-router/src/admission.rs:179-190 | no step takes a granted slot back or revives a waiter that ended without one |
| AdmissionRuns.TimeoutMeansNeverGranted | rust/services/cgn-router/src/admission.rs:179-190 | over whole runs, a waiter that reported a timeout was never sent a slot and never will be |
| AdmissionRuns.LostIff | rust/services/cgn-router/src/admission.rs:143-191 | a slot is lost exactly when a request goes away after being sent a slot and before collecting it, and a lost slot never comes back |
| AdmissionRuns.LostSlotExample | rust/services/cgn-router/src/admission.rs:143-191 | a reachable state with no permit, no slot in transit and `inflight` = 1 |
| AdmissionRuns.AllLostIsForever | rust/services/cgn-router/src/admission.rs:129-140 | once every slot is lost no later run admits anyone |
| AdmissionRuns.ParkedMeansBusy | rust/services/cgn-router/src/admission.rs:129-178 | while someone is parked and not every slot is lost, a permit is live or in transit |
| AdmissionRuns.PopBrings | rust/services/cgn-router/src/admission.rs:80-95 | one pop takes the waiter or brings it closer by one pop of its allowance |
| AdmissionRuns.BoundedBypass | rust/services/cgn-router/src/admission.rs:78-98 | over every run, whatever arrives: the front waiter of the tenant at place `p` is exactly the `p + 1`st popped, and the one at index `i` is popped within `p + 1 + i * N` pops for at most `N` parked tenants |
| AdmissionPool.Pool.TryAdmit | rust/services/cgn-router/src/admission.rs:129-140 | admits exactly when a slot is free and nobody is parked; keeps the invariant |
| AdmissionPool.Pool.Park | rust/services/cgn-router/src/admission.rs:155-178 | the locked part of `admit`: permit, place in line, or refusal exactly at a full queue with no state change |
| AdmissionPool.Pool.Release | rust/services/cgn-router/src/admission.rs:78-98 | the loop computes the specified hand-over, keeps the invariant and ends |
| AdmissionPool.Pool.Collect | rust/services/cgn-router/src/admission.rs:180-180 | collecting turns a slot in transit into a permit |
| AdmissionPool.Pool.Close | rust/services/cgn-router/src/admission.rs:182-184 | closing keeps a slot that already arrived |
| AdmissionPool.Pool.TryRecv | rust/services/cgn-router/src/admission.rs:185-188 | returns the slot exactly when one was sent, and reports a timeout exactly when none was |
| PrefixHash.HashSeqChunks | rust/libraries/cgn-core/src/hash.rs:79-91 | one digest per started chunk, digest `i` chained on digest `i - 1` |
| PrefixHash.PreimageInjective | rust/libraries/cgn-core/src/hash.rs:41-51 | for separate model names the hashed bytes determine model, parent digest and tokens |
| Bytes.LittleEndianValue | rust/libraries/cgn-core/src/hash.rs:47-49 | a token is hashed least significant byte first |
| PrefixHash.DigestDeterminesPrefix | rust/libraries/cgn-core/src/hash.rs:71-91 | without collisions and zero digests, equal digests mean the same model, the same depth and the same whole token prefix |
| PrefixHash.PrefixDeterminesDigest | rust/libraries/cgn-core/src/hash.rs:79-91 | sequences that agree up to a chunk have the same digests up to there |
| PrefixHash.FlavoursApart | rust/libraries/cgn-core/src/hash.rs:28-51 | the chained and the plain digest never hash the same bytes, whatever the names, parents and tokens |
| PrefixHash.FirstDigestsCollideIff | rust/libraries/cgn-core/src/hash.rs:41-51 | whatever the hash, two different models have sequences with the same first digest if and only if one name continues the other with whole words that are zero as far as the zero parent digest reaches |
| PrefixHash.NulNameExample | rust/libraries/cgn-core/src/hash.rs:79-91 | four NUL bytes at the end of a name and one token 0 at the start of a request give the same digest under every hash |
| PrefixHash.SomeDigestsCollideIff | rust/libraries/cgn-core/src/hash.rs:71-91 | at any depth some hash gives sequences of two different models the same hashed bytes if and only if one name continues the other with a NUL byte and at most 31 whole words in all |
| PrefixIndex.Upsert | rust/libraries/cgn-core/src/prefix.rs:45-54 | renews the node's entry where it stands or appends one |
| PrefixIndex.AddedRenews | rust/libraries/cgn-core/src/prefix.rs:43-55 | after an insert exactly the claim of that node on that digest is renewed; lists stay free of duplicates |
| PrefixIndex.SweptClaims | rust/libraries/cgn-core/src/prefix.rs:70-117 | after a forget, a stale sweep or a collection exactly the claims its condition keeps remain |
| PrefixIndex.SweepOnLive | rust/libraries/cgn-core/src/prefix.rs:70-117 | what each sweep does to the live nodes of every digest: one claim gone, one node gone, one node's old claims gone, or nothing at all for `gc` |
| PrefixIndex.ForgetIsLocal | rust/libraries/cgn-core/src/prefix.rs:70-75 | dropping one claim touches only its digest, and purges it when empty |
| PrefixIndex.Index.Insert | rust/libraries/cgn-core/src/prefix.rs:43-55 | renews exactly one claim |
| PrefixIndex.Index.InsertMany | rust/libraries/cgn-core/src/prefix.rs:61-65 | is the run of single inserts |
| PrefixIndex.Index.Forget | rust/libraries/cgn-core/src/prefix.rs:70-75 | removes exactly one node's claim on one digest |
| PrefixIndex.Index.RetainAll | rust/libraries/cgn-core/src/prefix.rs:78-117 | `forget_node`, `forget_node_stale` and `gc` as one retain-then-purge |
| PrefixIndex.Index.Lookup | rust/libraries/cgn-core/src/prefix.rs:125-135 | lists exactly the nodes with a live claim, once each |
| PrefixIndex.Index.Overlap | rust/libraries/cgn-core/src/prefix.rs:145-159 | counts, for exactly the nodes that hold any, how many of the digests each holds |
| PrefixIndex.Depth | rust/libraries/cgn-core/src/prefix.rs:161-173 | the reference: all digests before it are held live, the one at it is not |
| PrefixIndex.Index.LongestPrefixOverlap | rust/libraries/cgn-core/src/prefix.rs:174-221 | the shrinking active set gives exactly the reference depth of every node, and leaves out nodes of depth 0 |
| PrefixRuns.LookupIff | rust/libraries/cgn-core/src/prefix.rs:43-135 | after any run of inserts and removals, a node is looked up for a digest if and only if its last insert there, not removed since by name, with its node or by a sweep it was too old for, is less than the lifetime ago |
| PrefixRuns.DepthIff | rust/libraries/cgn-core/src/prefix.rs:174-221 | the reported prefix length is exactly the number of leading digests the node holds in that sense |
| PrefixRuns.CountIs | rust/libraries/cgn-core/src/prefix.rs:145-159 | and the overlap the number of positions whose digest it holds |
| PrefixRuns.GcOnlyTrims | rust/libraries/cgn-core/src/prefix.rs:109-117 | at any point of a run with a non-decreasing clock, collection has removed only claims that are expired for good |
| PrefixRuns.GcIsInvisible | rust/libraries/cgn-core/src/prefix.rs:95-159 | two runs that differ only in where collection happened answer every later lookup, overlap and longest-prefix question alike |
| PrefixRuns.InsertManyPosts | rust/libraries/cgn-core/src/prefix.rs:61-65 | inserting a request's chain for a node adds exactly that chain's digests |
| PrefixRuns.RunPosts | rust/libraries/cgn-core/src/prefix.rs:61-65 | a run of such inserts adds exactly the chains of its posts |
| PrefixRuns.LongestPrefixIsSound | rust/libraries/cgn-core/src/prefix.rs:174-221 | a reported length `k` is witnessed by one sequence inserted for that node under that model that agrees with the request on its whole first `k` chunks, however claims came and went |
| PrefixRuns.LongestPrefixIsMaximal | rust/libraries/cgn-core/src/prefix.rs:174-221 | if no claim was forgotten or expired, no inserted sequence of that node agrees on more chunks than reported |
| BlockCache.BlockHashes | rust/services/cgn-infer/src/kv/mod.rs:36-45 | one chained hash per complete block, none for the tail |
| BlockCache.HashDeterminesPrefix | rust/services/cgn-infer/src/kv/mod.rs:18-45 | without collisions equal hashes mean equal depth and equal tokens up to there; depths are told apart by 64 against 96 hashed bytes |
| BlockCache.PrefixDeterminesHash | rust/services/cgn-infer/src/kv/mod.rs:23-45 | equal prefixes have equal hashes |
| BlockCache.PrefixCache.Record | rust/services/cgn-infer/src/kv/mod.rs:96-102 | records each block hash at its depth and never overwrites an entry |
| BlockCache.PrefixCache.Clear | rust/services/cgn-infer/src/kv/mod.rs:105-108 | afterwards the empty sequence is recorded |
| BlockCache.PrefixCache.MatchPrefix | rust/services/cgn-infer/src/kv/mod.rs:77-92 | returns exactly the longest common prefix with the recorded sequence in whole 16-token blocks |
| BlockCache.KvPool.FreeBlocks | rust/services/cgn-infer/src/kv/mod.rs:146-148 | never underflows: free plus held is the total |
| BlockCache.KvPool.Reserve | rust/services/cgn-infer/src/kv/mod.rs:166-179 | all or nothing, never shrinks a holding, covers the tokens, leaves other holders alone, and is refused exactly when the growth does not fit |
| BlockCache.KvPool.Release | rust/services/cgn-infer/src/kv/mod.rs:182-186 | gives back exactly what the sequence held |
| RamTier.StepCongruent | rust/libraries/cgn-kv/src/tier.rs:141-165 | every step of every concurrent put and evict keeps the counter congruent to resident bytes less pending additions plus pending subtractions |
| RamTier.QuietCounterIsExact | rust/libraries/cgn-kv/src/tier.rs:141-169 | after any interleaving, with nothing in flight, the counter is the resident bytes modulo 2^64, and exactly the resident bytes below that |
| RamTier.Ram.Put | rust/libraries/cgn-kv/src/tier.rs:141-156 | replaces the block, keeps the counter exact, says whether one was replaced |
| RamTier.Ram.Evict | rust/libraries/cgn-kv/src/tier.rs:158-165 | removes the block and keeps the counter exact |
| RamTier.Ram.GetBytes | rust/libraries/cgn-kv/src/tier.rs:83-88 | returns the block's bytes and changes only its touch time |
| TieredStore.SpillKeepsValues | rust/services/cgn-kvcached/src/tiers.rs:114-132 | a spill changes no value, whether its write works or not |
| TieredStore.SpillDisturbsIff | rust/libraries/cgn-kv/src/ssd.rs:35-38 | spilling one block changes another exactly when they share a file name, the other is not in RAM and the file held other bytes |
| TieredStore.StoreIsItsBlocks | rust/services/cgn-kvcached/src/tiers.rs:54-205 | after any run of whole operations, reads, writes and removals failing at will, RAM, files and index say of every live address exactly what its own operation history says |
| TieredStore.TrackIsLastPut | rust/services/cgn-kvcached/src/tiers.rs:54-205 | unless a removal failed, the history of a block leaves nothing to read but the last bytes put, and a listing with their size exactly while there is something to read |
| TieredStore.TouchIsLastUse | rust/libraries/cgn-kv/src/tier.rs:83-88 | whatever fails, a block in RAM was last touched by its last put, lookup, read or spill attempt |
| TieredStore.ListedModel | rust/services/cgn-kvcached/src/tiers.rs:96-132 | a put is listed under its model, a spill under the one it was given and a promotion under none, each with its size, time and tier |
| TieredStore.ExpiryIsBySpillTime | rust/services/cgn-kvcached/src/tiers.rs:175-189 | a block in RAM is never expired, a spilled one exactly when its spill is longer ago than the limit, and nothing at a limit of zero |
| TieredStore.FailedForgetIff | rust/services/cgn-kvcached/src/tiers.rs:201-205 | after the first removal that fails, the block reads as older bytes if and only if RAM held other bytes than it was last spilled with, and is listed with nothing to read if and only if it was never spilled |
| TieredStore.StaleAfterFailedForget | rust/services/cgn-kvcached/src/tiers.rs:201-205 | a run of the store: put, spill, read back, put other bytes, a failing forget; the block reads as the bytes it was spilled with |
| TieredStore.ListedButGone | rust/services/cgn-kvcached/src/tiers.rs:54-65 | a run of the store: a block never spilled whose forget fails is found by a lookup and cannot be read |
| TieredStore.StoreRefinesMap | rust/services/cgn-kvcached/src/tiers.rs:54-205 | after any run with failing reads and writes and no failing removal, every live address reads as the last bytes put unless forgotten or expired since, the index domain is RAM united with SSD, and every listed size is that of the bytes |
| TieredStore.Store.PutRam | rust/services/cgn-kvcached/src/tiers.rs:96-111 | stores in RAM and marks the block as in RAM |
| TieredStore.Store.Lookup | rust/services/cgn-kvcached/src/tiers.rs:54-65 | reports a block exactly when it is in RAM or listed in the index, touches that block alone, and changes no block's value |
| TieredStore.Store.LookupWithPromote | rust/services/cgn-kvcached/src/tiers.rs:69-94 | the read procedure: RAM, then file with promotion |
| TieredStore.Store.SpillToSsd | rust/services/cgn-kvcached/src/tiers.rs:114-132 | file first, RAM eviction second, index last; nothing moves when the write fails |
| TieredStore.Store.ForgetBlock | rust/services/cgn-kvcached/src/tiers.rs:201-205 | the three removals, stopping at a failing file removal |
| TieredStore.Store.ExpirePass | rust/services/cgn-kvcached/src/tiers.rs:175-189 | the loop forgets exactly the SSD blocks last seen longer ago than the limit, does nothing at a limit of zero, and goes on past failing removals |
| SpillRace.ReadsAreRight | rust/services/cgn-kvcached/src/tiers.rs:69-132 | with one content per address, every interleaving of split spills, promotions and forgets reads that content or nothing |
| SpillRace.StaysReadable | rust/services/cgn-kvcached/src/tiers.rs:114-132 | in every interleaving that does not forget it, a readable block stays readable, because the file write precedes the RAM eviction |
| SpillRace.PutIsSafe | rust/services/cgn-kvcached/src/tiers.rs:96-111 | a put makes its block safe exactly when no finished write of a pending spill has lost its file again |
| SpillRace.SpillLosesUpdateIff | rust/services/cgn-kvcached/src/tiers.rs:114-132 | with puts at the block and anything elsewhere around a spill that completes, the block reads as the bytes the spill started with, so an update is lost if and only if the last put in between carried other bytes |
| SpillRace.PromoteLosesUpdateIff | rust/services/cgn-kvcached/src/tiers.rs:69-94 | with puts at the block and anything elsewhere after a promoting read took its file, what was put is undone if and only if it differs from the file |
| SpillRace.UpdateSurvivesIff | rust/services/cgn-kvcached/src/tiers.rs:69-132 | bytes in RAM survive every run of spills and promotions of their block, overlapping at will, if and only if no job under way on it holds other bytes, is about to read other bytes from the file, or is a spill whose file does not hold them any more |
| SpillRace.StaysGoneIff | rust/services/cgn-kvcached/src/tiers.rs:69-205 | a block that is gone stays gone in every such run if and only if no spill or promotion under way still holds its bytes |
| SpillRace.FreshPutLostIff | rust/services/cgn-kvcached/src/tiers.rs:175-205 | a block found stale by the scan and put again before its forget is lost if and only if no put of it falls after its RAM eviction |
| SpillRace.LostUpdateExample | rust/services/cgn-kvcached/src/tiers.rs:114-132 | a five-step run in which an update made during a spill is lost |
| Eviction.Coldest | rust/libraries/cgn-kv/src/tier.rs:98-112 | up to `n` distinct blocks, oldest touch first, none fresher than any block left out |
| Eviction.SpillBatch | rust/services/cgn-kvcached/src/tiers.rs:155-168 | whichever writes fail, a batch changes no block's value, removes exactly the victims whose write worked from RAM, touches the others, and lists exactly those as on SSD under the model they had |
| Eviction.EvictPass | rust/services/cgn-kvcached/src/tiers.rs:141-173 | always ends; never changes what any block reads as; whichever writes fail it is a run of rounds that each spill the coldest 32, until it is at its target, nothing is left or a round frees nothing; when no write fails it spills exactly the reference number, coldest first |
| Eviction.EndsUnderTargetIff | rust/services/cgn-kvcached/src/tiers.rs:149-172 | on the reference: the pass ends above its target if and only if some batch of 32 in coldest-first order is all empty while the rest exceeds the target |
| Eviction.PassEndsAboveIff | rust/services/cgn-kvcached/src/tiers.rs:141-173 | the same of an actual pass over the store, for every coldest-first order its spills begin |
| Eviction.NonEmptyEndsUnder | rust/services/cgn-kvcached/src/tiers.rs:149-172 | with no empty block the pass ends at or under its target |
| Eviction.FewerThanABatchExtra | rust/services/cgn-kvcached/src/tiers.rs:149-172 | never 32 or more blocks beyond a number that was enough |
| Eviction.PassOutcome | rust/services/cgn-kvcached/src/tiers.rs:141-173 | the three promises together for an actual pass: at or under target, spilled at least as cold as kept, fewer than 32 extra |
| Eviction.EmptyBatchStopsPass | rust/services/cgn-kvcached/src/tiers.rs:149-172 | a store with 32 empty cold blocks and one of a hundred bytes, on which a pass without failing writes stops at a hundred bytes, aiming at ten |
| TokenBucket.TtlCoversRefill | rust/libraries/cgn-ratelimit/src/redis_backend.rs:73-79 | the idle time before a key is dropped is long enough to refill it completely, for all rates and bursts |
| TokenBucket.TtlIsFiveFills | rust/libraries/cgn-ratelimit/src/redis_backend.rs:73-79 | that time is exactly five fills in whole milliseconds, and at least a second |
| TokenBucket.ExpiryIsInvisible | rust/libraries/cgn-ratelimit/src/redis_backend.rs:22-53 | dropping idle keys never changes a decision, on any clock |
| TokenBucket.PaidFor | rust/libraries/cgn-ratelimit/src/redis_backend.rs:39-48 | on any clock, admissions are paid for by the bucket plus the refill for all forward clock movement |
| TokenBucket.AdmittedIff | rust/libraries/cgn-ratelimit/src/redis_backend.rs:22-53 | on any clock, expiry included: a check is admitted if and only if it keeps every window that ends with it within the burst plus the refill for the forward clock movement |
| TokenBucket.AdmittedIffInTime | rust/libraries/cgn-ratelimit/src/redis_backend.rs:22-53 | the same on a clock that never goes back, in clock readings alone |
| TokenBucket.SpacedIsAdmitted | rust/libraries/cgn-ratelimit/src/redis_backend.rs:39-48 | checks spaced by the refill of one token are all admitted |
| TokenBucket.WindowBound | rust/libraries/cgn-ratelimit/src/redis_backend.rs:22-53 | on a non-decreasing clock every window of a run, expiry included, admits at most burst + w * rps / 1000 |
| TokenBucket.BoundIffMonotone | rust/libraries/cgn-ratelimit/src/redis_backend.rs:22-53 | every window of a run meets that bound under every configuration, if and only if the clock never goes back |
| TokenBucket.DropInvisibleIff | rust/libraries/cgn-ratelimit/src/redis_backend.rs:22-53 | whenever the store drops a key, by whatever clock, the tokens available are unchanged if and only if the bucket would have been full by now |
| TokenBucket.BackwardClockExample | rust/libraries/cgn-ratelimit/src/redis_backend.rs:39-50 | one step back of the clock refills the same second twice |
| TokenBucket.Limiter.Check | rust/libraries/cgn-ratelimit/src/redis_backend.rs:84-100 | a check changes only its key, which the store may have dropped by its own clock; when a drop means a whole idle lifetime the key's bucket decides, dropped or not |
| UsageLedger.Ledger.CheckAt | rust/services/cgn-router/src/usage.rs:107-137 | allows exactly unknown keys and keys under both limits, refuses for the budget exactly a known key that spent it, and otherwise for the rate with the time to the next minute |
| UsageLedger.RetryAfterIsEnough | rust/services/cgn-router/src/usage.rs:126-134 | a caller refused for the rate that asks again after the time it was told, nothing charged since, is allowed |
| UsageLedger.RetryAfterIsNeeded | rust/services/cgn-router/src/usage.rs:126-134 | a second sooner it is still refused for the rate |
| UsageLedger.RateRefusalMeans | rust/services/cgn-router/src/usage.rs:112-134 | a rate refusal comes exactly from a rate limit that is reached with the budget, if any, not spent |
| UsageLedger.BudgetRefusalIsFinal | rust/services/cgn-router/src/usage.rs:115-124 | a caller refused for its budget is refused at every later time, whatever is charged meanwhile |
| UsageLedger.Ledger.ChargeAt | rust/services/cgn-router/src/usage.rs:144-161 | adds to the total and to the window of the charge's minute, modulo 2^64 |
| UsageLedger.Reopen | rust/services/cgn-router/src/usage.rs:80-99 | persist then open preserves every total and the set of keys |
| UsageLedger.TotalIsSum | rust/services/cgn-router/src/usage.rs:144-147 | after any run of charges a key's total is the sum of its charges modulo 2^64 |
| UsageLedger.WindowExactIff | rust/services/cgn-router/src/usage.rs:148-153 | on any clock the window is exact for a minute if and only if what was charged in it before a charge of another minute adds up to nothing |
| UsageLedger.WindowIsExact | rust/services/cgn-router/src/usage.rs:148-153 | on a non-decreasing clock the window holds exactly its minute's charges |
| UsageLedger.CheckMeansUnder | rust/services/cgn-router/src/usage.rs:107-137 | a check on a limit of at least one passes exactly while the key's total, or its minute, is under the limit |
| UsageLedger.ZeroBudgetIff | rust/services/cgn-router/src/usage.rs:112-114 | a budget of zero refuses exactly the keys that were charged before |
| UsageLedger.ChargeCounts | rust/services/cgn-router/src/usage.rs:144-153 | a charge adds its tokens to what its limit counts |
| UsageLedger.OvershootIsExact | rust/services/cgn-router/src/usage.rs:107-153 | however checks and charges interleave, for the budget and for the minute: below the limit until it is reached, then nothing new is let through, and once what was in flight is charged the use is exactly what it was plus all those sizes |
| UsageLedger.WithinOwnSizeIff | rust/services/cgn-router/src/usage.rs:8-9 | the final use is less than one request's own size above the limit if and only if the others in flight would have fitted under it |
| UsageLedger.TwoInFlightExample | rust/services/cgn-router/src/usage.rs:8-9 | two requests in flight overshoot by more than either one's size |
| UsageLedger.ZeroBudgetExample | rust/services/cgn-router/src/usage.rs:112-114 | a key never charged passes even a budget of zero |
| SseFraming.FindFrameEnd | rust/services/cgn-agent/src/engine/openai_http.rs:389-403 | the end of the first blank line, for LF and CRLF line ends, and none exactly when there is no blank line |
| SseFraming.EndIsStable | rust/services/cgn-agent/src/engine/openai_http.rs:389-403 | bytes that arrive later never move a frame end already found |
| SseFraming.FramesCover | rust/services/cgn-agent/src/engine/openai_http.rs:147-148 | frames followed by the leftover are the bytes |
| SseFraming.FramesOfCut | rust/services/cgn-agent/src/engine/openai_http.rs:140-148 | cutting the bytes anywhere changes neither the frames nor the leftover |
| SseFraming.HandleFrame | rust/services/cgn-agent/src/engine/openai_http.rs:149-223 | one frame's choices are sent in order, empty ones skipped, until the client is gone |
| SseFraming.Drain | rust/services/cgn-agent/src/engine/openai_http.rs:147-223 | drains exactly the complete frames, stopping at the end mark or a lost client |
| SseFraming.Generate | rust/services/cgn-agent/src/engine/openai_http.rs:133-235 | for every way of cutting the stream, the outcome and the tokens sent are a function of the bytes; drained frames are the first frames of the stream, and with the leftover they are the bytes consumed |
| SseFraming.WhatIsSent | rust/services/cgn-agent/src/engine/openai_http.rs:149-234 | a client that stays is sent, in order, one token per choice with text, a finish reason or tool calls over the frames before the end mark, each carrying that choice's text, finish, tool calls and log probabilities and no usage; then, if the answer completes, the driver's token with the usage last reported; and how the stream ends |
| SseFraming.WhatIsSentInRoom | rust/services/cgn-agent/src/engine/openai_http.rs:208-211 | a client with room for `n` tokens gets exactly the first `n` of those, and the driver ends well as soon as a token of the engine finds no room |
| SseFraming.FinishIsSent | rust/services/cgn-agent/src/engine/openai_http.rs:225-234 | every completed answer for a client that stays carries a finish reason, and the driver's own last token adds one exactly when the engine sent none |
| SseFraming.FinishedTracked | rust/services/cgn-agent/src/engine/openai_http.rs:353-365 | the terminal token carries a finish reason exactly when no token before it did |

## Left out

- Floating-point rounding, softmax, rotary embedding, quantised matrix products and model file parsing: uninterpreted functions here.
- Half precision itself: `Codec` takes the conversion as a parameter.
- BLAKE3: an arbitrary function with the collision assumption above.
- gRPC, TLS, HTTP, etcd and Redis clients, metrics and logging.
- The scheduler and the router's cluster, routing, gateway and carbon modules.
- Rendering of process arguments and deployment files, and the router's single-formula modules: outside the state-carrying core modelled here.
- Restarts of the block daemon: index and files are maps within one process lifetime, and index writes do not fail.
- SseFraming.HandleFrame: the parse of a frame gives text, finish reason, tool calls and log probabilities as values; how they are read from JSON is not modelled.
- PipelineExact.GuaranteeBounds: over int8, whose scale depends on the chunk, the two conditions differ on caches of the same tokens cut into other chunks, whose answers may differ by rounding.
- TieredStore.Store.PutRam: index writes do not fail, so a block in RAM that is not listed does not occur.
- TieredStore.Store.SpillToSsd: index writes do not fail, so a spilled block is never left listed as in RAM.
- TieredStore.Store.ForgetBlock: index deletes do not fail; only the file removal may.
- SpillRace.UpdateSurvivesIff: for runs without puts or forgets of the block; what a put or forget in between does is `SpillRace.SpillLosesUpdateIff`, `SpillRace.PromoteLosesUpdateIff` and `SpillRace.FreshPutLostIff`.
- UsageLedger.OvershootIsExact: for totals below 2^64; beyond that `UsageLedger.TotalIsSum` says what is stored.
- Request ids of pipeline exchanges: they are sent along and never read back.
- The wait timer of the admission pool is a step that may happen at any time.
