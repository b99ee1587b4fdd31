# common network: the generation engine and its neighbours, verified

The repository runs a language model whose layers are spread over several machines. This project models the parts where
that can go wrong without anyone noticing, in Dafny, and proves what their comments, documentation and tests promise.

**The generation engine.** A decoder layer is abstract: a key and a value for each position, and an attention step that
sees the keys and values a mask lets through. On top of that stand the real objects of the source: PyTorch and MLX blocks
with their KV caches and sessions (`block.dfy`, `mlx_block.dfy`), block servers with saved replies (`server.dfy`), the
peers of a route and the client's transport with chunked requests, deferred rollbacks and token chains (`peers.dfy`,
`transport.dfy`), the plain decoder (`client.dfy`), the speculative decoder (`speculative.dfy`) and the drafter with its
own cache (`drafter.dfy`). The reference is `Greedy`: recompute the whole prefix through all layers for every token. The
proof goes up in three layers: a cached block is one uncached pass; a route of cached blocks is the whole model; both
decoders yield the reference stream, and so the same stream, on hidden-state, token-id and chain routes, for every drafter
whose drafts the stages take. Any request or reply may be lost; requests are repeated, and a chain is restarted from its
retained history, without the stream showing it.

**Around it.** The resumable range download of exactly the tensors a member needs, with a script of everything the network
and the disk may do (`segments.dfy`, `compact_layout.dfy`, `segment_stream.dfy`, `stream_laws.dfy`, `download.dfy`,
`selection.dfy`); the Hadamard rotation and 2-bit unpacking of packed weights (`hadamard.dfy`, `affine2.dfy`); the memory
planner (`planner.dfy`); route building (`coordinator.dfy`); incremental UTF-8 text (`utf8.dfy`, `text_stream.dfy`); the
worker stream as a state machine over all interleavings (`worker_stream.dfy`); chunked framing (`chunked.dfy`); the
launcher update with roll-back (`launcher_update.dfy`); expert regrouping (`experts.dfy`). `basics.dfy`, `sorting.dfy` and
`numerals.dfy` are shared.

`dafny verify dfyconfig.toml` checks everything.

## What the proofs found

Where the source does not keep a promise on all inputs, the source is modelled as it is, a lemma names an input, and the
exact condition is proved.

- `commonnet/speculative.py` promises exactly the plain stream. On a chain, a verification step of more than 256 positions
  (less for a small request limit) is refused by `commonnet/net/transport.py:571`, so with k of 256 or more the stream can
  end early. Drafts are not checked against the target's vocabulary before they are fed: an unknown one ends the stream
  (`UnknownDraftEndsTheStream`). `SpeculationIsExactIff` is the exact condition, `RefusedStepEndsTheStream` the input.
- A forward that cuts the session and is then refused leaves the saved reply of the step before in place
  (`commonnet/net/server.py:396-411`), which `truncate` drops for a reason it states (`commonnet/net/server.py:258-275`).
  A repeat of that step is then answered although the session no longer holds it: `ForgottenStep`. A saved reply stays
  right exactly in the other steps: `SavedStaysRightIff`. The decoders never repeat a step after such a refusal.
- `commonnet/hub.py:348` takes any `OSError`, also one from writing the file, for a dropped connection, after `pos` has
  moved on. The next answer is then written behind a hole, and a later run completes the file to the right length with
  wrong bytes: `FailedWriteLeavesHole` is such a script. A file stays resumable exactly when no write works after one that
  failed: `RunStaysResumableIff`, and over all attempts `FetchIsRightIff`.
- `fetch_compact` takes the end of a segment's last tensor for its position (`commonnet/hub.py:291-296`). An empty tensor
  listed behind a non-empty one at the same offset is planned before it but ends where it ends, so the non-empty one can be
  skipped. A run ends well exactly when that does not happen (`SteadyRunIff`), which is a matter of the range cap
  (`HidesIff`); `EmptyTensorHidesAnother` and `EmptyTensorHidesShorter` are files on which every run fails.
- `HadamardLinear.forward` reshapes all rows together (`commonnet/backends/hadamard_torch.py:55-56`): a block that divides
  the number of all values but not the width mixes rows without an error. `RowsApartIff` is the condition,
  `TwoRowsOfThree` the input.
- A one-layer model is always refused by the planner, with capacities that can cover it: `OneLayerIsRefused`.
- `_WorkerStream` never queues its end mark if calling the function raises, or if closing a generator cut short raises;
  the caller then waits for ever: `EndIsQueuedIff`, `EveryRunEndsIff`.
- `join/worker.py:374-381` ends the relayed reply whenever `read1` returns nothing, which is also what `http.client` returns
  when a reply that is not framed in chunks breaks off. The caller then takes the cut reply for complete:
  `CutBodyLooksWhole`. Complete means whole exactly when the backend frames its reply in chunks: `CompleteIsWholeIff`.
- `join/worker.py:383-386` takes a reset of the backend's connection for one of the caller's and returns. With HTTP/1.1
  (`join/worker.py:150`) the caller's connection stays open and the caller waits for an end that does not come. That is
  the only delivery that does it, and it can happen exactly when connections are kept open: `ToldUnlessReset`,
  `AlwaysToldIff`.
- If the launcher's roll-back itself fails, the originals are deleted with the temporary directory: `LoseOriginal` is a run
  with two failures; one failure alone is always rolled back, and a failed update has changed something exactly when its
  roll-back failed. `InstallUpdateBundle` says for which scripts, by counting renames.

## Model

| member | source | states |
|---|---|---|
| CausalModel.StackPrefix | commonnet/block.py:198-208 | Causality: what is fed later never changes what a stack of layers made of earlier positions. |
| CausalModel.CachedLayerIsUncached | commonnet/block.py:82-89 | A layer run on new positions over cached keys and values, under any mask that is causal, gives the tail of the uncached layer over everything. |
| CausalModel.StackSplit | commonnet/client.py:186-189 | Splitting the layers between machines does not change what they compute. |
| Block.KVCache.Update | commonnet/block.py:82-89 | Appends to one layer's keys and values, hands both back whole, and touches no other layer. |
| Block.BlockRange.Forward | commonnet/block.py:174-208 | With real caches: the answer and the new session contents are those of one uncached pass over all the session was fed; wrong position and unknown session are refused; position 0 starts over; other sessions keep theirs. |
| Block.BlockRange.CausalMask | commonnet/block.py:226-233 | The mask lets query i see exactly the keys at positions up to start + i. |
| Block.BlockRange.Truncate | commonnet/block.py:210-224 | Cuts every layer's cache to a length: afterwards the block holds exactly the cache of the shorter input. Idempotent; an unknown session is an error. |
| Block.RollbackErasesHistory | commonnet/block.py:210-224 | Feeding drafts and cutting back leaves exactly what feeding only the kept ones leaves. |
| Block.ChunksAreOneCall | commonnet/block.py:174-208 | Two calls in a row answer, and leave behind, what one call with both inputs would. |
| Block.BlockRange.SessionLength | commonnet/block.py:235-237 | The number of positions a session holds; 0 for an unknown one. |
| Block.BlockRange.Close | commonnet/block.py:239-241 | Drops one session and no other; closing an unknown one changes nothing. |
| MlxBlock.EveryMaskIsCausal | commonnet/backends/mlx_block.py:209-214 | Whichever of the three masks is chosen (none, "causal", explicit), the rows it stands for are the causal ones. |
| MlxBlock.TrimIsCut | commonnet/backends/mlx_block.py:247-249 | Trimming the surplus count from a cache leaves the cache of the shorter input. |
| MlxBlock.MlxBlockRange.Forward | commonnet/backends/mlx_block.py:183-232 | The same contract as the PyTorch block, with positions taken from each cache's own offset. |
| MlxBlock.MlxBlockRange.Truncate | commonnet/backends/mlx_block.py:238-250 | The same contract as the PyTorch block, by trimming a count. |
| Server.BlockServer.Forward | commonnet/net/server.py:383-412 | One step of a block server, every case: what it is not equipped for and unopened sessions are refused without a change, an exact repeat is answered from the saved reply without running again, a step in order rolls back, runs and answers the tail of one uncached pass, position 0 starts over, and a step out of order or with an unknown token is refused, with nothing done but its rollback. No step touches another session. |
| Server.BlockServer.SavedStaysRightIff | commonnet/net/server.py:395-411 | A saved reply is right if the session has just taken its step, so that a repeat changes nothing. Every step keeps that, if and only if it is not refused after it has rolled the session back. |
| Server.BlockServer.StaleReply | commonnet/net/server.py:396-406 | After such a refusal a repeat of the step before is answered Ok from the saved reply, and the session does not hold it. |
| Server.BlockServer.ForgottenStep | commonnet/net/server.py:396-406 | The input: feed two positions, cut to one with an unknown token, feed the two again. The last answer is the first one, and one position is held. |
| Server.BlockServer.Truncate | commonnet/net/server.py:258-275 | A cut by a request of its own drops the saved reply as well, and so keeps saved replies right. |
| Server.RollbackThenForward | commonnet/net/server.py:398-406 | A cut followed by a forward is a forward after the shorter input: rejected positions leave no trace. |
| Server.BlockServer.Close | commonnet/net/server.py:244-256 | Forgets one session, in the server and in its block. |
| Route.CheckRoute | commonnet/client.py:176-184 | Accepts exactly the routes whose windows tile [0, n); otherwise names the first break. |
| Pipeline.ThroughStage | commonnet/client.py:186-189 | One stage takes what reaches its first layer to what leaves its last layer in one uncached pass of the whole model. |
| Pipeline.DeferredCut | commonnet/net/transport.py:354-358 | A cut that only rides on the next forward already means the shorter session, and the next step is no repeat of the last one. |
| Pipeline.CountAccepted | commonnet/net/chain.py:196-201 | The comparison loop stops at the first draft that differs from the pick in its place. |
| PeerLinks.Peers.Send | commonnet/net/client.py:630-659 | A request sent up to any number of times, any request or reply of which may be lost: however often it arrives, the session takes the step once, every answer is that of one uncached pass, and it fails only if every attempt was lost or a token is unknown. |
| PeerLinks.Peers.RunChain | commonnet/net/chain.py:166-235 | One request down a chain of servers, repeated by the client while no answer comes, wherever an attempt broke off: no stage takes the step twice, every stage then holds the new tokens, and the reply is what the whole model picks, or the verdict on drafts. It fails only if a message of every attempt was lost or a token is unknown. |
| Transport.CutHistorySpells | commonnet/net/transport.py:333-343 | Cutting the retained history of a chain leaves exactly the history of the shorter session. |
| Transport.ChainChunk | commonnet/net/transport.py:568-570 | A chain request carries as many positions as fit the request limit, from 1 to 256. |
| Transport.HttpTransport.Forward | commonnet/net/transport.py:610-657 | A call of one endpoint, split into requests of any chunk size: together they answer what one request would; the first takes the waiting cut along. |
| Transport.HttpTransport.ChainStep | commonnet/net/transport.py:531-608 | A chain step must continue the retained history and fit a request if it verifies drafts; in chunks of any size, each one sent again after a restart if it gets no answer, it answers what one pass would, and leaves stages and history in step. Refused exactly when a condition on its inputs fails; it gives up only if every attempt of a request and then of its recovery is lost. |
| Transport.SpellsPrefix | commonnet/net/transport.py:515-517 | Entry by entry, a retained history spells the session from its start: each entry begins where those before it end. |
| Transport.HttpTransport.Replay | commonnet/net/transport.py:513-517 | Under a name no server knows, replaying the retained history leaves every stage with exactly what the history spells, which is what the lost stages held, and touches no other session; it fails only if every attempt of a request is lost. |
| Transport.HttpTransport.RestartAndSend | commonnet/net/transport.py:487-517 | The restart and the chunk again: the answer is the one the lost session would have given, history and stages are in step under the new name, and no other client's session is touched. |
| Transport.HttpTransport.ChainPiece | commonnet/net/transport.py:580-604 | A chunk, at once or after a restart: either way the same answer, and the session goes on from the same state. |
| Transport.HttpTransport.Truncate | commonnet/net/transport.py:321-358 | A deferred cut sends nothing: it cuts the history and is remembered for the next step. |
| Transport.HttpTransport.Close | commonnet/net/transport.py:659-698 | Ends the session at one endpoint; a chain is forgotten once all its hops are closed. |
| Client.RunBlocks | commonnet/client.py:186-189 | Hidden states relayed through any tiling route of cached blocks come out as the tail of one uncached pass of the whole model, and every stage holds the same tokens afterwards. |
| Client.StepIds | commonnet/client.py:212-228 | The same for token ids: the tokens picked are those of the whole model at those positions. |
| Client.GenerateStream | commonnet/client.py:248-317 | Plain greedy decoding on real, split caches yields exactly the naive stream (the whole prefix recomputed for every token), cut where the caller stops reading, in the number of trips stated. Refused exactly for a route that does not tile or an empty prompt; it fails otherwise only for a prompt that does not fit, or if every attempt of a request (on a chain, and then of its recovery) is lost. Every exit leaves the client, and if nothing was lost all servers, as they were. |
| Client.CloseAll | commonnet/client.py:315-317 | Closing at every endpoint leaves nothing of the session on the client, nothing on any server if no message was lost, and everything else untouched. |
| Client.NoTrace | commonnet/client.py:315-317 | Servers that knew nothing of a client's session and again know nothing of it, and are otherwise unchanged, are the servers they were. |
| Decoding.GreedyIsTheStream | commonnet/client.py:300-314 | The reference stream, characterised: every token is the choice after the prompt and the tokens before it, none is a stop token, and it ends only at the limit or where the next choice is a stop token; exactly one sequence is like that. |
| Decoding.MatchedIsLongest | commonnet/speculative.py:242-245 | The accepted drafts are the longest prefix the network would have chosen itself. |
| Decoding.EmitIsGreedy | commonnet/speculative.py:259-267 | Yielding accepted drafts one by one, with stop tokens and the token limit, moves along the greedy stream. |
| Decoding.RoundIsGreedy | commonnet/speculative.py:221-268 | One round moves from one point of the greedy stream to a later one, or ends where it ends. |
| Decoding.SpeculativeIsGreedy | commonnet/speculative.py:192-273 | For every network, drafter, k, adaptive setting, stop set and token limit the stream is the plain greedy one; a step that is refused can only cut it short. |
| Client.VerdictIsMatched | commonnet/net/chain.py:196-201 | What the last server accepts, and the token it adds, are the longest agreeing prefix and the greedy token after it. |
| Speculative.VerifiedPrefix | commonnet/speculative.py:166-177 | The client uses an answer if and only if an honest peer could have given it for these drafts. |
| Speculative.HonestVerdict | commonnet/speculative.py:166-177 | An honest peer's answer always passes that check, unchanged. |
| Speculative.TruncateAll | commonnet/speculative.py:161-163 | Afterwards every stage of the route, on every path, holds exactly the shorter token sequence. |
| Speculative.Verify | commonnet/speculative.py:232-246 | One trip with the last token and the drafts returns the length of the longest right prefix and the next greedy token, by local comparison or by the chain's verdict. |
| Speculative.CheckDrafts | commonnet/speculative.py:232-253 | After a round every stage holds exactly the context, the last token and the accepted drafts. |
| Speculative.EmitDrafts | commonnet/speculative.py:259-267 | Yields exactly the accepted drafts up to a stop token, the token limit or the caller's last read. |
| Speculative.RoundLoop | commonnet/speculative.py:219-268 | The round loop on real caches runs exactly the rounds of the pure run, with the same statistics; it stops early only if the caller does or the client gives up on a request. |
| Speculative.SpeculativeStream | commonnet/speculative.py:192-273 | Main result: on real caches split over any route, on all three paths, with any drafter or with a drafting model and its cache, it yields the naive stream as far as it is read and reports the run's statistics. Refused exactly for a route that does not tile, an empty prompt or k < 1; it fails otherwise only where the pure run is refused, with exactly that run's tokens, or if every attempt of a request (on a chain, and then of its recovery) is lost. Every exit leaves the client, and if nothing was lost all servers, as they were. |
| Speculative.Compare | docs/network-bench.md:174-175 | The same prompt plain and speculative, over the same servers: the texts are identical, unless the client gave up, the prompt does not fit, or the run is refused; if nothing was lost, all servers are as before. From the two contracts alone. |
| SpecLaws.SpeculationNeverCostsMoreTrips | commonnet/speculative.py:218-268 | The books balance (accepted <= drafted = sum of k_used, one entry a round, emitted <= 1 + rounds + accepted), no draft is longer than k, and a run takes no more trips than plain decoding takes for the same stream. |
| SpecLaws.DrafterIsAskedWithinBounds | commonnet/speculative.py:254-258 | A run asks the drafter only for 1 up to min(k, token limit - 1) tokens: adaptive k never leaves 1 to k, and what the drafter would answer otherwise makes no difference to tokens or statistics. |
| SpecLaws.SpeculationIsExactIff | commonnet/speculative.py:192-195 | All networks (with choices from the vocabulary), prompts and drafters of v tokens get the plain stream if and only if v is no larger than the target's vocabulary and, on a chain, k or the token limit keeps a verification step within one request (at most 256 positions), or the limit is one token, or every token stops. |
| SpecLaws.RefusedStepEndsTheStream | commonnet/net/transport.py:571-572 | A network and a drafter for which a refused first check ends the stream after one token, where plain decoding goes on. |
| SpecLaws.UnknownDraftEndsTheStream | commonnet/speculative.py:230-241 | Nothing checks drafts against the target's vocabulary: an unknown token in the first draft ends the stream after one token. |
| SpecLaws.PerfectDrafterSavesTrips | commonnet/speculative.py:254-258 | A drafter that agrees with the network has every draft accepted, and every round but the last yields k + 1 tokens. |
| Drafters.Drafter.Propose | commonnet/speculative.py:84-106 | Returns the k tokens of greedy decoding from scratch, whatever earlier calls left in the cache; afterwards the recorded tokens are again exactly what the cache holds. |
| Drafters.BothCutsForget | commonnet/speculative.py:98-99 | Trimming a count and cropping to a length both leave exactly the cache of the shorter text. |
| Drafters.Kept | commonnet/speculative.py:90-96 | Of the cached text the longest prefix of the context is kept, except that the last context token is always fed again. |
| Drafters.DrafterFollowsTheText | commonnet/speculative.py:90-100 | From round to round the drafter feeds one token, or two if all drafts were accepted. |
| SpecLaws.HopelessDrafterCostsNoTrips | commonnet/speculative.py:247-258 | A drafter that is always wrong costs exactly the trips of plain decoding, and adaptive k halves its drafts from round to round. |
| SpecLaws.DecentDrafterKeepsK | commonnet/speculative.py:254-258 | A drafter that always has at least 3 in 10 of its drafts accepted is never cut back: every draft of every run has full length, the k asked for or what the token limit leaves. |
| SpecLaws.FullRoundsRestoreK | commonnet/speculative.py:218-258 | In a run, from any round head on: if the network accepts every draft that is fed from there, draft i of the rest has min(k, 2^i * current k) tokens, or all the token limit leaves. |
| Segments.PlanIsPartition | commonnet/hub.py:476-482 | The ranges are the tensors in order, each once; none bridges too wide a gap, none is longer than the cap unless it is one tensor. |
| Segments.PlanSegments | commonnet/hub.py:471-482 | The loop computes that plan of the sorted items, for any gap and cap. |
| Segments.PlanIsShortest | commonnet/hub.py:471-482 | For every list of tensors, empty or overlapping ones included, every gap and every cap: no other way to cut the sorted list into ranges within the limits has fewer. |
| CompactLayout.PlanForIsShortest | commonnet/hub.py:471-482 | So the plan that is fetched, with the constants of the source, has the fewest requests possible for its list. |
| Segments.GreedyStaysAhead | commonnet/hub.py:477-481 | After any prefix of a list whose starts do not decrease, every other partition has more ranges, or as many and a last one that is no shorter. The tensors may be empty and may overlap. |
| CompactLayout.LaidOutIsPacked | commonnet/hub.py:255-262 | The compact layout keeps every tensor's place and length and leaves no gap, for any file whose non-empty tensors do not overlap. |
| CompactLayout.TensorsInPlace | commonnet/hub.py:286-287 | In the finished file every tensor's range holds exactly its own bytes of the remote file. |
| CompactLayout.BroughtIsRestIff | commonnet/hub.py:288-297 | What the segment loop asks for, from wherever an earlier run stopped, is exactly the rest of the compact data, if and only if no segment of the plan ends, in the compact file, at or past the end of an unfinished tensor of a later one; otherwise it is less. |
| CompactLayout.HidesIff | commonnet/hub.py:471-482 | That happens if and only if an empty tensor is listed behind an unfinished one that begins at the same place, and the end of that one is further than the cap from the start of the empty one's range. |
| SegmentStream.WriteWanted | commonnet/hub.py:327-340 | From a chunk of any length it writes exactly what a function of ranges, chunk and script says (the wanted bytes, never a gap), up to the first write that fails; the file only grows. |
| StreamLaws.ChunkAdvances | commonnet/hub.py:327-340 | As long as nothing failed, the bytes written and those still wanted are together the bytes wanted before; where a write fails, what was tried is a prefix of them. |
| SegmentStream.StreamSegment | commonnet/hub.py:304-351 | The attempt loop computes the function of segment, position and script: result, log of writes, and file. |
| StreamLaws.SegmentsFacts | commonnet/hub.py:291-297 | For every script of answers, reads and writes: a run writes in file order, up to its first failed write exactly what is needed next, and all of it if it ends well without one. |
| StreamLaws.SegmentsCount | commonnet/hub.py:304-351 | Whatever fails, a run never writes more bytes than the plan asks for. |
| StreamLaws.PrefixIffClean | commonnet/hub.py:327-349 | For such logs, what is in the file is a prefix of what is needed if and only if no write works after one that failed. |
| Download.FetchCompact | commonnet/hub.py:249-302 | Refines the run as a function (RunOf) of remote bytes, files and script; and every content the partial file ever has, even with its end lost, is one from which resuming is right, if no write works after one that failed and no empty tensor hides another. |
| Download.SteadyRunIff | commonnet/hub.py:275-302 | A run in which network and disk do their part ends well, with exactly the file resuming means, if and only if no empty tensor hides an unfinished one; otherwise it is refused for its size. |
| Download.CleanRun | commonnet/hub.py:275-302 | Whatever the network does: as long as no write works after one that failed, a run gets nearer to one fixed file, and renames that file or none. |
| Download.RunStaysResumableIff | commonnet/hub.py:327-349 | For every script, layout and place to resume from: a run leaves a resumable file for all remote bytes if and only if no write works after one that failed. |
| Download.FreshRunStaysResumableIff | commonnet/hub.py:275-285 | The same for every partial file a run cannot use (missing, cut off in the header, or too long) and writes anew: resumable, unless the header is written and a later write works after one that failed. |
| Download.Fetch | commonnet/hub.py:394-415 | Over all whole-fetch attempts, which a client error or a full disk ends at once, it computes a function (FetchOf) of remote bytes, files and script. If in none of its runs a write works after one that failed: success leaves the same file a single undisturbed run would, which is the target exactly if the partial file found was resumable; failure leaves a file from which the next call does the same. |
| Download.FetchIsRightIff | commonnet/hub.py:394-415 | For every script, and for every right or unusable partial file found: a whole fetch leaves the target or a resumable file, for all remote bytes, if and only if in none of its runs a write works after one that failed. |
| Download.FetchKeepsWrong | commonnet/hub.py:275-289 | Once a partial file is wrong, no number of attempts repairs it, whatever they do. |
| Download.ResumedIsTargetIff | commonnet/hub.py:275-289 | Looking at the partial file's length alone is right exactly when the file is a prefix of the target, stops in the header, or is too long. |
| Download.FailedWriteLeavesHole | commonnet/hub.py:327-349 | Where the promise fails: a script of one failing write for which one run leaves a file with a hole, refused for its size, and the next run, undisturbed, renames a file of the right length with the wrong bytes. |
| Download.EmptyTensorHidesAnother | commonnet/hub.py:291-296 | A file on which every undisturbed run fails: an empty tensor listed behind one longer than the cap, at the same offset. Nothing of the long one is fetched. |
| Download.EmptyTensorHidesShorter | commonnet/hub.py:291-296 | The same with a long tensor that is no longer than the cap: the range the empty one joins has no room for it. |
| Selection.SelectNames | commonnet/hub.py:100-101 | Keeps exactly the names that begin with one of the prefixes. |
| Selection.SelectNamesInOrder | commonnet/hub.py:100-101 | Selecting from two lists joined is joining the selections: order and repetitions are kept. |
| Selection.SelectionIsWindow | commonnet/hub.py:85-101 | A member selects a layer's tensor exactly when the layer is in its window, whatever else it holds; "layers.1." never catches layer 10. |
| Selection.RouteSelectsOnce | commonnet/hub.py:85-101 | Over a route that tiles the model, every tensor of every layer is downloaded by exactly one member. |
| Hadamard.BuildHadamard | commonnet/backends/hadamard_torch.py:37-42 | The doubling loop builds the smallest Sylvester matrix with at least `block` rows; it has exactly `block` rows if and only if block is a power of two. |
| Hadamard.SylvesterIsSymmetric | commonnet/backends/hadamard_torch.py:38-41 | Every entry is 1 or -1 and the matrix is its own transpose, for every power of two. |
| Hadamard.RowsAreOrthogonal | commonnet/backends/hadamard_torch.py:37-42 | H H = block I. |
| Hadamard.MatrixIsFast | commonnet/backends/hadamard.py:27 | Multiplying by the matrix is what the fast transform (sums and differences of halves) computes. |
| Hadamard.FwhtTwice | commonnet/backends/hadamard.py:27 | The fast transform applied twice multiplies by the block size. |
| Hadamard.RotationRoundTrip | commonnet/backends/hadamard.py:20-30 | Forward then inverse, and inverse then forward, is the identity for every vector and sign vector. |
| Hadamard.RotatedWeightsComputeTheSame | commonnet/backends/hadamard.py:58-64 | A rotated weight row and a rotated activation have the product of the originals: what storing weights rotated relies on. |
| Hadamard.TorchRotate | commonnet/backends/hadamard_torch.py:53-57 | For any number of rows: it fails exactly where block is no power of two or does not divide the number of values of all rows, and otherwise rotates the rows as one list of blocks. |
| Hadamard.RowsApartIff | commonnet/backends/hadamard_torch.py:53-57 | Of the shapes it accepts, a row's result depends on that row alone, and is its rotation, if and only if the block divides the width; otherwise rows are mixed without an error. |
| Hadamard.TwoRowsOfThree | commonnet/backends/hadamard_torch.py:55-56 | The input: two rows of three values in blocks of two, where a value of the second row reaches the first. |
| Affine2.CodesAreElements | commonnet/backends/hadamard_torch.py:28-30 | Going through little-endian bytes and shifts 0, 2, 4, 6 gives element j of every word as (w >> 2j) & 3, in order. |
| Affine2.DequantizedColumn | commonnet/backends/hadamard_torch.py:26-34 | Column c of a row uses element c of its words and the scale and bias of group c / 128; rows that do not divide into groups are refused. |
| Affine2.Dequantize | commonnet/backends/hadamard_torch.py:26-34 | The whole matrix, of any size, row by row. |
| Planner.PlanHybridSplit | commonnet/plan.py:252-297 | Returns a feasible cut with the greatest headroom on the tighter machine, the smallest such cut; refuses exactly when no cut is feasible, and then reports the true capacities. |
| Planner.Capacity | commonnet/plan.py:280-287 | The number of layers a machine can hold from its own end: more never fit, fewer always do. |
| Planner.RefusalIsHonest | commonnet/plan.py:278-292 | With two layers or more, some cut is feasible if and only if the capacities add up to the model and neither is zero. |
| Planner.OneLayerIsRefused | commonnet/plan.py:270-292 | A model of one layer has no feasible cut, so it is always refused; the capacities reported then cover the model exactly when one of the machines could hold it. |
| Planner.MaxLayersIsMax | commonnet/plan.py:109-113 | max_layers is the true maximum. |
| Planner.LongerContextFitsLess | commonnet/plan.py:104-113 | A longer context never needs less memory and never makes room for more layers. |
| Planner.UniformRefusalIsHonest | commonnet/plan.py:153-160 | The same honesty for layers of one size. |
| Planner.PlanSplit | commonnet/plan.py:116-170 | The best cut for either objective, the first of equals; each refusal exactly when its reason holds. |
| Planner.UniformIsHybrid | commonnet/plan.py:252-276 | Where all layers are alike, both planners see the same room on both machines. |
| Planner.LongerContextFeasibleLess | commonnet/plan.py:264-274 | With mixed layers too, what fits a longer context fits a shorter one. |
| Coordinator.BuildRoute | commonnet/coordinator.py:56-70 | Passes the coverage check if and only if some ordering of the members tiles the model; addresses and tokens end up under the right names. |
| Coordinator.CoverIsSorted | commonnet/coordinator.py:58-61 | The ordering that covers the model is unique: it is the order of the starts. |
| Coordinator.EveryLayerOnce | commonnet/client.py:176-184 | Every layer belongs to exactly one endpoint of a tiling route. |
| Coordinator.NamesDiffer | commonnet/coordinator.py:59 | No two endpoints get the same name. |
| Utf8.DecodeOfEncoded | common/common.py:667-670 | Decoding an encoded text gives it back. |
| Utf8.StepReadsEncoding | commonnet/serve.py:75-81 | The decoder reads a character exactly where its encoding stands. |
| Utf8.IllFormedIsMaximal | commonnet/serve.py:75-81 | What becomes one U+FFFD is a maximal ill-formed part: the start of some encoding or a single byte, and with one byte more the start of none. |
| Utf8.FinishedTextIsFinal | commonnet/serve.py:77-81 | Text that does not end with U+FFFD is final: whatever bytes follow only add to it. |
| Utf8.TruncateKeepsLongestPrefix | common/common.py:658-670 | Clipping to a byte budget keeps the longest run of whole characters from the front that fits, and reports a cut exactly when there is one. |
| TextStreams.TextStream.Push | commonnet/serve.py:75-81 | Hands out everything new once the text is finished, nothing otherwise; no text handed out is ever contradicted by later tokens. |
| TextStreams.TextStream.Flush | commonnet/serve.py:83-86 | Hands out the rest: the pieces together are the decoded text. |
| TextStreams.ReadAll | commonnet/serve.py:556-562 | For every token sequence the pieces of push and flush concatenate to decode(all ids). |
| TextStreams.FlushedTextCanBeContradicted | commonnet/serve.py:83-86 | Pushing after a flush can contradict what was handed out: a concrete pair of tokens. |
| WorkerStreams.QueueIsInOrder | commonnet/serve.py:426-448 | In every interleaving: an in-order prefix of the items, then at most one error, then at most one end mark, which is last; at most one item is queued after close(). |
| WorkerStreams.WorkerStops | commonnet/serve.py:426-437 | The worker is done after a bounded number of its own steps, whatever the caller does. |
| WorkerStreams.EndIsQueuedIff | commonnet/serve.py:426-437 | In a run that is done, the end mark is queued if and only if the generator function could be called and closing a generator that was cut short did not raise; otherwise nothing ever tells the caller. |
| WorkerStreams.EveryRunEndsIff | commonnet/serve.py:426-437 | In terms of the generator alone: every run, however the caller behaves, tells the end if and only if the call does not raise, and closing does not raise or there is no item. |
| WorkerStreams.EverythingArrives | commonnet/serve.py:426-437 | Without close() the caller gets all items, the error if there is one, and the end. |
| Chunked.SizeRoundTrip | join/worker.py:378 | The upper-case hexadecimal size line reads back to the same length, however long the chunk. |
| Chunked.FramingRoundTrip | join/worker.py:370-381 | A chunked decoder undoes the framing of any non-empty chunks and consumes exactly what was written. |
| Chunked.CutReplyIsIncomplete | join/worker.py:383-386 | A reply that breaks off anywhere is never taken for a whole one. |
| Chunked.Relay | join/worker.py:369-386 | What the caller has got decodes as complete, and to what the backend delivered, if and only if read1 ended the reply and every write worked; otherwise as incomplete. It returns, instead of raising, unless the backend breaks off in a way that is not caught. For every delivery and every moment at which the caller hangs up. |
| Chunked.ToldUnlessReset | join/worker.py:383-386 | A caller who stays is told that the reply is over, by the last chunk or by the end of the connection, except if the backend's connection was reset and the caller's is kept open. |
| Chunked.AlwaysToldIff | join/worker.py:150 | However the backend frames its reply: every delivery tells the caller that it is over if and only if connections are not kept open. |
| Chunked.CompleteIsWholeIff | join/worker.py:374-381 | A complete decode means the backend's whole reply, for every delivery and every caller, if and only if the backend frames its reply in chunks, or there is nothing to lose. |
| Chunked.CutBodyLooksWhole | join/worker.py:374-381 | The input: a reply with a Content-Length breaks off after its first byte, read1 returns nothing, and the cut reply decodes as complete. |
| LauncherUpdate.InstallUpdateBundle | common/common.py:420-467 | Exactly which scripts of failures leave everything as it was: staging fails, or a rename of the swap does and then none of the operations of the roll-back, one for every file to put back (so one failure alone is always rolled back). On success every target holds the bundle's data at its old permissions, and unchanged files, backups apart, are untouched. |
| LauncherUpdate.SwappingEnds | common/common.py:438-455 | How the swap ends, from its script and the set of installed files alone: well if no rename fails; else rolled back if and only if as many of the next operations work as there are files to put back. |
| LauncherUpdate.Swap | common/common.py:438-455 | Every change swapped in, or every target as it was, including targets that did not exist; after a failed roll-back, and only then, some target differs. |
| LauncherUpdate.LoseOriginal | common/common.py:442-455 | What a failing roll-back costs: a run of the update, with two failures, that ends with nothing left of the only file. |
| LauncherUpdate.LostRun | common/common.py:442-455 | That run, step by step: staged, moved away, and neither version can be moved in; the temporary directory takes the original along. |
| Experts.Forward | commonnet/backends/nf4_block.py:102-110 | Grouping by expert and adding back gives every token the weighted sum over its own choices, for every routing table. |
| Experts.ByExpert | commonnet/backends/nf4_block.py:102-110 | In whatever order the experts are taken. |
| Experts.OneMoreExpert | commonnet/backends/nf4_block.py:104-109 | Adding one more expert's contributions gives the sum over one more expert. |

## Left out

- Floating point: layers, argmax, experts and scales are exact; two sums that differ only in rounding are equal here.
- Client.GenerateStream: temperature, top-p and seeds (only the temperature 0 path is modelled), and replicas (see `HttpTransport.Forward`).
- Linear-attention (qwen3_5) layers: their state cannot be rolled back and `truncate` refuses it; only full-attention layers are modelled.
- Batch dimension, tensor shapes, dtypes and the activation codec: one sequence, values passed on as they are.
- Transport.HttpTransport.Forward: replicas, that is, replay of retained hidden states on another server of the same layers: every endpoint has one server, and a request that is lost in every attempt is an error of the call (`Lost`).
- Transport.HttpTransport.ChainStep: an explicit `truncate_to`, which the decoders never pass; and a restart because a peer has forgotten the session (status 404 or 409): servers keep their sessions here, so only lost messages lead to one.
- Transport.HttpTransport.RestartAndSend: the choice of replacement peers and the check of their capabilities. A replacement is a server that holds nothing under the session's new name, which is all the proof uses, so the model keeps the old servers.
- Transport.HttpTransport.Truncate: only the deferred form, which is the one the decoders use.
- Request and reply formats, authentication, capability probing (`_use_chain`, `_use_ids`): the path is a parameter, with the capabilities it needs as a precondition.
- The server's second saved reply (`chain_last`): a repeated chain request travels on down the chain here, and every stage answers it from the saved reply of its step. Pauses between attempts.
- The local front (layers run in the client's process).
- Session ids from uuid4 are taken to be new: `FreshId` is a precondition for the client's name of a session, and the names of a chain after its restarts are numbered.
- Concurrent sessions interleave only between calls: other sessions may exist in any state and are proved untouched.
- Drafters.Drafter.Propose: the drafter's network code comes from mlx_lm and transformers, which are not part of this model; it is represented by the same causal layer loop over the cache. An empty context (never passed by the decoders) is excluded.
- Decoding.Config.drafter: a drafter may answer differently in every round, but its answers are fixed in advance as a function of round, context and length (what a drafting model answers is such a function, `Drafters.Answers`); it does not raise.
- Negative k and token limits, which the source treats like 0, do not exist here: both are natural numbers.
- SpecStats.wall_s and `mode`, progress output, sleeps and timings.
- Tokenizer comparison (`check_tokenizers_match`) and the fallback to plain decoding in `speculative.generate_stream`.
- Download.FetchCompact: header parsing and the disk-space check are left out, and the bytes of the new header are a parameter; non-empty tensors must lie in the file and not overlap, which the file format promises and the source does not check. A write either works or leaves nothing; buffering, and a flush that fails, are not modelled.
- Download of whole shards with hashes (`fetch_file`), small files, index rewriting.
- Hadamard.TorchRotate: a leading batch dimension is just more rows; the inner linear layer and the dtype conversions; MLX's own `hadamard_transform` is taken to be the Sylvester product for powers of two.
- Affine2.Dequantize: scales and biases come in the shape the weight files promise; broadcasting of other shapes is not modelled.
- Planner.PlanSplit: an unknown objective cannot be expressed, and balanced shares are compared as exact fractions.
- Coordinator.BuildRoute: which member a missing token is reported for is stated only as being one of those without a token.
- Utf8.DecodeOfEncoded: Python strings with lone surrogates, which cannot be encoded, do not exist here.
- TextStreams.TextStream.Push: tokenizers whose decode is not byte by byte (for example ones that strip a leading space).
- WorkerStreams.QueueIsInOrder: several streams sharing the one worker thread; another stream's work only delays the first step.
- Chunked.FramingRoundTrip: the decoder does not read chunk extensions or trailers, which the loop never writes.
- LauncherUpdate.InstallUpdateBundle: the download of the bundle, deletion of cached byte code, and errors other than `OSError` (for example an interrupt between two renames).
- Experts.ByExpert: `torch.where` and `index_add_` are written as loops over the table in row order.
- Window choice, gossip, the tunnel, the chat and join programs, metrics and the HTTP API: easy members, or code around services.
