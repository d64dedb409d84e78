# Verification of the MLVC streaming codec

A Dafny model of the parts of the MLVC codec and transport whose correctness is decided by the code
itself, with proofs about all inputs, all runs or all interleavings. Check everything with
`dafny verify dfyconfig.toml`.

| component | files | main results |
|---|---|---|
| rANS entropy coder | `RansByte`, `RansSymbol`, `RansStream`, `RansCore` | decoding inverts encoding symbol by symbol and over whole streams, escape coding included; the state stays in [2^23, 2^31); the scratch area of `Flush` is never exceeded; the two classes compute the specification in place |
| two-part codec | `EntropyCodec`, `EntropyObjects`, `ScaleMeaning`, `EntropySlots`, `Sidecar` | the joined stream holds one stream forwards and the other backwards, so both decoders recover every tensor; which latents are coded, said of the scales; where the CDF tables come from and when their rows are codable |
| ONNX fusion rewrite | `Tensors`, `OnnxGraph`, `OnnxRewrite`, `OnnxPreserve`, `OnnxCorrect`, `OnnxModel`, `OnnxComplete`, `NumberedGraphs`, `OnnxBoundary` | exactly the patterns are matched, matches never overlap, nothing that stays reads a deleted value, the new graph is ordered, every graph output keeps its value; graphs that the matcher accepts and the rewrite changes, with the exact conditions |
| ordered pipeline | `PipelineLine`, `Pipeline`, `PipelineSafety`, `PipelineProgress` | one owner per in-flight slot, so no push blocks; outputs refine the sequential computation; it never gets stuck; exactly when a drained run has delivered everything |
| RTP fragments and reassembly | `RtpFragment`, `Assembly`, `ReassemblySpec`, `ReassemblyRuns`, `ReassemblyDelivery`, `ReassemblyLiveness`, `ReassemblyInterleaving`, `ReassemblyTimeouts`, `ReassemblyEviction`, `Tally`, `Reassembler` | every bound kept by every push; only true units are delivered, from any interleaving; all fragments in any order deliver, among other traffic too; idle units are forgotten in time, and which ones make way; the class with its counters, range maps and buffers refines the abstract store |
| RTP sender session | `Session`, `SessionMeaning` | every queued unit belongs to the latest queued configuration, and repeated SCUs are the same bytes, over all runs and failures; the same in arithmetic on the queue |
| wire formats | `Wire`, `Bytes`, `Tlv`, `MediaUnit`, `EfuCodec`, `Canonical`, `Bundle`, `BundleHash` | both round trips of the EFU codec; injectivity of the hashed bundle bytes |
| SHA-256 bufferings | `Sha256Buffers` | the three of them compute one function |
| RTCP | `Bits`, `Nack`, `Rtcp`, `RtcpDecode`, `RtcpRoundTrip`, `RtcpHandler`, `ReplayWindow`, `SequenceStats` | NACKs end to end, through the gate of the media sender; the replay window as a set; sequence unwrapping and what the loss figures mean |
| pacer | `Pacer` | a token bucket with debt stays inside its envelope, and gives all the rate earns |
| prior-op index maps | `MaskPasses` | the masks form Latin squares, so the passes partition the tensor |

Code that changes state step by step is a method or a class here, proved against a specification
function; the theorems are about those functions, and so about every run of the methods. `Arith` and
`Options` hold shared helpers.

## Where the code falls short of its promise

The model keeps the code as it is. In each case a lemma gives the failing input and another the exact
condition.

- **Chunk-add in a batch.** The fused kernel adds the two halves of the flattened product, the unfused
  graph adds two channel slices. `OnnxBoundary.BatchBoundary` gives, for every batch size, a well-formed
  graph that the matcher accepts, and shows that its output is kept for every source exactly when the batch
  is one (`Tensors.ChunkAddExactlyForBatchOne` for the kernel alone).
- **Slice steps from a run-time value.** A `steps` input that is no constant is taken for 1. In the same
  graph the output is kept exactly when the steps are 1 or a half has one channel
  (`OnnxBoundary.StepBoundary`, `Tensors.ChunkAddExactlyForUnitSteps`).
- **Scaled SiLU.** The match accepts every factor within 1e-6 of 4, the kernel uses 4: behind a convolution
  that loses nothing the output is kept for every source exactly when the factor is 4
  (`OnnxBoundary.FactorBoundary`, `Tensors.SiLUExactlyForFour`). A factor tensor of rank above 4 raises the
  rank of the product: the chunk-add and multiplication kernels refuse it (`Tensors.HighRankBetaFails`),
  the scaled SiLU silently gives a result of another rank (`Tensors.HighRankBetaChangesRank`).
- **Closing input between two producers.** A producer whose push fails leaves a hole in the sequence
  numbers; a result accepted for a later number is never delivered and its slot never released
  (`PipelineSafety.TwoProducersStrand`). A drained run has delivered everything exactly when no hole lies
  below an accepted number (`PipelineSafety.DrainedCompletely`); with one producer there is none
  (`PipelineSafety.OneProducerDeliversAll`).
- **`SendUnit` with an SCU.** It accepts an SCU of another configuration without making it the session's.
  Once there is a session, an SCU by hand does harm exactly when its ID is not the session's
  (`Session.GuardIsExact`). Before the first configuration every SCU is accepted, and the configuration
  set next is compared with nothing: the queue stays in order exactly when it repeats that ID
  (`Session.EarlyScuIsExact`). An SCU of the session's ID with other bytes, which `SetSessionConfig` refuses
  by name, is accepted too: SCUs stay the same byte for byte exactly when it carries the session's bytes
  (`Session.VerbatimIsExact`).
- **Scratch slots.** Pending tasks point into vectors that grow. Without `Reserve`, or with more parts than
  it reserved, growth moves what they point into: they stay in place exactly when they fit the capacity
  (`EntropySlots.IntactExactly`, `EntropySlots.UnreservedMoves`).
- **A packet from before the first one, across the wrap.** The reported highest sequence number jumps up
  by 65536 until the true maximum next grows (`SequenceStats.EarlyPacketMisleads`,
  `SequenceStats.Unwraps`).
- **Repeated semantic TLVs.** `SerializeEfu` writes them, `ParseEfu` refuses them
  (`EfuCodec.ParseUndoesSerialize`).
- **Descriptor extensions.** A packet whose descriptor carries an extension decodes, but encodes again
  without it (`RtpFragment.EncodeUndoesDecode`).
- **Nothing coded.** A flush without any symbol leaves an empty stream, while `SetStream` reads four bytes
  (`EntropyCodec.BytesExistExactlyWhenCoded`).

## Model

| member | source | states |
|---|---|---|
| `RansByte.AdvanceUndoesPut` | common/src/entropy/rans_core.cc:203-208 | Coding a frequency range keeps the state in [L, 256 L), shows the range in the low 16 bits, and is undone by the decoder's advance |
| `RansByte.GetBitsUndoesPutBits` | common/src/entropy/rans_core.cc:17-39 | The two-bit bypass primitives are inverse and keep the state interval |
| `RansByte.InitUndoesFlush` | common/src/entropy/rans_core.cc:260-281 | The four flushed bytes give the decoder the encoder's final state |
| `RansByte.PutBitsLevel` | common/src/entropy/rans_core.cc:17-29 | A bypass bin costs exactly a quarter of a byte: four times the bytes written plus the level of the state grows by one |
| `RansSymbol.SearchFinds` | common/src/entropy/rans_core.cc:283-293 | The linear CDF search returns the only symbol whose interval holds the value |
| `RansSymbol.EscapeUndone` | common/src/entropy/rans_core.cc:295-317 | After the escape entry, prefix, digits and sign folding give back the symbol, on either side of the table |
| `RansSymbol.BinCount` | common/src/entropy/rans_core.cc:183-201 | An escape needs at most 21 bins, so the 32-entry bin buffer is never exceeded |
| `RansSymbol.DecodeUndoesEncode` | common/src/entropy/rans_core.cc:168-208 | For every codable symbol decoding inverts encoding exactly and the state interval is kept |
| `RansSymbol.EncodeSymbolBytes` | common/src/entropy/rans_core.cc:168-208 | One symbol writes at most eight bytes |
| `RansStream.EncodeItemsNormal` | common/src/entropy/rans_core.cc:210-231 | The encoder state is in [L, 256 L) after any symbols |
| `RansStream.DecodeUndoesEncodeItems` | common/src/entropy/rans_core.cc:320-363 | Decoding takes exactly the coded symbols off the coder in order and leaves what was below them |
| `RansStream.StreamRoundTrip` | common/src/entropy/rans_core.cc:233-263 | Whatever bytes follow a flushed stream, the decoder returns every symbol in task order, ends in state L and reads not one byte more |
| `RansStream.StreamFitsScratch` | common/src/entropy/rans_core.cc:248-262 | The stream never exceeds 8 bytes a symbol and 4 more |
| `RansCore.BuildBins` | common/src/entropy/rans_core.cc:183-201 | The loops that fill the bin buffer produce prefix and digits in the specified order |
| `RansCore.EncodeOneSymbol` | common/src/entropy/rans_core.cc:168-208 | Writing backwards into the scratch buffer computes the specified coder, and touches nothing after the pointer |
| `RansCore.RansEncoderCore.EncodePending` | common/src/entropy/rans_core.cc:248-258 | Tasks and their symbols, last first, code the whole list; at least 1024 scratch bytes stay free |
| `RansCore.RansEncoderCore.Flush` | common/src/entropy/rans_core.cc:233-263 | The stream is the flushed coder of all pending symbols, empty when there are none |
| `RansCore.RansDecoderCore.DecodeOneSymbol` | common/src/entropy/rans_core.cc:283-318 | The pointer and state after one symbol, and the symbol narrowed to eight bits |
| `RansCore.RansDecoderCore.DecodeYInto` | common/src/entropy/rans_core.cc:327-340 | Fails exactly when a range does not fit, changing nothing; otherwise overwrites exactly its range with the decoded symbols |
| `RansCore.RansDecoderCore.DecodeZInto` | common/src/entropy/rans_core.cc:349-363 | The same for Z, one row per channel |
| `Sidecar.MakeCdfArrays` | tools/build_mlvc_sidecar.py:18-35 | Succeeds exactly when every row sums to 65536 and has room and the rows use up the table, for lengths of either sign; each stored row is the running sums, padded to the width of the longest |
| `Sidecar.TabulatedMeans` | tools/build_mlvc_sidecar.py:26-34 | For non-negative lengths the rows of an accepted table are consecutive pieces of it, each as long as it says |
| `Sidecar.StoredRowIsWellFormed` | tools/build_mlvc_sidecar.py:27-33 | With non-negative probabilities a stored row is what the coder needs, and a symbol is codable exactly when its probability is between 1 and 65535 |
| `Sidecar.MakeCdfGroup` | common/src/entropy/rans_core.cc:43-72 | Accepts exactly the consistent shapes; the grid is the flat array cut into rows, the tables its differences |
| `EntropyCodec.FirstPart` | mlvc/src/entropy/entropy_codec.cc:22-72 | The overlap search computes the joined buffer |
| `EntropyCodec.JoinedHoldsBoth` | mlvc/src/entropy/entropy_codec.cc:22-72 | The joined buffer starts with the first stream and, reversed, with the second |
| `EntropyCodec.IndexesAgree` | mlvc/src/entropy/entropy_codec.cc:84-121 | Encoder and decoder skip the same positions and pick the same rows |
| `EntropyCodec.ScatterRestores` | mlvc/src/entropy/entropy_codec.cc:329-358 | Scattering the kept symbols restores the tensor, with zeros exactly where the clipped scale is at or below the threshold |
| `EntropyCodec.BytesExistExactlyWhenCoded` | mlvc/src/entropy/entropy_codec.cc:243-282 | The four bytes a decoder reads first exist exactly when a symbol was coded |
| `EntropyCodec.PartsRoundTrip` | mlvc/src/entropy/entropy_codec.cc:164-214 | Any list of Z and Y parts, interleaved on both streams, is decoded part by part |
| `EntropyCodec.CodecRoundTrip` | mlvc/src/entropy/entropy_codec.cc:243-358 | With one coder or two, decoding the encoded bytes returns the tensor of every part; which latents come back is `ScaleMeaning.DecodedMeans` |
| `EntropyObjects.BuildIndexesEncoder` | mlvc/src/entropy/entropy_codec.cc:84-100 | Fails exactly on unequal sizes; otherwise the pairs of kept symbols and rows in order |
| `EntropyObjects.BuildIndexesDecoder` | mlvc/src/entropy/entropy_codec.cc:102-121 | Row indexes of the kept positions, and the keep flags |
| `ScaleMeaning.IndexesMean` | mlvc/src/entropy/entropy_codec.cc:84-121 | With every scale brought between 0.11 and 16: both index lists hold, in order, the symbol and the row of exactly the places whose scale then exceeds the threshold (all of them without one), and the flags say which |
| `ScaleMeaning.DecodedMeans` | mlvc/src/entropy/entropy_codec.cc:322-358 | Over a whole run a latent comes back exactly where that scale exceeds the threshold and is zero elsewhere; hyper-latents all come back |
| `ScaleMeaning.LimitedCodesTheSame` | mlvc/src/entropy/entropy_codec.cc:92-113 | Replacing every scale below 0.11 by 0.11 and every one above 16 by 16 changes neither the encoded bytes nor the decoded tensors |
| `EntropySlots.IntactExactly` | mlvc/src/entropy/entropy_codec.cc:143-214 | Borrowed scratch buffers stay where they are, whatever the allocator does, if and only if they fit the capacity |
| `EntropySlots.ReservedStay` | mlvc/src/entropy/entropy_codec.cc:143-155 | After `Reserve` as many borrowed buffers as it was asked for stay where they are, and no room there was before is lost |
| `EntropySlots.UnreservedMoves` | mlvc/src/entropy/entropy_codec.cc:201-204 | Without `Reserve` the second part can already move the buffer of the first |
| `EntropyObjects.EntropyEncoder.Reserve` | mlvc/src/entropy/entropy_codec.cc:143-155 | Room for the Y parts and one Z part |
| `EntropyObjects.EntropyEncoder.EncodeZ` | mlvc/src/entropy/entropy_codec.cc:164-196 | Queues one Z part, split between the two coders or whole on the first, and takes a slot unless it is a view |
| `EntropyObjects.EntropyEncoder.EncodeY` | mlvc/src/entropy/entropy_codec.cc:198-214 | Takes a slot and queues one Y part, or fails on unequal sizes and queues nothing |
| `EntropyObjects.EntropyEncoder.Flush` | mlvc/src/entropy/entropy_codec.cc:233-253 | As long as every borrowed buffer is in place, the bytes are the encoded form of all parts queued so far |
| `EntropyObjects.EntropyDecoder.SetStream` | mlvc/src/entropy/entropy_codec.cc:276-282 | The first coder starts on the bytes, in two-part use the second on their reversal |
| `EntropyObjects.EntropyDecoder.DecodeZ` | mlvc/src/entropy/entropy_codec.cc:296-320 | Decodes one Z part from both coders, or reads nothing when the shape does not fit |
| `EntropyObjects.EntropyDecoder.DecodeY` | mlvc/src/entropy/entropy_codec.cc:322-358 | Decodes one Y part from both coders and puts the symbols in place |
| `OnnxRewrite.NodeOutputMap` | tools/rewrite_wsiluchunkadd_onnx.py:86-92 | The dictionary loop computes the producer map |
| `OnnxRewrite.ConsumerMapComplete` | tools/rewrite_wsiluchunkadd_onnx.py:95-100 | Every reader of a name is among its consumers |
| `OnnxPreserve.MatchMeans` | tools/rewrite_wsiluchunkadd_onnx.py:132-309 | What a match of any of the three modes says about the graph: pattern, single consumers, and no inner graph output |
| `OnnxComplete.ConsumersMean` | tools/rewrite_wsiluchunkadd_onnx.py:95-100 | A node is the one consumer of a name exactly when the graph reads the name at one place, in that node |
| `OnnxComplete.MatchedExactly` | tools/rewrite_wsiluchunkadd_onnx.py:132-309 | In each mode, with the factors of both multiplications in either order, a node is matched if and only if constants, shape, type, readers and graph outputs around it are the pattern, said of the nodes alone |
| `OnnxPreserve.FusedValue` | tools/rewrite_wsiluchunkadd_onnx.py:391-426 | In every valuation of a well-formed graph a safe fused node has the value of the node it replaces |
| `OnnxModel.NoOverlap` | tools/rewrite_wsiluchunkadd_onnx.py:371-387 | No match shares a node with one taken before, so the overlap error cannot occur |
| `OnnxModel.RewriteModel` | tools/rewrite_wsiluchunkadd_onnx.py:322-434 | On a well-formed graph the loops finish with the chosen matches and the rewritten node list, for any limit and candidate number; which matches and nodes these are without a limit is said by `OnnxComplete.AllPatternsTaken` and `OnnxComplete.RewrittenNodes` |
| `OnnxComplete.AllPatternsTaken` | tools/rewrite_wsiluchunkadd_onnx.py:350-387 | Without a limit the matches are all patterns of the graph and nothing else |
| `OnnxComplete.RewrittenNodes` | tools/rewrite_wsiluchunkadd_onnx.py:364-434 | The new graph holds the fused node of every pattern, reading the source and the sigmoid or the source alone, and every node that no pattern does away with, and nothing else |
| `OnnxCorrect.KeptReadsNoneGone` | tools/rewrite_wsiluchunkadd_onnx.py:204-232 | No node that stays reads a deleted value |
| `OnnxCorrect.FusedReadsNoneGone` | tools/rewrite_wsiluchunkadd_onnx.py:284-309 | No node that is put in reads a value deleted by another match |
| `OnnxCorrect.RewrittenOrdered` | tools/rewrite_wsiluchunkadd_onnx.py:389-432 | The new node list is topologically ordered with one producer per name |
| `OnnxCorrect.RewritePreserves` | tools/rewrite_wsiluchunkadd_onnx.py:322-434 | For any set of simultaneous safe matches and any run: every name still defined keeps its value, every graph output and every result of a surviving node is still defined |
| `OnnxModel.RewriteModelPreserves` | tools/rewrite_wsiluchunkadd_onnx.py:322-434 | End to end: every graph output has the same value before and after |
| `Tensors.ChunkAddFuses` | custom_ops/wsiluchunkadd/op_kernel/post_sigmoid_chunk_add.cpp:36-115 | In a batch of one the kernel computes the unfused chunk-add |
| `Tensors.ChunkAddExactlyForBatchOne` | custom_ops/wsiluchunkadd/op_kernel/post_sigmoid_chunk_add.cpp:36-44 | For a given shape the fused node has the value of the nodes it replaces on every source if and only if the batch is one; the second operand is the sigmoid of the scaled source |
| `Tensors.ChunkAddExactlyForUnitSteps` | tools/rewrite_wsiluchunkadd_onnx.py:111-129 | With a run-time step the fused value is right if and only if the step is 1 or a half has one channel |
| `Tensors.SiLUFuses` | custom_ops/wsiluchunkadd/op_kernel/scaled_si_lu_mul.cpp:82-106 | With factor 4 the kernel computes x times sigmoid of 4 x |
| `Tensors.SiLUExactlyForFour` | tools/rewrite_wsiluchunkadd_onnx.py:264-275 | For a given shape the scaled SiLU is right on every source if and only if the factor is 4 |
| `Tensors.HighRankBetaFails` | custom_ops/wsiluchunkadd/op_host/post_sigmoid_chunk_add.cpp:120-136 | A factor of rank above 4 gives a product the chunk-add and multiplication kernels refuse |
| `Tensors.HighRankBetaChangesRank` | tools/rewrite_wsiluchunkadd_onnx.py:264-275 | With such a factor the scaled SiLU gives rank 4 where the nodes it replaces give more |
| `OnnxBoundary.BatchBoundary` | tools/rewrite_wsiluchunkadd_onnx.py:132-232 | For every batch a well-formed graph that the matcher takes; after the rewrite its output is kept in every run if and only if the batch is one |
| `OnnxBoundary.StepBoundary` | tools/rewrite_wsiluchunkadd_onnx.py:111-129 | In a batch of one, each run with run-time steps keeps its output if and only if the steps are 1 or a half has one channel |
| `OnnxBoundary.FactorBoundary` | tools/rewrite_wsiluchunkadd_onnx.py:235-309 | For every factor within 1e-6 of 4 a well-formed graph that the matcher takes; its output is kept in every run if and only if the factor is 4 |
| `Pipeline.GoodRun` | common/src/framework/streaming_pipeline.cc:82-165 | The invariant is kept by every interleaving of atomic steps |
| `PipelineSafety.RunIsSafe` | common/src/framework/streaming_pipeline.cc:82-165 | In-flight count equals slot owners and never exceeds capacity; both queues have room for whoever may push; delivered outputs are a prefix of the non-null results in order |
| `PipelineSafety.PublishingNeverBlocks` | common/src/framework/streaming_pipeline.cc:139-157 | The holder of the reorder lock can always step, each step nears the release, and no other thread delays it |
| `PipelineProgress.RunProgresses` | common/src/framework/streaming_pipeline.cc:55-165 | In every reachable state that is not drained, stopped or not, some thread can move an item, which lowers a bound that only new inputs raise |
| `PipelineProgress.Drains` | common/src/framework/streaming_pipeline.cc:82-165 | From every reachable state the advancing steps, within that bound, reach a drained one |
| `PipelineProgress.DrainedSlots` | common/src/framework/streaming_pipeline.cc:159-165 | In a drained pipeline only results stranded behind a lost number, and threads between two steps, keep a slot |
| `PipelineProgress.SlotsComeBack` | common/src/framework/streaming_pipeline.cc:159-165 | Threads on their way to giving a slot back are never held up: their steps can be taken at once and each frees one slot |
| `PipelineSafety.RefinesSequential` | common/src/framework/streaming_pipeline.cc:115-157 | Under every interleaving consumers see a prefix of the processor applied to the inputs in order |
| `PipelineSafety.DrainedCompletely` | common/src/framework/streaming_pipeline.cc:73-165 | A drained, unstopped run has delivered every accepted result if and only if no push failed below an accepted number |
| `PipelineSafety.OneProducerDeliversAll` | common/src/framework/streaming_pipeline.cc:73-165 | With one producer a drained run has delivered everything and holds no slot |
| `PipelineSafety.TwoProducersStrand` | common/src/framework/streaming_pipeline.cc:82-96 | A run of two producers and a close after which an accepted result is never delivered |
| `RtpFragment.EncodeRtpMlvcFragment` | common/src/transport/rtp_mlvc.cc:77-103 | Succeeds exactly on encodable fragments, with the specified bytes |
| `RtpFragment.DecodeRtpMlvcFragment` | common/src/transport/rtp_mlvc.cc:105-141 | Accepts exactly the decodable packets, with the specified fields |
| `RtpFragment.DecodeUndoesEncode` | common/src/transport/rtp_mlvc.cc:77-141 | Every encodable fragment comes back from the wire |
| `RtpFragment.EncodeUndoesDecode` | common/src/transport/rtp_mlvc.cc:77-141 | Every decodable packet comes back if and only if it has no extension |
| `Assembly.NeighboursDecide` | common/src/transport/rtp_mlvc.cc:221-247 | A range overlaps some stored range if and only if it overlaps one of its two neighbours |
| `Assembly.FullIsCovered` | common/src/transport/rtp_mlvc.cc:282-298 | Count equal to length means every byte was written and the START came |
| `Assembly.FullIsUnit` | common/src/transport/rtp_mlvc.cc:282-298 | A full set of pieces cut from a unit joins to that unit |
| `ReassemblyRuns.PushKeeps` | common/src/transport/rtp_mlvc.cc:154-298 | Every push, however it returns or throws, keeps ranges disjoint and all byte, unit, range and pre-START bounds |
| `ReassemblyDelivery.RunKeeps` | common/src/transport/rtp_mlvc.cc:154-298 | The bounds hold after any run |
| `ReassemblyDelivery.RunDeliversTruth` | common/src/transport/rtp_mlvc.cc:154-298 | Over any run of true fragments of any units no conflict is reported and each delivered unit is the one its fragments were cut from |
| `ReassemblyDelivery.RememberedDeliversNothing` | common/src/transport/rtp_mlvc.cc:184-193 | While a key is remembered nothing of it is delivered again |
| `ReassemblyDelivery.CutTravels` | common/src/transport/rtp_mlvc.cc:565-603 | Every packet the sender cuts is accepted by the encoder, returns from the wire and is not rejected |
| `ReassemblyLiveness.AllFragmentsDeliver` | common/src/transport/rtp_mlvc.cc:154-298 | The cut packets in any order with any repeats deliver the unit with the last missing one, given START first or enough pre-START budget |
| `ReassemblyInterleaving.InterleavedDelivers` | common/src/transport/rtp_mlvc.cc:154-298 | Among fragments of any other units, true or not, every slice gives NotYet until the last missing one delivers the unit, provided at each arrival the unit is still there and a new slice has room |
| `ReassemblyInterleaving.PushOthers` | common/src/transport/rtp_mlvc.cc:154-298 | A push changes no entry but its own, other than by dropping it |
| `ReassemblyTimeouts.CleanedInTime` | common/src/transport/rtp_mlvc.cc:172-181 | After any run with a clock that does not run backwards an accepted fragment leaves the last clean-up less than the timeout behind, and no unit that had been idle for the timeout then |
| `ReassemblyTimeouts.IdleUnitsAreForgotten` | common/src/transport/rtp_mlvc.cc:172-181 | A fragment two timeouts or more after the last one of its unit finds none of the earlier pieces: it delivers at most itself |
| `ReassemblyTimeouts.FreshUnitsContinue` | common/src/transport/rtp_mlvc.cc:172-298 | One that comes before its unit was idle for the timeout, clashes with nothing and has room finds all of them, and completes the unit or joins it |
| `ReassemblyEviction.EvictMeans` | common/src/transport/rtp_mlvc.cc:202-211 | Pending units make way longest idle first, ties by key, and the last to go had to |
| `ReassemblyEviction.ForgetMeans` | common/src/transport/rtp_mlvc.cc:198-201 | Remembered units make way by least key, and the last to go was over the allowance |
| `ReassemblyEviction.TrimMeans` | common/src/transport/rtp_mlvc.cc:288-293 | After a delivery remembered units are forgotten by least key until bytes and number fit, and not one more |
| `Reassembler.FindClash` | common/src/transport/rtp_mlvc.cc:221-247 | The two neighbour checks find a repeat, a conflict or no clash with all stored ranges |
| `Reassembler.MergePreStart` | common/src/transport/rtp_mlvc.cc:253-261 | A late START copies everything that waited to its place |
| `Reassembler.MakeReassembler` | common/src/transport/rtp_mlvc.cc:142-153 | Fails exactly on invalid limits; otherwise an empty reassembler that satisfies the class invariant |
| `Reassembler.RtpMlvcReassembler.Cleanup` | common/src/transport/rtp_mlvc.cc:172-181 | Drops exactly the units idle for the timeout, when the last clean-up is the timeout ago, and leaves the last clean-up less than the timeout behind |
| `Reassembler.RtpMlvcReassembler.EvictPending` | common/src/transport/rtp_mlvc.cc:198-214 | Longest idle units make way until the new one fits, ties in key order, and the counters follow |
| `Reassembler.RtpMlvcReassembler.Push` | common/src/transport/rtp_mlvc.cc:154-298 | The class keeps its invariant, every counter a sum over its maps, and its result and new contents are those of the abstract store |
| `Session.RtpMlvcSender.SendUnitLocked` | common/src/transport/rtp_mlvc.cc:526-621 | New state, queue and reservation on success; nothing changed on failure |
| `Session.RtpMlvcSender.SetSessionConfig` | common/src/transport/rtp_mlvc.cc:629-674 | First configuration, refresh or switch; rolled back if queueing the SCU fails; when it succeeds is said in numbers by `SessionMeaning.ConfiguredExactly` |
| `Session.RtpMlvcSender.ResendSessionConfig` | common/src/transport/rtp_mlvc.cc:884-889 | Sends the session's own SCU again, or fails when there is none |
| `Session.EnqueuedKeeps` | common/src/transport/rtp_mlvc.cc:543-564 | The gate lets through only units that belong behind what is queued |
| `Session.SessionIsSafe` | common/src/transport/rtp_mlvc.cc:526-674 | After any guarded calls, failures included: units carry the latest SCU's configuration, configurations never move backwards, and each switch starts with a random-access, reference-resetting Intra EFU |
| `Session.GuardIsExact` | common/src/transport/rtp_mlvc.cc:623-627 | Once there is a session, a queued SCU keeps that safety if and only if it carries the session's ID |
| `Session.EarlyScuIsExact` | common/src/transport/rtp_mlvc.cc:636-660 | After an SCU sent by hand before any session, the next configuration leaves the queue in order if and only if it has the same ID |
| `Session.ScusAreFaithful` | common/src/transport/rtp_mlvc.cc:636-639 | After any calls with verbatim SCUs, failures included, every SCU with the ID of the latest one has its bytes |
| `Session.VerbatimIsExact` | common/src/transport/rtp_mlvc.cc:543-547 | A queued SCU of the session's ID keeps that if and only if it carries the session's bytes |
| `SessionMeaning.ScusMoveForward` | common/src/transport/rtp_mlvc.cc:640-646 | From one queued SCU to the next in any guarded run the ID grows modulo 2^32 by less than 2^31 |
| `SessionMeaning.UnitsFollowTheirScu` | common/src/transport/rtp_mlvc.cc:539-542 | Before every queued media unit there is an SCU, and the last one has its configuration ID |
| `SessionMeaning.SwitchesStartAfresh` | common/src/transport/rtp_mlvc.cc:543-564 | After an SCU with another ID than the one before, the first media unit is an intra EFU with the random-access and reset flags |
| `SessionMeaning.ConfiguredExactly` | common/src/transport/rtp_mlvc.cc:629-674 | `SetSessionConfig` succeeds if and only if the SCU is well formed and fits the queue and is the first, repeats the session's, or has an ID ahead by less than 2^31 with no switch open |
| `SessionMeaning.ConfiguredWaits` | common/src/transport/rtp_mlvc.cc:657-666 | And then a random-access EFU is awaited if and only if the ID moved |
| `SessionMeaning.SerialCircle` | common/include/mlvc/transport/mlvc_media_unit.h:27-32 | Newer is ahead by less than 2^31 modulo 2^32 and the converse of older; ambiguous is 2^31 apart |
| `SessionMeaning.ValidatedMeans` | common/src/transport/mlvc_media_unit.cc:201-235 | In numbers: an intra EFU refers to nothing, an inter EFU to one earlier frame or to none after a reset, the third type to one earlier long-term frame; only inter EFUs without a reset are warped |
| `SessionMeaning.AcceptedMeans` | common/src/transport/mlvc_media_unit.cc:501-541 | Every EFU that `ParseEfu` accepts meets these rules |
| `Tlv.PutTlv` | common/src/transport/mlvc_media_unit.cc:111-129 | Appends exactly one padded entry, or refuses exactly the unacceptable ones |
| `Tlv.ParseTlvs` | common/src/transport/mlvc_media_unit.cc:131-171 | The offset loop computes the entry list, refusing what the specification refuses |
| `Tlv.ParseWritten` | common/src/transport/mlvc_media_unit.cc:111-171 | Written lists of any length come back if and only if no semantic tag repeats |
| `Tlv.RepeatsDecide` | common/src/transport/mlvc_media_unit.cc:160-165 | An area of acceptable entries is read if and only if none of the tags 0x8001, 3, 4 and 0x8006 occurs twice |
| `Tlv.WriteParsed` | common/src/transport/mlvc_media_unit.cc:111-171 | Parsed areas write back to the same bytes |
| `MediaUnit.SerializeEfu` | common/src/transport/mlvc_media_unit.cc:457-499 | Succeeds exactly on serializable EFUs, with the specified bytes |
| `MediaUnit.ParseEfu` | common/src/transport/mlvc_media_unit.cc:501-541 | Computes the specified parse, geometry failures told apart from malformed bytes |
| `EfuCodec.ParseUndoesSerialize` | common/src/transport/mlvc_media_unit.cc:457-541 | A serialized EFU parses to itself with the CRC flag set if no semantic TLV repeats, and is refused if one does |
| `EfuCodec.SerializeUndoesParse` | common/src/transport/mlvc_media_unit.cc:457-541 | Every accepted parse serializes to the same bytes |
| `Canonical.TextApart` | common/src/runtime/model_manifest.cc:122-127 | A length-prefixed string can be told from what follows it |
| `Canonical.NameLessMeans` | common/src/runtime/model_manifest.cc:549-552 | The order of names is the lexicographic order of their bytes |
| `Bundle.SpecListApart` | common/src/runtime/model_manifest.cc:129-143 | So can a list of tensor specifications |
| `Bundle.OrderIsUnique` | common/src/runtime/model_manifest.cc:549-552 | Two lists in strict name order with the same elements are equal |
| `Bundle.CanonicalInjective` | common/src/runtime/model_manifest.cc:532-580 | Equal canonical bytes mean equal hashed fields, equal models in order, equal artifacts as sets |
| `Bundle.ReorderingKeepsBytes` | common/src/runtime/model_manifest.cc:544-560 | Listing uniquely named artifacts in another order leaves the bytes unchanged |
| `BundleHash.ValidateRuntimeArtifactSet` | common/src/runtime/model_manifest.cc:253-265 | Accepts exactly the sets with non-empty unique names and all required ones |
| `BundleHash.ComputeModelBundleSha256` | common/src/runtime/model_manifest.cc:532-580 | The append loops hash exactly the canonical bytes |
| `Sha256Buffers.PaddingIsMinimal` | common/src/transport/mlvc_media_unit.cc:31-36 | The padding is the shortest that section 5.1.1 of FIPS 180-4 allows |
| `Sha256Buffers.PaddingInjective` | common/src/runtime/model_manifest.cc:88-101 | Different messages are padded differently |
| `Sha256Buffers.HashBytes` | common/src/runtime/model_manifest.cc:77-107 | Byte by byte: the fold over the padded message |
| `Sha256Buffers.HashFile` | application/src/runtime/mlvc_codec_runtime.cc:62-125 | For every chunking of a file the same fold, or failure exactly when the size is wrong or its bit count does not fit |
| `Sha256Buffers.HashWhole` | common/src/transport/mlvc_media_unit.cc:29-66 | Padded as a whole: the same fold |
| `Nack.WithBitAsks` | common/src/transport/rtp_message_receiver.cc:374-386 | Setting a bit asks for exactly one more sequence number |
| `Nack.GroupNacks` | common/src/transport/rtp_message_receiver.cc:373-386 | The messages ask for each due number once and for no other, across the 16-bit wrap, and none starts 1 to 16 after an earlier one |
| `Nack.RequestedSequences` | common/src/transport/rtp_mlvc.cc:505-514 | The sender expands exactly the NACKs meant for it |
| `Rtcp.EncodeRtcpReceiverReport` | common/src/transport/rtcp_session.cc:481-493 | Succeeds exactly on valid reports, with the specified compound |
| `Rtcp.EncodeRtcpSenderReport` | common/src/transport/rtcp_session.cc:462-479 | The same for sender reports, with clock and counters between source and blocks |
| `Rtcp.BuildCompound` | common/src/transport/rtcp_session.cc:238-255 | Report, SDES and extra packets in order, or failure exactly on an unaligned part |
| `RtcpDecode.DecodeRtcpCompound` | common/src/transport/rtcp_session.cc:596-648 | The cursor loop computes the specified contents, ordering rules included |
| `RtcpRoundTrip.SdesReturns` | common/src/transport/rtcp_session.cc:332-367 | An appended CNAME of any length is read back, padding included |
| `RtcpRoundTrip.NackReturns` | common/src/transport/rtcp_session.cc:390-406 | An encoded NACK is read back |
| `RtcpRoundTrip.PliReturns` | common/src/transport/rtcp_session.cc:408-416 | An encoded PLI is read back |
| `RtcpRoundTrip.FirReturns` | common/src/transport/rtcp_session.cc:418-437 | An encoded FIR is read back |
| `RtcpRoundTrip.ReportReturns` | common/src/transport/rtcp_session.cc:177-220 | An encoded sender or receiver report is read back whole |
| `RtcpRoundTrip.CompoundReturns` | common/src/transport/rtcp_session.cc:462-528 | A compound of a sender or receiver report, CNAME and any NACKs, PLIs and FIRs is read back whole; sections 6.1, 6.4 and 6.5 of RFC 3550, section 6.2.1 of RFC 4585 |
| `RtcpRoundTrip.SecondReport` | common/src/transport/rtcp_session.cc:611-622 | A second report in a compound is taken if and only if it is of the other kind and of the same source |
| `RtcpHandler.Handler.HandleRtcpPacket` | common/src/transport/rtp_mlvc.cc:464-516 | Fails exactly when the compound does not decode; otherwise latches the first receiver, counts its key picture requests and asks for its NACKs, if the gate lets the compound through |
| `RtcpHandler.NackEndToEnd` | common/src/transport/rtp_mlvc.cc:464-516 | From due numbers through grouping, compound, decoding and the gate: a sender that has latched nobody else and is named in the report is asked for each due number once and for nothing else, any other sender for nothing |
| `RtcpHandler.KeyPicturesCounted` | common/src/transport/rtp_mlvc.cc:496-503 | An admitted compound counts one key picture for each PLI and FIR that comes from its receiver and is about this source |
| `RtcpHandler.OneReceiverAsks` | common/src/transport/rtp_mlvc.cc:472-477 | In any run all retransmissions are asked for by one and the same receiver |
| `ReplayWindow.CheckReplay` | common/src/transport/rtcp_session.cc:53-61 | The shift and mask accept exactly the acceptable indices and keep the window and the set of accepted indices in step |
| `ReplayWindow.CheckRefines` | common/src/transport/rtcp_session.cc:49-61 | One check and the set of accepted indices stay in step |
| `ReplayWindow.ReplayRefinesSet` | common/src/transport/rtcp_session.cc:49-61 | After any run an index is accepted if and only if it is new and above the highest or less than 64 below it |
| `SequenceStats.ReceiveStats.Update` | common/src/transport/rtp_message_receiver.cc:285-308 | The fields after one packet |
| `SequenceStats.ReceiveStats.SnapshotReportBlock` | common/src/transport/rtp_message_receiver.cc:329-347 | Cumulative loss clamped to 24 bits, and the fraction since the last report |
| `SequenceStats.Unwraps` | common/src/transport/rtp_message_receiver.cc:285-308 | If each packet is within 2^15 of the maximum, the highest number is the true one if and only if no packet from before sequence zero came since the maximum last grew |
| `SequenceStats.ReportsAreTrue` | common/src/transport/rtp_message_receiver.cc:329-347 | If none precedes the first, the highest number is true over any number of wraps, and the reported loss is the true one cut to -8388608 to 8388607; Appendix A.1 and A.3 of RFC 3550 |
| `SequenceStats.CumulativeIsMissing` | common/src/transport/rtp_message_receiver.cc:331-335 | Without repeats the cumulative figure is the number of sequence numbers after the first, up to the largest, that have not come |
| `SequenceStats.FractionIsTrue` | common/src/transport/rtp_message_receiver.cc:336-346 | The fraction is what went missing since the last report, less what came late, as a share of the growth in 256ths rounded down, at most 255, and zero for a gain |
| `SequenceStats.EarlyPacketMisleads` | common/src/transport/rtp_message_receiver.cc:293-308 | Numbers 5, then 65530 of the cycle before: reported highest 65530 |
| `Pacer.MakePacer` | common/src/transport/udp_pacer.cc:11-17 | Fails exactly on a zero burst |
| `Pacer.UdpPacer.ConsumeAndGetDelay` | common/src/transport/udp_pacer.cc:19-60 | Result and new bucket in every branch; the delay is the shortest after which the tokens, with each whole microsecond credited in full up to the burst, cover the packet; a packet above the burst changes nothing, one whose wait overflows the clock leaves the bucket refilled |
| `Pacer.Envelope` | common/src/transport/udp_pacer.cc:19-60 | Bytes granted in calls i to j are at most burst + rate * t / 8e9, t the nanoseconds from call i to the release of granted call j |
| `Pacer.Credit` | common/src/transport/udp_pacer.cc:28-39 | The other side: while no call finds a full bucket, tokens and bytes granted grow by at least rate * (t - 1000) / 8e9 a call |
| `Pacer.WaitIsLeast` | common/src/transport/udp_pacer.cc:50-59 | One microsecond less than the delay would not cover the packet |
| `Pacer.TokensBounded` | common/src/transport/udp_pacer.cc:19-60 | With waiting callers tokens stay within one burst of zero |
| `Pacer.DelayBounded` | common/src/transport/udp_pacer.cc:41-59 | No delay exceeds the time to earn one burst, rounded up |
| `Pacer.AllGranted` | common/src/transport/udp_pacer.cc:50-56 | With waiting callers no wait overflows, if the time of one burst fits the clock |
| `MaskPasses.SelectedChunk` | custom_ops/mlvc_prior_ops/op_kernel/mlvc_decode_prior_kernels.h:81-92 | The first chunk the mask tables select is the one the closed form names |
| `MaskPasses.Latin` | custom_ops/mlvc_prior_ops/op_kernel/mlvc_decode_prior_kernels.h:14-79 | At each position every chunk is selected by exactly one mask |
| `MaskPasses.MasksInNumbers` | custom_ops/mlvc_prior_ops/op_kernel/mlvc_decode_prior_kernels.h:14-79 | In two parts mask m selects chunk (y + x + m) mod 2; in four the chunk of a two-by-two square moved by half a square in both directions, down, or across |
| `MaskPasses.PlaceInNumbers` | custom_ops/mlvc_prior_ops/op_kernel/mlvc_decode_prior_kernels.h:235-248 | Element (c, y, x) of a part is element (chunk * part channels + c, y, x) of the tensor |
| `MaskPasses.Reached` | custom_ops/mlvc_prior_ops/op_kernel/mlvc_decode_prior_kernels.h:235-248 | Every full index is reached by some pass |
| `MaskPasses.ReachedOnce` | custom_ops/mlvc_prior_ops/op_kernel/mlvc_decode_prior_kernels.h:235-248 | And by one pass and one part index only |
| `MaskPasses.RestoreY` | custom_ops/mlvc_prior_ops/op_kernel/mlvc_decode_prior_kernels.h:223-248 | The tiled loop changes exactly this pass's places in the core's range, each to symbol plus mean |
| `MaskPasses.SinglePart` | custom_ops/mlvc_prior_ops/op_kernel/mlvc_decode_prior_kernels.h:138-165 | The tiled loop gathers exactly the core's range of one part |
| `MaskPasses.PassesCoverOnce` | custom_ops/mlvc_prior_ops/op_kernel/mlvc_decode_prior_kernels.h:235-248 | After all passes every element is its own symbol plus mean, written once |
| `MaskPasses.ScatterUndoesGather` | custom_ops/mlvc_prior_ops/op_kernel/mlvc_decode_prior_kernels.h:150-165 | All gathered parts determine the tensor |

## Left out

- rans_byte.h is not part of this model; `RansEncPut`, `RansDecAdvance` and their siblings are taken as byte-wise rANS with 16 scale bits, renormalisation shift 15 and L = 2^23, which the two-bit primitives beside them use.
- RansCore.RansEncoderCore.Flush: needs fewer than 2^31 symbols in all, because the source counts them in an `int`.
- RansCore.RansDecoderCore.DecodeYInto: asks that the stream holds the symbols; the source reads past the end of a short stream unchecked.
- RansCore.RansDecoderCore.DecodeZInto: asks the same of the stream, for the same reason.
- RansCore.RansDecoderCore.DecodeOneSymbol: asks the same of the stream, for the same reason.
- EntropyObjects.EntropyDecoder.DecodeZ: asks the same of the stream, for the same reason.
- EntropyObjects.EntropyDecoder.DecodeY: asks the same of the stream, for the same reason.
- EntropyObjects.EntropyDecoder.SetStream: asks for the four bytes that the source reads unchecked; `EntropyCodec.BytesExistExactlyWhenCoded` says when they exist.
- EntropyObjects.EntropyEncoder.EncodeZ: asks for a positive spatial size, by which the source divides unchecked.
- EntropyObjects.EntropyEncoder.EncodeY: the task holds the symbols themselves; that they are still where the source's pointer looks is the slot bookkeeping beside it, which `Flush` asks about. What the allocator adds is an input.
- `EncodeYIndexesView` and `DecodeYIndexes` are the same paths with precomputed indexes.
- `ScaleIndex` is a parameter with results below 256, and scales are reals: its logarithm and rounding are floating point.
- `mlvc_official_entropy.cc` hands the coding to a library that is not part of this model.
- Sidecar.MakeCdfArrays: 32-bit overflow of lengths and offsets is not modelled.
- Tensors: elements are reals and `sigmoid` is any function, so half-precision rounding is not modelled.
- OnnxCorrect.RewritePreserves: takes shape inference to be right about the run, and asks that the chosen matches are safe; the exact boundary of safety is stated kernel by kernel in `Tensors`.
- ONNX subgraphs, overridable initializers and slice bounds of floating-point type are not modelled; graph inputs are only the run-time ones.
- Pipeline: one run from `Start`; restarting after `Stop` and joining threads are not modelled, and condition variables appear only as enabled steps.
- ReassemblyLiveness.AllFragmentsDeliver: one unit's packets alone, with a budget that can be checked before the first of them; `ReassemblyInterleaving.InterleavedDelivers` has any other traffic in between and looks at the room when each slice comes.
- Reassembler.RtpMlvcReassembler.Push: `max_unit_bytes_` and `max_pending_bytes_` are one limit, as every caller constructs it.
- RTP header sequence numbers, the retransmission history and pacing inside the sender's threads are not modelled; whether a queue reservation succeeds is an input.
- SCU parsing and SCU compatibility are parameters of `Session` that say what the unit bytes hold.
- RtcpDecode.DecodeRtcpCompound: BYE, TMMBR and APP packets are accepted or refused by a parameter, and are not part of what it returns.
- RtcpHandler.Handler.HandleRtcpPacket: MLVC control messages, packet counters and the peer address are not modelled.
- Jitter, LSR and DLSR of a report block carry clock values and are passed through.
- HMAC of authenticated RTCP: the replay check starts where the digest has matched.
- The SHA-256 block function and CRC-32C are parameters; only their use and the bytes they see are modelled.
- Pacer.UdpPacer.ConsumeAndGetDelay: in real arithmetic, with the clock as an input that never runs backwards; `UpdateRate` is not modelled, and the earned tokens are always finite.
- MaskPasses.SinglePart: which range a core gets is an input, as for `RestoreY`.
- SequenceStats.ReceiveStats.Update: the set of numbers already seen, which makes packets unique before they are counted, is not modelled; packet counters are unbounded.
- TMMBR, translation warp mathematics, configuration loading, profiling and the acceptance scripts would only add easier members.
