# SmartNIC anomaly detector: verification model

Dafny proofs about the detector's hot path: the inference kernels and the
generator that emits them, the receive protocol between NIC and DPA thread, the
per-key window statistics and their contract, the allocators behind the hash
tables, and the worker loop. `dafny verify dfyconfig.toml` checks everything.

Conventions. `float` and `double` are exact reals. Machine integers wrap or
saturate where the code lets them. `rte_hash` is an exact finite map; whether an
insert of a new key succeeds is a parameter (`insertOk`), so every result holds
for every pattern of failing inserts unless it says otherwise; where it asks for
room, no table in question is exhausted and no insert fails. Each worker has its
own tables. Parsed packets are inputs.

## How it is laid out

- `LinearLayer`, `TileMachine`, `KernelCompiler`: the dense layer as reference,
  the instruction set that emitted text amounts to with an interpreter in which
  a read out of bounds is a fault, and the emitters. `KernelProof`,
  `KernelLayer`, `KernelFault`: forward simulation of a layer, and exactly when
  it fails. `PredictProgram`: the chain of layers and the folded normalisation.
- `MlpKernels`, `Words`, `Bnn`, `RandomForest`: the hand-written predictors and
  the exporters that feed them.
- `CompletionQueue`, `ReceiveRing`: NIC and DPA thread as interleaved steps over owner bits, wrapping
  indices and returned credits.
- `KeyedWindows`: what a per-key window tracker means, for any interleaving and
  any sharding. `FlowPool`, `FeatureQueue`, `WindowTracker`: the in-place parts.
  `Doh`, `Iot`: the two flow profiles. `DohPackets`: from packet bytes to
  features. `Rss`, `Traffic`, `Sharding`: the
  symmetric hash, what packets offer, and the workers together.
- `Slope`, `Cusum`, `Sensor`, `Ics`, `IcsProfile`: the industrial control
  profile, from one sensor's arithmetic to Modbus packets. `IcsRuns`,
  `PollBursts`: runs of packets, and exactly when the queue overflows.
  `IcsDelivery`: what reaches the classifier. `ModbusBytes`: from bytes to
  readings. `SensorMeaning`: every feature by readings and stamps. `SensorSharding`: exactly when a
  sensor is neither split over workers nor merged with another.
- `SlotLedger`, `ModbusTracker`, `PendingRing`, `FlowFreeList`: the free stack,
  the overwrite ring and the linked free list. `PendingAgreement`: exactly when
  ring and tracker answer alike.
- `FlowTrack`, `FlowMeaning`, `FlowForest`: the in-NIC flow table, what its
  features say about the packets seen, and its forest.
- `Worker`: the receive, classify, transmit loop. `Delivery`: what a flow
  profile behind it hands to the classifier, on one worker of several.
- `Arithmetic`, `Stats`, `Listing`: shared steps of arithmetic, batch statistics,
  and parts of a sequence in order.

Every lemma switches automatic induction off; inductive ones call themselves.

## Where the code differs from what it says

- The looped form of a generated layer steps by eight inputs but is bounded by a
  multiple of four. With more than 128 inputs and an odd number of groups of
  four it runs past the packed weights (`KernelFault.LayerCorrectIff`).
- The DoH profile falls back to a window of sixteen when none is configured, but
  the contract is checked against the configured zero, so every vector is
  rejected (`Doh.EmittedValidIff`).
- A Modbus response of up to 127 registers can complete a window for each of
  them at once; the feature queue holds 64. No run loses a vector exactly when
  responses carry, or the pool holds, at most 64 (`PollBursts.NeverLosesIff`).
- The historical mean uses a 32-bit sample count and is wrong from the window
  that wraps it on (`Ics.HistoricalMeanIff`).
- The comments on the shipped forest call 1200 bytes large and exchange the
  small and large delta leaves of the second tree; the table, which the model
  follows, flags first packets from 1500 bytes on (`FlowForest.AnomalyIff`).
- The benchmark's pending ring stands in for the profile's request tracker. The
  two agree all through a run exactly when each addition overwrites the
  outstanding request of its own key, if any, and of no other
  (`PendingAgreement.AlwaysAgreeIff`). With a key used twice the tracker holds
  the newer request; the ring answers with the older one, or with the newer one
  if it wrapped between the two (`PendingAgreement.DuplicateKeyAnswer`).

## Model

| member | source | states |
|---|---|---|
| `LinearLayer.Argmax` | offline_bench_inference/bf3/src/train_export_hardcoded.py:418-420 | the returned index holds the largest value and every earlier value is strictly smaller |
| `LinearLayer.LayerIsDense` | offline_bench_inference/bf3/src/train_export_hardcoded.py:300-310 | every output of the layer is its bias plus the products W[k][j] in[k] added one after another, and with activation the larger of that and zero |
| `KernelCompiler.BlockPlan` | offline_bench_inference/bf3/src/train_export_hardcoded.py:206-212 | the loop returns the plan whose tiles, 16, 8 or 4 wide, follow one another from column 0 to N - N % 4 |
| `KernelCompiler.PlanTiles` | offline_bench_inference/bf3/src/train_export_hardcoded.py:206-212 | for every N the tiles partition columns 0 .. N - N % 4 |
| `KernelCompiler.PackWeights` | offline_bench_inference/bf3/src/train_export_hardcoded.py:215-221 | the packed array has K (N - N % 4) elements and weight (k, j0 + c) of each tile sits at slot K j0 + k nr + c |
| `KernelCompiler.SlotsDistinct` | offline_bench_inference/bf3/src/train_export_hardcoded.py:215-221 | two weights never share a packed slot |
| `KernelCompiler.SlotsCover` | offline_bench_inference/bf3/src/train_export_hardcoded.py:215-221 | every packed slot holds some weight, so with SlotsDistinct each is stored exactly once |
| `KernelCompiler.EmitWideBlock` | offline_bench_inference/bf3/src/train_export_hardcoded.py:224-268 | the emitter appends exactly the head, middle, tail and finish of the tile, in that order |
| `KernelCompiler.EmitDotOutputs` | offline_bench_inference/bf3/src/train_export_hardcoded.py:271-294 | the emitter appends one remainder output after another from the first uncovered column to N |
| `KernelCompiler.EmitLayer` | offline_bench_inference/bf3/src/train_export_hardcoded.py:297-310 | with the running offset, the emitted layer places tile t at the total size of the tiles before it |
| `KernelProof.BanksAddUp` | offline_bench_inference/bf3/src/train_export_hardcoded.py:239-243 | the even and the odd accumulator bank together hold the sum of all rows so far |
| `KernelProof.RowRuns` | offline_bench_inference/bf3/src/train_export_hardcoded.py:239-243 | interpreting the multiply-adds of one weight row advances every accumulator by that row's product and touches nothing else |
| `KernelProof.QuadRuns` | offline_bench_inference/bf3/src/train_export_hardcoded.py:237-244 | a four-row group, unrolled or relative to the loop variable, advances every accumulator by four rows without a fault |
| `KernelProof.MiddleRuns` | offline_bench_inference/bf3/src/train_export_hardcoded.py:234-254 | unrolled up to 128 inputs, or looped by eight when that divides, all K - K % 4 rows are applied |
| `KernelProof.TailRuns` | offline_bench_inference/bf3/src/train_export_hardcoded.py:255-261 | the last K % 4 rows are applied from a broadcast input, each into the bank of its parity |
| `KernelProof.WideBlockRuns` | offline_bench_inference/bf3/src/train_export_hardcoded.py:224-268 | a wide block writes activation(B[j] + sum W[k][j] in[k]) to its own columns and leaves the other outputs alone |
| `KernelLayer.DotVectorRuns` | offline_bench_inference/bf3/src/train_export_hardcoded.py:276-285 | eight-wide partial sums of a remainder column add up to the sum of the first K - K % 8 products |
| `KernelLayer.DotOutputRuns` | offline_bench_inference/bf3/src/train_export_hardcoded.py:274-293 | a remainder output is the same neuron, from gathered weights and a scalar tail |
| `KernelLayer.WideBlocksRun` | offline_bench_inference/bf3/src/train_export_hardcoded.py:300-305 | the blocks together fill columns 0 .. N - N % 4 |
| `KernelLayer.LayerRuns` | offline_bench_inference/bf3/src/train_export_hardcoded.py:297-310 | for every weight matrix, bias, input and shape with K <= 128 or (K - K % 4) % 8 == 0, the emitted layer runs without a read out of bounds and computes the dense layer in every output |
| `KernelLayer.EmittedIsDense` | offline_bench_inference/bf3/src/train_export_hardcoded.py:264-293 | so is every output that the emitted layer leaves, of wide blocks and of the remainder |
| `KernelFault.LayerFaults` | offline_bench_inference/bf3/src/train_export_hardcoded.py:245-254 | with a wide block, K > 128 and K - K % 4 an odd multiple of four, the last loop pass reads past the packed weights |
| `KernelFault.LayerCorrectIff` | offline_bench_inference/bf3/src/train_export_hardcoded.py:297-310 | the emitted layer computes the dense layer if and only if N < 4 or the loop step fits K; otherwise it faults |
| `KernelFault.OverrunExample` | offline_bench_inference/bf3/src/train_export_hardcoded.py:246-254 | every shape below 132 inputs fits its loop step, and the layer of 132 inputs and four outputs faults |
| `PredictProgram.FoldLayer` | offline_bench_inference/bf3/src/train_export_hardcoded.py:322-324 | the folded first layer on raw features equals the plain one on (x - mean) / std, for any nonzero std |
| `PredictProgram.FoldForward` | offline_bench_inference/bf3/src/train_export_hardcoded.py:322-324 | so the folded network agrees with the reference network at every depth |
| `PredictProgram.ForwardYields` | offline_bench_inference/bf3/src/train_export_hardcoded.py:403-414 | the reference logits come from a chain of such layers, each fed by the one before |
| `PredictProgram.EmitPredict` | offline_bench_inference/bf3/src/train_export_hardcoded.py:403-414 | the emitted call sequence alternates the two buffers as specified for any number of layers |
| `PredictProgram.NeverAliases` | offline_bench_inference/bf3/src/train_export_hardcoded.py:407-412 | no layer call reads the buffer it writes, and the features are never written |
| `PredictProgram.PredictLogits` | offline_bench_inference/bf3/src/train_export_hardcoded.py:403-414 | running the emitted calls leaves the reference logits in the result buffer, whatever the buffers held before |
| `PredictProgram.PredictSafeIff` | offline_bench_inference/bf3/src/train_export_hardcoded.py:403-414 | the predictor runs to its end if and only if every layer fits its loop step |
| `PredictProgram.PredictRawLogits` | offline_bench_inference/bf3/src/train_export_hardcoded.py:399-426 | the raw entry point computes the reference logits of the normalised features |
| `PredictProgram.PredictClass` | offline_bench_inference/bf3/src/train_export_hardcoded.py:403-424 | running the emitted calls and scanning the logits gives the lowest index of the largest logit that the chain of layers, output by output, computes from the input |
| `PredictProgram.PredictRawClass` | offline_bench_inference/bf3/src/train_export_hardcoded.py:399-430 | the raw entry point returns that class for the features (raw - mean) / std |
| `MlpKernels.LayerScalar` | src/infer_mlp.c:19-31 | the scalar kernel writes the dense layer into the first N outputs, each the larger of its biased sum and zero when activated, and nothing else |
| `MlpKernels.LayerNeon` | src/infer_mlp.c:34-57 | the four-wide kernel with its scalar tail writes the very same values, for any N |
| `MlpKernels.FourNeurons` | src/infer_mlp.c:40-48 | four lanes computed together equal four neurons of the layer |
| `MlpKernels.FastSigmoidMonotone` | src/infer_mlp.c:13-17 | the approximation is strictly increasing |
| `MlpKernels.FastSigmoidShape` | src/infer_mlp.c:13-17 | it lies strictly between zero and one, and twice its distance from one half is x / (1 + abs(x)) |
| `MlpKernels.FastSigmoidThreshold` | src/infer_mlp.c:97-98 | comparing it with 0.5 is comparing the logit with 0 |
| `MlpKernels.Predict` | src/infer_mlp.c:60-111 | either kernel returns the class of the logits that the chain of layers, output by output, computes, swapping two scratch buffers through any number of layers |
| `Words.XnorAt` | src/infer_bnn.c:41 | bit i of the complemented exclusive or says whether the two bits agree |
| `Words.LowMaskAt` | src/infer_bnn.c:11 | shifting one left by r and subtracting one keeps exactly the low r bits |
| `Bnn.TailKeeps` | src/infer_bnn.c:7-12 | the tail mask, all ones when 64 divides n, keeps exactly those bits of the last word that are real positions |
| `Bnn.PackBits` | src/infer_bnn.c:14-21 | bit i of the packed words is the sign of element i |
| `Bnn.PackWeights` | tools/export_bnn.py:64-74 | row o of the packed words holds the signs of column o of the weights |
| `Bnn.MaskedBit` | src/infer_bnn.c:40-43 | bits beyond the n real positions never count, whatever either operand holds there |
| `Bnn.MatchCount` | src/infer_bnn.c:39-44 | the popcount loop counts the positions where the signs agree |
| `Bnn.AgreeIsDot` | tools/export_bnn.py:22-26 | twice the agreements less n is the dot product of the sign vectors |
| `Bnn.BnnLayer` | src/infer_bnn.c:23-50 | a layer packs the signs of the binary linear layer, or stores its scores when it is the last |
| `Bnn.ForwardYields` | src/infer_bnn.c:36-49 | a layer's output is twice the places where input and weight have the same sign, less their number, plus the bias; the next layer sees only its sign |
| `Bnn.Predict` | src/infer_bnn.c:62-98 | on exporter-packed weights the predictor returns the class of the scores so computed, for every shape, weight set and input |
| `RandomForest.I16Exact` | tools/export_rf.py:67-69 | node numbers of a tree below 32768 nodes survive the cast to 16 bits |
| `RandomForest.EvalIsLeaf` | src/infer_rf.c:18-28 | a tree's class is that of the one leaf whose path conditions the features meet, left where a feature is at most the threshold |
| `RandomForest.MeasureDepth` | tools/export_rf.py:77-84 | the stack loop returns the larger of what was seen before and the true depth of the tree |
| `RandomForest.ExportTree` | tools/export_rf.py:66-76 | the appended arrays store the tree so that it can be walked, with the majority class at each leaf |
| `RandomForest.ExportForest` | tools/export_rf.py:56-84 | all trees are stored at their offsets and the recorded depth bounds each of them |
| `RandomForest.Walk` | src/infer_rf.c:12-32 | the bounded walk never breaks off: it returns the recursive evaluation of the tree |
| `RandomForest.VotesAddUp` | src/infer_rf.c:32 | the votes over all classes add up to the number of trees |
| `RandomForest.Predict` | src/infer_rf.c:5-44 | the predictor returns the lowest class with the most votes of the recursively evaluated trees |
| `CompletionQueue.CqAfter` | flexio/common/dev/com_dev.c:137-148 | after n completions, also across the wrap of the 32-bit index, slot and owner bit are n modulo the ring and the parity of the pass |
| `CompletionQueue.CqContext.StepCq` | flexio/common/dev/com_dev.c:137-148 | one call is one step of that function and writes the doorbell |
| `CompletionQueue.RingCursor.GetNext` | flexio/common/dev/com_dev.c:173-186 | the n-th call hands out slot n modulo the ring, also after the cursor has wrapped |
| `ReceiveRing.CreditExact` | flexio/dpa_inference/dev/flexio_packet_processor_dev.c:204-205 | the 16-bit comparison sees a credit exactly while fewer than the ring depth of uncredited packets are outstanding |
| `ReceiveRing.LooksValid` | flexio/dpa_inference/dev/flexio_packet_processor_dev.c:226-227 | in every reachable state the polled entry looks valid if and only if it is produced and not yet consumed |
| `ReceiveRing.StartOk` | flexio/dpa_inference/host/flexio_packet_processor_host.c:311-313 | rings, owner bits and credits as the host sets them up satisfy the invariant |
| `ReceiveRing.Reachable` | flexio/dpa_inference/dev/flexio_packet_processor_dev.c:224-236 | the invariant holds after every interleaving of steps from the state the host sets up |
| `ReceiveRing.StepKeeps` | flexio/dpa_inference/dev/flexio_packet_processor_dev.c:122-236 | every step of the NIC and of the DPA thread keeps the protocol invariant |
| `ReceiveRing.RunSafe` | flexio/dpa_inference/dev/flexio_packet_processor_dev.c:224-236 | in every interleaving the packets copied out are a prefix of those accepted, each once and in order, at most a ring behind |
| `ReceiveRing.NotOverwritten` | flexio/dpa_inference/dev/flexio_packet_processor_dev.c:139-153 | what the thread is about to read is still the entry and the bytes of the packet it was told about |
| `ReceiveRing.Drains` | flexio/dpa_inference/dev/flexio_packet_processor_dev.c:224-236 | left alone, the thread copies out every accepted packet |
| `ReceiveRing.NeverStalls` | flexio/dpa_inference/dev/flexio_packet_processor_dev.c:139-236 | from every reachable state, once the thread has done the steps it owes, the NIC accepts the next packet and five more steps copy it out |
| `KeyedWindows.WindowsOfKey` | src/features_doh.c:168-180 | for any interleaving the chunks emitted for a key are the consecutive windows of its accepted records, floor(n / window) of them |
| `KeyedWindows.RoomyAccepts` | src/flow_pool.c:62-87 | with room for every key and a willing hash no record is refused |
| `KeyedWindows.SameRecordsSameWindows` | src/features_iot.c:137-149 | two histories with the same records of a key emit the same windows for it |
| `KeyedWindows.ShardRoomy` | src/features_doh.c:48 | traffic that fits one table fits the table of every worker |
| `KeyedWindows.ShardingInvisible` | src/worker.c:101-123 | splitting the traffic by key over any number of workers, each with room for its own keys, changes nothing for any key against a table with room for all |
| `FlowPool.Pool.LookupOrAlloc` | src/flow_pool.c:62-87 | the bump pool is a finite map: a new key gets a zeroed entry, a full pool or a failing insert leaves everything as it was |
| `FlowPool.Pool.Lookup` | src/flow_pool.c:52-60 | a lookup finds exactly the mapped keys |
| `FeatureQueue.Queue.Push` | include/profiles.h:30-43 | a push appends, or counts a drop on a full queue |
| `FeatureQueue.Queue.Pop` | include/profiles.h:45-55 | a pop returns the oldest item, in order |
| `FeatureQueue.KeptStep` | include/profiles.h:34-41 | of a burst the queue keeps the first that fit and counts the others |
| `FeatureQueue.OfferIsKept` | src/features_doh.c:176-179 | a profile that emits at most one vector a packet offers bursts of at most one |
| `WindowTracker.Tracker.Process` | src/features_iot.c:137-149 | one packet, in place, is one window step of its key, and a full window queues its features |
| `Traffic.OfferedIsEmitted` | src/features_iot.c:146-149 | what a packet offers to the queue is the vector of the window it completes, and of no other |
| `Traffic.VectorsFor` | src/features_iot.c:121-123 | the vectors labelled with a key are those of its own windows, in order |
| `Rss.SameConnection` | include/common.h:74-85 | two packets share a canonical key exactly when they belong to one connection, in either direction |
| `Rss.CanonicalIsOrdered` | include/common.h:74-85 | the canonical key is the packet's or its reverse, with the smaller end first |
| `Rss.HashIsParity` | src/dpdk_port.c:8-14 | a hash bit is the parity of the set input bits that meet a set key bit |
| `Rss.KeyBitIs` | src/dpdk_port.c:8-14 | the key bits are those of its bytes, most significant first |
| `Rss.KeyIsPeriodic` | src/dpdk_port.c:8-14 | the hash key repeats every 16 bits |
| `Rss.SymmetricHash` | src/dpdk_port.c:8-14 | with this key both directions of a connection have the same Toeplitz hash, with and without ports |
| `Rss.WorkerOfConnection` | src/dpdk_port.c:34-38 | so whatever the indirection table, the worker depends on the canonical key only |
| `Sharding.QueueIsShard` | src/features_doh.c:164-169 | hashing raw headers on the NIC routes window events by canonical key |
| `Sharding.WorkersTogetherAreOneTable` | src/features_doh.c:46-50 | a connection's worker, whose own pool has room for the flows it gets, emits exactly the windows a single table with room for all flows would; the two capacities are independent |
| `Sharding.OwnWorkerHasAll` | src/features_doh.c:149-181 | it gets every record of the connection |
| `Sharding.OtherWorkersSilent` | src/features_doh.c:149-181 | no other worker sees a record of it |
| `Doh.EntryAgrees` | src/features_doh.c:68-96 | the incremental entry is the batch count, sum, minimum, maximum and switch count of the open window, and no counter wraps |
| `Doh.FeaturesAreBatch` | src/features_doh.c:98-147 | the sixteen features are the batch statistics of the window |
| `Doh.SwitchesByRuns` | src/features_doh.c:94 | direction switches are bounded by runs: at most n - 1 and twice either side's records |
| `Doh.BatchValidates` | src/feature_contract.c:22-40 | a batch vector meets every check but the count, and the count exactly for its own window length |
| `Doh.AcceptsIff` | src/feature_contract.c:22-40 | the contract accepts exactly the vectors whose counts add up to the window, with fractions as shares, the mean between the extremes and switches within window and smaller side |
| `Doh.EmittedValidIff` | src/worker.c:51-54 | every emitted vector passes the contract if and only if a window was configured: the default of sixteen is checked against zero |
| `Doh.Init` | src/features_doh.c:38-57 | the initial tracker is empty, with the effective window |
| `Doh.ProcessPacket` | src/features_doh.c:149-181 | a packet that carries an application data record is one window step of its canonical key and offers the vector of a window it completes; any other changes nothing |
| `DohPackets.HeaderAddsRecord` | src/features_doh.c:156-173 | from the bytes: type 23, a two-byte length n and at least n bytes on port 443 add exactly one record of length n to the connection's window, the client's if and only if the source port is not 443 |
| `DohPackets.ReversedCountsOther` | src/features_doh.c:165-173 | with one port 443 the same bytes in the other direction count for the same connection on the other side |
| `DohPackets.LeavesAloneIff` | src/features_doh.c:155-161 | a packet leaves the tracker alone exactly when neither port is 443, it is shorter than five bytes, of another type, or shorter than it announces |
| `DohPackets.PacketsDescribed` | src/features_doh.c:98-181 | from bytes to vectors: the i-th vector of a connection holds the counts, bytes, extremes, means, shares and side changes of the i-th window of its packets that carry a record, by the port they come from |
| `Delivery.NothingLost` | src/worker.c:102-123 | with IoT or DoH behind the queue, however packets come in bursts: the vectors popped are those of all completed windows in order, and none is dropped |
| `Delivery.ConnectionDelivered` | src/worker.c:102-123 | a worker whose pool has room for the flows it gets pops, for a connection hashed to it, the vectors of the floor(n / window) consecutive windows of all the connection's records, and for any other connection none |
| `Delivery.DohDelivered` | src/features_doh.c:149-190 | for DoH, with room in that worker's pool, the i-th vector popped for a connection is the batch vector of its i-th window and meets the contract for the configured window |
| `Doh.ServeAll` | src/worker.c:109-122 | run on a tracker packet by packet with the queue drained after each, what is popped is the vectors of all completed windows, and nothing is dropped |
| `Iot.EntryAgrees` | src/features_iot.c:69-97 | the incremental entry is the batch statistics of the open window, gaps included |
| `Iot.GapsTelescope` | src/features_iot.c:74-91 | the gaps add up to the time from first to last packet plus 2^64 for every backward step of the clock |
| `Iot.SumFitsIff` | src/features_iot.c:91 | the gap sum does not wrap if and only if the window spans less than one turn of the clock |
| `Iot.FeaturesExactIff` | src/features_iot.c:99-124 | for every window, the eight features are its batch statistics if and only if it spans less than one turn of the clock and its only gap is not 2^64 - 1 |
| `Iot.BatchValidates` | src/feature_contract.c:9-20 | batch vectors meet the IoT contract |
| `Iot.AcceptsIff` | src/feature_contract.c:9-20 | the contract accepts exactly the vectors with nothing negative and both means between their extremes |
| `Iot.DecodeMeans` | src/features_iot.c:142-144 | the length is the IP total length, or the frame's when that is zero, of 16 bits, and the flags are the number of set bits among eight |
| `Iot.PacketAddsRecord` | src/features_iot.c:126-149 | a TCP packet adds exactly that record to its connection's window |
| `Iot.ValidIff` | src/feature_contract.c:9-20 | for every window, its vector meets the contract if and only if the gap sum modulo 2^64 is at least the least gap (as written) times the number of gaps |
| `Iot.WithinTurnValidates` | src/feature_contract.c:9-20 | so every window within one turn of the clock passes |
| `Iot.Init` | src/features_iot.c:38-58 | the initial tracker is empty, with the effective window |
| `Iot.ProcessPacket` | src/features_iot.c:126-151 | every TCP packet is one window step of its canonical key and offers the vector of a window it completes |
| `Delivery.IotDelivered` | src/features_iot.c:126-160 | for IoT, with room in that worker's pool, the i-th vector popped for a connection is the batch vector of its i-th window exactly under that condition, and meets the contract within one turn of the clock |
| `Iot.ServeAll` | src/worker.c:109-122 | the same run for IoT: the vectors of all completed windows are popped and nothing is dropped |
| `Delivery.ForwardClockQualifies` | src/features_iot.c:74 | a clock that never runs backwards keeps every window of every connection within one turn |
| `Slope.ComputeSlope` | src/features_ics.c:59-76 | the four running sums give the slope formula over the window |
| `Slope.DenominatorZeroIff` | src/features_ics.c:73-74 | the denominator is never negative and is zero exactly when all time stamps are equal |
| `Slope.SlopeIsNormal` | src/features_ics.c:75 | otherwise the slope solves the normal equations with some intercept |
| `Slope.SlopeIsLeastSquares` | src/features_ics.c:75 | and no line has a smaller squared error than one with this slope |
| `Slope.AffineSlope` | src/features_ics.c:73-75 | on readings a + b t the slope is b |
| `Cusum.Accumulate` | src/features_ics.c:127-133 | the loop computes both recursions from the carried values |
| `Cusum.CusumIsPeak` | src/features_ics.c:131 | the upper sum is the maximum of zero, every suffix sum of (d - 0.5), and carry plus total |
| `Cusum.CusumMirror` | src/features_ics.c:132 | the lower sum is the negated upper sum of mirrored readings, mean and carry |
| `Cusum.EwmaIsWeighted` | src/features_ics.c:110-114 | the smoothed value is the sum of all readings of the window, each weighted by its age |
| `Cusum.EwmaWithin` | src/features_ics.c:110-114 | the smoothed value stays between the least and the greatest reading |
| `Cusum.TrendIsConsistency` | src/features_ics.c:137-142 | trend consistency lies in [0, 1] and is one exactly for strictly monotone readings |
| `Sensor.Entry.ComputeFeatures` | src/features_ics.c:78-162 | the sixteen features and the carried state are those of the window in the buffers |
| `Sensor.Entry.AddReading` | src/features_ics.c:205-235 | in place, a reading is appended; a full window yields its vector, carries on and starts over |
| `Ics.BaseIsBatch` | src/features_ics.c:83-92 | minimum, maximum, mean and range are those of the window, and the range does not overflow |
| `Ics.GapsAreBatch` | src/features_ics.c:94-107 | least, greatest and mean gap, with backward steps counted as zero, in microseconds |
| `Ics.EmittedValid` | src/feature_contract.c:42-56 | every vector of a full window meets the ICS contract, whatever was carried into it |
| `Ics.AcceptsIff` | src/feature_contract.c:42-56 | the contract accepts exactly the vectors with means between extremes, no negative gap, a range within one part in a thousand, and an alarm of 0 or 1 |
| `SensorMeaning.VectorMeans` | src/features_ics.c:78-162 | each of the sixteen features by readings and stamps: extremes, mean, range and gaps; the least-squares slope of the window's own points; the age-weighted average, its change and relative change; the greatest rise above and fall below the pooled mean on top of what was carried, the greater of both and whether it passes two; the net share of rising steps |
| `SensorMeaning.SensorMeans` | src/features_ics.c:115-134 | over a sensor's windows, what a vector compares with and adds to is in the vector before it, or the first reading, and its mean is that of all readings so far while their number fits 32 bits |
| `Ics.AlarmIff` | src/features_ics.c:160 | the alarm is raised exactly when some stretch of readings up to the window's end drifts by more than the threshold |
| `Ics.HistoricalMeanExact` | src/features_ics.c:118-125 | while the sample counter has not wrapped, the historical mean is the mean of all readings of all completed windows |
| `Ics.HistoricalMeanIff` | src/features_ics.c:118-125 | it is right after each of the first k windows of n readings, for all readings, if and only if k n < 2^32 |
| `IcsProfile.DecodeShape` | src/features_ics.c:277-303 | every reading fits 17 bits, lies at or after its register, and no register address is read twice in a response |
| `ModbusBytes.DecodesValues` | src/features_ics.c:282-303 | from the bytes v / 256, v % 256 of any register values: a zero before a nonzero v is one reading v at the zero's address, any other v one signed 16-bit reading at its own, and nothing else is read |
| `ModbusBytes.RequestRecorded` | src/features_ics.c:256-267 | from the bytes of a request for either function: it goes on record with its start and quantity under its transaction and unit |
| `ModbusBytes.ResponseRead` | src/features_ics.c:269-303 | from the bytes of a response for either function: it uses up its request, and if that is on record and the bytes announced are there, each announced value is read from the request's start address on, for that unit, and nothing else |
| `ModbusBytes.IgnoredIff` | src/features_ics.c:243-276 | the packets that do neither, by their ports, lengths, protocol and function |
| `ModbusBytes.IgnoredLeavesAll` | src/features_ics.c:243-276 | and these leave requests and sensors alone |
| `IcsProfile.SensorsAreIndependent` | src/features_ics.c:205-235 | for any interleaving, a sensor's vectors are those of the consecutive windows of its own readings, with its own carried state |
| `PollBursts.PollRound` | src/features_ics.c:224-234 | sensors polled together fill their windows in the same packet, one vector each |
| `PollBursts.BurstLoses` | src/features_ics.c:231 | from an empty profile, a window of polls of q sensors queues nothing before the last one, which loses exactly max(0, q - 64) vectors |
| `PollBursts.PacketsClassified` | src/features_ics.c:242-276 | the request and response payloads of a poll, which are bytes when its fields fit the wire, are read as that request and that answer |
| `PollBursts.ResponseLoses` | src/features_ics.c:237-306 | as packets: with requests and responses over the same nonzero registers, nothing is queued until the response that fills the windows, which offers one vector a register and loses all beyond 64 |
| `IcsRuns.OfferedAtMost` | src/features_ics.c:275-303 | in every state, a packet offers at most one vector a register it announces, and at most as many as the pool has sensors |
| `PollBursts.NeverLosesIff` | src/features_ics.c:231 | for every bound q on the registers of a response and every pool: no run of byte packets ever loses a vector, with the queue drained after each, if and only if q or the pool's capacity is at most 64 |
| `IcsDelivery.LostExactly` | src/worker.c:109-122 | over any bursts, vectors are lost exactly when some packet offers more than the queue holds; otherwise all vectors pushed are popped in order |
| `IcsRuns.SensorDelivered` | src/features_ics.c:205-235 | over every run, the vectors pushed for a sensor are those of the consecutive windows of its own readings, each from what the earlier ones carried over, and each meets the ICS contract |
| `IcsDelivery.IcsDelivered` | src/worker.c:109-122 | so under that bound nothing is lost, and these are the vectors popped for the sensor |
| `IcsDelivery.ServeIcs` | src/worker.c:109-122 | run on a profile packet by packet with the queue drained after each, its tables are those of the run, and when no packet overfills the queue all vectors pushed are popped |
| `IcsProfile.PushesAppend` | src/features_ics.c:282-303 | what was pushed before does not change what is pushed next |
| `SensorSharding.WorkerHasAllIff` | src/features_ics.c:301 | a worker sees a sensor whole if and only if every connection that reports its key is hashed to that worker |
| `SensorSharding.NeverSplitIff` | src/features_ics.c:301 | some worker sees it whole whatever the indirection table if and only if all connections that report it have the same hash |
| `SensorSharding.NotMergedIff` | src/features_ics.c:301 | a worker keeps a connection's sensor apart from others if and only if no other connection hashed to it reports the same key |
| `SensorSharding.WholeSensor` | src/features_ics.c:301 | a sensor whose reporting connections all hash to one worker yields there, with room for that worker's sensors, the vectors of a single table with room for all |
| `IcsProfile.Profile.AddReading` | src/features_ics.c:205-235 | a reading takes its sensor's pool entry, or a new one that starts from it, one step on, and offers at most one vector |
| `IcsProfile.Profile.ReadRegisters` | src/features_ics.c:277-303 | the register loop absorbs the decoded readings in order |
| `IcsProfile.Profile.ProcessPacket` | src/features_ics.c:237-306 | requests go on record, a response uses up its request and feeds its registers, any other packet changes nothing |
| `SlotLedger.NoSlotLost` | src/modbus_tracker.c:58-61 | free and mapped indices are disjoint and together are all slots |
| `ModbusTracker.Tracker.constructor` | src/modbus_tracker.c:11-33 | the initial stack holds every slot once |
| `ModbusTracker.Tracker.Add` | src/modbus_tracker.c:46-71 | add is the bounded map's update; a full pool or failing insert changes nothing and gives the slot back |
| `ModbusTracker.Tracker.Take` | src/modbus_tracker.c:73-86 | take returns and removes exactly the mapped request |
| `ModbusTracker.Tracker.Detach` | src/modbus_tracker.c:83-84 | the free-stack guard always holds, so the slot always returns |
| `ModbusTracker.NeverStale` | src/modbus_tracker.c:46-86 | over any run, whatever was refused, a tracked key holds its latest request |
| `ModbusTracker.RoomyIsUnbounded` | src/modbus_tracker.c:46-86 | with room and a willing hash the tracker is the unbounded map of outstanding requests |
| `PendingRing.Ring.AddPending` | offline_bench_pkt_process/bench_modbus.c:110-118 | an addition overwrites the oldest slot and keeps the last 1024 in place, whatever was taken |
| `PendingRing.Ring.FindPending` | offline_bench_pkt_process/bench_modbus.c:120-133 | in any history, a search returns and takes the one request that the run's step takes, or nothing |
| `PendingRing.FoundIsLowest` | offline_bench_pkt_process/bench_modbus.c:124-131 | that is a live request if and only if one with the key is among the last 1024 additions and not taken, and of several the one in the lowest slot |
| `PendingRing.MaskIsModulo` | offline_bench_pkt_process/bench_modbus.c:115 | masking the write index with the capacity less one is reducing it modulo the capacity |
| `PendingRing.MatchedIff` | offline_bench_pkt_process/bench_modbus.c:110-133 | when no addition reuses a key still held beside it, a response is matched exactly when its request is outstanding and among the last 1024 additions, and it is that request |
| `PendingRing.AgreesWithTracker` | offline_bench_pkt_process/bench_modbus.c:110-133 | then ring and hash-based tracker answer alike exactly when the request was not overwritten |
| `PendingAgreement.AgreeIffExact` | offline_bench_pkt_process/bench_modbus.c:110-133 | for every run, ring and tracker give the same answers to every continuation by responses if and only if the ring holds the outstanding request of each key and no other of that key |
| `PendingAgreement.AlwaysAgreeIff` | offline_bench_pkt_process/bench_modbus.c:110-133 | they do so all through a run if and only if each addition overwrites the outstanding request of its own key, if there is one, and of no other key |
| `PendingAgreement.OlderUnlessWrapped` | offline_bench_pkt_process/bench_modbus.c:124-131 | of two live requests with one key the ring answers with the older one exactly when both lie in the same pass over the ring, else with the newer |
| `PendingAgreement.DuplicateKeyAnswer` | offline_bench_pkt_process/bench_modbus.c:110-133 | reached from the start: after n answered requests, two with one key are answered oldest first unless 1024 divides n + 1, while the tracker holds the newer |
| `FlowFreeList.LinkAll` | offline_bench_pkt_process/bench_tls_appdata.c:300-305 | the initial links run through the whole pool |
| `FlowFreeList.FlowTable.AllocEntry` | offline_bench_pkt_process/bench_tls_appdata.c:83-94 | allocation unlinks the head and clears it; an empty list gives the invalid index |
| `FlowFreeList.FlowTable.FreeEntry` | offline_bench_pkt_process/bench_tls_appdata.c:96-101 | freeing links the entry in front |
| `FlowFreeList.FlowTable.FreeListComplete` | offline_bench_pkt_process/bench_tls_appdata.c:83-101 | following the links from the head visits freeCount distinct entries, none mapped, and every other entry is mapped |
| `FlowFreeList.FlowTable.Attach` | offline_bench_pkt_process/bench_tls_appdata.c:195-202 | a failing insert restores list and head exactly |
| `FlowFreeList.FlowTable.Store` | offline_bench_pkt_process/bench_tls_appdata.c:176-184 | updating or resetting a window never disturbs the list |
| `FlowFreeList.FlowTable.HandleRecord` | offline_bench_pkt_process/bench_tls_appdata.c:187-213 | one record is one step of the bounded flow map |
| `FlowFreeList.UpdateIsProfile` | offline_bench_pkt_process/bench_tls_appdata.c:103-129 | without the profile's first-record test the statistics come out the same |
| `FlowFreeList.TableIsOpenWindows` | offline_bench_pkt_process/bench_tls_appdata.c:187-213 | over every run the benchmark's table holds for each flow the profile's statistics of its open window |
| `FlowFreeList.TableStamps` | offline_bench_pkt_process/bench_tls_appdata.c:103-184 | and the stamps of its open window's first and last record, or right after a full window the time of its last record and zero |
| `FlowTrack.Update` | flexio/dpa_inference/dev/flow_track.h:119-173 | one call is one step of the table and returns the features of the entry before the update |
| `FlowTrack.RunIsLongest` | flexio/dpa_inference/dev/flow_track.h:147-159 | the trailing run is the longest suffix of packets of one flow |
| `FlowTrack.RunCounters` | flexio/dpa_inference/dev/flow_track.h:170-172 | the packet count saturates at 65535 and the last size is the run's last |
| `FlowTrack.SlotIsTrailingRun` | flexio/dpa_inference/dev/flow_track.h:119-173 | after any trace a slot holds the fold over the longest trailing run of one flow among its own packets, or is empty |
| `FlowTrack.UncollidedIsExact` | flexio/dpa_inference/dev/flow_track.h:144-159 | a flow that shares its slot with no other is tracked as by an unbounded per-flow map |
| `FlowTrack.DirectionBlind` | flexio/dpa_inference/dev/flow_track.h:128-142 | swapping a packet's direction changes neither table nor features |
| `FlowMeaning.FeaturesDescribe` | flexio/dpa_inference/dev/flow_track.h:147-166 | after any trace: the packet's size; the packets of the slot's trailing run if it is this flow's, at most 255, else 0; less than three units below the exact average of that run up to 8191 bytes, or the size at a start; and the distance to the run's last size, or 0 |
| `FlowMeaning.OwnIsSlot` | flexio/dpa_inference/dev/flow_track.h:144-147 | a slot's own packets are those of the trace that hash to it, in order |
| `FlowTrack.SmoothExactIff` | flexio/dpa_inference/dev/flow_track.h:167-169 | the cast before the division keeps the value exactly when the sum fits 32 bits |
| `FlowTrack.StaysIff` | flexio/dpa_inference/dev/flow_track.h:158-169 | for every bound on packet sizes, the average of every run stays within the run's sizes if and only if the bound is at most 8191 |
| `FlowTrack.ReceivedStays` | flexio/dpa_inference/host/flexio_packet_processor_host.c:182-184 | packets fit entries of 2048 bytes, so no received run leaves its sizes |
| `FlowTrack.AverageWithin` | flexio/dpa_inference/dev/flow_track.h:158-169 | for sizes up to 8191 the average stays within the sizes of its flow |
| `FlowTrack.AverageError` | flexio/dpa_inference/dev/flow_track.h:158-169 | and is at all times less than three units below the exact rational average |
| `FlowTrack.ConstantSettles` | flexio/dpa_inference/dev/flow_track.h:167-169 | constant traffic ends on the target from above and within three units from below |
| `FlowTrack.ConstantConverges` | flexio/dpa_inference/dev/flow_track.h:167-169 | and shrinks the distance by a quarter per packet, up to three units |
| `FlowForest.TreeInfer` | flexio/dpa_inference/dev/flow_ml_model.h:88-101 | the bounded walk returns the recursive evaluation and never reaches its fallback |
| `FlowForest.ForestInfer` | flexio/dpa_inference/dev/flow_ml_model.h:107-115 | the score is the mean of the trees' leaves and lies in [0, 65536] |
| `FlowForest.ShippedIsSound` | flexio/dpa_inference/dev/flow_ml_model.h:51-81 | in the shipped table children follow their parents and leaves are scores; the zero padding is unreachable |
| `FlowForest.ForestScore` | flexio/dpa_inference/dev/flow_ml_model.h:51-115 | evaluating the shipped table equals its four decisions written out |
| `FlowForest.AnomalyIff` | flexio/dpa_inference/dev/flexio_packet_processor_dev.c:167-172 | on features of the flow table the shipped forest reports an anomaly if and only if the packet starts a run and has 1500 to 32767 bytes (a received entry holds at most 2048) |
| `FlowForest.TraceCounted` | flexio/dpa_inference/dev/flow_track.h:171-172 | after any trace every tracked slot has counted a packet |
| `Worker.RecordConserves` | src/worker.c:102-133 | a burst keeps every received buffer either transmitted or freed, each exactly once |
| `Worker.ConservedCount` | src/worker.c:107-132 | so the received count is the transmitted plus the dropped one |
| `Worker.DroppedIff` | src/worker.c:66-88 | a packet is condemned exactly when, in drop mode, some accepted vector popped after it has a nonzero prediction |
| `Worker.BurstFates` | src/worker.c:113-133 | of a burst, the packets not condemned go to the transmit queue in order, as many as there is room for are sent, and the others are freed after the condemned ones |
| `Worker.NoneCondemned` | src/worker.c:74-77 | outside drop mode none is condemned |
| `Worker.CountersCount` | src/worker.c:54-72 | the counters are the numbers of accepted vectors and of those of each class |
| `Worker.LoopHands` | src/worker.c:102-123 | over any bursts the classifier gets, in order, what each packet puts on an empty queue, and what that queue cannot hold is lost |
| `Worker.LoopLosesIff` | include/profiles.h:34-37 | the queue loses vectors exactly when some packet offers more of them than it holds |
| `Worker.Worker.ClassifyFeature` | src/worker.c:47-77 | each popped vector is counted once, as an event or as invalid, and as its class; it condemns the packet exactly in drop mode with a nonzero prediction |
| `Worker.Worker.DrainFeatures` | src/worker.c:79-88 | the queue ends empty, everything in it was classified in order, and the verdict is that of any vector |
| `Worker.Worker.HandlePacket` | src/worker.c:113-122 | a packet is freed exactly when a vector popped after it condemns it |
| `Worker.Worker.Sift` | src/worker.c:109-123 | the survivors of a burst are collected in order |
| `Worker.Worker.TransmitBurst` | src/worker.c:125-133 | a prefix of the survivors is transmitted, the rest is freed and counted |
| `Worker.Worker.Loop` | src/worker.c:101-134 | at every loop head received = transmitted + dropped, popped = events + invalid, per-class counts are exact and the queue is empty |

## Left out

- Float rounding, infinities and NaN: all real arithmetic is exact, and a
  division whose float result would not be finite counts as zero.
- Port, queue and memory set-up, signals, command line, logging, CSV, timing
  counters, DOCA Flow and FlexIO host code, and calls into DPDK.
- Header parsing down to the TCP payload, IP fragments included: a packet is
  its parsed fields.
- Hashing inside `rte_hash`; only its failing inserts are modelled.
- Reuse of transmit buffers on the DPA: send completions are never polled, so
  the code gives no basis for a claim.
- Training, scikit-learn, PyTorch and the averaging vote of scikit-learn, which
  differs from the hard vote in `src/infer_rf.c`.
- `hc_reference_logits`: the reference network is the function
  `PredictProgram.Forward`; its loop is that of `src/infer_mlp.c`.
- The checked-in `mlp_generated.h`, which holds unresolved merge markers.
- The 64-bit packet and event counters of the worker are unbounded numbers.
- 16- and 32-bit widths of layer sizes and counts in the binary network.
- MAC swapping and the choice of CPU kernel at run time.
- The features the TLS benchmark computes before it resets a window.
- Which bits `flow_track_hash` yields: results hold for any hash into the table.
- A packet size of 32768 bytes or more, which no receive entry holds, is shifted
  past 32 bits when a flow starts, which C leaves undefined; the model wraps it.
- IcsProfile.Profile.AddReading: a sensor's pool entry is a value that is
  replaced; its update in place, in the entry's own arrays, is
  `Sensor.Entry.AddReading`, and aliasing between entries is not modelled here.
- MlpKernels.FourNeurons: lanes are four variables rather than one vector.
- ReceiveRing.StepKeeps: the NIC writes buffer and entry in one step, since the
  hardware makes the entry visible last.
