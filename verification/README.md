# DSEGem5: a verified model of its schedulers, traces, allocators and codecs

This project models the hardest parts of DSEGem5, a design space exploration flow for accelerators built around
gem5, and proves what they guarantee.  Everything is stated for all inputs, all visiting orders and all runs.

| file | component |
|---|---|
| `PortBinding.dfy`, `PortChains.dfy` | binding of ports by index counters, and when it is accepted |
| `CheckpointMigration.dfy` | the round-based migration of old checkpoints |
| `ReorderWindow.dfy`, `TraceReading.dfy` | the re-order window of the pipeline viewer, and what is read off a trace |
| `TrafficTrace.dfy`, `TrafficProperties.dfy`, `TrafficSchedules.dfy`, `TrafficCoverage.dfy`, `TrafficConservation.dfy`, `TrafficGenerator.dfy` | the traffic generator: meaning of operations, properties of all traces, the nine schedules, coverage, tile counts, and the generator itself |
| `TrafficOrder.dfy`, `WeightOrder.dfy`, `OutputOrder.dfy`, `ElementOrder.dfy`, `GeneratorOrder.dfy` | the order of reads, computations and writes in its traces |
| `MemoryTable.dfy`, `TensorPlacement.dfy` | the tensor memory table and the placement of a model |
| `DesignSpace.dfy`, `GeneticSearch.dfy` | enumeration of tile sizes and the genetic search over them |
| `MessageFraming.dfy`, `DependencyTrace.dfy`, `CheckpointAggregator.dfy` | length-prefixed messages, the text form of dependency traces, merging of checkpoints |
| `Arithmetic.dfy`, `Collections.dfy`, `Text.dfy` | shared facts |

Code that works in place is modelled as methods and classes, each proved against a function on values; the theorems
are about those functions.  Random choices, the enumeration order of sets and the visiting order of connections are
left open, so results about them hold for every choice.

## Where the code departs from its documentation

- Sorting connections does not make one direction of each pair bindable, as a comment claims; the final count is what
  protects the binding (`SortedVisitCanFail`, `CountCheckSuffices`), and what makes it pass is a condition on chains of
  connections (`AcceptedExactlyWhenChainsFit`).
- A dependency on a downgrader waits for the tag to be present, not removed, so such registries can abort without a
  cycle (`DocumentedReadyExactlyWhen`, `CycleCriterionExactlyWhen`).
- The lower threshold bounds the disorder that is tolerated, but the exact condition only looks at the instructions
  seen at the last flush (`SortedExactlyWhenInTime`).  The upper threshold need not exceed the lower one.
- Deallocation clears an entry `tensor` that nothing reads, so names stay on free blocks; freeing a one-block table
  fails on an unbound index (`FreeUndoesAllocExactlyWhen`, `StaleNameLeaks`).
- Batch normalisation issues nothing when the channels and exactly one of the other dimensions are split, and reads a
  round too much when unsplit parts do not fill all rounds (`BatchnormCoversExactlyWhen`).
- Element-wise operators do the same (`ElementWiseCoversExactlyWhen`).  Convolutions transfer each tensor once only
  for fitting numbers of channels and processing elements, since cursors are never set back
  (`WeightCoversExactlyWhen`, `OutputCoversExactlyWhen`).
- In the remainder of the fused output-stationary convolution the third input counts as a bias although it is a
  normalisation parameter when there are six inputs, so it is read too often (`FusedParameterInstance`,
  `FusedSurplus`, `FusedParametersExactlyWhen`).
- The default split makes an operator's output share its input's cursor, so reads and writes advance each other
  (`traffic_generator/workload_analysis/operator/workload.hpp:49-53`) and later rounds do not read where earlier ones
  stopped (`SharedReadsInstance`, `SharedReadsExactlyWhen`).  The well-formedness results cover this case.
- A layer description whose type comes after its tensors gives a key error (`OrderMattersExactlyWhen`).
- Empty messages, and messages whose length does not fit 32 bits, are written but not read back
  (`MessageFraming.RoundTripExactlyWhen`).

## Model

| member | source | states |
|---|---|---|
| `PortBinding.BindPorts` | gem5/configs/example/read_config.py:333-380 | For every visiting order of the list, the pass is accepted with exactly the greedily bindable connections when these are half of the list and rejected otherwise; an unknown port is reported only for a port that is no connection's origin, and never if every port connected to is listed as an origin |
| `PortBinding.SymmetricListsTargets` | gem5/configs/example/read_config.py:334-342 | A list in both directions, as the method demands, never raises a key error |
| `PortBinding.PassIsReplayable` | gem5/configs/example/read_config.py:364-375 | Everything the pass binds comes from the list and had, when it was bound, the next index on both of its ports |
| `PortBinding.PortsBoundOnce` | gem5/configs/example/read_config.py:345-352 | No port index is ever bound twice |
| `PortBinding.IndicesInOrder` | gem5/configs/example/read_config.py:345-375 | The indices bound on each port are 0, 1, 2, ... in the order of binding, as many as the counter says |
| `PortBinding.HalfIsEverything` | gem5/configs/example/read_config.py:377-380 | Any run that makes half of a symmetric list makes exactly one direction of each pair, and the list then has no repetition |
| `PortBinding.CountCheckSuffices` | gem5/configs/example/read_config.py:354-380 | The half-count check alone, for every visiting order and without assuming a duplicate-free list, forces: no connection listed twice, exactly one direction of each pair bound, at most one peer per port, indices bound as 0, 1, 2, ... and every listed port bound |
| `PortBinding.ZeroIndices` | gem5/configs/example/read_config.py:338-343 | A counter of zero for exactly the ports that are the origin of a connection |
| `PortBinding.MakeConnections` | gem5/configs/example/read_config.py:354-375 | The pass makes exactly the greedily bindable connections, or stops at a port that is no connection's origin |
| `PortBinding.PassKeepsUp` | gem5/configs/example/read_config.py:364-375 | Where no port has two peers, whatever any choice of visits that can be made in order has made by some visit, of any size, the greedy pass has made by then too, in one direction or the other |
| `PortBinding.PassMakesMost` | gem5/configs/example/read_config.py:364-375 | So no such choice makes more connections than the pass |
| `PortBinding.PassSucceedsExactlyWhen` | gem5/configs/example/read_config.py:354-380 | The pass is accepted if and only if some choice of visits, half of them, can be made in the visiting order; so greediness loses nothing |
| `PortBinding.SortedVisitCanFail` | gem5/configs/example/read_config.py:354-356 | The comment's claim that sorting makes one direction of each pair bindable is false: a three-link chain, listed in both directions, whose visit in sorted order is rejected as not orderable, while the reverse visit of the same list is accepted |
| `PortChains.ChainKept` | gem5/configs/example/read_config.py:345-375 | If everything is made, nothing on a chain of connections that have to follow each other is made before the earliest visit the chain allows |
| `PortChains.LateChain` | gem5/configs/example/read_config.py:354-375 | Whatever the pass has not made by a visit is at the end of a chain that does not allow it by then |
| `PortChains.AcceptedExactlyWhenChainsFit` | gem5/configs/example/read_config.py:354-380 | A list in both directions is accepted if and only if no connection is listed twice, no port has two peers, no port index is left out, and no chain of connections runs out of its two visiting positions per pair |
| `CheckpointMigration.UpgraderTable.constructor` | gem5/util/cpt_upgrader.py:87-91 | An empty registry |
| `CheckpointMigration.UpgraderTable.Register` | gem5/util/cpt_upgrader.py:93-151 | A new tag joins the table and the upgrade or downgrade set, a tag used again by an upgrader of the same kind is replaced in its place, and all stay consistent |
| `CheckpointMigration.UpgraderTable.Forward` | gem5/util/cpt_upgrader.py:186-195 | Succeeds exactly if all forward dependencies of the tag exist, and has then turned all of them around, in order and with repetitions |
| `CheckpointMigration.UpgraderTable.Audit` | gem5/util/cpt_upgrader.py:196-202 | Succeeds exactly if the tag named only known tags as dependencies, whatever forward dependencies were added to it meanwhile |
| `CheckpointMigration.UpgraderTable.ResolveOne` | gem5/util/cpt_upgrader.py:186-202 | One tag is resolved and audited in the middle of the others |
| `CheckpointMigration.UpgraderTable.ResolveDependencies` | gem5/util/cpt_upgrader.py:186-202 | The whole registry is accepted if and only if all forward and plain dependencies name known tags, and is then fully resolved |
| `CheckpointMigration.ResolvedMeaning` | gem5/util/cpt_upgrader.py:63-69 | After resolution a tag depends on another exactly if it said so itself or the other named it as a forward dependency; audited tables stay audited |
| `CheckpointMigration.UpgraderTable.ApplyRound` | gem5/util/cpt_upgrader.py:159-167 | One round applies each ready tag once, and the resulting tags do not depend on the order of enumeration |
| `CheckpointMigration.UpgraderTable.Migrate` | gem5/util/cpt_upgrader.py:265-279 | The migration terminates; its outcome is determined by registry and tags alone, and what it applies is each round's ready set, once each, round after round |
| `CheckpointMigration.CompletedTags` | gem5/util/cpt_upgrader.py:265-285 | Every migration that completes, downgraders included, ends with the old tags plus all upgrade tags minus all downgrade tags |
| `CheckpointMigration.CompletedMeaning` | gem5/util/cpt_upgrader.py:265-285 | So a checkpoint then has every tag of an upgrader, none of a downgrader, and of all others those it had |
| `CheckpointMigration.MigrationIsIdempotent` | gem5/util/cpt_upgrader.py:265-283 | After a completed migration there is nothing left to apply |
| `CheckpointMigration.AppliedInOrder` | gem5/util/cpt_upgrader.py:153-157 | For every order of enumeration nothing is applied twice, and everything only after each of its dependencies was applied, unless the checkpoint had it from the start |
| `CheckpointMigration.AppliedTags` | gem5/util/cpt_upgrader.py:265-279 | What is applied is exactly what was to be applied, except the tags reported as impossible |
| `CheckpointMigration.MigratedTags` | gem5/util/cpt_upgrader.py:265-279 | Completed or aborted, the migration has added exactly the upgrade tags and removed exactly the downgrade tags that were to be applied and are not reported as impossible |
| `CheckpointMigration.BlockedStays` | gem5/util/cpt_upgrader.py:265-273 | Missing upgrades each of which depends on another one of them are never applied and are all reported, whatever downgraders do |
| `CheckpointMigration.StuckIsLargestBlocked` | gem5/util/cpt_upgrader.py:269-273 | Where nothing to be applied depends on a downgrader, the reported tags are the largest set to be applied in which each tag depends on another one of the set |
| `CheckpointMigration.AbortsExactlyOnCycle` | gem5/util/cpt_upgrader.py:265-279 | With audited dependencies, and where nothing to be applied depends on a downgrader, the migration aborts if and only if the dependencies among the tags to be applied have a cycle |
| `CheckpointMigration.CycleCriterionExactlyWhen` | gem5/util/cpt_upgrader.py:56-61 | An audited registry aborts exactly on cycles, on all checkpoints, if and only if no tag depends on a downgrader, but for upgrades that depend on themselves |
| `CheckpointMigration.DocumentedReadyExactlyWhen` | gem5/util/cpt_upgrader.py:56-61 | The header promises that a dependency on a downgrader waits for its removal; the code asks for presence, and the two agree on all checkpoints exactly for tags that depend on no downgrader |
| `ReorderWindow.Viewer.PrintItem` | gem5/util/o3-pipeview.py:250-277 | Prints an instruction exactly if it lies in the region of interest |
| `ReorderWindow.Viewer.PrintInsts` | gem5/util/o3-pipeview.py:231-277 | Sorts the queue stably and lets out all but the given number of largest instructions |
| `ReorderWindow.Viewer.QueueInst` | gem5/util/o3-pipeview.py:212-227 | Queues an instruction and flushes exactly when the queue exceeds the upper threshold |
| `ReorderWindow.Viewer.SkipLines` | gem5/util/o3-pipeview.py:94-124 | Finds the first fetch of the region of interest |
| `ReorderWindow.Viewer.ProcessTrace` | gem5/util/o3-pipeview.py:94-207 | What is printed over a whole trace, from skipping to the region of interest to the early stop, with store completions, is the filtered output of the window fed with the retired instructions |
| `ReorderWindow.Viewer.ProcessEvent` | gem5/util/o3-pipeview.py:154-207 | One line of the trace: updates the current instruction, and queues it when it retires |
| `ReorderWindow.SkippedIsNotShown` | gem5/util/o3-pipeview.py:94-124 | Every instruction whose retirement is skipped would not have been printed |
| `TraceReading.SkipMeaning` | gem5/util/o3-pipeview.py:94-124 | Reading starts with the first fetch at or after the first line that reaches the starting tick, or the first fetch that reaches the starting number, or the first line |
| `TraceReading.ArrivalMeaning` | gem5/util/o3-pipeview.py:154-196 | As many instructions arrive as are retired before the first fetch beyond the stops; the one retired at a line is at the place given by the retirements before it, and holds the tick of that line, number, tick, counters and text of the last fetch, a mark for every retirement at tick 0 since, and the last tick of every stage |
| `TraceReading.PrintedExactlyWhen` | gem5/util/o3-pipeview.py:246-277 | An instruction is printed if and only if it arrives and no bound that is set excludes it, as often as it arrives |
| `ReorderWindow.SortSorts` | gem5/util/o3-pipeview.py:242 | The sort is a sorted permutation |
| `ReorderWindow.SortIsStable` | gem5/util/o3-pipeview.py:242 | Instructions of equal number keep their order |
| `ReorderWindow.OutputIsPermutation` | gem5/util/o3-pipeview.py:212-277 | For every order of arrival each instruction comes out exactly once |
| `ReorderWindow.QueueLength` | gem5/util/o3-pipeview.py:217-227 | How many instructions are queued and how many have come out depends on the number of arrivals only, in closed form, for every order of arrival |
| `ReorderWindow.WindowSorted` | gem5/util/o3-pipeview.py:212-277 | As long as arrivals are in time, what has come out followed by the sorted queue is the stable sort of all arrivals, cut where the last flush cut |
| `ReorderWindow.LateShows` | gem5/util/o3-pipeview.py:45-50 | The first arrival that is late makes the output unsorted |
| `ReorderWindow.SortedExactlyWhenInTime` | gem5/util/o3-pipeview.py:45-50 | The output over all flushes is sorted if and only if no arrival has more than the lower threshold of larger instructions among those seen at the last flush; it is then the stable sort of the arrivals |
| `ReorderWindow.BoundedDisorderSuffices` | gem5/util/o3-pipeview.py:45-50 | Under the documented assumption, for any two thresholds, the printed instructions are the sorted and filtered arrivals, nothing lost or repeated |
| `TrafficGeneration.TrafficGenerator.constructor` | traffic_generator/traffic_generator/traffic_generator.hpp:26-32 | A generator whose trace is empty and whose cursors are where the tensors start; the output may share its cursor with an input |
| `TrafficGeneration.TrafficGenerator.PushBurst` | traffic_generator/traffic_generator/traffic_generator.hpp:66-100 | The records of `n` transfers, laid out end to end, with the cursor behind the last one |
| `TrafficGeneration.TrafficGenerator.UnicastRead` | traffic_generator/traffic_generator/traffic_generator.hpp:66-82 | Appends exactly one read operation: its records, its cursor movement, and no other cursor moved |
| `TrafficGeneration.TrafficGenerator.UnicastWrite` | traffic_generator/traffic_generator/traffic_generator.hpp:84-100 | The same for a write |
| `TrafficGeneration.TrafficGenerator.PushBroadcast` | traffic_generator/traffic_generator/traffic_generator.hpp:102-131 | One broadcast record followed by a SYNC for every processing element but the first; the cursor moves by one tile |
| `TrafficGeneration.TrafficGenerator.BroadcastRead` | traffic_generator/traffic_generator/traffic_generator.hpp:102-131 | Appends exactly one broadcast operation |
| `TrafficGeneration.TrafficGenerator.RunCompute` | traffic_generator/traffic_generator/traffic_generator.hpp:133-148 | Appends one computation per processing element, and moves no cursor |
| `TrafficGeneration.TrafficGenerator.GeneratedTrace` | traffic_generator/traffic_generator/traffic_generator.hpp:13 | After any of the nine generators the list of records is well formed: existing processing elements, SYNCs that keep up with broadcasts, and every tensor transferred end to end from its first address to where its cursor is now |
| `TrafficGeneration.GeneratedWeightTraces` | traffic_generator/traffic_generator/traffic_generator.hpp:196-608 | The lists of three generators that ran the plain, reduced and fused weight-stationary form of one convolution are identical but for the records of biases and normalisation parameters |
| `TrafficGeneration.GeneratedOutputTraces` | traffic_generator/traffic_generator/traffic_generator.hpp:233-694 | The same for the output-stationary forms |
| `TrafficGeneration.TrafficGenerator.GenerateElementWise` | traffic_generator/traffic_generator/traffic_generator.hpp:152-193 | Issues exactly the element-wise schedule |
| `TrafficGeneration.TrafficGenerator.GenerateConvWeightStationary` | traffic_generator/traffic_generator/traffic_generator.hpp:196-230 | Issues exactly the weight-stationary schedule, bias read in every round |
| `TrafficGeneration.TrafficGenerator.GenerateConvOutputStationary` | traffic_generator/traffic_generator/traffic_generator.hpp:233-289 | Issues exactly the output-stationary schedule, bias read for every output channel |
| `TrafficGeneration.TrafficGenerator.GenerateBatchnorm` | traffic_generator/traffic_generator/traffic_generator.hpp:293-409 | Issues exactly the batch normalisation schedule of the branch that the split selects, and nothing if no branch does |
| `TrafficGeneration.TrafficGenerator.GenerateConvWeightReduction` | traffic_generator/traffic_generator/traffic_generator.hpp:413-455 | Issues the weight-stationary schedule with the bias broadcast once |
| `TrafficGeneration.TrafficGenerator.GenerateConvOutputReduction` | traffic_generator/traffic_generator/traffic_generator.hpp:457-517 | Issues the output-stationary schedule with the bias broadcast once |
| `TrafficGeneration.TrafficGenerator.GenerateBatchnormReduction` | traffic_generator/traffic_generator/traffic_generator.hpp:519-562 | Issues the batch normalisation schedule with the parameters broadcast once |
| `TrafficGeneration.TrafficGenerator.GenerateConvBatchnormWeight` | traffic_generator/traffic_generator/traffic_generator.hpp:564-608 | Issues the weight-stationary schedule with bias and normalisation parameters fused in |
| `TrafficGeneration.TrafficGenerator.GenerateConvBatchnormOutput` | traffic_generator/traffic_generator/traffic_generator.hpp:610-694 | Issues the output-stationary schedule with bias and normalisation parameters fused in |
| `TrafficTrace.EraseTrace` | traffic_generator/traffic_generator/traffic_generator.hpp:66-148 | Erasing the records of some tensors from a trace leaves the trace of the other operations: cursors of different tensors never influence each other |
| `TrafficTrace.TraceEndToEnd` | traffic_generator/traffic_generator/traffic_generator.hpp:66-131 | In every trace each record for a tensor starts where the previous one ended, from the tensor's address to its final cursor |
| `TrafficTrace.EmitRecords` | traffic_generator/traffic_generator/traffic_generator.hpp:66-148 | The records of each operation, field by field |
| `TrafficProperties.TraceOnMachine` | traffic_generator/traffic_generator/traffic_generator.hpp:66-148 | Every record comes from an existing processing element |
| `TrafficProperties.TraceKeepsUp` | traffic_generator/traffic_generator/traffic_generator.hpp:102-131 | At every prefix of every trace each processing element but the first is at most one SYNC behind the broadcasts, and level at the end |
| `TrafficProperties.TraceWork` | traffic_generator/traffic_generator/traffic_generator.hpp:133-148 | The computations in a trace are those its operations ask for |
| `TrafficProperties.TraceTiling` | traffic_generator/traffic_generator/traffic_generator.hpp:66-131 | What a trace transfers of a tensor is one gapless row of tiles, as many as the operations ask for |
| `TrafficSchedules.WeightTracesAgree` | traffic_generator/traffic_generator/traffic_generator.hpp:196-230 | Without the bias and normalisation records and their SYNCs, the plain, reduced (413-455) and fused (564-608) weight-stationary traces are identical record for record, addresses included |
| `TrafficSchedules.OutputTracesAgree` | traffic_generator/traffic_generator/traffic_generator.hpp:233-289 | The same for the plain, reduced (457-517) and fused (610-694) output-stationary traces, including the fused remainder that reads a normalisation parameter as bias |
| `TrafficSchedules.WeightTotals` | traffic_generator/traffic_generator/traffic_generator.hpp:196-230 | Any quantity that adds up over the operations of a weight-stationary schedule, from its value on single operations |
| `TrafficSchedules.OutputTotals` | traffic_generator/traffic_generator/traffic_generator.hpp:233-289 | The same for output-stationary schedules |
| `TrafficSchedules.WeightConvolutionWork` | traffic_generator/traffic_generator/traffic_generator.hpp:196-230 | Weight-stationary convolution, plain or reduced, issues C * (K - K mod numPE) * H * W computations |
| `TrafficSchedules.OutputConvolutionWork` | traffic_generator/traffic_generator/traffic_generator.hpp:233-289 | Output-stationary convolution, plain or reduced, issues C * K * H * W computations for every number of processing elements |
| `TrafficSchedules.FusedConvolutionWork` | traffic_generator/traffic_generator/traffic_generator.hpp:564-694 | Fusing a batch normalisation adds no computation to either dataflow |
| `TrafficSchedules.DataflowsAgreeExactlyWhen` | traffic_generator/traffic_generator/traffic_generator.hpp:196-289 | The two dataflows do equal work if and only if numPE divides K |
| `TrafficCoverage.BatchnormTracesAgree` | traffic_generator/traffic_generator/traffic_generator.hpp:519-562 | When only C is split, or C, H and W all are, plain (305-377) and reduced batch normalisation read the same input extents and write the same output extents: exactly C * H * W contiguous tiles once each, with as many computations |
| `TrafficCoverage.BatchnormCoversExactlyWhen` | traffic_generator/traffic_generator/traffic_generator.hpp:293-409 | For any number of parts, plain batch normalisation covers them exactly once if and only if they are the split tiles where C is split alone or with both H and W, numPE divides them where C is whole, and there are none in the unhandled split |
| `TrafficCoverage.ElementWiseCoversExactlyWhen` | traffic_generator/traffic_generator/traffic_generator.hpp:152-193 | An element-wise operator with its own output covers its parts exactly once if and only if numPE divides them |
| `TrafficCoverage.CoversExactlyWhen` | traffic_generator/traffic_generator/traffic_generator.hpp:293-409 | Tiles of one size are covered exactly once if and only if reads, computations and writes each count to the number of parts |
| `TrafficCoverage.WeightTracesWellFormed` | traffic_generator/traffic_generator/traffic_generator.hpp:196-230 | The plain, reduced and fused weight-stationary traces are well formed: existing processing elements, synchronised, end to end per tensor |
| `TrafficCoverage.OutputTracesWellFormed` | traffic_generator/traffic_generator/traffic_generator.hpp:233-289 | The same for the three output-stationary traces |
| `TrafficCoverage.ElementWiseWellFormed` | traffic_generator/traffic_generator/traffic_generator.hpp:152-193 | The same for element-wise traces, also when the output shares the first input's cursor |
| `TrafficCoverage.BatchnormTracesWellFormed` | traffic_generator/traffic_generator/traffic_generator.hpp:293-409 | The same for plain and reduced batch normalisation, in every branch |
| `TrafficCoverage.ScheduleWellFormed` | traffic_generator/traffic_generator/traffic_generator.hpp:152-694 | The same for all nine schedules at once |
| `TrafficConservation.WeightTileCounts` | traffic_generator/traffic_generator/traffic_generator.hpp:196-230 | How many tiles of input, weight and output a weight-stationary convolution transfers, with any bias or parameter reads: every round of output channels reads the whole input again, and writes once per channel |
| `TrafficConservation.OutputTileCounts` | traffic_generator/traffic_generator/traffic_generator.hpp:233-289 | The same for an output-stationary convolution: one read of the input, one of the weight per round of tiles, one write per processing element |
| `TrafficConservation.WeightCoversExactlyWhen` | traffic_generator/traffic_generator/traffic_generator.hpp:196-608 | A weight-stationary convolution, in any of its three forms, reads the input once if and only if there is one round of output channels, the weight once if and only if numPE divides K, and writes the output once if and only if numPE divides K and there is one channel |
| `TrafficConservation.OutputCoversExactlyWhen` | traffic_generator/traffic_generator/traffic_generator.hpp:233-694 | An output-stationary convolution always reads the input exactly once, the weight if and only if one round does all tiles, and writes the output exactly once if and only if it has as many tiles as there are processing elements |
| `TrafficConservation.FusedSurplus` | traffic_generator/traffic_generator/traffic_generator.hpp:610-694 | With six inputs the remainder round takes the first normalisation parameter for a bias and reads it once more per channel, output channel and processing element |
| `TrafficConservation.FusedParametersExactlyWhen` | traffic_generator/traffic_generator/traffic_generator.hpp:610-694 | With six inputs the first two normalisation parameters are read equally often if and only if numPE divides H * W or there are no channels |
| `TrafficConservation.FusedParameterInstance` | traffic_generator/traffic_generator/traffic_generator.hpp:655-686 | An instance: one tile on two processing elements reads one parameter four times and the other twice |
| `TrafficConservation.SharedReadsExactlyWhen` | traffic_generator/traffic_generator/traffic_generator.hpp:152-193 | Where the output shares its input's cursor, the reads of an element-wise operator form one gapless row if and only if the tiles are empty, there is nothing to do, or one full round does it |
| `TrafficConservation.SharedReadsInstance` | traffic_generator/traffic_generator/traffic_generator.hpp:152-193 | An instance: the second of two reads skips the place where the first result is written |
| `TrafficConservation.WeightTransfers` | traffic_generator/traffic_generator/traffic_generator.hpp:196-608 | Weight-stationary convolutions write nothing but output tiles to the output and read nothing but tiles of inputs, each of its own size |
| `TrafficConservation.OutputTransfers` | traffic_generator/traffic_generator/traffic_generator.hpp:233-694 | So do output-stationary ones, but for the aggregated bias, which is broadcast in its original size |
| `TrafficConservation.ElementTransfers` | traffic_generator/traffic_generator/traffic_generator.hpp:152-409 | So do element-wise operators and batch normalisation |
| `TrafficConservation.AggregatedTransfers` | traffic_generator/traffic_generator/traffic_generator.hpp:519-562 | So does batch normalisation with aggregated parameters, which are broadcast in their original sizes |
| `TrafficConservation.OutputBiasTotal` | traffic_generator/traffic_generator/traffic_generator.hpp:233-289 | How many bias tiles an output-stationary convolution reads |
| `TrafficConservation.AggregatedBiasTotal` | traffic_generator/traffic_generator/traffic_generator.hpp:457-517 | Aggregated, one broadcast, and the remainder round of every channel |
| `TrafficOrder.TraceWithin` | traffic_generator/traffic_generator/traffic_generator.hpp:66-148 | Bounds on how far one kind of record runs ahead of another, once they hold between operations, hold at every single record |
| `WeightOrder.WeightTilesInOrder` | traffic_generator/traffic_generator/traffic_generator.hpp:213-228 | At every point of every weight-stationary trace (also 413-455 and 564-608), each processing element has computed once for each input tile broadcast but possibly the last, and written once for each computation but possibly the last; in the end all are equal |
| `WeightOrder.WeightsInOrder` | traffic_generator/traffic_generator/traffic_generator.hpp:208-228 | Each weight tile is read before the H * W input tiles and computations it serves, and serves all of them before the next is read |
| `WeightOrder.WeightBiasInOrder` | traffic_generator/traffic_generator/traffic_generator.hpp:202-228 | Each bias tile is read before all computations of its round |
| `WeightOrder.WeightBiasAtOnce` | traffic_generator/traffic_generator/traffic_generator.hpp:413-455 | Aggregated, the bias is broadcast before all computations |
| `WeightOrder.FusedWeightParametersInOrder` | traffic_generator/traffic_generator/traffic_generator.hpp:564-608 | Every parameter of a fused normalisation is read before all computations of its round |
| `OutputOrder.InputsInOrder` | traffic_generator/traffic_generator/traffic_generator.hpp:241-285 | In every output-stationary trace (also 457-517 and 610-694) each input tile serves K computations of the processing element that has read it, before it reads the next |
| `OutputOrder.WeightsFirst` | traffic_generator/traffic_generator/traffic_generator.hpp:246-285 | No processing element ever has computed more often than weight tiles were broadcast; one that takes part in every round computes exactly once for each before the next |
| `OutputOrder.OutputBiasInOrder` | traffic_generator/traffic_generator/traffic_generator.hpp:246-285 | Nor more often than it has read a bias tile |
| `OutputOrder.OutputBiasAtOnce` | traffic_generator/traffic_generator/traffic_generator.hpp:457-517 | Aggregated, the bias is broadcast before all computations |
| `OutputOrder.FusedOutputParametersInOrder` | traffic_generator/traffic_generator/traffic_generator.hpp:610-694 | Nor more often than it has read each parameter of a fused normalisation |
| `OutputOrder.OutputWritesLast` | traffic_generator/traffic_generator/traffic_generator.hpp:287-289 | Nothing but writes follows the first write, and each processing element writes once |
| `ElementOrder.ElementWiseInOrder` | traffic_generator/traffic_generator/traffic_generator.hpp:152-193 | Each processing element reads each input once before each computation and writes before it reads again; every read is used if and only if numPE divides the parts or the processing element takes part in the last round |
| `ElementOrder.BatchnormInOrder` | traffic_generator/traffic_generator/traffic_generator.hpp:293-409 | The same for the first input of batch normalisation, in every branch |
| `ElementOrder.BatchnormReductionInOrder` | traffic_generator/traffic_generator/traffic_generator.hpp:519-562 | With aggregated parameters every read is used |
| `ElementOrder.SplitParametersInOrder` | traffic_generator/traffic_generator/traffic_generator.hpp:310-341 | Where only C is split, each parameter is read or broadcast once before each computation |
| `ElementOrder.ChannelParametersInOrder` | traffic_generator/traffic_generator/traffic_generator.hpp:343-377 | Where all dimensions are split, each parameter is broadcast before the tiles of its channel and serves exactly these |
| `ElementOrder.UnsplitParametersInOrder` | traffic_generator/traffic_generator/traffic_generator.hpp:379-408 | Where C is whole, each parameter is broadcast before all computations |
| `ElementOrder.AggregatedParametersInOrder` | traffic_generator/traffic_generator/traffic_generator.hpp:519-562 | So it is with aggregated parameters |
| `GeneratorOrder.WeightListInOrder` | traffic_generator/traffic_generator/traffic_generator.hpp:196-608 | In the list left by any weight-stationary generator, at every point a processing element has written no more than it has computed, and computed no more than input tiles were broadcast, with equality in the end |
| `GeneratorOrder.OutputListInOrder` | traffic_generator/traffic_generator/traffic_generator.hpp:233-694 | In the list left by any output-stationary generator nothing but writes follows the first write |
| `GeneratorOrder.ElementListInOrder` | traffic_generator/traffic_generator/traffic_generator.hpp:152-562 | In the list left by an element-wise or normalising generator a processing element never has written more than it has computed, nor computed more than it has read |
| `MemoryTable.PickFirst` | mem/python/allocation_policies/first_fit.py:1-11 | The first free block that is large enough, or -1 exactly if there is none |
| `MemoryTable.PickBest` | mem/python/allocation_policies/best_fit.py:1-15 | The first of the smallest free blocks that are large enough, or -1 exactly if there is none |
| `MemoryTable.MemTable.constructor` | mem/python/mem_table.py:4-7 | One free block that covers the memory, of any size; the invariant holds for positive sizes |
| `MemoryTable.MemTable.GetBlkIdx` | mem/python/allocation_policies/policy.py:3-12 | The choice of the policy that is set: the first free block that fits or the first of the smallest, and -1 only if there is none |
| `MemoryTable.MemTable.Allocate` | mem/python/mem_table.py:15-32 | Takes the tensor from the start of the block that the policy chooses, or leaves the table alone and reports that there is none; keeps the invariant for positive sizes, and the blocks within the memory for all |
| `MemoryTable.MemTable.TakeFrom` | mem/python/mem_table.py:21-32 | Takes the tensor from the start of the given block, which it uses up or shortens |
| `MemoryTable.MemTable.Deallocate` | mem/python/mem_table.py:34-76 | The table and answer of the deallocation, including the failure on a table of one block; keeps the invariant in every case |
| `MemoryTable.DeallocatedExactlyWhen` | mem/python/mem_table.py:34-76 | A deallocation succeeds if and only if a block of a table of several carries the name, crashes on a table of one that does, and otherwise reports that there is none and changes nothing |
| `MemoryTable.MemTable.FreeBlock` | mem/python/mem_table.py:48-71 | Frees a block in place and merges both neighbours by value |
| `MemoryTable.Find` | mem/python/mem_table.py:46-47 | The first block that carries the name |
| `MemoryTable.RemovesExactly` | mem/python/mem_table.py:56 | Removing by value removes the intended position if no earlier block is equal |
| `MemoryTable.MergesNext` | mem/python/mem_table.py:65-67 | In every tiled table, removal by value takes out exactly the next block |
| `MemoryTable.MergesPrevious` | mem/python/mem_table.py:68-71 | In every tiled table, removal by value takes out exactly the previous block |
| `MemoryTable.ReleaseCoalesces` | mem/python/mem_table.py:48-71 | All three branches amount to one: the block and its free neighbours become one free block of their joint extent, nothing else changes |
| `MemoryTable.AllocationKeepsInv` | mem/python/mem_table.py:21-32 | Allocating from a fitting block keeps the tiling and coalescing invariant if and only if the size is positive |
| `MemoryTable.ReleaseKeepsInv` | mem/python/mem_table.py:45-73 | Freeing any block keeps the invariant |
| `MemoryTable.RunKeepsInv` | mem/python/mem_table.py:15-76 | In every run of allocations and deallocations under any names and any policy, the blocks tile the memory with positive sizes and no two neighbours are free |
| `MemoryTable.OthersStay` | mem/python/mem_table.py:45-73 | Freeing a block leaves every other allocated block in the table |
| `MemoryTable.FreeUndoesAllocExactlyWhen` | mem/python/mem_table.py:15-76 | Deallocating a fresh allocation restores the exact block list if and only if no earlier block carries the name, used or left over, and the tensor does not fill a one-block table |
| `MemoryTable.StaleNameLeaks` | mem/python/mem_table.py:48-50 | A run of two allocations and a deallocation reaches a table in which, after one more allocation, the name left over on a free block makes a successful deallocation free nothing |
| `TensorPlacement.ComputeSize` | mem/python/utils.py:58-62 | The product of the dimensions times the element size |
| `TensorPlacement.SizeMeaning` | mem/python/utils.py:27-35 | The product of the dimensions for int8, four times it for int32 and float32, eight times it for float64 |
| `TensorPlacement.PointerPicked` | mem/python/utils.py:58-69 | When nothing is freed every policy has to pick the block at the bump pointer, and fails exactly if what is left is too small |
| `TensorPlacement.PointerMoves` | mem/python/utils.py:58-69 | Allocating there moves the pointer by the tensor's size |
| `TensorPlacement.PlaceOne` | mem/python/utils.py:63-69 | A tensor is placed at the pointer, or does not fit behind it |
| `TensorPlacement.PlaceNext` | mem/python/utils.py:57-98 | One step of the placement |
| `TensorPlacement.PlaceTensors` | mem/python/utils.py:54-98 | Placement refines a bump pointer, whatever the policy, the memory and the dimensions: it succeeds exactly if each tensor fits behind the earlier ones while the memory is not used up; every tensor, or the last of its name, is then recorded with its size in bytes and the sum of the earlier sizes as its address; unknown types and policies are reported |
| `TensorPlacement.InfoRecords` | mem/python/utils.py:57-98 | What is recorded is this and nothing else |
| `TensorPlacement.FittingExactlyWhen` | mem/python/utils.py:54-98 | For positive dimensions this is the case if and only if the sizes together fit |
| `TensorPlacement.PlacedApart` | mem/python/utils.py:54-98 | Placed tensors are disjoint, in order, and within the memory |
| `TensorPlacement.InfoOf` | mem/python/utils.py:57-98 | With different names every tensor is recorded with its own address and size |
| `DesignSpace.CellMeaning` | DSE/design_space.py:36-49 | The table entry lists a tuple if and only if it is an ordered factorisation of the value into that many positive numbers |
| `DesignSpace.CellDistinct` | DSE/design_space.py:36-49 | The table entry lists nothing twice |
| `DesignSpace.FillCell` | DSE/design_space.py:44-48 | Fills one entry from the row below and changes no other |
| `DesignSpace.GetAllCombinations` | DSE/design_space.py:37-49 | Returns the entry and its length |
| `DesignSpace.SecondsAreDivisors` | DSE/design_space.py:51-59 | For pairs, the second factors are exactly the divisors, strictly ascending |
| `DesignSpace.KernelMatching` | DSE/design_space.py:51-59 | Offers all divisors of the dimension, ascending |
| `DesignSpace.MatchShape` | DSE/design_space.py:112-116 | One list of divisors per dimension, and a key error exactly for more than four dimensions, or any at all while no supported type is known |
| `DesignSpace.MatchGroup` | DSE/design_space.py:108-116 | The same for all tensors not named as biases |
| `DesignSpace.MatchGroups` | DSE/design_space.py:105-116 | The same for all groups of an operator |
| `DesignSpace.GetDesignPoint` | DSE/design_space.py:94-117 | The design point of the description's entries in their order |
| `DesignSpace.PointExactlyWhen` | DSE/design_space.py:94-117 | There is one if and only if every type is supported and no operator has more dimensions than the type known so far allows |
| `DesignSpace.TypeFirst` | DSE/design_space.py:94-117 | With the type first: the divisors of every dimension of every tensor but biases, in order; the type alone if it is unsupported; a key error beyond four dimensions |
| `DesignSpace.SupportedTypes` | DSE/design_space.py:99-102 | Five operator types are supported |
| `DesignSpace.BiasMeaning` | DSE/design_space.py:109-110 | A tensor is passed over if and only if "bias" occurs in its name |
| `DesignSpace.OrderMattersExactlyWhen` | DSE/design_space.py:98-116 | The type may as well come last if and only if the tensors have no dimension at all, or too many for either order |
| `GeneticSearch.Encode` | DSE/GA.py:259-284 | Drops the weight's channel dimension and pins to 1 exactly the positions that the dataflow fixes |
| `GeneticSearch.EncodedConvolution` | DSE/GA.py:259-272 | For eight dimensions of a convolution, the exact space of each dataflow |
| `GeneticSearch.EncodedMeaning` | DSE/GA.py:259-284 | For any number of dimensions and any operator, which are kept and which are pinned to 1 |
| `GeneticSearch.EncodedLength` | DSE/GA.py:259-284 | And how many there are |
| `GeneticSearch.InitIndividual` | DSE/MOGA.py:252-253 | Every choice gives an individual of the space |
| `GeneticSearch.CustomMutate` | DSE/MOGA.py:255-259 | Every mutation stays in the space |
| `GeneticSearch.ExchangeKeepsGenes` | DSE/MOGA.py:296 | A two-point crossover keeps, position by position, the two genes the parents hold there |
| `GeneticSearch.Mate` | DSE/MOGA.py:296 | Some segment is exchanged, and both children stay in the space |
| `GeneticSearch.Select` | DSE/MOGA.py:299 | As many members of the population as there are |
| `GeneticSearch.NextGeneration` | DSE/MOGA.py:308-327 | Every next generation has the same size and stays in the space |
| `GeneticSearch.Run` | DSE/MOGA.py:302-328 | The same for all generations of every run |
| `GeneticSearch.EncodedDivides` | DSE/GA.py:259-284 | For a convolution with four-dimensional input and weight, each of the seven positions offers at least one value and only divisors of its dimension, under every dataflow |
| `GeneticSearch.ExportedTilesDivide` | DSE/GA.py:171-182 | Every individual of the space exports input tiles that divide the input, weight tiles that divide the weight, and one common channel tile |
| `GeneticSearch.ConvLayerOf` | DSE/design_space.py:94-117 | The type of a convolution followed by a group of an input, a weight and any tensors named as biases is such a convolution |
| `GeneticSearch.SearchLayer` | DSE/MOGA.py:276-328 | In every generation of every search on such a layer the population size is constant and every exported split is legal |
| `MessageFraming.EncodeVarint32` | gem5/util/protolib.py:147-159 | Writes the base 128 digits, lowest first, all but the last with the top bit set |
| `MessageFraming.VarintMeaning` | gem5/util/protolib.py:147-159 | These are the digits of the number, without a leading zero |
| `MessageFraming.NarrowMeaning` | gem5/util/protolib.py:119-124 | A decoded number is congruent to the digits modulo 2^32, not negative up to 63 bits and negative above |
| `MessageFraming.DecodeVarint32` | gem5/util/protolib.py:100-128 | Decodes the front of the file and consumes exactly the bytes it used; end of file and overlong input are told apart |
| `MessageFraming.DecodeReads` | gem5/util/protolib.py:112-128 | Any input is decoded from at most ten bytes, never past the end |
| `MessageFraming.DecodeVarint` | gem5/util/protolib.py:100-128 | Decoding an encoded number gives it back, cut to 32 bits or sign-extended, and uses exactly its bytes, if and only if it has at most 70 bits |
| `MessageFraming.EncodeMessage` | gem5/util/protolib.py:162-168 | Writes one frame |
| `MessageFraming.DecodeMessage` | gem5/util/protolib.py:131-144 | Reads one frame, or nothing at the end of the file, at length zero or at an overlong length; fails at a negative length other than -1 |
| `MessageFraming.WriteAll` | gem5/util/protolib.py:162-168 | Frames back to back |
| `MessageFraming.ReadAll` | gem5/util/protolib.py:131-144 | Reads messages until none comes or reading fails, and terminates |
| `MessageFraming.NextFrame` | gem5/util/protolib.py:131-168 | What becomes of a frame of every length: read back, swallowed together with the rest of the file, or lost |
| `MessageFraming.InFile.Read` | gem5/util/protolib.py:131-144 | The given number of bytes or what is left, everything for -1, and an error below |
| `MessageFraming.RoundTripExactlyWhen` | gem5/util/protolib.py:100-168 | Messages written back to back are read back unchanged and without error if and only if none is empty and all are shorter than 2^32 bytes, but for a last one whose length has 64 to 70 bits and is 2^32 - 1 modulo 2^32 |
| `DependencyTrace.WriteDeps` | gem5/util/decode_inst_dep_trace.py:199-212 | A comma and a number for each dependency |
| `DependencyTrace.PrintRecord` | gem5/util/decode_inst_dep_trace.py:163-214 | Writes one record's line field by field, or stops at an unknown type |
| `DependencyTrace.PrintedLine` | gem5/util/decode_inst_dep_trace.py:163-214 | The line of a record as text, with 0 and 1 for a missing pc and weight, and the names of the types 0 to 3 |
| `DependencyTrace.ReadDeps` | gem5/util/encode_inst_dep_trace.py:192-205 | Collects the non-empty parts |
| `DependencyTrace.ParseLine` | gem5/util/encode_inst_dep_trace.py:156-207 | Parses one line, with signs, underscores and blanks in its numbers, the ranges of the fields and all error cases |
| `Text.ParsesBack` | gem5/util/encode_inst_dep_trace.py:161-163 | Reading a printed number gives the number |
| `DependencyTrace.ParsesInt` | gem5/util/encode_inst_dep_trace.py:161-163 | So does reading it with signs, underscores and blanks allowed |
| `Text.DecMeaning` | gem5/util/decode_inst_dep_trace.py:166-167 | Decimal notation |
| `DependencyTrace.SignedDigits` | gem5/util/encode_inst_dep_trace.py:161-163 | A sign makes a number negative or leaves it alone |
| `DependencyTrace.UnderscoreEnds` | gem5/util/encode_inst_dep_trace.py:161-163 | Underscores at the ends are errors |
| `DependencyTrace.RangeMeaning` | gem5/util/encode_inst_dep_trace.py:161-163 | A field takes exactly the numbers of its 64 or 32 bits |
| `DependencyTrace.StripMeaning` | gem5/util/encode_inst_dep_trace.py:157 | Stripping removes blanks at both ends and nothing else |
| `DependencyTrace.SplitJoin` | gem5/util/encode_inst_dep_trace.py:157-158 | Splitting undoes joining if no part holds the separator |
| `DependencyTrace.ParsesLine` | gem5/util/encode_inst_dep_trace.py:156-207 | Parsing a printed line of any known type restores its dependency lists of any length and parses its fields as a list |
| `DependencyTrace.RoundTripExactlyWhen` | gem5/util/decode_inst_dep_trace.py:163-214 | A record is restored from its line, missing pc and weight as 0 and 1, if and only if loads and stores have all memory fields, computations none, and there is neither a virtual address nor an address space id |
| `CheckpointAggregator.Aggregate` | gem5/util/checkpoint_aggregator.py:57-142 | The merged memory, page count, range, process count, tick and sections of any list of checkpoints, or a failure if and only if there is none or the last one lacks the section of the memory; the tick is the latest of all |
| `CheckpointAggregator.KeptExactlyWhen` | gem5/util/checkpoint_aggregator.py:83-93 | A section that is neither of a CPU nor written anew is merged if and only if the last checkpoint has it |
| `CheckpointAggregator.MergeMemory` | gem5/util/checkpoint_aggregator.py:86-116 | One checkpoint's tick and pages |
| `CheckpointAggregator.MaxTickIsLatest` | gem5/util/checkpoint_aggregator.py:86-88 | The tick is at least 0 and at least every checkpoint's, and is 0 or one of them |
| `CheckpointAggregator.MergedCpuMeaning` | gem5/util/checkpoint_aggregator.py:67-81 | A merged CPU section has all its entries, the number of its checkpoint as process id if and only if it holds file descriptors, and its address behind the pages of the earlier checkpoints |
| `CheckpointAggregator.MergeSection` | gem5/util/checkpoint_aggregator.py:66-93 | Renames and relocates a CPU section, drops the sections written anew, and copies the others of the last checkpoint |
| `CheckpointAggregator.MergeSections` | gem5/util/checkpoint_aggregator.py:66-93 | All sections of one checkpoint |
| `CheckpointAggregator.ReadPages` | gem5/util/checkpoint_aggregator.py:103-113 | The pages claimed, or as much as there is |
| `CheckpointAggregator.PadMemory` | gem5/util/checkpoint_aggregator.py:122-130 | Whole pages of filling up to the requested size |
| `CheckpointAggregator.ContentsLength` | gem5/util/checkpoint_aggregator.py:98-116 | The merged memory is as long as the page count says if and only if every checkpoint holds the pages it claims |
| `CheckpointAggregator.RelocationIsFaithful` | gem5/util/checkpoint_aggregator.py:73-77 | A relocated address finds in the merged memory what the original finds in its checkpoint |
| `CheckpointAggregator.RelocationIsApart` | gem5/util/checkpoint_aggregator.py:73-77 | Relocated addresses of different checkpoints never meet and stay within the merged pages |
| `CheckpointAggregator.PaddingIsLeast` | gem5/util/checkpoint_aggregator.py:122-130 | The filling reaches the requested size with no page to spare |
| `CheckpointAggregator.RangeIsExactlyWhen` | gem5/util/checkpoint_aggregator.py:137-139 | The recorded range is the merged length if and only if every checkpoint holds the pages it claims, and is always at least the requested size |
| `CheckpointAggregator.TagsAgree` | gem5/util/checkpoint_aggregator.py:67-69 | Renamed with tags of one length, CPU sections coincide only under the same tag |
| `CheckpointAggregator.NamesAgree` | gem5/util/checkpoint_aggregator.py:67-69 | Renaming within one checkpoint is injective |
| `CheckpointAggregator.TagsDiffer` | gem5/util/checkpoint_aggregator.py:58 | All checkpoints get different tags of one length |
| `CheckpointAggregator.SectionsStayApart` | gem5/util/checkpoint_aggregator.py:67-69 | No CPU section of the merged checkpoint stands for two sections of the originals |
| `CheckpointAggregator.MergedMember` | gem5/util/checkpoint_aggregator.py:66-93 | The merged checkpoint holds exactly the CPU sections of all checkpoints, renamed and relocated, and the other sections of the last one but `system` and `Globals` |
| `CheckpointAggregator.NoSectionTwice` | gem5/util/checkpoint_aggregator.py:60-96 | If no checkpoint has two sections of one name, neither has the merged one |
| `CheckpointAggregator.CpuSectionsPreserved` | gem5/util/checkpoint_aggregator.py:66-78 | Every CPU section is found again under its new name, and its new address finds the old contents |

## Left out

- Files, JSON, gzip, protobuf messages and configuration parsing: files are byte, page, section or record sequences, and a message is its bytes.
- Fixed-width overflow of counters, addresses and sizes in the traffic generator, and the rounding of its division in double precision: integers are unbounded.
- BindPorts: any permutation stands for `sorted`, so the results hold for every order (`Sorted` is the source's); setting the attributes of the bound objects is left out.
- Register: a tag registered first as an upgrader and then as a downgrader, or the other way round, which the source keeps in both sets, is not modelled.
- ResolveDependencies: the linking of legacy versions, and the conversion of version numbers to tags, come before it and are left out.
- ProcessTrace: the header, the reading of lines and the printed form of an instruction are left out; a line is an event.
- SkippedIsNotShown: asks for starts that are not negative, as the command line gives them, and for a trace that starts with a fetch.
- TrafficGeneration.TrafficGenerator.constructor: asks for inputs that are different tensors; an operator with the same tensor as two inputs would move one cursor for both.
- EraseTrace: which tensor a record is issued for is a note of the model (`origin`) that the written trace does not have.
- WeightTracesAgree: asks for an output with its own cursor, as the split of a convolution leaves it, and for at least six inputs of the fused operator.
- OutputTracesAgree: the same.
- BatchnormTracesAgree: asks for an output with its own cursor, as the split of a batch normalisation leaves it.
- BatchnormCoversExactlyWhen: the same.
- WeightCoversExactlyWhen: asks for positive dimensions and an output with its own cursor.
- OutputCoversExactlyWhen: the same.
- WeightsInOrder: asks for the inputs that the operators have: two, three, or six and more when fused; with four or five the last four inputs would include the weight.
- InputsInOrder: the same.
- FusedWeightParametersInOrder: asks for at least six inputs of the fused operator.
- FusedOutputParametersInOrder: the same.
- OutputBiasTotal: asks for three inputs and an output with its own cursor.
- AggregatedBiasTotal: the same.
- Dispatch in `top.cpp`, the `split` and `computeSize` of the operators, and the processing element grid: tile sizes and split factors are parameters.
- PlaceTensors: reading the memory size from a string and writing addresses into the graph are left out.
- SearchLayer: asks for a convolution with a four-dimensional input and weight; the other operators' individuals have no weight part.
- Select: any members of the population stand for the Pareto selection; fitness evaluation and the external simulators are left out.
- NextGeneration: individuals are values, so sharing of an individual between slots is not modelled; the source clones them first.
- InitIndividual: asks that every position offers a choice, since choosing from an empty list is an error; `EncodedDivides` shows it for convolutions.
- DecodeVarint32: shifts and masks of Python integers are written as arithmetic.
- ParseLine: only ASCII blanks and digits are blanks and digits.
- PadMemory: the filling, like the merged configuration, is text written to a file of bytes; here it is its bytes.
- Aggregate: pages and tick are given with a checkpoint, which has the sections that hold them.
