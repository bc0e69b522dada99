# Verified models of the TensorRT-LLM runtime's layout and protocol code

This project models the parts of the repository in which a mistake silently corrupts data: the expert-parallel
exchange between ranks, the multi-node shared-memory allocator, the arithmetic that places ranks in a parallel
topology, the cache of fetched sources, the resharding of fused LoRA weights, and three smaller algorithms. Every
claim is a theorem over all inputs, all schedules or all reachable states of the model.

`dafny verify dfyconfig.toml` checks the whole project.

## What is modelled

* **Expert-parallel exchange** (`ExpertAssignment.dfy`, `Exchange.dfy`, `ExchangeProgress.dfy`, `ExpertParallel.dfy`,
  `SymmetricPool.dfy`). An expert assignment is encoded three ways (bit words of 32 bits with sign, booleans, local ids).
  Every rank runs one dispatch program per token and one combine program per row; programs of a kernel are atomic steps
  in any order, and a barrier ends each phase. `Exchange` is the state machine for any number of rounds with arbitrary
  routings over the same two regions, `ExchangeProgress` counts its steps; `ExpertParallel` shows that the kernels'
  pointer arithmetic performs exactly the writes of its steps, with or without padding tokens. The routing arrays are a
  permutation and its inverse.
* **Multi-node memory allocator** (`MnnvlModel.dfy`, `MnnvlMemory.dfy`). The class has the allocator's own fields and
  follows its code call by call against a driver whose calls may fail at any point. `MnnvlModel` is the same allocator
  on values: events, runs, and what every reachable state satisfies. A failed call is an event too.
* **Parallel topology** (`Grid.dfy`, `Topology.dfy`, `RankGroups.dfy`, `PipelineLayers.dfy`). How sizes are resolved and
  accepted, ranks and coordinates, ring moves, six families of rank groups, the Helix reinterpretation, and the split of
  layers over pipeline stages with its inverse.
* **Fetch cache** (`FetchCache.dfy`, `LfsPool.dfy`). Git is a growing set of objects with fixed parents. Writers are
  processes that interleave between git commands, may crash at any point, and whose git commands may fail, the
  connectivity check included; the fetch may bring in anything. The class `Repository` is one writer's code, proved
  against the same notion of connectivity. Large-file ingests interleave in the same way, and an exception that escapes
  one stops its walk.
* **LoRA resharding** (`Tensors.dfy`, `LoraReshard.dfy`), **inheritance search** (`InheritanceSearch.dfy`), **tiled
  reduction** over exact reals (`TiledReduce.dfy`) and **managed blocks** (`ManagedBlock.dfy`).

`Base.dfy` holds results, options, a few facts about division, and Python ranges.

## Where the code does less than it says

* Fused LoRA weights: the docstring promises an interleaving for all parts. `torch.split` gives one chunk for an empty
  part, so `zip` stops after rank 0 and the other ranks' rows are lost. The reordering keeps its rows exactly when every
  part is non-empty, or there is one rank, or there are no rows (`KeepsLengthExactly`, `EmptyPartLosesRows`).
* `reduce` documents masks and scales that are broadcastable. The kernel broadcasts on stride zero only, so a contiguous
  dimension of size one is misread. For given sizes and strides of the tensor, the mask and the scale, the result is right
  for all contents exactly if the tensor is empty or both operands meet a condition on sizes and strides (`SumExactly`);
  for operands as documented, if what is shorter than the tensor has stride zero (`DocumentedExactly`,
  `ContiguousMaskIsMisread`).
* The symmetric pool allocates the plain sum of its region sizes. That reaches the end of the layout exactly when no
  region needed padding (`SumIsEnd`, `PaddedLayoutIsShort`); the layout that is used never does.
* `make_empty` rejects a negative offset only if it reaches below the storage. Otherwise the tensor starts before its
  region; one can lie inside the region before (`OffsetReachesOtherRegion`).
* `convert_ep_to_dp` recomputes the rows per rank from the padded total. Every result has a rank to go to exactly if the
  rank count divides the slots, and goes back to the rank that sent the token exactly if there is no padding, one rank or
  nothing to send (`EverySlotHasPeer`, `ReturnsToSender`).
* `make_expt_assignment` has a range check for expert ids that cannot fire; an unknown id raises `KeyError` first.
* `moe_ep_group`, `moe_cluster_group` and `moe_tp_group` index by the tensor rank only. With context parallelism each
  returns the rank's own group for all ranks exactly under a condition on the sizes (`MoeEpGroupExact`,
  `MoeClusterGroupExact`, `MoeTpGroupExact`); a Helix mapping of four ranks fails all three
  (`ContextRanksMissTheirGroups`).
* `pp_rank_of_layer` skips the checks of `pp_layers` when there is one stage (`SingleStageIsNotChecked`), and accepts
  negative stage sizes (`NegativeStagePasses`).
* The constructor of `Mapping` accepts negative sizes whose products fit (`NegativeSizesAreAccepted`); the results about
  ranks and groups are about positive sizes.
* `to_dict` drops the pipeline partition, so a mapping that can be read back survives the round trip exactly when it has
  none. It cannot be read back exactly when one attention size is zero and the other is the value that stands for a
  missing one (`DictRoundTrip`, `UnreadableIsMade`).
* `open_mnnvl_memory` rolls back failures of the mapping loop only. A failure before it restores the state exactly if no
  range was reserved and no handle lost; a failed export always loses the memory handle (`Open`).
* A connectivity check that fails for a reason of its own prunes a connected tip (`FailedCheckPrunes`), and nothing else
  does (`ConnectedTipIsGoneExactly`).

## Model

| member | source | states |
|---|---|---|
| `ExpertAssignment.MakeExptAssignment` | triton_kernels/distributed.py:208-247 | accepts exactly the dictionaries whose shards are in range and non-empty and that list every expert once; the three encodings agree with the dictionary; otherwise the first offence decides the error |
| `ExpertAssignment.MarkExpert` | triton_kernels/distributed.py:231-234 | setting one bit of a signed 32-bit word and one boolean adds exactly one (shard, expert) pair to what both masks say |
| `ExpertAssignment.MarkEntry` | triton_kernels/distributed.py:227-234 | a shard's list is marked completely and counted, or an expert is out of range |
| `ExpertAssignment.MarkAll` | triton_kernels/distributed.py:215-234 | all entries are marked, or the first bad entry is reported with its error |
| `ExpertAssignment.MakeLocalIds` | triton_kernels/distributed.py:239-244 | each owned expert gets the number of smaller experts of its shard, every other entry stays -1 |
| `ExpertAssignment.OwnerIsUnique` | triton_kernels/distributed.py:235-236 | in an accepted dictionary every expert has exactly one owner |
| `ExpertAssignment.KernelFindsOwner` | triton_kernels/distributed.py:308-310 | the kernel's rank-weighted sum of mask bits is the owner, for every expert |
| `ExpertAssignment.LocalIdsAreDense` | triton_kernels/distributed.py:239-246 | the local ids of a shard are exactly 0..count-1, in increasing expert order, on exactly the marked experts |
| `ExpertAssignment.MakeExptDictUniform` | triton_kernels/distributed.py:177-187 | shard i gets the i-th run of floor(experts/shards) experts |
| `ExpertAssignment.UniformAccepted` | triton_kernels/distributed.py:177-187 | the uniform dictionary is accepted if and only if the shard count divides a positive expert count (or both are zero) |
| `ExpertAssignment.MakeExptDictRandom` | triton_kernels/distributed.py:190-205 | the dictionary cuts the permutation at the sorted points |
| `ExpertAssignment.CutAccepted` | triton_kernels/distributed.py:201-204 | a cut of a permutation is accepted if and only if it reaches the end and no piece is empty |
| `ExpertAssignment.RandomAccepted` | triton_kernels/distributed.py:190-205 | every permutation cut at distinct inner points is accepted |
| `Exchange.DispatchProgramsAreDisjoint` | triton_kernels/distributed.py:300-325 | two dispatch programs, on any ranks, never write the same row of the same rank |
| `Exchange.CombineWriterIsUnique` | triton_kernels/distributed.py:383-407 | every row of every rank is written by exactly one combine program, and that one runs on the owner |
| `Exchange.StepKeepsInv` | triton_kernels/distributed.py:287-439 | every step of every rank, in every round, keeps what the buffers, marks and barriers promise |
| `Exchange.RunKeepsInv` | triton_kernels/distributed.py:287-439 | so does every run of any number of rounds, from arbitrary initial buffers |
| `Exchange.RoundTrip` | triton_kernels/distributed.py:328-439 | from the end of a round until it arrives at the first barrier of the next, a rank holds in each row what the owner computed from the row's own token in that round, for every schedule, every row-wise function and however far ahead the others are |
| `Exchange.DispatchIsDeterministic` | triton_kernels/distributed.py:328-365 | once all ranks have reached the first barrier of a round the expert buffers do not depend on the schedule: routed rows have arrived, all other rows are as the rounds before left them |
| `Exchange.ExchangeIsDeterministic` | triton_kernels/distributed.py:328-439 | any two runs that have finished a round hold the same rows on every rank |
| `Exchange.WhenComputing` | triton_kernels/distributed.py:364-365 | a rank computes only when every row of its round has been sent by every rank, and no row of the next round |
| `Exchange.WhenFinished` | triton_kernels/distributed.py:438-439 | a rank ends a round only when every result of the round has been returned, and none of the next |
| `ExchangeProgress.NoDeadlock` | triton_kernels/distributed.py:364-439 | until all ranks have finished the last round, some step is possible |
| `ExchangeProgress.RunsAreBounded` | triton_kernels/distributed.py:349-439 | no run takes more steps than the programs of all rounds and six moves per rank and round less one, and a run has finished if and only if it took that many |
| `ExchangeProgress.StuckRunsAreDone` | triton_kernels/distributed.py:364-439 | no step is possible if and only if all ranks have finished, so every maximal run finishes |
| `ExpertParallel.RoutingIsValid` | triton_kernels/distributed.py:300-310 | every accepted assignment with every permutation of the slots, padding included, can be dispatched, and combined if and only if the rank count divides the slots |
| `ExpertParallel.EverySlotHasPeer` | triton_kernels/distributed.py:385-390 | the combine kernel finds a rank for every slot if and only if the rank count divides the slots |
| `ExpertParallel.ReturnsToSender` | triton_kernels/distributed.py:341-416 | results go back to the rank and row of the token if and only if there is no padding, one rank, or nothing to send |
| `ExpertParallel.PaddingMisleads` | triton_kernels/distributed.py:385-416 | with padding, the first slot of the second rank goes to the first rank |
| `ExpertParallel.SentToAllSlots` | triton_kernels/distributed.py:300-318 | the places a dispatch program addresses are exactly those of its protocol step |
| `ExpertParallel.ConvertDpToEp` | triton_kernels/distributed.py:287-325 | one dispatch program stores its row in exactly the places of its step and leaves all other rows alone |
| `ExpertParallel.ConvertEpToDp` | triton_kernels/distributed.py:370-407 | one combine program stores its row at the slot's home or, if the rank does not own the expert, nowhere; it stores through a null pointer if and only if it owns the expert and the home does not exist; if every slot has a home, these are the writes of its protocol step |
| `ExpertParallel.StoreRow` | triton_kernels/distributed.py:320-325 | the masked copy in blocks of 512 columns copies the whole row |
| `ExpertParallel.LocateSlot` | triton_kernels/distributed.py:306-317 | the peer and row computed for a slot are the owner and the gate index |
| `ExpertParallel.LocateHome` | triton_kernels/distributed.py:385-400 | the peer and row computed for a result are its home, and there is a peer if and only if its number is below the rank count |
| `ExpertParallel.KernelsAgreeOnOwner` | triton_kernels/distributed.py:308-310 | dispatch's weighted sum and combine's single bit test name the same rank |
| `ExpertParallel.ExchangeRoundTrip` | triton_kernels/distributed.py:328-439 | in terms of the kernels' own indices, after each round each slot's home row holds the owning expert's result for the slot's token |
| `ExpertParallel.RankReceivesItsResults` | triton_kernels/distributed.py:410-439 | without padding, row c of rank q is the result for flat slot q * rows + c, that is for its own token c / n_expt_act |
| `SymmetricPool.AlignUp` | triton_kernels/distributed.py:48-52 | the least multiple of the alignment that is not below the value |
| `SymmetricPool.SumIsEnd` | triton_kernels/distributed.py:132-132 | the plain sum of sizes is at most the end of the layout, and equal to it if and only if nothing was padded |
| `SymmetricPool.PaddedLayoutIsShort` | triton_kernels/distributed.py:132-132 | a layout for which the sum is too small |
| `SymmetricPool.RegionsAreDisjoint` | triton_kernels/distributed.py:54-64 | regions reserved one after the other never overlap |
| `SymmetricPool.RegionsTile` | triton_kernels/distributed.py:54-64 | without padding, each byte of the pool lies in exactly one region |
| `SymmetricPool.MatmulRegionsTile` | triton_kernels/distributed.py:157-171 | the three regions start and end on multiples of 128 and tile the pool for every shape |
| `SymmetricPool.TopkRequestFits` | triton_kernels/distributed.py:157-163 | the first region holds logits, indices and the padded expert bit matrix |
| `SymmetricPool.DispatchRequestFits` | triton_kernels/distributed.py:342-346 | the dispatch driver's buffer fits its region |
| `SymmetricPool.CombineRequestFits` | triton_kernels/distributed.py:416-421 | the combine driver's buffer fits its region when the ranks share the tokens evenly |
| `SymmetricPool.TensorsAreDisjoint` | triton_kernels/distributed.py:99-116 | tensors cut from different regions never overlap |
| `SymmetricPool.ElementAddressIsExact` | triton_kernels/distributed.py:93-116 | the element index handed to torch addresses exactly the computed byte |
| `SymmetricPool.SymmetricMemoryPool.constructor` | triton_kernels/distributed.py:40-46 | an empty, uninitialized pool |
| `SymmetricPool.SymmetricMemoryPool.ReserveRegion` | triton_kernels/distributed.py:54-64 | appends the aligned region and returns its end, or raises and changes nothing |
| `SymmetricPool.SymmetricMemoryPool.Initialize` | triton_kernels/distributed.py:123-140 | sets the size to the sum of the regions once |
| `SymmetricPool.SymmetricMemoryPool.InitializeMatmulOgs` | triton_kernels/distributed.py:142-171 | on a fresh pool lays out three regions that tile exactly the pool's size; on an initialized one does nothing |
| `SymmetricPool.SymmetricMemoryPool.MakeEmpty` | triton_kernels/distributed.py:86-121 | succeeds exactly when its checks pass and the address is not negative, with the exact error otherwise; the tensor starts inside its region if and only if the offset is not negative |
| `SymmetricPool.OffsetReachesOtherRegion` | triton_kernels/distributed.py:86-121 | a negative offset into one region that returns four bytes inside another |
| `MnnvlModel.SegmentsAreDisjoint` | tensorrt_llm/_mnnvl_utils.py:309-322 | segments of live allocations at start + i*stride + offset are pairwise disjoint |
| `MnnvlModel.NewKeyIsFresh` | tensorrt_llm/_mnnvl_utils.py:355-364 | the key of a new allocation is not in the live map |
| `MnnvlModel.OpenedIsSafe` | tensorrt_llm/_mnnvl_utils.py:355-370 | recording an allocation keeps all live segments apart, inside reserved ranges, mapped and counted |
| `MnnvlModel.ClosedIsSafe` | tensorrt_llm/_mnnvl_utils.py:373-392 | so does closing one |
| `MnnvlModel.EventKeepsSafe` | tensorrt_llm/_mnnvl_utils.py:174-392 | so does every event, including every kind of failed open and close |
| `MnnvlModel.RunIsSafe` | tensorrt_llm/_mnnvl_utils.py:174-392 | every state of every run is safe |
| `MnnvlModel.LiveSegmentsNeverOverlap` | tensorrt_llm/_mnnvl_utils.py:309-323 | in every run, with or without failures, different live segments are disjoint |
| `MnnvlModel.LiveSegmentsAreBacked` | tensorrt_llm/_mnnvl_utils.py:309-323 | in every run each live segment lies inside a range that is still reserved and is mapped, with its size, to its own unreleased handle |
| `MnnvlModel.RangeFreedAtLastClose` | tensorrt_llm/_mnnvl_utils.py:383-392 | a range is freed by a close if and only if that was its last live allocation |
| `MnnvlModel.CleanRunIsExact` | tensorrt_llm/_mnnvl_utils.py:355-392 | in runs without failures, reference counts equal live allocations and mappings, handles and ranges are exactly those in use; with nothing live, everything is as in the beginning |
| `MnnvlModel.NothingLiveIsEmpty` | tensorrt_llm/_mnnvl_utils.py:373-392 | closing everything restores the initial state |
| `MnnvlMemory.MnnvlMemory.constructor` | tensorrt_llm/_mnnvl_utils.py:173-187 | an allocator with nothing reserved |
| `MnnvlMemory.MnnvlMemory.Locate` | tensorrt_llm/_mnnvl_utils.py:173-218 | reserves a range of whole pages per rank exactly when the current one is too small; on failure nothing changes |
| `MnnvlMemory.MnnvlMemory.CreateHandle` | tensorrt_llm/_mnnvl_utils.py:220-303 | which handle is lost: none if creating it fails, the new one if exporting it fails, at most the new one if the exchange fails, and none then on a reliable driver |
| `MnnvlMemory.MnnvlMemory.MapOne` | tensorrt_llm/_mnnvl_utils.py:309-323 | one rank's import, map and set-access: what has been imported and mapped is recorded also when a later call fails |
| `MnnvlMemory.MnnvlMemory.MapSegments` | tensorrt_llm/_mnnvl_utils.py:304-323 | the loop maps every rank's segment at its address, or stops with exact records |
| `MnnvlMemory.MnnvlMemory.Undo` | tensorrt_llm/_mnnvl_utils.py:324-353 | unmaps, releases and, for a new range, frees and restores; if all calls succeed only what was there before is left |
| `MnnvlMemory.MnnvlMemory.Record` | tensorrt_llm/_mnnvl_utils.py:355-370 | the new entry, count and offset |
| `MnnvlMemory.MnnvlMemory.Open` | tensorrt_llm/_mnnvl_utils.py:189-370 | every outcome is an event of the model; after a failed mapping loop whose clean-up succeeds the whole state equals the one before the call; after an earlier failure it does if and only if no range was reserved and no handle lost |
| `MnnvlMemory.MnnvlMemory.ReleaseSegments` | tensorrt_llm/_mnnvl_utils.py:379-382 | unmaps and releases each segment once, in order, up to the first failure |
| `MnnvlMemory.MnnvlMemory.DropReference` | tensorrt_llm/_mnnvl_utils.py:383-392 | counts down and frees the range at zero, resetting the current range if it was that one |
| `MnnvlMemory.MnnvlMemory.Close` | tensorrt_llm/_mnnvl_utils.py:372-392 | every outcome is an event of the model; it fails on unknown pointers only, if driver calls do not |
| `MnnvlMemory.Undone` | tensorrt_llm/_mnnvl_utils.py:324-353 | what a clean-up leaves is a rolled-back or aborted open plus exactly what could not be given back |
| `Topology.MadeIsAccepted` | tensorrt_llm/mapping.py:49-217 | what the constructor returns, for any integers, satisfies all its size equations, with the requested sizes and rank |
| `Topology.AcceptedIsMade` | tensorrt_llm/mapping.py:49-217 | conversely every mapping that satisfies them, and has no size left to resolve, is returned for its own sizes |
| `Topology.NegativeSizesAreAccepted` | tensorrt_llm/mapping.py:160-163 | an accepted mapping with negative sizes |
| `Topology.RequestsAreKept` | tensorrt_llm/mapping.py:81-153 | requested sizes are kept, a missing one follows from the size equations, and with none given the defaults apply |
| `Topology.DictRoundTrip` | tensorrt_llm/mapping.py:445-467 | for everything the constructor returns, to_dict then from_dict gives the mapping without its partition, or a division by zero; so the mapping itself if and only if it had none and can be read back |
| `Topology.UnreadableIsMade` | tensorrt_llm/mapping.py:140-153 | an accepted mapping that cannot be read back |
| `Topology.RankFromCoordinates` | tensorrt_llm/mapping.py:665-675 | every integer rank is pp*(tp*cp) + tp*cp + cp of its own coordinates; the stage is in range if and only if the rank is in the world |
| `Topology.CoordinatesFromRank` | tensorrt_llm/mapping.py:665-675 | every coordinate triple is the coordinates of its rank, so the two are inverse |
| `Topology.PpMoves` | tensorrt_llm/mapping.py:347-357 | next and previous stage keep the other coordinates, wrap around, and undo each other |
| `Topology.CpMoves` | tensorrt_llm/mapping.py:368-378 | the same for context ranks |
| `Topology.PpCycle` | tensorrt_llm/mapping.py:353-357 | k steps advance the stage by k modulo the number of stages; a full turn returns |
| `Topology.CpCycle` | tensorrt_llm/mapping.py:374-378 | the same for context ranks |
| `RankGroups.PpGroups` | tensorrt_llm/mapping.py:709-712 | the groups are the lines of the rank grid along the stage |
| `RankGroups.TpGroups` | tensorrt_llm/mapping.py:722-728 | the groups are the lines along the tensor rank |
| `RankGroups.ConsecutiveGroups` | tensorrt_llm/mapping.py:714-720 | the groups are the lines of consecutive ranks |
| `RankGroups.MoeTpGroups` | tensorrt_llm/mapping.py:730-736 | the same for the MoE tensor groups, whose ranges end earlier |
| `RankGroups.MoeEpGroups` | tensorrt_llm/mapping.py:748-758 | the triple loop builds the lines of consecutive expert-parallel ranks |
| `RankGroups.InitParallelGroups` | tensorrt_llm/mapping.py:708-758 | all six families are lines of a grid |
| `RankGroups.PlacedIsSized` | tensorrt_llm/mapping.py:160-186 | an accepted mapping with positive sizes and its rank in the world has the positive MoE sizes that the ranks divide by |
| `RankGroups.DenseFamiliesPartition` | tensorrt_llm/mapping.py:677-728 | the tp, pp and cp families each partition the world; each rank sits in the group its property returns, at its own coordinate |
| `RankGroups.MoeTpFamilyPartitions` | tensorrt_llm/mapping.py:272-284 | without context parallelism and DWDP, the MoE tp family partitions the world and each rank sits in its own group at its own MoE tp rank |
| `RankGroups.MoeEpFamilyPartitions` | tensorrt_llm/mapping.py:696-701 | the same for the MoE ep family |
| `RankGroups.MoeClusterFamilyPartitions` | tensorrt_llm/mapping.py:703-706 | the same for the MoE cluster family |
| `RankGroups.MoeEpGroupExact` | tensorrt_llm/mapping.py:696-701 | for all accepted positive sizes without DWDP, every rank is in the group moe_ep_group returns if and only if there is one context rank or one group per stage |
| `RankGroups.MoeClusterGroupExact` | tensorrt_llm/mapping.py:703-706 | the same for moe_cluster_group, with one cluster group per stage |
| `RankGroups.MoeTpGroupExact` | tensorrt_llm/mapping.py:689-694 | the same for moe_tp_group, if and only if there is one context rank, or one group per stage and no Ulysses |
| `RankGroups.ContextRanksMissTheirGroups` | tensorrt_llm/mapping.py:689-706 | an accepted Helix mapping of four ranks in which each of the three properties returns a group without the rank |
| `RankGroups.HelixRepurposes` | tensorrt_llm/mapping.py:611-631 | every accepted Helix mapping repurposes to an accepted one with the same rank, stage and MoE sizes and tensor rank tp*cp_size + cp |
| `RankGroups.TargetHoldsExpert` | tensorrt_llm/_mnnvl_utils.py:583-590 | the target rank of an expert is the one expert-parallel rank whose ep_experts list holds it |
| `PipelineLayers.StageSizes` | tensorrt_llm/mapping.py:389-403 | accepted sizes are one per stage, non-negative, and add up to the layers |
| `PipelineLayers.StagesConcatenate` | tensorrt_llm/mapping.py:389-403 | over all stages the layers are exactly 0..n-1, in order, for custom partitions with empty stages and for the even split with fewer layers than stages |
| `PipelineLayers.EveryLayerHasARank` | tensorrt_llm/mapping.py:389-403 | each stage's list is what pp_layers returns on a rank of that stage |
| `PipelineLayers.FindStage` | tensorrt_llm/mapping.py:422-427 | the running sum finds the first stage that ends beyond the layer, and always finds one, also with negative stages |
| `PipelineLayers.EvenRankIsOwner` | tensorrt_llm/mapping.py:429-436 | the closed form names the stage whose even share holds the layer |
| `PipelineLayers.PpRankOfLayer` | tensorrt_llm/mapping.py:405-436 | returns r if and only if the layer is in r's list and in no other; accepts what pp_layers accepts except as said above; same errors otherwise |
| `PipelineLayers.NegativeStagePasses` | tensorrt_llm/mapping.py:389-427 | a partition with a negative stage that pp_layers rejects and pp_rank_of_layer accepts |
| `PipelineLayers.SingleStageIsNotChecked` | tensorrt_llm/mapping.py:411-412 | a partition with the wrong sum that passes because there is one stage |
| `CommitGraph.RevList` | 3rdparty/fetch_cache.py:326-339 | succeeds if and only if the commit and all its ancestors are present |
| `CommitGraph.ConnectedGrows` | 3rdparty/fetch_cache.py:50-57 | adding objects never disconnects a commit |
| `FetchCache.Repository.PruneDisconnectedFetchRefs` | 3rdparty/fetch_cache.py:367-395 | a skipped tip stays and no value changes; exactly the refs whose tip is skipped or connected stay when no git command fails |
| `FetchCache.Repository.ReplicateSrcRefsChecked` | 3rdparty/fetch_cache.py:762-781 | adds only connected tips that are not skipped, and all of them when no git command fails; removes nothing |
| `FetchCache.Repository.Update` | 3rdparty/fetch_cache.py:490-503 | whatever git commands fail, no anchor is lost and every new one is connected; when none fails the outcome does not depend on the skip set: every connected tip is anchored and exactly the connected tips stay advertised |
| `FetchCache.StepKeepsInv` | 3rdparty/fetch_cache.py:326-395 | every git command and decision of every writer keeps: anchors have their whole ancestry, skip sets hold anchors only |
| `FetchCache.RunKeepsInv` | 3rdparty/fetch_cache.py:419-503 | so does every interleaving, with crashes and failures; anchors and objects are never removed |
| `FetchCache.AnchorsAreConnected` | 3rdparty/fetch_cache.py:762-781 | every anchor in every reachable state has all its ancestors |
| `FetchCache.SkippedIsConnected` | 3rdparty/fetch_cache.py:342-364 | whatever a writer may skip, at any point of any run, would pass the check |
| `FetchCache.ConnectedTipIsKept` | 3rdparty/fetch_cache.py:383-395 | no interleaving of prunes whose checks of the tip work removes a ref whose tip is connected, unless a writer had already condemned that tip |
| `FetchCache.FailedCheckPrunes` | 3rdparty/fetch_cache.py:326-395 | one failing check and one delete remove any advertised tip that is not skipped |
| `FetchCache.ConnectedTipIsGoneExactly` | 3rdparty/fetch_cache.py:326-395 | in every run that does not fetch the ref, a ref with a connected tip is removed if and only if some writer's check of it fails, the writer does not skip it, and its next step is a delete that succeeds |
| `FetchCache.StepWithoutSkipping` | 3rdparty/fetch_cache.py:367-395 | a step with a skip set is one or two steps without one, with the same repository |
| `FetchCache.MemoChangesNothing` | 3rdparty/fetch_cache.py:490-503 | for every interleaved run there is a run that never skips a check and ends with the same repository |
| `FetchCache.StepWithMemo` | 3rdparty/fetch_cache.py:367-395 | a step without a skip set is at most one step of a writer that has one, with the same repository |
| `FetchCache.MemoLosesNothing` | 3rdparty/fetch_cache.py:490-503 | conversely, for every run that never skips a check, and in which no check of an anchored tip fails while pruning, there is a run in which every writer reads its skip set and that ends with the same repository |
| `LfsPool.StepKeepsInv` | 3rdparty/fetch_cache.py:144-196 | every file operation of every ingest keeps visible objects honest and counters consistent |
| `LfsPool.RunKeepsInv` | 3rdparty/fetch_cache.py:144-216 | in every reachable state every visible object hashes to its name, whatever the sources do during the copy, and no name disappears |
| `LfsPool.ContentIsStable` | 3rdparty/fetch_cache.py:183-188 | without hash collisions the content under a name never changes |
| `LfsPool.CountsAddUp` | 3rdparty/fetch_cache.py:198-216 | between two objects, ingested + skipped + failed equals the number walked; after an exception that escaped it is one less |
| `LfsPool.Pool.IngestLfsObject` | 3rdparty/fetch_cache.py:144-196 | raises exactly when the directory or the stage file cannot be made; otherwise succeeds exactly when every check and operation does, and then the object is visible, with other writers at work |
| `LfsPool.Pool.UpdateLfsPool` | 3rdparty/fetch_cache.py:198-216 | the three counters tally one outcome per object up to the first that raises, if any; ingested and skipped objects are visible in the end, failed ones are those that fail a check |
| `LoraReshard.ShardsAreSlices` | tensorrt_llm/lora_manager.py:907-938 | cutting the reordered weight into tp equal blocks gives rank r the concatenation of every part's r-th slice |
| `LoraReshard.RestoreUndoesReorder` | tensorrt_llm/lora_manager.py:907-938 | the reordering is invertible |
| `LoraReshard.RowsArePermuted` | tensorrt_llm/lora_manager.py:907-938 | it neither loses nor repeats rows |
| `LoraReshard.KeepsLengthExactly` | tensorrt_llm/lora_manager.py:926-938 | rows are kept if and only if every part is cut into tp chunks or there are none; otherwise only rank 0's rows are left |
| `LoraReshard.EmptyPartLosesRows` | tensorrt_llm/lora_manager.py:940-969 | a weight whose second rank loses its rows |
| `LoraReshard.PreparedQkv` | tensorrt_llm/lora_manager.py:940-969 | query/key/value weights are accepted if and only if the rows match the head counts; resharded, and of the same length, exactly with a query and a key/value head |
| `LoraReshard.PreparedGateUp` | tensorrt_llm/lora_manager.py:940-969 | gate/up weights are accepted if and only if both halves divide, and then always resharded |
| `Tensors.ConcatOfSplit` | tensorrt_llm/lora_manager.py:917-921 | narrowing to consecutive parts and concatenating gives the tensor back |
| `InheritanceSearch.StartsWithNumber` | scripts/check_test_list.py:306-307 | the regular expression, for any class of digits: digits, then the end, an underscore or a final newline |
| `InheritanceSearch.MatchesParameterized` | scripts/check_test_list.py:301-308 | true if and only if the name is some method followed by an underscore, a number and an accepted end |
| `InheritanceSearch.Search.Has` | scripts/check_test_list.py:311-330 | a hit is an inherited definition; after a miss every newly visited class is exhausted and its bases are visited; terminates on cycles |
| `InheritanceSearch.HasMethod` | scripts/check_test_list.py:311-330 | started with nothing visited, true if and only if some class reachable over base edges in any file defines the method or a parameterized match |
| `TiledReduce.WriterIsUnique` | triton_kernels/reduce.py:46-56 | every output cell belongs to exactly one program of the grid |
| `TiledReduce.Accumulate` | triton_kernels/reduce.py:57-83 | every lane of a tile ends with its own sum, lanes outside the tensor with neutral terms |
| `TiledReduce.Program` | triton_kernels/reduce.py:46-99 | a program stores the sums of its tile clipped to the tensor, and nothing else |
| `TiledReduce.Reduce` | triton_kernels/reduce.py:152-249 | rejects exactly the dimensions outside -3..2; every cell gets the kernel's sum, which is the reference sum whenever mask and scale are read as broadcasting would |
| `TiledReduce.PointerIsAddress` | triton_kernels/reduce.py:178-214 | stride selection per reduced dimension, with stride-zero flags, addresses the right element |
| `TiledReduce.ReadsRightlyExactly` | triton_kernels/reduce.py:199-214 | every element is read where broadcasting puts it if and only if there is none or each size-one dimension has stride zero or nothing to broadcast over |
| `TiledReduce.LaneSumIsReference` | triton_kernels/reduce.py:262-283 | under that condition the lane sum is the reference masked scaled sum |
| `TiledReduce.SumExactly` | triton_kernels/reduce.py:137-145 | for any sizes and strides of the tensor and of a mask, a scale, both or neither, the sum is right for all contents, for each reduced dimension, if and only if the tensor is empty or that condition holds of both |
| `TiledReduce.DocumentedExactly` | triton_kernels/reduce.py:137-145 | for operands broadcastable to the tensor, the same if and only if the tensor is empty or each of their dimensions has the tensor's extent or stride zero |
| `TiledReduce.MisreadShows` | triton_kernels/reduce.py:137-145 | otherwise contents of ones and a single probe give a wrong cell, whatever the other operand's strides |
| `TiledReduce.ContiguousMaskIsMisread` | triton_kernels/reduce.py:137-140 | a broadcastable contiguous mask with which the kernel returns at most 1 instead of n |
| `ManagedBlock.Find` | scripts/legacy_utils.py:330-338 | what is found is the first occurrence from an index on |
| `ManagedBlock.OccurringIsFound` | scripts/legacy_utils.py:330-338 | whatever occurs from that index on is found |
| `ManagedBlock.OutsideIsKept` | scripts/legacy_utils.py:325-341 | replacing with a well-formed block keeps the text before and after, which are found again |
| `ManagedBlock.SecondOverrides` | scripts/legacy_utils.py:325-341 | a second replacement gives what it would have given alone |
| `ManagedBlock.IdempotentExactly` | scripts/legacy_utils.py:325-341 | repeating a replacement is a no-op on every file with markers if and only if the block starts with the begin marker and its first end marker is on its last, newline-terminated line |
| `ManagedBlock.MarkersAreValid` | scripts/legacy_utils.py:72-73 | the markers in use meet the one condition of that theorem: the end marker lies on one line |
| `ManagedBlock.Configs.DoGenerate` | scripts/legacy_utils.py:378-401 | writes all three files or none; only the managed blocks of the two hand-written files change |
| `ManagedBlock.Configs.DoCheck` | scripts/legacy_utils.py:404-432 | passes if and only if regenerating would change nothing |
| `ManagedBlock.Configs.GenerateThenCheck` | scripts/legacy_utils.py:378-432 | a check right after generating passes |

## Left out

- CUDA, NVML, MPI and symmetric-memory calls are steps that succeed or fail; NVLink probing is not part of this model.
- File descriptors opened and closed while sharing handles, and the MPI agreement on sizes, are not part of this model.
- MnnvlMemory.MnnvlMemory.Open: requires a positive size; the driver rejects a zero-size allocation, which the model does not repeat.
- The launch metadata and byte counts of the exchange kernels only feed a profiler.
- What a store through a null pointer does, and a division by zero rows per rank, which is treated like one, are not part of this model.
- SymmetricPool.SymmetricMemoryPool.MakeEmpty: the returned tensor is one address range, the same on every rank; clearing it is not part of this model.
- MoE groups under DWDP, DeviceMeshTopology, node and local ranks, and cp_type given as a string are not part of this model.
- InheritanceSearch.StartsWithNumber: the digits are a parameter, any class of characters without the underscore and the newline; which Unicode characters are decimal digits is not part of this model.
- Git processes, configuration hardening, the stand-in repository, the shallow pool, and the up-to-date short cut are not part of this model; a fetch adds arbitrary objects and sets arbitrary refs.
- Directory walking and the name patterns of large-file objects are not part of this model; a walk is a sequence of what the file system answers.
- TiledReduce.Reduce: reals instead of 32-bit floats, no post-processing, flexpoint or micro-scaling; the output is a two-dimensional array rather than strided memory.
- Jinja templates are not rendered: the blocks are arbitrary strings. Reading legacy-files.txt and pruning it are not part of this model.
- `_generate_uid`, sampling parameters, the FlashInfer stand-ins, numerics of layers, the server, the command line and the build scripts would only add easy members or floating-point code.
