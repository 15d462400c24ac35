# Proofs about NCCL's host-side algorithms

This project models algorithms of NCCL 2.29.7 in Dafny and proves what they are for. Each module is one algorithm.
Where NCCL updates state in place, the model is a class or an array method whose contract ties the new state to the
old one; the promises themselves are lemmas about the specification functions and invariants over every run.
Protocols between threads, ranks or streams are state machines whose steps may interleave in any order.

| modules | algorithm |
|---|---|
| P2pSchedule, QuadraticResidues | in which round each rank sends to and receives from each peer |
| Space | the allocator that cuts the integers into alternating full and empty segments |
| RingAllReduce, RingInPlace | the chunk schedule of the ring AllReduce kernel and N ranks executing it over bounded links, with separate buffers and in place |
| ProxyLists, ProxyPeers, ProxyPoolSteps, ProxyMachine, ProxyPoolInv, ProxyPool | the shared pool of proxy operations: producers, progress thread, lock-free return of slots |
| ProxyProgress | the progress thread's active list, per-connection chains and free pool |
| WorkBatch, WorkPlan | work batches with 64-bit offset sets, their interleaving over channels, and their decoding on the device |
| OpMerge | the merge of the channels' proxy operations by rotated id |
| ChannelPartition | the split of collectives over channels by traffic, and how many fit a plan |
| WorkFifo | the circular work buffer with wrapping 32-bit cursors |
| RootPartition, RootRendezvous, BootstrapRing | which root serves which rank, the rendezvous at a root, and the one ring that results |
| RingAllGather, Barrier, UnexpectedQueue | the bootstrap all-gather, consecutive dissemination barriers, connections accepted out of order |
| CeSync | the copy-engine flag barrier |
| ShadowPages, ShadowTable, ShadowPool | device objects with host shadows: paged slots and a doubling hash table |
| Arith, Seqs, Runs | shared arithmetic and pigeonhole facts, runs of a state machine |

Check everything with `dafny verify dfyconfig.toml`.

## Where the code differs from what one might expect

- `ncclSpaceAlloc` compares with `limit` only in the last, unbounded segment. The range it picks ends within the limit
  exactly when an aligned empty range within the limit exists (`Space.LimitExactly`); otherwise a gap above the limit may
  be handed out (`Space.AboveLimit`). A client whose requests all carry one limit never gets anything above it
  (`Space.Serve`).
- Mixing ordinary and captured copy-engine syncs is safe exactly when no sync expects what the previous sync of the
  same array left behind. A captured sync two after the sync with sequence number 1 does, and so does an ordinary sync
  whose 32-bit number has wrapped to 0 two after a captured one (`CeSync.CollidesWhen`, `CeSync.SafeExactly`).
- The merge of proxy operations reads through channel -1 when an operation carries the id with all bits set, and only
  then (`OpMerge.Merge`).
- When aggregation of a proxy operation is refused for a mismatch or because the element is already running, the
  operation has been added all the same (`ProxyProgress.Progress.AddSub`). An overflowing append that is refused leaves
  its operation in the pending chain (`ProxyPool.Pool.Append`).
- The batch size of a fetch comes from the environment unchecked, and the loop compares for equality. With -1 nothing is
  ever delivered (`ProxyMachine.NothingDelivered`), below -1 there is no limit; with any other value everything posted
  is delivered in the end (`ProxyMachine.PollsDrain`).
- A host waits for room in the work buffer while only recorded events free space, and events are recorded at the end of a
  launch, after all its plans. So the wait ends exactly when the work fits behind what the recorded events cover
  (`WorkFifo.WaitEnds`). That holds for the first plan of a launch (`WorkFifo.RoomAfterFinish`), but a third one may wait
  for ever although each keeps to the budget of half a buffer (`WorkFifo.ThirdPlanWaits`).
- `ncclAddWorkBatchToPlan` overwrites its argument `newBatch`, which the broadcast scheduler passes
  (`scheduler/allgatherv_sched.cc:155`). A new batch is started exactly when there is none or the current one cannot take
  the work (`WorkBatch.Channel.Append`); a request makes no difference (`WorkBatch.RequestIgnored`).
- `bootstrapRoot` keeps nothing of a rank whose info was passed on at once and that was answered at once or gave no
  address (`RootRendezvous.CheckInAgain`, `RootRendezvous.ForgottenMeans`). A second check-in goes unnoticed in exactly
  two cases (`BootstrapRing.SecondCheckIn`): that of an own rank whose predecessor is an own rank, after both neighbours
  had checked in (`RootRendezvous.CountedTwice`); and, when a communicator of several ranks grows, that of rank 0, which
  has no root of its own and stands for the successor of the last rank, after the last rank
  (`RootRendezvous.CountedTwiceGrowing`).
- The group size parameter of the point-to-point schedule comes from the environment unchecked. With several nodes, zero
  is a division by zero, and a negative value fails unless the repeated gcd happens to turn it positive
  (`P2pSchedule.SchedulableWhen`, `P2pSchedule.NegativeEitherWay`).
- Freeing or translating a non-null address before the first allocation of a shadow pool indexes a hash table that does
  not exist yet (`ShadowPool.Pool.Free`, `ShadowPool.Pool.ToHost`).

## Model

| member | source | states |
|---|---|---|
| QuadraticResidues.DeltaInjective | nccl-2.29.7-dpfr-plugin/src/init.cc:871-891 | With a power of two N, two different rounds below N never have the same group delta: the quadratic update repeats nothing within a cycle (number theory: an odd factor contributes nothing to a power of two). |
| QuadraticResidues.DeltaStep | nccl-2.29.7-dpfr-plugin/src/init.cc:889-890 | The masked update leads from the residue of triangular number k modulo N to that of k + 1, so the loop variable is always a residue of a triangular number. |
| QuadraticResidues.DeltaMeaning | nccl-2.29.7-dpfr-plugin/src/init.cc:871-891 | The delta of round k is the triangular number k(k + 1)/2 modulo N. |
| P2pSchedule.DeltasPermutation | nccl-2.29.7-dpfr-plugin/src/init.cc:871-891 | Over a full cycle the deltas are a permutation of all residues modulo N. |
| P2pSchedule.FilteredDeltasPermutation | nccl-2.29.7-dpfr-plugin/src/init.cc:872-876 | After dropping the deltas that name no group, every group id occurs exactly once. |
| P2pSchedule.TablePartitionsRanks | nccl-2.29.7-dpfr-plugin/src/init.cc:1215-1234 | The node tables together list every rank exactly once, whatever the assignment of ranks to nodes. |
| P2pSchedule.GroupSize | nccl-2.29.7-dpfr-plugin/src/init.cc:834-839 | For any non-zero requested size the size found by repeated gcd, up to its sign, divides the number of ranks of every node, so the divisibility error cannot occur; a positive request stays positive. |
| P2pSchedule.GroupSizeGreatest | nccl-2.29.7-dpfr-plugin/src/init.cc:834-839 | That size, up to its sign, is the greatest common divisor: it divides the request, and every common divisor of the request and all node sizes divides it. |
| P2pSchedule.ChosenSizeMeaning | nccl-2.29.7-dpfr-plugin/src/init.cc:834-839 | With several nodes the request is the parameter, so the group size is the greatest divisor it has in common with all node sizes; a single node is one group. |
| P2pSchedule.GroupsLocate | nccl-2.29.7-dpfr-plugin/src/init.cc:849-862 | Looking a member up through the two group tables finds the rank at that position of the flattened node tables. |
| P2pSchedule.RanksInOrder | nccl-2.29.7-dpfr-plugin/src/init.cc:849-862 | Ranks are numbered through the groups node by node and on each node in ascending order, whatever the group size. |
| P2pSchedule.ScheduleIsPermutation | nccl-2.29.7-dpfr-plugin/src/init.cc:875-891 | Over the whole schedule a rank sends to every rank once and receives from every rank once. |
| P2pSchedule.ScheduleMatches | nccl-2.29.7-dpfr-plugin/src/init.cc:875-888 | In every round, position p sends to q exactly when q receives from p. |
| P2pSchedule.RoundPeer | nccl-2.29.7-dpfr-plugin/src/init.cc:875-891 | The peer of a round: as many groups further as the round's delta says, and inside the group as many places further as rounds have passed since that delta began, both counted in a circle. |
| P2pSchedule.SchedulableWhen | nccl-2.29.7-dpfr-plugin/src/init.cc:834-846 | When the group size comes out positive: always with one node or a positive parameter, never with several nodes and zero or a negative divisor of every node size. |
| P2pSchedule.NegativeEitherWay | nccl-2.29.7-dpfr-plugin/src/init.cc:834-839 | Inputs for the remaining parameters: -8 becomes 4 with nodes of four ranks, which is a schedule, and -2 with nodes of six, which is none. |
| P2pSchedule.RanksAgree | nccl-2.29.7-dpfr-plugin/src/init.cc:831-901 | For any communicator and any group size parameter that gives a schedule at all, rank a sends to b in round t if and only if b receives from a in round t. |
| P2pSchedule.RankSchedulePermutes | nccl-2.29.7-dpfr-plugin/src/init.cc:831-901 | Whenever there is a schedule, each rank's send list and receive list, computed from the node assignment, are permutations of all ranks. |
| P2pSchedule.Comm.BuildNodeTables | nccl-2.29.7-dpfr-plugin/src/init.cc:1214-1238 | The three passes produce each node's ranks in ascending order, each rank's local index, and the largest node. |
| P2pSchedule.Comm.ChooseGroupSize | nccl-2.29.7-dpfr-plugin/src/init.cc:834-839 | For any parameter, negative ones included, the loop computes the group size of ChosenSizeMeaning, the same on all ranks; 0 stands for the division by zero of a zero parameter with several nodes. |
| P2pSchedule.Comm.BuildGroups | nccl-2.29.7-dpfr-plugin/src/init.cc:842-866 | Fills the group tables and the rank's own group id; neither of the two error exits is taken. |
| P2pSchedule.Comm.FillRounds | nccl-2.29.7-dpfr-plugin/src/init.cc:869-899 | The round loop writes exactly the specified send and receive peer of every round and ends with as many rounds as ranks, so "has bugs" is unreachable. |
| P2pSchedule.Comm.ScheduleP2p | nccl-2.29.7-dpfr-plugin/src/init.cc:831-901 | For any parameter the whole procedure succeeds exactly when the group size comes out positive, and then leaves the schedule about which RanksAgree and RankSchedulePermutes speak; otherwise the schedule is untouched. |
| Space.CanonicalUnique | nccl-2.29.7-dpfr-plugin/src/allocator.cc:141-146 | Two canonical cut lists (strictly ascending, positive, last segment empty) with the same full integers are the same list. |
| Space.SegmentParity | nccl-2.29.7-dpfr-plugin/src/allocator.cc:141-146 | Whether a segment is full depends on the parity of its index only. |
| Space.FitsMeansEmpty | nccl-2.29.7-dpfr-plugin/src/allocator.cc:208-224 | A non-empty range can be placed exactly when it is wholly empty and ends below the limit or below the last full segment. |
| Space.Space.MakeRoom | nccl-2.29.7-dpfr-plugin/src/allocator.cc:158-168 | Opens two places before an index, in place or in a larger array, keeping everything else in order. |
| Space.FuseRepeated | nccl-2.29.7-dpfr-plugin/src/allocator.cc:173-199 | The in-place compaction of a sorted list leaves a canonical list that means the same set. |
| Space.Space.InsertSegment | nccl-2.29.7-dpfr-plugin/src/allocator.cc:156-200 | Inserting two cuts into a segment flips exactly the integers between them and restores the canonical form. |
| Space.Space.Alloc | nccl-2.29.7-dpfr-plugin/src/allocator.cc:202-227 | Takes the first empty segment with room at its aligned start, or changes nothing and no aligned place exists at all. |
| Space.AllocationPromise | nccl-2.29.7-dpfr-plugin/src/allocator.cc:206-221 | What an allocation promises a caller: least aligned fitting offset, space that was empty and is now full, nothing lost, extra padding smaller than the alignment, last full segment within the larger of the limit and where it was, and the range ends within the limit exactly when an aligned empty place within the limit exists. |
| Space.LimitExactly | nccl-2.29.7-dpfr-plugin/src/allocator.cc:206-221 | A result about the code: the chosen range ends within the limit if and only if some aligned, wholly empty range within the limit exists. |
| Space.AboveLimit | nccl-2.29.7-dpfr-plugin/src/allocator.cc:202-256 | An input for which the limit is exceeded, through the allocator itself: take 12 units, give back [4,8), take 4 with limit 5 and get [4,8). |
| Space.Space.Free | nccl-2.29.7-dpfr-plugin/src/allocator.cc:229-256 | Succeeds if and only if the whole range is full, then removes exactly it; otherwise nothing changes. |
| Space.AllocThenFree | nccl-2.29.7-dpfr-plugin/src/allocator.cc:202-256 | Freeing what was just allocated succeeds and restores the very same cuts, except that alignment padding swallowed by the append path stays full. |
| Space.ServeOne | nccl-2.29.7-dpfr-plugin/src/allocator.cc:202-256 | One request of a client: ranges held stay disjoint, giving a held range back succeeds, taking fails only when nothing fits, and what is full stays within a limit that it and the request respect. |
| Space.Serve | nccl-2.29.7-dpfr-plugin/src/allocator.cc:202-256 | Over any sequence of requests the ranges held are disjoint and full, no return of a held range is refused, and when every request carries a limit of at most L all ranges held lie below L. |
| RingAllReduce.RunRing | nccl-2.29.7-dpfr-plugin/src/device/all_reduce.h:33-83 | The element loop of a rank issues exactly the primitive calls (kind, offset, element count) that OwnChunk and ChunkSizeMeaning describe, in their order, for every iteration, and stops at the end of the channel. |
| RingAllReduce.ChunkSizeMeaning | nccl-2.29.7-dpfr-plugin/src/device/all_reduce.h:34-38 | Iterations have full chunks as long as n of them are left; the tail has chunks of the least whole number of 16-byte packs with which n chunks hold it. |
| RingAllReduce.OwnChunk | nccl-2.29.7-dpfr-plugin/src/device/all_reduce.h:44-82 | A rank starts with the chunk before its own and goes back by one in every step around the ring; the one it reduces to the end is its own. |
| RingAllReduce.LocateElement | nccl-2.29.7-dpfr-plugin/src/device/all_reduce.h:33-47 | Every element of the channel lies in some chunk of some iteration, also with the re-divided tail. |
| RingAllReduce.ChunksDisjoint | nccl-2.29.7-dpfr-plugin/src/device/all_reduce.h:33-47 | No element lies in two chunks, and no chunk reaches outside the channel. |
| RingAllReduce.SameChunk | nccl-2.29.7-dpfr-plugin/src/device/all_reduce.h:44-82 | What a rank receives in a step is the chunk its predecessor sent in the step before. |
| RingAllReduce.StepDefined | nccl-2.29.7-dpfr-plugin/src/device/all_reduce.h:48-82 | Whenever a rank can make its next call, the message it receives has the length of its own chunk and the result is the one prescribed for that place. |
| RingAllReduce.StepKeepsInv | nccl-2.29.7-dpfr-plugin/src/device/all_reduce.h:48-82 | Every call of every rank keeps the invariant about links in flight and about what has been stored. |
| RingAllReduce.CopiedUnchanged | nccl-2.29.7-dpfr-plugin/src/device/all_reduce.h:67-82 | From the final reduction on, every rank handles a chunk with the value formed at the rank of the same number. |
| RingAllReduce.AllRanksAgree | nccl-2.29.7-dpfr-plugin/src/device/all_reduce.h:33-83 | For every rank count, size and schedule that lets all ranks finish, all ranks end with the same value in every element, for any operator, associative or not, the inputs being in separate buffers. |
| RingAllReduce.ResultIsFold | nccl-2.29.7-dpfr-plugin/src/device/all_reduce.h:48-65 | For an associative and commutative operator that value is the reduction over all ranks in rank order, followed by the post operation. |
| RingAllReduce.OutsideUntouched | nccl-2.29.7-dpfr-plugin/src/device/all_reduce.h:33-83 | Nothing outside this channel's part of the output buffers changes in any run. |
| RingAllReduce.NoDeadlock | nccl-2.29.7-dpfr-plugin/src/include/collectives.h:20 | With two chunks of buffering per link some rank can always move until all are done. |
| RingAllReduce.CompletionReachable | nccl-2.29.7-dpfr-plugin/src/device/all_reduce.h:33-83 | From every reachable state all ranks can still finish. |
| RingInPlace.ReadBeforeWritten | nccl-2.29.7-dpfr-plugin/src/device/all_reduce.h:44-65 | When the input lies in the output buffer, an element is still the input whenever a rank reads it as input: the rank has not stored it yet. |
| RingInPlace.SameStep | nccl-2.29.7-dpfr-plugin/src/device/all_reduce.h:44-82 | As long as unwritten elements hold their inputs, a call that reads its input from the output buffer does exactly what a call with separate buffers does. |
| RingInPlace.AllRanksAgreeInPlace | nccl-2.29.7-dpfr-plugin/src/device/all_reduce.h:33-83 | The same agreement with one buffer for input and output, the input being overwritten as the rank stores its results. |
| ProxyPool.Pool.constructor | nccl-2.29.7-dpfr-plugin/src/proxy.cc:1385-1401 | Initially each peer's slots form its list of returned slots and nothing is queued. |
| ProxyPool.Pool.Acquire | nccl-2.29.7-dpfr-plugin/src/proxy.cc:491-504 | A producer out of slots takes over the whole list of returned ones in one exchange. |
| ProxyPool.Pool.Take | nccl-2.29.7-dpfr-plugin/src/proxy.cc:491-519 | Filling a free slot links it last in the pending chain; the count equals the chain length and was below the maximum. |
| ProxyPool.Pool.Append | nccl-2.29.7-dpfr-plugin/src/proxy.cc:484-547 | Appending waits exactly without a free slot; at the maximum it posts up to the cut, and fails exactly when there is none, leaving the operation in the chain. |
| ProxyPool.Pool.FindCut | nccl-2.29.7-dpfr-plugin/src/proxy.cc:520-533 | The walk over the pending chain finds the one cut that keeps the final run of equal opCount whole. |
| ProxyPool.CutMeaning | nccl-2.29.7-dpfr-plugin/src/proxy.cc:520-537 | The cut is unique, lies between two different opCounts, leaves a non-empty chain with a single opCount, and is at the start exactly when all opCounts are equal. |
| ProxyPool.Pool.Overflow | nccl-2.29.7-dpfr-plugin/src/proxy.cc:520-544 | A full chain is posted up to its cut, or an error is reported and nothing moves when the chain has a single opCount. |
| ProxyPool.Pool.Post | nccl-2.29.7-dpfr-plugin/src/proxy.cc:472-482 | Hangs a chain behind the posted queue under the lock. |
| ProxyPool.Pool.Start | nccl-2.29.7-dpfr-plugin/src/proxy.cc:1006-1020 | Posts everything a producer has pending. |
| ProxyPool.Pool.Grab | nccl-2.29.7-dpfr-plugin/src/proxy.cc:791-818 | With nothing left over, the progress thread takes the whole posted queue in one lock section. |
| ProxyPool.Pool.Fetch | nccl-2.29.7-dpfr-plugin/src/proxy.cc:820-848 | One round of the fetch loop delivers the oldest fetched operation and puts its slot in front of its peer's free chain, exactly unless the queue is empty or, with that operation, the deliveries of this fetch would change opCount (from a non-zero one) or peer more often than the batch size allows. |
| ProxyMachine.Counted | nccl-2.29.7-dpfr-plugin/src/proxy.cc:826-836 | The loop's running count and its comparison for equality tell exactly whether the batch has room for one more operation. |
| ProxyPool.Pool.Deliver | nccl-2.29.7-dpfr-plugin/src/proxy.cc:834-848 | The delivered operation is the oldest undelivered one of its peer; the end of a fresh chain keeps a stale link. |
| ProxyPool.Pool.Load | nccl-2.29.7-dpfr-plugin/src/proxy.cc:850-861 | Loads the head of the returned list and links it behind the chain, replacing the stale link. |
| ProxyPool.Pool.Exchange | nccl-2.29.7-dpfr-plugin/src/proxy.cc:854-862 | The compare-and-exchange succeeds exactly when the head is still the loaded one, and then the joined list is well formed; otherwise it is retried with the new head. |
| ProxyPool.SlotInOneList | nccl-2.29.7-dpfr-plugin/src/proxy.cc:484-862 | In every reachable state each of a peer's slots is in exactly one of its six lists, once, and in none of another peer. |
| ProxyPool.DeliveredInOrder | nccl-2.29.7-dpfr-plugin/src/proxy.cc:484-862 | What was delivered of a producer is a prefix of what it appended, and all of it when nothing of it is left in the pool. |
| ProxyMachine.PollsDrain | nccl-2.29.7-dpfr-plugin/src/proxy.cc:791-862 | When the progress thread goes on alone, then after a number of its steps bounded by the state it starts in nothing posted or fetched is left, whatever the batch size except -1. |
| ProxyMachine.NothingDelivered | nccl-2.29.7-dpfr-plugin/src/proxy.cc:789-834 | A result about the code: with the batch size -1 no step of the progress thread delivers anything. |
| ProxyPool.Run | nccl-2.29.7-dpfr-plugin/src/proxy.cc:484-1020 | For every interleaving of producers and the progress thread, each event takes place as the abstract machine has it, the slots stay partitioned and delivery is in append order. |
| ProxyProgress.Progress.Allocate | nccl-2.29.7-dpfr-plugin/src/proxy.cc:205-229 | Hands out an element that was not in use, growing the free pool by one linked block exactly when it is empty. |
| ProxyProgress.Progress.AddSub | nccl-2.29.7-dpfr-plugin/src/proxy.cc:363-404 | Aggregating an operation: full element refused untouched; a mismatch or a running element is reported only after the operation was added, as the code does. |
| ProxyProgress.Progress.Append | nccl-2.29.7-dpfr-plugin/src/proxy.cc:435-470 | An operation joins the last element of its slot, or gets its own element behind it, or as a new active element at the end of the active list. |
| ProxyProgress.Progress.RemoveOp | nccl-2.29.7-dpfr-plugin/src/proxy.cc:733-763 | The exact relinking when an element leaves the active list, with or without a successor in its slot. |
| ProxyProgress.Progress.Complete | nccl-2.29.7-dpfr-plugin/src/proxy.cc:733-763 | A finished head gives its place to the next element of its slot, or its slot leaves the active list; its operations count as finished. |
| ProxyProgress.Progress.ProgressOne | nccl-2.29.7-dpfr-plugin/src/proxy.cc:768-785 | One iteration of the pass; an active element never has the state that the internal-error check looks for. |
| ProxyProgress.Progress.ProgressOps | nccl-2.29.7-dpfr-plugin/src/proxy.cc:765-787 | A pass terminates; every slot that was active gets exactly one progress call on its head, in list order; a head left pending is running from then on and nothing else changes its state; a failure is reported exactly when some call failed. |
| ProxyProgress.OnePlace | nccl-2.29.7-dpfr-plugin/src/proxy.cc:205-229 | Every element is either free or in the chain of exactly one slot, once. |
| ProxyProgress.OneAtATime | nccl-2.29.7-dpfr-plugin/src/proxy.cc:435-470 | Each append slot points at the last element of its chain, only chain heads are active, elements behind a head wait, and finished operations are a prefix of the accepted ones. |
| ProxyProgress.Run | nccl-2.29.7-dpfr-plugin/src/proxy.cc:435-787 | In any sequence of appends and passes each takes place, and the operations of one slot finish in the order they were accepted. |
| WorkBatch.Channel.Append | nccl-2.29.7-dpfr-plugin/src/enqueue.cc:119-199 | Appending keeps the batches decoding to the greedy grouping of everything appended so far; a new group is started exactly when there is none or the current one cannot take the item, whatever the caller requested. |
| WorkBatch.Blocked | nccl-2.29.7-dpfr-plugin/src/enqueue.cc:131-155 | The builder's counters refuse an item exactly when the fused batch could not take it. |
| WorkBatch.Channel.IsNewBatch | nccl-2.29.7-dpfr-plugin/src/enqueue.cc:126-156 | Overwrites the caller's request: a new group is started exactly when greedy grouping starts one. |
| WorkBatch.Channel.Place | nccl-2.29.7-dpfr-plugin/src/enqueue.cc:157-199 | The offset becomes a bit of the last batch, an extension batch, or a new batch, and the counters follow. |
| WorkBatch.GreedyRunnable | nccl-2.29.7-dpfr-plugin/src/enqueue.cc:134-155 | Every fused batch has one type and function and respects the byte, operation-count, distinct-round, same-group and epoch limits. |
| WorkBatch.GreedyFlattens | nccl-2.29.7-dpfr-plugin/src/enqueue.cc:119-199 | Grouping neither loses nor reorders work. |
| WorkBatch.RoundTrip | nccl-2.29.7-dpfr-plugin/src/enqueue.cc:119-199 | Decoding a channel's batches gives back exactly the appended (type, function, offset) sequence, in groups the device can execute at once. |
| WorkBatch.RequestIgnored | nccl-2.29.7-dpfr-plugin/src/enqueue.cc:126 | A result about the code: two broadcasts, the second requested to start a new batch, are one fused batch. |
| WorkPlan.PopFirstOneBit | nccl-2.29.7-dpfr-plugin/src/enqueue.cc:229-231 | Returns the lowest one bit of the channel mask and clears only it. |
| WorkPlan.Finisher.Visit | nccl-2.29.7-dpfr-plugin/src/enqueue.cc:230-243 | Visiting a channel places its head behind all others and links it from the channel's previous batch; the distance fits the 14-bit field. |
| WorkPlan.Finisher.Round | nccl-2.29.7-dpfr-plugin/src/enqueue.cc:228-244 | A round visits every channel that still has batches once, in ascending order, and leaves strictly less to do. |
| WorkPlan.Finisher.Finish | nccl-2.29.7-dpfr-plugin/src/enqueue.cc:221-244 | Afterwards every channel's first batch is at its rank among the channels of the mask, and its batches are linked in order to the end. |
| WorkPlan.LoadWorkBatch | nccl-2.29.7-dpfr-plugin/src/device/common.h:130-247 | Unpacks one fused batch along nextExtends and finds where the next one starts, or that there is none. |
| WorkPlan.KernelMain | nccl-2.29.7-dpfr-plugin/src/device/common.h:389-408 | Starting at its block index a kernel executes exactly its channel's fused batches in order and terminates. |
| WorkPlan.RunPlan | nccl-2.29.7-dpfr-plugin/src/enqueue.cc:119-244 | Encoder, interleaving and decoder together: each channel of the plan executes exactly its own work, in append order. |
| OpMerge.KeyOrder | nccl-2.29.7-dpfr-plugin/src/enqueue.cc:266 | Rotating the tag bit to the front orders collectives before point-to-point operations and each kind by id; only the all-ones id has the greatest key. |
| OpMerge.FindLeast | nccl-2.29.7-dpfr-plugin/src/enqueue.cc:260-268 | Finds the lowest channel with the least head; finds none exactly when all heads carry the sentinel id. |
| OpMerge.Merge | nccl-2.29.7-dpfr-plugin/src/enqueue.cc:246-274 | Succeeds if and only if no operation has the sentinel id; then it interleaves the queues keeping each one's order, sorted when each of them is. |
| OpMerge.InterleavingPermutes | nccl-2.29.7-dpfr-plugin/src/enqueue.cc:259-274 | The output is a permutation of all queues together. |
| ChannelPartition.SplitCells | nccl-2.29.7-dpfr-plugin/src/enqueue.cc:656-681 | Every cell is assigned to a channel that exists, every used channel gets at least one, a channel is filled before the next one is used, and no channel gets more than fills it unless the split reaches the last channel. |
| ChannelPartition.CellSizeMeaning | nccl-2.29.7-dpfr-plugin/src/enqueue.cc:652-655 | A cell is the least multiple of sixteen bytes that causes the minimal traffic of a channel. |
| ChannelPartition.Counts | nccl-2.29.7-dpfr-plugin/src/enqueue.cc:682-687 | The element counts of the parts are positive and add up to the count of the collective, although the last cell may be partly empty. |
| ChannelPartition.Split | nccl-2.29.7-dpfr-plugin/src/enqueue.cc:651-738 | Splits one collective by its cells, with the element counts that follow, and carries a channel and traffic state in which the unsigned subtraction of the next split cannot wrap. |
| ChannelPartition.Totals | nccl-2.29.7-dpfr-plugin/src/enqueue.cc:573-600 | The first pass counts the tasks that fit at four per batch, up to exactly the first that does not, and sums for every kind their traffic, each at least the minimum, and their channels, at most those there are. |
| ChannelPartition.TrafficPerChannel | nccl-2.29.7-dpfr-plugin/src/enqueue.cc:603-616 | The intended traffic of a channel is its equal share, rounded up to a multiple of sixteen; the division is defined. |
| ChannelPartition.ScheduleTasks | nccl-2.29.7-dpfr-plugin/src/enqueue.cc:568-830 | Fills a plan: each placed collective is split completely over existing channels by the shares of its kind or, with collnet, put on all it may use; consecutive ones of a kind start where the previous one stopped or one channel later; the plan stays within its budget and ends early exactly at a collective that would not fit with a new batch on each of its channels. |
| ChannelPartition.PartsTile | nccl-2.29.7-dpfr-plugin/src/include/device.h:329-355 | The parts computed on the device are non-empty and follow each other from the first element to the last. |
| ChannelPartition.EachElementOnce | nccl-2.29.7-dpfr-plugin/src/include/device.h:329-355 | Every element is handled by exactly one channel. |
| ChannelPartition.ProxyMatchesDevice | nccl-2.29.7-dpfr-plugin/src/enqueue.cc:741-755 | The byte intervals given to the proxies are the parts the device computes. |
| WorkFifo.CursorSlot | nccl-2.29.7-dpfr-plugin/src/enqueue.cc:1268-1273 | A 32-bit cursor that has wrapped any number of times still addresses the unit's place modulo the buffer. |
| WorkFifo.SlotsDiffer | nccl-2.29.7-dpfr-plugin/src/enqueue.cc:1268-1273 | Units less than one buffer apart never share a place. |
| WorkFifo.WriteKeepsIntact | nccl-2.29.7-dpfr-plugin/src/enqueue.cc:1268-1273 | A write leaves every unit that is not yet reclaimed in the buffer. |
| WorkFifo.Fifo.HasRoom | nccl-2.29.7-dpfr-plugin/src/enqueue.cc:1180-1191 | The wrapping comparison holds exactly when the units fit behind those not yet reclaimed. |
| WorkFifo.Fifo.WriteUnit | nccl-2.29.7-dpfr-plugin/src/enqueue.cc:1262-1275 | One 16-byte write appends to the log and disturbs no unreclaimed unit. |
| WorkFifo.Fifo.Upload | nccl-2.29.7-dpfr-plugin/src/enqueue.cc:1229-1283 | Uploads exactly when there is room and then owns the plan's place in the buffer; otherwise nothing changes. |
| WorkFifo.Fifo.LaunchFinish | nccl-2.29.7-dpfr-plugin/src/enqueue.cc:1803-1825 | Records an event exactly when more than an eighth of the buffer was written since the last one. |
| WorkFifo.Fifo.Poll | nccl-2.29.7-dpfr-plugin/src/enqueue.cc:1792-1800 | Space is reclaimed exactly when the oldest recorded event has completed. |
| WorkFifo.Fifo.RunNext | nccl-2.29.7-dpfr-plugin/src/enqueue.cc:1229-1283 | A kernel reads exactly the work that was uploaded for its plan, despite wraps and reuse. |
| WorkFifo.WaitEnds | nccl-2.29.7-dpfr-plugin/src/enqueue.cc:1180-1196 | A host that waits for room gets it at some time, by kernels running and its own polls, if and only if the work fits behind what the recorded events cover. |
| WorkFifo.RoomAfterFinish | nccl-2.29.7-dpfr-plugin/src/enqueue.cc:1569-1571 | The first plan after a launch has ended gets room when it is within the budget of half a buffer. |
| WorkFifo.ThirdPlanWaits | nccl-2.29.7-dpfr-plugin/src/enqueue.cc:1180-1196 | A result about the code: after two plans of one launch that fill the buffer, such as two of half a buffer, a third one of the same launch waits for ever. |
| WorkFifo.Run | nccl-2.29.7-dpfr-plugin/src/enqueue.cc:1180-1825 | In any order of uploads, launch ends, polls and kernels each takes place as without wrap, and every kernel reads its own plan's work. |
| RootPartition.BlocksTile | nccl-2.29.7-dpfr-plugin/src/bootstrap.cc:53-82 | The roots own contiguous blocks of ranks that follow each other from offset to nranks, also with more roots than ranks. |
| RootPartition.Balanced | nccl-2.29.7-dpfr-plugin/src/bootstrap.cc:74-82 | The ranks are dealt evenly: of two roots the earlier one has as many ranks, or one more. |
| RootPartition.RootOfRank | nccl-2.29.7-dpfr-plugin/src/bootstrap.cc:53-73 | rootIdFromRank names a root if and only if the rank lies in that root's block. |
| RootPartition.LocalIds | nccl-2.29.7-dpfr-plugin/src/bootstrap.cc:74-90 | Local ids count the ranks of a root from zero. |
| RootRendezvous.Root.constructor | nccl-2.29.7-dpfr-plugin/src/bootstrap.cc:330-343 | The first check-in fixes the parameters, how many check-ins are expected and how many answers are owed. |
| RootRendezvous.Root.CheckIn | nccl-2.29.7-dpfr-plugin/src/bootstrap.cc:345-379 | Which check-ins are refused and why, and what an accepted one announces, answers and stores. |
| RootRendezvous.EntriesKept | nccl-2.29.7-dpfr-plugin/src/bootstrap.cc:350-379 | What the tables hold of every earlier check-in: its info, unless that was passed on at once to a waiting predecessor, and its address, unless it was answered at once. |
| RootRendezvous.Root.SendRemaining | nccl-2.29.7-dpfr-plugin/src/bootstrap.cc:385-395 | The closing loop sends nothing when for no own rank both entries are left in the tables. |
| RootRendezvous.AllAnswered | nccl-2.29.7-dpfr-plugin/src/bootstrap.cc:323-395 | Once all have checked in, every own rank has been answered exactly once with its successor's info, and no pair of entries is left. |
| RootRendezvous.Rendezvous | nccl-2.29.7-dpfr-plugin/src/bootstrap.cc:299-395 | For every arrival order of a complete set of check-ins, each own rank is told about its successor exactly once by the end of the receive loop; the closing loop adds nothing. |
| RootRendezvous.CheckInAgain | nccl-2.29.7-dpfr-plugin/src/bootstrap.cc:345-379 | A second check-in under a number already seen is refused, except exactly when the first was forgotten. |
| RootRendezvous.ForgottenMeans | nccl-2.29.7-dpfr-plugin/src/bootstrap.cc:345-379 | Nothing of a check-in is left exactly when an own rank before it in the ring had checked in first and either it is an own rank whose successor had checked in first too, or it is no own rank and gave no address. |
| RootRendezvous.CountedTwice | nccl-2.29.7-dpfr-plugin/src/bootstrap.cc:345-379 | An input for which a second check-in is counted: ranks 0, 2 and 1 of four, then 1 again. |
| RootRendezvous.CountedTwiceGrowing | nccl-2.29.7-dpfr-plugin/src/bootstrap.cc:345-379 | An input where that rank is not an own one: a communicator grows from two to three ranks, rank 2 checks in, then rank 0 as rank 3, then rank 0 again, which is counted. |
| BootstrapRing.WhoChecksIn | nccl-2.29.7-dpfr-plugin/src/bootstrap.cc:741-790 | A rank checks in at a root under a given number if and only if that root expects it: its own ranks and the next one around the ring, nobody twice; for one root, many roots and growing communicators with any set of existing ranks holding a handle that contains the first and the last. |
| BootstrapRing.OneSource | nccl-2.29.7-dpfr-plugin/src/bootstrap.cc:776-805 | A rank has a root if and only if it does not hear from its successor through the parent communicator. |
| BootstrapRing.ToRootMembers | nccl-2.29.7-dpfr-plugin/src/bootstrap.cc:768-790 | The messages of all ranks to a root are, each once, one per rank number the root expects, from the rank that has it. |
| BootstrapRing.ArrivalsProper | nccl-2.29.7-dpfr-plugin/src/bootstrap.cc:330-379 | In any order of arrival these messages are a complete set of check-ins for that root. |
| BootstrapRing.ServeRoot | nccl-2.29.7-dpfr-plugin/src/bootstrap.cc:299-395 | Each root, whatever the arrival order, sends each of its ranks exactly the info of the next rank of the ring. |
| BootstrapRing.SecondCheckIn | nccl-2.29.7-dpfr-plugin/src/bootstrap.cc:345-379 | For the check-ins that ranks really send: a second one goes unnoticed exactly for an own rank after both its neighbours, the one before being an own rank, and, when a communicator of several ranks grows, for rank 0 after the last rank. |
| BootstrapRing.Bootstrap | nccl-2.29.7-dpfr-plugin/src/bootstrap.cc:299-807 | One ring results: whatever the order of arrival at each root, every rank hears exactly once, from its root or through the parent communicator, and hears the info of the next rank. |
| BootstrapRing.OneRing | nccl-2.29.7-dpfr-plugin/src/bootstrap.cc:784-807 | When connect infos differ, following what the ranks have heard there is exactly one walk from every rank; it visits every rank once and ends where it began. |
| RingAllGather.Slices | nccl-2.29.7-dpfr-plugin/src/bootstrap.cc:1097-1135 | The slice formulas of both directions are k ranks back and k ranks ahead around the ring. |
| RingAllGather.Send0Keeps | nccl-2.29.7-dpfr-plugin/src/bootstrap.cc:1127-1143 | A slice sent forward is already valid when sent, and the send keeps the invariant. |
| RingAllGather.Send1Keeps | nccl-2.29.7-dpfr-plugin/src/bootstrap.cc:1139-1144 | The same for the backward direction. |
| RingAllGather.SlicesDistinct | nccl-2.29.7-dpfr-plugin/src/bootstrap.cc:1124-1147 | Within the steps of the algorithm no slice is received twice and none overwrites the rank's own, for even and odd rank counts. |
| RingAllGather.PlansOk | nccl-2.29.7-dpfr-plugin/src/bootstrap.cc:1124-1143 | Both plans reach every slice; going both ways takes n / 2 steps, no plan takes fewer, and the last step goes both ways exactly when n is odd. |
| RingAllGather.DoneHoldsAll | nccl-2.29.7-dpfr-plugin/src/bootstrap.cc:1116-1158 | A rank that has finished its steps holds every rank's slice. |
| RingAllGather.NoDeadlock | nccl-2.29.7-dpfr-plugin/src/bootstrap.cc:1127-1148 | As long as some rank has not finished, some send, receive or step change can happen. |
| RingAllGather.AllGather | nccl-2.29.7-dpfr-plugin/src/bootstrap.cc:1083-1158 | From any buffers, a run that begins with any given interleaving ends with all slices at all ranks. |
| RingAllGather.BothAgree | nccl-2.29.7-dpfr-plugin/src/bootstrap.cc:1083-1158 | The bidirectional ring and the one-directional ring give the same result. |
| UnexpectedQueue.Acceptor.Enqueue | nccl-2.29.7-dpfr-plugin/src/bootstrap.cc:990-1007 | Links a connection behind the last one of the list, also of an empty list. |
| UnexpectedQueue.FirstMatchIs | nccl-2.29.7-dpfr-plugin/src/bootstrap.cc:1008-1029 | What is looked for is the first connection with the tag that is from the peer, or from anyone when the peer is negative. |
| UnexpectedQueue.Acceptor.Dequeue | nccl-2.29.7-dpfr-plugin/src/bootstrap.cc:1008-1029 | Unlinks the first match, at the head or behind another element, and leaves the rest in order, or changes nothing. |
| UnexpectedQueue.Acceptor.Accept | nccl-2.29.7-dpfr-plugin/src/bootstrap.cc:1044-1064 | Accepts the oldest connection with the tag from the peer among all that have arrived, putting the others aside in order; without one all of them are put aside and the call has to go on waiting. |
| UnexpectedQueue.AcceptKeepsStreams | nccl-2.29.7-dpfr-plugin/src/bootstrap.cc:990-1064 | Accepting loses no connection and keeps the order of each peer's connections with one tag; what is accepted was the front of its stream. |
| UnexpectedQueue.Run | nccl-2.29.7-dpfr-plugin/src/bootstrap.cc:990-1064 | In any interleaving each arrival and accept takes place, and what was accepted from a peer with a tag, followed by what is still held, is what arrived from it, in order; no connection is lost or duplicated. |
| Barrier.RecvCovers | nccl-2.29.7-dpfr-plugin/src/bootstrap.cc:1190-1195 | After the round with a given mask a rank knows that the last 2*mask ranks have entered the same barrier. |
| Barrier.RecvFacts | nccl-2.29.7-dpfr-plugin/src/bootstrap.cc:1190-1195 | Although all rounds and all barriers share one tag, the first message a rank finds from the peer of its round belongs to this barrier and was sent in this round or later. |
| Barrier.NoEarlyReturn | nccl-2.29.7-dpfr-plugin/src/bootstrap.cc:1181-1197 | In a sequence of any number of barriers no rank returns from one before all ranks have entered it, for every rank count and interleaving. |
| Barrier.NoDeadlock | nccl-2.29.7-dpfr-plugin/src/bootstrap.cc:1181-1197 | As long as some rank has not returned from its last barrier, some rank can move. |
| Barrier.Run | nccl-2.29.7-dpfr-plugin/src/bootstrap.cc:1181-1197 | In any sequence of steps of any number of consecutive barriers each step takes place and both properties hold. |
| CeSync.CollidesWhen | nccl-2.29.7-dpfr-plugin/src/ce_coll.cc:173-199 | Exactly when a sync waits for a value that the previous use of its array has left there. |
| CeSync.PureModesNeverCollide | nccl-2.29.7-dpfr-plugin/src/ce_coll.cc:173-244 | Only sequence numbers, or only capture mode: no sync ever does, wrap-around included. |
| CeSync.FlagStays | nccl-2.29.7-dpfr-plugin/src/ce_coll.cc:176-250 | A flag that has arrived is neither overwritten nor cleared before its wait has passed. |
| CeSync.Safe | nccl-2.29.7-dpfr-plugin/src/ce_coll.cc:165-259 | Without a colliding sync no rank leaves a sync before all ranks have entered it, in every run. |
| CeSync.SafeExactly | nccl-2.29.7-dpfr-plugin/src/ce_coll.cc:165-259 | For two or more ranks that is an equivalence: every run keeps the ranks together if and only if no sync collides. |
| CeSync.MixtureBreaks | nccl-2.29.7-dpfr-plugin/src/ce_coll.cc:165-259 | A result about the code: an ordinary first sync and a captured third one let a rank through alone. |
| ShadowPages.CapacityBounds | nccl-2.29.7-dpfr-plugin/src/allocator.cc:373-383 | A page holds as many objects as fit, 2 at least and 64 at most, so the first object never fills a new page and the stale list link is not used. |
| ShadowPages.SlotSizeMeaning | nccl-2.29.7-dpfr-plugin/src/allocator.cc:373-378 | The slot size is the least size of at most four significant bits that holds the object. |
| ShadowPages.UsesPageBound | nccl-2.29.7-dpfr-plugin/src/allocator.cc:372-373 | An object goes to a page exactly when three of its size fit into one. |
| ShadowTable.Find | nccl-2.29.7-dpfr-plugin/src/allocator.cc:454-463 | The walk along a bucket finds the object if and only if it is live. |
| ShadowTable.Double | nccl-2.29.7-dpfr-plugin/src/allocator.cc:352-369 | Doubling moves every object to the bucket its hash now names and loses none, for any hash function. |
| ShadowTable.InsertKeeps | nccl-2.29.7-dpfr-plugin/src/allocator.cc:322-326 | A new object joins the front of its bucket and the table holds exactly one object more. |
| ShadowPool.Pool.FindPage | nccl-2.29.7-dpfr-plugin/src/allocator.cc:376-396 | Finds the first listed page with the slot size, and the link that leads to it. |
| ShadowPool.Pool.TakeFrom | nccl-2.29.7-dpfr-plugin/src/allocator.cc:390-394 | Takes the lowest free slot; the list of pages again holds exactly the pages with a free slot. |
| ShadowPool.Pool.Alloc | nccl-2.29.7-dpfr-plugin/src/allocator.cc:328-416 | Adds exactly one new live object with its shadow and keeps all others; it takes the lowest free slot of the first listed page of its slot size, adds a page exactly when no page has such a slot, and a large object changes no page; the table doubles exactly at two objects per bucket; size zero gives none. |
| ShadowPool.PageAdded | nccl-2.29.7-dpfr-plugin/src/allocator.cc:376-396 | Taking a slot adds a page if and only if no page has a free slot of the size. |
| ShadowPool.Pool.Free | nccl-2.29.7-dpfr-plugin/src/allocator.cc:418-446 | Removes exactly the given live object, gives its slot back to its page, which enters the front of the list if it was full, and accepts null; any other address is reported as unknown, or, before the first allocation, meets a table that does not exist; in both cases nothing changes. |
| ShadowPool.Pool.ToHost | nccl-2.29.7-dpfr-plugin/src/allocator.cc:448-466 | Gives the shadow of a live object and null for null; any other address is reported as unknown or meets a table that does not exist. |
| ShadowPool.LiveObjectsApart | nccl-2.29.7-dpfr-plugin/src/allocator.cc:373-402 | The bytes of live objects never overlap, on pages or on their own. |

## Left out

- Weak memory ordering: every atomic operation and every lock section is one step.
- CUDA, driver, network, sockets, shared memory, profiler and logging; new device memory, socket arrivals, transport outcomes and event completions are parameters or interleaved steps.
- Out-of-memory paths, aborts and clean-up after errors.
- Integer widths, except where they matter: the FIFO cursors, operation ids, the 15-bit function index, the 14-bit jump and the sync sequence numbers wrap or are bounded as in the code; ranks, counts, offsets and sizes are unbounded.
- RingAllReduce.AllRanksAgree: primitives are one step per chunk with two chunks of buffering per link, without the slices inside a chunk, registered direct buffers or the LL and LL128 protocols; the same holds for RingInPlace.AllRanksAgreeInPlace.
- RingAllReduce.RunRing: two or more ranks; a communicator of one rank is launched through a separate path that does not use the ring.
- ProxyPool.Run: the batch limit of a fetch, producers that wait and delivery of everything posted are covered; that the progress thread keeps running, its sleep and its waking are not. An operation is its opCount and an opaque body, and an operation without a connection does not occur.
- ProxyProgress.Run: which slot an operation goes to and whether that slot is shared are inputs of each append.
- WorkBatch.Channel.Append: offsets increase strictly within a channel, as the planner's growing workBytes gives them.
- WorkPlan.LoadWorkBatch: sequential unpacking in place of the thread rotation and the per-thread packs of 16 bytes.
- WorkPlan.RunPlan: work in kernel arguments and work in the buffer are offsets alike; the plan budget is stated by ChannelPartition.ScheduleTasks for collectives only.
- ChannelPartition.ScheduleTasks: how many batches a placed task really starts, at most one a channel, is an input; chunk sizes, proxy steps and the profiler's channel count (an 8-bit field) are not part of it.
- WorkFifo.Run: a plan is at most half the 32-bit range, which the plan budget (half the buffer) implies; the buffer holds at least 16 bytes. That events complete and that the host polls is what WorkFifo.WaitEnds allows, not something it claims; the abort flag that ends a wait is not modelled.
- RootRendezvous.Rendezvous: each local id checks in once, infos are non-zero, and so are the addresses of ranks that wait for an answer; the staggered connection delays are not modelled.
- BootstrapRing.WhoChecksIn: a growing communicator has one root, and its first and its last existing rank are among those that hold the handle, as its callers arrange; connections, sockets and the point-to-point calls between existing ranks are messages that arrive.
- RingAllGather.AllGather: ranks, links and buffers are values of a state machine, not buffers updated in place; a slice is one value.
- Barrier.Run: between each pair of ranks messages arrive in the order in which they were sent, as UnexpectedQueue.Run states for connections of one peer and tag; the optional renumbering of ranks is the identity.
- UnexpectedQueue.Acceptor.Accept: heap addresses are indices into a sequence of nodes, and freed nodes are not reused; without a match the model reports it where the code waits.
- CeSync.SafeExactly: one sequence of syncs; replays of a captured graph, the multicast variant `ncclPrepMCSync` and several communicators on one array are not modelled.
- P2pSchedule.Comm.ScheduleP2p: a division by zero is a failure that leaves the schedule untouched, and so is asking for tables with a negative number of groups; the parameter is the 32-bit value to which the code narrows it.
- ShadowPool.Pool.Alloc: the driver gives memory that overlaps nothing in use; zeroing of slots and shadows is not modelled, and bucket chains are sequences.
- Tree, PAT, NVLS, CollNet, AllGather and Broadcast kernels, cost models and tuning, configuration, `mem_manager.cc` and `group.cc`.
