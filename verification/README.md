# KUPL: shared-memory collectives, memory pool, task ordering, work partitioning

KUPL is a parallel runtime. This project models the algorithms in it whose correctness is a property of
whole runs, or of every input, and proves those properties in Dafny 4.11. `dafny verify dfyconfig.toml`
checks everything.

## How it is modelled

**Concurrent code** is a state machine over values: a `State`, one predicate per transition, `Next` for what
may happen next (any participant, any order), and `IsRun` for finite runs from the initial state. Each access
to shared memory (a flag, a counter, a lock, a buffer element, a list head) is a transition of its own; what a
participant does to its private data is folded into the transition next to it. Memory is sequentially
consistent. Every protocol has an inductive invariant `Inv`, a lemma that each step keeps it, and theorems about
`tr[i]` for every run `tr` and every `i`. Each also has a theorem that no reachable state is stuck, and a measure
that every step of the protocol lowers or a position that it raises, so that from every reachable state the run can
be continued to where everybody is through (`Completes`; for the fast bins, where the operation in progress is through,
`Finishes`).

**Sequential code that updates things** is a class or a method on arrays with the fields of the source:
`NormalPool.NormalPool`, `TaskDag.Dag`, `StaticGraph.SGraph`, `FenceFlags.Window`, `LoopRange.CheckRange`,
`ParallelCopy.CopyShare`, and the small loops of `Segments`, `FreeLists`, `LoopChunks` and `Taskloop`.

| file | what it models |
|---|---|
| `ToggleFence.dfy`, `HypercubeFence.dfy`, `HypercubeProgress.dfy`, `FenceFlags.dfy` | the peer and linear fences, the recursive-doubling fence, the flags in a window |
| `Pow2.dfy`, `Segments.dfy`, `ReduceRounds.dfy`, `Allreduce.dfy`, `AllreduceProof.dfy`, `AllreduceProgress.dfy` | the allreduce: index segments, what lockstep rounds compute, the interleaved machine and its proof |
| `RingBcast.dfy`, `RingBcastProof.dfy`, `RingBcastProgress.dfy` | the ring-pipelined broadcast, started any number of times |
| `DistBarrier.dfy` | the centralised thread barrier |
| `Blocks.dfy`, `FreeLists.dfy`, `HeapSteps.dfy`, `Mappings.dfy`, `NormalPool.dfy` | the boundary-tag allocator: headers, bins, single mappings, allocation and release |
| `FastCache.dfy`, `FastCacheProof.dfy`, `FastCacheRuns.dfy`, `FastCacheProgress.dfy`, `FastLayout.dfy` | the per-executor fast bins and the layout of carved blocks |
| `OrderedQueue.dfy`, `OrderedQueueProof.dfy`, `OrderedQueueProgress.dfy` | the in-order queue |
| `TaskDag.dfy`, `StaticGraph.dfy`, `StaticGraphProof.dfy`, `StaticGraphProgress.dfy`, `Edges.dfy` | the address-based dependency graph and the replayable graph |
| `LoopRange.dfy`, `LoopChunks.dfy`, `DynamicFor.dfy`, `DynamicForProgress.dfy`, `LoopLimits.dfy`, `Taskloop.dfy` | range checking, chunks, the dynamic and static policies, what stays within 64 bits, task loops |
| `ParallelCopy.dfy` | the parallel one- and two-dimensional copies |
| `Division.dfy`, `Sums.dfy`, `Options.dfy` | facts about division, shares and sums; the option type |

**The allreduce and its fences.** The two full fences let a rank out when every rank has entered, which is what
`HypercubeFence.FenceIsABarrier` and `ToggleFence.FenceIsABarrier` prove of the fences themselves. A peer fence
lets a rank out when its peer has entered as many fences with it; `ToggleFence.TestExact` proves that the toggling
flags test just that. Inside the allreduce a rank meets the same peer twice (once per phase), and
`AllreduceProof.StageSpinExact` shows that counting fences per pair never confuses the two. Reduction runs over
`int` values with any operation that is commutative and associative.

**The ring broadcast.** The root's start-up and its chunks advance one counter, so from the second run on other
ranks can get through the start-up before the root has entered the run. The proof shows why that is harmless: the
root sends nothing before every rank has announced itself ready for the run.

**What turned out not to hold as one might read the code**

- A batch of foreign buffers is meant to hold 16 buffers. It holds more if and only if its executor has never sent
  a batch home before and has counted 16, and then it holds 17: the first buffer put into an empty batch is not
  counted (`FastCacheProof.BatchIsBounded`, with a run that gets there for every size of buffers in
  `FastCacheRuns.SeventeenBuffers`).
- Removing repeated addresses from a dependency list leaves as many entries as it reports if and only if no
  address is repeated with another kind of access, or the list is replaced by one entry because it holds a
  dependency on everything (`TaskDag.RemoveDuplicates`, with an input in `TaskDag.RepeatedExample`).
- A task whose list holds no dependency on everything and repeats addresses only with the same kind of access is made
  to wait for itself if and only if one of the repeated addresses is written: the second time it is the last writer
  itself (`TaskDag.Dag.AddTask`, with an input in `TaskDag.WritesTwiceExample`). It then never starts, whatever else is
  submitted or executed (`TaskDag.NeverStarts`). The order of conflicting tasks holds all the same. Addresses that are
  only read may be repeated.
- The range check itself goes through values outside 64 bits. For an accepted dimension that happens if and only
  if its extent and the size of a chunk add up to 2^63, or the chunk size is -1 and the extent 2^63 - 2. It also
  happens for every dimension that the check comes to with lower above upper and a step of -2^63, which is negated,
  accepted or not, unless the loop is static and the extent is found too large before (`LoopRange.CheckRange`,
  `LoopRange.CountFits`, inputs in `LoopRange.OverflowExamples`).
  For these inputs the source's result is undefined; the model computes on unbounded integers.
- Counting the chunks of an accepted range for the loop has the same flaw, if and only if extent and chunk size add
  up to 2^63. Nothing else that is computed to count, decode and split the chunks leaves 64 bits, whatever the sign
  of the steps (`LoopLimits.AcceptedLoopFits`).
- The counters of a dynamic loop stay within 64 bits in every run if and only if chunks and threads together are at
  most 2^63 - 1 (`LoopLimits.CountersFit`).
- In a static loop in one dimension the last thread computes its upper bound outside 64 bits if and only if a whole
  last chunk would end there (`LoopChunks.StaticShare`, with an accepted input in `LoopChunks.StaticShareExample`).
- The counters of a dynamic loop cover the chunks if and only if there are no more threads than chunks, or no
  chunks at all (`DynamicFor.StretchesCover`); `LoopChunks.NumThreads` shows that the program never starts more.
- The configured alignment is kept by every buffer that is cut off the far end of a block. A buffer that begins a chunk,
  and one that is mapped on its own, is aligned if and only if the alignment divides the 48 bytes of its header, so for
  32 bytes and more it is not (`NormalPool.NormalPool.Alloc`, with an input in `NormalPool.MisalignedBuffer`).
- A buffer that was mapped on its own is unmapped completely when it is released if and only if its mapping is
  shorter than 2^31 bytes, because its header keeps the length in 32 bits (`NormalPool.ReleaseUnmaps`, with a
  buffer of 2 GiB of which nothing is unmapped in `NormalPool.LongMapping`).
- Of the fence between all ranks only rank 0's three flags have room in the window: flag idx of rank r lies where
  flag idx + r of rank 0 lies, or behind the window (`FenceFlags.OneFlagPerSlot`).

## Model

| member | source | states |
|---|---|---|
| ToggleFence.TestExact | src/memory/shm/fence/kupl_fence_peer.cpp:43-54 | a participant's spin on another's flag ends exactly when that one has entered the same fence: the parity of a slot never stands for another round |
| ToggleFence.NeverAborts | src/memory/shm/fence/kupl_fence_peer.cpp:48-50 | the exit of the peer fence for an error code in the flag is never taken |
| ToggleFence.FenceIsABarrier | src/memory/shm/fence/kupl_fence_linear.cpp:30-45 | over any number of repetitions nobody leaves fence k before all have entered it, and participants stay within one fence of each other |
| ToggleFence.BlockedOnlyByALatecomer | src/memory/shm/fence/kupl_fence_linear.cpp:36-44 | a participant inside a fence can move on unless the one it looks at has not entered that fence |
| ToggleFence.StepAdvances | src/memory/shm/fence/kupl_fence_peer.cpp:36-57 | every step takes the participant that makes it further |
| ToggleFence.Completes | src/memory/shm/fence/kupl_fence_linear.cpp:30-45 | from every reachable state the run can be continued to where every participant has left any given number of fences |
| HypercubeFence.Create | src/memory/shm/fence/kupl_fence_rd.cpp:22-36 | the constants are the largest power of two not above the size, and its logarithm |
| HypercubeFence.SpinExact | src/memory/shm/fence/kupl_fence_rd.cpp:83-99 | at each level the spin ends exactly when the rank one bit away has come as far, in spite of slots being reused |
| HypercubeFence.PeerSpinExact | src/memory/shm/fence/kupl_fence_rd.cpp:38-63 | the spin of a rank outside the hypercube and its partner ends exactly when the other has entered the same peer phase |
| HypercubeFence.FenceIsABarrier | src/memory/shm/fence/kupl_fence_rd.cpp:65-113 | for every number of ranks no rank leaves a round before all have entered it |
| HypercubeFence.SlotsRotateSafely | src/memory/shm/fence/kupl_fence_rd.cpp:100-101 | a rank starts a round with its slot at zero, and clearing an old slot hides no value a neighbour still waits for |
| HypercubeFence.NeverStuck | src/memory/shm/fence/kupl_fence_rd.cpp:65-113 | while a rank is in the fence some rank can take a step |
| HypercubeProgress.StepAdvances | src/memory/shm/fence/kupl_fence_rd.cpp:65-113 | every step takes the rank that makes it further, and no other |
| HypercubeProgress.Completes | src/memory/shm/fence/kupl_fence_rd.cpp:65-113 | from every reachable state the run can be continued to where every rank has left any given number of fences |
| FenceFlags.FlagInside | src/memory/shm/kupl_shm.cpp:215-226 | every flag the fences use lies in the window |
| FenceFlags.FlagsApart | src/memory/shm/fence/kupl_fence.h:145-153 | any two flags in use lie in different cache lines |
| FenceFlags.OneFlagPerSlot | src/memory/shm/fence/kupl_fence.h:145-153 | flag idx of rank r of the common fence lies where flag idx + r of rank 0 lies, and in the window just when idx + r is below 3 |
| FenceFlags.Window.SetFlag | src/memory/shm/fence/kupl_fence.h:131-154 | setting a flag changes it and no other flag in use |
| FenceFlags.Window.GetFlag | src/memory/shm/fence/kupl_fence.h:156-175 | reads the flag that was set |
| Segments.CalcOffset | src/memory/shm/allreduce/kupl_allreduce.cpp:64-79 | the segment after halving once per bit of the rank |
| Segments.CalcHibit | src/memory/shm/allreduce/kupl_allreduce.cpp:81-95 | the position of the highest bit |
| Segments.VRankBijection | src/memory/shm/allreduce/kupl_allreduce.cpp:113-126 | participating ranks and virtual ranks correspond one to one, and the way back is the one the loops use |
| Segments.SegmentByLowBits | src/memory/shm/allreduce/kupl_allreduce.cpp:64-79 | an index lies in a rank's segment at a level exactly when its leaf agrees with the rank in the low bits; so segments are nested and those of different low bits are disjoint |
| ReduceRounds.PeerWritesElsewhere | src/memory/shm/allreduce/kupl_allreduce.cpp:210-301 | an index that a rank takes from its peer in a stage is written by that peer neither in that stage nor in a later one before the two meet again |
| ReduceRounds.RoundsComputeTotal | src/memory/shm/allreduce/kupl_allreduce.cpp:210-301 | halving and gathering in lockstep leave every participating rank with the sum over all ranks, for every count and rank number |
| AllreduceProof.StageSpinExact | src/memory/shm/allreduce/kupl_allreduce.cpp:249-252 | the peer fence of a stage lets a rank through exactly when its peer of that stage has entered it |
| AllreduceProof.StepInv | src/memory/shm/allreduce/kupl_allreduce.cpp:156-392 | every load, store and fence step of any rank keeps the invariant that ties each buffer element to the lockstep rounds |
| AllreduceProof.ReturnedHoldsTheSum | src/memory/shm/allreduce/kupl_allreduce.cpp:332-392 | under every interleaving a rank that has returned holds, at every index, the sum over all ranks' send buffers |
| AllreduceProof.RaceFree | src/memory/shm/allreduce/kupl_allreduce.cpp:210-301 | while a rank may read an index of its peer's receive buffer nobody is writing that index there |
| AllreduceProof.SendBuffersAreThere | src/memory/shm/allreduce/kupl_allreduce.cpp:156-208 | a rank reads another's send buffer, before the first full fence or at the first stage, only while that one is in the call |
| AllreduceProof.NeverStuck | src/memory/shm/allreduce/kupl_allreduce.cpp:332-392 | until all ranks have returned some rank can take a step, and it takes that rank further |
| AllreduceProgress.Completes | src/memory/shm/allreduce/kupl_allreduce.cpp:332-392 | from every reachable state the run can be continued to where all ranks have returned, and every receive buffer holds the sum |
| RingBcast.ChunksTile | src/memory/shm/bcast/kupl_bcast.cpp:289-313 | the chunks tile the buffer |
| RingBcast.SomeChunks | src/memory/shm/bcast/kupl_bcast.cpp:407-410 | every broadcast that is not refused has chunks |
| RingBcastProof.AwaitExact | src/memory/shm/bcast/kupl_bcast.cpp:33-44 | a rank waiting for a chunk passes exactly when the rank before it has announced that chunk of the same run |
| RingBcastProof.ChunksArrive | src/memory/shm/bcast/kupl_bcast.cpp:309-327 | a chunk of the current run that a rank has waited for is in its buffer, and stays there during the run |
| RingBcastProof.ReturnsWithTheData | src/memory/shm/bcast/kupl_bcast.cpp:285-329 | for any number of ranks, root, chunk count and repeated starts, a rank returns holding what the root broadcast in that run |
| RingBcastProof.CopiesAreAlone | src/memory/shm/bcast/kupl_bcast.cpp:314-326 | while a chunk is being copied neither its source nor its target is used by anybody else |
| RingBcastProof.NeverStuck | src/memory/shm/bcast/kupl_bcast.cpp:14-44 | as long as a rank is inside some rank inside can move, provided the others come |
| RingBcastProgress.InnerAdvances | src/memory/shm/bcast/kupl_bcast.cpp:285-329 | every step inside the broadcast takes the rank that makes it further in its program |
| RingBcastProgress.MayEnter | src/memory/shm/bcast/kupl_bcast.cpp:297-301 | a rank outside can enter the next broadcast at any time |
| RingBcastProgress.Completes | src/memory/shm/bcast/kupl_bcast.cpp:285-329 | from every reachable state the run can be continued to where every rank has returned from any given number of broadcasts |
| DistBarrier.ScanExact | src/mt/barrier/kupl_barrier_dist.cpp:69-76 | the master's test passes exactly when the thread has entered the master's round, even after the counters wrapped around |
| DistBarrier.IsABarrier | src/mt/barrier/kupl_barrier_dist.cpp:65-97 | no thread leaves a round before all have entered it |
| DistBarrier.NoReleaseIsLost | src/mt/barrier/kupl_barrier_dist.cpp:85-96 | when the master sets a leave flag the thread has put it back after the round before and waits for it |
| DistBarrier.NeverStuck | src/mt/barrier/kupl_barrier_dist.cpp:65-97 | as long as a thread is inside some thread inside can move, provided the others come |
| DistBarrier.InnerAdvances | src/mt/barrier/kupl_barrier_dist.cpp:65-97 | every step inside the barrier takes one thread further, and no other |
| DistBarrier.Completes | src/mt/barrier/kupl_barrier_dist.cpp:65-97 | from every reachable state the run can be continued to where every thread has left any given number of barriers |
| Blocks.BlocksDisjoint | src/memory/mpool/kupl_mpool.cpp:245-556 | two blocks of a tiled pool never share an address |
| Blocks.BlocksCover | src/memory/mpool/kupl_mpool.cpp:245-556 | every address of a chunk below the closing header lies in a block |
| Blocks.TagTellsLeftBlock | src/memory/mpool/kupl_mpool.cpp:522-541 | a nonzero tag is the exact size of the block directly to the left, and that block is free |
| FreeLists.GetBinIndex | src/memory/mpool/kupl_mpool.cpp:213-233 | the binary search finds the one bin whose sizes a size belongs to |
| FreeLists.BinsMonotone | src/memory/mpool/kupl_mpool.cpp:213-233 | larger sizes belong to the same or a later bin, so no size belongs to two |
| NormalPool.NormalPool.InsertIntoFreelist | src/memory/mpool/kupl_mpool.cpp:235-243 | the block is in the list of its size, and only its bin number has changed |
| NormalPool.NormalPool.TravelList | src/memory/mpool/kupl_mpool.cpp:245-297 | first fit in one list: either no block of it is large enough, or the first that is serves the request, cut at its far end if a header and 16 bytes are left over; all other blocks in use stay, and the pool stays tiled and listed |
| NormalPool.NormalPool.GrowChunk | src/memory/mpool/kupl_mpool.cpp:459-484 | a mapped chunk becomes one free block and a closing header |
| NormalPool.NormalPool.Alloc | src/memory/mpool/kupl_mpool.cpp:417-486 | an existing block is used whenever some free block is large enough, the first fitting one of the first list that has one; otherwise one chunk is mapped and serves the request; the size is that asked for, rounded up, plus less than a header and 16 bytes; blocks in use stay where they are; exactly which buffers are aligned |
| NormalPool.NormalPool.Release | src/memory/mpool/kupl_mpool.cpp:487-556 | with fewer than 4 blocks counted the block becomes free as it is; otherwise one free block takes in the free right neighbour and the left one its tag shows, with the tag behind it set, or the whole chunk is unmapped if two have been mapped; nothing else changes, the counters as in the source |
| NormalPool.ReleaseUnmaps | src/memory/mpool/kupl_mpool.cpp:497-505 | a buffer mapped on its own is unmapped completely exactly if its mapping is shorter than 2^31 bytes |
| NormalPool.LongMapping | src/memory/mpool/kupl_mpool.cpp:426-438 | a buffer of 2 GiB, allocated and released, whose mapping is still there |
| NormalPool.MisalignedBuffer | src/memory/mpool/kupl_mpool.cpp:421-438 | with an alignment of 64 bytes a buffer that is not aligned |
| NormalPool.ValidMeans | src/memory/mpool/kupl_mpool.cpp:235-556 | whatever allocations and releases came before: blocks in use never overlap, each list holds exactly the free blocks of its sizes, and a nonzero tag is the exact size of a free left neighbour |
| FastCacheProof.ExactlyOnePlace | src/memory/mpool/kupl_mpool.cpp:595-746 | under any interleaving every carved buffer is with users, with the executor that carves it, or on exactly one list, as found by following the links in memory |
| FastCacheProof.ListsHaveOneOwner | src/memory/mpool/kupl_mpool.cpp:701-745 | self and sync lists hold their executor's buffers only; a batch, in flight too, holds buffers of one other executor |
| FastCacheProof.BatchIsBounded | src/memory/mpool/kupl_mpool.cpp:708-735 | a batch holds as many buffers as are counted, and one more until its executor's first flush: it exceeds 16 exactly before the first flush with 16 counted, and then holds 17; its tail is its last buffer with a null link |
| FastCacheRuns.FlushedMeans | src/memory/mpool/kupl_mpool.cpp:724-745 | an executor counts as having flushed exactly when it has sent a batch home earlier in the run |
| FastCacheRuns.SeventeenBuffers | src/memory/mpool/kupl_mpool.cpp:708-722 | for every size of buffers and two or more executors a run at whose end a batch holds 17 buffers |
| FastCacheRuns.NeverStuck | src/memory/mpool/kupl_mpool.cpp:642-746 | an executor with an operation in progress always has a step, one that ends a pop or push if the list is as it was read; an idle one can allocate, and free any buffer a user holds |
| FastCacheProgress.Finishes | src/memory/mpool/kupl_mpool.cpp:642-746 | an executor's own steps bring the operation it is in to its end: the buffer is handed out, or the batch is in its owner's sync list |
| FastCacheProgress.GivesOwn | src/memory/mpool/kupl_mpool.cpp:642-690 | an allocation hands out exactly one buffer, which belongs to the executor, and a free takes back exactly the one that is freed |
| FastCacheProgress.CarvesWhenEmpty | src/memory/mpool/kupl_mpool.cpp:664-689 | a block is carved only by an executor that has nothing of its own to reuse |
| FastCacheProgress.CarvedCompletely | src/memory/mpool/kupl_mpool.cpp:613-636 | all the buffers that a block has room for are carved |
| FastCacheProof.PopNeverFindsNull | src/memory/mpool/kupl_mpool.cpp:672-684 | an executor that takes its sync list never finds it empty meanwhile, so the null link is never followed |
| FastCacheProof.StepInv | src/memory/mpool/kupl_mpool.cpp:642-746 | every step of allocation, free, flush and user writes keeps every buffer in one place |
| FastLayout.FastBinFits | src/memory/mpool/kupl_mpool.cpp:647-662 | a small request gets a bin whose buffers hold it with less than a cache line to spare |
| FastLayout.CarveFits | src/memory/mpool/kupl_mpool.cpp:613-636 | carved buffers and their descriptors lie in the block and do not overlap |
| FastLayout.BuffersAligned | src/memory/mpool/kupl_mpool.cpp:626-628 | every carved buffer begins at a cache line |
| FastLayout.AlignedApart | src/memory/mpool/kupl_mpool.cpp:626-628 | blocks that are apart stay apart after alignment |
| OrderedQueueProof.RunsInOrder | src/mt/kupl_queue.cpp:162-190 | the functions of the items begin and end one after the other in submission order, each at most once, for any submitters and executors |
| OrderedQueueProof.EdgeIsNeverLate | src/mt/kupl_dag.cpp:30-54 | the last event cannot leave the queue or finish before the edge to the new task and its counter are in place |
| OrderedQueueProof.ReadyArrayFits | src/mt/kupl_task.cpp:100-134 | the array sized by an unlocked read of the successor count has room for all tasks that become ready |
| OrderedQueueProof.CountIsExact | src/mt/kupl_queue.cpp:162-190 | the event count is zero exactly when all submitted items have left the queue |
| OrderedQueueProof.NeverStuck | src/mt/kupl_event.cpp:232-257 | until every submitted item is done a step is possible |
| OrderedQueueProgress.WorksLowers | src/mt/kupl_queue.cpp:162-190 | every step of a submitter or an executor leaves less to do |
| OrderedQueueProgress.Completes | src/mt/kupl_event.cpp:103-111 | from every reachable state the queue gets to where every item submitted has been executed, in order, and a new submission can begin |
| OrderedQueueProof.AllRan | src/mt/kupl_event.cpp:103-111 | when all items are done every function has run to its end |
| TaskDag.RemoveDuplicates | src/mt/kupl_dag.cpp:238-273 | the list stands for the same accesses afterwards; as many entries as reported if and only if no address is repeated with another kind, and then the list is unchanged; a dependency on everything replaces the list |
| TaskDag.RepeatedExample | src/mt/kupl_dag.cpp:238-273 | a list with one address read and written, for which two entries are reported and one is left |
| TaskDag.ReadyTest | src/mt/kupl_dag.cpp:304-306 | modulo 2^32 the readiness test holds only for zero links |
| TaskDag.Dag.Precede | src/mt/kupl_dag.cpp:30-54 | whatever an unfinished predecessor stands for will have finished before the new task starts; the new task itself may be the predecessor |
| TaskDag.Dag.DepOut | src/mt/kupl_dag.cpp:56-76 | a writer goes behind everyone who touched the address, and becomes its last writer; when it comes to the address again it goes behind itself |
| TaskDag.Dag.DepIn | src/mt/kupl_dag.cpp:78-83 | a reader goes behind everyone who wrote the address, and joins its readers |
| TaskDag.Dag.ProcessDep | src/mt/kupl_dag.cpp:85-128 | one dependency puts the new task behind every earlier task that conflicts with it at that address, also for an address that has no entry yet |
| TaskDag.Dag.ProcessAll | src/mt/kupl_dag.cpp:129-133 | a dependency on everything puts the new task behind every earlier task that touched anything |
| TaskDag.Dag.AddTask | src/mt/kupl_dag.cpp:275-312 | submission keeps all conflicting tasks ordered and puts the task behind no others; it is scheduled at once exactly when all tasks it conflicts with have finished and its list repeats no address that it writes; in that last case it waits for itself |
| TaskDag.WritesTwiceExample | src/mt/kupl_dag.cpp:275-312 | a list that writes one address twice, submitted alone, leaves the task waiting for itself |
| TaskDag.NeverStarts | src/mt/kupl_dag.cpp:144-163 | a task that waits for itself never starts, whatever is submitted, taken, finished or released afterwards |
| TaskDag.Dag.ReleaseNext | src/mt/kupl_dag.cpp:144-163 | a successor is scheduled exactly when the last task it waited for releases it |
| TaskDag.ConflictsAreOrdered | src/mt/kupl_dag.cpp:30-163 | of two conflicting tasks the earlier has finished before the later starts |
| TaskDag.WaitsOnlyForConflicts | src/mt/kupl_dag.cpp:30-163 | in every state a task waits only for tasks that it conflicts with, or for itself |
| TaskDag.SomethingToDo | src/mt/kupl_task.cpp:100-147 | while a task is unfinished something can be taken, run or released, unless it or an earlier task waits for itself |
| StaticGraph.SGraph.AddNode | src/mt/kupl_static_graph.cpp:76-87 | a new node is a source without neighbours |
| StaticGraph.SGraph.AddDep | src/mt/kupl_static_graph.cpp:89-105 | one edge, one predecessor more, and the later node is no source any longer; counters keep counting the edges |
| StaticGraphProof.AfterPredecessors | src/mt/kupl_task.cpp:100-147 | in a run a node starts only after all its predecessors have returned, and at most once |
| StaticGraphProof.ZeroMeansDone | src/mt/kupl_static_graph.cpp:130-142 | once the sources are seeded a task count of zero means that every node is done |
| StaticGraphProof.ReadyForReplay | src/mt/kupl_static_graph.cpp:130-142 | after the k-th run every node has run k times, all counters are back at their number of predecessors, and the bag is empty |
| StaticGraphProof.NeverStuck | src/mt/scheduler/kupl_sched.cpp:168-191 | until the caller returns a step is possible |
| StaticGraphProgress.WorksLowers | src/mt/kupl_task.cpp:100-147 | every step of the caller or an executor leaves less to do |
| StaticGraphProgress.Completes | src/mt/kupl_static_graph.cpp:130-142 | from every state of a run the caller gets to return, every node having run once more, and can then start the graph again |
| LoopRange.CheckRange | src/mt/kupl_check.cpp:21-76 | accepts a range exactly when each dimension passes and the product of the counted chunks is at most 2^63 - 2; normalises block sizes; and tells for which inputs a value computed on the way leaves 64 bits |
| LoopRange.CheckDim | src/mt/kupl_check.cpp:30-69 | the tests together pass exactly the dimensions that have iterations, a positive block size, extent and chunk size of at most 2^63 together and, unless static, an end plus one chunk within 64 bits |
| LoopRange.AcceptedFits | src/mt/kupl_check.cpp:42-69 | for one accepted dimension with a step of either sign: counting its chunks leaves 64 bits exactly if extent and chunk size are 2^63 together, decoding a chunk never does |
| LoopRange.CountFits | src/mt/kupl_check.cpp:70 | the check's own count of an accepted dimension leaves 64 bits in exactly two cases |
| LoopRange.OverflowExamples | src/mt/kupl_check.cpp:46-70 | inputs for each of the ways the check leaves 64 bits, two of them accepted |
| LoopLimits.AcceptedLoopFits | src/mt/kupl_parallel_for.cpp:446-460 | whatever range is accepted under the dynamic or task policy: no more chunks than were counted, at most 2^63 - 2, and every partial product, every bound of every chunk and every start and target of the counters fits 64 bits; counting a dimension does if extent and chunk size are not 2^63 together |
| LoopLimits.CountersFit | src/mt/kupl_parallel_for.cpp:400-422 | the counters stay within 64 bits in every run if and only if chunks and threads are at most 2^63 - 1 together |
| LoopChunks.CalcChunkInfo | src/mt/kupl_parallel_for.cpp:446-460 | chunk sizes, chunk counts and their product |
| LoopChunks.ComputeChunkRange | src/mt/kupl_parallel_for.cpp:384-398 | the box of a chunk number in mixed radix |
| LoopChunks.DigitsOfEncode | src/mt/kupl_parallel_for.cpp:384-398 | decoding undoes encoding |
| LoopChunks.EncodeOfDigits | src/mt/kupl_parallel_for.cpp:384-398 | encoding undoes decoding, for every chunk number |
| LoopChunks.OneChunk | src/mt/kupl_parallel_for.cpp:384-398 | with steps of either sign each value of the loop is taken in exactly one chunk |
| LoopChunks.EveryPointOnce | src/mt/kupl_parallel_for.cpp:384-398 | in any number of dimensions each point lies in exactly one chunk, and chunks hold no other points |
| LoopChunks.NumThreads | src/mt/kupl_parallel_for.cpp:693-720 | never more threads than chunks |
| LoopChunks.StaticShare | src/mt/kupl_parallel_for.cpp:290-317 | a thread's share of a one-dimensional static loop is the stretch up to the next thread's; its bounds are computed within 64 bits for every thread but the last, and for the last exactly if a whole last chunk would end there |
| LoopChunks.StaticShareExample | src/mt/kupl_parallel_for.cpp:290-317 | an accepted loop whose last thread leaves 64 bits |
| LoopChunks.StaticOnce | src/mt/kupl_parallel_for.cpp:290-317 | each value of the loop falls into exactly one share |
| DynamicFor.Prepare | src/mt/kupl_parallel_for.cpp:568-578 | each counter ends where the next begins |
| DynamicFor.StretchesCover | src/mt/kupl_parallel_for.cpp:568-578 | the counters cover the chunks if and only if there are no more threads than chunks, or no chunks |
| DynamicFor.CountersAreBounded | src/mt/kupl_parallel_for.cpp:400-422 | a counter never exceeds its target by more than the number of threads |
| DynamicFor.EveryChunkOnce | src/mt/kupl_parallel_for.cpp:400-422 | no chunk is run twice, and all have been run when the threads have returned |
| DynamicFor.EveryPointInOneCall | src/mt/kupl_parallel_for.cpp:384-422 | each point of the iteration space is passed to the function in exactly one call, and no other point is passed |
| DynamicFor.NeverWaits | src/mt/kupl_parallel_for.cpp:400-422 | a thread that has not returned can always take a step |
| DynamicForProgress.StepLowers | src/mt/kupl_parallel_for.cpp:400-422 | every step of any thread leaves less to do |
| DynamicForProgress.Completes | src/mt/kupl_parallel_for.cpp:400-422 | from every reachable state the loop gets to where all threads have returned and every chunk has been run exactly once |
| Taskloop.DispatchLinear | src/mt/kupl_graph.cpp:251-293 | the row-wise dispatcher deals every task number exactly once, a contiguous share to each executor |
| Taskloop.IntervalsTile | src/mt/kupl_graph.cpp:312-321 | the intervals of the dispatching tasks follow each other without gap or overlap |
| Taskloop.DispatchedOnce | src/mt/kupl_graph.cpp:304-368 | each task number is dealt by exactly one of them |
| Taskloop.ComputeBox | src/mt/kupl_graph.cpp:342-358 | the box of a task number, the first dimension running fastest |
| Taskloop.BoxesTile | src/mt/kupl_graph.cpp:420-445 | for steps of one each point lies in the box of exactly one task, and boxes hold no other points |
| Taskloop.LinearCovers | src/mt/kupl_graph.cpp:251-293 | of what the row-wise dispatcher deals for an index space, exactly one entry stands for each point |
| Taskloop.ConcurrentCovers | src/mt/kupl_graph.cpp:304-368 | exactly one number of exactly one dispatching task stands for each point |
| ParallelCopy.CopyByRows | src/dm/memcpy/kupl_memcpy.cpp:648-653 | copies every byte of the rectangle and nothing else |
| ParallelCopy.FitsExact | src/dm/memcpy/kupl_memcpy.cpp:648-653 | what the buffers must hold: all rows, but no padding behind the last |
| ParallelCopy.ShareBounds | src/dm/memcpy/kupl_memcpy.cpp:583-618 | the bounds of a thread's share after alignment to cache lines of the source |
| ParallelCopy.SharesFollow | src/dm/memcpy/kupl_memcpy.cpp:583-618 | the shares begin at the first byte, end behind the last and leave no gap |
| ParallelCopy.SharesCover | src/dm/memcpy/kupl_memcpy.cpp:583-618 | every byte is in some share |
| ParallelCopy.SharesBeginAtLines | src/dm/memcpy/kupl_memcpy.cpp:583-618 | a share begins less than a cache line before the thread's even share, where a row or a cache line of the source begins |
| ParallelCopy.CopyShare | src/dm/memcpy/kupl_memcpy.cpp:573-633 | a thread copies the bytes of its share and nothing else |
| ParallelCopy.AnyInterleaving | src/dm/memcpy/kupl_memcpy.cpp:573-653 | whatever order the threads' byte writes happen in, the result is that of the copy row by row |
| ParallelCopy.PaddingUntouched | src/dm/memcpy/kupl_memcpy.cpp:573-633 | what lies between the rows of the destination keeps its value |
| ParallelCopy.LineShare | src/dm/memcpy/kupl_memcpy.cpp:335-352 | in one dimension the threads' shares are adjacent and together are the buffer |

## Left out

- Weak memory ordering and CPU fences: memory is sequentially consistent.
- Counters and flags of the broadcast are unbounded integers; the source's `int` would wrap after 2^31 advances.
- AllreduceProof.ReturnedHoldsTheSum: one call of the allreduce on buffers that nobody else uses; floating-point
  addition is not associative, so the operation is an abstract commutative and associative one on integers; one
  rank alone, which only copies, is not modelled.
- Inside the allreduce the fences are guards, justified by the theorems about the fences, not embedded flag by flag.
- Window allocation and queries, mapping, SDMA, NUMA, huge pages, configuration, logging and profiling.
- The linear, topology-aware and scatter-allgather broadcasts. The linear ones repeat the ring's start-up without
  its chunks; the others let the root return before every reader is done, so repeated starts are not safe to claim.
- NormalPool.NormalPool.CountSub: the counters of blocks per bin only steer when coalescing is skipped; that they
  are exact is not claimed, and the source charges some of them to another bin.
- Frees of normal blocks by another executor, their sync list and the clean-up when the runtime ends.
- A header that coalescing absorbs is dropped from the model; in the source it stays behind as stale data.
- FastCacheProof.ExactlyOnePlace: one fast bin of one memory kind; bins and kinds share nothing but the blocks they carve.
- Reference counts of blocks that buffers are carved from, of events and of tasks.
- In the queue, items are those of kupl_queue_submit; record and wait events, SDMA requests and synchronous queues are not modelled.
- A full scheduler, which runs a task in place of queueing it: every insertion succeeds and the scheduler is a bag.
- TaskDag.Dag.AddTask: submission is one step, and the number of links fits 32 bits. A list that repeats an address with
  another kind of access is left out, because the source goes on to read entries it has not written
  (`TaskDag.RemoveDuplicates`).
- NormalPool.NormalPool.Alloc: sizes near 2^64, for which the addition of the header would wrap around, and alignments
  that are no powers of two, for which the source's mask does not round to multiples.
- Memory allocation failures in task and graph code.
- Static nodes flagged for reuse, and a scheduler that reports that it is shutting down.
- The multi-dimensional static policy: its recursive division recomputes midpoints from the original bounds.
- Negative steps in the task policy, and task loops with steps other than one: their bounds do not cover them.
- Address arithmetic of the copies is on unbounded integers; source and destination do not overlap.
- The hybrid scheduler's flag barrier, places parsing, executor start-up and the test-only algorithms.
- The concurrent protocols are modelled on values, one transition per shared access, and not as objects updated in place.
