# Verified model of the tt-lang simulator and matmul planner

This project models the parts of tt-lang that are hardest to get right by reading them, and proves what they
are meant to guarantee. It verifies with Dafny 4.11: `dafny verify dfyconfig.toml`.

**The dataflow runtime (`python/sim`).** A program is a set of kernels. A kernel is a deterministic function from
the values it has read so far to its next command (reserve, wait, push, pop, a store or copy on a pending block,
a wait for a copy, a pipe send or receive). `Network` gives one kernel's step over append-only logs, in which a pipe
carries tensors by reference, as in the simulator, and a receive reads what the tensor holds by then; `Ring` gives the
ring buffers that the simulator really keeps, as classes, and proves that they follow those logs under every
interleaving; `BlockState` and `Copy` are the access state machine and the copy transactions; `Multicast` is the shared
pipe queue; `Scheduler` is the scheduler's loops over its own state. `Messages` proves
which steps change a tensor that is on a pipe, and that none does when no kernel overwrites what it has sent;
`Confluence` proves that the outcome then does not depend on the schedule, `Rounds` that the loops of the matmul
kernels meet the condition, and `Boundaries` and `Misleading` where that ends;
`Integrity` that no unfilled slot is ever pushed and no unread one popped; `GreedyAndFairAgree` puts the two scheduling
algorithms side by side; `Holding` and `Cleanup` are the blocks a kernel holds and what it does after its function has
returned.

**The matmul planner and the K-split kernel (`benchmarks/matmul`).** `Search` and `Planner` prove that the pruned
search returns the lexicographic maximum over all feasible candidates, `Scores` what that score ranks, `MatmulPlan`
that planning is total with the default limits and that its plans fit the machine and pass the kernels' checks, and
`KSplit` that the kernel built from such a plan stores the matrix product, in whatever order its nodes store.

**Index arithmetic.** `Coords` is the row-major numbering everything else uses. `Tiles`, `Reduce`, `Reductions`,
`Broadcast` and `ReduceOrder` prove tile splitting, transpose, reduction and broadcast against their element-level
meaning for all tile and grid sizes; `Nodes` and `Destinations` node coordinates and pipe receiver counts; `Sharding`
and `WorkSplit` the distribution of elements and work over cores; `Provenance` the bookkeeping of pending store
confirmations.

Where the code is narrower than its documentation, the code is modelled, and the condition under which the promise
holds is proved:

- A pipe message is the sent block's own tensor, and a receiver reads it only at its own `wait()`. If the sender
  overwrites the block in between, or the consumer that got the slot does, the two scheduling algorithms deliver
  different values: `OverwriteDependsOnSchedule` has two kernels, every operation legal, with both results.
  A tensor on a pipe is unaffected by the other kernels exactly when, as far as their logs go, none of them could still
  write it (`StableExactly`, `ContentAfter`). That no kernel puts something else into a slot that was sent
  (`Messages.Sealed`) can be read off each kernel's own commands, and under it every schedule gives the same outcome and
  values. Receiving a multicast back into the very block that was sent, as the matmul kernels do, is no such
  overwrite: the copy is of the tensor onto itself (`RoundsAreSealed`, `LoopbackIsSealed`).
- A `pop_block` with no pending block advances a buffer that happens to hold data and raises otherwise, so its outcome
  depends on the schedule (`StrayPopDependsOnSchedule`). `AllSchedulesAgree` is for kernels that pop only what their own
  commands hold (`Confluence.PopsHeld`); `ScheduleIndependence` is for any kernels that have one run without such a pop.
- The scheduler polls a pipe from the main greenlet, where no node is found, and any non-empty queue counts as ready.
  That is right in every run exactly when the pipe has one destination (`PollExactlyForUnicast`); with several, a kernel
  that has every message can be resumed, and its `transfer` then raises. The scheduler is modelled with this: it is
  misled exactly at such a receive (`PollIsExact`), and it ends in a true result or in that error (`RunAll`). Legal
  kernels with a run that gets there exist exactly when some pipe has several receivers (`MisleadingExactly`).
- `back_slot` ignores `reserved`: a second kernel that reserves is handed the first one's slot
  (`ReserveAliasesExactly`).
- In fair mode every kernel that is still active after the initialization phase has a non-zero time stamp, contrary to
  the comment there (`InitializationPhase`).
- `ror_count` is documented to be 0 outside ROR. There it is 0 exactly on blocks that were never copied from, and 1 on
  all others (`RorCountExactly`, with a history of two operations).
- `grid_size` fuses trailing dimensions and `node` leading ones. They agree exactly for one dimension, from the grid's
  rank on, and on grids whose inner dimensions have size 1 (`GridSizeIsNodeBox`, with a grid where they do not in
  `MiddleDimsDisagree`), and flattening `node(dims)` gives the id back exactly when both weigh every coordinate the same
  (`IdSurvivesExactly`). A plain 1-tuple destination matches no node although
  its message is sent with one receiver, and a message's receiver count is right exactly when the destination stays
  inside the grid (`ReceiversCounted`).
- With a positive number of units and no cores `split_work_to_cores` drops the work (`SplitWorkToCores`).
- The K-split kernel accumulates with `p += a @ b` on a reserved block, which the simulator's own `__iadd__` refuses
  (python/sim/dfb.py:830-835). The model takes the accumulation the kernel is written for.

## Model

| member | source | states |
|---|---|---|
| BlockState.BlockStateMachine.Initialize | python/sim/blockstate.py:459-472 | a reserved block starts write-only, a waited block read-only, each expecting its kernel's one first operation |
| BlockState.BlockStateMachine.SetUnrestricted | python/sim/blockstate.py:474-477 | a temporary block is readable and writable and expects nothing |
| BlockState.BlockStateMachine.Validate | python/sim/blockstate.py:483-511 | passes exactly the expected operations, and none when the set is empty |
| BlockState.BlockStateMachine.Transition | python/sim/blockstate.py:517-575 | the fields move as the table says; a refusal and a missing entry are told apart and change nothing; ROR counts its copies |
| BlockState.BlockStateMachine.TransitionPush | python/sim/blockstate.py:577-594 | push ends a reserved block that expects it, and nothing else |
| BlockState.BlockStateMachine.TransitionPop | python/sim/blockstate.py:609-634 | pop ends a waited block that expects it while readable, and nothing else |
| BlockState.HistoryInvariant | python/sim/blockstate.py:285-401 | after every operation history the expected set is determined by the access state, ROR holds at least one copy, and the state agrees with what was filled, read and is in flight |
| BlockState.RorCountExactly | python/sim/blockstate.py:450-453 | outside ROR the counter is 1 on a block that was ever copied from and 0 on any other, with a history that leaves it at 1 |
| BlockState.PushExactlyWhenFilled | python/sim/blockstate.py:577-594 | push is allowed exactly when a store or a completed copy has filled the block and no copy is in flight |
| BlockState.PopExactlyWhenRead | python/sim/blockstate.py:609-634 | pop is allowed exactly when the block was read since its last overwrite and no copy is in flight |
| BlockState.MissingExactly | python/sim/blockstate.py:513-575 | after any history a validated operation misses the table exactly when it is `assign_src` on a block that is not a wait block of the compute kernel |
| BlockState.AcceptedExactly | python/sim/blockstate.py:285-401 | after any history each of the six operations is accepted exactly when the history allows it: reads once the block holds something and nothing is landing, writes once at the start of a reserved block and then only after a read, waits while a copy is in flight, each for its own kind of kernel |
| BlockState.TemporaryRefusesAll | python/sim/blockstate.py:474-499 | a temporary block refuses every operation |
| Copy.CopyTransaction.Start | python/sim/copy.py:73-122 | creating a copy locks source and destination, and transfers at once when a block is the pipe's source |
| Copy.CopyTransaction.Wait | python/sim/copy.py:154-197 | the first wait transfers if nothing was transferred yet and releases the blocks; a later wait does nothing |
| Copy.TransfersAtOnce | python/sim/copy.py:120-128 | right after `copy()` exactly a pipe send has transferred; after the first wait every transaction is complete with one transfer |
| Copy.LocksItsBlock | python/sim/copy.py:73-108 | a copy into a block leaves it locked against all access, a copy out of it readable with one more copy counted |
| Copy.GroupTransfer.Add | python/sim/copy.py:236-244 | appends the transaction, and is refused exactly after `wait_all` |
| Copy.GroupTransfer.WaitAll | python/sim/copy.py:246-257 | the first n members have been waited for and the rest are untouched: n is all of them, or ends at the first whose block refuses; a second call is refused |
| Copy.WaitNeverFails | python/sim/copy.py:154-197 | in every accounted state waiting for a transaction cannot raise |
| Copy.RunKeepsInv | python/sim/copy.py:73-197 | every run keeps the accounting invariant |
| Copy.InFlightAccounting | python/sim/blockstate.py:517-575 | in every run ROR means at least one open reading copy with `ror_count` their number, NAW means exactly one open writing copy, they exclude each other, and push and pop need nothing in flight |
| Copy.SecondWaitIsFree | python/sim/copy.py:154-197 | waiting twice is waiting once |
| Network.EnabledIsStable | python/sim/dfb.py:1018-1245 | whatever other kernels do, short of overwriting a tensor on a pipe, an enabled step that is no stray pop stays enabled and does the same |
| Messages.ContentAfter | python/sim/dfb.py:594-685 | a step changes a tensor exactly by writing the pending block it is; reserve, push, wait and pop hand it on unchanged |
| Messages.StepKeepsContents | python/sim/copyhandlers.py:162-201 | when no kernel puts anything but the tensor itself into a slot that was sent, no step of any run changes what a queued tensor holds |
| Confluence.Diamond | python/sim/greenlet_scheduler.py:374-461 | when nobody overwrites what is on a pipe, enabled steps of two kernels commute and do not disable each other |
| Confluence.EveryRunContinues | python/sim/greenlet_scheduler.py:374-461 | next to one clean complete run, every other run meets no error and can be continued to the same end in the remaining number of steps |
| Confluence.RunsJoin | python/sim/greenlet_scheduler.py:374-461 | any two runs, finished or not, can be continued to the same configuration |
| Confluence.AllSchedulesAgree | python/sim/greenlet_scheduler.py:374-520 | for kernels that pop only what they hold and overwrite nothing they sent, either every schedule ends in an error or all give the same outcome, logs and values |
| Confluence.ScheduleIndependence | python/sim/greenlet_scheduler.py:374-520 | next to one clean complete run, all schedules give the same outcome (completion or deadlock), the same logs and the same values to every kernel |
| Rounds.RoundsAreSealed | benchmarks/matmul/ksplit_kernel.py:135-192 | kernels that send blocks on their multicast pipes and receive them back into the same blocks, receive from other nodes, relay and store, in any order and number, next to kernels that only compute, overwrite nothing they sent and pop only what they hold |
| Rounds.RoundsAgree | benchmarks/matmul/summa_kernel.py:91-130 | so all their schedules agree |
| Rounds.LoopRoundsOk | benchmarks/matmul/ksplit_kernel.py:135-192 | the nested read and write loops of the K-split and summa kernels are such rounds, for all loop bounds |
| Rounds.LoopbackIsSealed | benchmarks/matmul/summa_kernel.py:97-108 | two concrete kernels on a pipe that leads back to its sender meet the condition |
| Boundaries.StableExactly | python/sim/dfb.py:1197-1217 | a step is unaffected by any growth of the other kernels' logs exactly when it is neither a stray pop of an empty buffer nor the receipt of a tensor another kernel could still write |
| Boundaries.StrayPopDependsOnSchedule | python/sim/dfb.py:1197-1217 | two concrete kernels that complete under one schedule and raise under another |
| Boundaries.OverwriteDependsOnSchedule | python/sim/copyhandlers.py:162-201 | two concrete kernels with only legal operations whose receiver gets 1 under one schedule and 2 under another, because the sender overwrites the block it has on the pipe |
| Integrity.EveryRunIsBounded | python/sim/dfb.py:1018-1217 | in every run each buffer holds between 0 and its capacity, a held slot is visible, no receiver is ahead of its sender, and every block's state follows from its history |
| Integrity.NoGarbage | python/sim/dfb.py:1176-1195 | in every run a slot that becomes visible was filled by a completed store or copy after its reserve, has nothing in flight, and its payload is what becomes visible |
| Integrity.NoLoss | python/sim/dfb.py:1197-1217 | in every run a held slot that is given back was read after its wait and after every overwrite, with nothing in flight |
| Ring.DFBState.BackSlot | python/sim/dfbstate.py:44-46 | the slot after the visible ones, within the ring |
| Ring.DFBState.Reset | python/sim/dfbstate.py:48-52 | back to an empty ring in place |
| Ring.DataflowBuffer.CanReserve | python/sim/dfb.py:1168-1174 | says whether a slot is free |
| Ring.DataflowBuffer.CanWait | python/sim/dfb.py:1075-1081 | says whether a slot is visible |
| Ring.DataflowBuffer.Reserve | python/sim/dfb.py:1091-1166 | auto-push, then take the back slot for this kernel; the whole new ring is stated |
| Ring.DataflowBuffer.Wait | python/sim/dfb.py:1018-1073 | auto-pop, then take the head slot for this kernel; the whole new ring is stated |
| Ring.DataflowBuffer.PushBlock | python/sim/dfb.py:1176-1195 | the pending reserved slot becomes visible, with its errors |
| Ring.DataflowBuffer.PopBlock | python/sim/dfb.py:1197-1217 | the head slot is emptied and the head moves, with its errors |
| Ring.DataflowBuffer.AutoPushBlock | python/sim/dfb.py:1219-1231 | pushes only the calling kernel's pending block |
| Ring.DataflowBuffer.AutoPopBlock | python/sim/dfb.py:1233-1245 | pops only the calling kernel's pending block |
| Ring.DataflowBuffer.Operate | python/sim/dfb.py:212-307 | a store, copy or read on a pending block moves its state machine and its slot's contents |
| Ring.CommandAgrees | python/sim/dfb.py:1018-1245 | on one producer and one consumer every command does to the ring what it does to the logs: same guards, same errors, refinement kept |
| Ring.ReadsSlot | python/sim/dfb.py:594-685 | what a kernel reads from a command on a pending block is what its slot held before, a receive reads the message, and the tensor that stands for the block holds what the slot holds |
| Ring.OtherBuffersKept | python/sim/dfb.py:928-1016 | a command leaves every other buffer's ring alone |
| Ring.RunsFitRings | python/sim/dfb.py:1018-1245 | every interleaving runs on the rings without an internal error and ends with rings that stand for the logs |
| Ring.RingIsFifo | python/sim/dfbstate.py:22-52 | under every interleaving the visible window is the pushed values minus the popped ones, the reserved slot stays at the back, all other slots are empty, and visible plus reserved is at most the capacity |
| Ring.ReserveAliasesExactly | python/sim/dfbstate.py:44-46 | a reservation gets the slot of one still pending exactly when that belongs to another kernel, and then the slot is overwritten and counted twice |
| Multicast.PipeEntry.Send | python/sim/copyhandlers.py:162-201 | appends one message with the receiver count, a fresh id and nobody in its receive-set |
| Multicast.PipeEntry.CanWait | python/sim/copyhandlers.py:282-302 | whether some message has not reached this node |
| Multicast.CanWaitFinds | python/sim/copyhandlers.py:294-354 | on any queue `can_wait` at a node says yes exactly when a transfer there finds a message |
| Multicast.CanWaitExactly | python/sim/copyhandlers.py:294-299 | in every run it says yes to a destination exactly when that has not consumed everything sent, for any number of destinations |
| Multicast.PipeEntry.Receive | python/sim/copyhandlers.py:304-354 | delivers the first message this node misses and records it, deleting the message after its last receiver |
| Multicast.ReceiveSetsNest | python/sim/copyhandlers.py:304-354 | an earlier message has every receiver of a later one, and remaining plus received is the receiver count |
| Multicast.LastReceiverIsAtFront | python/sim/copyhandlers.py:335-354 | the deletion only ever happens at index 0 |
| Multicast.ReceiveStands | python/sim/copyhandlers.py:304-354 | a receiver gets the next message of the send log, or none exactly when it has them all |
| Multicast.ExactlyOnceInOrder | python/sim/copyhandlers.py:150-354 | in every run each receiver has consumed a prefix of the sends, once each and in order, and the queue is empty exactly when all have everything |
| Multicast.PollExactlyForUnicast | python/sim/copyhandlers.py:294-302 | the poll from the main greenlet is right in every run exactly when the pipe has one destination |
| Multicast.MulticastMisleadsPoll | python/sim/copyhandlers.py:294-302 | with several destinations a two-event run makes the poll say yes to a node whose transfer would find nothing |
| PipeQueues.SendAgrees | python/sim/copyhandlers.py:162-201 | a send puts the block's tensor on the queue as it does on the pipe's log |
| PipeQueues.ReceiveAgrees | python/sim/copyhandlers.py:304-354 | a receive blocks exactly when the queue has nothing for its node; otherwise it takes the log's next tensor and reads what that holds at the receipt |
| PipeQueues.CanWaitAgrees | python/sim/copyhandlers.py:294-299 | inside a kernel's node `can_wait` says yes exactly when the receive would not block |
| Scheduler.PollIsExact | python/sim/greenlet_scheduler.py:410-415 | at a synchronisation point `can_op` says whether the operation would not block, except exactly at a receive whose kernel has every message while another receiver does not |
| Scheduler.OnlySyncBlocks | python/sim/dfb.py:1045-1053 | nothing else ever blocks: the assertions after `block_if_needed` are unreachable, and the final raise of a pipe transfer is reached only by a misled receive |
| Scheduler.SyncPoints | python/sim/dfb.py:1045-1053 | the synchronisation points are exactly the commands that have to wait in some configuration, and the wait of a copy, which never has to |
| Scheduler.PollIsWrongForMulticast | python/sim/copyhandlers.py:294-302 | with two receivers the poll can say yes to a kernel that has nothing to receive |
| Misleading.MisleadingExactly | python/sim/copyhandlers.py:294-302 | when every kernel at a pipe's end can fill a block, legal kernels with a run from the start that ends at a misled receive exist exactly when some pipe has several receivers |
| Scheduler.FairOrder | python/sim/greenlet_scheduler.py:347-372 | the active kernels, each once, by time stamp and then by node, kind and name |
| Scheduler.KeyOrder | python/sim/greenlet_scheduler.py:362-370 | the less recently run goes first; then the lower node, data movement before compute, and the name that comes first by code points |
| Scheduler.LruSnoc | python/sim/greenlet_scheduler.py:392-440 | if no kernel was activated twice since the last turn of e, one more turn of e keeps the fairness bound |
| Scheduler.TurnKeepsFair | python/sim/greenlet_scheduler.py:392-440 | one turn keeps time stamps distinct and equal to the last activation, and the fairness bound |
| Scheduler.GreenletScheduler.MarkCompleted | python/sim/greenlet_scheduler.py:188-199 | removes exactly that kernel from the active ones and keeps the order of the others |
| Scheduler.GreenletScheduler.Park | python/sim/greenlet_scheduler.py:148-186 | records what the kernel is blocked on, and in which of the two checks |
| Scheduler.GreenletScheduler.MarkProgress | python/sim/greenlet_scheduler.py:201-221 | notes that the kernel passed a check |
| Scheduler.GreenletScheduler.Execute | python/sim/greenlet_scheduler.py:589-621 | when `block_if_needed` has returned, the kernel goes on, raises its own error, or was misled and finds no message |
| Scheduler.GreenletScheduler.BlockIfNeeded | python/sim/greenlet_scheduler.py:600-621 | a fair kernel always parks, a greedy one exactly when its operation would block; who does not park has a poll that says yes |
| Scheduler.GreenletScheduler.Advance | python/sim/greenlet_scheduler.py:589-621 | a fair kernel at a synchronisation point parks with nothing else changed, a greedy kernel parks only when its step is blocked; a fair kernel that takes a micro-step was not at a synchronisation point |
| Scheduler.GreenletScheduler.GoOn | python/sim/greenlet_scheduler.py:605-616 | a resumed kernel takes its step whenever it can; one that was misled blocks a second time if it is fair and has not done so, and raises otherwise |
| Scheduler.GreenletScheduler.Switch | python/sim/greenlet_scheduler.py:605-616 | a kernel runs until it yields: only the first micro-step of a resumed fair kernel is taken at a synchronisation point, and of any other fair kernel none; a misled fair kernel blocks a second time, and either way the remaining work decreases |
| Scheduler.GreenletScheduler.RunOn | python/sim/greenlet_scheduler.py:424-446 | a kernel runs until it ends, raises, or is at a synchronisation point (in greedy mode, one that blocks), in fair mode past none, without touching any other kernel |
| Scheduler.GreenletScheduler.Resume | python/sim/greenlet_scheduler.py:410-434 | only a kernel whose poll says yes is resumed, all its micro-steps are its own, and the remaining work decreases |
| Scheduler.GreenletScheduler.TakeTurn | python/sim/greenlet_scheduler.py:400-446 | a candidate runs exactly when it is unstarted or its poll says yes, otherwise nothing changes; the turn explains its micro-steps |
| Scheduler.GreenletScheduler.Candidates | python/sim/greenlet_scheduler.py:347-372 | a greedy pass tries the active kernels in the order they were added, a fair one by time stamp, node, kind and name |
| Scheduler.GreenletScheduler.RunPass | python/sim/greenlet_scheduler.py:389-464 | a pass offers one turn to each candidate in order, and activates somebody exactly when at its start some active kernel is unstarted or its poll says yes; then the remaining work decreases |
| Scheduler.GreenletScheduler.StuckIsDeadlock | python/sim/greenlet_scheduler.py:464-520 | a pass without progress is a real deadlock: no kernel has an enabled step |
| Scheduler.GreenletScheduler.Initialize | python/sim/greenlet_scheduler.py:307-345 | one kernel to its first yield, stamped if it is still active |
| Scheduler.GreenletScheduler.InitializationPhase | python/sim/greenlet_scheduler.py:294-345 | afterwards every active kernel is parked with a distinct non-zero time stamp |
| Scheduler.GreenletScheduler.RunAll | python/sim/greenlet_scheduler.py:374-520 | always terminates, in completion, a true deadlock, the first error of a real run, or at a misled receive (never with single-destination pipes); every micro-step of the main loop belongs to the turn of its kernel, each turn runs up to a yield, no micro-step of a fair run but the first of a turn is taken at a synchronisation point, and in fair mode the turns meet the least-recently-run bound however the run ends |
| Scheduler.GreedyAndFairAgree | python/sim/greenlet_scheduler.py:374-520 | when nobody overwrites what is on a pipe and no poll misleads, greedy and fair both end in an error or end with the same outcome and state, and without error if any schedule runs cleanly |
| Cleanup.TaggedIsWF | python/sim/program.py:310-331 | a kernel followed by its auto push and pop still only touches buffers it owns |
| Cleanup.RunsThenCleans | python/sim/program.py:315-329 | the wrapped kernel is the kernel function until that returns, and then the cleanup, command by command |
| Cleanup.CleanupInOrder | python/sim/program.py:326-329 | the cleanup goes through the buffers in order, and pushes to each before it pops from it |
| Cleanup.EndedIsTidy | python/sim/program.py:365-392 | in every run a kernel that has ended with its cleanup holds no reserved or waited block on any buffer, so the final validation finds none |
| Cleanup.TaggedIsSealed | python/sim/program.py:310-331 | wrapped kernels overwrite nothing they sent if the kernel functions do not |
| Cleanup.TaggedPopsHeld | python/sim/program.py:310-331 | wrapped kernels pop only what they hold if the kernel functions do |
| Search.FoldIsFirstMaximum | benchmarks/matmul/config.py:324-326 | keeping a strictly greater score leaves the first of the best candidates |
| Search.AllCandsExact | benchmarks/matmul/config.py:282-309 | the nested loops visit exactly the candidates in range that pass the pruning tests |
| Search.BestIsExact | benchmarks/matmul/config.py:279-326 | the loop's result is the first maximum of all candidates that pass, or none when none passes |
| Planner.FindLargestDivisor | benchmarks/matmul/config.py:238-243 | the largest divisor of n that is at most the cap |
| Planner.LargestDivisor | benchmarks/matmul/config.py:238-243 | it divides, respects the cap, and no larger divisor does |
| Planner.PadAtLeastPadM | benchmarks/matmul/config.py:298-307 | the full padding ratio is at least the padding along M |
| Planner.PadSkipLosesNothing | benchmarks/matmul/config.py:299-300 | skipping on the padding along M loses no feasible candidate |
| Planner.SearchAll | benchmarks/matmul/config.py:279-326 | the five nested loops compute the fold over all candidates |
| Planner.CandidatesExact | benchmarks/matmul/config.py:282-317 | a candidate is scored exactly when it is feasible |
| Planner.SearchIsExact | benchmarks/matmul/config.py:279-326 | the search returns the first lexicographic maximum over the feasible candidates, and none exactly when there is none |
| Scores.ScoreIs | benchmarks/matmul/config.py:306-322 | throughput times padding, block overhead and gather penalty is cores times block volume, with the cores of the three partitions; the other entries are volume, less padding, cores and smaller Kp |
| Scores.MoreCoresWin | benchmarks/matmul/config.py:306-326 | with the same block volume, padding and gathers more cores win |
| Scores.MorePaddingOrGathersLose | benchmarks/matmul/config.py:306-326 | with the same block volume and no more cores, more padding or more gathers lose |
| Scores.LargerBlocksWin | benchmarks/matmul/config.py:314-326 | with the same cores, padding and gathers larger blocks win |
| Scores.TiesBreak | benchmarks/matmul/config.py:316-326 | equal throughputs are ranked by volume, then less padding, then more cores, then smaller Kp |
| MatmulPlan.PlanMatmul | benchmarks/matmul/config.py:246-339 | the two input errors, the measured table, otherwise the best feasible plan or an error exactly when no candidate is feasible |
| MatmulPlan.BestIsFastest | benchmarks/matmul/config.py:279-339 | no feasible candidate has a higher ratio of cores times block volume to padding, overhead and penalty than the planned one |
| MatmulPlan.EstimateIs | benchmarks/matmul/config.py:203-235 | the L1 estimate is the bytes of one tile times the tiles of the buffers that the kernel of this Kp allocates |
| MatmulPlan.TilesAdd | benchmarks/matmul/config.py:231-235 | the tiles of two lists of buffers add up |
| MatmulPlan.FeasibleFits | benchmarks/matmul/config.py:178-189 | every feasible plan fits the grid and L1, pads upwards, and passes every check of the kernel its Kp selects |
| MatmulPlan.AlwaysPlannable | benchmarks/matmul/config.py:246-339 | with the default limits unit blocks on one core are feasible for every aligned shape |
| MatmulPlan.TableSound | benchmarks/matmul/config.py:270-272 | every entry of the measured table divides its shape, fits the grid and has small blocks |
| MatmulPlan.TableFits | benchmarks/matmul/ksplit_kernel.py:42-63 | so it fits the grid and the L1 budget, pads upwards and passes the kernels' checks |
| MatmulPlan.PlanDefault | benchmarks/matmul/config.py:246-339 | with the default limits planning never fails and every plan, searched or measured, fits the grid and the L1 budget and passes the kernels' checks |
| KSplit.LayoutExactly | benchmarks/matmul/ksplit_kernel.py:42-70 | the kernel is built exactly for the accepted shapes with Kp at least 2, and its partition multiplies back to the padded dimensions |
| KSplit.OneAPipe | benchmarks/matmul/ksplit_kernel.py:74-79 | every node takes A from exactly one pipe, from a source of its own row and K rank, and each source feeds one pipe that includes itself |
| KSplit.OneBPipe | benchmarks/matmul/ksplit_kernel.py:81-84 | every node takes B from exactly the pipe of its own column |
| KSplit.OneReducePipe | benchmarks/matmul/ksplit_kernel.py:88-94 | a reduce pipe ends at one root; a non-root feeds exactly one, a root none |
| KSplit.ReadA | benchmarks/matmul/ksplit_kernel.py:138-155 | the read loop sends, at each position, the block of A of its row block and K block |
| KSplit.ReadB | benchmarks/matmul/ksplit_kernel.py:171-189 | the read loop sends, at each position, the block of B of its K block and column block |
| KSplit.DeliveredIsOwn | benchmarks/matmul/ksplit_kernel.py:147-155 | the multicast hands every node exactly the blocks of its own rows, columns and K range |
| KSplit.Compute | benchmarks/matmul/ksplit_kernel.py:108-134 | per output block one accumulation of the next K_BPN products and, on a root, the next Kp - 1 gathered partials |
| KSplit.RunNode | benchmarks/matmul/ksplit_kernel.py:108-134 | the compute kernel on what the nets deliver to it |
| KSplit.AccumulatedIsDot | benchmarks/matmul/ksplit_kernel.py:112-116 | a node's accumulator is the inner product over its own part of K |
| KSplit.GatheredIsDot | benchmarks/matmul/ksplit_kernel.py:118-131 | the gathered partials of the K ranks add up to the inner product over all of K |
| KSplit.OwnedOnce | benchmarks/matmul/ksplit_kernel.py:5-11 | every padded output element is stored by exactly one block of exactly one root |
| KSplit.KBlocksReadOnce | benchmarks/matmul/ksplit_kernel.py:144-146 | every K block is read by exactly one K rank, at one step |
| KSplit.KSplitComputesProduct | benchmarks/matmul/ksplit_kernel.py:106-192 | in whatever order the roots store, the finished output is the matrix product |
| Coords.UnflatOfFlat | python/sim/nodecontext.py:77-85 | the row-major index of a coordinate determines it |
| Coords.FlatOfUnflat | python/sim/sharding.py:130-136 | every index below the size is the index of one coordinate in the box |
| Coords.AllCoordsAt | python/sim/dfb.py:447 | the Cartesian product lists every coordinate at its row-major index |
| Tiles.ToList | python/sim/dfb.py:410-459 | the tile of every grid coordinate, at its row-major index |
| Tiles.FromList | python/sim/dfb.py:466-528 | assembles exactly when there are as many tiles as the shape says and all have one size |
| Tiles.FusingIsReshaping | python/sim/dfb.py:507-516 | permuting and reshaping keeps row-major positions |
| Tiles.AssembledMeans | python/sim/dfb.py:507-516 | so element (r, c) of an assembled block is element (r % h, c % w) of tile (r / h, c / w) |
| Tiles.RoundTrip | python/sim/dfb.py:410-528 | assembling the tiles of a block gives the block back, for every rank from 2 and every tile size |
| Tiles.RoundTripTiles | python/sim/dfb.py:410-528 | splitting an assembled block gives the tiles back |
| Tiles.VectorRoundTrip | python/sim/dfb.py:435-440 | a 1-D block comes back exactly when its tile count divides its length |
| Tiles.RowMajorRoundTrip | python/sim/dfb.py:425-433 | a row-major block of any rank comes back from its rows |
| Tiles.Transpose | python/sim/block.py:405-434 | swapping the grid and the tiles is the element-level transpose; other ranks are refused |
| Tiles.TransposeTwice | python/sim/block.py:405-434 | transposing twice is the identity |
| Folds.AcrossThenWithin | python/sim/math.py:545-582 | reducing across tiles and then within the tile is one reduction over all positions, for sum and max |
| Folds.TwoSteps | python/sim/math.py:545-582 | the same for both dimensions and any batch positions |
| Reduce.ReduceTile | python/sim/math.py:525-582 | one output tile has the element-level reduction at index 0 of each collapsed dimension and zeros elsewhere |
| Reduce.TwoStepsAreOne | python/sim/math.py:545-582 | gathering and collapsing tiles computes the element-level reduction |
| Reduce.ReduceBlock | python/sim/math.py:454-585 | refuses exactly the illegal dims and shapes, and otherwise every output element is the element-level reduction |
| Reduce.InternalExact | python/sim/math.py:498-500 | a reduced dimension is meant by its index from the front or from the back |
| Reductions.MaxIsGreatest | python/sim/math.py:545-582 | every element of a max result is at least each element that contributes to it, and is one of them |
| Reductions.SumFollows | python/sim/math.py:545-582 | raising one element raises a sum result by as much exactly at the positions it contributes to |
| Reductions.SumOfZeros | python/sim/math.py:545-582 | the sum of a block of zeros is zero |
| Broadcast.BroadcastBlock | python/sim/block.py:122-166 | refuses exactly the illegal dims and shapes |
| Broadcast.BroadcastReplicates | python/sim/block.py:168-206 | the two steps replicate element row 0 and element column 0 of the source |
| Broadcast.ReduceThenBroadcast | python/sim/block.py:181-206 | broadcasting a reduction back gives every element the reduction of its own rows and columns; no placement zero is left |
| ReduceOrder.RowsThenColumns | python/sim/math.py:515-582 | reducing rows (with any batch dimensions) and then columns is reducing both at once |
| ReduceOrder.ColumnsThenRows | python/sim/math.py:515-582 | and so is reducing columns and then rows |
| Nodes.PeelCoords | python/sim/nodecontext.py:164-171 | peeling remainders off the id gives its row-major coordinates |
| Nodes.Node | python/sim/nodecontext.py:144-185 | for every number of dims `node` writes the id in the mixed radix of its box, one node per coordinate |
| Nodes.FlattenNodeIndex | python/sim/nodecontext.py:51-85 | the row-major index over the grid's leading dimensions; too long a tuple is an error |
| Nodes.NodeRoundTrip | python/sim/nodecontext.py:51-85 | the id survives `flatten_node_index(node(rank))` on every grid |
| Nodes.GridSize | python/sim/nodecontext.py:88-141 | trailing dimensions are fused, missing ones padded |
| Nodes.GridSizeIsNodeBox | python/sim/nodecontext.py:118-136 | `grid_size` and `node` range over the same box exactly for one dimension, from the grid's rank on, or when all inner dimensions have size 1 |
| Nodes.IdSurvivesExactly | python/sim/nodecontext.py:51-85 | for every number of dims, flattening `node(dims)` gives every id back exactly when its box and the grid weigh the coordinates the same |
| Nodes.MiddleDimsDisagree | python/sim/nodecontext.py:122-133 | a grid where they disagree and flattening loses the id |
| Destinations.CartesianProduct | python/sim/pipe.py:194-203 | the recursive helper appends every tuple of the product to its list, in order |
| Destinations.TuplesExact | python/sim/pipe.py:191-206 | the product lists every choice of one value per axis, once |
| Destinations.ExpandNodeRange | python/sim/pipe.py:153-206 | lists exactly the coordinates that every axis accepts, without repetition |
| Destinations.NodeInDstRange | python/sim/pipe.py:209-271 | which nodes accept a destination; a plain 1-tuple none |
| Destinations.OpenSlices | python/sim/pipe.py:172-189 | an open slice accepts the whole axis, and an open start, stop or step leaves 0, the end or 1 |
| Destinations.NumReceivers | python/sim/copyhandlers.py:168-192 | the receiver count put on a message |
| Destinations.ReceiversCounted | python/sim/copyhandlers.py:168-192 | that count is the number of accepting nodes exactly when the destination names grid nodes |
| Sharding.DealPrimes | python/sim/ttnnsim.py:655-669 | trial division ends with factors whose product is the number, its primes dealt round robin, smallest first |
| Sharding.DealtAt | python/sim/ttnnsim.py:655-669 | factor j of primes dealt to k factors is the product of every k-th prime from the j-th on |
| Sharding.ShardGrid | python/sim/ttnnsim.py:686-690 | the sorted dimensions take the factors from the largest down: all cores for one dimension, for several the primes of their number, smallest first, dealt round robin |
| Sharding.DistributeCores | python/sim/ttnnsim.py:649-669 | k factors whose product is the number of cores, built from its primes for k at least 2 |
| Sharding.MakeSpec | python/sim/ttnnsim.py:672-705 | an error exactly for a dimension out of range or no core; otherwise the smallest shards that cover the tensor (the ceiling share of each dimension, unlisted ones whole), and distinct dimensions share out exactly the cores, earlier ones at least as many as later ones |
| Sharding.ExactlyOneCore | python/sim/sharding.py:139-158 | every element is local to exactly one core |
| Sharding.LocalWithinShare | python/sim/sharding.py:139-158 | the elements local to a core lie within the ceiling share of every dimension |
| Sharding.CountGrid | python/sim/sharding.py:139-158 | local counts the elements of the view that this core owns, remote all others |
| Sharding.GridCountsAddUp | python/sim/sharding.py:139-158 | over all cores the local counts of any view add up to its number of elements |
| Sharding.CountRoundRobin | python/sim/sharding.py:161-188 | local counts the elements whose shard number is dealt to this core |
| Sharding.RobinGoesRound | python/sim/sharding.py:161-188 | the first shard goes to core 0 and the next shard to the next core, modulo their number |
| Sharding.RobinCountsAddUp | python/sim/sharding.py:161-188 | over all cores the local counts add up to the number of elements |
| WorkSplit.ListCores | python/sim/ttnnsim.py:2056-2081 | the first cores of the grid, or of the ranges, in order of use |
| WorkSplit.ListIsProper | python/sim/ttnnsim.py:2056-2150 | on a grid, or disjoint ranges, exactly the cores of it are listed, each once |
| WorkSplit.RectangleAscends | python/sim/ttnnsim.py:2056-2081 | row-wise a rectangle is listed by ascending (y, x), otherwise by ascending (x, y) |
| WorkSplit.ListOrder | python/sim/ttnnsim.py:2056-2081 | ranges are listed one after the other, each by rows |
| WorkSplit.SplitWorkToCores | python/sim/ttnnsim.py:1976-2160 | all units are given out and loads differ by at most one exactly when there is a core or no unit |
| WorkSplit.NumberOfNodes | examples/multinode_matmul.py:13-26 | the number of nodes that a set of ranges lists |
| WorkSplit.GroupNodes | examples/multinode_matmul.py:68-69 | over the groups of a split that is the size of the group |
| WorkSplit.UnitsTiled | examples/multinode_matmul.py:71-88 | every unit is taken by exactly one node, and that node is a used one |
| WorkSplit.NothingBeyond | examples/multinode_matmul.py:71-88 | no node takes a unit beyond the last |
| Provenance.TrackersAgreeExactly | python/sim/dfb.py:687-714 | the two trackers leave the same flag exactly when the operand is not a used block without a pending confirmation |
| Provenance.TrackersLeave | python/sim/dfb.py:687-714 | an unread wait block is registered by both trackers, a popped one by neither, a read one by the operators only, and all but the popped can then be popped |
| Provenance.Blocks.MarkAssignSrc | python/sim/dfb.py:253-266 | the block becomes pending and is registered |
| Provenance.Blocks.MarkStoreRead | python/sim/dfb.py:268-286 | the block is confirmed, also after it was popped |
| Provenance.Blocks.Compute | python/sim/dfb.py:687-738 | a temporary records exactly the wait blocks its operands were computed from, at any depth, and `assign_src` has fired on exactly the operands its tracker selects |
| Provenance.Blocks.Release | python/sim/dfb.py:297-307 | push and pop leave every confirmation as it is |
| Provenance.Blocks.Store | python/sim/dfb.py:628-685 | the outcome and the whole new state: the sources are confirmed, then the store fires; after a store of a temporary none of the wait blocks it was computed from, at any depth, is pending, popped or not, and each but the destination counts as read, as does a wait block that was itself stored |

## Left out

- Payloads are integers; shapes, dtypes and torch numerics play no part in the runtime model, so every store and copy writes its block's tensor in place (the original replaces the tensor when element shapes differ). Throughput and padding ratios in the planner are exact reals, not floats.
- A pending block is kept by value inside `Ring.DataflowBuffer`; the Python object that user code still holds after a push or pop is not modelled. Block.push and Block.pop act on the buffer's pending block, as in the code.
- Only a pipe's destination nodes receive from it, and each buffer has one producer and one consumer kernel (`Network.Legal`); more than that appears only in `ReserveAliasesExactly`.
- Receivers are counted by kernel. The original's receive-set is by node, so two kernels of one node that receive from one pipe share its messages there; that is not modelled.
- `Scheduler` takes kernels with a bounded number of commands; an unbounded kernel makes the original run for ever.
- Greenlet switching, frames and the wrapped kernel function; a kernel that catches a simulator error and goes on (every error ends the run); `add_kernel` and its duplicate check.
- Building the per-node contexts and buffers in python/sim/program.py; which nodes a pipe net keeps active; that the final validation also reports pending confirmations (see `Provenance`).
- DRAM tensors shared between kernels, and argument checks when a copy is created (shape and type mismatches).
- Statistics, tracing, error texts, debug printing, command-line tools, `ttl._pipenets` graph validation, MLIR bindings and compiler options.
- The summa kernel for Kp == 1 beyond the checks it shares with the planner; deadlock freedom of the K-split kernels.
- Reduction of 1-D blocks, blocks with a zero-sized dimension in reductions, and row-major blocks in reduce, broadcast and transpose (the simulator refuses the first two kinds of row-major use).
- `fill`, `mask`, `where`, `squeeze`, `unsqueeze` and the elementwise operators of the block functions.
- Height, width and block sharding, whose shard shapes come from floor division; 4-D destinations whose fourth slice is open or strided are covered by `Destinations`, negative strides are not.
- WorkSplit.SplitWorkToCores: core ranges are well-formed rectangles and the number of units is not negative, because the original computes with other values but gives them no meaning.
- Sharding.MakeSpec: says nothing about the number of grid positions for a repeated dimension or none, because the original's grid does not have one position per core then.
- MatmulPlan.PlanMatmul: the overhead and penalty weights are not negative, because with other values the original divides by zero or ranks plans by a negative cost.
- Planner.SearchAll: likewise.
- Provenance.Blocks.Store: the tile counts are one flag, because only their equality matters.
- Messages.StepKeepsContents: its condition also forbids an overwrite with something else after every receiver has the message, because that it comes late enough depends on the schedule and not on the kernel alone.
- KSplit.Compute: takes `+=` on a reserved block as accumulation, because the simulator refuses it there and no other meaning is given.
- Destinations.ExpandNodeRange: slice steps are positive, because a negative step lists nodes that never accept the destination and a zero step is no range.
- Destinations.NodeInDstRange: slice steps are positive, for the same reason.
- Tiles.FromList: at least two dimensions; `VectorRoundTrip` has the 1-D case.
- Reduce.ReduceBlock: at least two dimensions, none of size zero, because the reduction of an empty dimension is torch's own error.
- Broadcast.BroadcastBlock: row-major blocks are refused before anything else; blocks here are tile-layout.
