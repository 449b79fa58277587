# A verified model of the heartbeat execution scheme

A heartbeat compiler turns a nest of parallel loops into *slice tasks*, one per loop. A slice task runs its
loop sequentially until a heartbeat arrives in the innermost loop. Then the *promotion handler* of the runtime
splits the outermost loop that still has work into two tasks; a *leftover task* finishes the loops that were
in progress. This project models that scheme in Dafny and proves that it means the same as the sequential nest.

## What is modelled

- `LoopNest`: a nest of any depth, with bounds that depend on the outer iterations, and its sequential run as a
  list of actions. `Head(p)`, `Body(p)` and `Tail(p, sum)` are what an iteration does before its inner loop, as
  a leaf iteration, and after its inner loop, where it may use the leaf's reduction.
- `Context`, `TaskMemory`: the `cxts` array (flat, stride 8, words that are unwritten, numbers or environment
  pointers) and `task_memory_t`.
- `Heartbeat`: slice tasks, chunked leaf loop, promotion handler and leftover tasks as mutually recursive
  methods that update the context and the task memory in place. Heartbeats, chunk sizes and the order of the
  two tasks of a fork are arbitrary. Each method also yields the fork-join computation it unfolded, and `used`, the
  set of objects it has read or written; the two tasks of a fork have disjoint `used` sets.
- `SliceContract`: what slices, handler calls and leftover tasks promise, on snapshots of the memory they share, and
  one lemma per step that keeps those promises.
- `ForkJoin`: a machine that executes such a computation one action at a time, switching between live tasks
  arbitrarily. `Theorems` holds the main results: safety in every reachable state, equality with the
  sequential run, amortised cost, at most one promotion per task, what a task has polled for, and that a
  heartbeat promotes exactly when work is left. `Schedules` shows which schedules the machine has.
- `Beats`: how the tasks of a computation respond to heartbeats: where they poll, and where they are promoted.
- `HeartbeatSteps`, `Accounts`: how the work and the cost of a computation compose, one lemma per step of the
  generated code.
- `LeafChunking`: the chunked leaf loop refines the unchunked one. `ChunkControl`: adaptive chunk sizes.
  `ThreadSamples`: what the samples that drive them stand for in a run. `ReductionOperator`: for which operators promoted reductions are right.
- `Tables`, `NestAnalysis`: the slice table, the leftover tasks and their selector, and the analyses that find
  nests and levels. `ConstantLiveIns`, `ConstantTable`: constant live-ins and the table they travel in.
- `EndToEnd`: from the loops of a nest to the final state of the program.

Some definitions are *sealed*: they are chosen with `:|` from a property whose quantifier has an explicit
trigger, so that they unfold only where the defining expression is mentioned (`LoopNest.Work`,
`ForkJoin.Bag`, `Accounts.Accounted`, `NestAnalysis.Right`), or they are quantified over a number that occurs
only in `Opened`, and unfold next to a mention of `LoopNest.Opened` (`SliceContract.SliceDone`,
`LeafChunking.Reaches`). This keeps proofs short and fast.

### Termination

Slices, handler and leftover tasks call each other recursively, and loop bounds change while they run. That every
such run ends is proved by the `decreases` clauses of the methods of `Heartbeat`: the number of actions in the range
of a slice together with those left at the levels around it (`HeartbeatSteps.Pending`, `Context.RemAll`) shrinks with
every nested call and with every promotion. What `ForkJoin.Progress` and `ForkJoin.RunsTerminate` add is about the
machine, which executes a computation that is finite by then.

### The contract behind the recursion

`Rem(l)` is the iterations of level `l` strictly after the current one. Every slice and every handler call
promises (`Context.Did`, `Context.Unwound`): with return code `rc <= 0` it has done exactly its own range; with
`rc > 0` it has also done `Rem` of the `rc` levels around it, the outermost of which is the one that was split: it
had an iteration left and no level further out had (`SliceContract.Completes`, `SliceContract.Promotes`). So a
promotion stops the loops from the receiving to the splitting level and no other. It has not written the context lines of the
levels outside those, and no level outside `startingLevel` has an iteration left. The last point is what makes
the early exit of the leftover tasks safe: the handler splits the outermost loop that has work.

### Where the code does not keep a promise

- The reduction blocks of a leaf slice always emit an addition, while the loop and the final merge with the
  initial value use the operator of the reduction. `ReductionOperator.RightIffMergesRight` shows for which operators
  the value merged at a promotion is right, whatever the loop computes and wherever the handler splits it: in a nest
  of several loops, exactly those that agree with the emitted one; in a single loop, where results are merged in
  threes, exactly those that agree with it when applied twice. `ProductFails` gives a product that comes out as 9
  instead of 24. `Heartbeat` requires this condition, `MergesRight`.
- The midpoint and the chunk end are 64-bit sums. `Context.MidpointExact` and `Context.ChunkEndExact` show that
  they are right if and only if the sum does not wrap; loop bounds below 2^63 are enough.
- A constant live-in goes through a 64-bit word. `ConstantTable.RoundTrip` shows that it survives if and only if
  it fits into a signed 64-bit word, which excludes some values of wider integer types.

## Model

| member | source | states |
|---|---|---|
| EndToEnd.CompileAndRun | src/Pass.cpp:60-143 | for any enumeration of the loops of a nest with one loop per level, any heartbeats, chunk sizes and task orders: every complete schedule leaves the store as the sequential nest does; a one-loop nest returns the contributions of its leaf iterations, reduced in order; tasks are promoted at most once, only at heartbeats and whenever there is something to hand over; they poll after every full chunk; polls and promotions are amortised against leaf iterations |
| Theorems.MeaningPreserved | src/HeartbeatTransformation.cpp:79-83 | every complete schedule of a computation that implements the nest leaves the store as the sequential nest does, when iterations are independent |
| Schedules.ForkInterleaves | commons/promotion_handler.cpp:456-485 | the traces of the complete runs of a fork are exactly the interleavings of the traces of its two tasks, where interleavings are defined on sequences |
| Schedules.SequenceRuns | commons/promotion_handler.cpp:456-485 | the traces of a sequence inside a task are exactly the concatenations: what comes after a fork waits for both tasks |
| Schedules.SingleStep | commons/promotion_handler.cpp:456-485 | an action is executed once; a poll and a finished task execute nothing |
| Theorems.EveryStateIsSafe | commons/promotion_handler.cpp:435-485 | in every reachable state, executed and still owned actions together are the sequential work, each once; the executed ones are in causal order; parallel tasks own disjoint iterations (that they have no memory in common is `Heartbeat.RunHalves` and `Heartbeat.RunLeftoverAndSlice`) |
| Theorems.TailComesLast | src/HeartbeatTransformation.cpp:1778-1853 | in every schedule the head of an iteration precedes and its tail follows everything inside that iteration, whichever task ran it |
| Theorems.EveryRunCompletes | commons/promotion_handler.cpp:456-485 | every schedule of a finite computation can be continued to completion, and none is longer than the computation; that the computation is finite is what the `decreases` clauses of `Heartbeat` prove |
| Theorems.SequentialIsSpace | src/HeartbeatTransformation.cpp:263-318 | the sequential nest executes exactly the iterations whose components lie in the bounds their prefixes determine, and a tail sees the sum of its own leaf loop |
| Theorems.RangeIsSpace | src/HeartbeatTransformation.cpp:263-318 | the same for any range of a loop at any level |
| Theorems.TailSeesItsRow | src/HeartbeatTransformation.cpp:1778-1787 | the sum a tail sees is the reduction of the contributions of its own row of leaf iterations, in order, and these are the leaf iterations of the nest under it |
| Theorems.SameLeafIterations | commons/promotion_handler.cpp:456-485 | a computation that implements the nest executes as many leaf iterations as the sequential nest |
| Theorems.Amortised | commons/promotion_handler.cpp:338-354 | with chunks of at least c iterations, c times the polls, and c times the promotions, never exceeds the leaf iterations of the nest |
| Theorems.PromotedAtMostOnce | commons/promotion_handler.cpp:398-490 | every task is promoted at most once and has nothing but tail work left then |
| Theorems.PollsCountChunks | commons/promotion_handler.cpp:295-354 | for every task of a run, the leaf iterations it has executed itself are its polls times the chunk size it started with, plus less than one chunk; if it is promoted, nothing is outside a full chunk then, what the runtime samples is the number of its polls, and that number times the chunk size is at most the leaf iterations of the nest |
| Theorems.TaskIsPaced | src/LoopChunking.cpp:194-214 | every task of a run polls after every full chunk of its own leaf iterations, and nowhere else |
| Theorems.PromotedIffWorkLeft | src/HeartbeatTransformation.cpp:385-434 | at a poll where a task of a run notices a heartbeat, it is promoted if and only if a head or leaf iteration that it owns has not been executed |
| Theorems.NoBeatNoFork | src/HeartbeatTransformation.cpp:385-434 | if no poll of a task notices a heartbeat, nothing is forked |
| ForkJoin.StepConserves | commons/promotion_handler.cpp:456-485 | one step of any live task moves exactly its action from owned to executed |
| ForkJoin.StepOrdered | commons/promotion_handler.cpp:456-485 | a step keeps the remaining computation ordered, and the action had nothing left to wait for |
| ForkJoin.NextKeepsInvariant | commons/promotion_handler.cpp:456-485 | conservation, causal order and independence of live tasks are kept by every step |
| ForkJoin.Reachable | commons/promotion_handler.cpp:456-485 | the invariant holds in every state of every run |
| ForkJoin.Progress | commons/promotion_handler.cpp:456-485 | the machine can always take a step while a computation is unfinished |
| ForkJoin.RunsTerminate | commons/promotion_handler.cpp:456-485 | every step of the machine uses up part of the computation |
| ForkJoin.SameEffect | src/HeartbeatTransformation.cpp:79-83 | two causal orders of the same actions have the same effect on any store when unrelated actions commute |
| LoopNest.RangeCausal | src/HeartbeatTransformation.cpp:1778-1853 | the sequential order of a range is causal |
| LoopNest.RangeOnce | src/HeartbeatTransformation.cpp:79-83 | no action occurs twice in a range of a nest |
| LoopNest.RangeInOrder | src/HeartbeatTransformation.cpp:263-318 | the actions of a range are in the order in which nested loops visit their iterations |
| LoopNest.FoldReduces | src/LoopChunking.cpp:111-134 | the reduction of a leaf range is that of the contributions of exactly the iterations the range runs, each under its own outer iteration |
| LoopNest.FoldSplit | src/HeartbeatTransformation.cpp:485-492 | the reduction of a range is the reduction of its two parts, by associativity and identity alone |
| Heartbeat.RunNest | src/HeartbeatTransformation.cpp:1247-1345 | for every nest, heartbeat pattern, chunk sizes and task orders the root call yields a computation that implements the nest; for one loop the result is the initial value combined once with the left-to-right reduction; polls are paid for; promotions nest at most D deep with 2^D iterations; every task heeds heartbeats and polls after every full chunk |
| Heartbeat.Slice | src/HeartbeatTransformation.cpp:263-318 | contract of a slice task: own range, plus the remaining iterations of the rc levels around it when rc > 0, the outermost of which had an iteration left and was split; outer lines and LIVE_OUT unchanged; its reduction slot holds the reduction of its whole range |
| Heartbeat.InnerSlice | src/HeartbeatTransformation.cpp:1652-1853 | the same for a loop above the leaf; the MAX loaded on entry is never stale |
| Heartbeat.InnerLoop | src/HeartbeatTransformation.cpp:1652-1853 | its loop: completes its range, or stops with rc - 1 when the child reports rc > 0 |
| Heartbeat.OneIteration | src/HeartbeatTransformation.cpp:1652-1853 | one iteration with its tail work: complete when rc <= 0, and when rc > 0 the whole range and rc - 1 outer levels are complete |
| Heartbeat.CallChild | src/HeartbeatTransformation.cpp:1752-1787 | the child's slice is called for the iteration's own bounds, and the tail reads the full leaf sum |
| Heartbeat.EnterIteration | src/HeartbeatTransformation.cpp:1652-1750 | stores the current iteration and the child's bounds, and changes no line of an outer level |
| Heartbeat.LeafSlice | src/HeartbeatTransformation.cpp:478-629 | slice task of the leaf: on every exit its slot holds the reduction of its range and has been written exactly once by this call; the context's LIVE_OUT entry is what it was on entry although promoted tasks overwrote it (src/HeartbeatLoopEnvironmentUser.hpp:44-57) |
| Heartbeat.LeafLoop | src/LoopChunking.cpp:62-224 | the chunked loop does its whole range, or stops after a promotion that has done the rest of it |
| Heartbeat.LeafRound | src/HeartbeatTransformation.cpp:385-434 | one round: a chunk, the poll if it is full, and the handler if there is a heartbeat; the task is promoted if and only if the chunk is full, there is a heartbeat after its last iteration, and some level from the task's root on has an iteration left |
| Heartbeat.NextChunk | src/LoopChunking.cpp:62-214 | runs `LeafChunking.Round`, the round of the loop that refines the unchunked one; polls and counts the poll exactly when the chunk is full, and pays for it |
| Context.ChunkEnd | src/LoopChunking.cpp:78-91 | the chunk ends at the chunk size or at the bound, whichever is smaller, without wrapping |
| Heartbeat.OnBeat | src/HeartbeatTransformation.cpp:412-434 | promotes if and only if some level has an iteration left; then the loop is left with its range complete and the reduction of the rest in the kids' slots; otherwise nothing has changed |
| Heartbeat.Promote | src/HeartbeatTransformation.cpp:392-416 | the handler sees the last executed iteration in START |
| Heartbeat.Reduce | src/HeartbeatTransformation.cpp:485-613 | computes `ReductionOperator.Merged` of the private value and the kids' values; under `MergesRight` that is the reduction of the whole range; each slot read has been written exactly once, and one that is not read never |
| Heartbeat.ReducedAfter | src/HeartbeatTransformation.cpp:485-613 | private value and kids' slots make up the fold of the whole range for every return code |
| Heartbeat.PromotionHandler | commons/promotion_handler.cpp:375-491 | return code 0 if and only if no level from the task's root on has an iteration left, and then nothing changes; otherwise the level that the return code stands for is the outermost one that has, all work left at the receiving to splitting levels is done, and outer lines are unchanged |
| Heartbeat.SplittingLevel | commons/promotion_handler.cpp:398-410 | finds the outermost level whose loop has an iteration after the current one, or shows there is none, for unsigned differences of words |
| Heartbeat.AtLeastTwo | commons/promotion_handler.cpp:400-400 | the unsigned test holds exactly when an iteration follows the current one |
| Heartbeat.SplitAndFork | commons/promotion_handler.cpp:428-485 | the two tasks together do exactly what was left from the splitting level inwards |
| Heartbeat.SplittingPoint | commons/promotion_handler.cpp:428-430 | the 64-bit midpoint gives two contiguous halves that differ by at most one iteration, the second not empty, without overflow |
| Heartbeat.SecondContext | commons/promotion_handler.cpp:435-443 | only the splitting level's line of the second context is written |
| Heartbeat.ForkSlices | commons/promotion_handler.cpp:450-469 | promotion at the leaf: both halves are done, both kids' slots hold their reductions, in order |
| Heartbeat.RunHalves | commons/promotion_handler.cpp:456-469 | either task may go first: each does its own range and writes its own slot once, and nothing that one reads or writes is read or written by the other |
| Heartbeat.ForkLeftover | commons/promotion_handler.cpp:471-485 | promotion at an outer level: leftover and second slice together do all work left; the first kid's slot holds the rest of the leaf reduction |
| Heartbeat.RunLeftoverAndSlice | commons/promotion_handler.cpp:477-484 | the same for a leftover task and a slice |
| Heartbeat.StartSlice | commons/promotion_handler.cpp:456-469 | a task started with a reset task memory does exactly the range of its slice |
| Heartbeat.StartLeftover | commons/promotion_handler.cpp:477-480 | the same for a leftover task |
| Heartbeat.Leftover | src/LeftoverTaskGenerator.cpp:98-164 | a leftover task does everything left from the receiving to the splitting level, with early exits |
| Heartbeat.LeftoverLevel | src/LeftoverTaskGenerator.cpp:100-164 | one block of it: the level is complete, or everything is when the slice reports rc > 0 |
| Heartbeat.NextIterations | src/LeftoverTaskGenerator.cpp:120-150 | START is incremented in the shared context and the slice does the rest of the level |
| Heartbeat.ShallowHalves | commons/promotion_handler.cpp:428-469 | halving keeps 2^depth within the number of iterations |
| Heartbeat.ReducedHalves | src/HeartbeatTransformation.cpp:485-613 | the slots of two halves combine to the reduction of the range |
| SliceContract.IterationComplete | src/HeartbeatTransformation.cpp:1778-1853 | the loop of a slice goes on: iteration i is complete, the bound loaded on entry is still right, and the account is kept |
| SliceContract.IterationPromoted | src/HeartbeatTransformation.cpp:1812-1853 | the loop of a slice is left with rc - 1: its whole range and rc - 1 levels around it are complete |
| SliceContract.LeafRangeDone | src/LoopChunking.cpp:62-224 | a leaf loop that reaches its bound unpromoted has done its range, and its private value is the reduction of it |
| SliceContract.RecordPromotion | src/HeartbeatTransformation.cpp:412-434 | a leaf loop that stops after a promotion keeps the promise of its slice with rc - 1 |
| SliceContract.LiveOutRestored | src/HeartbeatLoopEnvironmentUser.hpp:44-57 | restoring the context's LIVE_OUT entry keeps what the leaf loop has promised |
| SliceContract.RecordLevel | src/LeftoverTaskGenerator.cpp:98-164 | one block of a leftover task: its level is complete, or all levels are when the slice reports rc > 0 |
| SliceContract.LevelDone | src/LeftoverTaskGenerator.cpp:152-163 | an early exit skips only levels that have no iteration left or were completed by the promotion |
| SliceContract.SplitDone | commons/promotion_handler.cpp:398-491 | splitting the outermost level with work left leaves nothing undone from there inwards, and no outer level from the task's root on has work left |
| HeartbeatSteps.SplitWork | commons/promotion_handler.cpp:428-448 | lowering MAX hands exactly the later half to the second task, at any nesting |
| HeartbeatSteps.SplitApart | commons/promotion_handler.cpp:435-448 | the two tasks own iterations that do not enclose one another |
| HeartbeatSteps.LeafPromoted | src/HeartbeatTransformation.cpp:412-434 | a leaf slice that stops after a promotion has done its range and the unwound levels |
| HeartbeatSteps.InnerPromoted | src/HeartbeatTransformation.cpp:1812-1853 | a loop left because its child reported rc > 0 is complete, and reports rc - 1 levels more |
| HeartbeatSteps.InnerIteration | src/HeartbeatTransformation.cpp:1778-1853 | an iteration whose child reported rc <= 0 is complete, head first and tail last |
| HeartbeatSteps.StillRunning | src/HeartbeatTransformation.cpp:263-288 | after a child's return the bound in the context is still the one loaded on entry, and none is left if the task was split here or further in |
| HeartbeatSteps.UnwindLines | src/HeartbeatTransformation.cpp:617-629 | returning rc - 1 unwinds exactly the levels the promotion covered |
| HeartbeatSteps.LeftoverStep | src/LeftoverTaskGenerator.cpp:98-164 | one level of the leftover chain appends exactly that level and the unwound ones |
| HeartbeatSteps.ChildWork | src/HeartbeatTransformation.cpp:1652-1787 | termination: the call for an inner loop has fewer actions pending than the loop itself |
| HeartbeatSteps.LeafBeatWork | src/HeartbeatTransformation.cpp:392-416 | termination: at a heartbeat fewer actions are left than when the leaf slice was called |
| Context.RemConcatApart | commons/promotion_handler.cpp:398-410 | what is left at inner levels is independent of what is left at outer levels |
| Context.RemNone | commons/promotion_handler.cpp:398-410 | levels without a following iteration have no work left |
| Context.MidpointExact | commons/promotion_handler.cpp:428-430 | the midpoint lies strictly after low and before high if and only if low + 1 + high does not wrap |
| Context.ChunkEndExact | src/LoopChunking.cpp:78-91 | the chunk end is the smaller of its two candidates if and only if the sum does not wrap |
| Accounts.AccountChunk | commons/promotion_handler.cpp:346-354 | iterations = polls x chunk size + progress is kept by every chunk |
| Accounts.AccountFork | commons/promotion_handler.cpp:456-485 | two tasks with reset memories keep the amortised bound |
| Accounts.AccountTask | commons/promotion_handler.cpp:295-354 | the account of a task from its reset to its end, promoted or not: full chunks per poll, its sample, and where it polls and is promoted |
| TaskMemory.TaskMem.Reset | commons/promotion_handler.cpp:295-336 | a full chunk of the given size remains |
| TaskMemory.TaskMem.UpdateAndHasRemaining | commons/promotion_handler.cpp:338-354 | 1 <= remaining <= chunksize; a poll follows exactly when the iterations since the last poll make up the chunk size |
| LeafChunking.ChunkedLoop | src/LoopChunking.cpp:13-224 | same iterations, private value, return code and handler calls (START is the last iteration) as the unchunked loop that notices heartbeats only at full chunks: the handler is called after exactly those, and the loop ends at the first for which it returns a positive code; iterations = polls x chunk size + change of progress, across loop invocations |
| LeafChunking.Round | src/LoopChunking.cpp:62-214 | one chunk of it, on all exits; the round that `Heartbeat.NextChunk` runs |
| LeafChunking.RoundAndPoll | src/LoopChunking.cpp:62-214 | a round with its poll and handler call agrees with the unchunked loop |
| LeafChunking.RunChunk | src/LoopChunking.cpp:111-134 | the inner loop accumulates the left-to-right reduction of its iterations, without a poll between them |
| LeafChunking.UnchunkedIs | src/HeartbeatTransformation.cpp:385-434 | what the unchunked loop does, without its recursion: handler calls, where it ends, and its private value |
| LeafChunking.QuietUntilEnd | src/LoopChunking.cpp:194-214 | within a chunk only its last iteration is followed by a poll |
| ReductionOperator.RightIffMergesRight | src/HeartbeatTransformation.cpp:551-585 | for nests of any depth, merged reductions are right for every loop, promotion point and return code if and only if `MergesRight` holds |
| ReductionOperator.ProductFails | src/HeartbeatTransformation.cpp:551-585 | a product of three iterations, split at the handler's midpoint after the first, comes out wrong |
| ChunkControl.Worker.Update | commons/promotion_handler.cpp:205-276 | the thread's counters are those of the whole history of samples: chunk size and the extreme of exactly the current window |
| ChunkControl.ExtremeOf | commons/promotion_handler.cpp:214-222 | the value of a window is one of its samples and the smallest (largest) of them |
| ChunkControl.WindowIsBlock | commons/promotion_handler.cpp:242-273 | windows are consecutive blocks of samples |
| ChunkControl.FirstWindow | commons/promotion_handler.cpp:160-170 | until the first window is complete, a thread hands out the initial chunk size |
| ChunkControl.AdjustedBounds | commons/promotion_handler.cpp:246-259 | the new chunk size is the scaled one rounded down, and at least 1 |
| ChunkControl.OnTarget | commons/promotion_handler.cpp:246-259 | the sampled interval will be polled at least ratio and less than twice ratio times |
| ChunkControl.ChunkBounded | commons/promotion_handler.cpp:205-276 | if every sample times the chunk size in force is at most the iterations of the program, the chunk size is at least 1 and never exceeds both its initial value and those iterations |
| ThreadSamples.HistoryBounded | commons/promotion_handler.cpp:295-336 | in a run, every sample of a thread meets that condition: it is the polling count of a promoted task, which has run that many full chunks |
| ThreadSamples.ThreadChunkBounded | commons/promotion_handler.cpp:205-276 | so every chunk size a thread hands out in a run is at least 1 and never exceeds both the initial size and the leaf iterations of the nest |
| Tables.CreateLeftoverTasks | src/LeftoverTaskGenerator.cpp:22-59 | exactly one leftover task for every pair of levels s < r, for any enumeration of the loops |
| Tables.SelectFinds | src/LeftoverTaskGenerator.cpp:231-292 | the selector returns the leftover task built for (r, s), although its last block does not compare |
| NestAnalysis.Analysis.SetLoopNestAndRoot | src/LoopNestAnalysis.cpp:76-142 | the memoised recursion records the loop and the loops around it, with right level, root, caller and nest |
| NestAnalysis.Analysis.PerformLoopNestAnalysis | src/LoopNestAnalysis.cpp:37-52 | all loops are recorded, for any visiting order |
| NestAnalysis.NestsPartition | src/LoopNestAnalysis.cpp:76-142 | every loop is in exactly one nest, that of its root |
| NestAnalysis.Analysis.PerformLoopLevelAnalysis | src/LoopLevelAnalysis.cpp:37-79 | numLevels is one more than the highest level, and the root loop is the root of all loops |
| NestAnalysis.LevelPresent | src/LoopLevelAnalysis.cpp:93-152 | there is no gap between the levels in levelToLoop |
| NestAnalysis.LevelsInverse | src/LoopLevelAnalysis.cpp:93-152 | with one loop per level, levelToLoop inverts loopToLevel |
| NestAnalysis.Analysis.CreateSliceTasks | src/SliceTaskWrapperGenertor.cpp:21-28 | entry l of the slice table is the slice task of level l |
| NestAnalysis.EnumeratesLevels | src/LeftoverTaskGenerator.cpp:22-39 | any enumeration of such a nest gives each level once, and there are as many levels as loops |
| NestAnalysis.BuildTables | src/LeftoverTaskGenerator.cpp:171-198 | the pass builds complete tables, as `Heartbeat` requires them |
| ConstantLiveIns.Analysis.ConstantLiveInToLoop | src/ConstantLiveInAnalysis.cpp:58-176 | records exactly the copies of an argument, and as constants exactly those that are needed; what they are needed for is `ConstantTable.NothingIsLost` and `ConstantTable.BoundsArrive` |
| ConstantLiveIns.Analysis.PerformConstantLiveInAnalysis | src/ConstantLiveInAnalysis.cpp:5-25 | the record is right for all arguments of the root loop |
| ConstantLiveIns.ExplorationFinds | src/ConstantLiveInAnalysis.cpp:86-110 | following uses inwards finds exactly the arguments whose value comes from there by following operands outwards |
| ConstantLiveIns.CopyOfRoot | src/ConstantLiveInAnalysis.cpp:58-136 | being a copy of a root argument is having it as origin |
| ConstantTable.OriginHolds | src/ConstantLiveInAnalysis.cpp:58-136 | in every chain of activations from the root, an argument with an origin has the root argument's value |
| ConstantTable.ConstantsArrive | src/HeartbeatTransformation.cpp:807-867 | what a slice task loads for a constant live-in is the value the original function would have received |
| ConstantTable.NothingIsLost | src/ConstantLiveInAnalysis.cpp:58-176 | an argument left out of the environments is in the table if and only if the transformed loop needs its value: an instruction uses it, or a stored bound of an inner loop changes with it |
| ConstantTable.BoundsArrive | src/HeartbeatTransformation.cpp:1658-1763 | two activations that agree on the recorded constants and on the arguments not left out of the environments store the same START and MAX for every inner loop |
| ConstantTable.RoundTrip | src/HeartbeatTransformation.cpp:1129-1186 | a value survives widening and narrowing if and only if it fits into a signed 64-bit word |
| ConstantTable.NumberConstants | src/ConstantLiveInAnalysis.cpp:44-52 | the numbering is a bijection between recorded indices and slots |
| ConstantTable.FillTable | src/HeartbeatTransformation.cpp:1129-1186 | every slot holds the word of its argument, for any order of the stores |

## Left out

- Live-outs of loops above the leaf: the pass does not support them (src/HeartbeatTransformation.cpp:336, 1855-1863).
- Several live-outs of one loop: one reduction is modelled; each further one would behave alike.
- `Heartbeat.OneIteration`: the nested call and the work after it are taken to share one basic block that ends in the branch to the latch, whose terminator the code replaces (src/HeartbeatTransformation.cpp:1812-1853); tail work with control flow of its own is not covered.
- `ConstantTable.NothingIsLost`: a use by the instructions that govern the loop's own induction variable is not taken to need the value (src/ConstantLiveInAnalysis.cpp:86-93), because the bounds are read from the context. A stride is not: loops are taken to have stride 1, as the chunked loop does when it puts the chunk size in place of the stride (src/LoopChunking.cpp:93-97).
- `ConstantTable.BoundsArrive`: for a loop bound `llvm.smax(x, y)` the code stores `x` (src/HeartbeatTransformation.cpp:1699-1709, 1745-1755), which is the bound if and only if `y <= x`; the second operand is not part of the model.
- `Heartbeat.EnterIteration`: the live-in environment of a level is modelled as the captured outer iteration, stored per iteration; the code stores a pointer to an environment once and refills the environment.
- The values of the iterations: bounds and leaf contributions are functions of the iteration numbers, and the effect of an action on the store is an arbitrary function (`Theorems.MeaningPreserved`).
- `Heartbeat.RunHalves`: `fork2join` calls its two tasks in either order; interleavings are those of the machine in `ForkJoin`, whose steps are actions, not memory accesses. The sets `used` are recorded by the methods themselves, at allocations, calls and slot accesses; live-in environments and tables are only read while tasks run, and are not in them.
- Live threads, work stealing and the scheduler behind `fork2join` are not part of this model.
- Time: when a heartbeat arrives is an arbitrary function of the leaf iteration that precedes the poll; each leaf iteration is polled at most once.
- `Heartbeat.StartSlice`: the chunk size a task starts with is arbitrary within the environment's limits, so that static and adaptive control are covered; that an adaptive size stays within such limits is `ThreadSamples.ThreadChunkBounded`.
- `ChunkControl.Worker.Update`: no rounding of floating-point numbers, no wrap of the 64-bit heartbeat counter, and no conversion of a chunk size of 2^64 or more, which `ChunkControl.ChunkBounded` excludes.
- The constant live-in pointer that all tasks pass along is not threaded through `Heartbeat`.
- `ConstantTable.RoundTrip`: floating-point arguments are stored by address, so only their addresses are covered.
- `NestAnalysis.Analysis.PerformLoopLevelAnalysis`: the level analysis repeats the walk of the nest analysis on the loops of one nest; the model uses the same walk and ignores its nest numbers.
- The comparison that ends a loop above the leaf is modelled as `<`; the code keeps the comparison of the original loop.
- `ThreadSamples.HistoryBounded`: a thread's tasks and samples are given as a sequence; that a task runs on the thread that started it until its promotion, because it does not fork before, is a hypothesis.
- Rollforward, statistics (among them the counters of promotions and tasks), polling timers, command-line options and environment variables, `DISABLE_PROMOTION` and the `*_OVERHEAD_ANALYSIS` builds.
- LLVM and NOELLE mechanics: the model is about what the emitted code means.
