# Hustle, verified

Hustle is a columnar query engine. This project models the parts of it whose correctness is a global argument rather
than a local one, and proves what the code promises about them. Everything is stated for all inputs, all runs or all
reachable states.

- **XOR filter** (`XorPeeling`, `XorPopulate`, `XorFilter`): both construction routines, with their slot tables, queues
  and write buffers. Both accept exactly the first seed under which the keys have no 2-core, and a built filter has no
  false negatives. Whether it reports another key is decided by three cells, each of which allows exactly one byte. The
  buffered routine refines the plain one although its decrements are applied late.
- **Task scheduler** (`TaskGraph`, `SchedulerMachine`, `Scheduler`): the dependency graph, its recursive firing, the ready
  queue, the workers and the message loop, as a state machine whose steps are the critical sections and queue operations,
  and as an object with the methods of the repository. `PlanOrder` and `ExecutionPlan` build on it: operator plans and
  task chains, and what may run before what.
- **Fused filter join** (`BloomFilter`, `Chunked`, `FilterJoin`, `Gather`): Bloom filters, swap-compaction over parallel
  index arrays, concatenation into the star join, and the sliced gather that consumes the result.
- **Join reordering** (`Connectivity`, `DisjointSet`, `JoinMeaning`, `ReorderJoins`): union-find with path compression,
  and the greedy construction of a join plan, proved against the meaning of the query.
- **Expressions** (`ExpressionModel`, `Expression`): compilation to postfix and evaluation with reused buffers, with the
  exact conditions under which the value is right and the inputs survive.
- **Join-graph shape** (`JoinShape`), **aggregation** (`HashAggregate`, `GroupEnumeration`), **transaction log** (`MemLog`)
  and **bulk insertion** (`StringColumn`, `BulkInsert`).

`Counting`, `Arithmetic` and `Wrappers` hold facts about finite sets, sums over them and quotients, and optional values.

## How to read it

Pure code is modelled by functions, code that changes things step by step by methods and classes. A method is proved
against a specification stated with functions and predicates over values; the lemmas about those are the results.
Long proofs are split into one lemma per step and per predicate. `hide` statements keep definitions out of proofs that do
not need them.

What a reader would not expect from the code, each proved below:

- A plan that was merged from two non-empty plans has operators that do not know their positions any more
  (`ExecutionPlan.Merge`); its links then go to the last operator with a number (`ResolvedEdges`).
- A plan without operators never runs its closing task. At rest, a started plan has run it exactly if it has operators
  and none of them feeds itself (`ClosingRunsIff`).
- A plan answers its query exactly if the join graph is connected; otherwise tables and predicates are lost
  (`AnswersIffConnected`, with `TwoComponents` as an example).
- Estimated join sizes are products in 64 bits, so a product that overflows may come first although it is the largest
  (`WrapExample`).
- An expression with a bare column left of a compound operand overwrites that column. Over all arithmetics and inputs,
  the value is right exactly if no column is read after being overwritten, and the inputs survive exactly if no such
  operand exists (`ValueRightExactlyWhenReadsClean`, `InputKeptExactlyWhenRegular`). For integer sums and products the
  same holds on every single input of numbers from 2 on (`IntegersAreExact`). With differences it does not: the
  overwriting may happen to write the old value back (`CancelExample`).
- A table counts as a star if as many predicates lie inside it as elsewhere, so the answer "star" is right exactly if no
  predicate lies inside a table that all of them mention and no other table has such a balance (`StarRightIff`).
- The power-of-ten group keys collide exactly when a column does not fit below the next one with several values
  (`KeysInjectiveIff`), and then rows are added to other groups (`IndexRightIff`).
- The chunk numbers stored by the filter join are usable exactly up to chunk 65535 (`JoinOutputLocated`).
- Bulk insertion of strings whose index does not start at 0 lets the last string stored before grow by whatever lay
  behind it. The stored strings survive exactly if there are none, or the input does not start at such a first string
  (`StoredSurviveIff`, `DamagedExample`).

## Model

| member | source | states |
|---|---|---|
| `XorPeeling.CoreSurvives` | src/utils/xorfilter.h:715-798 | peeling never takes a key out of a 2-core, whatever the order |
| `XorPeeling.RestIsCore` | src/utils/xorfilter.h:715-802 | when no slot waits and nothing is buffered, the keys left form a 2-core |
| `XorPeeling.PeeledIffPeelable` | src/utils/xorfilter.h:590-593 | a finished run has a full stack exactly if only the empty set is a 2-core; every 2-core is among the keys left |
| `XorPeeling.EqualHashesBlock` | src/utils/xorfilter.h:425-428 | two keys with equal hashes make peeling impossible |
| `XorPopulate.QueueFits` | src/utils/xorfilter.h:690-712 | every slot is queued at most once, so a queue never outgrows its part of the backing array |
| `XorPopulate.SameKeysRemain` | src/utils/xorfilter.h:524-589 | the greatest 2-core is unique, so plain and buffered peeling remove the same keys |
| `XorPopulate.Conclusion` | src/utils/xorfilter.h:799-802 | at the end the keys left are the greatest 2-core, and a full stack lists each slot so that no later key touches it |
| `XorPopulate.PeelTable.Settle` | src/utils/xorfilter.h:728-734 | lowering a slot keeps the table invariant and queues the slot when one key is left |
| `XorPopulate.PeelTable.FillPlain` | src/utils/xorfilter.h:677-687 | counts and masks describe all keys |
| `XorPopulate.PeelTable.FillBuffered` | src/utils/xorfilter.h:486-496 | the same through write buffers, which end up empty |
| `XorPopulate.PeelTable.BufferIncrement` | src/utils/xorfilter.h:283-302 | a full buffer is applied; counts plus buffered increments stay the tally of the keys seen |
| `XorPopulate.PeelTable.FlushIncrements` | src/utils/xorfilter.h:353-365 | applying a buffer keeps the tally and empties the buffer |
| `XorPopulate.PeelTable.DecrementBuffered` | src/utils/xorfilter.h:325-352 | late decrements keep the invariant that counts minus buffered decrements are the live keys |
| `XorPopulate.PeelTable.FlushDecrements` | src/utils/xorfilter.h:366-387 | applying a buffer keeps the invariant and queues every slot left with one key |
| `XorPopulate.PeelTable.FlushOne` | src/utils/xorfilter.h:388-418 | emptying the fullest buffer keeps the invariant |
| `XorPopulate.PeelTable.TakeBuffered` | src/utils/xorfilter.h:525-541 | bringing the slot up to date and peeling its key keeps the invariant, or the slot is stale |
| `XorPopulate.PeelTable.TakePlain` | src/utils/xorfilter.h:716-742 | peeling one key keeps the invariant; the count of the peeled slot stays at one |
| `XorPopulate.PeelTable.Scan` | src/utils/xorfilter.h:690-712 | after the scan every slot with one key is queued and peeling can start |
| `XorPopulate.PeelTable.PeelPlain` | src/utils/xorfilter.h:677-802 | terminates; true exactly if the hashes are peelable; leaves the greatest 2-core; on success the stack is solvable in reverse |
| `XorPopulate.PeelTable.PeelBuffered` | src/utils/xorfilter.h:486-593 | the same outcome, and all buffers are empty when another attempt follows |
| `Arithmetic.ReduceInRange` | src/utils/xorfilter.h:44-47 | a reduced hash lies in its block, here and in the Bloom filter; with no cells it is 0 |
| `Arithmetic.ReduceScales` | src/utils/xorfilter.h:44-47 | the reduction scales 32-bit values to [0, n), rounding down; this determines it |
| `Arithmetic.ReduceMonotone` | src/utils/bloom_filter.h:36-38 | larger hashes never get smaller cells |
| `Arithmetic.ReduceOnto` | src/utils/bloom_filter.h:36-38 | up to 2^32 cells, every cell is hit by some 32-bit hash |
| `XorFilter.Xor8HashValid` | src/utils/xorfilter.h:180-212 | the concrete hash functions are an instance of the abstract hasher |
| `XorFilter.CompletingSolves` | src/utils/xorfilter.h:813-824 | the stored byte makes the three cells add up to the fingerprint |
| `XorFilter.StoreStep` | src/utils/xorfilter.h:810-825 | storing in reverse peel order solves one more equation and disturbs none already solved |
| `XorFilter.Xor8.Assign` | src/utils/xorfilter.h:597-616 | all equations of the stack hold at the end, for any initial fingerprints |
| `XorFilter.Xor8.AllContained` | src/utils/xorfilter.h:77-88 | with all equations solved no key is reported missing; what absent keys get is stated by the next three rows |
| `XorFilter.SameCellsSameAnswer` | src/utils/xorfilter.h:77-88 | the answer to a query depends on nothing but the three cells the key selects |
| `XorFilter.OneCellApart` | src/utils/xorfilter.h:77-88 | two filters that differ in exactly one of these cells never both contain the key |
| `XorFilter.OneByteAccepted` | src/utils/xorfilter.h:77-88 | with the other two cells as they are, exactly one byte in each cell makes the filter contain the key |
| `XorFilter.EmptyFilterExample` | src/utils/xorfilter.h:77-88 | under the concrete hash, an empty filter reports key 1 missing and, falsely, key 0 present |
| `XorFilter.PlaceExample` | src/utils/xorfilter.h:202-213 | the concrete hash of key 1 and the three cells it selects |
| `XorFilter.Xor8.PopulatePlain` | src/utils/xorfilter.h:637-831 | accepts the first of at most 100 seeds that has no 2-core; true exactly if there is one, and then every key is contained |
| `XorFilter.Xor8.PopulateBuffered` | src/utils/xorfilter.h:430-625 | the same seed, the same answer and the same guarantee as the plain routine |
| `XorFilter.AcceptedKeysDistinct` | src/utils/xorfilter.h:425-428 | an accepted seed implies pairwise distinct keys |
| `XorFilter.FirstAcceptedAccepts` | src/utils/xorfilter.h:474-485 | the accepted seed is accepted and none before it is |
| `TaskGraph.FiringUnique` | src/scheduler/scheduler.cc:237-256 | what a firing fires, releases and leaves does not depend on the order in which dependents are visited |
| `TaskGraph.FiringLeast` | src/scheduler/scheduler.cc:242-254 | the fired continuations are the least set closed under the firing rule |
| `TaskGraph.LinkKeepsConsistent` | src/scheduler/scheduler.cc:228-235 | a link keeps every dependency count equal to the number of nodes listing the node |
| `TaskGraph.ServeContinuation` | src/scheduler/scheduler.cc:250-252 | a nested firing in the middle of another keeps counts, order and released tasks right |
| `SchedulerMachine.StepKeeps` | src/scheduler/scheduler.cc:120-308 | every step of every client, worker and of the loop keeps the invariant |
| `SchedulerMachine.RunKeeps` | src/scheduler/scheduler.cc:120-308 | the invariant holds in every state of every run |
| `SchedulerMachine.EverythingBeforeHasFinished` | src/scheduler/scheduler.cc:237-264 | whatever reaches a released node through any chain of links has finished |
| `SchedulerMachine.ReleasedOnlyAfterAllDependencies` | src/scheduler/scheduler.cc:228-264 | the same over whole runs, for links made at any time, before or after the release |
| `SchedulerMachine.DispatchedOnce` | src/scheduler/scheduler.cc:201-226 | each task is queued and dispatched at most once, and only after its release |
| `SchedulerMachine.QueueIsFifo` | src/scheduler/scheduler.cc:201-226 | in every run, the dispatched tasks followed by the queue are exactly the tasks ever queued, in order |
| `SchedulerMachine.WorkersPartition` | src/scheduler/scheduler.cc:209-226 | idle, busy and returning workers partition the workers, one task per busy worker |
| `SchedulerMachine.NeverStuck` | src/scheduler/scheduler.cc:266-299 | the loop blocks only while a worker executes, or with nothing queued and no stop request; never with a ready task and an idle worker |
| `SchedulerMachine.StopRequested` | src/scheduler/scheduler.cc:280-284 | from a stop request on it is in the mailbox or has been taken note of |
| `SchedulerMachine.StopHonoured` | src/scheduler/scheduler.cc:266-284 | after a stop request the loop blocks only while a worker is executing |
| `SchedulerMachine.StopsWhenIdle` | src/scheduler/scheduler.cc:270-276 | with a stop request noted, the loop stops exactly if no task is ready and no worker is busy |
| `SchedulerMachine.StopsClean` | src/scheduler/scheduler.cc:266-278 | when the loop exits, every dispatched task has run and its completion was processed |
| `Scheduler.Scheduler.AllocateContinuation` | src/scheduler/scheduler.cc:100-106 | the continuation was not handed out before |
| `Scheduler.Scheduler.AddLinkUnsafe` | src/scheduler/scheduler.cc:228-235 | adds one edge, once |
| `Scheduler.Scheduler.ProcessDependentsUnsafe` | src/scheduler/scheduler.cc:237-256 | the recursion terminates and has the whole effect of firing: order, completeness, released tasks, counts |
| `Scheduler.Scheduler.ProcessDependents` | src/scheduler/scheduler.cc:258-264 | firing keeps the object valid and moves exactly the released tasks from the pool to the queue |
| `Scheduler.Scheduler.AddLink` | src/scheduler/scheduler.cc:159-162 | keeps counts exact and adds the edge |
| `Scheduler.Scheduler.AddTask` | src/scheduler/scheduler.cc:120-145 | an immediate task is queued, a deferred one pooled; the links are exactly the requested ones |
| `Scheduler.Scheduler.ProcessTaskQueue` | src/scheduler/scheduler.cc:209-226 | with k the smaller of the two lengths, the first k tasks are sent in order to the top k workers from the top down, and exactly these leave queue and stack |
| `Scheduler.DispatchIsSteps` | src/scheduler/scheduler.cc:209-226 | from every reachable machine state the dispatch loop is k Dispatch steps and an EndDispatch, after which each worker executes the task it was sent |
| `Scheduler.FireIsAStep` | src/scheduler/scheduler.cc:258-264 | what the object does when firing is a step of the state machine |
| `Scheduler.CompletionIsAStep` | src/scheduler/scheduler.cc:284-292 | what the object does for a completed task is a step of the state machine |
| `Scheduler.DeferredIsTwoSteps` | src/scheduler/scheduler.cc:136-142 | adding a deferred task is two steps of the state machine |
| `PlanOrder.SpawnAllowed` | src/scheduler/task.h:46-49 | while a task has not finished, more tasks may be spawned on its continuation |
| `PlanOrder.DeferredIsSafe` | src/scheduler/scheduler.cc:136-142 | from deferring a task on a private continuation until that is fired, no interleaving releases the task |
| `PlanOrder.ConsumerWaits` | src/execution/execution_plan.cc:63-69 | no operator starts before every operator upstream and all its spawned subtasks have finished |
| `PlanOrder.ClosingWaits` | src/execution/execution_plan.cc:71-90 | the closing task starts after all operators and their subtasks |
| `PlanOrder.ChainOrder` | src/scheduler/task.h:147-166 | a task of a chain starts only after every earlier one and all it spawned have finished |
| `PlanOrder.StepFreed` | src/scheduler/scheduler.cc:237-256 | every step keeps: a continuation that was ever linked to stays unfired only while a dependency is unfinished |
| `PlanOrder.ReleasedWereWaiting` | src/scheduler/scheduler.cc:136-142 | whatever a firing releases was waiting, and everything it waited for fires with it |
| `PlanOrder.NothingIsForgotten` | src/scheduler/scheduler.cc:237-264 | in an acyclic graph at rest, every unfinished node is held back by an entry continuation that its client has not fired |
| `PlanOrder.RestMeansDone` | src/scheduler/scheduler.cc:237-264 | once every entry was fired, rest in an acyclic graph means that all tasks are done |
| `PlanOrder.CycleNeverRuns` | src/scheduler/scheduler.cc:237-256 | a task that waits for itself is never released |
| `PlanOrder.PlanFinishes` | src/execution/execution_plan.cc:41-93 | at rest, a started plan with operators and no cycle has finished all of them and its closing task |
| `PlanOrder.EmptyPlanNeverCloses` | src/execution/execution_plan.cc:71-92 | in no run does a plan without operators release its closing task, unless somebody fires its exit |
| `PlanOrder.ClosingRunsIff` | src/execution/execution_plan.cc:41-93 | at rest, the closing task of a started plan is done exactly if the plan has operators and none feeds itself |
| `ExecutionPlan.ExecutionPlan.AddOperator` | src/execution/execution_plan.h:44-56 | operators know their positions |
| `ExecutionPlan.ExecutionPlan.CreateLink` | src/execution/execution_plan.h:80-83 | adds exactly one producer-consumer link |
| `ExecutionPlan.ExecutionPlan.Merge` | src/execution/execution_plan.h:85-101 | operators are appended and links shifted; positions stay right exactly if one of the plans is empty |
| `ExecutionPlan.ExecutionPlan.Prepare` | src/execution/execution_plan.cc:44-90 | the graph gains exactly the edges of the plan, on new nodes |
| `ExecutionPlan.ResolvedEdges` | src/execution/execution_plan.cc:59-69 | links through the stored task and continuation numbers connect the operators that were stored last under these numbers |
| `ExecutionPlan.ExecutionPlan.Execute` | src/execution/execution_plan.cc:41-93 | after the start exactly the operators nobody feeds are ready; everything else waits in the pool; links are read by operator number |
| `ExecutionPlan.EnterFires` | src/execution/execution_plan.cc:92 | firing the entry fires nothing else and releases exactly the sources |
| `ExecutionPlan.PlanEdgesLink` | src/execution/execution_plan.cc:50-90 | the edges built are those the ordering theorems need |
| `ExecutionPlan.ExitWaits` | src/execution/execution_plan.cc:57-90 | after the start the closing task waits for the exit alone, and the exit for one continuation per operator |
| `ExecutionPlan.PlanEdgesPrivate` | src/execution/execution_plan.cc:50-90 | the edges built, with whatever operators spawn, meet the hypotheses of the theorem about the plan's end |
| `ExecutionPlan.RunChain` | src/scheduler/task.h:147-166 | builds the edges of the chain back to front; only its first task becomes ready |
| `ExecutionPlan.ChainEdgesLink` | src/scheduler/task.h:154-164 | the edges built are those the ordering theorem needs |
| `BloomFilter.SetBit` | src/utils/bloom_filter.h:32-34 | setting a bit sets that bit and no other |
| `BloomFilter.BloomFilter.Insert` | src/utils/bloom_filter.h:89-97 | a cell is set exactly if some inserted value falls on it |
| `BloomFilter.BloomFilter.Probe` | src/utils/bloom_filter.h:106-118 | true exactly if all three cells are marked; never false for an inserted value |
| `BloomFilter.IndexScales` | src/utils/bloom_filter.h:89-97 | each cell is the 32-bit hash under its own seed scaled to the number of cells; this determines it |
| `BloomFilter.BuildFilter` | src/operators/fused/filter_join.cc:66-106 | the filter holds exactly the keys of the kept rows, under the given hash and seeds with 100 cells per value |
| `FilterJoin.Lookup` | src/operators/fused/filter_join.cc:146-151 | filtering first loses no match |
| `FilterJoin.ProbeFirst` | src/operators/fused/filter_join.cc:139-169 | lists, without repetition, the rows with a match, and their partners |
| `FilterJoin.SwapOut` | src/operators/fused/filter_join.cc:201-213 | exchanges the same two positions in all index arrays |
| `FilterJoin.ProbeNext` | src/operators/fused/filter_join.cc:172-244 | keeps exactly the rows that also match here, all arrays staying aligned |
| `FilterJoin.Sifted` | src/operators/fused/filter_join.cc:185-231 | when the two ends meet, the front holds exactly the matching rows |
| `FilterJoin.JoinChunk` | src/operators/fused/filter_join.cc:119-247 | per chunk, exactly the rows matching in all dimensions, each once, with all partners |
| `FilterJoin.JoinAll` | src/operators/fused/filter_join.cc:249-440 | probed batch by batch, the concatenation is the star join of the whole fact table |
| `FilterJoin.TagsAreExact` | src/operators/fused/filter_join.cc:396-401 | with at most 65536 chunks the stored chunk number is the row's chunk |
| `FilterJoin.BatchesCover` | src/operators/fused/filter_join.cc:255-279 | every chunk is probed in exactly one batch |
| `Chunked.ChunkOffsets` | src/operators/fused/filter_join.cc:370-377 | the offsets are the starts of the chunks |
| `Chunked.FlatAt` | src/operators/fused/filter_join.cc:370-377 | a row of a chunk is the row of the flat column at the chunk's start plus its position |
| `Gather.SlicesCover` | src/utils/arrow_compute_wrappers.cc:38-47 | the slices together are the index array, also when its length is a multiple of the slice length |
| `Gather.UpperBound` | src/utils/arrow_compute_wrappers.cc:75-77 | everything before the answer is at most the value, everything from it on above |
| `Gather.ChunkFor` | src/utils/arrow_compute_wrappers.cc:73-78 | finds the chunk that holds the row, stepping over empty chunks |
| `Gather.GatherSlice` | src/utils/arrow_compute_wrappers.cc:72-79 | a slice is the column indexed by its row numbers; given chunk numbers make no difference |
| `Gather.ApplyIndices` | src/utils/arrow_compute_wrappers.cc:280-304 | all slices together are the flattened column indexed by all row numbers in order |
| `Gather.JoinOutputLocated` | src/utils/arrow_compute_wrappers.cc:136-140 | the filter join's chunk numbers can be used exactly if no output row lies in a chunk numbered 65536 or more |
| `Gather.GatherStrings` | src/utils/arrow_compute_wrappers.cc:208-243 | the new offsets and bytes of a slice decode to the indexed strings |
| `Gather.ApplyIndicesToStrings` | src/utils/arrow_compute_wrappers.cc:145-244 | all slices together decode to the strings at all row numbers in order |
| `Connectivity.LinkConnects` | src/utils/disjoint_set_forest.h:61-76 | what one more link connects, in both directions |
| `DisjointSet.DisjointSetForest.MakeSet` | src/utils/disjoint_set_forest.h:40-46 | a new element is its own representative; nothing else changes |
| `DisjointSet.DisjointSetForest.Find` | src/utils/disjoint_set_forest.h:48-59 | terminates, answers the representative, changes none; exactly the nodes on the way up now hang below it; its rank becomes one more than the highest on the way |
| `DisjointSet.DisjointSetForest.CompressPath` | src/utils/disjoint_set_forest.h:90-103 | exactly the nodes on the way up get the root as parent; every node keeps its root although the root's rank may fall |
| `DisjointSet.DisjointSetForest.Merge` | src/utils/disjoint_set_forest.h:61-76 | the two sets get one representative, that of the higher path (the second on a tie), all others keep theirs; equal representatives are exactly chains of merges |
| `DisjointSet.DisjointSetForest.IsConnected` | src/utils/disjoint_set_forest.h:78-80 | true exactly if a chain of merges links the elements |
| `DisjointSet.MergeTracks` | src/utils/disjoint_set_forest.h:61-76 | hanging one root below the other matches adding the link |
| `JoinMeaning.EvaluateExplained` | src/execution/execution_plan.h:85-101 | running an ordered join list gives each join its meaning |
| `JoinMeaning.JoinFilters` | src/optimizer/reorder_joins.cc:122-123 | joining two filtered products of separate tables is the filtered product of all of them |
| `JoinMeaning.BridgeKeeps` | src/optimizer/reorder_joins.cc:96-101 | a predicate between two unconnected groups closes no cycle |
| `JoinMeaning.CycleFound` | src/optimizer/reorder_joins.cc:98-101 | a predicate inside a group proves a cycle |
| `ReorderJoins.NumberTables` | src/optimizer/reorder_joins.cc:45-55 | tables are numbered by first appearance, with inverse maps |
| `ReorderJoins.MakeForest` | src/optimizer/reorder_joins.cc:78-82 | every table number is a singleton at its own position |
| `ReorderJoins.JoinedOk` | src/optimizer/reorder_joins.cc:118-127 | the merged operator list is runnable and computes the joined group |
| `ReorderJoins.JoinGroups` | src/optimizer/reorder_joins.cc:103-134 | after a join every group still has a plan for exactly its tables and predicates |
| `ReorderJoins.ProductsRise` | src/optimizer/reorder_joins.cc:65-76 | along the order the products of the row counts do not fall where they fit in 64 bits; their remainders never do |
| `ReorderJoins.WrapExample` | src/optimizer/reorder_joins.cc:74-76 | a product that wraps round to 0 comes first although it is the largest |
| `ReorderJoins.InStepKept` | src/optimizer/reorder_joins.cc:103-134 | a join reads, on each side, its table if no earlier predicate touches that side's group, else the output of the latest that does |
| `ReorderJoins.JoinedPostfix` | src/optimizer/reorder_joins.cc:120-125 | the merged operator list is the postfix form of the join tree |
| `ReorderJoins.JoinAll` | src/optimizer/reorder_joins.cc:89-137 | the greedy loop takes predicates in order of their products, fails exactly on a cycle, and its plan follows that order: base table or latest output on each side |
| `ReorderJoins.ApplyJoinReordering` | src/optimizer/reorder_joins.cc:37-140 | fails exactly if the join graph has a cycle; else one join per predicate in runnable order, following the order of products and listed in postfix form, computing the filtered cross product of the component on every database; it answers the query exactly if the graph is connected |
| `ReorderJoins.AnswersIffConnected` | src/optimizer/reorder_joins.cc:136-139 | a plan computes the product of all tables under all predicates, on every database, exactly if the join graph is connected |
| `ReorderJoins.TwoComponents` | src/optimizer/reorder_joins.cc:136-139 | two predicates on four tables have no cycle and no answering plan |
| `ExpressionModel.RunsRight` | src/operators/expression.cc:124-184 | the postfix form leaves the expression's value on the stack, or fails with its first error |
| `ExpressionModel.EvaluationIsRight` | src/operators/expression.cc:124-184 | the result is the row-wise value; a regular expression leaves its inputs alone and its result in a new buffer |
| `ExpressionModel.PassesIff` | src/operators/expression.cc:77-104 | an expression is evaluated exactly if its columns have one type with an arithmetic and its operator codes are among 105 to 108 |
| `ExpressionModel.OperatorsExactly` | src/operators/expression.cc:77-104 | between two columns the codes 105 to 108 combine row by row; other codes, mixed types and types without arithmetic give their errors |
| `ExpressionModel.ResultsApart` | src/operators/expression.cc:131-179 | at every point of the evaluation of a regular expression the results on the stack are in pairwise different buffers, none of them an input |
| `ExpressionModel.GrowingIsExact` | src/operators/expression.cc:118-147 | for operators that grow on numbers from 2 on, on every such input: value right exactly for clean reads, inputs kept exactly for regular expressions |
| `ExpressionModel.IntegersAreExact` | src/operators/expression.cc:77-101 | the same for all integer sums and products of columns of one numeric type |
| `ExpressionModel.CancelExample` | src/operators/expression.cc:84-89 | with differences the conditions are not needed on every input: an expression that is always right without them |
| `ExpressionModel.ValueRightExactlyWhenReadsClean` | src/operators/expression.cc:144-147 | the value is right for all arithmetics and inputs exactly if no column is read after being overwritten |
| `ExpressionModel.InputKeptExactlyWhenRegular` | src/operators/expression.cc:118-121 | the inputs stay untouched for all arithmetics and inputs exactly if no bare column stands left of a compound operand |
| `ExpressionModel.SpoiledExample` | src/operators/expression.cc:144-147 | (a + (b + c)) + a comes out wrong for concrete columns |
| `Expression.ExecuteBlock` | src/operators/expression.cc:61-106 | combines row by row even if the result is one of the operands |
| `Expression.Expression.ConvertPostfix` | src/operators/expression.cc:40-59 | appends the postfix form |
| `Expression.Expression.Operate` | src/operators/expression.cc:137-178 | one operator acts as the machine's step, with the same errors; succeeds exactly for two operands of one numeric type and a code from 105 to 108 |
| `Expression.Expression.Evaluate` | src/operators/expression.cc:124-184 | on real buffers, exactly what the machine does |
| `Expression.Compute` | src/operators/expression.cc:33-184 | compiling and evaluating does what the machine does; with clean reads that is the row-wise value or the error; regular expressions keep their columns; a single operator is stated outright, with its codes and errors |
| `JoinShape.IncidentSize` | src/resolver/select_resolver.cc:123-132 | a table's list counts both ends of every predicate |
| `JoinShape.SelectResolver.AddPredicate` | src/resolver/select_resolver.cc:118-132 | the graph lists exactly the predicates mentioning each table; the larger table goes left |
| `JoinShape.WalkComplete` | src/resolver/select_resolver.cc:61-87 | a walk with as many steps as predicates is a simple path through all of them |
| `JoinShape.FollowsPath` | src/resolver/select_resolver.cc:61-87 | on a simple path the walk never fails and has only one way on |
| `JoinShape.SelectResolver.WalkFrom` | src/resolver/select_resolver.cc:55-91 | succeeds exactly for simple paths and lists the predicates along the path |
| `JoinShape.SelectResolver.CheckJoinSupport` | src/resolver/select_resolver.cc:32-91 | star, linear or other; linear exactly for simple paths, with the predicates permuted along the path |
| `JoinShape.IncidentCount` | src/resolver/select_resolver.cc:123-132 | a list has one entry per predicate, one more for each inside the table, one less for each elsewhere |
| `JoinShape.StarIff` | src/resolver/select_resolver.cc:36-41 | a star is found exactly if some table has as many predicates inside as elsewhere |
| `JoinShape.StarRightIff` | src/resolver/select_resolver.cc:36-41 | the answer agrees with some table being in every predicate exactly if every table is counted right |
| `JoinShape.StarMiscount` | src/resolver/select_resolver.cc:36-41 | a predicate inside one table and one elsewhere are taken for a star though no table is in both |
| `HashAggregate.RangesCover` | src/operators/aggregate/hash_aggregate.h:43-81 | the ranges of the tasks are consecutive, not empty and cover all chunks |
| `HashAggregate.RangesBalanced` | src/operators/aggregate/hash_aggregate.h:43-81 | the ranges differ by at most one chunk, the first tasks getting the extra ones |
| `HashAggregate.LocalMaps.AggregateChunk` | src/operators/aggregate/hash_aggregate.cc:388-529 | each total grows by the number of the chunk's kept rows of its key, or by the sum of their values; new keys get the position of their first row |
| `HashAggregate.LocalMaps.AggregateChunks` | src/operators/aggregate/hash_aggregate.cc:349-354 | the same for a range of chunks |
| `HashAggregate.MergeValues` | src/operators/aggregate/hash_aggregate.cc:201-212 | key-wise sum |
| `HashAggregate.MergeTuples` | src/operators/aggregate/hash_aggregate.cc:275-284 | earlier tasks win |
| `HashAggregate.MergeRight` | src/operators/aggregate/hash_aggregate.cc:194-285 | merging consecutive ranges gives the maps of the joint range |
| `HashAggregate.EntriesRight` | src/operators/aggregate/hash_aggregate.cc:461-502 | totals and first positions of one pass are what the kernel makes of each key's rows, and each key's first row |
| `HashAggregate.Aggregate` | src/operators/aggregate/hash_aggregate.cc:107-285 | COUNT is the number of kept rows of a key, SUM the sum of their values, a key is present exactly if it has such a row, and its tuple is the first of them by chunk and row, for any number of threads |
| `GroupEnumeration.Increment` | src/operators/aggregate/aggregate.cc:467-477 | the next group has the next rank; the loop ends after the last |
| `GroupEnumeration.RankUnique` | src/operators/aggregate/aggregate.cc:411-424 | different groups have different ranks |
| `GroupEnumeration.Enumerate` | src/operators/aggregate/aggregate.cc:427-478 | as many groups as the product of the sizes; number i holds the mixed-radix digits of i |
| `GroupEnumeration.EnumerationIsComplete` | src/operators/aggregate/aggregate.cc:443-478 | every group is visited exactly once |
| `GroupEnumeration.KeysInjectiveIff` | src/operators/aggregate/aggregate.cc:454-460 | keys are injective exactly if every column fits below the next one with several values |
| `GroupEnumeration.TenValuesFit` | src/operators/aggregate/aggregate.cc:454-458 | at most ten values in all columns but the last suffice |
| `GroupEnumeration.ElevenValuesCollide` | src/operators/aggregate/aggregate.cc:454-458 | an eleventh value in a column and a second one in the next give two groups one key |
| `GroupEnumeration.IndexRightIff` | src/operators/aggregate/aggregate.cc:272 | the index finds every group's own number exactly if the keys fit |
| `GroupEnumeration.BlockScan` | src/operators/aggregate/aggregate.cc:251-275 | every total grows by the sum over exactly the rows whose keys lead to it, with fitting keys over exactly the rows of its group |
| `MemLog.MemLog.constructor` | src/storage/cmemlog.cc:76-94 | all lists are empty |
| `MemLog.MemLog.InsertRecord` | src/storage/cmemlog.cc:126-156 | appends to the table's chain, growing the array; all other lists stay |
| `MemLog.MemLog.UpdateDb` | src/storage/cmemlog.cc:178-265 | replays exactly the pending records of the mapped tables, in insertion order per table and table by table, and keeps the others |
| `MemLog.MemLog.Clear` | src/storage/cmemlog.cc:273-294 | all lists are empty; exactly the pending changes count as dropped |
| `MemLog.MemLog.GetRecords` | src/storage/cmemlog.cc:164-169 | the chain of the table, or nothing beyond the array |
| `MemLog.OfReplay` | src/storage/cmemlog.cc:189-263 | a commit replays exactly the pending changes of the mapped tables, per table in order |
| `MemLog.ReplaySorted` | src/storage/cmemlog.cc:189-263 | a commit goes through the tables in order of their numbers |
| `MemLog.CommitConserves` | src/storage/cmemlog.cc:178-265 | per table, what was logged is, in order, what left the log followed by what is pending |
| `MemLog.LoggedIsAccountedFor` | src/storage/cmemlog.cc:178-294 | per table, the logged changes are the replayed, the dropped and the pending ones |
| `StringColumn.AppendString` | src/utils/arrow_compute_wrappers.cc:209-228 | appending bytes and an offset appends one string |
| `BulkInsert.RebaseOffsets` | src/storage/block.cc:389-419 | the offsets of both branches, rebased to the end of the old bytes |
| `BulkInsert.StoredSurviveIff` | src/storage/block.cc:389-422 | the inserted strings always arrive; those stored before survive exactly if there are none or the input does not start at a first string with an offset above 0, else the last one grows |
| `BulkInsert.DamagedExample` | src/storage/block.cc:397-406 | a stored string damaged by a concrete input |
| `BulkInsert.RebasedStrings` | src/storage/block.cc:358-426 | the column reads back as the old strings and then the inserted ones |
| `BulkInsert.AppendColumn` | src/storage/block.cc:346-456 | the column reads back as old cells, the last one widened by the gap if there is one, and inserted cells; the size is exactly theirs |
| `BulkInsert.Block.InsertRecords` | src/storage/block.cc:328-460 | every column gains the slice and the byte count its size, for any input; without a gap the block stays sound |
| `BulkInsert.BytesAdd` | src/storage/table.cc:120-162 | record sizes add up to the size of the slice |
| `BulkInsert.DBTable.Fill` | src/storage/table.cc:112-171 | the input goes to one block and to new blocks appended to the table, none above its capacity, each begun because its first record did not fit: the blocks before it hold exactly the records before that one |
| `BulkInsert.DBTable.InsertRecords` | src/storage/table.cc:112-178 | the table gains exactly the new blocks; all blocks within capacity; the affected blocks read back as the old rows and then the input rows in order; all others unchanged; the pool is updated |

## Left out

- The 16-bit XOR filter: the same algorithm with another cell type.
- Allocation failures, the seed generator of the XOR filter and the random seeds of the Bloom filter: seeds are parameters.
- The XOR filter's key and slot counters are natural numbers; the source's 32-bit counters cannot overflow with fewer than 2^32 keys.
- The compare-and-swap loops of the identifier counters, CPU pinning, profiling and the shutdown of worker threads after the loop exits.
- `allocateContinuation` with a dependency and `setChild`: no code shown uses them in the modelled protocols.
- SchedulerMachine.StepKeeps: clients keep two obligations, which enable the steps: links have an unfinished holder and an unreleased waiter, and no firing takes the last dependency of a task that is linked but not yet stored in the pool. PlanOrder shows that plans and chains meet them and that nothing else can go wrong there (SpawnAllowed, DeferredIsSafe, ReleasedWereWaiting); what the scheduler does when they are broken is undefined and not modelled.
- Liveness under a fair scheduler: stated as safety at rest (NothingIsForgotten, RestMeansDone, NeverStuck) instead.
- ExecutionPlan.ExecutionPlan.Execute: links mention only numbers that some operator has; a link to any other number would name a node that does not exist.
- PlanOrder.ClosingRunsIff: presumes that only the plan and the tasks its operators spawn link to its nodes, and that what the operators spawned has finished at rest.
- FilterJoin.JoinAll: row numbers are natural numbers, the source stores 32 bits; the pairing of filters with dimensions by position presumes that sorting equal hit rates leaves their order alone.
- FilterJoin.JoinAll: chunks are joined one after the other; the source runs them as independent tasks that share no index array.
- BloomFilter.BuildFilter: the number of cells is 100 per value as a natural number; the source computes it in 32 bits.
- Hit-rate statistics, histograms and the reordering of filters.
- The meaning of a hash join is taken to be the combination of all matching pairs of rows; its implementation is not part of this model.
- ReorderJoins.ApplyJoinReordering: table numbers follow C++17's evaluation order, in which the size is taken before the insertion; execution order of the operators is given by list position, since no links are created.
- Expression.Expression.Evaluate: buffers are numbered, all columns have one length, and arithmetic is a parameter, so overflow and division by zero are those of the element type.
- Expression trees with missing operands, and columns of null type.
- JoinShape.SelectResolver.AddPredicate: both tables are known to the catalog.
- HashAggregate.Aggregate: groups are identified by their hash key, as in the source, so colliding groups are merged; sums do not overflow. MEAN is left out.
- GroupEnumeration.BlockScan: totals and keys are unbounded integers, and every column has at least one value.
- Group filters, group builders and the batch dispatch of the older aggregate operator.
- MemLog.MemLog.UpdateDb: decoding of SQLite records and their application to the table are left out; a replay is the list of changes in order.
- MemLog.MemLog.InsertRecord: table numbers are not negative and records not null.
- BulkInsert.DBTable.InsertRecords: columns of 64-bit integers and of strings, unsliced input, every record at most the capacity of a block; validity bits, buffer capacities, fixed-size binary columns and row-offset tables are left out.
- Deleting and updating records, block metadata, predicate pushdown, linear-join plans, the catalog and serialization.
