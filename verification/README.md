# A Dafny model of the Celerity runtime's scheduling pipeline

Celerity runs a program written for one node on many: tasks declare which buffer regions they read and write, the master
turns them into commands for every node, and the nodes execute the commands in any order that respects the dependencies
between them. The promise of the system is that all this behaves as if the program had run on a single node. This
project models the pipeline from task submission to command execution, as imperative code where the runtime is
imperative, and proves that promise together with what each stage relies on.

The stages and the files that hold them:

- Region maps: `RegionQueries`, `RegionMaps`
- Task graph: `Orders`, `TaskGraph`, `TaskManagers`
- Dependency graph nodes and the command graph: `Reachability`, `IntrusiveGraphs`, `Commands`, `CommandGraphs`
- Command generation: the state and its invariant (`GeneratorState`), the effect of a task (`TaskStep`), of a horizon
  (`HorizonStep`), the generator itself (`GraphGenerators`) with the steps of its proof (`TaskProgress`,
  `TaskCompletion`, `GeneratorSteps`, `GeneratorSetup`), and what follows for whole runs (`GeneratorRuns`, `Coherence`,
  `SingleNodeView`, `HorizonRuns`)
- Serialization and scheduling: `FlushOrder`, `GraphSerializers`, `Schedulers`, `NodeStreams`
- Execution and transfers: `JobCounting`, `ExecutorState`, `Executors`, `Executions`, `Rendezvous`,
  `BufferTransferManagers`
- Splitting and range mappers: `RangeMappers`, `Splits`, `TaskSplits`

## How the model is built

- A region is a finite set of points. A `Cell` is one point of one buffer. Where the runtime takes "a box" out of a
  region, the model takes any non-empty part of it, so every claim holds for every way of cutting regions into boxes.
- The generator and the task manager query and update region maps as maps from cells to values. `RegionMaps.RegionMap`
  proves that the indexed structure of the runtime answers queries exactly like that (`GetRegionValues` ensures the same
  predicate `Pieces` that the generator's queries use).
- Dependencies are a set of pairs of command ids, with the true ones among them as a subset. `IntrusiveGraphs` models
  the two mirrored lists that represent them.
- Every command carries the task during whose construction it was created. The order PUSH, AWAIT_PUSH, task command,
  HORIZON inside a task, and tasks in order of submission, gives each command a rank. This rank is the position of a
  command in the sequential program.
- Message arrival, job completion and the iteration order of hash maps are arbitrary: they are parameters or
  nondeterministic choices.
- A `GraphGenerator` and a `CommandGraph` keep ghost state next to the fields of the runtime: all states so far, which
  are a run in the sense of `GeneratorRuns`, an earlier graph that path lengths are compared with, and how deep the
  dependee of each dependency was when it was added. An `Executor` keeps which jobs have reported completion.

Assumptions, written as `requires` clauses: at most one command per node and task, at least one chunk, requests inside
the buffers, no command discards what it also reads, chunks of one task write disjoint cells (`GeneratorSetup.TaskOk`,
which `TaskSplits.SplitTask` establishes for tasks whose writing range mappers are one-to-one); each task is flushed
right after it is built (`Schedulers`); messages to a node do not overtake each other (`Executors`); every PUSH is sent
and awaited once (`BufferTransferManagers`).

One difference from the code: erasing a command reads its node id after the command has been removed from the map that
owns it (src/command_graph.cc:15-16); the model reads it before.

## Where a promise fails

Three promises do not hold for all inputs. Each has a run that shows it, and the exact condition.

- **Readers before writers across horizons.** A horizon replaces older last-writer entries. A command that reads after
  the previous horizon still hangs off the replaced writer, so a later writer does not find it and does not wait for it.
  `HorizonRuns.OverwriteAfterLateRead` is such a run: three tasks on one node with a horizon step size of 1, built by
  `BuildTask`; some execution of its graph then reads the wrong version. `GeneratorRuns.CompactionExact` says for every
  cell and node that compaction leaves the readers covered exactly when none of them is late, and
  `SingleNodeView.ViewExact` that the single-node view of a cell holds exactly when its writers wait for its earlier
  readers. All claims about readers are per cell: they hold for every cell that no horizon was applied past a late
  reader of. All other claims cover every run.
- **Every command is flushed.** Horizons are found through the task commands they depend on. A horizon on a node where
  its task has no command is never flushed. `Schedulers.Scheduler.Schedule` states that exactly these commands are left
  over, and that there is one if and only if horizons were due and the task has no chunk on some node.
  `HorizonRuns.StrandedHorizonBlocksFlush` is a run on two nodes in which this happens, and in which the flush of the
  next task has to emit a horizon that depends on the one left over: its assertion fails (src/graph_serializer.cc:26),
  since no order of emission works (`HorizonRuns.NeverEmitted`).
- **Updated regions take precedence in a merge.** A region updated with the default value of its map is not merged while
  some point of that map still is default-initialized. `RegionMaps.UpdateLost` is an example; `RegionMap.Merge` states
  what is taken over in terms of the history of the other map, and `RegionMaps.UpdatesTakePrecedence` the exact
  condition in terms of values.

A range mapper gives what it means, with one harmless exception: for an empty chunk, which a split into more chunks than
rows makes, a halo or a slice is still required (`RangeMappers.EmptyChunkNeeds`, with `RangeMappers.MeaningExact` as the
exact condition).

The task graph likewise orders a writer after an earlier reader only if the reader found contents
(`TaskManagers.WriteAfterEmptyRead`, `TaskGraph.NoContentsNoOrder`); reading a buffer that nobody has initialized is not
promised to mean anything.

## Model

| member | source | states |
|---|---|---|
| `GeneratorRuns.RunReadsCurrentVersion` | docs/overview.md:29-33 | single-node view: in every state of every run, for every cell that no horizon was applied past a late reader of, and for every interleaving of the nodes' commands that respects dependencies and completes an AWAIT_PUSH after its PUSH, each command finds the version of the last earlier task that wrote the cell |
| `Executions.ExecutionReadsCurrentVersion` | docs/overview.md:29-33 | from the scheduler to memory: executors that keep their invariants and are fed with what the serializer emitted make every command find that version |
| `Executions.ExecutionIsLegal` | src/executor.cc:54-147 | the commands of all executors take effect in an order that respects every dependency, whatever the executors' speed |
| `SingleNodeView.ReadsCurrentVersion` | src/graph_generator.cc:146-305 | the same for one state that satisfies the invariant and one cell whose writers wait for its earlier readers, by induction over the execution |
| `SingleNodeView.ViewExact` | docs/overview.md:29-33 | in every state that satisfies the invariant the single-node view of a cell holds if and only if every writer waits for the earlier readers of the cell on its node |
| `GeneratorRuns.RunViewExact` | docs/overview.md:29-33 | so it does for every cell in every state of every run |
| `SingleNodeView.WriterFirst` | src/graph_generator.cc:91-133 | a writer that does not wait for an earlier reader can run before it: there is a legal execution that does so |
| `GeneratorRuns.EveryRun` | src/graph_generator.cc:24-61 | every state that adding buffers, building tasks and generating horizons can reach satisfies the whole invariant (its shape is part of the effect of a task, which BuildCommands establishes) |
| `GraphGenerators.GraphGenerator.ReadsCurrentVersion` | docs/overview.md:29-33 | the single-node view of the graph that a generator object has built |
| `GeneratorRuns.RunConflictOrder` | src/graph_generator.cc:91-133 | in every run a command comes after all earlier writers of the cells it accesses on its node, and a writer of a cell after all earlier readers of it there unless a horizon was applied past a late reader of that cell on that node |
| `GeneratorRuns.RunDeliversOnce` | src/graph_generator.cc:202-248 | in every run a cell that a node has read or been sent is sent to it again only after a write of that cell, PUSHes are awaited, and a PUSH leaves from the node that computed the version |
| `GeneratorRuns.RunAcyclic` | include/command_graph.h:137-143 | in every run the command graph is acyclic and dependencies stay on one node |
| `TaskStep.TaskKeepsInv` | src/graph_generator.cc:146-305 | processing a task keeps order, coherence, and transfer invariants |
| `HorizonStep.HorizonKeepsInv` | src/graph_generator.cc:310-334 | so does generating horizons |
| `HorizonStep.HorizonReachesAll` | src/graph_generator.cc:314-320 | a new horizon comes after every earlier command of its node except the init command |
| `HorizonStep.CompactedReaches` | src/graph_generator.cc:321-330 | a compacted last-writer entry equals or comes after the entry it replaces, unless that is the init command |
| `GeneratorRuns.CompactionExact` | src/graph_generator.cc:322-331 | applying a horizon leaves the readers of a cell on a node covered if and only if none of them is late |
| `GeneratorRuns.LateReaderArises` | src/graph_generator.cc:197-213 | a task that reads local data written before the last horizon is a late reader |
| `GeneratorRuns.LateReaderRaces` | src/graph_generator.cc:91-133 | after compaction past a late reader, a command that only overwrites its cell does not wait for it, and some legal execution reads the wrong version |
| `HorizonRuns.OverwriteAfterLateRead` | src/graph_generator.cc:38-61 | three tasks on one node, built with a horizon step size of 1, after which that has happened |
| `HorizonRuns.HorizonIsDeeper` | src/graph_generator.cc:307-312 | a horizon on top of the deepest command is deeper than it, so that with step size 1 every task is followed by horizons |
| `Coherence.ListsExactlyNewest` | include/graph_generator.h:69-72 | a node is listed as a source of a cell if and only if it holds the newest version, which all nodes do before the first write |
| `Coherence.EntryIsNewest` | include/graph_generator.h:33-35 | on a listed node the last-writer entry is the command that left the newest version there or a horizon after it; before the first write it is the init command or a horizon |
| `Commands.Acyclic` | include/intrusive_graph.h:43-45 | the command graph has no cycle, because the rank falls along every dependency |
| `Commands.PathStaysOnNode` | include/command_graph.h:137-138 | dependencies never leave a node |
| `CommandGraphs.CreateKeepsOk` | include/command_graph.h:97-105 | creating a command keeps the task lists exact and the execution fronts equal to the commands without dependents |
| `CommandGraphs.DependencyKeepsOk` | include/command_graph.h:137-143 | so does adding a dependency that descends in rank |
| `CommandGraphs.EraseKeepsOk` | src/command_graph.cc:9-17 | erasing a command keeps them if and only if no AWAIT_PUSH refers to it and every command it depends on, other than an init command, has another dependent |
| `CommandGraphs.DependencyGrows` | include/command_graph.h:137-143 | path lengths only grow, a dependency makes the depender deeper than the dependee was, and the greatest length rises only with a new dependency |
| `CommandGraphs.DependencyMeasured` | include/intrusive_graph.h:64 | every path length is 0 without dependencies and else one more than the greatest length that a dependee had when its dependency was added, and the greatest length is that of some command; adding a dependency keeps this |
| `CommandGraphs.MeasuredAreDepths` | include/intrusive_graph.h:102-105 | hence each command has a path of exactly as many dependencies as its path length says below it, and the greatest length is attained |
| `GraphGenerators.GraphGenerator.Depths` | include/command_graph.h:137-143 | so it is in every graph that a generator object has built |
| `GeneratorSetup.DueExactly` | src/graph_generator.cc:308 | horizons are due if and only if some command has a path below it that is longer than the graph was at the last horizon by the step size |
| `GeneratorSetup.CommandsAre` | src/graph_generator.cc:42-58 | a master-access task has one MASTER_ACCESS command on node 0; a compute task has one COMPUTE command per chunk on the node of the chunk |
| `GraphGenerators.GraphGenerator.constructor` | src/graph_generator.cc:15-22 | one init command per node, no horizon, and the invariant |
| `GraphGenerators.GraphGenerator.AddBuffer` | src/graph_generator.cc:24-36 | a new buffer is held by all nodes and last written by their init commands |
| `GraphGenerators.GraphGenerator.BuildTask` | src/graph_generator.cc:38-61 | the effect of the task, whose commands are those of the chunks, and then of horizons if and only if some command has a path below it that is longer than the graph was at the last horizon by the step size; path lengths are lengths of paths; succeeds if and only if no horizon is due or every node has a front, in particular if every node had a command or gets a chunk; the states so far stay a run |
| `GraphGenerators.GraphGenerator.BuildCommands` | src/graph_generator.cc:42-58 | the effect `TaskProcessed` of a task: which transfers it needs, how sources and last writers change, every dependency that data and order ask for, none without a reason, and no true one without data that flows along it |
| `GraphGenerators.GraphGenerator.GenerateAntiDependencies` | src/graph_generator.cc:91-133 | exactly the anti-dependencies on true dependents that read overwritten cells, or on the last writer; an AWAIT_PUSH always has such a dependent |
| `TaskProgress.AwaitEntryIsRead` | src/graph_generator.cc:129-130 | an AWAIT_PUSH that is a last writer has a reader of every cell it brought, so the assertion never fails |
| `GraphGenerators.GraphGenerator.AddDependenciesForBox` | src/graph_generator.cc:137-143 | exactly the true dependencies on the last writers of the box |
| `GraphGenerators.GraphGenerator.TransferBox` | src/graph_generator.cc:219-247 | a PUSH on the producing node and an AWAIT_PUSH here, with their dependencies, and the node is listed as a source |
| `GraphGenerators.GraphGenerator.ConsumePiece` | src/graph_generator.cc:205-248 | a consumed piece is fed from the local last writers or by a transfer |
| `GraphGenerators.GraphGenerator.ProcessTaskDataRequirements` | src/graph_generator.cc:146-305 | the exact effect of a task on graph, sources, last writers and recorded reads |
| `GraphGenerators.GraphGenerator.OrderPush` | src/graph_generator.cc:279-304 | a command that overwrites what its own task pushes away waits for the PUSH |
| `GraphGenerators.GraphGenerator.GenerateHorizon` | src/graph_generator.cc:310-334 | one horizon per node on top of its front, previous horizons applied, the position of the horizon remembered; succeeds exactly when every node has a front |
| `RegionMaps.RegionMap.constructor` | include/region_map.h:35-38 | the whole extent has the default value |
| `RegionMaps.RegionMap.GetRegionValues` | include/region_map.h:47-72 | disjoint non-empty pieces that cover exactly the request and carry the current values; the loop ends because what remains shrinks |
| `RegionMaps.RegionMap.LargestOverlap` | include/region_map.h:53-63 | an entry with the largest, non-empty overlap |
| `RegionMaps.RegionMap.UpdateRegion` | include/region_map.h:74-90 | the point map is updated on the region only; entries stay disjoint, covering and pairwise distinct; the updated points grow by the region |
| `RegionMaps.RegionMap.ApplyToValues` | include/region_map.h:92-98 | the point map is mapped through the function |
| `RegionMaps.RegionMap.CollapseRegions` | include/region_map.h:124-140 | merging in place and erasing from the back keeps the meaning of the entries and makes their values distinct |
| `RegionMaps.RegionMap.Merge` | include/region_map.h:105-110 | a point takes the other value exactly when no default-initialized point there has that value; as long as no value was changed in place, these are exactly the updated points other than those with the default value, and all updated points if the default was never written; different extents are refused |
| `RegionMaps.TakenByHistory` | include/region_map.h:74-110 | which points are taken over, said with the history of the other map, in any order of its entries |
| `RegionMaps.UpdatesTakePrecedence` | include/region_map.h:100-110 | when all updated points of the other map take precedence, if and only if, in terms of values and, as long as no value was changed in place, of its update history: always if the default value was never written or every point was updated |
| `RegionMaps.UpdateLost` | include/region_map.h:20-22 | two maps built with the constructor and one update, whose merge does not take over the updated point |
| `RegionMaps.DistinctMeansApart` | include/region_map.h:120-122 | entries with different values have no point in common |
| `TaskGraph.TaskKeepsInv` | src/task_manager.cc:65-132 | adding a task keeps it below every earlier writer of what it touches and every earlier reader of contents it overwrites |
| `TaskGraph.SameReadsFrom` | src/task_manager.cc:65-132 | every order of tasks that respects the dependencies has the reads-from relation of the submission order |
| `TaskGraph.NoContentsNoOrder` | src/task_manager.cc:80-86 | a task that touches only cells without contents depends on nothing |
| `TaskGraph.BufferKeepsInv` | src/task_manager.cc:15-19 | adding a buffer keeps the invariant; the init task is the writer of host-initialized buffers |
| `TaskManagers.TaskManager.CreateTask` | src/task_manager.cc:65-132 | exactly these dependencies: true ones on the last writers of what is read; anti ones on those dependents of the last writers of what is overwritten that read something overwritten in the same buffer, or else on the last writer; and updated last writers |
| `TaskManagers.TaskManager.OrderBehind` | src/task_manager.cc:96-127 | exactly the anti-dependencies that one last writer gives rise to |
| `TaskManagers.TaskManager.AddReads` | src/task_manager.cc:75-86 | exactly the true dependencies on last writers that exist |
| `TaskManagers.TaskManager.AddBuffer` | src/task_manager.cc:15-19 | no last writer, or the init task if host-initialized |
| `TaskManagers.GetRequirements` | src/task_manager.cc:43-63 | the union of the regions of the given modes |
| `TaskManagers.WriteAfterEmptyRead` | src/task_manager.cc:80-86 | a writer that does not wait for an earlier reader of a cell without contents |
| `IntrusiveGraphs.Node.AddDependency` | include/intrusive_graph.h:43-65 | both lists name the other end with the same flag, no list names a node twice, a true dependency stays true, nothing else changes; a new dependency makes the pseudo critical path the least length that exceeds that of the dependee and is not below the old one, and without removals it is the length of a real walk |
| `IntrusiveGraphs.Node.RemoveDependency` | include/intrusive_graph.h:67-78 | both ends forget the dependency, nothing else changes |
| `IntrusiveGraphs.Node.Destroy` | include/intrusive_graph.h:25-41 | the node leaves the lists of all neighbours and everything between the others stays |
| `IntrusiveGraphs.Node.HasDependency` | include/intrusive_graph.h:80-84 | true exactly when the node is listed, with the given kind if one is given |
| `IntrusiveGraphs.WalksStay` | include/intrusive_graph.h:102-105 | adding or upgrading dependencies keeps every walk |
| `GraphSerializers.GraphSerializer.Flush` | src/graph_serializer.cc:11-91 | exactly the task's commands and the horizons on its task commands are emitted, each once and after its dependencies, and no assertion fails |
| `GraphSerializers.GraphSerializer.FlushDependency` | src/graph_serializer.cc:22-31 | emits a transfer or horizon whose dependencies have been flushed |
| `GraphSerializers.GraphSerializer.FlushDependencies` | src/graph_serializer.cc:49-75 | the packet's dependency list, and all transfers of the command flushed |
| `GraphSerializers.GraphSerializer.SerializeAndFlush` | src/graph_serializer.cc:93-124 | one packet, and the command counts as flushed |
| `FlushOrder.EmitKeepsLog` | src/graph_serializer.cc:93-124 | emitting a command whose dependencies are flushed keeps the log duplicate-free and ordered |
| `FlushOrder.AllTransfers` | src/graph_serializer.cc:65-74 | every PUSH and AWAIT_PUSH of a task is reached from its task commands |
| `FlushOrder.DependentsAreHorizons` | src/graph_serializer.cc:77-80 | the only dependents of the task's commands are horizons, and none is found twice |
| `Schedulers.Scheduler.Schedule` | src/scheduler.cc:38-43 | after every task each command has been flushed exactly once after its dependencies, except exactly the stranded horizons; there is none, and the next task can be scheduled, if and only if no horizon was due or the task has a chunk on every node; fails exactly when building the task fails |
| `Schedulers.StrandedExactly` | src/graph_serializer.cc:77-80 | a horizon is stranded if and only if horizons were due and the task has no chunk on some node |
| `HorizonRuns.StrandedHorizonBlocksFlush` | src/graph_serializer.cc:22-31 | a task on two nodes, one on the master node and one on both again: the last one's horizon on node 1 has to be emitted, depends on the stranded one and on nothing else that waits for it |
| `HorizonRuns.NeverEmitted` | src/graph_serializer.cc:26 | no order of emitting commands of that task includes such a horizon |
| `Schedulers.HorizonsHangOff` | src/graph_generator.cc:314-320 | a horizon depends on its task's command on its node exactly when there is one |
| `NodeStreams.NodeStreamOk` | src/graph_serializer.cc:122-123 | what a node is sent, with any SYNC in between and SHUTDOWN last, contains each command once and after its dependencies other than init commands, which are never sent |
| `NodeStreams.MessageSays` | src/graph_serializer.cc:93-124 | every message to a node is about a command of that node, with the kind of that command and exactly its dependencies |
| `NodeStreams.MissingDependency` | include/executor.h:89-98 | over what the serializer emits: a dependency of the next command that is not found among the jobs is an init command or has been started and has finished |
| `ExecutorState.MissingMeansFinished` | include/executor.h:89-98 | the same for any stream that sends commands once and after their dependencies |
| `ExecutorState.MayStart` | src/executor.cc:71-80 | the count of a job is zero if and only if everything it needs has finished |
| `JobCounting.OldestIsReady` | src/executor.cc:67-80 | if there are jobs, the oldest waits for nothing |
| `JobCounting.WaitingOk` | include/executor.h:91-97 | registering with a dependency keeps every count equal to the number of listings among live jobs |
| `JobCounting.Released` | src/executor.cc:86-90 | releasing a dependent keeps the counts and finds it live and waiting |
| `JobCounting.ErasedOk` | src/executor.cc:91-92 | erasing a finished job keeps counts, and no list names it |
| `Executors.Executor.CreateJob` | include/executor.h:81-98 | the job waits for exactly those dependencies that are still jobs, is listed by exactly these, and is neither running nor done; other jobs stay as they are |
| `Executors.Executor.FinishJob` | src/executor.cc:85-93 | dependents are released, those that reach zero become ready, the job is gone |
| `Executors.Executor.Sweep` | src/executor.cc:67-94 | exactly the jobs that were done are finished and gone; a running job is done exactly if it now reports completion; the ready list holds exactly live, idle jobs with count zero, without repetition, and all of them |
| `Executors.Executor.StartReady` | src/executor.cc:96-107 | exactly the ready jobs are started, each once, PUSHes first, and each is done exactly if it reports completion at once |
| `Executors.Executor.PassBarrier` | src/executor.cc:55-59 | a pending SYNC is passed, and its id becomes the highest executed one, exactly when there is no job; every command taken before it has then finished; otherwise nothing changes |
| `Executors.Executor.Dispatch` | src/executor.cc:132-143 | exactly if no SYNC is pending, fewer than 20 jobs exist and the queue is not empty, the first message is taken and becomes a job, a pending SYNC or the end; SHUTDOWN finds an empty queue |
| `Executors.Executor.Round` | src/executor.cc:54-147 | one round: finished are exactly the jobs that were done, of the others exactly those run whose needs have finished, and are done exactly if they report completion; a SYNC is passed exactly if there was no job; whether a message is taken, which one, and what it becomes; and the whole invariant: counting, starts after dependencies have reported completion, start at most once, syncs passed only by finished commands |
| `Executors.Executor.AtExit` | src/executor.cc:54-153 | when the loop ends everything taken has been started and has finished, the last SYNC has been passed and all job counts are zero |
| `Rendezvous.WrittenOnce` | src/buffer_transfer_manager.cc:39-60 | for every interleaving of receipts and awaits, a payload has been written exactly when it is both received and awaited, and once |
| `Rendezvous.WrittenInOrder` | src/buffer_transfer_manager.cc:102-116 | the buffers hold what the payloads leave when written one after the other in the recorded order |
| `Rendezvous.EitherOrder` | src/buffer_transfer_manager.cc:102-116 | both arrival orders leave the same state |
| `Rendezvous.SwapApart` | src/buffer_transfer_manager.cc:92-119 | events about different transfers that write different cells commute |
| `BufferTransferManagers.BufferTransferManager.AwaitPush` | src/buffer_transfer_manager.cc:39-60 | refines the abstract await; the blackboard holds exactly the unmatched ids, and the returned handle is complete exactly when the data has arrived |
| `BufferTransferManagers.BufferTransferManager.Arrive` | src/buffer_transfer_manager.cc:102-116 | refines the abstract receipt; an awaiting handle completes after the write |
| `BufferTransferManagers.BufferTransferManager.UpdateIncoming` | src/buffer_transfer_manager.cc:92-119 | completed receptions are taken in order, the others stay |
| `BufferTransferManagers.BufferTransferManager.PollIncoming` | src/buffer_transfer_manager.cc:68-90 | an announced transfer is queued for reception |
| `BufferTransferManagers.AwaitPushJob.Execute` | src/worker_job.cc:68-71 | awaits once, and is done exactly when the data has been written |
| `Splits.SplitPreservesRequirements` | src/task.cc:33-58 | for every global size, offset, chunk count and built-in range mapper, the chunks together require exactly what the unsplit task requires |
| `Splits.SplitPreservesMeaning` | src/task.cc:33-58 | with at least one row per chunk, the same in terms of what the mappers mean: the chunks together need exactly the points that the indices of the unsplit task may access |
| `TaskSplits.SplitTask` | src/transformers/naive_split.cc:69-113 | splitting a task with one-to-one writes over all nodes gives node i the i-th chunk of the split with exactly the requirements that its range mappers give for that chunk, and the whole those for the full range; chunks write apart and together need what the task needs: the generator's assumptions about tasks |
| `Splits.SplitPartitions` | src/transformers/naive_split.cc:13-63 | the chunks partition the index space |
| `Splits.SplitEqual1` | src/transformers/naive_split.cc:13-27 | equal chunks, the last one with the rest |
| `Splits.SplitEqual2` | src/transformers/naive_split.cc:31-41 | the same by rows |
| `Splits.SplitEqual3` | src/transformers/naive_split.cc:44-63 | the same by planes of the global size |
| `Splits.AssignNodes` | src/transformers/naive_split.cc:74-80 | blocks of c neighbouring chunks, c being chunks divided by nodes, go to the nodes in turn, and what is left starts over at the first node; every node gets between c and 2c chunks, and with as many chunks as nodes chunk i goes to node i |
| `RangeMappers.MappedIs` | include/range_mapper.h:53-60 | clamping keeps exactly the points inside the buffer |
| `RangeMappers.MapperMeaning` | include/range_mapper.h:117-182 | for a non-empty chunk a mapper gives, inside the buffer: the chunk itself; the fixed subrange; the points that agree with an index of the chunk in all dimensions but the sliced one; every point; the points within the given distances of an index of the chunk |
| `RangeMappers.MeaningExact` | include/range_mapper.h:117-182 | for any chunk, it gives that if and only if the chunk is not empty, the mapper does not go through the indices, or it gives nothing |
| `RangeMappers.EmptyChunkNeeds` | include/range_mapper.h:171-177 | an empty chunk, as the split gives when there are more nodes than rows, still requires a halo |
| `RangeMappers.GetRequirements` | src/task.cc:33-58 | the union over the mappers of the mode; for a non-empty chunk, exactly the points in the buffers that some mapper of the mode means |

## Left out

- MPI, SYCL queues and events, devices, threads, locks, clocks, metrics, configuration, logging and graph printing.
- The runtime, buffer and handler classes, and the plumbing of templates and dimension mismatches.
- Deadlock freedom across nodes: with a bounded number of jobs the runtime does not promise it. Local progress is
  `JobCounting.OldestIsReady` together with `Executors.Executor.Round`.
- Boxes: the decomposition of a region into boxes is any decomposition into non-empty parts.
- Integer widths: ids, sizes and counters are unbounded, so `size_t` wrap-around in range mapper arithmetic is not
  modelled.
- The data of buffers beyond versions and transferred values, and the device side of reading and writing it.
- Freeing of handles and of recorded reads, and reference counts of transfer handles.
- GeneratorRuns.RunReadsCurrentVersion: says nothing about a cell that a horizon was applied past a late reader of, where
  the promise is false (`HorizonRuns.OverwriteAfterLateRead`); `GeneratorRuns.RunViewExact` covers every cell of every
  run, if and only if.
- GeneratorRuns.EveryRun: takes the shape of the state after a task from the effect of the task, for which
  `GraphGenerators.GraphGenerator.BuildCommands` has proved it.
- GraphGenerators.GraphGenerator.BuildTask: after a failed horizon nothing is said about the state, as the runtime
  throws there.
- Schedulers.Scheduler.Schedule: is not called again after a stranded horizon; a task command that depends on the
  stranded horizon would emit it late, and otherwise the flush fails as `HorizonRuns.StrandedHorizonBlocksFlush` shows.
- TaskSplits.SplitTask: other writing range mappers than one-to-one can make chunks overlap; the runtime does not check
  this and the generator then gives no promise.
- Executors.Executor.Round: what a job does is reduced to whether it turns out to be done; the loop itself, which polls
  without end, is one round at a time.
- Rendezvous.SwapApart: the order of writes that overlap is not fixed by arrival, so the contents of overlapping
  transfers are not compared.
- Walks over dependencies after a removal: the pseudo critical path length is then not bounded by the graph.
