# Verified model of the ClearGate flow engine

`cleargate-flow-engine` runs flow graphs and records what happened in an event log from which runs can
be read back. This project models its core in Dafny and proves what the design relies on, over every
graph, every completion order, every handler outcome and every store failure:

- **Scheduler** (`Graph`, `DepthFirst`, `BackEdges`, `BackEdgeLaws`, `Scheduler*`, `FanInResults`, `DoubleStart`,
  `TwoNodeCycle`, `ScheduleSoundness`, `ScheduleIndependence`, `ConditionalJoin`, `Executor`):
  the depth-first search for back-edges, entry nodes, graph validation, and the loop of `execute_run`.
  The loop is a state machine over a bag of in-flight tasks; a run is any sequence of choices of which
  task finishes next and how. The class `Executor.Executor` is the loop as it is written, over mutable
  sets and maps, and is proved to perform exactly such runs.
- **Write pipeline** (`Pipeline`, `ExactlyOnce`, `Conservation`, `FlushLoop`): producers that number and send
  events, two bounded channels, and the flush loop that drains, redacts, writes, retries and re-buffers. The pipeline
  is a set of interleaved actions (numbering and sending are separate); the class `FlushLoop.FlushLoop` is
  the loop as it is written, with producers free to act between its operations.
- **Event log** (`Events`, `Store`, `StoreLaws`): the in-memory and the file store, run records as folds of
  the log, crash recovery.
- **Node history** (`NodeHistory`, `HistoryRoundTrip`, `StoredHistory`): the retry loop of `execute_node`, the
  trace it leaves, the fold that reads a node's attempts back from an interleaved log, and the way there and
  back through the pipeline and the store.
- **Edge conditions** (`Lexer`, `Expression`, `Conditions`, `ConditionErrors`): the tokenizer and the
  recursive-descent parser fused with evaluation, related to a spelling relation and to explicit syntax trees;
  what condition texts say in terms of characters, fields and values, and what their errors point at.

Specifications are functions on values; methods and classes are proved equal to them; the theorems are
lemmas about the functions. `dafny verify dfyconfig.toml` checks everything.

## Where the code differs from its own text

- The comment at `crates/cleargate-flow-engine/src/executor/edges.rs:19-20` says a back-edge identifies
  exactly one edge per cycle. `BackEdgeLaws.TwoMarksOnOneCycle` is a graph on which the search returns two
  edges of one simple cycle. What holds is that every reachable cycle contains at least one returned edge,
  exactly one if and only if exactly one of its edges does not go down the order in which nodes are left
  (`BackEdgeLaws.MarksOnCycle`), and every returned edge is alone on some cycle (`BackEdgeLaws.MarkedAlone`).
- Deduplication on `(run_id, seq)` compares a batch with what is stored, not with itself:
  `StoreLaws.RepeatedWithinBatch` stores an event twice, `StoreLaws.DedupExact` gives the exact condition.
- A node failure event carries no fan-out index, so a failing instance that overlaps a later one has its
  error recorded against that one (`HistoryRoundTrip.FailureMisattributed`);
  `HistoryRoundTrip.RoundTripExact` gives the exact condition under which histories are read back right.
- A join whose last source finishes along a false edge is never looked at again, so whether it runs can
  depend on timing (`ConditionalJoin.JoinDependsOnSchedule`). `ScheduleIndependence.AgreeIffUnanimous` is the
  exact condition under which all schedules agree, and `ScheduleIndependence.CompletesIffLastSourceHolds`
  the exact condition under which they all do what the sequential evaluation does.
- After a failure a target is started once per edge from the failed node, whether or not it is being fanned
  out (`SchedulerBooks.StartsAfterFailure`); `DoubleStart.TargetStartsTwice` is a run that starts a node
  twice. `SchedulerRunning.RunningExact` is the exact condition under which the running set stays true.
- The documentation of `evaluate` says that comparisons with missing fields are false; a missing field is
  null, so `!=` with anything that is not null is true (`Expression.MissingFieldComparison`).

## Model

| member | source | states |
|---|---|---|
| `DepthFirst.Dfs` | crates/cleargate-flow-engine/src/executor/edges.rs:74-99 | one call computes the recursive search and keeps its invariant: nodes left so far are sorted up to back-edges, every back-edge is closed into a cycle by tree edges, marked edges point into the stack while their source is on it and never down the order, tree edges are never marked; it restores the stack and visits only what its argument reaches |
| `BackEdges.FindBackEdges` | crates/cleargate-flow-engine/src/executor/edges.rs:21-72 | visits exactly the nodes reachable from the roots; every returned id closes a cycle and every reachable cycle contains one; with distinct ids an edge is returned if and only if it does not go down the order, and what is left still reaches everything from the roots and closes every returned edge into a cycle; the result is that of the recursive search |
| `BackEdges.Roots` | crates/cleargate-flow-engine/src/executor/edges.rs:35-69 | the search starts exactly at the nodes without incoming edges, or at all nodes when there are none |
| `BackEdges.RootsInOrder` | crates/cleargate-flow-engine/src/executor/edges.rs:35-69 | and takes them in the order of the graph |
| `BackEdges.EveryCycleIsCut` | crates/cleargate-flow-engine/src/executor/edges.rs:19-20 | deleting the returned edges leaves no cycle reachable from the roots |
| `BackEdgeLaws.MarkedAlone` | crates/cleargate-flow-engine/src/executor/edges.rs:19-20 | every returned edge lies on a cycle on which it is the only returned edge |
| `BackEdgeLaws.MarksOnCycle` | crates/cleargate-flow-engine/src/executor/edges.rs:19-20 | a reachable cycle contains at least one returned edge, and exactly one if and only if exactly one of its edges does not go down the order |
| `BackEdgeLaws.TwoMarksOnOneCycle` | crates/cleargate-flow-engine/src/executor/edges.rs:19-20 | on a graph of four nodes and six edges the search returns two edges of one simple cycle |
| `BackEdgeLaws.VisitedEntriesAreRoots` | crates/cleargate-flow-engine/src/executor/edges.rs:104-119 | ignoring back-edges never turns a visited node other than a root of the search into an entry node |
| `BackEdges.NoBackEdgesIffNoReachableCycle` | crates/cleargate-flow-engine/src/executor/edges.rs:18-72 | nothing is returned if and only if no visited node lies on a cycle |
| `BackEdges.AcyclicSorts` | crates/cleargate-flow-engine/src/executor/edges.rs:21-99 | on an acyclic graph nothing is returned and the reversed order of leaving is a topological order of the whole graph |
| `BackEdges.EntryNodes` | crates/cleargate-flow-engine/src/executor/edges.rs:106-119 | exactly the nodes all of whose incoming edges are back-edges |
| `BackEdges.EntryNodesExist` | crates/cleargate-flow-engine/src/executor/edges.rs:106-119 | a non-empty graph whose endpoints exist always has an entry node |
| `DepthFirst.BuildOutgoing` | crates/cleargate-flow-engine/src/executor/edges.rs:121-128 | the adjacency map holds, for every node, its outgoing edges in graph order |
| `BackEdges.ValidateGraph` | crates/cleargate-flow-engine/src/validate.rs:8-74 | reports exactly the faults there are: the empty graph, each repeated node id, each unknown endpoint, each repeated edge id; no errors if and only if the graph is valid; "no entry nodes" never fires when endpoints exist |
| `BackEdges.FindDuplicateNodes` | crates/cleargate-flow-engine/src/validate.rs:11-17 | reports exactly the node ids that occur more than once |
| `BackEdges.FindDangling` | crates/cleargate-flow-engine/src/validate.rs:19-35 | reports exactly the edges whose source or target is no node |
| `BackEdges.FindDuplicateEdges` | crates/cleargate-flow-engine/src/validate.rs:37-43 | reports exactly the edge ids that occur more than once |
| `SchedulerBooks.ScanExact` | crates/cleargate-flow-engine/src/executor/edges.rs:197-313 | edge evaluation counts exactly the edges that pass and returns exactly the eligible targets of passing edges, judged by the state before the scan although counts change during it; `SchedulerStarts.DownstreamEffect` says in terms of the state fields which targets these are |
| `SchedulerBooks.ScanReady` | crates/cleargate-flow-engine/src/executor/edges.rs:245-309 | returned nodes are distinct, not running, not being fanned out, and on a first start have all forward sources done |
| `SchedulerStarts.ResolvedInput` | crates/cleargate-flow-engine/src/executor/edges.rs:140-176 | a node started as a whole gets at each target port the named port of the last source on it, or that source's whole output, and the value itself when there is only one port |
| `SchedulerStarts.DownstreamEffect` | crates/cleargate-flow-engine/src/executor/edges.rs:197-313 | when a node has finished, exactly those targets start, once each, into which an edge holds and has a traversal left and of which nothing is under way: completed ones, and unfailed ones whose forward sources are done with one holding edge; each is fanned out over the array that the first such edge carries, or runs on its inputs |
| `SchedulerStarts.DownstreamCounts` | crates/cleargate-flow-engine/src/executor/edges.rs:215-228 | exactly the edges that hold and have a traversal left use one |
| `SchedulerProgress.SuccessEffect` | crates/cleargate-flow-engine/src/executor/run.rs:185-222 | the same of a step of a run in which a task succeeds |
| `SchedulerProgress.ReEntry` | crates/cleargate-flow-engine/src/executor/edges.rs:262-279 | a completed node into which an edge of the node that just succeeded holds and has a traversal left is started again, and is no longer completed |
| `TwoNodeCycle.CycleIterates` | crates/cleargate-flow-engine/src/executor/edges.rs:219-279 | on a cycle of two nodes every finished run without failure or fan-out has started the entry node exactly `max_traversals + 1` times and the other exactly `max_traversals` times |
| `SchedulerProgress.FanOutOpens` | crates/cleargate-flow-engine/src/executor/fanout.rs:74-130 | an edge that holds and carries a non-empty array into a node that may start opens a fan-out with one instance per item, in order |
| `SchedulerProgress.InstanceEffect` | crates/cleargate-flow-engine/src/executor/fanout.rs:29-70 | the last instance completes its node with the merged array and evaluates its edges; an earlier one starts nothing |
| `SchedulerBooks.StepBooks` | crates/cleargate-flow-engine/src/executor/run.rs:107-263 | every step, with any outcome, keeps the books: in-flight instances match empty slots, running nodes have a task, everything recorded is in the graph, counts stay within the limit |
| `SchedulerBooks.RunBooks` | crates/cleargate-flow-engine/src/executor/run.rs:51-263 | the books hold in every state of every run |
| `SchedulerBooks.FanOutInstances` | crates/cleargate-flow-engine/src/executor/fanout.rs:14-70 | in every reachable state the in-flight instances of a fanned-out node are exactly its empty slots, one each, and number `expected - completed` |
| `SchedulerRunning.StepExact` | crates/cleargate-flow-engine/src/executor/run.rs:185-222 | when every running node has one normal task and is neither completed nor fanned out, a step keeps this if and only if it is not a failure that starts a target twice or one that is being fanned out |
| `SchedulerRunning.RunningExact` | crates/cleargate-flow-engine/src/executor/run.rs:185-260 | this holds at every moment of a run if and only if no failure in it starts a target twice or one that is being fanned out |
| `SchedulerRunning.RunningNodes` | crates/cleargate-flow-engine/src/executor/run.rs:185-220 | unless such a failure has happened, the running set is exactly the nodes with one in-flight normal task, disjoint from completed and fanned-out nodes |
| `SchedulerRunning.NoFailureNeverBreaks` | crates/cleargate-flow-engine/src/executor/run.rs:185-220 | in particular in every run without a normal failure |
| `DoubleStart.TargetStartsTwice` | crates/cleargate-flow-engine/src/executor/edges.rs:394-414 | a run on three nodes in which a failed source with two parallel edges leaves two tasks of its target in flight |
| `SchedulerBooks.StartsAfterFailure` | crates/cleargate-flow-engine/src/executor/edges.rs:378-418 | after a failure a runnable target is started exactly once per edge leading to it, and nothing else is started |
| `SchedulerProgress.FailureEffect` | crates/cleargate-flow-engine/src/executor/edges.rs:378-418 | after a failure exactly those targets start that are not done or running, have all sources done and one of them completed, told of the state before the step |
| `SchedulerProgress.StartsEarned` | crates/cleargate-flow-engine/src/executor/edges.rs:318-418 | in every run every start but those of the entry nodes at the beginning comes after a success of one of the node's sources; a node all of whose sources fail never starts |
| `SchedulerBooks.FinalStatusExact` | crates/cleargate-flow-engine/src/executor/run.rs:265-287 | a cancelled run is Cancelled; any other run that has stopped is Completed if and only if no node failed and every node completed, and Failed otherwise |
| `SchedulerHistory.RunOrdered` | crates/cleargate-flow-engine/src/executor/edges.rs:318-418 | in every run, with failures, a node starts only after every source of its forward edges has finished |
| `SchedulerHistory.UnreachedNeverStart` | crates/cleargate-flow-engine/src/executor/run.rs:85-97 | nodes the search does not reach never start, in any run |
| `SchedulerHistory.UnreachedMeansFailed` | crates/cleargate-flow-engine/src/executor/run.rs:267-282 | a graph with an unreached node makes every uncancelled run end as Failed |
| `SchedulerBounds.StepDescends` | crates/cleargate-flow-engine/src/executor/run.rs:107-263 | every step lowers (traversals left, nodes pending, tasks in flight) lexicographically, for any outcome, condition, cycle, fan-out or failure |
| `SchedulerBounds.ActivationsBounded` | crates/cleargate-flow-engine/src/executor/edges.rs:219-309 | in every run a node starts at most once as an entry, `max_traversals` times per incoming edge, and once per failure of a source and edge from that source |
| `SchedulerBounds.ActivationsWithoutFailure` | crates/cleargate-flow-engine/src/executor/edges.rs:219-309 | without a normal failure the last term is absent |
| `SchedulerFanIn.RunBatches` | crates/cleargate-flow-engine/src/executor/fanout.rs:29-130 | in every run every fan-in merges one batch, one slot per instance, and every batch started is open or merged; what a slot holds is told by `FanInResults.EveryFanInShows` |
| `FanInResults.EveryFanInShows` | crates/cleargate-flow-engine/src/executor/fanout.rs:40-61 | in every run position i of a merged array is the value instance i of that batch returned, or the object of exactly its error and its index |
| `FanInResults.RunShown` | crates/cleargate-flow-engine/src/executor/run.rs:185-200 | in every run the output of a node is what its task last returned or its fan-in last merged; before that the entry nodes, and only they, have the trigger inputs as output |
| `SchedulerFanIn.EveryBatchMergedOnce` | crates/cleargate-flow-engine/src/executor/fanout.rs:50-66 | once nothing is in flight every batch ever started has been merged by exactly one fan-in |
| `SchedulerFanIn.FanInNeverCascades` | crates/cleargate-flow-engine/src/executor/edges.rs:262-274 | a finishing instance never opens a fan-out, even when its merged array is passed on |
| `ScheduleSoundness.SequentialSolves` | crates/cleargate-flow-engine/src/executor/edges.rs:315-366 | the sequential evaluation in topological order satisfies the activation and input equations of every node |
| `ScheduleSoundness.WakesExactly` | crates/cleargate-flow-engine/src/executor/edges.rs:197-313 | in an acyclic flow the scan after a completion returns exactly the nodes of the sequential evaluation whose sources have all completed and into which the finished node has an edge that holds |
| `ScheduleSoundness.RunSound` | crates/cleargate-flow-engine/src/executor/run.rs:107-263 | in every state of every schedule, what has begun is part of the sequential evaluation, each node once, with its inputs and outputs |
| `ScheduleIndependence.AgreeIffUnanimous` | crates/cleargate-flow-engine/src/executor/run.rs:107-263 | all schedules of an acyclic flow complete the same nodes with the same outputs from the same tasks if and only if, at every join whose sources all run, the sources that can finish last agree on whether an edge of theirs holds |
| `ScheduleIndependence.CompletesIffLastSourceHolds` | crates/cleargate-flow-engine/src/executor/run.rs:107-263 | every schedule completes exactly the sequential evaluation if and only if every source from which no other source of its target is reachable has an edge into it that holds |
| `ScheduleIndependence.StrandingSchedule` | crates/cleargate-flow-engine/src/executor/edges.rs:245-309 | a source that can finish last and has no edge that holds gives a schedule that never completes its target |
| `ScheduleIndependence.WakingSchedule` | crates/cleargate-flow-engine/src/executor/edges.rs:245-309 | a source that can finish last and has an edge that holds gives a schedule that completes its target |
| `ScheduleIndependence.ScheduleIndependent` | crates/cleargate-flow-engine/src/executor/run.rs:107-263 | under that condition every schedule completes the nodes of the sequential evaluation with its outputs, each started exactly once on its input, and starts nothing else |
| `ScheduleIndependence.UnconditionalJoinsHold` | crates/cleargate-flow-engine/src/executor/edges.rs:318-366 | flows whose joins are unconditional meet the condition |
| `ScheduleIndependence.AcyclicAgreeIffUnanimous` | crates/cleargate-flow-engine/src/executor/run.rs:107-263 | both equivalences for an acyclic graph as the back-edge search analyses it |
| `ScheduleSoundness.RunWithIsRun` | crates/cleargate-flow-engine/src/executor/run.rs:107-263 | runs of deterministic handlers are runs of the scheduler |
| `ConditionalJoin.JoinDependsOnSchedule` | crates/cleargate-flow-engine/src/executor/edges.rs:245-309 | with a false conditional edge into a join, one completion order of its two sources runs the join and the other never does |
| `ConditionalJoin.JoinDividesSchedules` | crates/cleargate-flow-engine/src/executor/edges.rs:245-309 | the same flow as an instance of the two equivalences: its schedules do not agree |
| `Executor.Executor.constructor` | crates/cleargate-flow-engine/src/executor/run.rs:55-105 | starts in the initial state of a run of the graph with the back-edges of the search, with at least one task in flight |
| `Executor.Executor.CheckReady` | crates/cleargate-flow-engine/src/executor/edges.rs:318-366 | one pass over the edges decides: no incoming edges, or all forward sources done and some forward edge satisfied |
| `Executor.Executor.CheckEligible` | crates/cleargate-flow-engine/src/executor/edges.rs:253-292 | whether the target of a passing edge is to be started, given what is running, fanned out, completed and failed; in particular every completed target that is neither running nor fanned out (`SchedulerProgress.ReEntry`) |
| `Executor.Executor.EvaluateEdge` | crates/cleargate-flow-engine/src/executor/edges.rs:215-309 | one edge: count a traversal within the limit, and collect its target once if eligible |
| `Executor.Executor.EvaluateEdgesAndFindReady` | crates/cleargate-flow-engine/src/executor/edges.rs:197-313 | changes only the traversal counts, and returns the scan that `ScanExact` characterises |
| `Executor.Executor.FindReadyAfterFailure` | crates/cleargate-flow-engine/src/executor/edges.rs:378-418 | the targets, one per edge, whose sources are all done and one of them completed |
| `Executor.Executor.HandleFanOutCompletion` | crates/cleargate-flow-engine/src/executor/fanout.rs:29-70 | fills the slot of the instance with its report; with the last slot it completes the node, stores the merged array and closes the fan-out, otherwise only the slot and the counter change |
| `Executor.Executor.SpawnReadyNodes` | crates/cleargate-flow-engine/src/executor/fanout.rs:74-130 | starts each ready node, one task or one per item, reopening completed nodes on cycles |
| `Executor.Executor.FinishTask` | crates/cleargate-flow-engine/src/executor/run.rs:119-261 | the loop body is one step of the state machine |
| `Executor.Executor.FinishOne` | crates/cleargate-flow-engine/src/executor/run.rs:107-263 | one iteration continues the run and lowers the termination measure |
| `Executor.Executor.DetermineStatus` | crates/cleargate-flow-engine/src/executor/run.rs:265-287 | the three-way decision that `FinalStatusExact` characterises |
| `Executor.Executor.ExecuteRun` | crates/cleargate-flow-engine/src/executor/run.rs:51-298 | terminates for every choice of tasks, outcomes and cancellation; stops with nothing in flight unless cancelled; Cancelled exactly when it was cancelled, otherwise Completed exactly when nothing failed and every node completed |
| `Pipeline.PipelineFifo` | crates/cleargate-flow-engine/src/write_pipeline.rs:134-277 | over an all-or-nothing store, in every interleaving, the accepted critical writes are, in order, what is persisted, then being written, then batched, then in the channel |
| `Pipeline.ChannelsBounded` | crates/cleargate-flow-engine/src/write_handle.rs:83-105 | no interleaving ever puts more into a channel than it has room for |
| `ExactlyOnce.WriteOnce` | crates/cleargate-flow-engine/src/defaults/in_memory_run_store.rs:90-118 | writing events with distinct numbers stores each once whatever was stored before, and forgets nothing |
| `ExactlyOnce.PipelineExactlyOnce` | crates/cleargate-flow-engine/src/write_pipeline.rs:254-276 | whatever part of a batch failing writes had stored, no log repeats a number and every accepted critical event is stored or on its way |
| `ExactlyOnce.DrainedExactlyOnce` | crates/cleargate-flow-engine/src/write_pipeline.rs:254-276 | once drained, every accepted critical event is in its run's log exactly once and every event at most once |
| `Conservation.ConservedExactly` | crates/cleargate-flow-engine/src/write_pipeline.rs:134-277 | over an all-or-nothing store, between flushes, an accepted critical event is in its log if and only if it is neither in the batch nor in the channel |
| `Conservation.LostAtExit` | crates/cleargate-flow-engine/src/write_pipeline.rs:156-164 | a run in which the final flush fails twice and leaves an accepted event in the batch and in no log |
| `FlushLoop.FlushLoop.Write` | crates/cleargate-flow-engine/src/write_handle.rs:83-89 | numbering an event makes it wait with the next number, and leaves channels, batch and any flush alone |
| `FlushLoop.FlushLoop.Send` | crates/cleargate-flow-engine/src/write_handle.rs:83-89 | a waiting event is accepted at the end of the critical channel, and nothing else changes |
| `FlushLoop.FlushLoop.TrySend` | crates/cleargate-flow-engine/src/write_handle.rs:96-105 | the event is added to the advisory channel exactly if there is room, and dropped otherwise; nothing else changes |
| `FlushLoop.FlushLoop.DrainCritical` | crates/cleargate-flow-engine/src/write_pipeline.rs:238-242 | receives, and nothing else, until the channel is seen empty, extending the batch, with producers acting meanwhile |
| `FlushLoop.FlushLoop.FlushBatch` | crates/cleargate-flow-engine/src/write_pipeline.rs:248-277 | one write, or a failed write and one retry; afterwards the batch is empty, or after two failures the redacted critical events |
| `FlushLoop.FlushLoop.Shutdown` | crates/cleargate-flow-engine/src/write_pipeline.rs:156-164 | draining both channels and writing what is left stores every critical event accepted before the drain exactly once, unless two writes failed; over an all-or-nothing store each such event is then in its log if and only if it is not left in the batch |
| `FlushLoop.FlushLoop.OnCritical` | crates/cleargate-flow-engine/src/write_pipeline.rs:167-190 | after a critical event both channels have been drained and a full batch written: every critical event accepted before is stored or batched, and no full batch is left unless a write failed twice |
| `FlushLoop.FlushLoop.OnAdvisory` | crates/cleargate-flow-engine/src/write_pipeline.rs:193-215 | the same after an advisory event |
| `FlushLoop.FlushLoop.Round` | crates/cleargate-flow-engine/src/write_pipeline.rs:150-233 | a tick stores everything batched, a round that received leaves no full batch, and whatever the arm something stays batched only if more is coming or ten are waiting, unless a write failed twice; what was accepted before a receiving round is stored or batched; a round that leaves the loop has stored, exactly once, every critical event accepted before it unless it failed twice, and over an all-or-nothing store what it has not stored is exactly what is left in the batch |
| `Events.ReconstructRun` | crates/cleargate-flow-engine/src/defaults/reconstruct.rs:19-67 | the record has the identity, inputs and start time of the last start, duration, summary and completion time of the last completion, and the status of whichever of the two is last; defaults where there is none |
| `Events.ReconstructDescribes` | crates/cleargate-flow-engine/src/defaults/reconstruct.rs:19-67 | the fold of any log describes it in that sense |
| `Events.SortSorts` | crates/cleargate-flow-engine/src/defaults/in_memory_run_store.rs:111 | sorting orders by number and permutes |
| `Events.SortStable` | crates/cleargate-flow-engine/src/defaults/in_memory_run_store.rs:111 | sorting keeps events of equal number in their order |
| `Store.WriteKeepsCache` | crates/cleargate-flow-engine/src/defaults/in_memory_run_store.rs:102-115 | after any batch every cached record is the fold of its sorted log |
| `Store.InMemoryRunStore.WriteBatch` | crates/cleargate-flow-engine/src/defaults/in_memory_run_store.rs:90-118 | each touched run gets its unseen events, sorted in, and a fresh record; other runs are unchanged; cache and logs agree |
| `Store.InMemoryRunStore.GetRun` | crates/cleargate-flow-engine/src/defaults/in_memory_run_store.rs:120-122 | the record returned describes the log in that sense; none exactly for a run without events |
| `Store.GroupByRun` | crates/cleargate-flow-engine/src/defaults/file_run_store.rs:88-95 | groups are exactly the events of each run in batch order |
| `Store.FileRunStore.WriteBatch` | crates/cleargate-flow-engine/src/defaults/file_run_store.rs:87-156 | each file is left alone or replaced by its sorted content followed by the unseen events |
| `Store.FileRunStore.GetRun` | crates/cleargate-flow-engine/src/defaults/file_run_store.rs:158-160 | the record returned describes the events read back in that sense; none exactly for an empty file |
| `Store.WriteRefines` | crates/cleargate-flow-engine/src/defaults/file_run_store.rs:55-156 | a batch, repeated numbers included, keeps what the file store reads equal to the in-memory log |
| `Store.WriteBoth` | crates/cleargate-flow-engine/src/defaults/file_run_store.rs:87-160 | after any sequence of batches both stores hold the same logs and return the same record of a run |
| `StoreLaws.DedupExact` | crates/cleargate-flow-engine/src/defaults/in_memory_run_store.rs:104-110 | a log without repeated numbers stays so if and only if the unseen part of the batch repeats none |
| `StoreLaws.RepeatedWithinBatch` | crates/cleargate-flow-engine/src/defaults/in_memory_run_store.rs:104-110 | a batch that holds an event twice stores it twice |
| `StoreLaws.ForRunInOrder` | crates/cleargate-flow-engine/src/defaults/in_memory_run_store.rs:90-101 | the events for a run in one batch after another are those of the first, then those of the second |
| `StoreLaws.UnseenInOrder` | crates/cleargate-flow-engine/src/defaults/in_memory_run_store.rs:104-110 | likewise for the events not yet stored |
| `StoreLaws.FileKept` | crates/cleargate-flow-engine/src/defaults/file_run_store.rs:104-131 | a file is left as it is if every number of the batch is in it, and otherwise holds its events in order, then the unseen ones |
| `StoreLaws.LogIsSortedSet` | crates/cleargate-flow-engine/src/defaults/in_memory_run_store.rs:90-118 | when keys determine events and no batch repeats a key, the log is the number-sorted set of the events written |
| `StoreLaws.LogConfluence` | crates/cleargate-flow-engine/src/defaults/in_memory_run_store.rs:42-118 | any splitting, reordering and repetition of batches gives the same log and record |
| `StoreLaws.MarkerDecides` | crates/cleargate-flow-engine/src/traits.rs:390-403 | a recovery marker in a log makes the run Interrupted |
| `StoreLaws.MarkEffect` | crates/cleargate-flow-engine/src/traits.rs:390-403 | marking a Running run appends to its log one completion that is Interrupted, of no duration and numbered 2^64 - 1, makes it Interrupted and leaves every other run alone |
| `StoreLaws.InterruptedIsSticky` | crates/cleargate-flow-engine/src/traits.rs:390-403 | no sequence of later ordinary batches changes the status of a run that carries the marker |
| `StoreLaws.ListRunning` | crates/cleargate-flow-engine/src/defaults/in_memory_run_store.rs:124-150 | the status filter over cached records finds exactly the runs whose log folds to Running |
| `StoreLaws.RecoverInterrupted` | crates/cleargate-flow-engine/src/engine/builder.rs:326-351 | after the pass no run is Running, the log of each that was is its old log followed by the marker, all other logs are unchanged, so a second pass does nothing |
| `StoreLaws.RecoverThenWrite` | crates/cleargate-flow-engine/src/engine/builder.rs:326-351 | whatever ordinary batches follow the pass, every run it found Running stays Interrupted |
| `NodeHistory.ExecuteNode` | crates/cleargate-flow-engine/src/executor/node.rs:106-306 | the retry loop emits the trace and returns the outcome of the attempts it makes |
| `NodeHistory.ExecutionStops` | crates/cleargate-flow-engine/src/executor/node.rs:127-306 | an execution makes between one and max(1, limit) attempts, each but the last failed with a retryable error, the last did not or was at the limit; its trace records each of them with its own result, and its outcome is that of the last |
| `NodeHistory.LastOpen` | crates/cleargate-flow-engine/src/defaults/reconstruct.rs:182-206 | the most recent unfinished attempt that an end event fits, if there is one |
| `NodeHistory.ExtractNodeDetail` | crates/cleargate-flow-engine/src/defaults/reconstruct.rs:153-218 | the in-place loop computes the fold of the log; no attempts means no detail |
| `NodeHistory.ObserveProject` | crates/cleargate-flow-engine/src/defaults/reconstruct.rs:160-207 | events of other nodes, other events, numbers and times do not influence a node's history |
| `HistoryRoundTrip.InterleaveWhole` | crates/cleargate-flow-engine/src/executor/node.rs:127-306 | in every interleaving each execution has written a prefix of its own trace, and the ledger lists its own attempts |
| `HistoryRoundTrip.EndRead` | crates/cleargate-flow-engine/src/defaults/reconstruct.rs:176-206 | an end event closes its own attempt if and only if no later unfinished attempt looks alike |
| `HistoryRoundTrip.RoundTripExact` | crates/cleargate-flow-engine/src/defaults/reconstruct.rs:153-218 | the history read at every moment is what really happened if and only if no attempt ends while a later unfinished one looks alike |
| `HistoryRoundTrip.RoundTrip` | crates/cleargate-flow-engine/src/executor/node.rs:127-306 | after any unambiguous interleaving the history is exactly the attempts made, in order of start, each with its own inputs and outcome |
| `HistoryRoundTrip.ApartNeverAmbiguous` | crates/cleargate-flow-engine/src/defaults/reconstruct.rs:154-157 | executions that do not overlap, and overlapping fan-out instances without failures, are never ambiguous |
| `StoredHistory.DrainedLog` | crates/cleargate-flow-engine/src/write_pipeline.rs:134-277 | in any interleaving of numbering, sending, draining, flushing and failing, once the pipeline has drained the critical events in the log of a run are those issued for it, redacted, in the order of their numbers |
| `StoredHistory.StoredRoundTrip` | crates/cleargate-flow-engine/src/executor/node.rs:127-306 | executions that write through the pipeline in any interleaving: once it has drained, and if no attempt ended ambiguously in the order of numbers, the history read from the store is exactly the attempts made |
| `HistoryRoundTrip.FailureMisattributed` | crates/cleargate-flow-engine/src/defaults/reconstruct.rs:191-206 | the failure of an overlapped fan-out instance is recorded against the later one, whose outputs are lost |
| `Lexer.Tokenize` | crates/cleargate-flow-engine/src/expression.rs:75-174 | the index-driven loop computes the tokens of the text or its first error |
| `Lexer.LexIffWrites` | crates/cleargate-flow-engine/src/expression.rs:75-174 | a text has a token list if and only if it spells those tokens, properly separated |
| `Lexer.SpacedWrites` | crates/cleargate-flow-engine/src/expression.rs:75-174 | spelled tokens with spaces between them write the token list |
| `Expression.ResolvePath` | crates/cleargate-flow-engine/src/expression.rs:363-378 | the cursor walk gives the value at the dotted path, null when a field is missing |
| `Expression.ParseAnd` | crates/cleargate-flow-engine/src/expression.rs:245-253 | the loop computes the recursive specification |
| `Expression.ParseOr` | crates/cleargate-flow-engine/src/expression.rs:234-242 | the loop computes the recursive specification |
| `Expression.OrValue` | crates/cleargate-flow-engine/src/expression.rs:234-360 | a successful parse leaves strictly fewer tokens |
| `Expression.EvaluateText` | crates/cleargate-flow-engine/src/expression.rs:33-47 | tokenizing, the empty check, parsing and the leftover check compute the meaning of the text |
| `Expression.FusedIsEvalOfParse` | crates/cleargate-flow-engine/src/expression.rs:234-360 | the fused evaluator is evaluation of the tree that a plain parser builds, errors included |
| `Expression.ErrorsDependOnTextOnly` | crates/cleargate-flow-engine/src/expression.rs:33-47 | whether evaluation fails, and with which error, does not depend on the data |
| `Expression.DisjunctionParses` | crates/cleargate-flow-engine/src/expression.rs:234-360 | parsing the printed tokens of any tree gives that tree and what follows |
| `Expression.DisjunctionUnparses` | crates/cleargate-flow-engine/src/expression.rs:234-360 | printing a parsed tree gives back the tokens consumed |
| `Expression.ParseConsumesExpression` | crates/cleargate-flow-engine/src/expression.rs:234-360 | a successful parse has consumed exactly one written-out expression, a prefix of its tokens, and returns its value |
| `Expression.ParsesToIffWritten` | crates/cleargate-flow-engine/src/expression.rs:75-174 | tokenizing and parsing a text gives a tree if and only if the text writes that tree out |
| `Expression.EvaluateMeansTree` | crates/cleargate-flow-engine/src/expression.rs:33-47 | a text evaluates to a truth value if and only if it writes a tree with that value; what the values are is told by the `Conditions` rows |
| `Expression.CompareLaws` | crates/cleargate-flow-engine/src/expression.rs:292-338 | operators mirror under swapping; equal and unequal exclude each other and one holds exactly on comparable operands; "or equal" is strict or equal on ordered operands |
| `Conditions.Alphabet` | crates/cleargate-flow-engine/src/expression.rs:135-166 | which texts are words and which are number literals, by their characters |
| `Conditions.IntegerLiteral` | crates/cleargate-flow-engine/src/expression.rs:135-150 | a further digit makes a literal ten times its value plus the digit |
| `Conditions.DecimalLiteral` | crates/cleargate-flow-engine/src/expression.rs:135-150 | a point at the end changes nothing, moved one place left it divides the value by ten |
| `Conditions.SignedLiteral` | crates/cleargate-flow-engine/src/expression.rs:135-150 | a sign negates the value; a second point makes the text no number |
| `Conditions.LookupIsField` | crates/cleargate-flow-engine/src/expression.rs:363-378 | a dotted path finds a value exactly if following its segments through nested objects leads to it |
| `Conditions.ComparisonText` | crates/cleargate-flow-engine/src/expression.rs:75-174 | a path, an operator and a number literal, each followed by a blank, say that comparison |
| `Conditions.NumberComparison` | crates/cleargate-flow-engine/src/expression.rs:303-313 | a text comparing a numeric field x with n is true exactly for x > n, x < n, and within EPSILON of these and of equality for the other operators |
| `Conditions.StringComparison` | crates/cleargate-flow-engine/src/expression.rs:315-325 | strings compare by the first position in which they differ, a proper prefix before the longer |
| `Conditions.BoolComparison` | crates/cleargate-flow-engine/src/expression.rs:327-334 | booleans are equal or unequal and never ordered |
| `Conditions.MixedComparison` | crates/cleargate-flow-engine/src/expression.rs:336-337 | values of different types compare false under every operator |
| `Conditions.NullComparison` | crates/cleargate-flow-engine/src/expression.rs:294-301 | a null field equals null and differs from everything else |
| `Conditions.Truthiness` | crates/cleargate-flow-engine/src/expression.rs:194-204 | a field alone is true unless it is missing, null, false, zero or empty text |
| `Conditions.ConditionHolds` | crates/cleargate-flow-engine/src/expression.rs:234-265 | a text that writes a disjunction of conjunctions is true exactly if all members of some conjunction hold |
| `Conditions.EmptyTexts` | crates/cleargate-flow-engine/src/expression.rs:33-39 | texts of blanks, tabs and line ends, and no others, are empty conditions |
| `ConditionErrors.LexErrorIffStuck` | crates/cleargate-flow-engine/src/expression.rs:75-174 | tokenizing fails with an error if and only if, after tokens that are written out, that is what is wrong: a quote never closed, a number with two points, or a character that begins no token |
| `ConditionErrors.EvaluateErrors` | crates/cleargate-flow-engine/src/expression.rs:33-47 | every error of a condition is one of: empty, not tokens in that sense, a token left over after a whole expression, or an operand missing at the start or after an operator |
| `ConditionErrors.LeftoverNamed` | crates/cleargate-flow-engine/src/expression.rs:41-45 | a token that cannot continue the expression before it is the one the error names |
| `Expression.MissingFieldComparison` | crates/cleargate-flow-engine/src/expression.rs:292-301 | a comparison with a missing field is true exactly for "==" with another null and "!=" with anything else |

## Left out

- Numbers are exact reals with the comparison tolerance written out: rounding, infinities and NaN of IEEE doubles are not modelled.
- Machine integers: sequence numbers, fan-out counts and traversal counts are unbounded; only the largest u64 of the recovery marker is a constant.
- Task panics, and nodes without a handler: every spawned task is of a node of the validated graph and reports an outcome.
- Real time: timeouts, backoff, the flush interval and the wait before a retry are arbitrary interleavings; timestamps are plain data.
- Events written by the scheduler itself (edge evaluations, LLM invocations, stream chunks, run start and end) and the LLM summary.
- Redaction content: redaction is any function that keeps the key and the kind of an event.
- `write` is used for critical events and `try_write` for the others, as the engine does; closed channels are not modelled beyond the loop leaving.
- A batch still held when the loop leaves after a final flush that failed twice is lost (`Conservation.LostAtExit`); conservation is stated up to that point.
- Files are sequences of events: serialization, I/O errors and the temporary file with its rename are not modelled.
- Error messages are constructors carrying the offending token or name, not formatted text.
- `find_back_edges` and `dfs` of `validate.rs` are the same algorithm as those of `executor/edges.rs` and are modelled once.
- ScheduleIndependence.AgreeIffUnanimous: is about acyclic flows without failure or cancellation in which no edge that holds carries a non-empty array, for which the sequential evaluation is defined.
- StoredHistory.DrainedLog: asks that redacting twice is redacting once, because events that are batched again are redacted again.
- Pipeline.PipelineFifo: asks for a store that stores all or nothing; for stores that fail half-way `PipelineExactlyOnce` is the statement.
- `extract_node_results`, custom events, pagination and other filters of `list_runs`, and the in-memory store's own `get_node_detail`: folds and filters that would only add easy members.
- Providers, language bindings, adapters, dynamic libraries, built-in nodes, triggers, versioning, queues and observability.
