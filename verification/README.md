# FreeTalon: plans, their execution, the hive, and the YAML printer

This project models four parts of FreeTalon and proves what they promise.

**The planner** (`freetalon/orchestrator/planner.py`) turns a list of nodes into a normalized plan. `LeastOrder`
defines the order it must produce in the simplest way: again and again, take the first listed node whose
dependencies have all been taken. `Normalization` defines the whole result on top of it, and `Planner` with
`TopologicalSort` are the loops as they run: in-degree counters, adjacency lists, a queue keyed by listed position
with removal of the least entry, and the renaming pass. The loops are proved to compute exactly `Normalize`; the
theorems are about `Normalize`: which inputs it accepts, that the order is the lexicographically least topological
order, that renaming is a graph isomorphism, and that normalizing twice is normalizing once.

**The executor** (`freetalon/orchestrator/executor.py`) is a state machine (`ExecutorModel`) whose steps are the
atomic sections between the two places where a task suspends, the semaphore and the handler. Runs interleave the
steps freely. Handlers are arbitrary; a handler that reports missing prerequisites makes the plan grow during the
run. Tasks are a multiset, since where ids repeat one node can be dispatched twice at once. `ExecutorSafety`,
`ExecutorRuns`, `Rescheduling`, `ExecutorLiveness`, `ExecutorTermination` and `ScheduleIndependence` prove
properties of every run, under every interleaving and through every injection; `RepeatedIds`, `TwinAnswers`,
`EndlessRuns` and `ExecutorLimits` say exactly what goes wrong when an assumption about injected nodes is dropped.
`InjectionContracts` and `ExecutorContracts` say field by field what an injection and the steps of a run do.
Class `Executor` is the object itself: its methods load, change and save plans in a store, and `Run` is proved to
follow the state machine step by step, to terminate, and to return the verdict the theorems speak of.

**The hive** (`freetalon/hive.py`) is a state machine (`HiveModel`) whose steps are the sections under the
controller's lock, the moment a worker's future becomes done, and a restart of the process. `HiveSafety` and
`HiveRuns` prove its invariants and its properties over whole runs; `HiveContracts` says field by field what each
section does to the table, the futures and the state file; class `HiveController` has the sections as methods, each
proved to do that and to make exactly the step the state machine names.

**The YAML printer** (`_yaml_dump` in `installer.py`) is `Yaml`, `YamlText` and the recursive, list-building method
`YamlPrinter.YamlDump`. `Yaml` also holds a parser for the block style it emits (sections 8.2.1 and 8.2.2 of YAML
1.2.2); `YamlRoundTrip` and `YamlText` prove the round trip, and `YamlContracts` gives the text itself, entry by entry
and item by item.

`Dag`, `Sums`, `Sorting`, `Text` and `Wrappers` are small libraries: finite graphs, sums, sorting by a key, decimal
numerals and splitting, option and result types.

## What turned out not to hold

- **A plan does not stay well formed under every injection**, because an injected sub-DAG is not checked. It does
  exactly when the injection is safe (`InjectionTheorems.InjectionKeepsPlanIffSafe`): sub-node ids are distinct, the
  sub-nodes have no cycle, and each dependency that is no sub-node names a plan node that does not wait for the
  originating node. `InjectionTheorems.SafeIffAnswerSafe` ties this to what the planner answered; the one other safe
  case is a dependency that guesses an id the injection is about to generate. A planner whose answer went through the
  normalization is always safe (`ExecutorLiveness.NormalizedIsSafe`).
- **A finished run can report RUNNING.** For every run whose answers have distinct ids, safe or not, it does exactly
  when no node is FAILED, CANCELLED or NEEDS_TOOL and some unstarted node names an unknown node or transitively waits
  for itself (`ExecutorLiveness.FinishedRunningIff`). `ExecutorLimits.UnsafeInjectionEndsRunning` gives the run, from
  any plan of one node. With safe answers it never happens (`ExecutorLiveness.FinishedRunIsTruthful`).
- **A run need not end.** Lookup by id finds the last node of an id, so a runnable node in front of a settled one of
  the same id is dispatched in vain for ever: from such a state no run ends (`RepeatedIds.TrappedNeverEnds`) and runs of
  every length exist. One planner answer of two nodes with one id leads there (`TwinAnswers.RepeatedIdsTrap`), and on
  the way the node's handler is dispatched twice at once (`TwinAnswers.TwinsRunTwice`). Under bounds on nesting and on
  the size of answers this is the only way not to end (`EndlessRuns.EndlessIsTrapped`), and with distinct ids it cannot
  happen.
- **The loop guard bounds no run by itself**, since it counts per node id: with each injected node asking for one more,
  safe runs of any length exist (`ExecutorLimits.NestingIsUnbounded`). With distinct ids in every answer, nesting at
  most D deep and answers of at most B nodes there is a bound (`ExecutorTermination.RunLengthBounded`).
- A semaphore of size 0 deadlocks a batch with pending tasks; that is the only deadlock (`ExecutorLiveness.ProgressIff`).
- An empty container as a list item prints as a string, so the printer's text reads back as the tree exactly when no
  list holds one and the tree is not itself empty (`YamlText.RoundTripIff`).
- A retry that is dispatched while the task's old future is still in the futures table replaces it, so a tick can leave
  a worker slot idle although another task is due; `HiveContracts.SlotsAllTakenIff` says exactly when, and
  `HiveRuns.IdleSlotReached` comes to such a state from the empty table.
- A restart under another tuning re-establishes the invariants exactly when the waiting tasks fit the new queue size
  (`HiveSafety.RestartKeepsInvIff`).

The comment on `Executor.run` (`freetalon/orchestrator/executor.py:168-172`) says that it raises an error when no
progress can be made. The code does not: it leaves the loop and derives a status. The model follows the code.

## Assumptions

The theorems about runs of the executor assume of their surroundings: a plan with distinct ids in which nothing is
RUNNING at the start and COMPLETED nodes have only COMPLETED dependencies (`Startable`, which every normalized plan is),
no other writer of the plan during the run, and distinct ids within each injected answer (`Benign`). Only the theorems
that say so also assume that the plan is closed and acyclic (`WellFormed`) and that injections are safe for the plan
they land in (`AllSafe`). `RepeatedIds`, `TwinAnswers` and `EndlessRuns` assume nothing about answers but bounds, where
they name them. `Run` takes the bounds D and B on nesting and answers, as ghost parameters used for termination only.
The hive theorems assume that a new task id is unused and that the submitted backoff is not negative, as the sanitizer
ensures; worker and queue sizes are any numbers, zero included.

## Model

| member | source | states |
|---|---|---|
| Normalization.ExactAcceptance | freetalon/orchestrator/planner.py:38-81 | a node list is accepted if and only if it is non-empty, ids are distinct, no node depends on itself or on an unknown id, and there is no cycle |
| Normalization.CycleErrorIffCyclic | freetalon/orchestrator/planner.py:80-81 | the cycle error is raised exactly for lists with distinct ids and known dependencies that have a cycle |
| Normalization.RejectionNamesFirst | freetalon/orchestrator/planner.py:41-61 | which error a rejected list gets: emptiness first, then duplicate ids, then the first dependency in scan order that is the node itself or unknown, by name |
| LeastOrder.CompleteIffAcyclic | freetalon/orchestrator/planner.py:69-81 | counting the ordered ids detects cycles: all nodes are ordered if and only if the closed graph is acyclic |
| LeastOrder.LeastTopologicalOrder | freetalon/orchestrator/planner.py:69-78 | a complete order is a topological order, and at the first difference from any other topological order it has the node listed earlier |
| NormalizationTheorems.OrderIsLeastTopological | freetalon/orchestrator/planner.py:69-78 | the returned nodes follow the lexicographically least topological order of the input with respect to input positions |
| NormalizationTheorems.NormalizePreservesPayload | freetalon/orchestrator/planner.py:83-103 | every input node appears once, its payload unchanged, the k-th in order named "node-" and the numeral of k, reset to DRAFT without error |
| NormalizationTheorems.NormalizePreservesEdges | freetalon/orchestrator/planner.py:83-103 | the renaming is an isomorphism: the k-th new node depends on the i-th, by its generated name, if and only if the old nodes did |
| NormalizationTheorems.NormalizeIsNormalized | freetalon/orchestrator/planner.py:83-103 | in the result each dependency names an earlier node, and dependencies ascend by number without repetition |
| NormalizationTheorems.NormalizedIsFixed | freetalon/orchestrator/planner.py:38-103 | a list already in normalized form is returned unchanged |
| NormalizationTheorems.NormalizeIdempotent | freetalon/orchestrator/planner.py:38-103 | normalizing the result of a normalization returns it unchanged |
| NormalizationTheorems.PlanTaskIntentNormalizesOnce | freetalon/orchestrator/planner.py:106-158 | the planning path, which normalizes in parsing and again in building, gives a DRAFT plan of the given id with the nodes of a single normalization, or that one's error |
| Normalization.SortKeyOfNormalizedId | freetalon/orchestrator/planner.py:21-22 | the sort key recovers the number of a generated id |
| Text.DecimalIsNumeral | freetalon/orchestrator/planner.py:83-85 | the number in a generated id is written in digits and without leading zeros |
| Text.NumeralIsDecimal | freetalon/orchestrator/planner.py:21-22 | and each such string of digits is the numeral of its value, so writing and reading a number are inverse both ways |
| TopologicalSort.PopLeast | freetalon/orchestrator/planner.py:73 | removes one entry with the least position and keeps every other entry |
| TopologicalSort.Release | freetalon/orchestrator/planner.py:75-78 | after the inner loop, counters count the untaken dependencies and the queue holds exactly the untaken nodes whose counter is zero |
| TopologicalSort.TopologicalOrder | freetalon/orchestrator/planner.py:69-78 | the queue-driven sort computes the order defined without counters and queue |
| Planner.UniqueDependencies | freetalon/orchestrator/planner.py:52-63 | scans one node's dependencies, reports the first bad one, and otherwise lists each once |
| Planner.AddDownstream | freetalon/orchestrator/planner.py:65-66 | appends the node to the adjacency list of each of its dependencies and of nothing else |
| Planner.BuildTables | freetalon/orchestrator/planner.py:47-66 | the validating pass reports the first bad dependency, or fills counters and adjacency lists that describe the graph |
| Planner.RenameDependencies | freetalon/orchestrator/planner.py:89-92 | the sorted set of new names is the list of named dependencies in order of their numbers |
| Planner.NormalizePlanNodes | freetalon/orchestrator/planner.py:38-103 | the whole function, errors included, computes the result the theorems above are about |
| Models.SetNodeMap | freetalon/orchestrator/models.py:95-97 | changing a found node in place changes the lookup table at its id and nowhere else, also when ids repeat |
| Injection.CandidateInjective | freetalon/orchestrator/executor.py:549-553 | no two suffixes give the same candidate id, so the suffix loop cannot revisit one |
| Injection.FreshFrom | freetalon/orchestrator/executor.py:549-553 | the suffix search ends at the first candidate that no node has |
| Injection.FreshIds | freetalon/orchestrator/executor.py:544-555 | the new ids are pairwise distinct and none is in the plan |
| InjectionTheorems.RemappedIds | freetalon/orchestrator/executor.py:544-572 | injected ids are outside the plan, and distinct exactly when the sub-node ids were |
| InjectionTheorems.InjectedEdges | freetalon/orchestrator/executor.py:557-572 | an edge between injected nodes is exactly an edge between the sub-nodes they come from |
| InjectionTheorems.InjectedMap | freetalon/orchestrator/executor.py:579-592 | after an injection every node but the originator is as before; the originator is reset and also waits for the terminals |
| InjectionContracts.InjectKeepsPayload | freetalon/orchestrator/executor.py:557-572 | the i-th appended node has objective, claw, inputs, outputs and acceptance of the i-th sub-node, is DRAFT without error, and its k-th dependency is the new id of the sub-node it names, or the foreign id unchanged |
| InjectionContracts.InjectNamesFresh | freetalon/orchestrator/executor.py:544-555 | the i-th new id is "injected-", the originator's id, a dash and i, with the least number behind it, if any, that no plan node and no earlier new node has |
| InjectionContracts.InjectResetsOriginator | freetalon/orchestrator/executor.py:574-592 | the last node of the originator's id becomes DRAFT without error and gets, once each and in order, the new ids that no injected node depends on and it did not have; its payload and every other node stay |
| InjectionContracts.InjectWithoutOriginator | freetalon/orchestrator/executor.py:579-592 | when the originator is gone the sub-nodes are appended and no node changes |
| InjectionTheorems.InjectedGraphIsJoined | freetalon/orchestrator/executor.py:557-592 | the new dependency graph is the old one joined to the injected one by edges from the originator to the terminals |
| InjectionTheorems.InjectionKeepsPlanIffSafe | freetalon/orchestrator/executor.py:508-592 | the plan stays closed, acyclic and without repeated ids if and only if the injection is safe |
| InjectionTheorems.RepeatedIdsSurvive | freetalon/orchestrator/executor.py:544-555 | repeated sub-node ids always leave the plan with a repeated id |
| InjectionTheorems.OriginatorWaitsForAll | freetalon/orchestrator/executor.py:574-588 | in the graph after the injection the originator transitively depends on every injected node, not only on the terminals |
| Rescheduling.RescheduledAfterAll | freetalon/orchestrator/executor.py:515-519 | along every run after the injection, whenever the originator is dispatched again, runs again or is completed, every injected node is COMPLETED |
| Rescheduling.RunGrows | freetalon/orchestrator/executor.py:579-592 | along every run nodes stay in the plan and dependencies are only added |
| InjectionTheorems.SafeIffAnswerSafe | freetalon/orchestrator/executor.py:557-577 | an injection is safe exactly when the answer is, over sub-nodes and plan as the planner sees them: distinct ids, no cycle, foreign dependencies only on plan nodes that do not wait for the originator |
| InjectionTheorems.NewIdsEmbed | freetalon/orchestrator/executor.py:557-572 | renaming takes the planned graph into the injected one, edge by edge |
| InjectionTheorems.SelfContainedIsSafe | freetalon/orchestrator/executor.py:557-572 | a sub-DAG with distinct ids, inner dependencies and no cycle is safe for every plan |
| SubdagInjector.PickFresh | freetalon/orchestrator/executor.py:548-553 | the suffix loop terminates with the first free candidate |
| SubdagInjector.AssignIds | freetalon/orchestrator/executor.py:544-555 | the loop over the sub-nodes builds the id map with fresh ids |
| SubdagInjector.RemapAll | freetalon/orchestrator/executor.py:557-572 | each sub-node is copied as a draft without error: the id and every dependency that the id map knows are replaced, all other fields are the sub-node's |
| SubdagInjector.InjectSubdag | freetalon/orchestrator/executor.py:508-592 | the whole function, the empty sub-DAG and the missing originator included: appends the sub-nodes field by field with renamed edges, resets the last node of the originator's id and lets it wait for the terminals too, and leaves the rest of the plan as it is |
| ExecutorRuns.CountsRunning | freetalon/orchestrator/executor.py:470-472 | the count is the number of nodes marked RUNNING |
| ExecutorContracts.DispatchTakesAll | freetalon/orchestrator/executor.py:192-207 | a batch has as many tasks of an id as there are nodes of that id that are DRAFT or READY with every dependency found COMPLETED |
| ExecutorContracts.StartDoes | freetalon/orchestrator/executor.py:235-244 | a task that gets the semaphore sets the last node of its id, if that is DRAFT, READY or RUNNING, to RUNNING and changes nothing else; otherwise it changes nothing |
| ExecutorContracts.CountsRequests | freetalon/orchestrator/executor.py:268-280 | along every run the counter of a node is the number of its requests so far, up to three |
| ExecutorContracts.ThreeRequestsInject | freetalon/orchestrator/executor.py:268-303 | along every run a node's first three requests inject the planned nodes and return it to DRAFT; from the fourth on it is FAILED by the loop guard and nothing is injected |
| ExecutorRuns.SettledShows | freetalon/orchestrator/executor.py:254-328 | an outcome without injection settles the node with the status and the very error of its branch, a missing tool naming the assigned claw or else the id, a returned result merged over the inputs, and everything else unchanged |
| ExecutorSafety.StepKeepsInv | freetalon/orchestrator/executor.py:185-328 | every step keeps: distinct ids, dependencies of COMPLETED nodes COMPLETED, RUNNING nodes exactly the semaphore holders with their dependencies met, pending tasks runnable and dispatched once |
| ExecutorSafety.StepKeepsWellFormed | freetalon/orchestrator/executor.py:508-592 | a closed and acyclic plan stays so along every step whose injection is safe |
| ExecutorSafety.StartMarksRunning | freetalon/orchestrator/executor.py:233-242 | a task that gets the semaphore always finds its node startable: the race guard never fires in a closed run |
| ExecutorSafety.FinishKeepsInv | freetalon/orchestrator/executor.py:248-328 | the section after a handler changes its own node and appends drafts, so no sibling's update is lost |
| ExecutorRuns.RunKeepsInv | freetalon/orchestrator/executor.py:185-214 | the invariant holds in every reachable state |
| ExecutorRuns.RunKeepsWellFormed | freetalon/orchestrator/executor.py:185-214 | a closed and acyclic plan stays so along every run with safe injections |
| ExecutorRuns.StepTouchesOnlyItsNode | freetalon/orchestrator/executor.py:235-316 | a task's step changes only its own, unsettled node; the loop's steps change none |
| ExecutorRuns.RunKeepsSettled | freetalon/orchestrator/executor.py:431-438 | a node that is COMPLETED, FAILED, CANCELLED or NEEDS_TOOL never changes again |
| ExecutorRuns.OutcomeIsFinal | freetalon/orchestrator/executor.py:305-328 | what an outcome makes of its node, status, error of its branch and merged inputs, is still there when the run ends |
| ExecutorRuns.RunKeepsOrder | freetalon/orchestrator/executor.py:305-316 | nodes complete once each and after all their dependencies in the current, possibly grown, graph |
| ExecutorRuns.InFlightBounded | freetalon/orchestrator/executor.py:192-214 | at most max_concurrency nodes are RUNNING, none between batches, and the sleeping branch is unreachable |
| ExecutorLiveness.StalledIsBlocked | freetalon/orchestrator/executor.py:192-197 | when nothing is runnable, each unstarted node transitively depends on a FAILED, CANCELLED or NEEDS_TOOL node |
| ExecutorLiveness.FinishedRunIsTruthful | freetalon/orchestrator/executor.py:216-224 | with safe injections a finished run is never RUNNING, is COMPLETED if and only if all nodes are, and leaves only blocked nodes unstarted |
| ExecutorLiveness.FinishedRunningIff | freetalon/orchestrator/executor.py:216-224 | for every run with distinct ids, safe or not: RUNNING at the end if and only if no node is unsuccessful and some unstarted node names an unknown node or waits for itself; COMPLETED if and only if all nodes are; FAILED and CANCELLED by the precedence FAILED, CANCELLED, NEEDS_TOOL of the nodes' statuses |
| ExecutorLiveness.ProgressIff | freetalon/orchestrator/executor.py:185-235 | some step is enabled before the end if and only if the semaphore admits someone or no task waits for it |
| ExecutorLiveness.NormalizedIsStartable | freetalon/orchestrator/planner.py:127-141 | whatever the planner accepts is closed, acyclic and all DRAFT, and the executor may run it |
| ExecutorLiveness.NormalizedIsSafe | freetalon/orchestrator/executor.py:280-284 | a sub-DAG planner that normalizes its answer is safe for every plan |
| ExecutorLiveness.RunCancelsNone | freetalon/orchestrator/executor.py:185-328 | the executor never cancels a node |
| ExecutorLiveness.PlannedRunEndsTruthfully | freetalon/orchestrator/executor.py:148-224 | end to end: a planned reply, run under any interleaving with safe injections, ends COMPLETED, every node completed in a topological order of the final graph, or FAILED, with a failed or tool-less node and only nodes unstarted that such a node blocks; no node is CANCELLED |
| ExecutorTermination.StartsBounded | freetalon/orchestrator/executor.py:268-280 | under every interleaving a node is dispatched at most four times |
| ExecutorTermination.StepLowersMeasure | freetalon/orchestrator/executor.py:185-214 | every step lowers a measure of the growing plan |
| ExecutorTermination.MeasureNonNegative | freetalon/orchestrator/executor.py:185-214 | the measure is bounded below in every reachable state |
| ExecutorTermination.RunLengthBounded | freetalon/orchestrator/executor.py:185-303 | with distinct ids in each answer, nesting at most D and answers of at most B nodes, a run dispatches at most N f(0) nodes, where f(D) = 4 and f(d) = 4 + 3 B f(d+1), and takes at most 4 N f(0) + 1 steps |
| ExecutorLimits.UnsafeInjectionEndsRunning | freetalon/orchestrator/executor.py:557-590 | from any plan of one unstarted node: when the planned prerequisite waits for the node that asked or for an unknown one, the finished run reports RUNNING |
| RepeatedIds.StepKeepsTrapped | freetalon/orchestrator/executor.py:238-241 | no step of any task or loop turn, whatever it answers, frees a runnable node in front of a settled one of its id |
| RepeatedIds.TrappedNeverEnds | freetalon/orchestrator/executor.py:192-207 | from such a state no run ends |
| RepeatedIds.TrappedRunsOn | freetalon/orchestrator/executor.py:192-207 | and runs of every length exist |
| TwinAnswers.RepeatedIdsTrap | freetalon/orchestrator/executor.py:544-572 | from any plan of one unstarted node, one answer of two nodes with one id, unnested, leads to such a state |
| TwinAnswers.TwinsRunTwice | freetalon/orchestrator/executor.py:199-244 | on the way, with two permits, two tasks of one node run at once |
| EndlessRuns.StepKeepsWeak | freetalon/orchestrator/executor.py:185-328 | ids repeated or not: RUNNING nodes are those that lookup finds for running tasks, and the sleeping branch is never taken |
| EndlessRuns.StepDescends | freetalon/orchestrator/executor.py:185-328 | ids repeated or not: every step but the dispatch of a shadowed node lowers a lexicographic measure |
| EndlessRuns.EndlessIsTrapped | freetalon/orchestrator/executor.py:185-214 | every endless run with bounded nesting and answers comes to a state with repeated ids from which no run ends |
| ExecutorLimits.NestingIsUnbounded | freetalon/orchestrator/executor.py:268-303 | without a bound on nesting, safe runs with any number of dispatches exist |
| ExecutorLimits.SingleNodeIsLonely | freetalon/orchestrator/executor.py:174-183 | such runs start from any plan of one unstarted node |
| ScheduleIndependence.FinishedIsExpected | freetalon/orchestrator/executor.py:199-209 | with handlers that are functions and no injection, a finished run leaves each node as the recursive definition says: settled by its handler if its dependencies complete, otherwise untouched |
| ScheduleIndependence.ExpectedIgnoresConcurrency | freetalon/orchestrator/executor.py:139 | that definition does not depend on max_concurrency |
| ScheduleIndependence.SchedulesAgree | freetalon/orchestrator/executor.py:199-209 | two finished runs under any interleavings and any max_concurrency end with the same nodes and the same plan status |
| Executor.Executor.RecordFailure | freetalon/orchestrator/executor.py:407-418 | persists the failure of the one node; a missing plan or node changes nothing |
| Executor.Executor.HandleMissingCapability | freetalon/orchestrator/executor.py:387-396 | persists NEEDS_TOOL for the one node |
| Executor.Executor.BeginNode | freetalon/orchestrator/executor.py:235-244 | takes a permit and persists RUNNING, or gives up when the node is gone or settled |
| Executor.Executor.ResolveMissing | freetalon/orchestrator/executor.py:254-303 | no planner, guard exhausted, planner error and injection, with the counter raised before the planner is asked |
| Executor.Executor.CompleteNode | freetalon/orchestrator/executor.py:250-328 | the section after a handler, given the assigned claw or else the node's id as capability, makes the state machine's change to store and counters and returns the permit |
| Executor.Executor.RunBatch | freetalon/orchestrator/executor.py:199-209 | a batch, in any order of starts and finishes, is a run of the state machine that terminates with no task left |
| Executor.Executor.Run | freetalon/orchestrator/executor.py:148-224 | terminates for distinct ids and bounded answers; an absent plan is reported; otherwise the stored plan, the counters and the returned plan are those of a finished run of the state machine in which each handler answered for the node's assigned claw, or its id if it has none, and the node's inputs at that step; the status is RUNNING exactly in the hopeless case, and truthful when injections were safe |
| HiveSafety.StepKeepsInv | freetalon/hive.py:138-295 | every step keeps: active tasks within max_queue_size, futures within worker_count, RUNNING exactly the outstanding futures, attempts, result and error as the status says, the state file equivalent to memory |
| HiveSafety.SubmitKeepsInv | freetalon/hive.py:144-156 | admission never exceeds the queue size, and a new record starts queued with no attempt, result or error |
| HiveSafety.TickKeepsInv | freetalon/hive.py:234-256 | a tick never exceeds the worker count, also when a retry replaces a future that is not yet done |
| HiveSafety.CompletedOk | freetalon/hive.py:268-292 | after an attempt: CANCELLED if and only if asked; otherwise SUCCEEDED if and only if the action returned, RETRYING if and only if it raised with attempts left, FAILED if and only if it raised with none left; result, error and next due time as the branch says, every other field unchanged |
| HiveContracts.SubmitDoes | freetalon/hive.py:138-162 | the submission step, over statuses and field by field: admitted if and only if fewer than max_queue_size tasks are queued, retrying or running |
| HiveContracts.CancelDoes | freetalon/hive.py:164-181 | the cancellation step: which requests are accepted, and the one field an accepted one changes |
| HiveContracts.TickDoes | freetalon/hive.py:234-256 | the tick: the number of tasks dispatched is the lesser of the due tasks and worker_count minus the futures not done, they are the first due ones in insertion order, and a future is in the table exactly when its task was dispatched or it was there and not done |
| HiveContracts.ChosenAreDispatched | freetalon/hive.py:239-254 | the tasks whose attempt a tick raises are exactly those it chose |
| HiveContracts.CompleteDoes | freetalon/hive.py:268-293 | the section after an attempt changes this record, as the outcome says, this future and the state file only |
| HiveContracts.LoadKeepsLast | freetalon/hive.py:380-393 | loading takes the last record of an id as it is, except that a running one becomes FAILED with the recovery error |
| HiveSafety.CompleteKeepsInv | freetalon/hive.py:268-293 | an outcome keeps the whole invariant |
| HiveSafety.EmptyInv | freetalon/hive.py:59-67 | the empty table satisfies the invariant |
| HiveSafety.LoadInvertsRecords | freetalon/hive.py:372-395 | loading what was persisted gives the same order and the same tasks, recovered |
| HiveSafety.RestartRecovers | freetalon/hive.py:380-393 | a restart loses and revives no task, fails exactly the running ones, gives what a restart from memory gives, and is idempotent |
| HiveSafety.RestartKeepsInvIff | freetalon/hive.py:380-395 | a restart, also under another tuning, re-establishes every invariant if and only if the waiting tasks fit the new queue |
| HiveSafety.RestartKeepsInv | freetalon/hive.py:380-395 | under the same tuning it always does |
| HiveRuns.StepRecord | freetalon/hive.py:138-295 | the only ways a step can change one task's record |
| HiveRuns.RecordStepLowers | freetalon/hive.py:248-292 | every change of a record lowers its measure, and finished records do not change |
| HiveRuns.ChangesBounded | freetalon/hive.py:248-292 | over any run, restarts included, a task changes at most 4 max_retries + 5 times after submission |
| HiveRuns.RunKeepsTerminal | freetalon/hive.py:169-170 | succeeded, failed and cancelled tasks never change again |
| HiveRuns.CancelTakesEffect | freetalon/hive.py:164-181 | a queued or retrying task becomes CANCELLED and a running one is marked, by every request; a request for any other id changes nothing |
| HiveRuns.RunKeepsCancel | freetalon/hive.py:164-293 | after an accepted cancellation the task never succeeds, retries or is dispatched again, and without a restart it can only end cancelled |
| HiveContracts.SlotsAllTakenIff | freetalon/hive.py:247-254 | with more tasks due than slots free, a tick fills every worker slot if and only if no task that got an attempt still has a future that is not done |
| HiveRuns.SlotLeftIdle | freetalon/hive.py:247-254 | two workers, two due tasks, one of them with its old future still in the table: one slot stays idle |
| HiveRuns.IdleSlotReached | freetalon/hive.py:138-293 | a run from the empty table comes to a state with an idle worker slot and a due task that waits |
| HiveRuns.RetrySpacing | freetalon/hive.py:239-276 | a task dispatched for attempt R + 1 was first dispatched at least backoff R (R + 1) / 2 earlier, along every run under a clock that does not go back |
| HiveController.HiveController.constructor | freetalon/hive.py:59-67 | a new controller on a state file left under any tuning is the restarted hive, valid if and only if the waiting tasks fit its queue |
| HiveController.HiveController.LoadState | freetalon/hive.py:380-393 | the loading loop builds the recovered table in file order |
| HiveController.HiveController.PersistState | freetalon/hive.py:372-378 | writes the records of the table in insertion order |
| HiveController.HiveController.SubmitTask | freetalon/hive.py:138-162 | admits exactly when fewer than max_queue_size tasks are queued, retrying or running; then appends the new record, given field by field, and persists; otherwise nothing changes |
| HiveController.HiveController.CancelTask | freetalon/hive.py:164-181 | accepts exactly ids in the table that are queued, retrying or running; the first two change only in status, to CANCELLED, the third only in its cancellation mark; refused requests change nothing |
| HiveController.HiveController.SchedulerTick | freetalon/hive.py:234-256 | drops the done futures and gives an attempt to as many due tasks as slots are free, the first in insertion order; every other record stays, and the table is persisted |
| HiveController.HiveController.DispatchChosen | freetalon/hive.py:248-254 | the dispatch loop marks exactly the chosen tasks running, counts the attempt and files their futures |
| HiveController.HiveController.RecordOutcome | freetalon/hive.py:268-293 | the record changes as the outcome says and no other does, its future is written but not done, and the table is persisted, as one section |
| HiveRuns.DueInOrder | freetalon/hive.py:239-248 | due tasks come in insertion order, so few slots go to the tasks submitted first |
| YamlPrinter.EntryStep | installer.py:203-213 | appending an entry's strings, its nested text as one of them, extends the printed block by that entry |
| YamlContracts.EntryText | installer.py:202-214 | the text of a dict with one more entry: what came before, a newline, the padded key and a colon, then the scalar, the brackets of an empty container, or the text of the value two columns further right on new lines |
| YamlContracts.ItemText | installer.py:216-228 | the text of a list with one more item: what came before, a newline, padding and a dash, then the scalar, the quoted brackets of an empty container, or the text of the item two columns further right without its first padding |
| YamlContracts.EmptyText | installer.py:202-228 | an empty container alone prints as nothing |
| YamlContracts.ScalarText | installer.py:230 | a scalar alone is its token behind the padding |
| YamlText.BlockShifts | installer.py:204-226 | printing at a larger indentation is printing and then shifting every line |
| YamlText.JoinNested | installer.py:206-213 | appending a nested text as one list element joins like appending its lines |
| YamlText.LinesOfText | installer.py:213-228 | for keys and scalars that each keep to one line, splitting the text gives the printed lines back, and reading a line recovers its indentation and content |
| YamlRoundTrip.ParseBlock | installer.py:200-228 | parsing the lines of a block, whatever stands to its left after it, reads that block and stops there |
| YamlRoundTrip.ReadSameIff | installer.py:217-227 | what is read back is the tree itself exactly when no list holds an empty container |
| YamlText.ParseOfText | installer.py:193-230 | every tree but an empty container parses back to the tree its text stands for |
| YamlText.RoundTripIff | installer.py:193-230 | the text parses back to the tree if and only if the tree is no empty container and holds none as a list item |
| YamlText.TextInjective | installer.py:193-230 | trees that round-trip print to different texts |
| YamlText.EmptyItemPrintsAsString | installer.py:226-227 | an empty list or dict as a list item prints as the string of its brackets, so two trees have one text, which reads back as the string |
| YamlPrinter.NestedItem | installer.py:218-225 | the first nested line, stripped, behind the dash, and the other lines where they stand, are the item's lines |
| YamlPrinter.YamlDump | installer.py:193-230 | the recursive printer with its local list of strings computes the text the theorems above are about |

## Left out

- Executor.Executor.Run: assumes distinct ids and bounds in the planner's answers, and a permit if anything is runnable, because otherwise the source's loop need not end, as EndlessRuns and ExecutorLimits show.
- YamlPrinter.YamlDump: assumes keys without line breaks and without a blank in front, because the source then splits or strips the key itself; other keys, also with inner blanks and colons, are covered.
- Handler, action and LLM bodies; they are arbitrary outcomes, or functions of their inputs for schedule independence.
- Values of inputs, results and payloads are kept as text; schema validation (and with it node lists given as dictionaries), JSON recovery and intent or plan metadata are not part of this model.
- The plan id's hash is a parameter.
- Timestamps (`touch`, `updated_at`), worker ids, heartbeats, logging and the audit file.
- SQLite, files and locks as such: a plan's save, the state file's write and a section under a lock are atomic; a state file that cannot be read is not modelled.
- Other writers of a running plan, plans that start with a RUNNING node, asyncio cancellation of a task.
- Scaffolder exceptions other than `CapabilityNameError`: such an exception leaves the node RUNNING in the store and is swallowed by `gather`.
- Whether the scaffold was proposed or rejected: the node's status is the same, and the error names the capability in both cases.
- Plans, nodes and task records are values that are replaced, so aliasing is not captured; in particular `submit_task` returns the live record, which later steps change.
- The heap inside the queue of ready nodes: it is a list from which the least entry is removed.
- Freshness of a task id from `uuid4` is assumed, and with it that a submission never replaces a task.
- The ML capability gate, the sanitizers and the tuning arithmetic: bounds they give are assumptions or parameters.
- Reading methods (`get_task`, `list_tasks`, `status`) and `start`/`stop` of the scheduler thread.
- YAML keys that need quoting and character-level escaping of scalars: a scalar is its rendered token, line breaks are newlines only, and white space in front is blanks only; the parser and the round trip speak of plain keys without blanks and colons.
- The dashboard, CLI, HTTP API, Docker, mesh, and hardware detection.
