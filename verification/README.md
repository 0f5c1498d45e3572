# Nexus Agent: scheduling, orchestration, budget and event streams in Dafny

This project models the parts of Nexus Agent that decide what runs, in which order, how often,
and what a user interface is shown of it, and proves what those parts promise.

* `Options`, `Text`, `Folds`: absent values, text helpers, and running a step over a sequence.
* `Ids`, `Graphs`, `Plan`: node ids with Python's string order and `sorted`; dependency chains,
  cycles and the pigeonhole argument; the execution graph's nodes.
* `WaveScheduler`, `WaveTheorems`: `_rebuild_waves` as a loop over a shrinking dictionary, proved
  against a set-based levelling, and what that levelling is.
* `WaveBuilder`: the compiler's own levelling by in-degree counters, proved to succeed exactly on
  acyclic graphs without dangling dependencies and to ship the waves the executor would rebuild.
* `RetryPatch`, `FanOut`, `FanOutTheorems`: the retry sub-graph, the executor's choice of graph, and
  the expansion of map nodes into one task per item.
* `Recovery`, `Orchestration`, `OrchestrationRuns`, `StalePatch`: failure collection and the recovery
  decision; the agent graph as a transition system in which a node whose body is not modelled may
  change any field its contract lists under `writes` and no other; safety and bounds over all runs.
* `Budget`, `BudgetTheorems`: the `ReasoningBudget` object, its ledger, its merge and its carrier.
* `EventStream`, `SdkStream`, `EventStreamStandard`, `EventStreamRoundTrip`: the browser's and the
  SDK's incremental parsers and the rules of the WHATWG HTML Living Standard (9.2.5 and 9.2.6).
* `RunEvents`, `RunLifecycle`, `DevProjection`: the run reducer and the developer console's own fold.
* `PlanSupport`, `ScenarioScore`: the memoised support walk and the scenario score that uses it.

`dafny verify dfyconfig.toml` checks everything.

## Where the code and its comments differ

The model follows the code. Each of these is a lemma, most of them an exact condition.

* `_rebuild_waves` says that cyclic nodes are dropped; none is. The lowest id is promoted and every
  id is placed once (`WavesPartitionNodes`, `LevelKinds`).
* The compiler's wave builder reports every failure as a detected cycle, but it counts raw list entries,
  so a dependency on an unknown id fails an acyclic graph as well (`AllReachedIff`); the executor's
  `_rebuild_waves` accepts both.
* A retry is meant to run only the affected sub-graph. A failed fan-out item fails under a generated
  id, so unless some failed id is a node id there is no patch and the whole graph runs again
  (`ItemFailuresRerunEverything`).
* Only a retrying reflection writes the graph patch and nothing clears it, so after a retry the
  executor keeps running the patch, even when a new graph has been compiled and approved. It runs the
  compiled graph exactly when no patch is pending or the patch happens to be that very graph
  (`RunsCompiledGraphIff`); `StalePatchIsRun` is a complete run in which it does not.
* An "uncertain" result is said never to be retried; it is, exactly when a retry is left and nothing
  forbids recovery (`UncertainIsRetriedIff`).
* Concurrent copies of the budget are said not to overspend together; for unit reservations they
  stay within a limit exactly when the calls they may still make fit into what was left
  (`ForksStayWithinLimitIff`), and the merged ledger is exact exactly when at most one of them spent
  on the key (`MergeExactIff`).
* `settle_cost` is said never to count twice; the actual cost is added to the reserved estimate
  (`SettlementIsAdded`). The recovery dimension is never recorded (`RecoveryNeverRecorded`), and a
  negative reservation clears an exhausted ledger exactly when it is on the only spent dimension and
  takes it below its limit (`ReservationReopensIff`, with `NegativeReservationReopens` for the default
  limits); no caller in the repository passes a negative
  amount, so results about exhaustion are stated for amounts that are not negative.
* The support walk carries a set of visited nodes and never reads it: it ends exactly on acyclic
  plans (`FinishesIffAcyclic`); on a cyclic one it exceeds the interpreter's recursion limit, whatever
  that is, and scoring raises.
* Scoring a scenario that expects a failure raises too, because the honesty test applies `any` to a
  boolean (`ScoreScenario`). The scenarios in the repository say `honest_failure` instead, which scoring
  does not read; none sets `failure`.
* The browser parser hands over each data line on its own, trimmed, drops a blank one, and leaves an
  unnamed event without a name; the standard joins the lines as they are and says "message". The two
  agree exactly when every frame with data has one data line and a name, and neither is blank or has
  white space at an end (`BrowserAgreesWithStandardIff`; `TwoDataLines` is an event they read
  differently).
* With CR LF line ends the SDK parser leaves a carriage return on every event name, so it yields the
  browser's events exactly when every datum has a type of its own (`SdkAgreesOnCrlfIff`). It never
  clears a name, so on LF the same is asked of the data in unnamed frames (`SdkAgreesOnLfIff`,
  `UnnamedFrameKeepsName`). Both are about names and data without white space at their ends.

## Model

| member | source | states |
|---|---|---|
| WaveScheduler.RebuildWaves | nexus-agent/src/nexus/agent/graph.py:489-514 | shrinking the dictionary of unmet dependencies yields exactly the waves of the set-based levelling, for every graph, and terminates |
| WaveScheduler.LevelledIffLevels | nexus-agent/src/nexus/agent/graph.py:497-514 | the waves are the only sequence in which each wave is the front of what the earlier ones left: all ready ids, or the lowest id alone when none is ready |
| Ids.LeIsCodePointOrder | nexus-agent/src/nexus/agent/graph.py:503-509 | the order behind `sorted` is code point order: one id is a prefix of the other, or smaller where the two first differ |
| WaveTheorems.EdgesAre | nexus-agent/src/nexus/agent/graph.py:490-494 | the edges are the dependencies that name a node of the graph, and no others |
| WaveTheorems.WavesPartitionNodes | nexus-agent/src/nexus/agent/graph.py:496-514 | on every graph the waves hold each node id exactly once; none is empty and in each the ids stand in code point order |
| WaveTheorems.PlacedOnce | nexus-agent/src/nexus/agent/graph.py:496-514 | an id is a node of the graph if and only if some wave holds it, and then only one does |
| WaveTheorems.LevelKinds | nexus-agent/src/nexus/agent/graph.py:498-513 | a wave is a promotion if and only if every id left waits for another id left; otherwise it holds exactly the ids whose dependencies all sit in earlier waves |
| WaveTheorems.PromotedIsLowest | nexus-agent/src/nexus/agent/graph.py:500-508 | the promoted id is alone in its wave and comes, in code point order, before every other id left |
| WaveTheorems.LateDependency | nexus-agent/src/nexus/agent/graph.py:499-508 | a dependency can come no earlier than its consumer only if the consumer is a promoted victim alone in its wave |
| WaveTheorems.WaveMembersIndependent | nexus-agent/src/nexus/agent/graph.py:509-513 | two different members of one wave never depend on each other |
| WaveTheorems.AcyclicNeverPromotes | nexus-agent/src/nexus/agent/graph.py:499-508 | an acyclic graph never promotes a victim |
| WaveTheorems.LevelIsLongestChain | nexus-agent/src/nexus/agent/graph.py:489-514 | on an acyclic graph the wave index of a node is the length of its longest in-graph dependency chain |
| WaveTheorems.ValidIffAcyclic | nexus-agent/src/nexus/agent/graph.py:489-514 | the waves respect all dependencies if and only if the graph is acyclic, if and only if any assignment of steps does |
| WaveTheorems.ScheduleIsMinimal | nexus-agent/src/nexus/agent/graph.py:489-514 | no valid schedule starts any node earlier or has fewer waves |
| WaveTheorems.SubPlanNeedsNoMore | nexus-agent/src/nexus/agent/graph.py:490-494 | a sub-graph of an acyclic graph places no node later and needs no more waves |
| WaveTheorems.OutsideDependenciesIrrelevant | nexus-agent/src/nexus/agent/graph.py:490-494 | dependencies on ids outside the sub-graph do not influence its waves |
| WaveBuilder.BuildWaves | nexus-agent/src/nexus/compiler/codegen.py:368-406 | the counters produce waves if and only if every dependency names a node and there is no cycle; then the waves hold the levels of the executor's scheduler, ids once each, ordered by when the wave before frees them and then by iteration order; otherwise the error counts the nodes never reached |
| WaveBuilder.WavesDetermined | nexus-agent/src/nexus/compiler/codegen.py:385-397 | contents and order together leave one possible list of waves, so the result depends on the nodes and their iteration order alone |
| WaveBuilder.EarlierIff | nexus-agent/src/nexus/compiler/codegen.py:392-397 | one node is queued before another exactly when the wave holds a dependency of the other that finishes after all of its own, or neither outlasts the other and it comes first in iteration order |
| WaveBuilder.FinishWave | nexus-agent/src/nexus/compiler/codegen.py:392-397 | finishing a wave leaves every counter at the number of its unfinished entries and queues, once each, exactly the nodes whose counter fell to zero, by the place of their last dependency in the wave and then by iteration order |
| WaveBuilder.AllReachedIff | nexus-agent/src/nexus/compiler/codegen.py:399-404 | every node is reached if and only if all dependencies name nodes and there is no cycle |
| WaveBuilder.ReachedIsLeast | nexus-agent/src/nexus/compiler/codegen.py:385-397 | what is reached from the roots is the least set of ids holding every node whose dependencies it holds |
| WaveBuilder.ShippedWavesAreValid | nexus-agent/src/nexus/agent/graph.py:710-713 | waves shipped by the compiler partition the nodes in dependency order, as the fan-out needs, and agree wave by wave with the rebuilt ones up to order inside a wave |
| RetryPatch.BuildGraphPatch | nexus-agent/src/nexus/agent/nodes/reflection_node.py:148-184 | the loops select exactly the failed nodes and their direct dependents, and nothing is returned when that leaves no node |
| RetryPatch.PatchHolds | nexus-agent/src/nexus/agent/nodes/reflection_node.py:148-184 | a node is in the patch, unchanged, if and only if it failed or names a failed dependency; there is no empty patch |
| RetryPatch.RetryNeedsNoMoreWaves | nexus-agent/src/nexus/agent/nodes/reflection_node.py:148-184 | a retry of an acyclic graph places no node later than the full run and never needs more waves |
| RetryPatch.RetryIsPartialIff | nexus-agent/src/nexus/agent/graph.py:629-633 | the executor runs the whole graph again if and only if the failures select no node or every node |
| FanOut.ItemIdInjective | nexus-agent/src/nexus/agent/graph.py:740 | generated ids of different map nodes or positions differ |
| FanOut.FillTasks | nexus-agent/src/nexus/agent/graph.py:715-794 | the loop over the nodes leaves exactly the tasks each node stands for and the fan-out ids of each map node |
| FanOut.ExpandWave | nexus-agent/src/nexus/agent/graph.py:796-804 | a wave is rewritten by replacing each member with what stands for it |
| FanOut.BuildTasks | nexus-agent/src/nexus/agent/graph.py:710-809 | tasks and rewritten waves for a given graph, its waves rebuilt when it ships without any |
| FanOut.WavesAre | nexus-agent/src/nexus/agent/graph.py:710-713 | the graph's own waves are used as they are; only a graph without any gets rebuilt ones |
| FanOutTheorems.ItemTaskIs | nexus-agent/src/nexus/agent/graph.py:738-756 | unless an id is doubled, the task of the i-th item carries the map node's call and dependencies and exactly that item |
| FanOutTheorems.SingleTaskIs | nexus-agent/src/nexus/agent/graph.py:761-783 | a tool, and a map without items, has one task under its own id with its own call and dependencies |
| FanOutTheorems.ConditionalTaskIs | nexus-agent/src/nexus/agent/graph.py:784-794 | a conditional calls no tool and carries its condition and each branch on its own side |
| FanOutTheorems.TaskIdsAre | nexus-agent/src/nexus/agent/graph.py:726-794 | there is a task for every item and for every tool, conditional and map without items, and no other |
| FanOutTheorems.TasksRunWithOwner | nexus-agent/src/nexus/agent/graph.py:796-809 | without a clash the tasks of a node run in exactly the waves that hold the node |
| FanOutTheorems.EachTaskOnceIffNoClash | nexus-agent/src/nexus/agent/graph.py:726-809 | if the waves hold every node once, every task is scheduled exactly once if and only if no node that does not fan out carries a generated id |
| FanOutTheorems.RebuiltWavesRunEachTaskOnce | nexus-agent/src/nexus/agent/graph.py:710-809 | the same for a graph without waves, cyclic or not |
| FanOutTheorems.TaskOrderFollowsDependencies | nexus-agent/src/nexus/agent/graph.py:796-809 | if the waves respect the dependencies and no node that does not fan out carries a generated id, every task of a dependency is in a strictly earlier wave than every task of its consumer |
| FanOutTheorems.ScheduleIsValid | nexus-agent/src/nexus/agent/graph.py:710-713 | the rebuilt waves of an acyclic graph meet both hypotheses: each node once, dependencies strictly earlier |
| FanOutTheorems.TaskMapSize | nexus-agent/src/nexus/agent/graph.py:726-794 | there are at most tools + conditionals + the sum over maps of max(1, items) tasks, and exactly that many if and only if no node with a task of its own carries a generated id |
| FanOutTheorems.ItemFailuresRerunEverything | nexus-agent/src/nexus/agent/nodes/reflection_node.py:160-178 | when dependencies name nodes, a patch exists if and only if some failed id is a node id; otherwise the whole graph is run again |
| Recovery.CollectFailures | nexus-agent/src/nexus/agent/graph.py:163-179 | the failures are the results that did not succeed, followed by the rejected ids no failed result mentions |
| Recovery.CollectedIff | nexus-agent/src/nexus/agent/graph.py:163-179 | a failure is collected if and only if it is a result that did not succeed, or a validation error of a rejected task that has not failed |
| Recovery.FailedResultsFirst | nexus-agent/src/nexus/agent/graph.py:163-179 | the failed results come before the rejected tasks |
| Recovery.RetryIff | nexus-agent/src/nexus/agent/recovery.py:83-137 | exactly when the decision is to retry |
| Recovery.ReplanIff | nexus-agent/src/nexus/agent/recovery.py:83-137 | exactly when the decision is to replan |
| Recovery.RoundIs | nexus-agent/src/nexus/agent/recovery.py:83-137 | the round a decision carries |
| Recovery.UncertainIsRetriedIff | nexus-agent/src/nexus/agent/recovery.py:126-161 | exactly when an uncertain result is retried |
| Recovery.DecisionIgnoresOrder | nexus-agent/src/nexus/agent/recovery.py:97-137 | the decision depends on the failures as a multiset only |
| Recovery.MoreFailuresNeverRelax | nexus-agent/src/nexus/agent/recovery.py:97-137 | further failures never turn a replan into anything else nor a retry into giving up |
| Recovery.RejectedTaskNeverRetried | nexus-agent/src/nexus/agent/graph.py:163-200 | a validation failure on an id no failed result mentions never leads to a retry |
| Text.LowerIs | nexus-agent/src/nexus/agent/recovery.py:139-161 | statuses are compared with every capital letter made small and nothing else changed |
| Orchestration.RecoveryManagerNode | nexus-agent/src/nexus/agent/graph.py:155-210 | the node takes a step the transition system allows and changes nothing but the decision; it asks for a replan, or for a retry, exactly as stated on the results, the rejected ids and the limits; never for healing |
| Orchestration.ReplanNeedsRounds | nexus-agent/src/nexus/agent/recovery.py:83-95 | the node never asks for healing, and for a replan only while rounds are left and no workflow owns the run |
| Orchestration.EntersExecutor | nexus-agent/src/nexus/agent/graph.py:306-316 | the executor is entered from a gate that neither was rejected nor left the approval ungranted, or from a retrying reflection, and from nowhere else |
| Orchestration.EntersApprovalGate | nexus-agent/src/nexus/agent/graph.py:266-303 | the gate is entered after a validation that passed, or from a resumed approval |
| Orchestration.EntersCompilation | nexus-agent/src/nexus/agent/graph.py:389-420 | exactly when each of the compiler, the optimizer and the estimator is entered |
| Orchestration.EntersPlanning | nexus-agent/src/nexus/agent/graph.py:1112-1251 | exactly when the planner, its validator and the requirement collector are entered |
| Orchestration.EntersConversation | nexus-agent/src/nexus/agent/graph.py:213-262 | exactly when an approval is resumed, a workflow taken up and the router entered again |
| Orchestration.EntersRecovery | nexus-agent/src/nexus/agent/graph.py:347-386 | exactly when results are aggregated, retried and replanned |
| Orchestration.EntersResponse | nexus-agent/src/nexus/agent/graph.py:1112-1251 | exactly when a turn is answered and when it ends |
| Orchestration.PlanWritersAre | nexus-agent/src/nexus/agent/contracts.py:49-160 | for each field about the plan, the nodes whose contract lets them write it |
| Orchestration.RouteWritersAre | nexus-agent/src/nexus/agent/contracts.py:49-340 | the same for the fields that route a turn |
| Orchestration.RunWritersAre | nexus-agent/src/nexus/agent/contracts.py:160-275 | the same for the fields about approval, execution and recovery |
| Orchestration.ReflectRetriesIff | nexus-agent/src/nexus/agent/nodes/reflection_node.py:60-119 | reflection retries if and only if something failed in a graph with nodes, retries are left in all and for some failed task, and no more than the allowed share failed |
| Orchestration.RetryIs | nexus-agent/src/nexus/agent/nodes/reflection_node.py:74-141 | a retry is cut down to the failed tasks with retries left and their direct dependents, and counts exactly those tasks again |
| Orchestration.ReflectionStepIs | nexus-agent/src/nexus/agent/nodes/reflection_node.py:43-141 | every reflection either retries under exactly these conditions, with that patch, those counts and one retry more, or finalizes and leaves them as they were |
| OrchestrationRuns.ExecutorRunsAfterApproval | nexus-agent/src/nexus/agent/graph.py:1112-1251 | in every run the executor is entered only after a gate visit that left no rejection and did not withhold the grant, with nothing compiled since and the execution graph unchanged since the gate saw it |
| OrchestrationRuns.CompiledGraphIsChecked | nexus-agent/src/nexus/agent/graph.py:1152-1209 | in every run, what was compiled last is estimated, passes validation and is not rejected by the gate, in this order, before the executor is entered, on retries and conversational detours too |
| OrchestrationRuns.SafetyRejectedRunsNothing | nexus-agent/src/nexus/agent/graph.py:213-218 | a run whose safety check rejected visits the router, the response node and the memory helper only |
| OrchestrationRuns.PatchIsLastWritten | nexus-agent/src/nexus/agent/contracts.py:248-261 | at every step the pending patch is the one the last retrying reflection wrote, or the initial one |
| OrchestrationRuns.RunsCompiledGraphIff | nexus-agent/src/nexus/agent/graph.py:629-633 | exactly when the executor runs the execution graph in force |
| OrchestrationRuns.RunsApprovedNodesIff | nexus-agent/src/nexus/agent/graph.py:629-633 | everything the executor runs is part of the graph in force if and only if no patch is pending or the last one is a sub-plan of that graph |
| OrchestrationRuns.CurrentPatchRunsApprovedNodes | nexus-agent/src/nexus/agent/nodes/reflection_node.py:86-145 | while nothing was compiled since the last patch, everything the executor runs is part of the approved graph |
| StalePatch.StalePatchIsRun | nexus-agent/src/nexus/agent/graph.py:629-633 | a run from start to executor in which a recompiled, approved graph is not what the executor runs |
| OrchestrationRuns.WorkflowOwnedNeverReplans | nexus-agent/src/nexus/agent/recovery.py:83-88 | a run an interactive workflow owns never visits the replan node |
| OrchestrationRuns.CountersCount | nexus-agent/src/nexus/agent/nodes/replan_node.py:35-60 | the replan and retry counters count the visits that move them, and neither passes its limit within a run |
| OrchestrationRuns.RecoveryIsBounded | nexus-agent/src/nexus/agent/graph.py:1226-1247 | in every run the recovery manager is visited at most once more than the replans and retries left at the start |
| OrchestrationRuns.LengthBoundedByBackEdges | nexus-agent/src/nexus/agent/graph.py:1112-1251 | seven back edges cut every loop; a run taking B of them visits at most 16 * (B + 1) nodes |
| OrchestrationRuns.RunLengthBound | nexus-agent/src/nexus/agent/graph.py:1226-1247 | recovery lengthens a run by at most 16 visits per replan or retry left at the start |
| Budget.ReasoningBudget.Consume | nexus-agent/src/nexus/agent/budget.py:39-53 | a reservation is granted if and only if it stays within the limit or the key has none; a refused one leaves the ledger as it was; one that is not negative never ends an exhaustion |
| Budget.ReasoningBudget.SettleCost | nexus-agent/src/nexus/agent/budget.py:55-61 | a positive actual cost is added to the ledger, anything else ignored |
| Budget.ReasoningBudget.Remaining | nexus-agent/src/nexus/agent/budget.py:63-67 | the largest amount that would be granted, or 0; 1 for a key without a limit, of which any amount would be granted |
| Budget.ReasoningBudget.Exceeded | nexus-agent/src/nexus/agent/budget.py:72-86 | a dimension is reported if and only if the wall time has run out or a watched dimension has reached its limit: the wall time first, then the first spent one in order |
| BudgetTheorems.ReportedIff | nexus-agent/src/nexus/agent/budget.py:72-86 | a spent dimension is reported if and only if the wall time lasts and no dimension before it in the order is spent |
| Budget.ReasoningBudget.Merge | nexus-agent/src/nexus/agent/budget.py:88-100 | the loop over a carrier's entries joins its readable ones into the ledger and skips the rest |
| Budget.BudgetFromState | nexus-agent/src/nexus/agent/budget.py:116-141 | a fresh object holding what the carrier says, with defaults for missing entries and for an unreadable carrier |
| BudgetTheorems.UnitReservations | nexus-agent/src/nexus/agent/budget.py:39-53 | however n unit reservations of a key are interleaved with other work, exactly min(n, limit - used) are granted and recorded |
| BudgetTheorems.KeysDoNotInterfere | nexus-agent/src/nexus/agent/budget.py:39-61 | what is granted and recorded for a key depends only on the operations on it |
| BudgetTheorems.ExhaustionIsFinal | nexus-agent/src/nexus/agent/budget.py:72-100 | an exhausted ledger dimension stays reported under every later reservation, settlement and merge |
| BudgetTheorems.StaysSpentIff | nexus-agent/src/nexus/agent/budget.py:49-53 | a dimension at its limit stays there under a reservation if and only if the amount does not take it below the limit |
| BudgetTheorems.ReservationReopensIff | nexus-agent/src/nexus/agent/budget.py:39-86 | for all limits, ledgers, keys and amounts: a reservation ends the exhaustion if and only if it is on the only spent dimension, that is not the recovery one, and takes it below its limit |
| BudgetTheorems.RecoveryNeverRecorded | nexus-agent/src/nexus/agent/budget.py:46-48 | reservations of "recovery" are always granted and never recorded, as those of every key without a limit |
| BudgetTheorems.SettlementIsAdded | nexus-agent/src/nexus/agent/budget.py:55-61 | after reserving and settling, the ledger shows the actual cost alone if and only if nothing was reserved |
| BudgetTheorems.JoinIsLeastUpperBound | nexus-agent/src/nexus/agent/budget.py:95-100 | merge is the least upper bound of two ledgers |
| BudgetTheorems.JoinCommutes | nexus-agent/src/nexus/agent/budget.py:95-100 | merge is commutative |
| BudgetTheorems.JoinAssociates | nexus-agent/src/nexus/agent/budget.py:95-100 | merge is associative |
| BudgetTheorems.JoinIdempotent | nexus-agent/src/nexus/agent/budget.py:95-100 | merge is idempotent |
| BudgetTheorems.MergeExactIff | nexus-agent/src/nexus/agent/budget.py:88-100 | forks merged back record the true spend on a key if and only if at most one of them spent on it |
| BudgetTheorems.MergedLedger | nexus-agent/src/nexus/agent/budget.py:88-100 | forks merged back record the base plus the largest single spend |
| BudgetTheorems.ForksSpendAtMost | nexus-agent/src/nexus/agent/budget.py:39-53 | forks together spend at most what was left, once per fork |
| BudgetTheorems.ForksStayWithinLimitIff | nexus-agent/src/nexus/agent/budget.py:39-53 | exactly when forks making unit reservations stay within the limit together |
| BudgetTheorems.EncodeDecode | nexus-agent/src/nexus/agent/budget.py:102-138 | the carrier round trip restores limits, ledger and start of the clock |
| BudgetTheorems.LimitsAreCarried | nexus-agent/src/nexus/agent/budget.py:45-53 | the limit of a key is the carrier entry of its name |
| BudgetTheorems.MissingEntries | nexus-agent/src/nexus/agent/budget.py:122-138 | each missing entry takes its own default and leaves the others alone |
| BudgetTheorems.UnreadableCarrier | nexus-agent/src/nexus/agent/budget.py:122-141 | no carrier, or one entry that is no number, gives a fresh default budget |
| BudgetTheorems.TruncateIs | nexus-agent/src/nexus/agent/budget.py:124-131 | a fractional limit is cut towards zero |
| BudgetTheorems.NodeVisit | nexus-agent/src/nexus/agent/budget.py:102-141 | rebuilding the object, working with it and handing the carrier on gives the ledger and the verdicts of the same operations on values |
| BudgetTheorems.ThreadingIsSharing | nexus-agent/src/nexus/agent/budget.py:88-141 | threading the carrier through any number of nodes gives the verdicts, ledger and clock of one shared object, and the runner's merged copy equals it |
| EventStream.ReadStream | frontend/src/api/stream.ts:32-113 | the handler calls are a function of the text alone, however it is cut into chunks |
| EventStreamRoundTrip.LineIs | frontend/src/api/stream.ts:72-101 | what a line does, by its field: names the frame, dispatches data that are not blank, clears the name when empty, and nothing otherwise |
| EventStreamRoundTrip.LastDatumCounts | frontend/src/api/stream.ts:102-109 | after any printed frames a last data line without a newline is dispatched too, under the name of the frame it stands in |
| EventStreamRoundTrip.LastLineDropped | frontend/src/api/stream.ts:102-109 | any other unterminated line adds nothing |
| EventStreamRoundTrip.DeliveredAsIs | frontend/src/api/stream.ts:37-66 | an object with a type, an object without a name in force and a datum that is no object are handed over as they are; what does not decode is reported once |
| EventStreamRoundTrip.ListDelivered | frontend/src/api/stream.ts:38-50 | of a wrapped list every object is handed over, in order and as it is, and nothing else |
| EventStreamRoundTrip.SpacesAre | frontend/src/api/stream.ts:92-108 | the white space that is trimmed |
| EventStream.DrainLines | frontend/src/api/stream.ts:74-101 | the inner loop ends with no newline in the buffer, having handled exactly the complete lines received |
| EventStream.LinesOfTwo | frontend/src/api/stream.ts:72-79 | cutting a text anywhere neither makes nor loses a line |
| SdkStream.StreamChatEvents | nexus-agent/src/nexus_sdk/sse.py:42-59 | the yielded events, with their type, time and payload, are a function of the text alone, up to the first datum that cannot be turned into an event |
| EventStreamRoundTrip.SdkDropsLastLine | nexus-agent/src/nexus_sdk/sse.py:42-59 | an unterminated last line is never read |
| EventStreamRoundTrip.SdkNeedsSpace | nexus-agent/src/nexus_sdk/sse.py:47-50 | a field without a space behind its colon is ignored |
| EventStreamRoundTrip.BrowserRoundTrip | frontend/src/api/stream.ts:74-101 | printing frames of any number of data lines, named or not, with heartbeats and blank lines between them and parsing gives every datum back once, under its frame's name, with LF or CR LF |
| EventStreamRoundTrip.FrameNamesPayload | frontend/src/api/stream.ts:56-62 | an object without a type is delivered under its frame's event name |
| EventStreamRoundTrip.StandardRoundTrip | frontend/src/api/stream.ts:74-101 | what section 9.2.6 of the WHATWG HTML standard makes of the same text: one event for each frame with data, its lines joined, "message" without a name |
| EventStreamRoundTrip.BrowserHears | frontend/src/api/stream.ts:74-101 | what the browser parser makes of any such list: each datum that is not blank, trimmed, under the trimmed name of its frame |
| EventStreamRoundTrip.BrowserAgreesWithStandardIff | frontend/src/api/stream.ts:74-101 | for every list of frames whose names and data are on one line each, the parser does what the standard says if and only if every frame with data has one data line and a name, neither blank nor with white space at an end |
| EventStreamRoundTrip.SdkAgreesOnLfIff | nexus-agent/src/nexus_sdk/sse.py:45-59 | with LF the SDK yields what the browser's handlers are told if and only if every datum becomes an event and has its own type or stands in a named frame |
| EventStreamRoundTrip.SdkAgreesOnCrlfIff | nexus-agent/src/nexus_sdk/sse.py:47-59 | with CR LF it does if and only if every datum becomes an event with a type of its own |
| EventStreamRoundTrip.UnnamedFrameKeepsName | nexus-agent/src/nexus_sdk/sse.py:44-59 | an untyped datum in an unnamed frame reaches the browser's handlers without a type, and the SDK's caller under the last name printed before, or as "unknown" |
| RunLifecycle.PhasesAreBacked | frontend/src/api/lifecycle.ts:97-199 | over every trace, complete implies a final text, and timed out or interrupted an error; no event leads to requesting |
| RunLifecycle.PhaseMoves | frontend/src/api/lifecycle.ts:97-199 | for every phase, exactly which events move a run into it |
| RunLifecycle.StepsFollowTrace | frontend/src/api/lifecycle.ts:111-142 | a step is known once an event was about it, shows the tool and status of the last such event and the outcome of the last completed call |
| RunLifecycle.PlanAndApprovalAreLast | frontend/src/api/lifecycle.ts:102-147 | plan, open approval and planned steps are those of the last event that brought one |
| RunLifecycle.TextIsLast | frontend/src/api/lifecycle.ts:153-155 | the final text is the last one received |
| RunLifecycle.ErrorIsLast | frontend/src/api/lifecycle.ts:184-192 | the error is the last one reported |
| RunLifecycle.ClarificationIsStored | frontend/src/api/lifecycle.ts:148-152 | a run waiting for clarification was asked, and stores exactly what the last question carried |
| RunLifecycle.TrailIsLast200 | frontend/src/api/lifecycle.ts:98 | the debug trail is exactly the last 200 events |
| RunLifecycle.CountIsSuccesses | frontend/src/api/lifecycle.ts:124-142 | the success count is the number of successful completed calls |
| RunLifecycle.CountBoundsSucceededSteps | frontend/src/api/lifecycle.ts:111-142 | if progress never claims success, the count bounds the steps shown as succeeded |
| RunLifecycle.FinalThenDoneCompletesIff | frontend/src/api/lifecycle.ts:153-194 | a final text followed by done completes a run if and only if it is not waiting for approval, clarification or a background job |
| RunLifecycle.SummaryCoversSteps | frontend/src/api/lifecycle.ts:241-254 | succeeded, failed and open steps in the banner cover every step of the run |
| RunLifecycle.SummaryIs | frontend/src/api/lifecycle.ts:241-254 | failed are the steps that neither succeeded nor are open, and the tools named are exactly theirs |
| DevProjection.ProjectDevEvents | frontend/src/api/dev-projections.ts:55-118 | the rows are those of the fold over the events, one per id, in order of first touch |
| DevProjection.ProjectionsAgree | frontend/src/api/dev-projections.ts:76-99 | when events carry all fields, an id known to the reducer or the console is known to both with the same tool and status |
| DevProjection.OutcomesFollowReducer | frontend/src/api/dev-projections.ts:86-99 | when events carry all fields, a row's duration, cache mark, error and retries are those of the reducer's last completed call |
| DevProjection.RowsFollowEvents | frontend/src/api/dev-projections.ts:76-99 | whatever the events carry, a row shows the last tool name and the last status given to its task |
| DevProjection.RowsInTouchOrder | frontend/src/api/dev-projections.ts:76-112 | the rows stand in the order in which their tasks were first touched |
| DevProjection.WindowAgrees | frontend/src/api/lifecycle.ts:98 | fed the reducer's bounded trail only, the console agrees on every id touched in it |
| DevProjection.CompletedStatusAgreesIff | frontend/src/api/dev-projections.ts:86-99 | on any trace, an id last touched by a completed call that names it has the same status in both if and only if that event carries one |
| PlanSupport.Walk | nexus-agent/scripts/run_benchmark.py:196-209 | within the recursion limit the memoised recursion returns the operations of everything that feeds the node, on cyclic plans too; beyond it, nothing |
| PlanSupport.TransitiveSupports | nexus-agent/scripts/run_benchmark.py:191-213 | every node is mapped to exactly the operations reachable by one or more resolvable steps, whatever the iteration order; a cyclic plan exceeds every limit, an acyclic one none that is at least its number of nodes |
| PlanSupport.FinishesIffAcyclic | nexus-agent/scripts/run_benchmark.py:196-213 | the computation comes to an end if and only if the plan is acyclic, within as many nested calls as nodes, and whenever it ends it has found the true supports |
| ScenarioScore.TopologyOk | nexus-agent/scripts/run_benchmark.py:375-393 | the loop accepts if and only if every expected producer feeds the first node performing its consumer; it raises exactly when a dependency is expected and the plan is too deep for the recursion limit |
| ScenarioScore.ScoreScenario | nexus-agent/scripts/run_benchmark.py:271-465 | the ten scores and their weighted total, and exactly when scoring raises instead |
| ScenarioScore.WeightsAre | nexus-agent/scripts/run_benchmark.py:37-48 | what is missing in a dimension is missing in the total, times its weight |
| ScenarioScore.ResolutionMark | nexus-agent/scripts/run_benchmark.py:337-359 | resolution is earned exactly by the expected tools or kinds, or when none are named or they cannot be had |
| ScenarioScore.BindingMark | nexus-agent/scripts/run_benchmark.py:360-370 | binding is the share of the one-word facts that were bound |
| ScenarioScore.ParallelismMark | nexus-agent/scripts/run_benchmark.py:394-410 | each wave too many costs a quarter |
| ScenarioScore.AnswerMarks | nexus-agent/scripts/run_benchmark.py:411-452 | what earns the marks for intent, topology, artifacts, validation and grounding |
| ScenarioScore.RecoveryMark | nexus-agent/scripts/run_benchmark.py:418-438 | what earns the mark for recovery |
| ScenarioScore.EfficiencyMark | nexus-agent/scripts/run_benchmark.py:453-465 | calls outside the expected range cost a fifth each |
| ScenarioScore.FirstIsFirst | nexus-agent/scripts/run_benchmark.py:381-386 | the consumer is the first planned node that performs its operation |
| ScenarioScore.TotalInRange | nexus-agent/scripts/run_benchmark.py:37-48 | every total lies between 0 and 100 |
| ScenarioScore.NinetyMeansGrounded | nexus-agent/scripts/run_benchmark.py:395-465 | a reported total of 90 or more means that the resolution test passed (the expected tools, unless none are named or they cannot be had), every expected fact in the answer, and a real dependency chain behind every expected edge |

## Left out

- The string substitution of map items (`_substitute_item`): a task records the item; its inputs are opaque.
- `ref_to_id` aliases, tool metadata lookup, event emission, artifact checks and the background hand-off of the executor: calls into other services.
- Node bodies other than the executor's scheduling part, the recovery manager, the replan counter and reflection: any update within the contract's `writes`; reflection's compensation call and error lists are not modelled.
- State fields that no routing function, no recovery decision and no choice of graph reads.
- The reason strings of recovery decisions; `str.lower` is modelled on ASCII letters.
- The goal lookup behind the router: its result is a state field.
- The wall clock: elapsed time is an argument; amounts are reals, without rounding. Numeric strings in a budget carrier count as readable numbers.
- Byte decoding and JSON: text is characters, and what a datum decodes to is a parameter. The SDK and the browser are given the same decoder, which on CR LF is taken to ignore a carriage return after a datum. Exceptions thrown by handlers are not modelled; an error call carries the whole datum, not its first 120 characters.
- A byte order mark, `id` and `retry` fields of the event-stream standard.
- `responseStatus`, `coverage` and approval expiry in the lifecycle; the timeline, planner timing, suppressions, degradations and evidence in the developer projection.
- Database-derived contract metadata in scoring: whether an expectation is unachievable is an input; failure texts and rounding of single scores are not modelled.
- The interpreter's recursion limit is a parameter; frames used by anything but the support walk are not counted.
- The dead-task-elimination pass's own wave builder, and the other compiler passes.
