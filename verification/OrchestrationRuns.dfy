/** Safety and bounds over every run of the agent graph. */
module OrchestrationRuns {
  import opened Options
  import opened Plan
  import opened WaveTheorems
  import opened RetryPatch
  import opened Orchestration

  // ------------------------------------------------------------------
  // Approval before execution
  // ------------------------------------------------------------------

  /** The nodes between an execution and the decision what to do about it. */
  predicate ExecutionPhase(node: Node) {
    node in {Executor, Aggregator, Validator, RecoveryManager, Reflection}
  }

  /** Visit `j` passed the approval gate, and nothing was compiled between it and step `i`. */
  ghost predicate ClearedBy(t: seq<Visit>, i: nat, j: nat) {
    && j < i <= |t|
    && t[j].node.ApprovalGate? && !t[j].after.approvalRejected && t[j].after.approvalGranted != Some(false)
    && forall k | j < k < i :: !Compiles(t[k].node)
  }

  lemma {:induction false} GraphKeptWithoutCompiling(c: Settings, s0: State, t: seq<Visit>, j: nat, i: nat)
    requires IsRun(c, s0, t) && j <= i <= |t|
    requires forall k | j <= k < i :: !Compiles(t[k].node)
    ensures StateBefore(s0, t, i).executionGraph == StateBefore(s0, t, j).executionGraph
  {
    if j < i {
      GraphKeptWithoutCompiling(c, s0, t, j, i - 1);
      StepGraphKept(c, s0, t, i - 1);
    }
  }

  lemma {:induction false} PhaseIsCleared(c: Settings, s0: State, t: seq<Visit>, i: nat) returns (j: nat)
    requires IsRun(c, s0, t) && i < |t| && ExecutionPhase(t[i].node)
    ensures ClearedBy(t, i, j)
  {
    StepNode(c, s0, t, i);
    if t[i - 1].node.ApprovalGate? {
      j := i - 1;
    } else {
      j := PhaseIsCleared(c, s0, t, i - 1);
    }
  }

  /** Whenever the executor is entered, an approval-gate visit that was not rejected has
      happened since the graph was last compiled or optimised, and the graph the gate saw is
      the execution graph the executor finds.  Retries keep this, replans re-establish it. */
  lemma ExecutorRunsAfterApproval(c: Settings, s0: State, t: seq<Visit>, i: nat)
    requires IsRun(c, s0, t) && i < |t| && t[i].node.Executor?
    ensures exists j ::
              && ClearedBy(t, i, j)
              && StateBefore(s0, t, i).executionGraph == StateBefore(s0, t, j).executionGraph
  {
    var j := PhaseIsCleared(c, s0, t, i);
    GraphKeptWithoutCompiling(c, s0, t, j, i);
    assert ClearedBy(t, i, j);
  }

  /** The checks between compiling at `k` and entering the executor at `i`: an estimate, a
      validation that let the plan pass, and an approval, in this order, with no recompilation. */
  ghost predicate CheckedBetween(t: seq<Visit>, k: nat, i: nat, v: nat) {
    && k < v - 1 && v + 1 < i <= |t|
    && t[v - 1].node.Estimator? && t[v].node.Validation? && t[v + 1].node.ApprovalGate?
    && Passed(t[v].after)
    && !t[v + 1].after.approvalRejected && t[v + 1].after.approvalGranted != Some(false)
  }

  /** A plan with nodes that needs no clarification and was not found wanting. */
  predicate Passed(s: State) {
    && !s.workflowEmpty && !s.needsClarification && s.validationReady != Some(false)
    && (s.irOperations || s.readyToPlan != Some(false))
  }

  lemma {:induction false} ChecksFromExecutor(c: Settings, s0: State, t: seq<Visit>, k: nat, i: nat) returns (v: nat)
    requires IsRun(c, s0, t) && k < i < |t| && t[i].node.Executor? && Compiles(t[k].node)
    requires forall x | k < x < i :: !Compiles(t[x].node)
    ensures CheckedBetween(t, k, i, v)
    decreases i
  {
    var j := PhaseIsCleared(c, s0, t, i);
    assert k < j;
    StepNode(c, s0, t, j);
    if t[j - 1].node.Validation? {
      v := j - 1;
      GateAfterValidation(c, s0, t, v);
    } else {
      var e := ConversationStartsFromExecutor(c, s0, t, k, j - 1);
      v := ChecksFromExecutor(c, s0, t, k, e);
    }
  }

  lemma GateAfterValidation(c: Settings, s0: State, t: seq<Visit>, v: nat)
    requires IsRun(c, s0, t) && v + 1 < |t| && t[v].node.Validation? && t[v + 1].node.ApprovalGate?
    ensures v >= 2 && t[v - 1].node.Estimator? && Compiles(t[v - 2].node) && Passed(t[v].after)
  {
    StepNode(c, s0, t, v + 1);
    StepNode(c, s0, t, v);
    StepNode(c, s0, t, v - 1);
  }

  /** After a compilation the conversational nodes are reached again only through the executor. */
  lemma {:induction false} ConversationStartsFromExecutor(c: Settings, s0: State, t: seq<Visit>, k: nat, i: nat) returns (e: nat)
    requires IsRun(c, s0, t) && k < i < |t| && Compiles(t[k].node)
    requires t[i].node in {ApprovalCheckpointResume, Router, InteractiveWorkflow}
    requires forall x | k < x < i :: !Compiles(t[x].node)
    ensures k < e < i && t[e].node.Executor?
  {
    StepNode(c, s0, t, i);
    if t[i - 1].node.Executor? {
      e := i - 1;
    } else {
      e := ConversationStartsFromExecutor(c, s0, t, k, i - 1);
    }
  }

  /** Whatever was compiled last is estimated, validated and approved, in this order, before
      the executor is entered - on retries and on conversational detours too. */
  lemma CompiledGraphIsChecked(c: Settings, s0: State, t: seq<Visit>, k: nat, i: nat)
    requires IsRun(c, s0, t) && k < i < |t| && t[i].node.Executor? && Compiles(t[k].node)
    requires forall x | k < x < i :: !Compiles(t[x].node)
    ensures exists v :: CheckedBetween(t, k, i, v)
  {
    var v := ChecksFromExecutor(c, s0, t, k, i);
  }

  /** A turn the safety check rejected answers and ends: nothing is planned or executed. */
  lemma {:induction false} SafetyRejectedRunsNothing(c: Settings, s0: State, t: seq<Visit>, i: nat)
    requires IsRun(c, s0, t) && s0.safetyRejected && i < |t|
    ensures i < 3 && t[i].node == [Router, Response, MemoryHelper][i] && t[i].after.safetyRejected
  {
    if i > 0 {
      SafetyRejectedRunsNothing(c, s0, t, i - 1);
    }
    StepNode(c, s0, t, i);
    StepSafetyKept(c, s0, t, i);
  }

  // ------------------------------------------------------------------
  // Which graph the executor runs
  // ------------------------------------------------------------------

  /** Visit `j` is a reflection that asked for a retry. */
  predicate RetriesAt(v: Visit) {
    v.node.Reflection? && v.after.routingDecision.RetryRouting?
  }

  /** The last patch anybody wrote before step `i`: nothing clears it but another retry. */
  ghost function LastPatch(s0: State, t: seq<Visit>, i: nat): Option<Nodes>
    requires i <= |t|
  {
    if i == 0 then s0.graphPatch
    else if RetriesAt(t[i - 1]) then t[i - 1].after.graphPatch
    else LastPatch(s0, t, i - 1)
  }

  lemma {:induction false} PatchIsLastWritten(c: Settings, s0: State, t: seq<Visit>, i: nat)
    requires IsRun(c, s0, t) && i <= |t|
    ensures StateBefore(s0, t, i).graphPatch == LastPatch(s0, t, i)
  {
    if i > 0 {
      PatchIsLastWritten(c, s0, t, i - 1);
      if !RetriesAt(t[i - 1]) {
        StepPatchKept(c, s0, t, i - 1);
      }
    }
  }

  ghost function RunGraph(s0: State, t: seq<Visit>, i: nat): Option<Nodes>
    requires i <= |t|
  {
    GraphToRun(StateBefore(s0, t, i).graphPatch, StateBefore(s0, t, i).executionGraph)
  }

  /** The executor runs the graph that was compiled and approved exactly when no retry has
      left a patch behind (or the patch happens to be that very graph). */
  lemma RunsCompiledGraphIff(c: Settings, s0: State, t: seq<Visit>, i: nat)
    requires IsRun(c, s0, t) && i < |t| && t[i].node.Executor?
    ensures RunGraph(s0, t, i) == StateBefore(s0, t, i).executionGraph <==>
              LastPatch(s0, t, i).None? || LastPatch(s0, t, i) == StateBefore(s0, t, i).executionGraph
  {
    PatchIsLastWritten(c, s0, t, i);
  }

  /** No patch is pending, or the last one was cut out of the graph still in force. */
  ghost predicate PatchIsCurrent(s0: State, t: seq<Visit>, i: nat)
    requires i <= |t|
  {
    || LastPatch(s0, t, i).None?
    || exists j: nat :: PatchWrittenAt(t, i, j)
  }

  /** Visit `j` wrote the last patch before `i`, and nothing was compiled since. */
  ghost predicate PatchWrittenAt(t: seq<Visit>, i: nat, j: nat) {
    && j < i <= |t| && RetriesAt(t[j])
    && forall k | j < k < i :: !Compiles(t[k].node) && !RetriesAt(t[k])
  }

  lemma {:induction false} LastPatchFrom(s0: State, t: seq<Visit>, i: nat, j: nat)
    requires PatchWrittenAt(t, i, j)
    ensures LastPatch(s0, t, i) == t[j].after.graphPatch
  {
    if j < i - 1 {
      LastPatchFrom(s0, t, i - 1, j);
    }
  }

  lemma CutFromGraph(c: Settings, s0: State, t: seq<Visit>, j: nat)
    requires IsRun(c, s0, t) && j < |t| && RetriesAt(t[j])
    ensures t[j].after.graphPatch.Some? ==>
              && StateBefore(s0, t, j).executionGraph.Some?
              && SubPlan(t[j].after.graphPatch.value, StateBefore(s0, t, j).executionGraph.value)
  {
    assert StepOk(c, s0, t, j);
    var ids := ReflectionPatches(c, StateBefore(s0, t, j), t[j].after);
    PatchIsSubPlan(StateBefore(s0, t, j).executionGraph.value, ids);
  }

  /** Everything the executor runs is part of the graph in force exactly when no patch is
      pending or the last one is a sub-plan of that graph. */
  lemma RunsApprovedNodesIff(c: Settings, s0: State, t: seq<Visit>, i: nat)
    requires IsRun(c, s0, t) && i < |t| && t[i].node.Executor?
    requires StateBefore(s0, t, i).executionGraph.Some?
    ensures RunGraph(s0, t, i).Some?
    ensures var graph := StateBefore(s0, t, i).executionGraph.value;
            SubPlan(RunGraph(s0, t, i).value, graph) <==>
              LastPatch(s0, t, i).None? || SubPlan(LastPatch(s0, t, i).value, graph)
  {
    PatchIsLastWritten(c, s0, t, i);
  }

  /** While the patch is current, everything the executor runs is part of the approved graph. */
  lemma CurrentPatchRunsApprovedNodes(c: Settings, s0: State, t: seq<Visit>, i: nat)
    requires IsRun(c, s0, t) && i < |t| && t[i].node.Executor?
    requires PatchIsCurrent(s0, t, i) && StateBefore(s0, t, i).executionGraph.Some?
    ensures RunGraph(s0, t, i).Some?
    ensures SubPlan(RunGraph(s0, t, i).value, StateBefore(s0, t, i).executionGraph.value)
  {
    PatchIsLastWritten(c, s0, t, i);
    if LastPatch(s0, t, i).Some? {
      var j: nat :| PatchWrittenAt(t, i, j);
      LastPatchFrom(s0, t, i, j);
      CutFromGraph(c, s0, t, j);
      StepGraphKept(c, s0, t, j);
      GraphKeptWithoutCompiling(c, s0, t, j + 1, i);
    }
  }

  // ------------------------------------------------------------------
  // Recovery
  // ------------------------------------------------------------------

  /** A run that an interactive workflow owns throughout never replans. */
  lemma WorkflowOwnedNeverReplans(c: Settings, s0: State, t: seq<Visit>, i: nat)
    requires IsRun(c, s0, t) && i < |t|
    requires i > 0 ==> t[i - 1].after.activeWorkflow
    ensures !t[i].node.ReplanNode?
  {
    StepNode(c, s0, t, i);
    if i > 0 && t[i - 1].node.RecoveryManager? {
      StepRecovery(c, s0, t, i - 1);
    }
  }

  function Visits(t: seq<Visit>, node: Node): nat {
    if t == [] then 0 else Visits(t[..|t| - 1], node) + if t[|t| - 1].node == node then 1 else 0
  }

  function RetriesIn(t: seq<Visit>): nat {
    if t == [] then 0 else RetriesIn(t[..|t| - 1]) + if RetriesAt(t[|t| - 1]) then 1 else 0
  }

  /** The counters in the state count the visits, and neither passes its limit in this run. */
  lemma {:induction false} CountersCount(c: Settings, s0: State, t: seq<Visit>)
    requires IsRun(c, s0, t)
    ensures StateBefore(s0, t, |t|).replanRounds == s0.replanRounds + Visits(t, ReplanNode)
    ensures StateBefore(s0, t, |t|).totalRetries == s0.totalRetries + RetriesIn(t)
    ensures Visits(t, ReplanNode) > 0 ==> s0.replanRounds + Visits(t, ReplanNode) <= c.maxReplanRounds
    ensures RetriesIn(t) > 0 ==> s0.totalRetries + RetriesIn(t) <= c.maxReflectionRetries
  {
    if t != [] {
      var i := |t| - 1;
      var p := t[..i];
      RunPrefix(c, s0, t, i);
      CountersCount(c, s0, p);
      StepCounters(c, s0, t, i);
      StepNode(c, s0, t, i);
      assert StateBefore(s0, t, i) == StateBefore(s0, p, i);
      if t[i].node.ReplanNode? {
        StepRecovery(c, s0, t, i - 1);
      }
    }
  }

  /** Every recovery-manager visit but the last one is followed by a replan or a retry. */
  lemma {:induction false} RecoveryVisitsCovered(c: Settings, s0: State, t: seq<Visit>)
    requires IsRun(c, s0, t)
    ensures var open := t != [] && (t[|t| - 1].node in {RecoveryManager, Response, MemoryHelper}
                                    || (t[|t| - 1].node.Reflection? && !RetriesAt(t[|t| - 1])));
            Visits(t, RecoveryManager) <= Visits(t, ReplanNode) + RetriesIn(t) + if open then 1 else 0
  {
    if t != [] {
      var i := |t| - 1;
      RunPrefix(c, s0, t, i);
      RecoveryVisitsCovered(c, s0, t[..i]);
      StepNode(c, s0, t, i);
    }
  }

  /** However a run goes, the recovery manager is visited at most once more than the replans
      and retries that were left when it began. */
  lemma RecoveryIsBounded(c: Settings, s0: State, t: seq<Visit>)
    requires IsRun(c, s0, t)
    ensures Visits(t, RecoveryManager) <=
            Max(0, c.maxReplanRounds - s0.replanRounds) + Max(0, c.maxReflectionRetries - s0.totalRetries) + 1
  {
    CountersCount(c, s0, t);
    RecoveryVisitsCovered(c, s0, t);
  }

  // ------------------------------------------------------------------
  // Length of runs
  // ------------------------------------------------------------------

  function Rank(node: Node): nat {
    match node
    case Router => 0
    case InteractiveWorkflow => 1
    case ApprovalCheckpointResume => 1
    case SemanticPlanner => 2
    case PlanValidator => 3
    case Compiler => 4
    case Optimizer => 5
    case Estimator => 6
    case Validation => 7
    case RequirementCollector => 8
    case ApprovalGate => 8
    case Executor => 9
    case Aggregator => 10
    case Validator => 11
    case RecoveryManager => 12
    case Reflection => 13
    case ReplanNode => 13
    case Response => 14
    case MemoryHelper => 15
    case End => 16
  }

  /** The seven edges that go backwards. */
  predicate BackEdge(a: Node, b: Node) {
    || (b.SemanticPlanner? && a in {PlanValidator, RequirementCollector, Compiler, ReplanNode})
    || (a.Reflection? && b.Executor?)
    || (a.Executor? && b.InteractiveWorkflow?)
    || (a.InteractiveWorkflow? && b.Router?)
  }

  lemma EdgeClimbsOrGoesBack(c: Settings, at: Node, s: State)
    requires !at.End?
    ensures BackEdge(at, Next(c, at, s)) || Rank(at) < Rank(Next(c, at, s))
  {
  }

  function BackEdges(t: seq<Visit>): nat {
    if |t| < 2 then 0 else
      BackEdges(t[..|t| - 1]) + if BackEdge(t[|t| - 2].node, t[|t| - 1].node) then 1 else 0
  }

  lemma {:induction false} RankBoundsLength(c: Settings, s0: State, t: seq<Visit>)
    requires IsRun(c, s0, t) && t != []
    ensures |t| - 1 <= 16 * BackEdges(t) + Rank(t[|t| - 1].node)
  {
    var i := |t| - 1;
    StepNode(c, s0, t, i);
    if i > 0 {
      RunPrefix(c, s0, t, i);
      RankBoundsLength(c, s0, t[..i]);
      StepNode(c, s0, t, i - 1);
      EdgeClimbsOrGoesBack(c, t[i - 1].node, t[i - 1].after);
    }
  }

  /** Between two back edges a run visits at most 16 nodes: B back edges allow 16 * (B + 1) visits. */
  lemma LengthBoundedByBackEdges(c: Settings, s0: State, t: seq<Visit>)
    requires IsRun(c, s0, t)
    ensures |t| <= 16 * (BackEdges(t) + 1)
  {
    if t != [] {
      RankBoundsLength(c, s0, t);
      StepNode(c, s0, t, |t| - 1);
    }
  }

  /** The back edges that recovery takes. */
  predicate RecoveryEdge(a: Node, b: Node) {
    (a.ReplanNode? && b.SemanticPlanner?) || (a.Reflection? && b.Executor?)
  }

  function OtherBackEdges(t: seq<Visit>): nat {
    if |t| < 2 then 0 else
      OtherBackEdges(t[..|t| - 1]) +
      if BackEdge(t[|t| - 2].node, t[|t| - 1].node) && !RecoveryEdge(t[|t| - 2].node, t[|t| - 1].node) then 1 else 0
  }

  lemma {:induction false} RecoveryEdgesCovered(c: Settings, s0: State, t: seq<Visit>)
    requires IsRun(c, s0, t) && t != []
    ensures var last := t[|t| - 1];
            BackEdges(t) + (if last.node.ReplanNode? || RetriesAt(last) then 1 else 0) <=
            OtherBackEdges(t) + Visits(t, ReplanNode) + RetriesIn(t)
  {
    var i := |t| - 1;
    if i > 0 {
      RunPrefix(c, s0, t, i);
      RecoveryEdgesCovered(c, s0, t[..i]);
      StepNode(c, s0, t, i);
    }
  }

  /** Recovery alone cannot make a run long: what it adds is bounded by the replans and
      retries that were left when the run began. */
  lemma RunLengthBound(c: Settings, s0: State, t: seq<Visit>)
    requires IsRun(c, s0, t)
    ensures |t| <= 16 * (OtherBackEdges(t) + Max(0, c.maxReplanRounds - s0.replanRounds)
                         + Max(0, c.maxReflectionRetries - s0.totalRetries) + 1)
  {
    if t != [] {
      LengthBoundedByBackEdges(c, s0, t);
      RecoveryEdgesCovered(c, s0, t);
      CountersCount(c, s0, t);
    }
  }
}
