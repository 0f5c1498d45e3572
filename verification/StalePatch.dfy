/** A run in which the executor does not run the graph it has just been given: a retry left a
    patch, the recompiled graph passed the gate, and the patch still took precedence. */
module StalePatch {
  import opened Options
  import opened Text
  import opened Plan
  import opened RetryPatch
  import opened Recovery
  import opened Orchestration
  import opened OrchestrationRuns

  function Tool(name: string): PlanNode {
    PlanNode(ToolNode, [], ToolCall(name, "", "GET", "", []), "", "", [], [])
  }

  const SETTINGS := Settings(3, 1, 2, 0.5)
  const FIRST_PLAN: Nodes := map["a" := Tool("a"), "b" := Tool("b")]
  const SECOND_PLAN: Nodes := map["z" := Tool("z")]

  const START := State(
    false, false, false, false, Goals(ActionGoal, false), false, Proceed, false,
    None, None, false, false, false, false, false, OtherRouting, false, None, false, None,
    None, false, false, true, [], [], [], None, false, Fail, 0, 0, map[])

  /** A visit that writes nothing. */
  lemma Idle(c: Settings, s0: State, t: seq<Visit>) returns (u: seq<Visit>)
    requires IsRun(c, s0, t) && NodeAt(c, t, |t|) !in {RecoveryManager, ReplanNode, Reflection, End}
    ensures u == t + [Visit(NodeAt(c, t, |t|), StateBefore(s0, t, |t|))] && IsRun(c, s0, u)
  {
    var v := Visit(NodeAt(c, t, |t|), StateBefore(s0, t, |t|));
    RunExtends(c, s0, t, v);
    u := t + [v];
  }

  lemma WriteGraph(c: Settings, s0: State, t: seq<Visit>, graph: Nodes) returns (u: seq<Visit>)
    requires IsRun(c, s0, t) && NodeAt(c, t, |t|).Compiler?
    ensures var s := StateBefore(s0, t, |t|).(executionGraph := Some(graph), routingDecision := OtherRouting);
            u == t + [Visit(Compiler, s)] && IsRun(c, s0, u)
  {
    var s := StateBefore(s0, t, |t|).(executionGraph := Some(graph), routingDecision := OtherRouting);
    RunExtends(c, s0, t, Visit(Compiler, s));
    u := t + [Visit(Compiler, s)];
  }

  lemma FailTask(c: Settings, s0: State, t: seq<Visit>, status: string) returns (u: seq<Visit>)
    requires IsRun(c, s0, t) && NodeAt(c, t, |t|).Executor?
    ensures var s := StateBefore(s0, t, |t|).(executorAllSuccess := false, executorFailed := ["a"],
                                              toolResults := [ToolResult("a", status)]);
            u == t + [Visit(Executor, s)] && IsRun(c, s0, u)
  {
    var s := StateBefore(s0, t, |t|).(executorAllSuccess := false, executorFailed := ["a"],
                                      toolResults := [ToolResult("a", status)]);
    RunExtends(c, s0, t, Visit(Executor, s));
    u := t + [Visit(Executor, s)];
  }

  lemma Recover(c: Settings, s0: State, t: seq<Visit>, action: Action) returns (u: seq<Visit>)
    requires IsRun(c, s0, t) && NodeAt(c, t, |t|).RecoveryManager?
    requires RecoveryDecision(c, StateBefore(s0, t, |t|)) == action
    ensures var s := StateBefore(s0, t, |t|).(recoveryAction := action);
            u == t + [Visit(RecoveryManager, s)] && IsRun(c, s0, u)
  {
    var s := StateBefore(s0, t, |t|).(recoveryAction := action);
    OnlyDecisionChanges(StateBefore(s0, t, |t|), action);
    RunExtends(c, s0, t, Visit(RecoveryManager, s));
    u := t + [Visit(RecoveryManager, s)];
  }

  /** The decision on a single failed task, with nothing else wrong. */
  lemma OneFailureDecision(c: Settings, s: State, status: string)
    requires s.toolResults == [ToolResult("a", status)] && s.validationFailed == []
    requires !s.activeWorkflow && !s.approvalDeniedBlocking && s.withinBudget.None?
    requires s.replanRounds < c.maxReplanRounds && s.totalRetries < c.maxReflectionRetries
    ensures status == "timeout" ==> RecoveryDecision(c, s) == Retry
    ensures status == "unavailable" ==> RecoveryDecision(c, s) == Replan
  {
    if status == "timeout" || status == "unavailable" {
      assert Lower(status) == status;
      var failures := Collected(s.toolResults, s.validationFailed);
      assert FailedResults(s.toolResults, 0) == [];
      assert failures == [Failure("a", status)];
      StructuralIff(failures[0]);
      assert failures[0] in failures;
    }
  }

  /** From the compiler to the executor, with nothing in the way. */
  lemma ThroughTheGate(c: Settings, s0: State, t: seq<Visit>) returns (u: seq<Visit>)
    requires IsRun(c, s0, t) && t != [] && t[|t| - 1].node.Compiler?
    requires var s := t[|t| - 1].after;
             && !s.routeToPlanner && !s.routingDecision.Finalize? && !s.budgetExceeded
             && s.executionGraph.Some? && |s.executionGraph.value| <= c.optimizerMinNodes
             && !s.workflowEmpty && !s.needsClarification && s.validationReady.None? && s.readyToPlan.None?
             && !Rejected(s)
    ensures IsRun(c, s0, u) && |u| == |t| + 3
    ensures u[|u| - 1].after == t[|t| - 1].after && NodeAt(c, u, |u|).Executor?
  {
    u := Idle(c, s0, t);
    u := Idle(c, s0, u);
    u := Idle(c, s0, u);
  }

  /** From a failed execution to the recovery manager. */
  lemma ToRecovery(c: Settings, s0: State, t: seq<Visit>) returns (u: seq<Visit>)
    requires IsRun(c, s0, t) && t != [] && NodeAt(c, t, |t|).Aggregator?
    ensures IsRun(c, s0, u) && |u| == |t| + 2
    ensures u[|u| - 1].after == t[|t| - 1].after && NodeAt(c, u, |u|).RecoveryManager?
  {
    u := Idle(c, s0, t);
    u := Idle(c, s0, u);
  }

  lemma FirstAttempt() returns (t: seq<Visit>)
    ensures IsRun(SETTINGS, START, t) && t != [] && NodeAt(SETTINGS, t, |t|).Reflection?
    ensures t[|t| - 1].after == START.(executionGraph := Some(FIRST_PLAN), executorAllSuccess := false,
                                       executorFailed := ["a"], toolResults := [ToolResult("a", "timeout")],
                                       recoveryAction := Retry)
  {
    t := Idle(SETTINGS, START, []);
    t := Idle(SETTINGS, START, t);
    t := Idle(SETTINGS, START, t);
    t := WriteGraph(SETTINGS, START, t, FIRST_PLAN);
    t := ThroughTheGate(SETTINGS, START, t);
    t := FailTask(SETTINGS, START, t, "timeout");
    t := ToRecovery(SETTINGS, START, t);
    OneFailureDecision(SETTINGS, t[|t| - 1].after, "timeout");
    t := Recover(SETTINGS, START, t, Retry);
  }

  const PATCH: Nodes := map["a" := Tool("a")]

  lemma RetryOnce(t: seq<Visit>) returns (u: seq<Visit>)
    requires IsRun(SETTINGS, START, t) && t != [] && NodeAt(SETTINGS, t, |t|).Reflection?
    requires var s := t[|t| - 1].after;
             s.executionGraph == Some(FIRST_PLAN) && s.executorFailed == ["a"] && s.totalRetries == 0 && s.retryCounts == map[]
    ensures var s := t[|t| - 1].after.(routingDecision := RetryRouting, graphPatch := Some(PATCH),
                                       totalRetries := 1, retryCounts := map["a" := 1]);
            u == t + [Visit(Reflection, s)] && IsRun(SETTINGS, START, u)
  {
    var before := t[|t| - 1].after;
    var s := before.(routingDecision := RetryRouting, graphPatch := Some(PATCH), totalRetries := 1, retryCounts := map["a" := 1]);
    FirstReflection(before);
    RunExtends(SETTINGS, START, t, Visit(Reflection, s));
    u := t + [Visit(Reflection, s)];
  }

  lemma FirstReflection(before: State)
    requires before.executionGraph == Some(FIRST_PLAN) && before.executorFailed == ["a"]
    requires before.totalRetries == 0 && before.retryCounts == map[]
    ensures Reflect(SETTINGS, before) == TryAgain(Some(PATCH), map["a" := 1])
  {
    assert Retriable(SETTINGS, before, []) == [];
    assert Retriable(SETTINGS, before, ["a"]) == ["a"];
    var kept := map nid | nid in FIRST_PLAN && Included(FIRST_PLAN[nid], nid, ["a"]) :: FIRST_PLAN[nid];
    assert kept == PATCH;
    assert "a" in PATCH;
    assert PatchOf(FIRST_PLAN, ["a"]) == Some(PATCH);
    assert CountAgain(map["a" := 1], []) == map["a" := 1];
    assert CountAgain(map[], ["a"]) == map["a" := 1];
    assert |FIRST_PLAN| == 2;
  }

  lemma Replanned(t: seq<Visit>) returns (u: seq<Visit>)
    requires IsRun(SETTINGS, START, t) && t != [] && NodeAt(SETTINGS, t, |t|).ReplanNode?
    ensures var s := t[|t| - 1].after.(replanRounds := t[|t| - 1].after.replanRounds + 1);
            u == t + [Visit(ReplanNode, s)] && IsRun(SETTINGS, START, u)
  {
    var s := t[|t| - 1].after.(replanRounds := t[|t| - 1].after.replanRounds + 1);
    RunExtends(SETTINGS, START, t, Visit(ReplanNode, s));
    u := t + [Visit(ReplanNode, s)];
  }

  lemma FailAgain(t: seq<Visit>) returns (u: seq<Visit>)
    requires IsRun(SETTINGS, START, t) && t != [] && NodeAt(SETTINGS, t, |t|).Executor?
    requires t[|t| - 1].after == AfterRetry()
    ensures IsRun(SETTINGS, START, u) && u != [] && NodeAt(SETTINGS, u, |u|).RecoveryManager?
    ensures u[|u| - 1].after == AfterRetry().(toolResults := [ToolResult("a", "unavailable")])
  {
    u := FailTask(SETTINGS, START, t, "unavailable");
    u := ToRecovery(SETTINGS, START, u);
  }

  lemma SecondAttempt(t: seq<Visit>) returns (u: seq<Visit>)
    requires IsRun(SETTINGS, START, t) && t != [] && NodeAt(SETTINGS, t, |t|).Executor?
    requires t[|t| - 1].after == AfterRetry()
    ensures IsRun(SETTINGS, START, u) && u != [] && NodeAt(SETTINGS, u, |u|).SemanticPlanner?
    ensures u[|u| - 1].after ==
            AfterRetry().(toolResults := [ToolResult("a", "unavailable")], recoveryAction := Replan, replanRounds := 1)
  {
    u := FailAgain(t);
    OneFailureDecision(SETTINGS, u[|u| - 1].after, "unavailable");
    u := Recover(SETTINGS, START, u, Replan);
    u := Replanned(u);
  }

  function AfterRetry(): State {
    START.(executionGraph := Some(FIRST_PLAN), executorAllSuccess := false, executorFailed := ["a"],
           toolResults := [ToolResult("a", "timeout")], recoveryAction := Retry, routingDecision := RetryRouting,
           graphPatch := Some(PATCH), totalRetries := 1, retryCounts := map["a" := 1])
  }

  /** Retry, replan, recompile, approve - and the executor runs the first plan's node "a",
      which the approved graph {"z"} does not contain. */
  lemma StalePatchIsRun() returns (t: seq<Visit>)
    ensures IsRun(SETTINGS, START, t) && t != [] && t[|t| - 1].node.Executor?
    ensures START.graphPatch.None?
    ensures StateBefore(START, t, |t| - 1).executionGraph == Some(SECOND_PLAN)
    ensures RunGraph(START, t, |t| - 1) == Some(PATCH) && PATCH.Keys !! SECOND_PLAN.Keys
  {
    t := FirstAttempt();
    t := RetryOnce(t);
    t := SecondAttempt(t);
    t := Idle(SETTINGS, START, t);
    t := Idle(SETTINGS, START, t);
    t := WriteGraph(SETTINGS, START, t, SECOND_PLAN);
    t := ThroughTheGate(SETTINGS, START, t);
    t := Idle(SETTINGS, START, t);
  }
}
