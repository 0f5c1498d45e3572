/** The agent graph as a transition system: its nodes, routing functions and edges, and for
    each node the state fields its contract lets it write. */
module Orchestration {
  import opened Options
  import opened Text
  import opened Plan
  import opened RetryPatch
  import opened Recovery

  datatype Node =
    | Router | InteractiveWorkflow | RequirementCollector | SemanticPlanner | PlanValidator
    | Compiler | Optimizer | Estimator | Validation
    | ApprovalGate | ApprovalCheckpointResume
    | Executor | Aggregator | Validator
    | RecoveryManager | Reflection | ReplanNode
    | Response | MemoryHelper
    | End

  datatype Goal = Conversation | Information | WorkflowGoal | ActionGoal
  /** What the goal lookup makes of `_query_type`. */
  datatype Goals = Goals(primary: Goal, needsRequirements: bool)
  datatype PlanVerdict = Abort | RequireMoreInfo | Refine | DropOp | Proceed
  datatype Routing = Finalize | RetryRouting | ReplanRouting | OtherRouting

  /** The state fields that routing, recovery and the executor read. */
  datatype State = State(
    safetyRejected: bool,
    approvalPending: bool,
    bypassWorkflow: bool,
    activeWorkflow: bool,
    goals: Goals,
    needsRequirements: bool,
    planVerdict: PlanVerdict,
    workflowEmpty: bool,
    executionGraph: Option<Nodes>,
    graphPatch: Option<Nodes>,
    budgetExceeded: bool,
    routeToPlanner: bool,
    routeToCompiler: bool,
    routeToRouter: bool,
    routeToGate: bool,
    routingDecision: Routing,
    needsClarification: bool,
    validationReady: Option<bool>,
    irOperations: bool,
    readyToPlan: Option<bool>,
    approvalGranted: Option<bool>,
    approvalRejected: bool,
    executeStep: bool,
    executorAllSuccess: bool,
    executorFailed: seq<string>,
    toolResults: seq<ToolResult>,
    validationFailed: seq<string>,
    withinBudget: Option<bool>,
    approvalDeniedBlocking: bool,
    recoveryAction: Action,
    replanRounds: int,
    totalRetries: int,
    retryCounts: map<string, nat>)

  datatype Settings = Settings(
    optimizerMinNodes: nat, maxReplanRounds: int, maxReflectionRetries: int, quorum: real)

  // ------------------------------------------------------------------
  // Routing
  // ------------------------------------------------------------------

  function RouteAfterRouter(s: State): Node {
    if s.safetyRejected then Response
    else if s.approvalPending && !s.bypassWorkflow then ApprovalCheckpointResume
    else if s.activeWorkflow && !s.bypassWorkflow then InteractiveWorkflow
    else if s.needsRequirements || s.goals.needsRequirements then RequirementCollector
    else match s.goals.primary
      case Conversation => Response
      case Information => Response
      case WorkflowGoal => if s.bypassWorkflow then SemanticPlanner else InteractiveWorkflow
      case ActionGoal => SemanticPlanner
  }

  function RouteAfterCheckpoint(s: State): Node {
    if s.routeToGate then ApprovalGate
    else if s.routeToPlanner then SemanticPlanner
    else if s.routingDecision.ReplanRouting? then SemanticPlanner
    else Response
  }

  function RouteAfterWorkflow(s: State): Node {
    if s.routingDecision.Finalize? then Response
    else if s.routeToCompiler then Compiler
    else if s.routeToPlanner then SemanticPlanner
    else if s.routeToRouter then Router
    else End
  }

  function RouteAfterPlanValidator(s: State): Node {
    match s.planVerdict
    case Abort => Response
    case RequireMoreInfo => RequirementCollector
    case Refine => SemanticPlanner
    case DropOp => SemanticPlanner
    case Proceed => Compiler
  }

  function RouteAfterCompiler(c: Settings, s: State): Node {
    if s.routeToPlanner then SemanticPlanner
    else if s.routingDecision.Finalize? then Response
    else if s.budgetExceeded then Estimator
    else if s.executionGraph.Some? && |s.executionGraph.value| <= c.optimizerMinNodes then Estimator
    else Optimizer
  }

  function RouteAfterValidation(s: State): Node {
    if s.workflowEmpty then Response
    else if s.needsClarification then RequirementCollector
    else if s.validationReady == Some(false) then RequirementCollector
    else if s.irOperations then ApprovalGate
    else if s.readyToPlan == Some(false) then RequirementCollector
    else ApprovalGate
  }

  function RouteAfterRequirements(s: State): Node {
    if s.readyToPlan == Some(true) || s.routeToPlanner then SemanticPlanner else End
  }

  predicate Rejected(s: State) {
    s.approvalRejected || s.approvalGranted == Some(false)
  }

  function RouteAfterApproval(s: State): Node {
    if Rejected(s) then Response else Executor
  }

  predicate HasReduce(graph: Option<Nodes>) {
    graph.Some? && exists n | n in graph.value :: graph.value[n].kind.ReduceNode?
  }

  function RouteAfterExecutor(s: State): Node {
    if s.executeStep && s.executorAllSuccess then InteractiveWorkflow
    else if HasReduce(s.executionGraph) then Aggregator
    else if s.executorAllSuccess then Response
    else Aggregator
  }

  function RouteAfterRecovery(s: State): Node {
    match s.recoveryAction
    case Retry => Reflection
    case Replan => ReplanNode
    case SelfHeal => Response
    case Fail => Response
  }

  function RouteAfterReflection(s: State): Node {
    if s.routingDecision.RetryRouting? then Executor else Response
  }

  /** The edge taken out of `at` once it has left the state `s`. */
  function Next(c: Settings, at: Node, s: State): Node {
    match at
    case Router => RouteAfterRouter(s)
    case ApprovalCheckpointResume => RouteAfterCheckpoint(s)
    case InteractiveWorkflow => RouteAfterWorkflow(s)
    case SemanticPlanner => PlanValidator
    case PlanValidator => RouteAfterPlanValidator(s)
    case Compiler => RouteAfterCompiler(c, s)
    case Optimizer => Estimator
    case Estimator => Validation
    case Validation => RouteAfterValidation(s)
    case RequirementCollector => RouteAfterRequirements(s)
    case ApprovalGate => RouteAfterApproval(s)
    case Executor => RouteAfterExecutor(s)
    case Aggregator => Validator
    case Validator => RecoveryManager
    case RecoveryManager => RouteAfterRecovery(s)
    case ReplanNode => SemanticPlanner
    case Reflection => RouteAfterReflection(s)
    case Response => MemoryHelper
    case MemoryHelper => End
    case End => End
  }

  // ------------------------------------------------------------------
  // The edges, read backwards: who leads to a node, and when
  // ------------------------------------------------------------------

  lemma EntersExecutor(c: Settings, at: Node, s: State)
    ensures Next(c, at, s) == Executor <==>
              || (at == ApprovalGate && !s.approvalRejected && s.approvalGranted != Some(false))
              || (at == Reflection && s.routingDecision == RetryRouting)
  {
  }

  lemma EntersApprovalGate(c: Settings, at: Node, s: State)
    ensures Next(c, at, s) == ApprovalGate <==>
              || (at == Validation && !s.workflowEmpty && !s.needsClarification && s.validationReady != Some(false)
                  && (s.irOperations || s.readyToPlan != Some(false)))
              || (at == ApprovalCheckpointResume && s.routeToGate)
  {
  }

  lemma EntersCompilation(c: Settings, at: Node, s: State)
    ensures Next(c, at, s) == Compiler <==>
              || (at == PlanValidator && s.planVerdict == Proceed)
              || (at == InteractiveWorkflow && s.routingDecision != Finalize && s.routeToCompiler)
    ensures Next(c, at, s) == Optimizer <==>
              && at == Compiler && !s.routeToPlanner && s.routingDecision != Finalize && !s.budgetExceeded
              && (s.executionGraph.Some? ==> |s.executionGraph.value| > c.optimizerMinNodes)
    ensures Next(c, at, s) == Estimator <==>
              || at == Optimizer
              || (at == Compiler && !s.routeToPlanner && s.routingDecision != Finalize
                  && (s.budgetExceeded || (s.executionGraph.Some? && |s.executionGraph.value| <= c.optimizerMinNodes)))
    ensures Next(c, at, s) == Validation <==> at == Estimator
  {
  }

  lemma EntersPlanning(c: Settings, at: Node, s: State)
    ensures Next(c, at, s) == SemanticPlanner <==>
              || at == ReplanNode
              || (at == PlanValidator && s.planVerdict in {Refine, DropOp})
              || (at == Compiler && s.routeToPlanner)
              || (at == RequirementCollector && (s.readyToPlan == Some(true) || s.routeToPlanner))
              || (at == InteractiveWorkflow && s.routingDecision != Finalize && !s.routeToCompiler && s.routeToPlanner)
              || (at == ApprovalCheckpointResume && !s.routeToGate && (s.routeToPlanner || s.routingDecision == ReplanRouting))
              || (at == Router && Unclaimed(s) && (s.goals.primary == ActionGoal || (s.goals.primary == WorkflowGoal && s.bypassWorkflow)))
    ensures Next(c, at, s) == PlanValidator <==> at == SemanticPlanner
    ensures Next(c, at, s) == RequirementCollector <==>
              || (at == PlanValidator && s.planVerdict == RequireMoreInfo)
              || (at == Validation && !s.workflowEmpty
                  && (s.needsClarification || s.validationReady == Some(false)
                      || (!s.irOperations && s.readyToPlan == Some(false))))
              || (at == Router && !s.safetyRejected && (s.bypassWorkflow || (!s.approvalPending && !s.activeWorkflow))
                  && (s.needsRequirements || s.goals.needsRequirements))
  {
  }

  /** No safety verdict, open approval, workflow or missing requirement claims the turn. */
  predicate Unclaimed(s: State) {
    && !s.safetyRejected && (s.bypassWorkflow || (!s.approvalPending && !s.activeWorkflow))
    && !s.needsRequirements && !s.goals.needsRequirements
  }

  lemma EntersConversation(c: Settings, at: Node, s: State)
    ensures Next(c, at, s) == ApprovalCheckpointResume <==>
              at == Router && !s.safetyRejected && s.approvalPending && !s.bypassWorkflow
    ensures Next(c, at, s) == InteractiveWorkflow <==>
              || (at == Router && !s.safetyRejected && !s.approvalPending && s.activeWorkflow && !s.bypassWorkflow)
              || (at == Router && Unclaimed(s) && s.goals.primary == WorkflowGoal && !s.bypassWorkflow)
              || (at == Executor && s.executeStep && s.executorAllSuccess)
    ensures Next(c, at, s) == Router <==>
              at == InteractiveWorkflow && s.routingDecision != Finalize && !s.routeToCompiler && !s.routeToPlanner && s.routeToRouter
  {
  }

  lemma EntersRecovery(c: Settings, at: Node, s: State)
    ensures Next(c, at, s) == Aggregator <==>
              && at == Executor && !(s.executeStep && s.executorAllSuccess)
              && (!s.executorAllSuccess
                  || (s.executionGraph.Some? && exists n | n in s.executionGraph.value :: s.executionGraph.value[n].kind == ReduceNode))
    ensures Next(c, at, s) == Validator <==> at == Aggregator
    ensures Next(c, at, s) == RecoveryManager <==> at == Validator
    ensures Next(c, at, s) == Reflection <==> at == RecoveryManager && s.recoveryAction == Retry
    ensures Next(c, at, s) == ReplanNode <==> at == RecoveryManager && s.recoveryAction == Replan
  {
  }

  lemma EntersResponse(c: Settings, at: Node, s: State)
    ensures Next(c, at, s) == Response <==>
              || (at == Router && s.safetyRejected)
              || (at == Router && Unclaimed(s) && s.goals.primary in {Conversation, Information})
              || (at == ApprovalCheckpointResume && !s.routeToGate && !s.routeToPlanner && s.routingDecision != ReplanRouting)
              || (at == InteractiveWorkflow && s.routingDecision == Finalize)
              || (at == PlanValidator && s.planVerdict == Abort)
              || (at == Compiler && !s.routeToPlanner && s.routingDecision == Finalize)
              || (at == Validation && s.workflowEmpty)
              || (at == ApprovalGate && (s.approvalRejected || s.approvalGranted == Some(false)))
              || (at == Executor && s.executorAllSuccess && !s.executeStep
                  && (s.executionGraph.Some? ==> forall n | n in s.executionGraph.value :: s.executionGraph.value[n].kind != ReduceNode))
              || (at == RecoveryManager && s.recoveryAction in {SelfHeal, Fail})
              || (at == Reflection && s.routingDecision != RetryRouting)
    ensures Next(c, at, s) == MemoryHelper <==> at == Response
    ensures Next(c, at, s) == End <==>
              || at == MemoryHelper || at == End
              || (at == RequirementCollector && s.readyToPlan != Some(true) && !s.routeToPlanner)
              || (at == InteractiveWorkflow && s.routingDecision != Finalize && !s.routeToCompiler && !s.routeToPlanner && !s.routeToRouter)
  {
  }

  // ------------------------------------------------------------------
  // Contracts
  // ------------------------------------------------------------------

  datatype Field =
    | FQuery | FNeedsRequirements | FPlanVerdict | FWorkflow | FExecutionGraph | FGraphPatch
    | FBudgetExceeded | FRouteToPlanner | FRouteToCompiler | FRouteToRouter | FRouteToGate
    | FRoutingDecision | FNeedsClarification | FValidationResult | FReadyToPlan
    | FApprovalPending | FApprovalGranted | FApprovalDecision | FBypassWorkflow | FActiveWorkflow
    | FNextAction | FExecutorResults | FValidationFailed | FWithinBudget | FRecoveryDecision
    | FReplanRounds | FRetryCounts | FNoOwner

  /** The fields `node` may write, among those modelled. */
  function Writes(node: Node): set<Field> {
    match node
    case Router => {FQuery, FNeedsRequirements}
    case SemanticPlanner => {FWorkflow, FBudgetExceeded}
    case PlanValidator => {FPlanVerdict, FWorkflow}
    case Compiler => {FExecutionGraph, FRouteToPlanner, FReadyToPlan, FRoutingDecision}
    case Optimizer => {FExecutionGraph}
    case Estimator => {FWithinBudget}
    case Validation => {FValidationResult, FNeedsClarification, FReadyToPlan}
    case ApprovalGate => {FApprovalPending, FApprovalGranted, FApprovalDecision, FRoutingDecision}
    case ApprovalCheckpointResume =>
      {FApprovalDecision, FApprovalPending, FRouteToGate, FRouteToPlanner, FBypassWorkflow, FActiveWorkflow, FRoutingDecision}
    case Executor => {FExecutorResults}
    case Aggregator => {}
    case Validator => {FValidationFailed}
    case RecoveryManager => {FRecoveryDecision}
    case Reflection => {FRoutingDecision, FGraphPatch, FRetryCounts}
    case ReplanNode => {FReplanRounds}
    case Response => {FRoutingDecision}
    case MemoryHelper => {}
    case InteractiveWorkflow =>
      {FActiveWorkflow, FNextAction, FWorkflow, FRouteToCompiler, FRouteToPlanner, FRouteToRouter, FBypassWorkflow, FRoutingDecision}
    case RequirementCollector => {FRoutingDecision, FReadyToPlan, FRouteToPlanner}
    case End => {}
  }

  predicate Same(f: Field, s: State, t: State) {
    match f
    case FQuery => s.goals == t.goals
    case FNeedsRequirements => s.needsRequirements == t.needsRequirements
    case FPlanVerdict => s.planVerdict == t.planVerdict
    case FWorkflow => s.workflowEmpty == t.workflowEmpty
    case FExecutionGraph => s.executionGraph == t.executionGraph
    case FGraphPatch => s.graphPatch == t.graphPatch
    case FBudgetExceeded => s.budgetExceeded == t.budgetExceeded
    case FRouteToPlanner => s.routeToPlanner == t.routeToPlanner
    case FRouteToCompiler => s.routeToCompiler == t.routeToCompiler
    case FRouteToRouter => s.routeToRouter == t.routeToRouter
    case FRouteToGate => s.routeToGate == t.routeToGate
    case FRoutingDecision => s.routingDecision == t.routingDecision
    case FNeedsClarification => s.needsClarification == t.needsClarification
    case FValidationResult => s.validationReady == t.validationReady
    case FReadyToPlan => s.readyToPlan == t.readyToPlan
    case FApprovalPending => s.approvalPending == t.approvalPending
    case FApprovalGranted => s.approvalGranted == t.approvalGranted
    case FApprovalDecision => s.approvalRejected == t.approvalRejected
    case FBypassWorkflow => s.bypassWorkflow == t.bypassWorkflow
    case FActiveWorkflow => s.activeWorkflow == t.activeWorkflow
    case FNextAction => s.executeStep == t.executeStep
    case FExecutorResults =>
      s.executorAllSuccess == t.executorAllSuccess && s.executorFailed == t.executorFailed && s.toolResults == t.toolResults
    case FValidationFailed => s.validationFailed == t.validationFailed
    case FWithinBudget => s.withinBudget == t.withinBudget
    case FRecoveryDecision => s.recoveryAction == t.recoveryAction
    case FReplanRounds => s.replanRounds == t.replanRounds
    case FRetryCounts => s.totalRetries == t.totalRetries && s.retryCounts == t.retryCounts
    case FNoOwner =>
      s.safetyRejected == t.safetyRejected && s.irOperations == t.irOperations && s.approvalDeniedBlocking == t.approvalDeniedBlocking
  }

  /** A node changes nothing but what its contract lists. */
  ghost predicate WithinContract(node: Node, s: State, t: State) {
    forall f: Field | f !in Writes(node) :: Same(f, s, t)
  }

  /** The contracts, read backwards: the nodes that may write a field.  What a plan is: */
  lemma PlanWritersAre(node: Node)
    ensures FQuery in Writes(node) <==> node == Router
    ensures FNeedsRequirements in Writes(node) <==> node == Router
    ensures FPlanVerdict in Writes(node) <==> node == PlanValidator
    ensures FWorkflow in Writes(node) <==> node in {SemanticPlanner, PlanValidator, InteractiveWorkflow}
    ensures FExecutionGraph in Writes(node) <==> node in {Compiler, Optimizer}
    ensures FBudgetExceeded in Writes(node) <==> node == SemanticPlanner
    ensures FNeedsClarification in Writes(node) <==> node == Validation
    ensures FValidationResult in Writes(node) <==> node == Validation
    ensures FReadyToPlan in Writes(node) <==> node in {Compiler, Validation, RequirementCollector}
    ensures FWithinBudget in Writes(node) <==> node == Estimator
  {
  }

  /** Where a turn goes. */
  lemma RouteWritersAre(node: Node)
    ensures FRouteToPlanner in Writes(node) <==>
              node in {Compiler, RequirementCollector, InteractiveWorkflow, ApprovalCheckpointResume}
    ensures FRouteToCompiler in Writes(node) <==> node == InteractiveWorkflow
    ensures FRouteToRouter in Writes(node) <==> node == InteractiveWorkflow
    ensures FRouteToGate in Writes(node) <==> node == ApprovalCheckpointResume
    ensures FRoutingDecision in Writes(node) <==>
              node in {Compiler, ApprovalGate, ApprovalCheckpointResume, Reflection, Response, InteractiveWorkflow, RequirementCollector}
    ensures FBypassWorkflow in Writes(node) <==> node in {ApprovalCheckpointResume, InteractiveWorkflow}
    ensures FActiveWorkflow in Writes(node) <==> node in {ApprovalCheckpointResume, InteractiveWorkflow}
    ensures FNextAction in Writes(node) <==> node == InteractiveWorkflow
  {
  }

  /** What was approved, executed and recovered. */
  lemma RunWritersAre(node: Node)
    ensures FGraphPatch in Writes(node) <==> node == Reflection
    ensures FRetryCounts in Writes(node) <==> node == Reflection
    ensures FApprovalPending in Writes(node) <==> node in {ApprovalGate, ApprovalCheckpointResume}
    ensures FApprovalGranted in Writes(node) <==> node == ApprovalGate
    ensures FApprovalDecision in Writes(node) <==> node in {ApprovalGate, ApprovalCheckpointResume}
    ensures FExecutorResults in Writes(node) <==> node == Executor
    ensures FValidationFailed in Writes(node) <==> node == Validator
    ensures FRecoveryDecision in Writes(node) <==> node == RecoveryManager
    ensures FReplanRounds in Writes(node) <==> node == ReplanNode
    ensures FNoOwner !in Writes(node)
  {
  }

  ghost predicate AllSame(s: State, t: State) {
    forall f: Field :: Same(f, s, t)
  }

  lemma SamePlan(s: State, t: State)
    requires AllSame(s, t)
    ensures s.goals == t.goals && s.needsRequirements == t.needsRequirements && s.planVerdict == t.planVerdict
    ensures s.workflowEmpty == t.workflowEmpty && s.executionGraph == t.executionGraph && s.graphPatch == t.graphPatch
  {
    assert Same(FQuery, s, t) && Same(FNeedsRequirements, s, t) && Same(FPlanVerdict, s, t);
    assert Same(FWorkflow, s, t) && Same(FExecutionGraph, s, t) && Same(FGraphPatch, s, t);
  }

  lemma SameChecks(s: State, t: State)
    requires AllSame(s, t)
    ensures s.budgetExceeded == t.budgetExceeded && s.needsClarification == t.needsClarification
    ensures s.validationReady == t.validationReady && s.readyToPlan == t.readyToPlan && s.withinBudget == t.withinBudget
  {
    assert Same(FBudgetExceeded, s, t) && Same(FNeedsClarification, s, t);
    assert Same(FValidationResult, s, t) && Same(FReadyToPlan, s, t) && Same(FWithinBudget, s, t);
  }

  lemma SameRoutes(s: State, t: State)
    requires AllSame(s, t)
    ensures s.routeToPlanner == t.routeToPlanner && s.routeToCompiler == t.routeToCompiler
    ensures s.routeToRouter == t.routeToRouter && s.routeToGate == t.routeToGate && s.routingDecision == t.routingDecision
    ensures s.bypassWorkflow == t.bypassWorkflow && s.activeWorkflow == t.activeWorkflow && s.executeStep == t.executeStep
  {
    assert Same(FRouteToPlanner, s, t) && Same(FRouteToCompiler, s, t) && Same(FRouteToRouter, s, t) && Same(FRouteToGate, s, t);
    assert Same(FRoutingDecision, s, t) && Same(FBypassWorkflow, s, t) && Same(FActiveWorkflow, s, t) && Same(FNextAction, s, t);
  }

  lemma SameApproval(s: State, t: State)
    requires AllSame(s, t)
    ensures s.approvalPending == t.approvalPending && s.approvalGranted == t.approvalGranted && s.approvalRejected == t.approvalRejected
    ensures s.safetyRejected == t.safetyRejected && s.irOperations == t.irOperations
    ensures s.approvalDeniedBlocking == t.approvalDeniedBlocking
  {
    assert Same(FApprovalPending, s, t) && Same(FApprovalGranted, s, t) && Same(FApprovalDecision, s, t) && Same(FNoOwner, s, t);
  }

  lemma SameResults(s: State, t: State)
    requires AllSame(s, t)
    ensures s.executorAllSuccess == t.executorAllSuccess && s.executorFailed == t.executorFailed && s.toolResults == t.toolResults
    ensures s.validationFailed == t.validationFailed
  {
    assert Same(FExecutorResults, s, t) && Same(FValidationFailed, s, t);
  }

  lemma SameRecovery(s: State, t: State)
    requires AllSame(s, t)
    ensures s.recoveryAction == t.recoveryAction && s.replanRounds == t.replanRounds
    ensures s.totalRetries == t.totalRetries && s.retryCounts == t.retryCounts
  {
    assert Same(FRecoveryDecision, s, t) && Same(FReplanRounds, s, t) && Same(FRetryCounts, s, t);
  }

  /** The fields cover the state: what no node may write cannot change unseen. */
  lemma FieldsCoverState(s: State, t: State)
    ensures AllSame(s, t) <==> s == t
  {
    if AllSame(s, t) {
      SamePlan(s, t);
      SameChecks(s, t);
      SameRoutes(s, t);
      SameApproval(s, t);
      SameResults(s, t);
      SameRecovery(s, t);
    }
  }

  // ------------------------------------------------------------------
  // The nodes whose bodies matter here
  // ------------------------------------------------------------------

  function Max(a: int, b: int): int {
    if a >= b then a else b
  }

  function SituationOf(c: Settings, s: State): Situation {
    Situation(
      c.maxReplanRounds,
      s.replanRounds,
      Max(0, c.maxReflectionRetries - s.totalRetries),
      false,
      s.approvalDeniedBlocking,
      s.withinBudget == Some(false),
      s.activeWorkflow)
  }

  function RecoveryDecision(c: Settings, s: State): Action {
    Decide(Collected(s.toolResults, s.validationFailed), SituationOf(c, s)).action
  }

  function RetryCount(s: State, id: string): nat {
    if id in s.retryCounts then s.retryCounts[id] else 0
  }

  /** The failed tasks that may be tried again. */
  function Retriable(c: Settings, s: State, failed: seq<string>): seq<string> {
    if failed == [] then [] else
      (if RetryCount(s, failed[0]) < c.maxReflectionRetries then [failed[0]] else []) + Retriable(c, s, failed[1..])
  }

  function CountAgain(counts: map<string, nat>, ids: seq<string>): map<string, nat>
    decreases |ids|
  {
    if ids == [] then counts else
      CountAgain(counts[ids[0] := (if ids[0] in counts then counts[ids[0]] else 0) + 1], ids[1..])
  }

  /** ReflectionNode's outcome: give up, or retry with a patch. */
  datatype Outcome = GiveUp | TryAgain(patch: Option<Nodes>, counts: map<string, nat>)

  function Reflect(c: Settings, s: State): Outcome {
    var tasks := Retriable(c, s, s.executorFailed);
    if s.executorFailed == [] || s.executionGraph.None? || s.executionGraph.value == map[]
       || s.totalRetries >= c.maxReflectionRetries || tasks == []
       || QuorumLost(c, |s.executorFailed|, |s.executionGraph.value|)
    then GiveUp
    else TryAgain(PatchOf(s.executionGraph.value, tasks), CountAgain(s.retryCounts, tasks))
  }

  /** More than the allowed share of the tasks failed. */
  predicate QuorumLost(c: Settings, failed: nat, total: nat) {
    failed as real > c.quorum * (if total == 0 then 1.0 else total as real)
  }

  /** A failed task that has retries left. */
  predicate RetriesLeft(c: Settings, s: State, id: string) {
    id in s.executorFailed && (id in s.retryCounts ==> s.retryCounts[id] < c.maxReflectionRetries) && 0 < c.maxReflectionRetries
  }

  lemma {:induction false} RetriableAre(c: Settings, s: State, failed: seq<string>, id: string)
    ensures id in Retriable(c, s, failed) <==> id in failed && RetryCount(s, id) < c.maxReflectionRetries
    ensures multiset(Retriable(c, s, failed))[id] == if RetryCount(s, id) < c.maxReflectionRetries then multiset(failed)[id] else 0
  {
    if failed != [] {
      RetriableAre(c, s, failed[1..], id);
      assert failed == [failed[0]] + failed[1..];
    }
  }

  lemma {:induction false} CountAgainAdds(counts: map<string, nat>, ids: seq<string>, id: string)
    ensures (if id in CountAgain(counts, ids) then CountAgain(counts, ids)[id] else 0)
            == (if id in counts then counts[id] else 0) + multiset(ids)[id]
    decreases |ids|
  {
    if ids != [] {
      var n := (if ids[0] in counts then counts[ids[0]] else 0) + 1;
      CountAgainAdds(counts[ids[0] := n], ids[1..], id);
      assert ids == [ids[0]] + ids[1..];
    }
  }

  ghost predicate SomeRetryLeft(c: Settings, s: State) {
    exists id :: RetriesLeft(c, s, id)
  }

  lemma RetriableIff(c: Settings, s: State)
    ensures Retriable(c, s, s.executorFailed) != [] <==> SomeRetryLeft(c, s)
  {
    var tasks := Retriable(c, s, s.executorFailed);
    if tasks != [] {
      RetriableAre(c, s, s.executorFailed, tasks[0]);
      assert RetriesLeft(c, s, tasks[0]);
    }
    if id :| RetriesLeft(c, s, id) {
      RetriableAre(c, s, s.executorFailed, id);
    }
  }

  lemma QuorumIff(c: Settings, failed: nat, total: nat)
    requires total > 0
    ensures QuorumLost(c, failed, total) <==> failed as real > c.quorum * total as real
  {
  }

  lemma NonEmpty(graph: Nodes)
    ensures graph != map[] <==> |graph| > 0
  {
    if graph != map[] {
      assert exists n :: n in graph;
    }
  }

  /** No more failures than the allowed share of the nodes of a graph that has some. */
  predicate WithinQuorum(c: Settings, failed: nat, graph: Nodes) {
    |graph| > 0 && failed as real <= c.quorum * |graph| as real
  }

  lemma WithinQuorumIff(c: Settings, failed: nat, graph: Nodes)
    ensures WithinQuorum(c, failed, graph) <==> graph != map[] && !QuorumLost(c, failed, |graph|)
  {
    NonEmpty(graph);
    if |graph| > 0 {
      QuorumIff(c, failed, |graph|);
    }
  }

  /** Reflection retries exactly when something failed in a graph with nodes, a retry is left in
      all and for some failed task, and no more than the allowed share of the nodes failed. */
  lemma ReflectRetriesIff(c: Settings, s: State)
    ensures Reflect(c, s).TryAgain? <==>
              && s.executionGraph.Some? && WithinQuorum(c, |s.executorFailed|, s.executionGraph.value)
              && s.totalRetries < c.maxReflectionRetries
              && SomeRetryLeft(c, s)
  {
    var lost := s.executionGraph.Some? && QuorumLost(c, |s.executorFailed|, |s.executionGraph.value|);
    assert Reflect(c, s).TryAgain? <==>
             && s.executionGraph.Some? && s.executionGraph.value != map[] && !lost
             && s.totalRetries < c.maxReflectionRetries && Retriable(c, s, s.executorFailed) != [];
    RetriableIff(c, s);
    if s.executionGraph.Some? {
      WithinQuorumIff(c, |s.executorFailed|, s.executionGraph.value);
    }
  }

  /** A retry is cut down to the failed tasks with retries left and their direct dependents, and
      each of those tasks is counted once more for every time it failed. */
  lemma RetryIs(c: Settings, s: State, n: string)
    requires Reflect(c, s).TryAgain?
    ensures var patch, graph := Reflect(c, s).patch, s.executionGraph.value;
            && (patch.Some? && n in patch.value <==>
                n in graph && (RetriesLeft(c, s, n) || exists d :: d in graph[n].dependsOn && RetriesLeft(c, s, d)))
            && (patch.Some? && n in patch.value ==> patch.value[n] == graph[n])
    ensures var counts := Reflect(c, s).counts;
            (if n in counts then counts[n] else 0)
            == RetryCount(s, n) + if RetriesLeft(c, s, n) then multiset(s.executorFailed)[n] else 0
  {
    var tasks, graph := Retriable(c, s, s.executorFailed), s.executionGraph.value;
    PatchHolds(graph, tasks, n);
    RetriableAre(c, s, s.executorFailed, n);
    CountAgainAdds(s.retryCounts, tasks, n);
    if n in graph {
      forall d | d in graph[n].dependsOn
        ensures d in tasks <==> RetriesLeft(c, s, d)
      {
        RetriableAre(c, s, s.executorFailed, d);
      }
    }
  }

  ghost predicate Reflected(c: Settings, s: State, t: State) {
    match Reflect(c, s)
    case GiveUp =>
      t.routingDecision.Finalize? && t.graphPatch == s.graphPatch
      && t.totalRetries == s.totalRetries && t.retryCounts == s.retryCounts
    case TryAgain(patch, counts) =>
      t.routingDecision.RetryRouting? && t.graphPatch == patch
      && t.totalRetries == s.totalRetries + 1 && t.retryCounts == counts
  }

  /** What running `node` in state `s` may leave behind. */
  ghost predicate Runs(c: Settings, node: Node, s: State, t: State) {
    && WithinContract(node, s, t)
    && (node.RecoveryManager? ==> t.recoveryAction == RecoveryDecision(c, s))
    && (node.ReplanNode? ==> t.replanRounds == s.replanRounds + 1)
    && (node.Reflection? ==> Reflected(c, s, t))
  }

  /** A status that calls for a new plan. */
  predicate CallsForReplan(status: string) {
    Lower(status) in {"unavailable", "tool_not_found", "validation_error"}
  }

  lemma OnlyDecisionChanges(s: State, action: Action)
    ensures WithinContract(RecoveryManager, s, s.(recoveryAction := action))
  {
  }

  /** `recovery_manager_node`: a step the graph allows, which asks for a new plan, for a retry
      or for neither exactly as stated, and never for healing. */
  method RecoveryManagerNode(c: Settings, s: State) returns (t: State)
    ensures Runs(c, RecoveryManager, s, t) && t == s.(recoveryAction := t.recoveryAction)
    ensures t.recoveryAction != SelfHeal
    ensures t.recoveryAction == Replan <==>
              && !s.activeWorkflow && s.replanRounds < c.maxReplanRounds
              && (s.approvalDeniedBlocking || s.withinBudget == Some(false) || NeedsReplan(s))
    ensures t.recoveryAction == Retry <==>
              && !s.activeWorkflow && s.replanRounds < c.maxReplanRounds
              && !s.approvalDeniedBlocking && s.withinBudget != Some(false) && !NeedsReplan(s)
              && (exists r | r in s.toolResults :: r.status != "success") && s.totalRetries < c.maxReflectionRetries
  {
    var failures := CollectFailures(s.toolResults, s.validationFailed);
    t := s.(recoveryAction := Decide(failures, SituationOf(c, s)).action);
    OnlyDecisionChanges(s, t.recoveryAction);
    ReplanNeeds(failures, SituationOf(c, s));
    ReplanIff(failures, SituationOf(c, s));
    RetryIff(failures, SituationOf(c, s));
    NeedsReplanIff(s);
    if !NeedsReplan(s) {
      FailuresIff(s);
    }
  }

  /** A result that did not succeed is past retrying, or the validator rejected a task that has
      not failed. */
  ghost predicate NeedsReplan(s: State) {
    || (exists r | r in s.toolResults :: r.status != "success" && CallsForReplan(r.status))
    || (exists id :: NewlyRejected(s.toolResults, s.validationFailed, id))
  }

  lemma NeedsReplanIff(s: State)
    ensures NeedsReplan(s) <==> exists f | f in Collected(s.toolResults, s.validationFailed) :: CallsForReplan(f.status)
  {
    var failures := Collected(s.toolResults, s.validationFailed);
    assert Lower("validation_error") == "validation_error";
    if f :| f in failures && CallsForReplan(f.status) {
      CollectedIff(s.toolResults, s.validationFailed, f);
      if f.status != "success" && ToolResult(f.taskId, f.status) in s.toolResults {
        assert CallsForReplan(ToolResult(f.taskId, f.status).status);
      }
    }
    if r :| r in s.toolResults && r.status != "success" && CallsForReplan(r.status) {
      CollectedIff(s.toolResults, s.validationFailed, Failure(r.taskId, r.status));
      assert ToolResult(r.taskId, r.status) == r;
    }
    if id :| NewlyRejected(s.toolResults, s.validationFailed, id) {
      CollectedIff(s.toolResults, s.validationFailed, Failure(id, "validation_error"));
    }
  }

  /** With nothing to replan for, there is a failure exactly when some result did not succeed. */
  lemma FailuresIff(s: State)
    requires !NeedsReplan(s)
    ensures Collected(s.toolResults, s.validationFailed) != [] <==> exists r | r in s.toolResults :: r.status != "success"
  {
    var failures := Collected(s.toolResults, s.validationFailed);
    if failures != [] {
      var f := failures[0];
      CollectedIff(s.toolResults, s.validationFailed, f);
      assert ToolResult(f.taskId, f.status) in s.toolResults;
    }
    if r :| r in s.toolResults && r.status != "success" {
      CollectedIff(s.toolResults, s.validationFailed, Failure(r.taskId, r.status));
      assert ToolResult(r.taskId, r.status) == r;
    }
  }

  /** Only the compiler and the optimizer write the execution graph. */
  predicate Compiles(node: Node) {
    node.Compiler? || node.Optimizer?
  }

  lemma GraphKept(node: Node, s: State, t: State)
    requires WithinContract(node, s, t) && !Compiles(node)
    ensures t.executionGraph == s.executionGraph
  {
    assert Same(FExecutionGraph, s, t);
  }

  /** What a reflection leaves behind: it retries exactly as `ReflectRetriesIff` says, with the
      patch and the counts of `RetryIs` and one retry more in all; otherwise it gives up and
      leaves patch, counts and retries as they were. */
  lemma ReflectionStepIs(c: Settings, s: State, t: State, n: string)
    requires Runs(c, Reflection, s, t)
    ensures t.routingDecision == RetryRouting <==>
              && s.executionGraph.Some? && WithinQuorum(c, |s.executorFailed|, s.executionGraph.value)
              && s.totalRetries < c.maxReflectionRetries && SomeRetryLeft(c, s)
    ensures t.routingDecision == RetryRouting ==>
              var graph := s.executionGraph.value;
              && (t.graphPatch.Some? && n in t.graphPatch.value <==>
                  n in graph && (RetriesLeft(c, s, n) || exists d :: d in graph[n].dependsOn && RetriesLeft(c, s, d)))
              && (t.graphPatch.Some? && n in t.graphPatch.value ==> t.graphPatch.value[n] == graph[n])
              && RetryCount(t, n) == RetryCount(s, n) + (if RetriesLeft(c, s, n) then multiset(s.executorFailed)[n] else 0)
              && t.totalRetries == s.totalRetries + 1
    ensures t.routingDecision != RetryRouting ==>
              && t.routingDecision == Finalize
              && t.graphPatch == s.graphPatch && t.retryCounts == s.retryCounts && t.totalRetries == s.totalRetries
  {
    ReflectRetriesIff(c, s);
    if Reflect(c, s).TryAgain? {
      RetryIs(c, s, n);
    }
  }

  /** Only a reflection that retries writes the patch. */
  lemma PatchKept(c: Settings, node: Node, s: State, t: State)
    requires Runs(c, node, s, t) && !(node.Reflection? && t.routingDecision.RetryRouting?)
    ensures t.graphPatch == s.graphPatch
  {
    if !node.Reflection? {
      assert Same(FGraphPatch, s, t);
    }
  }

  lemma ReflectionPatches(c: Settings, s: State, t: State) returns (ids: seq<string>)
    requires Runs(c, Reflection, s, t) && t.routingDecision.RetryRouting?
    ensures s.executionGraph.Some? && t.graphPatch == PatchOf(s.executionGraph.value, ids)
    ensures t.totalRetries == s.totalRetries + 1 <= c.maxReflectionRetries
  {
    ids := Retriable(c, s, s.executorFailed);
  }

  lemma SafetyKept(node: Node, s: State, t: State)
    requires WithinContract(node, s, t)
    ensures t.safetyRejected == s.safetyRejected
  {
    assert Same(FNoOwner, s, t);
  }

  lemma ReplanRoundsKept(node: Node, s: State, t: State)
    requires WithinContract(node, s, t) && !node.ReplanNode?
    ensures t.replanRounds == s.replanRounds
  {
    assert Same(FReplanRounds, s, t);
  }

  lemma WorkflowKept(s: State, t: State)
    requires WithinContract(RecoveryManager, s, t)
    ensures t.activeWorkflow == s.activeWorkflow
  {
    assert Same(FActiveWorkflow, s, t);
  }

  lemma RetriesKept(node: Node, s: State, t: State)
    requires WithinContract(node, s, t) && !node.Reflection?
    ensures t.totalRetries == s.totalRetries
  {
    assert Same(FRetryCounts, s, t);
  }

  lemma ReflectionRetries(c: Settings, s: State, t: State)
    requires Runs(c, Reflection, s, t)
    ensures t.totalRetries == s.totalRetries + if t.routingDecision.RetryRouting? then 1 else 0
    ensures t.routingDecision.RetryRouting? ==> t.totalRetries <= c.maxReflectionRetries
  {
  }

  /** The manager asks for a replan only while rounds are left and no workflow owns the run. */
  lemma ReplanNeedsRounds(c: Settings, s: State, t: State)
    requires Runs(c, RecoveryManager, s, t)
    ensures t.recoveryAction != SelfHeal
    ensures t.recoveryAction.Replan? ==> t.replanRounds < c.maxReplanRounds && !t.activeWorkflow
  {
    ReplanNeeds(Collected(s.toolResults, s.validationFailed), SituationOf(c, s));
    ReplanRoundsKept(RecoveryManager, s, t);
    WorkflowKept(s, t);
  }

  // ------------------------------------------------------------------
  // Runs of the graph
  // ------------------------------------------------------------------

  /** One visit: the node that ran and the state it left. */
  datatype Visit = Visit(node: Node, after: State)

  ghost function StateBefore(s0: State, t: seq<Visit>, i: nat): State
    requires i <= |t|
  {
    if i == 0 then s0 else t[i - 1].after
  }

  ghost function NodeAt(c: Settings, t: seq<Visit>, i: nat): Node
    requires i <= |t|
  {
    if i == 0 then Router else Next(c, t[i - 1].node, t[i - 1].after)
  }

  ghost predicate StepOk(c: Settings, s0: State, t: seq<Visit>, i: nat)
    requires i < |t|
  {
    t[i].node == NodeAt(c, t, i) && !t[i].node.End? && Runs(c, t[i].node, StateBefore(s0, t, i), t[i].after)
  }

  /** A run, finished or not, from the initial state `s0`. */
  ghost predicate IsRun(c: Settings, s0: State, t: seq<Visit>) {
    forall i: nat | i < |t| :: StepOk(c, s0, t, i)
  }

  /** Counters move only at the node that owns them. */
  lemma StepCounters(c: Settings, s0: State, t: seq<Visit>, i: nat)
    requires IsRun(c, s0, t) && i < |t|
    ensures var s, u := StateBefore(s0, t, i), t[i].after;
            && u.replanRounds == s.replanRounds + (if t[i].node.ReplanNode? then 1 else 0)
            && u.totalRetries == s.totalRetries + (if t[i].node.Reflection? && u.routingDecision.RetryRouting? then 1 else 0)
            && (t[i].node.Reflection? && u.routingDecision.RetryRouting? ==> u.totalRetries <= c.maxReflectionRetries)
  {
    assert StepOk(c, s0, t, i);
    var node, s, u := t[i].node, StateBefore(s0, t, i), t[i].after;
    if node.Reflection? {
      ReflectionRetries(c, s, u);
    } else {
      RetriesKept(node, s, u);
    }
    if !node.ReplanNode? {
      ReplanRoundsKept(node, s, u);
    }
  }

  lemma StepRecovery(c: Settings, s0: State, t: seq<Visit>, i: nat)
    requires IsRun(c, s0, t) && i < |t| && t[i].node.RecoveryManager?
    ensures t[i].after.recoveryAction != SelfHeal
    ensures t[i].after.recoveryAction.Replan? ==> t[i].after.replanRounds < c.maxReplanRounds && !t[i].after.activeWorkflow
  {
    assert StepOk(c, s0, t, i);
    ReplanNeedsRounds(c, StateBefore(s0, t, i), t[i].after);
  }

  lemma StepGraphKept(c: Settings, s0: State, t: seq<Visit>, i: nat)
    requires IsRun(c, s0, t) && i < |t| && !Compiles(t[i].node)
    ensures t[i].after.executionGraph == StateBefore(s0, t, i).executionGraph
  {
    assert StepOk(c, s0, t, i);
    GraphKept(t[i].node, StateBefore(s0, t, i), t[i].after);
  }

  lemma StepPatchKept(c: Settings, s0: State, t: seq<Visit>, i: nat)
    requires IsRun(c, s0, t) && i < |t|
    requires !(t[i].node.Reflection? && t[i].after.routingDecision.RetryRouting?)
    ensures t[i].after.graphPatch == StateBefore(s0, t, i).graphPatch
  {
    assert StepOk(c, s0, t, i);
    PatchKept(c, t[i].node, StateBefore(s0, t, i), t[i].after);
  }

  lemma StepSafetyKept(c: Settings, s0: State, t: seq<Visit>, i: nat)
    requires IsRun(c, s0, t) && i < |t|
    ensures t[i].after.safetyRejected == StateBefore(s0, t, i).safetyRejected
  {
    assert StepOk(c, s0, t, i);
    SafetyKept(t[i].node, StateBefore(s0, t, i), t[i].after);
  }

  lemma StepNode(c: Settings, s0: State, t: seq<Visit>, i: nat)
    requires IsRun(c, s0, t) && i < |t|
    ensures t[i].node == NodeAt(c, t, i) && !t[i].node.End?
  {
    assert StepOk(c, s0, t, i);
  }

  lemma RunPrefix(c: Settings, s0: State, t: seq<Visit>, k: nat)
    requires IsRun(c, s0, t) && k <= |t|
    ensures IsRun(c, s0, t[..k])
  {
    forall i: nat | i < k
      ensures StepOk(c, s0, t[..k], i)
    {
      assert StepOk(c, s0, t, i);
    }
  }

  lemma RunExtends(c: Settings, s0: State, t: seq<Visit>, v: Visit)
    requires IsRun(c, s0, t)
    requires v.node == NodeAt(c, t, |t|) && !v.node.End? && Runs(c, v.node, StateBefore(s0, t, |t|), v.after)
    ensures IsRun(c, s0, t + [v])
  {
    forall i: nat | i < |t| + 1
      ensures StepOk(c, s0, t + [v], i)
    {
      if i < |t| {
        assert StepOk(c, s0, t, i);
      }
    }
  }
}
