/** The run reducer: one lifecycle value folded over the event stream. */
module RunLifecycle {
  import opened Options
  import opened Text
  import opened RunEvents

  datatype Phase =
    | Idle | Requesting | Planning | Validating | Executing | AwaitingApproval | Clarification
    | Synthesizing | Background | Complete | PhaseFailed | PhaseCancelled | TimedOut | Interrupted

  /** What only `tool_call_completed` records about a step. */
  datatype Completion = Completion(error: Option<string>, durationMs: Option<real>, cached: bool)

  datatype StepState = StepState(taskId: string, tool: string, status: Status, completion: Option<Completion>)

  datatype Lifecycle = Lifecycle(
    phase: Phase,
    plan: Option<Payload>,
    steps: map<string, StepState>,
    finalText: string,
    approval: Option<Payload>,
    clarification: Option<Payload>,
    error: Option<string>,
    debugEvents: seq<AgentEvent>,
    succeededCount: nat,
    totalCount: nat)

  const INITIAL := Lifecycle(Idle, None, map[], "", None, None, None, [], 0, 0)

  const TRAIL: nat := 200

  const WALL_TIME_EXCEEDED := "invocation budget exceeded (wall_time)"
  const BUDGET_EXCEEDED := "invocation budget exceeded ("

  predicate Sticky(phase: Phase) {
    phase.AwaitingApproval? || phase.Clarification? || phase.Background?
  }

  function PhaseAfterStep(phase: Phase, status: Status): Phase {
    match status
    case Approval => AwaitingApproval
    case Queued => if phase.AwaitingApproval? || phase.Clarification? then phase else Executing
    case Running => if phase.AwaitingApproval? || phase.Clarification? then phase else Executing
    case Retrying => if phase.AwaitingApproval? || phase.Clarification? then phase else Executing
    case _ => phase
  }

  function OnStepProgress(s: Lifecycle, p: Payload): Lifecycle {
    var step := Or(p.step, "");
    var status := Or(p.status, Queued);
    if step == "" then s
    else
      var kept := if step in s.steps then s.steps[step].completion else None;
      s.(steps := s.steps[step := StepState(step, Or(p.toolName, ""), status, kept)],
         phase := PhaseAfterStep(s.phase, status))
  }

  function OnToolCall(s: Lifecycle, p: Payload): Lifecycle {
    var tool := Or(p.toolName, "");
    var status := Or(p.status, Success);
    var taskId := Or(p.taskId, tool);
    s.(steps := s.steps[taskId := StepState(taskId, tool, status, Some(Completion(p.error, Duration(p), p.cached)))],
       succeededCount := s.succeededCount + (if status.Success? then 1 else 0),
       phase := if s.phase.Idle? then Executing else s.phase)
  }

  function OnExecutionCompleted(s: Lifecycle, p: Payload): Lifecycle {
    var status := Or(p.status, OtherStatus(""));
    if status.Cancelled? then s.(phase := PhaseCancelled)
    else if status.Queued? then s.(phase := Background)
    else if status.Failed? && s.finalText == "" then s.(phase := PhaseFailed)
    else if s.finalText != "" then s.(phase := Complete)
    else s
  }

  function OnError(s: Lifecycle, p: Payload): Lifecycle {
    var message := Or(p.message, "Agent error");
    s.(error := Some(message),
       phase := if Contains(message, WALL_TIME_EXCEEDED) then TimedOut
                else if Contains(message, BUDGET_EXCEEDED) then Interrupted
                else if s.phase.Complete? then s.phase
                else PhaseFailed)
  }

  /** `reduceRunEvent` */
  function Reduce(state: Lifecycle, ev: AgentEvent): Lifecycle {
    var s := state.(debugEvents := LastOf(state.debugEvents + [ev], TRAIL));
    var p := PayloadOf(ev);
    match ev.kind
    case PlanCreated =>
      s.(plan := ev.payload, totalCount := p.planSteps,
         phase := if s.phase.Idle? || s.phase.Requesting? then Planning else s.phase)
    case ValidationProgress => if s.phase.Planning? then s.(phase := Validating) else s
    case StepProgress => OnStepProgress(s, p)
    case ToolCallCompleted => OnToolCall(s, p)
    case ApprovalCheckpoint => s.(approval := ev.payload, phase := AwaitingApproval)
    case ClarificationQuestion => s.(clarification := ev.payload, phase := Clarification)
    case FinalResponse =>
      s.(finalText := Or(p.text, s.finalText), phase := if Sticky(s.phase) then s.phase else Synthesizing)
    case ExecutionCompleted => OnExecutionCompleted(s, p)
    case WorkflowComposingProgress => if p.background then s.(phase := Background) else s
    case WorkflowCompleted => if s.finalText != "" then s.(phase := Complete) else s
    case ErrorEvent => OnError(s, p)
    case Done => if s.phase.Synthesizing? && s.finalText != "" then s.(phase := Complete) else s
    case OtherKind(_) => s
  }

  /** The lifecycle after a whole trace. */
  function Run(trace: seq<AgentEvent>): Lifecycle {
    if trace == [] then INITIAL else Reduce(Run(trace[..|trace| - 1]), trace[|trace| - 1])
  }

  // ------------------------------------------------------------------
  // Every trace
  // ------------------------------------------------------------------

  predicate Backed(s: Lifecycle) {
    && (s.phase.Complete? ==> s.finalText != "")
    && (s.phase.TimedOut? || s.phase.Interrupted? ==> s.error.Some?)
    && !s.phase.Requesting?
  }

  lemma EventKeepsBacked(state: Lifecycle, ev: AgentEvent)
    requires Backed(state)
    ensures Backed(Reduce(state, ev))
  {
  }

  /** A run is shown complete only with a text, and timed out or interrupted only with an error. */
  lemma {:induction false} PhasesAreBacked(trace: seq<AgentEvent>)
    ensures Run(trace).phase.Complete? ==> Run(trace).finalText != ""
    ensures Run(trace).phase.TimedOut? || Run(trace).phase.Interrupted? ==> Run(trace).error.Some?
    ensures !Run(trace).phase.Requesting?
  {
    if trace != [] {
      PhasesAreBacked(trace[..|trace| - 1]);
      EventKeepsBacked(Run(trace[..|trace| - 1]), trace[|trace| - 1]);
    }
  }

  /** The message of an error event, and whether some text occurs in it. */
  ghost predicate ErrorSays(ev: AgentEvent, text: string) {
    ev.kind.ErrorEvent? && exists i: nat :: OccursAt(Or(PayloadOf(ev).message, "Agent error"), text, i)
  }

  /** An `execution_completed` event with this status. */
  predicate Ended(ev: AgentEvent, status: Status) {
    ev.kind.ExecutionCompleted? && PayloadOf(ev).status == Some(status)
  }

  /** A progress event that names its step, with this status. */
  predicate Progressed(ev: AgentEvent, status: Status) {
    ev.kind.StepProgress? && Or(PayloadOf(ev).step, "") != "" && Or(PayloadOf(ev).status, Queued) == status
  }

  /** The ways into a phase. */
  ghost predicate Moves(s: Lifecycle, ev: AgentEvent, to: Phase) {
    match to
    case Idle => false
    case Requesting => false
    case Planning => ev.kind.PlanCreated? && s.phase in {Idle, Requesting}
    case Validating => ev.kind.ValidationProgress? && s.phase == Planning
    case Executing =>
      || ((Progressed(ev, Queued) || Progressed(ev, Running) || Progressed(ev, Retrying))
          && s.phase !in {AwaitingApproval, Phase.Clarification})
      || (ev.kind.ToolCallCompleted? && s.phase == Idle)
    case AwaitingApproval => ev.kind.ApprovalCheckpoint? || Progressed(ev, Approval)
    case Clarification => ev.kind.ClarificationQuestion?
    case Synthesizing => ev.kind.FinalResponse? && s.phase !in {AwaitingApproval, Phase.Clarification, Background}
    case Background => Ended(ev, Queued) || (ev.kind.WorkflowComposingProgress? && PayloadOf(ev).background)
    case Complete =>
      && s.finalText != ""
      && ((ev.kind.ExecutionCompleted? && !Ended(ev, Queued) && !Ended(ev, Cancelled))
          || ev.kind.WorkflowCompleted?
          || (ev.kind.Done? && s.phase == Synthesizing))
    case PhaseFailed =>
      || (Ended(ev, Failed) && s.finalText == "")
      || (ev.kind.ErrorEvent? && s.phase != Complete && !ErrorSays(ev, "invocation budget exceeded ("))
    case PhaseCancelled => Ended(ev, Cancelled)
    case TimedOut => ErrorSays(ev, "invocation budget exceeded (wall_time)")
    case Interrupted =>
      ErrorSays(ev, "invocation budget exceeded (") && !ErrorSays(ev, "invocation budget exceeded (wall_time)")
  }

  /** A message about the wall time is a message about the budget. */
  lemma WallTimeIsBudget(ev: AgentEvent)
    ensures ErrorSays(ev, WALL_TIME_EXCEEDED) ==> ErrorSays(ev, BUDGET_EXCEEDED)
  {
    if ErrorSays(ev, WALL_TIME_EXCEEDED) {
      var message := Or(PayloadOf(ev).message, "Agent error");
      var i: nat :| OccursAt(message, WALL_TIME_EXCEEDED, i);
      var n := |BUDGET_EXCEEDED|;
      assert WALL_TIME_EXCEEDED[..n] == BUDGET_EXCEEDED;
      assert message[i..i + n] == message[i..i + |WALL_TIME_EXCEEDED|][..n];
      assert OccursAt(message, BUDGET_EXCEEDED, i);
    }
  }

  lemma ErrorMoves(s: Lifecycle, ev: AgentEvent, to: Phase)
    requires s.phase != to && ev.kind.ErrorEvent?
    ensures Reduce(s, ev).phase == to <==> Moves(s, ev, to)
  {
    var message := Or(PayloadOf(ev).message, "Agent error");
    ContainsIff(message, WALL_TIME_EXCEEDED);
    ContainsIff(message, BUDGET_EXCEEDED);
    WallTimeIsBudget(ev);
  }

  lemma StepMoves(s: Lifecycle, ev: AgentEvent, to: Phase)
    requires s.phase != to && (ev.kind.StepProgress? || ev.kind.ToolCallCompleted?)
    ensures Reduce(s, ev).phase == to <==> Moves(s, ev, to)
  {
  }

  /** Exactly which events move a run into a phase it is not in. */
  lemma PhaseMoves(s: Lifecycle, ev: AgentEvent, to: Phase)
    requires s.phase != to
    ensures Reduce(s, ev).phase == to <==> Moves(s, ev, to)
  {
    if ev.kind.ErrorEvent? {
      ErrorMoves(s, ev, to);
    } else if ev.kind.StepProgress? || ev.kind.ToolCallCompleted? {
      StepMoves(s, ev, to);
    }
  }

  /** The last event of a kind, if there was one. */
  function LastOfKind(trace: seq<AgentEvent>, kind: Kind): Option<AgentEvent> {
    if trace == [] then None
    else if trace[|trace| - 1].kind == kind then Some(trace[|trace| - 1])
    else LastOfKind(trace[..|trace| - 1], kind)
  }

  function PayloadOfLast(trace: seq<AgentEvent>, kind: Kind): Option<Payload> {
    var last := LastOfKind(trace, kind);
    if last.Some? then last.value.payload else None
  }

  /** A run waiting for clarification has been asked a question, and stores that question
      exactly when the event that asked it carried a payload. */
  lemma {:induction false} ClarificationIsStored(trace: seq<AgentEvent>)
    ensures Run(trace).phase.Clarification? ==> LastOfKind(trace, ClarificationQuestion).Some?
    ensures Run(trace).clarification == PayloadOfLast(trace, ClarificationQuestion)
  {
    if trace != [] {
      ClarificationIsStored(trace[..|trace| - 1]);
    }
  }

  /** The plan and the open approval are those of the last event that brought one, and the
      planned steps are counted from that plan. */
  lemma {:induction false} PlanAndApprovalAreLast(trace: seq<AgentEvent>)
    ensures Run(trace).plan == PayloadOfLast(trace, PlanCreated)
    ensures Run(trace).approval == PayloadOfLast(trace, ApprovalCheckpoint)
    ensures Run(trace).totalCount == Or(PayloadOfLast(trace, PlanCreated), EMPTY).planSteps
  {
    if trace != [] {
      PlanAndApprovalAreLast(trace[..|trace| - 1]);
    }
  }

  /** The last text a final response carried; one without a text keeps the earlier one. */
  function LastText(trace: seq<AgentEvent>): string {
    if trace == [] then ""
    else
      var last := trace[|trace| - 1];
      if last.kind.FinalResponse? && PayloadOf(last).text.Some? then PayloadOf(last).text.value
      else LastText(trace[..|trace| - 1])
  }

  /** The final text is the last one received. */
  lemma {:induction false} TextIsLast(trace: seq<AgentEvent>)
    ensures Run(trace).finalText == LastText(trace)
  {
    if trace != [] {
      TextIsLast(trace[..|trace| - 1]);
    }
  }

  /** The error is the last one reported. */
  lemma {:induction false} ErrorIsLast(trace: seq<AgentEvent>)
    ensures var last := LastOfKind(trace, ErrorEvent);
            Run(trace).error == if last.None? then None else Some(Or(PayloadOf(last.value).message, "Agent error"))
  {
    if trace != [] {
      ErrorIsLast(trace[..|trace| - 1]);
    }
  }

  // ------------------------------------------------------------------
  // Steps
  // ------------------------------------------------------------------

  /** The task an event changes in the reducer's steps. */
  function ReducerTask(ev: AgentEvent): Option<string> {
    var p := PayloadOf(ev);
    match ev.kind
    case StepProgress => if Or(p.step, "") == "" then None else p.step
    case ToolCallCompleted => Some(Or(p.taskId, Or(p.toolName, "")))
    case _ => None
  }

  /** The last event about a task. */
  function LastAbout(trace: seq<AgentEvent>, taskId: string): Option<AgentEvent> {
    if trace == [] then None
    else if ReducerTask(trace[|trace| - 1]) == Some(taskId) then Some(trace[|trace| - 1])
    else LastAbout(trace[..|trace| - 1], taskId)
  }

  /** The last completed call of a task. */
  function LastCompleted(trace: seq<AgentEvent>, taskId: string): Option<AgentEvent> {
    if trace == [] then None
    else
      var last := trace[|trace| - 1];
      if last.kind.ToolCallCompleted? && ReducerTask(last) == Some(taskId) then Some(last)
      else LastCompleted(trace[..|trace| - 1], taskId)
  }

  /** A step is known once some event was about it; its tool and status are those of the last
      such event, its outcome that of the last completed call. */
  predicate StepFollows(steps: map<string, StepState>, about: Option<AgentEvent>, completed: Option<AgentEvent>, taskId: string) {
    && (taskId in steps <==> about.Some?)
    && (about.Some? ==>
          var p := PayloadOf(about.value);
          && steps[taskId].taskId == taskId && steps[taskId].tool == Or(p.toolName, "")
          && steps[taskId].status == Or(p.status, if about.value.kind.ToolCallCompleted? then Success else Queued)
          && steps[taskId].completion ==
             if completed.None? then None
             else
               var q := PayloadOf(completed.value);
               Some(Completion(q.error, if Or(q.durationMs, 0.0) == 0.0 then None else q.durationMs, q.cached)))
  }

  lemma {:induction false} StepsFollowTrace(trace: seq<AgentEvent>, taskId: string)
    ensures StepFollows(Run(trace).steps, LastAbout(trace, taskId), LastCompleted(trace, taskId), taskId)
    ensures LastCompleted(trace, taskId).Some? ==> LastAbout(trace, taskId).Some?
  {
    if trace != [] {
      StepsFollowTrace(trace[..|trace| - 1], taskId);
    }
  }

  /** The debug trail is the last 200 events. */
  lemma {:induction false} TrailIsLast200(trace: seq<AgentEvent>)
    ensures Run(trace).debugEvents == LastOf(trace, TRAIL)
  {
    if trace != [] {
      var init, last := trace[..|trace| - 1], trace[|trace| - 1];
      TrailIsLast200(init);
      LastOfAppend(init, last);
      assert trace == init + [last];
      assert Run(trace).debugEvents == LastOf(Run(init).debugEvents + [last], TRAIL);
    }
  }

  /** That is, all of a short trace, and of a longer one the last 200. */
  lemma TrailLength(trace: seq<AgentEvent>)
    ensures LastOf(trace, TRAIL) == if |trace| <= 200 then trace else trace[|trace| - 200..]
  {
  }

  lemma LastOfAppend(init: seq<AgentEvent>, last: AgentEvent)
    ensures LastOf(LastOf(init, TRAIL) + [last], TRAIL) == LastOf(init + [last], TRAIL)
  {
  }

  predicate ReportsSuccess(ev: AgentEvent) {
    ev.kind.ToolCallCompleted? && Or(PayloadOf(ev).status, Success).Success?
  }

  function Successes(trace: seq<AgentEvent>): nat {
    if trace == [] then 0 else
      Successes(trace[..|trace| - 1]) + if ReportsSuccess(trace[|trace| - 1]) then 1 else 0
  }

  function SucceededSteps(s: Lifecycle): set<string> {
    set t | t in s.steps && s.steps[t].status.Success?
  }

  /** No progress event claims success; only completed calls do. */
  predicate ProgressNeverSucceeds(trace: seq<AgentEvent>) {
    forall i | 0 <= i < |trace| && trace[i].kind.StepProgress? :: PayloadOf(trace[i]).status != Some(Success)
  }

  lemma {:induction false} CountIsSuccesses(trace: seq<AgentEvent>)
    ensures Run(trace).succeededCount == Successes(trace)
  {
    if trace != [] {
      CountIsSuccesses(trace[..|trace| - 1]);
    }
  }

  lemma OneMoreSuccess(state: Lifecycle, ev: AgentEvent)
    requires ev.kind.StepProgress? ==> PayloadOf(ev).status != Some(Success)
    ensures |SucceededSteps(Reduce(state, ev))| <= |SucceededSteps(state)| + if ReportsSuccess(ev) then 1 else 0
  {
    var p := PayloadOf(ev);
    var before, after := SucceededSteps(state), SucceededSteps(Reduce(state, ev));
    if ReportsSuccess(ev) {
      var taskId := Or(p.taskId, Or(p.toolName, ""));
      assert after <= before + {taskId};
      SubsetSize(after, before + {taskId});
    } else {
      assert after <= before;
      SubsetSize(after, before);
    }
  }

  lemma {:induction false} SubsetSize(a: set<string>, b: set<string>)
    requires a <= b
    ensures |a| <= |b|
  {
    if a != {} {
      var x :| x in a;
      SubsetSize(a - {x}, b - {x});
    }
  }

  /** The count of successes bounds the steps shown as succeeded: a repeated success of one
      task is counted again, but shown once. */
  lemma {:induction false} CountBoundsSucceededSteps(trace: seq<AgentEvent>)
    requires ProgressNeverSucceeds(trace)
    ensures |SucceededSteps(Run(trace))| <= Run(trace).succeededCount
  {
    CountIsSuccesses(trace);
    if trace != [] {
      var init, last := trace[..|trace| - 1], trace[|trace| - 1];
      CountIsSuccesses(init);
      CountBoundsSucceededSteps(init);
      OneMoreSuccess(Run(init), last);
    }
  }

  /** A final response with text followed by `done` completes the run unless it is waiting
      for approval, for clarification, or for a background task. */
  lemma FinalThenDoneCompletesIff(trace: seq<AgentEvent>, final: AgentEvent, done: AgentEvent)
    requires final.kind.FinalResponse? && Or(PayloadOf(final).text, "") != "" && done.kind.Done?
    ensures Run(trace + [final, done]).phase.Complete? <==> !Sticky(Run(trace).phase)
    ensures Sticky(Run(trace).phase) ==> Run(trace + [final, done]).phase == Run(trace).phase
  {
    var whole := trace + [final, done];
    assert whole[..|whole| - 1] == trace + [final];
    assert (trace + [final])[..|trace|] == trace;
  }

  // ------------------------------------------------------------------
  // The banner
  // ------------------------------------------------------------------

  /** Steps `summarizeRun` counts as failed: all but success, queued and running. */
  function FailedSteps(s: Lifecycle): set<string> {
    set t | t in s.steps && !s.steps[t].status.Success? && !s.steps[t].status.Queued? && !s.steps[t].status.Running?
  }

  function OpenSteps(s: Lifecycle): set<string> {
    set t | t in s.steps && (s.steps[t].status.Queued? || s.steps[t].status.Running?)
  }

  datatype Summary = Summary(succeeded: nat, failed: nat, failedTools: set<string>)

  function Summarize(s: Lifecycle): Summary {
    Summary(s.succeededCount, |FailedSteps(s)|, set t | t in FailedSteps(s) :: s.steps[t].tool)
  }

  /** The banner's counts: failed are the steps that neither succeeded nor are still open, and the
      tools named are exactly theirs. */
  lemma SummaryIs(s: Lifecycle)
    ensures Summarize(s).succeeded == s.succeededCount
    ensures |s.steps| == |SucceededSteps(s)| + Summarize(s).failed + |OpenSteps(s)|
    ensures forall tool :: tool in Summarize(s).failedTools <==>
              exists t :: t in s.steps && s.steps[t].tool == tool && s.steps[t].status !in {Success, Queued, Running}
    ensures forall t :: t in OpenSteps(s) <==> t in s.steps && s.steps[t].status in {Queued, Running}
    ensures forall t :: t in SucceededSteps(s) <==> t in s.steps && s.steps[t].status == Success
  {
    var good, bad, open := SucceededSteps(s), FailedSteps(s), OpenSteps(s);
    assert s.steps.Keys == good + bad + open;
    assert |good + bad| == |good| + |bad|;
    assert |good + bad + open| == |good + bad| + |open|;
    forall tool, t | t in s.steps && s.steps[t].tool == tool && s.steps[t].status !in {Success, Queued, Running}
      ensures tool in Summarize(s).failedTools
    {
      assert t in FailedSteps(s);
    }
  }

  /** The banner accounts for every step: succeeded, failed and open ones add up to no less
      than the steps of the run. */
  lemma SummaryCoversSteps(trace: seq<AgentEvent>)
    requires ProgressNeverSucceeds(trace)
    ensures var s := Run(trace);
            |s.steps| <= Summarize(s).succeeded + Summarize(s).failed + |OpenSteps(s)|
  {
    var s := Run(trace);
    CountBoundsSucceededSteps(trace);
    var good, bad, open := SucceededSteps(s), FailedSteps(s), OpenSteps(s);
    assert s.steps.Keys == good + bad + open;
    assert |good + bad| == |good| + |bad|;
    assert |good + bad + open| == |good + bad| + |open|;
  }
}
