/** `projectDevEvents`: the developer console's own fold over the events it is given. */
module DevProjection {
  import opened Options
  import opened Text
  import opened RunEvents
  import opened RunLifecycle

  datatype Row = Row(
    taskId: string, tool: string, status: Status, durationMs: Option<real>, retries: Option<real>,
    cached: Option<bool>, error: Option<string>)

  /** A `Map`: entries and the order in which their keys were first set. */
  datatype Table = Table(order: seq<string>, rows: map<string, Row>)

  const NO_ROWS := Table([], map[])

  function Put(t: Table, row: Row): Table {
    Table(if row.taskId in t.rows then t.order else t.order + [row.taskId], t.rows[row.taskId := row])
  }

  function Previous(t: Table, taskId: string): Option<Row> {
    if taskId in t.rows then Some(t.rows[taskId]) else None
  }

  function ToolOf(previous: Option<Row>): string {
    if previous.Some? then previous.value.tool else ""
  }

  function ProgressRow(t: Table, p: Payload, index: nat): Row {
    var taskId := Or(p.step, Or(p.toolName, Decimal(index)));
    var previous := Previous(t, taskId);
    var tool := Or(p.toolName, ToolOf(previous));
    var status := Or(p.status, if previous.Some? then previous.value.status else Queued);
    if previous.Some? then previous.value.(tool := tool, status := status)
    else Row(taskId, tool, status, None, None, None, None)
  }

  function CompletedRow(t: Table, p: Payload, index: nat): Row {
    var taskId := Or(p.taskId, Or(p.toolName, Decimal(index)));
    var error := if p.error == Some("") then None else p.error;
    Row(taskId, Or(p.toolName, ToolOf(Previous(t, taskId))), Or(p.status, OtherStatus("unknown")),
        Duration(p), Some(Or(p.retries, 0.0)), Some(p.cached), error)
  }

  function OnEvent(t: Table, ev: AgentEvent, index: nat): Table {
    match ev.kind
    case StepProgress => Put(t, ProgressRow(t, PayloadOf(ev), index))
    case ToolCallCompleted => Put(t, CompletedRow(t, PayloadOf(ev), index))
    case _ => t
  }

  /** The table after the first `k` events. */
  function Project(events: seq<AgentEvent>, k: nat): Table
    requires k <= |events|
  {
    if k == 0 then NO_ROWS else OnEvent(Project(events, k - 1), events[k - 1], k - 1)
  }

  function RowsInOrder(t: Table, k: nat): seq<Row>
    requires k <= |t.order| && forall x | x in t.order :: x in t.rows
  {
    if k == 0 then [] else RowsInOrder(t, k - 1) + [t.rows[t.order[k - 1]]]
  }

  /** Each task has one row, listed where it was first touched. */
  ghost predicate WellKept(t: Table) {
    && (forall x :: x in t.order <==> x in t.rows)
    && (forall i, j | 0 <= i < j < |t.order| :: t.order[i] != t.order[j])
    && (forall x | x in t.rows :: t.rows[x].taskId == x)
  }

  lemma PutKeeps(t: Table, row: Row)
    requires WellKept(t)
    ensures WellKept(Put(t, row))
  {
  }

  lemma {:induction false} ProjectWellKept(events: seq<AgentEvent>, k: nat)
    requires k <= |events|
    ensures WellKept(Project(events, k))
  {
    if k > 0 {
      ProjectWellKept(events, k - 1);
      var t := Project(events, k - 1);
      match events[k - 1].kind {
        case StepProgress => PutKeeps(t, ProgressRow(t, PayloadOf(events[k - 1]), k - 1));
        case ToolCallCompleted => PutKeeps(t, CompletedRow(t, PayloadOf(events[k - 1]), k - 1));
        case _ =>
      }
    }
  }

  method ProjectDevEvents(events: seq<AgentEvent>) returns (executions: seq<Row>)
    ensures WellKept(Project(events, |events|))
    ensures executions == RowsInOrder(Project(events, |events|), |Project(events, |events|).order|)
  {
    var table := NO_ROWS;
    var index := 0;
    while index < |events|
      invariant 0 <= index <= |events|
      invariant table == Project(events, index)
    {
      var event := events[index];
      var payload := PayloadOf(event);
      if event.kind.StepProgress? {
        table := Put(table, ProgressRow(table, payload, index));
      }
      if event.kind.ToolCallCompleted? {
        table := Put(table, CompletedRow(table, payload, index));
      }
      index := index + 1;
    }
    ProjectWellKept(events, |events|);
    executions := [];
    var i := 0;
    while i < |table.order|
      invariant 0 <= i <= |table.order|
      invariant executions == RowsInOrder(table, i)
    {
      executions := executions + [table.rows[table.order[i]]];
      i := i + 1;
    }
  }

  // ------------------------------------------------------------------
  // Agreement with the reducer
  // ------------------------------------------------------------------

  /** Step and tool events name their task, tool and status. */
  predicate FullyCarried(ev: AgentEvent) {
    var p := PayloadOf(ev);
    && (ev.kind.StepProgress? ==> p.step.Some? && p.step.value != "" && p.toolName.Some? && p.status.Some?)
    && (ev.kind.ToolCallCompleted? ==> p.taskId.Some? && p.toolName.Some? && p.status.Some?)
  }

  predicate Touches(ev: AgentEvent, taskId: string) {
    (ev.kind.StepProgress? && PayloadOf(ev).step == Some(taskId))
    || (ev.kind.ToolCallCompleted? && PayloadOf(ev).taskId == Some(taskId))
  }

  predicate Agree(steps: map<string, StepState>, rows: map<string, Row>, taskId: string) {
    taskId in steps && taskId in rows && steps[taskId].tool == rows[taskId].tool && steps[taskId].status == rows[taskId].status
  }

  lemma TouchedTaskAgrees(state: Lifecycle, t: Table, ev: AgentEvent, index: nat, taskId: string)
    requires FullyCarried(ev) && Touches(ev, taskId) && WellKept(t)
    ensures Agree(Reduce(state, ev).steps, OnEvent(t, ev, index).rows, taskId)
  {
  }

  lemma UntouchedTaskKept(state: Lifecycle, t: Table, ev: AgentEvent, index: nat, taskId: string)
    requires FullyCarried(ev) && !Touches(ev, taskId) && WellKept(t)
    ensures taskId in Reduce(state, ev).steps <==> taskId in state.steps
    ensures taskId in state.steps ==> Reduce(state, ev).steps[taskId] == state.steps[taskId]
    ensures taskId in OnEvent(t, ev, index).rows <==> taskId in t.rows
    ensures taskId in t.rows ==> OnEvent(t, ev, index).rows[taskId] == t.rows[taskId]
  {
  }

  predicate TouchedWithin(events: seq<AgentEvent>, k: nat, taskId: string)
    requires k <= |events|
  {
    exists i | 0 <= i < k :: Touches(events[i], taskId)
  }

  lemma RunStep(before: seq<AgentEvent>, seen: seq<AgentEvent>, k: nat)
    requires 0 < k <= |seen|
    ensures Run(before + seen[..k]) == Reduce(Run(before + seen[..k - 1]), seen[k - 1])
  {
    var trace := before + seen[..k];
    assert trace[..|trace| - 1] == before + seen[..k - 1] && trace[|trace| - 1] == seen[k - 1];
  }

  /** The reducer has seen `before` and then `seen`; the console has seen only `seen`. */
  lemma {:induction false} TouchedTasksAgree(before: seq<AgentEvent>, seen: seq<AgentEvent>, k: nat, taskId: string)
    requires k <= |seen| && forall i | 0 <= i < |seen| :: FullyCarried(seen[i])
    requires TouchedWithin(seen, k, taskId)
    ensures Agree(Run(before + seen[..k]).steps, Project(seen, k).rows, taskId)
  {
    var state, t, ev := Run(before + seen[..k - 1]), Project(seen, k - 1), seen[k - 1];
    ProjectWellKept(seen, k - 1);
    assert Run(before + seen[..k]) == Reduce(state, ev) by {
      RunStep(before, seen, k);
    }
    if Touches(ev, taskId) {
      TouchedTaskAgrees(state, t, ev, k - 1, taskId);
    } else {
      TouchedTasksAgree(before, seen, k - 1, taskId);
      UntouchedTaskKept(state, t, ev, k - 1, taskId);
    }
  }

  lemma {:induction false} TasksWereTouched(trace: seq<AgentEvent>, k: nat, taskId: string)
    requires k <= |trace| && forall i | 0 <= i < |trace| :: FullyCarried(trace[i])
    ensures taskId in Run(trace[..k]).steps || taskId in Project(trace, k).rows ==>
              TouchedWithin(trace, k, taskId)
  {
    if k == 0 {
      assert trace[..k] == [];
    } else if !Touches(trace[k - 1], taskId) {
      TasksWereTouched(trace, k - 1, taskId);
      ProjectWellKept(trace, k - 1);
      var state := Run(trace[..k - 1]);
      assert Run(trace[..k]) == Reduce(state, trace[k - 1]) by {
        RunNext(trace, k);
      }
      UntouchedTaskKept(state, Project(trace, k - 1), trace[k - 1], k - 1, taskId);
    }
  }

  /** Fed the whole trace, a task known to either projection is known to both, with the same
      tool and status. */
  lemma ProjectionsAgree(trace: seq<AgentEvent>, taskId: string)
    requires forall i | 0 <= i < |trace| :: FullyCarried(trace[i])
    ensures taskId in Run(trace).steps || taskId in Project(trace, |trace|).rows ==>
              Agree(Run(trace).steps, Project(trace, |trace|).rows, taskId)
  {
    WholeTrace(trace);
    if taskId in Run(trace).steps || taskId in Project(trace, |trace|).rows {
      TasksWereTouched(trace, |trace|, taskId);
      TouchedTasksAgree([], trace, |trace|, taskId);
    }
  }

  lemma WholeTrace(trace: seq<AgentEvent>)
    ensures trace[..|trace|] == trace && [] + trace[..|trace|] == trace
  {
  }

  lemma TrailSplits(trace: seq<AgentEvent>)
    ensures var trail := LastOf(trace, TRAIL);
            trace == trace[..|trace| - |trail|] + trail[..|trail|] && forall ev | ev in trail :: ev in trace
  {
  }

  /** Fed the reducer's bounded trail, the console still agrees on every task touched in it. */
  lemma WindowAgrees(trace: seq<AgentEvent>, taskId: string)
    requires forall i | 0 <= i < |trace| :: FullyCarried(trace[i])
    ensures var trail := Run(trace).debugEvents;
            TouchedWithin(trail, |trail|, taskId) ==>
              Agree(Run(trace).steps, Project(trail, |trail|).rows, taskId)
  {
    TrailIsLast200(trace);
    TrailSplits(trace);
    var trail := LastOf(trace, TRAIL);
    forall i | 0 <= i < |trail|
      ensures FullyCarried(trail[i])
    {
      assert trail[i] in trace;
    }
    if TouchedWithin(trail, |trail|, taskId) {
      TouchedTasksAgree(trace[..|trace| - |trail|], trail, |trail|, taskId);
    }
  }

  // ------------------------------------------------------------------
  // Events with missing fields
  // ------------------------------------------------------------------

  /** The row the event at `index` changes in the console; a nameless one is numbered. */
  function ConsoleTask(ev: AgentEvent, index: nat): Option<string> {
    var p := PayloadOf(ev);
    match ev.kind
    case StepProgress => Some(Or(p.step, Or(p.toolName, Decimal(index))))
    case ToolCallCompleted => Some(Or(p.taskId, Or(p.toolName, Decimal(index))))
    case _ => None
  }

  lemma ReducerKeeps(state: Lifecycle, ev: AgentEvent, taskId: string)
    requires ReducerTask(ev) != Some(taskId)
    ensures taskId in Reduce(state, ev).steps <==> taskId in state.steps
    ensures taskId in state.steps ==> Reduce(state, ev).steps[taskId] == state.steps[taskId]
  {
  }

  lemma ConsoleKeeps(t: Table, ev: AgentEvent, index: nat, taskId: string)
    requires ConsoleTask(ev, index) != Some(taskId) && WellKept(t)
    ensures taskId in OnEvent(t, ev, index).rows <==> taskId in t.rows
    ensures taskId in t.rows ==> OnEvent(t, ev, index).rows[taskId] == t.rows[taskId]
  {
  }

  /** The two projections after `k` events know the task and agree on its status just when `agree`. */
  predicate StatusAfter(trace: seq<AgentEvent>, k: nat, taskId: string, agree: bool)
    requires k <= |trace|
  {
    var steps, rows := Run(trace[..k]).steps, Project(trace, k).rows;
    taskId in steps && taskId in rows && (steps[taskId].status == rows[taskId].status <==> agree)
  }

  lemma RunNext(trace: seq<AgentEvent>, k: nat)
    requires 0 < k <= |trace|
    ensures Run(trace[..k]) == Reduce(Run(trace[..k - 1]), trace[k - 1])
  {
    assert trace[..k][..k - 1] == trace[..k - 1];
  }

  lemma CompletedNow(trace: seq<AgentEvent>, i: nat, taskId: string)
    requires i < |trace| && trace[i].kind.ToolCallCompleted? && PayloadOf(trace[i]).taskId == Some(taskId)
    ensures StatusAfter(trace, i + 1, taskId, PayloadOf(trace[i]).status.Some?)
  {
    RunNext(trace, i + 1);
  }

  lemma StatusKept(trace: seq<AgentEvent>, k: nat, taskId: string, agree: bool)
    requires 0 < k <= |trace| && StatusAfter(trace, k - 1, taskId, agree)
    requires ReducerTask(trace[k - 1]) != Some(taskId) && ConsoleTask(trace[k - 1], k - 1) != Some(taskId)
    ensures StatusAfter(trace, k, taskId, agree)
  {
    RunNext(trace, k);
    ProjectWellKept(trace, k - 1);
    ReducerKeeps(Run(trace[..k - 1]), trace[k - 1], taskId);
    ConsoleKeeps(Project(trace, k - 1), trace[k - 1], k - 1, taskId);
  }

  /** An id last touched by a completed call: a missing status is a success to the reducer and
      "unknown" to the console, so they agree on the status exactly when that event carries
      one, whatever the other events of the trace carry. */
  lemma {:induction false} CompletedStatusAgreesIff(trace: seq<AgentEvent>, i: nat, k: nat, taskId: string)
    requires i < k <= |trace|
    requires trace[i].kind.ToolCallCompleted? && PayloadOf(trace[i]).taskId == Some(taskId)
    requires forall j | i < j < k :: ReducerTask(trace[j]) != Some(taskId) && ConsoleTask(trace[j], j) != Some(taskId)
    ensures StatusAfter(trace, k, taskId, PayloadOf(trace[i]).status.Some?)
    decreases k
  {
    if k == i + 1 {
      CompletedNow(trace, i, taskId);
    } else {
      CompletedStatusAgreesIff(trace, i, k - 1, taskId);
      StatusKept(trace, k, taskId, PayloadOf(trace[i]).status.Some?);
    }
  }

  // ------------------------------------------------------------------
  // Outcomes and order
  // ------------------------------------------------------------------

  /** The outcome columns of a row are those of the reducer's completion; the console shows no
      empty error, and counts retries beside. */
  predicate OutcomeMatches(completion: Option<Completion>, completed: Option<AgentEvent>, row: Row) {
    match completion
    case None => row.durationMs.None? && row.retries.None? && row.cached.None? && row.error.None?
    case Some(c) =>
      && row.durationMs == c.durationMs && row.cached == Some(c.cached)
      && row.error == (if c.error == Some("") then None else c.error)
      && completed.Some? && row.retries == Some(Or(PayloadOf(completed.value).retries, 0.0))
  }

  /** The two projections hold the same outcome of a task, if they know it. */
  predicate OutcomesAgree(trace: seq<AgentEvent>, k: nat, taskId: string)
    requires k <= |trace|
  {
    var steps, rows := Run(trace[..k]).steps, Project(trace, k).rows;
    && (taskId in steps <==> taskId in rows)
    && (taskId in steps && taskId in rows ==>
          OutcomeMatches(steps[taskId].completion, LastCompleted(trace[..k], taskId), rows[taskId]))
  }

  lemma LastCompletedNext(trace: seq<AgentEvent>, k: nat, taskId: string)
    requires 0 < k <= |trace|
    ensures LastCompleted(trace[..k], taskId) ==
            if trace[k - 1].kind.ToolCallCompleted? && ReducerTask(trace[k - 1]) == Some(taskId) then Some(trace[k - 1])
            else LastCompleted(trace[..k - 1], taskId)
  {
    assert trace[..k][..k - 1] == trace[..k - 1];
  }

  lemma OutcomeNext(trace: seq<AgentEvent>, k: nat, taskId: string)
    requires 0 < k <= |trace| && FullyCarried(trace[k - 1]) && OutcomesAgree(trace, k - 1, taskId)
    ensures OutcomesAgree(trace, k, taskId)
  {
    var ev := trace[k - 1];
    RunNext(trace, k);
    LastCompletedNext(trace, k, taskId);
    ProjectWellKept(trace, k - 1);
    if !Touches(ev, taskId) {
      UntouchedTaskKept(Run(trace[..k - 1]), Project(trace, k - 1), ev, k - 1, taskId);
    }
  }

  /** Fed the whole trace, the console's outcome columns are the reducer's. */
  lemma {:induction false} OutcomesFollowReducer(trace: seq<AgentEvent>, k: nat, taskId: string)
    requires k <= |trace| && forall i | 0 <= i < |trace| :: FullyCarried(trace[i])
    ensures OutcomesAgree(trace, k, taskId)
  {
    if k == 0 {
      assert trace[..k] == [];
    } else {
      OutcomesFollowReducer(trace, k - 1, taskId);
      OutcomeNext(trace, k, taskId);
    }
  }

  /** The last tool name an event about the task carried. */
  function LastTool(events: seq<AgentEvent>, k: nat, taskId: string): string
    requires k <= |events|
  {
    if k == 0 then ""
    else if ConsoleTask(events[k - 1], k - 1) == Some(taskId) && PayloadOf(events[k - 1]).toolName.Some?
    then PayloadOf(events[k - 1]).toolName.value
    else LastTool(events, k - 1, taskId)
  }

  /** The last status an event about the task carried; a completed call without one is "unknown",
      and a task nobody gave a status is queued. */
  function LastStatus(events: seq<AgentEvent>, k: nat, taskId: string): Status
    requires k <= |events|
  {
    if k == 0 then Queued
    else if ConsoleTask(events[k - 1], k - 1) == Some(taskId) && PayloadOf(events[k - 1]).status.Some?
    then PayloadOf(events[k - 1]).status.value
    else if ConsoleTask(events[k - 1], k - 1) == Some(taskId) && events[k - 1].kind.ToolCallCompleted? then OtherStatus("unknown")
    else LastStatus(events, k - 1, taskId)
  }

  /** Whatever fields the events carry, a row shows the last tool and status given to its task. */
  lemma {:induction false} RowsFollowEvents(events: seq<AgentEvent>, k: nat, taskId: string)
    requires k <= |events|
    ensures taskId !in Project(events, k).rows ==> LastTool(events, k, taskId) == "" && LastStatus(events, k, taskId) == Queued
    ensures taskId in Project(events, k).rows ==>
              && Project(events, k).rows[taskId].tool == LastTool(events, k, taskId)
              && Project(events, k).rows[taskId].status == LastStatus(events, k, taskId)
  {
    if k > 0 {
      RowsFollowEvents(events, k - 1, taskId);
      ProjectWellKept(events, k - 1);
      if ConsoleTask(events[k - 1], k - 1) != Some(taskId) {
        ConsoleKeeps(Project(events, k - 1), events[k - 1], k - 1, taskId);
      }
    }
  }

  /** Some event touched `a` before any touched `b`. */
  ghost predicate TouchedBefore(events: seq<AgentEvent>, k: nat, a: string, b: string) {
    exists i: nat :: FirstTouches(events, k, i, a, b)
  }

  predicate FirstTouches(events: seq<AgentEvent>, k: nat, i: nat, a: string, b: string) {
    && i < k <= |events| && ConsoleTask(events[i], i) == Some(a)
    && forall j | 0 <= j <= i :: ConsoleTask(events[j], j) != Some(b)
  }

  lemma {:induction false} RowsWereTouched(events: seq<AgentEvent>, k: nat, taskId: string)
    requires k <= |events|
    ensures taskId in Project(events, k).rows <==> exists i | 0 <= i < k :: ConsoleTask(events[i], i) == Some(taskId)
  {
    if k > 0 {
      RowsWereTouched(events, k - 1, taskId);
      ProjectWellKept(events, k - 1);
    }
  }

  lemma OrderNext(events: seq<AgentEvent>, k: nat)
    requires 0 < k <= |events|
    ensures var before, task := Project(events, k - 1), ConsoleTask(events[k - 1], k - 1);
            Project(events, k).order ==
            if task.Some? && task.value !in before.rows then before.order + [task.value] else before.order
  {
    ProjectWellKept(events, k - 1);
  }

  /** The rows stand in the order in which their tasks were first touched. */
  lemma {:induction false} RowsInTouchOrder(events: seq<AgentEvent>, k: nat, i: nat, j: nat)
    requires k <= |events| && i < j < |Project(events, k).order|
    ensures TouchedBefore(events, k, Project(events, k).order[i], Project(events, k).order[j])
  {
    var order := Project(events, k).order;
    if k > 0 {
      OrderNext(events, k);
      var before := Project(events, k - 1);
      if j < |before.order| {
        RowsInTouchOrder(events, k - 1, i, j);
        var first: nat :| FirstTouches(events, k - 1, first, order[i], order[j]);
        assert FirstTouches(events, k, first, order[i], order[j]);
      } else {
        ProjectWellKept(events, k - 1);
        RowsWereTouched(events, k - 1, order[i]);
        RowsWereTouched(events, k - 1, order[j]);
        assert before.order[i] in before.order;
        var first: nat :| first < k - 1 && ConsoleTask(events[first], first) == Some(order[i]);
        assert FirstTouches(events, k, first, order[i], order[j]);
      }
    }
  }
}
