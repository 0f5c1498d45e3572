/** The event envelope both projections read. */
module RunEvents {
  import opened Options

  /** Status strings the reducer tells apart; every other one keeps its name. */
  datatype Status = Queued | Running | Retrying | Approval | Success | Cancelled | Failed | OtherStatus(name: string)

  datatype Kind =
    | PlanCreated | ValidationProgress | StepProgress | ToolCallCompleted | ApprovalCheckpoint
    | ClarificationQuestion | FinalResponse | ExecutionCompleted | WorkflowComposingProgress
    | WorkflowCompleted | ErrorEvent | Done | OtherKind(name: string)

  /** The payload entries that are read; an absent or null entry is `None`. */
  datatype Payload = Payload(
    step: Option<string>,
    taskId: Option<string>,
    toolName: Option<string>,
    status: Option<Status>,
    error: Option<string>,
    durationMs: Option<real>,
    cached: bool,
    retries: Option<real>,
    text: Option<string>,
    message: Option<string>,
    background: bool,
    planSteps: nat)

  const EMPTY := Payload(None, None, None, None, None, None, false, None, None, None, false, 0)

  datatype AgentEvent = AgentEvent(kind: Kind, payload: Option<Payload>)

  /** `ev.payload ?? {}` */
  function PayloadOf(ev: AgentEvent): Payload {
    Or(ev.payload, EMPTY)
  }

  /** `Number(x ?? 0) || undefined` */
  function Duration(p: Payload): Option<real> {
    if Or(p.durationMs, 0.0) == 0.0 then None else p.durationMs
  }

  function LastOf<T>(s: seq<T>, n: nat): seq<T> {
    if |s| <= n then s else s[|s| - n..]
  }
}
