/** The execution graph as the compiler emits it, and the tasks the executor runs. */
module Plan {

  /** How a tool is called: the fields a task copies from its node. */
  datatype ToolCall = ToolCall(toolName: string, endpointUrl: string, httpMethod: string, inputs: string, candidates: seq<string>)

  /** The `kind` field; every kind the executor does not name is `OtherKind`. */
  datatype NodeKind = ToolNode | MapNode | ConditionalNode | ReduceNode | OtherKind

  /** One entry of `graph["nodes"]`.  For a map node `call` is the node's `body`. */
  datatype PlanNode = PlanNode(
    kind: NodeKind,
    dependsOn: seq<string>,
    call: ToolCall,
    iterateOver: string,
    condition: string,
    branchTrue: seq<string>,
    branchFalse: seq<string>)

  type Nodes = map<string, PlanNode>
}
