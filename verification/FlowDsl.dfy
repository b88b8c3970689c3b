/** The flow graph as it is stored: nodes, labelled and guarded edges. */
module FlowDsl {
  import opened Prelude

  type NodeId = nat

  newtype i32 = x: int | -0x8000_0000 <= x < 0x8000_0000

  /** Two's-complement truncation to 32 bits, as an unchecked `+=` on `i32` performs it. */
  function WrapI32(x: int): (r: i32)
    ensures (r as int - x) % 0x1_0000_0000 == 0
  {
    var m := x % 0x1_0000_0000;
    if m < 0x8000_0000 then m as i32 else (m - 0x1_0000_0000) as i32
  }

  /** JSON values; numbers are integers. */
  datatype Json =
    | JNull
    | JBool(b: bool)
    | JNumber(n: int)
    | JString(s: string)
    | JArray(items: seq<Json>)
    | JObject(fields: map<string, Json>)

  datatype NodeKind =
    | Start(requireSession: bool)
    | Render(template: string)
    | Authenticator(providerUrn: string)
    | Broker(idpAlias: string)
    | Switch(condition: string)
    | SubFlow(flowAlias: string)
    | Action(action: string)
    | SuccessTerminal(acr: Option<string>, stepUpRequired: bool)
    | FailureTerminal(reason: string)
  {
    predicate IsTerminal() {
      SuccessTerminal? || FailureTerminal?
    }
  }

  datatype Requirement = Required | Optional | Alternative | Disabled

  datatype FlowNode = FlowNode(id: NodeId, displayName: string, kind: NodeKind, requirement: Requirement)

  /** The label of an edge. `Otherwise` is the default. */
  datatype EdgeCondition = Otherwise | OnSuccess | OnFailure | OnStatus(code: string)

  datatype Edge = Edge(from: NodeId, to: NodeId, on: EdgeCondition, guard: map<string, Json>)

  datatype FlowDefinition = FlowDefinition(
    id: nat,
    alias: string,
    version: int,
    start: NodeId,
    nodes: seq<FlowNode>,
    edges: seq<Edge>
  )

  /** What a flow gathers across its steps. */
  datatype FlowContext = FlowContext(
    username: Option<string>,
    userId: Option<string>,
    clientId: Option<string>,
    amr: seq<string>,
    authnLevel: i32,
    requestedAcr: Option<string>,
    sessionId: Option<string>,
    locals: map<string, Json>
  )
}
