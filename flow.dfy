/** The graph entities shared by the dashboard: a React Flow node carrying a
    `NodeData` record, an edge, and the connection the canvas reports when
    the user drags from one handle to another. */
module Flow {
  import opened Results

  /** A node's processing status. */
  datatype Status = Idle | Processing | Completed | Error

  /** The canned result of processing a node, one shape per node type. */
  datatype Payload =
    | Query(query: string)
    | Response(response: string)
    | MarketData(btc: int, eth: int)
    | Insights(insights: seq<string>)
    | Chart(chart: string)
    | ActionStatus(status: string)

  /** `NodeData`: the label (`labelText`, since `label` is a Dafny keyword), the data-level type tag, and the optional status
      and result. Nodes built from a plan carry no data-level type. */
  datatype NodeData = NodeData(
    labelText: string,
    dataType: Option<string>,
    status: Option<Status>,
    result: Option<Payload>)

  /** A canvas position. */
  datatype Position = Position(x: int, y: int)

  /** A graph node: its id, its (optional) node-level type, which selects its
      renderer and its processing, its position and its data. */
  datatype FlowNode = FlowNode(
    id: string,
    nodeType: Option<string>,
    position: Position,
    data: NodeData)

  /** A directed edge from the node named `source` to the node named `target`. */
  datatype Edge = Edge(
    id: string,
    source: string,
    target: string,
    sourceHandle: Option<string>,
    targetHandle: Option<string>,
    edgeType: string)

  /** What the canvas reports when the user connects two handles. */
  datatype Connection = Connection(
    source: string,
    target: string,
    sourceHandle: Option<string>,
    targetHandle: Option<string>)

  /** True when some node of `nodes` has id `id`. */
  predicate HasNode(nodes: seq<FlowNode>, id: string)
  {
    exists i :: 0 <= i < |nodes| && nodes[i].id == id
  }
}
