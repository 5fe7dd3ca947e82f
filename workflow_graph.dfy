/** The interactive graph view: its node and edge lists, the updates a click
    applies to the node list around the call to `processNode`, and the edge a
    new connection appends. */
module WorkflowGraph {
  import opened Results
  import opened Flow
  import opened Api

  /** `nds.map(n => n.id === id ? { ...n, data: f(n.data) } : n)`: rewrite
      the data of every node with id `id` and keep every other node. */
  function UpdateMatching(nds: seq<FlowNode>, id: string, f: NodeData -> NodeData): (r: seq<FlowNode>)
    ensures |r| == |nds|
    ensures forall i :: 0 <= i < |nds| ==>
      r[i] == if nds[i].id == id then nds[i].(data := f(nds[i].data)) else nds[i]
  {
    if nds == [] then []
    else
      var n := nds[0];
      [if n.id == id then n.(data := f(n.data)) else n] + UpdateMatching(nds[1..], id, f)
  }

  /** `{ ...data, status: 'processing' }` */
  function WithProcessing(d: NodeData): NodeData
  {
    d.(status := Some(Processing))
  }

  /** `{ ...data, status: 'completed', result }` */
  function WithCompleted(result: Payload): NodeData -> NodeData
  {
    (d: NodeData) => d.(status := Some(Completed), result := Some(result))
  }

  /** `{ ...data, status: 'error' }` */
  function WithError(d: NodeData): NodeData
  {
    d.(status := Some(Error))
  }

  /** The first update of a click: the clicked node is marked processing. */
  function MarkProcessing(nds: seq<FlowNode>, id: string): seq<FlowNode>
  {
    UpdateMatching(nds, id, WithProcessing)
  }

  /** The update after a successful call: completed, with the payload. */
  function MarkCompleted(nds: seq<FlowNode>, id: string, result: Payload): seq<FlowNode>
  {
    UpdateMatching(nds, id, WithCompleted(result))
  }

  /** The update after a failed call: error, the result left as it was. */
  function MarkError(nds: seq<FlowNode>, id: string): seq<FlowNode>
  {
    UpdateMatching(nds, id, WithError)
  }

  /** The two node lists one click renders: after the processing update, then
      after the completed or error update, depending on `processNode`. */
  function ClickSnapshots(nds: seq<FlowNode>, node: FlowNode): seq<seq<FlowNode>>
  {
    var busy := MarkProcessing(nds, node.id);
    match ProcessNode(node)
    case Ok(result) => [busy, MarkCompleted(busy, node.id, result)]
    case Err(_) => [busy, MarkError(busy, node.id)]
  }

  /** The edge `onConnect` builds: the connection's endpoints and handles,
      type `smoothstep`, id `e<source>-<target>`. */
  function ConnectionEdge(c: Connection): Edge
  {
    Edge("e" + c.source + "-" + c.target, c.source, c.target, c.sourceHandle, c.targetHandle, "smoothstep")
  }

  /** A data update keeps the list's length and order, and every node's id,
      node-level type and position; it touches only nodes with the given id. */
  lemma {:induction false} UpdateKeepsShape(nds: seq<FlowNode>, id: string, f: NodeData -> NodeData)
    ensures var r := UpdateMatching(nds, id, f);
      |r| == |nds|
      && (forall i :: 0 <= i < |nds| ==>
            r[i].id == nds[i].id && r[i].nodeType == nds[i].nodeType && r[i].position == nds[i].position)
      && (forall i :: 0 <= i < |nds| && nds[i].id != id ==> r[i] == nds[i])
  {
  }

  /** With no node of the given id, each of the three updates changes nothing. */
  lemma NoMatchNoChange(nds: seq<FlowNode>, id: string, result: Payload)
    requires !HasNode(nds, id)
    ensures MarkProcessing(nds, id) == nds
    ensures MarkCompleted(nds, id, result) == nds
    ensures MarkError(nds, id) == nds
  {
  }

  /** The processing update sets the status of the clicked node and keeps its
      label, data-level type and any existing result. */
  lemma ProcessingKeepsData(nds: seq<FlowNode>, id: string, i: nat)
    requires i < |nds| && nds[i].id == id
    ensures var r := MarkProcessing(nds, id);
      |r| == |nds|
      && r[i].data.status == Some(Processing)
      && r[i].data.labelText == nds[i].data.labelText
      && r[i].data.dataType == nds[i].data.dataType
      && r[i].data.result == nds[i].data.result
  {
  }

  /** The completed update stores the payload and sets the status, and keeps
      the label and data-level type. */
  lemma CompletedStoresResult(nds: seq<FlowNode>, id: string, result: Payload, i: nat)
    requires i < |nds| && nds[i].id == id
    ensures var r := MarkCompleted(nds, id, result);
      |r| == |nds|
      && r[i].data == NodeData(nds[i].data.labelText, nds[i].data.dataType, Some(Completed), Some(result))
  {
  }

  /** The error update sets the status and leaves the existing result alone. */
  lemma ErrorKeepsResult(nds: seq<FlowNode>, id: string, i: nat)
    requires i < |nds| && nds[i].id == id
    ensures var r := MarkError(nds, id);
      |r| == |nds|
      && r[i].data == nds[i].data.(status := Some(Error))
      && r[i].data.result == nds[i].data.result
  {
  }

  /** One click renders `processing` for the clicked node and then exactly one
      of `completed` (with the payload) or `error` (with the result it had
      before the click); every node with another id is the same in both. */
  lemma ClickStatusSequence(nds: seq<FlowNode>, node: FlowNode, i: nat)
    requires i < |nds| && nds[i].id == node.id
    ensures var s := ClickSnapshots(nds, node);
      |s| == 2 && |s[0]| == |nds| && |s[1]| == |nds|
      && s[0][i].data.status == Some(Processing)
      && (s[1][i].data.status == Some(Completed) <==> ProcessNode(node).Ok?)
      && (s[1][i].data.status == Some(Error) <==> ProcessNode(node).Err?)
      && (ProcessNode(node).Ok? ==> s[1][i].data.result == Some(ProcessNode(node).value))
      && (ProcessNode(node).Err? ==> s[1][i].data.result == nds[i].data.result)
      && (forall j :: 0 <= j < |nds| && nds[j].id != node.id ==> s[0][j] == nds[j] && s[1][j] == nds[j])
  {
    var busy := MarkProcessing(nds, node.id);
    ProcessingKeepsData(nds, node.id, i);
    match ProcessNode(node)
    case Ok(result) => CompletedStoresResult(busy, node.id, result, i);
    case Err(_) => ErrorKeepsResult(busy, node.id, i);
  }

  /** When node ids contain no '-', the id of a connection's edge determines
      both of its endpoints. */
  lemma {:induction false} ConnectionEdgeIdDeterminesEndpoints(c: Connection, d: Connection)
    requires '-' !in c.source && '-' !in d.source
    requires ConnectionEdge(c).id == ConnectionEdge(d).id
    ensures c.source == d.source && c.target == d.target
  {
    var s := ConnectionEdge(c).id;
    var m, n := |c.source|, |d.source|;
    assert s[1 + m] == '-' && s[1 + n] == '-';
    assert s[1..1 + m] == c.source && s[1..1 + n] == d.source;
    assert m == n;
    assert s[2 + m..] == c.target && s[2 + n..] == d.target;
  }

  /** The seed graph the view starts from. */
  const InitialNodes: seq<FlowNode> :=
    [FlowNode("1", Some("user_input"), Position(100, 0), NodeData("User Query", Some("input"), Some(Idle), None))]

  const InitialEdges: seq<Edge> :=
    [Edge("e1-2", "1", "2", None, None, "smoothstep")]

  /** The graph view's state: the node and edge lists, the node whose modal is
      open, and (for the proofs) every node list the view has rendered. */
  class GraphState {
    var nodes: seq<FlowNode>
    var edges: seq<Edge>
    var selectedNode: Option<FlowNode>
    ghost var renders: seq<seq<FlowNode>>

    constructor ()
      ensures nodes == InitialNodes && edges == InitialEdges
      ensures selectedNode == None && renders == []
    {
      nodes := InitialNodes;
      edges := InitialEdges;
      selectedNode := None;
      renders := [];
    }

    /** `onConnect`: append the connection's edge; nothing else changes. */
    method OnConnect(c: Connection)
      modifies this
      ensures edges == old(edges) + [ConnectionEdge(c)]
      ensures |edges| == |old(edges)| + 1 && edges[..|old(edges)|] == old(edges)
      ensures edges[|edges| - 1].id == "e" + c.source + "-" + c.target
      ensures edges[|edges| - 1].edgeType == "smoothstep"
      ensures nodes == old(nodes) && selectedNode == old(selectedNode) && renders == old(renders)
    {
      edges := edges + [ConnectionEdge(c)];
    }

    /** `onNodeClick`: open the modal for the node, mark it processing, call
      `processNode` with the clicked node, then mark it completed with the
      payload or, if the call throws, mark it error. */
    method OnNodeClick(node: FlowNode)
      modifies this
      ensures selectedNode == Some(node)
      ensures renders == old(renders) + ClickSnapshots(old(nodes), node)
      ensures nodes == ClickSnapshots(old(nodes), node)[1]
      ensures edges == old(edges)
    {
      selectedNode := Some(node);
      nodes := MarkProcessing(nodes, node.id);
      renders := renders + [nodes];
      var outcome := ProcessNode(node);
      match outcome {
        case Ok(result) =>
          nodes := MarkCompleted(nodes, node.id, result);
        case Err(_) =>
          nodes := MarkError(nodes, node.id);
      }
      renders := renders + [nodes];
    }
  }
}
