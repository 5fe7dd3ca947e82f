/** The mocked backend call that processes one node. The one-second delay
    before it answers is not modelled; the call is a plain function. */
module Api {
  import opened Results
  import opened Flow

  /** The node types the backend knows. */
  const KnownNodeTypes: set<string> :=
    {"user_input", "ai_agent", "data_retrieval", "analysis", "visualization", "action"}

  /** The message of the error thrown for any other node type. */
  const UnknownNodeType: string := "Unknown node type"

  /** `processNode`: a canned payload chosen by the node-level type, or the
      "Unknown node type" error for any other type and for a node without one. */
  function ProcessNode(node: FlowNode): (r: Result<Payload>)
    ensures r.Ok? <==> node.nodeType.Some? && node.nodeType.value in KnownNodeTypes
    ensures r.Err? ==> r.message == UnknownNodeType
  {
    if node.nodeType.None? then Err(UnknownNodeType)
    else
      var t := node.nodeType.value;
      if t == "user_input" then Ok(Query("Sample user query"))
      else if t == "ai_agent" then Ok(Response("AI analysis complete"))
      else if t == "data_retrieval" then Ok(MarketData(50000, 3000))
      else if t == "analysis" then Ok(Insights(["Trend is bullish", "Volume increasing"]))
      else if t == "visualization" then Ok(Chart("chart_data_url"))
      else if t == "action" then Ok(ActionStatus("Report sent successfully"))
      else Err(UnknownNodeType)
  }

  /** Each known type yields the payload of its own shape, so the six
      successful outcomes are pairwise distinct. */
  lemma PayloadShapeFollowsType(node: FlowNode)
    requires node.nodeType.Some? && node.nodeType.value in KnownNodeTypes
    ensures node.nodeType == Some("user_input") <==> ProcessNode(node).value.Query?
    ensures node.nodeType == Some("ai_agent") <==> ProcessNode(node).value.Response?
    ensures node.nodeType == Some("data_retrieval") <==> ProcessNode(node).value.MarketData?
    ensures node.nodeType == Some("analysis") <==> ProcessNode(node).value.Insights?
    ensures node.nodeType == Some("visualization") <==> ProcessNode(node).value.Chart?
    ensures node.nodeType == Some("action") <==> ProcessNode(node).value.ActionStatus?
  {
  }

  /** A data-retrieval node yields the prices btc = 50000 and eth = 3000. */
  lemma DataRetrievalPrices(node: FlowNode)
    requires node.nodeType == Some("data_retrieval")
    ensures ProcessNode(node) == Ok(MarketData(50000, 3000))
  {
  }

  /** An analysis node yields exactly two insights, in this order. */
  lemma AnalysisInsights(node: FlowNode)
    requires node.nodeType == Some("analysis")
    ensures ProcessNode(node).Ok? && ProcessNode(node).value.Insights?
    ensures ProcessNode(node).value.insights == ["Trend is bullish", "Volume increasing"]
  {
  }

  /** Only the node-level type matters: id, position, label, data-level type,
      status and prior result have no influence on the outcome. */
  lemma OutcomeDependsOnlyOnType(a: FlowNode, b: FlowNode)
    requires a.nodeType == b.nodeType
    ensures ProcessNode(a) == ProcessNode(b)
  {
  }
}
