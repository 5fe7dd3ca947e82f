/** The workflow-creation page: it turns a plan's steps into a node list and
    a dependency edge list, routes company questions to a description lookup,
    and keeps the chat's message list. */
module CreateWorkflow {
  import opened Results
  import opened Text
  import opened Flow
  import opened Seqs

  /** One step of a plan: the node type, the step's input (the node's label)
      and the indices of the steps it depends on, if any. */
  datatype Step = Step(stepType: string, input: string, dependencies: Option<seq<int>>)

  /** A plan: a description for the chat and its steps. */
  datatype WorkflowPlan = WorkflowPlan(description: string, steps: seq<Step>)

  datatype Role = User | Assistant

  /** The node a chat message points at in the graph. */
  datatype FlowComponent = FlowComponent(nodeId: string, connectedTo: Option<string>)

  datatype Message = Message(role: Role, content: string, timestamp: int, flowComponent: Option<FlowComponent>)

  /** The graph shown beside the chat. */
  datatype WorkflowState = WorkflowState(nodes: seq<FlowNode>, edges: seq<Edge>)

  /** The id of the node built for step `index`: `node-<index>`. */
  function NodeId(index: nat): string
  {
    "node-" + NatToString(index)
  }

  /** `createWorkflowNode(type, label, index)`. */
  function CreateWorkflowNode(nodeType: string, labelText: string, index: nat): FlowNode
  {
    FlowNode(NodeId(index), Some(nodeType), Position(100 + index * 200, 100),
             NodeData(labelText, None, Some(Idle), None))
  }

  /** `steps.map((step, index) => createWorkflowNode(step.type, step.input, index))`:
      one idle node per step, in step order, laid out left to right. */
  function BuildNodes(steps: seq<Step>): (r: seq<FlowNode>)
    ensures |r| == |steps|
    ensures forall i :: 0 <= i < |steps| ==>
      && r[i].id == "node-" + NatToString(i)
      && r[i].nodeType == Some(steps[i].stepType)
      && r[i].position == Position(100 + 200 * i, 100)
      && r[i].data == NodeData(steps[i].input, None, Some(Idle), None)
  {
    seq(|steps|, i requires 0 <= i < |steps| => CreateWorkflowNode(steps[i].stepType, steps[i].input, i))
  }

  /** The dependency list of a step, empty when it has none. */
  function Dependencies(step: Step): seq<int>
  {
    if step.dependencies.Some? then step.dependencies.value else []
  }

  /** The edge from dependency `dep` to the node of step `index`. */
  function DependencyEdge(dep: int, index: nat): Edge
  {
    Edge("edge-" + IntToString(dep) + "-" + NatToString(index),
         "node-" + IntToString(dep), NodeId(index), None, None, "smoothstep")
  }

  /** The edges of one step: one per dependency, in order. A missing or empty
      dependency list gives none, which is what the early `return []` of the
      flatMap callback produces. */
  function StepEdges(step: Step, index: nat): seq<Edge>
  {
    var deps := Dependencies(step);
    seq(|deps|, j requires 0 <= j < |deps| => DependencyEdge(deps[j], index))
  }

  /** The number of dependencies of the first `m` steps. */
  function DependenciesBefore(steps: seq<Step>, m: nat): nat
    requires m <= |steps|
  {
    if m == 0 then 0 else DependenciesBefore(steps, m - 1) + |Dependencies(steps[m - 1])|
  }

  /** The edges of each step, step by step. */
  function EdgeLists(steps: seq<Step>): seq<seq<Edge>>
  {
    seq(|steps|, i requires 0 <= i < |steps| => StepEdges(steps[i], i))
  }

  /** `steps.flatMap(...)`: the edges of every step, in step order. */
  function BuildEdges(steps: seq<Step>): seq<Edge>
  {
    Flatten(EdgeLists(steps))
  }

  /** The edges of the steps before `m` are as many as their dependencies. */
  lemma {:induction false} EdgeListsLengthBefore(steps: seq<Step>, m: nat)
    requires m <= |steps|
    ensures LengthBefore(EdgeLists(steps), m) == DependenciesBefore(steps, m)
  {
    if m > 0 {
      EdgeListsLengthBefore(steps, m - 1);
    }
  }

  /** There is one edge per dependency over all steps; a step with a missing
      or empty dependency list contributes none. */
  lemma EdgeCount(steps: seq<Step>)
    ensures |BuildEdges(steps)| == DependenciesBefore(steps, |steps|)
  {
    EdgeListsLengthBefore(steps, |steps|);
  }

  /** Node ids of a built graph are pairwise distinct. */
  lemma BuiltNodeIdsDistinct(steps: seq<Step>, i: nat, j: nat)
    requires i < |steps| && j < |steps| && i != j
    ensures BuildNodes(steps)[i].id != BuildNodes(steps)[j].id
  {
    var r := BuildNodes(steps);
    if r[i].id == r[j].id {
      assert NatToString(i) == r[i].id[5..] == r[j].id[5..] == NatToString(j);
      NatToStringInjective(i, j);
    }
  }

  /** Edges are ordered by step, then by dependency order: the `j`-th
      dependency of step `i` is edge number (dependencies of the steps before
      `i`) + `j`. With `EdgeCount` this fixes every edge. */
  lemma EdgeAt(steps: seq<Step>, i: nat, j: nat)
    requires i < |steps| && j < |Dependencies(steps[i])|
    ensures DependenciesBefore(steps, i) + j < |BuildEdges(steps)|
    ensures BuildEdges(steps)[DependenciesBefore(steps, i) + j] == DependencyEdge(Dependencies(steps[i])[j], i)
    ensures var e, dep := BuildEdges(steps)[DependenciesBefore(steps, i) + j], Dependencies(steps[i])[j];
      && e.id == "edge-" + IntToString(dep) + "-" + NatToString(i)
      && e.source == "node-" + IntToString(dep)
      && e.target == "node-" + NatToString(i)
      && e.edgeType == "smoothstep"
  {
    var lists := EdgeLists(steps);
    assert lists[i] == StepEdges(steps[i], i);
    FlattenAt(lists, i, j);
    EdgeListsLengthBefore(steps, i);
  }

  /** Every edge's target is the id of a node of the built list. */
  lemma EdgeTargetsExist(steps: seq<Step>, k: nat)
    requires k < |BuildEdges(steps)|
    ensures exists i :: 0 <= i < |steps| && BuildEdges(steps)[k].target == BuildNodes(steps)[i].id
  {
    var lists := EdgeLists(steps);
    FlattenFrom(lists, k);
    var i, j :| 0 <= i < |lists| && 0 <= j < |lists[i]| && BuildEdges(steps)[k] == lists[i][j];
    assert lists[i][j].target == NodeId(i);
    assert BuildNodes(steps)[i].id == NodeId(i);
  }

  /** An edge's source is not checked: it names a node of the built list
      exactly when its dependency index is a step index. */
  lemma DependencySourceResolves(steps: seq<Step>, dep: int, index: nat)
    ensures HasNode(BuildNodes(steps), DependencyEdge(dep, index).source) <==> 0 <= dep < |steps|
  {
    var nodes := BuildNodes(steps);
    var source := DependencyEdge(dep, index).source;
    if HasNode(nodes, source) {
      var i :| 0 <= i < |nodes| && nodes[i].id == source;
      assert IntToString(dep) == source[5..] == nodes[i].id[5..] == NatToString(i);
      IntToStringAsNat(dep, i);
    }
    if 0 <= dep < |steps| {
      assert nodes[dep].id == source;
    }
  }

  /** `prompt.toLowerCase().startsWith('what is') || ...startsWith('who is')`. */
  predicate IsCompanyQuery(prompt: string)
  {
    StartsWith(Lower(prompt), "what is") || StartsWith(Lower(prompt), "who is")
  }

  /** `prompt.split(' ').slice(2).join(' ')`. */
  function CompanyName(prompt: string): string
  {
    Join(SliceFrom(Split(prompt, ' '), 2), ' ')
  }

  /** The company name is the prompt's text after its second space, and ""
      when the prompt has fewer than two spaces. */
  lemma CompanyNameAfterSecondSpace(prompt: string)
    ensures CompanyName(prompt) == SuffixAfter(prompt, ' ', 2)
    ensures Count(prompt, ' ') < 2 ==> CompanyName(prompt) == ""
  {
    SplitSliceJoin(prompt, ' ', 2);
    if Count(prompt, ' ') < 2 {
      SuffixAfterTooFew(prompt, ' ', 2);
    }
  }

  /** For a prompt `a b rest` whose first two words have no spaces, the
      company name is `rest` exactly, spaces and all. */
  lemma CompanyNameOfWords(a: string, b: string, rest: string)
    requires ' ' !in a && ' ' !in b
    ensures CompanyName(a + " " + b + " " + rest) == rest
  {
    var p := a + " " + b + " " + rest;
    CompanyNameAfterSecondSpace(p);
    assert p == a + [' '] + (b + [' '] + rest);
    SuffixAfterPiece(a, ' ', b + [' '] + rest, 1);
    SuffixAfterPiece(b, ' ', rest, 0);
  }

  /** The test ignores ASCII letter case and looks only at the prompt's start:
      text appended to a company question keeps it one, and once the prompt
      has seven characters, appended text cannot change the answer. */
  lemma CompanyQueryCaseAndSuffix(prompt: string, more: string)
    ensures IsCompanyQuery(prompt) == IsCompanyQuery(Lower(prompt))
    ensures IsCompanyQuery(prompt) ==> IsCompanyQuery(prompt + more)
    ensures |prompt| >= 7 ==> IsCompanyQuery(prompt + more) == IsCompanyQuery(prompt)
  {
    var l := Lower(prompt);
    assert Lower(l) == l;
    var lm := Lower(prompt + more);
    assert lm == l + Lower(more);
    if StartsWith(l, "what is") {
      assert lm[..7] == l[..7];
    }
    if StartsWith(l, "who is") {
      assert lm[..6] == l[..6];
    }
    if |prompt| >= 7 {
      assert lm[..7] == l[..7];
      assert lm[..6] == l[..6];
    }
  }

  /** "WHO IS Nvidia" is a company question about "Nvidia": letter case does
      not matter. */
  lemma CompanyQueryExample()
    ensures IsCompanyQuery("WHO IS Nvidia") && CompanyName("WHO IS Nvidia") == "Nvidia"
  {
    var p := "WHO IS Nvidia";
    var l := Lower(p);
    assert l[0] == 'w' && l[1] == 'h' && l[2] == 'o' && l[3] == ' ' && l[4] == 'i' && l[5] == 's';
    assert l[..6] == "who is";
    assert p == "WHO" + " " + "IS" + " " + "Nvidia";
    CompanyNameOfWords("WHO", "IS", "Nvidia");
  }

  /** A prompt that merely contains the phrase later on is not a company
      question. */
  lemma NotCompanyQueryExample()
    ensures !IsCompanyQuery("Tell me who is trending")
  {
    assert Lower("Tell me who is trending")[0] == 't';
  }

  /** What goes wrong in `handleSubmit` is reported with this message. */
  const ErrorReply: string := "Sorry, I encountered an error processing your request."

  /** The graph a plan yields. */
  function PlanGraph(plan: WorkflowPlan): WorkflowState
  {
    WorkflowState(BuildNodes(plan.steps), BuildEdges(plan.steps))
  }

  /** The assistant's reply to an accepted prompt. A company question gets the
      description of the company (or the error reply if the lookup throws); any
      other prompt gets the plan's description pointing at the first node, or
      the error reply if planning throws or the plan has no steps (reading the
      first node's id then throws). */
  function Reply(prompt: string, describe: string -> Result<string>,
                 plan: string -> Result<WorkflowPlan>, replyTime: int): (m: Message)
    ensures m.role == Assistant && m.timestamp == replyTime
  {
    if IsCompanyQuery(prompt) then
      var d := describe(CompanyName(prompt));
      if d.Ok? then Message(Assistant, d.value, replyTime, None)
      else Message(Assistant, ErrorReply, replyTime, None)
    else
      var p := plan(prompt);
      if p.Err? || |p.value.steps| == 0 then Message(Assistant, ErrorReply, replyTime, None)
      else Message(Assistant, p.value.description, replyTime, Some(FlowComponent(NodeId(0), None)))
  }

  /** True when an accepted prompt is handled without an exception, which is
      when the input is cleared. */
  predicate Succeeds(prompt: string, describe: string -> Result<string>, plan: string -> Result<WorkflowPlan>)
  {
    if IsCompanyQuery(prompt) then describe(CompanyName(prompt)).Ok?
    else plan(prompt).Ok? && |plan(prompt).value.steps| > 0
  }

  /** The graph after an accepted prompt: replaced by the plan's graph once a
      plan has arrived, even when it is empty. */
  function NextWorkflow(oldWorkflow: WorkflowState, prompt: string,
                        plan: string -> Result<WorkflowPlan>): WorkflowState
  {
    if !IsCompanyQuery(prompt) && plan(prompt).Ok? then PlanGraph(plan(prompt).value)
    else oldWorkflow
  }

  /** A successful plan reply points at the graph's first node. */
  lemma PlanReplyPointsAtFirstNode(prompt: string, describe: string -> Result<string>,
                                   plan: string -> Result<WorkflowPlan>, replyTime: int)
    requires !IsCompanyQuery(prompt) && Succeeds(prompt, describe, plan)
    ensures var m := Reply(prompt, describe, plan, replyTime);
      m.flowComponent.Some?
      && m.flowComponent.value.nodeId == NextWorkflow(WorkflowState([], []), prompt, plan).nodes[0].id
      && m.content == plan(prompt).value.description
    ensures Reply(prompt, describe, plan, replyTime)
         == Message(Assistant, plan(prompt).value.description, replyTime, Some(FlowComponent(NodeId(0), None)))
  {
  }

  /** A company question whose lookup succeeds is answered with the
      description of the named company, and points at no graph node. */
  lemma CompanyReplyIsDescription(prompt: string, describe: string -> Result<string>,
                                  plan: string -> Result<WorkflowPlan>, replyTime: int)
    requires IsCompanyQuery(prompt) && describe(CompanyName(prompt)).Ok?
    ensures Reply(prompt, describe, plan, replyTime)
         == Message(Assistant, describe(CompanyName(prompt)).value, replyTime, None)
  {
  }

  /** A failed submission replies with the error message and points nowhere. */
  lemma FailureRepliesWithError(prompt: string, describe: string -> Result<string>,
                               plan: string -> Result<WorkflowPlan>, replyTime: int)
    requires !Succeeds(prompt, describe, plan)
    ensures Reply(prompt, describe, plan, replyTime) == Message(Assistant, ErrorReply, replyTime, None)
  {
  }

  /** The page's state. */
  class CreateWorkflowPage {
    var prompt: string
    var isGenerating: bool
    var messages: seq<Message>
    var workflow: WorkflowState

    constructor ()
      ensures prompt == "" && !isGenerating && messages == [] && workflow == WorkflowState([], [])
    {
      prompt := "";
      isGenerating := false;
      messages := [];
      workflow := WorkflowState([], []);
    }

    /** The text area's `onChange`. */
    method OnPromptChange(value: string)
      modifies this
      ensures prompt == value
      ensures isGenerating == old(isGenerating) && messages == old(messages) && workflow == old(workflow)
    {
      prompt := value;
    }

    /** `handleSubmit`. A blank prompt, or a submit while one is generating,
      changes nothing. Otherwise the user's message and then exactly one
      assistant reply are appended, the graph is replaced when a plan arrives,
      the input is cleared only on success, and generation ends. The lookups
      `describe` and `plan` and the two timestamps are supplied by the caller. */
    method HandleSubmit(describe: string -> Result<string>, plan: string -> Result<WorkflowPlan>,
                        userTime: int, replyTime: int)
      modifies this
      ensures (Trim(old(prompt)) == "" || old(isGenerating)) ==>
        prompt == old(prompt) && isGenerating == old(isGenerating)
        && messages == old(messages) && workflow == old(workflow)
      ensures !(Trim(old(prompt)) == "" || old(isGenerating)) ==>
        && !isGenerating
        && messages == old(messages) + [Message(User, old(prompt), userTime, None),
                                        Reply(old(prompt), describe, plan, replyTime)]
        && workflow == NextWorkflow(old(workflow), old(prompt), plan)
        && prompt == (if Succeeds(old(prompt), describe, plan) then "" else old(prompt))
    {
      if Trim(prompt) == "" || isGenerating {
        return;
      }
      isGenerating := true;
      var submitted := prompt;
      ghost var before := messages;
      var request := Message(User, submitted, userTime, None);
      messages := messages + [request];
      if IsCompanyQuery(submitted) {
        var description := describe(CompanyName(submitted));
        if description.Ok? {
          assert Succeeds(submitted, describe, plan);
          var reply := Message(Assistant, description.value, replyTime, None);
          assert reply == Reply(submitted, describe, plan, replyTime);
          messages := messages + [reply];
          assert messages == before + [request, reply];
          prompt := "";
        } else {
          assert !Succeeds(submitted, describe, plan);
          var reply := Message(Assistant, ErrorReply, replyTime, None);
          assert reply == Reply(submitted, describe, plan, replyTime);
          messages := messages + [reply];
          assert messages == before + [request, reply];
        }
        assert NextWorkflow(workflow, submitted, plan) == workflow;
      } else {
        var outcome := plan(submitted);
        if outcome.Err? {
          assert !Succeeds(submitted, describe, plan);
          assert NextWorkflow(workflow, submitted, plan) == workflow;
          var reply := Message(Assistant, ErrorReply, replyTime, None);
          assert reply == Reply(submitted, describe, plan, replyTime);
          messages := messages + [reply];
          assert messages == before + [request, reply];
        } else {
          var nodes := BuildNodes(outcome.value.steps);
          var edges := BuildEdges(outcome.value.steps);
          assert NextWorkflow(workflow, submitted, plan) == WorkflowState(nodes, edges);
          workflow := WorkflowState(nodes, edges);
          if |nodes| == 0 {
            assert !Succeeds(submitted, describe, plan);
            var reply := Message(Assistant, ErrorReply, replyTime, None);
            assert reply == Reply(submitted, describe, plan, replyTime);
            messages := messages + [reply];
            assert messages == before + [request, reply];
          } else {
            assert Succeeds(submitted, describe, plan);
            var reply := Message(Assistant, outcome.value.description, replyTime,
                                 Some(FlowComponent(nodes[0].id, None)));
            assert reply == Reply(submitted, describe, plan, replyTime);
            messages := messages + [reply];
            assert messages == before + [request, reply];
            prompt := "";
          }
        }
      }
      assert messages == before + [request, Reply(submitted, describe, plan, replyTime)];
      isGenerating := false;
    }
  }
}
