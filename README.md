# Workflow dashboard core, modelled in Dafny

The dashboard lets a user compose AI and financial-analysis workflows as a
graph of typed nodes (user input, AI agent, data retrieval, analysis,
visualization, action) joined by dependency edges. This project models the
parts of it that hold logic:

- **Node processing** (`api.dfy`, module `Api`). `processNode` maps a node's
  type tag to a fixed payload, or throws "Unknown node type".
- **The graph view** (`workflow_graph.dfy`, module `WorkflowGraph`). A class
  holds the `nodes` and `edges` lists. A node click marks that node
  `processing`, calls `processNode`, then marks it `completed` with the
  payload or `error`. A new connection appends one edge.
- **The workflow-creation page** (`create_workflow.dfy`, module
  `CreateWorkflow`):
  - `createWorkflowNode`.
  - Building the node list and the dependency edge list from a plan's steps.
  - Deciding whether a prompt is a company question, and extracting the
    company name.
  - `handleSubmit`: its guard, its message appends, the graph update and
    clearing the input.

Supporting modules:

- `flow.dfy` (module `Flow`): the node, edge and connection records, with
  `NodeData` among them.
- `results.dfy` (module `Results`): `Option`, and `Result` for calls that
  may throw.
- `text.dfy` (module `Text`): the JavaScript string operations the page
  uses:
  - number formatting in template literals
  - `toLowerCase` and `startsWith`
  - `trim`
  - `split(' ')`, `slice(2)` and `join(' ')`
- `seqs.dfy` (module `Seqs`): `flatMap` as flattening a list of lists.

The graph view uses only `processNode` from `@/lib/api`. The node modal
(`src/components/NodeModal.tsx:2`) imports the `NodeData` type from
`@/lib/workflowExecutor`; that module is not part of this model. So there is
no topological ordering, cycle check, or run over the whole graph here. The
model covers only the operations listed above.

Facts about the code that the model keeps:

- **Node tags.** `processNode` dispatches on `user_input`, `ai_agent`,
  `data_retrieval`, `analysis`, `visualization` and `action`. It reads the
  node-level `type`, not `data.type`: the seed node has `type: 'user_input'`
  but `data.type: 'input'`.
- **Edge endpoints.** Neither end of an edge is checked:
  - The seed edge `e1-2` points at node `2`, which is not in the seed node
    list.
  - An edge built from a plan names `node-<dep>` for any dependency index,
    including one past the last step or a negative one.

  `DependencySourceResolves` states exactly when such a source exists.
- **Status order.** Clicking a completed node sets it back to `processing`,
  so a status does not only move forward. The model does the same.

Outside effects become parameters of the methods:

- The LLM calls `getCompanyDescription` and `createWorkflowFromPrompt` are
  function-typed parameters returning a `Result`. An `Err` stands for a
  thrown exception.
- `handleSubmit` reads `Date.now()` for the user message and for the reply.
  These two readings are integer parameters. On a plan with no steps the
  code reads the clock a third time, for a reply it never sends because
  `nodes[0].id` throws; that discarded reading is not modelled.

## Model

| member | source | states |
|---|---|---|
| `Api.ProcessNode` | src/lib/api.ts:8-22 | a payload is returned exactly when the node-level type is one of the six known tags; any other tag, or no tag at all, gives the error "Unknown node type" |
| `Api.PayloadShapeFollowsType` | src/lib/api.ts:9-20 | each known tag yields the payload shape of its own kind (query, response, data, insights, chart, status), and only that tag yields it |
| `Api.DataRetrievalPrices` | src/lib/api.ts:13-14 | a data-retrieval node yields data with btc = 50000 and eth = 3000 |
| `Api.AnalysisInsights` | src/lib/api.ts:15-16 | an analysis node yields exactly the two insights "Trend is bullish" and "Volume increasing", in that order |
| `Api.OutcomeDependsOnlyOnType` | src/lib/api.ts:8 | two nodes with the same node-level type get the same outcome, whatever their id, position, label, data type, status or prior result |
| `WorkflowGraph.UpdateMatching` | src/components/WorkflowGraph.tsx:35-37 | the mapped list has the same length; each node with the clicked id has its data rewritten, and every other node is kept as it was |
| `WorkflowGraph.MarkProcessing` | src/components/WorkflowGraph.tsx:34-38 | definition of the processing update; its properties are stated by `UpdateKeepsShape`, `NoMatchNoChange` and `ProcessingKeepsData` |
| `WorkflowGraph.MarkCompleted` | src/components/WorkflowGraph.tsx:42-48 | definition of the completed update; its properties are stated by `UpdateKeepsShape`, `NoMatchNoChange` and `CompletedStoresResult` |
| `WorkflowGraph.MarkError` | src/components/WorkflowGraph.tsx:50-56 | definition of the error update; its properties are stated by `UpdateKeepsShape`, `NoMatchNoChange` and `ErrorKeepsResult` |
| `WorkflowGraph.ClickSnapshots` | src/components/WorkflowGraph.tsx:33-57 | definition of the two node lists a click renders; their properties are stated by `ClickStatusSequence` |
| `WorkflowGraph.ConnectionEdge` | src/components/WorkflowGraph.tsx:26 | definition of the edge a connection yields; its properties are stated by `GraphState.OnConnect` and `ConnectionEdgeIdDeterminesEndpoints` |
| `WorkflowGraph.UpdateKeepsShape` | src/components/WorkflowGraph.tsx:34-38 | an update keeps the list's length and order, and every node's id, node-level type and position; nodes with another id are unchanged |
| `WorkflowGraph.NoMatchNoChange` | src/components/WorkflowGraph.tsx:34-56 | if no node has the clicked id, the processing, completed and error updates each leave the list unchanged |
| `WorkflowGraph.ProcessingKeepsData` | src/components/WorkflowGraph.tsx:36 | the processing update sets the target's status to processing and keeps its label, data type and existing result |
| `WorkflowGraph.CompletedStoresResult` | src/components/WorkflowGraph.tsx:42-48 | the completed update sets status completed and result to the payload, and keeps label and data type |
| `WorkflowGraph.ErrorKeepsResult` | src/components/WorkflowGraph.tsx:50-56 | the error update sets status error and leaves the existing result as it was |
| `WorkflowGraph.ClickStatusSequence` | src/components/WorkflowGraph.tsx:33-57 | a click renders processing for the target, then completed (with the payload) exactly when processing succeeds and error (with the pre-click result) exactly when it fails; other nodes are untouched in both renders |
| `WorkflowGraph.ConnectionEdgeIdDeterminesEndpoints` | src/components/WorkflowGraph.tsx:26 | when source ids contain no '-', the edge id `e<source>-<target>` determines both endpoints |
| `WorkflowGraph.GraphState.constructor` | src/components/WorkflowGraph.tsx:101-114 | the view starts from the seed node `1` (user_input, idle) and the seed edge `e1-2`, with no node selected |
| `WorkflowGraph.GraphState.OnConnect` | src/components/WorkflowGraph.tsx:25-27 | exactly one edge is appended at the end, with id `e<source>-<target>` and type smoothstep; earlier edges and the nodes are unchanged |
| `WorkflowGraph.GraphState.OnNodeClick` | src/components/WorkflowGraph.tsx:29-58 | the clicked node is selected; the node list takes the processing state and then the completed or error state, and both renders are recorded; edges are unchanged |
| `Text.NatToString` | src/app/workflows/create/page.tsx:35 | `${index}` is a non-empty string of decimal digits, one digit long exactly for numbers below ten |
| `Text.NatToStringValue` | src/app/workflows/create/page.tsx:35 | the digits of `${index}` denote exactly index, and a number of two or more digits has no leading zero |
| `Text.NatToStringInjective` | src/app/workflows/create/page.tsx:35 | distinct indices are formatted as distinct strings |
| `Text.IntToString` | src/app/workflows/create/page.tsx:84 | `${dep}` starts with a minus sign exactly when the number is negative; after the sign come all the digits of its magnitude, and a non-negative number prints as its digits alone (exponent form for huge numbers is not modelled; see Left out) |
| `Text.IntToStringValue` | src/app/workflows/create/page.tsx:84 | `${dep}` denotes exactly dep: a minus sign then the magnitude's digits for a negative number, the number's digits otherwise |
| `Text.Lower` | src/app/workflows/create/page.tsx:62 | definition of `toLowerCase` on ASCII letters; the test's independence of letter case is stated by `CompanyQueryCaseAndSuffix` |
| `Text.StartsWith` | src/app/workflows/create/page.tsx:62 | definition of `startsWith`; used by `CompanyQueryCaseAndSuffix` and the two examples |
| `Text.Trim` | src/app/workflows/create/page.tsx:48 | definition of `trim` as trimming the end of the trimmed start; its properties are stated by `TrimEmptyIff` |
| `Text.IntToStringAsNat` | src/app/workflows/create/page.tsx:85 | an integer prints the same as a natural number exactly when the two are equal |
| `Text.TrimStartDropsLeadingWhitespace` | src/app/workflows/create/page.tsx:48 | trimming the start drops only leading whitespace, and what remains is empty or starts with a non-whitespace character |
| `Text.TrimEndDropsTrailingWhitespace` | src/app/workflows/create/page.tsx:48 | trimming the end drops only trailing whitespace, and what remains is empty or ends with a non-whitespace character |
| `Text.TrimEmptyIff` | src/app/workflows/create/page.tsx:48 | a prompt trims to "" exactly when every character is whitespace |
| `Text.Split` | src/app/workflows/create/page.tsx:63 | `split(' ')` gives one more piece than there are spaces, and no piece contains a space |
| `Text.Join` | src/app/workflows/create/page.tsx:63 | definition of `join` with one character; it undoes `Split`, as `JoinSplit` states |
| `Text.SliceFrom` | src/app/workflows/create/page.tsx:63 | `slice(k)` for k ≥ 0 has max(length − k, 0) elements, and its element m is element k + m of the list; what `split(c).slice(k).join(c)` yields is stated by `SplitSliceJoin` |
| `Text.JoinSplit` | src/app/workflows/create/page.tsx:63 | joining the pieces of a split with the same separator gives the original string back |
| `Text.SplitSliceJoin` | src/app/workflows/create/page.tsx:63 | `split(c).slice(k).join(c)` is the text after the k-th occurrence of c, or "" if there are fewer |
| `Text.SuffixAfterTooFew` | src/app/workflows/create/page.tsx:63 | with fewer than n occurrences of the separator, what follows the n-th one is "" |
| `Text.SuffixAfterPiece` | src/app/workflows/create/page.tsx:63 | skipping a separator-free word and one separator uses up exactly one occurrence |
| `Seqs.FlattenAt` | src/app/workflows/create/page.tsx:81 | element j of list i lands at position (total length of the lists before i) + j of the flattening |
| `Seqs.FlattenFrom` | src/app/workflows/create/page.tsx:81 | every element of the flattening comes from some position of some list |
| `CreateWorkflow.CreateWorkflowNode` | src/app/workflows/create/page.tsx:33-43 | definition; the node's fields are stated on `BuildNodes` |
| `CreateWorkflow.BuildNodes` | src/app/workflows/create/page.tsx:77-79 | one node per step, in step order; node i has id `node-<i>`, the step's type and input as type and label, position (100 + 200·i, 100), status idle, and no data type or result |
| `CreateWorkflow.DependencyEdge` | src/app/workflows/create/page.tsx:83-88 | definition of one dependency edge; its fields are stated by `EdgeAt` and its source by `DependencySourceResolves` |
| `CreateWorkflow.StepEdges` | src/app/workflows/create/page.tsx:81-89 | definition of one step's edges, none for a missing or empty dependency list; their position in the whole list is stated by `EdgeAt` |
| `CreateWorkflow.BuildEdges` | src/app/workflows/create/page.tsx:81-89 | definition of the flattened edge list; its length, order and fields are stated by `EdgeCount`, `EdgeAt` and `EdgeTargetsExist` |
| `CreateWorkflow.BuiltNodeIdsDistinct` | src/app/workflows/create/page.tsx:77-79 | the built nodes have pairwise distinct ids |
| `CreateWorkflow.EdgeCount` | src/app/workflows/create/page.tsx:81-82 | there are as many edges as the steps have dependencies in all; a missing or empty list contributes none |
| `CreateWorkflow.EdgeAt` | src/app/workflows/create/page.tsx:83-88 | the j-th dependency of step i is edge number (dependencies before step i) + j, with id `edge-<dep>-<i>`, source `node-<dep>`, target `node-<i>` and type smoothstep |
| `CreateWorkflow.EdgeTargetsExist` | src/app/workflows/create/page.tsx:77-88 | every edge's target is the id of one of the built nodes |
| `CreateWorkflow.DependencySourceResolves` | src/app/workflows/create/page.tsx:85 | an edge's source names a built node exactly when its dependency index is between 0 and the number of steps; it is not checked otherwise |
| `CreateWorkflow.IsCompanyQuery` | src/app/workflows/create/page.tsx:62 | definition of the company-question test; its properties are stated by `CompanyQueryCaseAndSuffix` and the two examples |
| `CreateWorkflow.CompanyName` | src/app/workflows/create/page.tsx:63 | definition of the name extraction; what it yields is stated by `CompanyNameAfterSecondSpace` and `CompanyNameOfWords` |
| `CreateWorkflow.CompanyQueryCaseAndSuffix` | src/app/workflows/create/page.tsx:62 | the company-question test ignores letter case; appending text keeps a company question one, and cannot change the answer once the prompt has seven characters |
| `CreateWorkflow.CompanyQueryExample` | src/app/workflows/create/page.tsx:62-63 | "WHO IS Nvidia" is a company question about "Nvidia" |
| `CreateWorkflow.NotCompanyQueryExample` | src/app/workflows/create/page.tsx:62 | a prompt with "who is" later on is not a company question |
| `CreateWorkflow.CompanyNameAfterSecondSpace` | src/app/workflows/create/page.tsx:63 | the company name is the prompt's text after its second space, and "" when the prompt has fewer than two spaces |
| `CreateWorkflow.CompanyNameOfWords` | src/app/workflows/create/page.tsx:63 | for a prompt "a b rest" whose first two words have no spaces, the company name is exactly rest |
| `CreateWorkflow.Reply` | src/app/workflows/create/page.tsx:66-118 | the reply to an accepted prompt is an assistant message stamped with the reply time |
| `CreateWorkflow.CompanyReplyIsDescription` | src/app/workflows/create/page.tsx:62-71 | a company question whose lookup succeeds is answered with the description the lookup returns for the extracted name, and points at no node |
| `CreateWorkflow.PlanReplyPointsAtFirstNode` | src/app/workflows/create/page.tsx:95-103 | a successful plan reply is the assistant message with the plan's description, the reply time and a pointer to the new graph's first node `node-0`, with no `connectedTo` |
| `CreateWorkflow.FailureRepliesWithError` | src/app/workflows/create/page.tsx:111-118 | a failed submission (lookup or planning throws, or the plan has no steps) replies with the fixed apology and no graph pointer |
| `CreateWorkflow.Succeeds` | src/app/workflows/create/page.tsx:62-107 | definition of a submission that throws nothing; `HandleSubmit` clears the prompt exactly when it holds, and `FailureRepliesWithError` states the reply otherwise |
| `CreateWorkflow.NextWorkflow` | src/app/workflows/create/page.tsx:74-92 | definition of the graph after a submission: the plan's graph as soon as a plan arrives, even an empty one, else the old graph; used by `HandleSubmit` and `PlanReplyPointsAtFirstNode` |
| `CreateWorkflow.CreateWorkflowPage.constructor` | src/app/workflows/create/page.tsx:26-29 | the page starts with an empty prompt, not generating, no messages and an empty graph |
| `CreateWorkflow.CreateWorkflowPage.OnPromptChange` | src/app/workflows/create/page.tsx:186-189 | typing replaces the prompt and nothing else |
| `CreateWorkflow.CreateWorkflowPage.HandleSubmit` | src/app/workflows/create/page.tsx:46-122 | see the note below the table |

`HandleSubmit` in detail:

- A blank prompt, or a submit while generating, changes no state.
- Otherwise exactly two messages are appended: the user's prompt, then the
  reply.
- The graph is replaced as soon as a plan arrives. This happens even when
  the plan is empty.
- The input is cleared only on success.
- Generation ends in every case.

## Left out

- The one-second delay and the `async` machinery of `processNode`. The call
  is a plain function.
- Interleaving of events during the awaits of `onNodeClick` and
  `handleSubmit`: a drag, another click, or typing. Each handler runs to
  completion in one step. `isGenerating` being true on entry to
  `HandleSubmit` stands for a submit that arrives while an earlier one is
  suspended.
- `onNodeDragStop`, which replaces the node list wholesale with the one the
  canvas reports. It is presentation state.
- Rendering, and everything that only renders or navigates:
  - the JSX and status colours
  - the node modal (its "Process Node" button only closes it)
  - the sidebar, the cards, the detail view
  - the router
  - textarea resizing
- `fetchFlowData` and `getFlowObjectFromLLM`, `@/lib/automationLLM` and
  `@/lib/workflowExecutor`. Their source is not part of this model. The LLM
  calls that `handleSubmit` makes are parameters.
- Static seed data. `src/data/workflows.ts` and `src/types/workflow.ts` hold
  only literals and type declarations.
- `result?: any`. A node's result is one of the six `processNode` payloads.
- JavaScript numbers are unbounded integers in the model:
  - Positions, indices and dependency indices are integers.
  - A fractional dependency index, and how it would print, is not modelled.
  - A number of magnitude 10^21 or more prints in exponent form in
    JavaScript (`${1e21}` is "1e+21"). `Text.IntToString` always writes all
    the digits, so it matches JavaScript only below that magnitude.
- Malformed plans, whose shape the parsed LLM output does not guarantee at
  run time (the plan types live in `@/lib/automationLLM`, which is not part
  of this model). The model's `Step` and `WorkflowPlan` types exclude them:
  - A `steps` value that is not an array throws at `steps.map`, into the
    `catch` at page.tsx:111.
  - A `dependencies` value that is not an array but has a truthy `length`,
    such as a non-empty string, throws at `dependencies.map` the same way.
  - Any other non-array `dependencies` value, such as `3` or `{}`, passes
    the `!step.dependencies?.length` test at page.tsx:82, so that step
    silently gets no edges.
- `Text.Lower`: maps only the ASCII letters, while `toLowerCase` covers all
  of Unicode. The model is still exact for the company-question test:
  - No other character lowers to a letter of "what is" or "who is".
  - U+0130 is the only character whose lowercase form is longer. It lowers
    to "i" followed by a combining dot, which cannot match "is".
- `console.error` in the `catch` of `handleSubmit`: logging only, with no
  effect on the page's state.
- `CreateWorkflow.CreateWorkflowNode`: carries no contract of its own. Its
  fields are stated on `BuildNodes`, its only caller.
