/** The two built-in graphs, and what every run on them does: it takes existing edges only, never
    exceeds its tool rounds, and finishes in a number of steps fixed by the rounds it completed. */
module GraphSpec {
  import opened Domain
  import opened Conversation
  import opened GraphRunner

  // ---------------------------------------------------------------- the graphs as tables

  predicate InProfile(profile: ExecutionProfile, id: NodeId) {
    match profile
    case MemoryAware =>
      id in {IngestUserInput, LoadSessionView, BuildActivationQuery, ActivateMemory, AssembleContext, RunModel, ExecuteTools,
             BuildFollowupActivationQuery, ReactivateMemory, ReassembleContext, RunModelAfterTools, PersistAssistantOutput,
             MarkSessionOverflow, DistillCurrentLoop}
    case ExternalContext =>
      id in {AssembleExternalContext, RunModelExternalContext, ExecuteTools, RunModelExternalContextAfterTools, FinalizeExternalResponse}
  }

  /** The node implementation registered under each id. */
  function NodeFor(id: NodeId): GraphNode {
    match id
    case RunModel => GraphNode(id, ModelNode, ModelClass)
    case RunModelAfterTools => GraphNode(id, ModelNode, ModelClass)
    case RunModelExternalContext => GraphNode(id, ModelNode, ModelClass)
    case RunModelExternalContextAfterTools => GraphNode(id, ModelNode, ModelClass)
    case ExecuteTools => GraphNode(id, ToolNode, ToolExecutionClass)
    case DistillCurrentLoop => GraphNode(id, FinishNode, DistillationClass)
    case FinalizeExternalResponse => GraphNode(id, FinishNode, StandardClass)
    case _ => GraphNode(id, PassNode, StandardClass)
  }

  function StartOf(profile: ExecutionProfile): NodeId {
    if profile == MemoryAware then IngestUserInput else AssembleExternalContext
  }

  /** Where the default edge of a node leads. */
  function DefaultNext(profile: ExecutionProfile, id: NodeId): Option<NodeId> {
    match profile
    case MemoryAware =>
      (match id
       case IngestUserInput => Some(LoadSessionView)
       case LoadSessionView => Some(BuildActivationQuery)
       case BuildActivationQuery => Some(ActivateMemory)
       case ActivateMemory => Some(AssembleContext)
       case AssembleContext => Some(RunModel)
       case RunModel => Some(PersistAssistantOutput)
       case ExecuteTools => Some(BuildFollowupActivationQuery)
       case BuildFollowupActivationQuery => Some(ReactivateMemory)
       case ReactivateMemory => Some(ReassembleContext)
       case ReassembleContext => Some(RunModelAfterTools)
       case RunModelAfterTools => Some(PersistAssistantOutput)
       case PersistAssistantOutput => Some(MarkSessionOverflow)
       case MarkSessionOverflow => Some(DistillCurrentLoop)
       case _ => None)
    case ExternalContext =>
      (match id
       case AssembleExternalContext => Some(RunModelExternalContext)
       case RunModelExternalContext => Some(FinalizeExternalResponse)
       case ExecuteTools => Some(RunModelExternalContextAfterTools)
       case RunModelExternalContextAfterTools => Some(FinalizeExternalResponse)
       case _ => None)
  }

  function NextOf(profile: ExecutionProfile, id: NodeId, branch: string): Option<NodeId> {
    if branch == DEFAULT_EDGE then DefaultNext(profile, id)
    else if branch == NEEDS_TOOLS && InProfile(profile, id) && NodeFor(id).role == ModelNode then Some(ExecuteTools)
    else None
  }

  ghost predicate IsBuiltIn(g: Graph, profile: ExecutionProfile) {
    && g.start == StartOf(profile)
    && (forall id :: id in g.nodes <==> InProfile(profile, id))
    && AllEdges(profile, g.edges.Keys)
    && Faithful(g, profile)
  }

  lemma LabelsDiffer()
    ensures DEFAULT_EDGE != NEEDS_TOOLS
  {
    assert DEFAULT_EDGE[0] != NEEDS_TOOLS[0];
  }

  // ---------------------------------------------------------------- building them

  /** Everything registered so far is in the tables. */
  ghost predicate Faithful(g: Graph, profile: ExecutionProfile) {
    && (forall id | id in g.nodes :: g.nodes[id] == NodeFor(id))
    && (forall e | e in g.edges :: Some(g.edges[e]) == NextOf(profile, e.0, e.1))
  }

  method Register(graph: ExecutionGraph, id: NodeId, ghost profile: ExecutionProfile)
    requires Faithful(graph.View(), profile)
    modifies graph
    ensures Faithful(graph.View(), profile)
    ensures graph.edges == old(graph.edges)
    ensures forall x :: x in graph.nodes <==> x in old(graph.nodes) || x == id
  {
    graph.AddNode(NodeFor(id));
  }

  method Connect(graph: ExecutionGraph, from: NodeId, branch: string, to: NodeId, ghost profile: ExecutionProfile)
    requires Faithful(graph.View(), profile) && NextOf(profile, from, branch) == Some(to)
    modifies graph
    ensures Faithful(graph.View(), profile)
    ensures graph.nodes == old(graph.nodes)
    ensures forall x, b :: (x, b) in graph.edges <==> (x, b) in old(graph.edges) || (x == from && b == branch)
  {
    graph.AddEdge(from, branch, to);
  }

  predicate OpeningNode(id: NodeId) {
    id.IngestUserInput? || id.LoadSessionView? || id.BuildActivationQuery? || id.ActivateMemory? || id.AssembleContext? || id.RunModel?
  }

  predicate ToolPassNode(id: NodeId) {
    id.ExecuteTools? || id.BuildFollowupActivationQuery? || id.ReactivateMemory? || id.ReassembleContext? || id.RunModelAfterTools?
  }

  predicate TailNode(id: NodeId) {
    id.PersistAssistantOutput? || id.MarkSessionOverflow? || id.DistillCurrentLoop?
  }

  method AddOpening(graph: ExecutionGraph)
    requires Faithful(graph.View(), MemoryAware)
    modifies graph
    ensures Faithful(graph.View(), MemoryAware)
    ensures forall id :: id in graph.nodes <==> id in old(graph.nodes) || OpeningNode(id)
    ensures forall id, b :: (id, b) in graph.edges <==>
              (id, b) in old(graph.edges) || (b == DEFAULT_EDGE && OpeningNode(id) && !id.RunModel?)
  {
    hide Faithful;
    Register(graph, IngestUserInput, MemoryAware);
    Register(graph, LoadSessionView, MemoryAware);
    Register(graph, BuildActivationQuery, MemoryAware);
    Register(graph, ActivateMemory, MemoryAware);
    Register(graph, AssembleContext, MemoryAware);
    Register(graph, RunModel, MemoryAware);

    Connect(graph, IngestUserInput, DEFAULT_EDGE, LoadSessionView, MemoryAware);
    Connect(graph, LoadSessionView, DEFAULT_EDGE, BuildActivationQuery, MemoryAware);
    Connect(graph, BuildActivationQuery, DEFAULT_EDGE, ActivateMemory, MemoryAware);
    Connect(graph, ActivateMemory, DEFAULT_EDGE, AssembleContext, MemoryAware);
    Connect(graph, AssembleContext, DEFAULT_EDGE, RunModel, MemoryAware);
  }

  /** The post-tool pass, and the two model nodes' edges into it and past it. */
  method AddToolPass(graph: ExecutionGraph)
    requires Faithful(graph.View(), MemoryAware)
    modifies graph
    ensures Faithful(graph.View(), MemoryAware)
    ensures forall id :: id in graph.nodes <==> id in old(graph.nodes) || ToolPassNode(id)
    ensures forall id, b :: (id, b) in graph.edges <==>
              || (id, b) in old(graph.edges)
              || (b == DEFAULT_EDGE && (ToolPassNode(id) || id.RunModel?))
              || (b == NEEDS_TOOLS && (id.RunModel? || id.RunModelAfterTools?))
  {
    hide Faithful;
    LabelsDiffer();
    Register(graph, ExecuteTools, MemoryAware);
    Register(graph, BuildFollowupActivationQuery, MemoryAware);
    Register(graph, ReactivateMemory, MemoryAware);
    Register(graph, ReassembleContext, MemoryAware);
    Register(graph, RunModelAfterTools, MemoryAware);

    Connect(graph, RunModel, NEEDS_TOOLS, ExecuteTools, MemoryAware);
    Connect(graph, ExecuteTools, DEFAULT_EDGE, BuildFollowupActivationQuery, MemoryAware);
    Connect(graph, BuildFollowupActivationQuery, DEFAULT_EDGE, ReactivateMemory, MemoryAware);
    Connect(graph, ReactivateMemory, DEFAULT_EDGE, ReassembleContext, MemoryAware);
    Connect(graph, ReassembleContext, DEFAULT_EDGE, RunModelAfterTools, MemoryAware);
    Connect(graph, RunModelAfterTools, DEFAULT_EDGE, PersistAssistantOutput, MemoryAware);
    Connect(graph, RunModelAfterTools, NEEDS_TOOLS, ExecuteTools, MemoryAware);
    Connect(graph, RunModel, DEFAULT_EDGE, PersistAssistantOutput, MemoryAware);
  }

  method AddTail(graph: ExecutionGraph)
    requires Faithful(graph.View(), MemoryAware)
    modifies graph
    ensures Faithful(graph.View(), MemoryAware)
    ensures forall id :: id in graph.nodes <==> id in old(graph.nodes) || TailNode(id)
    ensures forall id, b :: (id, b) in graph.edges <==>
              (id, b) in old(graph.edges) || (b == DEFAULT_EDGE && TailNode(id) && !id.DistillCurrentLoop?)
  {
    hide Faithful;
    Register(graph, PersistAssistantOutput, MemoryAware);
    Register(graph, MarkSessionOverflow, MemoryAware);
    Register(graph, DistillCurrentLoop, MemoryAware);
    Connect(graph, PersistAssistantOutput, DEFAULT_EDGE, MarkSessionOverflow, MemoryAware);
    Connect(graph, MarkSessionOverflow, DEFAULT_EDGE, DistillCurrentLoop, MemoryAware);
  }

  /** The edges of a profile's table. */
  ghost predicate AllEdges(profile: ExecutionProfile, keys: set<(NodeId, string)>) {
    forall id, branch :: (id, branch) in keys <==> NextOf(profile, id, branch).Some?
  }

  method BuildDefaultExecutionGraph() returns (graph: ExecutionGraph)
    ensures fresh(graph) && IsBuiltIn(graph.View(), MemoryAware)
  {
    hide Faithful;
    NothingRegistered(MemoryAware, IngestUserInput);
    graph := new ExecutionGraph(IngestUserInput);
    AddOpening(graph);
    AddToolPass(graph);
    AddTail(graph);
    LabelsDiffer();
  }

  lemma NothingRegistered(profile: ExecutionProfile, start: NodeId)
    ensures Faithful(Graph(start, map[], map[]), profile)
  {
  }

  predicate ExternalNode(id: NodeId) {
    || id.AssembleExternalContext? || id.RunModelExternalContext? || id.ExecuteTools? || id.RunModelExternalContextAfterTools?
    || id.FinalizeExternalResponse?
  }

  method AddExternalNodes(graph: ExecutionGraph)
    requires Faithful(graph.View(), ExternalContext)
    modifies graph
    ensures Faithful(graph.View(), ExternalContext) && graph.edges == old(graph.edges)
    ensures forall id :: id in graph.nodes <==> id in old(graph.nodes) || ExternalNode(id)
  {
    hide Faithful;
    Register(graph, AssembleExternalContext, ExternalContext);
    Register(graph, RunModelExternalContext, ExternalContext);
    Register(graph, ExecuteTools, ExternalContext);
    Register(graph, RunModelExternalContextAfterTools, ExternalContext);
    Register(graph, FinalizeExternalResponse, ExternalContext);
  }

  method AddExternalEdges(graph: ExecutionGraph)
    requires Faithful(graph.View(), ExternalContext)
    modifies graph
    ensures Faithful(graph.View(), ExternalContext) && graph.nodes == old(graph.nodes)
    ensures forall id, b :: (id, b) in graph.edges <==>
              || (id, b) in old(graph.edges)
              || (b == DEFAULT_EDGE && ExternalNode(id) && !id.FinalizeExternalResponse?)
              || (b == NEEDS_TOOLS && (id.RunModelExternalContext? || id.RunModelExternalContextAfterTools?))
  {
    hide Faithful;
    LabelsDiffer();
    Connect(graph, AssembleExternalContext, DEFAULT_EDGE, RunModelExternalContext, ExternalContext);
    Connect(graph, RunModelExternalContext, NEEDS_TOOLS, ExecuteTools, ExternalContext);
    Connect(graph, RunModelExternalContext, DEFAULT_EDGE, FinalizeExternalResponse, ExternalContext);
    Connect(graph, ExecuteTools, DEFAULT_EDGE, RunModelExternalContextAfterTools, ExternalContext);
    Connect(graph, RunModelExternalContextAfterTools, NEEDS_TOOLS, ExecuteTools, ExternalContext);
    Connect(graph, RunModelExternalContextAfterTools, DEFAULT_EDGE, FinalizeExternalResponse, ExternalContext);
  }

  method BuildExternalContextExecutionGraph() returns (graph: ExecutionGraph)
    ensures fresh(graph) && IsBuiltIn(graph.View(), ExternalContext)
  {
    hide Faithful;
    NothingRegistered(ExternalContext, AssembleExternalContext);
    graph := new ExecutionGraph(AssembleExternalContext);
    AddExternalNodes(graph);
    AddExternalEdges(graph);
    LabelsDiffer();
  }

  // ---------------------------------------------------------------- what they are

  /** Default edges lead along the whole path. */
  ghost predicate Leads(g: Graph, path: seq<NodeId>) {
    forall i | 0 <= i < |path| - 1 :: DefaultEdge(g, path[i], path[i + 1])
  }

  ghost predicate DefaultEdge(g: Graph, a: NodeId, b: NodeId) {
    (a, DEFAULT_EDGE) in g.edges && g.edges[(a, DEFAULT_EDGE)] == b
  }

  /** Only these nodes are registered, with these roles: models that may branch to the tool node, one tool node,
      the only one awaited without a timeout, and one that finishes. There is no other edge. */
  ghost predicate Consists(g: Graph, passing: set<NodeId>, models: set<NodeId>, last: NodeId) {
    && (forall id :: id in g.nodes <==> id in passing || id in models || id == ExecuteTools || id == last)
    && (forall id | id in g.nodes :: g.nodes[id].id == id)
    && (forall id | id in passing :: g.nodes[id].role == PassNode && g.nodes[id].runtimeClass == StandardClass)
    && (forall id | id in models ::
          && g.nodes[id].role == ModelNode && g.nodes[id].runtimeClass == ModelClass
          && (id, NEEDS_TOOLS) in g.edges && g.edges[(id, NEEDS_TOOLS)] == ExecuteTools)
    && g.nodes[ExecuteTools].role == ToolNode && g.nodes[ExecuteTools].runtimeClass == ToolExecutionClass
    && g.nodes[last].role == FinishNode
    && (forall id, branch | (id, branch) in g.edges ::
          id in g.nodes && id != last && (branch == DEFAULT_EDGE || (branch == NEEDS_TOOLS && id in models)))
  }

  /** The memory-aware graph: opening, model, persistence, overflow, distillation; and from the tool node through
      a second activation to the second model and on to persistence. */
  lemma MemoryAwareGraph(g: Graph)
    requires IsBuiltIn(g, MemoryAware)
    ensures g.start == IngestUserInput
    ensures Leads(g, [IngestUserInput, LoadSessionView, BuildActivationQuery, ActivateMemory, AssembleContext, RunModel,
                      PersistAssistantOutput, MarkSessionOverflow, DistillCurrentLoop])
    ensures Leads(g, [ExecuteTools, BuildFollowupActivationQuery, ReactivateMemory, ReassembleContext, RunModelAfterTools,
                      PersistAssistantOutput])
    ensures Consists(g, {IngestUserInput, LoadSessionView, BuildActivationQuery, ActivateMemory, AssembleContext,
                         BuildFollowupActivationQuery, ReactivateMemory, ReassembleContext, PersistAssistantOutput, MarkSessionOverflow},
                     {RunModel, RunModelAfterTools}, DistillCurrentLoop)
    ensures g.nodes[DistillCurrentLoop].runtimeClass == DistillationClass
  {
    hide IsBuiltIn, Leads, Consists;
    TableLeads(g, MemoryAware, [IngestUserInput, LoadSessionView, BuildActivationQuery, ActivateMemory, AssembleContext, RunModel,
                                PersistAssistantOutput, MarkSessionOverflow, DistillCurrentLoop]);
    TableLeads(g, MemoryAware, [ExecuteTools, BuildFollowupActivationQuery, ReactivateMemory, ReassembleContext, RunModelAfterTools,
                                PersistAssistantOutput]);
    TableConsists(g, MemoryAware, {IngestUserInput, LoadSessionView, BuildActivationQuery, ActivateMemory, AssembleContext,
                                   BuildFollowupActivationQuery, ReactivateMemory, ReassembleContext, PersistAssistantOutput,
                                   MarkSessionOverflow}, {RunModel, RunModelAfterTools}, DistillCurrentLoop);
    EdgeAt(g, MemoryAware, DistillCurrentLoop);
    StartsAt(g, MemoryAware);
  }

  /** The external-context graph: context, model, response; and from the tool node to the second model. */
  lemma ExternalContextGraph(g: Graph)
    requires IsBuiltIn(g, ExternalContext)
    ensures g.start == AssembleExternalContext
    ensures Leads(g, [AssembleExternalContext, RunModelExternalContext, FinalizeExternalResponse])
    ensures Leads(g, [ExecuteTools, RunModelExternalContextAfterTools, FinalizeExternalResponse])
    ensures Consists(g, {AssembleExternalContext}, {RunModelExternalContext, RunModelExternalContextAfterTools}, FinalizeExternalResponse)
    ensures g.nodes[FinalizeExternalResponse].runtimeClass == StandardClass
  {
    hide IsBuiltIn, Leads, Consists;
    TableLeads(g, ExternalContext, [AssembleExternalContext, RunModelExternalContext, FinalizeExternalResponse]);
    TableLeads(g, ExternalContext, [ExecuteTools, RunModelExternalContextAfterTools, FinalizeExternalResponse]);
    TableConsists(g, ExternalContext, {AssembleExternalContext}, {RunModelExternalContext, RunModelExternalContextAfterTools},
                  FinalizeExternalResponse);
    EdgeAt(g, ExternalContext, FinalizeExternalResponse);
    StartsAt(g, ExternalContext);
  }

  lemma StartsAt(g: Graph, profile: ExecutionProfile)
    requires IsBuiltIn(g, profile)
    ensures g.start == StartOf(profile)
  {
  }

  lemma TableLeads(g: Graph, profile: ExecutionProfile, path: seq<NodeId>)
    requires IsBuiltIn(g, profile)
    requires forall i | 0 <= i < |path| - 1 :: InProfile(profile, path[i]) && DefaultNext(profile, path[i]) == Some(path[i + 1])
    ensures Leads(g, path)
  {
    hide IsBuiltIn, InProfile, DefaultNext, NodeFor;
    forall i | 0 <= i < |path| - 1
      ensures DefaultEdge(g, path[i], path[i + 1])
    {
      EdgeAt(g, profile, path[i]);
    }
  }

  lemma TableConsists(g: Graph, profile: ExecutionProfile, passing: set<NodeId>, models: set<NodeId>, last: NodeId)
    requires IsBuiltIn(g, profile)
    requires forall id :: InProfile(profile, id) <==> id in passing || id in models || id == ExecuteTools || id == last
    requires forall id | id in passing :: NodeFor(id).role == PassNode && NodeFor(id).runtimeClass == StandardClass
    requires forall id | id in models :: NodeFor(id).role == ModelNode && NodeFor(id).runtimeClass == ModelClass
    requires NodeFor(last).role == FinishNode && DefaultNext(profile, last).None?
    ensures Consists(g, passing, models, last)
  {
    hide IsBuiltIn, InProfile, DefaultNext, NextOf;
    forall id | InProfile(profile, id)
      ensures id in g.nodes && g.nodes[id] == NodeFor(id)
      ensures NodeFor(id).role == ModelNode ==> (id, NEEDS_TOOLS) in g.edges && g.edges[(id, NEEDS_TOOLS)] == ExecuteTools
    {
      EdgeAt(g, profile, id);
    }
    NodesInProfile(g, profile);
    forall id, branch | (id, branch) in g.edges
      ensures InProfile(profile, id) && id != last
      ensures branch == DEFAULT_EDGE || (branch == NEEDS_TOOLS && NodeFor(id).role == ModelNode)
    {
      EdgeInTable(g, profile, id, branch);
      FromProfile(profile, id, branch);
    }
  }

  lemma NodesInProfile(g: Graph, profile: ExecutionProfile)
    requires IsBuiltIn(g, profile)
    ensures forall id :: id in g.nodes <==> InProfile(profile, id)
  {
  }

  lemma FromProfile(profile: ExecutionProfile, id: NodeId, branch: string)
    requires NextOf(profile, id, branch).Some?
    ensures InProfile(profile, id)
    ensures branch == DEFAULT_EDGE || (branch == NEEDS_TOOLS && NodeFor(id).role == ModelNode)
    ensures NodeFor(id).role == FinishNode ==> branch == DEFAULT_EDGE && DefaultNext(profile, id).Some?
  {
  }

  lemma EdgeInTable(g: Graph, profile: ExecutionProfile, id: NodeId, branch: string)
    requires IsBuiltIn(g, profile) && (id, branch) in g.edges
    ensures NextOf(profile, id, branch).Some?
  {
  }

  // ---------------------------------------------------------------- the schedule

  function PerRound(profile: ExecutionProfile): nat {
    if profile == MemoryAware then 5 else 2
  }

  /** Steps of a run without tool rounds. */
  function BaseSteps(profile: ExecutionProfile): nat {
    if profile == MemoryAware then 9 else 3
  }

  /** Steps taken when a node is reached, apart from completed rounds. */
  function Offset(profile: ExecutionProfile, id: NodeId): nat {
    match profile
    case MemoryAware =>
      (match id
       case LoadSessionView => 1
       case BuildActivationQuery => 2
       case ActivateMemory => 3
       case AssembleContext => 4
       case RunModel => 5
       case BuildFollowupActivationQuery => 2
       case ReactivateMemory => 3
       case ReassembleContext => 4
       case RunModelAfterTools => 5
       case ExecuteTools => 6
       case PersistAssistantOutput => 6
       case MarkSessionOverflow => 7
       case DistillCurrentLoop => 8
       case _ => 0)
    case ExternalContext =>
      (match id
       case RunModelExternalContext => 1
       case RunModelExternalContextAfterTools => 1
       case ExecuteTools => 2
       case FinalizeExternalResponse => 2
       case _ => 0)
  }

  /** `s` is about to run `current`, with `extra` steps beyond those the completed rounds account for:
      one per recovery. */
  ghost predicate OnSchedule(profile: ExecutionProfile, s: ExecutionSnapshot, current: NodeId, limits: RunLimits, extra: nat) {
    && InProfile(profile, current) && s.profile == profile
    && s.iteration == Offset(profile, current) + PerRound(profile) * s.toolRoundsCompleted + extra
    && s.toolRoundsCompleted <= limits.maxToolRounds
    && (current == ExecuteTools ==> s.toolRoundsCompleted < limits.maxToolRounds && s.pendingToolCalls != [])
  }

  lemma FreshOnSchedule(profile: ExecutionProfile, s: ExecutionSnapshot, limits: RunLimits)
    requires s.profile == profile && s.iteration == 0 && s.toolRoundsCompleted == 0
    ensures OnSchedule(profile, s, StartOf(profile), limits, 0)
  {
  }

  /** A successful node either ends the run on schedule or leads over an existing edge to a node that is
      on schedule. */
  lemma NodeOnSchedule(g: Graph, profile: ExecutionProfile, s: ExecutionSnapshot, current: NodeId, limits: RunLimits, extra: nat,
                       calls: seq<ToolCallRequest>)
    requires IsBuiltIn(g, profile) && OnSchedule(profile, s, current, limits, extra)
    ensures current in g.nodes && g.nodes[current].role != PauseNode
    ensures var started := s.(iteration := s.iteration + 1);
            var (ran, outcome) := NodeEffect(g.nodes[current], started, calls, limits);
            var done := ran.(lastCompletedNode := Some(current));
            match ResolveNext(g, current, outcome)
            case Err(_) => false
            case Ok(None) => outcome == Finish && ran.toolRoundsCompleted == s.toolRoundsCompleted
                             && done.iteration == BaseSteps(profile) + PerRound(profile) * done.toolRoundsCompleted + extra
            case Ok(Some(next)) => OnSchedule(profile, done, next, limits, extra)
  {
    hide Offset, DefaultNext, InProfile, NodeFor, NextOf, IsBuiltIn;
    TableOnSchedule(profile, current);
    EdgeAt(g, profile, current);
    OneMoreRound(profile, s.toolRoundsCompleted);
    LabelsDiffer();
  }

  /** The registered node, and where its two kinds of edge lead. */
  lemma EdgeAt(g: Graph, profile: ExecutionProfile, id: NodeId)
    requires IsBuiltIn(g, profile) && InProfile(profile, id)
    ensures id in g.nodes && g.nodes[id] == NodeFor(id)
    ensures (id, DEFAULT_EDGE) in g.edges <==> DefaultNext(profile, id).Some?
    ensures (id, DEFAULT_EDGE) in g.edges ==> Some(g.edges[(id, DEFAULT_EDGE)]) == DefaultNext(profile, id)
    ensures NodeFor(id).role == ModelNode ==> (id, NEEDS_TOOLS) in g.edges && g.edges[(id, NEEDS_TOOLS)] == ExecuteTools
  {
    hide DefaultNext, InProfile, NodeFor;
    LabelsDiffer();
    assert (id, DEFAULT_EDGE) in g.edges <==> NextOf(profile, id, DEFAULT_EDGE).Some?;
    assert (id, NEEDS_TOOLS) in g.edges <==> NextOf(profile, id, NEEDS_TOOLS).Some?;
  }

  /** Each edge of the tables is one step on the schedule. */
  lemma TableOnSchedule(profile: ExecutionProfile, id: NodeId)
    requires InProfile(profile, id)
    ensures var role, next := NodeFor(id).role, DefaultNext(profile, id);
            && role != PauseNode && InProfile(profile, ExecuteTools)
            && (role == ToolNode <==> id == ExecuteTools)
            && (role == FinishNode <==> next.None?)
            && (role == FinishNode ==> Offset(profile, id) + 1 == BaseSteps(profile))
            && (role == ModelNode ==> Offset(profile, ExecuteTools) == Offset(profile, id) + 1)
            && (next.Some? ==> InProfile(profile, next.value) && next.value != ExecuteTools
                               && Offset(profile, next.value) + (if role == ToolNode then PerRound(profile) else 0) == Offset(profile, id) + 1)
  {
  }

  lemma OneMoreRound(profile: ExecutionProfile, rounds: nat)
    ensures PerRound(profile) * (rounds + 1) == PerRound(profile) * rounds + PerRound(profile)
  {
  }

  lemma RoundsOrder(profile: ExecutionProfile, rounds: nat, limit: nat)
    requires rounds <= limit
    ensures PerRound(profile) * rounds <= PerRound(profile) * limit
  {
  }

  /** The most steps a run with this much slack can take. */
  function StepBound(profile: ExecutionProfile, limits: RunLimits, extra: nat): nat {
    BaseSteps(profile) + PerRound(profile) * limits.maxToolRounds + extra
  }

  lemma ScheduledBound(profile: ExecutionProfile, s: ExecutionSnapshot, current: NodeId, limits: RunLimits, extra: nat)
    requires OnSchedule(profile, s, current, limits, extra)
    ensures s.iteration < StepBound(profile, limits, extra)
  {
    RoundsOrder(profile, s.toolRoundsCompleted, limits.maxToolRounds);
  }

  ghost predicate FaultFree(env: Environment) {
    (forall n :: env.reply(n).Succeeds?) && (forall n, place :: !env.cancelled(n, place))
  }

  /** What a run on a built-in graph can end in. */
  ghost predicate EndsOnSchedule(profile: ExecutionProfile, end: RunEnd, limits: RunLimits, extra: nat) {
    && end.result != Err(MissingNode) && end.result != Err(MissingEdge)
    && end.state.toolRoundsCompleted <= limits.maxToolRounds
    && end.state.iteration <= StepBound(profile, limits, extra)
    && (end.result.Ok? && end.result.value.status == Finished ==>
          end.result.value.completedSteps == BaseSteps(profile) + PerRound(profile) * end.result.value.toolRoundsCompleted + extra)
  }

  /** Runs on the built-in graphs, whatever fails, times out or is cancelled: only existing edges, at
      most the allowed tool rounds, at most 9 + 5R (or 3 + 2R) steps, and exactly 9 + 5k (or 3 + 2k)
      when k rounds were completed and the run finished; and a fault-free run within the step budget
      does finish. */
  lemma {:induction false} RunsOnSchedule(g: Graph, profile: ExecutionProfile, s: ExecutionSnapshot, current: NodeId, env: Environment,
                                          limits: RunLimits, saved: Option<LoopState>, extra: nat)
    requires IsBuiltIn(g, profile) && OnSchedule(profile, s, current, limits, extra)
    ensures var end := RunFrom(g, s, current, env, limits, saved);
            && EndsOnSchedule(profile, end, limits, extra)
            && (FaultFree(env) && limits.maxGraphSteps >= StepBound(profile, limits, extra) ==>
                  end.result.Ok? && end.result.value.status == Finished && end.checkpoint == None)
    decreases Remaining(s, limits), 1
  {
    hide IsBuiltIn, OnSchedule, AfterAwait, StepBound;
    ScheduledBound(profile, s, current, limits, extra);
    RoundsWithin(profile, s, current, limits, extra);
    if !env.cancelled(s.iteration, 0) && s.iteration < limits.maxGraphSteps {
      NodeOnSchedule(g, profile, s, current, limits, extra, []);
      if !env.cancelled(s.iteration, 1) {
        AwaitedOnSchedule(g, profile, s, current, env, limits, extra);
      }
    }
  }

  lemma {:induction false} AwaitedOnSchedule(g: Graph, profile: ExecutionProfile, s: ExecutionSnapshot, current: NodeId, env: Environment,
                                             limits: RunLimits, extra: nat)
    requires IsBuiltIn(g, profile) && OnSchedule(profile, s, current, limits, extra)
    requires current in g.nodes && s.iteration < limits.maxGraphSteps
    ensures var end := AfterAwait(g, s, current, env, limits);
            && EndsOnSchedule(profile, end, limits, extra)
            && (FaultFree(env) && limits.maxGraphSteps >= StepBound(profile, limits, extra) ==>
                  end.result.Ok? && end.result.value.status == Finished && end.checkpoint == None)
    decreases Remaining(s, limits), 0
  {
    hide IsBuiltIn, OnSchedule, NodeEffect, ResolveNext, RunFrom, StepBound, BaseSteps, PerRound;
    ScheduledBound(profile, s, current, limits, extra);
    RoundsWithin(profile, s, current, limits, extra);
    var reply := Awaited(g.nodes[current], env.reply(s.iteration));
    if reply.Succeeds? {
      NodeOnSchedule(g, profile, s, current, limits, extra, reply.toolCalls);
      var started := s.(iteration := s.iteration + 1);
      var (ran, outcome) := NodeEffect(g.nodes[current], started, reply.toolCalls, limits);
      var done := ran.(lastCompletedNode := Some(current));
      var next := ResolveNext(g, current, outcome);
      NotPausing(g.nodes[current], started, reply.toolCalls, limits);
      EffectRounds(g, profile, s, current, limits, extra, reply.toolCalls);
      if next.value.Some? {
        RunsOnSchedule(g, profile, done, next.value.value, env, limits, Some(Checkpoint(started, current, Running)), extra);
      }
    }
  }

  lemma RoundsWithin(profile: ExecutionProfile, s: ExecutionSnapshot, current: NodeId, limits: RunLimits, extra: nat)
    requires OnSchedule(profile, s, current, limits, extra)
    ensures s.toolRoundsCompleted <= limits.maxToolRounds
  {
  }

  lemma NotPausing(node: GraphNode, s: ExecutionSnapshot, calls: seq<ToolCallRequest>, limits: RunLimits)
    requires node.role != PauseNode
    ensures !NodeEffect(node, s, calls, limits).1.Pause?
  {
  }

  lemma EffectRounds(g: Graph, profile: ExecutionProfile, s: ExecutionSnapshot, current: NodeId, limits: RunLimits, extra: nat,
                     calls: seq<ToolCallRequest>)
    requires IsBuiltIn(g, profile) && OnSchedule(profile, s, current, limits, extra) && current in g.nodes
    ensures NodeEffect(g.nodes[current], s.(iteration := s.iteration + 1), calls, limits).0.toolRoundsCompleted <= limits.maxToolRounds
  {
  }

  /** A fresh run of either profile. */
  lemma {:induction false} FreshRun(g: Graph, profile: ExecutionProfile, s: ExecutionSnapshot, env: Environment, limits: RunLimits, saved: Option<LoopState>)
    requires IsBuiltIn(g, profile) && s.profile == profile && s.iteration == 0 && s.toolRoundsCompleted == 0
    ensures var end := RunFrom(g, s, g.start, env, limits, saved);
            && EndsOnSchedule(profile, end, limits, 0)
            && (FaultFree(env) && limits.maxGraphSteps >= StepBound(profile, limits, 0) ==>
                  end.result.Ok? && end.result.value.status == Finished && end.checkpoint == None)
  {
    FreshOnSchedule(profile, s, limits);
    RunsOnSchedule(g, profile, s, g.start, env, limits, saved, 0);
  }
}
