/** The checkpointed graph runner: one node per step, a checkpoint before each, a step budget over all
    of them. Node results, failures, timeouts and cancellation come from an oracle, constrained by what
    the real model and tool nodes do to the round counter and the pending calls. */
module GraphRunner {
  import opened Domain
  import opened Conversation

  const DEFAULT_EDGE := "__default__"
  const NEEDS_TOOLS := "needs_tools"

  /** Node ids: the engine's own constants, and whatever else a caller registers. */
  datatype NodeId =
    | IngestUserInput
    | LoadSessionView
    | BuildActivationQuery
    | ActivateMemory
    | AssembleContext
    | RunModel
    | ExecuteTools
    | BuildFollowupActivationQuery
    | ReactivateMemory
    | ReassembleContext
    | RunModelAfterTools
    | PersistAssistantOutput
    | MarkSessionOverflow
    | DistillCurrentLoop
    | AssembleExternalContext
    | RunModelExternalContext
    | RunModelExternalContextAfterTools
    | FinalizeExternalResponse
    | Custom(name: string)

  datatype ExecutionProfile = MemoryAware | ExternalContext

  function GraphId(profile: ExecutionProfile): string {
    match profile
    case MemoryAware => "memory-aware-v1"
    case ExternalContext => "external-context-v1"
  }

  datatype NodeRuntimeClass = StandardClass | ModelClass | ToolExecutionClass | DistillationClass

  /** What a node does to the run: pass on, ask the model, execute tools, finish or pause. */
  datatype NodeRole = PassNode | ModelNode | ToolNode | FinishNode | PauseNode

  datatype GraphNode = GraphNode(id: NodeId, role: NodeRole, runtimeClass: NodeRuntimeClass)

  datatype NodeOutcome = Continue | Branch(branch: string) | Finish | Pause

  datatype RunError = MissingNode | MissingEdge | NodeFailed | RecoveryUnsafe | LoopTerminated(status: LoopStatus) | BadConfiguration | StorageFailure

  datatype LoopStatus = Running | Paused | Finished | Failed | Cancelled | TimedOut

  /** The part of the execution state the runner and the recovery gate depend on. */
  datatype ExecutionSnapshot = ExecutionSnapshot(
    sessionId: nat,
    loopId: nat,
    profile: ExecutionProfile,
    pendingToolCalls: seq<ToolCallRequest>,
    toolRoundsCompleted: nat,
    iteration: nat,
    lastCompletedNode: Option<NodeId>
  )

  /** A stored checkpoint. `state` is what its `state_json` decodes to, and of no meaning if that does not
      parse as an execution state. */
  datatype LoopState = LoopState(
    checkpointVersion: nat,
    graphId: string,
    sessionId: nat,
    loopId: nat,
    currentNode: NodeId,
    status: LoopStatus,
    state: ExecutionSnapshot,
    parses: bool
  )

  datatype GraphRunResult = GraphRunResult(status: LoopStatus, completedSteps: nat, toolRoundsCompleted: nat, lastNode: Option<NodeId>)

  // ---------------------------------------------------------------- checkpoints

  function Checkpoint(s: ExecutionSnapshot, node: NodeId, status: LoopStatus): LoopState {
    LoopState(1, GraphId(s.profile), s.sessionId, s.loopId, node, status, s, true)
  }

  function FromCheckpoint(c: LoopState): Result<(ExecutionSnapshot, NodeId, LoopStatus), RunError> {
    if c.checkpointVersion != 1 then Err(RecoveryUnsafe)
    else if !c.parses then Err(StorageFailure)
    else if c.state.sessionId != c.sessionId || c.state.loopId != c.loopId then Err(RecoveryUnsafe)
    else if c.graphId != GraphId(c.state.profile) then Err(RecoveryUnsafe)
    else Ok((c.state, c.currentNode, c.status))
  }

  /** A checkpoint is accepted exactly if it is one that some state writes, and then gives that state
      back. */
  lemma CheckpointRoundTrip(c: LoopState)
    ensures FromCheckpoint(c).Ok? <==> exists s, node, status :: c == Checkpoint(s, node, status)
    ensures forall s, node, status | c == Checkpoint(s, node, status) :: FromCheckpoint(c) == Ok((s, node, status))
  {
    if FromCheckpoint(c).Ok? {
      assert c == Checkpoint(c.state, c.currentNode, c.status);
    }
  }

  // ---------------------------------------------------------------- graphs

  datatype Graph = Graph(start: NodeId, nodes: map<NodeId, GraphNode>, edges: map<(NodeId, string), NodeId>)

  /** `resolve_next` for the two outcomes that move on. */
  function ResolveNext(g: Graph, current: NodeId, outcome: NodeOutcome): Result<Option<NodeId>, RunError> {
    match outcome
    case Finish => Ok(None)
    case Pause => Ok(None)
    case Continue => if (current, DEFAULT_EDGE) in g.edges then Ok(Some(g.edges[(current, DEFAULT_EDGE)])) else Err(MissingEdge)
    case Branch(branch) => if (current, branch) in g.edges then Ok(Some(g.edges[(current, branch)])) else Err(MissingEdge)
  }

  class ExecutionGraph {
    const start: NodeId
    var nodes: map<NodeId, GraphNode>
    var edges: map<(NodeId, string), NodeId>

    function View(): Graph
      reads this
    {
      Graph(start, nodes, edges)
    }

    constructor (start: NodeId)
      ensures View() == Graph(start, map[], map[])
    {
      this.start, nodes, edges := start, map[], map[];
    }

    method AddNode(node: GraphNode)
      modifies this
      ensures nodes == old(nodes)[node.id := node] && edges == old(edges)
    {
      nodes := nodes[node.id := node];
    }

    method AddEdge(from: NodeId, branch: string, to: NodeId)
      modifies this
      ensures edges == old(edges)[(from, branch) := to] && nodes == old(nodes)
    {
      edges := edges[(from, branch) := to];
    }
  }

  // ---------------------------------------------------------------- one node

  /** What happens when a node is awaited. */
  datatype NodeReply =
    | Succeeds(toolCalls: seq<ToolCallRequest>)
    | FailsWith
    | ReportsCancelled
    | TimesOut
    | TokenCancelled

  /** Replies by step, and whether the token reads cancelled at the three places it is looked at. */
  datatype Environment = Environment(reply: nat -> NodeReply, cancelled: (nat, nat) -> bool)

  datatype RunLimits = RunLimits(maxGraphSteps: nat, maxToolRounds: nat)

  /** A tool node is awaited without an outer timeout or cancellation race; what would be one is its own
      error. */
  function Awaited(node: GraphNode, reply: NodeReply): NodeReply {
    if node.runtimeClass == ToolExecutionClass && (reply.TimesOut? || reply.TokenCancelled?) then FailsWith else reply
  }

  /** The effect of a successful node: the model node stores its calls and branches while rounds are
      left; the tool node completes the round. */
  function NodeEffect(node: GraphNode, s: ExecutionSnapshot, calls: seq<ToolCallRequest>, limits: RunLimits): (r: (ExecutionSnapshot, NodeOutcome))
    ensures r.0.sessionId == s.sessionId && r.0.loopId == s.loopId && r.0.profile == s.profile && r.0.iteration == s.iteration
  {
    match node.role
    case PassNode => (s, Continue)
    case ModelNode =>
      var next := s.(pendingToolCalls := calls);
      if calls != [] && s.toolRoundsCompleted < limits.maxToolRounds then (next, Branch(NEEDS_TOOLS)) else (next, Continue)
    case ToolNode => (s.(pendingToolCalls := [], toolRoundsCompleted := s.toolRoundsCompleted + 1), Continue)
    case FinishNode => (s, Finish)
    case PauseNode => (s, Pause)
  }

  // ---------------------------------------------------------------- whole runs

  /** How a run ends: its result, the state, and the checkpoint it leaves for its loop. */
  datatype RunEnd = RunEnd(result: Result<GraphRunResult, RunError>, state: ExecutionSnapshot, checkpoint: Option<LoopState>)

  function StoppedAt(s: ExecutionSnapshot, node: NodeId, status: LoopStatus): RunEnd {
    RunEnd(Ok(GraphRunResult(status, s.iteration, s.toolRoundsCompleted, Some(node))), s, Some(Checkpoint(s, node, status)))
  }

  function Remaining(s: ExecutionSnapshot, limits: RunLimits): nat {
    if s.iteration < limits.maxGraphSteps then limits.maxGraphSteps - s.iteration else 0
  }

  /** `run_from_node` */
  function RunFrom(g: Graph, s: ExecutionSnapshot, current: NodeId, env: Environment, limits: RunLimits, saved: Option<LoopState>): RunEnd
    decreases Remaining(s, limits), 1
  {
    if env.cancelled(s.iteration, 0) then StoppedAt(s, current, Cancelled)
    else if s.iteration >= limits.maxGraphSteps then StoppedAt(s, current, TimedOut)
    else if current !in g.nodes then RunEnd(Err(MissingNode), s, saved)
    else if env.cancelled(s.iteration, 1) then StoppedAt(s.(iteration := s.iteration + 1), current, Cancelled)
    else AfterAwait(g, s, current, env, limits)
  }

  function AfterAwait(g: Graph, s: ExecutionSnapshot, current: NodeId, env: Environment, limits: RunLimits): RunEnd
    requires current in g.nodes && s.iteration < limits.maxGraphSteps
    decreases Remaining(s, limits), 0
  {
    var node := g.nodes[current];
    var started := s.(iteration := s.iteration + 1);
    match Awaited(node, env.reply(s.iteration))
    case ReportsCancelled => StoppedAt(started, current, Cancelled)
    case TokenCancelled => StoppedAt(started, current, Cancelled)
    case TimesOut => StoppedAt(started, current, TimedOut)
    case FailsWith => RunEnd(Err(NodeFailed), started, Some(Checkpoint(started, current, Failed)))
    case Succeeds(calls) =>
      var (ran, outcome) := NodeEffect(node, started, calls, limits);
      if env.cancelled(s.iteration, 2) && node.runtimeClass != ToolExecutionClass then StoppedAt(ran, current, Cancelled)
      else
        var done := ran.(lastCompletedNode := Some(current));
        if outcome.Pause? then StoppedAt(done, current, Paused)
        else
          match ResolveNext(g, current, outcome)
          case Err(error) => RunEnd(Err(error), done, Some(Checkpoint(started, current, Running)))
          case Ok(None) => RunEnd(Ok(GraphRunResult(Finished, done.iteration, done.toolRoundsCompleted, Some(current))), done, None)
          case Ok(Some(next)) => RunFrom(g, done, next, env, limits, Some(Checkpoint(started, current, Running)))
  }

  /** Every `Running` checkpoint the run saves, in order: a crash leaves one of them. */
  function RunningCheckpoints(g: Graph, s: ExecutionSnapshot, current: NodeId, env: Environment, limits: RunLimits): seq<LoopState>
    decreases Remaining(s, limits)
  {
    if env.cancelled(s.iteration, 0) || s.iteration >= limits.maxGraphSteps || current !in g.nodes then []
    else
      var started := s.(iteration := s.iteration + 1);
      [Checkpoint(started, current, Running)] + LaterCheckpoints(g, s, current, env, limits)
  }

  function LaterCheckpoints(g: Graph, s: ExecutionSnapshot, current: NodeId, env: Environment, limits: RunLimits): seq<LoopState>
    requires current in g.nodes && s.iteration < limits.maxGraphSteps
    decreases Remaining(s, limits), 0
  {
    var node := g.nodes[current];
    var reply := Awaited(node, env.reply(s.iteration));
    if env.cancelled(s.iteration, 1) || !reply.Succeeds? then []
    else
      var (ran, outcome) := NodeEffect(node, s.(iteration := s.iteration + 1), reply.toolCalls, limits);
      if env.cancelled(s.iteration, 2) && node.runtimeClass != ToolExecutionClass then []
      else
        match ResolveNext(g, current, outcome)
        case Err(_) => []
        case Ok(None) => []
        case Ok(Some(next)) => RunningCheckpoints(g, ran.(lastCompletedNode := Some(current)), next, env, limits)
  }

  // ---------------------------------------------------------------- the runner's own loop

  class LoopStateRepository {
    var checkpoints: map<(nat, nat), LoopState>
    /** Every `Running` checkpoint saved so far: a crash between two saves leaves one of them. */
    ghost var running: seq<LoopState>

    constructor ()
      ensures checkpoints == map[] && running == []
    {
      checkpoints := map[];
      running := [];
    }

    method SaveCheckpoint(c: LoopState)
      modifies this
      ensures checkpoints == old(checkpoints)[(c.sessionId, c.loopId) := c]
      ensures running == if c.status == Running then old(running) + [c] else old(running)
    {
      checkpoints := checkpoints[(c.sessionId, c.loopId) := c];
      if c.status == Running {
        running := running + [c];
      }
    }

    method ClearCheckpoint(sessionId: nat, loopId: nat)
      modifies this`checkpoints
      ensures checkpoints == old(checkpoints) - {(sessionId, loopId)}
    {
      checkpoints := checkpoints - {(sessionId, loopId)};
    }
  }

  /** The repository when the loop's checkpoint is `c`. */
  function Leaving(checkpoints: map<(nat, nat), LoopState>, key: (nat, nat), c: Option<LoopState>): map<(nat, nat), LoopState> {
    match c
    case Some(checkpoint) => checkpoints[key := checkpoint]
    case None => checkpoints - {key}
  }

  function SavedFor(checkpoints: map<(nat, nat), LoopState>, key: (nat, nat)): Option<LoopState> {
    if key in checkpoints then Some(checkpoints[key]) else None
  }

  class RunState {
    var current: ExecutionSnapshot

    constructor (s: ExecutionSnapshot)
      ensures current == s
    {
      current := s;
    }
  }

  lemma LeavingTwice(checkpoints: map<(nat, nat), LoopState>, key: (nat, nat), a: Option<LoopState>, b: Option<LoopState>)
    ensures Leaving(Leaving(checkpoints, key, a), key, b) == Leaving(checkpoints, key, b)
    ensures Leaving(checkpoints, key, SavedFor(checkpoints, key)) == checkpoints
    ensures SavedFor(Leaving(checkpoints, key, a), key) == a
  {
  }

  /** Only the checkpoint at `key` may differ. */
  ghost predicate OnlyAt(before: map<(nat, nat), LoopState>, key: (nat, nat), after: map<(nat, nat), LoopState>) {
    after == Leaving(before, key, SavedFor(after, key))
  }

  lemma OnlyAtTwice(a: map<(nat, nat), LoopState>, key: (nat, nat), b: map<(nat, nat), LoopState>, c: map<(nat, nat), LoopState>)
    requires OnlyAt(a, key, b) && OnlyAt(b, key, c)
    ensures OnlyAt(a, key, c)
  {
    LeavingTwice(a, key, SavedFor(b, key), SavedFor(c, key));
  }

  function KeyOf(s: ExecutionSnapshot): (nat, nat) {
    (s.sessionId, s.loopId)
  }

  /** Save the state's own checkpoint. */
  method Save(state: RunState, node: NodeId, status: LoopStatus, repository: LoopStateRepository)
    modifies repository
    ensures SavedFor(repository.checkpoints, KeyOf(state.current)) == Some(Checkpoint(state.current, node, status))
    ensures OnlyAt(old(repository.checkpoints), KeyOf(state.current), repository.checkpoints)
    ensures repository.running
         == if status == Running then old(repository.running) + [Checkpoint(state.current, node, Running)] else old(repository.running)
  {
    repository.SaveCheckpoint(Checkpoint(state.current, node, status));
  }

  /** Stop here: one checkpoint is saved and reported. */
  method Stop(state: RunState, node: NodeId, status: LoopStatus, repository: LoopStateRepository) returns (r: Result<GraphRunResult, RunError>)
    requires status != Running
    modifies repository
    ensures RunEnd(r, state.current, SavedFor(repository.checkpoints, KeyOf(state.current))) == StoppedAt(state.current, node, status)
    ensures OnlyAt(old(repository.checkpoints), KeyOf(state.current), repository.checkpoints)
    ensures repository.running == old(repository.running)
  {
    Save(state, node, status, repository);
    r := Ok(GraphRunResult(status, state.current.iteration, state.current.toolRoundsCompleted, Some(node)));
  }

  /** What became of a step: the run is over, or goes on at the next node. */
  datatype StepResult = Over(result: Result<GraphRunResult, RunError>) | GoesOn(next: NodeId)

  /** The node succeeded: its effect, and where it leads. */
  method LeaveNode(graph: ExecutionGraph, current: NodeId, state: RunState, repository: LoopStateRepository, env: Environment, limits: RunLimits,
                   calls: seq<ToolCallRequest>, ghost s: ExecutionSnapshot)
    returns (r: StepResult)
    requires current in graph.nodes && s.iteration < limits.maxGraphSteps && state.current == s.(iteration := s.iteration + 1)
    requires Awaited(graph.nodes[current], env.reply(s.iteration)) == Succeeds(calls) && !env.cancelled(s.iteration, 1)
    requires SavedFor(repository.checkpoints, KeyOf(s)) == Some(Checkpoint(state.current, current, Running))
    modifies state, repository
    ensures KeyOf(state.current) == KeyOf(s) && OnlyAt(old(repository.checkpoints), KeyOf(s), repository.checkpoints)
    ensures repository.running == old(repository.running)
    ensures match r
            case Over(result) =>
              && AfterAwait(graph.View(), s, current, env, limits) == RunEnd(result, state.current, SavedFor(repository.checkpoints, KeyOf(s)))
              && LaterCheckpoints(graph.View(), s, current, env, limits) == []
            case GoesOn(next) =>
              && AfterAwait(graph.View(), s, current, env, limits)
                 == RunFrom(graph.View(), state.current, next, env, limits, SavedFor(repository.checkpoints, KeyOf(s)))
              && LaterCheckpoints(graph.View(), s, current, env, limits) == RunningCheckpoints(graph.View(), state.current, next, env, limits)
              && state.current.iteration == s.iteration + 1
  {
    hide RunFrom, RunningCheckpoints, NodeEffect, ResolveNext, Leaving, SavedFor, Awaited;
    LeavingTwice(repository.checkpoints, KeyOf(s), None, None);
    var node := graph.nodes[current];
    var (ran, outcome) := NodeEffect(node, state.current, calls, limits);
    state.current := ran;
    if env.cancelled(state.current.iteration - 1, 2) && node.runtimeClass != ToolExecutionClass {
      var stopped := Stop(state, current, Cancelled, repository);
      return Over(stopped);
    }
    state.current := state.current.(lastCompletedNode := Some(current));
    if outcome.Pause? {
      PausesNowhere(graph.View(), current);
      var stopped := Stop(state, current, Paused, repository);
      return Over(stopped);
    }
    var next := ResolveNext(graph.View(), current, outcome);
    match next {
      case Err(error) =>
        r := Over(Err(error));
      case Ok(None) =>
        repository.ClearCheckpoint(state.current.sessionId, state.current.loopId);
        Cleared(old(repository.checkpoints), KeyOf(s));
        r := Over(Ok(GraphRunResult(Finished, state.current.iteration, state.current.toolRoundsCompleted, Some(current))));
      case Ok(Some(following)) =>
        r := GoesOn(following);
    }
  }

  lemma PausesNowhere(g: Graph, current: NodeId)
    ensures ResolveNext(g, current, Pause) == Ok(None)
  {
  }

  lemma Cleared(checkpoints: map<(nat, nat), LoopState>, key: (nat, nat))
    ensures OnlyAt(checkpoints, key, checkpoints - {key}) && SavedFor(checkpoints - {key}, key) == None
  {
  }

  /** The node is awaited. */
  method AwaitNode(graph: ExecutionGraph, current: NodeId, state: RunState, repository: LoopStateRepository, env: Environment, limits: RunLimits,
                   ghost s: ExecutionSnapshot)
    returns (r: StepResult)
    requires current in graph.nodes && s.iteration < limits.maxGraphSteps && state.current == s.(iteration := s.iteration + 1)
    requires SavedFor(repository.checkpoints, KeyOf(s)) == Some(Checkpoint(state.current, current, Running)) && !env.cancelled(s.iteration, 1)
    modifies state, repository
    ensures KeyOf(state.current) == KeyOf(s) && OnlyAt(old(repository.checkpoints), KeyOf(s), repository.checkpoints)
    ensures repository.running == old(repository.running)
    ensures match r
            case Over(result) =>
              && AfterAwait(graph.View(), s, current, env, limits) == RunEnd(result, state.current, SavedFor(repository.checkpoints, KeyOf(s)))
              && LaterCheckpoints(graph.View(), s, current, env, limits) == []
            case GoesOn(next) =>
              && AfterAwait(graph.View(), s, current, env, limits)
                 == RunFrom(graph.View(), state.current, next, env, limits, SavedFor(repository.checkpoints, KeyOf(s)))
              && LaterCheckpoints(graph.View(), s, current, env, limits) == RunningCheckpoints(graph.View(), state.current, next, env, limits)
              && state.current.iteration == s.iteration + 1
  {
    hide RunFrom, RunningCheckpoints, NodeEffect, ResolveNext, Leaving, SavedFor, OnlyAt, Awaited;
    match Awaited(graph.nodes[current], env.reply(state.current.iteration - 1)) {
      case ReportsCancelled =>
        var stopped := Stop(state, current, Cancelled, repository);
        r := Over(stopped);
      case TokenCancelled =>
        var stopped := Stop(state, current, Cancelled, repository);
        r := Over(stopped);
      case TimesOut =>
        var stopped := Stop(state, current, TimedOut, repository);
        r := Over(stopped);
      case FailsWith =>
        Save(state, current, Failed, repository);
        r := Over(Err(NodeFailed));
      case Succeeds(calls) =>
        r := LeaveNode(graph, current, state, repository, env, limits, calls, s);
    }
  }

  /** A step that is begun saves its checkpoint, and then awaits the node unless the token reads cancelled. */
  method BeginStep(graph: ExecutionGraph, current: NodeId, state: RunState, repository: LoopStateRepository, env: Environment, limits: RunLimits)
    returns (r: StepResult)
    requires current in graph.nodes && state.current.iteration < limits.maxGraphSteps && !env.cancelled(state.current.iteration, 0)
    modifies state, repository
    ensures KeyOf(state.current) == KeyOf(old(state.current)) && OnlyAt(old(repository.checkpoints), KeyOf(state.current), repository.checkpoints)
    ensures StepTaken(graph.View(), old(state.current), current, env, limits, SavedFor(old(repository.checkpoints), KeyOf(state.current)),
                      old(repository.running), r, state.current, SavedFor(repository.checkpoints, KeyOf(state.current)), repository.running)
  {
    hide AfterAwait, LaterCheckpoints, Leaving, SavedFor, OnlyAt;
    ghost var s, before, log := state.current, repository.checkpoints, repository.running;
    var step := state.current.iteration;
    state.current := state.current.(iteration := step + 1);
    Save(state, current, Running, repository);
    ghost var mid := repository.checkpoints;
    if env.cancelled(step, 1) {
      CancelledEarly(graph.View(), s, current, env, limits);
      var stopped := Stop(state, current, Cancelled, repository);
      OnlyAtTwice(before, KeyOf(s), mid, repository.checkpoints);
      return Over(stopped);
    }
    r := AwaitNode(graph, current, state, repository, env, limits, s);
    OnlyAtTwice(before, KeyOf(s), mid, repository.checkpoints);
  }

  /** From state `s` at `current`, with `saved` in the repository and `log` saved so far, one pass has led to `t`
      with `left` and `running`: it ends as the run does, or the rest of the run goes on from there. */
  ghost predicate StepTaken(g: Graph, s: ExecutionSnapshot, current: NodeId, env: Environment, limits: RunLimits, saved: Option<LoopState>,
                            log: seq<LoopState>, r: StepResult, t: ExecutionSnapshot, left: Option<LoopState>, running: seq<LoopState>)
  {
    match r
    case Over(result) =>
      && RunFrom(g, s, current, env, limits, saved) == RunEnd(result, t, left)
      && running == log + RunningCheckpoints(g, s, current, env, limits)
    case GoesOn(next) =>
      && RunFrom(g, s, current, env, limits, saved) == RunFrom(g, t, next, env, limits, left)
      && running + RunningCheckpoints(g, t, next, env, limits) == log + RunningCheckpoints(g, s, current, env, limits)
      && Remaining(t, limits) < Remaining(s, limits)
  }

  /** One pass through the loop of `run_from_node`. */
  method TakeStep(graph: ExecutionGraph, current: NodeId, state: RunState, repository: LoopStateRepository, env: Environment, limits: RunLimits)
    returns (r: StepResult)
    modifies state, repository
    ensures KeyOf(state.current) == KeyOf(old(state.current)) && OnlyAt(old(repository.checkpoints), KeyOf(state.current), repository.checkpoints)
    ensures StepTaken(graph.View(), old(state.current), current, env, limits, SavedFor(old(repository.checkpoints), KeyOf(state.current)),
                      old(repository.running), r, state.current, SavedFor(repository.checkpoints, KeyOf(state.current)), repository.running)
  {
    hide AfterAwait, LaterCheckpoints, Leaving, SavedFor, OnlyAt;
    Untouched(repository.checkpoints, KeyOf(state.current));
    var step := state.current.iteration;
    assert repository.running + [] == repository.running;
    if env.cancelled(step, 0) {
      var stopped := Stop(state, current, Cancelled, repository);
      return Over(stopped);
    }
    if step >= limits.maxGraphSteps {
      var stopped := Stop(state, current, TimedOut, repository);
      return Over(stopped);
    }
    if current !in graph.nodes {
      return Over(Err(MissingNode));
    }
    r := BeginStep(graph, current, state, repository, env, limits);
  }

  lemma Untouched(checkpoints: map<(nat, nat), LoopState>, key: (nat, nat))
    ensures OnlyAt(checkpoints, key, checkpoints)
  {
    LeavingTwice(checkpoints, key, None, None);
  }

  lemma {:induction false} CancelledEarly(g: Graph, s: ExecutionSnapshot, current: NodeId, env: Environment, limits: RunLimits)
    requires current in g.nodes && s.iteration < limits.maxGraphSteps && env.cancelled(s.iteration, 1)
    ensures LaterCheckpoints(g, s, current, env, limits) == []
  {
  }

  /** The loop of `run_from_node` ends as `RunFrom` says: same result, same state, same checkpoint, and no
      other loop's checkpoint is touched. */
  method RunFromNode(graph: ExecutionGraph, start: NodeId, state: RunState, repository: LoopStateRepository, env: Environment, limits: RunLimits)
    returns (r: Result<GraphRunResult, RunError>)
    modifies state, repository
    ensures var key := KeyOf(old(state.current));
            var end := RunFrom(old(graph.View()), old(state.current), start, env, limits, SavedFor(old(repository.checkpoints), key));
            && r == end.result && state.current == end.state
            && repository.checkpoints == Leaving(old(repository.checkpoints), key, end.checkpoint)
    ensures repository.running
         == old(repository.running) + RunningCheckpoints(old(graph.View()), old(state.current), start, env, limits)
  {
    hide Leaving, SavedFor, RunFrom, RunningCheckpoints;
    var current := start;
    ghost var g, key, before := graph.View(), KeyOf(state.current), repository.checkpoints;
    ghost var end := RunFrom(g, state.current, start, env, limits, SavedFor(before, key));
    ghost var log := repository.running + RunningCheckpoints(g, state.current, start, env, limits);
    Untouched(before, key);
    while true
      invariant graph.View() == g && KeyOf(state.current) == key && OnlyAt(before, key, repository.checkpoints)
      invariant RunFrom(g, state.current, current, env, limits, SavedFor(repository.checkpoints, key)) == end
      invariant repository.running + RunningCheckpoints(g, state.current, current, env, limits) == log
      decreases Remaining(state.current, limits)
    {
      ghost var mid := repository.checkpoints;
      var step := TakeStep(graph, current, state, repository, env, limits);
      OnlyAtTwice(before, key, mid, repository.checkpoints);
      match step {
        case Over(result) => return result;
        case GoesOn(next) => current := next;
      }
    }
  }

  // ---------------------------------------------------------------- resuming and recovering

  /** `resume` and `recover_running`, for the status each of them wants. */
  method ContinueCheckpoint(graph: ExecutionGraph, c: LoopState, wanted: LoopStatus, profile: ExecutionProfile, repository: LoopStateRepository,
                            env: Environment, limits: RunLimits)
    returns (r: Result<RunState, RunError>)
    modifies repository
    ensures match Continued(graph.View(), c, wanted, profile, SavedFor(old(repository.checkpoints), (c.sessionId, c.loopId)), env, limits)
            case Err(error) => r == Err(error) && repository.checkpoints == old(repository.checkpoints)
            case Ok(end) =>
              && (if end.result.Ok? then r.Ok? && fresh(r.value) && r.value.current == end.state else r == Err(end.result.error))
              && repository.checkpoints == Leaving(old(repository.checkpoints), (c.sessionId, c.loopId), end.checkpoint)
  {
    hide RunFrom, RunningCheckpoints, Leaving, SavedFor;
    if c.status != wanted {
      return Err(LoopTerminated(c.status));
    }
    var restored := FromCheckpoint(c);
    match restored {
      case Err(error) =>
        return Err(error);
      case Ok((s, node, _)) =>
        if s.profile != profile {
          return Err(BadConfiguration);
        }
        var state := new RunState(s);
        var result := RunFromNode(graph, node, state, repository, env, limits);
        r := if result.Ok? then Ok(state) else Err(result.error);
    }
  }

  /** `resume` takes paused checkpoints only, `recover_running` interrupted ones only; both insist on the
      profile the checkpoint was written under, and run its node again. */
  function Continued(g: Graph, c: LoopState, wanted: LoopStatus, profile: ExecutionProfile, saved: Option<LoopState>, env: Environment,
                     limits: RunLimits): Result<RunEnd, RunError>
  {
    if c.status != wanted then Err(LoopTerminated(c.status))
    else
      match FromCheckpoint(c)
      case Err(error) => Err(error)
      case Ok((s, node, _)) => if s.profile != profile then Err(BadConfiguration) else Ok(RunFrom(g, s, node, env, limits, saved))
  }
}
