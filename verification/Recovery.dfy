/** Recovering interrupted runs of the built-in graphs: which checkpoints a crash can leave, which of
    them the recovery gate lets through, and what the recovered runs do. */
module Recovery {
  import opened Domain
  import opened Conversation
  import opened GraphRunner
  import opened GraphSpec

  // ---------------------------------------------------------------- the gate

  function NodeName(id: NodeId): string {
    match id
    case IngestUserInput => "ingest_user_input"
    case LoadSessionView => "load_session_view"
    case BuildActivationQuery => "build_activation_query"
    case ActivateMemory => "activate_memory"
    case AssembleContext => "assemble_context"
    case RunModel => "run_model"
    case ExecuteTools => "execute_tools"
    case BuildFollowupActivationQuery => "build_followup_activation_query"
    case ReactivateMemory => "reactivate_memory"
    case ReassembleContext => "reassemble_context"
    case RunModelAfterTools => "run_model_after_tools"
    case PersistAssistantOutput => "persist_assistant_output"
    case MarkSessionOverflow => "mark_session_overflow"
    case DistillCurrentLoop => "distill_current_loop"
    case AssembleExternalContext => "assemble_external_context"
    case RunModelExternalContext => "run_model_external_context"
    case RunModelExternalContextAfterTools => "run_model_external_context_after_tools"
    case FinalizeExternalResponse => "finalize_external_response"
    case Custom(name) => name
  }

  const MODEL_PREFIX := "run_model"

  /** `starts_with` */
  predicate StartsWith(text: string, prefix: string) {
    prefix <= text
  }

  /** The prefix test picks out exactly the model nodes of both graphs. */
  lemma {:induction false} PrefixMeansModel(profile: ExecutionProfile, id: NodeId)
    requires InProfile(profile, id)
    ensures StartsWith(NodeName(id), MODEL_PREFIX) <==> NodeFor(id).role == ModelNode
  {
    var name := NodeName(id);
    if NodeFor(id).role == ModelNode {
      assert name[..9] == MODEL_PREFIX;
    } else {
      assert name[0] != 'r' || name[1] != 'u';
      assert MODEL_PREFIX[0] == 'r' && MODEL_PREFIX[1] == 'u';
    }
  }

  type Idempotence = ToolCallRequest -> bool

  /** Node names are compared as text, so a node registered under the tool node's name is one to the gate. */
  predicate NamedToolNode(id: NodeId) {
    NodeName(id) == NodeName(ExecuteTools)
  }

  /** In the built-in graphs that name is the tool node's alone. */
  lemma OnlyToolNodeIsNamed(profile: ExecutionProfile, id: NodeId)
    requires InProfile(profile, id)
    ensures NamedToolNode(id) <==> id == ExecuteTools
  {
    var name := NodeName(id);
    assert "execute_tools"[0] == 'e';
    assert id != ExecuteTools ==> name[0] != 'e';
  }

  lemma ToolNameIsNoModelName()
    ensures !StartsWith(NodeName(ExecuteTools), MODEL_PREFIX)
  {
    assert "execute_tools"[0] != MODEL_PREFIX[0];
  }

  /** The checks `recover_interrupted_loop_with_options` makes before it runs anything. It refuses with the
      error of an unreadable checkpoint, or as unsafe. */
  method RecoveryGate(c: LoopState, idempotent: Idempotence) returns (r: Result<bool, RunError>)
    ensures r.Ok? <==> GatePasses(c, idempotent)
    ensures r.Err? ==> r.error == if NamedToolNode(c.currentNode) && FromCheckpoint(c).Err? then FromCheckpoint(c).error else RecoveryUnsafe
  {
    ToolNameIsNoModelName();
    if StartsWith(NodeName(c.currentNode), MODEL_PREFIX) {
      return Err(RecoveryUnsafe);
    }
    if NodeName(c.currentNode) == NodeName(ExecuteTools) {
      var restored := FromCheckpoint(c);
      match restored {
        case Err(error) =>
          return Err(error);
        case Ok((s, _, _)) =>
          for i := 0 to |s.pendingToolCalls|
            invariant forall j | 0 <= j < i :: idempotent(s.pendingToolCalls[j])
          {
            if !idempotent(s.pendingToolCalls[i]) {
              return Err(RecoveryUnsafe);
            }
          }
      }
    }
    r := Ok(true);
  }

  ghost predicate GatePasses(c: LoopState, idempotent: Idempotence) {
    && !StartsWith(NodeName(c.currentNode), MODEL_PREFIX)
    && (NamedToolNode(c.currentNode) ==>
          FromCheckpoint(c).Ok? && forall i | 0 <= i < |c.state.pendingToolCalls| :: idempotent(c.state.pendingToolCalls[i]))
  }

  // ---------------------------------------------------------------- checkpoints a crash can leave

  /** A checkpoint saved during a scheduled run restores to a state that is on schedule again, with one
      step of slack for the node that will be run a second time. */
  lemma {:induction false} CheckpointsOnSchedule(g: Graph, profile: ExecutionProfile, s: ExecutionSnapshot, current: NodeId, env: Environment,
                                                 limits: RunLimits, extra: nat, c: LoopState)
    requires IsBuiltIn(g, profile) && OnSchedule(profile, s, current, limits, extra)
    requires c in RunningCheckpoints(g, s, current, env, limits)
    ensures c == Checkpoint(c.state, c.currentNode, Running) && OnSchedule(profile, c.state, c.currentNode, limits, extra + 1)
    decreases Remaining(s, limits)
  {
    hide IsBuiltIn, NodeEffect, ResolveNext;
    var started := s.(iteration := s.iteration + 1);
    var first := Checkpoint(started, current, Running);
    if c != first {
      var reply := env.reply(s.iteration);
      NodeOnSchedule(g, profile, s, current, limits, extra, if reply.Succeeds? then reply.toolCalls else []);
      assert c in LaterCheckpoints(g, s, current, env, limits);
      var (ran, outcome) := NodeEffect(g.nodes[current], started, reply.toolCalls, limits);
      var next := ResolveNext(g, current, outcome);
      CheckpointsOnSchedule(g, profile, ran.(lastCompletedNode := Some(current)), next.value.value, env, limits, extra, c);
    }
  }

  /** For those checkpoints the gate refuses exactly the interrupted model nodes, and tool nodes with a
      pending call whose executor does not fence the operation key. */
  lemma {:induction false} GateDecides(g: Graph, profile: ExecutionProfile, s: ExecutionSnapshot, current: NodeId, env: Environment, limits: RunLimits,
                    extra: nat, c: LoopState, idempotent: Idempotence)
    requires IsBuiltIn(g, profile) && OnSchedule(profile, s, current, limits, extra)
    requires c in RunningCheckpoints(g, s, current, env, limits)
    ensures c.currentNode in g.nodes
    ensures GatePasses(c, idempotent) <==>
              && g.nodes[c.currentNode].role != ModelNode
              && (g.nodes[c.currentNode].role == ToolNode ==>
                    forall i | 0 <= i < |c.state.pendingToolCalls| :: idempotent(c.state.pendingToolCalls[i]))
  {
    CheckpointsOnSchedule(g, profile, s, current, env, limits, extra, c);
    EdgeAt(g, profile, c.currentNode);
    PrefixMeansModel(profile, c.currentNode);
    TableOnSchedule(profile, c.currentNode);
    OnlyToolNodeIsNamed(profile, c.currentNode);
  }

  // ---------------------------------------------------------------- chains of recoveries

  /** An interrupted run: its environment and the checkpoint the crash left. */
  datatype Interrupted = Interrupted(env: Environment, left: LoopState)

  /** Each run starts from the checkpoint the one before was interrupted at. */
  ghost predicate Interruptions(g: Graph, s: ExecutionSnapshot, current: NodeId, limits: RunLimits, runs: seq<Interrupted>)
    decreases |runs|
  {
    runs == []
    || (&& runs[0].left in RunningCheckpoints(g, s, current, runs[0].env, limits)
        && Interruptions(g, runs[0].left.state, runs[0].left.currentNode, limits, runs[1..]))
  }

  function Restored(s: ExecutionSnapshot, current: NodeId, runs: seq<Interrupted>): (ExecutionSnapshot, NodeId) {
    if runs == [] then (s, current) else (runs[|runs| - 1].left.state, runs[|runs| - 1].left.currentNode)
  }

  lemma {:induction false} InterruptionsOnSchedule(g: Graph, profile: ExecutionProfile, s: ExecutionSnapshot, current: NodeId, limits: RunLimits,
                                                   extra: nat, runs: seq<Interrupted>)
    requires IsBuiltIn(g, profile) && OnSchedule(profile, s, current, limits, extra) && Interruptions(g, s, current, limits, runs)
    ensures var (last, node) := Restored(s, current, runs); OnSchedule(profile, last, node, limits, extra + |runs|)
    decreases |runs|
  {
    hide IsBuiltIn, OnSchedule;
    if runs != [] {
      var first := runs[0].left;
      CheckpointsOnSchedule(g, profile, s, current, runs[0].env, limits, extra, first);
      InterruptionsOnSchedule(g, profile, first.state, first.currentNode, limits, extra + 1, runs[1..]);
      assert Restored(s, current, runs) == Restored(first.state, first.currentNode, runs[1..]);
    }
  }

  /** A fresh run interrupted any number of times and recovered each time: tool rounds never exceed the
      limit over the whole chain, and a chain that finishes took exactly one extra step per recovery. */
  lemma {:induction false} RecoveredRuns(g: Graph, profile: ExecutionProfile, s: ExecutionSnapshot, limits: RunLimits, runs: seq<Interrupted>,
                      env: Environment)
    requires IsBuiltIn(g, profile) && s.profile == profile && s.iteration == 0 && s.toolRoundsCompleted == 0
    requires runs != [] && Interruptions(g, s, g.start, limits, runs)
    ensures var c := runs[|runs| - 1].left;
            var r := Continued(g, c, Running, profile, Some(c), env, limits);
            && r.Ok? && EndsOnSchedule(profile, r.value, limits, |runs|)
            && (FaultFree(env) && limits.maxGraphSteps >= StepBound(profile, limits, |runs|) ==>
                  r.value.result.Ok? && r.value.result.value.status == Finished)
  {
    FreshOnSchedule(profile, s, limits);
    InterruptionsOnSchedule(g, profile, s, g.start, limits, 0, runs);
    var c := runs[|runs| - 1].left;
    LastIsCheckpoint(g, profile, s, g.start, limits, 0, runs);
    RunsOnSchedule(g, profile, c.state, c.currentNode, env, limits, Some(c), |runs|);
  }

  lemma {:induction false} LastIsCheckpoint(g: Graph, profile: ExecutionProfile, s: ExecutionSnapshot, current: NodeId, limits: RunLimits,
                                            extra: nat, runs: seq<Interrupted>)
    requires IsBuiltIn(g, profile) && OnSchedule(profile, s, current, limits, extra)
    requires runs != [] && Interruptions(g, s, current, limits, runs)
    ensures var c := runs[|runs| - 1].left; c == Checkpoint(c.state, c.currentNode, Running)
    decreases |runs|
  {
    hide IsBuiltIn, OnSchedule;
    var first := runs[0].left;
    CheckpointsOnSchedule(g, profile, s, current, runs[0].env, limits, extra, first);
    if |runs| > 1 {
      LastIsCheckpoint(g, profile, first.state, first.currentNode, limits, extra + 1, runs[1..]);
    }
  }
}
