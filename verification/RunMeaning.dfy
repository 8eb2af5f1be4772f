/** What a run of the graph runner is, for any graph: the visits it pays to nodes, why it ended where it did,
    what it leaves behind, and which of its checkpoints can be continued. */
module RunMeaning {
  import opened Domain
  import opened Conversation
  import opened GraphRunner

  // ---------------------------------------------------------------- what a run is

  /** The runner about to run `node`. */
  datatype Visit = Visit(state: ExecutionSnapshot, node: NodeId)

  /** The step is begun: it is within the budget, the node is registered, and the token was not read
      cancelled. */
  ghost predicate Begun(g: Graph, env: Environment, limits: RunLimits, v: Visit) {
    !env.cancelled(v.state.iteration, 0) && v.state.iteration < limits.maxGraphSteps && v.node in g.nodes
  }

  /** The node was awaited; a tool node is never timed out or cancelled from outside. */
  ghost predicate Replied(g: Graph, env: Environment, limits: RunLimits, v: Visit) {
    Begun(g, env, limits, v) && !env.cancelled(v.state.iteration, 1)
  }

  predicate IsToolClass(g: Graph, v: Visit)
    requires v.node in g.nodes
  {
    g.nodes[v.node].runtimeClass == ToolExecutionClass
  }

  /** The node succeeded, and unless it is a tool node the token was not cancelled meanwhile. */
  ghost predicate Completed(g: Graph, env: Environment, limits: RunLimits, v: Visit) {
    && Replied(g, env, limits, v) && env.reply(v.state.iteration).Succeeds?
    && (IsToolClass(g, v) || !env.cancelled(v.state.iteration, 2))
  }

  /** The node took its step: a model node stores the calls of its reply; a tool node clears them and completes
      a round; every other node leaves both alone. */
  ghost predicate Stepped(g: Graph, env: Environment, v: Visit, t: ExecutionSnapshot)
    requires v.node in g.nodes && env.reply(v.state.iteration).Succeeds?
  {
    var s, role := v.state, g.nodes[v.node].role;
    && t.sessionId == s.sessionId && t.loopId == s.loopId && t.profile == s.profile && t.iteration == s.iteration + 1
    && t.pendingToolCalls == (match role
                              case ModelNode => env.reply(s.iteration).toolCalls
                              case ToolNode => []
                              case _ => s.pendingToolCalls)
    && t.toolRoundsCompleted == s.toolRoundsCompleted + (if role == ToolNode then 1 else 0)
  }

  /** The edge a completed node asks for: the tool branch if a model called tools and rounds are left. */
  ghost function Label(g: Graph, env: Environment, limits: RunLimits, v: Visit): string
    requires v.node in g.nodes && env.reply(v.state.iteration).Succeeds?
  {
    if g.nodes[v.node].role == ModelNode && env.reply(v.state.iteration).toolCalls != []
       && v.state.toolRoundsCompleted < limits.maxToolRounds then NEEDS_TOOLS else DEFAULT_EDGE
  }

  ghost predicate MovesOn(g: Graph, v: Visit)
    requires v.node in g.nodes
  {
    g.nodes[v.node].role != FinishNode && g.nodes[v.node].role != PauseNode
  }

  /** `w` is the visit after `v`: the node completed, and its edge leads to `w`. */
  ghost predicate Follows(g: Graph, env: Environment, limits: RunLimits, v: Visit, w: Visit) {
    && Completed(g, env, limits, v) && MovesOn(g, v)
    && Stepped(g, env, v, w.state) && w.state.lastCompletedNode == Some(v.node)
    && (v.node, Label(g, env, limits, v)) in g.edges && w.node == g.edges[(v.node, Label(g, env, limits, v))]
  }

  ghost predicate Reports(end: RunEnd, status: LoopStatus) {
    end.result.Ok? && end.result.value.status == status
  }

  /** What the run reports when `v` is its last visit: cancelled exactly if the token was read cancelled or the
      node reported it, timed out exactly if the budget is used up or an awaited node other than a tool node
      timed out, paused or finished exactly if a pausing or finishing node completed; an error exactly if the
      node or its edge is missing or the node failed. */
  ghost predicate TellsWhy(g: Graph, env: Environment, limits: RunLimits, v: Visit, end: RunEnd) {
    var step := v.state.iteration;
    var reply := env.reply(step);
    && (Reports(end, Cancelled) <==>
          || env.cancelled(step, 0)
          || (Begun(g, env, limits, v)
              && (|| env.cancelled(step, 1) || reply.ReportsCancelled?
                  || (!IsToolClass(g, v) && (reply.TokenCancelled? || (reply.Succeeds? && env.cancelled(step, 2)))))))
    && (Reports(end, TimedOut) <==>
          || (!env.cancelled(step, 0) && step >= limits.maxGraphSteps)
          || (Replied(g, env, limits, v) && reply.TimesOut? && !IsToolClass(g, v)))
    && (Reports(end, Paused) <==> Completed(g, env, limits, v) && g.nodes[v.node].role == PauseNode)
    && (Reports(end, Finished) <==> Completed(g, env, limits, v) && g.nodes[v.node].role == FinishNode)
    && !Reports(end, Running) && !Reports(end, Failed)
    && (end.result == Err(MissingNode) <==> !env.cancelled(step, 0) && step < limits.maxGraphSteps && v.node !in g.nodes)
    && (end.result == Err(NodeFailed) <==>
          Replied(g, env, limits, v) && (reply.FailsWith? || (IsToolClass(g, v) && (reply.TimesOut? || reply.TokenCancelled?))))
    && (end.result == Err(MissingEdge) <==>
          Completed(g, env, limits, v) && MovesOn(g, v) && (v.node, Label(g, env, limits, v)) !in g.edges)
    && (end.result.Err? ==> end.result.error in {MissingNode, NodeFailed, MissingEdge})
  }

  /** The state and the checkpoint the run leaves: the state of the last visit, with the step counted if it was
      begun and taken if its node succeeded; the checkpoint names that node and the reported status, `Failed`
      after a failed node, and `Running` in front of a missing edge. A finished run leaves none, and one that
      ran into a missing node the one it found. */
  ghost predicate LeavesBehind(g: Graph, env: Environment, limits: RunLimits, v: Visit, found: Option<LoopState>, end: RunEnd) {
    && (if !Begun(g, env, limits, v) then end.state == v.state
        else if Replied(g, env, limits, v) && env.reply(v.state.iteration).Succeeds? then
          && Stepped(g, env, v, end.state)
          && end.state.lastCompletedNode == if Completed(g, env, limits, v) then Some(v.node) else v.state.lastCompletedNode
        else end.state == v.state.(iteration := v.state.iteration + 1))
    && (end.result.Ok? ==>
          && end.result.value == GraphRunResult(end.result.value.status, end.state.iteration, end.state.toolRoundsCompleted, Some(v.node))
          && end.checkpoint == if end.result.value.status == Finished then None
                               else Some(Checkpoint(end.state, v.node, end.result.value.status)))
    && (end.result == Err(NodeFailed) ==> end.checkpoint == Some(Checkpoint(end.state, v.node, Failed)))
    && (end.result == Err(MissingEdge) ==>
          end.checkpoint == Some(Checkpoint(v.state.(iteration := v.state.iteration + 1), v.node, Running)))
    && (end.result == Err(MissingNode) ==> end.checkpoint == found)
  }

  /** The checkpoint saved in front of a step that was begun. */
  function Before(v: Visit): LoopState {
    Checkpoint(v.state.(iteration := v.state.iteration + 1), v.node, Running)
  }

  /** `visits` is the whole run: it starts at `first`, each visit follows the one before, and the last one is
      where `end` comes from. In front of every step that was begun its checkpoint was saved. */
  ghost predicate RunAlong(g: Graph, env: Environment, limits: RunLimits, first: Visit, saved: Option<LoopState>, visits: seq<Visit>,
                           end: RunEnd, running: seq<LoopState>)
  {
    && visits != [] && visits[0] == first
    && (forall i | 0 < i < |visits| :: Follows(g, env, limits, visits[i - 1], visits[i]))
    && var last := visits[|visits| - 1];
       && TellsWhy(g, env, limits, last, end)
       && LeavesBehind(g, env, limits, last, if |visits| == 1 then saved else Some(Before(visits[|visits| - 2])), end)
       && |running| == (if Begun(g, env, limits, last) then |visits| else |visits| - 1)
       && (forall i | 0 <= i < |running| :: running[i] == Before(visits[i]))
  }

  /** Every run of every graph is such a sequence of visits. */
  lemma {:induction false} RunIsTrace(g: Graph, s: ExecutionSnapshot, current: NodeId, env: Environment, limits: RunLimits,
                                      saved: Option<LoopState>)
    returns (visits: seq<Visit>)
    ensures RunAlong(g, env, limits, Visit(s, current), saved, visits, RunFrom(g, s, current, env, limits, saved),
                     RunningCheckpoints(g, s, current, env, limits))
    decreases Remaining(s, limits)
  {
    hide TellsWhy, LeavesBehind, Follows, RunFrom, RunningCheckpoints;
    var v := Visit(s, current);
    var w := NextVisit(g, env, limits, v);
    if w.None? {
      LastVisit(g, env, limits, v, saved);
      visits := [v];
    } else {
      var rest := RunIsTrace(g, w.value.state, w.value.node, env, limits, Some(Before(v)));
      OneVisit(g, env, limits, v, w.value, saved);
      visits := [v] + rest;
      TraceGrows(g, env, limits, v, w.value, saved, rest, RunFrom(g, s, current, env, limits, saved),
                 RunningCheckpoints(g, w.value.state, w.value.node, env, limits));
    }
  }

  /** The visit after this one, if there is one. */
  ghost function NextVisit(g: Graph, env: Environment, limits: RunLimits, v: Visit): (w: Option<Visit>)
    ensures w.Some? ==> Follows(g, env, limits, v, w.value) && Remaining(w.value.state, limits) < Remaining(v.state, limits)
    ensures w.None? ==> !Completed(g, env, limits, v) || !MovesOn(g, v) || (v.node, Label(g, env, limits, v)) !in g.edges
  {
    if Completed(g, env, limits, v) && MovesOn(g, v) && (v.node, Label(g, env, limits, v)) in g.edges then
      var s := v.state.(iteration := v.state.iteration + 1);
      var (ran, outcome) := NodeEffect(g.nodes[v.node], s, env.reply(v.state.iteration).toolCalls, limits);
      Some(Visit(ran.(lastCompletedNode := Some(v.node)), g.edges[(v.node, Label(g, env, limits, v))]))
    else None
  }

  lemma {:induction false} OneVisit(g: Graph, env: Environment, limits: RunLimits, v: Visit, w: Visit, saved: Option<LoopState>)
    requires NextVisit(g, env, limits, v) == Some(w)
    ensures RunFrom(g, v.state, v.node, env, limits, saved) == RunFrom(g, w.state, w.node, env, limits, Some(Before(v)))
    ensures RunningCheckpoints(g, v.state, v.node, env, limits) == [Before(v)] + RunningCheckpoints(g, w.state, w.node, env, limits)
  {
  }

  lemma {:induction false} LastVisit(g: Graph, env: Environment, limits: RunLimits, v: Visit, saved: Option<LoopState>)
    requires NextVisit(g, env, limits, v).None?
    ensures RunAlong(g, env, limits, v, saved, [v], RunFrom(g, v.state, v.node, env, limits, saved),
                     RunningCheckpoints(g, v.state, v.node, env, limits))
  {
    hide RunFrom, RunningCheckpoints, TellsWhy, LeavesBehind, Begun, NextVisit;
    LastTells(g, env, limits, v, saved);
    LastLeaves(g, env, limits, v, saved);
    LastSaves(g, env, limits, v);
  }

  lemma {:induction false} LastTells(g: Graph, env: Environment, limits: RunLimits, v: Visit, saved: Option<LoopState>)
    requires NextVisit(g, env, limits, v).None?
    ensures TellsWhy(g, env, limits, v, RunFrom(g, v.state, v.node, env, limits, saved))
  {
    hide Stepped;
  }

  lemma {:induction false} LastLeaves(g: Graph, env: Environment, limits: RunLimits, v: Visit, saved: Option<LoopState>)
    requires NextVisit(g, env, limits, v).None?
    ensures LeavesBehind(g, env, limits, v, saved, RunFrom(g, v.state, v.node, env, limits, saved))
  {
  }

  lemma {:induction false} LastSaves(g: Graph, env: Environment, limits: RunLimits, v: Visit)
    requires NextVisit(g, env, limits, v).None?
    ensures RunningCheckpoints(g, v.state, v.node, env, limits) == if Begun(g, env, limits, v) then [Before(v)] else []
  {
    hide Stepped;
  }

  lemma TraceGrows(g: Graph, env: Environment, limits: RunLimits, v: Visit, w: Visit, saved: Option<LoopState>, rest: seq<Visit>, end: RunEnd,
                   running: seq<LoopState>)
    requires Follows(g, env, limits, v, w) && RunAlong(g, env, limits, w, Some(Before(v)), rest, end, running)
    ensures RunAlong(g, env, limits, v, saved, [v] + rest, end, [Before(v)] + running)
  {
    hide TellsWhy, LeavesBehind, Follows, Begun, Before;
    var visits := [v] + rest;
    forall i | 0 < i < |visits|
      ensures Follows(g, env, limits, visits[i - 1], visits[i])
    {
      if i > 1 { assert Follows(g, env, limits, rest[i - 2], rest[i - 1]); }
    }
  }

  // ---------------------------------------------------------------- any graph

  /** Within the step budget, never a step back, and the result reports the state. */
  ghost predicate Bounded(s: ExecutionSnapshot, end: RunEnd, limits: RunLimits) {
    && s.iteration <= end.state.iteration
    && (end.state.iteration <= limits.maxGraphSteps || end.state.iteration == s.iteration)
    && (end.result.Ok? ==> end.result.value.completedSteps == end.state.iteration
                           && end.result.value.toolRoundsCompleted == end.state.toolRoundsCompleted)
  }

  /** No checkpoint once finished; otherwise the state the run stopped in under the reported status, and
      `Failed` if a node failed. */
  ghost predicate TellsTheEnd(end: RunEnd) {
    && (end.result.Ok? ==> (end.result.value.status == Finished <==> end.checkpoint.None?))
    && (end.result.Ok? && end.checkpoint.Some? ==>
          end.checkpoint.value.state == end.state && end.checkpoint.value.status == end.result.value.status
          && Some(end.checkpoint.value.currentNode) == end.result.value.lastNode)
    && (end.result == Err(NodeFailed) ==> end.checkpoint.Some? && end.checkpoint.value.status == Failed)
  }

  /** Any run of any graph stops within the step budget (or at once, if it starts beyond it), and the
      checkpoint it leaves says how it ended. A failed node leaves `Failed`, which neither resume nor
      recovery accepts. */
  lemma {:induction false} AnyRunEnds(g: Graph, s: ExecutionSnapshot, current: NodeId, env: Environment, limits: RunLimits,
                                      saved: Option<LoopState>)
    ensures Bounded(s, RunFrom(g, s, current, env, limits, saved), limits)
    ensures TellsTheEnd(RunFrom(g, s, current, env, limits, saved))
  {
    hide RunFrom, RunningCheckpoints, Follows, Stepped;
    var visits := RunIsTrace(g, s, current, env, limits, saved);
    EachVisitIsAStep(g, env, limits, visits, |visits| - 1);
    var last, end := visits[|visits| - 1], RunFrom(g, s, current, env, limits, saved);
    LeftSteps(g, env, limits, last, end);
  }

  lemma LeftSteps(g: Graph, env: Environment, limits: RunLimits, v: Visit, end: RunEnd)
    requires exists found :: LeavesBehind(g, env, limits, v, found, end)
    ensures end.state.iteration == v.state.iteration + if Begun(g, env, limits, v) then 1 else 0
  {
  }

  /** Every visit but the last counts one step. */
  lemma {:induction false} EachVisitIsAStep(g: Graph, env: Environment, limits: RunLimits, visits: seq<Visit>, i: nat)
    requires i < |visits| && forall j | 0 < j < |visits| :: Follows(g, env, limits, visits[j - 1], visits[j])
    ensures visits[i].state.iteration == visits[0].state.iteration + i
    ensures i > 0 ==> visits[i].state.iteration <= limits.maxGraphSteps
    decreases i
  {
    if i > 0 {
      EachVisitIsAStep(g, env, limits, visits, i - 1);
      assert Follows(g, env, limits, visits[i - 1], visits[i]);
    }
  }

  // ---------------------------------------------------------------- continuing a checkpoint

  /** A checkpoint is continued exactly if it has the wanted status, is readable, tells the truth about the
      session, the loop and the graph it belongs to, and was written under the profile that is asked for; its
      own state is then run from its own node. */
  lemma {:induction false} ContinuedMeans(g: Graph, c: LoopState, wanted: LoopStatus, profile: ExecutionProfile,
                                          saved: Option<LoopState>, env: Environment, limits: RunLimits)
    ensures var r := Continued(g, c, wanted, profile, saved, env, limits);
            && (r.Ok? <==>
                  && c.status == wanted && c.checkpointVersion == 1 && c.parses
                  && c.state.sessionId == c.sessionId && c.state.loopId == c.loopId && c.state.profile == profile
                  && c.graphId == if profile == MemoryAware then "memory-aware-v1" else "external-context-v1")
            && (r.Ok? ==> r.value == RunFrom(g, c.state, c.currentNode, env, limits, saved))
            && (c.status != wanted ==> r == Err(LoopTerminated(c.status)))
  {
    assert "memory-aware-v1"[0] != "external-context-v1"[0];
  }

  /** Neither `resume` nor `recover_running` takes up a run that timed out, was cancelled, failed or finished; a
      paused run is taken up by `resume` alone, in the state and at the node it paused in. */
  lemma {:induction false} OnlyPausedIsResumed(g: Graph, s: ExecutionSnapshot, current: NodeId, env: Environment, limits: RunLimits,
                                             saved: Option<LoopState>, profile: ExecutionProfile, next: Environment)
    requires var end := RunFrom(g, s, current, env, limits, saved); end.checkpoint.Some? && (end.result.Ok? || end.result == Err(NodeFailed))
    ensures var end := RunFrom(g, s, current, env, limits, saved);
            var c := end.checkpoint.value;
            && Continued(g, c, Running, profile, Some(c), next, limits).Err?
            && (Continued(g, c, Paused, profile, Some(c), next, limits).Ok? <==> Reports(end, Paused) && profile == end.state.profile)
            && (Reports(end, Paused) && profile == end.state.profile ==>
                  Continued(g, c, Paused, profile, Some(c), next, limits).value == RunFrom(g, end.state, c.currentNode, next, limits, Some(c))
                  && Some(c.currentNode) == end.result.value.lastNode)
  {
    hide RunFrom, RunningCheckpoints, Follows, Stepped;
    var visits := RunIsTrace(g, s, current, env, limits, saved);
    var c := RunFrom(g, s, current, env, limits, saved).checkpoint.value;
    ContinuedMeans(g, c, Paused, profile, Some(c), next, limits);
  }
}
