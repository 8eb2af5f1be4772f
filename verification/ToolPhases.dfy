/** Scheduling the prepared calls of a round: adjacent read-only calls share a phase, a
    side-effecting call is a barrier, and nothing is dispatched after an outcome that ends the round. */
module ToolPhases {
  import opened Domain
  import opened Conversation
  import opened ToolText

  datatype ExecutionKind = ReadOnly | SideEffecting

  /** A stored tool result; a legacy payload may fail to decode. */
  datatype StoredPayload = Decodable(result: ToolCallResult) | Undecodable

  datatype PreparedToolCall = PreparedToolCall(
    index: nat,
    kind: ExecutionKind,
    call: ToolCallRequest,
    operationKey: string,
    cached: Option<StoredPayload>
  )

  type Phase = seq<PreparedToolCall>

  // ---------------------------------------------------------------- building the phases

  function Closed(batch: Phase): seq<Phase> {
    if batch == [] then [] else [batch]
  }

  /** The phases of `preps` when `batch` is the read-only phase being filled. */
  function PhasesFrom(preps: seq<PreparedToolCall>, batch: Phase): seq<Phase>
    decreases |preps|
  {
    if preps == [] then Closed(batch)
    else if preps[0].cached.Some? then PhasesFrom(preps[1..], batch)
    else if preps[0].kind == ReadOnly then PhasesFrom(preps[1..], batch + [preps[0]])
    else Closed(batch) + [[preps[0]]] + PhasesFrom(preps[1..], [])
  }

  function Uncached(preps: seq<PreparedToolCall>): seq<PreparedToolCall> {
    if preps == [] then [] else (if preps[0].cached.Some? then [] else [preps[0]]) + Uncached(preps[1..])
  }

  function Concat(phases: seq<Phase>): seq<PreparedToolCall> {
    if phases == [] then [] else phases[0] + Concat(phases[1..])
  }

  predicate AllReadOnly(phase: Phase) {
    forall p | p in phase :: p.kind == ReadOnly
  }

  /** A batch of reads, or one side-effecting call alone. */
  predicate WellFormedPhase(phase: Phase) {
    phase != [] && (AllReadOnly(phase) || (|phase| == 1 && phase[0].kind == SideEffecting))
  }

  lemma {:induction false} ConcatSplits(a: seq<Phase>, b: seq<Phase>)
    ensures Concat(a + b) == Concat(a) + Concat(b)
    decreases |a|
  {
    if a == [] {
      assert a + b == b;
    } else {
      assert (a + b)[1..] == a[1..] + b;
      ConcatSplits(a[1..], b);
    }
  }

  lemma ClosedConcat(batch: Phase)
    ensures Concat(Closed(batch)) == batch
  {
    if batch != [] { assert batch + [] == batch; }
  }

  lemma {:induction false} BarrierConcat(batch: Phase, p: PreparedToolCall, rest: seq<Phase>)
    ensures Concat(Closed(batch) + [[p]] + rest) == batch + ([p] + Concat(rest))
  {
    ClosedConcat(batch);
    ConcatSplits(Closed(batch) + [[p]], rest);
    ConcatSplits(Closed(batch), [[p]]);
    assert Concat([[p]]) == [p];
  }

  /** The phases are the uncached calls in the provider's order: none lost, none repeated, none moved. */
  lemma {:induction false} PhasesKeepOrder(preps: seq<PreparedToolCall>, batch: Phase)
    ensures Concat(PhasesFrom(preps, batch)) == batch + Uncached(preps)
    decreases |preps|
  {
    if preps == [] {
      ClosedConcat(batch);
      assert batch + [] == batch;
    } else {
      var p, tail := preps[0], preps[1..];
      if p.cached.Some? {
        PhasesKeepOrder(tail, batch);
        assert Uncached(preps) == Uncached(tail);
      } else if p.kind == ReadOnly {
        PhasesKeepOrder(tail, batch + [p]);
        assert batch + [p] + Uncached(tail) == batch + ([p] + Uncached(tail));
      } else {
        PhasesKeepOrder(tail, []);
        BarrierConcat(batch, p, PhasesFrom(tail, []));
        assert [] + Uncached(tail) == Uncached(tail);
      }
    }
  }

  /** Side-effecting calls are alone in their phase, and two neighbouring phases are never both reads:
      reads are overlapped as far as the barriers allow. */
  ghost predicate Separated(phases: seq<Phase>) {
    && (forall i | 0 <= i < |phases| :: WellFormedPhase(phases[i]))
    && (forall i | 0 < i < |phases| :: !AllReadOnly(phases[i - 1]) || !AllReadOnly(phases[i]))
  }

  lemma BarrierSeparates(batch: Phase, p: PreparedToolCall, rest: seq<Phase>)
    requires AllReadOnly(batch) && p.kind == SideEffecting && Separated(rest)
    ensures Separated(Closed(batch) + [[p]] + rest)
    ensures batch != [] ==> (Closed(batch) + [[p]] + rest)[0] == batch
  {
    assert p in [p];
    assert WellFormedPhase([p]) && !AllReadOnly([p]);
    var phases := Closed(batch) + [[p]] + rest;
    if batch == [] {
      assert phases == [[p]] + rest;
    } else {
      assert WellFormedPhase(batch);
      assert phases == [batch, [p]] + rest;
    }
  }

  lemma {:induction false} PhasesSeparateEffects(preps: seq<PreparedToolCall>, batch: Phase)
    requires AllReadOnly(batch)
    ensures Separated(PhasesFrom(preps, batch))
    decreases |preps|
  {
    if preps != [] {
      var p, tail := preps[0], preps[1..];
      if p.cached.Some? {
        PhasesSeparateEffects(tail, batch);
        assert PhasesFrom(preps, batch) == PhasesFrom(tail, batch);
      } else if p.kind == ReadOnly {
        PhasesSeparateEffects(tail, batch + [p]);
        assert PhasesFrom(preps, batch) == PhasesFrom(tail, batch + [p]);
      } else {
        PhasesSeparateEffects(tail, []);
        BarrierSeparates(batch, p, PhasesFrom(tail, []));
      }
    }
  }

  method BuildPhases(prepared: seq<PreparedToolCall>) returns (phases: seq<Phase>)
    ensures phases == PhasesFrom(prepared, [])
  {
    phases := [];
    var readOnlyPhase: Phase := [];
    assert prepared[0..] == prepared;
    for i := 0 to |prepared|
      invariant phases + PhasesFrom(prepared[i..], readOnlyPhase) == PhasesFrom(prepared, [])
    {
      var prep := prepared[i];
      assert prepared[i..][0] == prep && prepared[i..][1..] == prepared[i + 1..];
      if prep.cached.Some? {
      } else if prep.kind == ReadOnly {
        readOnlyPhase := readOnlyPhase + [prep];
      } else {
        assert phases + (Closed(readOnlyPhase) + [[prep]] + PhasesFrom(prepared[i + 1..], []))
            == phases + Closed(readOnlyPhase) + [[prep]] + PhasesFrom(prepared[i + 1..], []);
        if readOnlyPhase != [] {
          phases := phases + [readOnlyPhase];
          readOnlyPhase := [];
        }
        phases := phases + [[prep]];
      }
    }
    assert prepared[|prepared|..] == [];
    if readOnlyPhase != [] {
      phases := phases + [readOnlyPhase];
    }
  }

  // ---------------------------------------------------------------- executing them

  /** What the task of one call reports when it is joined. */
  datatype TaskOutcome =
    | Completed(result: Result<ToolCallResult, EngineError>)
    | TimedOut
    | WasCancelled
    | Panicked

  type Oracle = nat -> TaskOutcome

  /** A side-effecting call that did not report is indeterminate; a read may simply have failed. */
  function OutcomeResult(prep: PreparedToolCall, outcome: TaskOutcome): Result<ToolCallResult, EngineError> {
    match outcome
    case Completed(result) => result
    case TimedOut => Err(if prep.kind == SideEffecting then ToolOutcomeIndeterminate(prep.operationKey) else ToolProblem)
    case WasCancelled => Err(if prep.kind == SideEffecting then ToolOutcomeIndeterminate(prep.operationKey) else Cancelled)
    case Panicked => Err(ToolProblem)
  }

  predicate EndsRound(result: Result<ToolCallResult, EngineError>) {
    result.Err? && (result.error.Cancelled? || result.error.ToolOutcomeIndeterminate?)
  }

  /** `result` tells what became of the task: a completed task its own result; a side-effecting one that timed
      out or was cancelled that its effect may have happened, under its own key; a read that timed out an
      ordinary error, and one that was cancelled the cancellation. */
  ghost predicate Tells(p: PreparedToolCall, outcome: TaskOutcome, result: Result<ToolCallResult, EngineError>) {
    && !outcome.Panicked?
    && (outcome.Completed? ==> result == outcome.result)
    && (p.kind == SideEffecting && (outcome.TimedOut? || outcome.WasCancelled?) ==> result == Err(ToolOutcomeIndeterminate(p.operationKey)))
    && (p.kind == ReadOnly && outcome.TimedOut? ==> result == Err(ToolProblem))
    && (p.kind == ReadOnly && outcome.WasCancelled? ==> result == Err(Cancelled))
  }

  /** After this outcome nothing more is dispatched: a panic, a cancellation, an effect nobody knows the end
      of. */
  predicate StopsRound(p: PreparedToolCall, outcome: TaskOutcome) {
    || outcome.Panicked? || outcome.WasCancelled?
    || (outcome.TimedOut? && p.kind == SideEffecting)
    || (outcome.Completed? && outcome.result.Err? && (outcome.result.error.Cancelled? || outcome.result.error.ToolOutcomeIndeterminate?))
  }

  /** Every task of the phase was joined and none ended the round. */
  ghost predicate RanThrough(phase: Phase, oracle: Oracle) {
    forall p | p in phase :: !StopsRound(p, oracle(p.index))
  }

  lemma OutcomeTold(p: PreparedToolCall, outcome: TaskOutcome)
    ensures !outcome.Panicked? ==> Tells(p, outcome, OutcomeResult(p, outcome))
    ensures StopsRound(p, outcome) <==> outcome.Panicked? || EndsRound(OutcomeResult(p, outcome))
  {
  }

  function Keys(phase: Phase): (r: seq<string>)
    ensures |r| == |phase| && forall i | 0 <= i < |phase| :: r[i] == phase[i].operationKey
  {
    seq(|phase|, i requires 0 <= i < |phase| => phase[i].operationKey)
  }

  function PhaseKeys(phases: seq<Phase>): (r: seq<seq<string>>)
    ensures |r| == |phases| && forall i | 0 <= i < |phases| :: r[i] == Keys(phases[i])
  {
    seq(|phases|, i requires 0 <= i < |phases| => Keys(phases[i]))
  }

  type Results = map<nat, Result<ToolCallResult, EngineError>>

  /** `completed` holds the outcome of every call in `ran`. */
  ghost predicate Recorded(ran: seq<PreparedToolCall>, oracle: Oracle, completed: Results) {
    && (forall p | p in ran ::
          p.index in completed && !oracle(p.index).Panicked? && completed[p.index] == OutcomeResult(p, oracle(p.index)))
    && (forall i | i in completed :: exists p :: p in ran && p.index == i)
  }

  /** Every call in `ran` is told what became of it. */
  ghost predicate TellsAll(ran: seq<PreparedToolCall>, oracle: Oracle, completed: Results) {
    forall p | p in ran :: p.index in completed && Tells(p, oracle(p.index), completed[p.index])
  }

  lemma RecordedTells(ran: seq<PreparedToolCall>, oracle: Oracle, completed: Results)
    requires Recorded(ran, oracle, completed)
    ensures TellsAll(ran, oracle, completed)
  {
    forall p | p in ran
      ensures p.index in completed && Tells(p, oracle(p.index), completed[p.index])
    {
      OutcomeTold(p, oracle(p.index));
    }
  }

  ghost predicate DistinctIndices(preps: seq<PreparedToolCall>) {
    forall i, j | 0 <= i < j < |preps| :: preps[i].index != preps[j].index
  }

  ghost predicate ApartIndices(a: seq<PreparedToolCall>, b: seq<PreparedToolCall>) {
    forall p, q | p in a && q in b :: p.index != q.index
  }

  /** The executor boundary: a log of the operation keys of each phase that was dispatched. */
  class ToolExecutor {
    ghost var dispatched: seq<seq<string>>

    constructor ()
      ensures dispatched == []
    {
      dispatched := [];
    }

    /** `execute_tool_phase`: every task is spawned, then all are joined, in any order. */
    method ExecutePhase(phase: Phase, oracle: Oracle) returns (r: Result<Results, EngineError>)
      requires DistinctIndices(phase)
      modifies this
      ensures dispatched == old(dispatched) + [Keys(phase)]
      ensures r.Err? <==> exists p :: p in phase && oracle(p.index).Panicked?
      ensures r.Err? ==> r.error == ToolProblem
      ensures r.Ok? ==> Recorded(phase, oracle, r.value)
      ensures r.Ok? ==> TellsAll(phase, oracle, r.value)
    {
      dispatched := dispatched + [Keys(phase)];
      var completed: Results := map[];
      var pending := set p | p in phase;
      while pending != {}
        invariant dispatched == old(dispatched) + [Keys(phase)]
        invariant pending <= set p | p in phase
        invariant forall p | p in phase && p !in pending ::
                    p.index in completed && completed[p.index] == OutcomeResult(p, oracle(p.index)) && !oracle(p.index).Panicked?
        invariant forall i | i in completed :: exists p :: p in phase && p.index == i
      {
        var p :| p in pending;
        if oracle(p.index).Panicked? {
          return Err(ToolProblem);
        }
        SameIndex(phase, p);
        completed := completed[p.index := OutcomeResult(p, oracle(p.index))];
        pending := pending - {p};
      }
      r := Ok(completed);
      RecordedTells(phase, oracle, completed);
    }

    /** The phases one after another, up to the first that ends the round. */
    method ExecutePhases(phases: seq<Phase>, oracle: Oracle)
      returns (r: Result<Results, EngineError>, terminal: Option<EngineError>, ghost ran: nat)
      requires DistinctIndices(Concat(phases))
      modifies this
      ensures ran <= |phases| && dispatched == old(dispatched) + PhaseKeys(phases[..ran])
      ensures forall i | 0 <= i < ran - 1 :: RanThrough(phases[i], oracle)
      ensures r.Err? ==> r.error == ToolProblem && ran > 0 && exists p :: p in phases[ran - 1] && oracle(p.index).Panicked?
      ensures r.Ok? ==> Recorded(Concat(phases[..ran]), oracle, r.value)
      ensures r.Ok? ==> TellsAll(Concat(phases[..ran]), oracle, r.value)
      ensures r.Ok? && terminal.None? ==> ran == |phases| && forall i | 0 <= i < ran :: RanThrough(phases[i], oracle)
      ensures r.Ok? && terminal.Some? ==>
                && ran > 0 && !RanThrough(phases[ran - 1], oracle)
                && exists i :: i in r.value && EndsRound(r.value[i]) && r.value[i].error == terminal.value
    {
      hide Concat, Recorded, TellsAll, RanThrough, Keys, PhaseKeys, DistinctIndices, ApartIndices, OutcomeResult;
      terminal := None;
      var completed: Results := map[];
      ran := 0;
      NothingRan(phases, oracle, old(dispatched));
      for k := 0 to |phases|
        invariant ran == k && dispatched == old(dispatched) + PhaseKeys(phases[..k])
        invariant forall i | 0 <= i < k :: RanThrough(phases[i], oracle)
        invariant Recorded(Concat(phases[..k]), oracle, completed)
      {
        NextPhase(phases, k);
        var results := ExecutePhase(phases[k], oracle);
        ran := k + 1;
        PhaseKeysStep(phases, k, old(dispatched));
        if results.Err? {
          return Err(results.error), None, ran;
        }
        RecordMore(Concat(phases[..k]), phases[k], oracle, completed, results.value);
        RanThroughOrEnds(phases[k], oracle, results.value);
        completed := completed + results.value;
        if index :| index in results.value && EndsRound(results.value[index]) {
          RecordedTells(Concat(phases[..ran]), oracle, completed);
          return Ok(completed), Some(results.value[index].error), ran;
        }
      }
      assert phases[..|phases|] == phases;
      RecordedTells(Concat(phases), oracle, completed);
      r := Ok(completed);
    }
  }

  lemma NothingRan(phases: seq<Phase>, oracle: Oracle, log: seq<seq<string>>)
    ensures Recorded(Concat(phases[..0]), oracle, map[]) && log + PhaseKeys(phases[..0]) == log
  {
  }

  /** A fully joined phase ran through unless one of its results ends the round. */
  lemma RanThroughOrEnds(phase: Phase, oracle: Oracle, results: Results)
    requires Recorded(phase, oracle, results) && !exists p :: p in phase && oracle(p.index).Panicked?
    ensures RanThrough(phase, oracle) <==> forall i | i in results :: !EndsRound(results[i])
  {
    hide EndsRound, StopsRound, OutcomeResult;
    forall p | p in phase
      ensures StopsRound(p, oracle(p.index)) <==> EndsRound(results[p.index])
    {
      OutcomeTold(p, oracle(p.index));
    }
    forall i | i in results && EndsRound(results[i])
      ensures !RanThrough(phase, oracle)
    {
      var p :| p in phase && p.index == i;
    }
  }

  lemma SameIndex(phase: Phase, p: PreparedToolCall)
    requires DistinctIndices(phase) && p in phase
    ensures forall q | q in phase && q.index == p.index :: q == p
  {
  }

  lemma PhaseKeysStep(phases: seq<Phase>, k: nat, log: seq<seq<string>>)
    requires k < |phases|
    ensures log + PhaseKeys(phases[..k]) + [Keys(phases[k])] == log + PhaseKeys(phases[..k + 1])
  {
    assert PhaseKeys(phases[..k + 1]) == PhaseKeys(phases[..k]) + [Keys(phases[k])];
  }

  lemma {:induction false} NextPhase(phases: seq<Phase>, k: nat)
    requires k < |phases| && DistinctIndices(Concat(phases))
    ensures Concat(phases[..k + 1]) == Concat(phases[..k]) + phases[k]
    ensures DistinctIndices(phases[k])
    ensures ApartIndices(Concat(phases[..k]), phases[k])
  {
    hide Concat, DistinctIndices, ApartIndices;
    var a, b, c := Concat(phases[..k]), phases[k], Concat(phases[k + 1..]);
    assert phases[..k + 1] == phases[..k] + [phases[k]];
    ConcatSplits(phases[..k], [phases[k]]);
    ConcatOne(phases[k]);
    assert phases == phases[..k + 1] + phases[k + 1..];
    ConcatSplits(phases[..k + 1], phases[k + 1..]);
    MiddleDistinct(a, b, c);
  }

  lemma ConcatOne(phase: Phase)
    ensures Concat([phase]) == phase
  {
    assert phase + [] == phase;
  }

  lemma MiddleDistinct(a: Phase, b: Phase, c: Phase)
    requires DistinctIndices(a + b + c)
    ensures DistinctIndices(b) && ApartIndices(a, b)
  {
    var all := a + b + c;
    assert forall i | 0 <= i < |a| :: all[i] == a[i];
    assert forall j | 0 <= j < |b| :: all[|a| + j] == b[j];
  }

  lemma RecordMore(a: seq<PreparedToolCall>, b: seq<PreparedToolCall>, oracle: Oracle, ra: Results, rb: Results)
    requires Recorded(a, oracle, ra) && Recorded(b, oracle, rb)
    requires ApartIndices(a, b)
    ensures Recorded(a + b, oracle, ra + rb)
  {
    forall i | i in ra + rb
      ensures exists p :: p in a + b && p.index == i
    {
      if i in rb {
        var p :| p in b && p.index == i;
        assert p in a + b;
      } else {
        var p :| p in a && p.index == i;
        assert p in a + b;
      }
    }
  }
}
