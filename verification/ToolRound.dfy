/** One run of the tool node: prepare every pending call, reserve room for the whole transcript,
    execute the phases, and complete the round all at once or not at all. */
module ToolRound {
  import opened Domain
  import opened Conversation
  import opened OperationKeys
  import opened ToolText
  import opened ToolPhases
  import opened Transcript

  /** What stays fixed while a checkpoint is recovered again and again. */
  datatype ToolConfig = ToolConfig(
    maxToolCallsPerRound: nat,
    reserveTools: nat,
    maxToolResultBytes: nat,
    localMemory: bool,
    estimate: Estimator,
    kindOf: ToolCallRequest -> ExecutionKind,
    prepareArguments: ToolCallRequest -> Option<string>
  )

  /** What may differ between attempts: cancellation, the executor, the repository. */
  datatype Attempt = Attempt(
    cancelledBefore: nat -> bool,
    lookupFails: nat -> bool,
    outcome: Oracle,
    persistence: nat -> Persistence
  )

  type ToolStore = map<string, StoredPayload>

  // ---------------------------------------------------------------- preparing the calls

  function AssignId(loop: string, round: nat, index: nat, call: ToolCallRequest): ToolCallRequest {
    if call.id.None? then call.(id := Some("call-" + loop + "-" + Decimal(round) + "-" + Decimal(index))) else call
  }

  /** The call that is dispatched; nothing if its tool is disabled or its arguments are invalid. */
  function EffectiveCall(config: ToolConfig, loop: string, round: nat, index: nat, call: ToolCallRequest): (r: Option<ToolCallRequest>)
    ensures r.Some? ==> r.value.name == call.name && r.value.id.Some? && (call.id.Some? ==> r.value.id == call.id)
    ensures r.Some? && call.id.None? ==> r.value.id == Some("call-" + loop + "-" + Decimal(round) + "-" + Decimal(index))
    ensures !config.localMemory ==> r.Some? && r.value.arguments == call.arguments
    ensures config.localMemory && r.Some? ==> config.prepareArguments(call.(id := r.value.id)) == Some(r.value.arguments)
    ensures r.None? ==> exists id: Option<string> ::
              id.Some? && (call.id.Some? ==> id == call.id) && config.prepareArguments(call.(id := id)) == None
  {
    var withId := AssignId(loop, round, index, call);
    assert withId == call.(id := withId.id);
    if !config.localMemory then Some(withId)
    else
      match config.prepareArguments(withId)
      case Some(arguments) => Some(withId.(arguments := arguments))
      case None => None
  }

  /** Call `i` prepared: a function of the checkpoint and of what is already stored. */
  ghost predicate PreparedAt(config: ToolConfig, loop: string, round: nat, calls: seq<ToolCallRequest>, stored: ToolStore,
                             i: nat, p: PreparedToolCall)
    requires i < |calls|
  {
    var call := EffectiveCall(config, loop, round, i, calls[i]);
    var key := ToolResultKey(loop, round, i, calls[i].name);
    && call.Some?
    && p == PreparedToolCall(i, config.kindOf(call.value), call.value, key,
                             if config.localMemory && key in stored then Some(stored[key]) else None)
  }

  ghost predicate AllPrepared(config: ToolConfig, loop: string, round: nat, calls: seq<ToolCallRequest>, stored: ToolStore,
                              preps: seq<PreparedToolCall>)
  {
    |preps| <= |calls| && forall i | 0 <= i < |preps| :: PreparedAt(config, loop, round, calls, stored, i, preps[i])
  }

  ghost predicate UsableIds(preps: seq<PreparedToolCall>, taken: set<string>) {
    && (forall i | 0 <= i < |preps| ::
          preps[i].call.id.Some? && !Blank(preps[i].call.id.value) && preps[i].call.id.value !in taken)
    && (forall i, j | 0 <= i < j < |preps| :: preps[i].call.id != preps[j].call.id)
  }

  ghost function IdsOf(preps: seq<PreparedToolCall>): set<string> {
    set p | p in preps && p.call.id.Some? :: p.call.id.value
  }

  lemma NewId(preps: seq<PreparedToolCall>, id: string)
    ensures id in IdsOf(preps) || forall i | 0 <= i < |preps| :: preps[i].call.id != Some(id)
  {
    forall i | 0 <= i < |preps| && preps[i].call.id == Some(id)
      ensures id in IdsOf(preps)
    {
      assert preps[i] in preps;
    }
  }

  lemma IdsStep(preps: seq<PreparedToolCall>, p: PreparedToolCall)
    requires p.call.id.Some?
    ensures IdsOf(preps + [p]) == IdsOf(preps) + {p.call.id.value}
  {
    assert p in preps + [p];
  }

  /** Why call `i` cannot be prepared: the run is cancelled, its tool is disabled or its arguments are invalid,
      its id is blank or not its own, its name is blank, or the store cannot be read. */
  ghost predicate Unpreparable(config: ToolConfig, attempt: Attempt, loop: string, round: nat, calls: seq<ToolCallRequest>, taken: set<string>,
                               i: nat)
    requires i < |calls|
  {
    var call := EffectiveCall(config, loop, round, i, calls[i]);
    || attempt.cancelledBefore(i) || call.None?
    || Blank(call.value.id.value) || call.value.id.value in taken
    || (exists j | 0 <= j < i ::
          var earlier := EffectiveCall(config, loop, round, j, calls[j]); earlier.Some? && earlier.value.id == call.value.id)
    || Blank(calls[i].name)
    || (config.localMemory && attempt.lookupFails(i))
  }

  lemma NextCall(config: ToolConfig, attempt: Attempt, loop: string, round: nat, calls: seq<ToolCallRequest>, taken: set<string>,
                 stored: ToolStore, prepared: seq<PreparedToolCall>)
    requires |prepared| < |calls| && AllPrepared(config, loop, round, calls, stored, prepared)
    ensures var i := |prepared|;
            var call := EffectiveCall(config, loop, round, i, calls[i]);
            Unpreparable(config, attempt, loop, round, calls, taken, i) <==>
              (attempt.cancelledBefore(i) || call.None?
               || Blank(call.value.id.value) || call.value.id.value in taken + IdsOf(prepared)
               || Blank(call.value.name) || (config.localMemory && attempt.lookupFails(i)))
  {
    hide EffectiveCall, ToolResultKey, Blank;
    var i := |prepared|;
    var call := EffectiveCall(config, loop, round, i, calls[i]);
    if call.Some? {
      forall j | 0 <= j < i
        ensures prepared[j] in prepared && EffectiveCall(config, loop, round, j, calls[j]) == Some(prepared[j].call)
      {
        assert PreparedAt(config, loop, round, calls, stored, j, prepared[j]);
      }
      if p :| p in prepared && p.call.id == call.value.id {
        var j :| 0 <= j < i && prepared[j] == p;
      }
    }
  }

  /** The loop over the pending calls: nothing is dispatched until every one is prepared. */
  method PrepareCalls(config: ToolConfig, attempt: Attempt, loop: string, round: nat, calls: seq<ToolCallRequest>,
                      taken: set<string>, stored: ToolStore)
    returns (r: Result<seq<PreparedToolCall>, EngineError>)
    ensures r.Ok? ==> |r.value| == |calls| && AllPrepared(config, loop, round, calls, stored, r.value) && UsableIds(r.value, taken)
    ensures r.Ok? <==> forall i | 0 <= i < |calls| :: !Unpreparable(config, attempt, loop, round, calls, taken, i)
  {
    hide EffectiveCall, ToolResultKey, Unpreparable;
    var prepared: seq<PreparedToolCall> := [];
    var callIds := taken;
    for index := 0 to |calls|
      invariant |prepared| == index && AllPrepared(config, loop, round, calls, stored, prepared) && UsableIds(prepared, taken)
      invariant callIds == taken + IdsOf(prepared)
      invariant forall i | 0 <= i < index :: !Unpreparable(config, attempt, loop, round, calls, taken, i)
    {
      NextCall(config, attempt, loop, round, calls, taken, stored, prepared);
      if attempt.cancelledBefore(index) {
        return Err(Cancelled);
      }
      var effective := EffectiveCall(config, loop, round, index, calls[index]);
      if effective.None? {
        return Err(ToolProblem);
      }
      var call := effective.value;
      if Blank(call.id.value) || call.id.value in callIds {
        return Err(ToolProblem);
      }
      NewId(prepared, call.id.value);
      callIds := callIds + {call.id.value};
      if Blank(call.name) {
        return Err(ToolProblem);
      }
      var key := ToolResultKey(loop, round, index, call.name);
      if config.localMemory && attempt.lookupFails(index) {
        return Err(StorageProblem);
      }
      var prep := PreparedToolCall(index, config.kindOf(call), call, key,
                                   if config.localMemory && key in stored then Some(stored[key]) else None);
      assert PreparedAt(config, loop, round, calls, stored, index, prep);
      IdsStep(prepared, prep);
      prepared := prepared + [prep];
    }
    r := Ok(prepared);
  }

  // ---------------------------------------------------------------- reserving the transcript

  function ResultMessage(content: string, id: Option<string>): ConversationMessage {
    ConversationMessage(ToolRole, content, id, [])
  }

  /** `minimum_tool_result_message_tokens` */
  function MinimumResultTokens(estimate: Estimator, call: ToolCallRequest): nat {
    MessageTokens(estimate, ResultMessage(EMPTY_OBJECT, call.id))
  }

  function MinimumResults(estimate: Estimator, calls: seq<ToolCallRequest>): nat {
    if calls == [] then 0 else MinimumResults(estimate, calls[..|calls| - 1]) + MinimumResultTokens(estimate, calls[|calls| - 1])
  }

  function CallsOf(preps: seq<PreparedToolCall>): (r: seq<ToolCallRequest>)
    ensures |r| == |preps| && forall i | 0 <= i < |preps| :: r[i] == preps[i].call
  {
    seq(|preps|, i requires 0 <= i < |preps| => preps[i].call)
  }

  datatype Plan = Plan(assistantTurn: ConversationMessage, extra: nat)

  method SumMessages(estimate: Estimator, messages: seq<ConversationMessage>) returns (tokens: nat)
    ensures tokens == MessagesTokens(estimate, messages)
  {
    tokens := 0;
    for i := 0 to |messages|
      invariant tokens == MessagesTokens(estimate, messages[..i])
    {
      var t := EstimateConversationMessage(estimate, messages[i]);
      tokens := tokens + t;
      assert messages[..i + 1][..i] == messages[..i];
    }
    assert messages[..|messages|] == messages;
  }

  method SumMinimums(estimate: Estimator, calls: seq<ToolCallRequest>) returns (tokens: nat)
    ensures tokens == MinimumResults(estimate, calls)
  {
    tokens := 0;
    for i := 0 to |calls|
      invariant tokens == MinimumResults(estimate, calls[..i])
    {
      tokens := tokens + MinimumResultTokens(estimate, calls[i]);
      assert calls[..i + 1][..i] == calls[..i];
    }
    assert calls[..|calls|] == calls;
  }

  lemma ContentCost(estimate: Estimator, content: string, calls: seq<ToolCallRequest>)
    ensures MessageTokens(estimate, AssistantTurn(content, calls)) + estimate("")
         == MessageTokens(estimate, AssistantTurn("", calls)) + estimate(content)
  {
  }

  /** The assistant half of the round: calls, then as much of the draft text as a third of the
      variable tokens allows. */
  method BoundAssistantTurn(estimate: Estimator, calls: seq<ToolCallRequest>, draft: string, variableTokens: nat)
    returns (turn: ConversationMessage)
    ensures turn == AssistantTurn(turn.content, turn.toolCalls) && BoundedCalls(calls, turn.toolCalls) && turn.content <= draft
    ensures MessageTokens(estimate, turn) <= MinimumCallTokens(estimate, calls) + variableTokens
    ensures calls != [] ==> FairCalls(estimate, calls, turn.toolCalls, variableTokens / 2 / |calls|)
    ensures var left := MinimumCallTokens(estimate, calls) + variableTokens - MessageTokens(estimate, AssistantTurn("", turn.toolCalls));
            left > 0 && estimate(draft) <= left ==> turn.content == draft
  {
    hide MessageTokens, FairCalls;
    var minimum := EstimateConversationMessage(estimate, AssistantTurn("", WithoutArguments(calls)));
    var bounded := BoundToolCallsForModel(calls, estimate, minimum + variableTokens / 2);
    if bounded.Err? {
      // The budget is at least the minimum, so this exit is never taken.
      assert false;
    }
    turn := AssistantTurn("", bounded.value);
    var used := EstimateConversationMessage(estimate, turn);
    var content := TruncateTextToTokenBudget(draft, estimate, Minus(minimum + variableTokens, used));
    ContentCost(estimate, content, bounded.value);
    turn := AssistantTurn(content, bounded.value);
  }

  /** The assistant half of a round. The tokens that the bare envelopes leave of the reserve are its variable
      tokens: a sixth of them goes to the arguments, in even shares, and a third, less what the arguments took,
      to the draft text, which is kept whole if it fits. */
  ghost predicate DraftKept(config: ToolConfig, h: seq<ConversationMessage>, calls: seq<ToolCallRequest>, draft: string, turn: ConversationMessage) {
    var least := MinimumCallTokens(config.estimate, calls);
    var variable := config.reserveTools - MessagesTokens(config.estimate, h) - least - MinimumResults(config.estimate, calls);
    && variable >= 0
    && (calls != [] ==> FairCalls(config.estimate, calls, turn.toolCalls, variable / 6 / |calls|))
    && var left := least + variable / 3 - MessageTokens(config.estimate, AssistantTurn("", turn.toolCalls));
       left > 0 && config.estimate(draft) <= left ==> turn.content == draft
  }

  /** The assistant message and the tokens left to the results, which together use up the reserve. */
  ghost predicate Planned(config: ToolConfig, h: seq<ConversationMessage>, calls: seq<ToolCallRequest>, draft: string, plan: Plan) {
    var turn := plan.assistantTurn;
    && turn == AssistantTurn(turn.content, turn.toolCalls) && BoundedCalls(calls, turn.toolCalls) && turn.content <= draft
    && MessagesTokens(config.estimate, h) + MessageTokens(config.estimate, turn) + MinimumResults(config.estimate, calls) + plan.extra
       == config.reserveTools
    && DraftKept(config, h, calls, draft, turn)
  }

  /** Reserves room for every call and every result before any tool runs. It fails exactly when the
      bare envelopes do not fit, and otherwise splits what is left between calls and results. */
  method PlanTranscript(config: ToolConfig, turnMessages: seq<ConversationMessage>, calls: seq<ToolCallRequest>, draft: string)
    returns (r: Result<Plan, EngineError>)
    ensures r.Ok? <==> MessagesTokens(config.estimate, turnMessages) + MinimumCallTokens(config.estimate, calls)
                       + MinimumResults(config.estimate, calls) <= config.reserveTools
    ensures r.Err? ==> r.error == Configuration
    ensures r.Ok? ==> Planned(config, turnMessages, calls, draft, r.value)
  {
    hide MessageTokens, MessagesTokens, MinimumResults, FairCalls, Share;
    var used := SumMessages(config.estimate, turnMessages);
    if used > config.reserveTools {
      return Err(Configuration);
    }
    var available: nat := config.reserveTools - used;
    var minimumResults := SumMinimums(config.estimate, calls);
    var minimumAssistant := EstimateConversationMessage(config.estimate, AssistantTurn("", WithoutArguments(calls)));
    if minimumAssistant + minimumResults > available {
      return Err(Configuration);
    }
    var variableTokens: nat := available - (minimumAssistant + minimumResults);
    Thirds(variableTokens);
    var turn := BoundAssistantTurn(config.estimate, calls, draft, Share(variableTokens, 3));
    var turnTokens := EstimateConversationMessage(config.estimate, turn);
    var availableResults := Minus(available, turnTokens);
    if availableResults < minimumResults {
      // The assistant turn took at most a third of the variable tokens.
      assert false;
    }
    r := Ok(Plan(turn, availableResults - minimumResults));
  }

  lemma Thirds(tokens: nat)
    ensures Share(tokens, 3) == tokens / 3 && tokens / 3 / 2 == tokens / 6
  {
  }

  // ---------------------------------------------------------------- assembling the results

  const ERROR_CONTENT: EngineError -> string
  const ERROR_SUMMARY: (string, EngineError) -> string

  /** What the round reports for one call: the stored result, or the outcome of its task, an ordinary
      error being itself a result. */
  function SourceResult(prep: PreparedToolCall, outcome: Option<Result<ToolCallResult, EngineError>>): Result<ToolCallResult, EngineError> {
    if prep.cached.Some? then
      match prep.cached.value
      case Decodable(result) => Ok(result)
      case Undecodable => Err(ToolProblem)
    else if outcome.None? then Err(ToolProblem)
    else if outcome.value.Ok? then Ok(outcome.value.value)
    else if EndsRound(outcome.value) then Err(outcome.value.error)
    else Ok(ToolCallResult(prep.call.id, prep.call.name, ERROR_CONTENT(outcome.value.error), ERROR_SUMMARY(prep.call.name, outcome.value.error)))
  }

  /** `content` shows `original` whole, as a preview, or not at all. */
  ghost predicate Shown(content: string, original: string) {
    || content == original || content == EMPTY_OBJECT || IsPreviewOf(content, original)
    || exists k: nat :: k <= |original| && (content == PREVIEW(original[..k]) || IsPreviewOf(content, PREVIEW(original[..k])))
  }

  /** The model's view of one call's result: under the engine's own id and name. */
  ghost predicate Reports(view: ToolCallResult, call: ToolCallRequest, full: ToolCallResult) {
    view.toolCallId == call.id && view.name == call.name && Shown(view.content, full.content)
  }

  /** The result under the engine's own id and name, whatever the executor put there. */
  function OwnResult(call: ToolCallRequest, result: ToolCallResult): ToolCallResult {
    result.(toolCallId := call.id, name := call.name)
  }

  datatype Bounded = Bounded(full: ToolCallResult, view: ToolCallResult, extra: nat)

  lemma ResultMessageTokens(estimate: Estimator, content: string, call: ToolCallRequest)
    ensures MessageTokens(estimate, ResultMessage(content, call.id)) + estimate(EMPTY_OBJECT)
         == MinimumResultTokens(estimate, call) + estimate(content)
    ensures MinimumResultTokens(estimate, call) >= estimate(EMPTY_OBJECT)
  {
  }

  lemma ShownTwice(original: string, stored: string, content: string)
    requires stored == original || exists k: nat :: k <= |original| && stored == PREVIEW(original[..k])
    requires content == stored || content == EMPTY_OBJECT || IsPreviewOf(content, stored)
    ensures Shown(content, original)
  {
  }

  lemma ShareIsFloor(extra: nat, parts: nat)
    requires parts > 0
    ensures Share(extra, parts) == extra / parts
  {
    DivideBack(extra, parts);
    SharesOnlyGrow(extra / parts, extra, parts, 0);
    SameQuotient(extra / parts, Share(extra, parts), parts, extra);
  }

  lemma SameQuotient(a: nat, b: nat, parts: nat, extra: nat)
    requires a <= b && b * parts <= extra < a * parts + parts
    ensures a == b
  {
    assert (a + 1) * parts == a * parts + parts;
    if a < b {
      Product(a + 1, b, parts);
      assert false;
    }
  }

  /** Storage bound, then the even share of the extra tokens this result may use. */
  method BoundOneResult(config: ToolConfig, call: ToolCallRequest, result: ToolCallResult, extra: nat, remainingResults: nat)
    returns (r: Result<Bounded, EngineError>)
    requires remainingResults > 0
    ensures r.Ok? ==>
              && Reports(r.value.view, call, result)
              && BoundedForStorage(OwnResult(call, result), config.maxToolResultBytes, r.value.full)
              && MessageTokens(config.estimate, ResultMessage(r.value.view.content, r.value.view.toolCallId)) + r.value.extra
                 <= MinimumResultTokens(config.estimate, call) + extra
    ensures r.Err? <==> Unstorable(config, OwnResult(call, result))
    ensures r.Err? ==> r.error == Configuration
    ensures r.Ok? ==> ViewWithin(config.estimate, r.value.full, r.value.view, config.estimate(EMPTY_OBJECT) + extra / remainingResults)
    ensures r.Ok? ==> r.value.extra == Minus(extra, Minus(config.estimate(r.value.view.content), config.estimate(EMPTY_OBJECT)))
    ensures r.Ok? ==> Minus(config.estimate(r.value.view.content), config.estimate(EMPTY_OBJECT)) <= Share(extra, remainingResults)
  {
    hide MessageTokens, Shown, LongestPreview, Envelope, ViewWithin, Share;
    var full := OwnResult(call, result);
    var stored := BoundToolResultForStorage(full, config.maxToolResultBytes);
    if stored.Err? {
      return Err(stored.error);
    }
    full := stored.value;
    StoredKeepsEnvelope(OwnResult(call, result), config.maxToolResultBytes);
    var estimate := config.estimate;
    var minimum := MinimumResultTokens(estimate, call);
    var allowance := Share(extra, remainingResults);
    ShareIsFloor(extra, remainingResults);
    var view, _ := ClampToolResultForModel(full, estimate, estimate(EMPTY_OBJECT) + allowance);
    ResultMessageTokens(estimate, view.content, call);
    ShownTwice(result.content, full.content, view.content);
    var metadata := Minus(minimum, estimate(EMPTY_OBJECT));
    var usedExtra := Minus(metadata + estimate(view.content), minimum);
    r := Ok(Bounded(full, view, Minus(extra, usedExtra)));
  }

  lemma StoredKeepsEnvelope(result: ToolCallResult, maxBytes: nat)
    ensures Envelope(result, maxBytes).toolCallId == result.toolCallId && Envelope(result, maxBytes).name == result.name
    ensures forall k: nat | LongestPreview(Envelope(result, maxBytes), result.content, maxBytes, k) :: k <= |result.content|
  {
  }

  /** What the round reports for a call, given the outcome of its task. */
  function SourceOf(p: PreparedToolCall, oracle: Oracle): Result<ToolCallResult, EngineError> {
    SourceResult(p, Some(OutcomeResult(p, oracle(p.index))))
  }

  /** A payload stored under the key of an uncached call: that call's own result, under its own id and
      name, bounded for storage. */
  ghost predicate StoredFor(config: ToolConfig, p: PreparedToolCall, oracle: Oracle, payload: StoredPayload) {
    && p.cached.None? && payload.Decodable? && SourceOf(p, oracle).Ok?
    && BoundedForStorage(OwnResult(p.call, SourceOf(p, oracle).value), config.maxToolResultBytes, payload.result)
  }

  ghost predicate StoredByRound(config: ToolConfig, preps: seq<PreparedToolCall>, oracle: Oracle, key: string, payload: StoredPayload) {
    config.localMemory && exists p :: p in preps && p.operationKey == key && StoredFor(config, p, oracle, payload)
  }

  /** Nothing stored is lost or changed, and what is added is a result of this round under its own key. */
  ghost predicate StoreGrows(config: ToolConfig, preps: seq<PreparedToolCall>, oracle: Oracle, before: ToolStore, after: ToolStore) {
    && (forall key | key in before :: key in after && after[key] == before[key])
    && (forall key | key in after && key !in before :: StoredByRound(config, preps, oracle, key, after[key]))
  }

  ghost predicate AllStored(preps: seq<PreparedToolCall>, stored: ToolStore) {
    forall p | p in preps :: p.operationKey in stored
  }

  function Messages(results: seq<ToolCallResult>): (r: seq<ConversationMessage>)
    ensures |r| == |results| && forall i | 0 <= i < |results| :: r[i] == ResultMessage(results[i].content, results[i].toolCallId)
  {
    seq(|results|, i requires 0 <= i < |results| => ResultMessage(results[i].content, results[i].toolCallId))
  }

  /** The results so far, in call order, each from its own call. */
  ghost predicate ResultsFor(preps: seq<PreparedToolCall>, oracle: Oracle, results: seq<ToolCallResult>) {
    && |results| <= |preps|
    && forall i | 0 <= i < |results| ::
         var source := SourceOf(preps[i], oracle);
         source.Ok? && Reports(results[i], preps[i].call, source.value)
  }

  ghost predicate WithinExtra(estimate: Estimator, preps: seq<PreparedToolCall>, results: seq<ToolCallResult>, extra: nat, total: nat)
    requires |results| <= |preps|
  {
    MessagesTokens(estimate, Messages(results)) + extra <= MinimumResults(estimate, CallsOf(preps[..|results|])) + total
  }

  lemma SpendOnResult(estimate: Estimator, preps: seq<PreparedToolCall>, results: seq<ToolCallResult>, extra: nat, total: nat,
                      view: ToolCallResult, left: nat)
    requires |results| < |preps| && WithinExtra(estimate, preps, results, extra, total)
    requires MessageTokens(estimate, ResultMessage(view.content, view.toolCallId)) + left
             <= MinimumResultTokens(estimate, preps[|results|].call) + extra
    ensures WithinExtra(estimate, preps, results + [view], left, total)
  {
    hide MessageTokens, MinimumResultTokens;
    var n := |results|;
    assert Messages(results + [view]) == Messages(results) + [ResultMessage(view.content, view.toolCallId)];
    MessagesTokensConcat(estimate, Messages(results), [ResultMessage(view.content, view.toolCallId)]);
    OneMessage(estimate, ResultMessage(view.content, view.toolCallId));
    assert CallsOf(preps[..n + 1]) == CallsOf(preps[..n]) + [preps[n].call];
    OneMoreMinimum(estimate, CallsOf(preps[..n]), preps[n].call);
  }

  lemma OneMessage(estimate: Estimator, m: ConversationMessage)
    ensures MessagesTokens(estimate, [m]) == MessageTokens(estimate, m)
  {
  }

  lemma {:induction false} OneMoreMinimum(estimate: Estimator, calls: seq<ToolCallRequest>, call: ToolCallRequest)
    ensures MinimumResults(estimate, calls + [call]) == MinimumResults(estimate, calls) + MinimumResultTokens(estimate, call)
  {
    assert (calls + [call])[..|calls|] == calls;
  }

  lemma ResultsStep(preps: seq<PreparedToolCall>, oracle: Oracle, results: seq<ToolCallResult>, view: ToolCallResult, source: ToolCallResult)
    requires |results| < |preps| && ResultsFor(preps, oracle, results)
    requires var p := preps[|results|];
             SourceOf(p, oracle) == Ok(source) && Reports(view, p.call, source)
    ensures ResultsFor(preps, oracle, results + [view])
  {
    hide Reports, SourceOf;
  }

  class ExecutionState {
    const loopId: string
    var pendingToolCalls: seq<ToolCallRequest>
    var toolRoundsCompleted: nat
    var turnMessages: seq<ConversationMessage>
    var toolResults: seq<ToolCallResult>
    /** `latest_model_output.assistant_message`, empty if there is none. */
    var draft: string

    constructor (loopId: string, calls: seq<ToolCallRequest>, draft: string)
      ensures this.loopId == loopId && pendingToolCalls == calls && this.draft == draft
      ensures toolRoundsCompleted == 0 && turnMessages == [] && toolResults == []
    {
      this.loopId, pendingToolCalls, this.draft := loopId, calls, draft;
      toolRoundsCompleted, turnMessages, toolResults := 0, [], [];
    }
  }

  /** Tool results by operation key. */
  class NodeRepository {
    var results: ToolStore

    constructor ()
      ensures results == map[]
    {
      results := map[];
    }

    /** `persist_raw_node`: the first result committed under a key is the one that stays. */
    method Persist(key: string, result: ToolCallResult, persistence: Persistence) returns (ok: bool)
      modifies this
      ensures ok <==> persistence == Persisted
      ensures results == if persistence == FailedBefore || key in old(results) then old(results)
                         else old(results)[key := Decodable(result)]
    {
      if persistence != FailedBefore && key !in results {
        results := results[key := Decodable(result)];
      }
      ok := persistence == Persisted;
    }
  }

  lemma GrowsByOne(config: ToolConfig, preps: seq<PreparedToolCall>, oracle: Oracle, p: PreparedToolCall, before: ToolStore, mid: ToolStore,
                   result: ToolCallResult)
    requires StoreGrows(config, preps, oracle, before, mid) && p in preps && config.localMemory && StoredFor(config, p, oracle, Decodable(result))
    ensures StoreGrows(config, preps, oracle, before, if p.operationKey in mid then mid else mid[p.operationKey := Decodable(result)])
  {
    hide StoredFor;
    var after := if p.operationKey in mid then mid else mid[p.operationKey := Decodable(result)];
    forall key | key in after && key !in before
      ensures StoredByRound(config, preps, oracle, key, after[key])
    {
      if key in mid { assert StoredByRound(config, preps, oracle, key, mid[key]); }
    }
  }

  /** Persist the full result of an uncached call, in the memory-aware profile only. */
  method KeepResult(config: ToolConfig, attempt: Attempt, preps: seq<PreparedToolCall>, position: nat, full: ToolCallResult,
                    repository: NodeRepository, ghost before: ToolStore)
    returns (ok: bool)
    requires position < |preps| && StoreGrows(config, preps, attempt.outcome, before, repository.results)
    requires config.localMemory ==> AllStored(preps[..position], repository.results)
    requires preps[position].cached.Some? ==> preps[position].operationKey in repository.results
    requires preps[position].cached.None? ==> StoredFor(config, preps[position], attempt.outcome, Decodable(full))
    modifies repository
    ensures StoreGrows(config, preps, attempt.outcome, before, repository.results)
    ensures ok <==> (config.localMemory && preps[position].cached.None? ==> attempt.persistence(preps[position].index) == Persisted)
    ensures ok && config.localMemory ==> AllStored(preps[..position + 1], repository.results)
    ensures forall key | key in old(repository.results) :: key in repository.results
  {
    hide StoreGrows, StoredFor;
    var prep := preps[position];
    ok := true;
    assert preps[..position + 1] == preps[..position] + [prep];
    if prep.cached.None? && config.localMemory {
      GrowsByOne(config, preps, attempt.outcome, prep, before, repository.results, full);
      ok := repository.Persist(prep.operationKey, full, attempt.persistence(prep.index));
    }
  }

  ghost predicate CachedAreStored(preps: seq<PreparedToolCall>, stored: ToolStore) {
    forall p | p in preps && p.cached.Some? :: p.operationKey in stored
  }

  ghost predicate OutcomesOf(preps: seq<PreparedToolCall>, oracle: Oracle, completed: Results) {
    forall p | p in preps && p.cached.None? && p.index in completed ::
      !oracle(p.index).Panicked? && completed[p.index] == OutcomeResult(p, oracle(p.index))
  }

  /** The completed outcome of a call, if it has one. */
  function Joined(completed: Results, index: nat): Option<Result<ToolCallResult, EngineError>> {
    if index in completed then Some(completed[index]) else None
  }

  lemma JoinedIsOutcome(preps: seq<PreparedToolCall>, p: PreparedToolCall, oracle: Oracle, completed: Results)
    requires OutcomesOf(preps, oracle, completed) && p in preps && SourceResult(p, Joined(completed, p.index)).Ok?
    ensures SourceOf(p, oracle) == SourceResult(p, Joined(completed, p.index))
    ensures p.cached.Some? || !oracle(p.index).Panicked?
  {
  }

  /** Results in the original call order. Any failure leaves the round to be recovered: what was
      persisted stays, the checkpoint fields are not touched here. */
  method AssembleResults(config: ToolConfig, attempt: Attempt, preps: seq<PreparedToolCall>, completed: Results,
                         terminal: Option<EngineError>, extraTokens: nat, state: ExecutionState, repository: NodeRepository)
    returns (r: Result<seq<ToolCallResult>, EngineError>)
    requires OutcomesOf(preps, attempt.outcome, completed) && CachedAreStored(preps, repository.results)
    requires JoinedUnlessStopped(preps, attempt.outcome, completed, terminal)
    modifies state`toolResults, repository
    ensures StoreGrows(config, preps, attempt.outcome, old(repository.results), repository.results)
    ensures old(state.toolResults) <= state.toolResults
    ensures r.Ok? ==> |r.value| == |preps| && ResultsFor(preps, attempt.outcome, r.value)
    ensures r.Ok? ==> MessagesTokens(config.estimate, Messages(r.value)) <= MinimumResults(config.estimate, CallsOf(preps)) + extraTokens
    ensures r.Ok? ==> state.toolResults == old(state.toolResults) + r.value
    ensures r.Ok? && config.localMemory ==> AllStored(preps, repository.results)
    ensures r.Ok? && preps != [] ==> FairViews(config, preps, attempt.outcome, extraTokens / |preps|, r.value)
    ensures r.Ok? <==> forall p | p in preps :: !Obstructs(config, attempt, p)
    ensures r.Err? ==> exists p | p in preps :: Explains(config, attempt, p, r.error)
  {
    hide FairViews, ViewWithin, HasShares, Share, Obstructs, Explains, Unstorable, JoinedUnlessStopped;
    hide ResultsFor, WithinExtra, StoreGrows, Reports, MessagesTokens, MessageTokens, MinimumResults, OutcomesOf, AllStored,
         SourceResult, SourceOf, StoredFor, BoundedForStorage;
    var results: seq<ToolCallResult> := [];
    var extra: nat := extraTokens;
    NothingAssembled(config, preps, attempt.outcome, extra, repository.results);
    ghost var share := if preps == [] then 0 else extra / |preps|;
    NothingShared(config, preps, attempt.outcome, extra, share);
    for position := 0 to |preps|
      invariant FairViews(config, preps, attempt.outcome, share, results)
      invariant HasShares(share, extra, |preps| - position)
      invariant forall j | 0 <= j < position :: !Obstructs(config, attempt, preps[j])
      invariant |results| == position && ResultsFor(preps, attempt.outcome, results)
      invariant WithinExtra(config.estimate, preps, results, extra, extraTokens)
      invariant StoreGrows(config, preps, attempt.outcome, old(repository.results), repository.results)
      invariant config.localMemory ==> AllStored(preps[..position], repository.results)
      invariant CachedAreStored(preps, repository.results)
      invariant state.toolResults == old(state.toolResults) + results
    {
      var prep := preps[position];
      var source := SourceResult(prep, Joined(completed, prep.index));
      if source.Err? {
        r := Err(if prep.cached.None? && prep.index !in completed && terminal.Some? then terminal.value else source.error);
        UnreportedExplains(config, attempt, preps, prep, completed, terminal, r.error);
        SomeObstructs(config, attempt, preps, r.error);
        return r;
      }
      JoinedIsOutcome(preps, prep, attempt.outcome, completed);
      var bounded := BoundOneResult(config, prep.call, source.value, extra, |preps| - position);
      if bounded.Err? {
        UnstorableExplains(config, attempt, prep);
        SomeObstructs(config, attempt, preps, bounded.error);
        return Err(bounded.error);
      }
      ShareIsFloor(extra, |preps| - position);
      SharesOnlyGrow(share, extra, |preps| - position, Minus(config.estimate(bounded.value.view.content), config.estimate(EMPTY_OBJECT)));
      FairStep(config, preps, attempt.outcome, share, results, bounded.value.full, bounded.value.view,
               config.estimate(EMPTY_OBJECT) + Share(extra, |preps| - position));
      SpendOnResult(config.estimate, preps, results, extra, extraTokens, bounded.value.view, bounded.value.extra);
      extra := bounded.value.extra;
      OwnIsStored(config, prep, attempt.outcome, source.value, bounded.value.full);
      var kept := KeepResult(config, attempt, preps, position, bounded.value.full, repository, old(repository.results));
      if !kept {
        UnkeptExplains(config, attempt, prep);
        SomeObstructs(config, attempt, preps, StorageProblem);
        return Err(StorageProblem);
      }
      NotObstructed(config, attempt, prep);
      ResultsStep(preps, attempt.outcome, results, bounded.value.view, source.value);
      results := results + [bounded.value.view];
      state.toolResults := state.toolResults + [bounded.value.view];
    }
    assert preps[..|preps|] == preps;
    EverythingFits(config.estimate, preps, results, extra, extraTokens);
    r := Ok(results);
  }

  lemma NotObstructed(config: ToolConfig, attempt: Attempt, p: PreparedToolCall)
    requires SourceOf(p, attempt.outcome).Ok? && (p.cached.Some? || !attempt.outcome(p.index).Panicked?)
    requires !Unstorable(config, OwnResult(p.call, SourceOf(p, attempt.outcome).value))
    requires config.localMemory && p.cached.None? ==> attempt.persistence(p.index) == Persisted
    ensures !Obstructs(config, attempt, p)
  {
    hide Unstorable;
    SourceMeans(p, attempt.outcome);
    if p.cached.None? { OutcomeTold(p, attempt.outcome(p.index)); }
  }

  lemma UnkeptExplains(config: ToolConfig, attempt: Attempt, p: PreparedToolCall)
    requires config.localMemory && p.cached.None? && attempt.persistence(p.index) != Persisted
    ensures Explains(config, attempt, p, StorageProblem)
  {
    hide Source;
  }

  lemma SomeObstructs(config: ToolConfig, attempt: Attempt, preps: seq<PreparedToolCall>, error: EngineError)
    requires exists p | p in preps :: Explains(config, attempt, p, error)
    ensures exists p | p in preps :: Obstructs(config, attempt, p)
  {
    hide Explains, Obstructs;
    var p :| p in preps && Explains(config, attempt, p, error);
    ExplainsObstructs(config, attempt, p, error);
  }

  lemma NothingShared(config: ToolConfig, preps: seq<PreparedToolCall>, oracle: Oracle, extra: nat, share: nat)
    requires share == if preps == [] then 0 else extra / |preps|
    ensures FairViews(config, preps, oracle, share, []) && HasShares(share, extra, |preps|)
  {
    if preps != [] { EvenShares(extra, |preps|); }
  }

  lemma OwnIsStored(config: ToolConfig, p: PreparedToolCall, oracle: Oracle, result: ToolCallResult, full: ToolCallResult)
    requires SourceOf(p, oracle) == Ok(result) && BoundedForStorage(OwnResult(p.call, result), config.maxToolResultBytes, full)
    ensures p.cached.None? ==> StoredFor(config, p, oracle, Decodable(full))
  {
  }

  lemma NothingAssembled(config: ToolConfig, preps: seq<PreparedToolCall>, oracle: Oracle, extra: nat, stored: ToolStore)
    ensures ResultsFor(preps, oracle, []) && WithinExtra(config.estimate, preps, [], extra, extra)
    ensures StoreGrows(config, preps, oracle, stored, stored) && AllStored(preps[..0], stored)
  {
    assert Messages([]) == [];
  }

  lemma EverythingFits(estimate: Estimator, preps: seq<PreparedToolCall>, results: seq<ToolCallResult>, extra: nat, total: nat)
    requires |results| == |preps| && WithinExtra(estimate, preps, results, extra, total)
    ensures MessagesTokens(estimate, Messages(results)) <= MinimumResults(estimate, CallsOf(preps)) + total
  {
    assert preps[..|results|] == preps;
  }

  // ---------------------------------------------------------------- what a round tells the model

  /** What a round may report for a call whose task ended so: the stored payload of a call that has one; else
      the executor's own result, or a result that names an ordinary error. Nothing is reported for an outcome
      that stops the round. */
  ghost predicate Source(p: PreparedToolCall, outcome: TaskOutcome, source: ToolCallResult) {
    match p.cached
    case Some(Decodable(stored)) => source == stored
    case Some(Undecodable) => false
    case None =>
      match outcome
      case Completed(Ok(own)) => source == own
      case Completed(Err(error)) =>
        && !error.Cancelled? && !error.ToolOutcomeIndeterminate?
        && source == ToolCallResult(p.call.id, p.call.name, ERROR_CONTENT(error), ERROR_SUMMARY(p.call.name, error))
      case TimedOut =>
        && p.kind == ReadOnly
        && source == ToolCallResult(p.call.id, p.call.name, ERROR_CONTENT(ToolProblem), ERROR_SUMMARY(p.call.name, ToolProblem))
      case WasCancelled => false
      case Panicked => false
  }

  lemma SourceMeans(p: PreparedToolCall, oracle: Oracle)
    requires p.cached.Some? || !oracle(p.index).Panicked?
    ensures SourceOf(p, oracle).Ok? ==> Source(p, oracle(p.index), SourceOf(p, oracle).value)
    ensures SourceOf(p, oracle).Err? ==> p.cached == Some(Undecodable) || (p.cached.None? && StopsRound(p, oracle(p.index)))
    ensures forall source :: Source(p, oracle(p.index), source) ==> SourceOf(p, oracle) == Ok(source)
  {
  }

  /** `view` shows the model what the call's source tells, under the call's own id and name, bounded for
      storage and then within an allowance of at least `share` beyond an empty object. */
  ghost predicate FairView(config: ToolConfig, p: PreparedToolCall, outcome: TaskOutcome, share: int, view: ToolCallResult) {
    exists source, full, allowance: nat ::
      && Source(p, outcome, source)
      && BoundedForStorage(source.(toolCallId := p.call.id, name := p.call.name), config.maxToolResultBytes, full)
      && config.estimate(EMPTY_OBJECT) + share <= allowance
      && ViewWithin(config.estimate, full, view, allowance)
  }

  /** Every call has a fair view, whatever the others cost. */
  ghost predicate FairViews(config: ToolConfig, preps: seq<PreparedToolCall>, oracle: Oracle, share: int, results: seq<ToolCallResult>) {
    |results| <= |preps| && forall i | 0 <= i < |results| :: FairView(config, preps[i], oracle(preps[i].index), share, results[i])
  }

  lemma FairStep(config: ToolConfig, preps: seq<PreparedToolCall>, oracle: Oracle, share: int, results: seq<ToolCallResult>,
                 full: ToolCallResult, view: ToolCallResult, allowance: nat)
    requires |results| < |preps| && FairViews(config, preps, oracle, share, results)
    requires var p := preps[|results|];
             && SourceOf(p, oracle).Ok? && (p.cached.Some? || !oracle(p.index).Panicked?)
             && BoundedForStorage(OwnResult(p.call, SourceOf(p, oracle).value), config.maxToolResultBytes, full)
    requires config.estimate(EMPTY_OBJECT) + share <= allowance && ViewWithin(config.estimate, full, view, allowance)
    ensures FairViews(config, preps, oracle, share, results + [view])
  {
    hide BoundedForStorage, ViewWithin, Source, SourceOf;
    var p := preps[|results|];
    SourceMeans(p, oracle);
    assert FairView(config, p, oracle(p.index), share, view);
  }

  /** Why a prepared call may end the round: its stored payload cannot be read, its outcome stops the round,
      its result's envelope is too large to be stored, or storing it fails. */
  ghost predicate Obstructs(config: ToolConfig, attempt: Attempt, p: PreparedToolCall) {
    || p.cached == Some(Undecodable)
    || (p.cached.None? && StopsRound(p, attempt.outcome(p.index)))
    || (exists source :: Source(p, attempt.outcome(p.index), source) && Unstorable(config, source.(toolCallId := p.call.id, name := p.call.name)))
    || (p.cached.None? && config.localMemory && attempt.persistence(p.index) != Persisted)
  }

  /** The call explains the error: an outcome that stops the round is told by it, a side effect nobody knows the
      end of with its own key; a panic and an unreadable payload are ordinary tool errors. */
  ghost predicate Explains(config: ToolConfig, attempt: Attempt, p: PreparedToolCall, error: EngineError) {
    var outcome := attempt.outcome(p.index);
    || (p.cached == Some(Undecodable) && error == ToolProblem)
    || (p.cached.None? && StopsRound(p, outcome) && if outcome.Panicked? then error == ToolProblem else Tells(p, outcome, Err(error)))
    || (error == Configuration
        && exists source :: Source(p, outcome, source) && Unstorable(config, source.(toolCallId := p.call.id, name := p.call.name)))
    || (p.cached.None? && config.localMemory && attempt.persistence(p.index) != Persisted && error == StorageProblem)
  }

  lemma ExplainsObstructs(config: ToolConfig, attempt: Attempt, p: PreparedToolCall, error: EngineError)
    requires Explains(config, attempt, p, error)
    ensures Obstructs(config, attempt, p)
  {
    hide Source, StopsRound, Tells, Unstorable;
  }

  ghost predicate Unstorable(config: ToolConfig, result: ToolCallResult) {
    && ENCODED_LENGTH(result) > config.maxToolResultBytes
    && ENCODED_LENGTH(Envelope(result, config.maxToolResultBytes)) > config.maxToolResultBytes
  }

  /** Every uncached call was joined, unless one of them stopped the round with the terminal error. */
  ghost predicate JoinedUnlessStopped(preps: seq<PreparedToolCall>, oracle: Oracle, completed: Results, terminal: Option<EngineError>) {
    || (forall p | p in preps && p.cached.None? :: p.index in completed)
    || (terminal.Some? && exists p | p in preps && p.cached.None? :: Stopped(p, oracle(p.index), terminal.value))
  }

  ghost predicate Stopped(p: PreparedToolCall, outcome: TaskOutcome, error: EngineError) {
    StopsRound(p, outcome) && !outcome.Panicked? && Tells(p, outcome, Err(error))
  }

  lemma UnreportedExplains(config: ToolConfig, attempt: Attempt, preps: seq<PreparedToolCall>, p: PreparedToolCall, completed: Results,
                           terminal: Option<EngineError>, error: EngineError)
    requires OutcomesOf(preps, attempt.outcome, completed) && JoinedUnlessStopped(preps, attempt.outcome, completed, terminal)
    requires p in preps && SourceResult(p, Joined(completed, p.index)).Err?
    requires error == if p.cached.None? && p.index !in completed && terminal.Some? then terminal.value
                      else SourceResult(p, Joined(completed, p.index)).error
    ensures exists q | q in preps :: Explains(config, attempt, q, error)
  {
    hide Source, OutcomeResult, Tells, Unstorable;
    if p.cached.None? && p.index !in completed {
      var q :| q in preps && q.cached.None? && Stopped(q, attempt.outcome(q.index), terminal.value);
      assert Explains(config, attempt, q, error);
    } else {
      if p.cached.None? { OutcomeTold(p, attempt.outcome(p.index)); }
      assert Explains(config, attempt, p, error);
    }
  }

  lemma UnstorableExplains(config: ToolConfig, attempt: Attempt, p: PreparedToolCall)
    requires SourceOf(p, attempt.outcome).Ok? && (p.cached.Some? || !attempt.outcome(p.index).Panicked?)
    requires Unstorable(config, OwnResult(p.call, SourceOf(p, attempt.outcome).value))
    ensures Explains(config, attempt, p, Configuration)
  {
    hide Unstorable, SourceOf, Source, StopsRound, Tells;
    SourceMeans(p, attempt.outcome);
  }

  // ---------------------------------------------------------------- the turn's transcript

  /** One round of the transcript: the assistant's calls with usable, different ids, then exactly one
      result per call, in call order. */
  ghost predicate InOrder(g: Group) {
    && g != [] && g[0].role == AssistantRole && |g| == 1 + |g[0].toolCalls|
    && (forall i | 0 <= i < |g[0].toolCalls| ::
          && g[0].toolCalls[i].id.Some? && !Blank(g[0].toolCalls[i].id.value)
          && g[i + 1].role == ToolRole && g[i + 1].toolCallId == g[0].toolCalls[i].id && g[i + 1].toolCalls == [])
    && (forall i, j | 0 <= i < j < |g[0].toolCalls| :: g[0].toolCalls[i].id != g[0].toolCalls[j].id)
  }

  function TakenIds(h: seq<ConversationMessage>): set<string> {
    set m, call | m in h && call in m.toolCalls && call.id.Some? :: call.id.value
  }

  ghost predicate AllInOrder(rounds: seq<Group>) {
    forall i | 0 <= i < |rounds| :: InOrder(rounds[i])
  }

  /** No call id is used in two rounds. */
  ghost predicate RoundsApart(rounds: seq<Group>) {
    forall i, j | 0 <= i < j < |rounds| :: TakenIds(rounds[i]) !! TakenIds(rounds[j])
  }

  ghost predicate TurnOf(rounds: seq<Group>, h: seq<ConversationMessage>) {
    AllInOrder(rounds) && RoundsApart(rounds) && Flatten(rounds) == h
  }

  /** The transcript the engine itself builds: rounds in order, every call id unique. */
  ghost predicate EngineTranscript(h: seq<ConversationMessage>) {
    exists rounds :: TurnOf(rounds, h)
  }

  lemma TakenConcat(a: seq<ConversationMessage>, b: seq<ConversationMessage>)
    ensures TakenIds(a + b) == TakenIds(a) + TakenIds(b)
  {
  }

  lemma {:induction false} TakenInRound(rounds: seq<Group>, i: nat)
    requires i < |rounds|
    ensures TakenIds(rounds[i]) <= TakenIds(Flatten(rounds))
    decreases |rounds|
  {
    TakenConcat(rounds[0], Flatten(rounds[1..]));
    if i > 0 {
      TakenInRound(rounds[1..], i - 1);
    }
  }

  lemma InOrderIds(g: Group)
    requires InOrder(g)
    ensures ExpectedIds(g[0].toolCalls) == (set i | 0 <= i < |g[0].toolCalls| :: g[0].toolCalls[i].id.value)
    ensures |ExpectedIds(g[0].toolCalls)| == |g[0].toolCalls|
  {
    var calls := g[0].toolCalls;
    assert forall i | 0 <= i < |calls| :: calls[i] in calls;
    DistinctCount(calls);
  }

  lemma {:induction false} DistinctCount(calls: seq<ToolCallRequest>)
    requires forall i | 0 <= i < |calls| :: calls[i].id.Some? && !Blank(calls[i].id.value)
    requires forall i, j | 0 <= i < j < |calls| :: calls[i].id != calls[j].id
    ensures |ExpectedIds(calls)| == |calls|
    decreases |calls|
  {
    if calls != [] {
      var front, last := calls[..|calls| - 1], calls[|calls| - 1];
      DistinctCount(front);
      assert calls == front + [last];
      assert last in calls && forall c | c in front :: c in calls;
      assert ExpectedIds(calls) == ExpectedIds(front) + {last.id.value};
      assert last.id.value !in ExpectedIds(front);
    }
  }

  /** A round is a coherent exchange, or a plain message if it has no calls. */
  lemma InOrderIsCoherent(g: Group)
    requires InOrder(g)
    ensures CoherentGroup(g)
  {
    if g[0].toolCalls != [] {
      InOrderIds(g);
      var ids := ExpectedIds(g[0].toolCalls);
      forall i | 1 <= i < |g|
        ensures g[i].toolCallId.Some? && g[i].toolCallId.value in ids && g[i].role == ToolRole
      {
        assert g[(i - 1) + 1].toolCallId == g[0].toolCalls[i - 1].id;
      }
      forall i, j | 1 <= i < j < |g|
        ensures g[i].toolCallId != g[j].toolCallId
      {
        assert g[(i - 1) + 1].toolCallId == g[0].toolCalls[i - 1].id && g[(j - 1) + 1].toolCallId == g[0].toolCalls[j - 1].id;
      }
      forall id | id in ids
        ensures exists i :: 1 <= i < |g| && g[i].toolCallId == Some(id)
      {
        var i :| 0 <= i < |g[0].toolCalls| && g[0].toolCalls[i].id.value == id;
        assert g[i + 1].toolCallId == Some(id);
      }
    }
  }

  /** Grouping the engine's own transcript and flattening it again is the identity: later trimming
      loses nothing of a turn but whole rounds. */
  lemma {:induction false} EngineTranscriptRegroups(h: seq<ConversationMessage>)
    requires EngineTranscript(h)
    ensures Flatten(Groups(h)) == h && AllCoherent(Groups(h))
  {
    var rounds :| TurnOf(rounds, h);
    forall i | 0 <= i < |rounds|
      ensures CoherentGroup(rounds[i])
    {
      InOrderIsCoherent(rounds[i]);
    }
    GroupsOfFlatten(rounds);
  }

  /** In the engine's transcript every call is answered by its own result at its own position, and no
      other round uses its id. */
  lemma EngineTranscriptExtends(h: seq<ConversationMessage>, g: Group)
    requires EngineTranscript(h) && InOrder(g) && TakenIds(h) !! TakenIds(g)
    ensures EngineTranscript(h + g)
  {
    hide InOrder, TakenIds, Flatten;
    var rounds :| TurnOf(rounds, h);
    var more := rounds + [g];
    FlattenConcat(rounds, [g]);
    FlattenOne(g);
    forall i, j | 0 <= i < j < |more|
      ensures TakenIds(more[i]) !! TakenIds(more[j])
    {
      TakenInRound(rounds, i);
    }
    assert TurnOf(more, h + g);
  }

  lemma FlattenOne(g: Group)
    ensures Flatten([g]) == g
  {
    assert g + [] == g;
  }

  /** The messages a completed round adds. */
  function RoundMessages(turn: ConversationMessage, results: seq<ToolCallResult>): Group {
    [turn] + Messages(results)
  }

  /** Calls and results carry the ids of the prepared calls. */
  ghost predicate SameIds(preps: seq<PreparedToolCall>, calls: seq<ToolCallRequest>, results: seq<ToolCallResult>) {
    && |calls| == |preps| == |results|
    && forall i | 0 <= i < |preps| :: calls[i].id == preps[i].call.id && results[i].toolCallId == preps[i].call.id
  }

  lemma RoundIds(preps: seq<PreparedToolCall>, oracle: Oracle, calls: seq<ToolCallRequest>, results: seq<ToolCallResult>)
    requires |results| == |preps| && ResultsFor(preps, oracle, results) && BoundedCalls(CallsOf(preps), calls)
    ensures SameIds(preps, calls, results)
  {
    hide SourceOf, Shown;
    forall i | 0 <= i < |preps|
      ensures calls[i].id == preps[i].call.id && results[i].toolCallId == preps[i].call.id
    {
      var source := SourceOf(preps[i], oracle);
      assert Reports(results[i], preps[i].call, source.value);
    }
  }

  lemma RoundInOrder(preps: seq<PreparedToolCall>, taken: set<string>, turn: ConversationMessage, results: seq<ToolCallResult>)
    requires UsableIds(preps, taken) && turn == AssistantTurn(turn.content, turn.toolCalls) && SameIds(preps, turn.toolCalls, results)
    ensures InOrder(RoundMessages(turn, results))
  {
    var g := RoundMessages(turn, results);
    forall i | 0 <= i < |turn.toolCalls|
      ensures turn.toolCalls[i].id.Some? && !Blank(turn.toolCalls[i].id.value)
      ensures g[i + 1].role == ToolRole && g[i + 1].toolCallId == turn.toolCalls[i].id && g[i + 1].toolCalls == []
    {
      assert g[i + 1] == ResultMessage(results[i].content, results[i].toolCallId);
      assert turn.toolCalls[i].id == preps[i].call.id;
    }
    forall i, j | 0 <= i < j < |turn.toolCalls|
      ensures turn.toolCalls[i].id != turn.toolCalls[j].id
    {
      assert preps[i].call.id != preps[j].call.id;
    }
  }

  lemma RoundApart(preps: seq<PreparedToolCall>, taken: set<string>, turn: ConversationMessage, results: seq<ToolCallResult>)
    requires UsableIds(preps, taken) && SameIds(preps, turn.toolCalls, results)
    ensures TakenIds(RoundMessages(turn, results)) !! taken
  {
    TakenConcat([turn], Messages(results));
    assert forall m | m in Messages(results) :: m.toolCalls == [];
    forall id | id in TakenIds([turn])
      ensures id !in taken
    {
      var call :| call in turn.toolCalls && call.id == Some(id);
      var i :| 0 <= i < |turn.toolCalls| && turn.toolCalls[i] == call;
      assert preps[i].call.id == Some(id);
    }
  }

  // ---------------------------------------------------------------- one run of the node

  lemma {:induction false} UncachedAre(preps: seq<PreparedToolCall>)
    ensures forall p :: p in Uncached(preps) <==> p in preps && p.cached.None?
    decreases |preps|
  {
    if preps != [] {
      UncachedAre(preps[1..]);
      assert preps == [preps[0]] + preps[1..];
    }
  }

  lemma {:induction false} UncachedDistinct(preps: seq<PreparedToolCall>)
    requires DistinctIndices(preps)
    ensures DistinctIndices(Uncached(preps))
    decreases |preps|
  {
    if preps != [] {
      var head, rest := preps[0], preps[1..];
      assert DistinctIndices(rest);
      UncachedDistinct(rest);
      UncachedAre(rest);
      var u := Uncached(rest);
      forall j | 0 <= j < |u|
        ensures u[j].index != head.index
      {
        assert u[j] in u;
        var k :| 0 <= k < |rest| && rest[k] == u[j];
        assert preps[k + 1] == rest[k];
      }
    }
  }

  lemma {:induction false} PreparedDistinct(config: ToolConfig, loop: string, round: nat, calls: seq<ToolCallRequest>, stored: ToolStore,
                         preps: seq<PreparedToolCall>)
    requires AllPrepared(config, loop, round, calls, stored, preps)
    ensures DistinctIndices(preps) && DistinctIndices(Concat(PhasesFrom(preps, []))) && CachedAreStored(preps, stored)
  {
    hide EffectiveCall;
    assert forall i | 0 <= i < |preps| :: preps[i].index == i;
    UncachedDistinct(preps);
    PhasesKeepOrder(preps, []);
    assert [] + Uncached(preps) == Uncached(preps);
    forall p | p in preps && p.cached.Some?
      ensures p.operationKey in stored
    {
      var i :| 0 <= i < |preps| && preps[i] == p;
      assert PreparedAt(config, loop, round, calls, stored, i, p);
    }
  }

  /** What was joined are outcomes of the uncached calls. */
  lemma {:induction false} RecordedOutcomes(preps: seq<PreparedToolCall>, phases: seq<Phase>, ran: nat, oracle: Oracle, completed: Results)
    requires DistinctIndices(preps) && phases == PhasesFrom(preps, []) && ran <= |phases|
    requires Recorded(Concat(phases[..ran]), oracle, completed)
    ensures OutcomesOf(preps, oracle, completed)
    ensures forall i | i in completed :: exists p :: p in preps && p.cached.None? && p.index == i && completed[i] == OutcomeResult(p, oracle(i))
  {
    hide OutcomeResult;
    RanAreUncached(preps, phases, ran);
    forall i | i in completed
      ensures exists p :: p in preps && p.cached.None? && p.index == i && completed[i] == OutcomeResult(p, oracle(i))
    {
      var p :| p in Concat(phases[..ran]) && p.index == i;
      assert p in preps && p.cached.None?;
    }
    forall p | p in preps && p.cached.None? && p.index in completed
      ensures completed[p.index] == OutcomeResult(p, oracle(p.index))
    {
      var q :| q in preps && q.cached.None? && q.index == p.index && completed[p.index] == OutcomeResult(q, oracle(p.index));
      SameIndex(preps, p);
    }
  }

  lemma {:induction false} RanAreUncached(preps: seq<PreparedToolCall>, phases: seq<Phase>, ran: nat)
    requires phases == PhasesFrom(preps, []) && ran <= |phases|
    ensures forall p | p in Concat(phases[..ran]) :: p in preps && p.cached.None?
  {
    hide Uncached, PhasesFrom;
    PhasesKeepOrder(preps, []);
    assert [] + Uncached(preps) == Uncached(preps);
    assert phases == phases[..ran] + phases[ran..];
    ConcatSplits(phases[..ran], phases[ran..]);
    UncachedAre(preps);
    assert forall p | p in Concat(phases[..ran]) :: p in Concat(phases);
  }

  /** A round that reports every call had no outcome that ends a round. */
  lemma ReportedMeansNoTerminal(preps: seq<PreparedToolCall>, oracle: Oracle, results: seq<ToolCallResult>, completed: Results,
                                 terminal: Option<EngineError>)
    requires |results| == |preps| && ResultsFor(preps, oracle, results)
    requires forall i | i in completed :: exists p :: p in preps && p.cached.None? && p.index == i && completed[i] == OutcomeResult(p, oracle(i))
    requires terminal.Some? ==> exists i :: i in completed && EndsRound(completed[i]) && completed[i].error == terminal.value
    ensures terminal.None?
  {
    EachReported(preps, oracle, results);
  }

  lemma EachReported(preps: seq<PreparedToolCall>, oracle: Oracle, results: seq<ToolCallResult>)
    requires |results| == |preps| && ResultsFor(preps, oracle, results)
    ensures forall p | p in preps && p.cached.None? :: !EndsRound(OutcomeResult(p, oracle(p.index)))
  {
    hide Reports, OutcomeResult;
    forall p | p in preps && p.cached.None?
      ensures !EndsRound(OutcomeResult(p, oracle(p.index)))
    {
      var k :| 0 <= k < |preps| && preps[k] == p;
      assert SourceOf(p, oracle).Ok?;
    }
  }

  /** The first `ran` phases were dispatched, in order; only the last of them may have ended the round. */
  ghost predicate DispatchedPrefix(before: seq<seq<string>>, after: seq<seq<string>>, preps: seq<PreparedToolCall>, ran: nat, oracle: Oracle) {
    var phases := PhasesFrom(preps, []);
    && ran <= |phases| && after == before + PhaseKeys(phases[..ran])
    && forall i | 0 <= i < ran - 1 :: RanThrough(phases[i], oracle)
  }

  /** Dispatching goes on to the last phase or to the first that stops the round. */
  ghost predicate DispatchedThrough(preps: seq<PreparedToolCall>, ran: nat, oracle: Oracle) {
    var phases := PhasesFrom(preps, []);
    ran == |phases| || (0 < ran <= |phases| && !RanThrough(phases[ran - 1], oracle))
  }

  lemma {:induction false} PanicStops(preps: seq<PreparedToolCall>, phases: seq<Phase>, ran: nat, oracle: Oracle)
    requires phases == PhasesFrom(preps, []) && 0 < ran <= |phases| && exists p :: p in phases[ran - 1] && oracle(p.index).Panicked?
    ensures DispatchedThrough(preps, ran, oracle)
  {
  }

  /** The whole turn fits: what was there, the assistant's calls, and every result. */
  lemma {:induction false} TurnFits(estimate: Estimator, h: seq<ConversationMessage>, turn: ConversationMessage,
                                    messages: seq<ConversationMessage>, limit: nat)
    requires MessagesTokens(estimate, h) + MessageTokens(estimate, turn) + MessagesTokens(estimate, messages) <= limit
    ensures MessagesTokens(estimate, h + ([turn] + messages)) <= limit
  {
    hide MessageTokens, MessagesTokens;
    MessagesTokensConcat(estimate, h, [turn] + messages);
    MessagesTokensConcat(estimate, [turn], messages);
    OneMessage(estimate, turn);
  }

  /** The bare envelopes of all the calls and results of the round have room, and every call has its own
      usable id. */
  ghost predicate EnvelopesFit(config: ToolConfig, preps: seq<PreparedToolCall>, calls: seq<ToolCallRequest>, h: seq<ConversationMessage>) {
    && |preps| == |calls| && UsableIds(preps, TakenIds(h))
    && MessagesTokens(config.estimate, h) + MinimumCallTokens(config.estimate, CallsOf(preps))
       + MinimumResults(config.estimate, CallsOf(preps)) <= config.reserveTools
  }

  function AtLeastOne(n: nat): nat {
    if n < 1 then 1 else n
  }

  /** Why a round fails: too many calls, one that cannot be prepared, envelopes for which there is no room, or a
      prepared call that ends it. */
  ghost predicate Hindered(config: ToolConfig, attempt: Attempt, loop: string, round: nat, calls: seq<ToolCallRequest>,
                           h: seq<ConversationMessage>, preps: seq<PreparedToolCall>)
  {
    || |calls| > AtLeastOne(config.maxToolCallsPerRound)
    || (exists i | 0 <= i < |calls| :: Unpreparable(config, attempt, loop, round, calls, TakenIds(h), i))
    || (|preps| == |calls| && (!EnvelopesFit(config, preps, calls, h) || exists p | p in preps :: Obstructs(config, attempt, p)))
  }

  lemma {:induction false} PhaseExplains(config: ToolConfig, attempt: Attempt, preps: seq<PreparedToolCall>, phases: seq<Phase>, phase: Phase)
    requires phases == PhasesFrom(preps, []) && phase in phases && exists p :: p in phase && attempt.outcome(p.index).Panicked?
    ensures exists p | p in preps :: Explains(config, attempt, p, ToolProblem)
  {
    hide Source, PhasesFrom, Tells;
    var p :| p in phase && attempt.outcome(p.index).Panicked?;
    var i :| 0 <= i < |phases| && phases[i] == phase;
    var k :| 0 <= k < |phase| && phase[k] == p;
    InPhases(preps, phases, i, k);
    assert Explains(config, attempt, p, ToolProblem);
  }

  /** The terminal error is told by a call of the round. */
  lemma TerminalStops(preps: seq<PreparedToolCall>, oracle: Oracle, completed: Results, terminal: EngineError)
    requires OutcomesOf(preps, oracle, completed)
    requires exists i :: i in completed && EndsRound(completed[i]) && completed[i].error == terminal
    requires forall i | i in completed :: exists p :: p in preps && p.cached.None? && p.index == i && completed[i] == OutcomeResult(p, oracle(i))
    ensures JoinedUnlessStopped(preps, oracle, completed, Some(terminal))
  {
    hide OutcomeResult, StopsRound, Tells;
    var i :| i in completed && EndsRound(completed[i]) && completed[i].error == terminal;
    var p :| p in preps && p.cached.None? && p.index == i && completed[i] == OutcomeResult(p, oracle(i));
    OutcomeTold(p, oracle(p.index));
    assert Stopped(p, oracle(p.index), terminal);
  }

  lemma {:induction false} AllJoined(preps: seq<PreparedToolCall>, phases: seq<Phase>, oracle: Oracle, completed: Results)
    requires phases == PhasesFrom(preps, []) && Recorded(Concat(phases[..|phases|]), oracle, completed)
    ensures JoinedUnlessStopped(preps, oracle, completed, None)
  {
    hide Stopped, PhasesFrom, Uncached;
    assert phases[..|phases|] == phases;
    PhasesKeepOrder(preps, []);
    assert [] + Uncached(preps) == Uncached(preps);
    UncachedAre(preps);
  }

  /** What an attempt did up to the assembly of its results. */
  datatype Executed = Executed(prepared: seq<PreparedToolCall>, plan: Plan, completed: Results, terminal: Option<EngineError>)

  /** Prepare and reserve: a plan for the whole round, or nothing is dispatched. */
  method PrepareRound(config: ToolConfig, attempt: Attempt, state: ExecutionState, stored: ToolStore)
    returns (r: Result<Plan, EngineError>, preps: seq<PreparedToolCall>)
    ensures AllPrepared(config, state.loopId, state.toolRoundsCompleted + 1, state.pendingToolCalls, stored, preps)
    ensures Hindered(config, attempt, state.loopId, state.toolRoundsCompleted + 1, state.pendingToolCalls, state.turnMessages, preps)
            <==> r.Err? || exists p | p in preps :: Obstructs(config, attempt, p)
    ensures r.Ok? ==>
              && |preps| == |state.pendingToolCalls| && UsableIds(preps, TakenIds(state.turnMessages))
              && EnvelopesFit(config, preps, state.pendingToolCalls, state.turnMessages)
              && Planned(config, state.turnMessages, CallsOf(preps), state.draft, r.value)
    ensures r.Err? ==> !EnvelopesFit(config, preps, state.pendingToolCalls, state.turnMessages)
  {
    hide Planned, Unpreparable, Obstructs, TakenIds, PreparedAt, MessageTokens, MessagesTokens, MinimumResults, UsableIds;
    preps := [];
    if |state.pendingToolCalls| > AtLeastOne(config.maxToolCallsPerRound) {
      return Err(ToolProblem), preps;
    }
    var prepared := PrepareCalls(config, attempt, state.loopId, state.toolRoundsCompleted + 1, state.pendingToolCalls,
                                 TakenIds(state.turnMessages), stored);
    if prepared.Err? {
      return Err(prepared.error), preps;
    }
    preps := prepared.value;
    r := PlanTranscript(config, state.turnMessages, CallsOf(preps), state.draft);
  }

  /** Prepare, reserve, schedule, dispatch. Nothing is dispatched unless the whole round's envelopes fit. */
  method PrepareAndExecute(config: ToolConfig, attempt: Attempt, state: ExecutionState, repository: NodeRepository, executor: ToolExecutor)
    returns (r: Result<Executed, EngineError>, ghost preps: seq<PreparedToolCall>, ghost ran: nat)
    modifies executor
    ensures AllPrepared(config, state.loopId, state.toolRoundsCompleted + 1, state.pendingToolCalls, repository.results, preps)
    ensures DispatchedPrefix(old(executor.dispatched), executor.dispatched, preps, ran, attempt.outcome)
    ensures ran > 0 ==> EnvelopesFit(config, preps, state.pendingToolCalls, state.turnMessages)
    ensures EnvelopesFit(config, preps, state.pendingToolCalls, state.turnMessages) ==> DispatchedThrough(preps, ran, attempt.outcome)
    ensures r.Ok? ==>
              var e := r.value;
              && e.prepared == preps && |preps| == |state.pendingToolCalls| && UsableIds(preps, TakenIds(state.turnMessages))
              && Planned(config, state.turnMessages, CallsOf(preps), state.draft, e.plan)
              && OutcomesOf(preps, attempt.outcome, e.completed) && CachedAreStored(preps, repository.results)
              && (forall i | i in e.completed ::
                    exists p :: p in preps && p.cached.None? && p.index == i && e.completed[i] == OutcomeResult(p, attempt.outcome(i)))
              && JoinedUnlessStopped(preps, attempt.outcome, e.completed, e.terminal)
              && (e.terminal.None? ==> ran == |PhasesFrom(preps, [])|)
              && (e.terminal.Some? ==> exists i :: i in e.completed && EndsRound(e.completed[i]) && e.completed[i].error == e.terminal.value)
    ensures Hindered(config, attempt, state.loopId, state.toolRoundsCompleted + 1, state.pendingToolCalls, state.turnMessages, preps)
            <==> r.Err? || exists p | p in preps :: Obstructs(config, attempt, p)
    ensures r.Err? && EnvelopesFit(config, preps, state.pendingToolCalls, state.turnMessages) ==>
              exists p | p in preps :: Explains(config, attempt, p, r.error)
    ensures state.draft == old(state.draft)
  {
    hide Explains, Stopped, Planned, Hindered, EnvelopesFit, AllPrepared, Obstructs, JoinedUnlessStopped, TakenIds, StopsRound, EndsRound, CachedAreStored,
         DistinctIndices, TellsAll, EffectiveCall, PhasesFrom, Concat, RanThrough, Recorded, OutcomeResult, BoundedCalls, UsableIds, OutcomesOf;
    ran := 0;
    var plan, prepared := PrepareRound(config, attempt, state, repository.results);
    preps := prepared;
    assert executor.dispatched + PhaseKeys(PhasesFrom(preps, [])[..0]) == executor.dispatched;
    if plan.Err? {
      return Err(plan.error), preps, ran;
    }
    PreparedDistinct(config, state.loopId, state.toolRoundsCompleted + 1, state.pendingToolCalls, repository.results, preps);
    var phases := BuildPhases(prepared);
    var executed, terminal;
    executed, terminal, ran := executor.ExecutePhases(phases, attempt.outcome);
    if executed.Err? {
      PhaseExplains(config, attempt, preps, phases, phases[ran - 1]);
      SomeObstructs(config, attempt, preps, ToolProblem);
      PanicStops(preps, phases, ran, attempt.outcome);
      return Err(executed.error), preps, ran;
    }
    RecordedOutcomes(preps, phases, ran, attempt.outcome, executed.value);
    if terminal.None? {
      AllJoined(preps, phases, attempt.outcome, executed.value);
    } else {
      TerminalStops(preps, attempt.outcome, executed.value, terminal.value);
    }
    r := Ok(Executed(prepared, plan.value, executed.value, terminal));
  }

  /** `after` is `before`, an assistant message with the bounded calls and a prefix of the draft, and the
      results; the message keeps what its third allows, and each result has a fair view with an even share of
      the tokens that are left of the reserve. */
  ghost predicate RoundAdded(config: ToolConfig, preps: seq<PreparedToolCall>, oracle: Oracle, draft: string,
                             before: seq<ConversationMessage>, after: seq<ConversationMessage>, results: seq<ToolCallResult>)
  {
    exists plan :: Planned(config, before, CallsOf(preps), draft, plan) && AddedBy(config, preps, oracle, before, after, results, plan)
  }

  ghost predicate AddedBy(config: ToolConfig, preps: seq<PreparedToolCall>, oracle: Oracle, before: seq<ConversationMessage>,
                          after: seq<ConversationMessage>, results: seq<ToolCallResult>, plan: Plan)
  {
    && after == before + [plan.assistantTurn] + Messages(results)
    && (preps != [] ==> FairViews(config, preps, oracle, plan.extra / |preps|, results))
  }

  /** `ExecuteToolsNode::run`. Either the round completes: one assistant message and one result per call
      in call order are appended, within `reserve_tools`, and the calls are cleared; or the run fails and
      the checkpoint fields and the transcript are exactly what they were. */
  method RunExecuteTools(config: ToolConfig, attempt: Attempt, state: ExecutionState, repository: NodeRepository, executor: ToolExecutor)
    returns (r: Result<seq<ToolCallResult>, EngineError>, ghost preps: seq<PreparedToolCall>, ghost ran: nat)
    requires EngineTranscript(state.turnMessages)
    modifies state, repository, executor
    ensures state.draft == old(state.draft)
    ensures r.Err? ==>
              && state.pendingToolCalls == old(state.pendingToolCalls)
              && state.toolRoundsCompleted == old(state.toolRoundsCompleted)
              && state.turnMessages == old(state.turnMessages)
    ensures r.Ok? ==>
              && state.pendingToolCalls == [] && state.toolRoundsCompleted == old(state.toolRoundsCompleted) + 1
              && |preps| == |old(state.pendingToolCalls)| == |r.value| && ResultsFor(preps, attempt.outcome, r.value)
              && state.toolResults == old(state.toolResults) + r.value
    ensures r.Ok? ==> RoundAdded(config, preps, attempt.outcome, state.draft, old(state.turnMessages), state.turnMessages, r.value)
    ensures r.Ok? <==> !Hindered(config, attempt, state.loopId, old(state.toolRoundsCompleted) + 1, old(state.pendingToolCalls),
                                 old(state.turnMessages), preps)
    ensures r.Ok? ==> MessagesTokens(config.estimate, state.turnMessages) <= config.reserveTools
    ensures EngineTranscript(state.turnMessages)
    ensures AllPrepared(config, state.loopId, old(state.toolRoundsCompleted) + 1, old(state.pendingToolCalls), old(repository.results), preps)
    ensures DispatchedPrefix(old(executor.dispatched), executor.dispatched, preps, ran, attempt.outcome)
    ensures r.Err? && EnvelopesFit(config, preps, old(state.pendingToolCalls), old(state.turnMessages)) ==>
              exists p | p in preps :: Explains(config, attempt, p, r.error)
    ensures forall i, p | 0 <= i < ran && p in PhasesFrom(preps, [])[i] && p.kind == SideEffecting
                          && (attempt.outcome(p.index).TimedOut? || attempt.outcome(p.index).WasCancelled?) ::
              r.Err? && i == ran - 1
    ensures ran > 0 ==> EnvelopesFit(config, preps, old(state.pendingToolCalls), old(state.turnMessages))
    ensures EnvelopesFit(config, preps, old(state.pendingToolCalls), old(state.turnMessages)) ==> DispatchedThrough(preps, ran, attempt.outcome)
    ensures old(state.toolResults) <= state.toolResults
    ensures r.Ok? ==> ran == |PhasesFrom(preps, [])|
    ensures StoreGrows(config, preps, attempt.outcome, old(repository.results), repository.results)
    ensures r.Ok? && config.localMemory ==> AllStored(preps, repository.results)
  {
    hide AllPrepared, DispatchedPrefix, EngineTranscript, MessageTokens, MessagesTokens, MinimumResults, BoundedCalls, UsableIds, ResultsFor,
         StoreGrows, OutcomesOf, AllStored, PhasesFrom, InOrder, TakenIds, OutcomeResult, EnvelopesFit, Hindered, Obstructs, FairViews,
         DraftKept, JoinedUnlessStopped, Explains, DispatchedThrough;
    var round := state.toolRoundsCompleted + 1;
    var executed;
    executed, preps, ran := PrepareAndExecute(config, attempt, state, repository, executor);
    NothingGrows(config, preps, attempt.outcome, repository.results);
    StoppedEffects(config, attempt, preps, ran, old(executor.dispatched), executor.dispatched);
    if executed.Err? {
      return Err(executed.error), preps, ran;
    }
    var e := executed.value;
    var turn := e.plan.assistantTurn;
    var results := AssembleResults(config, attempt, e.prepared, e.completed, e.terminal, e.plan.extra, state, repository);
    if results.Err? {
      return Err(results.error), preps, ran;
    }
    ReportedMeansNoTerminal(preps, attempt.outcome, results.value, e.completed, e.terminal);
    TurnFits(config.estimate, state.turnMessages, turn, Messages(results.value), config.reserveTools);
    RoundExtends(state.turnMessages, preps, attempt.outcome, turn, results.value);
    assert state.turnMessages + [turn] + Messages(results.value) == state.turnMessages + ([turn] + Messages(results.value));
    state.turnMessages := state.turnMessages + [turn];
    state.turnMessages := state.turnMessages + Messages(results.value);
    var transcriptTokens := SumMessages(config.estimate, state.turnMessages);
    if transcriptTokens > config.reserveTools {
      // Room for everything was reserved before any tool ran, so this exit is never taken.
      assert false;
    }
    state.toolRoundsCompleted := round;
    state.pendingToolCalls := [];
    assert AddedBy(config, preps, attempt.outcome, old(state.turnMessages), state.turnMessages, results.value, e.plan);
    r := Ok(results.value);
  }

  /** An effect nobody knows the end of fails the round, in the last phase that was dispatched. */
  lemma {:induction false} StoppedEffects(config: ToolConfig, attempt: Attempt, preps: seq<PreparedToolCall>, ran: nat,
                                          before: seq<seq<string>>, after: seq<seq<string>>)
    requires DispatchedPrefix(before, after, preps, ran, attempt.outcome)
    ensures ran <= |PhasesFrom(preps, [])|
    ensures forall i, p | 0 <= i < ran && p in PhasesFrom(preps, [])[i] && StopsRound(p, attempt.outcome(p.index)) ::
              i == ran - 1 && p in preps && Obstructs(config, attempt, p)
  {
    hide StopsRound, PhasesFrom, Source, PhaseKeys;
    var phases := PhasesFrom(preps, []);
    forall i, p: PreparedToolCall | 0 <= i < ran && p in phases[i] && StopsRound(p, attempt.outcome(p.index))
      ensures i == ran - 1 && p in preps && Obstructs(config, attempt, p)
    {
      var k :| 0 <= k < |phases[i]| && phases[i][k] == p;
      InPhases(preps, phases, i, k);
    }
  }

  lemma NothingGrows(config: ToolConfig, preps: seq<PreparedToolCall>, oracle: Oracle, stored: ToolStore)
    ensures StoreGrows(config, preps, oracle, stored, stored)
  {
  }

  lemma RoundExtends(h: seq<ConversationMessage>, preps: seq<PreparedToolCall>, oracle: Oracle, turn: ConversationMessage, results: seq<ToolCallResult>)
    requires EngineTranscript(h) && UsableIds(preps, TakenIds(h))
    requires |results| == |preps| && ResultsFor(preps, oracle, results)
    requires turn == AssistantTurn(turn.content, turn.toolCalls) && BoundedCalls(CallsOf(preps), turn.toolCalls)
    ensures EngineTranscript(h + RoundMessages(turn, results))
  {
    hide EngineTranscript, UsableIds, ResultsFor, InOrder, TakenIds, BoundedCalls, SameIds;
    RoundIds(preps, oracle, turn.toolCalls, results);
    RoundInOrder(preps, TakenIds(h), turn, results);
    RoundApart(preps, TakenIds(h), turn, results);
    EngineTranscriptExtends(h, RoundMessages(turn, results));
  }

  // ---------------------------------------------------------------- recovery

  /** The operation keys a checkpoint determines. */
  ghost function CheckpointKeys(loop: string, round: nat, calls: seq<ToolCallRequest>): set<string> {
    set i | 0 <= i < |calls| :: ToolResultKey(loop, round, i, calls[i].name)
  }

  /** Everything dispatched after the first `from` phases has a key in `keys` and not in `stored`. */
  ghost predicate OnlyDispatches(log: seq<seq<string>>, from: nat, keys: set<string>, stored: set<string>) {
    forall i, key | from <= i < |log| && key in log[i] :: key in keys && key !in stored
  }

  lemma PreparedKeys(config: ToolConfig, loop: string, round: nat, calls: seq<ToolCallRequest>, stored: ToolStore, preps: seq<PreparedToolCall>)
    requires AllPrepared(config, loop, round, calls, stored, preps)
    ensures forall p | p in preps :: p.operationKey in CheckpointKeys(loop, round, calls)
    ensures config.localMemory ==> forall p | p in preps && p.cached.None? :: p.operationKey !in stored
  {
    hide EffectiveCall;
    forall p | p in preps
      ensures p.operationKey in CheckpointKeys(loop, round, calls)
      ensures config.localMemory && p.cached.None? ==> p.operationKey !in stored
    {
      var i :| 0 <= i < |preps| && preps[i] == p;
      assert PreparedAt(config, loop, round, calls, stored, i, p);
    }
  }

  /** One attempt dispatches only the checkpoint's own keys, and none whose result is stored. */
  lemma AttemptDispatches(config: ToolConfig, loop: string, round: nat, calls: seq<ToolCallRequest>, stored: ToolStore,
                          preps: seq<PreparedToolCall>, ran: nat, oracle: Oracle, before: seq<seq<string>>, after: seq<seq<string>>)
    requires AllPrepared(config, loop, round, calls, stored, preps) && DispatchedPrefix(before, after, preps, ran, oracle)
    ensures |before| <= |after| && after[..|before|] == before
    ensures OnlyDispatches(after, |before|, CheckpointKeys(loop, round, calls), if config.localMemory then stored.Keys else {})
  {
    hide AllPrepared, RanThrough, CheckpointKeys;
    var phases := PhasesFrom(preps, []);
    PreparedKeys(config, loop, round, calls, stored, preps);
    forall i, key | |before| <= i < |after| && key in after[i]
      ensures key in CheckpointKeys(loop, round, calls) && (config.localMemory ==> key !in stored)
    {
      var phase := phases[..ran][i - |before|];
      assert after[i] == Keys(phase);
      var k :| 0 <= k < |phase| && Keys(phase)[k] == key;
      InPhases(preps, phases, i - |before|, k);
    }
  }

  lemma {:induction false} InPhases(preps: seq<PreparedToolCall>, phases: seq<Phase>, i: nat, k: nat)
    requires phases == PhasesFrom(preps, []) && i < |phases| && k < |phases[i]|
    ensures phases[i][k] in preps && phases[i][k].cached.None?
  {
    RanAreUncached(preps, phases, |phases|);
    assert phases[..|phases|] == phases;
    InConcat(phases, i, k);
  }

  lemma {:induction false} InConcat(phases: seq<Phase>, i: nat, k: nat)
    requires i < |phases| && k < |phases[i]|
    ensures phases[i][k] in Concat(phases)
    decreases |phases|
  {
    if i > 0 {
      InConcat(phases[1..], i - 1, k);
    }
  }

  /** What one attempt prepared, dispatched and stored. */
  datatype AttemptTrace = AttemptTrace(
    preps: seq<PreparedToolCall>,
    ran: nat,
    dispatchedBefore: seq<seq<string>>,
    dispatchedAfter: seq<seq<string>>,
    storedBefore: ToolStore,
    storedAfter: ToolStore
  )

  /** `t` is a run of `attempt` from the checkpoint with these calls. */
  ghost predicate AttemptOf(config: ToolConfig, loop: string, round: nat, calls: seq<ToolCallRequest>, attempt: Attempt, t: AttemptTrace) {
    && AllPrepared(config, loop, round, calls, t.storedBefore, t.preps)
    && DispatchedPrefix(t.dispatchedBefore, t.dispatchedAfter, t.preps, t.ran, attempt.outcome)
    && StoreGrows(config, t.preps, attempt.outcome, t.storedBefore, t.storedAfter)
  }

  /** The attempts of a recovery: each starts from the same checkpoint, and from the executor and the
      store its predecessor left. */
  ghost predicate RecoveryOf(config: ToolConfig, loop: string, round: nat, calls: seq<ToolCallRequest>, attempts: seq<Attempt>,
                             traces: seq<AttemptTrace>)
  {
    && |traces| <= |attempts|
    && (forall i | 0 <= i < |traces| :: AttemptOf(config, loop, round, calls, attempts[i], traces[i]))
    && (forall i | 0 < i < |traces| ::
          traces[i].dispatchedBefore == traces[i - 1].dispatchedAfter && traces[i].storedBefore == traces[i - 1].storedAfter)
  }

  /** The recovery began with this log and this store. */
  predicate StartsFrom(traces: seq<AttemptTrace>, log: seq<seq<string>>, stored: ToolStore) {
    traces != [] ==> traces[0].dispatchedBefore == log && traces[0].storedBefore == stored
  }

  /** It ended with these. */
  predicate EndsWith(traces: seq<AttemptTrace>, log: seq<seq<string>>, stored: ToolStore) {
    traces != [] ==> traces[|traces| - 1].dispatchedAfter == log && traces[|traces| - 1].storedAfter == stored
  }

  /** What the attempt dispatched. */
  function Dispatched(t: AttemptTrace): seq<seq<string>>
    requires |t.dispatchedBefore| <= |t.dispatchedAfter|
  {
    t.dispatchedAfter[|t.dispatchedBefore|..]
  }

  lemma AttemptExtends(config: ToolConfig, loop: string, round: nat, calls: seq<ToolCallRequest>, attempt: Attempt, t: AttemptTrace)
    requires AttemptOf(config, loop, round, calls, attempt, t)
    ensures t.dispatchedBefore <= t.dispatchedAfter
    ensures OnlyDispatches(Dispatched(t), 0, CheckpointKeys(loop, round, calls), if config.localMemory then t.storedBefore.Keys else {})
    ensures forall key | key in t.storedBefore :: key in t.storedAfter && t.storedAfter[key] == t.storedBefore[key]
  {
    hide AllPrepared, DispatchedPrefix, CheckpointKeys;
    AttemptDispatches(config, loop, round, calls, t.storedBefore, t.preps, t.ran, attempt.outcome, t.dispatchedBefore, t.dispatchedAfter);
  }

  /** What any attempt of a recovery stored is there, unchanged, when a later one begins. */
  lemma {:induction false} StoredStays(config: ToolConfig, loop: string, round: nat, calls: seq<ToolCallRequest>, attempts: seq<Attempt>,
                                       traces: seq<AttemptTrace>, i: nat, j: nat)
    requires RecoveryOf(config, loop, round, calls, attempts, traces) && i < j < |traces|
    ensures forall key | key in traces[i].storedAfter ::
              key in traces[j].storedBefore && traces[j].storedBefore[key] == traces[i].storedAfter[key]
    decreases j
  {
    hide AttemptOf;
    if i < j - 1 {
      StoredStays(config, loop, round, calls, attempts, traces, i, j - 1);
      AttemptExtends(config, loop, round, calls, attempts[j - 1], traces[j - 1]);
    }
  }

  /** Over a whole recovery, a call whose result any attempt stored is not dispatched by a later one:
      its stored result is what that attempt reports. */
  lemma StoredIsNotDispatchedAgain(config: ToolConfig, loop: string, round: nat, calls: seq<ToolCallRequest>, attempts: seq<Attempt>,
                                   traces: seq<AttemptTrace>, i: nat, j: nat, key: string)
    requires RecoveryOf(config, loop, round, calls, attempts, traces) && i < j < |traces|
    requires config.localMemory && key in traces[i].storedAfter
    ensures traces[j].dispatchedBefore <= traces[j].dispatchedAfter
    ensures forall phase | phase in Dispatched(traces[j]) :: key !in phase
    ensures forall p | p in traces[j].preps && p.operationKey == key :: p.cached == Some(traces[i].storedAfter[key])
  {
    StoredStays(config, loop, round, calls, attempts, traces, i, j);
    AttemptExtends(config, loop, round, calls, attempts[j], traces[j]);
    forall p | p in traces[j].preps && p.operationKey == key
      ensures p.cached == Some(traces[i].storedAfter[key])
    {
      var k :| 0 <= k < |traces[j].preps| && traces[j].preps[k] == p;
      assert PreparedAt(config, loop, round, calls, traces[j].storedBefore, k, p);
    }
  }

  /** Every attempt of a recovery derives the same calls under the same operation keys. */
  lemma SameKeysEveryAttempt(config: ToolConfig, loop: string, round: nat, calls: seq<ToolCallRequest>, attempts: seq<Attempt>,
                             traces: seq<AttemptTrace>, i: nat, j: nat, k: nat)
    requires RecoveryOf(config, loop, round, calls, attempts, traces) && i < |traces| && j < |traces|
    requires k < |traces[i].preps| && k < |traces[j].preps|
    ensures traces[i].preps[k].(cached := None) == traces[j].preps[k].(cached := None)
  {
    hide EffectiveCall, ToolResultKey;
    assert AttemptOf(config, loop, round, calls, attempts[i], traces[i]) && AttemptOf(config, loop, round, calls, attempts[j], traces[j]);
    assert PreparedAt(config, loop, round, calls, traces[i].storedBefore, k, traces[i].preps[k]);
    assert PreparedAt(config, loop, round, calls, traces[j].storedBefore, k, traces[j].preps[k]);
  }

  lemma RecoverySnoc(config: ToolConfig, loop: string, round: nat, calls: seq<ToolCallRequest>, attempts: seq<Attempt>, traces: seq<AttemptTrace>,
                     t: AttemptTrace)
    requires RecoveryOf(config, loop, round, calls, attempts, traces) && |traces| < |attempts|
    requires AttemptOf(config, loop, round, calls, attempts[|traces|], t) && EndsWith(traces, t.dispatchedBefore, t.storedBefore)
    ensures RecoveryOf(config, loop, round, calls, attempts, traces + [t])
  {
    hide AttemptOf;
  }

  /** Every attempt was hindered, but for the last one of a recovery that is done. */
  ghost predicate HinderedBut(config: ToolConfig, loop: string, round: nat, calls: seq<ToolCallRequest>, h: seq<ConversationMessage>,
                              attempts: seq<Attempt>, traces: seq<AttemptTrace>, done: bool)
  {
    && |traces| <= |attempts| && (done ==> traces != [])
    && forall i | 0 <= i < |traces| ::
         Hindered(config, attempts[i], loop, round, calls, h, traces[i].preps) <==> !(done && i == |traces| - 1)
  }

  /** Recover the same checkpoint until an attempt succeeds or none is left. Until the round completes the
      checkpoint is untouched; each attempt starts from the store its predecessor left, so a result stored
      by any of them is not asked for again (`StoredIsNotDispatchedAgain`). */
  method RecoverRound(config: ToolConfig, attempts: seq<Attempt>, state: ExecutionState, repository: NodeRepository, executor: ToolExecutor)
    returns (done: bool, ghost traces: seq<AttemptTrace>)
    requires EngineTranscript(state.turnMessages)
    modifies state, repository, executor
    ensures EngineTranscript(state.turnMessages)
    ensures !done ==>
              && state.pendingToolCalls == old(state.pendingToolCalls)
              && state.toolRoundsCompleted == old(state.toolRoundsCompleted)
              && state.turnMessages == old(state.turnMessages)
              && |traces| == |attempts|
    ensures done ==>
              && state.pendingToolCalls == [] && state.toolRoundsCompleted == old(state.toolRoundsCompleted) + 1
              && MessagesTokens(config.estimate, state.turnMessages) <= config.reserveTools
    ensures RecoveryOf(config, state.loopId, old(state.toolRoundsCompleted) + 1, old(state.pendingToolCalls), attempts, traces)
    ensures HinderedBut(config, state.loopId, old(state.toolRoundsCompleted) + 1, old(state.pendingToolCalls), old(state.turnMessages), attempts,
                        traces, done)
    ensures StartsFrom(traces, old(executor.dispatched), old(repository.results))
    ensures EndsWith(traces, executor.dispatched, repository.results)
    ensures traces == [] ==> executor.dispatched == old(executor.dispatched) && repository.results == old(repository.results)
    ensures done && config.localMemory ==> traces != [] && AllStored(traces[|traces| - 1].preps, repository.results)
  {
    hide AttemptOf, RecoveryOf, AllPrepared, DispatchedPrefix, EngineTranscript, MessagesTokens, ResultsFor, AllStored, PhasesFrom,
         StoreGrows, RoundAdded, EnvelopesFit, Hindered, Explains, DispatchedThrough;
    done, traces := false, [];
    NothingRecovered(config, state.loopId, state.toolRoundsCompleted + 1, state.pendingToolCalls, attempts);
    var i := 0;
    while i < |attempts| && !done
      invariant 0 <= i <= |attempts| && |traces| == i
      invariant EngineTranscript(state.turnMessages)
      invariant !done ==>
                  && state.pendingToolCalls == old(state.pendingToolCalls)
                  && state.toolRoundsCompleted == old(state.toolRoundsCompleted)
                  && state.turnMessages == old(state.turnMessages)
      invariant done ==>
                  && state.pendingToolCalls == [] && state.toolRoundsCompleted == old(state.toolRoundsCompleted) + 1
                  && MessagesTokens(config.estimate, state.turnMessages) <= config.reserveTools
      invariant RecoveryOf(config, state.loopId, old(state.toolRoundsCompleted) + 1, old(state.pendingToolCalls), attempts, traces)
      invariant HinderedBut(config, state.loopId, old(state.toolRoundsCompleted) + 1, old(state.pendingToolCalls), old(state.turnMessages),
                            attempts, traces, done)
      invariant StartsFrom(traces, old(executor.dispatched), old(repository.results))
      invariant EndsWith(traces, executor.dispatched, repository.results)
      invariant traces == [] ==> executor.dispatched == old(executor.dispatched) && repository.results == old(repository.results)
      invariant done && config.localMemory ==> traces != [] && AllStored(traces[|traces| - 1].preps, repository.results)
    {
      ghost var log, stored := executor.dispatched, repository.results;
      var r;
      ghost var preps, ran;
      r, preps, ran := RunExecuteTools(config, attempts[i], state, repository, executor);
      ghost var t := AttemptTrace(preps, ran, log, executor.dispatched, stored, repository.results);
      OneAttempt(config, state.loopId, old(state.toolRoundsCompleted) + 1, old(state.pendingToolCalls), attempts[i], t);
      RecoverySnoc(config, state.loopId, old(state.toolRoundsCompleted) + 1, old(state.pendingToolCalls), attempts, traces, t);
      traces := traces + [t];
      done := r.Ok?;
      i := i + 1;
    }
  }

  lemma OneAttempt(config: ToolConfig, loop: string, round: nat, calls: seq<ToolCallRequest>, attempt: Attempt, t: AttemptTrace)
    requires AllPrepared(config, loop, round, calls, t.storedBefore, t.preps)
    requires DispatchedPrefix(t.dispatchedBefore, t.dispatchedAfter, t.preps, t.ran, attempt.outcome)
    requires StoreGrows(config, t.preps, attempt.outcome, t.storedBefore, t.storedAfter)
    ensures AttemptOf(config, loop, round, calls, attempt, t)
  {
  }

  lemma NothingRecovered(config: ToolConfig, loop: string, round: nat, calls: seq<ToolCallRequest>, attempts: seq<Attempt>)
    ensures RecoveryOf(config, loop, round, calls, attempts, [])
  {
  }

  /** Two different calls of a turn never share an operation key. */
  lemma PreparedKeysDiffer(config: ToolConfig, loop: string, round1: nat, calls1: seq<ToolCallRequest>, stored1: ToolStore, preps1: seq<PreparedToolCall>,
                           round2: nat, calls2: seq<ToolCallRequest>, stored2: ToolStore, preps2: seq<PreparedToolCall>, i: nat, j: nat)
    requires NoColon(loop) && i < |preps1| && j < |preps2|
    requires AllPrepared(config, loop, round1, calls1, stored1, preps1) && AllPrepared(config, loop, round2, calls2, stored2, preps2)
    requires preps1[i].operationKey == preps2[j].operationKey
    ensures round1 == round2 && i == j && calls1[i].name == calls2[j].name
  {
    hide EffectiveCall, ToolResultKey;
    assert PreparedAt(config, loop, round1, calls1, stored1, i, preps1[i]);
    assert PreparedAt(config, loop, round2, calls2, stored2, j, preps2[j]);
    ToolResultKeyInjective(loop, round1, i, calls1[i].name, loop, round2, j, calls2[j].name);
  }
}
