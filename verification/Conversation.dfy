/** Conversation messages and their token cost, for an arbitrary estimator of text. */
module Conversation {
  import opened Domain

  /** `arguments` is the rendered JSON text. */
  datatype ToolCallRequest = ToolCallRequest(id: Option<string>, name: string, arguments: string)

  datatype ConversationRole = SystemRole | UserRole | AssistantRole | ToolRole

  datatype ConversationMessage = ConversationMessage(
    role: ConversationRole,
    content: string,
    toolCallId: Option<string>,
    toolCalls: seq<ToolCallRequest>
  )

  /** `TokenEstimator::estimate_text`: nothing is assumed, not even monotonicity. */
  type Estimator = string -> nat

  /** Which characters `str::trim` removes. */
  const IS_WHITESPACE: char -> bool

  /** `text.trim().is_empty()` */
  predicate Blank(text: string) {
    forall i | 0 <= i < |text| :: IS_WHITESPACE(text[i])
  }

  /** `saturating_sub` */
  function Minus(a: nat, b: nat): nat {
    if a > b then a - b else 0
  }

  function CallTokens(estimate: Estimator, call: ToolCallRequest): nat {
    (if call.id.Some? then estimate(call.id.value) else 0) + estimate(call.name) + estimate(call.arguments)
  }

  function CallsTokens(estimate: Estimator, calls: seq<ToolCallRequest>): nat {
    if calls == [] then 0 else CallsTokens(estimate, calls[..|calls| - 1]) + CallTokens(estimate, calls[|calls| - 1])
  }

  function MessageTokens(estimate: Estimator, message: ConversationMessage): nat {
    estimate(message.content)
    + (if message.toolCallId.Some? then estimate(message.toolCallId.value) else 0)
    + CallsTokens(estimate, message.toolCalls) + 1
  }

  function MessagesTokens(estimate: Estimator, messages: seq<ConversationMessage>): nat {
    if messages == [] then 0
    else MessagesTokens(estimate, messages[..|messages| - 1]) + MessageTokens(estimate, messages[|messages| - 1])
  }

  lemma {:induction false} MessagesTokensConcat(estimate: Estimator, a: seq<ConversationMessage>, b: seq<ConversationMessage>)
    ensures MessagesTokens(estimate, a + b) == MessagesTokens(estimate, a) + MessagesTokens(estimate, b)
    decreases |b|
  {
    if b == [] {
      assert a + b == a;
    } else {
      assert (a + b)[..|a + b| - 1] == a + b[..|b| - 1];
      MessagesTokensConcat(estimate, a, b[..|b| - 1]);
    }
  }

  /** A message costs its content, its correlation id and one token more; every call on it costs its id, name
      and arguments on top. */
  lemma {:induction false} MessageCost(estimate: Estimator, m: ConversationMessage, call: ToolCallRequest)
    ensures MessageTokens(estimate, m.(toolCalls := []))
         == estimate(m.content) + (match m.toolCallId case Some(id) => estimate(id) case None => 0) + 1
    ensures MessageTokens(estimate, m.(toolCalls := m.toolCalls + [call]))
         == MessageTokens(estimate, m)
            + (match call.id case Some(id) => estimate(id) case None => 0) + estimate(call.name) + estimate(call.arguments)
  {
    assert (m.toolCalls + [call])[..|m.toolCalls|] == m.toolCalls;
  }

  /** `estimate_conversation_message` */
  method EstimateConversationMessage(estimate: Estimator, message: ConversationMessage) returns (tokens: nat)
    ensures tokens == MessageTokens(estimate, message)
  {
    tokens := estimate(message.content);
    if message.toolCallId.Some? {
      tokens := tokens + estimate(message.toolCallId.value);
    }
    ghost var head := tokens;
    for i := 0 to |message.toolCalls|
      invariant tokens == head + CallsTokens(estimate, message.toolCalls[..i])
    {
      var call := message.toolCalls[i];
      if call.id.Some? {
        tokens := tokens + estimate(call.id.value);
      }
      tokens := tokens + estimate(call.name) + estimate(call.arguments);
      assert message.toolCalls[..i + 1][..i] == message.toolCalls[..i];
    }
    assert message.toolCalls[..|message.toolCalls|] == message.toolCalls;
    tokens := tokens + 1;
  }
}
