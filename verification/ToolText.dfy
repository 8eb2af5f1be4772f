/** The helpers that bound tool calls and results: for the model by estimated tokens, for storage by
    encoded bytes. Nothing is assumed of the estimator; where it is monotone the binary searches
    find the longest text that fits. */
module ToolText {
  import opened Domain
  import opened Conversation

  /** `content` is the rendered JSON text. */
  datatype ToolCallResult = ToolCallResult(toolCallId: Option<string>, name: string, content: string, summary: string)

  const EMPTY_OBJECT := "{}"
  const TRUNCATED_MARKER := "{\"truncated\":true}"

  /** The rendering of `{"truncated": true, "preview": text}`. */
  const PREVIEW: string -> string

  function Minimum(a: nat, b: nat): nat {
    if a < b then a else b
  }

  // ---------------------------------------------------------------- longest fitting prefix

  /** Longer prefixes of `text` never cost less. */
  ghost predicate PrefixMonotone(cost: string -> nat, text: string) {
    forall i, j | 0 <= i <= j <= |text| :: cost(text[..i]) <= cost(text[..j])
  }

  /** What a binary search over prefixes finds: one that fits, and with a monotone cost the longest;
      `None` if even the empty one was not seen to fit. */
  ghost predicate SearchedPrefix(cost: string -> nat, text: string, budget: nat, found: Option<nat>) {
    && (found.Some? ==> found.value <= |text| && cost(text[..found.value]) <= budget)
    && (PrefixMonotone(cost, text) ==>
          forall k | 0 <= k <= |text| && (found.Some? ==> k > found.value) :: cost(text[..k]) > budget)
  }

  /** The search loop shared by the two token-budget helpers. */
  method LongestFittingPrefix(cost: string -> nat, text: string, budget: nat) returns (found: Option<nat>)
    ensures SearchedPrefix(cost, text, budget, found)
  {
    found := None;
    var low, high := 0, |text|;
    while low <= high
      invariant high <= |text| && low <= high + 1
      invariant found == if low == 0 then None else Some(low - 1)
      invariant low > 0 ==> cost(text[..low - 1]) <= budget
      invariant PrefixMonotone(cost, text) ==> forall k | high < k <= |text| :: cost(text[..k]) > budget
      decreases high + 1 - low
    {
      var middle := low + (high - low) / 2;
      if cost(text[..middle]) <= budget {
        found := Some(middle);
        low := middle + 1;
      } else {
        assert PrefixMonotone(cost, text) ==> forall k | middle <= k <= |text| :: cost(text[..middle]) <= cost(text[..k]);
        if middle == 0 {
          break;
        }
        high := middle - 1;
      }
    }
  }

  /** `truncate_text_to_token_budget` */
  method TruncateTextToTokenBudget(text: string, estimate: Estimator, budget: nat) returns (r: string)
    ensures r <= text
    ensures r == "" || estimate(r) <= budget
    ensures budget > 0 && estimate(text) <= budget ==> r == text
    ensures budget > 0 && PrefixMonotone(estimate, text) ==> forall k | |r| < k <= |text| :: estimate(text[..k]) > budget
  {
    if text == "" || budget == 0 {
      return "";
    }
    if estimate(text) <= budget {
      return text;
    }
    var found := LongestFittingPrefix(estimate, text, budget);
    r := if found.Some? then text[..found.value] else "";
  }

  // ---------------------------------------------------------------- results for the model

  ghost predicate IsPreviewOf(content: string, text: string) {
    exists k :: 0 <= k <= |text| && content == PREVIEW(text[..k])
  }

  /** The view of a result that may cost `allowance`: the whole result if it fits; else a preview, the longest
      that fits where longer previews never cost less; an empty object only if not even an empty preview
      fits. */
  ghost predicate ViewWithin(estimate: Estimator, full: ToolCallResult, view: ToolCallResult, allowance: int) {
    && view == full.(content := view.content)
    && (estimate(full.content) <= allowance ==> view == full)
    && (estimate(full.content) > allowance && estimate(PREVIEW("")) > allowance ==> view.content == EMPTY_OBJECT)
    && (estimate(full.content) > allowance && estimate(PREVIEW("")) <= allowance ==>
          && IsPreviewOf(view.content, full.content)
          && (PrefixMonotone(PreviewTokens(estimate), full.content) ==>
                exists k :: 0 <= k <= |full.content| && view.content == PREVIEW(full.content[..k])
                         && forall j | k < j <= |full.content| :: estimate(PREVIEW(full.content[..j])) > allowance))
  }

  function PreviewTokens(estimate: Estimator): string -> nat {
    (text: string) => estimate(PREVIEW(text))
  }

  /** `clamp_tool_result_for_model`: whole, or a preview, or an empty object; within the allowance, and as much
      as it allows, whenever an empty object is within it. */
  method ClampToolResultForModel(result: ToolCallResult, estimate: Estimator, remaining: nat)
    returns (r: ToolCallResult, left: nat)
    ensures estimate(result.content) <= remaining ==> r == result
    ensures r == result.(content := r.content)
    ensures r.content == result.content || r.content == EMPTY_OBJECT || IsPreviewOf(r.content, result.content)
    ensures estimate(EMPTY_OBJECT) <= remaining ==>
              && ViewWithin(estimate, result, r, remaining)
              && estimate(r.content) <= remaining && left == remaining - estimate(r.content)
  {
    var serialized := result.content;
    var full := estimate(serialized);
    if full <= remaining {
      return result, remaining - full;
    }
    if estimate(EMPTY_OBJECT) > remaining {
      return result.(content := EMPTY_OBJECT), 0;
    }
    var cost := PreviewTokens(estimate);
    if cost("") > remaining {
      return result.(content := EMPTY_OBJECT), Minus(remaining, estimate(EMPTY_OBJECT));
    }
    var found := LongestFittingPrefix(cost, serialized, remaining);
    assert serialized[..0] == "";
    var k := if found.Some? then found.value else 0;
    r, left := result.(content := PREVIEW(serialized[..k])), Minus(remaining, cost(serialized[..k]));
    assert forall j | k < j <= |serialized| :: PrefixMonotone(cost, serialized) ==> cost(serialized[..j]) > remaining;
  }

  // ---------------------------------------------------------------- calls for the model

  /** The assistant message that carries `calls`. */
  function AssistantTurn(content: string, calls: seq<ToolCallRequest>): ConversationMessage {
    ConversationMessage(AssistantRole, content, None, calls)
  }

  function WithoutArguments(calls: seq<ToolCallRequest>): (r: seq<ToolCallRequest>)
    ensures |r| == |calls| && forall i | 0 <= i < |calls| :: r[i] == calls[i].(arguments := EMPTY_OBJECT)
  {
    seq(|calls|, i requires 0 <= i < |calls| => calls[i].(arguments := EMPTY_OBJECT))
  }

  /** The least a round's assistant message can cost. */
  function MinimumCallTokens(estimate: Estimator, calls: seq<ToolCallRequest>): nat {
    MessageTokens(estimate, AssistantTurn("", WithoutArguments(calls)))
  }

  /** Same calls in the same order; arguments are whole, marked as truncated, or dropped. */
  ghost predicate BoundedCalls(calls: seq<ToolCallRequest>, bounded: seq<ToolCallRequest>) {
    && |bounded| == |calls|
    && forall i | 0 <= i < |calls| ::
         && bounded[i] == calls[i].(arguments := bounded[i].arguments)
         && bounded[i].arguments in {calls[i].arguments, TRUNCATED_MARKER, EMPTY_OBJECT}
  }

  datatype EngineError =
    | Configuration
    | ToolProblem
    | Cancelled
    | ToolOutcomeIndeterminate(idempotencyKey: string)
    | StorageProblem

  /** The arguments one call may keep within its allowance. */
  function BoundedArguments(estimate: Estimator, arguments: string, allowance: nat): (r: string)
    ensures r in {arguments, TRUNCATED_MARKER, EMPTY_OBJECT}
    ensures Minus(estimate(r), estimate(EMPTY_OBJECT)) <= allowance
    ensures Minus(estimate(arguments), estimate(EMPTY_OBJECT)) <= allowance ==> r == arguments
    ensures Minus(estimate(TRUNCATED_MARKER), estimate(EMPTY_OBJECT)) <= allowance ==> r in {arguments, TRUNCATED_MARKER}
  {
    var empty := estimate(EMPTY_OBJECT);
    if Minus(estimate(arguments), empty) > allowance then
      if Minus(estimate(TRUNCATED_MARKER), empty) <= allowance then TRUNCATED_MARKER else EMPTY_OBJECT
    else arguments
  }

  lemma {:induction false} CallsTokensStep(estimate: Estimator, calls: seq<ToolCallRequest>, call: ToolCallRequest)
    ensures CallsTokens(estimate, calls + [call]) == CallsTokens(estimate, calls) + CallTokens(estimate, call)
  {
    assert (calls + [call])[..|calls|] == calls;
  }

  lemma MinimumStep(estimate: Estimator, calls: seq<ToolCallRequest>, i: nat)
    requires i < |calls|
    ensures CallsTokens(estimate, WithoutArguments(calls[..i + 1]))
         == CallsTokens(estimate, WithoutArguments(calls[..i])) + CallTokens(estimate, calls[i].(arguments := EMPTY_OBJECT))
  {
    assert WithoutArguments(calls[..i + 1]) == WithoutArguments(calls[..i]) + [calls[i].(arguments := EMPTY_OBJECT)];
    CallsTokensStep(estimate, WithoutArguments(calls[..i]), calls[i].(arguments := EMPTY_OBJECT));
  }

  /** Whatever the other calls cost, arguments that cost at most `share` beyond an empty object are kept, and
      no arguments are dropped altogether if the truncation marker costs at most that. */
  ghost predicate FairCalls(estimate: Estimator, calls: seq<ToolCallRequest>, bounded: seq<ToolCallRequest>, share: nat) {
    && |bounded| <= |calls|
    && forall i | 0 <= i < |bounded| ::
         && (Minus(estimate(calls[i].arguments), estimate(EMPTY_OBJECT)) <= share ==> bounded[i] == calls[i])
         && (Minus(estimate(TRUNCATED_MARKER), estimate(EMPTY_OBJECT)) <= share ==>
               bounded[i].arguments in {calls[i].arguments, TRUNCATED_MARKER})
  }

  /** `bound_tool_calls_for_model`: fails exactly when even empty arguments do not fit, and otherwise
      stays within the budget and is fair with an even share of what the empty arguments leave of it. */
  method BoundToolCallsForModel(calls: seq<ToolCallRequest>, estimate: Estimator, budget: nat)
    returns (r: Result<seq<ToolCallRequest>, EngineError>)
    ensures r.Err? <==> MinimumCallTokens(estimate, calls) > budget
    ensures r.Err? ==> r.error == Configuration
    ensures r.Ok? ==> BoundedCalls(calls, r.value) && MessageTokens(estimate, AssistantTurn("", r.value)) <= budget
    ensures r.Ok? && calls != [] ==> FairCalls(estimate, calls, r.value, (budget - MinimumCallTokens(estimate, calls)) / |calls|)
  {
    hide MessageTokens, Bounding, Share, FairCalls, HasShares, BoundedArguments;
    var minimum := EstimateConversationMessage(estimate, AssistantTurn("", WithoutArguments(calls)));
    if minimum > budget {
      return Err(Configuration);
    }
    var extra: nat := budget - minimum;
    ghost var total: nat := budget - minimum;
    var bounded: seq<ToolCallRequest> := [];
    ghost var share := if calls == [] then 0 else total / |calls|;
    NothingBounded(estimate, calls, total);
    FairSoFar(estimate, calls, total, share);
    for index := 0 to |calls|
      invariant Bounding(estimate, calls, index, bounded, extra, total)
      invariant |bounded| == index && FairCalls(estimate, calls, bounded, share)
      invariant HasShares(share, extra, |calls| - index)
    {
      var remainingCalls := if |calls| - index > 1 then |calls| - index else 1;
      var allowance := Share(extra, remainingCalls);
      var call := calls[index].(arguments := BoundedArguments(estimate, calls[index].arguments, allowance));
      var used := Minus(estimate(call.arguments), estimate(EMPTY_OBJECT));
      BoundOneMore(estimate, calls, index, bounded, extra, total, call);
      SharesOnlyGrow(share, extra, remainingCalls, used);
      FairOneMore(estimate, calls, bounded, allowance, share, call);
      extra := Minus(extra, used);
      bounded := bounded + [call];
    }
    BoundingDone(estimate, calls, bounded, extra, total);
    BoundedTurnFits(estimate, calls, bounded, extra, budget);
    r := Ok(bounded);
  }

  lemma FairSoFar(estimate: Estimator, calls: seq<ToolCallRequest>, total: nat, share: nat)
    requires share == if calls == [] then 0 else total / |calls|
    ensures FairCalls(estimate, calls, [], share) && HasShares(share, total, |calls|)
  {
    if calls != [] { EvenShares(total, |calls|); }
  }

  lemma FairOneMore(estimate: Estimator, calls: seq<ToolCallRequest>, bounded: seq<ToolCallRequest>, allowance: nat, share: nat,
                    call: ToolCallRequest)
    requires |bounded| < |calls| && FairCalls(estimate, calls, bounded, share) && share <= allowance
    requires var own := calls[|bounded|]; call == own.(arguments := BoundedArguments(estimate, own.arguments, allowance))
    ensures FairCalls(estimate, calls, bounded + [call], share)
  {
  }

  /** The first `index` calls are bounded, and what they used came out of the extra tokens. */
  ghost predicate Bounding(estimate: Estimator, calls: seq<ToolCallRequest>, index: nat, bounded: seq<ToolCallRequest>, extra: nat, total: nat) {
    && index <= |calls| && BoundedCalls(calls[..index], bounded) && extra <= total
    && Spent(estimate, calls, index, bounded, extra, total)
  }

  lemma NothingBounded(estimate: Estimator, calls: seq<ToolCallRequest>, total: nat)
    ensures Bounding(estimate, calls, 0, [], total, total)
  {
    NoCalls(estimate, calls);
  }

  lemma BoundOneMore(estimate: Estimator, calls: seq<ToolCallRequest>, index: nat, bounded: seq<ToolCallRequest>, extra: nat, total: nat,
                     call: ToolCallRequest)
    requires index < |calls| && Bounding(estimate, calls, index, bounded, extra, total)
    requires call == calls[index].(arguments := call.arguments) && call.arguments in {calls[index].arguments, TRUNCATED_MARKER, EMPTY_OBJECT}
    requires Minus(estimate(call.arguments), estimate(EMPTY_OBJECT)) <= extra
    ensures Bounding(estimate, calls, index + 1, bounded + [call],
                     Minus(extra, Minus(estimate(call.arguments), estimate(EMPTY_OBJECT))), total)
  {
    hide Spent, BoundedCalls;
    SpendOnCall(estimate, calls, index, bounded, extra, total, call);
    BoundedCallsStep(calls, index, bounded, call);
  }

  lemma BoundingDone(estimate: Estimator, calls: seq<ToolCallRequest>, bounded: seq<ToolCallRequest>, extra: nat, total: nat)
    requires Bounding(estimate, calls, |calls|, bounded, extra, total)
    ensures BoundedCalls(calls, bounded) && Spent(estimate, calls, |calls|, bounded, extra, total)
  {
    assert calls[..|calls|] == calls;
  }

  /** An even share of what is left, rounded down. */
  function Share(extra: nat, parts: nat): (r: nat)
    requires parts > 0
    ensures r <= extra && r * parts <= extra < r * parts + parts
  {
    DivideBack(extra, parts);
    extra / parts
  }

  /** There are `share` tokens for each of `parts`. */
  ghost predicate HasShares(share: nat, extra: nat, parts: nat) {
    share * parts <= extra
  }

  lemma EvenShares(extra: nat, parts: nat)
    requires parts > 0
    ensures HasShares(extra / parts, extra, parts)
  {
    DivideBack(extra, parts);
  }

  /** Who spends at most its own share leaves the others no less than theirs. */
  lemma SharesOnlyGrow(share: nat, extra: nat, parts: nat, used: nat)
    requires parts > 0 && HasShares(share, extra, parts)
    ensures share <= Share(extra, parts)
    ensures used <= Share(extra, parts) ==> HasShares(share, extra - used, parts - 1)
  {
    hide Share;
    var q := Share(extra, parts);
    assert (q + 1) * parts == q * parts + parts;
    if share > q {
      Product(q + 1, share, parts);
      assert false;
    }
    Product(share, q, parts - 1);
    assert q * parts == q * (parts - 1) + q;
  }

  lemma Product(a: nat, b: nat, c: nat)
    requires a <= b
    ensures a * c <= b * c
  {
  }

  lemma DivideBack(a: nat, b: nat)
    requires b > 0
    ensures a / b <= a && (a / b) * b <= a < (a / b) * b + b
  {
    var q := a / b;
    assert q * b <= a < q * b + b;
    Product(1, b, q);
  }

  lemma BoundedCallsStep(calls: seq<ToolCallRequest>, index: nat, bounded: seq<ToolCallRequest>, call: ToolCallRequest)
    requires index < |calls| && BoundedCalls(calls[..index], bounded)
    requires call == calls[index].(arguments := call.arguments) && call.arguments in {calls[index].arguments, TRUNCATED_MARKER, EMPTY_OBJECT}
    ensures BoundedCalls(calls[..index + 1], bounded + [call])
  {
    assert calls[..index + 1] == calls[..index] + [calls[index]];
  }

  /** Tokens used so far, against the minimum for the same calls and the extra budget. */
  ghost predicate Spent(estimate: Estimator, calls: seq<ToolCallRequest>, index: nat, bounded: seq<ToolCallRequest>, extra: nat, total: nat)
    requires index <= |calls|
  {
    CallsTokens(estimate, bounded) + extra <= CallsTokens(estimate, WithoutArguments(calls[..index])) + total
  }

  lemma NoCalls(estimate: Estimator, calls: seq<ToolCallRequest>)
    ensures forall total: nat :: Spent(estimate, calls, 0, [], total, total)
    ensures BoundedCalls(calls[..0], [])
  {
    assert CallsTokens(estimate, WithoutArguments(calls[..0])) == 0 && CallsTokens(estimate, []) == 0;
  }

  lemma SpendOnCall(estimate: Estimator, calls: seq<ToolCallRequest>, index: nat, bounded: seq<ToolCallRequest>, extra: nat, total: nat,
                    call: ToolCallRequest)
    requires index < |calls| && Spent(estimate, calls, index, bounded, extra, total)
    requires call == calls[index].(arguments := call.arguments)
    requires Minus(estimate(call.arguments), estimate(EMPTY_OBJECT)) <= extra
    ensures Spent(estimate, calls, index + 1, bounded + [call], Minus(extra, Minus(estimate(call.arguments), estimate(EMPTY_OBJECT))), total)
  {
    hide CallsTokens;
    MinimumStep(estimate, calls, index);
    CallsTokensStep(estimate, bounded, call);
  }

  lemma BoundedTurnFits(estimate: Estimator, calls: seq<ToolCallRequest>, bounded: seq<ToolCallRequest>, extra: nat, budget: nat)
    requires MinimumCallTokens(estimate, calls) <= budget
    requires Spent(estimate, calls, |calls|, bounded, extra, budget - MinimumCallTokens(estimate, calls))
    ensures MessageTokens(estimate, AssistantTurn("", bounded)) <= budget
  {
    hide CallsTokens;
    assert calls[..|calls|] == calls;
  }

  // ---------------------------------------------------------------- results for storage

  /** Bytes of the JSON encoding of a whole result. */
  const ENCODED_LENGTH: ToolCallResult -> nat

  function CharBytes(c: char): (n: nat)
    ensures 1 <= n <= 4
  {
    if c as int < 0x80 then 1 else if c as int < 0x800 then 2 else if c as int < 0x1_0000 then 3 else 4
  }

  function ByteLength(text: string): nat {
    if text == "" then 0 else ByteLength(text[..|text| - 1]) + CharBytes(text[|text| - 1])
  }

  /** The longest prefix that takes at most `bytes` bytes: rounding down to a character boundary. */
  function FloorBoundary(text: string, bytes: nat): (k: nat)
    ensures k <= |text| && ByteLength(text[..k]) <= bytes
    ensures k < |text| ==> ByteLength(text[..k + 1]) > bytes
  {
    if ByteLength(text) <= bytes then
      assert text[..|text|] == text;
      |text|
    else
      var front := text[..|text| - 1];
      var k := FloorBoundary(front, bytes);
      assert front[..k] == text[..k];
      assert k < |front| ==> front[..k + 1] == text[..k + 1];
      assert k == |front| ==> text[..k + 1] == text;
      k
  }

  /** `truncate_utf8`: the longest prefix that takes at most `bytes` bytes. */
  function TruncateUtf8(text: string, bytes: nat): (r: string)
    ensures r <= text && ByteLength(r) <= bytes
    ensures |r| < |text| ==> ByteLength(text[..|r| + 1]) > bytes
    ensures ByteLength(text) <= bytes ==> r == text
  {
    text[..FloorBoundary(text, bytes)]
  }

  /** The result with its summary cut to its share, or cleared if the envelope needs it. */
  function Envelope(result: ToolCallResult, maxBytes: nat): ToolCallResult {
    var cut := result.(summary := TruncateUtf8(result.summary, Minimum(maxBytes / 8, 4096)), content := PREVIEW(""));
    if ENCODED_LENGTH(cut) > maxBytes then cut.(summary := "") else cut
  }

  /** The envelope keeps the id and the name around an empty preview. Its summary is the longest prefix within
      an eighth of the bytes, at most 4096, unless the envelope does not fit with it: then it has none. */
  lemma EnvelopeMeans(result: ToolCallResult, maxBytes: nat)
    ensures var e := Envelope(result, maxBytes);
            && e == result.(summary := e.summary, content := PREVIEW(""))
            && exists n: nat ::
                 && n <= |result.summary|
                 && ByteLength(result.summary[..n]) * 8 <= maxBytes && ByteLength(result.summary[..n]) <= 4096
                 && (n < |result.summary| ==>
                       ByteLength(result.summary[..n + 1]) * 8 > maxBytes || ByteLength(result.summary[..n + 1]) > 4096)
                 && e.summary == if ENCODED_LENGTH(e.(summary := result.summary[..n])) <= maxBytes then result.summary[..n] else ""
  {
    hide FloorBoundary, ByteLength;
    var n := |TruncateUtf8(result.summary, Minimum(maxBytes / 8, 4096))|;
    assert result.summary[..n] == TruncateUtf8(result.summary, Minimum(maxBytes / 8, 4096));
  }

  lemma {:induction false} ByteLengthGrows(text: string, i: nat, j: nat)
    requires i < j <= |text|
    ensures ByteLength(text[..i]) < ByteLength(text[..j])
    decreases j
  {
    assert text[..j][..j - 1] == text[..j - 1];
    if i < j - 1 {
      ByteLengthGrows(text, i, j - 1);
    }
  }

  /** Encoded size of the envelope around a preview of `text`. */
  function PreviewCost(envelope: ToolCallResult): string -> nat {
    (text: string) => ENCODED_LENGTH(envelope.(content := PREVIEW(text)))
  }

  /** No longer preview fits, where encoding is monotone. */
  ghost predicate LongestPreview(envelope: ToolCallResult, text: string, maxBytes: nat, k: nat) {
    && k <= |text|
    && (PrefixMonotone(PreviewCost(envelope), text) ==>
          forall j | k < j <= |text| :: PreviewCost(envelope)(text[..j]) > maxBytes)
  }

  /** Everything beyond `high` bytes is known not to fit. */
  ghost predicate TooLongBeyond(envelope: ToolCallResult, text: string, maxBytes: nat, high: int) {
    PrefixMonotone(PreviewCost(envelope), text) ==>
      forall j | 0 <= j <= |text| && ByteLength(text[..j]) > high :: PreviewCost(envelope)(text[..j]) > maxBytes
  }

  lemma {:induction false} CutSearch(envelope: ToolCallResult, text: string, maxBytes: nat, middle: nat)
    requires PreviewCost(envelope)(text[..FloorBoundary(text, middle)]) > maxBytes
    ensures TooLongBeyond(envelope, text, maxBytes, middle - 1)
  {
    var boundary := FloorBoundary(text, middle);
    if PrefixMonotone(PreviewCost(envelope), text) {
      forall j | 0 <= j <= |text| && ByteLength(text[..j]) > middle - 1
        ensures PreviewCost(envelope)(text[..j]) > maxBytes
      {
        if j < boundary { ByteLengthGrows(text, j, boundary); }
        assert PreviewCost(envelope)(text[..boundary]) <= PreviewCost(envelope)(text[..j]);
      }
    }
  }

  lemma {:induction false} SearchDone(envelope: ToolCallResult, text: string, maxBytes: nat, high: nat)
    requires TooLongBeyond(envelope, text, maxBytes, high)
    ensures LongestPreview(envelope, text, maxBytes, FloorBoundary(text, high))
  {
    var k := FloorBoundary(text, high);
    forall j | k < j <= |text|
      ensures ByteLength(text[..j]) > high
    {
      if k + 1 < j { ByteLengthGrows(text, k + 1, j); }
    }
  }

  /** `stored` fits: it is the whole result if that fits, else its envelope around the longest preview. */
  ghost predicate BoundedForStorage(result: ToolCallResult, maxBytes: nat, stored: ToolCallResult) {
    && ENCODED_LENGTH(stored) <= maxBytes
    && (ENCODED_LENGTH(result) <= maxBytes ==> stored == result)
    && (ENCODED_LENGTH(result) > maxBytes ==>
          && stored == Envelope(result, maxBytes).(content := stored.content)
          && exists k: nat :: LongestPreview(Envelope(result, maxBytes), result.content, maxBytes, k)
                      && stored.content == PREVIEW(result.content[..k]))
  }

  /** `bound_tool_result_for_storage`: a result that fits is untouched; one that does not keeps its id
      and name and the longest preview of its content that fits; it fails exactly when the bare
      envelope is too large. */
  method BoundToolResultForStorage(result: ToolCallResult, maxBytes: nat) returns (r: Result<ToolCallResult, EngineError>)
    ensures r.Err? <==> ENCODED_LENGTH(result) > maxBytes && ENCODED_LENGTH(Envelope(result, maxBytes)) > maxBytes
    ensures r.Err? ==> r.error == Configuration
    ensures r.Ok? ==> BoundedForStorage(result, maxBytes, r.value)
  {
    if ENCODED_LENGTH(result) <= maxBytes {
      return Ok(result);
    }
    var bounded := result;
    bounded := bounded.(summary := TruncateUtf8(bounded.summary, Minimum(maxBytes / 8, 4096)));
    var serialized := bounded.content;
    bounded := bounded.(content := PREVIEW(""));
    if ENCODED_LENGTH(bounded) > maxBytes {
      bounded := bounded.(summary := "");
    }
    if ENCODED_LENGTH(bounded) > maxBytes {
      return Err(Configuration);
    }
    var k := LongestPreviewFor(bounded, serialized, maxBytes);
    r := Ok(bounded.(content := PREVIEW(serialized[..k])));
  }

  /** The binary search over byte positions, each rounded down to a character boundary. */
  method LongestPreviewFor(envelope: ToolCallResult, serialized: string, maxBytes: nat) returns (best: nat)
    requires PreviewCost(envelope)("") <= maxBytes
    ensures LongestPreview(envelope, serialized, maxBytes, best) && PreviewCost(envelope)(serialized[..best]) <= maxBytes
  {
    hide PreviewCost, TooLongBeyond, ByteLength, LongestPreview;
    best := 0;
    assert serialized[..0] == "";
    var low: nat, high: nat := 0, ByteLength(serialized);
    FloorOfNothing(serialized);
    NothingBeyond(envelope, serialized, maxBytes);
    while low <= high
      invariant high <= ByteLength(serialized) && low <= high + 1
      invariant best <= |serialized| && PreviewCost(envelope)(serialized[..best]) <= maxBytes
      invariant best == if low == 0 then 0 else FloorBoundary(serialized, low - 1)
      invariant TooLongBeyond(envelope, serialized, maxBytes, high)
      decreases high + 1 - low
    {
      var middle: nat := low + (high - low) / 2;
      var boundary := FloorBoundary(serialized, middle);
      if PreviewCost(envelope)(serialized[..boundary]) <= maxBytes {
        best := boundary;
        if middle == ByteLength(serialized) {
          WholePreview(envelope, serialized, maxBytes);
          break;
        }
        low := middle + 1;
      } else {
        CutSearch(envelope, serialized, maxBytes, middle);
        if middle == 0 {
          break;
        }
        high := middle - 1;
      }
    }
    if low > high {
      SearchDone(envelope, serialized, maxBytes, high);
    }
  }

  lemma WholePreview(envelope: ToolCallResult, text: string, maxBytes: nat)
    ensures LongestPreview(envelope, text, maxBytes, |text|)
  {
  }

  lemma {:induction false} FloorOfNothing(text: string)
    ensures FloorBoundary(text, 0) == 0 && FloorBoundary(text, ByteLength(text)) == |text|
  {
    var k := FloorBoundary(text, 0);
    if k > 0 { ByteLengthGrows(text, 0, k); }
  }

  lemma {:induction false} NothingBeyond(envelope: ToolCallResult, text: string, maxBytes: nat)
    ensures TooLongBeyond(envelope, text, maxBytes, ByteLength(text))
  {
    forall j | 0 <= j <= |text|
      ensures ByteLength(text[..j]) <= ByteLength(text)
    {
      assert text[..|text|] == text;
      if j < |text| { ByteLengthGrows(text, j, |text|); }
    }
  }
}
