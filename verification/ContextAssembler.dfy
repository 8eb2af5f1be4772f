/** Packing the model's context: the newest session nodes, activated memory and tool summaries, each
    within its share of the budget, for an arbitrary token estimator. */
module ContextAssembler {
  import opened Domain
  import opened Conversation
  import T = Transcript

  datatype SessionNode = SessionNode(id: nat, text: string)

  datatype SessionWindowDecision = SessionWindowDecision(includedRawIds: seq<nat>, pushedOutRawIds: seq<nat>)

  datatype AssembledContext = AssembledContext(
    systemPrompt: string,
    sessionContext: seq<string>,
    memoryContext: seq<string>,
    toolContext: seq<string>,
    sessionWindow: SessionWindowDecision,
    totalEstimatedTokens: nat
  )

  const SCALE := 1_000_000

  /** The ratio as the fixed-point numerator it is rounded to. */
  type Ratio = n: nat | n <= SCALE witness 0

  /** `split_budget`: the share, rounded down. */
  function SplitBudget(remaining: nat, ratio: Ratio): (r: nat)
    ensures r * SCALE <= remaining * ratio < (r + 1) * SCALE
    ensures r <= remaining
    ensures ratio == 0 ==> r == 0
    ensures ratio == SCALE ==> r == remaining
  {
    SharesWithin(remaining, ratio);
    remaining * ratio / SCALE
  }

  lemma SharesWithin(remaining: nat, ratio: Ratio)
    ensures 0 <= remaining * ratio / SCALE <= remaining
    ensures ratio == SCALE ==> remaining * ratio / SCALE == remaining
  {
    assert 0 <= remaining * ratio;
    assert remaining * ratio <= remaining * SCALE by { MulOrder(remaining, ratio, SCALE); }
  }

  lemma MulOrder(a: nat, b: nat, c: nat)
    requires b <= c
    ensures a * b <= a * c
  {
  }

  function TextsTokens(estimate: Estimator, texts: seq<string>): nat {
    if texts == [] then 0 else TextsTokens(estimate, texts[..|texts| - 1]) + estimate(texts[|texts| - 1])
  }

  lemma {:induction false} TextsSnoc(estimate: Estimator, texts: seq<string>, text: string)
    ensures TextsTokens(estimate, texts + [text]) == TextsTokens(estimate, texts) + estimate(text)
  {
    assert (texts + [text])[..|texts|] == texts;
  }

  lemma {:induction false} TextsConcat(estimate: Estimator, a: seq<string>, b: seq<string>)
    ensures TextsTokens(estimate, a + b) == TextsTokens(estimate, a) + TextsTokens(estimate, b)
    decreases |b|
  {
    if b == [] {
      assert a + b == a;
    } else {
      assert (a + b)[..|a + b| - 1] == a + b[..|b| - 1];
      TextsConcat(estimate, a, b[..|b| - 1]);
    }
  }

  function TextsOf(nodes: seq<SessionNode>): (r: seq<string>)
    ensures |r| == |nodes| && forall i | 0 <= i < |nodes| :: r[i] == nodes[i].text
  {
    seq(|nodes|, i requires 0 <= i < |nodes| => nodes[i].text)
  }

  function IdsOf(nodes: seq<SessionNode>): (r: seq<nat>)
    ensures |r| == |nodes| && forall i | 0 <= i < |nodes| :: r[i] == nodes[i].id
  {
    seq(|nodes|, i requires 0 <= i < |nodes| => nodes[i].id)
  }

  /** From `cut` on everything fits, and one older node more would not. */
  ghost predicate LongestSuffix(estimate: Estimator, nodes: seq<SessionNode>, budget: nat, cut: nat) {
    && cut <= |nodes|
    && TextsTokens(estimate, TextsOf(nodes[cut..])) <= budget
    && (cut > 0 ==> TextsTokens(estimate, TextsOf(nodes[cut - 1..])) > budget)
  }

  lemma OneOlder(estimate: Estimator, nodes: seq<SessionNode>, i: nat)
    requires 0 < i <= |nodes|
    ensures TextsTokens(estimate, TextsOf(nodes[i - 1..])) == estimate(nodes[i - 1].text) + TextsTokens(estimate, TextsOf(nodes[i..]))
    ensures TextsOf(nodes[i - 1..]) == [nodes[i - 1].text] + TextsOf(nodes[i..])
    ensures IdsOf(nodes[i - 1..]) == [nodes[i - 1].id] + IdsOf(nodes[i..])
  {
    assert IdsOf(nodes[i - 1..]) == [nodes[i - 1].id] + IdsOf(nodes[i..]);
    assert TextsOf(nodes[i - 1..]) == [nodes[i - 1].text] + TextsOf(nodes[i..]);
    TextsConcat(estimate, [nodes[i - 1].text], TextsOf(nodes[i..]));
    TextsSnoc(estimate, [], nodes[i - 1].text);
    assert [] + [nodes[i - 1].text] == [nodes[i - 1].text];
  }

  /** `collect_session_context`: the longest suffix that fits is included, everything older is pushed
      out, and no node is lost or reordered. */
  method CollectSessionContext(nodes: seq<SessionNode>, estimate: Estimator, budget: nat)
    returns (context: seq<string>, decision: SessionWindowDecision)
    ensures decision.pushedOutRawIds + decision.includedRawIds == IdsOf(nodes)
    ensures var cut := |decision.pushedOutRawIds|;
            && LongestSuffix(estimate, nodes, budget, cut)
            && context == TextsOf(nodes[cut..]) && decision.includedRawIds == IdsOf(nodes[cut..])
  {
    hide Packed, LongestSuffix;
    var tokens: nat := 0;
    context := [];
    var includedIds: seq<nat> := [];
    var i := |nodes|;
    NothingPacked(estimate, nodes, budget);
    while i > 0
      invariant 0 <= i <= |nodes|
      invariant Packed(estimate, nodes, budget, i, tokens, context, includedIds)
    {
      var node := nodes[i - 1];
      var estimated := estimate(node.text);
      PackOneMore(estimate, nodes, budget, i, tokens, context, includedIds);
      if tokens + estimated > budget {
        decision := SessionWindowDecision(includedIds, IdsOf(nodes[..i]));
        PackingDone(estimate, nodes, budget, i, tokens, context, includedIds);
        return;
      }
      tokens := tokens + estimated;
      context := [node.text] + context;
      includedIds := [node.id] + includedIds;
      i := i - 1;
    }
    decision := SessionWindowDecision(includedIds, []);
    PackingDone(estimate, nodes, budget, 0, tokens, context, includedIds);
    assert IdsOf(nodes[..0]) == [];
  }

  /** The nodes from `i` on are packed. */
  ghost predicate Packed(estimate: Estimator, nodes: seq<SessionNode>, budget: nat, i: nat, tokens: nat, context: seq<string>, ids: seq<nat>) {
    && i <= |nodes|
    && tokens == TextsTokens(estimate, TextsOf(nodes[i..])) && tokens <= budget
    && context == TextsOf(nodes[i..]) && ids == IdsOf(nodes[i..])
  }

  lemma NothingPacked(estimate: Estimator, nodes: seq<SessionNode>, budget: nat)
    ensures Packed(estimate, nodes, budget, |nodes|, 0, [], [])
  {
    assert TextsOf(nodes[|nodes|..]) == [] && IdsOf(nodes[|nodes|..]) == [];
  }

  lemma PackOneMore(estimate: Estimator, nodes: seq<SessionNode>, budget: nat, i: nat, tokens: nat, context: seq<string>, ids: seq<nat>)
    requires 0 < i && Packed(estimate, nodes, budget, i, tokens, context, ids)
    ensures var node := nodes[i - 1];
            && TextsTokens(estimate, TextsOf(nodes[i - 1..])) == tokens + estimate(node.text)
            && (tokens + estimate(node.text) <= budget ==>
                  Packed(estimate, nodes, budget, i - 1, tokens + estimate(node.text), [node.text] + context, [node.id] + ids))
  {
    hide TextsTokens, TextsOf, IdsOf;
    OneOlder(estimate, nodes, i);
  }

  lemma PackingDone(estimate: Estimator, nodes: seq<SessionNode>, budget: nat, i: nat, tokens: nat, context: seq<string>, ids: seq<nat>)
    requires Packed(estimate, nodes, budget, i, tokens, context, ids)
    requires i == 0 || TextsTokens(estimate, TextsOf(nodes[i - 1..])) > budget
    ensures IdsOf(nodes[..i]) + ids == IdsOf(nodes) && LongestSuffix(estimate, nodes, budget, i)
    ensures context == TextsOf(nodes[i..]) && ids == IdsOf(nodes[i..])
  {
    hide TextsTokens;
    assert nodes == nodes[..i] + nodes[i..];
  }

  lemma NoTexts(estimate: Estimator)
    ensures TextsTokens(estimate, []) == 0
  {
  }

  /** The first `n` texts fit, and the next one would not. */
  ghost predicate LongestPrefix(estimate: Estimator, texts: seq<string>, budget: nat, n: nat) {
    && n <= |texts|
    && TextsTokens(estimate, texts[..n]) <= budget
    && (n < |texts| ==> TextsTokens(estimate, texts[..n + 1]) > budget)
  }

  /** The accumulate-until-full loop of the memory and tool collectors. */
  method CollectPrefix(texts: seq<string>, estimate: Estimator, budget: nat) returns (context: seq<string>, tokens: nat)
    ensures context <= texts && LongestPrefix(estimate, texts, budget, |context|)
    ensures tokens == TextsTokens(estimate, context) <= budget
  {
    hide TextsTokens;
    tokens, context := 0, [];
    NoTexts(estimate);
    assert texts[..0] == [];
    for i := 0 to |texts|
      invariant context == texts[..i] && tokens == TextsTokens(estimate, context) <= budget
    {
      var estimated := estimate(texts[i]);
      assert texts[..i + 1] == texts[..i] + [texts[i]];
      TextsSnoc(estimate, texts[..i], texts[i]);
      if tokens + estimated > budget {
        return;
      }
      tokens := tokens + estimated;
      context := context + [texts[i]];
    }
  }

  /** As many abstract texts as fit, then as many raw ones as still fit. */
  ghost predicate MemoryPacked(estimate: Estimator, abstracts: seq<string>, raws: seq<string>, budget: nat, context: seq<string>) {
    exists n: nat, m: nat ::
      && LongestPrefix(estimate, abstracts, budget, n)
      && LongestPrefix(estimate, raws, budget - TextsTokens(estimate, abstracts[..n]), m)
      && context == abstracts[..n] + raws[..m]
  }

  /** `collect_memory_context`: as many abstract nodes as fit, then as many raw nodes as still fit;
      running out of room for abstracts does not keep raw nodes out. */
  method CollectMemoryContext(abstracts: seq<string>, raws: seq<string>, estimate: Estimator, budget: nat) returns (context: seq<string>)
    ensures TextsTokens(estimate, context) <= budget
    ensures MemoryPacked(estimate, abstracts, raws, budget, context)
  {
    hide TextsTokens;
    var front, used := CollectPrefix(abstracts, estimate, budget);
    var back, more := CollectPrefix(raws, estimate, budget - used);
    assert front == abstracts[..|front|] && back == raws[..|back|];
    TextsConcat(estimate, front, back);
    context := front + back;
  }

  /** `assemble`: the total is at most the system prompt, the remaining budget and the tool reserve; so
      it respects the total budget whenever the system prompt keeps to its reserve. */
  method Assemble(c: T.ContextBudget, sessionRatio: Ratio, estimate: Estimator, systemPrompt: string, session: seq<SessionNode>,
                  abstracts: seq<string>, raws: seq<string>, summaries: seq<string>)
    returns (r: AssembledContext)
    ensures r.systemPrompt == systemPrompt
    ensures r.totalEstimatedTokens == estimate(systemPrompt) + TextsTokens(estimate, r.sessionContext)
                                      + TextsTokens(estimate, r.memoryContext) + TextsTokens(estimate, r.toolContext)
    ensures r.totalEstimatedTokens <= estimate(systemPrompt) + T.RemainingTokens(c) + c.reserveTools
    ensures estimate(systemPrompt) <= c.reserveSystem && c.reserveSystem + c.reserveTools + c.reserveWorking <= c.totalTokens ==>
              r.totalEstimatedTokens + c.reserveWorking <= c.totalTokens
    ensures r.sessionWindow.pushedOutRawIds + r.sessionWindow.includedRawIds == IdsOf(session)
    ensures LongestSuffix(estimate, session, SplitBudget(T.RemainingTokens(c), sessionRatio), |r.sessionWindow.pushedOutRawIds|)
    ensures r.sessionContext == TextsOf(session[|r.sessionWindow.pushedOutRawIds|..])
    ensures MemoryPacked(estimate, abstracts, raws, T.RemainingTokens(c) - SplitBudget(T.RemainingTokens(c), sessionRatio), r.memoryContext)
    ensures r.toolContext <= summaries && LongestPrefix(estimate, summaries, c.reserveTools, |r.toolContext|)
  {
    hide TextsTokens;
    var remaining := T.RemainingTokens(c);
    var sessionBudget := SplitBudget(remaining, sessionRatio);
    hide SplitBudget, MemoryPacked;
    var memoryBudget := Minus(remaining, sessionBudget);
    var sessionContext, decision := CollectSessionContext(session, estimate, sessionBudget);
    var memoryContext := CollectMemoryContext(abstracts, raws, estimate, memoryBudget);
    var toolContext, _ := CollectPrefix(summaries, estimate, c.reserveTools);
    var sessionTokens := SumTexts(estimate, sessionContext);
    var memoryTokens := SumTexts(estimate, memoryContext);
    var toolTokens := SumTexts(estimate, toolContext);
    r := AssembledContext(systemPrompt, sessionContext, memoryContext, toolContext, decision,
                          estimate(systemPrompt) + sessionTokens + memoryTokens + toolTokens);
  }

  method SumTexts(estimate: Estimator, texts: seq<string>) returns (tokens: nat)
    ensures tokens == TextsTokens(estimate, texts)
  {
    tokens := 0;
    for i := 0 to |texts|
      invariant tokens == TextsTokens(estimate, texts[..i])
    {
      tokens := tokens + estimate(texts[i]);
      assert texts[..i + 1][..i] == texts[..i];
    }
    assert texts[..|texts|] == texts;
  }
}
