/** Grouping conversation history into coherent exchanges and trimming it to a budget. */
module Transcript {
  import opened Domain
  import opened Conversation

  type Group = seq<ConversationMessage>

  predicate RequestsTools(m: ConversationMessage) {
    m.role == AssistantRole && m.toolCalls != []
  }

  /** The usable call ids of an assistant message. */
  function ExpectedIds(calls: seq<ToolCallRequest>): set<string> {
    set call | call in calls && call.id.Some? && !Blank(call.id.value) :: call.id.value
  }

  function LeadingTools(h: seq<ConversationMessage>): (n: nat)
    ensures n <= |h|
    ensures forall i | 0 <= i < n :: h[i].role == ToolRole
    ensures n < |h| ==> h[n].role != ToolRole
  {
    if h == [] || h[0].role != ToolRole then 0 else 1 + LeadingTools(h[1..])
  }

  /** The first result for each expected id, in order of arrival. */
  function FirstResults(expected: set<string>, tools: seq<ConversationMessage>, seen: set<string>): seq<ConversationMessage>
    decreases |tools|
  {
    if tools == [] then []
    else if tools[0].toolCallId.Some? && tools[0].toolCallId.value in expected && tools[0].toolCallId.value !in seen then
      [tools[0]] + FirstResults(expected, tools[1..], seen + {tools[0].toolCallId.value})
    else
      FirstResults(expected, tools[1..], seen)
  }

  function SeenIds(expected: set<string>, tools: seq<ConversationMessage>): set<string> {
    set m | m in tools && m.toolCallId.Some? && m.toolCallId.value in expected :: m.toolCallId.value
  }

  /** What one assistant message with tool calls and the tool messages after it become. */
  function ExchangeGroups(m: ConversationMessage, tools: seq<ConversationMessage>): seq<Group> {
    var expected := ExpectedIds(m.toolCalls);
    if |expected| == |m.toolCalls| && |SeenIds(expected, tools)| == |expected| then
      [[m] + FirstResults(expected, tools, {})]
    else if !Blank(m.content) then
      [[m.(toolCalls := [])]]
    else
      []
  }

  /** `coherent_conversation_groups` */
  function Groups(h: seq<ConversationMessage>): seq<Group>
    decreases |h|
  {
    if h == [] then []
    else if h[0].role == ToolRole then Groups(h[1..])
    else if !RequestsTools(h[0]) then [[h[0]]] + Groups(h[1..])
    else
      var n := LeadingTools(h[1..]);
      ExchangeGroups(h[0], h[1..1 + n]) + Groups(h[1 + n..])
  }

  // ---------------------------------------------------------------- the loops

  method CollectResults(history: seq<ConversationMessage>, index: nat, expected: set<string>)
    returns (results: seq<ConversationMessage>, seen: set<string>, next: nat)
    requires index < |history|
    ensures var n := LeadingTools(history[index + 1..]);
            && next == index + 1 + n
            && results == FirstResults(expected, history[index + 1..next], {})
            && seen == SeenIds(expected, history[index + 1..next])
  {
    hide FirstResults, SeenIds, LeadingTools;
    results, seen, next := [], {}, index + 1;
    ghost var n := LeadingTools(history[index + 1..]);
    ghost var tools := history[index + 1..index + 1 + n];
    assert tools == history[index + 1..][..n];
    assert tools[0..] == tools;
    NothingSeen(expected);
    while next < |history| && history[next].role == ToolRole
      invariant index + 1 <= next <= index + 1 + n
      invariant results + FirstResults(expected, tools[next - index - 1..], seen) == FirstResults(expected, tools, {})
      invariant seen == SeenIds(expected, tools[..next - index - 1])
    {
      ToolAt(history, index, next);
      CollectStep(expected, tools, next - index - 1, results, seen);
      var id := history[next].toolCallId;
      if id.Some? {
        if id.value in expected && id.value !in seen {
          seen := seen + {id.value};
          results := results + [history[next]];
        }
      }
      next := next + 1;
    }
    if next < |history| {
      ToolAt(history, index, next);
    }
    assert tools[n..] == [] && tools[..n] == tools;
    NothingLeft(expected, seen);
  }

  lemma {:induction false} NothingLeft(expected: set<string>, seen: set<string>)
    ensures FirstResults(expected, [], seen) == []
  {
  }

  lemma {:induction false} NothingSeen(expected: set<string>)
    ensures SeenIds(expected, []) == {} && FirstResults(expected, [], {}) == []
  {
  }

  lemma ToolAt(history: seq<ConversationMessage>, index: nat, next: nat)
    requires index < next < |history| && next <= index + 1 + LeadingTools(history[index + 1..])
    ensures var n := LeadingTools(history[index + 1..]);
            && (history[next].role == ToolRole <==> next < index + 1 + n)
            && (next < index + 1 + n ==> history[index + 1..index + 1 + n][next - index - 1] == history[next])
  {
    assert history[index + 1..][next - index - 1] == history[next];
  }

  lemma {:induction false} CollectStep(expected: set<string>, tools: seq<ConversationMessage>, k: nat, results: seq<ConversationMessage>, seen: set<string>)
    requires k < |tools| && seen == SeenIds(expected, tools[..k])
    ensures var id := tools[k].toolCallId;
            if id.Some? && id.value in expected && id.value !in seen then
              && SeenIds(expected, tools[..k + 1]) == seen + {id.value}
              && results + FirstResults(expected, tools[k..], seen)
                 == results + [tools[k]] + FirstResults(expected, tools[k + 1..], seen + {id.value})
            else
              && SeenIds(expected, tools[..k + 1]) == seen
              && FirstResults(expected, tools[k..], seen) == FirstResults(expected, tools[k + 1..], seen)
  {
    assert tools[k..][0] == tools[k] && tools[k..][1..] == tools[k + 1..];
    SeenStep(expected, tools, k);
  }

  lemma SeenStep(expected: set<string>, tools: seq<ConversationMessage>, k: nat)
    requires k < |tools|
    ensures var id := tools[k].toolCallId;
            SeenIds(expected, tools[..k + 1])
            == SeenIds(expected, tools[..k]) + if id.Some? && id.value in expected then {id.value} else {}
  {
    assert tools[..k + 1] == tools[..k] + [tools[k]];
  }

  /** `coherent_conversation_groups`, as the source loops. */
  method CoherentConversationGroups(history: seq<ConversationMessage>) returns (groups: seq<Group>)
    ensures groups == Groups(history)
  {
    groups := [];
    var index := 0;
    assert history[0..] == history;
    while index < |history|
      invariant 0 <= index <= |history|
      invariant groups + Groups(history[index..]) == Groups(history)
    {
      var message := history[index];
      ghost var before := groups;
      assert history[index..][0] == message && history[index..][1..] == history[index + 1..];
      if message.role == ToolRole {
        index := index + 1;
      } else if message.role != AssistantRole || message.toolCalls == [] {
        Regroup(groups, [[message]], Groups(history[index + 1..]));
        groups := groups + [[message]];
        index := index + 1;
      } else {
        var expected := ExpectedIds(message.toolCalls);
        var results, seen, next := CollectResults(history, index, expected);
        NextExchange(history, index, next);
        Regroup(groups, ExchangeGroups(message, history[index + 1..next]), Groups(history[next..]));
        if |expected| == |message.toolCalls| && |seen| == |expected| {
          groups := groups + [[message] + results];
        } else if !Blank(message.content) {
          groups := groups + [[message.(toolCalls := [])]];
        } else {
          assert groups + [] == groups;
        }
        index := next;
      }
    }
    assert history[index..] == [];
  }

  lemma NextExchange(history: seq<ConversationMessage>, index: nat, next: nat)
    requires index < |history| && RequestsTools(history[index]) && next == index + 1 + LeadingTools(history[index + 1..])
    ensures Groups(history[index..]) == ExchangeGroups(history[index], history[index + 1..next]) + Groups(history[next..])
  {
    var h := history[index..];
    assert h[1..] == history[index + 1..];
    var n := LeadingTools(h[1..]);
    assert h[1..1 + n] == history[index + 1..next] && h[1 + n..] == history[next..];
  }

  lemma Regroup(a: seq<Group>, b: seq<Group>, c: seq<Group>)
    ensures a + (b + c) == (a + b) + c
  {
  }

  // ---------------------------------------------------------------- coherence

  predicate PlainGroup(g: Group) {
    |g| == 1 && g[0].role != ToolRole && !RequestsTools(g[0])
  }

  /** An assistant message whose calls all carry different usable ids, and exactly one result each. */
  ghost predicate Exchange(g: Group) {
    && |g| >= 1 && RequestsTools(g[0])
    && |ExpectedIds(g[0].toolCalls)| == |g[0].toolCalls|
    && (forall i | 1 <= i < |g| :: g[i].role == ToolRole && g[i].toolCallId.Some? && g[i].toolCallId.value in ExpectedIds(g[0].toolCalls))
    && (forall i, j | 1 <= i < j < |g| :: g[i].toolCallId != g[j].toolCallId)
    && (forall id | id in ExpectedIds(g[0].toolCalls) :: exists i :: 1 <= i < |g| && g[i].toolCallId == Some(id))
  }

  ghost predicate CoherentGroup(g: Group) {
    PlainGroup(g) || Exchange(g)
  }

  ghost predicate AllCoherent(groups: seq<Group>) {
    forall i | 0 <= i < |groups| :: CoherentGroup(groups[i])
  }

  function Flatten(groups: seq<Group>): seq<ConversationMessage> {
    if groups == [] then [] else groups[0] + Flatten(groups[1..])
  }

  /** A history made of plain messages and complete exchanges only. */
  ghost predicate Coherent(h: seq<ConversationMessage>) {
    exists groups :: AllCoherent(groups) && Flatten(groups) == h
  }

  ghost predicate AreResults(r: seq<ConversationMessage>, expected: set<string>, seen: set<string>) {
    && (forall i | 0 <= i < |r| :: r[i].role == ToolRole && r[i].toolCallId.Some?
                                && r[i].toolCallId.value in expected && r[i].toolCallId.value !in seen)
    && (forall i, j | 0 <= i < j < |r| :: r[i].toolCallId != r[j].toolCallId)
  }

  lemma {:induction false} FirstResultsFacts(expected: set<string>, tools: seq<ConversationMessage>, seen: set<string>)
    requires forall m | m in tools :: m.role == ToolRole
    ensures var r := FirstResults(expected, tools, seen);
            && AreResults(r, expected, seen)
            && (forall id | id in SeenIds(expected, tools) && id !in seen :: exists i :: 0 <= i < |r| && r[i].toolCallId == Some(id))
    decreases |tools|
  {
    if tools != [] {
      assert tools == [tools[0]] + tools[1..];
      var id := tools[0].toolCallId;
      if id.Some? && id.value in expected && id.value !in seen {
        var rest := FirstResults(expected, tools[1..], seen + {id.value});
        FirstResultsFacts(expected, tools[1..], seen + {id.value});
        var r := FirstResults(expected, tools, seen);
        assert r == [tools[0]] + rest;
        forall x | x in SeenIds(expected, tools) && x !in seen
          ensures exists i :: 0 <= i < |r| && r[i].toolCallId == Some(x)
        {
          if x == id.value {
            assert r[0].toolCallId == Some(x);
          } else {
            assert x in SeenIds(expected, tools[1..]);
            var i :| 0 <= i < |rest| && rest[i].toolCallId == Some(x);
            assert r[i + 1] == rest[i];
          }
        }
      } else {
        var r, rest := FirstResults(expected, tools, seen), FirstResults(expected, tools[1..], seen);
        FirstResultsFacts(expected, tools[1..], seen);
        assert r == rest;
        forall x | x in SeenIds(expected, tools) && x !in seen
          ensures x in SeenIds(expected, tools[1..])
        {
        }
      }
    }
  }

  lemma ExchangeIsCoherent(m: ConversationMessage, tools: seq<ConversationMessage>)
    requires RequestsTools(m) && forall x | x in tools :: x.role == ToolRole
    ensures AllCoherent(ExchangeGroups(m, tools))
  {
    var expected := ExpectedIds(m.toolCalls);
    if |expected| == |m.toolCalls| && |SeenIds(expected, tools)| == |expected| {
      var results := FirstResults(expected, tools, {});
      FirstResultsFacts(expected, tools, {});
      FullSubset(SeenIds(expected, tools), expected);
      var g := [m] + results;
      forall id | id in expected
        ensures exists i :: 1 <= i < |g| && g[i].toolCallId == Some(id)
      {
        var i :| 0 <= i < |results| && results[i].toolCallId == Some(id);
        assert g[i + 1] == results[i];
      }
      assert Exchange(g);
    }
  }

  lemma FullSubset(a: set<string>, b: set<string>)
    requires a <= b && |a| == |b|
    ensures a == b
  {
    assert b == a + (b - a);
  }

  lemma ToolsOnly(h: seq<ConversationMessage>)
    requires h != []
    ensures forall x | x in h[1..1 + LeadingTools(h[1..])] :: x.role == ToolRole
  {
    var n := LeadingTools(h[1..]);
    forall x | x in h[1..1 + n]
      ensures x.role == ToolRole
    {
      var i :| 0 <= i < n && h[1..1 + n][i] == x;
      assert h[1..][i] == x;
    }
  }

  /** Grouping any history yields coherent groups only: no orphan result, no incomplete exchange. */
  lemma {:induction false} GroupsCoherent(h: seq<ConversationMessage>)
    ensures AllCoherent(Groups(h))
    decreases |h|
  {
    if h != [] {
      if h[0].role == ToolRole || !RequestsTools(h[0]) {
        GroupsCoherent(h[1..]);
      } else {
        var n := LeadingTools(h[1..]);
        ToolsOnly(h);
        ExchangeIsCoherent(h[0], h[1..1 + n]);
        GroupsCoherent(h[1 + n..]);
      }
    }
  }

  // ---------------------------------------------------------------- regrouping

  lemma {:induction false} AllTaken(expected: set<string>, results: seq<ConversationMessage>, seen: set<string>)
    requires forall i | 0 <= i < |results| :: results[i].toolCallId.Some? && results[i].toolCallId.value in expected
                                           && results[i].toolCallId.value !in seen
    requires forall i, j | 0 <= i < j < |results| :: results[i].toolCallId != results[j].toolCallId
    ensures FirstResults(expected, results, seen) == results
    decreases |results|
  {
    if results != [] {
      AllTaken(expected, results[1..], seen + {results[0].toolCallId.value});
    }
  }

  lemma ExchangeSeen(g: Group)
    requires Exchange(g)
    ensures SeenIds(ExpectedIds(g[0].toolCalls), g[1..]) == ExpectedIds(g[0].toolCalls)
  {
    hide ExpectedIds;
    var expected := ExpectedIds(g[0].toolCalls);
    var results := g[1..];
    forall id | id in expected
      ensures id in SeenIds(expected, results)
    {
      var i :| 1 <= i < |g| && g[i].toolCallId == Some(id);
      assert results[i - 1] == g[i] && results[i - 1] in results;
    }
  }

  lemma ExchangeResults(g: Group)
    requires Exchange(g)
    ensures FirstResults(ExpectedIds(g[0].toolCalls), g[1..], {}) == g[1..]
  {
    hide ExpectedIds;
    AllTaken(ExpectedIds(g[0].toolCalls), g[1..], {});
  }

  lemma ExchangeRegroups(g: Group)
    requires Exchange(g)
    ensures ExchangeGroups(g[0], g[1..]) == [g]
  {
    hide ExpectedIds, SeenIds, FirstResults;
    ExchangeSeen(g);
    ExchangeResults(g);
    assert [g[0]] + g[1..] == g;
  }

  lemma {:induction false} FlattenStartsOutside(groups: seq<Group>)
    requires AllCoherent(groups)
    ensures Flatten(groups) != [] ==> Flatten(groups)[0].role != ToolRole
  {
  }

  lemma {:induction false} ToolsUpTo(h: seq<ConversationMessage>, n: nat)
    requires n <= |h| && (forall i | 0 <= i < n :: h[i].role == ToolRole) && (n < |h| ==> h[n].role != ToolRole)
    ensures LeadingTools(h) == n
    decreases n
  {
    if n > 0 {
      ToolsUpTo(h[1..], n - 1);
    }
  }

  /** Grouping and flattening are inverse on coherent histories. */
  lemma {:induction false} GroupsOfFlatten(groups: seq<Group>)
    requires AllCoherent(groups)
    ensures Groups(Flatten(groups)) == groups
    decreases |groups|
  {
    if groups != [] {
      var g, rest := groups[0], groups[1..];
      var h := Flatten(groups);
      assert CoherentGroup(g) && AllCoherent(rest);
      assert h == g + Flatten(rest);
      GroupsOfFlatten(rest);
      if PlainGroup(g) {
        assert h[1..] == Flatten(rest) && [h[0]] == g;
      } else {
        FlattenStartsOutside(rest);
        var tail := h[1..];
        assert tail == g[1..] + Flatten(rest);
        assert forall i | 0 <= i < |g| - 1 :: tail[i] == g[i + 1];
        ToolsUpTo(tail, |g| - 1);
        assert h[1..1 + (|g| - 1)] == g[1..] && h[1 + (|g| - 1)..] == Flatten(rest);
        ExchangeRegroups(g);
      }
      assert groups == [g] + rest;
    }
  }

  /** Grouping a coherent history loses nothing. */
  lemma {:induction false} CoherentIsKept(h: seq<ConversationMessage>)
    ensures Coherent(h) <==> Flatten(Groups(h)) == h
  {
    GroupsCoherent(h);
    if Coherent(h) {
      var groups :| AllCoherent(groups) && Flatten(groups) == h;
      GroupsOfFlatten(groups);
    }
  }

  // ---------------------------------------------------------------- nothing said is lost

  datatype Utterance = Utterance(role: ConversationRole, content: string)

  /** Every non-blank text that is not a tool result, in order. */
  function Said(h: seq<ConversationMessage>): seq<Utterance> {
    if h == [] then []
    else (if h[0].role != ToolRole && !Blank(h[0].content) then [Utterance(h[0].role, h[0].content)] else []) + Said(h[1..])
  }

  lemma {:induction false} SaidConcat(a: seq<ConversationMessage>, b: seq<ConversationMessage>)
    ensures Said(a + b) == Said(a) + Said(b)
    decreases |a|
  {
    if a == [] {
      assert a + b == b;
    } else {
      assert (a + b)[1..] == a[1..] + b;
      SaidConcat(a[1..], b);
    }
  }

  lemma {:induction false} ToolsSayNothing(tools: seq<ConversationMessage>)
    requires forall i | 0 <= i < |tools| :: tools[i].role == ToolRole
    ensures Said(tools) == []
    decreases |tools|
  {
    if tools != [] {
      ToolsSayNothing(tools[1..]);
    }
  }

  lemma ExchangeSays(m: ConversationMessage, tools: seq<ConversationMessage>)
    requires RequestsTools(m) && forall x | x in tools :: x.role == ToolRole
    ensures Said(Flatten(ExchangeGroups(m, tools))) == Said([m])
  {
    var results := FirstResults(ExpectedIds(m.toolCalls), tools, {});
    FirstResultsFacts(ExpectedIds(m.toolCalls), tools, {});
    ToolsSayNothing(results);
    SaidConcat([m], results);
    assert Flatten([[m] + results]) == [m] + results;
    assert Flatten([[m.(toolCalls := [])]]) == [m.(toolCalls := [])];
  }

  /** Grouping only ever drops tool traffic: what was said survives, in order, even where an
      exchange was incomplete. */
  lemma {:induction false} GroupingKeepsWhatWasSaid(h: seq<ConversationMessage>)
    ensures Said(Flatten(Groups(h))) == Said(h)
    decreases |h|
  {
    if h != [] {
      if h[0].role == ToolRole {
        GroupingKeepsWhatWasSaid(h[1..]);
      } else if !RequestsTools(h[0]) {
        GroupingKeepsWhatWasSaid(h[1..]);
        FlattenConcat([[h[0]]], Groups(h[1..]));
        SaidConcat([h[0]], Flatten(Groups(h[1..])));
        assert Flatten([[h[0]]]) == [h[0]];
      } else {
        ExchangeKeepsWhatWasSaid(h);
      }
    }
  }

  lemma {:induction false} ExchangeKeepsWhatWasSaid(h: seq<ConversationMessage>)
    requires h != [] && RequestsTools(h[0])
    ensures Said(Flatten(Groups(h))) == Said(h)
    decreases |h|, 0
  {
    hide Said, Groups, Flatten, ExchangeGroups, LeadingTools;
    var n := LeadingTools(h[1..]);
    var tools, rest := h[1..1 + n], h[1 + n..];
    assert h[0..] == h;
    NextExchange(h, 0, 1 + n);
    ToolsOnly(h);
    GroupingKeepsWhatWasSaid(rest);
    ExchangeSays(h[0], tools);
    FlattenConcat(ExchangeGroups(h[0], tools), Groups(rest));
    SaidConcat(Flatten(ExchangeGroups(h[0], tools)), Flatten(Groups(rest)));
    assert h == [h[0]] + (tools + rest);
    SaidConcat([h[0]], tools + rest);
    SaidConcat(tools, rest);
    ToolsSayNothing(tools);
  }

  /** The result at `i` follows, with other results only in between, the message at `j` that asked for it. */
  ghost predicate Answers(h: seq<ConversationMessage>, i: nat, j: nat)
    requires i < |h|
  {
    && j < i && RequestsTools(h[j]) && (forall k | j < k <= i :: h[k].role == ToolRole)
    && h[i].toolCallId.Some? && h[i].toolCallId.value in ExpectedIds(h[j].toolCalls)
  }

  lemma AnswersFurther(g: Group, t: seq<ConversationMessage>, i: nat, j: nat)
    requires i < |t| && Answers(t, i, j)
    ensures Answers(g + t, |g| + i, |g| + j)
  {
    forall k | |g| + j < k <= |g| + i
      ensures (g + t)[k].role == ToolRole
    {
      assert (g + t)[k] == t[k - |g|];
    }
  }

  lemma AnswersWithin(g: Group, t: seq<ConversationMessage>, i: nat)
    requires CoherentGroup(g) && i < |g| && g[i].role == ToolRole
    ensures Answers(g + t, i, 0)
  {
    assert Exchange(g);
    forall k | 0 < k <= i
      ensures (g + t)[k].role == ToolRole
    {
      assert (g + t)[k] == g[k];
    }
  }

  /** No orphans: in a coherent history every tool result answers an earlier message. */
  lemma {:induction false} NoOrphanResults(groups: seq<Group>, i: nat)
    requires AllCoherent(groups) && i < |Flatten(groups)| && Flatten(groups)[i].role == ToolRole
    ensures exists j: nat :: Answers(Flatten(groups), i, j)
    decreases |groups|
  {
    var g, rest := groups[0], groups[1..];
    assert CoherentGroup(g) && AllCoherent(rest);
    if i < |g| {
      AnswersWithin(g, Flatten(rest), i);
    } else {
      NoOrphanResults(rest, i - |g|);
      var j: nat :| Answers(Flatten(rest), i - |g|, j);
      AnswersFurther(g, Flatten(rest), i - |g|, j);
    }
  }

  /** A complete exchange starts at `j`. */
  ghost predicate Completed(h: seq<ConversationMessage>, j: nat, k: nat) {
    j < k <= |h| && Exchange(h[j..k])
  }

  lemma CompletedFurther(g: Group, t: seq<ConversationMessage>, j: nat, k: nat)
    requires Completed(t, j, k)
    ensures Completed(g + t, |g| + j, |g| + k)
  {
    assert (g + t)[|g| + j..|g| + k] == t[j..k];
  }

  lemma OnlyHeadsRequest(g: Group, j: nat)
    requires CoherentGroup(g) && j < |g| && RequestsTools(g[j])
    ensures j == 0 && Exchange(g)
  {
  }

  /** In a coherent history every assistant message with calls is followed by exactly one result per
      call. */
  lemma {:induction false} NoIncompleteExchange(groups: seq<Group>, j: nat)
    requires AllCoherent(groups) && j < |Flatten(groups)| && RequestsTools(Flatten(groups)[j])
    ensures exists k: nat :: Completed(Flatten(groups), j, k)
    decreases |groups|
  {
    hide Exchange;
    var g, rest := groups[0], groups[1..];
    assert CoherentGroup(g) && AllCoherent(rest);
    if j < |g| {
      OnlyHeadsRequest(g, j);
      assert (g + Flatten(rest))[0..|g|] == g;
      assert Completed(Flatten(groups), 0, |g|);
    } else {
      NoIncompleteExchange(rest, j - |g|);
      var k: nat :| Completed(Flatten(rest), j - |g|, k);
      CompletedFurther(g, Flatten(rest), j - |g|, k);
    }
  }

  // ---------------------------------------------------------------- trimming

  function GroupTokens(estimate: Estimator, groups: seq<Group>): nat {
    if groups == [] then 0 else MessagesTokens(estimate, groups[0]) + GroupTokens(estimate, groups[1..])
  }

  /** How many of the newest groups fit together: walk back until one does not. */
  function Fitting(estimate: Estimator, groups: seq<Group>, budget: nat): (n: nat)
    ensures n <= |groups|
  {
    if groups == [] then 0
    else
      var tokens := MessagesTokens(estimate, groups[|groups| - 1]);
      if tokens > budget then 0 else 1 + Fitting(estimate, groups[..|groups| - 1], budget - tokens)
  }

  function Kept(estimate: Estimator, groups: seq<Group>, budget: nat): seq<Group> {
    groups[|groups| - Fitting(estimate, groups, budget)..]
  }

  datatype ContextBudget = ContextBudget(totalTokens: nat, reserveSystem: nat, reserveTools: nat, reserveWorking: nat)

  /** `remaining_tokens` */
  function RemainingTokens(c: ContextBudget): nat {
    Minus(Minus(Minus(c.totalTokens, c.reserveSystem), c.reserveTools), c.reserveWorking)
  }

  /** Prompt text beyond its reserves is charged to the session share. */
  function FixedSessionTokens(c: ContextBudget, estimate: Estimator, systemPrompt: string, userMessage: string, plan: Option<string>): nat {
    var working := estimate(userMessage) + if plan.Some? then estimate(plan.value) else 0;
    Minus(working, c.reserveWorking) + Minus(estimate(systemPrompt), c.reserveSystem)
  }

  datatype TrimError = FixedPromptTooLarge

  function Trimmed(h: seq<ConversationMessage>, estimate: Estimator, available: nat, fixed: nat): Result<seq<ConversationMessage>, TrimError> {
    if fixed > available then Err(FixedPromptTooLarge) else Ok(Flatten(Kept(estimate, Groups(h), available - fixed)))
  }

  lemma {:induction false} FlattenConcat(a: seq<Group>, b: seq<Group>)
    ensures Flatten(a + b) == Flatten(a) + Flatten(b)
    decreases |a|
  {
    if a == [] {
      assert a + b == b;
    } else {
      assert (a + b)[1..] == a[1..] + b;
      FlattenConcat(a[1..], b);
    }
  }

  lemma {:induction false} GroupTokensAre(estimate: Estimator, groups: seq<Group>)
    ensures GroupTokens(estimate, groups) == MessagesTokens(estimate, Flatten(groups))
    decreases |groups|
  {
    if groups != [] {
      GroupTokensAre(estimate, groups[1..]);
      MessagesTokensConcat(estimate, groups[0], Flatten(groups[1..]));
    }
  }

  lemma {:induction false} GroupTokensConcat(estimate: Estimator, a: seq<Group>, b: seq<Group>)
    ensures GroupTokens(estimate, a + b) == GroupTokens(estimate, a) + GroupTokens(estimate, b)
    decreases |a|
  {
    if a == [] {
      assert a + b == b;
    } else {
      assert (a + b)[1..] == a[1..] + b;
      GroupTokensConcat(estimate, a[1..], b);
    }
  }

  /** Tokens of the newest `n` groups. */
  function NewestTokens(estimate: Estimator, groups: seq<Group>, n: nat): nat
    requires n <= |groups|
  {
    GroupTokens(estimate, groups[|groups| - n..])
  }

  lemma NoGroups(estimate: Estimator, groups: seq<Group>)
    ensures NewestTokens(estimate, groups, 0) == 0
  {
    assert groups[|groups|..] == [];
  }

  /** The newest group and `m` more. */
  lemma {:induction false} NewestAndMore(estimate: Estimator, groups: seq<Group>, m: nat)
    requires m < |groups|
    ensures NewestTokens(estimate, groups, m + 1)
         == NewestTokens(estimate, groups[..|groups| - 1], m) + MessagesTokens(estimate, groups[|groups| - 1])
  {
    hide MessagesTokens;
    var front, last := groups[..|groups| - 1], groups[|groups| - 1];
    assert groups[|groups| - (m + 1)..] == front[|front| - m..] + [last];
    GroupTokensConcat(estimate, front[|front| - m..], [last]);
    OneGroup(estimate, last);
  }

  lemma {:induction false} OneGroup(estimate: Estimator, g: Group)
    ensures GroupTokens(estimate, [g]) == MessagesTokens(estimate, g)
  {
    assert [g][1..] == [];
  }

  /** The kept groups fit, and one more would not. */
  lemma {:induction false} FittingIsMaximal(estimate: Estimator, groups: seq<Group>, budget: nat)
    ensures var n := Fitting(estimate, groups, budget);
            && NewestTokens(estimate, groups, n) <= budget
            && (n < |groups| ==> NewestTokens(estimate, groups, n + 1) > budget)
    decreases |groups|
  {
    hide NewestTokens, MessagesTokens;
    NoGroups(estimate, groups);
    if groups != [] {
      var front, last := groups[..|groups| - 1], groups[|groups| - 1];
      var tokens := MessagesTokens(estimate, last);
      NoGroups(estimate, front);
      NewestAndMore(estimate, groups, 0);
      if tokens <= budget {
        var m := Fitting(estimate, front, budget - tokens);
        FittingIsMaximal(estimate, front, budget - tokens);
        NewestAndMore(estimate, groups, m);
        if m < |front| {
          NewestAndMore(estimate, groups, m + 1);
        }
      }
    }
  }

  /** Groups that fit together are all kept. */
  lemma {:induction false} FittingAll(estimate: Estimator, groups: seq<Group>, budget: nat)
    requires GroupTokens(estimate, groups) <= budget
    ensures Fitting(estimate, groups, budget) == |groups|
    decreases |groups|
  {
    if groups != [] {
      var front, last := groups[..|groups| - 1], groups[|groups| - 1];
      assert groups == front + [last];
      GroupTokensConcat(estimate, front, [last]);
      assert GroupTokens(estimate, [last]) == MessagesTokens(estimate, last);
      FittingAll(estimate, front, budget - MessagesTokens(estimate, last));
    }
  }

  /** From group `cut` on everything fits beside the fixed prompt, and one older group more would not. */
  ghost predicate MaximalCut(groups: seq<Group>, estimate: Estimator, available: nat, fixed: nat, cut: nat) {
    && cut <= |groups|
    && fixed + MessagesTokens(estimate, Flatten(groups[cut..])) <= available
    && (cut > 0 ==> fixed + MessagesTokens(estimate, Flatten(groups[cut - 1..])) > available)
  }

  /** Trimming keeps the longest suffix of coherent groups that fits what the fixed prompt leaves. */
  lemma {:induction false} TrimIsMaximalSuffix(h: seq<ConversationMessage>, estimate: Estimator, available: nat, fixed: nat)
    requires fixed <= available
    ensures var out := Trimmed(h, estimate, available, fixed).value;
            exists cut: nat :: MaximalCut(Groups(h), estimate, available, fixed, cut) && out == Flatten(Groups(h)[cut..])
  {
    hide Groups, Flatten, Fitting, GroupTokens, MessagesTokens;
    var groups := Groups(h);
    var cut := |groups| - Fitting(estimate, groups, available - fixed);
    FittingIsMaximal(estimate, groups, available - fixed);
    GroupTokensAre(estimate, groups[cut..]);
    if cut > 0 { GroupTokensAre(estimate, groups[cut - 1..]); }
    assert MaximalCut(groups, estimate, available, fixed, cut);
  }

  lemma SuffixCoherent(groups: seq<Group>, cut: nat)
    requires AllCoherent(groups) && cut <= |groups|
    ensures AllCoherent(groups[cut..])
  {
    hide CoherentGroup;
  }

  /** What trimming returns is coherent: it has no orphan result and no incomplete exchange. */
  lemma {:induction false} TrimIsCoherent(h: seq<ConversationMessage>, estimate: Estimator, available: nat, fixed: nat)
    requires fixed <= available
    ensures Coherent(Trimmed(h, estimate, available, fixed).value)
  {
    hide Groups, Flatten, Fitting, AllCoherent;
    GroupsCoherent(h);
    SuffixCoherent(Groups(h), |Groups(h)| - Fitting(estimate, Groups(h), available - fixed));
    assert AllCoherent(Kept(estimate, Groups(h), available - fixed));
  }

  /** Trimming what was trimmed changes nothing; the turn trims once on entry and once more when it
      assembles an external context. */
  lemma {:induction false} TrimIdempotent(h: seq<ConversationMessage>, estimate: Estimator, available: nat, fixed: nat)
    requires fixed <= available
    ensures var out := Trimmed(h, estimate, available, fixed);
            Trimmed(out.value, estimate, available, fixed) == out
  {
    hide Groups, Flatten, Fitting, GroupTokens, AllCoherent;
    var groups := Groups(h);
    var kept := Kept(estimate, groups, available - fixed);
    GroupsCoherent(h);
    SuffixCoherent(groups, |groups| - Fitting(estimate, groups, available - fixed));
    FittingIsMaximal(estimate, groups, available - fixed);
    GroupsOfFlatten(kept);
    FittingAll(estimate, kept, available - fixed);
    assert kept[0..] == kept;
  }

  /** A coherent history that fits is returned unchanged. */
  lemma {:induction false} TrimKeepsWhatFits(h: seq<ConversationMessage>, estimate: Estimator, available: nat, fixed: nat)
    requires Coherent(h) && fixed + MessagesTokens(estimate, h) <= available
    ensures Trimmed(h, estimate, available, fixed) == Ok(h)
  {
    hide Groups, Flatten, Fitting, GroupTokens, MessagesTokens, AllCoherent;
    var groups :| AllCoherent(groups) && Flatten(groups) == h;
    GroupsOfFlatten(groups);
    GroupTokensAre(estimate, groups);
    FittingAll(estimate, groups, available - fixed);
    assert groups[0..] == groups;
  }

  /** What the three reserves and the excess of the system prompt and of the working text over theirs leave of
      the total for the history. Reserves beyond the total leave nothing. */
  ghost function LeftForHistory(c: ContextBudget, system: nat, working: nat): int {
    var reserved := c.reserveSystem + c.reserveTools + c.reserveWorking;
    (if reserved <= c.totalTokens then c.totalTokens - reserved else 0)
    - (if system <= c.reserveSystem then 0 else system - c.reserveSystem)
    - (if working <= c.reserveWorking then 0 else working - c.reserveWorking)
  }

  /** The newest coherent groups that fit in `left` tokens, all of them; an error if `left` is negative. */
  ghost predicate NewestThatFit(h: seq<ConversationMessage>, estimate: Estimator, left: int, r: Result<seq<ConversationMessage>, TrimError>) {
    match r
    case Err(_) => left < 0
    case Ok(out) =>
      && left >= 0
      && exists cut | 0 <= cut <= |Groups(h)| ::
           && out == Flatten(Groups(h)[cut..]) && MessagesTokens(estimate, out) <= left
           && (cut > 0 ==> MessagesTokens(estimate, Flatten(Groups(h)[cut - 1..])) > left)
  }

  function PlanTokens(estimate: Estimator, plan: Option<string>): nat {
    match plan case Some(text) => estimate(text) case None => 0
  }

  /** Trimming, said in terms of the budget alone. */
  lemma {:induction false} TrimMeans(h: seq<ConversationMessage>, c: ContextBudget, estimate: Estimator, systemPrompt: string,
                                     userMessage: string, plan: Option<string>)
    ensures var working := estimate(userMessage) + PlanTokens(estimate, plan);
            var out := Trimmed(h, estimate, RemainingTokens(c), FixedSessionTokens(c, estimate, systemPrompt, userMessage, plan));
            && NewestThatFit(h, estimate, LeftForHistory(c, estimate(systemPrompt), working), out)
            && (out.Ok? ==> Coherent(out.value))
            && ((Coherent(h) && estimate(systemPrompt) <= c.reserveSystem && working <= c.reserveWorking
                 && MessagesTokens(estimate, h) + c.reserveSystem + c.reserveTools + c.reserveWorking <= c.totalTokens) ==> out == Ok(h))
  {
    hide Groups, Flatten, Fitting, Kept, MessagesTokens, Coherent;
    var available, fixed := RemainingTokens(c), FixedSessionTokens(c, estimate, systemPrompt, userMessage, plan);
    var working := estimate(userMessage) + PlanTokens(estimate, plan);
    assert available - fixed == LeftForHistory(c, estimate(systemPrompt), working);
    if fixed <= available {
      TrimIsMaximalSuffix(h, estimate, available, fixed);
      TrimIsCoherent(h, estimate, available, fixed);
      if Coherent(h) && fixed + MessagesTokens(estimate, h) <= available {
        TrimKeepsWhatFits(h, estimate, available, fixed);
      }
    }
  }

  method SumGroup(estimate: Estimator, group: Group) returns (tokens: nat)
    ensures tokens == MessagesTokens(estimate, group)
  {
    tokens := 0;
    for i := 0 to |group|
      invariant tokens == MessagesTokens(estimate, group[..i])
    {
      var t := EstimateConversationMessage(estimate, group[i]);
      tokens := tokens + t;
      assert group[..i + 1][..i] == group[..i];
    }
    assert group[..|group|] == group;
  }

  /** The loop over the groups from the newest back, up to the first that does not fit. */
  method SelectNewest(groups: seq<Group>, estimate: Estimator, budget: nat) returns (selected: seq<Group>)
    ensures selected == Kept(estimate, groups, budget)
  {
    hide MessagesTokens;
    var remaining: nat := budget;
    selected := [];
    var i := |groups|;
    assert groups[..i] == groups;
    while i > 0
      invariant 0 <= i <= |groups| && remaining <= budget
      invariant selected == groups[i..]
      invariant |groups| - i + Fitting(estimate, groups[..i], remaining) == Fitting(estimate, groups, budget)
    {
      var tokens := SumGroup(estimate, groups[i - 1]);
      assert groups[..i][..i - 1] == groups[..i - 1] && groups[..i][i - 1] == groups[i - 1];
      if tokens > remaining {
        break;
      }
      remaining := Minus(remaining, tokens);
      selected := [groups[i - 1]] + selected;
      i := i - 1;
    }
  }

  /** `trim_conversation_history`, as the source loops: the newest coherent groups that the budget leaves room
      for, so that prompts, kept history and the tool reserve are together within the total; a coherent history
      that has room is returned whole. */
  method TrimConversationHistory(history: seq<ConversationMessage>, c: ContextBudget, estimate: Estimator, systemPrompt: string,
                                 userMessage: string, plan: Option<string>)
    returns (r: Result<seq<ConversationMessage>, TrimError>)
    ensures r == Trimmed(history, estimate, RemainingTokens(c), FixedSessionTokens(c, estimate, systemPrompt, userMessage, plan))
    ensures var working := estimate(userMessage) + PlanTokens(estimate, plan);
            NewestThatFit(history, estimate, LeftForHistory(c, estimate(systemPrompt), working), r)
    ensures r.Ok? ==> Coherent(r.value)
    ensures r.Ok? && c.reserveSystem + c.reserveTools + c.reserveWorking <= c.totalTokens ==>
              estimate(systemPrompt) + estimate(userMessage) + PlanTokens(estimate, plan) + MessagesTokens(estimate, r.value) + c.reserveTools
              <= c.totalTokens
    ensures Coherent(history) && estimate(systemPrompt) <= c.reserveSystem
            && estimate(userMessage) + PlanTokens(estimate, plan) <= c.reserveWorking
            && MessagesTokens(estimate, history) + c.reserveSystem + c.reserveTools + c.reserveWorking <= c.totalTokens ==>
              r == Ok(history)
  {
    hide Groups, MessagesTokens, Flatten, Coherent, Kept;
    TrimMeans(history, c, estimate, systemPrompt, userMessage, plan);
    var systemTokens := estimate(systemPrompt);
    var workingTokens := estimate(userMessage) + if plan.Some? then estimate(plan.value) else 0;
    var fixedTokens := Minus(workingTokens, c.reserveWorking) + Minus(systemTokens, c.reserveSystem);
    var available := RemainingTokens(c);
    if fixedTokens > available {
      return Err(FixedPromptTooLarge);
    }
    var groups := CoherentConversationGroups(history);
    var selected := SelectNewest(groups, estimate, Minus(available, fixedTokens));
    r := Ok(Flatten(selected));
  }
}
