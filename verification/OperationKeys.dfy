/** The operation keys under which the engine persists its effects. Identifiers are rendered without
    colons; tool names are arbitrary text. */
module OperationKeys {

  predicate NoColon(text: string) {
    ':' !in text
  }

  function Digit(d: nat): (c: char)
    requires d < 10
    ensures c != ':'
  {
    ['0', '1', '2', '3', '4', '5', '6', '7', '8', '9'][d]
  }

  function Decimal(n: nat): (text: string)
    ensures text != "" && NoColon(text)
  {
    if n < 10 then [Digit(n)] else Decimal(n / 10) + [Digit(n % 10)]
  }

  function UserInputKey(loop: string): string {
    "loop:" + loop + ":" + "user_input"
  }

  function AssistantOutputKey(loop: string): string {
    "loop:" + loop + ":" + "assistant_output"
  }

  /** What follows the loop id in a tool result's key. */
  function ToolSuffix(round: nat, index: nat, name: string): string {
    "tool" + ":" + (Decimal(round) + ":" + (Decimal(index) + ":" + name))
  }

  function ToolResultKey(loop: string, round: nat, index: nat, name: string): string {
    "loop:" + loop + ":" + ToolSuffix(round, index, name)
  }

  /** `distill:{session}:{loop}:{digest}:{index}` */
  function DistillKey(session: string, loop: string, digest: string, index: nat): string {
    "distill:" + (session + ":" + (loop + ":" + (digest + ":" + Decimal(index))))
  }

  lemma {:induction false} DecimalInjective(a: nat, b: nat)
    requires Decimal(a) == Decimal(b)
    ensures a == b
  {
    DecimalLast(a);
    DecimalLast(b);
    if a < 10 || b < 10 {
      assert |Decimal(a)| == 1 <==> a < 10;
      assert |Decimal(b)| == 1 <==> b < 10;
    } else {
      assert Decimal(a)[..|Decimal(a)| - 1] == Decimal(a / 10);
      assert Decimal(b)[..|Decimal(b)| - 1] == Decimal(b / 10);
      DecimalInjective(a / 10, b / 10);
    }
    DigitInjective(a % 10, b % 10);
  }

  lemma {:induction false} DecimalLast(n: nat)
    ensures Decimal(n)[|Decimal(n)| - 1] == Digit(n % 10)
    ensures |Decimal(n)| == 1 <==> n < 10
  {
  }

  lemma DigitInjective(a: nat, b: nat)
    requires a < 10 && b < 10 && Digit(a) == Digit(b)
    ensures a == b
  {
  }

  function FirstColon(text: string): nat {
    if text == "" || text[0] == ':' then 0 else 1 + FirstColon(text[1..])
  }

  lemma {:induction false} ColonAfter(a: string, x: string)
    requires NoColon(a)
    ensures FirstColon(a + ":" + x) == |a|
    decreases |a|
  {
    if a != "" {
      assert (a + ":" + x)[1..] == a[1..] + ":" + x;
      assert forall c | c in a[1..] :: c in a;
      ColonAfter(a[1..], x);
    }
  }

  /** A text without colons is determined by what comes before the first colon. */
  lemma SplitAtColon(a: string, x: string, b: string, y: string)
    requires NoColon(a) && NoColon(b) && a + ":" + x == b + ":" + y
    ensures a == b && x == y
  {
    ColonAfter(a, x);
    ColonAfter(b, y);
    var s, t := a + ":" + x, b + ":" + y;
    assert s[..|a|] == a && t[..|b|] == b;
    assert s[|a| + 1..] == x && t[|b| + 1..] == y;
  }

  lemma DropPrefix(p: string, x: string, y: string)
    requires p + x == p + y
    ensures x == y
  {
    assert (p + x)[|p|..] == x && (p + y)[|p|..] == y;
  }

  lemma LoopSplits(loop1: string, rest1: string, loop2: string, rest2: string)
    requires NoColon(loop1) && NoColon(loop2) && "loop:" + loop1 + ":" + rest1 == "loop:" + loop2 + ":" + rest2
    ensures loop1 == loop2 && rest1 == rest2
  {
    assert "loop:" + loop1 + ":" + rest1 == "loop:" + (loop1 + ":" + rest1);
    assert "loop:" + loop2 + ":" + rest2 == "loop:" + (loop2 + ":" + rest2);
    DropPrefix("loop:", loop1 + ":" + rest1, loop2 + ":" + rest2);
    SplitAtColon(loop1, rest1, loop2, rest2);
  }

  /** A tool key names its loop, round, index and tool: no two calls share one, even though a tool
      name may itself contain colons. */
  lemma ToolResultKeyInjective(loop1: string, round1: nat, index1: nat, name1: string,
                               loop2: string, round2: nat, index2: nat, name2: string)
    requires NoColon(loop1) && NoColon(loop2)
    requires ToolResultKey(loop1, round1, index1, name1) == ToolResultKey(loop2, round2, index2, name2)
    ensures loop1 == loop2 && round1 == round2 && index1 == index2 && name1 == name2
  {
    LoopSplits(loop1, ToolSuffix(round1, index1, name1), loop2, ToolSuffix(round2, index2, name2));
    SplitAtColon("tool", Decimal(round1) + ":" + (Decimal(index1) + ":" + name1),
                 "tool", Decimal(round2) + ":" + (Decimal(index2) + ":" + name2));
    SplitAtColon(Decimal(round1), Decimal(index1) + ":" + name1, Decimal(round2), Decimal(index2) + ":" + name2);
    SplitAtColon(Decimal(index1), name1, Decimal(index2), name2);
    DecimalInjective(round1, round2);
    DecimalInjective(index1, index2);
  }

  /** Tool results never share a key with the turn's input or output, of this loop or another. */
  lemma ToolResultKeyIsOwn(loop1: string, round: nat, index: nat, name: string, loop2: string)
    requires NoColon(loop1) && NoColon(loop2)
    ensures ToolResultKey(loop1, round, index, name) != UserInputKey(loop2)
    ensures ToolResultKey(loop1, round, index, name) != AssistantOutputKey(loop2)
    ensures UserInputKey(loop1) != AssistantOutputKey(loop2)
  {
    var suffix := ToolSuffix(round, index, name);
    assert suffix[0] == 't' && "user_input"[0] == 'u' && "assistant_output"[0] == 'a';
    SuffixesDiffer(loop1, suffix, loop2, "user_input");
    SuffixesDiffer(loop1, suffix, loop2, "assistant_output");
    SuffixesDiffer(loop1, "user_input", loop2, "assistant_output");
  }

  lemma SuffixesDiffer(loop1: string, rest1: string, loop2: string, rest2: string)
    requires NoColon(loop1) && NoColon(loop2) && rest1 != rest2
    ensures "loop:" + loop1 + ":" + rest1 != "loop:" + loop2 + ":" + rest2
  {
    if "loop:" + loop1 + ":" + rest1 == "loop:" + loop2 + ":" + rest2 {
      LoopSplits(loop1, rest1, loop2, rest2);
    }
  }

  /** A distilled node's key names its session, loop, batch and position, and is not a loop key. */
  lemma DistillKeyInjective(s1: string, l1: string, d1: string, i1: nat, s2: string, l2: string, d2: string, i2: nat)
    requires NoColon(s1) && NoColon(l1) && NoColon(d1) && NoColon(s2) && NoColon(l2) && NoColon(d2)
    requires DistillKey(s1, l1, d1, i1) == DistillKey(s2, l2, d2, i2)
    ensures s1 == s2 && l1 == l2 && d1 == d2 && i1 == i2
  {
    DropPrefix("distill:", s1 + ":" + (l1 + ":" + (d1 + ":" + Decimal(i1))), s2 + ":" + (l2 + ":" + (d2 + ":" + Decimal(i2))));
    SplitAtColon(s1, l1 + ":" + (d1 + ":" + Decimal(i1)), s2, l2 + ":" + (d2 + ":" + Decimal(i2)));
    SplitAtColon(l1, d1 + ":" + Decimal(i1), l2, d2 + ":" + Decimal(i2));
    SplitAtColon(d1, Decimal(i1), d2, Decimal(i2));
    DecimalInjective(i1, i2);
  }
}
