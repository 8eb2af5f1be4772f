/** The order of text: character by character, a prefix first. */
module TextOrder {

  predicate StringBefore(a: string, b: string) {
    if b == [] then false
    else if a == [] then true
    else a[0] < b[0] || (a[0] == b[0] && StringBefore(a[1..], b[1..]))
  }

  lemma {:induction false} StringsOrdered(a: string, b: string)
    ensures StringBefore(a, b) || a == b || StringBefore(b, a)
    ensures !(StringBefore(a, b) && StringBefore(b, a)) && !StringBefore(a, a)
    decreases |a|
  {
    if a != [] {
      StringsOrdered(a[1..], if b != [] then b[1..] else []);
      if b != [] && a[0] == b[0] && a[1..] == b[1..] {
        assert a == [a[0]] + a[1..] == b;
      }
    }
  }

  lemma {:induction false} StringsTransitive(a: string, b: string, c: string)
    requires StringBefore(a, b) && StringBefore(b, c)
    ensures StringBefore(a, c)
    decreases |a|
  {
    if a != [] {
      if a[0] == b[0] && b[0] == c[0] {
        StringsTransitive(a[1..], b[1..], c[1..]);
      }
    }
  }

  /** The first characters decide, unless they are equal. */
  lemma {:induction false} HeadsDecide(a: char, x: string, b: char, y: string)
    ensures StringBefore([a] + x, [b] + y) <==> a < b || (a == b && StringBefore(x, y))
  {
    assert ([a] + x)[1..] == x && ([b] + y)[1..] == y;
  }
}
