/** The order SQLite uses for TEXT columns: character by character, a proper
    prefix first. Timestamps and paths are compared this way by the index. */
module TextOrder {

  predicate TextLess(a: string, b: string) {
    if b == [] then false
    else if a == [] then true
    else if a[0] != b[0] then a[0] < b[0]
    else TextLess(a[1..], b[1..])
  }

  predicate TextAtMost(a: string, b: string) {
    a == b || TextLess(a, b)
  }

  lemma {:induction false} Irreflexive(a: string)
    ensures !TextLess(a, a)
  {
    if a != [] {
      Irreflexive(a[1..]);
    }
  }

  lemma {:induction false} Trichotomy(a: string, b: string)
    ensures TextLess(a, b) || a == b || TextLess(b, a)
  {
    if a != [] && b != [] && a[0] == b[0] {
      Trichotomy(a[1..], b[1..]);
      assert a == [a[0]] + a[1..] && b == [b[0]] + b[1..];
    }
  }

  lemma {:induction false} Transitive(a: string, b: string, c: string)
    requires TextLess(a, b) && TextLess(b, c)
    ensures TextLess(a, c)
  {
    if a != [] && a[0] == b[0] && b[0] == c[0] {
      Transitive(a[1..], b[1..], c[1..]);
    }
  }

  lemma Asymmetric(a: string, b: string)
    requires TextLess(a, b)
    ensures !TextLess(b, a)
  {
    if TextLess(b, a) {
      Transitive(a, b, a);
      Irreflexive(a);
    }
  }

  /** A common prefix does not matter. */
  lemma {:induction false} SamePrefix(p: string, a: string, b: string)
    ensures TextLess(p + a, p + b) <==> TextLess(a, b)
  {
    if p == [] {
      assert p + a == a && p + b == b;
    } else {
      SamePrefix(p[1..], a, b);
      assert (p + a)[1..] == p[1..] + a && (p + b)[1..] == p[1..] + b;
    }
  }
}
