/** Characters and case, as the configuration, the path mapper and the wildcard
    matcher see them: case is changed for ASCII letters only. */
module Text {
  function Lower(c: char): char {
    if 'A' <= c <= 'Z' then (c as int + 32) as char else c
  }

  function Upper(c: char): char {
    if 'a' <= c <= 'z' then (c as int - 32) as char else c
  }

  function LowerAll(s: string): (r: string)
    ensures |r| == |s| && forall i :: 0 <= i < |s| ==> r[i] == Lower(s[i])
  {
    seq(|s|, i requires 0 <= i < |s| => Lower(s[i]))
  }

  /** White space in the C locale: the blank, and tab to carriage return. */
  predicate IsSpace(c: char) {
    c == ' ' || 9 <= c as int <= 13
  }

  predicate IsSeparator(c: char) {
    c == '\\' || c == '/'
  }

  lemma LowerTwice(s: string)
    ensures LowerAll(LowerAll(s)) == LowerAll(s)
  {
  }

  lemma LowerOfConcat(a: string, b: string)
    ensures LowerAll(a + b) == LowerAll(a) + LowerAll(b)
  {
  }

  // ---------- what changing case does ----------

  const SMALL_LETTERS: string := "abcdefghijklmnopqrstuvwxyz"
  const CAPITAL_LETTERS: string := "ABCDEFGHIJKLMNOPQRSTUVWXYZ"

  /** Case is a pairing of the two alphabets and leaves every other character
      alone. */
  lemma CasePairsTheAlphabets(c: char)
    ensures forall i :: 0 <= i < 26 ==> Lower(CAPITAL_LETTERS[i]) == SMALL_LETTERS[i] && Upper(SMALL_LETTERS[i]) == CAPITAL_LETTERS[i]
    ensures c !in CAPITAL_LETTERS ==> Lower(c) == c
    ensures c !in SMALL_LETTERS ==> Upper(c) == c
  {
    if 'A' <= c <= 'Z' {
      assert CAPITAL_LETTERS[c as int - 'A' as int] == c;
    }
    if 'a' <= c <= 'z' {
      assert SMALL_LETTERS[c as int - 'a' as int] == c;
    }
  }

  /** Changing the case of a letter changes it, can be undone, and both directions
      tell the same characters apart. */
  lemma CaseIsLossless(c: char, d: char)
    ensures 'a' <= c <= 'z' ==> Upper(c) != c && Lower(Upper(c)) == c
    ensures 'A' <= c <= 'Z' ==> Lower(c) != c && Upper(Lower(c)) == c
    ensures Lower(c) == Lower(d) <==> Upper(c) == Upper(d)
    ensures Lower(c) == Lower(d) <==> c == d || c == Upper(d) || Upper(c) == d
  {
  }

  /** b is a with some of its letters in the other case. */
  predicate Recased(a: string, b: string) {
    |a| == |b| && forall i :: 0 <= i < |a| ==> a[i] == b[i] || a[i] == Upper(b[i]) || Upper(a[i]) == b[i]
  }

  lemma RecasedIff(a: string, b: string)
    ensures Recased(a, b) <==> LowerAll(a) == LowerAll(b)
  {
    if LowerAll(a) == LowerAll(b) {
      forall i | 0 <= i < |a|
        ensures a[i] == b[i] || a[i] == Upper(b[i]) || Upper(a[i]) == b[i]
      {
        assert LowerAll(a)[i] == LowerAll(b)[i];
        CaseIsLossless(a[i], b[i]);
      }
    }
    if Recased(a, b) {
      forall i | 0 <= i < |a|
        ensures LowerAll(a)[i] == LowerAll(b)[i]
      {
        CaseIsLossless(a[i], b[i]);
      }
    }
  }
}
