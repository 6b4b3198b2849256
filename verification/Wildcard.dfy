/** The case-insensitive wildcard matcher of the ignore lists, against the
    meaning of a glob pattern. */
module Wildcard {
  import opened Prelude
  import opened Text

  // ---------- meaning ----------

  /** '*' stands for any run of characters, '?' for any one character. */
  predicate Glob(p: string, v: string)
    decreases |p|, |v|
  {
    if p == [] then v == []
    else if p[0] == '*' then Glob(p[1..], v) || (v != [] && Glob(p, v[1..]))
    else v != [] && (p[0] == '?' || p[0] == v[0]) && Glob(p[1..], v[1..])
  }

  lemma LowerKeepsStars(s: string)
    ensures '*' in LowerAll(s) <==> '*' in s
  {
    if '*' in s {
      var i :| 0 <= i < |s| && s[i] == '*';
      assert LowerAll(s)[i] == '*';
    }
  }

  // ---------- the loop ----------

  datatype StarMemo = NoStar | Star(at: nat, mark: nat)

  /** The state of the matching loop: both indices and the latest '*' met. */
  datatype Cursor = Cursor(pi: nat, vi: nat, star: StarMemo)

  predicate InBounds(p: string, v: string, k: Cursor) {
    && k.pi <= |p| && k.vi <= |v|
    && (k.star.Star? ==> k.star.at < k.pi && k.star.mark <= k.vi)
  }

  /** The lexicographic measure the loop descends. */
  function StarRank(k: Cursor): int {
    if k.star.NoStar? then -1 else k.star.at
  }

  function MarkRank(k: Cursor): nat {
    if k.star.NoStar? then 0 else k.star.mark
  }

  /** One iteration; None is the early `return false`. */
  function Advance(p: string, v: string, k: Cursor): Option<Cursor>
    requires InBounds(p, v, k) && k.vi < |v|
  {
    if k.pi < |p| && (p[k.pi] == '?' || p[k.pi] == v[k.vi]) then Some(Cursor(k.pi + 1, k.vi + 1, k.star))
    else if k.pi < |p| && p[k.pi] == '*' then Some(Cursor(k.pi + 1, k.vi, Star(k.pi, k.vi)))
    else if k.star.Star? then Some(Cursor(k.star.at + 1, k.star.mark + 1, Star(k.star.at, k.star.mark + 1)))
    else None
  }

  predicate AllStars(p: string) {
    forall i :: 0 <= i < |p| ==> p[i] == '*'
  }

  /** What the loop returns from a given state. */
  predicate Outcome(p: string, v: string, k: Cursor)
    requires InBounds(p, v, k)
    decreases |p| - StarRank(k), |v| - MarkRank(k), |v| - k.vi
  {
    if k.vi == |v| then AllStars(p[k.pi..])
    else match Advance(p, v, k)
      case None => false
      case Some(next) => Outcome(p, v, next)
  }

  const START := Cursor(0, 0, NoStar)

  predicate Matches(pattern: string, value: string) {
    Outcome(LowerAll(pattern), LowerAll(value), START)
  }

  /** wildcard_match_ignore_case. */
  method WildcardMatchIgnoreCase(pattern: string, value: string) returns (matched: bool)
    ensures matched == Matches(pattern, value)
    ensures matched ==> Glob(LowerAll(pattern), LowerAll(value))
    ensures '*' !in value ==> matched == Glob(LowerAll(pattern), LowerAll(value))
  {
    MatchIsSound(pattern, value);
    if '*' !in value {
      MatchIsComplete(pattern, value);
    }
    var p, v := LowerAll(pattern), LowerAll(value);
    var patternIndex, valueIndex: nat := 0, 0;
    var starIndex: int, starMatchIndex: nat := -1, 0;
    ghost var k := START;
    while valueIndex < |v|
      invariant k == Cursor(patternIndex, valueIndex, if starIndex < 0 then NoStar else Star(starIndex, starMatchIndex))
      invariant InBounds(p, v, k)
      invariant Outcome(p, v, k) == Outcome(p, v, START)
      decreases |p| - starIndex, |v| - (if starIndex < 0 then 0 else starMatchIndex), |v| - valueIndex
    {
      ghost var step := Advance(p, v, k);
      if patternIndex < |p| && (p[patternIndex] == '?' || p[patternIndex] == v[valueIndex]) {
        patternIndex := patternIndex + 1;
        valueIndex := valueIndex + 1;
      } else if patternIndex < |p| && p[patternIndex] == '*' {
        starIndex := patternIndex;
        starMatchIndex := valueIndex;
        patternIndex := patternIndex + 1;
      } else if starIndex >= 0 {
        patternIndex := starIndex + 1;
        starMatchIndex := starMatchIndex + 1;
        valueIndex := starMatchIndex;
      } else {
        return false;
      }
      k := step.value;
    }
    ghost var rest := patternIndex;
    while patternIndex < |p| && p[patternIndex] == '*'
      invariant rest <= patternIndex <= |p|
      invariant forall i :: rest <= i < patternIndex ==> p[i] == '*'
    {
      patternIndex := patternIndex + 1;
    }
    matched := patternIndex == |p|;
    assert matched ==> forall i :: 0 <= i < |p[rest..]| ==> p[rest..][i] == p[rest + i];
    assert !matched ==> p[rest..][patternIndex - rest] == p[patternIndex];
  }

  // ---------- facts about globs ----------

  lemma {:induction false} StarsMatchNothing(p: string)
    ensures AllStars(p) <==> Glob(p, [])
  {
    if p != [] {
      StarsMatchNothing(p[1..]);
      if p[0] == '*' && AllStars(p[1..]) {
        forall i | 0 <= i < |p|
          ensures p[i] == '*'
        {
          assert i > 0 ==> p[i] == p[1..][i - 1];
        }
      }
      assert forall i :: 0 <= i < |p| - 1 ==> p[1..][i] == p[i + 1];
    }
  }

  /** A leading star may swallow any prefix. */
  lemma {:induction false} StarSwallows(p: string, v: string, i: nat, j: nat)
    requires p != [] && p[0] == '*' && i <= j <= |v| && Glob(p, v[j..])
    ensures Glob(p, v[i..])
    decreases j - i
  {
    if i < j {
      StarSwallows(p, v, i + 1, j);
      assert v[i..][1..] == v[i + 1..];
    }
  }

  /** Whatever follows a star may match from any position on. */
  lemma StarThen(p: string, v: string, s: nat, i: nat, j: nat)
    requires s < |p| && p[s] == '*' && i <= j <= |v| && Glob(p[s + 1..], v[j..])
    ensures Glob(p[s..], v[i..])
  {
    assert p[s..][1..] == p[s + 1..];
    StarSwallows(p[s..], v, i, j);
  }

  /** A star's match is a match of the rest from some later position. */
  lemma {:induction false} StarSplits(p: string, v: string, s: nat, i: nat) returns (j: nat)
    requires s < |p| && p[s] == '*' && i <= |v| && Glob(p[s..], v[i..])
    ensures i <= j <= |v| && Glob(p[s + 1..], v[j..])
    decreases |v| - i
  {
    assert p[s..][1..] == p[s + 1..];
    if Glob(p[s + 1..], v[i..]) {
      j := i;
    } else {
      assert v[i..][1..] == v[i + 1..];
      j := StarSplits(p, v, s, i + 1);
    }
  }

  /** A pattern matches piece by piece: what a concatenation matches is what its
      parts match one after the other. */
  lemma {:induction false} GlobOfConcat(a: string, b: string, v: string)
    ensures Glob(a + b, v) <==> exists i :: 0 <= i <= |v| && Glob(a, v[..i]) && Glob(b, v[i..])
    decreases |a|, |v|
  {
    if a == [] {
      assert a + b == b && v[..0] == [] && v[0..] == v;
      assert forall i :: 0 <= i <= |v| && Glob(a, v[..i]) ==> i == 0;
    } else {
      assert (a + b)[1..] == a[1..] + b && (a + b)[0] == a[0];
      assert forall i :: 0 < i <= |v| ==> v[..i][1..] == v[1..][..i - 1] && v[i..] == v[1..][i - 1..];
      if a[0] == '*' {
        GlobOfConcat(a[1..], b, v);
      }
      if v != [] {
        GlobOfConcat(if a[0] == '*' then a else a[1..], b, v[1..]);
        if i :| 0 <= i <= |v[1..]| && Glob(if a[0] == '*' then a else a[1..], v[1..][..i]) && Glob(b, v[1..][i..]) {
          assert v[..i + 1][1..] == v[1..][..i] && v[i + 1..] == v[1..][i..];
        }
      }
      if i :| 0 <= i <= |v| && Glob(a, v[..i]) && Glob(b, v[i..]) {
        if i > 0 {
          assert v[..i][1..] == v[1..][..i - 1] && v[i..] == v[1..][i - 1..];
        } else {
          assert v[..0] == [];
        }
      }
    }
  }

  /** The meaning of the single pieces. */
  lemma GlobOfPiece(c: char, v: string)
    ensures Glob([], v) <==> v == []
    ensures Glob("*", v)
    ensures Glob("?", v) <==> |v| == 1
    ensures c != '*' && c != '?' ==> (Glob([c], v) <==> v == [c])
  {
    StarSwallows("*", v, 0, |v|);
    assert v[0..] == v;
  }

  lemma OneStep(p: string, v: string, i: nat, j: nat)
    requires i < |p| && j < |v| && (p[i] == '?' || p[i] == v[j]) && Glob(p[i + 1..], v[j + 1..])
    ensures Glob(p[i..], v[j..])
  {
    assert p[i..][1..] == p[i + 1..] && v[j..][1..] == v[j + 1..];
    if p[i] == '*' {
      StarThen(p, v, i, j, j + 1);
    }
  }

  // ---------- soundness: every input ----------

  /** Any completion the cursor can still reach completes the whole match. */
  ghost predicate LeadsBack(p: string, v: string, k: Cursor)
    requires InBounds(p, v, k)
  {
    && (Glob(p[k.pi..], v[k.vi..]) ==> Glob(p, v))
    && (k.star.Star? ==> forall j :: k.star.mark <= j <= |v| && Glob(p[k.star.at + 1..], v[j..]) ==> Glob(p, v))
  }

  lemma {:induction false} OutcomeIsSound(p: string, v: string, k: Cursor)
    requires InBounds(p, v, k) && LeadsBack(p, v, k) && Outcome(p, v, k)
    ensures Glob(p, v)
    decreases |p| - StarRank(k), |v| - MarkRank(k), |v| - k.vi
  {
    if k.vi == |v| {
      assert v[k.vi..] == [];
      StarsMatchNothing(p[k.pi..]);
    } else {
      var next := Advance(p, v, k).value;
      AdvanceLeadsBack(p, v, k);
      OutcomeIsSound(p, v, next);
    }
  }

  lemma AdvanceLeadsBack(p: string, v: string, k: Cursor)
    requires InBounds(p, v, k) && LeadsBack(p, v, k) && k.vi < |v| && Advance(p, v, k).Some?
    ensures InBounds(p, v, Advance(p, v, k).value) && LeadsBack(p, v, Advance(p, v, k).value)
  {
    hide Glob;
    if k.pi < |p| && (p[k.pi] == '?' || p[k.pi] == v[k.vi]) {
      if Glob(p[k.pi + 1..], v[k.vi + 1..]) {
        OneStep(p, v, k.pi, k.vi);
      }
    } else if k.pi < |p| && p[k.pi] == '*' {
      forall j | k.vi <= j <= |v| && Glob(p[k.pi + 1..], v[j..])
        ensures Glob(p, v)
      {
        StarThen(p, v, k.pi, k.vi, j);
      }
    }
  }

  /** A true answer always means a match. */
  lemma MatchIsSound(pattern: string, value: string)
    ensures Matches(pattern, value) ==> Glob(LowerAll(pattern), LowerAll(value))
  {
    var p, v := LowerAll(pattern), LowerAll(value);
    assert p[0..] == p && v[0..] == v;
    if Outcome(p, v, START) {
      OutcomeIsSound(p, v, START);
    }
  }

  // ---------- completeness: values without '*' ----------

  /** The text between the latest star and the cursor, matched one to one. */
  ghost predicate Segment(p: string, v: string, k: Cursor)
    requires InBounds(p, v, k) && k.star.Star?
  {
    && k.pi - (k.star.at + 1) == k.vi - k.star.mark
    && p[k.star.at] == '*'
    && (forall i :: k.star.at < i < k.pi ==> p[i] != '*')
  }

  /** A match of the whole is still reachable from the cursor. */
  ghost predicate Reachable(p: string, v: string, k: Cursor)
    requires InBounds(p, v, k)
  {
    if k.star.NoStar? then Glob(p[k.pi..], v[k.vi..])
    else
      && Segment(p, v, k)
      && exists j ::
        && k.star.mark <= j <= |v| && Glob(p[k.star.at + 1..], v[j..])
        && (j == k.star.mark ==> Glob(p[k.pi..], v[k.vi..]))
  }

  /** A star-free segment consumes exactly its own length. */
  lemma {:induction false} SegmentConsumes(p: string, v: string, i: nat, e: nat, j: nat)
    requires i <= e <= |p| && j <= |v| && Glob(p[i..], v[j..])
    requires forall x :: i <= x < e ==> p[x] != '*'
    ensures j + (e - i) <= |v| && Glob(p[e..], v[j + (e - i)..])
    decreases e - i
  {
    if i < e {
      assert p[i..][1..] == p[i + 1..];
      assert v[j..] != [];
      assert v[j..][1..] == v[j + 1..];
      SegmentConsumes(p, v, i + 1, e, j + 1);
    }
  }

  lemma AdvanceKeepsReachable(p: string, v: string, k: Cursor)
    requires InBounds(p, v, k) && k.vi < |v| && '*' !in v && Reachable(p, v, k)
    ensures Advance(p, v, k).Some?
    ensures InBounds(p, v, Advance(p, v, k).value) && Reachable(p, v, Advance(p, v, k).value)
  {
    var here := Glob(p[k.pi..], v[k.vi..]);
    assert v[k.vi] != '*';
    if k.pi < |p| {
      assert p[k.pi..][0] == p[k.pi] && p[k.pi..][1..] == p[k.pi + 1..] && v[k.vi..][1..] == v[k.vi + 1..];
    }
    if k.star.NoStar? {
      if k.pi < |p| && p[k.pi] == '*' {
        var j := StarSplits(p, v, k.pi, k.vi);
      }
    } else {
      StarKeepsReachable(p, v, k);
    }
  }

  lemma StarKeepsReachable(p: string, v: string, k: Cursor)
    requires InBounds(p, v, k) && k.vi < |v| && '*' !in v && k.star.Star? && Reachable(p, v, k)
    ensures Advance(p, v, k).Some?
    ensures InBounds(p, v, Advance(p, v, k).value) && Reachable(p, v, Advance(p, v, k).value)
  {
    hide Glob;
    var s, m := k.star.at, k.star.mark;
    var j :| m <= j <= |v| && Glob(p[s + 1..], v[j..]) && (j == m ==> Glob(p[k.pi..], v[k.vi..]));
    assert v[k.vi] != '*';
    if k.pi < |p| && (p[k.pi] == '?' || p[k.pi] == v[k.vi]) {
      if j == m {
        SegmentConsumes(p, v, k.pi, k.pi + 1, k.vi);
      }
    } else if k.pi < |p| && p[k.pi] == '*' {
      // the segment fits again from j on, and the new star covers the gap
      SegmentConsumes(p, v, s + 1, k.pi, j);
      var later := j + (k.pi - (s + 1));
      StarSwallowsAt(p, v, k.pi, k.vi, later);
      var j' := StarSplits(p, v, k.pi, k.vi);
    } else {
      if j == m {
        MismatchCannotMatch(p, v, k.pi, k.vi);
      }
    }
  }

  lemma StarSwallowsAt(p: string, v: string, s: nat, i: nat, j: nat)
    requires s < |p| && p[s] == '*' && i <= j <= |v| && Glob(p[s..], v[j..])
    ensures Glob(p[s..], v[i..])
  {
    StarSwallows(p[s..], v, i, j);
  }

  lemma MismatchCannotMatch(p: string, v: string, i: nat, j: nat)
    requires i <= |p| && j < |v|
    requires i < |p| ==> p[i] != '*' && p[i] != '?' && p[i] != v[j]
    ensures !Glob(p[i..], v[j..])
  {
    assert v[j..][0] == v[j];
  }

  lemma {:induction false} OutcomeIsComplete(p: string, v: string, k: Cursor)
    requires InBounds(p, v, k) && '*' !in v && Reachable(p, v, k)
    ensures Outcome(p, v, k)
    decreases |p| - StarRank(k), |v| - MarkRank(k), |v| - k.vi
  {
    if k.vi == |v| {
      EndIsComplete(p, v, k);
    } else {
      AdvanceKeepsReachable(p, v, k);
      OutcomeIsComplete(p, v, Advance(p, v, k).value);
    }
  }

  lemma EndIsComplete(p: string, v: string, k: Cursor)
    requires InBounds(p, v, k) && k.vi == |v| && Reachable(p, v, k)
    ensures AllStars(p[k.pi..])
  {
    StarsMatchNothing(p[k.pi..]);
    assert v[|v|..] == [];
    if k.star.Star? {
      hide Glob;
      var s, m := k.star.at, k.star.mark;
      var j :| m <= j <= |v| && Glob(p[s + 1..], v[j..]) && (j == m ==> Glob(p[k.pi..], v[k.vi..]));
      SegmentConsumes(p, v, s + 1, k.pi, j);
    }
  }

  /** For a value without a literal '*', every match is found. */
  lemma MatchIsComplete(pattern: string, value: string)
    requires '*' !in value
    ensures Glob(LowerAll(pattern), LowerAll(value)) ==> Matches(pattern, value)
  {
    var p, v := LowerAll(pattern), LowerAll(value);
    LowerKeepsStars(value);
    assert p[0..] == p && v[0..] == v;
    if Glob(p, v) {
      OutcomeIsComplete(p, v, START);
    }
  }

  /** Writing letters of the pattern or the value in the other case changes no
      answer. */
  lemma MatchIgnoresCase(pattern: string, value: string, pattern': string, value': string)
    requires Recased(pattern, pattern') && Recased(value, value')
    ensures Matches(pattern, value) == Matches(pattern', value')
  {
    RecasedIff(pattern, pattern');
    RecasedIff(value, value');
    hide Outcome, Recased;
  }

  // ---------- exactly which values are safe ----------

  function Repeat(c: char, n: nat): (r: string)
    ensures |r| == n && forall i :: 0 <= i < n ==> r[i] == c
  {
    seq(n, i => c)
  }

  /** The matcher agrees with the glob meaning on a value, for every pattern, if
      and only if the value contains no literal '*'. */
  lemma CompleteExactlyWithoutStars(value: string)
    ensures (forall pattern :: Matches(pattern, value) == Glob(LowerAll(pattern), LowerAll(value)))
       <==> '*' !in value
  {
    if '*' !in value {
      forall pattern
        ensures Matches(pattern, value) == Glob(LowerAll(pattern), LowerAll(value))
      {
        MatchIsSound(pattern, value);
        MatchIsComplete(pattern, value);
      }
    } else {
      var pattern := MissedPattern(value);
    }
  }

  lemma {:induction false} FirstStar(v: string) returns (k: nat)
    requires '*' in v
    ensures k < |v| && v[k] == '*' && '*' !in v[..k]
  {
    if v[0] == '*' {
      k := 0;
    } else {
      k := FirstStar(v[1..]);
      k := k + 1;
      assert v[..k] == [v[0]] + v[1..][..k - 1];
    }
  }

  /** For a value holding a '*': itself up to that star, the star, and one '?'
      more than characters remain. The loop spends the star on the literal. */
  lemma MissedPattern(value: string) returns (pattern: string)
    requires '*' in value
    ensures !Matches(pattern, value) && Glob(LowerAll(pattern), LowerAll(value))
  {
    var v := LowerAll(value);
    LowerKeepsStars(value);
    var k := FirstStar(v);
    pattern := value[..k] + "*" + Repeat('?', |v| - k);
    var p := LowerAll(pattern);
    assert |p| == |v| + 1;
    assert forall i :: 0 <= i < k ==> p[i] == v[i];
    assert p[k] == '*' && forall i :: k < i < |p| ==> p[i] == '?';
    RunsOut(p, v, k, 0);
    QuestionsMatch(p, v, k + 1, k);
    StarThen(p, v, k, k, k);
    SamePrefixMatches(p, v, k, 0);
    assert p[0..] == p && v[0..] == v;
  }

  lemma {:induction false} RunsOut(p: string, v: string, k: nat, i: nat)
    requires |p| == |v| + 1 && k < |v| && i <= |v|
    requires p[k] == '*' && v[k] == '*' && (forall x :: 0 <= x < k ==> p[x] == v[x])
    requires forall x :: k < x < |p| ==> p[x] == '?'
    ensures !Outcome(p, v, Cursor(i, i, NoStar))
    decreases |v| - i
  {
    if i == |v| {
      assert p[i..][0] == '?';
    } else {
      RunsOut(p, v, k, i + 1);
    }
  }

  lemma {:induction false} QuestionsMatch(p: string, v: string, i: nat, j: nat)
    requires i <= |p| && j <= |v| && |p| - i == |v| - j
    requires forall x :: i <= x < |p| ==> p[x] == '?'
    ensures Glob(p[i..], v[j..])
    decreases |p| - i
  {
    if i < |p| {
      QuestionsMatch(p, v, i + 1, j + 1);
      OneStep(p, v, i, j);
    }
  }

  lemma {:induction false} SamePrefixMatches(p: string, v: string, k: nat, i: nat)
    requires i <= k <= |p| && k <= |v| && Glob(p[k..], v[k..])
    requires forall x :: i <= x < k ==> p[x] == v[x]
    ensures Glob(p[i..], v[i..])
    decreases k - i
  {
    if i < k {
      SamePrefixMatches(p, v, k, i + 1);
      OneStep(p, v, i, i);
    }
  }

  // ---------- the ignore lists ----------

  /** filename_from_path: what follows the last separator. */
  function FileName(path: string): (name: string)
    ensures |name| <= |path| && path[|path| - |name|..] == name
    ensures forall c :: c in name ==> !IsSeparator(c)
    ensures name == path || IsSeparator(path[|path| - |name| - 1])
  {
    if path == [] then []
    else
      var rest := FileName(path[1..]);
      if |rest| == |path| - 1 && !IsSeparator(path[0]) then path else rest
  }

  /** The pattern, read as a glob, matches the value or its file name. */
  predicate Globs(pattern: string, value: string) {
    Glob(LowerAll(pattern), LowerAll(value)) || Glob(LowerAll(pattern), LowerAll(FileName(value)))
  }

  predicate GlobbedByAny(patterns: seq<string>, value: string) {
    exists p :: p in patterns && Globs(p, value)
  }

  /** The matcher accepts the value or its file name. */
  predicate Accepts(pattern: string, value: string) {
    Matches(pattern, value) || Matches(pattern, FileName(value))
  }

  predicate MatchedByAny(patterns: seq<string>, value: string) {
    exists p :: p in patterns && Accepts(p, value)
  }

  lemma FileNameWithoutStar(value: string)
    requires '*' !in value
    ensures '*' !in FileName(value)
  {
    var name := FileName(value);
    assert forall i :: 0 <= i < |name| ==> name[i] == value[|value| - |name|..][i];
  }

  lemma MatchIsExact(pattern: string, value: string)
    requires '*' !in value
    ensures Matches(pattern, value) == Glob(LowerAll(pattern), LowerAll(value))
  {
    hide Matches, Glob;
    MatchIsSound(pattern, value);
    MatchIsComplete(pattern, value);
  }

  lemma AcceptsExactlyGlobs(pattern: string, value: string)
    requires '*' !in value
    ensures Accepts(pattern, value) == Globs(pattern, value)
  {
    hide Matches, Glob, FileName, LowerAll;
    FileNameWithoutStar(value);
    MatchIsExact(pattern, value);
    MatchIsExact(pattern, FileName(value));
  }

  /** Over a pattern list, accepting is matching some pattern as a glob. */
  lemma AnyMatchIsAnyGlob(patterns: seq<string>, value: string)
    requires '*' !in value
    ensures MatchedByAny(patterns, value) <==> GlobbedByAny(patterns, value)
  {
    hide Accepts, Globs;
    forall p | p in patterns
      ensures Accepts(p, value) == Globs(p, value)
    {
      AcceptsExactlyGlobs(p, value);
    }
  }

  lemma {:induction false} FileNameOfLower(path: string)
    ensures FileName(LowerAll(path)) == LowerAll(FileName(path))
  {
    if path != [] {
      FileNameOfLower(path[1..]);
      assert LowerAll(path)[1..] == LowerAll(path[1..]);
      SeparatorsHaveNoCase(path[0]);
    }
  }

  lemma SeparatorsHaveNoCase(c: char)
    ensures IsSeparator(Lower(c)) <==> IsSeparator(c)
  {
  }

  lemma FileNameRecased(a: string, b: string)
    requires Recased(a, b)
    ensures Recased(FileName(a), FileName(b))
  {
    hide Recased, FileName, LowerAll;
    RecasedIff(a, b);
    FileNameOfLower(a);
    FileNameOfLower(b);
    RecasedIff(FileName(a), FileName(b));
  }

  /** Nor does it change what an ignore list accepts. */
  lemma ListIgnoresCase(patterns: seq<string>, value: string, patterns': seq<string>, value': string)
    requires |patterns| == |patterns'| && forall i :: 0 <= i < |patterns| ==> Recased(patterns[i], patterns'[i])
    requires Recased(value, value')
    ensures MatchedByAny(patterns, value) == MatchedByAny(patterns', value')
  {
    hide Matches, FileName, Recased;
    FileNameRecased(value, value');
    forall i | 0 <= i < |patterns|
      ensures Accepts(patterns[i], value) == Accepts(patterns'[i], value')
    {
      MatchIgnoresCase(patterns[i], value, patterns'[i], value');
      MatchIgnoresCase(patterns[i], FileName(value), patterns'[i], FileName(value'));
    }
    if MatchedByAny(patterns, value) {
      var i :| 0 <= i < |patterns| && Accepts(patterns[i], value);
      assert patterns'[i] in patterns';
    }
    if MatchedByAny(patterns', value') {
      var i :| 0 <= i < |patterns'| && Accepts(patterns'[i], value');
      assert patterns[i] in patterns;
    }
  }

  /** value_matches_any_pattern. */
  method ValueMatchesAnyPattern(patterns: seq<string>, value: string) returns (found: bool)
    ensures found <==> value != [] && MatchedByAny(patterns, value)
    ensures '*' !in value ==> (found <==> value != [] && GlobbedByAny(patterns, value))
  {
    hide Matches, Glob, FileName, LowerAll;
    if value == [] {
      return false;
    }
    if '*' !in value {
      AnyMatchIsAnyGlob(patterns, value);
    }
    var filename := FileName(value);
    var i := 0;
    while i < |patterns|
      invariant 0 <= i <= |patterns|
      invariant forall j :: 0 <= j < i ==> !Accepts(patterns[j], value)
    {
      var whole := WildcardMatchIgnoreCase(patterns[i], value);
      var last := WildcardMatchIgnoreCase(patterns[i], filename);
      if whole || last {
        assert patterns[i] in patterns;
        return true;
      }
      i := i + 1;
    }
    return false;
  }
}
