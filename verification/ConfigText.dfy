/** The text of the configuration file: trimming, lines, key=value pairs and
    pattern lists. */
module ConfigText {
  import opened Prelude
  import opened Text

  // ---------- white space ----------

  predicate IsTrimmed(s: string) {
    s == [] || (!IsSpace(s[0]) && !IsSpace(s[|s| - 1]))
  }

  function TrimFront(s: string): string {
    if s != [] && IsSpace(s[0]) then TrimFront(s[1..]) else s
  }

  function TrimBack(s: string): string {
    if s != [] && IsSpace(s[|s| - 1]) then TrimBack(s[..|s| - 1]) else s
  }

  /** trim. */
  function Trim(s: string): string {
    TrimBack(TrimFront(s))
  }

  lemma {:induction false} TrimFrontFacts(s: string)
    ensures TrimFront(s) == [] || !IsSpace(TrimFront(s)[0])
    ensures forall c :: c in TrimFront(s) ==> c in s
  {
    if s != [] && IsSpace(s[0]) {
      TrimFrontFacts(s[1..]);
    }
  }

  lemma {:induction false} TrimBackFacts(s: string)
    ensures TrimBack(s) == [] || (!IsSpace(TrimBack(s)[|TrimBack(s)| - 1]) && TrimBack(s)[0] == s[0])
    ensures forall c :: c in TrimBack(s) ==> c in s
  {
    if s != [] && IsSpace(s[|s| - 1]) {
      TrimBackFacts(s[..|s| - 1]);
    }
  }

  /** Trimming keeps what is trimmed and always gives something trimmed. */
  lemma TrimFacts(s: string)
    ensures IsTrimmed(Trim(s)) && (IsTrimmed(s) ==> Trim(s) == s)
    ensures forall c :: c in Trim(s) ==> c in s
  {
    TrimFrontFacts(s);
    TrimBackFacts(TrimFront(s));
  }

  /** Only the six blanks of the C locale. */
  ghost predicate Blanks(s: string) {
    forall i :: 0 <= i < |s| ==> s[i] as int in {9, 10, 11, 12, 13, 32}
  }

  lemma {:induction false} TrimFrontIs(front: string, core: string)
    requires Blanks(front) && (core == [] || core[0] as int !in {9, 10, 11, 12, 13, 32})
    ensures TrimFront(front + core) == core
  {
    if front == [] {
      assert front + core == core;
    } else {
      assert (front + core)[1..] == front[1..] + core;
      TrimFrontIs(front[1..], core);
    }
  }

  lemma {:induction false} TrimBackIs(core: string, back: string)
    requires Blanks(back) && (core == [] || core[|core| - 1] as int !in {9, 10, 11, 12, 13, 32})
    ensures TrimBack(core + back) == core
  {
    var s := core + back;
    if back == [] {
      assert s == core;
    } else {
      assert s[..|s| - 1] == core + back[..|back| - 1];
      TrimBackIs(core, back[..|back| - 1]);
    }
  }

  /** Trimming takes away exactly the blanks around a text. */
  lemma TrimStrips(front: string, core: string, back: string)
    requires Blanks(front) && Blanks(back)
    requires core == [] || (core[0] as int !in {9, 10, 11, 12, 13, 32} && core[|core| - 1] as int !in {9, 10, 11, 12, 13, 32})
    ensures Trim(front + core + back) == core
  {
    if core == [] {
      assert front + core + back == (front + back) + [];
      TrimFrontIs(front + back, []);
    } else {
      assert front + core + back == front + (core + back);
      TrimFrontIs(front, core + back);
      TrimBackIs(core, back);
    }
  }

  // ---------- lines ----------

  /** Index of the first c, or the length. */
  function IndexOf(s: string, c: char): (n: nat)
    ensures n <= |s| && c !in s[..n] && (n < |s| ==> s[n] == c)
  {
    if s == [] || s[0] == c then 0
    else
      assert s == [s[0]] + s[1..];
      1 + IndexOf(s[1..], c)
  }

  lemma {:induction false} IndexIs(s: string, c: char, n: nat)
    requires n <= |s| && c !in s[..n] && (n < |s| ==> s[n] == c)
    ensures IndexOf(s, c) == n
  {
    if n > 0 {
      assert s[..n][0] == s[0];
      assert s[..n][1..] == s[1..][..n - 1];
      IndexIs(s[1..], c, n - 1);
    }
  }

  /** What successive getline calls deliver. */
  function Lines(text: string): seq<string>
    decreases |text|
  {
    if text == [] then []
    else
      var n := IndexOf(text, '\n');
      [text[..n]] + if n < |text| then Lines(text[n + 1..]) else []
  }

  /** The text so far ends where a line ends. */
  predicate AtLineStart(text: string) {
    text == [] || text[|text| - 1] == '\n'
  }

  lemma BreakIsInside(text: string)
    requires text != [] && AtLineStart(text)
    ensures IndexOf(text, '\n') < |text|
  {
    assert text[..|text|] == text;
    assert text[|text| - 1] in text;
  }

  lemma OneLine(line: string)
    requires '\n' !in line
    ensures Lines(line + "\n") == [line]
    ensures line != [] ==> Lines(line) == [line]
  {
    assert (line + "\n")[..|line|] == line && line[..|line|] == line;
    IndexIs(line + "\n", '\n', |line|);
    IndexIs(line, '\n', |line|);
    assert (line + "\n")[|line| + 1..] == [];
  }

  lemma SkipFirstLine(text: string, more: string)
    requires text != [] && AtLineStart(text)
    ensures var n := IndexOf(text, '\n');
            n < |text| && Lines(text + more) == [text[..n]] + Lines(text[n + 1..] + more)
  {
    BreakIsInside(text);
    hide IndexOf;
    var n := IndexOf(text, '\n');
    assert (text + more)[..n] == text[..n];
    IndexIs(text + more, '\n', n);
    assert (text + more)[n + 1..] == text[n + 1..] + more;
  }

  /** Text appended at the start of a line adds its own lines. */
  lemma {:induction false} LinesOfConcat(text: string, more: string)
    requires AtLineStart(text)
    ensures Lines(text + more) == Lines(text) + Lines(more)
    decreases |text|
  {
    hide Lines;
    if text == [] {
      NoLines();
      assert text + more == more;
    } else {
      var n := IndexOf(text, '\n');
      SkipFirstLine(text, more);
      SkipFirstLine(text, "");
      assert text + "" == text && text[n + 1..] + "" == text[n + 1..];
      LinesOfConcat(text[n + 1..], more);
    }
  }

  lemma LinesOfAppend(text: string, line: string)
    requires AtLineStart(text) && '\n' !in line
    ensures Lines(text + line + "\n") == Lines(text) + [line]
    ensures line != [] ==> Lines(text + line) == Lines(text) + [line]
  {
    hide Lines;
    assert text + line + "\n" == text + (line + "\n");
    LinesOfConcat(text, line + "\n");
    LinesOfConcat(text, line);
    OneLine(line);
  }

  lemma {:induction false} LinesHaveNoBreaks(text: string)
    ensures forall i :: 0 <= i < |Lines(text)| ==> '\n' !in Lines(text)[i]
    decreases |text|
  {
    if text != [] {
      var n := IndexOf(text, '\n');
      if n < |text| {
        LinesHaveNoBreaks(text[n + 1..]);
      }
    }
  }

  // ---------- key=value lines ----------

  /** One line: skipped, or entered unless its key is already there. */
  function AddLine(values: map<string, string>, line: string): map<string, string> {
    if line == [] || line[0] == '#' || '=' !in line then values
    else
      var pos := IndexOf(line, '=');
      var key := Trim(line[..pos]);
      if key in values || pos == |line| then values else values[key := Trim(line[pos + 1..])]
  }

  /** read_key_values, line by line. */
  function KeyValues(lines: seq<string>): map<string, string> {
    if lines == [] then map[] else AddLine(KeyValues(lines[..|lines| - 1]), lines[|lines| - 1])
  }

  /** Values are trimmed and sit on one line. */
  ghost predicate CleanValues(values: map<string, string>) {
    forall key :: key in values ==> IsTrimmed(values[key]) && '\n' !in values[key]
  }

  lemma {:induction false} ParsedValuesAreClean(lines: seq<string>)
    requires forall i :: 0 <= i < |lines| ==> '\n' !in lines[i]
    ensures CleanValues(KeyValues(lines))
  {
    if lines != [] {
      var line := lines[|lines| - 1];
      ParsedValuesAreClean(lines[..|lines| - 1]);
      var pos := IndexOf(line, '=');
      if pos < |line| {
        TrimFacts(line[pos + 1..]);
      }
    }
  }

  predicate CleanKey(key: string) {
    key != [] && IsTrimmed(key) && key[0] != '#' && '=' !in key && '\n' !in key
  }

  lemma LineOfEntry(values: map<string, string>, key: string, value: string)
    requires CleanKey(key) && IsTrimmed(value)
    ensures AddLine(values, key + "=" + value) == if key in values then values else values[key := value]
  {
    var line := key + "=" + value;
    assert line[|key|] == '=' && line[..|key|] == key && line[|key| + 1..] == value;
    IndexIs(line, '=', |key|);
    TrimFacts(key);
    TrimFacts(value);
  }

  /** read_key_values. */
  method ReadKeyValues(text: string) returns (values: map<string, string>)
    ensures values == KeyValues(Lines(text)) && CleanValues(values)
  {
    hide *;
    LinesHaveNoBreaks(text);
    ParsedValuesAreClean(Lines(text));
    values := map[];
    var input := text;
    ghost var lines: seq<string> := [];
    NoLines();
    while input != []
      invariant values == KeyValues(lines) && lines + Lines(input) == Lines(text)
      decreases |input|
    {
      var end := IndexOf(input, '\n');
      var line := input[..end];
      GetLine(input);
      ExtendLines(lines, line);
      assert lines + Lines(input) == lines + [line] + Lines(if end < |input| then input[end + 1..] else []);
      lines := lines + [line];
      input := if end < |input| then input[end + 1..] else [];
      AddLineSkips(values, line);
      if line == [] || line[0] == '#' {
        continue;
      }
      var pos := IndexOf(line, '=');
      if pos == |line| {
        continue;
      }
      var key, value := Trim(line[..pos]), Trim(line[pos + 1..]);
      if key !in values {
        values := values[key := value];
      }
    }
    NoLines();
    assert lines == Lines(text);
  }

  lemma NoLines()
    ensures Lines("") == [] && KeyValues([]) == map[]
  {
  }

  lemma GetLine(input: string)
    requires input != []
    ensures var end := IndexOf(input, '\n');
            Lines(input) == [input[..end]] + Lines(if end < |input| then input[end + 1..] else [])
  {
  }

  lemma ExtendLines(lines: seq<string>, line: string)
    ensures KeyValues(lines + [line]) == AddLine(KeyValues(lines), line)
  {
    assert (lines + [line])[..|lines|] == lines;
  }

  lemma AddLineSkips(values: map<string, string>, line: string)
    ensures var pos := IndexOf(line, '=');
            AddLine(values, line) ==
              if line == [] || line[0] == '#' || pos == |line| then values
              else if Trim(line[..pos]) in values then values
              else values[Trim(line[..pos]) := Trim(line[pos + 1..])]
  {
    var pos := IndexOf(line, '=');
    if pos == |line| {
      assert line[..pos] == line;
    } else {
      assert line[pos] in line;
    }
  }

  // ---------- pattern lists ----------

  predicate IsDelimiter(c: char) {
    c == ',' || c == ';'
  }

  function PatternEnd(s: string): (n: nat)
    ensures n <= |s| && (forall i :: 0 <= i < n ==> !IsDelimiter(s[i])) && (n < |s| ==> IsDelimiter(s[n]))
  {
    if s == [] || IsDelimiter(s[0]) then 0 else 1 + PatternEnd(s[1..])
  }

  /** split_patterns. */
  function SplitPatterns(s: string): seq<string>
    decreases |s|
  {
    var n := PatternEnd(s);
    var pattern := Trim(s[..n]);
    (if pattern == [] then [] else [pattern]) + (if n == |s| then [] else SplitPatterns(s[n + 1..]))
  }

  /** join_patterns. */
  function JoinPatterns(patterns: seq<string>): string {
    if patterns == [] then []
    else
      var front := JoinPatterns(patterns[..|patterns| - 1]);
      front + (if front == [] then [] else ";") + patterns[|patterns| - 1]
  }

  predicate CleanPattern(p: string) {
    p != [] && IsTrimmed(p) && forall c :: c in p ==> !IsDelimiter(c)
  }

  ghost predicate CleanPatterns(patterns: seq<string>) {
    forall i :: 0 <= i < |patterns| ==> CleanPattern(patterns[i])
  }

  lemma {:induction false} PatternEndIs(s: string, n: nat)
    requires n <= |s| && (forall i :: 0 <= i < n ==> !IsDelimiter(s[i])) && (n < |s| ==> IsDelimiter(s[n]))
    ensures PatternEnd(s) == n
  {
    if n > 0 {
      PatternEndIs(s[1..], n - 1);
    }
  }

  lemma SplitUnfolds(s: string, n: nat)
    requires n <= |s| && (forall i :: 0 <= i < n ==> !IsDelimiter(s[i])) && (n < |s| ==> IsDelimiter(s[n]))
    ensures SplitPatterns(s) == (if Trim(s[..n]) == [] then [] else [Trim(s[..n])])
                                + (if n == |s| then [] else SplitPatterns(s[n + 1..]))
  {
    hide Trim, PatternEnd, IsDelimiter;
    PatternEndIs(s, n);
  }

  lemma {:induction false} SplitAround(a: string, c: char, b: string)
    requires c == ',' || c == ';'
    ensures SplitPatterns(a + [c] + b) == SplitPatterns(a) + SplitPatterns(b)
    decreases |a|
  {
    hide Trim, SplitPatterns;
    var n, all := PatternEnd(a), a + [c] + b;
    SplitUnfolds(a, n);
    SplitUnfolds(all, n);
    assert all[..n] == a[..n];
    if n == |a| {
      assert all[n + 1..] == b;
    } else {
      assert all[n + 1..] == a[n + 1..] + [c] + b;
      SplitAround(a[n + 1..], c, b);
    }
  }

  lemma SplitOfPattern(p: string)
    requires CleanPattern(p)
    ensures SplitPatterns(p) == [p]
  {
    hide Trim;
    forall i | 0 <= i < |p|
      ensures !IsDelimiter(p[i])
    {
      assert p[i] in p;
    }
    SplitUnfolds(p, |p|);
    assert p[..|p|] == p;
    TrimFacts(p);
  }

  lemma TrimmedPiece(s: string, n: nat)
    requires n <= |s| && forall i :: 0 <= i < n ==> !IsDelimiter(s[i])
    ensures Trim(s[..n]) == [] || CleanPattern(Trim(s[..n]))
    ensures forall c :: c in Trim(s[..n]) ==> c in s
  {
    TrimFacts(s[..n]);
    hide Trim;
    forall c | c in s[..n]
      ensures c in s && !IsDelimiter(c)
    {
      var i :| 0 <= i < n && s[..n][i] == c;
      assert s[i] == c;
    }
  }

  /** Every character of the patterns comes from the text. */
  ghost predicate DrawnFrom(patterns: seq<string>, s: string) {
    forall i :: 0 <= i < |patterns| ==> forall c :: c in patterns[i] ==> c in s
  }

  lemma {:induction false} SplitGivesCleanPatterns(s: string)
    ensures CleanPatterns(SplitPatterns(s)) && DrawnFrom(SplitPatterns(s), s)
    decreases |s|
  {
    hide Trim, SplitPatterns, CleanPattern;
    var n := PatternEnd(s);
    SplitUnfolds(s, n);
    TrimmedPiece(s, n);
    if n < |s| {
      SplitGivesCleanPatterns(s[n + 1..]);
      assert forall c :: c in s[n + 1..] ==> c in s;
    }
  }

  lemma {:induction false} CleanListReadsBack(patterns: seq<string>)
    requires CleanPatterns(patterns)
    ensures SplitPatterns(JoinPatterns(patterns)) == patterns
    decreases |patterns|
  {
    hide SplitPatterns, CleanPattern;
    if patterns == [] {
      EmptyList();
    } else {
      var front, last := patterns[..|patterns| - 1], patterns[|patterns| - 1];
      CleanListReadsBack(front);
      CleanListText(front);
      SplitOfPattern(last);
      SplitAround(JoinPatterns(front), ';', last);
      assert patterns == front + [last];
      if front == [] {
        assert JoinPatterns(patterns) == [] + [] + last == last;
      }
    }
  }

  lemma EmptyList()
    ensures SplitPatterns("") == [] && Trim("") == ""
  {
  }

  /** The text of a clean list is trimmed, and on one line if its patterns are. */
  lemma {:induction false} CleanListText(patterns: seq<string>)
    requires CleanPatterns(patterns)
    ensures IsTrimmed(JoinPatterns(patterns)) && (patterns != [] ==> JoinPatterns(patterns) != [])
    ensures (forall i :: 0 <= i < |patterns| ==> '\n' !in patterns[i]) ==> '\n' !in JoinPatterns(patterns)
  {
    if patterns != [] {
      assert CleanPattern(patterns[|patterns| - 1]);
      CleanListText(patterns[..|patterns| - 1]);
    }
  }

  /** Splitting gives a joined list back exactly when every pattern is trimmed,
      non-empty and free of delimiters. */
  lemma SplitInvertsJoinIff(patterns: seq<string>)
    ensures SplitPatterns(JoinPatterns(patterns)) == patterns <==> CleanPatterns(patterns)
  {
    SplitGivesCleanPatterns(JoinPatterns(patterns));
    if CleanPatterns(patterns) {
      CleanListReadsBack(patterns);
    }
  }

  /** A character separates patterns, whatever stands around it, exactly when it is
      the comma or the semicolon. */
  lemma SeparatesIff(c: char)
    ensures (forall a, b :: SplitPatterns(a + [c] + b) == SplitPatterns(a) + SplitPatterns(b)) <==> c == ',' || c == ';'
  {
    if c == ',' || c == ';' {
      forall a, b
        ensures SplitPatterns(a + [c] + b) == SplitPatterns(a) + SplitPatterns(b)
      {
        SplitAround(a, c, b);
      }
    } else {
      var text := "x" + [c] + "y";
      assert text == ['x', c, 'y'];
      SplitOfPattern(text);
      SplitOfPattern("x");
      SplitOfPattern("y");
    }
  }

  /** split_patterns. */
  method SplitPatternList(value: string) returns (patterns: seq<string>)
    ensures patterns == SplitPatterns(value) && CleanPatterns(patterns)
  {
    hide Trim, SplitPatterns, CleanPattern;
    SplitGivesCleanPatterns(value);
    patterns := [];
    var start := 0;
    assert value[0..] == value;
    while start <= |value|
      invariant 0 <= start <= |value|
      invariant patterns + SplitPatterns(value[start..]) == SplitPatterns(value)
      decreases |value| - start
    {
      var end := start;
      while end < |value| && value[end] != ',' && value[end] != ';'
        invariant start <= end <= |value| && forall i :: start <= i < end ==> !IsDelimiter(value[i])
      {
        end := end + 1;
      }
      SplitUnfolds(value[start..], end - start);
      assert value[start..][..end - start] == value[start..end];
      var pattern := Trim(value[start..end]);
      if pattern != [] {
        patterns := patterns + [pattern];
      }
      if end == |value| {
        break;
      }
      assert value[start..][end - start + 1..] == value[end + 1..];
      start := end + 1;
    }
  }

  /** join_patterns. */
  method JoinPatternList(patterns: seq<string>) returns (result: string)
    ensures result == JoinPatterns(patterns)
  {
    result := [];
    var i := 0;
    while i < |patterns|
      invariant 0 <= i <= |patterns| && result == JoinPatterns(patterns[..i])
    {
      assert patterns[..i + 1][..i] == patterns[..i];
      if result != [] {
        result := result + [';'];
      }
      result := result + patterns[i];
      i := i + 1;
    }
    assert patterns[..i] == patterns;
  }
}
