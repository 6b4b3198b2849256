/** The configuration file: loading it, saving it, and the load-change-save with
    which the tray application switches modes. */
module ConfigFile {
  import opened Prelude
  import opened Text
  import opened ConfigText
  import opened UtcTime

  datatype AppMode = Disabled | Monitor | Serve

  datatype AppConfig = AppConfig(
    sourceUnc: string, presentationLetter: char, cacheLetter: char, sqlitePath: string,
    mode: Option<AppMode>, copyDelay: int, compareHash: bool, minFreeBytes: int,
    processPatterns: seq<string>, pathPatterns: seq<string>)

  const DEFAULTS := AppConfig([], 'N', 'K', [], None, 60, false, 6 * 1024 * MIB, ["explorer.exe"],
                              ["~$*", "*-wal", "*-shm", "*-journal"])

  const MIB := 1024 * 1024
  const TWO_TO_63 := 0x8000_0000_0000_0000
  const TWO_TO_64 := 0x1_0000_0000_0000_0000

  /** The keys, in the order they are written. */
  datatype Setting =
    | SourceUnc | PresentationLetter | CacheLetter | SqlitePath | Mode | CopyDelay
    | CompareHash | MinFree | ProcessPatterns | PathPatterns

  function Key(s: Setting): string {
    match s
    case SourceUnc => "source_unc"
    case PresentationLetter => "source_presentation_letter"
    case CacheLetter => "cache_letter"
    case SqlitePath => "sqlite_path"
    case Mode => "mode"
    case CopyDelay => "copy_delay_seconds"
    case CompareHash => "compare_hash_before_overwrite"
    case MinFree => "min_free_space_mb"
    case ProcessPatterns => "ignored_process_patterns"
    case PathPatterns => "ignored_path_patterns"
  }

  lemma KeysDiffer(a: Setting, b: Setting)
    ensures Key(a) == Key(b) ==> a == b
  {
  }

  predicate IsKeyLetter(c: char) {
    'a' <= c <= 'z' || c == '_'
  }

  lemma ShortKeyLetters(s: Setting, i: nat)
    requires s in {SourceUnc, CacheLetter, SqlitePath, Mode} && i < |Key(s)|
    ensures IsKeyLetter(Key(s)[i])
  {
  }

  lemma LongKeyLetters(s: Setting, i: nat)
    requires s in {CopyDelay, MinFree, PathPatterns} && i < |Key(s)|
    ensures IsKeyLetter(Key(s)[i])
  {
  }

  lemma LongestKeyLetters(s: Setting, i: nat)
    requires s in {PresentationLetter, CompareHash, ProcessPatterns} && i < |Key(s)|
    ensures IsKeyLetter(Key(s)[i])
  {
  }

  lemma KeyIsClean(s: Setting)
    ensures CleanKey(Key(s))
  {
    assert Key(s) != [];
    hide Key;
    forall i | 0 <= i < |Key(s)|
      ensures IsKeyLetter(Key(s)[i])
    {
      if s in {SourceUnc, CacheLetter, SqlitePath, Mode} {
        ShortKeyLetters(s, i);
      } else if s in {CopyDelay, MinFree, PathPatterns} {
        LongKeyLetters(s, i);
      } else {
        LongestKeyLetters(s, i);
      }
    }
  }

  // ---------- numbers ----------

  /** Decimal digits, as the output stream prints them. */
  function DecimalNat(n: nat): string {
    if n < 10 then [Digit(n)] else DecimalNat(n / 10) + [Digit(n % 10)]
  }

  function Decimal(n: int): string {
    if n < 0 then "-" + DecimalNat(-n) else DecimalNat(n)
  }

  function LeadingDigits(s: string): (n: nat)
    ensures n <= |s| && (forall i :: 0 <= i < n ==> IsDigit(s[i])) && (n < |s| ==> !IsDigit(s[n]))
  {
    if s == [] || !IsDigit(s[0]) then 0 else 1 + LeadingDigits(s[1..])
  }

  function Magnitude(digits: string): nat
    requires forall i :: 0 <= i < |digits| ==> IsDigit(digits[i])
  {
    if digits == [] then 0 else 10 * Magnitude(digits[..|digits| - 1]) + DigitValue(digits[|digits| - 1])
  }

  /** Optional white space, an optional sign and digits; what follows is ignored. */
  datatype Number = Number(negative: bool, magnitude: nat)

  function ParseNumber(text: string): Option<Number> {
    var s := TrimFront(text);
    var signed := s != [] && (s[0] == '-' || s[0] == '+');
    var rest := if signed then s[1..] else s;
    var n := LeadingDigits(rest);
    if n == 0 then None else Some(Number(signed && s[0] == '-', Magnitude(rest[..n])))
  }

  /** std::stoll. */
  function ParseSigned(text: string): Result<int, string> {
    var n := ParseNumber(text);
    if n.None? then Err("invalid stoll argument")
    else
      var value: int := if n.value.negative then 0 - n.value.magnitude else n.value.magnitude;
      if -TWO_TO_63 <= value < TWO_TO_63 then Ok(value) else Err("stoll argument out of range")
  }

  /** std::stoull: a negative number wraps around. */
  function ParseUnsigned(text: string): Result<nat, string> {
    var n := ParseNumber(text);
    if n.None? then Err("invalid stoull argument")
    else if n.value.magnitude >= TWO_TO_64 then Err("stoull argument out of range")
    else Ok(if n.value.negative then (TWO_TO_64 - n.value.magnitude) % TWO_TO_64 else n.value.magnitude)
  }

  lemma {:induction false} DecimalNatReadsBack(n: nat)
    ensures DecimalNat(n) != [] && forall i :: 0 <= i < |DecimalNat(n)| ==> IsDigit(DecimalNat(n)[i])
    ensures Magnitude(DecimalNat(n)) == n
  {
    if n < 10 {
      DigitInverse(n);
      assert [Digit(n)][..0] == [];
    } else {
      DecimalNatReadsBack(n / 10);
      DigitInverse(n % 10);
      assert DecimalNat(n)[..|DecimalNat(n)| - 1] == DecimalNat(n / 10);
    }
  }

  lemma {:induction false} AllDigits(s: string)
    requires forall i :: 0 <= i < |s| ==> IsDigit(s[i])
    ensures LeadingDigits(s) == |s|
  {
    if s != [] {
      AllDigits(s[1..]);
    }
  }

  lemma NothingToTrim(s: string)
    requires s != [] && !IsSpace(s[0])
    ensures TrimFront(s) == s
  {
  }

  /** A number without white space in front: its sign and its digits. */
  lemma SignedDigitsParse(s: string, negative: bool, digits: string)
    requires s == (if negative then "-" else "") + digits
    requires digits != [] && forall i :: 0 <= i < |digits| ==> IsDigit(digits[i])
    ensures ParseNumber(s) == Some(Number(negative, Magnitude(digits)))
  {
    hide TrimFront, LeadingDigits, Magnitude;
    AllDigits(digits);
    NothingToTrim(s);
    assert IsDigit(digits[0]);
    assert digits[..|digits|] == digits;
    assert if negative then s[1..] == digits else s == digits;
  }

  /** What is printed is read back, and is a clean value. */
  lemma DecimalReadsBack(n: int)
    ensures ParseNumber(Decimal(n)) == Some(Number(n < 0, if n < 0 then -n else n))
    ensures IsTrimmed(Decimal(n)) && '\n' !in Decimal(n) && Decimal(n) != []
  {
    var m := if n < 0 then -n else n;
    DecimalNatReadsBack(m);
    hide DecimalNat, Magnitude, ParseNumber, IsTrimmed, IsDigit;
    SignedDigitsParse(Decimal(n), n < 0, DecimalNat(m));
    NumberIsClean(Decimal(n));
  }

  lemma NumberIsClean(s: string)
    requires s != [] && forall i :: 0 <= i < |s| ==> s[i] == '-' || IsDigit(s[i])
    ensures IsTrimmed(s) && '\n' !in s
  {
    NoBreakInNumber(s);
  }

  lemma NoBreakInNumber(s: string)
    requires forall i :: 0 <= i < |s| ==> s[i] == '-' || IsDigit(s[i])
    ensures '\n' !in s
  {
  }

  function TenTo(n: nat): nat {
    if n == 0 then 1 else 10 * TenTo(n - 1)
  }

  /** Digits count in base ten. */
  lemma {:induction false} MagnitudeOfConcat(a: string, b: string)
    requires (forall i :: 0 <= i < |a| ==> IsDigit(a[i])) && (forall i :: 0 <= i < |b| ==> IsDigit(b[i]))
    ensures forall i :: 0 <= i < |a + b| ==> IsDigit((a + b)[i])
    ensures Magnitude(a + b) == Magnitude(a) * TenTo(|b|) + Magnitude(b)
    ensures |b| == 1 ==> Magnitude(b) == b[0] as int - '0' as int
    decreases |b|
  {
    if b == [] {
      assert a + b == a;
    } else {
      var front := b[..|b| - 1];
      MagnitudeOfConcat(a, front);
      assert (a + b)[..|a + b| - 1] == a + front;
      Shifted(Magnitude(a), TenTo(|front|), Magnitude(front), DigitValue(b[|b| - 1]));
    }
  }

  lemma Shifted(a: nat, t: nat, b: nat, d: int)
    ensures 10 * (a * t + b) + d == a * (10 * t) + (10 * b + d)
  {
  }

  /** What is printed has no superfluous zero in front. */
  lemma {:induction false} DecimalIsCanonical(n: nat)
    ensures |DecimalNat(n)| > 0 && (DecimalNat(n)[0] == '0' ==> n == 0 && |DecimalNat(n)| == 1)
  {
    if n >= 10 {
      DecimalIsCanonical(n / 10);
    } else {
      DigitInverse(n);
    }
  }

  /** A number is read behind blanks and one optional sign, to its last digit. */
  lemma NumberReads(blanks: string, sign: string, digits: string, rest: string)
    requires Blanks(blanks) && sign in {"", "+", "-"}
    requires digits != [] && (forall i :: 0 <= i < |digits| ==> IsDigit(digits[i])) && (rest == [] || !IsDigit(rest[0]))
    ensures ParseNumber(blanks + sign + digits + rest) == Some(Number(sign == "-", Magnitude(digits)))
  {
    hide ParseNumber, TrimFront, LeadingDigits, Magnitude;
    var tail := digits + rest;
    assert blanks + sign + digits + rest == blanks + (sign + tail);
    assert IsDigit(digits[0]) && tail[0] == digits[0] && tail[..|digits|] == digits;
    assert (sign + tail)[0] == if sign == "" then tail[0] else sign[0];
    TrimFrontIs(blanks, sign + tail);
    DigitsEnd(digits, rest);
    SignThenDigits(blanks + (sign + tail), sign, tail);
  }

  lemma SignThenDigits(text: string, sign: string, tail: string)
    requires TrimFront(text) == sign + tail && sign in {"", "+", "-"} && LeadingDigits(tail) > 0
    ensures ParseNumber(text) == Some(Number(sign == "-", Magnitude(tail[..LeadingDigits(tail)])))
  {
    hide TrimFront, Magnitude;
    assert IsDigit(tail[0]);
    var core := sign + tail;
    if sign == "" {
      assert core == tail;
    } else {
      assert core[0] == sign[0] && core[1..] == tail;
    }
    hide LeadingDigits;
  }

  lemma {:induction false} DigitsEnd(digits: string, rest: string)
    requires (forall i :: 0 <= i < |digits| ==> IsDigit(digits[i])) && (rest == [] || !IsDigit(rest[0]))
    ensures LeadingDigits(digits + rest) == |digits|
  {
    if digits == [] {
      assert digits + rest == rest;
    } else {
      assert (digits + rest)[1..] == digits[1..] + rest;
      DigitsEnd(digits[1..], rest);
    }
  }

  /** Without a digit there, nothing is read. */
  lemma NothingReads(blanks: string, sign: string, rest: string)
    requires Blanks(blanks) && sign in {"", "+", "-"} && (rest == [] || !IsDigit(rest[0]))
    requires sign == "" ==> rest == [] || rest[0] as int !in {9, 10, 11, 12, 13, 32, 43, 45}
    ensures ParseNumber(blanks + sign + rest) == None
  {
    var core := sign + rest;
    assert blanks + sign + rest == blanks + core;
    assert core == [] || core[0] == if sign == [] then rest[0] else sign[0];
    TrimFrontIs(blanks, core);
    assert core[|sign|..] == rest;
    hide TrimFront;
  }

  // ---------- loading ----------

  /** app_mode_to_wstring. */
  function ModeName(m: AppMode): string {
    match m
    case Disabled => "disabled"
    case Monitor => "monitor"
    case Serve => "serve"
  }

  /** app_mode_from_wstring. */
  function ModeOf(name: string): Result<AppMode, string> {
    var lowered := LowerAll(name);
    if lowered == "disabled" then Ok(Disabled)
    else if lowered == "monitor" then Ok(Monitor)
    else if lowered == "serve" then Ok(Serve)
    else Err("unknown app mode string")
  }

  lemma ModeReadsBack(m: AppMode)
    ensures ModeOf(ModeName(m)) == Ok(m)
    ensures ModeName(m) != [] && IsTrimmed(ModeName(m)) && '\n' !in ModeName(m)
  {
    assert LowerAll(ModeName(m)) == ModeName(m);
  }

  function Lookup(values: map<string, string>, s: Setting): Option<string> {
    if Key(s) in values then Some(values[Key(s)]) else None
  }

  /** read_letter. */
  function Letter(value: Option<string>, fallback: char): char {
    if value.None? || value.value == [] then fallback else Upper(value.value[0])
  }

  function LoadMode(value: Option<string>): Result<Option<AppMode>, string> {
    if value.None? || value.value == [] then Ok(None)
    else
      var m := ModeOf(value.value);
      if m.Ok? then Ok(Some(m.value)) else Err(m.error)
  }

  function LoadDelay(value: Option<string>): Result<int, string> {
    if value.None? then Ok(60) else ParseSigned(value.value)
  }

  function TextOr(value: Option<string>, fallback: string): string {
    if value.Some? then value.value else fallback
  }

  function LoadFlag(value: Option<string>): bool {
    value.Some? && (value.value == "1" || value.value == "true")
  }

  function PatternsOr(value: Option<string>, fallback: seq<string>): seq<string> {
    if value.Some? then SplitPatterns(value.value) else fallback
  }

  /** Megabytes to bytes in 64-bit arithmetic. */
  function LoadMinFree(value: Option<string>): Result<int, string> {
    if value.None? || value.value == [] then Ok(6 * 1024 * MIB)
    else
      var n := ParseUnsigned(value.value);
      if n.Ok? then Ok(n.value * MIB % TWO_TO_64) else Err(n.error)
  }

  /** load_config_file. */
  function LoadValues(values: map<string, string>): Result<AppConfig, string> {
    var mode, delay, minFree := LoadMode(Lookup(values, Mode)), LoadDelay(Lookup(values, CopyDelay)), LoadMinFree(Lookup(values, MinFree));
    if mode.Err? then Err(mode.error)
    else if delay.Err? then Err(delay.error)
    else if minFree.Err? then Err(minFree.error)
    else
      Ok(AppConfig(
        TextOr(Lookup(values, SourceUnc), DEFAULTS.sourceUnc),
        Letter(Lookup(values, PresentationLetter), 'N'), Letter(Lookup(values, CacheLetter), 'K'),
        TextOr(Lookup(values, SqlitePath), DEFAULTS.sqlitePath),
        mode.value, delay.value, LoadFlag(Lookup(values, CompareHash)), minFree.value,
        PatternsOr(Lookup(values, ProcessPatterns), DEFAULTS.processPatterns),
        PatternsOr(Lookup(values, PathPatterns), DEFAULTS.pathPatterns)))
  }

  // Each setting by its key, without the functions above.

  predicate HasText(values: map<string, string>, key: string) {
    key in values && values[key] != []
  }

  lemma LoadedFields(values: map<string, string>)
    requires LoadValues(values).Ok?
    ensures var c := LoadValues(values).value;
            && c.sourceUnc == (if "source_unc" in values then values["source_unc"] else "")
            && c.sqlitePath == (if "sqlite_path" in values then values["sqlite_path"] else "")
            && c.presentationLetter == (if HasText(values, "source_presentation_letter")
                                        then Upper(values["source_presentation_letter"][0]) else 'N')
            && c.cacheLetter == (if HasText(values, "cache_letter") then Upper(values["cache_letter"][0]) else 'K')
            && (c.compareHash <==> "compare_hash_before_overwrite" in values
                                   && values["compare_hash_before_overwrite"] in {"1", "true"})
            && c.processPatterns == (if "ignored_process_patterns" in values then SplitPatterns(values["ignored_process_patterns"])
                                     else ["explorer.exe"])
            && c.pathPatterns == (if "ignored_path_patterns" in values then SplitPatterns(values["ignored_path_patterns"])
                                  else ["~$*", "*-wal", "*-shm", "*-journal"])
  {
    hide SplitPatterns, Upper, ParseNumber, ModeOf;
  }

  function Signed(n: Number): int {
    var m: int := n.magnitude;
    if n.negative then -m else m
  }

  /** The mode by its name in any case, the delay with its sign, the space in
      megabytes: 64-bit arithmetic, in which a negative number wraps around. */
  lemma LoadedNumbers(values: map<string, string>)
    requires LoadValues(values).Ok?
    ensures var c := LoadValues(values).value;
            && (if !HasText(values, "mode") then c.mode == None
                else c.mode.Some? && NamesMode(values["mode"], c.mode.value))
            && (if "copy_delay_seconds" !in values then c.copyDelay == 60
                else
                  var n := ParseNumber(values["copy_delay_seconds"]);
                  n.Some? && c.copyDelay == Signed(n.value))
            && (if !HasText(values, "min_free_space_mb") then c.minFreeBytes == 6_442_450_944
                else
                  var n := ParseNumber(values["min_free_space_mb"]);
                  n.Some? && c.minFreeBytes == Signed(n.value) * 1_048_576 % 0x1_0000_0000_0000_0000)
  {
    hide SplitPatterns, Upper, ParseNumber, ModeOf, ParseUnsigned, NamesMode;
    if HasText(values, "mode") {
      ModeIsNamed(values["mode"]);
    }
    if HasText(values, "min_free_space_mb") {
      UnsignedWraps(values["min_free_space_mb"]);
    }
  }

  predicate NamesMode(name: string, m: AppMode) {
    Recased(name, match m case Disabled => "disabled" case Monitor => "monitor" case Serve => "serve")
  }

  lemma ModeIsNamed(name: string)
    ensures ModeOf(name).Ok? <==> exists m :: NamesMode(name, m)
    ensures ModeOf(name).Ok? ==> NamesMode(name, ModeOf(name).value)
  {
    RecasedIff(name, "disabled");
    RecasedIff(name, "monitor");
    RecasedIff(name, "serve");
    hide Recased;
    assert LowerAll("disabled") == "disabled" && LowerAll("monitor") == "monitor" && LowerAll("serve") == "serve";
    assert NamesMode(name, Disabled) <==> LowerAll(name) == "disabled";
    assert NamesMode(name, Monitor) <==> LowerAll(name) == "monitor";
    assert NamesMode(name, Serve) <==> LowerAll(name) == "serve";
  }

  lemma UnsignedWraps(text: string)
    ensures var n, r := ParseNumber(text), ParseUnsigned(text);
            && (r.Ok? <==> n.Some? && n.value.magnitude < 0x1_0000_0000_0000_0000)
            && (r.Ok? ==> r.value * MIB % TWO_TO_64 == Signed(n.value) * 1_048_576 % 0x1_0000_0000_0000_0000)
  {
    hide ParseNumber;
    var n := ParseNumber(text);
    if n.Some? && n.value.magnitude < TWO_TO_64 {
      WrapsAround(Signed(n.value), if n.value.negative && n.value.magnitude > 0 then 1 else 0);
    }
  }

  lemma WrapsAround(v: int, k: int)
    ensures (v + k * TWO_TO_64) * MIB % TWO_TO_64 == v * MIB % TWO_TO_64
  {
    assert (v + k * TWO_TO_64) * MIB == v * MIB + (k * MIB) * TWO_TO_64;
  }

  /** Loading fails exactly on an unknown mode, or on a delay or a space that is no
      number or out of range. */
  lemma LoadFailsIff(values: map<string, string>)
    ensures LoadValues(values).Err? <==>
              || (HasText(values, "mode") && forall m :: !NamesMode(values["mode"], m))
              || ("copy_delay_seconds" in values &&
                    var n := ParseNumber(values["copy_delay_seconds"]);
                    n.None? || !(-0x8000_0000_0000_0000 <= Signed(n.value) < 0x8000_0000_0000_0000))
              || (HasText(values, "min_free_space_mb") &&
                    var n := ParseNumber(values["min_free_space_mb"]);
                    n.None? || n.value.magnitude >= 0x1_0000_0000_0000_0000)
  {
    hide SplitPatterns, Upper, ParseNumber, ModeOf, ParseUnsigned, NamesMode;
    if HasText(values, "mode") {
      ModeIsNamed(values["mode"]);
    }
    if HasText(values, "min_free_space_mb") {
      UnsignedWraps(values["min_free_space_mb"]);
    }
  }

  /** What a file loads as; a missing file is an empty one. */
  function Load(content: Option<string>): Result<AppConfig, string> {
    LoadValues(KeyValues(Lines(if content.Some? then content.value else [])))
  }

  // ---------- saving ----------

  predicate Ascii(c: char) {
    c as int <= 0x7f
  }

  type Entries = seq<(Setting, string)>

  function HeadEntries(c: AppConfig): Entries {
    [(SourceUnc, c.sourceUnc), (PresentationLetter, [c.presentationLetter]), (CacheLetter, [c.cacheLetter]), (SqlitePath, c.sqlitePath)]
    + if c.mode.Some? then [(Mode, ModeName(c.mode.value))] else []
  }

  function TailEntries(c: AppConfig): Entries {
    [(CopyDelay, Decimal(c.copyDelay)), (CompareHash, if c.compareHash then "1" else "0"), (MinFree, Decimal(c.minFreeBytes / MIB)),
     (ProcessPatterns, JoinPatterns(c.processPatterns)), (PathPatterns, JoinPatterns(c.pathPatterns))]
  }

  function EntriesOf(c: AppConfig): Entries {
    HeadEntries(c) + TailEntries(c)
  }

  function TextOf(es: Entries): string {
    if es == [] then []
    else TextOf(es[..|es| - 1]) + (Key(es[|es| - 1].0) + "=" + es[|es| - 1].1) + "\n"
  }

  const NARROW_ERROR := "non-ASCII character cannot be narrowed"

  /** save_config_file on a writable path: the exception text, empty for none, and
      what the file holds afterwards. A letter that cannot be narrowed stops the
      save after the file was truncated. */
  function Save(c: AppConfig): (string, string) {
    if !Ascii(c.presentationLetter) then
      (NARROW_ERROR, TextOf([(SourceUnc, c.sourceUnc)]) + (Key(PresentationLetter) + "="))
    else if !Ascii(c.cacheLetter) then
      (NARROW_ERROR, TextOf([(SourceUnc, c.sourceUnc), (PresentationLetter, [c.presentationLetter])]) + (Key(CacheLetter) + "="))
    else ([], TextOf(EntriesOf(c)))
  }

  function HeadText(c: AppConfig): string {
    "source_unc=" + c.sourceUnc + "\n"
    + "source_presentation_letter=" + [c.presentationLetter] + "\n"
    + "cache_letter=" + [c.cacheLetter] + "\n"
    + "sqlite_path=" + c.sqlitePath + "\n"
    + match c.mode
      case None => ""
      case Some(Disabled) => "mode=disabled\n"
      case Some(Monitor) => "mode=monitor\n"
      case Some(Serve) => "mode=serve\n"
  }

  /** Saving succeeds exactly with two letters of at most seven bits, and then this
      is the text of the file, line by line. */
  lemma SavedText(c: AppConfig)
    ensures Save(c).0 == [] <==> c.presentationLetter as int < 128 && c.cacheLetter as int < 128
    ensures Save(c).0 == [] ==>
            Save(c).1 == HeadText(c)
                         + "copy_delay_seconds=" + Decimal(c.copyDelay) + "\n"
                         + "compare_hash_before_overwrite=" + (if c.compareHash then "1" else "0") + "\n"
                         + "min_free_space_mb=" + Decimal(c.minFreeBytes / 1_048_576) + "\n"
                         + "ignored_process_patterns=" + JoinPatterns(c.processPatterns) + "\n"
                         + "ignored_path_patterns=" + JoinPatterns(c.pathPatterns) + "\n"
  {
    SavedHead(c);
    hide Key, TextOf, HeadText, JoinPatterns, Decimal, HeadEntries;
    KeyTexts();
    var es0 := HeadEntries(c);
    var flag := if c.compareHash then "1" else "0";
    var t0 := HeadText(c);
    NextLine(es0, CopyDelay, "copy_delay_seconds=", Decimal(c.copyDelay), t0);
    var es1 := es0 + [(CopyDelay, Decimal(c.copyDelay))];
    var t1 := t0 + "copy_delay_seconds=" + Decimal(c.copyDelay) + "\n";
    NextLine(es1, CompareHash, "compare_hash_before_overwrite=", flag, t1);
    var es2 := es1 + [(CompareHash, flag)];
    var t2 := t1 + "compare_hash_before_overwrite=" + flag + "\n";
    NextLine(es2, MinFree, "min_free_space_mb=", Decimal(c.minFreeBytes / MIB), t2);
    var es3 := es2 + [(MinFree, Decimal(c.minFreeBytes / MIB))];
    var t3 := t2 + "min_free_space_mb=" + Decimal(c.minFreeBytes / MIB) + "\n";
    NextLine(es3, ProcessPatterns, "ignored_process_patterns=", JoinPatterns(c.processPatterns), t3);
    var es4 := es3 + [(ProcessPatterns, JoinPatterns(c.processPatterns))];
    var t4 := t3 + "ignored_process_patterns=" + JoinPatterns(c.processPatterns) + "\n";
    NextLine(es4, PathPatterns, "ignored_path_patterns=", JoinPatterns(c.pathPatterns), t4);
    assert EntriesOf(c) == es4 + [(PathPatterns, JoinPatterns(c.pathPatterns))];
  }

  lemma SavedHead(c: AppConfig)
    ensures TextOf(HeadEntries(c)) == HeadText(c)
  {
    hide Key, TextOf;
    KeyTexts();
    NoText();
    NextLine([], SourceUnc, "source_unc=", c.sourceUnc, "");
    assert [] + [(SourceUnc, c.sourceUnc)] == [(SourceUnc, c.sourceUnc)];
    assert "" + "source_unc=" == "source_unc=";
    var es1 := [(SourceUnc, c.sourceUnc)];
    var t1 := "source_unc=" + c.sourceUnc + "\n";
    NextLine(es1, PresentationLetter, "source_presentation_letter=", [c.presentationLetter], t1);
    var es2 := es1 + [(PresentationLetter, [c.presentationLetter])];
    var t2 := t1 + "source_presentation_letter=" + [c.presentationLetter] + "\n";
    NextLine(es2, CacheLetter, "cache_letter=", [c.cacheLetter], t2);
    var es3 := es2 + [(CacheLetter, [c.cacheLetter])];
    var t3 := t2 + "cache_letter=" + [c.cacheLetter] + "\n";
    NextLine(es3, SqlitePath, "sqlite_path=", c.sqlitePath, t3);
    var es4 := es3 + [(SqlitePath, c.sqlitePath)];
    var t4 := t3 + "sqlite_path=" + c.sqlitePath + "\n";
    if c.mode.None? {
      assert HeadEntries(c) == es4;
      assert t4 + "" == t4;
    } else {
      NextLine(es4, Mode, "mode=", ModeName(c.mode.value), t4);
      assert HeadEntries(c) == es4 + [(Mode, ModeName(c.mode.value))];
      ModeLine(c.mode.value, t4);
    }
  }

  lemma ModeLine(m: AppMode, text: string)
    ensures text + "mode=" + ModeName(m) + "\n" ==
              text + match m case Disabled => "mode=disabled\n" case Monitor => "mode=monitor\n" case Serve => "mode=serve\n"
  {
    assert "mode=" + "disabled" + "\n" == "mode=disabled\n";
    assert "mode=" + "monitor" + "\n" == "mode=monitor\n";
    assert "mode=" + "serve" + "\n" == "mode=serve\n";
    assert text + "mode=" + ModeName(m) + "\n" == text + ("mode=" + ModeName(m) + "\n");
  }

  lemma KeyTexts()
    ensures Key(SourceUnc) + "=" == "source_unc=" && Key(PresentationLetter) + "=" == "source_presentation_letter="
    ensures Key(CacheLetter) + "=" == "cache_letter=" && Key(SqlitePath) + "=" == "sqlite_path="
    ensures Key(Mode) + "=" == "mode=" && Key(CopyDelay) + "=" == "copy_delay_seconds="
    ensures Key(CompareHash) + "=" == "compare_hash_before_overwrite=" && Key(MinFree) + "=" == "min_free_space_mb="
    ensures Key(ProcessPatterns) + "=" == "ignored_process_patterns=" && Key(PathPatterns) + "=" == "ignored_path_patterns="
  {
  }

  /** One more line of a text that is written from left to right. */
  lemma NextLine(es: Entries, s: Setting, key: string, value: string, text: string)
    requires TextOf(es) == text && Key(s) + "=" == key
    ensures TextOf(es + [(s, value)]) == text + key + value + "\n"
  {
    hide Key, TextOf;
    TextGrows(es, s, value);
    assert text + key + value + "\n" == text + (Key(s) + "=" + value) + "\n";
  }

  // ---------- reading entries back ----------

  function Find(es: Entries, s: Setting): Option<string> {
    if es == [] then None
    else
      var earlier := Find(es[..|es| - 1], s);
      if earlier.Some? then earlier
      else if es[|es| - 1].0 == s then Some(es[|es| - 1].1)
      else None
  }

  predicate CleanValue(v: string) {
    IsTrimmed(v) && '\n' !in v
  }

  ghost predicate CleanEntries(es: Entries) {
    && (forall i, j :: 0 <= i < j < |es| ==> es[i].0 != es[j].0)
    && (forall i :: 0 <= i < |es| ==> CleanValue(es[i].1))
  }

  lemma {:induction false} FindsEntry(es: Entries, s: Setting)
    requires CleanEntries(es)
    ensures forall i :: 0 <= i < |es| && es[i].0 == s ==> Find(es, s) == Some(es[i].1)
    ensures (forall i :: 0 <= i < |es| ==> es[i].0 != s) ==> Find(es, s) == None
  {
    if es != [] {
      FindsEntry(es[..|es| - 1], s);
    }
  }

  lemma LineIsWhole(s: Setting, v: string)
    requires '\n' !in v
    ensures '\n' !in Key(s) + "=" + v && Key(s) + "=" + v != []
  {
    KeyIsClean(s);
    hide Key;
  }

  lemma {:induction false} TextEndsLine(es: Entries)
    ensures AtLineStart(TextOf(es))
  {
    hide Key;
  }

  /** The last entry of a text, complete or cut off behind its equals sign. */
  lemma LookupAfterLine(values: map<string, string>, s: Setting, v: string, k: Setting)
    requires CleanValue(v)
    ensures Lookup(AddLine(values, Key(s) + "=" + v), k) ==
              if k == s && Lookup(values, s).None? then Some(v) else Lookup(values, k)
  {
    hide Key, AddLine, CleanKey;
    KeyIsClean(s);
    KeysDiffer(s, k);
    LineOfEntry(values, Key(s), v);
  }

  lemma {:induction false} EntriesReadBack(es: Entries, k: Setting)
    requires CleanEntries(es)
    ensures Lookup(KeyValues(Lines(TextOf(es))), k) == Find(es, k)
  {
    hide Key, AddLine, Lookup;
    if es == [] {
      NoLines();
      NothingFound(k);
    } else {
      var front, s, v := es[..|es| - 1], es[|es| - 1].0, es[|es| - 1].1;
      EntriesReadBack(front, k);
      EntriesReadBack(front, s);
      TextEndsLine(front);
      LineIsWhole(s, v);
      LinesOfAppend(TextOf(front), Key(s) + "=" + v);
      ExtendLines(Lines(TextOf(front)), Key(s) + "=" + v);
      LookupAfterLine(KeyValues(Lines(TextOf(front))), s, v, k);
      FindsEntry(front, s);
    }
  }

  lemma NothingFound(k: Setting)
    ensures Lookup(map[], k) == None
  {
  }

  lemma CutEntriesReadBack(es: Entries, s: Setting, k: Setting)
    requires CleanEntries(es + [(s, "")])
    ensures Lookup(KeyValues(Lines(TextOf(es) + (Key(s) + "="))), k) == Find(es + [(s, "")], k)
  {
    hide Key, AddLine, Lookup;
    var all := es + [(s, "")];
    assert all[..|es|] == es && all[|es|] == (s, "");
    assert CleanEntries(es) by {
      assert forall i :: 0 <= i < |es| ==> es[i] == all[i];
    }
    EntriesReadBack(es, k);
    EntriesReadBack(es, s);
    TextEndsLine(es);
    LineIsWhole(s, "");
    assert Key(s) + "=" + "" == Key(s) + "=";
    LinesOfAppend(TextOf(es), Key(s) + "=");
    ExtendLines(Lines(TextOf(es)), Key(s) + "=");
    LookupAfterLine(KeyValues(Lines(TextOf(es))), s, "", k);
    FindsEntry(es, s);
  }

  // ---------- normal configurations ----------

  predicate NormalLetter(c: char) {
    Ascii(c) && !IsSpace(c) && Upper(c) == c
  }

  ghost predicate NormalPatterns(patterns: seq<string>) {
    CleanPatterns(patterns) && forall i :: 0 <= i < |patterns| ==> '\n' !in patterns[i]
  }

  /** Everything a normal configuration needs except ASCII letters. */
  ghost predicate NormalButLetters(c: AppConfig) {
    && CleanValue(c.sourceUnc) && CleanValue(c.sqlitePath)
    && !IsSpace(c.presentationLetter) && Upper(c.presentationLetter) == c.presentationLetter
    && !IsSpace(c.cacheLetter) && Upper(c.cacheLetter) == c.cacheLetter
    && -TWO_TO_63 <= c.copyDelay < TWO_TO_63
    && 0 <= c.minFreeBytes < TWO_TO_64 && c.minFreeBytes % MIB == 0
    && NormalPatterns(c.processPatterns) && NormalPatterns(c.pathPatterns)
  }

  /** Trimmed one-line strings, ASCII upper-case letters, numbers in range and in
      whole megabytes, clean pattern lists. */
  ghost predicate Normal(c: AppConfig) {
    NormalButLetters(c) && Ascii(c.presentationLetter) && Ascii(c.cacheLetter)
  }

  function Order(s: Setting): nat {
    match s
    case SourceUnc => 0
    case PresentationLetter => 1
    case CacheLetter => 2
    case SqlitePath => 3
    case Mode => 4
    case CopyDelay => 5
    case CompareHash => 6
    case MinFree => 7
    case ProcessPatterns => 8
    case PathPatterns => 9
  }

  lemma SmallText()
    ensures CleanValue("0") && CleanValue("1") && CleanValue("")
  {
  }

  lemma LetterText(l: char)
    requires !IsSpace(l)
    ensures CleanValue([l])
  {
  }

  lemma PatternText(patterns: seq<string>)
    requires NormalPatterns(patterns)
    ensures CleanValue(JoinPatterns(patterns)) && SplitPatterns(JoinPatterns(patterns)) == patterns
  {
    CleanListText(patterns);
    CleanListReadsBack(patterns);
  }

  lemma EntriesAreClean(c: AppConfig)
    requires NormalButLetters(c)
    ensures CleanEntries(EntriesOf(c))
  {
    hide Decimal, JoinPatterns, ModeName, NormalPatterns, IsTrimmed, CleanValue;
    SmallText();
    LetterText(c.presentationLetter);
    LetterText(c.cacheLetter);
    CleanNumber(c.copyDelay);
    CleanNumber(c.minFreeBytes / MIB);
    PatternText(c.processPatterns);
    PatternText(c.pathPatterns);
    if c.mode.Some? {
      CleanName(c.mode.value);
    }
    var es := EntriesOf(c);
    assert forall i :: 0 <= i < |es| ==> CleanValue(es[i].1);
    assert forall i, j :: 0 <= i < j < |es| ==> Order(es[i].0) < Order(es[j].0);
  }

  lemma CleanNumber(n: int)
    ensures CleanValue(Decimal(n))
  {
    DecimalReadsBack(n);
  }

  lemma CleanName(m: AppMode)
    ensures CleanValue(ModeName(m))
  {
    ModeReadsBack(m);
  }

  lemma FindsAt(es: Entries, i: nat)
    requires CleanEntries(es) && i < |es|
    ensures Find(es, es[i].0) == Some(es[i].1)
  {
    FindsEntry(es, es[i].0);
  }

  lemma SavedSettings(c: AppConfig)
    requires CleanEntries(EntriesOf(c))
    ensures var es := EntriesOf(c);
            && Find(es, SourceUnc) == Some(c.sourceUnc) && Find(es, SqlitePath) == Some(c.sqlitePath)
            && Find(es, PresentationLetter) == Some([c.presentationLetter]) && Find(es, CacheLetter) == Some([c.cacheLetter])
            && Find(es, Mode) == (if c.mode.Some? then Some(ModeName(c.mode.value)) else None)
  {
    hide Decimal, JoinPatterns, ModeName, Find, CleanEntries;
    var es := EntriesOf(c);
    FindsAt(es, 0);
    FindsAt(es, 1);
    FindsAt(es, 2);
    FindsAt(es, 3);
    if c.mode.Some? {
      FindsAt(es, 4);
    } else {
      assert forall i :: 0 <= i < |es| ==> es[i].0 != Mode;
      FindsEntry(es, Mode);
    }
  }

  lemma SavedNumbersAndLists(c: AppConfig)
    requires CleanEntries(EntriesOf(c))
    ensures var es := EntriesOf(c);
            && Find(es, CopyDelay) == Some(Decimal(c.copyDelay))
            && Find(es, CompareHash) == Some(if c.compareHash then "1" else "0")
            && Find(es, MinFree) == Some(Decimal(c.minFreeBytes / MIB))
            && Find(es, ProcessPatterns) == Some(JoinPatterns(c.processPatterns))
            && Find(es, PathPatterns) == Some(JoinPatterns(c.pathPatterns))
  {
    hide Decimal, JoinPatterns, ModeName, Find, CleanEntries;
    var es := EntriesOf(c);
    var tail := if c.mode.Some? then 5 else 4;
    FindsAt(es, tail);
    FindsAt(es, tail + 1);
    FindsAt(es, tail + 2);
    FindsAt(es, tail + 3);
    FindsAt(es, tail + 4);
  }

  lemma UnsignedReadsBack(n: nat)
    requires n < TWO_TO_64
    ensures ParseUnsigned(Decimal(n)) == Ok(n) && Decimal(n) != []
  {
    DecimalReadsBack(n);
    hide Decimal, ParseNumber;
  }

  lemma MinFreeReadsBack(bytes: int)
    requires 0 <= bytes < TWO_TO_64 && bytes % MIB == 0
    ensures LoadMinFree(Some(Decimal(bytes / MIB))) == Ok(bytes)
  {
    hide Decimal, ParseUnsigned;
    UnsignedReadsBack(bytes / MIB);
    assert bytes / MIB * MIB == bytes;
  }

  lemma DelayReadsBack(delay: int)
    requires -TWO_TO_63 <= delay < TWO_TO_63
    ensures LoadDelay(Some(Decimal(delay))) == Ok(delay)
  {
    DecimalReadsBack(delay);
    hide Decimal, ParseNumber;
  }

  lemma ModeLoadsBack(mode: Option<AppMode>)
    ensures LoadMode(if mode.Some? then Some(ModeName(mode.value)) else None) == Ok(mode)
  {
    if mode.Some? {
      ModeReadsBack(mode.value);
    }
  }

  lemma SavedValuesLoad(c: AppConfig, values: map<string, string>)
    requires NormalButLetters(c) && forall k :: Lookup(values, k) == Find(EntriesOf(c), k)
    ensures LoadValues(values) == Ok(c)
  {
    hide Decimal, JoinPatterns, SplitPatterns, ModeName, Find, CleanEntries, NormalPatterns, EntriesOf, Lookup, LoadMinFree, LoadDelay, LoadMode, CleanValue;
    EntriesAreClean(c);
    SavedSettings(c);
    SavedNumbersAndLists(c);
    MinFreeReadsBack(c.minFreeBytes);
    DelayReadsBack(c.copyDelay);
    ModeLoadsBack(c.mode);
    PatternText(c.processPatterns);
    PatternText(c.pathPatterns);
  }

  /** A normal configuration survives saving and loading. */
  lemma SaveLoads(c: AppConfig)
    requires Normal(c)
    ensures Save(c).0 == [] && Load(Some(Save(c).1)) == Ok(c)
  {
    hide EntriesOf, TextOf, Lines, KeyValues, LoadValues, Find, CleanValue;
    EntriesAreClean(c);
    forall k
      ensures Lookup(KeyValues(Lines(TextOf(EntriesOf(c)))), k) == Find(EntriesOf(c), k)
    {
      EntriesReadBack(EntriesOf(c), k);
    }
    SavedValuesLoad(c, KeyValues(Lines(TextOf(EntriesOf(c)))));
  }

  // ---------- what loading can give ----------

  lemma NumbersInRange(delay: Option<string>, minFree: Option<string>)
    ensures LoadDelay(delay).Ok? ==> -TWO_TO_63 <= LoadDelay(delay).value < TWO_TO_63
    ensures LoadMinFree(minFree).Ok? ==> 0 <= LoadMinFree(minFree).value < TWO_TO_64 && LoadMinFree(minFree).value % MIB == 0
  {
    if minFree.Some? && minFree.value != [] && ParseUnsigned(minFree.value).Ok? {
      WholeMegabytes(ParseUnsigned(minFree.value).value);
    }
  }

  lemma WholeMegabytes(n: nat)
    ensures (n * MIB % TWO_TO_64) % MIB == 0
  {
    var q := n * MIB / TWO_TO_64;
    assert TWO_TO_64 == 0x1000_0000_0000 * MIB;
    assert n * MIB % TWO_TO_64 == n * MIB - q * TWO_TO_64 == (n - q * 0x1000_0000_0000) * MIB;
  }

  lemma LoadedLetter(value: Option<string>, fallback: char)
    requires value.Some? ==> CleanValue(value.value)
    requires NormalLetter(fallback)
    ensures !IsSpace(Letter(value, fallback)) && Upper(Letter(value, fallback)) == Letter(value, fallback)
  {
  }

  lemma LoadedPatterns(value: string)
    requires CleanValue(value)
    ensures NormalPatterns(SplitPatterns(value))
  {
    SplitGivesCleanPatterns(value);
    hide SplitPatterns, IsTrimmed;
    assert '\n' !in value;
  }

  lemma DefaultsAreNormal()
    ensures Normal(DEFAULTS)
  {
  }

  lemma FoundIsClean(values: map<string, string>, k: Setting)
    requires CleanValues(values)
    ensures Lookup(values, k).Some? ==> CleanValue(Lookup(values, k).value)
  {
    hide Key, IsTrimmed;
  }

  lemma LoadedIsNormal(values: map<string, string>)
    requires CleanValues(values) && LoadValues(values).Ok?
    ensures NormalButLetters(LoadValues(values).value)
  {
    hide Lookup, SplitPatterns, LoadMinFree, LoadDelay, LoadMode, CleanValue, CleanValues, NormalPatterns, Letter, Upper, IsSpace;
    DefaultsAreNormal();
    FoundIsClean(values, SourceUnc);
    FoundIsClean(values, SqlitePath);
    FoundIsClean(values, PresentationLetter);
    FoundIsClean(values, CacheLetter);
    FoundIsClean(values, ProcessPatterns);
    FoundIsClean(values, PathPatterns);
    NumbersInRange(Lookup(values, CopyDelay), Lookup(values, MinFree));
    FallbackLetters();
    LoadedLetter(Lookup(values, PresentationLetter), 'N');
    LoadedLetter(Lookup(values, CacheLetter), 'K');
    if Lookup(values, ProcessPatterns).Some? {
      LoadedPatterns(Lookup(values, ProcessPatterns).value);
    }
    if Lookup(values, PathPatterns).Some? {
      LoadedPatterns(Lookup(values, PathPatterns).value);
    }
  }

  lemma FallbackLetters()
    ensures NormalLetter('N') && NormalLetter('K')
  {
  }

  /** Whatever a file holds, a configuration loaded from it is normal exactly when
      its two letters are ASCII. */
  lemma LoadIsNormalIff(content: Option<string>)
    ensures Load(content).Ok? ==>
              var c := Load(content).value;
              Normal(c) <==> Ascii(c.presentationLetter) && Ascii(c.cacheLetter)
  {
    hide LoadValues, KeyValues, Lines, CleanValues, NormalButLetters;
    var text := if content.Some? then content.value else [];
    LinesHaveNoBreaks(text);
    ParsedValuesAreClean(Lines(text));
    if Load(content).Ok? {
      LoadedIsNormal(KeyValues(Lines(text)));
    }
  }

  /** Saving and loading gives a configuration back exactly when it is normal. */
  lemma RoundTripIff(c: AppConfig)
    ensures Save(c).0 == [] && Load(Some(Save(c).1)) == Ok(c) <==> Normal(c)
  {
    hide Load, Normal, TextOf, EntriesOf;
    if Normal(c) {
      SaveLoads(c);
    } else {
      LoadIsNormalIff(Some(Save(c).1));
    }
  }

  /** A save that fails on a letter leaves a file that has forgotten every setting
      behind that letter: it loads as the defaults there. */
  lemma FailedSaveForgets(c: AppConfig)
    requires NormalButLetters(c) && Save(c).0 != []
    ensures Load(Some(Save(c).1)) ==
              Ok(DEFAULTS.(sourceUnc := c.sourceUnc,
                           presentationLetter := if Ascii(c.presentationLetter) then c.presentationLetter else 'N'))
  {
    hide TextOf, EntriesOf, KeyValues, Lines, Find, CleanValue;
    var es: Entries := if Ascii(c.presentationLetter) then [(SourceUnc, c.sourceUnc), (PresentationLetter, [c.presentationLetter])]
                       else [(SourceUnc, c.sourceUnc)];
    var s := if Ascii(c.presentationLetter) then CacheLetter else PresentationLetter;
    SmallText();
    LetterText(c.presentationLetter);
    var all := es + [(s, "")];
    assert CleanEntries(all);
    forall k
      ensures Lookup(KeyValues(Lines(TextOf(es) + (Key(s) + "="))), k) == Find(all, k)
    {
      CutEntriesReadBack(es, s, k);
    }
    ShortFileLoads(c, all, KeyValues(Lines(TextOf(es) + (Key(s) + "="))));
  }

  lemma SmallLetters(c: AppConfig)
    ensures Letter(Some(""), 'N') == Letter(None, 'N') == 'N' && Letter(Some(""), 'K') == Letter(None, 'K') == 'K'
    ensures Letter(Some([c.presentationLetter]), 'N') == Upper(c.presentationLetter)
  {
  }

  lemma ShortFileLoads(c: AppConfig, all: Entries, values: map<string, string>)
    requires NormalButLetters(c) && CleanEntries(all)
    requires all == if Ascii(c.presentationLetter)
                    then [(SourceUnc, c.sourceUnc), (PresentationLetter, [c.presentationLetter]), (CacheLetter, "")]
                    else [(SourceUnc, c.sourceUnc), (PresentationLetter, "")]
    requires forall k :: Lookup(values, k) == Find(all, k)
    ensures LoadValues(values) ==
              Ok(DEFAULTS.(sourceUnc := c.sourceUnc,
                           presentationLetter := if Ascii(c.presentationLetter) then c.presentationLetter else 'N'))
  {
    hide Find, Lookup, CleanEntries, SplitPatterns, ParseSigned, ParseUnsigned, ModeOf, Letter;
    SmallLetters(c);
    FindsAt(all, 0);
    FindsAt(all, 1);
    if Ascii(c.presentationLetter) {
      FindsAt(all, 2);
    } else {
      FindsEntry(all, CacheLetter);
    }
    forall k | Order(k) > 2
      ensures Lookup(values, k) == None
    {
      FindsEntry(all, k);
    }
    assert Lookup(values, Mode) == Lookup(values, CopyDelay) == Lookup(values, MinFree) == None;
  }

  // ---------- switching modes ----------

  /** load_or_create_config on an existing file, with the default index path. */
  function Backfilled(c: AppConfig, defaultSqlite: string): AppConfig {
    if c.sqlitePath == [] then c.(sqlitePath := defaultSqlite) else c
  }

  /** persist_mode keeps every other setting exactly when the loaded letters are
      ASCII; otherwise the file it leaves has lost settings. */
  lemma ModeSwitchChangesOnlyTheModeIff(content: Option<string>, mode: AppMode, defaultSqlite: string)
    requires Load(content).Ok? && CleanValue(defaultSqlite)
    ensures var c := Load(content).value;
            var switched := Backfilled(c, defaultSqlite).(mode := Some(mode));
            Save(switched).0 == [] && Load(Some(Save(switched).1)) == Ok(switched)
            <==> Ascii(c.presentationLetter) && Ascii(c.cacheLetter)
  {
    hide Load, Save, CleanValue, NormalPatterns;
    var c := Load(content).value;
    LoadIsNormalIff(content);
    RoundTripIff(Backfilled(c, defaultSqlite).(mode := Some(mode)));
  }

  /** A file with a letter outside ASCII, and what it loads as. */
  lemma LetterOutsideAsciiLoads(letter: char)
    requires !Ascii(letter) && Upper(letter) == letter && !IsSpace(letter)
    ensures Load(Some(TextOf([(CacheLetter, [letter])]))) == Ok(DEFAULTS.(cacheLetter := letter))
  {
    hide TextOf, KeyValues, Lines, Find, CleanValue, Lookup, SplitPatterns, ParseSigned, ParseUnsigned, ModeOf;
    var es: Entries := [(CacheLetter, [letter])];
    LetterText(letter);
    var values := KeyValues(Lines(TextOf(es)));
    forall k | k != CacheLetter
      ensures Lookup(values, k) == None
    {
      EntriesReadBack(es, k);
      FindsEntry(es, k);
    }
    EntriesReadBack(es, CacheLetter);
    FindsAt(es, 0);
    assert Lookup(values, Mode) == Lookup(values, CopyDelay) == Lookup(values, MinFree) == None;
  }

  /** So switching the mode on such a file forgets settings: it fails and leaves a
      file with the default cache letter. */
  lemma ModeSwitchForgetsTheLetter(letter: char, mode: AppMode, defaultSqlite: string)
    requires !Ascii(letter) && Upper(letter) == letter && !IsSpace(letter) && CleanValue(defaultSqlite)
    ensures var content := Some(TextOf([(CacheLetter, [letter])]));
            && Load(content) == Ok(DEFAULTS.(cacheLetter := letter))
            && var switched := Backfilled(Load(content).value, defaultSqlite).(mode := Some(mode));
               Save(switched).0 == NARROW_ERROR && Load(Some(Save(switched).1)) == Ok(DEFAULTS)
  {
    LetterOutsideAsciiLoads(letter);
    DefaultsAreNormal();
    hide Load, TextOf, CleanValue, NormalPatterns;
    var switched := Backfilled(DEFAULTS.(cacheLetter := letter), defaultSqlite).(mode := Some(mode));
    assert NormalButLetters(switched);
    FailedSaveForgets(switched);
  }

  // ---------- the file on disk ----------

  class ConfigStore {
    var content: Option<string>

    constructor (content: Option<string>)
      ensures this.content == content
    {
      this.content := content;
    }

    /** load_config_file. */
    method LoadConfigFile() returns (r: Result<AppConfig, string>)
      ensures r == Load(content)
    {
      hide Lookup, Letter, LoadMode, LoadDelay, LoadMinFree, LoadFlag, PatternsOr, TextOr, Lines, KeyValues, CleanValues;
      var values := ReadKeyValues(if content.Some? then content.value else []);
      var config := DEFAULTS;
      config := config.(sourceUnc := TextOr(Lookup(values, SourceUnc), config.sourceUnc));
      config := config.(sqlitePath := TextOr(Lookup(values, SqlitePath), config.sqlitePath));
      var mode := LoadMode(Lookup(values, Mode));
      if mode.Err? {
        return Err(mode.error);
      }
      config := config.(mode := mode.value);
      var delay := LoadDelay(Lookup(values, CopyDelay));
      if delay.Err? {
        return Err(delay.error);
      }
      config := config.(copyDelay := delay.value, compareHash := LoadFlag(Lookup(values, CompareHash)));
      var minFree := LoadMinFree(Lookup(values, MinFree));
      if minFree.Err? {
        return Err(minFree.error);
      }
      config := config.(minFreeBytes := minFree.value);
      var processes := ReadPatterns(values, ProcessPatterns, config.processPatterns);
      var paths := ReadPatterns(values, PathPatterns, config.pathPatterns);
      config := config.(processPatterns := processes, pathPatterns := paths);
      config := config.(presentationLetter := Letter(Lookup(values, PresentationLetter), 'N'));
      config := config.(cacheLetter := Letter(Lookup(values, CacheLetter), 'K'));
      return Ok(config);
    }

    method ReadPatterns(values: map<string, string>, s: Setting, fallback: seq<string>) returns (patterns: seq<string>)
      ensures patterns == PatternsOr(Lookup(values, s), fallback)
    {
      hide Lookup, SplitPatterns;
      if Lookup(values, s).None? {
        return fallback;
      }
      patterns := SplitPatternList(Lookup(values, s).value);
    }

    /** One line of the output stream. */
    method Put(ghost es: Entries, s: Setting, value: string)
      requires content == Some(TextOf(es))
      modifies this
      ensures content == Some(TextOf(es + [(s, value)]))
    {
      content := Some(content.value + (Key(s) + "=" + value) + "\n");
      TextGrows(es, s, value);
    }

    /** save_config_file. `obstacle` is what creating the directories or opening
        the file throws, empty when they work; the old file then stays. */
    method SaveConfigFile(c: AppConfig, obstacle: string) returns (error: string)
      modifies this
      ensures (error, content) == if obstacle != [] then (obstacle, old(content)) else (Save(c).0, Some(Save(c).1))
    {
      if obstacle != [] {
        return obstacle;
      }
      error := WriteSettings(c);
    }

    /** The lines of save_config_file, on the truncated file. */
    method WriteSettings(c: AppConfig) returns (error: string)
      modifies this
      ensures (error, content) == (Save(c).0, Some(Save(c).1))
    {
      hide Key, TextOf, TailEntries, ModeName;
      content := Some([]);
      ghost var es: Entries := [];
      NoText();
      Put(es, SourceUnc, c.sourceUnc);
      es := es + [(SourceUnc, c.sourceUnc)];
      assert es == [(SourceUnc, c.sourceUnc)];
      if !Ascii(c.presentationLetter) {
        content := Some(content.value + (Key(PresentationLetter) + "="));
        return NARROW_ERROR;
      }
      Put(es, PresentationLetter, [c.presentationLetter]);
      es := es + [(PresentationLetter, [c.presentationLetter])];
      if !Ascii(c.cacheLetter) {
        assert es == [(SourceUnc, c.sourceUnc), (PresentationLetter, [c.presentationLetter])];
        content := Some(content.value + (Key(CacheLetter) + "="));
        return NARROW_ERROR;
      }
      Put(es, CacheLetter, [c.cacheLetter]);
      es := es + [(CacheLetter, [c.cacheLetter])];
      Put(es, SqlitePath, c.sqlitePath);
      es := es + [(SqlitePath, c.sqlitePath)];
      if c.mode.Some? {
        Put(es, Mode, ModeName(c.mode.value));
        es := es + [(Mode, ModeName(c.mode.value))];
      }
      assert es == HeadEntries(c);
      PutTail(es, c);
      return [];
    }

    method PutTail(ghost head: Entries, c: AppConfig)
      requires content == Some(TextOf(head))
      modifies this
      ensures content == Some(TextOf(head + TailEntries(c)))
    {
      hide Key, TextOf, JoinPatterns, Decimal;
      ghost var es := head;
      Put(es, CopyDelay, Decimal(c.copyDelay));
      es := es + [(CopyDelay, Decimal(c.copyDelay))];
      Put(es, CompareHash, if c.compareHash then "1" else "0");
      es := es + [(CompareHash, if c.compareHash then "1" else "0")];
      Put(es, MinFree, Decimal(c.minFreeBytes / MIB));
      es := es + [(MinFree, Decimal(c.minFreeBytes / MIB))];
      var processes := JoinPatternList(c.processPatterns);
      Put(es, ProcessPatterns, processes);
      es := es + [(ProcessPatterns, processes)];
      var paths := JoinPatternList(c.pathPatterns);
      Put(es, PathPatterns, paths);
      assert es + [(PathPatterns, paths)] == head + TailEntries(c);
    }

    /** load_or_create_config. */
    method LoadOrCreate(defaultSqlite: string, obstacle: string) returns (r: Result<AppConfig, string>)
      modifies this
      ensures old(content).Some? ==>
                content == old(content)
                && r == if Load(content).Ok? then Ok(Backfilled(Load(content).value, defaultSqlite)) else Load(content)
      ensures old(content).Some? && r.Ok? ==>
                var c := Load(content).value;
                r.value == c.(sqlitePath := if c.sqlitePath == "" then defaultSqlite else c.sqlitePath)
      ensures old(content).None? ==>
                var first := DEFAULTS.(sqlitePath := defaultSqlite);
                if obstacle != [] then content == None && r == Err(obstacle)
                else content == Some(Save(first).1) && r == if Save(first).0 == [] then Ok(first) else Err(Save(first).0)
    {
      hide Load, Save;
      if content.Some? {
        r := LoadConfigFile();
        if r.Ok? && r.value.sqlitePath == [] {
          r := Ok(r.value.(sqlitePath := defaultSqlite));
        }
        return;
      }
      var config := DEFAULTS.(sqlitePath := defaultSqlite);
      var error := SaveConfigFile(config, obstacle);
      return if error == [] then Ok(config) else Err(error);
    }

    /** persist_mode: the exception text, empty for none. */
    method PersistMode(mode: AppMode, defaultSqlite: string, obstacle: string) returns (error: string)
      requires CleanValue(defaultSqlite)
      modifies this
      ensures var before := if old(content).Some? then Load(old(content)) else Ok(DEFAULTS);
              if before.Err? then content == old(content) && error == before.error
              else if obstacle != [] then content == old(content) && error == obstacle
              else
                var c := before.value;
                var switched := Backfilled(c, defaultSqlite).(mode := Some(mode));
                && (error, content) == (Save(switched).0, Some(Save(switched).1))
                && (error == [] && Load(content) == Ok(switched) <==> Ascii(c.presentationLetter) && Ascii(c.cacheLetter))
    {
      hide Load, Save, Lines, KeyValues, CleanValue, NormalPatterns;
      ghost var before := content;
      var config := LoadOrCreate(defaultSqlite, obstacle);
      if before.None? {
        DefaultsSave(defaultSqlite);
      }
      if config.Err? {
        return config.error;
      }
      error := SaveConfigFile(config.value.(mode := Some(mode)), obstacle);
      if obstacle != [] {
        return;
      }
      if before.Some? {
        ModeSwitchChangesOnlyTheModeIff(before, mode, defaultSqlite);
      } else {
        DefaultsAreNormal();
        RoundTripIff(config.value.(mode := Some(mode)));
      }
    }

    lemma DefaultsSave(defaultSqlite: string)
      requires CleanValue(defaultSqlite)
      ensures Save(DEFAULTS.(sqlitePath := defaultSqlite)).0 == []
    {
    }
  }

  lemma NoText()
    ensures TextOf([]) == []
  {
  }

  lemma TextGrows(es: Entries, s: Setting, value: string)
    ensures TextOf(es + [(s, value)]) == TextOf(es) + (Key(s) + "=" + value) + "\n"
  {
    assert (es + [(s, value)])[..|es|] == es;
  }
}
