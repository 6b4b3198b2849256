/** The Windows copy engine over a small file system: a chunked, hashing,
    cancellable copy that publishes through a temporary file. */
module CopyEngine {
  import opened Prelude
  import opened IndexModel
  import opened Protocol

  newtype byte = x: int | 0 <= x < 256

  type Bytes = seq<byte>

  // ---------- the streaming digest ----------

  /** A streaming hash: a start state, absorbing one byte, finishing. Which hash
      it is does not matter here. */
  datatype Digest = Digest(start: nat, absorb: (nat, byte) -> nat, finish: nat -> Bytes)

  /** The running state after absorbing `data`. */
  function Absorb(d: Digest, state: nat, data: Bytes): nat {
    if data == [] then state else d.absorb(Absorb(d, state, data[..|data| - 1]), data[|data| - 1])
  }

  /** Feeding chunks one after the other is feeding their concatenation. */
  lemma {:induction false} AbsorbComposes(d: Digest, state: nat, a: Bytes, b: Bytes)
    ensures Absorb(d, state, a + b) == Absorb(d, Absorb(d, state, a), b)
    decreases |b|
  {
    if b == [] {
      assert a + b == a;
    } else {
      AbsorbComposes(d, state, a, b[..|b| - 1]);
      assert (a + b)[..|a + b| - 1] == a + b[..|b| - 1];
    }
  }

  /** The bytes are absorbed one by one, from the first to the last. */
  lemma AbsorbsInOrder(d: Digest, state: nat, first: byte, rest: Bytes)
    ensures Absorb(d, state, []) == state
    ensures Absorb(d, state, [first] + rest) == Absorb(d, d.absorb(state, first), rest)
  {
    assert [first][..0] == [];
    assert Absorb(d, state, [first]) == d.absorb(state, first);
    AbsorbComposes(d, state, [first], rest);
  }

  const HEX_DIGITS: string := "0123456789abcdef"

  function Hex(data: Bytes): string {
    if data == [] then []
    else Hex(data[..|data| - 1]) + [HEX_DIGITS[data[|data| - 1] as int / 16], HEX_DIGITS[data[|data| - 1] as int % 16]]
  }

  lemma {:induction false} HexLength(data: Bytes)
    ensures |Hex(data)| == 2 * |data|
  {
    if data != [] {
      HexLength(data[..|data| - 1]);
    }
  }

  /** Comparing hexadecimal texts is comparing digests. */
  lemma {:induction false} HexIsInjective(a: Bytes, b: Bytes)
    requires Hex(a) == Hex(b)
    ensures a == b
  {
    HexLength(a);
    HexLength(b);
    if a != [] {
      var x, y := a[|a| - 1], b[|b| - 1];
      var n := |Hex(a)|;
      HexLength(a[..|a| - 1]);
      HexLength(b[..|b| - 1]);
      assert Hex(a)[..n - 2] == Hex(a[..|a| - 1]);
      assert Hex(b)[..n - 2] == Hex(b[..|b| - 1]);
      HexIsInjective(a[..|a| - 1], b[..|b| - 1]);
      assert Hex(a)[n - 2] == HEX_DIGITS[x as int / 16] && Hex(b)[n - 2] == HEX_DIGITS[y as int / 16];
      assert Hex(a)[n - 1] == HEX_DIGITS[x as int % 16] && Hex(b)[n - 1] == HEX_DIGITS[y as int % 16];
      DigitsDiffer(x as int / 16, y as int / 16);
      DigitsDiffer(x as int % 16, y as int % 16);
      assert x == y;
      assert a == a[..|a| - 1] + [x] && b == b[..|b| - 1] + [y];
    }
  }

  predicate IsHexDigit(c: char) {
    '0' <= c <= '9' || 'a' <= c <= 'f'
  }

  /** A hexadecimal digit's value, in small letters. */
  function HexValue(c: char): int
    requires IsHexDigit(c)
  {
    if c <= '9' then c as int - '0' as int else 10 + c as int - 'a' as int
  }

  /** Each byte becomes two digits, the high one first. */
  lemma {:induction false} HexDigitsOf(data: Bytes, i: nat)
    requires i < |data|
    ensures var h := Hex(data);
            && |h| == 2 * |data| && IsHexDigit(h[2 * i]) && IsHexDigit(h[2 * i + 1])
            && data[i] as int == 16 * HexValue(h[2 * i]) + HexValue(h[2 * i + 1])
  {
    HexLength(data);
    var front := data[..|data| - 1];
    HexLength(front);
    if i < |front| {
      HexDigitsOf(front, i);
    } else {
      DigitOf(data[i] as int / 16);
      DigitOf(data[i] as int % 16);
    }
  }

  lemma DigitOf(i: int)
    requires 0 <= i < 16
    ensures IsHexDigit(HEX_DIGITS[i]) && HexValue(HEX_DIGITS[i]) == i
  {
  }

  lemma DigitsDiffer(i: int, j: int)
    requires 0 <= i < 16 && 0 <= j < 16
    ensures HEX_DIGITS[i] == HEX_DIGITS[j] ==> i == j
  {
  }

  /** The digest of a whole file, as hexadecimal text. */
  function OneShot(d: Digest, data: Bytes): string {
    Hex(d.finish(Absorb(d, d.start, data)))
  }

  /** The loop of finish_hex. */
  method FinishHex(digest: Bytes) returns (result: string)
    ensures result == Hex(digest)
  {
    result := [];
    var i := 0;
    while i < |digest|
      invariant 0 <= i <= |digest| && result == Hex(digest[..i])
    {
      assert digest[..i + 1][..i] == digest[..i];
      result := result + [HEX_DIGITS[digest[i] as int / 16]];
      result := result + [HEX_DIGITS[digest[i] as int % 16]];
      i := i + 1;
    }
    assert digest[..i] == digest;
  }

  // ---------- what the engine meets ----------

  const FILE_NOT_FOUND := 2
  const PATH_NOT_FOUND := 3
  const SHARING_VIOLATION := 32

  /** is_missing_error. */
  predicate IsMissing(error: int) {
    error == FILE_NOT_FOUND || error == PATH_NOT_FOUND
  }

  /** One pass over a file's bytes: the n-th read is asked for a full buffer and
      is granted `grant(n)` bytes, at least one and at most what is left. */
  datatype Stream = Stream(bytes: Bytes, grant: nat -> nat)

  function ReadSize(s: Stream, chunkSize: nat, n: nat, pos: nat): (k: nat)
    requires pos <= |s.bytes|
    ensures pos + k <= |s.bytes| && k <= chunkSize
    ensures k == 0 <==> pos == |s.bytes| || chunkSize == 0
    ensures 1 <= s.grant(n) <= chunkSize && s.grant(n) <= |s.bytes| - pos ==> k == s.grant(n)
  {
    var most := Min(chunkSize, |s.bytes| - pos);
    if most == 0 then 0 else if s.grant(n) == 0 then 1 else Min(s.grant(n), most)
  }

  /** What reading to the end delivers; a zero-sized buffer sees an empty file. */
  function Delivered(s: Stream, chunkSize: nat): Bytes {
    if chunkSize == 0 then [] else s.bytes
  }

  /** A file as hash_existing_file meets it: whether it opens, and what fails. */
  datatype HashView = HashView(
    opens: bool, setupError: string, stream: Stream, readFails: nat -> bool, updateError: nat -> string, finishError: string)

  /** The exception that ends the hashing loop from its n-th turn, empty for none. */
  function ReadingError(v: HashView, chunkSize: nat, n: nat, pos: nat): string
    requires pos <= |v.stream.bytes|
    decreases |v.stream.bytes| - pos
  {
    if v.readFails(n) then "failed to read file for hashing"
    else
      var k := ReadSize(v.stream, chunkSize, n, pos);
      if k == 0 then v.finishError
      else if v.updateError(n) != [] then v.updateError(n)
      else ReadingError(v, chunkSize, n + 1, pos + k)
  }

  function HashError(v: HashView, chunkSize: nat): string {
    if !v.opens then "failed to open file for hashing"
    else if v.setupError != [] then v.setupError
    else ReadingError(v, chunkSize, 0, 0)
  }

  /** hash_existing_file. */
  function HashFile(v: HashView, d: Digest, chunkSize: nat): Result<string, string> {
    var error := HashError(v, chunkSize);
    if error != [] then Err(error) else Ok(OneShot(d, Delivered(v.stream, chunkSize)))
  }

  datatype WriteReply = WritesAll | WritesPart(count: nat, error: int)

  /** Everything one call meets outside its own files. Error codes are zero, and
      error texts empty, where nothing fails. */
  datatype Surroundings = Surroundings(
    inspected: Result<nat, int>,      // size of the source, or the error
    hashSource: HashView,             // the source as it is hashed
    hashCache: HashView,              // the cache file as it is hashed, but for its bytes
    directoryError: string,
    sourceError: int,                 // opening the source
    createError: int,                 // creating the temporary file
    setupError: string,               // creating the hash object
    source: Stream,
    readError: nat -> int,
    cancelled: nat -> bool,           // the flag at the n-th poll
    updateError: nat -> string,       // hashing the n-th chunk
    write: nat -> WriteReply,
    finishError: string,
    moveError: int,
    deleteError: int,                 // deleting the temporary file once its handle is closed
    describe: int -> string,
    startedAt: int, finishedAt: int)

  function TempOf(cache: Path): (temp: Path)
    ensures temp != cache && |temp| == |cache| + 14
    ensures temp[..|cache|] == cache && temp[|cache|..] == ".ssd-cache.tmp"
  {
    cache + ".ssd-cache.tmp"
  }

  // ---------- the call as a function ----------

  type Files = map<Path, Bytes>

  datatype Outcome = Returned(result: CopyResult) | Threw(message: string)

  datatype LoopEnd =
    | AtEnd(state: nat) | SawCancel | ReadFailed(error: int) | WriteFailed(error: int) | HashThrew(message: string)

  /** The copy loop from its n-th turn: how it ends and what the temporary file
      holds then. */
  function CopyLoop(e: Surroundings, d: Digest, chunkSize: nat, n: nat, pos: nat, state: nat, temp: Bytes): (LoopEnd, Bytes)
    requires pos <= |e.source.bytes|
    decreases |e.source.bytes| - pos
  {
    if e.cancelled(n) then (SawCancel, temp)
    else if e.readError(n) != 0 then (ReadFailed(e.readError(n)), temp)
    else
      var k := ReadSize(e.source, chunkSize, n, pos);
      if k == 0 then (AtEnd(state), temp)
      else
        var chunk := e.source.bytes[pos..pos + k];
        if e.updateError(n) != [] then (HashThrew(e.updateError(n)), temp)
        else
          match e.write(n)
          case WritesPart(count, error) => (WriteFailed(error), temp + chunk[..Min(count, k)])
          case WritesAll => CopyLoop(e, d, chunkSize, n + 1, pos + k, Absorb(d, state, chunk), temp + chunk)
  }

  function CacheView(e: Surroundings, content: Bytes): HashView {
    e.hashCache.(stream := e.hashCache.stream.(bytes := content))
  }

  function Report(e: Surroundings, files: Files, cache: Path, action: CopyAction, hash: string, error: string): Outcome {
    Returned(CopyResult(action, if e.inspected.Ok? then e.inspected.value else 0,
                        if e.inspected.Ok? && cache in files then |files[cache]| else 0,
                        hash, e.startedAt, error))
  }

  /** How the loop's end is reported, and the files afterwards. The temporary
      file is still open for writing when a read, a write or the hash fails, so
      deleting it there fails. */
  function AfterLoop(e: Surroundings, d: Digest, files: Files, held: set<Path>, cache: Path, end: LoopEnd, temp: Bytes): (Outcome, Files) {
    var left := files[TempOf(cache) := temp];
    var cleaned := if e.deleteError == 0 then left - {TempOf(cache)} else left;
    match end
    case SawCancel => (Report(e, files, cache, Cancelled, [], "copy cancelled"), cleaned)
    case ReadFailed(error) =>
      (if IsMissing(error) then Report(e, files, cache, SourceMissing, [], "source file disappeared during copy: error " + e.describe(error))
       else Report(e, files, cache, Failed, [], "failed to read source: error " + e.describe(error)), left)
    case WriteFailed(error) =>
      (Report(e, files, cache, Failed, [], "failed to write cache destination: error " + e.describe(error)), left)
    case HashThrew(message) => (Report(e, files, cache, Failed, [], message), left)
    case AtEnd(state) =>
      if e.finishError != [] then (Report(e, files, cache, Failed, [], e.finishError), left)
      else
        var size := if e.inspected.Ok? then e.inspected.value else 0;
        var hash := Hex(d.finish(state));
        var error := if e.moveError != 0 then e.moveError else if cache in held then SHARING_VIOLATION else 0;
        if error != 0 then
          (Returned(CopyResult(Failed, size, size, hash, e.finishedAt, "failed to replace cache file: error " + e.describe(error))),
           cleaned)
        else (Returned(CopyResult(Copied, size, size, hash, e.finishedAt, [])), (left - {TempOf(cache)})[cache := temp])
  }

  /** The part of copy_and_hash inside its try block. */
  function Transfer(e: Surroundings, d: Digest, chunkSize: nat, files: Files, held: set<Path>, cache: Path): (Outcome, Files) {
    if e.directoryError != [] then (Report(e, files, cache, Failed, [], e.directoryError), files)
    else if e.sourceError != 0 then
      (if IsMissing(e.sourceError) then
         Report(e, files, cache, SourceMissing, [], "source file disappeared before copy: error " + e.describe(e.sourceError))
       else Report(e, files, cache, Failed, [], "failed to open source: error " + e.describe(e.sourceError)), files)
    else
      var error := if e.createError != 0 then e.createError else if TempOf(cache) in held then SHARING_VIOLATION else 0;
      if error != 0 then (Report(e, files, cache, Failed, [], "failed to open cache destination: error " + e.describe(error)), files)
      else if e.setupError != [] then (Report(e, files, cache, Failed, [], e.setupError), files[TempOf(cache) := []])
      else
        var (end, temp) := CopyLoop(e, d, chunkSize, 0, 0, d.start, []);
        AfterLoop(e, d, files, held, cache, end, temp)
  }

  /** copy_and_hash. */
  function CopyOutcome(e: Surroundings, d: Digest, chunkSize: nat, files: Files, held: set<Path>, cache: Path, compareHash: bool): (Outcome, Files) {
    match e.inspected
    case Err(error) =>
      (if IsMissing(error) then Report(e, files, cache, SourceMissing, [], "source file does not exist: error " + e.describe(error))
       else Report(e, files, cache, Failed, [], "failed to inspect source: error " + e.describe(error)), files)
    case Ok(size) =>
      if cache in files && |files[cache]| == size then
        if !compareHash then (Report(e, files, cache, SkippedSameSize, [], []), files)
        else
          var source, copy := HashFile(e.hashSource, d, chunkSize), HashFile(CacheView(e, files[cache]), d, chunkSize);
          if source.Err? then (Threw(source.error), files)
          else if copy.Err? then (Threw(copy.error), files)
          else if source == copy then (Report(e, files, cache, SkippedHashMatch, source.value, []), files)
          else Transfer(e, d, chunkSize, files, held, cache)
      else Transfer(e, d, chunkSize, files, held, cache)
  }

  // ---------- what a call achieves ----------

  /** The loop hashes and writes the same bytes: whatever the read sizes, what it
      leaves is a prefix of the source, all of it when it ends normally, and the
      running state is the state after that prefix. */
  lemma {:induction false} LoopCopiesPrefix(e: Surroundings, d: Digest, chunkSize: nat, n: nat, pos: nat, state: nat, temp: Bytes)
    requires pos <= |e.source.bytes| && temp == e.source.bytes[..pos] && state == Absorb(d, d.start, temp)
    ensures var (end, left) := CopyLoop(e, d, chunkSize, n, pos, state, temp);
            && left <= e.source.bytes
            && (end.AtEnd? && chunkSize > 0 ==> left == e.source.bytes)
            && (end.AtEnd? ==> end.state == Absorb(d, d.start, left))
            && (chunkSize == 0 ==> left == temp)
    decreases |e.source.bytes| - pos
  {
    hide Absorb;
    var k := ReadSize(e.source, chunkSize, n, pos);
    if !e.cancelled(n) && e.readError(n) == 0 && k != 0 && e.updateError(n) == [] {
      var chunk := e.source.bytes[pos..pos + k];
      assert temp + chunk == e.source.bytes[..pos + k];
      if e.write(n).WritesAll? {
        AbsorbComposes(d, d.start, temp, chunk);
        LoopCopiesPrefix(e, d, chunkSize, n + 1, pos + k, Absorb(d, state, chunk), temp + chunk);
      } else {
        var part := chunk[..Min(e.write(n).count, k)];
        assert temp + part == e.source.bytes[..pos + |part|];
      }
    }
  }

  /** The file the call works on besides the cache file. */
  ghost predicate OnlyChanges(before: Files, after: Files, touched: set<Path>) {
    forall p :: p !in touched ==> (p in before <==> p in after) && (p in before && p in after ==> before[p] == after[p])
  }

  function ActionOf(o: Outcome): Option<CopyAction> {
    if o.Returned? then Some(o.result.action) else None
  }

  // The outcomes without their error texts, for the proofs below.

  lemma AfterLoopShape(e: Surroundings, d: Digest, files: Files, held: set<Path>, cache: Path, end: LoopEnd, temp: Bytes)
    ensures var (o, after) := AfterLoop(e, d, files, held, cache, end, temp);
            && o.Returned? && o.result.action !in {SkippedSameSize, SkippedHashMatch}
            && (o.result.action == Cancelled ==> end.SawCancel?)
            && (TempOf(cache) in after <==> TempRemains(e, held, cache, end))
            && (end.SawCancel? ==> o.result.action == Cancelled)
            && (o.result.action != Copied ==> OnlyChanges(files, after, {TempOf(cache)}))
            && (o.result.action == Copied ==> 
                  && end.AtEnd? && e.finishError == [] && after == (files - {TempOf(cache)})[cache := temp]
                  && o.result.hash == Hex(d.finish(end.state))
                  && o.result.cachedSize == o.result.sourceSize == (if e.inspected.Ok? then e.inspected.value else 0))
  {
    hide Hex;
  }

  /** What is left of the temporary file by the way the loop ended: everything
      when its handle was still open, or when deleting it fails after a
      cancellation or a failed move. */
  predicate TempRemains(e: Surroundings, held: set<Path>, cache: Path, end: LoopEnd) {
    if end.SawCancel? then e.deleteError != 0
    else if end.AtEnd? && e.finishError == [] then (e.moveError != 0 || cache in held) && e.deleteError != 0
    else true
  }

  predicate Creates(e: Surroundings, held: set<Path>, cache: Path) {
    e.directoryError == [] && e.sourceError == 0 && e.createError == 0 && TempOf(cache) !in held
  }

  lemma TransferStopsEarly(e: Surroundings, d: Digest, chunkSize: nat, files: Files, held: set<Path>, cache: Path)
    requires !Creates(e, held, cache)
    ensures var (o, after) := Transfer(e, d, chunkSize, files, held, cache);
            && after == files && o.Returned?
            && o.result.action in {SourceMissing, Failed}
  {
    hide CopyLoop, AfterLoop, Hex, TempOf;
  }

  lemma TransferCreates(e: Surroundings, d: Digest, chunkSize: nat, files: Files, held: set<Path>, cache: Path)
    requires Creates(e, held, cache)
    ensures var (o, after) := Transfer(e, d, chunkSize, files, held, cache);
            var (end, temp) := CopyLoop(e, d, chunkSize, 0, 0, d.start, []);
            if e.setupError != [] then
              o.Returned? && o.result.action == Failed && after == files[TempOf(cache) := []]
            else (o, after) == AfterLoop(e, d, files, held, cache, end, temp)
  {
    hide CopyLoop, AfterLoop, Hex, TempOf;
  }

  lemma TransferShape(e: Surroundings, d: Digest, chunkSize: nat, files: Files, held: set<Path>, cache: Path)
    ensures var (o, after) := Transfer(e, d, chunkSize, files, held, cache);
            var (end, temp) := CopyLoop(e, d, chunkSize, 0, 0, d.start, []);
            && o.Returned? && o.result.action !in {SkippedSameSize, SkippedHashMatch}
            && (o.result.action == Cancelled ==> Creates(e, held, cache) && end.SawCancel?)
            && (TempOf(cache) in after <==> if Creates(e, held, cache) then LeavesTemp(e, d, chunkSize, held, cache) else TempOf(cache) in files)
            && (o.result.action in {Copied, Cancelled} ==> Creates(e, held, cache) && e.setupError == [])
            && (o.result.action == Cancelled ==> (TempOf(cache) in after <==> e.deleteError != 0))
            && (o.result.action != Copied ==> OnlyChanges(files, after, {TempOf(cache)}))
            && (o.result.action == Copied ==>
                  && end.AtEnd? && after == (files - {TempOf(cache)})[cache := temp]
                  && o.result.hash == Hex(d.finish(end.state))
                  && o.result.cachedSize == o.result.sourceSize == (if e.inspected.Ok? then e.inspected.value else 0))
  {
    hide CopyLoop, AfterLoop, Hex, Transfer, Creates, TempOf;
    var (end, temp) := CopyLoop(e, d, chunkSize, 0, 0, d.start, []);
    if Creates(e, held, cache) {
      TransferCreates(e, d, chunkSize, files, held, cache);
      AfterLoopShape(e, d, files, held, cache, end, temp);
    } else {
      TransferStopsEarly(e, d, chunkSize, files, held, cache);
    }
  }

  lemma OutcomeShape(e: Surroundings, d: Digest, chunkSize: nat, files: Files, held: set<Path>, cache: Path, compareHash: bool)
    ensures var (o, after) := CopyOutcome(e, d, chunkSize, files, held, cache, compareHash);
            var same := e.inspected.Ok? && cache in files && |files[cache]| == e.inspected.value;
            && (ActionOf(o) in {Some(SkippedSameSize), Some(SkippedHashMatch)} ==>
                  same && after == files && o.result.sourceSize == o.result.cachedSize == |files[cache]|)
            && (o.Threw? ==> after == files)
            && (!TempIsCreated(e, d, chunkSize, files, held, cache, compareHash) ==>
                  ActionOf(o) !in {Some(Copied), Some(Cancelled)} && (TempOf(cache) in after <==> TempOf(cache) in files))
            && (ActionOf(o) !in {Some(SkippedSameSize), Some(SkippedHashMatch), None} && after != files ==>
                  e.inspected.Ok? && (o, after) == Transfer(e, d, chunkSize, files, held, cache))
            && (ActionOf(o) in {Some(Copied), Some(Cancelled)} || TempIsCreated(e, d, chunkSize, files, held, cache, compareHash) ==>
                  e.inspected.Ok? && (o, after) == Transfer(e, d, chunkSize, files, held, cache))
  {
    TransferShape(e, d, chunkSize, files, held, cache);
    hide Transfer, Hex, OneShot, Delivered, CopyLoop, LeavesTemp, Creates;
  }

  /** Copied publishes exactly the bytes read, under their one-shot digest, for
      any read sizes; the recorded size is the one inspected before the copy, so
      it describes the cache file exactly when the source kept that length. */
  lemma CopiedPublishesTheSource(e: Surroundings, d: Digest, chunkSize: nat, files: Files, held: set<Path>, cache: Path, compareHash: bool)
    requires ActionOf(CopyOutcome(e, d, chunkSize, files, held, cache, compareHash).0) == Some(Copied)
    ensures var (o, after) := CopyOutcome(e, d, chunkSize, files, held, cache, compareHash);
            var data := Delivered(e.source, chunkSize);
            && cache in after && after[cache] == data && o.result.hash == OneShot(d, data)
            && TempOf(cache) !in after && OnlyChanges(files, after, {cache, TempOf(cache)})
            && e.inspected == Ok(o.result.sourceSize) && o.result.cachedSize == o.result.sourceSize
            && (o.result.cachedSize == |after[cache]| <==> o.result.sourceSize == |data|)
  {
    OutcomeShape(e, d, chunkSize, files, held, cache, compareHash);
    TransferShape(e, d, chunkSize, files, held, cache);
    hide CopyLoop, Hex, Absorb, Transfer, CopyOutcome, TempOf, LeavesTemp, TempIsCreated;
    AbsorbNothing(d, d.start);
    LoopCopiesPrefix(e, d, chunkSize, 0, 0, d.start, []);
  }

  lemma AbsorbNothing(d: Digest, state: nat)
    ensures Absorb(d, state, []) == state
  {
  }

  /** Any other outcome, an exception included, leaves every file but the
      temporary one as it was. */
  lemma OtherwiseNothingIsPublished(e: Surroundings, d: Digest, chunkSize: nat, files: Files, held: set<Path>, cache: Path, compareHash: bool)
    requires ActionOf(CopyOutcome(e, d, chunkSize, files, held, cache, compareHash).0) != Some(Copied)
    ensures OnlyChanges(files, CopyOutcome(e, d, chunkSize, files, held, cache, compareHash).1, {TempOf(cache)})
  {
    OutcomeShape(e, d, chunkSize, files, held, cache, compareHash);
    TransferShape(e, d, chunkSize, files, held, cache);
    hide CopyLoop, Hex, OneShot, Delivered, Transfer, CopyOutcome, TempOf, LeavesTemp, TempIsCreated, Creates;
  }

  /** The call gets as far as creating the temporary file. */
  predicate TempIsCreated(e: Surroundings, d: Digest, chunkSize: nat, files: Files, held: set<Path>, cache: Path, compareHash: bool) {
    && e.inspected.Ok?
    && (cache in files && |files[cache]| == e.inspected.value ==>
          compareHash && HashError(e.hashSource, chunkSize) == [] && HashError(CacheView(e, files[cache]), chunkSize) == []
          && HashFile(e.hashSource, d, chunkSize) != HashFile(CacheView(e, files[cache]), d, chunkSize))
    && Creates(e, held, cache)
  }

  /** The temporary file survives a call that created it exactly when the hash
      object could not be set up, or by the way the loop ended. */
  predicate LeavesTemp(e: Surroundings, d: Digest, chunkSize: nat, held: set<Path>, cache: Path) {
    e.setupError != [] || TempRemains(e, held, cache, CopyLoop(e, d, chunkSize, 0, 0, d.start, []).0)
  }

  /** A failing read, write or hash always leaves the temporary file; Copied never
      does, and Cancelled only when the deletion itself fails. */
  lemma TempIsLeftExactly(e: Surroundings, d: Digest, chunkSize: nat, files: Files, held: set<Path>, cache: Path, compareHash: bool)
    ensures TempOf(cache) in CopyOutcome(e, d, chunkSize, files, held, cache, compareHash).1
       <==> if TempIsCreated(e, d, chunkSize, files, held, cache, compareHash) then LeavesTemp(e, d, chunkSize, held, cache)
            else TempOf(cache) in files
    ensures var (o, after) := CopyOutcome(e, d, chunkSize, files, held, cache, compareHash);
            && (ActionOf(o) == Some(Copied) ==> TempOf(cache) !in after)
            && (ActionOf(o) == Some(Cancelled) ==> (TempOf(cache) in after <==> e.deleteError != 0))
  {
    OutcomeShape(e, d, chunkSize, files, held, cache, compareHash);
    TransferShape(e, d, chunkSize, files, held, cache);
    TempIsCreatedMeans(e, d, chunkSize, files, held, cache, compareHash);
    hide CopyLoop, Hex, OneShot, Delivered, Transfer, CopyOutcome, TempOf, LeavesTemp, TempIsCreated, Creates;
  }

  lemma TempIsCreatedMeans(e: Surroundings, d: Digest, chunkSize: nat, files: Files, held: set<Path>, cache: Path, compareHash: bool)
    ensures TempIsCreated(e, d, chunkSize, files, held, cache, compareHash) ==> Creates(e, held, cache)
  {
    hide Creates;
  }

  /** Copying again right after a copy of an unchanged source does nothing, and
      says so the way the comparison setting asks for, naming the same hash. */
  lemma RepeatIsSkipped(e: Surroundings, again: Surroundings, d: Digest, chunkSize: nat, files: Files, held: set<Path>, cache: Path, compareHash: bool)
    requires chunkSize > 0
    requires ActionOf(CopyOutcome(e, d, chunkSize, files, held, cache, compareHash).0) == Some(Copied)
    requires again.inspected == Ok(|e.source.bytes|)
    requires compareHash ==> again.hashSource.stream.bytes == e.source.bytes && HashError(again.hashSource, chunkSize) == []
    requires compareHash ==> HashError(CacheView(again, e.source.bytes), chunkSize) == []
    ensures var (first, after) := CopyOutcome(e, d, chunkSize, files, held, cache, compareHash);
            var (o, still) := CopyOutcome(again, d, chunkSize, after, held, cache, compareHash);
            && still == after && o.Returned?
            && o.result.action == (if compareHash then SkippedHashMatch else SkippedSameSize)
            && o.result.hash == (if compareHash then first.result.hash else [])
            && o.result.sourceSize == o.result.cachedSize == |e.source.bytes|
  {
    CopiedPublishesTheSource(e, d, chunkSize, files, held, cache, compareHash);
    hide CopyLoop, Hex, OneShot, Transfer;
  }

  /** Without the hash comparison a second call is skipped exactly when the size
      inspected then is the number of bytes the first one read. */
  lemma RepeatIsSkippedBySizeIff(e: Surroundings, again: Surroundings, d: Digest, chunkSize: nat, files: Files, held: set<Path>, cache: Path)
    requires ActionOf(CopyOutcome(e, d, chunkSize, files, held, cache, false).0) == Some(Copied)
    ensures var after := CopyOutcome(e, d, chunkSize, files, held, cache, false).1;
            ActionOf(CopyOutcome(again, d, chunkSize, after, held, cache, false).0) == Some(SkippedSameSize)
            <==> again.inspected == Ok(|Delivered(e.source, chunkSize)|)
  {
    CopiedPublishesTheSource(e, d, chunkSize, files, held, cache, false);
    TransferShape(again, d, chunkSize, CopyOutcome(e, d, chunkSize, files, held, cache, false).1, held, cache);
    hide CopyLoop, Hex, OneShot, Transfer, Delivered;
  }

  /** The guard of the throwing branch: hashes are to be compared, the sizes are
      equal, and one of the two files cannot be hashed. */
  predicate HashingFails(e: Surroundings, chunkSize: nat, files: Files, cache: Path, compareHash: bool) {
    && compareHash && cache in files && e.inspected == Ok(|files[cache]|)
    && (HashError(e.hashSource, chunkSize) != [] || HashError(CacheView(e, files[cache]), chunkSize) != [])
  }

  /** The call throws exactly under that guard: hashing is outside the part that
      turns exceptions into results. */
  lemma ThrowsExactlyWhenHashingFails(e: Surroundings, d: Digest, chunkSize: nat, files: Files, held: set<Path>, cache: Path, compareHash: bool)
    ensures CopyOutcome(e, d, chunkSize, files, held, cache, compareHash).0.Threw? <==> HashingFails(e, chunkSize, files, cache, compareHash)
  {
    TransferShape(e, d, chunkSize, files, held, cache);
    hide Transfer, Hex, OneShot, Delivered, HashError;
  }

  /** When equal digests of these two contents mean equal contents, a hash match
      means the cache file already holds the source's bytes. */
  lemma HashMatchMeansSameBytes(e: Surroundings, d: Digest, chunkSize: nat, files: Files, held: set<Path>, cache: Path)
    requires chunkSize > 0 && cache in files
    requires ActionOf(CopyOutcome(e, d, chunkSize, files, held, cache, true).0) == Some(SkippedHashMatch)
    requires var source := e.hashSource.stream.bytes;
             d.finish(Absorb(d, d.start, source)) == d.finish(Absorb(d, d.start, files[cache])) ==> source == files[cache]
    ensures files[cache] == e.hashSource.stream.bytes
  {
    TransferShape(e, d, chunkSize, files, held, cache);
    hide Transfer, Hex, Absorb, HashError;
    var a, b := e.hashSource.stream.bytes, files[cache];
    HexIsInjective(d.finish(Absorb(d, d.start, a)), d.finish(Absorb(d, d.start, b)));
  }

  /** The engine is what the scheduler's protocol takes it for: on every disk
      whose recorded sizes are real, a report it returns is one the protocol
      allows, and the disk afterwards has the size the protocol gives it. */
  lemma EngineKeepsItsPromise(e: Surroundings, d: Digest, chunkSize: nat, files: Files, held: set<Path>, cache: Path, compareHash: bool,
                              s: State, p: Path)
    requires p in s.disk <==> cache in files
    requires p in s.disk ==> s.disk[p] == |files[cache]|
    requires forall n :: e.cancelled(n) ==> s.stop
    ensures var (o, after) := CopyOutcome(e, d, chunkSize, files, held, cache, compareHash);
            o.Returned? ==>
              && EngineMayReport(s, p, o.result, if cache in after then |after[cache]| else 0)
              && (if o.result.action == Copied then cache in after
                  else cache in after <==> cache in files)
              && (o.result.action != Copied && cache in files ==> after[cache] == files[cache])
  {
    var (o, after) := CopyOutcome(e, d, chunkSize, files, held, cache, compareHash);
    OutcomeShape(e, d, chunkSize, files, held, cache, compareHash);
    TransferShape(e, d, chunkSize, files, held, cache);
    CancelNeedsTheFlag(e, d, chunkSize, 0, 0, d.start, []);
    if ActionOf(o) == Some(Copied) {
      CopiedPublishesTheSource(e, d, chunkSize, files, held, cache, compareHash);
    } else {
      OtherwiseNothingIsPublished(e, d, chunkSize, files, held, cache, compareHash);
    }
    hide CopyLoop, Hex, OneShot, Delivered, Transfer, CopyOutcome, LeavesTemp, TempIsCreated, Creates;
  }

  lemma {:induction false} CancelNeedsTheFlag(e: Surroundings, d: Digest, chunkSize: nat, n: nat, pos: nat, state: nat, temp: Bytes)
    requires pos <= |e.source.bytes|
    ensures CopyLoop(e, d, chunkSize, n, pos, state, temp).0.SawCancel? ==> exists k :: e.cancelled(k)
    decreases |e.source.bytes| - pos
  {
    var k := ReadSize(e.source, chunkSize, n, pos);
    if !e.cancelled(n) && e.readError(n) == 0 && k != 0 && e.updateError(n) == [] && e.write(n).WritesAll? {
      var chunk := e.source.bytes[pos..pos + k];
      CancelNeedsTheFlag(e, d, chunkSize, n + 1, pos + k, Absorb(d, state, chunk), temp + chunk);
    }
  }

  // ---------- what is reported, exactly ----------

  /** The turn, counted on from the n-th, whose read finds the end of the file. */
  function LastTurn(s: Stream, chunkSize: nat, n: nat, pos: nat): (last: nat)
    requires pos <= |s.bytes|
    ensures last >= n
    decreases |s.bytes| - pos
  {
    var k := ReadSize(s, chunkSize, n, pos);
    if k == 0 then n else LastTurn(s, chunkSize, n + 1, pos + k)
  }

  /** No earlier turn of the copy loop ends it, and the n-th is not behind the end. */
  ghost predicate ReachesTurn(e: Surroundings, chunkSize: nat, n: nat) {
    && n <= LastTurn(e.source, chunkSize, 0, 0)
    && forall k :: 0 <= k < n ==> !e.cancelled(k) && e.readError(k) == 0 && e.updateError(k) == [] && e.write(k) == WritesAll
  }

  /** Where the copy loop stops, and why. */
  ghost predicate StopsAt(e: Surroundings, chunkSize: nat, end: LoopEnd, n: nat) {
    var last, got := LastTurn(e.source, chunkSize, 0, 0), !e.cancelled(n) && e.readError(n) == 0;
    && ReachesTurn(e, chunkSize, n)
    && match end
       case SawCancel => e.cancelled(n)
       case ReadFailed(error) => !e.cancelled(n) && e.readError(n) == error != 0
       case AtEnd(_) => got && n == last
       case HashThrew(message) => got && n < last && e.updateError(n) == message != []
       case WriteFailed(error) => got && n < last && e.updateError(n) == [] && e.write(n).WritesPart? && e.write(n).error == error
  }

  lemma {:induction false} LoopStops(e: Surroundings, d: Digest, chunkSize: nat, n: nat, pos: nat, state: nat, temp: Bytes)
    returns (stop: nat)
    requires pos <= |e.source.bytes| && ReachesTurn(e, chunkSize, n)
    requires LastTurn(e.source, chunkSize, n, pos) == LastTurn(e.source, chunkSize, 0, 0)
    ensures StopsAt(e, chunkSize, CopyLoop(e, d, chunkSize, n, pos, state, temp).0, stop)
    decreases |e.source.bytes| - pos
  {
    hide Absorb;
    var k := ReadSize(e.source, chunkSize, n, pos);
    if !e.cancelled(n) && e.readError(n) == 0 && k != 0 && e.updateError(n) == [] && e.write(n).WritesAll? {
      var chunk := e.source.bytes[pos..pos + k];
      stop := LoopStops(e, d, chunkSize, n + 1, pos + k, Absorb(d, state, chunk), temp + chunk);
    } else {
      stop := n;
    }
  }

  /** Only one turn can stop the loop, and it can do so in one way only. */
  lemma StopIsUnique(e: Surroundings, chunkSize: nat, a: LoopEnd, i: nat, b: LoopEnd, j: nat)
    requires StopsAt(e, chunkSize, a, i) && StopsAt(e, chunkSize, b, j)
    ensures a.AtEnd? ==> b.AtEnd?
    ensures a.SawCancel? ==> b.SawCancel?
    ensures a.ReadFailed? ==> b == a
  {
  }

  /** Turn by turn, what ends the copy loop. */
  lemma LoopEndsAs(e: Surroundings, d: Digest, chunkSize: nat)
    ensures var end := CopyLoop(e, d, chunkSize, 0, 0, d.start, []).0;
            && (end.AtEnd? <==> RunsThrough(e, chunkSize))
            && (end.SawCancel? <==> exists n :: ReachesTurn(e, chunkSize, n) && e.cancelled(n))
            && (end.ReadFailed? && end.error in {2, 3} <==> SourceVanishes(e, chunkSize))
  {
    hide CopyLoop, LastTurn;
    var end := CopyLoop(e, d, chunkSize, 0, 0, d.start, []).0;
    var stop := LoopStops(e, d, chunkSize, 0, 0, d.start, []);
    if RunsThrough(e, chunkSize) {
      StopIsUnique(e, chunkSize, AtEnd(0), LastTurn(e.source, chunkSize, 0, 0), end, stop);
    }
    if n :| ReachesTurn(e, chunkSize, n) && e.cancelled(n) {
      StopIsUnique(e, chunkSize, SawCancel, n, end, stop);
    }
    if n :| ReachesTurn(e, chunkSize, n) && !e.cancelled(n) && e.readError(n) in {2, 3} {
      StopIsUnique(e, chunkSize, ReadFailed(e.readError(n)), n, end, stop);
    }
  }

  /** Every turn up to the one that finds the end goes through. */
  ghost predicate RunsThrough(e: Surroundings, chunkSize: nat) {
    var last := LastTurn(e.source, chunkSize, 0, 0);
    ReachesTurn(e, chunkSize, last) && !e.cancelled(last) && e.readError(last) == 0
  }

  /** Some turn that is reached reads and finds the source missing. */
  ghost predicate SourceVanishes(e: Surroundings, chunkSize: nat) {
    exists n :: ReachesTurn(e, chunkSize, n) && !e.cancelled(n) && e.readError(n) in {2, 3}
  }

  /** The cache file has the size of the source. */
  predicate SameSize(e: Surroundings, files: Files, cache: Path) {
    cache in files && e.inspected == Ok(|files[cache]|)
  }

  /** Hashing a file succeeds when it opens and no call on the way to its end fails. */
  ghost predicate Hashable(v: HashView, chunkSize: nat) {
    var last := LastTurn(v.stream, chunkSize, 0, 0);
    && v.opens && v.setupError == [] && v.finishError == []
    && (forall k :: 0 <= k <= last ==> !v.readFails(k)) && (forall k :: 0 <= k < last ==> v.updateError(k) == [])
  }

  lemma {:induction false} ReadingSucceedsIff(v: HashView, chunkSize: nat, n: nat, pos: nat)
    requires pos <= |v.stream.bytes|
    ensures ReadingError(v, chunkSize, n, pos) == [] <==>
              var last := LastTurn(v.stream, chunkSize, n, pos);
              && v.finishError == []
              && (forall k :: n <= k <= last ==> !v.readFails(k)) && (forall k :: n <= k < last ==> v.updateError(k) == [])
    decreases |v.stream.bytes| - pos
  {
    var k := ReadSize(v.stream, chunkSize, n, pos);
    if !v.readFails(n) && k != 0 && v.updateError(n) == [] {
      ReadingSucceedsIff(v, chunkSize, n + 1, pos + k);
    }
  }

  lemma HashSucceedsIff(v: HashView, d: Digest, chunkSize: nat)
    ensures HashError(v, chunkSize) == [] <==> Hashable(v, chunkSize)
    ensures HashFile(v, d, chunkSize) == if Hashable(v, chunkSize) then Ok(OneShot(d, Delivered(v.stream, chunkSize)))
                                         else Err(HashError(v, chunkSize))
  {
    hide ReadingError, LastTurn, OneShot, Delivered;
    ReadingSucceedsIff(v, chunkSize, 0, 0);
  }

  /** The call goes on to copy: the source was inspected, and there is no cache file
      of its size or comparing the hashes of both finds a difference. */
  ghost predicate GoesOn(e: Surroundings, d: Digest, chunkSize: nat, files: Files, cache: Path, compareHash: bool) {
    && e.inspected.Ok?
    && (SameSize(e, files, cache) ==>
          && compareHash && Hashable(e.hashSource, chunkSize) && Hashable(CacheView(e, files[cache]), chunkSize)
          && OneShot(d, Delivered(e.hashSource.stream, chunkSize)) != OneShot(d, Delivered(CacheView(e, files[cache]).stream, chunkSize)))
  }

  /** Both files are open and the hash object is set up. */
  predicate Opens(e: Surroundings, held: set<Path>, cache: Path) {
    e.directoryError == [] && e.sourceError == 0 && e.createError == 0 && TempOf(cache) !in held && e.setupError == []
  }

  lemma OutcomeOf(e: Surroundings, d: Digest, chunkSize: nat, files: Files, held: set<Path>, cache: Path, compareHash: bool)
    ensures var o := CopyOutcome(e, d, chunkSize, files, held, cache, compareHash).0;
            if GoesOn(e, d, chunkSize, files, cache, compareHash) then
              o == Transfer(e, d, chunkSize, files, held, cache).0
            else if e.inspected.Err? then ActionOf(o) == Some(if e.inspected.error in {2, 3} then SourceMissing else Failed)
            else
              && SameSize(e, files, cache)
              && ActionOf(o) == if !compareHash then Some(SkippedSameSize)
                                else if Hashable(e.hashSource, chunkSize) && Hashable(CacheView(e, files[cache]), chunkSize)
                                then Some(SkippedHashMatch) else None
  {
    hide Transfer, HashError, HashFile, Hashable, OneShot, Delivered, CacheView;
    if SameSize(e, files, cache) {
      HashSucceedsIff(e.hashSource, d, chunkSize);
      HashSucceedsIff(CacheView(e, files[cache]), d, chunkSize);
    }
  }

  lemma AfterLoopReports(e: Surroundings, d: Digest, files: Files, held: set<Path>, cache: Path, end: LoopEnd, temp: Bytes)
    ensures ActionOf(AfterLoop(e, d, files, held, cache, end, temp).0) ==
              Some(match end
                   case SawCancel => Cancelled
                   case ReadFailed(error) => if error in {2, 3} then SourceMissing else Failed
                   case WriteFailed(_) => Failed
                   case HashThrew(_) => Failed
                   case AtEnd(_) => if e.finishError == [] && e.moveError == 0 && cache !in held then Copied else Failed)
  {
    hide Hex, TempOf;
  }

  lemma TransferReports(e: Surroundings, d: Digest, chunkSize: nat, files: Files, held: set<Path>, cache: Path)
    ensures var o := Transfer(e, d, chunkSize, files, held, cache).0;
            var (end, temp) := CopyLoop(e, d, chunkSize, 0, 0, d.start, []);
            if Opens(e, held, cache) then o == AfterLoop(e, d, files, held, cache, end, temp).0
            else o.Returned? && o == Report(e, files, cache, EarlyAction(e), [], o.result.error)
  {
    hide CopyLoop, AfterLoop, TempOf;
  }

  /** How a call ends that does not get both files open. */
  function EarlyAction(e: Surroundings): CopyAction {
    if e.directoryError == [] && e.sourceError in {2, 3} then SourceMissing else Failed
  }

  lemma TransferOf(e: Surroundings, d: Digest, chunkSize: nat, files: Files, held: set<Path>, cache: Path)
    ensures var action := ActionOf(Transfer(e, d, chunkSize, files, held, cache).0);
            && (action == Some(Copied) <==>
                  && Opens(e, held, cache) && RunsThrough(e, chunkSize)
                  && e.finishError == [] && e.moveError == 0 && cache !in held)
            && (action == Some(SourceMissing) <==>
                  || (e.directoryError == [] && e.sourceError in {2, 3})
                  || (Opens(e, held, cache) && SourceVanishes(e, chunkSize)))
            && (action == Some(Cancelled) <==>
                  Opens(e, held, cache) && exists n :: ReachesTurn(e, chunkSize, n) && e.cancelled(n))
            && action in {Some(Copied), Some(SourceMissing), Some(Cancelled), Some(Failed)}
  {
    hide Transfer, CopyLoop, AfterLoop, LastTurn, RunsThrough, SourceVanishes, ReachesTurn, TempOf;
    var (end, temp) := CopyLoop(e, d, chunkSize, 0, 0, d.start, []);
    LoopEndsAs(e, d, chunkSize);
    TransferReports(e, d, chunkSize, files, held, cache);
    AfterLoopReports(e, d, files, held, cache, end, temp);
  }

  /** Copied is reported exactly when the copy is needed, no call fails, nothing is
      cancelled up to the end of the source, and nobody holds the two files. */
  lemma CopiedIff(e: Surroundings, d: Digest, chunkSize: nat, files: Files, held: set<Path>, cache: Path, compareHash: bool)
    ensures ActionOf(CopyOutcome(e, d, chunkSize, files, held, cache, compareHash).0) == Some(Copied)
       <==> && GoesOn(e, d, chunkSize, files, cache, compareHash) && Opens(e, held, cache) && RunsThrough(e, chunkSize)
            && e.finishError == [] && e.moveError == 0 && cache !in held
  {
    hide *;
    OutcomeOf(e, d, chunkSize, files, held, cache, compareHash);
    TransferOf(e, d, chunkSize, files, held, cache);
  }

  /** SourceMissing is reported exactly when inspecting, opening or reading the
      source is what fails first, and with one of the two codes for a missing file. */
  lemma SourceMissingIff(e: Surroundings, d: Digest, chunkSize: nat, files: Files, held: set<Path>, cache: Path, compareHash: bool)
    ensures ActionOf(CopyOutcome(e, d, chunkSize, files, held, cache, compareHash).0) == Some(SourceMissing)
       <==> || (e.inspected.Err? && e.inspected.error in {2, 3})
            || (GoesOn(e, d, chunkSize, files, cache, compareHash) && e.directoryError == [] && e.sourceError in {2, 3})
            || (GoesOn(e, d, chunkSize, files, cache, compareHash) && Opens(e, held, cache) && SourceVanishes(e, chunkSize))
  {
    hide *;
    OutcomeOf(e, d, chunkSize, files, held, cache, compareHash);
    TransferOf(e, d, chunkSize, files, held, cache);
    GoesOnMeans(e, d, chunkSize, files, cache, compareHash);
  }

  lemma GoesOnMeans(e: Surroundings, d: Digest, chunkSize: nat, files: Files, cache: Path, compareHash: bool)
    ensures GoesOn(e, d, chunkSize, files, cache, compareHash) ==> e.inspected.Ok?
  {
  }

  /** A report carries the size inspected and the size of the cache file before the
      call, and the call's start; once the copy is complete, the size inspected for
      both, and the time it was completed. */
  lemma ReportedSizes(e: Surroundings, d: Digest, chunkSize: nat, files: Files, held: set<Path>, cache: Path, compareHash: bool)
    ensures SizesReported(e, files, cache, CopyOutcome(e, d, chunkSize, files, held, cache, compareHash).0)
  {
    TransferSizes(e, d, chunkSize, files, held, cache);
    hide CopyLoop, AfterLoop, Transfer, HashFile, TempOf;
  }

  ghost predicate SizesReported(e: Surroundings, files: Files, cache: Path, o: Outcome) {
    var size := if e.inspected.Ok? then e.inspected.value else 0;
    var before := if e.inspected.Ok? && cache in files then |files[cache]| else 0;
    o.Returned? ==>
      && o.result.sourceSize == size && o.result.cachedSize in {size, before}
      && (o.result.action == Copied ==> o.result.cachedSize == size && o.result.completedAt == e.finishedAt)
      && (o.result.action !in {Copied, Failed} ==> o.result.completedAt == e.startedAt)
      && (o.result.action in {Cancelled, SourceMissing} ==> o.result.cachedSize == before && o.result.hash == [])
  }

  lemma TransferSizes(e: Surroundings, d: Digest, chunkSize: nat, files: Files, held: set<Path>, cache: Path)
    ensures SizesReported(e, files, cache, Transfer(e, d, chunkSize, files, held, cache).0)
  {
    var (end, temp) := CopyLoop(e, d, chunkSize, 0, 0, d.start, []);
    TransferReports(e, d, chunkSize, files, held, cache);
    AfterLoopSizes(e, d, files, held, cache, end, temp);
    ReportSizes(e, files, cache);
    hide CopyLoop, AfterLoop, Transfer, Opens, Report, SizesReported;
  }

  lemma ReportSizes(e: Surroundings, files: Files, cache: Path)
    ensures forall action, error :: action != Copied ==> SizesReported(e, files, cache, Report(e, files, cache, action, [], error))
  {
  }

  lemma AfterLoopSizes(e: Surroundings, d: Digest, files: Files, held: set<Path>, cache: Path, end: LoopEnd, temp: Bytes)
    ensures SizesReported(e, files, cache, AfterLoop(e, d, files, held, cache, end, temp).0)
  {
    hide Hex, TempOf;
  }

  /** Cancelled is reported exactly when the flag is up at a turn the loop reaches. */
  lemma CancelledIff(e: Surroundings, d: Digest, chunkSize: nat, files: Files, held: set<Path>, cache: Path, compareHash: bool)
    ensures ActionOf(CopyOutcome(e, d, chunkSize, files, held, cache, compareHash).0) == Some(Cancelled)
       <==> && GoesOn(e, d, chunkSize, files, cache, compareHash) && Opens(e, held, cache)
            && exists n :: ReachesTurn(e, chunkSize, n) && e.cancelled(n)
  {
    hide *;
    OutcomeOf(e, d, chunkSize, files, held, cache, compareHash);
    TransferOf(e, d, chunkSize, files, held, cache);
  }

  /** A skip is reported exactly when the sizes agree and hashes are either not to be
      compared or computed and equal. */
  lemma SkippedIff(e: Surroundings, d: Digest, chunkSize: nat, files: Files, held: set<Path>, cache: Path, compareHash: bool)
    ensures var action := ActionOf(CopyOutcome(e, d, chunkSize, files, held, cache, compareHash).0);
            && (action == Some(SkippedSameSize) <==> SameSize(e, files, cache) && !compareHash)
            && (action == Some(SkippedHashMatch) <==>
                  && SameSize(e, files, cache) && compareHash
                  && Hashable(e.hashSource, chunkSize) && Hashable(CacheView(e, files[cache]), chunkSize)
                  && OneShot(d, Delivered(e.hashSource.stream, chunkSize))
                     == OneShot(d, Delivered(CacheView(e, files[cache]).stream, chunkSize)))
  {
    OutcomeOf(e, d, chunkSize, files, held, cache, compareHash);
    TransferOf(e, d, chunkSize, files, held, cache);
    hide CopyOutcome, Transfer, Hashable, OneShot, Delivered, CacheView, Opens, RunsThrough, SourceVanishes, ReachesTurn;
  }

  /** Removing a cached file is what the scheduler takes it for: without an error
      the cache file is gone, with one it is as it was, and only the temporary
      file may go besides. */
  lemma RemovalKeepsItsPromise(files: Files, held: set<Path>, cache: Path, tempObstacle: int, obstacle: int)
    ensures var after := AfterRemoval(files, held, cache, tempObstacle, obstacle);
            && OnlyChanges(files, after, {cache, TempOf(cache)})
            && (cache in after <==> cache in files && (cache in held || obstacle != 0))
            && (cache in after ==> after[cache] == files[cache])
            && (TempOf(cache) in after <==> TempOf(cache) in files && (TempOf(cache) in held || tempObstacle != 0))
  {
  }

  // ---------- the call as the program makes it ----------

  /** The cache disk: its files, the paths this program has open without sharing,
      and the paths other programs hold open. */
  class FileSystem {
    var files: Files
    var open: set<Path>
    const held: set<Path>

    constructor (held: set<Path>)
      ensures files == map[] && open == {} && this.held == held
    {
      files, open := map[], {};
      this.held := held;
    }

    /** DeleteFileW: returns the error code, zero on success. */
    method Delete(p: Path, obstacle: int) returns (error: int)
      modifies this`files
      ensures files == if error == 0 then old(files) - {p} else old(files)
      ensures error == if p !in old(files) then FILE_NOT_FOUND else if p in open + held then SHARING_VIOLATION else obstacle
    {
      if p !in files {
        return FILE_NOT_FOUND;
      }
      if p in open || p in held {
        return SHARING_VIOLATION;
      }
      if obstacle != 0 {
        return obstacle;
      }
      files := files - {p};
      return 0;
    }

    /** CreateFileW with CREATE_ALWAYS and share mode 0. */
    method CreateExclusive(p: Path, obstacle: int) returns (error: int)
      modifies this
      ensures error == if obstacle != 0 then obstacle else if p in old(open) + held then SHARING_VIOLATION else 0
      ensures if error == 0 then files == old(files)[p := []] && open == old(open) + {p}
              else files == old(files) && open == old(open)
    {
      if obstacle != 0 {
        return obstacle;
      }
      if p in open || p in held {
        return SHARING_VIOLATION;
      }
      files := files[p := []];
      open := open + {p};
      return 0;
    }

    method Append(p: Path, data: Bytes)
      requires p in files && p in open
      modifies this`files
      ensures files == old(files)[p := old(files)[p] + data]
    {
      files := files[p := files[p] + data];
    }

    method Close(p: Path)
      modifies this`open
      ensures open == old(open) - {p}
    {
      open := open - {p};
    }

    /** MoveFileExW with MOVEFILE_REPLACE_EXISTING. */
    method Move(from: Path, to: Path, obstacle: int) returns (error: int)
      requires from in files && from != to
      modifies this`files
      ensures error == if obstacle != 0 then obstacle else if from in open + held || to in open + held then SHARING_VIOLATION else 0
      ensures files == if error == 0 then (old(files) - {from})[to := old(files)[from]] else old(files)
    {
      if obstacle != 0 {
        return obstacle;
      }
      if from in open || from in held || to in open || to in held {
        return SHARING_VIOLATION;
      }
      files := (files - {from})[to := files[from]];
      return 0;
    }
  }

  /** The running hash object. */
  class RunningHash {
    const digest: Digest
    var state: nat

    constructor (digest: Digest)
      ensures this.digest == digest && state == digest.start
    {
      this.digest, state := digest, digest.start;
    }

    method Update(chunk: Bytes)
      modifies this
      ensures state == Absorb(digest, old(state), chunk)
    {
      state := Absorb(digest, state, chunk);
    }
  }

  class WinFileCopyEngine {
    const disk: FileSystem
    const digest: Digest
    var chunkSize: nat

    constructor (disk: FileSystem, digest: Digest)
      ensures this.disk == disk && this.digest == digest && chunkSize == 1024 * 1024
    {
      this.disk, this.digest, chunkSize := disk, digest, 1024 * 1024;
    }

    method SetChunkSize(size: nat)
      modifies this`chunkSize
      ensures chunkSize == size
    {
      chunkSize := size;
    }

    /** hash_existing_file: the digest, or what it throws. */
    method HashExistingFile(v: HashView) returns (r: Result<string, string>)
      ensures r == HashFile(v, digest, chunkSize)
    {
      hide Absorb, Hex;
      if !v.opens {
        return Err("failed to open file for hashing");
      }
      if v.setupError != [] {
        return Err(v.setupError);
      }
      var running := new RunningHash(digest);
      var bytes := v.stream.bytes;
      var n, pos := 0, 0;
      assert bytes[..0] == [];
      AbsorbNothing(digest, digest.start);
      while true
        invariant 0 <= pos <= |bytes| && (chunkSize == 0 ==> pos == 0)
        invariant running.digest == digest && running.state == Absorb(digest, digest.start, bytes[..pos])
        invariant ReadingError(v, chunkSize, n, pos) == ReadingError(v, chunkSize, 0, 0)
        decreases |bytes| - pos
      {
        if v.readFails(n) {
          return Err("failed to read file for hashing");
        }
        var read := ReadSize(v.stream, chunkSize, n, pos);
        if read == 0 {
          break;
        }
        if v.updateError(n) != [] {
          return Err(v.updateError(n));
        }
        AbsorbComposes(digest, digest.start, bytes[..pos], bytes[pos..pos + read]);
        assert bytes[..pos + read] == bytes[..pos] + bytes[pos..pos + read];
        running.Update(bytes[pos..pos + read]);
        n, pos := n + 1, pos + read;
      }
      assert bytes[..pos] == Delivered(v.stream, chunkSize);
      if v.finishError != [] {
        return Err(v.finishError);
      }
      var hash := FinishHex(digest.finish(running.state));
      return Ok(hash);
    }

    /** The try block of copy_and_hash. `result` carries the sizes found before. */
    method TransferFile(e: Surroundings, cache: Path, result: CopyResult) returns (outcome: Outcome)
      requires disk.open == {}
      requires Returned(result) == Report(e, disk.files, cache, result.action, [], [])
      modifies disk
      ensures disk.open == {}
      ensures (outcome, disk.files) == Transfer(e, digest, chunkSize, old(disk.files), disk.held, cache)
    {
      hide CopyLoop, AfterLoop, Hex, Absorb, OneShot, TempOf;
      ghost var files := disk.files;
      ReportFields(e, files, cache, result);
      if e.directoryError != [] {
        return Returned(result.(action := Failed, error := e.directoryError));
      }
      var temp := TempOf(cache);
      if e.sourceError != 0 {
        if IsMissing(e.sourceError) {
          return Returned(result.(action := SourceMissing,
                                  error := "source file disappeared before copy: error " + e.describe(e.sourceError)));
        }
        return Returned(result.(action := Failed, error := "failed to open source: error " + e.describe(e.sourceError)));
      }
      var createError := disk.CreateExclusive(temp, e.createError);
      if createError != 0 {
        return Returned(result.(action := Failed,
                                error := "failed to open cache destination: error " + e.describe(createError)));
      }
      if e.setupError != [] {
        disk.Close(temp);
        return Returned(result.(action := Failed, error := e.setupError));
      }
      var end := Pump(e, temp);
      outcome := Finish(e, cache, result, end, files);
    }

    /** The copy loop, with the temporary file open. */
    method Pump(e: Surroundings, temp: Path) returns (end: LoopEnd)
      requires temp in disk.files && disk.files[temp] == [] && disk.open == {temp}
      modifies disk`files
      ensures temp in disk.files && disk.files == old(disk.files)[temp := disk.files[temp]]
      ensures (end, disk.files[temp]) == CopyLoop(e, digest, chunkSize, 0, 0, digest.start, [])
    {
      hide Absorb;
      var running := new RunningHash(digest);
      var n, pos := 0, 0;
      while true
        invariant 0 <= pos <= |e.source.bytes| && running.digest == digest && disk.open == {temp}
        invariant temp in disk.files && disk.files == old(disk.files)[temp := disk.files[temp]]
        invariant CopyLoop(e, digest, chunkSize, n, pos, running.state, disk.files[temp])
               == CopyLoop(e, digest, chunkSize, 0, 0, digest.start, [])
        decreases |e.source.bytes| - pos
      {
        if e.cancelled(n) {
          return SawCancel;
        }
        if e.readError(n) != 0 {
          return ReadFailed(e.readError(n));
        }
        var read := ReadSize(e.source, chunkSize, n, pos);
        if read == 0 {
          return AtEnd(running.state);
        }
        var buffer := e.source.bytes[pos..pos + read];
        if e.updateError(n) != [] {
          return HashThrew(e.updateError(n));
        }
        running.Update(buffer);
        match e.write(n)
        case WritesPart(count, error) =>
          disk.Append(temp, buffer[..Min(count, read)]);
          return WriteFailed(error);
        case WritesAll =>
          disk.Append(temp, buffer);
          n, pos := n + 1, pos + read;
      }
    }

    /** What copy_and_hash does where its loop ends. */
    method Finish(e: Surroundings, cache: Path, result: CopyResult, end: LoopEnd, ghost files: Files) returns (outcome: Outcome)
      requires TempOf(cache) in disk.files && disk.files == files[TempOf(cache) := disk.files[TempOf(cache)]]
      requires disk.open == {TempOf(cache)} && TempOf(cache) !in disk.held
      requires Returned(result) == Report(e, files, cache, result.action, [], [])
      modifies disk
      ensures disk.open == {}
      ensures (outcome, disk.files) == AfterLoop(e, digest, files, disk.held, cache, end, old(disk.files)[TempOf(cache)])
    {
      hide Hex, Absorb, OneShot, TempOf;
      ReportFields(e, files, cache, result);
      var temp := TempOf(cache);
      match end
      case SawCancel =>
        disk.Close(temp);
        var _ := disk.Delete(temp, e.deleteError);
        return Returned(result.(action := Cancelled, error := "copy cancelled"));
      case ReadFailed(error) =>
        var _ := disk.Delete(temp, e.deleteError);
        disk.Close(temp);
        if IsMissing(error) {
          return Returned(result.(action := SourceMissing,
                                  error := "source file disappeared during copy: error " + e.describe(error)));
        }
        return Returned(result.(action := Failed, error := "failed to read source: error " + e.describe(error)));
      case WriteFailed(error) =>
        var _ := disk.Delete(temp, e.deleteError);
        disk.Close(temp);
        return Returned(result.(action := Failed, error := "failed to write cache destination: error " + e.describe(error)));
      case HashThrew(message) =>
        disk.Close(temp);
        return Returned(result.(action := Failed, error := message));
      case AtEnd(state) =>
        if e.finishError != [] {
          disk.Close(temp);
          return Returned(result.(action := Failed, error := e.finishError));
        }
        var hash := FinishHex(digest.finish(state));
        var ready := result.(hash := hash, cachedSize := result.sourceSize, completedAt := e.finishedAt);
        disk.Close(temp);
        var moveError := disk.Move(temp, cache, e.moveError);
        if moveError != 0 {
          var _ := disk.Delete(temp, e.deleteError);
          return Returned(ready.(action := Failed, error := "failed to replace cache file: error " + e.describe(moveError)));
        }
        return Returned(ready.(action := Copied));
    }

    lemma ReportFields(e: Surroundings, files: Files, cache: Path, result: CopyResult)
      requires Returned(result) == Report(e, files, cache, result.action, [], [])
      ensures forall action, error :: Report(e, files, cache, action, [], error) == Returned(result.(action := action, error := error))
      ensures result.error == [] && result.hash == [] && result.sourceSize == if e.inspected.Ok? then e.inspected.value else 0
    {
    }

    /** copy_and_hash. */
    method CopyAndHash(e: Surroundings, cache: Path, compareHash: bool) returns (outcome: Outcome)
      requires disk.open == {}
      modifies disk
      ensures disk.open == {}
      ensures (outcome, disk.files) == CopyOutcome(e, digest, chunkSize, old(disk.files), disk.held, cache, compareHash)
    {
      hide Transfer, HashFile, TempOf;
      var result := CopyResult(Failed, 0, 0, [], e.startedAt, []);
      match e.inspected
      case Err(error) =>
        if IsMissing(error) {
          return Returned(result.(action := SourceMissing, error := "source file does not exist: error " + e.describe(error)));
        }
        return Returned(result.(action := Failed, error := "failed to inspect source: error " + e.describe(error)));
      case Ok(size) =>
        result := result.(sourceSize := size);
        if cache in disk.files {
          result := result.(cachedSize := |disk.files[cache]|);
          if |disk.files[cache]| == size && !compareHash {
            return Returned(result.(action := SkippedSameSize));
          }
          if |disk.files[cache]| == size && compareHash {
            var sourceHash := HashExistingFile(e.hashSource);
            if sourceHash.Err? {
              return Threw(sourceHash.error);
            }
            var cacheHash := HashExistingFile(CacheView(e, disk.files[cache]));
            if cacheHash.Err? {
              return Threw(cacheHash.error);
            }
            if sourceHash == cacheHash {
              return Returned(result.(action := SkippedHashMatch, hash := sourceHash.value));
            }
          }
        }
        outcome := TransferFile(e, cache, result);
    }

    /** remove_cached_file: removed, missing, or an error text. The obstacles are
        what else keeps an existing file from being deleted. */
    method RemoveCachedFile(cache: Path, tempObstacle: int, obstacle: int, describe: int -> string)
      returns (removed: bool, missing: bool, error: string)
      requires !IsMissing(obstacle)
      modifies disk`files
      ensures disk.files == AfterRemoval(old(disk.files), disk.held + disk.open, cache, tempObstacle, obstacle)
      ensures removed == (cache in old(disk.files) && cache !in disk.files)
      ensures missing == (cache !in old(disk.files))
      ensures error == if removed || missing then []
                       else "failed to delete cache file: error "
                            + describe(if cache in disk.held + disk.open then SHARING_VIOLATION else obstacle)
    {
      removed, missing, error := false, false, [];
      var _ := disk.Delete(TempOf(cache), tempObstacle);
      var code := disk.Delete(cache, obstacle);
      if code == 0 {
        removed := true;
      } else if IsMissing(code) {
        missing := true;
      } else {
        error := "failed to delete cache file: error " + describe(code);
      }
    }
  }

  /** The disk after remove_cached_file: each of the two files goes unless somebody
      holds it or something else is in the way. */
  function AfterRemoval(files: Files, held: set<Path>, cache: Path, tempObstacle: int, obstacle: int): Files {
    files - (((if obstacle == 0 then {cache} else {}) + if tempObstacle == 0 then {TempOf(cache)} else {}) - held)
  }
}
