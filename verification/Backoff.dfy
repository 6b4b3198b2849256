/** Retry counts and retry delays of one path, over every interleaving. */
module Backoff {
  import opened Prelude
  import opened UtcTime
  import opened IndexModel
  import opened Protocol

  datatype Book = Book(
    failures: nat,       // failed attempts since the path's row was created
    replaced: bool)      // the row was removed since the current pass queried its jobs

  ghost function NoteRecorder(s: State, l: RecorderStep, p: Path, b: Book): Book {
    if l.Record? && s.recorder.Accepted? && s.recorder.event.path == p then
      if s.recorder.event.kind == Delete then b.(replaced := true)
      else if SchedulesCopy(s.recorder.event.kind) && p !in s.db.pending then Book(0, true)
      else b
    else b
  }

  ghost function NotePass(s: State, l: PassStep, p: Path, b: Book): Book {
    match l
    case Select(_, _) => b.(replaced := false)
    case UnlistVictim =>
      if OnJob(s.worker) && s.worker.stage.Evicting? && s.worker.stage.victim == p then b.(replaced := true) else b
    case NoteError =>
      if OnJob(s.worker) && Target(s.worker) == p && p in s.db.pending then b.(failures := b.failures + 1) else b
    case Throw(_) =>
      if s.worker.Passing? && s.worker.entry.Some? && s.worker.entry.value.path == p && p in s.db.pending
      then b.(failures := b.failures + 1) else b
    case Reschedule =>
      if OnJob(s.worker) && Target(s.worker) == p && p !in s.db.pending then b.(failures := 0) else b
    case _ => b
  }

  ghost function Note(s: State, l: Label, p: Path, b: Book): Book {
    match l
    case Recorder(r) => NoteRecorder(s, r, p, b)
    case Pass(pass) => NotePass(s, pass, p, b)
    case _ => b
  }

  /** A row an earlier process left behind brings its count along. */
  ghost function Observe(c: Settings, s: State, ls: seq<Label>, p: Path): Book {
    if ls == [] then Book(if p in s.db.pending then s.db.pending[p].retries else 0, false)
    else Note(Exec(c, s, ls[..|ls| - 1]), ls[|ls| - 1], p, Observe(c, s, ls[..|ls| - 1], p))
  }

  /** The failure of the current attempt is already counted in the row. */
  predicate Counted(w: Worker, k: int) {
    w.Passing? && k == w.next && (w.stage.Rescheduling? || w.stage.Requeueing?)
  }

  ghost predicate JobCountsRight(s: State, p: Path, b: Book, k: int) {
    s.worker.Passing? && s.worker.next <= k < |s.worker.jobs| && s.worker.jobs[k].path == p && !b.replaced ==>
      p in s.db.pending && b.failures == s.worker.jobs[k].row.retries + (if Counted(s.worker, k) then 1 else 0)
  }

  ghost predicate CountsRight(s: State, p: Path, b: Book) {
    && (p in s.db.pending ==> s.db.pending[p].retries == b.failures)
    && (forall k :: JobCountsRight(s, p, b, k))
  }

  lemma RecorderKeepsCount(c: Settings, s: State, l: RecorderStep, p: Path, b: Book)
    requires RecorderEnabled(s, l) && CountsRight(s, p, b)
    ensures CountsRight(ApplyRecorder(c, s, l), p, Note(s, Recorder(l), p, b))
  {
    hide EventDue;
    forall k
      ensures JobCountsRight(ApplyRecorder(c, s, l), p, Note(s, Recorder(l), p, b), k)
    {
      assert JobCountsRight(s, p, b, k);
    }
  }

  lemma PassKeepsRowCount(c: Settings, s: State, l: PassStep, p: Path, b: Book)
    requires PassEnabled(c, s, l) && WellFormed(s)
    requires p in s.db.pending ==> s.db.pending[p].retries == b.failures
    ensures var t := ApplyPass(c, s, l);
            p in t.db.pending ==> t.db.pending[p].retries == Note(s, Pass(l), p, b).failures
  {
    hide IsDueSelection, EngineMayReport, RetryDue, HeapWellFormed;
  }

  lemma PassKeepsJobCount(c: Settings, s: State, l: PassStep, p: Path, b: Book, k: int)
    requires PassEnabled(c, s, l) && WellFormed(s) && CountsRight(s, p, b)
    ensures JobCountsRight(ApplyPass(c, s, l), p, Note(s, Pass(l), p, b), k)
  {
    hide EngineMayReport, RetryDue, HeapWellFormed, IsDueSelection;
    if l.Select? {
      SelectKeepsJobCount(c, s, l, p, b, k);
    } else {
      hide WellFormed;
      var t := ApplyPass(c, s, l);
      assert JobCountsRight(s, p, b, k);
      PassAdvances(c, s, l);
      if p in s.db.pending && p !in t.db.pending {
        PassRemovesRow(c, s, l, p);
      }
      hide MarkRemoved, MarkCached, RecordError, UpsertPending, RemovePending;
    }
  }

  lemma SelectKeepsJobCount(c: Settings, s: State, l: PassStep, p: Path, b: Book, k: int)
    requires l.Select? && PassEnabled(c, s, l) && WellFormed(s) && CountsRight(s, p, b)
    ensures JobCountsRight(ApplyPass(c, s, l), p, Note(s, Pass(l), p, b), k)
  {
    hide EngineMayReport, RetryDue, HeapWellFormed, IsDueSelection;
    SelectionIsWellFormed(s, l.now, c.batch, l.jobs);
    assert 0 <= k < |l.jobs| ==> l.jobs[k].row == s.db.pending[l.jobs[k].path];
  }

  lemma CountStep(c: Settings, s: State, l: Label, p: Path, b: Book)
    requires Enabled(c, s, l) && WellFormed(s) && CountsRight(s, p, b)
    ensures CountsRight(Apply(c, s, l), p, Note(s, l, p, b))
  {
    hide ApplyPass, ApplyControl, ApplyRecorder, PassEnabled, ControlEnabled, RecorderEnabled, WellFormed;
    var t := Apply(c, s, l);
    match l
    case Env(_) =>
      forall k ensures JobCountsRight(t, p, b, k) { assert JobCountsRight(s, p, b, k); }
    case Recorder(r) => RecorderKeepsCount(c, s, r, p, b);
    case Control(k) => ControlFrame(s, k);
    case Pass(pass) =>
      PassKeepsRowCount(c, s, pass, p, b);
      forall k ensures JobCountsRight(t, p, Note(s, l, p, b), k) { PassKeepsJobCount(c, s, pass, p, b, k); }
  }

  lemma {:induction false} CountsRightEveryRun(c: Settings, s: State, ls: seq<Label>, p: Path)
    requires Initial(s) && IsRun(c, s, ls)
    ensures CountsRight(Exec(c, s, ls), p, Observe(c, s, ls, p))
  {
    if ls != [] {
      var front := ls[..|ls| - 1];
      CountsRightEveryRun(c, s, front, p);
      WellFormedRun(c, s, front);
      CountStep(c, Exec(c, s, front), ls[|ls| - 1], p, Observe(c, s, front, p));
    }
  }

  /** The i-th failed attempt since a row's creation stores retries = i and makes
      it due min(300, 30 * i) seconds after the pass, however many accesses came
      in between, as long as the row was not removed during the pass. */
  lemma RetryAfterFailure(c: Settings, s: State, ls: seq<Label>)
    requires Initial(s) && IsRun(c, s, ls) && PassEnabled(c, Exec(c, s, ls), Reschedule)
    ensures var t := Exec(c, s, ls);
            var p := Target(t.worker);
            var b := Observe(c, s, ls, p);
            var row := ApplyPass(c, t, Reschedule).db.pending;
            !b.replaced ==>
              && b.failures >= 1 && p in row && row[p].retries == b.failures
              && row[p].due == ToSeconds(t.worker.now + Min(300, 30 * b.failures) * TICKS)
              && (t.worker.now >= 0 ==> row[p].due == ToSeconds(t.worker.now) + Min(300, 30 * b.failures))
  {
    hide *;
    var t := Exec(c, s, ls);
    AttemptIsCurrent(c, t);
    CountsRightEveryRun(c, s, ls, Target(t.worker));
    WellFormedRun(c, s, ls);
    RetryStep(c, t, Observe(c, s, ls, Target(t.worker)));
  }

  lemma AttemptIsCurrent(c: Settings, s: State)
    requires PassEnabled(c, s, Reschedule)
    ensures OnJob(s.worker)
  {
  }

  lemma RetryStep(c: Settings, s: State, b: Book)
    requires PassEnabled(c, s, Reschedule) && WellFormed(s) && CountsRight(s, Target(s.worker), b)
    ensures var p := Target(s.worker);
            var row := ApplyPass(c, s, Reschedule).db.pending;
            !b.replaced ==>
              && b.failures >= 1 && p in row && row[p].retries == b.failures
              && row[p].due == ToSeconds(s.worker.now + Min(300, 30 * b.failures) * TICKS)
              && (s.worker.now >= 0 ==> row[p].due == ToSeconds(s.worker.now) + Min(300, 30 * b.failures))
  {
    RescheduledRow(c, s);
    assert JobCountsRight(s, Target(s.worker), b, s.worker.next);
    hide ApplyPass, PassEnabled, WellFormed, ToSeconds;
    if !b.replaced {
      assert b.failures == CurrentJob(s.worker).row.retries + 1;
      if s.worker.now >= 0 {
        WholeSecondsAdd(s.worker.now, Min(300, 30 * b.failures));
      }
    }
  }

  lemma WholeSecondsAdd(now: int, k: int)
    requires now >= 0 && k >= 0
    ensures ToSeconds(now + k * TICKS) == ToSeconds(now) + k
  {
    ToSecondsOfWhole(k, now);
  }

  lemma RescheduledRow(c: Settings, s: State)
    requires PassEnabled(c, s, Reschedule) && WellFormed(s)
    ensures var p := Target(s.worker);
            var after := ApplyPass(c, s, Reschedule).db.pending;
            && p in after && after[p].due == RetryDue(s.worker.now, CurrentJob(s.worker).row.retries)
            && (p in s.db.pending ==> after[p].retries == s.db.pending[p].retries)
  {
    hide HeapWellFormed, RetryDue;
  }

  lemma SameSeconds(read: nat, i: nat)
    ensures RetrySeconds(read) == Min(300, 30 * i) <==> read + 1 == i || (read >= 9 && i >= 10)
  {
  }

  /** Exactly when the stored delay is the one its own count asks for: the row the
      retry leaves behind stores the number of failed attempts since its creation,
      and is due that many steps of backoff after the pass if and only if the count
      read when the pass queried its jobs is one less, or both have reached the
      cap. A row deleted and created again in between breaks this. */
  lemma RetryDelayIsRightIff(c: Settings, s: State, ls: seq<Label>)
    requires Initial(s) && IsRun(c, s, ls) && PassEnabled(c, Exec(c, s, ls), Reschedule) && Exec(c, s, ls).worker.now >= 0
    ensures var t, after := Exec(c, s, ls), Exec(c, s, ls + [Pass(Reschedule)]);
            var p, read := Target(t.worker), CurrentJob(t.worker).row.retries;
            var i := Observe(c, s, ls + [Pass(Reschedule)], p).failures;
            && p in after.db.pending && after.db.pending[p].retries == i
            && (after.db.pending[p].due == ToSeconds(t.worker.now) + Min(300, 30 * i)
                <==> read + 1 == i || (read >= 9 && i >= 10))
  {
    hide *;
    var t, after := Exec(c, s, ls), Exec(c, s, ls + [Pass(Reschedule)]);
    AttemptIsCurrent(c, t);
    var p, read := Target(t.worker), CurrentJob(t.worker).row.retries;
    RescheduleGrows(c, s, ls);
    WellFormedRun(c, s, ls);
    RescheduledRow(c, t);
    CountsRightEveryRun(c, s, ls + [Pass(Reschedule)], p);
    CountOfRow(after, p, Observe(c, s, ls + [Pass(Reschedule)], p));
    DelayOf(t.worker.now, read);
    SameSeconds(read, after.db.pending[p].retries);
  }

  lemma RescheduleGrows(c: Settings, s: State, ls: seq<Label>)
    requires IsRun(c, s, ls) && PassEnabled(c, Exec(c, s, ls), Reschedule)
    ensures IsRun(c, s, ls + [Pass(Reschedule)])
    ensures Exec(c, s, ls + [Pass(Reschedule)]) == ApplyPass(c, Exec(c, s, ls), Reschedule)
  {
    hide ApplyPass, PassEnabled;
    RunGrows(c, s, ls, Pass(Reschedule));
  }

  lemma CountOfRow(s: State, p: Path, b: Book)
    requires CountsRight(s, p, b) && p in s.db.pending
    ensures s.db.pending[p].retries == b.failures
  {
  }

  lemma DelayOf(now: int, read: nat)
    requires now >= 0
    ensures RetryDue(now, read) == ToSeconds(now) + RetrySeconds(read)
  {
    WholeSecondsAdd(now, RetrySeconds(read));
  }
}
