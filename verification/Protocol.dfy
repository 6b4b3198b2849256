/** The copy scheduler as a state machine: one event-recording thread, one
    worker thread, the cache index, the cache disk and the due-time heap. Each
    index call, heap operation, flag read and engine call is one atomic step, so
    a run is any interleaving the two threads can produce. */
module Protocol {
  import opened Prelude
  import opened UtcTime
  import opened IndexModel

  /** copy_delay in seconds and due_batch_size. */
  datatype Settings = Settings(copyDelay: int, batch: int)

  datatype Entry = Entry(due: int, sequence: nat, path: Path)

  /** HeapEntryLater: `left` is served after `right`. */
  predicate Later(left: Entry, right: Entry) {
    if left.due == right.due then left.sequence > right.sequence else left.due > right.due
  }

  datatype CopyAction = Copied | SkippedSameSize | SkippedHashMatch | SourceMissing | Failed | Cancelled

  datatype CopyResult = CopyResult(
    action: CopyAction, sourceSize: nat, cachedSize: nat, hash: string, completedAt: int, error: string)

  predicate Succeeded(action: CopyAction) {
    action == Copied || action == SkippedSameSize || action == SkippedHashMatch
  }

  /** Where record_event stands. */
  datatype RecorderState =
    | Idle
    | Accepted(event: AccessEvent)          // guards passed, index not yet called
    | Pushing(path: Path, due: int)         // row written, heap entry not yet pushed

  /** Where run_due_once stands with its current job. */
  datatype Stage =
    | MakingRoom                            // before or between evictions
    | Evicting(victim: Path)                // victim's file gone, index not yet told
    | Copying                               // inside the copy engine
    | Indexing(result: CopyResult, bytes: nat)  // engine succeeded, index not yet told
    | Dropping                              // marked cached, pending row still there
    | Erasing                               // source missing, cache file not yet removed
    | Unlisting                             // cache file gone, index not yet told
    | Failing(error: string, reason: string)
    | Rescheduling(reason: string)
    | Requeueing(due: int)                  // row rewritten, heap entry not yet pushed

  datatype Worker =
    | Stopped
    | Starting                              // stop flag cleared
    | Loading(rows: seq<Job<int>>)          // rows read, not yet pushed
    | Top | Awake | Ready                   // before the stop, pause and heap checks
    | Popped(held: Entry, since: int)
    | Checking(held: Entry, since: int)
    | Due(entry: Option<Entry>, since: int) // about to run a pass; None for a direct call
    | Passing(entry: Option<Entry>, now: int, jobs: seq<Job<int>>, next: nat, stage: Stage)

  datatype State = State(
    db: Db<int>, disk: map<Path, nat>, heap: set<Entry>, sequence: nat,
    clock: int, paused: bool, stop: bool, recorder: RecorderState, worker: Worker)

  /** The clock and the two flags set from outside. StartAgain is start() meeting
      a worker thread that was started and not joined: it clears the stop flag. */
  datatype EnvStep = Tick(now: int) | SetPaused(on: bool) | RequestStop | StartAgain

  /** The event-recording thread. */
  datatype RecorderStep = Accept(event: AccessEvent) | Record | Push

  /** start() and worker_loop outside run_due_once. */
  datatype ControlStep =
    | ClearStop | ReadRows(rows: seq<Job<int>>) | PushRows | DirectPass
    | SeeStop | PassStop | SeePause | PassPause | Wait
    | Pop(entry: Entry) | PutBack | StillActive | Skip | Match

  /** run_due_once and make_room_for. */
  datatype PassStep =
    | Select(now: int, jobs: seq<Job<int>>)
    | RemoveVictim(victim: Path) | UnlistVictim
    | StartCopy | FinishCopy(result: CopyResult, bytes: nat) | Throw(error: string)
    | Index | Drop | EraseCopy(error: string) | Unlist
    | NoteError | Reschedule | Requeue | EndPass

  datatype Label =
    | Env(env: EnvStep) | Recorder(recorder: RecorderStep)
    | Control(control: ControlStep) | Pass(pass: PassStep)

  // ---------- helpers ----------

  predicate OnJob(w: Worker) {
    w.Passing? && w.next < |w.jobs|
  }

  function CurrentJob(w: Worker): Job<int>
    requires OnJob(w)
  {
    w.jobs[w.next]
  }

  function Target(w: Worker): Path
    requires OnJob(w)
  {
    CurrentJob(w).path
  }

  /** The loop moves on to the next job of the batch. */
  function NextJob(w: Worker): Worker
    requires w.Passing?
  {
    w.(next := w.next + 1, stage := MakingRoom)
  }

  /** run_due_once returns to worker_loop, or to its direct caller. */
  function Return(w: Worker): Worker
    requires w.Passing?
  {
    if w.entry.Some? then Top else Stopped
  }

  /** Seconds until the next attempt after `retries` earlier failures. */
  function RetrySeconds(retries: int): int {
    Min(300, 30 * (retries + 1))
  }

  function RetryDue(now: int, retries: int): int {
    ToSeconds(now + RetrySeconds(retries) * TICKS)
  }

  function EventDue(c: Settings, e: AccessEvent): int {
    ToSeconds(e.observedAt + c.copyDelay * TICKS)
  }

  function PushEntry(s: State, p: Path, due: int): State {
    s.(heap := s.heap + {Entry(due, s.sequence + 1, p)}, sequence := s.sequence + 1)
  }

  function PushAll(s: State, rows: seq<Job<int>>): State
    decreases |rows|
  {
    if rows == [] then s else PushAll(PushEntry(s, rows[0].path, rows[0].row.due), rows[1..])
  }

  /** What the engine may report for path p, given the cache disk. A cancellation
      is the step in which the engine polls the stop flag: what it does after that
      only removes its temporary file. */
  predicate EngineMayReport(s: State, p: Path, r: CopyResult, bytes: nat) {
    match r.action
    case Copied => r.cachedSize == r.sourceSize
    case SkippedSameSize => p in s.disk && s.disk[p] == r.cachedSize == r.sourceSize == bytes
    case SkippedHashMatch => p in s.disk && s.disk[p] == r.cachedSize == r.sourceSize == bytes
    case SourceMissing => true
    case Failed => true
    case Cancelled => s.stop
  }

  /** The heap entry (p, due) is the live one for p's row. */
  predicate RowDueAt(s: State, p: Path, due: int) {
    p in s.db.pending && s.db.pending[p].due == due
  }

  // ---------- steps ----------

  ghost predicate EnvEnabled(s: State, l: EnvStep) {
    l.Tick? ==> l.now >= s.clock
  }

  ghost predicate RecorderEnabled(s: State, l: RecorderStep) {
    match l
    case Accept(e) => s.recorder.Idle? && e.path != [] && !s.paused
    case Record => s.recorder.Accepted?
    case Push => s.recorder.Pushing?
  }

  ghost predicate ControlEnabled(s: State, l: ControlStep) {
    var w := s.worker;
    match l
    case ClearStop => w.Stopped?
    case ReadRows(rows) => w.Starting? && Faithful(s.db.pending, rows) && PathsOf(rows) == s.db.pending.Keys
    case PushRows => w.Loading?
    case DirectPass => w.Stopped?
    case SeeStop => w.Top? && s.stop
    case PassStop => w.Top? && !s.stop
    case SeePause => w.Awake? && s.paused
    case PassPause => w.Awake? && !s.paused
    case Wait => w.Ready?
    case Pop(e) => w.Ready? && e in s.heap && (forall o :: o in s.heap ==> !Later(e, o)) && e.due * TICKS <= s.clock
    case PutBack => w.Popped? && s.paused
    case StillActive => w.Popped? && !s.paused
    case Skip => w.Checking? && !RowDueAt(s, w.held.path, w.held.due)
    case Match => w.Checking? && RowDueAt(s, w.held.path, w.held.due)
  }

  ghost predicate PassEnabled(c: Settings, s: State, l: PassStep) {
    var w := s.worker;
    match l
    case Select(now, jobs) =>
      w.Due? && (w.entry.Some? ==> w.since <= now <= s.clock)
      && IsDueSelection(s.db.pending, ToSeconds(now), c.batch, jobs)
    case RemoveVictim(v) => OnJob(w) && w.stage.MakingRoom? && v != Target(w)
    case UnlistVictim => OnJob(w) && w.stage.Evicting?
    case StartCopy => OnJob(w) && w.stage.MakingRoom?
    case FinishCopy(r, bytes) => OnJob(w) && w.stage.Copying? && EngineMayReport(s, Target(w), r, bytes)
    case Throw(_) => OnJob(w) && w.stage.Copying?
    case Index => OnJob(w) && w.stage.Indexing?
    case Drop => OnJob(w) && w.stage.Dropping?
    case EraseCopy(_) => OnJob(w) && w.stage.Erasing?
    case Unlist => OnJob(w) && w.stage.Unlisting?
    case NoteError => OnJob(w) && w.stage.Failing?
    case Reschedule => OnJob(w) && w.stage.Rescheduling?
    case Requeue => OnJob(w) && w.stage.Requeueing?
    case EndPass => w.Passing? && w.next == |w.jobs|
  }

  ghost predicate Enabled(c: Settings, s: State, l: Label) {
    match l
    case Env(e) => EnvEnabled(s, e)
    case Recorder(r) => RecorderEnabled(s, r)
    case Control(k) => ControlEnabled(s, k)
    case Pass(p) => PassEnabled(c, s, p)
  }

  function ApplyEnv(s: State, l: EnvStep): State {
    match l
    case Tick(now) => s.(clock := now)
    case SetPaused(on) => s.(paused := on)
    case RequestStop => s.(stop := true)
    case StartAgain => s.(stop := false)
  }

  /** record_event: its guards, one index call, one heap push. */
  ghost function ApplyRecorder(c: Settings, s: State, l: RecorderStep): State
    requires RecorderEnabled(s, l)
  {
    match l
    case Accept(e) => s.(recorder := Accepted(e))
    case Record =>
      var e := s.recorder.event;
      if e.kind == Delete then s.(db := MarkRemoved(s.db, e.path), recorder := Idle)
      else s.(db := RecordAccess(s.db, e, ToSeconds(e.observedAt), EventDue(c, e)),
              recorder := if SchedulesCopy(e.kind) then Pushing(e.path, EventDue(c, e)) else Idle)
    case Push => PushEntry(s, s.recorder.path, s.recorder.due).(recorder := Idle)
  }

  ghost function ApplyControl(s: State, l: ControlStep): State
    requires ControlEnabled(s, l)
  {
    var w := s.worker;
    match l
    case ClearStop => s.(stop := false, worker := Starting)
    case ReadRows(rows) => s.(worker := Loading(rows))
    case PushRows => PushAll(s, w.rows).(worker := Top)
    case DirectPass => s.(worker := Worker.Due(None, 0))
    case SeeStop => s.(worker := Stopped)
    case PassStop => s.(worker := Awake)
    case SeePause => s.(worker := Top)
    case PassPause => s.(worker := Ready)
    case Wait => s.(worker := Top)
    case Pop(e) => s.(heap := s.heap - {e}, worker := Popped(e, s.clock))
    case PutBack => PushEntry(s, w.held.path, w.held.due).(worker := Top)
    case StillActive => s.(worker := Checking(w.held, w.since))
    case Skip => s.(worker := Top)
    case Match => s.(worker := Worker.Due(Some(w.held), w.since))
  }

  /** What run_due_once does with the engine's report. */
  function ApplyFinish(s: State, r: CopyResult, bytes: nat): State
    requires OnJob(s.worker)
  {
    var w := s.worker;
    match r.action
    case Copied => s.(disk := s.disk[Target(w) := bytes], worker := w.(stage := Indexing(r, bytes)))
    case SkippedSameSize => s.(worker := w.(stage := Indexing(r, bytes)))
    case SkippedHashMatch => s.(worker := w.(stage := Indexing(r, bytes)))
    case SourceMissing => s.(worker := w.(stage := Erasing))
    case Failed => s.(worker := w.(stage := Failing(r.error, "retry")))
    case Cancelled => s.(worker := Return(w))
  }

  /** An exception leaves the pass; worker_loop notes it against the popped path. */
  function ApplyThrow(s: State, error: string): State
    requires s.worker.Passing?
  {
    var w := s.worker;
    s.(db := if w.entry.Some? then RecordError(s.db, w.entry.value.path, error) else s.db, worker := Return(w))
  }

  function ApplyReschedule(s: State): State
    requires OnJob(s.worker) && s.worker.stage.Rescheduling?
  {
    var w := s.worker;
    var due := RetryDue(w.now, CurrentJob(w).row.retries);
    match UpsertPending(s.db, Target(w), due, w.stage.reason)
    case Ok(db) => s.(db := db, worker := w.(stage := Requeueing(due)))
    case Err(error) => ApplyThrow(s, error)
  }

  ghost function ApplyPass(c: Settings, s: State, l: PassStep): State
    requires PassEnabled(c, s, l)
  {
    var w := s.worker;
    match l
    case Select(now, jobs) => s.(worker := Passing(w.entry, now, jobs, 0, MakingRoom))
    case RemoveVictim(v) => s.(disk := s.disk - {v}, worker := w.(stage := Evicting(v)))
    case UnlistVictim => s.(db := MarkRemoved(s.db, w.stage.victim), worker := w.(stage := MakingRoom))
    case StartCopy => s.(worker := w.(stage := Copying))
    case FinishCopy(r, bytes) => ApplyFinish(s, r, bytes)
    case Throw(error) => ApplyThrow(s, error)
    case Index =>
      var r := w.stage.result;
      s.(db := MarkCached(s.db, Target(w), r.sourceSize, r.cachedSize, r.hash, ToSeconds(r.completedAt)),
         worker := w.(stage := Dropping))
    case Drop => s.(db := RemovePending(s.db, Target(w)), worker := NextJob(w))
    case EraseCopy(error) =>
      if error == [] then s.(disk := s.disk - {Target(w)}, worker := w.(stage := Unlisting))
      else s.(worker := w.(stage := Failing(error, "remove stale cache")))
    case Unlist => s.(db := MarkRemoved(s.db, Target(w)), worker := NextJob(w))
    case NoteError =>
      s.(db := RecordError(s.db, Target(w), w.stage.error), worker := w.(stage := Rescheduling(w.stage.reason)))
    case Reschedule => ApplyReschedule(s)
    case Requeue => PushEntry(s, Target(w), w.stage.due).(worker := NextJob(w))
    case EndPass => s.(worker := Return(w))
  }

  ghost function Apply(c: Settings, s: State, l: Label): State {
    if !Enabled(c, s, l) then s
    else
      match l
      case Env(e) => ApplyEnv(s, e)
      case Recorder(r) => ApplyRecorder(c, s, r)
      case Control(k) => ApplyControl(s, k)
      case Pass(p) => ApplyPass(c, s, p)
  }

  // ---------- runs ----------

  ghost function Exec(c: Settings, s: State, ls: seq<Label>): State {
    if ls == [] then s else Apply(c, Exec(c, s, ls[..|ls| - 1]), ls[|ls| - 1])
  }

  ghost predicate IsRun(c: Settings, s: State, ls: seq<Label>) {
    ls == [] || (IsRun(c, s, ls[..|ls| - 1]) && Enabled(c, Exec(c, s, ls[..|ls| - 1]), ls[|ls| - 1]))
  }

  lemma RunGrows(c: Settings, s: State, ls: seq<Label>, l: Label)
    requires IsRun(c, s, ls) && Enabled(c, Exec(c, s, ls), l)
    ensures IsRun(c, s, ls + [l]) && Exec(c, s, ls + [l]) == Apply(c, Exec(c, s, ls), l)
  {
    assert (ls + [l])[..|ls + [l]| - 1] == ls;
  }

  /** A fresh process over whatever tables an earlier one left behind, after the
      startup cleanup has deleted any row with an empty path. */
  ghost predicate Initial(s: State) {
    s.heap == {} && s.sequence == 0 && !s.paused && !s.stop && s.recorder.Idle? && s.worker.Stopped?
    && Consistent(s.db) && [] !in s.db.pending && s.clock >= 0
  }

  // ---------- structural invariant ----------

  ghost predicate BatchWellFormed(s: State, w: Worker)
    requires w.Passing?
  {
    && w.next <= |w.jobs|
    && (w.next == |w.jobs| ==> w.stage.MakingRoom?)
    && (forall i, j :: 0 <= i < j < |w.jobs| ==> w.jobs[i].path != w.jobs[j].path)
    && (forall i :: 0 <= i < |w.jobs| ==> 
          w.jobs[i].path in s.db.files && w.jobs[i].path != [] && w.jobs[i].row.due <= ToSeconds(w.now))
  }

  /** Heap entries are told apart by their sequence numbers. */
  ghost predicate HeapWellFormed(s: State) {
    && (forall e :: e in s.heap ==> e.sequence <= s.sequence)
    && (forall e, f :: e in s.heap && f in s.heap && e.sequence == f.sequence ==> e == f)
  }

  /** No path in play is empty. */
  ghost predicate Named(s: State) {
    [] !in s.db.pending && (s.recorder.Accepted? ==> s.recorder.event.path != [])
  }

  ghost predicate WellFormed(s: State) {
    && Consistent(s.db)
    && Named(s)
    && HeapWellFormed(s)
    && (s.worker.Passing? ==> BatchWellFormed(s, s.worker))
  }

  /** What is popped is due no later than the rest of the heap, and among entries due
      in the same second it was pushed first. */
  lemma PoppedIsFirst(s: State, e: Entry)
    requires ControlEnabled(s, Pop(e)) && HeapWellFormed(s)
    ensures forall o :: o in s.heap && o != e ==> e.due < o.due || (e.due == o.due && e.sequence < o.sequence)
    ensures e in s.heap && e.due * TICKS <= s.clock
  {
  }

  lemma {:induction false} PushAllStructure(s: State, rows: seq<Job<int>>)
    requires HeapWellFormed(s)
    ensures var t := PushAll(s, rows);
            && t == s.(heap := t.heap, sequence := t.sequence)
            && s.heap <= t.heap
            && HeapWellFormed(t)
            && (forall i :: 0 <= i < |rows| ==>
                  exists e :: e in t.heap && e.path == rows[i].path && e.due == rows[i].row.due)
    decreases |rows|
  {
    if rows != [] {
      var first := PushEntry(s, rows[0].path, rows[0].row.due);
      PushAllStructure(first, rows[1..]);
      var t := PushAll(s, rows);
      var pushed := Entry(rows[0].row.due, s.sequence + 1, rows[0].path);
      assert pushed in first.heap && pushed in t.heap;
      forall i | 0 <= i < |rows|
        ensures exists e :: e in t.heap && e.path == rows[i].path && e.due == rows[i].row.due
      {
        if i > 0 {
          assert rows[i] == rows[1..][i - 1];
        }
      }
    }
  }

  lemma SelectionIsWellFormed(s: State, now: int, limit: int, jobs: seq<Job<int>>)
    requires Consistent(s.db) && Named(s) && IsDueSelection(s.db.pending, ToSeconds(now), limit, jobs)
    ensures Faithful(s.db.pending, jobs)
    ensures forall i :: 0 <= i < |jobs| ==>
              jobs[i].path in s.db.files && jobs[i].path != [] && jobs[i].row.due <= ToSeconds(now)
  {
    forall i | 0 <= i < |jobs|
      ensures jobs[i].path in s.db.files && jobs[i].path != [] && jobs[i].row.due <= ToSeconds(now)
    {
      assert jobs[i] in jobs && jobs[i].path in PathsOf(jobs);
    }
  }

  lemma {:induction false} PushAllKeepsRest(s: State, rows: seq<Job<int>>)
    ensures PushAll(s, rows) == s.(heap := PushAll(s, rows).heap, sequence := PushAll(s, rows).sequence)
    decreases |rows|
  {
    if rows != [] {
      PushAllKeepsRest(PushEntry(s, rows[0].path, rows[0].row.due), rows[1..]);
    }
  }

  /** Starting, stopping, popping and putting back never touch the tables. */
  lemma ControlFrame(s: State, l: ControlStep)
    requires ControlEnabled(s, l)
    ensures var t := ApplyControl(s, l);
            t.db == s.db && t.disk == s.disk && t.recorder == s.recorder && t.clock == s.clock
            && t.paused == s.paused && !t.worker.Passing?
    ensures ApplyControl(s, l).stop == if l.ClearStop? then false else s.stop
  {
    if l.PushRows? {
      PushAllKeepsRest(s, s.worker.rows);
    }
  }

  /** A pass keeps every file row and the foreign key. */
  lemma PassKeepsRows(c: Settings, s: State, l: PassStep)
    requires PassEnabled(c, s, l) && Consistent(s.db)
    ensures Consistent(ApplyPass(c, s, l).db) && s.db.files.Keys <= ApplyPass(c, s, l).db.files.Keys
  {
    hide IsDueSelection, RetryDue, EngineMayReport, Consistent;
    PassStatements(s, s.worker, l);
  }

  /** The statements of a pass keep the foreign key and every file row. */
  lemma PassStatements(s: State, w: Worker, l: PassStep)
    requires Consistent(s.db)
    ensures w.Passing? && w.stage.Evicting? ==> Consistent(MarkRemoved(s.db, w.stage.victim))
    ensures OnJob(w) ==> Consistent(RemovePending(s.db, Target(w))) && Consistent(MarkRemoved(s.db, Target(w)))
    ensures OnJob(w) && w.stage.Indexing? ==>
              var r := w.stage.result;
              Consistent(MarkCached(s.db, Target(w), r.sourceSize, r.cachedSize, r.hash, ToSeconds(r.completedAt)))
    ensures forall p, error :: Consistent(RecordError(s.db, p, error))
    ensures OnJob(w) && w.stage.Rescheduling? ==>
              var r := UpsertPending(s.db, Target(w), RetryDue(w.now, CurrentJob(w).row.retries), w.stage.reason);
              r.Ok? ==> Consistent(r.value)
  {
    hide Consistent, RetryDue, ToSeconds, RecordError, MarkRemoved, RemovePending, MarkCached, UpsertPending;
    if w.Passing? && w.stage.Evicting? {
      StatementsKeepForeignKey(s.db, w.stage.victim, 0, 0, 0, "");
    }
    if OnJob(w) {
      StatementsKeepForeignKey(s.db, Target(w), 0, 0, 0, "");
      if w.stage.Indexing? {
        var r := w.stage.result;
        StatementsKeepForeignKey(s.db, Target(w), ToSeconds(r.completedAt), r.sourceSize, r.cachedSize, r.hash);
      } else if w.stage.Rescheduling? {
        UpsertKeepsForeignKey(s.db, Target(w), RetryDue(w.now, CurrentJob(w).row.retries), w.stage.reason);
      }
    }
    forall p, error
      ensures Consistent(RecordError(s.db, p, error))
    {
      StatementsKeepForeignKey(s.db, p, 0, 0, 0, error);
    }
  }

  /** A pass takes a row out of pending_jobs in exactly three places: its own
      job's row after a copy or when the source is gone, and a victim's row. */
  lemma PassRemovesRow(c: Settings, s: State, l: PassStep, p: Path)
    requires PassEnabled(c, s, l) && p in s.db.pending
    ensures p !in ApplyPass(c, s, l).db.pending
       <==> (l.UnlistVictim? && p == s.worker.stage.victim) || ((l.Drop? || l.Unlist?) && p == Target(s.worker))
  {
    hide IsDueSelection, RetryDue, EngineMayReport;
  }

  lemma PassFrame(c: Settings, s: State, l: PassStep)
    requires PassEnabled(c, s, l)
    ensures var t := ApplyPass(c, s, l);
            t.recorder == s.recorder && t.clock == s.clock && t.paused == s.paused && t.stop == s.stop
  {
    hide IsDueSelection, RetryDue, EngineMayReport, MarkRemoved, MarkCached, RecordError, UpsertPending, RemovePending;
  }

  /** A pass moves through its batch one job at a time. */
  lemma PassAdvances(c: Settings, s: State, l: PassStep)
    requires PassEnabled(c, s, l) && !l.Select?
    ensures var t := ApplyPass(c, s, l).worker;
            t.Passing? ==>
              && OnJob(s.worker)
              && t == s.worker.(next := t.next, stage := t.stage)
              && (t.next == s.worker.next || (t.next == s.worker.next + 1 && t.stage.MakingRoom?))
  {
    hide IsDueSelection, RetryDue, EngineMayReport, MarkRemoved, MarkCached, RecordError, UpsertPending, RemovePending;
  }

  lemma HeapStep(c: Settings, s: State, l: Label)
    requires HeapWellFormed(s) && Enabled(c, s, l)
    ensures HeapWellFormed(Apply(c, s, l))
  {
    match l
    case Env(_) =>
    case Recorder(_) =>
    case Control(k) => HeapControlStep(s, k);
    case Pass(p) => HeapPassStep(c, s, p);
  }

  lemma HeapControlStep(s: State, l: ControlStep)
    requires HeapWellFormed(s) && ControlEnabled(s, l)
    ensures HeapWellFormed(ApplyControl(s, l))
  {
    hide Faithful, PathsOf, Later;
    if l.PushRows? {
      PushAllStructure(s, s.worker.rows);
    }
  }

  lemma HeapPassStep(c: Settings, s: State, l: PassStep)
    requires HeapWellFormed(s) && PassEnabled(c, s, l)
    ensures HeapWellFormed(ApplyPass(c, s, l))
  {
    hide IsDueSelection, RetryDue, MarkRemoved, MarkCached, RecordError, UpsertPending, RemovePending;
  }

  lemma BatchStep(c: Settings, s: State, l: PassStep)
    requires WellFormed(s) && PassEnabled(c, s, l)
    ensures ApplyPass(c, s, l).worker.Passing? ==> BatchWellFormed(ApplyPass(c, s, l), ApplyPass(c, s, l).worker)
  {
    PassKeepsRows(c, s, l);
    if l.Select? {
      SelectionIsWellFormed(s, l.now, c.batch, l.jobs);
    } else {
      hide ApplyPass, PassEnabled;
      PassAdvances(c, s, l);
    }
  }

  lemma NamedPassStep(c: Settings, s: State, l: PassStep)
    requires WellFormed(s) && PassEnabled(c, s, l)
    ensures Named(ApplyPass(c, s, l))
  {
    hide IsDueSelection, RetryDue, EngineMayReport, HeapWellFormed;
    PassFrame(c, s, l);
  }

  lemma WellFormedStep(c: Settings, s: State, l: Label)
    requires WellFormed(s) && Enabled(c, s, l)
    ensures WellFormed(Apply(c, s, l))
  {
    HeapStep(c, s, l);
    WellFormedRest(c, s, l);
  }

  lemma RecorderStepRest(c: Settings, s: State, l: RecorderStep)
    requires WellFormed(s) && RecorderEnabled(s, l)
    ensures var t := ApplyRecorder(c, s, l);
            Consistent(t.db) && Named(t) && (t.worker.Passing? ==> BatchWellFormed(t, t.worker))
  {
    hide HeapWellFormed;
    if l.Record? {
      AccessKeepsForeignKey(s.db, s.recorder.event, ToSeconds(s.recorder.event.observedAt), EventDue(c, s.recorder.event));
    }
  }

  lemma WellFormedRest(c: Settings, s: State, l: Label)
    requires WellFormed(s) && Enabled(c, s, l)
    ensures var t := Apply(c, s, l);
            Consistent(t.db) && Named(t) && (t.worker.Passing? ==> BatchWellFormed(t, t.worker))
  {
    hide HeapWellFormed, ApplyPass, ApplyControl, ApplyRecorder, ControlEnabled, PassEnabled, RecorderEnabled;
    match l
    case Env(_) =>
    case Recorder(r) =>
      RecorderStepRest(c, s, r);
    case Control(k) =>
      ControlFrame(s, k);
    case Pass(p) =>
      PassKeepsRows(c, s, p);
      NamedPassStep(c, s, p);
      BatchStep(c, s, p);
  }

  lemma {:induction false} WellFormedRun(c: Settings, s: State, ls: seq<Label>)
    requires Initial(s) && IsRun(c, s, ls)
    ensures WellFormed(Exec(c, s, ls))
  {
    if ls != [] {
      WellFormedRun(c, s, ls[..|ls| - 1]);
      WellFormedStep(c, Exec(c, s, ls[..|ls| - 1]), ls[|ls| - 1]);
    }
  }

  /** In every reachable state the retry upsert finds the file row it needs, so
      the foreign key never turns a failed copy into an exception. */
  lemma RetryNeverBreaksForeignKey(c: Settings, s: State, ls: seq<Label>)
    requires Initial(s) && IsRun(c, s, ls)
    ensures var t := Exec(c, s, ls);
            OnJob(t.worker) ==>
              forall due, reason :: UpsertPending(t.db, Target(t.worker), due, reason).Ok?
  {
    WellFormedRun(c, s, ls);
  }
}
