/** Runs from a fresh process in which the code falls short of what one would
    like: they reach the conditions that the exact theorems exclude. Each starts
    over rows an earlier process left pending. */
module FailingRuns {
  import opened Prelude
  import opened UtcTime
  import opened IndexModel
  import opened Protocol
  import opened HeapCoverage
  import opened CopyScheduler
  import opened DiskAgreement
  import opened CopyEngine
  import opened EngineInProtocol
  import opened Eviction
  import EventLedger
  import Backoff

  /** A run, the state it ends in and what the observer of events has written. */
  ghost predicate Reaches(c: Settings, s0: State, ls: seq<Label>, t: State, h: EventLedger.Ledger) {
    Initial(s0) && IsRun(c, s0, ls) && Exec(c, s0, ls) == t && EventLedger.Observe(c, s0, ls) == h
  }

  lemma OneMore(c: Settings, s0: State, ls: seq<Label>, t: State, h: EventLedger.Ledger, l: Label)
    requires Reaches(c, s0, ls, t, h) && Enabled(c, t, l)
    ensures Reaches(c, s0, ls + [l], Apply(c, t, l), EventLedger.Note(t, l, h))
  {
    hide Enabled, Apply;
    RunGrows(c, s0, ls, l);
    assert (ls + [l])[..|ls|] == ls;
  }

  lemma ControlIsNotNoted(t: State, k: ControlStep, h: EventLedger.Ledger)
    ensures EventLedger.Note(t, Control(k), h) == h.(time := h.time + 1)
  {
  }

  lemma TakeControl(c: Settings, s0: State, ls: seq<Label>, t: State, h: EventLedger.Ledger, k: ControlStep)
    requires Reaches(c, s0, ls, t, h) && Enabled(c, t, Control(k))
    ensures Reaches(c, s0, ls + [Control(k)], Apply(c, t, Control(k)), h.(time := h.time + 1))
  {
    hide *;
    OneMore(c, s0, ls, t, h, Control(k));
    ControlIsNotNoted(t, k, h);
  }

  lemma TakePass(c: Settings, s0: State, ls: seq<Label>, t: State, h: EventLedger.Ledger, p: PassStep)
    requires Reaches(c, s0, ls, t, h) && Enabled(c, t, Pass(p))
    requires p.Select? || p.EndPass? || (OnJob(t.worker) && !p.UnlistVictim? && !p.Unlist?)
    ensures var h' := h.(time := h.time + 1,
                         started := if p.StartCopy? then h.time else h.started,
                         copied := if p.Index? then h.copied[Target(t.worker) := h.started] else h.copied);
            Reaches(c, s0, ls + [Pass(p)], Apply(c, t, Pass(p)), h')
  {
    OneMore(c, s0, ls, t, h, Pass(p));
    hide Reaches, Apply, PassEnabled;
  }

  lemma StartsBlank(c: Settings, s0: State)
    requires Initial(s0)
    ensures Reaches(c, s0, [], s0, EventLedger.BLANK)
    ensures s0.worker.Stopped? && s0.recorder.Idle? && !s0.stop && !s0.paused && s0.heap == {} && s0.sequence == 0 && s0.clock >= 0
  {
  }

  /** From the start of the process to the query of the first pass. */
  lemma ToSelection(c: Settings, s0: State, rows: seq<Job<int>>, loaded: State, e: Entry, jobs: seq<Job<int>>)
    returns (ls: seq<Label>, t: State, h: EventLedger.Ledger)
    requires Initial(s0) && Faithful(s0.db.pending, rows) && PathsOf(rows) == s0.db.pending.Keys
    requires loaded == PushAll(s0.(stop := false, worker := Loading(rows)), rows)
    requires e in loaded.heap && (forall o :: o in loaded.heap ==> !Later(e, o)) && e.due * TICKS <= s0.clock
    requires e.path in s0.db.pending && s0.db.pending[e.path].due == e.due
    requires IsDueSelection(s0.db.pending, ToSeconds(s0.clock), c.batch, jobs)
    ensures Reaches(c, s0, ls, t, h) && h == EventLedger.BLANK.(time := h.time)
    ensures forall l :: l in ls ==> !l.Recorder?
    ensures t == loaded.(heap := loaded.heap - {e}, worker := Passing(Some(e), s0.clock, jobs, 0, MakingRoom))
  {
    hide *;
    StartsBlank(c, s0);
    PushAllKeepsRest(s0.(stop := false, worker := Loading(rows)), rows);
    LoadSteps(c, s0, rows);
    ls, t, h := [], s0, EventLedger.BLANK;
    TakeControl(c, s0, ls, t, h, ClearStop);
    ls, t, h := ls + [Control(ClearStop)], s0.(stop := false, worker := Starting), h.(time := h.time + 1);
    TakeControl(c, s0, ls, t, h, ReadRows(rows));
    ls, t, h := ls + [Control(ReadRows(rows))], s0.(stop := false, worker := Loading(rows)), h.(time := h.time + 1);
    TakeControl(c, s0, ls, t, h, PushRows);
    ls, t, h := ls + [Control(PushRows)], loaded.(worker := Top), h.(time := h.time + 1);
    LoopSteps(c, t, t.clock);
    TakeControl(c, s0, ls, t, h, PassStop);
    ls, t, h := ls + [Control(PassStop)], loaded.(worker := Awake), h.(time := h.time + 1);
    TakeControl(c, s0, ls, t, h, PassPause);
    ls, t, h := ls + [Control(PassPause)], loaded.(worker := Ready), h.(time := h.time + 1);
    PopSteps(c, t, e);
    TakeControl(c, s0, ls, t, h, Pop(e));
    ls, t, h := ls + [Control(Pop(e))], loaded.(heap := loaded.heap - {e}, worker := Popped(e, s0.clock)), h.(time := h.time + 1);
    TakeControl(c, s0, ls, t, h, StillActive);
    ls, t, h := ls + [Control(StillActive)], loaded.(heap := loaded.heap - {e}, worker := Checking(e, s0.clock)), h.(time := h.time + 1);
    CheckSteps(c, t, e);
    TakeControl(c, s0, ls, t, h, Match);
    ls, t, h := ls + [Control(Match)], loaded.(heap := loaded.heap - {e}, worker := Worker.Due(Some(e), s0.clock)), h.(time := h.time + 1);
    SelectStep(c, t, s0.clock, jobs);
    TakePass(c, s0, ls, t, h, Select(s0.clock, jobs));
    ls, t, h := ls + [Pass(Select(s0.clock, jobs))],
                loaded.(heap := loaded.heap - {e}, worker := Passing(Some(e), s0.clock, jobs, 0, MakingRoom)),
                h.(time := h.time + 1);
  }

  lemma TakeRecorder(c: Settings, s0: State, ls: seq<Label>, t: State, h: EventLedger.Ledger, r: RecorderStep)
    requires Reaches(c, s0, ls, t, h) && Enabled(c, t, Recorder(r))
    ensures var h' := if r.Record? then EventLedger.NoteRecorder(t, r, h) else h;
            Reaches(c, s0, ls + [Recorder(r)], Apply(c, t, Recorder(r)), h'.(time := h.time + 1))
  {
    OneMore(c, s0, ls, t, h, Recorder(r));
    hide Reaches, Apply, Enabled;
  }

  /** Scheduling a copy of p: accepted, recorded and pushed. */
  lemma Access(c: Settings, s0: State, ls: seq<Label>, t: State, h: EventLedger.Ledger, e: AccessEvent)
    returns (ls': seq<Label>, t': State, h': EventLedger.Ledger)
    requires Reaches(c, s0, ls, t, h) && t.recorder.Idle? && !t.paused && e.path != [] && SchedulesCopy(e.kind)
    ensures Reaches(c, s0, ls', t', h') && ls' == ls + [Recorder(Accept(e)), Recorder(Record), Recorder(Push)]
    ensures t' == t.(db := RecordAccess(t.db, e, ToSeconds(e.observedAt), EventDue(c, e)), heap := t'.heap, sequence := t'.sequence)
    ensures h' == h.(time := h.time + 3, events := h.events + {EventLedger.Recorded(e.path, h.time + 1)}, late := h'.late)
  {
    hide *;
    EventDueIs(c, e);
    RecorderSteps(c, t, e);
    TakeRecorder(c, s0, ls, t, h, Accept(e));
    ls', t', h' := ls + [Recorder(Accept(e))], t.(recorder := Accepted(e)), h.(time := h.time + 1);
    TakeRecorder(c, s0, ls', t', h', Record);
    AccessIsNoted(t', e, h');
    var noted := EventLedger.NoteRecorder(t', Record, h').(time := h'.time + 1);
    ls', t', h' := ls' + [Recorder(Record)],
                   t.(db := RecordAccess(t.db, e, ToSeconds(e.observedAt), EventDue(c, e)), recorder := Pushing(e.path, EventDue(c, e))),
                   noted;
    PushStep(c, t', e.path, EventDue(c, e));
    TakeRecorder(c, s0, ls', t', h', Push);
    ls', t', h' := ls' + [Recorder(Push)], Apply(c, t', Recorder(Push)), h'.(time := h'.time + 1);
  }

  lemma AccessIsNoted(t: State, e: AccessEvent, h: EventLedger.Ledger)
    requires t.recorder == Accepted(e) && SchedulesCopy(e.kind)
    ensures var noted := EventLedger.NoteRecorder(t, Record, h);
            noted == h.(events := h.events + {EventLedger.Recorded(e.path, h.time)}, late := noted.late)
  {
  }

  /** The engine copies the current job while the rest stands still. */
  lemma CopyBegins(c: Settings, s0: State, ls: seq<Label>, t: State, h: EventLedger.Ledger)
    returns (ls': seq<Label>, t': State, h': EventLedger.Ledger)
    requires Reaches(c, s0, ls, t, h) && OnJob(t.worker) && t.worker.stage.MakingRoom?
    ensures Reaches(c, s0, ls', t', h') && t' == t.(worker := t.worker.(stage := Copying))
    ensures h' == h.(time := h.time + 1, started := h.time)
  {
    hide *;
    IsPassing(t.worker);
    StartCopyStep(c, t);
    TakePass(c, s0, ls, t, h, StartCopy);
    ls', t', h' := ls + [Pass(StartCopy)], t.(worker := t.worker.(stage := Copying)), h.(time := h.time + 1, started := h.time);
  }

  const DONE := CopyResult(Copied, 0, 0, "", 0, "")

  lemma IsPassing(w: Worker)
    requires OnJob(w)
    ensures w.Passing?
  {
  }

  lemma CopyMayBeDone(s: State, p: Path)
    ensures EngineMayReport(s, p, DONE, 0) && DONE.action == Copied
    ensures DONE.sourceSize == DONE.cachedSize == DONE.completedAt == 0 && DONE.hash == ""
  {
  }

  lemma CopyEnds(c: Settings, s0: State, ls: seq<Label>, t: State, h: EventLedger.Ledger)
    returns (ls': seq<Label>, t': State, h': EventLedger.Ledger)
    requires Reaches(c, s0, ls, t, h) && OnJob(t.worker) && t.worker.stage.Copying?
    ensures Reaches(c, s0, ls', t', h')
    ensures t' == t.(disk := t'.disk, worker := NextJob(t.worker),
                     db := RemovePending(MarkCached(t.db, Target(t.worker), 0, 0, "", ToSeconds(0)), Target(t.worker)))
    ensures h' == h.(time := h.time + 3, copied := h.copied[Target(t.worker) := h.started])
  {
    hide *;
    var w := t.worker;
    IsPassing(w);
    CopyMayBeDone(t, Target(w));
    FinishCopyStep(c, t, DONE, 0);
    FinishedAs(t, DONE, 0);
    AfterReportIs(w, DONE, 0);
    StageKeepsJob(w, Indexing(DONE, 0));
    StageKeepsJob(w, Dropping);
    TakePass(c, s0, ls, t, h, FinishCopy(DONE, 0));
    ls', t', h' := ls + [Pass(FinishCopy(DONE, 0))], Apply(c, t, Pass(FinishCopy(DONE, 0))), h.(time := h.time + 1);
    IndexStep(c, t');
    TakePass(c, s0, ls', t', h', Index);
    ls', t', h' := ls' + [Pass(Index)], Apply(c, t', Pass(Index)),
                   h'.(time := h'.time + 1, copied := h'.copied[Target(w) := h'.started]);
    DropStep(c, t');
    TakePass(c, s0, ls', t', h', Drop);
    ls', t', h' := ls' + [Pass(Drop)], Apply(c, t', Pass(Drop)), h'.(time := h'.time + 1);
  }

  // ---------- one pending row ----------

  const A: Path := "a"
  const B: Path := "b"

  function Unseen(): FileRow<int> {
    FileRow(0, None, 0, 0, None, "", false, "", 0, "")
  }

  function DueNow(p: Path, retries: nat): Job<int> {
    Job(p, JobRow(0, "retry", retries, 0, ""))
  }

  function Fresh(files: map<Path, FileRow<int>>, pending: map<Path, JobRow<int>>, disk: map<Path, nat>): State {
    State(Db(files, pending), disk, {}, 0, 0, false, false, Idle, Stopped)
  }

  /** A single row, due since the clock started, that failed `retries` times. */
  function OneRow(retries: nat, disk: map<Path, nat>): State {
    Fresh(map[A := Unseen()], map[A := DueNow(A, retries).row], disk)
  }

  lemma OneRowSelects(retries: nat, disk: map<Path, nat>, batch: int)
    requires batch >= 1
    ensures var s0, job := OneRow(retries, disk), DueNow(A, retries);
            && Initial(s0) && Faithful(s0.db.pending, [job]) && PathsOf([job]) == s0.db.pending.Keys
            && PushAll(s0.(stop := false, worker := Loading([job])), [job])
               == s0.(stop := false, worker := Loading([job]), heap := {Entry(0, 1, A)}, sequence := 1)
            && IsDueSelection(s0.db.pending, ToSeconds(s0.clock), batch, [job])
            && A in s0.db.pending && s0.db.pending[A].due == 0 && s0.clock == 0
  {
    var s0, job := OneRow(retries, disk), DueNow(A, retries);
    assert PathsOf([job]) == {A};
    assert DueSet(s0.db.pending, 0) == {A};
    assert PushAll(PushEntry(s0.(worker := Loading([job])), A, 0), []) == PushEntry(s0.(worker := Loading([job])), A, 0);
    assert [job][1..] == [];
  }

  lemma AloneIsEarliest(e: Entry)
    ensures forall o :: o in {e} ==> !Later(e, o)
  {
  }

  /** The first pass takes the row; the heap is empty then. */
  lemma OneRowTaken(c: Settings, retries: nat, disk: map<Path, nat>) returns (ls: seq<Label>, t: State, h: EventLedger.Ledger)
    requires c.batch >= 1
    ensures Reaches(c, OneRow(retries, disk), ls, t, h) && h == EventLedger.BLANK.(time := h.time)
    ensures t == OneRow(retries, disk).(sequence := 1, worker := Passing(Some(Entry(0, 1, A)), 0, [DueNow(A, retries)], 0, MakingRoom))
  {
    hide *;
    OneRowSelects(retries, disk, c.batch);
    var s0, job := OneRow(retries, disk), DueNow(A, retries);
    AloneIsEarliest(Entry(0, 1, A));
    StartsBlank(c, s0);
    var loaded := PushAll(s0.(stop := false, worker := Loading([job])), [job]);
    ls, t, h := ToSelection(c, s0, [job], loaded, Entry(0, 1, A), [job]);
  }

  /** p is pending, the heap is empty and both threads wait. */
  ghost predicate Stranded(t: State, p: Path) {
    p in t.db.pending && t.heap == {} && t.worker.Top? && t.recorder.Idle? && !t.stop
  }

  /** Such a row is not covered, and no run without a new event or a restart
      touches the tables. */
  lemma StrandedForGood(c: Settings, t: State, p: Path)
    requires Stranded(t, p)
    ensures Serving(t) && !HeapCovers(t)
    ensures forall more :: IsRun(c, t, more) && (forall l :: l in more ==> Undisturbed(l)) ==> Exec(c, t, more).db == t.db
  {
    assert !Covered(t, p) && !AboutToLoad(t, p);
    forall more | IsRun(c, t, more) && forall l :: l in more ==> Undisturbed(l)
      ensures Exec(c, t, more).db == t.db
    {
      hide *;
      WaitsAtTop(t, p);
      StrandedRowStays(c, t, more);
    }
  }

  lemma WaitsAtTop(t: State, p: Path)
    requires Stranded(t, p)
    ensures t.heap == {} && Waiting(t)
  {
  }

  lemma StrandedIs(t: State, p: Path)
    requires p in t.db.pending && t.heap == {} && t.worker.Top? && t.recorder.Idle? && !t.stop
    ensures Stranded(t, p)
  {
  }

  lemma ReachedIsRun(c: Settings, s0: State, ls: seq<Label>, t: State, h: EventLedger.Ledger)
    requires Reaches(c, s0, ls, t, h)
    ensures Initial(s0) && IsRun(c, s0, ls) && Exec(c, s0, ls) == t && EventLedger.Observe(c, s0, ls) == h
  {
  }

  // ---------- the engine throws ----------

  /** The first copy begins: the worker alone carries the row's wake-up. */
  lemma FirstCopyBegins(c: Settings, disk: map<Path, nat>) returns (ls: seq<Label>, t: State, h: EventLedger.Ledger)
    requires c.batch >= 1
    ensures Reaches(c, OneRow(0, disk), ls, t, h)
    ensures t == OneRow(0, disk).(sequence := 1, worker := Passing(Some(Entry(0, 1, A)), 0, [DueNow(A, 0)], 0, Copying))
    ensures CarriesAlone(t) && Target(t.worker) == A && t.disk == disk && !t.stop
  {
    hide *;
    ls, t, h := OneRowTaken(c, 0, disk);
    OneRowIs(0, disk);
    OnCurrentJob(t.worker, Some(Entry(0, 1, A)), 0, [DueNow(A, 0)], 0);
    ls, t, h := CopyBegins(c, OneRow(0, disk), ls, t, h);
    CopyingJob(t.worker, Some(Entry(0, 1, A)), 0, [DueNow(A, 0)], 0);
    CarriesIt(t, Entry(0, 1, A), [DueNow(A, 0)]);
  }

  lemma CarriesIt(t: State, e: Entry, jobs: seq<Job<int>>)
    requires t.worker == Passing(Some(e), 0, jobs, 0, Copying) && jobs != [] && jobs[0].path == e.path
    requires t.heap == {} && t.recorder.Idle? && !t.stop && e.path in t.db.pending && t.db.pending[e.path].due == e.due
    ensures CarriesAlone(t)
  {
    assert Unsettled(t.worker, e.path);
  }

  /** For any settings and any meeting of the engine with a cache file that it has
      to compare and cannot hash: a run from the start reaches that call, the call
      throws, and the row stays pending with nothing to wake it. */
  lemma HashingFailureStrandsARow(c: Settings, e: Surroundings, d: Digest, chunkSize: nat, files: Files, held: set<Path>, cache: Path)
    returns (ls: seq<Label>, disk: map<Path, nat>)
    requires c.batch >= 1 && HashingFails(e, chunkSize, files, cache, true)
    ensures Initial(OneRow(0, disk)) && IsRun(c, OneRow(0, disk), ls)
    ensures var t := Exec(c, OneRow(0, disk), ls);
            var (o, after) := CopyOutcome(e, d, chunkSize, files, held, cache, true);
            && OnJob(t.worker) && t.disk == map[Target(t.worker) := |files[cache]|] && CarriesAlone(t)
            && o.Threw? && IsRun(c, OneRow(0, disk), ls + [Pass(EngineStep(o, after, cache))])
            && Stranded(Exec(c, OneRow(0, disk), ls + [Pass(EngineStep(o, after, cache))]), A)
  {
    disk := map[A := |files[cache]|];
    hide *;
    var (o, after) := CopyOutcome(e, d, chunkSize, files, held, cache, true);
    ThrowsExactlyWhenHashingFails(e, d, chunkSize, files, held, cache, true);
    var t, h;
    ls, t, h := FirstCopyBegins(c, disk);
    OneRowIs(0, disk);
    CopyingJob(t.worker, Some(Entry(0, 1, A)), 0, [DueNow(A, 0)], 0);
    ReachedIsRun(c, OneRow(0, disk), ls, t, h);
    EngineStepIs(o, after, cache);
    ThrowStep(c, t, o.message);
    ErrorKeepsRow(t.db, A, o.message);
    OneMore(c, OneRow(0, disk), ls, t, h, Pass(Throw(o.message)));
    var last := Apply(c, t, Pass(Throw(o.message)));
    ReachedIsRun(c, OneRow(0, disk), ls + [Pass(Throw(o.message))], last, EventLedger.Note(t, Pass(Throw(o.message)), h));
    StrandedIs(last, A);
  }

  lemma OneRowIs(retries: nat, disk: map<Path, nat>)
    ensures var s0 := OneRow(retries, disk);
            && s0.heap == {} && s0.recorder.Idle? && !s0.stop && !s0.paused && s0.clock == 0 && s0.sequence == 0 && s0.disk == disk
            && s0.db.pending == map[A := DueNow(A, retries).row] && s0.db.files.Keys == {A}
            && DueNow(A, retries).path == A && DueNow(A, retries).row == JobRow(0, "retry", retries, 0, "")
  {
  }

  lemma CopyingJob(w: Worker, entry: Option<Entry>, now: int, jobs: seq<Job<int>>, i: nat)
    requires w == Passing(entry, now, jobs, i, Copying) && i < |jobs|
    ensures OnJob(w) && CurrentJob(w) == jobs[i] && Target(w) == jobs[i].path
    ensures NextJob(w) == Passing(entry, now, jobs, i + 1, MakingRoom)
  {
  }

  lemma ErrorKeepsRow(db: Db<int>, p: Path, error: string)
    requires p in db.pending
    ensures p in RecordError(db, p, error).pending
    ensures RecordError(db, p, error).pending[p] == db.pending[p].(retries := db.pending[p].retries + 1)
    ensures RecordError(db, p, error).files.Keys == db.files.Keys
  {
  }

  // ---------- an access during the copy ----------

  function ReadOf(p: Path): AccessEvent {
    AccessEvent(p, ReadOpen, 0, 0, "", 0)
  }

  lemma ReadIs(p: Path)
    ensures ReadOf(p).path == p && SchedulesCopy(ReadOf(p).kind) && A != [] && B != [] && A != B
  {
  }

  /** For any settings: an access recorded while its path is being copied is
      forgotten. The copy that ends answers it no more than anything else. */
  lemma AccessDuringCopyIsForgotten(c: Settings, disk: map<Path, nat>) returns (ls: seq<Label>, e: EventLedger.Recorded)
    requires c.batch >= 1
    ensures var h := EventLedger.Observe(c, OneRow(0, disk), ls);
            && Initial(OneRow(0, disk)) && IsRun(c, OneRow(0, disk), ls)
            && e in h.events && !EventLedger.Answered(Exec(c, OneRow(0, disk), ls), h, e)
  {
    hide *;
    var t, h;
    ls, t, h := OneRowTaken(c, 0, disk);
    OneRowIs(0, disk);
    ReadIs(A);
    OnCurrentJob(t.worker, Some(Entry(0, 1, A)), 0, [DueNow(A, 0)], 0);
    ls, t, h := CopyBegins(c, OneRow(0, disk), ls, t, h);
    e := EventLedger.Recorded(A, h.time + 1);
    ls, t, h := Access(c, OneRow(0, disk), ls, t, h, ReadOf(A));
    CopyingJob(t.worker, Some(Entry(0, 1, A)), 0, [DueNow(A, 0)], 0);
    RowIsDropped(MarkCached(t.db, A, 0, 0, "", ToSeconds(0)), A);
    ls, t, h := CopyEnds(c, OneRow(0, disk), ls, t, h);
    ReachedIsRun(c, OneRow(0, disk), ls, t, h);
    BlankIs();
    NotAnswered(t, h, e);
  }

  lemma RowIsDropped(db: Db<int>, p: Path)
    ensures p !in RemovePending(db, p).pending
  {
  }

  lemma BlankIs()
    ensures EventLedger.BLANK.removed == map[] && EventLedger.BLANK.copied == map[]
  {
  }

  lemma NotAnswered(t: State, h: EventLedger.Ledger, e: EventLedger.Recorded)
    requires e.path !in t.db.pending && e.path !in h.removed && e.path in h.copied && h.copied[e.path] <= e.at
    ensures !EventLedger.Answered(t, h, e)
  {
  }

  // ---------- a row replaced inside the pass ----------

  function DeleteOf(p: Path): AccessEvent {
    AccessEvent(p, Delete, 0, 0, "", 0)
  }

  const BROKEN := CopyResult(Failed, 0, 0, "", 0, "broken")

  lemma CopyMayBreak(s: State, p: Path)
    ensures EngineMayReport(s, p, BROKEN, 0) && BROKEN.action == Failed
    ensures DeleteOf(p).path == p && DeleteOf(p).kind == Delete
  {
  }

  /** Deleting and reading A again leaves a row without failures. */
  lemma RowIsReplaced(db: Db<int>, seen: int, due: int)
    requires A in db.files
    ensures var after := RecordAccess(MarkRemoved(db, A), ReadOf(A), seen, due);
            A in after.files && A in after.pending && after.pending[A].retries == 0
  {
    AccessSchedules(MarkRemoved(db, A), ReadOf(A), seen, due);
  }

  lemma FailingJob(w: Worker, entry: Option<Entry>, now: int, jobs: seq<Job<int>>, i: nat, error: string, reason: string)
    requires i < |jobs| && (w == Passing(entry, now, jobs, i, Failing(error, reason)) || w == Passing(entry, now, jobs, i, Rescheduling(reason)))
    ensures OnJob(w) && CurrentJob(w) == jobs[i] && Target(w) == jobs[i].path
  {
  }

  lemma RetriedRow(db: Db<int>, p: Path, due: int, reason: string)
    requires p in db.files && p in db.pending && p != []
    ensures UpsertPending(db, p, due, reason).Ok?
    ensures var after := UpsertPending(db, p, due, reason).value;
            p in after.pending && after.pending[p].due == due && after.pending[p].retries == db.pending[p].retries
  {
  }

  lemma FailureIs(w: Worker, entry: Option<Entry>, now: int, jobs: seq<Job<int>>)
    requires w == Passing(entry, now, jobs, 0, Copying) && jobs != []
    ensures AfterReport(w, BROKEN, 0) == w.(stage := Failing(BROKEN.error, "retry"))
  {
  }

  /** A path that failed five times fails again. */
  lemma SixthFailure(c: Settings, disk: map<Path, nat>) returns (ls: seq<Label>, t: State, h: EventLedger.Ledger)
    requires c.batch >= 1
    ensures Reaches(c, OneRow(5, disk), ls, t, h)
    ensures t == OneRow(5, disk).(sequence := 1,
                                  worker := Passing(Some(Entry(0, 1, A)), 0, [DueNow(A, 5)], 0, Failing(BROKEN.error, "retry")))
  {
    hide *;
    var s0, job, entry := OneRow(5, disk), DueNow(A, 5), Some(Entry(0, 1, A));
    ls, t, h := OneRowTaken(c, 5, disk);
    OneRowIs(5, disk);
    OnCurrentJob(t.worker, entry, 0, [job], 0);
    ls, t, h := CopyBegins(c, s0, ls, t, h);
    CopyMayBreak(t, A);
    CopyingJob(t.worker, entry, 0, [job], 0);
    FailureIs(t.worker, entry, 0, [job]);
    FinishCopyStep(c, t, BROKEN, 0);
    FinishedAs(t, BROKEN, 0);
    TakePass(c, s0, ls, t, h, FinishCopy(BROKEN, 0));
    ls, t, h := ls + [Pass(FinishCopy(BROKEN, 0))], t.(worker := t.worker.(stage := Failing(BROKEN.error, "retry"))), h.(time := h.time + 1);
  }

  /** For any settings: a path fails for the sixth time, but its row was deleted
      and created again while the engine was at work. The new row counts one
      failure and is due after 180 seconds instead of 30. */
  lemma ReplacedRowWaitsTooLong(c: Settings, disk: map<Path, nat>) returns (ls: seq<Label>)
    requires c.batch >= 1
    ensures var t := Exec(c, OneRow(5, disk), ls);
            && Initial(OneRow(5, disk)) && IsRun(c, OneRow(5, disk), ls)
            && A in t.db.pending && t.db.pending[A].retries == 1
            && Backoff.Observe(c, OneRow(5, disk), ls, A).failures == 1
            && t.worker.Passing? && t.worker.now == 0 && t.db.pending[A].due == 180
  {
    hide *;
    var s0, job, entry := OneRow(5, disk), DueNow(A, 5), Some(Entry(0, 1, A));
    var t, h;
    ls, t, h := SixthFailure(c, disk);
    OneRowIs(5, disk);
    ReadIs(A);
    CopyMayBreak(t, A);
    RecorderSteps(c, t, DeleteOf(A));
    TakeRecorder(c, s0, ls, t, h, Accept(DeleteOf(A)));
    ls, t, h := ls + [Recorder(Accept(DeleteOf(A)))], t.(recorder := Accepted(DeleteOf(A))), h.(time := h.time + 1);
    TakeRecorder(c, s0, ls, t, h, Record);
    var db := t.db;
    ls, t, h := ls + [Recorder(Record)], t.(db := MarkRemoved(t.db, A), recorder := Idle),
                EventLedger.NoteRecorder(t, Record, h).(time := h.time + 1);
    ls, t, h := Access(c, s0, ls, t, h, ReadOf(A));
    RowIsReplaced(db, ToSeconds(ReadOf(A).observedAt), EventDue(c, ReadOf(A)));
    FailingJob(t.worker, entry, 0, [job], 0, BROKEN.error, "retry");
    NoteErrorStep(c, t);
    ErrorKeepsRow(t.db, A, BROKEN.error);
    TakePass(c, s0, ls, t, h, NoteError);
    ls, t, h := ls + [Pass(NoteError)],
                t.(db := RecordError(t.db, A, BROKEN.error), worker := t.worker.(stage := Rescheduling("retry"))), h.(time := h.time + 1);
    FailingJob(t.worker, entry, 0, [job], 0, BROKEN.error, "retry");
    RetriedRow(t.db, A, RetryDue(0, 5), "retry");
    SixthRetry();
    RescheduleStep(c, t);
    TakePass(c, s0, ls, t, h, Reschedule);
    ls, t, h := ls + [Pass(Reschedule)], Apply(c, t, Pass(Reschedule)), h.(time := h.time + 1);
    ReachedIsRun(c, s0, ls, t, h);
    Backoff.CountsRightEveryRun(c, s0, ls, A);
    Backoff.CountOfRow(t, A, Backoff.Observe(c, s0, ls, A));
  }

  lemma SixthRetry()
    ensures RetryDue(0, 5) == 180
  {
  }

  // ---------- a delete ----------

  lemma DeleteIs(p: Path)
    requires p != []
    ensures DeleteOf(p).path == p && DeleteOf(p).kind == Delete && DeleteOf(p).path != []
  {
  }

  /** A file on the disk need not be listed: recording a delete, the first thing
      the service does here, unlists a cached file and leaves it where it is. */
  lemma DeletedFileStaysOnDisk(c: Settings, s0: State, p: Path) returns (ls: seq<Label>)
    requires Initial(s0) && p != [] && p in s0.disk && Listed(s0.db, p).Some?
    ensures IsRun(c, s0, ls)
    ensures var t := Exec(c, s0, ls); p in t.disk && Listed(t.db, p).None? && p !in t.db.pending
  {
    hide *;
    StartsBlank(c, s0);
    DeleteIs(p);
    RecorderSteps(c, s0, DeleteOf(p));
    TakeRecorder(c, s0, [], s0, EventLedger.BLANK, Accept(DeleteOf(p)));
    ls := [] + [Recorder(Accept(DeleteOf(p)))];
    var t, h := s0.(recorder := Accepted(DeleteOf(p))), EventLedger.BLANK.(time := EventLedger.BLANK.time + 1);
    TakeRecorder(c, s0, ls, t, h, Record);
    RecordIs(c, t);
    DeleteLeavesTheFile(c, t);
    ls := ls + [Recorder(Record)];
    ReachedIsRun(c, s0, ls, Apply(c, t, Recorder(Record)), EventLedger.NoteRecorder(t, Record, h).(time := h.time + 1));
  }

  lemma RecordIs(c: Settings, t: State)
    requires Enabled(c, t, Recorder(Record))
    ensures RecorderEnabled(t, Record) && Apply(c, t, Recorder(Record)) == ApplyRecorder(c, t, Record)
  {
    hide ApplyRecorder;
  }

  // ---------- a stop taken back ----------

  const STOPPED := CopyResult(Cancelled, 0, 0, "", 0, "copy cancelled")

  lemma CopyMayStop(s: State, p: Path)
    requires s.stop
    ensures EngineMayReport(s, p, STOPPED, 0) && STOPPED.action == Cancelled
  {
  }

  lemma TakeEnv(c: Settings, s0: State, ls: seq<Label>, t: State, h: EventLedger.Ledger, e: EnvStep)
    requires Reaches(c, s0, ls, t, h) && Enabled(c, t, Env(e))
    ensures Reaches(c, s0, ls + [Env(e)], Apply(c, t, Env(e)), h.(time := h.time + 1))
  {
    OneMore(c, s0, ls, t, h, Env(e));
    hide Reaches, Apply, Enabled;
  }

  /** For any settings: start() called while a stop is under way. The engine has
      seen the stop and given the copy up, the worker has not; it goes on without
      the row's wake-up. */
  lemma StartDuringStopStrandsARow(c: Settings, disk: map<Path, nat>) returns (ls: seq<Label>)
    requires c.batch >= 1
    ensures Initial(OneRow(0, disk)) && IsRun(c, OneRow(0, disk), ls) && Stranded(Exec(c, OneRow(0, disk), ls), A)
  {
    hide *;
    var s0, entry := OneRow(0, disk), Some(Entry(0, 1, A));
    var t, h;
    ls, t, h := FirstCopyBegins(c, disk);
    OneRowIs(0, disk);
    FlagSteps(c, t, true);
    TakeEnv(c, s0, ls, t, h, RequestStop);
    ls, t, h := ls + [Env(RequestStop)], t.(stop := true), h.(time := h.time + 1);
    CopyingJob(t.worker, entry, 0, [DueNow(A, 0)], 0);
    CopyMayStop(t, A);
    FinishCopyStep(c, t, STOPPED, 0);
    FinishedAs(t, STOPPED, 0);
    AfterReportIs(t.worker, STOPPED, 0);
    ReturnsToTop(t.worker);
    TakePass(c, s0, ls, t, h, FinishCopy(STOPPED, 0));
    ls, t, h := ls + [Pass(FinishCopy(STOPPED, 0))], t.(worker := Top), h.(time := h.time + 1);
    FlagSteps(c, t, true);
    TakeEnv(c, s0, ls, t, h, StartAgain);
    ls, t, h := ls + [Env(StartAgain)], t.(stop := false), h.(time := h.time + 1);
    ReachedIsRun(c, s0, ls, t, h);
    StrandedIs(t, A);
  }

  lemma ReturnsToTop(w: Worker)
    requires w.Passing? && w.entry.Some?
    ensures Return(w) == Top
  {
  }

  // ---------- an eviction cancels a copy ----------

  function Listed1(): FileRow<int> {
    FileRow(0, None, 1, 1, Some(0), "", true, "", 0, "")
  }

  /** A is due; B is cached with one byte, and nothing is pending for it. */
  function OneRowAndCached(): State {
    Fresh(map[A := Unseen(), B := Listed1()], map[A := DueNow(A, 0).row], map[B := 1])
  }

  /** A volume that holds just B and has no room left. */
  function FullVolume(): Volume {
    Volume(map[B := 1], 1, 0, 0, 0, World(1, n => 0, n => true, (n, p) => "", (n, p) => Fails("")))
  }

  lemma OneRowAndCachedSelects(batch: int)
    requires batch >= 1
    ensures var s0, job := OneRowAndCached(), DueNow(A, 0);
            && Initial(s0) && Faithful(s0.db.pending, [job]) && PathsOf([job]) == s0.db.pending.Keys
            && PushAll(s0.(stop := false, worker := Loading([job])), [job])
               == s0.(stop := false, worker := Loading([job]), heap := {Entry(0, 1, A)}, sequence := 1)
            && IsDueSelection(s0.db.pending, ToSeconds(s0.clock), batch, [job])
            && A in s0.db.pending && s0.db.pending[A].due == 0 && s0.clock == 0
            && s0.db.files == map[A := Unseen(), B := Listed1()] && s0.disk == map[B := 1]
            && s0.recorder.Idle? && !s0.paused && job.path == A
  {
    OneRowSelects(0, map[], batch);
    var s0, job := OneRowAndCached(), DueNow(A, 0);
    assert s0.db.pending == OneRow(0, map[]).db.pending;
    assert PushAll(PushEntry(s0.(worker := Loading([job])), A, 0), []) == PushEntry(s0.(worker := Loading([job])), A, 0);
    assert [job][1..] == [];
  }

  /** With B read again, making room for A on the full volume evicts B. */
  lemma RoomForATakesB(db: Db<int>)
    requires A in db.files && B in db.files && db.files.Keys == {A, B}
    requires !db.files[A].present && db.files[A].sourceSize == 0 && db.files[B].present && db.files[B].cachedSize == 1
    ensures var v := FullVolume();
            RoomFor(true, 1, db, v, A, [CachedFileRef(B, 1)], MarkRemoved(db, B),
                    v.(files := map[], used := 0, removals := 1, queries := 2))
  {
    var v, list := FullVolume(), [CachedFileRef(B, 1)];
    assert CachedSet(db.files) == {B} == RefPaths(list);
    assert list[1..] == [];
    assert v.files - {B} == map[];
    assert Remove(v.(queries := 1), B) == (v.(files := map[], used := 0, removals := 1, queries := 1), []);
    var r := Sweep(list, A, 1, 0, v.(queries := 1), true);
    var v1, v2 := v.(files := map[], used := 0, removals := 1, queries := 1), v.(files := map[], used := 0, removals := 1, queries := 2);
    assert NextLevel(v1, 0, 1, true) == (v2, 1);
    SweepCases(list, A, 1, 0, v.(queries := 1), true);
    SweepCases([], A, 1, 1, v2, true);
    assert !Spared(A, list[0]);
    assert [list[0]] + [] == list;
    assert r == Swept(list, [], 1, 1, v.(files := map[], used := 0, removals := 1, queries := 2));
    assert MarkAllRemoved(db, list) == MarkRemoved(db, B);
  }

  predicate IsDelete(l: Label) {
    l.Recorder? && l.recorder.Accept? && l.recorder.event.kind == Delete
  }

  lemma ReadIsNoDelete(p: Path)
    ensures !IsDelete(Recorder(Accept(ReadOf(p)))) && !IsDelete(Recorder(Record)) && !IsDelete(Recorder(Push))
    ensures !IsDelete(Pass(RemoveVictim(p))) && !IsDelete(Pass(UnlistVictim))
    ensures forall l: Label :: !l.Recorder? ==> !IsDelete(l)
  {
  }

  lemma AfterReadOfB(c: Settings)
    ensures var after := RecordAccess(OneRowAndCached().db, ReadOf(B), ToSeconds(0), EventDue(c, ReadOf(B)));
            && A in after.files && B in after.files && after.files.Keys == {A, B} && B in after.pending
            && !after.files[A].present && after.files[A].sourceSize == 0 && after.files[B].present && after.files[B].cachedSize == 1
    ensures ReadOf(B).observedAt == 0 && B !in MarkRemoved(RecordAccess(OneRowAndCached().db, ReadOf(B), ToSeconds(0), EventDue(c, ReadOf(B))), B).pending
  {
    AccessColumns(OneRowAndCached().db, ReadOf(B), ToSeconds(0), EventDue(c, ReadOf(B)));
    hide EventDue, ToSeconds;
  }

  /** For any settings: a cached file is read again and its copy scheduled; then
      room is made for another file, exactly as the free space asks for it. The
      scheduled copy is gone: nothing is pending, nothing was copied, and no delete
      was ever seen. */
  lemma EvictionCancelsACopy(c: Settings) returns (ls: seq<Label>, e: EventLedger.Recorded, before: State)
    requires c.batch >= 1
    ensures var s0, evict := OneRowAndCached(), [Pass(RemoveVictim(B)), Pass(UnlistVictim)];
            && Initial(s0) && IsRun(c, s0, ls) && Exec(c, s0, ls) == before
            && OnJob(before.worker) && Target(before.worker) == A && before.disk == FullVolume().files && B in before.db.pending
            && IsRun(c, s0, ls + evict)
            && var after, h := Exec(c, s0, ls + evict), EventLedger.Observe(c, s0, ls + evict);
               && RoomFor(true, 1, before.db, FullVolume(), A, [CachedFileRef(B, 1)], after.db,
                          FullVolume().(files := after.disk, used := 0, removals := 1, queries := 2))
               && e in h.events && e.path == B && B !in after.db.pending && B !in h.copied
               && forall l :: l in ls + evict ==> !IsDelete(l)
  {
    hide *;
    var s0, job := OneRowAndCached(), DueNow(A, 0);
    OneRowAndCachedSelects(c.batch);
    ReadIs(B);
    ReadIsNoDelete(B);
    AloneIsEarliest(Entry(0, 1, A));
    var loaded := PushAll(s0.(stop := false, worker := Loading([job])), [job]);
    var t, h;
    ls, t, h := ToSelection(c, s0, [job], loaded, Entry(0, 1, A), [job]);
    OnCurrentJob(t.worker, Some(Entry(0, 1, A)), 0, [job], 0);
    e := EventLedger.Recorded(B, h.time + 1);
    ls, t, h := Access(c, s0, ls, t, h, ReadOf(B));
    before := t;
    AfterReadOfB(c);
    RoomForATakesB(t.db);
    FullVolumeIs();
    BlankIs();
    TargetIs(t.worker, job);
    ReachedIsRun(c, s0, ls, t, h);
    EvictSteps(c, t, B);
    OneMore(c, s0, ls, t, h, Pass(RemoveVictim(B)));
    var u, g := Apply(c, t, Pass(RemoveVictim(B))), EventLedger.Note(t, Pass(RemoveVictim(B)), h);
    OneMore(c, s0, ls + [Pass(RemoveVictim(B))], u, g, Pass(UnlistVictim));
    EvictionIsNoted(t, u, h, B);
    assert ls + [Pass(RemoveVictim(B))] + [Pass(UnlistVictim)] == ls + [Pass(RemoveVictim(B)), Pass(UnlistVictim)];
    ReachedIsRun(c, s0, ls + [Pass(RemoveVictim(B)), Pass(UnlistVictim)], Apply(c, u, Pass(UnlistVictim)), EventLedger.Note(u, Pass(UnlistVictim), g));
  }

  lemma FullVolumeIs()
    ensures FullVolume().files == map[B := 1] && FullVolume().files - {B} == map[]
  {
  }

  lemma EvictionIsNoted(t: State, u: State, h: EventLedger.Ledger, p: Path)
    ensures var g := EventLedger.Note(u, Pass(UnlistVictim), EventLedger.Note(t, Pass(RemoveVictim(p)), h));
            g.events == h.events && g.copied == h.copied
  {
  }

  // ---------- more rows due in one second than a batch takes ----------

  /** The i-th of as many different paths as one likes. */
  function Name(i: nat): (p: Path)
    ensures |p| == i + 1
  {
    seq(i + 1, _ => 'a')
  }

  function Rows(n: nat): (rows: seq<Job<int>>)
    ensures |rows| == n && forall i :: 0 <= i < n ==> rows[i] == DueNow(Name(i), 0)
  {
    seq(n, i requires 0 <= i < n => DueNow(Name(i), 0))
  }

  /** n rows, all due since the clock started. */
  function ManyRows(n: nat): State {
    Fresh(map p | p in PathsOf(Rows(n)) :: Unseen(), map p | p in PathsOf(Rows(n)) :: JobRow(0, "retry", 0, 0, ""), map[])
  }

  lemma ManyRowsStart(n: nat)
    ensures var s0 := ManyRows(n);
            && Initial(s0) && Faithful(s0.db.pending, Rows(n)) && PathsOf(Rows(n)) == s0.db.pending.Keys
            && |s0.db.pending.Keys| == n && s0.clock == 0 && s0.recorder.Idle? && !s0.stop && !s0.paused && s0.heap == {} && s0.sequence == 0
            && (forall p :: p in s0.db.pending ==> s0.db.pending[p].due == 0)
            && (n > 0 ==> Name(0) in s0.db.pending)
  {
    var s0, rows := ManyRows(n), Rows(n);
    PathAt(rows);
    forall p | p in PathsOf(rows)
      ensures p != []
    {
      var i :| 0 <= i < n && rows[i].path == p;
    }
    forall i | 0 <= i < n
      ensures rows[i].path in s0.db.pending && rows[i].row == s0.db.pending[rows[i].path]
    {
    }
    forall i, j | 0 <= i < j < n
      ensures rows[i].path != rows[j].path
    {
      assert |rows[i].path| == i + 1 && |rows[j].path| == j + 1;
    }
    JobCount(s0.db.pending, rows);
  }

  /** A loaded heap holds what was in it and one entry for each row, numbered on. */
  lemma {:induction false} PushedEntries(s: State, rows: seq<Job<int>>, e: Entry)
    requires e in PushAll(s, rows).heap && e !in s.heap
    ensures exists i :: 0 <= i < |rows| && e == Entry(rows[i].row.due, s.sequence + 1 + i, rows[i].path)
    decreases |rows|
  {
    if rows != [] {
      var first := PushEntry(s, rows[0].path, rows[0].row.due);
      if e !in first.heap {
        PushedEntries(first, rows[1..], e);
        var i :| 0 <= i < |rows[1..]| && e == Entry(rows[1..][i].row.due, first.sequence + 1 + i, rows[1..][i].path);
        assert rows[i + 1] == rows[1..][i];
      } else {
        assert e == Entry(rows[0].row.due, s.sequence + 1 + 0, rows[0].path);
      }
    }
  }

  lemma {:induction false} PushedStays(s: State, rows: seq<Job<int>>)
    ensures s.heap <= PushAll(s, rows).heap
    decreases |rows|
  {
    if rows != [] {
      PushedStays(PushEntry(s, rows[0].path, rows[0].row.due), rows[1..]);
    }
  }

  /** Of rows due in one second the first loaded comes first, and its entry is the
      only one of its path. */
  lemma FirstLoadedIsFirst(n: nat)
    requires n > 0
    ensures var s := ManyRows(n).(stop := false, worker := Loading(Rows(n)));
            var heap, e := PushAll(s, Rows(n)).heap, Entry(0, 1, Name(0));
            && e in heap && (forall o :: o in heap ==> !Later(e, o))
            && (forall o :: o in heap && o != e ==> o.due == 0 && o.path != Name(0) && o.path in ManyRows(n).db.pending)
  {
    var s, rows, e := ManyRows(n).(stop := false, worker := Loading(Rows(n))), Rows(n), Entry(0, 1, Name(0));
    PushedStays(PushEntry(s, rows[0].path, rows[0].row.due), rows[1..]);
    PathAt(rows);
    forall o | o in PushAll(s, rows).heap
      ensures !Later(e, o)
      ensures o != e ==> o.due == 0 && o.path != Name(0) && o.path in ManyRows(n).db.pending
    {
      PushedEntries(s, rows, o);
      var i :| 0 <= i < |rows| && o == Entry(rows[i].row.due, s.sequence + 1 + i, rows[i].path);
      assert |Name(i)| == i + 1;
    }
  }

  /** The query may answer with all rows but the popped one. */
  lemma OthersAreSelected(c: Settings) returns (jobs: seq<Job<int>>)
    requires c.batch >= 1
    ensures var rows := ManyRows(c.batch + 1).db.pending;
            IsDueSelection(rows, ToSeconds(0), c.batch, jobs) && PathsOf(jobs) == rows.Keys - {Name(0)}
  {
    var n, rows, p := c.batch + 1, ManyRows(c.batch + 1).db.pending, Name(0);
    ManyRowsStart(n);
    assert Rivals(rows, p) == rows.Keys - {p};
    assert DueSet(rows, 0) == rows.Keys;
    jobs := SelectionWithout(rows, 0, c.batch, p);
    JobCount(rows, jobs);
    SubsetCount(PathsOf(jobs), rows.Keys - {p});
  }

  lemma RestOfPaths(jobs: seq<Job<int>>, k: nat)
    requires k < |jobs|
    ensures PathsOf(jobs[k..]) == {jobs[k].path} + PathsOf(jobs[k + 1..])
  {
    assert jobs[k..] == [jobs[k]] + jobs[k + 1..];
  }

  lemma NoPathsLeft(jobs: seq<Job<int>>, rows: map<Path, JobRow<int>>)
    ensures rows - PathsOf(jobs[|jobs|..]) == rows
  {
    assert PathsOf(jobs[|jobs|..]) == {};
  }

  /** The rest of a batch is copied, job by job, and the pass ends. */
  lemma {:induction false} BatchIsCopied(c: Settings, s0: State, ls: seq<Label>, t: State, h: EventLedger.Ledger,
                                         entry: Entry, jobs: seq<Job<int>>, k: nat)
    returns (ls': seq<Label>, t': State, h': EventLedger.Ledger)
    requires Reaches(c, s0, ls, t, h) && k <= |jobs| && t.worker == Passing(Some(entry), 0, jobs, k, MakingRoom)
    ensures Reaches(c, s0, ls', t', h')
    ensures t' == t.(disk := t'.disk, db := t'.db, worker := Top) && t'.db.pending == t.db.pending - PathsOf(jobs[k..])
    decreases |jobs| - k
  {
    hide *;
    if k == |jobs| {
      NoPathsLeft(jobs, t.db.pending);
      EndPassStep(c, t);
      TakePass(c, s0, ls, t, h, EndPass);
      ls', t', h' := ls + [Pass(EndPass)], t.(worker := Top), h.(time := h.time + 1);
    } else {
      OnCurrentJob(t.worker, Some(entry), 0, jobs, k);
      var ls1, t1, h1 := CopyBegins(c, s0, ls, t, h);
      CopyingJob(t1.worker, Some(entry), 0, jobs, k);
      ls1, t1, h1 := CopyEnds(c, s0, ls1, t1, h1);
      DropsRow(t.db, jobs[k].path);
      RestOfPaths(jobs, k);
      ls', t', h' := BatchIsCopied(c, s0, ls1, t1, h1, entry, jobs, k + 1);
      RemoveTwice(t.db.pending, jobs[k].path, PathsOf(jobs[k + 1..]));
    }
  }

  lemma DropsRow(db: Db<int>, q: Path)
    ensures RemovePending(MarkCached(db, q, 0, 0, "", ToSeconds(0)), q).pending == db.pending - {q}
  {
  }

  lemma RemoveTwice(rows: map<Path, JobRow<int>>, p: Path, rest: set<Path>)
    ensures (rows - {p}) - rest == rows - ({p} + rest)
  {
  }

  /** Entries without a row are popped and skipped until the heap is empty. */
  lemma {:induction false} StaleEntriesAreSkipped(c: Settings, s0: State, ls: seq<Label>, t: State, h: EventLedger.Ledger)
    returns (ls': seq<Label>, t': State, h': EventLedger.Ledger)
    requires Reaches(c, s0, ls, t, h) && t.worker.Top? && !t.stop && !t.paused
    requires forall e :: e in t.heap ==> e.due * TICKS <= t.clock && e.path !in t.db.pending
    ensures Reaches(c, s0, ls', t', h') && t' == t.(heap := {})
    decreases |t.heap|
  {
    hide *;
    ls', t', h' := ls, t, h;
    if t.heap != {} {
      EarliestEntryExists(t.heap);
      var f :| f in t.heap && forall o :: o in t.heap ==> !Later(f, o);
      LoopSteps(c, t, t.clock);
      TakeControl(c, s0, ls', t', h', PassStop);
      ls', t', h' := ls' + [Control(PassStop)], t'.(worker := Awake), h'.(time := h'.time + 1);
      TakeControl(c, s0, ls', t', h', PassPause);
      ls', t', h' := ls' + [Control(PassPause)], t'.(worker := Ready), h'.(time := h'.time + 1);
      PopSteps(c, t', f);
      TakeControl(c, s0, ls', t', h', Pop(f));
      ls', t', h' := ls' + [Control(Pop(f))], t'.(heap := t'.heap - {f}, worker := Popped(f, t'.clock)), h'.(time := h'.time + 1);
      TakeControl(c, s0, ls', t', h', StillActive);
      ls', t', h' := ls' + [Control(StillActive)], t'.(worker := Checking(f, t'.clock)), h'.(time := h'.time + 1);
      CheckSteps(c, t', f);
      TakeControl(c, s0, ls', t', h', Skip);
      ls', t', h' := ls' + [Control(Skip)], t'.(worker := Top), h'.(time := h'.time + 1);
      ls', t', h' := StaleEntriesAreSkipped(c, s0, ls', t', h');
    }
  }

  /** For any settings: one row more is due in a second than a batch takes. The
      worker pops the first, the query answers with all the others, and their
      entries are stale when the batch is done. The first row stays pending with
      nothing to wake it. */
  lemma TieStrandsARow(c: Settings) returns (ls: seq<Label>)
    requires c.batch >= 1
    ensures var s0 := ManyRows(c.batch + 1);
            Initial(s0) && IsRun(c, s0, ls) && Stranded(Exec(c, s0, ls), Name(0))
  {
    hide *;
    var n := c.batch + 1;
    var s0, rows, e := ManyRows(n), Rows(n), Entry(0, 1, Name(0));
    ManyRowsStart(n);
    FirstLoadedIsFirst(n);
    var jobs := OthersAreSelected(c);
    PushAllKeepsRest(s0.(stop := false, worker := Loading(rows)), rows);
    var loaded := PushAll(s0.(stop := false, worker := Loading(rows)), rows);
    var t, h;
    ls, t, h := ToSelection(c, s0, rows, loaded, e, jobs);
    assert jobs[0..] == jobs;
    ls, t, h := BatchIsCopied(c, s0, ls, t, h, e, jobs, 0);
    OnlyFirstIsLeft(s0.db.pending, PathsOf(jobs), Name(0));
    ls, t, h := StaleEntriesAreSkipped(c, s0, ls, t, h);
    ReachedIsRun(c, s0, ls, t, h);
    StrandedIs(t, Name(0));
  }

  lemma OnlyFirstIsLeft(rows: map<Path, JobRow<int>>, gone: set<Path>, p: Path)
    requires p in rows && gone == rows.Keys - {p}
    ensures forall q :: q in rows - gone <==> q == p
  {
  }
}
