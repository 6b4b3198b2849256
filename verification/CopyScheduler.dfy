/** PendingCopyScheduler as an object. Its methods are the program's sequential
    code; the ghost trace says which protocol steps each call took, so every
    state of the object is a state of a run and inherits the run theorems. */
module CopyScheduler {
  import opened Prelude
  import opened UtcTime
  import opened IndexModel
  import opened CacheIndexStore
  import opened Protocol
  import opened HeapCoverage
  import opened Eviction

  // ---------- what the methods promise ----------

  ghost predicate OnRun(c: Settings, s0: State, trace: seq<Label>, s: State) {
    Initial(s0) && IsRun(c, s0, trace) && Exec(c, s0, trace) == s
  }

  lemma OnRunGrows(c: Settings, s0: State, trace: seq<Label>, s: State, l: Label)
    requires OnRun(c, s0, trace, s) && Enabled(c, s, l)
    ensures OnRun(c, s0, trace + [l], Apply(c, s, l))
  {
    hide Apply, Enabled;
    RunGrows(c, s0, trace, l);
  }

  lemma OnRunWellFormed(c: Settings, s0: State, trace: seq<Label>, s: State)
    requires OnRun(c, s0, trace, s)
    ensures WellFormed(s)
  {
    WellFormedRun(c, s0, trace);
  }

  lemma StepKeepsCoverage(c: Settings, s0: State, trace: seq<Label>, s: State, l: Label)
    requires OnRun(c, s0, trace, s) && Enabled(c, s, l)
    ensures HeapCovers(s) && ((l.Env? && l.env.StartAgain?) || (l.Pass? && (l.pass.Throw? || l.pass.Select?)) ==> Benign(s, l)) ==> HeapCovers(Apply(c, s, l))
  {
    hide Apply, Enabled, HeapCovers, OnRun;
    OnRunWellFormed(c, s0, trace, s);
    if HeapCovers(s) && ((l.Env? && l.env.StartAgain?) || (l.Pass? && (l.pass.Throw? || l.pass.Select?)) ==> Benign(s, l)) {
      CoverageStep(c, s, l);
    }
  }

  /** Rows outside `touched` are the old ones or gone. */
  predicate RowsShrink(before: map<Path, JobRow<int>>, after: map<Path, JobRow<int>>, touched: set<Path>) {
    forall p :: p in after && p !in touched ==> p in before && after[p] == before[p]
  }

  /** Every row but p's is as it was. */
  predicate OthersKept(before: map<Path, JobRow<int>>, after: map<Path, JobRow<int>>, p: Path) {
    before - {p} == after - {p}
  }

  lemma NothingChanged(rows: map<Path, JobRow<int>>, p: Path)
    ensures OthersKept(rows, rows, p)
  {
  }

  /** Entries are only added, and the new ones are due later than `second`. */
  predicate HeapGrew(before: set<Entry>, after: set<Entry>, second: int) {
    before <= after && forall e :: e in after && e !in before ==> e.due > second
  }

  /** Nothing is left to do for p at `second`. */
  predicate SettledAt(pending: map<Path, JobRow<int>>, p: Path, second: int) {
    p in pending ==> pending[p].due > second
  }

  /** Completion times the engine may report fit the index's text form. */
  ghost predicate Timely(world: World) {
    forall n, p ::
      match world.copy(n, p)
      case Copies(_, _, _, at) => Representable(ToSeconds(at))
      case FindsSame(_, _, at) => Representable(ToSeconds(at))
      case _ => true
  }

  ghost predicate NeverThrows(world: World) {
    forall n, p :: !world.copy(n, p).Throws?
  }

  /** The pass time and every retry it can schedule fit the text form. */
  predicate PassTime(now: int) {
    now >= 0 && Representable(ToSeconds(now)) && Representable(ToSeconds(now) + 300)
  }

  lemma PassTimeIs(now: int)
    requires PassTime(now)
    ensures now >= 0 && Representable(ToSeconds(now))
  {
  }

  /** The requirement of make_room_for: incoming size or threshold. */
  function RoomNeeded(db: Db<int>, p: Path, minFree: nat): nat {
    Max(if p in db.files then db.files[p].sourceSize else 0, minFree)
  }

  lemma RetryIsLater(now: int, retries: nat)
    requires PassTime(now)
    ensures RetryDue(now, retries) == ToSeconds(now) + RetrySeconds(retries)
    ensures ToSeconds(now) < RetryDue(now, retries) && Representable(RetryDue(now, retries))
    ensures ToSeconds(now + RetrySeconds(retries) * TICKS) == RetryDue(now, retries)
  {
    ToSecondsOfWhole(RetrySeconds(retries), now);
  }

  /** Pending rows deleted because their path was copied. */
  ghost function Completed(trace: seq<Label>): nat {
    if trace == [] then 0
    else Completed(trace[..|trace| - 1]) + if trace[|trace| - 1] == Pass(Drop) then 1 else 0
  }

  // ---------- the protocol steps the methods take ----------

  lemma EngineReportIsPossible(s: State, v: Volume, p: Path)
    requires s.disk == v.files
    ensures var (after, answer) := Copy(v, p, s.stop);
            && after.world == v.world
            && (answer.Raises? ==> after.files == s.disk && !NeverThrows(v.world))
            && (answer.Reports? ==> 
                  && EngineMayReport(s, p, answer.result, answer.bytes)
                  && after.files == if answer.result.action == Copied then s.disk[p := answer.bytes] else s.disk)
  {
  }

  lemma EngineReportIsTimely(v: Volume, p: Path, stop: bool)
    requires Timely(v.world)
    ensures var answer := Copy(v, p, stop).1;
            answer.Reports? && Succeeded(answer.result.action) ==> Representable(ToSeconds(answer.result.completedAt))
  {
    assert match v.world.copy(v.copies, p)
           case Copies(_, _, _, at) => Representable(ToSeconds(at))
           case FindsSame(_, _, at) => Representable(ToSeconds(at))
           case _ => true;
  }

  lemma StartCopyStep(c: Settings, s: State)
    requires OnJob(s.worker) && s.worker.stage.MakingRoom?
    ensures Enabled(c, s, Pass(StartCopy))
    ensures Apply(c, s, Pass(StartCopy)) == s.(worker := s.worker.(stage := Copying))
  {
  }

  lemma FinishCopyStep(c: Settings, s: State, r: CopyResult, bytes: nat)
    requires OnJob(s.worker) && s.worker.stage.Copying? && EngineMayReport(s, Target(s.worker), r, bytes)
    ensures Enabled(c, s, Pass(FinishCopy(r, bytes)))
    ensures Apply(c, s, Pass(FinishCopy(r, bytes))) == ApplyFinish(s, r, bytes)
  {
    hide EngineMayReport, ApplyFinish;
  }

  lemma ThrowStep(c: Settings, s: State, error: string)
    requires OnJob(s.worker) && s.worker.stage.Copying?
    ensures Enabled(c, s, Pass(Throw(error)))
    ensures Apply(c, s, Pass(Throw(error))) ==
              s.(db := if s.worker.entry.Some? then RecordError(s.db, s.worker.entry.value.path, error) else s.db,
                 worker := if s.worker.entry.Some? then Top else Stopped)
  {
    hide RecordError;
  }

  lemma IndexStep(c: Settings, s: State)
    requires OnJob(s.worker) && s.worker.stage.Indexing?
    ensures Enabled(c, s, Pass(Index))
    ensures Apply(c, s, Pass(Index)) ==
      (var r := s.worker.stage.result;
       s.(db := MarkCached(s.db, Target(s.worker), r.sourceSize, r.cachedSize, r.hash, ToSeconds(r.completedAt)),
          worker := s.worker.(stage := Dropping)))
  {
    hide MarkCached;
  }

  lemma DropStep(c: Settings, s: State)
    requires OnJob(s.worker) && s.worker.stage.Dropping?
    ensures Enabled(c, s, Pass(Drop))
    ensures Apply(c, s, Pass(Drop)) == s.(db := RemovePending(s.db, Target(s.worker)), worker := NextJob(s.worker))
  {
    hide RemovePending;
  }

  lemma EraseStep(c: Settings, s: State, error: string)
    requires OnJob(s.worker) && s.worker.stage.Erasing?
    ensures Enabled(c, s, Pass(EraseCopy(error)))
    ensures Apply(c, s, Pass(EraseCopy(error))) ==
      if error == [] then s.(disk := s.disk - {Target(s.worker)}, worker := s.worker.(stage := Unlisting))
      else s.(worker := s.worker.(stage := Failing(error, "remove stale cache")))
  {
  }

  lemma UnlistStep(c: Settings, s: State)
    requires OnJob(s.worker) && s.worker.stage.Unlisting?
    ensures Enabled(c, s, Pass(Unlist))
    ensures Apply(c, s, Pass(Unlist)) == s.(db := MarkRemoved(s.db, Target(s.worker)), worker := NextJob(s.worker))
  {
    hide MarkRemoved;
  }

  lemma NoteErrorStep(c: Settings, s: State)
    requires OnJob(s.worker) && s.worker.stage.Failing?
    ensures Enabled(c, s, Pass(NoteError))
    ensures Apply(c, s, Pass(NoteError)) ==
      s.(db := RecordError(s.db, Target(s.worker), s.worker.stage.error),
         worker := s.worker.(stage := Rescheduling(s.worker.stage.reason)))
  {
    hide RecordError;
  }

  lemma RescheduleStep(c: Settings, s: State)
    requires OnJob(s.worker) && s.worker.stage.Rescheduling?
    requires UpsertPending(s.db, Target(s.worker), RetryDue(s.worker.now, CurrentJob(s.worker).row.retries), s.worker.stage.reason).Ok?
    ensures Enabled(c, s, Pass(Reschedule))
    ensures var due := RetryDue(s.worker.now, CurrentJob(s.worker).row.retries);
            Apply(c, s, Pass(Reschedule)) ==
              s.(db := UpsertPending(s.db, Target(s.worker), due, s.worker.stage.reason).value,
                 worker := s.worker.(stage := Requeueing(due)))
  {
    hide UpsertPending, RetryDue;
  }

  lemma RequeueStep(c: Settings, s: State)
    requires OnJob(s.worker) && s.worker.stage.Requeueing?
    ensures Enabled(c, s, Pass(Requeue))
    ensures Apply(c, s, Pass(Requeue)) ==
      PushEntry(s, Target(s.worker), s.worker.stage.due).(worker := NextJob(s.worker))
  {
  }

  lemma EvictSteps(c: Settings, s: State, victim: Path)
    requires OnJob(s.worker) && s.worker.stage.MakingRoom? && victim != Target(s.worker)
    ensures Enabled(c, s, Pass(RemoveVictim(victim)))
    ensures var t := Apply(c, s, Pass(RemoveVictim(victim)));
            && t == s.(disk := s.disk - {victim}, worker := s.worker.(stage := Evicting(victim)))
            && Enabled(c, t, Pass(UnlistVictim))
            && Apply(c, t, Pass(UnlistVictim)) == s.(disk := s.disk - {victim}, db := MarkRemoved(s.db, victim))
  {
    hide MarkRemoved;
  }

  lemma RecorderSteps(c: Settings, s: State, e: AccessEvent)
    requires s.recorder.Idle? && e.path != [] && !s.paused
    ensures Enabled(c, s, Recorder(Accept(e)))
    ensures var t := Apply(c, s, Recorder(Accept(e)));
            && t == s.(recorder := Accepted(e)) && Enabled(c, t, Recorder(Record))
            && Apply(c, t, Recorder(Record)) ==
                 if e.kind == Delete then s.(db := MarkRemoved(s.db, e.path))
                 else s.(db := RecordAccess(s.db, e, ToSeconds(e.observedAt), EventDue(c, e)),
                         recorder := if SchedulesCopy(e.kind) then Pushing(e.path, EventDue(c, e)) else Idle)
  {
    hide MarkRemoved, RecordAccess, EventDue;
  }

  lemma PushStep(c: Settings, s: State, p: Path, due: int)
    requires s.recorder == Pushing(p, due)
    ensures Enabled(c, s, Recorder(Push))
    ensures Apply(c, s, Recorder(Push)) ==
              s.(heap := s.heap + {Entry(due, s.sequence + 1, p)}, sequence := s.sequence + 1, recorder := Idle)
  {
  }

  lemma EventDueIs(c: Settings, e: AccessEvent)
    ensures EventDue(c, e) == ToSeconds(e.observedAt + c.copyDelay * TICKS)
    ensures SchedulesCopy(e.kind) ==> e.kind != Delete
  {
  }

  lemma LoadSteps(c: Settings, s: State, rows: seq<Job<int>>)
    requires s.worker.Stopped? && Faithful(s.db.pending, rows) && PathsOf(rows) == s.db.pending.Keys
    ensures Enabled(c, s, Control(ClearStop))
    ensures var t := Apply(c, s, Control(ClearStop));
            && t == s.(stop := false, worker := Starting) && Enabled(c, t, Control(ReadRows(rows)))
            && var u := Apply(c, t, Control(ReadRows(rows)));
               && u == s.(stop := false, worker := Loading(rows)) && Enabled(c, u, Control(PushRows))
               && Apply(c, u, Control(PushRows)) == PushAll(u, rows).(worker := Top)
  {
    hide Faithful, PathsOf, PushAll;
  }

  lemma {:induction false} RemovalsOnlyShrink(db: Db<int>, refs: seq<CachedFileRef>)
    ensures RowsShrink(db.pending, MarkAllRemoved(db, refs).pending, {})
    ensures MarkAllRemoved(db, refs).files.Keys == db.files.Keys
    decreases |refs|
  {
    if refs != [] {
      RemovalsOnlyShrink(MarkRemoved(db, refs[0].path), refs[1..]);
    }
  }

  /** What make_room_for leaves behind: nothing changes when free space cannot be
      read; otherwise the volume was swept in victim order until the requirement
      was met or every cached file but the target had been tried. */
  ghost predicate MadeRoom(db0: Db<int>, v0: Volume, p: Path, minFree: nat, list: seq<CachedFileRef>, db1: Db<int>, v1: Volume) {
    var (v, free) := Query(v0);
    var needed := RoomNeeded(db0, p, minFree);
    if free.None? then db1 == db0 && v1 == v
    else
      var r := Sweep(list, p, needed, free.value, v, true);
      && db1 == MarkAllRemoved(db0, r.removed) && v1 == r.volume
      && (free.value < needed ==> IsVictimList(db0.files, list))
      && (r.level >= needed || r.cut == |list|)
  }

  /** make_room_for as a whole: it needs a provider and a threshold. */
  ghost predicate RoomFor(provider: bool, minFree: nat, db0: Db<int>, v0: Volume, p: Path,
                          list: seq<CachedFileRef>, db1: Db<int>, v1: Volume) {
    if !provider || minFree == 0 then db1 == db0 && v1 == v0
    else MadeRoom(db0, v0, p, minFree, list, db1, v1)
  }

  lemma RoomForIs(provider: bool, minFree: nat, db0: Db<int>, v0: Volume, p: Path,
                  list: seq<CachedFileRef>, db1: Db<int>, v1: Volume)
    ensures RoomFor(provider, minFree, db0, v0, p, list, db1, v1) <==>
              if !provider || minFree == 0 then db1 == db0 && v1 == v0
              else MadeRoom(db0, v0, p, minFree, list, db1, v1)
  {
  }

  /** The volume after one job: the engine's copy, and the removal of the cache
      file when the engine found the source missing. */
  function AfterCopy(v: Volume, p: Path, stop: bool): Volume {
    var (copied, answer) := Copy(v, p, stop);
    if answer.Reports? && answer.result.action == SourceMissing then Remove(copied, p).0 else copied
  }

  lemma AfterCopyIs(v: Volume, p: Path, stop: bool)
    ensures var (copied, answer) := Copy(v, p, stop);
            AfterCopy(v, p, stop) == if answer.Reports? && answer.result.action == SourceMissing then Remove(copied, p).0 else copied
  {
    hide Copy, Remove;
  }

  /** Every entry of the list was removed or failed to be removed, but the target. */
  ghost predicate AllTried(list: seq<CachedFileRef>, target: Path, r: Swept) {
    forall x :: x in list && x.path != target ==> x in r.removed || x in r.failed
  }

  /** Making room, seen from outside: the target keeps its row; the files that
      leave are the front of the least-recently-used order without the target and
      the failures; they leave the index with exactly their bytes; and at the end
      the measured level meets the requirement or every other cached file was
      tried, each tried only while the level was short. */
  lemma MadeRoomMeans(db0: Db<int>, v0: Volume, p: Path, minFree: nat, list: seq<CachedFileRef>, db1: Db<int>, v1: Volume)
    requires MadeRoom(db0, v0, p, minFree, list, db1, v1) && p != []
    requires Query(v0).1.Some? && Query(v0).1.value < RoomNeeded(db0, p, minFree)
    ensures var needed, r := RoomNeeded(db0, p, minFree), RoomSweep(db0, v0, p, minFree, list);
            && IsVictimList(db0.files, list)
            && (r.level >= needed || AllTried(list, p, r))
            && (forall k :: 0 <= k < r.cut ==> Sweep(list[..k], p, needed, Query(v0).1.value, Query(v0).0, true).level < needed)
            && TakesPrefix(list, p, r.removed, r.failed, r.cut)
            && CachedSet(db1.files) == CachedSet(db0.files) - RefPaths(r.removed)
            && p !in RefPaths(r.removed)
            && CachedBytes(db1.files) + TotalSize(r.removed) == CachedBytes(db0.files)
  {
    hide Query, RoomNeeded, Sweep, IsVictimList, MarkAllRemoved, CachedBytes, CachedSet, Filter, TakesPrefix;
    var needed, free, v := RoomNeeded(db0, p, minFree), Query(v0).1.value, Query(v0).0;
    var r := Sweep(list, p, needed, free, v, true);
    VictimsAreDistinct(db0.files, list);
    SweepTakesLruPrefix(list, p, needed, free, v, true);
    SweptBytesLeaveTheIndex(db0, list, p, needed, free, v, true);
    forall k | 0 <= k < r.cut
      ensures Sweep(list[..k], p, needed, free, v, true).level < needed
    {
      SweepStopsWhenMet(list, p, needed, free, v, true, k);
    }
    if r.level < needed {
      forall x | x in list && x.path != p
        ensures x in r.removed || x in r.failed
      {
        ExhaustedMeansTried(list, p, needed, free, v, true, x);
      }
    }
  }

  ghost function RoomSweep(db0: Db<int>, v0: Volume, p: Path, minFree: nat, list: seq<CachedFileRef>): Swept
    requires Query(v0).1.Some?
  {
    Sweep(list, p, RoomNeeded(db0, p, minFree), Query(v0).1.value, Query(v0).0, true)
  }

  /** Making room for one file cancels the scheduled copy of another exactly when
      that one is listed, comes up as a victim and is removed without an error. */
  lemma EvictionCancelsExactly(db0: Db<int>, v0: Volume, p: Path, minFree: nat, list: seq<CachedFileRef>, db1: Db<int>, v1: Volume, q: Path)
    requires MadeRoom(db0, v0, p, minFree, list, db1, v1) && p != [] && q != p && q in db0.pending
    requires Query(v0).1.Some? && Query(v0).1.value < RoomNeeded(db0, p, minFree)
    ensures var r := RoomSweep(db0, v0, p, minFree, list);
            && (q !in db1.pending <==> exists k :: 0 <= k < r.cut && list[k].path == q && list[k] !in r.failed)
            && (q !in db1.pending ==> q in CachedSet(db0.files))
            && (q in db1.pending ==> db1.pending[q] == db0.pending[q])
  {
    var r := RoomSweep(db0, v0, p, minFree, list);
    MadeRoomMeans(db0, v0, p, minFree, list, db1, v1);
    RemovalsDropRows(db0, r.removed);
    VictimOfPrefix(list, p, r, q);
    hide Query, RoomNeeded, Sweep, MarkAllRemoved, CachedBytes, CachedSet, TakesPrefix, IsVictimList;
    if q in RefPaths(r.removed) {
      ListedIsCached(db0.files, list, r, q);
    }
  }

  lemma VictimOfPrefix(list: seq<CachedFileRef>, p: Path, r: Swept, q: Path)
    requires r.cut <= |list| && TakesPrefix(list, p, r.removed, r.failed, r.cut) && q != p
    ensures q in RefPaths(r.removed) <==> exists k :: 0 <= k < r.cut && list[k].path == q && list[k] !in r.failed
  {
    var keep := (x: CachedFileRef) => x !in r.failed && !Spared(p, x);
    SameFilter(x => x !in r.failed && !Spared(p, x), keep, list[..r.cut]);
    FilterMembers(keep, list[..r.cut]);
    if q in RefPaths(r.removed) {
      var x :| x in r.removed && x.path == q;
      assert x in list[..r.cut];
      var k :| 0 <= k < r.cut && list[..r.cut][k] == x;
      assert list[k] == x;
    }
    forall k | 0 <= k < r.cut && list[k].path == q && list[k] !in r.failed
      ensures q in RefPaths(r.removed)
    {
      assert list[..r.cut][k] == list[k];
      assert list[k] in list[..r.cut];
      assert list[k] in r.removed;
    }
  }

  lemma ListedIsCached(files: map<Path, FileRow<int>>, list: seq<CachedFileRef>, r: Swept, q: Path)
    requires IsVictimList(files, list) && r.cut <= |list| && exists k :: 0 <= k < r.cut && list[k].path == q && list[k] !in r.failed
    ensures q in CachedSet(files)
  {
  }

  /** On a volume nothing else uses, with index sizes that agree with the disk,
      the free space really is what was measured, grows by exactly the recorded
      sizes of the victims, and no victim was superfluous; whether the volume
      could be queried in between makes no difference. */
  lemma MadeRoomExactly(db0: Db<int>, v0: Volume, p: Path, minFree: nat, list: seq<CachedFileRef>, db1: Db<int>, v1: Volume)
    requires MadeRoom(db0, v0, p, minFree, list, db1, v1) && p != []
    requires Query(v0).1.Some? && Query(v0).1.value < RoomNeeded(db0, p, minFree)
    requires Alone(v0) && RefsOnDisk(list, v0)
    ensures var needed, r := RoomNeeded(db0, p, minFree), RoomSweep(db0, v0, p, minFree, list);
            var free0 := v0.world.capacity - v0.used;
            && v1.world.capacity - v1.used == free0 + TotalSize(r.removed) == r.level
            && (r.removed != [] ==> free0 + TotalSize(r.removed[..|r.removed| - 1]) < needed)
            && r.removed == Sweep(list, p, needed, free0, v0, false).removed
  {
    hide RoomNeeded, Sweep, IsVictimList, MarkAllRemoved, CachedBytes, CachedSet, Filter;
    var needed, free, v := RoomNeeded(db0, p, minFree), Query(v0).1.value, Query(v0).0;
    VictimsAreDistinct(db0.files, list);
    AloneAfterQuery(v0, list);
    EstimateEqualsReread(list, p, needed, free, v, v0);
    SweepFreesJustEnough(list, p, needed, free, v0);
  }

  lemma AloneAfterQuery(v0: Volume, list: seq<CachedFileRef>)
    requires Alone(v0) && RefsOnDisk(list, v0)
    ensures Alone(Query(v0).0) && RefsOnDisk(list, Query(v0).0)
    ensures Query(v0).1.Some? ==> Query(v0).1.value == v0.world.capacity - v0.used
    ensures v0 == Query(v0).0.(queries := v0.queries)
  {
  }

  lemma RoomUnreadable(db0: Db<int>, v0: Volume, p: Path, minFree: nat, list: seq<CachedFileRef>)
    requires Query(v0).1.None?
    ensures MadeRoom(db0, v0, p, minFree, list, db0, Query(v0).0)
  {
  }

  lemma RoomEnough(db0: Db<int>, v0: Volume, p: Path, minFree: nat)
    requires Query(v0).1.Some? && Query(v0).1.value >= RoomNeeded(db0, p, minFree)
    ensures MadeRoom(db0, v0, p, minFree, [], db0, Query(v0).0)
  {
  }

  lemma RoomSwept(db0: Db<int>, v0: Volume, p: Path, minFree: nat, list: seq<CachedFileRef>, db1: Db<int>, v1: Volume)
    requires Query(v0).1.Some? && IsVictimList(db0.files, list)
    requires var r := Sweep(list, p, RoomNeeded(db0, p, minFree), Query(v0).1.value, Query(v0).0, true);
             db1 == MarkAllRemoved(db0, r.removed) && v1 == r.volume
    ensures MadeRoom(db0, v0, p, minFree, list, db1, v1)
  {
    hide Sweep, MarkAllRemoved, IsVictimList, RoomNeeded, Query;
    SweepReachesGoalOrEnd(list, p, RoomNeeded(db0, p, minFree), Query(v0).1.value, Query(v0).0, true);
  }

  /** The state of a make-room loop: what the whole sweep still has to do. */
  ghost predicate RoomToMake(all: Swept, finalDb: Db<int>, rest: Swept, db: Db<int>) {
    rest.volume == all.volume && rest.level == all.level && MarkAllRemoved(db, rest.removed) == finalDb
  }

  lemma RoomStep(all: Swept, finalDb: Db<int>, list: seq<CachedFileRef>, target: Path, goal: nat, level: nat, v: Volume, db: Db<int>)
    requires list != [] && level < goal && target != []
    requires RoomToMake(all, finalDb, Sweep(list, target, goal, level, v, true), db)
    ensures var (v1, error) := Remove(v, list[0].path);
            var (v2, free) := Query(v1);
            if list[0].path == target then
              RoomToMake(all, finalDb, Sweep(list[1..], target, goal, level, v, true), db)
            else if error != [] then
              RoomToMake(all, finalDb, Sweep(list[1..], target, goal, level, v1, true), db)
            else
              RoomToMake(all, finalDb,
                         Sweep(list[1..], target, goal, if free.Some? then free.value else level + list[0].size, v2, true),
                         MarkRemoved(db, list[0].path))
  {
    hide Remove, Query, MarkRemoved;
    var (v1, error) := Remove(v, list[0].path);
    var (v2, free) := Query(v1);
    var level2 := if free.Some? then free.value else level + list[0].size;
    var rest := Sweep(list[1..], target, goal, level2, v2, true);
    assert ([list[0]] + rest.removed)[1..] == rest.removed;
  }

  lemma RoomEnds(all: Swept, finalDb: Db<int>, list: seq<CachedFileRef>, target: Path, goal: nat, level: nat, v: Volume, db: Db<int>)
    requires list == [] || level >= goal
    requires RoomToMake(all, finalDb, Sweep(list, target, goal, level, v, true), db)
    ensures v == all.volume && level == all.level && db == finalDb
  {
  }

  lemma RoomStarts(list: seq<CachedFileRef>, target: Path, goal: nat, level: nat, v: Volume, db: Db<int>)
    ensures var all := Sweep(list, target, goal, level, v, true);
            RoomToMake(all, MarkAllRemoved(db, all.removed), all, db)
  {
  }

  lemma RemoveFacts(v: Volume, p: Path)
    ensures Remove(v, p).0.world == v.world
    ensures Remove(v, p).0.files == if Remove(v, p).1 == [] then v.files - {p} else v.files
  {
  }

  lemma QueryFacts(v: Volume)
    ensures Query(v).0 == v.(queries := v.queries + 1)
  {
  }

  /** Where the engine's report sends the worker. */
  function AfterReport(w: Worker, r: CopyResult, bytes: nat): Worker
    requires OnJob(w)
  {
    if r.action == Cancelled then Return(w)
    else w.(stage := if r.action == SourceMissing then Erasing
                     else if r.action == Failed then Failing(r.error, "retry")
                     else Indexing(r, bytes))
  }

  lemma AfterReportIs(w: Worker, r: CopyResult, bytes: nat)
    requires OnJob(w)
    ensures AfterReport(w, r, bytes) ==
              if r.action == Cancelled then Return(w)
              else w.(stage := if r.action == SourceMissing then Erasing
                               else if r.action == Failed then Failing(r.error, "retry")
                               else Indexing(r, bytes))
  {
    hide Return;
  }

  lemma AfterReportKeeps(w: Worker, r: CopyResult, bytes: nat)
    requires OnJob(w)
    ensures OnJob(w.(stage := Copying)) && AfterReport(w.(stage := Copying), r, bytes) == AfterReport(w, r, bytes)
  {
  }

  /** How one job of a batch ended. */
  datatype Outcome = Cached | NotCached | Aborted | Thrown(error: string)

  /** Where the worker stands after a job. An exception leaves it where it was
      raised; the caller takes the step out of the pass. */
  function AfterJob(w: Worker, outcome: Outcome): Worker
    requires OnJob(w)
  {
    match outcome
    case Aborted => Return(w)
    case Thrown(_) => w.(stage := Copying)
    case _ => NextJob(w)
  }

  lemma AfterJobIs(w: Worker, outcome: Outcome)
    requires OnJob(w)
    ensures AfterJob(w, outcome) ==
              if outcome == Aborted then Return(w) else if outcome.Thrown? then w.(stage := Copying) else NextJob(w)
  {
    hide NextJob, Return;
  }

  class PendingCopyScheduler {
    const index: CacheIndex
    const volume: CacheVolume
    const settings: Settings
    const minFree: nat
    const hasFreeSpaceProvider: bool
    var heap: set<Entry>
    var sequence: nat
    var paused: bool
    var stopRequested: bool
    ghost const s0: State
    ghost var s: State
    ghost var trace: seq<Label>

    /** The fields are the concrete part of the protocol state. */
    ghost predicate Tied()
      reads this, index, volume
    {
      && s.db == index.db && s.disk == volume.v.files
      && s.heap == heap && s.sequence == sequence && s.paused == paused && s.stop == stopRequested
    }

    ghost predicate Valid()
      reads this, index, volume
    {
      index.Valid() && Tied() && Timely(volume.v.world) && OnRun(settings, s0, trace, s)
    }

    constructor (index: CacheIndex, volume: CacheVolume, settings: Settings, minFree: nat, provider: bool)
      requires index.Valid() && [] !in index.db.pending && Timely(volume.v.world)
      ensures Valid() && fresh(this) && this.index == index && this.volume == volume && this.settings == settings
      ensures this.minFree == minFree && this.hasFreeSpaceProvider == provider
      ensures heap == {} && !paused && !stopRequested && trace == [] && s.worker.Stopped? && s.recorder.Idle?
    {
      this.index, this.volume, this.settings, this.minFree := index, volume, settings, minFree;
      hasFreeSpaceProvider := provider;
      heap, sequence, paused, stopRequested := {}, 0, false, false;
      s0 := State(index.db, volume.v.files, {}, 0, 0, false, false, Idle, Stopped);
      s := State(index.db, volume.v.files, {}, 0, 0, false, false, Idle, Stopped);
      trace := [];
    }

    /** Takes one protocol step. */
    ghost method Do(l: Label)
      requires OnRun(settings, s0, trace, s) && Enabled(settings, s, l)
      modifies this`s, this`trace
      ensures OnRun(settings, s0, trace, s)
      ensures s == Apply(settings, old(s), l) && trace == old(trace) + [l]
      ensures Completed(trace) == Completed(old(trace)) + (if l == Pass(Drop) then 1 else 0)
      ensures HeapCovers(old(s)) && ((l.Env? && l.env.StartAgain?) || (l.Pass? && (l.pass.Throw? || l.pass.Select?)) ==> Benign(old(s), l)) ==> HeapCovers(s)
    {
      hide Apply, Enabled, OnRun, HeapCovers;
      assert (trace + [l])[..|trace|] == trace;
      StepKeepsCoverage(settings, s0, trace, s, l);
      OnRunGrows(settings, s0, trace, s, l);
      s := Apply(settings, s, l);
      trace := trace + [l];
    }

    /** enqueue, without the wake-up. */
    method Enqueue(p: Path, dueUtc: int)
      modifies this`heap, this`sequence
      ensures sequence == old(sequence) + 1
      ensures heap == old(heap) + {Entry(ToSeconds(dueUtc), sequence, p)}
    {
      sequence := sequence + 1;
      heap := heap + {Entry(ToSeconds(dueUtc), sequence, p)};
    }

    method SetPaused(on: bool)
      requires Valid()
      modifies this`paused, this`s, this`trace
      ensures Valid() && paused == on && trace == old(trace) + [Env(Protocol.SetPaused(on))]
      ensures s == old(s).(paused := on) && (HeapCovers(old(s)) ==> HeapCovers(s))
    {
      hide *;
      ValidParts();
      FlagSteps(settings, s, on);
      Do(Env(Protocol.SetPaused(on)));
      paused := on;
      Assemble();
    }

    method RequestStop()
      requires Valid()
      modifies this`stopRequested, this`s, this`trace
      ensures Valid() && stopRequested && trace == old(trace) + [Env(Protocol.RequestStop)]
      ensures s == old(s).(stop := true)
    {
      hide *;
      ValidParts();
      FlagSteps(settings, s, true);
      Do(Env(Protocol.RequestStop));
      stopRequested := true;
      Assemble();
    }

    /** record_event. */
    method RecordEvent(e: AccessEvent)
      requires Valid() && s.recorder.Idle?
      requires Representable(ToSeconds(e.observedAt))
      requires e.kind in {ReadOpen, WriteClosed} ==> Representable(ToSeconds(e.observedAt + settings.copyDelay * TICKS))
      modifies this`heap, this`sequence, this`s, this`trace, index
      ensures Valid() && s.recorder.Idle? && s.worker == old(s.worker) && s.disk == old(s.disk)
      ensures e.path == [] || paused ==> index.db == old(index.db) && heap == old(heap) && trace == old(trace)
      ensures e.path != [] && !paused && e.kind == Delete ==>
                index.db == IndexModel.MarkRemoved(old(index.db), e.path) && heap == old(heap)
      ensures e.path != [] && !paused && e.kind != Delete ==>
                index.db == IndexModel.RecordAccess(old(index.db), e, ToSeconds(e.observedAt), EventDue(settings, e))
      ensures e.path != [] && !paused && e.kind in {ReadOpen, WriteClosed} ==>
                var due := ToSeconds(e.observedAt + settings.copyDelay * TICKS);
                && e.path in index.db.pending && index.db.pending[e.path].due == due
                && heap == old(heap) + {Entry(due, old(sequence) + 1, e.path)} && InHeap(s, e.path, due)
      ensures e.path != [] && !paused && e.kind in {WriteObserved, Rename} ==>
                index.db.pending == old(index.db.pending) && heap == old(heap)
      ensures HeapCovers(old(s)) ==> HeapCovers(s)
    {
      hide *;
      ValidParts();
      if e.path == [] || paused {
        return;
      }
      ghost var db0 := index.db;
      EventDueIs(settings, e);
      AccessSchedules(db0, e, ToSeconds(e.observedAt), EventDue(settings, e));
      RecorderSteps(settings, s, e);
      Do(Recorder(Accept(e)));
      if e.kind == Delete {
        index.MarkRemoved(e.path);
        Do(Recorder(Record));
        Assemble();
        return;
      }
      index.RecordAccess(e, settings.copyDelay);
      Do(Recorder(Record));
      if SchedulesCopy(e.kind) {
        PushStep(settings, s, e.path, EventDue(settings, e));
        Enqueue(e.path, e.observedAt + settings.copyDelay * TICKS);
        Do(Recorder(Push));
        EntryInHeap(s, Entry(EventDue(settings, e), sequence, e.path));
      }
      Assemble();
    }

    /** start(), up to creating the worker thread. A thread that was started and not
        joined is kept: only the stop flag is cleared. */
    method Start(nowUtc: int, joinable: bool)
      requires Valid() && (!joinable ==> s.worker.Stopped?)
      modifies this`heap, this`sequence, this`stopRequested, this`s, this`trace
      ensures Valid() && !stopRequested && s.recorder == old(s).recorder && index.db == old(index.db)
      ensures joinable ==> heap == old(heap) && s == old(s).(stop := false)
      ensures joinable && !old(stopRequested) ==> s == old(s)
      ensures !joinable ==> s.worker.Top? && old(heap) <= heap
      ensures !joinable ==> forall p :: p in index.db.pending ==> InHeap(s, p, index.db.pending[p].due)
      ensures !joinable ==> HeapCovers(s)
    {
      if joinable {
        KeepWorker();
      } else {
        StartWorker(nowUtc);
      }
    }

    /** start() with a joinable worker. */
    method KeepWorker()
      requires Valid()
      modifies this`stopRequested, this`s, this`trace
      ensures Valid() && !stopRequested && s == old(s).(stop := false)
      ensures !old(stopRequested) ==> s == old(s)
    {
      hide *;
      ValidParts();
      FlagSteps(settings, s, true);
      Do(Env(StartAgain));
      stopRequested := false;
      Assemble();
    }

    /** start() without one. */
    method StartWorker(nowUtc: int)
      requires Valid() && s.worker.Stopped?
      modifies this`heap, this`sequence, this`stopRequested, this`s, this`trace
      ensures Valid() && !stopRequested && s.worker.Top? && s.recorder == old(s).recorder
      ensures index.db == old(index.db) && old(heap) <= heap
      ensures forall p :: p in index.db.pending ==> InHeap(s, p, index.db.pending[p].due)
      ensures HeapCovers(s)
    {
      hide *;
      ValidParts();
      ghost var start := s;
      OnRunWellFormed(settings, s0, trace, s);
      var jobs := index.LoadPendingJobs(nowUtc);
      LoadSteps(settings, s, jobs);
      stopRequested := false;
      Do(Control(ClearStop));
      Do(Control(ReadRows(jobs)));
      ghost var loaded := s;
      var i := 0;
      assert jobs[0..] == jobs;
      while i < |jobs|
        invariant 0 <= i <= |jobs|
        invariant PushAll(loaded.(heap := heap, sequence := sequence), jobs[i..]) == PushAll(loaded, jobs)
        modifies this`heap, this`sequence
      {
        PushAllUnfolds(loaded.(heap := heap, sequence := sequence), jobs[i..]);
        assert jobs[i..][1..] == jobs[i + 1..];
        sequence := sequence + 1;
        heap := heap + {Entry(jobs[i].row.due, sequence, jobs[i].path)};
        i := i + 1;
      }
      PushAllUnfolds(loaded.(heap := heap, sequence := sequence), jobs[i..]);
      WellFormedHeapOf(start, loaded);
      PushAllStructure(loaded, jobs);
      Do(Control(PushRows));
      LoadedRowsAreInHeap(loaded, s, jobs);
      AllInHeapCovers(s);
      Assemble();
    }

    /** One eviction: the file first, then the index. */
    method EvictVictim(victim: Path) returns (evicted: bool)
      requires index.Valid() && OnRun(settings, s0, trace, s) && Timely(volume.v.world)
      requires s.db == index.db && s.disk == volume.v.files
      requires OnJob(s.worker) && s.worker.stage.MakingRoom? && victim != Target(s.worker)
      modifies this`s, this`trace, index, volume
      ensures index.Valid() && OnRun(settings, s0, trace, s) && Timely(volume.v.world)
      ensures s == old(s).(db := index.db, disk := volume.v.files)
      ensures volume.v == Remove(old(volume.v), victim).0 && (evicted <==> Remove(old(volume.v), victim).1 == [])
      ensures index.db == if evicted then IndexModel.MarkRemoved(old(index.db), victim) else old(index.db)
      ensures Completed(trace) == Completed(old(trace))
      ensures HeapCovers(old(s)) ==> HeapCovers(s)
      ensures volume.v.world == old(volume.v.world)
    {
      hide *;
      RemoveFacts(volume.v, victim);
      var error := volume.RemoveCachedFile(victim);
      if error != [] {
        return false;
      }
      EvictSteps(settings, s, victim);
      Do(Pass(RemoveVictim(victim)));
      index.MarkRemoved(victim);
      Do(Pass(UnlistVictim));
      return true;
    }

    /** make_room_for. */
    method MakeRoomFor(p: Path, nowUtc: int) returns (ghost list: seq<CachedFileRef>)
      requires Valid() && OnJob(s.worker) && s.worker.stage.MakingRoom? && Target(s.worker) == p && p != []
      modifies this`s, this`trace, index, volume
      ensures Valid() && s == old(s).(db := index.db, disk := volume.v.files)
      ensures RoomFor(hasFreeSpaceProvider, minFree, old(index.db), old(volume.v), p, list, index.db, volume.v)
      ensures RowsShrink(old(index.db).pending, index.db.pending, {})
      ensures index.db.files.Keys == old(index.db).files.Keys
      ensures Completed(trace) == Completed(old(trace))
      ensures HeapCovers(old(s)) ==> HeapCovers(s)
      ensures volume.v.world == old(volume.v.world)
    {
      hide *;
      list := [];
      RemovalsOnlyShrink(index.db, []);
      NothingRemoved(index.db);
      ghost var v0, db0, start, trace0 := volume.v, index.db, s, trace;
      ValidParts();
      QueryFacts(volume.v);
      RoomForIs(hasFreeSpaceProvider, minFree, db0, v0, p, list, index.db, volume.v);
      if !hasFreeSpaceProvider || minFree == 0 {
        return;
      }
      var incoming := 0;
      var record := index.FileRecord(p, nowUtc);
      if record.Some? {
        incoming := record.value.sourceSize;
      }
      var required := if incoming >= minFree then incoming else minFree;
      RoomNeededIs(index.db, p, minFree, required, incoming);
      var free := volume.FreeBytes();
      if free.None? {
        RoomUnreadable(db0, v0, p, minFree, list);
        RoomForIs(hasFreeSpaceProvider, minFree, db0, v0, p, list, index.db, volume.v);
        Assemble();
        return;
      }
      var level: nat := free.value;
      if level >= required {
        RoomEnough(db0, v0, p, minFree);
        RoomForIs(hasFreeSpaceProvider, minFree, db0, v0, p, list, index.db, volume.v);
        Assemble();
        return;
      }
      Assemble();
      var victims := index.CachedFilesByLastAccess();
      list := victims;
      EvictUntil(victims, p, required, level);
      RemovalsOnlyShrink(db0, Sweep(list, p, required, level, Query(v0).0, true).removed);
      RoomSwept(db0, v0, p, minFree, list, index.db, volume.v);
      RoomForIs(hasFreeSpaceProvider, minFree, db0, v0, p, list, index.db, volume.v);
    }

    /** The loop of make_room_for. */
    method EvictUntil(victims: seq<CachedFileRef>, p: Path, required: nat, free: nat)
      requires Valid() && OnJob(s.worker) && s.worker.stage.MakingRoom? && Target(s.worker) == p && p != []
      modifies this`s, this`trace, index, volume
      ensures Valid() && s == old(s).(db := index.db, disk := volume.v.files)
      ensures var r := Sweep(victims, p, required, free, old(volume.v), true);
              index.db == MarkAllRemoved(old(index.db), r.removed) && volume.v == r.volume
      ensures Completed(trace) == Completed(old(trace))
      ensures HeapCovers(old(s)) ==> HeapCovers(s)
      ensures volume.v.world == old(volume.v.world)
    {
      hide *;
      ValidParts();
      ghost var start, trace0, world := s, trace, volume.v.world;
      var level: nat := free;
      ghost var all := Sweep(victims, p, required, level, volume.v, true);
      ghost var finalDb := MarkAllRemoved(index.db, all.removed);
      RoomStarts(victims, p, required, level, volume.v, index.db);
      assert victims[0..] == victims;
      var i := 0;
      while i < |victims| && level < required
        invariant 0 <= i <= |victims|
        invariant index.Valid() && OnRun(settings, s0, trace, s) && Timely(volume.v.world)
        invariant s == start.(db := index.db, disk := volume.v.files)
        invariant Completed(trace) == Completed(trace0) && (HeapCovers(start) ==> HeapCovers(s)) && volume.v.world == world
        invariant RoomToMake(all, finalDb, Sweep(victims[i..], p, required, level, volume.v, true), index.db)
      {
        var victim := victims[i];
        assert victims[i..][1..] == victims[i + 1..];
        RoomStep(all, finalDb, victims[i..], p, required, level, volume.v, index.db);
        i := i + 1;
        if victim.path == p {
          continue;
        }
        WorkerKept(start, s);
        var evicted := EvictVictim(victim.path);
        if !evicted {
          continue;
        }
        QueryFacts(volume.v);
        var updated := volume.FreeBytes();
        if updated.Some? {
          level := updated.value;
        } else {
          level := level + victim.size;
        }
      }
      RoomEnds(all, finalDb, victims[i..], p, required, level, volume.v, index.db);
      Assemble();
    }

    /** The engine reported success: tell the index, drop the pending row. */
    method Publish(p: Path, result: CopyResult)
      requires Valid() && OnJob(s.worker) && s.worker.stage.Indexing? && s.worker.stage.result == result
      requires Target(s.worker) == p && Representable(ToSeconds(result.completedAt))
      modifies this`s, this`trace, index
      ensures Valid() && s == old(s).(db := index.db, worker := NextJob(old(s).worker))
      ensures index.db == RemovePending(
                IndexModel.MarkCached(old(index.db), p, result.sourceSize, result.cachedSize,
                                      result.hash, ToSeconds(result.completedAt)), p)
      ensures Completed(trace) == Completed(old(trace)) + 1
      ensures HeapCovers(old(s)) ==> HeapCovers(s)
    {
      hide *;
      ValidParts();
      ghost var w := s.worker;
      IndexStep(settings, s);
      index.MarkCached(p, result.sourceSize, result.cachedSize, result.hash, result.completedAt);
      Do(Pass(Index));
      StageKeepsJob(w, Dropping);
      DropStep(settings, s);
      index.RemovePendingJob(p);
      Do(Pass(Drop));
      Assemble();
    }

    /** An attempt failed: note the error, reschedule, push the new entry. */
    method Retry(job: Job<int>, now: int, error: string, reason: string)
      requires Valid() && OnJob(s.worker) && s.worker.stage == Failing(error, reason) && CurrentJob(s.worker) == job
      requires PassTime(now) && s.worker.now == now && job.path in index.db.files && job.path != []
      modifies this`heap, this`sequence, this`s, this`trace, index
      ensures Valid()
      ensures SettledAt(index.db.pending, job.path, ToSeconds(now))
      ensures RowsShrink(old(index.db).pending, index.db.pending, {job.path})
      ensures OthersKept(old(index.db).pending, index.db.pending, job.path)
      ensures HeapGrew(old(heap), heap, ToSeconds(now))
      ensures s == old(s).(db := index.db, heap := heap, sequence := sequence, worker := NextJob(old(s).worker))
      ensures heap == old(heap) + {Entry(RetryDue(now, job.row.retries), sequence, job.path)}
      ensures UpsertPending(IndexModel.RecordError(old(index.db), job.path, error), job.path,
                            RetryDue(now, job.row.retries), reason) == Ok(index.db)
      ensures Completed(trace) == Completed(old(trace))
      ensures HeapCovers(old(s)) ==> HeapCovers(s)
    {
      hide *;
      ValidParts();
      ghost var w, due := s.worker, RetryDue(now, job.row.retries);
      RetryIsLater(now, job.row.retries);
      TargetIs(w, job);
      RetriedIsSettled(index.db, job, error, reason, now);
      NoteErrorStep(settings, s);
      ErrorKeepsFile(s.db, job.path, error);
      index.RecordError(job.path, error);
      Do(Pass(NoteError));
      StageKeepsJob(w, Rescheduling(reason));
      UpsertSucceeds(s.db, job.path, due, reason);
      RescheduleStep(settings, s);
      var retryDue := now + RetrySeconds(job.row.retries) * TICKS;
      var upserted := index.UpsertPendingJob(job.path, retryDue, reason);
      Do(Pass(Reschedule));
      StageKeepsJob(w, Requeueing(due));
      Assemble();
      PushRetry(job.path, due, retryDue);
      OneLater(old(heap), Entry(due, sequence, job.path), ToSeconds(now));
    }

    /** The last step of a retry: push the entry of the rescheduled row. */
    method PushRetry(p: Path, ghost due: int, dueUtc: int)
      requires Valid() && OnJob(s.worker) && s.worker.stage == Requeueing(due) && Target(s.worker) == p
      requires ToSeconds(dueUtc) == due
      modifies this`heap, this`sequence, this`s, this`trace
      ensures Valid() && heap == old(heap) + {Entry(due, sequence, p)}
      ensures s == old(s).(heap := heap, sequence := sequence, worker := NextJob(old(s).worker))
      ensures Completed(trace) == Completed(old(trace)) && (HeapCovers(old(s)) ==> HeapCovers(s))
    {
      hide *;
      ValidParts();
      RequeueStep(settings, s);
      PushEntryIs(s, p, due);
      Enqueue(p, dueUtc);
      Do(Pass(Requeue));
      Assemble();
    }

    /** The source is gone: remove the stale cache file, or retry that later. */
    method CleanUp(job: Job<int>, now: int)
      requires Valid() && OnJob(s.worker) && s.worker.stage.Erasing? && CurrentJob(s.worker) == job
      requires PassTime(now) && s.worker.now == now && job.path in index.db.files && job.path != []
      modifies this`heap, this`sequence, this`s, this`trace, index, volume
      ensures Valid()
      ensures s == old(s).(db := index.db, disk := volume.v.files, heap := heap, sequence := sequence,
                           worker := NextJob(old(s).worker))
      ensures SettledAt(index.db.pending, job.path, ToSeconds(now))
      ensures RowsShrink(old(index.db).pending, index.db.pending, {job.path})
      ensures OthersKept(old(index.db).pending, index.db.pending, job.path)
      ensures HeapGrew(old(heap), heap, ToSeconds(now))
      ensures volume.v == Remove(old(volume.v), job.path).0
      ensures Remove(old(volume.v), job.path).1 == [] ==>
                index.db == IndexModel.MarkRemoved(old(index.db), job.path) && heap == old(heap)
      ensures Completed(trace) == Completed(old(trace))
      ensures HeapCovers(old(s)) ==> HeapCovers(s)
      ensures volume.v.world == old(volume.v.world)
    {
      hide *;
      ValidParts();
      ghost var w := s.worker;
      TargetIs(w, job);
      RemoveFacts(volume.v, job.path);
      SameHeap(heap, ToSeconds(now));
      var error := volume.RemoveCachedFile(job.path);
      EraseStep(settings, s, error);
      Do(Pass(EraseCopy(error)));
      if error == [] {
        StageKeepsJob(w, Unlisting);
        UnlistStep(settings, s);
        RemovedIsSettled(index.db, job.path, ToSeconds(now));
        index.MarkRemoved(job.path);
        Do(Pass(Unlist));
        Assemble();
      } else {
        StageKeepsJob(w, Failing(error, "remove stale cache"));
        Assemble();
        Retry(job, now, error, "remove stale cache");
      }
    }

    /** The body of run_due_once's loop for one job. */
    method Attempt(job: Job<int>, now: int)
      returns (outcome: Outcome, ghost list: seq<CachedFileRef>, ghost roomDb: Db<int>, ghost room: Volume)
      requires Valid() && OnJob(s.worker) && s.worker.stage.MakingRoom? && CurrentJob(s.worker) == job
      requires PassTime(now) && s.worker.now == now
      modifies this`heap, this`sequence, this`s, this`trace, index, volume
      ensures Valid()
      ensures s == old(s).(db := index.db, disk := volume.v.files, heap := heap, sequence := sequence,
                           worker := AfterJob(old(s).worker, outcome))
      ensures RoomFor(hasFreeSpaceProvider, minFree, old(index.db), old(volume.v), job.path, list, roomDb, room)
      ensures volume.v == AfterCopy(room, job.path, stopRequested)
      ensures outcome == Aborted ==> stopRequested
      ensures outcome.Thrown? ==> index.db == roomDb && heap == old(heap) && !NeverThrows(old(volume.v.world))
      ensures outcome == Cached || outcome == NotCached ==> SettledAt(index.db.pending, job.path, ToSeconds(now))
      ensures outcome == Cached ==> IsCached(index.db, job.path)
      ensures RowsShrink(old(index.db).pending, index.db.pending, {job.path})
      ensures OthersKept(roomDb.pending, index.db.pending, job.path)
      ensures HeapGrew(old(heap), heap, ToSeconds(now))
      ensures Completed(trace) == Completed(old(trace)) + (if outcome == Cached then 1 else 0)
      ensures HeapCovers(old(s)) ==> HeapCovers(s)
      ensures volume.v.world == old(volume.v.world)
    {
      hide *;
      ValidParts();
      OnRunWellFormed(settings, s0, trace, s);
      TargetIsNamed(s, job);
      ghost var w, db0 := s.worker, index.db;
      SameHeap(heap, ToSeconds(now));
      list := MakeRoomFor(job.path, now);
      ValidParts();
      roomDb, room := index.db, volume.v;
      AfterCopyIs(room, job.path, stopRequested);
      NothingChanged(index.db.pending, job.path);
      var answer := CallEngine(job);
      if answer.Raises? {
        outcome := Thrown(answer.message);
        AfterJobIs(w, outcome);
        WiderShrink(db0.pending, roomDb.pending, job.path);
        return;
      }
      AfterReportIs(w, answer.result, answer.bytes);
      if answer.result.action == Cancelled {
        outcome := Aborted;
        AfterJobIs(w, outcome);
        WiderShrink(db0.pending, roomDb.pending, job.path);
        return;
      }
      StageKeepsJob(w, s.worker.stage);
      outcome := Settle(job, now, answer.result, answer.bytes);
      AfterJobIs(w, outcome);
      ShrinkTwice(db0.pending, roomDb.pending, index.db.pending, job.path);
    }

    /** The call of copy_and_hash. */
    method CallEngine(job: Job<int>) returns (answer: EngineAnswer)
      requires Valid() && OnJob(s.worker) && s.worker.stage.MakingRoom? && CurrentJob(s.worker) == job
      modifies this`s, this`trace, volume
      ensures Valid() && (volume.v, answer) == Copy(old(volume.v), job.path, stopRequested)
      ensures s == old(s).(disk := volume.v.files,
                           worker := if answer.Raises? then old(s).worker.(stage := Copying)
                                     else AfterReport(old(s).worker, answer.result, answer.bytes))
      ensures answer.Raises? ==> !NeverThrows(volume.v.world)
      ensures answer.Reports? && answer.result.action == Cancelled ==> stopRequested
      ensures answer.Reports? && Succeeded(answer.result.action) ==> Representable(ToSeconds(answer.result.completedAt))
      ensures Completed(trace) == Completed(old(trace))
      ensures HeapCovers(old(s)) ==> HeapCovers(s)
      ensures volume.v.world == old(volume.v.world)
    {
      hide *;
      ValidParts();
      ghost var w := s.worker;
      TargetIs(w, job);
      StartCopyStep(settings, s);
      Do(Pass(StartCopy));
      StageKeepsJob(w, Copying);
      EngineReportIsPossible(s, volume.v, job.path);
      EngineReportIsTimely(volume.v, job.path, stopRequested);
      answer := volume.CopyAndHash(job.path, stopRequested);
      if answer.Reports? {
        FinishCopyStep(settings, s, answer.result, answer.bytes);
        FinishedAs(s, answer.result, answer.bytes);
        AfterReportKeeps(w, answer.result, answer.bytes);
        Do(Pass(FinishCopy(answer.result, answer.bytes)));
      }
      Assemble();
    }

    /** What follows a report that is not a cancellation. */
    method Settle(job: Job<int>, now: int, result: CopyResult, ghost bytes: nat) returns (outcome: Outcome)
      requires Valid() && OnJob(s.worker) && CurrentJob(s.worker) == job && PassTime(now) && s.worker.now == now
      requires job.path in index.db.files && job.path != []
      requires result.action != Cancelled && (Succeeded(result.action) ==> Representable(ToSeconds(result.completedAt)))
      requires s.worker.stage == if result.action == SourceMissing then Erasing
                                 else if result.action == Failed then Failing(result.error, "retry")
                                 else Indexing(result, bytes)
      modifies this`heap, this`sequence, this`s, this`trace, index, volume
      ensures Valid()
      ensures s == old(s).(db := index.db, disk := volume.v.files, heap := heap, sequence := sequence,
                           worker := NextJob(old(s).worker))
      ensures outcome == (if Succeeded(result.action) then Cached else NotCached)
      ensures volume.v == if result.action == SourceMissing then Remove(old(volume.v), job.path).0 else old(volume.v)
      ensures SettledAt(index.db.pending, job.path, ToSeconds(now))
      ensures outcome == Cached ==> IsCached(index.db, job.path)
      ensures RowsShrink(old(index.db).pending, index.db.pending, {job.path})
      ensures OthersKept(old(index.db).pending, index.db.pending, job.path)
      ensures HeapGrew(old(heap), heap, ToSeconds(now))
      ensures Completed(trace) == Completed(old(trace)) + (if outcome == Cached then 1 else 0)
      ensures HeapCovers(old(s)) ==> HeapCovers(s)
      ensures volume.v.world == old(volume.v.world)
    {
      hide *;
      ValidParts();
      TargetIs(s.worker, job);
      SucceededIs(result.action);
      SameHeap(heap, ToSeconds(now));
      if result.action == SourceMissing {
        outcome := NotCached;
        CleanUp(job, now);
      } else if result.action == Failed {
        outcome := NotCached;
        Retry(job, now, result.error, "retry");
      } else {
        outcome := Cached;
        PublishedIsSettled(index.db, job.path, result, ToSeconds(now));
        Publish(job.path, result);
      }
    }

    /** run_due_once. An exception of the engine leaves the pass; in a direct call
        it reaches the caller, in worker_loop it is caught there. */
    method RunDueOnce(now: int) returns (completed: nat, thrown: Option<string>, ghost jobs: seq<Job<int>>)
      requires Valid() && s.worker.Due? && PassTime(now)
      requires s.worker.entry.Some? ==> s.worker.since <= now <= s.clock
      modifies this`heap, this`sequence, this`s, this`trace, index, volume
      ensures Valid()
      ensures s == old(s).(db := index.db, disk := volume.v.files, heap := heap, sequence := sequence, worker := s.worker)
      ensures if thrown.Some? && old(s).worker.entry.Some?
              then OnJob(s.worker) && s.worker.stage.Copying? && s.worker.entry == old(s).worker.entry
              else s.worker == if old(s).worker.entry.Some? then Top else Stopped
      ensures IsDueSelection(old(index.db).pending, ToSeconds(now), settings.batch, jobs)
      ensures !stopRequested && thrown.None? ==>
                PassEffect(old(index.db).pending, index.db.pending, ToSeconds(now), settings.batch)
      ensures RowsShrink(old(index.db).pending, index.db.pending, PathsOf(jobs))
      ensures HeapGrew(old(heap), heap, ToSeconds(now))
      ensures Completed(trace) == Completed(old(trace)) + completed && completed <= |jobs|
      ensures thrown.Some? ==> !NeverThrows(old(volume.v.world))
      ensures HeapCovers(old(s)) && Benign(old(s), Pass(Select(now, jobs))) && thrown.None? ==> HeapCovers(s)
      ensures volume.v.world == old(volume.v.world)
    {
      hide *;
      ValidParts();
      PassTimeIs(now);
      ghost var entry, db0 := s.worker.entry, index.db;
      var batch := index.DueJobs(now, settings.batch);
      jobs := batch;
      SelectStep(settings, s, now, jobs);
      Do(Pass(Select(now, jobs)));
      Assemble();
      var aborted;
      completed, thrown, aborted := RunBatch(batch, now);
      ValidParts();
      if thrown.Some? {
        if entry.None? {
          ThrowStep(settings, s, thrown.value);
          Do(Pass(Throw(thrown.value)));
          Assemble();
        }
      } else if !aborted {
        EndPassStep(settings, s);
        Do(Pass(EndPass));
        Assemble();
        EffectOf(db0.pending, index.db.pending, ToSeconds(now), settings.batch, jobs);
      }
    }

    /** The loop of run_due_once. */
    method RunBatch(batch: seq<Job<int>>, now: int) returns (completed: nat, thrown: Option<string>, aborted: bool)
      requires Valid() && s.worker.Passing? && s.worker == Passing(s.worker.entry, now, batch, 0, MakingRoom) && PassTime(now)
      modifies this`heap, this`sequence, this`s, this`trace, index, volume
      ensures Valid()
      ensures s == old(s).(db := index.db, disk := volume.v.files, heap := heap, sequence := sequence, worker := s.worker)
      ensures if aborted then stopRequested && thrown.None? && s.worker == if old(s).worker.entry.Some? then Top else Stopped
              else if thrown.Some? then OnJob(s.worker) && s.worker.stage.Copying? && s.worker.entry == old(s).worker.entry
              else s.worker == Passing(old(s).worker.entry, now, batch, |batch|, MakingRoom)
      ensures !aborted && thrown.None? ==>
                forall k :: 0 <= k < |batch| ==> SettledAt(index.db.pending, batch[k].path, ToSeconds(now))
      ensures RowsShrink(old(index.db).pending, index.db.pending, PathsOf(batch))
      ensures HeapGrew(old(heap), heap, ToSeconds(now))
      ensures Completed(trace) == Completed(old(trace)) + completed && completed <= |batch|
      ensures thrown.Some? ==> !NeverThrows(old(volume.v.world))
      ensures HeapCovers(old(s)) ==> HeapCovers(s)
      ensures volume.v.world == old(volume.v.world)
    {
      hide *;
      ValidParts();
      ghost var entry, rows0, heap0, start := s.worker.entry, index.db.pending, heap, s;
      completed, thrown, aborted := 0, None, false;
      SameHeap(heap, ToSeconds(now));
      NothingTouched(rows0, PathsOf(batch));
      var i := 0;
      while i < |batch| && !aborted && thrown.None?
        decreases |batch| - i, !aborted, thrown.None?
        invariant 0 <= i <= |batch| && Valid() && completed <= i
        invariant s == start.(db := index.db, disk := volume.v.files, heap := heap, sequence := sequence, worker := s.worker)
        invariant s.worker ==
                    if aborted then (if entry.Some? then Top else Stopped)
                    else Passing(entry, now, batch, i, if thrown.Some? then Copying else MakingRoom)
        invariant aborted ==> stopRequested && thrown.None?
        invariant thrown.Some? ==> i < |batch| && !NeverThrows(old(volume.v.world))
        invariant !aborted && thrown.None? ==> forall k :: 0 <= k < i ==> SettledAt(index.db.pending, batch[k].path, ToSeconds(now))
        invariant RowsShrink(rows0, index.db.pending, PathsOf(batch))
        invariant HeapGrew(heap0, heap, ToSeconds(now))
        invariant Completed(trace) == Completed(old(trace)) + completed
        invariant (HeapCovers(start) ==> HeapCovers(s)) && volume.v.world == old(volume.v.world)
      {
        ghost var before, heapBefore := index.db.pending, heap;
        OnCurrentJob(s.worker, entry, now, batch, i);
        AfterCurrentJob(s.worker, entry, now, batch, i);
        var outcome; ghost var list, roomDb, room;
        outcome, list, roomDb, room := Attempt(batch[i], now);
        PathIn(batch, i);
        ShrinkInside(rows0, before, index.db.pending, batch[i].path, PathsOf(batch));
        GrowTwice(heap0, heapBefore, heap, ToSeconds(now));
        if outcome == Aborted {
          aborted := true;
        } else if outcome.Thrown? {
          thrown := Some(outcome.error);
        } else {
          EarlierStaySettled(before, index.db.pending, batch, i, ToSeconds(now));
          if outcome == Cached {
            completed := completed + 1;
          }
          i := i + 1;
        }
      }
      if thrown.Some? {
        ThrownWorker(s.worker, entry, now, batch, i);
      }
    }

    /** worker_loop while the clock stands at `now`: it returns where the thread
        would block or exit. When coverage held, the due rows fit a batch and the
        engine does not throw, coverage still holds and no row is due. */
    method WorkerLoop(now: int)
      requires Valid() && s.worker.Top? && now >= s.clock && PassTime(now)
      modifies this`heap, this`sequence, this`s, this`trace, index, volume
      ensures Valid()
      ensures s.worker == if stopRequested then Stopped else Top
      ensures s == old(s).(db := index.db, disk := volume.v.files, heap := heap, sequence := sequence,
                           clock := now, worker := s.worker)
      ensures stopRequested || paused ==> index.db == old(index.db) && heap == old(heap)
      ensures !stopRequested && !paused ==> forall e :: e in heap ==> e.due > ToSeconds(now)
      ensures old(HeapCovers(s)) && |DueSet(old(index.db).pending, ToSeconds(now))| <= settings.batch
              && NeverThrows(old(volume.v.world)) ==>
                && HeapCovers(s)
                && (!stopRequested && !paused && s.recorder.Idle? ==> DueSet(index.db.pending, ToSeconds(now)) == {})
    {
      hide *;
      ValidParts();
      ghost var start := s;
      PassTimeIs(now);
      ghost var calm := HeapCovers(s) && |DueSet(index.db.pending, ToSeconds(now))| <= settings.batch && NeverThrows(volume.v.world);
      ghost var world := volume.v.world;
      LoopSteps(settings, s, now);
      Do(Env(Tick(now)));
      Assemble();
      if stopRequested {
        LoopSteps(settings, s, now);
        Do(Control(SeeStop));
        Assemble();
        return;
      }
      while true
        invariant Valid() && s.worker.Top? && !stopRequested
        invariant s == start.(db := index.db, disk := volume.v.files, heap := heap, sequence := sequence, clock := now)
        invariant paused ==> index.db == old(index.db) && heap == old(heap)
        invariant volume.v.world == world
        invariant calm ==> HeapCovers(s) && |DueSet(index.db.pending, ToSeconds(now))| <= settings.batch && NeverThrows(world)
        decreases |DueEntries(heap, ToSeconds(now))|
      {
        ValidParts();
        LoopSteps(settings, s, now);
        Do(Control(PassStop));
        if paused {
          Do(Control(SeePause));
          Assemble();
          return;
        }
        Do(Control(PassPause));
        if heap == {} {
          Do(Control(Wait));
          Assemble();
          CoveredMeansDrained(s, ToSeconds(now));
          return;
        }
        EarliestEntryExists(heap);
        var next :| next in heap && forall o :: o in heap ==> !Later(next, o);
        if next.due * TICKS > now {
          Do(Control(Wait));
          Assemble();
          NothingElseIsDue(heap, next, now);
          CoveredMeansDrained(s, ToSeconds(now));
          return;
        }
        Assemble();
        TakeEntry(next, now);
      }
    }

    /** worker_loop from popping an entry that is due. */
    method TakeEntry(next: Entry, now: int)
      requires Valid() && s.worker == Ready && s.clock == now && PassTime(now) && !stopRequested && !paused
      requires next in heap && (forall o :: o in heap ==> !Later(next, o)) && next.due * TICKS <= now
      modifies this`heap, this`sequence, this`s, this`trace, index, volume
      ensures Valid() && volume.v.world == old(volume.v.world)
      ensures s == old(s).(db := index.db, disk := volume.v.files, heap := heap, sequence := sequence, worker := Top)
      ensures |DueEntries(heap, ToSeconds(now))| < |DueEntries(old(heap), ToSeconds(now))|
      ensures HeapCovers(old(s)) && |DueSet(old(index.db).pending, ToSeconds(now))| <= settings.batch
              && NeverThrows(old(volume.v.world)) ==>
                HeapCovers(s) && |DueSet(index.db.pending, ToSeconds(now))| <= settings.batch
    {
      hide *;
      ValidParts();
      PassTimeIs(now);
      DueEntryGoes(heap, next, now);
      PopSteps(settings, s, next);
      heap := heap - {next};
      ghost var popped := heap;
      Do(Control(Pop(next)));
      Do(Control(StillActive));
      Assemble();
      var live := CheckEntry(next, now);
      if live {
        ServeEntry(next, now);
        NoNewDueEntries(popped, heap, ToSeconds(now));
      }
    }

    /** The re-check of a popped entry against the index. */
    method CheckEntry(next: Entry, now: int) returns (live: bool)
      requires Valid() && s.worker.Checking? && s.worker.held == next
      modifies this`s, this`trace
      ensures Valid() && live == RowDueAt(old(s), next.path, next.due)
      ensures s == old(s).(worker := if live then Worker.Due(Some(next), old(s).worker.since) else Top)
      ensures HeapCovers(old(s)) ==> HeapCovers(s)
    {
      hide *;
      ValidParts();
      CheckSteps(settings, s, next);
      RowDueAtIs(s, next);
      var current := index.PendingJob(next.path, now);
      live := current.Some? && current.value.row.due == next.due;
      if live {
        Do(Control(Match));
      } else {
        Do(Control(Skip));
      }
      Assemble();
    }

    /** The guarded call of run_due_once for a live entry. */
    method ServeEntry(next: Entry, now: int)
      requires Valid() && s.worker == Worker.Due(Some(next), now) && s.clock == now && PassTime(now) && !stopRequested
      requires next.due * TICKS <= now
      modifies this`heap, this`sequence, this`s, this`trace, index, volume
      ensures Valid() && volume.v.world == old(volume.v.world)
      ensures s == old(s).(db := index.db, disk := volume.v.files, heap := heap, sequence := sequence, worker := Top)
      ensures HeapGrew(old(heap), heap, ToSeconds(now))
      ensures HeapCovers(old(s)) && |DueSet(old(index.db).pending, ToSeconds(now))| <= settings.batch
              && NeverThrows(old(volume.v.world)) ==>
                HeapCovers(s) && |DueSet(index.db.pending, ToSeconds(now))| <= settings.batch
    {
      hide *;
      ValidParts();
      PassTimeIs(now);
      ghost var db0, before := index.db, s;
      var completed, thrown; ghost var jobs;
      completed, thrown, jobs := RunDueOnce(now);
      PoppedIsSelected(before, next, now, settings.batch, jobs);
      if thrown.Some? {
        ValidParts();
        ThrowStep(settings, s, thrown.value);
        index.RecordError(next.path, thrown.value);
        Do(Pass(Throw(thrown.value)));
        Assemble();
      } else {
        PassKeepsFew(db0.pending, index.db.pending, ToSeconds(now), settings.batch);
      }
    }

    // Small facts about this object, for methods that keep its definitions hidden.

    lemma ValidParts()
      requires Valid()
      ensures index.Valid() && OnRun(settings, s0, trace, s) && Timely(volume.v.world)
      ensures s.db == index.db && s.disk == volume.v.files
      ensures s.heap == heap && s.sequence == sequence && s.paused == paused && s.stop == stopRequested
    {
      hide OnRun, Timely;
    }

    lemma Assemble()
      requires index.Valid() && OnRun(settings, s0, trace, s) && Timely(volume.v.world)
      requires s.db == index.db && s.disk == volume.v.files
      requires s.heap == heap && s.sequence == sequence && s.paused == paused && s.stop == stopRequested
      ensures Valid()
    {
      hide OnRun, Timely;
    }
  }

  // ---------- draining ----------

  /** What one undisturbed pass does to pending_jobs. */
  ghost predicate PassEffect(before: map<Path, JobRow<int>>, after: map<Path, JobRow<int>>, now: int, batch: int) {
    exists jobs: seq<Job<int>> :: IsDueSelection(before, now, batch, jobs) && AllSettled(after, jobs, now)
                   && RowsShrink(before, after, PathsOf(jobs))
  }

  predicate AllSettled(pending: map<Path, JobRow<int>>, jobs: seq<Job<int>>, now: int) {
    forall k :: 0 <= k < |jobs| ==> SettledAt(pending, jobs[k].path, now)
  }

  lemma SettledAreGone(after: map<Path, JobRow<int>>, jobs: seq<Job<int>>, now: int)
    requires AllSettled(after, jobs, now)
    ensures forall p :: p in PathsOf(jobs) ==> p !in DueSet(after, now)
  {
    PathAt(jobs);
    forall p | p in PathsOf(jobs)
      ensures p !in DueSet(after, now)
    {
      var k :| 0 <= k < |jobs| && jobs[k].path == p;
      assert SettledAt(after, jobs[k].path, now);
    }
  }

  /** A pass leaves due only what was due and was not selected. */
  lemma PassLeavesOthers(before: map<Path, JobRow<int>>, after: map<Path, JobRow<int>>, now: int, batch: int)
    returns (jobs: seq<Job<int>>)
    requires PassEffect(before, after, now, batch)
    ensures IsDueSelection(before, now, batch, jobs)
    ensures DueSet(after, now) <= DueSet(before, now) - PathsOf(jobs)
  {
    jobs :| IsDueSelection(before, now, batch, jobs) && AllSettled(after, jobs, now)
            && RowsShrink(before, after, PathsOf(jobs));
    SettledAreGone(after, jobs, now);
    forall p | p in DueSet(after, now)
      ensures p in DueSet(before, now) - PathsOf(jobs)
    {
    }
  }

  /** A pass takes a full batch off the due rows, or all of them. */
  lemma PassLowersDueCount(before: map<Path, JobRow<int>>, after: map<Path, JobRow<int>>, now: int, batch: int)
    requires PassEffect(before, after, now, batch) && batch > 0
    ensures |DueSet(after, now)| <= Max(0, |DueSet(before, now)| - batch)
  {
    var jobs := PassLeavesOthers(before, after, now, batch);
    JobCount(before, jobs);
    SubsetCount(DueSet(after, now), DueSet(before, now) - PathsOf(jobs));
  }

  /** n due rows are gone after ceil(n / due_batch_size) passes at the same time,
      whatever the engine reports and whatever is evicted on the way. */
  lemma {:induction false} PassesDrainDueRows(tables: seq<map<Path, JobRow<int>>>, now: int, batch: int)
    requires |tables| >= 1 && batch > 0
    requires forall k :: 0 <= k < |tables| - 1 ==> PassEffect(tables[k], tables[k + 1], now, batch)
    ensures |DueSet(tables[|tables| - 1], now)| <= Max(0, |DueSet(tables[0], now)| - (|tables| - 1) * batch)
    ensures |tables| - 1 >= (|DueSet(tables[0], now)| + batch - 1) / batch ==> DueSet(tables[|tables| - 1], now) == {}
  {
    hide DueSet, PassEffect;
    var last := |tables| - 1;
    if last > 0 {
      PassesDrainDueRows(tables[..last], now, batch);
      PassLowersDueCount(tables[last - 1], tables[last], now, batch);
      assert last * batch == (last - 1) * batch + batch;
    }
    var n := |DueSet(tables[0], now)|;
    if last >= (n + batch - 1) / batch {
      CeilCovers(n, batch, last);
    }
  }

  lemma CeilCovers(n: nat, batch: nat, k: nat)
    requires batch > 0 && k >= (n + batch - 1) / batch
    ensures n <= k * batch
  {
    var q := (n + batch - 1) / batch;
    assert q * batch + (n + batch - 1) % batch == n + batch - 1;
    assert k * batch >= q * batch by {
      assert (k - q) * batch >= 0;
    }
  }

  lemma EffectOf(before: map<Path, JobRow<int>>, after: map<Path, JobRow<int>>, now: int, batch: int, jobs: seq<Job<int>>)
    requires IsDueSelection(before, now, batch, jobs)
    requires forall k :: 0 <= k < |jobs| ==> SettledAt(after, jobs[k].path, now)
    requires RowsShrink(before, after, PathsOf(jobs))
    ensures PassEffect(before, after, now, batch)
  {
    hide IsDueSelection, SettledAt, RowsShrink, PathsOf;
    assert AllSettled(after, jobs, now);
  }

  // ---------- facts used by the loops above ----------

  /** Entries due at or before `second`. */
  function DueEntries(heap: set<Entry>, second: int): set<Entry> {
    set e | e in heap && e.due <= second
  }

  lemma SelectStep(c: Settings, s: State, now: int, jobs: seq<Job<int>>)
    requires s.worker.Due? && (s.worker.entry.Some? ==> s.worker.since <= now <= s.clock)
    requires IsDueSelection(s.db.pending, ToSeconds(now), c.batch, jobs)
    ensures Enabled(c, s, Pass(Select(now, jobs)))
    ensures Apply(c, s, Pass(Select(now, jobs))) == s.(worker := Passing(s.worker.entry, now, jobs, 0, MakingRoom))
  {
    hide IsDueSelection, ToSeconds;
  }

  lemma EndPassStep(c: Settings, s: State)
    requires s.worker.Passing? && s.worker.next == |s.worker.jobs|
    ensures Enabled(c, s, Pass(EndPass))
    ensures Apply(c, s, Pass(EndPass)) == s.(worker := if s.worker.entry.Some? then Top else Stopped)
  {
  }

  lemma OnCurrentJob(w: Worker, entry: Option<Entry>, now: int, jobs: seq<Job<int>>, i: nat)
    requires w == Passing(entry, now, jobs, i, MakingRoom) && i < |jobs|
    ensures OnJob(w) && CurrentJob(w) == jobs[i]
    ensures NextJob(w) == Passing(entry, now, jobs, i + 1, MakingRoom)
    ensures Return(w) == if entry.Some? then Top else Stopped
  {
  }

  lemma AfterCurrentJob(w: Worker, entry: Option<Entry>, now: int, jobs: seq<Job<int>>, i: nat)
    requires w == Passing(entry, now, jobs, i, MakingRoom) && i < |jobs|
    ensures OnJob(w)
    ensures AfterJob(w, Cached) == AfterJob(w, NotCached) == Passing(entry, now, jobs, i + 1, MakingRoom)
    ensures AfterJob(w, Aborted) == if entry.Some? then Top else Stopped
    ensures forall error :: AfterJob(w, Thrown(error)) == Passing(entry, now, jobs, i, Copying)
  {
  }

  lemma ThrownWorker(w: Worker, entry: Option<Entry>, now: int, jobs: seq<Job<int>>, i: nat)
    requires w == Passing(entry, now, jobs, i, Copying) && i < |jobs|
    ensures OnJob(w) && w.stage.Copying? && w.entry == entry
  {
  }

  /** When every due row fits the batch, the query returns the popped path. */
  lemma PoppedIsSelected(s: State, next: Entry, now: int, batch: int, jobs: seq<Job<int>>)
    requires s.worker == Worker.Due(Some(next), now) && next.due * TICKS <= now && now >= 0
    requires IsDueSelection(s.db.pending, ToSeconds(now), batch, jobs)
    ensures |DueSet(s.db.pending, ToSeconds(now))| <= batch ==> Benign(s, Pass(Select(now, jobs)))
  {
    if |DueSet(s.db.pending, ToSeconds(now))| <= batch {
      WholeSelection(s.db.pending, ToSeconds(now), batch, jobs);
      DueEntryIsDue(next.due, now, now);
      hide IsDueSelection, ToSeconds;
    }
  }

  lemma PassKeepsFew(before: map<Path, JobRow<int>>, after: map<Path, JobRow<int>>, now: int, batch: int)
    requires PassEffect(before, after, now, batch)
    ensures |DueSet(before, now)| <= batch ==> |DueSet(after, now)| <= batch
  {
    var jobs := PassLeavesOthers(before, after, now, batch);
    SubsetCount(DueSet(after, now), DueSet(before, now));
  }

  lemma PathIn(jobs: seq<Job<int>>, i: nat)
    requires i < |jobs|
    ensures jobs[i].path in PathsOf(jobs)
  {
    PathAt(jobs);
  }

  lemma NothingTouched(rows: map<Path, JobRow<int>>, touched: set<Path>)
    ensures RowsShrink(rows, rows, touched)
  {
  }

  lemma ShrinkInside(before: map<Path, JobRow<int>>, middle: map<Path, JobRow<int>>, after: map<Path, JobRow<int>>, p: Path, touched: set<Path>)
    requires RowsShrink(before, middle, touched) && RowsShrink(middle, after, {p}) && p in touched
    ensures RowsShrink(before, after, touched)
  {
  }

  lemma GrowTwice(before: set<Entry>, middle: set<Entry>, after: set<Entry>, second: int)
    requires HeapGrew(before, middle, second) && HeapGrew(middle, after, second)
    ensures HeapGrew(before, after, second)
  {
  }

  lemma EarlierStaySettled(before: map<Path, JobRow<int>>, after: map<Path, JobRow<int>>, jobs: seq<Job<int>>, i: nat, second: int)
    requires i < |jobs| && RowsShrink(before, after, {jobs[i].path}) && SettledAt(after, jobs[i].path, second)
    requires forall k :: 0 <= k < i ==> SettledAt(before, jobs[k].path, second)
    ensures forall k :: 0 <= k < i + 1 ==> SettledAt(after, jobs[k].path, second)
  {
    forall k | 0 <= k < i + 1
      ensures SettledAt(after, jobs[k].path, second)
    {
      if jobs[k].path != jobs[i].path {
        assert SettledAt(before, jobs[k].path, second);
      }
    }
  }

  lemma FlagSteps(c: Settings, s: State, on: bool)
    ensures Enabled(c, s, Env(Protocol.SetPaused(on))) && Apply(c, s, Env(Protocol.SetPaused(on))) == s.(paused := on)
    ensures Enabled(c, s, Env(Protocol.RequestStop)) && Apply(c, s, Env(Protocol.RequestStop)) == s.(stop := true)
    ensures Enabled(c, s, Env(StartAgain)) && Apply(c, s, Env(StartAgain)) == s.(stop := false)
  {
  }

  lemma LoopSteps(c: Settings, s: State, now: int)
    ensures now >= s.clock ==> Enabled(c, s, Env(Tick(now))) && Apply(c, s, Env(Tick(now))) == s.(clock := now)
    ensures s.worker.Top? && s.stop ==>
              Enabled(c, s, Control(SeeStop)) && Apply(c, s, Control(SeeStop)) == s.(worker := Stopped)
    ensures s.worker.Top? && !s.stop ==>
              var awake := s.(worker := Awake);
              var ready := s.(worker := Ready);
              && Enabled(c, s, Control(PassStop)) && Apply(c, s, Control(PassStop)) == awake
              && (s.paused ==> Enabled(c, awake, Control(SeePause)) && Apply(c, awake, Control(SeePause)) == s)
              && (!s.paused ==> Enabled(c, awake, Control(PassPause)) && Apply(c, awake, Control(PassPause)) == ready)
              && Enabled(c, ready, Control(Wait)) && Apply(c, ready, Control(Wait)) == s
  {
  }

  lemma PopSteps(c: Settings, s: State, e: Entry)
    requires s.worker.Ready? && !s.paused && e in s.heap && (forall o :: o in s.heap ==> !Later(e, o)) && e.due * TICKS <= s.clock
    ensures Enabled(c, s, Control(Pop(e)))
    ensures var t := Apply(c, s, Control(Pop(e)));
            && t == s.(heap := s.heap - {e}, worker := Popped(e, s.clock)) && Enabled(c, t, Control(StillActive))
            && Apply(c, t, Control(StillActive)) == s.(heap := s.heap - {e}, worker := Checking(e, s.clock))
  {
    hide Later;
  }

  lemma RowDueAtIs(s: State, e: Entry)
    ensures RowDueAt(s, e.path, e.due) <==> e.path in s.db.pending && s.db.pending[e.path].due == e.due
  {
  }

  lemma CheckSteps(c: Settings, s: State, e: Entry)
    requires s.worker.Checking? && s.worker.held == e
    ensures var live := e.path in s.db.pending && s.db.pending[e.path].due == e.due;
            && (!live ==> Enabled(c, s, Control(Skip)) && Apply(c, s, Control(Skip)) == s.(worker := Top))
            && (live ==> Enabled(c, s, Control(Match))
                         && Apply(c, s, Control(Match)) == s.(worker := Worker.Due(Some(e), s.worker.since)))
  {
  }

  lemma {:induction false} EarliestEntryExists(heap: set<Entry>)
    requires heap != {}
    ensures exists e :: e in heap && forall o :: o in heap ==> !Later(e, o)
    decreases |heap|
  {
    var e :| e in heap;
    if heap == {e} {
      assert forall o :: o in heap ==> !Later(e, o);
    } else {
      EarliestEntryExists(heap - {e});
      var f :| f in heap - {e} && forall o :: o in heap - {e} ==> !Later(f, o);
      if Later(f, e) {
        forall o | o in heap
          ensures !Later(e, o)
        {
          if o != e {
            assert !Later(f, o);
          }
        }
      } else {
        assert forall o :: o in heap ==> !Later(f, o);
      }
    }
  }

  lemma NothingElseIsDue(heap: set<Entry>, top: Entry, now: int)
    requires top in heap && (forall o :: o in heap ==> !Later(top, o)) && top.due * TICKS > now && now >= 0
    ensures forall e :: e in heap ==> e.due > ToSeconds(now)
  {
    forall e | e in heap
      ensures e.due > ToSeconds(now)
    {
      assert !Later(top, e);
      assert top.due <= e.due;
    }
  }

  lemma DueEntryGoes(heap: set<Entry>, e: Entry, now: int)
    requires e in heap && e.due * TICKS <= now && now >= 0
    ensures |DueEntries(heap - {e}, ToSeconds(now))| < |DueEntries(heap, ToSeconds(now))|
  {
    assert e.due <= ToSeconds(now);
    assert DueEntries(heap - {e}, ToSeconds(now)) == DueEntries(heap, ToSeconds(now)) - {e};
  }

  lemma NoNewDueEntries(before: set<Entry>, after: set<Entry>, second: int)
    requires HeapGrew(before, after, second)
    ensures DueEntries(after, second) == DueEntries(before, second)
  {
  }

  /** With coverage, a heap without due entries means a table without due rows. */
  lemma CoveredMeansDrained(s: State, second: int)
    requires s.worker.Top?
    ensures !s.stop && s.recorder.Idle? && HeapCovers(s) && (forall e :: e in s.heap ==> e.due > second) ==>
              DueSet(s.db.pending, second) == {}
  {
    if !s.stop && s.recorder.Idle? && HeapCovers(s) && forall e :: e in s.heap ==> e.due > second {
      forall p | p in s.db.pending
        ensures s.db.pending[p].due > second
      {
        assert Covered(s, p) || AboutToLoad(s, p);
      }
    }
  }

  lemma StageKeepsJob(w: Worker, stage: Stage)
    requires OnJob(w)
    ensures var x := w.(stage := stage);
            OnJob(x) && CurrentJob(x) == CurrentJob(w) && Target(x) == Target(w) && NextJob(x) == NextJob(w) && Return(x) == Return(w)
  {
  }

  lemma SucceededIs(action: CopyAction)
    ensures action != Cancelled ==> (Succeeded(action) <==> action != SourceMissing && action != Failed)
  {
  }

  lemma TargetIs(w: Worker, job: Job<int>)
    requires OnJob(w) && CurrentJob(w) == job
    ensures Target(w) == job.path
  {
  }

  lemma TargetIsNamed(s: State, job: Job<int>)
    requires WellFormed(s) && OnJob(s.worker) && CurrentJob(s.worker) == job
    ensures Target(s.worker) == job.path && job.path != [] && job.path in s.db.files
  {
  }

  /** Where the engine's report sends the pass. */
  lemma FinishedAs(s: State, r: CopyResult, bytes: nat)
    requires OnJob(s.worker)
    requires EngineMayReport(s, Target(s.worker), r, bytes)
    ensures var disk := if r.action == Copied then s.disk[Target(s.worker) := bytes] else s.disk;
            ApplyFinish(s, r, bytes) == s.(disk := disk, worker := AfterReport(s.worker, r, bytes))
    ensures r.action == Cancelled ==> s.stop
    ensures r.action != Cancelled && r.action != SourceMissing && r.action != Failed ==> Succeeded(r.action)
  {
  }

  lemma ErrorKeepsFile(db: Db<int>, p: Path, error: string)
    requires p in db.files
    ensures p in RecordError(db, p, error).files
  {
  }

  lemma UpsertSucceeds(db: Db<int>, p: Path, due: int, reason: string)
    requires p in db.files
    ensures UpsertPending(db, p, due, reason).Ok?
  {
  }

  lemma PushEntryIs(s: State, p: Path, due: int)
    ensures PushEntry(s, p, due) == s.(heap := s.heap + {Entry(due, s.sequence + 1, p)}, sequence := s.sequence + 1)
  {
  }

  lemma SameHeap(heap: set<Entry>, second: int)
    ensures HeapGrew(heap, heap, second)
  {
  }

  lemma OneLater(heap: set<Entry>, e: Entry, second: int)
    requires e.due > second
    ensures HeapGrew(heap, heap + {e}, second)
  {
  }

  lemma WiderShrink(before: map<Path, JobRow<int>>, after: map<Path, JobRow<int>>, p: Path)
    requires RowsShrink(before, after, {})
    ensures RowsShrink(before, after, {p})
  {
  }

  lemma ShrinkTwice(before: map<Path, JobRow<int>>, middle: map<Path, JobRow<int>>, after: map<Path, JobRow<int>>, p: Path)
    requires RowsShrink(before, middle, {}) && RowsShrink(middle, after, {p})
    ensures RowsShrink(before, after, {p})
  {
  }

  lemma RemovedIsSettled(db: Db<int>, p: Path, second: int)
    ensures var after := MarkRemoved(db, p).pending;
            SettledAt(after, p, second) && RowsShrink(db.pending, after, {p}) && OthersKept(db.pending, after, p)
  {
    StatementsTouchOnePath(db, p, 0, 0, 0, 0, "");
    OnePathShrinks(db, MarkRemoved(db, p), p);
  }

  lemma OnePathShrinks(db: Db<int>, after: Db<int>, p: Path)
    requires SameBut(db, after, p)
    ensures RowsShrink(db.pending, after.pending, {p}) && OthersKept(db.pending, after.pending, p)
  {
    forall q | q in after.pending && q !in {p}
      ensures q in db.pending && after.pending[q] == db.pending[q]
    {
      assert q in after.pending - {p};
    }
  }

  lemma OnePathTwice(a: Db<int>, b: Db<int>, c: Db<int>, p: Path)
    requires SameBut(a, b, p) && SameBut(b, c, p)
    ensures SameBut(a, c, p)
  {
  }

  lemma RetriedIsSettled(db: Db<int>, job: Job<int>, error: string, reason: string, now: int)
    requires PassTime(now) && job.path != [] && job.path in db.files
    ensures var r := UpsertPending(RecordError(db, job.path, error), job.path, RetryDue(now, job.row.retries), reason);
            && r.Ok?
            && SettledAt(r.value.pending, job.path, ToSeconds(now))
            && RowsShrink(db.pending, r.value.pending, {job.path}) && OthersKept(db.pending, r.value.pending, job.path)
  {
    RetryIsLater(now, job.row.retries);
    hide RetryDue;
    var due, noted := RetryDue(now, job.row.retries), RecordError(db, job.path, error);
    UpsertSucceeds(noted, job.path, due, reason);
    var r := UpsertPending(noted, job.path, due, reason);
    StatementsTouchOnePath(db, job.path, due, 0, 0, 0, error);
    StatementsTouchOnePath(noted, job.path, due, 0, 0, 0, reason);
    OnePathTwice(db, noted, r.value, job.path);
    OnePathShrinks(db, r.value, job.path);
  }

  /** The index lists p as cached and nothing is pending for it. */
  predicate IsCached(db: Db<int>, p: Path) {
    p in db.files && db.files[p].present && p !in db.pending
  }

  lemma PublishedIsSettled(db: Db<int>, p: Path, r: CopyResult, second: int)
    requires p in db.files
    ensures var after := RemovePending(MarkCached(db, p, r.sourceSize, r.cachedSize, r.hash, ToSeconds(r.completedAt)), p);
            && IsCached(after, p) && SettledAt(after.pending, p, second)
            && RowsShrink(db.pending, after.pending, {p}) && OthersKept(db.pending, after.pending, p)
  {
    var cached := MarkCached(db, p, r.sourceSize, r.cachedSize, r.hash, ToSeconds(r.completedAt));
    StatementsTouchOnePath(db, p, 0, ToSeconds(r.completedAt), r.sourceSize, r.cachedSize, r.hash);
    StatementsTouchOnePath(cached, p, 0, 0, 0, 0, "");
    OnePathTwice(db, cached, RemovePending(cached, p), p);
    OnePathShrinks(db, RemovePending(cached, p), p);
  }

  lemma EntryInHeap(s: State, e: Entry)
    requires e in s.heap
    ensures InHeap(s, e.path, e.due)
  {
  }

  lemma WellFormedHeapOf(s: State, t: State)
    requires WellFormed(s) && t.heap == s.heap && t.sequence == s.sequence
    ensures HeapWellFormed(t)
  {
  }

  lemma WorkerKept(start: State, s: State)
    requires s == start.(db := s.db, disk := s.disk)
    ensures s.worker == start.worker
  {
  }

  lemma RoomNeededIs(db: Db<int>, p: Path, minFree: nat, required: nat, incoming: nat)
    requires incoming == if p in db.files then db.files[p].sourceSize else 0
    requires required == if incoming >= minFree then incoming else minFree
    ensures required == RoomNeeded(db, p, minFree)
  {
  }

  lemma NothingRemoved(db: Db<int>)
    ensures MarkAllRemoved(db, []) == db
  {
  }

  lemma PushAllUnfolds(s: State, rows: seq<Job<int>>)
    ensures PushAll(s, rows) ==
              if rows == [] then s
              else PushAll(s.(heap := s.heap + {Entry(rows[0].row.due, s.sequence + 1, rows[0].path)}, sequence := s.sequence + 1),
                           rows[1..])
  {
  }

  lemma AllInHeapCovers(s: State)
    requires forall p :: p in s.db.pending ==> InHeap(s, p, s.db.pending[p].due)
    ensures HeapCovers(s)
  {
    hide InHeap;
  }

  lemma LoadedRowsAreInHeap(loaded: State, s: State, jobs: seq<Job<int>>)
    requires HeapWellFormed(loaded) && s == PushAll(loaded, jobs).(worker := Top)
    requires Faithful(loaded.db.pending, jobs) && PathsOf(jobs) == loaded.db.pending.Keys
    ensures forall p :: p in loaded.db.pending ==> InHeap(s, p, loaded.db.pending[p].due)
  {
    PushAllStructure(loaded, jobs);
    PathAt(jobs);
    forall p | p in loaded.db.pending
      ensures InHeap(s, p, loaded.db.pending[p].due)
    {
      assert p in PathsOf(jobs);
      var i :| 0 <= i < |jobs| && jobs[i].path == p;
    }
  }
}
