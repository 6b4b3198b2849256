/** The heap and the pending table never drift apart: in every run, every
    pending row has a heap entry with its path and exactly its due second, or is
    in the hands of one of the two threads. */
module HeapCoverage {
  import opened Prelude
  import opened UtcTime
  import opened IndexModel
  import opened Protocol
  import PauseBound

  predicate InHeap(s: State, p: Path, due: int) {
    exists e :: e in s.heap && e.path == p && e.due == due
  }

  /** The recorder has written the row and is about to push its entry. */
  predicate RecorderHolds(s: State, p: Path, due: int) {
    s.recorder == Pushing(p, due)
  }

  /** The pass has p in its batch and has not settled it yet. */
  predicate Unsettled(w: Worker, p: Path)
    requires w.Passing?
  {
    exists k :: 0 <= k < |w.jobs| && w.next + (if w.stage.Requeueing? then 1 else 0) <= k && w.jobs[k].path == p
  }

  /** The worker popped this entry and still carries it, or has rewritten the
      row and is about to push the entry. */
  predicate WorkerHolds(w: Worker, p: Path, due: int) {
    match w
    case Popped(held, _) => held.path == p && held.due == due
    case Checking(held, _) => held.path == p && held.due == due
    case Due(Some(held), _) => held.path == p && held.due == due
    case Passing(entry, _, jobs, next, stage) =>
      || (entry.Some? && entry.value.path == p && entry.value.due == due && Unsettled(w, p))
      || (next < |jobs| && stage == Requeueing(due) && jobs[next].path == p)
    case _ => false
  }

  predicate Covered(s: State, p: Path)
    requires p in s.db.pending
  {
    var due := s.db.pending[p].due;
    InHeap(s, p, due) || RecorderHolds(s, p, due) || WorkerHolds(s.worker, p, due)
  }

  /** The worker thread is up and has not been told to stop. */
  predicate Serving(s: State) {
    && !s.stop
    && match s.worker
       case Stopped => false
       case Starting => false
       case Due(entry, _) => entry.Some?
       case Passing(entry, _, _, _, _) => entry.Some?
       case _ => true
  }

  predicate AboutToLoad(s: State, p: Path)
    requires p in s.db.pending
  {
    s.worker.Loading? && exists j :: j in s.worker.rows && j.path == p && j.row.due == s.db.pending[p].due
  }

  ghost predicate HeapCovers(s: State) {
    Serving(s) ==> forall p :: p in s.db.pending ==> Covered(s, p) || AboutToLoad(s, p)
  }

  /** The events the coverage theorem excludes: the engine throws, the due query
      leaves the popped path out of its answer, or a stop is taken back before the
      worker has seen it through. */
  ghost predicate Benign(s: State, l: Label) {
    match l
    case Pass(Throw(_)) => false
    case Pass(Select(_, jobs)) =>
      s.worker.Due? && s.worker.entry.Some? && RowDueAt(s, s.worker.entry.value.path, s.worker.entry.value.due)
      ==> s.worker.entry.value.path in PathsOf(jobs)
    case Env(StartAgain) => !s.stop
    case _ => true
  }

  // ---------- each thread keeps coverage ----------

  lemma RecorderKeepsCoverage(c: Settings, s: State, l: RecorderStep)
    requires RecorderEnabled(s, l) && HeapCovers(s)
    ensures HeapCovers(ApplyRecorder(c, s, l))
  {
    hide EventDue;
    var t := ApplyRecorder(c, s, l);
    if Serving(t) {
      forall p | p in t.db.pending
        ensures Covered(t, p) || AboutToLoad(t, p)
      {
        if l.Push? && RecorderHolds(s, p, t.db.pending[p].due) {
          assert Entry(t.db.pending[p].due, s.sequence + 1, p) in t.heap;
        } else if p in s.db.pending && s.db.pending[p].due == t.db.pending[p].due {
          assert Covered(s, p) || AboutToLoad(s, p);
        }
      }
    }
  }

  lemma ControlKeepsCoverage(s: State, l: ControlStep)
    requires ControlEnabled(s, l) && HeapCovers(s) && HeapWellFormed(s)
    ensures HeapCovers(ApplyControl(s, l))
  {
    hide Later, HeapWellFormed;
    var t := ApplyControl(s, l);
    ControlFrame(s, l);
    if l.PushRows? {
      PushAllStructure(s, s.worker.rows);
    }
    if Serving(t) {
      forall p | p in t.db.pending
        ensures Covered(t, p) || AboutToLoad(t, p)
      {
        if l.ReadRows? {
          PathAt(l.rows);
          assert p in PathsOf(l.rows);
          var i :| 0 <= i < |l.rows| && l.rows[i].path == p;
          assert l.rows[i] in l.rows;
        } else {
          assert Serving(s);
          assert Covered(s, p) || AboutToLoad(s, p);
          ControlKeepsRow(s, l, p);
        }
      }
    }
  }

  lemma ControlKeepsRow(s: State, l: ControlStep, p: Path)
    requires ControlEnabled(s, l) && p in s.db.pending && p in ApplyControl(s, l).db.pending
    requires s.db == ApplyControl(s, l).db && s.recorder == ApplyControl(s, l).recorder
    requires !l.ReadRows? && (Covered(s, p) || AboutToLoad(s, p)) && !l.SeeStop? && !l.ClearStop? && !l.DirectPass?
    requires l.PushRows? ==> s.heap <= ApplyControl(s, l).heap && forall i :: 0 <= i < |s.worker.rows| ==>
               exists e :: e in ApplyControl(s, l).heap && e.path == s.worker.rows[i].path && e.due == s.worker.rows[i].row.due
    ensures Covered(ApplyControl(s, l), p)
  {
    hide Later, Faithful, PathsOf;
    var t := ApplyControl(s, l);
    var due := s.db.pending[p].due;
    if InHeap(s, p, due) {
      var e :| e in s.heap && e.path == p && e.due == due;
      if !(l.Pop? && l.entry == e) {
        assert e in t.heap;
      }
    } else if l.PutBack? {
      PauseBound.PauseRequeueKeepsEntry(s);
    }
  }

  lemma PassKeepsCoverage(c: Settings, s: State, l: PassStep)
    requires PassEnabled(c, s, l) && WellFormed(s) && HeapCovers(s) && Benign(s, Pass(l))
    ensures HeapCovers(ApplyPass(c, s, l))
  {
    hide HeapWellFormed, IsDueSelection, EngineMayReport, RetryDue;
    var t := ApplyPass(c, s, l);
    PassFrame(c, s, l);
    if Serving(t) {
      assert Serving(s);
      forall p | p in t.db.pending
        ensures Covered(t, p)
      {
        PassKeepsRow(c, s, l, p);
      }
    }
  }

  lemma PassKeepsRow(c: Settings, s: State, l: PassStep, p: Path)
    requires PassEnabled(c, s, l) && WellFormed(s) && HeapCovers(s) && Serving(s) && Benign(s, Pass(l))
    requires Serving(ApplyPass(c, s, l)) && p in ApplyPass(c, s, l).db.pending
    ensures Covered(ApplyPass(c, s, l), p)
  {
    hide WellFormed, PassEnabled, ApplyPass, Benign, WorkerHolds, InHeap;
    var t := ApplyPass(c, s, l);
    PassFrame(c, s, l);
    NewDueIsHeld(c, s, l, p);
    if RowDueAt(s, p, t.db.pending[p].due) {
      assert Covered(s, p) || AboutToLoad(s, p);
      PassWorkerState(c, s, l);
      HeapOnlyGrows(c, s, l, p, t.db.pending[p].due);
      if WorkerHolds(s.worker, p, s.db.pending[p].due) {
        HeldStaysHeld(c, s, l, p);
      }
    }
  }

  lemma PassWorkerState(c: Settings, s: State, l: PassStep)
    requires PassEnabled(c, s, l)
    ensures s.worker.Due? || s.worker.Passing?
  {
    hide IsDueSelection, EngineMayReport;
  }

  /** A row the pass writes anew is one it is about to push. */
  lemma NewDueIsHeld(c: Settings, s: State, l: PassStep, p: Path)
    requires PassEnabled(c, s, l) && WellFormed(s) && p in ApplyPass(c, s, l).db.pending
    ensures RowDueAt(s, p, ApplyPass(c, s, l).db.pending[p].due)
         || WorkerHolds(ApplyPass(c, s, l).worker, p, ApplyPass(c, s, l).db.pending[p].due)
  {
    hide HeapWellFormed, RetryDue, IsDueSelection, EngineMayReport;
  }

  lemma HeapOnlyGrows(c: Settings, s: State, l: PassStep, p: Path, due: int)
    requires PassEnabled(c, s, l)
    ensures InHeap(s, p, due) ==> InHeap(ApplyPass(c, s, l), p, due)
    ensures l.Requeue? ==> InHeap(ApplyPass(c, s, l), Target(s.worker), s.worker.stage.due)
  {
    hide RetryDue, IsDueSelection, EngineMayReport, MarkRemoved, MarkCached, RecordError, UpsertPending, RemovePending;
    var t := ApplyPass(c, s, l);
    assert s.heap <= t.heap;
    if l.Requeue? {
      assert Entry(s.worker.stage.due, s.sequence + 1, Target(s.worker)) in t.heap;
    }
  }

  /** What the worker carries it keeps carrying until the row is settled. */
  lemma HeldStaysHeld(c: Settings, s: State, l: PassStep, p: Path)
    requires PassEnabled(c, s, l) && WellFormed(s) && Serving(s) && Benign(s, Pass(l))
    requires Serving(ApplyPass(c, s, l)) && p in ApplyPass(c, s, l).db.pending
    requires RowDueAt(s, p, ApplyPass(c, s, l).db.pending[p].due)
    requires WorkerHolds(s.worker, p, s.db.pending[p].due)
    ensures Covered(ApplyPass(c, s, l), p)
  {
    hide ApplyPass, PassEnabled, WellFormed, Serving, Benign, WorkerHolds, Covered;
    if l.Requeue? {
      RequeuedStaysHeld(c, s, p);
    } else if l.Select? {
      SelectedIsHeld(c, s, l, p);
    } else {
      RestStaysHeld(c, s, l, p);
    }
  }

  lemma RestStaysHeld(c: Settings, s: State, l: PassStep, p: Path)
    requires PassEnabled(c, s, l) && WellFormed(s) && Serving(s) && Benign(s, Pass(l)) && !l.Requeue? && !l.Select?
    requires Serving(ApplyPass(c, s, l)) && p in ApplyPass(c, s, l).db.pending
    requires RowDueAt(s, p, ApplyPass(c, s, l).db.pending[p].due)
    requires WorkerHolds(s.worker, p, s.db.pending[p].due)
    ensures Covered(ApplyPass(c, s, l), p)
  {
    hide ApplyPass, PassEnabled, WellFormed, Serving, Benign, InHeap;
    TargetRow(c, s, l);
    WorkerEvolves(c, s, l);
    var t := ApplyPass(c, s, l);
    if t.worker.Passing? && Unsettled(s.worker, p) {
      var k :| 0 <= k < |s.worker.jobs| && s.worker.next + (if s.worker.stage.Requeueing? then 1 else 0) <= k
               && s.worker.jobs[k].path == p;
      assert t.worker.jobs[k].path == p;
    }
  }

  /** How the worker moves on while it is neither selecting nor pushing. */
  lemma WorkerEvolves(c: Settings, s: State, l: PassStep)
    requires PassEnabled(c, s, l) && WellFormed(s) && Serving(s) && Benign(s, Pass(l)) && !l.Requeue? && !l.Select?
    requires Serving(ApplyPass(c, s, l))
    ensures var t := ApplyPass(c, s, l).worker;
            && s.worker.Passing? && (!t.Passing? ==> s.worker.next == |s.worker.jobs|)
            && (OnJob(s.worker) ==> !s.worker.stage.Requeueing?)
            && (t.Passing? ==>
                  && OnJob(s.worker) && t == s.worker.(next := t.next, stage := t.stage)
                  && (t.next == s.worker.next || (t.next == s.worker.next + 1 && t.stage.MakingRoom? && (l.Drop? || l.Unlist?)))
                  && (t.stage.Requeueing? ==> l.Reschedule?))
  {
    hide IsDueSelection, MarkRemoved, MarkCached, RecordError, UpsertPending, RemovePending, RetryDue, HeapWellFormed;
    if l.Reschedule? {
      TargetRow(c, s, l);
    }
  }

  /** A settled job's row is gone, and a rescheduled one is due when it is pushed. */
  lemma TargetRow(c: Settings, s: State, l: PassStep)
    requires PassEnabled(c, s, l) && WellFormed(s)
    ensures l.Drop? || l.Unlist? ==> Target(s.worker) !in ApplyPass(c, s, l).db.pending
    ensures var t := ApplyPass(c, s, l);
            l.Reschedule? ==>
              t.worker.Passing? && t.worker.stage.Requeueing? && (Target(s.worker) in t.db.pending ==> t.db.pending[Target(s.worker)].due == t.worker.stage.due)
  {
    hide RetryDue, IsDueSelection, MarkCached, EngineMayReport, HeapWellFormed;
  }

  lemma SelectedIsHeld(c: Settings, s: State, l: PassStep, p: Path)
    requires PassEnabled(c, s, l) && l.Select? && Benign(s, Pass(l)) && p in s.db.pending
    requires WorkerHolds(s.worker, p, s.db.pending[p].due)
    ensures Covered(ApplyPass(c, s, l), p)
  {
    hide IsDueSelection, InHeap;
    PathAt(l.jobs);
  }

  lemma RequeuedStaysHeld(c: Settings, s: State, p: Path)
    requires PassEnabled(c, s, Requeue) && p in s.db.pending && WorkerHolds(s.worker, p, s.db.pending[p].due)
    ensures Covered(ApplyPass(c, s, Requeue), p)
  {
    hide InHeap;
    HeapOnlyGrows(c, s, Requeue, p, s.db.pending[p].due);
  }

  lemma CoverageStep(c: Settings, s: State, l: Label)
    requires WellFormed(s) && Enabled(c, s, l) && HeapCovers(s) && Benign(s, l)
    ensures HeapCovers(Apply(c, s, l))
  {
    hide PassEnabled, ControlEnabled, RecorderEnabled, ApplyPass, ApplyControl, ApplyRecorder, WellFormed;
    match l
    case Env(e) => EnvKeepsCoverage(s, e);
    case Recorder(r) => RecorderKeepsCoverage(c, s, r);
    case Control(k) => WellFormedHeap(s); ControlKeepsCoverage(s, k);
    case Pass(p) => PassKeepsCoverage(c, s, p);
  }

  lemma WellFormedHeap(s: State)
    requires WellFormed(s)
    ensures HeapWellFormed(s)
  {
  }

  lemma EnvKeepsCoverage(s: State, l: EnvStep)
    requires HeapCovers(s) && Benign(s, Env(l))
    ensures HeapCovers(ApplyEnv(s, l))
  {
    var t := ApplyEnv(s, l);
    forall p | Serving(t) && p in t.db.pending
      ensures Covered(t, p) || AboutToLoad(t, p)
    {
      assert Covered(s, p) || AboutToLoad(s, p);
    }
  }

  // ---------- whole runs ----------

  ghost predicate BenignRun(c: Settings, s: State, ls: seq<Label>) {
    ls == [] || (BenignRun(c, s, ls[..|ls| - 1]) && Benign(Exec(c, s, ls[..|ls| - 1]), ls[|ls| - 1]))
  }

  /** Heap coverage over every interleaving. Stopping gives it up and starting
      again restores it, whatever the stop interrupted. */
  lemma {:induction false} HeapCoversEveryRun(c: Settings, s: State, ls: seq<Label>)
    requires Initial(s) && IsRun(c, s, ls) && BenignRun(c, s, ls)
    ensures HeapCovers(Exec(c, s, ls))
  {
    if ls != [] {
      var front := ls[..|ls| - 1];
      HeapCoversEveryRun(c, s, front);
      WellFormedRun(c, s, front);
      CoverageStep(c, Exec(c, s, front), ls[|ls| - 1]);
    }
  }

  /** When both threads are between jobs, every row has its own heap entry. */
  lemma QuietCoverage(c: Settings, s: State, ls: seq<Label>)
    requires Initial(s) && IsRun(c, s, ls) && BenignRun(c, s, ls)
    ensures var t := Exec(c, s, ls);
            !t.stop && t.recorder.Idle? && (t.worker.Top? || t.worker.Awake? || t.worker.Ready?) ==>
              forall p :: p in t.db.pending ==> InHeap(t, p, t.db.pending[p].due)
  {
    HeapCoversEveryRun(c, s, ls);
    var t := Exec(c, s, ls);
    forall p | p in t.db.pending && HeapCovers(t) && Serving(t)
      ensures Covered(t, p) || AboutToLoad(t, p)
    {
    }
  }

  // ---------- a condition a caller can see ----------

  /** An entry the worker carries to the query was due when it was popped. */
  predicate CarriesDue(s: State) {
    && s.clock >= 0
    && match s.worker
       case Popped(held, since) => held.due * TICKS <= since && since >= 0
       case Checking(held, since) => held.due * TICKS <= since && since >= 0
       case Due(Some(held), since) => held.due * TICKS <= since && since >= 0
       case _ => true
  }

  lemma CarriesDueStep(c: Settings, s: State, l: Label)
    requires Enabled(c, s, l) && CarriesDue(s)
    ensures CarriesDue(Apply(c, s, l))
  {
    match l
    case Env(_) =>
    case Recorder(_) => hide EventDue, MarkRemoved, RecordAccess;
    case Control(k) =>
      ControlFrame(s, k);
      hide Faithful, PathsOf, Later, PushAll;
    case Pass(p) =>
      PassFrame(c, s, p);
      PassCarriesNothing(c, s, p);
      hide ApplyPass, PassEnabled;
  }

  lemma PassCarriesNothing(c: Settings, s: State, l: PassStep)
    requires PassEnabled(c, s, l)
    ensures var w := ApplyPass(c, s, l).worker; w.Passing? || w.Top? || w.Stopped?
  {
    hide IsDueSelection, EngineMayReport, RetryDue, MarkRemoved, MarkCached, RecordError, UpsertPending, RemovePending;
  }

  /** The engine never throws, no pass finds more due rows than fit a batch, and no
      stop is taken back. */
  ghost predicate CalmRun(c: Settings, s: State, ls: seq<Label>) {
    ls == [] ||
    (CalmRun(c, s, ls[..|ls| - 1])
     && match ls[|ls| - 1]
        case Pass(Throw(_)) => false
        case Pass(Select(now, _)) => |DueSet(Exec(c, s, ls[..|ls| - 1]).db.pending, ToSeconds(now))| <= c.batch
        case Env(StartAgain) => !Exec(c, s, ls[..|ls| - 1]).stop
        case _ => true)
  }

  /** A query that may return every due row returns them all. */
  lemma WholeSelection(pending: map<Path, JobRow<int>>, now: int, limit: int, jobs: seq<Job<int>>)
    requires IsDueSelection(pending, now, limit, jobs) && |DueSet(pending, now)| <= limit
    ensures PathsOf(jobs) == DueSet(pending, now)
  {
    JobCount(pending, jobs);
    SubsetCount(PathsOf(jobs), DueSet(pending, now));
  }

  lemma SmallSelectionIsBenign(c: Settings, s: State, now: int, jobs: seq<Job<int>>)
    requires PassEnabled(c, s, Select(now, jobs)) && CarriesDue(s) && |DueSet(s.db.pending, ToSeconds(now))| <= c.batch
    ensures Benign(s, Pass(Select(now, jobs)))
  {
    WholeSelection(s.db.pending, ToSeconds(now), c.batch, jobs);
    if s.worker.entry.Some? {
      DueEntryIsDue(s.worker.entry.value.due, s.worker.since, now);
    }
    hide IsDueSelection, ToSeconds;
  }

  /** Heap coverage under conditions a caller can see: the engine returns, every
      pass finds at most due_batch_size due rows, and start() is not called while a
      stop is under way. */
  lemma {:induction false} CalmRunsStayCovered(c: Settings, s: State, ls: seq<Label>)
    requires Initial(s) && IsRun(c, s, ls) && CalmRun(c, s, ls)
    ensures BenignRun(c, s, ls) && CarriesDue(Exec(c, s, ls)) && HeapCovers(Exec(c, s, ls))
  {
    hide Benign, CarriesDue, Enabled, Apply, HeapCovers, DueSet, Initial;
    if ls == [] {
      StartsUncarried(s);
    } else {
      var front, l := ls[..|ls| - 1], ls[|ls| - 1];
      CalmRunsStayCovered(c, s, front);
      CarriesDueStep(c, Exec(c, s, front), l);
      CalmStepIsBenign(c, Exec(c, s, front), l);
    }
    HeapCoversEveryRun(c, s, ls);
  }

  lemma StartsUncarried(s: State)
    requires Initial(s)
    ensures CarriesDue(s)
  {
  }

  lemma CalmStepIsBenign(c: Settings, s: State, l: Label)
    requires Enabled(c, s, l) && CarriesDue(s)
    requires match l
             case Pass(Throw(_)) => false
             case Pass(Select(now, _)) => |DueSet(s.db.pending, ToSeconds(now))| <= c.batch
             case Env(StartAgain) => !s.stop
             case _ => true
    ensures Benign(s, l)
  {
    match l
    case Pass(Select(now, jobs)) => SmallSelectionIsBenign(c, s, now, jobs);
    case _ =>
  }

  // ---------- exactly when a pass is safe ----------

  /** The worker is about to query for a live popped entry that nothing else
      stands in for. */
  ghost predicate SoleHolder(s: State) {
    && s.worker.Due? && s.worker.entry.Some? && Consistent(s.db) && s.worker.since <= s.clock
    && s.worker.entry.value.due * TICKS <= s.worker.since && s.worker.since >= 0
    && var held := s.worker.entry.value;
       && RowDueAt(s, held.path, held.due)
       && !InHeap(s, held.path, held.due) && !RecorderHolds(s, held.path, held.due)
  }

  lemma DueEntryIsDue(due: int, since: int, now: int)
    requires due * TICKS <= since <= now && since >= 0
    ensures due <= ToSeconds(now)
  {
    ToSecondsMonotone(since, now);
  }

  /** Such a row keeps its wake-up through the pass, whatever the query answers,
      exactly when fewer than due_batch_size other rows are due no later. */
  lemma PassIsSafeIff(c: Settings, s: State)
    requires SoleHolder(s) && c.batch > 0
    ensures (forall now, jobs :: PassEnabled(c, s, Select(now, jobs)) ==>
               Covered(ApplyPass(c, s, Select(now, jobs)), s.worker.entry.value.path))
       <==> |Rivals(s.db.pending, s.worker.entry.value.path)| < c.batch
  {
    var p := s.worker.entry.value.path;
    var few := |Rivals(s.db.pending, p)| < c.batch;
    forall now, jobs | PassEnabled(c, s, Select(now, jobs))
      ensures Covered(ApplyPass(c, s, Select(now, jobs)), p) <==> p in PathsOf(jobs)
      ensures few ==> p in PathsOf(jobs)
    {
      CoveredIffSelected(c, s, now, jobs);
      DueEntryIsDue(s.worker.entry.value.due, s.worker.since, now);
      if few {
        AlwaysSelectedIff(s.db.pending, ToSeconds(now), c.batch, p);
      }
    }
    if !few {
      DueEntryIsDue(s.worker.entry.value.due, s.worker.since, s.clock);
      var jobs := SelectionWithout(s.db.pending, ToSeconds(s.clock), c.batch, p);
      assert PassEnabled(c, s, Select(s.clock, jobs));
    }
  }

  lemma CoveredIffSelected(c: Settings, s: State, now: int, jobs: seq<Job<int>>)
    requires SoleHolder(s) && PassEnabled(c, s, Select(now, jobs))
    ensures Covered(ApplyPass(c, s, Select(now, jobs)), s.worker.entry.value.path)
       <==> s.worker.entry.value.path in PathsOf(jobs)
  {
    hide IsDueSelection;
    PathAt(jobs);
    var t := ApplyPass(c, s, Select(now, jobs));
    var p := s.worker.entry.value.path;
    if p in PathsOf(jobs) {
      var k :| 0 <= k < |jobs| && jobs[k].path == p;
      assert t.worker.jobs[k].path == p;
      assert Unsettled(t.worker, p);
    }
  }

  /** A thrown exception leaves such a row pending with nothing to wake it. */
  lemma ThrowLosesWakeUp(c: Settings, s: State, error: string)
    requires PassEnabled(c, s, Throw(error)) && s.worker.entry.Some?
    requires RowDueAt(s, s.worker.entry.value.path, s.worker.entry.value.due)
    ensures var t := ApplyPass(c, s, Throw(error));
            RowDueAt(t, s.worker.entry.value.path, s.worker.entry.value.due) && t.heap == s.heap
            && (Covered(t, s.worker.entry.value.path) <==>
                  InHeap(s, s.worker.entry.value.path, s.worker.entry.value.due)
                  || RecorderHolds(s, s.worker.entry.value.path, s.worker.entry.value.due))
  {
    var t := ApplyPass(c, s, Throw(error));
    assert t.worker.Top?;
  }

  /** The steps a running service takes when no event arrives and nobody
      restarts or calls into it. */
  predicate Undisturbed(l: Label) {
    !l.Recorder? && !(l.Control? && (l.control.ClearStop? || l.control.DirectPass?))
  }

  predicate Waiting(s: State) {
    s.worker.Top? || s.worker.Awake? || s.worker.Ready? || s.worker.Stopped?
  }

  /** A pending row with an empty heap is stranded: without a new event or a
      restart no run ever touches it. */
  lemma {:induction false} StrandedRowStays(c: Settings, s: State, ls: seq<Label>)
    requires s.heap == {} && Waiting(s) && IsRun(c, s, ls)
    requires forall l :: l in ls ==> Undisturbed(l)
    ensures var t := Exec(c, s, ls); t.db == s.db && t.heap == {} && Waiting(t)
  {
    if ls != [] {
      var front := ls[..|ls| - 1];
      assert forall l :: l in front ==> l in ls;
      StrandedRowStays(c, s, front);
      assert Undisturbed(ls[|ls| - 1]);
      StrandedStep(c, Exec(c, s, front), ls[|ls| - 1]);
    }
  }

  lemma StrandedStep(c: Settings, s: State, l: Label)
    requires s.heap == {} && Waiting(s) && Enabled(c, s, l) && Undisturbed(l)
    ensures var t := Apply(c, s, l); t.db == s.db && t.heap == {} && Waiting(t)
  {
    hide IsDueSelection, EngineMayReport;
  }
}
