/** The quiet period: when a copy may start after an access, and how many copies
    a number of accesses can cause. */
module Debounce {
  import opened Prelude
  import opened UtcTime
  import opened IndexModel
  import opened Protocol

  datatype Watch = Watch(
    last: map<Path, int>,    // observation time of the latest scheduling event
    exact: set<Path>,        // no retry has rewritten the row since that event
    touched: set<Path>)      // scheduling events since the current pass queried its jobs

  const UNWATCHED := Watch(map[], {}, {})

  ghost function Note(s: State, l: Label, h: Watch): Watch {
    match l
    case Recorder(Record) =>
      if s.recorder.Accepted? && SchedulesCopy(s.recorder.event.kind) then
        var e := s.recorder.event;
        Watch(h.last[e.path := e.observedAt], h.exact + {e.path}, h.touched + {e.path})
      else h
    case Pass(Select(_, _)) => h.(touched := {})
    case Pass(Reschedule) => if OnJob(s.worker) then h.(exact := h.exact - {Target(s.worker)}) else h
    case _ => h
  }

  ghost function Observe(c: Settings, s: State, ls: seq<Label>): Watch {
    if ls == [] then UNWATCHED
    else Note(Exec(c, s, ls[..|ls| - 1]), ls[|ls| - 1], Observe(c, s, ls[..|ls| - 1]))
  }

  /** The whole second at which the quiet period after p's latest access ends. */
  function QuietUntil(c: Settings, h: Watch, p: Path): int
    requires p in h.last
  {
    ToSeconds(h.last[p] + c.copyDelay * TICKS)
  }

  ghost predicate RowKeepsQuiet(c: Settings, s: State, h: Watch, p: Path) {
    p in h.exact ==> p in h.last && (p in s.db.pending ==> s.db.pending[p].due == QuietUntil(c, h, p))
  }

  ghost predicate JobKeepsQuiet(c: Settings, s: State, h: Watch, k: int) {
    s.worker.Passing? && s.worker.next <= k < |s.worker.jobs| ==>
      var job := s.worker.jobs[k];
      job.path in h.exact && job.path !in h.touched ==>
        job.path in h.last && job.row.due == QuietUntil(c, h, job.path)
  }

  ghost predicate PassIsNotEarly(s: State) {
    s.worker.Passing? && s.worker.entry.Some? ==> s.worker.now <= s.clock
  }

  ghost predicate KeepsQuiet(c: Settings, s: State, h: Watch) {
    && (forall p :: RowKeepsQuiet(c, s, h, p))
    && (forall k :: JobKeepsQuiet(c, s, h, k))
    && PassIsNotEarly(s)
  }

  lemma RecorderKeepsQuiet(c: Settings, s: State, l: RecorderStep, h: Watch)
    requires RecorderEnabled(s, l) && KeepsQuiet(c, s, h)
    ensures KeepsQuiet(c, ApplyRecorder(c, s, l), Note(s, Recorder(l), h))
  {
    hide ToSeconds;
    var t, h' := ApplyRecorder(c, s, l), Note(s, Recorder(l), h);
    forall p
      ensures RowKeepsQuiet(c, t, h', p)
    {
      assert RowKeepsQuiet(c, s, h, p);
    }
    forall k
      ensures JobKeepsQuiet(c, t, h', k)
    {
      assert JobKeepsQuiet(c, s, h, k);
    }
  }

  lemma PassKeepsRow(c: Settings, s: State, l: PassStep, h: Watch, p: Path)
    requires PassEnabled(c, s, l) && RowKeepsQuiet(c, s, h, p)
    ensures RowKeepsQuiet(c, ApplyPass(c, s, l), Note(s, Pass(l), h), p)
  {
    hide IsDueSelection, EngineMayReport, RetryDue, ToSeconds;
  }

  lemma PassKeepsJob(c: Settings, s: State, l: PassStep, h: Watch, k: int)
    requires PassEnabled(c, s, l) && KeepsQuiet(c, s, h)
    ensures JobKeepsQuiet(c, ApplyPass(c, s, l), Note(s, Pass(l), h), k)
  {
    hide EngineMayReport, RetryDue, ToSeconds;
    if l.Select? {
      assert 0 <= k < |l.jobs| ==> RowKeepsQuiet(c, s, h, l.jobs[k].path);
    } else {
      PassAdvances(c, s, l);
      assert JobKeepsQuiet(c, s, h, k);
      hide ApplyPass, PassEnabled;
    }
  }

  lemma PassKeepsTime(c: Settings, s: State, l: PassStep)
    requires PassEnabled(c, s, l) && PassIsNotEarly(s)
    ensures PassIsNotEarly(ApplyPass(c, s, l))
  {
    hide EngineMayReport, RetryDue, IsDueSelection, MarkRemoved, MarkCached, RecordError, UpsertPending, RemovePending;
  }

  lemma QuietStep(c: Settings, s: State, l: Label, h: Watch)
    requires Enabled(c, s, l) && KeepsQuiet(c, s, h)
    ensures KeepsQuiet(c, Apply(c, s, l), Note(s, l, h))
  {
    hide ApplyPass, ApplyControl, ApplyRecorder, PassEnabled, ControlEnabled, RecorderEnabled, ToSeconds;
    var t, h' := Apply(c, s, l), Note(s, l, h);
    match l
    case Env(_) =>
      forall p ensures RowKeepsQuiet(c, t, h', p) { assert RowKeepsQuiet(c, s, h, p); }
      forall k ensures JobKeepsQuiet(c, t, h', k) { assert JobKeepsQuiet(c, s, h, k); }
    case Recorder(r) => RecorderKeepsQuiet(c, s, r, h);
    case Control(k) =>
      ControlFrame(s, k);
      forall p ensures RowKeepsQuiet(c, t, h', p) { assert RowKeepsQuiet(c, s, h, p); }
    case Pass(pass) =>
      forall p ensures RowKeepsQuiet(c, t, h', p) { PassKeepsRow(c, s, pass, h, p); }
      forall k ensures JobKeepsQuiet(c, t, h', k) { PassKeepsJob(c, s, pass, h, k); }
      PassKeepsTime(c, s, pass);
  }

  lemma {:induction false} KeepsQuietEveryRun(c: Settings, s: State, ls: seq<Label>)
    requires Initial(s) && IsRun(c, s, ls)
    ensures KeepsQuiet(c, Exec(c, s, ls), Observe(c, s, ls))
  {
    if ls != [] {
      var front := ls[..|ls| - 1];
      KeepsQuietEveryRun(c, s, front);
      QuietStep(c, Exec(c, s, front), ls[|ls| - 1], Observe(c, s, front));
    }
  }

  /** In every run the worker starts a copy of a path only once the quiet period
      after its latest access is over, unless a failed attempt has rescheduled
      the path since or that access landed inside the running pass. */
  lemma CopyWaitsForQuiet(c: Settings, s: State, ls: seq<Label>)
    requires Initial(s) && IsRun(c, s, ls) && PassEnabled(c, Exec(c, s, ls), StartCopy)
    ensures var t, h := Exec(c, s, ls), Observe(c, s, ls);
            var p := Target(t.worker);
            p in h.exact && p !in h.touched ==>
              && p in h.last
              && QuietUntil(c, h, p) <= ToSeconds(t.worker.now)
              && (t.worker.entry.Some? ==> QuietUntil(c, h, p) <= ToSeconds(t.clock))
  {
    KeepsQuietEveryRun(c, s, ls);
    WellFormedRun(c, s, ls);
    var t := Exec(c, s, ls);
    assert JobKeepsQuiet(c, t, Observe(c, s, ls), t.worker.next);
    assert t.worker.jobs[t.worker.next].row.due <= ToSeconds(t.worker.now);
    if t.worker.entry.Some? {
      ToSecondsMonotone(t.worker.now, t.clock);
    }
  }

  // ---------- how many copies ----------

  /** Scheduling events of p in the run, and copies of p it completed. */
  ghost function Accesses(c: Settings, s: State, ls: seq<Label>, p: Path): nat {
    if ls == [] then 0
    else Accesses(c, s, ls[..|ls| - 1], p) +
         if IsAccess(Exec(c, s, ls[..|ls| - 1]), ls[|ls| - 1], p) then 1 else 0
  }

  ghost function Copies(c: Settings, s: State, ls: seq<Label>, p: Path): nat {
    if ls == [] then 0
    else Copies(c, s, ls[..|ls| - 1], p) +
         if IsCopy(Exec(c, s, ls[..|ls| - 1]), ls[|ls| - 1], p) then 1 else 0
  }

  ghost predicate IsAccess(s: State, l: Label, p: Path) {
    l == Recorder(Record) && s.recorder.Accepted? && s.recorder.event.path == p && SchedulesCopy(s.recorder.event.kind)
  }

  ghost predicate IsCopy(s: State, l: Label, p: Path) {
    l == Pass(Drop) && OnJob(s.worker) && Target(s.worker) == p
  }

  /** One copy of p is still outstanding. */
  ghost predicate Outstanding(s: State, p: Path) {
    p in s.db.pending
    || (s.worker.Passing? && exists k :: s.worker.next <= k < |s.worker.jobs| && s.worker.jobs[k].path == p)
  }

  lemma OutstandingStep(c: Settings, s: State, l: Label, p: Path)
    requires WellFormed(s) && Enabled(c, s, l)
    ensures Outstanding(Apply(c, s, l), p) ==> Outstanding(s, p) || IsAccess(s, l, p)
    ensures IsCopy(s, l, p) ==> Outstanding(s, p) && !Outstanding(Apply(c, s, l), p)
  {
    hide ApplyPass, ApplyControl, PassEnabled, ControlEnabled, HeapWellFormed, EventDue;
    match l
    case Env(_) =>
    case Recorder(_) =>
    case Control(k) => ControlFrame(s, k);
    case Pass(pass) => OutstandingPassStep(c, s, pass, p);
  }

  lemma OutstandingPassStep(c: Settings, s: State, l: PassStep, p: Path)
    requires WellFormed(s) && PassEnabled(c, s, l)
    ensures Outstanding(ApplyPass(c, s, l), p) ==> Outstanding(s, p)
    ensures IsCopy(s, Pass(l), p) ==> Outstanding(s, p) && !Outstanding(ApplyPass(c, s, l), p)
  {
    hide EngineMayReport, RetryDue, HeapWellFormed, IsDueSelection;
    if l.Select? {
      SelectionIsWellFormed(s, l.now, c.batch, l.jobs);
    }
  }

  /** A path is copied at most once per scheduling event (plus once for a job an
      earlier process left pending), whatever fails, repeats or interleaves. */
  lemma {:induction false} CopiesNeedAccesses(c: Settings, s: State, ls: seq<Label>, p: Path)
    requires Initial(s) && IsRun(c, s, ls)
    ensures Copies(c, s, ls, p) + (if Outstanding(Exec(c, s, ls), p) then 1 else 0)
            <= Accesses(c, s, ls, p) + (if p in s.db.pending then 1 else 0)
  {
    if ls != [] {
      var front := ls[..|ls| - 1];
      CopiesNeedAccesses(c, s, front, p);
      WellFormedRun(c, s, front);
      OutstandingStep(c, Exec(c, s, front), ls[|ls| - 1], p);
    }
  }

  // ---------- bursts ----------

  /** The steps a burst of accesses to p consists of: each access comes before the
      quiet period after the previous one is over, no attempt on p fails, and
      nobody runs a pass directly. */
  ghost predicate InBurst(c: Settings, s: State, l: Label, h: Watch, p: Path) {
    && l != Control(DirectPass)
    && (l == Pass(Reschedule) && OnJob(s.worker) ==> Target(s.worker) != p)
    && (IsAccess(s, l, p) ==> !QuietOver(c, s, h, p))
  }

  ghost predicate BurstRun(c: Settings, s: State, ls: seq<Label>, p: Path) {
    ls == [] ||
    (BurstRun(c, s, ls[..|ls| - 1], p)
     && InBurst(c, Exec(c, s, ls[..|ls| - 1]), ls[|ls| - 1], Observe(c, s, ls[..|ls| - 1]), p))
  }

  /** p is the current job of the pass or comes later in its batch. */
  predicate InRest(w: Worker, p: Path) {
    w.Passing? && exists k :: w.next <= k < |w.jobs| && w.jobs[k].path == p
  }

  predicate CopyUnderWay(w: Worker, p: Path) {
    OnJob(w) && Target(w) == p && (w.stage.Copying? || w.stage.Indexing? || w.stage.Dropping?)
  }

  /** The quiet period after p's latest access is over. */
  ghost predicate QuietOver(c: Settings, s: State, h: Watch, p: Path) {
    p in h.last && QuietUntil(c, h, p) <= ToSeconds(s.clock)
  }

  ghost predicate BurstHolds(c: Settings, s: State, h: Watch, p: Path, copies: nat) {
    && (p in h.last ==> p in h.exact)
    && (InRest(s.worker, p) ==> p !in h.touched)
    && HasEntry(s.worker)
    && (Outstanding(s, p) ==> p in h.last)
    && (CopyUnderWay(s.worker, p) || copies > 0 ==> QuietOver(c, s, h, p))
    && copies + (if Outstanding(s, p) then 1 else 0) <= 1
  }

  predicate HasEntry(w: Worker) {
    w.Due? || w.Passing? ==> w.entry.Some?
  }

  lemma CopyComesFromStart(c: Settings, s: State, l: Label, p: Path)
    requires Enabled(c, s, l)
    ensures var t := Apply(c, s, l);
            && (CopyUnderWay(t.worker, p) ==> CopyUnderWay(s.worker, p) || (l == Pass(StartCopy) && Target(s.worker) == p))
            && (IsCopy(s, l, p) ==> CopyUnderWay(s.worker, p))
            && (InRest(t.worker, p) ==> InRest(s.worker, p) || (l.Pass? && l.pass.Select?))
            && (HasEntry(s.worker) && l != Control(DirectPass) ==> HasEntry(t.worker))
            && t.clock >= s.clock
  {
    hide ApplyPass, ApplyControl, PassEnabled, ControlEnabled, CopyUnderWay, HasEntry, InRest;
    match l
    case Env(_) =>
    case Recorder(_) =>
    case Control(k) => ControlHasEntry(s, k, p);
    case Pass(pass) =>
      PassFrame(c, s, pass);
      PassCopies(c, s, pass, p);
      PassHasEntry(c, s, pass);
      if !pass.Select? {
        RestShrinks(c, s, pass, p);
      }
  }

  lemma ControlHasEntry(s: State, l: ControlStep, p: Path)
    requires ControlEnabled(s, l)
    ensures var t := ApplyControl(s, l);
            && t.clock == s.clock && !CopyUnderWay(t.worker, p) && !InRest(t.worker, p)
            && (!l.DirectPass? ==> HasEntry(t.worker))
  {
    ControlFrame(s, l);
    hide Faithful, PathsOf, Later, PushAll;
  }

  lemma PassCopies(c: Settings, s: State, l: PassStep, p: Path)
    requires PassEnabled(c, s, l)
    ensures CopyUnderWay(ApplyPass(c, s, l).worker, p) ==>
              CopyUnderWay(s.worker, p) || (l.StartCopy? && Target(s.worker) == p)
    ensures l.Drop? && Target(s.worker) == p ==> CopyUnderWay(s.worker, p)
  {
    hide IsDueSelection, EngineMayReport, RetryDue, MarkRemoved, MarkCached, RecordError, UpsertPending, RemovePending;
  }

  lemma PassHasEntry(c: Settings, s: State, l: PassStep)
    requires PassEnabled(c, s, l)
    ensures var t := ApplyPass(c, s, l);
            HasEntry(s.worker) ==> HasEntry(t.worker)
  {
    hide IsDueSelection, EngineMayReport, RetryDue, MarkRemoved, MarkCached, RecordError, UpsertPending, RemovePending;
  }

  lemma RestShrinks(c: Settings, s: State, l: PassStep, p: Path)
    requires PassEnabled(c, s, l) && !l.Select?
    ensures InRest(ApplyPass(c, s, l).worker, p) ==> InRest(s.worker, p)
  {
    PassAdvances(c, s, l);
    hide ApplyPass, PassEnabled;
  }

  lemma WatchStep(c: Settings, s: State, l: Label, h: Watch, p: Path)
    requires InBurst(c, s, l, h, p) && Enabled(c, s, l)
    ensures var h' := Note(s, l, h);
            && (IsAccess(s, l, p) ==> p in h'.last && p in h'.exact)
            && (!IsAccess(s, l, p) ==>
                  && (p in h'.last <==> p in h.last) && (p in h.last ==> h'.last[p] == h.last[p])
                  && (p in h.exact ==> p in h'.exact) && (p in h'.touched ==> p in h.touched))
            && (l.Pass? && l.pass.Select? ==> p !in h'.touched)
  {
    hide ApplyPass, ApplyControl, ApplyRecorder, PassEnabled, ControlEnabled, ToSeconds;
  }

  lemma QuietStaysOver(c: Settings, s: State, h: Watch, t: State, h': Watch, p: Path)
    requires QuietOver(c, s, h, p) && t.clock >= s.clock && p in h'.last && h'.last[p] == h.last[p]
    ensures QuietOver(c, t, h', p)
  {
    ToSecondsMonotone(s.clock, t.clock);
  }

  /** What is left of a batch is past its quiet period. */
  lemma RestIsQuiet(c: Settings, s: State, h: Watch, p: Path)
    requires WellFormed(s) && KeepsQuiet(c, s, h) && HasEntry(s.worker)
    ensures InRest(s.worker, p) && p in h.exact && p !in h.touched ==> QuietOver(c, s, h, p)
  {
    if InRest(s.worker, p) {
      var k :| s.worker.next <= k < |s.worker.jobs| && s.worker.jobs[k].path == p;
      assert JobKeepsQuiet(c, s, h, k);
      assert s.worker.jobs[k].row.due <= ToSeconds(s.worker.now);
      ToSecondsMonotone(s.worker.now, s.clock);
    }
  }

  lemma BurstStep(c: Settings, s: State, l: Label, h: Watch, p: Path, copies: nat)
    requires WellFormed(s) && Enabled(c, s, l) && KeepsQuiet(c, s, h) && InBurst(c, s, l, h, p) && BurstHolds(c, s, h, p, copies)
    ensures BurstHolds(c, Apply(c, s, l), Note(s, l, h), p, copies + if IsCopy(s, l, p) then 1 else 0)
  {
    var t, h' := Apply(c, s, l), Note(s, l, h);
    hide Apply, Enabled, WellFormed, KeepsQuiet, Note, ToSeconds, QuietUntil, CopyUnderWay, HasEntry, InRest, Outstanding, IsAccess, IsCopy, QuietOver;
    OutstandingStep(c, s, l, p);
    CopyComesFromStart(c, s, l, p);
    WatchStep(c, s, l, h, p);
    RestIsQuiet(c, s, h, p);
    RestIsOutstanding(s, p);
    RestIsOutstanding(t, p);
    WellFormedStep(c, s, l);
    QuietStep(c, s, l, h);
    if IsAccess(s, l, p) {
      AccessKeepsWorker(c, s, l, p);
    } else if QuietOver(c, s, h, p) {
      OverMeansSeen(c, s, h, p);
      QuietStaysOver(c, s, h, t, h', p);
    }
    RestIsQuiet(c, t, h', p);
  }

  lemma OverMeansSeen(c: Settings, s: State, h: Watch, p: Path)
    requires QuietOver(c, s, h, p)
    ensures p in h.last
  {
  }

  lemma RestIsOutstanding(s: State, p: Path)
    ensures CopyUnderWay(s.worker, p) ==> InRest(s.worker, p)
    ensures InRest(s.worker, p) ==> Outstanding(s, p)
  {
  }

  lemma AccessKeepsWorker(c: Settings, s: State, l: Label, p: Path)
    requires Enabled(c, s, l) && IsAccess(s, l, p)
    ensures Apply(c, s, l).worker == s.worker && !IsCopy(s, l, p)
  {
  }

  /** A burst of accesses causes at most one copy, and that one starts only after
      the quiet period behind the last of them. */
  lemma {:induction false} BurstCausesOneCopy(c: Settings, s: State, ls: seq<Label>, p: Path)
    requires Initial(s) && IsRun(c, s, ls) && BurstRun(c, s, ls, p) && p !in s.db.pending
    ensures BurstHolds(c, Exec(c, s, ls), Observe(c, s, ls), p, Copies(c, s, ls, p))
    ensures Copies(c, s, ls, p) <= 1
    ensures Copies(c, s, ls, p) == 1 || CopyUnderWay(Exec(c, s, ls).worker, p) ==>
              QuietOver(c, Exec(c, s, ls), Observe(c, s, ls), p)
  {
    hide BurstHolds, InBurst, Apply, Enabled, Note, QuietOver, CopyUnderWay, IsCopy, Initial, WellFormed, KeepsQuiet;
    if ls == [] {
      BurstStarts(c, s, p);
    } else {
      var front, l := ls[..|ls| - 1], ls[|ls| - 1];
      BurstCausesOneCopy(c, s, front, p);
      WellFormedRun(c, s, front);
      KeepsQuietEveryRun(c, s, front);
      BurstStep(c, Exec(c, s, front), l, Observe(c, s, front), p, Copies(c, s, front, p));
    }
    BurstMeans(c, Exec(c, s, ls), Observe(c, s, ls), p, Copies(c, s, ls, p));
  }

  lemma BurstStarts(c: Settings, s: State, p: Path)
    requires Initial(s) && p !in s.db.pending
    ensures BurstHolds(c, s, UNWATCHED, p, 0)
  {
  }

  lemma BurstMeans(c: Settings, s: State, h: Watch, p: Path, copies: nat)
    requires BurstHolds(c, s, h, p, copies)
    ensures copies <= 1 && (copies == 1 || CopyUnderWay(s.worker, p) ==> QuietOver(c, s, h, p))
  {
  }
}
