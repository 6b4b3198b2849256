/** What the index says about the cache disk, over every interleaving of events,
    passes, evictions and source-missing clean-ups. */
module DiskAgreement {
  import opened Prelude
  import opened IndexModel
  import opened Protocol

  /** The paths whose latest recorded copy read a different number of bytes than
      the size the engine had inspected (the recorded size is the inspected one). */
  ghost function NoteDrift(s: State, l: Label, drift: set<Path>): set<Path> {
    if l == Pass(Index) && OnJob(s.worker) && s.worker.stage.Indexing? then
      if s.worker.stage.result.action == Copied && s.worker.stage.bytes != s.worker.stage.result.cachedSize
      then drift + {Target(s.worker)}
      else drift - {Target(s.worker)}
    else drift
  }

  ghost function Drift(c: Settings, s: State, ls: seq<Label>): set<Path> {
    if ls == [] then {}
    else NoteDrift(Exec(c, s, ls[..|ls| - 1]), ls[|ls| - 1], Drift(c, s, ls[..|ls| - 1]))
  }

  /** The one path whose file the worker has just changed without having told
      the index yet. */
  predicate InFlight(w: Worker, p: Path) {
    OnJob(w) && match w.stage
      case Evicting(victim) => victim == p
      case Indexing(_, _) => Target(w) == p
      case Unlisting => Target(w) == p
      case _ => false
  }

  /** The size the index lists for a cached file. */
  function Listed(db: Db<int>, p: Path): Option<nat> {
    if p in db.files && db.files[p].present then Some(db.files[p].cachedSize) else None
  }

  ghost predicate Agrees(s: State, drift: set<Path>, p: Path) {
    Listed(s.db, p).Some? ==>
      p in s.disk && (s.disk[p] == Listed(s.db, p).value <==> p !in drift)
  }

  /** A successful engine report describes the file now on disk. */
  ghost predicate ReportIsTrue(s: State) {
    OnJob(s.worker) && s.worker.stage.Indexing? ==>
      && Target(s.worker) in s.disk && s.disk[Target(s.worker)] == s.worker.stage.bytes
      && (s.worker.stage.result.action != Copied ==> s.worker.stage.result.cachedSize == s.worker.stage.bytes)
  }

  ghost predicate IndexMatchesDisk(s: State, drift: set<Path>) {
    ReportIsTrue(s) && forall p :: !InFlight(s.worker, p) ==> Agrees(s, drift, p)
  }

  lemma RecorderKeepsAgreement(c: Settings, s: State, l: RecorderStep, drift: set<Path>)
    requires RecorderEnabled(s, l) && IndexMatchesDisk(s, drift)
    ensures IndexMatchesDisk(ApplyRecorder(c, s, l), drift)
  {
    hide EventDue;
    var t := ApplyRecorder(c, s, l);
    forall p | !InFlight(t.worker, p)
      ensures Agrees(t, drift, p)
    {
      assert Agrees(s, drift, p);
    }
  }

  lemma ControlKeepsAgreement(s: State, l: ControlStep, drift: set<Path>)
    requires ControlEnabled(s, l) && IndexMatchesDisk(s, drift)
    ensures IndexMatchesDisk(ApplyControl(s, l), drift)
  {
    ControlFrame(s, l);
    ControlLeavesNoFlight(s, l);
    hide ApplyControl, ControlEnabled;
    forall p
      ensures Agrees(ApplyControl(s, l), drift, p)
    {
      assert Agrees(s, drift, p);
    }
  }

  lemma ControlLeavesNoFlight(s: State, l: ControlStep)
    requires ControlEnabled(s, l)
    ensures !OnJob(s.worker)
  {
  }

  /** The three places where a pass changes what the index lists. */
  lemma PassListing(c: Settings, s: State, l: PassStep, p: Path)
    requires PassEnabled(c, s, l)
    ensures var t := ApplyPass(c, s, l);
            Listed(t.db, p) ==
              if l.Index? && p == Target(s.worker) then
                (if p in s.db.files then Some(s.worker.stage.result.cachedSize) else None)
              else if (l.UnlistVictim? && p == s.worker.stage.victim) || (l.Unlist? && p == Target(s.worker)) then None
              else Listed(s.db, p)
  {
    hide IsDueSelection, RetryDue, EngineMayReport;
  }

  lemma PassKeepsAgreement(c: Settings, s: State, l: PassStep, drift: set<Path>, p: Path)
    requires PassEnabled(c, s, l) && ReportIsTrue(s) && (InFlight(s.worker, p) || Agrees(s, drift, p))
    requires !InFlight(ApplyPass(c, s, l).worker, p)
    ensures Agrees(ApplyPass(c, s, l), NoteDrift(s, Pass(l), drift), p)
  {
    hide IsDueSelection, RetryDue, Listed, MarkRemoved, MarkCached, RecordError, UpsertPending, RemovePending;
    PassListing(c, s, l, p);
  }

  lemma PassKeepsReport(c: Settings, s: State, l: PassStep)
    requires PassEnabled(c, s, l) && ReportIsTrue(s)
    ensures ReportIsTrue(ApplyPass(c, s, l))
  {
    hide IsDueSelection, RetryDue, MarkRemoved, MarkCached, RecordError, UpsertPending, RemovePending;
  }

  lemma AgreementStep(c: Settings, s: State, l: Label, drift: set<Path>)
    requires Enabled(c, s, l) && IndexMatchesDisk(s, drift)
    ensures IndexMatchesDisk(Apply(c, s, l), NoteDrift(s, l, drift))
  {
    hide ApplyPass, ApplyControl, ApplyRecorder, PassEnabled, ControlEnabled, RecorderEnabled;
    match l
    case Env(_) =>
      forall p | !InFlight(Apply(c, s, l).worker, p)
        ensures Agrees(Apply(c, s, l), drift, p)
      {
        assert Agrees(s, drift, p);
      }
    case Recorder(r) => RecorderKeepsAgreement(c, s, r, drift);
    case Control(k) => ControlKeepsAgreement(s, k, drift);
    case Pass(pass) =>
      PassKeepsReport(c, s, pass);
      forall p | !InFlight(Apply(c, s, l).worker, p)
        ensures Agrees(Apply(c, s, l), NoteDrift(s, l, drift), p)
      {
        assert InFlight(s.worker, p) || Agrees(s, drift, p);
        PassKeepsAgreement(c, s, pass, drift, p);
      }
  }

  /** In every reachable state, a file the index calls cached is on the cache
      disk, and its recorded size is its size on disk exactly when its latest
      copy read as many bytes as the engine had inspected. The only exception is
      the one path in flight between a disk change and the index call for it. */
  lemma {:induction false} IndexMatchesDiskEveryRun(c: Settings, s: State, ls: seq<Label>)
    requires Initial(s) && IsRun(c, s, ls)
    requires forall p :: Agrees(s, {}, p)
    ensures IndexMatchesDisk(Exec(c, s, ls), Drift(c, s, ls))
  {
    if ls != [] {
      var front := ls[..|ls| - 1];
      IndexMatchesDiskEveryRun(c, s, front);
      AgreementStep(c, Exec(c, s, front), ls[|ls| - 1], Drift(c, s, front));
    }
  }

  ghost predicate StableSources(c: Settings, s: State, ls: seq<Label>) {
    forall k :: 0 <= k < |ls| && ls[k].Pass? && ls[k].pass.FinishCopy? && ls[k].pass.result.action == Copied ==>
      ls[k].pass.bytes == ls[k].pass.result.sourceSize
  }

  ghost predicate CopyIsExact(s: State) {
    OnJob(s.worker) && s.worker.stage.Indexing? && s.worker.stage.result.action == Copied ==>
      s.worker.stage.bytes == s.worker.stage.result.cachedSize
  }

  lemma {:induction false} StableSourcesNeverDrift(c: Settings, s: State, ls: seq<Label>)
    requires Initial(s) && IsRun(c, s, ls) && StableSources(c, s, ls)
    ensures Drift(c, s, ls) == {} && CopyIsExact(Exec(c, s, ls))
  {
    if ls != [] {
      var front := ls[..|ls| - 1];
      var l := ls[|ls| - 1];
      assert forall k :: 0 <= k < |front| ==> front[k] == ls[k];
      StableSourcesNeverDrift(c, s, front);
      ExactStep(c, Exec(c, s, front), l);
    }
  }

  lemma ExactStep(c: Settings, s: State, l: Label)
    requires Enabled(c, s, l) && CopyIsExact(s)
    requires l.Pass? && l.pass.FinishCopy? && l.pass.result.action == Copied ==>
               l.pass.bytes == l.pass.result.sourceSize
    ensures CopyIsExact(Apply(c, s, l)) && NoteDrift(s, l, {}) == {}
  {
    hide IsDueSelection, RetryDue, MarkRemoved, MarkCached, RecordError, UpsertPending, RemovePending, RecordAccess,
         ApplyControl, ControlEnabled;
    if l.Control? {
      ControlFrame(s, l.control);
    }
  }

  /** With sources that do not change while being copied, sizes always agree. */
  lemma SizesAgreeForStableSources(c: Settings, s: State, ls: seq<Label>, p: Path)
    requires Initial(s) && IsRun(c, s, ls) && StableSources(c, s, ls)
    requires forall q :: Agrees(s, {}, q)
    ensures var t := Exec(c, s, ls);
            p in t.db.files && t.db.files[p].present && !InFlight(t.worker, p) ==>
              p in t.disk && t.disk[p] == t.db.files[p].cachedSize
  {
    IndexMatchesDiskEveryRun(c, s, ls);
    StableSourcesNeverDrift(c, s, ls);
    var t := Exec(c, s, ls);
    assert !InFlight(t.worker, p) ==> Agrees(t, {}, p);
  }

  /** The converse does not hold: recording a delete unlists a cached file and
      leaves it on the disk. A file is on the disk unlisted afterwards exactly when
      it was on the disk before. */
  lemma DeleteLeavesTheFile(c: Settings, s: State)
    requires RecorderEnabled(s, Record) && s.recorder.event.kind == Delete
    ensures var t, p := ApplyRecorder(c, s, Record), s.recorder.event.path;
            && t.disk == s.disk && Listed(t.db, p).None? && p !in t.db.pending
            && (p in t.disk && Listed(t.db, p).None? <==> p in s.disk)
  {
  }
}
