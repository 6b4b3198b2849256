/** One call of the copy engine as a step of the scheduler's protocol. */
module EngineInProtocol {
  import opened Prelude
  import opened IndexModel
  import opened Protocol
  import opened HeapCoverage
  import opened CopyEngine

  /** The step the engine's outcome induces: an exception leaves the pass, a
      result is acted on. */
  function EngineStep(o: Outcome, after: Files, cache: Path): PassStep {
    match o
    case Threw(message) => Throw(message)
    case Returned(result) => FinishCopy(result, if cache in after then |after[cache]| else 0)
  }

  lemma EngineStepIs(o: Outcome, after: Files, cache: Path)
    ensures o.Threw? ==> EngineStep(o, after, cache) == Throw(o.message)
    ensures o.Returned? ==> EngineStep(o, after, cache) == FinishCopy(o.result, if cache in after then |after[cache]| else 0)
  {
  }

  /** The worker is copying, and it alone carries the popped row's wake-up. */
  ghost predicate CarriesAlone(s: State) {
    && Serving(s) && OnJob(s.worker) && s.worker.stage.Copying? && s.worker.entry.Some?
    && var held := s.worker.entry.value;
       && RowDueAt(s, held.path, held.due) && Unsettled(s.worker, held.path)
       && !InHeap(s, held.path, held.due) && !RecorderHolds(s, held.path, held.due)
  }

  lemma ReportKeepsWakeUp(c: Settings, s: State, r: CopyResult, bytes: nat)
    requires CarriesAlone(s) && EngineMayReport(s, Target(s.worker), r, bytes)
    ensures PassEnabled(c, s, FinishCopy(r, bytes))
    ensures var t, p := ApplyPass(c, s, FinishCopy(r, bytes)), s.worker.entry.value.path;
            p in t.db.pending && Covered(t, p)
  {
    hide InHeap;
    var w := s.worker;
    var k :| 0 <= k < |w.jobs| && w.next + (if w.stage.Requeueing? then 1 else 0) <= k && w.jobs[k].path == w.entry.value.path;
    var t := ApplyPass(c, s, FinishCopy(r, bytes));
    assert t.worker.jobs[k].path == w.entry.value.path;
    assert Unsettled(t.worker, w.entry.value.path);
  }

  lemma ThrowLeavesIt(c: Settings, s: State, error: string)
    requires CarriesAlone(s)
    ensures PassEnabled(c, s, Throw(error))
    ensures var t, p := ApplyPass(c, s, Throw(error)), s.worker.entry.value.path;
            p in t.db.pending && !Covered(t, p)
  {
    ThrowLosesWakeUp(c, s, error);
  }

  /** The scheduler and its engine together: on a disk whose sizes are real, the
      step the engine's outcome induces is one the protocol allows, and it keeps
      the wake-up of a popped row that nothing else covers exactly when the engine
      is not asked to compare a file it cannot hash. */
  lemma EngineKeepsWakeUpIff(c: Settings, s: State, e: Surroundings, d: Digest, chunkSize: nat, files: Files, held: set<Path>,
                             cache: Path, compareHash: bool)
    requires CarriesAlone(s)
    requires Target(s.worker) in s.disk <==> cache in files
    requires Target(s.worker) in s.disk ==> s.disk[Target(s.worker)] == |files[cache]|
    requires forall n :: !e.cancelled(n)
    ensures var (o, after) := CopyOutcome(e, d, chunkSize, files, held, cache, compareHash);
            var step, p := EngineStep(o, after, cache), s.worker.entry.value.path;
            && PassEnabled(c, s, step) && p in ApplyPass(c, s, step).db.pending
            && (Covered(ApplyPass(c, s, step), p) <==> !HashingFails(e, chunkSize, files, cache, compareHash))
  {
    hide *;
    var (o, after) := CopyOutcome(e, d, chunkSize, files, held, cache, compareHash);
    CarriesOnJob(s);
    ThrowsExactlyWhenHashingFails(e, d, chunkSize, files, held, cache, compareHash);
    EngineStepIs(o, after, cache);
    if o.Threw? {
      ThrowLeavesIt(c, s, o.message);
    } else {
      EngineKeepsItsPromise(e, d, chunkSize, files, held, cache, compareHash, s, Target(s.worker));
      ReportKeepsWakeUp(c, s, o.result, if cache in after then |after[cache]| else 0);
    }
  }

  lemma CarriesOnJob(s: State)
    requires CarriesAlone(s)
    ensures OnJob(s.worker)
  {
  }
}
