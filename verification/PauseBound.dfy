/** What may still happen after set_paused(true). */
module PauseBound {
  import opened Prelude
  import opened IndexModel
  import opened Protocol

  /** Copies started, and event records made, since the latest pause. */
  datatype Tally = Tally(starts: nat, records: nat)

  ghost function Note(s: State, l: Label, h: Tally): Tally {
    match l
    case Env(SetPaused(on)) => if on && !s.paused then Tally(0, 0) else h
    case Pass(StartCopy) => h.(starts := h.starts + 1)
    case Recorder(Record) => h.(records := h.records + 1)
    case _ => h
  }

  ghost function Observe(c: Settings, s: State, ls: seq<Label>): Tally {
    if ls == [] then Tally(0, 0)
    else Note(Exec(c, s, ls[..|ls| - 1]), ls[|ls| - 1], Observe(c, s, ls[..|ls| - 1]))
  }

  /** Copies the worker may start before it looks at the pause flag again. */
  function Budget(c: Settings, w: Worker): int {
    match w
    case Checking(_, _) => c.batch
    case Due(_, _) => c.batch
    case Passing(_, _, jobs, next, stage) =>
      |jobs| - next - (if stage.MakingRoom? || stage.Evicting? then 0 else 1)
    case _ => 0
  }

  ghost predicate Bounded(c: Settings, s: State, h: Tally) {
    && Budget(c, s.worker) <= c.batch
    && (s.paused ==> h.starts + Budget(c, s.worker) <= c.batch)
    && (s.paused ==> h.records + (if s.recorder.Accepted? then 1 else 0) <= 1)
  }

  /** Nobody calls run_due_once directly while the scheduler is paused. */
  ghost predicate NoDirectCall(c: Settings, s: State, ls: seq<Label>) {
    ls == [] || (NoDirectCall(c, s, ls[..|ls| - 1])
                 && !(Exec(c, s, ls[..|ls| - 1]).paused && ls[|ls| - 1] == Control(DirectPass)))
  }

  lemma ControlKeepsBound(c: Settings, s: State, l: ControlStep, h: Tally)
    requires ControlEnabled(s, l) && Bounded(c, s, h) && c.batch > 0 && !(s.paused && l.DirectPass?)
    ensures Bounded(c, ApplyControl(s, l), h)
  {
    ControlFrame(s, l);
    if l.PushRows? {
      PushAllKeepsRest(s, s.worker.rows);
    }
  }

  lemma PassKeepsBound(c: Settings, s: State, l: PassStep, h: Tally)
    requires PassEnabled(c, s, l) && Bounded(c, s, h) && c.batch > 0 && WellFormed(s)
    ensures Bounded(c, ApplyPass(c, s, l), Note(s, Pass(l), h))
  {
    hide EngineMayReport, RetryDue, HeapWellFormed, MarkRemoved, MarkCached, RecordError, UpsertPending, RemovePending;
    PassFrame(c, s, l);
  }

  lemma BoundStep(c: Settings, s: State, l: Label, h: Tally)
    requires Enabled(c, s, l) && Bounded(c, s, h) && c.batch > 0 && WellFormed(s)
    requires !(s.paused && l == Control(DirectPass))
    ensures Bounded(c, Apply(c, s, l), Note(s, l, h))
  {
    hide ApplyPass, ApplyControl, PassEnabled, ControlEnabled, WellFormed;
    match l
    case Env(_) =>
    case Recorder(_) =>
    case Control(k) => ControlKeepsBound(c, s, k, h);
    case Pass(p) => PassKeepsBound(c, s, p, h);
  }

  /** From a pause until the resume, at most due_batch_size copies start and at
      most one event - the one already past its pause check - reaches the index. */
  lemma {:induction false} PauseIsBounded(c: Settings, s: State, ls: seq<Label>)
    requires Initial(s) && IsRun(c, s, ls) && NoDirectCall(c, s, ls) && c.batch > 0
    ensures Bounded(c, Exec(c, s, ls), Observe(c, s, ls))
    ensures Exec(c, s, ls).paused ==>
              Observe(c, s, ls).starts <= c.batch && Observe(c, s, ls).records <= 1
  {
    if ls != [] {
      var front := ls[..|ls| - 1];
      PauseIsBounded(c, s, front);
      WellFormedRun(c, s, front);
      BoundStep(c, Exec(c, s, front), ls[|ls| - 1], Observe(c, s, front));
    }
    WellFormedRun(c, s, ls);
    BudgetIsNonNegative(c, Exec(c, s, ls));
  }

  lemma BudgetIsNonNegative(c: Settings, s: State)
    requires c.batch > 0 && WellFormed(s)
    ensures Budget(c, s.worker) >= 0
  {
  }

  /** Putting a popped entry back because of a pause restores the very entry
      the row needs: same path, same due second. */
  lemma PauseRequeueKeepsEntry(s: State)
    requires ControlEnabled(s, PutBack)
    ensures exists e :: e in ApplyControl(s, PutBack).heap && e.path == s.worker.held.path && e.due == s.worker.held.due
    ensures ApplyControl(s, PutBack).db == s.db
  {
    assert Entry(s.worker.held.due, s.sequence + 1, s.worker.held.path) in ApplyControl(s, PutBack).heap;
  }
}
