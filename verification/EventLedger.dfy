/** No accepted event is forgotten: what became of every scheduling event, over
    every interleaving of the recorder and the worker. */
module EventLedger {
  import opened Prelude
  import opened IndexModel
  import opened Protocol

  /** A scheduling event of `path`, recorded as step number `at` of the run. */
  datatype Recorded = Recorded(path: Path, at: nat)

  /** What an observer of the run writes down. It never influences a step. */
  datatype Ledger = Ledger(
    time: nat,                   // number of the next step
    events: set<Recorded>,       // scheduling events the index accepted
    late: set<Recorded>,         // those that landed while the engine worked on the same path
    started: nat,                // step at which the latest copy began
    copied: map<Path, nat>,      // start of the latest copy of the path that did not fail
    removed: map<Path, nat>)     // latest removal of the path from the index

  const BLANK := Ledger(1, {}, {}, 0, map[], map[])

  /** Between the start of p's copy and the deletion of its pending row. */
  predicate InWindow(s: State, p: Path) {
    OnJob(s.worker) && Target(s.worker) == p
    && (s.worker.stage.Copying? || s.worker.stage.Indexing? || s.worker.stage.Dropping?)
  }

  ghost function NoteRecorder(s: State, l: RecorderStep, h: Ledger): Ledger {
    if !l.Record? || !s.recorder.Accepted? then h
    else
      var e := s.recorder.event;
      var entry := Recorded(e.path, h.time);
      if e.kind == Delete then h.(removed := h.removed[e.path := h.time])
      else if SchedulesCopy(e.kind) then
        h.(events := h.events + {entry}, late := if InWindow(s, e.path) then h.late + {entry} else h.late)
      else h
  }

  ghost function NotePass(s: State, l: PassStep, h: Ledger): Ledger {
    if !OnJob(s.worker) then h
    else
      match l
      case StartCopy => h.(started := h.time)
      case Index => h.(copied := h.copied[Target(s.worker) := h.started])
      case UnlistVictim =>
        if s.worker.stage.Evicting? then h.(removed := h.removed[s.worker.stage.victim := h.time]) else h
      case Unlist => h.(removed := h.removed[Target(s.worker) := h.time])
      case _ => h
  }

  ghost function Note(s: State, l: Label, h: Ledger): Ledger {
    var noted := match l
      case Recorder(r) => NoteRecorder(s, r, h)
      case Pass(p) => NotePass(s, p, h)
      case _ => h;
    noted.(time := h.time + 1)
  }

  ghost function Observe(c: Settings, s: State, ls: seq<Label>): Ledger {
    if ls == [] then BLANK
    else Note(Exec(c, s, ls[..|ls| - 1]), ls[|ls| - 1], Observe(c, s, ls[..|ls| - 1]))
  }

  /** Still pending, or followed by a copy begun after it that did not fail, or
      cancelled by a later removal. */
  predicate Answered(s: State, h: Ledger, e: Recorded) {
    || e.path in s.db.pending
    || (e.path in h.copied && h.copied[e.path] > e.at)
    || (e.path in h.removed && h.removed[e.path] > e.at)
  }

  /** The written step numbers are in the order things happened. */
  ghost predicate InOrder(s: State, h: Ledger) {
    && h.started < h.time
    && (forall e :: e in h.events ==> e.at < h.time)
    && (forall p :: p in h.copied ==> h.copied[p] <= h.started)
    && (forall p :: p in h.removed ==> h.removed[p] < h.time)
    && (OnJob(s.worker) && s.worker.stage.Dropping? ==>
          Target(s.worker) in h.copied && h.copied[Target(s.worker)] == h.started)
  }

  /** e is answered, and if the engine works on its path, that copy began later. */
  ghost predicate InHand(s: State, h: Ledger, e: Recorded) {
    Answered(s, h, e) && (InWindow(s, e.path) ==> e.at < h.started)
  }

  ghost predicate LedgerHolds(s: State, h: Ledger) {
    InOrder(s, h) && forall e :: e in h.events && e !in h.late ==> InHand(s, h, e)
  }

  lemma RecorderKeepsOrder(c: Settings, s: State, l: RecorderStep, h: Ledger)
    requires RecorderEnabled(s, l) && InOrder(s, h)
    ensures InOrder(ApplyRecorder(c, s, l), Note(s, Recorder(l), h))
  {
    hide EventDue, RecordAccess, MarkRemoved;
  }

  lemma RecorderKeepsEvent(c: Settings, s: State, l: RecorderStep, h: Ledger, e: Recorded)
    requires RecorderEnabled(s, l) && InOrder(s, h)
    requires e in Note(s, Recorder(l), h).events && e !in Note(s, Recorder(l), h).late
    requires e in h.events && e !in h.late ==> InHand(s, h, e)
    ensures InHand(ApplyRecorder(c, s, l), Note(s, Recorder(l), h), e)
  {
    hide EventDue;
  }

  lemma ControlKeepsEvent(s: State, l: ControlStep, h: Ledger, e: Recorded)
    requires ControlEnabled(s, l) && InHand(s, h, e)
    ensures InHand(ApplyControl(s, l), Note(s, Control(l), h), e)
  {
    ControlFrame(s, l);
    hide ApplyControl, ControlEnabled;
  }

  lemma ControlKeepsOrder(s: State, l: ControlStep, h: Ledger)
    requires ControlEnabled(s, l) && InOrder(s, h)
    ensures InOrder(ApplyControl(s, l), Note(s, Control(l), h))
  {
    ControlFrame(s, l);
    hide ApplyControl, ControlEnabled;
  }

  lemma PassKeepsOrder(c: Settings, s: State, l: PassStep, h: Ledger)
    requires PassEnabled(c, s, l) && InOrder(s, h)
    ensures InOrder(ApplyPass(c, s, l), Note(s, Pass(l), h))
  {
    hide IsDueSelection, EngineMayReport, RetryDue, MarkRemoved, MarkCached, RecordError, UpsertPending, RemovePending;
  }

  lemma PassKeepsEvent(c: Settings, s: State, l: PassStep, h: Ledger, e: Recorded)
    requires PassEnabled(c, s, l) && InOrder(s, h) && InHand(s, h, e) && e.at < h.time
    ensures InHand(ApplyPass(c, s, l), Note(s, Pass(l), h), e)
  {
    hide ApplyPass, PassEnabled, NotePass, InOrder, InWindow;
    PassKeepsAnswer(c, s, l, h, e);
    PassKeepsWindow(c, s, l, h, e);
  }

  lemma PassKeepsAnswer(c: Settings, s: State, l: PassStep, h: Ledger, e: Recorded)
    requires PassEnabled(c, s, l) && InOrder(s, h) && InHand(s, h, e) && e.at < h.time
    ensures Answered(ApplyPass(c, s, l), Note(s, Pass(l), h), e)
  {
    hide IsDueSelection, EngineMayReport, ApplyPass;
    if e.path in s.db.pending && e.path !in ApplyPass(c, s, l).db.pending {
      PassRemovesRow(c, s, l, e.path);
    }
  }

  lemma PassKeepsWindow(c: Settings, s: State, l: PassStep, h: Ledger, e: Recorded)
    requires PassEnabled(c, s, l) && InHand(s, h, e) && e.at < h.time
    ensures InWindow(ApplyPass(c, s, l), e.path) ==> e.at < Note(s, Pass(l), h).started
  {
    hide IsDueSelection, EngineMayReport, RetryDue, Answered, MarkRemoved, MarkCached, RecordError, UpsertPending, RemovePending;
  }

  lemma LedgerStep(c: Settings, s: State, l: Label, h: Ledger)
    requires Enabled(c, s, l) && LedgerHolds(s, h)
    ensures LedgerHolds(Apply(c, s, l), Note(s, l, h))
  {
    OrderStep(c, s, l, h);
    forall e | e in Note(s, l, h).events && e !in Note(s, l, h).late
      ensures InHand(Apply(c, s, l), Note(s, l, h), e)
    {
      EventStep(c, s, l, h, e);
    }
  }

  lemma OrderStep(c: Settings, s: State, l: Label, h: Ledger)
    requires Enabled(c, s, l) && InOrder(s, h)
    ensures InOrder(Apply(c, s, l), Note(s, l, h))
  {
    hide ApplyPass, ApplyControl, ApplyRecorder, PassEnabled, ControlEnabled, RecorderEnabled, NotePass, NoteRecorder;
    match l
    case Env(_) =>
    case Recorder(r) => RecorderKeepsOrder(c, s, r, h);
    case Control(k) => ControlKeepsOrder(s, k, h);
    case Pass(p) => PassKeepsOrder(c, s, p, h);
  }

  lemma EventStep(c: Settings, s: State, l: Label, h: Ledger, e: Recorded)
    requires Enabled(c, s, l) && LedgerHolds(s, h)
    requires e in Note(s, l, h).events && e !in Note(s, l, h).late
    ensures InHand(Apply(c, s, l), Note(s, l, h), e)
  {
    hide ApplyPass, ApplyControl, ApplyRecorder, PassEnabled, ControlEnabled, RecorderEnabled, NoteRecorder;
    match l
    case Env(_) => assert InHand(s, h, e);
    case Recorder(r) => RecorderKeepsEvent(c, s, r, h, e);
    case Control(k) => ControlKeepsEvent(s, k, h, e);
    case Pass(p) => PassKeepsEvent(c, s, p, h, e);
  }

  lemma {:induction false} LedgerHoldsEveryRun(c: Settings, s: State, ls: seq<Label>)
    requires Initial(s) && IsRun(c, s, ls)
    ensures LedgerHolds(Exec(c, s, ls), Observe(c, s, ls))
  {
    if ls != [] {
      var front := ls[..|ls| - 1];
      LedgerHoldsEveryRun(c, s, front);
      LedgerStep(c, Exec(c, s, front), ls[|ls| - 1], Observe(c, s, front));
    }
  }

  /** In every state of every run, a scheduling event that did not land while
      the engine was working on the same path is answered. */
  lemma NoEventIsForgotten(c: Settings, s: State, ls: seq<Label>)
    requires Initial(s) && IsRun(c, s, ls)
    ensures forall e :: e in Observe(c, s, ls).events && e !in Observe(c, s, ls).late ==>
              Answered(Exec(c, s, ls), Observe(c, s, ls), e)
  {
    LedgerHoldsEveryRun(c, s, ls);
  }

  /** The window is exact. When a pass deletes the pending row of a path it has
      copied, an event of that path stays answered if and only if it came before
      the copy began or a removal came after it. */
  lemma DropForgetsExactlyTheLate(c: Settings, s: State, ls: seq<Label>, e: Recorded)
    requires Initial(s) && IsRun(c, s, ls)
    requires PassEnabled(c, Exec(c, s, ls), Drop) && e.path == Target(Exec(c, s, ls).worker)
    requires e in Observe(c, s, ls).events
    ensures var h := Observe(c, s, ls);
            Answered(Exec(c, s, ls + [Pass(Drop)]), Observe(c, s, ls + [Pass(Drop)]), e)
            <==> e.at < h.started || (e.path in h.removed && h.removed[e.path] > e.at)
  {
    LedgerHoldsEveryRun(c, s, ls);
    RunGrows(c, s, ls, Pass(Drop));
    assert (ls + [Pass(Drop)])[..|ls|] == ls;
  }
}
