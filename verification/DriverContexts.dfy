/** The driver's write tracking on one file handle: pre-write and pre-cleanup
    callbacks of any number of threads, interleaved step by step over the
    filter manager's reference-counted handle context. */
module DriverContexts {
  import opened Prelude

  datatype Context = Context(written: bool, refs: nat)

  datatype Event = WriteObserved | WriteClosed

  /** What a callback does next. */
  datatype Thread =
    | ToGet                        // pre-write, not ignored
    | ToAllocate
    | ToAttach(own: nat)           // allocated, about to set it on the handle
    | ToMark(marks: nat)
    | ToRelease(marked: nat)
    | ToReport
    | ToFind                       // pre-cleanup
    | ToCheck(found: nat)
    | ToDelete(checked: nat)
    | ToDrop(dropped: nat)
    | Finished

  datatype State = State(
    contexts: map<nat, Context>,   // the live ones
    nextId: nat,
    attached: Option<nat>,
    threads: map<nat, Thread>,
    events: seq<Event>)

  /** Outcomes the driver does not control are part of a step: whether a call
      succeeds, whether an event gets through its own checks. */
  datatype Step =
    | BeginWrite(t: nat, ignored: bool) | Get(t: nat) | Allocate(t: nat, ok: bool) | Attach(t: nat, ok: bool)
    | Mark(t: nat) | Release(t: nat) | Report(t: nat, sent: bool)
    | BeginCleanup(t: nat) | Find(t: nat) | Check(t: nat, sent: bool) | Delete(t: nat) | Drop(t: nat)

  predicate IsWriter(w: Thread) {
    w.ToGet? || w.ToAllocate? || w.ToAttach? || w.ToMark? || w.ToRelease? || w.ToReport?
  }

  function Held(w: Thread): Option<nat> {
    match w
    case ToAttach(c) => Some(c)
    case ToMark(c) => Some(c)
    case ToRelease(c) => Some(c)
    case ToCheck(c) => Some(c)
    case ToDelete(c) => Some(c)
    case ToDrop(c) => Some(c)
    case _ => None
  }

  // ---------- the filter manager ----------

  function AddRef(contexts: map<nat, Context>, c: nat): map<nat, Context> {
    if c in contexts then contexts[c := contexts[c].(refs := contexts[c].refs + 1)] else contexts
  }

  /** FltReleaseContext: the last reference frees the context. */
  function DropRef(contexts: map<nat, Context>, c: nat): map<nat, Context> {
    if c !in contexts then contexts
    else if contexts[c].refs <= 1 then contexts - {c}
    else contexts[c := contexts[c].(refs := contexts[c].refs - 1)]
  }

  function SetWritten(contexts: map<nat, Context>, c: nat): map<nat, Context> {
    if c in contexts then contexts[c := contexts[c].(written := true)] else contexts
  }

  predicate IsWritten(s: State, c: nat) {
    c in s.contexts && s.contexts[c].written
  }

  // ---------- steps ----------

  predicate At(s: State, t: nat, w: Thread) {
    t in s.threads && s.threads[t] == w
  }

  predicate Enabled(s: State, l: Step) {
    match l
    case BeginWrite(t, _) => t !in s.threads
    case Get(t) => At(s, t, ToGet)
    case Allocate(t, _) => At(s, t, ToAllocate)
    case Attach(t, _) => t in s.threads && s.threads[t].ToAttach?
    case Mark(t) => t in s.threads && s.threads[t].ToMark?
    case Release(t) => t in s.threads && s.threads[t].ToRelease?
    case Report(t, _) => At(s, t, ToReport)
    case BeginCleanup(t) => t !in s.threads
    case Find(t) => At(s, t, ToFind)
    case Check(t, _) => t in s.threads && s.threads[t].ToCheck?
    case Delete(t) => t in s.threads && s.threads[t].ToDelete?
    case Drop(t) => t in s.threads && s.threads[t].ToDrop?
  }

  function Move(s: State, t: nat, w: Thread): State {
    s.(threads := s.threads[t := w])
  }

  function Apply(s: State, l: Step): State
    requires Enabled(s, l)
  {
    match l
    case BeginWrite(t, ignored) => Move(s, t, if ignored then Finished else ToGet)
    case Get(t) =>
      if s.attached.Some? then Move(s, t, ToMark(s.attached.value)).(contexts := AddRef(s.contexts, s.attached.value))
      else Move(s, t, ToAllocate)
    case Allocate(t, ok) =>
      if !ok then Move(s, t, ToReport)
      else Move(s, t, ToAttach(s.nextId)).(contexts := s.contexts[s.nextId := Context(false, 1)], nextId := s.nextId + 1)
    case Attach(t, ok) =>
      var own := s.threads[t].own;
      if ok && s.attached.None? then Move(s, t, ToMark(own)).(contexts := AddRef(s.contexts, own), attached := Some(own))
      else Move(s, t, ToMark(own))
    case Mark(t) => Move(s, t, ToRelease(s.threads[t].marks)).(contexts := SetWritten(s.contexts, s.threads[t].marks))
    case Release(t) => Move(s, t, ToReport).(contexts := DropRef(s.contexts, s.threads[t].marked))
    case Report(t, sent) => Move(s, t, Finished).(events := if sent then s.events + [WriteObserved] else s.events)
    case BeginCleanup(t) => Move(s, t, ToFind)
    case Find(t) =>
      if s.attached.Some? then Move(s, t, ToCheck(s.attached.value)).(contexts := AddRef(s.contexts, s.attached.value))
      else Move(s, t, Finished)
    case Check(t, sent) =>
      var c := s.threads[t].found;
      Move(s, t, ToDelete(c)).(events := if sent && IsWritten(s, c) then s.events + [WriteClosed] else s.events)
    case Delete(t) =>
      Move(s, t, ToDrop(s.threads[t].checked)).(
        contexts := if s.attached.Some? then DropRef(s.contexts, s.attached.value) else s.contexts, attached := None)
    case Drop(t) => Move(s, t, Finished).(contexts := DropRef(s.contexts, s.threads[t].dropped))
  }

  const FRESH := State(map[], 0, None, map[], [])

  /** The states of runs on a fresh handle. */
  function Exec(ls: seq<Step>): State {
    if ls == [] then FRESH
    else
      var s := Exec(ls[..|ls| - 1]);
      if Enabled(s, ls[|ls| - 1]) then Apply(s, ls[|ls| - 1]) else s
  }

  predicate IsRun(ls: seq<Step>) {
    ls == [] || (IsRun(ls[..|ls| - 1]) && Enabled(Exec(ls[..|ls| - 1]), ls[|ls| - 1]))
  }

  // ---------- reference counts ----------

  function Holders(threads: map<nat, Thread>, c: nat): set<nat> {
    set t | t in threads && Held(threads[t]) == Some(c)
  }

  function Expected(s: State, c: nat): nat {
    |Holders(s.threads, c)| + if s.attached == Some(c) then 1 else 0
  }

  /** Live contexts are exactly those attached or held, and each count is the
      attachment plus the holders. */
  ghost predicate CountsExact(s: State) {
    && (forall c :: c in s.contexts ==> s.contexts[c].refs == Expected(s, c) && s.contexts[c].refs >= 1 && c < s.nextId)
    && (s.attached.Some? ==> s.attached.value in s.contexts)
    && (forall t :: t in s.threads && Held(s.threads[t]).Some? ==> Held(s.threads[t]).value in s.contexts)
  }

  /** Moving one thread changes the holders of what it held and what it holds. */
  lemma HoldersAfterMove(threads: map<nat, Thread>, t: nat, w: Thread, c: nat)
    ensures var before := t in threads && Held(threads[t]) == Some(c);
            var after := Held(w) == Some(c);
            |Holders(threads[t := w], c)| ==
              |Holders(threads, c)| + (if after && !before then 1 else 0) - (if before && !after then 1 else 0)
  {
    var h, k := Holders(threads, c), Holders(threads[t := w], c);
    if Held(w) == Some(c) {
      assert k == h + {t};
    } else {
      assert k == h - {t};
    }
  }

  /** What a move means for every expected count. */
  lemma ExpectedAfterMove(s: State, t: nat, w: Thread, contexts: map<nat, Context>, nextId: nat, attached: Option<nat>, events: seq<Event>, c: nat)
    ensures var s' := State(contexts, nextId, attached, s.threads[t := w], events);
            var before := t in s.threads && Held(s.threads[t]) == Some(c);
            Expected(s', c) == Expected(s, c)
              + (if Held(w) == Some(c) && !before then 1 else 0) - (if before && Held(w) != Some(c) then 1 else 0)
              + (if attached == Some(c) && s.attached != Some(c) then 1 else 0)
              - (if s.attached == Some(c) && attached != Some(c) then 1 else 0)
  {
    HoldersAfterMove(s.threads, t, w, c);
  }

  /** A held context is counted; two holders are counted twice. */
  lemma HolderCounts(s: State, t: nat, u: nat)
    requires t in s.threads && Held(s.threads[t]).Some?
    ensures var c := Held(s.threads[t]).value;
            && Expected(s, c) >= (if s.attached == Some(c) then 2 else 1)
            && (u in s.threads && u != t && Held(s.threads[u]) == Some(c) ==> Expected(s, c) >= 2)
  {
    var c := Held(s.threads[t]).value;
    SubsetCount({t}, Holders(s.threads, c));
    if u in s.threads && u != t && Held(s.threads[u]) == Some(c) {
      SubsetCount({t, u}, Holders(s.threads, c));
    }
  }

  lemma NobodyHolds(s: State, c: nat)
    requires CountsExact(s) && c !in s.contexts
    ensures Holders(s.threads, c) == {}
  {
  }

  /** Steps that touch no count. */
  lemma QuietStep(s: State, t: nat, w: Thread, contexts: map<nat, Context>, events: seq<Event>)
    requires CountsExact(s)
    requires Held(w) == if t in s.threads then Held(s.threads[t]) else None
    requires contexts.Keys == s.contexts.Keys && forall c :: c in contexts ==> contexts[c].refs == s.contexts[c].refs
    ensures CountsExact(Move(s, t, w).(contexts := contexts, events := events))
  {
    hide Expected;
    forall c | c in contexts
      ensures Expected(Move(s, t, w).(contexts := contexts, events := events), c) == Expected(s, c)
    {
      ExpectedAfterMove(s, t, w, contexts, s.nextId, s.attached, events, c);
    }
  }

  /** FltGetStreamHandleContext finds the attached context. */
  lemma TakeStep(s: State, t: nat, w: Thread)
    requires CountsExact(s) && s.attached.Some? && Held(w) == s.attached && (t in s.threads ==> Held(s.threads[t]).None?)
    ensures CountsExact(Move(s, t, w).(contexts := AddRef(s.contexts, s.attached.value)))
  {
    hide Expected;
    var s' := Move(s, t, w).(contexts := AddRef(s.contexts, s.attached.value));
    forall c | c in s'.contexts
      ensures s'.contexts[c].refs == Expected(s', c) && s'.contexts[c].refs >= 1
    {
      ExpectedAfterMove(s, t, w, s'.contexts, s.nextId, s.attached, s.events, c);
    }
  }

  lemma AllocateStep(s: State, t: nat)
    requires CountsExact(s) && At(s, t, ToAllocate)
    ensures CountsExact(Apply(s, Allocate(t, true)))
  {
    hide Expected;
    var s' := Apply(s, Allocate(t, true));
    NobodyHolds(s, s.nextId);
    forall c | c in s'.contexts
      ensures s'.contexts[c].refs == Expected(s', c) && s'.contexts[c].refs >= 1
    {
      ExpectedAfterMove(s, t, ToAttach(s.nextId), s'.contexts, s'.nextId, s.attached, s.events, c);
      if c == s.nextId {
        NothingExpected(s, c);
      }
    }
  }

  lemma NothingExpected(s: State, c: nat)
    requires CountsExact(s) && c !in s.contexts
    ensures Expected(s, c) == 0
  {
    NobodyHolds(s, c);
  }

  /** FltSetStreamHandleContext attaches: the handle takes its own reference. */
  lemma AttachStep(s: State, t: nat, c: nat)
    requires CountsExact(s) && s.attached.None? && At(s, t, ToAttach(c))
    ensures CountsExact(Apply(s, Attach(t, true)))
  {
    hide Expected;
    var s' := Apply(s, Attach(t, true));
    forall x | x in s'.contexts
      ensures s'.contexts[x].refs == Expected(s', x) && s'.contexts[x].refs >= 1
    {
      ExpectedAfterMove(s, t, ToMark(c), s'.contexts, s.nextId, Some(c), s.events, x);
    }
  }

  /** A holder hands its reference back; the context goes with the last one. */
  lemma GiveBackStep(s: State, t: nat, w: Thread, c: nat)
    requires CountsExact(s) && t in s.threads && Held(s.threads[t]) == Some(c) && Held(w).None?
    ensures CountsExact(Move(s, t, w).(contexts := DropRef(s.contexts, c)))
  {
    hide Expected;
    var s' := Move(s, t, w).(contexts := DropRef(s.contexts, c));
    forall x | x in s'.contexts
      ensures s'.contexts[x].refs == Expected(s', x) && s'.contexts[x].refs >= 1
    {
      ExpectedAfterMove(s, t, w, s'.contexts, s.nextId, s.attached, s.events, x);
    }
    HolderCounts(s, t, t);
    forall u | u in s'.threads && Held(s'.threads[u]).Some?
      ensures Held(s'.threads[u]).value in s'.contexts
    {
      HolderCounts(s, t, u);
    }
  }

  /** FltDeleteStreamHandleContext: the handle gives its reference back. */
  lemma DeleteStep(s: State, t: nat)
    requires CountsExact(s) && t in s.threads && s.threads[t].ToDelete?
    ensures CountsExact(Apply(s, Delete(t)))
  {
    hide Expected;
    var s' := Apply(s, Delete(t));
    forall x | x in s'.contexts
      ensures s'.contexts[x].refs == Expected(s', x) && s'.contexts[x].refs >= 1
    {
      ExpectedAfterMove(s, t, s'.threads[t], s'.contexts, s.nextId, None, s.events, x);
    }
    forall u | u in s'.threads && Held(s'.threads[u]).Some?
      ensures Held(s'.threads[u]).value in s'.contexts
    {
      HolderCounts(s, u, u);
    }
  }

  lemma CountStep(s: State, l: Step)
    requires CountsExact(s) && Enabled(s, l)
    ensures CountsExact(Apply(s, l))
  {
    hide Expected, CountsExact;
    var t := l.t;
    match l
    case BeginWrite(_, ignored) => QuietStep(s, t, if ignored then Finished else ToGet, s.contexts, s.events);
    case Get(_) =>
      if s.attached.Some? {
        TakeStep(s, t, ToMark(s.attached.value));
      } else {
        QuietStep(s, t, ToAllocate, s.contexts, s.events);
      }
    case Allocate(_, ok) =>
      if ok {
        AllocateStep(s, t);
      } else {
        QuietStep(s, t, ToReport, s.contexts, s.events);
      }
    case Attach(_, ok) =>
      if ok && s.attached.None? {
        AttachStep(s, t, s.threads[t].own);
      } else {
        QuietStep(s, t, ToMark(s.threads[t].own), s.contexts, s.events);
      }
    case Mark(_) => QuietStep(s, t, ToRelease(s.threads[t].marks), SetWritten(s.contexts, s.threads[t].marks), s.events);
    case Release(_) => GiveBackStep(s, t, ToReport, s.threads[t].marked);
    case Report(_, sent) => QuietStep(s, t, Finished, s.contexts, Apply(s, l).events);
    case BeginCleanup(_) => QuietStep(s, t, ToFind, s.contexts, s.events);
    case Find(_) =>
      if s.attached.Some? {
        TakeStep(s, t, ToCheck(s.attached.value));
      } else {
        QuietStep(s, t, Finished, s.contexts, s.events);
      }
    case Check(_, sent) => QuietStep(s, t, ToDelete(s.threads[t].found), s.contexts, Apply(s, l).events);
    case Delete(_) => DeleteStep(s, t);
    case Drop(_) => GiveBackStep(s, t, Finished, s.threads[t].dropped);
  }

  /** In every reachable state, whatever the interleaving, each live context's
      count is its attachment plus the callbacks holding it; a context nobody
      holds that is not attached has been freed. */
  lemma {:induction false} CountsExactEveryRun(ls: seq<Step>)
    requires IsRun(ls)
    ensures CountsExact(Exec(ls))
    ensures var s := Exec(ls);
            forall c :: c in s.contexts <==> s.attached == Some(c) || exists t :: t in s.threads && Held(s.threads[t]) == Some(c)
  {
    hide Apply, Expected;
    if ls != [] {
      CountsExactEveryRun(ls[..|ls| - 1]);
      CountStep(Exec(ls[..|ls| - 1]), ls[|ls| - 1]);
    }
    var s := Exec(ls);
    forall c | c in s.contexts
      ensures s.attached == Some(c) || exists t :: t in s.threads && Held(s.threads[t]) == Some(c)
    {
      SomebodyHolds(s, c);
    }
  }

  lemma SomebodyHolds(s: State, c: nat)
    requires CountsExact(s) && c in s.contexts
    ensures s.attached == Some(c) || exists t :: t in s.threads && Held(s.threads[t]) == Some(c)
  {
    if s.attached != Some(c) {
      var t :| t in Holders(s.threads, c);
    }
  }

  // ---------- write tracking ----------

  /** The latest successful attach or deletion was an attach. */
  function Tracked(ls: seq<Step>): bool {
    if ls == [] then false
    else
      match ls[|ls| - 1]
      case Attach(_, true) => true
      case Delete(_) => false
      case _ => Tracked(ls[..|ls| - 1])
  }

  predicate NoWriters(s: State) {
    forall t :: t in s.threads ==> !IsWriter(s.threads[t])
  }

  /** An attached context that is not marked yet is about to be. */
  ghost predicate AboutToBeMarked(s: State) {
    s.attached.Some? && !IsWritten(s, s.attached.value) ==>
      exists t :: t in s.threads && s.threads[t] == ToMark(s.attached.value)
  }

  lemma MarkStep(s: State, l: Step)
    requires Enabled(s, l) && CountsExact(s) && CountsExact(Apply(s, l)) && AboutToBeMarked(s)
    ensures AboutToBeMarked(Apply(s, l))
  {
    hide Expected;
    var s' := Apply(s, l);
    if s'.attached.Some? && !IsWritten(s', s'.attached.value) {
      var c := s'.attached.value;
      if l.Attach? && s.attached.None? {
        assert s'.threads[l.t] == ToMark(c);
      } else {
        assert s.attached == Some(c) && !IsWritten(s, c);
        var t :| t in s.threads && s.threads[t] == ToMark(c);
        assert s'.threads[t] == ToMark(c);
      }
    }
  }

  lemma {:induction false} AttachedIffTracked(ls: seq<Step>)
    requires IsRun(ls)
    ensures AboutToBeMarked(Exec(ls)) && (Exec(ls).attached.Some? <==> Tracked(ls))
  {
    hide Expected, CountsExact;
    if ls != [] {
      var front := ls[..|ls| - 1];
      AttachedIffTracked(front);
      CountsExactEveryRun(front);
      CountsExactEveryRun(ls);
      MarkStep(Exec(front), ls[|ls| - 1]);
    }
  }

  /** Whenever no pre-write is under way, the handle carries a context exactly
      when some pre-write attached one since the last deletion, and then it is
      marked written, whichever of the racing callbacks won. */
  lemma WritesAreRemembered(ls: seq<Step>)
    requires IsRun(ls) && NoWriters(Exec(ls))
    ensures var s := Exec(ls);
            && (s.attached.Some? <==> Tracked(ls))
            && (s.attached.Some? ==> IsWritten(s, s.attached.value))
  {
    AttachedIffTracked(ls);
  }

  /** Nothing failed and nothing was deleted. */
  ghost predicate Smooth(ls: seq<Step>) {
    forall i :: 0 <= i < |ls| ==> !ls[i].Delete? && (ls[i].Allocate? || ls[i].Attach? ==> ls[i].ok)
  }

  /** One completed pre-write is enough, when allocation and attaching succeed. */
  lemma {:induction false} CompletedWriteIsTracked(ls: seq<Step>, t: nat)
    requires IsRun(ls) && Smooth(ls) && BeginWrite(t, false) in ls
    ensures var s := Exec(ls);
            t in s.threads && (Tracked(ls) || s.threads[t].ToGet? || s.threads[t].ToAllocate? || s.threads[t].ToAttach?)
  {
    var front, l := ls[..|ls| - 1], ls[|ls| - 1];
    if l != BeginWrite(t, false) {
      assert ls == front + [l];
      assert BeginWrite(t, false) in front;
      CompletedWriteIsTracked(front, t);
      AttachedIffTracked(front);
    }
  }

  // ---------- the cleanup's report ----------

  /** How many write-closed events thread t has emitted. */
  function ClosedBy(ls: seq<Step>, t: nat): nat {
    if ls == [] then 0
    else
      var front, l := ls[..|ls| - 1], ls[|ls| - 1];
      var s := Exec(front);
      ClosedBy(front, t)
      + if l == Check(t, true) && Enabled(s, l) && IsWritten(s, s.threads[t].found) then 1 else 0
  }

  /** Thread t between finding the context and its end. */
  ghost predicate CleanupState(s: State, t: nat, tracked: bool, checked: bool, closed: nat) {
    && t in s.threads
    && (!tracked ==> s.threads[t].Finished? && !checked && closed == 0)
    && (tracked ==>
          if s.threads[t].ToCheck? then IsWritten(s, s.threads[t].found) && !checked && closed == 0
          else (s.threads[t].ToDelete? || s.threads[t].ToDrop? || s.threads[t].Finished?) && closed == if checked then 1 else 0)
  }

  lemma CleanupStep(s: State, l: Step, t: nat, tracked: bool, checked: bool, closed: nat)
    requires Enabled(s, l) && CountsExact(s) && CountsExact(Apply(s, l)) && CleanupState(s, t, tracked, checked, closed)
    ensures CleanupState(Apply(s, l), t, tracked, checked || l == Check(t, true),
                         closed + if l == Check(t, true) && IsWritten(s, s.threads[t].found) then 1 else 0)
  {
    if l.t == t {
      hide Expected, CountsExact, AddRef, DropRef, SetWritten;
    } else {
      hide Expected;
      OthersKeepThread(s, l, t);
      if tracked && s.threads[t].ToCheck? {
        WrittenStays(s, l, t, s.threads[t].found);
      }
    }
  }

  lemma OthersKeepThread(s: State, l: Step, t: nat)
    requires Enabled(s, l) && l.t != t && t in s.threads
    ensures t in Apply(s, l).threads && Apply(s, l).threads[t] == s.threads[t]
  {
    hide AddRef, DropRef, SetWritten, IsWritten;
  }

  /** What a thread holds stays marked. */
  lemma WrittenStays(s: State, l: Step, t: nat, c: nat)
    requires Enabled(s, l) && CountsExact(s) && CountsExact(Apply(s, l)) && l.t != t
    requires t in s.threads && Held(s.threads[t]) == Some(c) && IsWritten(s, c)
    ensures IsWritten(Apply(s, l), c)
  {
    hide Expected;
    OthersKeepThread(s, l, t);
    assert c in Apply(s, l).contexts;
  }

  lemma {:induction false} CleanupFollowed(before: seq<Step>, t: nat, after: seq<Step>)
    requires IsRun(before + [Find(t)] + after) && IsRun(before) && NoWriters(Exec(before)) && ClosedBy(before, t) == 0
    ensures CleanupState(Exec(before + [Find(t)] + after), t, Tracked(before), Check(t, true) in after,
                         ClosedBy(before + [Find(t)] + after, t))
    decreases |after|
  {
    hide Expected, CountsExact, IsWritten;
    var all := before + [Find(t)] + after;
    if after == [] {
      assert all == before + [Find(t)] && all[..|all| - 1] == before;
      WritesAreRemembered(before);
      FoundIsWritten(Exec(before), t);
    } else {
      var front, l := after[..|after| - 1], after[|after| - 1];
      assert all[..|all| - 1] == before + [Find(t)] + front;
      assert after == front + [l];
      CleanupFollowed(before, t, front);
      CountsExactEveryRun(before + [Find(t)] + front);
      CountsExactEveryRun(all);
      CleanupStep(Exec(before + [Find(t)] + front), l, t, Tracked(before), Check(t, true) in front,
                  ClosedBy(before + [Find(t)] + front, t));
    }
  }

  lemma FoundIsWritten(s: State, t: nat)
    requires Enabled(s, Find(t)) && (s.attached.Some? ==> IsWritten(s, s.attached.value))
    ensures var s' := Apply(s, Find(t));
            if s.attached.Some? then s'.threads[t] == ToCheck(s.attached.value) && IsWritten(s', s.attached.value)
            else s'.threads[t] == Finished
  {
  }

  lemma {:induction false} RunPrefix(before: seq<Step>, l: Step, after: seq<Step>)
    requires IsRun(before + [l] + after)
    ensures IsRun(before) && Enabled(Exec(before), l)
    decreases |after|
  {
    var all := before + [l] + after;
    if after == [] {
      assert all[..|all| - 1] == before;
    } else {
      assert all[..|all| - 1] == before + [l] + after[..|after| - 1];
      RunPrefix(before, l, after[..|after| - 1]);
    }
  }

  /** A cleanup that looks the context up while no pre-write is under way reports
      the handle as written exactly once if some pre-write was tracked and the
      event gets through, and not at all otherwise; what other callbacks do in
      the meantime makes no difference. */
  lemma CleanupReportsExactlyOnce(before: seq<Step>, t: nat, after: seq<Step>)
    requires IsRun(before + [Find(t)] + after) && NoWriters(Exec(before))
    requires At(Exec(before + [Find(t)] + after), t, Finished)
    ensures ClosedBy(before + [Find(t)] + after, t) == if Tracked(before) && Check(t, true) in after then 1 else 0
  {
    RunPrefix(before, Find(t), after);
    NothingReportedBefore(before, t);
    CleanupFollowed(before, t, after);
  }

  lemma NotCheckedYet(s: State, l: Step, t: nat)
    requires Enabled(s, l)
    requires t !in Apply(s, l).threads || Apply(s, l).threads[t].ToFind?
    ensures (t !in s.threads || s.threads[t].ToFind?) && l != Check(t, true)
  {
    hide AddRef, DropRef, SetWritten, IsWritten;
  }

  /** A cleanup starts without having reported anything. */
  lemma {:induction false} NothingReportedBefore(ls: seq<Step>, t: nat)
    requires IsRun(ls) && (t !in Exec(ls).threads || Exec(ls).threads[t].ToFind?)
    ensures ClosedBy(ls, t) == 0
  {
    hide Apply, Enabled, IsWritten;
    if ls != [] {
      var front, l := ls[..|ls| - 1], ls[|ls| - 1];
      NotCheckedYet(Exec(front), l, t);
      NothingReportedBefore(front, t);
    }
  }

  /** Once every callback has returned and nothing is attached, every context has
      been freed. */
  lemma NothingLeaks(ls: seq<Step>)
    requires IsRun(ls) && Exec(ls).attached.None? && forall t :: t in Exec(ls).threads ==> Exec(ls).threads[t].Finished?
    ensures Exec(ls).contexts == map[]
  {
    CountsExactEveryRun(ls);
    var s := Exec(ls);
    assert forall c :: c !in s.contexts;
  }

  // ---------- the callbacks, one at a time ----------

  // One step of a thread whose callback is the only one moving.

  lemma GetIs(s: State, base: map<nat, Thread>, t: nat)
    requires s.threads == base[t := ToGet]
    ensures Enabled(s, Get(t))
    ensures Apply(s, Get(t)) ==
              if s.attached.Some? then s.(threads := base[t := ToMark(s.attached.value)], contexts := AddRef(s.contexts, s.attached.value))
              else s.(threads := base[t := ToAllocate])
  {
    hide AddRef;
  }

  lemma AllocateIs(s: State, base: map<nat, Thread>, t: nat, ok: bool)
    requires s.threads == base[t := ToAllocate]
    ensures Enabled(s, Allocate(t, ok))
    ensures Apply(s, Allocate(t, ok)) ==
              if ok then s.(threads := base[t := ToAttach(s.nextId)], contexts := s.contexts[s.nextId := Context(false, 1)], nextId := s.nextId + 1)
              else s.(threads := base[t := ToReport])
  {
  }

  lemma AttachIs(s: State, base: map<nat, Thread>, t: nat, own: nat, ok: bool)
    requires s.threads == base[t := ToAttach(own)]
    ensures Enabled(s, Attach(t, ok))
    ensures Apply(s, Attach(t, ok)) ==
              if ok && s.attached.None? then s.(threads := base[t := ToMark(own)], contexts := AddRef(s.contexts, own), attached := Some(own))
              else s.(threads := base[t := ToMark(own)])
  {
    hide AddRef;
  }

  lemma MarkIs(s: State, base: map<nat, Thread>, t: nat, c: nat)
    requires s.threads == base[t := ToMark(c)]
    ensures Enabled(s, Mark(t))
    ensures Apply(s, Mark(t)) == s.(threads := base[t := ToRelease(c)], contexts := SetWritten(s.contexts, c))
  {
    hide SetWritten;
  }

  lemma ReleaseIs(s: State, base: map<nat, Thread>, t: nat, c: nat)
    requires s.threads == base[t := ToRelease(c)]
    ensures Enabled(s, Release(t))
    ensures Apply(s, Release(t)) == s.(threads := base[t := ToReport], contexts := DropRef(s.contexts, c))
  {
    hide DropRef;
  }

  lemma ReportIs(s: State, base: map<nat, Thread>, t: nat, sent: bool)
    requires s.threads == base[t := ToReport]
    ensures Enabled(s, Report(t, sent))
    ensures Apply(s, Report(t, sent)) ==
              s.(threads := base[t := Finished], events := if sent then s.events + [WriteObserved] else s.events)
  {
  }

  lemma FindIs(s: State, base: map<nat, Thread>, t: nat)
    requires s.threads == base[t := ToFind]
    ensures Enabled(s, Find(t))
    ensures Apply(s, Find(t)) ==
              if s.attached.Some? then s.(threads := base[t := ToCheck(s.attached.value)], contexts := AddRef(s.contexts, s.attached.value))
              else s.(threads := base[t := Finished])
  {
    hide AddRef;
  }

  lemma CheckIs(s: State, base: map<nat, Thread>, t: nat, c: nat, sent: bool)
    requires s.threads == base[t := ToCheck(c)]
    ensures Enabled(s, Check(t, sent))
    ensures Apply(s, Check(t, sent)) ==
              s.(threads := base[t := ToDelete(c)], events := if sent && IsWritten(s, c) then s.events + [WriteClosed] else s.events)
  {
    hide IsWritten;
  }

  lemma DeleteIs(s: State, base: map<nat, Thread>, t: nat, c: nat)
    requires s.threads == base[t := ToDelete(c)]
    ensures Enabled(s, Delete(t))
    ensures Apply(s, Delete(t)) ==
              s.(threads := base[t := ToDrop(c)], attached := None,
                 contexts := if s.attached.Some? then DropRef(s.contexts, s.attached.value) else s.contexts)
  {
    hide DropRef;
  }

  lemma DropIs(s: State, base: map<nat, Thread>, t: nat, c: nat)
    requires s.threads == base[t := ToDrop(c)]
    ensures Enabled(s, Drop(t))
    ensures Apply(s, Drop(t)) == s.(threads := base[t := Finished], contexts := DropRef(s.contexts, c))
  {
    hide DropRef;
  }

  lemma BeginIs(s: State, t: nat, ignored: bool)
    requires t !in s.threads
    ensures Enabled(s, BeginWrite(t, ignored)) && Enabled(s, BeginCleanup(t))
    ensures Apply(s, BeginWrite(t, ignored)) == s.(threads := s.threads[t := if ignored then Finished else ToGet])
    ensures Apply(s, BeginCleanup(t)) == s.(threads := s.threads[t := ToFind])
  {
  }

  /** Marking survives giving back a reference, as long as the context lives. */
  lemma MarkSurvives(contexts: map<nat, Context>, c: nat)
    ensures var after := DropRef(SetWritten(contexts, c), c);
            c in after ==> after[c].written
  {
  }

  lemma TakenIsWritten(contexts: map<nat, Context>, c: nat)
    ensures c in AddRef(contexts, c) <==> c in contexts
    ensures c in contexts ==> AddRef(contexts, c)[c].written == contexts[c].written
  {
  }

  class FileHandle {
    var contexts: map<nat, Context>
    var nextId: nat
    var attached: Option<nat>
    var events: seq<Event>
    ghost var s: State
    ghost var steps: seq<Step>

    ghost predicate Valid()
      reads this
    {
      && IsRun(steps) && Exec(steps) == s
      && s.contexts == contexts && s.nextId == nextId && s.attached == attached && s.events == events
    }

    constructor ()
      ensures Valid() && steps == []
    {
      contexts, nextId, attached, events, s, steps := map[], 0, None, [], FRESH, [];
    }

    /** FltGetStreamHandleContext: the found context, referenced. */
    method GetContext() returns (found: Option<nat>)
      modifies this`contexts
      ensures found == attached
      ensures contexts == if found.Some? then AddRef(old(contexts), found.value) else old(contexts)
    {
      found := attached;
      if found.Some? {
        contexts := AddRef(contexts, found.value);
      }
    }

    /** FltAllocateContext, zeroed. */
    method AllocateContext() returns (c: nat)
      modifies this`contexts, this`nextId
      ensures c == old(nextId) && nextId == c + 1 && contexts == old(contexts)[c := Context(false, 1)]
    {
      c := nextId;
      contexts := contexts[c := Context(false, 1)];
      nextId := nextId + 1;
    }

    /** FltSetStreamHandleContext with FLT_SET_CONTEXT_KEEP_IF_EXISTS. */
    method KeepIfExists(c: nat, works: bool)
      modifies this`contexts, this`attached
      ensures if works && old(attached).None? then attached == Some(c) && contexts == AddRef(old(contexts), c)
              else attached == old(attached) && contexts == old(contexts)
    {
      if works && attached.None? {
        contexts := AddRef(contexts, c);
        attached := Some(c);
      }
    }

    /** FltReleaseContext. */
    method ReleaseContext(c: nat)
      modifies this`contexts
      ensures contexts == DropRef(old(contexts), c)
    {
      contexts := DropRef(contexts, c);
    }

    /** The context part of CachemonPreWrite. */
    method FetchContext(ghost base: map<nat, Thread>, ghost t: nat, allocates: bool, attaches: bool) returns (context: Option<nat>)
      requires Valid() && s.threads == base[t := ToGet]
      modifies this
      ensures Valid() && events == old(events)
      ensures s.threads == base[t := if context.Some? then ToMark(context.value) else ToReport]
      ensures old(attached).Some? ==> attached == old(attached)
      ensures allocates && attaches ==> context.Some? && attached == context
    {
      hide IsRun, Exec, Apply, AddRef;
      GetIs(s, base, t);
      Take(Get(t));
      context := GetContext();
      if context.Some? {
        return;
      }
      AllocateIs(s, base, t, allocates);
      Take(Allocate(t, allocates));
      if !allocates {
        return None;
      }
      var own := AllocateContext();
      AttachIs(s, base, t, own, attaches);
      Take(Attach(t, attaches));
      KeepIfExists(own, attaches);
      return Some(own);
    }

    /** CachemonPreWrite, called by a new thread. */
    method PreWrite(ghost t: nat, ignored: bool, allocates: bool, attaches: bool, sent: bool)
      requires Valid() && t !in s.threads
      modifies this
      ensures Valid() && s.threads == old(s).threads[t := Finished]
      ensures ignored ==> contexts == old(contexts) && attached == old(attached) && events == old(events)
      ensures !ignored ==> events == if sent then old(events) + [WriteObserved] else old(events)
      ensures !ignored && allocates && attaches ==> attached.Some? && IsWritten(s, attached.value)
      ensures old(attached).Some? ==> attached == old(attached)
    {
      hide IsRun, Exec, Apply, DropRef, SetWritten, Expected;
      ghost var base := s.threads;
      BeginIs(s, t, ignored);
      Take(BeginWrite(t, ignored));
      if ignored {
        return;
      }
      var context := FetchContext(base, t, allocates, attaches);
      if context.Some? {
        MarkSurvives(contexts, context.value);
        MarkIs(s, base, t, context.value);
        Take(Mark(t));
        contexts := SetWritten(contexts, context.value);
        ReleaseIs(s, base, t, context.value);
        Take(Release(t));
        ReleaseContext(context.value);
      }
      ReportIs(s, base, t, sent);
      Take(Report(t, sent));
      if sent {
        events := events + [WriteObserved];
      }
      CountsExactEveryRun(steps);
    }

    /** CachemonPreCleanup, called by a new thread. */
    method PreCleanup(ghost t: nat, sent: bool)
      requires Valid() && t !in s.threads
      modifies this
      ensures Valid() && s.threads == old(s).threads[t := Finished] && attached.None?
      ensures events == if old(attached).Some? && IsWritten(old(s), old(attached).value) && sent
                        then old(events) + [WriteClosed] else old(events)
    {
      hide IsRun, Exec, Apply, DropRef, AddRef;
      ghost var base := s.threads;
      BeginIs(s, t, false);
      Take(BeginCleanup(t));
      FindIs(s, base, t);
      Take(Find(t));
      var context := GetContext();
      if context.Some? {
        TakenIsWritten(old(contexts), context.value);
        CheckIs(s, base, t, context.value, sent);
        Take(Check(t, sent));
        if sent && context.value in contexts && contexts[context.value].written {
          events := events + [WriteClosed];
        }
        DeleteIs(s, base, t, context.value);
        Take(Delete(t));
        if attached.Some? {
          ReleaseContext(attached.value);
        }
        attached := None;
        DropIs(s, base, t, context.value);
        Take(Drop(t));
        ReleaseContext(context.value);
      }
    }

    /** Notes the protocol step the following statements take. */
    ghost method Take(l: Step)
      requires IsRun(steps) && Exec(steps) == s && Enabled(s, l)
      modifies this`steps, this`s
      ensures IsRun(steps) && Exec(steps) == s == Apply(old(s), l)
    {
      hide Apply, Enabled;
      assert (steps + [l])[..|steps|] == steps;
      steps := steps + [l];
      s := Apply(s, l);
    }
  }
}
