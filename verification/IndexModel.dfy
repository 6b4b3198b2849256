/** The two tables of the cache index as values, and each statement the index
    runs on them as a function. The rows are generic in how a timestamp is held:
    the index stores text, the theorems speak of whole seconds. */
module IndexModel {
  import opened Prelude
  import opened TextOrder

  type Path = string

  datatype AccessKind = ReadOpen | WriteObserved | WriteClosed | Rename | Delete

  datatype AccessEvent = AccessEvent(
    path: Path, kind: AccessKind, sizeHint: nat, pid: nat, process: string, observedAt: int)

  /** should_schedule_copy. */
  predicate SchedulesCopy(kind: AccessKind) {
    kind == ReadOpen || kind == WriteClosed
  }

  function KindName(kind: AccessKind): string {
    match kind
    case ReadOpen => "read_open"
    case WriteObserved => "write_observed"
    case WriteClosed => "write_closed"
    case Rename => "rename"
    case Delete => "delete"
  }

  datatype FileRow<T> = FileRow(
    lastSeen: T, lastWriteClose: Option<T>, sourceSize: nat, cachedSize: nat,
    cachedAt: Option<T>, hash: string, present: bool, lastError: string,
    pid: nat, process: string)

  datatype JobRow<T> = JobRow(due: T, reason: string, retries: nat, pid: nat, process: string)

  datatype Db<T> = Db(files: map<Path, FileRow<T>>, pending: map<Path, JobRow<T>>)

  datatype Job<T> = Job(path: Path, row: JobRow<T>)

  datatype CachedFileRef = CachedFileRef(path: Path, size: nat)

  /** The foreign key of pending_jobs. */
  predicate Consistent<T>(db: Db<T>) {
    db.pending.Keys <= db.files.Keys
  }

  // ---------- statements ----------

  function RecordAccess<T>(db: Db<T>, e: AccessEvent, seen: T, due: T): Db<T> {
    var closed := if e.kind == WriteClosed then Some(seen) else None;
    var row :=
      if e.path in db.files then
        var known := db.files[e.path];
        known.(lastSeen := seen,
             lastWriteClose := if closed.Some? then closed else known.lastWriteClose,
             sourceSize := e.sizeHint, pid := e.pid, process := e.process)
      else
        FileRow(seen, closed, e.sizeHint, 0, None, "", false, "", e.pid, e.process);
    var pending :=
      if SchedulesCopy(e.kind) then
        var retries := if e.path in db.pending then db.pending[e.path].retries else 0;
        db.pending[e.path := JobRow(due, KindName(e.kind), retries, e.pid, e.process)]
      else db.pending;
    Db(db.files[e.path := row], pending)
  }

  /** Fails when the foreign key has no file row to point at. */
  function UpsertPending<T>(db: Db<T>, p: Path, due: T, reason: string): Result<Db<T>, string> {
    if p == [] then Ok(db)
    else if p !in db.files then Err("FOREIGN KEY constraint failed")
    else
      var row := if p in db.pending then db.pending[p].(due := due, reason := reason)
                 else JobRow(due, reason, 0, 0, "");
      Ok(db.(pending := db.pending[p := row]))
  }

  function RemovePending<T>(db: Db<T>, p: Path): Db<T> {
    db.(pending := db.pending - {p})
  }

  function DeleteRecord<T>(db: Db<T>, p: Path): Db<T> {
    Db(db.files - {p}, db.pending - {p})
  }

  function MarkCached<T>(db: Db<T>, p: Path, source: nat, cached: nat, hash: string, at: T): Db<T> {
    if p !in db.files then db
    else db.(files := db.files[p := db.files[p].(
           sourceSize := source, cachedSize := cached, cachedAt := Some(at),
           hash := hash, present := true, lastError := "")])
  }

  function RecordError<T>(db: Db<T>, p: Path, message: string): Db<T> {
    Db(if p in db.files then db.files[p := db.files[p].(lastError := message)] else db.files,
       if p in db.pending then db.pending[p := db.pending[p].(retries := db.pending[p].retries + 1)]
       else db.pending)
  }

  function MarkRemoved<T>(db: Db<T>, p: Path): Db<T> {
    Db(if p in db.files then db.files[p := db.files[p].(present := false, lastError := "")] else db.files,
       db.pending - {p})
  }

  /** Every statement keeps the foreign key, and the retry upsert cannot break
      it as long as the job's file row exists. */
  lemma StatementsKeepForeignKey<T>(db: Db<T>, p: Path, at: T, source: nat, cached: nat, text: string)
    requires Consistent(db)
    ensures Consistent(RemovePending(db, p)) && Consistent(DeleteRecord(db, p))
    ensures Consistent(MarkCached(db, p, source, cached, text, at)) && Consistent(RecordError(db, p, text))
    ensures Consistent(MarkRemoved(db, p))
  {
  }

  lemma UpsertKeepsForeignKey<T>(db: Db<T>, p: Path, due: T, reason: string)
    requires Consistent(db)
    ensures UpsertPending(db, p, due, reason).Ok? ==> Consistent(UpsertPending(db, p, due, reason).value)
    ensures UpsertPending(db, p, due, reason).Err? <==> p != [] && p !in db.files
  {
  }

  lemma AccessKeepsForeignKey<T>(db: Db<T>, e: AccessEvent, seen: T, due: T)
    requires Consistent(db)
    ensures Consistent(RecordAccess(db, e, seen, due))
  {
  }

  /** The two databases differ at most in the rows of p. */
  predicate SameBut<T(==)>(before: Db<T>, after: Db<T>, p: Path) {
    before.files - {p} == after.files - {p} && before.pending - {p} == after.pending - {p}
  }

  /** Statements about one path leave every other path's rows alone. */
  lemma StatementsTouchOnePath<T>(db: Db<T>, p: Path, due: T, at: T, source: nat, cached: nat, text: string)
    ensures SameBut(db, RemovePending(db, p), p) && SameBut(db, DeleteRecord(db, p), p)
    ensures SameBut(db, MarkCached(db, p, source, cached, text, at), p)
    ensures SameBut(db, RecordError(db, p, text), p) && SameBut(db, MarkRemoved(db, p), p)
    ensures UpsertPending(db, p, due, text).Ok? ==> SameBut(db, UpsertPending(db, p, due, text).value, p)
  {
  }

  // What each statement writes, column by column; what a row does not mention
  // stays, and so does every other path.

  lemma AccessColumns<T>(db: Db<T>, e: AccessEvent, seen: T, due: T)
    ensures var p, after := e.path, RecordAccess(db, e, seen, due);
            && SameBut(db, after, p) && p in after.files
            && var closed := if e.kind == WriteClosed then Some(seen) else None;
               after.files[p] ==
                 if p !in db.files then FileRow(seen, closed, e.sizeHint, 0, None, "", false, "", e.pid, e.process)
                 else
                   var f := db.files[p];
                   FileRow(seen, if e.kind == WriteClosed then closed else f.lastWriteClose, e.sizeHint,
                           f.cachedSize, f.cachedAt, f.hash, f.present, f.lastError, e.pid, e.process)
  {
  }

  /** Reading a file or closing it after writes schedules a copy, whose failures so
      far are kept; no other event touches pending_jobs. */
  lemma AccessSchedules<T>(db: Db<T>, e: AccessEvent, seen: T, due: T)
    ensures var p, after := e.path, RecordAccess(db, e, seen, due);
            match e.kind
            case ReadOpen => p in after.pending && after.pending[p] == JobRow(due, "read_open", RetriesOf(db, p), e.pid, e.process)
            case WriteClosed => p in after.pending && after.pending[p] == JobRow(due, "write_closed", RetriesOf(db, p), e.pid, e.process)
            case WriteObserved => after.pending == db.pending
            case Rename => after.pending == db.pending
            case Delete => after.pending == db.pending
    ensures SchedulesCopy(e.kind) <==> e.kind in {ReadOpen, WriteClosed}
  {
  }

  function RetriesOf<T>(db: Db<T>, p: Path): nat {
    if p in db.pending then db.pending[p].retries else 0
  }

  lemma CachedColumns<T>(db: Db<T>, p: Path, source: nat, cached: nat, hash: string, at: T)
    ensures var after := MarkCached(db, p, source, cached, hash, at);
            && SameBut(db, after, p) && after.pending == db.pending && (p !in db.files ==> after == db)
            && (p in db.files ==>
                  var f := db.files[p];
                  p in after.files && after.files[p] ==
                    FileRow(f.lastSeen, f.lastWriteClose, source, cached, Some(at), hash, true, "", f.pid, f.process))
  {
  }

  lemma DeletionsReachOnePath<T>(db: Db<T>, p: Path)
    ensures var after := RemovePending(db, p);
            SameBut(db, after, p) && p !in after.pending && after.files == db.files
    ensures var after := DeleteRecord(db, p);
            SameBut(db, after, p) && p !in after.pending && p !in after.files
  {
  }

  lemma RemovedColumns<T>(db: Db<T>, p: Path)
    ensures var after := MarkRemoved(db, p);
            && SameBut(db, after, p) && p !in after.pending && (p !in db.files ==> p !in after.files)
            && (p in db.files ==>
                  var f := db.files[p];
                  p in after.files && after.files[p] ==
                    FileRow(f.lastSeen, f.lastWriteClose, f.sourceSize, f.cachedSize, f.cachedAt, f.hash, false, "", f.pid, f.process))
  {
  }

  lemma ErrorColumns<T>(db: Db<T>, p: Path, message: string)
    ensures var after := RecordError(db, p, message);
            && SameBut(db, after, p) && (p !in db.files ==> p !in after.files) && (p !in db.pending ==> p !in after.pending)
            && (p in db.files ==>
                  var f := db.files[p];
                  p in after.files && after.files[p] ==
                    FileRow(f.lastSeen, f.lastWriteClose, f.sourceSize, f.cachedSize, f.cachedAt, f.hash, f.present, message,
                            f.pid, f.process))
            && (p in db.pending ==>
                  var j := db.pending[p];
                  p in after.pending && after.pending[p] == JobRow(j.due, j.reason, j.retries + 1, j.pid, j.process))
  {
  }

  lemma UpsertColumns<T>(db: Db<T>, p: Path, due: T, reason: string)
    ensures var r := UpsertPending(db, p, due, reason);
            && (r.Ok? <==> p == [] || p in db.files) && (p == [] ==> r == Ok(db))
            && (r.Ok? && p != [] ==>
                  && SameBut(db, r.value, p) && r.value.files == db.files && p in r.value.pending
                  && r.value.pending[p] ==
                       if p in db.pending then JobRow(due, reason, db.pending[p].retries, db.pending[p].pid, db.pending[p].process)
                       else JobRow(due, reason, 0, 0, ""))
  {
  }

  // ---------- the due query ----------

  function DueSet(pending: map<Path, JobRow<int>>, now: int): set<Path> {
    set p | p in pending && pending[p].due <= now
  }

  ghost predicate Faithful(pending: map<Path, JobRow<int>>, jobs: seq<Job<int>>) {
    && (forall i :: 0 <= i < |jobs| ==> jobs[i].path in pending && jobs[i].row == pending[jobs[i].path])
    && (forall i, j :: 0 <= i < j < |jobs| ==> jobs[i].path != jobs[j].path)
    && (forall i, j :: 0 <= i < j < |jobs| ==> jobs[i].row.due <= jobs[j].row.due)
  }

  function PathsOf(jobs: seq<Job<int>>): set<Path> {
    set j | j in jobs :: j.path
  }

  /** `jobs` answers SELECT ... WHERE due <= now ORDER BY due LIMIT limit. A
      negative limit means none; rows due at the same second come in any order. */
  ghost predicate IsDueSelection(pending: map<Path, JobRow<int>>, now: int, limit: int, jobs: seq<Job<int>>) {
    && Faithful(pending, jobs)
    && PathsOf(jobs) <= DueSet(pending, now)
    && |jobs| == (if 0 <= limit < |DueSet(pending, now)| then limit else |DueSet(pending, now)|)
    && (forall q, i :: q in DueSet(pending, now) - PathsOf(jobs) && 0 <= i < |jobs| ==>
          jobs[i].row.due <= pending[q].due)
  }

  lemma PathsOfAppend(jobs: seq<Job<int>>, j: Job<int>)
    ensures PathsOf(jobs + [j]) == PathsOf(jobs) + {j.path}
  {
  }

  lemma LastPathIsNew(pending: map<Path, JobRow<int>>, jobs: seq<Job<int>>, j: Job<int>)
    requires Faithful(pending, jobs + [j])
    ensures Faithful(pending, jobs) && j.path !in PathsOf(jobs)
  {
    var all := jobs + [j];
    assert forall i :: 0 <= i < |jobs| ==> jobs[i] == all[i];
    assert all[|jobs|] == j;
  }

  lemma {:induction false} JobCount(pending: map<Path, JobRow<int>>, jobs: seq<Job<int>>)
    requires Faithful(pending, jobs)
    ensures |PathsOf(jobs)| == |jobs|
  {
    if jobs == [] {
      assert PathsOf(jobs) == {};
    } else {
      hide Faithful, PathsOf;
      var front, last := jobs[..|jobs| - 1], jobs[|jobs| - 1];
      assert jobs == front + [last];
      LastPathIsNew(pending, front, last);
      PathsOfAppend(front, last);
      JobCount(pending, front);
    }
  }

  /** The rows that compete with p for a place in a batch. */
  function Rivals(pending: map<Path, JobRow<int>>, p: Path): set<Path>
    requires p in pending
  {
    set q | q in pending && q != p && pending[q].due <= pending[p].due
  }

  lemma {:induction false} EarliestOf(pending: map<Path, JobRow<int>>, s: set<Path>) returns (p: Path)
    requires s != {} && s <= pending.Keys
    ensures p in s && forall q :: q in s ==> pending[p].due <= pending[q].due
  {
    p :| p in s;
    if s != {p} {
      var r := EarliestOf(pending, s - {p});
      if pending[r].due <= pending[p].due {
        p := r;
      }
    }
  }

  lemma {:induction false} SortedEnumeration(pending: map<Path, JobRow<int>>, s: set<Path>)
    returns (jobs: seq<Job<int>>)
    requires s <= pending.Keys
    ensures Faithful(pending, jobs) && PathsOf(jobs) == s
    decreases |s|
  {
    if s == {} {
      jobs := [];
    } else {
      var p := EarliestOf(pending, s);
      var rest := SortedEnumeration(pending, s - {p});
      jobs := [Job(p, pending[p])] + rest;
      PathAt(rest);
      assert PathsOf(jobs) == {p} + PathsOf(rest);
      PrependFaithful(pending, p, rest);
    }
  }

  lemma PathAt(jobs: seq<Job<int>>)
    ensures forall i :: 0 <= i < |jobs| ==> jobs[i].path in PathsOf(jobs)
    ensures forall p :: p in PathsOf(jobs) ==> exists i :: 0 <= i < |jobs| && jobs[i].path == p
  {
    forall i | 0 <= i < |jobs|
      ensures jobs[i].path in PathsOf(jobs)
    {
      assert jobs[i] in jobs;
    }
  }

  lemma PrependFaithful(pending: map<Path, JobRow<int>>, p: Path, rest: seq<Job<int>>)
    requires Faithful(pending, rest) && p in pending && p !in PathsOf(rest)
    requires forall q :: q in PathsOf(rest) ==> q in pending && pending[p].due <= pending[q].due
    ensures Faithful(pending, [Job(p, pending[p])] + rest)
  {
    PathAt(rest);
    var jobs := [Job(p, pending[p])] + rest;
    forall i | 0 <= i < |jobs|
      ensures jobs[i].path in pending && jobs[i].row == pending[jobs[i].path]
      ensures i > 0 ==> jobs[i] == rest[i - 1] && jobs[i].path != p && pending[p].due <= jobs[i].row.due
    {
      if i > 0 {
        assert rest[i - 1].path in PathsOf(rest);
      }
    }
  }

  /** A due row is in every answer of the due query exactly when fewer than
      `limit` other rows are due no later than it. */
  lemma AlwaysSelectedIff(pending: map<Path, JobRow<int>>, now: int, limit: int, p: Path)
    requires p in DueSet(pending, now) && limit > 0
    ensures (forall jobs :: IsDueSelection(pending, now, limit, jobs) ==> p in PathsOf(jobs))
       <==> |Rivals(pending, p)| < limit
  {
    if |Rivals(pending, p)| < limit {
      forall jobs | IsDueSelection(pending, now, limit, jobs)
        ensures p in PathsOf(jobs)
      {
        if p !in PathsOf(jobs) {
          SelectedAreRivals(pending, now, limit, p, jobs);
        }
      }
    } else {
      var jobs := SelectionWithout(pending, now, limit, p);
    }
  }

  lemma SelectedAreRivals(pending: map<Path, JobRow<int>>, now: int, limit: int, p: Path, jobs: seq<Job<int>>)
    requires p in DueSet(pending, now) && limit > 0
    requires IsDueSelection(pending, now, limit, jobs) && p !in PathsOf(jobs)
    ensures |Rivals(pending, p)| >= limit
  {
    JobCount(pending, jobs);
    if |jobs| == |DueSet(pending, now)| {
      SubsetCount(PathsOf(jobs), DueSet(pending, now));
    }
    forall q | q in PathsOf(jobs)
      ensures q in Rivals(pending, p)
    {
      var i :| 0 <= i < |jobs| && jobs[i].path == q;
      assert jobs[i].row.due <= pending[p].due;
    }
    SubsetCount(PathsOf(jobs), Rivals(pending, p));
  }

  lemma SelectionWithout(pending: map<Path, JobRow<int>>, now: int, limit: int, p: Path)
    returns (jobs: seq<Job<int>>)
    requires p in DueSet(pending, now) && limit > 0
    requires |Rivals(pending, p)| >= limit
    ensures IsDueSelection(pending, now, limit, jobs) && p !in PathsOf(jobs)
  {
    var due := DueSet(pending, now);
    var all := SortedEnumeration(pending, due - {p});
    SubsetCount(Rivals(pending, p), due - {p});
    JobCount(pending, all);
    jobs := all[..limit];
    RivalsComeFirst(pending, p, all, limit);
    PrefixIsEarliest(pending, due, p, all, limit);
    PrefixFaithful(pending, all, limit);
    PrefixPaths(all, limit);
    hide PathsOf, Rivals, Faithful;
  }

  lemma PrefixPaths(all: seq<Job<int>>, n: nat)
    requires n <= |all|
    ensures PathsOf(all[..n]) <= PathsOf(all)
  {
    forall x | x in PathsOf(all[..n])
      ensures x in PathsOf(all)
    {
      var j :| j in all[..n] && j.path == x;
      assert j in all;
    }
  }

  /** Of the rows other than p, the first `n` in order are due no later than any
      row they leave out. */
  lemma PrefixIsEarliest(pending: map<Path, JobRow<int>>, due: set<Path>, p: Path, all: seq<Job<int>>, n: nat)
    requires Faithful(pending, all) && due <= pending.Keys && p in due && PathsOf(all) == due - {p} && n <= |all|
    requires forall i :: 0 <= i < n ==> all[i].row.due <= pending[p].due
    ensures forall q, i :: q in due - PathsOf(all[..n]) && 0 <= i < n ==> all[..n][i].row.due <= pending[q].due
  {
    forall q, i | q in due - PathsOf(all[..n]) && 0 <= i < n
      ensures all[..n][i].row.due <= pending[q].due
    {
      if q != p {
        PathAt(all);
        assert q in PathsOf(all);
        var k :| 0 <= k < |all| && all[k].path == q;
        PrefixPath(all, n, k);
        assert all[i].row.due <= all[k].row.due;
      }
    }
  }

  /** With at least `limit` rivals, the `limit` earliest other rows are rivals. */
  lemma RivalsComeFirst(pending: map<Path, JobRow<int>>, p: Path, all: seq<Job<int>>, limit: nat)
    requires p in pending && Faithful(pending, all)
    requires Rivals(pending, p) <= PathsOf(all) && 0 < limit <= |all|
    requires |Rivals(pending, p)| >= limit
    ensures forall i :: 0 <= i < limit ==> all[i].row.due <= pending[p].due
  {
    if pending[p].due < all[limit - 1].row.due {
      var before := all[..limit - 1];
      PrefixFaithful(pending, all, limit - 1);
      RivalsLieWithin(pending, p, all, limit - 1);
      JobCount(pending, before);
      SubsetCount(Rivals(pending, p), PathsOf(before));
    }
  }

  lemma PrefixFaithful(pending: map<Path, JobRow<int>>, all: seq<Job<int>>, k: nat)
    requires Faithful(pending, all) && k <= |all|
    ensures Faithful(pending, all[..k])
  {
  }

  lemma PrefixPath(all: seq<Job<int>>, n: nat, k: nat)
    requires k < |all| && n <= |all|
    ensures k < n ==> all[k].path in PathsOf(all[..n])
  {
    assert k < n ==> all[..n][k] == all[k] && all[k] in all[..n];
  }

  lemma RivalsLieWithin(pending: map<Path, JobRow<int>>, p: Path, all: seq<Job<int>>, k: nat)
    requires p in pending && Faithful(pending, all) && k < |all|
    requires Rivals(pending, p) <= PathsOf(all) && pending[p].due < all[k].row.due
    ensures Rivals(pending, p) <= PathsOf(all[..k])
  {
    PathAt(all);
    PathAt(all[..k]);
    forall q | q in Rivals(pending, p)
      ensures q in PathsOf(all[..k])
    {
      assert q in PathsOf(all);
      var i :| 0 <= i < |all| && all[i].path == q;
      assert all[i].row == pending[q];
      assert i < k;
      assert all[..k][i].path == q;
    }
  }

  // ---------- the eviction order ----------

  predicate SeenBefore(files: map<Path, FileRow<int>>, p: Path, q: Path)
    requires p in files && q in files
  {
    files[p].lastSeen < files[q].lastSeen
    || (files[p].lastSeen == files[q].lastSeen && TextLess(p, q))
  }

  function CachedSet(files: map<Path, FileRow<int>>): set<Path> {
    set p | p in files && files[p].present
  }

  function RefPaths(list: seq<CachedFileRef>): set<Path> {
    set r | r in list :: r.path
  }

  /** `list` answers SELECT ... WHERE cache_present=1 ORDER BY last_seen, path. */
  ghost predicate IsVictimList(files: map<Path, FileRow<int>>, list: seq<CachedFileRef>) {
    && RefPaths(list) == CachedSet(files)
    && (forall i :: 0 <= i < |list| ==>
          list[i].path in files && files[list[i].path].present && list[i].size == files[list[i].path].cachedSize)
    && (forall i, j :: 0 <= i < j < |list| ==> SeenBefore(files, list[i].path, list[j].path))
  }

  lemma SeenBeforeIsStrict(files: map<Path, FileRow<int>>, p: Path, q: Path, r: Path)
    requires p in files && q in files && r in files
    ensures !SeenBefore(files, p, p)
    ensures SeenBefore(files, p, q) || p == q || SeenBefore(files, q, p)
    ensures SeenBefore(files, p, q) && SeenBefore(files, q, r) ==> SeenBefore(files, p, r)
  {
    Irreflexive(p);
    Trichotomy(p, q);
    if TextLess(p, q) && TextLess(q, r) {
      Transitive(p, q, r);
    }
  }

  /** The victim order leaves no choice: two answers are the same list. */
  lemma {:induction false} VictimListUnique(files: map<Path, FileRow<int>>, a: seq<CachedFileRef>, b: seq<CachedFileRef>)
    requires IsVictimList(files, a) && IsVictimList(files, b)
    ensures a == b
  {
    SameRefs(files, a, b, 0);
  }

  lemma {:induction false} SameRefs(files: map<Path, FileRow<int>>, a: seq<CachedFileRef>, b: seq<CachedFileRef>, k: nat)
    requires IsVictimList(files, a) && IsVictimList(files, b)
    requires k <= |a| && k <= |b| && a[..k] == b[..k]
    ensures a == b
    decreases |a| - k
  {
    if k < |a| {
      var j := Locate(files, a, b, k);
      var i := Locate(files, b, a, k);
      SeenBeforeIsStrict(files, a[k].path, b[k].path, a[k].path);
      assert a[k] == b[k];
      SameRefs(files, a, b, k + 1);
    } else if k < |b| {
      var i := Locate(files, b, a, k);
    }
  }

  lemma Locate(files: map<Path, FileRow<int>>, a: seq<CachedFileRef>, b: seq<CachedFileRef>, k: nat) returns (j: nat)
    requires IsVictimList(files, a) && IsVictimList(files, b)
    requires k < |a| && k <= |b| && a[..k] == b[..k]
    ensures k <= j < |b| && b[j] == a[k]
    ensures j == k || SeenBefore(files, b[k].path, a[k].path)
  {
    assert a[k] in a;
    assert a[k].path in RefPaths(b);
    j :| 0 <= j < |b| && b[j].path == a[k].path;
    if j < k {
      assert a[..k][j] == a[j];
      SeenBeforeIsStrict(files, a[j].path, a[k].path, a[k].path);
      assert false;
    }
  }

  // ---------- sums of cached bytes ----------

  ghost function SizeSum(sizes: map<Path, nat>, s: set<Path>): nat
    requires s <= sizes.Keys
    decreases |s|
  {
    if s == {} then 0
    else
      var p :| p in s;
      sizes[p] + SizeSum(sizes, s - {p})
  }

  lemma {:induction false} SizeSumRemove(sizes: map<Path, nat>, s: set<Path>, p: Path)
    requires s <= sizes.Keys && p in s
    ensures SizeSum(sizes, s) == sizes[p] + SizeSum(sizes, s - {p})
    decreases |s|
  {
    var q :| q in s && SizeSum(sizes, s) == sizes[q] + SizeSum(sizes, s - {q});
    if q != p {
      SizeSumRemove(sizes, s - {q}, p);
      SizeSumRemove(sizes, s - {p}, q);
      assert s - {q} - {p} == s - {p} - {q};
    }
  }

  lemma {:induction false} SizeSumAgrees(a: map<Path, nat>, b: map<Path, nat>, s: set<Path>)
    requires s <= a.Keys && s <= b.Keys
    requires forall p :: p in s ==> a[p] == b[p]
    ensures SizeSum(a, s) == SizeSum(b, s)
    decreases |s|
  {
    if s != {} {
      var p :| p in s;
      SizeSumRemove(a, s, p);
      SizeSumRemove(b, s, p);
      SizeSumAgrees(a, b, s - {p});
    }
  }

  /** Total recorded size of the files the index says are cached. */
  ghost function CachedBytes(files: map<Path, FileRow<int>>): nat {
    SizeSum(map p | p in files :: files[p].cachedSize, CachedSet(files))
  }

  /** Marking a cached file removed lowers the total by its recorded size. */
  lemma RemovalLowersTotal(db: Db<int>, p: Path)
    requires p in CachedSet(db.files)
    ensures CachedBytes(MarkRemoved(db, p).files) + db.files[p].cachedSize == CachedBytes(db.files)
    ensures CachedSet(MarkRemoved(db, p).files) == CachedSet(db.files) - {p}
  {
    var files' := MarkRemoved(db, p).files;
    var a := map q | q in db.files :: db.files[q].cachedSize;
    var b := map q | q in files' :: files'[q].cachedSize;
    assert CachedSet(files') == CachedSet(db.files) - {p};
    SizeSumRemove(a, CachedSet(db.files), p);
    SizeSumAgrees(a, b, CachedSet(files'));
  }
}
