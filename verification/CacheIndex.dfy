/** The cache index as the program holds it: two tables whose timestamps are
    text, compared as text by the queries. The ghost field `db` is the same
    content in whole seconds; every method says what it does to `db`. */
module CacheIndexStore {
  import opened Prelude
  import opened TextOrder
  import opened UtcTime
  import opened IndexModel

  predicate StorableOption(t: Option<int>) {
    t.Some? ==> Representable(t.value)
  }

  predicate StorableFile(r: FileRow<int>) {
    Representable(r.lastSeen) && StorableOption(r.lastWriteClose) && StorableOption(r.cachedAt)
  }

  function OptionText(t: Option<int>): Option<string>
    requires StorableOption(t)
  {
    match t case None => None case Some(s) => Some(SecondText(s))
  }

  function FileText(r: FileRow<int>): FileRow<string>
    requires StorableFile(r)
  {
    FileRow(SecondText(r.lastSeen), OptionText(r.lastWriteClose), r.sourceSize, r.cachedSize,
            OptionText(r.cachedAt), r.hash, r.present, r.lastError, r.pid, r.process)
  }

  function JobText(r: JobRow<int>): JobRow<string>
    requires Representable(r.due)
  {
    JobRow(SecondText(r.due), r.reason, r.retries, r.pid, r.process)
  }

  /** column_time: NULL and unreadable text both give no time. */
  function ReadTime(text: Option<string>): Option<int> {
    match text case None => None case Some(s) => ParseUtc(s)
  }

  lemma StoredFileReadsBack(r: FileRow<int>)
    requires StorableFile(r)
    ensures ParseUtc(SecondText(r.lastSeen)) == Some(r.lastSeen)
    ensures ReadTime(OptionText(r.lastWriteClose)) == r.lastWriteClose && ReadTime(OptionText(r.cachedAt)) == r.cachedAt
  {
    hide ParseUtc, SecondText;
    ParseInvertsFormat(r.lastSeen);
    if r.lastWriteClose.Some? {
      ParseInvertsFormat(r.lastWriteClose.value);
    }
    if r.cachedAt.Some? {
      ParseInvertsFormat(r.cachedAt.value);
    }
  }

  /** The text tables hold exactly the rows of `db`. */
  ghost predicate FilesStored(files: map<Path, FileRow<string>>, model: map<Path, FileRow<int>>) {
    && files.Keys == model.Keys
    && forall p :: p in model ==> StorableFile(model[p]) && files[p] == FileText(model[p])
  }

  ghost predicate PendingStored(pending: map<Path, JobRow<string>>, model: map<Path, JobRow<int>>) {
    && pending.Keys == model.Keys
    && forall p :: p in model ==> Representable(model[p].due) && pending[p] == JobText(model[p])
  }

  // Facts about the stored tables, so that the methods below need not look
  // inside the calendar or the quantifiers.

  lemma FileAt(files: map<Path, FileRow<string>>, model: map<Path, FileRow<int>>, p: Path)
    requires FilesStored(files, model)
    ensures files.Keys == model.Keys
    ensures p in model ==> StorableFile(model[p]) && files[p] == FileText(model[p])
  {
  }

  lemma JobAt(pending: map<Path, JobRow<string>>, model: map<Path, JobRow<int>>, p: Path)
    requires PendingStored(pending, model)
    ensures pending.Keys == model.Keys
    ensures p in model ==> Representable(model[p].due) && pending[p] == JobText(model[p])
  {
  }

  lemma StoreFile(files: map<Path, FileRow<string>>, model: map<Path, FileRow<int>>, p: Path, row: FileRow<int>)
    requires FilesStored(files, model) && StorableFile(row)
    ensures FilesStored(files[p := FileText(row)], model[p := row])
  {
    hide SecondText;
  }

  lemma StoreJob(pending: map<Path, JobRow<string>>, model: map<Path, JobRow<int>>, p: Path, row: JobRow<int>)
    requires PendingStored(pending, model) && Representable(row.due)
    ensures PendingStored(pending[p := JobText(row)], model[p := row])
  {
    hide SecondText;
  }

  lemma DropRows(files: map<Path, FileRow<string>>, model: map<Path, FileRow<int>>,
                 pending: map<Path, JobRow<string>>, jobs: map<Path, JobRow<int>>, p: Path)
    requires FilesStored(files, model) && PendingStored(pending, jobs)
    ensures FilesStored(files - {p}, model - {p}) && PendingStored(pending - {p}, jobs - {p})
  {
    hide SecondText;
  }

  class CacheIndex {
    var files: map<Path, FileRow<string>>
    var pending: map<Path, JobRow<string>>
    ghost var db: Db<int>

    ghost predicate Valid()
      reads this
    {
      FilesStored(files, db.files) && PendingStored(pending, db.pending) && Consistent(db)
    }

    constructor ()
      ensures Valid() && db == Db(map[], map[])
    {
      files, pending := map[], map[];
      db := Db(map[], map[]);
    }

    method RecordAccess(e: AccessEvent, copyDelay: int)
      requires Valid()
      requires Representable(ToSeconds(e.observedAt))
      requires e.kind in {ReadOpen, WriteClosed} ==> Representable(ToSeconds(e.observedAt + copyDelay * TICKS))
      modifies this
      ensures Valid()
      ensures e.path != [] && e.kind in {ReadOpen, WriteClosed} ==>
                e.path in db.pending && db.pending[e.path].due == ToSeconds(e.observedAt + copyDelay * TICKS)
      ensures e.path == [] || e.kind in {WriteObserved, Rename, Delete} ==> db.pending == old(db.pending)
      ensures db == if e.path == [] then old(db)
                    else IndexModel.RecordAccess(old(db), e, ToSeconds(e.observedAt),
                                                 ToSeconds(e.observedAt + copyDelay * TICKS))
    {
      hide SecondText, FilesStored, PendingStored;
      FileAt(files, db.files, e.path);
      JobAt(pending, db.pending, e.path);
      ghost var after := IndexModel.RecordAccess(db, e, ToSeconds(e.observedAt), ToSeconds(e.observedAt + copyDelay * TICKS));
      StoreFile(files, db.files, e.path, after.files[e.path]);
      if SchedulesCopy(e.kind) {
        StoreJob(pending, db.pending, e.path, after.pending[e.path]);
      }
      if e.path == [] {
        return;
      }
      var seen := FormatUtc(e.observedAt);
      var closed := if e.kind == WriteClosed then Some(seen) else None;
      if e.path in files {
        var row := files[e.path].(lastSeen := seen, sourceSize := e.sizeHint, pid := e.pid, process := e.process);
        if closed.Some? {
          row := row.(lastWriteClose := closed);
        }
        files := files[e.path := row];
      } else {
        files := files[e.path := FileRow(seen, closed, e.sizeHint, 0, None, "", false, "", e.pid, e.process)];
      }
      if SchedulesCopy(e.kind) {
        var due := FormatUtc(e.observedAt + copyDelay * TICKS);
        var retries := if e.path in pending then pending[e.path].retries else 0;
        pending := pending[e.path := JobRow(due, KindName(e.kind), retries, e.pid, e.process)];
      }
      db := after;
    }

    method UpsertPendingJob(p: Path, dueUtc: int, reason: string) returns (r: Result<(), string>)
      requires Valid() && Representable(ToSeconds(dueUtc))
      modifies this
      ensures Valid()
      ensures r.Ok? <==> p == [] || p in old(db).files
      ensures r.Ok? ==> UpsertPending(old(db), p, ToSeconds(dueUtc), reason) == Ok(db)
      ensures r.Err? ==> db == old(db)
    {
      hide SecondText, FilesStored, PendingStored;
      FileAt(files, db.files, p);
      JobAt(pending, db.pending, p);
      ghost var after := UpsertPending(db, p, ToSeconds(dueUtc), reason);
      if p != [] && after.Ok? {
        StoreJob(pending, db.pending, p, after.value.pending[p]);
      }
      if p == [] {
        return Ok(());
      }
      if p !in files {
        return Err("FOREIGN KEY constraint failed");
      }
      if p in pending {
        pending := pending[p := pending[p].(due := FormatUtc(dueUtc), reason := reason)];
      } else {
        pending := pending[p := JobRow(FormatUtc(dueUtc), reason, 0, 0, "")];
      }
      db := after.value;
      return Ok(());
    }

    method RemovePendingJob(p: Path)
      requires Valid()
      modifies this
      ensures Valid() && db == RemovePending(old(db), p)
    {
      hide SecondText, FilesStored, PendingStored;
      DropRows(files, db.files, pending, db.pending, p);
      pending := pending - {p};
      db := RemovePending(db, p);
    }

    method DeleteRecord(p: Path)
      requires Valid()
      modifies this
      ensures Valid() && db == IndexModel.DeleteRecord(old(db), p)
    {
      hide SecondText, FilesStored, PendingStored;
      DropRows(files, db.files, pending, db.pending, p);
      pending := pending - {p};
      files := files - {p};
      db := IndexModel.DeleteRecord(db, p);
    }

    method MarkCached(p: Path, source: nat, cached: nat, hash: string, cachedAtUtc: int)
      requires Valid() && Representable(ToSeconds(cachedAtUtc))
      modifies this
      ensures Valid() && db == IndexModel.MarkCached(old(db), p, source, cached, hash, ToSeconds(cachedAtUtc))
    {
      hide SecondText, FilesStored, PendingStored;
      FileAt(files, db.files, p);
      ghost var after := IndexModel.MarkCached(db, p, source, cached, hash, ToSeconds(cachedAtUtc));
      if p in db.files {
        StoreFile(files, db.files, p, after.files[p]);
      }
      if p in files {
        files := files[p := files[p].(
                   sourceSize := source, cachedSize := cached, cachedAt := Some(FormatUtc(cachedAtUtc)),
                   hash := hash, present := true, lastError := "")];
      }
      db := after;
    }

    method RecordError(p: Path, message: string)
      requires Valid()
      modifies this
      ensures Valid() && db == IndexModel.RecordError(old(db), p, message)
    {
      hide SecondText, FilesStored, PendingStored;
      FileAt(files, db.files, p);
      JobAt(pending, db.pending, p);
      ghost var after := IndexModel.RecordError(db, p, message);
      if p in db.files {
        StoreFile(files, db.files, p, after.files[p]);
      }
      if p in db.pending {
        StoreJob(pending, db.pending, p, after.pending[p]);
      }
      if p in files {
        files := files[p := files[p].(lastError := message)];
      }
      if p in pending {
        pending := pending[p := pending[p].(retries := pending[p].retries + 1)];
      }
      db := after;
    }

    method MarkRemoved(p: Path)
      requires Valid()
      modifies this
      ensures Valid() && db == IndexModel.MarkRemoved(old(db), p)
    {
      hide SecondText, FilesStored, PendingStored;
      FileAt(files, db.files, p);
      DropRows(files, db.files, pending, db.pending, p);
      if p in db.files {
        StoreFile(files, db.files, p, IndexModel.MarkRemoved(db, p).files[p]);
      }
      pending := pending - {p};
      if p in files {
        files := files[p := files[p].(present := false, lastError := "")];
      }
      db := IndexModel.MarkRemoved(db, p);
    }

    /** read_pending_job: an unreadable due time counts as due now. */
    method ReadPendingJob(p: Path, nowUtc: int) returns (job: Job<int>)
      requires Valid() && p in pending
      ensures job == Job(p, db.pending[p])
    {
      var row := pending[p];
      var due := match ParseUtc(row.due) case Some(s) => s case None => ToSeconds(nowUtc);
      ParseInvertsFormat(db.pending[p].due);
      job := Job(p, JobRow(due, row.reason, row.retries, row.pid, row.process));
    }

    method PendingJob(p: Path, nowUtc: int) returns (job: Option<Job<int>>)
      requires Valid()
      ensures job == if p in db.pending then Some(Job(p, db.pending[p])) else None
    {
      if p !in pending {
        return None;
      }
      var found := ReadPendingJob(p, nowUtc);
      return Some(found);
    }

    /** file_record: an unreadable last-seen time counts as now. */
    method FileRecord(p: Path, nowUtc: int) returns (record: Option<FileRow<int>>)
      requires Valid()
      ensures record == if p in db.files then Some(db.files[p]) else None
    {
      hide SecondText, ParseUtc;
      FileAt(files, db.files, p);
      if p !in files {
        return None;
      }
      var row := files[p];
      StoredFileReadsBack(db.files[p]);
      var lastSeen := match ParseUtc(row.lastSeen) case Some(s) => s case None => ToSeconds(nowUtc);
      return Some(FileRow(lastSeen, ReadTime(row.lastWriteClose), row.sourceSize, row.cachedSize, ReadTime(row.cachedAt),
                          row.hash, row.present, row.lastError, row.pid, row.process));
    }

    /** The textual WHERE and ORDER BY of the due query pick the rows whose due
        second has come, earliest first. */
    method DueJobs(nowUtc: int, limit: int) returns (jobs: seq<Job<int>>)
      requires Valid() && Representable(ToSeconds(nowUtc))
      ensures IsDueSelection(db.pending, ToSeconds(nowUtc), limit, jobs)
    {
      var cutoff := FormatUtc(nowUtc);
      var left := set p | p in pending && TextAtMost(pending[p].due, cutoff);
      DueTextMatches(left, cutoff, ToSeconds(nowUtc));
      jobs := TakeByDue(left, limit, nowUtc);
    }

    method LoadPendingJobs(nowUtc: int) returns (jobs: seq<Job<int>>)
      requires Valid()
      ensures Faithful(db.pending, jobs) && PathsOf(jobs) == db.pending.Keys
    {
      jobs := TakeByDue(pending.Keys, -1, nowUtc);
      JobCount(db.pending, jobs);
      SubsetCount(PathsOf(jobs), db.pending.Keys);
    }

    lemma KeysAgree()
      requires Valid()
      ensures pending.Keys == db.pending.Keys && files.Keys == db.files.Keys
    {
    }

    lemma JobTextOrder(p: Path, q: Path)
      requires Valid() && p in pending && q in pending
      ensures TextAtMost(pending[p].due, pending[q].due) <==> db.pending[p].due <= db.pending[q].due
    {
      TextOrderIsTimeOrder(db.pending[p].due, db.pending[q].due);
    }

    lemma DueTextMatches(rows: set<Path>, cutoff: string, now: int)
      requires Valid() && Representable(now) && cutoff == SecondText(now)
      requires rows == set p | p in pending && TextAtMost(pending[p].due, cutoff)
      ensures rows == DueSet(db.pending, now)
    {
      forall p | p in pending
        ensures TextAtMost(pending[p].due, cutoff) <==> db.pending[p].due <= now
      {
        TextOrderIsTimeOrder(db.pending[p].due, now);
      }
    }

    lemma EarliestTextExists(rows: set<Path>)
      requires Valid() && rows != {} && rows <= pending.Keys
      ensures exists p :: p in rows && forall q :: q in rows ==> TextAtMost(pending[p].due, pending[q].due)
    {
      var p := EarliestOf(db.pending, rows);
      forall q | q in rows
        ensures TextAtMost(pending[p].due, pending[q].due)
      {
        JobTextOrder(p, q);
      }
    }

    lemma EarliestTextIsEarliest(rows: set<Path>, p: Path)
      requires Valid() && p in rows && rows <= pending.Keys
      requires forall q :: q in rows ==> TextAtMost(pending[p].due, pending[q].due)
      ensures forall q :: q in rows ==> db.pending[p].due <= db.pending[q].due
    {
      forall q | q in rows
        ensures db.pending[p].due <= db.pending[q].due
      {
        JobTextOrder(p, q);
      }
    }

    /** ORDER BY due_utc LIMIT over the given rows. */
    method TakeByDue(rows: set<Path>, limit: int, nowUtc: int) returns (jobs: seq<Job<int>>)
      requires Valid() && rows <= pending.Keys
      ensures Faithful(db.pending, jobs) && PathsOf(jobs) <= rows
      ensures |jobs| == if 0 <= limit < |rows| then limit else |rows|
      ensures forall q, i :: q in rows - PathsOf(jobs) && 0 <= i < |jobs| ==> jobs[i].row.due <= db.pending[q].due
    {
      hide *;
      jobs := [];
      var left := rows;
      KeysAgree();
      DuePrefixStart(db.pending, rows);
      while left != {} && (limit < 0 || |jobs| < limit)
        invariant DuePrefix(db.pending, rows, jobs, left)
        invariant |jobs| + |left| == |rows| && (limit >= 0 ==> |jobs| <= limit)
        decreases |left|
      {
        DuePrefixRows(db.pending, rows, jobs, left);
        EarliestTextExists(left);
        var p :| p in left && forall q :: q in left ==> TextAtMost(pending[p].due, pending[q].due);
        var job := ReadPendingJob(p, nowUtc);
        EarliestTextIsEarliest(left, p);
        DuePrefixGrows(db.pending, rows, jobs, left, p);
        jobs := jobs + [job];
        left := left - {p};
      }
      DuePrefixRows(db.pending, rows, jobs, left);
    }

    /** cached_files_by_last_access: least recently seen first, then by path. */
    method CachedFilesByLastAccess() returns (list: seq<CachedFileRef>)
      requires Valid()
      ensures IsVictimList(db.files, list)
    {
      hide *;
      list := [];
      var left := set p | p in files && files[p].present;
      PresentMatches(left);
      VictimPrefixStart(db.files);
      while left != {}
        invariant VictimPrefix(db.files, list, left)
        decreases |left|
      {
        VictimPrefixRows(db.files, list, left);
        FilesAreStored();
        LeastRecentExists(left);
        var p :| p in left && forall q :: q in left && q != p ==> RowTextBefore(p, q);
        FileAt(files, db.files, p);
        LeastRecentIsFirst(left, p);
        SizeAt(p);
        VictimPrefixGrows(db.files, list, left, p);
        list := list + [CachedFileRef(p, files[p].cachedSize)];
        left := left - {p};
      }
      VictimPrefixEnds(db.files, list);
    }

    lemma FilesAreStored()
      requires Valid()
      ensures FilesStored(files, db.files)
    {
    }

    lemma SizeAt(p: Path)
      requires Valid() && p in files
      ensures p in db.files && files[p].cachedSize == db.files[p].cachedSize
    {
    }

    lemma PresentMatches(rows: set<Path>)
      requires Valid() && rows == set p | p in files && files[p].present
      ensures rows == CachedSet(db.files)
    {
      hide SecondText;
    }

    /** ORDER BY last_seen_utc ASC, relative_path ASC on the stored text. */
    predicate RowTextBefore(p: Path, q: Path)
      requires p in files && q in files
      reads this
    {
      TextLess(files[p].lastSeen, files[q].lastSeen)
      || (files[p].lastSeen == files[q].lastSeen && TextLess(p, q))
    }

    lemma RowTextOrder(p: Path, q: Path)
      requires Valid() && p in files && q in files
      ensures RowTextBefore(p, q) <==> SeenBefore(db.files, p, q)
    {
      TextOrderIsTimeOrder(db.files[p].lastSeen, db.files[q].lastSeen);
    }

    lemma LeastRecentIsFirst(rows: set<Path>, p: Path)
      requires Valid() && p in rows && rows <= files.Keys
      requires forall q :: q in rows && q != p ==> RowTextBefore(p, q)
      ensures forall q :: q in rows && q != p ==> SeenBefore(db.files, p, q)
    {
      hide SecondText, RowTextBefore, SeenBefore;
      forall q | q in rows && q != p
        ensures SeenBefore(db.files, p, q)
      {
        RowTextOrder(p, q);
      }
    }

    lemma RowTextIsStrict(p: Path, q: Path, r: Path)
      requires Valid() && p in files && q in files && r in files
      ensures RowTextBefore(p, q) || p == q || RowTextBefore(q, p)
      ensures RowTextBefore(p, q) && RowTextBefore(q, r) ==> RowTextBefore(p, r)
    {
      hide SecondText, RowTextBefore, SeenBefore;
      RowTextOrder(p, q);
      RowTextOrder(q, p);
      RowTextOrder(q, r);
      RowTextOrder(p, r);
      SeenBeforeIsStrict(db.files, p, q, r);
    }

    lemma {:induction false} LeastRecentExists(rows: set<Path>)
      requires Valid() && rows != {} && rows <= files.Keys
      ensures exists p :: p in rows && forall q :: q in rows && q != p ==> RowTextBefore(p, q)
      decreases |rows|
    {
      hide SecondText, FilesStored, PendingStored, RowTextBefore;
      var p :| p in rows;
      if rows == {p} {
        assert forall q :: q in rows && q != p ==> RowTextBefore(p, q);
      } else {
        LeastRecentExists(rows - {p});
        var r :| r in rows - {p} && forall q :: q in rows - {p} && q != r ==> RowTextBefore(r, q);
        RowTextIsStrict(p, r, r);
        if RowTextBefore(r, p) {
          assert forall q :: q in rows && q != r ==> RowTextBefore(r, q);
        } else {
          forall q | q in rows && q != p
            ensures RowTextBefore(p, q)
          {
            RowTextIsStrict(p, r, q);
          }
        }
      }
    }
  }

  // ---------- loop states of the two ORDER BY queries ----------

  /** `jobs` are the earliest of `rows`, in order; `left` is what remains. */
  ghost predicate DuePrefix(pending: map<Path, JobRow<int>>, rows: set<Path>, jobs: seq<Job<int>>, left: set<Path>) {
    && Faithful(pending, jobs) && PathsOf(jobs) <= rows && left == rows - PathsOf(jobs) && rows <= pending.Keys
    && forall q, i :: q in left && 0 <= i < |jobs| ==> jobs[i].row.due <= pending[q].due
  }

  lemma DuePrefixStart(pending: map<Path, JobRow<int>>, rows: set<Path>)
    requires rows <= pending.Keys
    ensures DuePrefix(pending, rows, [], rows)
  {
  }

  lemma DuePrefixRows(pending: map<Path, JobRow<int>>, rows: set<Path>, jobs: seq<Job<int>>, left: set<Path>)
    requires DuePrefix(pending, rows, jobs, left)
    ensures left <= pending.Keys && left == rows - PathsOf(jobs)
    ensures Faithful(pending, jobs) && PathsOf(jobs) <= rows
    ensures forall q, i :: q in rows - PathsOf(jobs) && 0 <= i < |jobs| ==> jobs[i].row.due <= pending[q].due
  {
  }

  lemma DuePrefixGrows(pending: map<Path, JobRow<int>>, rows: set<Path>, jobs: seq<Job<int>>, left: set<Path>, p: Path)
    requires DuePrefix(pending, rows, jobs, left) && p in left
    requires forall q :: q in left ==> pending[p].due <= pending[q].due
    ensures DuePrefix(pending, rows, jobs + [Job(p, pending[p])], left - {p})
  {
    AppendFaithful(pending, jobs, p);
    var longer := jobs + [Job(p, pending[p])];
    forall q, i | q in left - {p} && 0 <= i < |longer|
      ensures longer[i].row.due <= pending[q].due
    {
      if i < |jobs| {
        assert longer[i] == jobs[i];
      }
    }
  }

  lemma AppendFaithful(pending: map<Path, JobRow<int>>, jobs: seq<Job<int>>, p: Path)
    requires Faithful(pending, jobs) && p in pending && p !in PathsOf(jobs)
    requires forall i :: 0 <= i < |jobs| ==> jobs[i].row.due <= pending[p].due
    ensures Faithful(pending, jobs + [Job(p, pending[p])])
    ensures PathsOf(jobs + [Job(p, pending[p])]) == PathsOf(jobs) + {p}
  {
    PathAt(jobs);
    var longer := jobs + [Job(p, pending[p])];
    assert forall i :: 0 <= i < |jobs| ==> longer[i] == jobs[i] && longer[i].path in PathsOf(jobs);
    assert forall j :: j in longer <==> j in jobs || j == Job(p, pending[p]);
  }

  /** `list` is the front of the victim order; `left` are the cached files
      not yet listed. */
  ghost predicate VictimPrefix(files: map<Path, FileRow<int>>, list: seq<CachedFileRef>, left: set<Path>) {
    && RefPaths(list) !! left && RefPaths(list) + left == CachedSet(files)
    && (forall i :: 0 <= i < |list| ==>
          list[i].path in CachedSet(files) && list[i].size == files[list[i].path].cachedSize)
    && (forall i, j :: 0 <= i < j < |list| ==> SeenBefore(files, list[i].path, list[j].path))
    && (forall i, q :: 0 <= i < |list| && q in left ==> SeenBefore(files, list[i].path, q))
  }

  lemma VictimPrefixStart(files: map<Path, FileRow<int>>)
    ensures VictimPrefix(files, [], CachedSet(files))
  {
  }

  lemma VictimPrefixRows(files: map<Path, FileRow<int>>, list: seq<CachedFileRef>, left: set<Path>)
    requires VictimPrefix(files, list, left)
    ensures left <= CachedSet(files) && left <= files.Keys
  {
    assert forall p :: p in left ==> p in CachedSet(files);
  }

  lemma VictimPrefixEnds(files: map<Path, FileRow<int>>, list: seq<CachedFileRef>)
    requires VictimPrefix(files, list, {})
    ensures IsVictimList(files, list)
  {
    hide SeenBefore;
  }

  lemma VictimPrefixGrows(files: map<Path, FileRow<int>>, list: seq<CachedFileRef>, left: set<Path>, p: Path)
    requires VictimPrefix(files, list, left) && p in left
    requires left <= files.Keys
    requires forall q :: q in left && q != p ==> SeenBefore(files, p, q)
    ensures p in files
    ensures VictimPrefix(files, list + [CachedFileRef(p, files[p].cachedSize)], left - {p})
  {
    hide SeenBefore;
    var r := CachedFileRef(p, files[p].cachedSize);
    var longer := list + [r];
    assert forall x :: x in longer <==> x in list || x == r;
    assert RefPaths(longer) == RefPaths(list) + {p};
    assert p in CachedSet(files);
    assert forall i :: 0 <= i < |longer| ==> longer[i] == if i < |list| then list[i] else r;
  }
}
