/** The cache volume as its callers see it, and the two least-recently-used
    eviction loops: evict_least_recently_used and the loop of make_room_for. */
module Eviction {
  import opened Prelude
  import opened IndexModel
  import opened Protocol
  import opened CacheIndexStore

  // ---------- the volume ----------

  /** What the copy engine meets when it is asked to copy a path. */
  datatype EngineReply =
    | Copies(size: nat, bytes: nat, hash: string, at: int)   // inspected size, bytes actually read
    | FindsSame(byHash: bool, hash: string, at: int)         // a matching cache file, if there is one
    | MissesSource(error: string)
    | Fails(error: string)
    | SeesStop                                               // polls the stop flag
    | Throws(message: string)

  /** What copy_and_hash gives its caller: a report with the bytes read, or an
      exception. */
  datatype EngineAnswer = Reports(result: CopyResult, bytes: nat) | Raises(message: string)

  /** Everything outside the program's control, by call number. */
  datatype World = World(
    capacity: nat,
    others: nat -> nat,                   // bytes other programs use at the n-th free-space query
    readable: nat -> bool,                // whether the n-th free-space query succeeds
    removeError: (nat, Path) -> string,   // error of the n-th removal, empty on success
    copy: (nat, Path) -> EngineReply)

  datatype Volume = Volume(files: map<Path, nat>, used: nat, removals: nat, queries: nat, copies: nat, world: World)

  ghost predicate Accurate(v: Volume) {
    v.used == SizeSum(v.files, v.files.Keys)
  }

  /** remove_cached_file: an absent file is not an error. */
  function Remove(v: Volume, p: Path): (Volume, string) {
    var error := v.world.removeError(v.removals, p);
    if error != [] then (v.(removals := v.removals + 1), error)
    else
      var size := if p in v.files then v.files[p] else 0;
      (v.(files := v.files - {p}, used := if size <= v.used then v.used - size else 0, removals := v.removals + 1), [])
  }

  /** free_bytes. */
  function Query(v: Volume): (Volume, Option<nat>) {
    var taken := v.used + v.world.others(v.queries);
    (v.(queries := v.queries + 1),
     if v.world.readable(v.queries) then Some(if taken <= v.world.capacity then v.world.capacity - taken else 0)
     else None)
  }

  /** copy_and_hash, as the scheduler sees it. */
  function Copy(v: Volume, p: Path, stop: bool): (Volume, EngineAnswer) {
    var next := v.(copies := v.copies + 1);
    match v.world.copy(v.copies, p)
    case Copies(size, bytes, hash, at) =>
      var replaced := if p in v.files then v.files[p] else 0;
      (next.(files := v.files[p := bytes], used := (if replaced <= v.used then v.used - replaced else 0) + bytes),
       Reports(CopyResult(Copied, size, size, hash, at, []), bytes))
    case FindsSame(byHash, hash, at) =>
      if p in v.files then
        (next, Reports(CopyResult(if byHash then SkippedHashMatch else SkippedSameSize, v.files[p], v.files[p],
                                  if byHash then hash else [], at, []), v.files[p]))
      else (next, Reports(CopyResult(Failed, 0, 0, [], 0, "no cache file to match"), 0))
    case MissesSource(error) => (next, Reports(CopyResult(SourceMissing, 0, 0, [], 0, error), 0))
    case Fails(error) => (next, Reports(CopyResult(Failed, 0, 0, [], 0, error), 0))
    case SeesStop => (next, Reports(CopyResult(if stop then Cancelled else Failed, 0, 0, [], 0, "copy cancelled"), 0))
    case Throws(message) => (next, Raises(message))
  }

  /** A removal that fails leaves the volume alone; one that works takes the file and
      nothing else. A free-space reading is the capacity without what is used. */
  lemma VolumeMeans(v: Volume, p: Path)
    ensures var (after, error) := Remove(v, p);
            && error == v.world.removeError(v.removals, p)
            && after == v.(files := after.files, used := after.used, removals := v.removals + 1)
            && (error == [] ==> after.files == v.files - {p})
            && (error != [] ==> after.files == v.files && after.used == v.used)
    ensures var (after, free) := Query(v);
            && after == v.(queries := v.queries + 1) && (free.Some? <==> v.world.readable(v.queries))
            && (free.Some? && free.value > 0 ==> free.value + v.used + v.world.others(v.queries) == v.world.capacity)
            && (free == Some(0) ==> v.used + v.world.others(v.queries) >= v.world.capacity)
  {
  }

  /** A copy changes the volume only when it publishes, and then only its own file. */
  lemma CopyMeans(v: Volume, p: Path, stop: bool)
    ensures var (after, answer) := Copy(v, p, stop);
            && after == v.(files := after.files, used := after.used, copies := v.copies + 1)
            && match v.world.copy(v.copies, p)
               case Copies(size, bytes, hash, at) =>
                 after.files == v.files[p := bytes] && answer == Reports(CopyResult(Copied, size, size, hash, at, ""), bytes)
               case FindsSame(byHash, hash, at) =>
                 && after.files == v.files && after.used == v.used && answer.Reports?
                 && answer.result.action == (if p !in v.files then Failed else if byHash then SkippedHashMatch else SkippedSameSize)
                 && (p in v.files ==> answer.result.sourceSize == answer.result.cachedSize == v.files[p])
               case MissesSource(error) =>
                 after.files == v.files && after.used == v.used && answer == Reports(CopyResult(SourceMissing, 0, 0, "", 0, error), 0)
               case Fails(error) =>
                 after.files == v.files && after.used == v.used && answer == Reports(CopyResult(Failed, 0, 0, "", 0, error), 0)
               case SeesStop =>
                 && after.files == v.files && after.used == v.used && answer.Reports?
                 && answer.result.action == (if stop then Cancelled else Failed)
               case Throws(message) => after.files == v.files && after.used == v.used && answer == Raises(message)
  {
  }

  /** Publishing keeps the bookkeeping accurate, replaced files included. */
  lemma CopyStaysAccurate(v: Volume, p: Path, stop: bool)
    requires Accurate(v)
    ensures Accurate(Copy(v, p, stop).0)
  {
    var after := Copy(v, p, stop).0;
    if v.world.copy(v.copies, p).Copies? {
      var others := v.files.Keys - {p};
      SizeSumRemove(after.files, after.files.Keys, p);
      assert after.files.Keys - {p} == others;
      SizeSumAgrees(v.files, after.files, others);
      if p in v.files {
        SizeSumRemove(v.files, v.files.Keys, p);
      } else {
        assert others == v.files.Keys;
      }
    }
  }

  lemma RemoveStaysAccurate(v: Volume, p: Path)
    requires Accurate(v)
    ensures Accurate(Remove(v, p).0)
    ensures Remove(v, p).1 == [] && p in v.files ==> Remove(v, p).0.used + v.files[p] == v.used
  {
    var after := Remove(v, p).0;
    if Remove(v, p).1 == [] {
      if p in v.files {
        SizeSumRemove(v.files, v.files.Keys, p);
        SizeSumAgrees(v.files, after.files, after.files.Keys);
        assert after.files.Keys == v.files.Keys - {p};
      } else {
        assert after.files == v.files;
      }
    }
  }

  // ---------- the loop ----------

  /** What a sweep over the victim list did. */
  datatype Swept = Swept(
    removed: seq<CachedFileRef>, failed: seq<CachedFileRef>,
    cut: nat,         // entries of the list it looked at
    level: nat,       // bytes freed, or free bytes, when it stopped
    volume: Volume)

  /** The new level after removing `size` bytes: re-read from the volume when
      `reread` is set and the query works, estimated otherwise. */
  function NextLevel(v: Volume, level: nat, size: nat, reread: bool): (Volume, nat) {
    if !reread then (v, level + size)
    else
      var (v', free) := Query(v);
      (v', if free.Some? then free.value else level + size)
  }

  function Sweep(list: seq<CachedFileRef>, exclude: Path, goal: nat, level: nat, v: Volume, reread: bool): (r: Swept)
    ensures r.cut <= |list|
    decreases |list|
  {
    if list == [] || level >= goal then Swept([], [], 0, level, v)
    else if exclude != [] && list[0].path == exclude then
      var rest := Sweep(list[1..], exclude, goal, level, v, reread);
      rest.(cut := rest.cut + 1)
    else
      var (v1, error) := Remove(v, list[0].path);
      if error != [] then
        var rest := Sweep(list[1..], exclude, goal, level, v1, reread);
        rest.(failed := [list[0]] + rest.failed, cut := rest.cut + 1)
      else
        var (v2, level2) := NextLevel(v1, level, list[0].size, reread);
        var rest := Sweep(list[1..], exclude, goal, level2, v2, reread);
        rest.(removed := [list[0]] + rest.removed, cut := rest.cut + 1)
  }

  function TotalSize(refs: seq<CachedFileRef>): nat {
    if refs == [] then 0 else refs[0].size + TotalSize(refs[1..])
  }

  function MarkAllRemoved(db: Db<int>, refs: seq<CachedFileRef>): Db<int>
    decreases |refs|
  {
    if refs == [] then db else MarkAllRemoved(MarkRemoved(db, refs[0].path), refs[1..])
  }

  /** The list elements at positions where `keep` holds, in order. */
  function Filter(keep: CachedFileRef -> bool, list: seq<CachedFileRef>): seq<CachedFileRef> {
    if list == [] then []
    else (if keep(list[0]) then [list[0]] else []) + Filter(keep, list[1..])
  }

  ghost predicate DistinctRefs(list: seq<CachedFileRef>) {
    forall i, j :: 0 <= i < j < |list| ==> list[i].path != list[j].path
  }

  predicate Spared(exclude: Path, r: CachedFileRef) {
    exclude != [] && r.path == exclude
  }

  // ---------- what a sweep achieves ----------

  /** A sweep stops only when its goal is met or every candidate was tried. */
  lemma {:induction false} SweepReachesGoalOrEnd(list: seq<CachedFileRef>, exclude: Path, goal: nat, level: nat, v: Volume, reread: bool)
    ensures var r := Sweep(list, exclude, goal, level, v, reread);
            r.level >= goal || r.cut == |list|
    decreases |list|
  {
    if list != [] && level < goal {
      var (v1, error) := Remove(v, list[0].path);
      var (v2, level2) := NextLevel(v1, level, list[0].size, reread);
      SweepReachesGoalOrEnd(list[1..], exclude, goal, level, v, reread);
      SweepReachesGoalOrEnd(list[1..], exclude, goal, level, v1, reread);
      SweepReachesGoalOrEnd(list[1..], exclude, goal, level2, v2, reread);
    }
  }

  /** `removed` is the first `cut` entries of the list, in their order, without
      the spared path and without the failed ones, which are among them. */
  ghost predicate TakesPrefix(list: seq<CachedFileRef>, exclude: Path, removed: seq<CachedFileRef>, failed: seq<CachedFileRef>, cut: nat)
    requires cut <= |list|
  {
    && removed == Filter(x => x !in failed && !Spared(exclude, x), list[..cut])
    && (forall x :: x in failed ==> x in list[..cut] && !Spared(exclude, x))
  }

  lemma PrefixGrows(list: seq<CachedFileRef>, exclude: Path, removed: seq<CachedFileRef>, failed: seq<CachedFileRef>, cut: nat)
    requires DistinctRefs(list) && list != [] && cut < |list| && TakesPrefix(list[1..], exclude, removed, failed, cut)
    ensures Spared(exclude, list[0]) ==> TakesPrefix(list, exclude, removed, failed, cut + 1)
    ensures !Spared(exclude, list[0]) ==> TakesPrefix(list, exclude, removed, [list[0]] + failed, cut + 1)
    ensures !Spared(exclude, list[0]) ==> TakesPrefix(list, exclude, [list[0]] + removed, failed, cut + 1)
  {
    hide Spared;
    assert list[..cut + 1] == [list[0]] + list[1..][..cut];
    assert list[..cut + 1][1..] == list[1..][..cut];
    HeadIsNotLater(list, cut);
    SameFilter(x => x !in failed && !Spared(exclude, x), x => x !in [list[0]] + failed && !Spared(exclude, x), list[1..][..cut]);
  }

  /** The victims are the front of the least-recently-used order, in that order,
      without the spared path and those whose removal failed; every entry looked
      at is accounted for. */
  lemma {:induction false} SweepTakesLruPrefix(list: seq<CachedFileRef>, exclude: Path, goal: nat, level: nat, v: Volume, reread: bool)
    requires DistinctRefs(list)
    ensures var r := Sweep(list, exclude, goal, level, v, reread);
            TakesPrefix(list, exclude, r.removed, r.failed, r.cut)
    decreases |list|
  {
    hide Sweep, TakesPrefix, Remove, NextLevel;
    SweepCases(list, exclude, goal, level, v, reread);
    if list == [] || level >= goal {
      NothingTaken(list, exclude);
    } else {
      TailIsDistinct(list);
      var (v1, error) := Remove(v, list[0].path);
      var (v2, level2) := NextLevel(v1, level, list[0].size, reread);
      if Spared(exclude, list[0]) {
        SweepTakesLruPrefix(list[1..], exclude, goal, level, v, reread);
        var rest := Sweep(list[1..], exclude, goal, level, v, reread);
        PrefixGrows(list, exclude, rest.removed, rest.failed, rest.cut);
      } else if error != [] {
        SweepTakesLruPrefix(list[1..], exclude, goal, level, v1, reread);
        var rest := Sweep(list[1..], exclude, goal, level, v1, reread);
        PrefixGrows(list, exclude, rest.removed, rest.failed, rest.cut);
      } else {
        SweepTakesLruPrefix(list[1..], exclude, goal, level2, v2, reread);
        var rest := Sweep(list[1..], exclude, goal, level2, v2, reread);
        PrefixGrows(list, exclude, rest.removed, rest.failed, rest.cut);
      }
    }
  }

  /** One turn of the loop, branch by branch. */
  lemma SweepCases(list: seq<CachedFileRef>, exclude: Path, goal: nat, level: nat, v: Volume, reread: bool)
    ensures var r := Sweep(list, exclude, goal, level, v, reread);
            if list == [] || level >= goal then r == Swept([], [], 0, level, v)
            else
              var (v1, error) := Remove(v, list[0].path);
              var (v2, level2) := NextLevel(v1, level, list[0].size, reread);
              if Spared(exclude, list[0]) then
                var rest := Sweep(list[1..], exclude, goal, level, v, reread);
                r == rest.(cut := rest.cut + 1)
              else if error != [] then
                var rest := Sweep(list[1..], exclude, goal, level, v1, reread);
                r == rest.(failed := [list[0]] + rest.failed, cut := rest.cut + 1)
              else
                var rest := Sweep(list[1..], exclude, goal, level2, v2, reread);
                r == rest.(removed := [list[0]] + rest.removed, cut := rest.cut + 1)
  {
    hide Remove, NextLevel;
  }

  lemma TailIsDistinct(list: seq<CachedFileRef>)
    requires list != [] && DistinctRefs(list)
    ensures DistinctRefs(list[1..])
  {
    assert forall i :: 0 <= i < |list| - 1 ==> list[1..][i] == list[i + 1];
  }

  lemma NothingTaken(list: seq<CachedFileRef>, exclude: Path)
    ensures TakesPrefix(list, exclude, [], [], 0)
  {
  }

  /** Every victim was looked at only while the goal was still out of reach. */
  lemma {:induction false} SweepStopsWhenMet(list: seq<CachedFileRef>, exclude: Path, goal: nat, level: nat, v: Volume, reread: bool, k: nat)
    requires k < Sweep(list, exclude, goal, level, v, reread).cut
    ensures Sweep(list[..k], exclude, goal, level, v, reread).level < goal
    ensures Sweep(list[..k], exclude, goal, level, v, reread).cut == k
    decreases |list|
  {
    hide Remove, NextLevel;
    if k > 0 {
      var (v1, error) := Remove(v, list[0].path);
      var (v2, level2) := NextLevel(v1, level, list[0].size, reread);
      assert list[..k][1..] == list[1..][..k - 1];
      if Spared(exclude, list[0]) {
        SweepStopsWhenMet(list[1..], exclude, goal, level, v, reread, k - 1);
      } else if error != [] {
        SweepStopsWhenMet(list[1..], exclude, goal, level, v1, reread, k - 1);
      } else {
        SweepStopsWhenMet(list[1..], exclude, goal, level2, v2, reread, k - 1);
      }
    }
  }

  /** When a sweep runs to the end of the list, every candidate was removed or
      failed. */
  lemma ExhaustedMeansTried(list: seq<CachedFileRef>, exclude: Path, goal: nat, level: nat, v: Volume, reread: bool, x: CachedFileRef)
    requires DistinctRefs(list) && x in list && !Spared(exclude, x)
    requires Sweep(list, exclude, goal, level, v, reread).cut == |list|
    ensures x in Sweep(list, exclude, goal, level, v, reread).removed || x in Sweep(list, exclude, goal, level, v, reread).failed
  {
    hide Sweep;
    var r := Sweep(list, exclude, goal, level, v, reread);
    var keep := (y: CachedFileRef) => y !in r.failed && !Spared(exclude, y);
    SweepTakesLruPrefix(list, exclude, goal, level, v, reread);
    assert list[..r.cut] == list;
    SameFilter(y => y !in r.failed && !Spared(exclude, y), keep, list);
    FilterMembers(keep, list);
  }

  lemma HeadIsNotLater(list: seq<CachedFileRef>, n: nat)
    requires list != [] && DistinctRefs(list) && n <= |list| - 1
    ensures list[0] !in list[1..][..n]
  {
    assert forall i :: 0 <= i < n ==> list[1..][..n][i] == list[i + 1];
  }

  lemma {:induction false} SameFilter(f: CachedFileRef -> bool, g: CachedFileRef -> bool, list: seq<CachedFileRef>)
    requires forall x :: x in list ==> f(x) == g(x)
    ensures Filter(f, list) == Filter(g, list)
  {
    if list != [] {
      SameFilter(f, g, list[1..]);
    }
  }

  /** Counting by recorded sizes, the level rises by exactly the sizes removed,
      and no victim is taken once the goal is met: without the last one the sweep
      would have fallen short. */
  lemma {:induction false} SweepFreesJustEnough(list: seq<CachedFileRef>, exclude: Path, goal: nat, level: nat, v: Volume)
    ensures var r := Sweep(list, exclude, goal, level, v, false);
            && r.level == level + TotalSize(r.removed)
            && (r.removed != [] ==> level + TotalSize(r.removed[..|r.removed| - 1]) < goal)
    decreases |list|
  {
    hide Remove;
    if list != [] && level < goal {
      var (v1, error) := Remove(v, list[0].path);
      if Spared(exclude, list[0]) {
        SweepFreesJustEnough(list[1..], exclude, goal, level, v);
      } else if error != [] {
        SweepFreesJustEnough(list[1..], exclude, goal, level, v1);
      } else {
        SweepFreesJustEnough(list[1..], exclude, goal, level + list[0].size, v1);
        TotalOfPrepend(list[0], Sweep(list[1..], exclude, goal, level + list[0].size, v1, false).removed);
      }
    }
  }

  lemma TotalOfPrepend(x: CachedFileRef, rest: seq<CachedFileRef>)
    ensures TotalSize([x] + rest) == x.size + TotalSize(rest)
    ensures var all := [x] + rest;
            TotalSize(all[..|all| - 1]) == if rest == [] then 0 else x.size + TotalSize(rest[..|rest| - 1])
  {
    var all := [x] + rest;
    assert all[1..] == rest;
    if rest != [] {
      var front := all[..|all| - 1];
      assert front[1..] == rest[..|rest| - 1];
    }
  }

  /** Nothing else uses the volume, and its bookkeeping is accurate. */
  ghost predicate Alone(v: Volume) {
    Accurate(v) && v.used <= v.world.capacity && forall k :: v.world.others(k) == 0
  }

  /** The recorded sizes are the sizes on disk. */
  ghost predicate RefsOnDisk(list: seq<CachedFileRef>, v: Volume) {
    forall i :: 0 <= i < |list| ==> list[i].path in v.files && v.files[list[i].path] == list[i].size
  }

  /** On a volume nobody else uses, with index sizes that agree with the disk,
      re-reading free space and adding recorded sizes are the same thing, query
      by query: both sweeps take the same victims and end at the same level. */
  lemma {:induction false} EstimateEqualsReread(list: seq<CachedFileRef>, exclude: Path, goal: nat, level: nat, v: Volume, w: Volume)
    requires DistinctRefs(list) && RefsOnDisk(list, v) && Alone(v) && level == v.world.capacity - v.used
    requires w == v.(queries := w.queries)
    ensures var a, b := Sweep(list, exclude, goal, level, v, true), Sweep(list, exclude, goal, level, w, false);
            && a.removed == b.removed && a.failed == b.failed && a.cut == b.cut && a.level == b.level
            && a.volume.world == v.world && a.level == v.world.capacity - a.volume.used
    decreases |list|
  {
    if list != [] && level < goal {
      assert RefsOnDisk(list[1..], v) && DistinctRefs(list[1..]) by {
        assert forall i :: 0 <= i < |list[1..]| ==> list[1..][i] == list[i + 1];
      }
      var p := list[0].path;
      if Spared(exclude, list[0]) {
        EstimateEqualsReread(list[1..], exclude, goal, level, v, w);
      } else {
        var (v1, error) := Remove(v, p);
        var (w1, same) := Remove(w, p);
        RemoveStaysAccurate(v, p);
        if error != [] {
          assert RefsOnDisk(list[1..], v1);
          EstimateEqualsReread(list[1..], exclude, goal, level, v1, w1);
        } else {
          var (v2, level2) := NextLevel(v1, level, list[0].size, true);
          assert level2 == level + list[0].size;
          OthersStayOnDisk(list, v, v1);
          EstimateEqualsReread(list[1..], exclude, goal, level2, v2, w1);
        }
      }
    }
  }

  lemma OthersStayOnDisk(list: seq<CachedFileRef>, v: Volume, v1: Volume)
    requires list != [] && DistinctRefs(list) && RefsOnDisk(list, v) && v1.files == v.files - {list[0].path}
    ensures RefsOnDisk(list[1..], v1)
  {
    assert forall i :: 0 <= i < |list[1..]| ==> list[1..][i] == list[i + 1];
  }

  lemma OtherStaysCached(db: Db<int>, p: Path, q: Path)
    requires q in CachedSet(db.files) && p != q
    ensures q in CachedSet(MarkRemoved(db, p).files)
    ensures q in db.files && q in MarkRemoved(db, p).files
    ensures MarkRemoved(db, p).files[q].cachedSize == db.files[q].cachedSize
  {
  }

  /** Removing listed files lowers the cached total by the sizes removed. */
  lemma {:induction false} RemovalsLowerTotal(db: Db<int>, refs: seq<CachedFileRef>)
    requires DistinctRefs(refs)
    requires forall i :: 0 <= i < |refs| ==>
               refs[i].path in CachedSet(db.files) && refs[i].size == db.files[refs[i].path].cachedSize
    ensures CachedBytes(MarkAllRemoved(db, refs).files) + TotalSize(refs) == CachedBytes(db.files)
    ensures CachedSet(MarkAllRemoved(db, refs).files) == CachedSet(db.files) - RefPaths(refs)
    decreases |refs|
  {
    hide MarkRemoved, CachedBytes, CachedSet;
    if refs != [] {
      RemovalLowersTotal(db, refs[0].path);
      var next := MarkRemoved(db, refs[0].path);
      forall i | 0 <= i < |refs[1..]|
        ensures refs[1..][i].path in CachedSet(next.files) && refs[1..][i].path in next.files
             && refs[1..][i].size == next.files[refs[1..][i].path].cachedSize
      {
        assert refs[1..][i] == refs[i + 1];
        OtherStaysCached(db, refs[0].path, refs[i + 1].path);
      }
      RemovalsLowerTotal(next, refs[1..]);
      assert refs == [refs[0]] + refs[1..];
      assert RefPaths(refs) == {refs[0].path} + RefPaths(refs[1..]);
    }
  }

  /** Marking files removed deletes their pending rows and no others. */
  lemma {:induction false} RemovalsDropRows(db: Db<int>, refs: seq<CachedFileRef>)
    ensures MarkAllRemoved(db, refs).pending == db.pending - RefPaths(refs)
    decreases |refs|
  {
    if refs != [] {
      RemovalsDropRows(MarkRemoved(db, refs[0].path), refs[1..]);
      assert refs == [refs[0]] + refs[1..];
      assert RefPaths(refs) == {refs[0].path} + RefPaths(refs[1..]);
    }
  }

  lemma {:induction false} FilterMembers(keep: CachedFileRef -> bool, list: seq<CachedFileRef>)
    ensures forall x :: x in Filter(keep, list) <==> x in list && keep(x)
  {
    if list != [] {
      FilterMembers(keep, list[1..]);
      assert list == [list[0]] + list[1..];
    }
  }

  lemma {:induction false} FilterKeepsDistinct(keep: CachedFileRef -> bool, list: seq<CachedFileRef>)
    requires DistinctRefs(list)
    ensures DistinctRefs(Filter(keep, list))
  {
    if list != [] {
      assert DistinctRefs(list[1..]);
      FilterKeepsDistinct(keep, list[1..]);
      FilterMembers(keep, list[1..]);
      var rest := Filter(keep, list[1..]);
      forall i | 0 <= i < |rest|
        ensures rest[i].path != list[0].path
      {
        assert rest[i] in list[1..];
        var j :| 0 <= j < |list[1..]| && list[1..][j] == rest[i];
        assert list[j + 1] == rest[i];
      }
    }
  }

  lemma VictimsAreDistinct(files: map<Path, FileRow<int>>, list: seq<CachedFileRef>)
    requires IsVictimList(files, list)
    ensures DistinctRefs(list)
  {
    forall i, j | 0 <= i < j < |list|
      ensures list[i].path != list[j].path
    {
      SeenBeforeIsStrict(files, list[i].path, list[j].path, list[i].path);
    }
  }

  /** Eviction accounting over a victim list: what is removed leaves the cached
      total exactly that much smaller. */
  lemma SweptBytesLeaveTheIndex(db: Db<int>, list: seq<CachedFileRef>, exclude: Path, goal: nat, level: nat, v: Volume, reread: bool)
    requires IsVictimList(db.files, list)
    ensures var removed := Sweep(list, exclude, goal, level, v, reread).removed;
            && CachedBytes(MarkAllRemoved(db, removed).files) + TotalSize(removed) == CachedBytes(db.files)
            && CachedSet(MarkAllRemoved(db, removed).files) == CachedSet(db.files) - RefPaths(removed)
            && exclude !in RefPaths(removed) - {[]}
  {
    var r := Sweep(list, exclude, goal, level, v, reread);
    var keep := (x: CachedFileRef) => x !in r.failed && !Spared(exclude, x);
    VictimsAreDistinct(db.files, list);
    SweepTakesLruPrefix(list, exclude, goal, level, v, reread);
    SameFilter(x => x !in r.failed && !Spared(exclude, x), keep, list[..r.cut]);
    FilterMembers(keep, list[..r.cut]);
    FilterKeepsDistinct(keep, list[..r.cut]);
    assert r.removed == Filter(keep, list[..r.cut]);
    forall i | 0 <= i < |r.removed|
      ensures r.removed[i].path in CachedSet(db.files)
           && r.removed[i].size == db.files[r.removed[i].path].cachedSize
    {
      assert r.removed[i] in list[..r.cut];
      var j :| 0 <= j < |list| && list[j] == r.removed[i];
    }
    RemovalsLowerTotal(db, r.removed);
  }

  // ---------- the volume as an object, and the command-line eviction ----------

  class CacheVolume {
    var v: Volume

    constructor (world: World)
      ensures v == Volume(map[], 0, 0, 0, 0, world)
    {
      v := Volume(map[], 0, 0, 0, 0, world);
    }

    method RemoveCachedFile(p: Path) returns (error: string)
      modifies this
      ensures (v, error) == Remove(old(v), p)
    {
      var (next, e) := Remove(v, p);
      v := next;
      error := e;
    }

    method FreeBytes() returns (free: Option<nat>)
      modifies this
      ensures (v, free) == Query(old(v))
    {
      var (next, f) := Query(v);
      v := next;
      free := f;
    }

    method CopyAndHash(p: Path, stop: bool) returns (answer: EngineAnswer)
      modifies this
      ensures (v, answer) == Copy(old(v), p, stop)
    {
      var (next, a) := Copy(v, p, stop);
      v := next;
      answer := a;
    }
  }

  /** evict_least_recently_used. An empty `exclude` spares nothing. */
  method EvictLeastRecentlyUsed(index: CacheIndex, volume: CacheVolume, target: nat, exclude: Path)
    returns (bytesFreed: nat, filesRemoved: nat, ghost list: seq<CachedFileRef>)
    requires index.Valid()
    modifies index, volume
    ensures index.Valid()
    ensures target > 0 ==> IsVictimList(old(index.db).files, list)
    ensures var r := Sweep(list, exclude, target, 0, old(volume.v), false);
            && volume.v == r.volume
            && bytesFreed == TotalSize(r.removed) && filesRemoved == |r.removed|
            && index.db == MarkAllRemoved(old(index.db), r.removed)
            && (target > 0 ==> CachedBytes(index.db.files) + bytesFreed == CachedBytes(old(index.db).files))
            && (target > 0 ==> bytesFreed >= target || r.cut == |list|)
            && (r.removed != [] ==> TotalSize(r.removed[..|r.removed| - 1]) < target)
  {
    hide *;
    bytesFreed, filesRemoved := 0, 0;
    list := [];
    ghost var db0 := index.db;
    if target == 0 {
      NothingToFree(exclude, volume.v, db0);
      return;
    }
    var victims := index.CachedFilesByLastAccess();
    list := victims;
    ghost var v0 := volume.v;
    SweepReachesGoalOrEnd(list, exclude, target, 0, v0, false);
    SweepFreesJustEnough(list, exclude, target, 0, v0);
    SweptBytesLeaveTheIndex(db0, list, exclude, target, 0, v0, false);
    var i := 0;
    assert victims[0..] == victims;
    StillToSweepAtStart(list, exclude, target, v0, db0);
    while i < |victims| && bytesFreed < target
      invariant 0 <= i <= |victims| && index.Valid()
      invariant StillToSweep(Sweep(list, exclude, target, 0, v0, false), MarkAllRemoved(db0, Sweep(list, exclude, target, 0, v0, false).removed),
                             Sweep(victims[i..], exclude, target, bytesFreed, volume.v, false), index.db, bytesFreed, filesRemoved)
    {
      var victim := victims[i];
      assert victims[i..][1..] == victims[i + 1..];
      SweepUnfolds(victims[i..], exclude, target, bytesFreed, volume.v);
      i := i + 1;
      if exclude != [] && victim.path == exclude {
        assert Spared(exclude, victim) by { SparedMeans(exclude, victim); }
        StillToSweepSkip(Sweep(list, exclude, target, 0, v0, false), MarkAllRemoved(db0, Sweep(list, exclude, target, 0, v0, false).removed),
                         Sweep(victims[i - 1..], exclude, target, bytesFreed, volume.v, false),
                         Sweep(victims[i..], exclude, target, bytesFreed, volume.v, false), index.db, bytesFreed, filesRemoved);
        continue;
      }
      assert !Spared(exclude, victim) by { SparedMeans(exclude, victim); }
      ghost var before := volume.v;
      var error := volume.RemoveCachedFile(victim.path);
      if error != [] {
        StillToSweepSkip(Sweep(list, exclude, target, 0, v0, false), MarkAllRemoved(db0, Sweep(list, exclude, target, 0, v0, false).removed),
                         Sweep(victims[i - 1..], exclude, target, bytesFreed, before, false),
                         Sweep(victims[i..], exclude, target, bytesFreed, volume.v, false), index.db, bytesFreed, filesRemoved);
        continue;
      }
      StillToSweepTake(Sweep(list, exclude, target, 0, v0, false), MarkAllRemoved(db0, Sweep(list, exclude, target, 0, v0, false).removed),
                       Sweep(victims[i - 1..], exclude, target, bytesFreed, before, false), victim,
                       Sweep(victims[i..], exclude, target, bytesFreed + victim.size, volume.v, false), index.db, bytesFreed, filesRemoved);
      index.MarkRemoved(victim.path);
      bytesFreed := bytesFreed + victim.size;
      filesRemoved := filesRemoved + 1;
    }
    SweepEnds(victims[i..], exclude, target, bytesFreed, volume.v);
    StillToSweepEnd(Sweep(list, exclude, target, 0, v0, false), MarkAllRemoved(db0, Sweep(list, exclude, target, 0, v0, false).removed),
                    Sweep(victims[i..], exclude, target, bytesFreed, volume.v, false), index.db, bytesFreed, filesRemoved);
  }

  // Steps of the loop above.

  /** `rest` is what the whole sweep `all` still has to do. */
  ghost predicate StillToSweep(all: Swept, finalDb: Db<int>, rest: Swept, db: Db<int>, freed: nat, count: nat) {
    && rest.volume == all.volume
    && freed + TotalSize(rest.removed) == TotalSize(all.removed)
    && count + |rest.removed| == |all.removed|
    && MarkAllRemoved(db, rest.removed) == finalDb
  }

  lemma StillToSweepAtStart(list: seq<CachedFileRef>, exclude: Path, goal: nat, v: Volume, db: Db<int>)
    ensures var all := Sweep(list, exclude, goal, 0, v, false);
            StillToSweep(all, MarkAllRemoved(db, all.removed), all, db, 0, 0)
  {
  }

  lemma StillToSweepSkip(all: Swept, finalDb: Db<int>, rest: Swept, next: Swept, db: Db<int>, freed: nat, count: nat)
    requires StillToSweep(all, finalDb, rest, db, freed, count)
    requires next.volume == rest.volume && next.removed == rest.removed
    ensures StillToSweep(all, finalDb, next, db, freed, count)
  {
  }

  lemma StillToSweepTake(all: Swept, finalDb: Db<int>, rest: Swept, x: CachedFileRef, next: Swept, db: Db<int>, freed: nat, count: nat)
    requires StillToSweep(all, finalDb, rest, db, freed, count)
    requires next.volume == rest.volume && rest.removed == [x] + next.removed
    ensures StillToSweep(all, finalDb, next, MarkRemoved(db, x.path), freed + x.size, count + 1)
  {
    hide MarkRemoved;
    assert rest.removed[1..] == next.removed;
  }

  lemma StillToSweepEnd(all: Swept, finalDb: Db<int>, rest: Swept, db: Db<int>, freed: nat, count: nat)
    requires StillToSweep(all, finalDb, rest, db, freed, count) && rest.removed == []
    ensures rest.volume == all.volume && freed == TotalSize(all.removed) && count == |all.removed| && db == finalDb
  {
  }

  lemma SweepEnds(list: seq<CachedFileRef>, exclude: Path, goal: nat, level: nat, v: Volume)
    requires list == [] || level >= goal
    ensures Sweep(list, exclude, goal, level, v, false) == Swept([], [], 0, level, v)
  {
  }

  lemma SweepUnfolds(list: seq<CachedFileRef>, exclude: Path, goal: nat, level: nat, v: Volume)
    requires list != [] && level < goal
    ensures var r := Sweep(list, exclude, goal, level, v, false);
            var (v1, error) := Remove(v, list[0].path);
            if Spared(exclude, list[0]) then
              var next := Sweep(list[1..], exclude, goal, level, v, false);
              next.volume == r.volume && next.removed == r.removed
            else if error != [] then
              var next := Sweep(list[1..], exclude, goal, level, v1, false);
              next.volume == r.volume && next.removed == r.removed
            else
              var next := Sweep(list[1..], exclude, goal, level + list[0].size, v1, false);
              next.volume == r.volume && r.removed == [list[0]] + next.removed
  {
    hide Remove;
  }

  lemma SparedMeans(exclude: Path, x: CachedFileRef)
    ensures Spared(exclude, x) <==> exclude != [] && x.path == exclude
  {
  }

  lemma NothingToFree(exclude: Path, v: Volume, db: Db<int>)
    ensures Sweep([], exclude, 0, 0, v, false) == Swept([], [], 0, 0, v)
    ensures TotalSize([]) == 0 && MarkAllRemoved(db, []) == db
  {
  }
}
