# SSD cache: a model of the copy scheduler and what it stands on

The program watches accesses to a network share, remembers them in a SQLite
index, and copies each file to a local cache disk once it has been quiet for a
while. This project models the logic behind that in Dafny and proves what the
parts promise each other:

- `UtcTime`, `TextOrder`: timestamps as text, over an explicit civil calendar.
- `IndexModel`, `CacheIndexStore`: the two tables of the index, as values with one
  function per statement and as a class holding the stored text rows.
- `Protocol`: the scheduler as a state machine. The recorder thread and the worker
  thread take one index call, heap operation, flag read, disk change or engine call
  at a time, so a run is any interleaving of the two.
- `HeapCoverage`, `EventLedger`, `DiskAgreement`, `Debounce`, `Backoff`, `PauseBound`:
  theorems about every run of that machine, each with an observer that reads the
  run and never influences it.
- `FailingRuns`, `EngineInProtocol`: runs from a fresh process that reach what those
  theorems exclude, and the engine's outcomes as protocol steps.
- `CopyScheduler`: `PendingCopyScheduler` as a class. Its methods keep a ghost
  trace of the protocol steps they take, so every state of the object is a state of
  a run.
- `Eviction`: the cache volume and both least-recently-used loops.
- `CopyEngine`: the chunked, hashing copy over a file system with exclusive handles.
- `Text`, `ConfigText`, `ConfigFile`, `PathMapper`, `Wildcard`: letter case, the
  configuration file, path identities and the ignore patterns.
- `DriverContexts`: the driver's reference-counted write tracking on one handle.

Times are integers of 100-nanosecond ticks, due times whole seconds; a path is a
sequence of characters and the index key.

## Hypotheses

- One event-recording thread and one process use the index; every `CacheIndex`
  method is atomic (its own mutex).
- At the first start no pending row has an empty path (`Protocol.Initial`); the
  startup cleanup deletes such rows.
- The clock does not step back between the heap check and the start of the pass
  (src/core/job_scheduler.cpp:396 and :432).
- Stored instants lie in the years 1970 to 9999 (`UtcTime.Representable`), and
  conversions follow the POSIX branch of src/core/time.cpp:23-46.
- Where a theorem needs it, `due_batch_size` is positive. Heap coverage excludes three
  steps (`HeapCoverage.Benign`): the engine throwing, a due query that leaves out the
  popped path, and `start()` called while a stop is under way. None happens when the
  engine returns, no pass finds more than `due_batch_size` due rows and no stop is
  taken back (`HeapCoverage.CalmRunsStayCovered`); what each costs is proved too.
- The file system does not report an existing file as missing.
- The engine's report and the free-space readings are arbitrary; `CopyEngine` proves
  that its reports are among those the protocol allows.

## Where the code does less than its comments say

- A due query with at least `due_batch_size` rivals may leave out the popped path,
  and then "the authoritative entry" of src/core/job_scheduler.cpp:420-423 is no
  longer in the heap (`HeapCoverage.PassIsSafeIff`, `FailingRuns.TieStrandsARow`).
- An exception of the engine loses the popped entry
  (`EngineInProtocol.EngineKeepsWakeUpIff`, `FailingRuns.HashingFailureStrandsARow`).
- An access that lands between the start of a copy and src/core/job_scheduler.cpp:337
  loses its row (`EventLedger.DropForgetsExactlyTheLate`,
  `FailingRuns.AccessDuringCopyIsForgotten`).
- Making room deletes the victim's pending row too, so a copy already scheduled for an
  evicted file is cancelled without a retry or an entry in the index
  (`CopyScheduler.EvictionCancelsExactly`, `FailingRuns.EvictionCancelsACopy`).
- "idempotent" (src/core/include/ssd_cache/job_scheduler.h:75) leaves out that `start()`
  takes back a stop under way; a copy cancelled by that stop then keeps its row and
  has no heap entry (`FailingRuns.StartDuringStopStrandsARow`).
- A row deleted and created again during its pass gets the old row's delay
  (`Backoff.RetryDelayIsRightIff`, `FailingRuns.ReplacedRowWaitsTooLong`).
- The recorded cache size is the size inspected before the copy, not the bytes
  written (`CopyEngine.CopiedPublishesTheSource`, `DiskAgreement.IndexMatchesDiskEveryRun`).
- The temporary file stays when a read or write fails, because its handle is still
  open (`CopyEngine.TempIsLeftExactly`).
- Hashing existing files is outside the engine's try block
  (`CopyEngine.ThrowsExactlyWhenHashingFails`).
- The matcher misses some matches for every value that contains a literal star
  (`Wildcard.CompleteExactlyWithoutStars`).
- "Preserving all other settings" (src/app/tray_main.cpp:633) fails for a drive letter
  outside ASCII: the save stops after truncating the file
  (`ConfigFile.ModeSwitchChangesOnlyTheModeIff`, `ModeSwitchForgetsTheLetter`).

## Model

| member | source | states |
|---|---|---|
| UtcTime.GmTime | src/core/time.cpp:33-46 | the broken-down fields are a civil date and time and denote exactly the given second |
| UtcTime.TimeGmInvertsGmTime | src/core/time.cpp:23-29 | converting a second to fields and back gives the same second |
| UtcTime.TimeGmCarries | src/core/time.cpp:23-29 | fields out of range carry over into the next larger one |
| UtcTime.TimeGmMonotone | src/core/time.cpp:23-29 | an earlier civil time is an earlier second |
| UtcTime.TextOrderIsTimeOrder | src/core/time.cpp:48-59 | over 1970 to 9999, one instant's text precedes another's exactly when its whole second is earlier |
| UtcTime.ParseInvertsFormat | src/core/time.cpp:62-100 | parsing a formatted second gives that second back |
| UtcTime.ScanSkips | src/core/time.cpp:62-100 | each conversion skips blanks and takes one sign |
| UtcTime.StoredInstantReadsBack | src/core/time.cpp:33-100 | an instant stored and read back is its whole second |
| UtcTime.OnlySecondBeforeEpochIsRejected | src/core/time.cpp:62-100 | every civil time of the years 0 to 9999 reads back as its second, except the last one before the epoch, the only one whose number is the failure value |
| UtcTime.ToSecondsOfWhole | src/core/job_scheduler.cpp:32-36 | flooring commutes with adding whole seconds to a non-negative instant |
| UtcTime.ToSecondsTruncates | src/core/job_scheduler.cpp:32-36 | whole seconds are cut off toward zero on both sides of the epoch |
| UtcTime.MonthLengths | src/core/time.cpp:23-46 | the months have the lengths of the Gregorian calendar |
| UtcTime.RepresentableIff | src/core/time.cpp:48-59 | the seconds stored are exactly those of civil times in the years 1970 to 9999 |
| UtcTime.TextLayout | src/core/time.cpp:48-59 | twenty characters: year, month and day as decimal digits at fixed places with their marks, then the time of day |
| UtcTime.ClockLayout | src/core/time.cpp:48-59 | hour, minute and second as decimal digits between colons, and the final Z |
| IndexModel.AlwaysSelectedIff | src/core/cache_index.cpp:477-498 | a due row is in every answer of the limited query exactly when fewer than the limit other rows are due no later |
| IndexModel.SelectionWithout | src/core/cache_index.cpp:477-498 | with enough rivals there is an answer that leaves the row out |
| IndexModel.VictimListUnique | src/core/cache_index.cpp:455-475 | the eviction order has exactly one answer |
| IndexModel.SeenBeforeIsStrict | src/core/cache_index.cpp:455-475 | the eviction order is a strict total order of the file rows |
| IndexModel.RemovalLowersTotal | src/core/cache_index.cpp:587-612 | marking a cached file removed lowers the cached total by its recorded size and unlists only it |
| IndexModel.AccessColumns | src/core/cache_index.cpp:323-349 | an access writes exactly the seen time, the size, the requestor and, when it closes a write, that time; a new row is not cached; every other column and path stays |
| IndexModel.AccessSchedules | src/core/access_event.cpp:53-55 | reading and closing after writes set the pending row due, with reason, requestor and retries so far; the other three kinds leave all pending rows alone |
| IndexModel.CachedColumns | src/core/cache_index.cpp:545-555 | exactly the sizes, the time, the hash, the presence and the cleared error of an existing row change; without a row nothing does |
| IndexModel.ErrorColumns | src/core/cache_index.cpp:570-584 | exactly the error text of the file row and the retry count of the pending row change |
| IndexModel.RemovedColumns | src/core/cache_index.cpp:593-606 | the pending row goes, presence and error are cleared, sizes, hash and times stay |
| IndexModel.UpsertColumns | src/core/cache_index.cpp:382-403 | due time and reason are set, retries and requestor kept; a new row starts without either; a missing file row is the only failure |
| IndexModel.DeletionsReachOnePath | src/core/cache_index.cpp:500-534 | removing a pending row leaves the file row, deleting a record removes both, and no other path changes |
| CacheIndexStore.CacheIndex.RecordAccess | src/core/cache_index.cpp:311-380 | the text rows after an access are those of the statement on whole seconds; reading and closing after writes leave the row due copy_delay later, other kinds leave every pending row; an empty path changes nothing |
| CacheIndexStore.CacheIndex.UpsertPendingJob | src/core/cache_index.cpp:382-403 | writes the row, keeping its retry count, or fails and changes nothing when the file row is missing |
| CacheIndexStore.CacheIndex.PendingJob | src/core/cache_index.cpp:405-421 | the stored row comes back with exactly the due second written |
| CacheIndexStore.CacheIndex.LoadPendingJobs | src/core/cache_index.cpp:423-438 | every pending row, once, earliest first |
| CacheIndexStore.CacheIndex.DueJobs | src/core/cache_index.cpp:477-498 | comparing text selects the earliest rows due by whole seconds, all of them when fewer than the limit |
| CacheIndexStore.CacheIndex.CachedFilesByLastAccess | src/core/cache_index.cpp:455-475 | the list sorted by text is the eviction order by last-seen second, then path |
| CacheIndexStore.CacheIndex.MarkCached | src/core/cache_index.cpp:536-563 | sets the cached state of an existing row and nothing else |
| CacheIndexStore.CacheIndex.RecordError | src/core/cache_index.cpp:565-585 | notes the error and counts one more retry of a pending row |
| CacheIndexStore.CacheIndex.MarkRemoved | src/core/cache_index.cpp:587-612 | the file is no longer present and its pending row is gone |
| CacheIndexStore.CacheIndex.RemovePendingJob | src/core/cache_index.cpp:500-508 | only the pending row goes |
| CacheIndexStore.CacheIndex.DeleteRecord | src/core/cache_index.cpp:510-534 | both rows of the path go |
| CacheIndexStore.CacheIndex.FileRecord | src/core/cache_index.cpp:614-655 | the stored row comes back, its text times parsed to the seconds written, or nothing without a row |
| Protocol.WellFormedRun | src/core/job_scheduler.cpp:148-438 | in every run each pending row has a file row, batch jobs are distinct, due and on file rows, and heap entries are told apart by sequence |
| Protocol.RetryNeverBreaksForeignKey | src/core/job_scheduler.cpp:298-322 | in every run the retry upsert of the current job succeeds |
| Protocol.PassRemovesRow | src/core/job_scheduler.cpp:217-338 | a pass takes a row out of pending_jobs exactly as a victim's, or as its own job's after a copy or with the source gone |
| Protocol.PoppedIsFirst | src/core/job_scheduler.cpp:75-84 | the entry popped is due first, and of those due in the same second it was pushed first |
| HeapCoverage.HeapCoversEveryRun | src/core/job_scheduler.cpp:347-438 | in every interleaving each pending row has a heap entry with its path and exact due second, or one of the threads is holding it; stopping and starting restores this |
| HeapCoverage.CalmRunsStayCovered | src/core/job_scheduler.cpp:347-438 | the same whenever the engine returns, no pass finds more due rows than due_batch_size and start() is not called during a stop |
| HeapCoverage.QuietCoverage | src/core/job_scheduler.cpp:347-438 | between jobs every pending row has its own heap entry |
| HeapCoverage.PassIsSafeIff | src/core/job_scheduler.cpp:402-432 | a popped row keeps a wake-up through the pass, whatever the query answers, exactly when it has fewer than due_batch_size rivals |
| EngineInProtocol.EngineKeepsWakeUpIff | src/core/job_scheduler.cpp:262-267 | on a disk with true sizes and without a stop, the step the engine's outcome induces is a protocol step and keeps the wake-up of a popped row nothing else covers exactly when no hash comparison meets a file it cannot hash |
| FailingRuns.HashingFailureStrandsARow | src/core/job_scheduler.cpp:431-436 | for all settings and every such meeting, a run from the start reaches the call, it throws, and the row stays pending with an empty heap |
| FailingRuns.TieStrandsARow | src/core/job_scheduler.cpp:402-432 | for all settings, with one row more than due_batch_size due in one second, a run from the start pops a row, selects and copies all the others and leaves that one pending with an empty heap |
| FailingRuns.StartDuringStopStrandsARow | src/core/job_scheduler.cpp:111-119 | for all settings, a run from the start in which start() clears a stop the engine has answered ends with the row pending and an empty heap |
| FailingRuns.StrandedForGood | src/core/job_scheduler.cpp:377-438 | such a row is uncovered and no run without a new event or a restart touches the tables |
| HeapCoverage.StrandedRowStays | src/core/job_scheduler.cpp:377-438 | with an empty heap no run without a new event or a restart touches any row |
| EventLedger.NoEventIsForgotten | src/core/job_scheduler.cpp:148-345 | in every state of every run, a scheduling event that did not land during a copy of its path is pending, answered by a later non-failed copy, or cancelled by a later removal |
| EventLedger.DropForgetsExactlyTheLate | src/core/job_scheduler.cpp:330-338 | deleting the row after a copy leaves an event answered exactly when it came before the copy began or a removal followed it |
| FailingRuns.AccessDuringCopyIsForgotten | src/core/job_scheduler.cpp:330-338 | for all settings, a run from the start ends with an accepted access unanswered |
| DiskAgreement.IndexMatchesDiskEveryRun | src/core/job_scheduler.cpp:217-337 | in every run a file listed as cached is on disk, with the recorded size exactly when its latest copy read the inspected length; one path in flight excepted |
| DiskAgreement.SizesAgreeForStableSources | src/core/job_scheduler.cpp:217-337 | with sources that keep their length, listed sizes are the sizes on disk |
| FailingRuns.DeletedFileStaysOnDisk | src/core/job_scheduler.cpp:160-165 | from any start with a listed file, a run of one delete leaves it on disk unlisted, so the converse fails |
| Debounce.CopyWaitsForQuiet | src/core/job_scheduler.cpp:167-174 | in every run a copy starts only when the whole second of latest access plus copy_delay has come, unless a retry rescheduled the path or the access landed inside the pass |
| Debounce.BurstCausesOneCopy | src/core/job_scheduler.cpp:167-174 | accesses each before the previous quiet period ends cause at most one copy, and that after the last of them, whatever passes run meanwhile |
| Debounce.CopiesNeedAccesses | src/core/job_scheduler.cpp:246-345 | in every run completed copies of a path never exceed its scheduling events, plus one for a row left by an earlier process |
| Backoff.RetryAfterFailure | src/core/job_scheduler.cpp:312-322 | the i-th failed attempt of a row stores retries i and is due min(300, 30 i) seconds after the pass, whatever accesses came between |
| Backoff.RetryDelayIsRightIff | src/core/job_scheduler.cpp:291-322 | in every run, replaced rows included, the retried row stores its failures since creation, and its delay is the one for that count exactly when the count read by the query is one less or both are at the cap |
| FailingRuns.ReplacedRowWaitsTooLong | src/core/job_scheduler.cpp:291-322 | for all settings, a run from the start gives a row with one failure a delay of 180 seconds |
| PauseBound.PauseIsBounded | src/core/job_scheduler.cpp:136-158 | from a pause to the resume at most due_batch_size copies start and at most one event, already past its check, reaches the index |
| CopyScheduler.PendingCopyScheduler.constructor | src/core/job_scheduler.cpp:86-99 | an empty heap over the given tables is the start of a run |
| CopyScheduler.PendingCopyScheduler.SetPaused | src/core/job_scheduler.cpp:136-146 | changes the pause flag alone |
| CopyScheduler.PendingCopyScheduler.RequestStop | src/core/job_scheduler.cpp:127-129 | sets the stop flag alone |
| CopyScheduler.PendingCopyScheduler.RecordEvent | src/core/job_scheduler.cpp:148-180 | an empty path or a pause changes nothing; a delete removes; reading and closing after writes leave the row due copy_delay later with a heap entry for exactly that second; the other kinds leave pending rows and heap as they were |
| CopyScheduler.PendingCopyScheduler.Enqueue | src/core/job_scheduler.cpp:347-361 | adds one entry at the floored due second with the next sequence number |
| CopyScheduler.PendingCopyScheduler.Start | src/core/job_scheduler.cpp:111-125 | with a joinable worker clears the stop flag alone; otherwise also keeps the tables, leaves a heap entry for every pending row and so establishes coverage |
| CopyScheduler.PendingCopyScheduler.MakeRoomFor | src/core/job_scheduler.cpp:182-244 | sweeps the eviction list, sparing the target, until the measured space suffices; no file row is lost and pending rows only disappear |
| CopyScheduler.PendingCopyScheduler.EvictVictim | src/core/job_scheduler.cpp:217-226 | the file goes first and the index is told only if that worked |
| CopyScheduler.MadeRoomMeans | src/core/job_scheduler.cpp:182-244 | victims are the front of the LRU order without target and failures, each tried only while space was short; the index loses exactly their bytes; at the end there is room or every other file was tried |
| CopyScheduler.EvictionCancelsExactly | src/core/job_scheduler.cpp:212-226 | when room is short, making it for one path deletes another path's pending row exactly when that path is among the listed files looked at and its file could be removed; every other row is as it was |
| FailingRuns.EvictionCancelsACopy | src/core/job_scheduler.cpp:212-226 | for all settings, a run from the start in which making room for one file ends with the scheduled copy of another neither pending nor done, though nothing was deleted by a user |
| CopyScheduler.MadeRoomExactly | src/core/job_scheduler.cpp:230-236 | on a volume used by nobody else, with true sizes, measuring and estimating agree, space grows by the recorded sizes and no victim was superfluous |
| CopyScheduler.PendingCopyScheduler.Attempt | src/core/job_scheduler.cpp:252-341 | one job ends cached, settled later than now, aborted by the stop flag or in an exception; only its own row may change, others disappear through eviction alone, new heap entries are due later, coverage is kept |
| CopyScheduler.PendingCopyScheduler.CallEngine | src/core/job_scheduler.cpp:262-274 | one engine call: its report sends the worker on, its exception leaves it at the call |
| CopyScheduler.PendingCopyScheduler.Settle | src/core/job_scheduler.cpp:276-341 | a report settles the job: cached, cleaned up or retried later |
| CopyScheduler.PendingCopyScheduler.Publish | src/core/job_scheduler.cpp:330-338 | the row is marked cached with the reported sizes and the pending row goes, counting one completion |
| CopyScheduler.PendingCopyScheduler.Retry | src/core/job_scheduler.cpp:313-322 | error noted, row rescheduled strictly later than now, and the matching heap entry pushed |
| CopyScheduler.PendingCopyScheduler.PushRetry | src/core/job_scheduler.cpp:320 | adds exactly the entry of the rescheduled row and goes on to the next job, keeping coverage |
| CopyScheduler.PendingCopyScheduler.CleanUp | src/core/job_scheduler.cpp:276-310 | a missing source removes cache file and listing, or schedules a later clean-up |
| CopyScheduler.PendingCopyScheduler.RunDueOnce | src/core/job_scheduler.cpp:246-345 | settles a due selection; unless stopped or thrown out of, none of it stays due; returns the number of completed copies, or the exception; keeps coverage when the popped path is selected |
| CopyScheduler.PendingCopyScheduler.RunBatch | src/core/job_scheduler.cpp:252-342 | the loop over the jobs, to its end, a cancellation or an exception |
| CopyScheduler.PendingCopyScheduler.WorkerLoop | src/core/job_scheduler.cpp:377-438 | terminates at a fixed time; afterwards no heap entry is due; if coverage held before, the due rows fit a batch and the engine does not throw, coverage still holds and no row is due |
| CopyScheduler.PendingCopyScheduler.TakeEntry | src/core/job_scheduler.cpp:395-437 | one round takes a due entry off the heap and adds none that is due |
| CopyScheduler.PendingCopyScheduler.CheckEntry | src/core/job_scheduler.cpp:414-428 | a popped entry is live exactly when the index has its path at its due second |
| CopyScheduler.PendingCopyScheduler.ServeEntry | src/core/job_scheduler.cpp:430-436 | runs the pass; an exception is noted against the popped path and the loop goes on |
| CopyScheduler.PassesDrainDueRows | src/core/job_scheduler.cpp:246-345 | n due rows are gone after ceil(n / due_batch_size) undisturbed passes at one time, whatever the engine reports |
| CopyScheduler.PassLowersDueCount | src/core/job_scheduler.cpp:246-345 | an undisturbed pass takes a full batch off the due rows, or all |
| Eviction.VolumeMeans | src/core/cache_eviction.cpp:156-161 | a failing removal leaves the volume alone, a working one takes that file only; a reading is the capacity without what is used |
| Eviction.CopyMeans | src/core/job_scheduler.cpp:262-274 | only a publishing copy changes the volume, and then its own file; each reply is reported as its action |
| Eviction.CopyStaysAccurate | src/core/job_scheduler.cpp:262-274 | the bytes used stay the sum of the files on the volume, replaced files included |
| Eviction.SweepTakesLruPrefix | src/core/cache_eviction.cpp:128-171 | removed files are the LRU prefix minus the excluded and the failed |
| Eviction.SweepReachesGoalOrEnd | src/core/cache_eviction.cpp:128-171 | the loop stops only at its goal or at the end of the list |
| Eviction.SweepStopsWhenMet | src/core/cache_eviction.cpp:128-171 | every entry was looked at while the goal was still out of reach |
| Eviction.SweepFreesJustEnough | src/core/cache_eviction.cpp:128-171 | bytes freed are the recorded sizes removed, and without the last victim the goal is missed |
| Eviction.EstimateEqualsReread | src/core/job_scheduler.cpp:230-236 | with true sizes on a volume used alone, estimating and re-reading take the same victims to the same level |
| Eviction.SweptBytesLeaveTheIndex | src/core/cache_eviction.cpp:128-171 | the cached total drops by exactly the sizes removed and only they are unlisted |
| Eviction.EvictLeastRecentlyUsed | src/core/cache_eviction.cpp:128-171 | frees the target or exhausts the list, overshooting by less than the last victim; result counts and index drop agree |
| CopyEngine.AbsorbComposes | src/platform/win/win_file_copy.cpp:197-207 | hashing chunk by chunk is hashing the concatenation |
| CopyEngine.AbsorbsInOrder | src/platform/win/win_file_copy.cpp:197-207 | every byte is absorbed, from the first to the last |
| CopyEngine.FinishHex | src/platform/win/win_file_copy.cpp:215-236 | the digest's lower-case hexadecimal text |
| CopyEngine.HexIsInjective | src/platform/win/win_file_copy.cpp:215-236 | equal texts mean equal digests |
| CopyEngine.HexDigitsOf | src/platform/win/win_file_copy.cpp:228-233 | byte by byte, the high digit comes first, in small letters |
| CopyEngine.WinFileCopyEngine.HashExistingFile | src/platform/win/win_file_copy.cpp:357-391 | for any read sizes the one-shot digest of the file, or the exception of the open, read or hash call that fails first |
| CopyEngine.WinFileCopyEngine.CopyAndHash | src/platform/win/win_file_copy.cpp:425-476 | result, thrown error and final files are those of the specification, and no handle stays open |
| CopyEngine.WinFileCopyEngine.TransferFile | src/platform/win/win_file_copy.cpp:478-528 | the guarded part: early failures and the temporary file |
| CopyEngine.WinFileCopyEngine.Pump | src/platform/win/win_file_copy.cpp:530-595 | the copy loop terminates with the specified end and temporary content for any read sizes, failures and cancellation |
| CopyEngine.WinFileCopyEngine.Finish | src/platform/win/win_file_copy.cpp:532-629 | publish or clean up; deleting the temporary file works only once its handle is closed |
| CopyEngine.WinFileCopyEngine.RemoveCachedFile | src/platform/win/win_file_copy.cpp:632-653 | each file goes unless held or otherwise obstructed; removed, missing and failed are told apart |
| CopyEngine.WinFileCopyEngine.SetChunkSize | src/platform/win/win_file_copy.cpp:655-657 | sets the size of the buffer and nothing else |
| CopyEngine.RemovalKeepsItsPromise | src/platform/win/win_file_copy.cpp:632-653 | the cache file stays, unchanged, exactly when it is held or obstructed, only the temporary file may go besides, and it goes unless it is held or obstructed |
| CopyEngine.CopiedPublishesTheSource | src/platform/win/win_file_copy.cpp:597-624 | Copied leaves exactly the bytes read under their digest, no temporary file and every other file as it was; the recorded size is right exactly when the length did not change |
| CopyEngine.OtherwiseNothingIsPublished | src/platform/win/win_file_copy.cpp:425-630 | every other outcome, exceptions included, leaves all files but the temporary one unchanged |
| CopyEngine.CopiedIff | src/platform/win/win_file_copy.cpp:425-624 | Copied is reported exactly when the copy is needed, both files open, every turn up to the end of the source goes through without cancellation or failure, the hash is finished and the move works |
| CopyEngine.SourceMissingIff | src/platform/win/win_file_copy.cpp:438-560 | SourceMissing is reported exactly when inspecting, opening or, at a turn that is reached, reading the source fails with one of the two codes for a missing file |
| CopyEngine.CancelledIff | src/platform/win/win_file_copy.cpp:532-538 | Cancelled is reported exactly when the flag is up at a turn the loop reaches |
| CopyEngine.SkippedIff | src/platform/win/win_file_copy.cpp:453-476 | each skip is reported exactly when the sizes agree and hashes are not to be compared, or are computed and equal |
| CopyEngine.ReportedSizes | src/platform/win/win_file_copy.cpp:431-599 | the sizes and times a report carries, before and after the copy is complete |
| CopyEngine.TempIsLeftExactly | src/platform/win/win_file_copy.cpp:530-615 | the temporary file survives exactly a failing read, write or hash, or a failing deletion after a cancellation or a failed move; never Copied |
| CopyEngine.RepeatIsSkipped | src/platform/win/win_file_copy.cpp:453-476 | repeating a copy of an unchanged source changes nothing and returns the matching skip |
| CopyEngine.RepeatIsSkippedBySizeIff | src/platform/win/win_file_copy.cpp:460-464 | without comparing hashes the repeat is skipped exactly when the inspected size is the number of bytes copied |
| CopyEngine.ThrowsExactlyWhenHashingFails | src/platform/win/win_file_copy.cpp:466-475 | the call throws exactly when it compares hashes of files of equal size and one of them cannot be hashed |
| CopyEngine.HashSucceedsIff | src/platform/win/win_file_copy.cpp:357-391 | a file is hashed exactly when it opens and no set-up, read, hash or finishing call up to its end fails |
| CopyEngine.HashMatchMeansSameBytes | src/platform/win/win_file_copy.cpp:468-474 | unless the two contents collide under the digest, a hash match means they are equal |
| CopyEngine.EngineKeepsItsPromise | src/platform/win/win_file_copy.cpp:425-630 | every returned report is one the scheduler's protocol allows, with the disk the protocol expects |
| Text.CasePairsTheAlphabets | src/core/config.cpp:79-97 | changing case pairs the two ASCII alphabets and leaves every other character alone |
| Text.CaseIsLossless | src/core/path_mapper.cpp:27 | lowering and raising undo each other on letters and tell the same characters apart |
| Text.RecasedIff | src/core/path_mapper.cpp:21-33 | two strings have one lower-case form exactly when they differ in the case of letters only |
| ConfigText.ReadKeyValues | src/core/config.cpp:132-157 | the map of the lines' trimmed pairs, the first of equal keys winning; every value trimmed and on one line |
| ConfigText.SplitPatternList | src/core/config.cpp:186-209 | the trimmed non-empty pieces, each a clean pattern |
| ConfigText.JoinPatternList | src/core/config.cpp:217-228 | the patterns with single delimiters between non-empty text |
| ConfigText.SplitInvertsJoinIff | src/core/config.cpp:186-228 | splitting gives a joined list back exactly when every pattern is trimmed, non-empty and delimiter-free |
| ConfigText.TrimFacts | src/core/config.cpp:29-40 | trimming gives a trimmed string of the same characters and keeps trimmed strings |
| ConfigText.TrimStrips | src/core/config.cpp:29-40 | trimming takes away exactly the six blanks of the C locale around a text |
| ConfigText.SeparatesIff | src/core/config.cpp:186-209 | a character separates patterns, whatever stands around it, exactly when it is the comma or the semicolon |
| ConfigFile.ConfigStore.LoadConfigFile | src/core/config.cpp:324-372 | the configuration, or the first exception, that the file's pairs give over the defaults |
| ConfigFile.ConfigStore.SaveConfigFile | src/core/config.cpp:374-408 | the whole file text, or the truncated text left when a letter cannot be narrowed, or the old file when it cannot be opened |
| ConfigFile.EntriesReadBack | src/core/config.cpp:132-157 | clean entries written one per line are looked up unchanged |
| ConfigFile.DecimalReadsBack | src/core/config.cpp:342-355 | a printed number parses to its sign and magnitude |
| ConfigFile.NumberReads | src/core/config.cpp:342-355 | a number is read in base ten behind blanks and one optional sign, to its last digit |
| ConfigFile.NothingReads | src/core/config.cpp:342-355 | without a digit there, nothing is read |
| ConfigFile.MagnitudeOfConcat | src/core/config.cpp:342-355 | digits count in base ten |
| ConfigFile.DecimalIsCanonical | src/core/config.cpp:397-403 | a printed number has no superfluous zero in front |
| ConfigFile.LoadedFields | src/core/config.cpp:324-372 | by its key, what each text, letter, flag and pattern list loads as and its default |
| ConfigFile.LoadedNumbers | src/core/config.cpp:336-357 | the mode by its name in any case, the delay with its sign, the space in megabytes with 64-bit wrap-around, and their defaults |
| ConfigFile.LoadFailsIff | src/core/config.cpp:336-357 | loading throws exactly on an unknown mode, or a delay or space that is no number or out of range |
| ConfigFile.SavedText | src/core/config.cpp:385-407 | saving succeeds exactly with two letters of at most seven bits, and then the text of the file, key by key |
| ConfigFile.RoundTripIff | src/core/config.cpp:324-408 | saving and loading gives a configuration back exactly when it is normal |
| ConfigFile.LoadIsNormalIff | src/core/config.cpp:324-372 | whatever a file holds, what it loads as is normal exactly when both letters are ASCII |
| ConfigFile.FailedSaveForgets | src/core/config.cpp:385-391 | a save stopped by a letter leaves a file that loads as the defaults behind that letter |
| ConfigFile.ModeSwitchChangesOnlyTheModeIff | src/app/tray_main.cpp:636-644 | load, set mode, save keeps every other setting exactly when the loaded letters are ASCII |
| ConfigFile.ModeSwitchForgetsTheLetter | src/app/tray_main.cpp:636-644 | for every cache letter outside ASCII, the one-line file naming it loads, and switching the mode fails and leaves a file that loads as the defaults |
| ConfigFile.ConfigStore.LoadOrCreate | src/app/tray_main.cpp:533-549 | an existing file is loaded and an empty index path in it filled in, every other setting as loaded; a missing file is created |
| ConfigFile.ConfigStore.PersistMode | src/app/tray_main.cpp:640-644 | the file afterwards, unchanged when loading fails, and when it holds just the mode switched |
| PathMapper.SplitPathComponents | src/core/path_mapper.cpp:83-106 | the components between separators of either style, none empty, none with a separator |
| PathMapper.SplitInvertsJoin | src/core/path_mapper.cpp:83-106 | splitting a joined list of components gives the list back |
| PathMapper.TrimLeadingSeparators | src/core/path_mapper.cpp:74-81 | normalized and without leading separators |
| PathMapper.JoinRootAndRelative | src/core/path_mapper.cpp:108-125 | one separator between trimmed root and relative path, none for an empty one |
| PathMapper.SameIgnoringCase | src/core/path_mapper.cpp:21-33 | equality of the lower-cased strings: the same letters, some perhaps in the other case |
| PathMapper.ParseUncPath | src/core/path_mapper.cpp:127-153 | lower-cased server and share, canonical rest, or nothing without them |
| PathMapper.ParseWindowsRemoteDevicePath | src/core/path_mapper.cpp:155-196 | the same for redirector device paths, skipping one semicolon component |
| PathMapper.MapObservedSourcePath | src/core/path_mapper.cpp:198-224 | the observed identity if its root is the source's |
| PathMapper.ParsedIdentityIsFixedPoint | src/core/path_mapper.cpp:127-196 | joining and parsing any parser's identity gives it again |
| PathMapper.IdentityIsExact | src/core/path_mapper.cpp:138-152 | identities are equal exactly when servers and shares agree up to case and the rest is equal |
| PathMapper.ParsersIgnoreCase | src/core/path_mapper.cpp:52-65 | writing letters in the other case changes neither what the parsers accept nor the root they find |
| PathMapper.MappingIgnoresCase | src/core/path_mapper.cpp:198-224 | nor does it change whether an observed path maps, or the root it maps to |
| PathMapper.MapsExactly | src/core/path_mapper.cpp:198-224 | a path observed in UNC or device form maps exactly when its server and share are the source's up to case, and then to the identity of its own components |
| PathMapper.NothingElseMaps | src/core/path_mapper.cpp:198-224 | a source that is no UNC path, or an observed path that neither parser accepts, maps to nothing |
| PathMapper.DeviceFormAgreesIff | src/core/path_mapper.cpp:155-196 | UNC and device form have one identity exactly with a semicolon component or a server not starting with a semicolon |
| PathMapper.MappingIgnoresTheForm | src/core/path_mapper.cpp:198-224 | an observed path maps the same in both forms |
| PathMapper.MappedPathsShareTheSourceRoot | src/core/path_mapper.cpp:198-224 | a mapped path has exactly the source's root id and is a fixed point |
| PathMapper.KeysDoNotCollide | src/core/path_mapper.cpp:108-125 | distinct keys name distinct cache paths |
| PathMapper.JoinedPathsCollideIff | src/core/path_mapper.cpp:108-125 | two relative paths join to one path exactly when they differ in separator style and leading separators only |
| PathMapper.JoinsWithOneSeparator | src/core/path_mapper.cpp:108-125 | however many separators the root ends and the relative path begins with, exactly one joins them |
| PathMapper.TempCollidesIff | src/platform/win/win_file_copy.cpp:482 | a key's temporary file is another key's cache file exactly when that key appends the suffix |
| Wildcard.WildcardMatchIgnoreCase | src/core/config.cpp:79-123 | terminates; true means the glob matches, and for values without a star the result is the glob's |
| Wildcard.MatchIsSound | src/core/config.cpp:79-123 | for all patterns and values a true result is a glob match |
| Wildcard.MatchIsComplete | src/core/config.cpp:79-123 | for values without a star every glob match is found |
| Wildcard.CompleteExactlyWithoutStars | src/core/config.cpp:91-105 | a value is matched correctly by all patterns exactly when it contains no star |
| Wildcard.GlobOfConcat | src/core/config.cpp:71-79 | the meaning of a pattern: a concatenation matches what its parts match one after the other |
| Wildcard.GlobOfPiece | src/core/config.cpp:71-79 | a star matches everything, a question mark any one character, another character itself |
| Wildcard.MatchIgnoresCase | src/core/config.cpp:79-123 | writing letters of pattern or value in the other case changes no answer |
| Wildcard.ListIgnoresCase | src/core/config.cpp:238-255 | nor does it change what an ignore list accepts |
| Wildcard.ValueMatchesAnyPattern | src/core/config.cpp:238-255 | some pattern matches the value or its file name; never for the empty value |
| Wildcard.AnyMatchIsAnyGlob | src/core/config.cpp:238-255 | over a list, for values without a star, accepting is matching some glob |
| Wildcard.FileName | src/core/config.cpp:62-69 | the suffix behind the last separator |
| DriverContexts.CountsExactEveryRun | src/driver/src/driver.c:449-544 | in every interleaving a live context's count is its attachment plus its holders, and unattached unheld contexts are freed |
| DriverContexts.WritesAreRemembered | src/driver/src/driver.c:466-495 | with no pre-write under way the handle carries a context exactly when one was attached since the last deletion, and it is marked written |
| DriverContexts.CompletedWriteIsTracked | src/driver/src/driver.c:466-495 | without failures one completed pre-write is enough for that |
| DriverContexts.CleanupReportsExactlyOnce | src/driver/src/driver.c:522-541 | a cleanup after the pre-writes emits exactly one write-closed event, exactly when a write was tracked and the event gets through, whatever else interleaves |
| DriverContexts.NothingLeaks | src/driver/src/driver.c:534-540 | once all callbacks returned and nothing is attached no context is left |
| DriverContexts.FileHandle.PreWrite | src/driver/src/driver.c:449-500 | an ignored write changes nothing; another leaves, without failures, an attached marked context, and never replaces an attached one |
| DriverContexts.FileHandle.PreCleanup | src/driver/src/driver.c:511-544 | detaches, and reports exactly when the found context was marked |
| DriverContexts.FileHandle.KeepIfExists | src/driver/src/driver.c:481-487 | attaches with its own reference unless a context is there already |

## Left out

- Tray window, command line, service control, logging, access control, known folders, debugger launching, drive mapping and mode switching.
- SQLite itself: WAL, migrations, prepared statements, and the columns no decision reads (hash algorithm and time, creation and update times).
- UTF-8 and UTF-16 conversion, with its exceptions for broken text: strings are sequences of characters, and the index compares paths in that order.
- SHA-256: the digest is any streaming function; `HashMatchMeansSameBytes` asks only that the two contents do not collide.
- Letter case and white space outside ASCII: changing case and trimming follow the C locale.
- Size parsing and printing of the command line (floating-point library behaviour).
- Fixed-width overflow of byte totals, sequence numbers and retry counts; the configuration's 64-bit conversions are modelled.
- Wake-ups: a waiting worker may look again at any time, so that it does look again is not proved.
- A second process using the index, and crashes between removing a file and telling the index.
- Which operations the driver ignores, and whether a message reaches the client, are inputs of the callbacks; other drivers' contexts and the copied file name are not modelled.
- CopyScheduler.PendingCopyScheduler.WorkerLoop: stands at one clock reading with the two flags fixed; events, pauses and stops between its steps are covered by the protocol theorems instead.
- CopyScheduler.PendingCopyScheduler.RunDueOnce: meets a volume and an engine whose replies, exceptions included, are scripted per call; its body is spread over RunBatch, Attempt, CallEngine, Settle, Publish, Retry and CleanUp.
- CopyScheduler.MadeRoomExactly: says nothing when other programs use the volume.
- Debounce.BurstCausesOneCopy: failed attempts on the path and direct calls of a pass are outside the burst; CopiesNeedAccesses bounds the copies there.
- Eviction.EvictLeastRecentlyUsed: the removal callback reports by error text only.
- UtcTime.TextOrderIsTimeOrder: years 1970 to 9999, where the year has four digits.
- The Windows branch of the conversions (`gmtime_s`, `_mkgmtime`), which is documented only up to the year 3000 and rejects times before 1970, where this model follows `gmtime_r` and `timegm`.
- CacheIndexStore.CacheIndex.PendingJob: unreadable due times do not arise, since only formatted ones are stored.
