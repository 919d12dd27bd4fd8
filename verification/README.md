# A verified model of the sampling CPU profiler

The profiler interrupts a running process with SIGPROF, walks the interrupted
stack, counts equal stacks in a fixed-size set-associative table that spills to
a temporary file, and turns the counts into reports. The model follows the
program file by file. What the program changes in place is a class whose
methods are proved against specification functions; what is said about those
functions is said for every input, every run of adds, every outcome of every
system call, and every interleaving of threads and signals.

| modules | what they model |
|---|---|
| `MachineInts`, `Outcomes`, `Tallies`, `Bytes`, `CStrings`, `Decimal`, `Quotients` | wrapping integers, results, totals of counted items per class, raw memory images, terminated text, numerals, division |
| `CounterRuns`, `Counter` | the buckets and the counter, in place, and what whole runs of adds leave resident or evict |
| `Spill` | the append buffer, its raw flushes (complete or cut short) and the iterator that reads them back |
| `Collector` | counter and spill file together, against a map from class to total |
| `Frames`, `SampleImage` | samples and resolved backtraces, their equality and hash, the resolving loop, the raw image of a sample |
| `Lifecycle`, `Profiler`, `Guard` | start, stop, clear, init, sample; building and dropping the guard |
| `Walker`, `Validator`, `Handler` | the frame-pointer walk over arbitrary memory, the shared pipe, the body of the signal handler |
| `Protocol`, `Guarantees`, `Recovery`, `ExampleRuns` | threads, lock, handler, timer and reports as a state machine, what holds in every run, and when a profiler can be used again |
| `ReportMaps`, `Reports` | both report builders |
| `Profile`, `Pprof`, `Folded` | the indexed profile with its interned strings and functions; folded flamegraph lines |
| `Timer`, `ThreadNames` | interval and time arithmetic; the digits of a thread id |

`BUCKETS`, `BUCKETS_ASSOCIATIVITY`, `BUFFER_LENGTH` and `MAX_DEPTH` are unknown
positive constants. The hash is any function of the words fed to it; symbol
lookup, demangling and UTF-8 decoding are any pure functions. Answers of the
operating system are parameters. Counts wrap modulo 2^64 and the sample counter
modulo 2^32, as in a release build, and the exactness results say when that
cannot matter.

Six results are worth knowing before using the code:

* After a failed clear the blocks that follow read back wrong, as old blocks or
  as zeros, unless nothing had been flushed before (`Spill.ReadableAfterClearIff`).
  Exactness holds again after the next clear that succeeds.
* A `stop` whose `sigaction` or whose new collector fails leaves the profiler
  counted as running for good, and so does a `build` with frequency 0, which
  panics after the handler is installed (`Guard.Build`). Those three calls are all
  that can wedge it: from every reachable state a guard can be live again exactly
  if none of them has happened (`Recovery.UsableIff`). `ExampleRuns` has a run for
  each.
* `stop` does not wait for handlers. A sample can be recorded after it exactly if
  some handler was entered before it and has not yet tried the lock
  (`Guarantees.LateSamples`); `ExampleRuns` has a run where this happens. Such a
  sample is still held when the next guard goes live (`Recovery.CarriedToNextGuard`),
  so the next session counts it.
* The walker's own tests let a walk go on forever exactly if it comes to a frame
  record that points to itself (`Walker.EndlessIffSelfLoop`, with an example in
  `Walker.EndlessWalk`); only the depth limit of the callback ends such a walk.
* The fallback name of a thread whose id is above 10^15 fills the name buffer and
  leaves no terminator for the reader (`ThreadNames.TerminatedIff`); unless the next
  byte in memory happens to be one, the handler then panics (`Handler.NameFitsIff`).
* The label of an unnamed thread is its id exactly if the id is at most one, or at
  most 10^15 and no power of ten (`ThreadNames.LabelIsId`): thread 10 is labelled 0.

## Model

| member | source | states |
|---|---|---|
| Counter.Bucket.constructor | src/collector.rs:39-45 | a new bucket has no live slot |
| Counter.Bucket.Clear | src/collector.rs:48-50 | no slot stays live; stale ones are out of sight |
| Counter.Bucket.Bump | src/collector.rs:53-59 | although the loop never breaks, at most the one slot of the item's class grows, and `done` says whether there was one |
| Counter.Bucket.LeastCounted | src/collector.rs:71-79 | the first slot with the least count |
| Counter.Bucket.Add | src/collector.rs:52-85 | the new live slots and the evicted entry are those of `CounterRuns.Add` |
| CounterRuns.AddKeepsDistinct | src/collector.rs:52-85 | live slots stay pairwise distinct and no foreign class appears |
| CounterRuns.AddConserves | src/collector.rs:52-85 | for every class, resident plus evicted count grows by exactly the count added, up to a carry of 2^64 that is zero whenever the slot's sum fits |
| CounterRuns.AddCases | src/collector.rs:52-70 | an entry of the item's class keeps its item and slot and grows; a new class goes behind the others while there is room |
| CounterRuns.EvictsLeastCounted | src/collector.rs:70-84 | eviction happens exactly when the bucket is full and the class absent; the victim has the least count, the others keep their slots, and a stack seen twice is not evicted while one seen once is resident |
| Counter.BucketIterator.Next | src/collector.rs:103-110 | yields the live slots in order, then nothing, forever |
| Counter.BucketIterator.Drain | src/collector.rs:87-111 | the iterator yields exactly what remained |
| Counter.HashCounter.constructor | src/collector.rs:117-125 | all buckets start empty and apart from each other |
| Counter.HashCounter.Clear | src/collector.rs:128-132 | nothing stays resident |
| Counter.HashCounter.Add | src/collector.rs:140-145 | changes the home bucket of the item's class only, as `CounterRuns.Store` says; `CounterRuns.ResidentsFollowHash` says which bucket that is |
| Counter.HashCounter.Iter | src/collector.rs:147-155 | every resident entry once, bucket by bucket |
| CounterRuns.Replay | src/collector.rs:128-145 | after any run of adds every bucket is within its associativity, holds no class twice, and only classes at home there |
| CounterRuns.ResidentsFollowHash | src/collector.rs:140-145 | after any run of adds every resident is in the bucket numbered by its class's hash modulo BUCKETS |
| CounterRuns.EvictsIffCrowded | src/collector.rs:52-85 | a run evicts nothing exactly if no more distinct classes than BUCKETS_ASSOCIATIVITY hash to any one bucket |
| CounterRuns.TotalAtHome | src/collector.rs:140-145 | a class is resident in its home bucket only |
| CounterRuns.KeptStep | src/collector.rs:140-145 | one add changes resident plus evicted count of every class by that class's share of it |
| CounterRuns.ReplayConserves | src/collector.rs:140-155 | over any run, resident plus evicted equals added, up to a multiple of 2^64 |
| CounterRuns.ReplayExact | src/collector.rs:140-155 | with counts that are not negative and a true total that fits an isize, it is equal, and no count of the class is negative |
| Spill.TempFdArray.constructor | src/collector.rs:166-179 | starts empty, with a file that matches |
| Spill.TempFdArray.Clear | src/collector.rs:183-189 | forgets everything pushed; the file matches again exactly if it ends up empty and rewound, which a success guarantees and a failure allows only for a file never written; file and cursor are stated for every outcome |
| Spill.TempFdArray.FlushBuffer | src/collector.rs:191-203 | counts the block as flushed even if the write is cut short; from then on the file is strictly shorter than the flushed blocks |
| Spill.WrittenByte | src/collector.rs:200 | a write puts its bytes at the cursor, keeps those around it and fills a gap with zeros |
| Spill.TempFdArray.RawBuffer | src/collector.rs:193-198 | the bytes written are the records of the buffer end to end |
| Spill.TempFdArray.Push | src/collector.rs:205-214 | appends the entry or, if a needed flush fails, reports the failure; pushes equal flushed blocks plus buffered entries, with at least one buffered |
| Spill.AppendedImage | src/collector.rs:191-203 | a full block keeps the file the image of what was flushed, a partial one leaves it too short for good |
| Bytes.EncodeAllRoundTrip | src/collector.rs:191-203 | record i of an image decodes to entry i |
| Bytes.EntryCodecFaithful | src/collector.rs:18-22 | an entry's image is its item's image and its count, and decodes to both |
| Spill.SpilledIsFlushed | src/collector.rs:246-261 | re-slicing the image of the flushed entries yields the flushed entries |
| Spill.StaleBlock | src/collector.rs:183-203 | a block written behind a file that was not truncated reads back as what that file began with |
| Spill.ReadsBackIff | src/collector.rs:191-234 | with no room, or room for at least a record, in front of the cursor: blocks read back exactly if they are written from the start of the file |
| Spill.ReadableAfterClearIff | src/collector.rs:183-189 | whichever of the two calls failed and whatever was flushed before, later blocks read back exactly if the clear succeeded or nothing had been flushed |
| Spill.TempFdArray.TryIter | src/collector.rs:216-234 | yields the buffer, then the first flushed-size bytes of the file as records, or fails if the file is shorter; so on a clean file it succeeds exactly if every flush did and the reads do, and then will yield the buffer followed by every flushed entry |
| Spill.TempFdArrayIterator.RecordCount | src/collector.rs:251-253 | the number of whole records in the bytes read |
| Spill.TempFdArrayIterator.Next | src/collector.rs:246-261 | yields buffer, then file records, in order, then nothing, forever |
| Spill.TempFdArrayIterator.Drain | src/collector.rs:243-262 | every remaining entry exactly once |
| Collector.Collector.constructor | src/collector.rs:269-276 | a new collector is empty and exact |
| Collector.Collector.Clear | src/collector.rs:279-283 | empties the counter; exact again exactly if the file ends up empty and rewound, as it does on success |
| Collector.Collector.Add | src/collector.rs:285-291 | always reaches the counter; fails exactly when spilling the evicted entry fails, and then the collector stays inexact until cleared |
| Collector.Collector.TryIter | src/collector.rs:293-295 | counter, then buffer, then file; exact or error: on a clean file Ok exactly if nothing was lost and the reads succeed, and then the listing holds every resident, buffered and flushed entry once |
| Collector.ListingConserves | src/collector.rs:278-295 | the listing sums, class by class, to what was added since the last clear, up to a multiple of 2^64 |
| Collector.ListingExact | src/collector.rs:278-295 | for counts that are not negative and totals that fit, the sum is exact and nothing negative is listed |
| Frames.NewUnresolved | src/frames.rs:63-80 | frames, thread id and timestamp are kept; the name is stored with its length and padded with zeros |
| Frames.SameSampleIsSameKey | src/frames.rs:83-104 | the custom equality is equality of thread id and symbol addresses, hence an equivalence, and the hash is fed the same words exactly for equal samples |
| Frames.KeyFeedWords | src/frames.rs:97-104 | the hasher is fed the symbol addresses in frame order, then the thread id |
| Profiler.BucketOfSample | src/collector.rs:134-145 | a sample's bucket is what the hasher makes of those words, modulo BUCKETS |
| Frames.SameFramesIsSameKey | src/frames.rs:170-190 | the derived equality compares raw names, thread and timestamp and nothing else |
| Frames.KeysTellNamesApart | src/frames.rs:170-190 | backtraces with differently named symbols at one place are counted apart |
| Frames.NamelessIsUnknown | src/frames.rs:124-126 | a symbol without a name is compared as "Unknown" |
| Frames.ThreadNameOrId | src/frames.rs:194-200 | the name, or the id's numeral if it is empty |
| Frames.AnyNamesHandler | src/frames.rs:221-227 | finds a symbol of the signal handler exactly if there is one |
| Frames.Resolve | src/frames.rs:203-246 | the loop keeps exactly the frames with symbols that are neither handler frames nor right after one, in order; thread name, id and timestamp are carried over |
| Frames.ResolvesStack | src/frames.rs:209-236 | told by the looked-up symbols alone: a frame that shows a name of the handler goes with the one after it, a frame without symbols goes alone, and every symbol of the others stays |
| Frames.ResolvedIsClean | src/frames.rs:209-236 | no handler symbol and no empty frame survives |
| Frames.ResolvedWithoutHandler | src/frames.rs:209-236 | a stack without handler frames keeps every frame with symbols |
| Frames.ResolvedAroundHandler | src/frames.rs:221-231 | one handler frame removes itself and the frame after it, nothing else |
| SampleImage.CountedSamplesRoundTrip | src/collector.rs:193-261 | with frames inline, the raw records of any number of counted samples decode to them, in order, for every order of fields and every padding |
| Profiler.Profiler.constructor | src/profiler.rs:418-436 | a new profiler is stopped and empty |
| Profiler.Profiler.IsBlocklisted | src/profiler.rs:444-451 | true exactly strictly inside some blocklisted segment |
| Profiler.Profiler.RegisterSignalHandler | src/profiler.rs:508-526 | installs the handler and remembers the previous action, or changes nothing |
| Profiler.Profiler.UnregisterSignalHandler | src/profiler.rs:528-542 | forgets the previous action first; then ignores SIGPROF or leaves the handler in place |
| Profiler.Profiler.Start | src/profiler.rs:455-465 | refuses a running profiler, runs only once the handler is installed |
| Profiler.Profiler.Init | src/profiler.rs:467-473 | the counter is zeroed even if no new collector can be made; old samples and `running` then stay; otherwise the collector is empty and exact |
| Profiler.Profiler.Clear | src/profiler.rs:486-494 | only while running; samples are gone even if the file cannot be cleared |
| Profiler.Profiler.Stop | src/profiler.rs:496-506 | unregisters, then resets, stopping at the first failure |
| Profiler.Profiler.Sample | src/profiler.rs:545-556 | one more sample is held, with these frames, this name, id and time; it is counted; a failed spill shows only as inexactness |
| Lifecycle.SessionLeavesNothing | src/profiler.rs:455-506 | whatever is recorded, cleared or refused between a start and a stop, the stop succeeds exactly if both its calls do; then, and only then, nothing is left but that SIGPROF is ignored, and the profiler can be started again |
| Guard.Build | src/profiler.rs:146-180 | success means handler installed, profiler running, timer armed for frequencies up to a million; an error leaves the timer alone; it panics exactly if the start succeeds with frequency 0, leaving handler and profiler running with no guard; the blocklist is replaced whatever comes of the start |
| Guard.ProfilerGuard.Report | src/profiler.rs:201-206 | a builder over the same profiler with the timer's timing |
| Guard.ProfilerGuard.Drop | src/profiler.rs:209-221 | the timer is disarmed and the profiler stopped; an error from stopping is swallowed |
| Walker.SamplingCallback.Call | src/profiler.rs:387-403 | takes an ip exactly if it is not blocklisted and the depth is not reached, and says so |
| Walker.Trace | src/backtrace/frame_pointer.rs:99-128 | over any memory the walk ends after at most MAX_DEPTH + 1 callbacks, reads only addresses it validated, and collects exactly the maximal collectable prefix of the frame chain |
| Walker.CollectsStack | src/backtrace/frame_pointer.rs:119-136 | whatever stack of frame records is laid out in memory, up to null, unmapped memory, a descending link, a rejected probe or blocklisted code, its return addresses are collected in order, down to MAX_DEPTH |
| Bytes.LittleEndianByte | src/backtrace/frame_pointer.rs:45-51 | words lie in memory least significant byte first |
| Walker.MaximalPrefixUnique | src/backtrace/frame_pointer.rs:99-128 | there is only one such prefix |
| Walker.PrefixAscends | src/backtrace/frame_pointer.rs:109-112 | the frames collected never go down the stack |
| Walker.EndlessIffSelfLoop | src/backtrace/frame_pointer.rs:109-117 | where no readable frame is rejected, the walker's own tests pass forever exactly if the walk comes to a frame record that points to itself |
| Walker.EndlessWalk | src/backtrace/frame_pointer.rs:109-117 | a memory over which they do |
| Validator.Drain | src/addr_validate.rs:80-91 | takes at most a probe's worth of bytes, and finds the pipe unusable exactly if it is not open |
| Validator.Probe | src/addr_validate.rs:97-106 | writes the probe exactly if the address is readable and there is room |
| Validator.Validate | src/addr_validate.rs:71-107 | alone on the pipe, true exactly if the address is readable, the pipe was or could be opened, and the drained pipe has room; interruptions change nothing, and the bytes left are known |
| Validator.LoneWalkIff | src/addr_validate.rs:80-106 | a walk alone on a pipe holding at most one probe has every readable frame's probe granted exactly if the capacity covers one probe |
| Validator.LoneWalkCollects | src/backtrace/frame_pointer.rs:99-128 | what such a walk collects depends on memory and blocklist only |
| Validator.LoneWalkEndlessIff | src/backtrace/frame_pointer.rs:99-128 | and its own tests never end it exactly if it comes to a self-pointing record |
| Validator.OccupancyBound | src/addr_validate.rs:80-106 | in every interleaving of at most n calls, bytes in the pipe plus a probe for each call between read and write never exceed n probes |
| Validator.NeverRejectsIff | src/addr_validate.rs:80-106 | a readable address is never rejected for want of room exactly when the capacity covers n probes |
| Handler.PerfSignalHandler | src/profiler.rs:317-415 | records exactly one sample, unless the interrupted code is blocklisted: the return addresses of the stack in memory (none without a context) down to MAX_DEPTH or the first one in a blocklisted segment, each with its enclosing function, the name up to its terminator, thread id and time; panics, recording nothing, exactly if that name does not fit; calls back at most MAX_DEPTH + 1 times |
| Handler.NameFitsIff | src/profiler.rs:411-412 | the name fits exactly if its terminator is in the buffer or right behind it |
| Handler.CapturesOnce | src/profiler.rs:377-412 | that sample is determined by the interrupted state |
| Protocol.LockStep | src/profiler.rs:149-324 | every step of every thread and handler keeps the lock word in agreement with who holds it |
| Protocol.SessionStep | src/profiler.rs:146-221 | every step keeps at most one session, owned by one guard or by the thread that makes or drops it |
| Protocol.LedgerStep | src/report.rs:115-158 | every step keeps samples accepted equal to samples taken plus samples held, and listings equal to what is held |
| Protocol.Reachable | src/profiler.rs:146-221 | all of these hold in every reachable state |
| Guarantees.Conservation | src/report.rs:115-158 | in every run the windows closed by clearing reports, stops and failed clears partition, in order, all accepted samples but those still held; class by class the counts add up |
| Guarantees.NothingIsLost | src/report.rs:148-150 | nothing is lost exactly if every clear succeeds, and then every delivered clearing report listed an exact collector |
| Guarantees.ReportsAddUp | src/report.rs:115-158 | then, if every clearing report of an exact collector listed what such a collector lists, report totals, discarded and held samples add up to those accepted, per thread and for everything else that reports show of the stacks |
| Guarantees.GrandTotalsAddUp | src/report.rs:115-158 | in particular the grand totals do, whatever the post-processors |
| Guarantees.CounterCounts | src/profiler.rs:553-555 | the sample counter is the number of samples held modulo 2^32, unless a stop failed to replace the collector |
| Guarantees.ListingsStay | src/report.rs:118-150 | what a report has listed stays what the collector holds until the lock is released or cleared by that report |
| Guarantees.Exclusion | src/profiler.rs:149-324 | a writer is never together with another holder, not even in the thread it interrupts |
| Guarantees.UpdatesNeedTheLock | src/profiler.rs:324-412 | profiler and signal action change only at the hands of a sole holder |
| Guarantees.ClearingReportsClear | src/report.rs:148-156 | a clearing report that has listed cannot let go of the lock before it has cleared |
| Guarantees.LockIsTried | src/profiler.rs:324 | with no reader on its way, a handler gets the lock exactly if it is free, and leaves exactly if it is not |
| Guarantees.HandlerNeverWaits | src/profiler.rs:324-414 | a thread inside the handler always has an enabled step |
| Guarantees.HandlerIsBounded | src/profiler.rs:317-415 | each signal costs its thread at most four protocol steps of its own, in any interleaving; the second of them is the whole body under the lock, whose callbacks `Handler.PerfSignalHandler` bounds |
| Guarantees.OneGuard | src/profiler.rs:146-221 | at most one guard is live, and while it is the profiler runs with its handler installed |
| Guarantees.InstalledMeansRunning | src/profiler.rs:455-542 | whenever no writer holds the lock, an installed handler means the profiler is running |
| Guarantees.TimerNeedsHandler | src/profiler.rs:170-211 | the timer is armed only while the handler is installed, so it is disarmed before the handler is removed |
| Guarantees.ReportsFindItRunning | src/profiler.rs:201-206 | while a report borrows a guard the profiler is running, so clearing never finds it stopped |
| Guarantees.NeverPreviousAgain | src/profiler.rs:528-541 | once replaced, the previous SIGPROF action never comes back |
| Guarantees.FailureIsFinal | src/profiler.rs:146-221 | after a failed stop or a panicking build the profiler counts as running forever and no guard is live again; `Recovery.UsableIff` has the converse |
| Recovery.FailureIff | src/profiler.rs:146-221 | that has happened exactly if the run has a panicking build, a stop that could not remove the handler, or one that could not replace the collector |
| Recovery.RunningIffFailed | src/profiler.rs:455-506 | with no guard around, the profiler counts as running exactly then |
| Recovery.CalmsDown | src/profiler.rs:146-221 | from every reachable state everything begun can be brought to its end without a failure |
| Recovery.Rebuilds | src/profiler.rs:146-180 | an idle thread that finds the lock free and the profiler stopped can make a guard, and the samples held stay held |
| Recovery.UsableIff | src/profiler.rs:146-221 | from every reachable state a guard can be live again exactly if no build has panicked and no stop has failed |
| Recovery.CarriedToNextGuard | src/profiler.rs:146-221 | whatever the collector holds at any time after a stop it still holds when the next guard goes live |
| Guarantees.BuildStepsCompose | src/profiler.rs:455-465 | the building thread's steps under the lock come to what `Start` does |
| Guarantees.RefusalIsStart | src/profiler.rs:457-458 | and so does its refusal when the profiler is running |
| Guarantees.StopStepsCompose | src/profiler.rs:496-506 | the stopping thread's steps come to what `Stop` does |
| Guarantees.Progress | src/profiler.rs:146-221 | there is no deadlock: whatever has begun can go on without a failure |
| Guarantees.LateSamples | src/profiler.rs:324-412 | with the handler gone and the lock free, a sample can still be recorded exactly if some handler entered earlier has not yet tried the lock |
| ExampleRuns.LateHandlerHappens | src/profiler.rs:209-221 | a run in which such a handler is left behind by a stop |
| ExampleRuns.FailedStopHappens | src/profiler.rs:528-542 | a run in which a stop cannot remove the handler |
| ExampleRuns.FailedResetHappens | src/profiler.rs:467-473 | a run in which a stop cannot make a new collector |
| ExampleRuns.PanicHappens | src/profiler.rs:170-173 | a run in which a build panics and leaves the lock free, the handler installed and no guard |
| ExampleRuns.LossHappens | src/report.rs:148-150 | a run in which a clear fails and a window is lost |
| ReportMaps.ReportMap.Find | src/report.rs:76-77 | finds the row of a class exactly if there is one |
| ReportMaps.ReportMap.Count | src/report.rs:76-88 | grows the class's row or inserts one; rows stay distinct |
| ReportMaps.AggregateSeen | src/report.rs:72-90 | a class has a row exactly if it was listed |
| ReportMaps.AggregateTotals | src/report.rs:72-90 | each row holds the class's total, wrapped |
| ReportMaps.RowsKeepFirst | src/report.rs:132-143 | a row shows the item of its class that was counted first |
| ReportMaps.AggregateExact | src/report.rs:72-90 | while the grand total fits, rows are exact for every class and every coarser one |
| Reports.ListingTallies | src/report.rs:72-75 | the positive entries listed number, class by class, the samples recorded |
| Reports.ListsTally | src/report.rs:72-75 | and so do those of any listing of an exact collector |
| Reports.UnresolvedIsExact | src/report.rs:63-98 | one positive row per class counting exactly its samples; the rows sum to the number of samples |
| Reports.ResolvedIsPushForward | src/report.rs:123-146 | each row counts the entries whose resolved stack, changed by the post-processor if there is one, belongs to it, and shows such a stack |
| Reports.ResolvedCounts | src/report.rs:123-146 | whatever a resolved backtrace shows of its stack, it shows as often as it was sampled |
| Reports.ResolvedGrandTotal | src/report.rs:123-146 | the grand total is the number of samples, whatever the post-processor does |
| Reports.ThreadTotalsAgree | src/report.rs:63-146 | without a post-processor both reports give each thread the same total, the number of its samples |
| Reports.ReportBuilder.Process | src/report.rs:127-130 | the resolved stack, changed by the post-processor if there is one |
| Reports.ReportBuilder.CountEntry | src/report.rs:125-145 | a positive entry is processed and counted, another one changes nothing |
| Reports.ReportBuilder.Gather | src/report.rs:72-90 | the rows are the aggregate of the positive entries |
| Reports.ReportBuilder.Fold | src/report.rs:124-146 | the rows are the aggregate of the processed positive entries |
| Reports.ReportBuilder.ResolveListing | src/report.rs:124-146 | exact or error for the resolved rows, with their grand total |
| Reports.ReportBuilder.ClearIf | src/report.rs:148-150 | clears exactly if asked |
| Reports.ReportBuilder.BuildUnresolved | src/report.rs:63-98 | exact or error on a clean collector; the error is the creation error if there is no profiler |
| Reports.ReportBuilder.BuildAndClear | src/report.rs:115-158 | exact or error; the rows are the push-forward of the listing through resolving and post-processing; clears, if asked, only after listing has succeeded; a failed clear takes the samples and the report with it |
| Pprof.DedupStrings | src/report.rs:249-264 | exactly the strings the profile needs |
| Pprof.StringTable | src/report.rs:266-267 | the empty string, then every needed string once, in any order |
| Pprof.IndexStrings | src/report.rs:269-272 | every string of the table is found at one of its places, also an empty one |
| Pprof.Intern | src/report.rs:282-313 | finds the name's location or appends function and location with the next id; the tables stay exactly those of the first symbol of each name |
| Pprof.InternStack | src/report.rs:279-315 | the ids of a row's symbols in frame order |
| Pprof.WriteSample | src/report.rs:278-330 | stack, label, count and time of one row |
| Pprof.WriteSamples | src/report.rs:274-331 | one sample per row, each of which still decodes after all later rows |
| Pprof.FirstNamedMeaning | src/report.rs:283-298 | the functions are the first symbols of their names, one for each name that occurs |
| Pprof.WriteProfile | src/report.rs:248-360 | for rows and strings in any order the profile is well-formed and a reader recovers every row: each location leads to a function called what the symbol's bytes demangle to, in frame order, with thread label and count; the value types are samples/count and cpu/nanoseconds |
| Pprof.EncodedIsRead | src/report.rs:280-331 | field by field, and for every function the undemangled name, file and line of the first symbol of its name, or "Unknown" and 0 where there is none |
| Pprof.NeededMeaning | src/report.rs:249-264 | the strings of labels, symbols and value types are in the table, and no others |
| Pprof.TablesWritten | src/report.rs:309-331 | ids are 1 to n in order, every id referred to exists once, no two functions share a name, every string index is in range |
| Pprof.CountsAddUp | src/report.rs:323-325 | the samples' counts sum to the report's total |
| Pprof.TimesFollowCounts | src/report.rs:323-356 | without overflow each time lies within a nanosecond per count of count times period, and the times sum to within n nanoseconds of the total's time |
| Folded.WriteLine | src/report.rs:205-219 | thread and reversed names joined by semicolons, a space, the count |
| Decimal.NumeralDigits | src/report.rs:216 | counts and ids are printed in decimal, the most significant digit first, without leading zeros |
| Folded.WriteLines | src/report.rs:202-220 | one line per row |
| Folded.SplitMeaning | src/report.rs:206-216 | splitting yields pieces without semicolons that join back |
| Folded.LineRoundTrip | src/report.rs:205-219 | a reader recovers the count always, and thread and reversed stack exactly if no name contains a semicolon |
| Folded.LineMatchesSample | src/report.rs:202-331 | line and profile sample of one row agree, with opposite stacks |
| Timer.Timer.constructor | src/timer.rs:34-58 | arms exactly for frequencies from 1 to a million; beyond a million in either direction it disarms, and from -1000000 to -1 it changes nothing |
| Timer.Timer.Drop | src/timer.rs:71-89 | disarms |
| Timer.IntervalFields | src/timer.rs:35-39 | the two fields encode the interval and are in range |
| Timer.PeriodMatchesInterval | src/report.rs:356 | the profile's period is the timer's interval in nanoseconds, up to rounding |
| Timer.TimeMatchesPeriod | src/report.rs:325 | count times period bounds a sample's time from both sides |
| Timer.TimesAddUp | src/report.rs:325 | adding up times loses less than a nanosecond a sample |
| MachineInts.WrapIsModular | src/report.rs:325 | overflow changes a count or a time by a multiple of 2^64, nothing else |
| MachineInts.Wrap32IsModular | src/profiler.rs:553 | overflow changes the sample counter by a multiple of 2^32, nothing else |
| MachineInts.TruncDivMeaning | src/report.rs:325 | division truncates toward zero |
| ThreadNames.NameLength | src/profiler.rs:224-230 | the least length, at most the buffer's, whose power of ten reaches the id |
| ThreadNames.MeasureName | src/profiler.rs:224-230 | the first loop computes it together with its power of ten |
| ThreadNames.WriteThreadNameFallback | src/profiler.rs:223-246 | the loops write the numeral of the id modulo that power and leave the rest of the buffer alone, so a zeroed buffer becomes the digits padded with terminators |
| ThreadNames.FallbackDigits | src/profiler.rs:232-245 | the digits are those of the id, the most significant first |
| ThreadNames.FallbackDecodes | src/profiler.rs:223-246 | the digits written decode to the id exactly if it is positive, has at most sixteen digits and is not a power of ten |
| CStrings.CString | src/profiler.rs:411 | a C string is what stands before the first terminator, and there is none without a terminator |
| CStrings.CStringAppend | src/profiler.rs:411 | reading goes on behind a buffer exactly if there is no terminator in it |
| ThreadNames.TerminatedIff | src/profiler.rs:405-412 | read from the zeroed buffer, the name is the digits written exactly if the id is at most 10^15; for any larger id the buffer has no terminator |
| ThreadNames.UnterminatedName | src/profiler.rs:405-412 | an id for which that happens |
| ThreadNames.LabelIsId | src/frames.rs:194-200 | the label of an unnamed thread can be read and is its id exactly if the id is at most one, or at most 10^15 and not a power of ten |
| ThreadNames.TenIsLabelledZero | src/frames.rs:194-200 | thread 10 is labelled 0 |

## Left out

- Collector.Collector.TryIter: claims exactness only for a file that the last clear left empty and rewound (`Spill.ReadableAfterClearIff` says why); what is listed otherwise is stated in terms of the file.
- Spill.TempFdArray.TryIter: the same; each of truncating, seeking, reopening and reading either succeeds or fails as a whole, and only writes are cut short at any byte.
- Spill.ReadsBackIff: leaves open a file cut inside its first record and then not cleared, where it depends on the layout of the records whether later blocks are read back wrong.
- Counter.HashCounter.Add: asks for the placement that every run of adds keeps (`CounterRuns.Replay`); the collector's invariant supplies it.
- SampleImage.CountedSamplesRoundTrip: covers every placement of the bytes of a record, but not the alignment that reading it in place asks for.
- Protocol.Reachable: concerns a profiler that could be created; one that could not is covered by `Guard.Build`, `Guard.ProfilerGuard.Drop` and the report builders.
- Pprof.WriteProfile: excludes the two divisions that panic (frequency 0; the least i64 by minus one); fields that the program leaves at their defaults are not represented.
- Handler.PerfSignalHandler: asks for a terminator somewhere behind the name, as reading a C string does; `pthread_getname_np` and errno protection are not modelled.
- Validator.OccupancyBound: the pipe is open throughout and counts bytes; several callers reopening it at once are not modelled.
- Guarantees.Progress: concerns deadlock only; fairness of the spin lock is not modelled.
- Guarantees.HandlerIsBounded: counts protocol steps; interrupted system calls are retried as often as they are interrupted (`Validator.Drain`, `Validator.Probe`).
- Reports are rows in insertion order instead of hash maps; profile and folded lines are proved for rows in every order.
- The post-processor is a pure function of the resolved backtrace.
- Debug builds, where overflowing additions panic.
- Register extraction, `sigaction`, `setitimer` and the alternate signal stack, beyond disposition, armed interval and the two addresses read.
- How a blocklist is computed from loaded libraries; the other unwinders; perf map files; criterion integration; display of errors.
- Demangling, UTF-8 decoding, SVG rendering and the protobuf wire format.
- Absence of allocation in the handler, and memory ordering within the lock.
