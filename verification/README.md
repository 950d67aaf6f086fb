# Verified model of the KernMLOps collectors and analyses

KernMLOps collects kernel and application traces, intervenes on transparent huge pages, and
turns the collected tables into decision data. This project models the parts of it that are
state machines or have a fast form standing for a simple one, and proves what they promise.

| file | models |
|---|---|
| `SchedQuanta.dfy` | the scheduler-quanta probes: two per-pid timestamp maps, the intervals they report, and how those tile CPU time |
| `IdleBitmap.dfy`, `IdleMarking.dfy` | the kernel's idle-page bitmap, with short and failing reads and writes, and what it takes to set bits in it |
| `TrackIdle.dfy`, `PageFlags.dfy` | the stand-alone idle poller, which moves runs of consecutive words, and its batched read of page flags |
| `PageAccess.dfy` | the page-access tracker: resolving addresses, compound pages, arming and reading |
| `Vaptr.dfy` | the VAPTR sampling hook on top of the tracker |
| `Collect.dfy`, `CollectHooks.dfy`, `ChunkLoader.dfy` | the three-thread collection pipeline for one hook and for any number of hooks, and the loader that puts its chunk files back in order |
| `FStore.dfy` | the kernel feature store: buckets, counter and reference counts |
| `Replay.dfy` | breakpoint generation and the trace replay that honours it |
| `BlockIo.dfy` | block-IO queue accounting |
| `ThpIntervention.dfy`, `ThpSightings.dfy`, `ThpRows.dfy`, `AgeBuckets.dfy` | the THP intervention hook, what it records by the history of its polls, its rows while they are popped, and the age buckets |
| `Counters.dfy`, `Matching.dfy` | counter windows, decision labels and matching |
| `Fnv.dfy` | YCSB key hashing and key names |
| `ConfigMerge.dfy` | merging overrides into a configuration |
| `Sums.dfy`, `Decimal.dfy`, `Wrappers.dfy` | totals over maps, decimal numerals, `Option` and `Result` |

Code that updates state is modelled by classes and loops. Each method is proved against a
specification on values, and the main results are lemmas about that specification over every
reachable state or every run. Probes and calls into the feature store are one atomic step
each; the threads of the collection pipeline interleave at every append, `data()`, `clear()`
and write, and those of the THP hook at every row recorded and every table read or cleared.

Some statements one might expect are not true of the code. There the exact condition is
proved:

- A switch from a pid to itself loses the pid's start stamp, so `run_start` is the set of
  running pids, and run time tiles CPU time, only apart from self-switches
  (`RunStartIsRunningIff`, `RunTimeTilesIff`; a failing run in `SelfSwitchLosesStamp`,
  `SelfSwitchLosesTime`). Linux switches context only between different tasks, so a
  self-switch is an input of the probe's interface that a stock scheduler does not send;
  there `RunsTileCpu` is what holds.
- An access bit tells whether a frame was accessed since its latest arming unless an arming
  that raised at a later word has set the bit again since (`TellsSinceArmedIff`; a failing
  run with frames 5 and 70 in `FaultCoversAccess`).
- An append between `data()` and `clear()`, or an exception after `clear()` and before the
  write, loses samples; nothing else does (`LoadedIsAllIff`, `LateAppendIsLost`). All hooks
  are popped before the first file is written, so an exception at one hook drops what the
  hooks before it handed over (`AllHooksLoadAllIff`, `RaiseDrops`, `OtherHookDrops`).
- A row of the THP hook is lost when it is recorded between the read and the clearing of its
  table, and only then (`RowsConservedIff`, `PollsConservedIff`).
- A failed array start keeps its reference (`ArrayStartOutcome`), and an array put without a
  start drops the table's own (`UnmatchedPutDangles`).
- Issuing a second request with the device and sector of a tracked one, or a 1025th, puts a
  device's queue lengths off, and so does a completion with other blocks or segments than
  were issued (`IssueBalancedIff`, `CompleteBalancedIff`, `AlwaysBalancedIff`,
  `SameSectorCountsTwice`).
- With failing commands a key can be broken more than once (`BrokenOnceIff`,
  `FailedAccessBreaksTwice`).
- Merging an override again is refused when the override holds a configuration object
  (`MergeTwiceIff`, `SecondMergeRefused`). Such an override reaches `merge` only through its
  own interface: the command line passes what a YAML file holds, which is plain
  (python/kernmlops/cli/__init__.py:77-78).

A look-up in the feature store takes a reference on every node of a bucket and drops one. It
would not be neutral on a bucket of two nodes (`GetNeutralIff`), but no reachable store has
one, so it always is (`GetOnRegistry`, `RegistryHolds`).

Where the code and its documentation differ, the model follows the code: `replay` returns the
number of successful commands that have a key, while its documentation says the number of
commands replayed; a breakpoint equal to the access count never fires either, while
`generate_combinations` names only count + 1 as the value that never breaks. In a poll with
nothing pending, the VAPTR hook reports the batch it fetches at once, unread, and the next
poll reports it again. The candidate an intervention names was sampled in the same poll, but
its region need not be the region split.

## Model

| member | source | states |
|---|---|---|
| `SchedQuanta.QuantaTracker.TraceWakeUpNewTask` | python/kernmlops/data_collection/bpf_instrumentation/bpf/sched_quanta_runtime.bpf.c:28-34 | A new task is stamped as queued, pid 0 included; the stamp replaces any older one. |
| `SchedQuanta.QuantaTracker.TraceTtwuDoWakeup` | python/kernmlops/data_collection/bpf_instrumentation/bpf/sched_quanta_runtime.bpf.c:40-52 | A woken task other than pid 0 is stamped as queued. |
| `SchedQuanta.QuantaTracker.TraceRun` | python/kernmlops/data_collection/bpf_instrumentation/bpf/sched_quanta_runtime.bpf.c:62-116 | A switch first handles the task switched in, then the one switched out; both maps, both event streams and the intervals they stand for are the specification step. |
| `SchedQuanta.StampsAreLastMarks` | python/kernmlops/data_collection/bpf_instrumentation/bpf/sched_quanta_runtime.bpf.c:28-116 | Over every history, a map entry exists exactly when the pid has been switched in (made runnable) and not since switched out (in), and holds the time of the latest such event. |
| `SchedQuanta.LogIsHistory` | python/kernmlops/data_collection/bpf_instrumentation/bpf/sched_quanta_runtime.bpf.c:62-116 | The intervals submitted are exactly those that the event history determines, without reference to the maps. |
| `SchedQuanta.StepConsistent` | python/kernmlops/data_collection/bpf_instrumentation/bpf/sched_quanta_runtime.bpf.c:28-116 | Every probe keeps: intervals of one pid disjoint and in time order, and every stamp at or after the end of that pid's last interval. |
| `SchedQuanta.IntervalsNeverOverlap` | python/kernmlops/data_collection/bpf_instrumentation/bpf/sched_quanta_runtime.bpf.c:28-116 | In every run with a nondecreasing clock, whatever the order of the probes, the run and queue intervals of one pid never overlap and come in time order. |
| `SchedQuanta.NoUnderflow` | python/kernmlops/data_collection/bpf_instrumentation/bpf/sched_quanta_runtime.bpf.c:62-116 | No reported length comes from a wrapped 64-bit subtraction. |
| `SchedQuanta.RecordsHoldIntervals` | python/kernmlops/data_collection/bpf_instrumentation/bpf/sched_quanta_runtime.bpf.c:79-83 | Record k of each stream is about the k-th interval of its kind that the history determines: its pid and tgid, its end in whole microseconds, and a length l with 1000 l <= to - from < 1000 (l + 1) as long as that fits 32 bits. |
| `SchedQuanta.RecordHolds` | python/kernmlops/data_collection/bpf_instrumentation/bpf/sched_quanta_runtime.bpf.c:106-110 | The same of the records any history gives, one for each interval and no more. |
| `SchedQuanta.ReportedAtLeastMeasured` | python/kernmlops/data_collection/bpf_instrumentation/bpf/sched_quanta_runtime.bpf.c:62-116 | The records of a pid miss less than one microsecond each of the time measured for it, while each length fits its field. |
| `SchedQuanta.IdleStamps` | python/kernmlops/data_collection/bpf_instrumentation/bpf/sched_quanta_runtime.bpf.c:28-116 | Pid 0 is never in run_start, and is queued exactly since its latest creation. |
| `SchedQuanta.ReportedWithin` | python/kernmlops/data_collection/bpf_instrumentation/bpf/sched_quanta_runtime.bpf.c:62-116 | Lengths reported for a pid over ordered intervals fit between the bounds of those intervals, whole microseconds and 32-bit truncation included. |
| `SchedQuanta.ReportedAtMostElapsed` | python/kernmlops/data_collection/bpf_instrumentation/bpf/sched_quanta_runtime.bpf.c:62-116 | The microseconds of all records of one pid, running and queued together, are at most the elapsed ones. |
| `SchedQuanta.OneCpuEach` | python/kernmlops/data_collection/bpf_instrumentation/bpf/sched_quanta_runtime.bpf.c:62-116 | On a well-formed multi-CPU schedule only the idle task is current on two CPUs. |
| `SchedQuanta.RunStartIsEntered` | python/kernmlops/data_collection/bpf_instrumentation/bpf/sched_quanta_runtime.bpf.c:62-116 | run_start holds exactly the pids that entered their CPU at its latest switch from somebody else, each with that switch's time. |
| `SchedQuanta.RunStartIsRunningIff` | python/kernmlops/data_collection/bpf_instrumentation/bpf/sched_quanta_runtime.bpf.c:62-116 | run_start is exactly the set of running non-idle pids switched in since tracing began if and only if no CPU's latest switch was from a non-idle pid to itself. |
| `SchedQuanta.SelfSwitchLosesStamp` | python/kernmlops/data_collection/bpf_instrumentation/bpf/sched_quanta_runtime.bpf.c:62-116 | A concrete well-formed run with a self-switch after which a running pid has no stamp. |
| `SchedQuanta.SpansCoverTime` | python/kernmlops/data_collection/bpf_instrumentation/bpf/sched_quanta_runtime.bpf.c:62-116 | The stretches between consecutive switches on a CPU (idle, measured, lost) add up to the time between its first and last switch. |
| `SchedQuanta.RunAtSwitch` | python/kernmlops/data_collection/bpf_instrumentation/bpf/sched_quanta_runtime.bpf.c:62-116 | What one switch adds to its CPU's run intervals. |
| `SchedQuanta.RunsTileCpu` | python/kernmlops/data_collection/bpf_instrumentation/bpf/sched_quanta_runtime.bpf.c:62-116 | Without self-switches, a CPU's run intervals are one for one, in order, the non-idle stretches between its consecutive switches. |
| `SchedQuanta.SpansGain` | python/kernmlops/data_collection/bpf_instrumentation/bpf/sched_quanta_runtime.bpf.c:62-116 | A switch adds to the measured stretches the one it closes, unless a self-switch bounds it. |
| `SchedQuanta.RunsGain` | python/kernmlops/data_collection/bpf_instrumentation/bpf/sched_quanta_runtime.bpf.c:62-116 | It adds the same time to the CPU's run intervals. |
| `SchedQuanta.RunTimeIsMeasured` | python/kernmlops/data_collection/bpf_instrumentation/bpf/sched_quanta_runtime.bpf.c:62-116 | With or without self-switches, the run time reported on a CPU is the length of its measured stretches. |
| `SchedQuanta.RunTimeTilesIff` | python/kernmlops/data_collection/bpf_instrumentation/bpf/sched_quanta_runtime.bpf.c:62-116 | Reported run time plus idle time is all the time between a CPU's first and last switch if and only if no time is lost next to a self-switch. |
| `SchedQuanta.SelfSwitchLosesTime` | python/kernmlops/data_collection/bpf_instrumentation/bpf/sched_quanta_runtime.bpf.c:62-116 | In the same concrete run all ten nanoseconds between the two switches are lost. |
| `IdleBitmap.MarkAllSetsListed` | python/kernmlops/data_collection/track_idle_accesses.py:157-188 | After marking, a frame in the bitmap is idle exactly when it was idle or is listed. |
| `IdleBitmap.TouchAllClearsListed` | python/kernmlops/data_collection/track_idle_accesses.py:227-238 | Accesses clear exactly the bits of the frames accessed. |
| `IdleBitmap.FrameBit` | python/kernmlops/data_collection/page_access.py:51-53 | A frame is bit p mod 64 of the 64-bit word at byte 8 (p div 64). |
| `IdleBitmap.IdleFile.Pwrite` | python/kernmlops/data_collection/track_idle_accesses.py:184-187 | A write ORs whole words into the bitmap, all of them or, when it comes back short, the leading ones; it fails when the call fails or starts past the end, and then changes nothing. |
| `IdleBitmap.IdleFile.Pread` | python/kernmlops/data_collection/page_access.py:260-267 | A read returns whole words of the bitmap from its offset on, possibly fewer than asked for. |
| `IdleMarking.WroteAllMarksAll` | python/kernmlops/data_collection/track_idle_accesses.py:157-188 | Writing every listed word once gives the old bitmap ORed with exactly the listed bits. |
| `IdleMarking.RunWrites` | python/kernmlops/data_collection/track_idle_accesses.py:173-186 | One system call for a run of consecutive words ORs the listed bits into exactly those words. |
| `IdleMarking.RunPartWrites` | python/kernmlops/data_collection/track_idle_accesses.py:173-187 | A short call writes the leading words of its run and no others. |
| `IdleMarking.MarkedStep` | python/kernmlops/data_collection/track_idle_accesses.py:166-188 | A finished run extends the part of the word list that is done, no word being written twice. |
| `TrackIdle.RunEnd` | python/kernmlops/data_collection/track_idle_accesses.py:168-171 | Finds the longest run of consecutive words from an index. |
| `TrackIdle.MaskByWord` | python/kernmlops/data_collection/track_idle_accesses.py:160-164 | The mask of a word is the set of its listed bits. |
| `TrackIdle.MarkRun` | python/kernmlops/data_collection/track_idle_accesses.py:173-187 | One call per run; a failed or short call leaves words of its run unwritten and touches nothing else. |
| `TrackIdle.MarkNextRun` | python/kernmlops/data_collection/track_idle_accesses.py:165-188 | One round writes the next run and leaves the words before it done. |
| `TrackIdle.MarkPfnsIdle` | python/kernmlops/data_collection/track_idle_accesses.py:157-188 | Whatever fails, the words written are written once each, in ascending order, with exactly the listed bits; without faults the result is the old bitmap ORed with exactly the listed bits. |
| `TrackIdle.GroupPfnsByWord` | python/kernmlops/data_collection/track_idle_accesses.py:146-154 | Groups by word hold exactly the listed frames of that word; words come in ascending order. |
| `TrackIdle.ClearInRun` | python/kernmlops/data_collection/track_idle_accesses.py:212-224 | Among the words actually returned, finds exactly the listed frames whose bit is clear. |
| `TrackIdle.CheckRun` | python/kernmlops/data_collection/track_idle_accesses.py:201-224 | One read per run; a failed or short read drops whole words only. |
| `TrackIdle.CheckPfnsAccessed` | python/kernmlops/data_collection/track_idle_accesses.py:191-224 | Returns exactly the listed frames whose bit is clear when all reads are full, and only such frames when reads fail or are short. |
| `TrackIdle.TouchedIsClear` | python/kernmlops/data_collection/track_idle_accesses.py:227-244 | After marking, a listed frame's bit is clear exactly when the frame was touched since. |
| `TrackIdle.Poller.PollOnce` | python/kernmlops/data_collection/track_idle_accesses.py:227-244 | One poll reports only frames whose bit is clear, and, without faults, exactly the listed frames touched between mark and check. |
| `TrackIdle.Poller.CountAccessed` | python/kernmlops/data_collection/track_idle_accesses.py:240-243 | Counting a poll keeps the counts equal to per-frame hits. |
| `TrackIdle.BumpAll` | python/kernmlops/data_collection/track_idle_accesses.py:240-243 | Each accessed frame is counted once more. |
| `TrackIdle.BumpTallies` | python/kernmlops/data_collection/track_idle_accesses.py:240-243 | One increment keeps counts equal to hits and their total equal to the reported n_accessed so far. |
| `TrackIdle.PollTallies` | python/kernmlops/data_collection/track_idle_accesses.py:240-244 | Over all polls the access counts sum to the reported n_accessed totals. |
| `PageFlags.SortPfns` | python/kernmlops/data_collection/track_idle_accesses.py:252 | The sorted list holds the same frames, each as often as listed. |
| `PageFlags.OneMoreRun` | python/kernmlops/data_collection/track_idle_accesses.py:254-258 | A run read to its end is one more run of the sorted list. |
| `PageFlags.RunsAreGaps` | python/kernmlops/data_collection/track_idle_accesses.py:252-258 | For frames listed once each, there are as many runs as listed frames whose predecessor is not listed. |
| `PageFlags.FlagsFile.Pread` | python/kernmlops/data_collection/track_idle_accesses.py:260-267 | A read returns whole flag words from its offset on, possibly fewer than asked for. |
| `PageFlags.ReadRun` | python/kernmlops/data_collection/track_idle_accesses.py:259-271 | One read per run; each word returned is the flags of its own frame, and a failed or short read drops frames of the run only. |
| `PageFlags.ReadNextRun` | python/kernmlops/data_collection/track_idle_accesses.py:254-272 | One round reads the next run and keeps every frame before it read. |
| `PageFlags.ReadKpageflagsBatch` | python/kernmlops/data_collection/track_idle_accesses.py:247-273 | With one call per run, repeated frames included, the result equals reading every listed frame that exists by itself when all reads are full, and in every case holds only listed frames, each with its own flags. |
| `PageAccess.NormalizeTrackingPfn` | python/kernmlops/data_collection/page_access.py:246-258 | Walks back over tail pages to the head; a frame without flags is a short read. |
| `PageAccess.WalkBackFindsHead` | python/kernmlops/data_collection/page_access.py:246-258 | From a tail of a well-formed compound page the walk ends at that page's head. |
| `PageAccess.CompoundTracksHead` | python/kernmlops/data_collection/page_access.py:246-258 | All pages of a compound page are tracked through its head. |
| `PageAccess.TrackingIdempotent` | python/kernmlops/data_collection/page_access.py:246-258 | Normalizing a tracking frame again changes nothing. |
| `PageAccess.TrackingSameIff` | python/kernmlops/data_collection/page_access.py:246-258 | Two frames have one tracking frame exactly when they are the same page or in the same compound page. |
| `PageAccess.TrackingIsHeadBelow` | python/kernmlops/data_collection/page_access.py:246-258 | Whatever the flags, a frame is tracked through the head right below its tails (bit 15 above bits 16), if there is one, and by itself otherwise. |
| `PageAccess.ReadMappedPfn` | python/kernmlops/data_collection/page_access.py:200-212 | Negative address, missing process and short read are errors; an absent page is no frame; otherwise the entry's low 55 bits. |
| `PageAccess.EntryDecodes` | python/kernmlops/data_collection/page_access.py:45-48 | An entry made of the present bit, other flags and a frame number gives the frame back exactly when present. |
| `PageAccess.ResolveRequest` | python/kernmlops/data_collection/page_access.py:178-198 | Resolution succeeds exactly when the pagemap entry and the flags of its frame are readable, and gives the request's own page, frame, tracking frame and both addresses. |
| `PageAccess.RequestResolves` | python/kernmlops/data_collection/page_access.py:178-212 | For an entry made so at the address's own page number: the frame, its tracking frame, and both physical addresses; none when not present; a short read when the frame has no flags. |
| `PageAccess.RequestRaises` | python/kernmlops/data_collection/page_access.py:178-212 | A negative address, an unknown process and a short pagemap read each raise their own error. |
| `PageAccess.ResolveMany` | python/kernmlops/data_collection/page_access.py:100-104 | All requests resolve, in order, or the first failing request's error is raised. |
| `PageAccess.IdleBitmapOffsetAndMask` | python/kernmlops/data_collection/page_access.py:51-53 | The offset is that of the frame's own 64-bit word, and the mask picks exactly that frame out of the word. |
| `PageAccess.GroupMasks` | python/kernmlops/data_collection/page_access.py:270-274 | The mask of a word is the set of its listed bits. |
| `PageAccess.WriteWord` | python/kernmlops/data_collection/page_access.py:276-278 | One write of one word, whole or not at all. |
| `PageAccess.MarkWord` | python/kernmlops/data_collection/page_access.py:275-279 | A word written extends the part that is done; an error leaves the bitmap alone. |
| `PageAccess.MarkInOrder` | python/kernmlops/data_collection/page_access.py:276-279 | Words are written in ascending order until one write fails; exactly the words before it are written, and it succeeds exactly when all are. |
| `PageAccess.MarkIdlePfns` | python/kernmlops/data_collection/page_access.py:269-279 | One write per word, ascending; a call that raises has written exactly the listed words before the failed one. Without faults it succeeds exactly when all frames are in the bitmap, and the bitmap is the old one ORed with exactly the listed bits, as for the run-coalesced writer. |
| `PageAccess.MarkAllIsMarkSet` | python/kernmlops/data_collection/page_access.py:269-279 | Marking depends only on the set of frames listed. |
| `PageAccess.StoppedIsMarkBelow` | python/kernmlops/data_collection/page_access.py:269-279 | So does marking that stops at a word: the words before it, by the set of frames listed. |
| `PageAccess.MarkSetSetsListed` | python/kernmlops/data_collection/page_access.py:269-279 | Marking a set makes exactly its frames idle and leaves the rest alone. |
| `PageAccess.MarkBelowSetsWritten` | python/kernmlops/data_collection/page_access.py:269-279 | A call stopped at a word makes exactly its frames in the words before it idle. |
| `PageAccess.StoppedPastEnd` | python/kernmlops/data_collection/page_access.py:269-279 | A write stopped by the end of the bitmap has already marked every frame that exists. |
| `PageAccess.PageAccessTracker.ReadMany` | python/kernmlops/data_collection/page_access.py:106-120 | Reads each armed frame of the batch once, however many requests share it, and gives each page its own frame's bit; fails only on a fault or a frame outside the bitmap. |
| `PageAccess.PfnsAreTracked` | python/kernmlops/data_collection/page_access.py:106-135 | The frames of a batch are the tracking frames of its pages. |
| `PageAccess.PageAccessTracker.ReadPageIdle` | python/kernmlops/data_collection/page_access.py:260-267 | The frame's bit, or a short read exactly when the frame is outside the bitmap. |
| `PageAccess.PageAccessTracker.ResultFromResolved` | python/kernmlops/data_collection/page_access.py:146-176 | Valid exactly for a frame that was read; the access bit is then the negated idle bit. |
| `PageAccess.PageAccessTracker.ArmMany` | python/kernmlops/data_collection/page_access.py:122-135 | Sets the batch's bits, each word once in ascending order, and adds its frames to the armed ones; a call that raises at one of its words has set exactly the bits of the words before it and arms nothing. |
| `PageAccess.PageAccessTracker.SampleMany` | python/kernmlops/data_collection/page_access.py:137-144 | Results are read before the same batch is armed again, wholly or, if a write raises, in exactly the words before it; a failed resolution or read changes nothing. |
| `PageAccess.StepMarks` | python/kernmlops/data_collection/page_access.py:106-135 | A step sets exactly the bits its call marks, clears the one accessed, and leaves the rest. |
| `PageAccess.RunTracksHistory` | python/kernmlops/data_collection/page_access.py:106-135 | Over every run mixing tracker calls, failing ones included, and accesses, a frame is armed exactly when some earlier call armed it, and its bit is set exactly when it was not accessed since its bit was last set. |
| `PageAccess.ResultsTellAccess` | python/kernmlops/data_collection/page_access.py:106-176 | A result is valid exactly when its tracking frame was armed by an earlier call; the access bit is then true exactly when the frame was accessed since its bit was last set. |
| `PageAccess.CoveredIff` | python/kernmlops/data_collection/page_access.py:122-135 | An access since the latest arming goes unseen exactly when a call that then raised set the bit again and no access followed. |
| `PageAccess.TellsSinceArmedIff` | python/kernmlops/data_collection/page_access.py:106-176 | A valid access bit says whether the frame was accessed since its latest arming if and only if no such access was covered up by a call that raised. |
| `PageAccess.FaultCoversAccess` | python/kernmlops/data_collection/page_access.py:122-135 | A concrete run that the write loop allows: frame 5 is armed and accessed, an arming of frames 5 and 70 writes word 0 and raises at word 1, and frame 5 reads as not accessed. |
| `PageAccess.BatchAgrees` | python/kernmlops/data_collection/page_access.py:106-120 | Requests of a batch that share a tracking frame get the same answer, and no read of a reachable tracker is short. |
| `Vaptr.VAPtrHook.GetRedisPid` | python/kernmlops/data_collection/bpf_instrumentation/vaptr_hook.py:163-170 | The remembered process while it is alive, else a fresh discovery, which is remembered. |
| `Vaptr.VAPtrHook.TryResolve` | python/kernmlops/data_collection/bpf_instrumentation/vaptr_hook.py:178-190 | One try resolves all addresses for one process or forgets the process. |
| `Vaptr.VAPtrHook.ResolvePageAccess` | python/kernmlops/data_collection/bpf_instrumentation/vaptr_hook.py:172-205 | A failed resolution is tried once more with a newly discovered process; pages come back in the order of the addresses, or all missing. |
| `Vaptr.AnsweringIs` | python/kernmlops/data_collection/bpf_instrumentation/vaptr_hook.py:172-205 | Who answers a batch: the first process when it resolves all addresses, else the one found by looking again when that one does, else nobody. |
| `Vaptr.AddressesAsked` | python/kernmlops/data_collection/bpf_instrumentation/vaptr_hook.py:301-304 | The addresses asked for are those of the available samples. |
| `Vaptr.VAPtrHook.ListRequests` | python/kernmlops/data_collection/bpf_instrumentation/vaptr_hook.py:301-304 | Index list and address list stay aligned and name exactly the available samples. |
| `Vaptr.VAPtrHook.PreparePendingSamples` | python/kernmlops/data_collection/bpf_instrumentation/vaptr_hook.py:297-329 | Each sample is given the page of its own address, whatever samples without an address stand between. |
| `Vaptr.BatchPages` | python/kernmlops/data_collection/bpf_instrumentation/vaptr_hook.py:172-205 | Each prepared sample keeps its own key and address; it has a page exactly when it is available and a process answered, and that page resolves its own address. |
| `Vaptr.VAPtrHook.ParseVaptrOutput` | python/kernmlops/data_collection/bpf_instrumentation/vaptr_hook.py:267-295 | Line pairs become samples in order; an address that does not parse is unavailable, one that parses is rounded down to its page. |
| `Vaptr.SampleSays` | python/kernmlops/data_collection/bpf_instrumentation/vaptr_hook.py:267-295 | Sample k is of lines 2k and 2k+1: available exactly when the second starts with "0x" and parses, and then its page starts at the multiple of the page size that the parsed value lies at or less than a page above. |
| `Vaptr.VAPtrHook.AppendResults` | python/kernmlops/data_collection/bpf_instrumentation/vaptr_hook.py:252-265 | The result iterator advances only for samples with a page, so every row is built from its own sample's result. |
| `Vaptr.VAPtrHook.RecordPendingSamples` | python/kernmlops/data_collection/bpf_instrumentation/vaptr_hook.py:242-265 | Appends one row per pending sample, in order; a read that raises appends none. |
| `Vaptr.RowAt` | python/kernmlops/data_collection/bpf_instrumentation/vaptr_hook.py:252-265 | Sample i is answered by the result at the index that counts the pages before it, or by none. |
| `Vaptr.PagesOfPrefix` | python/kernmlops/data_collection/bpf_instrumentation/vaptr_hook.py:246-251 | The k-th sample with a page is answered at the index counting the pages before it. |
| `Vaptr.PageInBatch` | python/kernmlops/data_collection/bpf_instrumentation/vaptr_hook.py:331-337 | The pages armed are exactly those the batch's samples carry. |
| `Vaptr.VAPtrHook.FetchBatch` | python/kernmlops/data_collection/bpf_instrumentation/vaptr_hook.py:350-385 | No batch unless the reply is usable; else the batch of exactly the samples the reply holds. |
| `Vaptr.FetchedSize` | python/kernmlops/data_collection/bpf_instrumentation/vaptr_hook.py:350-385 | The batch has one sample for every two lines of a reply that reports success and is no refusal from a server not yet seen to know the command, and none otherwise. |
| `Vaptr.VAPtrHook.ArmPendingSamples` | python/kernmlops/data_collection/bpf_instrumentation/vaptr_hook.py:331-337 | Arms exactly the pages of the batch. |
| `Vaptr.VAPtrHook.AppendUnread` | python/kernmlops/data_collection/bpf_instrumentation/vaptr_hook.py:384-392 | A fresh batch is reported without results, in order. |
| `Vaptr.VAPtrHook.Poll` | python/kernmlops/data_collection/bpf_instrumentation/vaptr_hook.py:339-392 | One poll: read back the pending batch, then fetch, arm and keep the new one; the new batch is also reported unread when nothing was pending. |
| `Vaptr.KeyedIff` | python/kernmlops/data_collection/bpf_instrumentation/vaptr_hook.py:339-349 | The hook has keys when it was given some or a poll found some. |
| `Vaptr.VerifiedIff` | python/kernmlops/data_collection/bpf_instrumentation/vaptr_hook.py:350-370 | The command counts as known exactly when some earlier poll saw it work. |
| `Vaptr.RememberedPid` | python/kernmlops/data_collection/bpf_instrumentation/vaptr_hook.py:172-205 | The process remembered after a poll is the one that answered, none when nobody did. |
| `Vaptr.LatestBatchArmed` | python/kernmlops/data_collection/bpf_instrumentation/vaptr_hook.py:339-392 | Between polls, the pending batch is the latest one fetched, its frames are armed, and each is idle unless touched since. |
| `Vaptr.ReadBackIsTrue` | python/kernmlops/data_collection/bpf_instrumentation/vaptr_hook.py:242-265 | A row read back carries its own page's data and whether that page was touched since the previous poll. |
| `Vaptr.RowsAreExpected` | python/kernmlops/data_collection/bpf_instrumentation/vaptr_hook.py:242-265 | Over every sequence of polls that do not raise and accesses between them, the recorded rows are exactly the expected ones: each armed batch is read back once, at the next poll, before any new page is armed. |
| `Vaptr.PendingWasFetched` | python/kernmlops/data_collection/bpf_instrumentation/vaptr_hook.py:339-392 | The batch awaiting its read is what some poll fetched from what it met. |
| `Vaptr.RowsOwnTheirPages` | python/kernmlops/data_collection/bpf_instrumentation/vaptr_hook.py:172-392 | Over everything the hook can meet, every recorded row has the key and address of two lines of a reply that some poll met, and the page data of the page that the parsed value of this address lies in, for the process that answered. |
| `Vaptr.ValidRowsWereArmed` | python/kernmlops/data_collection/bpf_instrumentation/vaptr_hook.py:339-392 | Every valid row refers to a frame armed in a strictly earlier poll, with no poll in between, and its access bit says whether the frame was touched between the two. |
| `ChunkLoader.FileNameRoundTrip` | python/kernmlops/data_schema/schema.py:255-263 | The name written for a chunk is read back as its table and its place in chunk order. |
| `ChunkLoader.SortKeyIs` | python/kernmlops/data_schema/schema.py:255-263 | Any name with two dots sorts by the piece before its suffix, if that is "end" or all digits, and by the whole name otherwise. |
| `ChunkLoader.ShortNameKey` | python/kernmlops/data_schema/schema.py:255-263 | A name with fewer dots sorts by itself. |
| `ChunkLoader.LexLessIff` | python/kernmlops/data_schema/schema.py:272 | Names are compared at the first place they differ, and a prefix comes first. |
| `ChunkLoader.SplitAtDot` | python/kernmlops/data_schema/schema.py:256-258 | Splitting at dots takes a dot-free first part off exactly. |
| `ChunkLoader.InsertOrdered` | python/kernmlops/data_schema/schema.py:272 | Stable insertion keeps the order of any names that can be compared. |
| `ChunkLoader.SortedIsOrdered` | python/kernmlops/data_schema/schema.py:272 | Sorting puts any names that can be compared in order: by number or by name, the end chunk last. |
| `ChunkLoader.SortedIsDistinct` | python/kernmlops/data_schema/schema.py:272 | Sorting duplicates no file. |
| `ChunkLoader.LoadRunDir` | python/kernmlops/data_schema/schema.py:270-285 | Each known table is the concatenation of its files in sort order; sorting fails exactly when a numbered and an unnumbered name meet. |
| `ChunkLoader.GroupByTable` | python/kernmlops/data_schema/schema.py:271-275 | Files are grouped by table in sort order; unknown tables are skipped. |
| `ChunkLoader.ConcatRows` | python/kernmlops/data_schema/schema.py:278-282 | Rows are concatenated in file order. |
| `ChunkLoader.OrderedRows` | python/kernmlops/data_schema/schema.py:278-282 | Files in chunk order concatenate to the chunks in number order, then the end chunk. |
| `ChunkLoader.LoadIsChunkOrder` | python/kernmlops/data_schema/schema.py:255-285 | However the directory is listed, a table's rows come back in chunk order. |
| `Collect.Collector.Poll` | python/kernmlops/cli/collect.py:38-55 | One append to the shared buffer. |
| `Collect.Collector.Data` | python/kernmlops/data_collection/bpf_instrumentation/thp_intervention_hook.py:507-509 | data() is a snapshot of the buffer. |
| `Collect.Collector.ClearBuffer` | python/kernmlops/data_collection/bpf_instrumentation/thp_intervention_hook.py:501-509 | clear() empties the buffer, whatever was appended since the snapshot. |
| `Collect.Collector.WriteParquet` | python/kernmlops/cli/collect.py:177-189 | Writes the popped samples under the thread's chunk name; nothing popped, no file. |
| `Collect.Collector.PopData` | python/kernmlops/data_collection/bpf_instrumentation/thp_intervention_hook.py:507-510 | Undisturbed, a pop hands over the whole buffer and empties it. |
| `Collect.Collector.OutputCollectionsToFile` | python/kernmlops/cli/collect.py:165-190 | Run undisturbed: what was buffered becomes the chunk; a failed pop leaves the buffer, a failed write loses what was popped, and an exception from the change of owner finds it on disk. |
| `Collect.Collector.OutputRound` | python/kernmlops/cli/collect.py:208-228 | One undisturbed round of the output thread: chunk number used up and lock released even after an exception. |
| `Collect.Collector.FinalPop` | python/kernmlops/cli/collect.py:363-375 | The main thread's last pop becomes the end chunk; an exception leaves the lock held. |
| `Collect.StepConsistent` | python/kernmlops/cli/collect.py:193-228 | Every step of any thread keeps the lock exclusive, chunk numbers unused, no file empty, and the buffer empty after the final pop. |
| `Collect.RunConsistent` | python/kernmlops/cli/collect.py:193-228 | So does every interleaving. |
| `Collect.NumIsRounds` | python/kernmlops/cli/collect.py:208-228 | Chunks are numbered by the rounds completed, those that wrote nothing or raised included. |
| `Collect.OneThreadPops` | python/kernmlops/cli/collect.py:208-226 | In no interleaving are two threads between pop and write at once. |
| `Collect.StepLine` | python/kernmlops/cli/collect.py:165-228 | Samples on disk, in flight and buffered, read in that order, only grow at the end or lose what a clear or an exception drops. |
| `Collect.StepInOrder` | python/kernmlops/cli/collect.py:165-228 | Every step keeps that line in append order without repeats and removes exactly the samples it loses. |
| `Collect.LoadedIsSubsequence` | python/kernmlops/cli/collect.py:165-228 | In every interleaving, loading the chunks gives samples strictly in append order: a subsequence, no sample in two chunks. |
| `Collect.StepAccounted` | python/kernmlops/cli/collect.py:165-228 | A step keeps every sample accounted for exactly when it loses none. |
| `Collect.AccountedIff` | python/kernmlops/cli/collect.py:165-228 | Every sample is accounted for exactly when no step of the run lost one. |
| `Collect.LoadedIsAllIff` | python/kernmlops/cli/collect.py:363-375 | After the final write, and whenever nothing is buffered or in flight, the loaded rows are the whole append order if and only if no append fell between a data() and its clear() and no exception came while popped samples were unwritten; exactly the samples lost that way are missing. |
| `Collect.RunSized` | python/kernmlops/cli/collect.py:165-228 | Buffer, snapshot and popped data always have the sizes that the order of events says. |
| `Collect.StepLosesLosing` | python/kernmlops/data_collection/bpf_instrumentation/thp_intervention_hook.py:507-509 | A clear() loses exactly as many samples as were appended since its data(), an exception exactly as many as were popped and unwritten. |
| `Collect.SamplesAddUp` | python/kernmlops/cli/collect.py:165-228 | In every interleaving, samples on disk, in flight, buffered and lost add up to the samples appended. |
| `Collect.LateAppendIsLost` | python/kernmlops/cli/collect.py:165-228 | A concrete run that ends normally and has lost a sample appended between data() and clear(). |
| `CollectHooks.Collector.Data` | python/kernmlops/cli/collect.py:175-176 | data() of the next hook, kept beside those popped before it. |
| `CollectHooks.Collector.ClearBuffer` | python/kernmlops/cli/collect.py:175-176 | clear() empties the hook just read and no other. |
| `CollectHooks.Collector.WriteParquet` | python/kernmlops/cli/collect.py:177-189 | Writes the next hook's file from what was popped of it. |
| `CollectHooks.Collector.PopAll` | python/kernmlops/cli/collect.py:175-176 | Pops the hooks in order; when one raises, the hooks before it are popped and the others untouched. |
| `CollectHooks.Collector.WriteAll` | python/kernmlops/cli/collect.py:177-189 | Writes the files in hook order up to the exception, the file whose change of owner raises included. |
| `CollectHooks.Collector.OutputCollectionsToFile` | python/kernmlops/cli/collect.py:165-190 | A whole call, wherever an exception stops it: each hook is left popped and written, popped and dropped, or untouched, as its place before or after the exception says. |
| `CollectHooks.StoppedIsCalled` | python/kernmlops/cli/collect.py:165-190 | Stopping the two loops anywhere leaves each hook as that says. |
| `CollectHooks.RunCounted` | python/kernmlops/cli/collect.py:165-228 | One thread holds the lock, and how far it is in its call follows from the events since it took the lock. |
| `CollectHooks.StepSeen` | python/kernmlops/cli/collect.py:165-228 | Each step of the many-hook pipeline is, for one hook, a step of its own pipeline or nothing. |
| `CollectHooks.EachHookRuns` | python/kernmlops/cli/collect.py:165-228 | Every interleaving over any number of hooks is, for each hook, a run of the one-hook pipeline whose history is read off the events alone. |
| `CollectHooks.EachHookLoadsInOrder` | python/kernmlops/cli/collect.py:165-228 | So every hook's files load strictly in append order. |
| `CollectHooks.EachHookLoadsAllIff` | python/kernmlops/cli/collect.py:363-375 | After the final write a hook's rows are all on disk if and only if its own history lost nothing; what is missing is what it lost. |
| `CollectHooks.AllHooksLoadAllIff` | python/kernmlops/cli/collect.py:363-375 | After the final write all rows of all hooks are on disk if and only if no hook was appended to between its data() and clear() and no exception, at whichever hook, came while popped samples of any hook were unwritten. |
| `CollectHooks.RaiseDrops` | python/kernmlops/cli/collect.py:175-189 | An exception drops exactly what was popped and not yet written: hooks written before keep their files, hooks not popped keep their buffers. |
| `CollectHooks.OtherHookDrops` | python/kernmlops/cli/collect.py:175-176 | A concrete run: hook 1 raises when popped and the sample just popped of hook 0 is lost. |
| `FStore.FeatureStore.FstoreRegister` | module/fstore/fstore.c:79-117 | Slot first, then bucket, then map, then memory; every exit undoes what was taken. |
| `FStore.FeatureStore.FstoreDelete` | module/fstore/fstore.c:119-126 | Removes one node, counts down, and drops the node's reference unless it is an error pointer. |
| `FStore.FeatureStore.FstoreUnregister` | module/fstore/fstore.c:133-143 | Deletes every node of the bucket and returns how many. |
| `FStore.FeatureStore.FstoreGet` | module/fstore/fstore.c:148-176 | Takes a reference on every node's map but drops only the last one's; error codes as in the code. |
| `FStore.FeatureStore.FstoreGetMapArrayStart` | module/fstore/fstore.c:178-209 | Takes a reference on the first node's map and keeps it on every later return; the map's array is handed back on success only. |
| `FStore.FeatureStore.FstorePutMapArray` | module/fstore/fstore.c:247-259 | Drops one reference on each map of the bucket and returns how many. |
| `FStore.FeatureStore.CleanupModule` | module/fstore/fstore.c:347-355 | Unloading deletes every node of every bucket. |
| `FStore.FeatureStore.DeleteBucket` | module/fstore/fstore.c:137-140 | Deleting node by node empties the bucket and gives back each node's reference once. |
| `FStore.RegisterOutcome` | module/fstore/fstore.c:79-117 | Registering succeeds exactly with room in the counter, an empty bucket, a map and memory; a failed register changes nothing. |
| `FStore.RegisterOncePerBucket` | module/fstore/fstore.c:87-92 | While one name of a bucket is registered no other name of that bucket can be. |
| `FStore.GetNeutralIff` | module/fstore/fstore.c:148-176 | A look-up leaves all reference counts alone if and only if the bucket has at most one node. |
| `FStore.GetOnRegistry` | module/fstore/fstore.c:148-176 | On every reachable store a look-up is reference-neutral on every path, and its result is that of the bucket's one map. |
| `FStore.ArrayStartOutcome` | module/fstore/fstore.c:178-209 | An array start succeeds, and hands back the registered map's array, exactly for matching type, sizes, entry count and flag; it takes one reference whether or not it succeeds. |
| `FStore.StepRegistry` | module/fstore/fstore.c:79-259 | Every call keeps at most one live node per bucket and the counter equal to the nodes. |
| `FStore.RegistryHolds` | module/fstore/fstore.c:79-259 | After any sequence of calls every bucket holds at most one node, number_maps is the node count, and it is at most 255. |
| `FStore.TableIsHistory` | module/fstore/fstore.c:79-143 | After any sequence of calls a bucket holds the map of its latest accepted registration, unless it was unregistered since; a registration is accepted exactly when fewer than 255 maps are held, none in its bucket, and descriptor and memory are good; number_maps counts the buckets held. |
| `FStore.RepliesAreHistory` | module/fstore/fstore.c:79-259 | After any sequence of calls each call returns the number, error code or map that the history calls for. |
| `FStore.BrokenReplies` | module/fstore/fstore.c:148-259 | A bucket with an error pointer answers -EKEYEXPIRED to look-ups, and an array put returns the number of its live nodes. |
| `FStore.HoldersAreHistory` | module/fstore/fstore.c:79-143 | As many nodes hold a map as buckets hold it by the history. |
| `FStore.StepRefs` | module/fstore/fstore.c:79-259 | A call changes a map's references beyond the nodes' only as an outside get or put, an array start or an array put. |
| `FStore.LedgerBalances` | module/fstore/fstore.c:79-259 | After any sequence of calls each map's reference count is its outside references plus the buckets that hold it plus array starts minus array puts on it, all by the history. |
| `FStore.RegisteredMapStaysReferenced` | module/fstore/fstore.c:79-259 | A registered map keeps a reference as long as outsiders drop no more references than they took and array puts do not outnumber array starts. |
| `FStore.UnmatchedPutDangles` | module/fstore/fstore.c:247-259 | A concrete run: a map is registered through an open descriptor, the descriptor is closed, and one array put without a start leaves the map registered without a reference. |
| `FStore.CleanupReturnsRefs` | module/fstore/fstore.c:347-355 | Unloading returns exactly the nodes' references, bucket by bucket. |
| `FStore.CleanupEmpties` | module/fstore/fstore.c:347-355 | After unloading there are no nodes, the counter is zero, and only outside and array references remain. |
| `Replay.ParseLog` | python/kernmlops/analysis/generate_breakpoints.py:80-99 | Counts exactly the split targets that occur, each with its number of accesses. |
| `Replay.CountsOfNext` | python/kernmlops/analysis/generate_breakpoints.py:84-97 | One more line keeps the counts exact. |
| `Replay.CountsAreLines` | python/kernmlops/analysis/generate_breakpoints.py:80-99 | The keys counted are the second tokens that start with "user", each with the number of lines that have it. |
| `Replay.ComboList.Add` | python/kernmlops/analysis/generate_breakpoints.py:186-189 | Adds a combination unless it is a repeat or the list is full. |
| `Replay.AddValid` | python/kernmlops/analysis/generate_breakpoints.py:186-189 | Adding keeps what is there and all values in range, and grows the list by at most one. |
| `Replay.AddFixed` | python/kernmlops/analysis/generate_breakpoints.py:191-198 | The all-before, all-zero and all-past combinations come first. |
| `Replay.SingleMax` | python/kernmlops/analysis/generate_breakpoints.py:200-206 | Every key at its first access but one, which is past its last. |
| `Replay.Maxima` | python/kernmlops/analysis/generate_breakpoints.py:197-198 | Every key past its last access. |
| `Replay.AddSingles` | python/kernmlops/analysis/generate_breakpoints.py:200-206 | Each single-key-past combination is added: all of them when there is room for all, or when the list does not fill up. |
| `Replay.AddRandom` | python/kernmlops/analysis/generate_breakpoints.py:208-214 | Random combinations stay in range and evict nothing; all draws are in when the list does not fill up. |
| `Replay.DrawsAny` | python/kernmlops/analysis/generate_breakpoints.py:208-214 | In each column every value from 0 to one past the last access can be drawn. |
| `Replay.GenerateCombinations` | python/kernmlops/analysis/generate_breakpoints.py:152-216 | Distinct keys and combinations, every value -1 throughout or between 0 and count + 1, at most the maximum number, and each representative present when there is room. |
| `Replay.RedisClient.Execute` | python/kernmlops/data_collection/replay_trace.py:677-706 | A command succeeds exactly when one of its two tries does. |
| `Replay.RedisClient.BreakPage` | python/kernmlops/data_collection/replay_trace.py:345-409 | A key without an address raises; otherwise a page break succeeds exactly when one of its two split attempts does. |
| `Replay.BreakAndScore` | python/kernmlops/data_collection/replay_trace.py:610-614 | One page break, counted as a success or a failure. |
| `Replay.BreakColumn` | python/kernmlops/data_collection/replay_trace.py:608-614 | A column's break follows those of the columns before it. |
| `Replay.BreakBefore` | python/kernmlops/data_collection/replay_trace.py:608-614 | Keys at -1 are broken before the trace, in column order; a key without an address stops it there. |
| `Replay.CountsAreDone` | python/kernmlops/data_collection/replay_trace.py:632-633 | The access counters hold each key's successful commands so far. |
| `Replay.DoneIsSize` | python/kernmlops/data_collection/replay_trace.py:618-641 | A counter is the number of lines that name its key and whose command succeeded. |
| `Replay.KeyedIsSize` | python/kernmlops/data_collection/replay_trace.py:618-641 | The total is the number of successful commands that have a key. |
| `Replay.ReplayLine` | python/kernmlops/data_collection/replay_trace.py:616-633 | Break if the key's count is at its value, then send, then count only a success. |
| `Replay.ReplayNext` | python/kernmlops/data_collection/replay_trace.py:616-633 | A line's events follow those of the lines before it. |
| `Replay.ReplayTrace` | python/kernmlops/data_collection/replay_trace.py:616-633 | The lines are handled in order, each with its break right before its command. |
| `Replay.Replay` | python/kernmlops/data_collection/replay_trace.py:598-635 | Breaks and commands reach the server in exactly the specified order; counts are the successful keyed commands and the total their sum; successes and failures are those of the page breaks. It raises exactly when a key to break has no address, having sent a first part of the events. |
| `Replay.BreaksAreDue` | python/kernmlops/data_collection/replay_trace.py:625-630 | A key is broken in the trace once per line that is due. |
| `Replay.DueIsTried` | python/kernmlops/data_collection/replay_trace.py:625-633 | A line is due once per failed try at the key's value and once more when that access is made. |
| `Replay.TraceBreaks` | python/kernmlops/data_collection/replay_trace.py:616-633 | With any failures, a key is broken during the trace once per failed try at its value and once more when that access is made. |
| `Replay.ReplayBreaks` | python/kernmlops/data_collection/replay_trace.py:598-635 | The same for the whole replay, keys at -1 included. |
| `Replay.ReplaySendsOnce` | python/kernmlops/data_collection/replay_trace.py:618-641 | Whatever fails, a replay sends the command of every line that has at least one token exactly once, and no other. |
| `Replay.ReplaySendsInOrder` | python/kernmlops/data_collection/replay_trace.py:618-641 | It sends them in the order of the lines. |
| `Replay.BreaksAreListed` | python/kernmlops/data_collection/replay_trace.py:579-641 | Nothing is broken but keys with a breakpoint column. |
| `Replay.NamelessColumn` | python/kernmlops/data_collection/replay_trace.py:579-641 | A column without a key is broken before the trace when it is at -1, and never otherwise. |
| `Replay.FaultFree` | python/kernmlops/data_collection/replay_trace.py:616-633 | Without failures the replay counts every access of a key. |
| `Replay.DueAtAccess` | python/kernmlops/data_collection/replay_trace.py:625-630 | Without failures, the break stands right before the key's access number v, counted from 0. |
| `Replay.BreakThenSend` | python/kernmlops/data_collection/replay_trace.py:625-632 | A break in the trace is immediately followed by the command of the line it is due at. |
| `Replay.BreakPrecedesAccess` | python/kernmlops/data_collection/replay_trace.py:625-632 | Without failures, whatever breaks a key with value v >= 0 stands, in the order of events, right before that key's access number v. |
| `Replay.GeneratedReplay` | python/kernmlops/data_collection/replay_trace.py:598-635 | For every trace and every generated combination, a fault-free replay breaks a key once (before the trace for -1, immediately before the command that is access v for 0 <= v < count), never for v >= count, and its counts are the log parser's. |
| `Replay.BrokenOnceIff` | python/kernmlops/data_collection/replay_trace.py:616-633 | With failures, a key is broken exactly once if and only if its access went through without a failed try, or failed once and was never made. |
| `Replay.FailedAccessBreaksTwice` | python/kernmlops/data_collection/replay_trace.py:616-633 | A concrete replay that breaks a key twice because the first command failed. |
| `BlockIo.Block4kIosIff` | python/kernmlops/data_collection/bpf_instrumentation/bpf/blk_io.bpf.c:54-56 | The count is the bytes in 4K blocks rounded up exactly when the 32-bit addition does not wrap, and 0 when it does. |
| `BlockIo.BlockIoProbes.BlockRqIssue` | python/kernmlops/data_collection/bpf_instrumentation/bpf/blk_io.bpf.c:77-123 | Adds the request's blocks and segments to its device, tracks it if there is room, and reports the new lengths. |
| `BlockIo.BlockIoProbes.BlockRqComplete` | python/kernmlops/data_collection/bpf_instrumentation/bpf/blk_io.bpf.c:126-178 | Takes them off again, only for a device and request that are tracked; the end event is reported in any case. |
| `BlockIo.SumsSmall` | python/kernmlops/data_collection/bpf_instrumentation/bpf/blk_io.bpf.c:43-46 | Sums over at most 1024 tracked requests stay far from the 32-bit limits. |
| `BlockIo.SumsAdd` | python/kernmlops/data_collection/bpf_instrumentation/bpf/blk_io.bpf.c:94-107 | Tracking a request adds it to its own device's sums only. |
| `BlockIo.SumsRemove` | python/kernmlops/data_collection/bpf_instrumentation/bpf/blk_io.bpf.c:142-160 | Dropping a request takes it out of its own device's sums only. |
| `BlockIo.IssueOnDevice` | python/kernmlops/data_collection/bpf_instrumentation/bpf/blk_io.bpf.c:77-123 | On the request's own device the lengths stay right exactly when nothing is lost. |
| `BlockIo.IssueBalancedIff` | python/kernmlops/data_collection/bpf_instrumentation/bpf/blk_io.bpf.c:77-123 | An issue keeps both lengths equal to the sums over tracked requests if and only if it neither overwrites a non-empty entry nor finds the table full. |
| `BlockIo.SameSectorCountsTwice` | python/kernmlops/data_collection/bpf_instrumentation/bpf/blk_io.bpf.c:94-107 | A concrete run: two issues with one device and sector are counted twice and tracked once, so the queue is not empty when the table is. |
| `BlockIo.CompleteOnDevice` | python/kernmlops/data_collection/bpf_instrumentation/bpf/blk_io.bpf.c:126-178 | On the request's own device the lengths stay right exactly when the completion takes away the blocks and segments that were tracked. |
| `BlockIo.CompleteBalancedIff` | python/kernmlops/data_collection/bpf_instrumentation/bpf/blk_io.bpf.c:126-178 | A completion keeps both lengths equal to the sums over tracked requests if and only if it takes away the 4K blocks and segments its request was tracked with; one never seen issued changes nothing. |
| `BlockIo.AlwaysBalancedIff` | python/kernmlops/data_collection/bpf_instrumentation/bpf/blk_io.bpf.c:77-178 | Over every run the lengths are the sums over the tracked requests after every event if and only if no issue loses track of a request and every completion takes away what was tracked. |
| `BlockIo.QueuesMatchOutstanding` | python/kernmlops/data_collection/bpf_instrumentation/bpf/blk_io.bpf.c:77-178 | Over every orderly run (at most 1024 outstanding, distinct device and sector, unchanged blocks and segments) each device's two queue lengths are the sums over its outstanding requests. |
| `BlockIo.QueuesDrain` | python/kernmlops/data_collection/bpf_instrumentation/bpf/blk_io.bpf.c:77-178 | Queue lengths are never negative and are zero once the device is drained. |
| `AgeBuckets.AgeBucketFor` | python/kernmlops/data_schema/thp_harness.py:613-621 | Unknown for a censored, missing or negative age, else the one bucket holding it. |
| `AgeBuckets.BucketIs` | python/kernmlops/data_schema/thp_harness.py:613-621 | Young is below 30 s, mid below 300 s, old from there on; unknown exactly for a censored, missing or negative age. |
| `AgeBuckets.RangesPartition` | python/kernmlops/data_schema/thp_harness.py:606-610 | The age ranges leave no gap and do not overlap. |
| `ThpIntervention.THPInterventionHook.EmitCandidate` | python/kernmlops/data_collection/bpf_instrumentation/thp_intervention_hook.py:281-321 | A new id from the counter and a row with the region's age. |
| `ThpIntervention.THPInterventionHook.ObserveRegion` | python/kernmlops/data_collection/bpf_instrumentation/thp_intervention_hook.py:413-441 | First and last sightings are updated; a still region with huge pages gives a negative candidate when the interval has passed. |
| `ThpIntervention.THPInterventionHook.ObserveRegions` | python/kernmlops/data_collection/bpf_instrumentation/thp_intervention_hook.py:413-441 | A scan observes its regions in order. |
| `ThpIntervention.THPInterventionHook.SelectStratifiedRegion` | python/kernmlops/data_collection/bpf_instrumentation/thp_intervention_hook.py:323-354 | The region drawn from the bucket drawn by weight. |
| `ThpIntervention.THPInterventionHook.PickByWeight` | python/kernmlops/data_collection/bpf_instrumentation/thp_intervention_hook.py:346-353 | The first bucket whose running weight reaches the draw, the last one otherwise. |
| `ThpIntervention.THPInterventionHook.RegionsIn` | python/kernmlops/data_collection/bpf_instrumentation/thp_intervention_hook.py:328-339 | Exactly the regions of one age bucket, in scan order. |
| `ThpIntervention.THPInterventionHook.WeightedBuckets` | python/kernmlops/data_collection/bpf_instrumentation/thp_intervention_hook.py:340-343 | The nonempty buckets with their weights, negative weights counting as zero. |
| `ThpIntervention.THPInterventionHook.RunIntervention` | python/kernmlops/data_collection/bpf_instrumentation/thp_intervention_hook.py:356-392 | Records the split with a new id and the region's age bucket, successful or not. |
| `ThpIntervention.THPInterventionHook.Poll` | python/kernmlops/data_collection/bpf_instrumentation/thp_intervention_hook.py:394-468 | One poll as a step on the whole state, every early return included. |
| `ThpIntervention.THPInterventionHook.PopData` | python/kernmlops/data_collection/bpf_instrumentation/thp_intervention_hook.py:473-510 | Hands over all four buffers, empties them, and keeps counters and clocks. |
| `ThpIntervention.THPInterventionHook.NoteRollup` | python/kernmlops/data_collection/bpf_instrumentation/thp_intervention_hook.py:181-200 | A rollup sample when one is due and can be read. |
| `ThpIntervention.THPInterventionHook.KeepRegions` | python/kernmlops/data_collection/bpf_instrumentation/thp_intervention_hook.py:408-411 | Every region of a scan is kept as a sample. |
| `ThpIntervention.WeightedNonempty` | python/kernmlops/data_collection/bpf_instrumentation/thp_intervention_hook.py:340-343 | Every weighted bucket holds a region, and every nonempty bucket is weighted. |
| `ThpIntervention.RegionFromBucket` | python/kernmlops/data_collection/bpf_instrumentation/thp_intervention_hook.py:323-354 | Wherever the draw falls, the chosen region lies in one of the three age buckets, so the unweighted fall-back is never taken. |
| `ThpIntervention.PollHealthy` | python/kernmlops/data_collection/bpf_instrumentation/thp_intervention_hook.py:394-468 | A poll keeps interventions a period apart and past warm-up, and no first sighting in the future. |
| `ThpIntervention.RunHealthy` | python/kernmlops/data_collection/bpf_instrumentation/thp_intervention_hook.py:394-510 | So does every sequence of polls and pops with a nondecreasing clock. |
| `ThpIntervention.RunNumbered` | python/kernmlops/data_collection/bpf_instrumentation/thp_intervention_hook.py:281-392 | After any polls and pops, whatever the clock does, the i-th candidate and the i-th intervention carry the ids of counter value i. |
| `ThpIntervention.DecisionIdInjective` | python/kernmlops/data_collection/bpf_instrumentation/thp_intervention_hook.py:297-298 | Different counter values give different decision ids. |
| `ThpIntervention.InterventionIdInjective` | python/kernmlops/data_collection/bpf_instrumentation/thp_intervention_hook.py:376-379 | Different counter values give different intervention ids. |
| `ThpIntervention.IdsNeverReused` | python/kernmlops/data_collection/bpf_instrumentation/thp_intervention_hook.py:281-321 | Decision and intervention ids are never used twice in any run, even across pop_data. |
| `ThpSightings.FirstSeenIsFirstSight` | python/kernmlops/data_collection/bpf_instrumentation/thp_intervention_hook.py:412-415 | Over every run a span is known exactly when some scanning poll listed it, and since the clock of the earliest such poll. |
| `ThpSightings.CandidatesAreHistory` | python/kernmlops/data_collection/bpf_instrumentation/thp_intervention_hook.py:412-454 | Over every run the candidates are, one for one and in order, those that the history of polls calls for: for each region listed that stayed within 32 kB of its latest sighting, has huge pages and finds the sampling interval passed, and one drawn per scan; each with the seconds since its region was first listed. |
| `ThpSightings.InterventionsAreHistory` | python/kernmlops/data_collection/bpf_instrumentation/thp_intervention_hook.py:394-468 | Over every run a poll intervenes exactly when it scans, lists regions, interventions are enabled, warm-up is over and a period has passed since the latest one; the row has the clock, the pid, the latest candidate's id, the region chosen, and the bucket of the time since that region was first listed. |
| `ThpSightings.SamplesAreHistory` | python/kernmlops/data_collection/bpf_instrumentation/thp_intervention_hook.py:400-410 | Over every run the raw samples are the rollups due and readable, and every region of every scan, in order. |
| `ThpSightings.WeightedEntries` | python/kernmlops/data_collection/bpf_instrumentation/thp_intervention_hook.py:323-354 | Exactly the young, mid and old buckets that hold a region are weighted, in this order; a negative weight counts as zero. |
| `ThpSightings.PickIsShare` | python/kernmlops/data_collection/bpf_instrumentation/thp_intervention_hook.py:323-354 | The draw falls at its share of all the weight. |
| `ThpSightings.ChoiceIsStratified` | python/kernmlops/data_collection/bpf_instrumentation/thp_intervention_hook.py:323-354 | The bucket drawn is the first whose weight, with those before it, reaches the draw, or the last; the region is drawn from its regions. |
| `ThpSightings.InBucketInOrder` | python/kernmlops/data_collection/bpf_instrumentation/thp_intervention_hook.py:323-354 | A bucket's regions are those of the scan in it, in scan order. |
| `ThpSightings.ChoiceBySight` | python/kernmlops/data_collection/bpf_instrumentation/thp_intervention_hook.py:323-354 | The choice depends on the first sightings alone. |
| `ThpIntervention.WindowFits` | python/kernmlops/data_collection/bpf_instrumentation/thp_intervention_hook.py:456-459 | Interventions in a window, less one, fit their periods in it. |
| `ThpIntervention.InterventionRate` | python/kernmlops/data_collection/bpf_instrumentation/thp_intervention_hook.py:452-459 | Any window of length T holds at most T div period + 1 interventions, and none falls in warm-up. |
| `ThpIntervention.PollGrounded` | python/kernmlops/data_collection/bpf_instrumentation/thp_intervention_hook.py:443-468 | An intervention a poll adds names the candidate that same poll sampled, and splits a region of the poll's own scan that lies in one of the three age buckets. |
| `ThpIntervention.InterventionsGrounded` | python/kernmlops/data_collection/bpf_instrumentation/thp_intervention_hook.py:394-468 | Every intervention of a run was recorded so by one of its polls. |
| `ThpIntervention.PollAdds` | python/kernmlops/data_collection/bpf_instrumentation/thp_intervention_hook.py:394-468 | A poll adds the same rows to every buffer and to the record of all rows. |
| `ThpIntervention.DueAdds` | python/kernmlops/data_collection/bpf_instrumentation/thp_intervention_hook.py:399-411 | A poll that scans adds at most one rollup row and all the regions of the scan, in order. |
| `ThpIntervention.ScanAdds` | python/kernmlops/data_collection/bpf_instrumentation/thp_intervention_hook.py:413-455 | A scan adds candidates only, its sampled one last. |
| `ThpIntervention.RowsConserved` | python/kernmlops/data_collection/bpf_instrumentation/thp_intervention_hook.py:473-510 | For polls and pops taken one at a time, every row ever recorded, in all four buffers, was handed over once, in order, or is still buffered. |
| `ThpRows.RunMidway` | python/kernmlops/data_collection/bpf_instrumentation/thp_intervention_hook.py:473-510 | Between the read and the clearing of a table its buffer holds what was found and what was recorded since. |
| `ThpRows.RowsSettled` | python/kernmlops/data_collection/bpf_instrumentation/thp_intervention_hook.py:473-510 | Rows being recorded at any moment while data() and clear() go through the four tables, each recorded row is, in order, handed over, lost or still buffered. |
| `ThpRows.FatesSplit` | python/kernmlops/data_collection/bpf_instrumentation/thp_intervention_hook.py:473-510 | The rows handed over are what the pops returned; the rows lost are those recorded between a read and a clearing of their table. |
| `ThpRows.NothingLostIff` | python/kernmlops/data_collection/bpf_instrumentation/thp_intervention_hook.py:501-510 | No row of a table is lost exactly when none is recorded between a read and a clearing of it. |
| `ThpRows.RowsConservedIff` | python/kernmlops/data_collection/bpf_instrumentation/thp_intervention_hook.py:473-510 | A table's rows are all returned or still buffered if and only if none was recorded between a read and a clearing of it; otherwise exactly those are missing. |
| `ThpRows.PollSame` | python/kernmlops/data_collection/bpf_instrumentation/thp_intervention_hook.py:394-468 | A poll of two states that differ in their buffers only leaves states that differ in their buffers only. |
| `ThpRows.PopsChangeNoRecord` | python/kernmlops/data_collection/bpf_instrumentation/thp_intervention_hook.py:394-510 | So polls record the same rows wherever pops come. |
| `ThpRows.PollsConservedIff` | python/kernmlops/data_collection/bpf_instrumentation/thp_intervention_hook.py:394-510 | However pops fall among the rows that polls record, in the middle of a poll too, nothing is lost of a table if and only if no row of it was recorded between its read and its clearing. |
| `Counters.BisectRight` | python/kernmlops/analysis/thp_harness.py:23 | The insertion point after every value at most the one sought. |
| `Counters.ScanStops` | python/kernmlops/analysis/thp_harness.py:18-27 | One before the insertion point is where a linear scan for the latest sample stops. |
| `Counters.CumulativeAt` | python/kernmlops/analysis/thp_harness.py:18-27 | The bisect look-up equals a linear scan for the latest sample per CPU, summed over CPUs. |
| `Counters.TotalsAdd` | python/kernmlops/analysis/thp_harness.py:18-27 | The total over two groups of CPUs is the sum of their totals, and that of one CPU its latest count. |
| `Counters.CounterDelta` | python/kernmlops/analysis/thp_harness.py:74-77 | The clamped difference of two look-ups, 0 for an empty interval. |
| `Counters.DeltasAdd` | python/kernmlops/analysis/thp_harness.py:74-77 | On counts that never go down the clamp never acts and deltas of adjoining intervals add. |
| `Counters.WindowFeature` | python/kernmlops/analysis/thp_harness.py:184-199 | A counter's pre and post features are the deltas before and after the decision. |
| `Counters.WindowsMakeWhole` | python/kernmlops/analysis/thp_harness.py:184-199 | Pre and post window sum to the whole window. |
| `Counters.WindowFeatures` | python/kernmlops/analysis/thp_harness.py:184-232 | All features of a decision: counts, rates per instruction before and after, and the changes of the rates. |
| `Counters.RatesGiveCounts` | python/kernmlops/analysis/thp_harness.py:201-206 | The two rates of an event, weighted by their instructions (by 1 when fewer), give back its count over the whole window. |
| `Counters.Base` | python/kernmlops/analysis/thp_harness.py:201-206 | The larger of 1 and the instruction count. |
| `Counters.ClampActsIff` | python/kernmlops/analysis/thp_harness.py:74-77 | A delta is the growth of the total exactly when the total did not go down, and 0 when it did or when no time passed. |
| `Matching.DatasetRows` | python/kernmlops/analysis/thp_harness.py:238-294 | The dataset has a row for each candidate and feature row sharing an id, and no other; splitting is preferred in it exactly when misses, walks and a tenth of the flushes together rise. |
| `Matching.DatasetSize` | python/kernmlops/analysis/thp_harness.py:238-294 | It has one row for each such pair. |
| `Matching.DatasetLabels` | python/kernmlops/analysis/thp_harness.py:261-270 | Keep and split labels are complementary in every row, and no row is marked yet. |
| `Matching.NearestControl` | python/kernmlops/analysis/thp_harness.py:317-347 | Finds the nearest eligible row, the first one on ties. |
| `Matching.Consider` | python/kernmlops/analysis/thp_harness.py:324-347 | A row replaces the best so far only when it is eligible and strictly closer. |
| `Matching.Nearest` | python/kernmlops/analysis/thp_harness.py:317-347 | The choice is eligible and at least as close as every other eligible row; none only when no row is eligible. |
| `Matching.MarkRows` | python/kernmlops/analysis/thp_harness.py:366-381 | Marks the rows with the treated id and leaves the others. |
| `Matching.MatchInterventions` | python/kernmlops/analysis/thp_harness.py:297-382 | Matches and marked rows over all successful interventions. |
| `Matching.MatchesAreNearest` | python/kernmlops/analysis/thp_harness.py:305-347 | Each match is of a successful intervention; its control differs from the treated row, shares its age bucket, lies within 60 s, and is at least as close, over the four measurements, as every other such row. |
| `Matching.MatchIff` | python/kernmlops/analysis/thp_harness.py:305-363 | An intervention gives a match exactly when it succeeded, its decision is the last row with that id, and the control is the first of the nearest; the match is that one. |
| `Matching.MatchesCount` | python/kernmlops/analysis/thp_harness.py:305-363 | There are as many matches as interventions that give one. |
| `Matching.MatchesInOrder` | python/kernmlops/analysis/thp_harness.py:305-363 | The matches come in the order of the interventions, once each. |
| `Matching.UnmatchedOnlyWithoutControl` | python/kernmlops/analysis/thp_harness.py:309-346 | A successful intervention goes unmatched only when its decision is unknown or has no eligible control. |
| `Matching.MarkingExact` | python/kernmlops/analysis/thp_harness.py:366-381 | Ids and measurements are unchanged; exactly the matched treated rows are marked, each with the control of the last match that treats it and preferring the split whose misses and walks rose less; the others are as they were. |
| `Matching.DatasetMarking` | python/kernmlops/analysis/thp_harness.py:238-382 | On a fresh dataset is_intervened marks exactly the matched treated rows, and keep and split labels are complementary in every row. |
| `Fnv.XorTwice` | python/kernmlops/kernmlops_benchmark/redis.py:143 | Exclusive or with the same number twice gives the number back. |
| `Fnv.PrimeInverse` | python/kernmlops/kernmlops_benchmark/redis.py:63 | Multiplication by the FNV prime modulo 2^64 can be undone. |
| `Fnv.RoundBijective` | python/kernmlops/kernmlops_benchmark/redis.py:140-144 | Each round is a bijection on 64-bit states. |
| `Fnv.RoundTellsOctets` | python/kernmlops/kernmlops_benchmark/redis.py:140-144 | Different octets take one state to different states. |
| `Fnv.OctetsRoundTrip` | python/kernmlops/kernmlops_benchmark/redis.py:139-142 | The octets taken by the loop determine the number. |
| `Fnv.HashOctets` | python/kernmlops/kernmlops_benchmark/redis.py:137-144 | The loop computes FNV-1a (section 2 of draft-eastlake-fnv) over the number's little-endian octets. |
| `Fnv.YcsbHashKeynum` | python/kernmlops/kernmlops_benchmark/redis.py:133-147 | The signed hash, folded to its absolute value except for -2^63. |
| `Fnv.HashIsEightRounds` | python/kernmlops/kernmlops_benchmark/redis.py:133-147 | A key's hash is eight rounds from the offset basis 0xCBF29CE484222325 over its low 64 bits, lowest octet first. |
| `Fnv.FirstHashes` | python/kernmlops/kernmlops_benchmark/redis.py:133-147 | The hashes of key numbers 0 and 1 are 6284781860667377211 and 8517097267634966620. |
| `Fnv.OneOctetApart` | python/kernmlops/kernmlops_benchmark/redis.py:140-144 | Octet strings that differ in exactly one place hash differently. |
| `Fnv.KeyNumbersOneOctetApart` | python/kernmlops/kernmlops_benchmark/redis.py:133-145 | Key numbers that differ in exactly one octet differ before the sign fold. |
| `Fnv.FoldRange` | python/kernmlops/kernmlops_benchmark/redis.py:126-147 | The folded hash is the absolute value of the signed one, but for -2^63, which stays; two hashes fold together exactly when equal or negatives of each other. |
| `Fnv.BuildYcsbKeyName` | python/kernmlops/kernmlops_benchmark/redis.py:149-155 | The number, or its hash when unordered, padded with zeros after "user". |
| `Fnv.VaptrKeyNames` | python/kernmlops/kernmlops_benchmark/redis.py:157-165 | The names of the first key numbers, as many as asked for and recorded. |
| `Fnv.NamesAre` | python/kernmlops/kernmlops_benchmark/redis.py:149-165 | Name k is that of key number k: the number itself when inserted in order, else its folded hash, read back from the name. |
| `Fnv.Cohort` | python/kernmlops/kernmlops_benchmark/redis.py:157-163 | As many names as asked for, but no more than there are records; none when either is not positive. |
| `Fnv.NameReadsBack` | python/kernmlops/kernmlops_benchmark/redis.py:149-155 | The number can be read back from a padded name, which has as many characters after "user" as asked for, or more. |
| `Fnv.KeyNamesDistinct` | python/kernmlops/kernmlops_benchmark/redis.py:149-155 | Distinct numbers get distinct names, whatever the padding. |
| `Decimal.RoundTrip` | python/kernmlops/data_schema/schema.py:261-262 | Reading a written numeral gives the number back. |
| `ConfigMerge.MergeItems` | python/kernmlops/kernmlops_config/__init__.py:11-24 | Keys of a merged level are the base's and the override's; each value is the base's, the override's, or their merge. |
| `ConfigMerge.MergeInto` | python/kernmlops/kernmlops_config/__init__.py:11-24 | The loop over the override computes exactly that, in any order, or raises. |
| `ConfigMerge.MergeEntry` | python/kernmlops/kernmlops_config/__init__.py:12-24 | An entry that is already there becomes the merge of both values, branch by branch. |
| `ConfigMerge.Merge` | python/kernmlops/kernmlops_config/__init__.py:10-30 | Fields are merged and the object rebuilt; an override that is no mapping or names an unknown field raises. |
| `ConfigMerge.MergeRefusedIff` | python/kernmlops/kernmlops_config/__init__.py:10-30 | A merge is refused if and only if the override, somewhere, puts no dictionary in the place of a configuration object or names something that is no field of one, on a path that is all dictionaries in the override. |
| `ConfigMerge.DictionariesJoin` | python/kernmlops/kernmlops_config/__init__.py:10-30 | An accepted override dictionary leaves the same kind of value with the names of both, and a configuration object with its own fields. |
| `ConfigMerge.ApartIff` | python/kernmlops/kernmlops_config/__init__.py:11-24 | A path is neither above nor below an override path exactly when the override tree does not hold it and meets only dictionaries on the way. |
| `ConfigMerge.OverridesReadBack` | python/kernmlops/kernmlops_config/__init__.py:10-30 | Every non-dictionary value of an accepted override reads back at its path. |
| `ConfigMerge.OthersKept` | python/kernmlops/kernmlops_config/__init__.py:10-30 | Every path neither above nor below an override path keeps its value. |
| `ConfigMerge.SelfMergeIff` | python/kernmlops/kernmlops_config/__init__.py:11-24 | Merging a tree into itself changes nothing when it holds no configuration object, and is refused when it holds one. |
| `ConfigMerge.MergeTwiceIff` | python/kernmlops/kernmlops_config/__init__.py:10-30 | Merging an accepted override again changes nothing when the override holds no configuration object, and is refused when it holds one. |
| `ConfigMerge.SecondMergeRefused` | python/kernmlops/kernmlops_config/__init__.py:10-30 | A concrete override with a configuration object that is accepted once and refused the second time. |

## Left out

- Files, procfs, sysfs, Redis, subprocesses and system calls: replaced by environments whose outcomes are parameters.
- Table internals (polars, parquet) and BCC: tables are sequences of records, a hook's table a sequence of samples.
- Floating-point rounding: reals stand for floats, and the distance in matching is compared by its square.
- Plotting, the command line, benchmark launchers, remote running and build files.
- Overflow of BPF maps other than the 1024-entry table of started requests; the process filter of the quanta probes is 0.
- Races between probes on different CPUs, and concurrency inside the feature store (RCU, atomics): each probe or call is one step.
- The feature store's bucket hash is an arbitrary function; `fstore_get_value_size`, `fstore_get_num_keys` and the ioctl layer only pass values on.
- Collect.LoadedIsAllIff: does not model a hook with several tables; a hook's `data()` snapshots one list, here and in `CollectHooks`. The four tables of the THP hook are in `ThpRows`.
- A file that a failing write leaves half written: a failed write leaves no file.
- PageAccess.RunTracksHistory: allows more than the code does; a `Faulted` event may name any word, also one that is not in its batch (`Possible` says which histories the code has).
- ThpIntervention.RowsConserved: does not let a poll and a pop overlap; `ThpRows.PollsConservedIff` does.
- Running threads: an interleaving of the collection pipeline is a sequence of the `Collector` class's atomic steps, on values.
- Legacy directory layout of the loader, and its added collection-id column.
- The text of MONITOR lines: a line is one that both patterns accept, with its quoted tokens, or one that neither accepts; the sorted order of breakpoint columns is any order.
- Page sizes that are no power of two, on which the source's address mask is not rounding down; the model rounds down.
- The text of VAPTR replies: reading a hexadecimal address and writing one are parameters; lines come stripped.
- Runs of the VAPTR hook after a poll that raised: an exception ends the poll thread.
- Parsing smaps and its rollup, and the split request itself, which either succeeds or not.
- A bitmap write that comes back short without having written one whole word: the kernel writes whole words and at least one.
- Reads of process and server state before a replay: the server's pid and its restart.
- `CollapseHugePageBPFHook`, whose `data()` returns nothing when any of its lists is empty.
- In-place update of a nested plain dictionary of the receiver of `merge`: results are stated on values, as is which exception a refused merge raises.
- ConfigMerge.Merge: does not model aliasing of nested dictionaries between the receiver and the result.
- ThpIntervention.InterventionRate: does not bound the rate for a period of 0, for which the quotient is undefined.
- Fnv.KeyNumbersOneOctetApart: does not extend past the sign fold, where a hash and its negation meet (see FoldRange).
