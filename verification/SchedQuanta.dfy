/** The scheduler-quanta probes: two timestamp maps, and the intervals they report. */
module SchedQuanta {
  import opened Wrappers

  type Pid = nat
  const U32 := 0x1_0000_0000
  const U64 := 0x1_0000_0000_0000_0000
  const NS_PER_US := 1000

  /** One probe firing.  Timestamps are nanoseconds. */
  datatype Event =
    | NewTask(pid: Pid, ts: nat)
    | Wakeup(pid: Pid, ts: nat)
    | Switch(cpu: nat, prev: Pid, prevTgid: Pid, next: Pid, nextTgid: Pid, ts: nat)

  datatype Kind = Ran | Queued

  /** What a submitted perf event stands for: `pid` was running, or waiting to
      run, from `from` to `to`; `cpu` is where it was submitted. */
  datatype Interval = Interval(kind: Kind, cpu: nat, pid: Pid, tgid: Pid, from: nat, to: nat)

  /** The record user space receives. */
  datatype QuantaEvent = QuantaEvent(pid: Pid, tgid: Pid, endUptimeUs: nat, runLengthUs: nat)

  function Sub64(a: nat, b: nat): nat {
    (a - b) % U64
  }

  function Report(i: Interval): QuantaEvent {
    QuantaEvent(i.pid, i.tgid, i.to / NS_PER_US, Sub64(i.to, i.from) / NS_PER_US % U32)
  }

  function Reports(log: seq<Interval>, kind: Kind): seq<QuantaEvent> {
    if log == [] then []
    else
      Reports(log[..|log| - 1], kind)
      + (if log[|log| - 1].kind == kind then [Report(log[|log| - 1])] else [])
  }

  /** The abstract state: the two BPF hashes and every interval submitted so far. */
  datatype Tracker = Tracker(runStart: map<Pid, nat>, queueStart: map<Pid, nat>, log: seq<Interval>)

  function SwitchIn(s: Tracker, e: Event): Tracker
    requires e.Switch?
  {
    if e.next == 0 then s
    else
      Tracker(s.runStart[e.next := e.ts], s.queueStart - {e.next},
              if e.next in s.queueStart
              then s.log + [Interval(Queued, e.cpu, e.next, e.nextTgid, s.queueStart[e.next], e.ts)]
              else s.log)
  }

  function SwitchOut(s: Tracker, e: Event): Tracker
    requires e.Switch?
  {
    if e.prev == 0 || e.prev !in s.runStart then s
    else
      Tracker(s.runStart - {e.prev}, s.queueStart[e.prev := e.ts],
              s.log + [Interval(Ran, e.cpu, e.prev, e.prevTgid, s.runStart[e.prev], e.ts)])
  }

  function Step(s: Tracker, e: Event): Tracker {
    match e
    case NewTask(pid, ts) => s.(queueStart := s.queueStart[pid := ts])
    case Wakeup(pid, ts) => if pid == 0 then s else s.(queueStart := s.queueStart[pid := ts])
    case Switch(_, _, _, _, _, _) => SwitchOut(SwitchIn(s, e), e)
  }

  function Run(h: seq<Event>): Tracker {
    if h == [] then Tracker(map[], map[], [])
    else Step(Run(h[..|h| - 1]), h[|h| - 1])
  }

  // ---------------------------------------------------------------- the probes

  /** The program state of the BPF object.  `log` records what each submitted
      event measured. */
  class QuantaTracker {
    var runStart: map<Pid, nat>
    var queueStart: map<Pid, nat>
    var quantaRuntimes: seq<QuantaEvent>
    var quantaQueueTimes: seq<QuantaEvent>
    ghost var log: seq<Interval>

    ghost predicate Valid()
      reads this
    {
      quantaRuntimes == Reports(log, Ran) && quantaQueueTimes == Reports(log, Queued)
    }

    ghost function State(): Tracker
      reads this
    {
      Tracker(runStart, queueStart, log)
    }

    constructor ()
      ensures Valid() && State() == Run([])
    {
      runStart, queueStart, quantaRuntimes, quantaQueueTimes, log := map[], map[], [], [], [];
    }

    method TraceWakeUpNewTask(pid: Pid, ts: nat)
      requires Valid()
      modifies this
      ensures Valid() && State() == Step(old(State()), NewTask(pid, ts))
    {
      queueStart := queueStart[pid := ts];
    }

    method TraceTtwuDoWakeup(pid: Pid, ts: nat)
      requires Valid()
      modifies this
      ensures Valid() && State() == Step(old(State()), Wakeup(pid, ts))
    {
      if pid == 0 {
        return;
      }
      queueStart := queueStart[pid := ts];
    }

    method TraceRun(cpu: nat, prev: Pid, prevTgid: Pid, next: Pid, nextTgid: Pid, ts: nat)
      requires Valid()
      modifies this
      ensures Valid()
      ensures State() == Step(old(State()), Switch(cpu, prev, prevTgid, next, nextTgid, ts))
    {
      if next != 0 {
        if next in queueStart {
          var delta := Sub64(ts, queueStart[next]);
          quantaQueueTimes := quantaQueueTimes
          + [QuantaEvent(next, nextTgid, ts / NS_PER_US, delta / NS_PER_US % U32)];
          log := log + [Interval(Queued, cpu, next, nextTgid, queueStart[next], ts)];
          queueStart := queueStart - {next};
        }
        runStart := runStart[next := ts];
      }
      assert Tracker(runStart, queueStart, log).runStart
          == SwitchIn(old(State()), Switch(cpu, prev, prevTgid, next, nextTgid, ts)).runStart;
      assert queueStart
          == SwitchIn(old(State()), Switch(cpu, prev, prevTgid, next, nextTgid, ts)).queueStart;
      if prev == 0 || prev !in runStart {
        return;
      }
      var delta := Sub64(ts, runStart[prev]);
      quantaRuntimes := quantaRuntimes
      + [QuantaEvent(prev, prevTgid, ts / NS_PER_US, delta / NS_PER_US % U32)];
      log := log + [Interval(Ran, cpu, prev, prevTgid, runStart[prev], ts)];
      runStart := runStart - {prev};
      queueStart := queueStart[prev := ts];
    }
  }

  // ------------------------------------------------ stamps and the event history

  predicate Monotone(h: seq<Event>) {
    && (forall i, j :: 0 <= i < j < |h| ==> h[i].ts <= h[j].ts)
    && (forall i :: 0 <= i < |h| ==> h[i].ts < U64)
  }

  /** When `p` was last switched in, if it has not been switched out since. */
  function RunningSince(h: seq<Event>, p: Pid): Option<nat> {
    if h == [] then None
    else
      var e := h[|h| - 1];
      if e.Switch? && e.prev == p then None
      else if e.Switch? && e.next == p then Some(e.ts)
      else RunningSince(h[..|h| - 1], p)
  }

  /** The latest moment `p` became runnable - woken, created, or preempted out of
      a run whose start was seen - if it has not been switched in since. */
  function RunnableSince(h: seq<Event>, p: Pid): Option<nat> {
    if h == [] then None
    else
      var e, before := h[|h| - 1], h[..|h| - 1];
      if !e.Switch? then if e.pid == p then Some(e.ts) else RunnableSince(before, p)
      else if e.prev == p && (e.next == p || RunningSince(before, p).Some?) then Some(e.ts)
      else if e.next == p then None
      else RunnableSince(before, p)
  }

  function Lookup(m: map<Pid, nat>, p: Pid): Option<nat> {
    if p in m then Some(m[p]) else None
  }

  /** Over every history, each hash entry is the corresponding last mark. */
  lemma {:induction false} StampsAreLastMarks(h: seq<Event>, p: Pid)
    requires p != 0
    ensures Lookup(Run(h).runStart, p) == RunningSince(h, p)
    ensures Lookup(Run(h).queueStart, p) == RunnableSince(h, p)
  {
    if h == [] {
    } else {
      StampsAreLastMarks(h[..|h| - 1], p);
    }
  }

  /** When a task with pid 0 was last created. */
  function IdleCreated(h: seq<Event>): Option<nat> {
    if h == [] then None
    else if h[|h| - 1].NewTask? && h[|h| - 1].pid == 0 then Some(h[|h| - 1].ts)
    else IdleCreated(h[..|h| - 1])
  }

  /** Pid 0 never runs by the maps, and only its creation marks it as queued. */
  lemma {:induction false} IdleStamps(h: seq<Event>)
    ensures Lookup(Run(h).runStart, 0) == None && Lookup(Run(h).queueStart, 0) == IdleCreated(h)
  {
    if h == [] {
    } else {
      IdleStamps(h[..|h| - 1]);
    }
  }

  /** What a switch must report, read off the history before it. */
  function Reported(before: seq<Event>, e: Event): seq<Interval> {
    if !e.Switch? then []
    else
      (if e.next != 0 && RunnableSince(before, e.next).Some?
       then [Interval(Queued, e.cpu, e.next, e.nextTgid, RunnableSince(before, e.next).value, e.ts)]
       else [])
      + (if e.prev == 0 then []
         else if e.prev == e.next then [Interval(Ran, e.cpu, e.prev, e.prevTgid, e.ts, e.ts)]
         else if RunningSince(before, e.prev).Some?
         then [Interval(Ran, e.cpu, e.prev, e.prevTgid, RunningSince(before, e.prev).value, e.ts)]
         else [])
  }

  function ReportedAll(h: seq<Event>): seq<Interval> {
    if h == [] then []
    else ReportedAll(h[..|h| - 1]) + Reported(h[..|h| - 1], h[|h| - 1])
  }

  /** The submitted intervals are exactly those the history determines. */
  lemma {:induction false} LogIsHistory(h: seq<Event>)
    ensures Run(h).log == ReportedAll(h)
  {
    if h == [] {
    } else {
      var before, e := h[..|h| - 1], h[|h| - 1];
      LogIsHistory(before);
      if e.Switch? {
        if e.next != 0 {
          StampsAreLastMarks(before, e.next);
        }
        if e.prev != 0 {
          StampsAreLastMarks(before, e.prev);
        }
      }
    }
  }

  // ------------------------------------------------ intervals of one pid never overlap

  /** Intervals of one pid, run or queued, are well formed and in time order. */
  predicate InOrder(log: seq<Interval>) {
    && (forall i :: 0 <= i < |log| ==> log[i].from <= log[i].to)
    && (forall i, j :: 0 <= i < j < |log| && log[i].pid == log[j].pid ==> log[i].to <= log[j].from)
  }

  predicate Within(log: seq<Interval>, lo: nat, hi: nat) {
    forall i :: 0 <= i < |log| ==> lo <= log[i].from && log[i].to <= hi
  }

  predicate StampsFresh(stamps: map<Pid, nat>, log: seq<Interval>, lo: nat, hi: nat) {
    forall p :: p in stamps ==>
                  lo <= stamps[p] <= hi && forall i :: 0 <= i < |log| && log[i].pid == p ==> log[i].to <= stamps[p]
  }

  predicate Consistent(s: Tracker, lo: nat, hi: nat) {
    && InOrder(s.log) && Within(s.log, lo, hi)
    && StampsFresh(s.runStart, s.log, lo, hi)
    && StampsFresh(s.queueStart, s.log, lo, hi)
  }

  lemma SwitchInOrder(s: Tracker, e: Event, lo: nat, hi: nat)
    requires Consistent(s, lo, hi) && lo <= e.ts && hi <= e.ts && e.Switch?
    ensures InOrder(SwitchIn(s, e).log) && Within(SwitchIn(s, e).log, lo, e.ts)
  {
  }

  lemma SwitchInFresh(s: Tracker, e: Event, lo: nat, hi: nat)
    requires Consistent(s, lo, hi) && lo <= e.ts && hi <= e.ts && e.Switch?
    ensures StampsFresh(SwitchIn(s, e).runStart, SwitchIn(s, e).log, lo, e.ts)
    ensures StampsFresh(SwitchIn(s, e).queueStart, SwitchIn(s, e).log, lo, e.ts)
  {
  }

  lemma SwitchInConsistent(s: Tracker, e: Event, lo: nat, hi: nat)
    requires Consistent(s, lo, hi) && lo <= e.ts && hi <= e.ts && e.Switch?
    ensures Consistent(SwitchIn(s, e), lo, e.ts)
  {
    SwitchInOrder(s, e, lo, hi);
    SwitchInFresh(s, e, lo, hi);
  }

  lemma SwitchOutConsistent(s: Tracker, e: Event, lo: nat)
    requires Consistent(s, lo, e.ts) && lo <= e.ts && e.Switch?
    ensures Consistent(SwitchOut(s, e), lo, e.ts)
  {
    var m := SwitchOut(s, e);
    assert InOrder(m.log);
    assert StampsFresh(m.runStart, m.log, lo, e.ts);
    assert StampsFresh(m.queueStart, m.log, lo, e.ts);
  }

  lemma StepConsistent(s: Tracker, e: Event, lo: nat, hi: nat)
    requires Consistent(s, lo, hi) && lo <= e.ts && hi <= e.ts
    ensures Consistent(Step(s, e), lo, e.ts)
  {
    if e.Switch? {
      SwitchInConsistent(s, e, lo, hi);
      SwitchOutConsistent(SwitchIn(s, e), e, lo);
    } else {
      assert Step(s, e).log == s.log;
    }
  }

  /** In every run with a nondecreasing clock, whatever order the probes fire in. */
  lemma {:induction false} IntervalsNeverOverlap(h: seq<Event>)
    requires Monotone(h) && h != []
    ensures Consistent(Run(h), h[0].ts, h[|h| - 1].ts)
  {
    var before := h[..|h| - 1];
    if before == [] {
      StepConsistent(Run([]), h[0], h[0].ts, h[0].ts);
    } else {
      IntervalsNeverOverlap(before);
      StepConsistent(Run(before), h[|h| - 1], h[0].ts, before[|before| - 1].ts);
    }
  }

  /** No reported length comes from a subtraction that wrapped. */
  lemma NoUnderflow(h: seq<Event>, i: nat)
    requires Monotone(h) && i < |Run(h).log|
    ensures Sub64(Run(h).log[i].to, Run(h).log[i].from) == Run(h).log[i].to - Run(h).log[i].from
  {
    IntervalsNeverOverlap(h);
  }

  // ------------------------------------------------ what the records hold

  function OfKind(log: seq<Interval>, kind: Kind): seq<Interval> {
    if log == [] then []
    else OfKind(log[..|log| - 1], kind) + if log[|log| - 1].kind == kind then [log[|log| - 1]] else []
  }

  /** The records of one stream after a history. */
  function Records(h: seq<Event>, kind: Kind): seq<QuantaEvent> {
    Reports(Run(h).log, kind)
  }

  /** The length in microseconds fits 32 bits. */
  predicate FitsLength(i: Interval) {
    i.to - i.from < 1000 * 0x1_0000_0000
  }

  /** The record names the interval's task and its end, and gives its length, both in
      whole microseconds; a length from a clock that ran back has wrapped at 64 bits. */
  predicate Holds(r: QuantaEvent, i: Interval) {
    && r.pid == i.pid && r.tgid == i.tgid
    && 1000 * r.endUptimeUs <= i.to < 1000 * (r.endUptimeUs + 1)
    && (i.from <= i.to && FitsLength(i) ==> 1000 * r.runLengthUs <= i.to - i.from < 1000 * (r.runLengthUs + 1))
    && (i.from <= i.to ==> r.runLengthUs == (i.to - i.from) / 1000 % 0x1_0000_0000)
    && (i.to < i.from ==> r.runLengthUs == (0x1_0000_0000_0000_0000 + i.to - i.from) / 1000 % 0x1_0000_0000)
  }

  lemma ReportHolds(i: Interval)
    requires i.from < 0x1_0000_0000_0000_0000 && i.to < 0x1_0000_0000_0000_0000
    ensures Holds(Report(i), i)
  {
    assert i.from <= i.to ==> Sub64(i.to, i.from) == i.to - i.from;
    assert i.to < i.from ==> Sub64(i.to, i.from) == i.to - i.from + 0x1_0000_0000_0000_0000;
  }

  /** Clocks are 64 bits wide. */
  predicate Clocked(h: seq<Event>) {
    forall i :: 0 <= i < |h| ==> h[i].ts < 0x1_0000_0000_0000_0000
  }

  lemma {:induction false} MarksClocked(h: seq<Event>, p: Pid)
    requires Clocked(h)
    ensures RunningSince(h, p).Some? ==> RunningSince(h, p).value < 0x1_0000_0000_0000_0000
    ensures RunnableSince(h, p).Some? ==> RunnableSince(h, p).value < 0x1_0000_0000_0000_0000
  {
    if h == [] {
    } else {
      MarksClocked(h[..|h| - 1], p);
    }
  }

  lemma {:induction false} IntervalsClocked(h: seq<Event>)
    requires Clocked(h)
    ensures forall i :: i in ReportedAll(h) ==> i.from < 0x1_0000_0000_0000_0000 && i.to < 0x1_0000_0000_0000_0000
  {
    if h == [] {
    } else {
      var before, e := h[..|h| - 1], h[|h| - 1];
      IntervalsClocked(before);
      if e.Switch? {
        MarksClocked(before, e.next);
        MarksClocked(before, e.prev);
      }
    }
  }

  lemma {:induction false} ReportsAt(log: seq<Interval>, kind: Kind, k: nat)
    ensures |Reports(log, kind)| == |OfKind(log, kind)|
    ensures k < |OfKind(log, kind)| ==>
              && OfKind(log, kind)[k] in log && OfKind(log, kind)[k].kind == kind
              && Reports(log, kind)[k] == Report(OfKind(log, kind)[k])
  {
    if log == [] {
    } else {
      ReportsAt(log[..|log| - 1], kind, k);
    }
  }

  /** Over every history, record `k` of a stream is about the `k`-th interval of its kind
      that the history determines. */
  lemma RecordsHoldIntervals(t: QuantaTracker, h: seq<Event>, k: nat)
    requires t.Valid() && t.State() == Run(h) && Clocked(h)
    ensures |t.quantaRuntimes| == |OfKind(ReportedAll(h), Ran)|
    ensures |t.quantaQueueTimes| == |OfKind(ReportedAll(h), Queued)|
    ensures k < |t.quantaRuntimes| ==> Holds(t.quantaRuntimes[k], OfKind(ReportedAll(h), Ran)[k])
    ensures k < |t.quantaQueueTimes| ==> Holds(t.quantaQueueTimes[k], OfKind(ReportedAll(h), Queued)[k])
  {
    RecordHolds(h, Ran, k);
    RecordHolds(h, Queued, k);
  }

  lemma RecordHolds(h: seq<Event>, kind: Kind, k: nat)
    requires Clocked(h)
    ensures |Records(h, kind)| == |OfKind(ReportedAll(h), kind)|
    ensures k < |Records(h, kind)| ==> Holds(Records(h, kind)[k], OfKind(ReportedAll(h), kind)[k])
  {
    LogIsHistory(h);
    ReportsAt(Run(h).log, kind, k);
    if k < |Records(h, kind)| {
      IntervalsClocked(h);
      ReportHolds(OfKind(Run(h).log, kind)[k]);
    }
  }

  /** The microseconds a stream's records give for one pid. */
  function UsOf(records: seq<QuantaEvent>, p: Pid): nat {
    if records == [] then 0
    else
      UsOf(records[..|records| - 1], p)
      + if records[|records| - 1].pid == p then records[|records| - 1].runLengthUs else 0
  }

  lemma {:induction false} UsAreReported(log: seq<Interval>, p: Pid)
    ensures UsOf(Reports(log, Ran), p) + UsOf(Reports(log, Queued), p) == ReportedUs(log, p)
  {
    if log == [] {
    } else {
      var init, last := log[..|log| - 1], log[|log| - 1];
      var ran, queued := Reports(init, Ran), Reports(init, Queued);
      UsAreReported(init, p);
      if last.kind.Ran? {
        assert Reports(log, Queued) == queued && Reports(log, Ran)[..|ran|] == ran;
      } else {
        assert Reports(log, Ran) == ran && Reports(log, Queued)[..|queued|] == queued;
      }
    }
  }

  function ReportedUs(log: seq<Interval>, p: Pid): nat {
    if log == [] then 0
    else
      var i := log[|log| - 1];
      ReportedUs(log[..|log| - 1], p) + (if i.pid == p then Report(i).runLengthUs else 0)
  }

  lemma {:induction false} ReportedWithin(log: seq<Interval>, p: Pid, lo: nat, hi: nat)
    requires InOrder(log) && lo <= hi < U64
    requires forall i :: 0 <= i < |log| && log[i].pid == p ==> lo <= log[i].from && log[i].to <= hi
    ensures ReportedUs(log, p) * 1000 <= hi - lo
  {
    if log == [] {
    } else {
      var init, last := log[..|log| - 1], log[|log| - 1];
      if last.pid == p {
        ReportedWithin(init, p, lo, last.from);
        assert Sub64(last.to, last.from) == last.to - last.from;
      } else {
        ReportedWithin(init, p, lo, hi);
      }
    }
  }

  /** The microseconds reported for one pid, run and queued together, fit in the
      elapsed time - including the truncation to 32 bits. */
  lemma ReportedAtMostElapsed(h: seq<Event>, p: Pid)
    requires Monotone(h) && h != []
    ensures UsOf(Records(h, Ran), p) + UsOf(Records(h, Queued), p) <= (h[|h| - 1].ts - h[0].ts) / 1000
  {
    IntervalsNeverOverlap(h);
    ReportedWithin(Run(h).log, p, h[0].ts, h[|h| - 1].ts);
    UsAreReported(Run(h).log, p);
  }

  /** The intervals of `p`, and how long they are. */
  function Count(log: seq<Interval>, p: Pid): nat {
    if log == [] then 0 else Count(log[..|log| - 1], p) + if log[|log| - 1].pid == p then 1 else 0
  }

  function MeasuredNs(log: seq<Interval>, p: Pid): int {
    if log == [] then 0
    else
      var i := log[|log| - 1];
      MeasuredNs(log[..|log| - 1], p) + if i.pid == p then i.to - i.from else 0
  }

  lemma {:induction false} ReportedMost(log: seq<Interval>, p: Pid)
    requires InOrder(log) && forall i :: 0 <= i < |log| ==> log[i].to < U64 && FitsLength(log[i])
    ensures 1000 * ReportedUs(log, p) <= MeasuredNs(log, p) <= 1000 * ReportedUs(log, p) + 999 * Count(log, p)
  {
    if log == [] {
    } else {
      ReportedMost(log[..|log| - 1], p);
      ReportHolds(log[|log| - 1]);
    }
  }

  /** Nothing but the rounding of each record is missing: per record less than one
      microsecond, as long as each length fits its field. */
  lemma ReportedAtLeastMeasured(h: seq<Event>, p: Pid)
    requires Monotone(h) && forall i :: i in ReportedAll(h) ==> FitsLength(i)
    ensures var us, ns := UsOf(Records(h, Ran), p) + UsOf(Records(h, Queued), p), MeasuredNs(ReportedAll(h), p);
            1000 * us <= ns <= 1000 * us + 999 * Count(ReportedAll(h), p)
  {
    LogIsHistory(h);
    UsAreReported(Run(h).log, p);
    if h != [] {
      IntervalsNeverOverlap(h);
      ReportedMost(Run(h).log, p);
    }
  }

  // ------------------------------------------------ well-formed multi-CPU schedules

  /** The latest switch on `cpu`. */
  function LastSwitch(h: seq<Event>, cpu: nat): (r: Option<Event>)
    ensures r.Some? ==> r.value.Switch? && r.value.cpu == cpu
  {
    if h == [] then None
    else if h[|h| - 1].Switch? && h[|h| - 1].cpu == cpu then Some(h[|h| - 1])
    else LastSwitch(h[..|h| - 1], cpu)
  }

  /** Who runs on `cpu`; `boot` gives each CPU's occupant when tracing began. */
  function Current(boot: nat -> Pid, h: seq<Event>, cpu: nat): Pid {
    match LastSwitch(h, cpu)
    case None => boot(cpu)
    case Some(e) => e.next
  }

  ghost predicate Schedulable(boot: nat -> Pid, h: seq<Event>, e: Event) {
    e.Switch? ==>
      && e.prev == Current(boot, h, e.cpu)
      && (e.next != 0 ==> forall c :: c != e.cpu ==> Current(boot, h, c) != e.next)
  }

  /** A pid occupies at most one CPU, and each switch leaves its CPU's occupant. */
  ghost predicate Schedule(boot: nat -> Pid, h: seq<Event>) {
    if h == [] then forall c, d :: c != d && boot(c) == boot(d) ==> boot(c) == 0
    else Schedule(boot, h[..|h| - 1]) && Schedulable(boot, h[..|h| - 1], h[|h| - 1])
  }

  lemma {:induction false} OneCpuEach(boot: nat -> Pid, h: seq<Event>, c: nat, d: nat)
    requires Schedule(boot, h) && c != d && Current(boot, h, c) == Current(boot, h, d)
    ensures Current(boot, h, c) == 0
  {
    if h == [] {
    } else {
      var before, e := h[..|h| - 1], h[|h| - 1];
      assert forall x :: !(e.Switch? && e.cpu == x) ==> LastSwitch(h, x) == LastSwitch(before, x);
      if e.Switch? && e.cpu == c {
        assert Current(boot, before, d) == Current(boot, h, d);
      } else if e.Switch? && e.cpu == d {
        assert Current(boot, before, c) == Current(boot, h, c);
      } else {
        OneCpuEach(boot, before, c, d);
      }
    }
  }

  /** The latest switch on `cpu` brought in somebody new, and not the idle task. */
  predicate Entered(h: seq<Event>, cpu: nat) {
    var last := LastSwitch(h, cpu);
    last.Some? && last.value.next != 0 && last.value.prev != last.value.next
  }

  /** Which CPU a stamped pid entered, and when. */
  lemma {:induction false} RunStartIsEntered(boot: nat -> Pid, h: seq<Event>, p: Pid)
    requires Schedule(boot, h)
    ensures p in Run(h).runStart <==> exists c :: Entered(h, c) && LastSwitch(h, c).value.next == p
    ensures forall c :: Entered(h, c) && LastSwitch(h, c).value.next == p
                        ==> Run(h).runStart[p] == LastSwitch(h, c).value.ts
  {
    if h == [] {
    } else {
      var before, e := h[..|h| - 1], h[|h| - 1];
      RunStartIsEntered(boot, before, p);
      if e.Switch? {
        assert LastSwitch(h, e.cpu) == Some(e);
        assert forall c :: c != e.cpu ==> LastSwitch(h, c) == LastSwitch(before, c);
        assert Run(before).runStart.Keys >= Run(h).runStart.Keys - {e.next};
        forall c | c != e.cpu && Entered(before, c)
          ensures Current(boot, before, c) != e.prev && Current(boot, before, c) != e.next
        {
          if Current(boot, before, c) == e.prev {
            OneCpuEach(boot, before, c, e.cpu);
          }
        }
        assert p in Run(h).runStart <==>
               if e.prev == p then p != 0 && p in Run(before).runStart && false
               else (e.next == p && p != 0) || p in Run(before).runStart;
        if p in Run(h).runStart {
          if e.next == p && e.prev != p {
            assert Entered(h, e.cpu);
          } else {
            var c :| Entered(before, c) && LastSwitch(before, c).value.next == p;
            assert Entered(h, c);
          }
        }
        forall c | Entered(h, c) && LastSwitch(h, c).value.next == p
          ensures p in Run(h).runStart && Run(h).runStart[p] == LastSwitch(h, c).value.ts
        {
          if c != e.cpu {
            assert Entered(before, c);
          }
        }
      } else {
        assert forall c :: LastSwitch(h, c) == LastSwitch(before, c);
        assert forall c :: Entered(h, c) <==> Entered(before, c);
      }
    }
  }

  ghost predicate RunningTraced(boot: nat -> Pid, h: seq<Event>, p: Pid) {
    p != 0 && exists c :: LastSwitch(h, c).Some? && Current(boot, h, c) == p
  }

  /** The claim that `run_start` holds exactly the running non-idle pids switched
      in since tracing began is true precisely when no CPU's latest switch was
      from a pid to itself. */
  lemma RunStartIsRunningIff(boot: nat -> Pid, h: seq<Event>)
    requires Schedule(boot, h)
    ensures (forall p :: p in Run(h).runStart <==> RunningTraced(boot, h, p))
       <==> (forall c :: LastSwitch(h, c).Some? && LastSwitch(h, c).value.next != 0 ==> Entered(h, c))
  {
    forall p
      ensures p in Run(h).runStart ==> RunningTraced(boot, h, p)
      ensures p in Run(h).runStart <==> exists c :: Entered(h, c) && LastSwitch(h, c).value.next == p
    {
      RunStartIsEntered(boot, h, p);
    }
    if forall p :: p in Run(h).runStart <==> RunningTraced(boot, h, p) {
      forall c | LastSwitch(h, c).Some? && LastSwitch(h, c).value.next != 0
        ensures Entered(h, c)
      {
        var p := LastSwitch(h, c).value.next;
        assert RunningTraced(boot, h, p);
        var d :| Entered(h, d) && LastSwitch(h, d).value.next == p;
        if c != d {
          OneCpuEach(boot, h, c, d);
        }
      }
    }
  }

  const ALL_IDLE: nat -> Pid := _ => 0

  /** Pid 5 enters CPU 0 and is then switched to itself. */
  const SELF_SWITCH := [Switch(0, 0, 0, 5, 5, 10), Switch(0, 5, 5, 5, 5, 20)]

  lemma SelfSwitchSchedule()
    ensures Schedule(ALL_IDLE, SELF_SWITCH) && Monotone(SELF_SWITCH)
    ensures SELF_SWITCH[..1] == [SELF_SWITCH[0]] && SELF_SWITCH[..1][..0] == []
    ensures forall c :: LastSwitch(SELF_SWITCH[..1], c) == if c == 0 then Some(SELF_SWITCH[0]) else None
    ensures forall c :: LastSwitch(SELF_SWITCH, c) == if c == 0 then Some(SELF_SWITCH[1]) else None
  {
    var h := SELF_SWITCH;
    var h0 := h[..1];
    assert h0[..0] == [] && h[..|h| - 1] == h0;
    assert forall c :: LastSwitch([], c) == None;
    assert forall c :: LastSwitch(h0, c) == if c == 0 then Some(h[0]) else None;
    assert Schedule(ALL_IDLE, []) && Schedule(ALL_IDLE, h0) && Schedule(ALL_IDLE, h);
  }

  /** A self-switch drops the stamp of a pid that is still running. */
  lemma SelfSwitchLosesStamp()
    ensures Schedule(ALL_IDLE, SELF_SWITCH) && Monotone(SELF_SWITCH)
    ensures RunningTraced(ALL_IDLE, SELF_SWITCH, 5) && 5 !in Run(SELF_SWITCH).runStart
  {
    SelfSwitchSchedule();
    assert Current(ALL_IDLE, SELF_SWITCH, 0) == 5;
    RunStartIsEntered(ALL_IDLE, SELF_SWITCH, 5);
  }

  // ------------------------------------------------ run intervals tile CPU time

  /** The time `pid` held a CPU between two consecutive switches on it.  It is
      `measured` when neither of the two was from a pid to itself. */
  datatype Span = Span(pid: Pid, from: nat, to: nat, measured: bool)

  function SpanBetween(s: Event, e: Event): Span
    requires s.Switch? && e.Switch?
  {
    Span(s.next, s.ts, e.ts, s.prev != s.next && e.prev != e.next)
  }

  /** Every stretch between consecutive switches on `cpu`, in order. */
  function Spans(h: seq<Event>, cpu: nat): seq<Span> {
    if h == [] then []
    else
      var before, e := h[..|h| - 1], h[|h| - 1];
      if e.Switch? && e.cpu == cpu && LastSwitch(before, cpu).Some?
      then Spans(before, cpu) + [SpanBetween(LastSwitch(before, cpu).value, e)]
      else Spans(before, cpu)
  }

  function FirstSwitch(h: seq<Event>, cpu: nat): Option<Event> {
    if h == [] then None
    else
      var r := FirstSwitch(h[..|h| - 1], cpu);
      if r.Some? then r
      else if h[|h| - 1].Switch? && h[|h| - 1].cpu == cpu then Some(h[|h| - 1])
      else None
  }

  /** Time covered by the spans of one sort. */
  datatype Sort = Idle | Measured | Lost

  function SortOf(s: Span): Sort {
    if s.pid == 0 then Idle else if s.measured then Measured else Lost
  }

  function Ns(spans: seq<Span>, sort: Sort): int {
    if spans == [] then 0
    else
      var s := spans[|spans| - 1];
      Ns(spans[..|spans| - 1], sort) + (if SortOf(s) == sort then s.to - s.from else 0)
  }

  /** The spans cover the time between the first and the last switch on `cpu`,
      with nothing missing and nothing counted twice. */
  lemma {:induction false} SpansCoverTime(h: seq<Event>, cpu: nat)
    ensures FirstSwitch(h, cpu).Some? <==> LastSwitch(h, cpu).Some?
    ensures LastSwitch(h, cpu).Some? ==>
              Ns(Spans(h, cpu), Idle) + Ns(Spans(h, cpu), Measured) + Ns(Spans(h, cpu), Lost)
              == LastSwitch(h, cpu).value.ts - FirstSwitch(h, cpu).value.ts
    ensures LastSwitch(h, cpu).None? ==> Spans(h, cpu) == []
  {
    if h == [] {
    } else {
      SpansCoverTime(h[..|h| - 1], cpu);
    }
  }

  /** The run intervals submitted on `cpu`, as spans. */
  function RunsOn(log: seq<Interval>, cpu: nat): seq<Span> {
    if log == [] then []
    else
      var i := log[|log| - 1];
      RunsOn(log[..|log| - 1], cpu)
      + (if i.kind == Ran && i.cpu == cpu then [Span(i.pid, i.from, i.to, true)] else [])
  }

  lemma RunsOnSnoc(log: seq<Interval>, i: Interval, cpu: nat)
    ensures RunsOn(log + [i], cpu)
         == RunsOn(log, cpu) + (if i.kind == Ran && i.cpu == cpu then [Span(i.pid, i.from, i.to, true)] else [])
  {
    assert (log + [i])[..|log + [i]| - 1] == log;
  }

  lemma SwitchInRuns(s: Tracker, e: Event, cpu: nat)
    requires e.Switch?
    ensures RunsOn(SwitchIn(s, e).log, cpu) == RunsOn(s.log, cpu)
  {
    if e.next != 0 && e.next in s.queueStart {
      RunsOnSnoc(s.log, Interval(Queued, e.cpu, e.next, e.nextTgid, s.queueStart[e.next], e.ts), cpu);
    }
  }

  lemma SwitchOutRuns(s: Tracker, e: Event, cpu: nat)
    requires e.Switch?
    ensures RunsOn(SwitchOut(s, e).log, cpu)
         == RunsOn(s.log, cpu)
            + (if e.prev != 0 && e.prev in s.runStart && e.cpu == cpu
               then [Span(e.prev, s.runStart[e.prev], e.ts, true)] else [])
  {
    if e.prev != 0 && e.prev in s.runStart {
      RunsOnSnoc(s.log, Interval(Ran, e.cpu, e.prev, e.prevTgid, s.runStart[e.prev], e.ts), cpu);
    }
  }

  /** What the last switch on its CPU submits about the task it left. */
  lemma {:induction false} RunAtSwitch(boot: nat -> Pid, h: seq<Event>)
    requires Schedule(boot, h) && h != [] && h[|h| - 1].Switch?
    ensures var before, e := h[..|h| - 1], h[|h| - 1];
            RunsOn(Run(h).log, e.cpu) == RunsOn(Run(before).log, e.cpu)
            + (if e.prev == 0 then []
               else if e.prev == e.next then [Span(e.prev, e.ts, e.ts, true)]
               else if Entered(before, e.cpu) then [SpanBetween(LastSwitch(before, e.cpu).value, e)]
               else [])
  {
    var before, e := h[..|h| - 1], h[|h| - 1];
    var s := Run(before);
    var m := SwitchIn(s, e);
    SwitchInRuns(s, e, e.cpu);
    SwitchOutRuns(m, e, e.cpu);
    if e.prev != 0 && e.prev != e.next {
      RunStartIsEntered(boot, before, e.prev);
      if e.prev in s.runStart {
        var c :| Entered(before, c) && LastSwitch(before, c).value.next == e.prev;
        if c != e.cpu {
          OneCpuEach(boot, before, c, e.cpu);
        }
      }
    }
  }

  lemma RunElsewhere(h: seq<Event>, cpu: nat)
    requires h != [] && !(h[|h| - 1].Switch? && h[|h| - 1].cpu == cpu)
    ensures RunsOn(Run(h).log, cpu) == RunsOn(Run(h[..|h| - 1]).log, cpu)
  {
    var s, e := Run(h[..|h| - 1]), h[|h| - 1];
    if e.Switch? {
      SwitchInRuns(s, e, cpu);
      SwitchOutRuns(SwitchIn(s, e), e, cpu);
    }
  }

  function Busy(spans: seq<Span>): seq<Span> {
    if spans == [] then []
    else
      var last := spans[|spans| - 1];
      Busy(spans[..|spans| - 1]) + (if last.pid != 0 then [last] else [])
  }

  predicate NoSelfSwitch(h: seq<Event>, cpu: nat) {
    forall i :: 0 <= i < |h| && h[i].Switch? && h[i].cpu == cpu && h[i].next != 0 ==> h[i].prev != h[i].next
  }

  /** On a well-formed schedule a CPU's run intervals are, one for one and in
      order, the stretches between its consecutive switches that are not idle. */
  lemma {:induction false} RunsTileCpu(boot: nat -> Pid, h: seq<Event>, cpu: nat)
    requires Schedule(boot, h) && NoSelfSwitch(h, cpu)
    ensures RunsOn(Run(h).log, cpu) == Busy(Spans(h, cpu))
  {
    if h == [] {
    } else {
      var before, e := h[..|h| - 1], h[|h| - 1];
      RunsTileCpu(boot, before, cpu);
      if e.Switch? && e.cpu == cpu {
        RunAtSwitch(boot, h);
        LastSwitchIn(before, cpu);
      } else {
        RunElsewhere(h, cpu);
      }
    }
  }

  lemma {:induction false} LastSwitchIn(h: seq<Event>, cpu: nat)
    ensures LastSwitch(h, cpu).Some? ==> exists i :: 0 <= i < |h| && h[i] == LastSwitch(h, cpu).value
  {
    if h != [] && !(h[|h| - 1].Switch? && h[|h| - 1].cpu == cpu) {
      LastSwitchIn(h[..|h| - 1], cpu);
    }
  }

  lemma NsAppend(spans: seq<Span>, s: Span, sort: Sort)
    ensures Ns(spans + [s], sort) == Ns(spans, sort) + (if SortOf(s) == sort then s.to - s.from else 0)
  {
    assert (spans + [s])[..|spans + [s]| - 1] == spans;
  }

  /** The measured time that switch `e` closes on its CPU. */
  function Gain(before: seq<Event>, e: Event): int
    requires e.Switch?
  {
    match LastSwitch(before, e.cpu)
    case None => 0
    case Some(last) => if SortOf(SpanBetween(last, e)) == Measured then e.ts - last.ts else 0
  }

  lemma SpansGain(h: seq<Event>)
    requires h != [] && h[|h| - 1].Switch?
    ensures var before, e := h[..|h| - 1], h[|h| - 1];
            Ns(Spans(h, e.cpu), Measured) == Ns(Spans(before, e.cpu), Measured) + Gain(before, e)
  {
    var before, e := h[..|h| - 1], h[|h| - 1];
    if LastSwitch(before, e.cpu).Some? {
      NsAppend(Spans(before, e.cpu), SpanBetween(LastSwitch(before, e.cpu).value, e), Measured);
    }
  }

  lemma RunsGain(boot: nat -> Pid, h: seq<Event>)
    requires Schedule(boot, h) && h != [] && h[|h| - 1].Switch?
    ensures var before, e := h[..|h| - 1], h[|h| - 1];
            Ns(RunsOn(Run(h).log, e.cpu), Measured) == Ns(RunsOn(Run(before).log, e.cpu), Measured) + Gain(before, e)
  {
    var before, e := h[..|h| - 1], h[|h| - 1];
    var runs := RunsOn(Run(before).log, e.cpu);
    RunAtSwitch(boot, h);
    if e.prev == e.next && e.prev != 0 {
      NsAppend(runs, Span(e.prev, e.ts, e.ts, true), Measured);
    } else if e.prev != 0 && Entered(before, e.cpu) {
      NsAppend(runs, SpanBetween(LastSwitch(before, e.cpu).value, e), Measured);
    } else {
      assert runs + [] == runs;
    }
    assert e.prev == Current(boot, before, e.cpu);
  }

  /** Self-switches or not, the run time reported on a CPU is its measured time. */
  lemma {:induction false} RunTimeIsMeasured(boot: nat -> Pid, h: seq<Event>, cpu: nat)
    requires Schedule(boot, h)
    ensures Ns(RunsOn(Run(h).log, cpu), Measured) == Ns(Spans(h, cpu), Measured)
  {
    if h == [] {
    } else {
      RunTimeIsMeasured(boot, h[..|h| - 1], cpu);
      if h[|h| - 1].Switch? && h[|h| - 1].cpu == cpu {
        SpansGain(h);
        RunsGain(boot, h);
      } else {
        RunElsewhere(h, cpu);
        assert Spans(h, cpu) == Spans(h[..|h| - 1], cpu);
      }
    }
  }

  /** The run of `SelfSwitchLosesStamp` loses all ten nanoseconds between its switches. */
  lemma SelfSwitchLosesTime()
    ensures Schedule(ALL_IDLE, SELF_SWITCH) && Ns(Spans(SELF_SWITCH, 0), Lost) == 10
    ensures Ns(RunsOn(Run(SELF_SWITCH).log, 0), Measured) + Ns(Spans(SELF_SWITCH, 0), Idle) == 0
  {
    var h := SELF_SWITCH;
    SelfSwitchSchedule();
    assert h[..|h| - 1] == h[..1];
    assert Spans(h[..1], 0) == [];
    assert Spans(h, 0) == [SpanBetween(h[0], h[1])];
    assert Spans(h, 0)[..0] == [];
    RunTimeIsMeasured(ALL_IDLE, h, 0);
  }

  /** Run time and idle time account for all the time between a CPU's first and
      last switch exactly when no time is lost next to a self-switch. */
  lemma RunTimeTilesIff(boot: nat -> Pid, h: seq<Event>, cpu: nat)
    requires Schedule(boot, h) && LastSwitch(h, cpu).Some?
    ensures FirstSwitch(h, cpu).Some?
    ensures Ns(RunsOn(Run(h).log, cpu), Measured) + Ns(Spans(h, cpu), Idle)
         == LastSwitch(h, cpu).value.ts - FirstSwitch(h, cpu).value.ts
       <==> Ns(Spans(h, cpu), Lost) == 0
  {
    RunTimeIsMeasured(boot, h, cpu);
    SpansCoverTime(h, cpu);
  }
}
