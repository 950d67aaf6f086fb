/** The collection pipeline for one hook: a poll, an output and the main thread. */
module Collect {
  import opened Wrappers
  import opened Sums
  import opened ChunkLoader

  /** Who is inside the output critical section. */
  datatype Who = OutputThread | MainThread

  /** Where a thread is in its critical section.  `Snapped` is between `data()` and
      `clear()`, `Popped` between `clear()` and the end of the write; `Failed` is the
      main thread after an exception, which leaves the lock held. */
  datatype Phase =
    | Outside | Entered | Snapped(data: seq<Sample>) | Popped(data: seq<Sample>) | Leaving | Failed | Finished

  /** `appended` samples have been appended so far, numbered from 0. */
  datatype State = State(
    appended: nat, buffer: seq<Sample>, pollJoined: bool, lock: Option<Who>,
    output: Phase, main: Phase, num: nat, chunks: map<nat, seq<Sample>>, end: Option<seq<Sample>>)

  const START := State(0, [], false, None, Outside, Outside, 0, map[], None)

  /** The poll thread appends samples to the buffer while the output thread and, at the end,
      the main thread pop it and write chunk files; each of these is a step of its own. */
  datatype Step =
    | Append
    | JoinPoll
    | Acquire(who: Who)
    | Snap(who: Who)
    | Clear(who: Who)
    | Write(who: Who)
    | Raise(who: Who)   // pop_data, the write, or the change of owner after it raises
    | Release(who: Who)

  function PhaseOf(s: State, who: Who): Phase {
    if who.OutputThread? then s.output else s.main
  }

  function SetPhase(s: State, who: Who, p: Phase): State {
    if who.OutputThread? then s.(output := p) else s.(main := p)
  }

  /** The main thread pops only after joining the poll thread; the output thread never
      sees the end flag, so it may go on at any time. */
  predicate Enabled(s: State, step: Step) {
    match step
    case Append => !s.pollJoined
    case JoinPoll => !s.pollJoined
    case Acquire(who) => PhaseOf(s, who).Outside? && s.lock.None? && (who.MainThread? ==> s.pollJoined)
    case Snap(who) => PhaseOf(s, who).Entered?
    case Clear(who) => PhaseOf(s, who).Snapped?
    case Write(who) => PhaseOf(s, who).Popped?
    case Raise(who) => PhaseOf(s, who).Entered? || PhaseOf(s, who).Popped? || PhaseOf(s, who).Leaving?
    case Release(who) => PhaseOf(s, who).Leaving?
  }

  function Next(s: State, step: Step): State
    requires Enabled(s, step)
  {
    match step
    case Append => s.(buffer := s.buffer + [s.appended], appended := s.appended + 1)
    case JoinPoll => s.(pollJoined := true)
    case Acquire(who) => SetPhase(s, who, Entered).(lock := Some(who))
    case Snap(who) => SetPhase(s, who, Snapped(s.buffer))
    case Clear(who) => SetPhase(s, who, Popped(PhaseOf(s, who).data)).(buffer := [])
    case Write(who) =>
      var data := PhaseOf(s, who).data;
      var t := SetPhase(s, who, Leaving);
      if data == [] then t
      else if who.OutputThread? then t.(chunks := t.chunks[t.num := data])
      else t.(end := Some(data))
    case Raise(who) => SetPhase(s, who, if who.OutputThread? then Leaving else Failed)
    case Release(who) =>
      if who.OutputThread? then s.(output := Outside, lock := None, num := s.num + 1)
      else s.(main := Finished, lock := None)
  }

  predicate Valid(h: seq<Step>)
    decreases |h|, 0
  {
    h == [] || (Valid(h[..|h| - 1]) && Enabled(Run(h[..|h| - 1]), h[|h| - 1]))
  }

  function Run(h: seq<Step>): State
    requires Valid(h)
    decreases |h|, 1
  {
    if h == [] then START else Next(Run(h[..|h| - 1]), h[|h| - 1])
  }

  // ------------------------------------------------------- the threads' code

  /** What goes wrong in one call of the output routine. */
  datatype Fault = NoFault | PopRaises | WriteRaises | ChownRaises

  /** What the threads share.  Each of the small methods is one atomic step; the last two
      string them together as one thread runs them when nobody comes in between. */
  class Collector {
    var appended: nat
    var buffer: seq<Sample>
    var pollJoined: bool
    var lock: Option<Who>
    var output: Phase
    var main: Phase
    var num: nat
    var chunks: map<nat, seq<Sample>>
    var end: Option<seq<Sample>>

    ghost function Shared(): State
      reads this
    {
      State(appended, buffer, pollJoined, lock, output, main, num, chunks, end)
    }

    function At(who: Who): Phase
      reads this
    {
      if who.OutputThread? then output else main
    }

    constructor ()
      ensures Shared() == START
    {
      appended, buffer, pollJoined, lock, output, main := 0, [], false, None, Outside, Outside;
      num, chunks, end := 0, map[], None;
    }

    method Poll()
      requires Enabled(Shared(), Append)
      modifies this
      ensures Shared() == Next(old(Shared()), Append)
    {
      buffer := buffer + [appended];
      appended := appended + 1;
    }

    method JoinPollThread()
      requires Enabled(Shared(), JoinPoll)
      modifies this
      ensures Shared() == Next(old(Shared()), JoinPoll)
    {
      pollJoined := true;
    }

    method MoveTo(who: Who, p: Phase)
      modifies this`output, this`main
      ensures output == (if who.OutputThread? then p else old(output))
      ensures main == (if who.OutputThread? then old(main) else p)
    {
      if who.OutputThread? {
        output := p;
      } else {
        main := p;
      }
    }

    method AcquireLock(who: Who)
      requires Enabled(Shared(), Acquire(who))
      modifies this
      ensures Shared() == Next(old(Shared()), Acquire(who))
    {
      lock := Some(who);
      MoveTo(who, Entered);
    }

    method Data(who: Who)
      requires Enabled(Shared(), Snap(who))
      modifies this
      ensures Shared() == Next(old(Shared()), Snap(who))
    {
      MoveTo(who, Snapped(buffer));
    }

    method ClearBuffer(who: Who)
      requires Enabled(Shared(), Clear(who))
      modifies this
      ensures Shared() == Next(old(Shared()), Clear(who))
    {
      MoveTo(who, Popped(At(who).data));
      buffer := [];
    }

    /** An empty table list writes no file. */
    method WriteParquet(who: Who)
      requires Enabled(Shared(), Write(who))
      modifies this
      ensures Shared() == Next(old(Shared()), Write(who))
    {
      var data := At(who).data;
      MoveTo(who, Leaving);
      if data != [] {
        if who.OutputThread? {
          chunks := chunks[num := data];
        } else {
          end := Some(data);
        }
      }
    }

    method Fail(who: Who)
      requires Enabled(Shared(), Raise(who))
      modifies this
      ensures Shared() == Next(old(Shared()), Raise(who))
    {
      MoveTo(who, if who.OutputThread? then Leaving else Failed);
    }

    method ReleaseLock(who: Who)
      requires Enabled(Shared(), Release(who))
      modifies this
      ensures Shared() == Next(old(Shared()), Release(who))
    {
      lock := None;
      if who.OutputThread? {
        output, num := Outside, num + 1;
      } else {
        main := Finished;
      }
    }

    /** `pop_data` with no append in between. */
    method PopData(who: Who)
      requires At(who) == Entered
      modifies this
      ensures Shared() == SetPhase(old(Shared()), who, Popped(old(buffer))).(buffer := [])
    {
      Data(who);
      ClearBuffer(who);
    }

    /** Pop, then write; an exception leaves the rest undone.  One that comes while the
        owner of the written file is changed finds the samples on disk. */
    method OutputCollectionsToFile(who: Who, fault: Fault)
      requires At(who) == Entered
      modifies this
      ensures At(who) == if fault.NoFault? || who.OutputThread? then Leaving else Failed
      ensures buffer == if fault.PopRaises? then old(buffer) else []
      ensures chunks == if (fault.NoFault? || fault.ChownRaises?) && who.OutputThread? && old(buffer) != []
                        then old(chunks)[num := old(buffer)] else old(chunks)
      ensures end == if (fault.NoFault? || fault.ChownRaises?) && who.MainThread? && old(buffer) != []
                     then Some(old(buffer)) else old(end)
      ensures appended == old(appended) && pollJoined == old(pollJoined) && lock == old(lock) && num == old(num)
      ensures if who.OutputThread? then main == old(main) else output == old(output)
    {
      if fault.PopRaises? {
        Fail(who);
        return;
      }
      PopData(who);
      if fault.WriteRaises? {
        Fail(who);
        return;
      }
      WriteParquet(who);
      if fault.ChownRaises? {
        Fail(who);
      }
    }

    /** One undisturbed round of the output thread: the buffer becomes the next chunk.
        A failed write still uses up the chunk number, and the samples are gone. */
    method OutputRound(fault: Fault)
      requires Enabled(Shared(), Acquire(OutputThread))
      modifies this
      ensures Shared() == old(Shared()).(
                          buffer := if fault.PopRaises? then old(buffer) else [],
                          num := old(num) + 1,
                          chunks := if (fault.NoFault? || fault.ChownRaises?) && old(buffer) != []
                          then old(chunks)[old(num) := old(buffer)] else old(chunks))
    {
      AcquireLock(OutputThread);
      OutputCollectionsToFile(OutputThread, fault);
      ReleaseLock(OutputThread);
    }

    /** The main thread's last pop; an exception leaves the lock held for good. */
    method FinalPop(fault: Fault)
      requires Enabled(Shared(), Acquire(MainThread))
      modifies this
      ensures Shared() == old(Shared()).(
                          buffer := if fault.PopRaises? then old(buffer) else [],
                          lock := if fault.NoFault? then None else Some(MainThread),
                          main := if fault.NoFault? then Finished else Failed,
                          end := if (fault.NoFault? || fault.ChownRaises?) && old(buffer) != []
                          then Some(old(buffer)) else old(end))
    {
      AcquireLock(MainThread);
      OutputCollectionsToFile(MainThread, fault);
      if main.Leaving? {
        ReleaseLock(MainThread);
      }
    }
  }

  // ------------------------------------------------------- what every step keeps

  /** Samples popped but not yet written. */
  function InFlight(s: State): seq<Sample> {
    if s.output.Popped? then s.output.data else if s.main.Popped? then s.main.data else []
  }

  /** What loading the run directory gives for the hook's table. */
  function Loaded(s: State): seq<Sample> {
    Cat(s.chunks, s.num + 1) + FinalRows(s.end)
  }

  /** Every sample still accounted for: on disk, in flight, or in the buffer. */
  function Line(s: State): seq<Sample> {
    Loaded(s) + InFlight(s) + s.buffer
  }

  predicate AllBelow(q: seq<Sample>, n: nat) {
    forall m :: m in q ==> m < n
  }

  predicate AllIn(q: seq<Sample>, n: nat) {
    forall m: nat :: m < n ==> m in q
  }

  predicate Inside(p: Phase) {
    p.Entered? || p.Snapped? || p.Popped? || p.Leaving?
  }

  predicate Held(p: Phase, q: seq<Sample>) {
    (p.Snapped? ==> p.data <= q)
  }

  predicate Consistent(s: State) {
    // the lock admits one thread at a time
    && (s.lock == Some(OutputThread) <==> Inside(s.output))
    && (s.lock == Some(MainThread) <==> Inside(s.main) || s.main.Failed?)
    && !s.output.Failed? && !s.output.Finished?
    && Held(s.output, s.buffer) && Held(s.main, s.buffer)
    // chunk numbers in use
    && (forall n :: n in s.chunks ==> n < s.num || (n == s.num && s.output.Leaving?))
    && (s.end.Some? ==> s.main.Leaving? || s.main.Finished? || s.main.Failed?)
    // no file is empty
    && (forall n :: n in s.chunks ==> s.chunks[n] != []) && s.end != Some([])
    // after the final pop the buffer stays empty
    && (!s.main.Outside? ==> s.pollJoined)
    && (s.main.Popped? || s.main.Leaving? || s.main.Finished? ==> s.buffer == [])
    && (s.main.Finished? ==> InFlight(s) == [])
  }

  predicate InOrder(s: State) {
    Ascending(Line(s)) && AllBelow(Line(s), s.appended)
  }

  lemma StepConsistent(s: State, step: Step)
    requires Consistent(s) && Enabled(s, step)
    ensures Consistent(Next(s, step))
  {
  }

  lemma {:induction false} RunConsistent(h: seq<Step>)
    requires Valid(h)
    ensures Consistent(Run(h))
  {
    if h == [] {
    } else {
      RunConsistent(h[..|h| - 1]);
      StepConsistent(Run(h[..|h| - 1]), h[|h| - 1]);
    }
  }

  /** The rounds the output thread has completed. */
  function Rounds(h: seq<Step>): nat {
    if h == [] then 0 else Rounds(h[..|h| - 1]) + if h[|h| - 1] == Release(OutputThread) then 1 else 0
  }

  /** Chunks are numbered by rounds, those with nothing to write included. */
  lemma {:induction false} NumIsRounds(h: seq<Step>)
    requires Valid(h)
    ensures Run(h).num == Rounds(h)
  {
    if h == [] {
    } else {
      NumIsRounds(h[..|h| - 1]);
    }
  }

  /** At most one thread is between `data()` and the end of its write. */
  lemma OneThreadPops(h: seq<Step>)
    requires Valid(h)
    ensures !(Inside(Run(h).output) && Inside(Run(h).main))
  {
    RunConsistent(h);
  }

  // ------------------------------------------------------- what a step loses

  /** Samples appended between `data()` and `clear()`, and popped samples whose write
      does not happen. */
  function LostBy(s: State, step: Step): seq<Sample>
    requires Enabled(s, step)
  {
    match step
    case Clear(who) =>
      var data := PhaseOf(s, who).data;
      if data <= s.buffer then s.buffer[|data|..] else []
    case Raise(who) => if PhaseOf(s, who).Popped? then PhaseOf(s, who).data else []
    case _ => []
  }

  lemma WriteKeepsLine(s: State, who: Who)
    requires Consistent(s) && Enabled(s, Write(who))
    ensures Line(Next(s, Write(who))) == Line(s)
  {
    var t := Next(s, Write(who));
    if PhaseOf(s, who).data != [] && who.OutputThread? {
      CatSame(s.chunks, t.chunks, s.num);
      assert Cat(s.chunks, s.num + 1) == Cat(s.chunks, s.num);
    }
  }

  lemma ReleaseKeepsLine(s: State, who: Who)
    requires Consistent(s) && Enabled(s, Release(who))
    ensures Line(Next(s, Release(who))) == Line(s)
  {
    if who.OutputThread? {
      assert Cat(s.chunks, s.num + 2) == Cat(s.chunks, s.num + 1);
    }
  }

  lemma ClearLine(s: State, who: Who)
    requires Consistent(s) && Enabled(s, Clear(who))
    ensures Line(s) == Line(Next(s, Clear(who))) + LostBy(s, Clear(who))
  {
    var t, data, lost := Next(s, Clear(who)), PhaseOf(s, who).data, LostBy(s, Clear(who));
    assert s.buffer == data + lost;
    assert InFlight(s) == [] && InFlight(t) == data && t.buffer == [];
    Regroup(Loaded(s), data, lost);
  }

  lemma Regroup(a: seq<Sample>, b: seq<Sample>, c: seq<Sample>)
    ensures a + [] + (b + c) == a + b + [] + c
  {
  }

  lemma RaiseLine(s: State, who: Who) returns (a: seq<Sample>, b: seq<Sample>)
    requires Consistent(s) && Enabled(s, Raise(who))
    ensures Line(s) == a + LostBy(s, Raise(who)) + b && Line(Next(s, Raise(who))) == a + b
  {
    a, b := Loaded(s), s.buffer;
    if !PhaseOf(s, who).Popped? {
      a := Loaded(s) + InFlight(s);
    }
  }

  /** How the line of samples changes: it grows at the end, or loses what the step
      loses, wherever that sits. */
  lemma StepLine(s: State, step: Step) returns (a: seq<Sample>, b: seq<Sample>)
    requires Consistent(s) && Enabled(s, step)
    ensures Line(s) == a + LostBy(s, step) + b
    ensures Line(Next(s, step)) == a + b + if step.Append? then [s.appended] else []
  {
    a, b := Line(s), [];
    if step.Clear? {
      ClearLine(s, step.who);
      a := Line(Next(s, step));
    } else if step.Raise? {
      a, b := RaiseLine(s, step.who);
    } else if step.Write? {
      WriteKeepsLine(s, step.who);
    } else if step.Release? {
      ReleaseKeepsLine(s, step.who);
    }
  }

  /** Cutting a piece out of an ascending sequence takes exactly its elements. */
  lemma CutMiddle(a: seq<Sample>, lost: seq<Sample>, b: seq<Sample>)
    requires Ascending(a + lost + b)
    ensures Ascending(a + b) && Ascending(a)
    ensures forall n :: n in a + b <==> n in a + lost + b && n !in lost
  {
    var whole := a + lost + b;
    assert forall i :: 0 <= i < |a| ==> whole[i] == a[i];
    assert forall i :: 0 <= i < |lost| ==> whole[|a| + i] == lost[i];
    assert forall i :: 0 <= i < |b| ==> whole[|a| + |lost| + i] == b[i];
  }

  lemma StepInOrder(s: State, step: Step)
    requires Consistent(s) && InOrder(s) && Enabled(s, step)
    ensures InOrder(Next(s, step))
    ensures forall n :: n in Line(Next(s, step)) <==>
                        (n in Line(s) && n !in LostBy(s, step)) || (step.Append? && n == s.appended)
    ensures forall n :: n in LostBy(s, step) ==> n in Line(s)
  {
    var a, b := StepLine(s, step);
    CutAndGrow(a, LostBy(s, step), b, s.appended, step.Append?);
  }

  /** One sample: an exception leaves it in the line unless it loses it. */
  lemma RaiseKeeps(h: seq<Step>, who: Who, m: Sample)
    requires Valid(h) && Enabled(Run(h), Raise(who))
    ensures m in Line(Next(Run(h), Raise(who))) <==> m in Line(Run(h)) && m !in LostBy(Run(h), Raise(who))
    ensures m in LostBy(Run(h), Raise(who)) ==> m in Line(Run(h))
  {
    RunConsistent(h);
    RunInOrder(h);
    StepInOrder(Run(h), Raise(who));
  }

  /** The same with the next number at the end. */
  lemma CutAndGrow(a: seq<Sample>, lost: seq<Sample>, b: seq<Sample>, n: nat, grows: bool)
    requires Ascending(a + lost + b) && AllBelow(a + lost + b, n)
    ensures var t := a + b + if grows then [n] else [];
            && Ascending(t) && AllBelow(t, if grows then n + 1 else n)
            && forall m :: m in t <==> (m in a + lost + b && m !in lost) || (grows && m == n)
    ensures forall m :: m in lost ==> m in a + lost + b
  {
    CutMiddle(a, lost, b);
    assert AllBelow(a + b, n);
    Grow(a + b, n);
    assert a + b + [] == a + b;
  }

  lemma Grow(q: seq<Sample>, n: nat)
    requires Ascending(q) && AllBelow(q, n)
    ensures Ascending(q + [n]) && AllBelow(q + [n], n + 1)
  {
    assert forall i :: 0 <= i < |q| ==> q[i] in q;
  }

  lemma {:induction false} RunInOrder(h: seq<Step>)
    requires Valid(h)
    ensures InOrder(Run(h))
  {
    if h == [] {
    } else {
      RunInOrder(h[..|h| - 1]);
      RunConsistent(h[..|h| - 1]);
      StepInOrder(Run(h[..|h| - 1]), h[|h| - 1]);
    }
  }

  lemma PrefixInOrder(p: seq<Sample>, q: seq<Sample>, n: nat)
    requires Ascending(p + q) && AllBelow(p + q, n)
    ensures Ascending(p) && AllBelow(p, n)
  {
    assert forall i :: 0 <= i < |p| ==> (p + q)[i] == p[i];
    assert forall m :: m in p ==> m in p + q;
  }

  lemma LoadedInOrder(s: State)
    requires InOrder(s)
    ensures Ascending(Loaded(s)) && AllBelow(Loaded(s), s.appended)
  {
    assert Line(s) == Loaded(s) + (InFlight(s) + s.buffer);
    PrefixInOrder(Loaded(s), InFlight(s) + s.buffer, s.appended);
  }

  /** In every interleaving, loading any listing of the run directory gives a
      subsequence of the append order: rows strictly in append order, so no sample
      is in two chunks. */
  lemma LoadedIsSubsequence(h: seq<Step>, files: seq<File>, table: string)
    requires Valid(h) && Listing(files, table, Run(h).chunks, Run(h).end)
    ensures var rows := RowsOf(OfTable(SortedByKey(EntriesOf(files)), table));
            rows == Loaded(Run(h)) && Ascending(rows) && AllBelow(rows, Run(h).appended)
  {
    RunConsistent(h);
    RunInOrder(h);
    LoadedInOrder(Run(h));
    LoadIsChunkOrder(files, table, Run(h).chunks, Run(h).end, Run(h).num + 1);
  }

  // ------------------------------------------------------- when nothing is missing

  predicate Accounted(s: State) {
    AllIn(Line(s), s.appended)
  }

  lemma StepAccounted(s: State, step: Step)
    requires Consistent(s) && InOrder(s) && Enabled(s, step)
    ensures Accounted(Next(s, step)) <==> Accounted(s) && LostBy(s, step) == []
  {
    StepInOrder(s, step);
    var lost, t := LostBy(s, step), Next(s, step);
    if lost != [] {
      assert lost[0] in lost;
      assert lost[0] in Line(s) && lost[0] !in Line(t);
    } else {
      forall n: nat | n < s.appended
        ensures n in Line(t) <==> n in Line(s)
      {
      }
    }
  }

  // The same by the events alone: how many samples a history has buffered, snapped and
  // popped, without looking at any state.

  /** Appends since the buffer was last cleared. */
  function Buffered(h: seq<Step>): nat {
    if h == [] || h[|h| - 1].Clear? then 0
    else Buffered(h[..|h| - 1]) + if h[|h| - 1].Append? then 1 else 0
  }

  /** Appends since the latest `data()`. */
  function AppendsSinceSnap(h: seq<Step>): nat {
    if h == [] || h[|h| - 1].Snap? then 0
    else AppendsSinceSnap(h[..|h| - 1]) + if h[|h| - 1].Append? then 1 else 0
  }

  /** What the latest `data()` took. */
  function Taken(h: seq<Step>): nat {
    if h == [] then 0 else if h[|h| - 1].Snap? then Buffered(h[..|h| - 1]) else Taken(h[..|h| - 1])
  }

  /** Samples popped and neither written nor dropped yet. */
  function Popping(h: seq<Step>): nat {
    if h == [] then 0
    else
      var before := h[..|h| - 1];
      match h[|h| - 1]
      case Clear(_) => Taken(before)
      case Write(_) => 0
      case Raise(_) => 0
      case _ => Popping(before)
  }

  /** The next step loses what was appended between `data()` and `clear()`, or what was
      popped when an exception comes. */
  function Losing(h: seq<Step>, step: Step): nat {
    match step
    case Clear(_) => AppendsSinceSnap(h)
    case Raise(_) => Popping(h)
    case _ => 0
  }

  /** No append falls between a `data()` and its `clear()`, and no exception comes while
      popped samples are unwritten. */
  predicate Lossless(h: seq<Step>) {
    forall i :: 0 <= i < |h| ==> Losing(h[..i], h[i]) == 0
  }

  /** The sizes of buffer, snapshot and popped data are those the events say. */
  predicate Sized(s: State, h: seq<Step>) {
    && |s.buffer| == Buffered(h) && |InFlight(s)| == Popping(h)
    && (s.output.Snapped? ==> |s.output.data| == Taken(h) && |s.buffer| == Taken(h) + AppendsSinceSnap(h))
    && (s.main.Snapped? ==> |s.main.data| == Taken(h) && |s.buffer| == Taken(h) + AppendsSinceSnap(h))
  }

  lemma {:induction false} RunSized(h: seq<Step>)
    requires Valid(h)
    ensures Sized(Run(h), h)
  {
    if h == [] {
    } else {
      RunSized(h[..|h| - 1]);
      RunConsistent(h[..|h| - 1]);
      StepSized(Run(h[..|h| - 1]), h[..|h| - 1], h[|h| - 1], h);
    }
  }

  lemma StepSized(s: State, before: seq<Step>, step: Step, h: seq<Step>)
    requires Consistent(s) && Sized(s, before) && Enabled(s, step)
    requires h != [] && h[..|h| - 1] == before && h[|h| - 1] == step
    ensures Sized(Next(s, step), h)
  {
  }

  /** A step loses exactly as many samples as the events say: a `clear()` those appended
      since its `data()`, an exception those popped. */
  lemma StepLosesLosing(h: seq<Step>, step: Step)
    requires Valid(h) && Enabled(Run(h), step)
    ensures |LostBy(Run(h), step)| == Losing(h, step)
  {
    RunConsistent(h);
    RunSized(h);
  }

  function LostSoFar(h: seq<Step>): nat {
    if h == [] then 0 else LostSoFar(h[..|h| - 1]) + Losing(h[..|h| - 1], h[|h| - 1])
  }

  /** In every interleaving: samples on disk, in flight, buffered and lost add up to the
      samples appended. */
  lemma {:induction false} SamplesAddUp(h: seq<Step>)
    requires Valid(h)
    ensures |Line(Run(h))| + LostSoFar(h) == Run(h).appended
  {
    if h == [] {
    } else {
      var before := h[..|h| - 1];
      SamplesAddUp(before);
      RunConsistent(before);
      var a, b := StepLine(Run(before), h[|h| - 1]);
      StepLosesLosing(before, h[|h| - 1]);
    }
  }

  lemma LosslessNext(h: seq<Step>)
    requires h != []
    ensures Lossless(h) <==> Lossless(h[..|h| - 1]) && Losing(h[..|h| - 1], h[|h| - 1]) == 0
  {
    var before := h[..|h| - 1];
    assert forall i :: 0 <= i < |before| ==> before[..i] == h[..i] && before[i] == h[i];
  }

  lemma {:induction false} AccountedIff(h: seq<Step>)
    requires Valid(h)
    ensures Accounted(Run(h)) <==> Lossless(h)
  {
    if h == [] {
    } else {
      var before := h[..|h| - 1];
      AccountedIff(before);
      RunConsistent(before);
      RunInOrder(before);
      StepAccounted(Run(before), h[|h| - 1]);
      StepLosesLosing(before, h[|h| - 1]);
      LosslessNext(h);
    }
  }

  function Numbers(n: nat): (q: seq<Sample>)
    ensures |q| == n && forall i :: 0 <= i < n ==> q[i] == i
  {
    seq(n, i requires 0 <= i => i)
  }

  lemma {:induction false} AscendingIsNumbers(q: seq<Sample>, n: nat)
    requires Ascending(q) && AllBelow(q, n) && AllIn(q, n)
    ensures q == Numbers(n)
  {
    if q == [] {
      assert n > 0 ==> 0 in q;
    } else {
      assert q[|q| - 1] in q && n - 1 in q;
      var k :| 0 <= k < |q| && q[k] == n - 1;
      assert k == |q| - 1;
      var init := q[..|q| - 1];
      assert forall i :: 0 <= i < |init| ==> init[i] < q[|q| - 1];
      assert forall m :: m in q <==> m in init || m == n - 1;
      AscendingIsNumbers(init, n - 1);
    }
  }

  lemma LineIsNumbersIff(s: State)
    requires InOrder(s)
    ensures Line(s) == Numbers(s.appended) <==> Accounted(s)
  {
    var q, n := Line(s), s.appended;
    if Accounted(s) {
      AscendingIsNumbers(q, n);
    }
    if q == Numbers(n) {
      forall m: nat | m < n
        ensures m in q
      {
        assert q[m] == m;
      }
    }
  }

  /** Nothing waits to be written: so it is once the main thread has written its last
      chunk. */
  predicate AtRest(s: State) {
    s.main.Finished? || (InFlight(s) == [] && s.buffer == [])
  }

  /** At rest, the loaded rows are the whole append order if and only if no append fell
      between a `data()` and its `clear()` and no exception came while popped samples were
      unwritten; and exactly the samples lost that way are missing. */
  lemma LoadedIsAllIff(h: seq<Step>)
    requires Valid(h) && AtRest(Run(h))
    ensures Loaded(Run(h)) == Numbers(Run(h).appended) <==> Lossless(h)
    ensures |Loaded(Run(h))| + LostSoFar(h) == Run(h).appended
  {
    RunConsistent(h);
    RunInOrder(h);
    AccountedIff(h);
    LineIsNumbersIff(Run(h));
    SamplesAddUp(h);
    assert Line(Run(h)) == Loaded(Run(h));
  }

  /** One append, between the output thread's `data()` and `clear()`; then an undisturbed
      end. */
  const LATE_APPEND := [
    Acquire(OutputThread), Snap(OutputThread), Append, Clear(OutputThread),
    Write(OutputThread), Release(OutputThread), JoinPoll, Acquire(MainThread),
    Snap(MainThread), Clear(MainThread), Write(MainThread), Release(MainThread)]

  /** The history so far is one of the code's and leads to `s`. */
  predicate Reaches(h: seq<Step>, s: State) {
    Valid(h) && Run(h) == s
  }

  lemma Reach(h: seq<Step>, i: nat, s: State) returns (t: State)
    requires i < |h| && Reaches(h[..i], s) && Enabled(s, h[i])
    ensures t == Next(s, h[i]) && Reaches(h[..i + 1], t)
  {
    t := Next(s, h[i]);
    assert h[..i + 1][..i] == h[..i];
  }

  lemma LateSnap()
    ensures Reaches(LATE_APPEND[..2], State(0, [], false, Some(OutputThread), Snapped([]), Outside, 0, map[], None))
  {
    assert LATE_APPEND[..0] == [];
    var s := Reach(LATE_APPEND, 0, START);
    s := Reach(LATE_APPEND, 1, s);
  }

  lemma LateClear()
    ensures Reaches(LATE_APPEND[..4], State(1, [], false, Some(OutputThread), Popped([]), Outside, 0, map[], None))
  {
    LateSnap();
    var s := Reach(LATE_APPEND, 2, State(0, [], false, Some(OutputThread), Snapped([]), Outside, 0, map[], None));
    s := Reach(LATE_APPEND, 3, s);
  }

  lemma LateFinalAcquire()
    ensures Reaches(LATE_APPEND[..8], State(1, [], true, Some(MainThread), Outside, Entered, 1, map[], None))
  {
    LateClear();
    var s := State(1, [], false, Some(OutputThread), Popped([]), Outside, 0, map[], None);
    s := Reach(LATE_APPEND, 4, s);
    s := Reach(LATE_APPEND, 5, s);
    s := Reach(LATE_APPEND, 6, s);
    s := Reach(LATE_APPEND, 7, s);
  }

  lemma LateEnd()
    ensures Reaches(LATE_APPEND, State(1, [], true, None, Outside, Finished, 1, map[], None))
  {
    LateFinalAcquire();
    var s := State(1, [], true, Some(MainThread), Outside, Entered, 1, map[], None);
    s := Reach(LATE_APPEND, 8, s);
    s := Reach(LATE_APPEND, 9, s);
    s := Reach(LATE_APPEND, 10, s);
    s := Reach(LATE_APPEND, 11, s);
    assert LATE_APPEND[..12] == LATE_APPEND;
  }

  /** The run loses its one sample. */
  lemma LateAppendIsLost()
    ensures Valid(LATE_APPEND) && Run(LATE_APPEND).main.Finished?
    ensures Run(LATE_APPEND).appended == 1 && Loaded(Run(LATE_APPEND)) == []
  {
    LateEnd();
    var chunks := Run(LATE_APPEND).chunks;
    assert Cat(chunks, 0) == [] && Cat(chunks, 1) == [] && Cat(chunks, 2) == [];
  }
}
