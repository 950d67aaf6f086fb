/** The collection pipeline for several hooks popped by one call of the output routine. */
module CollectHooks {
  import opened Wrappers
  import opened Sums
  import opened ChunkLoader
  import C = Collect

  type Who = C.Who

  /** One hook and its files. */
  datatype Hook = Hook(appended: nat, buffer: seq<Sample>, chunks: map<nat, seq<Sample>>, end: Option<seq<Sample>>)

  const NEW_HOOK := Hook(0, [], map[], None)

  /** Where a thread is.  Inside, it has called `data()` on the first `|taken|` hooks,
      `clear()` on the first `cleared`, and written the files of the first `written`. */
  datatype Place =
    | Outside
    | Inside(taken: seq<seq<Sample>>, cleared: nat, written: nat)
    | Leaving
    | Failed
    | Finished

  datatype State = State(
    hooks: seq<Hook>, pollJoined: bool, lock: Option<Who>, output: Place, main: Place, num: nat)

  datatype Step =
    | Append(k: nat)
    | JoinPoll
    | Acquire(who: Who)
    | Snap(who: Who)
    | Clear(who: Who)
    | Write(who: Who)
    | Raise(who: Who)
    | Release(who: Who)

  function Start(n: nat): State {
    State(seq(n, _ => NEW_HOOK), false, None, Outside, Outside, 0)
  }

  function PlaceOf(s: State, who: Who): Place {
    if who.OutputThread? then s.output else s.main
  }

  function SetPlace(s: State, who: Who, p: Place): State {
    if who.OutputThread? then s.(output := p) else s.(main := p)
  }

  /** The places a thread passes through in a call for `n` hooks: the pops in hook order,
      then the writes in hook order. */
  predicate Proper(p: Place, n: nat) {
    p.Inside? ==>
      && p.cleared <= |p.taken| <= p.cleared + 1 && |p.taken| <= n
      && p.written <= n && (p.written > 0 ==> p.cleared == n)
  }

  predicate Popping(p: Place, n: nat) {
    p.Inside? && |p.taken| == p.cleared < n
  }

  predicate Writing(p: Place, n: nat) {
    p.Inside? && p.cleared == n && p.written < n
  }

  predicate Done(p: Place, n: nat) {
    p.Inside? && p.cleared == n && p.written == n
  }

  predicate Enabled(s: State, step: Step) {
    var n := |s.hooks|;
    match step
    case Append(k) => k < n && !s.pollJoined
    case JoinPoll => !s.pollJoined
    case Acquire(who) => PlaceOf(s, who).Outside? && s.lock.None? && (who.MainThread? ==> s.pollJoined)
    case Snap(who) => Popping(PlaceOf(s, who), n)
    case Clear(who) => var p := PlaceOf(s, who); p.Inside? && |p.taken| == p.cleared + 1
    case Write(who) => Writing(PlaceOf(s, who), n)
    case Raise(who) => var p := PlaceOf(s, who); p.Inside? && |p.taken| == p.cleared
    case Release(who) => PlaceOf(s, who).Leaving? || Done(PlaceOf(s, who), n)
  }

  /** The hook's file for this call, if it has samples. */
  function Written(k: Hook, who: Who, num: nat, data: seq<Sample>): Hook {
    if data == [] then k
    else if who.OutputThread? then k.(chunks := k.chunks[num := data])
    else k.(end := Some(data))
  }

  function Next(s: State, step: Step): State
    requires Enabled(s, step) && Proper(s.output, |s.hooks|) && Proper(s.main, |s.hooks|)
  {
    match step
    case Append(k) =>
      var hook := s.hooks[k];
      s.(hooks := s.hooks[k := hook.(buffer := hook.buffer + [hook.appended], appended := hook.appended + 1)])
    case JoinPoll => s.(pollJoined := true)
    case Acquire(who) => SetPlace(s, who, Inside([], 0, 0)).(lock := Some(who))
    case Snap(who) =>
      var p := PlaceOf(s, who);
      SetPlace(s, who, p.(taken := p.taken + [s.hooks[|p.taken|].buffer]))
    case Clear(who) =>
      var p := PlaceOf(s, who);
      SetPlace(s, who, p.(cleared := p.cleared + 1)).(
      hooks := s.hooks[p.cleared := s.hooks[p.cleared].(buffer := [])])
    case Write(who) =>
      var p := PlaceOf(s, who);
      SetPlace(s, who, p.(written := p.written + 1)).(
      hooks := s.hooks[p.written := Written(s.hooks[p.written], who, s.num, p.taken[p.written])])
    case Raise(who) => Stopped(s, who)
    case Release(who) =>
      if who.OutputThread? then s.(output := Outside, lock := None, num := s.num + 1)
      else s.(main := Finished, lock := None)
  }

  /** The places stay proper, and the number of hooks the same. */
  predicate Good(s: State, n: nat) {
    |s.hooks| == n && Proper(s.output, n) && Proper(s.main, n)
  }

  lemma NextGood(s: State, step: Step, n: nat)
    requires Good(s, n) && Enabled(s, step)
    ensures Good(Next(s, step), n)
  {
    match step {
      case Append(_) =>
      case JoinPoll =>
      case Acquire(who) =>
      case Snap(who) =>
      case Clear(who) =>
      case Write(who) =>
      case Raise(who) =>
      case Release(who) =>
    }
  }

  ghost predicate Valid(n: nat, h: seq<Step>)
    decreases |h|, 0
  {
    h == [] || (Valid(n, h[..|h| - 1]) && Enabled(Run(n, h[..|h| - 1]), h[|h| - 1]))
  }

  /** `n` hooks, from the start. */
  ghost function Run(n: nat, h: seq<Step>): (s: State)
    requires Valid(n, h)
    ensures Good(s, n)
    decreases |h|, 1
  {
    if h == [] then Start(n)
    else
      var before := Run(n, h[..|h| - 1]);
      NextGood(before, h[|h| - 1], n);
      Next(before, h[|h| - 1])
  }

  // ------------------------------------------------------- the output routine

  /** Where an exception comes in one call, if anywhere: while a hook is popped, its file
      written, or the owner of its file changed. */
  datatype Fault = NoFault | PopRaises(at: nat) | WriteRaises(at: nat) | ChownRaises(at: nat)

  predicate Raised(fault: Fault, n: nat) {
    !fault.NoFault? && fault.at < n
  }

  /** Hook `k` is popped. */
  predicate PopsHook(fault: Fault, k: nat) {
    fault.PopRaises? ==> k < fault.at
  }

  /** Hook `k` of `n` is popped and its file written. */
  predicate WritesHook(fault: Fault, k: nat, n: nat) {
    match fault
    case NoFault => true
    case PopRaises(at) => n <= at
    case WriteRaises(at) => k < at
    case ChownRaises(at) => k <= at
  }

  function Emptied(hook: Hook): Hook {
    hook.(buffer := [])
  }

  /** Hook `k` of `n` after a call. */
  function Output(hook: Hook, who: Who, num: nat, fault: Fault, k: nat, n: nat): Hook {
    if WritesHook(fault, k, n) then Written(Emptied(hook), who, num, hook.buffer)
    else if PopsHook(fault, k) then Emptied(hook)
    else hook
  }

  class Collector {
    var hooks: seq<Hook>
    var pollJoined: bool
    var lock: Option<Who>
    var output: Place
    var main: Place
    var num: nat

    ghost function Shared(): State
      reads this
    {
      State(hooks, pollJoined, lock, output, main, num)
    }

    function At(who: Who): Place
      reads this
    {
      if who.OutputThread? then output else main
    }

    ghost predicate Can(step: Step)
      reads this
    {
      Good(Shared(), |hooks|) && Enabled(Shared(), step)
    }

    constructor (n: nat)
      ensures Shared() == Start(n)
    {
      hooks, pollJoined, lock, output, main, num := seq(n, _ => NEW_HOOK), false, None, Outside, Outside, 0;
    }

    method MoveTo(who: Who, p: Place)
      modifies this`output, this`main
      ensures output == (if who.OutputThread? then p else old(output))
      ensures main == (if who.OutputThread? then old(main) else p)
    {
      if who.OutputThread? {
        output := p;
      } else {
        main := p;
      }
    }

    method Data(who: Who)
      requires Can(Snap(who))
      modifies this
      ensures Shared() == Next(old(Shared()), Snap(who))
    {
      var p := At(who);
      MoveTo(who, p.(taken := p.taken + [hooks[|p.taken|].buffer]));
    }

    method ClearBuffer(who: Who)
      requires Can(Clear(who))
      modifies this
      ensures Shared() == Next(old(Shared()), Clear(who))
    {
      var p := At(who);
      hooks := hooks[p.cleared := hooks[p.cleared].(buffer := [])];
      MoveTo(who, p.(cleared := p.cleared + 1));
    }

    method WriteParquet(who: Who)
      requires Can(Write(who))
      modifies this
      ensures Shared() == Next(old(Shared()), Write(who))
    {
      var p := At(who);
      var k, data := p.written, p.taken[p.written];
      if data != [] {
        if who.OutputThread? {
          hooks := hooks[k := hooks[k].(chunks := hooks[k].chunks[num := data])];
        } else {
          hooks := hooks[k := hooks[k].(end := Some(data))];
        }
      }
      MoveTo(who, p.(written := k + 1));
    }

    method Fail(who: Who)
      requires Can(Raise(who))
      modifies this
      ensures Shared() == Next(old(Shared()), Raise(who))
    {
      MoveTo(who, if who.OutputThread? then Leaving else Failed);
    }

    /** Every hook is popped, in order, until one raises. */
    method PopAll(who: Who, fault: Fault) returns (ok: bool)
      requires Good(Shared(), |hooks|) && At(who) == Inside([], 0, 0)
      modifies this
      ensures ok <==> !(fault.PopRaises? && fault.at < |old(hooks)|)
      ensures ok ==> Shared() == AfterPops(old(Shared()), who, |old(hooks)|)
      ensures !ok ==> Shared() == Stopped(AfterPops(old(Shared()), who, fault.at), who)
    {
      ghost var s := Shared();
      PopsNothing(s, who);
      var k := 0;
      while k < |hooks|
        invariant k <= |hooks| == |s.hooks| && Good(Shared(), |hooks|)
        invariant Shared() == AfterPops(s, who, k) && (fault.PopRaises? ==> k <= fault.at)
      {
        if fault == PopRaises(k) {
          Fail(who);
          return false;
        }
        PopHook(who, s, k);
        k := k + 1;
      }
      ok := true;
    }

    method PopHook(who: Who, ghost s: State, ghost k: nat)
      requires k < |s.hooks| && Shared() == AfterPops(s, who, k) && Good(Shared(), |s.hooks|)
      modifies this
      ensures Shared() == AfterPops(s, who, k + 1) && Good(Shared(), |s.hooks|)
    {
      PopsNext(s, who, k);
      Data(who);
      ClearBuffer(who);
    }

    /** The files of the popped hooks are written, in order, until an exception comes. */
    method WriteAll(who: Who, fault: Fault, ghost s: State)
      requires |s.hooks| == |hooks| && Good(s, |s.hooks|) && !fault.PopRaises?
      requires Shared() == AfterWrites(s, who, 0)
      modifies this
      ensures Shared() == if !Raised(fault, |s.hooks|) then AfterWrites(s, who, |s.hooks|)
                          else Stopped(AfterWrites(s, who, fault.at + if fault.ChownRaises? then 1 else 0), who)
    {
      var k := 0;
      while k < |hooks|
        invariant k <= |hooks| == |s.hooks| && Shared() == AfterWrites(s, who, k)
        invariant !fault.NoFault? ==> k <= fault.at
      {
        if fault == WriteRaises(k) {
          Fail(who);
          return;
        }
        WriteHook(who, s, k);
        if fault == ChownRaises(k) {
          Fail(who);
          return;
        }
        k := k + 1;
      }
    }

    method WriteHook(who: Who, ghost s: State, ghost k: nat)
      requires k < |s.hooks| && Good(s, |s.hooks|) && Shared() == AfterWrites(s, who, k)
      modifies this
      ensures Shared() == AfterWrites(s, who, k + 1) && Can(Raise(who))
    {
      WritesNext(s, who, k);
      WriteParquet(who);
    }

    /** All hooks are popped before the first file is written. */
    method OutputCollectionsToFile(who: Who, fault: Fault)
      requires Good(Shared(), |hooks|) && At(who) == Inside([], 0, 0)
      modifies this
      ensures Shared() == Called(old(Shared()), who, fault)
    {
      ghost var s := Shared();
      var ok := PopAll(who, fault);
      StoppedIsCalled(s, who, fault);
      if ok {
        WriteAll(who, if fault.PopRaises? then NoFault else fault, s);
      }
    }
  }

  function Buffers(hooks: seq<Hook>): (r: seq<seq<Sample>>)
    ensures |r| == |hooks| && forall i :: 0 <= i < |r| ==> r[i] == hooks[i].buffer
  {
    seq(|hooks|, i requires 0 <= i < |hooks| => hooks[i].buffer)
  }

  /** The first `k` hooks are popped. */
  function AfterPops(s: State, who: Who, k: nat): State
    requires k <= |s.hooks|
  {
    SetPlace(s, who, Inside(Buffers(s.hooks)[..k], k, 0)).(
    hooks := seq(|s.hooks|, i requires 0 <= i < |s.hooks| => if i < k then Emptied(s.hooks[i]) else s.hooks[i]))
  }

  /** All hooks are popped and the files of the first `k` written. */
  function AfterWrites(s: State, who: Who, k: nat): State
    requires k <= |s.hooks|
  {
    SetPlace(s, who, Inside(Buffers(s.hooks), |s.hooks|, k)).(
    hooks := seq(|s.hooks|, i requires 0 <= i < |s.hooks| =>
      if i < k then Written(Emptied(s.hooks[i]), who, s.num, s.hooks[i].buffer) else Emptied(s.hooks[i])))
  }

  function Stopped(s: State, who: Who): State {
    SetPlace(s, who, if who.OutputThread? then Leaving else Failed)
  }

  /** A whole call from `s`. */
  function Called(s: State, who: Who, fault: Fault): State {
    var n := |s.hooks|;
    var t := s.(hooks := seq(n, i requires 0 <= i < n => Output(s.hooks[i], who, s.num, fault, i, n)));
    if Raised(fault, n) then Stopped(t, who) else SetPlace(t, who, Inside(Buffers(s.hooks), n, n))
  }

  lemma PopsNothing(s: State, who: Who)
    requires PlaceOf(s, who) == Inside([], 0, 0)
    ensures AfterPops(s, who, 0) == s
  {
    assert AfterPops(s, who, 0).hooks == s.hooks;
  }

  lemma PopsNext(s: State, who: Who, k: nat)
    requires k < |s.hooks| && Good(AfterPops(s, who, k), |s.hooks|)
    ensures Enabled(AfterPops(s, who, k), Snap(who))
    ensures var t := Next(AfterPops(s, who, k), Snap(who));
            && Good(t, |s.hooks|) && Enabled(t, Clear(who)) && Next(t, Clear(who)) == AfterPops(s, who, k + 1)
            && Good(AfterPops(s, who, k + 1), |s.hooks|)
  {
    var t := Next(AfterPops(s, who, k), Snap(who));
    assert Buffers(s.hooks)[..k + 1] == Buffers(s.hooks)[..k] + [s.hooks[k].buffer];
    assert Next(t, Clear(who)).hooks == AfterPops(s, who, k + 1).hooks;
  }

  lemma WritesNext(s: State, who: Who, k: nat)
    requires k < |s.hooks| && Good(s, |s.hooks|)
    ensures var t := AfterWrites(s, who, k);
            && Good(t, |s.hooks|) && Enabled(t, Write(who)) && Next(t, Write(who)) == AfterWrites(s, who, k + 1)
  {
    assert Next(AfterWrites(s, who, k), Write(who)).hooks == AfterWrites(s, who, k + 1).hooks;
  }

  /** Wherever the call stops, each hook is left as its own fate says. */
  lemma StoppedIsCalled(s: State, who: Who, fault: Fault)
    ensures var n := |s.hooks|; AfterPops(s, who, n) == AfterWrites(s, who, 0)
    ensures var n := |s.hooks|;
            Called(s, who, fault)
            == if !Raised(fault, n) then AfterWrites(s, who, n)
            else if fault.PopRaises? then Stopped(AfterPops(s, who, fault.at), who)
            else Stopped(AfterWrites(s, who, fault.at + if fault.ChownRaises? then 1 else 0), who)
  {
    var n := |s.hooks|;
    assert Buffers(s.hooks)[..n] == Buffers(s.hooks);
    assert AfterPops(s, who, n).hooks == AfterWrites(s, who, 0).hooks;
    var called := Called(s, who, fault).hooks;
    if !Raised(fault, n) {
      assert called == AfterWrites(s, who, n).hooks;
    } else if fault.PopRaises? {
      assert called == AfterPops(s, who, fault.at).hooks;
    } else {
      assert called == AfterWrites(s, who, fault.at + if fault.ChownRaises? then 1 else 0).hooks;
    }
  }

  // ------------------------------------------------------- one hook's view

  function Phase(p: Place, k: nat): C.Phase
    requires p.Inside? ==> p.cleared <= |p.taken|
  {
    match p
    case Outside => C.Outside
    case Leaving => C.Leaving
    case Failed => C.Failed
    case Finished => C.Finished
    case Inside(taken, cleared, written) =>
      if |taken| <= k then C.Entered
      else if cleared <= k then C.Snapped(taken[k])
      else if written <= k then C.Popped(taken[k])
      else C.Leaving
  }

  function View(s: State, k: nat): C.State
    requires k < |s.hooks| && Good(s, |s.hooks|)
  {
    var hook := s.hooks[k];
    C.State(hook.appended, hook.buffer, s.pollJoined, s.lock, Phase(s.output, k), Phase(s.main, k), s.num,
            hook.chunks, hook.end)
  }

  // Which hook a step deals with, by the events alone: how many `data()`, `clear()` and
  // write steps there were since the lock was last taken.

  function Snaps(h: seq<Step>): nat {
    if h == [] || h[|h| - 1].Acquire? then 0 else Snaps(h[..|h| - 1]) + if h[|h| - 1].Snap? then 1 else 0
  }

  function Clears(h: seq<Step>): nat {
    if h == [] || h[|h| - 1].Acquire? then 0 else Clears(h[..|h| - 1]) + if h[|h| - 1].Clear? then 1 else 0
  }

  function Writes(h: seq<Step>): nat {
    if h == [] || h[|h| - 1].Acquire? then 0 else Writes(h[..|h| - 1]) + if h[|h| - 1].Write? then 1 else 0
  }

  /** What a step after `h` is for hook `k`: nothing, when it deals with another hook. */
  function Seen(h: seq<Step>, step: Step, k: nat): seq<C.Step> {
    match step
    case Append(j) => if j == k then [C.Append] else []
    case JoinPoll => [C.JoinPoll]
    case Acquire(who) => [C.Acquire(who)]
    case Snap(who) => if Snaps(h) == k then [C.Snap(who)] else []
    case Clear(who) => if Clears(h) == k then [C.Clear(who)] else []
    case Write(who) => if Writes(h) == k then [C.Write(who)] else []
    case Raise(who) => [C.Raise(who)]
    case Release(who) => [C.Release(who)]
  }

  /** The history of hook `k` alone. */
  function History(h: seq<Step>, k: nat): seq<C.Step> {
    if h == [] then [] else History(h[..|h| - 1], k) + Seen(h[..|h| - 1], h[|h| - 1], k)
  }

  /** One thread holds the lock, and is where the events say. */
  predicate Counted(s: State, h: seq<Step>) {
    && (s.lock == Some(C.OutputThread) <==> s.output.Inside? || s.output.Leaving?)
    && (s.lock == Some(C.MainThread) <==> s.main.Inside? || s.main.Leaving? || s.main.Failed?)
    && CountedAt(s.output, h) && CountedAt(s.main, h)
  }

  predicate CountedAt(p: Place, h: seq<Step>) {
    p.Inside? ==> |p.taken| == Snaps(h) && p.cleared == Clears(h) && p.written == Writes(h)
  }

  lemma {:induction false} RunCounted(n: nat, h: seq<Step>)
    requires Valid(n, h)
    ensures Counted(Run(n, h), h)
  {
    if h == [] {
    } else {
      RunCounted(n, h[..|h| - 1]);
      StepCounted(Run(n, h[..|h| - 1]), h);
    }
  }

  lemma StepCounted(s: State, h: seq<Step>)
    requires h != [] && Good(s, |s.hooks|) && Counted(s, h[..|h| - 1]) && Enabled(s, h[|h| - 1])
    ensures Counted(Next(s, h[|h| - 1]), h)
  {
    match h[|h| - 1] {
      case Append(_) =>
      case JoinPoll =>
      case Acquire(who) =>
      case Snap(who) =>
      case Clear(who) =>
      case Write(who) =>
      case Raise(who) =>
      case Release(who) =>
    }
  }

  /** A step is one step of the hook's own pipeline, or leaves its view alone. */
  predicate SeenAs(s: State, h: seq<Step>, step: Step, k: nat)
    requires k < |s.hooks| && Good(s, |s.hooks|) && Enabled(s, step) && Good(Next(s, step), |s.hooks|)
  {
    var seen, v, w := Seen(h, step, k), View(s, k), View(Next(s, step), k);
    if seen == [] then w == v else |seen| == 1 && C.Enabled(v, seen[0]) && w == C.Next(v, seen[0])
  }

  lemma AppendSeen(s: State, h: seq<Step>, j: nat, k: nat)
    requires k < |s.hooks| && Good(s, |s.hooks|) && Enabled(s, Append(j)) && Good(Next(s, Append(j)), |s.hooks|)
    ensures SeenAs(s, h, Append(j), k)
  {
  }

  lemma SnapSeen(s: State, h: seq<Step>, who: Who, k: nat)
    requires k < |s.hooks| && Good(s, |s.hooks|) && Enabled(s, Snap(who)) && Good(Next(s, Snap(who)), |s.hooks|)
    requires Counted(s, h)
    ensures SeenAs(s, h, Snap(who), k)
  {
  }

  lemma ClearSeen(s: State, h: seq<Step>, who: Who, k: nat)
    requires k < |s.hooks| && Good(s, |s.hooks|) && Enabled(s, Clear(who)) && Good(Next(s, Clear(who)), |s.hooks|)
    requires Counted(s, h)
    ensures SeenAs(s, h, Clear(who), k)
  {
  }

  lemma WriteSeen(s: State, h: seq<Step>, who: Who, k: nat)
    requires k < |s.hooks| && Good(s, |s.hooks|) && Enabled(s, Write(who)) && Good(Next(s, Write(who)), |s.hooks|)
    requires Counted(s, h)
    ensures SeenAs(s, h, Write(who), k)
  {
  }

  lemma SharedSeen(s: State, h: seq<Step>, step: Step, k: nat)
    requires step.JoinPoll? || step.Acquire? || step.Raise? || step.Release?
    requires k < |s.hooks| && Good(s, |s.hooks|) && Enabled(s, step) && Good(Next(s, step), |s.hooks|)
    ensures SeenAs(s, h, step, k)
  {
  }

  lemma StepSeen(s: State, h: seq<Step>, step: Step, k: nat)
    requires k < |s.hooks| && Good(s, |s.hooks|) && Enabled(s, step) && Counted(s, h)
    ensures Good(Next(s, step), |s.hooks|) && SeenAs(s, h, step, k)
  {
    NextGood(s, step, |s.hooks|);
    match step {
      case Append(j) => AppendSeen(s, h, j, k);
      case Snap(who) => SnapSeen(s, h, who, k);
      case Clear(who) => ClearSeen(s, h, who, k);
      case Write(who) => WriteSeen(s, h, who, k);
      case _ => SharedSeen(s, h, step, k);
    }
  }

  lemma HistoryGrows(past: seq<C.Step>, v: C.State, seen: seq<C.Step>, w: C.State)
    requires C.Valid(past) && C.Run(past) == v
    requires if seen == [] then w == v else |seen| == 1 && C.Enabled(v, seen[0]) && w == C.Next(v, seen[0])
    ensures C.Valid(past + seen) && C.Run(past + seen) == w
  {
    if seen == [] {
      assert past + seen == past;
    } else {
      assert (past + seen)[..|past|] == past;
    }
  }

  /** Every run of many hooks is, for each of them, a run of the one-hook pipeline. */
  lemma {:induction false} EachHookRuns(n: nat, h: seq<Step>, k: nat)
    requires Valid(n, h) && k < n
    ensures C.Valid(History(h, k)) && C.Run(History(h, k)) == View(Run(n, h), k)
  {
    if h == [] {
    } else {
      var before, step := h[..|h| - 1], h[|h| - 1];
      EachHookRuns(n, before, k);
      RunCounted(n, before);
      StepSeen(Run(n, before), before, step, k);
      HistoryGrows(History(before, k), View(Run(n, before), k), Seen(before, step, k), View(Run(n, h), k));
    }
  }

  // ------------------------------------------------------- what is on disk

  /** In every interleaving, any listing of a hook's files loads in append order. */
  lemma EachHookLoadsInOrder(n: nat, h: seq<Step>, k: nat, files: seq<File>, table: string)
    requires Valid(n, h) && k < n
    requires Listing(files, table, Run(n, h).hooks[k].chunks, Run(n, h).hooks[k].end)
    ensures var rows := RowsOf(OfTable(SortedByKey(EntriesOf(files)), table));
            Ascending(rows) && C.AllBelow(rows, Run(n, h).hooks[k].appended)
  {
    EachHookRuns(n, h, k);
    C.LoadedIsSubsequence(History(h, k), files, table);
  }

  /** All samples of hook `k` are on disk, in order. */
  ghost predicate OnDisk(n: nat, h: seq<Step>, k: nat)
    requires Valid(n, h) && k < n
  {
    C.Loaded(View(Run(n, h), k)) == C.Numbers(Run(n, h).hooks[k].appended)
  }

  /** Hook `k` is not appended to between its `data()` and `clear()`, and no exception comes
      while its popped samples are unwritten. */
  predicate LosesNothing(h: seq<Step>, k: nat) {
    C.Lossless(History(h, k))
  }

  lemma EachHookLoadsAllIff(n: nat, h: seq<Step>, k: nat)
    requires Valid(n, h) && Run(n, h).main.Finished? && k < n
    ensures OnDisk(n, h, k) <==> LosesNothing(h, k)
    ensures |C.Loaded(View(Run(n, h), k))| + C.LostSoFar(History(h, k)) == Run(n, h).hooks[k].appended
  {
    EachHookRuns(n, h, k);
    C.LoadedIsAllIff(History(h, k));
  }

  /** Once the main thread has finished, every hook's rows are all on disk if and only if
      no hook was appended to between its own `data()` and `clear()`, and no exception came
      while popped samples of any hook were unwritten. */
  lemma AllHooksLoadAllIff(n: nat, h: seq<Step>)
    requires Valid(n, h) && Run(n, h).main.Finished?
    ensures (forall k: nat :: k < n ==> OnDisk(n, h, k)) <==> forall k: nat :: k < n ==> LosesNothing(h, k)
  {
    forall k: nat | k < n
      ensures OnDisk(n, h, k) <==> LosesNothing(h, k)
    {
      EachHookLoadsAllIff(n, h, k);
    }
  }

  /** Popped and not written when an exception comes. */
  predicate Dropped(p: Place, k: nat, m: Sample) {
    p.Inside? && p.written <= k < |p.taken| && m in p.taken[k]
  }

  /** An exception, at whichever hook, drops exactly what the popped hooks handed over and
      the writes have not reached: hooks written before keep their files, and hooks not
      popped yet keep their buffers. */
  lemma RaiseDrops(n: nat, h: seq<Step>, who: Who, k: nat, m: Sample)
    requires Valid(n, h) && k < n && Enabled(Run(n, h), Raise(who))
    ensures var v, w := View(Run(n, h), k), View(Next(Run(n, h), Raise(who)), k);
            var dropped := Dropped(PlaceOf(Run(n, h), who), k, m);
            (m in C.Line(w) <==> m in C.Line(v) && !dropped) && (dropped ==> m in C.Line(v))
  {
    EachHookRuns(n, h, k);
    RaiseSeen(Run(n, h), who, k, m);
    C.RaiseKeeps(History(h, k), who, m);
  }

  lemma RaiseSeen(s: State, who: Who, k: nat, m: Sample)
    requires Good(s, |s.hooks|) && k < |s.hooks| && Enabled(s, Raise(who))
    ensures C.Enabled(View(s, k), C.Raise(who))
    ensures View(Next(s, Raise(who)), k) == C.Next(View(s, k), C.Raise(who))
    ensures m in C.LostBy(View(s, k), C.Raise(who)) <==> Dropped(PlaceOf(s, who), k, m)
  {
  }

  /** Two hooks; hook 0 has a sample when it is popped, and then hook 1 raises.  The end is
      undisturbed. */
  const SECOND_RAISES := [
    Append(0), Acquire(C.OutputThread), Snap(C.OutputThread), Clear(C.OutputThread), Raise(C.OutputThread),
    Release(C.OutputThread), JoinPoll, Acquire(C.MainThread), Snap(C.MainThread), Clear(C.MainThread),
    Snap(C.MainThread), Clear(C.MainThread), Write(C.MainThread), Write(C.MainThread), Release(C.MainThread)]

  const ONE_LOST := Hook(1, [], map[], None)
  const BOTH := [ONE_LOST, NEW_HOOK]

  ghost predicate Reaches(n: nat, h: seq<Step>, s: State) {
    Valid(n, h) && Run(n, h) == s
  }

  lemma Reach(n: nat, h: seq<Step>, i: nat, s: State) returns (t: State)
    requires i < |h| && Reaches(n, h[..i], s) && Enabled(s, h[i])
    ensures Good(s, n) && t == Next(s, h[i]) && Reaches(n, h[..i + 1], t)
  {
    t := Next(s, h[i]);
    assert h[..i + 1][..i] == h[..i];
  }

  function InOutput(hooks: seq<Hook>, p: Place): State {
    State(hooks, false, Some(C.OutputThread), p, Outside, 0)
  }

  function InMain(hooks: seq<Hook>, p: Place): State {
    State(hooks, true, Some(C.MainThread), Outside, p, 1)
  }

  lemma FirstAppends()
    ensures Reaches(2, SECOND_RAISES[..2], InOutput([Hook(1, [0], map[], None), NEW_HOOK], Inside([], 0, 0)))
  {
    assert SECOND_RAISES[..0] == [] && Start(2).hooks == [NEW_HOOK, NEW_HOOK];
    var s := Reach(2, SECOND_RAISES, 0, Start(2));
    assert s.hooks[0].buffer == [0];
    assert s.hooks == [Hook(1, [0], map[], None), NEW_HOOK];
    s := Reach(2, SECOND_RAISES, 1, s);
  }

  lemma SecondRaises()
    ensures Reaches(2, SECOND_RAISES[..4], InOutput(BOTH, Inside([[0]], 1, 0)))
  {
    FirstAppends();
    var s := Reach(2, SECOND_RAISES, 2, InOutput([Hook(1, [0], map[], None), NEW_HOOK], Inside([], 0, 0)));
    assert s.output == Inside([[0]], 0, 0);
    s := Reach(2, SECOND_RAISES, 3, s);
    assert s.hooks == BOTH;
  }

  lemma SecondLeft()
    ensures Reaches(2, SECOND_RAISES[..6], State(BOTH, false, None, Outside, Outside, 1))
  {
    SecondRaises();
    var s := Reach(2, SECOND_RAISES, 4, InOutput(BOTH, Inside([[0]], 1, 0)));
    s := Reach(2, SECOND_RAISES, 5, s);
  }

  lemma SecondRaised()
    ensures Reaches(2, SECOND_RAISES[..8], InMain(BOTH, Inside([], 0, 0)))
  {
    SecondLeft();
    var s := Reach(2, SECOND_RAISES, 6, State(BOTH, false, None, Outside, Outside, 1));
    s := Reach(2, SECOND_RAISES, 7, s);
  }

  lemma FirstPopped()
    ensures Reaches(2, SECOND_RAISES[..10], InMain(BOTH, Inside([[]], 1, 0)))
  {
    SecondRaised();
    var s := Reach(2, SECOND_RAISES, 8, InMain(BOTH, Inside([], 0, 0)));
    assert s.main == Inside([[]], 0, 0);
    s := Reach(2, SECOND_RAISES, 9, s);
    assert s.hooks == BOTH;
  }

  lemma SecondPopped()
    ensures Reaches(2, SECOND_RAISES[..12], InMain(BOTH, Inside([[], []], 2, 0)))
  {
    FirstPopped();
    var s := Reach(2, SECOND_RAISES, 10, InMain(BOTH, Inside([[]], 1, 0)));
    assert s.main == Inside([[], []], 1, 0);
    s := Reach(2, SECOND_RAISES, 11, s);
    assert s.hooks == BOTH;
  }

  lemma SecondFinished()
    ensures Reaches(2, SECOND_RAISES, State(BOTH, true, None, Outside, Finished, 1))
  {
    SecondPopped();
    var s := Reach(2, SECOND_RAISES, 12, InMain(BOTH, Inside([[], []], 2, 0)));
    assert s.hooks == BOTH;
    s := Reach(2, SECOND_RAISES, 13, s);
    assert s.hooks == BOTH;
    s := Reach(2, SECOND_RAISES, 14, s);
    assert SECOND_RAISES[..15] == SECOND_RAISES;
  }

  /** Hook 0 never raised, no append came late, and its one sample is lost. */
  lemma OtherHookDrops()
    ensures Valid(2, SECOND_RAISES) && Run(2, SECOND_RAISES).main.Finished?
    ensures var s := Run(2, SECOND_RAISES); s.hooks[0].appended == 1 && C.Loaded(View(s, 0)) == []
  {
    SecondFinished();
    var chunks := Run(2, SECOND_RAISES).hooks[0].chunks;
    assert Cat(chunks, 0) == [] && Cat(chunks, 1) == [] && Cat(chunks, 2) == [];
  }
}
