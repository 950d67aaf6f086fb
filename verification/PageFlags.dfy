/** Reading the flags of page frames in batches: runs of consecutive frames are read by
    one system call each. */
module PageFlags {
  import opened Sums
  import opened IdleBitmap
  import opened IdleMarking
  import TrackIdle

  /** The kernel side of /proc/kpageflags: one word of flags for each page frame. */
  class FlagsFile {
    const flags: seq<nat>
    const outcome: nat -> Outcome
    var calls: nat

    constructor (flags: seq<nat>, outcome: nat -> Outcome)
      ensures this.flags == flags && this.outcome == outcome && calls == 0
    {
      this.flags, this.outcome, calls := flags, outcome, 0;
    }

    ghost predicate NoFaults()
      reads this
    {
      forall n :: calls <= n ==> outcome(n) == Full
    }

    /** The whole words among the bytes a read returns. */
    method Pread(bytes: nat, offset: nat) returns (ok: bool, got: seq<nat>)
      requires offset % WORD_BYTES == 0
      modifies this`calls
      ensures calls == old(calls) + 1 && (ok <==> outcome(old(calls)) != Failed)
      ensures |got| <= bytes / WORD_BYTES
      ensures forall k :: 0 <= k < |got| ==>
                            offset / WORD_BYTES + k < |flags| && got[k] == flags[offset / WORD_BYTES + k]
      ensures outcome(old(calls)) == Full && offset / WORD_BYTES <= |flags| ==>
                |got| == Min(bytes / WORD_BYTES, |flags| - offset / WORD_BYTES)
    {
      var lo := offset / WORD_BYTES;
      ok, got := outcome(calls) != Failed, [];
      if ok && lo < |flags| {
        var full := Min(bytes / WORD_BYTES, |flags| - lo);
        var n := if outcome(calls).Short? then Min(outcome(calls).bytes / WORD_BYTES, full) else full;
        got := flags[lo..lo + n];
      }
      calls := calls + 1;
    }
  }

  /** The flags of the frames that exist, each read by itself. */
  function FlagsOf(flags: seq<nat>, pfns: set<Pfn>): map<Pfn, nat> {
    map p | p in pfns && p < |flags| :: flags[p]
  }

  predicate Nondecreasing(s: seq<nat>) {
    forall i, j :: 0 <= i < j < |s| ==> s[i] <= s[j]
  }

  function InsertPfn(s: seq<nat>, x: nat): (r: seq<nat>)
    requires Nondecreasing(s)
    ensures Nondecreasing(r) && multiset(r) == multiset(s) + multiset{x}
    ensures forall y :: y in r <==> y in s || y == x
  {
    if s == [] then [x]
    else
      var init, last := s[..|s| - 1], s[|s| - 1];
      assert s == init + [last];
      if x < last then
        var before := InsertPfn(init, x);
        assert forall k :: 0 <= k < |before| ==> before[k] in before;
        before + [last]
      else s + [x]
  }

  /** `sorted(pfns)`: a frame listed twice stays twice. */
  function SortPfns(pfns: seq<Pfn>): (r: seq<Pfn>)
    ensures Nondecreasing(r) && multiset(r) == multiset(pfns)
    ensures forall p :: p in r <==> p in pfns
  {
    if pfns == [] then []
    else
      var init, last := pfns[..|pfns| - 1], pfns[|pfns| - 1];
      assert pfns == init + [last];
      InsertPfn(SortPfns(init), last)
  }

  /** How many runs of consecutive values `s` falls into. */
  function Runs(s: seq<nat>): nat {
    if |s| <= 1 then |s| else Runs(s[..|s| - 1]) + if s[|s| - 1] == s[|s| - 2] + 1 then 0 else 1
  }

  /** Whether a run starts at `i`. */
  predicate RunStarts(s: seq<nat>, i: nat) {
    0 < i < |s| ==> s[i] != s[i - 1] + 1
  }

  lemma {:induction false} OneMoreRun(s: seq<nat>, i: nat, j: nat)
    requires i <= j < |s| && RunStarts(s, i) && Consecutive(s[i..j + 1])
    ensures Runs(s[..j + 1]) == Runs(s[..i]) + 1
    decreases j
  {
    assert s[..j + 1][..j] == s[..j];
    if i < j {
      var run := s[i..j + 1];
      assert run[j - i] == run[j - i - 1] + 1;
      assert Consecutive(s[i..j]) by {
        assert forall k :: 0 <= k < j - i ==> s[i..j][k] == run[k];
      }
      OneMoreRun(s, i, j - 1);
    }
  }

  predicate Follows(s: seq<nat>, p: nat) {
    p > 0 && p - 1 in s
  }

  /** The listed frames whose predecessor is not listed. */
  function Firsts(s: seq<nat>): set<nat> {
    set p | p in s && !Follows(s, p)
  }

  lemma FirstsGrow(init: seq<nat>, last: nat)
    requires Ascending(init + [last])
    ensures last !in init && (Follows(init, last) <==> init != [] && last == init[|init| - 1] + 1)
    ensures Firsts(init + [last]) == Firsts(init) + if Follows(init, last) then {} else {last}
  {
    var s := init + [last];
    assert forall i :: 0 <= i < |init| ==> s[i] == init[i] && s[i] < s[|init|];
    assert init != [] ==> init[|init| - 1] in init;
    forall i | 0 <= i < |init|
      ensures s[i] <= s[|init| - 1]
    {
    }
    forall p | p in init
      ensures Follows(s, p) <==> Follows(init, p)
    {
    }
    assert Follows(s, last) <==> Follows(init, last);
  }

  lemma RunsNext(init: seq<nat>, last: nat)
    ensures Runs(init + [last]) == Runs(init) + if init != [] && last == init[|init| - 1] + 1 then 0 else 1
  {
    var s := init + [last];
    assert s[..|s| - 1] == init;
  }

  /** A list without repeats takes one call for each of them. */
  lemma {:induction false} RunsAreGaps(s: seq<nat>)
    requires Ascending(s)
    ensures Runs(s) == |Firsts(s)|
  {
    if s == [] {
      assert Firsts(s) == {};
    } else {
      RunsAreGaps(s[..|s| - 1]);
      OneMoreFirst(s[..|s| - 1], s[|s| - 1]);
      assert s == s[..|s| - 1] + [s[|s| - 1]];
    }
  }

  lemma OneMoreFirst(init: seq<nat>, last: nat)
    requires Ascending(init + [last]) && Runs(init) == |Firsts(init)|
    ensures Runs(init + [last]) == |Firsts(init + [last])|
  {
    RunsNext(init, last);
    FirstsGrow(init, last);
  }

  /** One system call for the run of frames `run`. */
  method ReadRun(file: FlagsFile, run: seq<Pfn>) returns (flagsOf: map<Pfn, nat>, ghost read: set<Pfn>)
    requires Consecutive(run)
    modifies file`calls
    ensures file.calls == old(file.calls) + 1
    ensures flagsOf == FlagsOf(file.flags, read) && read <= SetOf(run)
    ensures old(file.NoFaults()) ==>
              file.NoFaults() && forall p :: p in run && p < |file.flags| ==> p in read
  {
    flagsOf, read := map[], {};
    var ok, words := file.Pread(|run| * WORD_BYTES, run[0] * WORD_BYTES);
    if ok {
      var k := 0;
      while k < |words|
        invariant k <= |words| <= |run| && read == SetOf(run[..k]) && flagsOf == FlagsOf(file.flags, read)
      {
        assert run[..k + 1] == run[..k] + [run[k]];
        flagsOf, read := flagsOf[run[0] + k := words[k]], read + {run[k]};
        k := k + 1;
      }
      forall p | p in run && p < |file.flags| && old(file.NoFaults())
        ensures p in read
      {
        var m :| 0 <= m < |run| && run[m] == p;
        assert run[m] == run[0] + m && |words| == Min(|run|, |file.flags| - run[0]);
        assert run[..|words|][m] == p;
      }
    }
  }

  /** Runs of consecutive frames are read by one system call each.  The result has the
      flags of listed frames only, each its own; of all that exist when no read fails or is
      short. */
  method ReadKpageflagsBatch(file: FlagsFile, pfns: seq<Pfn>)
    returns (result: map<Pfn, nat>, ghost read: set<Pfn>)
    modifies file`calls
    ensures file.calls == old(file.calls) + Runs(SortPfns(pfns))
    ensures result == FlagsOf(file.flags, read) && read <= SetOf(pfns)
    ensures old(file.NoFaults()) ==> file.NoFaults() && result == FlagsOf(file.flags, SetOf(pfns))
  {
    if pfns == [] {
      return map[], {};
    }
    var sorted := SortPfns(pfns);
    assert SetOf(sorted) == SetOf(pfns);
    result, read := ReadSorted(file, sorted);
  }

  method ReadSorted(file: FlagsFile, sorted: seq<Pfn>) returns (result: map<Pfn, nat>, ghost read: set<Pfn>)
    modifies file`calls
    ensures file.calls == old(file.calls) + Runs(sorted)
    ensures result == FlagsOf(file.flags, read) && read <= SetOf(sorted)
    ensures old(file.NoFaults()) ==> file.NoFaults() && result == FlagsOf(file.flags, SetOf(sorted))
  {
    result, read := map[], {};
    ghost var quiet, before := file.NoFaults(), file.calls;
    var i := 0;
    while i < |sorted|
      invariant i <= |sorted| && RunStarts(sorted, i) && file.calls == before + Runs(sorted[..i])
      invariant result == FlagsOf(file.flags, read) && read <= SetOf(sorted)
      invariant quiet ==> file.NoFaults() && ReadUpTo(sorted, i, |file.flags|, read)
      decreases |sorted| - i
    {
      var next, more;
      ghost var now;
      next, more, now := ReadNextRun(file, sorted, i, read);
      FlagsUnion(file.flags, read, now);
      result, read, i := result + more, read + now, next;
    }
    assert sorted[..i] == sorted;
  }

  lemma FlagsUnion(flags: seq<nat>, a: set<Pfn>, b: set<Pfn>)
    ensures FlagsOf(flags, a) + FlagsOf(flags, b) == FlagsOf(flags, a + b)
  {
  }

  /** Find the run that starts at `i` and read it. */
  method ReadNextRun(file: FlagsFile, sorted: seq<Pfn>, i: nat, ghost read: set<Pfn>)
    returns (next: nat, more: map<Pfn, nat>, ghost now: set<Pfn>)
    requires i < |sorted| && RunStarts(sorted, i)
    modifies file`calls
    ensures i < next <= |sorted| && RunStarts(sorted, next)
    ensures file.calls == old(file.calls) + 1 && Runs(sorted[..next]) == Runs(sorted[..i]) + 1
    ensures more == FlagsOf(file.flags, now) && now <= SetOf(sorted)
    ensures old(file.NoFaults()) ==> file.NoFaults()
    ensures old(file.NoFaults()) && ReadUpTo(sorted, i, |file.flags|, read) ==>
              ReadUpTo(sorted, next, |file.flags|, read + now)
  {
    var j := TrackIdle.RunEnd(sorted, i);
    more, now := ReadRun(file, sorted[i..j + 1]);
    OneMoreRun(sorted, i, j);
    ReadFurther(sorted, i, j, |file.flags|, read, now);
    next := j + 1;
  }

  /** The first `i` frames, as far as they exist, were read. */
  predicate ReadUpTo(s: seq<Pfn>, i: nat, n: nat, read: set<Pfn>)
    requires i <= |s|
  {
    forall k :: 0 <= k < i && s[k] < n ==> s[k] in read
  }

  lemma ReadFurther(s: seq<Pfn>, i: nat, j: nat, n: nat, read: set<Pfn>, now: set<Pfn>)
    requires i <= j < |s| && now <= SetOf(s[i..j + 1])
    ensures now <= SetOf(s)
    ensures ReadUpTo(s, i, n, read) && (forall p :: p in s[i..j + 1] && p < n ==> p in now) ==>
              ReadUpTo(s, j + 1, n, read + now)
  {
    assert forall k :: i <= k <= j ==> s[i..j + 1][k - i] == s[k];
    assert forall p :: p in s[i..j + 1] ==> p in s;
  }
}
