/** Cumulative counters indexed by CPU, and what they say about the time windows before
    and after a decision. */
module Counters {

  /** One CPU's samples: timestamps and the counter's value at each. */
  datatype Samples = Samples(ts: seq<int>, cumulative: seq<real>)

  type Series = s: Samples | |s.ts| == |s.cumulative| witness Samples([], [])

  predicate Sorted(ts: seq<int>) {
    forall i, j :: 0 <= i < j < |ts| ==> ts[i] <= ts[j]
  }

  /** Samples in time order. */
  predicate Indexed(s: Series) {
    Sorted(s.ts)
  }

  /** Counts start at zero or more and never go down. */
  predicate Counting(s: Series) {
    && Indexed(s)
    && (forall i :: 0 <= i < |s.cumulative| ==> s.cumulative[i] >= 0.0)
    && (forall i, j :: 0 <= i < j < |s.cumulative| ==> s.cumulative[i] <= s.cumulative[j])
  }

  /** The value of the latest sample at or before `t`, by linear scan; 0 before the
      first. */
  function LatestAt(s: Series, t: int): real
    decreases |s.ts|
  {
    if s.ts == [] then 0.0
    else
      var n := |s.ts| - 1;
      if s.ts[n] <= t then s.cumulative[n] else LatestAt(Samples(s.ts[..n], s.cumulative[..n]), t)
  }

  function TotalAt(index: seq<Series>, t: int): real
  {
    if index == [] then 0.0
    else TotalAt(index[..|index| - 1], t) + LatestAt(index[|index| - 1], t)
  }

  /** The insertion point after every value at most `x`. */
  method BisectRight(ts: seq<int>, x: int) returns (lo: nat)
    requires Sorted(ts)
    ensures lo <= |ts| && (forall i :: 0 <= i < lo ==> ts[i] <= x) && (forall i :: lo <= i < |ts| ==> ts[i] > x)
  {
    lo := 0;
    var hi := |ts|;
    while lo < hi
      invariant 0 <= lo <= hi <= |ts|
      invariant forall i :: 0 <= i < lo ==> ts[i] <= x
      invariant forall i :: hi <= i < |ts| ==> ts[i] > x
    {
      var mid := (lo + hi) / 2;
      if x < ts[mid] {
        hi := mid;
      } else {
        lo := mid + 1;
      }
    }
  }

  /** Where the scan stops is one before the insertion point. */
  lemma {:induction false} ScanStops(s: Series, t: int, lo: nat)
    requires lo <= |s.ts|
    requires forall i :: 0 <= i < lo ==> s.ts[i] <= t
    requires forall i :: lo <= i < |s.ts| ==> s.ts[i] > t
    ensures LatestAt(s, t) == if lo == 0 then 0.0 else s.cumulative[lo - 1]
    decreases |s.ts|
  {
    if s.ts != [] && lo < |s.ts| {
      var n := |s.ts| - 1;
      ScanStops(Samples(s.ts[..n], s.cumulative[..n]), t, lo);
    }
  }

  method CumulativeAt(index: seq<Series>, t: int) returns (total: real)
    requires forall s :: s in index ==> Indexed(s)
    ensures total == TotalAt(index, t)
  {
    total := 0.0;
    for i := 0 to |index|
      invariant total == TotalAt(index[..i], t)
    {
      assert index[..i + 1][..i] == index[..i];
      var s := index[i];
      assert s in index;
      if s.ts != [] {
        var idx := BisectRight(s.ts, t);
        ScanStops(s, t, idx);
        if idx > 0 {
          total := total + s.cumulative[idx - 1];
        }
      }
    }
    assert index[..|index|] == index;
  }

  method CounterDelta(index: seq<Series>, start: int, end: int) returns (d: real)
    requires forall s :: s in index ==> Indexed(s)
    ensures d == Delta(index, start, end)
  {
    if end <= start {
      return 0.0;
    }
    var after := CumulativeAt(index, end);
    var before := CumulativeAt(index, start);
    return if after - before < 0.0 then 0.0 else after - before;
  }

  function Delta(index: seq<Series>, start: int, end: int): real
  {
    if end <= start then 0.0
    else
      var d := TotalAt(index, end) - TotalAt(index, start);
      if d < 0.0 then 0.0 else d
  }

  lemma {:induction false} LatestGrows(s: Series, a: int, b: int)
    requires Counting(s) && a <= b
    ensures 0.0 <= LatestAt(s, a) <= LatestAt(s, b)
    decreases |s.ts|
  {
    if s.ts == [] {
    } else {
      var n := |s.ts| - 1;
      var init := Samples(s.ts[..n], s.cumulative[..n]);
      LatestGrows(init, a, b);
      if s.ts[n] <= b && a < s.ts[n] {
        LatestBelow(init, a, s.cumulative[n]);
      }
    }
  }

  lemma {:induction false} LatestBelow(s: Series, t: int, top: real)
    requires top >= 0.0 && forall i :: 0 <= i < |s.cumulative| ==> s.cumulative[i] <= top
    ensures LatestAt(s, t) <= top
    decreases |s.ts|
  {
    if s.ts == [] {
    } else {
      var n := |s.ts| - 1;
      LatestBelow(Samples(s.ts[..n], s.cumulative[..n]), t, top);
    }
  }

  lemma {:induction false} TotalGrows(index: seq<Series>, a: int, b: int)
    requires (forall s :: s in index ==> Counting(s)) && a <= b
    ensures TotalAt(index, a) <= TotalAt(index, b)
  {
    if index == [] {
    } else {
      TotalGrows(index[..|index| - 1], a, b);
      assert index[|index| - 1] in index;
      LatestGrows(index[|index| - 1], a, b);
    }
  }

  /** On counts that never go down the clamp never acts, and deltas of adjoining
      intervals add up. */
  lemma DeltasAdd(index: seq<Series>, a: int, b: int, c: int)
    requires (forall s :: s in index ==> Counting(s)) && a <= b <= c
    ensures Delta(index, a, b) == TotalAt(index, b) - TotalAt(index, a)
    ensures Delta(index, a, b) + Delta(index, b, c) == Delta(index, a, c)
  {
    TotalGrows(index, a, b);
    TotalGrows(index, b, c);
  }

  datatype Window = Window(pre: real, post: real)

  /** One counter's features around a decision. */
  method WindowFeature(index: seq<Series>, tsNs: int, windowMs: nat) returns (w: Window)
    requires forall s :: s in index ==> Indexed(s)
    ensures w == Window(Delta(index, tsNs - windowMs * 1000000, tsNs), Delta(index, tsNs, tsNs + windowMs * 1000000))
  {
    var windowNs := windowMs * 1000000;
    var pre := CounterDelta(index, tsNs - windowNs, tsNs);
    var post := CounterDelta(index, tsNs, tsNs + windowNs);
    return Window(pre, post);
  }

  /** The window before and the window after make up the whole window. */
  lemma WindowsMakeWhole(index: seq<Series>, tsNs: int, windowNs: nat)
    requires forall s :: s in index ==> Counting(s)
    ensures Delta(index, tsNs - windowNs, tsNs) + Delta(index, tsNs, tsNs + windowNs)
         == Delta(index, tsNs - windowNs, tsNs + windowNs)
  {
    DeltasAdd(index, tsNs - windowNs, tsNs, tsNs + windowNs);
  }

  // ------------------------------------------------------- rates

  datatype Indexes = Indexes(instructions: seq<Series>, dtlb: seq<Series>, walk: seq<Series>, tlbFlush: seq<Series>)

  predicate AllIndexed(x: Indexes) {
    && (forall s :: s in x.instructions ==> Indexed(s)) && (forall s :: s in x.dtlb ==> Indexed(s))
    && (forall s :: s in x.walk ==> Indexed(s)) && (forall s :: s in x.tlbFlush ==> Indexed(s))
  }

  /** Events per instruction; fewer than one instruction counts as one. */
  function Rate(events: real, instructions: real): real {
    events / Base(instructions)
  }

  function Base(instructions: real): (b: real)
    ensures b >= 1.0 && b >= instructions && (b == 1.0 || b == instructions)
  {
    if instructions < 1.0 then 1.0 else instructions
  }

  datatype Features = Features(
    instructions: Window, dtlb: Window, walk: Window, tlbFlush: Window,
    missRate: Window, walkRate: Window, flushRate: Window,
    deltaMissRate: real, deltaWalkRate: real, deltaTlbFlushRate: real)

  function RateWindow(events: Window, instructions: Window): Window {
    Window(Rate(events.pre, instructions.pre), Rate(events.post, instructions.post))
  }

  function Around(index: seq<Series>, tsNs: int, windowNs: int): Window {
    Window(Delta(index, tsNs - windowNs, tsNs), Delta(index, tsNs, tsNs + windowNs))
  }

  /** The features of one decision. */
  method WindowFeatures(x: Indexes, tsNs: int, windowMs: nat) returns (f: Features)
    requires AllIndexed(x)
    ensures f.instructions == Around(x.instructions, tsNs, windowMs * 1000000)
    ensures f.dtlb == Around(x.dtlb, tsNs, windowMs * 1000000)
    ensures f.walk == Around(x.walk, tsNs, windowMs * 1000000)
    ensures f.tlbFlush == Around(x.tlbFlush, tsNs, windowMs * 1000000)
    ensures f.missRate == RateWindow(f.dtlb, f.instructions) && f.walkRate == RateWindow(f.walk, f.instructions)
    ensures f.flushRate == RateWindow(f.tlbFlush, f.instructions)
    ensures f.deltaMissRate == f.missRate.post - f.missRate.pre
    ensures f.deltaWalkRate == f.walkRate.post - f.walkRate.pre
    ensures f.deltaTlbFlushRate == f.flushRate.post - f.flushRate.pre
  {
    var instr := WindowFeature(x.instructions, tsNs, windowMs);
    var dtlb := WindowFeature(x.dtlb, tsNs, windowMs);
    var walk := WindowFeature(x.walk, tsNs, windowMs);
    var flush := WindowFeature(x.tlbFlush, tsNs, windowMs);
    var miss, walks := RateWindow(dtlb, instr), RateWindow(walk, instr);
    var flushes := RateWindow(flush, instr);
    return Features(instr, dtlb, walk, flush, miss, walks, flushes,
                    miss.post - miss.pre, walks.post - walks.pre, flushes.post - flushes.pre);
  }

  lemma RateTimesBase(events: real, instructions: real)
    ensures Rate(events, instructions) * Base(instructions) == events
  {
  }

  /** The two rates of an event, weighted by their instructions, give back its count over
      the whole window. */
  lemma RatesGiveCounts(x: Indexes, events: seq<Series>, tsNs: int, windowNs: nat)
    requires forall s :: s in events ==> Counting(s)
    ensures var n, r := Around(x.instructions, tsNs, windowNs),
                        RateWindow(Around(events, tsNs, windowNs), Around(x.instructions, tsNs, windowNs));
            r.pre * Base(n.pre) + r.post * Base(n.post) == Delta(events, tsNs - windowNs, tsNs + windowNs)
  {
    var n, k := Around(x.instructions, tsNs, windowNs), Around(events, tsNs, windowNs);
    WindowsMakeWhole(events, tsNs, windowNs);
    RateTimesBase(k.pre, n.pre);
    RateTimesBase(k.post, n.post);
  }

  /** A delta is the growth of the total, or 0 when the total went down or no time passed. */
  lemma ClampActsIff(index: seq<Series>, a: int, b: int)
    requires a < b
    ensures Delta(index, a, b) == TotalAt(index, b) - TotalAt(index, a) <==> TotalAt(index, a) <= TotalAt(index, b)
    ensures TotalAt(index, b) < TotalAt(index, a) ==> Delta(index, a, b) == 0.0
    ensures Delta(index, b, a) == 0.0
  {
  }

  /** The total over two groups of CPUs is the sum of their totals, and the total of one
      CPU its latest count. */
  lemma {:induction false} TotalsAdd(a: seq<Series>, b: seq<Series>, t: int)
    ensures TotalAt(a + b, t) == TotalAt(a, t) + TotalAt(b, t)
    ensures |a| == 1 ==> TotalAt(a, t) == LatestAt(a[0], t)
  {
    if b == [] {
      assert a + b == a;
    } else {
      var init := b[..|b| - 1];
      TotalsAdd(a, init, t);
      assert (a + b)[..|a + b| - 1] == a + init;
    }
  }
}
