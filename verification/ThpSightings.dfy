/** What the THP intervention hook records, from the history of its polls alone. */
module ThpSightings {
  import opened Wrappers
  import opened AgeBuckets
  import opened ThpIntervention

  // ------------------------------------------------------- when a poll scans

  /** The clock of the latest poll that scanned. */
  function LastScan(c: Config, h: seq<Event>): int
    decreases |h|, 0
  {
    if h == [] then 0
    else if Scans(c, h[..|h| - 1], h[|h| - 1]) then h[|h| - 1].e.nowNs
    else LastScan(c, h[..|h| - 1])
  }

  /** A poll after `h` scans: it finds the process, and the interval has passed. */
  predicate Scans(c: Config, h: seq<Event>, ev: Event)
    decreases |h|, 1
  {
    ev.Polled? && ev.e.pid.Some? && ev.e.nowNs - LastScan(c, h) >= c.vmaIntervalNs
  }

  function LastRollup(c: Config, h: seq<Event>): int
    decreases |h|, 0
  {
    if h == [] then 0
    else if Rolls(c, h[..|h| - 1], h[|h| - 1]) then h[|h| - 1].e.nowNs
    else LastRollup(c, h[..|h| - 1])
  }

  /** It samples the rollup figures, if they can be read. */
  predicate Rolls(c: Config, h: seq<Event>, ev: Event)
    decreases |h|, 1
  {
    ev.Polled? && ev.e.pid.Some? && ev.e.nowNs - LastRollup(c, h) >= c.rollupIntervalNs
  }

  // ------------------------------------------------------- sightings

  /** A region seen by a scan. */
  datatype Sighting = Sighting(now: int, pid: nat, region: Region)

  /** One for each region of a scan. */
  function SightingsOf(e: PollEnv): (q: seq<Sighting>)
    requires e.pid.Some?
    ensures |q| == |e.regions| && forall i :: 0 <= i < |q| ==> q[i] == Sighting(e.nowNs, e.pid.value, e.regions[i])
  {
    seq(|e.regions|, i requires 0 <= i < |e.regions| => Sighting(e.nowNs, e.pid.value, e.regions[i]))
  }

  /** All sightings of a history, in order. */
  function Seen(c: Config, h: seq<Event>): seq<Sighting> {
    if h == [] then []
    else
      var before, ev := h[..|h| - 1], h[|h| - 1];
      Seen(c, before) + if Scans(c, before, ev) then SightingsOf(ev.e) else []
  }

  /** When a span was first sighted. */
  function FirstSight(q: seq<Sighting>, span: Span): Option<int> {
    if q == [] then None
    else
      var last, earlier := q[|q| - 1], FirstSight(q[..|q| - 1], span);
      if earlier.Some? then earlier
      else if (last.region.start, last.region.end) == span then Some(last.now) else None
  }

  /** What was referenced at its latest sighting. */
  function LatestRef(q: seq<Sighting>, span: Span): Option<int> {
    if q == [] then None
    else
      var last := q[|q| - 1];
      if (last.region.start, last.region.end) == span then Some(last.region.referencedKb)
      else LatestRef(q[..|q| - 1], span)
  }

  /** The latest sighting is a negative candidate: its region has huge pages, its references
      changed by at most 32 kB since it was last sighted, and the sampling interval has
      passed since the latest negative candidate. */
  predicate Still(c: Config, q: seq<Sighting>)
    requires q != []
    decreases |q|, 0
  {
    var init, last := q[..|q| - 1], q[|q| - 1];
    var ref := LatestRef(init, (last.region.start, last.region.end));
    && ref.Some? && -32 <= last.region.referencedKb - ref.value <= 32 && last.region.anonHugepagesKb > 0
    && last.now - LastStill(c, init) >= c.negativeIntervalNs
  }

  function LastStill(c: Config, q: seq<Sighting>): int
    decreases |q|, 1
  {
    if q == [] then 0 else if Still(c, q) then q[|q| - 1].now else LastStill(c, q[..|q| - 1])
  }

  /** Seconds from the first sighting of a span on; 0 for one not sighted. */
  function AgeAt(q: seq<Sighting>, r: Region, now: int): real {
    match FirstSight(q, (r.start, r.end))
    case None => 0.0
    case Some(first) => (now - first) as real / 1000000000.0
  }

  /** The hook's look-ups are those of the sightings. */
  ghost predicate Remembers(s: State, c: Config, q: seq<Sighting>) {
    && (forall span :: FirstSight(q, span) == if span in s.firstSeenNs then Some(s.firstSeenNs[span]) else None)
    && (forall span :: LatestRef(q, span) == if span in s.lastSeenRef then Some(s.lastSeenRef[span]) else None)
    && s.lastNegativeNs == LastStill(c, q)
  }

  // ------------------------------------------------------- what is recorded

  /** A candidate row without its id. */
  datatype Mark = Mark(now: int, pid: nat, kind: CandidateType, region: Region, ageSec: real)

  predicate Carries(row: Candidate, m: Mark) {
    && row.tsNs == m.now && row.pid == m.pid && row.candidateType == m.kind && row.region == m.region
    && row.ageSec == m.ageSec && row.ageCensored
  }

  predicate Carry(rows: seq<Candidate>, marks: seq<Mark>) {
    |rows| == |marks| && forall i :: 0 <= i < |rows| ==> Carries(rows[i], marks[i])
  }

  /** The negative candidate that the latest sighting gives, if any. */
  function StillMark(c: Config, q: seq<Sighting>): seq<Mark>
    requires q != []
  {
    var last := q[|q| - 1];
    if Still(c, q) then [Mark(last.now, last.pid, Negative, last.region, AgeAt(q, last.region, last.now))] else []
  }

  /** The marks, and after them the negative candidates of the sightings from number `from` on. */
  function WithNegatives(marks: seq<Mark>, c: Config, q: seq<Sighting>, from: nat): seq<Mark> {
    if |q| <= from then marks else WithNegatives(marks, c, q[..|q| - 1], from) + StillMark(c, q)
  }

  /** The candidates of a history: each scan's negative ones, and then one drawn from all
      its regions. */
  function Marks(c: Config, h: seq<Event>): seq<Mark> {
    if h == [] then []
    else
      var before, ev := h[..|h| - 1], h[|h| - 1];
      if Scans(c, before, ev) && ev.e.regions != []
      then WithNegatives(Marks(c, before), c, Seen(c, h), |Seen(c, before)|) + [SampledMark(ev.e, Seen(c, h))]
      else Marks(c, before)
  }

  /** The region drawn from a scan that ends the sightings `all`. */
  function SampledMark(e: PollEnv, all: seq<Sighting>): Mark
    requires e.pid.Some? && e.regions != []
  {
    var r := e.regions[e.sampleDraw % |e.regions|];
    Mark(e.nowNs, e.pid.value, Sampled, r, AgeAt(all, r, e.nowNs))
  }

  lemma ObserveRemembers(s: State, c: Config, q: seq<Sighting>, pid: nat, now: int, r: Region)
    requires q != [] && q[|q| - 1] == Sighting(now, pid, r) && Remembers(s, c, q[..|q| - 1])
    ensures Remembers(Observe(s, c, pid, now, r), c, q)
  {
    assert LatestRef(q[..|q| - 1], (r.start, r.end))
        == if SpanOf(r) in s.lastSeenRef then Some(s.lastSeenRef[SpanOf(r)]) else None;
  }

  lemma ObserveCarries(s: State, c: Config, q: seq<Sighting>, pid: nat, now: int, r: Region, marks: seq<Mark>)
    requires q != [] && q[|q| - 1] == Sighting(now, pid, r) && Remembers(s, c, q[..|q| - 1])
    requires Carry(s.allCandidates, marks)
    ensures Carry(Observe(s, c, pid, now, r).allCandidates, marks + StillMark(c, q))
  {
    var t := Observe(s, c, pid, now, r);
    assert LatestRef(q[..|q| - 1], (r.start, r.end))
        == if SpanOf(r) in s.lastSeenRef then Some(s.lastSeenRef[SpanOf(r)]) else None;
    ObserveRemembers(s, c, q, pid, now, r);
    assert FirstSight(q, (r.start, r.end))
        == if SpanOf(r) in t.firstSeenNs then Some(t.firstSeenNs[SpanOf(r)]) else None;
  }

  /** Observing the regions that the last sightings of `all` list. */
  lemma {:induction false} ObserveAllCarries(s: State, c: Config, q: seq<Sighting>, all: seq<Sighting>,
                                             pid: nat, now: int, regions: seq<Region>, marks: seq<Mark>)
    requires Remembers(s, c, q) && Carry(s.allCandidates, marks)
    requires |all| == |q| + |regions| && all[..|q|] == q
    requires forall i :: |q| <= i < |all| ==> all[i] == Sighting(now, pid, regions[i - |q|])
    ensures var t := ObserveAll(s, c, pid, now, regions);
            Remembers(t, c, all) && Carry(t.allCandidates, WithNegatives(marks, c, all, |q|))
  {
    if regions == [] {
      assert all == q;
    } else {
      var init := all[..|all| - 1];
      assert init[..|q|] == q;
      var mid := ObserveAll(s, c, pid, now, regions[..|regions| - 1]);
      ObserveAllCarries(s, c, q, init, pid, now, regions[..|regions| - 1], marks);
      ObserveRemembers(mid, c, all, pid, now, regions[|regions| - 1]);
      ObserveCarries(mid, c, all, pid, now, regions[|regions| - 1], WithNegatives(marks, c, init, |q|));
    }
  }

  /** The state after `h`, as far as scans and candidates go. */
  ghost predicate Records(s: State, c: Config, h: seq<Event>) {
    && Remembers(s, c, Seen(c, h)) && s.lastVmaNs == LastScan(c, h) && s.lastRollupNs == LastRollup(c, h)
    && Carry(s.allCandidates, Marks(c, h))
  }

  /** The sightings of a scan come after those before it. */
  predicate Follow(all: seq<Sighting>, q: seq<Sighting>, e: PollEnv) {
    && e.pid.Some? && |all| == |q| + |e.regions| && all[..|q|] == q
    && forall i :: |q| <= i < |all| ==> all[i] == Sighting(e.nowNs, e.pid.value, e.regions[i - |q|])
  }

  lemma {:induction false} ScannedAll(s: State, c: Config, q: seq<Sighting>, all: seq<Sighting>, e: PollEnv,
                                      marks: seq<Mark>)
    requires Remembers(s, c, q) && Carry(s.allCandidates, marks) && Follow(all, q, e) && e.regions != []
    ensures var t := Scanned(s, c, e, e.pid.value);
            && Remembers(t, c, all)
            && Carry(t.allCandidates, WithNegatives(marks, c, all, |q|) + [SampledMark(e, all)])
  {
    ObserveAllCarries(s, c, q, all, e.pid.value, e.nowNs, e.regions, marks);
    var t := ObserveAll(s, c, e.pid.value, e.nowNs, e.regions);
    var r := Pick(e.regions, e.sampleDraw);
    assert FirstSight(all, (r.start, r.end))
        == if SpanOf(r) in t.firstSeenNs then Some(t.firstSeenNs[SpanOf(r)]) else None;
  }

  lemma SeenNext(c: Config, h: seq<Event>)
    requires h != [] && Scans(c, h[..|h| - 1], h[|h| - 1])
    ensures Follow(Seen(c, h), Seen(c, h[..|h| - 1]), h[|h| - 1].e)
  {
    var q, more := Seen(c, h[..|h| - 1]), SightingsOf(h[|h| - 1].e);
    assert (q + more)[..|q|] == q;
  }

  lemma ScannedCarries(s: State, c: Config, h: seq<Event>)
    requires h != [] && Scans(c, h[..|h| - 1], h[|h| - 1]) && h[|h| - 1].e.regions != []
    requires Remembers(s, c, Seen(c, h[..|h| - 1])) && Carry(s.allCandidates, Marks(c, h[..|h| - 1]))
    ensures var t := Scanned(s, c, h[|h| - 1].e, h[|h| - 1].e.pid.value);
            Remembers(t, c, Seen(c, h)) && Carry(t.allCandidates, Marks(c, h))
  {
    var before, e := h[..|h| - 1], h[|h| - 1].e;
    SeenNext(c, h);
    ScannedAll(s, c, Seen(c, before), Seen(c, h), e, Marks(c, before));
  }

  predicate SameMemory(s: State, t: State) {
    && t.firstSeenNs == s.firstSeenNs && t.lastSeenRef == s.lastSeenRef && t.lastNegativeNs == s.lastNegativeNs
    && t.allCandidates == s.allCandidates
  }

  lemma MemoryKept(s: State, t: State, c: Config, q: seq<Sighting>, marks: seq<Mark>)
    requires SameMemory(s, t) && Remembers(s, c, q) && Carry(s.allCandidates, marks)
    ensures Remembers(t, c, q) && Carry(t.allCandidates, marks)
  {
  }

  /** Without a scan that lists regions nothing is sighted and no candidate recorded. */
  lemma NothingSeen(c: Config, h: seq<Event>)
    requires h != [] && !(Scans(c, h[..|h| - 1], h[|h| - 1]) && h[|h| - 1].e.regions != [])
    ensures Seen(c, h) == Seen(c, h[..|h| - 1]) && Marks(c, h) == Marks(c, h[..|h| - 1])
  {
    var before := h[..|h| - 1];
    assert Seen(c, before) + [] == Seen(c, before);
  }

  lemma {:induction false} ObserveAllKeepsClocks(s: State, c: Config, pid: nat, now: int, regions: seq<Region>)
    ensures var t := ObserveAll(s, c, pid, now, regions);
            && t.lastVmaNs == s.lastVmaNs && t.lastRollupNs == s.lastRollupNs
            && t.lastInterventionNs == s.lastInterventionNs && t.allInterventions == s.allInterventions
            && t.allSamples == s.allSamples
  {
    if regions == [] {
    } else {
      ObserveAllKeepsClocks(s, c, pid, now, regions[..|regions| - 1]);
    }
  }

  lemma PollKeepsMemory(s: State, c: Config, e: PollEnv)
    requires e.pid.Some?
    ensures SameMemory(s, Noted(s, c, e, e.pid.value)) && SameMemory(s, Due(s, c, e, e.pid.value))
    ensures e.regions != [] ==>
              SameMemory(Scanned(s, c, e, e.pid.value),
                         Intervened(Scanned(s, c, e, e.pid.value), c, e, e.pid.value))
  {
  }

  lemma PollClocks(s: State, c: Config, h: seq<Event>)
    requires h != [] && h[|h| - 1].Polled?
    requires s.lastVmaNs == LastScan(c, h[..|h| - 1]) && s.lastRollupNs == LastRollup(c, h[..|h| - 1])
    ensures var t := PollStep(s, c, h[|h| - 1].e); t.lastVmaNs == LastScan(c, h) && t.lastRollupNs == LastRollup(c, h)
  {
    var e := h[|h| - 1].e;
    if e.pid.Some? {
      DueClocks(s, c, e);
      if e.regions != [] {
        ScannedClocks(Due(s, c, e, e.pid.value), c, e);
      }
    }
  }

  lemma DueClocks(s: State, c: Config, e: PollEnv)
    requires e.pid.Some?
    ensures var noted, due := Noted(s, c, e, e.pid.value), Due(s, c, e, e.pid.value);
            && noted.lastVmaNs == s.lastVmaNs && due.lastVmaNs == e.nowNs
            && noted.lastRollupNs == due.lastRollupNs
            && due.lastRollupNs == (if RollupDue(s, c, e.nowNs) then e.nowNs else s.lastRollupNs)
            && noted.lastInterventionNs == due.lastInterventionNs == s.lastInterventionNs
            && noted.allInterventions == due.allInterventions == s.allInterventions
  {
  }

  lemma ScannedClocks(s: State, c: Config, e: PollEnv)
    requires e.pid.Some? && e.regions != []
    ensures var t := Scanned(s, c, e, e.pid.value);
            && t.lastVmaNs == s.lastVmaNs && t.lastRollupNs == s.lastRollupNs
            && t.lastInterventionNs == s.lastInterventionNs && t.allInterventions == s.allInterventions
            && t.allSamples == s.allSamples
  {
    ObserveAllKeepsClocks(s, c, e.pid.value, e.nowNs, e.regions);
  }

  lemma ScanRemembers(s: State, c: Config, h: seq<Event>)
    requires h != [] && Scans(c, h[..|h| - 1], h[|h| - 1]) && h[|h| - 1].e.regions != []
    requires Records(s, c, h[..|h| - 1])
    ensures var t := PollStep(s, c, h[|h| - 1].e); Remembers(t, c, Seen(c, h)) && Carry(t.allCandidates, Marks(c, h))
  {
    var before, e := h[..|h| - 1], h[|h| - 1].e;
    var due := Due(s, c, e, e.pid.value);
    PollKeepsMemory(s, c, e);
    PollKeepsMemory(due, c, e);
    MemoryKept(s, due, c, Seen(c, before), Marks(c, before));
    ScannedCarries(due, c, h);
    MemoryKept(Scanned(due, c, e, e.pid.value), PollStep(s, c, e), c, Seen(c, h), Marks(c, h));
  }

  lemma PollRemembers(s: State, c: Config, h: seq<Event>)
    requires h != [] && h[|h| - 1].Polled? && Records(s, c, h[..|h| - 1])
    ensures var t := PollStep(s, c, h[|h| - 1].e); Remembers(t, c, Seen(c, h)) && Carry(t.allCandidates, Marks(c, h))
  {
    var before, e := h[..|h| - 1], h[|h| - 1].e;
    if Scans(c, before, h[|h| - 1]) && e.regions != [] {
      ScanRemembers(s, c, h);
    } else {
      NothingSeen(c, h);
      if e.pid.Some? {
        PollKeepsMemory(s, c, e);
      }
      MemoryKept(s, PollStep(s, c, e), c, Seen(c, before), Marks(c, before));
    }
  }

  lemma PollRecords(s: State, c: Config, h: seq<Event>)
    requires h != [] && h[|h| - 1].Polled? && Records(s, c, h[..|h| - 1])
    ensures Records(PollStep(s, c, h[|h| - 1].e), c, h)
  {
    PollClocks(s, c, h);
    PollRemembers(s, c, h);
  }

  /** Over every run: the first sightings, the references and the candidates are those
      that the history of scans determines. */
  lemma {:induction false} RunRecords(c: Config, h: seq<Event>)
    ensures Records(Run(c, h), c, h)
  {
    if h == [] {
    } else {
      var before := h[..|h| - 1];
      RunRecords(c, before);
      if h[|h| - 1].Polled? {
        PollRecords(Run(c, before), c, h);
      } else {
        assert Seen(c, h) == Seen(c, before) && Marks(c, h) == Marks(c, before);
      }
    }
  }

  /** A span is known exactly when some scan listed it, since the earliest such scan. */
  lemma FirstSeenIsFirstSight(c: Config, h: seq<Event>, span: Span)
    ensures FirstSight(Seen(c, h), span)
         == if span in Run(c, h).firstSeenNs then Some(Run(c, h).firstSeenNs[span]) else None
  {
    RunRecords(c, h);
  }

  /** The candidates of a run are its scans' own, one for one and in order: each names its
      region, its clock and the seconds since that region was first sighted. */
  lemma CandidatesAreHistory(c: Config, h: seq<Event>)
    ensures Carry(Run(c, h).allCandidates, Marks(c, h))
  {
    RunRecords(c, h);
  }

  // ------------------------------------------------------- interventions

  /** The clock of the latest poll that intervened. */
  function LastIntervention(c: Config, h: seq<Event>): int
    decreases |h|, 0
  {
    if h == [] then 0
    else if Intervenes(c, h[..|h| - 1], h[|h| - 1]) then h[|h| - 1].e.nowNs
    else LastIntervention(c, h[..|h| - 1])
  }

  /** A poll after `h` intervenes: it scans and finds regions, interventions are enabled,
      warm-up is over, and a period has passed since the latest one. */
  predicate Intervenes(c: Config, h: seq<Event>, ev: Event)
    decreases |h|, 1
  {
    && Scans(c, h, ev) && ev.e.regions != [] && c.enabled && ev.e.nowNs - c.startedNs >= c.warmupNs
    && ev.e.nowNs - LastIntervention(c, h) >= c.periodNs
  }

  /** The rows are those of the polls that intervene, one for one and in order. */
  ghost predicate FromPolls(c: Config, h: seq<Event>, ivs: seq<Intervention>) {
    if h == [] then ivs == []
    else if Intervenes(c, h[..|h| - 1], h[|h| - 1])
    then ivs != [] && Fits(c, h, ivs[|ivs| - 1]) && FromPolls(c, h[..|h| - 1], ivs[..|ivs| - 1])
    else FromPolls(c, h[..|h| - 1], ivs)
  }

  /** The row of the poll that ends `h`: it names the poll's latest candidate and the region
      drawn by age, whose bucket is that of the time since the region was first sighted. */
  ghost predicate Fits(c: Config, h: seq<Event>, iv: Intervention)
    requires h != [] && h[|h| - 1].Polled? && h[|h| - 1].e.pid.Some? && h[|h| - 1].e.regions != []
  {
    var e := h[|h| - 1].e;
    var r := ChooseRegion(Run(c, h), c, e);
    && iv.tsNs == e.nowNs && iv.pid == e.pid.value && iv.success == e.splitOk
    && iv.decisionId == DecisionId(c, |Marks(c, h)|) && iv.start == r.start && iv.end == r.end
    && iv.ageBucket == BucketOf(Some(AgeAt(Seen(c, h), r, e.nowNs)), false)
  }

  lemma {:induction false} InBucketBySight(s: State, t: State, regions: seq<Region>, now: int, b: Bucket)
    requires s.firstSeenNs == t.firstSeenNs
    ensures InBucket(s, regions, now, b) == InBucket(t, regions, now, b)
  {
    if regions != [] {
      InBucketBySight(s, t, regions[..|regions| - 1], now, b);
    }
  }

  lemma {:induction false} WeightedBySight(s: State, t: State, regions: seq<Region>, now: int,
                                           weights: seq<(Bucket, real)>)
    requires s.firstSeenNs == t.firstSeenNs
    ensures Weighted(s, regions, now, weights) == Weighted(t, regions, now, weights)
  {
    if weights != [] {
      WeightedBySight(s, t, regions, now, weights[..|weights| - 1]);
      InBucketBySight(s, t, regions, now, weights[|weights| - 1].0);
    }
  }

  /** The choice depends on the first sightings alone. */
  lemma ChoiceBySight(s: State, t: State, c: Config, e: PollEnv)
    requires s.firstSeenNs == t.firstSeenNs && e.regions != []
    ensures ChooseRegion(s, c, e) == ChooseRegion(t, c, e)
  {
    var weighted := Weighted(s, e.regions, e.nowNs, c.weights);
    WeightedBySight(s, t, e.regions, e.nowNs, c.weights);
    if weighted != [] {
      InBucketBySight(s, t, e.regions, e.nowNs, PickBucket(weighted, 0, 0.0, PickOf(s, c, e)));
    }
  }

  lemma BucketAtSight(s: State, c: Config, q: seq<Sighting>, r: Region, now: int)
    requires Remembers(s, c, q)
    ensures RegionBucket(s, r, now) == BucketOf(Some(AgeAt(q, r, now)), false)
  {
    assert FirstSight(q, (r.start, r.end))
        == if SpanOf(r) in s.firstSeenNs then Some(s.firstSeenNs[SpanOf(r)]) else None;
  }

  /** A state with the interventions of `h`. */
  ghost predicate IntervenedBy(s: State, c: Config, h: seq<Event>) {
    s.lastInterventionNs == LastIntervention(c, h) && FromPolls(c, h, s.allInterventions)
  }

  lemma InterveneFits(t: State, c: Config, h: seq<Event>)
    requires h != [] && h[|h| - 1].Polled? && h[|h| - 1].e.pid.Some? && h[|h| - 1].e.regions != []
    requires Remembers(t, c, Seen(c, h)) && t.decisionCounter == |Marks(c, h)|
    requires Run(c, h) == Intervened(t, c, h[|h| - 1].e, h[|h| - 1].e.pid.value)
    ensures var u := Intervened(t, c, h[|h| - 1].e, h[|h| - 1].e.pid.value);
            && u.allInterventions == t.allInterventions + [u.allInterventions[|t.allInterventions|]]
            && Fits(c, h, u.allInterventions[|t.allInterventions|]) && u.lastInterventionNs == h[|h| - 1].e.nowNs
  {
    var e := h[|h| - 1].e;
    var s := t.(lastInterventionNs := e.nowNs);
    BucketAtSight(s, c, Seen(c, h), ChooseRegion(s, c, e), e.nowNs);
    ChoiceBySight(s, Run(c, h), c, e);
  }

  lemma PollSpares(s: State, c: Config, h: seq<Event>)
    requires h != [] && h[|h| - 1].Polled? && Records(s, c, h[..|h| - 1])
    requires IntervenedBy(s, c, h[..|h| - 1]) && !Intervenes(c, h[..|h| - 1], h[|h| - 1])
    ensures IntervenedBy(PollStep(s, c, h[|h| - 1].e), c, h)
  {
    var e := h[|h| - 1].e;
    if e.pid.Some? {
      DueClocks(s, c, e);
      if e.regions != [] {
        ScannedClocks(Due(s, c, e, e.pid.value), c, e);
      }
    }
  }

  lemma PollIntervenes(s: State, c: Config, h: seq<Event>)
    requires h != [] && Intervenes(c, h[..|h| - 1], h[|h| - 1]) && Records(s, c, h[..|h| - 1]) && Numbered(s, c)
    requires IntervenedBy(s, c, h[..|h| - 1]) && s == Run(c, h[..|h| - 1])
    ensures IntervenedBy(PollStep(s, c, h[|h| - 1].e), c, h)
  {
    var e := h[|h| - 1].e;
    var due := Due(s, c, e, e.pid.value);
    var scanned := Scanned(due, c, e, e.pid.value);
    DueClocks(s, c, e);
    ScannedClocks(due, c, e);
    ScanRecords(s, c, h);
    var t := PollStep(s, c, e);
    assert t == Intervened(scanned, c, e, e.pid.value);
    InterveneFits(scanned, c, h);
    assert t.allInterventions[..|t.allInterventions| - 1] == s.allInterventions;
  }

  lemma ScanRecords(s: State, c: Config, h: seq<Event>)
    requires h != [] && Scans(c, h[..|h| - 1], h[|h| - 1]) && h[|h| - 1].e.regions != []
    requires Records(s, c, h[..|h| - 1]) && Numbered(s, c)
    ensures var e := h[|h| - 1].e;
            var t := Scanned(Due(s, c, e, e.pid.value), c, e, e.pid.value);
            Remembers(t, c, Seen(c, h)) && t.decisionCounter == |Marks(c, h)|
  {
    var before, e := h[..|h| - 1], h[|h| - 1].e;
    var due := Due(s, c, e, e.pid.value);
    PollKeepsMemory(s, c, e);
    MemoryKept(s, due, c, Seen(c, before), Marks(c, before));
    ScannedCarries(due, c, h);
    DueKeepsRows(s, c, e, e.pid.value);
    StillNumbered(s, due, c);
    ScannedNumbered(due, c, e, e.pid.value);
  }

  /** Over every run, a poll intervenes exactly when one is due, and each row is that of
      its poll. */
  lemma {:induction false} InterventionsAreHistory(c: Config, h: seq<Event>)
    ensures IntervenedBy(Run(c, h), c, h)
  {
    if h == [] {
    } else {
      var before := h[..|h| - 1];
      InterventionsAreHistory(c, before);
      if h[|h| - 1].Polled? {
        RunRecords(c, before);
        RunNumbered(c, before);
        if Intervenes(c, before, h[|h| - 1]) {
          PollIntervenes(Run(c, before), c, h);
        } else {
          PollSpares(Run(c, before), c, h);
        }
      }
    }
  }

  // ------------------------------------------------------- raw samples

  function Rollups(c: Config, h: seq<Event>): seq<Rollup> {
    if h == [] then []
    else
      var before, ev := h[..|h| - 1], h[|h| - 1];
      Rollups(c, before)
      + if Rolls(c, before, ev) && ev.e.rollup.Some?
      then [Rollup(ev.e.pid.value, ev.e.nowNs, ev.e.rollup.value)] else []
  }

  /** The region samples are the sightings. */
  predicate SampleAll(rows: seq<RegionSample>, q: seq<Sighting>) {
    |rows| == |q| && forall i :: 0 <= i < |q| ==> rows[i] == RegionSample(q[i].pid, q[i].now, q[i].region)
  }

  lemma SamplesGrow(e: PollEnv, rows: seq<RegionSample>, q: seq<Sighting>)
    requires e.pid.Some? && SampleAll(rows, q)
    ensures SampleAll(rows + RegionSamples(e.pid.value, e.nowNs, e.regions), q + SightingsOf(e))
  {
  }

  lemma DueSamples(s: State, c: Config, e: PollEnv)
    requires e.pid.Some?
    ensures var pid := e.pid.value;
            var noted, due := Noted(s, c, e, pid).allSamples, Due(s, c, e, pid).allSamples;
            && noted.rollups == due.rollups
            && noted.rollups == s.allSamples.rollups + (if RollupDue(s, c, e.nowNs) && e.rollup.Some?
                                                        then [Rollup(pid, e.nowNs, e.rollup.value)] else [])
            && noted.vmas == s.allSamples.vmas
            && due.vmas == s.allSamples.vmas + RegionSamples(pid, e.nowNs, e.regions)
  {
  }

  /** What a poll adds to the raw samples. */
  lemma PollSamples(s: State, c: Config, h: seq<Event>)
    requires h != [] && h[|h| - 1].Polled?
    requires s.lastVmaNs == LastScan(c, h[..|h| - 1]) && s.lastRollupNs == LastRollup(c, h[..|h| - 1])
    ensures var before, e, t := h[..|h| - 1], h[|h| - 1].e, PollStep(s, c, h[|h| - 1].e);
            && t.allSamples.rollups
               == s.allSamples.rollups + (if Rolls(c, before, h[|h| - 1]) && e.rollup.Some?
                                          then [Rollup(e.pid.value, e.nowNs, e.rollup.value)] else [])
            && t.allSamples.vmas
               == s.allSamples.vmas + (if Scans(c, before, h[|h| - 1])
                                       then RegionSamples(e.pid.value, e.nowNs, e.regions) else [])
  {
    var e := h[|h| - 1].e;
    if e.pid.Some? {
      DueSamples(s, c, e);
      if e.regions != [] {
        ScannedClocks(Due(s, c, e, e.pid.value), c, e);
      }
    }
  }

  /** Over every run, the raw samples are the rollups due and readable, and every region
      of every scan, in order. */
  lemma {:induction false} SamplesAreHistory(c: Config, h: seq<Event>)
    ensures Run(c, h).allSamples.rollups == Rollups(c, h)
    ensures SampleAll(Run(c, h).allSamples.vmas, Seen(c, h))
  {
    if h == [] {
    } else {
      var before := h[..|h| - 1];
      SamplesAreHistory(c, before);
      if h[|h| - 1].Polled? {
        RunRecords(c, before);
        PollSamples(Run(c, before), c, h);
        if Scans(c, before, h[|h| - 1]) {
          SamplesGrow(h[|h| - 1].e, Run(c, before).allSamples.vmas, Seen(c, before));
        }
      }
    }
  }

  // ------------------------------------------------------- the stratified choice

  /** The first `n` weights together. */
  function WeightUpTo(weighted: seq<(Bucket, real)>, n: nat): real
    requires n <= |weighted|
  {
    if n == 0 then 0.0 else WeightUpTo(weighted, n - 1) + weighted[n - 1].1
  }

  lemma {:induction false} WeightUpToPrefix(weighted: seq<(Bucket, real)>, m: nat, n: nat)
    requires m <= n <= |weighted|
    ensures WeightUpTo(weighted[..n], m) == WeightUpTo(weighted, m)
  {
    if m > 0 {
      WeightUpToPrefix(weighted, m - 1, n);
    }
  }

  lemma {:induction false} SumIsAllWeight(weighted: seq<(Bucket, real)>)
    ensures SumWeights(weighted) == WeightUpTo(weighted, |weighted|)
  {
    if weighted == [] {
    } else {
      var n := |weighted| - 1;
      SumIsAllWeight(weighted[..n]);
      WeightUpToPrefix(weighted, n, n);
    }
  }

  /** Entry `j` is the first whose weight, with those before it, reaches `pick`; the last
      entry also takes what none reaches. */
  predicate Takes(weighted: seq<(Bucket, real)>, j: nat, pick: real) {
    && j < |weighted| && (forall i :: 0 < i <= j ==> WeightUpTo(weighted, i) < pick)
    && (pick <= WeightUpTo(weighted, j + 1) || j == |weighted| - 1)
  }

  lemma {:induction false} PickTakes(weighted: seq<(Bucket, real)>, i: nat, run: real, pick: real) returns (j: nat)
    requires i < |weighted| && run == WeightUpTo(weighted, i)
    requires forall k :: 0 < k <= i ==> WeightUpTo(weighted, k) < pick
    ensures Takes(weighted, j, pick) && PickBucket(weighted, i, run, pick) == weighted[j].0
    decreases |weighted| - i
  {
    if i == |weighted| - 1 || pick <= run + weighted[i].1 {
      j := i;
    } else {
      j := PickTakes(weighted, i + 1, run + weighted[i].1, pick);
    }
  }

  /** One bucket's entry among the weighted ones. */
  function Entry(s: State, regions: seq<Region>, now: int, w: (Bucket, real)): seq<(Bucket, real)> {
    if exists r :: r in regions && RegionBucket(s, r, now) == w.0
    then [(w.0, if w.1 < 0.0 then 0.0 else w.1)] else []
  }

  lemma EntryIfNonempty(s: State, regions: seq<Region>, now: int, w: (Bucket, real))
    ensures Entry(s, regions, now, w) == if InBucket(s, regions, now, w.0) != [] then [(w.0, Clamp(w.1))] else []
  {
    var inBucket := InBucket(s, regions, now, w.0);
    if inBucket != [] {
      assert inBucket[0] in inBucket;
    }
    if r :| r in regions && RegionBucket(s, r, now) == w.0 {
      assert r in inBucket;
    }
  }

  /** The young, mid and old buckets that hold a region, with their weights; a negative
      weight counts as zero. */
  lemma WeightedEntries(s: State, regions: seq<Region>, now: int, weights: seq<(Bucket, real)>)
    requires |weights| == 3
    ensures Weighted(s, regions, now, weights)
         == Entry(s, regions, now, weights[0]) + Entry(s, regions, now, weights[1]) + Entry(s, regions, now, weights[2])
  {
    var one, two := [weights[0]], [weights[0], weights[1]];
    WeightedNext(s, regions, now, [], weights[0], one);
    WeightedNext(s, regions, now, one, weights[1], two);
    WeightedNext(s, regions, now, two, weights[2], weights);
  }

  lemma WeightedNext(s: State, regions: seq<Region>, now: int, init: seq<(Bucket, real)>, w: (Bucket, real),
                     all: seq<(Bucket, real)>)
    requires all == init + [w]
    ensures Weighted(s, regions, now, all)
         == (if init == [] then [] else Weighted(s, regions, now, init)) + Entry(s, regions, now, w)
  {
    EntryIfNonempty(s, regions, now, w);
    assert all[..|init|] == init;
  }

  /** Where a bucket stands among the first `n`. */
  function Places(buckets: seq<Bucket>, b: Bucket, n: nat): set<nat>
    requires n <= |buckets|
  {
    set i: nat | i < n && buckets[i] == b
  }

  lemma PlacesNext(buckets: seq<Bucket>, b: Bucket, n: nat)
    requires n < |buckets|
    ensures |Places(buckets, b, n + 1)| == |Places(buckets, b, n)| + if buckets[n] == b then 1 else 0
  {
    var before := Places(buckets, b, n);
    if buckets[n] == b {
      assert Places(buckets, b, n + 1) == before + {n};
    } else {
      assert Places(buckets, b, n + 1) == before;
    }
  }

  ghost predicate BucketsAre(s: State, regions: seq<Region>, now: int, buckets: seq<Bucket>) {
    |buckets| >= |regions| && forall i :: 0 <= i < |regions| ==> buckets[i] == RegionBucket(s, regions[i], now)
  }

  lemma {:induction false} InBucketCount(s: State, regions: seq<Region>, now: int, b: Bucket, buckets: seq<Bucket>)
    requires BucketsAre(s, regions, now, buckets)
    ensures |InBucket(s, regions, now, b)| == |Places(buckets, b, |regions|)|
  {
    if regions != [] {
      InBucketCount(s, regions[..|regions| - 1], now, b, buckets);
      PlacesNext(buckets, b, |regions| - 1);
    }
  }

  lemma InBucketLast(s: State, regions: seq<Region>, now: int, b: Bucket, buckets: seq<Bucket>)
    requires BucketsAre(s, regions, now, buckets) && regions != [] && buckets[|regions| - 1] == b
    ensures var inBucket, k := InBucket(s, regions, now, b), |Places(buckets, b, |regions| - 1)|;
            k < |inBucket| && inBucket[k] == regions[|regions| - 1]
  {
    InBucketCount(s, regions[..|regions| - 1], now, b, buckets);
  }

  /** A bucket's regions keep their order: each is found at the number of those before it. */
  lemma {:induction false} InBucketInOrder(s: State, regions: seq<Region>, now: int, b: Bucket,
                                           buckets: seq<Bucket>, i: nat)
    requires BucketsAre(s, regions, now, buckets) && i < |regions| && buckets[i] == b
    ensures var inBucket, k := InBucket(s, regions, now, b), |Places(buckets, b, i)|;
            k < |inBucket| && inBucket[k] == regions[i]
  {
    if i < |regions| - 1 {
      InBucketInOrder(s, regions[..|regions| - 1], now, b, buckets, i);
    } else {
      InBucketLast(s, regions, now, b, buckets);
    }
  }

  lemma ChoiceAt(s: State, c: Config, e: PollEnv, pick: real) returns (j: nat)
    requires GoodConfig(c) && e.regions != [] && SeenBy(s, e.nowNs)
    ensures var weighted := Weighted(s, e.regions, e.nowNs, c.weights);
            && Takes(weighted, j, pick)
            && var inBucket := InBucket(s, e.regions, e.nowNs, weighted[j].0);
            inBucket != [] && RegionAt(s, c, e, pick) == inBucket[e.regionDraw % |inBucket|]
  {
    var weighted := Weighted(s, e.regions, e.nowNs, c.weights);
    RegionFromBucket(s, c, e, pick);
    WeightedNonempty(s, e.regions, e.nowNs, c.weights);
    j := PickTakes(weighted, 0, 0.0, pick);
    assert weighted[j] in weighted;
  }

  /** The draw falls at its share of all the weight. */
  lemma PickIsShare(draw: real, weighted: seq<(Bucket, real)>)
    ensures Scale(draw, SumWeights(weighted)) == draw * WeightUpTo(weighted, |weighted|)
  {
    SumIsAllWeight(weighted);
  }

  /** The draw picks a bucket in proportion to the weights, and a region of it. */
  lemma ChoiceIsStratified(s: State, c: Config, e: PollEnv) returns (j: nat)
    requires GoodConfig(c) && e.regions != [] && SeenBy(s, e.nowNs)
    ensures var weighted := Weighted(s, e.regions, e.nowNs, c.weights);
            && Takes(weighted, j, Scale(e.bucketDraw, WeightUpTo(weighted, |weighted|)))
            && var inBucket := InBucket(s, e.regions, e.nowNs, weighted[j].0);
            inBucket != [] && ChooseRegion(s, c, e) == inBucket[e.regionDraw % |inBucket|]
  {
    SumIsAllWeight(Weighted(s, e.regions, e.nowNs, c.weights));
    j := ChoiceAt(s, c, e, PickOf(s, c, e));
  }
}
