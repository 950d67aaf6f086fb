/** The THP intervention hook: polls sample memory regions, record candidate decisions,
    and now and then split a region chosen by age.  A poll is one step on the hook's whole
    state; `pop_data` is one step here, and four reads and four clearings in `ThpRows`.
    Beside the buffers the state keeps the record of all rows, which no pop empties. */
module ThpIntervention {
  import opened Wrappers
  import opened AgeBuckets
  import opened Sums
  import Decimal

  datatype Region = Region(start: nat, end: nat, referencedKb: int, anonHugepagesKb: int, thpEligible: int)

  type Span = (nat, nat)

  function SpanOf(r: Region): Span {
    (r.start, r.end)
  }

  datatype CandidateType = Negative | Sampled

  datatype Candidate = Candidate(
    decisionId: string, pid: nat, tsNs: int, candidateType: CandidateType, region: Region, ageSec: real,
    ageCensored: bool)

  datatype Intervention = Intervention(
    interventionId: string, decisionId: string, pid: nat, tsNs: int, start: nat, end: nat,
    ageBucket: Bucket, success: bool)

  datatype Config = Config(
    collectionId: string, rollupIntervalNs: int, vmaIntervalNs: int, negativeIntervalNs: int,
    enabled: bool, periodNs: int, warmupNs: int, startedNs: int, weights: seq<(Bucket, real)>)

  /** The three stratified buckets, each with a weight. */
  predicate GoodConfig(c: Config) {
    |c.weights| == 3 && c.weights[0].0 == Young && c.weights[1].0 == Mid && c.weights[2].0 == Old
  }

  /** What one poll meets: the clock, the target process, its regions, the random
      draws, whether the split request is accepted, and the rollup figures if they can be
      read. */
  datatype PollEnv = PollEnv(
    nowNs: int, pid: Option<nat>, regions: seq<Region>, sampleDraw: nat, bucketDraw: real, regionDraw: nat,
    splitOk: bool, rollup: Option<seq<int>>)

  function DecisionId(c: Config, n: nat): string {
    c.collectionId + "-cand-" + Decimal.ToString(n)
  }

  function InterventionId(c: Config, n: nat): string {
    c.collectionId + "-iv-" + Decimal.ToString(n)
  }

  lemma SamePrefix(p: string, a: string, b: string)
    requires p + a == p + b
    ensures a == b
  {
    assert (p + a)[|p|..] == a && (p + b)[|p|..] == b;
  }

  lemma DecisionIdInjective(c: Config, m: nat, n: nat)
    requires DecisionId(c, m) == DecisionId(c, n)
    ensures m == n
  {
    SamePrefix(c.collectionId + "-cand-", Decimal.ToString(m), Decimal.ToString(n));
    Decimal.ToStringInjective(m, n);
  }

  lemma InterventionIdInjective(c: Config, m: nat, n: nat)
    requires InterventionId(c, m) == InterventionId(c, n)
    ensures m == n
  {
    SamePrefix(c.collectionId + "-iv-", Decimal.ToString(m), Decimal.ToString(n));
    Decimal.ToStringInjective(m, n);
  }

  // ------------------------------------------------------- the hook's state

  datatype Rollup = Rollup(pid: nat, tsNs: int, values: seq<int>)

  datatype RegionSample = RegionSample(pid: nat, tsNs: int, region: Region)

  /** The raw samples: rollup figures, and every region of every scan. */
  datatype Samples = Samples(rollups: seq<Rollup>, vmas: seq<RegionSample>)

  const NO_SAMPLES := Samples([], [])

  function Plus(a: Samples, b: Samples): Samples {
    Samples(a.rollups + b.rollups, a.vmas + b.vmas)
  }

  /** `candidates`, `interventions` and `samples` are the rows not yet popped;
      `allCandidates`, `allInterventions` and `allSamples` every row ever recorded. */
  datatype State = State(
    lastRollupNs: int, lastVmaNs: int, lastNegativeNs: int, lastInterventionNs: int,
    decisionCounter: nat, interventionCounter: nat,
    firstSeenNs: map<Span, int>, lastSeenRef: map<Span, int>,
    candidates: seq<Candidate>, interventions: seq<Intervention>,
    allCandidates: seq<Candidate>, allInterventions: seq<Intervention>,
    samples: Samples, allSamples: Samples)

  const START := State(0, 0, 0, 0, 0, 0, map[], map[], [], [], [], [], NO_SAMPLES, NO_SAMPLES)

  function FirstSeen(s: State, span: Span, now: int): int {
    if span in s.firstSeenNs then s.firstSeenNs[span] else now
  }

  function AgeSec(s: State, r: Region, now: int): real {
    (now - FirstSeen(s, SpanOf(r), now)) as real / 1000000000.0
  }

  function RegionBucket(s: State, r: Region, now: int): Bucket {
    BucketOf(Some(AgeSec(s, r, now)), false)
  }

  function WithCandidate(s: State, c: Config, pid: nat, now: int, t: CandidateType, r: Region): State {
    var row := Candidate(DecisionId(c, s.decisionCounter + 1), pid, now, t, r, AgeSec(s, r, now), true);
    s.(decisionCounter := s.decisionCounter + 1, candidates := s.candidates + [row],
    allCandidates := s.allCandidates + [row])
  }

  function Abs(n: int): int {
    if n < 0 then -n else n
  }

  /** One region of a scan: note it, and record a negative candidate when it has been
      still since the last scan and the sampling interval has passed. */
  function Observe(s: State, c: Config, pid: nat, now: int, r: Region): State {
    var span := SpanOf(r);
    var seen := s.(firstSeenNs := if span in s.firstSeenNs then s.firstSeenNs else s.firstSeenNs[span := now],
                lastSeenRef := s.lastSeenRef[span := r.referencedKb]);
    if span in s.lastSeenRef && Abs(r.referencedKb - s.lastSeenRef[span]) <= 32 && r.anonHugepagesKb > 0
       && now - s.lastNegativeNs >= c.negativeIntervalNs
    then WithCandidate(seen.(lastNegativeNs := now), c, pid, now, Negative, r)
    else seen
  }

  function ObserveAll(s: State, c: Config, pid: nat, now: int, regions: seq<Region>): State {
    if regions == [] then s
    else Observe(ObserveAll(s, c, pid, now, regions[..|regions| - 1]), c, pid, now, regions[|regions| - 1])
  }

  // ------------------------------------------------------- choosing a region

  function Pick<T>(items: seq<T>, draw: nat): (x: T)
    requires items != []
    ensures x in items && (draw < |items| ==> x == items[draw])
  {
    items[draw % |items|]
  }

  function InBucket(s: State, regions: seq<Region>, now: int, b: Bucket): (r: seq<Region>)
    ensures forall x :: x in r <==> x in regions && RegionBucket(s, x, now) == b
  {
    if regions == [] then []
    else
      var last := regions[|regions| - 1];
      assert regions == regions[..|regions| - 1] + [last];
      InBucket(s, regions[..|regions| - 1], now, b) + if RegionBucket(s, last, now) == b then [last] else []
  }

  function Clamp(w: real): (r: real)
    ensures r >= 0.0
  {
    if w < 0.0 then 0.0 else w
  }

  /** The nonempty buckets with their weights, negative weights counting as zero. */
  function Weighted(s: State, regions: seq<Region>, now: int, weights: seq<(Bucket, real)>): seq<(Bucket, real)> {
    if weights == [] then []
    else
      var (b, w) := weights[|weights| - 1];
      Weighted(s, regions, now, weights[..|weights| - 1])
      + if InBucket(s, regions, now, b) != [] then [(b, Clamp(w))] else []
  }

  function SumWeights(weighted: seq<(Bucket, real)>): real {
    if weighted == [] then 0.0 else SumWeights(weighted[..|weighted| - 1]) + weighted[|weighted| - 1].1
  }

  /** The first bucket, from index `i` on, whose running weight reaches `pick`; the last
      one when none does. */
  function PickBucket(weighted: seq<(Bucket, real)>, i: nat, run: real, pick: real): Bucket
    requires i < |weighted|
    decreases |weighted| - i
  {
    if i == |weighted| - 1 || pick <= run + weighted[i].1 then weighted[i].0
    else PickBucket(weighted, i + 1, run + weighted[i].1, pick)
  }

  /** A region of the bucket that `pick` falls in. */
  function RegionAt(s: State, c: Config, e: PollEnv, pick: real): (r: Region)
    requires e.regions != []
    ensures r in e.regions
  {
    var weighted := Weighted(s, e.regions, e.nowNs, c.weights);
    if weighted == [] then Pick(e.regions, e.regionDraw)
    else
      var inBucket := InBucket(s, e.regions, e.nowNs, PickBucket(weighted, 0, 0.0, pick));
      if inBucket == [] then Pick(e.regions, e.regionDraw) else Pick(inBucket, e.regionDraw)
  }

  function Scale(draw: real, total: real): real {
    draw * total
  }

  /** Where in the total weight the draw falls. */
  function PickOf(s: State, c: Config, e: PollEnv): real {
    Scale(e.bucketDraw, SumWeights(Weighted(s, e.regions, e.nowNs, c.weights)))
  }

  /** A region of the bucket drawn by weight. */
  function ChooseRegion(s: State, c: Config, e: PollEnv): (r: Region)
    requires e.regions != []
    ensures r in e.regions
  {
    RegionAt(s, c, e, PickOf(s, c, e))
  }

  function Intervene(s: State, c: Config, e: PollEnv, pid: nat, r: Region, decisionId: string): State {
    var row := Intervention(InterventionId(c, s.interventionCounter + 1), decisionId, pid, e.nowNs, r.start, r.end,
                            RegionBucket(s, r, e.nowNs), e.splitOk);
    s.(interventionCounter := s.interventionCounter + 1, interventions := s.interventions + [row],
    allInterventions := s.allInterventions + [row])
  }

  // ------------------------------------------------------- one poll

  predicate RollupDue(s: State, c: Config, now: int) {
    now - s.lastRollupNs >= c.rollupIntervalNs
  }

  predicate ScanDue(s: State, c: Config, now: int) {
    now - s.lastVmaNs >= c.vmaIntervalNs
  }

  predicate InterventionDue(s: State, c: Config, now: int) {
    c.enabled && now - c.startedNs >= c.warmupNs && now - s.lastInterventionNs >= c.periodNs
  }

  function WithSamples(s: State, more: Samples): State {
    s.(samples := Plus(s.samples, more), allSamples := Plus(s.allSamples, more))
  }

  /** A rollup sample, when one is due and can be read. */
  function Noted(s: State, c: Config, e: PollEnv, pid: nat): State {
    if !RollupDue(s, c, e.nowNs) then s
    else
      var noted := s.(lastRollupNs := e.nowNs);
      if e.rollup.None? then noted
      else WithSamples(noted, Samples([Rollup(pid, e.nowNs, e.rollup.value)], []))
  }

  function RegionSamples(pid: nat, now: int, regions: seq<Region>): (r: seq<RegionSample>)
    ensures |r| == |regions| && forall i :: 0 <= i < |r| ==> r[i] == RegionSample(pid, now, regions[i])
  {
    seq(|regions|, i requires 0 <= i < |regions| => RegionSample(pid, now, regions[i]))
  }

  /** A scan is due: its regions are kept as samples. */
  function Due(s: State, c: Config, e: PollEnv, pid: nat): State {
    var due := Noted(s, c, e, pid).(lastVmaNs := e.nowNs);
    if e.regions == [] then due else WithSamples(due, Samples([], RegionSamples(pid, e.nowNs, e.regions)))
  }

  /** A scan: observe every region and record one sampled candidate. */
  function Scanned(s: State, c: Config, e: PollEnv, pid: nat): State
    requires e.regions != []
  {
    WithCandidate(ObserveAll(s, c, pid, e.nowNs, e.regions), c, pid, e.nowNs, Sampled, Pick(e.regions, e.sampleDraw))
  }

  /** An intervention on a region drawn by age, naming the latest candidate. */
  function Intervened(s: State, c: Config, e: PollEnv, pid: nat): State
    requires e.regions != []
  {
    var u := s.(lastInterventionNs := e.nowNs);
    Intervene(u, c, e, pid, ChooseRegion(u, c, e), DecisionId(c, u.decisionCounter))
  }

  function PollStep(s: State, c: Config, e: PollEnv): State {
    if e.pid.None? then s
    else
      var noted := Noted(s, c, e, e.pid.value);
      if !ScanDue(noted, c, e.nowNs) then noted
      else
        var due := Due(s, c, e, e.pid.value);
        if e.regions == [] then due
        else
          var t := Scanned(due, c, e, e.pid.value);
          if InterventionDue(t, c, e.nowNs) then Intervened(t, c, e, e.pid.value) else t
  }

  /** `pop_data`: the recorded rows are handed over and the buffers emptied. */
  function Popped(s: State): State {
    s.(candidates := [], interventions := [], samples := NO_SAMPLES)
  }

  // ------------------------------------------------------- the hook

  class THPInterventionHook {
    const config: Config
    var lastRollupNs: int
    var lastVmaNs: int
    var lastNegativeSampleNs: int
    var lastInterventionNs: int
    var decisionCounter: nat
    var interventionCounter: nat
    var firstSeenNs: map<Span, int>
    var lastSeenRef: map<Span, int>
    var candidates: seq<Candidate>
    var interventions: seq<Intervention>
    var rollupSamples: seq<Rollup>
    var vmaSamples: seq<RegionSample>
    ghost var allCandidates: seq<Candidate>
    ghost var allInterventions: seq<Intervention>
    ghost var allSamples: Samples

    ghost function View(): State
      reads this
    {
      State(lastRollupNs, lastVmaNs, lastNegativeSampleNs, lastInterventionNs, decisionCounter, interventionCounter,
            firstSeenNs, lastSeenRef, candidates, interventions, allCandidates, allInterventions,
            Samples(rollupSamples, vmaSamples), allSamples)
    }

    constructor (config: Config)
      ensures this.config == config && View() == START
    {
      this.config := config;
      lastRollupNs, lastVmaNs, lastNegativeSampleNs, lastInterventionNs := 0, 0, 0, 0;
      decisionCounter, interventionCounter, firstSeenNs, lastSeenRef := 0, 0, map[], map[];
      candidates, interventions, allCandidates, allInterventions := [], [], [], [];
      rollupSamples, vmaSamples, allSamples := [], [], NO_SAMPLES;
    }

    method EmitCandidate(pid: nat, now: int, t: CandidateType, r: Region) returns (decisionId: string)
      modifies this
      ensures View() == WithCandidate(old(View()), config, pid, now, t, r)
      ensures decisionId == DecisionId(config, decisionCounter)
    {
      var firstSeen := if SpanOf(r) in firstSeenNs then firstSeenNs[SpanOf(r)] else now;
      var ageSec := (now - firstSeen) as real / 1000000000.0;
      decisionCounter := decisionCounter + 1;
      decisionId := DecisionId(config, decisionCounter);
      var row := Candidate(decisionId, pid, now, t, r, ageSec, true);
      candidates := candidates + [row];
      allCandidates := allCandidates + [row];
    }

    method ObserveRegion(pid: nat, now: int, r: Region)
      modifies this
      ensures View() == Observe(old(View()), config, pid, now, r)
    {
      var span := SpanOf(r);
      if span !in firstSeenNs {
        firstSeenNs := firstSeenNs[span := now];
      }
      var prevRef := if span in lastSeenRef then Some(lastSeenRef[span]) else None;
      lastSeenRef := lastSeenRef[span := r.referencedKb];
      if prevRef.None? {
        return;
      }
      if Abs(r.referencedKb - prevRef.value) <= 32 && r.anonHugepagesKb > 0 {
        if now - lastNegativeSampleNs >= config.negativeIntervalNs {
          lastNegativeSampleNs := now;
          var _ := EmitCandidate(pid, now, Negative, r);
        }
      }
    }

    method BucketNow(r: Region, now: int) returns (b: Bucket)
      ensures b == RegionBucket(View(), r, now)
    {
      var firstSeen := if SpanOf(r) in firstSeenNs then firstSeenNs[SpanOf(r)] else now;
      b := AgeBucketFor(Some((now - firstSeen) as real / 1000000000.0), false);
    }

    /** The regions of one age bucket. */
    method RegionsIn(regions: seq<Region>, now: int, b: Bucket) returns (r: seq<Region>)
      ensures r == InBucket(View(), regions, now, b)
    {
      r := [];
      for i := 0 to |regions|
        invariant r == InBucket(View(), regions[..i], now, b)
      {
        assert regions[..i + 1][..i] == regions[..i];
        var bucket := BucketNow(regions[i], now);
        if bucket == b {
          r := r + [regions[i]];
        }
      }
      assert regions[..|regions|] == regions;
    }

    method WeightedBuckets(regions: seq<Region>, now: int) returns (weighted: seq<(Bucket, real)>)
      ensures weighted == Weighted(View(), regions, now, config.weights)
    {
      weighted := [];
      for i := 0 to |config.weights|
        invariant weighted == Weighted(View(), regions, now, config.weights[..i])
      {
        assert config.weights[..i + 1][..i] == config.weights[..i];
        var inBucket := RegionsIn(regions, now, config.weights[i].0);
        if inBucket != [] {
          weighted := weighted + [(config.weights[i].0, Clamp(config.weights[i].1))];
        }
      }
      assert config.weights[..|config.weights|] == config.weights;
    }

    method SumOf(weighted: seq<(Bucket, real)>) returns (sum: real)
      ensures sum == SumWeights(weighted)
    {
      sum := 0.0;
      for i := 0 to |weighted|
        invariant sum == SumWeights(weighted[..i])
      {
        assert weighted[..i + 1][..i] == weighted[..i];
        sum := sum + weighted[i].1;
      }
      assert weighted[..|weighted|] == weighted;
    }

    method PickByWeight(weighted: seq<(Bucket, real)>, pick: real) returns (chosen: Bucket)
      requires weighted != []
      ensures chosen == PickBucket(weighted, 0, 0.0, pick)
    {
      var run := 0.0;
      chosen := weighted[|weighted| - 1].0;
      for i := 0 to |weighted|
        invariant chosen == weighted[|weighted| - 1].0
        invariant i < |weighted| ==> PickBucket(weighted, 0, 0.0, pick) == PickBucket(weighted, i, run, pick)
        invariant i == |weighted| ==> PickBucket(weighted, 0, 0.0, pick) == chosen
      {
        if pick <= run + weighted[i].1 {
          return weighted[i].0;
        }
        run := run + weighted[i].1;
      }
    }

    method SelectStratifiedRegion(e: PollEnv) returns (r: Option<Region>)
      ensures r == if e.regions == [] then None else Some(ChooseRegion(View(), config, e))
    {
      if e.regions == [] {
        return None;
      }
      var weighted := WeightedBuckets(e.regions, e.nowNs);
      var sum := SumOf(weighted);
      var pick := Scale(e.bucketDraw, sum);
      var region := SelectAt(e, weighted, pick);
      return Some(region);
    }

    method SelectAt(e: PollEnv, weighted: seq<(Bucket, real)>, pick: real) returns (r: Region)
      requires e.regions != [] && weighted == Weighted(View(), e.regions, e.nowNs, config.weights)
      ensures r == RegionAt(View(), config, e, pick)
    {
      if weighted == [] {
        return Pick(e.regions, e.regionDraw);
      }
      var chosen := PickByWeight(weighted, pick);
      var inBucket := RegionsIn(e.regions, e.nowNs, chosen);
      // a weighted bucket holds a region, so the draw below is never empty
      WeightedNonempty(View(), e.regions, e.nowNs, config.weights);
      PickBucketIn(weighted, 0, 0.0, pick);
      return Pick(inBucket, e.regionDraw);
    }

    method RunIntervention(e: PollEnv, pid: nat, r: Region, decisionId: string)
      modifies this
      ensures View() == Intervene(old(View()), config, e, pid, r, decisionId)
    {
      var bucket := BucketNow(r, e.nowNs);
      interventionCounter := interventionCounter + 1;
      var row := Intervention(InterventionId(config, interventionCounter), decisionId, pid, e.nowNs, r.start, r.end,
                              bucket, e.splitOk);
      interventions := interventions + [row];
      allInterventions := allInterventions + [row];
    }

    method ObserveRegions(pid: nat, now: int, regions: seq<Region>)
      modifies this
      ensures View() == ObserveAll(old(View()), config, pid, now, regions)
    {
      for i := 0 to |regions|
        invariant View() == ObserveAll(old(View()), config, pid, now, regions[..i])
      {
        assert regions[..i + 1][..i] == regions[..i];
        ObserveRegion(pid, now, regions[i]);
      }
      assert regions[..|regions|] == regions;
    }

    method NoteRollup(e: PollEnv, pid: nat)
      modifies this
      ensures View() == Noted(old(View()), config, e, pid)
    {
      if e.nowNs - lastRollupNs >= config.rollupIntervalNs {
        lastRollupNs := e.nowNs;
        if e.rollup.Some? {
          var row := Rollup(pid, e.nowNs, e.rollup.value);
          rollupSamples := rollupSamples + [row];
          allSamples := Plus(allSamples, Samples([row], []));
          assert vmaSamples + [] == vmaSamples;
        }
      }
    }

    method KeepRegions(pid: nat, now: int, regions: seq<Region>)
      modifies this
      ensures View() == WithSamples(old(View()), Samples([], RegionSamples(pid, now, regions)))
    {
      var rows := RegionSamples(pid, now, regions);
      vmaSamples := vmaSamples + rows;
      allSamples := Plus(allSamples, Samples([], rows));
      assert rollupSamples + [] == rollupSamples;
    }

    method Poll(e: PollEnv)
      modifies this
      ensures View() == PollStep(old(View()), config, e)
    {
      if e.pid.None? {
        return;
      }
      var pid, now := e.pid.value, e.nowNs;
      NoteRollup(e, pid);
      if now - lastVmaNs < config.vmaIntervalNs {
        return;
      }
      lastVmaNs := now;
      if e.regions == [] {
        return;
      }
      KeepRegions(pid, now, e.regions);
      ObserveRegions(pid, now, e.regions);
      var decisionId := EmitCandidate(pid, now, Sampled, Pick(e.regions, e.sampleDraw));
      if !config.enabled {
        return;
      }
      if now - config.startedNs < config.warmupNs {
        return;
      }
      if now - lastInterventionNs < config.periodNs {
        return;
      }
      lastInterventionNs := now;
      var region := SelectStratifiedRegion(e);
      if region.None? {
        return;
      }
      RunIntervention(e, pid, region.value, decisionId);
    }

    method PopData() returns (cs: seq<Candidate>, ivs: seq<Intervention>, samples: Samples)
      modifies this
      ensures cs == old(candidates) && ivs == old(interventions)
      ensures samples == Samples(old(rollupSamples), old(vmaSamples))
      ensures View() == Popped(old(View()))
    {
      cs, ivs, samples := candidates, interventions, Samples(rollupSamples, vmaSamples);
      candidates, interventions, rollupSamples, vmaSamples := [], [], [], [];
    }
  }

  // ------------------------------------------------------- the chosen region

  lemma {:induction false} WeightedNonempty(s: State, regions: seq<Region>, now: int, weights: seq<(Bucket, real)>)
    ensures forall x :: x in Weighted(s, regions, now, weights) ==> InBucket(s, regions, now, x.0) != []
    ensures forall x :: x in weights && InBucket(s, regions, now, x.0) != [] ==>
                          Weighted(s, regions, now, weights) != []
  {
    if weights == [] {
    } else {
      WeightedNonempty(s, regions, now, weights[..|weights| - 1]);
      assert weights == weights[..|weights| - 1] + [weights[|weights| - 1]];
    }
  }

  lemma {:induction false} PickBucketIn(weighted: seq<(Bucket, real)>, i: nat, run: real, pick: real)
    requires i < |weighted|
    ensures exists x :: x in weighted && x.0 == PickBucket(weighted, i, run, pick)
    decreases |weighted| - i
  {
    if i == |weighted| - 1 || pick <= run + weighted[i].1 {
      assert weighted[i] in weighted;
    } else {
      PickBucketIn(weighted, i + 1, run + weighted[i].1, pick);
    }
  }

  predicate SeenBy(s: State, now: int) {
    forall span :: span in s.firstSeenNs ==> s.firstSeenNs[span] <= now
  }

  /** Wherever the draw falls, the region comes from a nonempty one of the three age
      buckets. */
  lemma RegionFromBucket(s: State, c: Config, e: PollEnv, pick: real)
    requires GoodConfig(c) && e.regions != [] && SeenBy(s, e.nowNs)
    ensures var r := RegionAt(s, c, e, pick); var b := RegionBucket(s, r, e.nowNs);
                                              && b in {Young, Mid, Old} && r in InBucket(s, e.regions, e.nowNs, b)
                                              && exists x :: x in Weighted(s, e.regions, e.nowNs, c.weights) && x.0 == b
  {
    var now, first := e.nowNs, e.regions[0];
    var weighted := Weighted(s, e.regions, now, c.weights);
    var bucket := RegionBucket(s, first, now);
    assert first in InBucket(s, e.regions, now, bucket);
    assert bucket in {Young, Mid, Old} by {
      assert FirstSeen(s, SpanOf(first), now) <= now;
    }
    assert c.weights[0] in c.weights && c.weights[1] in c.weights && c.weights[2] in c.weights;
    WeightedNonempty(s, e.regions, now, c.weights);
    PickBucketIn(weighted, 0, 0.0, pick);
    WeightedBucket(s, e.regions, now, c.weights);
    var x :| x in weighted && x.0 == PickBucket(weighted, 0, 0.0, pick);
    assert RegionAt(s, c, e, pick) in InBucket(s, e.regions, now, x.0);
  }

  lemma {:induction false} WeightedBucket(s: State, regions: seq<Region>, now: int, weights: seq<(Bucket, real)>)
    ensures forall x :: x in Weighted(s, regions, now, weights) ==> exists y :: y in weights && y.0 == x.0
  {
    if weights == [] {
    } else {
      WeightedBucket(s, regions, now, weights[..|weights| - 1]);
      assert weights == weights[..|weights| - 1] + [weights[|weights| - 1]];
    }
  }

  // ------------------------------------------------------- whole runs

  datatype Event = Polled(e: PollEnv) | PoppedData

  function Step(s: State, c: Config, ev: Event): State {
    match ev
    case Polled(e) => PollStep(s, c, e)
    case PoppedData => Popped(s)
  }

  function Run(c: Config, h: seq<Event>): State {
    if h == [] then START else Step(Run(c, h[..|h| - 1]), c, h[|h| - 1])
  }

  /** The clock of the latest poll. */
  function Clock(c: Config, h: seq<Event>): int {
    if h == [] then 0
    else if h[|h| - 1].Polled? then h[|h| - 1].e.nowNs
    else Clock(c, h[..|h| - 1])
  }

  /** The clock never goes back. */
  predicate Ticking(c: Config, h: seq<Event>) {
    h == [] || (Ticking(c, h[..|h| - 1]) && (h[|h| - 1].Polled? ==> h[|h| - 1].e.nowNs >= Clock(c, h[..|h| - 1])))
  }

  /** Row `i` carries the id of counter value `i + 1`. */
  predicate Numbered(s: State, c: Config) {
    && |s.allCandidates| == s.decisionCounter && |s.allInterventions| == s.interventionCounter
    && (forall i :: 0 <= i < |s.allCandidates| ==> s.allCandidates[i].decisionId == DecisionId(c, i + 1))
    && (forall i :: 0 <= i < |s.allInterventions| ==> s.allInterventions[i].interventionId == InterventionId(c, i + 1))
  }

  /** Interventions are a period apart and after warm-up. */
  predicate Spaced(ivs: seq<Intervention>, c: Config) {
    && (forall i :: 0 <= i < |ivs| ==> ivs[i].tsNs - c.startedNs >= c.warmupNs)
    && (forall i, j :: 0 <= i < j < |ivs| ==> ivs[j].tsNs - ivs[i].tsNs >= c.periodNs)
  }

  ghost predicate Healthy(s: State, c: Config, now: int) {
    && SeenBy(s, now) && Spaced(s.allInterventions, c)
    && (forall i :: 0 <= i < |s.allInterventions| ==> s.allInterventions[i].tsNs <= s.lastInterventionNs)
    && s.lastInterventionNs <= now
  }

  lemma {:induction false} ObserveAllSees(s: State, c: Config, pid: nat, now: int, regions: seq<Region>)
    requires SeenBy(s, now)
    ensures var t := ObserveAll(s, c, pid, now, regions);
            SeenBy(t, now) && t.allInterventions == s.allInterventions && t.lastInterventionNs == s.lastInterventionNs
  {
    if regions == [] {
    } else {
      ObserveAllSees(s, c, pid, now, regions[..|regions| - 1]);
    }
  }

  /** The state of a poll that scans, before it decides whether to intervene. */
  lemma ScannedHealthy(s: State, c: Config, e: PollEnv, pid: nat)
    requires Healthy(s, c, e.nowNs) && e.regions != []
    ensures Healthy(Scanned(s, c, e, pid), c, e.nowNs)
  {
    ObserveAllSees(s, c, pid, e.nowNs, e.regions);
  }

  /** Health depends on the interventions and the first sightings. */
  lemma StillHealthy(s: State, t: State, c: Config, now: int, later: int)
    requires Healthy(s, c, now) && now <= later && KeepsRows(s, t)
    ensures Healthy(t, c, later)
  {
  }

  predicate KeepsRows(s: State, t: State) {
    && t.allCandidates == s.allCandidates && t.decisionCounter == s.decisionCounter
    && t.allInterventions == s.allInterventions && t.interventionCounter == s.interventionCounter
    && t.lastInterventionNs == s.lastInterventionNs && t.firstSeenNs == s.firstSeenNs
  }

  lemma DueKeepsRows(s: State, c: Config, e: PollEnv, pid: nat)
    ensures KeepsRows(s, Noted(s, c, e, pid)) && KeepsRows(s, Due(s, c, e, pid))
  {
  }

  lemma DueHealthy(s: State, c: Config, e: PollEnv, now: int, pid: nat)
    requires Healthy(s, c, now) && now <= e.nowNs
    ensures Healthy(Noted(s, c, e, pid), c, e.nowNs) && Healthy(Due(s, c, e, pid), c, e.nowNs)
  {
    DueKeepsRows(s, c, e, pid);
    StillHealthy(s, Noted(s, c, e, pid), c, now, e.nowNs);
    StillHealthy(s, Due(s, c, e, pid), c, now, e.nowNs);
  }

  lemma PollHealthy(s: State, c: Config, e: PollEnv, now: int)
    requires GoodConfig(c) && Healthy(s, c, now) && now <= e.nowNs
    ensures Healthy(PollStep(s, c, e), c, e.nowNs)
  {
    StillHealthy(s, s, c, now, e.nowNs);
    if e.pid.Some? {
      var pid := e.pid.value;
      DueHealthy(s, c, e, now, pid);
      if e.regions != [] {
        var t := Scanned(Due(s, c, e, pid), c, e, pid);
        ScannedHealthy(Due(s, c, e, pid), c, e, pid);
        if InterventionDue(t, c, e.nowNs) {
          var u := t.(lastInterventionNs := e.nowNs);
          InterveneHealthy(t, c, e, pid, ChooseRegion(u, c, e), DecisionId(c, t.decisionCounter));
        }
      }
    }
  }

  lemma InterveneHealthy(s: State, c: Config, e: PollEnv, pid: nat, r: Region, decisionId: string)
    requires Healthy(s, c, e.nowNs) && InterventionDue(s, c, e.nowNs)
    ensures Healthy(Intervene(s.(lastInterventionNs := e.nowNs), c, e, pid, r, decisionId), c, e.nowNs)
  {
    var t := Intervene(s.(lastInterventionNs := e.nowNs), c, e, pid, r, decisionId);
    assert Spaced(t.allInterventions, c);
  }

  lemma {:induction false} RunHealthy(c: Config, h: seq<Event>)
    requires GoodConfig(c) && Ticking(c, h)
    ensures Healthy(Run(c, h), c, Clock(c, h))
  {
    if h == [] {
    } else {
      RunHealthy(c, h[..|h| - 1]);
      if h[|h| - 1].Polled? {
        PollHealthy(Run(c, h[..|h| - 1]), c, h[|h| - 1].e, Clock(c, h[..|h| - 1]));
      }
    }
  }

  // ------------------------------------------------------- the claims

  lemma CandidateNumbered(s: State, c: Config, pid: nat, now: int, t: CandidateType, r: Region)
    requires Numbered(s, c)
    ensures Numbered(WithCandidate(s, c, pid, now, t, r), c)
  {
  }

  lemma ObserveNumbered(s: State, c: Config, pid: nat, now: int, r: Region)
    requires Numbered(s, c)
    ensures Numbered(Observe(s, c, pid, now, r), c)
  {
  }

  lemma {:induction false} ObserveAllNumbered(s: State, c: Config, pid: nat, now: int, regions: seq<Region>)
    requires Numbered(s, c)
    ensures Numbered(ObserveAll(s, c, pid, now, regions), c)
  {
    if regions == [] {
    } else {
      ObserveAllNumbered(s, c, pid, now, regions[..|regions| - 1]);
      ObserveNumbered(ObserveAll(s, c, pid, now, regions[..|regions| - 1]), c, pid, now, regions[|regions| - 1]);
    }
  }

  lemma ScannedNumbered(s: State, c: Config, e: PollEnv, pid: nat)
    requires Numbered(s, c) && e.regions != []
    ensures Numbered(Scanned(s, c, e, pid), c)
  {
    ObserveAllNumbered(s, c, pid, e.nowNs, e.regions);
    CandidateNumbered(ObserveAll(s, c, pid, e.nowNs, e.regions), c, pid, e.nowNs, Sampled,
                      Pick(e.regions, e.sampleDraw));
  }

  lemma InterveneNumbered(s: State, c: Config, e: PollEnv, pid: nat, r: Region, decisionId: string)
    requires Numbered(s, c)
    ensures Numbered(Intervene(s, c, e, pid, r, decisionId), c)
  {
  }

  lemma StillNumbered(s: State, t: State, c: Config)
    requires Numbered(s, c) && KeepsRows(s, t)
    ensures Numbered(t, c)
  {
  }

  lemma PollNumbered(s: State, c: Config, e: PollEnv)
    requires Numbered(s, c)
    ensures Numbered(PollStep(s, c, e), c)
  {
    if e.pid.Some? {
      var pid := e.pid.value;
      var due := Due(s, c, e, pid);
      DueKeepsRows(s, c, e, pid);
      StillNumbered(s, Noted(s, c, e, pid), c);
      StillNumbered(s, due, c);
      if e.regions != [] {
        var t := Scanned(due, c, e, pid);
        var u := t.(lastInterventionNs := e.nowNs);
        ScannedNumbered(due, c, e, pid);
        InterveneNumbered(u, c, e, pid, ChooseRegion(u, c, e), DecisionId(c, u.decisionCounter));
      }
    }
  }

  /** Whatever the polls meet, clocks that run back included. */
  lemma {:induction false} RunNumbered(c: Config, h: seq<Event>)
    ensures Numbered(Run(c, h), c)
  {
    if h == [] {
    } else {
      RunNumbered(c, h[..|h| - 1]);
      if h[|h| - 1].Polled? {
        PollNumbered(Run(c, h[..|h| - 1]), c, h[|h| - 1].e);
      }
    }
  }

  lemma NumberedDistinct(s: State, c: Config, i: nat, j: nat)
    requires Numbered(s, c) && i < j
    ensures j < |s.allCandidates| ==> s.allCandidates[i].decisionId != s.allCandidates[j].decisionId
    ensures j < |s.allInterventions| ==> s.allInterventions[i].interventionId != s.allInterventions[j].interventionId
  {
    if DecisionId(c, i + 1) == DecisionId(c, j + 1) {
      DecisionIdInjective(c, i + 1, j + 1);
    }
    if InterventionId(c, i + 1) == InterventionId(c, j + 1) {
      InterventionIdInjective(c, i + 1, j + 1);
    }
  }

  /** Ids are never used twice, whatever was popped in between. */
  lemma IdsNeverReused(c: Config, h: seq<Event>, i: nat, j: nat)
    requires i < j
    ensures j < |Run(c, h).allCandidates| ==>
              Run(c, h).allCandidates[i].decisionId != Run(c, h).allCandidates[j].decisionId
    ensures j < |Run(c, h).allInterventions| ==>
              Run(c, h).allInterventions[i].interventionId != Run(c, h).allInterventions[j].interventionId
  {
    RunNumbered(c, h);
    NumberedDistinct(Run(c, h), c, i, j);
  }

  function CountIn(ivs: seq<Intervention>, lo: int, hi: int): nat {
    if ivs == [] then 0
    else CountIn(ivs[..|ivs| - 1], lo, hi) + if lo <= ivs[|ivs| - 1].tsNs <= hi then 1 else 0
  }

  lemma {:induction false} CountUpTo(ivs: seq<Intervention>, lo: int, hi: int, top: int)
    requires top <= hi && forall i :: 0 <= i < |ivs| ==> ivs[i].tsNs <= top
    ensures CountIn(ivs, lo, hi) == CountIn(ivs, lo, top)
    ensures top < lo ==> CountIn(ivs, lo, hi) == 0
  {
    if ivs == [] {
    } else {
      CountUpTo(ivs[..|ivs| - 1], lo, hi, top);
    }
  }

  /** The interventions in a window, less one, fit their periods in it. */
  lemma {:induction false} WindowFits(ivs: seq<Intervention>, c: Config, lo: int, hi: int)
    requires Spaced(ivs, c) && c.periodNs > 0 && lo <= hi
    ensures (CountIn(ivs, lo, hi) - 1) * c.periodNs <= hi - lo
    decreases |ivs|
  {
    if ivs == [] {
    } else {
      var init, last := ivs[..|ivs| - 1], ivs[|ivs| - 1].tsNs;
      if lo <= last <= hi {
        var top := last - c.periodNs;
        CountUpTo(init, lo, hi, top);
        if lo <= top {
          WindowFits(init, c, lo, top);
          OneMore(CountIn(init, lo, top), c.periodNs);
        }
      } else {
        WindowFits(init, c, lo, hi);
      }
    }
  }

  lemma QuotientBound(k: int, period: int, t: int)
    requires period > 0 && k * period <= t
    ensures k <= t / period
  {
    var q := t / period;
    if k > q {
      OneMore(q + 1, period);
      Times(q + 1, k, period);
    }
  }

  lemma Times(a: int, b: int, period: int)
    requires a <= b && period > 0
    ensures a * period <= b * period
  {
    assert (b - a) * period >= 0;
  }

  /** Any window of length T holds at most T div period + 1 interventions, and none
      falls in warm-up. */
  lemma InterventionRate(c: Config, h: seq<Event>, lo: int, hi: int)
    requires GoodConfig(c) && Ticking(c, h) && c.periodNs > 0 && lo <= hi
    ensures CountIn(Run(c, h).allInterventions, lo, hi) <= (hi - lo) / c.periodNs + 1
    ensures forall iv :: iv in Run(c, h).allInterventions ==> iv.tsNs >= c.startedNs + c.warmupNs
  {
    RunHealthy(c, h);
    WindowFits(Run(c, h).allInterventions, c, lo, hi);
    QuotientBound(CountIn(Run(c, h).allInterventions, lo, hi) - 1, c.periodNs, hi - lo);
  }

  /** What the pops of a history handed over. */
  function Handed(c: Config, h: seq<Event>): (seq<Candidate>, seq<Intervention>, Samples) {
    if h == [] then ([], [], NO_SAMPLES)
    else
      var s, (cs, ivs, samples) := Run(c, h[..|h| - 1]), Handed(c, h[..|h| - 1]);
      if h[|h| - 1].PoppedData?
      then (cs + s.candidates, ivs + s.interventions, Plus(samples, s.samples)) else (cs, ivs, samples)
  }

  /** What a step records: rows added to the buffers and to the record of all rows. */
  datatype Added = Added(cs: seq<Candidate>, ivs: seq<Intervention>, samples: Samples)

  const NOTHING := Added([], [], NO_SAMPLES)

  function Both(a: Added, b: Added): Added {
    Added(a.cs + b.cs, a.ivs + b.ivs, Plus(a.samples, b.samples))
  }

  function Buffered(s: State): Added {
    Added(s.candidates, s.interventions, s.samples)
  }

  function Recorded(s: State): Added {
    Added(s.allCandidates, s.allInterventions, s.allSamples)
  }

  predicate Adds(s: State, t: State, a: Added) {
    Buffered(t) == Both(Buffered(s), a) && Recorded(t) == Both(Recorded(s), a)
  }

  lemma AddsNothing(s: State)
    ensures Adds(s, s, NOTHING)
  {
  }

  lemma AddsBoth(s: State, t: State, u: State, a: Added, b: Added)
    requires Adds(s, t, a) && Adds(t, u, b)
    ensures Adds(s, u, Both(a, b))
  {
  }

  /** While polls and pops come one at a time, rows are handed over once, in order, or still
      buffered: nothing is lost. */
  lemma {:induction false} RowsConserved(c: Config, h: seq<Event>)
    ensures Run(c, h).allCandidates == Handed(c, h).0 + Run(c, h).candidates
    ensures Run(c, h).allInterventions == Handed(c, h).1 + Run(c, h).interventions
    ensures Run(c, h).allSamples == Plus(Handed(c, h).2, Run(c, h).samples)
  {
    if h == [] {
    } else {
      var s := Run(c, h[..|h| - 1]);
      RowsConserved(c, h[..|h| - 1]);
      if h[|h| - 1].Polled? {
        var a := PollAdds(s, c, h[|h| - 1].e);
        AddedAfter(s, Run(c, h), a, Handed(c, h).0, Handed(c, h).1, Handed(c, h).2);
      }
    }
  }

  lemma AddedAfter(s: State, t: State, a: Added, cs: seq<Candidate>, ivs: seq<Intervention>, samples: Samples)
    requires Adds(s, t, a) && s.allCandidates == cs + s.candidates
    requires s.allInterventions == ivs + s.interventions && s.allSamples == Plus(samples, s.samples)
    ensures t.allCandidates == cs + t.candidates
    ensures t.allInterventions == ivs + t.interventions && t.allSamples == Plus(samples, t.samples)
  {
  }

  /** What a poll records: the same rows in the buffers and in the record of all rows. */
  lemma PollAdds(s: State, c: Config, e: PollEnv) returns (a: Added)
    ensures Adds(s, PollStep(s, c, e), a)
  {
    a := NOTHING;
    AddsNothing(s);
    if e.pid.Some? {
      a := NotedAdds(s, c, e, e.pid.value);
      if ScanDue(Noted(s, c, e, e.pid.value), c, e.nowNs) {
        a := DueAdds(s, c, e, e.pid.value);
        if e.regions != [] {
          var b := ScanAndInterveneAdd(Due(s, c, e, e.pid.value), c, e, e.pid.value);
          AddsBoth(s, Due(s, c, e, e.pid.value), PollStep(s, c, e), a, b);
          a := Both(a, b);
        }
      }
    }
  }

  /** At most one row of rollup figures. */
  lemma NotedAdds(s: State, c: Config, e: PollEnv, pid: nat) returns (a: Added)
    ensures Adds(s, Noted(s, c, e, pid), a)
    ensures a == Added([], [], Samples(a.samples.rollups, [])) && |a.samples.rollups| <= 1
  {
    a := NOTHING;
    if RollupDue(s, c, e.nowNs) && e.rollup.Some? {
      a := Added([], [], Samples([Rollup(pid, e.nowNs, e.rollup.value)], []));
    }
  }

  /** Also every region of the scan, in order. */
  lemma DueAdds(s: State, c: Config, e: PollEnv, pid: nat) returns (a: Added)
    ensures Adds(s, Due(s, c, e, pid), a)
    ensures a == Added([], [], Samples(a.samples.rollups, RegionSamples(pid, e.nowNs, e.regions)))
  {
    a := NotedAdds(s, c, e, pid);
    var noted, vmas := Noted(s, c, e, pid), RegionSamples(pid, e.nowNs, e.regions);
    var b := Added([], [], Samples([], vmas));
    assert Adds(noted, Due(s, c, e, pid), b);
    AddsBoth(s, noted, Due(s, c, e, pid), a, b);
    a := Both(a, b);
  }

  lemma ScanAndInterveneAdd(due: State, c: Config, e: PollEnv, pid: nat) returns (a: Added)
    requires e.regions != []
    ensures var t := Scanned(due, c, e, pid);
            Adds(due, if InterventionDue(t, c, e.nowNs) then Intervened(t, c, e, pid) else t, a)
  {
    var t := Scanned(due, c, e, pid);
    a := ScanAdds(due, c, e, pid);
    if InterventionDue(t, c, e.nowNs) {
      var u := t.(lastInterventionNs := e.nowNs);
      var b := InterveneAdds(u, c, e, pid, ChooseRegion(u, c, e), DecisionId(c, u.decisionCounter));
      AddsBoth(due, t, Intervened(t, c, e, pid), a, b);
      a := Both(a, b);
    }
  }

  lemma InterveneAdds(s: State, c: Config, e: PollEnv, pid: nat, r: Region, decisionId: string) returns (a: Added)
    ensures Adds(s, Intervene(s, c, e, pid, r, decisionId), a)
  {
    a := Added([], [Intervene(s, c, e, pid, r, decisionId).allInterventions[|s.allInterventions|]], NO_SAMPLES);
  }

  /** A scan adds candidates, its sampled one last, and nothing else. */
  lemma ScanAdds(s: State, c: Config, e: PollEnv, pid: nat) returns (a: Added)
    requires e.regions != []
    ensures Adds(s, Scanned(s, c, e, pid), a) && a == Added(a.cs, [], NO_SAMPLES)
    ensures SampledLatest(s, Scanned(s, c, e, pid), c, e, pid)
  {
    var all, t := ObserveAll(s, c, pid, e.nowNs, e.regions), Scanned(s, c, e, pid);
    a := ObserveAllAdds(s, c, pid, e.nowNs, e.regions);
    var b := Added([t.allCandidates[|all.allCandidates|]], [], NO_SAMPLES);
    assert Adds(all, t, b);
    AddsBoth(s, all, t, a, b);
    a := Both(a, b);
  }

  lemma {:induction false} ObserveAllAdds(s: State, c: Config, pid: nat, now: int, regions: seq<Region>)
    returns (a: Added)
    ensures Adds(s, ObserveAll(s, c, pid, now, regions), a) && a == Added(a.cs, [], NO_SAMPLES)
  {
    a := NOTHING;
    if regions == [] {
    } else {
      var before, r := regions[..|regions| - 1], regions[|regions| - 1];
      var mid := ObserveAll(s, c, pid, now, before);
      a := ObserveAllAdds(s, c, pid, now, before);
      var b := ObserveAdds(mid, c, pid, now, r);
      AddsBoth(s, mid, Observe(mid, c, pid, now, r), a, b);
      a := Both(a, b);
    }
  }

  lemma ObserveAdds(s: State, c: Config, pid: nat, now: int, r: Region) returns (a: Added)
    ensures Adds(s, Observe(s, c, pid, now, r), a) && a == Added(a.cs, [], NO_SAMPLES)
  {
    a := Added(Observe(s, c, pid, now, r).allCandidates[|s.allCandidates|..], [], NO_SAMPLES);
  }

  /** The latest candidate is the sampled one the intervention names. */
  predicate NamesLatest(t: State, iv: Intervention) {
    t.allCandidates != []
    && var named := t.allCandidates[|t.allCandidates| - 1];
    named.decisionId == iv.decisionId && named.candidateType == Sampled && named.tsNs == iv.tsNs && named.pid == iv.pid
  }

  /** The poll that takes `s` to `t` records the intervention: it names the candidate the
      poll samples, and splits a region of the poll's own scan that lies in one of the
      three age buckets. */
  ghost predicate FromPoll(s: State, t: State, e: PollEnv, iv: Intervention) {
    && t.allInterventions == s.allInterventions + [iv] && iv.tsNs == e.nowNs && e.pid == Some(iv.pid)
    && s.allCandidates < t.allCandidates && NamesLatest(t, iv)
    && iv.ageBucket in {Young, Mid, Old}
    && exists r :: r in e.regions && SpanOf(r) == (iv.start, iv.end) && RegionBucket(t, r, e.nowNs) == iv.ageBucket
  }

  /** The scan ends with its sampled candidate. */
  predicate SampledLatest(s: State, u: State, c: Config, e: PollEnv, pid: nat) {
    s.allCandidates < u.allCandidates
    && var named := u.allCandidates[|u.allCandidates| - 1];
    named.decisionId == DecisionId(c, u.decisionCounter) && named.candidateType == Sampled
    && named.tsNs == e.nowNs && named.pid == pid
  }

  lemma IntervenedGrounded(s: State, c: Config, e: PollEnv, u: State, pid: nat, r: Region)
    requires e.pid == Some(pid) && r in e.regions && RegionBucket(u, r, e.nowNs) in {Young, Mid, Old}
    requires u.allInterventions == s.allInterventions && SampledLatest(s, u, c, e, pid)
    ensures var t := Intervene(u, c, e, pid, r, DecisionId(c, u.decisionCounter));
            FromPoll(s, t, e, t.allInterventions[|s.allInterventions|])
  {
    var t := Intervene(u, c, e, pid, r, DecisionId(c, u.decisionCounter));
    assert RegionBucket(t, r, e.nowNs) == RegionBucket(u, r, e.nowNs);
  }

  lemma ChosenGrounded(s: State, c: Config, e: PollEnv, u: State, pid: nat)
    requires GoodConfig(c) && e.pid == Some(pid) && e.regions != [] && SeenBy(u, e.nowNs)
    requires u.allInterventions == s.allInterventions && SampledLatest(s, u, c, e, pid)
    ensures var t := Intervene(u, c, e, pid, ChooseRegion(u, c, e), DecisionId(c, u.decisionCounter));
            FromPoll(s, t, e, t.allInterventions[|s.allInterventions|])
  {
    RegionFromBucket(u, c, e, PickOf(u, c, e));
    IntervenedGrounded(s, c, e, u, pid, ChooseRegion(u, c, e));
  }

  lemma DueScan(s: State, c: Config, e: PollEnv, now: int, pid: nat)
    requires Healthy(s, c, now) && now <= e.nowNs && e.regions != []
    ensures var t := Scanned(Due(s, c, e, pid), c, e, pid);
            SampledLatest(s, t, c, e, pid) && t.allInterventions == s.allInterventions && SeenBy(t, e.nowNs)
  {
    var due := Due(s, c, e, pid);
    var a := ScanAdds(due, c, e, pid);
    var b := DueAdds(s, c, e, pid);
    DueHealthy(s, c, e, now, pid);
    ScannedHealthy(due, c, e, pid);
  }

  /** A poll that adds an intervention got as far as its end. */
  lemma NewIntervention(s: State, c: Config, e: PollEnv, iv: Intervention)
    requires iv in PollStep(s, c, e).allInterventions && iv !in s.allInterventions
    ensures e.pid.Some? && e.regions != []
    ensures PollStep(s, c, e)
         == Intervened(Scanned(Due(s, c, e, e.pid.value), c, e, e.pid.value), c, e, e.pid.value)
  {
    if e.pid.Some? && e.regions != [] {
      DueKeepsRows(s, c, e, e.pid.value);
      var a := ScanAdds(Due(s, c, e, e.pid.value), c, e, e.pid.value);
    }
  }

  lemma PollGrounded(s: State, c: Config, e: PollEnv, now: int, iv: Intervention)
    requires GoodConfig(c) && Healthy(s, c, now) && now <= e.nowNs
    requires iv in PollStep(s, c, e).allInterventions && iv !in s.allInterventions
    ensures FromPoll(s, PollStep(s, c, e), e, iv)
  {
    NewIntervention(s, c, e, iv);
    var due, pid := Due(s, c, e, e.pid.value), e.pid.value;
    DueScan(s, c, e, now, pid);
    ChosenGrounded(s, c, e, Scanned(due, c, e, pid).(lastInterventionNs := e.nowNs), pid);
  }

  /** Every intervention of a run was recorded by one of its polls, which sampled the
      candidate it names. */
  lemma {:induction false} InterventionsGrounded(c: Config, h: seq<Event>, iv: Intervention) returns (i: nat)
    requires GoodConfig(c) && Ticking(c, h) && iv in Run(c, h).allInterventions
    ensures i < |h| && h[i].Polled? && FromPoll(Run(c, h[..i]), Run(c, h[..i + 1]), h[i].e, iv)
  {
    var before := h[..|h| - 1];
    if iv in Run(c, before).allInterventions {
      i := InterventionsGrounded(c, before, iv);
      assert h[..i] == before[..i] && h[..i + 1] == before[..i + 1];
    } else {
      i := |h| - 1;
      RunHealthy(c, before);
      PollGrounded(Run(c, before), c, h[i].e, Clock(c, before), iv);
      assert h[..i + 1] == h;
    }
  }
}
