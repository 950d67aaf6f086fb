/** The rows of the THP intervention hook while they are popped: `data()` reads the four
    buffers one after the other and `clear()` empties them one after the other, and the
    poll thread records rows at any point in between. */
module ThpRows {
  import opened ThpIntervention
  import AgeBuckets

  datatype Row =
    | RollupRow(rollup: Rollup)
    | RegionRow(sample: RegionSample)
    | CandidateRow(candidate: Candidate)
    | InterventionRow(intervention: Intervention)

  datatype Table = Rollups | Regions | Candidates | Interventions

  function TableOf(row: Row): Table {
    match row
    case RollupRow(_) => Rollups
    case RegionRow(_) => Regions
    case CandidateRow(_) => Candidates
    case InterventionRow(_) => Interventions
  }

  /** One row recorded, one buffer read, or one buffer emptied. */
  datatype Move = Record(row: Row) | Read(table: Table) | Clear(table: Table)

  /** The moves of one `pop_data`, in order. */
  const POP := [
    Read(Rollups), Read(Regions), Read(Candidates), Read(Interventions),
    Clear(Rollups), Clear(Regions), Clear(Candidates), Clear(Interventions)]

  /** How many moves of the current pop were made. */
  function Position(h: seq<Move>): (p: nat)
    ensures p < |POP|
  {
    if h == [] then 0
    else
      var p := Position(h[..|h| - 1]);
      if h[|h| - 1].Record? then p else if p == |POP| - 1 then 0 else p + 1
  }

  /** Pops follow each other, with rows recorded at any time. */
  predicate Orderly(h: seq<Move>) {
    h == [] || (Orderly(h[..|h| - 1]) && (h[|h| - 1].Record? || h[|h| - 1] == POP[Position(h[..|h| - 1])]))
  }

  function RowsOf(row: Row, t: Table): seq<Row> {
    if TableOf(row) == t then [row] else []
  }

  // ------------------------------------------------------- what the moves do

  function Buffer(h: seq<Move>, t: Table): seq<Row> {
    if h == [] then []
    else
      var before := h[..|h| - 1];
      match h[|h| - 1]
      case Record(row) => Buffer(before, t) + RowsOf(row, t)
      case Read(_) => Buffer(before, t)
      case Clear(u) => if u == t then [] else Buffer(before, t)
  }

  function Recorded(h: seq<Move>, t: Table): seq<Row> {
    if h == [] then []
    else Recorded(h[..|h| - 1], t) + if h[|h| - 1].Record? then RowsOf(h[|h| - 1].row, t) else []
  }

  /** What the latest read of the table found. */
  function Found(h: seq<Move>, t: Table): seq<Row> {
    if h == [] then [] else if h[|h| - 1] == Read(t) then Buffer(h[..|h| - 1], t) else Found(h[..|h| - 1], t)
  }

  /** What was recorded since the latest read of the table. */
  function SinceRead(h: seq<Move>, t: Table): seq<Row> {
    if h == [] || h[|h| - 1] == Read(t) then []
    else SinceRead(h[..|h| - 1], t) + if h[|h| - 1].Record? then RowsOf(h[|h| - 1].row, t) else []
  }

  // ------------------------------------------------------- what becomes of each row

  datatype Fate = Handed(row: Row) | Lost(row: Row)

  function AllHanded(rows: seq<Row>): (r: seq<Fate>)
    ensures |r| == |rows| && forall i :: 0 <= i < |r| ==> r[i] == Handed(rows[i])
  {
    seq(|rows|, i requires 0 <= i < |rows| => Handed(rows[i]))
  }

  function AllLost(rows: seq<Row>): (r: seq<Fate>)
    ensures |r| == |rows| && forall i :: 0 <= i < |r| ==> r[i] == Lost(rows[i])
  {
    seq(|rows|, i requires 0 <= i < |rows| => Lost(rows[i]))
  }

  /** What emptying a table settles: the rows its read found are handed over, those
      recorded since are lost. */
  function Settled(h: seq<Move>, t: Table): seq<Fate> {
    if h == [] then []
    else
      var before := h[..|h| - 1];
      Settled(before, t)
      + if h[|h| - 1] == Clear(t) then Cleared(Found(before, t), SinceRead(before, t)) else []
  }

  function Settling(fates: seq<Fate>): (r: seq<Row>)
    ensures |r| == |fates| && forall i :: 0 <= i < |r| ==> r[i] == fates[i].row
  {
    seq(|fates|, i requires 0 <= i < |fates| => fates[i].row)
  }

  /** All that pops returned for the table. */
  function Returned(h: seq<Move>, t: Table): seq<Row> {
    if h == [] then []
    else Returned(h[..|h| - 1], t) + if h[|h| - 1] == Clear(t) then Found(h[..|h| - 1], t) else []
  }

  function LostRows(h: seq<Move>, t: Table): seq<Row> {
    if h == [] then []
    else LostRows(h[..|h| - 1], t) + if h[|h| - 1] == Clear(t) then SinceRead(h[..|h| - 1], t) else []
  }

  /** Nothing is recorded in the table between its read and its clearing. */
  predicate Undisturbed(h: seq<Move>, t: Table) {
    h == []
    || (Undisturbed(h[..|h| - 1], t) && (h[|h| - 1] == Clear(t) ==> SinceRead(h[..|h| - 1], t) == []))
  }

  /** Between the read and the clearing of a table its buffer holds what was found and what
      came since; the first four moves of a pop are reads, the others clear. */
  predicate Midway(h: seq<Move>, t: Table) {
    Position(h) in ReadButNotCleared(t) ==> Buffer(h, t) == Found(h, t) + SinceRead(h, t)
  }

  /** The positions of a pop at which the table was read and not yet cleared. */
  function ReadButNotCleared(t: Table): set<nat> {
    match t
    case Rollups => {1, 2, 3, 4}
    case Regions => {2, 3, 4, 5}
    case Candidates => {3, 4, 5, 6}
    case Interventions => {4, 5, 6, 7}
  }

  lemma {:induction false} RunMidway(h: seq<Move>, t: Table)
    requires Orderly(h)
    ensures Midway(h, t)
  {
    if h == [] {
    } else {
      RunMidway(h[..|h| - 1], t);
    }
  }

  lemma SettlingBoth(a: seq<Fate>, b: seq<Fate>)
    ensures Settling(a + b) == Settling(a) + Settling(b)
  {
  }

  lemma SettlingCleared(found: seq<Row>, since: seq<Row>)
    ensures Settling(Cleared(found, since)) == found + since
  {
    SettlingBoth(AllHanded(found), AllLost(since));
    assert Settling(AllHanded(found)) == found && Settling(AllLost(since)) == since;
  }

  lemma ClearingSettles(h: seq<Move>, t: Table)
    requires h != [] && h[|h| - 1] == Clear(t)
    requires Buffer(h[..|h| - 1], t) == Found(h[..|h| - 1], t) + SinceRead(h[..|h| - 1], t)
    ensures Settling(Settled(h, t)) == Settling(Settled(h[..|h| - 1], t)) + Buffer(h[..|h| - 1], t)
  {
    var before := h[..|h| - 1];
    SettlingBoth(Settled(before, t), Cleared(Found(before, t), SinceRead(before, t)));
    SettlingCleared(Found(before, t), SinceRead(before, t));
  }

  /** In every interleaving, each recorded row is settled or still buffered, in the order
      recorded. */
  lemma {:induction false} RowsSettled(h: seq<Move>, t: Table)
    requires Orderly(h)
    ensures Recorded(h, t) == Settling(Settled(h, t)) + Buffer(h, t)
  {
    if h == [] {
    } else {
      var before := h[..|h| - 1];
      RowsSettled(before, t);
      if h[|h| - 1] == Clear(t) {
        RunMidway(before, t);
        ClearingSettles(h, t);
      } else {
        assert Settled(h, t) == Settled(before, t);
      }
    }
  }

  /** The rows with one fate, in order. */
  function Among(fates: seq<Fate>, handed: bool): seq<Row> {
    if fates == [] then []
    else
      Among(fates[..|fates| - 1], handed)
      + if fates[|fates| - 1].Handed? == handed then [fates[|fates| - 1].row] else []
  }

  lemma {:induction false} AmongBoth(a: seq<Fate>, b: seq<Fate>, handed: bool)
    ensures Among(a + b, handed) == Among(a, handed) + Among(b, handed)
  {
    if b == [] {
      assert a + b == a;
    } else {
      AmongBoth(a, b[..|b| - 1], handed);
      assert (a + b)[..|a + b| - 1] == a + b[..|b| - 1];
    }
  }

  lemma {:induction false} AmongOneFate(rows: seq<Row>)
    ensures Among(AllHanded(rows), true) == rows && Among(AllHanded(rows), false) == []
    ensures Among(AllLost(rows), false) == rows && Among(AllLost(rows), true) == []
  {
    if rows == [] {
    } else {
      var init := rows[..|rows| - 1];
      AmongOneFate(init);
      assert AllHanded(rows)[..|rows| - 1] == AllHanded(init) && AllLost(rows)[..|rows| - 1] == AllLost(init);
    }
  }

  /** What one clearing settles: what was found and what came since. */
  function Cleared(found: seq<Row>, since: seq<Row>): seq<Fate> {
    AllHanded(found) + AllLost(since)
  }

  lemma AmongCleared(found: seq<Row>, since: seq<Row>)
    ensures Among(Cleared(found, since), true) == found && Among(Cleared(found, since), false) == since
  {
    AmongOneFate(found);
    AmongOneFate(since);
    AmongBoth(AllHanded(found), AllLost(since), true);
    AmongBoth(AllHanded(found), AllLost(since), false);
  }

  /** The rows settled are those returned and those lost. */
  lemma {:induction false} FatesSplit(h: seq<Move>, t: Table)
    ensures Among(Settled(h, t), true) == Returned(h, t) && Among(Settled(h, t), false) == LostRows(h, t)
    ensures |Settled(h, t)| == |Returned(h, t)| + |LostRows(h, t)|
  {
    if h == [] {
    } else {
      var before := h[..|h| - 1];
      FatesSplit(before, t);
      if h[|h| - 1] == Clear(t) {
        var cleared := Cleared(Found(before, t), SinceRead(before, t));
        AmongCleared(Found(before, t), SinceRead(before, t));
        AmongBoth(Settled(before, t), cleared, true);
        AmongBoth(Settled(before, t), cleared, false);
      } else {
        assert Settled(h, t) == Settled(before, t);
      }
    }
  }

  lemma {:induction false} NothingLostIff(h: seq<Move>, t: Table)
    ensures LostRows(h, t) == [] <==> Undisturbed(h, t)
  {
    if h == [] {
    } else {
      NothingLostIff(h[..|h| - 1], t);
    }
  }

  /** A table's rows are all returned, in order, or still buffered if and only if none was
      recorded between a read and a clearing of the table; the rows recorded there are
      the ones missing. */
  lemma RowsConservedIff(h: seq<Move>, t: Table)
    requires Orderly(h)
    ensures Recorded(h, t) == Returned(h, t) + Buffer(h, t) <==> Undisturbed(h, t)
    ensures |Recorded(h, t)| == |Returned(h, t)| + |LostRows(h, t)| + |Buffer(h, t)|
  {
    RowsSettled(h, t);
    FatesSplit(h, t);
    NothingLostIff(h, t);
    if LostRows(h, t) == [] {
      NoneLost(Settled(h, t));
    }
  }

  lemma {:induction false} NoneLost(fates: seq<Fate>)
    requires Among(fates, false) == []
    ensures Among(fates, true) == Settling(fates)
  {
    if fates == [] {
    } else {
      NoneLost(fates[..|fates| - 1]);
      assert Settling(fates) == Settling(fates[..|fates| - 1]) + [fates[|fates| - 1].row];
    }
  }

  // ------------------------------------------------------- where the rows come from

  function RollupRows(rows: seq<Rollup>): seq<Row> {
    seq(|rows|, i requires 0 <= i < |rows| => RollupRow(rows[i]))
  }

  function RegionRows(rows: seq<RegionSample>): seq<Row> {
    seq(|rows|, i requires 0 <= i < |rows| => RegionRow(rows[i]))
  }

  function CandidateRows(rows: seq<Candidate>): seq<Row> {
    seq(|rows|, i requires 0 <= i < |rows| => CandidateRow(rows[i]))
  }

  function InterventionRows(rows: seq<Intervention>): seq<Row> {
    seq(|rows|, i requires 0 <= i < |rows| => InterventionRow(rows[i]))
  }

  /** All rows of the table that the polls of a run recorded. */
  function RecordOf(s: State, t: Table): seq<Row> {
    match t
    case Rollups => RollupRows(s.allSamples.rollups)
    case Regions => RegionRows(s.allSamples.vmas)
    case Candidates => CandidateRows(s.allCandidates)
    case Interventions => InterventionRows(s.allInterventions)
  }

  // What a poll records depends on no buffer, so pops do not change it: states that differ
  // in the buffers only, as `Popped` says, stay so.

  lemma CandidateSame(s: State, t: State, c: Config, pid: nat, now: int, kind: CandidateType, r: Region)
    requires Popped(s) == Popped(t)
    ensures Popped(WithCandidate(s, c, pid, now, kind, r)) == Popped(WithCandidate(t, c, pid, now, kind, r))
  {
  }

  lemma ObserveSame(s: State, t: State, c: Config, pid: nat, now: int, r: Region)
    requires Popped(s) == Popped(t)
    ensures Popped(Observe(s, c, pid, now, r)) == Popped(Observe(t, c, pid, now, r))
  {
  }

  lemma {:induction false} ObserveAllSame(s: State, t: State, c: Config, pid: nat, now: int, regions: seq<Region>)
    requires Popped(s) == Popped(t)
    ensures Popped(ObserveAll(s, c, pid, now, regions)) == Popped(ObserveAll(t, c, pid, now, regions))
  {
    if regions == [] {
    } else {
      var init := regions[..|regions| - 1];
      ObserveAllSame(s, t, c, pid, now, init);
      ObserveSame(ObserveAll(s, c, pid, now, init), ObserveAll(t, c, pid, now, init), c, pid, now,
                  regions[|regions| - 1]);
    }
  }

  lemma {:induction false} InBucketSame(s: State, t: State, regions: seq<Region>, now: int, b: AgeBuckets.Bucket)
    requires s.firstSeenNs == t.firstSeenNs
    ensures InBucket(s, regions, now, b) == InBucket(t, regions, now, b)
  {
    if regions == [] {
    } else {
      InBucketSame(s, t, regions[..|regions| - 1], now, b);
    }
  }

  lemma {:induction false} WeightedSame(
    s: State, t: State, regions: seq<Region>, now: int, weights: seq<(AgeBuckets.Bucket, real)>)
    requires s.firstSeenNs == t.firstSeenNs
    ensures Weighted(s, regions, now, weights) == Weighted(t, regions, now, weights)
  {
    if weights == [] {
    } else {
      WeightedSame(s, t, regions, now, weights[..|weights| - 1]);
      InBucketSame(s, t, regions, now, weights[|weights| - 1].0);
    }
  }

  lemma ChooseSame(s: State, t: State, c: Config, e: PollEnv)
    requires s.firstSeenNs == t.firstSeenNs && e.regions != []
    ensures ChooseRegion(s, c, e) == ChooseRegion(t, c, e)
  {
    var weighted := Weighted(s, e.regions, e.nowNs, c.weights);
    WeightedSame(s, t, e.regions, e.nowNs, c.weights);
    if weighted != [] {
      InBucketSame(s, t, e.regions, e.nowNs, PickBucket(weighted, 0, 0.0, PickOf(s, c, e)));
    }
  }

  lemma ScannedSame(s: State, t: State, c: Config, e: PollEnv, pid: nat)
    requires Popped(s) == Popped(t) && e.regions != []
    ensures Popped(Scanned(s, c, e, pid)) == Popped(Scanned(t, c, e, pid))
  {
    ObserveAllSame(s, t, c, pid, e.nowNs, e.regions);
    CandidateSame(ObserveAll(s, c, pid, e.nowNs, e.regions), ObserveAll(t, c, pid, e.nowNs, e.regions), c, pid,
                  e.nowNs, Sampled, Pick(e.regions, e.sampleDraw));
  }

  lemma IntervenedSame(s: State, t: State, c: Config, e: PollEnv, pid: nat)
    requires Popped(s) == Popped(t) && e.regions != []
    ensures Popped(Intervened(s, c, e, pid)) == Popped(Intervened(t, c, e, pid))
  {
    ChooseSame(s.(lastInterventionNs := e.nowNs), t.(lastInterventionNs := e.nowNs), c, e);
  }

  lemma NotedSame(s: State, t: State, c: Config, e: PollEnv, pid: nat)
    requires Popped(s) == Popped(t)
    ensures Popped(Noted(s, c, e, pid)) == Popped(Noted(t, c, e, pid))
  {
  }

  lemma DueSame(s: State, t: State, c: Config, e: PollEnv, pid: nat)
    requires Popped(s) == Popped(t)
    ensures Popped(Noted(s, c, e, pid)) == Popped(Noted(t, c, e, pid))
    ensures Popped(Due(s, c, e, pid)) == Popped(Due(t, c, e, pid))
  {
    NotedSame(s, t, c, e, pid);
  }

  lemma PollSame(s: State, t: State, c: Config, e: PollEnv)
    requires Popped(s) == Popped(t)
    ensures Popped(PollStep(s, c, e)) == Popped(PollStep(t, c, e))
  {
    if e.pid.Some? {
      var pid := e.pid.value;
      DueSame(s, t, c, e, pid);
      if e.regions != [] {
        ScannedSame(Due(s, c, e, pid), Due(t, c, e, pid), c, e, pid);
        IntervenedSame(Scanned(Due(s, c, e, pid), c, e, pid), Scanned(Due(t, c, e, pid), c, e, pid), c, e, pid);
      }
    }
  }

  function OnlyPolls(h: seq<Event>): seq<Event> {
    if h == [] then [] else OnlyPolls(h[..|h| - 1]) + if h[|h| - 1].Polled? then [h[|h| - 1]] else []
  }

  /** The polls of a run record the same rows wherever pops come. */
  lemma {:induction false} PopsChangeNoRecord(c: Config, h: seq<Event>)
    ensures Popped(Run(c, h)) == Popped(Run(c, OnlyPolls(h)))
    ensures forall t :: RecordOf(Run(c, h), t) == RecordOf(Run(c, OnlyPolls(h)), t)
  {
    if h == [] {
    } else {
      var before, e := h[..|h| - 1], h[|h| - 1];
      PopsChangeNoRecord(c, before);
      if e.Polled? {
        assert OnlyPolls(h)[..|OnlyPolls(h)| - 1] == OnlyPolls(before);
        PollSame(Run(c, before), Run(c, OnlyPolls(before)), c, e.e);
      } else {
        assert OnlyPolls(h) == OnlyPolls(before);
      }
    }
  }

  /** The moves record, table by table, the rows of the polls of a run. */
  ghost predicate Interleaves(h: seq<Move>, c: Config, polls: seq<Event>) {
    forall t :: Recorded(h, t) == RecordOf(Run(c, polls), t)
  }

  /** However pops fall among the rows that a run's polls record, in the middle of a poll
      or not: of each table they return all rows not buffered if and only if none was
      recorded between a read and a clearing of the table. */
  lemma PollsConservedIff(h: seq<Move>, c: Config, polls: seq<Event>, t: Table)
    requires Orderly(h) && Interleaves(h, c, polls)
    ensures RecordOf(Run(c, polls), t) == Returned(h, t) + Buffer(h, t) <==> Undisturbed(h, t)
    ensures RecordOf(Run(c, polls), t) == Settling(Settled(h, t)) + Buffer(h, t)
    ensures Among(Settled(h, t), true) == Returned(h, t) && Among(Settled(h, t), false) == LostRows(h, t)
  {
    RowsConservedIff(h, t);
    RowsSettled(h, t);
    FatesSplit(h, t);
  }
}
