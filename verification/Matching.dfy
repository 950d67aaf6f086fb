/** Labelling decisions and matching each intervened one with its nearest control. */
module Matching {
  import opened Wrappers
  import opened AgeBuckets

  const MAX_GAP_NS := 60_000_000_000

  /** A row of the decision dataset. */
  datatype Row = Row(
    id: string, tsNs: int, ageSec: real, ageCensored: bool,
    missRatePre: real, walkRatePre: real, deltaMissRate: real, deltaWalkRate: real,
    splitPreferred: bool, keepPreferred: bool, isIntervened: bool, matchedControl: string)

  datatype Candidate = Candidate(id: string, tsNs: int, ageSec: real, ageCensored: bool)

  datatype Feature = Feature(
    id: string, missRatePre: real, walkRatePre: real, deltaMissRate: real, deltaWalkRate: real, deltaTlbFlushRate: real)

  function Utility(f: Feature): real {
    -(f.deltaMissRate + f.deltaWalkRate) - 0.1 * f.deltaTlbFlushRate
  }

  function Labelled(c: Candidate, f: Feature): Row {
    Row(c.id, c.tsNs, c.ageSec, c.ageCensored, f.missRatePre, f.walkRatePre, f.deltaMissRate, f.deltaWalkRate,
        Utility(f) < 0.0, Utility(f) >= 0.0, false, "")
  }

  function JoinOne(c: Candidate, features: seq<Feature>): seq<Row> {
    if features == [] then []
    else
      var f := features[|features| - 1];
      JoinOne(c, features[..|features| - 1]) + if f.id == c.id then [Labelled(c, f)] else []
  }

  /** The inner join on the decision id, labelled. */
  function MakeDecisionDataset(candidates: seq<Candidate>, features: seq<Feature>): seq<Row> {
    if candidates == [] then []
    else
      MakeDecisionDataset(candidates[..|candidates| - 1], features) + JoinOne(candidates[|candidates| - 1], features)
  }

  /** The row of a candidate and its features: splitting is preferred when misses, walks and
      a tenth of the flushes together rise. */
  predicate RowOf(c: Candidate, f: Feature, r: Row) {
    && c.id == f.id == r.id && r.tsNs == c.tsNs && r.ageSec == c.ageSec && r.ageCensored == c.ageCensored
    && r.missRatePre == f.missRatePre && r.walkRatePre == f.walkRatePre
    && r.deltaMissRate == f.deltaMissRate && r.deltaWalkRate == f.deltaWalkRate
    && (r.splitPreferred <==> 10.0 * (f.deltaMissRate + f.deltaWalkRate) + f.deltaTlbFlushRate > 0.0)
    && (r.keepPreferred <==> !r.splitPreferred) && !r.isIntervened && r.matchedControl == ""
  }

  lemma {:induction false} JoinOneRows(c: Candidate, features: seq<Feature>, r: Row)
    ensures r in JoinOne(c, features) <==> exists f :: f in features && RowOf(c, f, r)
  {
    if features == [] {
    } else {
      var init, last := features[..|features| - 1], features[|features| - 1];
      JoinOneRows(c, init, r);
      assert features == init + [last];
      assert RowOf(c, last, r) <==> last.id == c.id && r == Labelled(c, last);
    }
  }

  /** The dataset has a row for each candidate and feature row that share an id, and no
      other. */
  lemma {:induction false} DatasetRows(candidates: seq<Candidate>, features: seq<Feature>, r: Row)
    ensures r in MakeDecisionDataset(candidates, features)
       <==> exists c, f :: c in candidates && f in features && RowOf(c, f, r)
  {
    if candidates == [] {
    } else {
      var init, last := candidates[..|candidates| - 1], candidates[|candidates| - 1];
      assert candidates == init + [last];
      DatasetRows(init, features, r);
      JoinOneRows(last, features, r);
    }
  }

  /** The numbers of the feature rows with an id. */
  function Having(id: string, features: seq<Feature>): set<nat> {
    set j: nat | j < |features| && features[j].id == id
  }

  /** The pairs of candidates and feature rows that share an id. */
  function Pairs(candidates: seq<Candidate>, features: seq<Feature>): set<(nat, nat)> {
    set i: nat, j: nat | i < |candidates| && j < |features| && candidates[i].id == features[j].id :: (i, j)
  }

  function PairedWith(i: nat, js: set<nat>): set<(nat, nat)> {
    set j | j in js :: (i, j)
  }

  lemma {:induction false} JoinOneSize(c: Candidate, features: seq<Feature>)
    ensures |JoinOne(c, features)| == |Having(c.id, features)|
  {
    if features != [] {
      var n := |features| - 1;
      JoinOneSize(c, features[..n]);
      assert Having(c.id, features)
          == Having(c.id, features[..n]) + if features[n].id == c.id then {n} else {};
    }
  }

  lemma {:induction false} PairedSize(i: nat, js: set<nat>)
    ensures |PairedWith(i, js)| == |js|
  {
    if js != {} {
      var j :| j in js;
      PairedSize(i, js - {j});
      assert PairedWith(i, js) == PairedWith(i, js - {j}) + {(i, j)};
    }
  }

  lemma PairsNext(candidates: seq<Candidate>, features: seq<Feature>, n: nat)
    requires |candidates| == n + 1
    ensures var earlier, last := Pairs(candidates[..n], features), PairedWith(n, Having(candidates[n].id, features));
            Pairs(candidates, features) == earlier + last && earlier !! last
  {
  }

  lemma DisjointSize(a: set<(nat, nat)>, b: set<(nat, nat)>)
    requires a !! b
    ensures |a + b| == |a| + |b|
  {
  }

  /** It has one row for each such pair. */
  lemma {:induction false} DatasetSize(candidates: seq<Candidate>, features: seq<Feature>)
    ensures |MakeDecisionDataset(candidates, features)| == |Pairs(candidates, features)|
  {
    if candidates != [] {
      var n := |candidates| - 1;
      DatasetSize(candidates[..n], features);
      JoinOneSize(candidates[n], features);
      PairedSize(n, Having(candidates[n].id, features));
      PairsNext(candidates, features, n);
      DisjointSize(Pairs(candidates[..n], features), PairedWith(n, Having(candidates[n].id, features)));
    }
  }

  /** Labels are complementary. */
  predicate Complementary(rows: seq<Row>) {
    forall r :: r in rows ==> r.splitPreferred == !r.keepPreferred
  }

  predicate Untouched(rows: seq<Row>) {
    forall r :: r in rows ==> !r.isIntervened && r.matchedControl == ""
  }

  lemma {:induction false} JoinOneLabels(c: Candidate, features: seq<Feature>)
    ensures Complementary(JoinOne(c, features)) && Untouched(JoinOne(c, features))
  {
    if features == [] {
    } else {
      JoinOneLabels(c, features[..|features| - 1]);
    }
  }

  lemma {:induction false} DatasetLabels(candidates: seq<Candidate>, features: seq<Feature>)
    ensures Complementary(MakeDecisionDataset(candidates, features))
    ensures Untouched(MakeDecisionDataset(candidates, features))
  {
    if candidates == [] {
    } else {
      DatasetLabels(candidates[..|candidates| - 1], features);
      JoinOneLabels(candidates[|candidates| - 1], features);
    }
  }

  // ------------------------------------------------------- choosing a control

  function BucketOfRow(r: Row): Bucket {
    BucketOf(Some(r.ageSec), r.ageCensored)
  }

  /** The row stored under an id is the last one with it. */
  function Find(rows: seq<Row>, id: string): (r: Option<Row>)
    ensures r.Some? ==> r.value in rows && r.value.id == id
    ensures r.None? ==> forall x :: x in rows ==> x.id != id
  {
    if rows == [] then None
    else
      var last := rows[|rows| - 1];
      assert rows == rows[..|rows| - 1] + [last];
      if last.id == id then Some(last) else Find(rows[..|rows| - 1], id)
  }

  function Gap(a: Row, b: Row): int {
    if a.tsNs < b.tsNs then b.tsNs - a.tsNs else a.tsNs - b.tsNs
  }

  /** May serve as control for `treated`. */
  predicate Eligible(treated: Row, r: Row) {
    r.id != treated.id && BucketOfRow(r) == BucketOfRow(treated) && Gap(r, treated) <= MAX_GAP_NS
  }

  function Square(x: real): real {
    x * x
  }

  /** The squared distance; its order is the distance's own. */
  function DistanceSq(treated: Row, r: Row): real {
    Square(r.missRatePre - treated.missRatePre) + Square(r.walkRatePre - treated.walkRatePre)
    + Square(r.deltaMissRate - treated.deltaMissRate) + Square(r.deltaWalkRate - treated.deltaWalkRate)
  }

  /** The first of the eligible rows at the least distance. */
  function Nearest(rows: seq<Row>, treated: Row): (r: Option<Row>)
    ensures r.Some? ==> r.value in rows && Eligible(treated, r.value)
    ensures r.Some? ==> forall x :: x in rows && Eligible(treated, x) ==>
                                      DistanceSq(treated, r.value) <= DistanceSq(treated, x)
    ensures r.None? ==> forall x :: x in rows ==> !Eligible(treated, x)
  {
    if rows == [] then None
    else
      var last := rows[|rows| - 1];
      assert rows == rows[..|rows| - 1] + [last];
      var best := Nearest(rows[..|rows| - 1], treated);
      Better(treated, last, best)
  }

  /** `row` if it is eligible and closer than the best so far. */
  function Better(treated: Row, row: Row, best: Option<Row>): Option<Row> {
    if Eligible(treated, row) && (best.None? || DistanceSq(treated, row) < DistanceSq(treated, best.value))
    then Some(row) else best
  }

  datatype Intervention = Intervention(id: string, decisionId: string, success: bool)

  datatype Match = Match(interventionId: string, treated: Row, control: Row)

  /** The match an intervention gives, if any. */
  function MatchOf(rows: seq<Row>, iv: Intervention): Option<Match> {
    if !iv.success then None
    else
      match Find(rows, iv.decisionId)
      case None => None
      case Some(treated) =>
        match Nearest(rows, treated)
        case None => None
        case Some(control) => Some(Match(iv.id, treated, control))
  }

  function Matches(rows: seq<Row>, ivs: seq<Intervention>): seq<Match> {
    if ivs == [] then []
    else
      var m := MatchOf(rows, ivs[|ivs| - 1]);
      Matches(rows, ivs[..|ivs| - 1]) + if m.Some? then [m.value] else []
  }

  predicate SplitBetter(m: Match) {
    m.treated.deltaMissRate + m.treated.deltaWalkRate < m.control.deltaMissRate + m.control.deltaWalkRate
  }

  function Marked(r: Row, m: Match): Row {
    if r.id == m.treated.id
    then r.(isIntervened := true, matchedControl := m.control.id,
            splitPreferred := SplitBetter(m), keepPreferred := !SplitBetter(m))
    else r
  }

  function MarkedBy(r: Row, matches: seq<Match>): Row {
    if matches == [] then r else Marked(MarkedBy(r, matches[..|matches| - 1]), matches[|matches| - 1])
  }

  // ------------------------------------------------------- the procedure

  method NearestControl(rows: seq<Row>, treated: Row) returns (r: Option<Row>)
    ensures r == Nearest(rows, treated)
  {
    var treatedBucket := AgeBucketFor(Some(treated.ageSec), treated.ageCensored);
    r := None;
    for i := 0 to |rows|
      invariant r == Nearest(rows[..i], treated)
    {
      assert rows[..i + 1][..i] == rows[..i];
      r := Consider(treated, treatedBucket, rows[i], r);
    }
    assert rows[..|rows|] == rows;
  }

  method Consider(treated: Row, treatedBucket: Bucket, row: Row, best: Option<Row>) returns (r: Option<Row>)
    requires treatedBucket == BucketOfRow(treated)
    ensures r == Better(treated, row, best)
  {
    r := best;
    var bucket := AgeBucketFor(Some(row.ageSec), row.ageCensored);
    if row.id != treated.id && bucket == treatedBucket && Gap(row, treated) <= MAX_GAP_NS {
      if best.None? || DistanceSq(treated, row) < DistanceSq(treated, best.value) {
        r := Some(row);
      }
    }
  }

  method MarkRows(rows: seq<Row>, m: Match) returns (r: seq<Row>)
    ensures |r| == |rows| && forall i :: 0 <= i < |rows| ==> r[i] == Marked(rows[i], m)
  {
    r := [];
    for i := 0 to |rows|
      invariant |r| == i && forall j :: 0 <= j < i ==> r[j] == Marked(rows[j], m)
    {
      r := r + [Marked(rows[i], m)];
    }
  }

  method MatchInterventions(rows: seq<Row>, ivs: seq<Intervention>)
    returns (matches: seq<Match>, updated: seq<Row>)
    ensures matches == Matches(rows, ivs)
    ensures |updated| == |rows| && forall i :: 0 <= i < |rows| ==> updated[i] == MarkedBy(rows[i], matches)
  {
    matches, updated := [], rows;
    for n := 0 to |ivs|
      invariant matches == Matches(rows, ivs[..n])
      invariant |updated| == |rows| && forall i :: 0 <= i < |rows| ==> updated[i] == MarkedBy(rows[i], matches)
    {
      assert ivs[..n + 1][..n] == ivs[..n];
      var iv := ivs[n];
      if iv.success {
        var treated := Find(rows, iv.decisionId);
        if treated.Some? {
          var control := NearestControl(rows, treated.value);
          if control.Some? {
            var m := Match(iv.id, treated.value, control.value);
            updated := MarkRows(updated, m);
            assert (matches + [m])[..|matches|] == matches;
            matches := matches + [m];
          }
        }
      }
    }
    assert ivs[..|ivs|] == ivs;
  }

  // ------------------------------------------------------- the claims

  /** Row `k` is the last with the id. */
  predicate LastWith(rows: seq<Row>, id: string, k: nat) {
    k < |rows| && rows[k].id == id && forall l :: k < l < |rows| ==> rows[l].id != id
  }

  /** Another decision of the same age bucket, at most 60 s apart. */
  predicate IsControl(treated: Row, r: Row) {
    && r.id != treated.id && -60_000_000_000 <= r.tsNs - treated.tsNs <= 60_000_000_000
    && BucketOf(Some(r.ageSec), r.ageCensored) == BucketOf(Some(treated.ageSec), treated.ageCensored)
  }

  /** The squared distance over the four measurements. */
  function Apart(a: Row, b: Row): real {
    var miss, walk := a.missRatePre - b.missRatePre, a.walkRatePre - b.walkRatePre;
    var deltaMiss, deltaWalk := a.deltaMissRate - b.deltaMissRate, a.deltaWalkRate - b.deltaWalkRate;
    miss * miss + walk * walk + deltaMiss * deltaMiss + deltaWalk * deltaWalk
  }

  /** Row `j` is the nearest control, and the first at its distance. */
  predicate NearestAt(rows: seq<Row>, treated: Row, j: nat) {
    && j < |rows| && IsControl(treated, rows[j])
    && (forall l :: 0 <= l < |rows| && IsControl(treated, rows[l]) ==>
                      Apart(treated, rows[j]) <= Apart(treated, rows[l]))
    && (forall l :: 0 <= l < j && IsControl(treated, rows[l]) ==>
                      Apart(treated, rows[j]) < Apart(treated, rows[l]))
  }

  /** The intervention succeeded, its decision is the last row with that id, and the
      control is the first of the nearest. */
  ghost predicate Fits(rows: seq<Row>, iv: Intervention, m: Match) {
    && iv.success && m.interventionId == iv.id
    && (exists k: nat :: LastWith(rows, iv.decisionId, k) && m.treated == rows[k])
    && (exists j: nat :: NearestAt(rows, m.treated, j) && m.control == rows[j])
  }

  lemma SquareOf(x: real, y: real)
    ensures Square(x - y) == (y - x) * (y - x)
  {
  }

  lemma ApartIsDistance(a: Row, b: Row)
    ensures Apart(a, b) == DistanceSq(a, b)
  {
    SquareOf(b.missRatePre, a.missRatePre);
    SquareOf(b.walkRatePre, a.walkRatePre);
    SquareOf(b.deltaMissRate, a.deltaMissRate);
    SquareOf(b.deltaWalkRate, a.deltaWalkRate);
  }

  lemma {:induction false} FindIsLast(rows: seq<Row>, id: string) returns (k: nat)
    ensures Find(rows, id).Some? ==> LastWith(rows, id, k) && Find(rows, id).value == rows[k]
  {
    k := 0;
    if rows != [] {
      var n := |rows| - 1;
      if rows[n].id == id {
        k := n;
      } else {
        k := FindIsLast(rows[..n], id);
      }
    }
  }

  /** `NearestAt` by the procedure's own test and distance. */
  predicate FirstAt(rows: seq<Row>, treated: Row, j: nat) {
    && j < |rows| && Eligible(treated, rows[j])
    && (forall l :: 0 <= l < |rows| && Eligible(treated, rows[l]) ==>
                      DistanceSq(treated, rows[j]) <= DistanceSq(treated, rows[l]))
    && (forall l :: 0 <= l < j && Eligible(treated, rows[l]) ==>
                      DistanceSq(treated, rows[j]) < DistanceSq(treated, rows[l]))
  }

  /** Row `j` is eligible, and farther rows alone come before it among the eligible. */
  predicate Leads(rows: seq<Row>, treated: Row, j: nat) {
    && j < |rows| && Eligible(treated, rows[j])
    && forall l :: 0 <= l < j && Eligible(treated, rows[l]) ==>
                     DistanceSq(treated, rows[j]) < DistanceSq(treated, rows[l])
  }

  lemma CloserLeads(rows: seq<Row>, treated: Row, n: nat)
    requires |rows| == n + 1 && Nearest(rows, treated) != Nearest(rows[..n], treated)
    ensures Leads(rows, treated, n) && Nearest(rows, treated) == Some(rows[n])
  {
    forall l | 0 <= l < n && Eligible(treated, rows[l])
      ensures DistanceSq(treated, rows[n]) < DistanceSq(treated, rows[l])
    {
      assert rows[l] == rows[..n][l] && rows[l] in rows[..n];
    }
  }

  lemma {:induction false} NearestLeads(rows: seq<Row>, treated: Row) returns (j: nat)
    ensures Nearest(rows, treated).Some? ==> Leads(rows, treated, j) && Nearest(rows, treated).value == rows[j]
  {
    j := 0;
    if rows != [] {
      var n := |rows| - 1;
      var best := Nearest(rows[..n], treated);
      j := NearestLeads(rows[..n], treated);
      if Nearest(rows, treated) != best {
        CloserLeads(rows, treated, n);
        j := n;
      }
    }
  }

  lemma NearestIsFirst(rows: seq<Row>, treated: Row) returns (j: nat)
    ensures Nearest(rows, treated).Some? ==> FirstAt(rows, treated, j) && Nearest(rows, treated).value == rows[j]
  {
    j := NearestLeads(rows, treated);
  }

  lemma FirstIsNearest(rows: seq<Row>, treated: Row, j: nat)
    ensures FirstAt(rows, treated, j) <==> NearestAt(rows, treated, j)
  {
    forall l | 0 <= l < |rows|
      ensures Apart(treated, rows[l]) == DistanceSq(treated, rows[l])
    {
      ApartIsDistance(treated, rows[l]);
    }
  }

  lemma NearestIsOne(rows: seq<Row>, treated: Row, i: nat, j: nat)
    requires NearestAt(rows, treated, i) && NearestAt(rows, treated, j)
    ensures i == j
  {
    FirstIsNearest(rows, treated, i);
    FirstIsNearest(rows, treated, j);
  }

  lemma FitsMatch(rows: seq<Row>, iv: Intervention, m: Match)
    requires MatchOf(rows, iv) == Some(m)
    ensures Fits(rows, iv, m)
  {
    var k := FindIsLast(rows, iv.decisionId);
    var j := NearestIsFirst(rows, rows[k]);
    FirstIsNearest(rows, rows[k], j);
  }

  lemma FitIsMatch(rows: seq<Row>, iv: Intervention, m: Match)
    requires Fits(rows, iv, m)
    ensures MatchOf(rows, iv) == Some(m)
  {
    var k := FindIsLast(rows, iv.decisionId);
    var j := NearestIsFirst(rows, m.treated);
    FirstIsNearest(rows, m.treated, j);
    var i: nat :| NearestAt(rows, m.treated, i) && m.control == rows[i];
    FirstIsNearest(rows, m.treated, i);
    assert rows[i] in rows;
    NearestIsOne(rows, m.treated, i, j);
  }

  /** An intervention gives a match exactly when one fits, and it is that one. */
  lemma MatchIff(rows: seq<Row>, iv: Intervention, m: Match)
    ensures MatchOf(rows, iv) == Some(m) <==> Fits(rows, iv, m)
  {
    if MatchOf(rows, iv) == Some(m) {
      FitsMatch(rows, iv, m);
    }
    if Fits(rows, iv, m) {
      FitIsMatch(rows, iv, m);
    }
  }

  /** The numbers of the first `n` interventions that have a match. */
  function Matched(rows: seq<Row>, ivs: seq<Intervention>, n: nat): set<nat>
    requires n <= |ivs|
  {
    set i: nat | i < n && MatchOf(rows, ivs[i]).Some?
  }

  /** There are as many as interventions that have one. */
  lemma {:induction false} MatchesCount(rows: seq<Row>, ivs: seq<Intervention>, n: nat)
    requires n == |ivs|
    ensures |Matches(rows, ivs)| == |Matched(rows, ivs, n)|
  {
    if n > 0 {
      MatchesCount(rows, ivs[..n - 1], n - 1);
      MatchedNext(rows, ivs, n);
    }
  }

  lemma MatchedNext(rows: seq<Row>, ivs: seq<Intervention>, n: nat)
    requires 0 < n <= |ivs|
    ensures Matched(rows, ivs, n - 1) == Matched(rows, ivs[..n - 1], n - 1)
    ensures |Matched(rows, ivs, n)|
         == |Matched(rows, ivs, n - 1)| + if MatchOf(rows, ivs[n - 1]).Some? then 1 else 0
  {
    assert Matched(rows, ivs, n)
        == Matched(rows, ivs, n - 1) + if MatchOf(rows, ivs[n - 1]).Some? then {n - 1} else {};
  }

  lemma LastMatchAt(rows: seq<Row>, ivs: seq<Intervention>, n: nat)
    requires |ivs| == n + 1 && MatchOf(rows, ivs[n]).Some?
    ensures var k, matches := |Matched(rows, ivs, n)|, Matches(rows, ivs);
            k < |matches| && MatchOf(rows, ivs[n]) == Some(matches[k])
  {
    MatchesCount(rows, ivs[..n], n);
    MatchedNext(rows, ivs, n + 1);
  }

  /** The matches are those of the interventions that have one, once each and in order. */
  lemma {:induction false} MatchesInOrder(rows: seq<Row>, ivs: seq<Intervention>, i: nat)
    requires i < |ivs| && MatchOf(rows, ivs[i]).Some?
    ensures var k, matches := |Matched(rows, ivs, i)|, Matches(rows, ivs);
            k < |matches| && MatchOf(rows, ivs[i]) == Some(matches[k])
  {
    var n := |ivs| - 1;
    if i < n {
      MatchesInOrder(rows, ivs[..n], i);
      assert Matched(rows, ivs, i) == Matched(rows, ivs[..n], i);
    } else {
      LastMatchAt(rows, ivs, n);
    }
  }

  /** Each match comes from a successful intervention; its control differs from the
      treated row, shares its age bucket, lies within 60 s, and is at least as close as
      every other such row. */
  lemma {:induction false} MatchesAreNearest(rows: seq<Row>, ivs: seq<Intervention>, m: Match)
    requires m in Matches(rows, ivs)
    ensures exists iv :: iv in ivs && iv.success && iv.id == m.interventionId && iv.decisionId == m.treated.id
    ensures m.treated in rows && m.control in rows && IsControl(m.treated, m.control)
    ensures forall x :: x in rows && IsControl(m.treated, x) ==> Apart(m.treated, m.control) <= Apart(m.treated, x)
  {
    var last := ivs[|ivs| - 1];
    assert ivs == ivs[..|ivs| - 1] + [last];
    if m in Matches(rows, ivs[..|ivs| - 1]) {
      MatchesAreNearest(rows, ivs[..|ivs| - 1], m);
    } else {
      assert last in ivs && MatchOf(rows, last) == Some(m);
      MatchIff(rows, last, m);
    }
  }

  /** A successful intervention goes unmatched only when its decision is not in the
      dataset or has no control. */
  lemma {:induction false} UnmatchedOnlyWithoutControl(rows: seq<Row>, ivs: seq<Intervention>, iv: Intervention)
    requires iv in ivs && iv.success
    ensures (exists m :: m in Matches(rows, ivs) && m.interventionId == iv.id && m.treated.id == iv.decisionId)
            || (forall r :: r in rows ==> r.id != iv.decisionId)
            || (exists k: nat :: LastWith(rows, iv.decisionId, k) && forall x :: x in rows ==> !IsControl(rows[k], x))
  {
    var last := ivs[|ivs| - 1];
    assert ivs == ivs[..|ivs| - 1] + [last];
    if last == iv {
      var k := FindIsLast(rows, iv.decisionId);
      if MatchOf(rows, iv).Some? {
        assert MatchOf(rows, iv).value in Matches(rows, ivs);
      }
    } else {
      UnmatchedOnlyWithoutControl(rows, ivs[..|ivs| - 1], iv);
    }
  }

  predicate Treated(matches: seq<Match>, id: string) {
    exists m :: m in matches && m.treated.id == id
  }

  /** Match `i` is the last that treats the id. */
  predicate LastTreating(matches: seq<Match>, id: string, i: nat) {
    && i < |matches| && matches[i].treated.id == id
    && forall j :: i < j < |matches| ==> matches[j].treated.id != id
  }

  /** The row names the match's control, and prefers splitting when the treated decision's
      misses and walks rose less than the control's. */
  predicate Bears(u: Row, m: Match) {
    && u.isIntervened && u.matchedControl == m.control.id && u.keepPreferred == !u.splitPreferred
    && (u.splitPreferred <==>
        m.treated.deltaMissRate + m.treated.deltaWalkRate - m.control.deltaMissRate < m.control.deltaWalkRate)
  }

  /** Marking keeps the id and the measurements, and marks exactly the treated rows, each
      by the last match that treats it. */
  lemma {:induction false} MarkingExact(r: Row, matches: seq<Match>)
    ensures var u := MarkedBy(r, matches);
            && u == r.(splitPreferred := u.splitPreferred, keepPreferred := u.keepPreferred,
                    isIntervened := u.isIntervened, matchedControl := u.matchedControl)
            && (if Treated(matches, r.id) then exists i: nat :: LastTreating(matches, r.id, i) && Bears(u, matches[i])
                else u == r)
  {
    if matches == [] {
    } else {
      var n := |matches| - 1;
      var init, last := matches[..n], matches[n];
      assert matches == init + [last];
      MarkingExact(r, init);
      assert last in matches && forall m :: m in init ==> m in matches;
      assert Treated(matches, r.id) <==> Treated(init, r.id) || last.treated.id == r.id;
      if last.treated.id == r.id {
        assert LastTreating(matches, r.id, n);
      } else if i: nat :| LastTreating(init, r.id, i) && Bears(MarkedBy(r, init), init[i]) {
        assert LastTreating(matches, r.id, i) && init[i] == matches[i];
      }
    }
  }

  /** On a fresh dataset, marking flags exactly the matched treated rows, and every row
      of the result carries complementary labels. */
  lemma DatasetMarking(candidates: seq<Candidate>, features: seq<Feature>, ivs: seq<Intervention>, i: nat)
    requires i < |MakeDecisionDataset(candidates, features)|
    ensures var rows := MakeDecisionDataset(candidates, features);
            var matches := Matches(rows, ivs);
            var u := MarkedBy(rows[i], matches);
            && u.id == rows[i].id && (u.isIntervened <==> Treated(matches, rows[i].id))
            && u.splitPreferred == !u.keepPreferred
            && (u.matchedControl != "" ==> u.isIntervened)
  {
    var rows := MakeDecisionDataset(candidates, features);
    DatasetLabels(candidates, features);
    assert rows[i] in rows;
    MarkingExact(rows[i], Matches(rows, ivs));
  }
}
