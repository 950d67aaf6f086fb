/** Age buckets for THP decisions. */
module AgeBuckets {
  import opened Wrappers

  datatype Bucket = Young | Mid | Old | Unknown

  datatype AgeRange = AgeRange(bucket: Bucket, minAgeSec: real, maxAgeSec: Option<real>)

  const AGE_BUCKETS := [
    AgeRange(Young, 0.0, Some(30.0)), AgeRange(Mid, 30.0, Some(300.0)), AgeRange(Old, 300.0, None)]

  predicate InAgeRange(r: AgeRange, age: real) {
    age >= r.minAgeSec && (r.maxAgeSec.None? || age < r.maxAgeSec.value)
  }

  /** The first range that holds the age. */
  method AgeBucketFor(ageSec: Option<real>, censored: bool) returns (b: Bucket)
    ensures b == BucketOf(ageSec, censored)
  {
    if censored || ageSec.None? {
      return Unknown;
    }
    for i := 0 to |AGE_BUCKETS|
      invariant forall j :: 0 <= j < i ==> !InAgeRange(AGE_BUCKETS[j], ageSec.value)
    {
      if InAgeRange(AGE_BUCKETS[i], ageSec.value) {
        return AGE_BUCKETS[i].bucket;
      }
    }
    assert !InAgeRange(AGE_BUCKETS[0], ageSec.value) && !InAgeRange(AGE_BUCKETS[1], ageSec.value)
           && !InAgeRange(AGE_BUCKETS[2], ageSec.value);
    return Unknown;
  }

  function BucketOf(ageSec: Option<real>, censored: bool): Bucket {
    if censored || ageSec.None? || ageSec.value < 0.0 then Unknown
    else if ageSec.value < 30.0 then Young
    else if ageSec.value < 300.0 then Mid
    else Old
  }

  /** The ranges leave no gap and do not overlap: an age is in at most one of them, and
      in none only when it is negative. */
  lemma RangesPartition(age: real)
    ensures (exists i :: 0 <= i < |AGE_BUCKETS| && InAgeRange(AGE_BUCKETS[i], age)) <==> age >= 0.0
    ensures forall i, j :: 0 <= i < j < |AGE_BUCKETS| ==>
                             !(InAgeRange(AGE_BUCKETS[i], age) && InAgeRange(AGE_BUCKETS[j], age))
    ensures forall i :: 0 <= i < |AGE_BUCKETS| && InAgeRange(AGE_BUCKETS[i], age) ==>
                          AGE_BUCKETS[i].bucket == BucketOf(Some(age), false)
  {
    if age >= 0.0 {
      assert InAgeRange(AGE_BUCKETS[0], age) || InAgeRange(AGE_BUCKETS[1], age) || InAgeRange(AGE_BUCKETS[2], age);
    }
  }

  /** Young is below 30 s, mid below 300 s, old from there on. */
  lemma BucketIs(ageSec: Option<real>, censored: bool)
    ensures BucketOf(ageSec, censored).Unknown? <==> censored || ageSec.None? || ageSec.value < 0.0
    ensures BucketOf(ageSec, censored).Young? <==> !censored && ageSec.Some? && 0.0 <= ageSec.value < 30.0
    ensures BucketOf(ageSec, censored).Mid? <==> !censored && ageSec.Some? && 30.0 <= ageSec.value < 300.0
    ensures BucketOf(ageSec, censored).Old? <==> !censored && ageSec.Some? && 300.0 <= ageSec.value
  {
  }
}
