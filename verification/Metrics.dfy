/** The metrics registry: counters, gauges and histograms updated in place, and the bracket the
    HTTP interceptor puts around each request. Durations are whole milliseconds. */
module Metrics {

  const HTTP_DURATION_BUCKETS_MS: seq<int> := [50, 100, 250, 500, 1000, 2500, 5000]

  /** One observed duration of one series. */
  datatype Observation = Observation(key: string, duration: int)

  function CountOf(seen: seq<Observation>, key: string): nat {
    if seen == [] then 0
    else CountOf(seen[..|seen| - 1], key) + if seen[|seen| - 1].key == key then 1 else 0
  }

  function CountAtMost(seen: seq<Observation>, key: string, bound: int): nat {
    if seen == [] then 0
    else
      var last := seen[|seen| - 1];
      CountAtMost(seen[..|seen| - 1], key, bound) + if last.key == key && last.duration <= bound then 1 else 0
  }

  function SumOf(seen: seq<Observation>, key: string): int {
    if seen == [] then 0
    else SumOf(seen[..|seen| - 1], key) + if seen[|seen| - 1].key == key then seen[|seen| - 1].duration else 0
  }

  /** One more observation counts in its own series only, in the buckets that reach it. */
  lemma ObservedOnce(seen: seq<Observation>, o: Observation, key: string)
    ensures CountOf(seen + [o], key) == CountOf(seen, key) + (if o.key == key then 1 else 0)
    ensures SumOf(seen + [o], key) == SumOf(seen, key) + (if o.key == key then o.duration else 0)
  {
    assert (seen + [o])[..|seen|] == seen;
  }

  lemma BucketedOnce(seen: seq<Observation>, o: Observation, key: string, bound: int)
    ensures CountAtMost(seen + [o], key, bound)
         == CountAtMost(seen, key, bound) + (if o.key == key && o.duration <= bound then 1 else 0)
  {
    assert (seen + [o])[..|seen|] == seen;
  }

  /** Buckets are monotone in their bound, and none exceeds the number of observations, which is
      what the `+Inf` bucket and `_count` show. */
  lemma {:induction false} BucketsMonotone(seen: seq<Observation>, key: string, low: int, high: int)
    requires low <= high
    ensures CountAtMost(seen, key, low) <= CountAtMost(seen, key, high) <= CountOf(seen, key)
    ensures CountOf(seen, key) == 0 ==> SumOf(seen, key) == 0
  {
    if seen != [] {
      BucketsMonotone(seen[..|seen| - 1], key, low, high);
    }
  }

  ghost predicate BucketsAgree(buckets: map<string, seq<nat>>, bounds: seq<int>, seen: seq<Observation>) {
    forall k :: k in buckets ==> BucketsOk(buckets[k], bounds, seen, k)
  }

  ghost predicate SumsAgree(sums: map<string, int>, seen: seq<Observation>) {
    forall k :: (if k in sums then sums[k] else 0) == SumOf(seen, k)
  }

  ghost predicate CountsAgree(counts: map<string, nat>, seen: seq<Observation>) {
    forall k :: (if k in counts then counts[k] else 0) == CountOf(seen, k)
  }

  /** The stored numbers of a histogram are what its observations say. */
  ghost predicate Agrees(buckets: map<string, seq<nat>>, sums: map<string, int>, counts: map<string, nat>,
                         bounds: seq<int>, seen: seq<Observation>) {
    && buckets.Keys == sums.Keys == counts.Keys
    && BucketsAgree(buckets, bounds, seen) && SumsAgree(sums, seen) && CountsAgree(counts, seen)
  }

  predicate BucketsOk(values: seq<nat>, bounds: seq<int>, seen: seq<Observation>, key: string) {
    |values| == |bounds| && forall i :: 0 <= i < |bounds| ==> values[i] == CountAtMost(seen, key, bounds[i])
  }

  /** Each bucket whose bound reaches the duration goes up by one. */
  function Raised(values: seq<nat>, bounds: seq<int>, durationMs: int): seq<nat>
    requires |values| == |bounds|
  {
    seq(|values|, i requires 0 <= i < |values| => values[i] + if durationMs <= bounds[i] then 1 else 0)
  }

  function Zeros(n: nat): seq<nat> {
    seq(n, _ => 0)
  }

  lemma NothingSeen(seen: seq<Observation>, key: string, bounds: seq<int>)
    requires CountOf(seen, key) == 0
    ensures SumOf(seen, key) == 0 && BucketsOk(Zeros(|bounds|), bounds, seen, key)
  {
    BucketsMonotone(seen, key, 0, 0);
    forall i | 0 <= i < |bounds| ensures CountAtMost(seen, key, bounds[i]) == 0 {
      BucketsMonotone(seen, key, bounds[i], bounds[i]);
    }
  }

  lemma RaisedAgrees(values: seq<nat>, bounds: seq<int>, seen: seq<Observation>, o: Observation)
    requires BucketsOk(values, bounds, seen, o.key)
    ensures BucketsOk(Raised(values, bounds, o.duration), bounds, seen + [o], o.key)
  {
    forall i | 0 <= i < |bounds|
      ensures Raised(values, bounds, o.duration)[i] == CountAtMost(seen + [o], o.key, bounds[i])
    {
      BucketedOnce(seen, o, o.key, bounds[i]);
    }
  }

  lemma OthersAgree(values: seq<nat>, bounds: seq<int>, seen: seq<Observation>, o: Observation, key: string)
    requires BucketsOk(values, bounds, seen, key) && o.key != key
    ensures BucketsOk(values, bounds, seen + [o], key)
  {
    forall i | 0 <= i < |bounds| ensures values[i] == CountAtMost(seen + [o], key, bounds[i]) {
      BucketedOnce(seen, o, key, bounds[i]);
    }
  }

  lemma RaisedBucketsAgree(buckets: map<string, seq<nat>>, bounds: seq<int>, seen: seq<Observation>, o: Observation)
    requires BucketsAgree(buckets, bounds, seen) && (o.key !in buckets ==> CountOf(seen, o.key) == 0)
    ensures var old' := if o.key in buckets then buckets[o.key] else Zeros(|bounds|);
      |old'| == |bounds| && BucketsAgree(buckets[o.key := Raised(old', bounds, o.duration)], bounds, seen + [o])
  {
    if o.key !in buckets {
      NothingSeen(seen, o.key, bounds);
    }
    RaisedAgrees(if o.key in buckets then buckets[o.key] else Zeros(|bounds|), bounds, seen, o);
    forall k | k in buckets && k != o.key ensures BucketsOk(buckets[k], bounds, seen + [o], k) {
      OthersAgree(buckets[k], bounds, seen, o, k);
    }
  }

  lemma RaisedSumsAgree(sums: map<string, int>, seen: seq<Observation>, o: Observation)
    requires SumsAgree(sums, seen)
    ensures SumsAgree(RaisedSums(sums, o), seen + [o])
  {
    var after := RaisedSums(sums, o);
    forall k ensures (if k in after then after[k] else 0) == SumOf(seen + [o], k) {
      ObservedOnce(seen, o, k);
    }
  }

  lemma RaisedCountsAgree(counts: map<string, nat>, seen: seq<Observation>, o: Observation)
    requires CountsAgree(counts, seen)
    ensures CountsAgree(RaisedCounts(counts, o), seen + [o])
  {
    var after := RaisedCounts(counts, o);
    forall k ensures (if k in after then after[k] else 0) == CountOf(seen + [o], k) {
      ObservedOnce(seen, o, k);
    }
  }

  /** The numbers a histogram stores for its series. */
  datatype Numbers = Numbers(buckets: map<string, seq<nat>>, sums: map<string, int>, counts: map<string, nat>)

  predicate Lengths(buckets: map<string, seq<nat>>, bounds: seq<int>) {
    forall k :: k in buckets ==> |buckets[k]| == |bounds|
  }

  function RaisedIn(buckets: map<string, seq<nat>>, bounds: seq<int>, o: Observation): map<string, seq<nat>>
    requires Lengths(buckets, bounds)
  {
    buckets[o.key := Raised(if o.key in buckets then buckets[o.key] else Zeros(|bounds|), bounds, o.duration)]
  }

  function RaisedSums(sums: map<string, int>, o: Observation): map<string, int> {
    sums[o.key := (if o.key in sums then sums[o.key] else 0) + o.duration]
  }

  function RaisedCounts(counts: map<string, nat>, o: Observation): map<string, nat> {
    counts[o.key := (if o.key in counts then counts[o.key] else 0) + 1]
  }

  /** `observeHistogram` on the numbers: one series changes, or appears. */
  function Observed(n: Numbers, bounds: seq<int>, o: Observation): Numbers
    requires Lengths(n.buckets, bounds)
  {
    Numbers(RaisedIn(n.buckets, bounds, o), RaisedSums(n.sums, o), RaisedCounts(n.counts, o))
  }

  function AfterAll(bounds: seq<int>, seen: seq<Observation>): (n: Numbers)
    ensures Lengths(n.buckets, bounds)
  {
    if seen == [] then Numbers(map[], map[], map[])
    else Observed(AfterAll(bounds, seen[..|seen| - 1]), bounds, seen[|seen| - 1])
  }

  /** After any observations the stored numbers are what the observations say. */
  lemma {:induction false} NumbersAgree(bounds: seq<int>, seen: seq<Observation>)
    ensures var n := AfterAll(bounds, seen);
      Agrees(n.buckets, n.sums, n.counts, bounds, seen)
  {
    if seen != [] {
      var front, o := seen[..|seen| - 1], seen[|seen| - 1];
      var n := AfterAll(bounds, front);
      NumbersAgree(bounds, front);
      assert seen == front + [o];
      RaisedBucketsAgree(n.buckets, bounds, front, o);
      RaisedSumsAgree(n.sums, front, o);
      RaisedCountsAgree(n.counts, front, o);
    }
  }

  /** The bucket lines of one series: one value for each bound, then `+Inf`. */
  function Rendered(n: Numbers, key: string): seq<nat>
    requires key in n.buckets && key in n.counts
  {
    n.buckets[key] + [n.counts[key]]
  }

  /** For any sequence of observations and any series observed at least once: each rendered bucket
      counts exactly the observations of the series up to its bound, the buckets do not decrease
      with the bound, and the last one, `+Inf`, is the number of observations, which is `_count`. */
  lemma RenderedIsExact(bounds: seq<int>, seen: seq<Observation>, key: string)
    requires CountOf(seen, key) > 0
    ensures var n := AfterAll(bounds, seen);
      && key in n.buckets && key in n.counts && key in n.sums && |Rendered(n, key)| == |bounds| + 1
      && (forall i :: 0 <= i < |bounds| ==> Rendered(n, key)[i] == CountAtMost(seen, key, bounds[i]))
      && (forall i, j :: 0 <= i < |bounds| && 0 <= j < |bounds| && bounds[i] <= bounds[j] ==>
            Rendered(n, key)[i] <= Rendered(n, key)[j])
      && (forall i :: 0 <= i < |bounds| ==> Rendered(n, key)[i] <= Rendered(n, key)[|bounds|])
      && Rendered(n, key)[|bounds|] == n.counts[key] == CountOf(seen, key)
      && n.sums[key] == SumOf(seen, key)
  {
    NumbersAgree(bounds, seen);
    var n := AfterAll(bounds, seen);
    assert key in n.counts;
    assert BucketsOk(n.buckets[key], bounds, seen, key);
    forall i, j | 0 <= i < |bounds| && 0 <= j < |bounds| && bounds[i] <= bounds[j]
      ensures CountAtMost(seen, key, bounds[i]) <= CountAtMost(seen, key, bounds[j]) <= CountOf(seen, key)
    {
      BucketsMonotone(seen, key, bounds[i], bounds[j]);
    }
  }

  class Histogram {
    const bounds: seq<int>
    var bucketValues: map<string, array<nat>>
    var sumValues: map<string, int>
    var countValues: map<string, nat>

    ghost function Arrays(): set<array<nat>>
      reads this`bucketValues
    {
      set k | k in bucketValues :: bucketValues[k]
    }

    /** No two series share an array of buckets. */
    ghost predicate Unshared()
      reads this`bucketValues
    {
      forall j, k :: j in bucketValues && k in bucketValues && j != k ==> bucketValues[j] != bucketValues[k]
    }

    ghost predicate RightLengths()
      reads this`bucketValues
    {
      forall k :: k in bucketValues ==> bucketValues[k].Length == |bounds|
    }

    ghost predicate Valid()
      reads this
    {
      Unshared() && RightLengths() && bucketValues.Keys == countValues.Keys
    }

    ghost function Buckets(): (b: map<string, seq<nat>>)
      reads this`bucketValues, Arrays()
      ensures RightLengths() ==> Lengths(b, bounds)
    {
      map k | k in bucketValues :: bucketValues[k][..]
    }

    ghost function Contents(): Numbers
      reads this, Arrays()
    {
      Numbers(Buckets(), sumValues, countValues)
    }

    constructor (bounds: seq<int>)
      ensures Valid() && this.bounds == bounds && fresh(Arrays()) && Contents() == AfterAll(bounds, [])
    {
      this.bounds := bounds;
      bucketValues, sumValues, countValues := map[], map[], map[];
    }

    /** The buckets of one series, raised in place. */
    method RaiseBuckets(buckets: array<nat>, durationMs: int)
      requires buckets.Length == |bounds|
      modifies buckets
      ensures buckets[..] == Raised(old(buckets[..]), bounds, durationMs)
    {
      for index := 0 to |bounds|
        invariant forall i :: 0 <= i < index ==> buckets[i] == Raised(old(buckets[..]), bounds, durationMs)[i]
        invariant forall i :: index <= i < |bounds| ==> buckets[i] == old(buckets[i])
      {
        if durationMs <= bounds[index] {
          buckets[index] := buckets[index] + 1;
        }
      }
    }

    /** The series' array after one more duration; it is a new array for a new series. */
    method RaisedBuckets(key: string, durationMs: int) returns (buckets: array<nat>)
      requires Unshared() && RightLengths()
      modifies Arrays()
      ensures if key in bucketValues then buckets == bucketValues[key] else fresh(buckets)
      ensures
        var before := if key in bucketValues then old(bucketValues[key][..]) else Zeros(|bounds|);
        buckets[..] == Raised(before, bounds, durationMs)
      ensures forall k :: k in bucketValues && k != key ==> bucketValues[k][..] == old(bucketValues[k][..])
    {
      if key in bucketValues {
        buckets := bucketValues[key];
      } else {
        buckets := new nat[|bounds|](_ => 0);
        assert buckets[..] == Zeros(|bounds|);
      }
      RaiseBuckets(buckets, durationMs);
    }

    method StoreBuckets(key: string, durationMs: int)
      requires Unshared() && RightLengths()
      modifies this`bucketValues, Arrays()
      ensures Unshared() && RightLengths() && bucketValues.Keys == old(bucketValues.Keys) + {key}
      ensures Buckets() == RaisedIn(old(Buckets()), bounds, Observation(key, durationMs))
      ensures fresh(Arrays() - old(Arrays()))
    {
      ghost var before := Buckets();
      var buckets := RaisedBuckets(key, durationMs);
      bucketValues := bucketValues[key := buckets];
      assert Buckets() == before[key := buckets[..]];
    }

    method StoreTotals(key: string, durationMs: int)
      modifies this`sumValues, this`countValues
      ensures sumValues == RaisedSums(old(sumValues), Observation(key, durationMs))
      ensures countValues == RaisedCounts(old(countValues), Observation(key, durationMs))
    {
      sumValues := sumValues[key := (if key in sumValues then sumValues[key] else 0) + durationMs];
      countValues := countValues[key := (if key in countValues then countValues[key] else 0) + 1];
    }

    /** `observeHistogram`. */
    method Observe(key: string, durationMs: int)
      requires Valid()
      modifies this, Arrays()
      ensures Valid() && fresh(Arrays() - old(Arrays()))
      ensures Contents() == Observed(old(Contents()), bounds, Observation(key, durationMs))
    {
      StoreBuckets(key, durationMs);
      StoreTotals(key, durationMs);
    }

    /** The bucket lines of one series as `render` prints them. */
    method RenderSeries(key: string) returns (values: seq<nat>)
      requires Valid() && key in bucketValues
      ensures values == Rendered(Contents(), key)
    {
      values := [];
      for index := 0 to |bounds|
        invariant values == bucketValues[key][..index]
      {
        values := values + [bucketValues[key][index]];
      }
      values := values + [countValues[key]];
    }
  }
}
