/** The mergeable latency histogram and its quantile bounds. Durations are reals, in seconds. */
module Histogram {
  import opened Basics

  /** Bucket bounds in milliseconds, ascending; one more bucket holds what exceeds them all. */
  type Bounds = bs: seq<int> | forall i, j :: 0 <= i < j < |bs| ==> bs[i] < bs[j] witness []

  /** The bounds of the program. */
  const LATENCY_BUCKETS_MS: Bounds := [1, 5, 10, 25, 50, 100, 250, 500, 1000, 2500, 5000, 10000, 30000]

  datatype Dist = Dist(count: nat, total: real, minimum: Option<real>, maximum: Option<real>, buckets: seq<nat>)

  // ----- What a distribution stands for, told from its samples

  /** The first bucket from `k` on whose bound is not exceeded. */
  function BucketFrom(bs: Bounds, milliseconds: real, k: nat): (b: nat)
    requires k < |bs| + 1
    ensures k <= b < |bs| + 1
    ensures forall i :: k <= i < b ==> milliseconds > bs[i] as real
    ensures b < |bs| ==> milliseconds <= bs[b] as real
    decreases |bs| + 1 - k
  {
    if k < |bs| && milliseconds > bs[k] as real then BucketFrom(bs, milliseconds, k + 1) else k
  }

  function BucketOf(bs: Bounds, seconds: real): nat {
    BucketFrom(bs, seconds * 1000.0, 0)
  }

  function Sum(xs: seq<real>): real {
    if xs == [] then 0.0 else Sum(xs[..|xs| - 1]) + xs[|xs| - 1]
  }

  function Least(xs: seq<real>): Option<real> {
    if xs == [] then None
    else
      var rest := Least(xs[..|xs| - 1]);
      Some(if rest.None? then xs[|xs| - 1] else Min(rest.value, xs[|xs| - 1]))
  }

  function Greatest(xs: seq<real>): Option<real> {
    if xs == [] then None
    else
      var rest := Greatest(xs[..|xs| - 1]);
      Some(if rest.None? then xs[|xs| - 1] else Max(rest.value, xs[|xs| - 1]))
  }

  /** How many samples fall into bucket `k`. */
  function CountIn(bs: Bounds, xs: seq<real>, k: nat): nat {
    if xs == [] then 0
    else CountIn(bs, xs[..|xs| - 1], k) + (if BucketOf(bs, xs[|xs| - 1]) == k then 1 else 0)
  }

  function Tally(bs: Bounds, xs: seq<real>): Dist {
    Dist(|xs|, Sum(xs), Least(xs), Greatest(xs), seq(|bs| + 1, k requires 0 <= k => CountIn(bs, xs, k)))
  }

  function Empty(bs: Bounds): Dist {
    Dist(0, 0.0, None, None, seq(|bs| + 1, _ => 0))
  }

  lemma EmptyTally(bs: Bounds)
    ensures Tally(bs, []) == Empty(bs)
  {
  }

  /** `Least` really is the minimum of the samples, and `Greatest` the maximum. */
  lemma {:induction false} ExtremesAreAttained(xs: seq<real>)
    requires xs != []
    ensures Least(xs).Some? && Least(xs).value in xs && forall x :: x in xs ==> Least(xs).value <= x
    ensures Greatest(xs).Some? && Greatest(xs).value in xs && forall x :: x in xs ==> x <= Greatest(xs).value
  {
    var init, x := xs[..|xs| - 1], xs[|xs| - 1];
    assert xs == init + [x];
    OneMoreSample(init, x);
    if init != [] {
      ExtremesAreAttained(init);
    }
  }

  lemma OneMoreSample(xs: seq<real>, x: real)
    ensures forall y :: y in xs + [x] <==> y in xs || y == x
  {
  }

  // ----- The operations, as the program computes them

  function LesserOf(a: Option<real>, b: Option<real>): Option<real> {
    if b.None? then a else if a.None? then b else Some(Min(a.value, b.value))
  }

  function GreaterOf(a: Option<real>, b: Option<real>): Option<real> {
    if b.None? then a else if a.None? then b else Some(Max(a.value, b.value))
  }

  function Observed(bs: Bounds, d: Dist, seconds: real): Dist
    requires |d.buckets| == |bs| + 1
  {
    var x := Max(seconds, 0.0);
    var k := BucketOf(bs, x);
    Dist(d.count + 1, d.total + x, LesserOf(d.minimum, Some(x)), GreaterOf(d.maximum, Some(x)),
         d.buckets[k := d.buckets[k] + 1])
  }

  function Merged(bs: Bounds, a: Dist, b: Dist): Dist
    requires |a.buckets| == |b.buckets| == |bs| + 1
  {
    if b.count == 0 then a
    else
      Dist(a.count + b.count, a.total + b.total, LesserOf(a.minimum, b.minimum), GreaterOf(a.maximum, b.maximum),
           seq(|bs| + 1, k requires 0 <= k < |bs| + 1 => a.buckets[k] + b.buckets[k]))
  }

  lemma ObserveTally(bs: Bounds, xs: seq<real>, seconds: real)
    ensures Observed(bs, Tally(bs, xs), seconds) == Tally(bs, xs + [Max(seconds, 0.0)])
  {
    var x := Max(seconds, 0.0);
    var ys := xs + [x];
    assert ys[..|xs|] == xs;
    forall k | 0 <= k < |bs| + 1 ensures Observed(bs, Tally(bs, xs), seconds).buckets[k] == CountIn(bs, ys, k) {
    }
    assert Observed(bs, Tally(bs, xs), seconds).buckets == Tally(bs, ys).buckets;
  }

  lemma {:induction false} TallyOfConcat(bs: Bounds, xs: seq<real>, ys: seq<real>)
    ensures Sum(xs + ys) == Sum(xs) + Sum(ys)
    ensures Least(xs + ys) == LesserOf(Least(xs), Least(ys))
    ensures Greatest(xs + ys) == GreaterOf(Greatest(xs), Greatest(ys))
    ensures forall k: nat :: CountIn(bs, xs + ys, k) == CountIn(bs, xs, k) + CountIn(bs, ys, k)
  {
    if ys == [] {
      assert xs + ys == xs;
    } else {
      var n := |ys| - 1;
      TallyOfConcat(bs, xs, ys[..n]);
      assert (xs + ys)[..|xs| + n] == xs + ys[..n];
      assert (xs + ys)[|xs| + n] == ys[n];
    }
  }

  /** Merging two distributions gives the distribution of both sample lists together. */
  lemma MergeTally(bs: Bounds, xs: seq<real>, ys: seq<real>)
    ensures Merged(bs, Tally(bs, xs), Tally(bs, ys)) == Tally(bs, xs + ys)
  {
    TallyOfConcat(bs, xs, ys);
    if ys == [] {
      assert xs + ys == xs;
    } else {
      assert Merged(bs, Tally(bs, xs), Tally(bs, ys)).buckets == Tally(bs, xs + ys).buckets;
    }
  }

  // ----- Quantiles

  /** How many samples lie in the buckets up to and including `k`. */
  function UpTo(bs: Bounds, xs: seq<real>, k: nat): nat {
    if k == 0 then CountIn(bs, xs, 0) else UpTo(bs, xs, k - 1) + CountIn(bs, xs, k)
  }

  /** How many samples are at most `bound` milliseconds. */
  function AtMost(xs: seq<real>, bound: int): nat {
    if xs == [] then 0
    else AtMost(xs[..|xs| - 1], bound) + (if xs[|xs| - 1] * 1000.0 <= bound as real then 1 else 0)
  }

  lemma {:induction false} UpToStep(bs: Bounds, xs: seq<real>, k: nat)
    requires xs != []
    ensures UpTo(bs, xs, k) == UpTo(bs, xs[..|xs| - 1], k) + (if BucketOf(bs, xs[|xs| - 1]) <= k then 1 else 0)
  {
    if k > 0 {
      UpToStep(bs, xs, k - 1);
    }
  }

  /** The buckets up to `k` hold exactly the samples up to that bucket's bound; all buckets hold all samples. */
  lemma {:induction false} BucketsCountSamples(bs: Bounds, xs: seq<real>, k: nat)
    requires k < |bs| + 1
    ensures k < |bs| ==> UpTo(bs, xs, k) == AtMost(xs, bs[k])
    ensures k == |bs| ==> UpTo(bs, xs, k) == |xs|
  {
    if xs == [] {
      NoSamples(bs, k);
    } else {
      BucketsCountSamples(bs, xs[..|xs| - 1], k);
      UpToStep(bs, xs, k);
    }
  }

  lemma {:induction false} NoSamples(bs: Bounds, k: nat)
    ensures UpTo(bs, [], k) == 0
  {
    if k > 0 {
      NoSamples(bs, k - 1);
    }
  }

  lemma {:induction false} UpToGrows(bs: Bounds, xs: seq<real>, j: nat, k: nat)
    requires j <= k
    ensures UpTo(bs, xs, j) <= UpTo(bs, xs, k)
  {
    if j < k {
      UpToGrows(bs, xs, j, k - 1);
    }
  }

  /** ceil(count * percent / 100), exactly. */
  function Target(count: nat, percent: nat): nat {
    (count * percent + 99) / 100
  }

  /** Bucket `k` is the first that covers `percent` percent of the samples, rounded up. */
  ghost predicate IsQuantile(bs: Bounds, xs: seq<real>, percent: nat, k: nat) {
    && k < |bs| + 1
    && UpTo(bs, xs, k) >= Target(|xs|, percent)
    && (k > 0 ==> UpTo(bs, xs, k - 1) < Target(|xs|, percent))
  }

  /** The target is the least count that is at least `percent` percent of all samples. */
  lemma TargetIsCeiling(count: nat, percent: nat, n: nat)
    ensures n * 100 >= count * percent <==> n >= Target(count, percent)
  {
  }

  lemma TargetGrows(count: nat, p: nat, q: nat)
    requires p <= q
    ensures Target(count, p) <= Target(count, q)
  {
    ScaleGrows(count, p, q);
  }

  lemma ScaleGrows(count: nat, p: nat, q: nat)
    requires p <= q
    ensures count * p <= count * q
  {
    assert count * q - count * p == count * (q - p);
  }

  /** A larger quantile never has a smaller bound: p50 <= p95 <= p99. */
  lemma QuantilesAreOrdered(bs: Bounds, xs: seq<real>, p: nat, j: nat, q: nat, k: nat)
    requires p <= q && IsQuantile(bs, xs, p, j) && IsQuantile(bs, xs, q, k)
    ensures j <= k
  {
    TargetGrows(|xs|, p, q);
    if k < j {
      UpToGrows(bs, xs, k, j - 1);
    }
  }

  /** In milliseconds: the reported bound covers the target, and no smaller bound does. */
  lemma QuantileInMilliseconds(bs: Bounds, xs: seq<real>, percent: nat, k: nat)
    requires IsQuantile(bs, xs, percent, k)
    ensures k < |bs| ==> AtMost(xs, bs[k]) >= Target(|xs|, percent)
    ensures forall i :: 0 <= i < k ==> AtMost(xs, bs[i]) < Target(|xs|, percent)
  {
    BucketsCountSamples(bs, xs, k);
    forall i | 0 <= i < k ensures AtMost(xs, bs[i]) < Target(|xs|, percent) {
      UpToGrows(bs, xs, i, k - 1);
      BucketsCountSamples(bs, xs, i);
    }
  }

  // ----- The object of the program

  datatype UpperBound = Milliseconds(ms: int) | Infinite

  class LatencyDistribution {
    const bounds: Bounds
    var count: nat
    var totalSeconds: real
    var minimumSeconds: Option<real>
    var maximumSeconds: Option<real>
    var buckets: seq<nat>
    ghost var samples: seq<real>

    ghost function Value(): Dist
      reads this
    {
      Dist(count, totalSeconds, minimumSeconds, maximumSeconds, buckets)
    }

    ghost predicate Valid()
      reads this
    {
      Value() == Tally(bounds, samples)
    }

    constructor (bounds: Bounds)
      ensures Valid() && this.bounds == bounds && samples == []
    {
      this.bounds := bounds;
      count, totalSeconds, minimumSeconds, maximumSeconds := 0, 0.0, None, None;
      buckets := seq(|bounds| + 1, _ => 0);
      samples := [];
    }

    method Observe(seconds: real)
      requires Valid()
      modifies this
      ensures Valid()
      ensures samples == old(samples) + [Max(seconds, 0.0)]
    {
      ObserveTally(bounds, samples, seconds);
      var x := Max(seconds, 0.0);
      count := count + 1;
      totalSeconds := totalSeconds + x;
      minimumSeconds := if minimumSeconds.None? then Some(x) else Some(Min(minimumSeconds.value, x));
      maximumSeconds := if maximumSeconds.None? then Some(x) else Some(Max(maximumSeconds.value, x));
      var index := 0;
      while index < |bounds|
        invariant 0 <= index <= BucketOf(bounds, x)
      {
        if x * 1000.0 <= bounds[index] as real {
          break;
        }
        index := index + 1;
      }
      assert index == BucketOf(bounds, x);
      buckets := buckets[index := buckets[index] + 1];
      samples := samples + [x];
    }

    /** `other` may be this very object. */
    method Merge(other: LatencyDistribution)
      requires Valid() && other.Valid() && other.bounds == bounds
      modifies this
      ensures Valid()
      ensures samples == old(samples) + old(other.samples)
    {
      MergeTally(bounds, samples, other.samples);
      if other.count == 0 {
        assert other.samples == [];
        return;
      }
      ghost var merged := Merged(bounds, Value(), other.Value());
      var least, greatest := LesserOf(minimumSeconds, other.minimumSeconds), GreaterOf(maximumSeconds, other.maximumSeconds);
      var ours, theirs := buckets, other.buckets;
      samples := samples + other.samples;
      count := count + other.count;
      totalSeconds := totalSeconds + other.totalSeconds;
      minimumSeconds := least;
      maximumSeconds := greatest;
      buckets := seq(|bounds| + 1, k requires 0 <= k < |bounds| + 1 => ours[k] + theirs[k]);
      assert Value() == merged;
    }

    /** The least bucket bound that covers the quantile; the loop always finds one. */
    method QuantileUpperBound(percent: nat) returns (bound: Option<UpperBound>)
      requires Valid() && 1 <= percent <= 100
      ensures bound.None? <==> samples == []
      ensures bound.Some? ==>
                exists k: nat :: IsQuantile(bounds, samples, percent, k) &&
                  bound.value == if k < |bounds| then Milliseconds(bounds[k]) else Infinite
    {
      if count == 0 {
        return None;
      }
      var target := (count * percent + 99) / 100;
      var cumulative, k := 0, 0;
      while k < |bounds| + 1
        invariant k <= |bounds| + 1
        invariant cumulative == if k == 0 then 0 else UpTo(bounds, samples, k - 1)
        invariant k > 0 ==> cumulative < target
      {
        cumulative := cumulative + buckets[k];
        if cumulative >= target {
          assert IsQuantile(bounds, samples, percent, k);
          return Some(if k < |bounds| then Milliseconds(bounds[k]) else Infinite);
        }
        k := k + 1;
      }
      BucketsCountSamples(bounds, samples, |bounds|);
      ScaleGrows(count, percent, 100);
      assert false;
    }
  }
}
