/**
 * Latency histograms: computeLatencyBuckets of internal/admin/accumulator.go,
 * and the merge over instances and histogramPercentile of
 * internal/studio/usage.go. Latencies are reals: rounding is not the point.
 */
module Histogram {

  /** LatencyBucketBounds, in milliseconds; one more bucket takes what is above the last. */
  const BOUNDS: seq<real> := [10.0, 50.0, 100.0, 250.0, 500.0, 1000.0, 5000.0]

  const BUCKETS := 8

  /** The first bucket whose bound is not below v. */
  function BucketOf(v: real): (i: nat)
    ensures i < BUCKETS
    ensures i < |BOUNDS| ==> v <= BOUNDS[i]
    ensures forall j :: 0 <= j < i ==> BOUNDS[j] < v
  {
    if v <= 10.0 then 0 else if v <= 50.0 then 1 else if v <= 100.0 then 2 else if v <= 250.0 then 3
    else if v <= 500.0 then 4 else if v <= 1000.0 then 5 else if v <= 5000.0 then 6 else 7
  }

  /** How many of the latencies satisfy p. */
  function CountWhere(latencies: seq<real>, p: real -> bool): nat {
    if latencies == [] then 0
    else CountWhere(latencies[..|latencies| - 1], p) + if p(latencies[|latencies| - 1]) then 1 else 0
  }

  lemma {:induction false} CountOfSum(a: seq<real>, b: seq<real>, p: real -> bool)
    ensures CountWhere(a + b, p) == CountWhere(a, p) + CountWhere(b, p)
  {
    if b == [] {
      assert a + b == a;
    } else {
      assert (a + b)[..|a + b| - 1] == a + b[..|b| - 1];
      CountOfSum(a, b[..|b| - 1], p);
    }
  }

  lemma {:induction false} CountMonotone(latencies: seq<real>, p: real -> bool, q: real -> bool)
    requires forall v :: p(v) ==> q(v)
    ensures CountWhere(latencies, p) <= CountWhere(latencies, q)
  {
    if latencies != [] { CountMonotone(latencies[..|latencies| - 1], p, q); }
  }

  lemma {:induction false} CountAll(latencies: seq<real>, p: real -> bool)
    requires forall v :: p(v)
    ensures CountWhere(latencies, p) == |latencies|
  {
    if latencies != [] { CountAll(latencies[..|latencies| - 1], p); }
  }

  /** counts[i] is the number of latencies in bucket i. */
  predicate IsHistogram(counts: seq<nat>, latencies: seq<real>) {
    |counts| == BUCKETS && forall i :: 0 <= i < BUCKETS ==> counts[i] == CountWhere(latencies, v => BucketOf(v) == i)
  }

  method ComputeLatencyBuckets(latencies: seq<real>) returns (counts: seq<nat>)
    ensures IsHistogram(counts, latencies)
  {
    counts := seq(BUCKETS, _ => 0);
    for n := 0 to |latencies|
      invariant |counts| == BUCKETS
      invariant forall i :: 0 <= i < BUCKETS ==> counts[i] == CountWhere(latencies[..n], v => BucketOf(v) == i)
    {
      var v := latencies[n];
      assert latencies[..n + 1][..n] == latencies[..n];
      var i := 0;
      while i < |BOUNDS| && !(v <= BOUNDS[i])
        invariant i <= |BOUNDS|
        invariant forall j :: 0 <= j < i ==> BOUNDS[j] < v
      {
        i := i + 1;
      }
      assert i == BucketOf(v) by {
        SameBucket(v, i);
      }
      counts := counts[i := counts[i] + 1];
    }
    assert latencies[..|latencies|] == latencies;
  }

  lemma SameBucket(v: real, i: nat)
    requires i < BUCKETS && (i < |BOUNDS| ==> v <= BOUNDS[i]) && forall j :: 0 <= j < i ==> BOUNDS[j] < v
    ensures i == BucketOf(v)
  {
  }

  // ----- Merging instances -----

  function Add(a: seq<nat>, b: seq<nat>): (c: seq<nat>)
    requires |a| == |b|
    ensures |c| == |a| && forall i :: 0 <= i < |a| ==> c[i] == a[i] + b[i]
  {
    seq(|a|, i requires 0 <= i < |a| => a[i] + b[i])
  }

  function Flatten(parts: seq<seq<real>>): seq<real> {
    if parts == [] then [] else Flatten(parts[..|parts| - 1]) + parts[|parts| - 1]
  }

  lemma HistogramsAdd(c: seq<nat>, a: seq<real>, d: seq<nat>, b: seq<real>)
    requires IsHistogram(c, a) && IsHistogram(d, b)
    ensures IsHistogram(Add(c, d), a + b)
  {
    forall i | 0 <= i < BUCKETS ensures Add(c, d)[i] == CountWhere(a + b, v => BucketOf(v) == i) {
      CountOfSum(a, b, v => BucketOf(v) == i);
    }
  }

  /** The merge loop of usage: rows of any length, counted up to the number of buckets. */
  method Merge(rows: seq<seq<nat>>) returns (counts: seq<nat>)
    ensures |counts| == BUCKETS
    ensures forall parts: seq<seq<real>> ::
      |parts| == |rows| && (forall n :: 0 <= n < |rows| ==> IsHistogram(rows[n], parts[n])) ==>
        IsHistogram(counts, Flatten(parts))
  {
    counts := seq(BUCKETS, _ => 0);
    ghost var sum := counts;
    for n := 0 to |rows|
      invariant |counts| == BUCKETS
      invariant forall parts: seq<seq<real>> ::
        |parts| == n && (forall m :: 0 <= m < n ==> IsHistogram(rows[m], parts[m])) ==>
          IsHistogram(counts, Flatten(parts))
    {
      ghost var before := counts;
      var row := rows[n];
      for i := 0 to |row|
        invariant |counts| == BUCKETS
        invariant forall j :: 0 <= j < BUCKETS ==> counts[j] == before[j] + if j < i then row[j] else 0
      {
        if i < BUCKETS {
          counts := counts[i := counts[i] + row[i]];
        }
      }
      hide IsHistogram;
      forall parts: seq<seq<real>> | |parts| == n + 1 && forall m :: 0 <= m < n + 1 ==> IsHistogram(rows[m], parts[m])
        ensures IsHistogram(counts, Flatten(parts))
      {
        assert forall m :: 0 <= m < n ==> parts[..n][m] == parts[m];
        assert IsHistogram(before, Flatten(parts[..n]));
        HistogramsAdd(before, Flatten(parts[..n]), row, parts[n]);
        assert counts == Add(before, row);
      }
    }
  }

  // ----- The percentile -----

  function Total(counts: seq<nat>): nat {
    if counts == [] then 0 else Total(counts[..|counts| - 1]) + counts[|counts| - 1]
  }

  /** k, for the p-th quantile of total values: total * p, rounded half up. */
  function Target(total: nat, p: real): int {
    (total as real * p + 0.5).Floor
  }

  function BoundOf(i: nat): real {
    if i < |BOUNDS| then BOUNDS[i] else BOUNDS[|BOUNDS| - 1]
  }

  /** How many values the buckets up to j hold. */
  function Seen(counts: seq<nat>, j: nat): nat
    requires j < |counts|
  {
    Total(counts[..j + 1])
  }

  /** i is the first bucket by which target values have been seen; BUCKETS when there is none. */
  ghost predicate Reaches(counts: seq<nat>, target: int, i: nat) {
    && i <= |counts|
    && (forall j: nat :: j < i ==> Seen(counts, j) < target)
    && (i < |counts| ==> Seen(counts, i) >= target)
  }

  function Reported(counts: seq<nat>, i: nat): real {
    if i < |counts| then BoundOf(i) else BOUNDS[|BOUNDS| - 1]
  }

  /** The first bound that is not below v; the last bound, when v is above them all. */
  ghost predicate IsBoundFor(r: real, v: real) {
    || (BOUNDS[|BOUNDS| - 1] < v && r == BOUNDS[|BOUNDS| - 1])
    || exists i :: 0 <= i < |BOUNDS| && r == BOUNDS[i] && v <= BOUNDS[i] && forall j :: 0 <= j < i ==> BOUNDS[j] < v
  }

  /** k is total * p rounded to the nearest integer, of two the greater. */
  ghost predicate IsRank(k: int, total: nat, p: real) {
    k as real <= total as real * p + 0.5 < (k + 1) as real
  }

  /** What the bucket that is reached says of any latencies the buckets count. */
  lemma ReachedIsRight(counts: seq<nat>, p: real, i: nat)
    requires Total(counts) > 0 && Reaches(counts, Target(Total(counts), p), i)
    ensures forall latencies, k, v ::
              IsHistogram(counts, latencies) && IsRank(k, |latencies|, p) && IsKthSmallest(latencies, k, v) ==>
                IsBoundFor(Reported(counts, i), v)
    ensures Total(counts) as real * p < 0.5 ==> Reported(counts, i) == BOUNDS[0]
  {
    forall latencies, k, v | IsHistogram(counts, latencies) && IsRank(k, |latencies|, p) && IsKthSmallest(latencies, k, v)
      ensures IsBoundFor(Reported(counts, i), v)
    {
      hide IsHistogram, IsKthSmallest, Reaches, Reported, IsBoundFor, BoundOf;
      RankIsTarget(k, |latencies|, p);
      PercentileIsRight(counts, latencies, p, v, i);
      BoundIsFor(v);
    }
    hide IsHistogram, IsKthSmallest, IsRank, IsBoundFor;
    FirstWhenRankLow(counts, p, i);
  }

  lemma RankIsTarget(k: int, total: nat, p: real)
    requires IsRank(k, total, p)
    ensures k == Target(total, p)
  {
  }

  lemma FirstWhenRankLow(counts: seq<nat>, p: real, i: nat)
    requires Total(counts) > 0 && Reaches(counts, Target(Total(counts), p), i)
    ensures Total(counts) as real * p < 0.5 ==> Reported(counts, i) == BOUNDS[0]
  {
    assert counts != [];
    RankLow(Total(counts) as real * p);
    assert i > 0 ==> Seen(counts, 0) < Target(Total(counts), p);
    hide Total;
  }

  lemma RankLow(x: real)
    ensures x < 0.5 ==> (x + 0.5).Floor <= 0
  {
  }

  lemma BoundIsFor(v: real)
    ensures IsBoundFor(BoundOf(BucketOf(v)), v)
  {
    if BucketOf(v) < |BOUNDS| {
      assert BoundOf(BucketOf(v)) == BOUNDS[BucketOf(v)];
    }
  }

  method HistogramPercentile(counts: seq<nat>, p: real) returns (r: real)
    ensures Total(counts) == 0 ==> r == 0.0
    ensures Total(counts) > 0 ==> exists i: nat :: Reaches(counts, Target(Total(counts), p), i) && r == Reported(counts, i)
    ensures forall latencies, k, v ::
              IsHistogram(counts, latencies) && IsRank(k, |latencies|, p) && IsKthSmallest(latencies, k, v) ==>
                IsBoundFor(r, v)
    ensures Total(counts) > 0 && Total(counts) as real * p < 0.5 ==> r == BOUNDS[0]
  {
    ZeroHasNoRank(counts);
    hide IsHistogram, IsKthSmallest, IsRank, IsBoundFor;
    var total := 0;
    for i := 0 to |counts|
      invariant total == Total(counts[..i])
    {
      assert counts[..i + 1][..i] == counts[..i];
      total := total + counts[i];
    }
    assert counts[..|counts|] == counts;
    if total == 0 {
      return 0.0;
    }
    var target := Target(total, p);
    var seen := 0;
    for i := 0 to |counts|
      invariant seen == Total(counts[..i])
      invariant forall j: nat :: j < i ==> Seen(counts, j) < target
    {
      assert counts[..i + 1][..i] == counts[..i];
      seen := seen + counts[i];
      assert seen == Seen(counts, i);
      if seen >= target {
        assert Reaches(counts, target, i);
        ReachedIsRight(counts, p, i);
        return BoundOf(i);
      }
    }
    assert Reaches(counts, target, |counts|);
    ReachedIsRight(counts, p, |counts|);
    return BOUNDS[|BOUNDS| - 1];
  }

  lemma ZeroHasNoRank(counts: seq<nat>)
    ensures Total(counts) == 0 ==> forall latencies, k, v :: IsHistogram(counts, latencies) ==> !IsKthSmallest(latencies, k, v)
  {
    if Total(counts) == 0 {
      forall latencies, k, v | IsHistogram(counts, latencies) ensures !IsKthSmallest(latencies, k, v) {
        TotalOfHistogram(counts, latencies);
      }
    }
  }

  /** v is the k-th smallest of the latencies. */
  ghost predicate IsKthSmallest(latencies: seq<real>, k: int, v: real) {
    CountWhere(latencies, x => x < v) < k <= CountWhere(latencies, x => x <= v)
  }

  /** The first buckets together hold the latencies up to their bound. */
  lemma {:induction false} Cumulative(counts: seq<nat>, latencies: seq<real>, n: nat)
    requires IsHistogram(counts, latencies) && n <= BUCKETS
    ensures Total(counts[..n]) == CountWhere(latencies, v => BucketOf(v) < n)
  {
    if n == 0 {
      CountNone(latencies, v => BucketOf(v) < 0);
    } else {
      Cumulative(counts, latencies, n - 1);
      assert counts[..n][..n - 1] == counts[..n - 1];
      CountSplit(latencies, n - 1);
    }
  }

  lemma {:induction false} CountNone(latencies: seq<real>, p: real -> bool)
    requires forall v :: !p(v)
    ensures CountWhere(latencies, p) == 0
  {
    if latencies != [] { CountNone(latencies[..|latencies| - 1], p); }
  }

  lemma {:induction false} CountSplit(latencies: seq<real>, n: nat)
    ensures CountWhere(latencies, v => BucketOf(v) < n + 1) ==
            CountWhere(latencies, v => BucketOf(v) < n) + CountWhere(latencies, v => BucketOf(v) == n)
  {
    if latencies != [] { CountSplit(latencies[..|latencies| - 1], n); }
  }

  lemma TotalOfHistogram(counts: seq<nat>, latencies: seq<real>)
    requires IsHistogram(counts, latencies)
    ensures Total(counts) == |latencies|
  {
    Cumulative(counts, latencies, BUCKETS);
    assert counts[..BUCKETS] == counts;
    CountAll(latencies, v => BucketOf(v) < BUCKETS);
  }

  /**
   * The percentile is right: it is the bound of the bucket that holds the k-th
   * smallest latency, or the last bound when that one is above them all.
   */
  lemma PercentileIsRight(counts: seq<nat>, latencies: seq<real>, p: real, v: real, i: nat)
    requires IsHistogram(counts, latencies)
    requires IsKthSmallest(latencies, Target(|latencies|, p), v)
    requires Reaches(counts, Target(Total(counts), p), i)
    ensures i == BucketOf(v)
    ensures Reported(counts, i) == BoundOf(BucketOf(v)) && (v <= BOUNDS[|BOUNDS| - 1] ==> v <= Reported(counts, i))
  {
    TotalOfHistogram(counts, latencies);
    var k, b := Target(|latencies|, p), BucketOf(v);
    CountMonotone(latencies, x => x <= v, x => BucketOf(x) < b + 1);
    Cumulative(counts, latencies, b + 1);
    CountMonotone(latencies, x => BucketOf(x) < b, x => x < v);
    Cumulative(counts, latencies, b);
    var seen := Seen(counts, b);
    assert seen == Total(counts[..b + 1]) >= k;
    if i < b {
      TotalGrows(counts, i + 1, b);
    }
  }

  lemma {:induction false} TotalGrows(counts: seq<nat>, i: nat, j: nat)
    requires i <= j <= |counts|
    ensures Total(counts[..i]) <= Total(counts[..j])
  {
    if i < j {
      TotalGrows(counts, i, j - 1);
      assert counts[..j][..j - 1] == counts[..j - 1];
    }
  }

  lemma {:induction false} CountPositive(latencies: seq<real>, p: real -> bool)
    ensures CountWhere(latencies, p) > 0 <==> exists v :: v in latencies && p(v)
  {
    if latencies != [] {
      var n := |latencies| - 1;
      CountPositive(latencies[..n], p);
      assert latencies == latencies[..n] + [latencies[n]];
      forall v ensures v in latencies <==> v in latencies[..n] || v == latencies[n] {}
    }
  }

  /** The smallest of the latencies that satisfy p. */
  lemma {:induction false} Least(latencies: seq<real>, p: real -> bool) returns (v: real)
    requires exists x :: x in latencies && p(x)
    ensures v in latencies && p(v) && forall x :: x in latencies && p(x) ==> v <= x
  {
    var n := |latencies| - 1;
    assert latencies == latencies[..n] + [latencies[n]];
    if exists x :: x in latencies[..n] && p(x) {
      v := Least(latencies[..n], p);
      if p(latencies[n]) && latencies[n] < v { v := latencies[n]; }
    } else {
      v := latencies[n];
    }
  }

  lemma {:induction false} Greatest(latencies: seq<real>, p: real -> bool) returns (v: real)
    requires exists x :: x in latencies && p(x)
    ensures v in latencies && p(v) && forall x :: x in latencies && p(x) ==> x <= v
  {
    var n := |latencies| - 1;
    assert latencies == latencies[..n] + [latencies[n]];
    if exists x :: x in latencies[..n] && p(x) {
      v := Greatest(latencies[..n], p);
      if p(latencies[n]) && v < latencies[n] { v := latencies[n]; }
    } else {
      v := latencies[n];
    }
  }

  lemma {:induction false} CountSame(latencies: seq<real>, p: real -> bool, q: real -> bool)
    requires forall v :: v in latencies ==> p(v) == q(v)
    ensures CountWhere(latencies, p) == CountWhere(latencies, q)
  {
    if latencies != [] {
      var n := |latencies| - 1;
      forall v | v in latencies[..n] ensures v in latencies {}
      var last: real := latencies[n];
      assert last in latencies;
      CountSame(latencies[..n], p, q);
    }
  }

  /** For 1 <= k <= n one of the n latencies is the k-th smallest. */
  lemma KthSmallestExists(latencies: seq<real>, k: int) returns (v: real)
    requires 1 <= k <= |latencies|
    ensures v in latencies && IsKthSmallest(latencies, k, v)
  {
    var enough := (x: real) => CountWhere(latencies, y => y <= x) >= k;
    CountAll(latencies, _ => true);
    CountPositive(latencies, _ => true);
    var top := Greatest(latencies, _ => true);
    CountSame(latencies, _ => true, y => y <= top);
    assert enough(top);
    v := Least(latencies, enough);
    FewerBelow(latencies, k, v, enough);
  }

  lemma FewerBelow(latencies: seq<real>, k: int, v: real, enough: real -> bool)
    requires k >= 1 && forall x :: enough(x) <==> CountWhere(latencies, y => y <= x) >= k
    requires forall x :: x in latencies && enough(x) ==> v <= x
    ensures CountWhere(latencies, x => x < v) < k
  {
    if CountWhere(latencies, x => x < v) > 0 {
      CountPositive(latencies, x => x < v);
      var u := Greatest(latencies, x => x < v);
      assert !enough(u);
      CountSame(latencies, x => x < v, x => x <= u);
    }
  }

  /** There is a k-th smallest exactly for 1 <= k <= n; a quantile that rounds to 0 gets the first bound whatever the data. */
  lemma TargetZeroIgnoresData(counts: seq<nat>, p: real, i: nat)
    requires |counts| == BUCKETS && 0.0 <= p && Target(Total(counts), p) == 0 && Reaches(counts, 0, i)
    ensures i == 0
  {
    assert i == 0 || Seen(counts, 0) >= 0;
  }

  lemma TargetInRange(total: nat, p: real)
    requires total > 0 && 0.0 <= p <= 1.0
    ensures 1 <= Target(total, p) <= total <==> total as real * p >= 0.5
  {
    var x := total as real * p;
    assert x <= total as real by {
      assert total as real * (1.0 - p) >= 0.0;
    }
  }
}
