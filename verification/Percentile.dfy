/** Percentiles read off latency histograms (src/pressure.ts). */
module Percentile {
  import opened Latency

  /** A fraction of the samples, as an exact rational between 0 and 1. */
  datatype Fraction = Fraction(num: nat, den: nat)
  {
    predicate Proper() {
      0 < num <= den
    }

    predicate AtMost(other: Fraction) {
      num * other.den <= other.num * den
    }
  }

  const P50 := Fraction(1, 2)
  const P95 := Fraction(19, 20)
  const P99 := Fraction(99, 100)

  /** `Math.round(value * 100) / 100`: two decimals, halves rounded up. */
  function Round(value: real): real {
    (value * 100.0 + 0.5).Floor as real / 100.0
  }

  /** A multiple of a hundredth, and the nearest one; a value half way between two is rounded up. */
  lemma RoundIsNearest(value: real) returns (hundredths: int)
    ensures Round(value) == hundredths as real / 100.0
    ensures hundredths as real - 0.5 <= value * 100.0 < hundredths as real + 0.5
  {
    hundredths := (value * 100.0 + 0.5).Floor;
  }

  lemma {:induction false} RoundMonotone(x: real, y: real)
    requires x <= y
    ensures Round(x) <= Round(y)
  {
    var a, b := x * 100.0 + 0.5, y * 100.0 + 0.5;
    assert a.Floor <= b.Floor;
  }

  lemma RoundLast(x: real)
    requires x >= LAST_BOUND
    ensures Round(x) >= LAST_BOUND
  {
    assert Round(LAST_BOUND) == LAST_BOUND by { assert (6000000.5).Floor == 6000000; }
    RoundMonotone(LAST_BOUND, x);
  }

  /** `Math.ceil(count * fraction)`: the rank of the sample a percentile asks for. */
  function Rank(count: nat, p: Fraction): nat
    requires p.Proper()
  {
    (count * p.num + p.den - 1) / p.den
  }

  lemma {:induction false} CeilDiv(t: nat, den: nat, c: nat)
    requires den > 0
    ensures c >= (t + den - 1) / den <==> c * den >= t
  {
    var q, r := (t + den - 1) / den, (t + den - 1) % den;
    assert t + den - 1 == q * den + r;
    if c >= q {
      assert c * den >= q * den;
    } else {
      assert c * den <= (q - 1) * den == q * den - den;
    }
  }

  /** c of n samples reach the fraction. */
  predicate Reaches(c: nat, n: nat, p: Fraction) {
    c * p.den >= n * p.num
  }

  lemma {:induction false} RankReaches(c: nat, n: nat, p: Fraction)
    requires p.Proper()
    ensures c >= Rank(n, p) <==> Reaches(c, n, p)
  {
    CeilDiv(n * p.num, p.den, c);
  }

  lemma {:induction false} RankInRange(n: nat, p: Fraction)
    requires p.Proper() && n > 0
    ensures 1 <= Rank(n, p) <= n
  {
    RankReaches(0, n, p);
    RankReaches(n, n, p);
    assert n * p.num > 0;
    assert n * p.den >= n * p.num;
  }

  /** The first bucket whose cumulative count reaches the target; BUCKETS if none does. */
  function Crossing(h: Histogram, target: nat, from: nat): (i: nat)
    requires |h.buckets| == BUCKETS && from <= BUCKETS
    ensures from <= i <= BUCKETS
    ensures forall j :: from < j <= i ==> Cumulative(h, j) < target
    ensures i < BUCKETS ==> Cumulative(h, i + 1) >= target
    decreases BUCKETS - from
  {
    if from == BUCKETS || Cumulative(h, from + 1) >= target then from else Crossing(h, target, from + 1)
  }

  function CrossingOf(h: Histogram, p: Fraction): nat
    requires |h.buckets| == BUCKETS && p.Proper()
  {
    Crossing(h, Rank(h.count, p), 0)
  }

  function PercentileOf(h: Histogram, p: Fraction): real
    requires |h.buckets| == BUCKETS && p.Proper()
  {
    if h.count == 0 then 0.0
    else
      var i := CrossingOf(h, p);
      if i < BUCKETS then UpperMs(i) else Round(h.maxMs)
  }

  method Percentile(h: Histogram, p: Fraction) returns (r: real)
    requires |h.buckets| == BUCKETS && p.Proper()
    ensures r == PercentileOf(h, p)
  {
    if h.count == 0 {
      return 0.0;
    }
    var target := (h.count * p.num + p.den - 1) / p.den;
    assert target == Rank(h.count, p);
    var cumulative := 0;
    for index := 0 to BUCKETS
      invariant cumulative == Cumulative(h, index)
      invariant CrossingOf(h, p) == Crossing(h, target, index)
    {
      cumulative := cumulative + h.buckets[index];
      if cumulative >= target {
        return UpperMs(index);
      }
    }
    r := Round(h.maxMs);
  }

  // ---------- percentiles of one histogram ----------

  lemma {:induction false} CumulativeMonotone(h: Histogram, i: nat, j: nat)
    requires i <= j <= |h.buckets|
    ensures Cumulative(h, i) <= Cumulative(h, j)
  {
    if i < j {
      CumulativeMonotone(h, i, j - 1);
    }
  }

  lemma {:induction false} CrossingRank(h: Histogram, p: Fraction, i: nat)
    requires |h.buckets| == BUCKETS && p.Proper() && i < BUCKETS
    ensures CrossingOf(h, p) <= i <==> Cumulative(h, i + 1) >= Rank(h.count, p)
  {
    var k := CrossingOf(h, p);
    if k <= i {
      CumulativeMonotone(h, k + 1, i + 1);
    }
  }

  lemma CrossingIff(h: Histogram, p: Fraction, i: nat)
    requires |h.buckets| == BUCKETS && p.Proper() && i < BUCKETS
    ensures CrossingOf(h, p) <= i <==> Reaches(Cumulative(h, i + 1), h.count, p)
  {
    CrossingRank(h, p, i);
    RankReaches(Cumulative(h, i + 1), h.count, p);
  }

  lemma BoundsMonotone(i: nat, j: nat)
    requires i <= j < BUCKETS
    ensures UpperMs(i) <= UpperMs(j) <= LAST_BOUND
  {
  }

  /** In the overflow the percentile is the rounded maximum, which lies at or above every bound. */
  lemma {:induction false} OverflowAboveBounds(h: Histogram, p: Fraction)
    requires Consistent(h) && p.Proper() && h.count > 0 && CrossingOf(h, p) == BUCKETS
    ensures h.overflow > 0 && h.maxMs > LAST_BOUND
    ensures PercentileOf(h, p) == Round(h.maxMs) >= LAST_BOUND
  {
    RankInRange(h.count, p);
    RankReaches(Cumulative(h, BUCKETS), h.count, p);
    CrossingIff(h, p, BUCKETS - 1);
    RankReaches(h.count, h.count, p);
    RoundLast(h.maxMs);
  }

  /** The percentile grows with the bucket it is found in. */
  lemma {:induction false} LaterBucketHigher(a: Histogram, p: Fraction, b: Histogram, q: Fraction)
    requires |a.buckets| == BUCKETS && a.count > 0 && p.Proper()
    requires Consistent(b) && b.count > 0 && q.Proper()
    requires CrossingOf(a, p) <= CrossingOf(b, q) && CrossingOf(a, p) < BUCKETS
    ensures PercentileOf(a, p) <= PercentileOf(b, q)
  {
    var i, j := CrossingOf(a, p), CrossingOf(b, q);
    if j < BUCKETS {
      BoundsMonotone(i, j);
    } else {
      OverflowAboveBounds(b, q);
      BoundsMonotone(i, BUCKETS - 1);
    }
  }

  /** A higher fraction never asks for a lower rank. */
  lemma RankMonotone(n: nat, p: Fraction, q: Fraction)
    requires p.Proper() && q.Proper() && p.AtMost(q)
    ensures Rank(n, p) <= Rank(n, q)
  {
    var c := Rank(n, q);
    RankReaches(c, n, q);
    ReachesLower(c, n, p, q);
    RankReaches(c, n, p);
  }

  lemma ReachesLower(c: nat, n: nat, p: Fraction, q: Fraction)
    requires p.Proper() && q.Proper() && p.AtMost(q) && Reaches(c, n, q)
    ensures Reaches(c, n, p)
  {
    Scale(n * q.num, c * q.den, p.den);
    Scale(p.num * q.den, q.num * p.den, n);
    Regroup(c, p.den, q.den);
    Regroup(n, q.num, p.den);
    Regroup(n, p.num, q.den);
    Unscale(n * p.num, c * p.den, q.den);
  }

  lemma Regroup(x: int, y: int, z: int)
    ensures x * y * z == x * z * y == x * (y * z)
  {
  }

  lemma Scale(x: int, y: int, k: nat)
    requires x <= y
    ensures x * k <= y * k && k * x <= k * y
  {
    assert (y - x) * k >= 0;
  }

  lemma Unscale(x: int, y: int, k: nat)
    requires k > 0 && x * k <= y * k
    ensures x <= y
  {
    Scale(y + 1, if y < x then x else y + 1, k);
    assert (y + 1) * k == y * k + k;
  }

  lemma {:induction false} PercentileMonotone(h: Histogram, p: Fraction, q: Fraction)
    requires Consistent(h) && p.Proper() && q.Proper() && p.AtMost(q)
    ensures PercentileOf(h, p) <= PercentileOf(h, q)
  {
    RankMonotone(h.count, p, q);
    if h.count > 0 {
      if CrossingOf(h, p) < BUCKETS {
        LaterBucketHigher(h, p, h, q);
      }
    }
  }

  lemma PercentileNonNegative(h: Histogram, p: Fraction)
    requires Consistent(h) && p.Proper()
    ensures PercentileOf(h, p) >= 0.0
  {
    if h.count > 0 {
      if CrossingOf(h, p) < BUCKETS {
        BoundsMonotone(0, CrossingOf(h, p));
      } else {
        OverflowAboveBounds(h, p);
      }
    }
  }

  // ---------- the summary ----------

  datatype Summary = Summary(count: nat, meanMs: real, p50Ms: real, p95Ms: real, p99Ms: real, maxMs: real)

  function LatencySummary(h: Histogram): Summary
    requires |h.buckets| == BUCKETS
  {
    Summary(
      h.count,
      if h.count == 0 then 0.0 else Round(h.totalMs / h.count as real),
      PercentileOf(h, P50),
      PercentileOf(h, P95),
      PercentileOf(h, P99),
      Round(h.maxMs))
  }

  lemma MeanOrdered(h: Histogram)
    requires Consistent(h)
    ensures (if h.count == 0 then 0.0 else Round(h.totalMs / h.count as real)) <= Round(h.maxMs)
  {
    if h.count > 0 {
      RoundMonotone(h.totalMs / h.count as real, h.maxMs);
    } else {
      RoundMonotone(0.0, h.maxMs);
      assert Round(0.0) == 0.0 by { assert (0.5).Floor == 0; }
    }
  }

  /** The summary is ordered, across the overflow boundary too. */
  lemma {:induction false} SummaryOrdered(h: Histogram)
    requires Consistent(h)
    ensures var s := LatencySummary(h);
            0.0 <= s.p50Ms <= s.p95Ms <= s.p99Ms && s.meanMs <= s.maxMs
  {
    PercentileNonNegative(h, P50);
    PercentileMonotone(h, P50, P95);
    PercentileMonotone(h, P95, P99);
    MeanOrdered(h);
  }

  // ---------- the nearest-rank sample ----------

  ghost predicate SortedReals(s: seq<real>) {
    forall i, j :: 0 <= i < j < |s| ==> s[i] <= s[j]
  }

  /** In a sorted list of non-negative samples, at least k are at most b exactly when the k-th is. */
  lemma {:induction false} AtMostSorted(s: seq<real>, k: nat, b: real)
    requires SortedReals(s) && 1 <= k <= |s|
    ensures AtMost(s, b) >= k <==> AtMost(s[k - 1..k], b) == 1
  {
    var front, last := s[..|s| - 1], s[|s| - 1];
    assert s[k - 1..k] == [s[k - 1]];
    if Max(0.0, last) <= b {
      AllAtMost(s, b);
    } else if k < |s| {
      AtMostSorted(front, k, b);
      assert front[k - 1..k] == s[k - 1..k];
    } else {
      AtMostLength(front, b);
    }
  }

  lemma {:induction false} AtMostLength(s: seq<real>, b: real)
    ensures AtMost(s, b) <= |s|
  {
    if s != [] {
      AtMostLength(s[..|s| - 1], b);
    }
  }

  lemma {:induction false} AllAtMost(s: seq<real>, b: real)
    requires forall i :: 0 <= i < |s| ==> Max(0.0, s[i]) <= b
    ensures AtMost(s, b) == |s|
  {
    if s != [] {
      AllAtMost(s[..|s| - 1], b);
    }
  }

  /** The smallest bucket bound that is at least x. */
  ghost predicate IsSmallestBound(bound: real, x: real) {
    && (exists i :: 0 <= i < BUCKETS && UpperMs(i) == bound)
    && x <= bound
    && forall i :: 0 <= i < BUCKETS && x <= UpperMs(i) ==> bound <= UpperMs(i)
  }

  /**
   * r reports the k-th smallest sample: the smallest bucket bound at or above it when it is
   * within the bounds, and the rounded maximum otherwise. A negative reading counts as zero.
   */
  ghost predicate IsNearestRank(r: real, sorted: seq<real>, k: nat)
    requires 1 <= k <= |sorted|
  {
    var x := Max(0.0, sorted[k - 1]);
    if x <= LAST_BOUND then IsSmallestBound(r, x) else r == Round(sorted[|sorted| - 1]) >= LAST_BOUND
  }

  /** The percentile of recorded samples reports the nearest-rank sample, whatever order they came in. */
  lemma {:induction false} PercentileIsNearestRank(samples: seq<real>, sorted: seq<real>, p: Fraction)
    requires p.Proper() && samples != []
    requires SortedReals(sorted) && multiset(sorted) == multiset(samples)
    ensures |sorted| == |samples| && 1 <= Rank(|sorted|, p) <= |sorted|
    ensures IsNearestRank(PercentileOf(Recorded(samples), p), sorted, Rank(|sorted|, p))
  {
    assert |multiset(sorted)| == |multiset(samples)|;
    RecordedAnyOrder(sorted, samples);
    RankInRange(|sorted|, p);
    SortedPercentile(sorted, p);
  }

  /** The least number of samples that make up at least num/den of n. */
  ghost predicate IsRank(k: nat, n: nat, num: nat, den: nat) {
    k >= 1 && k * den >= n * num && (k - 1) * den < n * num
  }

  lemma RankIsRank(n: nat, p: Fraction)
    requires p.Proper() && n > 0
    ensures IsRank(Rank(n, p), n, p.num, p.den)
  {
    RankInRange(n, p);
    RankReaches(Rank(n, p), n, p);
    RankReaches(Rank(n, p) - 1, n, p);
  }

  lemma ReportsRank(samples: seq<real>, sorted: seq<real>, p: Fraction) returns (k: nat)
    requires samples != [] && SortedReals(sorted) && multiset(sorted) == multiset(samples) && p.Proper()
    ensures IsRank(k, |samples|, p.num, p.den) && k <= |sorted| == |samples|
    ensures IsNearestRank(PercentileOf(Recorded(samples), p), sorted, k)
  {
    PercentileIsNearestRank(samples, sorted, p);
    RankIsRank(|samples|, p);
    k := Rank(|sorted|, p);
  }

  /**
   * What the summary of recorded samples says of them: their number, the nearest ranks of one half,
   * 95 and 99 in a hundred, and the rounded mean and maximum. Negative readings count as zero.
   */
  lemma SummaryOfSamples(samples: seq<real>, sorted: seq<real>) returns (k50: nat, k95: nat, k99: nat)
    requires samples != [] && SortedReals(sorted) && multiset(sorted) == multiset(samples)
    ensures k50 <= |sorted| && k95 <= |sorted| && k99 <= |sorted| == |samples|
    ensures IsRank(k50, |samples|, 1, 2) && IsRank(k95, |samples|, 19, 20) && IsRank(k99, |samples|, 99, 100)
    ensures var s := LatencySummary(Recorded(samples));
            && s.count == |samples|
            && IsNearestRank(s.p50Ms, sorted, k50)
            && IsNearestRank(s.p95Ms, sorted, k95)
            && IsNearestRank(s.p99Ms, sorted, k99)
            && s.meanMs == Round(Total(samples) / |samples| as real)
            && s.maxMs == Round(Max(0.0, sorted[|sorted| - 1]))
  {
    k50 := ReportsRank(samples, sorted, Fraction(1, 2));
    k95 := ReportsRank(samples, sorted, Fraction(19, 20));
    k99 := ReportsRank(samples, sorted, Fraction(99, 100));
    RecordedTotals(samples);
    RecordedAnyOrder(samples, sorted);
    RecordedSorted(sorted);
  }

  /** Without a sample every number is zero. */
  lemma SummaryOfNothing()
    ensures LatencySummary(Recorded([])) == Summary(0, 0.0, 0.0, 0.0, 0.0, 0.0)
  {
    assert (0.5).Floor == 0;
  }

  lemma {:induction false} SortedPercentile(sorted: seq<real>, p: Fraction)
    requires p.Proper() && SortedReals(sorted) && 1 <= Rank(|sorted|, p) <= |sorted|
    ensures IsNearestRank(PercentileOf(Recorded(sorted), p), sorted, Rank(|sorted|, p))
  {
    var h, k := Recorded(sorted), Rank(|sorted|, p);
    var x := Max(0.0, sorted[k - 1]);
    RecordedSorted(sorted);
    EveryBound(sorted, h, k, x, p);
    BoundsTellRank(h, p, sorted, k);
  }

  lemma BoundsTellRank(h: Histogram, p: Fraction, sorted: seq<real>, k: nat)
    requires Consistent(h) && p.Proper() && h.count > 0 && 1 <= k <= |sorted|
    requires h.maxMs == Max(0.0, sorted[|sorted| - 1])
    requires forall i :: 0 <= i < BUCKETS ==> (CrossingOf(h, p) <= i <==> Max(0.0, sorted[k - 1]) <= UpperMs(i))
    ensures IsNearestRank(PercentileOf(h, p), sorted, k)
  {
    if CrossingOf(h, p) < BUCKETS {
      BucketHoldsSample(h, p, Max(0.0, sorted[k - 1]));
    } else {
      OverflowReportsLast(h, p, sorted[|sorted| - 1]);
      assert UpperMs(BUCKETS - 1) == LAST_BOUND;
    }
  }

  lemma OverflowReportsLast(h: Histogram, p: Fraction, last: real)
    requires Consistent(h) && p.Proper() && h.count > 0 && CrossingOf(h, p) == BUCKETS && h.maxMs == Max(0.0, last)
    ensures PercentileOf(h, p) == Round(last) >= LAST_BOUND
  {
    OverflowAboveBounds(h, p);
  }

  lemma RecordedSorted(sorted: seq<real>)
    requires SortedReals(sorted) && sorted != []
    ensures Consistent(Recorded(sorted)) && Recorded(sorted).count == |sorted|
    ensures Recorded(sorted).maxMs == Max(0.0, sorted[|sorted| - 1])
  {
    var h := Recorded(sorted);
    RecordedConsistent(sorted);
    RecordedTotals(sorted);
    SortedMaximum(sorted, h.maxMs);
  }

  lemma BucketHoldsSample(h: Histogram, p: Fraction, x: real)
    requires |h.buckets| == BUCKETS && h.count > 0 && p.Proper() && CrossingOf(h, p) < BUCKETS
    requires forall i :: 0 <= i < BUCKETS ==> (CrossingOf(h, p) <= i <==> x <= UpperMs(i))
    ensures x <= LAST_BOUND && IsSmallestBound(PercentileOf(h, p), x)
  {
    var c := CrossingOf(h, p);
    BoundsMonotone(c, BUCKETS - 1);
    forall i | 0 <= i < BUCKETS && x <= UpperMs(i) ensures UpperMs(c) <= UpperMs(i) {
      BoundsMonotone(c, i);
    }
  }

  lemma {:induction false} SampleReaches(sorted: seq<real>, h: Histogram, k: nat, x: real, i: nat, p: Fraction)
    requires SortedReals(sorted) && h == Recorded(sorted) && p.Proper() && i < BUCKETS
    requires k == Rank(|sorted|, p) && 1 <= k <= |sorted| && x == Max(0.0, sorted[k - 1])
    ensures CrossingOf(h, p) <= i <==> x <= UpperMs(i)
  {
    RecordedTotals(sorted);
    RecordedCumulative(sorted, i + 1);
    CrossingRank(h, p, i);
    AtMostKth(sorted, k, UpperMs(i));
  }

  lemma {:induction false} EveryBound(sorted: seq<real>, h: Histogram, k: nat, x: real, p: Fraction)
    requires SortedReals(sorted) && h == Recorded(sorted) && p.Proper()
    requires k == Rank(|sorted|, p) && 1 <= k <= |sorted| && x == Max(0.0, sorted[k - 1])
    ensures forall i :: 0 <= i < BUCKETS ==> (CrossingOf(h, p) <= i <==> x <= UpperMs(i))
  {
    forall i | 0 <= i < BUCKETS ensures CrossingOf(h, p) <= i <==> x <= UpperMs(i) {
      SampleReaches(sorted, h, k, x, i, p);
    }
  }

  lemma AtMostKth(sorted: seq<real>, k: nat, b: real)
    requires SortedReals(sorted) && 1 <= k <= |sorted|
    ensures AtMost(sorted, b) >= k <==> Max(0.0, sorted[k - 1]) <= b
  {
    AtMostSorted(sorted, k, b);
    assert sorted[k - 1..k] == [sorted[k - 1]];
  }

  lemma SortedMaximum(s: seq<real>, m: real)
    requires SortedReals(s) && s != [] && IsMaximum(s, m)
    ensures m == Max(0.0, s[|s| - 1])
  {
  }

  // ---------- percentiles of merged histograms ----------

  lemma ReachesAdd(c: nat, n: nat, d: nat, m: nat, p: Fraction)
    ensures Reaches(c, n, p) && Reaches(d, m, p) ==> Reaches(c + d, n + m, p)
    ensures !Reaches(c, n, p) && !Reaches(d, m, p) ==> !Reaches(c + d, n + m, p)
    ensures !Reaches(c, n, p) && m == 0 && d == 0 ==> !Reaches(c + d, n + m, p)
    ensures !Reaches(c, n, p) ==> n > 0
  {
    assert (c + d) * p.den == c * p.den + d * p.den;
    assert (n + m) * p.num == n * p.num + m * p.num;
  }

  /** If the merged counts reach the fraction, so do some non-empty client's. */
  lemma {:induction false} ReachedSomewhere(hs: seq<Histogram>, p: Fraction, i: nat) returns (k: nat)
    requires AllConsistent(hs) && i <= BUCKETS && Merged(hs).count > 0
    requires Reaches(Cumulative(Merged(hs), i), Merged(hs).count, p)
    ensures k < |hs| && hs[k].count > 0 && Reaches(Cumulative(hs[k], i), hs[k].count, p)
    decreases |hs|
  {
    var front, last := hs[..|hs| - 1], hs[|hs| - 1];
    var c, d := Cumulative(Merged(front), i), Cumulative(last, i);
    CumulativeAdd(Merged(front), last, i);
    WithinCount(hs, i);
    ReachesAdd(c, Merged(front).count, d, last.count, p);
    ReachesAdd(d, last.count, c, Merged(front).count, p);
    if last.count > 0 && Reaches(d, last.count, p) {
      k := |hs| - 1;
    } else {
      k := ReachedSomewhere(front, p, i);
    }
  }

  /** If the merged counts miss the fraction, so do some client's. */
  lemma {:induction false} MissedSomewhere(hs: seq<Histogram>, p: Fraction, i: nat) returns (k: nat)
    requires AllConsistent(hs) && i <= BUCKETS && Merged(hs).count > 0
    requires !Reaches(Cumulative(Merged(hs), i), Merged(hs).count, p)
    ensures k < |hs| && hs[k].count > 0 && !Reaches(Cumulative(hs[k], i), hs[k].count, p)
    decreases |hs|
  {
    var front, last := hs[..|hs| - 1], hs[|hs| - 1];
    var c, d := Cumulative(Merged(front), i), Cumulative(last, i);
    CumulativeAdd(Merged(front), last, i);
    ReachesAdd(c, Merged(front).count, d, last.count, p);
    if Reaches(d, last.count, p) {
      assert !Reaches(c, Merged(front).count, p);
      k := MissedSomewhere(front, p, i);
    } else {
      ReachesAdd(d, last.count, c, Merged(front).count, p);
      k := |hs| - 1;
    }
  }

  lemma WithinCount(hs: seq<Histogram>, i: nat)
    requires AllConsistent(hs) && hs != [] && i <= BUCKETS
    ensures Cumulative(Merged(hs[..|hs| - 1]), i) <= Merged(hs[..|hs| - 1]).count
    ensures Cumulative(hs[|hs| - 1], i) <= hs[|hs| - 1].count
  {
    MergedConsistent(hs[..|hs| - 1]);
    CumulativeMonotone(Merged(hs[..|hs| - 1]), i, BUCKETS);
    CumulativeMonotone(hs[|hs| - 1], i, BUCKETS);
  }

  /** Some non-empty client's percentile lies at or below the merged one. */
  lemma {:induction false} MergedAboveSmallest(hs: seq<Histogram>, p: Fraction) returns (k: nat)
    requires AllConsistent(hs) && p.Proper() && Merged(hs).count > 0
    ensures k < |hs| && hs[k].count > 0
    ensures CrossingOf(hs[k], p) <= CrossingOf(Merged(hs), p)
    ensures PercentileOf(hs[k], p) <= PercentileOf(Merged(hs), p)
  {
    var m := Merged(hs);
    MergedConsistent(hs);
    var i := CrossingOf(m, p);
    if i < BUCKETS {
      CrossingIff(m, p, i);
      k := ReachedSomewhere(hs, p, i + 1);
      CrossingIff(hs[k], p, i);
      LaterBucketHigher(hs[k], p, m, p);
    } else {
      k := NonEmptyClient(hs);
      OverflowAboveBounds(m, p);
      MergedMaxAbove(hs, k);
      RoundMonotone(hs[k].maxMs, m.maxMs);
      if CrossingOf(hs[k], p) < BUCKETS {
        BoundsMonotone(CrossingOf(hs[k], p), BUCKETS - 1);
      }
    }
  }

  /**
   * Some client's percentile lies in the same bucket as the merged one or a later one: a merged
   * percentile inside the buckets is at most that client's, and it overflows only if that
   * client's does.
   */
  lemma {:induction false} MergedBelowLargest(hs: seq<Histogram>, p: Fraction) returns (k: nat)
    requires AllConsistent(hs) && p.Proper() && Merged(hs).count > 0
    ensures k < |hs| && hs[k].count > 0
    ensures CrossingOf(Merged(hs), p) <= CrossingOf(hs[k], p)
    ensures CrossingOf(Merged(hs), p) < BUCKETS ==> PercentileOf(Merged(hs), p) <= PercentileOf(hs[k], p)
  {
    k := CrossesLater(hs, p);
    if CrossingOf(Merged(hs), p) < BUCKETS {
      LaterBucketHigher(Merged(hs), p, hs[k], p);
    }
  }

  lemma {:induction false} CrossesLater(hs: seq<Histogram>, p: Fraction) returns (k: nat)
    requires AllConsistent(hs) && p.Proper() && Merged(hs).count > 0
    ensures k < |hs| && hs[k].count > 0
    ensures CrossingOf(Merged(hs), p) <= CrossingOf(hs[k], p)
  {
    var i := CrossingOf(Merged(hs), p);
    if i == 0 {
      k := NonEmptyClient(hs);
    } else {
      CrossingIff(Merged(hs), p, i - 1);
      k := MissedSomewhere(hs, p, i);
      CrossingIff(hs[k], p, i - 1);
    }
  }

  lemma {:induction false} NonEmptyClient(hs: seq<Histogram>) returns (k: nat)
    requires AllShaped(hs) && Merged(hs).count > 0
    ensures k < |hs| && hs[k].count > 0
    decreases |hs|
  {
    if hs[|hs| - 1].count > 0 {
      k := |hs| - 1;
    } else {
      k := NonEmptyClient(hs[..|hs| - 1]);
    }
  }

  lemma {:induction false} MergedMaxAbove(hs: seq<Histogram>, k: nat)
    requires AllShaped(hs) && k < |hs|
    ensures hs[k].maxMs <= Merged(hs).maxMs
    decreases |hs|
  {
    if k < |hs| - 1 {
      MergedMaxAbove(hs[..|hs| - 1], k);
    }
  }

  // ---------- aggregate rating and per-client warnings ----------

  /** A client's stage as the diagnostics see it. */
  datatype StageLatency = StageLatency(client: string, domain: string, stage: string, latency: Histogram)

  predicate NearTimeout(h: Histogram, timeoutMs: nat)
    requires |h.buckets| == BUCKETS
  {
    LatencySummary(h).p95Ms > timeoutMs as real / 2.0
  }

  predicate IsNear(s: StageLatency, timeoutMs: nat) {
    |s.latency.buckets| == BUCKETS && NearTimeout(s.latency, timeoutMs)
  }

  /** The stages near the timeout, in order. */
  function NearStages(stages: seq<StageLatency>, timeoutMs: nat): (r: seq<StageLatency>)
    ensures forall s :: s in r <==> s in stages && IsNear(s, timeoutMs)
  {
    if stages == [] then []
    else
      var front, last := NearStages(stages[..|stages| - 1], timeoutMs), stages[|stages| - 1];
      assert stages == stages[..|stages| - 1] + [last];
      if IsNear(last, timeoutMs) then front + [last] else front
  }

  /** The `latency-near-timeout` part of `diagnosticWarnings`: the stages it warns about. */
  method LatencyWarnings(stages: seq<StageLatency>, timeoutMs: nat) returns (warned: seq<StageLatency>)
    requires forall i :: 0 <= i < |stages| ==> |stages[i].latency.buckets| == BUCKETS
    ensures warned == NearStages(stages, timeoutMs)
  {
    warned := [];
    for i := 0 to |stages|
      invariant warned == NearStages(stages[..i], timeoutMs)
    {
      var p95 := Percentile(stages[i].latency, P95);
      assert stages[..i + 1][..i] == stages[..i];
      if p95 > timeoutMs as real / 2.0 {
        warned := warned + [stages[i]];
      }
    }
    assert stages[..|stages|] == stages;
  }

  /** An aggregate p95 above half the timeout is also some client's. */
  ghost predicate AggregateImpliesWarning(hs: seq<Histogram>, timeoutMs: nat)
    requires AllShaped(hs)
  {
    NearTimeout(Merged(hs), timeoutMs) ==> exists k :: 0 <= k < |hs| && NearTimeout(hs[k], timeoutMs)
  }

  lemma AggregateWarned(hs: seq<Histogram>, timeoutMs: nat)
    requires AllConsistent(hs) && timeoutMs < 120000
    ensures AggregateImpliesWarning(hs, timeoutMs)
  {
    if NearTimeout(Merged(hs), timeoutMs) {
      var k := MergedBelowLargest(hs, P95);
      if CrossingOf(Merged(hs), P95) == BUCKETS {
        OverflowAboveBounds(hs[k], P95);
      }
      assert NearTimeout(hs[k], timeoutMs);
    }
  }

  /** n fast samples and one slow one. */
  function Mostly(n: nat, slow: real): seq<real> {
    seq(n, _ => 0.0) + [slow]
  }

  lemma {:induction false} ZerosRecorded(n: nat)
    ensures var h := Recorded(seq(n, _ => 0.0));
            h.count == n && h.overflow == 0 && h.maxMs == 0.0 && Cumulative(h, 1) == n
  {
    var s := seq(n, _ => 0.0);
    RecordedConsistent(s);
    RecordedTotals(s);
    RecordedCumulative(s, 1);
    AllAtMost(s, 1.0);
  }

  lemma MostlyRecorded(n: nat, slow: real)
    requires slow > LAST_BOUND
    ensures var h := Recorded(Mostly(n, slow));
            h.count == n + 1 && h.overflow == 1 && h.maxMs == slow && Cumulative(h, 1) == n
  {
    var s := seq(n, _ => 0.0);
    ZerosRecorded(n);
    assert Mostly(n, slow)[..n] == s;
    OneMoreSlow(Recorded(s), slow);
  }

  lemma OneMoreSlow(h: Histogram, slow: real)
    requires |h.buckets| == BUCKETS && slow > LAST_BOUND
    ensures var r := Record(h, slow);
            && r.count == h.count + 1 && r.overflow == h.overflow + 1
            && r.maxMs == Max(h.maxMs, slow) && Cumulative(r, 1) == Cumulative(h, 1)
  {
    CumulativeRecord(h, slow, 1);
    RecordFields(h, slow);
    BucketIndexBelow(slow, 0);
  }

  /**
   * From 120000 ms on the implication fails: one client just past the last bound keeps its own
   * p95 at 60000 ms, another's rare slow call lends the aggregate its maximum.
   */
  lemma SlowTimeoutMissesWarning(timeoutMs: nat)
    requires timeoutMs >= 120000
    ensures !AggregateImpliesWarning(RecordedEach([Mostly(0, 60000.001), Mostly(19, timeoutMs as real)]), timeoutMs)
  {
    JustPastLastBound(timeoutMs);
    OneSlowCall(timeoutMs);
    TogetherOverflow(timeoutMs);
    MissedWarning(RecordedEach([Mostly(0, 60000.001), Mostly(19, timeoutMs as real)]), timeoutMs);
  }

  lemma MissedWarning(hs: seq<Histogram>, timeoutMs: nat)
    requires AllShaped(hs) && |hs| == 2
    requires !NearTimeout(hs[0], timeoutMs) && !NearTimeout(hs[1], timeoutMs)
    requires NearTimeout(Merged(hs), timeoutMs)
    ensures !AggregateImpliesWarning(hs, timeoutMs)
  {
    forall k | 0 <= k < |hs| ensures !NearTimeout(hs[k], timeoutMs) {
      assert k == 0 || k == 1;
    }
  }

  lemma {:induction false} MergedRecordedPair(a: seq<real>, b: seq<real>)
    ensures Merged(RecordedEach([a, b])) == Add(Recorded(a), Recorded(b))
  {
    assert RecordedEach([a, b]) == [Recorded(a), Recorded(b)];
    MergedPair(Recorded(a), Recorded(b));
  }

  lemma JustPastLastBound(timeoutMs: nat)
    requires timeoutMs >= 120000
    ensures !NearTimeout(Recorded(Mostly(0, 60000.001)), timeoutMs)
  {
    var h := Recorded(Mostly(0, 60000.001));
    MostlyRecorded(0, 60000.001);
    RecordedConsistent(Mostly(0, 60000.001));
    CrossingIff(h, P95, BUCKETS - 1);
    assert Round(60000.001) == 60000.0 by { assert (6000000.6).Floor == 6000000; }
  }

  lemma {:induction false} OneSlowCall(timeoutMs: nat)
    requires timeoutMs >= 120000
    ensures !NearTimeout(Recorded(Mostly(19, timeoutMs as real)), timeoutMs)
  {
    var h := Recorded(Mostly(19, timeoutMs as real));
    MostlyRecorded(19, timeoutMs as real);
    CrossingIff(h, P95, 0);
  }

  lemma TogetherOverflow(timeoutMs: nat)
    requires timeoutMs >= 120000
    ensures NearTimeout(Merged(RecordedEach([Mostly(0, 60000.001), Mostly(19, timeoutMs as real)])), timeoutMs)
  {
    var a, b := Recorded(Mostly(0, 60000.001)), Recorded(Mostly(19, timeoutMs as real));
    MostlyRecorded(0, 60000.001);
    MostlyRecorded(19, timeoutMs as real);
    RecordedConsistent(Mostly(0, 60000.001));
    RecordedConsistent(Mostly(19, timeoutMs as real));
    MergedRecordedPair(Mostly(0, 60000.001), Mostly(19, timeoutMs as real));
    var m := Add(a, b);
    CumulativeAdd(a, b, BUCKETS);
    assert m.count == 21 && Cumulative(m, BUCKETS) == 19;
    CrossingIff(m, P95, BUCKETS - 1);
    assert m.maxMs == timeoutMs as real;
    assert (timeoutMs as real * 100.0 + 0.5).Floor == timeoutMs * 100;
  }

  /**
   * An aggregate p95 above half the request timeout always shows up as a warning about some
   * client, whatever the clients recorded, exactly when the timeout is below 120000 ms.
   */
  lemma AggregateWarnedIff(timeoutMs: nat)
    ensures (forall parts :: AggregateImpliesWarning(RecordedEach(parts), timeoutMs)) <==> timeoutMs < 120000
  {
    if timeoutMs < 120000 {
      forall parts ensures AggregateImpliesWarning(RecordedEach(parts), timeoutMs) {
        forall k | 0 <= k < |parts| ensures Consistent(RecordedEach(parts)[k]) {
          RecordedConsistent(parts[k]);
        }
        AggregateWarned(RecordedEach(parts), timeoutMs);
      }
    } else {
      SlowTimeoutMissesWarning(timeoutMs);
    }
  }
}
