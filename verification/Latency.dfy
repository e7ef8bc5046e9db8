/** Bucketed latency histograms: recording and merging (src/pressure.ts). */
module Latency {
  import opened Wrappers
  import opened Sequences

  const BUCKETS := 15

  /** `LATENCY_BUCKET_UPPER_MS`. */
  function UpperMs(i: nat): real
    requires i < BUCKETS
  {
    if i < 5 then
      (if i == 0 then 1.0 else if i == 1 then 2.0 else if i == 2 then 5.0 else if i == 3 then 10.0 else 25.0)
    else if i < 10 then
      (if i == 5 then 50.0 else if i == 6 then 100.0 else if i == 7 then 250.0 else if i == 8 then 500.0 else 1000.0)
    else
      (if i == 10 then 2500.0 else if i == 11 then 5000.0 else if i == 12 then 10000.0 else if i == 13 then 30000.0
       else LAST_BOUND)
  }

  const LAST_BOUND := 60000.0

  datatype Histogram = Histogram(count: nat, totalMs: real, maxMs: real, buckets: seq<nat>, overflow: nat)

  /** The bounds of the buckets, in milliseconds. */
  lemma Bounds()
    ensures var bounds := [1.0, 2.0, 5.0, 10.0, 25.0, 50.0, 100.0, 250.0, 500.0,
                           1000.0, 2500.0, 5000.0, 10000.0, 30000.0, 60000.0];
            BUCKETS == |bounds| && forall i :: 0 <= i < BUCKETS ==> UpperMs(i) == bounds[i]
  {
  }

  function Zeros(): (z: seq<nat>)
    ensures |z| == BUCKETS && forall i :: 0 <= i < BUCKETS ==> z[i] == 0
  {
    seq(BUCKETS, _ => 0)
  }

  const EMPTY := Histogram(0, 0.0, 0.0, Zeros(), 0)

  function Max(x: real, y: real): real {
    if x < y then y else x
  }

  // ---------- recording ----------

  function FirstBucket(value: real, from: nat): (i: nat)
    requires from <= BUCKETS
    ensures from <= i <= BUCKETS
    ensures forall j :: from <= j < i ==> UpperMs(j) < value
    ensures i < BUCKETS ==> value <= UpperMs(i)
    decreases BUCKETS - from
  {
    if from == BUCKETS || value <= UpperMs(from) then from else FirstBucket(value, from + 1)
  }

  /** The first bucket whose bound is not exceeded; BUCKETS when every bound is. */
  function BucketIndex(value: real): (i: nat)
    ensures i <= BUCKETS
    ensures forall j :: 0 <= j < i ==> UpperMs(j) < value
    ensures i < BUCKETS ==> value <= UpperMs(i)
  {
    FirstBucket(value, 0)
  }

  function Bump(buckets: seq<nat>, i: nat): (r: seq<nat>)
    ensures |r| == |buckets|
    ensures forall j :: 0 <= j < |r| ==> r[j] == buckets[j] + if j == i then 1 else 0
  {
    if i < |buckets| then buckets[i := buckets[i] + 1] else buckets
  }

  function Record(h: Histogram, elapsedMs: real): (r: Histogram)
    requires |h.buckets| == BUCKETS
    ensures |r.buckets| == BUCKETS
  {
    var value := Max(0.0, elapsedMs);
    var i := BucketIndex(value);
    Histogram(
      h.count + 1,
      h.totalMs + value,
      Max(h.maxMs, value),
      Bump(h.buckets, i),
      if i < BUCKETS then h.overflow else h.overflow + 1)
  }

  /** The histogram of a list of samples, recorded one after the other. */
  function Recorded(samples: seq<real>): (h: Histogram)
    ensures |h.buckets| == BUCKETS
  {
    if samples == [] then EMPTY else Record(Recorded(samples[..|samples| - 1]), samples[|samples| - 1])
  }

  // ---------- what a recorded histogram says about its samples ----------

  /** How many samples are at most `bound`, a negative reading counting as zero. */
  function AtMost(samples: seq<real>, bound: real): nat {
    if samples == [] then 0
    else AtMost(samples[..|samples| - 1], bound) + if Max(0.0, samples[|samples| - 1]) <= bound then 1 else 0
  }

  function Total(samples: seq<real>): real {
    if samples == [] then 0.0 else Total(samples[..|samples| - 1]) + Max(0.0, samples[|samples| - 1])
  }

  ghost predicate IsMaximum(samples: seq<real>, m: real) {
    && m >= 0.0
    && (forall i :: 0 <= i < |samples| ==> samples[i] <= m)
    && (m == 0.0 || exists i :: 0 <= i < |samples| && samples[i] == m)
  }

  /** How many samples the buckets below `i` hold. */
  function Cumulative(h: Histogram, i: nat): nat
    requires i <= |h.buckets|
  {
    if i == 0 then 0 else Cumulative(h, i - 1) + h.buckets[i - 1]
  }

  lemma {:induction false} CumulativeRecord(h: Histogram, x: real, i: nat)
    requires |h.buckets| == BUCKETS && i <= BUCKETS
    ensures Cumulative(Record(h, x), i) == Cumulative(h, i) + if BucketIndex(Max(0.0, x)) < i then 1 else 0
  {
    CumulativeBump(h, Record(h, x), BucketIndex(Max(0.0, x)), i);
  }

  lemma {:induction false} CumulativeBump(h: Histogram, r: Histogram, k: nat, i: nat)
    requires i <= |h.buckets| && r.buckets == Bump(h.buckets, k)
    ensures Cumulative(r, i) == Cumulative(h, i) + if k < i then 1 else 0
  {
    if i > 0 {
      CumulativeBump(h, r, k, i - 1);
    }
  }

  lemma BucketIndexBelow(value: real, i: nat)
    requires i < BUCKETS
    ensures BucketIndex(value) <= i <==> value <= UpperMs(i)
  {
    var k := BucketIndex(value);
    assert k < i ==> UpperMs(k) < UpperMs(i);
  }

  lemma {:induction false} RecordedTotals(samples: seq<real>)
    ensures var h := Recorded(samples);
            h.count == |samples| && h.totalMs == Total(samples) && IsMaximum(samples, h.maxMs)
  {
    if samples != [] {
      var front, x := samples[..|samples| - 1], samples[|samples| - 1];
      RecordedTotals(front);
      MaximumGrows(front, x, Recorded(front).maxMs);
      assert front + [x] == samples;
    }
  }

  lemma {:induction false} RecordedCumulative(samples: seq<real>, i: nat)
    requires 1 <= i <= BUCKETS
    ensures Cumulative(Recorded(samples), i) == AtMost(samples, UpperMs(i - 1))
  {
    if samples == [] {
      CumulativeEmpty(i);
    } else {
      var front, x := samples[..|samples| - 1], samples[|samples| - 1];
      RecordedCumulative(front, i);
      CumulativeRecord(Recorded(front), x, i);
      BucketIndexBelow(Max(0.0, x), i - 1);
    }
  }

  /**
   * The fast form agrees with the list: the count, the sum and the maximum are those of the
   * samples, the buckets up to each bound hold exactly the samples at most that bound, and
   * the overflow holds the rest.
   */
  lemma RecordedCounts(samples: seq<real>)
    ensures var h := Recorded(samples);
            && h.count == |samples| && h.totalMs == Total(samples) && IsMaximum(samples, h.maxMs)
            && (forall i :: 1 <= i <= BUCKETS ==> Cumulative(h, i) == AtMost(samples, UpperMs(i - 1)))
            && AtMost(samples, LAST_BOUND) + h.overflow == |samples|
  {
    RecordedTotals(samples);
    forall i | 1 <= i <= BUCKETS ensures Cumulative(Recorded(samples), i) == AtMost(samples, UpperMs(i - 1)) {
      RecordedCumulative(samples, i);
    }
    RecordedOverflow(samples);
  }

  lemma {:induction false} RecordedOverflow(samples: seq<real>)
    ensures AtMost(samples, LAST_BOUND) + Recorded(samples).overflow == |samples|
  {
    RecordedTotals(samples);
    RecordedCumulative(samples, BUCKETS);
    RecordedConsistent(samples);
  }

  lemma {:induction false} CumulativeEmpty(i: nat)
    requires i <= BUCKETS
    ensures Cumulative(EMPTY, i) == 0
  {
    if i > 0 {
      CumulativeEmpty(i - 1);
    }
  }

  lemma MaximumGrows(front: seq<real>, x: real, m: real)
    requires IsMaximum(front, m)
    ensures IsMaximum(front + [x], Max(m, Max(0.0, x)))
  {
    var samples := front + [x];
    if x > m {
      assert samples[|front|] == x;
    } else if m != 0.0 {
      var i :| 0 <= i < |front| && front[i] == m;
      assert samples[i] == m;
    }
  }

  // ---------- merging ----------

  datatype MergeError = BucketCount(found: nat)

  function AddBuckets(a: seq<nat>, b: seq<nat>): (r: seq<nat>)
    requires |a| == |b|
    ensures |r| == |a| && forall i :: 0 <= i < |r| ==> r[i] == a[i] + b[i]
  {
    seq(|a|, i requires 0 <= i < |a| => a[i] + b[i])
  }

  function Add(a: Histogram, b: Histogram): (r: Histogram)
    requires |a.buckets| == |b.buckets| == BUCKETS
    ensures |r.buckets| == BUCKETS
  {
    Histogram(
      a.count + b.count,
      a.totalMs + b.totalMs,
      Max(a.maxMs, b.maxMs),
      AddBuckets(a.buckets, b.buckets),
      a.overflow + b.overflow)
  }

  predicate AllShaped(hs: seq<Histogram>) {
    forall i :: 0 <= i < |hs| ==> |hs[i].buckets| == BUCKETS
  }

  function Merged(hs: seq<Histogram>): (h: Histogram)
    requires AllShaped(hs)
    ensures |h.buckets| == BUCKETS
  {
    if hs == [] then EMPTY else Add(Merged(hs[..|hs| - 1]), hs[|hs| - 1])
  }

  method MergeLatencyHistograms(hs: seq<Histogram>) returns (r: Result<Histogram, MergeError>)
    ensures r.Ok? <==> AllShaped(hs)
    ensures r.Ok? ==> r.value == Merged(hs)
    ensures r.Err? ==>
              exists i :: 0 <= i < |hs| && AllShaped(hs[..i]) && |hs[i].buckets| != BUCKETS
                          && r.error == BucketCount(|hs[i].buckets|)
  {
    var merged := EMPTY;
    for k := 0 to |hs|
      invariant AllShaped(hs[..k]) && merged == Merged(hs[..k])
    {
      var h := hs[k];
      assert hs[..k + 1][..k] == hs[..k];
      if |h.buckets| != BUCKETS {
        return Err(BucketCount(|h.buckets|));
      }
      var buckets := merged.buckets;
      for i := 0 to BUCKETS
        invariant |buckets| == BUCKETS
        invariant forall j :: 0 <= j < i ==> buckets[j] == merged.buckets[j] + h.buckets[j]
        invariant forall j :: i <= j < BUCKETS ==> buckets[j] == merged.buckets[j]
      {
        buckets := buckets[i := buckets[i] + h.buckets[i]];
      }
      assert buckets == AddBuckets(merged.buckets, h.buckets);
      merged := Histogram(
        merged.count + h.count,
        merged.totalMs + h.totalMs,
        Max(merged.maxMs, h.maxMs),
        buckets,
        merged.overflow + h.overflow);
    }
    assert hs[..|hs|] == hs;
    r := Ok(merged);
  }

  // ---------- merging is a homomorphism ----------

  lemma AddCommutes(a: Histogram, b: Histogram)
    requires |a.buckets| == |b.buckets| == BUCKETS
    ensures Add(a, b) == Add(b, a)
  {
    assert AddBuckets(a.buckets, b.buckets) == AddBuckets(b.buckets, a.buckets);
  }

  lemma AddAssociates(a: Histogram, b: Histogram, c: Histogram)
    requires |a.buckets| == |b.buckets| == |c.buckets| == BUCKETS
    ensures Add(Add(a, b), c) == Add(a, Add(b, c))
  {
    assert AddBuckets(AddBuckets(a.buckets, b.buckets), c.buckets)
        == AddBuckets(a.buckets, AddBuckets(b.buckets, c.buckets));
  }

  lemma AddEmpty(h: Histogram)
    requires |h.buckets| == BUCKETS && h.maxMs >= 0.0
    ensures Add(h, EMPTY) == h && Add(EMPTY, h) == h
  {
    assert AddBuckets(h.buckets, EMPTY.buckets) == h.buckets;
    AddCommutes(h, EMPTY);
  }

  lemma RecordIsAdd(h: Histogram, x: real)
    requires |h.buckets| == BUCKETS
    ensures Record(h, x) == Add(h, Recorded([x]))
  {
    var i := BucketIndex(Max(0.0, x));
    assert [x][..0] == [];
    assert Recorded([x]) == Record(EMPTY, x);
    assert Bump(h.buckets, i) == AddBuckets(h.buckets, Bump(Zeros(), i));
  }

  /** Recording two lists apart and merging equals recording them together. */
  lemma {:induction false} RecordedConcat(a: seq<real>, b: seq<real>)
    ensures Add(Recorded(a), Recorded(b)) == Recorded(a + b)
    decreases |b|
  {
    if b == [] {
      assert a + b == a;
      AddEmpty(Recorded(a));
    } else {
      var front, x := b[..|b| - 1], b[|b| - 1];
      RecordedConcat(a, front);
      assert (a + b)[..|a + b| - 1] == a + front;
      RecordIsAdd(Recorded(front), x);
      RecordIsAdd(Recorded(a + front), x);
      AddAssociates(Recorded(a), Recorded(front), Recorded([x]));
    }
  }

  function RecordedEach(parts: seq<seq<real>>): (hs: seq<Histogram>)
    ensures |hs| == |parts| && AllShaped(hs) && forall i :: 0 <= i < |hs| ==> hs[i] == Recorded(parts[i])
  {
    seq(|parts|, i requires 0 <= i < |parts| => Recorded(parts[i]))
  }

  lemma MergedLast(parts: seq<seq<real>>)
    requires parts != []
    ensures Merged(RecordedEach(parts)) == Add(Merged(RecordedEach(parts[..|parts| - 1])), Recorded(parts[|parts| - 1]))
  {
    assert RecordedEach(parts)[..|parts| - 1] == RecordedEach(parts[..|parts| - 1]);
  }

  /** Merging what each client recorded equals one histogram of all their samples. */
  lemma {:induction false} MergedRecorded(parts: seq<seq<real>>)
    ensures Merged(RecordedEach(parts)) == Recorded(Flatten(parts))
    decreases |parts|
  {
    if parts != [] {
      var front, last := parts[..|parts| - 1], parts[|parts| - 1];
      MergedRecorded(front);
      MergedLast(parts);
      FlattenLast(parts);
      RecordedConcat(Flatten(front), last);
    }
  }

  /** The order of the samples does not matter. */
  lemma {:induction false} RecordedAnyOrder(a: seq<real>, b: seq<real>)
    requires multiset(a) == multiset(b)
    ensures Recorded(a) == Recorded(b)
    decreases |a|
  {
    SameElements(a, b);
    if a != [] {
      var front, x := a[..|a| - 1], a[|a| - 1];
      var left, right := FindSplit(a, b);
      RecordedAnyOrder(front, left + right);
      MoveToEnd(left, x, right);
      RecordIsAdd(Recorded(front), x);
    }
  }

  lemma MoveToEnd(left: seq<real>, x: real, right: seq<real>)
    ensures Recorded(left + [x] + right) == Add(Recorded(left + right), Recorded([x]))
  {
    var l, o, r := Recorded(left), Recorded([x]), Recorded(right);
    RecordedConcat(left, [x]);
    RecordedConcat(left + [x], right);
    RecordedConcat(left, right);
    AddAssociates(l, o, r);
    AddCommutes(o, r);
    AddAssociates(l, r, o);
  }

  predicate AllNonNegative(hs: seq<Histogram>) {
    AllShaped(hs) && forall i :: 0 <= i < |hs| ==> hs[i].maxMs >= 0.0
  }

  /** Folding pairwise, as `mergeStage` does for one client after the other. */
  function Folded(hs: seq<Histogram>): (h: Histogram)
    requires AllShaped(hs)
    ensures |h.buckets| == BUCKETS
  {
    if hs == [] then EMPTY else Merged([Folded(hs[..|hs| - 1]), hs[|hs| - 1]])
  }

  lemma MergedPair(a: Histogram, b: Histogram)
    requires |a.buckets| == |b.buckets| == BUCKETS && a.maxMs >= 0.0
    ensures Merged([a, b]) == Add(a, b)
  {
    assert [a, b][..1] == [a] && [a][..0] == [];
    assert Merged([a]) == Add(Merged([]), a);
    AddEmpty(a);
  }

  /** Pairwise folding equals one merge of all histograms. */
  lemma {:induction false} FoldedIsMerged(hs: seq<Histogram>)
    requires AllNonNegative(hs)
    ensures Folded(hs) == Merged(hs) && Merged(hs).maxMs >= 0.0
    decreases |hs|
  {
    if hs != [] {
      var front, last := hs[..|hs| - 1], hs[|hs| - 1];
      FoldedIsMerged(front);
      MergedPair(Folded(front), last);
    }
  }

  lemma {:induction false} MergedConcat(a: seq<Histogram>, b: seq<Histogram>)
    requires AllNonNegative(a) && AllShaped(b)
    ensures Merged(a + b) == Add(Merged(a), Merged(b))
    decreases |b|
  {
    if b == [] {
      assert a + b == a;
      FoldedIsMerged(a);
      AddEmpty(Merged(a));
    } else {
      MergedConcat(a, b[..|b| - 1]);
      assert (a + b)[..|a + b| - 1] == a + b[..|b| - 1];
      AddAssociates(Merged(a), Merged(b[..|b| - 1]), b[|b| - 1]);
    }
  }

  /** The order of the histograms does not matter. */
  lemma {:induction false} MergedAnyOrder(a: seq<Histogram>, b: seq<Histogram>)
    requires AllNonNegative(a) && AllNonNegative(b) && multiset(a) == multiset(b)
    ensures Merged(a) == Merged(b)
    decreases |a|
  {
    SameElements(a, b);
    if a != [] {
      var front, x := a[..|a| - 1], a[|a| - 1];
      var left, right := FindSplit(a, b);
      NonNegativeParts(left, x, right);
      MergedAnyOrder(front, left + right);
      MergedMoveToEnd(left, x, right);
    }
  }

  lemma NonNegativeParts(left: seq<Histogram>, x: Histogram, right: seq<Histogram>)
    requires AllNonNegative(left + [x] + right)
    ensures AllNonNegative(left) && AllNonNegative(right) && AllNonNegative(left + right)
    ensures |x.buckets| == BUCKETS && x.maxMs >= 0.0
  {
    var all := left + [x] + right;
    assert all[|left|] == x;
    forall i | 0 <= i < |left| ensures left[i] == all[i] {}
    forall i | 0 <= i < |right| ensures right[i] == all[|left| + 1 + i] {}
  }

  lemma MergedMoveToEnd(left: seq<Histogram>, x: Histogram, right: seq<Histogram>)
    requires AllNonNegative(left) && AllNonNegative(right)
    requires |x.buckets| == BUCKETS && x.maxMs >= 0.0
    ensures AllShaped(left + [x] + right) && AllShaped(left + right)
    ensures Merged(left + [x] + right) == Add(Merged(left + right), x)
  {
    assert (left + [x])[..|left|] == left;
    MergedConcat(left + [x], right);
    MergedConcat(left, right);
    AddAssociates(Merged(left), x, Merged(right));
    AddCommutes(x, Merged(right));
    AddAssociates(Merged(left), Merged(right), x);
  }

  // ---------- what recording and merging keep ----------

  /** The facts that every recorded or merged histogram satisfies. */
  ghost predicate Consistent(h: Histogram) {
    && |h.buckets| == BUCKETS
    && h.count == Cumulative(h, BUCKETS) + h.overflow
    && h.maxMs >= 0.0 && h.totalMs >= 0.0
    && h.totalMs <= h.count as real * h.maxMs
    && (h.overflow > 0 <==> h.maxMs > LAST_BOUND)
  }

  lemma RecordFields(h: Histogram, x: real)
    requires |h.buckets| == BUCKETS
    ensures var r, v := Record(h, x), Max(0.0, x);
            && r.count == h.count + 1 && r.totalMs == h.totalMs + v && r.maxMs == Max(h.maxMs, v)
            && r.overflow == h.overflow + (if v <= LAST_BOUND then 0 else 1)
            && Cumulative(r, BUCKETS) == Cumulative(h, BUCKETS) + (if v <= LAST_BOUND then 1 else 0)
  {
    BucketIndexBelow(Max(0.0, x), BUCKETS - 1);
    CumulativeRecord(h, x, BUCKETS);
  }

  /** A sum of sums is bounded by the larger maximum. */
  lemma TotalBound(n: nat, s: real, x: real, m: nat, t: real, y: real)
    requires 0.0 <= x && 0.0 <= y
    requires s <= n as real * x && t <= m as real * y
    ensures s + t <= (n + m) as real * Max(x, y)
  {
    var top := Max(x, y);
    assert n as real * x <= n as real * top;
    assert m as real * y <= m as real * top;
    assert (n + m) as real * top == n as real * top + m as real * top;
  }

  lemma {:induction false} CumulativeAdd(a: Histogram, b: Histogram, i: nat)
    requires |a.buckets| == |b.buckets| == BUCKETS && i <= BUCKETS
    ensures Cumulative(Add(a, b), i) == Cumulative(a, i) + Cumulative(b, i)
  {
    if i > 0 {
      CumulativeAdd(a, b, i - 1);
    }
  }

  lemma AddConsistent(a: Histogram, b: Histogram)
    requires Consistent(a) && Consistent(b)
    ensures Consistent(Add(a, b))
  {
    CumulativeAdd(a, b, BUCKETS);
    TotalBound(a.count, a.totalMs, a.maxMs, b.count, b.totalMs, b.maxMs);
  }

  lemma OneConsistent(x: real)
    ensures Consistent(Recorded([x]))
  {
    assert [x][..0] == [];
    assert Recorded([x]) == Record(EMPTY, x);
    CumulativeEmpty(BUCKETS);
    RecordFields(EMPTY, x);
  }

  lemma RecordConsistent(h: Histogram, x: real)
    requires Consistent(h)
    ensures Consistent(Record(h, x))
  {
    OneConsistent(x);
    AddConsistent(h, Recorded([x]));
    RecordIsAdd(h, x);
  }

  lemma EmptyConsistent()
    ensures Consistent(EMPTY)
  {
    CumulativeEmpty(BUCKETS);
  }

  lemma {:induction false} RecordedConsistent(samples: seq<real>)
    ensures Consistent(Recorded(samples))
  {
    if samples == [] {
      EmptyConsistent();
    } else {
      RecordedConsistent(samples[..|samples| - 1]);
      RecordConsistent(Recorded(samples[..|samples| - 1]), samples[|samples| - 1]);
    }
  }

  ghost predicate AllConsistent(hs: seq<Histogram>) {
    forall i :: 0 <= i < |hs| ==> Consistent(hs[i])
  }

  lemma {:induction false} MergedConsistent(hs: seq<Histogram>)
    requires AllConsistent(hs)
    ensures Consistent(Merged(hs))
  {
    if hs == [] {
      EmptyConsistent();
    } else {
      MergedConsistent(hs[..|hs| - 1]);
      AddConsistent(Merged(hs[..|hs| - 1]), hs[|hs| - 1]);
    }
  }
}
