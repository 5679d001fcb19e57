/** Bounded real-time statistics: the fixed-bucket histogram and the deadline-miss window. */
module Timing {
  import opened Prelude

  const TIMING_BUCKETS: nat := 32
  const TIMING_BUCKET_WIDTH_NS: nat := 50_000
  const MAX_MISSES: nat := 5

  function Bucket(nanos: nat): nat {
    Min(nanos / TIMING_BUCKET_WIDTH_NS, TIMING_BUCKETS - 1)
  }

  /** How many durations fall into bucket `b`. */
  function Count(durations: seq<nat>, b: nat): nat {
    if durations == [] then 0
    else Count(durations[..|durations| - 1], b) + if Bucket(durations[|durations| - 1]) == b then 1 else 0
  }

  /** How many fall into a bucket below `b`. */
  function CountBelow(durations: seq<nat>, b: nat): (n: nat)
    ensures n <= |durations|
  {
    if durations == [] then 0
    else CountBelow(durations[..|durations| - 1], b) + if Bucket(durations[|durations| - 1]) < b then 1 else 0
  }

  function Sum(buckets: seq<nat>): nat {
    if buckets == [] then 0 else Sum(buckets[..|buckets| - 1]) + buckets[|buckets| - 1]
  }

  datatype Snapshot = Snapshot(samples: nat, maximumNs: nat, buckets: seq<nat>)

  /** The snapshot was taken while nobody was observing. */
  ghost predicate Quiescent(s: Snapshot, durations: seq<nat>) {
    && s.samples == |durations|
    && |s.buckets| == TIMING_BUCKETS
    && forall b :: 0 <= b < TIMING_BUCKETS ==> s.buckets[b] == Count(durations, b)
  }

  function Rank(samples: nat, percentile: nat): nat {
    Max(SaturatingAdd(SaturatingMul(samples, Min(percentile, 100)), 99) / 100, 1)
  }

  class TimingHistogram {
    var samples: nat
    var maximumNs: nat
    const buckets: array<nat>
    ghost var observed: seq<nat>

    ghost predicate Valid()
      reads this, buckets
    {
      && buckets.Length == TIMING_BUCKETS
      && samples == |observed|
      && (forall b :: 0 <= b < TIMING_BUCKETS ==> buckets[b] == Count(observed, b))
      && (forall d :: d in observed ==> d <= maximumNs)
      && (if observed == [] then maximumNs == 0 else maximumNs in observed)
    }

    constructor ()
      ensures Valid() && observed == [] && fresh(buckets)
    {
      samples := 0;
      maximumNs := 0;
      buckets := new nat[TIMING_BUCKETS](_ => 0);
      observed := [];
    }

    method Observe(nanos: nat)
      requires Valid()
      modifies this, buckets
      ensures Valid() && observed == old(observed) + [nanos]
    {
      samples := samples + 1;
      maximumNs := Max(maximumNs, nanos);
      var bucket := Min(nanos / TIMING_BUCKET_WIDTH_NS, TIMING_BUCKETS - 1);
      buckets[bucket] := buckets[bucket] + 1;
      observed := observed + [nanos];
      assert observed[..|observed| - 1] == old(observed) && observed[|observed| - 1] == nanos;
    }

    method TakeSnapshot() returns (s: Snapshot)
      requires Valid()
      ensures Quiescent(s, observed) && s.maximumNs == maximumNs
    {
      s := Snapshot(samples, maximumNs, buckets[..]);
    }
  }

  /** The cumulative count reaches `rank` in bucket `b` and not before. */
  ghost predicate FirstReach(buckets: seq<nat>, rank: nat, b: nat) {
    b < |buckets| && Sum(buckets[..b]) < rank <= Sum(buckets[..b + 1])
  }

  /** The first bucket from `b` on at which the cumulative count reaches `rank`. */
  function Scan(buckets: seq<nat>, rank: nat, b: nat): Option<nat>
    requires b <= |buckets|
    decreases |buckets| - b
  {
    if b == |buckets| then None
    else if Sum(buckets[..b + 1]) >= rank then Some(b)
    else Scan(buckets, rank, b + 1)
  }

  function PercentileOf(s: Snapshot, percentile: nat): nat {
    if s.samples == 0 then 0
    else
      match Scan(s.buckets, Rank(s.samples, percentile), 0)
      case Some(b) => (b + 1) * TIMING_BUCKET_WIDTH_NS
      case None => s.maximumNs
  }

  /** The scan over the copied buckets; a saturated cumulative count changes nothing, since no rank exceeds `u64`. */
  method PercentileNs(s: Snapshot, percentile: nat) returns (ns: nat)
    requires |s.buckets| == TIMING_BUCKETS
    ensures ns == PercentileOf(s, percentile)
  {
    if s.samples == 0 {
      return 0;
    }
    var rank := SaturatingAdd(SaturatingMul(s.samples, Min(percentile, 100)), 99) / 100;
    var cumulative := 0;
    for index := 0 to TIMING_BUCKETS
      invariant cumulative == Sum(s.buckets[..index]) < Max(rank, 1)
      invariant Scan(s.buckets, Max(rank, 1), 0) == Scan(s.buckets, Max(rank, 1), index)
    {
      assert s.buckets[..index + 1][..index] == s.buckets[..index];
      cumulative := SaturatingAdd(cumulative, s.buckets[index]);
      if cumulative >= Max(rank, 1) {
        return SaturatingMul(index + 1, TIMING_BUCKET_WIDTH_NS);
      }
    }
    ns := s.maximumNs;
  }

  lemma {:induction false} ScanFinds(buckets: seq<nat>, rank: nat, from: nat, b: nat)
    requires from <= b && FirstReach(buckets, rank, b)
    ensures Scan(buckets, rank, from) == Some(b)
    decreases b - from
  {
    if from < b {
      SumPrefix(buckets, from + 1, b);
      ScanFinds(buckets, rank, from + 1, b);
    }
  }

  lemma {:induction false} SumPrefix(buckets: seq<nat>, k: nat, n: nat)
    requires k <= n <= |buckets|
    ensures Sum(buckets[..k]) <= Sum(buckets[..n])
  {
    if k < n {
      SumPrefix(buckets, k, n - 1);
      assert buckets[..n][..n - 1] == buckets[..n - 1];
    }
  }

  lemma {:induction false} CountSplits(durations: seq<nat>, b: nat)
    ensures CountBelow(durations, b + 1) == CountBelow(durations, b) + Count(durations, b)
    ensures CountBelow(durations, 0) == 0
    ensures CountBelow(durations, TIMING_BUCKETS) == |durations|
  {
    if durations != [] {
      CountSplits(durations[..|durations| - 1], b);
    }
  }

  /** Cumulating a quiescent snapshot counts the durations below a bucket. */
  lemma {:induction false} CumulativeCounts(s: Snapshot, durations: seq<nat>, b: nat)
    requires Quiescent(s, durations) && b <= TIMING_BUCKETS
    ensures Sum(s.buckets[..b]) == CountBelow(durations, b)
  {
    CountSplits(durations, b);
    if b > 0 {
      CumulativeCounts(s, durations, b - 1);
      CountSplits(durations, b - 1);
      assert s.buckets[..b][..b - 1] == s.buckets[..b - 1];
    }
  }

  ghost predicate Sorted(s: seq<nat>) {
    forall i, j :: 0 <= i < j < |s| ==> s[i] <= s[j]
  }

  /** In sorted order, the durations below a bucket come first. */
  lemma {:induction false} SortedCount(sorted: seq<nat>, r: nat, b: nat)
    requires Sorted(sorted) && 1 <= r <= |sorted|
    ensures CountBelow(sorted, b) >= r <==> Bucket(sorted[r - 1]) < b
  {
    var n := |sorted| - 1;
    if r <= n {
      SortedCount(sorted[..n], r, b);
      assert sorted[..n][r - 1] == sorted[r - 1];
      if Bucket(sorted[r - 1]) >= b {
        assert sorted[r - 1] <= sorted[n];
        BucketIsMonotone(sorted[r - 1], sorted[n]);
      }
    } else if n > 0 && Bucket(sorted[n]) < b {
      assert sorted[n - 1] <= sorted[n];
      BucketIsMonotone(sorted[n - 1], sorted[n]);
      SortedCount(sorted[..n], n, b);
    }
  }

  lemma BucketIsMonotone(a: nat, b: nat)
    requires a <= b
    ensures Bucket(a) <= Bucket(b)
  {
    assert a / TIMING_BUCKET_WIDTH_NS <= b / TIMING_BUCKET_WIDTH_NS;
  }

  lemma {:induction false} CountAppends(a: seq<nat>, b: seq<nat>, k: nat)
    ensures Count(a + b, k) == Count(a, k) + Count(b, k)
  {
    if b == [] {
      assert a + b == a;
    } else {
      assert (a + b)[..|a + b| - 1] == a + b[..|b| - 1];
      CountAppends(a, b[..|b| - 1], k);
    }
  }

  /** The sequence without its `i`-th element. */
  function Without(s: seq<nat>, i: nat): seq<nat>
    requires i < |s|
  {
    s[..i] + s[i + 1..]
  }

  lemma CountWithout(s: seq<nat>, i: nat, k: nat)
    requires i < |s|
    ensures Count(s, k) == Count(Without(s, i), k) + if Bucket(s[i]) == k then 1 else 0
  {
    assert s[..i + 1][..i] == s[..i] && s == s[..i + 1] + s[i + 1..];
    CountAppends(s[..i + 1], s[i + 1..], k);
    CountAppends(s[..i], s[i + 1..], k);
  }

  lemma MultisetWithout(s: seq<nat>, i: nat)
    requires i < |s|
    ensures multiset(Without(s, i)) == multiset(s) - multiset{s[i]}
  {
    assert s == s[..i] + [s[i]] + s[i + 1..];
  }

  /** Counts do not depend on the order of observation. */
  lemma {:induction false} CountPermutes(a: seq<nat>, b: seq<nat>, k: nat)
    requires multiset(a) == multiset(b)
    ensures Count(a, k) == Count(b, k)
    decreases |a|
  {
    if a == [] {
      assert |multiset(b)| == 0;
    } else {
      assert a[0] in multiset(b);
      var i :| 0 <= i < |b| && b[i] == a[0];
      MultisetWithout(a, 0);
      MultisetWithout(b, i);
      CountPermutes(Without(a, 0), Without(b, i), k);
      CountWithout(a, 0, k);
      CountWithout(b, i, k);
    }
  }

  function Edge(nanos: nat): nat {
    (Bucket(nanos) + 1) * TIMING_BUCKET_WIDTH_NS
  }

  /**
   * The histogram refines the order statistic: the percentile of a quiescent snapshot is the upper edge of the bucket
   * of the element of rank max(1, ceil(n * p / 100)) in sorted order.
   */
  lemma PercentileIsOrderStatistic(s: Snapshot, durations: seq<nat>, sorted: seq<nat>, percentile: nat)
    requires Quiescent(s, durations) && multiset(sorted) == multiset(durations) && Sorted(sorted)
    requires 1 <= s.samples && s.samples * 100 + 99 <= U64_MAX
    ensures 1 <= Rank(s.samples, percentile) <= |sorted| == s.samples
    ensures Rank(s.samples, percentile) == Max((s.samples * Min(percentile, 100) + 99) / 100, 1)
    ensures PercentileOf(s, percentile) == (Min(sorted[Rank(s.samples, percentile) - 1] / 50_000, 31) + 1) * 50_000
  {
    var rank := Rank(s.samples, percentile);
    RankInRange(s.samples, percentile);
    SameLength(durations, sorted);
    QuiescentPermutes(s, durations, sorted);
    var b := Bucket(sorted[rank - 1]);
    CumulativeCounts(s, sorted, b);
    CumulativeCounts(s, sorted, b + 1);
    SortedCount(sorted, rank, b);
    SortedCount(sorted, rank, b + 1);
    ScanFinds(s.buckets, rank, 0, b);
  }

  lemma SameLength(a: seq<nat>, b: seq<nat>)
    requires multiset(a) == multiset(b)
    ensures |a| == |b|
  {
    assert |multiset(a)| == |a| && |multiset(b)| == |b|;
  }

  lemma QuiescentPermutes(s: Snapshot, durations: seq<nat>, sorted: seq<nat>)
    requires Quiescent(s, durations) && multiset(sorted) == multiset(durations)
    ensures Quiescent(s, sorted)
  {
    SameLength(durations, sorted);
    forall b | 0 <= b < TIMING_BUCKETS
      ensures s.buckets[b] == Count(sorted, b)
    {
      CountPermutes(durations, sorted, b);
    }
  }

  lemma RankInRange(samples: nat, percentile: nat)
    requires samples > 0 && samples * 100 + 99 <= U64_MAX
    ensures 1 <= Rank(samples, percentile) <= samples
    ensures Rank(samples, percentile) == Max((samples * Min(percentile, 100) + 99) / 100, 1)
  {
    var p := Min(percentile, 100);
    assert samples * p <= samples * 100 by { Scale(samples, p, 100); }
    assert (samples * p + 99) / 100 <= (samples * 100 + 99) / 100 == samples;
  }

  lemma Scale(n: nat, p: nat, q: nat)
    requires p <= q
    ensures n * p <= n * q
  {
    assert n * (q - p) >= 0;
  }

  /** A larger percentile never reports a smaller duration. */
  lemma PercentileIsMonotone(s: Snapshot, durations: seq<nat>, sorted: seq<nat>, p: nat, q: nat)
    requires Quiescent(s, durations) && multiset(sorted) == multiset(durations) && Sorted(sorted)
    requires s.samples * 100 + 99 <= U64_MAX && p <= q
    ensures PercentileOf(s, p) <= PercentileOf(s, q)
  {
    if s.samples > 0 {
      PercentileIsOrderStatistic(s, durations, sorted, p);
      PercentileIsOrderStatistic(s, durations, sorted, q);
      Scale(s.samples, Min(p, 100), Min(q, 100));
      var rp, rq := Rank(s.samples, p), Rank(s.samples, q);
      assert rp <= rq;
      assert sorted[rp - 1] <= sorted[rq - 1];
      BucketIsMonotone(sorted[rp - 1], sorted[rq - 1]);
    }
  }

  /**
   * The edge is an upper bound of its durations, except in the last bucket: exactly when the duration is below 1.6 ms.
   * As a bound it is at most 50 us too large, and all longer durations are reported as 1.6 ms.
   */
  lemma EdgeIsUpperBoundIff(nanos: nat)
    ensures nanos < Edge(nanos) <==> nanos < 1_600_000
    ensures Edge(nanos) <= nanos + 50_000
    ensures nanos >= 1_600_000 ==> Edge(nanos) == 1_600_000
  {
  }

  lemma {:induction false} ScanMisses(buckets: seq<nat>, rank: nat, b: nat)
    requires b <= |buckets| && Sum(buckets) < rank
    ensures Scan(buckets, rank, b) == None
    decreases |buckets| - b
  {
    if b < |buckets| {
      SumPrefix(buckets, b + 1, |buckets|);
      assert buckets[..|buckets|] == buckets;
      ScanMisses(buckets, rank, b + 1);
    }
  }

  /** A snapshot that caught an observation between its two counters has too few in its buckets, and reports the maximum. */
  lemma TornSnapshotReportsTheMaximum(s: Snapshot, percentile: nat)
    requires s.samples > 0 && Sum(s.buckets) < Rank(s.samples, percentile)
    ensures PercentileOf(s, percentile) == s.maximumNs
  {
    ScanMisses(s.buckets, Rank(s.samples, percentile), 0);
  }

  /** The ring of recent sampled misses. */
  class DeadlineWindow {
    const misses: array<Option<nat>>
    const required: nat
    const window: nat
    var next: nat
    var count: nat
    ghost var times: seq<nat>

    ghost predicate Valid()
      reads this, misses
    {
      && misses.Length == MAX_MISSES && 1 <= required <= MAX_MISSES
      && next == |times| % required
      && count == Min(|times|, required)
      && forall k :: 0 <= k < |times| && k + required >= |times| ==> misses[k % required] == Some(times[k])
    }

    /** A policy asks for 1 to 5 misses per window; changing it starts a fresh window. */
    constructor (missesPerWindow: nat, window: nat)
      ensures Valid() && times == [] && fresh(misses)
      ensures required == Max(1, Min(missesPerWindow, MAX_MISSES)) && this.window == window
    {
      misses := new Option<nat>[MAX_MISSES](_ => None);
      required := Max(1, Min(missesPerWindow, MAX_MISSES));
      this.window := window;
      next, count, times := 0, 0, [];
    }

    /** True exactly when the last `required` misses, this one included, lie within one window. */
    method Record(now: nat) returns (degraded: bool)
      requires Valid()
      modifies this, misses
      ensures Valid() && times == old(times) + [now]
      ensures degraded <==> |times| >= required && SaturatingSub(now, times[|times| - required]) <= window
    {
      ghost var n := |times|;
      misses[next] := Some(now);
      next := (next + 1) % required;
      count := Min(count + 1, required);
      times := times + [now];
      Wraps(n, required);
      forall k | 0 <= k < |times| && k + required >= |times|
        ensures misses[k % required] == Some(times[k])
      {
        if k < n {
          DistinctSlots(k, n, required);
        }
      }
      if count < required {
        return false;
      }
      Wraps(n + 1 - required, required);
      assert next == (|times| - required) % required;
      match misses[next] {
        case Some(oldest) => degraded := SaturatingSub(now, oldest) <= window;
        case None => degraded := false;
      }
    }
  }

  lemma NoSmallMultiple(d: int, r: nat)
    ensures d == 0 || d * r >= r || d * r + r <= 0
  {
    if d >= 1 {
      assert d * r == (d - 1) * r + r;
    } else if d <= -1 {
      assert d * r == -((-d - 1) * r + r);
    }
  }

  lemma SameRemainder(a: nat, b: nat, r: nat, q: int)
    requires r >= 1 && a == b + q * r
    ensures a % r == b % r
  {
    var x, y := a / r, b / r;
    assert a == x * r + a % r && b == y * r + b % r;
    assert (x - y - q) * r == x * r - y * r - q * r;
    NoSmallMultiple(x - y - q, r);
  }

  lemma Wraps(n: nat, r: nat)
    requires r >= 1
    ensures (n % r + 1) % r == (n + 1) % r
    ensures (n + r) % r == n % r
  {
    SameRemainder(n + 1, n % r + 1, r, n / r);
    SameRemainder(n + r, n, r, 1);
  }

  lemma DistinctSlots(k: nat, n: nat, r: nat)
    requires k < n < k + r
    ensures k % r != n % r
  {
    var x, y := k / r, n / r;
    assert k == x * r + k % r && n == y * r + n % r;
    assert (y - x) * r == y * r - x * r;
    NoSmallMultiple(y - x, r);
  }
}
