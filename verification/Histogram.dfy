/** Log2 histograms and the numbers read off them (internal/syscalls/syscalls.go). */
module Histogram {
  import opened U64
  import opened Sums
  import opened Log2

  const HIST_BUCKETS: nat := 64

  type Buckets = b: seq<u64> | |b| == HIST_BUCKETS witness seq(HIST_BUCKETS, _ => 0)

  function Empty(): (b: Buckets)
    ensures forall i :: 0 <= i < HIST_BUCKETS ==> b[i] == 0
  {
    seq(HIST_BUCKETS, _ => 0)
  }

  /** How the machine rounds total * p to an integer in floating point: any function at all. */
  type Rounding = (u64, real) -> u64

  function Itself(): nat -> nat
  {
    (n: nat) => n
  }

  /** The exact number of samples in the first n buckets. */
  function Below(b: Buckets, n: nat): nat
    requires n <= HIST_BUCKETS
  {
    Sum(b[..n], Itself())
  }

  lemma BelowNext(b: Buckets, n: nat)
    requires n < HIST_BUCKETS
    ensures Below(b, n + 1) == Below(b, n) + b[n]
    ensures (Below(b, n) % SIZE + b[n]) % SIZE == Below(b, n + 1) % SIZE
  {
    assert b[..n + 1] == b[..n] + [b[n]];
    SumAppend<nat>(b[..n], b[n], Itself());
    AddToWrapped(Below(b, n), b[n]);
  }

  lemma {:induction false} BelowMonotone(b: Buckets, m: nat, n: nat)
    requires m <= n <= HIST_BUCKETS
    ensures Below(b, m) <= Below(b, n)
  {
    if m < n {
      BelowMonotone(b, m, n - 1);
      BelowNext(b, n - 1);
    }
  }

  /** The cumulative sample count, as the 64-bit accumulator has it. */
  method Total(b: Buckets) returns (sum: u64)
    ensures sum == Below(b, HIST_BUCKETS) % SIZE
  {
    sum := 0;
    for i := 0 to HIST_BUCKETS
      invariant sum == Below(b, i) % SIZE
    {
      BelowNext(b, i);
      sum := WrapAdd(sum, b[i]);
    }
  }

  /** k is the number of 1 to total that is nearest to the target. */
  predicate IsRank(k: nat, total: nat, target: nat)
  {
    && 1 <= k <= total
    && (1 <= target <= total ==> k == target)
    && (target == 0 ==> k == 1)
    && (target > total ==> k == total)
  }

  /** The 1-based rank that is looked up: the rounded product, clamped to 1..total. */
  function RankOf(total: u64, p: real, round: Rounding): (r: u64)
    requires total > 0
    ensures IsRank(r, total, round(total, p))
  {
    var target := round(total, p);
    if target == 0 then 1 else if target > total then total else target
  }

  /** The accumulator, after adding bucket i, is at the target. */
  predicate Reached(b: Buckets, target: nat, i: nat)
    requires i < HIST_BUCKETS
  {
    Below(b, i + 1) % SIZE >= target
  }

  /** The first bucket, from i on, at which the accumulated count reaches the target. */
  function FirstReaching(b: Buckets, target: nat, i: nat): (j: nat)
    requires i < HIST_BUCKETS
    requires target <= Below(b, HIST_BUCKETS) % SIZE
    ensures i <= j < HIST_BUCKETS
    ensures Reached(b, target, j)
    ensures forall m :: i <= m < j ==> !Reached(b, target, m)
    decreases HIST_BUCKETS - i
  {
    if Reached(b, target, i) then i else FirstReaching(b, target, i + 1)
  }

  function PercentileOf(b: Buckets, p: real, round: Rounding): nat
  {
    var total := Below(b, HIST_BUCKETS) % SIZE;
    if p < 0.0 || p > 1.0 || total == 0 then 0
    else Pow2(FirstReaching(b, RankOf(total, p, round), 0))
  }

  /** Percentile: two passes over the buckets, the second one stopping at the rank. */
  method Percentile(b: Buckets, p: real, round: Rounding) returns (value: nat)
    ensures value == PercentileOf(b, p, round)
    ensures p < 0.0 || p > 1.0 || Below(b, HIST_BUCKETS) % SIZE == 0 ==> value == 0
  {
    if p < 0.0 || p > 1.0 {
      return 0;
    }
    var total := Total(b);
    if total == 0 {
      return 0;
    }
    var target := round(total, p);
    if target == 0 {
      target := 1;
    }
    if target > total {
      target := total;
    }
    var cum: u64 := 0;
    var i := 0;
    while i < HIST_BUCKETS
      invariant i <= HIST_BUCKETS && cum == Below(b, i) % SIZE
      invariant i == HIST_BUCKETS ==> cum < target
      invariant i < HIST_BUCKETS ==> FirstReaching(b, target, 0) == FirstReaching(b, target, i)
    {
      BelowNext(b, i);
      cum := WrapAdd(cum, b[i]);
      if cum >= target {
        return Pow2(i);
      }
      i := i + 1;
    }
    assert false;
  }

  function Minus(cur: u64, prev: u64): u64
  {
    if cur >= prev then cur - prev else 0
  }

  function SubBucketsOf(cur: Buckets, prev: Buckets): (out: Buckets)
  {
    seq(HIST_BUCKETS, i requires 0 <= i < HIST_BUCKETS => Minus(cur[i], prev[i]))
  }

  /** SubBuckets: a bucket that went backwards stays at zero. */
  method SubBuckets(cur: Buckets, prev: Buckets) returns (out: Buckets)
    ensures out == SubBucketsOf(cur, prev)
    ensures forall i :: 0 <= i < HIST_BUCKETS && cur[i] >= prev[i] ==> out[i] + prev[i] == cur[i]
    ensures forall i :: 0 <= i < HIST_BUCKETS && cur[i] < prev[i] ==> out[i] == 0
  {
    out := Empty();
    for i := 0 to HIST_BUCKETS
      invariant forall j :: 0 <= j < i ==> out[j] == Minus(cur[j], prev[j])
      invariant forall j :: i <= j < HIST_BUCKETS ==> out[j] == 0
    {
      if cur[i] >= prev[i] {
        out := out[i := cur[i] - prev[i]];
      }
    }
  }

  function BucketLowerNs(i: int): nat
  {
    if i < 0 || i >= HIST_BUCKETS then 0 else Pow2(i)
  }

  function BucketUpperNs(i: int): nat
  {
    if i < 0 || i >= HIST_BUCKETS - 1 then 0 else Pow2(i + 1)
  }

  /** The first non-empty bucket from i on, or HIST_BUCKETS. */
  function FirstNonEmpty(b: Buckets, i: nat): (r: nat)
    requires i <= HIST_BUCKETS
    ensures i <= r <= HIST_BUCKETS
    ensures r < HIST_BUCKETS ==> b[r] > 0
    ensures forall j :: i <= j < r ==> b[j] == 0
    decreases HIST_BUCKETS - i
  {
    if i == HIST_BUCKETS || b[i] > 0 then i else FirstNonEmpty(b, i + 1)
  }

  /** The last non-empty bucket below n, or -1. */
  function LastNonEmpty(b: Buckets, n: nat): (r: int)
    requires n <= HIST_BUCKETS
    ensures -1 <= r < n
    ensures r >= 0 ==> b[r] > 0
    ensures forall j :: r < j < n ==> b[j] == 0
  {
    if n == 0 then -1 else if b[n - 1] > 0 then n - 1 else LastNonEmpty(b, n - 1)
  }

  function MinNsOf(b: Buckets): nat
  {
    BucketLowerNs(FirstNonEmpty(b, 0))
  }

  /** The topmost bucket has no upper bound in 64 bits; its lower bound stands in. */
  function MaxNsOf(b: Buckets): nat
  {
    var last := LastNonEmpty(b, HIST_BUCKETS);
    if last == HIST_BUCKETS - 1 then BucketLowerNs(last) else BucketUpperNs(last)
  }

  method MinNs(b: Buckets) returns (value: nat)
    ensures value == MinNsOf(b)
  {
    var i := 0;
    while i < HIST_BUCKETS
      invariant i <= HIST_BUCKETS && FirstNonEmpty(b, 0) == FirstNonEmpty(b, i)
    {
      if b[i] > 0 {
        return BucketLowerNs(i);
      }
      i := i + 1;
    }
    return 0;
  }

  method MaxNs(b: Buckets) returns (value: nat)
    ensures value == MaxNsOf(b)
  {
    var i := HIST_BUCKETS - 1;
    while i >= 0
      invariant -1 <= i < HIST_BUCKETS && LastNonEmpty(b, HIST_BUCKETS) == LastNonEmpty(b, i + 1)
    {
      if b[i] > 0 {
        if i == HIST_BUCKETS - 1 {
          return BucketLowerNs(i);
        }
        return BucketUpperNs(i);
      }
      i := i - 1;
    }
    return 0;
  }
}

/** What a histogram says about the samples that were counted into it. */
module OrderStatistics {
  import opened U64
  import opened Sums
  import opened Log2
  import opened Histogram

  function LessThan(s: nat): nat -> nat
  {
    (x: nat) => if x < s then 1 else 0
  }

  function UpTo(s: nat): nat -> nat
  {
    (x: nat) => if x <= s then 1 else 0
  }

  function InBucket(i: nat): nat -> nat
  {
    (x: nat) => if FloorLog2(x) == i then 1 else 0
  }

  function UnderBucket(i: nat): nat -> nat
  {
    (x: nat) => if FloorLog2(x) < i then 1 else 0
  }

  /** s is the k-th smallest of xs: it occurs, fewer than k lie below it and at least k do not exceed it. */
  ghost predicate IsKthSmallest(xs: seq<nat>, k: nat, s: nat)
  {
    s in xs && Sum(xs, LessThan(s)) < k <= Sum(xs, UpTo(s))
  }

  /** Every rank has its order statistic. */
  lemma KthSmallestExists(xs: seq<nat>, k: nat) returns (s: nat)
    requires 1 <= k <= |xs|
    ensures IsKthSmallest(xs, k, s)
  {
    s := Greatest(xs);
    AllUpTo(xs, s);
    while Sum(xs, LessThan(s)) >= k
      invariant s in xs && k <= Sum(xs, UpTo(s))
      decreases s
    {
      var lower := NextBelow(xs, s);
      SumSame(xs, LessThan(s), UpTo(lower));
      s := lower;
    }
  }

  lemma {:induction false} Greatest(xs: seq<nat>) returns (s: nat)
    requires xs != []
    ensures s in xs && forall x :: x in xs ==> x <= s
  {
    s := xs[0];
    for i := 1 to |xs|
      invariant s in xs && forall j :: 0 <= j < i ==> xs[j] <= s
    {
      if xs[i] > s {
        s := xs[i];
      }
    }
  }

  lemma {:induction false} AllUpTo(xs: seq<nat>, s: nat)
    requires forall x :: x in xs ==> x <= s
    ensures Sum(xs, UpTo(s)) == |xs|
  {
    if xs != [] {
      var front := xs[..|xs| - 1];
      assert forall x :: x in front ==> x in xs;
      AllUpTo(front, s);
      assert xs[|xs| - 1] in xs;
    }
  }

  /** The greatest element below s. */
  lemma NextBelow(xs: seq<nat>, s: nat) returns (lower: nat)
    requires Sum(xs, LessThan(s)) > 0
    ensures lower in xs && lower < s
    ensures forall x :: x in xs && x < s ==> x <= lower
  {
    if forall x :: x in xs ==> x >= s {
      SumZero(xs, LessThan(s));
      assert false;
    }
    lower :| lower in xs && lower < s;
    while exists x :: x in xs && lower < x < s
      invariant lower in xs && lower < s
      decreases s - lower
    {
      var closer :| closer in xs && lower < closer < s;
      lower := closer;
    }
  }

  /** h counts the samples xs, bucket by bucket. */
  ghost predicate Counts(h: Buckets, xs: seq<nat>)
  {
    forall i :: 0 <= i < HIST_BUCKETS ==> h[i] == Sum(xs, InBucket(i))
  }

  lemma {:induction false} BelowCounts(h: Buckets, xs: seq<nat>, n: nat)
    requires Counts(h, xs) && n <= HIST_BUCKETS
    ensures Below(h, n) == Sum(xs, UnderBucket(n))
  {
    if n == 0 {
      SumZero(xs, UnderBucket(0));
    } else {
      BelowCounts(h, xs, n - 1);
      BelowNext(h, n - 1);
      SumPlus(xs, UnderBucket(n - 1), InBucket(n - 1), UnderBucket(n));
    }
  }

  /** The samples a histogram can hold: 64-bit latencies that passed the sign test. */
  ghost predicate Measurable(xs: seq<nat>)
  {
    forall x :: x in xs ==> 0 < x < SIZE
  }

  lemma MeasurableInRange(x: nat)
    requires 0 < x < SIZE
    ensures FloorLog2(x) < HIST_BUCKETS
  {
    Powers();
    FloorLog2Brackets(x);
    if FloorLog2(x) >= HIST_BUCKETS {
      Pow2Monotone(HIST_BUCKETS, FloorLog2(x));
    }
  }

  lemma {:induction false} AllUnder(xs: seq<nat>)
    requires Measurable(xs)
    ensures Sum(xs, UnderBucket(HIST_BUCKETS)) == |xs|
  {
    if xs != [] {
      var front := xs[..|xs| - 1];
      assert forall x :: x in front ==> x in xs;
      AllUnder(front);
      assert xs[|xs| - 1] in xs;
      MeasurableInRange(xs[|xs| - 1]);
    }
  }

  lemma CountsTotal(h: Buckets, xs: seq<nat>)
    requires Counts(h, xs) && Measurable(xs)
    ensures Below(h, HIST_BUCKETS) == |xs|
  {
    BelowCounts(h, xs, HIST_BUCKETS);
    AllUnder(xs);
  }

  /** A sample in a lower bucket than s is smaller than s; one not above s is in no higher bucket. */
  lemma BucketsAndOrder(xs: seq<nat>, s: nat)
    requires Measurable(xs) && s > 0
    ensures Sum(xs, UnderBucket(FloorLog2(s))) <= Sum(xs, LessThan(s))
    ensures Sum(xs, UpTo(s)) <= Sum(xs, UnderBucket(FloorLog2(s) + 1))
  {
    forall x | x in xs
      ensures UnderBucket(FloorLog2(s))(x) <= LessThan(s)(x)
      ensures UpTo(s)(x) <= UnderBucket(FloorLog2(s) + 1)(x)
    {
      if x >= s {
        FloorLog2Monotone(s, x);
      }
      if x <= s {
        FloorLog2Monotone(x, s);
      }
    }
    SumLeq(xs, UnderBucket(FloorLog2(s)), LessThan(s));
    SumLeq(xs, UpTo(s), UnderBucket(FloorLog2(s) + 1));
  }

  lemma BelowExact(h: Buckets, xs: seq<nat>, n: nat)
    requires Counts(h, xs) && Measurable(xs) && |xs| < SIZE && n <= HIST_BUCKETS
    ensures Below(h, n) == Sum(xs, UnderBucket(n)) == Below(h, n) % SIZE
  {
    BelowCounts(h, xs, n);
    CountsTotal(h, xs);
    BelowMonotone(h, n, HIST_BUCKETS);
  }

  /** Rank selection stops in the bucket that holds the order statistic of the rank. */
  lemma {:induction false} RankedBucket(h: Buckets, xs: seq<nat>, k: nat, s: nat)
    requires Counts(h, xs) && Measurable(xs) && |xs| < SIZE && IsKthSmallest(xs, k, s)
    requires k <= Below(h, HIST_BUCKETS) % SIZE
    ensures FirstReaching(h, k, 0) == FloorLog2(s) < HIST_BUCKETS
  {
    var j, log := FirstReaching(h, k, 0), FloorLog2(s);
    BucketsAndOrder(xs, s);
    MeasurableInRange(s);
    BelowExact(h, xs, log);
    BelowExact(h, xs, log + 1);
    assert Reached(h, k, log);
    BelowExact(h, xs, j + 1);
    if log > j {
      BelowMonotone(h, j + 1, log);
    }
  }

  lemma PercentileIsRanked(h: Buckets, total: u64, p: real, round: Rounding)
    requires total == Below(h, HIST_BUCKETS) % SIZE && total > 0 && 0.0 <= p <= 1.0
    ensures PercentileOf(h, p, round) == Pow2(FirstReaching(h, RankOf(total, p, round), 0))
  {
  }

  /** The reported percentile brackets the order statistic of its rank within a factor of two. */
  lemma {:induction false} PercentileBrackets(h: Buckets, xs: seq<nat>, p: real, round: Rounding, k: nat, s: nat)
    requires Counts(h, xs) && Measurable(xs) && 0 < |xs| < SIZE
    requires 0.0 <= p <= 1.0
    requires IsRank(k, |xs|, round(|xs|, p)) && IsKthSmallest(xs, k, s)
    ensures PercentileOf(h, p, round) <= s < 2 * PercentileOf(h, p, round)
  {
    assert Below(h, HIST_BUCKETS) % SIZE == |xs| by {
      CountsTotal(h, xs);
      BelowExact(h, xs, HIST_BUCKETS);
    }
    PercentileIsRanked(h, |xs|, p, round);
    RankedBucket(h, xs, k, s);
    FloorLog2Brackets(s);
  }

  /** A greater fraction is never rounded to a smaller rank. */
  ghost predicate Monotone(round: Rounding)
  {
    forall total: u64, p: real, q: real :: 0.0 <= p <= q <= 1.0 ==> round(total, p) <= round(total, q)
  }

  /** The percentiles come in their order. */
  lemma {:induction false} PercentilesOrdered(h: Buckets, p: real, q: real, round: Rounding)
    requires 0.0 <= p <= q <= 1.0 && Monotone(round)
    ensures PercentileOf(h, p, round) <= PercentileOf(h, q, round)
  {
    var total := Below(h, HIST_BUCKETS) % SIZE;
    if total > 0 {
      assert round(total, p) <= round(total, q);
      var k, k' := RankOf(total, p, round), RankOf(total, q, round);
      PercentileIsRanked(h, total, p, round);
      PercentileIsRanked(h, total, q, round);
      assert Reached(h, k, FirstReaching(h, k', 0));
      Pow2Monotone(FirstReaching(h, k, 0), FirstReaching(h, k', 0));
    }
  }

  /** The bucket at a rank is not empty. */
  lemma RankedNotEmpty(h: Buckets, k: nat)
    requires 0 < k <= Below(h, HIST_BUCKETS) < SIZE
    ensures k <= Below(h, HIST_BUCKETS) % SIZE && h[FirstReaching(h, k, 0)] > 0
  {
    assert Below(h, HIST_BUCKETS) % SIZE == Below(h, HIST_BUCKETS);
    var j := FirstReaching(h, k, 0);
    BelowNext(h, j);
    BelowMonotone(h, j, HIST_BUCKETS);
    if j > 0 {
      assert !Reached(h, k, j - 1);
    }
  }

  lemma RankedWithin(h: Buckets, k: nat)
    requires 0 < k <= Below(h, HIST_BUCKETS) < SIZE
    ensures k <= Below(h, HIST_BUCKETS) % SIZE && MinNsOf(h) <= Pow2(FirstReaching(h, k, 0))
    ensures h[HIST_BUCKETS - 1] == 0 ==> Pow2(FirstReaching(h, k, 0)) < MaxNsOf(h)
  {
    RankedNotEmpty(h, k);
    var j, first, last := FirstReaching(h, k, 0), FirstNonEmpty(h, 0), LastNonEmpty(h, HIST_BUCKETS);
    Pow2Monotone(first, j);
    Pow2Monotone(j + 1, last + 1);
  }

  /** They lie between Min and Max. */
  lemma {:induction false} PercentileWithin(h: Buckets, p: real, round: Rounding)
    requires 0.0 <= p <= 1.0 && Below(h, HIST_BUCKETS) < SIZE
    ensures MinNsOf(h) <= PercentileOf(h, p, round)
    ensures Below(h, HIST_BUCKETS) > 0 && h[HIST_BUCKETS - 1] == 0 ==> PercentileOf(h, p, round) < MaxNsOf(h)
  {
    var total := Below(h, HIST_BUCKETS);
    if total == 0 {
      NothingBelow(h);
    } else {
      assert total % SIZE == total;
      PercentileIsRanked(h, total, p, round);
      RankedWithin(h, RankOf(total, p, round));
    }
  }

  lemma NothingBelow(h: Buckets)
    requires Below(h, HIST_BUCKETS) == 0
    ensures FirstNonEmpty(h, 0) == HIST_BUCKETS
  {
    var i := FirstNonEmpty(h, 0);
    if i < HIST_BUCKETS {
      BelowNext(h, i);
      BelowMonotone(h, i + 1, HIST_BUCKETS);
    }
  }

  /** Min and Max enclose every sample, as long as the topmost bucket is empty. */
  lemma {:induction false} MinMaxEnclose(h: Buckets, xs: seq<nat>, x: nat)
    requires Counts(h, xs) && Measurable(xs) && x in xs
    requires h[HIST_BUCKETS - 1] == 0
    ensures MinNsOf(h) <= x < MaxNsOf(h)
  {
    MeasurableInRange(x);
    FloorLog2Brackets(x);
    var log := FloorLog2(x);
    var i :| 0 <= i < |xs| && xs[i] == x;
    SumAtLeast(xs, i, InBucket(log));
    assert h[log] > 0;
    var first, last := FirstNonEmpty(h, 0), LastNonEmpty(h, HIST_BUCKETS);
    Pow2Monotone(first, log);
    Pow2Monotone(log + 1, last + 1);
  }

  /** Max is above every sample exactly when no sample is in the topmost bucket. */
  lemma {:induction false} MaxExactlyBelowTop(h: Buckets, xs: seq<nat>)
    requires Counts(h, xs) && Measurable(xs)
    ensures (forall x :: x in xs ==> x < MaxNsOf(h)) <==> h[HIST_BUCKETS - 1] == 0
  {
    if h[HIST_BUCKETS - 1] == 0 {
      forall x | x in xs
        ensures x < MaxNsOf(h)
      {
        MinMaxEnclose(h, xs, x);
      }
    } else {
      var x := SampleIn(xs, HIST_BUCKETS - 1);
      FloorLog2Brackets(x);
    }
  }

  /** And no tighter than a factor of two: some sample is below twice Min, and some is at least half of Max. */
  lemma {:induction false} MinMaxTight(h: Buckets, xs: seq<nat>)
    requires Counts(h, xs) && Measurable(xs)
    ensures if xs == [] then MinNsOf(h) == MaxNsOf(h) == 0
            else (exists x :: x in xs && x < 2 * MinNsOf(h)) && (exists x :: x in xs && MaxNsOf(h) <= 2 * x)
  {
    var first, last := FirstNonEmpty(h, 0), LastNonEmpty(h, HIST_BUCKETS);
    if xs == [] {
      assert forall i :: 0 <= i < HIST_BUCKETS ==> h[i] == Sum(xs, InBucket(i)) == 0;
    } else {
      NotAllEmpty(h, xs);
      var x := SampleIn(xs, first);
      var y := SampleIn(xs, last);
      FloorLog2Brackets(x);
      FloorLog2Brackets(y);
    }
  }

  lemma NotAllEmpty(h: Buckets, xs: seq<nat>)
    requires Counts(h, xs) && Measurable(xs) && xs != []
    ensures FirstNonEmpty(h, 0) < HIST_BUCKETS && LastNonEmpty(h, HIST_BUCKETS) >= 0
  {
    var log := FloorLog2(xs[0]);
    assert xs[0] in xs;
    MeasurableInRange(xs[0]);
    SumAtLeast(xs, 0, InBucket(log));
    assert h[log] > 0;
  }

  lemma {:induction false} SampleIn(xs: seq<nat>, log: nat) returns (x: nat)
    requires Sum(xs, InBucket(log)) > 0 && Measurable(xs)
    ensures x in xs && x > 0 && FloorLog2(x) == log
  {
    if !exists y :: y in xs && FloorLog2(y) == log {
      SumZero(xs, InBucket(log));
    }
    x :| x in xs && FloorLog2(x) == log;
  }
}
