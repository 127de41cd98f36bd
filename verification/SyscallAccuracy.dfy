/** Sums of reports over whole runs, and what the reported percentiles mean. */
module SyscallAccuracy {
  import opened Wrappers
  import opened U64
  import opened Sums
  import opened Histogram
  import opened OrderStatistics
  import opened SyscallKernel
  import opened SyscallRuns
  import opened SyscallAggregator
  import opened SyscallPolling
  import opened SyscallReports

  // ----- the running sum of delta counts

  /** From where in the log on the first successful poll knew nothing about the key. */
  function Origin(u: User, key: Key): nat
  {
    if key in u.first then u.first[key].at else u.firstSince
  }

  /** The increments of the key between the first successful poll and the last one. */
  function Covered(s: System, key: Key): seq<Record>
  {
    Slice(s.kernel.recorded, Origin(s.user, key), Base(s.user, key))
  }

  ghost predicate Bounded(s: System, key: Key)
  {
    && (s.user.prevTime.None? ==> Reported(s, key) == 0)
    && (s.user.prevTime.Some? ==> Origin(s.user, key) <= Base(s.user, key))
    && Reported(s, key) <= Sum(Covered(s, key), OfKey(key))
  }

  function NextBase(s: System, key: Key): nat
    requires s.user.scan.Scanning?
  {
    if key in s.user.scan.seen then s.user.scan.seen[key].at else s.user.scan.since
  }

  lemma PollDoneIs(s: System, key: Key)
    requires s.user.scan.Scanning?
    ensures var s' := StepPollDone(s);
            && s'.kernel == s.kernel
            && Reported(s', key) == Reported(s, key) + NewlyReported(s, key)
            && Base(s'.user, key) == NextBase(s, key)
            && (s.user.prevTime.Some? ==> Origin(s'.user, key) == Origin(s.user, key))
            && (s.user.prevTime.None? ==> Origin(s'.user, key) == NextBase(s, key))
            && s'.user.prevTime.Some?
  {
  }

  lemma BasesAdvance(s: System, key: Key)
    requires Inv(s) && s.user.scan.Scanning?
    ensures Base(s.user, key) <= NextBase(s, key) <= |s.kernel.recorded|
  {
    if key in s.user.scan.seen {
      BaseBeforeRead(s, key);
    }
  }

  lemma NewlyReportedBounded(s: System, key: Key)
    requires Inv(s) && s.user.scan.Scanning?
    ensures NewlyReported(s, key) <= Sum(Slice(s.kernel.recorded, Base(s.user, key), NextBase(s, key)), OfKey(key))
    ensures s.user.prevTime.None? ==> NewlyReported(s, key) == 0
  {
    if key in s.user.scan.seen {
      DeltaAtMostWindow(s, key);
      DeltaIs(s, key);
    }
  }

  lemma SliceJoin(log: seq<Record>, lo: nat, mid: nat, hi: nat, w: Record -> nat)
    requires lo <= mid <= hi <= |log|
    ensures Sum(Slice(log, lo, hi), w) == Sum(Slice(log, lo, mid), w) + Sum(Slice(log, mid, hi), w)
  {
    assert log[lo..hi] == log[lo..mid] + log[mid..hi];
    SumConcat(log[lo..mid], log[mid..hi], w);
  }

  lemma BoundedDone(s: System, key: Key)
    requires Inv(s) && s.user.scan.Scanning? && Bounded(s, key)
    ensures Bounded(StepPollDone(s), key)
  {
    BasesAdvance(s, key);
    NewlyReportedBounded(s, key);
    PollDoneIs(s, key);
    if s.user.prevTime.Some? {
      SliceJoin(s.kernel.recorded, Origin(s.user, key), Base(s.user, key), NextBase(s, key), OfKey(key));
    }
  }

  lemma BaseInLog(s: System, key: Key)
    requires Inv(s)
    ensures Base(s.user, key) <= |s.kernel.recorded|
  {
    if key in s.user.prev {
      assert GoodRead(s.kernel, key, s.user.prev[key]);
    }
  }

  lemma CoveredSame(s: System, a: Action, key: Key)
    requires Inv(s)
    ensures Covered(StepSystem(s, Kernel(a)), key) == Covered(s, key)
  {
    BaseInLog(s, key);
    StepExtends(s.kernel, a);
    var log, log' := s.kernel.recorded, Step(s.kernel, a).recorded;
    var lo, hi := Origin(s.user, key), Base(s.user, key);
    if lo <= hi {
      assert log'[lo..hi] == log[lo..hi];
    }
  }

  lemma BoundedStep(s: System, m: Move, key: Key)
    requires Inv(s) && Bounded(s, key)
    ensures Bounded(StepSystem(s, m), key)
  {
    match m
    case Kernel(a) =>
      CoveredSame(s, a, key);
    case PollDone =>
      if Complete(s) {
        BoundedDone(s, key);
      }
    case PollStart(_) =>
      assert Covered(StepSystem(s, m), key) == Covered(s, key);
    case PollRead(_) =>
      assert Covered(StepSystem(s, m), key) == Covered(s, key);
    case PollFail =>
      assert Covered(StepSystem(s, m), key) == Covered(s, key);
  }

  lemma {:induction false} BoundedRun(threads: seq<u64>, round: Rounding, moves: seq<Move>, key: Key)
    ensures Bounded(After(threads, round, moves), key)
  {
    if moves != [] {
      BoundedRun(threads, round, moves[..|moves| - 1], key);
      InvRun(threads, round, moves[..|moves| - 1]);
      BoundedStep(After(threads, round, moves[..|moves| - 1]), moves[|moves| - 1], key);
    }
  }

  /** The sum of the delta counts in all the records of the key, poll by poll. */
  ghost function SumReported(threads: seq<u64>, round: Rounding, moves: seq<Move>, key: Key): nat
  {
    if moves == [] then 0
    else
      var front := moves[..|moves| - 1];
      var s := After(threads, round, front);
      SumReported(threads, round, front, key)
      + (if moves[|moves| - 1].PollDone? && Complete(s) && key in s.user.scan.seen then Reports(s)[key].deltaCount
         else 0)
  }

  lemma {:induction false} ReportedIs(threads: seq<u64>, round: Rounding, moves: seq<Move>, key: Key)
    ensures Reported(After(threads, round, moves), key) == SumReported(threads, round, moves, key)
  {
    if moves != [] {
      var front := moves[..|moves| - 1];
      ReportedIs(threads, round, front, key);
      ReportedNext(After(threads, round, front), moves[|moves| - 1], key);
    }
  }

  lemma ReportedNext(s: System, m: Move, key: Key)
    requires Sized(s.kernel)
    ensures Reported(StepSystem(s, m), key)
         == Reported(s, key) + (if m.PollDone? && Complete(s) && key in s.user.scan.seen
                                then Reports(s)[key].deltaCount else 0)
  {
    if m.PollDone? && Complete(s) {
      PollDoneIs(s, key);
    }
  }

  /**
   Over any run, with any evictions, failed polls and clock readings: the delta counts
   reported for a key add up to no more than the samples of the key that were added after
   the first successful poll looked and before the last one did.
   */
  lemma RunningSumNeverOverReports(threads: seq<u64>, round: Rounding, moves: seq<Move>, key: Key)
    ensures SumReported(threads, round, moves, key) <= Sum(Covered(After(threads, round, moves), key), OfKey(key))
  {
    BoundedRun(threads, round, moves, key);
    ReportedIs(threads, round, moves, key);
  }

  // ----- keys that are never evicted

  /** The key's reads are all of its present entry. */
  ghost predicate KeptReads(s: System, key: Key)
  {
    var k, u := s.kernel, s.user;
    && OneEntry(k, key)
    && (key in u.prev ==> key in k.lat && u.prev[key].entry == k.lat[key])
    && (u.scan.Scanning? && key in u.scan.seen ==> key in k.lat && u.scan.seen[key].entry == k.lat[key])
  }

  lemma KeptReadsStep(s: System, m: Move, key: Key)
    requires Inv(s) && KeptReads(s, key) && m != Kernel(EvictLat(key))
    ensures KeptReads(StepSystem(s, m), key)
  {
    if m.Kernel? {
      OneEntryStep(s.kernel, m.a, key);
    }
  }

  lemma {:induction false} KeptReadsRun(threads: seq<u64>, round: Rounding, moves: seq<Move>, key: Key)
    requires Kernel(EvictLat(key)) !in moves
    ensures KeptReads(After(threads, round, moves), key)
  {
    if moves != [] {
      KeptReadsRun(threads, round, moves[..|moves| - 1], key);
      InvRun(threads, round, moves[..|moves| - 1]);
      KeptReadsStep(After(threads, round, moves[..|moves| - 1]), moves[|moves| - 1], key);
    }
  }

  lemma SliceIn(log: seq<Record>, lo: nat, hi: nat)
    ensures forall r :: r in Slice(log, lo, hi) ==> r in log
  {
  }

  lemma KeptSlice(s: System, key: Key, lo: nat, hi: nat, i: nat)
    requires Inv(s) && OneEntry(s.kernel, key) && key in s.kernel.lat
    ensures var part := Slice(s.kernel.recorded, lo, hi);
            Sum(part, OnBucket(s.kernel.lat[key], i)) == Sum(part, Recorded(OfKeyIn(key, i)))
  {
    var part, e := Slice(s.kernel.recorded, lo, hi), s.kernel.lat[key];
    SliceIn(s.kernel.recorded, lo, hi);
    forall r | r in part
      ensures OnBucket(e, i)(r) == Recorded(OfKeyIn(key, i))(r)
    {
      assert r in s.kernel.recorded;
    }
    SumSame(part, OnBucket(e, i), Recorded(OfKeyIn(key, i)));
  }

  // ----- histograms of latencies

  /** The latencies of the key's samples, in the order they were added. */
  function LatenciesOf(log: seq<Record>, key: Key): seq<nat>
  {
    if log == [] then []
    else
      var last := log[|log| - 1].sample;
      LatenciesOf(log[..|log| - 1], key) + (if last.key == key then [last.latency] else [])
  }

  lemma {:induction false} LatenciesCounted(log: seq<Record>, key: Key, i: nat)
    ensures Sum(LatenciesOf(log, key), InBucket(i)) == Sum(log, Recorded(OfKeyIn(key, i)))
    ensures |LatenciesOf(log, key)| == Sum(log, OfKey(key))
  {
    if log != [] {
      var front, last := log[..|log| - 1], log[|log| - 1].sample;
      LatenciesCounted(front, key, i);
      if last.key == key {
        SumAppend(LatenciesOf(front, key), last.latency, InBucket(i));
      } else {
        assert LatenciesOf(log, key) == LatenciesOf(front, key);
      }
    }
  }

  lemma {:induction false} LatenciesFrom(log: seq<Record>, key: Key, x: nat)
    requires x in LatenciesOf(log, key)
    ensures exists r :: r in log && r.sample.key == key && r.sample.latency == x
  {
    var front := log[..|log| - 1];
    if x in LatenciesOf(front, key) {
      LatenciesFrom(front, key, x);
      var r :| r in front && r.sample.key == key && r.sample.latency == x;
      assert r in log;
    } else {
      assert log[|log| - 1] in log;
    }
  }

  lemma LatenciesMeasurable(s: System, key: Key, lo: nat, hi: nat)
    requires Inv(s)
    ensures var xs := LatenciesOf(Slice(s.kernel.recorded, lo, hi), key);
            Measurable(xs) && forall x :: x in xs ==> PassesSignTest(x)
  {
    var part := Slice(s.kernel.recorded, lo, hi);
    SliceIn(s.kernel.recorded, lo, hi);
    forall x | x in LatenciesOf(part, key)
      ensures PassesSignTest(x)
    {
      LatenciesFrom(part, key, x);
      var r :| r in part && r.sample.latency == x;
      assert r in s.kernel.recorded && GoodSample(s.kernel.threads, r.sample);
    }
  }

  lemma LatenciesBelow63(s: System, key: Key, lo: nat, hi: nat)
    requires Inv(s)
    ensures Sum(LatenciesOf(Slice(s.kernel.recorded, lo, hi), key), InBucket(HIST_BUCKETS - 1)) == 0
  {
    var xs := LatenciesOf(Slice(s.kernel.recorded, lo, hi), key);
    LatenciesMeasurable(s, key, lo, hi);
    forall x | x in xs
      ensures InBucket(HIST_BUCKETS - 1)(x) == 0
    {
      BucketIsLog(x);
    }
    SumZero(xs, InBucket(HIST_BUCKETS - 1));
  }

  /** The interval's histogram counts exactly the latencies of the interval. */
  lemma DifferenceCounts(s: System, key: Key)
    requires Inv(s) && KeptReads(s, key) && s.user.scan.Scanning? && key in s.user.scan.seen
    requires |s.kernel.recorded| < SIZE
    ensures Counts(Difference(s, key), LatenciesOf(Window(s, key), key))
  {
    forall i | 0 <= i < HIST_BUCKETS
      ensures Difference(s, key)[i] == Sum(LatenciesOf(Window(s, key), key), InBucket(i))
    {
      BucketDifference(s, key, i);
      KeptSlice(s, key, Base(s.user, key), s.user.scan.seen[key].at, i);
      LatenciesCounted(Window(s, key), key, i);
    }
  }

  lemma ReadBucket(s: System, key: Key, read: Read, i: nat)
    requires Inv(s) && OneEntry(s.kernel, key) && |s.kernel.recorded| < SIZE && i < HIST_BUCKETS
    requires GoodRead(s.kernel, key, read) && key in s.kernel.lat && s.kernel.lat[key] == read.entry
    ensures read.value[i] == Sum(Slice(s.kernel.recorded, 0, read.at), Recorded(OfKeyIn(key, i)))
  {
    ReadCounts(s, key, read, i);
    var n := Sum(s.kernel.recorded[..read.at], OnBucket(read.entry, i));
    assert n % SIZE == n;
    KeptSlice(s, key, 0, read.at, i);
  }

  /** A snapshot counts exactly the latencies added until it was read. */
  lemma SnapshotCounts(s: System, key: Key, read: Read)
    requires Inv(s) && OneEntry(s.kernel, key) && |s.kernel.recorded| < SIZE
    requires GoodRead(s.kernel, key, read) && key in s.kernel.lat && s.kernel.lat[key] == read.entry
    ensures Counts(read.value, LatenciesOf(Slice(s.kernel.recorded, 0, read.at), key))
  {
    var part := Slice(s.kernel.recorded, 0, read.at);
    forall i | 0 <= i < HIST_BUCKETS
      ensures read.value[i] == Sum(LatenciesOf(part, key), InBucket(i))
    {
      ReadBucket(s, key, read, i);
      LatenciesCounted(part, key, i);
    }
  }

  lemma SnapshotTotal(s: System, key: Key, read: Read)
    requires Inv(s) && OneEntry(s.kernel, key) && |s.kernel.recorded| < SIZE
    requires GoodRead(s.kernel, key, read) && key in s.kernel.lat && s.kernel.lat[key] == read.entry
    ensures Below(read.value, HIST_BUCKETS) == Sum(Slice(s.kernel.recorded, 0, read.at), OfKey(key))
  {
    SnapshotCounts(s, key, read);
    LatenciesMeasurable(s, key, 0, read.at);
    CountsTotal(read.value, LatenciesOf(Slice(s.kernel.recorded, 0, read.at), key));
    SliceShort(s.kernel.recorded, 0, read.at, key);
  }

  lemma SliceShort(log: seq<Record>, lo: nat, hi: nat, key: Key)
    ensures |LatenciesOf(Slice(log, lo, hi), key)| == Sum(Slice(log, lo, hi), OfKey(key)) <= |log|
  {
    LatenciesCounted(Slice(log, lo, hi), key, 0);
    SumAtMostLength(Slice(log, lo, hi), OfKey(key));
  }

  lemma DifferenceTotal(s: System, key: Key)
    requires Inv(s) && KeptReads(s, key) && s.user.scan.Scanning? && key in s.user.scan.seen
    requires |s.kernel.recorded| < SIZE
    ensures Below(Difference(s, key), HIST_BUCKETS) == |LatenciesOf(Window(s, key), key)| < SIZE
  {
    var lo, hi := Base(s.user, key), s.user.scan.seen[key].at;
    DifferenceCounts(s, key);
    LatenciesMeasurable(s, key, lo, hi);
    CountsTotal(Difference(s, key), LatenciesOf(Window(s, key), key));
    SliceShort(s.kernel.recorded, lo, hi, key);
  }

  lemma DeltaOfExact(cur: Buckets, prev: Buckets, elapsed: int)
    requires Below(SubBucketsOf(cur, prev), HIST_BUCKETS) < SIZE && elapsed > 0
    ensures DeltaOf(cur, prev, elapsed) == Below(SubBucketsOf(cur, prev), HIST_BUCKETS)
  {
  }

  /** On a later poll the delta count is the number of samples of the key in the interval. */
  lemma DeltaExact(s: System, key: Key)
    requires Inv(s) && KeptReads(s, key) && s.user.scan.Scanning? && key in s.user.scan.seen
    requires |s.kernel.recorded| < SIZE && Elapsed(s) > 0
    ensures Reports(s)[key].deltaCount == |LatenciesOf(Window(s, key), key)| == Sum(Window(s, key), OfKey(key))
  {
    DifferenceTotal(s, key);
    DeltaOfExact(CurOf(s, key), PrevValue(s.user, key), Elapsed(s));
    DeltaIs(s, key);
    SliceShort(s.kernel.recorded, Base(s.user, key), s.user.scan.seen[key].at, key);
  }

  /** The poll under way comes later than the last one. */
  predicate Later(u: User)
  {
    u.scan.Scanning? && u.prevTime.Some? && u.scan.now > u.prevTime.value
  }

  /** The interval of the poll has samples of the key. */
  predicate Fresh(s: System, key: Key)
    requires s.user.scan.Scanning? && key in s.user.scan.seen
  {
    Later(s.user) && LatenciesOf(Window(s, key), key) != []
  }

  /** The samples a report speaks about: the interval's, or all so far when there are none or no interval. */
  function Subject(s: System, key: Key): seq<nat>
    requires s.user.scan.Scanning? && key in s.user.scan.seen
  {
    LatenciesOf(if Fresh(s, key) then Window(s, key) else Slice(s.kernel.recorded, 0, s.user.scan.seen[key].at), key)
  }

  function Chosen(s: System, key: Key): Buckets
    requires s.user.scan.Scanning? && key in s.user.scan.seen
  {
    if Fresh(s, key) then Difference(s, key) else CurOf(s, key)
  }

  lemma ChosenCounts(s: System, key: Key)
    requires Inv(s) && KeptReads(s, key) && s.user.scan.Scanning? && key in s.user.scan.seen
    requires |s.kernel.recorded| < SIZE
    ensures Counts(Chosen(s, key), Subject(s, key)) && Measurable(Subject(s, key)) && |Subject(s, key)| < SIZE
    ensures Chosen(s, key)[HIST_BUCKETS - 1] == 0
  {
    var base, at := Base(s.user, key), s.user.scan.seen[key].at;
    DifferenceCounts(s, key);
    SnapshotCounts(s, key, s.user.scan.seen[key]);
    LatenciesMeasurable(s, key, base, at);
    LatenciesMeasurable(s, key, 0, at);
    LatenciesBelow63(s, key, base, at);
    LatenciesBelow63(s, key, 0, at);
    SliceShort(s.kernel.recorded, base, at, key);
    SliceShort(s.kernel.recorded, 0, at, key);
  }

  lemma LaterIs(s: System)
    requires s.user.scan.Scanning?
    ensures Elapsed(s) > 0 <==> Later(s.user)
    ensures Elapsed(s) == if s.user.prevTime.Some? then s.user.scan.now - s.user.prevTime.value else 0
  {
  }

  /** The delta count on any poll. */
  lemma DeltaCountIs(s: System, key: Key)
    requires Inv(s) && KeptReads(s, key) && s.user.scan.Scanning? && key in s.user.scan.seen
    requires |s.kernel.recorded| < SIZE
    ensures Reports(s)[key].deltaCount == if Later(s.user) then |LatenciesOf(Window(s, key), key)| else 0
  {
    LaterIs(s);
    if Later(s.user) {
      DeltaExact(s, key);
    } else {
      DeltaIs(s, key);
    }
  }

  lemma ChosenIs(s: System, key: Key)
    requires Inv(s) && KeptReads(s, key) && s.user.scan.Scanning? && key in s.user.scan.seen
    requires |s.kernel.recorded| < SIZE
    ensures Chosen(s, key) == ChosenOf(CurOf(s, key), PrevValue(s.user, key), Elapsed(s))
  {
    DeltaIs(s, key);
    DeltaCountIs(s, key);
  }

  lemma ReportFields(s: System, key: Key)
    requires Inv(s) && KeptReads(s, key) && s.user.scan.Scanning? && key in s.user.scan.seen
    requires |s.kernel.recorded| < SIZE
    ensures var report, hist := Reports(s)[key], Chosen(s, key);
            && report.key == key && report.lastInterval == Elapsed(s)
            && report.p50 == PercentileOf(hist, 0.5, s.round)
            && report.p90 == PercentileOf(hist, 0.9, s.round)
            && report.p99 == PercentileOf(hist, 0.99, s.round)
            && report.minNs == MinNsOf(hist) && report.maxNs == MaxNsOf(hist)
            && report.count == Below(CurOf(s, key), HIST_BUCKETS) % SIZE
  {
    ReportIs(s, key);
    ChosenIs(s, key);
  }

  /** The reported value brackets the order statistic of the rank that is nearest to the rounded product. */
  ghost predicate Brackets(value: nat, p: real, round: Rounding, xs: seq<nat>)
  {
    && (xs == [] ==> value == 0)
    && (0 < |xs| < SIZE ==>
          forall k: nat, x: nat :: IsRank(k, |xs|, round(|xs|, p)) && IsKthSmallest(xs, k, x) ==>
            value <= x < 2 * value)
  }

  lemma PercentileBracketsAll(h: Buckets, xs: seq<nat>, p: real, round: Rounding)
    requires Counts(h, xs) && Measurable(xs) && 0.0 <= p <= 1.0
    ensures Brackets(PercentileOf(h, p, round), p, round, xs)
  {
    if xs == [] {
      CountsTotal(h, xs);
    } else if |xs| < SIZE {
      forall k: nat, x: nat | IsRank(k, |xs|, round(|xs|, p)) && IsKthSmallest(xs, k, x)
        ensures PercentileOf(h, p, round) <= x < 2 * PercentileOf(h, p, round)
      {
        PercentileBrackets(h, xs, p, round, k, x);
      }
    }
  }

  /** The bounds enclose the latencies, and no more loosely than by a factor of two. */
  ghost predicate Encloses(low: nat, high: nat, xs: seq<nat>)
  {
    if xs == [] then low == high == 0
    else
      && (forall x :: x in xs ==> low <= x < high)
      && (exists x :: x in xs && x < 2 * low)
      && (exists x :: x in xs && high <= 2 * x)
  }

  /** The report says of the key's latencies what it should. */
  ghost predicate Accurate(s: System, key: Key, report: Report)
    requires s.user.scan.Scanning? && key in s.user.scan.seen
  {
    var window, xs := LatenciesOf(Window(s, key), key), Subject(s, key);
    && report.key == key
    && report.count == |LatenciesOf(Slice(s.kernel.recorded, 0, s.user.scan.seen[key].at), key)|
    && report.deltaCount == (if Later(s.user) then |window| else 0)
    && report.lastInterval == (if s.user.prevTime.Some? then s.user.scan.now - s.user.prevTime.value else 0)
    && Brackets(report.p50, 0.5, s.round, xs)
    && Brackets(report.p90, 0.9, s.round, xs)
    && Brackets(report.p99, 0.99, s.round, xs)
    && Encloses(report.minNs, report.maxNs, xs)
  }

  /**
   From the tracepoints to the table: while a key is not evicted and fewer than 2^64 samples
   exist, the latencies a report speaks about are those added since the previous poll read
   the key (if the clock advanced and there are any, and otherwise all of them); each
   percentile P is at most the order statistic of its rank, which is below 2P; and Min and
   Max enclose every one of the latencies. Other keys may be evicted at will.
   */
  lemma {:induction false} ReportsAreAccurate(threads: seq<u64>, round: Rounding, moves: seq<Move>, key: Key)
    requires Kernel(EvictLat(key)) !in moves
    requires var s := After(threads, round, moves);
             s.user.scan.Scanning? && key in s.user.scan.seen && |s.kernel.recorded| < SIZE
    ensures var s := After(threads, round, moves);
            s.round == round && Accurate(s, key, Reports(s)[key])
  {
    InvRun(threads, round, moves);
    KeptReadsRun(threads, round, moves, key);
    SameRounding(threads, round, moves);
    AccurateState(After(threads, round, moves), key);
  }

  lemma {:induction false} SameRounding(threads: seq<u64>, round: Rounding, moves: seq<Move>)
    ensures After(threads, round, moves).round == round
  {
    if moves != [] {
      SameRounding(threads, round, moves[..|moves| - 1]);
    }
  }

  lemma ReadTotal(s: System, key: Key)
    requires Inv(s) && KeptReads(s, key) && s.user.scan.Scanning? && key in s.user.scan.seen
    requires |s.kernel.recorded| < SIZE
    ensures var all := LatenciesOf(Slice(s.kernel.recorded, 0, s.user.scan.seen[key].at), key);
            Below(CurOf(s, key), HIST_BUCKETS) == |all| < SIZE
  {
    SnapshotTotal(s, key, s.user.scan.seen[key]);
    SliceShort(s.kernel.recorded, 0, s.user.scan.seen[key].at, key);
  }

  lemma Whole(n: nat)
    requires n < SIZE
    ensures n % SIZE == n
  {
  }

  /** The count is the number of all latencies added until the read. */
  lemma CountIs(s: System, key: Key)
    requires Inv(s) && KeptReads(s, key) && s.user.scan.Scanning? && key in s.user.scan.seen
    requires |s.kernel.recorded| < SIZE
    ensures Reports(s)[key].count == |LatenciesOf(Slice(s.kernel.recorded, 0, s.user.scan.seen[key].at), key)|
  {
    ReadTotal(s, key);
    ReportFields(s, key);
    Whole(Below(CurOf(s, key), HIST_BUCKETS));
  }

  lemma {:induction false} AccurateState(s: System, key: Key)
    requires Inv(s) && KeptReads(s, key) && s.user.scan.Scanning? && key in s.user.scan.seen
    requires |s.kernel.recorded| < SIZE
    ensures Accurate(s, key, Reports(s)[key])
  {
    CountIs(s, key);
    DeltaCountIs(s, key);
    LaterIs(s);
    FiguresAreAccurate(s, key);
  }

  lemma FiguresAreAccurate(s: System, key: Key)
    requires Inv(s) && KeptReads(s, key) && s.user.scan.Scanning? && key in s.user.scan.seen
    requires |s.kernel.recorded| < SIZE
    ensures var report, xs := Reports(s)[key], Subject(s, key);
            && report.key == key && report.lastInterval == Elapsed(s)
            && Brackets(report.p50, 0.5, s.round, xs)
            && Brackets(report.p90, 0.9, s.round, xs)
            && Brackets(report.p99, 0.99, s.round, xs)
            && Encloses(report.minNs, report.maxNs, xs)
  {
    var hist, xs := Chosen(s, key), Subject(s, key);
    ChosenCounts(s, key);
    ReportFields(s, key);
    PercentileBracketsAll(hist, xs, 0.5, s.round);
    PercentileBracketsAll(hist, xs, 0.9, s.round);
    PercentileBracketsAll(hist, xs, 0.99, s.round);
    BoundsEnclose(hist, xs);
  }

  lemma BoundsEnclose(h: Buckets, xs: seq<nat>)
    requires Counts(h, xs) && Measurable(xs) && h[HIST_BUCKETS - 1] == 0
    ensures Encloses(MinNsOf(h), MaxNsOf(h), xs)
  {
    MinMaxTight(h, xs);
    forall x | x in xs
      ensures MinNsOf(h) <= x < MaxNsOf(h)
    {
      MinMaxEnclose(h, xs, x);
    }
  }

  // ----- telescoping

  /** The delta counts so far are exactly the samples between the first and the last successful poll. */
  ghost predicate Exact(s: System, key: Key)
  {
    s.user.strict && |s.kernel.recorded| < SIZE ==> Reported(s, key) == Sum(Covered(s, key), OfKey(key))
  }

  /** What the poll reports as new is what its interval holds. */
  lemma NewlyReportedExact(s: System, key: Key)
    requires Inv(s) && KeptReads(s, key) && Complete(s) && Elapsed(s) > 0 && |s.kernel.recorded| < SIZE
    ensures NewlyReported(s, key) == Sum(Slice(s.kernel.recorded, Base(s.user, key), NextBase(s, key)), OfKey(key))
  {
    if key in s.user.scan.seen {
      DeltaExact(s, key);
    } else {
      UnseenHasNoSamples(s, key);
    }
  }

  lemma ExactDone(s: System, key: Key)
    requires Inv(s) && KeptReads(s, key) && Bounded(s, key) && Exact(s, key) && Complete(s)
    requires s.user.prevTime.Some? && StepPollDone(s).user.strict && |s.kernel.recorded| < SIZE
    ensures Exact(StepPollDone(s), key)
  {
    BasesAdvance(s, key);
    PollDoneIs(s, key);
    SliceJoin(s.kernel.recorded, Origin(s.user, key), Base(s.user, key), NextBase(s, key), OfKey(key));
    NewlyReportedExact(s, key);
  }

  /** A key the complete scan did not see had no sample before the scan began. */
  lemma UnseenHasNoSamples(s: System, key: Key)
    requires Inv(s) && KeptReads(s, key) && Complete(s) && key !in s.user.scan.seen
    ensures key !in s.user.prev
    ensures Sum(Slice(s.kernel.recorded, 0, s.user.scan.since), OfKey(key)) == 0
    ensures Sum(Slice(s.kernel.recorded, Base(s.user, key), s.user.scan.since), OfKey(key)) == 0
  {
    forall p | 0 <= p < s.user.scan.since
      ensures OfKey(key)(s.kernel.recorded[p]) == 0
    {
      assert s.kernel.recorded[p] in s.kernel.recorded;
      assert s.kernel.recorded[p].entry < s.user.scan.heapAt;
    }
    SumZero(Slice(s.kernel.recorded, 0, s.user.scan.since), OfKey(key));
    SumZero(Slice(s.kernel.recorded, Base(s.user, key), s.user.scan.since), OfKey(key));
  }

  /** What the first successful poll saw of the key is what there was. */
  ghost predicate GoodFirst(s: System, key: Key)
  {
    var k, u := s.kernel, s.user;
    u.prevTime.Some? ==>
      && u.firstSince <= |k.recorded|
      && (key in u.first ==> GoodRead(k, key, u.first[key]) && key in k.lat && k.lat[key] == u.first[key].entry)
      && (key !in u.first ==> Sum(Slice(k.recorded, 0, u.firstSince), OfKey(key)) == 0)
  }

  lemma GoodFirstKernel(s: System, a: Action, key: Key)
    requires Entries(s.kernel) && GoodFirst(s, key) && a != EvictLat(key)
    ensures GoodFirst(s.(kernel := Step(s.kernel, a)), key)
  {
    var k, k', u := s.kernel, Step(s.kernel, a), s.user;
    StepExtends(k, a);
    if u.prevTime.Some? {
      assert Slice(k'.recorded, 0, u.firstSince) == Slice(k.recorded, 0, u.firstSince);
      if key in u.first {
        GoodReadExtends(k, k', key, u.first[key]);
      }
    }
  }

  lemma GoodFirstDone(s: System, key: Key)
    requires Inv(s) && KeptReads(s, key) && Complete(s) && s.user.prevTime.None?
    ensures GoodFirst(StepPollDone(s), key)
  {
    if key !in s.user.scan.seen {
      UnseenHasNoSamples(s, key);
    }
  }

  lemma GoodFirstStep(s: System, m: Move, key: Key)
    requires Inv(s) && KeptReads(s, key) && GoodFirst(s, key) && m != Kernel(EvictLat(key))
    ensures GoodFirst(StepSystem(s, m), key)
  {
    match m
    case Kernel(a) => GoodFirstKernel(s, a, key);
    case PollDone =>
      if Complete(s) && s.user.prevTime.None? {
        GoodFirstDone(s, key);
      }
    case _ =>
  }

  lemma ExactStep(s: System, m: Move, key: Key)
    requires Inv(s) && KeptReads(s, key) && Bounded(s, key) && Exact(s, key) && m != Kernel(EvictLat(key))
    ensures Exact(StepSystem(s, m), key)
  {
    var s' := StepSystem(s, m);
    if m.PollDone? && Complete(s) {
      if s.user.prevTime.None? {
        PollDoneIs(s, key);
        NewlyReportedBounded(s, key);
      } else if s'.user.strict && |s.kernel.recorded| < SIZE {
        ExactDone(s, key);
      }
    } else {
      if m.Kernel? {
        StepExtends(s.kernel, m.a);
        CoveredSame(s, m.a, key);
      }
      assert Covered(s', key) == Covered(s, key);
    }
  }

  lemma {:induction false} ExactRun(threads: seq<u64>, round: Rounding, moves: seq<Move>, key: Key)
    requires Kernel(EvictLat(key)) !in moves
    ensures Exact(After(threads, round, moves), key) && GoodFirst(After(threads, round, moves), key)
  {
    if moves != [] {
      var front, m := moves[..|moves| - 1], moves[|moves| - 1];
      var s := After(threads, round, front);
      ExactRun(threads, round, front, key);
      InvRun(threads, round, front);
      KeptReadsRun(threads, round, front, key);
      BoundedRun(threads, round, front, key);
      ExactStep(s, m, key);
      GoodFirstStep(s, m, key);
    }
  }

  /** If move i ends a poll, and not the first, it comes later than the poll before. */
  ghost predicate LaterAt(threads: seq<u64>, round: Rounding, moves: seq<Move>, i: nat)
    requires i < |moves|
  {
    var s := After(threads, round, moves[..i]);
    moves[i].PollDone? && Complete(s) && s.user.prevTime.Some? ==> s.user.scan.now > s.user.prevTime.value
  }

  ghost predicate StrictlyLater(threads: seq<u64>, round: Rounding, moves: seq<Move>)
  {
    forall i :: 0 <= i < |moves| ==> LaterAt(threads, round, moves, i)
  }

  lemma LaterAtPrefix(threads: seq<u64>, round: Rounding, moves: seq<Move>, n: nat, i: nat)
    requires i < n <= |moves|
    ensures LaterAt(threads, round, moves[..n], i) <==> LaterAt(threads, round, moves, i)
  {
    assert moves[..n][..i] == moves[..i];
  }

  lemma StrictlyLaterNext(threads: seq<u64>, round: Rounding, moves: seq<Move>, n: nat)
    requires |moves| == n + 1
    ensures StrictlyLater(threads, round, moves)
       <==> StrictlyLater(threads, round, moves[..n]) && LaterAt(threads, round, moves, n)
  {
    forall i | 0 <= i < n
      ensures LaterAt(threads, round, moves[..n], i) <==> LaterAt(threads, round, moves, i)
    {
      LaterAtPrefix(threads, round, moves, n, i);
    }
  }

  lemma StrictNext(s: System, m: Move)
    requires Sized(s.kernel)
    ensures StepSystem(s, m).user.strict
       <==> s.user.strict && (m.PollDone? && Complete(s) && s.user.prevTime.Some? ==>
                                s.user.scan.now > s.user.prevTime.value)
  {
  }

  lemma {:induction false} StrictIs(threads: seq<u64>, round: Rounding, moves: seq<Move>)
    ensures After(threads, round, moves).user.strict <==> StrictlyLater(threads, round, moves)
  {
    if moves != [] {
      var n := |moves| - 1;
      StrictIs(threads, round, moves[..n]);
      StrictlyLaterNext(threads, round, moves, n);
      StrictNext(After(threads, round, moves[..n]), moves[n]);
    }
  }

  /** What the first successful poll found for the key, all buckets together. */
  ghost function FirstTotal(threads: seq<u64>, round: Rounding, moves: seq<Move>, key: Key): nat
  {
    if moves == [] then 0
    else
      var front := moves[..|moves| - 1];
      var s := After(threads, round, front);
      if moves[|moves| - 1].PollDone? && Complete(s) && s.user.prevTime.None?
      then TotalIn(s.user.scan.seen, key)
      else FirstTotal(threads, round, front, key)
  }

  function TotalIn(seen: map<Key, Read>, key: Key): nat
  {
    if key in seen then Below(seen[key].value, 64) else 0
  }

  lemma FirstNext(s: System, m: Move)
    requires Sized(s.kernel)
    ensures StepSystem(s, m).user.first
         == if m.PollDone? && Complete(s) && s.user.prevTime.None? then s.user.scan.seen else s.user.first
  {
  }

  lemma {:induction false} FirstIs(threads: seq<u64>, round: Rounding, moves: seq<Move>, key: Key)
    ensures TotalIn(After(threads, round, moves).user.first, key) == FirstTotal(threads, round, moves, key)
  {
    if moves != [] {
      var front := moves[..|moves| - 1];
      FirstIs(threads, round, front, key);
      FirstNext(After(threads, round, front), moves[|moves| - 1]);
    }
  }

  /**
   While a key is not evicted, every poll comes later than the one before and fewer than 2^64
   samples exist: the delta counts reported for it add up to its last total minus its total
   in the first successful poll (0 if it was not there), whatever polls failed in between.
   */
  lemma {:induction false} DeltasTelescope(threads: seq<u64>, round: Rounding, moves: seq<Move>, key: Key)
    requires Kernel(EvictLat(key)) !in moves && StrictlyLater(threads, round, moves)
    requires var s := After(threads, round, moves);
             key in s.user.prev && |s.kernel.recorded| < 0x1_0000_0000_0000_0000
    ensures SumReported(threads, round, moves, key)
         == TotalIn(After(threads, round, moves).user.prev, key) - FirstTotal(threads, round, moves, key)
  {
    var s := After(threads, round, moves);
    InvRun(threads, round, moves);
    StrictIs(threads, round, moves);
    KeptReadsRun(threads, round, moves, key);
    BoundedRun(threads, round, moves, key);
    ExactRun(threads, round, moves, key);
    PrevNeedsTime(threads, round, moves);
    TelescopedState(s, key);
    ReportedIs(threads, round, moves, key);
    FirstIs(threads, round, moves, key);
  }

  lemma TelescopedState(s: System, key: Key)
    requires Inv(s) && KeptReads(s, key) && Bounded(s, key) && Exact(s, key) && GoodFirst(s, key)
    requires key in s.user.prev && s.user.prevTime.Some? && s.user.strict && |s.kernel.recorded| < SIZE
    ensures Reported(s, key) == TotalIn(s.user.prev, key) - TotalIn(s.user.first, key)
  {
    assert GoodRead(s.kernel, key, s.user.prev[key]);
    SnapshotTotal(s, key, s.user.prev[key]);
    SliceJoin(s.kernel.recorded, 0, Origin(s.user, key), Base(s.user, key), OfKey(key));
    if key in s.user.first {
      SnapshotTotal(s, key, s.user.first[key]);
    }
  }

  lemma {:induction false} PrevNeedsTime(threads: seq<u64>, round: Rounding, moves: seq<Move>)
    ensures After(threads, round, moves).user.prevTime.None? ==> After(threads, round, moves).user.prev == map[]
  {
    if moves != [] {
      PrevNeedsTime(threads, round, moves[..|moves| - 1]);
    }
  }
}
