/** What the reported numbers say about the system calls that happened. */
module SyscallReports {
  import opened U64
  import opened Sums
  import opened Log2
  import opened Histogram
  import opened SyscallKernel
  import opened SyscallRuns
  import opened SyscallAggregator
  import opened SyscallPolling

  /** The state after a run of the whole system. */
  function After(threads: seq<u64>, round: Rounding, moves: seq<Move>): System
  {
    RunSystem(Boot(threads, round), moves)
  }

  function OfKey(key: Key): Record -> nat
  {
    (r: Record) => if r.sample.key == key then 1 else 0
  }

  function OfKeyUnder(key: Key, n: nat): Record -> nat
  {
    (r: Record) => if r.sample.key == key && FloorLog2(r.sample.latency) < n then 1 else 0
  }

  /** From where in the log on the previous poll knows nothing about the key. */
  function Base(u: User, key: Key): nat
  {
    if key in u.prev then u.prev[key].at else u.since
  }

  function Slice(log: seq<Record>, lo: nat, hi: nat): seq<Record>
  {
    if lo <= hi <= |log| then log[lo..hi] else []
  }

  /** The increments of the interval: those after the previous read of the key and before the present one. */
  function Window(s: System, key: Key): seq<Record>
    requires s.user.scan.Scanning? && key in s.user.scan.seen
  {
    Slice(s.kernel.recorded, Base(s.user, key), s.user.scan.seen[key].at)
  }

  lemma BaseBeforeRead(s: System, key: Key)
    requires Inv(s) && s.user.scan.Scanning? && key in s.user.scan.seen
    ensures Base(s.user, key) <= s.user.scan.seen[key].at <= |s.kernel.recorded|
  {
    assert GoodRead(s.kernel, key, s.user.scan.seen[key]);
  }

  function CurOf(s: System, key: Key): Buckets
    requires s.user.scan.Scanning? && key in s.user.scan.seen
  {
    s.user.scan.seen[key].value
  }

  function PrevValue(u: User, key: Key): Buckets
  {
    if key in u.prev then u.prev[key].value else Empty()
  }

  function Difference(s: System, key: Key): Buckets
    requires s.user.scan.Scanning? && key in s.user.scan.seen
  {
    SubBucketsOf(CurOf(s, key), PrevValue(s.user, key))
  }

  /** Entry e had no increments before the base, unless it is the entry that was read then. */
  lemma NothingBeforeBase(s: System, key: Key, i: nat)
    requires Inv(s) && s.user.scan.Scanning? && key in s.user.scan.seen && i < HIST_BUCKETS
    requires key in s.user.prev ==> s.user.scan.seen[key].entry != s.user.prev[key].entry
    ensures Base(s.user, key) <= |s.kernel.recorded|
    ensures Sum(s.kernel.recorded[..Base(s.user, key)], OnBucket(s.user.scan.seen[key].entry, i)) == 0
  {
    BaseBeforeRead(s, key);
    var front := s.kernel.recorded[..Base(s.user, key)];
    var e := s.user.scan.seen[key].entry;
    if key in s.user.prev {
      assert GoodRead(s.kernel, key, s.user.prev[key]);
    }
    assert Later(s.user.prev, s.user.heapAt, key, e);
    forall r | r in front
      ensures OnBucket(e, i)(r) == 0
    {
      var p :| 0 <= p < |front| && front[p] == r;
      assert s.kernel.recorded[p] == r;
    }
    SumZero(front, OnBucket(e, i));
  }

  lemma MinusWrapped(was: nat, now: nat)
    requires was <= now
    ensures Minus(now % SIZE, was % SIZE) <= now - was
    ensures now < SIZE ==> Minus(now % SIZE, was % SIZE) == now - was
  {
    if was % SIZE <= now % SIZE {
      WrappedDifference(was, now);
    }
  }

  lemma ReadCounts(s: System, key: Key, read: Read, i: nat)
    requires GoodRead(s.kernel, key, read) && i < HIST_BUCKETS
    ensures read.value[i] == Sum(s.kernel.recorded[..read.at], OnBucket(read.entry, i)) % SIZE
    ensures Sum(s.kernel.recorded[..read.at], OnBucket(read.entry, i)) <= |s.kernel.recorded|
  {
    SumAtMostLength(s.kernel.recorded[..read.at], OnBucket(read.entry, i));
  }

  /** The previous read of the key was of the same entry, or there was none. */
  predicate SameEntry(s: System, key: Key)
    requires s.user.scan.Scanning? && key in s.user.scan.seen
  {
    key in s.user.prev ==> s.user.scan.seen[key].entry == s.user.prev[key].entry
  }

  /** What the previous poll had counted of the entry just read. */
  lemma BaseCounts(s: System, key: Key, i: nat)
    requires Inv(s) && s.user.scan.Scanning? && key in s.user.scan.seen && i < HIST_BUCKETS && SameEntry(s, key)
    ensures Base(s.user, key) <= |s.kernel.recorded|
    ensures PrevValue(s.user, key)[i]
         == Sum(s.kernel.recorded[..Base(s.user, key)], OnBucket(s.user.scan.seen[key].entry, i)) % SIZE
  {
    BaseBeforeRead(s, key);
    if key in s.user.prev {
      ReadCounts(s, key, s.user.prev[key], i);
    } else {
      NothingBeforeBase(s, key, i);
    }
  }

  function CountBefore(s: System, key: Key, at: nat, i: nat): nat
    requires s.user.scan.Scanning? && key in s.user.scan.seen
  {
    Sum(Slice(s.kernel.recorded, 0, at), OnBucket(s.user.scan.seen[key].entry, i))
  }

  lemma WindowCounts(s: System, key: Key, i: nat)
    requires Inv(s) && s.user.scan.Scanning? && key in s.user.scan.seen && i < HIST_BUCKETS
    ensures var was := CountBefore(s, key, Base(s.user, key), i);
            var now := CountBefore(s, key, s.user.scan.seen[key].at, i);
            && now == was + Sum(Window(s, key), OnBucket(s.user.scan.seen[key].entry, i))
            && now <= |s.kernel.recorded|
            && CurOf(s, key)[i] == now % SIZE
            && (SameEntry(s, key) ==> PrevValue(s.user, key)[i] == was % SIZE)
            && (!SameEntry(s, key) ==> was == 0)
  {
    BaseBeforeRead(s, key);
    var read, base := s.user.scan.seen[key], Base(s.user, key);
    SumSplit(s.kernel.recorded, base, read.at, OnBucket(read.entry, i));
    ReadCounts(s, key, read, i);
    if SameEntry(s, key) {
      BaseCounts(s, key, i);
    } else {
      NothingBeforeBase(s, key, i);
    }
  }

  /** The same of numbers: prev is was, or the entry is a new one, which began at zero. */
  lemma GainOf(cur: u64, prev: u64, was: nat, now: nat, gain: nat, same: bool)
    requires now == was + gain && cur == now % SIZE
    requires if same then prev == was % SIZE else was == 0
    ensures Minus(cur, prev) <= gain
    ensures now < SIZE && same ==> Minus(cur, prev) == gain
  {
    if same {
      MinusWrapped(was, now);
    } else {
      assert now % SIZE <= now;
    }
  }

  /** What a bucket gains between two polls is at most what was added in between to the entry just read. */
  lemma {:induction false} BucketDifference(s: System, key: Key, i: nat)
    requires Inv(s) && s.user.scan.Scanning? && key in s.user.scan.seen && i < HIST_BUCKETS
    ensures Difference(s, key)[i] <= Sum(Window(s, key), OnBucket(s.user.scan.seen[key].entry, i))
    ensures |s.kernel.recorded| < SIZE && SameEntry(s, key) ==>
              Difference(s, key)[i] == Sum(Window(s, key), OnBucket(s.user.scan.seen[key].entry, i))
  {
    WindowCounts(s, key, i);
    DifferenceAt(s, key, i);
    GainOf(CurOf(s, key)[i], PrevValue(s.user, key)[i],
           CountBefore(s, key, Base(s.user, key), i), CountBefore(s, key, s.user.scan.seen[key].at, i),
           Sum(Window(s, key), OnBucket(s.user.scan.seen[key].entry, i)), SameEntry(s, key));
  }

  lemma DifferenceAt(s: System, key: Key, i: nat)
    requires s.user.scan.Scanning? && key in s.user.scan.seen && i < HIST_BUCKETS
    ensures Difference(s, key)[i] == Minus(CurOf(s, key)[i], PrevValue(s.user, key)[i])
  {
  }

  lemma {:induction false} DifferenceBelow(s: System, key: Key, n: nat)
    requires Inv(s) && s.user.scan.Scanning? && key in s.user.scan.seen && n <= HIST_BUCKETS
    ensures Below(Difference(s, key), n) <= Sum(Window(s, key), OfKeyUnder(key, n))
  {
    var win := Window(s, key);
    if n > 0 {
      DifferenceBelow(s, key, n - 1);
      BelowNext(Difference(s, key), n - 1);
      BucketDifference(s, key, n - 1);
      EntryIsOfKey(s, key, n - 1);
      SumPlus(win, OfKeyUnder(key, n - 1), Recorded(OfKeyIn(key, n - 1)), OfKeyUnder(key, n));
    }
  }

  lemma EntryIsOfKey(s: System, key: Key, i: nat)
    requires Inv(s) && s.user.scan.Scanning? && key in s.user.scan.seen
    ensures Sum(Window(s, key), OnBucket(s.user.scan.seen[key].entry, i))
         <= Sum(Window(s, key), Recorded(OfKeyIn(key, i)))
  {
    var e := s.user.scan.seen[key].entry;
    assert GoodRead(s.kernel, key, s.user.scan.seen[key]);
    BaseBeforeRead(s, key);
    forall r | r in Window(s, key)
      ensures OnBucket(e, i)(r) <= Recorded(OfKeyIn(key, i))(r)
    {
      assert r in s.kernel.recorded;
    }
    SumLeq(Window(s, key), OnBucket(e, i), Recorded(OfKeyIn(key, i)));
  }

  /**
   Whatever is evicted and made again meanwhile, and however the counters wrap: a bucket of
   the interval never holds more than the samples that went into it during the interval, and
   the delta count of a key never exceeds the samples of the key during the interval.
   */
  lemma {:induction false} NeverOverReports(threads: seq<u64>, round: Rounding, moves: seq<Move>, key: Key, i: nat)
    requires var s := After(threads, round, moves); s.user.scan.Scanning? && key in s.user.scan.seen
    requires i < HIST_BUCKETS
    ensures var s := After(threads, round, moves);
            && Inv(s)
            && Difference(s, key)[i] <= Sum(Window(s, key), Recorded(OfKeyIn(key, i)))
            && Reports(s)[key].deltaCount <= Sum(Window(s, key), OfKey(key))
  {
    InvRun(threads, round, moves);
    var s := After(threads, round, moves);
    BucketDifference(s, key, i);
    EntryIsOfKey(s, key, i);
    DeltaAtMostWindow(s, key);
  }

  lemma ReportIs(s: System, key: Key)
    requires s.user.scan.Scanning? && key in s.user.scan.seen
    ensures Reports(s)[key] == ReportOf(key, CurOf(s, key), PrevValue(s.user, key), Elapsed(s), s.round)
  {
    assert PrevOf(Values(s.user.prev), key) == PrevValue(s.user, key);
    assert Values(s.user.scan.seen)[key] == CurOf(s, key);
  }

  lemma DeltaIs(s: System, key: Key)
    requires s.user.scan.Scanning? && key in s.user.scan.seen
    ensures Reports(s)[key].deltaCount == DeltaOf(CurOf(s, key), PrevValue(s.user, key), Elapsed(s))
  {
    ReportIs(s, key);
  }

  lemma DeltaOfAtMost(cur: Buckets, prev: Buckets, elapsed: int)
    ensures DeltaOf(cur, prev, elapsed) <= Below(SubBucketsOf(cur, prev), HIST_BUCKETS)
  {
  }

  lemma DeltaAtMostWindow(s: System, key: Key)
    requires Inv(s) && s.user.scan.Scanning? && key in s.user.scan.seen
    ensures Reports(s)[key].deltaCount <= Sum(Window(s, key), OfKey(key))
  {
    DifferenceBelow(s, key, HIST_BUCKETS);
    UnderIsOfKey(Window(s, key), key, HIST_BUCKETS);
    DeltaIs(s, key);
    DeltaOfAtMost(CurOf(s, key), PrevValue(s.user, key), Elapsed(s));
  }

  lemma UnderIsOfKey(log: seq<Record>, key: Key, n: nat)
    ensures Sum(log, OfKeyUnder(key, n)) <= Sum(log, OfKey(key))
  {
    SumLeq(log, OfKeyUnder(key, n), OfKey(key));
  }
}
