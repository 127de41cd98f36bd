/** What every run of the two tracepoint programs keeps, evictions included. */
module SyscallRuns {
  import opened U64
  import opened Sums
  import opened Log2
  import opened Histogram
  import opened SyscallKernel

  /** Distinct threads have distinct pid_tgid values. */
  ghost predicate Distinct(threads: seq<u64>)
  {
    forall i, j :: 0 <= i < j < |threads| ==> threads[i] != threads[j]
  }

  function Run(s: State, actions: seq<Action>): (r: State)
    requires Sized(s)
    ensures Sized(r) && r.threads == s.threads
  {
    if actions == [] then s
    else
      var before := Run(s, actions[..|actions| - 1]);
      StepSized(before, actions[|actions| - 1]);
      Step(before, actions[|actions| - 1])
  }

  // ----- counters

  /** One for each record that went to entry e and into bucket i. */
  function OnBucket(e: nat, i: nat): Record -> nat
  {
    (r: Record) => if r.entry == e && FloorLog2(r.sample.latency) == i then 1 else 0
  }

  ghost predicate GoodSample(threads: seq<u64>, x: Sample)
  {
    && PassesSignTest(x.latency)
    && x.thread < |threads|
    && x.key.pid == threads[x.thread] / 0x1_0000_0000
    && 0 <= x.key.nr < 512
    && x.latency == WrapSub(x.now, x.ts)
  }

  ghost predicate GoodPc(threads: seq<u64>, owner: seq<Key>, t: nat, pc: Pc)
  {
    && (pc.Storing? ==> pc.enter.Enter? && 0 <= pc.enter.id < MAX_SYSCALL_NR)
    && (pc.Found? || pc.Timed? ==> 0 <= pc.start.nr < MAX_SYSCALL_NR)
    && (pc.Carries() ==> GoodSample(threads, pc.sample) && pc.sample.thread == t)
    && (pc.Adding? ==> pc.entry < |owner| && owner[pc.entry] == pc.sample.key)
  }

  ghost predicate GoodPcs(s: State)
  {
    && Sized(s)
    && forall t :: 0 <= t < |s.pcs| ==> GoodPc(s.threads, s.owner, t, s.pcs[t])
  }

  ghost predicate GoodRecords(s: State)
  {
    forall r :: r in s.recorded ==>
      GoodSample(s.threads, r.sample) && r.entry < |s.owner| && s.owner[r.entry] == r.sample.key
  }

  /** Entries belong to the keys they are found under, and increments go to the sample's own key. */
  ghost predicate Entries(s: State)
  {
    && GoodPcs(s)
    && |s.heap| == |s.owner|
    && (forall key :: key in s.start ==> 0 <= s.start[key].nr < MAX_SYSCALL_NR)
    && (forall key :: key in s.lat ==> s.lat[key] < |s.owner| && s.owner[s.lat[key]] == key)
    && GoodRecords(s)
  }

  /** Bucket i of entry e is the number of samples added there, modulo 2^64. */
  ghost predicate Counted(s: State)
  {
    forall e, i :: 0 <= e < |s.heap| && 0 <= i < HIST_BUCKETS ==> s.heap[e][i] == Sum(s.recorded, OnBucket(e, i)) % SIZE
  }

  /** The thread that moves is left at a good place. */
  lemma GoodPcStep(s: State, t: nat, a: Action)
    requires Sized(s) && t < |s.threads| && GoodPc(s.threads, s.owner, t, s.pcs[t]) && |s.heap| == |s.owner|
    requires s.threads[t] in s.start ==> 0 <= s.start[s.threads[t]].nr < MAX_SYSCALL_NR
    requires s.pcs[t].Carries() && s.pcs[t].sample.key in s.lat ==>
      s.lat[s.pcs[t].sample.key] < |s.owner| && s.owner[s.lat[s.pcs[t].sample.key]] == s.pcs[t].sample.key
    ensures GoodPc(s.threads, StepThread(s, t, a).owner, t, StepThread(s, t, a).pcs[t])
  {
  }

  /** Nothing but the place of one thread, and the maps and logs, changes in a thread's step. */
  lemma OthersStay(s: State, t: nat, a: Action)
    requires Sized(s) && t < |s.threads|
    ensures var s' := StepThread(s, t, a);
      s'.pcs == s.pcs[t := s'.pcs[t]] && s'.threads == s.threads && s.owner <= s'.owner && Sized(s')
  {
    StepFollows(s, t, a);
    EntriesMade(s, t, a);
    StepSized(s, a);
  }

  lemma GoodPcsStep(s: State, a: Action)
    requires Entries(s)
    ensures GoodPcs(Step(s, a))
  {
    if !a.EvictStart? && !a.EvictLat? && a.t < |s.threads| {
      var s' := StepThread(s, a.t, a);
      assert GoodPc(s.threads, s.owner, a.t, s.pcs[a.t]);
      GoodPcStep(s, a.t, a);
      OthersStay(s, a.t, a);
      forall t | 0 <= t < |s'.pcs|
        ensures GoodPc(s'.threads, s'.owner, t, s'.pcs[t])
      {
        assert GoodPc(s.threads, s.owner, t, s.pcs[t]);
      }
    } else {
      assert Step(s, a).pcs == s.pcs;
    }
  }

  lemma GoodRecordsStep(s: State, t: nat, a: Action)
    requires Sized(s) && t < |s.threads| && GoodPc(s.threads, s.owner, t, s.pcs[t]) && GoodRecords(s)
    ensures GoodRecords(StepThread(s, t, a))
  {
    OthersStay(s, t, a);
    var s' := StepThread(s, t, a);
    assert s'.recorded == s.recorded ||
           (s.pcs[t].Adding? && s'.recorded == s.recorded + [Record(s.pcs[t].sample, s.pcs[t].entry)]);
  }

  lemma StartStep(s: State, t: nat, a: Action)
    requires Sized(s) && t < |s.threads| && GoodPc(s.threads, s.owner, t, s.pcs[t])
    requires forall key :: key in s.start ==> 0 <= s.start[key].nr < MAX_SYSCALL_NR
    ensures forall key :: key in StepThread(s, t, a).start ==> 0 <= StepThread(s, t, a).start[key].nr < MAX_SYSCALL_NR
  {
    var s', u := StepThread(s, t, a), s.threads[t];
    assert s'.start == s.start || s'.start == s.start - {u} ||
           (s.pcs[t].Storing? && s'.start == s.start[u := s'.start[u]] && s'.start[u].nr == s.pcs[t].enter.id);
  }

  /** Only seeding makes an entry. */
  predicate Inserts(s: State, t: nat, a: Action)
    requires Sized(s) && t < |s.threads|
  {
    a.LatSeed? && s.pcs[t].Seeding? && a.zeroFound && a.inserted && s.pcs[t].sample.key !in s.lat
  }

  lemma EntriesMade(s: State, t: nat, a: Action)
    requires Sized(s) && t < |s.threads|
    ensures var s' := StepThread(s, t, a);
      if Inserts(s, t, a) then
        var s1 := WithEntry(s, s.pcs[t].sample.key);
        s'.lat == s1.lat && s'.heap == s1.heap && s'.owner == s1.owner && s'.recorded == s.recorded
      else s'.lat == s.lat && |s'.heap| == |s.heap| && s'.owner == s.owner
  {
  }

  lemma LatStep(s: State, t: nat, a: Action)
    requires Sized(s) && t < |s.threads| && |s.heap| == |s.owner|
    requires forall key :: key in s.lat ==> s.lat[key] < |s.owner| && s.owner[s.lat[key]] == key
    ensures var s' := StepThread(s, t, a);
      && |s'.heap| == |s'.owner|
      && (forall key :: key in s'.lat ==> s'.lat[key] < |s'.owner| && s'.owner[s'.lat[key]] == key)
  {
    EntriesMade(s, t, a);
  }

  lemma {:induction false} EntriesStep(s: State, a: Action)
    requires Entries(s)
    ensures Entries(Step(s, a))
  {
    GoodPcsStep(s, a);
    if !a.EvictStart? && !a.EvictLat? && a.t < |s.threads| {
      assert GoodPc(s.threads, s.owner, a.t, s.pcs[a.t]);
      StartStep(s, a.t, a);
      LatStep(s, a.t, a);
      GoodRecordsStep(s, a.t, a);
    }
  }

  /** A sample's clamped bucket is its logarithm: the sign test keeps it below 63. */
  lemma BucketIsLog(latency: nat)
    requires PassesSignTest(latency)
    ensures BucketOf(latency) == FloorLog2(latency) < HIST_BUCKETS - 1
  {
    Powers();
    Pow2Sum(1, 63);
    FloorLog2Brackets(latency);
    if FloorLog2(latency) >= 63 {
      Pow2Monotone(63, FloorLog2(latency));
    }
  }

  lemma {:induction false} CountedAdd(s: State, t: nat)
    requires Entries(s) && Counted(s) && t < |s.threads| && s.pcs[t].Adding?
    ensures Counted(StepLatAdd(s, t))
  {
    assert GoodPc(s.threads, s.owner, t, s.pcs[t]);
    var sample, e0 := s.pcs[t].sample, s.pcs[t].entry;
    var s' := StepLatAdd(s, t);
    BucketIsLog(sample.latency);
    forall e, i | 0 <= e < |s'.heap| && 0 <= i < HIST_BUCKETS
      ensures s'.heap[e][i] == Sum(s'.recorded, OnBucket(e, i)) % SIZE
    {
      assert s.heap[e][i] == Sum(s.recorded, OnBucket(e, i)) % SIZE;
      SumAppend(s.recorded, Record(sample, e0), OnBucket(e, i));
      AddToWrapped(Sum(s.recorded, OnBucket(e, i)), 1);
    }
  }

  lemma CountedNewEntry(s: State, key: Key)
    requires Entries(s) && Counted(s)
    ensures Counted(WithEntry(s, key))
  {
    var s' := WithEntry(s, key);
    forall e, i | 0 <= e < |s'.heap| && 0 <= i < HIST_BUCKETS
      ensures s'.heap[e][i] == Sum(s'.recorded, OnBucket(e, i)) % SIZE
    {
      if e == |s.heap| {
        SumZero(s.recorded, OnBucket(e, i));
      } else {
        assert s.heap[e][i] == Sum(s.recorded, OnBucket(e, i)) % SIZE;
      }
    }
  }

  lemma CountedStep(s: State, a: Action)
    requires Entries(s) && Counted(s)
    ensures Counted(Step(s, a))
  {
    if a.LatAdd? && a.t < |s.threads| && s.pcs[a.t].Adding? {
      CountedAdd(s, a.t);
    } else if a.LatSeed? && a.t < |s.threads| && Inserts(s, a.t, a) {
      EntriesMade(s, a.t, a);
      CountedNewEntry(s, s.pcs[a.t].sample.key);
    } else {
      assert Step(s, a).heap == s.heap && Step(s, a).recorded == s.recorded;
    }
  }

  lemma {:induction false} CountersRun(threads: seq<u64>, actions: seq<Action>)
    ensures Entries(Run(Init(threads), actions)) && Counted(Run(Init(threads), actions))
  {
    if actions != [] {
      var front := actions[..|actions| - 1];
      CountersRun(threads, front);
      EntriesStep(Run(Init(threads), front), actions[|actions| - 1]);
      CountedStep(Run(Init(threads), front), actions[|actions| - 1]);
    }
  }

  lemma TopBucketEmpty(s: State, e: nat)
    requires Entries(s) && Counted(s) && e < |s.heap|
    ensures s.heap[e][HIST_BUCKETS - 1] == 0
  {
    var top := OnBucket(e, HIST_BUCKETS - 1);
    forall r | r in s.recorded
      ensures top(r) == 0
    {
      assert GoodSample(s.threads, r.sample);
      BucketIsLog(r.sample.latency);
    }
    SumZero(s.recorded, top);
    assert s.heap[e][HIST_BUCKETS - 1] == Sum(s.recorded, top) % SIZE;
  }

  /** The topmost bucket stays zero in every reachable state. */
  lemma {:induction false} TopBucketStaysEmpty(threads: seq<u64>, actions: seq<Action>, e: nat)
    requires e < |Run(Init(threads), actions).heap|
    ensures Run(Init(threads), actions).heap[e][HIST_BUCKETS - 1] == 0
  {
    CountersRun(threads, actions);
    TopBucketEmpty(Run(Init(threads), actions), e);
  }

  // ----- conservation of samples

  function Recorded(weight: Sample -> nat): Record -> nat
  {
    (r: Record) => weight(r.sample)
  }

  function WeightOf(weight: Sample -> nat, pc: Pc): nat
  {
    if pc.Carries() then weight(pc.sample) else 0
  }

  function InFlight(weight: Sample -> nat): Pc -> nat
  {
    (pc: Pc) => WeightOf(weight, pc)
  }

  ghost predicate Conserved(s: State, weight: Sample -> nat)
  {
    Sum(s.measured, weight)
    == Sum(s.recorded, Recorded(weight)) + Sum(s.dropped, weight) + Sum(s.pcs, InFlight(weight))
  }

  /** What becomes of the samples in one step of a thread. */
  datatype Fate = Kept | Measured | Added | GivenUp

  function FateOf(s: State, t: nat, a: Action): Fate
    requires Sized(s) && t < |s.threads|
  {
    match s.pcs[t]
    case Timed(_, _) => if a.ExitDelete? && PassesSignTest(SampleOf(s, t).latency) then Measured else Kept
    case Adding(_, e) => if a.LatAdd? && e < |s.heap| then Added else Kept
    case Seeding(_) => if a.LatSeed? && !a.zeroFound then GivenUp else Kept
    case LookingAgain(sample) => if a.LatRelookup? && sample.key !in s.lat then GivenUp else Kept
    case _ => Kept
  }

  ghost predicate Follows(fate: Fate, s: State, s': State, t: nat)
    requires t < |s.pcs| == |s'.pcs|
  {
    var pc, pc' := s.pcs[t], s'.pcs[t];
    && s'.pcs == s.pcs[t := pc']
    && (fate.Measured? ==> !pc.Carries() && pc'.Carries() && s'.measured == s.measured + [pc'.sample])
    && (!fate.Measured? ==> s'.measured == s.measured)
    && (fate.Added? ==> pc.Adding? && !pc'.Carries() && s'.recorded == s.recorded + [Record(pc.sample, pc.entry)])
    && (!fate.Added? ==> s'.recorded == s.recorded)
    && (fate.GivenUp? ==> pc.Carries() && !pc'.Carries() && s'.dropped == s.dropped + [pc.sample])
    && (!fate.GivenUp? ==> s'.dropped == s.dropped)
    && (fate.Kept? ==> (pc.Carries() <==> pc'.Carries()) && (pc.Carries() ==> pc'.sample == pc.sample))
  }

  lemma StepFollows(s: State, t: nat, a: Action)
    requires Sized(s) && t < |s.threads|
    ensures Follows(FateOf(s, t, a), s, StepThread(s, t, a), t)
  {
  }

  lemma ConservedFate(fate: Fate, s: State, s': State, t: nat, weight: Sample -> nat)
    requires t < |s.pcs| == |s'.pcs| && Follows(fate, s, s', t) && Conserved(s, weight)
    ensures Conserved(s', weight)
  {
    var pc, pc' := s.pcs[t], s'.pcs[t];
    SumUpdate(s.pcs, t, pc', InFlight(weight));
    match fate
    case Measured => SumAppend(s.measured, pc'.sample, weight);
    case Added => SumAppend(s.recorded, Record(pc.sample, pc.entry), Recorded(weight));
    case GivenUp => SumAppend(s.dropped, pc.sample, weight);
    case Kept =>
  }

  lemma {:induction false} ConservedStep(s: State, a: Action, weight: Sample -> nat)
    requires Sized(s) && Conserved(s, weight)
    ensures Conserved(Step(s, a), weight)
  {
    if !a.EvictStart? && !a.EvictLat? && a.t < |s.threads| {
      StepFollows(s, a.t, a);
      ConservedFate(FateOf(s, a.t, a), s, StepThread(s, a.t, a), a.t, weight);
    }
  }

  /**
   Every measured sample is, in every reachable state and whatever is evicted, exactly one
   of: added to a bucket, given up for want of an entry, or still carried by its thread.
   Stated for every way of weighing samples, so also for counting the samples of any kind.
   */
  lemma {:induction false} SamplesConserved(threads: seq<u64>, actions: seq<Action>, weight: Sample -> nat)
    ensures Conserved(Run(Init(threads), actions), weight)
  {
    if actions == [] {
      SumZero(Init(threads).pcs, InFlight(weight));
    } else {
      var front := actions[..|actions| - 1];
      SamplesConserved(threads, front, weight);
      ConservedStep(Run(Init(threads), front), actions[|actions| - 1], weight);
    }
  }

  // ----- keys that are never evicted

  /** All increments for the key, done or under way, go to its present entry. */
  ghost predicate OneEntry(s: State, key: Key)
  {
    && (forall r :: r in s.recorded && r.sample.key == key ==> key in s.lat && r.entry == s.lat[key])
    && (forall t :: 0 <= t < |s.pcs| && s.pcs[t].Adding? && s.pcs[t].sample.key == key ==>
          key in s.lat && s.pcs[t].entry == s.lat[key])
  }

  /** As long as a key is not evicted, its entry stays; only its own entry is ever taken up for it. */
  lemma LatStays(s: State, t: nat, a: Action, key: Key)
    requires Sized(s) && t < |s.threads|
    ensures var s' := StepThread(s, t, a);
      && (key in s.lat ==> key in s'.lat && s'.lat[key] == s.lat[key])
      && (s'.pcs[t].Adding? && s'.pcs[t].sample.key == key && s'.pcs[t] != s.pcs[t] ==>
            key in s'.lat && s'.pcs[t].entry == s'.lat[key])
  {
  }

  lemma OneEntryThread(s: State, t: nat, a: Action, key: Key)
    requires Sized(s) && t < |s.threads| && OneEntry(s, key)
    ensures OneEntry(StepThread(s, t, a), key)
  {
    var s' := StepThread(s, t, a);
    StepFollows(s, t, a);
    LatStays(s, t, a, key);
    forall r | r in s'.recorded && r.sample.key == key
      ensures key in s'.lat && r.entry == s'.lat[key]
    {
      assert r in s.recorded || (s.pcs[t].Adding? && r == Record(s.pcs[t].sample, s.pcs[t].entry));
    }
  }

  lemma OneEntryStep(s: State, a: Action, key: Key)
    requires Sized(s) && OneEntry(s, key) && a != EvictLat(key)
    ensures OneEntry(Step(s, a), key)
  {
    if !a.EvictStart? && !a.EvictLat? && a.t < |s.threads| {
      OneEntryThread(s, a.t, a, key);
    }
  }

  /** The seeding update found its template and, where it had to insert, memory. */
  predicate SeedingSucceeds(a: Action)
  {
    a.LatSeed? ==> a.zeroFound && a.inserted
  }

  /** Whoever has seeded the key finds it, and nobody has given it up. */
  ghost predicate NoneLost(s: State, key: Key)
  {
    && (forall t :: 0 <= t < |s.pcs| && s.pcs[t].LookingAgain? && s.pcs[t].sample.key == key ==> key in s.lat)
    && (forall x :: x in s.dropped ==> x.key != key)
  }

  lemma SeededIsThere(s: State, t: nat, a: Action)
    requires Sized(s) && t < |s.threads| && SeedingSucceeds(a)
    ensures var s' := StepThread(s, t, a);
      s'.pcs[t].LookingAgain? && s'.pcs[t] != s.pcs[t] ==> s'.pcs[t].sample.key in s'.lat
    ensures FateOf(s, t, a).GivenUp? ==> s.pcs[t].LookingAgain? && s.pcs[t].sample.key !in s.lat
  {
  }

  lemma NoneLostThread(s: State, t: nat, a: Action, key: Key)
    requires Sized(s) && t < |s.threads| && NoneLost(s, key) && SeedingSucceeds(a)
    ensures NoneLost(StepThread(s, t, a), key)
  {
    StepFollows(s, t, a);
    LatStays(s, t, a, key);
    SeededIsThere(s, t, a);
  }

  lemma NoneLostStep(s: State, a: Action, key: Key)
    requires Sized(s) && NoneLost(s, key) && a != EvictLat(key) && SeedingSucceeds(a)
    ensures NoneLost(Step(s, a), key)
  {
    if !a.EvictStart? && !a.EvictLat? && a.t < |s.threads| {
      NoneLostThread(s, a.t, a, key);
    }
  }

  lemma {:induction false} KeptRun(threads: seq<u64>, actions: seq<Action>, key: Key)
    requires EvictLat(key) !in actions
    ensures OneEntry(Run(Init(threads), actions), key)
    ensures (forall a :: a in actions ==> SeedingSucceeds(a)) ==> NoneLost(Run(Init(threads), actions), key)
  {
    if actions != [] {
      var front, a := actions[..|actions| - 1], actions[|actions| - 1];
      KeptRun(threads, front, key);
      OneEntryStep(Run(Init(threads), front), a, key);
      if forall b :: b in actions ==> SeedingSucceeds(b) {
        assert SeedingSucceeds(a);
        NoneLostStep(Run(Init(threads), front), a, key);
      }
    }
  }

  function OfKeyIn(key: Key, i: nat): Sample -> nat
  {
    (x: Sample) => if x.key == key && FloorLog2(x.latency) == i then 1 else 0
  }

  /** What a lookup of the key would find in bucket i. */
  function BucketAt(s: State, key: Key, i: nat): nat
    requires i < HIST_BUCKETS
  {
    if key in s.lat && s.lat[key] < |s.heap| then s.heap[s.lat[key]][i] else 0
  }

  lemma BucketAtCounts(s: State, key: Key, i: nat)
    requires Entries(s) && Counted(s) && OneEntry(s, key) && i < HIST_BUCKETS
    ensures BucketAt(s, key, i) == Sum(s.recorded, Recorded(OfKeyIn(key, i))) % SIZE
  {
    if key in s.lat {
      var e := s.lat[key];
      SumSame(s.recorded, OnBucket(e, i), Recorded(OfKeyIn(key, i)));
      assert s.heap[e][i] == Sum(s.recorded, OnBucket(e, i)) % SIZE;
    } else {
      SumZero(s.recorded, Recorded(OfKeyIn(key, i)));
    }
  }

  /** No program is between measuring a latency and counting it. */
  ghost predicate Quiescent(s: State)
  {
    forall t :: 0 <= t < |s.pcs| ==> !s.pcs[t].Carries()
  }

  /** Bucket i of the key holds one for each measured sample it should, except those still carried. */
  ghost predicate CountedOnce(s: State, key: Key, i: nat)
    requires i < HIST_BUCKETS
  {
    var measured, carried := Sum(s.measured, OfKeyIn(key, i)), Sum(s.pcs, InFlight(OfKeyIn(key, i)));
    && BucketAt(s, key, i) == (measured - carried) % SIZE
    && (Quiescent(s) ==> BucketAt(s, key, i) == measured % SIZE)
  }

  lemma Lossless(s: State, key: Key, i: nat)
    requires Entries(s) && Counted(s) && OneEntry(s, key) && NoneLost(s, key) && i < HIST_BUCKETS
    requires Conserved(s, OfKeyIn(key, i))
    ensures CountedOnce(s, key, i)
  {
    BucketAtCounts(s, key, i);
    SumZero(s.dropped, OfKeyIn(key, i));
    if Quiescent(s) {
      SumZero(s.pcs, InFlight(OfKeyIn(key, i)));
    }
  }

  /**
   However many threads seed and increment a key at once: as long as it is not evicted and
   the kernel finds memory, every measured exit that its program has finished with is in its
   bucket exactly once, and so in a quiescent state every measured exit is.
   */
  lemma {:induction false} SeedingIsLossless(threads: seq<u64>, actions: seq<Action>, key: Key, i: nat)
    requires EvictLat(key) !in actions && i < HIST_BUCKETS
    requires forall a :: a in actions ==> SeedingSucceeds(a)
    ensures CountedOnce(Run(Init(threads), actions), key, i)
  {
    CountersRun(threads, actions);
    KeptRun(threads, actions, key);
    SamplesConserved(threads, actions, OfKeyIn(key, i));
    Lossless(Run(Init(threads), actions), key, i);
  }
}
