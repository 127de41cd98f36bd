/**
 The whole path: threads running the tracepoint programs, the LRU maps evicting, and one
 aggregator polling. A poll reads the histogram map key by key, at any speed, while the
 threads go on.
 */
module SyscallPolling {
  import opened Wrappers
  import opened U64
  import opened Sums
  import opened Histogram
  import opened SyscallKernel
  import opened SyscallRuns
  import opened SyscallAggregator

  /** A value read for a key. entry, at and heapAt are history: which entry, and how long the log and the heap were. */
  datatype Read = Read(value: Buckets, entry: nat, at: nat, heapAt: nat)

  datatype Scan = Resting | Scanning(now: int, seen: map<Key, Read>, since: nat, heapAt: nat)

  /**
   The aggregator's fields are prev and prevTime. History: since and heapAt belong to the scan
   that made prev; first, firstSince and firstHeap to the first successful poll; reported sums
   the delta counts of each key; strict says that every poll so far came later than the last.
   */
  datatype User = User(
    prev: map<Key, Read>,
    prevTime: Option<int>,
    scan: Scan,
    since: nat,
    heapAt: nat,
    first: map<Key, Read>,
    firstSince: nat,
    firstHeap: nat,
    reported: map<Key, nat>,
    strict: bool)

  datatype System = System(kernel: State, user: User, round: Rounding)

  datatype Move = Kernel(a: Action) | PollStart(now: int) | PollRead(key: Key) | PollFail | PollDone

  function Boot(threads: seq<u64>, round: Rounding): System
  {
    System(Init(threads), User(map[], None, Resting, 0, 0, map[], 0, 0, map[], true), round)
  }

  function Values(seen: map<Key, Read>): map<Key, Buckets>
  {
    map key | key in seen :: seen[key].value
  }

  /** The scan has every key that was there all the time. */
  predicate Complete(s: System)
  {
    s.user.scan.Scanning? &&
    forall key :: key in s.kernel.lat ==> key in s.user.scan.seen || s.kernel.lat[key] >= s.user.scan.heapAt
  }

  function Elapsed(s: System): int
    requires s.user.scan.Scanning?
  {
    ElapsedOf(s.user.prevTime, s.user.scan.now)
  }

  /** The records the poll under way is going to return. */
  function Reports(s: System): map<Key, Report>
    requires s.user.scan.Scanning?
  {
    ReportsOf(Values(s.user.scan.seen), Values(s.user.prev), Elapsed(s), s.round)
  }

  function Reported(s: System, key: Key): nat
  {
    if key in s.user.reported then s.user.reported[key] else 0
  }

  function NewlyReported(s: System, key: Key): nat
    requires s.user.scan.Scanning?
  {
    if key in s.user.scan.seen then Reports(s)[key].deltaCount else 0
  }

  function StepPollDone(s: System): System
    requires s.user.scan.Scanning?
  {
    var u, scan := s.user, s.user.scan;
    var reported := map key | key in u.reported.Keys + scan.seen.Keys :: Reported(s, key) + NewlyReported(s, key);
    s.(user := User(scan.seen, Some(scan.now), Resting, scan.since, scan.heapAt,
                    if u.prevTime.None? then scan.seen else u.first,
                    if u.prevTime.None? then scan.since else u.firstSince,
                    if u.prevTime.None? then scan.heapAt else u.firstHeap,
                    reported,
                    u.strict && (u.prevTime.None? || Elapsed(s) > 0)))
  }

  function StepPollRead(s: System, key: Key): System
    requires s.user.scan.Scanning?
  {
    var k, scan := s.kernel, s.user.scan;
    if key in k.lat && k.lat[key] < |k.heap| then
      var read := Read(k.heap[k.lat[key]], k.lat[key], |k.recorded|, |k.heap|);
      s.(user := s.user.(scan := Scanning(scan.now, scan.seen[key := read], scan.since, scan.heapAt)))
    else s
  }

  function StepSystem(s: System, m: Move): System
    requires Sized(s.kernel)
  {
    match m
    case Kernel(a) => s.(kernel := Step(s.kernel, a))
    case PollStart(now) =>
      if s.user.scan.Scanning? then s
      else s.(user := s.user.(scan := Scanning(now, map[], |s.kernel.recorded|, |s.kernel.heap|)))
    case PollRead(key) => if s.user.scan.Scanning? then StepPollRead(s, key) else s
    case PollFail => s.(user := s.user.(scan := Resting))
    case PollDone => if Complete(s) then StepPollDone(s) else s
  }

  function RunSystem(s: System, moves: seq<Move>): (r: System)
    requires Sized(s.kernel)
    ensures Sized(r.kernel)
  {
    if moves == [] then s
    else
      var before := RunSystem(s, moves[..|moves| - 1]);
      StepSizedSystem(before, moves[|moves| - 1]);
      StepSystem(before, moves[|moves| - 1])
  }

  lemma StepSizedSystem(s: System, m: Move)
    requires Sized(s.kernel)
    ensures Sized(StepSystem(s, m).kernel)
  {
    if m.Kernel? {
      StepSized(s.kernel, m.a);
    }
  }

  // ----- the invariant

  ghost predicate GoodRead(k: State, key: Key, read: Read)
  {
    && read.entry < read.heapAt <= |k.owner|
    && k.owner[read.entry] == key
    && read.at <= |k.recorded|
    && (forall i :: 0 <= i < HIST_BUCKETS ==>
          read.value[i] == Sum(k.recorded[..read.at], OnBucket(read.entry, i)) % SIZE)
    && (forall p :: 0 <= p < read.at ==> k.recorded[p].entry < read.heapAt)
    && (key in k.lat ==> k.lat[key] == read.entry || k.lat[key] >= read.heapAt)
  }

  ghost predicate GoodReads(k: State, seen: map<Key, Read>, since: nat)
  {
    forall key :: key in seen ==> GoodRead(k, key, seen[key]) && since <= seen[key].at
  }

  /** When a scan began, heapAt entries existed, and the log held only increments of those. */
  ghost predicate GoodMark(k: State, since: nat, heapAt: nat)
  {
    && since <= |k.recorded|
    && heapAt <= |k.heap|
    && forall p :: 0 <= p < since ==> k.recorded[p].entry < heapAt
  }

  /** Whatever the scan reads for a key is what was read before, or was made since. */
  ghost predicate Later(prev: map<Key, Read>, heapAt: nat, key: Key, entry: nat)
  {
    if key in prev then entry == prev[key].entry || entry >= prev[key].heapAt else entry >= heapAt
  }

  ghost predicate GoodUser(k: State, u: User)
  {
    && GoodReads(k, u.prev, u.since)
    && GoodMark(k, u.since, u.heapAt)
    && (forall key :: key in k.lat ==> Later(u.prev, u.heapAt, key, k.lat[key]))
    && (u.scan.Scanning? ==>
          && GoodReads(k, u.scan.seen, u.scan.since)
          && GoodMark(k, u.scan.since, u.scan.heapAt)
          && u.since <= u.scan.since
          && (forall key :: key in u.prev ==> u.prev[key].at <= u.scan.since && u.prev[key].heapAt <= u.scan.heapAt)
          && (forall key :: key in u.scan.seen ==> Later(u.prev, u.heapAt, key, u.scan.seen[key].entry)))
  }

  ghost predicate Inv(s: System)
  {
    Entries(s.kernel) && Counted(s.kernel) && GoodUser(s.kernel, s.user)
  }

  /** What any kernel step leaves in place. */
  ghost predicate Extends(k: State, k': State)
  {
    && k.recorded <= k'.recorded
    && k.owner <= k'.owner
    && |k.heap| <= |k'.heap|
    && (forall key :: key in k'.lat ==> (key in k.lat && k'.lat[key] == k.lat[key]) || k'.lat[key] >= |k.heap|)
  }

  lemma StepExtends(k: State, a: Action)
    requires Entries(k)
    ensures Extends(k, Step(k, a))
  {
  }

  lemma GoodReadExtends(k: State, k': State, key: Key, read: Read)
    requires Entries(k) && Extends(k, k') && GoodRead(k, key, read)
    ensures GoodRead(k', key, read)
  {
    assert k'.recorded[..read.at] == k.recorded[..read.at];
    forall p | 0 <= p < read.at
      ensures k'.recorded[p].entry < read.heapAt
    {
      assert k'.recorded[p] == k.recorded[p];
    }
  }

  lemma GoodUserExtends(k: State, k': State, u: User)
    requires Entries(k) && Extends(k, k') && GoodUser(k, u)
    ensures GoodUser(k', u)
  {
    forall key | key in u.prev
      ensures GoodRead(k', key, u.prev[key])
    {
      GoodReadExtends(k, k', key, u.prev[key]);
    }
    if u.scan.Scanning? {
      forall key | key in u.scan.seen
        ensures GoodRead(k', key, u.scan.seen[key])
      {
        GoodReadExtends(k, k', key, u.scan.seen[key]);
      }
    }
  }

  lemma NowIsGoodMark(k: State)
    requires Entries(k)
    ensures GoodMark(k, |k.recorded|, |k.heap|)
  {
    forall p | 0 <= p < |k.recorded|
      ensures k.recorded[p].entry < |k.heap|
    {
      assert k.recorded[p] in k.recorded;
    }
  }

  lemma NowIsGoodRead(k: State, key: Key)
    requires Entries(k) && Counted(k) && key in k.lat
    ensures GoodRead(k, key, Read(k.heap[k.lat[key]], k.lat[key], |k.recorded|, |k.heap|))
  {
    NowIsGoodMark(k);
    assert k.recorded[..|k.recorded|] == k.recorded;
  }

  lemma InvStep(s: System, m: Move)
    requires Inv(s)
    ensures Inv(StepSystem(s, m))
  {
    match m
    case Kernel(a) =>
      EntriesStep(s.kernel, a);
      CountedStep(s.kernel, a);
      StepExtends(s.kernel, a);
      GoodUserExtends(s.kernel, Step(s.kernel, a), s.user);
    case PollStart(_) =>
      NowIsGoodMark(s.kernel);
    case PollRead(key) =>
      if s.user.scan.Scanning? && key in s.kernel.lat {
        NowIsGoodRead(s.kernel, key);
      }
    case PollFail =>
    case PollDone =>
  }

  lemma {:induction false} InvRun(threads: seq<u64>, round: Rounding, moves: seq<Move>)
    ensures Inv(RunSystem(Boot(threads, round), moves))
  {
    if moves == [] {
      CountersRun(threads, []);
    } else {
      InvRun(threads, round, moves[..|moves| - 1]);
      InvStep(RunSystem(Boot(threads, round), moves[..|moves| - 1]), moves[|moves| - 1]);
    }
  }

  /** Poll does to the aggregator's fields, and returns, what a run's poll does when it is done. */
  method PollFollowsTheRun(agg: Aggregator, s: System, snapshot: Snapshot, now: int) returns (records: seq<Report>)
    requires Sized(s.kernel) && Complete(s)
    requires agg.prev == Values(s.user.prev) && agg.prevTime == s.user.prevTime
    requires snapshot == Snapshot(Values(s.user.scan.seen)) && now == s.user.scan.now
    modifies agg
    ensures var u := StepSystem(s, PollDone).user; agg.prev == Values(u.prev) && agg.prevTime == u.prevTime
    ensures Lists(records, Reports(s))
  {
    var list := agg.Poll(now, snapshot, s.round);
    records := list.value;
  }
}
