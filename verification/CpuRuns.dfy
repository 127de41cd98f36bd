/** Sampling, polling and reaping together, over every run. */
module CpuRuns {
  import opened Wrappers
  import opened U64
  import opened Sums
  import opened CpuKernel
  import opened CpuAggregator

  /** A value read for a pid. entry, at and heapAt are history: which entry, and how long the log and the heap were. */
  datatype Read = Read(value: Val, entry: nat, at: nat, heapAt: nat)

  /** A poll reads the map entry by entry; then it has built its records and deletes dead entries one by one. */
  datatype Phase =
    | Resting
    | Reading(now: int, seen: map<nat, Read>, heapAt: nat)
    | Reaping(now: int, current: map<nat, Read>, todo: set<nat>)

  datatype Amount = Amount(user: nat, kern: nat, switches: nat)
  {
    function Get(f: Field): nat
    {
      match f
      case User => user
      case Kern => kern
      case Switches => switches
    }
  }

  /**
   The aggregator's fields are prev, prevTime and cache. History: emitted sums the deltas in the
   records of each pid; last says up to where in the log each entry has been reported on, and
   base from where on, which is 0 unless the entry was in the first snapshot; strict says
   that every poll so far came later than the last.
   */
  datatype Poller = Poller(
    prev: map<nat, Read>,
    prevTime: Option<int>,
    phase: Phase,
    cache: map<nat, Comm>,
    emitted: map<nat, Amount>,
    base: map<nat, nat>,
    last: map<nat, nat>,
    strict: bool)

  datatype System = System(kernel: State, user: Poller)

  datatype Move =
    | Kernel(a: Action)
    | PollStart(now: int)
    | PollRead(pid: nat)
    | PollFail
    | Build(names: map<nat, string>, alive: set<nat>)
    | Reap(pid: nat, deleted: bool)
    | Commit

  function Boot(ncpu: nat, cpus: seq<nat>): System
  {
    System(Init(ncpu, cpus), Poller(map[], None, Resting, map[], map[], map[], map[], true))
  }

  function Values(seen: map<nat, Read>): map<nat, Val>
  {
    map pid | pid in seen :: seen[pid].value
  }

  /** The reading has every entry that was there all the time. */
  predicate Complete(s: System)
  {
    s.user.phase.Reading? &&
    forall pid :: pid in s.kernel.table ==> pid in s.user.phase.seen || s.kernel.table[pid] >= s.user.phase.heapAt
  }

  function Elapsed(s: System): int
    requires s.user.phase.Reading?
  {
    ElapsedOf(s.user.prevTime, s.user.phase.now)
  }

  function PrevValue(u: Poller, pid: nat): Val
  {
    if pid in u.prev then u.prev[pid].value else ZERO
  }

  /** What the record the poll under way is going to build for a pid reports as new. */
  function NewDelta(s: System, pid: nat): Val
    requires s.user.phase.Reading?
  {
    if pid in s.user.phase.seen then DeltaOf(s.user.phase.seen[pid].value, PrevValue(s.user, pid), Elapsed(s)) else ZERO
  }

  function Emitted(u: Poller, pid: nat): Amount
  {
    if pid in u.emitted then u.emitted[pid] else Amount(0, 0, 0)
  }

  function PlusAmount(a: Amount, v: Val): Amount
  {
    Amount(a.user + v.user, a.kern + v.kern, a.switches + v.switches)
  }

  /** Where the entries just read are now reported up to. */
  function Advanced(k: State, marks: map<nat, nat>, seen: map<nat, Read>): map<nat, nat>
  {
    map e | e in marks.Keys + EntriesOf(seen) ::
      if e < |k.owner| && k.owner[e] in seen && seen[k.owner[e]].entry == e then seen[k.owner[e]].at
      else if e in marks then marks[e] else 0
  }

  function EntriesOf(seen: map<nat, Read>): set<nat>
  {
    set pid | pid in seen :: seen[pid].entry
  }

  function StepBuild(s: System, names: map<nat, string>, alive: set<nat>): System
    requires s.user.phase.Reading?
  {
    var u, seen := s.user, s.user.phase.seen;
    s.(user := Poller(
         u.prev, u.prevTime,
         Reaping(u.phase.now, seen, seen.Keys - alive),
         CacheAfter(u.cache, names, seen.Keys),
         map pid | pid in u.emitted.Keys + seen.Keys :: PlusAmount(Emitted(u, pid), NewDelta(s, pid)),
         if u.prevTime.None? then Advanced(s.kernel, u.base, seen) else u.base,
         Advanced(s.kernel, u.last, seen),
         u.strict && (u.prevTime.None? || Elapsed(s) > 0)))
  }

  function StepPollRead(s: System, pid: nat): System
    requires s.user.phase.Reading?
  {
    var k, phase := s.kernel, s.user.phase;
    if pid in k.table && k.table[pid] < |k.heap| then
      var read := Read(SumCpusOf(k.heap[k.table[pid]]), k.table[pid], |k.log|, |k.heap|);
      s.(user := s.user.(phase := Reading(phase.now, phase.seen[pid := read], phase.heapAt)))
    else s
  }

  /** A failed delete leaves the entry in the map, in the snapshot and in the name cache. */
  function StepReap(s: System, pid: nat, deleted: bool): System
    requires s.user.phase.Reaping?
  {
    var phase := s.user.phase;
    if pid !in phase.todo then s
    else if !deleted then s.(user := s.user.(phase := Reaping(phase.now, phase.current, phase.todo - {pid})))
    else System(Delete(s.kernel, pid),
                s.user.(phase := Reaping(phase.now, phase.current - {pid}, phase.todo - {pid}),
                        cache := s.user.cache - {pid}))
  }

  function StepCommit(s: System): System
    requires s.user.phase.Reaping?
  {
    s.(user := s.user.(prev := s.user.phase.current, prevTime := Some(s.user.phase.now), phase := Resting))
  }

  function StepSystem(s: System, m: Move): System
    requires Sized(s.kernel)
  {
    match m
    case Kernel(a) => s.(kernel := Step(s.kernel, a))
    case PollStart(now) =>
      if s.user.phase.Resting? then s.(user := s.user.(phase := Reading(now, map[], |s.kernel.heap|))) else s
    case PollRead(pid) => if s.user.phase.Reading? then StepPollRead(s, pid) else s
    case PollFail => if s.user.phase.Reading? then s.(user := s.user.(phase := Resting)) else s
    case Build(names, alive) => if Complete(s) then StepBuild(s, names, alive) else s
    case Reap(pid, deleted) => if s.user.phase.Reaping? then StepReap(s, pid, deleted) else s
    case Commit => if s.user.phase.Reaping? && s.user.phase.todo == {} then StepCommit(s) else s
  }

  lemma StepKeepsEntries(s: System, m: Move)
    requires Entries(s.kernel)
    ensures Entries(StepSystem(s, m).kernel)
  {
    if m.Kernel? {
      EntriesStep(s.kernel, m.a);
    }
  }

  /** The state after a run. cpus says which CPU each executor runs on. */
  ghost function After(ncpu: nat, cpus: seq<nat>, moves: seq<Move>): (s: System)
    requires forall x :: 0 <= x < |cpus| ==> cpus[x] < ncpu
    ensures Entries(s.kernel)
  {
    if moves == [] then Boot(ncpu, cpus)
    else
      var before := After(ncpu, cpus, moves[..|moves| - 1]);
      StepKeepsEntries(before, moves[|moves| - 1]);
      StepSystem(before, moves[|moves| - 1])
  }

  // ----- reads

  ghost predicate GoodRead(k: State, pid: nat, read: Read)
  {
    && read.entry < read.heapAt <= |k.owner|
    && k.owner[read.entry] == pid
    && read.at <= |k.log|
    && forall f: Field :: read.value.Get(f) == Sum(k.log[..read.at], OnEntry(read.entry, f)) % SIZE
  }

  /** Good reads of entries that are still in the map. */
  ghost predicate Live(k: State, seen: map<nat, Read>)
  {
    forall pid :: pid in seen ==> GoodRead(k, pid, seen[pid]) && pid in k.table && k.table[pid] == seen[pid].entry
  }

  ghost predicate GoodReading(u: Poller)
    requires u.phase.Reading?
  {
    forall pid :: pid in u.prev ==>
      && u.prev[pid].heapAt <= u.phase.heapAt
      && (pid in u.phase.seen ==>
            u.phase.seen[pid].entry == u.prev[pid].entry && u.prev[pid].at <= u.phase.seen[pid].at)
  }

  /** The snapshot the aggregator would compare with if it polled next. */
  function Tracked(u: Poller): map<nat, Read>
  {
    if u.phase.Reaping? then u.phase.current else u.prev
  }

  /**
   Every tracked entry is in the map. Every cached name is a tracked one's. Nobody has yet
   reported on an entry that is in the map and not tracked.
   */
  ghost predicate GoodUser(k: State, u: Poller)
  {
    && Live(k, Tracked(u))
    && u.cache.Keys <= Tracked(u).Keys
    && (u.phase.Reading? ==> Live(k, u.phase.seen) && GoodReading(u) && u.phase.heapAt <= |k.heap|)
    && (u.phase.Reaping? ==> u.phase.todo <= u.phase.current.Keys)
    && (forall pid :: pid in k.table && pid !in Tracked(u) ==> k.table[pid] !in u.last)
    && (u.prevTime.None? && !u.phase.Reaping? ==> u.prev == map[] && u.last == map[] && u.base == map[])
  }

  ghost predicate Inv(s: System)
  {
    Entries(s.kernel) && Counted(s.kernel) && Stragglers(s.kernel) && GoodUser(s.kernel, s.user)
  }

  ghost predicate Extends(k: State, k': State)
  {
    && k.log <= k'.log
    && k.owner <= k'.owner
    && |k.heap| <= |k'.heap|
    && (forall pid :: pid in k.table ==> pid in k'.table && k'.table[pid] == k.table[pid])
    && (forall pid :: pid in k'.table && pid !in k.table ==> k'.table[pid] >= |k.heap|)
  }

  lemma StepExtends(k: State, a: Action)
    requires Entries(k)
    ensures Extends(k, Step(k, a))
  {
    EntriesMade(k, a);
    LogGrows(k, a);
  }

  lemma GoodReadExtends(k: State, k': State, pid: nat, read: Read)
    requires k.log <= k'.log && k.owner <= k'.owner && GoodRead(k, pid, read)
    ensures GoodRead(k', pid, read)
  {
    assert k'.log[..read.at] == k.log[..read.at];
  }

  lemma LiveExtends(k: State, k': State, seen: map<nat, Read>)
    requires Extends(k, k') && Live(k, seen)
    ensures Live(k', seen)
  {
    forall pid | pid in seen
      ensures GoodRead(k', pid, seen[pid])
    {
      GoodReadExtends(k, k', pid, seen[pid]);
    }
  }

  /** A tracked entry is reported on up to where it was read. */
  ghost predicate Marks(k: State, u: Poller)
  {
    && (forall e :: e in u.last ==> e < |k.heap| && u.last[e] <= |k.log|)
    && (forall e :: e in u.base ==> e in u.last && u.base[e] <= u.last[e])
    && (forall pid :: pid in Tracked(u) ==>
          Tracked(u)[pid].entry in u.last && u.last[Tracked(u)[pid].entry] == Tracked(u)[pid].at)
  }

  lemma NowIsGoodRead(k: State, pid: nat)
    requires Entries(k) && Counted(k) && pid in k.table
    ensures GoodRead(k, pid, Read(SumCpusOf(k.heap[k.table[pid]]), k.table[pid], |k.log|, |k.heap|))
  {
    assert k.log[..|k.log|] == k.log;
    forall f: Field
      ensures SumCpusOf(k.heap[k.table[pid]]).Get(f) == Sum(k.log, OnEntry(k.table[pid], f)) % SIZE
    {
      SumCpusCounts(k, k.table[pid], f);
    }
  }

  /** Everything tracked is seen by a complete reading, in the same entry. */
  lemma TrackedIsSeen(s: System)
    requires Inv(s) && Complete(s)
    ensures forall pid :: pid in s.user.prev ==>
              && pid in s.user.phase.seen
              && s.user.phase.seen[pid].entry == s.user.prev[pid].entry
              && s.user.prev[pid].at <= s.user.phase.seen[pid].at
  {
    forall pid | pid in s.user.prev
      ensures pid in s.user.phase.seen
    {
      assert GoodRead(s.kernel, pid, s.user.prev[pid]);
    }
  }

  lemma KernelStep(s: System, a: Action)
    requires Inv(s) && Marks(s.kernel, s.user)
    ensures Inv(s.(kernel := Step(s.kernel, a))) && Marks(Step(s.kernel, a), s.user)
  {
    var k, k', u := s.kernel, Step(s.kernel, a), s.user;
    EntriesStep(k, a);
    CountedStep(k, a);
    StragglersStep(k, a);
    StepExtends(k, a);
    LiveExtends(k, k', Tracked(u));
    if u.phase.Reading? {
      LiveExtends(k, k', u.phase.seen);
    }
  }

  lemma ReadStep(s: System, pid: nat)
    requires Inv(s) && s.user.phase.Reading?
    ensures Inv(StepPollRead(s, pid))
  {
    if pid in s.kernel.table {
      NowIsGoodRead(s.kernel, pid);
      if pid in s.user.prev {
        assert GoodRead(s.kernel, pid, s.user.prev[pid]);
      }
    }
  }

  lemma SeenEntry(k: State, seen: map<nat, Read>, pid: nat)
    requires Live(k, seen) && pid in seen
    ensures seen[pid].entry < |k.owner| && k.owner[seen[pid].entry] == pid && seen[pid].entry in EntriesOf(seen)
  {
    assert GoodRead(k, pid, seen[pid]);
  }

  lemma UnseenEntryUnmarked(s: System, pid: nat)
    requires Inv(s) && Complete(s) && pid in s.kernel.table && pid !in s.user.phase.seen
    ensures s.kernel.table[pid] !in Advanced(s.kernel, s.user.last, s.user.phase.seen)
  {
    TrackedIsSeen(s);
    assert s.kernel.table[pid] !in EntriesOf(s.user.phase.seen);
  }

  lemma BuildStep(s: System, names: map<nat, string>, alive: set<nat>)
    requires Inv(s) && Complete(s)
    ensures Inv(StepBuild(s, names, alive))
  {
    TrackedIsSeen(s);
    forall pid | pid in s.kernel.table && pid !in s.user.phase.seen
      ensures s.kernel.table[pid] !in Advanced(s.kernel, s.user.last, s.user.phase.seen)
    {
      UnseenEntryUnmarked(s, pid);
    }
  }

  lemma ReapStep(s: System, pid: nat, deleted: bool)
    requires Inv(s) && s.user.phase.Reaping?
    ensures Inv(StepReap(s, pid, deleted))
  {
    var s' := StepReap(s, pid, deleted);
    if deleted && pid in s.user.phase.todo {
      StragglersDelete(s.kernel, pid);
      assert s'.kernel.heap == s.kernel.heap && s'.kernel.log == s.kernel.log && s'.kernel.owner == s.kernel.owner;
      forall other | other in s'.user.phase.current
        ensures GoodRead(s'.kernel, other, s'.user.phase.current[other])
      {
        GoodReadExtends(s.kernel, s'.kernel, other, s.user.phase.current[other]);
      }
    }
  }

  /** Where an entry just read is reported up to, before and after. */
  lemma AdvancedAt(s: System, pid: nat)
    requires Inv(s) && Marks(s.kernel, s.user) && Complete(s) && pid in s.user.phase.seen
    ensures var read, last' := s.user.phase.seen[pid], Advanced(s.kernel, s.user.last, s.user.phase.seen);
            && read.entry < |s.kernel.heap| && read.at <= |s.kernel.log|
            && read.entry in last' && last'[read.entry] == read.at
            && (pid in s.user.prev ==>
                  read.entry in s.user.last && s.user.last[read.entry] == s.user.prev[pid].at <= read.at)
            && (pid !in s.user.prev ==> read.entry !in s.user.last)
  {
    TrackedIsSeen(s);
    SeenEntry(s.kernel, s.user.phase.seen, pid);
    assert GoodRead(s.kernel, pid, s.user.phase.seen[pid]);
  }

  lemma AdvancedElsewhere(s: System, e: nat)
    requires Inv(s) && s.user.phase.Reading? && e !in EntriesOf(s.user.phase.seen)
    ensures var last' := Advanced(s.kernel, s.user.last, s.user.phase.seen);
            (e in last' <==> e in s.user.last) && (e in last' ==> last'[e] == s.user.last[e])
  {
  }

  lemma AdvancedBound(s: System, e: nat)
    requires Inv(s) && Marks(s.kernel, s.user) && Complete(s)
    requires e in Advanced(s.kernel, s.user.last, s.user.phase.seen)
    ensures var last' := Advanced(s.kernel, s.user.last, s.user.phase.seen);
            && e < |s.kernel.heap| && last'[e] <= |s.kernel.log|
            && (e in s.user.last ==> s.user.last[e] <= last'[e])
  {
    var seen := s.user.phase.seen;
    if e in EntriesOf(seen) {
      var pid :| pid in seen && seen[pid].entry == e;
      AdvancedAt(s, pid);
    } else {
      AdvancedElsewhere(s, e);
    }
  }

  lemma AdvancedAlike(k: State, seen: map<nat, Read>, base: map<nat, nat>, last: map<nat, nat>)
    requires base == map[]
    requires forall e :: e in EntriesOf(seen) ==> e < |k.owner| && k.owner[e] in seen && seen[k.owner[e]].entry == e
    ensures forall e :: e in Advanced(k, base, seen) ==>
              e in Advanced(k, last, seen) && Advanced(k, base, seen)[e] == Advanced(k, last, seen)[e]
  {
  }

  lemma LastAdvances(s: System)
    requires Inv(s) && Marks(s.kernel, s.user) && Complete(s)
    ensures var last' := Advanced(s.kernel, s.user.last, s.user.phase.seen);
      forall e :: e in last' ==>
        e < |s.kernel.heap| && last'[e] <= |s.kernel.log| && (e in s.user.last ==> s.user.last[e] <= last'[e])
  {
    var last' := Advanced(s.kernel, s.user.last, s.user.phase.seen);
    forall e | e in last'
      ensures e < |s.kernel.heap| && last'[e] <= |s.kernel.log|
      ensures e in s.user.last ==> s.user.last[e] <= last'[e]
    {
      AdvancedBound(s, e);
    }
  }

  lemma SeenMarked(s: System)
    requires Inv(s) && Marks(s.kernel, s.user) && Complete(s)
    ensures var seen, last' := s.user.phase.seen, Advanced(s.kernel, s.user.last, s.user.phase.seen);
      forall pid :: pid in seen ==>
        && seen[pid].entry in last' && last'[seen[pid].entry] == seen[pid].at
        && seen[pid].entry < |s.kernel.owner| && s.kernel.owner[seen[pid].entry] == pid
  {
    var seen, last' := s.user.phase.seen, Advanced(s.kernel, s.user.last, s.user.phase.seen);
    forall pid | pid in seen
      ensures seen[pid].entry in last' && last'[seen[pid].entry] == seen[pid].at
      ensures seen[pid].entry < |s.kernel.owner| && s.kernel.owner[seen[pid].entry] == pid
    {
      AdvancedAt(s, pid);
      SeenEntry(s.kernel, seen, pid);
    }
  }

  lemma BaseAdvances(s: System, names: map<nat, string>, alive: set<nat>)
    requires Inv(s) && Marks(s.kernel, s.user) && Complete(s)
    ensures var u' := StepBuild(s, names, alive).user;
      forall e :: e in u'.base ==> e in u'.last && u'.base[e] <= u'.last[e]
  {
    SeenMarked(s);
    if s.user.prevTime.None? {
      AdvancedAlike(s.kernel, s.user.phase.seen, s.user.base, s.user.last);
    } else {
      LastAdvances(s);
      assert forall e :: e in s.user.base ==> e in Advanced(s.kernel, s.user.last, s.user.phase.seen);
    }
  }

  lemma MarksBuild(s: System, names: map<nat, string>, alive: set<nat>)
    requires Inv(s) && Marks(s.kernel, s.user) && Complete(s)
    ensures Marks(s.kernel, StepBuild(s, names, alive).user)
  {
    LastAdvances(s);
    SeenMarked(s);
    BaseAdvances(s, names, alive);
  }

  lemma PollerStep(s: System, m: Move)
    requires Inv(s) && Marks(s.kernel, s.user) && (m.PollStart? || m.PollFail? || m.Commit?)
    ensures Inv(StepSystem(s, m)) && Marks(StepSystem(s, m).kernel, StepSystem(s, m).user)
  {
  }

  lemma InvStep(s: System, m: Move)
    requires Inv(s) && Marks(s.kernel, s.user)
    ensures Inv(StepSystem(s, m)) && Marks(StepSystem(s, m).kernel, StepSystem(s, m).user)
  {
    match m
    case Kernel(a) => KernelStep(s, a);
    case PollRead(pid) =>
      if s.user.phase.Reading? {
        ReadStep(s, pid);
      }
    case Build(names, alive) =>
      if Complete(s) {
        BuildStep(s, names, alive);
        MarksBuild(s, names, alive);
      }
    case Reap(pid, deleted) =>
      if s.user.phase.Reaping? {
        ReapStep(s, pid, deleted);
      }
    case _ => PollerStep(s, m);
  }

  lemma {:induction false} InvRun(ncpu: nat, cpus: seq<nat>, moves: seq<Move>)
    requires forall x :: 0 <= x < |cpus| ==> cpus[x] < ncpu
    ensures Inv(After(ncpu, cpus, moves)) && Marks(After(ncpu, cpus, moves).kernel, After(ncpu, cpus, moves).user)
  {
    if moves != [] {
      InvRun(ncpu, cpus, moves[..|moves| - 1]);
      InvStep(After(ncpu, cpus, moves[..|moves| - 1]), moves[|moves| - 1]);
    }
  }
}
