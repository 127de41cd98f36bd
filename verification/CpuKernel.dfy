/**
 The sampling programs of bpf/c/cpu_sample.c, one map operation at a time, with any number
 of executors. Several executors may share a CPU: a sample can interrupt the tracepoint.

 As in SyscallKernel, an entry has an identity. An executor that looked an entry up before
 it was deleted still adds to it, where nobody finds it any more.
 */
module CpuKernel {
  import opened U64
  import opened Sums

  const KERNEL_HALF: nat := 0x8000_0000_0000_0000

  datatype Field = User | Kern | Switches

  datatype Val = Val(user: u64, kern: u64, switches: u64)
  {
    function Get(f: Field): u64
    {
      match f
      case User => user
      case Kern => kern
      case Switches => switches
    }
  }

  const ZERO := Val(0, 0, 0)
  const ONE_SWITCH := Val(0, 0, 1)

  function Plus(a: Val, b: Val): (r: Val)
    ensures forall f: Field :: r.Get(f) == WrapAdd(a.Get(f), b.Get(f))
  {
    Val(WrapAdd(a.user, b.user), WrapAdd(a.kern, b.kern), WrapAdd(a.switches, b.switches))
  }

  /** One increment. n is its position in the log. */
  datatype Tick = Tick(pid: nat, entry: nat, cpu: nat, inc: Val, n: nat)

  datatype Pc =
    | Idle
    | LookingUp(pid: nat, inc: Val)
    | Seeding(pid: nat, inc: Val)
    | LookingAgain(pid: nat, inc: Val)
    | Switching(pid: nat)
    | Adding(pid: nat, inc: Val, entry: nat)

  datatype Action =
    | SampleFire(x: nat, tgid: nat, ip: u64, period: u64)
    | SampleLookup(x: nat)
    | SampleSeed(x: nat, zeroFound: bool, inserted: bool)
    | SampleRelookup(x: nat)
    | SwitchFire(x: nat, tgid: nat)
    | SwitchLookup(x: nat)
    | Add(x: nat)

  /** An event that ran one of the programs. */
  datatype Fire = Sampled(tgid: nat, ip: u64, period: u64) | Switched(tgid: nat)

  /** An increment a program gave up for want of an entry. */
  datatype Loss = Loss(pid: nat, inc: Val)

  /**
   cpus is the CPU each executor runs on. table is the map cpu_time; an entry in the heap has
   one value per CPU. Everything from owner on is history: the pid an entry was made for,
   every increment, how long the log was when an entry was deleted, the events and the losses.
   */
  datatype State = State(
    ncpu: nat,
    cpus: seq<nat>,
    pcs: seq<Pc>,
    table: map<nat, nat>,
    heap: seq<seq<Val>>,
    owner: seq<nat>,
    log: seq<Tick>,
    deletedAt: map<nat, nat>,
    fired: seq<Fire>,
    dropped: seq<Loss>)

  function Init(ncpu: nat, cpus: seq<nat>): State
  {
    State(ncpu, cpus, seq(|cpus|, _ => Idle), map[], [], [], [], map[], [], [])
  }

  predicate Sized(s: State)
  {
    && |s.pcs| == |s.cpus|
    && (forall x :: 0 <= x < |s.cpus| ==> s.cpus[x] < s.ncpu)
    && |s.heap| == |s.owner|
    && (forall e :: 0 <= e < |s.heap| ==> |s.heap[e]| == s.ncpu)
  }

  /** The period counts as kernel time when the interrupted address has its top bit set. */
  function SampleInc(ip: u64, period: u64): Val
  {
    if ip >= KERNEL_HALF then Val(0, period, 0) else Val(period, 0, 0)
  }

  function StepSampleFire(s: State, x: nat, tgid: nat, ip: u64, period: u64): State
    requires Sized(s) && x < |s.pcs|
  {
    if !s.pcs[x].Idle? then s
    else if tgid == 0 then s.(fired := s.fired + [Sampled(tgid, ip, period)])
    else s.(pcs := s.pcs[x := LookingUp(tgid, SampleInc(ip, period))], fired := s.fired + [Sampled(tgid, ip, period)])
  }

  function StepSampleLookup(s: State, x: nat): State
    requires Sized(s) && x < |s.pcs|
  {
    if !s.pcs[x].LookingUp? then s
    else if s.pcs[x].pid in s.table then
      s.(pcs := s.pcs[x := Adding(s.pcs[x].pid, s.pcs[x].inc, s.table[s.pcs[x].pid])])
    else
      s.(pcs := s.pcs[x := Seeding(s.pcs[x].pid, s.pcs[x].inc)])
  }

  function ZeroEntry(ncpu: nat): seq<Val>
  {
    seq(ncpu, _ => ZERO)
  }

  function WithEntry(s: State, pid: nat): State
  {
    s.(table := s.table[pid := |s.heap|], heap := s.heap + [ZeroEntry(s.ncpu)], owner := s.owner + [pid])
  }

  function GiveUp(s: State, x: nat, inc: Val): State
    requires Sized(s) && x < |s.pcs| && !s.pcs[x].Idle?
  {
    s.(pcs := s.pcs[x := Idle], dropped := s.dropped + [Loss(s.pcs[x].pid, inc)])
  }

  function StepSampleSeed(s: State, x: nat, zeroFound: bool, inserted: bool): State
    requires Sized(s) && x < |s.pcs|
  {
    if !s.pcs[x].Seeding? then s
    else if !zeroFound then GiveUp(s, x, s.pcs[x].inc)
    else if s.pcs[x].pid in s.table || !inserted then
      s.(pcs := s.pcs[x := LookingAgain(s.pcs[x].pid, s.pcs[x].inc)])
    else
      WithEntry(s.(pcs := s.pcs[x := LookingAgain(s.pcs[x].pid, s.pcs[x].inc)]), s.pcs[x].pid)
  }

  function StepSampleRelookup(s: State, x: nat): State
    requires Sized(s) && x < |s.pcs|
  {
    if !s.pcs[x].LookingAgain? then s
    else if s.pcs[x].pid in s.table then
      s.(pcs := s.pcs[x := Adding(s.pcs[x].pid, s.pcs[x].inc, s.table[s.pcs[x].pid])])
    else
      GiveUp(s, x, s.pcs[x].inc)
  }

  function StepSwitchFire(s: State, x: nat, tgid: nat): State
    requires Sized(s) && x < |s.pcs|
  {
    if !s.pcs[x].Idle? then s
    else if tgid == 0 then s.(fired := s.fired + [Switched(tgid)])
    else s.(pcs := s.pcs[x := Switching(tgid)], fired := s.fired + [Switched(tgid)])
  }

  /** A switch only counts for a process that has an entry. */
  function StepSwitchLookup(s: State, x: nat): State
    requires Sized(s) && x < |s.pcs|
  {
    if !s.pcs[x].Switching? then s
    else if s.pcs[x].pid in s.table then
      s.(pcs := s.pcs[x := Adding(s.pcs[x].pid, ONE_SWITCH, s.table[s.pcs[x].pid])])
    else
      GiveUp(s, x, ONE_SWITCH)
  }

  function Bumped(values: seq<Val>, cpu: nat, inc: Val): seq<Val>
    requires cpu < |values|
  {
    values[cpu := Plus(values[cpu], inc)]
  }

  function TickOf(s: State, x: nat): Tick
    requires Sized(s) && x < |s.pcs| && s.pcs[x].Adding?
  {
    Tick(s.pcs[x].pid, s.pcs[x].entry, s.cpus[x], s.pcs[x].inc, |s.log|)
  }

  /** The atomic add, to the executor's own CPU's value. */
  function StepAdd(s: State, x: nat): State
    requires Sized(s) && x < |s.pcs|
  {
    if !s.pcs[x].Adding? || s.pcs[x].entry >= |s.heap| then s
    else
      s.(pcs := s.pcs[x := Idle],
         heap := s.heap[s.pcs[x].entry := Bumped(s.heap[s.pcs[x].entry], s.cpus[x], s.pcs[x].inc)],
         log := s.log + [TickOf(s, x)])
  }

  function Step(s: State, a: Action): State
    requires Sized(s)
  {
    if a.x >= |s.pcs| then s
    else
      match a
      case SampleFire(x, tgid, ip, period) => StepSampleFire(s, x, tgid, ip, period)
      case SampleLookup(x) => StepSampleLookup(s, x)
      case SampleSeed(x, zeroFound, inserted) => StepSampleSeed(s, x, zeroFound, inserted)
      case SampleRelookup(x) => StepSampleRelookup(s, x)
      case SwitchFire(x, tgid) => StepSwitchFire(s, x, tgid)
      case SwitchLookup(x) => StepSwitchLookup(s, x)
      case Add(x) => StepAdd(s, x)
  }

  /** The map's Delete, done by the aggregator. */
  function Delete(s: State, pid: nat): State
  {
    if pid in s.table then s.(table := s.table - {pid}, deletedAt := s.deletedAt[s.table[pid] := |s.log|]) else s
  }

  // ----- what the values count

  function OnCpu(e: nat, c: nat, f: Field): Tick -> nat
  {
    (t: Tick) => if t.entry == e && t.cpu == c then t.inc.Get(f) else 0
  }

  function OnEntry(e: nat, f: Field): Tick -> nat
  {
    (t: Tick) => if t.entry == e then t.inc.Get(f) else 0
  }

  function OnCpusBelow(e: nat, c: nat, f: Field): Tick -> nat
  {
    (t: Tick) => if t.entry == e && t.cpu < c then t.inc.Get(f) else 0
  }

  ghost predicate GoodLog(s: State)
  {
    && (forall i :: 0 <= i < |s.log| ==> s.log[i].n == i)
    && (forall t :: t in s.log ==> t.entry < |s.owner| && s.owner[t.entry] == t.pid && t.cpu < s.ncpu)
  }

  ghost predicate Entries(s: State)
  {
    && Sized(s)
    && (forall pid :: pid in s.table ==> s.table[pid] < |s.owner| && s.owner[s.table[pid]] == pid)
    && (forall x :: 0 <= x < |s.pcs| && s.pcs[x].Adding? ==>
          s.pcs[x].entry < |s.owner| && s.owner[s.pcs[x].entry] == s.pcs[x].pid)
    && GoodLog(s)
  }

  ghost predicate Counted(s: State)
    requires Sized(s)
  {
    forall e, c, f :: 0 <= e < |s.heap| && 0 <= c < s.ncpu ==>
      s.heap[e][c].Get(f) == Sum(s.log, OnCpu(e, c, f)) % SIZE
  }

  /** Only seeding makes an entry. */
  predicate Inserts(s: State, a: Action)
    requires Sized(s)
  {
    a.SampleSeed? && a.x < |s.pcs| && s.pcs[a.x].Seeding? && a.zeroFound && a.inserted && s.pcs[a.x].pid !in s.table
  }

  /** Only an add changes the values and the log. */
  predicate Adds(s: State, a: Action)
    requires Sized(s)
  {
    a.Add? && a.x < |s.pcs| && s.pcs[a.x].Adding? && s.pcs[a.x].entry < |s.heap|
  }

  lemma EntriesMade(s: State, a: Action)
    requires Sized(s)
    ensures var s' := Step(s, a);
      && s'.ncpu == s.ncpu && s'.cpus == s.cpus && s'.deletedAt == s.deletedAt
      && (Inserts(s, a) ==>
            var s1 := WithEntry(s, s.pcs[a.x].pid); s'.table == s1.table && s'.owner == s1.owner && s'.heap == s1.heap)
      && (!Inserts(s, a) ==> s'.table == s.table && s'.owner == s.owner && |s'.heap| == |s.heap|)
  {
  }

  lemma LogGrows(s: State, a: Action)
    requires Sized(s)
    ensures Adds(s, a) ==> Step(s, a).log == s.log + [TickOf(s, a.x)] && Step(s, a).pcs == s.pcs[a.x := Idle]
    ensures Adds(s, a) ==>
      Step(s, a).heap == s.heap[s.pcs[a.x].entry := Bumped(s.heap[s.pcs[a.x].entry], s.cpus[a.x], s.pcs[a.x].inc)]
    ensures !Adds(s, a) ==> Step(s, a).log == s.log
    ensures !Adds(s, a) && !Inserts(s, a) ==> Step(s, a).heap == s.heap
  {
  }

  /** One executor moves, and it takes up an entry only by finding it under its process. */
  lemma PcMoves(s: State, a: Action)
    requires Sized(s) && a.x < |s.pcs|
    ensures var s' := Step(s, a);
      && s'.pcs == s.pcs[a.x := s'.pcs[a.x]]
      && (s'.pcs[a.x].Adding? && s'.pcs[a.x] != s.pcs[a.x] ==>
            s'.pcs[a.x].pid in s.table && s'.pcs[a.x].entry == s.table[s'.pcs[a.x].pid] && s'.table == s.table)
  {
  }

  lemma {:induction false} EntriesStep(s: State, a: Action)
    requires Entries(s)
    ensures Entries(Step(s, a))
  {
    if a.x < |s.pcs| {
      EntriesMade(s, a);
      LogGrows(s, a);
      PcMoves(s, a);
      SizedStep(s, a);
    }
  }

  lemma SizedStep(s: State, a: Action)
    requires Sized(s)
    ensures Sized(Step(s, a))
  {
    EntriesMade(s, a);
    LogGrows(s, a);
    if a.x < |s.pcs| {
      PcMoves(s, a);
    }
  }

  lemma {:induction false} CountedAdd(s: State, x: nat)
    requires Entries(s) && Counted(s) && x < |s.pcs| && s.pcs[x].Adding?
    ensures Counted(StepAdd(s, x))
  {
    var s', tick := StepAdd(s, x), TickOf(s, x);
    forall e, c, f | 0 <= e < |s'.heap| && 0 <= c < s'.ncpu
      ensures s'.heap[e][c].Get(f) == Sum(s'.log, OnCpu(e, c, f)) % SIZE
    {
      assert s.heap[e][c].Get(f) == Sum(s.log, OnCpu(e, c, f)) % SIZE;
      SumAppend(s.log, tick, OnCpu(e, c, f));
      AddToWrapped(Sum(s.log, OnCpu(e, c, f)), tick.inc.Get(f));
    }
  }

  lemma CountedNewEntry(s: State, pid: nat)
    requires Entries(s) && Counted(s)
    ensures Counted(WithEntry(s, pid))
  {
    var s' := WithEntry(s, pid);
    forall e, c, f | 0 <= e < |s'.heap| && 0 <= c < s'.ncpu
      ensures s'.heap[e][c].Get(f) == Sum(s'.log, OnCpu(e, c, f)) % SIZE
    {
      if e == |s.heap| {
        SumZero(s.log, OnCpu(e, c, f));
      } else {
        assert s.heap[e][c].Get(f) == Sum(s.log, OnCpu(e, c, f)) % SIZE;
      }
    }
  }

  lemma CountedStep(s: State, a: Action)
    requires Entries(s) && Counted(s)
    ensures Sized(Step(s, a)) && Counted(Step(s, a))
  {
    EntriesMade(s, a);
    LogGrows(s, a);
    SizedStep(s, a);
    if Adds(s, a) {
      CountedAdd(s, a.x);
    } else if Inserts(s, a) {
      CountedNewEntry(s, s.pcs[a.x].pid);
    }
  }

  // ----- summing over the CPUs (internal/cpu/cpu.go, SumCPUs)

  function SumCpusOf(vals: seq<Val>): Val
  {
    if vals == [] then ZERO else Plus(SumCpusOf(vals[..|vals| - 1]), vals[|vals| - 1])
  }

  method SumCPUs(vals: seq<Val>) returns (out: Val)
    ensures out == SumCpusOf(vals)
  {
    out := ZERO;
    for i := 0 to |vals|
      invariant out == SumCpusOf(vals[..i])
    {
      assert vals[..i + 1][..i] == vals[..i];
      out := Val(WrapAdd(out.user, vals[i].user), WrapAdd(out.kern, vals[i].kern),
                 WrapAdd(out.switches, vals[i].switches));
    }
    assert vals[..|vals|] == vals;
  }

  lemma {:induction false} SumCpusBelow(s: State, e: nat, c: nat, f: Field)
    requires Entries(s) && Counted(s) && e < |s.heap| && c <= s.ncpu
    ensures SumCpusOf(s.heap[e][..c]).Get(f) == Sum(s.log, OnCpusBelow(e, c, f)) % SIZE
  {
    if c == 0 {
      SumZero(s.log, OnCpusBelow(e, 0, f));
    } else {
      SumCpusBelow(s, e, c - 1, f);
      assert s.heap[e][..c][..c - 1] == s.heap[e][..c - 1];
      SumPlus(s.log, OnCpusBelow(e, c - 1, f), OnCpu(e, c - 1, f), OnCpusBelow(e, c, f));
      assert s.heap[e][c - 1].Get(f) == Sum(s.log, OnCpu(e, c - 1, f)) % SIZE;
      BothWrapped(Sum(s.log, OnCpusBelow(e, c - 1, f)), Sum(s.log, OnCpu(e, c - 1, f)));
    }
  }

  lemma BothWrapped(a: nat, b: nat)
    ensures WrapAdd(a % SIZE, b % SIZE) == (a + b) % SIZE
  {
  }

  /** Summed over the CPUs, an entry holds everything that was added to it, modulo 2^64. */
  lemma SumCpusCounts(s: State, e: nat, f: Field)
    requires Entries(s) && Counted(s) && e < |s.heap|
    ensures SumCpusOf(s.heap[e]).Get(f) == Sum(s.log, OnEntry(e, f)) % SIZE
  {
    SumCpusBelow(s, e, s.ncpu, f);
    assert s.heap[e][..s.ncpu] == s.heap[e];
    SumSame(s.log, OnCpusBelow(e, s.ncpu, f), OnEntry(e, f));
  }

  // ----- increments that come too late

  function AddedAfter(e: nat, at: nat): Tick -> nat
  {
    (t: Tick) => if t.entry == e && t.n >= at then 1 else 0
  }

  function Holding(e: nat): Pc -> nat
  {
    (pc: Pc) => if pc.Adding? && pc.entry == e then 1 else 0
  }

  /** Increments of a deleted entry come only from executors that had looked it up before. */
  ghost predicate Stragglers(s: State)
  {
    forall e :: e in s.deletedAt ==>
      && e < |s.owner|
      && (forall pid :: pid in s.table ==> s.table[pid] != e)
      && s.deletedAt[e] <= |s.log|
      && Sum(s.log, AddedAfter(e, s.deletedAt[e])) + Sum(s.pcs, Holding(e)) <= |s.pcs|
  }

  ghost predicate Gone(s: State, e: nat)
  {
    e < |s.owner| && forall pid :: pid in s.table ==> s.table[pid] != e
  }

  lemma GoneStep(s: State, a: Action, e: nat)
    requires Entries(s) && Gone(s, e)
    ensures Gone(Step(s, a), e)
  {
    EntriesMade(s, a);
  }

  /** A step can add for an executor that holds a gone entry, but no executor comes to hold it. */
  lemma StragglerStep(s: State, a: Action, e: nat, at: nat)
    requires Entries(s) && Gone(s, e) && a.x < |s.pcs|
    ensures Sum(Step(s, a).log, AddedAfter(e, at)) + Sum(Step(s, a).pcs, Holding(e))
         <= Sum(s.log, AddedAfter(e, at)) + Sum(s.pcs, Holding(e))
  {
    var pc' := Step(s, a).pcs[a.x];
    PcMoves(s, a);
    LogGrows(s, a);
    SumUpdate(s.pcs, a.x, pc', Holding(e));
    if Adds(s, a) {
      SumAppend(s.log, TickOf(s, a.x), AddedAfter(e, at));
    } else {
      assert Holding(e)(pc') <= Holding(e)(s.pcs[a.x]);
    }
  }

  lemma {:induction false} StragglersStep(s: State, a: Action)
    requires Entries(s) && Stragglers(s)
    ensures Stragglers(Step(s, a))
  {
    if a.x < |s.pcs| {
      var s' := Step(s, a);
      EntriesMade(s, a);
      LogGrows(s, a);
      PcMoves(s, a);
      forall e | e in s.deletedAt
        ensures Gone(s', e)
        ensures Sum(s'.log, AddedAfter(e, s.deletedAt[e])) + Sum(s'.pcs, Holding(e)) <= |s.pcs|
      {
        GoneStep(s, a, e);
        StragglerStep(s, a, e, s.deletedAt[e]);
      }
    }
  }

  lemma StragglersDelete(s: State, pid: nat)
    requires Entries(s) && Stragglers(s)
    ensures Stragglers(Delete(s, pid))
  {
    if pid in s.table {
      var e := s.table[pid];
      assert forall t :: t in s.log ==> t.n < |s.log| by {
        forall t | t in s.log
          ensures t.n < |s.log|
        {
          var i :| 0 <= i < |s.log| && s.log[i] == t;
        }
      }
      SumZero(s.log, AddedAfter(e, |s.log|));
      SumAtMostLength(s.pcs, Holding(e));
      forall other | other in s.table && other != pid
        ensures s.table[other] != e
      {
        assert s.owner[s.table[other]] == other;
      }
    }
  }
}
