/** From the events of the two sampling programs to the reported CPU time. */
module CpuSamples {
  import opened U64
  import opened Sums
  import opened CpuKernel
  import opened CpuRuns
  import opened CpuAccounting

  /** The sample_period, counted as user or kernel time by the interrupted address, or one switch. */
  function AmountOf(pid: nat, f: Field): Fire -> nat
  {
    (e: Fire) => AmountIn(pid, f, e)
  }

  function AmountIn(pid: nat, f: Field, e: Fire): nat
  {
    if e.tgid != pid then 0
    else
      match f
      case User => if e.Sampled? && e.ip < 0x8000_0000_0000_0000 then e.period else 0
      case Kern => if e.Sampled? && e.ip >= 0x8000_0000_0000_0000 then e.period else 0
      case Switches => if e.Switched? then 1 else 0
  }

  function Load(pc: Pc): Val
  {
    match pc
    case Idle => ZERO
    case Switching(_) => ONE_SWITCH
    case _ => pc.inc
  }

  function CarriedIn(pid: nat, f: Field, pc: Pc): nat
  {
    if !pc.Idle? && pc.pid == pid then Load(pc).Get(f) else 0
  }

  /** What a program is on its way to add. */
  function Carried(pid: nat, f: Field): Pc -> nat
  {
    (pc: Pc) => CarriedIn(pid, f, pc)
  }

  function LostOf(pid: nat, f: Field): Loss -> nat
  {
    (l: Loss) => if l.pid == pid then l.inc.Get(f) else 0
  }

  ghost predicate AllSampled(k: State, pid: nat, f: Field)
  {
    Sum(k.fired, AmountOf(pid, f))
    == Sum(k.log, OfPid(pid, f)) + Sum(k.dropped, LostOf(pid, f)) + Sum(k.pcs, Carried(pid, f))
  }

  /** An event starts its program, or its increment is added, given up, or carried on. */
  datatype Fate = Begun(e: Fire) | Added(t: Tick) | GivenUp(l: Loss) | Kept

  function FateOf(k: State, a: Action): Fate
    requires Sized(k) && a.x < |k.pcs|
  {
    match a
    case SampleFire(x, tgid, ip, period) => if k.pcs[x].Idle? then Begun(Sampled(tgid, ip, period)) else Kept
    case SwitchFire(x, tgid) => if k.pcs[x].Idle? then Begun(Switched(tgid)) else Kept
    case SampleSeed(x, zeroFound, _) =>
      if k.pcs[x].Seeding? && !zeroFound then GivenUp(Loss(k.pcs[x].pid, k.pcs[x].inc)) else Kept
    case SampleRelookup(x) =>
      if k.pcs[x].LookingAgain? && k.pcs[x].pid !in k.table then GivenUp(Loss(k.pcs[x].pid, k.pcs[x].inc)) else Kept
    case SwitchLookup(x) =>
      if k.pcs[x].Switching? && k.pcs[x].pid !in k.table then GivenUp(Loss(k.pcs[x].pid, ONE_SWITCH)) else Kept
    case Add(x) => if Adds(k, a) then Added(TickOf(k, x)) else Kept
    case SampleLookup(_) => Kept
  }

  ghost predicate LogsFollow(fate: Fate, k: State, k': State)
  {
    && k'.fired == (if fate.Begun? then k.fired + [fate.e] else k.fired)
    && k'.log == (if fate.Added? then k.log + [fate.t] else k.log)
    && k'.dropped == (if fate.GivenUp? then k.dropped + [fate.l] else k.dropped)
  }

  predicate PcFollows(fate: Fate, pc: Pc, pc': Pc)
  {
    match fate
    case Begun(_) => pc.Idle?
    case Added(t) => pc'.Idle? && !pc.Idle? && pc.pid == t.pid && Load(pc) == t.inc
    case GivenUp(l) => pc'.Idle? && !pc.Idle? && pc.pid == l.pid && Load(pc) == l.inc
    case Kept => pc'.Idle? == pc.Idle? && (!pc.Idle? ==> pc'.pid == pc.pid && Load(pc') == Load(pc))
  }

  lemma LogsFollowStep(k: State, a: Action)
    requires Sized(k) && a.x < |k.pcs|
    ensures LogsFollow(FateOf(k, a), k, Step(k, a))
  {
    LogGrows(k, a);
  }

  lemma PcFollowsStep(k: State, a: Action)
    requires Sized(k) && a.x < |k.pcs|
    ensures var k' := Step(k, a);
      k'.pcs == k.pcs[a.x := k'.pcs[a.x]] && PcFollows(FateOf(k, a), k.pcs[a.x], k'.pcs[a.x])
  {
    PcMoves(k, a);
  }

  /** A program begins with what its event is worth. */
  lemma BeginsWith(k: State, a: Action, pid: nat, f: Field)
    requires Sized(k) && a.x < |k.pcs| && FateOf(k, a).Begun? && pid != 0
    ensures |Step(k, a).pcs| == |k.pcs| && CarriedIn(pid, f, Step(k, a).pcs[a.x]) == AmountIn(pid, f, FateOf(k, a).e)
  {
  }

  function Begins(fate: Fate, pid: nat, f: Field): nat
  {
    if fate.Begun? then AmountIn(pid, f, fate.e) else 0
  }

  function Adding(fate: Fate, pid: nat, f: Field): nat
  {
    if fate.Added? && fate.t.pid == pid then fate.t.inc.Get(f) else 0
  }

  function GivingUp(fate: Fate, pid: nat, f: Field): nat
  {
    if fate.GivenUp? && fate.l.pid == pid then fate.l.inc.Get(f) else 0
  }

  lemma LogSums(fate: Fate, k: State, k': State, pid: nat, f: Field)
    requires LogsFollow(fate, k, k')
    ensures Sum(k'.fired, AmountOf(pid, f)) == Sum(k.fired, AmountOf(pid, f)) + Begins(fate, pid, f)
    ensures Sum(k'.log, OfPid(pid, f)) == Sum(k.log, OfPid(pid, f)) + Adding(fate, pid, f)
    ensures Sum(k'.dropped, LostOf(pid, f)) == Sum(k.dropped, LostOf(pid, f)) + GivingUp(fate, pid, f)
  {
    match fate
    case Begun(e) => SumAppend(k.fired, e, AmountOf(pid, f));
    case Added(t) => SumAppend(k.log, t, OfPid(pid, f));
    case GivenUp(l) => SumAppend(k.dropped, l, LostOf(pid, f));
    case Kept =>
  }

  lemma FateBalances(fate: Fate, pc: Pc, pc': Pc, pid: nat, f: Field)
    requires PcFollows(fate, pc, pc') && (fate.Begun? ==> CarriedIn(pid, f, pc') == AmountIn(pid, f, fate.e))
    ensures Begins(fate, pid, f) + CarriedIn(pid, f, pc)
         == Adding(fate, pid, f) + GivingUp(fate, pid, f) + CarriedIn(pid, f, pc')
  {
  }

  lemma AllSampledFate(fate: Fate, k: State, k': State, x: nat, pid: nat, f: Field)
    requires x < |k.pcs| == |k'.pcs| && k'.pcs == k.pcs[x := k'.pcs[x]] && AllSampled(k, pid, f)
    requires LogsFollow(fate, k, k') && PcFollows(fate, k.pcs[x], k'.pcs[x])
    requires fate.Begun? ==> CarriedIn(pid, f, k'.pcs[x]) == AmountIn(pid, f, fate.e)
    ensures AllSampled(k', pid, f)
  {
    SumUpdate(k.pcs, x, k'.pcs[x], Carried(pid, f));
    LogSums(fate, k, k', pid, f);
    FateBalances(fate, k.pcs[x], k'.pcs[x], pid, f);
  }

  lemma AllSampledStep(k: State, a: Action, pid: nat, f: Field)
    requires Sized(k) && AllSampled(k, pid, f) && pid != 0
    ensures AllSampled(Step(k, a), pid, f)
  {
    if a.x < |k.pcs| {
      LogsFollowStep(k, a);
      PcFollowsStep(k, a);
      if FateOf(k, a).Begun? {
        BeginsWith(k, a, pid, f);
      }
      AllSampledFate(FateOf(k, a), k, Step(k, a), a.x, pid, f);
    }
  }

  /** The aggregator fires nothing and adds nothing. */
  lemma PollerSamplesNothing(s: System, m: Move)
    requires Sized(s.kernel) && !m.Kernel?
    ensures var k, k' := s.kernel, StepSystem(s, m).kernel;
      k'.fired == k.fired && k'.log == k.log && k'.dropped == k.dropped && k'.pcs == k.pcs
  {
  }

  lemma {:induction false} AllSampledRun(ncpu: nat, cpus: seq<nat>, moves: seq<Move>, pid: nat, f: Field)
    requires (forall x :: 0 <= x < |cpus| ==> cpus[x] < ncpu) && pid != 0
    ensures AllSampled(After(ncpu, cpus, moves).kernel, pid, f)
  {
    if moves == [] {
      SumZero(Init(ncpu, cpus).pcs, Carried(pid, f));
    } else {
      var s, m := After(ncpu, cpus, moves[..|moves| - 1]), moves[|moves| - 1];
      AllSampledRun(ncpu, cpus, moves[..|moves| - 1], pid, f);
      if m.Kernel? {
        AllSampledStep(s.kernel, m.a, pid, f);
      } else {
        PollerSamplesNothing(s, m);
      }
    }
  }

  /** The events that occurred, as the moves have them: an executor takes one when it has nothing else to do. */
  ghost function Events(ncpu: nat, cpus: seq<nat>, moves: seq<Move>): seq<Fire>
    requires forall x :: 0 <= x < |cpus| ==> cpus[x] < ncpu
  {
    if moves == [] then []
    else
      var front, m := moves[..|moves| - 1], moves[|moves| - 1];
      Events(ncpu, cpus, front) + EventOf(After(ncpu, cpus, front).kernel, m)
  }

  function EventOf(k: State, m: Move): seq<Fire>
  {
    if m.Kernel? && m.a.SampleFire? && m.a.x < |k.pcs| && k.pcs[m.a.x].Idle?
    then [Sampled(m.a.tgid, m.a.ip, m.a.period)]
    else if m.Kernel? && m.a.SwitchFire? && m.a.x < |k.pcs| && k.pcs[m.a.x].Idle?
    then [Switched(m.a.tgid)]
    else []
  }

  lemma FiredNext(s: System, m: Move)
    requires Sized(s.kernel)
    ensures StepSystem(s, m).kernel.fired == s.kernel.fired + EventOf(s.kernel, m)
  {
    assert s.kernel.fired + [] == s.kernel.fired;
  }

  lemma {:induction false} FiredAre(ncpu: nat, cpus: seq<nat>, moves: seq<Move>)
    requires forall x :: 0 <= x < |cpus| ==> cpus[x] < ncpu
    ensures After(ncpu, cpus, moves).kernel.fired == Events(ncpu, cpus, moves)
  {
    if moves != [] {
      FiredAre(ncpu, cpus, moves[..|moves| - 1]);
      FiredNext(After(ncpu, cpus, moves[..|moves| - 1]), moves[|moves| - 1]);
    }
  }

  /**
   From events to records: whatever the programs, the polls and the deletions do to each other,
   the sample periods with addresses in the upper half, those in the lower half, and the
   switches of a process are each the sum of what the first snapshot had, what the records
   report, what waits in the map, what a deletion lost, what was given up for want of an
   entry, and what programs are about to add.
   */
  lemma {:induction false} EverySampleIsAccountedFor(ncpu: nat, cpus: seq<nat>, moves: seq<Move>, pid: nat, f: Field)
    requires (forall x :: 0 <= x < |cpus| ==> cpus[x] < ncpu) && pid != 0
    requires StrictlyLater(ncpu, cpus, moves)
    requires Sum(After(ncpu, cpus, moves).kernel.log, Everything(f)) < 0x1_0000_0000_0000_0000
    ensures var s := After(ncpu, cpus, moves);
            Sum(Events(ncpu, cpus, moves), AmountOf(pid, f))
            == Sum(s.kernel.log, Baseline(pid, f, s.user.base))
               + Emitted(s.user, pid).Get(f)
               + Sum(s.kernel.log, Unread(pid, f, s.user.last, s.kernel.table))
               + Sum(s.kernel.log, CpuAccounting.Lost(pid, f, s.user.last, s.kernel.table))
               + Sum(s.kernel.dropped, LostOf(pid, f))
               + Sum(s.kernel.pcs, Carried(pid, f))
  {
    AllSampledRun(ncpu, cpus, moves, pid, f);
    FiredAre(ncpu, cpus, moves);
    CpuTimeConserved(ncpu, cpus, moves, pid, f);
  }

  // ----- a sample on its own, and the idle task

  /** The program for a sample, run to its end. */
  function RunSample(k: State, x: nat, tgid: nat, ip: u64, period: u64): State
    requires Sized(k)
  {
    SizedStep(k, SampleFire(x, tgid, ip, period));
    var k1 := Step(k, SampleFire(x, tgid, ip, period));
    SizedStep(k1, SampleLookup(x));
    var k2 := Step(k1, SampleLookup(x));
    SizedStep(k2, SampleSeed(x, true, true));
    var k3 := Step(k2, SampleSeed(x, true, true));
    SizedStep(k3, SampleRelookup(x));
    Step(Step(k3, SampleRelookup(x)), Add(x))
  }

  /** If the kernel finds memory, a sample that nothing interferes with is added to the entry of its process. */
  lemma SampleIsAdded(k: State, x: nat, tgid: nat, ip: u64, period: u64)
    requires Entries(k) && x < |k.pcs| && k.pcs[x].Idle? && tgid != 0
    ensures var k' := RunSample(k, x, tgid, ip, period);
            && tgid in k'.table && k'.pcs == k.pcs
            && k'.log == k.log + [Tick(tgid, k'.table[tgid], k.cpus[x],
                                       if ip < 0x8000_0000_0000_0000 then Val(period, 0, 0) else Val(0, period, 0),
                                       |k.log|)]
  {
  }

  /** So is a switch, if the process has an entry; it makes none. */
  lemma SwitchIsAdded(k: State, x: nat, tgid: nat)
    requires Entries(k) && x < |k.pcs| && k.pcs[x].Idle? && tgid != 0
    ensures var k' := Step(Step(Step(k, SwitchFire(x, tgid)), SwitchLookup(x)), Add(x));
            && k'.table == k.table && k'.pcs == k.pcs
            && k'.log == k.log + (if tgid in k.table
                                  then [Tick(tgid, k.table[tgid], k.cpus[x], Val(0, 0, 1), |k.log|)] else [])
  {
  }

  ghost predicate WithoutZero(s: System)
  {
    && 0 !in s.kernel.table
    && (forall x :: 0 <= x < |s.kernel.pcs| && !s.kernel.pcs[x].Idle? ==> s.kernel.pcs[x].pid != 0)
    && (forall t :: t in s.kernel.log ==> t.pid != 0)
    && 0 !in s.user.prev && 0 !in s.user.emitted
    && (s.user.phase.Reading? ==> 0 !in s.user.phase.seen)
    && (s.user.phase.Reaping? ==> 0 !in s.user.phase.current)
  }

  lemma WithoutZeroKernel(s: System, a: Action)
    requires Entries(s.kernel) && WithoutZero(s)
    ensures WithoutZero(s.(kernel := Step(s.kernel, a)))
  {
    if a.x < |s.kernel.pcs| {
      EntriesMade(s.kernel, a);
      LogGrows(s.kernel, a);
      PcFollowsStep(s.kernel, a);
    }
  }

  lemma WithoutZeroStep(s: System, m: Move)
    requires Entries(s.kernel) && WithoutZero(s)
    ensures WithoutZero(StepSystem(s, m))
  {
    if m.Kernel? {
      WithoutZeroKernel(s, m.a);
    }
  }

  /** The idle task, process 0, is sampled, but never in the map, in a snapshot or in a report. */
  lemma {:induction false} IdleIsNotCounted(ncpu: nat, cpus: seq<nat>, moves: seq<Move>)
    requires forall x :: 0 <= x < |cpus| ==> cpus[x] < ncpu
    ensures WithoutZero(After(ncpu, cpus, moves))
  {
    if moves == [] {
      assert forall x :: 0 <= x < |cpus| ==> After(ncpu, cpus, moves).kernel.pcs[x].Idle?;
    } else {
      IdleIsNotCounted(ncpu, cpus, moves[..|moves| - 1]);
      WithoutZeroStep(After(ncpu, cpus, moves[..|moves| - 1]), moves[|moves| - 1]);
    }
  }

  // ----- what is given up

  predicate SeedingSucceeds(a: Action)
  {
    a.SampleSeed? ==> a.zeroFound && a.inserted
  }

  /** Whoever has seeded the process finds it, and only switches have been given up. */
  ghost predicate NoneGivenUp(k: State, pid: nat)
  {
    && (forall x :: 0 <= x < |k.pcs| && k.pcs[x].LookingAgain? && k.pcs[x].pid == pid ==> pid in k.table)
    && (forall l :: l in k.dropped && l.pid == pid ==> l.inc == ONE_SWITCH)
  }

  lemma SeededIsThere(k: State, a: Action)
    requires Sized(k) && a.x < |k.pcs| && SeedingSucceeds(a)
    ensures var k' := Step(k, a);
      && |k'.pcs| == |k.pcs|
      && (k'.pcs[a.x].LookingAgain? && k'.pcs[a.x] != k.pcs[a.x] ==> k'.pcs[a.x].pid in k'.table)
      && (FateOf(k, a).GivenUp? ==>
            || FateOf(k, a).l.inc == ONE_SWITCH
            || (k.pcs[a.x].LookingAgain? && k.pcs[a.x].pid !in k.table && FateOf(k, a).l.pid == k.pcs[a.x].pid))
  {
  }

  lemma NoneGivenUpStep(k: State, a: Action, pid: nat)
    requires Sized(k) && NoneGivenUp(k, pid) && SeedingSucceeds(a)
    ensures NoneGivenUp(Step(k, a), pid)
  {
    if a.x < |k.pcs| {
      LogsFollowStep(k, a);
      PcFollowsStep(k, a);
      SeededIsThere(k, a);
      EntriesMade(k, a);
    }
  }

  /** A process that is never deleted loses no sample, if the kernel finds memory for its entry. */
  lemma {:induction false} NoSampleGivenUp(ncpu: nat, cpus: seq<nat>, moves: seq<Move>, pid: nat)
    requires forall x :: 0 <= x < |cpus| ==> cpus[x] < ncpu
    requires Reap(pid, true) !in moves && forall m :: m in moves && m.Kernel? ==> SeedingSucceeds(m.a)
    ensures NoneGivenUp(After(ncpu, cpus, moves).kernel, pid)
  {
    if moves != [] {
      var s, m := After(ncpu, cpus, moves[..|moves| - 1]), moves[|moves| - 1];
      NoSampleGivenUp(ncpu, cpus, moves[..|moves| - 1], pid);
      assert m in moves;
      if m.Kernel? {
        NoneGivenUpStep(s.kernel, m.a, pid);
      } else {
        PollerSamplesNothing(s, m);
        assert pid in s.kernel.table ==> pid in StepSystem(s, m).kernel.table;
      }
    }
  }
}
