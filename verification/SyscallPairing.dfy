/** Which sys_enter a measured sys_exit is paired with. */
module SyscallPairing {
  import opened U64
  import opened SyscallKernel
  import opened SyscallRuns

  /** The event stored a start that its thread's exit can find. */
  predicate Stored(enter: Enter)
  {
    enter.Enter? && enter.stored
  }

  /** A start was written by a sys_enter of the thread: its last one, or, if that one stored nothing, an earlier one. */
  ghost predicate GoodStart(start: Start, last: Enter)
  {
    && last.Enter?
    && start.serial <= last.serial
    && (last.stored <==> start.serial == last.serial)
    && (last.stored ==> start == Start(last.ts, last.id, last.serial))
  }

  /** The thread's measured exits all used starts from before this one. */
  ghost predicate Unconsumed(measured: seq<Sample>, t: nat, serial: nat)
  {
    forall x :: x in measured && x.thread == t ==> x.serial < serial
  }

  ghost predicate GoodThread(s: State, t: nat)
    requires Sized(s) && t < |s.threads|
  {
    var pc, last := s.pcs[t], s.enters[t];
    && (last.Enter? ==> last.serial < s.serial && (last.stored ==> 0 <= last.id < MAX_SYSCALL_NR))
    && (s.threads[t] in s.start ==>
          GoodStart(s.start[s.threads[t]], last) && Unconsumed(s.measured, t, s.start[s.threads[t]].serial))
    && (pc.Storing? ==> pc.enter == last && last.Enter? && !last.stored && 0 <= last.id < MAX_SYSCALL_NR)
    && (pc.Storing? ==> Unconsumed(s.measured, t, last.serial))
    && (pc.Found? || pc.Timed? ==> GoodStart(pc.start, last) && Unconsumed(s.measured, t, pc.start.serial))
    && Unconsumed(s.measured, t, s.serial)
  }

  /** A sample is paired when it used the start of the thread's immediately preceding sys_enter. */
  predicate Paired(x: Sample)
  {
    && x.before.Enter?
    && x.serial == x.before.serial
    && x.key.nr == x.before.id
    && x.ts == x.before.ts
    && x.latency == WrapSub(x.now, x.before.ts)
  }

  ghost predicate Exact(x: Sample)
  {
    x.before.Enter? && (Paired(x) <==> x.before.stored) && (Stored(x.before) ==> 0 <= x.before.id < MAX_SYSCALL_NR)
  }

  ghost predicate Once(xs: seq<Sample>)
  {
    forall i, j :: 0 <= i < j < |xs| && xs[i].thread == xs[j].thread ==> xs[i].serial < xs[j].serial
  }

  ghost predicate Pairing(s: State)
  {
    && Sized(s)
    && Distinct(s.threads)
    && (forall t :: 0 <= t < |s.threads| ==> GoodThread(s, t))
    && (forall x :: x in s.measured ==> Exact(x))
    && Once(s.measured)
  }

  /** What a thread's step changes of the events and starts is its own. */
  lemma EventParts(s: State, t: nat, a: Action)
    requires Sized(s) && t < |s.threads|
    ensures var s' := StepThread(s, t, a);
      s'.enters == s.enters[t := s'.enters[t]] && s'.inside == s.inside[t := s'.inside[t]] && s.serial <= s'.serial
  {
  }

  lemma StartParts(s: State, t: nat, a: Action)
    requires Sized(s) && t < |s.threads|
    ensures var s', u := StepThread(s, t, a), s.threads[t];
      s'.start == s.start || s'.start == s.start - {u} || (u in s'.start && s'.start == s.start[u := s'.start[u]])
  {
  }

  /** A step of another thread, or an eviction, leaves everything a thread depends on alone. */
  lemma OtherUntouched(s: State, a: Action, t: nat)
    requires Sized(s) && Distinct(s.threads) && t < |s.threads|
    requires a.EvictStart? || a.EvictLat? || a.t != t
    ensures var s' := Step(s, a);
            && Sized(s') && s'.threads == s.threads && s.serial <= s'.serial
            && s'.pcs[t] == s.pcs[t] && s'.enters[t] == s.enters[t] && s'.inside[t] == s.inside[t]
            && (s.threads[t] in s'.start ==>
                  s.threads[t] in s.start && s'.start[s.threads[t]] == s.start[s.threads[t]])
            && (s'.measured == s.measured || (|s'.measured| == |s.measured| + 1 && s.measured <= s'.measured
                                              && s'.measured[|s.measured|].thread != t))
  {
    StepSized(s, a);
    if !a.EvictStart? && !a.EvictLat? && a.t < |s.threads| {
      assert s.threads[a.t] != s.threads[t];
      StepFollows(s, a.t, a);
      EventParts(s, a.t, a);
      StartParts(s, a.t, a);
      MeasuredIs(s, a.t, a);
    }
  }

  lemma MeasuredIs(s: State, t: nat, a: Action)
    requires Sized(s) && t < |s.threads|
    ensures var s' := StepThread(s, t, a);
      if FateOf(s, t, a).Measured? then s'.measured == s.measured + [SampleOf(s, t)] else s'.measured == s.measured
  {
  }

  lemma UnconsumedMore(xs: seq<Sample>, xs': seq<Sample>, t: nat, serial: nat)
    requires Unconsumed(xs, t, serial)
    requires xs' == xs || (|xs'| == |xs| + 1 && xs <= xs' && (xs'[|xs|].thread != t || xs'[|xs|].serial < serial))
    ensures Unconsumed(xs', t, serial)
  {
    forall x | x in xs' && x.thread == t
      ensures x.serial < serial
    {
      assert x in xs || x == xs'[|xs|];
    }
  }

  lemma OtherThread(s: State, a: Action, t: nat)
    requires Pairing(s) && t < |s.threads|
    requires a.EvictStart? || a.EvictLat? || a.t != t
    ensures GoodThread(Step(s, a), t)
  {
    OtherUntouched(s, a, t);
    var s' := Step(s, a);
    assert GoodThread(s, t);
    forall serial: nat | Unconsumed(s.measured, t, serial)
      ensures Unconsumed(s'.measured, t, serial)
    {
      UnconsumedMore(s.measured, s'.measured, t, serial);
    }
  }

  /** A thread that measures nothing in a step stays good. */
  lemma OwnThreadQuiet(s: State, t: nat, a: Action)
    requires Sized(s) && t < |s.threads| && GoodThread(s, t) && !FateOf(s, t, a).Measured?
    ensures Sized(StepThread(s, t, a)) && t < |StepThread(s, t, a).threads| && GoodThread(StepThread(s, t, a), t)
  {
    MeasuredIs(s, t, a);
  }

  lemma OwnThreadMeasures(s: State, t: nat, a: Action)
    requires Sized(s) && t < |s.threads| && GoodThread(s, t) && FateOf(s, t, a).Measured?
    ensures Sized(StepThread(s, t, a)) && t < |StepThread(s, t, a).threads| && GoodThread(StepThread(s, t, a), t)
  {
    MeasuredIs(s, t, a);
    UnconsumedMore(s.measured, StepThread(s, t, a).measured, t, s.serial);
  }

  lemma OwnThread(s: State, a: Action)
    requires Pairing(s) && !a.EvictStart? && !a.EvictLat? && a.t < |s.threads|
    ensures GoodThread(Step(s, a), a.t)
  {
    assert GoodThread(s, a.t);
    if FateOf(s, a.t, a).Measured? {
      OwnThreadMeasures(s, a.t, a);
    } else {
      OwnThreadQuiet(s, a.t, a);
    }
  }

  lemma MeasuredStaysPaired(s: State, a: Action)
    requires Pairing(s)
    ensures (forall x :: x in Step(s, a).measured ==> Exact(x)) && Once(Step(s, a).measured)
  {
    if !a.EvictStart? && !a.EvictLat? && a.t < |s.threads| {
      MeasuredIs(s, a.t, a);
      assert GoodThread(s, a.t);
      if FateOf(s, a.t, a).Measured? {
        var x := SampleOf(s, a.t);
        assert Exact(x) && Unconsumed(s.measured, a.t, x.serial);
        assert forall i :: 0 <= i < |s.measured| ==> s.measured[i] in s.measured;
      }
    }
  }

  lemma PairingStep(s: State, a: Action)
    requires Pairing(s)
    ensures Pairing(Step(s, a))
  {
    StepSized(s, a);
    MeasuredStaysPaired(s, a);
    forall t | 0 <= t < |s.threads|
      ensures GoodThread(Step(s, a), t)
    {
      if a.EvictStart? || a.EvictLat? || a.t != t {
        OtherThread(s, a, t);
      } else {
        OwnThread(s, a);
      }
    }
  }

  lemma {:induction false} PairingRun(threads: seq<u64>, actions: seq<Action>)
    requires Distinct(threads)
    ensures Pairing(Run(Init(threads), actions))
  {
    if actions != [] {
      PairingRun(threads, actions[..|actions| - 1]);
      PairingStep(Run(Init(threads), actions[..|actions| - 1]), actions[|actions| - 1]);
    }
  }

  /**
   In every run, in whatever order the events come and whatever is evicted: a measured exit
   carries the number and start time of its thread's immediately preceding sys_enter if and
   only if that event stored its start, which takes a syscall number in range.
   */
  lemma {:induction false} PairedExactlyWhenStored(threads: seq<u64>, actions: seq<Action>, i: nat)
    requires Distinct(threads)
    requires i < |Run(Init(threads), actions).measured|
    ensures var x := Run(Init(threads), actions).measured[i];
            && (Paired(x) <==> Stored(x.before))
            && (Stored(x.before) ==> 0 <= x.before.id <= 511)
  {
    PairingRun(threads, actions);
    var xs := Run(Init(threads), actions).measured;
    assert xs[i] in xs;
  }

  /** No sys_enter is measured twice: the later of two measured exits of a thread used a later sys_enter. */
  lemma {:induction false} NoEnterTwice(threads: seq<u64>, actions: seq<Action>)
    requires Distinct(threads)
    ensures var xs := Run(Init(threads), actions).measured;
            forall i, j :: 0 <= i < j < |xs| && xs[i].thread == xs[j].thread ==> xs[i].serial < xs[j].serial
  {
    PairingRun(threads, actions);
  }

  // ----- threads that alternate

  /** No thread enters a syscall while its previous one has not reached its exit program. */
  ghost predicate Alternating(threads: seq<u64>, actions: seq<Action>)
  {
    actions == [] ||
    var front, a := actions[..|actions| - 1], actions[|actions| - 1];
    var s := Run(Init(threads), front);
    Alternating(threads, front) && !(a.EnterFire? && a.t < |threads| && s.pcs[a.t].Idle? && s.inside[a.t])
  }

  ghost predicate Fresh(s: State, t: nat)
    requires Sized(s) && t < |s.threads|
  {
    var pc := s.pcs[t];
    && (s.threads[t] in s.start ==> Stored(s.enters[t]) && (s.inside[t] || pc.Found? || pc.Timed?))
    && (pc.Found? || pc.Timed? ==> Stored(s.enters[t]) && !s.inside[t])
    && (pc.Storing? ==> s.threads[t] !in s.start && s.inside[t])
  }

  ghost predicate AllFresh(s: State)
  {
    && Sized(s)
    && (forall t :: 0 <= t < |s.threads| ==> Fresh(s, t))
    && (forall x :: x in s.measured ==> Stored(x.before))
  }

  lemma FreshOwn(s: State, t: nat, a: Action)
    requires Sized(s) && t < |s.threads| && GoodThread(s, t) && Fresh(s, t)
    requires !(a.EnterFire? && s.pcs[t].Idle? && s.inside[t])
    ensures Sized(StepThread(s, t, a)) && t < |StepThread(s, t, a).threads| && Fresh(StepThread(s, t, a), t)
  {
  }

  lemma FreshStep(s: State, a: Action)
    requires Pairing(s) && AllFresh(s)
    requires !(a.EnterFire? && a.t < |s.threads| && s.pcs[a.t].Idle? && s.inside[a.t])
    ensures AllFresh(Step(s, a))
  {
    StepSized(s, a);
    forall t | 0 <= t < |s.threads|
      ensures Fresh(Step(s, a), t)
    {
      assert Fresh(s, t) && GoodThread(s, t);
      if a.EvictStart? || a.EvictLat? || a.t != t {
        OtherUntouched(s, a, t);
      } else {
        FreshOwn(s, t, a);
      }
    }
    if !a.EvictStart? && !a.EvictLat? && a.t < |s.threads| {
      MeasuredIs(s, a.t, a);
      assert Fresh(s, a.t);
    }
  }

  /**
   If every thread's own events alternate, possibly beginning with an unmatched exit, every
   measured exit is paired with the sys_enter just before it, however starts are evicted.
   */
  lemma {:induction false} AlternatingIsPaired(threads: seq<u64>, actions: seq<Action>)
    requires Distinct(threads) && Alternating(threads, actions)
    ensures AllFresh(Run(Init(threads), actions))
    ensures forall x :: x in Run(Init(threads), actions).measured ==> Paired(x) && 0 <= x.before.id <= 511
  {
    PairingRun(threads, actions);
    if actions != [] {
      AlternatingIsPaired(threads, actions[..|actions| - 1]);
      PairingRun(threads, actions[..|actions| - 1]);
      FreshStep(Run(Init(threads), actions[..|actions| - 1]), actions[|actions| - 1]);
    }
  }

  /**
   Without alternation a stale start can be used: a thread's exit is missed, its next
   syscall has a number out of range and stores nothing, and that one's exit is then
   measured from the first syscall's start.
   */
  lemma MissedExitMispairs(tid: u64)
    ensures var s := Run(Init([tid]), [EnterFire(0, 1, 10), EnterStore(0, true), EnterFire(0, 512, 20),
                                       ExitLookup(0), ExitClock(0, 30), ExitDelete(0)]);
            |s.measured| == 1 && s.measured[0].latency == 20 && Unpaired(s.measured[0])
  {
    var s1 := MissedExit(tid);
    var s2 := NextSyscall(tid, s1);
    var actions := [EnterFire(0, 1, 10), EnterStore(0, true), EnterFire(0, 512, 20)];
    RunThree(Init([tid]), [], actions[0], actions[1], actions[2]);
    assert [] + actions == actions;
    RunThree(Init([tid]), actions, ExitLookup(0), ExitClock(0, 30), ExitDelete(0));
    assert actions + [ExitLookup(0), ExitClock(0, 30), ExitDelete(0)]
        == [EnterFire(0, 1, 10), EnterStore(0, true), EnterFire(0, 512, 20),
            ExitLookup(0), ExitClock(0, 30), ExitDelete(0)];
  }

  predicate Unpaired(x: Sample)
  {
    !Paired(x) && x.before == Enter(512, 20, 1, false) && x.key.nr == 1 && x.ts == 10
  }

  function Three(s: State, a: Action, b: Action, c: Action): (r: State)
    requires Sized(s)
    ensures Sized(r)
  {
    StepSized(s, a);
    StepSized(Step(s, a), b);
    StepSized(Step(Step(s, a), b), c);
    Step(Step(Step(s, a), b), c)
  }

  lemma MissedExit(tid: u64) returns (s: State)
    ensures s == Three(Init([tid]), EnterFire(0, 1, 10), EnterStore(0, true), EnterFire(0, 512, 20))
    ensures Sized(s) && s.threads == [tid] && s.pcs == [Idle] && s.start == map[tid := Start(10, 1, 0)]
    ensures s.enters == [Enter(512, 20, 1, false)] && s.measured == []
  {
    s := Three(Init([tid]), EnterFire(0, 1, 10), EnterStore(0, true), EnterFire(0, 512, 20));
  }

  lemma NextSyscall(tid: u64, s: State) returns (s': State)
    requires Sized(s) && s.threads == [tid] && s.pcs == [Idle] && s.start == map[tid := Start(10, 1, 0)]
    requires s.enters == [Enter(512, 20, 1, false)] && s.measured == []
    ensures s' == Three(s, ExitLookup(0), ExitClock(0, 30), ExitDelete(0))
    ensures |s'.measured| == 1 && s'.measured[0].latency == 20 && Unpaired(s'.measured[0])
  {
    s' := Three(s, ExitLookup(0), ExitClock(0, 30), ExitDelete(0));
  }

  lemma RunThree(s: State, actions: seq<Action>, a: Action, b: Action, c: Action)
    requires Sized(s)
    ensures Run(s, actions + [a, b, c]) == Three(Run(s, actions), a, b, c)
  {
    RunSnoc(s, actions, a);
    RunSnoc(s, actions + [a], b);
    RunSnoc(s, actions + [a] + [b], c);
    assert actions + [a] + [b] + [c] == actions + [a, b, c];
  }

  lemma RunSnoc(s: State, actions: seq<Action>, a: Action)
    requires Sized(s)
    ensures Run(s, actions + [a]) == Step(Run(s, actions), a)
  {
    assert (actions + [a])[..|actions|] == actions;
  }
}
