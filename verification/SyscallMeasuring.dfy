/** Which exits are measured: exactly those whose start is found and whose latency passes as positive in 64 bits. */
module SyscallMeasuring {
  import opened U64
  import opened SyscallKernel
  import opened SyscallRuns
  import opened SyscallPairing

  /**
   An exit that has found a start and read the clock measures one sample, with the difference
   modulo 2^64 as its latency, exactly if that lies in 1 to 2^63 - 1, and is then on its way to count it.
   */
  lemma ExitMeasures(s: State, t: nat)
    requires Sized(s) && t < |s.threads| && s.pcs[t].Timed?
    ensures var s', start, now := StepExitDelete(s, t), s.pcs[t].start, s.pcs[t].now;
            var latency := if now >= start.ts then now - start.ts else now + 0x1_0000_0000_0000_0000 - start.ts;
            && s'.start == s.start - {s.threads[t]}
            && (1 <= latency <= 0x7FFF_FFFF_FFFF_FFFF ==>
                  exists x :: IsSampleOf(x, s, t, latency)
                              && s'.measured == s.measured + [x] && s'.pcs[t] == LookingUp(x))
            && (!(1 <= latency <= 0x7FFF_FFFF_FFFF_FFFF) ==> s'.measured == s.measured && s'.pcs[t] == Idle)
  {
    var x := SampleOf(s, t);
    if PassesSignTest(x.latency) {
      assert IsSampleOf(x, s, t, x.latency);
    }
  }

  /** The sample has the thread's process, the start's number and this latency. */
  predicate IsSampleOf(x: Sample, s: State, t: nat, latency: nat)
    requires Sized(s) && t < |s.threads| && s.pcs[t].Timed?
  {
    && x.key == Key(s.threads[t] / 0x1_0000_0000, s.pcs[t].start.nr)
    && x.latency == latency && x.thread == t && x.serial == s.pcs[t].start.serial
  }

  // ----- over runs

  /** Nothing of the thread itself happens: other threads move, and maps evict. */
  predicate Elsewhere(actions: seq<Action>, t: nat)
  {
    forall a :: a in actions ==> a.EvictStart? || a.EvictLat? || a.t != t
  }

  lemma {:induction false} RunConcat(s: State, a: seq<Action>, b: seq<Action>)
    requires Sized(s)
    ensures Run(s, a + b) == Run(Run(s, a), b)
  {
    if b == [] {
      assert a + b == a;
    } else {
      RunConcat(s, a, b[..|b| - 1]);
      assert (a + b)[..|a + b| - 1] == a + b[..|b| - 1];
    }
  }

  /** The thread is where it was, and nothing measured is forgotten. */
  ghost predicate Keeps(s: State, s': State, t: nat)
    requires Sized(s) && Sized(s') && s.threads == s'.threads && t < |s.threads|
  {
    s'.pcs[t] == s.pcs[t] && (forall x :: x in s.measured ==> x in s'.measured)
  }

  lemma ElsewhereStep(s: State, a: Action, t: nat)
    requires Sized(s) && Distinct(s.threads) && t < |s.threads| && Elsewhere([a], t)
    ensures Sized(Step(s, a)) && Step(s, a).threads == s.threads && Keeps(s, Step(s, a), t)
    ensures a != EvictStart(s.threads[t]) && s.threads[t] in s.start ==>
      s.threads[t] in Step(s, a).start && Step(s, a).start[s.threads[t]] == s.start[s.threads[t]]
  {
    assert a in [a];
    StepSized(s, a);
    OtherUntouched(s, a, t);
    if !a.EvictStart? && !a.EvictLat? && a.t < |s.threads| {
      assert s.threads[a.t] != s.threads[t];
      StartParts(s, a.t, a);
    }
  }

  lemma {:induction false} ElsewhereRun(s: State, actions: seq<Action>, t: nat)
    requires Sized(s) && Distinct(s.threads) && t < |s.threads| && Elsewhere(actions, t)
    ensures Keeps(s, Run(s, actions), t)
    ensures EvictStart(s.threads[t]) !in actions && s.threads[t] in s.start ==>
      s.threads[t] in Run(s, actions).start && Run(s, actions).start[s.threads[t]] == s.start[s.threads[t]]
  {
    if actions != [] {
      var front, a := actions[..|actions| - 1], actions[|actions| - 1];
      assert a in actions;
      ElsewhereRun(s, front, t);
      ElsewhereStep(Run(s, front), a, t);
    }
  }

  /** A thread that moves, and then waits while others move. */
  function Then(s: State, a: Action, others: seq<Action>): (r: State)
    requires Sized(s)
    ensures Sized(r) && r.threads == s.threads
  {
    StepSized(s, a);
    Run(Step(s, a), others)
  }

  /** The thread has stored the start of its syscall, and has not got any further. */
  ghost predicate Entered(s: State, t: nat, id: int, ts: u64)
    requires Sized(s) && t < |s.threads|
  {
    && s.pcs[t] == Idle && s.threads[t] in s.start
    && s.start[s.threads[t]].ts == ts && s.start[s.threads[t]].nr == id
  }

  lemma EnterStores(s: State, t: nat, id: int, ts: u64, o1: seq<Action>, o2: seq<Action>)
    requires Sized(s) && Distinct(s.threads) && t < |s.threads| && s.pcs[t].Idle? && 0 <= id < 512
    requires Elsewhere(o1, t) && Elsewhere(o2, t) && EvictStart(s.threads[t]) !in o2
    ensures Entered(Then(Then(s, EnterFire(t, id, ts), o1), EnterStore(t, true), o2), t, id, ts)
  {
    var s1 := Step(s, EnterFire(t, id, ts));
    StepSized(s, EnterFire(t, id, ts));
    ElsewhereRun(s1, o1, t);
    var s2 := Run(s1, o1);
    StepSized(s2, EnterStore(t, true));
    ElsewhereRun(Step(s2, EnterStore(t, true)), o2, t);
  }

  /** The exit has read the clock and found the start. */
  ghost predicate Timing(s: State, t: nat, id: int, ts: u64, now: u64)
    requires Sized(s) && t < |s.threads|
  {
    s.pcs[t].Timed? && s.pcs[t].start.ts == ts && s.pcs[t].start.nr == id && s.pcs[t].now == now
  }

  lemma ExitFinds(s: State, t: nat, id: int, ts: u64, now: u64, o3: seq<Action>, o4: seq<Action>)
    requires Sized(s) && Distinct(s.threads) && t < |s.threads| && Entered(s, t, id, ts)
    requires Elsewhere(o3, t) && Elsewhere(o4, t)
    ensures Timing(Then(Then(s, ExitLookup(t), o3), ExitClock(t, now), o4), t, id, ts, now)
  {
    var s1 := Step(s, ExitLookup(t));
    StepSized(s, ExitLookup(t));
    ElsewhereRun(s1, o3, t);
    var s2 := Run(s1, o3);
    StepSized(s2, ExitClock(t, now));
    ElsewhereRun(Step(s2, ExitClock(t, now)), o4, t);
  }

  /** One call of a thread, with whatever others do in between and after. */
  function Call(t: nat, id: int, ts: u64, now: u64, o: seq<seq<Action>>): seq<Action>
    requires |o| == 5
  {
    [EnterFire(t, id, ts)] + o[0] + ([EnterStore(t, true)] + o[1]) + ([ExitLookup(t)] + o[2])
    + ([ExitClock(t, now)] + o[3]) + ([ExitDelete(t)] + o[4])
  }

  lemma RunThen(s: State, a: Action, others: seq<Action>)
    requires Sized(s)
    ensures Run(s, [a] + others) == Then(s, a, others)
  {
    RunConcat(s, [a], others);
    RunSnoc(s, [], a);
    assert [] + [a] == [a];
  }

  lemma CallRuns(s: State, t: nat, id: int, ts: u64, now: u64, o: seq<seq<Action>>)
    requires Sized(s) && |o| == 5
    ensures Run(s, Call(t, id, ts, now, o)) ==
      Then(Then(Then(Then(Then(s, EnterFire(t, id, ts), o[0]), EnterStore(t, true), o[1]), ExitLookup(t), o[2]),
                ExitClock(t, now), o[3]), ExitDelete(t), o[4])
  {
    var c1 := [EnterFire(t, id, ts)] + o[0];
    var c2 := c1 + ([EnterStore(t, true)] + o[1]);
    var c3 := c2 + ([ExitLookup(t)] + o[2]);
    var c4 := c3 + ([ExitClock(t, now)] + o[3]);
    RunThen(s, EnterFire(t, id, ts), o[0]);
    RunConcat(s, c1, [EnterStore(t, true)] + o[1]);
    RunThen(Run(s, c1), EnterStore(t, true), o[1]);
    RunConcat(s, c2, [ExitLookup(t)] + o[2]);
    RunThen(Run(s, c2), ExitLookup(t), o[2]);
    RunConcat(s, c3, [ExitClock(t, now)] + o[3]);
    RunThen(Run(s, c3), ExitClock(t, now), o[3]);
    RunConcat(s, c4, [ExitDelete(t)] + o[4]);
    RunThen(Run(s, c4), ExitDelete(t), o[4]);
  }

  /**
   Every syscall is measured: when a thread enters a syscall with a number from 0 to 511, stores
   the start, and leaves it at a later time, whatever other threads and the maps do meanwhile
   except evicting that start before the exit looks it up, then a sample of its process and number
   with the time from one to the other is among the measured ones.
   */
  lemma {:induction false} SyscallIsMeasured(threads: seq<u64>, before: seq<Action>, t: nat, id: int, ts: u64, now: u64,
                                             o: seq<seq<Action>>)
    requires Distinct(threads) && t < |threads| && Run(Init(threads), before).pcs[t].Idle?
    requires 0 <= id <= 511 && ts < now && now - ts <= 0x7FFF_FFFF_FFFF_FFFF
    requires |o| == 5 && (forall i :: 0 <= i < 5 ==> Elsewhere(o[i], t)) && EvictStart(threads[t]) !in o[1]
    ensures exists x :: x in Run(Init(threads), before + Call(t, id, ts, now, o)).measured
                        && (x.thread == t && x.key == Key(threads[t] / 0x1_0000_0000, id) && x.latency == now - ts)
  {
    var s := Run(Init(threads), before);
    RunConcat(Init(threads), before, Call(t, id, ts, now, o));
    CallRuns(s, t, id, ts, now, o);
    EnterStores(s, t, id, ts, o[0], o[1]);
    var s2 := Then(Then(s, EnterFire(t, id, ts), o[0]), EnterStore(t, true), o[1]);
    ExitFinds(s2, t, id, ts, now, o[2], o[3]);
    var s4 := Then(Then(s2, ExitLookup(t), o[2]), ExitClock(t, now), o[3]);
    var x := DeleteMeasures(s4, t, id, ts, now, o[4]);
  }

  lemma DeleteMeasures(s: State, t: nat, id: int, ts: u64, now: u64, o5: seq<Action>) returns (x: Sample)
    requires Sized(s) && Distinct(s.threads) && t < |s.threads| && Timing(s, t, id, ts, now)
    requires ts < now && now - ts <= 0x7FFF_FFFF_FFFF_FFFF && Elsewhere(o5, t)
    ensures x in Then(s, ExitDelete(t), o5).measured && x.thread == t
    ensures x.key == Key(s.threads[t] / 0x1_0000_0000, id) && x.latency == now - ts
  {
    ExitMeasures(s, t);
    var s' := StepExitDelete(s, t);
    x :| IsSampleOf(x, s, t, now - ts) && s'.measured == s.measured + [x];
    assert s' == Step(s, ExitDelete(t));
    StepSized(s, ExitDelete(t));
    ElsewhereRun(s', o5, t);
    assert x in s'.measured;
  }

  /** The counting of a sample, run to its end by a thread that nothing interferes with. */
  function RunCount(s: State, t: nat): (r: State)
    requires Sized(s)
    ensures Sized(r)
  {
    StepSized(s, LatLookup(t));
    var s1 := Step(s, LatLookup(t));
    StepSized(s1, LatSeed(t, true, true));
    var s2 := Step(s1, LatSeed(t, true, true));
    StepSized(s2, LatRelookup(t));
    var s3 := Step(s2, LatRelookup(t));
    StepSized(s3, LatAdd(t));
    Step(s3, LatAdd(t))
  }

  /** If the kernel finds memory, the sample is then counted, in the entry that its key has. */
  lemma SampleIsCounted(s: State, t: nat)
    requires Entries(s) && t < |s.threads| && s.pcs[t].LookingUp?
    ensures var s', x := RunCount(s, t), s.pcs[t].sample;
            && x.key in s'.lat && s'.pcs == s.pcs[t := Idle] && s'.dropped == s.dropped
            && s'.recorded == s.recorded + [Record(x, s'.lat[x.key])]
  {
  }
}
