/** From the tracepoint events to the reports: the latencies that reports speak about are those of system calls. */
module SyscallLatencies {
  import opened Histogram
  import opened U64
  import opened Sums
  import opened SyscallKernel
  import opened SyscallRuns
  import opened SyscallPolling
  import opened SyscallReports
  import Measuring = SyscallMeasuring
  import Pairing = SyscallPairing
  import Accuracy = SyscallAccuracy

  /** What the threads and the maps do in a run of the whole system. */
  function KernelActions(moves: seq<Move>): seq<Action>
  {
    if moves == [] then []
    else
      var before, last := KernelActions(moves[..|moves| - 1]), moves[|moves| - 1];
      if last.Kernel? then before + [last.a] else before
  }

  /** Polling does not influence the tracepoint programs. */
  lemma {:induction false} KernelOf(threads: seq<u64>, round: Rounding, moves: seq<Move>)
    ensures After(threads, round, moves).kernel == Run(Init(threads), KernelActions(moves))
  {
    if moves != [] {
      var front, last := moves[..|moves| - 1], moves[|moves| - 1];
      KernelOf(threads, round, front);
      if last.Kernel? {
        Pairing.RunSnoc(Init(threads), KernelActions(front), last.a);
      } else {
        KernelUntouched(After(threads, round, front), last);
      }
    }
  }

  lemma KernelUntouched(s: System, m: Move)
    requires Sized(s.kernel) && !m.Kernel?
    ensures StepSystem(s, m).kernel == s.kernel
  {
  }

  /** A syscall whose start is not evicted is measured, whatever else happens in the system. */
  lemma {:induction false} SyscallIsMeasured(threads: seq<u64>, round: Rounding, moves: seq<Move>, before: seq<Action>,
                                             t: nat, id: int, ts: u64, now: u64, o: seq<seq<Action>>)
    requires Distinct(threads) && t < |threads| && Run(Init(threads), before).pcs[t].Idle?
    requires 0 <= id <= 511 && ts < now && now - ts <= 0x7FFF_FFFF_FFFF_FFFF
    requires |o| == 5 && (forall i :: 0 <= i < 5 ==> Measuring.Elsewhere(o[i], t)) && EvictStart(threads[t]) !in o[1]
    requires KernelActions(moves) == before + Measuring.Call(t, id, ts, now, o)
    ensures exists x :: x in After(threads, round, moves).kernel.measured
                        && (x.key == Key(threads[t] / 0x1_0000_0000, id) && x.latency == now - ts)
  {
    KernelOf(threads, round, moves);
    Measuring.SyscallIsMeasured(threads, before, t, id, ts, now, o);
  }

  function Only(x: Sample): Sample -> nat
  {
    (y: Sample) => if y == x then 1 else 0
  }

  /** What was added to a bucket was measured before. */
  lemma {:induction false} RecordedWasMeasured(threads: seq<u64>, actions: seq<Action>, r: Record)
    requires r in Run(Init(threads), actions).recorded
    ensures r.sample in Run(Init(threads), actions).measured
  {
    var s := Run(Init(threads), actions);
    SamplesConserved(threads, actions, Only(r.sample));
    var i :| 0 <= i < |s.recorded| && s.recorded[i] == r;
    SumAtLeast(s.recorded, i, Recorded(Only(r.sample)));
    if r.sample !in s.measured {
      SumZero(s.measured, Only(r.sample));
    }
  }

  /** Some exit of the key took this long, from the sys_enter just before it in its own thread. */
  ghost predicate TrueLatency(k: State, key: Key, latency: nat)
  {
    exists r :: r in k.recorded && IsLatency(r.sample, key, latency)
  }

  predicate IsLatency(x: Sample, key: Key, latency: nat)
  {
    && x.key == key && Pairing.Paired(x)
    && x.before.id == key.nr && latency == WrapSub(x.now, x.before.ts)
  }

  /**
   If every thread's own events alternate, the latencies of which a report gives the count, the
   percentiles and the bounds are each the time from a sys_enter of the key's syscall to the
   exit that followed it in the same thread, whatever was evicted meanwhile.
   */
  lemma {:induction false} ReportsAreOfSyscalls(threads: seq<u64>, round: Rounding, moves: seq<Move>, key: Key, x: nat)
    requires Pairing.Alternating(threads, KernelActions(moves)) && Distinct(threads)
    requires var s := After(threads, round, moves);
             s.user.scan.Scanning? && key in s.user.scan.seen && x in Accuracy.Subject(s, key)
    ensures TrueLatency(After(threads, round, moves).kernel, key, x)
  {
    var s, actions := After(threads, round, moves), KernelActions(moves);
    KernelOf(threads, round, moves);
    var r := SubjectRecord(s, key, x);
    RecordedWasMeasured(threads, actions, r);
    Pairing.AlternatingIsPaired(threads, actions);
    assert IsLatency(r.sample, key, x);
  }

  lemma SubjectRecord(s: System, key: Key, x: nat) returns (r: Record)
    requires s.user.scan.Scanning? && key in s.user.scan.seen && x in Accuracy.Subject(s, key)
    ensures r in s.kernel.recorded && r.sample.key == key && r.sample.latency == x
  {
    var seen := s.user.scan.seen[key];
    if Accuracy.Fresh(s, key) {
      r := RecordFrom(s.kernel.recorded, Base(s.user, key), seen.at, key, x);
    } else {
      r := RecordFrom(s.kernel.recorded, 0, seen.at, key, x);
    }
  }

  lemma RecordFrom(log: seq<Record>, lo: nat, hi: nat, key: Key, x: nat) returns (r: Record)
    requires x in Accuracy.LatenciesOf(Slice(log, lo, hi), key)
    ensures r in log && r.sample.key == key && r.sample.latency == x
  {
    Accuracy.LatenciesFrom(Slice(log, lo, hi), key, x);
    r :| r in Slice(log, lo, hi) && r.sample.key == key && r.sample.latency == x;
  }

  /**
   And none is missing: if the key is not evicted and seeding finds memory, every measured exit
   is recorded or about to be.
   */
  lemma {:induction false} EveryExitIsRecorded(threads: seq<u64>, round: Rounding, moves: seq<Move>, key: Key, i: nat)
    requires Kernel(EvictLat(key)) !in moves
    requires forall m :: m in moves && m.Kernel? ==> SeedingSucceeds(m.a)
    ensures var k, w := After(threads, round, moves).kernel, OfKeyIn(key, i);
            Sum(k.measured, w) == Sum(k.recorded, Recorded(w)) + Sum(k.pcs, InFlight(w))
  {
    var actions := KernelActions(moves);
    KernelOf(threads, round, moves);
    forall a | a in actions
      ensures Kernel(a) in moves
    {
      ActionIsMove(moves, a);
    }
    KeptRun(threads, actions, key);
    SamplesConserved(threads, actions, OfKeyIn(key, i));
    SumZero(Run(Init(threads), actions).dropped, OfKeyIn(key, i));
  }

  lemma {:induction false} ActionIsMove(moves: seq<Move>, a: Action)
    requires a in KernelActions(moves)
    ensures Kernel(a) in moves
  {
    var front, last := moves[..|moves| - 1], moves[|moves| - 1];
    if !last.Kernel? || last.a != a {
      ActionIsMove(front, a);
    }
  }
}
