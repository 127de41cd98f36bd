/** The aggregator's code and the polling steps of the runs do the same. */
module CpuRefinement {
  import opened Wrappers
  import opened CpuKernel
  import opened CpuAggregator
  import opened CpuRuns

  /** Samples may go on while the poll deletes; each delete succeeds or fails as the world has it. */
  predicate Reaping(moves: seq<Move>, world: World)
  {
    forall i :: 0 <= i < |moves| ==>
      moves[i].Kernel? || (moves[i].Reap? && (moves[i].deleted <==> moves[i].pid !in world.undeletable))
  }

  ghost function Continue(s: System, moves: seq<Move>): (r: System)
    requires Entries(s.kernel)
    ensures Entries(r.kernel)
  {
    if moves == [] then s
    else
      var before := Continue(s, moves[..|moves| - 1]);
      StepKeepsEntries(before, moves[|moves| - 1]);
      StepSystem(before, moves[|moves| - 1])
  }

  /** What is settled of the dead pids is gone from the snapshot and the cache, but for failed deletes. */
  ghost predicate Settled(s: System, r: System, world: World)
    requires s.user.phase.Reaping?
  {
    && r.user.phase.Reaping?
    && r.user.phase.now == s.user.phase.now
    && r.user.prev == s.user.prev
    && r.user.phase.todo <= s.user.phase.todo
    && var gone := s.user.phase.todo - r.user.phase.todo - world.undeletable;
       r.user.phase.current == s.user.phase.current - gone && r.user.cache == s.user.cache - gone
  }

  lemma SettledNext(s: System, r: System, m: Move, world: World)
    requires Entries(r.kernel) && s.user.phase.Reaping? && Settled(s, r, world) && Reaping([m], world)
    ensures Settled(s, StepSystem(r, m), world)
  {
    assert [m][0] == m;
    if m.Reap? && m.pid in r.user.phase.todo {
      var r', gone := StepSystem(r, m), s.user.phase.todo - r.user.phase.todo - world.undeletable;
      var gone' := s.user.phase.todo - r'.user.phase.todo - world.undeletable;
      assert gone' == if m.deleted then gone + {m.pid} else gone;
    }
  }

  lemma {:induction false} SettledRun(s: System, moves: seq<Move>, world: World)
    requires Entries(s.kernel) && s.user.phase.Reaping? && Reaping(moves, world)
    ensures Settled(s, Continue(s, moves), world)
  {
    if moves != [] {
      SettledRun(s, moves[..|moves| - 1], world);
      SettledNext(s, Continue(s, moves[..|moves| - 1]), moves[|moves| - 1], world);
    }
  }

  /** The poll's deletes, as moves say, are complete. */
  ghost predicate AllReaped(s: System, world: World, moves: seq<Move>)
    requires Entries(s.kernel)
  {
    var built := StepSystem(s, Build(world.names, world.alive));
    && Reaping(moves, world)
    && (Continue(built, moves).user.phase.Reaping? ==> Continue(built, moves).user.phase.todo == {})
  }

  /** The state when a poll that has read the map has built its records, reaped as moves say, and committed. */
  ghost function PollEnd(s: System, world: World, moves: seq<Move>): System
    requires Entries(s.kernel) && Complete(s)
  {
    StepSystem(Continue(StepSystem(s, Build(world.names, world.alive)), moves), Commit)
  }

  /** In whatever order the dead are deleted, the poll ends with the snapshot less the reaped. */
  lemma {:induction false} PollEnds(s: System, world: World, moves: seq<Move>)
    requires Entries(s.kernel) && Complete(s) && AllReaped(s, world, moves)
    ensures var u, seen := PollEnd(s, world, moves).user, s.user.phase.seen;
      && u.phase.Resting? && u.prevTime == Some(s.user.phase.now)
      && u.prev == seen - Reaped(seen.Keys, world)
      && u.cache == CacheAfter(s.user.cache, world.names, seen.Keys) - Reaped(seen.Keys, world)
  {
    var built, seen := StepSystem(s, Build(world.names, world.alive)), s.user.phase.seen;
    SettledRun(built, moves, world);
    assert (seen.Keys - world.alive) - {} - world.undeletable == Reaped(seen.Keys, world);
  }

  lemma ValuesWithout(seen: map<nat, Read>, gone: set<nat>)
    ensures Values(seen - gone) == Values(seen) - gone && Values(seen).Keys == seen.Keys
  {
  }

  /** The list has one record for each pid read, with the delta that the run counts as emitted, and the name. */
  ghost predicate Reports(records: seq<Record>, s: System, names: map<nat, string>)
    requires s.user.phase.Reading?
  {
    && |records| == |s.user.phase.seen|
    && (forall r :: r in records ==>
          && r.pid in s.user.phase.seen
          && r.delta == NewDelta(s, r.pid)
          && r.total == s.user.phase.seen[r.pid].value
          && r.comm == CommOf(s.user.cache, names, r.pid))
    && (forall pid :: pid in s.user.phase.seen ==> exists r :: r in records && r.pid == pid)
  }

  lemma ListsReports(records: seq<Record>, s: System, names: map<nat, string>)
    requires s.user.phase.Reading?
    requires Lists(records,
                   RecordsOf(Values(s.user.phase.seen), Values(s.user.prev), Elapsed(s), s.user.cache, names))
    ensures Reports(records, s, names)
  {
    var seen := s.user.phase.seen;
    var all := RecordsOf(Values(seen), Values(s.user.prev), Elapsed(s), s.user.cache, names);
    assert all.Keys == seen.Keys;
    assert |all| == |all.Keys| && |seen| == |seen.Keys|;
    forall pid | pid in seen
      ensures exists r :: r in records && r.pid == pid
    {
      assert all[pid] in records;
    }
  }

  /**
   Poll, started in the state of the aggregator that a run has reached and given the values the
   run has read, ends in the state in which the run's poll ends, and its records report the
   deltas that the run counts as emitted, and the names that CpuNames is about.
   */
  method PollFollowsTheRun(agg: Aggregator, s: System, world: World, ghost moves: seq<Move>,
          snapshot: Snapshot, now: int)
    returns (records: seq<Record>)
    requires Entries(s.kernel) && Complete(s) && AllReaped(s, world, moves)
    requires agg.prev == Values(s.user.prev) && agg.prevTime == s.user.prevTime && agg.proc.cache == s.user.cache
    requires snapshot == Snapshot(Values(s.user.phase.seen)) && now == s.user.phase.now
    modifies agg, agg.proc
    ensures var u := PollEnd(s, world, moves).user;
      agg.prev == Values(u.prev) && agg.prevTime == u.prevTime && agg.proc.cache == u.cache
    ensures Reports(records, s, world.names)
  {
    PollEnds(s, world, moves);
    ValuesWithout(s.user.phase.seen, Reaped(s.user.phase.seen.Keys, world));
    var list := agg.Poll(now, snapshot, world);
    records := list.value;
    ListsReports(records, s, world.names);
  }
}
