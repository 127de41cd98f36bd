/** The name a process is shown under, over every run. */
module CpuNames {
  import opened Wrappers
  import opened CpuKernel
  import opened CpuAggregator
  import opened CpuRuns

  /** The name that was last read of a process that has not been reaped since. */
  ghost function LastName(ncpu: nat, cpus: seq<nat>, moves: seq<Move>, pid: nat): Option<string>
    requires forall x :: 0 <= x < |cpus| ==> cpus[x] < ncpu
  {
    if moves == [] then None
    else
      var front := moves[..|moves| - 1];
      NameAfter(After(ncpu, cpus, front), moves[|moves| - 1], pid, LastName(ncpu, cpus, front, pid))
  }

  /** A poll reads the names of the processes in its snapshot, as far as they can be read. */
  function NameAfter(s: System, m: Move, pid: nat, before: Option<string>): Option<string>
  {
    if m.Build? && Complete(s) && pid in s.user.phase.seen && pid in m.names then Some(m.names[pid])
    else if m == Reap(pid, true) && s.user.phase.Reaping? && pid in s.user.phase.todo then None
    else before
  }

  /** The cache has this name, or a number for an empty one. */
  ghost predicate Caches(cache: map<nat, Comm>, pid: nat, name: Option<string>)
  {
    && (pid in cache <==> name.Some?)
    && (pid in cache ==> cache[pid] == if name.value == "" then Numbered(pid) else Named(name.value))
  }

  lemma CachesBuild(s: System, names: map<nat, string>, alive: set<nat>, pid: nat, before: Option<string>)
    requires s.user.phase.Reading? && Caches(s.user.cache, pid, before)
    ensures Caches(StepBuild(s, names, alive).user.cache, pid,
                   if pid in s.user.phase.seen && pid in names then Some(names[pid]) else before)
  {
    assert StepBuild(s, names, alive).user.cache == CacheAfter(s.user.cache, names, s.user.phase.seen.Keys);
  }

  lemma CachesReap(s: System, other: nat, deleted: bool, pid: nat, before: Option<string>)
    requires s.user.phase.Reaping? && Caches(s.user.cache, pid, before)
    ensures Caches(StepReap(s, other, deleted).user.cache, pid,
                   if pid == other && deleted && pid in s.user.phase.todo then None else before)
  {
  }

  lemma CachesNext(s: System, m: Move, pid: nat, before: Option<string>)
    requires Sized(s.kernel) && Caches(s.user.cache, pid, before)
    ensures Caches(StepSystem(s, m).user.cache, pid, NameAfter(s, m, pid, before))
  {
    if m.Build? && Complete(s) {
      CachesBuild(s, m.names, m.alive, pid, before);
    } else if m.Reap? && s.user.phase.Reaping? {
      CachesReap(s, m.pid, m.deleted, pid, before);
    }
  }

  lemma {:induction false} CacheIsLastName(ncpu: nat, cpus: seq<nat>, moves: seq<Move>, pid: nat)
    requires forall x :: 0 <= x < |cpus| ==> cpus[x] < ncpu
    ensures Caches(After(ncpu, cpus, moves).user.cache, pid, LastName(ncpu, cpus, moves, pid))
  {
    if moves != [] {
      var front := moves[..|moves| - 1];
      CacheIsLastName(ncpu, cpus, front, pid);
      CachesNext(After(ncpu, cpus, front), moves[|moves| - 1], pid, LastName(ncpu, cpus, front, pid));
    }
  }

  /**
   A record shows the name just read as it is. If none can be read, since the process is gone
   say, it shows the name that was last read of it. A process whose name is empty, or was never
   read since an earlier process with its number was reaped, is shown by its number.
   */
  lemma {:induction false} ShownName(ncpu: nat, cpus: seq<nat>, moves: seq<Move>, names: map<nat, string>, pid: nat)
    requires forall x :: 0 <= x < |cpus| ==> cpus[x] < ncpu
    ensures var shown := CommOf(After(ncpu, cpus, moves).user.cache, names, pid);
            var name := if pid in names then Some(names[pid]) else LastName(ncpu, cpus, moves, pid);
            shown == if name.Some? && name.value != "" then Named(name.value) else Numbered(pid)
  {
    CacheIsLastName(ncpu, cpus, moves, pid);
  }
}
