/** What the reported CPU times add up to. */
module CpuAccounting {
  import opened Wrappers
  import opened U64
  import opened Sums
  import opened CpuKernel
  import opened CpuAggregator
  import opened CpuRuns

  function Everything(f: Field): Tick -> nat
  {
    (t: Tick) => t.inc.Get(f)
  }

  /** No sum of increments has reached 2^64. */
  ghost predicate NoOverflow(s: State)
  {
    forall f: Field :: Sum(s.log, Everything(f)) < SIZE
  }

  /** Without overflow a read value is exactly what had been added to the entry. */
  lemma ReadExact(k: State, pid: nat, read: Read, f: Field)
    requires GoodRead(k, pid, read) && Sum(k.log, Everything(f)) < SIZE
    ensures read.value.Get(f) == Sum(k.log[..read.at], OnEntry(read.entry, f))
  {
    SumLeq(k.log[..read.at], OnEntry(read.entry, f), Everything(f));
    SumSplit(k.log, read.at, |k.log|, Everything(f));
    assert k.log[..|k.log|] == k.log;
    var n := Sum(k.log[..read.at], OnEntry(read.entry, f));
    assert n % SIZE == n;
  }

  lemma LaterReadIsLarger(k: State, pid: nat, read: Read, later: Read, f: Field)
    requires GoodRead(k, pid, read) && GoodRead(k, pid, later) && Sum(k.log, Everything(f)) < SIZE
    requires read.entry == later.entry && read.at <= later.at
    ensures read.value.Get(f) <= later.value.Get(f)
  {
    ReadExact(k, pid, read, f);
    ReadExact(k, pid, later, f);
    SumSplit(k.log, read.at, later.at, OnEntry(read.entry, f));
  }

  /**
   In every reachable state, outside the deletions of a poll: a process in prev is in the map,
   in the entry that was read, with counters no smaller than those in prev.
   */
  lemma {:induction false} PrevIsInTheMap(ncpu: nat, cpus: seq<nat>, moves: seq<Move>, pid: nat, f: Field)
    requires forall x :: 0 <= x < |cpus| ==> cpus[x] < ncpu
    requires var s := After(ncpu, cpus, moves); !s.user.phase.Reaping? && pid in s.user.prev && NoOverflow(s.kernel)
    ensures var s := After(ncpu, cpus, moves);
            && pid in s.kernel.table
            && s.kernel.table[pid] < |s.kernel.heap|
            && s.user.prev[pid].value.Get(f) <= SumCpusOf(s.kernel.heap[s.kernel.table[pid]]).Get(f)
  {
    InvRun(ncpu, cpus, moves);
    var s := After(ncpu, cpus, moves);
    NowIsGoodRead(s.kernel, pid);
    LaterReadIsLarger(s.kernel, pid, s.user.prev[pid],
                      Read(SumCpusOf(s.kernel.heap[s.kernel.table[pid]]), s.kernel.table[pid],
                           |s.kernel.log|, |s.kernel.heap|), f);
  }

  /**
   When a poll builds its records, subClamp has nothing to clamp: a process with a previous
   value is read again and has not gone backwards; one without is reported from an entry that
   no poll has reported on, and takes no name from the cache.
   */
  lemma {:induction false} NothingToClamp(ncpu: nat, cpus: seq<nat>, moves: seq<Move>, pid: nat, f: Field,
          names: map<nat, string>)
    requires forall x :: 0 <= x < |cpus| ==> cpus[x] < ncpu
    requires var s := After(ncpu, cpus, moves); Complete(s) && NoOverflow(s.kernel)
    ensures var s := After(ncpu, cpus, moves);
            && (pid in s.user.prev ==>
                  && pid in s.user.phase.seen
                  && s.user.prev[pid].value.Get(f) <= s.user.phase.seen[pid].value.Get(f))
            && (pid in s.user.phase.seen && pid !in s.user.prev ==>
                  && s.user.phase.seen[pid].entry !in s.user.last
                  && CommOf(s.user.cache, names, pid)
                     == if pid in names then Resolved(pid, names[pid]) else Numbered(pid))
  {
    InvRun(ncpu, cpus, moves);
    var s := After(ncpu, cpus, moves);
    TrackedIsSeen(s);
    if pid in s.user.phase.seen {
      AdvancedAt(s, pid);
      if pid in s.user.prev {
        LaterReadIsLarger(s.kernel, pid, s.user.prev[pid], s.user.phase.seen[pid], f);
      }
    }
  }

  /** The name cache never outlives the entries: between polls it names only processes in prev. */
  lemma {:induction false} CacheFollowsPrev(ncpu: nat, cpus: seq<nat>, moves: seq<Move>)
    requires forall x :: 0 <= x < |cpus| ==> cpus[x] < ncpu
    ensures var u := After(ncpu, cpus, moves).user;
            u.cache.Keys <= if u.phase.Reaping? then u.phase.current.Keys else u.prev.Keys
  {
    InvRun(ncpu, cpus, moves);
  }

  // ----- conservation

  /** The poll that has read the map is not the first, and comes later than the one before. */
  ghost predicate PollIsLater(s: System)
    requires s.user.phase.Reading?
  {
    s.user.prevTime.Some? && s.user.phase.now > s.user.prevTime.value
  }

  /** If move i builds records, and not for the first time, its poll comes later than the one before. */
  ghost predicate LaterAt(ncpu: nat, cpus: seq<nat>, moves: seq<Move>, i: nat)
    requires (forall x :: 0 <= x < |cpus| ==> cpus[x] < ncpu) && i < |moves|
  {
    var s := After(ncpu, cpus, moves[..i]);
    moves[i].Build? && Complete(s) && s.user.prevTime.Some? ==> PollIsLater(s)
  }

  ghost predicate StrictlyLater(ncpu: nat, cpus: seq<nat>, moves: seq<Move>)
    requires forall x :: 0 <= x < |cpus| ==> cpus[x] < ncpu
  {
    forall i :: 0 <= i < |moves| ==> LaterAt(ncpu, cpus, moves, i)
  }

  lemma StrictNext(s: System, m: Move)
    requires Sized(s.kernel)
    ensures StepSystem(s, m).user.strict
       <==> s.user.strict && (m.Build? && Complete(s) && s.user.prevTime.Some? ==> PollIsLater(s))
  {
  }

  lemma LaterAtPrefix(ncpu: nat, cpus: seq<nat>, moves: seq<Move>, n: nat, i: nat)
    requires (forall x :: 0 <= x < |cpus| ==> cpus[x] < ncpu) && i < n <= |moves|
    ensures LaterAt(ncpu, cpus, moves[..n], i) <==> LaterAt(ncpu, cpus, moves, i)
  {
    assert moves[..n][..i] == moves[..i];
  }

  lemma StrictlyLaterNext(ncpu: nat, cpus: seq<nat>, moves: seq<Move>, n: nat)
    requires (forall x :: 0 <= x < |cpus| ==> cpus[x] < ncpu) && |moves| == n + 1
    ensures StrictlyLater(ncpu, cpus, moves)
       <==> StrictlyLater(ncpu, cpus, moves[..n]) && LaterAt(ncpu, cpus, moves, n)
  {
    forall i | 0 <= i < n
      ensures LaterAt(ncpu, cpus, moves[..n], i) <==> LaterAt(ncpu, cpus, moves, i)
    {
      LaterAtPrefix(ncpu, cpus, moves, n, i);
    }
  }

  lemma {:induction false} StrictIs(ncpu: nat, cpus: seq<nat>, moves: seq<Move>)
    requires forall x :: 0 <= x < |cpus| ==> cpus[x] < ncpu
    ensures After(ncpu, cpus, moves).user.strict <==> StrictlyLater(ncpu, cpus, moves)
  {
    if moves != [] {
      var n := |moves| - 1;
      StrictIs(ncpu, cpus, moves[..n]);
      StrictlyLaterNext(ncpu, cpus, moves, n);
      StrictNext(After(ncpu, cpus, moves[..n]), moves[n]);
    }
  }

  function Mark(marks: map<nat, nat>, e: nat): nat
  {
    if e in marks then marks[e] else 0
  }

  function OfPid(pid: nat, f: Field): Tick -> nat
  {
    (t: Tick) => if t.pid == pid then t.inc.Get(f) else 0
  }

  /** Already there in the first snapshot. */
  function Baseline(pid: nat, f: Field, base: map<nat, nat>): Tick -> nat
  {
    (t: Tick) => if t.pid == pid && t.n < Mark(base, t.entry) then t.inc.Get(f) else 0
  }

  /** Between the first snapshot and the entry's last read. */
  function Covered(pid: nat, f: Field, base: map<nat, nat>, last: map<nat, nat>): Tick -> nat
  {
    (t: Tick) => if t.pid == pid && Mark(base, t.entry) <= t.n < Mark(last, t.entry) then t.inc.Get(f) else 0
  }

  /** After the last read of the entry that is in the map. */
  function Unread(pid: nat, f: Field, last: map<nat, nat>, table: map<nat, nat>): Tick -> nat
  {
    (t: Tick) =>
      if t.pid == pid && t.n >= Mark(last, t.entry) && pid in table && table[pid] == t.entry
      then t.inc.Get(f) else 0
  }

  /** After the last read of an entry that is no longer in the map. */
  function Lost(pid: nat, f: Field, last: map<nat, nat>, table: map<nat, nat>): Tick -> nat
  {
    (t: Tick) =>
      if t.pid == pid && t.n >= Mark(last, t.entry) && !(pid in table && table[pid] == t.entry)
      then t.inc.Get(f) else 0
  }

  function InWindow(e: nat, f: Field, lo: nat, hi: nat): Tick -> nat
  {
    (t: Tick) => if t.entry == e && lo <= t.n < hi then t.inc.Get(f) else 0
  }

  ghost predicate Numbering(log: seq<Tick>)
  {
    forall i :: 0 <= i < |log| ==> log[i].n == i
  }

  lemma {:induction false} WindowSum(log: seq<Tick>, e: nat, f: Field, lo: nat, hi: nat)
    requires Numbering(log) && lo <= hi
    ensures Sum(log, InWindow(e, f, lo, hi))
         == Sum(log[..if hi <= |log| then hi else |log|], OnEntry(e, f))
            - Sum(log[..if lo <= |log| then lo else |log|], OnEntry(e, f))
  {
    if log == [] {
    } else {
      var front, n := log[..|log| - 1], |log| - 1;
      WindowSum(front, e, f, lo, hi);
      assert log == front + [log[n]];
      SumAppend(front, log[n], InWindow(e, f, lo, hi));
      SumAppend(front, log[n], OnEntry(e, f));
      assert log[..|log|] == log;
      assert front[..|front|] == front;
      if hi <= n {
        assert log[..hi] == front[..hi];
      }
      if lo <= n {
        assert log[..lo] == front[..lo];
      }
    }
  }

  ghost predicate Conserved(s: System, pid: nat, f: Field)
  {
    s.user.strict && Sum(s.kernel.log, Everything(f)) < SIZE ==>
      Emitted(s.user, pid).Get(f) == Sum(s.kernel.log, Covered(pid, f, s.user.base, s.user.last))
  }

  lemma MarkElsewhere(k: State, marks: map<nat, nat>, seen: map<nat, Read>, e: nat)
    requires e !in EntriesOf(seen)
    ensures Mark(Advanced(k, marks, seen), e) == Mark(marks, e)
  {
  }

  /** An entry that was not read is reported on as before. */
  lemma NotRead(s: System, e: nat, names: map<nat, string>, alive: set<nat>)
    requires s.user.phase.Reading? && e !in EntriesOf(s.user.phase.seen)
    ensures var u' := StepBuild(s, names, alive).user;
            Mark(u'.base, e) == Mark(s.user.base, e) && Mark(u'.last, e) == Mark(s.user.last, e)
  {
    MarkElsewhere(s.kernel, s.user.base, s.user.phase.seen, e);
    MarkElsewhere(s.kernel, s.user.last, s.user.phase.seen, e);
  }

  /** An entry of a process is read only as that process's. */
  lemma ReadAsOwn(s: System, e: nat)
    requires s.user.phase.Reading? && Live(s.kernel, s.user.phase.seen) && e in EntriesOf(s.user.phase.seen)
    ensures e < |s.kernel.owner| && s.kernel.owner[e] in s.user.phase.seen
    ensures s.user.phase.seen[s.kernel.owner[e]].entry == e
  {
    var pid :| pid in s.user.phase.seen && s.user.phase.seen[pid].entry == e;
    SeenEntry(s.kernel, s.user.phase.seen, pid);
  }

  /** For a process that is not read, nothing is reported and no mark moves. */
  lemma BuildUnseen(s: System, pid: nat, f: Field, names: map<nat, string>, alive: set<nat>)
    requires Inv(s) && s.user.phase.Reading? && pid !in s.user.phase.seen
    ensures var u' := StepBuild(s, names, alive).user;
            Sum(s.kernel.log, Covered(pid, f, u'.base, u'.last))
            == Sum(s.kernel.log, Covered(pid, f, s.user.base, s.user.last))
  {
    var u, u', log := s.user, StepBuild(s, names, alive).user, s.kernel.log;
    forall t | t in log
      ensures Covered(pid, f, u'.base, u'.last)(t) == Covered(pid, f, u.base, u.last)(t)
    {
      if t.pid == pid {
        if t.entry in EntriesOf(u.phase.seen) {
          ReadAsOwn(s, t.entry);
        }
        NotRead(s, t.entry, names, alive);
      }
    }
    SumSame(log, Covered(pid, f, u'.base, u'.last), Covered(pid, f, u.base, u.last));
  }

  /** The first snapshot is all baseline: nothing is covered yet. */
  lemma {:induction false} BuildFirst(s: System, pid: nat, f: Field, names: map<nat, string>, alive: set<nat>)
    requires Inv(s) && s.user.phase.Reading? && s.user.prevTime.None?
    ensures var u' := StepBuild(s, names, alive).user;
            && Sum(s.kernel.log, Covered(pid, f, u'.base, u'.last)) == 0
            && Sum(s.kernel.log, Covered(pid, f, s.user.base, s.user.last)) == 0
            && NewDelta(s, pid) == ZERO
  {
    var u' := StepBuild(s, names, alive).user;
    assert u'.base == u'.last;
    SumZero(s.kernel.log, Covered(pid, f, u'.base, u'.last));
    SumZero(s.kernel.log, Covered(pid, f, s.user.base, s.user.last));
  }

  /** How the marks of a process's entries move on a later poll. */
  lemma MarksMove(s: System, pid: nat, e: nat, names: map<nat, string>, alive: set<nat>)
    requires Inv(s) && Marks(s.kernel, s.user) && Complete(s) && pid in s.user.phase.seen && s.user.prevTime.Some?
    requires e < |s.kernel.owner| && s.kernel.owner[e] == pid
    ensures var u', read := StepBuild(s, names, alive).user, s.user.phase.seen[pid];
            && Mark(u'.base, e) == Mark(s.user.base, e) <= Mark(s.user.last, e)
            && (e == read.entry ==> Mark(u'.last, e) == read.at >= Mark(s.user.last, e))
            && (e != read.entry ==> Mark(u'.last, e) == Mark(s.user.last, e))
  {
    AdvancedAt(s, pid);
    if e != s.user.phase.seen[pid].entry {
      if e in EntriesOf(s.user.phase.seen) {
        ReadAsOwn(s, e);
      }
      NotRead(s, e, names, alive);
    }
  }

  lemma {:induction false} CoveredMoves(s: System, pid: nat, f: Field, t: Tick, names: map<nat, string>,
          alive: set<nat>)
    requires Inv(s) && Marks(s.kernel, s.user) && Complete(s) && pid in s.user.phase.seen && s.user.prevTime.Some?
    requires t.entry < |s.kernel.owner| && s.kernel.owner[t.entry] == t.pid
    ensures var u', read := StepBuild(s, names, alive).user, s.user.phase.seen[pid];
            Covered(pid, f, u'.base, u'.last)(t)
            == Covered(pid, f, s.user.base, s.user.last)(t)
               + InWindow(read.entry, f, Mark(s.user.last, read.entry), read.at)(t)
  {
    var u', read := StepBuild(s, names, alive).user, s.user.phase.seen[pid];
    ReadIsOwn(s, pid);
    if t.pid == pid {
      MarksMove(s, pid, t.entry, names, alive);
    }
    CoveredSplits(pid, f, t, s.user.base, s.user.last, u'.base, u'.last, read.entry, read.at);
  }

  lemma ReadIsOwn(s: System, pid: nat)
    requires Inv(s) && s.user.phase.Reading? && pid in s.user.phase.seen
    ensures s.user.phase.seen[pid].entry < |s.kernel.owner| && s.kernel.owner[s.user.phase.seen[pid].entry] == pid
  {
    SeenEntry(s.kernel, s.user.phase.seen, pid);
  }

  lemma CoveredSplits(pid: nat, f: Field, t: Tick, base: map<nat, nat>, last: map<nat, nat>,
                      base': map<nat, nat>, last': map<nat, nat>, e: nat, hi: nat)
    requires t.entry == e ==> t.pid == pid
    requires t.pid == pid ==> Mark(base', t.entry) == Mark(base, t.entry) <= Mark(last, t.entry)
    requires t.pid == pid && t.entry == e ==> Mark(last', e) == hi >= Mark(last, e)
    requires t.pid == pid && t.entry != e ==> Mark(last', t.entry) == Mark(last, t.entry)
    ensures Covered(pid, f, base', last')(t) == Covered(pid, f, base, last)(t) + InWindow(e, f, Mark(last, e), hi)(t)
  {
  }

  /** On a later poll the entry that was read is covered up to its read. */
  lemma {:induction false} BuildSeen(s: System, pid: nat, f: Field, names: map<nat, string>, alive: set<nat>)
    requires Inv(s) && Marks(s.kernel, s.user) && Complete(s) && pid in s.user.phase.seen && s.user.prevTime.Some?
    ensures var u', read := StepBuild(s, names, alive).user, s.user.phase.seen[pid];
            Sum(s.kernel.log, Covered(pid, f, u'.base, u'.last))
            == Sum(s.kernel.log, Covered(pid, f, s.user.base, s.user.last))
               + Sum(s.kernel.log, InWindow(read.entry, f, Mark(s.user.last, read.entry), read.at))
  {
    var u', read := StepBuild(s, names, alive).user, s.user.phase.seen[pid];
    var was, now := Covered(pid, f, s.user.base, s.user.last), Covered(pid, f, u'.base, u'.last);
    var win := InWindow(read.entry, f, Mark(s.user.last, read.entry), read.at);
    forall t | t in s.kernel.log
      ensures now(t) == was(t) + win(t)
    {
      CoveredMoves(s, pid, f, t, names, alive);
    }
    SumPlus(s.kernel.log, was, win, now);
  }

  lemma PrevExact(s: System, pid: nat, f: Field)
    requires Inv(s) && Marks(s.kernel, s.user) && Complete(s) && pid in s.user.phase.seen
    requires Sum(s.kernel.log, Everything(f)) < SIZE
    ensures var read := s.user.phase.seen[pid];
            && Mark(s.user.last, read.entry) <= read.at <= |s.kernel.log|
            && PrevValue(s.user, pid).Get(f)
               == Sum(s.kernel.log[..Mark(s.user.last, read.entry)], OnEntry(read.entry, f))
            && read.value.Get(f) == Sum(s.kernel.log[..read.at], OnEntry(read.entry, f))
  {
    AdvancedAt(s, pid);
    var read := s.user.phase.seen[pid];
    ReadExact(s.kernel, pid, read, f);
    if pid in s.user.prev {
      TrackedIsSeen(s);
      ReadExact(s.kernel, pid, s.user.prev[pid], f);
    }
  }

  /** What a later poll reports of a process is what was added to its entry since it was last reported on. */
  lemma {:induction false} DeltaIsWindow(s: System, pid: nat, f: Field)
    requires Inv(s) && Marks(s.kernel, s.user) && Complete(s) && pid in s.user.phase.seen
    requires Sum(s.kernel.log, Everything(f)) < SIZE && PollIsLater(s)
    ensures var read := s.user.phase.seen[pid];
            NewDelta(s, pid).Get(f)
            == Sum(s.kernel.log, InWindow(read.entry, f, Mark(s.user.last, read.entry), read.at))
  {
    PrevExact(s, pid, f);
    var read := s.user.phase.seen[pid];
    WindowSum(s.kernel.log, read.entry, f, Mark(s.user.last, read.entry), read.at);
  }

  lemma EmittedBuild(s: System, pid: nat, f: Field, names: map<nat, string>, alive: set<nat>)
    requires s.user.phase.Reading?
    ensures Emitted(StepBuild(s, names, alive).user, pid).Get(f)
         == Emitted(s.user, pid).Get(f) + NewDelta(s, pid).Get(f)
  {
  }

  /** A poll moves the window of what is covered by what it reports. */
  lemma {:induction false} CoveredBuild(s: System, pid: nat, f: Field, names: map<nat, string>, alive: set<nat>)
    requires Inv(s) && Marks(s.kernel, s.user) && Complete(s)
    requires StepBuild(s, names, alive).user.strict && Sum(s.kernel.log, Everything(f)) < SIZE
    ensures var u' := StepBuild(s, names, alive).user;
      Sum(s.kernel.log, Covered(pid, f, u'.base, u'.last))
      == Sum(s.kernel.log, Covered(pid, f, s.user.base, s.user.last)) + NewDelta(s, pid).Get(f)
  {
    if pid !in s.user.phase.seen {
      BuildUnseen(s, pid, f, names, alive);
    } else if s.user.prevTime.None? {
      BuildFirst(s, pid, f, names, alive);
    } else {
      BuildSeen(s, pid, f, names, alive);
      DeltaIsWindow(s, pid, f);
    }
  }

  lemma {:induction false} ConservedBuild(s: System, pid: nat, f: Field, names: map<nat, string>, alive: set<nat>)
    requires Inv(s) && Marks(s.kernel, s.user) && Complete(s) && Conserved(s, pid, f)
    ensures Conserved(StepBuild(s, names, alive), pid, f)
  {
    EmittedBuild(s, pid, f, names, alive);
    if StepBuild(s, names, alive).user.strict && Sum(s.kernel.log, Everything(f)) < SIZE {
      CoveredBuild(s, pid, f, names, alive);
    }
  }

  lemma CoveredGrows(log: seq<Tick>, tick: Tick, pid: nat, f: Field, base: map<nat, nat>, last: map<nat, nat>)
    requires Mark(last, tick.entry) <= tick.n
    ensures Sum(log + [tick], Covered(pid, f, base, last)) == Sum(log, Covered(pid, f, base, last))
    ensures Sum(log, Everything(f)) <= Sum(log + [tick], Everything(f))
  {
    SumAppend(log, tick, Covered(pid, f, base, last));
    SumAppend(log, tick, Everything(f));
  }

  /** A new increment comes after everything that has been reported on. */
  lemma ConservedKernel(s: System, a: Action, pid: nat, f: Field)
    requires Sized(s.kernel) && Marks(s.kernel, s.user) && Conserved(s, pid, f)
    ensures Conserved(s.(kernel := Step(s.kernel, a)), pid, f)
  {
    LogGrows(s.kernel, a);
    if Adds(s.kernel, a) {
      CoveredGrows(s.kernel.log, TickOf(s.kernel, a.x), pid, f, s.user.base, s.user.last);
    }
  }

  lemma {:induction false} ConservedStep(s: System, m: Move, pid: nat, f: Field)
    requires Inv(s) && Marks(s.kernel, s.user) && Conserved(s, pid, f)
    ensures Conserved(StepSystem(s, m), pid, f)
  {
    if m.Kernel? {
      ConservedKernel(s, m.a, pid, f);
    } else if m.Build? && Complete(s) {
      ConservedBuild(s, pid, f, m.names, m.alive);
    }
  }

  lemma {:induction false} ConservedRun(ncpu: nat, cpus: seq<nat>, moves: seq<Move>, pid: nat, f: Field)
    requires forall x :: 0 <= x < |cpus| ==> cpus[x] < ncpu
    ensures Conserved(After(ncpu, cpus, moves), pid, f)
  {
    if moves != [] {
      InvRun(ncpu, cpus, moves[..|moves| - 1]);
      ConservedRun(ncpu, cpus, moves[..|moves| - 1], pid, f);
      ConservedStep(After(ncpu, cpus, moves[..|moves| - 1]), moves[|moves| - 1], pid, f);
    }
  }

  /**
   Over any run in which every poll came later than the one before: everything ever sampled
   for a process was already there in the first snapshot, or has been reported in exactly one
   record, or waits in the map to be read, or came to an entry after its last read and
   before, or just after, the entry was deleted.
   */
  lemma {:induction false} CpuTimeConserved(ncpu: nat, cpus: seq<nat>, moves: seq<Move>, pid: nat, f: Field)
    requires forall x :: 0 <= x < |cpus| ==> cpus[x] < ncpu
    requires StrictlyLater(ncpu, cpus, moves)
    requires Sum(After(ncpu, cpus, moves).kernel.log, Everything(f)) < 0x1_0000_0000_0000_0000
    ensures var s := After(ncpu, cpus, moves);
            Sum(s.kernel.log, OfPid(pid, f))
            == Sum(s.kernel.log, Baseline(pid, f, s.user.base))
               + Emitted(s.user, pid).Get(f)
               + Sum(s.kernel.log, Unread(pid, f, s.user.last, s.kernel.table))
               + Sum(s.kernel.log, Lost(pid, f, s.user.last, s.kernel.table))
  {
    InvRun(ncpu, cpus, moves);
    StrictIs(ncpu, cpus, moves);
    ConservedRun(ncpu, cpus, moves, pid, f);
    var s := After(ncpu, cpus, moves);
    FourParts(s.kernel.log, pid, f, s.user.base, s.user.last, s.kernel.table);
  }

  lemma {:induction false} FourParts(log: seq<Tick>, pid: nat, f: Field, base: map<nat, nat>, last: map<nat,
          nat>, table: map<nat, nat>)
    requires forall e: nat :: Mark(base, e) <= Mark(last, e)
    ensures Sum(log, OfPid(pid, f))
         == Sum(log, Baseline(pid, f, base)) + Sum(log, Covered(pid, f, base, last))
            + Sum(log, Unread(pid, f, last, table)) + Sum(log, Lost(pid, f, last, table))
  {
    if log != [] {
      var t := log[|log| - 1];
      FourParts(log[..|log| - 1], pid, f, base, last, table);
      assert Mark(base, t.entry) <= Mark(last, t.entry);
    }
  }

  // ----- what is lost

  predicate InTable(k: State, e: nat)
    requires e < |k.owner|
  {
    k.owner[e] in k.table && k.table[k.owner[e]] == e
  }

  /** An entry that is not in the map was read before it was deleted. */
  ghost predicate DeletedAfterRead(s: System)
  {
    forall e :: 0 <= e < |s.kernel.owner| && !InTable(s.kernel, e) ==>
      e in s.kernel.deletedAt && e in s.user.last && s.user.last[e] <= s.kernel.deletedAt[e] <= |s.kernel.log|
  }

  lemma DeletedAfterReadKernel(s: System, a: Action)
    requires Inv(s) && DeletedAfterRead(s)
    ensures DeletedAfterRead(s.(kernel := Step(s.kernel, a)))
  {
    var k' := Step(s.kernel, a);
    StepExtends(s.kernel, a);
    forall e | 0 <= e < |k'.owner| && !InTable(k', e)
      ensures e in k'.deletedAt && e in s.user.last && s.user.last[e] <= k'.deletedAt[e] <= |k'.log|
    {
      assert e < |s.kernel.owner| && !InTable(s.kernel, e);
    }
  }

  lemma DeletedAfterReadBuild(s: System, names: map<nat, string>, alive: set<nat>)
    requires Inv(s) && DeletedAfterRead(s) && s.user.phase.Reading?
    ensures DeletedAfterRead(StepBuild(s, names, alive))
  {
    forall e | 0 <= e < |s.kernel.owner| && !InTable(s.kernel, e)
      ensures e in StepBuild(s, names, alive).user.last
      ensures StepBuild(s, names, alive).user.last[e] == s.user.last[e]
    {
      if e in EntriesOf(s.user.phase.seen) {
        ReadAsOwn(s, e);
      }
      AdvancedElsewhere(s, e);
    }
  }

  lemma DeletedAfterReadReap(s: System, pid: nat, deleted: bool)
    requires Inv(s) && Marks(s.kernel, s.user) && DeletedAfterRead(s) && s.user.phase.Reaping?
    ensures DeletedAfterRead(StepReap(s, pid, deleted))
  {
    var k' := StepReap(s, pid, deleted).kernel;
    forall e | 0 <= e < |k'.owner| && !InTable(k', e)
      ensures e in k'.deletedAt && e in s.user.last && s.user.last[e] <= k'.deletedAt[e] <= |k'.log|
    {
      if InTable(s.kernel, e) {
        assert s.kernel.owner[e] == pid && pid in s.user.phase.current;
      }
    }
  }

  lemma DeletedAfterReadStep(s: System, m: Move)
    requires Inv(s) && Marks(s.kernel, s.user) && DeletedAfterRead(s)
    ensures DeletedAfterRead(StepSystem(s, m))
  {
    if m.Kernel? {
      DeletedAfterReadKernel(s, m.a);
    } else if m.Build? && Complete(s) {
      DeletedAfterReadBuild(s, m.names, m.alive);
    } else if m.Reap? && s.user.phase.Reaping? {
      DeletedAfterReadReap(s, m.pid, m.deleted);
    }
  }

  lemma {:induction false} DeletedAfterReadRun(ncpu: nat, cpus: seq<nat>, moves: seq<Move>)
    requires forall x :: 0 <= x < |cpus| ==> cpus[x] < ncpu
    ensures DeletedAfterRead(After(ncpu, cpus, moves))
  {
    if moves != [] {
      InvRun(ncpu, cpus, moves[..|moves| - 1]);
      DeletedAfterReadRun(ncpu, cpus, moves[..|moves| - 1]);
      DeletedAfterReadStep(After(ncpu, cpus, moves[..|moves| - 1]), moves[|moves| - 1]);
    }
  }

  /**
   Only a deletion loses increments: an entry that is not in the map was read and then deleted,
   and after its deletion it receives at most one more increment from each executor.
   */
  lemma {:induction false} OnlyDeletionLoses(ncpu: nat, cpus: seq<nat>, moves: seq<Move>, pid: nat, f: Field, i: nat)
    requires forall x :: 0 <= x < |cpus| ==> cpus[x] < ncpu
    requires var s := After(ncpu, cpus, moves);
             i < |s.kernel.log| && Lost(pid, f, s.user.last, s.kernel.table)(s.kernel.log[i]) > 0
    ensures var s := After(ncpu, cpus, moves);
            var e := s.kernel.log[i].entry;
            && e in s.kernel.deletedAt && e in s.user.last
            && s.user.last[e] <= i
            && s.user.last[e] <= s.kernel.deletedAt[e]
            && Sum(s.kernel.log, AddedAfter(e, s.kernel.deletedAt[e])) <= |cpus|
  {
    InvRun(ncpu, cpus, moves);
    DeletedAfterReadRun(ncpu, cpus, moves);
    SameExecutors(ncpu, cpus, moves);
    var s := After(ncpu, cpus, moves);
    assert s.kernel.log[i] in s.kernel.log && s.kernel.log[i].n == i;
  }

  lemma {:induction false} SameExecutors(ncpu: nat, cpus: seq<nat>, moves: seq<Move>)
    requires forall x :: 0 <= x < |cpus| ==> cpus[x] < ncpu
    ensures |After(ncpu, cpus, moves).kernel.pcs| == |cpus|
  {
    if moves != [] {
      SameExecutors(ncpu, cpus, moves[..|moves| - 1]);
    }
  }
}
