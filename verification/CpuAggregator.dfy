/** The polling side of the CPU samples (internal/cpu/aggregator.go, cpu.go, proc.go). */
module CpuAggregator {
  import opened Wrappers
  import opened U64
  import opened CpuKernel

  // ----- names

  /** A process name from procfs, or the one made up from its number. */
  datatype Comm = Named(name: string) | Numbered(pid: nat)

  /** The name read from procfs; an empty one is replaced. */
  function Resolved(pid: nat, name: string): Comm
  {
    if name == "" then Numbered(pid) else Named(name)
  }

  /** What comm returns: the name just read, or else the cached one, or else a number. */
  function CommOf(cache: map<nat, Comm>, names: map<nat, string>, pid: nat): Comm
  {
    if pid in names then Resolved(pid, names[pid])
    else if pid in cache then cache[pid]
    else Numbered(pid)
  }

  /** The cache once comm has been asked for every pid of a set. */
  function CacheAfter(cache: map<nat, Comm>, names: map<nat, string>, pids: set<nat>): map<nat, Comm>
  {
    map pid | pid in cache.Keys + (pids * names.Keys) ::
      if pid in pids && pid in names then Resolved(pid, names[pid]) else cache[pid]
  }

  /** Asking for one more pid. The others do not influence its name. */
  lemma CacheNext(cache: map<nat, Comm>, names: map<nat, string>, done: set<nat>, pid: nat)
    requires pid !in done
    ensures CommOf(CacheAfter(cache, names, done), names, pid) == CommOf(cache, names, pid)
    ensures CacheAfter(cache, names, done + {pid})
         == if pid in names then CacheAfter(cache, names, done)[pid := CommOf(cache, names, pid)]
            else CacheAfter(cache, names, done)
  {
  }

  class CommReader {
    var cache: map<nat, Comm>

    constructor ()
      ensures cache == map[]
    {
      cache := map[];
    }

    /** file is the sanitized content of the process's comm file, if it could be read. */
    method Comm(pid: nat, file: Option<string>) returns (name: Comm)
      modifies this
      ensures name == CommOf(old(cache), if file.Some? then map[pid := file.value] else map[], pid)
      ensures file.Some? ==> name == if file.value == "" then Numbered(pid) else Named(file.value)
      ensures file.None? ==> name == if pid in old(cache) then old(cache)[pid] else Numbered(pid)
      ensures cache == if file.Some? then old(cache)[pid := name] else old(cache)
    {
      if file.None? {
        if pid in cache {
          return cache[pid];
        }
        return Numbered(pid);
      }
      name := Named(file.value);
      if file.value == "" {
        name := Numbered(pid);
      }
      cache := cache[pid := name];
    }

    method Forget(pid: nat)
      modifies this
      ensures cache == old(cache) - {pid}
    {
      cache := cache - {pid};
    }
  }

  // ----- records

  function SubClamp(cur: u64, prev: u64): u64
  {
    if cur < prev then 0 else cur - prev
  }

  /** What a poll reports as new; nothing on a poll that is not later than the last. */
  function DeltaOf(cur: Val, prev: Val, elapsed: int): Val
  {
    if elapsed <= 0 then ZERO
    else Val(SubClamp(cur.user, prev.user), SubClamp(cur.kern, prev.kern), SubClamp(cur.switches, prev.switches))
  }

  /** delta is what the rates are made of: each divides a field of delta by lastInterval. */
  datatype Record = Record(pid: nat, comm: Comm, delta: Val, total: Val, lastInterval: int)

  function RecordOf(pid: nat, cur: Val, prev: Val, elapsed: int, comm: Comm): Record
  {
    Record(pid, comm, DeltaOf(cur, prev, elapsed), cur, elapsed)
  }

  /**
   What a record says: the totals as they are, and for each counter what must be added to the
   previous value to get the present one. Nothing is new on a poll that is not later than the
   last, nor for a counter that went backwards.
   */
  ghost predicate Describes(rec: Record, pid: nat, cur: Val, prev: Val, elapsed: int)
  {
    && rec.pid == pid && rec.total == cur && rec.lastInterval == elapsed
    && (forall f: Field :: elapsed > 0 && prev.Get(f) <= cur.Get(f) ==> prev.Get(f) + rec.delta.Get(f) == cur.Get(f))
    && (forall f: Field :: elapsed <= 0 || cur.Get(f) < prev.Get(f) ==> rec.delta.Get(f) == 0)
  }

  /** This says all there is to say. */
  lemma DescribedBy(rec: Record, pid: nat, cur: Val, prev: Val, elapsed: int)
    ensures Describes(rec, pid, cur, prev, elapsed) <==> rec == RecordOf(pid, cur, prev, elapsed, rec.comm)
  {
    if Describes(rec, pid, cur, prev, elapsed) {
      var delta := DeltaOf(cur, prev, elapsed);
      assert rec.delta.Get(User) == delta.Get(User);
      assert rec.delta.Get(Kern) == delta.Get(Kern);
      assert rec.delta.Get(Switches) == delta.Get(Switches);
    }
  }

  function PrevOf(prev: map<nat, Val>, pid: nat): Val
  {
    if pid in prev then prev[pid] else ZERO
  }

  function RecordsOf(cur: map<nat, Val>, prev: map<nat, Val>, elapsed: int,
                     cache: map<nat, Comm>, names: map<nat, string>): map<nat, Record>
  {
    map pid | pid in cur :: RecordOf(pid, cur[pid], PrevOf(prev, pid), elapsed, CommOf(cache, names, pid))
  }

  /** The record of a process that is in the snapshot. */
  ghost predicate IsRecord(rec: Record, pid: nat, current: map<nat, Val>, prev: map<nat, Val>, elapsed: int,
                           cache: map<nat, Comm>, names: map<nat, string>)
  {
    pid in current && rec == RecordOf(pid, current[pid], PrevOf(prev, pid), elapsed, CommOf(cache, names, pid))
  }

  ghost predicate AreRecords(all: map<nat, Record>, current: map<nat, Val>, prev: map<nat, Val>, elapsed: int,
                             cache: map<nat, Comm>, names: map<nat, string>)
  {
    && all.Keys == current.Keys
    && (forall pid {:trigger IsRecord(all[pid], pid, current, prev, elapsed, cache, names)} :: pid in all ==>
          IsRecord(all[pid], pid, current, prev, elapsed, cache, names))
  }

  lemma RecordsAre(current: map<nat, Val>, prev: map<nat, Val>, elapsed: int,
                   cache: map<nat, Comm>, names: map<nat, string>)
    ensures AreRecords(RecordsOf(current, prev, elapsed, cache, names), current, prev, elapsed, cache, names)
  {
  }

  /** The list holds exactly the records of the map, in any order. */
  ghost predicate Lists(records: seq<Record>, all: map<nat, Record>)
  {
    && |records| == |all|
    && (forall pid :: pid in all ==> all[pid] in records)
    && (forall r :: r in records ==> r.pid in all && all[r.pid] == r)
  }

  /** The lists hold the records of the pids done so far, and which of those are dead. */
  ghost predicate Visited(records: seq<Record>, dead: seq<nat>, done: set<nat>, all: map<nat, Record>, world: World)
  {
    && |records| == |done|
    && done <= all.Keys
    && (forall pid :: pid in done ==> all[pid] in records)
    && (forall r :: r in records ==> r.pid in all && all[r.pid] == r)
    && (forall pid :: pid in dead <==> pid in done && pid !in world.alive)
  }

  lemma NothingVisited(all: map<nat, Record>, cache: map<nat, Comm>, world: World)
    ensures Visited([], [], {}, all, world)
    ensures CacheAfter(cache, world.names, {}) == cache
  {
  }

  lemma VisitedNext(records: seq<Record>, dead: seq<nat>, done: set<nat>, all: map<nat, Record>, world: World, pid: nat)
    requires Visited(records, dead, done, all, world) && pid in all && pid !in done && all[pid].pid == pid
    ensures Visited(records + [all[pid]], if pid in world.alive then dead else dead + [pid], done + {pid}, all, world)
  {
  }

  lemma AllVisited(records: seq<Record>, dead: seq<nat>, pids: set<nat>, all: map<nat, Record>, world: World)
    requires Visited(records, dead, pids, all, world) && pids == all.Keys
    ensures Lists(records, all)
  {
    assert |all| == |all.Keys|;
  }

  /** The pids of a list that can be deleted. */
  function Deleted(dead: seq<nat>, undeletable: set<nat>): set<nat>
  {
    (set pid | pid in dead) - undeletable
  }

  lemma DeletedNext(dead: seq<nat>, i: nat, undeletable: set<nat>)
    requires i < |dead|
    ensures Deleted(dead[..i + 1], undeletable)
         == if dead[i] in undeletable then Deleted(dead[..i], undeletable)
            else Deleted(dead[..i], undeletable) + {dead[i]}
  {
    assert dead[..i + 1] == dead[..i] + [dead[i]];
  }

  function ElapsedOf(prevTime: Option<int>, now: int): int
  {
    if prevTime.Some? then now - prevTime.value else 0
  }

  datatype Snapshot = ReadError | Snapshot(entries: map<nat, Val>)

  /** What the rest of the system answers during one poll. */
  datatype World = World(names: map<nat, string>, alive: set<nat>, undeletable: set<nat>)

  /** The entries a poll removes: dead ones whose delete does not fail. */
  function Reaped(pids: set<nat>, world: World): set<nat>
  {
    pids - world.alive - world.undeletable
  }

  class Aggregator {
    var prev: map<nat, Val>
    var prevTime: Option<int>
    const proc: CommReader

    constructor ()
      ensures prev == map[] && prevTime == None && fresh(proc) && proc.cache == map[]
    {
      prev, prevTime := map[], None;
      proc := new CommReader();
    }

    method Ask(pid: nat, names: map<nat, string>) returns (comm: Comm)
      modifies proc
      ensures comm == CommOf(old(proc.cache), names, pid)
      ensures proc.cache == if pid in names then old(proc.cache)[pid := comm] else old(proc.cache)
    {
      comm := proc.Comm(pid, if pid in names then Some(names[pid]) else None);
    }

    method BuildRecord(pid: nat, cur: Val, elapsed: int, names: map<nat, string>) returns (rec: Record)
      modifies proc
      ensures Describes(rec, pid, cur, PrevOf(prev, pid), elapsed)
      ensures rec.comm == CommOf(old(proc.cache), names, pid)
      ensures proc.cache == if pid in names then old(proc.cache)[pid := rec.comm] else old(proc.cache)
    {
      var comm := Ask(pid, names);
      var delta, before := ZERO, PrevOf(prev, pid);
      if elapsed > 0 {
        delta := Val(SubClamp(cur.user, before.user), SubClamp(cur.kern, before.kern),
                     SubClamp(cur.switches, before.switches));
      }
      rec := Record(pid, comm, delta, cur, elapsed);
    }

    /** One round of the loop over the snapshot, when the pids done have been visited before. */
    method Visit(records: seq<Record>, dead: seq<nat>, pid: nat, current: map<nat, Val>, elapsed: int, world: World,
                 ghost cache0: map<nat, Comm>, ghost done: set<nat>, ghost all: map<nat, Record>)
      returns (records': seq<Record>, dead': seq<nat>)
      requires pid !in done && proc.cache == CacheAfter(cache0, world.names, done)
      requires Visited(records, dead, done, all, world)
      requires pid in all && IsRecord(all[pid], pid, current, prev, elapsed, cache0, world.names)
      modifies proc
      ensures Visited(records', dead', done + {pid}, all, world)
      ensures proc.cache == CacheAfter(cache0, world.names, done + {pid})
    {
      CacheNext(cache0, world.names, done, pid);
      VisitedNext(records, dead, done, all, world, pid);
      var rec := BuildRecord(pid, current[pid], elapsed, world.names);
      DescribedBy(rec, pid, current[pid], PrevOf(prev, pid), elapsed);
      records' := records + [rec];
      dead' := if pid !in world.alive then dead + [pid] else dead;
    }

    /** The loop of poll over the snapshot: one record each, and the dead pids. */
    method BuildRecords(current: map<nat, Val>, elapsed: int, world: World, ghost all: map<nat, Record>)
      returns (records: seq<Record>, dead: seq<nat>)
      requires AreRecords(all, current, prev, elapsed, proc.cache, world.names)
      modifies proc
      ensures Lists(records, all)
      ensures forall pid :: pid in dead <==> pid in current && pid !in world.alive
      ensures proc.cache == CacheAfter(old(proc.cache), world.names, current.Keys)
    {
      ghost var cache0 := proc.cache;
      records, dead := [], [];
      var todo := current.Keys;
      ghost var done: set<nat> := {};
      NothingVisited(all, cache0, world);
      while todo != {}
        invariant done == current.Keys - todo && todo <= current.Keys
        invariant Visited(records, dead, done, all, world)
        invariant proc.cache == CacheAfter(cache0, world.names, done)
      {
        var pid :| pid in todo;
        assert IsRecord(all[pid], pid, current, prev, elapsed, cache0, world.names);
        records, dead := Visit(records, dead, pid, current, elapsed, world, cache0, done, all);
        todo, done := todo - {pid}, done + {pid};
      }
      assert done == current.Keys;
      AllVisited(records, dead, done, all, world);
    }

    method BuildAll(current: map<nat, Val>, elapsed: int, world: World) returns (records: seq<Record>, dead: seq<nat>)
      modifies proc
      ensures Lists(records, RecordsOf(current, prev, elapsed, old(proc.cache), world.names))
      ensures forall pid :: pid in dead <==> pid in current && pid !in world.alive
      ensures proc.cache == CacheAfter(old(proc.cache), world.names, current.Keys)
    {
      RecordsAre(current, prev, elapsed, proc.cache, world.names);
      ghost var all := RecordsOf(current, prev, elapsed, proc.cache, world.names);
      records, dead := BuildRecords(current, elapsed, world, all);
    }

    /** reap: an entry whose delete fails stays in the snapshot and keeps its name. */
    method Reap(dead: seq<nat>, current: map<nat, Val>, world: World) returns (kept: map<nat, Val>)
      modifies proc
      ensures kept == current - Deleted(dead, world.undeletable)
      ensures proc.cache == old(proc.cache) - Deleted(dead, world.undeletable)
    {
      kept := current;
      for i := 0 to |dead|
        invariant kept == current - Deleted(dead[..i], world.undeletable)
        invariant proc.cache == old(proc.cache) - Deleted(dead[..i], world.undeletable)
      {
        DeletedNext(dead, i, world.undeletable);
        if dead[i] !in world.undeletable {
          kept := kept - {dead[i]};
          proc.Forget(dead[i]);
        }
      }
      assert dead[..|dead|] == dead;
    }

    method Poll(now: int, snapshot: Snapshot, world: World) returns (records: Option<seq<Record>>)
      modifies this, proc
      ensures snapshot.ReadError? ==>
        records == None && prev == old(prev) && prevTime == old(prevTime) && proc.cache == old(proc.cache)
      ensures snapshot.Snapshot? ==>
        && records.Some? && prevTime == Some(now)
        && prev == snapshot.entries - Reaped(snapshot.entries.Keys, world)
        && proc.cache == CacheAfter(old(proc.cache), world.names, snapshot.entries.Keys)
                         - Reaped(snapshot.entries.Keys, world)
        && Lists(records.value, RecordsOf(snapshot.entries, old(prev), ElapsedOf(old(prevTime), now),
                                          old(proc.cache), world.names))
        && (forall r :: r in records.value ==>
              r.lastInterval == if old(prevTime).Some? then now - old(prevTime).value else 0)
        && (forall pid :: pid in prev <==>
              pid in snapshot.entries && (pid in world.alive || pid in world.undeletable))
    {
      if snapshot.ReadError? {
        return None;
      }
      var current := snapshot.entries;
      var elapsed := 0;
      if prevTime.Some? {
        elapsed := now - prevTime.value;
      }
      var list, dead := BuildAll(current, elapsed, world);
      assert Deleted(dead, world.undeletable) == Reaped(current.Keys, world);
      current := Reap(dead, current, world);
      prev := current;
      prevTime := Some(now);
      return Some(list);
    }
  }

  // ----- reading the per-CPU map in batches

  /** One batch lookup: its keys, ncpu values for each of them in one flat list, and how it ended. */
  datatype Batch = Batch(keys: seq<nat>, vals: seq<Val>, end: End)
  datatype End = More | KeyNotExist | Failed

  lemma {:induction false} TimesMonotone(a: nat, b: nat, c: nat)
    requires a <= b
    ensures a * c <= b * c
  {
    if a < b {
      TimesMonotone(a, b - 1, c);
      assert b * c == (b - 1) * c + c;
    }
  }

  lemma SliceInside(i: nat, n: nat, ncpu: nat)
    requires i < n
    ensures 0 <= i * ncpu <= (i + 1) * ncpu <= n * ncpu
  {
    TimesMonotone(0, i, ncpu);
    TimesMonotone(i, i + 1, ncpu);
    TimesMonotone(i + 1, n, ncpu);
  }

  predicate WellFormed(batches: seq<Batch>, ncpu: nat)
  {
    forall b :: b in batches ==> |b.vals| == |b.keys| * ncpu
  }

  /** One key with its own values, one for each CPU. */
  datatype Item = Item(key: nat, vals: seq<Val>)

  function ItemAt(b: Batch, ncpu: nat, i: nat): Item
    requires i < |b.keys| && |b.vals| == |b.keys| * ncpu
  {
    SliceInside(i, |b.keys|, ncpu);
    Item(b.keys[i], b.vals[i * ncpu..(i + 1) * ncpu])
  }

  function ItemsOf(b: Batch, ncpu: nat): seq<Item>
    requires |b.vals| == |b.keys| * ncpu
  {
    seq(|b.keys|, i requires 0 <= i < |b.keys| => ItemAt(b, ncpu, i))
  }

  /** The items of all batches up to the one that ends the reading, however they are cut into batches. */
  function ItemsRead(batches: seq<Batch>, ncpu: nat): seq<Item>
    requires WellFormed(batches, ncpu)
    decreases batches
  {
    if batches == [] then []
    else ItemsOf(batches[0], ncpu) + (if batches[0].end.More? then ItemsRead(batches[1..], ncpu) else [])
  }

  /** The reading comes to the end of the map, which is reported as a missing key, before it fails. */
  predicate ReachesEnd(batches: seq<Batch>)
    decreases batches
  {
    batches != [] &&
    match batches[0].end
    case KeyNotExist => true
    case Failed => false
    case More => ReachesEnd(batches[1..])
  }

  predicate LastOfItsKey(items: seq<Item>, i: nat)
    requires i < |items|
  {
    forall j :: i < j < |items| ==> items[j].key != items[i].key
  }

  /** Each key that was read has the sum over its own CPUs' values, the last ones if it came more than once. */
  ghost predicate SumsUp(m: map<nat, Val>, items: seq<Item>)
  {
    && (forall i :: 0 <= i < |items| && LastOfItsKey(items, i) ==>
          items[i].key in m && m[items[i].key] == SumCpusOf(items[i].vals))
    && (forall key :: key in m ==> exists i :: 0 <= i < |items| && items[i].key == key)
  }

  lemma SumsUpNext(m: map<nat, Val>, items: seq<Item>, item: Item)
    requires SumsUp(m, items)
    ensures SumsUp(m[item.key := SumCpusOf(item.vals)], items + [item])
  {
    var m', items' := m[item.key := SumCpusOf(item.vals)], items + [item];
    forall i | 0 <= i < |items'| && LastOfItsKey(items', i)
      ensures items'[i].key in m' && m'[items'[i].key] == SumCpusOf(items'[i].vals)
    {
      if i < |items| {
        assert items'[|items|] == item;
        assert forall j :: i < j < |items| ==> items'[j] == items[j];
        assert LastOfItsKey(items, i);
      }
    }
    forall key | key in m'
      ensures exists i :: 0 <= i < |items'| && items'[i].key == key
    {
      if key == item.key {
        assert items'[|items|].key == key;
      } else {
        var i :| 0 <= i < |items| && items[i].key == key;
        assert items'[i].key == key;
      }
    }
  }

  /** The loop over one batch. */
  method MergeBatch(m: map<nat, Val>, b: Batch, ncpu: nat, ghost items: seq<Item>) returns (result: map<nat, Val>)
    requires |b.vals| == |b.keys| * ncpu && SumsUp(m, items)
    ensures SumsUp(result, items + ItemsOf(b, ncpu))
  {
    result := m;
    assert items + ItemsOf(b, ncpu)[..0] == items;
    for i := 0 to |b.keys|
      invariant SumsUp(result, items + ItemsOf(b, ncpu)[..i])
    {
      SliceInside(i, |b.keys|, ncpu);
      var sum := SumCPUs(b.vals[i * ncpu..(i + 1) * ncpu]);
      SumsUpNext(result, items + ItemsOf(b, ncpu)[..i], ItemAt(b, ncpu, i));
      assert items + ItemsOf(b, ncpu)[..i + 1] == items + ItemsOf(b, ncpu)[..i] + [ItemAt(b, ncpu, i)];
      result := result[b.keys[i] := sum];
    }
    assert ItemsOf(b, ncpu)[..|b.keys|] == ItemsOf(b, ncpu);
  }

  lemma Rest(batches: seq<Batch>, j: nat, ncpu: nat)
    requires j <= |batches| && WellFormed(batches, ncpu)
    ensures WellFormed(batches[j..], ncpu)
  {
  }

  /** What is left to read after one more batch. */
  lemma ReadNext(batches: seq<Batch>, j: nat, ncpu: nat, items: seq<Item>)
    requires j < |batches| && WellFormed(batches, ncpu)
    requires WellFormed(batches[j..], ncpu) && WellFormed(batches[j + 1..], ncpu)
    ensures var b := batches[j];
            && |b.vals| == |b.keys| * ncpu
            && items + ItemsRead(batches[j..], ncpu)
               == items + ItemsOf(b, ncpu) + (if b.end.More? then ItemsRead(batches[j + 1..], ncpu) else [])
            && (b.end.More? ==> (ReachesEnd(batches[j..]) <==> ReachesEnd(batches[j + 1..])))
            && (!b.end.More? ==> (ReachesEnd(batches[j..]) <==> b.end.KeyNotExist?))
  {
    assert batches[j..][0] == batches[j] && batches[j..][1..] == batches[j + 1..];
    assert batches[j] in batches;
    var read := ItemsOf(batches[j], ncpu);
    var rest := if batches[j].end.More? then ItemsRead(batches[j + 1..], ncpu) else [];
    assert items + (read + rest) == items + read + rest;
  }

  /** readMapBatch. batches is what the successive lookups return; running out of them counts as an error. */
  method ReadMapBatch(batches: seq<Batch>, ncpu: nat) returns (snapshot: Snapshot)
    requires WellFormed(batches, ncpu)
    ensures snapshot.Snapshot? <==> ReachesEnd(batches)
    ensures snapshot.Snapshot? ==> SumsUp(snapshot.entries, ItemsRead(batches, ncpu))
  {
    var result: map<nat, Val> := map[];
    ghost var items: seq<Item> := [];
    ghost var all := ItemsRead(batches, ncpu);
    var j := 0;
    assert batches[0..] == batches;
    while j < |batches|
      invariant j <= |batches| && WellFormed(batches[j..], ncpu)
      invariant ReachesEnd(batches[j..]) <==> ReachesEnd(batches)
      invariant items + ItemsRead(batches[j..], ncpu) == all
      invariant SumsUp(result, items)
    {
      var b := batches[j];
      Rest(batches, j + 1, ncpu);
      ReadNext(batches, j, ncpu, items);
      result := MergeBatch(result, b, ncpu, items);
      items := items + ItemsOf(b, ncpu);
      if b.end.KeyNotExist? {
        assert items + [] == items;
        return Snapshot(result);
      }
      if b.end.Failed? {
        return ReadError;
      }
      j := j + 1;
    }
    return ReadError;
  }

  /** So the snapshot depends on what was read alone, and not on how it was cut into batches. */
  lemma OneSnapshot(m: map<nat, Val>, m': map<nat, Val>, items: seq<Item>)
    requires SumsUp(m, items) && SumsUp(m', items)
    ensures m == m'
  {
    forall key | key in m || key in m'
      ensures key in m && key in m' && m[key] == m'[key]
    {
      var i :| 0 <= i < |items| && items[i].key == key;
      var last := LastWith(items, i);
    }
  }

  lemma {:induction false} LastWith(items: seq<Item>, i: nat) returns (last: nat)
    requires i < |items|
    ensures i <= last < |items| && items[last].key == items[i].key && LastOfItsKey(items, last)
  {
    last := i;
    for j := i + 1 to |items|
      invariant i <= last < j && items[last].key == items[i].key
      invariant forall k :: last < k < j ==> items[k].key != items[i].key
    {
      if items[j].key == items[i].key {
        last := j;
      }
    }
  }
}
