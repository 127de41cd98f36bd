/** The flow table that process_packet keeps (bpf/c/flows.c), one packet after the other. */
module FlowTable {
  import opened Wrappers
  import opened U64
  import opened Sums
  import opened Packet

  datatype FlowValue = FlowValue(packets: u64, bytes: u64, tsFirst: u64, tsLast: u64, flags: bv8)

  /** What an accepted frame amounts to: its key, its length, its flags and when it came. */
  datatype Unit = Unit(key: FlowKey, len: nat, flags: bv8, now: u64)

  /** What happens to the table: an accepted frame is counted, or the kernel evicts an entry. */
  datatype Step = Seen(unit: Unit) | Evicted(key: FlowKey)

  function Counted(flows: map<FlowKey, FlowValue>, u: Unit): map<FlowKey, FlowValue>
  {
    if u.key in flows then
      var v := flows[u.key];
      flows[u.key := FlowValue(WrapAdd(v.packets, 1), WrapAdd(v.bytes, u.len), v.tsFirst, u.now, v.flags | u.flags)]
    else flows[u.key := FlowValue(1, u.len % SIZE, u.now, u.now, u.flags)]
  }

  function Length(): Unit -> nat
  {
    (u: Unit) => u.len
  }

  function OrFlags(g: seq<Unit>): bv8
  {
    if g == [] then 0 else OrFlags(g[..|g| - 1]) | g[|g| - 1].flags
  }

  /** An entry summarizes its group: count, total length, first and last time, all flags seen. */
  ghost predicate Summarizes(v: FlowValue, g: seq<Unit>)
    requires g != []
  {
    && v.packets == |g| % SIZE
    && v.bytes == Sum(g, Length()) % SIZE
    && v.tsFirst == g[0].now
    && v.tsLast == g[|g| - 1].now
    && v.flags == OrFlags(g)
  }

  /** The units of one key since its entry was last evicted, in order. */
  function Since(log: seq<Step>, key: FlowKey): seq<Unit>
  {
    if log == [] then []
    else
      var before := Since(log[..|log| - 1], key);
      match log[|log| - 1]
      case Seen(u) => if u.key == key then before + [u] else before
      case Evicted(k) => if k == key then [] else before
  }

  /** All units of one key, in order. */
  function Traffic(log: seq<Step>, key: FlowKey): seq<Unit>
  {
    if log == [] then []
    else
      var before, last := Traffic(log[..|log| - 1], key), log[|log| - 1];
      if last.Seen? && last.unit.key == key then before + [last.unit] else before
  }

  /** The key's entry, if there is one, summarizes the group, and there is none for an empty group. */
  ghost predicate GroupedBy(flows: map<FlowKey, FlowValue>, g: seq<Unit>, key: FlowKey)
  {
    (key in flows <==> g != []) && (key in flows ==> Summarizes(flows[key], g))
  }

  /** The table is the group-by of what happened. */
  ghost predicate IsTable(flows: map<FlowKey, FlowValue>, log: seq<Step>)
  {
    forall key :: GroupedBy(flows, Since(log, key), key)
  }

  class Table {
    var flows: map<FlowKey, FlowValue>
    /** Everything that has happened. */
    ghost var log: seq<Step>

    ghost predicate Valid()
      reads this
    {
      IsTable(flows, log)
    }

    constructor ()
      ensures Valid() && log == []
    {
      flows, log := map[], [];
    }

    /** The second part of process_packet: update the entry in place, or insert one. */
    method Count(u: Unit)
      requires Valid()
      modifies this
      ensures Valid() && log == old(log) + [Seen(u)]
      ensures flows.Keys == old(flows).Keys + {u.key}
      ensures forall key :: key in old(flows) && key != u.key ==> flows[key] == old(flows)[key]
    {
      ghost var before := flows;
      if u.key in flows {
        var v := flows[u.key];
        var packets, bytes := WrapAdd(v.packets, 1), WrapAdd(v.bytes, u.len);
        var flags := v.flags | u.flags;
        flows := flows[u.key := FlowValue(packets, bytes, v.tsFirst, u.now, flags)];
      } else {
        flows := flows[u.key := FlowValue(1, u.len % SIZE, u.now, u.now, u.flags)];
      }
      TableNext(before, log, u);
      log := log + [Seen(u)];
    }

    /** process_packet. A frame that is not accepted changes nothing. */
    method ProcessPacket(frame: seq<byte>, now: u64, e: Endian)
      requires Valid()
      modifies this
      ensures Valid()
      ensures Accepted(frame) ==> log == old(log) + [Seen(Unit(KeyOf(frame, e), |frame|, FlagsOf(frame), now))]
      ensures !Accepted(frame) ==> log == old(log) && flows == old(flows)
    {
      var parsed := Parse(frame, e);
      if parsed.None? {
        return;
      }
      Count(Unit(parsed.value.key, |frame|, parsed.value.flags, now));
    }

    /** What the LRU map does on its own. */
    method Evict(key: FlowKey)
      requires Valid()
      modifies this
      ensures Valid() && log == old(log) + [Evicted(key)]
    {
      EvictedNext(flows, log, key);
      flows := flows - {key};
      log := log + [Evicted(key)];
    }
  }

  // ----- the table is a group-by

  lemma CountsNext(g: seq<Unit>, u: Unit)
    ensures WrapAdd(|g| % SIZE, 1) == |g + [u]| % SIZE
    ensures WrapAdd(Sum(g, Length()) % SIZE, u.len) == Sum(g + [u], Length()) % SIZE
  {
    SumAppend(g, u, Length());
    AddToWrapped(|g|, 1);
    AddToWrapped(Sum(g, Length()), u.len);
  }

  lemma FlagsNext(g: seq<Unit>, u: Unit)
    ensures OrFlags(g + [u]) == OrFlags(g) | u.flags
  {
    assert (g + [u])[..|g|] == g;
  }

  lemma SummarizesNext(v: FlowValue, g: seq<Unit>, u: Unit)
    requires g != [] && Summarizes(v, g)
    ensures Summarizes(FlowValue(WrapAdd(v.packets, 1), WrapAdd(v.bytes, u.len), v.tsFirst, u.now, v.flags | u.flags),
                       g + [u])
  {
    CountsNext(g, u);
    FlagsNext(g, u);
  }

  lemma SummarizesFirst(u: Unit)
    ensures Summarizes(FlowValue(1, u.len % SIZE, u.now, u.now, u.flags), [u])
  {
    SumAppend([], u, Length());
    assert [] + [u] == [u];
    assert [u][..0] == [];
    assert 0 | u.flags == u.flags;
  }

  lemma SinceNext(log: seq<Step>, step: Step, key: FlowKey)
    ensures Since(log + [step], key)
         == if step.Seen? && step.unit.key == key then Since(log, key) + [step.unit]
            else if step == Evicted(key) then [] else Since(log, key)
  {
    assert (log + [step])[..|log|] == log;
  }

  lemma GroupedNext(flows: map<FlowKey, FlowValue>, g: seq<Unit>, u: Unit)
    requires GroupedBy(flows, g, u.key)
    ensures GroupedBy(Counted(flows, u), g + [u], u.key)
  {
    if g == [] {
      assert g + [u] == [u];
      SummarizesFirst(u);
    } else {
      SummarizesNext(flows[u.key], g, u);
    }
  }

  lemma TableNext(flows: map<FlowKey, FlowValue>, log: seq<Step>, u: Unit)
    requires IsTable(flows, log)
    ensures IsTable(Counted(flows, u), log + [Seen(u)])
  {
    forall key
      ensures GroupedBy(Counted(flows, u), Since(log + [Seen(u)], key), key)
    {
      SinceNext(log, Seen(u), key);
      assert GroupedBy(flows, Since(log, key), key);
      if u.key == key {
        GroupedNext(flows, Since(log, key), u);
      }
    }
  }

  lemma EvictedNext(flows: map<FlowKey, FlowValue>, log: seq<Step>, evicted: FlowKey)
    requires IsTable(flows, log)
    ensures IsTable(flows - {evicted}, log + [Evicted(evicted)])
  {
    forall key
      ensures GroupedBy(flows - {evicted}, Since(log + [Evicted(evicted)], key), key)
    {
      SinceNext(log, Evicted(evicted), key);
      assert GroupedBy(flows, Since(log, key), key);
    }
  }

  /** The table after anything that can happen. */
  function TableAfter(log: seq<Step>): map<FlowKey, FlowValue>
  {
    if log == [] then map[]
    else
      var before := TableAfter(log[..|log| - 1]);
      match log[|log| - 1]
      case Seen(u) => Counted(before, u)
      case Evicted(key) => before - {key}
  }

  /**
   For any accepted frames and evictions: a key is in the table exactly when a frame with it has
   come since its last eviction, and its entry summarizes the frames since then.
   */
  lemma {:induction false} TableIsGroupBy(log: seq<Step>)
    ensures IsTable(TableAfter(log), log)
  {
    if log != [] {
      var front, last := log[..|log| - 1], log[|log| - 1];
      TableIsGroupBy(front);
      assert log == front + [last];
      match last
      case Seen(u) => TableNext(TableAfter(front), front, u);
      case Evicted(key) => EvictedNext(TableAfter(front), front, key);
    }
  }

  /** What happened determines the table. */
  lemma OneTable(flows: map<FlowKey, FlowValue>, flows': map<FlowKey, FlowValue>, log: seq<Step>)
    requires IsTable(flows, log) && IsTable(flows', log)
    ensures flows == flows'
  {
    forall key | key in flows || key in flows'
      ensures key in flows && key in flows' && flows[key] == flows'[key]
    {
      assert GroupedBy(flows, Since(log, key), key) && GroupedBy(flows', Since(log, key), key);
    }
  }
}

/** process_packet on several CPUs at once: the table's lookup and its insert are two steps. */
module FlowRace {
  import opened U64
  import opened Sums
  import opened Packet

  /** What the counters take from an accepted frame. */
  datatype Unit = Unit(key: FlowKey, len: nat)

  datatype Counter = Counter(packets: u64, bytes: u64)

  datatype Pc =
    | Idle
    | LookingUp(unit: Unit)
    | Inserting(unit: Unit)
    | AddingPacket(unit: Unit)
    | AddingBytes(unit: Unit)

  datatype Action =
    | Arrive(x: nat, frame: seq<byte>)
    | Lookup(x: nat)
    | Insert(x: nat, memory: bool)
    | AddPacket(x: nat)
    | AddBytes(x: nat)

  /**
   History: the accepted units, those counted as packets, those counted in bytes, those whose
   insert came too late, and those for whose insert the kernel had no memory.
   */
  datatype State = State(
    pcs: seq<Pc>,
    table: map<FlowKey, Counter>,
    accepted: seq<Unit>,
    counted: seq<Unit>,
    sized: seq<Unit>,
    failed: seq<Unit>,
    refused: seq<Unit>)

  function Init(n: nat): State
  {
    State(seq(n, _ => Idle), map[], [], [], [], [], [])
  }

  function StepArrive(s: State, x: nat, frame: seq<byte>, e: Endian): State
    requires x < |s.pcs|
  {
    if !s.pcs[x].Idle? || !Accepted(frame) then s
    else
      var unit := Unit(KeyOf(frame, e), |frame|);
      s.(pcs := s.pcs[x := LookingUp(unit)], accepted := s.accepted + [unit])
  }

  function StepLookup(s: State, x: nat): State
    requires x < |s.pcs|
  {
    if !s.pcs[x].LookingUp? then s
    else if s.pcs[x].unit.key in s.table then s.(pcs := s.pcs[x := AddingPacket(s.pcs[x].unit)])
    else s.(pcs := s.pcs[x := Inserting(s.pcs[x].unit)])
  }

  /** The insert with BPF_NOEXIST; when another CPU was faster, the packet is not counted. */
  function StepInsert(s: State, x: nat, memory: bool): State
    requires x < |s.pcs|
  {
    if !s.pcs[x].Inserting? then s
    else
      var unit := s.pcs[x].unit;
      if unit.key in s.table then s.(pcs := s.pcs[x := Idle], failed := s.failed + [unit])
      else if !memory then s.(pcs := s.pcs[x := Idle], refused := s.refused + [unit])
      else s.(pcs := s.pcs[x := Idle], table := s.table[unit.key := Counter(1, unit.len % SIZE)],
              counted := s.counted + [unit], sized := s.sized + [unit])
  }

  function StepAddPacket(s: State, x: nat): State
    requires x < |s.pcs|
  {
    if !s.pcs[x].AddingPacket? || s.pcs[x].unit.key !in s.table then s
    else
      var unit := s.pcs[x].unit;
      var c := s.table[unit.key];
      s.(pcs := s.pcs[x := AddingBytes(unit)], table := s.table[unit.key := Counter(WrapAdd(c.packets, 1), c.bytes)],
         counted := s.counted + [unit])
  }

  function StepAddBytes(s: State, x: nat): State
    requires x < |s.pcs|
  {
    if !s.pcs[x].AddingBytes? || s.pcs[x].unit.key !in s.table then s
    else
      var unit := s.pcs[x].unit;
      var c := s.table[unit.key];
      s.(pcs := s.pcs[x := Idle], table := s.table[unit.key := Counter(c.packets, WrapAdd(c.bytes, unit.len))],
         sized := s.sized + [unit])
  }

  function Step(s: State, a: Action, e: Endian): State
  {
    if a.x >= |s.pcs| then s
    else
      match a
      case Arrive(x, frame) => StepArrive(s, x, frame, e)
      case Lookup(x) => StepLookup(s, x)
      case Insert(x, memory) => StepInsert(s, x, memory)
      case AddPacket(x) => StepAddPacket(s, x)
      case AddBytes(x) => StepAddBytes(s, x)
  }

  /** n executors after a run. */
  function After(n: nat, actions: seq<Action>, e: Endian): State
  {
    if actions == [] then Init(n) else Step(After(n, actions[..|actions| - 1], e), actions[|actions| - 1], e)
  }

  function OfKey(key: FlowKey): Unit -> nat
  {
    (u: Unit) => if u.key == key then 1 else 0
  }

  function BytesOf(key: FlowKey): Unit -> nat
  {
    (u: Unit) => if u.key == key then u.len else 0
  }

  /** Accepted, and its packet neither counted nor given up. */
  function Pending(w: Unit -> nat): Pc -> nat
  {
    (pc: Pc) => PendingIn(w, pc)
  }

  function PendingIn(w: Unit -> nat, pc: Pc): nat
  {
    if pc.Idle? || pc.AddingBytes? then 0 else w(pc.unit)
  }

  /** Accepted, and its bytes neither counted nor given up. */
  function Unsized(w: Unit -> nat): Pc -> nat
  {
    (pc: Pc) => UnsizedIn(w, pc)
  }

  function UnsizedIn(w: Unit -> nat, pc: Pc): nat
  {
    if pc.Idle? then 0 else w(pc.unit)
  }

  /** About to insert the key, having missed it. */
  function MissedIt(key: FlowKey): Pc -> nat
  {
    (pc: Pc) => if pc.Inserting? && pc.unit.key == key then 1 else 0
  }

  ghost predicate ConservedPackets(s: State, w: Unit -> nat)
  {
    Sum(s.accepted, w) == Sum(s.counted, w) + Sum(s.failed, w) + Sum(s.refused, w) + Sum(s.pcs, Pending(w))
  }

  ghost predicate ConservedBytes(s: State, w: Unit -> nat)
  {
    Sum(s.accepted, w) == Sum(s.sized, w) + Sum(s.failed, w) + Sum(s.refused, w) + Sum(s.pcs, Unsized(w))
  }

  ghost predicate Conserved(s: State, w: Unit -> nat)
  {
    ConservedPackets(s, w) && ConservedBytes(s, w)
  }

  /** The entry holds what was counted, and the losses stay below the number of executors. */
  ghost predicate Tallied(s: State, key: FlowKey)
  {
    && (key in s.table ==>
          && s.table[key].packets == Sum(s.counted, OfKey(key)) % SIZE
          && s.table[key].bytes == Sum(s.sized, BytesOf(key)) % SIZE
          && Sum(s.failed, OfKey(key)) + Sum(s.pcs, MissedIt(key)) < |s.pcs|)
    && (key !in s.table ==>
          && Sum(s.counted, OfKey(key)) == 0 && Sum(s.sized, BytesOf(key)) == 0 && Sum(s.failed, OfKey(key)) == 0)
  }

  /** What a step enters into a log: one unit or nothing. */
  predicate Logs(log: seq<Unit>, log': seq<Unit>, u: Unit, entered: bool)
  {
    log' == if entered then log + [u] else log
  }

  lemma LogsSum(log: seq<Unit>, log': seq<Unit>, u: Unit, entered: bool, w: Unit -> nat)
    requires Logs(log, log', u, entered)
    ensures Sum(log', w) == Sum(log, w) + (if entered then w(u) else 0)
  {
    if entered {
      SumAppend(log, u, w);
    }
  }

  /** Which logs a unit enters in a step. */
  datatype Entered = Entered(accepted: bool, counted: bool, sized: bool, failed: bool, refused: bool)

  const NOWHERE := Entered(false, false, false, false, false)

  /** One executor, concerned with unit u, moves on. */
  ghost predicate Moves(s: State, s': State, x: nat, u: Unit, to: Entered)
    requires x < |s.pcs| == |s'.pcs|
  {
    && s'.pcs == s.pcs[x := s'.pcs[x]]
    && Logs(s.accepted, s'.accepted, u, to.accepted) && Logs(s.counted, s'.counted, u, to.counted)
    && Logs(s.sized, s'.sized, u, to.sized) && Logs(s.failed, s'.failed, u, to.failed)
    && Logs(s.refused, s'.refused, u, to.refused)
    && (s.pcs[x].Idle? || s.pcs[x].unit == u) && (s'.pcs[x].Idle? || s'.pcs[x].unit == u)
  }

  function Ones(b: bool): nat
  {
    if b then 1 else 0
  }

  /** Carried before and accepted, or carried after, counted and given up: as often the one as the other. */
  predicate Even(pc: Pc, pc': Pc, to: Entered)
  {
    && Ones(to.accepted) + Ones(!pc.Idle? && !pc.AddingBytes?)
       == Ones(to.counted) + Ones(to.failed) + Ones(to.refused) + Ones(!pc'.Idle? && !pc'.AddingBytes?)
    && Ones(to.accepted) + Ones(!pc.Idle?)
       == Ones(to.sized) + Ones(to.failed) + Ones(to.refused) + Ones(!pc'.Idle?)
  }

  lemma ConservedMove(s: State, s': State, x: nat, u: Unit, to: Entered, w: Unit -> nat)
    requires Conserved(s, w) && x < |s.pcs| == |s'.pcs| && Moves(s, s', x, u, to)
    requires Even(s.pcs[x], s'.pcs[x], to)
    ensures Conserved(s', w)
  {
    LogsSum(s.accepted, s'.accepted, u, to.accepted, w);
    LogsSum(s.counted, s'.counted, u, to.counted, w);
    LogsSum(s.sized, s'.sized, u, to.sized, w);
    LogsSum(s.failed, s'.failed, u, to.failed, w);
    LogsSum(s.refused, s'.refused, u, to.refused, w);
    SumUpdate(s.pcs, x, s'.pcs[x], Pending(w));
    SumUpdate(s.pcs, x, s'.pcs[x], Unsized(w));
  }

  lemma ConservedArrive(s: State, x: nat, frame: seq<byte>, e: Endian, w: Unit -> nat)
    requires Conserved(s, w) && x < |s.pcs|
    ensures Conserved(StepArrive(s, x, frame, e), w)
  {
    if s.pcs[x].Idle? && Accepted(frame) {
      var u := Unit(KeyOf(frame, e), |frame|);
      ConservedMove(s, StepArrive(s, x, frame, e), x, u, NOWHERE.(accepted := true), w);
    }
  }

  lemma ConservedLookup(s: State, x: nat, w: Unit -> nat)
    requires Conserved(s, w) && x < |s.pcs|
    ensures Conserved(StepLookup(s, x), w)
  {
    if s.pcs[x].LookingUp? {
      ConservedMove(s, StepLookup(s, x), x, s.pcs[x].unit, NOWHERE, w);
    }
  }

  lemma ConservedInsert(s: State, x: nat, memory: bool, w: Unit -> nat)
    requires Conserved(s, w) && x < |s.pcs|
    ensures Conserved(StepInsert(s, x, memory), w)
  {
    if s.pcs[x].Inserting? {
      var u := s.pcs[x].unit;
      var late := u.key in s.table;
      var made := !late && memory;
      ConservedMove(s, StepInsert(s, x, memory), x, u, Entered(false, made, made, late, !late && !memory), w);
    }
  }

  lemma ConservedAddPacket(s: State, x: nat, w: Unit -> nat)
    requires Conserved(s, w) && x < |s.pcs|
    ensures Conserved(StepAddPacket(s, x), w)
  {
    if s.pcs[x].AddingPacket? && s.pcs[x].unit.key in s.table {
      ConservedMove(s, StepAddPacket(s, x), x, s.pcs[x].unit, NOWHERE.(counted := true), w);
    }
  }

  lemma ConservedAddBytes(s: State, x: nat, w: Unit -> nat)
    requires Conserved(s, w) && x < |s.pcs|
    ensures Conserved(StepAddBytes(s, x), w)
  {
    if s.pcs[x].AddingBytes? && s.pcs[x].unit.key in s.table {
      ConservedMove(s, StepAddBytes(s, x), x, s.pcs[x].unit, NOWHERE.(sized := true), w);
    }
  }

  lemma {:induction false} ConservedStep(s: State, a: Action, e: Endian, w: Unit -> nat)
    requires Conserved(s, w)
    ensures Conserved(Step(s, a, e), w)
  {
    if a.x < |s.pcs| {
      match a
      case Arrive(x, frame) => ConservedArrive(s, x, frame, e, w);
      case Lookup(x) => ConservedLookup(s, x, w);
      case Insert(x, memory) => ConservedInsert(s, x, memory, w);
      case AddPacket(x) => ConservedAddPacket(s, x, w);
      case AddBytes(x) => ConservedAddBytes(s, x, w);
    }
  }

  lemma TalliedFirstHere(s: State, x: nat)
    requires x < |s.pcs| && s.pcs[x].Inserting? && s.pcs[x].unit.key !in s.table && Tallied(s, s.pcs[x].unit.key)
    ensures Tallied(StepInsert(s, x, true), s.pcs[x].unit.key)
  {
    var unit, key := s.pcs[x].unit, s.pcs[x].unit.key;
    SumUpdate(s.pcs, x, Idle, MissedIt(key));
    SumAppend(s.counted, unit, OfKey(key));
    SumAppend(s.sized, unit, BytesOf(key));
    SumAtMostLength(s.pcs, MissedIt(key));
  }

  lemma TalliedFirstElsewhere(s: State, x: nat, key: FlowKey)
    requires x < |s.pcs| && s.pcs[x].Inserting? && s.pcs[x].unit.key !in s.table && Tallied(s, key)
    requires key != s.pcs[x].unit.key
    ensures Tallied(StepInsert(s, x, true), key)
  {
    var unit := s.pcs[x].unit;
    SumUpdate(s.pcs, x, Idle, MissedIt(key));
    SumAppend(s.counted, unit, OfKey(key));
    SumAppend(s.sized, unit, BytesOf(key));
  }

  lemma TalliedFirst(s: State, x: nat, key: FlowKey)
    requires Tallied(s, key) && x < |s.pcs| && s.pcs[x].Inserting? && s.pcs[x].unit.key !in s.table
    ensures Tallied(StepInsert(s, x, true), key)
  {
    if key == s.pcs[x].unit.key {
      TalliedFirstHere(s, x);
    } else {
      TalliedFirstElsewhere(s, x, key);
    }
  }

  lemma TalliedLate(s: State, x: nat, memory: bool, key: FlowKey)
    requires Tallied(s, key) && x < |s.pcs| && s.pcs[x].Inserting? && s.pcs[x].unit.key in s.table
    ensures Tallied(StepInsert(s, x, memory), key)
  {
    SumUpdate(s.pcs, x, Idle, MissedIt(key));
    SumAppend(s.failed, s.pcs[x].unit, OfKey(key));
  }

  lemma TalliedInsert(s: State, x: nat, memory: bool, key: FlowKey)
    requires Tallied(s, key) && x < |s.pcs| && s.pcs[x].Inserting?
    ensures Tallied(StepInsert(s, x, memory), key)
  {
    if s.pcs[x].unit.key in s.table {
      TalliedLate(s, x, memory, key);
    } else if memory {
      TalliedFirst(s, x, key);
    } else {
      TalliedQuiet(s, StepInsert(s, x, false), x, key);
    }
  }

  lemma TalliedAddPacket(s: State, x: nat, key: FlowKey)
    requires Tallied(s, key) && x < |s.pcs|
    ensures Tallied(StepAddPacket(s, x), key)
  {
    if s.pcs[x].AddingPacket? {
      var unit := s.pcs[x].unit;
      SumUpdate(s.pcs, x, AddingBytes(unit), MissedIt(key));
      SumAppend(s.counted, unit, OfKey(key));
      AddToWrapped(Sum(s.counted, OfKey(key)), 1);
    }
  }

  lemma TalliedAddBytes(s: State, x: nat, key: FlowKey)
    requires Tallied(s, key) && x < |s.pcs|
    ensures Tallied(StepAddBytes(s, x), key)
  {
    if s.pcs[x].AddingBytes? {
      var unit := s.pcs[x].unit;
      SumUpdate(s.pcs, x, Idle, MissedIt(key));
      SumAppend(s.sized, unit, BytesOf(key));
      AddToWrapped(Sum(s.sized, BytesOf(key)), unit.len);
    }
  }

  lemma TalliedQuiet(s: State, s': State, x: nat, key: FlowKey)
    requires Tallied(s, key) && x < |s.pcs| == |s'.pcs| && s'.pcs == s.pcs[x := s'.pcs[x]]
    requires s'.table == s.table && s'.counted == s.counted && s'.sized == s.sized && s'.failed == s.failed
    requires MissedIt(key)(s'.pcs[x]) <= MissedIt(key)(s.pcs[x]) || key !in s.table
    ensures Tallied(s', key)
  {
    SumUpdate(s.pcs, x, s'.pcs[x], MissedIt(key));
  }

  lemma TalliedStep(s: State, a: Action, e: Endian, key: FlowKey)
    requires Tallied(s, key)
    ensures Tallied(Step(s, a, e), key)
  {
    if a.x < |s.pcs| {
      match a
      case Arrive(x, frame) =>
        if s.pcs[x].Idle? && Accepted(frame) {
          TalliedQuiet(s, StepArrive(s, x, frame, e), x, key);
        }
      case Lookup(x) =>
        if s.pcs[x].LookingUp? {
          TalliedQuiet(s, StepLookup(s, x), x, key);
        }
      case Insert(x, memory) =>
        if s.pcs[x].Inserting? {
          TalliedInsert(s, x, memory, key);
        }
      case AddPacket(x) => TalliedAddPacket(s, x, key);
      case AddBytes(x) => TalliedAddBytes(s, x, key);
    }
  }

  lemma RaceInit(n: nat, key: FlowKey, w: Unit -> nat)
    ensures Conserved(Init(n), w) && Tallied(Init(n), key)
  {
    SumZero(Init(n).pcs, Pending(w));
    SumZero(Init(n).pcs, Unsized(w));
  }

  lemma AfterNext(n: nat, actions: seq<Action>, a: Action, e: Endian)
    ensures After(n, actions + [a], e) == Step(After(n, actions, e), a, e)
  {
    assert (actions + [a])[..|actions|] == actions;
  }

  lemma PcsStay(s: State, a: Action, e: Endian)
    ensures |Step(s, a, e).pcs| == |s.pcs|
  {
  }

  lemma {:induction false} RaceRun(n: nat, actions: seq<Action>, e: Endian, key: FlowKey, w: Unit -> nat)
    ensures |After(n, actions, e).pcs| == n
    ensures Conserved(After(n, actions, e), w) && Tallied(After(n, actions, e), key)
  {
    if actions == [] {
      RaceInit(n, key, w);
    } else {
      var front, a := actions[..|actions| - 1], actions[|actions| - 1];
      RaceRun(n, front, e, key, w);
      PcsStay(After(n, front, e), a, e);
      ConservedStep(After(n, front, e), a, e, w);
      TalliedStep(After(n, front, e), a, e, key);
      AfterNext(n, front, a, e);
      assert actions == front + [a];
    }
  }

  /** What was given up because an insert failed. */
  function Missing(s: State, w: Unit -> nat): nat
  {
    Sum(s.failed, w) + Sum(s.refused, w)
  }

  ghost predicate Bounded(s: State, key: FlowKey)
  {
    && (Sum(s.failed, OfKey(key)) > 0 ==> Sum(s.failed, OfKey(key)) < |s.pcs|)
    && (key in s.table ==>
          && s.table[key].packets
             == (Sum(s.accepted, OfKey(key)) - Missing(s, OfKey(key)) - Sum(s.pcs, Pending(OfKey(key)))) % SIZE
          && s.table[key].bytes
             == (Sum(s.accepted, BytesOf(key)) - Missing(s, BytesOf(key)) - Sum(s.pcs, Unsized(BytesOf(key)))) % SIZE)
    && (key !in s.table ==>
          Sum(s.accepted, OfKey(key)) == Sum(s.refused, OfKey(key)) + Sum(s.pcs, Pending(OfKey(key))))
  }

  lemma TalliedBounds(s: State, key: FlowKey)
    requires ConservedPackets(s, OfKey(key)) && ConservedBytes(s, BytesOf(key)) && Tallied(s, key)
    ensures Bounded(s, key)
  {
    if key in s.table {
      var packets, bytes := OfKey(key), BytesOf(key);
      assert Sum(s.counted, packets) == Sum(s.accepted, packets) - Missing(s, packets) - Sum(s.pcs, Pending(packets));
      assert Sum(s.sized, bytes) == Sum(s.accepted, bytes) - Missing(s, bytes) - Sum(s.pcs, Unsized(bytes));
    }
  }

  /**
   n executors at any speeds: for each key, accepted packets are the counted ones, the failed
   inserts and those still under way; bytes likewise. As long as the kernel finds memory an
   insert fails only because another came first, and fewer than n inserts ever do.
   */
  lemma {:induction false} InsertRaceLosesFewerThanN(n: nat, actions: seq<Action>, e: Endian, key: FlowKey)
    ensures |After(n, actions, e).pcs| == n && Bounded(After(n, actions, e), key)
    ensures (forall a :: a in actions && a.Insert? ==> a.memory) ==> After(n, actions, e).refused == []
  {
    RaceRun(n, actions, e, key, OfKey(key));
    RaceRun(n, actions, e, key, BytesOf(key));
    TalliedBounds(After(n, actions, e), key);
    if forall a :: a in actions && a.Insert? ==> a.memory {
      NoneRefused(n, actions, e);
    }
  }

  lemma {:induction false} NoneRefused(n: nat, actions: seq<Action>, e: Endian)
    requires forall a :: a in actions && a.Insert? ==> a.memory
    ensures After(n, actions, e).refused == []
  {
    if actions != [] {
      NoneRefused(n, actions[..|actions| - 1], e);
      assert actions[|actions| - 1] in actions;
    }
  }

  // ----- the bound is reached

  /** All executors get a frame, then all look its key up, then all insert. */
  function Schedule(n: nat, frame: seq<byte>, k: nat): (actions: seq<Action>)
    requires k <= 3 * n
    ensures |actions| == k
  {
    if k == 0 then [] else Schedule(n, frame, k - 1) + [Turn(n, frame, k - 1)]
  }

  function Turn(n: nat, frame: seq<byte>, m: nat): Action
  {
    if m < n then Arrive(m, frame) else if m < 2 * n then Lookup(m - n) else Insert(m - 2 * n, true)
  }

  function PcAfter(x: nat, n: nat, k: nat, u: Unit): Pc
  {
    if x + 2 * n < k then Idle else if x + n < k then Inserting(u) else if x < k then LookingUp(u) else Idle
  }

  ghost predicate Scheduled(s: State, n: nat, k: nat, u: Unit)
  {
    && |s.pcs| == n
    && (forall x :: 0 <= x < n ==> s.pcs[x] == PcAfter(x, n, k, u))
    && (u.key in s.table <==> k > 2 * n)
    && |s.failed| == (if k > 2 * n then k - 2 * n - 1 else 0)
    && (forall x :: x in s.failed ==> x == u)
  }

  lemma ScheduledArrive(s: State, n: nat, m: nat, frame: seq<byte>, e: Endian)
    requires m < n && Accepted(frame) && Scheduled(s, n, m, Unit(KeyOf(frame, e), |frame|))
    ensures Scheduled(StepArrive(s, m, frame, e), n, m + 1, Unit(KeyOf(frame, e), |frame|))
  {
  }

  lemma ScheduledLookup(s: State, n: nat, m: nat, u: Unit)
    requires n <= m < 2 * n && Scheduled(s, n, m, u)
    ensures Scheduled(StepLookup(s, m - n), n, m + 1, u)
  {
    assert s.pcs[m - n] == LookingUp(u);
  }

  lemma ScheduledInsert(s: State, n: nat, m: nat, u: Unit)
    requires 2 * n <= m < 3 * n && Scheduled(s, n, m, u)
    ensures Scheduled(StepInsert(s, m - 2 * n, true), n, m + 1, u)
  {
    assert s.pcs[m - 2 * n] == Inserting(u);
  }

  /** The frame counts as this unit. */
  predicate CountsAs(frame: seq<byte>, e: Endian, u: Unit)
  {
    Accepted(frame) && u == Unit(KeyOf(frame, e), |frame|)
  }

  lemma ScheduledStep(s: State, n: nat, m: nat, frame: seq<byte>, e: Endian, u: Unit)
    requires m < 3 * n && CountsAs(frame, e, u) && Scheduled(s, n, m, u)
    ensures Scheduled(Step(s, Turn(n, frame, m), e), n, m + 1, u)
  {
    if m < n {
      ScheduledArrive(s, n, m, frame, e);
    } else if m < 2 * n {
      ScheduledLookup(s, n, m, u);
    } else {
      ScheduledInsert(s, n, m, u);
    }
  }

  lemma ScheduledInit(n: nat, u: Unit)
    ensures Scheduled(Init(n), n, 0, u)
  {
  }

  lemma ScheduleNext(n: nat, frame: seq<byte>, k: nat, e: Endian, s: State)
    requires k < 3 * n && s == After(n, Schedule(n, frame, k), e)
    ensures After(n, Schedule(n, frame, k + 1), e) == Step(s, Turn(n, frame, k), e)
  {
    AfterNext(n, Schedule(n, frame, k), Turn(n, frame, k), e);
  }

  lemma ScheduledNext(n: nat, frame: seq<byte>, k: nat, e: Endian, u: Unit, s: State, s': State)
    requires k < 3 * n && CountsAs(frame, e, u)
    requires s == After(n, Schedule(n, frame, k), e) && s' == After(n, Schedule(n, frame, k + 1), e)
    requires Scheduled(s, n, k, u)
    ensures Scheduled(s', n, k + 1, u)
  {
    ScheduleNext(n, frame, k, e, s);
    ScheduledStep(s, n, k, frame, e, u);
  }

  lemma {:induction false} ScheduleRuns(n: nat, frame: seq<byte>, k: nat, e: Endian, u: Unit)
    requires k <= 3 * n && CountsAs(frame, e, u)
    ensures Scheduled(After(n, Schedule(n, frame, k), e), n, k, u)
  {
    if k == 0 {
      ScheduledInit(n, u);
    } else {
      ScheduleRuns(n, frame, k - 1, e, u);
      ScheduledNext(n, frame, k - 1, e, u, After(n, Schedule(n, frame, k - 1), e), After(n, Schedule(n, frame, k), e));
    }
  }

  lemma {:induction false} AllOfKey(units: seq<Unit>, u: Unit)
    requires forall x :: x in units ==> x == u
    ensures Sum(units, OfKey(u.key)) == |units|
  {
    if units != [] {
      var front := units[..|units| - 1];
      assert units[|units| - 1] in units;
      assert forall x :: x in front ==> x in units;
      AllOfKey(front, u);
    }
  }

  /** For every n there is a run of n executors in which n - 1 of n packets are not counted. */
  lemma {:induction false} LossBoundIsTight(n: nat, frame: seq<byte>, e: Endian)
    requires n > 0 && Accepted(frame)
    ensures Sum(After(n, Schedule(n, frame, 3 * n), e).failed, OfKey(KeyOf(frame, e))) == n - 1
  {
    var u := Unit(KeyOf(frame, e), |frame|);
    ScheduleRuns(n, frame, 3 * n, e, u);
    AllOfKey(After(n, Schedule(n, frame, 3 * n), e).failed, u);
  }
}
