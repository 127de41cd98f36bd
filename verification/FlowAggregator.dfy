/** The polling side of the flow table (internal/flows/aggregator.go). */
module FlowAggregator {
  import opened Wrappers
  import opened U64
  import opened Sums
  import opened Packet
  import opened Frames
  import opened FlowTable
  import opened Rtt

  /** dPackets and dBytes are what the rates are made of: each over the interval. */
  datatype FlowRecord = FlowRecord(
    srcAddr: Addr, dstAddr: Addr, srcPort: u16, dstPort: u16, proto: byte,
    value: FlowValue, dPackets: u64, dBytes: u64, rtt: Joined)

  /** A flow without a previous value has no rates yet. */
  function RecordOf(key: FlowKey, cur: FlowValue, prev: Option<FlowValue>, elapsed: int,
                    rtt: Option<map<FlowKey, RttSample>>, e: Endian): FlowRecord
  {
    var later := elapsed > 0 && prev.Some?;
    FlowRecord(SrcAddr(key), DstAddr(key), SrcPort(key, e), DstPort(key, e), key.proto, cur,
               if later then WrapSub(cur.packets, prev.value.packets) else 0,
               if later then WrapSub(cur.bytes, prev.value.bytes) else 0,
               JoinOf(rtt, key))
  }

  function RecordsOf(cur: map<FlowKey, FlowValue>, prev: map<FlowKey, FlowValue>, elapsed: int,
                     rtt: Option<map<FlowKey, RttSample>>, e: Endian): map<FlowKey, FlowRecord>
  {
    map key | key in cur :: RecordOf(key, cur[key], Get(prev, key), elapsed, rtt, e)
  }

  /** The list holds the records of the keys done, each once and in some order. */
  ghost predicate Listed(records: seq<FlowRecord>, all: map<FlowKey, FlowRecord>, order: seq<FlowKey>)
  {
    && |records| == |order|
    && (forall i, j :: 0 <= i < j < |order| ==> order[i] != order[j])
    && (forall i :: 0 <= i < |order| ==> order[i] in all && records[i] == all[order[i]])
  }

  class Aggregator {
    var prev: map<FlowKey, FlowValue>
    var prevTime: Option<int>

    constructor ()
      ensures prev == map[] && prevTime == None
    {
      prev, prevTime := map[], None;
    }

    /** flows is the snapshot, or None when reading failed; rtt likewise, but its failure does not fail the poll. */
    method Poll(now: int, flows: Option<map<FlowKey, FlowValue>>, rtt: Option<map<FlowKey, RttSample>>, e: Endian)
      returns (records: Option<seq<FlowRecord>>, ghost order: seq<FlowKey>)
      modifies this
      ensures flows.None? ==> records == None && prev == old(prev) && prevTime == old(prevTime)
      ensures flows.Some? ==>
        && records.Some? && prev == flows.value && prevTime == Some(now)
        && (forall key :: key in flows.value <==> key in order)
        && Listed(records.value,
                  RecordsOf(flows.value, old(prev), if old(prevTime).Some? then now - old(prevTime).value else 0,
                            rtt, e),
                  order)
    {
      order := [];
      if flows.None? {
        return None, order;
      }
      var current := flows.value;
      var elapsed := 0;
      if prevTime.Some? {
        elapsed := now - prevTime.value;
      }
      ghost var all := RecordsOf(current, prev, elapsed, rtt, e);
      var list: seq<FlowRecord> := [];
      var todo := current.Keys;
      while todo != {}
        invariant todo <= current.Keys
        invariant forall key :: key in current <==> key in todo || key in order
        invariant forall key :: key in order ==> key !in todo
        invariant Listed(list, all, order)
      {
        var key :| key in todo;
        var rec := RecordOf(key, current[key], Get(prev, key), elapsed, rtt, e);
        assert rec == all[key];
        list := list + [rec];
        order := order + [key];
        todo := todo - {key};
      }
      prev := current;
      prevTime := Some(now);
      return Some(list), order;
    }
  }

  // ----- what a record shows

  /** The addresses, ports and protocol of a connection. */
  predicate Names(rec: FlowRecord, t: FiveTuple)
  {
    && rec.srcAddr == (if t.v6 then V6(t.saddr) else V4(t.saddr)) && rec.srcPort == t.sport
    && rec.dstAddr == (if t.v6 then V6(t.daddr) else V4(t.daddr)) && rec.dstPort == t.dport
    && rec.proto == t.proto
  }

  /**
   From frames and sockets to records: the record of a connection names it, sums up its frames
   since its entry was last evicted, has no differences if the flow is new or no time has
   passed, and for TCP shows the last estimate of the socket that sends the frames, or else of
   the one that receives them.
   */
  lemma {:induction false} RecordShowsTheFlow(t: FiveTuple, f: Filler, log: seq<Step>, prev: map<FlowKey, FlowValue>,
          elapsed: int, calls: seq<Call>, e: Endian)
    requires t.Valid() && f.Fits(t)
    ensures Accepted(Encode(t, f))
    ensures var key := KeyOf(Encode(t, f), e);
            && key == TupleKey(t, e)
            && (key in TableAfter(log) ==>
                  var rtt := Some(RecordedAll(calls, e));
                  var rec := RecordOf(key, TableAfter(log)[key], Get(prev, key), elapsed, rtt, e);
                  && Names(rec, t)
                  && Since(log, key) != [] && Summarizes(rec.value, Since(log, key))
                  && (key !in prev || elapsed <= 0 ==> rec.dPackets == rec.dBytes == 0)
                  && (t.proto == 6 && EstimatesOf(calls, key, e) != [] ==> rec.rtt == LastEstimate(calls, key, e))
                  && (t.proto != 6 ==> rec.rtt == Joined(0, 0)))
  {
    EncodeThenParse(t, f, e);
    var key := KeyOf(Encode(t, f), e);
    TableIsGroupBy(log);
    assert GroupedBy(TableAfter(log), Since(log, key), key);
    JoinIs(calls, key, e);
  }

  // ----- what the differences mean

  lemma {:induction false} TrafficConcat(a: seq<Step>, b: seq<Step>, key: FlowKey)
    ensures Traffic(a + b, key) == Traffic(a, key) + Traffic(b, key)
  {
    if b == [] {
      assert a + b == a;
    } else {
      TrafficConcat(a, b[..|b| - 1], key);
      assert (a + b)[..|a + b| - 1] == a + b[..|b| - 1];
    }
  }

  /** An eviction forgets everything before it; otherwise what was there before counts as well. */
  lemma {:induction false} SinceConcat(a: seq<Step>, b: seq<Step>, key: FlowKey)
    ensures Since(a + b, key) == if Evicted(key) in b then Since(b, key) else Since(a, key) + Traffic(b, key)
    ensures |Since(b, key)| <= |Traffic(b, key)|
  {
    if b == [] {
      assert a + b == a;
    } else {
      var front, last := b[..|b| - 1], b[|b| - 1];
      SinceConcat(a, front, key);
      assert a + b == (a + front) + [last] && b == front + [last];
      SinceNext(a + front, last, key);
      SinceNext(front, last, key);
    }
  }

  /** What two polls report of a flow, given everything that happened before and between them. */
  function Reported(first: seq<Step>, more: seq<Step>, key: FlowKey, elapsed: int,
                    rtt: Option<map<FlowKey, RttSample>>, e: Endian): FlowRecord
    requires key in TableAfter(first) && key in TableAfter(first + more)
  {
    RecordOf(key, TableAfter(first + more)[key], Some(TableAfter(first)[key]), elapsed, rtt, e)
  }

  lemma InTable(log: seq<Step>, key: FlowKey)
    ensures key in TableAfter(log) <==> Since(log, key) != []
  {
    TableIsGroupBy(log);
    assert GroupedBy(TableAfter(log), Since(log, key), key);
  }

  /** The differences are those of the counts, and of the lengths, since the last eviction before either poll. */
  lemma DifferencesOf(first: seq<Step>, more: seq<Step>, key: FlowKey, elapsed: int,
                      rtt: Option<map<FlowKey, RttSample>>, e: Endian)
    requires key in TableAfter(first) && key in TableAfter(first + more) && elapsed > 0
    ensures var rec := Reported(first, more, key, elapsed, rtt, e);
            var was, cur := Since(first, key), Since(first + more, key);
            && rec.dPackets == WrapSub(|cur| % SIZE, |was| % SIZE)
            && rec.dBytes == WrapSub(Sum(cur, Length()) % SIZE, Sum(was, Length()) % SIZE)
  {
    TableIsGroupBy(first);
    TableIsGroupBy(first + more);
    assert GroupedBy(TableAfter(first), Since(first, key), key);
    assert GroupedBy(TableAfter(first + more), Since(first + more, key), key);
  }

  /** The same of two lists of units. */
  lemma GroupDifference(was: seq<Unit>, g: seq<Unit>)
    ensures WrapSub(|was + g| % SIZE, |was| % SIZE) == |g| % SIZE
    ensures WrapSub(Sum(was + g, Length()) % SIZE, Sum(was, Length()) % SIZE) == Sum(g, Length()) % SIZE
  {
    SumConcat(was, g, Length());
    DifferenceOfSum(|was|, |g|);
    DifferenceOfSum(Sum(was, Length()), Sum(g, Length()));
  }

  /**
   As long as the entry is not evicted, the differences the rates are made of are the packets
   and bytes of the flow's frames between the two polls, also when a counter wrapped around.
   Other entries may be evicted.
   */
  lemma {:induction false} DeltaIsTraffic(first: seq<Step>, more: seq<Step>, key: FlowKey, elapsed: int,
          rtt: Option<map<FlowKey, RttSample>>, e: Endian)
    requires key in TableAfter(first) && Evicted(key) !in more && elapsed > 0
    ensures key in TableAfter(first + more)
    ensures var rec, g := Reported(first, more, key, elapsed, rtt, e), Traffic(more, key);
            rec.dPackets == |g| % SIZE && rec.dBytes == Sum(g, Length()) % SIZE
  {
    InTable(first, key);
    InTable(first + more, key);
    SinceConcat(first, more, key);
    DifferencesOf(first, more, key, elapsed, rtt, e);
    GroupDifference(Since(first, key), Traffic(more, key));
  }

  lemma DifferenceIs(cur: u64, prev: u64)
    ensures WrapSub(cur, prev) == cur <==> prev == 0
    ensures WrapSub(cur, prev) > cur <==> cur < prev
    ensures cur < prev ==> WrapSub(cur, prev) == SIZE - (prev - cur)
  {
  }

  /**
   When the entry was evicted and made again between the polls, the previous counter is of a
   former entry. The packet difference is what the new entry counted only if that counter was
   zero; it is more than the new entry counted, an overflow, exactly if that counter was larger,
   and otherwise less.
   */
  lemma {:induction false} RecreatedEntry(first: seq<Step>, more: seq<Step>, key: FlowKey, elapsed: int,
          rtt: Option<map<FlowKey, RttSample>>, e: Endian)
    requires key in TableAfter(first) && key in TableAfter(first + more)
    requires Evicted(key) in more && elapsed > 0
    ensures var d := Reported(first, more, key, elapsed, rtt, e).dPackets;
            var was, g := |Since(first, key)| % SIZE, |Since(more, key)| % SIZE;
            && (d == g <==> was == 0)
            && (d > g <==> g < was)
            && (g < was ==> d == SIZE - (was - g))
  {
    SinceConcat(first, more, key);
    DifferencesOf(first, more, key, elapsed, rtt, e);
    DifferenceIs(|Since(more, key)| % SIZE, |Since(first, key)| % SIZE);
  }

  /** The same of numbers: of was counted before, all lost, and traffic, the new entry has counted g. */
  lemma NeverByChance(was: nat, g: nat, traffic: nat)
    requires 0 < was && g <= traffic && was + traffic < SIZE
    ensures WrapSub(g % SIZE, was % SIZE) != traffic
  {
    assert g % SIZE == g && was % SIZE == was;
  }

  /**
   With fewer than 2^64 frames, the packet difference is the flow's traffic exactly when its
   entry was not evicted.
   */
  lemma {:induction false} DeltaExactlyUnlessEvicted(first: seq<Step>, more: seq<Step>, key: FlowKey, elapsed: int,
          rtt: Option<map<FlowKey, RttSample>>, e: Endian)
    requires key in TableAfter(first) && key in TableAfter(first + more) && elapsed > 0
    requires |Traffic(first + more, key)| < SIZE
    ensures Reported(first, more, key, elapsed, rtt, e).dPackets == |Traffic(more, key)| <==> Evicted(key) !in more
  {
    TrafficConcat(first, more, key);
    if Evicted(key) !in more {
      DeltaIsTraffic(first, more, key, elapsed, rtt, e);
    } else {
      InTable(first, key);
      SinceConcat(first, more, key);
      SinceConcat(more, first, key);
      DifferencesOf(first, more, key, elapsed, rtt, e);
      NeverByChance(|Since(first, key)|, |Since(more, key)|, |Traffic(more, key)|);
    }
  }

  /** n frames of one flow. */
  function Times(u: Unit, n: nat): seq<Step>
  {
    seq(n, _ => Seen(u))
  }

  lemma {:induction false} TimesCount(u: Unit, n: nat)
    ensures |Since(Times(u, n), u.key)| == |Traffic(Times(u, n), u.key)| == n
  {
    if n > 0 {
      TimesCount(u, n - 1);
      assert Times(u, n)[..n - 1] == Times(u, n - 1);
    }
  }

  /**
   Such runs: n frames, a poll, an eviction, m frames, a poll. After 2 and then 1 the difference
   is 2^64 - 1, after 1 and then 5 it is 4.
   */
  lemma {:induction false} EvictionMisreports(u: Unit, n: nat, m: nat, elapsed: int,
          rtt: Option<map<FlowKey, RttSample>>, e: Endian)
    requires 0 < n < SIZE && 0 < m < SIZE && elapsed > 0
    ensures var first, more := Times(u, n), [Evicted(u.key)] + Times(u, m);
            && u.key in TableAfter(first) && u.key in TableAfter(first + more)
            && |Traffic(more, u.key)| == m
            && (var d := Reported(first, more, u.key, elapsed, rtt, e).dPackets;
                d != m && d == if n <= m then m - n else SIZE - (n - m))
  {
    var first, more := Times(u, n), [Evicted(u.key)] + Times(u, m);
    TimesCount(u, n);
    EvictedTimes(u, m);
    assert more[0] == Evicted(u.key);
    SinceConcat(first, more, u.key);
    InTable(first, u.key);
    InTable(first + more, u.key);
    DifferencesOf(first, more, u.key, elapsed, rtt, e);
    Small(n);
    Small(m);
  }

  lemma Small(n: nat)
    requires n < SIZE
    ensures n % SIZE == n
  {
  }

  lemma EvictedTimes(u: Unit, m: nat)
    ensures var more := [Evicted(u.key)] + Times(u, m);
            |Since(more, u.key)| == |Traffic(more, u.key)| == m
  {
    var evicted: seq<Step> := [Evicted(u.key)];
    TimesCount(u, m);
    TimesStay(u, m);
    SinceConcat(evicted, Times(u, m), u.key);
    TrafficConcat(evicted, Times(u, m), u.key);
    assert evicted[..0] == [];
  }

  lemma TimesStay(u: Unit, m: nat)
    ensures Evicted(u.key) !in Times(u, m)
  {
  }
}
