/** Round-trip samples keyed by socket, and their join with flows (bpf/c/flows.c, internal/flows/aggregator.go). */
module Rtt {
  import opened Wrappers
  import opened U64
  import opened Packet
  import opened Frames

  /** The fields of a socket that record_rtt reads. Addresses and the peer's port are in network order, num is not. */
  datatype Socket = Socket(family: nat, num: u16, dportBe: u16, rcvSaddr: Address, daddr: Address, srtt: nat, mdev: nat)

  datatype RttSample = RttSample(srttUs: nat, mdevUs: nat, tsLast: u64, samples: u64)

  /** The key a socket is recorded under, or None for other families. An IPv4 socket has four address bytes. */
  function SocketKey(sk: Socket, e: Endian): (key: Option<FlowKey>)
    ensures key.Some? <==> sk.family == 2 || sk.family == 10
    ensures key.Some? ==> key.value.family as int == sk.family && key.value.proto == 6
  {
    var sport := Swap16(sk.num, e);
    if sk.family == AF_INET then
      Some(FlowKey(AF_INET, IPPROTO_TCP, sport, sk.dportBe, Padded(sk.rcvSaddr[..4]), Padded(sk.daddr[..4])))
    else if sk.family == AF_INET6 then
      Some(FlowKey(AF_INET6, IPPROTO_TCP, sport, sk.dportBe, sk.rcvSaddr, sk.daddr))
    else None
  }

  /** What a call adds to the table: nothing for other families or before the first estimate. */
  function SampleAt(prev: Option<RttSample>, sk: Socket, now: u64): RttSample
  {
    RttSample(sk.srtt / 8, sk.mdev / 4, now, if prev.Some? then WrapAdd(prev.value.samples, 1) else 1)
  }

  class RttTable {
    var samples: map<FlowKey, RttSample>

    constructor ()
      ensures samples == map[]
    {
      samples := map[];
    }

    /** record_rtt, called for every established-state segment a socket receives. */
    method RecordRtt(sk: Socket, now: u64, e: Endian)
      modifies this
      ensures samples == Recorded(old(samples), sk, now, e)
      ensures (sk.family != 2 && sk.family != 10) || sk.srtt == 0 ==> samples == old(samples)
    {
      var sport := Swap16(sk.num, e);
      var key: FlowKey;
      if sk.family == AF_INET {
        key := FlowKey(AF_INET, IPPROTO_TCP, sport, sk.dportBe, Padded(sk.rcvSaddr[..4]), Padded(sk.daddr[..4]));
      } else if sk.family == AF_INET6 {
        key := FlowKey(AF_INET6, IPPROTO_TCP, sport, sk.dportBe, sk.rcvSaddr, sk.daddr);
      } else {
        return;
      }
      if sk.srtt == 0 {
        return;
      }
      var srtt, mdev := sk.srtt / 8, sk.mdev / 4;
      if key in samples {
        var existing := samples[key];
        samples := samples[key := RttSample(srtt, mdev, now, WrapAdd(existing.samples, 1))];
      } else {
        samples := samples[key := RttSample(srtt, mdev, now, 1)];
      }
    }
  }

  function Get<K, V>(m: map<K, V>, k: K): Option<V>
  {
    if k in m then Some(m[k]) else None
  }

  function Recorded(samples: map<FlowKey, RttSample>, sk: Socket, now: u64, e: Endian): map<FlowKey, RttSample>
  {
    var key := SocketKey(sk, e);
    if key.None? || sk.srtt == 0 then samples
    else samples[key.value := SampleAt(Get(samples, key.value), sk, now)]
  }

  datatype Call = Call(sk: Socket, now: u64)

  function RecordedAll(calls: seq<Call>, e: Endian): map<FlowKey, RttSample>
  {
    if calls == [] then map[]
    else Recorded(RecordedAll(calls[..|calls| - 1], e), calls[|calls| - 1].sk, calls[|calls| - 1].now, e)
  }

  /** The calls that count for a key. */
  predicate Estimates(c: Call, key: FlowKey, e: Endian)
  {
    SocketKey(c.sk, e) == Some(key) && c.sk.srtt != 0
  }

  function EstimatesOf(calls: seq<Call>, key: FlowKey, e: Endian): seq<Call>
  {
    if calls == [] then []
    else
      var last := calls[|calls| - 1];
      EstimatesOf(calls[..|calls| - 1], key, e) + (if Estimates(last, key, e) then [last] else [])
  }

  /** After any calls a key holds the last estimate made for it, unscaled, and how many there were. */
  lemma {:induction false} LastEstimateWins(calls: seq<Call>, key: FlowKey, e: Endian)
    ensures var samples, es := RecordedAll(calls, e), EstimatesOf(calls, key, e);
            && (key in samples <==> es != [])
            && (key in samples ==>
                  var last := es[|es| - 1];
                  samples[key] == RttSample(last.sk.srtt / 8, last.sk.mdev / 4, last.now, |es| % SIZE))
  {
    if calls != [] {
      var front, last := calls[..|calls| - 1], calls[|calls| - 1];
      LastEstimateWins(front, key, e);
      AddToWrapped(|EstimatesOf(front, key, e)|, 1);
    }
  }

  // ----- sockets and frames

  /** The socket at the local end of a connection, whose addresses the kernel keeps padded. */
  function SocketOf(t: FiveTuple, e: Endian, srtt: nat, mdev: nat): Socket
    requires t.Valid()
  {
    Socket(if t.v6 then 10 else 2, t.sport, Swap16(t.dport, e),
           Padded(t.saddr), Padded(t.daddr), srtt, mdev)
  }

  /**
   A TCP socket is recorded under exactly the key that the frames it sends are parsed to, and
   under the reverse of the key of the frames it receives, whatever else the frames hold.
   */
  lemma {:induction false} SocketMatchesItsFrames(t: FiveTuple, sent: Filler, received: Filler, e: Endian,
          srtt: nat, mdev: nat)
    requires t.Valid() && t.proto == 6 && sent.Fits(t) && received.Fits(t.Swapped())
    ensures Accepted(Encode(t, sent)) && Accepted(Encode(t.Swapped(), received))
    ensures SocketKey(SocketOf(t, e, srtt, mdev), e) == Some(KeyOf(Encode(t, sent), e))
    ensures SocketKey(SocketOf(t, e, srtt, mdev), e) == Some(Reverse(KeyOf(Encode(t.Swapped(), received), e)))
  {
    EncodeThenParse(t, sent, e);
    EncodeThenParse(t.Swapped(), received, e);
    KeyOfSwapped(t, e);
    AccessAddress(t.saddr);
    AccessAddress(t.daddr);
  }

  lemma ReverseInvolution(k: FlowKey)
    ensures Reverse(Reverse(k)) == k
  {
  }

  // ----- the join

  /** Smoothed round trip and deviation, both zero without a sample. */
  datatype Joined = Joined(srttUs: nat, mdevUs: nat)

  /** The forward key is tried first, then the reverse one; rtt is absent when the map could not be read. */
  function JoinOf(rtt: Option<map<FlowKey, RttSample>>, key: FlowKey): Joined
  {
    if rtt.None? || key.proto != IPPROTO_TCP then Joined(0, 0)
    else if key in rtt.value then Joined(rtt.value[key].srttUs, rtt.value[key].mdevUs)
    else if Reverse(key) in rtt.value then Joined(rtt.value[Reverse(key)].srttUs, rtt.value[Reverse(key)].mdevUs)
    else Joined(0, 0)
  }

  /**
   The two directions of a connection show the same round trip exactly when not both
   orientations are stored, or both were stored with the same estimate. Both are stored only
   when both ends of the connection are on this machine.
   */
  lemma DirectionsAgree(rtt: map<FlowKey, RttSample>, key: FlowKey)
    requires key.proto == 6
    ensures JoinOf(Some(rtt), key) == JoinOf(Some(rtt), Reverse(key)) <==>
            (key in rtt && Reverse(key) in rtt ==>
               rtt[key].srttUs == rtt[Reverse(key)].srttUs && rtt[key].mdevUs == rtt[Reverse(key)].mdevUs)
  {
    ReverseInvolution(key);
  }

  lemma {:induction false} BothKeys(t: FiveTuple, sent: Filler, received: Filler, e: Endian)
    requires t.Valid() && sent.Fits(t) && received.Fits(t.Swapped())
    ensures Accepted(Encode(t, sent)) && KeyOf(Encode(t, sent), e) == TupleKey(t, e)
    ensures Accepted(Encode(t.Swapped(), received))
    ensures KeyOf(Encode(t.Swapped(), received), e) == Reverse(TupleKey(t, e))
  {
    EncodeThenParse(t, sent, e);
    EncodeThenParse(t.Swapped(), received, e);
    KeyOfSwapped(t, e);
  }

  /** The last estimate recorded under a key, scaled down. */
  function LastEstimate(calls: seq<Call>, key: FlowKey, e: Endian): Joined
    requires EstimatesOf(calls, key, e) != []
  {
    var es := EstimatesOf(calls, key, e);
    Joined(es[|es| - 1].sk.srtt / 8, es[|es| - 1].sk.mdev / 4)
  }

  /**
   What the join shows of a flow: for TCP the last estimate of the flow's own orientation, else
   that of the opposite one; and nothing without either, for other protocols, and when the
   estimates could not be read.
   */
  lemma {:induction false} JoinIs(calls: seq<Call>, key: FlowKey, e: Endian)
    ensures var rtt := Some(RecordedAll(calls, e));
            && (key.proto == 6 && EstimatesOf(calls, key, e) != [] ==> JoinOf(rtt, key) == LastEstimate(calls, key, e))
            && (key.proto == 6 && EstimatesOf(calls, key, e) == [] && EstimatesOf(calls, Reverse(key), e) != [] ==>
                  JoinOf(rtt, key) == LastEstimate(calls, Reverse(key), e))
            && (key.proto != 6 || (EstimatesOf(calls, key, e) == [] && EstimatesOf(calls, Reverse(key), e) == []) ==>
                  JoinOf(rtt, key) == Joined(0, 0))
            && JoinOf(None, key) == Joined(0, 0)
  {
    LastEstimateWins(calls, key, e);
    LastEstimateWins(calls, Reverse(key), e);
  }

  /** Each direction shows the estimate of the socket that sends it, when both ends are on this machine. */
  lemma {:induction false} EachDirectionShowsItsSender(calls: seq<Call>, t: FiveTuple, sent: Filler, received: Filler,
                                                       e: Endian)
    requires t.Valid() && t.proto == 6 && sent.Fits(t) && received.Fits(t.Swapped())
    requires EstimatesOf(calls, TupleKey(t, e), e) != [] && EstimatesOf(calls, TupleKey(t.Swapped(), e), e) != []
    ensures Accepted(Encode(t, sent)) && Accepted(Encode(t.Swapped(), received))
    ensures var rtt := Some(RecordedAll(calls, e));
            && JoinOf(rtt, KeyOf(Encode(t, sent), e)) == LastEstimate(calls, TupleKey(t, e), e)
            && JoinOf(rtt, KeyOf(Encode(t.Swapped(), received), e)) == LastEstimate(calls, TupleKey(t.Swapped(), e), e)
  {
    BothKeys(t, sent, received, e);
    KeyOfSwapped(t, e);
    JoinIs(calls, TupleKey(t, e), e);
    JoinIs(calls, TupleKey(t.Swapped(), e), e);
  }

  /** With estimates of one orientation only, the join finds the last one from either side. */
  lemma JoinShowsLast(calls: seq<Call>, key: FlowKey, e: Endian)
    requires key.proto == 6
    requires EstimatesOf(calls, key, e) != [] && EstimatesOf(calls, Reverse(key), e) == []
    ensures JoinOf(Some(RecordedAll(calls, e)), key) == LastEstimate(calls, key, e)
    ensures JoinOf(Some(RecordedAll(calls, e)), Reverse(key)) == LastEstimate(calls, key, e)
  {
    ReverseInvolution(key);
    JoinIs(calls, key, e);
    JoinIs(calls, Reverse(key), e);
  }

  /** From sockets and frames to the table: both directions of a socket's flow show its last estimate. */
  lemma {:induction false} BothDirectionsShowTheSocket(calls: seq<Call>, t: FiveTuple, sent: Filler,
          received: Filler, e: Endian)
    requires t.Valid() && t.proto == 6 && sent.Fits(t) && received.Fits(t.Swapped())
    requires EstimatesOf(calls, TupleKey(t, e), e) != []
    requires EstimatesOf(calls, Reverse(TupleKey(t, e)), e) == []
    ensures Accepted(Encode(t, sent)) && Accepted(Encode(t.Swapped(), received))
    ensures var rtt, estimate := Some(RecordedAll(calls, e)), LastEstimate(calls, TupleKey(t, e), e);
            && JoinOf(rtt, KeyOf(Encode(t, sent), e)) == estimate
            && JoinOf(rtt, KeyOf(Encode(t.Swapped(), received), e)) == estimate
  {
    BothKeys(t, sent, received, e);
    JoinShowsLast(calls, TupleKey(t, e), e);
  }
}
