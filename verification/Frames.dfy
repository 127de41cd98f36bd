/** Frames as a sender lays them out, and what becomes of them. */
module Frames {
  import opened Packet

  /** A connection end to end, ports as numbers. */
  datatype FiveTuple = FiveTuple(v6: bool, proto: byte, sport: u16, dport: u16, saddr: seq<byte>, daddr: seq<byte>)
  {
    /** Only TCP and UDP have ports. */
    predicate Valid()
    {
      && |saddr| == |daddr| == (if v6 then 16 else 4)
      && (proto != 6 && proto != 17 ==> sport == 0 && dport == 0)
    }

    function Swapped(): FiveTuple
    {
      FiveTuple(v6, proto, dport, sport, daddr, saddr)
    }
  }

  /**
   Everything else in a frame. low is the lower half of the first byte of an IPv6 header, start
   what precedes the protocol in the network header after its first byte.
   */
  datatype Filler = Filler(
    macs: seq<byte>, ihl: nat, low: nat, start: seq<byte>, between: seq<byte>, options: seq<byte>,
    seqAck: seq<byte>, dataOffset: byte, flags: byte, rest: seq<byte>)
  {
    predicate Fits(t: FiveTuple)
    {
      && |macs| == 12
      && 5 <= ihl <= 15 && low < 16
      && |start| == (if t.v6 then 5 else 8)
      && |between| == (if t.v6 then 1 else 2)
      && |options| == (if t.v6 then 0 else 4 * (ihl - 5))
      && |seqAck| == 8
    }
  }

  function Be16(v: u16): seq<byte>
  {
    [v / 256, v % 256]
  }

  /** Section 3.1 of RFC 791; section 3 of RFC 8200 without extension headers. */
  function NetworkHeader(t: FiveTuple, f: Filler): seq<byte>
    requires t.Valid() && f.Fits(t)
  {
    [if t.v6 then 0x60 + f.low else 0x40 + f.ihl] + f.start + [t.proto] + f.between + t.saddr + t.daddr + f.options
  }

  /** Section 3.1 of RFC 9293 for TCP; the first four bytes for UDP; anything for the rest. */
  function Transport(t: FiveTuple, f: Filler): seq<byte>
  {
    if t.proto == 6 then Be16(t.sport) + Be16(t.dport) + f.seqAck + [f.dataOffset, f.flags] + f.rest
    else if t.proto == 17 then Be16(t.sport) + Be16(t.dport) + f.rest
    else f.rest
  }

  function LinkHeader(t: FiveTuple, f: Filler): seq<byte>
  {
    f.macs + (if t.v6 then [0x86, 0xDD] else [0x08, 0x00])
  }

  function Encode(t: FiveTuple, f: Filler): seq<byte>
    requires t.Valid() && f.Fits(t)
  {
    LinkHeader(t, f) + NetworkHeader(t, f) + Transport(t, f)
  }

  /** The key of a connection, as the machine stores it. */
  function TupleKey(t: FiveTuple, e: Endian): FlowKey
    requires t.Valid()
  {
    FlowKey(if t.v6 then AF_INET6 else AF_INET, t.proto, Swap16(t.sport, e), Swap16(t.dport, e),
            Padded(t.saddr), Padded(t.daddr))
  }

  lemma NetworkParts(t: FiveTuple, f: Filler)
    requires t.Valid() && f.Fits(t)
    ensures var n, at := NetworkHeader(t, f), if t.v6 then 8 else 12;
            && |n| == (if t.v6 then 40 else 4 * f.ihl)
            && n[0] == (if t.v6 then 0x60 + f.low else 0x40 + f.ihl)
            && n[if t.v6 then 6 else 9] == t.proto
            && n[at..at + |t.saddr|] == t.saddr
            && n[at + |t.saddr|..at + 2 * |t.saddr|] == t.daddr
  {
  }

  lemma FrameParts(t: FiveTuple, f: Filler)
    requires t.Valid() && f.Fits(t)
    ensures var frame, n := Encode(t, f), NetworkHeader(t, f);
            && |frame| == 14 + |n| + |Transport(t, f)|
            && frame[12] == (if t.v6 then 0x86 else 0x08) && frame[13] == (if t.v6 then 0xDD else 0x00)
            && frame[14..14 + |n|] == n
            && frame[14 + |n|..] == Transport(t, f)
  {
    var head := LinkHeader(t, f);
    assert |head| == 14;
    assert Encode(t, f) == head + (NetworkHeader(t, f) + Transport(t, f));
  }

  lemma SliceOfSlice(s: seq<byte>, lo: nat, hi: nat, a: nat, b: nat)
    requires lo <= hi <= |s| && a <= b <= hi - lo
    ensures s[lo..hi][a..b] == s[lo + a..lo + b]
  {
    assert forall i :: a <= i < b ==> s[lo..hi][i] == s[lo + i];
    assert |s[lo..hi][a..b]| == |s[lo + a..lo + b]|;
    assert forall i :: 0 <= i < b - a ==> s[lo..hi][a..b][i] == s[lo + a..lo + b][i];
  }

  lemma {:induction false} FrameFields(t: FiveTuple, f: Filler)
    requires t.Valid() && f.Fits(t)
    ensures var frame := Encode(t, f);
            && IsV4(frame) == !t.v6 && IsV6(frame) == t.v6
            && |frame| >= AddressesEnd(frame)
            && HeaderLength(frame) == |NetworkHeader(t, f)|
            && ProtoAt(frame) == t.proto
            && (!t.v6 ==> frame[26..30] == t.saddr && frame[30..34] == t.daddr)
            && (t.v6 ==> frame[22..38] == t.saddr && frame[38..54] == t.daddr)
  {
    FrameParts(t, f);
    NetworkParts(t, f);
    var frame, n := Encode(t, f), NetworkHeader(t, f);
    assert frame[14] == frame[14..14 + |n|][0];
    assert frame[if t.v6 then 20 else 23] == frame[14..14 + |n|][if t.v6 then 6 else 9];
    if t.v6 {
      SliceOfSlice(frame, 14, 14 + |n|, 8, 24);
      SliceOfSlice(frame, 14, 14 + |n|, 24, 40);
    } else {
      assert (0x40 + f.ihl) % 16 == f.ihl;
      SliceOfSlice(frame, 14, 14 + |n|, 12, 16);
      SliceOfSlice(frame, 14, 14 + |n|, 16, 20);
    }
  }

  lemma {:induction false} TransportFields(t: FiveTuple, f: Filler, e: Endian)
    requires t.Valid() && f.Fits(t)
    ensures Accepted(Encode(t, f))
    ensures PortAt(Encode(t, f), 0, e) == Swap16(t.sport, e) && PortAt(Encode(t, f), 2, e) == Swap16(t.dport, e)
    ensures FlagsOf(Encode(t, f)) == if t.proto == 6 then (f.flags % 64) as bv8 else 0
  {
    FrameParts(t, f);
    FrameFields(t, f);
    var frame, l4, tail := Encode(t, f), 14 + |NetworkHeader(t, f)|, Transport(t, f);
    PortRoundTrip(t.sport, e);
    PortRoundTrip(t.dport, e);
    assert forall i :: 0 <= i < |tail| ==> frame[l4 + i] == frame[l4..][i];
    if t.proto == 6 {
      assert tail[0] == t.sport / 256 && tail[1] == t.sport % 256;
      assert tail[2] == t.dport / 256 && tail[3] == t.dport % 256;
      assert tail[13] == f.flags;
    } else if t.proto == 17 {
      assert tail[0] == t.sport / 256 && tail[1] == t.sport % 256;
      assert tail[2] == t.dport / 256 && tail[3] == t.dport % 256;
    }
  }

  /**
   Encoding a 5-tuple into a frame, with whatever else the frame holds, and parsing it gives a
   key from which the accessors read the same addresses, ports and protocol.
   */
  lemma {:induction false} EncodeThenParse(t: FiveTuple, f: Filler, e: Endian)
    requires t.Valid() && f.Fits(t)
    ensures Accepted(Encode(t, f))
    ensures var k := KeyOf(Encode(t, f), e);
            && k == TupleKey(t, e)
            && k.family == (if t.v6 then 10 else 2) && k.proto == t.proto
            && SrcAddr(k) == (if t.v6 then V6(t.saddr) else V4(t.saddr))
            && DstAddr(k) == (if t.v6 then V6(t.daddr) else V4(t.daddr))
            && SrcPort(k, e) == t.sport && DstPort(k, e) == t.dport
  {
    TransportFields(t, f, e);
    FrameFields(t, f);
    KeyByFamily(Encode(t, f), e);
    PortRoundTrip(t.sport, e);
    PortRoundTrip(t.dport, e);
    AccessAddress(t.saddr);
    AccessAddress(t.daddr);
  }

  lemma AccessAddress(a: seq<byte>)
    requires |a| == 4 || |a| == 16
    ensures Padded(a)[..4] == a[..4] && (|a| == 4 ==> a[..4] == a) && (|a| == 16 ==> Padded(a) == a)
  {
  }

  /** Different 5-tuples have different keys: no two connections are counted together. */
  lemma {:induction false} KeysAreFaithful(t: FiveTuple, t': FiveTuple, f: Filler, f': Filler, e: Endian)
    requires t.Valid() && t'.Valid() && f.Fits(t) && f'.Fits(t')
    ensures Accepted(Encode(t, f)) && Accepted(Encode(t', f'))
    ensures KeyOf(Encode(t, f), e) == KeyOf(Encode(t', f'), e) <==> t == t'
  {
    EncodeThenParse(t, f, e);
    EncodeThenParse(t', f', e);
  }

  lemma {:induction false} KeyOfSwapped(t: FiveTuple, e: Endian)
    requires t.Valid()
    ensures TupleKey(t.Swapped(), e) == Reverse(TupleKey(t, e))
    ensures Reverse(Reverse(TupleKey(t, e))) == TupleKey(t, e)
  {
  }
}
