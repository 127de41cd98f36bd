/** Frames, flow keys and what the Go side decodes from them (bpf/c/flows.c, internal/flows/flows.go). */
module Packet {
  import opened Wrappers

  type byte = b: int | 0 <= b < 256
  type u16 = p: int | 0 <= p < 0x1_0000

  const ETH_HLEN: nat := 14
  const AF_INET: byte := 2
  const AF_INET6: byte := 10
  const IPPROTO_TCP: byte := 6
  const IPPROTO_UDP: byte := 17

  // ----- byte order

  /** The byte order of the machine, which both sides run on. */
  datatype Endian = Little | Big

  /** A 16-bit load from memory. */
  function Native(b0: byte, b1: byte, e: Endian): u16
  {
    match e
    case Little => b0 + 256 * b1
    case Big => 256 * b0 + b1
  }

  /** bpf_htons and bpf_ntohs. */
  function Swap16(v: u16, e: Endian): u16
  {
    match e
    case Little => v % 256 * 256 + v / 256
    case Big => v
  }

  /** The accessors' ntohs: written out big-endian, read back in native order. */
  function Ntohs(v: u16, e: Endian): u16
  {
    Native(v / 256, v % 256, e)
  }

  lemma HighLow(hi: byte, lo: byte)
    ensures (256 * hi + lo) / 256 == hi && (256 * hi + lo) % 256 == lo
  {
  }

  /** Loading a big-endian port and decoding it gives the port, and the kernel's conversion agrees with the load. */
  lemma {:induction false} PortRoundTrip(port: u16, e: Endian)
    ensures Ntohs(Native(port / 256, port % 256, e), e) == port
    ensures Swap16(port, e) == Native(port / 256, port % 256, e)
    ensures Swap16(Swap16(port, e), e) == port
    ensures Native(0x01, 0xBB, Big) == 443 && Native(0x01, 0xBB, Little) == 0xBB01
  {
    var hi, lo := port / 256, port % 256;
    assert port == 256 * hi + lo;
    HighLow(lo, hi);
  }

  // ----- keys

  type Address = a: seq<byte> | |a| == 16 witness seq(16, _ => 0)

  datatype FlowKey = FlowKey(family: byte, proto: byte, sport: u16, dport: u16, saddr: Address, daddr: Address)

  /** A 16-byte field of a zeroed key after loading bytes to its front. */
  function Padded(a: seq<byte>): (r: Address)
    requires |a| <= 16
    ensures r[..|a|] == a && forall i :: |a| <= i < 16 ==> r[i] == 0
  {
    a + seq(16 - |a|, _ => 0)
  }

  function Reverse(k: FlowKey): FlowKey
  {
    FlowKey(k.family, k.proto, k.dport, k.sport, k.daddr, k.saddr)
  }

  datatype Addr = V4(bytes: seq<byte>) | V6(bytes: seq<byte>) | InvalidAddr

  function AddrFromBytes(family: byte, raw: Address): Addr
  {
    if family == AF_INET then V4(raw[..4]) else if family == AF_INET6 then V6(raw) else InvalidAddr
  }

  function SrcAddr(k: FlowKey): Addr
  {
    AddrFromBytes(k.family, k.saddr)
  }

  function DstAddr(k: FlowKey): Addr
  {
    AddrFromBytes(k.family, k.daddr)
  }

  function SrcPort(k: FlowKey, e: Endian): u16
  {
    Ntohs(k.sport, e)
  }

  function DstPort(k: FlowKey, e: Endian): u16
  {
    Ntohs(k.dport, e)
  }

  // ----- which frames are accepted, and as what

  predicate IsV4(frame: seq<byte>)
  {
    |frame| >= ETH_HLEN && frame[12] == 0x08 && frame[13] == 0x00
  }

  predicate IsV6(frame: seq<byte>)
  {
    |frame| >= ETH_HLEN && frame[12] == 0x86 && frame[13] == 0xDD
  }

  /** The header bytes every accepted frame has: up to the destination address. */
  function AddressesEnd(frame: seq<byte>): nat
  {
    if IsV4(frame) then ETH_HLEN + 20 else ETH_HLEN + 40
  }

  function HeaderLength(frame: seq<byte>): nat
    requires |frame| >= AddressesEnd(frame)
  {
    if IsV4(frame) then frame[ETH_HLEN] % 16 * 4 else 40
  }

  function ProtoAt(frame: seq<byte>): byte
    requires |frame| >= AddressesEnd(frame)
  {
    if IsV4(frame) then frame[ETH_HLEN + 9] else frame[ETH_HLEN + 6]
  }

  /** How far into the transport header the parser looks. */
  function Needed(proto: byte): nat
  {
    if proto == IPPROTO_TCP then 14 else if proto == IPPROTO_UDP then 4 else 0
  }

  /** The frames that are counted. */
  predicate Accepted(frame: seq<byte>)
  {
    && (IsV4(frame) || IsV6(frame))
    && |frame| >= AddressesEnd(frame)
    && HeaderLength(frame) >= 20
    && (Needed(ProtoAt(frame)) > 0 ==> |frame| >= ETH_HLEN + HeaderLength(frame) + Needed(ProtoAt(frame)))
  }

  function PortAt(frame: seq<byte>, off: nat, e: Endian): u16
    requires Accepted(frame) && off <= 2
  {
    var l4 := ETH_HLEN + HeaderLength(frame);
    if Needed(ProtoAt(frame)) == 0 then 0 else Native(frame[l4 + off], frame[l4 + off + 1], e)
  }

  function KeyOf(frame: seq<byte>, e: Endian): FlowKey
    requires Accepted(frame)
  {
    var size := if IsV4(frame) then 4 else 16;
    var dst := AddressesEnd(frame) - size;
    FlowKey(if IsV4(frame) then AF_INET else AF_INET6, ProtoAt(frame),
            PortAt(frame, 0, e), PortAt(frame, 2, e),
            Padded(frame[dst - size..dst]), Padded(frame[dst..dst + size]))
  }

  /** The six classic TCP flags, from the second byte at offset 12 of the TCP header. Only six bits are ever set. */
  function FlagsOf(frame: seq<byte>): bv8
    requires Accepted(frame)
  {
    if ProtoAt(frame) == IPPROTO_TCP then (frame[ETH_HLEN + HeaderLength(frame) + 13] % 64) as bv8 else 0
  }

  // ----- the parser as the program runs it

  /** bpf_skb_load_bytes: fails when the range is not inside the packet. */
  method Load(frame: seq<byte>, off: nat, n: nat) returns (bytes: Option<seq<byte>>)
    ensures bytes.Some? <==> off + n <= |frame|
    ensures bytes.Some? ==> |bytes.value| == n && forall i :: 0 <= i < n ==> bytes.value[i] == frame[off + i]
  {
    if off + n > |frame| {
      return None;
    }
    return Some(frame[off..off + n]);
  }

  method LoadU16(frame: seq<byte>, off: nat, e: Endian) returns (v: Option<u16>)
    ensures v == if off + 2 <= |frame| then Some(Native(frame[off], frame[off + 1], e)) else None
  {
    var bytes := Load(frame, off, 2);
    if bytes.None? {
      return None;
    }
    return Some(Native(bytes.value[0], bytes.value[1], e));
  }

  datatype Ports = Ports(sport: u16, dport: u16, flags: bv8)

  method ParseL4(frame: seq<byte>, off: nat, proto: byte, e: Endian) returns (r: Option<Ports>)
    ensures r.Some? <==> (Needed(proto) > 0 ==> off + Needed(proto) <= |frame|)
    ensures r.Some? && Needed(proto) == 0 ==> r.value == Ports(0, 0, 0)
    ensures r.Some? && Needed(proto) > 0 ==>
      && r.value.sport == Native(frame[off], frame[off + 1], e)
      && r.value.dport == Native(frame[off + 2], frame[off + 3], e)
      && r.value.flags == if proto == IPPROTO_TCP then (frame[off + 13] % 64) as bv8 else 0
  {
    if proto == IPPROTO_TCP {
      var src := LoadU16(frame, off, e);
      if src.None? {
        return None;
      }
      var dst := LoadU16(frame, off + 2, e);
      if dst.None? {
        return None;
      }
      var doffFlags := LoadU16(frame, off + 12, e);
      if doffFlags.None? {
        return None;
      }
      var host := Swap16(doffFlags.value, e);
      LowSixBits(frame[off + 12], frame[off + 13], e);
      return Some(Ports(src.value, dst.value, (host % 64) as bv8));
    } else if proto == IPPROTO_UDP {
      var src := LoadU16(frame, off, e);
      if src.None? {
        return None;
      }
      var dst := LoadU16(frame, off + 2, e);
      if dst.None? {
        return None;
      }
      return Some(Ports(src.value, dst.value, 0));
    }
    return Some(Ports(0, 0, 0));
  }

  lemma HostOrder(high: byte, low: byte, e: Endian)
    ensures Swap16(Native(high, low, e), e) == (high as int) * 256 + low
  {
  }

  /** In host order the flags are in the second byte, whatever the byte order. */
  lemma LowSixBits(high: byte, low: byte, e: Endian)
    ensures Swap16(Native(high, low, e), e) % 64 == low % 64
  {
    HostOrder(high, low, e);
    Mod64(high, low);
  }

  lemma Mod64(high: int, low: int)
    ensures (high * 256 + low) % 64 == low % 64
  {
    assert high * 256 + low == 64 * (4 * high) + low;
  }

  datatype Parsed = Parsed(key: FlowKey, flags: bv8)

  /** What the network header gives: the protocol, the addresses and where the transport header starts. */
  datatype Network = Network(family: byte, proto: byte, saddr: seq<byte>, daddr: seq<byte>, l4: nat)

  method ParseIPv4(frame: seq<byte>) returns (r: Option<Network>)
    ensures r.Some? <==> |frame| >= ETH_HLEN + 20 && frame[ETH_HLEN] % 16 * 4 >= 20
    ensures r.Some? ==> r.value == Network(AF_INET, frame[ETH_HLEN + 9], frame[ETH_HLEN + 12..ETH_HLEN + 16],
                                           frame[ETH_HLEN + 16..ETH_HLEN + 20], ETH_HLEN + frame[ETH_HLEN] % 16 * 4)
  {
    var ihlVer := Load(frame, ETH_HLEN, 1);
    if ihlVer.None? {
      return None;
    }
    var ihl := ihlVer.value[0] % 16 * 4;
    if ihl < 20 {
      return None;
    }
    var proto := Load(frame, ETH_HLEN + 9, 1);
    if proto.None? {
      return None;
    }
    var saddr := Load(frame, ETH_HLEN + 12, 4);
    if saddr.None? {
      return None;
    }
    var daddr := Load(frame, ETH_HLEN + 16, 4);
    if daddr.None? {
      return None;
    }
    return Some(Network(AF_INET, proto.value[0], saddr.value, daddr.value, ETH_HLEN + ihl));
  }

  method ParseIPv6(frame: seq<byte>) returns (r: Option<Network>)
    ensures r.Some? <==> |frame| >= ETH_HLEN + 40
    ensures r.Some? ==> r.value == Network(AF_INET6, frame[ETH_HLEN + 6], frame[ETH_HLEN + 8..ETH_HLEN + 24],
                                           frame[ETH_HLEN + 24..ETH_HLEN + 40], ETH_HLEN + 40)
  {
    var proto := Load(frame, ETH_HLEN + 6, 1);
    if proto.None? {
      return None;
    }
    var saddr := Load(frame, ETH_HLEN + 8, 16);
    if saddr.None? {
      return None;
    }
    var daddr := Load(frame, ETH_HLEN + 24, 16);
    if daddr.None? {
      return None;
    }
    return Some(Network(AF_INET6, proto.value[0], saddr.value, daddr.value, ETH_HLEN + 40));
  }

  /** The first part of process_packet. An ethertype constant depends on the byte order just as a load does. */
  method Parse(frame: seq<byte>, e: Endian) returns (r: Option<Parsed>)
    ensures r.Some? <==> Accepted(frame)
    ensures r.Some? ==> r.value == Parsed(KeyOf(frame, e), FlagsOf(frame))
  {
    var hProto := LoadU16(frame, 12, e);
    if hProto.None? {
      return None;
    }
    EtherTypes(frame[12], frame[13], e);
    var network := None;
    if hProto.value == Swap16(0x0800, e) {
      network := ParseIPv4(frame);
    } else if hProto.value == Swap16(0x86DD, e) {
      network := ParseIPv6(frame);
    }
    if network.None? {
      return None;
    }
    var n := network.value;
    KeyByFamily(frame, e);
    var ports := ParseL4(frame, n.l4, n.proto, e);
    if ports.None? {
      return None;
    }
    var key := FlowKey(n.family, n.proto, ports.value.sport, ports.value.dport, Padded(n.saddr), Padded(n.daddr));
    return Some(Parsed(key, ports.value.flags));
  }

  /** The key with its offsets worked out. */
  lemma KeyByFamily(frame: seq<byte>, e: Endian)
    ensures Accepted(frame) && IsV4(frame) ==>
      KeyOf(frame, e) == FlowKey(AF_INET, frame[23], PortAt(frame, 0, e), PortAt(frame, 2, e),
                                 Padded(frame[26..30]), Padded(frame[30..34]))
    ensures Accepted(frame) && !IsV4(frame) ==>
      KeyOf(frame, e) == FlowKey(AF_INET6, frame[20], PortAt(frame, 0, e), PortAt(frame, 2, e),
                                 Padded(frame[22..38]), Padded(frame[38..54]))
  {
  }

  /** The frames that are counted, byte by byte: long enough for their addresses, their header and their ports. */
  lemma {:induction false} AcceptedExactly(frame: seq<byte>)
    ensures Accepted(frame) <==>
      || (|frame| >= 34 && frame[12] == 0x08 && frame[13] == 0x00 && frame[14] % 16 >= 5 &&
          (PortBytes(frame[23]) == 0 || |frame| >= 14 + 4 * (frame[14] % 16) + PortBytes(frame[23])))
      || (|frame| >= 54 && frame[12] == 0x86 && frame[13] == 0xDD && |frame| >= 54 + PortBytes(frame[20]))
  {
  }

  /** What the parser needs of the transport header: up to the flags of TCP, and the ports of UDP. */
  function PortBytes(proto: byte): nat
  {
    match proto
    case 6 => 14
    case 17 => 4
    case _ => 0
  }

  lemma EtherTypes(b0: byte, b1: byte, e: Endian)
    ensures Native(b0, b1, e) == Swap16(0x0800, e) <==> b0 == 0x08 && b1 == 0x00
    ensures Native(b0, b1, e) == Swap16(0x86DD, e) <==> b0 == 0x86 && b1 == 0xDD
  {
  }
}
