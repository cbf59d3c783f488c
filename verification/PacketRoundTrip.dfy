/** The packet decoder recovers the headers of frames put together from their fields
    (IEEE 802.3, RFC 791, RFC 8200, RFC 9293, RFC 768, RFC 792). */
module PacketRoundTrip {
  import opened Bytes
  import opened Packet

  // ---------- The sender's side

  /** Byte 0 also holds the header length, and bytes 6 and 7 the flags and the fragment
      offset. */
  function EncodeV4(n: Network, ihl: nat, flags: byte, offset: byte): bytes
    requires n.V4? && FitsV4(n) && ihl < 16
  {
    [(n.version * 16 + ihl) as byte, n.tos as byte] + (BE16(n.totalLen) + (BE16(n.id)
    + ([flags, offset, n.ttl as byte, n.protocol as byte] + (BE16(n.checksum) + (n.src + n.dst)))))
  }

  predicate FitsV4(n: Network)
    requires n.V4?
  {
    && n.version < 16 && n.tos < 0x100 && n.totalLen < 0x1_0000 && n.id < 0x1_0000
    && n.ttl < 0x100 && n.protocol < 0x100 && n.checksum < 0x1_0000 && |n.src| == 4 && |n.dst| == 4
  }

  function EncodeV6(n: Network): bytes
    requires n.V6? && FitsV6(n)
  {
    [(n.version * 16 + n.trafficClass / 16) as byte, (n.trafficClass % 16 * 16 + n.flowLabel / 0x1_0000) as byte]
    + (BE16(n.flowLabel % 0x1_0000) + (BE16(n.payloadLen) + ([n.nextHeader as byte, n.hopLimit as byte] + (n.src + n.dst))))
  }

  predicate FitsV6(n: Network)
    requires n.V6?
  {
    && n.version < 16 && n.trafficClass < 0x100 && n.flowLabel < 0x10_0000 && n.payloadLen < 0x1_0000
    && n.nextHeader < 0x100 && n.hopLimit < 0x100 && |n.src| == 16 && |n.dst| == 16
  }

  function EncodeTcp(t: Transport, numbers: bytes, reserved: nat, tail: bytes): bytes
    requires t.Tcp? && FitsTcp(t) && reserved < 8
  {
    BE16(t.srcPort) + (BE16(t.dstPort) + (numbers
    + ([(t.dataOffset * 16 + reserved * 2 + t.flags / 0x100) as byte, (t.flags % 0x100) as byte] + tail)))
  }

  predicate FitsTcp(t: Transport)
    requires t.Tcp?
  {
    t.srcPort < 0x1_0000 && t.dstPort < 0x1_0000 && t.dataOffset < 16 && t.flags < 0x200
  }

  function EncodeUdp(t: Transport, tail: bytes): bytes
    requires t.Udp? && t.srcPort < 0x1_0000 && t.dstPort < 0x1_0000
  {
    BE16(t.srcPort) + (BE16(t.dstPort) + tail)
  }

  function EncodeIcmp(t: Transport, checksum: uint16): bytes
    requires t.Icmp? && t.icmpType < 0x100 && t.code < 0x100
  {
    [t.icmpType as byte, t.code as byte] + (BE16(checksum) + t.rest)
  }

  function EncodeEthernet(d: Datalink): bytes {
    d.dstMac + (d.srcMac + BE16(d.etherType))
  }

  // ---------- Pieces of a packet

  lemma Pair(b: bytes, p: nat, x: byte, y: byte, rest: bytes)
    requires At(b, p, [x, y] + rest)
    ensures p + 2 + |rest| <= |b| && b[p] == x && b[p + 1] == y && At(b, p + 2, rest)
  {
    AtSplit(b, p, [x, y], rest);
    AtIndex(b, p, [x, y], 0);
    AtIndex(b, p, [x, y], 1);
  }

  lemma Number(b: bytes, p: nat, n: uint16, rest: bytes)
    requires At(b, p, BE16(n) + rest)
    ensures p + 2 + |rest| <= |b| && Num16(b, p) == n && At(b, p + 2, rest)
  {
    AtSplit(b, p, BE16(n), rest);
    Num16At(b, p, n);
  }

  lemma Piece(b: bytes, p: nat, s: bytes, rest: bytes)
    requires At(b, p, s + rest)
    ensures p + |s| + |rest| <= |b| && b[p..p + |s|] == s && At(b, p + |s|, rest)
  {
    AtSplit(b, p, s, rest);
    AtSlice(b, p, s);
  }

  lemma Front(front: bytes, rest: bytes, b: bytes)
    requires b == front + rest
    ensures At(b, 0, front) && b[|front|..] == rest
  {
  }

  // ---------- Network layer

  lemma Nibbles(hi: nat, lo: nat)
    requires lo < 16
    ensures (hi * 16 + lo) / 16 == hi && (hi * 16 + lo) % 16 == lo
  {
  }

  lemma V4Fields(n: Network, ihl: nat, flags: byte, offset: byte, b: bytes)
    requires n.V4? && FitsV4(n) && ihl < 16 && At(b, 0, EncodeV4(n, ihl, flags, offset))
    ensures |b| >= 20 && b[0] == n.version * 16 + ihl && b[1] == n.tos && Num16(b, 2) == n.totalLen && Num16(b, 4) == n.id
    ensures b[6] == flags && b[8] == n.ttl && b[9] == n.protocol && Num16(b, 10) == n.checksum
    ensures b[12..16] == n.src && b[16..20] == n.dst
  {
    hide BE16, At, Num16;
    var addrs := n.src + n.dst;
    var t3 := BE16(n.checksum) + addrs;
    var t2 := [flags, offset, n.ttl as byte, n.protocol as byte] + t3;
    Pair(b, 0, (n.version * 16 + ihl) as byte, n.tos as byte, BE16(n.totalLen) + (BE16(n.id) + t2));
    Number(b, 2, n.totalLen, BE16(n.id) + t2);
    Number(b, 4, n.id, t2);
    Quad(b, 6, flags, offset, n.ttl as byte, n.protocol as byte, t3);
    Number(b, 10, n.checksum, addrs);
    Piece(b, 12, n.src, n.dst);
    AtSlice(b, 16, n.dst);
  }

  /** The decoder takes the low three bits of byte 6 for the flags. */
  lemma V4Decoded(n: Network, ihl: nat, flags: byte, offset: byte, rest: bytes, s: Layers)
    requires n.V4? && FitsV4(n) && ihl < 16 && s.data == EncodeV4(n, ihl, flags, offset) + rest
    ensures IPv4(s) == Decoded(s.(l3 := Some(n.(flags := flags % 8)), data := rest))
  {
    V4Size(n, ihl, flags, offset);
    hide EncodeV4, At, Num16;
    Front(EncodeV4(n, ihl, flags, offset), rest, s.data);
    V4Fields(n, ihl, flags, offset, s.data);
    Nibbles(n.version, ihl);
  }

  lemma Quad(b: bytes, p: nat, w: byte, x: byte, y: byte, z: byte, rest: bytes)
    requires At(b, p, [w, x, y, z] + rest)
    ensures p + 4 + |rest| <= |b| && b[p] == w && b[p + 1] == x && b[p + 2] == y && b[p + 3] == z && At(b, p + 4, rest)
  {
    AtSplit(b, p, [w, x, y, z], rest);
    AtIndex(b, p, [w, x, y, z], 0);
    AtIndex(b, p, [w, x, y, z], 1);
    AtIndex(b, p, [w, x, y, z], 2);
    AtIndex(b, p, [w, x, y, z], 3);
  }

  lemma V4Size(n: Network, ihl: nat, flags: byte, offset: byte)
    requires n.V4? && FitsV4(n) && ihl < 16
    ensures |EncodeV4(n, ihl, flags, offset)| == 20
  {
    hide BE16;
  }

  /** The flags of RFC 791 are the high three bits of byte 6: they come back exactly
      when they equal the low ones. */
  lemma V4FlagsIff(n: Network, ihl: nat, flags: byte, offset: byte, rest: bytes, s: Layers)
    requires n.V4? && FitsV4(n) && ihl < 16 && s.data == EncodeV4(n, ihl, flags, offset) + rest
    requires n.flags == flags / 32
    ensures IPv4(s).Decoded?
    ensures IPv4(s).layers.l3 == Some(n) <==> flags / 32 == flags % 8
  {
    hide IPv4, EncodeV4;
    V4Decoded(n, ihl, flags, offset, rest, s);
  }

  lemma V6Fields(n: Network, b: bytes)
    requires n.V6? && FitsV6(n) && At(b, 0, EncodeV6(n))
    ensures |b| >= 40 && b[0] == n.version * 16 + n.trafficClass / 16
    ensures b[1] == n.trafficClass % 16 * 16 + n.flowLabel / 0x1_0000 && Num16(b, 2) == n.flowLabel % 0x1_0000
    ensures Num16(b, 4) == n.payloadLen && b[6] == n.nextHeader && b[7] == n.hopLimit
    ensures b[8..24] == n.src && b[24..40] == n.dst
  {
    hide BE16, At, Num16;
    var addrs := n.src + n.dst;
    var t2 := [n.nextHeader as byte, n.hopLimit as byte] + addrs;
    Pair(b, 0, (n.version * 16 + n.trafficClass / 16) as byte, (n.trafficClass % 16 * 16 + n.flowLabel / 0x1_0000) as byte,
         BE16(n.flowLabel % 0x1_0000) + (BE16(n.payloadLen) + t2));
    Number(b, 2, n.flowLabel % 0x1_0000, BE16(n.payloadLen) + t2);
    Number(b, 4, n.payloadLen, t2);
    Pair(b, 6, n.nextHeader as byte, n.hopLimit as byte, addrs);
    Piece(b, 8, n.src, n.dst);
    AtSlice(b, 24, n.dst);
  }

  lemma Labels(tc: nat, flow: nat)
    requires tc < 0x100 && flow < 0x10_0000
    ensures tc / 16 * 16 + tc % 16 == tc
    ensures flow / 0x1_0000 * 0x1_0000 + flow % 0x1_0000 == flow && flow / 0x1_0000 < 16
  {
  }

  lemma V6Decoded(n: Network, rest: bytes, s: Layers)
    requires n.V6? && FitsV6(n) && s.data == EncodeV6(n) + rest
    ensures IPv6(s) == Decoded(s.(l3 := Some(n), data := rest))
  {
    V6Size(n);
    hide EncodeV6, At, Num16;
    Front(EncodeV6(n), rest, s.data);
    V6Fields(n, s.data);
    Labels(n.trafficClass, n.flowLabel);
    Nibbles(n.version, n.trafficClass / 16);
    Nibbles(n.trafficClass % 16, n.flowLabel / 0x1_0000);
  }

  lemma V6Size(n: Network)
    requires n.V6? && FitsV6(n)
    ensures |EncodeV6(n)| == 40
  {
    hide BE16;
  }

  // ---------- Transport layer

  predicate Carries(s: Layers, protocol: nat) {
    s.l3.Some? && Protocol(s.l3.value) == protocol
  }

  lemma TcpFields(t: Transport, numbers: bytes, reserved: nat, tail: bytes, b: bytes)
    requires t.Tcp? && FitsTcp(t) && reserved < 8 && |numbers| == 8 && |tail| == 6
    requires At(b, 0, EncodeTcp(t, numbers, reserved, tail))
    ensures |b| >= 20 && Num16(b, 0) == t.srcPort && Num16(b, 2) == t.dstPort
    ensures b[12] == t.dataOffset * 16 + reserved * 2 + t.flags / 0x100 && b[13] == t.flags % 0x100
  {
    hide BE16, At, Num16;
    var x, y := (t.dataOffset * 16 + reserved * 2 + t.flags / 0x100) as byte, (t.flags % 0x100) as byte;
    Number(b, 0, t.srcPort, BE16(t.dstPort) + (numbers + ([x, y] + tail)));
    Number(b, 2, t.dstPort, numbers + ([x, y] + tail));
    Piece(b, 4, numbers, [x, y] + tail);
    Pair(b, 12, x, y, tail);
  }

  lemma Parity(k: nat, e: nat)
    requires e < 2
    ensures (2 * k + e) % 2 == e
  {
  }

  lemma NinthBit(flags: nat)
    requires flags < 0x200
    ensures flags / 0x100 < 2 && flags / 0x100 * 0x100 + flags % 0x100 == flags
  {
  }

  lemma FlagBits(offset: nat, reserved: nat, flags: nat)
    requires reserved < 8 && flags < 0x200
    ensures var x := offset * 16 + reserved * 2 + flags / 0x100;
            x / 16 == offset && x % 2 * 0x100 + flags % 0x100 == flags
  {
    NinthBit(flags);
    var e := flags / 0x100;
    Nibbles(offset, reserved * 2 + e);
    Parity(offset * 8 + reserved, e);
    assert offset * 16 + reserved * 2 + e == 2 * (offset * 8 + reserved) + e;
  }

  lemma TcpDecoded(t: Transport, numbers: bytes, reserved: nat, tail: bytes, rest: bytes, s: Layers)
    requires t.Tcp? && FitsTcp(t) && reserved < 8 && |numbers| == 8 && |tail| == 6
    requires Carries(s, 6) && s.data == EncodeTcp(t, numbers, reserved, tail) + rest
    ensures NextLayer(s) == Decoded(s.(l4 := Some(t), data := rest))
  {
    TcpSize(t, numbers, reserved, tail);
    hide EncodeTcp, At, Num16;
    Front(EncodeTcp(t, numbers, reserved, tail), rest, s.data);
    TcpFields(t, numbers, reserved, tail, s.data);
    FlagBits(t.dataOffset, reserved, t.flags);
  }

  lemma TcpSize(t: Transport, numbers: bytes, reserved: nat, tail: bytes)
    requires t.Tcp? && FitsTcp(t) && reserved < 8 && |numbers| == 8 && |tail| == 6
    ensures |EncodeTcp(t, numbers, reserved, tail)| == 20
  {
    hide BE16;
  }

  lemma UdpFields(t: Transport, tail: bytes, b: bytes)
    requires t.Udp? && t.srcPort < 0x1_0000 && t.dstPort < 0x1_0000 && |tail| == 4 && At(b, 0, EncodeUdp(t, tail))
    ensures |b| >= 8 && |EncodeUdp(t, tail)| == 8 && Num16(b, 0) == t.srcPort && Num16(b, 2) == t.dstPort
  {
    hide BE16, At, Num16;
    Number(b, 0, t.srcPort, BE16(t.dstPort) + tail);
    Number(b, 2, t.dstPort, tail);
  }

  lemma UdpDecoded(t: Transport, tail: bytes, rest: bytes, s: Layers)
    requires t.Udp? && t.srcPort < 0x1_0000 && t.dstPort < 0x1_0000 && |tail| == 4
    requires Carries(s, 17) && s.data == EncodeUdp(t, tail) + rest
    ensures NextLayer(s) == Decoded(s.(l4 := Some(t), data := rest))
  {
    hide EncodeUdp, At, Num16;
    Front(EncodeUdp(t, tail), rest, s.data);
    UdpFields(t, tail, s.data);
  }

  /** The rest of the ICMP header stays in the data; an empty one is refused. */
  lemma IcmpDecodedIff(t: Transport, checksum: uint16, s: Layers)
    requires t.Icmp? && t.icmpType < 0x100 && t.code < 0x100
    requires Carries(s, 1) && s.data == EncodeIcmp(t, checksum)
    ensures NextLayer(s) == Decoded(s.(l4 := Some(t), data := t.rest)) <==> t.rest != []
  {
    var b := s.data;
    hide BE16;
    assert b + [] == b;
    Front(b, [], b);
    Pair(b, 0, t.icmpType as byte, t.code as byte, BE16(checksum) + t.rest);
    Front([t.icmpType as byte, t.code as byte] + BE16(checksum), t.rest, b) by {
      assert b == ([t.icmpType as byte, t.code as byte] + BE16(checksum)) + t.rest;
    }
  }

  // ---------- Whole frames

  lemma EthernetFields(d: Datalink, b: bytes)
    requires |d.dstMac| == 6 && |d.srcMac| == 6 && At(b, 0, EncodeEthernet(d))
    ensures |b| >= 14 && |EncodeEthernet(d)| == 14 && b[..6] == d.dstMac && b[6..12] == d.srcMac && Num16(b, 12) == d.etherType
  {
    hide BE16, At, Num16;
    Piece(b, 0, d.dstMac, d.srcMac + BE16(d.etherType));
    Piece(b, 6, d.srcMac, BE16(d.etherType));
    assert BE16(d.etherType) + [] == BE16(d.etherType);
    Number(b, 12, d.etherType, []);
  }

  lemma EthernetDecoded(d: Datalink, rest: bytes, s: Layers)
    requires |d.dstMac| == 6 && |d.srcMac| == 6 && d.etherType != ETHER_VLAN && d.vlan == 0
    requires s.data == EncodeEthernet(d) + rest
    ensures Ethernet(s) == Decoded(s.(l2 := d, data := rest))
  {
    hide EncodeEthernet, At, Num16;
    Front(EncodeEthernet(d), rest, s.data);
    EthernetFields(d, s.data);
  }

  /** A network header as sent, with the bits that the decoder does not keep. */
  datatype SentNetwork = Sent4(n: Network, ihl: nat, flags: byte, offset: byte) | Sent6(n: Network)

  datatype SentTransport =
    | SentTcp(t: Transport, numbers: bytes, reserved: nat, tail: bytes)
    | SentUdp(t: Transport, tail: bytes)
    | SentIcmp(t: Transport, checksum: uint16)

  predicate GoodNetwork(n: SentNetwork, protocol: nat) {
    && Protocol(n.n) == protocol
    && match n
       case Sent4(v, ihl, _, _) => v.V4? && FitsV4(v) && ihl < 16
       case Sent6(v) => v.V6? && FitsV6(v)
  }

  predicate GoodTransport(t: SentTransport) {
    match t
    case SentTcp(v, numbers, reserved, tail) => v.Tcp? && FitsTcp(v) && reserved < 8 && |numbers| == 8 && |tail| == 6
    case SentUdp(v, tail) => v.Udp? && v.srcPort < 0x1_0000 && v.dstPort < 0x1_0000 && |tail| == 4
    case SentIcmp(v, _) => v.Icmp? && v.icmpType < 0x100 && v.code < 0x100
  }

  function ProtocolOf(t: SentTransport): nat {
    match t
    case SentTcp(_, _, _, _) => 6
    case SentUdp(_, _) => 17
    case SentIcmp(_, _) => 1
  }

  function EncodeNetwork(n: SentNetwork, protocol: nat): bytes
    requires GoodNetwork(n, protocol)
  {
    match n
    case Sent4(v, ihl, flags, offset) => EncodeV4(v, ihl, flags, offset)
    case Sent6(v) => EncodeV6(v)
  }

  /** An ICMP message has no payload beyond the rest of its header. */
  function EncodeTransport(t: SentTransport, payload: bytes): bytes
    requires GoodTransport(t)
  {
    match t
    case SentTcp(v, numbers, reserved, tail) => EncodeTcp(v, numbers, reserved, tail) + payload
    case SentUdp(v, tail) => EncodeUdp(v, tail) + payload
    case SentIcmp(v, checksum) => EncodeIcmp(v, checksum)
  }

  /** What is left after the headers. */
  function Left(t: SentTransport, payload: bytes): bytes
    requires GoodTransport(t)
  {
    if t.SentIcmp? then t.t.rest else payload
  }

  function ShownNetwork(n: SentNetwork): Network {
    if n.Sent4? && n.n.V4? then n.n.(flags := n.flags % 8) else n.n
  }

  lemma NetworkDecoded(n: SentNetwork, protocol: nat, rest: bytes, s: Layers)
    requires GoodNetwork(n, protocol) && s.data == EncodeNetwork(n, protocol) + rest
    ensures (if n.Sent4? then IPv4(s) else IPv6(s)) == Decoded(s.(l3 := Some(ShownNetwork(n)), data := rest))
    ensures Protocol(ShownNetwork(n)) == protocol
  {
    hide IPv4, IPv6, EncodeV4, EncodeV6, FitsV4, FitsV6;
    match n
    case Sent4(v, ihl, flags, offset) => V4Decoded(v, ihl, flags, offset, rest, s);
    case Sent6(v) => V6Decoded(v, rest, s);
  }

  lemma TransportDecodedIff(t: SentTransport, payload: bytes, s: Layers)
    requires GoodTransport(t) && Carries(s, ProtocolOf(t)) && s.data == EncodeTransport(t, payload)
    ensures NextLayer(s) == Decoded(s.(l4 := Some(t.t), data := Left(t, payload))) <==> (t.SentIcmp? ==> t.t.rest != [])
  {
    hide NextLayer, EncodeTcp, EncodeUdp, EncodeIcmp, FitsTcp;
    match t
    case SentTcp(v, numbers, reserved, tail) => TcpDecoded(v, numbers, reserved, tail, payload, s);
    case SentUdp(v, tail) => UdpDecoded(v, tail, payload, s);
    case SentIcmp(v, checksum) => IcmpDecodedIff(v, checksum, s);
  }

  function EtherTypeOf(n: SentNetwork): uint16 {
    if n.Sent4? then 0x0800 else 0x86dd
  }

  /** A packet without its frame. */
  function EncodePacket(n: SentNetwork, t: SentTransport, payload: bytes): bytes
    requires GoodTransport(t) && GoodNetwork(n, ProtocolOf(t))
  {
    EncodeNetwork(n, ProtocolOf(t)) + EncodeTransport(t, payload)
  }

  lemma UpperDecodedIff(n: SentNetwork, t: SentTransport, payload: bytes, s: Layers)
    requires GoodTransport(t) && GoodNetwork(n, ProtocolOf(t)) && s.data == EncodePacket(n, t, payload)
    ensures Then(if n.Sent4? then IPv4(s) else IPv6(s), NextLayer)
         == Decoded(s.(l3 := Some(ShownNetwork(n)), l4 := Some(t.t), data := Left(t, payload)))
       <==> (t.SentIcmp? ==> t.t.rest != [])
  {
    hide IPv4, IPv6, NextLayer, EncodeNetwork, EncodeTransport, GoodTransport, GoodNetwork, ShownNetwork, Left;
    NetworkDecoded(n, ProtocolOf(t), EncodeTransport(t, payload), s);
    TransportDecodedIff(t, payload, s.(l3 := Some(ShownNetwork(n)), data := EncodeTransport(t, payload)));
  }

  /** Header protocol 11 is IPv4, 12 is IPv6. */
  lemma PacketDecodedIff(n: SentNetwork, t: SentTransport, payload: bytes)
    requires GoodTransport(t) && GoodNetwork(n, ProtocolOf(t))
    ensures Decode(EncodePacket(n, t, payload), if n.Sent4? then 11 else 12)
         == Decoded(Layers(Datalink([], [], 0, 0), Some(ShownNetwork(n)), Some(t.t), Left(t, payload)))
       <==> (t.SentIcmp? ==> t.t.rest != [])
  {
    hide IPv4, IPv6, NextLayer, EncodePacket, GoodTransport, GoodNetwork, ShownNetwork, Left, Ethernet;
    UpperDecodedIff(n, t, payload, Layers(NO_DATALINK, None, None, EncodePacket(n, t, payload)));
  }

  /** The error of the layers from IP up, on arbitrary bytes, if there is one. */
  function UpperError(v6: bool, b: bytes): Option<Error> {
    var header := if v6 then 40 else 20;
    if |b| < header then Some(if v6 then ShortIPv6 else ShortIPv4)
    else
      match if v6 then b[6] else b[9]
      case 1 => if |b| < header + 5 then Some(ShortIcmp) else None
      case 6 => if |b| < header + 20 then Some(ShortTcp) else None
      case 17 => if |b| < header + 8 then Some(ShortUdp) else None
      case _ => Some(UnknownTransport)
  }

  predicate EndsWith(r: Outcome, e: Option<Error>) {
    if e.Some? then r.Failed? && r.error == e.value else r.Decoded?
  }

  lemma UpperEnds(v6: bool, s: Layers)
    ensures EndsWith(Then(if v6 then IPv6(s) else IPv4(s), NextLayer), UpperError(v6, s.data))
  {
    hide Num16;
  }

  /** The error of arbitrary bytes with any header protocol. */
  function ErrorOf(b: bytes, protocol: uint32): Option<Error> {
    if protocol == 11 then UpperError(false, b)
    else if protocol == 12 then UpperError(true, b)
    else if protocol != 1 then Some(UnknownHeaderProtocol)
    else if |b| < 14 then Some(ShortEthernet)
    else
      var p := if Num16(b, 12) == 0x8100 && |b| >= 18 then 18 else 14;
      if Num16(b, p - 2) == 0x0800 then UpperError(false, b[p..])
      else if Num16(b, p - 2) == 0x86dd then UpperError(true, b[p..])
      else Some(UnknownEtherType)
  }

  /** Exactly which bytes are decoded and which are refused with which error; the others
      are tagged frames of fewer than 18 bytes, on which the decoder panics. */
  lemma OutcomeIs(b: bytes, protocol: uint32)
    requires !(protocol == 1 && 14 <= |b| < 18 && Num16(b, 12) == 0x8100)
    ensures EndsWith(Decode(b, protocol), ErrorOf(b, protocol))
  {
    hide IPv4, IPv6, NextLayer, UpperError, Num16;
    var s := Layers(NO_DATALINK, None, None, b);
    UpperEnds(false, s);
    UpperEnds(true, s);
    if protocol == 1 {
      if |b| >= 14 {
        EthernetCut(b);
      }
      var r := Ethernet(s);
      if r.Decoded? {
        UpperEnds(false, r.layers);
        UpperEnds(true, r.layers);
      }
    }
  }

  /** The EtherType that decides, and what follows it. */
  lemma EthernetCut(b: bytes)
    requires |b| >= 14 && !(|b| < 18 && Num16(b, 12) == 0x8100)
    ensures var p := if Num16(b, 12) == 0x8100 then 18 else 14;
            var r := Ethernet(Layers(NO_DATALINK, None, None, b));
            r.Decoded? && r.layers.l2.etherType == Num16(b, p - 2) && r.layers.data == b[p..]
  {
    if IsTagged(b) {
      var u := Untagged(b);
      assert u[14..] == b[18..] && u[12] == b[16] && u[13] == b[17];
    }
  }

  /** A frame with or without a VLAN tag. */
  function EncodeFrame(d: Datalink, tag: Option<uint16>, packet: bytes): bytes {
    d.dstMac + d.srcMac + ((if tag.Some? then BE16(0x8100) + BE16(tag.value) else []) + (BE16(d.etherType) + packet))
  }

  lemma UntaggedFrame(d: Datalink, packet: bytes)
    ensures EncodeFrame(d, None, packet) == EncodeEthernet(d) + packet
  {
    hide BE16;
  }

  /** A number and what follows it, behind the addresses. */
  lemma BehindAddresses(b: bytes, macs: bytes, n: uint16, rest: bytes)
    requires |macs| == 12 && b == macs + (BE16(n) + rest)
    ensures |b| == 14 + |rest| && b[..12] == macs && b[14..] == rest && Num16(b, 12) == n
  {
    hide BE16, Num16;
    assert b == macs + BE16(n) + rest;
    AtPart(b, 12, macs, BE16(n), rest);
    Num16At(b, 12, n);
  }

  lemma NextNumber(b: bytes, n: uint16, rest: bytes)
    requires |b| >= 14 && b[14..] == BE16(n) + rest
    ensures |b| == 16 + |rest| && Num16(b, 14) == n && b[16..] == rest
  {
    hide BE16, Num16;
    assert b == b[..14] + BE16(n) + rest;
    AtPart(b, 14, b[..14], BE16(n), rest);
    Num16At(b, 14, n);
  }

  lemma TaggedParts(d: Datalink, tag: uint16, packet: bytes)
    ensures EncodeFrame(d, Some(tag), packet)
         == (d.dstMac + d.srcMac) + (BE16(ETHER_VLAN) + (BE16(tag) + (BE16(d.etherType) + packet)))
    ensures (d.dstMac + d.srcMac) + (BE16(d.etherType) + packet) == EncodeEthernet(d) + packet
  {
    hide BE16;
    var x, y, z := BE16(0x8100), BE16(tag), BE16(d.etherType) + packet;
    assert (x + y) + z == x + (y + z);
  }

  /** The tag is where the decoder looks for it, and without it the frame is untagged. */
  lemma TaggedFrame(d: Datalink, tag: uint16, packet: bytes)
    requires |d.dstMac| == 6 && |d.srcMac| == 6 && d.etherType != ETHER_VLAN
    ensures var b := EncodeFrame(d, Some(tag), packet);
            && |b| >= 18 && IsTagged(b) && Num16(b, 14) == tag
            && Untagged(b) == EncodeEthernet(d) + packet && !IsTagged(Untagged(b))
  {
    hide BE16, Num16;
    var macs, rest := d.dstMac + d.srcMac, BE16(d.etherType) + packet;
    var b := EncodeFrame(d, Some(tag), packet);
    TaggedParts(d, tag, packet);
    hide EncodeFrame;
    BehindAddresses(b, macs, ETHER_VLAN, BE16(tag) + rest);
    NextNumber(b, tag, rest);
    BehindAddresses(macs + rest, macs, d.etherType, packet);
  }

  lemma UntaggedRoundTripIff(d: Datalink, n: SentNetwork, t: SentTransport, payload: bytes)
    requires |d.dstMac| == 6 && |d.srcMac| == 6 && d.vlan == 0 && d.etherType == EtherTypeOf(n)
    requires GoodTransport(t) && GoodNetwork(n, ProtocolOf(t))
    ensures Decode(EncodeEthernet(d) + EncodePacket(n, t, payload), 1)
         == Decoded(Layers(d, Some(ShownNetwork(n)), Some(t.t), Left(t, payload)))
       <==> (t.SentIcmp? ==> t.t.rest != [])
  {
    hide Ethernet, IPv4, IPv6, NextLayer, EncodeEthernet, EncodePacket, GoodTransport, GoodNetwork, ShownNetwork, Left;
    var packet := EncodePacket(n, t, payload);
    var s := Layers(NO_DATALINK, None, None, EncodeEthernet(d) + packet);
    EthernetDecoded(d, packet, s);
    UpperDecodedIff(n, t, payload, s.(l2 := d, data := packet));
  }

  /** A whole frame, tagged or not, with IPv4 or IPv6 carrying TCP, UDP or ICMP, is
      decoded to all its layers and leaves exactly the payload, with the tag as VLAN; the
      one exception is an ICMP message that ends after its first four bytes. */
  lemma FrameRoundTripIff(d: Datalink, tag: Option<uint16>, n: SentNetwork, t: SentTransport, payload: bytes)
    requires |d.dstMac| == 6 && |d.srcMac| == 6 && d.vlan == 0 && d.etherType == EtherTypeOf(n)
    requires GoodTransport(t) && GoodNetwork(n, ProtocolOf(t))
    ensures Decode(EncodeFrame(d, tag, EncodePacket(n, t, payload)), 1)
         == Decoded(Layers(if tag.Some? then d.(vlan := tag.value) else d, Some(ShownNetwork(n)), Some(t.t), Left(t, payload)))
       <==> (t.SentIcmp? ==> t.t.rest != [])
  {
    hide Decode, EncodeEthernet, EncodePacket, EncodeFrame, GoodTransport, GoodNetwork, ShownNetwork, Left, IsTagged, Untagged, Num16;
    var packet := EncodePacket(n, t, payload);
    UntaggedRoundTripIff(d, n, t, payload);
    if tag.None? {
      UntaggedFrame(d, packet);
    } else {
      TaggedFrame(d, tag.value, packet);
      var b := EncodeFrame(d, tag, packet);
      TagPreservesMeaningIff(b);
      var inner := Decode(Untagged(b), 1);
      DatalinkKept(d, packet);
      VlanApart(inner, d, tag.value, Layers(d, Some(ShownNetwork(n)), Some(t.t), Left(t, payload)));
    }
  }

  /** Setting the VLAN loses nothing of an outcome whose data link is known. */
  lemma VlanApart(r: Outcome, d: Datalink, vlan: uint16, s: Layers)
    requires d.vlan == 0 && s.l2 == d && (r.Decoded? ==> r.layers.l2 == d)
    ensures WithVlan(r, vlan) == Decoded(s.(l2 := d.(vlan := vlan))) <==> r == Decoded(s)
  {
    if r.Decoded? {
      assert r.layers == r.layers.(l2 := d);
    }
  }

  lemma DatalinkKept(d: Datalink, packet: bytes)
    requires |d.dstMac| == 6 && |d.srcMac| == 6 && d.vlan == 0 && d.etherType != ETHER_VLAN
    ensures var r := Decode(EncodeEthernet(d) + packet, 1);
            r.Decoded? ==> r.layers.l2 == d
  {
    hide Ethernet, Upper, EncodeEthernet;
    var s := Layers(NO_DATALINK, None, None, EncodeEthernet(d) + packet);
    EthernetDecoded(d, packet, s);
    UpperKeepsDatalink(s.(l2 := d, data := packet));
  }

  lemma UpperKeepsDatalink(s: Layers)
    ensures Upper(s).Decoded? ==> Upper(s).layers.l2 == s.l2
  {
    hide Num16;
  }
}
