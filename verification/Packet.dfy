/** The packet header decoder of the packet package, layer by layer. Addresses are kept as
    the bytes they are printed from. */
module Packet {
  import opened Bytes

  datatype Datalink = Datalink(srcMac: bytes, dstMac: bytes, vlan: uint16, etherType: uint16)

  datatype Network =
    | V4(version: nat, tos: nat, totalLen: nat, id: nat, flags: nat, ttl: nat, protocol: nat, checksum: nat, src: bytes, dst: bytes)
    | V6(version: nat, trafficClass: nat, flowLabel: nat, payloadLen: nat, nextHeader: nat, hopLimit: nat, src: bytes, dst: bytes)

  datatype Transport =
    | Icmp(icmpType: nat, code: nat, rest: bytes)
    | Tcp(srcPort: nat, dstPort: nat, dataOffset: nat, flags: nat)
    | Udp(srcPort: nat, dstPort: nat)

  datatype Error =
    | ShortEthernet | ShortIPv4 | ShortIPv6 | ShortIcmp | ShortTcp | ShortUdp
    | UnknownEtherType | UnknownTransport | UnknownNetwork | UnknownHeaderProtocol

  const ETHER_IPV4 := 0x0800
  const ETHER_IPV6 := 0x86DD
  const ETHER_VLAN := 0x8100

  /** What has been decoded, and the bytes that are left. */
  datatype Layers = Layers(l2: Datalink, l3: Option<Network>, l4: Option<Transport>, data: bytes)

  const NO_DATALINK := Datalink([], [], 0, 0)

  /** An error leaves the layers decoded so far. A read past the end of the data is a
      run-time panic. */
  datatype Outcome = Decoded(layers: Layers) | Failed(error: Error, layers: Layers) | Panicked

  // ---------- What each layer computes

  function Num16(b: bytes, i: nat): nat
    requires i + 2 <= |b|
  {
    b[i] as int * 0x100 + b[i + 1]
  }

  lemma Num16At(b: bytes, i: nat, n: uint16)
    requires At(b, i, BE16(n))
    ensures Num16(b, i) == n
  {
    AtIndex(b, i, BE16(n), 0);
    AtIndex(b, i, BE16(n), 1);
    QuotRem(n, 0x100);
  }

  /** The addresses are only filled in for untagged frames. */
  function DecodeIeee802(b: bytes): Datalink
    requires |b| >= 14
  {
    var t := Num16(b, 12);
    if t == ETHER_VLAN then Datalink([], [], 0, t) else Datalink(b[6..12], b[..6], 0, t)
  }

  /** The frame without bytes 12 to 15, the VLAN tag. */
  function Untagged(b: bytes): bytes
    requires |b| >= 16
  {
    b[..12] + b[16..]
  }

  predicate IsTagged(b: bytes) {
    |b| >= 14 && Num16(b, 12) == ETHER_VLAN
  }

  function Ethernet(s: Layers): Outcome {
    var b := s.data;
    if |b| < 14 then Failed(ShortEthernet, s)
    else if !IsTagged(b) then Decoded(s.(l2 := DecodeIeee802(b), data := b[14..]))
    else if |b| < 18 then Panicked
    else
      var u := Untagged(b);
      Decoded(s.(l2 := DecodeIeee802(u).(vlan := Num16(b, 14)), data := u[14..]))
  }

  function IPv4(s: Layers): Outcome {
    var b := s.data;
    if |b| < 20 then Failed(ShortIPv4, s)
    else
      var h := V4(b[0] / 16, b[1], Num16(b, 2), Num16(b, 4), b[6] % 8, b[8], b[9], Num16(b, 10), b[12..16], b[16..20]);
      Decoded(s.(l3 := Some(h), data := b[20..]))
  }

  function IPv6(s: Layers): Outcome {
    var b := s.data;
    if |b| < 40 then Failed(ShortIPv6, s)
    else
      var h := V6(b[0] / 16, b[0] % 16 * 16 + b[1] / 16, b[1] % 16 * 0x1_0000 + Num16(b, 2), Num16(b, 4), b[6], b[7], b[8..24], b[24..40]);
      Decoded(s.(l3 := Some(h), data := b[40..]))
  }

  function Protocol(n: Network): nat {
    if n.V4? then n.protocol else n.nextHeader
  }

  function NextLayer(s: Layers): Outcome {
    var b := s.data;
    if s.l3.None? then Failed(UnknownNetwork, s)
    else
      match Protocol(s.l3.value)
      case 1 =>
        if |b| < 5 then Failed(ShortIcmp, s)
        else Decoded(s.(l4 := Some(Icmp(b[0], b[1], b[4..])), data := b[4..]))
      case 6 =>
        if |b| < 20 then Failed(ShortTcp, s)
        else Decoded(s.(l4 := Some(Tcp(Num16(b, 0), Num16(b, 2), b[12] / 16, b[12] as int % 2 * 0x100 + b[13])), data := b[20..]))
      case 17 =>
        if |b| < 8 then Failed(ShortUdp, s)
        else Decoded(s.(l4 := Some(Udp(Num16(b, 0), Num16(b, 2))), data := b[8..]))
      case _ => Failed(UnknownTransport, s)
  }

  /** The next step, unless this one has already ended the decoding. */
  function Then(r: Outcome, next: Layers -> Outcome): Outcome {
    if r.Decoded? then next(r.layers) else r
  }

  /** The layers above the data link. */
  function Upper(s: Layers): Outcome {
    if s.l2.etherType == ETHER_IPV4 then Then(IPv4(s), NextLayer)
    else if s.l2.etherType == ETHER_IPV6 then Then(IPv6(s), NextLayer)
    else Failed(UnknownEtherType, s)
  }

  function EthernetHeader(s: Layers): Outcome {
    Then(Ethernet(s), Upper)
  }

  function Decode(b: bytes, protocol: uint32): Outcome {
    var s := Layers(NO_DATALINK, None, None, b);
    if protocol == 1 then EthernetHeader(s)
    else if protocol == 11 then Then(IPv4(s), NextLayer)
    else if protocol == 12 then Then(IPv6(s), NextLayer)
    else Failed(UnknownHeaderProtocol, s)
  }

  // ---------- VLAN tags

  /** The same outcome, but for the VLAN of the data link. */
  function WithVlan(r: Outcome, vlan: uint16): Outcome {
    match r
    case Decoded(s) => Decoded(s.(l2 := s.l2.(vlan := vlan)))
    case Failed(e, s) => Failed(e, s.(l2 := s.l2.(vlan := vlan)))
    case Panicked => Panicked
  }

  /** The decoder fails with a run-time panic exactly on tagged frames that end before
      the inner EtherType does. */
  lemma PanicIff(b: bytes)
    ensures Decode(b, 1).Panicked? <==> IsTagged(b) && |b| < 18
  {
    hide IPv4, IPv6, NextLayer;
    var r := Ethernet(Layers(NO_DATALINK, None, None, b));
    if r.Decoded? {
      UpperNeverPanics(r.layers);
    }
  }

  lemma UpperNeverPanics(s: Layers)
    ensures !Upper(s).Panicked?
  {
  }

  lemma LayersIgnoreVlan(s: Layers, vlan: uint16)
    ensures var t := s.(l2 := s.l2.(vlan := vlan));
            && IPv4(t) == WithVlan(IPv4(s), vlan) && IPv6(t) == WithVlan(IPv6(s), vlan)
            && NextLayer(t) == WithVlan(NextLayer(s), vlan)
  {
    hide Num16;
  }

  lemma UpperIgnoresVlan(s: Layers, vlan: uint16)
    ensures Upper(s.(l2 := s.l2.(vlan := vlan))) == WithVlan(Upper(s), vlan)
  {
    hide IPv4, IPv6, NextLayer;
    LayersIgnoreVlan(s, vlan);
    if IPv4(s).Decoded? {
      LayersIgnoreVlan(IPv4(s).layers, vlan);
    }
    if IPv6(s).Decoded? {
      LayersIgnoreVlan(IPv6(s).layers, vlan);
    }
  }

  /** A tagged frame means what it means without the tag, with the tag as its VLAN, if
      and only if the frame inside is not tagged again. */
  lemma TagPreservesMeaningIff(b: bytes)
    requires IsTagged(b) && |b| >= 18
    ensures Decode(b, 1) == WithVlan(Decode(Untagged(b), 1), Num16(b, 14)) <==> !IsTagged(Untagged(b))
  {
    hide Upper;
    var u := Untagged(b);
    var s := Layers(NO_DATALINK, None, None, b);
    if !IsTagged(u) {
      var inner := Ethernet(s.(data := u)).layers;
      UpperIgnoresVlan(inner, Num16(b, 14));
    } else {
      TwiceTagged(s);
      TaggedLeaves(s.(data := u));
    }
  }

  /** Of a frame tagged twice only one tag is removed, and no upper layer is decoded. */
  lemma TwiceTagged(s: Layers)
    requires IsTagged(s.data) && |s.data| >= 18 && IsTagged(Untagged(s.data))
    ensures var r := EthernetHeader(s);
            r.Failed? && r.error == UnknownEtherType && |r.layers.data| == |s.data| - 18
  {
  }

  /** Decoding a tagged frame leaves fewer bytes than its header and one tag. */
  lemma TaggedLeaves(s: Layers)
    requires IsTagged(s.data)
    ensures var r := EthernetHeader(s);
            !r.Panicked? ==> |r.layers.data| <= |s.data| - 18
  {
    hide Upper;
    var r := Ethernet(s);
    if r.Decoded? {
      UpperShrinks(r.layers);
    }
  }

  lemma UpperShrinks(s: Layers)
    ensures !Upper(s).Panicked? ==> |Upper(s).layers.data| <= |s.data|
  {
  }
}
