/** The decoder of the packet package as it runs: it walks a slice of the caller's
    buffer and strips a VLAN tag in place. */
module PacketDecoder {
  import opened Bytes
  import opened Packet

  class Decoder {
    var buf: array<byte>
    /** The slice of buf that is left to decode. */
    var lo: nat
    var hi: nat
    var l2: Datalink
    var l3: Option<Network>
    var l4: Option<Transport>

    ghost predicate Valid()
      reads this
    {
      lo <= hi <= buf.Length
    }

    ghost function State(): Layers
      requires Valid()
      reads this, buf
    {
      Layers(l2, l3, l4, buf[lo..hi])
    }

    constructor (b: array<byte>)
      ensures Valid() && buf == b && State() == Layers(NO_DATALINK, None, None, b[..])
    {
      buf, lo, hi := b, 0, b.Length;
      l2, l3, l4 := NO_DATALINK, None, None;
      new;
      assert b[0..b.Length] == b[..];
    }

    /** Takes bytes 12 to 15 out of the slice. */
    method StripTag()
      requires Valid() && hi - lo >= 18
      modifies this`hi, buf
      ensures Valid() && buf[lo..hi] == Untagged(old(buf[lo..hi]))
    {
      ghost var b := buf[lo..hi];
      buf[lo + 12], buf[lo + 13] := buf[lo + 16], buf[lo + 17];
      MoveDown(buf, lo + 14, hi);
      hi := hi - 4;
      ghost var c := buf[lo..hi];
      assert forall k | 0 <= k < |c| :: c[k] == buf[lo + k];
      Reassembled(b, c);
    }

    method Ethernet() returns (err: Option<Error>, panicked: bool)
      requires Valid()
      modifies this, buf
      ensures Valid() && buf == old(buf)
      ensures match Packet.Ethernet(old(State()))
              case Decoded(s) => err == None && !panicked && State() == s
              case Failed(e, s) => err == Some(e) && !panicked && State() == s
              case Panicked => panicked
    {
      ghost var b := buf[lo..hi];
      if hi - lo < 14 { return Some(ShortEthernet), false; }
      var d := DecodeIeee802(buf[lo..hi]);
      if d.etherType == ETHER_VLAN {
        if hi - lo < 18 { return None, true; }
        var vlan := buf[lo + 14] as int * 0x100 + buf[lo + 15];
        StripTag();
        d := DecodeIeee802(buf[lo..hi]).(vlan := vlan);
      }
      l2 := d;
      ghost var rest := buf[lo..hi];
      lo := lo + 14;
      assert buf[lo..hi] == rest[14..];
      err, panicked := None, false;
    }

    method IPv4() returns (err: Option<Error>)
      requires Valid()
      modifies this
      ensures Valid() && buf == old(buf)
      ensures match Packet.IPv4(old(State()))
              case Decoded(s) => err == None && State() == s
              case Failed(e, s) => err == Some(e) && State() == s
              case Panicked => false
    {
      var b := buf[lo..hi];
      if |b| < 20 { return Some(ShortIPv4); }
      l3 := Some(V4(b[0] / 16, b[1], Num16(b, 2), Num16(b, 4), b[6] % 8, b[8], b[9], Num16(b, 10), b[12..16], b[16..20]));
      lo := lo + 20;
      assert buf[lo..hi] == b[20..];
      err := None;
    }

    method IPv6() returns (err: Option<Error>)
      requires Valid()
      modifies this
      ensures Valid() && buf == old(buf)
      ensures match Packet.IPv6(old(State()))
              case Decoded(s) => err == None && State() == s
              case Failed(e, s) => err == Some(e) && State() == s
              case Panicked => false
    {
      var b := buf[lo..hi];
      if |b| < 40 { return Some(ShortIPv6); }
      l3 := Some(V6(b[0] / 16, b[0] % 16 * 16 + b[1] / 16, b[1] % 16 * 0x1_0000 + Num16(b, 2), Num16(b, 4), b[6], b[7], b[8..24], b[24..40]));
      lo := lo + 40;
      assert buf[lo..hi] == b[40..];
      err := None;
    }

    method NextLayer() returns (err: Option<Error>)
      requires Valid()
      modifies this
      ensures Valid() && buf == old(buf)
      ensures match Packet.NextLayer(old(State()))
              case Decoded(s) => err == None && State() == s
              case Failed(e, s) => err == Some(e) && State() == s
              case Panicked => false
    {
      var b := buf[lo..hi];
      if l3.None? { return Some(UnknownNetwork); }
      var length;
      match Protocol(l3.value) {
        case 1 =>
          if |b| < 5 { return Some(ShortIcmp); }
          l4 := Some(Icmp(b[0], b[1], b[4..]));
          length := 4;
        case 6 =>
          if |b| < 20 { return Some(ShortTcp); }
          l4 := Some(Tcp(Num16(b, 0), Num16(b, 2), b[12] / 16, b[12] as int % 2 * 0x100 + b[13]));
          length := 20;
        case 17 =>
          if |b| < 8 { return Some(ShortUdp); }
          l4 := Some(Udp(Num16(b, 0), Num16(b, 2)));
          length := 8;
        case _ =>
          return Some(UnknownTransport);
      }
      lo := lo + length;
      assert buf[lo..hi] == b[length..];
      err := None;
    }

    method EthernetHeader() returns (err: Option<Error>, panicked: bool)
      requires Valid()
      modifies this, buf
      ensures Valid() && buf == old(buf)
      ensures match Packet.EthernetHeader(old(State()))
              case Decoded(s) => err == None && !panicked && State() == s
              case Failed(e, s) => err == Some(e) && !panicked && State() == s
              case Panicked => panicked
    {
      hide Packet.Ethernet, Packet.IPv4, Packet.IPv6, Packet.NextLayer;
      err, panicked := Ethernet();
      if panicked || err.Some? { return; }
      if l2.etherType == ETHER_IPV4 {
        err := IPv4();
        if err.Some? { return; }
        err := NextLayer();
      } else if l2.etherType == ETHER_IPV6 {
        err := IPv6();
        if err.Some? { return; }
        err := NextLayer();
      } else {
        err := Some(UnknownEtherType);
      }
    }

    method Decode(protocol: uint32) returns (err: Option<Error>, panicked: bool)
      requires Valid() && lo == 0 && hi == buf.Length && l2 == NO_DATALINK && l3 == None && l4 == None
      modifies this, buf
      ensures Valid() && buf == old(buf)
      ensures match Packet.Decode(old(buf[..]), protocol)
              case Decoded(s) => err == None && !panicked && State() == s
              case Failed(e, s) => err == Some(e) && !panicked && State() == s
              case Panicked => panicked
    {
      hide Packet.EthernetHeader, Packet.IPv4, Packet.IPv6, Packet.NextLayer;
      assert buf[lo..hi] == buf[..];
      panicked := false;
      if protocol == 1 {
        err, panicked := EthernetHeader();
      } else if protocol == 11 {
        err := IPv4();
        if err.Some? { return; }
        err := NextLayer();
      } else if protocol == 12 {
        err := IPv6();
        if err.Some? { return; }
        err := NextLayer();
      } else {
        err := Some(UnknownHeaderProtocol);
      }
    }
  }

  lemma Reassembled(b: bytes, c: bytes)
    requires |b| >= 18 && |c| == |b| - 4
    requires forall k | 0 <= k < 12 :: c[k] == b[k]
    requires forall k | 12 <= k < |c| :: c[k] == b[k + 4]
    ensures c == Untagged(b)
  {
    var u := Untagged(b);
    assert |c| == |u|;
    forall k | 0 <= k < |c|
      ensures c[k] == u[k]
    {
      if k >= 12 {
        assert u[k] == b[16..][k - 12] == b[k + 4];
      }
    }
  }

  /** Copies a[lo + 4..hi] four places down, over itself. */
  method MoveDown(a: array<byte>, lo: nat, hi: nat)
    requires lo + 4 <= hi <= a.Length
    modifies a
    ensures forall k | 0 <= k < lo :: a[k] == old(a[k])
    ensures forall k | lo <= k < hi - 4 :: a[k] == old(a[k + 4])
  {
    for i := lo to hi - 4
      invariant forall k | 0 <= k < lo :: a[k] == old(a[k])
      invariant forall k | lo <= k < i :: a[k] == old(a[k + 4])
      invariant forall k | i <= k < a.Length :: a[k] == old(a[k])
    {
      a[i] := a[i + 4];
    }
  }
}
