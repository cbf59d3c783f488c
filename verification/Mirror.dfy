/** The mirror's packet assembly (mirrorIPFIX with mirror/ipv4.go and mirror/udp.go):
    header templates and a packet buffer that are rewritten for every message. */
module Mirror {
  import opened Bytes
  import Packet

  const IPV4_LENGTH := 20
  const UDP_LENGTH := 8
  const SRC_PORT := 55117

  // ---------- The packet that a message should become

  function IpHeader(length: uint16, src: bytes, dst: bytes): bytes {
    [0x45, 0] + BE16(length) + [0, 0, 0, 0, 64, 17, 0, 0] + src + dst
  }

  function UdpHeader(port: uint16, length: uint16): bytes {
    BE16(SRC_PORT) + BE16(port) + BE16(length) + [0, 0]
  }

  /** The addresses are the last four bytes of 16-byte ones; both lengths are 16-bit
      numbers. */
  function Assembled(src: bytes, dst: bytes, port: uint16, body: bytes): bytes
    requires |src| >= 16 && |dst| >= 16
  {
    IpHeader(Wrap16(IPV4_LENGTH + Wrap16(|body| + UDP_LENGTH)), src[12..16], dst[12..16])
    + UdpHeader(port, Wrap16(UDP_LENGTH + |body|)) + body
  }

  // ---------- The assembly in place

  method PutUint16(a: array<byte>, i: nat, n: uint16)
    requires i + 2 <= a.Length
    modifies a
    ensures a[..] == old(a[..i]) + BE16(n) + old(a[i + 2..])
  {
    a[i], a[i + 1] := Hi(n), Lo(n);
  }

  method Copy(a: array<byte>, i: nat, s: bytes)
    requires i + |s| <= a.Length
    modifies a
    ensures a[..] == old(a[..i]) + s + old(a[i + |s|..])
  {
    for k := 0 to |s|
      invariant forall j | 0 <= j < i :: a[j] == old(a[j])
      invariant forall j | 0 <= j < k :: a[i + j] == s[j]
      invariant forall j | i + k <= j < a.Length :: a[j] == old(a[j])
    {
      a[i + k] := s[k];
    }
    assert a[..i] == old(a[..i]);
    assert a[i..i + |s|] == s;
    assert a[i + |s|..] == old(a[i + |s|..]);
    assert a[..] == a[..i] + a[i..i + |s|] + a[i + |s|..];
  }

  /** The header template of NewIPv4HeaderTpl: no length and no addresses yet. */
  method MarshalIp() returns (a: array<byte>)
    ensures fresh(a) && a[..] == IpHeader(0, [0, 0, 0, 0], [0, 0, 0, 0])
  {
    a := new byte[IPV4_LENGTH](_ => 0);
    a[0], a[8], a[9] := 0x45, 64, 17;
    NoChecksum();
    hide BE16;
    assert a[..] == [0x45, 0, 0, 0, 0, 0, 0, 0, 64, 17, 0, 0, 0, 0, 0, 0, 0, 0, 0, 0];
  }

  method MarshalUdp(port: uint16) returns (a: array<byte>)
    ensures fresh(a) && a[..] == UdpHeader(port, UDP_LENGTH)
  {
    a := new byte[UDP_LENGTH](_ => 0);
    ghost var zeros := a[..];
    PutUint16(a, 0, SRC_PORT);
    PutUint16(a, 2, port);
    PutUint16(a, 4, UDP_LENGTH);
    hide BE16;
    assert a[6..] == [0, 0];
    assert a[..] == BE16(SRC_PORT) + BE16(port) + BE16(UDP_LENGTH) + [0, 0];
  }

  class Worker {
    const dst: bytes
    const port: uint16
    const ipHeader: array<byte>
    const udpHeader: array<byte>
    const packet: array<byte>

    ghost predicate Apart() {
      ipHeader != udpHeader && ipHeader != packet && udpHeader != packet
    }

    /** The header buffers hold their templates with some length and addresses. */
    ghost predicate Valid()
      reads ipHeader, udpHeader
    {
      && |dst| >= 16 && Apart()
      && (exists n: uint16, src, d | |src| == 4 && |d| == 4 :: ipHeader[..] == IpHeader(n, src, d))
      && (exists n: uint16 :: udpHeader[..] == UdpHeader(port, n))
    }

    constructor (dst: bytes, port: uint16, size: nat)
      requires |dst| >= 16
      ensures Valid() && this.dst == dst && this.port == port && packet.Length == size
      ensures fresh(ipHeader) && fresh(udpHeader) && fresh(packet)
    {
      this.dst, this.port := dst, port;
      packet := new byte[size](_ => 0);
      var ip := MarshalIp();
      var udp := MarshalUdp(port);
      ipHeader, udpHeader := ip, udp;
      new;
    }

    /** The header buffers for one message: SetAddrs and both SetLen. */
    method SetHeaders(src: bytes, n: nat)
      requires Valid() && |src| >= 16
      modifies ipHeader, udpHeader
      ensures Valid()
      ensures ipHeader[..] == IpHeader(Wrap16(IPV4_LENGTH + Wrap16(n + UDP_LENGTH)), src[12..16], dst[12..16])
      ensures udpHeader[..] == UdpHeader(port, Wrap16(UDP_LENGTH + n))
    {
      hide IpHeader, UdpHeader, BE16, Wrap16;
      ghost var l: uint16, s, d :| |s| == 4 && |d| == 4 && ipHeader[..] == IpHeader(l, s, d);
      ghost var m: uint16 :| udpHeader[..] == UdpHeader(port, m);
      HeaderSizes(l, s, d, port, m);
      var from, to := src[12..16], dst[12..16];
      SetSrc(l, s, d, from);
      Copy(ipHeader, 12, from);
      SetDst(l, from, d, to);
      Copy(ipHeader, 16, to);
      var length := Wrap16(IPV4_LENGTH + Wrap16(n + UDP_LENGTH));
      SetLength(l, from, to, length);
      PutUint16(ipHeader, 2, length);
      var udpLength := Wrap16(UDP_LENGTH + n);
      SetUdpLength(port, m, udpLength);
      PutUint16(udpHeader, 4, udpLength);
    }

    /** Both headers and the body one after the other in the packet buffer. */
    method Join(body: bytes)
      requires Apart() && ipHeader.Length == 20 && udpHeader.Length == 8 && 28 + |body| <= packet.Length
      modifies packet
      ensures packet[..28 + |body|] == ipHeader[..] + udpHeader[..] + body
    {
      ghost var ip, udp := ipHeader[..], udpHeader[..];
      Copy(packet, 0, ipHeader[..]);
      assert packet[..20] == ip;
      Copy(packet, 20, udpHeader[..]);
      assert packet[..28] == ip + udp;
      Copy(packet, 28, body);
    }

    /** One turn of the loop. None stands for a run-time panic: a source address of
        fewer than 16 bytes, or a message that does not fit into the packet buffer. */
    method Assemble(src: bytes, body: bytes) returns (sent: Option<bytes>)
      requires Valid()
      modifies ipHeader, udpHeader, packet
      ensures Valid()
      ensures sent == Sent(packet.Length, dst, port, src, body)
      ensures sent.None? <==> Panics(packet.Length, Msg(src, body))
      ensures sent.Some? ==> Carries(sent.value, dst, port, Msg(src, body))
    {
      hide IpHeader, UdpHeader, Wrap16, Sent, Carries;
      SentCarries(packet.Length, dst, port, src, body);
      SentIs(packet.Length, dst, port, src, body);
      if |src| < 16 { return None; }
      SetHeaders(src, |body|);
      HeaderSizes(Wrap16(IPV4_LENGTH + Wrap16(|body| + UDP_LENGTH)), src[12..16], dst[12..16],
                  port, Wrap16(UDP_LENGTH + |body|));
      assert |ipHeader[..]| == 20 && |udpHeader[..]| == 8;
      var end := IPV4_LENGTH + UDP_LENGTH + |body|;
      if end > packet.Length { return None; }
      Join(body);
      sent := Some(packet[..end]);
    }

    /** The worker's loop over a run of messages, up to a panic. */
    method Run(msgs: seq<Msg>) returns (sent: seq<bytes>)
      requires Valid()
      modifies ipHeader, udpHeader, packet
      ensures Valid() && sent == SentAll(packet.Length, dst, port, msgs)
      ensures |sent| <= |msgs| && forall i | 0 <= i < |sent| :: Carries(sent[i], dst, port, msgs[i])
      ensures forall i | 0 <= i < |sent| :: !Panics(packet.Length, msgs[i])
      ensures |sent| < |msgs| ==> Panics(packet.Length, msgs[|sent|])
    {
      hide Sent, Carries, Panics;
      SentAllCarries(packet.Length, dst, port, msgs);
      sent := [];
      assert msgs[0..] == msgs;
      for i := 0 to |msgs|
        invariant Valid() && SentAll(packet.Length, dst, port, msgs) == sent + SentAll(packet.Length, dst, port, msgs[i..])
      {
        assert msgs[i..][0] == msgs[i] && msgs[i..][1..] == msgs[i + 1..];
        var p := Assemble(msgs[i].src, msgs[i].body);
        if p.None? { return; }
        sent := sent + [p.value];
      }
    }
  }

  datatype Msg = Msg(src: bytes, body: bytes)

  function Sent(size: nat, dst: bytes, port: uint16, src: bytes, body: bytes): Option<bytes>
    requires |dst| >= 16
  {
    if |src| >= 16 && IPV4_LENGTH + UDP_LENGTH + |body| <= size then Some(Assembled(src, dst, port, body)) else None
  }

  function SentAll(size: nat, dst: bytes, port: uint16, msgs: seq<Msg>): seq<bytes>
    requires |dst| >= 16
    decreases |msgs|
  {
    if msgs == [] then []
    else
      var p := Sent(size, dst, port, msgs[0].src, msgs[0].body);
      if p.None? then [] else [p.value] + SentAll(size, dst, port, msgs[1..])
  }

  lemma HeaderSizes(n: uint16, s: bytes, d: bytes, port: uint16, m: uint16)
    requires |s| == 4 && |d| == 4
    ensures |IpHeader(n, s, d)| == 20 && |UdpHeader(port, m)| == 8
  {
  }

  lemma SetSrc(n: uint16, s: bytes, d: bytes, x: bytes)
    requires |s| == 4 && |d| == 4 && |x| == 4
    ensures var h := IpHeader(n, s, d);
            |h| == 20 && h[..12] + x + h[16..] == IpHeader(n, x, d)
  {
    hide BE16;
    var fixed := [0x45, 0] + BE16(n) + [0, 0, 0, 0, 64, 17, 0, 0];
    var h := IpHeader(n, s, d);
    assert h[..12] == fixed && h[16..] == d;
  }

  lemma SetDst(n: uint16, s: bytes, d: bytes, x: bytes)
    requires |s| == 4 && |d| == 4 && |x| == 4
    ensures var h := IpHeader(n, s, d);
            |h| == 20 && h[..16] + x + h[20..] == IpHeader(n, s, x)
  {
    hide BE16;
    var fixed := [0x45, 0] + BE16(n) + [0, 0, 0, 0, 64, 17, 0, 0];
    var h := IpHeader(n, s, d);
    assert h[..16] == fixed + s && h[20..] == [];
  }

  lemma SetLength(n: uint16, s: bytes, d: bytes, m: uint16)
    requires |s| == 4 && |d| == 4
    ensures var h := IpHeader(n, s, d);
            |h| == 20 && h[..2] + BE16(m) + h[4..] == IpHeader(m, s, d)
  {
    hide BE16;
    var h := IpHeader(n, s, d);
    assert h[..2] == [0x45, 0] && h[4..] == [0, 0, 0, 0, 64, 17, 0, 0] + s + d;
  }

  lemma SetUdpLength(port: uint16, n: uint16, m: uint16)
    ensures var h := UdpHeader(port, n);
            |h| == 8 && h[..4] + BE16(m) + h[6..] == UdpHeader(port, m)
  {
    hide BE16;
    var h := UdpHeader(port, n);
    assert h[..4] == BE16(SRC_PORT) + BE16(port) && h[6..] == [0, 0];
  }

  // ---------- The packet decoder undoes the assembly

  lemma Drop(front: bytes, rest: bytes, b: bytes)
    requires b == front + rest
    ensures At(b, 0, front) && b[|front|..] == rest
  {
  }

  /** The fields of an IP header at the start of a packet. */
  lemma IpFields(length: uint16, src: bytes, dst: bytes, b: bytes)
    requires |src| == 4 && |dst| == 4 && At(b, 0, IpHeader(length, src, dst))
    ensures |b| >= 20 && b[0] == 0x45 && b[1] == 0 && Packet.Num16(b, 2) == length
    ensures b[4] == 0 && b[5] == 0 && b[6] == 0 && b[8] == 64 && b[9] == 17 && b[10] == 0 && b[11] == 0
    ensures b[12..16] == src && b[16..20] == dst
  {
    hide BE16, Packet.Num16;
    var front, n, fixed := [0x45, 0], BE16(length), [0, 0, 0, 0, 64, 17, 0, 0];
    AtSplit(b, 0, front + n + fixed + src, dst);
    AtSplit(b, 0, front + n + fixed, src);
    AtSplit(b, 0, front + n, fixed);
    AtSplit(b, 0, front, n);
    AtSlice(b, 12, src);
    AtSlice(b, 16, dst);
    Packet.Num16At(b, 2, length);
    FixedAt(b, front, fixed);
  }

  lemma FixedAt(b: bytes, front: bytes, fixed: bytes)
    requires |front| == 2 && |fixed| == 8 && At(b, 0, front) && At(b, 4, fixed)
    ensures |b| >= 12 && b[0] == front[0] && b[1] == front[1]
    ensures b[4] == fixed[0] && b[5] == fixed[1] && b[6] == fixed[2] && b[8] == fixed[4] && b[9] == fixed[5]
    ensures b[10] == fixed[6] && b[11] == fixed[7]
  {
    AtIndex(b, 0, front, 0);
    AtIndex(b, 0, front, 1);
    AtIndex(b, 4, fixed, 0);
    AtIndex(b, 4, fixed, 1);
    AtIndex(b, 4, fixed, 2);
    AtIndex(b, 4, fixed, 4);
    AtIndex(b, 4, fixed, 5);
    AtIndex(b, 4, fixed, 6);
    AtIndex(b, 4, fixed, 7);
  }

  lemma IpHeaderDecoded(length: uint16, src: bytes, dst: bytes, rest: bytes, s: Packet.Layers)
    requires |src| == 4 && |dst| == 4 && s.data == IpHeader(length, src, dst) + rest
    ensures Packet.IPv4(s) == Packet.Decoded(s.(l3 := Some(Packet.V4(4, 0, length, 0, 0, 64, 17, 0, src, dst)), data := rest))
  {
    HeaderSizes(length, src, dst, 0, 0);
    hide IpHeader, At;
    Drop(IpHeader(length, src, dst), rest, s.data);
    IpFields(length, src, dst, s.data);
  }

  lemma UdpFields(port: uint16, length: uint16, b: bytes)
    requires At(b, 0, UdpHeader(port, length))
    ensures |b| >= 8 && Packet.Num16(b, 0) == SRC_PORT && Packet.Num16(b, 2) == port
  {
    hide BE16, Packet.Num16;
    AtSplit(b, 0, BE16(SRC_PORT) + BE16(port) + BE16(length), [0, 0]);
    AtSplit(b, 0, BE16(SRC_PORT) + BE16(port), BE16(length));
    AtSplit(b, 0, BE16(SRC_PORT), BE16(port));
    Packet.Num16At(b, 0, SRC_PORT);
    Packet.Num16At(b, 2, port);
  }

  lemma UdpHeaderDecoded(port: uint16, length: uint16, rest: bytes, s: Packet.Layers)
    requires s.data == UdpHeader(port, length) + rest && s.l3.Some? && Packet.Protocol(s.l3.value) == 17
    ensures Packet.NextLayer(s) == Packet.Decoded(s.(l4 := Some(Packet.Udp(SRC_PORT, port)), data := rest))
  {
    HeaderSizes(0, [0, 0, 0, 0], [0, 0, 0, 0], port, length);
    hide UdpHeader, At, Packet.Num16;
    Drop(UdpHeader(port, length), rest, s.data);
    UdpFields(port, length, s.data);
  }

  /** What an assembled packet decodes to: version 4, UDP, the low 16 bits of its
      length, both addresses and ports, and exactly the payload. The total length is
      the packet's own exactly when that fits into 16 bits. */
  lemma AssembledDecodes(src: bytes, dst: bytes, port: uint16, body: bytes)
    requires |src| >= 16 && |dst| >= 16
    ensures var length := Wrap16(20 + Wrap16(|body| + 8));
            && Packet.Decode(Assembled(src, dst, port, body), 11)
               == Packet.Decoded(Packet.Layers(Packet.NO_DATALINK, Some(Packet.V4(4, 0, length, 0, 0, 64, 17, 0, src[12..16], dst[12..16])),
                                               Some(Packet.Udp(55117, port)), body))
            && (length == |Assembled(src, dst, port, body)| <==> |body| + 28 <= 0xffff)
  {
    hide Packet.IPv4, Packet.NextLayer, IpHeader, UdpHeader;
    var n, m := Wrap16(IPV4_LENGTH + Wrap16(|body| + UDP_LENGTH)), Wrap16(UDP_LENGTH + |body|);
    var from, to := src[12..16], dst[12..16];
    HeaderSizes(n, from, to, port, m);
    var b := Assembled(src, dst, port, body);
    var s := Packet.Layers(Packet.NO_DATALINK, None, None, b);
    assert b == IpHeader(n, from, to) + (UdpHeader(port, m) + body);
    IpHeaderDecoded(n, from, to, UdpHeader(port, m) + body, s);
    UdpHeaderDecoded(port, m, body, Packet.IPv4(s).layers);
  }

  // ---------- What a receiver makes of a packet

  /** A UDP datagram as RFC 768 and RFC 791 have it. The header checksum of the packet is
      left to the raw socket that sends it, and a UDP checksum of zero is none. */
  datatype Received = Received(src: bytes, dst: bytes, srcPort: uint16, dstPort: uint16, payload: bytes)

  /** The header of five words comes first. The total length says where the packet ends,
      the UDP length, which counts its own header, where the datagram does. */
  function Receive(p: bytes): Option<Received> {
    if |p| < 28 || p[0] != 0x45 || p[9] != 17 || U16(p, 26) != 0 then None
    else
      var total, length := U16(p, 2), U16(p, 24);
      if total > |p| || length < 8 || 20 + length > total then None
      else Some(Received(p[12..16], p[16..20], U16(p, 20), U16(p, 22), p[28..20 + length]))
  }

  /** The loop panics at a message whose sender's address has fewer than 16 bytes or that
      does not fit into the packet buffer. */
  predicate Panics(size: nat, m: Msg) {
    |m.src| < 16 || 28 + |m.body| > size
  }

  /** The packet is as long as both headers and the message, and a receiver gets exactly
      the message, from its sender and at the mirror's port, if and only if that length
      fits into 16 bits. */
  ghost predicate Carries(p: bytes, dst: bytes, port: uint16, m: Msg) {
    && |m.src| >= 16 && |dst| >= 16 && |p| == 28 + |m.body|
    && (Receive(p) == Some(Received(m.src[12..16], dst[12..16], 55117, port, m.body)) <==> |p| <= 0xffff)
  }

  lemma SentIs(size: nat, dst: bytes, port: uint16, src: bytes, body: bytes)
    requires |dst| >= 16
    ensures |src| < 16 || IPV4_LENGTH + UDP_LENGTH + |body| > size ==> Sent(size, dst, port, src, body) == None
    ensures |src| >= 16 && IPV4_LENGTH + UDP_LENGTH + |body| <= size ==>
              var from, to := src[12..16], dst[12..16];
              Sent(size, dst, port, src, body)
              == Some(IpHeader(Wrap16(IPV4_LENGTH + Wrap16(|body| + UDP_LENGTH)), from, to)
                      + UdpHeader(port, Wrap16(UDP_LENGTH + |body|)) + body)
  {
  }

  lemma SentCarries(size: nat, dst: bytes, port: uint16, src: bytes, body: bytes)
    requires |dst| >= 16
    ensures var sent, m := Sent(size, dst, port, src, body), Msg(src, body);
            && (sent.None? <==> Panics(size, m))
            && (sent.Some? ==> Carries(sent.value, dst, port, m))
  {
    hide Assembled, Carries;
    if !Panics(size, Msg(src, body)) {
      AssembledCarries(src, dst, port, body);
    }
  }

  /** Every packet of a run carries its own message, and only a panic ends the run. */
  lemma {:induction false} SentAllCarries(size: nat, dst: bytes, port: uint16, msgs: seq<Msg>)
    requires |dst| >= 16
    ensures var sent := SentAll(size, dst, port, msgs);
            && |sent| <= |msgs|
            && (forall i | 0 <= i < |sent| :: Carries(sent[i], dst, port, msgs[i]) && !Panics(size, msgs[i]))
            && (|sent| < |msgs| ==> Panics(size, msgs[|sent|]))
    decreases |msgs|
  {
    hide Sent, Carries, Panics;
    if msgs != [] {
      SentCarries(size, dst, port, msgs[0].src, msgs[0].body);
      SentAllCarries(size, dst, port, msgs[1..]);
      var sent, rest := SentAll(size, dst, port, msgs), SentAll(size, dst, port, msgs[1..]);
      assert msgs[0] == Msg(msgs[0].src, msgs[0].body);
      if !Panics(size, msgs[0]) {
        forall i | 0 <= i < |sent|
          ensures Carries(sent[i], dst, port, msgs[i]) && !Panics(size, msgs[i])
        {
          if i > 0 {
            assert sent[i] == rest[i - 1] && msgs[i] == msgs[1..][i - 1];
          }
        }
        assert |rest| < |msgs[1..]| ==> msgs[1..][|rest|] == msgs[|sent|];
      }
    }
  }

  /** What lies where in an assembled packet. */
  lemma PacketFields(n: uint16, src: bytes, dst: bytes, port: uint16, m: uint16, body: bytes, p: bytes)
    requires |src| == 4 && |dst| == 4 && p == IpHeader(n, src, dst) + UdpHeader(port, m) + body
    ensures |p| == 28 + |body| && p[0] == 0x45 && p[9] == 17 && U16(p, 2) == n
    ensures p[12..16] == src && p[16..20] == dst && U16(p, 20) == 55117 && U16(p, 22) == port
    ensures U16(p, 24) == m && U16(p, 26) == 0 && p[28..] == body
  {
    hide U16, BE16, Packet.Num16;
    HeaderSizes(n, src, dst, port, m);
    AtPart(p, 0, [], IpHeader(n, src, dst), UdpHeader(port, m) + body);
    AtPart(p, 20, IpHeader(n, src, dst), UdpHeader(port, m), body);
    hide At;
    IpFields(n, src, dst, p);
    assert p[28..] == body;
    AtSplit(p, 0, [0x45, 0] + BE16(n) + [0, 0, 0, 0, 64, 17, 0, 0] + src, dst);
    AtSplit(p, 0, [0x45, 0] + BE16(n) + [0, 0, 0, 0, 64, 17, 0, 0], src);
    AtSplit(p, 0, [0x45, 0] + BE16(n), [0, 0, 0, 0, 64, 17, 0, 0]);
    AtSplit(p, 0, [0x45, 0], BE16(n));
    At16(p, 2, n);
    UdpWords(port, m, p, 20);
  }

  lemma UdpWords(port: uint16, m: uint16, p: bytes, q: nat)
    requires At(p, q, UdpHeader(port, m))
    ensures q + 8 <= |p| && U16(p, q) == 55117 && U16(p, q + 2) == port && U16(p, q + 4) == m && U16(p, q + 6) == 0
  {
    hide U16, BE16;
    AtSplit(p, q, BE16(SRC_PORT) + BE16(port) + BE16(m), [0, 0]);
    AtSplit(p, q, BE16(SRC_PORT) + BE16(port), BE16(m));
    AtSplit(p, q, BE16(SRC_PORT), BE16(port));
    At16(p, q, SRC_PORT);
    At16(p, q + 2, port);
    At16(p, q + 4, m);
    NoChecksum();
    At16(p, q + 6, 0);
  }

  lemma NoChecksum()
    ensures BE16(0) == [0, 0]
  {
  }

  lemma AssembledCarries(src: bytes, dst: bytes, port: uint16, body: bytes)
    requires |src| >= 16 && |dst| >= 16
    ensures Carries(Assembled(src, dst, port, body), dst, port, Msg(src, body))
  {
    hide IpHeader, UdpHeader, U16;
    var n, m := Wrap16(IPV4_LENGTH + Wrap16(|body| + UDP_LENGTH)), Wrap16(UDP_LENGTH + |body|);
    var p := Assembled(src, dst, port, body);
    PacketFields(n, src[12..16], dst[12..16], port, m, body, p);
    Lengths(|body|);
    if |p| <= 0xffff {
      assert p[28..20 + m] == body;
    }
  }

  /** The two lengths, and when they are those of the packet. */
  lemma Lengths(k: nat)
    ensures var n, m := Wrap16(IPV4_LENGTH + Wrap16(k + UDP_LENGTH)), Wrap16(UDP_LENGTH + k);
            if k + 28 <= 0xffff then n == k + 28 && m == k + 8
            else 20 + m > n || m != k + 8
  {
  }
}
