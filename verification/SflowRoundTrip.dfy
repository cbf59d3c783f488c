/** Decoding undoes exporting for sFlow version 5 datagrams, record by record. */
module SflowRoundTrip {
  import opened Bytes
  import opened Sflow
  import Packet

  // ---------- The agent's side

  /** The counter records of the standard: their numbers, the names under which they are
      stored, and the sizes of their fields. */
  datatype CounterKind = Generic | Ethernet | TokenRing | BaseVg | Vlan | Processor

  function KindNumber(k: CounterKind): uint32 {
    match k
    case Generic => 1
    case Ethernet => 2
    case TokenRing => 3
    case BaseVg => 4
    case Vlan => 5
    case Processor => 1001
  }

  function KindName(k: CounterKind): string {
    match k
    case Generic => "GenInt"
    case Ethernet => "EthInt"
    case TokenRing => "TRInt"
    case BaseVg => "VGInt"
    case Vlan => "Vlan"
    case Processor => "Proc"
  }

  function KindFields(k: CounterKind): seq<nat> {
    match k
    case Generic => [4, 4, 8, 4, 4, 8, 4, 4, 4, 4, 4, 4, 8, 4, 4, 4, 4, 4, 4]
    case Ethernet => [4, 4, 4, 4, 4, 4, 4, 4, 4, 4, 4, 4, 4]
    case TokenRing => [4, 4, 4, 4, 4, 4, 4, 4, 4, 4, 4, 4, 4, 4, 4, 4, 4, 4]
    case BaseVg => [4, 8, 4, 8, 4, 4, 4, 4, 4, 8, 4, 8, 8, 8]
    case Vlan => [4, 8, 4, 4, 4, 4]
    case Processor => [4, 4, 4, 8, 8]
  }

  predicate FitFields(vs: seq<nat>, sizes: seq<nat>)
    decreases |vs|
  {
    if vs == [] || sizes == [] then vs == [] && sizes == []
    else
      && (sizes[0] == 4 || sizes[0] == 8)
      && vs[0] < (if sizes[0] == 8 then 0x1_0000_0000_0000_0000 else 0x1_0000_0000)
      && FitFields(vs[1..], sizes[1..])
  }

  function EncodeFields(vs: seq<nat>, sizes: seq<nat>): bytes
    decreases |vs|
  {
    if vs == [] || sizes == [] then []
    else
      (if sizes[0] == 8 && vs[0] < 0x1_0000_0000_0000_0000 then BE64(vs[0]) else BE32(AsLength(vs[0])))
      + EncodeFields(vs[1..], sizes[1..])
  }

  datatype SentRecord =
    | SentHeader(protocol: uint32, frameLength: uint32, stripped: uint32, header: bytes)
    | SentSwitch(srcVlan: uint32, srcPriority: uint32, dstVlan: uint32, dstPriority: uint32)
    | SentRouter(addressType: uint32, nextHop: bytes, srcMask: uint32, dstMask: uint32)
    | SentCounters(counters: CounterKind, values: seq<nat>)
    /** A record of a kind that the decoder skips. */
    | SentOther(kind: uint32, data: bytes)

  function Kind(r: SentRecord): uint32 {
    match r
    case SentHeader(_, _, _, _) => 1
    case SentSwitch(_, _, _, _) => 1001
    case SentRouter(_, _, _, _) => 1002
    case SentCounters(k, _) => KindNumber(k)
    case SentOther(kind, _) => kind
  }

  function Body(r: SentRecord): bytes {
    match r
    case SentHeader(protocol, frameLength, stripped, header) =>
      BE32(protocol) + (BE32(frameLength) + (BE32(stripped) + (BE32(AsLength(|header|)) + (header + Zeros(Padding(AsLength(|header|)))))))
    case SentSwitch(a, b, c, d) => BE32(a) + (BE32(b) + (BE32(c) + BE32(d)))
    case SentRouter(t, nextHop, s, d) => (BE32(t) + nextHop) + (BE32(s) + BE32(d))
    case SentCounters(k, vs) => EncodeFields(vs, KindFields(k))
    case SentOther(_, data) => data
  }

  /** A number as a 32-bit field; CanSend leaves out those that do not fit. */
  function AsLength(n: nat): uint32 {
    if n < 0x1_0000_0000 then n else 0
  }

  function EncodeRecord(r: SentRecord): bytes {
    BE32(Kind(r)) + (BE32(AsLength(|Body(r)|)) + Body(r))
  }

  function EncodeRecords(rs: seq<SentRecord>): bytes
    decreases |rs|
  {
    if rs == [] then [] else EncodeRecord(rs[0]) + EncodeRecords(rs[1..])
  }

  /** The sampled header is one that the packet decoder accepts, counters fit their
      fields, and other records are of none of these kinds. */
  predicate CanSend(format: uint32, r: SentRecord) {
    && |Body(r)| < 0x1_0000_0000
    && match r
       case SentHeader(protocol, _, _, header) =>
         format != 2 && header != [] && |header| <= 1500 && Packet.Decode(header, protocol).Decoded?
       case SentSwitch(_, _, _, _) => format != 2
       case SentRouter(_, _, _, _) => format != 2
       case SentCounters(k, vs) => format == 2 && FitFields(vs, KindFields(k))
       case SentOther(kind, _) =>
         if format == 2 then (kind == 0 || kind > 5) && kind != 1001 else kind != 1 && kind != 1001 && kind != 1002
  }

  predicate CanSendAll(format: uint32, rs: seq<SentRecord>)
    decreases |rs|
  {
    rs != [] ==> CanSend(format, rs[0]) && CanSendAll(format, rs[1..])
  }

  /** What the decoder stores of a record. */
  function Shown(m: Records, r: SentRecord): Records {
    match r
    case SentHeader(protocol, _, _, header) =>
      if Packet.Decode(header, protocol).Decoded? then m["RawHeader" := RawHeader(Packet.Decode(header, protocol).layers)] else m
    case SentSwitch(a, _, c, d) => m["ExtSwitch" := ExtSwitch(a, d, c)]
    case SentRouter(_, nextHop, s, d) => m["ExtRouter" := ExtRouter(nextHop, s, d)]
    case SentCounters(k, vs) => m[KindName(k) := Counters(vs)]
    case SentOther(_, _) => m
  }

  function ShownAll(m: Records, rs: seq<SentRecord>): Records
    decreases |rs|
  {
    if rs == [] then m else ShownAll(Shown(m, rs[0]), rs[1..])
  }

  // ---------- Records

  lemma Number(b: bytes, p: nat, n: uint32, rest: bytes)
    requires At(b, p, BE32(n) + rest)
    ensures p + 4 <= |b| && U32(b, p) == n && At(b, p + 4, rest) && p + 4 + |rest| <= |b|
  {
    AtSplit(b, p, BE32(n), rest);
    At32(b, p, n);
  }

  lemma LastNumber(b: bytes, p: nat, n: uint32)
    requires At(b, p, BE32(n))
    ensures p + 4 <= |b| && U32(b, p) == n
  {
    At32(b, p, n);
  }

  lemma RawHeaderAt(r: SentRecord, b: bytes, p: nat)
    requires r.SentHeader? && r.header != [] && |r.header| <= 1500 && At(b, p, Body(r))
    requires Packet.Decode(r.header, r.protocol).Decoded?
    ensures ReadRawHeader(b, p) == Ok(RawHeader(Packet.Decode(r.header, r.protocol).layers), p + |Body(r)|)
  {
    hide U32, BE32, At, Zeros, Packet.Decode, Padding;
    var n := |r.header|;
    var tail := r.header + Zeros(Padding(n));
    Number(b, p, r.protocol, BE32(r.frameLength) + (BE32(r.stripped) + (BE32(n) + tail)));
    Number(b, p + 4, r.frameLength, BE32(r.stripped) + (BE32(n) + tail));
    Number(b, p + 8, r.stripped, BE32(n) + tail);
    Number(b, p + 12, n, tail);
    AtSlice(b, p + 16, tail);
    assert tail[..n] == r.header;
  }

  lemma SwitchAt(r: SentRecord, b: bytes, p: nat)
    requires r.SentSwitch? && At(b, p, Body(r))
    ensures ReadExtSwitch(b, p) == Ok(ExtSwitch(r.srcVlan, r.dstPriority, r.dstVlan), p + |Body(r)|)
  {
    hide U32, BE32, At;
    Number(b, p, r.srcVlan, BE32(r.srcPriority) + (BE32(r.dstVlan) + BE32(r.dstPriority)));
    Number(b, p + 4, r.srcPriority, BE32(r.dstVlan) + BE32(r.dstPriority));
    Number(b, p + 8, r.dstVlan, BE32(r.dstPriority));
    LastNumber(b, p + 12, r.dstPriority);
  }

  /** The source priority comes back exactly when it equals the destination's. */
  lemma SwitchPriorityIff(r: SentRecord, b: bytes, p: nat)
    requires r.SentSwitch? && At(b, p, Body(r))
    ensures ReadExtSwitch(b, p).Ok?
    ensures ReadExtSwitch(b, p).value == ExtSwitch(r.srcVlan, r.srcPriority, r.dstVlan) <==> r.srcPriority == r.dstPriority
  {
    hide ReadExtSwitch, At, Body;
    SwitchAt(r, b, p);
  }

  lemma RouterAt(r: SentRecord, b: bytes, p: nat)
    requires r.SentRouter? && |Body(r)| < 0x1_0000_0000 && At(b, p, Body(r))
    ensures ReadExtRouter(|Body(r)|, b, p) == Ok(ExtRouter(r.nextHop, r.srcMask, r.dstMask), p + |Body(r)|)
  {
    hide U32, At, Body;
    RouterParts(r, b, p);
  }

  lemma RouterParts(r: SentRecord, b: bytes, p: nat)
    requires r.SentRouter? && At(b, p, Body(r))
    ensures var q := p + 4 + |r.nextHop|;
            && |Body(r)| == |r.nextHop| + 12 && q + 8 <= |b| && b[p + 4..q] == r.nextHop
            && U32(b, q) == r.srcMask && U32(b, q + 4) == r.dstMask
  {
    hide U32, BE32, At;
    var front, masks := BE32(r.addressType) + r.nextHop, BE32(r.srcMask) + BE32(r.dstMask);
    AtSplit(b, p, front, masks);
    NextHopAt(b, p, r.addressType, r.nextHop);
    MasksAt(b, p + |front|, r.srcMask, r.dstMask);
  }

  lemma NextHopAt(b: bytes, p: nat, addressType: uint32, nextHop: bytes)
    requires At(b, p, BE32(addressType) + nextHop)
    ensures p + 4 + |nextHop| <= |b| && b[p + 4..p + 4 + |nextHop|] == nextHop
  {
    hide BE32, At;
    AtSplit(b, p, BE32(addressType), nextHop);
    AtSlice(b, p + 4, nextHop);
  }

  lemma MasksAt(b: bytes, p: nat, src: uint32, dst: uint32)
    requires At(b, p, BE32(src) + BE32(dst))
    ensures p + 8 <= |b| && U32(b, p) == src && U32(b, p + 4) == dst
  {
    hide U32, BE32, At;
    Number(b, p, src, BE32(dst));
    LastNumber(b, p + 4, dst);
  }

  lemma RecordAt(format: uint32, m: Records, r: SentRecord, b: bytes, p: nat)
    requires CanSend(format, r) && At(b, p, EncodeRecord(r))
    ensures ReadRecord(format, m, b, p) == Ok(Shown(m, r), p + |EncodeRecord(r)|)
    ensures |EncodeRecord(r)| == 8 + |Body(r)| && p + |EncodeRecord(r)| <= |b|
  {
    hide U32, BE32, At, Body, ReadRawHeader, ReadExtSwitch, ReadExtRouter, Packet.Decode, CounterFields, CounterName, ReadCounters, KindFields, KindName;
    Number(b, p, Kind(r), BE32(|Body(r)|) + Body(r));
    Number(b, p + 4, |Body(r)|, Body(r));
    match r
    case SentHeader(_, _, _, _) => RawHeaderAt(r, b, p + 8);
    case SentSwitch(_, _, _, _) => SwitchAt(r, b, p + 8);
    case SentRouter(_, _, _, _) => RouterAt(r, b, p + 8);
    case SentCounters(_, _) => CountersAt(r, b, p + 8);
    case SentOther(kind, _) => OtherKind(kind);
  }

  lemma CountersAt(r: SentRecord, b: bytes, p: nat)
    requires r.SentCounters? && FitFields(r.values, KindFields(r.counters)) && At(b, p, Body(r))
    ensures CounterFields(Kind(r)) == Some(KindFields(r.counters)) && CounterName(Kind(r)) == KindName(r.counters)
    ensures ReadCounters(KindFields(r.counters), b, p) == Ok(Counters(r.values), p + |Body(r)|)
  {
    hide At, EncodeFields, ReadFields, FitFields;
    FieldsAt(r.values, KindFields(r.counters), b, p);
  }

  lemma OtherKind(kind: uint32)
    ensures CounterFields(kind).None? <==> (kind == 0 || kind > 5) && kind != 1001
  {
  }

  lemma {:induction false} FieldsAt(vs: seq<nat>, sizes: seq<nat>, b: bytes, p: nat)
    requires FitFields(vs, sizes) && At(b, p, EncodeFields(vs, sizes))
    ensures ReadFields(sizes, b, p) == Ok(vs, p + |EncodeFields(vs, sizes)|)
    decreases |vs|
  {
    hide At, U32, U64, BE32, BE64;
    if vs != [] {
      var rest := EncodeFields(vs[1..], sizes[1..]);
      if sizes[0] == 8 {
        Wide(b, p, vs[0], rest);
      } else {
        Number(b, p, vs[0], rest);
      }
      FieldsAt(vs[1..], sizes[1..], b, p + if sizes[0] == 8 then 8 else 4);
      assert [vs[0]] + vs[1..] == vs;
    }
  }

  lemma Wide(b: bytes, p: nat, n: uint64, rest: bytes)
    requires At(b, p, BE64(n) + rest)
    ensures p + 8 + |rest| <= |b| && U64(b, p) == n && At(b, p + 8, rest)
  {
    hide U32, BE32, At;
    AtSplit(b, p, BE64(n), rest);
    AtSplit(b, p, BE32(Hi32(n)), BE32(Lo32(n)));
    LastNumber(b, p, Hi32(n));
    LastNumber(b, p + 4, Lo32(n));
    JoinQuotRem(n, 0x1_0000_0000);
    Fits(b, p + 8, rest);
  }

  lemma Fits(b: bytes, p: nat, s: bytes)
    requires At(b, p, s)
    ensures p + |s| <= |b|
  {
  }

  lemma {:induction false} RecordsAt(format: uint32, m: Records, rs: seq<SentRecord>, b: bytes, p: nat)
    requires CanSendAll(format, rs) && At(b, p, EncodeRecords(rs))
    ensures ReadRecords(|rs|, format, m, b, p) == Ok(ShownAll(m, rs), p + |EncodeRecords(rs)|)
    decreases |rs|
  {
    hide At, CanSend, EncodeRecord, ReadRecord, Shown;
    if rs != [] {
      AtSplit(b, p, EncodeRecord(rs[0]), EncodeRecords(rs[1..]));
      RecordAt(format, m, rs[0], b, p);
      RecordsAt(format, Shown(m, rs[0]), rs[1..], b, p + |EncodeRecord(rs[0])|);
    }
  }

  // ---------- Samples

  /** The samples that are decoded, with the source id as it is sent: one octet for the
      type and three for the index. (An expanded flow sample of the standard has four
      octets each, see ExpandedStandardIff.) Other is a sample of another format. */
  datatype SentSample =
    | SentFlow(sequenceNo: uint32, sourceId: byte, index: bytes, samplingRate: uint32, samplePool: uint32, drops: uint32,
               input: uint32, output: uint32, records: seq<SentRecord>)
    | SentCounter(sequenceNo: uint32, sourceId: byte, index: bytes, records: seq<SentRecord>)
    | SentExpanded(sequenceNo: uint32, sourceId: byte, index: bytes, samplingRate: uint32, samplePool: uint32, drops: uint32,
                   inputFormat: uint32, input: uint32, outputFormat: uint32, output: uint32, records: seq<SentRecord>)
    | Other(otherFormat: uint32, data: bytes)

  function FormatOf(s: SentSample): uint32 {
    match s
    case SentFlow(_, _, _, _, _, _, _, _, _) => 1
    case SentCounter(_, _, _, _) => 2
    case SentExpanded(_, _, _, _, _, _, _, _, _, _, _) => 3
    case Other(format, _) => format
  }

  /** Numbers one after the other, and what follows them. */
  function Words(ws: seq<uint32>, rest: bytes): bytes
    decreases |ws|
  {
    if ws == [] then rest else BE32(ws[0]) + Words(ws[1..], rest)
  }

  /** The words after the source id and before the number of records. */
  function Middle(s: SentSample): seq<uint32> {
    match s
    case SentFlow(_, _, _, rate, pool, drops, input, output, _) => [rate, pool, drops, input, output]
    case SentExpanded(_, _, _, rate, pool, drops, inputFormat, input, outputFormat, output, _) =>
      [rate, pool, drops, inputFormat, input, outputFormat, output]
    case _ => []
  }

  function Payload(s: SentSample): bytes {
    if s.Other? then s.data
    else
      BE32(s.sequenceNo) + ([s.sourceId] + (s.index + Words(Middle(s) + [AsLength(|s.records|)], EncodeRecords(s.records))))
  }

  function EncodeSample(s: SentSample): bytes {
    BE32(FormatOf(s)) + (BE32(AsLength(|Payload(s)|)) + Payload(s))
  }

  predicate CanSendSample(s: SentSample) {
    && FormatOf(s) < 0x1000 && |Payload(s)| < 0x1_0000_0000
    && if s.Other? then FormatOf(s) == 0 || FormatOf(s) > 3
       else |s.index| == 3 && |s.records| < 0x1_0000_0000 && CanSendAll(FormatOf(s), s.records)
  }

  function ShownFixed(s: SentSample): Fixed
    requires !s.Other? && |s.index| == 3
  {
    var n := AsLength(|s.records|);
    match s
    case SentFlow(no, id, _, rate, pool, drops, input, output, _) => FlowPart(no, id, rate, pool, drops, input, output, n)
    case SentCounter(no, id, index, _) => CounterPart(no, id, U24(index, 0), n)
    case SentExpanded(no, id, _, rate, pool, drops, inputFormat, input, outputFormat, output, _) =>
      ExpandedPart(no, id, rate, pool, drops, inputFormat, input, outputFormat, output, n)
  }

  function ShownSample(s: SentSample): seq<Sample> {
    if s.Other? || |s.index| != 3 then [] else [Sample(FormatOf(s), ShownFixed(s), ShownAll(map[], s.records))]
  }

  ghost predicate WordsAt(ws: seq<uint32>, b: bytes, p: nat) {
    p + 4 * |ws| <= |b| && forall i | 0 <= i < |ws| :: U32(b, p + 4 * i) == ws[i]
  }

  lemma {:induction false} WordsBack(ws: seq<uint32>, rest: bytes, b: bytes, p: nat)
    requires At(b, p, Words(ws, rest))
    ensures WordsAt(ws, b, p) && At(b, p + 4 * |ws|, rest) && |Words(ws, rest)| == 4 * |ws| + |rest|
    decreases |ws|
  {
    hide U32, BE32, At;
    if ws == [] {
      Fits(b, p, rest);
    } else {
      Number(b, p, ws[0], Words(ws[1..], rest));
      WordsBack(ws[1..], rest, b, p + 4);
      forall i | 0 <= i < |ws|
        ensures U32(b, p + 4 * i) == ws[i]
      {
        if i > 0 {
          assert U32(b, (p + 4) + 4 * (i - 1)) == ws[1..][i - 1];
        }
      }
    }
  }

  lemma SourceAt(id: byte, index: bytes, rest: bytes, b: bytes, p: nat)
    requires |index| == 3 && At(b, p, [id] + (index + rest))
    ensures p + 4 <= |b| && b[p] == id && U24(b, p + 1) == U24(index, 0) && At(b, p + 4, rest)
  {
    AtSplit(b, p, [id], index + rest);
    AtSplit(b, p + 1, index, rest);
    AtIndex(b, p, [id], 0);
    AtIndex(b, p + 1, index, 0);
    AtIndex(b, p + 1, index, 1);
    AtIndex(b, p + 1, index, 2);
  }

  /** Where the decoder finds the fixed part and the records of a sample. */
  lemma PayloadAt(s: SentSample, b: bytes, p: nat)
    requires !s.Other? && |s.index| == 3 && At(b, p, Payload(s))
    ensures var ws := Middle(s) + [AsLength(|s.records|)];
            && p + 8 <= |b| && U32(b, p) == s.sequenceNo && b[p + 4] == s.sourceId && U24(b, p + 5) == U24(s.index, 0)
            && WordsAt(ws, b, p + 8) && At(b, p + 8 + 4 * |ws|, EncodeRecords(s.records))
            && |Payload(s)| == 8 + 4 * |ws| + |EncodeRecords(s.records)|
  {
    hide U32, U24, At, EncodeRecords, WordsAt, Middle, BE32, Words;
    var ws := Middle(s) + [AsLength(|s.records|)];
    FixedParts(s.sequenceNo, s.sourceId, s.index, ws, EncodeRecords(s.records), b, p);
  }

  function FixedBytes(no: uint32, id: byte, index: bytes, ws: seq<uint32>, rest: bytes): bytes {
    BE32(no) + ([id] + (index + Words(ws, rest)))
  }

  lemma FixedParts(no: uint32, id: byte, index: bytes, ws: seq<uint32>, rest: bytes, b: bytes, p: nat)
    requires |index| == 3 && At(b, p, FixedBytes(no, id, index, ws, rest))
    ensures p + 8 <= |b| && U32(b, p) == no && b[p + 4] == id && U24(b, p + 5) == U24(index, 0)
    ensures WordsAt(ws, b, p + 8) && At(b, p + 8 + 4 * |ws|, rest)
    ensures |FixedBytes(no, id, index, ws, rest)| == 8 + 4 * |ws| + |rest|
  {
    hide U32, U24, BE32, At, Words, WordsAt;
    var tail := Words(ws, rest);
    Number(b, p, no, [id] + (index + tail));
    SourceAt(id, index, tail, b, p + 4);
    WordsBack(ws, rest, b, p + 8);
  }

  lemma FixedAt(s: SentSample, b: bytes, p: nat)
    requires !s.Other? && |s.index| == 3 && At(b, p, Payload(s))
    ensures |Payload(s)| >= |EncodeRecords(s.records)|
    ensures ReadFixed(FormatOf(s), b, p) == Ok(ShownFixed(s), p + |Payload(s)| - |EncodeRecords(s.records)|)
    ensures At(b, p + |Payload(s)| - |EncodeRecords(s.records)|, EncodeRecords(s.records))
  {
    hide U32, U24, BE32, At, EncodeRecords, Payload, Words;
    PayloadAt(s, b, p);
    var ws, q := Middle(s) + [AsLength(|s.records|)], p + 8;
    assert forall i | 0 <= i < |ws| :: U32(b, q + 4 * i) == ws[i];
    match s {
      case SentFlow(_, _, _, _, _, _, _, _, _) => FiveWords(ws, b, q);
      case SentCounter(_, _, _, _) => assert U32(b, q + 4 * 0) == ws[0];
      case SentExpanded(_, _, _, _, _, _, _, _, _, _, _) => SevenWords(ws, b, q);
    }
  }

  lemma FiveWords(ws: seq<uint32>, b: bytes, q: nat)
    requires |ws| == 6 && WordsAt(ws, b, q)
    ensures U32(b, q) == ws[0] && U32(b, q + 4) == ws[1] && U32(b, q + 8) == ws[2] && U32(b, q + 12) == ws[3]
    ensures U32(b, q + 16) == ws[4] && U32(b, q + 20) == ws[5]
  {
    hide U32;
    assert U32(b, q + 4 * 0) == ws[0] && U32(b, q + 4 * 1) == ws[1] && U32(b, q + 4 * 2) == ws[2];
    assert U32(b, q + 4 * 3) == ws[3] && U32(b, q + 4 * 4) == ws[4] && U32(b, q + 4 * 5) == ws[5];
  }

  lemma SevenWords(ws: seq<uint32>, b: bytes, q: nat)
    requires |ws| == 8 && WordsAt(ws, b, q)
    ensures U32(b, q) == ws[0] && U32(b, q + 4) == ws[1] && U32(b, q + 8) == ws[2] && U32(b, q + 12) == ws[3]
    ensures U32(b, q + 16) == ws[4] && U32(b, q + 20) == ws[5] && U32(b, q + 24) == ws[6] && U32(b, q + 28) == ws[7]
  {
    hide U32;
    assert U32(b, q + 4 * 0) == ws[0] && U32(b, q + 4 * 1) == ws[1] && U32(b, q + 4 * 2) == ws[2] && U32(b, q + 4 * 3) == ws[3];
    assert U32(b, q + 4 * 4) == ws[4] && U32(b, q + 4 * 5) == ws[5] && U32(b, q + 4 * 6) == ws[6] && U32(b, q + 4 * 7) == ws[7];
  }

  lemma KnownAt(s: SentSample, b: bytes, p: nat)
    requires !s.Other? && CanSendSample(s) && At(b, p, Payload(s))
    ensures ReadSample(FormatOf(s), b, p) == Ok(ShownSample(s)[0], p + |Payload(s)|)
  {
    hide U32, BE32, At, CanSendAll, EncodeRecords, ReadRecords, ShownAll, Payload, ReadFixed;
    FixedAt(s, b, p);
    RecordsAt(FormatOf(s), map[], s.records, b, p + |Payload(s)| - |EncodeRecords(s.records)|);
  }

  /** An expanded flow sample as the standard has it: type and index of the source id are
      words of their own. */
  function StandardExpanded(no: uint32, sourceType: uint32, ws: seq<uint32>, rest: bytes): bytes {
    BE32(no) + (BE32(sourceType) + Words(ws, rest))
  }

  /** The words are index, sampling rate, pool, drops, formats and numbers of input and
      output, and the number of records. Each is read one place too early, so that the
      fields of the sample are right if and only if all of these words are the same. */
  lemma ExpandedStandardIff(no: uint32, sourceType: uint32, ws: seq<uint32>, rest: bytes, b: bytes, p: nat)
    requires |ws| == 9 && At(b, p, StandardExpanded(no, sourceType, ws, rest))
    ensures ReadFixed(3, b, p)
         == Ok(ExpandedPart(no, b[p + 4], ws[0], ws[1], ws[2], ws[3], ws[4], ws[5], ws[6], ws[7]), p + 40)
    ensures var f := ReadFixed(3, b, p).value;
            && (   f.samplingRate == ws[1] && f.samplePool == ws[2] && f.drops == ws[3] && f.inputFormat == ws[4]
                && f.input == ws[5] && f.outputFormat == ws[6] && f.output == ws[7] && f.recordsNo == ws[8]
                <==> forall i | 0 <= i < 9 :: ws[i] == ws[0])
  {
    hide U32, BE32, At, Words;
    Number(b, p, no, BE32(sourceType) + Words(ws, rest));
    Number(b, p + 4, sourceType, Words(ws, rest));
    WordsBack(ws, rest, b, p + 8);
    assert WordsAt(ws[..8], b, p + 8);
    SevenWords(ws[..8], b, p + 8);
  }

  /** The header of a sample and where its payload is. */
  lemma SampleAt(s: SentSample, b: bytes, p: nat)
    requires CanSendSample(s) && At(b, p, EncodeSample(s))
    ensures SampleInfo(b, p) == Ok((FormatOf(s), |Payload(s)|), p + 8)
    ensures |EncodeSample(s)| == 8 + |Payload(s)| && At(b, p + 8, Payload(s))
  {
    hide U32, BE32, At, Payload;
    Number(b, p, FormatOf(s), BE32(|Payload(s)|) + Payload(s));
    Number(b, p + 4, |Payload(s)|, Payload(s));
  }

  // ---------- Datagrams

  predicate CanSendSamples(ss: seq<SentSample>)
    decreases |ss|
  {
    ss != [] ==> CanSendSample(ss[0]) && CanSendSamples(ss[1..])
  }

  function EncodeSamples(ss: seq<SentSample>): bytes
    decreases |ss|
  {
    if ss == [] then [] else EncodeSample(ss[0]) + EncodeSamples(ss[1..])
  }

  function ShownSamples(ss: seq<SentSample>): seq<Sample>
    decreases |ss|
  {
    if ss == [] then [] else ShownSample(ss[0]) + ShownSamples(ss[1..])
  }

  lemma {:induction false} SamplesAt(ss: seq<SentSample>, b: bytes, p: nat)
    requires CanSendSamples(ss) && At(b, p, EncodeSamples(ss))
    ensures ReadSamples(|ss|, [], b, p) == Complete(ShownSamples(ss)) && Exact(|ss|, b, p)
    decreases |ss|
  {
    hide At, CanSendSample, EncodeSample, ReadSample, SampleInfo, ReadSamples, Exact, ShownSample;
    if ss == [] {
      NoSamples(b, p);
    } else {
      var s := ss[0];
      AtSplit(b, p, EncodeSample(s), EncodeSamples(ss[1..]));
      SamplesAt(ss[1..], b, p + |EncodeSample(s)|);
      SampleStep(s, |ss| - 1, ShownSamples(ss[1..]), b, p);
    }
  }

  lemma NoSamples(b: bytes, p: nat)
    ensures ReadSamples(0, [], b, p) == Complete([]) && Exact(0, b, p)
  {
  }

  /** One sample before others that are known to be decoded. */
  lemma SampleStep(s: SentSample, n: nat, shown: seq<Sample>, b: bytes, p: nat)
    requires CanSendSample(s) && At(b, p, EncodeSample(s))
    requires var q := p + |EncodeSample(s)|;
             ReadSamples(n, [], b, q) == Complete(shown) && Exact(n, b, q)
    ensures ReadSamples(n + 1, [], b, p) == Complete(ShownSample(s) + shown) && Exact(n + 1, b, p)
  {
    hide At, CanSendSample, EncodeSample, ReadSample, SampleInfo, Payload;
    SampleAt(s, b, p);
    SampleKinds(s);
    if !s.Other? {
      KnownAt(s, b, p + 8);
    } else {
      assert [] + shown == shown;
    }
  }

  lemma SampleKinds(s: SentSample)
    requires CanSendSample(s)
    ensures !s.Other? <==> IsKnown(FormatOf(s))
    ensures !s.Other? ==> |ShownSample(s)| == 1
  {
  }

  function EncodeHeader(h: Header): bytes {
    BE32(5) + (BE32(h.ipVersion) + (h.agent + HeaderEnd(h)))
  }

  predicate GoodHeader(h: Header) {
    |h.agent| == if h.ipVersion == 2 then 16 else 4
  }

  /** The four numbers at the end of the header. */
  function HeaderEnd(h: Header): (e: bytes)
    ensures |e| == 16
  {
    BE32(h.subId) + (BE32(h.sequenceNo) + (BE32(h.sysUpTime) + BE32(h.samplesNo)))
  }

  lemma HeaderEndAt(h: Header, b: bytes, q: nat)
    requires At(b, q, HeaderEnd(h))
    ensures q + 16 <= |b| && U32(b, q) == h.subId && U32(b, q + 4) == h.sequenceNo
    ensures U32(b, q + 8) == h.sysUpTime && U32(b, q + 12) == h.samplesNo
  {
    hide U32, BE32, At;
    Number(b, q, h.subId, BE32(h.sequenceNo) + (BE32(h.sysUpTime) + BE32(h.samplesNo)));
    Number(b, q + 4, h.sequenceNo, BE32(h.sysUpTime) + BE32(h.samplesNo));
    Number(b, q + 8, h.sysUpTime, BE32(h.samplesNo));
    LastNumber(b, q + 12, h.samplesNo);
  }

  lemma HeaderStartAt(h: Header, b: bytes)
    requires At(b, 0, EncodeHeader(h))
    ensures var q := 8 + |h.agent|;
            && |EncodeHeader(h)| == q + 16 <= |b| && U32(b, 0) == 5 && U32(b, 4) == h.ipVersion
            && b[8..q] == h.agent && At(b, q, HeaderEnd(h))
  {
    hide U32, BE32, At;
    var end := HeaderEnd(h);
    Number(b, 0, 5, BE32(h.ipVersion) + (h.agent + end));
    Number(b, 4, h.ipVersion, h.agent + end);
    AtSplit(b, 8, h.agent, end);
    AtSlice(b, 8, h.agent);
  }

  lemma HeaderAt(h: Header, rest: bytes, b: bytes)
    requires GoodHeader(h) && b == EncodeHeader(h) + rest
    ensures ReadHeader(b) == Ok(h, |EncodeHeader(h)|)
  {
    hide U32, At, EncodeHeader, HeaderEnd, ReadInto;
    AtStart(EncodeHeader(h), rest, b);
    HeaderStartAt(h, b);
    HeaderEndAt(h, b, 8 + |h.agent|);
    ReadIntoWhole(|h.agent|, b, 8);
  }

  lemma AtStart(front: bytes, rest: bytes, b: bytes)
    requires b == front + rest
    ensures At(b, 0, front)
  {
  }

  lemma ReadIntoWhole(n: nat, b: bytes, p: nat)
    requires p < |b| && p + n <= |b|
    ensures ReadInto(n, b, p) == Ok(b[p..p + n], p + n)
  {
  }

  /** What the two lists of the datagram should hold: the flow samples and expanded flow
      samples, and the counter samples, whose format the filter does not list. */
  function ListedFlows(ss: seq<SentSample>, filter: seq<uint32>): seq<Sample>
    decreases |ss|
  {
    if ss == [] then []
    else
      (if (ss[0].SentFlow? && 1 !in filter) || (ss[0].SentExpanded? && 3 !in filter) then ShownSample(ss[0]) else [])
      + ListedFlows(ss[1..], filter)
  }

  function ListedCounters(ss: seq<SentSample>, filter: seq<uint32>): seq<Sample>
    decreases |ss|
  {
    if ss == [] then []
    else (if ss[0].SentCounter? && 2 !in filter then ShownSample(ss[0]) else []) + ListedCounters(ss[1..], filter)
  }

  lemma {:induction false} ListsShown(ss: seq<SentSample>, filter: seq<uint32>)
    requires CanSendSamples(ss)
    ensures FlowSamples(Kept(ShownSamples(ss), filter)) == ListedFlows(ss, filter)
    ensures CounterSamples(Kept(ShownSamples(ss), filter)) == ListedCounters(ss, filter)
    decreases |ss|
  {
    hide FlowSamples, CounterSamples, Kept, ShownSample, CanSendSample;
    if ss == [] {
      NoLists(filter);
    } else {
      ListsShown(ss[1..], filter);
      OneShown(ss[0], ShownSamples(ss[1..]), filter);
    }
  }

  lemma OneShown(s: SentSample, rest: seq<Sample>, filter: seq<uint32>)
    requires CanSendSample(s)
    ensures var all := ShownSample(s) + rest;
            && FlowSamples(Kept(all, filter))
               == (if (s.SentFlow? && 1 !in filter) || (s.SentExpanded? && 3 !in filter) then ShownSample(s) else [])
                  + FlowSamples(Kept(rest, filter))
            && CounterSamples(Kept(all, filter))
               == (if s.SentCounter? && 2 !in filter then ShownSample(s) else []) + CounterSamples(Kept(rest, filter))
  {
    hide FlowSamples, CounterSamples, Kept, ShownFixed, ShownAll, CanSendAll, Payload;
    if s.Other? {
      assert [] + rest == rest;
    } else {
      var one := ShownSample(s)[0];
      OneMore(one, rest, filter);
      OneMore(one, Kept(rest, filter), filter);
    }
  }

  lemma NoLists(filter: seq<uint32>)
    ensures Kept([], filter) == [] && FlowSamples([]) == [] && CounterSamples([]) == []
  {
  }

  /** Sent samples before whatever comes after them, with any filter. */
  lemma {:induction false} SamplesThen(ss: seq<SentSample>, n: nat, filter: seq<uint32>, b: bytes, p: nat)
    requires CanSendSamples(ss) && At(b, p, EncodeSamples(ss))
    ensures ReadSamples(|ss| + n, filter, b, p)
         == Preceded(Kept(ShownSamples(ss), filter), ReadSamples(n, filter, b, p + |EncodeSamples(ss)|))
    decreases |ss|
  {
    hide At, CanSendSample, EncodeSample, ReadSamples, ShownSample, Kept, Preceded;
    if ss == [] {
      NoLists(filter);
      PrecededNone(ReadSamples(n, filter, b, p));
    } else {
      var s, rest := ss[0], ShownSamples(ss[1..]);
      AtSplit(b, p, EncodeSample(s), EncodeSamples(ss[1..]));
      SamplesThen(ss[1..], n, filter, b, p + |EncodeSample(s)|);
      SampleThen(s, |ss| - 1 + n, filter, b, p);
      KeptFirst(s, rest, filter);
      PrecededTwice(Kept(ShownSample(s), filter), Kept(rest, filter), ReadSamples(n, filter, b, p + |EncodeSamples(ss)|));
    }
  }

  lemma SampleThen(s: SentSample, n: nat, filter: seq<uint32>, b: bytes, p: nat)
    requires CanSendSample(s) && At(b, p, EncodeSample(s))
    ensures ReadSamples(n + 1, filter, b, p)
         == Preceded(Kept(ShownSample(s), filter), ReadSamples(n, filter, b, p + |EncodeSample(s)|))
  {
    hide At, CanSendSample, EncodeSample, ReadSample, SampleInfo, Payload, ShownAll, ShownFixed;
    SampleAt(s, b, p);
    SampleKinds(s);
    var rest := ReadSamples(n, filter, b, p + |EncodeSample(s)|);
    PrecededNone(rest);
    if !s.Other? {
      KnownAt(s, b, p + 8);
      assert ShownSample(s)[1..] == [] && [ShownSample(s)[0]] + [] == ShownSample(s);
    }
  }

  lemma KeptFirst(s: SentSample, rest: seq<Sample>, filter: seq<uint32>)
    ensures Kept(ShownSample(s) + rest, filter) == Kept(ShownSample(s), filter) + Kept(rest, filter)
  {
    hide ShownAll, ShownFixed;
    var shown := ShownSample(s);
    if shown == [] {
      assert shown + rest == rest;
    } else {
      assert (shown + rest)[1..] == rest && shown[1..] == [] && Kept([], filter) == [];
    }
  }

  lemma PrecededTwice(ss: seq<Sample>, ts: seq<Sample>, r: Run)
    ensures Preceded(ss, Preceded(ts, r)) == Preceded(ss + ts, r)
  {
    if r.Complete? || r.Partial? {
      assert ss + (ts + r.samples) == ss + ts + r.samples;
    }
  }

  /** The bytes after the sent samples are not a sample: what Decode returns then. */
  function Broken(rest: bytes, filter: seq<uint32>, shown: seq<Sample>): Option<Run> {
    if |rest| < 4 then Some(Nothing(EndOfData))
    else if U32(rest, 0) >= 0x1000 then Some(Nothing(NotStandard))
    else if |rest| < 8 then Some(Nothing(LengthUnknown))
    else if U32(rest, 0) !in filter
            && ((U32(rest, 0) == 1 && |rest| < 40) || (U32(rest, 0) == 2 && |rest| < 20) || (U32(rest, 0) == 3 && |rest| < 48))
    then Some(Partial(shown, EndOfData))
    else None
  }

  lemma BrokenSample(n: nat, filter: seq<uint32>, rest: bytes, b: bytes, p: nat, shown: seq<Sample>)
    requires p <= |b| && b[p..] == rest && Broken(rest, filter, shown).Some?
    ensures Preceded(shown, ReadSamples(n + 1, filter, b, p)) == Broken(rest, filter, shown).value
  {
    hide U32, ReadRecords;
    SameNumbers(rest, b, p);
    assert shown + [] == shown;
  }

  lemma SameNumbers(rest: bytes, b: bytes, p: nat)
    requires p <= |b| && b[p..] == rest
    ensures |rest| == |b| - p
    ensures |rest| >= 4 ==> U32(b, p) == U32(rest, 0) && (U32(rest, 0) < 0x1000 <==> U32(b, p) / 0x1000 == 0)
    ensures |rest| >= 4 && U32(rest, 0) < 0x1000 ==> U32(b, p) % 0x1000 == U32(rest, 0)
  {
    ReadAt(b, p);
  }

  /** A datagram that claims more samples than it holds, or goes on with a sample of an
      enterprise, is refused as a whole; one that ends in the fixed part of a sample
      keeps the samples before it. */
  lemma DatagramBroken(filter: seq<uint32>, h: Header, ss: seq<SentSample>, rest: bytes)
    requires GoodHeader(h) && h.samplesNo > |ss| && CanSendSamples(ss)
    requires Broken(rest, filter, Kept(ShownSamples(ss), filter)).Some?
    ensures Decode(filter, EncodeHeader(h) + (EncodeSamples(ss) + rest))
         == Read(h, Broken(rest, filter, Kept(ShownSamples(ss), filter)).value)
  {
    hide CanSendSamples, EncodeSamples, ShownSamples, ReadSamples, ReadHeader, Kept, EncodeHeader, Broken, Preceded;
    var b, p := EncodeHeader(h) + (EncodeSamples(ss) + rest), |EncodeHeader(h)|;
    assert b == EncodeHeader(h) + EncodeSamples(ss) + rest;
    AtPart(b, p, EncodeHeader(h), EncodeSamples(ss), rest);
    assert b[p + |EncodeSamples(ss)|..] == rest;
    hide At;
    HeaderAt(h, EncodeSamples(ss) + rest, b);
    var n := h.samplesNo - |ss|;
    SamplesThen(ss, n, filter, b, p);
    BrokenSample(n - 1, filter, rest, b, p + |EncodeSamples(ss)|, Kept(ShownSamples(ss), filter));
  }

  /** When a datagram is refused for its header. */
  lemma RefusedIff(filter: seq<uint32>, b: bytes)
    ensures Decode(filter, b) == Refused(BadVersion) <==> |b| >= 4 && U32(b, 0) != 5
    ensures Decode(filter, b) == Refused(EndOfData)
       <==> |b| < 4 || (U32(b, 0) == 5 && |b| < (if |b| >= 8 && U32(b, 4) == 2 then 40 else 28))
    ensures Decode(filter, b).Refused? ==> Decode(filter, b).error == BadVersion || Decode(filter, b).error == EndOfData
  {
    hide U32, ReadSamples;
  }

  /** Every exported datagram is decoded to its header, samples and counters, and with
      a filter to those whose format is not listed. */
  lemma DatagramRoundTrip(filter: seq<uint32>, h: Header, ss: seq<SentSample>)
    requires GoodHeader(h) && h.samplesNo == |ss| && CanSendSamples(ss)
    ensures var r := Decode(filter, EncodeHeader(h) + EncodeSamples(ss));
            && r == Read(h, Complete(Kept(ShownSamples(ss), filter)))
            && FlowSamples(r.run.samples) == ListedFlows(ss, filter)
            && CounterSamples(r.run.samples) == ListedCounters(ss, filter)
  {
    hide CanSendSamples, EncodeSamples, ShownSamples, ReadSamples, ReadHeader, Exact, Kept, EncodeHeader, FlowSamples, CounterSamples, ListedFlows, ListedCounters;
    var b, p := EncodeHeader(h) + EncodeSamples(ss), |EncodeHeader(h)|;
    AtPart(b, p, EncodeHeader(h), EncodeSamples(ss), []);
    hide At;
    HeaderAt(h, EncodeSamples(ss), b);
    SamplesAt(ss, b, p);
    FilterAfterwards(|ss|, filter, b, p);
    ListsShown(ss, filter);
  }

  // ---------- Sampled headers that are refused

  /** The error of a sampled header that is too long or that the packet decoder refuses. */
  function HeaderFault(r: SentRecord): Option<Error> {
    if !r.SentHeader? || r.header == [] then None
    else if |r.header| > 1500 then Some(HeaderTooLong)
    else
      match Packet.Decode(r.header, r.protocol)
      case Failed(e, _) => Some(BadPacket(e))
      case _ => None
  }

  lemma HeaderRefused(r: SentRecord, b: bytes, p: nat)
    requires HeaderFault(r).Some? && |Body(r)| < 0x1_0000_0000 && At(b, p, Body(r))
    ensures ReadRawHeader(b, p) == Err(HeaderFault(r).value)
  {
    hide U32, BE32, At, Zeros, Packet.Decode, Padding;
    var n := |r.header|;
    var tail := r.header + Zeros(Padding(n));
    Number(b, p, r.protocol, BE32(r.frameLength) + (BE32(r.stripped) + (BE32(n) + tail)));
    Number(b, p + 4, r.frameLength, BE32(r.stripped) + (BE32(n) + tail));
    Number(b, p + 8, r.stripped, BE32(n) + tail);
    Number(b, p + 12, n, tail);
    AtSlice(b, p + 16, tail);
    assert tail[..n] == r.header;
  }

  lemma RecordRefused(format: uint32, m: Records, r: SentRecord, b: bytes, p: nat)
    requires format != 2 && HeaderFault(r).Some? && |Body(r)| < 0x1_0000_0000 && At(b, p, EncodeRecord(r))
    ensures ReadRecord(format, m, b, p) == Err(HeaderFault(r).value)
  {
    hide U32, BE32, At, Body, ReadRawHeader, ReadExtSwitch, ReadExtRouter, CounterFields, CounterName, ReadCounters;
    Number(b, p, 1, BE32(|Body(r)|) + Body(r));
    Number(b, p + 4, |Body(r)|, Body(r));
    HeaderRefused(r, b, p + 8);
    hide HeaderFault;
  }

  lemma {:induction false} RecordsRefused(format: uint32, m: Records, rs: seq<SentRecord>, k: nat, b: bytes, p: nat)
    requires format != 2 && k < |rs| && CanSendAll(format, rs[..k])
    requires HeaderFault(rs[k]).Some? && |Body(rs[k])| < 0x1_0000_0000 && At(b, p, EncodeRecords(rs))
    ensures ReadRecords(|rs|, format, m, b, p) == Err(HeaderFault(rs[k]).value)
    decreases |rs|
  {
    hide At, CanSend, EncodeRecord, ReadRecord, Shown, HeaderFault, Body;
    AtSplit(b, p, EncodeRecord(rs[0]), EncodeRecords(rs[1..]));
    if k == 0 {
      RecordRefused(format, m, rs[0], b, p);
    } else {
      assert rs[..k][0] == rs[0] && rs[..k][1..] == rs[1..][..k - 1];
      RecordAt(format, m, rs[0], b, p);
      RecordsRefused(format, Shown(m, rs[0]), rs[1..], k - 1, b, p + |EncodeRecord(rs[0])|);
    }
  }

  /** A flow sample whose record k is the first that is refused. */
  predicate RefusedAt(s: SentSample, k: nat) {
    && !s.Other? && !s.SentCounter? && |s.index| == 3 && |s.records| < 0x1_0000_0000 && |Payload(s)| < 0x1_0000_0000
    && k < |s.records| && CanSendAll(FormatOf(s), s.records[..k])
    && HeaderFault(s.records[k]).Some? && |Body(s.records[k])| < 0x1_0000_0000
  }

  lemma SampleRefused(s: SentSample, k: nat, n: nat, filter: seq<uint32>, b: bytes, p: nat)
    requires RefusedAt(s, k) && FormatOf(s) !in filter && At(b, p, EncodeSample(s))
    ensures ReadSamples(n + 1, filter, b, p) == Partial([], HeaderFault(s.records[k]).value)
  {
    hide U32, BE32, At, Payload, CanSendAll, HeaderFault, Body, EncodeRecords, ReadRecords, ReadFixed;
    Number(b, p, FormatOf(s), BE32(|Payload(s)|) + Payload(s));
    Number(b, p + 4, |Payload(s)|, Payload(s));
    FixedAt(s, b, p + 8);
    RecordsRefused(FormatOf(s), map[], s.records, k, b, p + 8 + |Payload(s)| - |EncodeRecords(s.records)|);
  }

  /** A datagram with such a sample, whatever follows it, gives the samples before it and
      the error of that record. */
  lemma DatagramRefused(filter: seq<uint32>, h: Header, ss: seq<SentSample>, s: SentSample, k: nat, rest: bytes)
    requires GoodHeader(h) && h.samplesNo > |ss| && CanSendSamples(ss) && RefusedAt(s, k) && FormatOf(s) !in filter
    ensures Decode(filter, EncodeHeader(h) + (EncodeSamples(ss) + (EncodeSample(s) + rest)))
         == Read(h, Partial(Kept(ShownSamples(ss), filter), HeaderFault(s.records[k]).value))
  {
    hide CanSendSamples, EncodeSamples, ShownSamples, ReadSamples, ReadHeader, Kept, EncodeHeader, EncodeSample, RefusedAt, HeaderFault;
    var head, front, one := EncodeHeader(h), EncodeSamples(ss), EncodeSample(s);
    var b := head + (front + (one + rest));
    FourParts(head, front, one, rest);
    hide At;
    HeaderAt(h, front + (one + rest), b);
    var n := h.samplesNo - |ss|;
    SamplesThen(ss, n, filter, b, |head|);
    SampleRefused(s, k, n - 1, filter, b, |head| + |front|);
    assert Kept(ShownSamples(ss), filter) + [] == Kept(ShownSamples(ss), filter);
  }

  lemma FourParts(head: bytes, front: bytes, one: bytes, rest: bytes)
    ensures var b := head + (front + (one + rest));
            At(b, |head|, front) && At(b, |head| + |front|, one)
  {
    var b := head + (front + (one + rest));
    assert b == head + front + (one + rest);
    AtPart(b, |head|, head, front, one + rest);
    assert b == (head + front) + one + rest;
    AtPart(b, |head| + |front|, head + front, one, rest);
  }
}
