/** What the sflow package computes, as functions of the datagram `b` and the reader
    position `p`. Seeking may leave the position past the end of the datagram. */
module Sflow {
  import opened Bytes
  import Packet

  datatype Error =
    | EndOfData
    | BadVersion
    | NotStandard
    | LengthUnknown
    | HeaderTooLong
    | BadPacket(error: Packet.Error)

  /** Crash stands for a run-time panic. */
  datatype Result<+T> = Ok(value: T, pos: nat) | Err(error: Error) | Crash

  datatype Record =
    | RawHeader(layers: Packet.Layers)
    | ExtSwitch(srcVlan: uint32, srcPriority: uint32, dstVlan: uint32)
    | ExtRouter(nextHop: bytes, srcMask: uint32, dstMask: uint32)
    /** Interface and processor counters, in the order of the fields. */
    | Counters(values: seq<nat>)

  /** Records by name: of several with the same name the last one stays. */
  type Records = map<string, Record>

  const FLOW := 1
  const COUNTER := 2
  const EXPANDED := 3

  /** The fixed part of a sample. */
  datatype Fixed =
    | FlowPart(sequenceNo: uint32, sourceId: byte, samplingRate: uint32, samplePool: uint32, drops: uint32,
               input: uint32, output: uint32, recordsNo: uint32)
    | CounterPart(sequenceNo: uint32, sourceIdType: byte, sourceIdIdx: uint32, recordsNo: uint32)
    | ExpandedPart(sequenceNo: uint32, sourceId: byte, samplingRate: uint32, samplePool: uint32, drops: uint32,
                   inputFormat: uint32, input: uint32, outputFormat: uint32, output: uint32, recordsNo: uint32)

  /** A flow, counter or expanded flow sample. */
  datatype Sample = Sample(format: uint32, fixed: Fixed, records: Records)

  // ---------- Reading

  /** The reader's own Read into a buffer of n zeros: it may fill only part of it, and
      fails only at the end of the data. */
  function ReadInto(n: nat, b: bytes, p: nat): (r: Result<bytes>)
    ensures r.Ok? ==> |r.value| == n && p <= r.pos <= |b|
  {
    if p >= |b| then Err(EndOfData)
    else if p + n <= |b| then Ok(b[p..p + n], p + n)
    else Ok(b[p..] + Zeros(n - (|b| - p)), |b|)
  }

  // ---------- Records of a flow sample

  /** The 32-bit expression (4 - L) % 4. */
  function Padding(l: uint32): nat {
    (if l <= 4 then 4 - l else 4 - l as int + 0x1_0000_0000) % 4
  }

  /** It pads every length to the least multiple of four that is not smaller. */
  lemma PaddingAligns(l: uint32, m: nat)
    requires m % 4 == 0 && m >= l
    ensures (l + Padding(l)) % 4 == 0 && l <= l + Padding(l) <= m
  {
  }

  const MAX_HEADER := 1500

  function ReadRawHeader(b: bytes, p: nat): Result<Record> {
    if p + 16 > |b| then Err(EndOfData)
    else
      var protocol, length := U32(b, p), U32(b, p + 12);
      if length > MAX_HEADER then Err(HeaderTooLong)
      else
        match ReadInto(length + Padding(length), b, p + 16)
        case Err(e) => Err(e)
        case Crash => Crash
        case Ok(header, q) =>
          match Packet.Decode(header[..length], protocol)
          case Decoded(layers) => Ok(RawHeader(layers), q)
          case Failed(e, _) => Err(BadPacket(e))
          case Panicked => Crash
  }

  /** The fourth word overwrites the source priority. */
  function ReadExtSwitch(b: bytes, p: nat): Result<Record> {
    if p + 16 > |b| then Err(EndOfData)
    else Ok(ExtSwitch(U32(b, p), U32(b, p + 12), U32(b, p + 8)), p + 16)
  }

  /** The 32-bit length minus 8 sizes a buffer whose first four bytes are skipped. */
  function ReadExtRouter(length: uint32, b: bytes, p: nat): Result<Record> {
    var size := if length >= 8 then length - 8 else length as int - 8 + 0x1_0000_0000;
    if p + size > |b| then Err(EndOfData)
    else if size < 4 then Crash
    else if p + size + 8 > |b| then Err(EndOfData)
    else Ok(ExtRouter(b[p + 4..p + size], U32(b, p + size), U32(b, p + size + 4)), p + size + 8)
  }

  // ---------- Records of a counter sample

  /** The octets of each field of the known counter records. */
  function CounterFields(kind: uint32): Option<seq<nat>> {
    match kind
    case 1 => Some([4, 4, 8, 4, 4, 8, 4, 4, 4, 4, 4, 4, 8, 4, 4, 4, 4, 4, 4])
    case 2 => Some([4, 4, 4, 4, 4, 4, 4, 4, 4, 4, 4, 4, 4])
    case 3 => Some([4, 4, 4, 4, 4, 4, 4, 4, 4, 4, 4, 4, 4, 4, 4, 4, 4, 4])
    case 4 => Some([4, 8, 4, 8, 4, 4, 4, 4, 4, 8, 4, 8, 8, 8])
    case 5 => Some([4, 8, 4, 4, 4, 4])
    case 1001 => Some([4, 4, 4, 8, 8])
    case _ => None
  }

  function CounterName(kind: uint32): string {
    match kind
    case 1 => "GenInt"
    case 2 => "EthInt"
    case 3 => "TRInt"
    case 4 => "VGInt"
    case 5 => "Vlan"
    case _ => "Proc"
  }

  /** The fields of the given sizes, four or eight octets each. */
  function ReadFields(sizes: seq<nat>, b: bytes, p: nat): (r: Result<seq<nat>>)
    ensures !r.Crash? && (r.Ok? ==> r.pos >= p)
    decreases |sizes|
  {
    if sizes == [] then Ok([], p)
    else
      var size := if sizes[0] == 8 then 8 else 4;
      if p + size > |b| then Err(EndOfData)
      else
        match ReadFields(sizes[1..], b, p + size)
        case Ok(vs, q) => Ok([if size == 8 then U64(b, p) else U32(b, p)] + vs, q)
        case Err(e) => Err(e)
        case Crash => Crash
  }

  function ReadCounters(sizes: seq<nat>, b: bytes, p: nat): (r: Result<Record>)
    ensures !r.Crash? && (r.Ok? ==> r.pos >= p)
  {
    match ReadFields(sizes, b, p)
    case Ok(vs, q) => Ok(Counters(vs), q)
    case Err(e) => Err(e)
    case Crash => Crash
  }

  // ---------- Samples

  /** The records so far with one more. */
  function Stored(rs: Records, name: string, r: Result<Record>): Result<Records> {
    match r
    case Ok(v, q) => Ok(rs[name := v], q)
    case Err(e) => Err(e)
    case Crash => Crash
  }

  /** One record of a sample; records of unknown kind are skipped. */
  function ReadRecord(format: uint32, rs: Records, b: bytes, p: nat): Result<Records> {
    if p + 8 > |b| then Err(EndOfData)
    else
      var kind, length := U32(b, p), U32(b, p + 4);
      if format == COUNTER then
        if CounterFields(kind).Some? then Stored(rs, CounterName(kind), ReadCounters(CounterFields(kind).value, b, p + 8))
        else Ok(rs, p + 8 + length)
      else
        match kind
        case 1 => Stored(rs, "RawHeader", ReadRawHeader(b, p + 8))
        case 1001 => Stored(rs, "ExtSwitch", ReadExtSwitch(b, p + 8))
        case 1002 => Stored(rs, "ExtRouter", ReadExtRouter(length, b, p + 8))
        case _ => Ok(rs, p + 8 + length)
  }

  function ReadRecords(n: nat, format: uint32, rs: Records, b: bytes, p: nat): Result<Records>
    decreases n
  {
    if n == 0 then Ok(rs, p)
    else
      match ReadRecord(format, rs, b, p)
      case Ok(rs', q) => ReadRecords(n - 1, format, rs', b, q)
      case Err(e) => Err(e)
      case Crash => Crash
  }

  /** The size of the fixed part, whose last four bytes count the records. */
  function FixedSize(format: uint32): nat {
    if format == FLOW then 32 else if format == COUNTER then 12 else 40
  }

  predicate IsKnown(format: uint32) {
    format == FLOW || format == COUNTER || format == EXPANDED
  }

  /** A 24-bit number. */
  function U24(b: bytes, p: nat): uint32
    requires p + 3 <= |b|
  {
    0x1_0000 * (b[p] as nat) + 0x100 * (b[p + 1] as nat) + b[p + 2]
  }

  /** Of the source id a flow sample keeps the first octet. An expanded flow sample is
      read with the source id of an ordinary one. */
  function ReadFixed(format: uint32, b: bytes, p: nat): Result<Fixed> {
    if p + FixedSize(format) > |b| then Err(EndOfData)
    else if format == FLOW then
      Ok(FlowPart(U32(b, p), b[p + 4], U32(b, p + 8), U32(b, p + 12), U32(b, p + 16), U32(b, p + 20), U32(b, p + 24),
                  U32(b, p + 28)), p + 32)
    else if format == COUNTER then Ok(CounterPart(U32(b, p), b[p + 4], U24(b, p + 5), U32(b, p + 8)), p + 12)
    else
      Ok(ExpandedPart(U32(b, p), b[p + 4], U32(b, p + 8), U32(b, p + 12), U32(b, p + 16), U32(b, p + 20), U32(b, p + 24),
                      U32(b, p + 28), U32(b, p + 32), U32(b, p + 36)), p + 40)
  }

  function ReadSample(format: uint32, b: bytes, p: nat): Result<Sample> {
    match ReadFixed(format, b, p)
    case Err(e) => Err(e)
    case Crash => Crash
    case Ok(fixed, q) =>
      match ReadRecords(fixed.recordsNo, format, map[], b, q)
      case Ok(rs, q') => Ok(Sample(format, fixed, rs), q')
      case Err(e) => Err(e)
      case Crash => Crash
  }

  // ---------- Datagrams

  /** getSampleInfo: the format and length of the next sample. */
  function SampleInfo(b: bytes, p: nat): (r: Result<(uint32, uint32)>)
    ensures r.Ok? ==> r.pos == p + 8 <= |b|
  {
    if p + 4 > |b| then Err(EndOfData)
    else
      var t := U32(b, p);
      if t / 0x1000 != 0 then Err(NotStandard)
      else if p + 8 > |b| then Err(LengthUnknown)
      else Ok((t % 0x1000, U32(b, p + 4)), p + 8)
  }

  /** The sample loop. An error in a sample leaves those before it; any other error
      leaves none. */
  datatype Run = Complete(samples: seq<Sample>) | Partial(samples: seq<Sample>, error: Error) | Nothing(error: Error) | Crashed
  {
    function After(s: Sample): Run {
      match this
      case Complete(ss) => Complete([s] + ss)
      case Partial(ss, e) => Partial([s] + ss, e)
      case _ => this
    }
  }

  function ReadSamples(n: nat, filter: seq<uint32>, b: bytes, p: nat): Run
    decreases n
  {
    if n == 0 then Complete([])
    else
      match SampleInfo(b, p)
      case Err(e) => Nothing(e)
      case Crash => Crashed
      case Ok((format, length), q) =>
        if format in filter || !IsKnown(format) then ReadSamples(n - 1, filter, b, q + length)
        else
          match ReadSample(format, b, q)
          case Err(e) => Partial([], e)
          case Crash => Crashed
          case Ok(s, q') => ReadSamples(n - 1, filter, b, q').After(s)
  }

  /** The samples before, and the rest of the run. */
  function Preceded(ss: seq<Sample>, r: Run): Run {
    match r
    case Complete(more) => Complete(ss + more)
    case Partial(more, e) => Partial(ss + more, e)
    case _ => r
  }

  lemma PrecededNone(r: Run)
    ensures Preceded([], r) == r
  {
    if r.Complete? || r.Partial? {
      assert [] + r.samples == r.samples;
    }
  }

  lemma PrecededStep(ss: seq<Sample>, s: Sample, r: Run)
    ensures Preceded(ss, r.After(s)) == Preceded(ss + [s], r)
  {
    if r.Complete? || r.Partial? {
      assert ss + ([s] + r.samples) == ss + [s] + r.samples;
    }
  }

  datatype Header = Header(ipVersion: uint32, agent: bytes, subId: uint32, sequenceNo: uint32, sysUpTime: uint32, samplesNo: uint32)

  function ReadHeader(b: bytes): (r: Result<Header>)
    ensures r.Ok? ==> 28 <= r.pos <= |b|
  {
    if |b| < 4 then Err(EndOfData)
    else if U32(b, 0) != 5 then Err(BadVersion)
    else if |b| < 8 then Err(EndOfData)
    else
      var v := U32(b, 4);
      var size := if v == 2 then 16 else 4;
      match ReadInto(size, b, 8)
      case Err(e) => Err(e)
      case Crash => Crash
      case Ok(agent, q) =>
        if q + 16 > |b| then Err(EndOfData)
        else Ok(Header(v, agent, U32(b, q), U32(b, q + 4), U32(b, q + 8), U32(b, q + 12)), q + 16)
  }

  datatype Outcome = Refused(error: Error) | Read(header: Header, run: Run)

  function Decode(filter: seq<uint32>, b: bytes): Outcome {
    match ReadHeader(b)
    case Ok(h, p) => Read(h, ReadSamples(h.samplesNo, filter, b, p))
    case Err(e) => Refused(e)
    case Crash => Refused(EndOfData)
  }

  /** The datagram's two lists. */
  function FlowSamples(ss: seq<Sample>): seq<Sample>
    decreases |ss|
  {
    if ss == [] then [] else (if ss[0].format == COUNTER then [] else [ss[0]]) + FlowSamples(ss[1..])
  }

  function CounterSamples(ss: seq<Sample>): seq<Sample>
    decreases |ss|
  {
    if ss == [] then [] else (if ss[0].format == COUNTER then [ss[0]] else []) + CounterSamples(ss[1..])
  }

  // ---------- Filtering is decoding and then filtering

  function Kept(ss: seq<Sample>, filter: seq<uint32>): seq<Sample>
    decreases |ss|
  {
    if ss == [] then [] else (if ss[0].format in filter then [] else [ss[0]]) + Kept(ss[1..], filter)
  }

  /** Every sample that is decoded takes exactly its declared length. */
  predicate Exact(n: nat, b: bytes, p: nat)
    decreases n
  {
    n == 0 ||
    match SampleInfo(b, p)
    case Ok((format, length), q) =>
      && (IsKnown(format) ==> ReadSample(format, b, q).Ok? && ReadSample(format, b, q).pos == q + length)
      && Exact(n - 1, b, q + length)
    case _ => true
  }

  lemma SampleFormat(format: uint32, b: bytes, p: nat)
    ensures var r := ReadSample(format, b, p);
            r.Ok? ==> r.value.format == format
  {
    hide ReadRecords;
  }

  /** For a datagram that is decoded completely, with samples of the declared lengths,
      decoding with a filter gives the samples whose format the filter does not list. */
  lemma {:induction false} FilterAfterwards(n: nat, filter: seq<uint32>, b: bytes, p: nat)
    requires ReadSamples(n, [], b, p).Complete? && Exact(n, b, p)
    ensures ReadSamples(n, filter, b, p) == Complete(Kept(ReadSamples(n, [], b, p).samples, filter))
    decreases n
  {
    hide ReadSample, U32;
    if n > 0 {
      var info := SampleInfo(b, p);
      var (format, length) := info.value;
      if IsKnown(format) {
        SampleFormat(format, b, info.pos);
        var s := ReadSample(format, b, info.pos);
        var rest := ReadSamples(n - 1, [], b, s.pos);
        FilterAfterwards(n - 1, filter, b, s.pos);
        assert ([s.value] + rest.samples)[1..] == rest.samples;
      } else {
        FilterAfterwards(n - 1, filter, b, info.pos + length);
      }
    }
  }

  lemma {:induction false} KeptLists(ss: seq<Sample>, filter: seq<uint32>)
    ensures FlowSamples(Kept(ss, filter)) == Kept(FlowSamples(ss), filter)
    ensures CounterSamples(Kept(ss, filter)) == Kept(CounterSamples(ss), filter)
    decreases |ss|
  {
    if ss != [] {
      KeptLists(ss[1..], filter);
      OneMore(ss[0], Kept(ss[1..], filter), filter);
      OneMore(ss[0], FlowSamples(ss[1..]), filter);
      OneMore(ss[0], CounterSamples(ss[1..]), filter);
    }
  }

  lemma OneMore(s: Sample, ss: seq<Sample>, filter: seq<uint32>)
    ensures var all := [s] + ss;
            && Kept(all, filter) == (if s.format in filter then [] else [s]) + Kept(ss, filter)
            && FlowSamples(all) == (if s.format == COUNTER then [] else [s]) + FlowSamples(ss)
            && CounterSamples(all) == (if s.format == COUNTER then [s] else []) + CounterSamples(ss)
            && [] + ss == ss
  {
    assert ([s] + ss)[1..] == ss;
  }

  /** The whole decoder: with a filter it returns the subsequences of the samples and
      of the counters whose format is not listed. */
  lemma FilterEquivalence(filter: seq<uint32>, b: bytes)
    requires var r := Decode([], b);
             r.Read? && r.run.Complete? && Exact(r.header.samplesNo, b, ReadHeader(b).pos)
    ensures var all, r := Decode([], b), Decode(filter, b);
            && r.Read? && r.header == all.header && r.run.Complete?
            && FlowSamples(r.run.samples) == Kept(FlowSamples(all.run.samples), filter)
            && CounterSamples(r.run.samples) == Kept(CounterSamples(all.run.samples), filter)
  {
    hide ReadSamples, ReadHeader, Exact, FlowSamples, CounterSamples, Kept;
    var h := ReadHeader(b);
    FilterAfterwards(h.value.samplesNo, filter, b, h.pos);
    KeptLists(ReadSamples(h.value.samplesNo, [], b, h.pos).samples, filter);
  }

  // ---------- Bounds

  lemma ReadRecordsForward(n: nat, format: uint32, rs: Records, b: bytes, p: nat)
    ensures var r := ReadRecords(n, format, rs, b, p);
            r.Ok? ==> r.pos >= p
    decreases n
  {
    if n > 0 {
      RecordForward(format, rs, b, p);
      var r := ReadRecord(format, rs, b, p);
      if r.Ok? {
        hide ReadRecord;
        ReadRecordsForward(n - 1, format, r.value, b, r.pos);
      }
    }
  }

  lemma RecordForward(format: uint32, rs: Records, b: bytes, p: nat)
    ensures var r := ReadRecord(format, rs, b, p);
            r.Ok? ==> r.pos >= p + 8
  {
    hide Packet.Decode, U32;
  }

  lemma SampleForward(format: uint32, b: bytes, p: nat)
    ensures var r := ReadSample(format, b, p);
            r.Ok? ==> r.pos >= p
  {
    hide ReadRecords, U32;
    var r := ReadFixed(format, b, p);
    if r.Ok? {
      ReadRecordsForward(r.value.recordsNo, format, map[], b, r.pos);
    }
  }

  /** Whatever number of samples is claimed, each one costs eight bytes. */
  lemma {:induction false} SamplesBounded(n: nat, filter: seq<uint32>, b: bytes, p: nat)
    ensures var r := ReadSamples(n, filter, b, p);
            r.Complete? || r.Partial? ==> r.samples == [] || 8 * |r.samples| <= |b| - p
    decreases n
  {
    hide ReadSample, U32;
    if n > 0 {
      var info := SampleInfo(b, p);
      if info.Ok? {
        var (format, length) := info.value;
        if format in filter || !IsKnown(format) {
          SamplesBounded(n - 1, filter, b, info.pos + length);
        } else {
          SampleForward(format, b, info.pos);
          var s := ReadSample(format, b, info.pos);
          if s.Ok? {
            SamplesBounded(n - 1, filter, b, s.pos);
          }
        }
      }
    }
  }

  lemma {:induction false} ListsPartition(ss: seq<Sample>)
    ensures |FlowSamples(ss)| + |CounterSamples(ss)| == |ss|
    decreases |ss|
  {
    if ss != [] {
      ListsPartition(ss[1..]);
    }
  }

  /** A datagram of n bytes that is decoded holds at most (n - 28) / 8 samples and
      counters together. */
  lemma DatagramBounded(filter: seq<uint32>, b: bytes)
    ensures var r := Decode(filter, b);
            r.Read? && r.run.Complete? ==>
              |b| >= 28 && |FlowSamples(r.run.samples)| + |CounterSamples(r.run.samples)| <= (|b| - 28) / 8
  {
    hide ReadSamples, ReadHeader;
    var h := ReadHeader(b);
    if h.Ok? {
      SamplesBounded(h.value.samplesNo, filter, b, h.pos);
      var r := ReadSamples(h.value.samplesNo, filter, b, h.pos);
      if r.Complete? {
        ListsPartition(r.samples);
      }
    }
  }
}
