/** The decoder of the sflow package as it runs, over a seekable reader, proved against
    the functions of module Sflow. */
module SflowDecoder {
  import opened Bytes
  import opened Sflow
  import Packet
  import PacketDecoder

  /** The seekable reader over a datagram. A read that fails leaves the position open:
      decoding ends there. */
  class Reader {
    const data: bytes
    var pos: nat

    constructor (b: bytes)
      ensures data == b && pos == 0
    {
      data, pos := b, 0;
    }

    method Read(n: nat) returns (r: Option<bytes>)
      modifies this
      ensures r == if old(pos) + n <= |data| then Some(data[old(pos)..old(pos) + n]) else None
      ensures r.Some? ==> pos == old(pos) + n
    {
      if pos + n > |data| {
        pos := if pos < |data| then |data| else pos;
        return None;
      }
      r := Some(data[pos..pos + n]);
      pos := pos + n;
    }

    method Read8() returns (r: Option<byte>)
      modifies this
      ensures r == if old(pos) + 1 <= |data| then Some(data[old(pos)]) else None
      ensures r.Some? ==> pos == old(pos) + 1
    {
      var d := Read(1);
      r := if d.None? then None else Some(d.value[0]);
    }

    method Read64() returns (r: Option<uint64>)
      modifies this
      ensures r == if old(pos) + 8 <= |data| then Some(U64(data, old(pos))) else None
      ensures r.Some? ==> pos == old(pos) + 8
    {
      hide U64;
      var d := Read(8);
      if d.None? { return None; }
      Slice64(data, old(pos));
      r := Some(U64(d.value));
    }

    method Read32() returns (r: Option<uint32>)
      modifies this
      ensures r == if old(pos) + 4 <= |data| then Some(U32(data, old(pos))) else None
      ensures r.Some? ==> pos == old(pos) + 4
    {
      var d := Read(4);
      if d.None? { return None; }
      Slice32(data, old(pos));
      r := Some(U32(d.value));
    }

    method ReadInto(n: nat) returns (r: Option<bytes>)
      modifies this
      ensures var s := Sflow.ReadInto(n, data, old(pos));
              if s.Ok? then r == Some(s.value) && pos == s.pos else r == None
    {
      if pos >= |data| { return None; }
      if pos + n <= |data| {
        r := Some(data[pos..pos + n]);
        pos := pos + n;
      } else {
        r := Some(data[pos..] + Zeros(n - (|data| - pos)));
        pos := |data|;
      }
    }

    method Seek(n: nat)
      modifies this
      ensures pos == old(pos) + n
    {
      pos := pos + n;
    }
  }

  lemma Slice32(b: bytes, p: nat)
    requires p + 4 <= |b|
    ensures U32(b[p..p + 4]) == U32(b, p)
  {
  }

  lemma Slice64(b: bytes, p: nat)
    requires p + 8 <= |b|
    ensures U64(b[p..p + 8]) == U64(b, p)
  {
    var d := b[p..p + 8];
    assert d[..4] == b[p..p + 4] && d[4..] == b[p + 4..p + 8];
    assert U32(d) == U32(b, p) && U32(d, 4) == U32(b, p + 4);
  }

  /** What a method reports about a result: its value, or an error or a panic. */
  datatype Got<+T> = Value(value: T) | Fault(error: Error) | Panic

  ghost predicate Matches<T>(g: Got<T>, pos: nat, r: Result<T>) {
    match r
    case Ok(v, q) => g == Value(v) && pos == q
    case Err(e) => g == Fault(e)
    case Crash => g == Panic
  }

  // ---------- Records

  method DecodeRawHeader(r: Reader) returns (g: Got<Record>)
    modifies r
    ensures Matches(g, r.pos, ReadRawHeader(r.data, old(r.pos)))
  {
    hide U32, Packet.Decode;
    var protocol := r.Read32();
    if protocol.None? { return Fault(EndOfData); }
    var frameLength := r.Read32();
    if frameLength.None? { return Fault(EndOfData); }
    var stripped := r.Read32();
    if stripped.None? { return Fault(EndOfData); }
    var length := r.Read32();
    if length.None? { return Fault(EndOfData); }
    if length.value > MAX_HEADER { return Fault(HeaderTooLong); }
    var header := r.ReadInto(length.value + Padding(length.value));
    if header.None? { return Fault(EndOfData); }
    g := DecodePacket(header.value[..length.value], protocol.value);
  }

  /** The packet decoder works in place, on a buffer of its own. */
  method DecodePacket(header: bytes, protocol: uint32) returns (g: Got<Record>)
    ensures match Packet.Decode(header, protocol)
            case Decoded(layers) => g == Value(RawHeader(layers))
            case Failed(e, _) => g == Fault(BadPacket(e))
            case Panicked => g == Panic
  {
    hide Packet.Decode;
    var buf := new byte[|header|](i requires 0 <= i < |header| => header[i]);
    assert buf[..] == header;
    var d := new PacketDecoder.Decoder(buf);
    var err, panicked := d.Decode(protocol);
    if panicked { return Panic; }
    if err.Some? { return Fault(BadPacket(err.value)); }
    g := Value(RawHeader(Packet.Layers(d.l2, d.l3, d.l4, d.buf[d.lo..d.hi])));
  }

  method DecodeExtSwitch(r: Reader) returns (g: Got<Record>)
    modifies r
    ensures Matches(g, r.pos, ReadExtSwitch(r.data, old(r.pos)))
  {
    hide U32;
    var srcVlan := r.Read32();
    if srcVlan.None? { return Fault(EndOfData); }
    var srcPriority := r.Read32();
    if srcPriority.None? { return Fault(EndOfData); }
    var dstVlan := r.Read32();
    if dstVlan.None? { return Fault(EndOfData); }
    srcPriority := r.Read32();
    if srcPriority.None? { return Fault(EndOfData); }
    g := Value(ExtSwitch(srcVlan.value, srcPriority.value, dstVlan.value));
  }

  method DecodeExtRouter(length: uint32, r: Reader) returns (g: Got<Record>)
    modifies r
    ensures Matches(g, r.pos, ReadExtRouter(length, r.data, old(r.pos)))
  {
    hide U32;
    var size := if length >= 8 then length - 8 else length as int - 8 + 0x1_0000_0000;
    var buff := r.Read(size);
    if buff.None? { return Fault(EndOfData); }
    if size < 4 { return Panic; }
    var nextHop := buff.value[4..];
    assert nextHop == r.data[old(r.pos) + 4..old(r.pos) + size];
    var srcMask := r.Read32();
    if srcMask.None? { return Fault(EndOfData); }
    var dstMask := r.Read32();
    if dstMask.None? { return Fault(EndOfData); }
    g := Value(ExtRouter(nextHop, srcMask.value, dstMask.value));
  }

  /** The loop over the fields of a counter record. */
  method DecodeCounters(sizes: seq<nat>, r: Reader) returns (g: Got<Record>)
    modifies r
    ensures Matches(g, r.pos, ReadCounters(sizes, r.data, old(r.pos)))
  {
    hide U32, U64, ReadFields;
    var vs: seq<nat> := [];
    ghost var all := ReadFields(sizes, r.data, r.pos);
    assert sizes[0..] == sizes;
    NoneBefore(all);
    for i := 0 to |sizes|
      invariant all == Before(vs, ReadFields(sizes[i..], r.data, r.pos))
    {
      FieldsStep(sizes[i..], r.data, r.pos);
      assert sizes[i..][1..] == sizes[i + 1..];
      ghost var p := r.pos;
      var v: Option<nat>;
      if sizes[i] == 8 {
        v := r.Read64();
      } else {
        v := r.Read32();
      }
      if v.None? { return Fault(EndOfData); }
      BeforeStep(vs, v.value, ReadFields(sizes[i + 1..], r.data, r.pos));
      vs := vs + [v.value];
    }
    assert sizes[|sizes|..] == [];
    NoFieldsLeft(r.data, r.pos);
    assert vs + [] == vs;
    g := Value(Counters(vs));
  }

  /** The values before, and the result for the rest. */
  function Before(vs: seq<nat>, r: Result<seq<nat>>): Result<seq<nat>> {
    match r
    case Ok(more, q) => Ok(vs + more, q)
    case _ => r
  }

  lemma NoneBefore(r: Result<seq<nat>>)
    ensures Before([], r) == r
  {
    if r.Ok? {
      assert [] + r.value == r.value;
    }
  }

  lemma BeforeStep(vs: seq<nat>, v: nat, r: Result<seq<nat>>)
    ensures Before(vs, Before([v], r)) == Before(vs + [v], r)
  {
    if r.Ok? {
      assert vs + ([v] + r.value) == vs + [v] + r.value;
    }
  }

  lemma FieldsStep(sizes: seq<nat>, b: bytes, p: nat)
    requires sizes != []
    ensures var size := if sizes[0] == 8 then 8 else 4;
            ReadFields(sizes, b, p)
            == if p + size > |b| then Err(EndOfData)
               else Before([if size == 8 then U64(b, p) else U32(b, p)], ReadFields(sizes[1..], b, p + size))
  {
    hide U32, U64;
  }

  lemma NoFieldsLeft(b: bytes, p: nat)
    ensures ReadFields([], b, p) == Ok([], p)
  {
  }

  method DecodeRecord(format: uint32, rs: Records, r: Reader) returns (g: Got<Records>)
    modifies r
    ensures Matches(g, r.pos, ReadRecord(format, rs, r.data, old(r.pos)))
  {
    hide U32, ReadRawHeader, ReadExtSwitch, ReadExtRouter, CounterFields, ReadCounters;
    var kind := r.Read32();
    if kind.None? { return Fault(EndOfData); }
    var length := r.Read32();
    if length.None? { return Fault(EndOfData); }
    var got: Got<Record>;
    var name: string;
    if format == COUNTER {
      var sizes := CounterFields(kind.value);
      if sizes.None? {
        r.Seek(length.value);
        return Value(rs);
      }
      name := CounterName(kind.value);
      got := DecodeCounters(sizes.value, r);
    } else if kind.value == 1 {
      name := "RawHeader";
      got := DecodeRawHeader(r);
    } else if kind.value == 1001 {
      name := "ExtSwitch";
      got := DecodeExtSwitch(r);
    } else if kind.value == 1002 {
      name := "ExtRouter";
      got := DecodeExtRouter(length.value, r);
    } else {
      r.Seek(length.value);
      return Value(rs);
    }
    match got {
      case Value(v) => g := Value(rs[name := v]);
      case Fault(e) => g := Fault(e);
      case Panic => g := Panic;
    }
  }

  // ---------- Samples

  method UnmarshalFlow(r: Reader) returns (g: Got<Fixed>)
    modifies r
    ensures Matches(g, r.pos, ReadFixed(1, r.data, old(r.pos)))
  {
    hide U32;
    var sequenceNo := r.Read32();
    if sequenceNo.None? { return Fault(EndOfData); }
    var sourceId := r.Read8();
    if sourceId.None? { return Fault(EndOfData); }
    r.Seek(3);
    var samplingRate := r.Read32();
    if samplingRate.None? { return Fault(EndOfData); }
    var samplePool := r.Read32();
    if samplePool.None? { return Fault(EndOfData); }
    var drops := r.Read32();
    if drops.None? { return Fault(EndOfData); }
    var input := r.Read32();
    if input.None? { return Fault(EndOfData); }
    var output := r.Read32();
    if output.None? { return Fault(EndOfData); }
    var recordsNo := r.Read32();
    if recordsNo.None? { return Fault(EndOfData); }
    g := Value(FlowPart(sequenceNo.value, sourceId.value, samplingRate.value, samplePool.value, drops.value,
                        input.value, output.value, recordsNo.value));
  }

  method UnmarshalCounter(r: Reader) returns (g: Got<Fixed>)
    modifies r
    ensures Matches(g, r.pos, ReadFixed(2, r.data, old(r.pos)))
  {
    hide U32;
    var sequenceNo := r.Read32();
    if sequenceNo.None? { return Fault(EndOfData); }
    var sourceIdType := r.Read8();
    if sourceIdType.None? { return Fault(EndOfData); }
    var buf := r.Read(3);
    if buf.None? { return Fault(EndOfData); }
    var sourceIdIdx := buf.value[2] + 0x100 * (buf.value[1] as nat) + 0x1_0000 * (buf.value[0] as nat);
    var recordsNo := r.Read32();
    if recordsNo.None? { return Fault(EndOfData); }
    g := Value(CounterPart(sequenceNo.value, sourceIdType.value, sourceIdIdx, recordsNo.value));
  }

  method UnmarshalExpanded(format: uint32, r: Reader) returns (g: Got<Fixed>)
    requires format != 1 && format != 2
    modifies r
    ensures Matches(g, r.pos, ReadFixed(format, r.data, old(r.pos)))
  {
    hide U32;
    var sequenceNo := r.Read32();
    if sequenceNo.None? { return Fault(EndOfData); }
    var sourceId := r.Read8();
    if sourceId.None? { return Fault(EndOfData); }
    r.Seek(3);
    var samplingRate := r.Read32();
    if samplingRate.None? { return Fault(EndOfData); }
    var samplePool := r.Read32();
    if samplePool.None? { return Fault(EndOfData); }
    var drops := r.Read32();
    if drops.None? { return Fault(EndOfData); }
    var inputFormat := r.Read32();
    if inputFormat.None? { return Fault(EndOfData); }
    var input := r.Read32();
    if input.None? { return Fault(EndOfData); }
    var outputFormat := r.Read32();
    if outputFormat.None? { return Fault(EndOfData); }
    var output := r.Read32();
    if output.None? { return Fault(EndOfData); }
    var recordsNo := r.Read32();
    if recordsNo.None? { return Fault(EndOfData); }
    g := Value(ExpandedPart(sequenceNo.value, sourceId.value, samplingRate.value, samplePool.value, drops.value,
                            inputFormat.value, input.value, outputFormat.value, output.value, recordsNo.value));
  }

  method DecodeSample(format: uint32, r: Reader) returns (g: Got<Sample>)
    modifies r
    ensures Matches(g, r.pos, ReadSample(format, r.data, old(r.pos)))
  {
    hide ReadFixed, ReadRecord, ReadRecords;
    var fixed: Got<Fixed>;
    match format {
      case 1 => fixed := UnmarshalFlow(r);
      case 2 => fixed := UnmarshalCounter(r);
      case _ => fixed := UnmarshalExpanded(format, r);
    }
    if fixed.Fault? { return Fault(fixed.error); }
    if fixed.Panic? { return Panic; }
    var rs: Records := map[];
    ghost var all := ReadRecords(fixed.value.recordsNo, format, rs, r.data, r.pos);
    var i := fixed.value.recordsNo;
    while i > 0
      invariant i >= 0 && all == ReadRecords(i, format, rs, r.data, r.pos)
    {
      RecordsStep(i, format, rs, r.data, r.pos);
      var got := DecodeRecord(format, rs, r);
      match got {
        case Value(v) => rs := v;
        case Fault(e) => return Fault(e);
        case Panic => return Panic;
      }
      i := i - 1;
    }
    NoRecords(format, rs, r.data, r.pos);
    g := Value(Sample(format, fixed.value, rs));
  }

  lemma RecordsStep(n: nat, format: uint32, rs: Records, b: bytes, p: nat)
    requires n > 0
    ensures ReadRecords(n, format, rs, b, p)
         == match ReadRecord(format, rs, b, p) {
              case Ok(rs', q) => ReadRecords(n - 1, format, rs', b, q)
              case Err(e) => Err(e)
              case Crash => Crash
            }
  {
    hide ReadRecord;
  }

  lemma NoRecords(format: uint32, rs: Records, b: bytes, p: nat)
    ensures ReadRecords(0, format, rs, b, p) == Ok(rs, p)
  {
  }

  // ---------- Datagrams

  class Datagram {
    var header: Header
    var samples: seq<Sample>
    var counters: seq<Sample>

    constructor (h: Header)
      ensures header == h && samples == [] && counters == []
    {
      header, samples, counters := h, [], [];
    }

    ghost predicate Holds(ss: seq<Sample>)
      reads this
    {
      samples == FlowSamples(ss) && counters == CounterSamples(ss)
    }

    method Add(s: Sample, ghost ss: seq<Sample>)
      requires Holds(ss)
      modifies `samples, `counters
      ensures Holds(ss + [s])
    {
      OneAtTheEnd(ss, s);
      if s.format == COUNTER {
        counters := counters + [s];
      } else {
        samples := samples + [s];
      }
    }
  }

  lemma {:induction false} OneAtTheEnd(ss: seq<Sample>, s: Sample)
    ensures FlowSamples(ss + [s]) == FlowSamples(ss) + (if s.format == COUNTER then [] else [s])
    ensures CounterSamples(ss + [s]) == CounterSamples(ss) + (if s.format == COUNTER then [s] else [])
    decreases |ss|
  {
    if ss == [] {
      assert ss + [s] == [s] && [s][1..] == [];
    } else {
      OneAtTheEnd(ss[1..], s);
      assert ss + [s] == [ss[0]] + (ss[1..] + [s]);
      OneMore(ss[0], ss[1..] + [s], []);
      hide FlowSamples, CounterSamples;
      OneMore(ss[0], ss[1..], []);
      assert ss == [ss[0]] + ss[1..];
    }
  }

  class Decoder {
    const reader: Reader
    const filter: seq<uint32>

    constructor (b: bytes, filter: seq<uint32>)
      ensures this.filter == filter && fresh(reader) && reader.data == b && reader.pos == 0
    {
      this.filter := filter;
      reader := new Reader(b);
    }

    method IsFilterMatch(f: uint32) returns (m: bool)
      ensures m <==> f in filter
    {
      for i := 0 to |filter|
        invariant f !in filter[..i]
      {
        if filter[i] == f { return true; }
      }
      assert filter[..|filter|] == filter;
      m := false;
    }

    method GetSampleInfo() returns (g: Got<(uint32, uint32)>)
      modifies reader
      ensures Matches(g, reader.pos, SampleInfo(reader.data, old(reader.pos)))
    {
      hide U32;
      var t := reader.Read32();
      if t.None? { return Fault(EndOfData); }
      if t.value / 0x1000 != 0 { return Fault(NotStandard); }
      var length := reader.Read32();
      if length.None? { return Fault(LengthUnknown); }
      g := Value((t.value % 0x1000, length.value));
    }

    method DecodeHeader() returns (g: Got<Header>)
      requires reader.pos == 0
      modifies reader
      ensures Matches(g, reader.pos, ReadHeader(reader.data))
    {
      hide U32;
      var version := reader.Read32();
      if version.None? { return Fault(EndOfData); }
      if version.value != 5 { return Fault(BadVersion); }
      var ipVersion := reader.Read32();
      if ipVersion.None? { return Fault(EndOfData); }
      var agent := reader.ReadInto(if ipVersion.value == 2 then 16 else 4);
      if agent.None? { return Fault(EndOfData); }
      var subId := reader.Read32();
      if subId.None? { return Fault(EndOfData); }
      var sequenceNo := reader.Read32();
      if sequenceNo.None? { return Fault(EndOfData); }
      var sysUpTime := reader.Read32();
      if sysUpTime.None? { return Fault(EndOfData); }
      var samplesNo := reader.Read32();
      if samplesNo.None? { return Fault(EndOfData); }
      g := Value(Header(ipVersion.value, agent.value, subId.value, sequenceNo.value, sysUpTime.value, samplesNo.value));
    }

    /** The sample loop, which appends to the datagram's two lists. */
    method DecodeSamples(n: nat, d: Datagram) returns (g: Got<()>, keep: bool)
      requires d.samples == [] && d.counters == []
      modifies reader, d`samples, d`counters
      ensures match ReadSamples(n, filter, reader.data, old(reader.pos))
              case Complete(ss) => g == Value(()) && keep && d.Holds(ss)
              case Partial(ss, e) => g == Fault(e) && keep && d.Holds(ss)
              case Nothing(e) => g == Fault(e) && !keep
              case Crashed => g == Panic
    {
      hide U32, SampleInfo, ReadSample, ReadSamples, FlowSamples, CounterSamples;
      ghost var ss: seq<Sample> := [];
      ghost var all := ReadSamples(n, filter, reader.data, reader.pos);
      PrecededNone(all);
      NoLists();
      var i := n;
      while i > 0
        invariant i >= 0 && d.Holds(ss)
        invariant all == Preceded(ss, ReadSamples(i, filter, reader.data, reader.pos))
      {
        SamplesStep(i, filter, reader.data, reader.pos);
        var info := GetSampleInfo();
        if info.Fault? { return Fault(info.error), false; }
        if info.Panic? { return Panic, false; }
        var (format, length) := info.value;
        var m := IsFilterMatch(format);
        if m || !IsKnown(format) {
          reader.Seek(length);
        } else {
          var s := DecodeSample(format, reader);
          match s {
            case Fault(e) =>
              assert ss + [] == ss;
              return Fault(e), true;
            case Panic =>
              return Panic, false;
            case Value(v) =>
              PrecededStep(ss, v, ReadSamples(i - 1, filter, reader.data, reader.pos));
              d.Add(v, ss);
              ss := ss + [v];
          }
        }
        i := i - 1;
      }
      NoSamples(filter, reader.data, reader.pos);
      assert ss + [] == ss;
      g, keep := Value(()), true;
    }

    /** SFDecode: no datagram comes back for a bad header or sample header; after an
        error in a sample the datagram holds the samples before it. */
    method Decode() returns (d: Datagram?, g: Got<()>)
      requires reader.pos == 0
      modifies reader
      ensures match Sflow.Decode(filter, reader.data)
              case Refused(e) => d == null && g == Fault(e)
              case Read(h, run) =>
                match run
                case Complete(ss) => d != null && fresh(d) && g == Value(()) && d.header == h && d.Holds(ss)
                case Partial(ss, e) => d != null && fresh(d) && g == Fault(e) && d.header == h && d.Holds(ss)
                case Nothing(e) => d == null && g == Fault(e)
                case Crashed => g == Panic
    {
      hide ReadSamples, ReadHeader, FlowSamples, CounterSamples;
      HeaderNeverCrashes(reader.data);
      var h := DecodeHeader();
      if h.Fault? { return null, Fault(h.error); }
      if h.Panic? { return null, Panic; }
      var datagram := new Datagram(h.value);
      var keep;
      g, keep := DecodeSamples(h.value.samplesNo, datagram);
      d := if keep then datagram else null;
    }
  }

  lemma HeaderNeverCrashes(b: bytes)
    ensures !ReadHeader(b).Crash?
  {
    hide U32;
  }

  lemma NoLists()
    ensures FlowSamples([]) == [] && CounterSamples([]) == []
  {
  }

  lemma NoSamples(filter: seq<uint32>, b: bytes, p: nat)
    ensures ReadSamples(0, filter, b, p) == Complete([])
  {
  }

  lemma SamplesStep(n: nat, filter: seq<uint32>, b: bytes, p: nat)
    requires n > 0
    ensures ReadSamples(n, filter, b, p)
         == match SampleInfo(b, p) {
              case Err(e) => Nothing(e)
              case Crash => Crashed
              case Ok((format, length), q) =>
                if format in filter || !IsKnown(format) then ReadSamples(n - 1, filter, b, q + length)
                else
                  match ReadSample(format, b, q)
                  case Err(e) => Partial([], e)
                  case Crash => Crashed
                  case Ok(s, q') => ReadSamples(n - 1, filter, b, q').After(s)
            }
  {
    hide SampleInfo, ReadSample;
  }
}
