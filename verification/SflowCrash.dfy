/** When the sFlow decoder ends the process with a run-time panic. */
module SflowCrash {
  import opened Bytes
  import opened Sflow
  import Packet

  // ---------- One record

  /** An extended router record of 8 to 11 bytes: the buffer that its first four bytes
      are skipped in has fewer. */
  predicate RouterCrashes(length: uint32, b: bytes, p: nat) {
    8 <= length < 12 && p + (length - 8) <= |b|
  }

  lemma RouterCrashIff(length: uint32, b: bytes, p: nat)
    ensures ReadExtRouter(length, b, p).Crash? <==> RouterCrashes(length, b, p)
  {
    hide U32;
  }

  /** A sampled Ethernet header of 14 to 17 bytes that starts a VLAN tag. What is missing
      at the end of the datagram counts as zeros. */
  predicate HeaderCrashes(b: bytes, p: nat) {
    && p + 28 < |b| && U32(b, p) == 1 && 14 <= U32(b, p + 12) < 18
    && b[p + 28] == 0x81 && (p + 29 < |b| ==> b[p + 29] == 0)
  }

  lemma DecodePanicIff(b: bytes, protocol: uint32)
    ensures Packet.Decode(b, protocol).Panicked? <==> protocol == 1 && Packet.IsTagged(b) && |b| < 18
  {
    if protocol == 1 {
      Packet.PanicIff(b);
    } else {
      hide Packet.Num16;
    }
  }

  /** The bytes that a read into a buffer of zeros leaves there. */
  lemma ReadIntoBytes(n: nat, b: bytes, p: nat, i: nat)
    requires p < |b| && i < n
    ensures var r := ReadInto(n, b, p);
            r.Ok? && r.value[i] == if p + i < |b| then b[p + i] else 0
  {
    if p + n > |b| {
      ZerosAre(n - (|b| - p), if p + i < |b| then 0 else i - (|b| - p));
    }
  }

  lemma {:induction false} ZerosAre(n: nat, i: nat)
    requires i < n
    ensures Zeros(n)[i] == 0
    decreases n
  {
    if i > 0 {
      ZerosAre(n - 1, i - 1);
    }
  }

  lemma TagStarts(h: bytes)
    requires |h| >= 14
    ensures Packet.IsTagged(h) <==> h[12] == 0x81 && h[13] == 0
  {
  }

  lemma HeaderCrashIff(b: bytes, p: nat)
    ensures ReadRawHeader(b, p).Crash? <==> HeaderCrashes(b, p)
  {
    hide U32, Packet.Decode, Padding, ReadInto;
    if p + 16 < |b| && U32(b, p + 12) <= MAX_HEADER {
      var protocol, length := U32(b, p), U32(b, p + 12);
      var n := length + Padding(length);
      ReadIntoLength(n, b, p + 16);
      var h := ReadInto(n, b, p + 16).value[..length];
      DecodePanicIff(h, protocol);
      if length >= 14 {
        ReadIntoBytes(n, b, p + 16, 12);
        ReadIntoBytes(n, b, p + 16, 13);
        TagStarts(h);
      } else {
        assert !Packet.IsTagged(h);
      }
    } else if p + 16 == |b| {
      ReadIntoEnd(U32(b, p + 12) + Padding(U32(b, p + 12)), b);
    }
  }

  lemma ReadIntoLength(n: nat, b: bytes, p: nat)
    requires p < |b|
    ensures ReadInto(n, b, p).Ok? && |ReadInto(n, b, p).value| == n
  {
  }

  lemma ReadIntoEnd(n: nat, b: bytes)
    ensures ReadInto(n, b, |b|).Err?
  {
  }

  /** A record on which the decoder panics. */
  predicate RecordCrashes(format: uint32, b: bytes, p: nat) {
    && p + 8 <= |b| && format != COUNTER
    && (   (U32(b, p) == 1 && HeaderCrashes(b, p + 8))
        || (U32(b, p) == 1002 && RouterCrashes(U32(b, p + 4), b, p + 8)))
  }

  lemma RecordCrashIff(format: uint32, rs: Records, b: bytes, p: nat)
    ensures ReadRecord(format, rs, b, p).Crash? <==> RecordCrashes(format, b, p)
  {
    hide U32, ReadRawHeader, ReadExtRouter, HeaderCrashes, RouterCrashes, CounterFields, ReadCounters;
    if p + 8 <= |b| {
      HeaderCrashIff(b, p + 8);
      RouterCrashIff(U32(b, p + 4), b, p + 8);
    }
  }

  // ---------- The records that a datagram's decoding reaches

  /** The records of one sample, up to one that fails. */
  function RecordVisits(n: nat, format: uint32, rs: Records, b: bytes, p: nat): seq<(uint32, nat)>
    decreases n
  {
    if n == 0 then []
    else
      var r := ReadRecord(format, rs, b, p);
      [(format, p)] + if r.Ok? then RecordVisits(n - 1, format, r.value, b, r.pos) else []
  }

  function SampleRecords(format: uint32, b: bytes, p: nat): seq<(uint32, nat)> {
    match ReadFixed(format, b, p)
    case Ok(fixed, q) => RecordVisits(fixed.recordsNo, format, map[], b, q)
    case _ => []
  }

  /** The records of all samples that are neither filtered nor of unknown format. */
  function Visits(n: nat, filter: seq<uint32>, b: bytes, p: nat): seq<(uint32, nat)>
    decreases n
  {
    if n == 0 || !SampleInfo(b, p).Ok? then []
    else
      var info := SampleInfo(b, p);
      var (format, length) := info.value;
      if format in filter || !IsKnown(format) then Visits(n - 1, filter, b, info.pos + length)
      else
        var s := ReadSample(format, b, info.pos);
        SampleRecords(format, b, info.pos) + if s.Ok? then Visits(n - 1, filter, b, s.pos) else []
  }

  ghost predicate SomeCrashes(vs: seq<(uint32, nat)>, b: bytes) {
    exists i | 0 <= i < |vs| :: RecordCrashes(vs[i].0, b, vs[i].1)
  }

  lemma SomeCrashesSplit(us: seq<(uint32, nat)>, vs: seq<(uint32, nat)>, b: bytes)
    ensures SomeCrashes(us + vs, b) <==> SomeCrashes(us, b) || SomeCrashes(vs, b)
  {
    hide RecordCrashes;
    var all := us + vs;
    if i :| 0 <= i < |us| && RecordCrashes(us[i].0, b, us[i].1) {
      assert all[i] == us[i];
    }
    if i :| 0 <= i < |vs| && RecordCrashes(vs[i].0, b, vs[i].1) {
      assert all[|us| + i] == vs[i];
    }
  }

  lemma OneCrashes(v: (uint32, nat), b: bytes)
    ensures SomeCrashes([v], b) <==> RecordCrashes(v.0, b, v.1)
    ensures !SomeCrashes([], b)
  {
    hide RecordCrashes;
    assert [v][0] == v;
  }

  lemma {:induction false} RecordsCrashIff(n: nat, format: uint32, rs: Records, b: bytes, p: nat)
    ensures ReadRecords(n, format, rs, b, p).Crash? <==> SomeCrashes(RecordVisits(n, format, rs, b, p), b)
    decreases n
  {
    hide ReadRecord, RecordCrashes, SomeCrashes;
    OneCrashes((format, p), b);
    if n > 0 {
      var r := ReadRecord(format, rs, b, p);
      RecordCrashIff(format, rs, b, p);
      if r.Ok? {
        RecordsCrashIff(n - 1, format, r.value, b, r.pos);
        SomeCrashesSplit([(format, p)], RecordVisits(n - 1, format, r.value, b, r.pos), b);
      } else {
        assert [(format, p)] + [] == [(format, p)];
      }
    }
  }

  lemma SampleCrashIff(format: uint32, b: bytes, p: nat)
    ensures ReadSample(format, b, p).Crash? <==> SomeCrashes(SampleRecords(format, b, p), b)
  {
    hide U32, ReadRecords, RecordVisits, SomeCrashes;
    OneCrashes((format, p), b);
    var r := ReadFixed(format, b, p);
    if r.Ok? {
      RecordsCrashIff(r.value.recordsNo, format, map[], b, r.pos);
    }
  }

  lemma {:induction false} SamplesCrashIff(n: nat, filter: seq<uint32>, b: bytes, p: nat)
    ensures ReadSamples(n, filter, b, p).Crashed? <==> SomeCrashes(Visits(n, filter, b, p), b)
    decreases n
  {
    hide ReadSample, SampleRecords, SomeCrashes, U32;
    OneCrashes((0, 0), b);
    if n > 0 && SampleInfo(b, p).Ok? {
      var info := SampleInfo(b, p);
      var (format, length) := info.value;
      if format in filter || !IsKnown(format) {
        SamplesCrashIff(n - 1, filter, b, info.pos + length);
      } else {
        var s := ReadSample(format, b, info.pos);
        SampleCrashIff(format, b, info.pos);
        if s.Ok? {
          SamplesCrashIff(n - 1, filter, b, s.pos);
          SomeCrashesSplit(SampleRecords(format, b, info.pos), Visits(n - 1, filter, b, s.pos), b);
        } else {
          assert SampleRecords(format, b, info.pos) + [] == SampleRecords(format, b, info.pos);
        }
      }
    }
  }

  /** The records that the decoding of a datagram reaches. */
  function DatagramVisits(filter: seq<uint32>, b: bytes): seq<(uint32, nat)> {
    match ReadHeader(b)
    case Ok(h, p) => Visits(h.samplesNo, filter, b, p)
    case _ => []
  }

  /** The decoder panics on a datagram if and only if it reaches, in a sample that the
      filter does not skip, an extended router record of 8 to 11 bytes or a sampled
      header of 14 to 17 bytes with the start of a VLAN tag. */
  lemma DatagramCrashIff(filter: seq<uint32>, b: bytes)
    ensures var r := Decode(filter, b);
            r.Read? && r.run.Crashed? <==> SomeCrashes(DatagramVisits(filter, b), b)
  {
    hide ReadSamples, ReadHeader, Visits, SomeCrashes;
    OneCrashes((0, 0), b);
    var h := ReadHeader(b);
    if h.Ok? {
      SamplesCrashIff(h.value.samplesNo, filter, b, h.pos);
    }
  }
}
