/** What netflow/v9/decoder.go computes, as functions of the datagram `b` and the
    cursor position `p` in it. Records, templates and errors are those of IPFIX: a
    v9 field specifier is one whose enterprise number is 0. */
module NetflowV9 {
  import opened Bytes
  import opened InfoModel
  import opened Ipfix
  import opened IpfixFraming

  datatype PacketHeader = PacketHeader(
    version: uint16, count: uint16, sysUpTime: uint32, unixSecs: uint32, seqNum: uint32, srcId: uint32)

  datatype SetHeader = SetHeader(id: uint16, length: uint16)

  // ---------- Template records

  function ReadSpec(b: bytes, p: nat): (r: Parse<FieldSpec>)
    requires p <= |b|
    ensures p <= r.pos <= |b| && (r.Got? ==> r.pos == p + 4)
  {
    if |b| - p < 2 then Short(p)
    else if |b| - p < 4 then Short(p + 2)
    else Got(FieldSpec(U16(b, p), U16(b, p + 2), 0), p + 4)
  }

  function ReadSpecs(n: nat, b: bytes, p: nat): (r: Parse<seq<FieldSpec>>)
    requires p <= |b|
    ensures p <= r.pos <= |b|
  {
    if n == 0 then Got([], p)
    else match ReadSpec(b, p)
      case Short(p') => Short(p')
      case Got(f, p') =>
        match ReadSpecs(n - 1, b, p')
        case Short(q) => Short(q)
        case Got(fs, q) => Got([f] + fs, q)
  }

  function ReadRecord(b: bytes, p: nat): (r: Parse<Template>)
    requires p <= |b|
    ensures p <= r.pos <= |b| && (r.Got? ==> p + 4 <= r.pos)
  {
    if |b| - p < 2 then Short(p)
    else if |b| - p < 4 then Short(p + 2)
    else
      var id, count := U16(b, p), U16(b, p + 2);
      match ReadSpecs(count, b, p + 4)
      case Short(q) => Short(q)
      case Got(fs, q) => Got(Template(id, count, fs, 0, []), q)
  }

  /** The lengths count bytes of specifiers; no field counts are kept, and of the
      scope specifiers only the last one. */
  function ReadOptions(b: bytes, p: nat): (r: Parse<Template>)
    requires p <= |b|
    ensures p <= r.pos <= |b| && (r.Got? ==> p + 4 <= r.pos)
  {
    if |b| - p < 2 then Short(p)
    else if |b| - p < 4 then Short(p + 2)
    else if |b| - p < 6 then Short(p + 4)
    else
      var id, scopeLength, length := U16(b, p), U16(b, p + 2), U16(b, p + 4);
      match ReadSpecs(scopeLength / 4, b, p + 6)
      case Short(q) => Short(q)
      case Got(scope, q) =>
        match ReadSpecs(length / 4, b, q)
        case Short(q') => Short(q')
        case Got(fs, q') => Got(Template(id, 0, fs, 0, LastOnly(scope)), q')
  }

  function ReadAnyRecord(id: uint16, b: bytes, p: nat): (r: Parse<Template>)
    requires p <= |b|
    ensures p <= r.pos <= |b| && (r.Got? ==> p + 4 <= r.pos)
  {
    if id == 0 then ReadRecord(b, p) else ReadOptions(b, p)
  }

  // ---------- One FlowSet

  /** More than four bytes are left of both the FlowSet and the datagram. */
  predicate MoreRecords(length: uint16, start: nat, b: bytes, p: nat) {
    length as int - (p - start) > 4 && |b| - p > 4
  }

  /** The record loop of decodeSet. A template that cannot be read ends it. */
  function FlowSetBody(id: uint16, length: uint16, start: nat, t: Template, info: Elements, b: bytes, p: nat): (s: SetResult)
    requires start <= p <= |b|
    ensures p <= s.pos <= |b|
    decreases |b| - p
  {
    if !MoreRecords(length, start, b, p) then Quiet(p)
    else if id <= 1 then
      match ReadAnyRecord(id, b, p)
      case Got(tr, q) => FlowSetBody(id, length, start, t, info, b, q).After([tr], [])
      case Short(q) => Failed(q, ReaderError)
    else if IsReservedSet(id) then Quiet(p)
    else
      match DecodeRecord(t, info, b, p)
      case Bad(e, q) => Failed(q, e)
      case Row(fs, q) =>
        if q == p then SetResult(p, [], [], None, true)
        else FlowSetBody(id, length, start, t, info, b, q).After([], [fs])
  }

  function FlowSetContents(c: Templates, info: Elements, b: bytes, p: nat): (s: SetResult)
    requires p + 4 <= |b|
    ensures p + 4 <= s.pos <= |b|
  {
    var id, length := U16(b, p), U16(b, p + 2);
    match TemplateFor(c, id)
    case None => Failed(p + 4, UnknownTemplate(id))
    case Some(t) => FlowSetBody(id, length, p, t, info, b, p + 4)
  }

  function SkipPadding(length: uint16, start: nat, b: bytes, s: SetResult): (r: SetResult)
    requires start <= s.pos <= |b|
    ensures s.pos <= r.pos <= |b|
  {
    var leftover := length as int - (s.pos - start);
    if s.stuck || leftover <= 0 then s
    else if |b| - s.pos < leftover then s.(error := Some(ReaderError))
    else s.(pos := s.pos + leftover)
  }

  function DecodeFlowSet(c: Templates, info: Elements, b: bytes, p: nat): (s: SetResult)
    requires p <= |b|
    ensures p <= s.pos <= |b| && (p + 4 <= |b| ==> p + 4 <= s.pos)
  {
    if |b| - p < 2 then Failed(p, ReaderError)
    else if |b| - p < 4 then Failed(p + 2, ReaderError)
    else if U16(b, p + 2) < 4 then Failed(p + 4, UnexpectedEOF)
    else SkipPadding(U16(b, p + 2), p, b, FlowSetContents(c, info, b, p))
  }

  // ---------- A whole packet

  /** A decoded record with the header of the FlowSet it came in. */
  datatype Tagged = Tagged(header: SetHeader, record: Record)

  function Tag(h: SetHeader, rs: seq<Record>): (t: seq<Tagged>)
    ensures |t| == |rs|
    decreases |rs|
  {
    if rs == [] then [] else [Tagged(h, rs[0])] + Tag(h, rs[1..])
  }

  function HeaderAt(b: bytes, p: nat): SetHeader {
    if p + 4 <= |b| then SetHeader(U16(b, p), U16(b, p + 2)) else SetHeader(0, 0)
  }

  datatype FlowRun = FlowRun(learned: seq<Template>, records: seq<Tagged>, errors: seq<Error>, end: End)
  {
    function After(h: SetHeader, s: SetResult): FlowRun {
      FlowRun(s.learned + learned, Tag(h, s.records) + records, Listed(s.error) + errors, end)
    }
  }

  function DecodeFlowSets(rule: StopRule, c: Templates, info: Elements, b: bytes, p: nat): FlowRun
    requires p <= |b|
    decreases |b| - p
  {
    if |b| - p <= 4 then FlowRun([], [], [], Finished)
    else
      var s := DecodeFlowSet(c, info, b, p);
      var h := HeaderAt(b, p);
      if s.stuck then FlowRun([], [], [], Stuck).After(h, s)
      else if Stops(rule, s) then FlowRun([], [], [], Stopped(s.error.value)).After(h, s.(error := None))
      else DecodeFlowSets(rule, InsertAll(c, s.learned), info, b, s.pos).After(h, s)
  }

  datatype PacketOutcome = Refused(error: Error) | Decoded(header: PacketHeader, run: FlowRun)

  function ReadPacketHeader(b: bytes): PacketHeader
    requires |b| >= 20
  {
    PacketHeader(U16(b, 0), U16(b, 2), U32(b, 4), U32(b, 8), U32(b, 12), U32(b, 16))
  }

  function DecodePacket(rule: StopRule, c: Templates, info: Elements, b: bytes): PacketOutcome {
    if |b| < 20 then Refused(ReaderError)
    else
      var h := ReadPacketHeader(b);
      if h.version != 9 then Refused(BadVersion(h.version))
      else Decoded(h, DecodeFlowSets(rule, c, info, b, 20))
  }

  // ---------- Termination and framing

  predicate IsData(id: uint16) {
    id > 1 && !IsReservedSet(id)
  }

  lemma {:induction false} FlowSetStuckIff(id: uint16, length: uint16, start: nat, t: Template, info: Elements, b: bytes, p: nat)
    requires start <= p <= |b|
    ensures FlowSetBody(id, length, start, t, info, b, p).stuck <==>
              MoreRecords(length, start, b, p) && IsData(id) && TakesNothing(t, info)
    decreases |b| - p
  {
    hide DecodeRecord, ReadAnyRecord, TakesNothing, AllKnown, RecordLength;
    if MoreRecords(length, start, b, p) {
      if id <= 1 {
        var tr := ReadAnyRecord(id, b, p);
        if tr.Got? {
          FlowSetStuckIff(id, length, start, t, info, b, tr.pos);
        }
      } else if !IsReservedSet(id) {
        RecordTakesNothing(t, info, b, p);
        var row := DecodeRecord(t, info, b, p);
        if row.Row? && row.pos > p {
          FlowSetStuckIff(id, length, start, t, info, b, row.pos);
        }
      }
    }
  }

  lemma RecordTakesNothing(t: Template, info: Elements, b: bytes, p: nat)
    requires p <= |b|
    ensures var row := DecodeRecord(t, info, b, p);
            row.Row? && row.pos == p <==> TakesNothing(t, info)
  {
    hide DecodeRecord, AllKnown;
    RecordTakes(t, info, b, p);
  }

  /** What makes decodeSet loop for ever at p. */
  predicate FlowSetNeverEnds(c: Templates, info: Elements, b: bytes, p: nat) {
    && |b| - p > 8 && U16(b, p + 2) > 8 && IsData(U16(b, p))
    && TemplateFor(c, U16(b, p)).Some? && TakesNothing(TemplateFor(c, U16(b, p)).value, info)
  }

  /** decodeSet loops for ever exactly on a FlowSet with more than four bytes of
      contents, read with a template whose records take no bytes: FlowSet ids 2 and 3
      are read with the empty template. */
  lemma DecodeFlowSetStuckIff(c: Templates, info: Elements, b: bytes, p: nat)
    requires p <= |b|
    ensures DecodeFlowSet(c, info, b, p).stuck <==> FlowSetNeverEnds(c, info, b, p)
  {
    hide U16, FlowSetBody, TakesNothing;
    if |b| - p >= 4 {
      var t := TemplateFor(c, U16(b, p));
      if t.Some? {
        FlowSetStuckIff(U16(b, p), U16(b, p + 2), p, t.value, info, b, p + 4);
      }
    }
  }

  /** The templates and positions with which Decode calls decodeSet. */
  function FlowVisits(rule: StopRule, c: Templates, info: Elements, b: bytes, p: nat): seq<(Templates, nat)>
    requires p <= |b|
    decreases |b| - p
  {
    if |b| - p <= 4 then []
    else
      var s := DecodeFlowSet(c, info, b, p);
      [(c, p)] +
      if s.stuck || Stops(rule, s) then [] else FlowVisits(rule, InsertAll(c, s.learned), info, b, s.pos)
  }

  ghost predicate SomeFlowSetNeverEnds(vs: seq<(Templates, nat)>, info: Elements, b: bytes) {
    exists i | 0 <= i < |vs| :: FlowSetNeverEnds(vs[i].0, info, b, vs[i].1)
  }

  lemma OneMoreVisit(v: (Templates, nat), vs: seq<(Templates, nat)>, info: Elements, b: bytes)
    ensures SomeFlowSetNeverEnds([v] + vs, info, b)
       <==> FlowSetNeverEnds(v.0, info, b, v.1) || SomeFlowSetNeverEnds(vs, info, b)
  {
    hide FlowSetNeverEnds;
    var all := [v] + vs;
    assert all[0] == v;
    if i :| 0 <= i < |vs| && FlowSetNeverEnds(vs[i].0, info, b, vs[i].1) {
      assert all[i + 1] == vs[i];
    }
  }

  /** Decode returns unless it reaches a FlowSet that never ends. */
  lemma {:induction false} DecodePacketStuckIff(rule: StopRule, c: Templates, info: Elements, b: bytes, p: nat)
    requires p <= |b|
    ensures DecodeFlowSets(rule, c, info, b, p).end.Stuck?
       <==> SomeFlowSetNeverEnds(FlowVisits(rule, c, info, b, p), info, b)
    decreases |b| - p
  {
    hide DecodeFlowSet, FlowSetNeverEnds, SomeFlowSetNeverEnds, InsertAll, Tag, HeaderAt;
    NoVisits(info, b);
    if |b| - p > 4 {
      var s := DecodeFlowSet(c, info, b, p);
      DecodeFlowSetStuckIff(c, info, b, p);
      if s.stuck || Stops(rule, s) {
        OneMoreVisit((c, p), [], info, b);
      } else {
        var c' := InsertAll(c, s.learned);
        DecodePacketStuckIff(rule, c', info, b, s.pos);
        OneMoreVisit((c, p), FlowVisits(rule, c', info, b, s.pos), info, b);
      }
    }
  }

  lemma NoVisits(info: Elements, b: bytes)
    ensures !SomeFlowSetNeverEnds([], info, b)
  {
  }

  // ---------- Work

  lemma {:induction false} FlowSetBodyWork(id: uint16, length: uint16, start: nat, t: Template, info: Elements, b: bytes, p: nat)
    requires start <= p <= |b|
    ensures var s := FlowSetBody(id, length, start, t, info, b, p);
            |s.records| + 4 * |s.learned| <= s.pos - p
    decreases |b| - p
  {
    hide DecodeRecord, ReadAnyRecord;
    if MoreRecords(length, start, b, p) {
      if id <= 1 {
        var tr := ReadAnyRecord(id, b, p);
        if tr.Got? {
          FlowSetBodyWork(id, length, start, t, info, b, tr.pos);
        }
      } else if !IsReservedSet(id) {
        var row := DecodeRecord(t, info, b, p);
        if row.Row? && row.pos > p {
          FlowSetBodyWork(id, length, start, t, info, b, row.pos);
        }
      }
    }
  }

  lemma FlowSetWork(c: Templates, info: Elements, b: bytes, p: nat)
    requires p + 4 <= |b|
    ensures var s := DecodeFlowSet(c, info, b, p);
            4 + |s.records| + 4 * |s.learned| <= s.pos - p
  {
    hide U16, FlowSetBody;
    var t := TemplateFor(c, U16(b, p));
    if t.Some? {
      FlowSetBodyWork(U16(b, p), U16(b, p + 2), p, t.value, info, b, p + 4);
    }
  }

  /** Every record costs a byte of input, every template and every error four, and at
      most a quarter as many FlowSets are started as there are bytes. */
  lemma {:induction false} DecodePacketWork(rule: StopRule, c: Templates, info: Elements, b: bytes, p: nat)
    requires p <= |b|
    ensures var r := DecodeFlowSets(rule, c, info, b, p);
            |r.records| + 4 * |r.learned| + 4 * |r.errors| <= |b| - p
    ensures 4 * |FlowVisits(rule, c, info, b, p)| <= |b| - p
    decreases |b| - p
  {
    hide DecodeFlowSet, InsertAll, HeaderAt;
    if |b| - p > 4 {
      var s := DecodeFlowSet(c, info, b, p);
      FlowSetWork(c, info, b, p);
      if !s.stuck && !Stops(rule, s) {
        DecodePacketWork(rule, InsertAll(c, s.learned), info, b, s.pos);
      }
    }
  }

  // ---------- Framing

  /** Whatever a FlowSet holds, after a non-fatal end the cursor is at its end or, if a
      record ran past it, where that record ended. */
  lemma FlowSetFraming(c: Templates, info: Elements, b: bytes, p: nat)
    requires p + 4 <= |b| && 4 <= U16(b, p + 2)
    ensures var s, t := DecodeFlowSet(c, info, b, p), FlowSetContents(c, info, b, p);
            !s.stuck && (s.error.Some? ==> !Fatal(s.error.value)) ==>
              s.pos == (if t.pos > p + U16(b, p + 2) then t.pos else p + U16(b, p + 2))
  {
    hide U16, FlowSetContents;
  }

  lemma {:induction false} WholeRecords(id: uint16, length: uint16, start: nat, t: Template, info: Elements, b: bytes, p: nat)
    requires IsData(id) && AllKnown(t, info) && RecordLength(t) > 0
    requires start <= p <= start + length <= |b|
    ensures var s, left := FlowSetBody(id, length, start, t, info, b, p), start + length - p;
            if Rem(left, RecordLength(t)) <= 4
            then !s.stuck && s.error == None && s.pos <= start + length
                 && (RecordLength(t) > 4 ==> |s.records| == Quot(left, RecordLength(t)))
            else !s.stuck && (s.error != None || s.pos > start + length)
    decreases |b| - p
  {
    hide DecodeRecord, AllKnown, RecordLength;
    var n := RecordLength(t);
    RecordTakes(t, info, b, p);
    if MoreRecords(length, start, b, p) && p + n <= |b| {
      if p + n <= start + length {
        WholeRecords(id, length, start, t, info, b, p + n);
      } else {
        PastTheEnd(id, length, start, t, info, b, p + n);
      }
    }
  }

  lemma PastTheEnd(id: uint16, length: uint16, start: nat, t: Template, info: Elements, b: bytes, p: nat)
    requires start + length < p <= |b|
    ensures FlowSetBody(id, length, start, t, info, b, p) == Quiet(p)
  {
  }

  /** A data FlowSet of known elements leaves the cursor at its own end, without error,
      if and only if its contents are whole records with at most four bytes over. With
      more, the loop reads a record across the end: unlike in IPFIX no error is
      reported when the datagram has the bytes. Records of five bytes and more are then
      all found. */
  lemma FlowSetFramingIff(c: Templates, info: Elements, b: bytes, p: nat)
    requires p + 4 <= |b| && 4 <= U16(b, p + 2) && p + U16(b, p + 2) <= |b|
    requires U16(b, p) > 255 && U16(b, p) in c && AllKnown(c[U16(b, p)], info) && RecordLength(c[U16(b, p)]) > 0
    ensures var s, n, left := DecodeFlowSet(c, info, b, p), RecordLength(c[U16(b, p)]), U16(b, p + 2) - 4;
            && (s.error == None && s.pos == p + U16(b, p + 2) <==> Rem(left, n) <= 4)
            && (Rem(left, n) <= 4 && n > 4 ==> |s.records| == Quot(left, n))
  {
    hide U16, FlowSetBody, AllKnown, RecordLength;
    WholeRecords(U16(b, p), U16(b, p + 2), p, c[U16(b, p)], info, b, p + 4);
  }
}
