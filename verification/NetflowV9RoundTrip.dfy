/** Decoding undoes exporting for NetFlow v9 packets (sections 5.1 to 5.3 of RFC
    3954), with up to four bytes of padding after each FlowSet. */
module NetflowV9RoundTrip {
  import opened Bytes
  import opened InfoModel
  import opened Ipfix
  import opened IpfixFraming
  import opened IpfixExport
  import opened IpfixRoundTrip
  import opened NetflowV9
  import IpfixMessage

  // ---------- The exporter's side

  function EncodeSpecs(fs: seq<FieldSpec>): bytes
    decreases |fs|
  {
    if fs == [] then [] else BE16(fs[0].elementId) + BE16(fs[0].length) + EncodeSpecs(fs[1..])
  }

  predicate NoEnterprise(fs: seq<FieldSpec>)
    decreases |fs|
  {
    fs != [] ==> fs[0].enterpriseNo == 0 && NoEnterprise(fs[1..])
  }

  predicate CanSend(t: Template) {
    && t.id >= 256
    && 1 <= t.fieldCount == |t.fields|
    && t.scopeFieldCount == 0 && t.scopeFields == []
    && NoEnterprise(t.fields)
  }

  predicate AllCanSend(ts: seq<Template>)
    decreases |ts|
  {
    ts != [] ==> CanSend(ts[0]) && AllCanSend(ts[1..])
  }

  function EncodeRecord(t: Template): bytes {
    BE16(t.id) + BE16(t.fieldCount) + EncodeSpecs(t.fields)
  }

  function EncodeRecords(ts: seq<Template>): bytes
    decreases |ts|
  {
    if ts == [] then [] else EncodeRecord(ts[0]) + EncodeRecords(ts[1..])
  }

  /** An options template record: the lengths count bytes of specifiers. */
  function EncodeOptionsRecord(t: Template): bytes {
    BE16(t.id) + (BE16(Wrap16(4 * |t.scopeFields|)) + (BE16(Wrap16(4 * |t.fields|)) + (EncodeSpecs(t.scopeFields) + EncodeSpecs(t.fields))))
  }

  predicate CanSendOptions(t: Template) {
    && 4 * |t.scopeFields| < 0x1_0000 && 4 * |t.fields| < 0x1_0000
    && NoEnterprise(t.scopeFields) && NoEnterprise(t.fields)
  }

  function EncodeOptionsRecords(ts: seq<Template>): bytes
    decreases |ts|
  {
    if ts == [] then [] else EncodeOptionsRecord(ts[0]) + EncodeOptionsRecords(ts[1..])
  }

  predicate AllCanSendOptions(ts: seq<Template>)
    decreases |ts|
  {
    ts != [] ==> CanSendOptions(ts[0]) && AllCanSendOptions(ts[1..])
  }

  /** What the collector keeps of an options template: no counts, and the last of its
      scope specifiers. */
  function KeptOptions(t: Template): Template {
    var n := |t.scopeFields|;
    Template(t.id, 0, t.fields, 0, if n == 0 then [] else [t.scopeFields[n - 1]])
  }

  function AllKeptOptions(ts: seq<Template>): seq<Template>
    decreases |ts|
  {
    if ts == [] then [] else [KeptOptions(ts[0])] + AllKeptOptions(ts[1..])
  }

  datatype FlowSet =
    | TemplateFlowSet(templates: seq<Template>, padding: nat)
    | OptionsFlowSet(options: seq<Template>, padding: nat)
    | DataFlowSet(id: uint16, rows: seq<Octets>, padding: nat)

  function FlowSetId(s: FlowSet): uint16 {
    match s
    case TemplateFlowSet(_, _) => 0
    case OptionsFlowSet(_, _) => 1
    case DataFlowSet(id, _, _) => id
  }

  function Payload(s: FlowSet): bytes {
    match s
    case TemplateFlowSet(ts, _) => EncodeRecords(ts)
    case OptionsFlowSet(ts, _) => EncodeOptionsRecords(ts)
    case DataFlowSet(_, rows, _) => EncodeRows(rows)
  }

  function FlowSetLength(s: FlowSet): nat {
    4 + |Payload(s)| + s.padding
  }

  function EncodeFlowSet(s: FlowSet): bytes {
    BE16(FlowSetId(s)) + BE16(Wrap16(FlowSetLength(s))) + (Payload(s) + Zeros(s.padding))
  }

  predicate CanSendSet(s: FlowSet, c: Templates, info: Elements) {
    && FlowSetLength(s) <= 0xffff
    && match s
       case TemplateFlowSet(ts, _) => AllCanSend(ts)
       case OptionsFlowSet(ts, _) => AllCanSendOptions(ts)
       case DataFlowSet(id, rows, _) => id in c && 256 <= id && FitsTemplate(rows, c[id], info)
  }

  /** The record loop can tell the records from the padding: it looks for another
      record exactly while more than four bytes are left. */
  predicate Separable(s: FlowSet) {
    && s.padding <= 4
    && (s.DataFlowSet? && s.rows != [] ==> |EncodeRow(s.rows[0])| + s.padding > 4)
  }

  function Taught(s: FlowSet): seq<Template> {
    match s
    case TemplateFlowSet(ts, _) => ts
    case OptionsFlowSet(ts, _) => AllKeptOptions(ts)
    case DataFlowSet(_, _, _) => []
  }

  function ShownFlowSet(s: FlowSet, c: Templates, info: Elements): seq<Record> {
    if s.DataFlowSet? && s.id in c then ShownRows(c[s.id], info, s.rows) else []
  }

  // ---------- Template records

  ghost predicate SpecsReadAs(fs: seq<FieldSpec>, b: bytes, p: nat, q: nat)
    requires p <= |b|
    decreases |fs|
  {
    if fs == [] then p == q
    else
      var r := ReadSpec(b, p);
      r.Got? && r.value == fs[0] && SpecsReadAs(fs[1..], b, r.pos, q)
  }

  lemma {:induction false} SpecsAt(fs: seq<FieldSpec>, b: bytes, p: nat)
    requires NoEnterprise(fs) && At(b, p, EncodeSpecs(fs))
    ensures SpecsReadAs(fs, b, p, p + |EncodeSpecs(fs)|)
    decreases |fs|
  {
    hide U16, BE16, At;
    if fs != [] {
      var f := fs[0];
      AtSplit(b, p, BE16(f.elementId) + BE16(f.length), EncodeSpecs(fs[1..]));
      AtSplit(b, p, BE16(f.elementId), BE16(f.length));
      At16(b, p, f.elementId);
      At16(b, p + 2, f.length);
      AtFits(b, p, BE16(f.elementId) + BE16(f.length));
      SpecsAt(fs[1..], b, p + 4);
    }
  }

  lemma AtFits(b: bytes, p: nat, s: bytes)
    requires At(b, p, s)
    ensures p + |s| <= |b|
  {
  }

  lemma {:induction false} SpecsRead(fs: seq<FieldSpec>, b: bytes, p: nat, q: nat)
    requires p <= |b| && SpecsReadAs(fs, b, p, q)
    ensures ReadSpecs(|fs|, b, p) == Got(fs, q)
    decreases |fs|
  {
    hide ReadSpec;
    if fs != [] {
      SpecsRead(fs[1..], b, ReadSpec(b, p).pos, q);
      assert [fs[0]] + fs[1..] == fs;
    }
  }

  lemma RecordTemplateRoundTrip(t: Template, b: bytes, p: nat)
    requires CanSend(t) && At(b, p, EncodeRecord(t))
    ensures ReadRecord(b, p) == Got(t, p + |EncodeRecord(t)|)
  {
    hide ReadSpecs, EncodeSpecs, At, NoEnterprise, SpecsReadAs;
    AtFits(b, p, EncodeRecord(t));
    AtSplit(b, p, BE16(t.id) + BE16(t.fieldCount), EncodeSpecs(t.fields));
    AtSplit(b, p, BE16(t.id), BE16(t.fieldCount));
    At16(b, p, t.id);
    At16(b, p + 2, t.fieldCount);
    SpecsAt(t.fields, b, p + 4);
    SpecsRead(t.fields, b, p + 4, p + |EncodeRecord(t)|);
  }

  /** An options template is read with the last of its scope specifiers only and without
      counts. */
  lemma OptionsRecordRead(t: Template, b: bytes, p: nat)
    requires CanSendOptions(t) && At(b, p, EncodeOptionsRecord(t))
    ensures ReadOptions(b, p) == Got(KeptOptions(t), p + |EncodeOptionsRecord(t)|)
    ensures |EncodeOptionsRecord(t)| >= 6
  {
    hide BE16, U16, At, EncodeSpecs, ReadSpecs, NoEnterprise, SpecsReadAs;
    var scope, fields := EncodeSpecs(t.scopeFields), EncodeSpecs(t.fields);
    Number(b, p, t.id, BE16(4 * |t.scopeFields|) + (BE16(4 * |t.fields|) + (scope + fields)));
    Number(b, p + 2, 4 * |t.scopeFields|, BE16(4 * |t.fields|) + (scope + fields));
    Number(b, p + 4, 4 * |t.fields|, scope + fields);
    AtSplit(b, p + 6, scope, fields);
    SpecsAt(t.scopeFields, b, p + 6);
    SpecsRead(t.scopeFields, b, p + 6, p + 6 + |scope|);
    SpecsAt(t.fields, b, p + 6 + |scope|);
    SpecsRead(t.fields, b, p + 6 + |scope|, p + |EncodeOptionsRecord(t)|);
  }

  lemma TemplateExtent(t: Template)
    requires CanSend(t)
    ensures |EncodeRecord(t)| >= 8
  {
  }

  /** In a FlowSet with the given id, the templates ts are read one after the other from
      p to q. */
  ghost predicate RecordsReadAs(id: uint16, ts: seq<Template>, b: bytes, p: nat, q: nat)
    decreases |ts|
  {
    if ts == [] then p == q
    else
      && p + 6 <= q <= |b|
      && var r := ReadAnyRecord(id, b, p);
         r.Got? && r.value == ts[0] && p + 6 <= r.pos && RecordsReadAs(id, ts[1..], b, r.pos, q)
  }

  lemma {:induction false} RecordsAt(ts: seq<Template>, b: bytes, p: nat)
    requires AllCanSend(ts) && At(b, p, EncodeRecords(ts))
    ensures RecordsReadAs(0, ts, b, p, p + |EncodeRecords(ts)|)
    decreases |ts|
  {
    hide ReadRecord, ReadOptions, At, CanSend, EncodeRecord;
    if ts != [] {
      AtFits(b, p, EncodeRecords(ts));
      TemplateExtent(ts[0]);
      AtSplit(b, p, EncodeRecord(ts[0]), EncodeRecords(ts[1..]));
      RecordTemplateRoundTrip(ts[0], b, p);
      RecordsAt(ts[1..], b, p + |EncodeRecord(ts[0])|);
    }
  }

  lemma {:induction false} OptionsRecordsAt(ts: seq<Template>, b: bytes, p: nat)
    requires AllCanSendOptions(ts) && At(b, p, EncodeOptionsRecords(ts))
    ensures RecordsReadAs(1, AllKeptOptions(ts), b, p, p + |EncodeOptionsRecords(ts)|)
    decreases |ts|
  {
    hide ReadRecord, ReadOptions, At, CanSendOptions, EncodeOptionsRecord, KeptOptions;
    if ts != [] {
      AtFits(b, p, EncodeOptionsRecords(ts));
      AtSplit(b, p, EncodeOptionsRecord(ts[0]), EncodeOptionsRecords(ts[1..]));
      OptionsRecordRead(ts[0], b, p);
      OptionsRecordsAt(ts[1..], b, p + |EncodeOptionsRecord(ts[0])|);
      assert AllKeptOptions(ts)[1..] == AllKeptOptions(ts[1..]);
    }
  }

  lemma {:induction false} RecordsReadAsOrder(id: uint16, ts: seq<Template>, b: bytes, p: nat, q: nat)
    requires RecordsReadAs(id, ts, b, p, q)
    ensures p <= q && (ts != [] ==> p + 6 <= q)
    decreases |ts|
  {
    hide ReadAnyRecord;
    if ts != [] {
      RecordsReadAsOrder(id, ts[1..], b, ReadAnyRecord(id, b, p).pos, q);
    }
  }

  /** The record loop comes to the end of the templates with all of them read. */
  lemma {:induction false} TemplatesLoop(id: uint16, ts: seq<Template>, length: uint16, start: nat, info: Elements,
                                         b: bytes, p: nat, q: nat)
    requires id <= 1 && start <= p && RecordsReadAs(id, ts, b, p, q) && q <= start + length && q <= |b|
    ensures p <= q
    ensures FlowSetBody(id, length, start, NO_TEMPLATE, info, b, p)
         == FlowSetBody(id, length, start, NO_TEMPLATE, info, b, q).After(ts, [])
    decreases |ts|
  {
    hide ReadAnyRecord;
    RecordsReadAsOrder(id, ts, b, p, q);
    if ts == [] {
      NoneBefore(FlowSetBody(id, length, start, NO_TEMPLATE, info, b, q));
    } else {
      var r := ReadAnyRecord(id, b, p);
      RecordsReadAsOrder(id, ts[1..], b, r.pos, q);
      TemplatesLoop(id, ts[1..], length, start, info, b, r.pos, q);
      OneBefore(FlowSetBody(id, length, start, NO_TEMPLATE, info, b, q), ts, []);
    }
  }

  /** At the padding the loop ends, or takes the zeros for a template, or fails. */
  lemma TemplatePadding(id: uint16, length: uint16, start: nat, info: Elements, b: bytes, q: nat, padding: nat)
    requires id <= 1 && start <= q && q + padding == start + length <= |b|
    ensures var s := FlowSetBody(id, length, start, NO_TEMPLATE, info, b, q);
            if padding <= 4 then s == Quiet(q) else s.learned != [] || s.error != None
  {
    hide ReadAnyRecord;
  }

  // ---------- Data records

  lemma {:induction false} RowsLoop(rows: seq<Octets>, id: uint16, t: Template, length: uint16, start: nat, info: Elements, b: bytes, p: nat, q: nat)
    requires IsData(id) && start <= p <= q <= start + length && q <= |b|
    requires RowsReadAs(rows, t, info, b, p, q)
    requires rows != [] ==> RecordLength(t) + (start + length - q) > 4 && RecordLength(t) + (|b| - q) > 4
    ensures FlowSetBody(id, length, start, t, info, b, p)
         == FlowSetBody(id, length, start, t, info, b, q).After([], ShownRows(t, info, rows))
    decreases |rows|
  {
    hide DecodeRecord, Shown, RecordLength;
    if rows == [] {
      NoneBefore(FlowSetBody(id, length, start, t, info, b, q));
    } else {
      RowsLoop(rows[1..], id, t, length, start, info, b, p + RecordLength(t), q);
      var shown := ShownRows(t, info, rows);
      assert shown[1..] == ShownRows(t, info, rows[1..]);
      OneBefore(FlowSetBody(id, length, start, t, info, b, q), [], shown);
    }
  }

  /** Records of which the last fits into four bytes with the padding: it is lost. */
  lemma {:induction false} RowsLoopShort(rows: seq<Octets>, id: uint16, t: Template, length: uint16, start: nat, info: Elements, b: bytes, p: nat, q: nat)
    requires IsData(id) && start <= p <= q <= start + length <= |b|
    requires rows != [] && RowsReadAs(rows, t, info, b, p, q)
    requires RecordLength(t) + (start + length - q) <= 4
    ensures |FlowSetBody(id, length, start, t, info, b, p).records| < |rows|
    decreases |rows|
  {
    hide DecodeRecord, Shown, RecordLength;
    if MoreRecords(length, start, b, p) && |rows| > 1 {
      RowsLoopShort(rows[1..], id, t, length, start, info, b, p + RecordLength(t), q);
    }
  }

  /** At more than four bytes of padding the loop reads a record or reports an error. */
  lemma DataPadding(id: uint16, t: Template, length: uint16, start: nat, info: Elements, b: bytes, q: nat)
    requires IsData(id) && start <= q <= start + length <= |b|
    requires AllKnown(t, info) && RecordLength(t) > 0
    ensures var s := FlowSetBody(id, length, start, t, info, b, q);
            if start + length - q <= 4 then s == Quiet(q) else s.records != [] || s.error != None
  {
    hide DecodeRecord, AllKnown, RecordLength;
    RecordTakes(t, info, b, q);
  }

  // ---------- FlowSets

  lemma AtFlowSet(s: FlowSet, b: bytes, p: nat)
    requires FlowSetLength(s) <= 0xffff && At(b, p, EncodeFlowSet(s))
    ensures |EncodeFlowSet(s)| == FlowSetLength(s) && p + FlowSetLength(s) <= |b|
    ensures U16(b, p) == FlowSetId(s) && U16(b, p + 2) == FlowSetLength(s)
    ensures At(b, p + 4, Payload(s))
  {
    hide Payload, Zeros, At;
    var body := Payload(s) + Zeros(s.padding);
    AtFits(b, p, EncodeFlowSet(s));
    AtSplit(b, p, BE16(FlowSetId(s)) + BE16(FlowSetLength(s)), body);
    AtSplit(b, p, BE16(FlowSetId(s)), BE16(FlowSetLength(s)));
    At16(b, p, FlowSetId(s));
    At16(b, p + 2, FlowSetLength(s));
    AtSplit(b, p + 4, Payload(s), Zeros(s.padding));
  }

  /** The templates of a FlowSet lie where the loop looks for them. */
  lemma TaughtAt(s: FlowSet, b: bytes, p: nat)
    requires !s.DataFlowSet? && At(b, p, Payload(s))
    requires if s.TemplateFlowSet? then AllCanSend(s.templates) else AllCanSendOptions(s.options)
    ensures FlowSetId(s) <= 1 && RecordsReadAs(FlowSetId(s), Taught(s), b, p, p + |Payload(s)|)
  {
    hide EncodeRecords, EncodeOptionsRecords, AllCanSend, AllCanSendOptions, RecordsReadAs, AllKeptOptions;
    if s.TemplateFlowSet? {
      RecordsAt(s.templates, b, p);
    } else {
      OptionsRecordsAt(s.options, b, p);
    }
  }

  lemma TemplateFlowSetBody(s: FlowSet, info: Elements, b: bytes, p: nat)
    requires !s.DataFlowSet? && FlowSetLength(s) <= 0xffff && p + FlowSetLength(s) <= |b| && At(b, p + 4, Payload(s))
    requires if s.TemplateFlowSet? then AllCanSend(s.templates) else AllCanSendOptions(s.options)
    ensures var r := FlowSetBody(FlowSetId(s), FlowSetLength(s), p, NO_TEMPLATE, info, b, p + 4);
            if s.padding <= 4 then r == SetResult(p + 4 + |Payload(s)|, Taught(s), [], None, false)
            else |r.learned| > |Taught(s)| || r.error != None
  {
    hide Payload, At, AllCanSend, AllCanSendOptions, FlowSetBody, RecordsReadAs, Taught, FlowSetId;
    var q := p + 4 + |Payload(s)|;
    TaughtAt(s, b, p + 4);
    TemplatesLoop(FlowSetId(s), Taught(s), FlowSetLength(s), p, info, b, p + 4, q);
    TemplatePadding(FlowSetId(s), FlowSetLength(s), p, info, b, q, s.padding);
    assert Taught(s) + [] == Taught(s);
  }

  lemma DataFlowSetBody(rows: seq<Octets>, padding: nat, id: uint16, t: Template, length: uint16, info: Elements, b: bytes, p: nat)
    requires IsData(id) && FitsTemplate(rows, t, info) && length == 4 + |EncodeRows(rows)| + padding && p + length <= |b|
    requires At(b, p + 4, EncodeRows(rows))
    ensures var s := FlowSetBody(id, length, p, t, info, b, p + 4);
            if padding <= 4 && (rows != [] ==> |EncodeRow(rows[0])| + padding > 4)
            then s == SetResult(p + 4 + |EncodeRows(rows)|, [], ShownRows(t, info, rows), None, false)
            else |s.records| != |rows| || s.error != None
  {
    hide DecodeRecord, Shown, EncodeRow, FlowSetBody, RowsReadAs, AllKnown, Fills, ShownRows, At, Quiet, EncodeRows;
    RowsAt(rows, t, info, b, p + 4);
    if rows != [] {
      RecordExtent(rows[0], t);
    }
    DataPart(rows, padding, id, t, length, info, b, p);
  }

  lemma DataPart(rows: seq<Octets>, padding: nat, id: uint16, t: Template, length: uint16, info: Elements, b: bytes, p: nat)
    requires IsData(id) && AllKnown(t, info) && RecordLength(t) > 0
    requires length == 4 + |EncodeRows(rows)| + padding && p + length <= |b|
    requires RowsReadAs(rows, t, info, b, p + 4, p + 4 + |EncodeRows(rows)|)
    ensures var s := FlowSetBody(id, length, p, t, info, b, p + 4);
            if padding <= 4 && (rows != [] ==> RecordLength(t) + padding > 4)
            then s == SetResult(p + 4 + |EncodeRows(rows)|, [], ShownRows(t, info, rows), None, false)
            else |s.records| != |rows| || s.error != None
  {
    hide FlowSetBody, RowsReadAs, ShownRows, EncodeRows, AllKnown;
    var q := p + 4 + |EncodeRows(rows)|;
    if rows != [] && RecordLength(t) + padding <= 4 {
      RowsLoopShort(rows, id, t, length, p, info, b, p + 4, q);
    } else {
      RowsLoop(rows, id, t, length, p, info, b, p + 4, q);
      DataPadding(id, t, length, p, info, b, q);
      ShownRowsLength(t, info, rows);
      assert ShownRows(t, info, rows) + [] == ShownRows(t, info, rows);
    }
  }

  /** One FlowSet is decoded to exactly its templates and records, without error, if
      and only if its records and its padding can be told apart. */
  lemma FlowSetRoundTripIff(s: FlowSet, c: Templates, info: Elements, b: bytes, p: nat)
    requires CanSendSet(s, c, info) && At(b, p, EncodeFlowSet(s))
    ensures p <= |b| && p + |EncodeFlowSet(s)| <= |b|
    ensures DecodeFlowSet(c, info, b, p)
         == SetResult(p + |EncodeFlowSet(s)|, Taught(s), ShownFlowSet(s, c, info), None, false)
       <==> Separable(s)
  {
    hide At, EncodeFlowSet, EncodeRecords, EncodeOptionsRecords, AllCanSendOptions, AllKeptOptions, EncodeRows, EncodeRow, AllCanSend, FitsTemplate, FlowSetBody, ShownRows, U16, Zeros;
    AtFlowSet(s, b, p);
    if !s.DataFlowSet? {
      TemplateFlowSetBody(s, info, b, p);
    } else {
      DataFlowSetBody(s.rows, s.padding, s.id, c[s.id], FlowSetLength(s), info, b, p);
      ShownRowsLength(c[s.id], info, s.rows);
    }
  }

  // ---------- Packets

  predicate CanSendAll(ss: seq<FlowSet>, c: Templates, info: Elements)
    decreases |ss|
  {
    ss != [] ==> CanSendSet(ss[0], c, info) && CanSendAll(ss[1..], InsertAll(c, Taught(ss[0])), info)
  }

  predicate AllSeparable(ss: seq<FlowSet>)
    decreases |ss|
  {
    ss != [] ==> Separable(ss[0]) && AllSeparable(ss[1..])
  }

  function EncodeFlowSets(ss: seq<FlowSet>): bytes
    decreases |ss|
  {
    if ss == [] then [] else EncodeFlowSet(ss[0]) + EncodeFlowSets(ss[1..])
  }

  function TaughtAll(ss: seq<FlowSet>): seq<Template>
    decreases |ss|
  {
    if ss == [] then [] else Taught(ss[0]) + TaughtAll(ss[1..])
  }

  /** The records of a packet, each with the header of its FlowSet. */
  function ShownFlowSets(ss: seq<FlowSet>, c: Templates, info: Elements): seq<Tagged>
    decreases |ss|
  {
    if ss == [] then []
    else
      var h := SetHeader(FlowSetId(ss[0]), Wrap16(FlowSetLength(ss[0])));
      Tag(h, ShownFlowSet(ss[0], c, info)) + ShownFlowSets(ss[1..], InsertAll(c, Taught(ss[0])), info)
  }

  function EncodePacketHeader(h: PacketHeader): (e: bytes)
    ensures |e| == 20
  {
    BE16(h.version) + BE16(h.count) + BE32(h.sysUpTime) + BE32(h.unixSecs) + BE32(h.seqNum) + BE32(h.srcId)
  }

  lemma PacketHeaderRoundTrip(h: PacketHeader, b: bytes)
    requires At(b, 0, EncodePacketHeader(h))
    ensures |b| >= 20 && ReadPacketHeader(b) == h
  {
    hide BE16, BE32, U16, U32, At;
    var v, n, u, x, s, d := BE16(h.version), BE16(h.count), BE32(h.sysUpTime), BE32(h.unixSecs), BE32(h.seqNum), BE32(h.srcId);
    AtFits(b, 0, EncodePacketHeader(h));
    AtSplit(b, 0, v + n + u + x + s, d);
    AtSplit(b, 0, v + n + u + x, s);
    AtSplit(b, 0, v + n + u, x);
    AtSplit(b, 0, v + n, u);
    AtSplit(b, 0, v, n);
    At16(b, 0, h.version);
    At16(b, 2, h.count);
    At32(b, 4, h.sysUpTime);
    At32(b, 8, h.unixSecs);
    At32(b, 12, h.seqNum);
    At32(b, 16, h.srcId);
  }

  /** A set without contents, which Decode may leave unread, holds nothing. */
  lemma EmptyFlowSet(s: FlowSet, c: Templates, info: Elements)
    requires CanSendSet(s, c, info) && FlowSetLength(s) == 4
    ensures Taught(s) == [] && ShownFlowSet(s, c, info) == []
  {
    if s.DataFlowSet? && s.rows != [] {
      RecordExtent(s.rows[0], c[s.id]);
    }
  }

  lemma FlowSetStep(rule: StopRule, s: FlowSet, c: Templates, info: Elements, b: bytes, p: nat)
    requires CanSendSet(s, c, info) && Separable(s) && At(b, p, EncodeFlowSet(s))
    ensures p <= |b| && p + |EncodeFlowSet(s)| <= |b|
    ensures DecodeFlowSets(rule, c, info, b, p)
         == DecodeFlowSets(rule, InsertAll(c, Taught(s)), info, b, p + |EncodeFlowSet(s)|)
              .After(SetHeader(FlowSetId(s), Wrap16(FlowSetLength(s))),
                     SetResult(p + |EncodeFlowSet(s)|, Taught(s), ShownFlowSet(s, c, info), None, false))
  {
    hide CanSendSet, Separable, At, EncodeFlowSet, InsertAll, DecodeFlowSet, Taught, ShownFlowSet, U16;
    FlowSetRoundTripIff(s, c, info, b, p);
    LengthOf(s, c, info);
    AtFlowSet(s, b, p);
    if |b| - p <= 4 {
      EmptyFlowSet(s, c, info);
      NoInserts(c);
    }
  }

  lemma LengthOf(s: FlowSet, c: Templates, info: Elements)
    requires CanSendSet(s, c, info)
    ensures FlowSetLength(s) <= 0xffff
  {
  }

  /** A run with the templates and records of earlier FlowSets before it. */
  function FlowPreceded(r: FlowRun, ts: seq<Template>, rs: seq<Tagged>): FlowRun {
    r.(learned := ts + r.learned, records := rs + r.records)
  }

  lemma FlowAssociate(r: FlowRun, ts: seq<Template>, us: seq<Template>, rs: seq<Tagged>, qs: seq<Tagged>)
    ensures FlowPreceded(FlowPreceded(r, us, qs), ts, rs) == FlowPreceded(r, ts + us, rs + qs)
    ensures FlowPreceded(r, [], []) == r
  {
    assert ts + (us + r.learned) == ts + us + r.learned;
    assert rs + (qs + r.records) == rs + qs + r.records;
  }

  lemma AfterQuiet(r: FlowRun, h: SetHeader, q: nat, ts: seq<Template>, rs: seq<Record>)
    ensures r.After(h, SetResult(q, ts, rs, None, false)) == FlowPreceded(r, ts, Tag(h, rs))
  {
  }

  /** FlowSets whose records can be told from their padding are decoded, whatever comes
      after them. */
  lemma {:induction false} FlowSetsBefore(rule: StopRule, ss: seq<FlowSet>, c: Templates, info: Elements, b: bytes, p: nat)
    requires CanSendAll(ss, c, info) && AllSeparable(ss) && At(b, p, EncodeFlowSets(ss))
    ensures p + |EncodeFlowSets(ss)| <= |b|
    ensures DecodeFlowSets(rule, c, info, b, p)
         == FlowPreceded(DecodeFlowSets(rule, InsertAll(c, TaughtAll(ss)), info, b, p + |EncodeFlowSets(ss)|),
                         TaughtAll(ss), ShownFlowSets(ss, c, info))
    decreases |ss|
  {
    hide CanSendSet, Separable, At, EncodeFlowSet, InsertAll, DecodeFlowSets, Taught, ShownFlowSet, Tag, FlowSetId, FlowSetLength, Wrap16, FlowPreceded;
    AtFits(b, p, EncodeFlowSets(ss));
    if ss == [] {
      NoInserts(c);
      FlowAssociate(DecodeFlowSets(rule, c, info, b, p), [], [], [], []);
    } else {
      var s, c' := ss[0], InsertAll(c, Taught(ss[0]));
      var q := p + |EncodeFlowSet(s)|;
      var h, shown := SetHeader(FlowSetId(s), Wrap16(FlowSetLength(s))), ShownFlowSet(s, c, info);
      AtSplit(b, p, EncodeFlowSet(s), EncodeFlowSets(ss[1..]));
      FlowSetStep(rule, s, c, info, b, p);
      FlowSetsBefore(rule, ss[1..], c', info, b, q);
      InsertAllAppend(c, Taught(s), TaughtAll(ss[1..]));
      AfterQuiet(DecodeFlowSets(rule, c', info, b, q), h, q, Taught(s), shown);
      FlowAssociate(DecodeFlowSets(rule, InsertAll(c, TaughtAll(ss)), info, b, p + |EncodeFlowSets(ss)|),
                    Taught(s), TaughtAll(ss[1..]), Tag(h, shown), ShownFlowSets(ss[1..], c', info));
    }
  }

  lemma FlowSetsRoundTrip(rule: StopRule, ss: seq<FlowSet>, c: Templates, info: Elements, b: bytes, p: nat)
    requires CanSendAll(ss, c, info) && AllSeparable(ss) && At(b, p, EncodeFlowSets(ss)) && p + |EncodeFlowSets(ss)| == |b|
    ensures DecodeFlowSets(rule, c, info, b, p)
         == FlowRun(TaughtAll(ss), ShownFlowSets(ss, c, info), [], Finished)
  {
    hide CanSendAll, AllSeparable, At, EncodeFlowSets, InsertAll, DecodeFlowSets, TaughtAll, ShownFlowSets;
    FlowSetsBefore(rule, ss, c, info, b, p);
    NoFlowSets(rule, InsertAll(c, TaughtAll(ss)), info, b);
    assert TaughtAll(ss) + [] == TaughtAll(ss) && ShownFlowSets(ss, c, info) + [] == ShownFlowSets(ss, c, info);
  }

  lemma NoFlowSets(rule: StopRule, c: Templates, info: Elements, b: bytes)
    ensures DecodeFlowSets(rule, c, info, b, |b|) == FlowRun([], [], [], Finished)
  {
  }

  /** Decode returns the header and the records of a packet, in order, each with the
      header of its own FlowSet, and without error. */
  lemma PacketRoundTrip(rule: StopRule, h: PacketHeader, ss: seq<FlowSet>, c: Templates, info: Elements)
    requires h.version == 9 && CanSendAll(ss, c, info) && AllSeparable(ss)
    ensures DecodePacket(rule, c, info, EncodePacketHeader(h) + EncodeFlowSets(ss))
         == PacketOutcome.Decoded(h, FlowRun(TaughtAll(ss), ShownFlowSets(ss, c, info), [], Finished))
  {
    hide CanSendAll, AllSeparable, EncodeFlowSets, DecodeFlowSets, TaughtAll, ShownFlowSets, At, DecodePacket, EncodePacketHeader;
    AcceptedPacket(rule, h, EncodeFlowSets(ss), c, info);
    FlowSetsRoundTrip(rule, ss, c, info, EncodePacketHeader(h) + EncodeFlowSets(ss), 20);
  }

  lemma AcceptedPacket(rule: StopRule, h: PacketHeader, body: bytes, c: Templates, info: Elements)
    requires h.version == 9
    ensures var b := EncodePacketHeader(h) + body;
            && At(b, 20, body)
            && DecodePacket(rule, c, info, b) == PacketOutcome.Decoded(h, DecodeFlowSets(rule, c, info, b, 20))
  {
    hide ReadPacketHeader, DecodeFlowSets;
    var b := EncodePacketHeader(h) + body;
    AtPart(b, 0, [], EncodePacketHeader(h), body);
    AtPart(b, 20, EncodePacketHeader(h), body, []);
    hide EncodePacketHeader, At;
    PacketHeaderRoundTrip(h, b);
  }

  // ---------- FlowSet by FlowSet

  /** What the calls of decodeSet in Decode return, one after the other. */
  function FlowCalls(rule: StopRule, c: Templates, info: Elements, b: bytes, p: nat): seq<SetResult>
    requires p <= |b|
    decreases |b| - p
  {
    if |b| - p <= 4 then []
    else
      var s := DecodeFlowSet(c, info, b, p);
      [s] + if s.stuck || Stops(rule, s) then [] else FlowCalls(rule, InsertAll(c, s.learned), info, b, s.pos)
  }

  function Untagged(ts: seq<Tagged>): seq<Record>
    decreases |ts|
  {
    if ts == [] then [] else [ts[0].record] + Untagged(ts[1..])
  }

  lemma {:induction false} UntaggedSplit(h: SetHeader, rs: seq<Record>, ts: seq<Tagged>)
    ensures Untagged(Tag(h, rs) + ts) == rs + Untagged(ts)
    decreases |rs|
  {
    var all := Tag(h, rs) + ts;
    if rs == [] {
      assert all == ts;
    } else {
      assert all[0] == Tagged(h, rs[0]) && all[1..] == Tag(h, rs[1..]) + ts;
      UntaggedSplit(h, rs[1..], ts);
      assert [rs[0]] + (rs[1..] + Untagged(ts)) == rs + Untagged(ts);
    }
  }

  /** The calls make up the run. */
  lemma {:induction false} FlowCallsMakeRun(rule: StopRule, c: Templates, info: Elements, b: bytes, p: nat)
    requires p <= |b|
    ensures var r, calls := DecodeFlowSets(rule, c, info, b, p), FlowCalls(rule, c, info, b, p);
            Untagged(r.records) == IpfixMessage.AllRecords(calls) && r.learned == IpfixMessage.AllLearned(calls)
    decreases |b| - p
  {
    hide DecodeFlowSet, InsertAll, Fatal, HeaderAt, Tag, Untagged;
    NothingTagged();
    if |b| - p > 4 {
      var s := DecodeFlowSet(c, info, b, p);
      if s.stuck || Stops(rule, s) {
        UntaggedSplit(HeaderAt(b, p), s.records, []);
        assert [s][1..] == [];
      } else {
        var c' := InsertAll(c, s.learned);
        var rest := FlowCalls(rule, c', info, b, s.pos);
        FlowCallsMakeRun(rule, c', info, b, s.pos);
        UntaggedSplit(HeaderAt(b, p), s.records, DecodeFlowSets(rule, c', info, b, s.pos).records);
        assert ([s] + rest)[1..] == rest;
      }
    }
  }

  lemma NothingTagged()
    ensures Untagged([]) == []
  {
  }

  /** What each FlowSet of a packet should be decoded to. A final one without contents is
      part of the tail that Decode ignores. */
  function OwnFlowResults(ss: seq<FlowSet>, c: Templates, info: Elements, p: nat): seq<SetResult>
    decreases |ss|
  {
    if |EncodeFlowSets(ss)| <= 4 then []
    else
      var s, q := ss[0], p + |EncodeFlowSet(ss[0])|;
      [SetResult(q, Taught(s), ShownFlowSet(s, c, info), None, false)]
      + OwnFlowResults(ss[1..], InsertAll(c, Taught(s)), info, q)
  }

  lemma FlowSetSize(s: FlowSet)
    ensures |EncodeFlowSet(s)| >= 4
  {
  }

  lemma {:induction false} FlowSizeAtLeast(ss: seq<FlowSet>)
    ensures |EncodeFlowSets(ss)| >= 4 * |ss|
    decreases |ss|
  {
    hide EncodeFlowSet;
    if ss != [] {
      FlowSetSize(ss[0]);
      FlowSizeAtLeast(ss[1..]);
    }
  }

  lemma EmptyIsSeparable(s: FlowSet, c: Templates, info: Elements)
    requires CanSendSet(s, c, info) && |EncodeFlowSet(s)| == 4
    ensures Separable(s)
  {
    if s.DataFlowSet? && s.rows != [] {
      RecordExtent(s.rows[0], c[s.id]);
    }
  }

  lemma TailSeparable(ss: seq<FlowSet>, c: Templates, info: Elements)
    requires CanSendAll(ss, c, info) && |EncodeFlowSets(ss)| <= 4
    ensures AllSeparable(ss)
  {
    hide CanSendSet, EncodeFlowSet, Separable, InsertAll;
    FlowSizeAtLeast(ss);
    if ss != [] {
      FlowSetSize(ss[0]);
      assert ss[1..] == [];
      EmptyIsSeparable(ss[0], c, info);
    }
  }

  lemma FlowHeadAndTail(rule: StopRule, c: Templates, info: Elements, b: bytes, p: nat, own: SetResult, rest: seq<SetResult>)
    requires p <= |b| && |b| - p > 4 && own.pos <= |b| && own.error == None && !own.stuck
    ensures FlowCalls(rule, c, info, b, p) == [own] + rest
       <==> DecodeFlowSet(c, info, b, p) == own && FlowCalls(rule, InsertAll(c, own.learned), info, b, own.pos) == rest
  {
    hide DecodeFlowSet, InsertAll;
    var all := FlowCalls(rule, c, info, b, p);
    assert all[0] == DecodeFlowSet(c, info, b, p) && ([own] + rest)[0] == own && ([own] + rest)[1..] == rest;
    if DecodeFlowSet(c, info, b, p) == own {
      assert all[1..] == FlowCalls(rule, InsertAll(c, own.learned), info, b, own.pos);
    }
  }

  lemma {:induction false} FlowSetByFlowSetIff(rule: StopRule, ss: seq<FlowSet>, c: Templates, info: Elements, b: bytes, p: nat)
    requires CanSendAll(ss, c, info) && At(b, p, EncodeFlowSets(ss)) && p + |EncodeFlowSets(ss)| == |b|
    ensures FlowCalls(rule, c, info, b, p) == OwnFlowResults(ss, c, info, p) <==> AllSeparable(ss)
    decreases |ss|
  {
    hide CanSendSet, EncodeFlowSet, Separable, InsertAll, DecodeFlowSet, At, Taught, ShownFlowSet;
    if |EncodeFlowSets(ss)| <= 4 {
      TailSeparable(ss, c, info);
    } else {
      var s := ss[0];
      var q, c' := p + |EncodeFlowSet(s)|, InsertAll(c, Taught(s));
      AtSplit(b, p, EncodeFlowSet(s), EncodeFlowSets(ss[1..]));
      FlowSetRoundTripIff(s, c, info, b, p);
      FlowSetByFlowSetIff(rule, ss[1..], c', info, b, q);
      FlowHeadAndTail(rule, c, info, b, p,
                      SetResult(q, Taught(s), ShownFlowSet(s, c, info), None, false), OwnFlowResults(ss[1..], c', info, q));
    }
  }

  /** In a packet of any FlowSets with any padding, every FlowSet is decoded to exactly
      its own templates and records if and only if the records and the padding of each
      can be told apart; the packet as a whole then gives its records in order. */
  lemma PacketRoundTripIff(rule: StopRule, h: PacketHeader, ss: seq<FlowSet>, c: Templates, info: Elements)
    requires h.version == 9 && CanSendAll(ss, c, info)
    ensures var b := EncodePacketHeader(h) + EncodeFlowSets(ss);
            && DecodePacket(rule, c, info, b) == PacketOutcome.Decoded(h, DecodeFlowSets(rule, c, info, b, 20))
            && (FlowCalls(rule, c, info, b, 20) == OwnFlowResults(ss, c, info, 20) <==> AllSeparable(ss))
            && (AllSeparable(ss) ==>
                  DecodeFlowSets(rule, c, info, b, 20) == FlowRun(TaughtAll(ss), ShownFlowSets(ss, c, info), [], Finished))
  {
    hide CanSendAll, AllSeparable, EncodeFlowSets, DecodeFlowSets, TaughtAll, ShownFlowSets, At, DecodePacket, EncodePacketHeader, FlowCalls, OwnFlowResults;
    var b := EncodePacketHeader(h) + EncodeFlowSets(ss);
    AcceptedPacket(rule, h, EncodeFlowSets(ss), c, info);
    FlowSetByFlowSetIff(rule, ss, c, info, b, 20);
    if AllSeparable(ss) {
      FlowSetsRoundTrip(rule, ss, c, info, b, 20);
    }
  }
}
