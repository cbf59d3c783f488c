/** The exporter's side of IPFIX: the encodings of sections 3.1 to 3.4 of RFC 7011,
    and what a collector should make of them. */
module IpfixExport {
  import opened Bytes
  import opened InfoModel
  import opened Ipfix
  import opened IpfixFraming

  // ---------- Template records (section 3.4.1, section 3.2)

  /** Element ids have 15 bits; the top bit says that an enterprise number follows. */
  function EncodeField(f: FieldSpec): bytes {
    if f.enterpriseNo == 0 then BE16(f.elementId) + BE16(f.length)
    else BE16(if f.elementId < 0x8000 then f.elementId + 0x8000 else f.elementId) + BE16(f.length) + BE32(f.enterpriseNo)
  }

  predicate Encodable(f: FieldSpec) {
    f.elementId < 0x8000
  }

  /** The enterprise elements with id 0 are left aside, see FieldRoundTripIff. */
  predicate Readable(f: FieldSpec) {
    f.enterpriseNo != 0 ==> f.elementId != 0
  }

  predicate AllReadable(fs: seq<FieldSpec>)
    decreases |fs|
  {
    fs != [] ==> Encodable(fs[0]) && Readable(fs[0]) && AllReadable(fs[1..])
  }

  function EncodeFields(fs: seq<FieldSpec>): bytes
    decreases |fs|
  {
    if fs == [] then [] else EncodeField(fs[0]) + EncodeFields(fs[1..])
  }

  function EncodeTemplate(t: Template): bytes {
    BE16(t.id) + BE16(t.fieldCount) + EncodeFields(t.fields)
  }

  function EncodeTemplates(ts: seq<Template>): bytes
    decreases |ts|
  {
    if ts == [] then [] else EncodeTemplate(ts[0]) + EncodeTemplates(ts[1..])
  }

  /** A template that can be exported: an id of 256 or more, no scope, at least one
      field. */
  predicate Exportable(t: Template) {
    && t.id >= 256
    && 1 <= t.fieldCount == |t.fields|
    && t.scopeFieldCount == 0 && t.scopeFields == []
    && AllReadable(t.fields)
  }

  predicate AllExportable(ts: seq<Template>)
    decreases |ts|
  {
    ts != [] ==> Exportable(ts[0]) && AllExportable(ts[1..])
  }

  /** An options template record (section 3.4.2.2): the scope specifiers come first. */
  function EncodeOptions(t: Template): bytes {
    BE16(t.id) + (BE16(t.fieldCount) + (BE16(t.scopeFieldCount) + (EncodeFields(t.scopeFields) + EncodeFields(t.fields))))
  }

  predicate ExportableOptions(t: Template) {
    && t.scopeFieldCount == |t.scopeFields| && t.fieldCount == |t.scopeFields| + |t.fields|
    && AllReadable(t.scopeFields) && AllReadable(t.fields)
  }

  function EncodeAllOptions(ts: seq<Template>): bytes
    decreases |ts|
  {
    if ts == [] then [] else EncodeOptions(ts[0]) + EncodeAllOptions(ts[1..])
  }

  predicate AllExportableOptions(ts: seq<Template>)
    decreases |ts|
  {
    ts != [] ==> ts[0].id >= 256 && ExportableOptions(ts[0]) && AllExportableOptions(ts[1..])
  }

  /** What the collector keeps of an options template: the last of its scope specifiers. */
  function Kept(t: Template): Template {
    var n := |t.scopeFields|;
    Template(t.id, t.fieldCount, t.fields, t.scopeFieldCount, if n == 0 then [] else [t.scopeFields[n - 1]])
  }

  function AllKept(ts: seq<Template>): seq<Template>
    decreases |ts|
  {
    if ts == [] then [] else [Kept(ts[0])] + AllKept(ts[1..])
  }

  // ---------- Data records (section 3.4.3)

  /** The octets of one record, field by field: the ordinary fields, and then the scope
      fields. (The standard has the scope fields first, see ScopeFirstIff.) */
  type Octets = seq<bytes>

  predicate Fills(row: Octets, fields: seq<FieldSpec>, scope: seq<FieldSpec>)
    decreases |row|
  {
    if row == [] then fields == [] && scope == []
    else if fields != [] then |row[0]| == fields[0].length && Fills(row[1..], fields[1..], scope)
    else scope != [] && |row[0]| == scope[0].length && Fills(row[1..], [], scope[1..])
  }

  predicate AllFill(rows: seq<Octets>, t: Template)
    decreases |rows|
  {
    rows != [] ==> Fills(rows[0], t.fields, t.scopeFields) && AllFill(rows[1..], t)
  }

  function EncodeRow(row: Octets): bytes
    decreases |row|
  {
    if row == [] then [] else row[0] + EncodeRow(row[1..])
  }

  function EncodeRows(rows: seq<Octets>): bytes
    decreases |rows|
  {
    if rows == [] then [] else EncodeRow(rows[0]) + EncodeRows(rows[1..])
  }

  /** What a collector with element table `info` should show of a record: every field by
      the id and in the type that the table has for it, and the enterprise number of
      scope fields only. */
  function Shown(fields: seq<FieldSpec>, scope: seq<FieldSpec>, info: Elements, row: Octets): Record
    decreases |row|
  {
    if row == [] then []
    else if fields != [] then ShownField(fields[0], 0, info, row[0]) + Shown(fields[1..], scope, info, row[1..])
    else if scope != [] then
      ShownField(scope[0], scope[0].enterpriseNo, info, row[0]) + Shown([], scope[1..], info, row[1..])
    else []
  }

  function ShownField(f: FieldSpec, enterpriseNo: uint32, info: Elements, raw: bytes): Record {
    var key := ElementKey(f.enterpriseNo, f.elementId);
    if key in info then [DecodedField(info[key].fieldId, Interpret(raw, info[key].fieldType), enterpriseNo)] else []
  }

  function ShownRows(t: Template, info: Elements, rows: seq<Octets>): seq<Record>
    decreases |rows|
  {
    if rows == [] then [] else [Shown(t.fields, t.scopeFields, info, rows[0])] + ShownRows(t, info, rows[1..])
  }

  // ---------- Sets (section 3.3)

  /** Sets may be padded with zero octets. */
  datatype Set =
    | TemplateSet(templates: seq<Template>, padding: nat)
    | OptionsSet(options: seq<Template>, padding: nat)
    | DataSet(id: uint16, rows: seq<Octets>, padding: nat)

  function Records(s: Set): bytes {
    match s
    case TemplateSet(ts, _) => EncodeTemplates(ts)
    case OptionsSet(ts, _) => EncodeAllOptions(ts)
    case DataSet(_, rows, _) => EncodeRows(rows)
  }

  function Contents(s: Set): bytes {
    Records(s) + Zeros(s.padding)
  }

  function SetId(s: Set): uint16 {
    match s
    case TemplateSet(_, _) => 2
    case OptionsSet(_, _) => 3
    case DataSet(id, _, _) => id
  }

  /** s can follow in a message when the exporter has announced the templates c:
      data sets use an announced template whose elements the collector knows. */
  predicate CanExport(s: Set, c: Templates, info: Elements) {
    && 4 + |Contents(s)| <= 0xffff
    && match s
       case TemplateSet(ts, _) => AllExportable(ts)
       case OptionsSet(ts, _) => AllExportableOptions(ts)
       case DataSet(id, rows, _) => id in c && 256 <= id && FitsTemplate(rows, c[id], info)
  }

  predicate FitsTemplate(rows: seq<Octets>, t: Template, info: Elements) {
    AllKnown(t, info) && RecordLength(t) > 0 && AllFill(rows, t)
  }

  function EncodeSet(s: Set): bytes {
    BE16(SetId(s)) + BE16(Wrap16(4 + |Contents(s)|)) + Contents(s)
  }

  function Announced(s: Set): seq<Template> {
    match s
    case TemplateSet(ts, _) => ts
    case OptionsSet(ts, _) => AllKept(ts)
    case DataSet(_, _, _) => []
  }

  function ShownSet(s: Set, c: Templates, info: Elements): seq<Record> {
    if s.DataSet? && s.id in c then ShownRows(c[s.id], info, s.rows) else []
  }

  /** The record loop can tell the records of a set from what comes after them. It goes
      on while the set has bytes left and the datagram more than four. In a data set
      (whose records all have the same length) it then reads another record; in a
      template set it looks at two octets, and stops if they are zero. */
  predicate Separable(s: Set, rest: bytes) {
    if !s.DataSet? then s.padding == 1 ==> |rest| <= 3 || rest[0] == 0
    else
      && (s.rows != [] ==> |EncodeRow(s.rows[0])| + s.padding + |rest| > 4)
      && (s.padding > 0 ==> s.padding + |rest| <= 4)
  }

  /** Data sets without padding, and template sets with none or at least two octets. */
  predicate Unpadded(s: Set) {
    if s.DataSet? then s.padding == 0 else s.padding != 1
  }

  // ---------- Messages (section 3.1)

  predicate CanExportAll(ss: seq<Set>, c: Templates, info: Elements)
    decreases |ss|
  {
    ss != [] ==> CanExport(ss[0], c, info) && CanExportAll(ss[1..], InsertAll(c, Announced(ss[0])), info)
  }

  function EncodeSets(ss: seq<Set>): bytes
    decreases |ss|
  {
    if ss == [] then [] else EncodeSet(ss[0]) + EncodeSets(ss[1..])
  }

  predicate AllSeparable(ss: seq<Set>, rest: bytes)
    decreases |ss|
  {
    ss != [] ==> Separable(ss[0], EncodeSets(ss[1..]) + rest) && AllSeparable(ss[1..], rest)
  }

  predicate AllUnpadded(ss: seq<Set>)
    decreases |ss|
  {
    ss != [] ==> Unpadded(ss[0]) && AllUnpadded(ss[1..])
  }

  function AnnouncedAll(ss: seq<Set>): seq<Template>
    decreases |ss|
  {
    if ss == [] then [] else Announced(ss[0]) + AnnouncedAll(ss[1..])
  }

  function ShownAll(ss: seq<Set>, c: Templates, info: Elements): seq<Record>
    decreases |ss|
  {
    if ss == [] then []
    else ShownSet(ss[0], c, info) + ShownAll(ss[1..], InsertAll(c, Announced(ss[0])), info)
  }

  function EncodeHeader(h: Header): (e: bytes)
    ensures |e| == 16
  {
    BE16(h.version) + BE16(h.length) + BE32(h.exportTime) + BE32(h.sequenceNo) + BE32(h.domainId)
  }
}
