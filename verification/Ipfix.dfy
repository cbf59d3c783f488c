/** What ipfix/decoder.go computes, as functions of the datagram `b` and the cursor
    position `p` in it. The decoder's own loops are proved against these in
    IpfixDecoder.dfy. */
module Ipfix {
  import opened Bytes
  import opened InfoModel

  datatype FieldSpec = FieldSpec(elementId: uint16, length: uint16, enterpriseNo: uint32)

  datatype Template = Template(
    id: uint16,
    fieldCount: uint16,
    fields: seq<FieldSpec>,
    scopeFieldCount: uint16,
    scopeFields: seq<FieldSpec>)

  /** The templates of one exporter, by id: its view of the template cache. */
  type Templates = map<uint16, Template>

  const NO_TEMPLATE := Template(0, 0, [], 0, [])

  datatype Header = Header(
    version: uint16, length: uint16, exportTime: uint32, sequenceNo: uint32, domainId: uint32)

  datatype DecodedField = DecodedField(id: uint16, value: Value, enterpriseNo: uint32)
  type Record = seq<DecodedField>

  datatype Error =
    | ReaderError
    | UnexpectedEOF
    | BadVersion(version: uint16)
    | UnknownTemplate(id: uint16)
    | UnknownElement(id: uint16)

  /** The errors that the comment on Decode calls fatal. */
  predicate Fatal(e: Error) {
    !e.UnknownTemplate? && !e.UnknownElement?
  }

  /** The error type switch of Decode matches every error, so as written it never
      stops early; its comment says that fatal errors stop. */
  datatype StopRule = AsWritten | AsDocumented

  // ---------- Template records

  /** A reader error leaves the bytes already taken consumed. */
  datatype Parse<+T> = Got(value: T, pos: nat) | Short(pos: nat)

  function ReadField(b: bytes, p: nat): (r: Parse<FieldSpec>)
    requires p <= |b|
    ensures p <= r.pos <= |b| && (r.Got? ==> p + 4 <= r.pos)
  {
    if |b| - p < 2 then Short(p)
    else if |b| - p < 4 then Short(p + 2)
    else
      var id, length := U16(b, p), U16(b, p + 2);
      if id <= 0x8000 then Got(FieldSpec(id, length, 0), p + 4)
      else if |b| - p < 8 then Short(p + 4)
      else Got(FieldSpec(id - 0x8000, length, U32(b, p + 4)), p + 8)
  }

  function ReadFields(n: nat, b: bytes, p: nat): (r: Parse<seq<FieldSpec>>)
    requires p <= |b|
    ensures p <= r.pos <= |b|
  {
    if n == 0 then Got([], p)
    else match ReadField(b, p)
      case Short(p') => Short(p')
      case Got(f, p') =>
        match ReadFields(n - 1, b, p')
        case Short(q) => Short(q)
        case Got(fs, q) => Got([f] + fs, q)
  }

  function ReadTemplate(b: bytes, p: nat): (r: Parse<Template>)
    requires p <= |b|
    ensures p <= r.pos <= |b| && (p + 4 <= |b| ==> p + 4 <= r.pos)
  {
    if |b| - p < 2 then Short(p)
    else if |b| - p < 4 then Short(p + 2)
    else
      var id, count := U16(b, p), U16(b, p + 2);
      match ReadFields(count, b, p + 4)
      case Short(q) => Short(q)
      case Got(fs, q) => Got(Template(id, count, fs, 0, []), q)
  }

  /** Of the scope specifiers only the last one is kept, and the number of other
      specifiers is a 16-bit difference. */
  function ReadOptionsTemplate(b: bytes, p: nat): (r: Parse<Template>)
    requires p <= |b|
    ensures p <= r.pos <= |b| && (p + 4 <= |b| ==> p + 4 <= r.pos)
  {
    if |b| - p < 2 then Short(p)
    else if |b| - p < 4 then Short(p + 2)
    else if |b| - p < 6 then Short(p + 4)
    else
      var id, count, scopeCount := U16(b, p), U16(b, p + 2), U16(b, p + 4);
      match ReadFields(scopeCount, b, p + 6)
      case Short(q) => Short(q)
      case Got(scope, q) =>
        match ReadFields(Sub16(count, scopeCount), b, q)
        case Short(q') => Short(q')
        case Got(fs, q') => Got(Template(id, count, fs, scopeCount, LastOnly(scope)), q')
  }

  function LastOnly<T>(s: seq<T>): seq<T> {
    if s == [] then [] else [s[|s| - 1]]
  }

  function ReadAnyTemplate(id: uint16, b: bytes, p: nat): (r: Parse<Template>)
    requires p <= |b|
    ensures p <= r.pos <= |b| && (p + 4 <= |b| ==> p + 4 <= r.pos)
  {
    if id == 2 then ReadTemplate(b, p) else ReadOptionsTemplate(b, p)
  }

  // ---------- Data records

  datatype Row = Row(fields: Record, pos: nat) | Bad(error: Error, pos: nat)

  /** A field's bytes are taken before its element is looked up, and only scope
      fields carry their enterprise number. */
  function DecodeFields(specs: seq<FieldSpec>, scope: bool, info: Elements, b: bytes, p: nat): (row: Row)
    requires p <= |b|
    ensures p <= row.pos <= |b|
    decreases |specs|
  {
    if specs == [] then Row([], p)
    else
      var s := specs[0];
      var key := ElementKey(s.enterpriseNo, s.elementId);
      if |b| - p < s.length then Bad(ReaderError, p)
      else if key !in info then Bad(UnknownElement(s.elementId), p + s.length)
      else
        match DecodeFields(specs[1..], scope, info, b, p + s.length)
        case Bad(e, q) => Bad(e, q)
        case Row(fs, q) => Row([Decoded(s, scope, info[key], b[p..p + s.length])] + fs, q)
  }

  function Decoded(s: FieldSpec, scope: bool, e: Element, raw: bytes): DecodedField {
    DecodedField(e.fieldId, Interpret(raw, e.fieldType), if scope then s.enterpriseNo else 0)
  }

  function DecodeRecord(t: Template, info: Elements, b: bytes, p: nat): (row: Row)
    requires p <= |b|
    ensures p <= row.pos <= |b|
  {
    match DecodeFields(t.fields, false, info, b, p)
    case Bad(e, q) => Bad(e, q)
    case Row(fs, q) =>
      match DecodeFields(t.scopeFields, true, info, b, q)
      case Bad(e, q') => Bad(e, q')
      case Row(ss, q') => Row(fs + ss, q')
  }

  // ---------- One set

  /** What one call of decodeSet reads and does. `stuck` stands for a loop that
      never ends: a record that takes no bytes leaves the loop where it was. */
  datatype SetResult = SetResult(
    pos: nat,
    learned: seq<Template>,
    records: seq<Record>,
    error: Option<Error>,
    stuck: bool)
  {
    function After(ts: seq<Template>, rs: seq<Record>): SetResult {
      this.(learned := ts + learned, records := rs + records)
    }
  }

  function Quiet(p: nat): SetResult {
    SetResult(p, [], [], None, false)
  }

  function Failed(p: nat, e: Error): SetResult {
    SetResult(p, [], [], Some(e), false)
  }

  predicate IsTemplateSet(id: uint16) {
    id == 2 || id == 3
  }

  predicate IsReservedSet(id: uint16) {
    4 <= id <= 255
  }

  predicate IsDataSet(id: uint16) {
    !IsTemplateSet(id) && !IsReservedSet(id)
  }

  /** The condition of the record loop: the bytes read since the set began at
      `start` are counted modulo 2^16. */
  predicate More(length: uint16, start: nat, b: bytes, p: nat)
    requires start <= p <= |b|
  {
    length > Wrap16(p - start) && |b| - p > 4
  }

  /** The record loop of decodeSet. */
  function SetBody(id: uint16, length: uint16, start: nat, t: Template, info: Elements, b: bytes, p: nat): (s: SetResult)
    requires start <= p <= |b|
    ensures p <= s.pos <= |b|
    decreases |b| - p
  {
    if !More(length, start, b, p) then Quiet(p)
    else if IsTemplateSet(id) then
      if U16(b, p) == 0 then Quiet(p)
      else
        match ReadAnyTemplate(id, b, p)
        case Got(tr, q) => SetBody(id, length, start, t, info, b, q).After([tr], [])
        case Short(q) => SetBody(id, length, start, t, info, b, q)
    else if IsReservedSet(id) then Quiet(p)
    else
      match DecodeRecord(t, info, b, p)
      case Bad(e, q) => Failed(q, e)
      case Row(fs, q) =>
        if q == p then SetResult(p, [], [], None, true)
        else SetBody(id, length, start, t, info, b, q).After([], [fs])
  }

  /** The template a set is read with: none is looked up for ids up to 255. */
  function TemplateFor(c: Templates, id: uint16): Option<Template> {
    if id <= 255 then Some(NO_TEMPLATE) else if id in c then Some(c[id]) else None
  }

  /** The set up to the point where the rest of it is skipped. */
  function SetContents(c: Templates, info: Elements, b: bytes, p: nat): (s: SetResult)
    requires p + 4 <= |b|
    ensures p + 4 <= s.pos <= |b|
  {
    var id, length := U16(b, p), U16(b, p + 2);
    match TemplateFor(c, id)
    case None => Failed(p + 4, UnknownTemplate(id))
    case Some(t) => SetBody(id, length, p, t, info, b, p + 4)
  }

  function SkipRest(length: uint16, start: nat, b: bytes, s: SetResult): (r: SetResult)
    requires start <= s.pos <= |b|
    ensures s.pos <= r.pos <= |b|
  {
    var leftover := Sub16(length, Wrap16(s.pos - start));
    if s.stuck || leftover == 0 then s
    else if |b| - s.pos < leftover then s.(error := Some(ReaderError))
    else s.(pos := s.pos + leftover)
  }

  function DecodeSet(c: Templates, info: Elements, b: bytes, p: nat): (s: SetResult)
    requires p <= |b|
    ensures p <= s.pos <= |b| && (p + 4 <= |b| ==> p + 4 <= s.pos)
  {
    if |b| - p < 2 then Failed(p, ReaderError)
    else if |b| - p < 4 then Failed(p + 2, ReaderError)
    else if U16(b, p + 2) < 4 then Failed(p + 4, UnexpectedEOF)
    else SkipRest(U16(b, p + 2), p, b, SetContents(c, info, b, p))
  }

  /** The template id that decodeSet offers to the template-sharing loop. */
  function Miss(c: Templates, b: bytes, p: nat): Option<uint16>
    requires p <= |b|
  {
    if |b| - p >= 4 && U16(b, p + 2) >= 4 && TemplateFor(c, U16(b, p)).None? then Some(U16(b, p)) else None
  }

  // ---------- A whole message

  datatype End = Finished | Stopped(error: Error) | Stuck

  datatype Run = Run(
    learned: seq<Template>,
    records: seq<Record>,
    errors: seq<Error>,
    misses: seq<uint16>,
    end: End)
  {
    function After(s: SetResult, miss: Option<uint16>): Run {
      Run(s.learned + learned, s.records + records, Listed(s.error) + errors, Listed(miss) + misses, end)
    }
  }

  function Listed<T>(o: Option<T>): seq<T> {
    if o.Some? then [o.value] else []
  }

  function Nothing(end: End): Run {
    Run([], [], [], [], end)
  }

  function InsertAll(c: Templates, ts: seq<Template>): Templates
    decreases |ts|
  {
    if ts == [] then c else InsertAll(c[ts[0].id := ts[0]], ts[1..])
  }

  /** The stop rule ends Decode at this set. */
  predicate Stops(rule: StopRule, s: SetResult) {
    rule.AsDocumented? && s.error.Some? && Fatal(s.error.value)
  }

  /** The set loop of Decode. */
  function DecodeSets(rule: StopRule, c: Templates, info: Elements, b: bytes, p: nat): Run
    requires p <= |b|
    decreases |b| - p
  {
    if |b| - p <= 4 then Nothing(Finished)
    else
      var s := DecodeSet(c, info, b, p);
      var miss := Miss(c, b, p);
      if s.stuck then Nothing(Stuck).After(s, miss)
      else if Stops(rule, s) then Nothing(Stopped(s.error.value)).After(s.(error := None), miss)
      else DecodeSets(rule, InsertAll(c, s.learned), info, b, s.pos).After(s, miss)
  }

  datatype Outcome = Rejected(error: Error) | Accepted(header: Header, run: Run)

  function ReadHeader(b: bytes): Header
    requires |b| >= 16
  {
    Header(U16(b, 0), U16(b, 2), U32(b, 4), U32(b, 8), U32(b, 12))
  }

  function Decode(rule: StopRule, c: Templates, info: Elements, b: bytes): Outcome {
    if |b| < 16 then Rejected(ReaderError)
    else
      var h := ReadHeader(b);
      if h.version != 10 then Rejected(BadVersion(h.version))
      else Accepted(h, DecodeSets(rule, c, info, b, 16))
  }
}
