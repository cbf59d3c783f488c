/** The JSON printer of ipfix/marshal.go: writes into a buffer step by step, and what
    a JSON parser makes of the result. */
module IpfixJson {
  import opened Bytes
  import opened InfoModel
  import opened Ipfix
  import J = Json

  datatype Message = Message(agent: string, header: Header, dataSets: seq<Record>)

  /** The library's text of a float, an IP address or a hardware address. */
  type Formatter = Value -> string

  // ---------- Values

  /** The conversion int64(n) of an unsigned number. */
  function ToInt64(n: nat): int {
    if n < 0x8000_0000_0000_0000 then n else n as int - 0x1_0000_0000_0000_0000
  }

  function HexDigit(d: nat): char
    requires d < 16
  {
    if d < 10 then '0' + d as char else 'a' + (d - 10) as char
  }

  function Hex(b: bytes): string {
    if b == [] then "" else [HexDigit(b[0] / 16), HexDigit(b[0] % 16)] + Hex(b[1..])
  }

  function Chars(b: bytes): string {
    if b == [] then "" else [b[0] as char] + Chars(b[1..])
  }

  /** writeValue has no case for booleans: it writes nothing and fails. */
  predicate HasText(v: Value) {
    !v.Bool?
  }

  /** Values with a text that the reference parser covers: no booleans and no floats. */
  predicate Printable(v: Value) {
    !v.Bool? && !v.Float?
  }

  /** The JSON value that a value stands for. */
  function ValueTree(v: Value, fmt: Formatter): J.Value {
    match v
    case Unsigned(_, n) => J.Num(ToInt64(n))
    case Signed(_, i) => J.Num(i)
    case Text(t) => J.Str(Chars(t))
    case Octets(b) => J.Str("0x" + Hex(b))
    case _ => J.Str(fmt(v))
  }

  function Written(v: Value, fmt: Formatter): string {
    if Printable(v) then J.Show(ValueTree(v, fmt)) else if v.Float? then fmt(v) else ""
  }

  // ---------- The buffer

  class Buffer {
    var text: string

    constructor ()
      ensures text == ""
    {
      text := "";
    }

    method WriteString(s: string)
      modifies this
      ensures text == old(text) + s
    {
      text := text + s;
    }
  }

  // ---------- The parts of the text, in the order in which they are written

  function AgentText(agent: string): string {
    "\"AgentID\":\"" + agent + "\","
  }

  function HeaderText(h: Header): string {
    "\"Header\":{\"Version\":" + J.Int(h.version) + ",\"Length\":" + J.Int(h.length)
    + ",\"ExportTime\":" + J.Int(h.exportTime) + ",\"SequenceNo\":" + J.Int(h.sequenceNo)
    + ",\"DomainID\":" + J.Int(h.domainId) + "},"
  }

  function EnterpriseText(e: uint32): string {
    if e == 0 then "" else ",\"E\":" + J.Int(e)
  }

  function FieldText(f: DecodedField, fmt: Formatter): string {
    "{\"I\":" + J.Int(f.id) + ",\"V\":" + Written(f.value, fmt) + EnterpriseText(f.enterpriseNo)
  }

  /** The first j fields of a record, each followed by its closing brace and, unless
      it is the last of the record, a comma. */
  function FieldsText(r: Record, j: nat, fmt: Formatter): string
    requires j <= |r|
  {
    if j == 0 then ""
    else FieldsText(r, j - 1, fmt) + FieldText(r[j - 1], fmt) + (if j < |r| then "}," else "}")
  }

  function RecordText(r: Record, fmt: Formatter): string {
    "[" + FieldsText(r, |r|, fmt)
  }

  function RecordsText(rs: seq<Record>, i: nat, fmt: Formatter): string
    requires i <= |rs|
  {
    if i == 0 then ""
    else RecordsText(rs, i - 1, fmt) + RecordText(rs[i - 1], fmt) + (if i < |rs| then "]," else "]")
  }

  function DataSetsText(rs: seq<Record>, fmt: Formatter): string {
    "\"DataSets\":" + "[" + RecordsText(rs, |rs|, fmt) + "]"
  }

  function MessageText(m: Message, fmt: Formatter): string {
    "{" + AgentText(m.agent) + HeaderText(m.header) + DataSetsText(m.dataSets, fmt) + "}"
  }

  /** Every value overwrites the error of the one before: only the last value written
      decides. */
  function LastFails(rs: seq<Record>, i: nat, fmt: Formatter): bool
    requires i <= |rs|
  {
    if i == 0 then false
    else if rs[i - 1] == [] then LastFails(rs, i - 1, fmt)
    else !HasText(rs[i - 1][|rs[i - 1]| - 1].value)
  }

  // ---------- The methods

  lemma Assoc(a: string, b: string, c: string)
    ensures (a + b) + c == a + (b + c)
  {
  }

  method EncodeAgent(agent: string, b: Buffer)
    modifies b
    ensures b.text == old(b.text) + AgentText(agent)
  {
    b.WriteString("\"AgentID\":\"");
    b.WriteString(agent);
    b.WriteString("\",");
    Assoc(old(b.text), "\"AgentID\":\"", agent);
    Assoc(old(b.text), "\"AgentID\":\"" + agent, "\",");
  }

  method EncodeHeader(h: Header, b: Buffer)
    modifies b
    ensures b.text == old(b.text) + HeaderText(h)
  {
    hide J.Int;
    var v, l, x, s, d := J.Int(h.version), J.Int(h.length), J.Int(h.exportTime), J.Int(h.sequenceNo), J.Int(h.domainId);
    b.WriteString("\"Header\":{\"Version\":");
    b.WriteString(v);
    b.WriteString(",\"Length\":");
    b.WriteString(l);
    b.WriteString(",\"ExportTime\":");
    b.WriteString(x);
    b.WriteString(",\"SequenceNo\":");
    b.WriteString(s);
    b.WriteString(",\"DomainID\":");
    b.WriteString(d);
    b.WriteString("},");
    ghost var t, done := old(b.text), "\"Header\":{\"Version\":";
    Assoc(t, done, v);
    done := done + v;
    Assoc(t, done, ",\"Length\":");
    done := done + ",\"Length\":";
    Assoc(t, done, l);
    done := done + l;
    Assoc(t, done, ",\"ExportTime\":");
    done := done + ",\"ExportTime\":";
    Assoc(t, done, x);
    done := done + x;
    Assoc(t, done, ",\"SequenceNo\":");
    done := done + ",\"SequenceNo\":";
    Assoc(t, done, s);
    done := done + s;
    Assoc(t, done, ",\"DomainID\":");
    done := done + ",\"DomainID\":";
    Assoc(t, done, d);
    done := done + d;
    Assoc(t, done, "},");
  }

  /** The type switch. What is appended for a value that needs no escapes is a JSON text
      of it. */
  method WriteValue(v: Value, fmt: Formatter, b: Buffer) returns (ok: bool)
    modifies b
    ensures ok <==> !v.Bool?
    ensures b.text == old(b.text) + Written(v, fmt)
    ensures v.Bool? ==> b.text == old(b.text)
    ensures v.Float? ==> b.text == old(b.text) + fmt(v)
    ensures !v.Bool? && !v.Float? ==>
              (J.ParseText(b.text[|old(b.text)|..]) == Some(ValueTree(v, fmt)) <==> J.Plain(ValueTree(v, fmt)))
  {
    ok := true;
    match v {
      case Unsigned(_, n) => b.WriteString(J.Int(ToInt64(n)));
      case Signed(_, i) => b.WriteString(J.Int(i));
      case Float(_, _) => b.WriteString(fmt(v));
      case Text(t) => WriteQuoted(Chars(t), b);
      case Ip(_) => WriteQuoted(fmt(v), b);
      case Mac(_) => WriteQuoted(fmt(v), b);
      case Octets(o) => WriteQuoted("0x" + Hex(o), b);
      case Bool(_) => ok := false;
    }
    hide J.ParseText, J.Plain, Hex, Chars, J.Int;
    assert b.text[|old(b.text)|..] == Written(v, fmt);
    J.ParseShownIff(ValueTree(v, fmt));
  }

  /** The three writes of a string case. */
  method WriteQuoted(s: string, b: Buffer)
    modifies b
    ensures b.text == old(b.text) + J.Quoted(s)
  {
    b.WriteString("\"");
    b.WriteString(s);
    b.WriteString("\"");
    Assoc(old(b.text), "\"", s);
    Assoc(old(b.text), "\"" + s, "\"");
    Assoc("\"", s, "\"");
  }

  method EncodeField(f: DecodedField, fmt: Formatter, b: Buffer) returns (ok: bool)
    modifies b
    ensures b.text == old(b.text) + FieldText(f, fmt)
    ensures ok <==> HasText(f.value)
  {
    hide J.Int, Written;
    b.WriteString("{\"I\":");
    b.WriteString(J.Int(f.id));
    b.WriteString(",\"V\":");
    ok := WriteValue(f.value, fmt, b);
    ghost var t, done := old(b.text), "{\"I\":";
    Assoc(t, done, J.Int(f.id));
    done := done + J.Int(f.id);
    Assoc(t, done, ",\"V\":");
    done := done + ",\"V\":";
    Assoc(t, done, Written(f.value, fmt));
    done := done + Written(f.value, fmt);
    if f.enterpriseNo != 0 {
      b.WriteString(",\"E\":");
      b.WriteString(J.Int(f.enterpriseNo));
      Assoc(t + done, ",\"E\":", J.Int(f.enterpriseNo));
      Assoc(t, done, EnterpriseText(f.enterpriseNo));
    } else {
      assert done + "" == done;
    }
  }

  method EncodeDataSet(rs: seq<Record>, fmt: Formatter, b: Buffer) returns (ok: bool)
    modifies b
    ensures b.text == old(b.text) + DataSetsText(rs, fmt)
    ensures ok <==> !LastFails(rs, |rs|, fmt)
  {
    hide FieldText, FieldsText, RecordsText, LastFails, HasText;
    ok := true;
    NothingYet(rs, fmt);
    b.WriteString("\"DataSets\":");
    b.WriteString("[");
    ghost var head := "\"DataSets\":" + "[";
    Assoc(old(b.text), "\"DataSets\":", "[");
    assert b.text == old(b.text) + head + "";
    for i := 0 to |rs|
      invariant b.text == old(b.text) + head + RecordsText(rs, i, fmt)
      invariant ok <==> !LastFails(rs, i, fmt)
    {
      ghost var before := b.text;
      b.WriteString("[");
      var r := rs[i];
      NoFieldsYet(r, fmt);
      LastFailsStep(rs, i, fmt);
      assert b.text == before + ("[" + "");
      for j := 0 to |r|
        invariant b.text == before + ("[" + FieldsText(r, j, fmt))
        invariant ok <==> if j == 0 then !LastFails(rs, i, fmt) else HasText(r[j - 1].value)
      {
        ghost var done := "[" + FieldsText(r, j, fmt);
        ok := EncodeField(r[j], fmt, b);
        var close := if j < |r| - 1 then "}," else "}";
        b.WriteString(close);
        FieldAppended(before, r, j, fmt);
      }
      var close := if i < |rs| - 1 then "]," else "]";
      b.WriteString(close);
      RecordAppended(old(b.text) + head, rs, i, fmt);
    }
    b.WriteString("]");
    Assoc(old(b.text), head, RecordsText(rs, |rs|, fmt));
    Assoc(old(b.text), head + RecordsText(rs, |rs|, fmt), "]");
  }

  lemma NothingYet(rs: seq<Record>, fmt: Formatter)
    ensures RecordsText(rs, 0, fmt) == "" && !LastFails(rs, 0, fmt)
  {
  }

  lemma NoFieldsYet(r: Record, fmt: Formatter)
    ensures FieldsText(r, 0, fmt) == ""
  {
  }

  lemma LastFailsStep(rs: seq<Record>, i: nat, fmt: Formatter)
    requires i < |rs|
    ensures LastFails(rs, i + 1, fmt)
       <==> if rs[i] == [] then LastFails(rs, i, fmt) else !HasText(rs[i][|rs[i]| - 1].value)
  {
  }

  lemma FieldAppended(before: string, r: Record, j: nat, fmt: Formatter)
    requires j < |r|
    ensures before + ("[" + FieldsText(r, j, fmt)) + FieldText(r[j], fmt) + (if j < |r| - 1 then "}," else "}")
         == before + ("[" + FieldsText(r, j + 1, fmt))
  {
    hide FieldText;
    var done, f, close := FieldsText(r, j, fmt), FieldText(r[j], fmt), if j < |r| - 1 then "}," else "}";
    assert FieldsText(r, j + 1, fmt) == done + f + close;
    Assoc(before + ("[" + done), f, close);
    Assoc(before, "[" + done, f + close);
    Assoc("[", done, f + close);
    Assoc(done, f, close);
  }

  lemma RecordAppended(before: string, rs: seq<Record>, i: nat, fmt: Formatter)
    requires i < |rs|
    ensures before + RecordsText(rs, i, fmt) + RecordText(rs[i], fmt) + (if i < |rs| - 1 then "]," else "]")
         == before + RecordsText(rs, i + 1, fmt)
  {
    hide RecordText;
    var done, r, close := RecordsText(rs, i, fmt), RecordText(rs[i], fmt), if i < |rs| - 1 then "]," else "]";
    Assoc(before + done, r, close);
    Assoc(before, done, r + close);
    Assoc(done, r, close);
  }

  /** JSONMarshal returns everything in the buffer: what was there and the message's
      text. It returns an error if the last value written has no text. */
  method JsonMarshal(m: Message, fmt: Formatter, b: Buffer) returns (r: Option<string>)
    modifies b
    ensures r == if LastFails(m.dataSets, |m.dataSets|, fmt) then None else Some(old(b.text) + MessageText(m, fmt))
    ensures r.Some? ==> b.text == r.value
  {
    hide AgentText, HeaderText, DataSetsText, LastFails;
    b.WriteString("{");
    EncodeAgent(m.agent, b);
    EncodeHeader(m.header, b);
    var ok := EncodeDataSet(m.dataSets, fmt, b);
    if !ok { return None; }
    b.WriteString("}");
    ghost var t, a, h, d := old(b.text), AgentText(m.agent), HeaderText(m.header), DataSetsText(m.dataSets, fmt);
    Assoc(t, "{", a);
    Assoc(t, "{" + a, h);
    Assoc(t, "{" + a + h, d);
    Assoc(t, "{" + a + h + d, "}");
    r := Some(b.text);
  }

  /** All fields of the first i records, in the order in which they are written. */
  function Flat(rs: seq<Record>, i: nat): Record
    requires i <= |rs|
  {
    if i == 0 then [] else Flat(rs, i - 1) + rs[i - 1]
  }

  /** Of all the values written only the very last decides whether there is an error. */
  lemma {:induction false} ErrorIffLast(rs: seq<Record>, i: nat, fmt: Formatter)
    requires i <= |rs|
    ensures LastFails(rs, i, fmt) <==> Flat(rs, i) != [] && Flat(rs, i)[|Flat(rs, i)| - 1].value.Bool?
    decreases i
  {
    if i > 0 {
      ErrorIffLast(rs, i - 1, fmt);
      if rs[i - 1] == [] {
        assert Flat(rs, i) == Flat(rs, i - 1);
      }
    }
  }
}
