/** A value that ipfix/marshal.go cannot print leaves a text that is not JSON. */
module IpfixJsonFailure {
  import opened Bytes
  import opened InfoModel
  import opened Ipfix
  import opened IpfixJson
  import opened IpfixJsonRoundTrip
  import J = Json

  /** A boolean, which writeValue does not know, or a value whose text needs no
      escapes. */
  predicate Clean(v: Value, fmt: Formatter) {
    v.Bool? || (Printable(v) && J.Plain(ValueTree(v, fmt)))
  }

  predicate CleanRecord(r: Record, fmt: Formatter)
    decreases |r|
  {
    r != [] ==> Clean(r[0].value, fmt) && CleanRecord(r[1..], fmt)
  }

  predicate CleanRecords(rs: seq<Record>, fmt: Formatter)
    decreases |rs|
  {
    rs != [] ==> CleanRecord(rs[0], fmt) && CleanRecords(rs[1..], fmt)
  }

  // ---------- Failures travel outwards

  /** No value starts here. */
  predicate NoValue(s: string, p: nat) {
    p < |s| && (s[p] == ',' || s[p] == '}')
  }

  lemma NoValueFails(s: string, p: nat)
    requires NoValue(s, p)
    ensures J.ParseValue(s, p).Fail?
  {
  }

  lemma MemberFails(key: string, s: string, p: nat)
    requires J.PlainString(key) && At(s, p, J.Quoted(key) + ":")
    requires var q := p + |J.Quoted(key)| + 1;
             q <= |s| ==> J.ParseValue(s, q).Fail?
    ensures p <= |s| && J.ParseMembers(s, p).Fail?
  {
    hide J.Quoted, J.ParseValue, J.ParseString;
    AtSplit(s, p, J.Quoted(key), ":");
    J.StringAt(key, s, p);
    AtIndex(s, p + |J.Quoted(key)|, ":", 0);
    AtEnd(s, p, J.Quoted(key) + ":");
  }

  lemma AtEnd(s: string, p: nat, t: string)
    requires At(s, p, t)
    ensures p + |t| <= |s|
  {
  }

  /** After a member that is parsed, a failure of the next one. */
  lemma NextMemberFails(key: string, v: J.Value, s: string, p: nat, e: nat)
    requires J.PlainString(key) && At(s, p, J.Quoted(key) + ":")
    requires var q := p + |J.Quoted(key)| + 1;
             q <= |s| ==> J.ParseValue(s, q) == J.Ok(v, e)
    requires J.Here(s, e, ',') && J.ParseMembers(s, e + 1).Fail?
    ensures p <= |s| && J.ParseMembers(s, p).Fail?
  {
    hide J.Quoted, J.ParseValue, J.ParseString;
    AtSplit(s, p, J.Quoted(key), ":");
    J.StringAt(key, s, p);
    AtIndex(s, p + |J.Quoted(key)|, ":", 0);
    AtEnd(s, p, J.Quoted(key) + ":");
  }

  // ---------- A field without a value

  function FieldParts(f: DecodedField): string {
    "{\"I\":" + (J.Int(f.id) + (",\"V\":" + (EnterpriseText(f.enterpriseNo) + "}")))
  }

  lemma BadFieldText(f: DecodedField, fmt: Formatter)
    requires f.value.Bool?
    ensures FieldText(f, fmt) + "}" == FieldParts(f)
  {
    hide J.Int, EnterpriseText;
    var e := EnterpriseText(f.enterpriseNo);
    Six("{\"I\":", J.Int(f.id), ",\"V\":", "", e, "}");
    assert "" + (e + "}") == e + "}";
  }

  lemma EndsWithoutValue(e: uint32, s: string, p: nat)
    requires At(s, p, EnterpriseText(e) + "}")
    ensures NoValue(s, p)
  {
    hide J.Int;
    AtIndex(s, p, EnterpriseText(e) + "}", 0);
  }

  lemma BadFieldFails(f: DecodedField, s: string, p: nat)
    requires At(s, p, FieldParts(f))
    ensures p < |s| && J.Here(s, p, '{') && J.ParseValue(s, p).Fail?
  {
    hide J.Int, J.Quoted, EnterpriseText, At, J.PlainString, J.ParseMembers, J.ParseString;
    var id, tail := J.Int(f.id), EnterpriseText(f.enterpriseNo) + "}";
    FieldKeys();
    PlainLetter('I');
    PlainLetter('V');
    AtSplit(s, p, "{\"I\":", id + (",\"V\":" + tail));
    AtSplit(s, p, "{", J.Quoted("I") + ":");
    AtIndex(s, p, "{", 0);
    var q := p + 1 + |J.Quoted("I")| + 1;
    AtSplit(s, q, id, ",\"V\":" + tail);
    var e := q + |id|;
    AtSplit(s, e, ",\"V\":", tail);
    AtSplit(s, e, ",", J.Quoted("V") + ":");
    AtIndex(s, e, ",", 0);
    EndsWithoutValue(f.enterpriseNo, s, e + 1 + |J.Quoted("V")| + 1);
    NoValueFails(s, e + 1 + |J.Quoted("V")| + 1);
    MemberFails("V", s, e + 1);
    NumberAt(f.id, s, q);
    NextMemberFails("I", J.Num(f.id), s, p + 1, e);
    QuoteFirst("I", s, p + 1);
  }

  lemma NumberAt(n: int, s: string, q: nat)
    requires At(s, q, J.Int(n)) && J.EndsNumber(s, q + |J.Int(n)|)
    ensures q <= |s| && J.ParseValue(s, q) == J.Ok(J.Num(n), q + |J.Int(n)|)
  {
    hide J.Int, At;
    J.IntAt(n, s, q);
  }

  lemma QuoteFirst(key: string, s: string, p: nat)
    requires At(s, p, J.Quoted(key) + ":")
    ensures J.Here(s, p, '"')
  {
    AtIndex(s, p, J.Quoted(key) + ":", 0);
  }

  // ---------- A record with such a field

  lemma {:induction false} FieldsFail(r: Record, j: nat, fmt: Formatter, s: string, p: nat)
    requires j <= |r| && CleanRecord(r[j..], fmt) && !AllPrintable(r[j..])
    requires At(s, p, FieldsFrom(r, j, fmt))
    ensures J.Here(s, p, '{') && J.ParseItems(s, p).Fail?
    decreases |r| - j
  {
    hide FieldText, FieldTree, J.Show, J.ParseValue, At, ValueTree, J.Plain;
    assert r[j..][0] == r[j] && r[j..][1..] == r[j + 1..];
    FieldsStep(r, j, fmt);
    var f, rest := FieldText(r[j], fmt), FieldsFrom(r, j + 1, fmt);
    var close := if j + 1 < |r| then "}," else "}";
    SplitClose(f, close, rest, s, p);
    if r[j].value.Bool? {
      BadFieldText(r[j], fmt);
      BadFieldFails(r[j], s, p);
    } else {
      assert j + 1 < |r|;
      FieldShown(r[j], fmt);
      FieldPlain(r[j], fmt);
      FieldStarts(r[j], fmt, s, p);
      J.ValueAt(FieldTree(r[j], fmt), s, p);
      FieldsFail(r, j + 1, fmt, s, p + |f + "}"| + 1);
    }
  }

  lemma FieldStarts(f: DecodedField, fmt: Formatter, s: string, p: nat)
    requires At(s, p, J.Show(FieldTree(f, fmt)))
    ensures J.Here(s, p, '{')
  {
    hide J.ShowMembers, J.Show;
    assert J.Show(FieldTree(f, fmt))[0] == '{' && |J.Show(FieldTree(f, fmt))| >= 1 by { FieldTreeShown(f, fmt); }
    AtIndex(s, p, J.Show(FieldTree(f, fmt)), 0);
  }

  /** A field with its brace, the comma after it, and the rest. */
  lemma SplitClose(f: string, close: string, rest: string, s: string, p: nat)
    requires close == "}" || close == "},"
    requires At(s, p, f + (close + rest))
    ensures At(s, p, f + "}")
    ensures close == "}," ==> J.Here(s, p + |f + "}"|, ',') && At(s, p + |f + "}"| + 1, rest)
  {
    AtSplit(s, p, f, close + rest);
    AtSplit(s, p + |f|, close, rest);
    AtIndex(s, p + |f|, close, 0);
    JoinOne(s, p, f, '}');
    if close == "}," {
      AtIndex(s, p + |f|, close, 1);
    }
  }

  lemma JoinOne(s: string, p: nat, f: string, c: char)
    requires At(s, p, f) && p + |f| < |s| && s[p + |f|] == c
    ensures At(s, p, f + [c])
  {
  }

  lemma RecordFails(r: Record, fmt: Formatter, s: string, p: nat)
    requires CleanRecord(r, fmt) && !AllPrintable(r) && At(s, p, RecordText(r, fmt))
    ensures p < |s| && J.ParseValue(s, p).Fail?
  {
    hide FieldsText, FieldsFrom, CleanRecord, AllPrintable, J.ParseItems;
    assert r[0..] == r;
    FieldsSplit(r, 0, fmt);
    NoFieldsText(r, fmt);
    AtSplit(s, p, "[", FieldsFrom(r, 0, fmt));
    AtIndex(s, p, "[", 0);
    hide At;
    FieldsFail(r, 0, fmt, s, p + 1);
  }

  lemma NoFieldsText(r: Record, fmt: Formatter)
    ensures FieldsText(r, 0, fmt) + FieldsFrom(r, 0, fmt) == FieldsFrom(r, 0, fmt)
  {
    hide FieldText;
    assert "" + FieldsFrom(r, 0, fmt) == FieldsFrom(r, 0, fmt);
  }

  // ---------- A message with such a record

  lemma {:induction false} PlainWhenPrintable(r: Record, fmt: Formatter)
    requires CleanRecord(r, fmt) && AllPrintable(r)
    ensures PlainRecord(r, fmt)
    decreases |r|
  {
    if r != [] {
      PlainWhenPrintable(r[1..], fmt);
    }
  }

  lemma {:induction false} RecordsFail(rs: seq<Record>, i: nat, fmt: Formatter, s: string, p: nat)
    requires i <= |rs| && CleanRecords(rs[i..], fmt) && !AllRecordsPrintable(rs[i..])
    requires At(s, p, RecordsFrom(rs, i, fmt))
    ensures J.Here(s, p, '[') && J.ParseItems(s, p).Fail?
    decreases |rs| - i
  {
    hide RecordText, FieldItems, J.Show, J.ParseValue, At, CleanRecord, AllPrintable, J.PlainItems, PlainRecord;
    assert rs[i..][0] == rs[i] && rs[i..][1..] == rs[i + 1..];
    RecordsStep(rs, i, fmt);
    var r, rest := RecordText(rs[i], fmt), RecordsFrom(rs, i + 1, fmt);
    var close := if i + 1 < |rs| then "]," else "]";
    AtSplit(s, p, r, close + rest);
    RecordStarts(rs[i], fmt, s, p);
    if !AllPrintable(rs[i]) {
      RecordFails(rs[i], fmt, s, p);
    } else {
      assert i + 1 < |rs|;
      PlainWhenPrintable(rs[i], fmt);
      PlainFields(rs[i], fmt);
      RecordShown(rs[i], fmt);
      AtSplit(s, p + |r|, "],", rest);
      AtIndex(s, p + |r|, "],", 0);
      AtIndex(s, p + |r|, "],", 1);
      JoinOne(s, p, r, ']');
      ArrayPlain(FieldItems(rs[i], fmt));
      J.ValueAt(J.Arr(FieldItems(rs[i], fmt)), s, p);
      RecordsFail(rs, i + 1, fmt, s, p + |r| + 2);
    }
  }

  lemma RecordStarts(r: Record, fmt: Formatter, s: string, p: nat)
    requires At(s, p, RecordText(r, fmt))
    ensures J.Here(s, p, '[')
  {
    hide FieldsText;
    AtIndex(s, p, RecordText(r, fmt), 0);
  }

  lemma DataSetsFail(rs: seq<Record>, fmt: Formatter, s: string, p: nat)
    requires CleanRecords(rs, fmt) && !AllRecordsPrintable(rs) && At(s, p, DataSetsText(rs, fmt))
    ensures p <= |s| && J.ParseMembers(s, p).Fail?
  {
    hide RecordsText, RecordsFrom, CleanRecords, AllRecordsPrintable, At, J.Quoted, J.PlainString;
    var all := RecordsFrom(rs, 0, fmt);
    assert rs[0..] == rs;
    RecordsSplit(rs, 0, fmt);
    NoRecordsText(rs, fmt);
    DataSetsKey();
    PlainText("DataSets");
    Four("\"DataSets\":", "[", all, "]");
    AtSplit(s, p, "\"DataSets\":", "[" + (all + "]"));
    var q := p + |"\"DataSets\":"|;
    AtSplit(s, q, "[", all + "]");
    AtIndex(s, q, "[", 0);
    AtSplit(s, q + 1, all, "]");
    RecordsFail(rs, 0, fmt, s, q + 1);
    ArrayFails(s, q);
    MemberFails("DataSets", s, p);
  }

  lemma ArrayFails(s: string, q: nat)
    requires J.Here(s, q, '[') && J.Here(s, q + 1, '[') && J.ParseItems(s, q + 1).Fail?
    ensures J.ParseValue(s, q).Fail?
  {
    hide J.ParseItems;
  }

  lemma NoRecordsText(rs: seq<Record>, fmt: Formatter)
    ensures RecordsText(rs, 0, fmt) + RecordsFrom(rs, 0, fmt) == RecordsFrom(rs, 0, fmt)
  {
    hide RecordText;
    assert "" + RecordsFrom(rs, 0, fmt) == RecordsFrom(rs, 0, fmt);
  }

  lemma HeaderThenFails(h: Header, s: string, p: nat)
    requires At(s, p, HeaderText(h)) && p + |HeaderText(h)| <= |s| && J.ParseMembers(s, p + |HeaderText(h)|).Fail?
    ensures p <= |s| && J.ParseMembers(s, p).Fail?
  {
    hide HeaderText, HeaderTree, At, J.Show, J.Quoted, J.Plain, J.PlainString, J.ParseMembers;
    HeaderShown(h);
    HeaderPlain(h);
    PlainText("Header");
    PairThenFails("Header", HeaderTree(h), s, p);
  }

  lemma PairThenFails(key: string, v: J.Value, s: string, p: nat)
    requires J.PlainString(key) && J.Plain(v) && At(s, p, Pair(key, J.Show(v), ","))
    requires var e := p + |Pair(key, J.Show(v), ",")|;
             e <= |s| && J.ParseMembers(s, e).Fail?
    ensures p <= |s| && J.ParseMembers(s, p).Fail?
  {
    hide At, J.Show, J.Quoted, J.Plain, J.PlainString, J.ParseMembers;
    var k, t := J.Quoted(key), J.Show(v);
    Assoc(k, ":", t + ",");
    AtSplit(s, p, k + ":", t + ",");
    var q := p + |k| + 1;
    AtSplit(s, q, t, ",");
    AtIndex(s, q + |t|, ",", 0);
    J.ValueAt(v, s, q);
    NextMemberFails(key, v, s, p, q + |t|);
  }

  lemma AgentThenFails(agent: string, s: string, p: nat)
    requires J.PlainString(agent)
    requires At(s, p, AgentText(agent)) && p + |AgentText(agent)| <= |s| && J.ParseMembers(s, p + |AgentText(agent)|).Fail?
    ensures J.Here(s, p, '"') && J.ParseMembers(s, p).Fail?
  {
    hide At, J.Quoted, J.PlainString, J.ParseMembers;
    AgentShown(agent);
    PlainText("AgentID");
    StringPlain(agent);
    assert J.Show(J.Str(agent)) == J.Quoted(agent);
    PairThenFails("AgentID", J.Str(agent), s, p);
    AtIndex(s, p, AgentText(agent), 0);
  }

  lemma MessageFails(m: Message, fmt: Formatter)
    requires J.PlainString(m.agent) && CleanRecords(m.dataSets, fmt) && !AllRecordsPrintable(m.dataSets)
    ensures J.ParseText(MessageText(m, fmt)) == None
  {
    hide At, AgentText, HeaderText, DataSetsText, J.PlainString, CleanRecords, AllRecordsPrintable, J.ParseMembers;
    var s := MessageText(m, fmt);
    var a, h, d := AgentText(m.agent), HeaderText(m.header), DataSetsText(m.dataSets, fmt);
    AtPart(s, 0, "", "{", a + h + d + "}") by { Six("", "{", a, h, d, "}"); Four(a, h, d, "}"); }
    AtPart(s, 1, "{", a, h + d + "}") by { Six("", "{", a, h, d, "}"); Assoc(h, d, "}"); }
    AtPart(s, 1 + |a|, "{" + a, h, d + "}");
    AtPart(s, 1 + |a| + |h|, "{" + a + h, d, "}");
    AtIndex(s, 0, "{", 0);
    DataSetsFail(m.dataSets, fmt, s, 1 + |a| + |h|);
    HeaderThenFails(m.header, s, 1 + |a|);
    AgentThenFails(m.agent, s, 1);
  }

  lemma {:induction false} AllPlain(rs: seq<Record>, fmt: Formatter)
    requires CleanRecords(rs, fmt) && AllRecordsPrintable(rs)
    ensures PlainRecords(rs, fmt)
    decreases |rs|
  {
    hide CleanRecord, AllPrintable, PlainRecord;
    if rs != [] {
      PlainWhenPrintable(rs[0], fmt);
      AllPlain(rs[1..], fmt);
    }
  }

  /** The text is JSON exactly when every value has a text. (An error is returned only
      if the last one has none, see IpfixJson.JsonMarshal.) */
  lemma JsonIff(m: Message, fmt: Formatter)
    requires J.PlainString(m.agent) && CleanRecords(m.dataSets, fmt)
    ensures J.ParseText(MessageText(m, fmt)).Some? <==> AllRecordsPrintable(m.dataSets)
  {
    hide MessageText, CleanRecords, AllRecordsPrintable, J.PlainString, J.ParseText, PlainRecords;
    if AllRecordsPrintable(m.dataSets) {
      AllPlain(m.dataSets, fmt);
      ParsesBack(m, fmt);
    } else {
      MessageFails(m, fmt);
    }
  }
}
