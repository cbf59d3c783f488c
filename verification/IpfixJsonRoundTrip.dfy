/** What ipfix/marshal.go prints is a JSON text, and the message can be read back
    from it. */
module IpfixJsonRoundTrip {
  import opened Bytes
  import opened InfoModel
  import opened Ipfix
  import opened IpfixJson
  import J = Json

  // ---------- The message as a JSON value

  function EnterpriseTree(e: uint32): J.Members {
    if e == 0 then J.NoMembers else J.Member("E", J.Num(e), J.NoMembers)
  }

  function FieldTree(f: DecodedField, fmt: Formatter): J.Value {
    J.Obj(J.Member("I", J.Num(f.id), J.Member("V", ValueTree(f.value, fmt), EnterpriseTree(f.enterpriseNo))))
  }

  function FieldItems(r: Record, fmt: Formatter): J.Items
    decreases |r|
  {
    if r == [] then J.NoItems else J.Item(FieldTree(r[0], fmt), FieldItems(r[1..], fmt))
  }

  function RecordItems(rs: seq<Record>, fmt: Formatter): J.Items
    decreases |rs|
  {
    if rs == [] then J.NoItems else J.Item(J.Arr(FieldItems(rs[0], fmt)), RecordItems(rs[1..], fmt))
  }

  function HeaderTree(h: Header): J.Value {
    J.Obj(J.Member("Version", J.Num(h.version), J.Member("Length", J.Num(h.length),
      J.Member("ExportTime", J.Num(h.exportTime), J.Member("SequenceNo", J.Num(h.sequenceNo),
      J.Member("DomainID", J.Num(h.domainId), J.NoMembers))))))
  }

  function MessageTree(m: Message, fmt: Formatter): J.Value {
    J.Obj(J.Member("AgentID", J.Str(m.agent), J.Member("Header", HeaderTree(m.header),
      J.Member("DataSets", J.Arr(RecordItems(m.dataSets, fmt)), J.NoMembers))))
  }

  predicate AllPrintable(r: Record)
    decreases |r|
  {
    r != [] ==> Printable(r[0].value) && AllPrintable(r[1..])
  }

  predicate AllRecordsPrintable(rs: seq<Record>)
    decreases |rs|
  {
    rs != [] ==> AllPrintable(rs[0]) && AllRecordsPrintable(rs[1..])
  }

  // ---------- Joining texts

  lemma Four(a: string, b: string, c: string, d: string)
    ensures ((a + b) + c) + d == a + (b + (c + d))
  {
    Assoc(a + b, c, d);
    Assoc(a, b, c + d);
  }

  lemma Six(a: string, b: string, c: string, d: string, e: string, f: string)
    ensures ((((a + b) + c) + d) + e) + f == a + (b + (c + (d + (e + f))))
  {
    Assoc(((a + b) + c) + d, e, f);
    Assoc((a + b) + c, d, e + f);
    Four(a, b, c, d + (e + f));
  }

  /** A key as the program writes it, with the punctuation around it. */
  lemma Key(before: string, key: string, rest: string)
    ensures (before + (J.Quoted(key) + ":")) + rest == before + (J.Quoted(key) + (":" + rest))
  {
    hide J.Quoted;
    Assoc(before, J.Quoted(key) + ":", rest);
    Assoc(J.Quoted(key), ":", rest);
  }

  /** A key, its value and what follows. */
  function Pair(key: string, value: string, rest: string): string {
    J.Quoted(key) + (":" + (value + rest))
  }

  // ---------- The printed text is the text of that value

  lemma ValueShown(v: Value, fmt: Formatter)
    requires Printable(v)
    ensures Written(v, fmt) == J.Show(ValueTree(v, fmt))
  {
  }

  lemma FieldKeys()
    ensures "{\"I\":" == "{" + (J.Quoted("I") + ":")
    ensures ",\"V\":" == "," + (J.Quoted("V") + ":")
    ensures ",\"E\":" == "," + (J.Quoted("E") + ":")
  {
  }

  /** The members that follow the value, with the closing brace. */
  function Ending(members: J.Members): string {
    if members.NoMembers? then "}" else "," + J.ShowMembers(members)
  }

  lemma EnterpriseShown(e: uint32)
    ensures EnterpriseText(e) + "}" == Ending(EnterpriseTree(e))
  {
    hide J.Int, J.Quoted;
    FieldKeys();
    if e == 0 {
      assert "" + "}" == "}";
    } else {
      Assoc(",\"E\":", J.Int(e), "}");
      Key(",", "E", J.Int(e) + "}");
      assert J.Show(J.Num(e)) == J.Int(e);
      assert J.ShowMembers(EnterpriseTree(e)) == Pair("E", J.Int(e), "}");
    }
  }

  lemma FieldShown(f: DecodedField, fmt: Formatter)
    requires Printable(f.value)
    ensures FieldText(f, fmt) + "}" == J.Show(FieldTree(f, fmt))
  {
    hide J.Int, J.Quoted, Written, EnterpriseText, EnterpriseTree, ValueTree;
    var id, v, e := J.Int(f.id), Written(f.value, fmt), EnterpriseText(f.enterpriseNo);
    ValueShown(f.value, fmt);
    FieldKeys();
    Six("{\"I\":", id, ",\"V\":", v, e, "}");
    EnterpriseShown(f.enterpriseNo);
    var rest := v + Ending(EnterpriseTree(f.enterpriseNo));
    Key(",", "V", rest);
    Key("{", "I", id + ("," + (J.Quoted("V") + (":" + rest))));
    FieldTreeShown(f, fmt);
  }

  lemma FieldTreeShown(f: DecodedField, fmt: Formatter)
    ensures J.Show(FieldTree(f, fmt))
         == "{" + Pair("I", J.Int(f.id), "," + Pair("V", J.Show(ValueTree(f.value, fmt)), Ending(EnterpriseTree(f.enterpriseNo))))
  {
    hide J.Int, J.Quoted, ValueTree, EnterpriseTree;
    var tail := J.Member("V", ValueTree(f.value, fmt), EnterpriseTree(f.enterpriseNo));
    assert J.ShowMembers(tail)
        == J.Quoted("V") + (":" + (J.Show(ValueTree(f.value, fmt)) + Ending(EnterpriseTree(f.enterpriseNo))));
    assert J.Show(J.Num(f.id)) == J.Int(f.id);
  }

  /** The fields from j on, as they are written. */
  function FieldsFrom(r: Record, j: nat, fmt: Formatter): string
    requires j <= |r|
    decreases |r| - j
  {
    if j == |r| then ""
    else FieldText(r[j], fmt) + ((if j + 1 < |r| then "}," else "}") + FieldsFrom(r, j + 1, fmt))
  }

  lemma FieldsStep(r: Record, j: nat, fmt: Formatter)
    requires j <= |r|
    ensures j == |r| ==> FieldsFrom(r, j, fmt) == ""
    ensures j < |r| ==>
              var close := if j + 1 < |r| then "}," else "}";
              && FieldsText(r, j + 1, fmt) == FieldsText(r, j, fmt) + FieldText(r[j], fmt) + close
              && FieldsFrom(r, j, fmt) == FieldText(r[j], fmt) + (close + FieldsFrom(r, j + 1, fmt))
  {
    hide FieldText;
  }

  lemma {:induction false} FieldsSplit(r: Record, j: nat, fmt: Formatter)
    requires j <= |r|
    ensures FieldsText(r, |r|, fmt) == FieldsText(r, j, fmt) + FieldsFrom(r, j, fmt)
    decreases |r| - j
  {
    hide FieldText, FieldsText, FieldsFrom;
    FieldsStep(r, j, fmt);
    if j == |r| {
      assert FieldsText(r, j, fmt) + "" == FieldsText(r, j, fmt);
    } else {
      FieldsSplit(r, j + 1, fmt);
      var close := if j + 1 < |r| then "}," else "}";
      Four(FieldsText(r, j, fmt), FieldText(r[j], fmt), close, FieldsFrom(r, j + 1, fmt));
    }
  }

  lemma {:induction false} FieldsShown(r: Record, j: nat, fmt: Formatter)
    requires j < |r| && AllPrintable(r[j..])
    ensures FieldsFrom(r, j, fmt) + "]" == J.ShowItems(FieldItems(r[j..], fmt))
    decreases |r| - j
  {
    hide FieldText, FieldTree, J.Show, Printable;
    assert r[j..][0] == r[j] && r[j..][1..] == r[j + 1..];
    FieldShown(r[j], fmt);
    var f, rest := FieldText(r[j], fmt), FieldsFrom(r, j + 1, fmt);
    if j + 1 == |r| {
      assert rest == "" && "}" + rest == "}";
      Assoc(f, "}", "]");
      assert r[j + 1..] == [];
    } else {
      FieldsShown(r, j + 1, fmt);
      Assoc(f, "}," + rest, "]");
      Assoc("},", rest, "]");
      assert "}," == "}" + ",";
      Assoc("}", ",", rest + "]");
      Assoc(f, "}", "," + (rest + "]"));
    }
  }

  lemma RecordShown(r: Record, fmt: Formatter)
    requires AllPrintable(r)
    ensures RecordText(r, fmt) + "]" == J.Show(J.Arr(FieldItems(r, fmt)))
  {
    hide FieldText, FieldTree, AllPrintable;
    assert r[0..] == r;
    FieldsSplit(r, 0, fmt);
    assert "" + FieldsFrom(r, 0, fmt) == FieldsFrom(r, 0, fmt);
    Assoc("[", FieldsFrom(r, 0, fmt), "]");
    if r == [] {
      assert "" + "]" == "]";
    } else {
      FieldsShown(r, 0, fmt);
    }
  }

  function RecordsFrom(rs: seq<Record>, i: nat, fmt: Formatter): string
    requires i <= |rs|
    decreases |rs| - i
  {
    if i == |rs| then ""
    else RecordText(rs[i], fmt) + ((if i + 1 < |rs| then "]," else "]") + RecordsFrom(rs, i + 1, fmt))
  }

  lemma RecordsStep(rs: seq<Record>, i: nat, fmt: Formatter)
    requires i <= |rs|
    ensures i == |rs| ==> RecordsFrom(rs, i, fmt) == ""
    ensures i < |rs| ==>
              var close := if i + 1 < |rs| then "]," else "]";
              && RecordsText(rs, i + 1, fmt) == RecordsText(rs, i, fmt) + RecordText(rs[i], fmt) + close
              && RecordsFrom(rs, i, fmt) == RecordText(rs[i], fmt) + (close + RecordsFrom(rs, i + 1, fmt))
  {
    hide RecordText;
  }

  lemma {:induction false} RecordsSplit(rs: seq<Record>, i: nat, fmt: Formatter)
    requires i <= |rs|
    ensures RecordsText(rs, |rs|, fmt) == RecordsText(rs, i, fmt) + RecordsFrom(rs, i, fmt)
    decreases |rs| - i
  {
    hide RecordText, RecordsText, RecordsFrom;
    RecordsStep(rs, i, fmt);
    if i == |rs| {
      assert RecordsText(rs, i, fmt) + "" == RecordsText(rs, i, fmt);
    } else {
      RecordsSplit(rs, i + 1, fmt);
      var close := if i + 1 < |rs| then "]," else "]";
      Four(RecordsText(rs, i, fmt), RecordText(rs[i], fmt), close, RecordsFrom(rs, i + 1, fmt));
    }
  }

  lemma {:induction false} RecordsShown(rs: seq<Record>, i: nat, fmt: Formatter)
    requires i < |rs| && AllRecordsPrintable(rs[i..])
    ensures RecordsFrom(rs, i, fmt) + "]" == J.ShowItems(RecordItems(rs[i..], fmt))
    decreases |rs| - i
  {
    hide RecordText, FieldItems, J.Show, AllPrintable;
    assert rs[i..][0] == rs[i] && rs[i..][1..] == rs[i + 1..];
    RecordShown(rs[i], fmt);
    var r, rest := RecordText(rs[i], fmt), RecordsFrom(rs, i + 1, fmt);
    if i + 1 == |rs| {
      assert rest == "" && "]" + rest == "]";
      Assoc(r, "]", "]");
      assert rs[i + 1..] == [];
    } else {
      RecordsShown(rs, i + 1, fmt);
      Assoc(r, "]," + rest, "]");
      Assoc("],", rest, "]");
      assert "]," == "]" + ",";
      Assoc("]", ",", rest + "]");
      Assoc(r, "]", "," + (rest + "]"));
    }
  }

  lemma DataSetsKey()
    ensures "\"DataSets\":" == J.Quoted("DataSets") + ":"
  {
  }

  lemma DataSetsShown(rs: seq<Record>, fmt: Formatter)
    requires AllRecordsPrintable(rs)
    ensures DataSetsText(rs, fmt) == J.Quoted("DataSets") + (":" + J.Show(J.Arr(RecordItems(rs, fmt))))
  {
    hide RecordText, FieldItems, AllRecordsPrintable, J.Quoted;
    var all := RecordsFrom(rs, 0, fmt);
    assert rs[0..] == rs;
    RecordsSplit(rs, 0, fmt);
    assert "" + all == all;
    DataSetsKey();
    Four("\"DataSets\":", "[", all, "]");
    Assoc(J.Quoted("DataSets"), ":", "[" + (all + "]"));
    if rs == [] {
      assert "" + "]" == "]";
    } else {
      RecordsShown(rs, 0, fmt);
    }
  }

  lemma HeaderKeys()
    ensures "\"Header\":{\"Version\":" == J.Quoted("Header") + (":" + ("{" + (J.Quoted("Version") + ":")))
    ensures ",\"Length\":" == "," + (J.Quoted("Length") + ":")
  {
  }

  lemma HeaderKeys2()
    ensures ",\"ExportTime\":" == "," + (J.Quoted("ExportTime") + ":")
  {
  }

  lemma HeaderKeys3()
    ensures ",\"SequenceNo\":" == "," + (J.Quoted("SequenceNo") + ":")
  {
  }

  lemma HeaderKeys4()
    ensures ",\"DomainID\":" == "," + (J.Quoted("DomainID") + ":")
  {
  }

  /** The last members of the header, with the comma after it. */
  function HeaderEnding(h: Header): string {
    "," + Pair("ExportTime", J.Int(h.exportTime), "," + Pair("SequenceNo", J.Int(h.sequenceNo), "," + Pair("DomainID", J.Int(h.domainId), "}" + ",")))
  }

  lemma HeaderTail(h: Header)
    ensures ",\"ExportTime\":" + (J.Int(h.exportTime) + (",\"SequenceNo\":" + (J.Int(h.sequenceNo) + (",\"DomainID\":" + (J.Int(h.domainId) + "},")))))
         == HeaderEnding(h)
  {
    hide J.Int, J.Quoted;
    HeaderKeys2();
    HeaderKeys3();
    HeaderKeys4();
    assert "}," == "}" + ",";
    var d := J.Int(h.domainId) + "},";
    Key(",", "DomainID", d);
    var s := J.Int(h.sequenceNo) + ("," + (J.Quoted("DomainID") + (":" + d)));
    Key(",", "SequenceNo", s);
    Key(",", "ExportTime", J.Int(h.exportTime) + ("," + (J.Quoted("SequenceNo") + (":" + s))));
  }

  /** A comma after an object moves behind its closing brace. */
  lemma {:induction false} MembersThen(members: J.Members, x: string)
    requires members.Member?
    ensures J.ShowMembers(members) + x
         == J.Quoted(members.key) + (":" + (J.Show(members.value)
              + (if members.tail.NoMembers? then "}" + x else "," + (J.ShowMembers(members.tail) + x))))
  {
    hide J.Show, J.Quoted;
    var k, v, t := J.Quoted(members.key), J.Show(members.value), if members.tail.NoMembers? then "}" else "," + J.ShowMembers(members.tail);
    Assoc(k, ":" + (v + t), x);
    Assoc(":", v + t, x);
    Assoc(v, t, x);
    if members.tail.Member? {
      Assoc(",", J.ShowMembers(members.tail), x);
    }
  }

  lemma HeaderParts(h: Header)
    ensures HeaderText(h)
         == "\"Header\":{\"Version\":" + (J.Int(h.version) + (",\"Length\":" + (J.Int(h.length)
              + (",\"ExportTime\":" + (J.Int(h.exportTime) + (",\"SequenceNo\":" + (J.Int(h.sequenceNo) + (",\"DomainID\":" + (J.Int(h.domainId) + "},")))))))))
  {
    hide J.Int;
    var a, b, c, d, e := "\"Header\":{\"Version\":", J.Int(h.version), ",\"Length\":", J.Int(h.length), ",\"ExportTime\":";
    var f, g, i, j, k, l := J.Int(h.exportTime), ",\"SequenceNo\":", J.Int(h.sequenceNo), ",\"DomainID\":", J.Int(h.domainId), "},";
    var head := a + b + c + d + e;
    Six(head + f, g, i, j, k, l);
    Six(a, b, c, d, e, f + (g + (i + (j + (k + l)))));
    Assoc(head, f, g + (i + (j + (k + l))));
  }

  lemma HeaderTreeParts(h: Header)
    ensures J.Show(HeaderTree(h)) + ","
         == "{" + Pair("Version", J.Int(h.version), "," + Pair("Length", J.Int(h.length), HeaderEnding(h)))
  {
    hide J.Int, J.Quoted, J.ShowMembers;
    var d := J.Member("DomainID", J.Num(h.domainId), J.NoMembers);
    var s := J.Member("SequenceNo", J.Num(h.sequenceNo), d);
    var e := J.Member("ExportTime", J.Num(h.exportTime), s);
    var l := J.Member("Length", J.Num(h.length), e);
    var v := J.Member("Version", J.Num(h.version), l);
    assert J.Show(HeaderTree(h)) == "{" + J.ShowMembers(v);
    Assoc("{", J.ShowMembers(v), ",");
    MembersThen(v, ",");
    MembersThen(l, ",");
    MembersThen(e, ",");
    MembersThen(s, ",");
    MembersThen(d, ",");
  }

  lemma HeaderShown(h: Header)
    ensures HeaderText(h) == Pair("Header", J.Show(HeaderTree(h)), ",")
  {
    hide J.Int, J.Quoted, HeaderText, HeaderTree, HeaderEnding;
    HeaderParts(h);
    HeaderTail(h);
    HeaderKeys();
    HeaderTreeParts(h);
    var rest := HeaderEnding(h);
    Key(",", "Length", J.Int(h.length) + rest);
    var all := J.Int(h.version) + ("," + (J.Quoted("Length") + (":" + (J.Int(h.length) + rest))));
    Assoc(J.Quoted("Header"), ":" + ("{" + (J.Quoted("Version") + ":")), all);
    Assoc(":", "{" + (J.Quoted("Version") + ":"), all);
    Key("{", "Version", all);
  }

  lemma AgentKey()
    ensures "\"AgentID\":\"" == J.Quoted("AgentID") + (":" + "\"")
    ensures "\"," == "\"" + ","
  {
  }

  lemma AgentShown(agent: string)
    ensures AgentText(agent) == J.Quoted("AgentID") + (":" + (J.Quoted(agent) + ","))
  {
    AgentKey();
    var k := J.Quoted("AgentID");
    Assoc("\"AgentID\":\"", agent, "\",");
    Assoc(k, ":" + "\"", agent + "\",");
    Assoc(":", "\"", agent + "\",");
    Assoc(agent, "\"", ",");
    Assoc("\"", agent + "\"", ",");
  }

  /** The printed message is the text of its JSON value. */
  lemma MessageShown(m: Message, fmt: Formatter)
    requires AllRecordsPrintable(m.dataSets)
    ensures MessageText(m, fmt) == J.Show(MessageTree(m, fmt))
  {
    hide J.Quoted, AgentText, HeaderText, DataSetsText, HeaderTree, RecordItems, J.Show, J.ShowMembers, AllRecordsPrintable;
    var agent, header, sets := AgentText(m.agent), HeaderText(m.header), DataSetsText(m.dataSets, fmt);
    AgentShown(m.agent);
    HeaderShown(m.header);
    DataSetsShown(m.dataSets, fmt);
    Four("{", agent, header, sets);
    Assoc("{", agent + (header + sets), "}");
    Assoc(agent, header + sets, "}");
    Assoc(header, sets, "}");
    MessageTreeShown(m, fmt);
    var k1, k2, k3 := J.Quoted("AgentID"), J.Quoted("Header"), J.Quoted("DataSets");
    var a, h, d := J.Quoted(m.agent), J.Show(HeaderTree(m.header)), J.Show(J.Arr(RecordItems(m.dataSets, fmt)));
    Assoc(k3, ":" + d, "}");
    Assoc(":", d, "}");
    Moved(k2, h, sets + "}");
    Moved(k1, a, header + (sets + "}"));
  }

  lemma Moved(k: string, v: string, rest: string)
    ensures (k + (":" + (v + ","))) + rest == k + (":" + (v + ("," + rest)))
  {
    Assoc(k, ":" + (v + ","), rest);
    Assoc(":", v + ",", rest);
    Assoc(v, ",", rest);
  }

  lemma MessageTreeShown(m: Message, fmt: Formatter)
    ensures J.Show(MessageTree(m, fmt))
         == "{" + Pair("AgentID", J.Quoted(m.agent), "," + Pair("Header", J.Show(HeaderTree(m.header)), ","
              + Pair("DataSets", J.Show(J.Arr(RecordItems(m.dataSets, fmt))), "}")))
  {
    hide J.Quoted, HeaderTree, RecordItems;
    var sets := J.Member("DataSets", J.Arr(RecordItems(m.dataSets, fmt)), J.NoMembers);
    var header := J.Member("Header", HeaderTree(m.header), sets);
    assert J.ShowMembers(sets) == J.Quoted("DataSets") + (":" + (J.Show(J.Arr(RecordItems(m.dataSets, fmt))) + "}"));
    assert J.ShowMembers(header) == Pair("Header", J.Show(HeaderTree(m.header)), "," + J.ShowMembers(sets));
    var agent := J.Member("AgentID", J.Str(m.agent), header);
    assert J.Show(J.Str(m.agent)) == J.Quoted(m.agent);
    assert J.ShowMembers(agent) == Pair("AgentID", J.Quoted(m.agent), "," + J.ShowMembers(header));
    assert J.Show(MessageTree(m, fmt)) == "{" + J.ShowMembers(agent);
  }

  // ---------- Parsing

  /** Every value has a text, whose characters need no escapes. */
  predicate PlainRecord(r: Record, fmt: Formatter)
    decreases |r|
  {
    r != [] ==> Printable(r[0].value) && J.Plain(ValueTree(r[0].value, fmt)) && PlainRecord(r[1..], fmt)
  }

  predicate PlainRecords(rs: seq<Record>, fmt: Formatter)
    decreases |rs|
  {
    rs != [] ==> PlainRecord(rs[0], fmt) && PlainRecords(rs[1..], fmt)
  }

  lemma {:induction false} PlainFields(r: Record, fmt: Formatter)
    requires PlainRecord(r, fmt)
    ensures AllPrintable(r) && J.PlainItems(FieldItems(r, fmt))
    decreases |r|
  {
    if r != [] {
      FieldPlain(r[0], fmt);
      PlainFields(r[1..], fmt);
    }
  }

  lemma MemberPlain(key: string, v: J.Value, tail: J.Members)
    requires J.PlainString(key) && J.Plain(v) && J.PlainMembers(tail)
    ensures J.PlainMembers(J.Member(key, v, tail))
    ensures J.Plain(J.Obj(J.Member(key, v, tail)))
  {
  }

  lemma NumberPlain(key: string, n: int, tail: J.Members)
    requires J.PlainString(key) && J.PlainMembers(tail)
    ensures J.PlainMembers(J.Member(key, J.Num(n), tail))
    ensures J.Plain(J.Obj(J.Member(key, J.Num(n), tail)))
  {
  }

  lemma FieldPlain(f: DecodedField, fmt: Formatter)
    requires J.Plain(ValueTree(f.value, fmt))
    ensures J.Plain(FieldTree(f, fmt))
  {
    hide ValueTree, J.PlainString, J.PlainMembers, J.Plain;
    PlainLetter('I');
    PlainLetter('V');
    PlainLetter('E');
    NoMembersPlain();
    NumberPlain("E", f.enterpriseNo, J.NoMembers);
    MemberPlain("V", ValueTree(f.value, fmt), EnterpriseTree(f.enterpriseNo));
    NumberPlain("I", f.id, J.Member("V", ValueTree(f.value, fmt), EnterpriseTree(f.enterpriseNo)));
  }

  lemma NoMembersPlain()
    ensures J.PlainMembers(J.NoMembers)
  {
  }

  lemma PlainLetter(c: char)
    requires J.Unescaped(c)
    ensures J.PlainString([c])
  {
    assert [c][1..] == [];
  }

  lemma {:induction false} PlainDataSets(rs: seq<Record>, fmt: Formatter)
    requires PlainRecords(rs, fmt)
    ensures AllRecordsPrintable(rs) && J.PlainItems(RecordItems(rs, fmt))
    decreases |rs|
  {
    hide PlainRecord, AllPrintable, FieldItems;
    if rs != [] {
      PlainFields(rs[0], fmt);
      PlainDataSets(rs[1..], fmt);
      assert J.Plain(J.Arr(FieldItems(rs[0], fmt)));
    }
  }

  /** Letters are plain, and so are texts made of them. */
  lemma {:induction false} PlainText(s: string)
    requires forall i | 0 <= i < |s| :: J.Unescaped(s[i])
    ensures J.PlainString(s)
    decreases |s|
  {
    if s != [] {
      PlainText(s[1..]);
    }
  }

  lemma HeaderPlain(h: Header)
    ensures J.Plain(HeaderTree(h))
  {
    hide J.PlainString, J.PlainMembers, J.Plain;
    PlainText("Version");
    PlainText("Length");
    PlainText("ExportTime");
    PlainText("SequenceNo");
    PlainText("DomainID");
    NoMembersPlain();
    var d := J.Member("DomainID", J.Num(h.domainId), J.NoMembers);
    NumberPlain("DomainID", h.domainId, J.NoMembers);
    var s := J.Member("SequenceNo", J.Num(h.sequenceNo), d);
    NumberPlain("SequenceNo", h.sequenceNo, d);
    var e := J.Member("ExportTime", J.Num(h.exportTime), s);
    NumberPlain("ExportTime", h.exportTime, s);
    NumberPlain("Length", h.length, e);
    NumberPlain("Version", h.version, J.Member("Length", J.Num(h.length), e));
  }

  lemma ArrayPlain(items: J.Items)
    requires J.PlainItems(items)
    ensures J.Plain(J.Arr(items))
  {
  }

  lemma StringPlain(s: string)
    requires J.PlainString(s)
    ensures J.Plain(J.Str(s))
  {
  }

  lemma MessagePlain(m: Message, fmt: Formatter)
    requires J.PlainString(m.agent) && J.PlainItems(RecordItems(m.dataSets, fmt))
    ensures J.Plain(MessageTree(m, fmt))
  {
    hide J.PlainString, J.PlainMembers, J.Plain, J.PlainItems, RecordItems, HeaderTree;
    PlainText("AgentID");
    PlainText("Header");
    PlainText("DataSets");
    HeaderPlain(m.header);
    ArrayPlain(RecordItems(m.dataSets, fmt));
    StringPlain(m.agent);
    NoMembersPlain();
    var sets := J.Member("DataSets", J.Arr(RecordItems(m.dataSets, fmt)), J.NoMembers);
    MemberPlain("DataSets", J.Arr(RecordItems(m.dataSets, fmt)), J.NoMembers);
    var header := J.Member("Header", HeaderTree(m.header), sets);
    MemberPlain("Header", HeaderTree(m.header), sets);
    MemberPlain("AgentID", J.Str(m.agent), header);
  }

  /** The printed message is a JSON text, of the message's JSON value. */
  lemma ParsesBack(m: Message, fmt: Formatter)
    requires J.PlainString(m.agent) && PlainRecords(m.dataSets, fmt)
    ensures J.ParseText(MessageText(m, fmt)) == Some(MessageTree(m, fmt))
  {
    hide PlainRecords, MessageText, MessageTree, J.PlainString, J.ParseText, J.Show, AllRecordsPrintable, RecordItems;
    PlainDataSets(m.dataSets, fmt);
    MessagePlain(m, fmt);
    MessageShown(m, fmt);
    J.ParseShown(MessageTree(m, fmt));
  }

  lemma {:induction false} FieldsPlainOnly(r: Record, fmt: Formatter)
    requires AllPrintable(r) && J.PlainItems(FieldItems(r, fmt))
    ensures PlainRecord(r, fmt)
    decreases |r|
  {
    hide ValueTree, Printable;
    if r != [] {
      FieldPlainOnly(r[0], fmt);
      FieldsPlainOnly(r[1..], fmt);
    }
  }

  lemma FieldPlainOnly(f: DecodedField, fmt: Formatter)
    requires J.Plain(FieldTree(f, fmt))
    ensures J.Plain(ValueTree(f.value, fmt))
  {
    hide ValueTree, J.PlainString;
    var v := J.Member("V", ValueTree(f.value, fmt), EnterpriseTree(f.enterpriseNo));
    assert J.PlainMembers(J.Member("I", J.Num(f.id), v));
    assert J.PlainMembers(v);
  }

  lemma {:induction false} RecordsPlainOnly(rs: seq<Record>, fmt: Formatter)
    requires AllRecordsPrintable(rs) && J.PlainItems(RecordItems(rs, fmt))
    ensures PlainRecords(rs, fmt)
    decreases |rs|
  {
    hide PlainRecord, AllPrintable, FieldItems;
    if rs != [] {
      assert J.Plain(J.Arr(FieldItems(rs[0], fmt)));
      FieldsPlainOnly(rs[0], fmt);
      RecordsPlainOnly(rs[1..], fmt);
    }
  }

  lemma MessagePlainOnly(m: Message, fmt: Formatter)
    requires J.Plain(MessageTree(m, fmt))
    ensures J.PlainString(m.agent) && J.PlainItems(RecordItems(m.dataSets, fmt))
  {
    hide J.PlainString, HeaderTree, RecordItems;
    var sets := J.Member("DataSets", J.Arr(RecordItems(m.dataSets, fmt)), J.NoMembers);
    var header := J.Member("Header", HeaderTree(m.header), sets);
    assert J.PlainMembers(J.Member("AgentID", J.Str(m.agent), header));
    assert J.Plain(J.Str(m.agent)) && J.PlainMembers(header);
    assert J.PlainMembers(sets);
    assert J.Plain(J.Arr(RecordItems(m.dataSets, fmt)));
  }

  /** The exact condition: for every message without booleans and floats, the printed
      text is a JSON text of the message's value if and only if the agent and all texts
      in it need no escapes, because writeValue prints them as they are. */
  lemma ParsesBackIff(m: Message, fmt: Formatter)
    requires AllRecordsPrintable(m.dataSets)
    ensures J.ParseText(MessageText(m, fmt)) == Some(MessageTree(m, fmt))
       <==> J.PlainString(m.agent) && PlainRecords(m.dataSets, fmt)
  {
    hide PlainRecords, MessageText, MessageTree, J.PlainString, J.ParseText, J.Show, J.Plain, AllRecordsPrintable, RecordItems;
    MessageShown(m, fmt);
    J.ParseShownIff(MessageTree(m, fmt));
    if J.Plain(MessageTree(m, fmt)) {
      MessagePlainOnly(m, fmt);
      RecordsPlainOnly(m.dataSets, fmt);
    } else if J.PlainString(m.agent) && PlainRecords(m.dataSets, fmt) {
      PlainDataSets(m.dataSets, fmt);
      MessagePlain(m, fmt);
    }
  }

  /** An input on which it fails: a text value of one quotation mark. */
  lemma QuoteBreaks(m: Message, fmt: Formatter, f: DecodedField)
    requires m.dataSets == [[f]] && f.value == Text(['"' as int])
    ensures J.ParseText(MessageText(m, fmt)) != Some(MessageTree(m, fmt))
  {
    hide MessageText, MessageTree, J.ParseText, J.PlainString;
    var rs, r := m.dataSets, [f];
    assert rs[1..] == [] && r[1..] == [];
    assert AllPrintable(r) && AllRecordsPrintable(rs);
    ParsesBackIff(m, fmt);
    assert !J.Plain(ValueTree(f.value, fmt)) by { QuoteNotPlain(); }
    assert !PlainRecord(r, fmt);
  }

  lemma QuoteNotPlain()
    ensures Chars(['"' as int]) == "\"" && !J.PlainString("\"")
  {
    assert ['"' as int][1..] == [];
  }
}
