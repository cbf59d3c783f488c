/** Decoding undoes exporting: whole IPFIX messages, with the templates that earlier
    sets of the same message announce. */
module IpfixRoundTrip {
  import opened Bytes
  import opened InfoModel
  import opened Ipfix
  import opened IpfixFraming
  import opened IpfixExport

  // ---------- Template records

  /** A field specifier comes back exactly when it is not an enterprise element with
      id 0, because the enterprise bit is tested with `> 0x8000`. */
  lemma FieldRoundTripIff(f: FieldSpec, b: bytes, p: nat)
    requires Encodable(f) && At(b, p, EncodeField(f))
    ensures ReadField(b, p) == Got(f, p + |EncodeField(f)|) <==> Readable(f)
  {
    if f.enterpriseNo == 0 {
      AtSplit(b, p, BE16(f.elementId), BE16(f.length));
      At16(b, p, f.elementId);
      At16(b, p + 2, f.length);
    } else {
      AtSplit(b, p, BE16(0x8000 + f.elementId) + BE16(f.length), BE32(f.enterpriseNo));
      AtSplit(b, p, BE16(0x8000 + f.elementId), BE16(f.length));
      At16(b, p, 0x8000 + f.elementId);
      At16(b, p + 2, f.length);
      At32(b, p + 4, f.enterpriseNo);
    }
  }

  /** The specifiers fs are read one after the other from p to q. */
  ghost predicate ReadsAs(fs: seq<FieldSpec>, b: bytes, p: nat, q: nat)
    requires p <= |b|
    decreases |fs|
  {
    if fs == [] then p == q
    else
      var r := ReadField(b, p);
      r.Got? && r.value == fs[0] && ReadsAs(fs[1..], b, r.pos, q)
  }

  lemma {:induction false} FieldsReadAs(fs: seq<FieldSpec>, b: bytes, p: nat)
    requires AllReadable(fs) && At(b, p, EncodeFields(fs))
    ensures ReadsAs(fs, b, p, p + |EncodeFields(fs)|)
    decreases |fs|
  {
    hide ReadField, EncodeField, At;
    if fs != [] {
      var first := EncodeField(fs[0]);
      AtSplit(b, p, first, EncodeFields(fs[1..]));
      FieldRoundTripIff(fs[0], b, p);
      FieldsReadAs(fs[1..], b, p + |first|);
    }
  }

  lemma {:induction false} ReadsAsRead(fs: seq<FieldSpec>, b: bytes, p: nat, q: nat)
    requires p <= |b| && ReadsAs(fs, b, p, q)
    ensures ReadFields(|fs|, b, p) == Got(fs, q)
    decreases |fs|
  {
    if fs != [] {
      ReadsAsRead(fs[1..], b, ReadField(b, p).pos, q);
      assert [fs[0]] + fs[1..] == fs;
    }
  }

  lemma TemplateRoundTrip(t: Template, b: bytes, p: nat)
    requires Exportable(t) && At(b, p, EncodeTemplate(t))
    ensures ReadTemplate(b, p) == Got(t, p + |EncodeTemplate(t)|)
    ensures U16(b, p) == t.id
  {
    hide ReadFields, EncodeFields, At, AllReadable;
    AtSplit(b, p, BE16(t.id) + BE16(t.fieldCount), EncodeFields(t.fields));
    AtSplit(b, p, BE16(t.id), BE16(t.fieldCount));
    At16(b, p, t.id);
    At16(b, p + 2, t.fieldCount);
    FieldsReadAs(t.fields, b, p + 4);
    ReadsAsRead(t.fields, b, p + 4, p + |EncodeTemplate(t)|);
  }

  lemma Number(b: bytes, p: nat, n: uint16, rest: bytes)
    requires At(b, p, BE16(n) + rest)
    ensures p + 2 + |rest| <= |b| && U16(b, p) == n && At(b, p + 2, rest)
  {
    AtSplit(b, p, BE16(n), rest);
    At16(b, p, n);
  }

  /** An options template is read with the last of its scope specifiers only. */
  lemma OptionsRead(t: Template, b: bytes, p: nat)
    requires ExportableOptions(t) && At(b, p, EncodeOptions(t))
    ensures ReadOptionsTemplate(b, p) == Got(Kept(t), p + |EncodeOptions(t)|)
    ensures U16(b, p) == t.id && |EncodeOptions(t)| >= 6
  {
    hide BE16, U16, At, EncodeFields, ReadFields, AllReadable, ReadsAs;
    var scope, fields := EncodeFields(t.scopeFields), EncodeFields(t.fields);
    Number(b, p, t.id, BE16(t.fieldCount) + (BE16(t.scopeFieldCount) + (scope + fields)));
    Number(b, p + 2, t.fieldCount, BE16(t.scopeFieldCount) + (scope + fields));
    Number(b, p + 4, t.scopeFieldCount, scope + fields);
    AtSplit(b, p + 6, scope, fields);
    FieldsReadAs(t.scopeFields, b, p + 6);
    ReadsAsRead(t.scopeFields, b, p + 6, p + 6 + |scope|);
    FieldsReadAs(t.fields, b, p + 6 + |scope|);
    ReadsAsRead(t.fields, b, p + 6 + |scope|, p + |EncodeOptions(t)|);
  }

  /** So it comes back if and only if it has at most one scope specifier. */
  lemma OptionsRoundTripIff(t: Template, b: bytes, p: nat)
    requires ExportableOptions(t) && At(b, p, EncodeOptions(t))
    ensures p <= |b| && (ReadOptionsTemplate(b, p) == Got(t, p + |EncodeOptions(t)|) <==> |t.scopeFields| <= 1)
  {
    hide ReadOptionsTemplate, EncodeOptions, ExportableOptions;
    OptionsRead(t, b, p);
    KeptIff(t);
  }

  lemma KeptIff(t: Template)
    ensures Kept(t) == t <==> |t.scopeFields| <= 1
  {
  }

  lemma TemplateExtent(t: Template)
    requires Exportable(t)
    ensures t.id != 0 && |EncodeTemplate(t)| >= 8
  {
  }

  /** In a set with the given id, the templates ts are read one after the other from p
      to q. */
  ghost predicate TemplatesReadAs(id: uint16, ts: seq<Template>, b: bytes, p: nat, q: nat)
    decreases |ts|
  {
    if ts == [] then p == q
    else
      && p + 4 < |b| && U16(b, p) != 0
      && var r := ReadAnyTemplate(id, b, p);
         r.Got? && r.value == ts[0] && TemplatesReadAs(id, ts[1..], b, r.pos, q)
  }

  lemma {:induction false} TemplatesAt(ts: seq<Template>, b: bytes, p: nat)
    requires AllExportable(ts) && At(b, p, EncodeTemplates(ts))
    ensures TemplatesReadAs(2, ts, b, p, p + |EncodeTemplates(ts)|)
    decreases |ts|
  {
    hide ReadTemplate, ReadOptionsTemplate, At, Exportable, EncodeTemplate, U16;
    if ts != [] {
      TemplateExtent(ts[0]);
      AtSplit(b, p, EncodeTemplate(ts[0]), EncodeTemplates(ts[1..]));
      TemplateRoundTrip(ts[0], b, p);
      TemplatesAt(ts[1..], b, p + |EncodeTemplate(ts[0])|);
    }
  }

  lemma {:induction false} OptionsAt(ts: seq<Template>, b: bytes, p: nat)
    requires AllExportableOptions(ts) && At(b, p, EncodeAllOptions(ts))
    ensures TemplatesReadAs(3, AllKept(ts), b, p, p + |EncodeAllOptions(ts)|)
    decreases |ts|
  {
    hide ReadTemplate, ReadOptionsTemplate, At, ExportableOptions, EncodeOptions, U16, Kept;
    if ts != [] {
      AtSplit(b, p, EncodeOptions(ts[0]), EncodeAllOptions(ts[1..]));
      OptionsRead(ts[0], b, p);
      OptionsAt(ts[1..], b, p + |EncodeOptions(ts[0])|);
      assert AllKept(ts)[1..] == AllKept(ts[1..]);
    }
  }

  lemma {:induction false} TemplatesReadAsOrder(id: uint16, ts: seq<Template>, b: bytes, p: nat, q: nat)
    requires TemplatesReadAs(id, ts, b, p, q)
    ensures p <= q
    decreases |ts|
  {
    hide ReadAnyTemplate, U16;
    if ts != [] {
      TemplatesReadAsOrder(id, ts[1..], b, ReadAnyTemplate(id, b, p).pos, q);
    }
  }

  /** The record loop comes to the end of the templates with all of them read. */
  lemma {:induction false} TemplatesLoop(id: uint16, ts: seq<Template>, length: uint16, start: nat, info: Elements,
                                         b: bytes, p: nat, q: nat)
    requires IsTemplateSet(id) && start <= p && TemplatesReadAs(id, ts, b, p, q) && q <= start + length <= |b|
    ensures p <= q
    ensures SetBody(id, length, start, NO_TEMPLATE, info, b, p)
         == SetBody(id, length, start, NO_TEMPLATE, info, b, q).After(ts, [])
    decreases |ts|
  {
    hide ReadAnyTemplate, U16;
    TemplatesReadAsOrder(id, ts, b, p, q);
    if ts == [] {
      NoneBefore(SetBody(id, length, start, NO_TEMPLATE, info, b, q));
    } else {
      var r := ReadAnyTemplate(id, b, p);
      TemplatesReadAsOrder(id, ts[1..], b, r.pos, q);
      TemplatesLoop(id, ts[1..], length, start, info, b, r.pos, q);
      OneBefore(SetBody(id, length, start, NO_TEMPLATE, info, b, q), ts, []);
    }
  }

  /** After the templates the loop ends, or reads past the end of the set. */
  lemma TemplatesEnd(id: uint16, length: uint16, start: nat, info: Elements, b: bytes, q: nat)
    requires IsTemplateSet(id) && start <= q <= start + length <= |b|
    ensures var s := SetBody(id, length, start, NO_TEMPLATE, info, b, q);
            if q == start + length || |b| - q <= 4 || U16(b, q) == 0 then s == Quiet(q) else s.pos >= q + 4
  {
    hide ReadAnyTemplate, U16;
  }

  // ---------- Data records

  lemma {:induction false} RowLength(row: Octets, fields: seq<FieldSpec>, scope: seq<FieldSpec>)
    requires Fills(row, fields, scope)
    ensures |EncodeRow(row)| == FieldsLength(fields) + FieldsLength(scope)
    decreases |row|
  {
    if row != [] {
      if fields != [] {
        RowLength(row[1..], fields[1..], scope);
      } else {
        RowLength(row[1..], [], scope[1..]);
      }
    }
  }

  lemma RecordExtent(row: Octets, t: Template)
    requires Fills(row, t.fields, t.scopeFields)
    ensures |EncodeRow(row)| == RecordLength(t)
  {
    RowLength(row, t.fields, t.scopeFields);
  }

  /** One field is decoded, and then the others. */
  lemma FieldShown(specs: seq<FieldSpec>, scope: bool, info: Elements, raw: bytes, b: bytes, p: nat)
    requires specs != [] && |raw| == specs[0].length && Known(specs, info) && At(b, p, raw)
    ensures p + |raw| <= |b| && Known(specs[1..], info)
    ensures var f := specs[0];
            match DecodeFields(specs[1..], scope, info, b, p + |raw|)
            case Bad(e, q) => DecodeFields(specs, scope, info, b, p) == Bad(e, q)
            case Row(fs, q) =>
              DecodeFields(specs, scope, info, b, p) == Row(ShownField(f, if scope then f.enterpriseNo else 0, info, raw) + fs, q)
  {
    hide Interpret;
    AtSlice(b, p, raw);
  }

  lemma {:induction false} ScopeShown(row: Octets, scope: seq<FieldSpec>, info: Elements, b: bytes, p: nat)
    requires Fills(row, [], scope) && Known(scope, info) && At(b, p, EncodeRow(row))
    ensures DecodeFields(scope, true, info, b, p) == Row(Shown([], scope, info, row), p + |EncodeRow(row)|)
    decreases |row|
  {
    hide At, ShownField, DecodeFields, Known;
    if row == [] {
      AtRest(b, p, EncodeRow(row));
      NoFields(true, info, b, p);
    } else {
      AtSplit(b, p, row[0], EncodeRow(row[1..]));
      FieldShown(scope, true, info, row[0], b, p);
      ScopeShown(row[1..], scope[1..], info, b, p + |row[0]|);
    }
  }

  lemma NoFields(scope: bool, info: Elements, b: bytes, p: nat)
    requires p <= |b|
    ensures DecodeFields([], scope, info, b, p) == Row([], p)
  {
  }

  /** The ordinary fields and then the scope fields of a record. */
  lemma {:induction false} RowRoundTrip(row: Octets, fields: seq<FieldSpec>, scope: seq<FieldSpec>, info: Elements, b: bytes, p: nat)
    requires Fills(row, fields, scope) && Known(fields, info) && Known(scope, info) && At(b, p, EncodeRow(row))
    ensures var first := DecodeFields(fields, false, info, b, p);
            && first.Row?
            && var second := DecodeFields(scope, true, info, b, first.pos);
               && second.Row? && second.pos == p + |EncodeRow(row)|
               && first.fields + second.fields == Shown(fields, scope, info, row)
    decreases |row|
  {
    hide At, ShownField, DecodeFields, Known;
    if fields == [] {
      AtRest(b, p, EncodeRow(row));
      NoFields(false, info, b, p);
      ScopeShown(row, scope, info, b, p);
      assert [] + Shown([], scope, info, row) == Shown([], scope, info, row);
    } else {
      AtSplit(b, p, row[0], EncodeRow(row[1..]));
      FieldShown(fields, false, info, row[0], b, p);
      RowRoundTrip(row[1..], fields[1..], scope, info, b, p + |row[0]|);
    }
  }

  lemma RecordRoundTrip(row: Octets, t: Template, info: Elements, b: bytes, p: nat)
    requires Fills(row, t.fields, t.scopeFields) && AllKnown(t, info) && At(b, p, EncodeRow(row))
    ensures DecodeRecord(t, info, b, p) == Row(Shown(t.fields, t.scopeFields, info, row), p + RecordLength(t))
  {
    hide DecodeFields, Known, Fills, Shown, EncodeRow, At, FieldsLength;
    RowRoundTrip(row, t.fields, t.scopeFields, info, b, p);
    RecordExtent(row, t);
  }

  /** The rows are read one after the other from p to q. */
  ghost predicate RowsReadAs(rows: seq<Octets>, t: Template, info: Elements, b: bytes, p: nat, q: nat)
    decreases |rows|
  {
    if rows == [] then p == q
    else
      && p < p + RecordLength(t) <= q <= |b|
      && DecodeRecord(t, info, b, p) == Row(Shown(t.fields, t.scopeFields, info, rows[0]), p + RecordLength(t))
      && RowsReadAs(rows[1..], t, info, b, p + RecordLength(t), q)
  }

  lemma {:induction false} RowsAt(rows: seq<Octets>, t: Template, info: Elements, b: bytes, p: nat)
    requires FitsTemplate(rows, t, info) && At(b, p, EncodeRows(rows))
    ensures RowsReadAs(rows, t, info, b, p, p + |EncodeRows(rows)|)
    decreases |rows|
  {
    hide DecodeRecord, Shown, RecordLength, At, EncodeRow, AllKnown, Fills;
    if rows != [] {
      AtSplit(b, p, EncodeRow(rows[0]), EncodeRows(rows[1..]));
      RecordExtent(rows[0], t);
      RecordRoundTrip(rows[0], t, info, b, p);
      RowsAt(rows[1..], t, info, b, p + RecordLength(t));
    }
  }

  /** The record loop comes to the end of the rows with all of them read. */
  lemma {:induction false} RowsLoop(rows: seq<Octets>, id: uint16, t: Template, length: uint16, start: nat, info: Elements, b: bytes, p: nat, q: nat)
    requires IsDataSet(id) && start <= p <= q <= start + length && q <= |b|
    requires RowsReadAs(rows, t, info, b, p, q)
    requires rows != [] ==> RecordLength(t) + |b| - q > 4
    ensures SetBody(id, length, start, t, info, b, p)
         == SetBody(id, length, start, t, info, b, q).After([], ShownRows(t, info, rows))
    decreases |rows|
  {
    hide DecodeRecord, Shown, RecordLength;
    if rows == [] {
      NoneBefore(SetBody(id, length, start, t, info, b, q));
    } else {
      RowsLoop(rows[1..], id, t, length, start, info, b, p + RecordLength(t), q);
      var shown := ShownRows(t, info, rows);
      assert shown[1..] == ShownRows(t, info, rows[1..]);
      OneBefore(SetBody(id, length, start, t, info, b, q), [], shown);
    }
  }

  lemma NoneBefore(s: SetResult)
    ensures s.After([], []) == s
  {
  }

  lemma OneBefore(s: SetResult, ts: seq<Template>, rs: seq<Record>)
    ensures ts != [] ==> s.After(ts[1..], rs).After([ts[0]], []) == s.After(ts, rs)
    ensures rs != [] ==> s.After(ts, rs[1..]).After([], [rs[0]]) == s.After(ts, rs)
  {
    if ts != [] {
      assert [ts[0]] + (ts[1..] + s.learned) == ts + s.learned;
      assert [] + (rs + s.records) == rs + s.records;
    }
    if rs != [] {
      assert [rs[0]] + (rs[1..] + s.records) == rs + s.records;
      assert [] + (ts + s.learned) == ts + s.learned;
    }
  }

  /** A record loop that runs into the tail of the datagram drops a row silently. */
  lemma {:induction false} RowsLoopShort(rows: seq<Octets>, id: uint16, t: Template, length: uint16, start: nat, info: Elements, b: bytes, p: nat, q: nat)
    requires IsDataSet(id) && start <= p <= q <= start + length <= |b|
    requires rows != [] && RowsReadAs(rows, t, info, b, p, q)
    requires RecordLength(t) + |b| - q <= 4
    ensures var s := SetBody(id, length, start, t, info, b, p);
            |s.records| < |rows| && s.learned == [] && s.error == None && !s.stuck && s.pos <= q
    decreases |rows|
  {
    hide DecodeRecord, Shown, RecordLength;
    if More(length, start, b, p) {
      if |rows| > 1 {
        RowsLoopShort(rows[1..], id, t, length, start, info, b, p + RecordLength(t), q);
      }
    }
  }

  /** At padding, with more than four bytes left of the datagram, the loop reads another
      record or reports an error. */
  lemma RowsEnd(id: uint16, t: Template, length: uint16, start: nat, info: Elements, b: bytes, q: nat)
    requires IsDataSet(id) && start <= q <= start + length <= |b|
    requires AllKnown(t, info) && RecordLength(t) > 0
    ensures var s := SetBody(id, length, start, t, info, b, q);
            && !s.stuck
            && if q == start + length || |b| - q <= 4 then s == Quiet(q) else s.records != [] || s.error != None
  {
    hide DecodeRecord, AllKnown, RecordLength;
    RecordTakes(t, info, b, q);
    BodyStuckIff(id, length, start, t, info, b, q);
  }

  lemma {:induction false} ShownRowsLength(t: Template, info: Elements, rows: seq<Octets>)
    ensures |ShownRows(t, info, rows)| == |rows|
    decreases |rows|
  {
    if rows != [] {
      ShownRowsLength(t, info, rows[1..]);
    }
  }

  // ---------- Sets

  lemma AtSet(s: Set, b: bytes, p: nat)
    requires 4 + |Contents(s)| <= 0xffff && At(b, p, EncodeSet(s))
    ensures |EncodeSet(s)| == 4 + |Contents(s)|
    ensures U16(b, p) == SetId(s) && U16(b, p + 2) == 4 + |Contents(s)|
    ensures At(b, p + 4, Contents(s))
  {
    AtSplit(b, p, BE16(SetId(s)) + BE16(4 + |Contents(s)|), Contents(s));
    AtSplit(b, p, BE16(SetId(s)), BE16(4 + |Contents(s)|));
    At16(b, p, SetId(s));
    At16(b, p + 2, 4 + |Contents(s)|);
  }

  /** The two octets that the loop looks at after the templates. */
  lemma TemplatePadding(padding: nat, b: bytes, q: nat)
    requires At(b, q, Zeros(padding)) && padding > 0 && |b| - q > 4
    ensures U16(b, q) == 0 <==> padding >= 2 || b[q + 1] == 0
  {
    AtIndex(b, q, Zeros(padding), 0);
    if padding >= 2 {
      assert Zeros(padding) == [0, 0] + Zeros(padding - 2);
      AtIndex(b, q, Zeros(padding), 1);
    }
    assert U16(b, q) == b[q + 1];
  }

  /** The templates of a set lie where the loop looks for them. */
  lemma AnnouncedAt(s: Set, b: bytes, p: nat)
    requires !s.DataSet? && At(b, p, Records(s))
    requires if s.TemplateSet? then AllExportable(s.templates) else AllExportableOptions(s.options)
    ensures IsTemplateSet(SetId(s)) && TemplatesReadAs(SetId(s), Announced(s), b, p, p + |Records(s)|)
  {
    hide EncodeTemplates, EncodeAllOptions, AllExportable, AllExportableOptions, TemplatesReadAs, AllKept;
    if s.TemplateSet? {
      TemplatesAt(s.templates, b, p);
    } else {
      OptionsAt(s.options, b, p);
    }
  }

  /** The body of a set of templates: all of them, or past the end of the set. */
  lemma TemplateSetBody(s: Set, info: Elements, b: bytes, p: nat)
    requires !s.DataSet? && 4 + |Contents(s)| <= 0xffff && At(b, p + 4, Contents(s))
    requires if s.TemplateSet? then AllExportable(s.templates) else AllExportableOptions(s.options)
    ensures p + 4 + |Contents(s)| <= |b|
    ensures var r := SetBody(SetId(s), 4 + |Contents(s)|, p, NO_TEMPLATE, info, b, p + 4);
            if Separable(s, b[p + 4 + |Contents(s)|..])
            then r == SetResult(p + 4 + |Records(s)|, Announced(s), [], None, false)
            else r.pos > p + 4 + |Contents(s)|
  {
    hide Records, AllExportable, AllExportableOptions, SetBody, TemplatesReadAs, Zeros, U16, Announced, SetId, IsTemplateSet;
    var q := p + 4 + |Records(s)|;
    AtSplit(b, p + 4, Records(s), Zeros(s.padding));
    AnnouncedAt(s, b, p + 4);
    TemplatesLoop(SetId(s), Announced(s), 4 + |Contents(s)|, p, info, b, p + 4, q);
    TemplatesEnd(SetId(s), 4 + |Contents(s)|, p, info, b, q);
    if s.padding > 0 && |b| - q > 4 {
      TemplatePadding(s.padding, b, q);
    }
    assert Announced(s) + [] == Announced(s);
  }

  /** The body of a data set: exactly its rows, too few rows, too many, or an error. */
  ghost predicate BodyAsExpected(s: SetResult, rows: seq<Octets>, padding: nat, t: Template, info: Elements, b: bytes, q: nat) {
    && !s.stuck
    && if rows != [] && RecordLength(t) + |b| - q <= 4
       then |s.records| < |rows| && s.learned == [] && s.error == None && s.pos <= q
       else if padding > 0 && |b| - q > 4 then |s.records| > |rows| || s.error != None
       else s == SetResult(q, [], ShownRows(t, info, rows), None, false)
  }

  lemma DataSetLoop(rows: seq<Octets>, padding: nat, id: uint16, t: Template, length: uint16, info: Elements, b: bytes, p: nat, q: nat)
    requires IsDataSet(id) && AllKnown(t, info) && RecordLength(t) > 0
    requires q + padding == p + length <= |b| && p + 4 <= q && RowsReadAs(rows, t, info, b, p + 4, q)
    ensures BodyAsExpected(SetBody(id, length, p, t, info, b, p + 4), rows, padding, t, info, b, q)
  {
    hide SetBody, RowsReadAs, AllKnown, RecordLength;
    if rows != [] && RecordLength(t) + |b| - q <= 4 {
      RowsLoopShort(rows, id, t, length, p, info, b, p + 4, q);
    } else {
      RowsLoop(rows, id, t, length, p, info, b, p + 4, q);
      RowsEnd(id, t, length, p, info, b, q);
      ShownRowsLength(t, info, rows);
      assert ShownRows(t, info, rows) + [] == ShownRows(t, info, rows);
    }
  }

  lemma DataSetBody(s: Set, t: Template, info: Elements, b: bytes, p: nat)
    requires s.DataSet? && IsDataSet(s.id) && FitsTemplate(s.rows, t, info) && 4 + |Contents(s)| <= 0xffff
    requires At(b, p + 4, Contents(s))
    ensures p + 4 + |Contents(s)| <= |b|
    ensures s.rows != [] ==> |EncodeRow(s.rows[0])| == RecordLength(t)
    ensures BodyAsExpected(SetBody(s.id, 4 + |Contents(s)|, p, t, info, b, p + 4), s.rows, s.padding, t, info, b, p + 4 + |EncodeRows(s.rows)|)
  {
    hide SetBody, AllKnown, RecordLength, Fills, EncodeRow, EncodeRows, BodyAsExpected, Zeros, RowsReadAs;
    AtSplit(b, p + 4, EncodeRows(s.rows), Zeros(s.padding));
    RowsAt(s.rows, t, info, b, p + 4);
    if s.rows != [] {
      RecordExtent(s.rows[0], t);
    }
    DataSetLoop(s.rows, s.padding, s.id, t, 4 + |Contents(s)|, info, b, p, p + 4 + |EncodeRows(s.rows)|);
  }

  lemma SetRoundTrip(s: Set, c: Templates, info: Elements, b: bytes, p: nat)
    requires CanExport(s, c, info) && At(b, p, EncodeSet(s)) && p + |EncodeSet(s)| <= |b|
    requires Separable(s, b[p + |EncodeSet(s)|..])
    ensures DecodeSet(c, info, b, p)
         == SetResult(p + |EncodeSet(s)|, Announced(s), ShownSet(s, c, info), None, false)
    ensures Miss(c, b, p) == None
  {
    hide SetBody, At, EncodeSet, EncodeTemplates, EncodeAllOptions, AllKept, EncodeRows, AllExportable, AllExportableOptions, ShownRows, EncodeRow, Zeros, AllKnown, AllFill, RecordLength;
    AtSet(s, b, p);
    if s.DataSet? {
      DataSetBody(s, c[s.id], info, b, p);
    } else {
      TemplateSetBody(s, info, b, p);
    }
  }

  /** One set is decoded to exactly its templates and records, without error, if and
      only if its records can be told from what comes after them. A last record in the
      ignored tail is lost; padding of a data set before more data is read as a record;
      a single octet of padding of a template set is read as part of a template, unless
      the next octet is zero too. */
  lemma SetRoundTripIff(s: Set, c: Templates, info: Elements, b: bytes, p: nat)
    requires CanExport(s, c, info) && At(b, p, EncodeSet(s)) && p + |EncodeSet(s)| <= |b|
    ensures DecodeSet(c, info, b, p)
         == SetResult(p + |EncodeSet(s)|, Announced(s), ShownSet(s, c, info), None, false)
       <==> Separable(s, b[p + |EncodeSet(s)|..])
  {
    hide SetBody, At, EncodeSet, EncodeTemplates, EncodeAllOptions, AllKept, EncodeRows, AllExportable, AllExportableOptions, ShownRows, EncodeRow, Zeros, AllKnown, AllFill, RecordLength;
    if Separable(s, b[p + |EncodeSet(s)|..]) {
      SetRoundTrip(s, c, info, b, p);
    } else if !s.DataSet? {
      AtSet(s, b, p);
      TemplateSetBody(s, info, b, p);
    } else {
      AtSet(s, b, p);
      DataSetBody(s, c[s.id], info, b, p);
      ShownRowsLength(c[s.id], info, s.rows);
    }
  }

  // ---------- Messages

  /** A run with the templates and records of earlier sets before it. */
  function Preceded(r: Run, ts: seq<Template>, rs: seq<Record>): Run {
    r.(learned := ts + r.learned, records := rs + r.records)
  }

  /** decodeSet at p yields the templates and records of set s and ends at q. */
  ghost predicate SetReadAs(s: Set, c: Templates, info: Elements, b: bytes, p: nat, q: nat) {
    && p + 4 <= q <= |b|
    && DecodeSet(c, info, b, p) == SetResult(q, Announced(s), ShownSet(s, c, info), None, false)
    && Miss(c, b, p) == None
    && (|b| - p <= 4 ==> Announced(s) == [] && ShownSet(s, c, info) == [])
  }

  ghost predicate SetsReadAs(ss: seq<Set>, c: Templates, info: Elements, b: bytes, p: nat, q: nat)
    decreases |ss|
  {
    if ss == [] then p == q
    else
      var m := p + |EncodeSet(ss[0])|;
      SetReadAs(ss[0], c, info, b, p, m) && SetsReadAs(ss[1..], InsertAll(c, Announced(ss[0])), info, b, m, q)
  }

  /** What is left at an occurrence is the occurrence and what comes after it. */
  lemma AtRest(b: bytes, p: nat, s: bytes)
    requires At(b, p, s)
    ensures p + |s| <= |b| && b[p..] == s + b[p + |s|..]
  {
    AtSlice(b, p, s);
    assert b[p..] == b[p..p + |s|] + b[p + |s|..];
  }

  lemma SetAt(s: Set, c: Templates, info: Elements, b: bytes, p: nat)
    requires CanExport(s, c, info) && At(b, p, EncodeSet(s)) && p + |EncodeSet(s)| <= |b|
    requires Separable(s, b[p + |EncodeSet(s)|..])
    ensures SetReadAs(s, c, info, b, p, p + |EncodeSet(s)|)
  {
    SetRoundTrip(s, c, info, b, p);
    if |b| - p <= 4 {
      EmptySet(s, c, info);
    }
  }

  lemma {:induction false} SetsAt(ss: seq<Set>, c: Templates, info: Elements, b: bytes, p: nat)
    requires CanExportAll(ss, c, info) && At(b, p, EncodeSets(ss)) && p + |EncodeSets(ss)| <= |b|
    requires AllSeparable(ss, b[p + |EncodeSets(ss)|..])
    ensures SetsReadAs(ss, c, info, b, p, p + |EncodeSets(ss)|)
    decreases |ss|
  {
    hide At, CanExport, EncodeSet, SetReadAs, Separable, InsertAll, Announced;
    if ss != [] {
      AtSplit(b, p, EncodeSet(ss[0]), EncodeSets(ss[1..]));
      AtRest(b, p + |EncodeSet(ss[0])|, EncodeSets(ss[1..]));
      SetAt(ss[0], c, info, b, p);
      SetsAt(ss[1..], InsertAll(c, Announced(ss[0])), info, b, p + |EncodeSet(ss[0])|);
    }
  }

  lemma NothingBefore(r: Run)
    ensures Preceded(r, [], []) == r && [] + r.errors == r.errors && [] + r.misses == r.misses
  {
  }

  lemma OneSet(rule: StopRule, s: Set, c: Templates, info: Elements, b: bytes, p: nat, q: nat)
    requires SetReadAs(s, c, info, b, p, q)
    ensures p <= q <= |b| && DecodeSets(rule, c, info, b, p)
         == Preceded(DecodeSets(rule, InsertAll(c, Announced(s)), info, b, q), Announced(s), ShownSet(s, c, info))
  {
    hide DecodeSet, Miss, ShownSet, InsertAll, Announced, Fatal;
    NothingBefore(DecodeSets(rule, InsertAll(c, Announced(s)), info, b, q));
  }

  lemma {:induction false} SetsReadAsRun(rule: StopRule, ss: seq<Set>, c: Templates, info: Elements, b: bytes, p: nat, q: nat)
    requires p <= |b| && SetsReadAs(ss, c, info, b, p, q)
    ensures q <= |b| && DecodeSets(rule, c, info, b, p)
         == Preceded(DecodeSets(rule, InsertAll(c, AnnouncedAll(ss)), info, b, q), AnnouncedAll(ss), ShownAll(ss, c, info))
    decreases |ss|
  {
    hide DecodeSets, SetReadAs, EncodeSet, ShownSet, Announced, Preceded;
    if ss == [] {
      Associate(DecodeSets(rule, c, info, b, p), [], [], [], []);
    } else {
      var c' := InsertAll(c, Announced(ss[0]));
      var m := p + |EncodeSet(ss[0])|;
      OneSet(rule, ss[0], c, info, b, p, m);
      SetsReadAsRun(rule, ss[1..], c', info, b, m, q);
      InsertAllAppend(c, Announced(ss[0]), AnnouncedAll(ss[1..]));
      Associate(DecodeSets(rule, InsertAll(c, AnnouncedAll(ss)), info, b, q),
                Announced(ss[0]), AnnouncedAll(ss[1..]), ShownSet(ss[0], c, info), ShownAll(ss[1..], c', info));
    }
  }

  lemma SetsRoundTrip(rule: StopRule, ss: seq<Set>, c: Templates, info: Elements, b: bytes, p: nat)
    requires CanExportAll(ss, c, info) && At(b, p, EncodeSets(ss)) && p + |EncodeSets(ss)| <= |b|
    requires AllSeparable(ss, b[p + |EncodeSets(ss)|..])
    ensures DecodeSets(rule, c, info, b, p)
         == Preceded(DecodeSets(rule, InsertAll(c, AnnouncedAll(ss)), info, b, p + |EncodeSets(ss)|),
                     AnnouncedAll(ss), ShownAll(ss, c, info))
  {
    hide DecodeSets, EncodeSets, AllSeparable, CanExportAll, AnnouncedAll, ShownAll, InsertAll, SetsReadAs;
    SetsAt(ss, c, info, b, p);
    SetsReadAsRun(rule, ss, c, info, b, p, p + |EncodeSets(ss)|);
  }

  lemma NoInserts(c: Templates)
    ensures InsertAll(c, []) == c
  {
  }

  lemma {:induction false} InsertAllAppend(c: Templates, ts: seq<Template>, us: seq<Template>)
    ensures InsertAll(c, ts + us) == InsertAll(InsertAll(c, ts), us)
    decreases |ts|
  {
    if ts == [] {
      assert ts + us == us;
    } else {
      assert (ts + us)[1..] == ts[1..] + us;
      InsertAllAppend(c[ts[0].id := ts[0]], ts[1..], us);
    }
  }

  lemma EmptySet(s: Set, c: Templates, info: Elements)
    requires CanExport(s, c, info) && |EncodeSet(s)| == 4
    ensures Announced(s) == [] && ShownSet(s, c, info) == []
  {
    if s.DataSet? && s.rows != [] {
      RecordExtent(s.rows[0], c[s.id]);
    }
  }

  lemma Associate(r: Run, ts: seq<Template>, us: seq<Template>, rs: seq<Record>, qs: seq<Record>)
    ensures Preceded(Preceded(r, us, qs), ts, rs) == Preceded(r, ts + us, rs + qs)
    ensures Preceded(r, [], []) == r
  {
    assert ts + (us + r.learned) == ts + us + r.learned;
    assert rs + (qs + r.records) == rs + qs + r.records;
  }

  lemma HeaderRoundTrip(h: Header, b: bytes)
    requires At(b, 0, EncodeHeader(h))
    ensures ReadHeader(b) == h
  {
    var v, l, e, s, d := BE16(h.version), BE16(h.length), BE32(h.exportTime), BE32(h.sequenceNo), BE32(h.domainId);
    AtSplit(b, 0, v + l + e + s, d);
    AtSplit(b, 0, v + l + e, s);
    AtSplit(b, 0, v + l, e);
    AtSplit(b, 0, v, l);
    At16(b, 0, h.version);
    At16(b, 2, h.length);
    At32(b, 4, h.exportTime);
    At32(b, 8, h.sequenceNo);
    At32(b, 12, h.domainId);
  }

  lemma AcceptedRun(rule: StopRule, h: Header, body: bytes, c: Templates, info: Elements)
    requires h.version == 10
    ensures var b := EncodeHeader(h) + body;
            At(b, 16, body) && Decode(rule, c, info, b) == Accepted(h, DecodeSets(rule, c, info, b, 16))
  {
    hide DecodeSets, ReadHeader, EncodeHeader;
    var b := EncodeHeader(h) + body;
    AtPart(b, 0, [], EncodeHeader(h), body);
    AtPart(b, 16, EncodeHeader(h), body, []);
    HeaderRoundTrip(h, b);
  }
}
