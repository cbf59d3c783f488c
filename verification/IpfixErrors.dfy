/** What Decode makes of messages that are cut off or malformed. */
module IpfixErrors {
  import opened Bytes
  import opened InfoModel
  import opened Ipfix
  import opened IpfixFraming
  import opened IpfixExport
  import opened IpfixRoundTrip
  import opened IpfixIsolation

  /** Decode rejects exactly messages of fewer than 16 bytes and other versions, and
      otherwise returns the header. */
  lemma RejectedIff(rule: StopRule, c: Templates, info: Elements, b: bytes)
    ensures Decode(rule, c, info, b) == Rejected(ReaderError) <==> |b| < 16
    ensures |b| >= 16 ==>
              var v := U16(b, 0);
              && (Decode(rule, c, info, b) == Rejected(BadVersion(v)) <==> v != 10)
              && (Decode(rule, c, info, b).Accepted? <==> v == 10)
  {
    hide DecodeSets;
  }

  /** A set whose header is cut off takes what there is of it in whole numbers. */
  lemma ShortSetHeader(c: Templates, info: Elements, b: bytes, p: nat)
    requires p <= |b| < p + 4
    ensures DecodeSet(c, info, b, p) == SetResult(if |b| - p < 2 then p else p + 2, [], [], Some(ReaderError), false)
  {
  }

  // ---------- Sets that end in a fatal error

  /** The rest of a message that starts with a set whose length is less than that of its
      header, or reaches past the end of the message: the error that it reports. */
  ghost function FatalAt(c: Templates, rest: bytes): Option<Error> {
    if |rest| <= 4 then None
    else if U16(rest, 2) < 4 then Some(UnexpectedEOF)
    else if U16(rest, 2) > |rest| && (4 <= U16(rest, 0) <= 255 || (U16(rest, 0) > 255 && U16(rest, 0) !in c))
    then Some(ReaderError)
    else None
  }

  lemma FatalSet(c: Templates, info: Elements, b: bytes, p: nat)
    requires p <= |b| && FatalAt(c, b[p..]).Some?
    ensures |b| - p > 4 && DecodeSet(c, info, b, p) == SetResult(p + 4, [], [], FatalAt(c, b[p..]), false)
    ensures Miss(c, b, p)
         == if U16(b, p + 2) >= 4 && U16(b, p) > 255 && U16(b, p) !in c then Some(U16(b, p)) else None
  {
    ReadAt(b, p);
    assert U16(b[p..], 2) == U16(b, p + 2);
    hide U16, DecodeRecord, ReadAnyTemplate;
  }

  /** As documented, such an error stops the decoding and is returned alone; as written,
      it is collected and the decoding goes on after the header of the set. */
  lemma FatalSetEnds(rule: StopRule, c: Templates, info: Elements, b: bytes, p: nat)
    requires p <= |b| && FatalAt(c, b[p..]).Some?
    ensures |b| - p > 4
    ensures var e, misses := FatalAt(c, b[p..]).value, Listed(Miss(c, b, p));
            var r := DecodeSets(AsWritten, c, info, b, p + 4);
            DecodeSets(rule, c, info, b, p)
            == if rule.AsDocumented? then Run([], [], [], misses, Stopped(e))
               else Run(r.learned, r.records, [e] + r.errors, misses + r.misses, r.end)
  {
    hide DecodeSet, Miss, U16, InsertAll;
    FatalSet(c, info, b, p);
    NoInserts(c);
    ErrorsAreFatal(c, b[p..]);
  }

  lemma ErrorsAreFatal(c: Templates, rest: bytes)
    ensures FatalAt(c, rest).Some? ==> Fatal(FatalAt(c, rest).value)
  {
    hide U16;
  }

  /** In a message, after any exported sets: what they gave stays, and then comes that
      error. As documented, Decode returns the error alone (see IpfixDecoder), while the
      templates learned before it remain in the cache. */
  lemma FatalMessage(rule: StopRule, h: Header, ss: seq<Set>, rest: bytes, c: Templates, info: Elements)
    requires h.version == 10 && CanExportAll(ss, c, info) && AllSeparable(ss, rest)
    requires FatalAt(InsertAll(c, AnnouncedAll(ss)), rest).Some?
    ensures var b := EncodeHeader(h) + (EncodeSets(ss) + rest);
            var r := Decode(rule, c, info, b);
            && r.Accepted? && r.header == h
            && AnnouncedAll(ss) <= r.run.learned && ShownAll(ss, c, info) <= r.run.records
            && var e := FatalAt(InsertAll(c, AnnouncedAll(ss)), rest).value;
               if rule.AsDocumented?
               then && r.run.learned == AnnouncedAll(ss) && r.run.records == ShownAll(ss, c, info)
                    && r.run.errors == [] && r.run.end == Stopped(e)
               else r.run.errors != [] && r.run.errors[0] == e
  {
    hide CanExportAll, AllSeparable, EncodeSets, InsertAll, AnnouncedAll, ShownAll, EncodeHeader, Decode, DecodeSets, At, FatalAt, Miss, U16;
    var b, q := EncodeHeader(h) + (EncodeSets(ss) + rest), 16 + |EncodeSets(ss)|;
    AcceptedRun(rule, h, EncodeSets(ss) + rest, c, info);
    AfterSets(rule, h, ss, rest, c, info);
    assert b[q..] == rest;
    FatalSetEnds(rule, InsertAll(c, AnnouncedAll(ss)), info, b, q);
  }

  // ---------- Data sets that are cut off

  /** A data set of which the message ends within a record, with more than four bytes of
      it there: the records before it are decoded, and a reader error is reported. */
  lemma CutDataSet(id: uint16, rows: seq<Octets>, c: Templates, info: Elements, b: bytes, p: nat)
    requires 256 <= id && id in c && FitsTemplate(rows, c[id], info) && p + 4 <= |b| && U16(b, p) == id
    requires At(b, p + 4, EncodeRows(rows))
    requires var q := p + 4 + |EncodeRows(rows)|;
             q + 4 < |b| < q + RecordLength(c[id]) && q + RecordLength(c[id]) <= p + U16(b, p + 2)
    ensures var s := DecodeSet(c, info, b, p);
            && s.records == ShownRows(c[id], info, rows) && s.learned == [] && !s.stuck
            && s.error == Some(ReaderError)
  {
    hide U16, SetBody, RowsReadAs, AllKnown, RecordLength, AllFill, EncodeRows, At, ShownRows, Wrap16;
    var t, q := c[id], p + 4 + |EncodeRows(rows)|;
    RowsAt(rows, t, info, b, p + 4);
    RowsLoop(rows, id, t, U16(b, p + 2), p, info, b, p + 4, q);
    CutRecord(id, t, U16(b, p + 2), p, info, b, q);
    assert ShownRows(t, info, rows) + [] == ShownRows(t, info, rows);
  }

  lemma CutRecord(id: uint16, t: Template, length: uint16, start: nat, info: Elements, b: bytes, q: nat)
    requires IsDataSet(id) && AllKnown(t, info) && start <= q && q + 4 < |b| < q + RecordLength(t) <= start + length
    ensures var s := SetBody(id, length, start, t, info, b, q);
            s.error == Some(ReaderError) && s.records == [] && s.learned == [] && !s.stuck && s.pos < start + length
  {
    hide DecodeRecord;
    CutRecordFails(t, info, b, q);
  }

  /** Known fields, but not the bytes for all of them. */
  lemma {:induction false} CutFields(specs: seq<FieldSpec>, scope: bool, info: Elements, b: bytes, p: nat)
    requires Known(specs, info) && p <= |b| < p + FieldsLength(specs)
    ensures var r := DecodeFields(specs, scope, info, b, p);
            r.Bad? && r.error == ReaderError
    decreases |specs|
  {
    if |b| - p >= specs[0].length {
      KnownTail(specs, info);
      CutFields(specs[1..], scope, info, b, p + specs[0].length);
    }
  }

  lemma CutRecordFails(t: Template, info: Elements, b: bytes, p: nat)
    requires AllKnown(t, info) && p <= |b| < p + RecordLength(t)
    ensures var r := DecodeRecord(t, info, b, p);
            r.Bad? && r.error == ReaderError
  {
    hide DecodeFields, FieldsLength, Known;
    if |b| < p + FieldsLength(t.fields) {
      CutFields(t.fields, false, info, b, p);
    } else {
      FieldsTake(t.fields, false, info, b, p);
      CutFields(t.scopeFields, true, info, b, p + FieldsLength(t.fields));
    }
  }

  // ---------- Template sets never report a template that cannot be read

  lemma {:induction false} TemplateLoopSilent(id: uint16, length: uint16, start: nat, t: Template, info: Elements, b: bytes, p: nat)
    requires IsTemplateSet(id) && start <= p <= |b|
    ensures var s := SetBody(id, length, start, t, info, b, p);
            s.error == None && s.records == [] && !s.stuck
    decreases |b| - p
  {
    hide ReadAnyTemplate, U16, Wrap16;
    if More(length, start, b, p) && U16(b, p) != 0 {
      TemplateLoopSilent(id, length, start, t, info, b, ReadAnyTemplate(id, b, p).pos);
    }
  }

  /** The error of a template record is lost in a variable of its own. In a message of at
      most 65535 bytes a set of templates that ends within it reports an error if and only
      if its records run past its end. */
  lemma TemplateErrorIff(c: Templates, info: Elements, b: bytes, p: nat)
    requires p + 4 <= |b| <= 0xffff && IsTemplateSet(U16(b, p)) && 4 <= U16(b, p + 2) && p + U16(b, p + 2) <= |b|
    ensures var s := DecodeSet(c, info, b, p);
            && s.records == [] && !s.stuck
            && (s.error == None || s.error == Some(ReaderError))
            && (s.error != None <==> SetContents(c, info, b, p).pos > p + U16(b, p + 2))
  {
    hide U16, SetBody;
    TemplateLoopSilent(U16(b, p), U16(b, p + 2), p, NO_TEMPLATE, info, b, p + 4);
  }
}
