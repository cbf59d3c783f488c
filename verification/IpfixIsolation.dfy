/** Error isolation: a set that the decoder cannot use changes nothing but the
    errors, whatever bytes follow it. */
module IpfixIsolation {
  import opened Bytes
  import opened InfoModel
  import opened Ipfix
  import opened IpfixFraming
  import opened IpfixExport
  import opened IpfixRoundTrip

  // ---------- Decoding depends on the bytes that are left, not on the position

  ghost predicate SameRest(b: bytes, p: nat, b': bytes, p': nat) {
    p <= |b| && p' <= |b'| && b[p..] == b'[p'..]
  }

  lemma RestLength(b: bytes, p: nat, b': bytes, p': nat)
    requires SameRest(b, p, b', p')
    ensures p <= |b| && p' <= |b'| && |b| - p == |b'| - p'
  {
    assert |b[p..]| == |b'[p'..]|;
  }

  lemma RestAdvance(b: bytes, p: nat, b': bytes, p': nat, n: nat)
    requires SameRest(b, p, b', p') && n <= |b| - p
    ensures |b| - p == |b'| - p' && SameRest(b, p + n, b', p' + n)
  {
    assert |b[p..]| == |b'[p'..]|;
    assert b[p + n..] == b[p..][n..];
    assert b'[p' + n..] == b'[p'..][n..];
  }

  lemma RestByte(b: bytes, p: nat, b': bytes, p': nat, i: nat)
    requires SameRest(b, p, b', p') && i < |b| - p
    ensures i < |b'| - p' && b[p + i] == b'[p' + i]
  {
    assert |b[p..]| == |b'[p'..]|;
    assert b[p..][i] == b'[p'..][i];
  }

  lemma RestNumbers(b: bytes, p: nat, b': bytes, p': nat, i: nat)
    requires SameRest(b, p, b', p')
    ensures i + 2 <= |b| - p ==> i + 2 <= |b'| - p' && U16(b, p + i) == U16(b', p' + i)
    ensures i + 4 <= |b| - p ==> i + 4 <= |b'| - p' && U32(b, p + i) == U32(b', p' + i)
  {
    hide SameRest, Join;
    if i + 2 <= |b| - p {
      RestByte(b, p, b', p', i);
      RestByte(b, p, b', p', i + 1);
    }
    if i + 4 <= |b| - p {
      RestByte(b, p, b', p', i + 2);
      RestByte(b, p, b', p', i + 3);
    }
  }

  lemma RestSlice(b: bytes, p: nat, b': bytes, p': nat, n: nat)
    requires SameRest(b, p, b', p') && n <= |b| - p
    ensures n <= |b'| - p' && b[p..p + n] == b'[p'..p' + n]
  {
    assert |b[p..]| == |b'[p'..]|;
    assert b[p..p + n] == b[p..][..n];
    assert b'[p'..p' + n] == b'[p'..][..n];
  }

  /** The same parse, read at another position. */
  ghost predicate SameParse<T>(r: Parse<T>, p: nat, r': Parse<T>, p': nat) {
    && r.Got? == r'.Got?
    && (r.Got? ==> r.value == r'.value)
    && r.pos - p == r'.pos - p'
  }

  lemma FieldElsewhere(b: bytes, p: nat, b': bytes, p': nat)
    requires SameRest(b, p, b', p')
    ensures SameParse(ReadField(b, p), p, ReadField(b', p'), p')
  {
    hide SameRest, U16, U32;
    RestLength(b, p, b', p');
    RestNumbers(b, p, b', p', 0);
    RestNumbers(b, p, b', p', 2);
    RestNumbers(b, p, b', p', 4);
  }

  lemma {:induction false} FieldsElsewhere(n: nat, b: bytes, p: nat, b': bytes, p': nat)
    requires SameRest(b, p, b', p')
    ensures SameParse(ReadFields(n, b, p), p, ReadFields(n, b', p'), p')
  {
    hide SameRest, ReadField;
    if n > 0 {
      FieldElsewhere(b, p, b', p');
      var r := ReadField(b, p);
      if r.Got? {
        RestAdvance(b, p, b', p', r.pos - p);
        FieldsElsewhere(n - 1, b, r.pos, b', ReadField(b', p').pos);
      }
    }
  }

  lemma TemplateElsewhere(b: bytes, p: nat, b': bytes, p': nat)
    requires SameRest(b, p, b', p')
    ensures SameParse(ReadTemplate(b, p), p, ReadTemplate(b', p'), p')
  {
    hide SameRest, ReadFields, U16;
    RestLength(b, p, b', p');
    if |b| - p >= 4 {
      RestNumbers(b, p, b', p', 0);
      RestNumbers(b, p, b', p', 2);
      RestAdvance(b, p, b', p', 4);
      FieldsElsewhere(U16(b, p + 2), b, p + 4, b', p' + 4);
    }
  }

  lemma OptionsElsewhere(b: bytes, p: nat, b': bytes, p': nat)
    requires SameRest(b, p, b', p')
    ensures SameParse(ReadOptionsTemplate(b, p), p, ReadOptionsTemplate(b', p'), p')
  {
    hide SameRest, ReadFields, U16, LastOnly;
    RestLength(b, p, b', p');
    if |b| - p >= 6 {
      RestNumbers(b, p, b', p', 0);
      RestNumbers(b, p, b', p', 2);
      RestNumbers(b, p, b', p', 4);
      RestAdvance(b, p, b', p', 6);
      var count, scopeCount := U16(b, p + 2), U16(b, p + 4);
      FieldsElsewhere(scopeCount, b, p + 6, b', p' + 6);
      var r := ReadFields(scopeCount, b, p + 6);
      if r.Got? {
        RestAdvance(b, p, b', p', r.pos - p);
        FieldsElsewhere(Sub16(count, scopeCount), b, r.pos, b', ReadFields(scopeCount, b', p' + 6).pos);
      }
    }
  }

  ghost predicate SameRow(r: Row, p: nat, r': Row, p': nat) {
    && r.pos - p == r'.pos - p'
    && r.Row? == r'.Row?
    && (if r.Row? then r.fields == r'.fields else r.error == r'.error)
  }

  lemma {:induction false} RowElsewhere(specs: seq<FieldSpec>, scope: bool, info: Elements, b: bytes, p: nat, b': bytes, p': nat)
    requires SameRest(b, p, b', p')
    ensures SameRow(DecodeFields(specs, scope, info, b, p), p, DecodeFields(specs, scope, info, b', p'), p')
    decreases |specs|
  {
    hide SameRest, Decoded;
    RestLength(b, p, b', p');
    if specs != [] && specs[0].length <= |b| - p {
      RestSlice(b, p, b', p', specs[0].length);
      RestAdvance(b, p, b', p', specs[0].length);
      RowElsewhere(specs[1..], scope, info, b, p + specs[0].length, b', p' + specs[0].length);
    }
  }

  lemma RecordElsewhere(t: Template, info: Elements, b: bytes, p: nat, b': bytes, p': nat)
    requires SameRest(b, p, b', p')
    ensures SameRow(DecodeRecord(t, info, b, p), p, DecodeRecord(t, info, b', p'), p')
  {
    hide SameRest, DecodeFields;
    RowElsewhere(t.fields, false, info, b, p, b', p');
    var r := DecodeFields(t.fields, false, info, b, p);
    if r.Row? {
      RestAdvance(b, p, b', p', r.pos - p);
      RowElsewhere(t.scopeFields, true, info, b, r.pos, b', DecodeFields(t.fields, false, info, b', p').pos);
    }
  }

  ghost predicate SameSet(s: SetResult, p: nat, s': SetResult, p': nat) {
    s.pos - p == s'.pos - p' && s' == s.(pos := s'.pos)
  }

  /** One turn of the record loop reads the same. */
  lemma TurnElsewhere(id: uint16, length: uint16, start: nat, t: Template, info: Elements,
                      b: bytes, p: nat, start': nat, b': bytes, p': nat)
    requires start <= p && start' <= p' && p - start == p' - start' && SameRest(b, p, b', p')
    ensures p <= |b| && p' <= |b'| && (More(length, start, b, p) <==> More(length, start', b', p'))
    ensures More(length, start, b, p) ==> U16(b, p) == U16(b', p')
    ensures SameParse(ReadAnyTemplate(id, b, p), p, ReadAnyTemplate(id, b', p'), p')
    ensures SameRow(DecodeRecord(t, info, b, p), p, DecodeRecord(t, info, b', p'), p')
  {
    hide SameRest, DecodeRecord, ReadAnyTemplate, U16, Wrap16, SameParse, SameRow;
    RestLength(b, p, b', p');
    RestNumbers(b, p, b', p', 0);
    AnyTemplateElsewhere(id, b, p, b', p');
    RecordElsewhere(t, info, b, p, b', p');
  }

  lemma SameAfter(s: SetResult, p: nat, s': SetResult, p': nat, q: nat, q': nat, ts: seq<Template>, rs: seq<Record>)
    requires SameSet(s, q, s', q') && q - p == q' - p'
    ensures SameSet(s.After(ts, rs), p, s'.After(ts, rs), p') && SameSet(s, p, s', p')
  {
  }

  lemma {:induction false} BodyElsewhere(id: uint16, length: uint16, start: nat, t: Template, info: Elements,
                                         b: bytes, p: nat, start': nat, b': bytes, p': nat)
    requires start <= p && start' <= p' && p - start == p' - start' && SameRest(b, p, b', p')
    ensures SameSet(SetBody(id, length, start, t, info, b, p), p, SetBody(id, length, start', t, info, b', p'), p')
    decreases |b| - p
  {
    hide SameRest, DecodeRecord, ReadAnyTemplate, U16, More;
    TurnElsewhere(id, length, start, t, info, b, p, start', b', p');
    if More(length, start, b, p) {
      RoomLeft(length, start, b, p);
      if IsTemplateSet(id) {
        if U16(b, p) != 0 {
          var r, r' := ReadAnyTemplate(id, b, p), ReadAnyTemplate(id, b', p');
          RestAdvance(b, p, b', p', r.pos - p);
          BodyElsewhere(id, length, start, t, info, b, r.pos, start', b', r'.pos);
          SameAfter(SetBody(id, length, start, t, info, b, r.pos), p, SetBody(id, length, start', t, info, b', r'.pos), p',
                    r.pos, r'.pos, if r.Got? then [r.value] else [], []);
        }
      } else if !IsReservedSet(id) {
        var r, r' := DecodeRecord(t, info, b, p), DecodeRecord(t, info, b', p');
        if r.Row? && r.pos != p {
          RestAdvance(b, p, b', p', r.pos - p);
          BodyElsewhere(id, length, start, t, info, b, r.pos, start', b', r'.pos);
          SameAfter(SetBody(id, length, start, t, info, b, r.pos), p, SetBody(id, length, start', t, info, b', r'.pos), p',
                    r.pos, r'.pos, [], [r.fields]);
        }
      }
    }
  }

  lemma RoomLeft(length: uint16, start: nat, b: bytes, p: nat)
    requires start <= p <= |b| && More(length, start, b, p)
    ensures |b| - p > 4
  {
  }

  lemma AnyTemplateElsewhere(id: uint16, b: bytes, p: nat, b': bytes, p': nat)
    requires SameRest(b, p, b', p')
    ensures SameParse(ReadAnyTemplate(id, b, p), p, ReadAnyTemplate(id, b', p'), p')
  {
    hide SameRest, ReadTemplate, ReadOptionsTemplate;
    if id == 2 {
      TemplateElsewhere(b, p, b', p');
    } else {
      OptionsElsewhere(b, p, b', p');
    }
  }

  lemma ContentsElsewhere(c: Templates, info: Elements, b: bytes, p: nat, b': bytes, p': nat)
    requires SameRest(b, p, b', p') && p + 4 <= |b|
    ensures p' + 4 <= |b'| && SameSet(SetContents(c, info, b, p), p, SetContents(c, info, b', p'), p')
  {
    hide SameRest, SetBody, U16;
    RestLength(b, p, b', p');
    RestNumbers(b, p, b', p', 0);
    RestNumbers(b, p, b', p', 2);
    RestAdvance(b, p, b', p', 4);
    var t := TemplateFor(c, U16(b, p));
    if t.Some? {
      BodyElsewhere(U16(b, p), U16(b, p + 2), p, t.value, info, b, p + 4, p', b', p' + 4);
    }
  }

  lemma SetElsewhere(c: Templates, info: Elements, b: bytes, p: nat, b': bytes, p': nat)
    requires SameRest(b, p, b', p')
    ensures SameSet(DecodeSet(c, info, b, p), p, DecodeSet(c, info, b', p'), p')
    ensures Miss(c, b, p) == Miss(c, b', p')
  {
    hide SameRest, SetContents, U16, Wrap16;
    RestLength(b, p, b', p');
    if |b| - p >= 4 {
      RestNumbers(b, p, b', p', 0);
      RestNumbers(b, p, b', p', 2);
      ContentsElsewhere(c, info, b, p, b', p');
    }
  }

  /** Whatever precedes it, the same rest of a message is decoded the same way. */
  lemma {:induction false} SetsElsewhere(rule: StopRule, c: Templates, info: Elements, b: bytes, p: nat, b': bytes, p': nat)
    requires SameRest(b, p, b', p')
    ensures DecodeSets(rule, c, info, b, p) == DecodeSets(rule, c, info, b', p')
    decreases |b| - p
  {
    hide SameRest, DecodeSet, Miss, InsertAll;
    RestLength(b, p, b', p');
    if |b| - p > 4 {
      SetElsewhere(c, info, b, p, b', p');
      var s, s' := DecodeSet(c, info, b, p), DecodeSet(c, info, b', p');
      if !s.stuck && !Stops(rule, s) {
        RestAdvance(b, p, b', p', s.pos - p);
        SetsElsewhere(rule, InsertAll(c, s.learned), info, b, s.pos, b', s'.pos);
      }
    }
  }

  // ---------- Records that cannot be decoded

  predicate IsKnownElement(f: FieldSpec, info: Elements) {
    ElementKey(f.enterpriseNo, f.elementId) in info
  }

  /** The specifiers of a record in the order in which its fields are read. */
  function Specs(t: Template): seq<FieldSpec> {
    t.fields + t.scopeFields
  }

  /** How a field loop ends at specifier k, if those before it are known and fit: with a
      reader error where the field does not fit, with an unknown element, of which the
      bytes have been taken, otherwise. */
  function Refusal(specs: seq<FieldSpec>, k: nat, b: bytes, p: nat): Row
    requires k < |specs|
  {
    var q := p + FieldsLength(specs[..k]);
    if q + specs[k].length > |b| then Bad(ReaderError, q)
    else Bad(UnknownElement(specs[k].elementId), q + specs[k].length)
  }

  /** Specifier k is the first one that stops the decoding. */
  predicate Refuses(specs: seq<FieldSpec>, k: nat, info: Elements, b: bytes, p: nat) {
    && k < |specs| && Known(specs[..k], info) && p + FieldsLength(specs[..k]) <= |b|
    && (p + FieldsLength(specs[..k]) + specs[k].length > |b| || !IsKnownElement(specs[k], info))
  }

  lemma KnownTail(specs: seq<FieldSpec>, info: Elements)
    requires specs != [] && Known(specs, info)
    ensures Known(specs[1..], info)
  {
    forall i | 0 <= i < |specs[1..]|
      ensures ElementKey(specs[1..][i].enterpriseNo, specs[1..][i].elementId) in info
    {
      assert specs[1..][i] == specs[i + 1];
    }
  }

  lemma {:induction false} FieldsRefused(specs: seq<FieldSpec>, k: nat, scope: bool, info: Elements, b: bytes, p: nat)
    requires p <= |b| && Refuses(specs, k, info, b, p)
    ensures DecodeFields(specs, scope, info, b, p) == Refusal(specs, k, b, p)
    decreases |specs|
  {
    if k > 0 {
      var n := specs[0].length;
      assert specs[..k][1..] == specs[1..][..k - 1];
      assert IsKnownElement(specs[..k][0], info);
      KnownTail(specs[..k], info);
      FieldsRefused(specs[1..], k - 1, scope, info, b, p + n);
    }
  }

  lemma {:induction false} LengthAppend(xs: seq<FieldSpec>, ys: seq<FieldSpec>)
    ensures FieldsLength(xs + ys) == FieldsLength(xs) + FieldsLength(ys)
    decreases |xs|
  {
    if xs == [] {
      assert xs + ys == ys;
    } else {
      assert (xs + ys)[1..] == xs[1..] + ys;
      LengthAppend(xs[1..], ys);
    }
  }

  lemma KnownPrefix(specs: seq<FieldSpec>, xs: seq<FieldSpec>, info: Elements)
    requires Known(specs + xs, info)
    ensures Known(specs, info) && Known(xs, info)
  {
    assert forall i | 0 <= i < |specs| :: (specs + xs)[i] == specs[i];
    assert forall i | 0 <= i < |xs| :: (specs + xs)[|specs| + i] == xs[i];
  }

  /** A record whose fields cannot all be read fails with the error of the first that
      cannot, in the order of ordinary and then scope fields. */
  lemma RecordRefused(t: Template, k: nat, info: Elements, b: bytes, p: nat)
    requires p <= |b| && Refuses(Specs(t), k, info, b, p)
    ensures DecodeRecord(t, info, b, p) == Refusal(Specs(t), k, b, p)
  {
    hide DecodeFields, Known, FieldsLength, IsKnownElement;
    var n := |t.fields|;
    if k < n {
      assert Specs(t)[..k] == t.fields[..k];
      FieldsRefused(t.fields, k, false, info, b, p);
    } else {
      assert Specs(t)[..k] == t.fields + t.scopeFields[..k - n];
      LengthAppend(t.fields, t.scopeFields[..k - n]);
      KnownPrefix(t.fields, t.scopeFields[..k - n], info);
      FieldsTake(t.fields, false, info, b, p);
      var q := p + FieldsLength(t.fields);
      FieldsRefused(t.scopeFields, k - n, true, info, b, q);
    }
  }

  // ---------- A set that cannot be used

  /** The template t cannot be used for a set with the given octets of contents: its
      specifier k is the first unknown one, and the set has the bytes for it. */
  predicate LacksElement(t: Template, k: nat, info: Elements, contents: nat) {
    && k < |Specs(t)| && Known(Specs(t)[..k], info) && !IsKnownElement(Specs(t)[k], info)
    && FieldsLength(Specs(t)[..k]) + Specs(t)[k].length <= contents && contents > 4
  }

  /** Why a set cannot be used: a reserved id, an unknown template, or an unknown element
      in its template. */
  datatype Fault = Reserved | NoTemplate | NoElement(k: nat)

  /** The set at p ends within b, is five bytes or more and cannot be used. */
  ghost predicate Unusable(f: Fault, c: Templates, info: Elements, b: bytes, p: nat) {
    && p + 4 <= |b|
    && 5 <= U16(b, p + 2) && p + U16(b, p + 2) <= |b|
    && var id := U16(b, p);
       match f
       case Reserved => 4 <= id <= 255
       case NoTemplate => id > 255 && id !in c
       case NoElement(k) => id > 255 && id in c && LacksElement(c[id], k, info, U16(b, p + 2) - 4)
  }

  /** The error that it leaves behind. */
  function FaultError(f: Fault, c: Templates, id: uint16): Option<Error> {
    match f
    case Reserved => None
    case NoTemplate => Some(UnknownTemplate(id))
    case NoElement(k) => if id in c && k < |Specs(c[id])| then Some(UnknownElement(Specs(c[id])[k].elementId)) else None
  }

  /** The run with the error and the request that such a set leaves behind. */
  function Reporting(r: Run, f: Fault, c: Templates, id: uint16): Run {
    r.(errors := Listed(FaultError(f, c, id)) + r.errors, misses := (if f.NoTemplate? then [id] else []) + r.misses)
  }

  lemma UnusableIsSkipped(rule: StopRule, f: Fault, c: Templates, info: Elements, b: bytes, p: nat)
    requires Unusable(f, c, info, b, p)
    ensures DecodeSets(rule, c, info, b, p)
         == Reporting(DecodeSets(rule, c, info, b, p + U16(b, p + 2)), f, c, U16(b, p))
  {
    hide U16, InsertAll, DecodeSet, Miss, LacksElement, FaultError;
    UnusableSet(f, c, info, b, p);
    FaultNotFatal(f, c, U16(b, p));
    NoInserts(c);
  }

  lemma FaultNotFatal(f: Fault, c: Templates, id: uint16)
    ensures FaultError(f, c, id).Some? ==> !Fatal(FaultError(f, c, id).value)
  {
  }

  lemma UnusableSet(f: Fault, c: Templates, info: Elements, b: bytes, p: nat)
    requires Unusable(f, c, info, b, p)
    ensures var id := U16(b, p);
            && DecodeSet(c, info, b, p) == SetResult(p + U16(b, p + 2), [], [], FaultError(f, c, id), false)
            && Miss(c, b, p) == (if f.NoTemplate? then Some(id) else None)
  {
    hide U16, DecodeRecord, ReadAnyTemplate, Known, FieldsLength, IsKnownElement;
    if f.NoElement? {
      var t, q := c[U16(b, p)], p + 4;
      var n := FieldsLength(Specs(t)[..f.k]) + Specs(t)[f.k].length;
      RecordRefused(t, f.k, info, b, q);
      assert DecodeRecord(t, info, b, q) == Bad(UnknownElement(Specs(t)[f.k].elementId), q + n);
    }
  }

  /** An unusable set anywhere in a message, after exported sets and before arbitrary
      bytes, changes neither the records nor the templates: it adds one error when its
      template or an element of it is unknown, one request in the first of these cases,
      and nothing when its id is reserved. */
  lemma Isolation(rule: StopRule, h: Header, ss: seq<Set>, f: Fault, bad: bytes, rest: bytes, c: Templates, info: Elements)
    requires h.version == 10 && CanExportAll(ss, c, info)
    requires AllSeparable(ss, rest) && AllSeparable(ss, bad + rest)
    requires Unusable(f, InsertAll(c, AnnouncedAll(ss)), info, bad, 0) && U16(bad, 2) == |bad|
    ensures exists r ::
              && Decode(rule, c, info, EncodeHeader(h) + (EncodeSets(ss) + rest)) == Accepted(h, r)
              && Decode(rule, c, info, EncodeHeader(h) + (EncodeSets(ss) + (bad + rest)))
                 == Accepted(h, Reporting(r, f, InsertAll(c, AnnouncedAll(ss)), U16(bad, 0)))
  {
    hide CanExportAll, AllSeparable, EncodeSets, InsertAll, AnnouncedAll, ShownAll, EncodeHeader, Decode, DecodeSets, Preceded, Reporting, U16, At;
    var body, body' := EncodeSets(ss) + rest, EncodeSets(ss) + (bad + rest);
    AcceptedRun(rule, h, body, c, info);
    AcceptedRun(rule, h, body', c, info);
    AfterSets(rule, h, ss, rest, c, info);
    AfterSets(rule, h, ss, bad + rest, c, info);
    var c' := InsertAll(c, AnnouncedAll(ss));
    SkipBad(rule, h, EncodeSets(ss), f, bad, rest, c', info);
    var q := 16 + |EncodeSets(ss)|;
    ReportingFirst(DecodeSets(rule, c', info, EncodeHeader(h) + body, q), AnnouncedAll(ss), ShownAll(ss, c, info), f, c', U16(bad, 0));
  }

  lemma AfterSets(rule: StopRule, h: Header, ss: seq<Set>, rest: bytes, c: Templates, info: Elements)
    requires CanExportAll(ss, c, info) && AllSeparable(ss, rest)
    ensures var b := EncodeHeader(h) + (EncodeSets(ss) + rest);
            && 16 + |EncodeSets(ss)| <= |b|
            && DecodeSets(rule, c, info, b, 16)
            == Preceded(DecodeSets(rule, InsertAll(c, AnnouncedAll(ss)), info, b, 16 + |EncodeSets(ss)|),
                        AnnouncedAll(ss), ShownAll(ss, c, info))
  {
    hide CanExportAll, AllSeparable, EncodeSets, InsertAll, AnnouncedAll, ShownAll, EncodeHeader, DecodeSets, Preceded;
    var b := EncodeHeader(h) + (EncodeSets(ss) + rest);
    assert b == EncodeHeader(h) + EncodeSets(ss) + rest;
    AtPart(b, 16, EncodeHeader(h), EncodeSets(ss), rest);
    assert b[16 + |EncodeSets(ss)|..] == rest;
    hide At;
    SetsRoundTrip(rule, ss, c, info, b, 16);
  }

  /** For unpadded sets the second premise of Isolation follows from the first. */
  lemma {:induction false} SeparableMore(ss: seq<Set>, rest: bytes, more: bytes)
    requires AllUnpadded(ss) && AllSeparable(ss, rest) && |rest| <= |more|
    ensures AllSeparable(ss, more)
    decreases |ss|
  {
    hide EncodeSets, EncodeRow;
    if ss != [] {
      SeparableMore(ss[1..], rest, more);
    }
  }

  lemma SkipBad(rule: StopRule, h: Header, front: bytes, f: Fault, bad: bytes, rest: bytes, c: Templates, info: Elements)
    requires Unusable(f, c, info, bad, 0) && U16(bad, 2) == |bad|
    ensures var q := 16 + |front|;
            DecodeSets(rule, c, info, EncodeHeader(h) + (front + (bad + rest)), q)
            == Reporting(DecodeSets(rule, c, info, EncodeHeader(h) + (front + rest), q), f, c, U16(bad, 0))
  {
    hide EncodeHeader, DecodeSets, Reporting, U16, SameRest, LacksElement;
    var q := 16 + |front|;
    var b, b' := EncodeHeader(h) + (front + rest), EncodeHeader(h) + (front + (bad + rest));
    BadAt(EncodeHeader(h), front, bad, rest);
    UnusableIsSkipped(rule, f, c, info, b', q);
    SetsElsewhere(rule, c, info, b', q + |bad|, b, q);
  }

  lemma BadAt(head: bytes, front: bytes, bad: bytes, rest: bytes)
    requires |bad| >= 5 && U16(bad, 2) == |bad|
    ensures var q := |head| + |front|;
            var b, b' := head + (front + rest), head + (front + (bad + rest));
            && q + |bad| <= |b'| && U16(b', q) == U16(bad, 0) && U16(b', q + 2) == U16(bad, 2)
            && SameRest(b', q + |bad|, b, q)
  {
    hide Join;
    var q := |head| + |front|;
    var b, b' := head + (front + rest), head + (front + (bad + rest));
    assert forall i | 0 <= i < 4 :: b'[q + i] == bad[i];
    assert b'[q + |bad|..] == rest;
    assert b[q..] == rest;
  }

  lemma ReportingFirst(r: Run, ts: seq<Template>, rs: seq<Record>, f: Fault, c: Templates, id: uint16)
    ensures Preceded(Reporting(r, f, c, id), ts, rs) == Reporting(Preceded(r, ts, rs), f, c, id)
  {
  }
}
