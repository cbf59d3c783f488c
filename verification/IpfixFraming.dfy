/** What every message does to the IPFIX decoder: where the cursor ends, when the
    decoder never returns, and how much it can produce. */
module IpfixFraming {
  import opened Bytes
  import opened InfoModel
  import opened Ipfix

  // ---------- Framing

  lemma SkipFraming(length: uint16, start: nat, b: bytes, s: SetResult)
    requires |b| <= 0xffff && start <= s.pos <= |b| && !s.stuck
    ensures var r := SkipRest(length, start, b, s);
            (r.error.Some? ==> !Fatal(r.error.value)) ==> r.pos == start + length
    ensures s.pos > start + length ==> SkipRest(length, start, b, s).error == Some(ReaderError)
  {
  }

  /** In a buffer of at most 65535 bytes, a set that ends without error or with an
      unknown template or element leaves the cursor exactly `Length` bytes after
      the set's start, whatever its records did. */
  lemma SetFraming(c: Templates, info: Elements, b: bytes, p: nat)
    requires p + 4 <= |b| <= 0xffff
    ensures var s := DecodeSet(c, info, b, p);
            !s.stuck && (s.error.Some? ==> !Fatal(s.error.value)) ==> s.pos == p + U16(b, p + 2)
  {
    var s := SetContents(c, info, b, p);
    if !s.stuck {
      SkipFraming(U16(b, p + 2), p, b, s);
    }
  }

  /** A set whose records run past its end always reports a reader error: the
      16-bit leftover count wraps to more than the buffer still holds. */
  lemma OverrunIsReported(c: Templates, info: Elements, b: bytes, p: nat)
    requires p + 4 <= |b| <= 0xffff && 4 <= U16(b, p + 2)
    requires var s := SetContents(c, info, b, p);
             !s.stuck && s.pos > p + U16(b, p + 2)
    ensures DecodeSet(c, info, b, p).error == Some(ReaderError)
  {
    SkipFraming(U16(b, p + 2), p, b, SetContents(c, info, b, p));
  }

  /** The bytes of a set are counted modulo 2^16: beyond the largest datagram the record
      loop goes on as it did 65536 bytes before. */
  lemma CountWraps(length: uint16, start: nat, b: bytes, p: nat)
    requires start <= p && p + 0x1_0000 <= |b|
    ensures More(length, start, b, p + 0x1_0000) <==> length > (p - start) % 0x1_0000 && |b| - p > 0x1_0004
  {
    Wrap16IsMod(p - start);
  }

  // ---------- Termination

  function FieldsLength(specs: seq<FieldSpec>): nat
    decreases |specs|
  {
    if specs == [] then 0 else specs[0].length + FieldsLength(specs[1..])
  }

  function RecordLength(t: Template): nat {
    FieldsLength(t.fields) + FieldsLength(t.scopeFields)
  }

  predicate Known(specs: seq<FieldSpec>, info: Elements) {
    forall i | 0 <= i < |specs| :: ElementKey(specs[i].enterpriseNo, specs[i].elementId) in info
  }

  predicate AllKnown(t: Template, info: Elements) {
    Known(t.fields, info) && Known(t.scopeFields, info)
  }

  /** Records of t are read without taking a byte. */
  predicate TakesNothing(t: Template, info: Elements) {
    AllKnown(t, info) && RecordLength(t) == 0
  }

  lemma {:induction false} FieldsTake(specs: seq<FieldSpec>, scope: bool, info: Elements, b: bytes, p: nat)
    requires p <= |b|
    ensures var row := DecodeFields(specs, scope, info, b, p);
            && (row.Row? ==> Known(specs, info) && row.pos == p + FieldsLength(specs))
            && (Known(specs, info) && p + FieldsLength(specs) <= |b| ==> row.Row?)
    decreases |specs|
  {
    if specs != [] && |b| - p >= specs[0].length {
      FieldsTake(specs[1..], scope, info, b, p + specs[0].length);
      assert Known(specs, info) <==>
        ElementKey(specs[0].enterpriseNo, specs[0].elementId) in info && Known(specs[1..], info);
    }
  }

  /** A record is read exactly when its elements are known and its bytes are there,
      and it takes the template's record length. */
  lemma RecordTakes(t: Template, info: Elements, b: bytes, p: nat)
    requires p <= |b|
    ensures var row := DecodeRecord(t, info, b, p);
            && (row.Row? <==> AllKnown(t, info) && p + RecordLength(t) <= |b|)
            && (row.Row? ==> row.pos == p + RecordLength(t))
  {
    FieldsTake(t.fields, false, info, b, p);
    var row := DecodeFields(t.fields, false, info, b, p);
    if row.Row? {
      FieldsTake(t.scopeFields, true, info, b, row.pos);
    }
  }

  lemma {:induction false} BodyStuckIff(id: uint16, length: uint16, start: nat, t: Template, info: Elements, b: bytes, p: nat)
    requires start <= p <= |b|
    ensures SetBody(id, length, start, t, info, b, p).stuck <==>
              More(length, start, b, p) && IsDataSet(id) && TakesNothing(t, info)
    decreases |b| - p
  {
    if More(length, start, b, p) {
      if IsTemplateSet(id) && U16(b, p) != 0 {
        BodyStuckIff(id, length, start, t, info, b, ReadAnyTemplate(id, b, p).pos);
      } else if IsDataSet(id) {
        RecordTakes(t, info, b, p);
        var row := DecodeRecord(t, info, b, p);
        if row.Row? && row.pos > p {
          BodyStuckIff(id, length, start, t, info, b, row.pos);
        }
      }
    }
  }

  predicate ReadsNothing(c: Templates, info: Elements, id: uint16) {
    match TemplateFor(c, id)
    case None => false
    case Some(t) => IsDataSet(id) && TakesNothing(t, info)
  }

  /** What makes decodeSet loop for ever at p: a data set with room for a record,
      read with a template whose records take no bytes. Set ids 0 and 1 are read
      with the empty template. */
  predicate NeverEnds(c: Templates, info: Elements, b: bytes, p: nat) {
    |b| - p > 8 && U16(b, p + 2) > 4 && ReadsNothing(c, info, U16(b, p))
  }

  lemma ContentsStuckIff(c: Templates, info: Elements, b: bytes, p: nat)
    requires p + 4 <= |b|
    ensures SetContents(c, info, b, p).stuck <==> NeverEnds(c, info, b, p)
  {
    match TemplateFor(c, U16(b, p))
    case None =>
    case Some(t) =>
      BodyStuckIff(U16(b, p), U16(b, p + 2), p, t, info, b, p + 4);
  }

  lemma SetStuckIff(c: Templates, info: Elements, b: bytes, p: nat)
    requires p <= |b|
    ensures DecodeSet(c, info, b, p).stuck <==> NeverEnds(c, info, b, p)
  {
    if |b| - p >= 4 {
      ContentsStuckIff(c, info, b, p);
    }
  }

  /** The templates and positions with which Decode calls decodeSet. */
  function Visits(rule: StopRule, c: Templates, info: Elements, b: bytes, p: nat): seq<(Templates, nat)>
    requires p <= |b|
    decreases |b| - p
  {
    if |b| - p <= 4 then []
    else
      var s := DecodeSet(c, info, b, p);
      [(c, p)] +
      if s.stuck || Stops(rule, s) then [] else Visits(rule, InsertAll(c, s.learned), info, b, s.pos)
  }

  ghost predicate SomeNeverEnds(vs: seq<(Templates, nat)>, info: Elements, b: bytes) {
    exists i | 0 <= i < |vs| :: NeverEnds(vs[i].0, info, b, vs[i].1)
  }

  lemma SomeNeverEndsCons(v: (Templates, nat), vs: seq<(Templates, nat)>, info: Elements, b: bytes)
    ensures SomeNeverEnds([v] + vs, info, b) <==> NeverEnds(v.0, info, b, v.1) || SomeNeverEnds(vs, info, b)
  {
    var all := [v] + vs;
    assert all[0] == v;
    if i :| 0 <= i < |vs| && NeverEnds(vs[i].0, info, b, vs[i].1) {
      assert all[i + 1] == vs[i];
    }
  }

  /** Decode returns unless it reaches a set that never ends. */
  lemma {:induction false} DecodeStuckIff(rule: StopRule, c: Templates, info: Elements, b: bytes, p: nat)
    requires p <= |b|
    ensures DecodeSets(rule, c, info, b, p).end.Stuck? <==> SomeNeverEnds(Visits(rule, c, info, b, p), info, b)
    decreases |b| - p
  {
    if |b| - p > 4 {
      var s := DecodeSet(c, info, b, p);
      SetStuckIff(c, info, b, p);
      if s.stuck || Stops(rule, s) {
        SomeNeverEndsCons((c, p), [], info, b);
      } else {
        var c' := InsertAll(c, s.learned);
        DecodeStuckIff(rule, c', info, b, s.pos);
        SomeNeverEndsCons((c, p), Visits(rule, c', info, b, s.pos), info, b);
      }
    }
  }

  /** An input on which Decode never returns, whatever the cache: a set with id 0
      or 1 and at least five bytes of contents. */
  lemma ZeroIdNeverEnds(rule: StopRule, c: Templates, info: Elements, b: bytes, p: nat)
    requires |b| - p > 8 && U16(b, p) <= 1 && U16(b, p + 2) > 4
    ensures DecodeSets(rule, c, info, b, p).end == Stuck
  {
    SetStuckIff(c, info, b, p);
  }

  // ---------- Work

  lemma {:induction false} BodyWork(id: uint16, length: uint16, start: nat, t: Template, info: Elements, b: bytes, p: nat)
    requires start <= p <= |b|
    ensures var s := SetBody(id, length, start, t, info, b, p);
            |s.records| + 4 * |s.learned| <= s.pos - p
    decreases |b| - p
  {
    if More(length, start, b, p) {
      if IsTemplateSet(id) && U16(b, p) != 0 {
        BodyWork(id, length, start, t, info, b, ReadAnyTemplate(id, b, p).pos);
      } else if IsDataSet(id) {
        var row := DecodeRecord(t, info, b, p);
        if row.Row? && row.pos > p {
          BodyWork(id, length, start, t, info, b, row.pos);
        }
      }
    }
  }

  lemma SetWork(c: Templates, info: Elements, b: bytes, p: nat)
    requires p + 4 <= |b|
    ensures var s := DecodeSet(c, info, b, p);
            4 + |s.records| + 4 * |s.learned| <= s.pos - p
  {
    match TemplateFor(c, U16(b, p))
    case None =>
    case Some(t) =>
      BodyWork(U16(b, p), U16(b, p + 2), p, t, info, b, p + 4);
  }

  /** Every record costs a byte of input, every template and every error four, and
      at most a quarter as many sets are started as there are bytes. */
  lemma {:induction false} DecodeWork(rule: StopRule, c: Templates, info: Elements, b: bytes, p: nat)
    requires p <= |b|
    ensures var r := DecodeSets(rule, c, info, b, p);
            |r.records| + 4 * |r.learned| + 4 * |r.errors| <= |b| - p
    ensures 4 * |Visits(rule, c, info, b, p)| <= |b| - p
    decreases |b| - p
  {
    if |b| - p > 4 {
      var s := DecodeSet(c, info, b, p);
      SetWork(c, info, b, p);
      if !s.stuck && !Stops(rule, s) {
        DecodeWork(rule, InsertAll(c, s.learned), info, b, s.pos);
      }
    }
  }
}
