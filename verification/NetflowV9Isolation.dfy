/** Error isolation for NetFlow v9: a FlowSet that the decoder cannot use changes nothing
    but the errors, whatever bytes follow it. */
module NetflowV9Isolation {
  import opened Bytes
  import opened InfoModel
  import opened Ipfix
  import opened IpfixFraming
  import opened IpfixIsolation
  import opened NetflowV9
  import opened NetflowV9RoundTrip
  import IpfixRoundTrip

  // ---------- Decoding depends on the bytes that are left, not on the position

  lemma SpecElsewhere(b: bytes, p: nat, b': bytes, p': nat)
    requires SameRest(b, p, b', p')
    ensures SameParse(ReadSpec(b, p), p, ReadSpec(b', p'), p')
  {
    hide SameRest, U16;
    RestLength(b, p, b', p');
    RestNumbers(b, p, b', p', 0);
    RestNumbers(b, p, b', p', 2);
  }

  lemma {:induction false} SpecsElsewhere(n: nat, b: bytes, p: nat, b': bytes, p': nat)
    requires SameRest(b, p, b', p')
    ensures SameParse(ReadSpecs(n, b, p), p, ReadSpecs(n, b', p'), p')
  {
    hide SameRest, ReadSpec;
    if n > 0 {
      SpecElsewhere(b, p, b', p');
      var r := ReadSpec(b, p);
      if r.Got? {
        RestAdvance(b, p, b', p', r.pos - p);
        SpecsElsewhere(n - 1, b, r.pos, b', ReadSpec(b', p').pos);
      }
    }
  }

  lemma RecordTemplateElsewhere(b: bytes, p: nat, b': bytes, p': nat)
    requires SameRest(b, p, b', p')
    ensures SameParse(ReadRecord(b, p), p, ReadRecord(b', p'), p')
  {
    hide SameRest, ReadSpecs, U16;
    RestLength(b, p, b', p');
    if |b| - p >= 4 {
      RestNumbers(b, p, b', p', 0);
      RestNumbers(b, p, b', p', 2);
      RestAdvance(b, p, b', p', 4);
      SpecsElsewhere(U16(b, p + 2), b, p + 4, b', p' + 4);
    }
  }

  lemma OptionsRecordElsewhere(b: bytes, p: nat, b': bytes, p': nat)
    requires SameRest(b, p, b', p')
    ensures SameParse(ReadOptions(b, p), p, ReadOptions(b', p'), p')
  {
    hide SameRest, ReadSpecs, U16, LastOnly;
    RestLength(b, p, b', p');
    if |b| - p >= 6 {
      RestNumbers(b, p, b', p', 0);
      RestNumbers(b, p, b', p', 2);
      RestNumbers(b, p, b', p', 4);
      RestAdvance(b, p, b', p', 6);
      var n, m := U16(b, p + 2) / 4, U16(b, p + 4) / 4;
      SpecsElsewhere(n, b, p + 6, b', p' + 6);
      var r := ReadSpecs(n, b, p + 6);
      if r.Got? {
        RestAdvance(b, p, b', p', r.pos - p);
        SpecsElsewhere(m, b, r.pos, b', ReadSpecs(n, b', p' + 6).pos);
      }
    }
  }

  lemma AnyRecordElsewhere(id: uint16, b: bytes, p: nat, b': bytes, p': nat)
    requires SameRest(b, p, b', p')
    ensures SameParse(ReadAnyRecord(id, b, p), p, ReadAnyRecord(id, b', p'), p')
  {
    hide SameRest, ReadRecord, ReadOptions;
    if id == 0 {
      RecordTemplateElsewhere(b, p, b', p');
    } else {
      OptionsRecordElsewhere(b, p, b', p');
    }
  }

  lemma {:induction false} FlowSetBodyElsewhere(id: uint16, length: uint16, start: nat, t: Template, info: Elements,
                                                b: bytes, p: nat, start': nat, b': bytes, p': nat)
    requires start <= p && start' <= p' && p - start == p' - start' && SameRest(b, p, b', p')
    ensures SameSet(FlowSetBody(id, length, start, t, info, b, p), p, FlowSetBody(id, length, start', t, info, b', p'), p')
    decreases |b| - p
  {
    hide SameRest, DecodeRecord, ReadAnyRecord;
    RestLength(b, p, b', p');
    if MoreRecords(length, start, b, p) {
      if id <= 1 {
        AnyRecordElsewhere(id, b, p, b', p');
        var r, r' := ReadAnyRecord(id, b, p), ReadAnyRecord(id, b', p');
        if r.Got? {
          RestAdvance(b, p, b', p', r.pos - p);
          FlowSetBodyElsewhere(id, length, start, t, info, b, r.pos, start', b', r'.pos);
          SameAfter(FlowSetBody(id, length, start, t, info, b, r.pos), p,
                    FlowSetBody(id, length, start', t, info, b', r'.pos), p', r.pos, r'.pos, [r.value], []);
        }
      } else if !IsReservedSet(id) {
        RecordElsewhere(t, info, b, p, b', p');
        var r, r' := DecodeRecord(t, info, b, p), DecodeRecord(t, info, b', p');
        if r.Row? && r.pos != p {
          RestAdvance(b, p, b', p', r.pos - p);
          FlowSetBodyElsewhere(id, length, start, t, info, b, r.pos, start', b', r'.pos);
          SameAfter(FlowSetBody(id, length, start, t, info, b, r.pos), p,
                    FlowSetBody(id, length, start', t, info, b', r'.pos), p', r.pos, r'.pos, [], [r.fields]);
        }
      }
    }
  }

  lemma FlowContentsElsewhere(c: Templates, info: Elements, b: bytes, p: nat, b': bytes, p': nat)
    requires SameRest(b, p, b', p') && p + 4 <= |b|
    ensures p' + 4 <= |b'| && SameSet(FlowSetContents(c, info, b, p), p, FlowSetContents(c, info, b', p'), p')
  {
    hide SameRest, FlowSetBody, U16;
    RestLength(b, p, b', p');
    RestNumbers(b, p, b', p', 0);
    RestNumbers(b, p, b', p', 2);
    RestAdvance(b, p, b', p', 4);
    var t := TemplateFor(c, U16(b, p));
    if t.Some? {
      FlowSetBodyElsewhere(U16(b, p), U16(b, p + 2), p, t.value, info, b, p + 4, p', b', p' + 4);
    }
  }

  lemma FlowSetElsewhere(c: Templates, info: Elements, b: bytes, p: nat, b': bytes, p': nat)
    requires SameRest(b, p, b', p')
    ensures SameSet(DecodeFlowSet(c, info, b, p), p, DecodeFlowSet(c, info, b', p'), p')
    ensures HeaderAt(b, p) == HeaderAt(b', p')
  {
    hide SameRest, FlowSetContents, U16;
    RestLength(b, p, b', p');
    if |b| - p >= 4 {
      RestNumbers(b, p, b', p', 0);
      RestNumbers(b, p, b', p', 2);
      FlowContentsElsewhere(c, info, b, p, b', p');
    }
  }

  /** Whatever precedes it, the same rest of a packet is decoded the same way. */
  lemma {:induction false} FlowSetsElsewhere(rule: StopRule, c: Templates, info: Elements, b: bytes, p: nat, b': bytes, p': nat)
    requires SameRest(b, p, b', p')
    ensures DecodeFlowSets(rule, c, info, b, p) == DecodeFlowSets(rule, c, info, b', p')
    decreases |b| - p
  {
    hide SameRest, DecodeFlowSet, HeaderAt, InsertAll, Tag;
    RestLength(b, p, b', p');
    if |b| - p > 4 {
      FlowSetElsewhere(c, info, b, p, b', p');
      var s, s' := DecodeFlowSet(c, info, b, p), DecodeFlowSet(c, info, b', p');
      if !s.stuck && !Stops(rule, s) {
        RestAdvance(b, p, b', p', s.pos - p);
        FlowSetsElsewhere(rule, InsertAll(c, s.learned), info, b, s.pos, b', s'.pos);
      }
    }
  }

  // ---------- A FlowSet that cannot be used

  /** The FlowSet at p ends within b, is five bytes or more and cannot be used. */
  ghost predicate UnusableFlowSet(f: Fault, c: Templates, info: Elements, b: bytes, p: nat) {
    && p + 4 <= |b|
    && 5 <= U16(b, p + 2) && p + U16(b, p + 2) <= |b|
    && var id := U16(b, p);
       match f
       case Reserved => 4 <= id <= 255
       case NoTemplate => id > 255 && id !in c
       case NoElement(k) => id > 255 && id in c && LacksElement(c[id], k, info, U16(b, p + 2) - 4)
  }

  /** The run with the error that such a FlowSet leaves behind. */
  function FlowReporting(r: FlowRun, f: Fault, c: Templates, id: uint16): FlowRun {
    r.(errors := Listed(FaultError(f, c, id)) + r.errors)
  }

  lemma UnusableFlowSetAlone(f: Fault, c: Templates, info: Elements, b: bytes, p: nat)
    requires UnusableFlowSet(f, c, info, b, p)
    ensures DecodeFlowSet(c, info, b, p) == SetResult(p + U16(b, p + 2), [], [], FaultError(f, c, U16(b, p)), false)
  {
    hide U16, DecodeRecord, ReadAnyRecord, Known, FieldsLength, IsKnownElement;
    if f.NoElement? {
      var t, q := c[U16(b, p)], p + 4;
      var n := FieldsLength(Specs(t)[..f.k]) + Specs(t)[f.k].length;
      RecordRefused(t, f.k, info, b, q);
      assert DecodeRecord(t, info, b, q) == Bad(UnknownElement(Specs(t)[f.k].elementId), q + n);
    }
  }

  lemma UnusableFlowSetIsSkipped(rule: StopRule, f: Fault, c: Templates, info: Elements, b: bytes, p: nat)
    requires UnusableFlowSet(f, c, info, b, p)
    ensures DecodeFlowSets(rule, c, info, b, p)
         == FlowReporting(DecodeFlowSets(rule, c, info, b, p + U16(b, p + 2)), f, c, U16(b, p))
  {
    hide U16, DecodeFlowSet, InsertAll, HeaderAt, LacksElement, FaultError;
    UnusableFlowSetAlone(f, c, info, b, p);
    FaultNotFatal(f, c, U16(b, p));
    IpfixRoundTrip.NoInserts(c);
  }

  /** An unusable FlowSet anywhere in a packet, after sent FlowSets and before arbitrary
      bytes, changes neither the records nor the templates: it adds exactly the error for
      its unknown template or element, and nothing when its id is reserved. */
  lemma FlowIsolation(rule: StopRule, h: PacketHeader, ss: seq<FlowSet>, f: Fault, bad: bytes, rest: bytes, c: Templates, info: Elements)
    requires h.version == 9 && CanSendAll(ss, c, info) && AllSeparable(ss)
    requires UnusableFlowSet(f, InsertAll(c, TaughtAll(ss)), info, bad, 0) && U16(bad, 2) == |bad|
    ensures exists r ::
              && DecodePacket(rule, c, info, EncodePacketHeader(h) + (EncodeFlowSets(ss) + rest)) == PacketOutcome.Decoded(h, r)
              && DecodePacket(rule, c, info, EncodePacketHeader(h) + (EncodeFlowSets(ss) + (bad + rest)))
                 == PacketOutcome.Decoded(h, FlowReporting(r, f, InsertAll(c, TaughtAll(ss)), U16(bad, 0)))
  {
    hide CanSendAll, AllSeparable, EncodeFlowSets, InsertAll, TaughtAll, ShownFlowSets, EncodePacketHeader, DecodePacket, DecodeFlowSets, FlowPreceded, FlowReporting, U16, At, LacksElement;
    var front := EncodeFlowSets(ss);
    AcceptedPacket(rule, h, front + rest, c, info);
    AcceptedPacket(rule, h, front + (bad + rest), c, info);
    AfterFlowSets(rule, h, ss, rest, c, info);
    AfterFlowSets(rule, h, ss, bad + rest, c, info);
    var c' := InsertAll(c, TaughtAll(ss));
    SkipBadFlowSet(rule, EncodePacketHeader(h), front, f, bad, rest, c', info);
    ReportingFirst(DecodeFlowSets(rule, c', info, EncodePacketHeader(h) + (front + rest), 20 + |front|),
                   TaughtAll(ss), ShownFlowSets(ss, c, info), f, c', U16(bad, 0));
  }

  lemma AfterFlowSets(rule: StopRule, h: PacketHeader, ss: seq<FlowSet>, rest: bytes, c: Templates, info: Elements)
    requires CanSendAll(ss, c, info) && AllSeparable(ss)
    ensures var b := EncodePacketHeader(h) + (EncodeFlowSets(ss) + rest);
            && 20 + |EncodeFlowSets(ss)| <= |b|
            && DecodeFlowSets(rule, c, info, b, 20)
            == FlowPreceded(DecodeFlowSets(rule, InsertAll(c, TaughtAll(ss)), info, b, 20 + |EncodeFlowSets(ss)|),
                            TaughtAll(ss), ShownFlowSets(ss, c, info))
  {
    hide CanSendAll, AllSeparable, EncodeFlowSets, InsertAll, TaughtAll, ShownFlowSets, EncodePacketHeader, DecodeFlowSets, FlowPreceded;
    var b := EncodePacketHeader(h) + (EncodeFlowSets(ss) + rest);
    assert b == EncodePacketHeader(h) + EncodeFlowSets(ss) + rest;
    AtPart(b, 20, EncodePacketHeader(h), EncodeFlowSets(ss), rest);
    hide At;
    FlowSetsBefore(rule, ss, c, info, b, 20);
  }

  lemma SkipBadFlowSet(rule: StopRule, head: bytes, front: bytes, f: Fault, bad: bytes, rest: bytes, c: Templates, info: Elements)
    requires UnusableFlowSet(f, c, info, bad, 0) && U16(bad, 2) == |bad|
    ensures var q := |head| + |front|;
            DecodeFlowSets(rule, c, info, head + (front + (bad + rest)), q)
            == FlowReporting(DecodeFlowSets(rule, c, info, head + (front + rest), q), f, c, U16(bad, 0))
  {
    hide DecodeFlowSets, FlowReporting, U16, SameRest, LacksElement;
    var q := |head| + |front|;
    var b, b' := head + (front + rest), head + (front + (bad + rest));
    BadAt(head, front, bad, rest);
    UnusableFlowSetIsSkipped(rule, f, c, info, b', q);
    FlowSetsElsewhere(rule, c, info, b', q + |bad|, b, q);
  }

  lemma ReportingFirst(r: FlowRun, ts: seq<Template>, rs: seq<Tagged>, f: Fault, c: Templates, id: uint16)
    ensures FlowPreceded(FlowReporting(r, f, c, id), ts, rs) == FlowReporting(FlowPreceded(r, ts, rs), f, c, id)
  {
  }
}
