/** What the NetFlow v9 Decode makes of packets that are cut off or malformed. */
module NetflowV9Errors {
  import opened Bytes
  import opened InfoModel
  import opened Ipfix
  import opened IpfixFraming
  import opened IpfixExport
  import opened NetflowV9
  import opened NetflowV9RoundTrip
  import IpfixRoundTrip
  import IpfixErrors
  import NetflowV9Isolation

  /** Decode refuses exactly packets of fewer than 20 bytes and other versions. */
  lemma RefusedIff(rule: StopRule, c: Templates, info: Elements, b: bytes)
    ensures DecodePacket(rule, c, info, b) == Refused(ReaderError) <==> |b| < 20
    ensures |b| >= 20 ==>
              var v := U16(b, 0);
              && (DecodePacket(rule, c, info, b) == Refused(BadVersion(v)) <==> v != 9)
              && (DecodePacket(rule, c, info, b).Decoded? <==> v == 9)
  {
    hide DecodeFlowSets;
  }

  /** A FlowSet whose header is cut off takes what there is of it in whole numbers. */
  lemma ShortFlowSetHeader(c: Templates, info: Elements, b: bytes, p: nat)
    requires p <= |b| < p + 4
    ensures DecodeFlowSet(c, info, b, p) == SetResult(if |b| - p < 2 then p else p + 2, [], [], Some(ReaderError), false)
  {
  }

  // ---------- FlowSets that end in a fatal error

  lemma FatalFlowSet(c: Templates, info: Elements, b: bytes, p: nat)
    requires p <= |b| && IpfixErrors.FatalAt(c, b[p..]).Some?
    ensures |b| - p > 4 && DecodeFlowSet(c, info, b, p) == SetResult(p + 4, [], [], IpfixErrors.FatalAt(c, b[p..]), false)
  {
    ReadAt(b, p);
    assert U16(b[p..], 2) == U16(b, p + 2);
    hide U16, DecodeRecord, ReadAnyRecord;
  }

  /** As documented, a FlowSet whose length is less than that of its header, or reaches
      past the end of the packet, stops the decoding; as written, its error is collected
      and the decoding goes on after its header. */
  lemma FatalFlowSetEnds(rule: StopRule, c: Templates, info: Elements, b: bytes, p: nat)
    requires p <= |b| && IpfixErrors.FatalAt(c, b[p..]).Some?
    ensures |b| - p > 4
    ensures var e := IpfixErrors.FatalAt(c, b[p..]).value;
            var r := DecodeFlowSets(AsWritten, c, info, b, p + 4);
            DecodeFlowSets(rule, c, info, b, p)
            == if rule.AsDocumented? then FlowRun([], [], [], Stopped(e)) else r.(errors := [e] + r.errors)
  {
    hide DecodeFlowSet, HeaderAt, InsertAll, IpfixErrors.FatalAt;
    FatalFlowSet(c, info, b, p);
    IpfixRoundTrip.NoInserts(c);
    IpfixErrors.ErrorsAreFatal(c, b[p..]);
  }

  /** In a packet, after any sent FlowSets: what they gave stays, and then comes that
      error. As documented, Decode returns the error alone (see NetflowV9Decoder), while
      the templates learned before it remain in the cache. */
  lemma FatalPacket(rule: StopRule, h: PacketHeader, ss: seq<FlowSet>, rest: bytes, c: Templates, info: Elements)
    requires h.version == 9 && CanSendAll(ss, c, info) && NetflowV9RoundTrip.AllSeparable(ss)
    requires IpfixErrors.FatalAt(InsertAll(c, TaughtAll(ss)), rest).Some?
    ensures var b := EncodePacketHeader(h) + (EncodeFlowSets(ss) + rest);
            var r := DecodePacket(rule, c, info, b);
            && r.Decoded? && r.header == h
            && TaughtAll(ss) <= r.run.learned && ShownFlowSets(ss, c, info) <= r.run.records
            && var e := IpfixErrors.FatalAt(InsertAll(c, TaughtAll(ss)), rest).value;
               if rule.AsDocumented?
               then && r.run.learned == TaughtAll(ss) && r.run.records == ShownFlowSets(ss, c, info)
                    && r.run.errors == [] && r.run.end == Stopped(e)
               else r.run.errors != [] && r.run.errors[0] == e
  {
    hide CanSendAll, NetflowV9RoundTrip.AllSeparable, EncodeFlowSets, InsertAll, TaughtAll, ShownFlowSets, EncodePacketHeader, DecodePacket, DecodeFlowSets, At, IpfixErrors.FatalAt;
    var b, q := EncodePacketHeader(h) + (EncodeFlowSets(ss) + rest), 20 + |EncodeFlowSets(ss)|;
    AcceptedPacket(rule, h, EncodeFlowSets(ss) + rest, c, info);
    NetflowV9Isolation.AfterFlowSets(rule, h, ss, rest, c, info);
    assert b[q..] == rest;
    FatalFlowSetEnds(rule, InsertAll(c, TaughtAll(ss)), info, b, q);
  }

  // ---------- Data FlowSets that are cut off

  /** A data FlowSet of which the packet ends within a record, with more than four bytes
      of it there: the records before it are decoded, and a reader error is reported. */
  lemma CutDataFlowSet(id: uint16, rows: seq<Octets>, c: Templates, info: Elements, b: bytes, p: nat)
    requires 256 <= id && id in c && FitsTemplate(rows, c[id], info) && p + 4 <= |b| && U16(b, p) == id
    requires At(b, p + 4, EncodeRows(rows))
    requires var q := p + 4 + |EncodeRows(rows)|;
             q + 4 < |b| < q + RecordLength(c[id]) && q + RecordLength(c[id]) <= p + U16(b, p + 2)
    ensures var s := DecodeFlowSet(c, info, b, p);
            && s.records == ShownRows(c[id], info, rows) && s.learned == [] && !s.stuck
            && s.error == Some(ReaderError)
  {
    hide U16, FlowSetBody, IpfixRoundTrip.RowsReadAs, AllKnown, RecordLength, AllFill, EncodeRows, At, ShownRows;
    var t, q := c[id], p + 4 + |EncodeRows(rows)|;
    IpfixRoundTrip.RowsAt(rows, t, info, b, p + 4);
    RowsLoop(rows, id, t, U16(b, p + 2), p, info, b, p + 4, q);
    CutFlowRecord(id, t, U16(b, p + 2), p, info, b, q);
    assert ShownRows(t, info, rows) + [] == ShownRows(t, info, rows);
  }

  lemma CutFlowRecord(id: uint16, t: Template, length: uint16, start: nat, info: Elements, b: bytes, q: nat)
    requires IsData(id) && AllKnown(t, info) && start <= q && q + 4 < |b| < q + RecordLength(t) <= start + length
    ensures var s := FlowSetBody(id, length, start, t, info, b, q);
            s.error == Some(ReaderError) && s.records == [] && s.learned == [] && !s.stuck && s.pos <= |b|
  {
    hide DecodeRecord;
    IpfixErrors.CutRecordFails(t, info, b, q);
  }

  // ---------- Templates that are cut off

  lemma {:induction false} SpecsShortIff(n: nat, b: bytes, p: nat)
    requires p <= |b|
    ensures ReadSpecs(n, b, p).Short? <==> |b| - p < 4 * n
    ensures ReadSpecs(n, b, p).Got? ==> ReadSpecs(n, b, p).pos == p + 4 * n
    decreases n
  {
    hide U16;
    if n > 0 && |b| - p >= 4 {
      SpecsShortIff(n - 1, b, p + 4);
    }
  }

  /** The bytes that a template record at p claims. */
  function Claimed(id: uint16, b: bytes, p: nat): nat
    requires p + 6 <= |b|
  {
    if id == 0 then 4 + 4 * U16(b, p + 2) else 6 + 4 * (U16(b, p + 2) / 4) + 4 * (U16(b, p + 4) / 4)
  }

  /** A template record is short exactly if its header is, or claims more specifiers than
      there are bytes. */
  lemma RecordShortIff(id: uint16, b: bytes, p: nat)
    requires p + 6 <= |b|
    ensures ReadAnyRecord(id, b, p).Short? <==> |b| - p < Claimed(id, b, p)
  {
    hide U16, ReadSpecs;
    if id == 0 {
      SpecsShortIff(U16(b, p + 2), b, p + 4);
    } else {
      var n, m := U16(b, p + 2) / 4, U16(b, p + 4) / 4;
      SpecsShortIff(n, b, p + 6);
      if ReadSpecs(n, b, p + 6).Got? {
        SpecsShortIff(m, b, p + 6 + 4 * n);
      }
    }
  }

  /** A FlowSet of templates of which the packet ends within one: those before it are
      learned, and a reader error is reported. */
  lemma CutTemplateFlowSet(s: FlowSet, c: Templates, info: Elements, b: bytes, p: nat)
    requires !s.DataFlowSet? && p + 4 <= |b| && U16(b, p) == FlowSetId(s) && At(b, p + 4, Payload(s))
    requires if s.TemplateFlowSet? then AllCanSend(s.templates) else AllCanSendOptions(s.options)
    requires var q := p + 4 + |Payload(s)|;
             q + 6 <= |b| && |b| - q < Claimed(FlowSetId(s), b, q) && q + Claimed(FlowSetId(s), b, q) <= p + U16(b, p + 2)
    ensures var r := DecodeFlowSet(c, info, b, p);
            r.learned == Taught(s) && r.records == [] && !r.stuck && r.error == Some(ReaderError)
  {
    hide U16, Payload, At, AllCanSend, AllCanSendOptions, FlowSetBody, RecordsReadAs, Taught, Claimed;
    var id, length, q := FlowSetId(s), U16(b, p + 2), p + 4 + |Payload(s)|;
    TaughtAt(s, b, p + 4);
    TemplatesLoop(id, Taught(s), length, p, info, b, p + 4, q);
    CutTemplate(id, length, p, info, b, q);
    assert Taught(s) + [] == Taught(s);
  }

  lemma CutTemplate(id: uint16, length: uint16, start: nat, info: Elements, b: bytes, q: nat)
    requires id <= 1 && start <= q && q + 6 <= |b| && |b| - q < Claimed(id, b, q) && q + Claimed(id, b, q) <= start + length
    ensures var r := FlowSetBody(id, length, start, NO_TEMPLATE, info, b, q);
            r.learned == [] && r.records == [] && !r.stuck && r.error == Some(ReaderError)
  {
    hide ReadAnyRecord, Claimed;
    RecordShortIff(id, b, q);
  }
}
