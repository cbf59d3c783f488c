/** The decoder of netflow/v9/decoder.go as it runs, proved against the functions of
    module NetflowV9. */
module NetflowV9Decoder {
  import opened Bytes
  import opened InfoModel
  import opened Ipfix
  import opened Readers
  import opened Memcache
  import opened IpfixDecoder
  import opened NetflowV9

  // ---------- Template records

  method UnmarshalSpec(r: Reader) returns (f: Option<FieldSpec>)
    requires r.Valid()
    modifies r
    ensures r.Valid()
    ensures var p := ReadSpec(r.all, old(r.count));
            r.count == p.pos && f == (if p.Got? then Some(p.value) else None)
  {
    hide U16;
    var id := r.Uint16();
    if id.None? { return None; }
    var length := r.Uint16();
    if length.None? { return None; }
    f := Some(FieldSpec(id.value, length.value, 0));
  }

  lemma SpecsContinued(done: seq<FieldSpec>, n: nat, b: bytes, p: nat)
    requires p <= |b| && n > 0
    ensures var f := ReadSpec(b, p);
            Continued(done, ReadSpecs(n, b, p))
            == if f.Got? then Continued(done + [f.value], ReadSpecs(n - 1, b, f.pos)) else Short(f.pos)
  {
    hide ReadSpec;
    var f := ReadSpec(b, p);
    if f.Got? {
      var rest := ReadSpecs(n - 1, b, f.pos);
      if rest.Got? {
        assert done + ([f.value] + rest.value) == done + [f.value] + rest.value;
      }
    }
  }

  lemma NoSpecsLeft(b: bytes, p: nat)
    requires p <= |b|
    ensures ReadSpecs(0, b, p) == Got([], p)
  {
  }

  /** Reads n specifiers and keeps all of them or, for a scope, the last one. */
  method UnmarshalSpecs(n: nat, scope: bool, r: Reader) returns (fs: Option<seq<FieldSpec>>)
    requires r.Valid()
    modifies r
    ensures r.Valid()
    ensures var p := ReadSpecs(n, r.all, old(r.count));
            && r.count == p.pos
            && fs == if p.Got? then Some(if scope then LastOnly(p.value) else p.value) else None
  {
    hide ReadSpec, ReadSpecs;
    var kept: seq<FieldSpec> := [];
    ghost var done: seq<FieldSpec> := [];
    var i := n;
    ContinuedNone(ReadSpecs(n, r.all, r.count));
    while i > 0
      invariant r.Valid() && i >= 0 && kept == if scope then LastOnly(done) else done
      invariant ReadSpecs(n, r.all, old(r.count)) == Continued(done, ReadSpecs(i, r.all, r.count))
    {
      SpecsContinued(done, i, r.all, r.count);
      var f := UnmarshalSpec(r);
      if f.None? { return None; }
      kept := (if scope then [] else kept) + [f.value];
      done := done + [f.value];
      i := i - 1;
    }
    NoSpecsLeft(r.all, r.count);
    assert done + [] == done;
    fs := Some(kept);
  }

  method UnmarshalRecord(r: Reader) returns (t: Option<Template>)
    requires r.Valid()
    modifies r
    ensures r.Valid()
    ensures var p := ReadRecord(r.all, old(r.count));
            r.count == p.pos && t == (if p.Got? then Some(p.value) else None)
  {
    hide U16, ReadSpecs;
    var id := r.Uint16();
    if id.None? { return None; }
    var count := r.Uint16();
    if count.None? { return None; }
    var fs := UnmarshalSpecs(count.value, false, r);
    if fs.None? { return None; }
    t := Some(Template(id.value, count.value, fs.value, 0, []));
  }

  method UnmarshalRecordOptions(r: Reader) returns (t: Option<Template>)
    requires r.Valid()
    modifies r
    ensures r.Valid()
    ensures var p := ReadOptions(r.all, old(r.count));
            r.count == p.pos && t == (if p.Got? then Some(p.value) else None)
  {
    hide U16, ReadSpecs, LastOnly;
    var id := r.Uint16();
    if id.None? { return None; }
    var scopeLength := r.Uint16();
    if scopeLength.None? { return None; }
    var length := r.Uint16();
    if length.None? { return None; }
    var scope := UnmarshalSpecs(scopeLength.value / 4, true, r);
    if scope.None? { return None; }
    var fs := UnmarshalSpecs(length.value / 4, false, r);
    if fs.None? { return None; }
    t := Some(Template(id.value, 0, fs.value, 0, scope.value));
  }

  method UnmarshalAnyRecord(id: uint16, r: Reader) returns (t: Option<Template>)
    requires r.Valid()
    modifies r
    ensures r.Valid()
    ensures var p := ReadAnyRecord(id, r.all, old(r.count));
            r.count == p.pos && t == (if p.Got? then Some(p.value) else None)
  {
    hide ReadRecord, ReadOptions;
    if id == 0 {
      t := UnmarshalRecord(r);
    } else {
      t := UnmarshalRecordOptions(r);
    }
  }

  // ---------- The message

  function Records(ts: seq<Tagged>): (rs: seq<Record>)
    ensures |rs| == |ts|
    decreases |ts|
  {
    if ts == [] then [] else [ts[0].record] + Records(ts[1..])
  }

  function Headers(ts: seq<Tagged>): (hs: seq<SetHeader>)
    ensures |hs| == |ts|
    decreases |ts|
  {
    if ts == [] then [] else [ts[0].header] + Headers(ts[1..])
  }

  lemma {:induction false} SplitTagged(ts: seq<Tagged>, us: seq<Tagged>)
    ensures Records(ts + us) == Records(ts) + Records(us)
    ensures Headers(ts + us) == Headers(ts) + Headers(us)
    decreases |ts|
  {
    if ts == [] {
      assert ts + us == us;
    } else {
      assert (ts + us)[1..] == ts[1..] + us;
      SplitTagged(ts[1..], us);
    }
  }

  lemma {:induction false} TagSplit(h: SetHeader, rs: seq<Record>, qs: seq<Record>)
    ensures Tag(h, rs + qs) == Tag(h, rs) + Tag(h, qs)
    decreases |rs|
  {
    if rs == [] {
      assert rs + qs == qs;
    } else {
      assert (rs + qs)[1..] == rs[1..] + qs;
      TagSplit(h, rs[1..], qs);
    }
  }

  class FlowMessage {
    var header: PacketHeader
    var agent: bytes
    var setHeaders: seq<SetHeader>
    var dataSets: seq<Record>

    constructor (h: PacketHeader, agent: bytes)
      ensures header == h && this.agent == agent && Holds([])
    {
      header, this.agent, setHeaders, dataSets := h, agent, [], [];
    }

    /** The two lists, read together. */
    ghost predicate Holds(ts: seq<Tagged>)
      reads this
    {
      setHeaders == Headers(ts) && dataSets == Records(ts)
    }

    method Add(h: SetHeader, r: Record, ghost ts: seq<Tagged>)
      requires Holds(ts)
      modifies `setHeaders, `dataSets
      ensures Holds(ts + [Tagged(h, r)])
    {
      SplitTagged(ts, [Tagged(h, r)]);
      dataSets := dataSets + [r];
      setHeaders := setHeaders + [h];
    }
  }

  // ---------- The decoder

  /** Records are decoded by the code that IPFIX uses, see IpfixDecoder.Decoder. */
  class FlowDecoder {
    const raddr: bytes
    const info: Elements
    const decoder: Decoder

    constructor (raddr: bytes, info: Elements, b: bytes)
      ensures this.raddr == raddr && this.info == info && decoder.raddr == raddr && decoder.info == info
      ensures fresh(decoder.reader) && decoder.reader.Valid() && decoder.reader.all == b && decoder.reader.count == 0
    {
      this.raddr, this.info := raddr, info;
      decoder := new Decoder(raddr, info, b);
    }

    ghost predicate Ready(mem: MemCache<Template>)
      reads this, decoder.reader, mem
    {
      decoder.raddr == raddr && decoder.info == info && decoder.reader.Valid() && mem.Valid()
    }

    /** The record loop of one FlowSet. */
    method DecodeBody(mem: MemCache<Template>, msg: FlowMessage, h: SetHeader, start: nat, t: Template, ghost held: seq<Tagged>)
      returns (err: Option<Error>, stuck: bool)
      requires Ready(mem) && start <= decoder.reader.count && msg.Holds(held)
      modifies decoder.reader, mem, msg`setHeaders, msg`dataSets
      ensures Ready(mem)
      ensures var s := FlowSetBody(h.id, h.length, start, t, info, decoder.reader.all, old(decoder.reader.count));
              && decoder.reader.count == s.pos && err == s.error && stuck == s.stuck
              && mem.Contents() == InsertedAll(old(mem.Contents()), raddr, s.learned)
              && msg.Holds(held + Tag(h, s.records))
    {
      hide FlowSetBody, U16, ReadAnyRecord, DecodeRecord, Flatten, Sharded, Inserted, InsertedAll, Tag, Records, Headers;
      var reader := decoder.reader;
      ghost var ts: seq<Template>, rs: seq<Record> := [], [];
      ghost var whole := FlowSetBody(h.id, h.length, start, t, info, reader.all, reader.count);
      AfterStep(whole, [], [], [], []);
      IpfixDecoder.NoInserts(mem.Contents(), raddr);
      TagNothing(h, held);
      err, stuck := None, false;
      var done := false;
      while !done
        invariant Ready(mem) && start <= reader.count
        invariant mem.Contents() == InsertedAll(old(mem.Contents()), raddr, ts)
        invariant msg.Holds(held + Tag(h, rs))
        invariant if done then whole == SetResult(reader.count, ts, rs, err, stuck)
                  else err == None && !stuck && whole == FlowSetBody(h.id, h.length, start, t, info, reader.all, reader.count).After(ts, rs)
        decreases |reader.all| - reader.count, !done
      {
        FlowBodyStep(h.id, h.length, start, t, info, reader.all, reader.count, ts, rs);
        var left := reader.Len();
        if !(h.length as int - (reader.count - start) > 4 && left > 4) {
          done := true;
        } else if h.id == 0 || h.id == 1 {
          var tr := UnmarshalAnyRecord(h.id, reader);
          if tr.Some? {
            InsertedAllAppend(old(mem.Contents()), raddr, ts, tr.value);
            mem.Insert(tr.value.id, raddr, tr.value);
            ts := ts + [tr.value];
          } else {
            err, done := Some(ReaderError), true;
          }
        } else if 4 <= h.id <= 255 {
          done := true;
        } else {
          var before := reader.count;
          var row := decoder.DecodeData(t);
          if row.Bad? {
            err, done := Some(row.error), true;
          } else if reader.count == before {
            // The loop would come back here with everything unchanged, for ever.
            stuck, done := true, true;
          } else {
            msg.Add(h, row.fields, held + Tag(h, rs));
            TagOne(h, rs, row.fields, held);
            rs := rs + [row.fields];
          }
        }
      }
    }

    method DecodeSet(mem: MemCache<Template>, msg: FlowMessage, ghost held: seq<Tagged>) returns (err: Option<Error>, stuck: bool)
      requires Ready(mem) && msg.Holds(held)
      modifies decoder.reader, mem, msg`setHeaders, msg`dataSets
      ensures Ready(mem)
      ensures var c := old(View(mem.Contents(), raddr));
              var p := old(decoder.reader.count);
              var s := DecodeFlowSet(c, info, decoder.reader.all, p);
              && decoder.reader.count == s.pos && err == s.error && stuck == s.stuck
              && mem.Contents() == InsertedAll(old(mem.Contents()), raddr, s.learned)
              && msg.Holds(held + Tag(HeaderAt(decoder.reader.all, p), s.records))
    {
      hide FlowSetBody, U16, Flatten, Sharded, InsertedAll, Lookup, View, Tag, Headers, Records;
      var reader := decoder.reader;
      var start := reader.count;
      IpfixDecoder.NoInserts(mem.Contents(), raddr);
      TagNothing(HeaderAt(reader.all, start), held);
      var id := reader.Uint16();
      if id.None? { return Some(ReaderError), false; }
      var length := reader.Uint16();
      if length.None? { return Some(ReaderError), false; }
      if length.value < 4 { return Some(UnexpectedEOF), false; }

      var tr := NO_TEMPLATE;
      err, stuck := None, false;
      if id.value > 255 {
        ViewLookup(mem.Contents(), id.value, raddr);
        var found := mem.Retrieve(id.value, raddr);
        if found.None? {
          err := Some(UnknownTemplate(id.value));
        } else {
          tr := found.value;
        }
      }
      if err.None? {
        err, stuck := DecodeBody(mem, msg, SetHeader(id.value, length.value), start, tr, held);
        if stuck { return; }
      }

      var leftover := length.value as int - (reader.count - start);
      if leftover > 0 {
        var skipped := reader.Read(leftover);
        if skipped.None? {
          err := Some(ReaderError);
        }
      }
    }

    method UnmarshalHeader() returns (h: Option<PacketHeader>)
      requires decoder.reader.Valid() && decoder.reader.count == 0
      modifies decoder.reader
      ensures decoder.reader.Valid()
      ensures h == if |decoder.reader.all| < 20 then None else Some(ReadPacketHeader(decoder.reader.all))
      ensures h.Some? ==> decoder.reader.count == 20
    {
      hide U16, U32;
      var reader := decoder.reader;
      var version := reader.Uint16();
      if version.None? { return None; }
      var count := reader.Uint16();
      if count.None? { return None; }
      var sysUpTime := reader.Uint32();
      if sysUpTime.None? { return None; }
      var unixSecs := reader.Uint32();
      if unixSecs.None? { return None; }
      var seqNum := reader.Uint32();
      if seqNum.None? { return None; }
      var srcId := reader.Uint32();
      if srcId.None? { return None; }
      h := Some(PacketHeader(version.value, count.value, sysUpTime.value, unixSecs.value, seqNum.value, srcId.value));
    }

    method DecodeAllSets(rule: StopRule, mem: MemCache<Template>, msg: FlowMessage) returns (errors: seq<Error>, end: End)
      requires Ready(mem) && msg.Holds([])
      modifies decoder.reader, mem, msg`setHeaders, msg`dataSets
      ensures Ready(mem)
      ensures var run := DecodeFlowSets(rule, old(View(mem.Contents(), raddr)), info, decoder.reader.all, old(decoder.reader.count));
              && errors == run.errors && end == run.end
              && mem.Contents() == InsertedAll(old(mem.Contents()), raddr, run.learned)
              && msg.Holds(run.records)
    {
      hide DecodeFlowSet, DecodeFlowSets, Flatten, Sharded, InsertedAll, InsertAll, View, FlowJoined, FlowAdvanced, Tag, Records, Headers;
      var reader := decoder.reader;
      ghost var run := DecodeFlowSets(rule, View(mem.Contents(), raddr), info, reader.all, reader.count);
      ghost var before := FlowRun([], [], [], Finished);
      errors, end := [], Finished;
      FlowJoinNothing(run);
      IpfixDecoder.NoInserts(mem.Contents(), raddr);
      var left := reader.Len();
      while left > 4 && end.Finished?
        invariant Ready(mem) && left == |reader.all| - reader.count
        invariant errors == before.errors && end == before.end
        invariant mem.Contents() == InsertedAll(old(mem.Contents()), raddr, before.learned)
        invariant msg.Holds(before.records)
        invariant if end.Finished? then
                    run == FlowJoined(before, DecodeFlowSets(rule, View(mem.Contents(), raddr), info, reader.all, reader.count))
                  else run == before
        decreases left, end.Finished?
      {
        ghost var c, p, contents := View(mem.Contents(), raddr), reader.count, mem.Contents();
        ghost var s := DecodeFlowSet(c, info, reader.all, p);
        FlowSetsStep(rule, c, info, reader.all, p, before);
        var err, stuck := DecodeSet(mem, msg, before.records);
        InsertedAllTwice(old(mem.Contents()), raddr, before.learned, s.learned);
        ViewInsertedAll(contents, raddr, s.learned);
        if stuck {
          end := Stuck;
          errors := errors + Listed(err);
        } else if err.Some? && rule.AsDocumented? && Fatal(err.value) {
          end := Stopped(err.value);
        } else if err.Some? {
          errors := errors + [err.value];
        }
        before := FlowAdvanced(rule, before, HeaderAt(reader.all, p), s);
        left := reader.Len();
      }
      FlowSetsEnd(rule, View(mem.Contents(), raddr), info, reader.all, reader.count, before);
    }

    /** Decode: in the returned message the two lists are as long as each other, and
        the header at each index is that of the FlowSet that held the record. */
    method Decode(rule: StopRule, mem: MemCache<Template>) returns (msg: FlowMessage?, errors: seq<Error>, returned: bool)
      requires Ready(mem) && decoder.reader.count == 0
      modifies decoder.reader, mem
      ensures Ready(mem)
      ensures match DecodePacket(rule, old(View(mem.Contents(), raddr)), info, decoder.reader.all)
              case Refused(e) => returned && msg == null && errors == [e] && mem.Contents() == old(mem.Contents())
              case Decoded(h, run) =>
                && returned == !run.end.Stuck?
                && mem.Contents() == InsertedAll(old(mem.Contents()), raddr, run.learned)
                && (run.end.Finished? ==>
                      && msg != null && fresh(msg) && msg.header == h && msg.agent == raddr && errors == run.errors
                      && msg.Holds(run.records) && |msg.setHeaders| == |msg.dataSets|)
                && (run.end.Stopped? ==> msg == null && errors == [run.end.error])
    {
      hide DecodeFlowSets, ReadPacketHeader, Flatten, Sharded, InsertedAll, View, Records, Headers;
      var h := UnmarshalHeader();
      if h.None? { return null, [ReaderError], true; }
      if h.value.version != 9 {
        return null, [BadVersion(h.value.version)], true;
      }
      var m := new FlowMessage(h.value, raddr);
      var end;
      errors, end := DecodeAllSets(rule, mem, m);
      match end {
        case Stuck => return null, errors, false;
        case Stopped(e) => return null, [e], true;
        case Finished => return m, errors, true;
      }
    }
  }

  // ---------- The loops

  lemma TagNothing(h: SetHeader, ts: seq<Tagged>)
    ensures ts + Tag(h, []) == ts
  {
  }

  lemma TagOne(h: SetHeader, rs: seq<Record>, r: Record, ts: seq<Tagged>)
    ensures ts + Tag(h, rs) + [Tagged(h, r)] == ts + Tag(h, rs + [r])
  {
    TagSplit(h, rs, [r]);
    assert Tag(h, [r]) == [Tagged(h, r)];
  }

  lemma FlowBodyStep(id: uint16, length: uint16, start: nat, t: Template, info: Elements, b: bytes, p: nat,
                     ts: seq<Template>, rs: seq<Record>)
    requires start <= p <= |b|
    ensures FlowSetBody(id, length, start, t, info, b, p).After(ts, rs)
         == if !MoreRecords(length, start, b, p) then SetResult(p, ts, rs, None, false)
            else if id <= 1 then
              var tr := ReadAnyRecord(id, b, p);
              if tr.Got? then FlowSetBody(id, length, start, t, info, b, tr.pos).After(ts + [tr.value], rs)
              else SetResult(tr.pos, ts, rs, Some(ReaderError), false)
            else if IsReservedSet(id) then SetResult(p, ts, rs, None, false)
            else
              var row := DecodeRecord(t, info, b, p);
              if row.Bad? then SetResult(row.pos, ts, rs, Some(row.error), false)
              else if row.pos == p then SetResult(p, ts, rs, None, true)
              else FlowSetBody(id, length, start, t, info, b, row.pos).After(ts, rs + [row.fields])
  {
    hide ReadAnyRecord, DecodeRecord;
    assert ts + [] == ts && rs + [] == rs;
    if MoreRecords(length, start, b, p) {
      if id <= 1 {
        var tr := ReadAnyRecord(id, b, p);
        if tr.Got? {
          AfterStep(FlowSetBody(id, length, start, t, info, b, tr.pos), ts, rs, [tr.value], []);
        }
      } else if !IsReservedSet(id) {
        var row := DecodeRecord(t, info, b, p);
        if row.Row? && row.pos != p {
          AfterStep(FlowSetBody(id, length, start, t, info, b, row.pos), ts, rs, [], [row.fields]);
        }
      }
    }
  }

  function FlowJoined(before: FlowRun, rest: FlowRun): FlowRun {
    FlowRun(before.learned + rest.learned, before.records + rest.records, before.errors + rest.errors, rest.end)
  }

  function FlowAdvanced(rule: StopRule, before: FlowRun, h: SetHeader, s: SetResult): FlowRun {
    FlowRun(before.learned + s.learned, before.records + Tag(h, s.records),
            if !s.stuck && Stops(rule, s) then before.errors else before.errors + Listed(s.error),
            if s.stuck then Stuck else if Stops(rule, s) then Stopped(s.error.value) else Finished)
  }

  lemma FlowJoinNothing(r: FlowRun)
    ensures FlowJoined(FlowRun([], [], [], Finished), r) == r
  {
  }

  lemma FlowSetsEnd(rule: StopRule, c: Templates, info: Elements, b: bytes, p: nat, before: FlowRun)
    requires p <= |b|
    ensures |b| - p <= 4 ==> FlowJoined(before, DecodeFlowSets(rule, c, info, b, p)) == before.(end := Finished)
  {
  }

  lemma FlowSetsStep(rule: StopRule, c: Templates, info: Elements, b: bytes, p: nat, before: FlowRun)
    requires p <= |b| && |b| - p > 4
    ensures var s := DecodeFlowSet(c, info, b, p);
            var next := FlowAdvanced(rule, before, HeaderAt(b, p), s);
            && next.learned == before.learned + s.learned && next.records == before.records + Tag(HeaderAt(b, p), s.records)
            && next.errors == before.errors + (if next.end.Stopped? then [] else Listed(s.error))
            && next.end == (if s.stuck then Stuck else if Stops(rule, s) then Stopped(s.error.value) else Finished)
            && FlowJoined(before, DecodeFlowSets(rule, c, info, b, p))
               == if next.end.Finished? then FlowJoined(next, DecodeFlowSets(rule, InsertAll(c, s.learned), info, b, s.pos))
                  else next
  {
    hide DecodeFlowSet, InsertAll, Fatal, HeaderAt, Tag;
    var s, h := DecodeFlowSet(c, info, b, p), HeaderAt(b, p);
    if s.stuck || Stops(rule, s) {
      FlowJoinEnd(before, h, s, if s.stuck then Stuck else Stopped(s.error.value));
      FlowJoinEnd(before, h, s.(error := None), if s.stuck then Stuck else Stopped(s.error.value));
    } else {
      FlowJoinAfter(before, h, s, DecodeFlowSets(rule, InsertAll(c, s.learned), info, b, s.pos));
    }
  }

  lemma FlowJoinEnd(before: FlowRun, h: SetHeader, s: SetResult, end: End)
    ensures FlowJoined(before, FlowRun([], [], [], end).After(h, s))
         == FlowRun(before.learned + s.learned, before.records + Tag(h, s.records), before.errors + Listed(s.error), end)
    ensures before.errors + [] == before.errors
  {
    hide Listed, Tag;
    assert s.learned + [] == s.learned && Tag(h, s.records) + [] == Tag(h, s.records);
    assert Listed(s.error) + [] == Listed(s.error);
  }

  lemma FlowJoinAfter(before: FlowRun, h: SetHeader, s: SetResult, rest: FlowRun)
    ensures FlowJoined(before, rest.After(h, s))
         == FlowJoined(FlowRun(before.learned + s.learned, before.records + Tag(h, s.records), before.errors + Listed(s.error), Finished), rest)
  {
    hide Listed, Tag;
    assert before.learned + (s.learned + rest.learned) == before.learned + s.learned + rest.learned;
    assert before.records + (Tag(h, s.records) + rest.records) == before.records + Tag(h, s.records) + rest.records;
    assert before.errors + (Listed(s.error) + rest.errors) == before.errors + Listed(s.error) + rest.errors;
  }
}
