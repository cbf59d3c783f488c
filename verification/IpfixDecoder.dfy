/** The decoder of ipfix/decoder.go as it runs: loops over a reader that fill the
    template cache and the message step by step, proved against the functions of
    module Ipfix. */
module IpfixDecoder {
  import opened Bytes
  import opened InfoModel
  import opened Ipfix
  import opened Readers
  import opened Memcache

  // ---------- Template records

  method UnmarshalField(r: Reader) returns (f: Option<FieldSpec>)
    requires r.Valid()
    modifies r
    ensures r.Valid()
    ensures var p := ReadField(r.all, old(r.count));
            r.count == p.pos && f == (if p.Got? then Some(p.value) else None)
  {
    hide U16, U32;
    var id := r.Uint16();
    if id.None? { return None; }
    var length := r.Uint16();
    if length.None? { return None; }
    if id.value > 0x8000 {
      var enterpriseNo := r.Uint32();
      if enterpriseNo.None? { return None; }
      f := Some(FieldSpec(id.value - 0x8000, length.value, enterpriseNo.value));
    } else {
      f := Some(FieldSpec(id.value, length.value, 0));
    }
  }

  /** The rest of a parse whose first values have been read. */
  function Continued<T>(done: seq<T>, rest: Parse<seq<T>>): Parse<seq<T>> {
    match rest
    case Got(s, q) => Got(done + s, q)
    case Short(q) => Short(q)
  }

  lemma ContinuedNone(r: Parse<seq<FieldSpec>>)
    ensures Continued([], r) == r
  {
    if r.Got? {
      assert [] + r.value == r.value;
    }
  }

  lemma ContinuedStep(done: seq<FieldSpec>, n: nat, b: bytes, p: nat)
    requires p <= |b| && n > 0
    ensures var f := ReadField(b, p);
            Continued(done, ReadFields(n, b, p))
            == if f.Got? then Continued(done + [f.value], ReadFields(n - 1, b, f.pos)) else Short(f.pos)
  {
    hide ReadField;
    var f := ReadField(b, p);
    if f.Got? {
      var rest := ReadFields(n - 1, b, f.pos);
      if rest.Got? {
        assert done + ([f.value] + rest.value) == done + [f.value] + rest.value;
      }
    }
  }

  method UnmarshalFields(n: nat, r: Reader) returns (fs: Option<seq<FieldSpec>>)
    requires r.Valid()
    modifies r
    ensures r.Valid()
    ensures var p := ReadFields(n, r.all, old(r.count));
            r.count == p.pos && fs == (if p.Got? then Some(p.value) else None)
  {
    hide ReadField, ReadFields;
    var done := [];
    var i := n;
    ContinuedNone(ReadFields(n, r.all, r.count));
    while i > 0
      invariant r.Valid() && i >= 0
      invariant ReadFields(n, r.all, old(r.count)) == Continued(done, ReadFields(i, r.all, r.count))
    {
      ContinuedStep(done, i, r.all, r.count);
      var f := UnmarshalField(r);
      if f.None? { return None; }
      done := done + [f.value];
      i := i - 1;
    }
    NoFields(r.all, r.count);
    assert done + [] == done;
    fs := Some(done);
  }

  lemma NoFields(b: bytes, p: nat)
    requires p <= |b|
    ensures ReadFields(0, b, p) == Got([], p)
  {
  }

  method UnmarshalTemplate(r: Reader) returns (t: Option<Template>)
    requires r.Valid()
    modifies r
    ensures r.Valid()
    ensures var p := ReadTemplate(r.all, old(r.count));
            r.count == p.pos && t == (if p.Got? then Some(p.value) else None)
  {
    hide U16, ReadFields;
    var id := r.Uint16();
    if id.None? { return None; }
    var count := r.Uint16();
    if count.None? { return None; }
    var fs := UnmarshalFields(count.value, r);
    if fs.None? { return None; }
    t := Some(Template(id.value, count.value, fs.value, 0, []));
  }

  /** Each scope specifier is appended to the still empty list of the others, so
      only the last one stays. */
  method UnmarshalScope(n: nat, r: Reader) returns (scope: Option<seq<FieldSpec>>)
    requires r.Valid()
    modifies r
    ensures r.Valid()
    ensures var p := ReadFields(n, r.all, old(r.count));
            r.count == p.pos && scope == (if p.Got? then Some(LastOnly(p.value)) else None)
  {
    hide ReadField, ReadFields;
    var kept := [];
    ghost var done := [];
    var i := n;
    ContinuedNone(ReadFields(n, r.all, r.count));
    while i > 0
      invariant r.Valid() && i >= 0 && kept == LastOnly(done)
      invariant ReadFields(n, r.all, old(r.count)) == Continued(done, ReadFields(i, r.all, r.count))
    {
      ContinuedStep(done, i, r.all, r.count);
      var f := UnmarshalField(r);
      if f.None? { return None; }
      kept := [] + [f.value];
      done := done + [f.value];
      i := i - 1;
    }
    NoFields(r.all, r.count);
    assert done + [] == done;
    scope := Some(kept);
  }

  method UnmarshalOptions(r: Reader) returns (t: Option<Template>)
    requires r.Valid()
    modifies r
    ensures r.Valid()
    ensures var p := ReadOptionsTemplate(r.all, old(r.count));
            r.count == p.pos && t == (if p.Got? then Some(p.value) else None)
  {
    hide U16, ReadFields, LastOnly;
    var id := r.Uint16();
    if id.None? { return None; }
    var count := r.Uint16();
    if count.None? { return None; }
    var scopeCount := r.Uint16();
    if scopeCount.None? { return None; }
    var scope := UnmarshalScope(scopeCount.value, r);
    if scope.None? { return None; }
    var fs := UnmarshalFields(Sub16(count.value, scopeCount.value), r);
    if fs.None? { return None; }
    t := Some(Template(id.value, count.value, fs.value, scopeCount.value, scope.value));
  }

  // ---------- The shared state that a decoder works on

  datatype Request = Request(id: uint16, addr: bytes)

  const CHANNEL_SIZE := 1

  /** The one-slot channel of template requests. A request that finds it full is
      dropped: posting never waits. */
  class RequestChannel {
    var queue: seq<Request>

    constructor ()
      ensures queue == []
    {
      queue := [];
    }

    method TryPost(q: Request)
      requires |queue| <= CHANNEL_SIZE
      modifies this
      ensures queue == Posted(old(queue), [q]) && |queue| == CHANNEL_SIZE
    {
      if |queue| < CHANNEL_SIZE {
        queue := queue + [q];
      }
    }
  }

  /** What the channel holds after a run of requests that nobody takes. */
  function Posted(queue: seq<Request>, qs: seq<Request>): seq<Request> {
    if queue != [] || qs == [] then queue else [qs[0]]
  }

  function Requests(addr: bytes, ids: seq<uint16>): seq<Request> {
    seq(|ids|, i requires 0 <= i < |ids| => Request(ids[i], addr))
  }

  class Message {
    var header: Header
    var agent: bytes
    var dataSets: seq<Record>

    constructor (h: Header, agent: bytes)
      ensures header == h && this.agent == agent && dataSets == []
    {
      header, this.agent, dataSets := h, agent, [];
    }
  }

  /** The inserts of one exporter into the shared cache. */
  function InsertedAll(c: Flat<Template>, addr: bytes, ts: seq<Template>): Flat<Template>
    decreases |ts|
  {
    if ts == [] then c else InsertedAll(Inserted(c, ts[0].id, addr, ts[0]), addr, ts[1..])
  }

  lemma NoInserts(c: Flat<Template>, addr: bytes)
    ensures InsertedAll(c, addr, []) == c
  {
  }

  lemma {:induction false} InsertedAllAppend(c: Flat<Template>, addr: bytes, ts: seq<Template>, t: Template)
    ensures InsertedAll(c, addr, ts + [t]) == Inserted(InsertedAll(c, addr, ts), t.id, addr, t)
    decreases |ts|
  {
    hide Inserted;
    if ts == [] {
      assert (ts + [t])[1..] == [];
    } else {
      assert (ts + [t])[1..] == ts[1..] + [t];
      InsertedAllAppend(Inserted(c, ts[0].id, addr, ts[0]), addr, ts[1..], t);
    }
  }

  lemma {:induction false} InsertedAllTwice(c: Flat<Template>, addr: bytes, ts: seq<Template>, us: seq<Template>)
    ensures InsertedAll(c, addr, ts + us) == InsertedAll(InsertedAll(c, addr, ts), addr, us)
    decreases |ts|
  {
    hide Inserted;
    if ts == [] {
      assert ts + us == us;
    } else {
      assert (ts + us)[1..] == ts[1..] + us;
      InsertedAllTwice(Inserted(c, ts[0].id, addr, ts[0]), addr, ts[1..], us);
    }
  }

  /** The exporter's own view of the cache changes as a map by template id would. */
  lemma {:induction false} ViewInsertedAll(c: Flat<Template>, addr: bytes, ts: seq<Template>)
    ensures View(InsertedAll(c, addr, ts), addr) == InsertAll(View(c, addr), ts)
    decreases |ts|
  {
    hide Inserted, View;
    if ts != [] {
      ViewInserted(c, ts[0].id, addr, ts[0]);
      ViewInsertedAll(Inserted(c, ts[0].id, addr, ts[0]), addr, ts[1..]);
    }
  }

  lemma AfterStep(s: SetResult, ts: seq<Template>, rs: seq<Record>, us: seq<Template>, qs: seq<Record>)
    ensures s.After(us, qs).After(ts, rs) == s.After(ts + us, rs + qs)
    ensures s.After([], []) == s
  {
    assert ts + (us + s.learned) == ts + us + s.learned;
    assert rs + (qs + s.records) == rs + qs + s.records;
    assert [] + s.learned == s.learned && [] + s.records == s.records;
  }

  // ---------- The decoder

  class Decoder {
    const raddr: bytes
    const info: Elements
    const reader: Reader

    constructor (raddr: bytes, info: Elements, b: bytes)
      ensures this.raddr == raddr && this.info == info && fresh(reader)
      ensures reader.Valid() && reader.all == b && reader.count == 0
    {
      this.raddr, this.info := raddr, info;
      reader := new Reader(b);
    }

    method DecodeSpecs(specs: seq<FieldSpec>, scope: bool) returns (row: Row)
      requires reader.Valid()
      modifies reader
      ensures reader.Valid()
      ensures row == DecodeFields(specs, scope, info, reader.all, old(reader.count)) && row.pos == reader.count
    {
      hide DecodeFields, Decoded;
      var fields: Record := [];
      var i := 0;
      assert specs[0..] == specs;
      RowAfterNone(DecodeFields(specs, scope, info, reader.all, reader.count));
      while i < |specs|
        invariant reader.Valid() && 0 <= i <= |specs|
        invariant DecodeFields(specs, scope, info, reader.all, old(reader.count))
               == RowAfter(fields, DecodeFields(specs[i..], scope, info, reader.all, reader.count))
      {
        SpecsStep(fields, specs, i, scope, info, reader.all, reader.count);
        var s := specs[i];
        var raw := reader.Read(s.length);
        if raw.None? { return Bad(ReaderError, reader.count); }
        var key := ElementKey(s.enterpriseNo, s.elementId);
        if key !in info { return Bad(UnknownElement(s.elementId), reader.count); }
        fields := fields + [Decoded(s, scope, info[key], raw.value)];
        i := i + 1;
      }
      NoSpecs(scope, info, reader.all, reader.count);
      assert specs[i..] == [] && fields + [] == fields;
      row := Row(fields, reader.count);
    }

    method DecodeData(t: Template) returns (row: Row)
      requires reader.Valid()
      modifies reader
      ensures reader.Valid()
      ensures row == DecodeRecord(t, info, reader.all, old(reader.count)) && row.pos == reader.count
    {
      hide DecodeFields;
      var fields := DecodeSpecs(t.fields, false);
      if fields.Bad? { return fields; }
      var scope := DecodeSpecs(t.scopeFields, true);
      if scope.Bad? { return scope; }
      row := Row(fields.fields + scope.fields, scope.pos);
    }

    ghost predicate Ready(mem: MemCache<Template>, msg: Message)
      reads reader, mem
    {
      reader.Valid() && mem.Valid()
    }

    /** The record loop of one set. */
    method DecodeBody(mem: MemCache<Template>, msg: Message, id: uint16, length: uint16, start: nat, t: Template)
      returns (err: Option<Error>, stuck: bool)
      requires Ready(mem, msg) && start <= reader.count
      modifies reader, mem, msg
      ensures Ready(mem, msg) && msg.header == old(msg.header) && msg.agent == old(msg.agent)
      ensures var s := SetBody(id, length, start, t, info, reader.all, old(reader.count));
              && reader.count == s.pos && err == s.error && stuck == s.stuck
              && mem.Contents() == InsertedAll(old(mem.Contents()), raddr, s.learned)
              && msg.dataSets == old(msg.dataSets) + s.records
    {
      hide SetBody, Wrap16, U16, ReadAnyTemplate, DecodeRecord, Flatten, Sharded, Inserted, InsertedAll;
      NoInserts(mem.Contents(), raddr);
      ghost var ts: seq<Template>, rs: seq<Record> := [], [];
      ghost var whole := SetBody(id, length, start, t, info, reader.all, reader.count);
      AfterStep(whole, [], [], [], []);
      err, stuck := None, false;
      var done := false;
      while !done
        invariant Ready(mem, msg) && start <= reader.count
        invariant msg.header == old(msg.header) && msg.agent == old(msg.agent)
        invariant mem.Contents() == InsertedAll(old(mem.Contents()), raddr, ts)
        invariant msg.dataSets == old(msg.dataSets) + rs
        invariant if done then whole == SetResult(reader.count, ts, rs, err, stuck)
                  else err == None && !stuck && whole == SetBody(id, length, start, t, info, reader.all, reader.count).After(ts, rs)
        decreases |reader.all| - reader.count, !done
      {
        BodyStep(id, length, start, t, info, reader.all, reader.count, ts, rs);
        var left := reader.Len();
        if !(length > Wrap16(reader.count - start) && left > 4) {
          done := true;
        } else if id == 2 || id == 3 {
          var templateId := reader.PeekUint16();
          if templateId == Some(0) {
            done := true;
          } else {
            var tr := UnmarshalAny(id, reader);
            if tr.Some? {
              InsertedAllAppend(old(mem.Contents()), raddr, ts, tr.value);
              mem.Insert(tr.value.id, raddr, tr.value);
              ts := ts + [tr.value];
            }
          }
        } else if 4 <= id <= 255 {
          done := true;
        } else {
          var before := reader.count;
          var row := DecodeData(t);
          if row.Bad? {
            err, done := Some(row.error), true;
          } else if reader.count == before {
            // The loop would come back here with everything unchanged, for ever.
            stuck, done := true, true;
          } else {
            msg.dataSets := msg.dataSets + [row.fields];
            rs := rs + [row.fields];
          }
        }
      }
    }

    method DecodeSet(mem: MemCache<Template>, rpc: RequestChannel, msg: Message) returns (err: Option<Error>, stuck: bool)
      requires Ready(mem, msg) && |rpc.queue| <= CHANNEL_SIZE
      modifies reader, mem, rpc, msg
      ensures Ready(mem, msg) && msg.header == old(msg.header) && msg.agent == old(msg.agent) && |rpc.queue| <= CHANNEL_SIZE
      ensures var c := old(View(mem.Contents(), raddr));
              var s := Ipfix.DecodeSet(c, info, reader.all, old(reader.count));
              && reader.count == s.pos && err == s.error && stuck == s.stuck
              && mem.Contents() == InsertedAll(old(mem.Contents()), raddr, s.learned)
              && msg.dataSets == old(msg.dataSets) + s.records
              && rpc.queue == Posted(old(rpc.queue), Requests(raddr, Listed(Miss(c, reader.all, old(reader.count)))))
    {
      hide SetBody, Wrap16, U16, Flatten, Sharded, InsertedAll, Lookup, View;
      var start := reader.count;
      NoInserts(mem.Contents(), raddr);
      var id := reader.Uint16();
      if id.None? { return Some(ReaderError), false; }
      var length := reader.Uint16();
      if length.None? { return Some(ReaderError), false; }
      if length.value < 4 { return Some(UnexpectedEOF), false; }

      var tr := NO_TEMPLATE;
      err, stuck := None, false;
      if id.value > 255 {
        ViewLookup(mem.Contents(), id.value, raddr);
        var found := mem.Retrieve(id.value, raddr);
        if found.None? {
          rpc.TryPost(Request(id.value, raddr));
          err := Some(UnknownTemplate(id.value));
        } else {
          tr := found.value;
        }
      }
      if err.None? {
        err, stuck := DecodeBody(mem, msg, id.value, length.value, start, tr);
        if stuck { return; }
      }

      var leftover := Sub16(length.value, Wrap16(reader.count - start));
      if leftover > 0 {
        var skipped := reader.Read(leftover);
        if skipped.None? {
          err := Some(ReaderError);
        }
      }
    }

    method UnmarshalHeader() returns (h: Option<Header>)
      requires reader.Valid() && reader.count == 0
      modifies reader
      ensures reader.Valid()
      ensures h == if |reader.all| < 16 then None else Some(ReadHeader(reader.all))
      ensures h.Some? ==> reader.count == 16
    {
      hide U16, U32;
      var version := reader.Uint16();
      if version.None? { return None; }
      var length := reader.Uint16();
      if length.None? { return None; }
      var exportTime := reader.Uint32();
      if exportTime.None? { return None; }
      var sequenceNo := reader.Uint32();
      if sequenceNo.None? { return None; }
      var domainId := reader.Uint32();
      if domainId.None? { return None; }
      h := Some(Header(version.value, length.value, exportTime.value, sequenceNo.value, domainId.value));
    }

    /** The set loop of Decode. It ends early with an error that `rule` calls fatal,
        and gives up where the loop of a set would never end. */
    method DecodeAllSets(rule: StopRule, mem: MemCache<Template>, rpc: RequestChannel, msg: Message)
      returns (errors: seq<Error>, end: End)
      requires Ready(mem, msg) && |rpc.queue| <= CHANNEL_SIZE
      modifies reader, mem, rpc, msg
      ensures Ready(mem, msg) && msg.header == old(msg.header) && msg.agent == old(msg.agent) && |rpc.queue| <= CHANNEL_SIZE
      ensures var run := DecodeSets(rule, old(View(mem.Contents(), raddr)), info, reader.all, old(reader.count));
              && errors == run.errors && end == run.end
              && mem.Contents() == InsertedAll(old(mem.Contents()), raddr, run.learned)
              && msg.dataSets == old(msg.dataSets) + run.records
              && rpc.queue == Posted(old(rpc.queue), Requests(raddr, run.misses))
    {
      hide Ipfix.DecodeSet, DecodeSets, Miss, Flatten, Sharded, InsertedAll, InsertAll, View, Posted, Requests, Joined, Effect, Advanced;
      ghost var run := DecodeSets(rule, View(mem.Contents(), raddr), info, reader.all, reader.count);
      ghost var before := Nothing(Finished);
      ghost var contents, sets, queue := mem.Contents(), msg.dataSets, rpc.queue;
      errors, end := [], Finished;
      JoinNothing(run);
      NoEffect(raddr, contents, sets, queue);
      var left := reader.Len();
      while left > 4 && end.Finished?
        invariant Ready(mem, msg) && left == |reader.all| - reader.count && |rpc.queue| <= CHANNEL_SIZE
        invariant msg.header == old(msg.header) && msg.agent == old(msg.agent)
        invariant errors == before.errors && end == before.end
        invariant Effect(raddr, before, contents, mem.Contents(), sets, msg.dataSets, queue, rpc.queue)
        invariant if end.Finished? then
                    run == Joined(before, DecodeSets(rule, View(mem.Contents(), raddr), info, reader.all, reader.count))
                  else run == before
        decreases left, end.Finished?
      {
        ghost var c, p, contents', sets', queue' := View(mem.Contents(), raddr), reader.count, mem.Contents(), msg.dataSets, rpc.queue;
        ghost var s, miss := Ipfix.DecodeSet(c, info, reader.all, p), Miss(c, reader.all, p);
        SetsStep(rule, c, info, reader.all, p, before);
        var err, stuck := DecodeSet(mem, rpc, msg);
        ViewInsertedAll(contents', raddr, s.learned);
        if stuck {
          end := Stuck;
          errors := errors + Listed(err);
        } else if err.Some? && rule.AsDocumented? && Fatal(err.value) {
          end := Stopped(err.value);
        } else if err.Some? {
          errors := errors + [err.value];
        }
        EffectStep(raddr, before, s, miss, rule, contents, contents', mem.Contents(), sets, sets', msg.dataSets, queue, queue', rpc.queue);
        before := Advanced(rule, before, s, miss);
        left := reader.Len();
      }
      SetsEnd(rule, View(mem.Contents(), raddr), info, reader.all, reader.count, before);
      EffectMeans(raddr, before, contents, mem.Contents(), sets, msg.dataSets, queue, rpc.queue);
    }

    /** Decode, with the templates it stores, the requests it posts and the message it
        returns; no message is returned for a bad header or, under the documented
        stop rule, after a fatal error. */
    method Decode(rule: StopRule, mem: MemCache<Template>, rpc: RequestChannel)
      returns (msg: Message?, errors: seq<Error>, returned: bool)
      requires reader.Valid() && reader.count == 0 && mem.Valid() && |rpc.queue| <= CHANNEL_SIZE
      modifies reader, mem, rpc
      ensures reader.Valid() && mem.Valid() && |rpc.queue| <= CHANNEL_SIZE
      ensures match Ipfix.Decode(rule, old(View(mem.Contents(), raddr)), info, reader.all)
              case Rejected(e) =>
                && returned && msg == null && errors == [e]
                && mem.Contents() == old(mem.Contents()) && rpc.queue == old(rpc.queue)
              case Accepted(h, run) =>
                && returned == !run.end.Stuck?
                && mem.Contents() == InsertedAll(old(mem.Contents()), raddr, run.learned)
                && View(mem.Contents(), raddr) == InsertAll(old(View(mem.Contents(), raddr)), run.learned)
                && rpc.queue == Posted(old(rpc.queue), Requests(raddr, run.misses))
                && (run.end.Finished? ==>
                      msg != null && fresh(msg) && msg.header == h && msg.agent == raddr && msg.dataSets == run.records && errors == run.errors)
                && (run.end.Stopped? ==> msg == null && errors == [run.end.error])
    {
      hide DecodeSets, ReadHeader, Flatten, Sharded, InsertedAll, InsertAll, View, Posted, Requests;
      returned := true;
      var h := UnmarshalHeader();
      if h.None? { return null, [ReaderError], true; }
      if h.value.version != 0x000a {
        return null, [BadVersion(h.value.version)], true;
      }
      ghost var contents := mem.Contents();
      var m := new Message(h.value, raddr);
      var end;
      errors, end := DecodeAllSets(rule, mem, rpc, m);
      ViewInsertedAll(contents, raddr, DecodeSets(rule, View(contents, raddr), info, reader.all, 16).learned);
      match end {
        case Stuck => return null, errors, false;
        case Stopped(e) => return null, [e], true;
        case Finished => return m, errors, true;
      }
    }
  }

  method UnmarshalAny(id: uint16, r: Reader) returns (t: Option<Template>)
    requires r.Valid()
    modifies r
    ensures r.Valid()
    ensures var p := ReadAnyTemplate(id, r.all, old(r.count));
            r.count == p.pos && t == (if p.Got? then Some(p.value) else None)
  {
    hide ReadTemplate, ReadOptionsTemplate;
    if id == 2 {
      t := UnmarshalTemplate(r);
    } else {
      t := UnmarshalOptions(r);
    }
  }

  /** A record whose first fields have been decoded. */
  function RowAfter(fields: Record, rest: Row): Row {
    if rest.Row? then Row(fields + rest.fields, rest.pos) else rest
  }

  lemma RowAfterNone(r: Row)
    ensures RowAfter([], r) == r
  {
  }

  lemma NoSpecs(scope: bool, info: Elements, b: bytes, p: nat)
    requires p <= |b|
    ensures DecodeFields([], scope, info, b, p) == Row([], p)
  {
  }

  lemma SpecsStep(fields: Record, specs: seq<FieldSpec>, i: nat, scope: bool, info: Elements, b: bytes, p: nat)
    requires p <= |b| && i < |specs|
    ensures var s := specs[i];
            var key := ElementKey(s.enterpriseNo, s.elementId);
            RowAfter(fields, DecodeFields(specs[i..], scope, info, b, p))
            == if |b| - p < s.length then Bad(ReaderError, p)
               else if key !in info then Bad(UnknownElement(s.elementId), p + s.length)
               else RowAfter(fields + [Decoded(s, scope, info[key], b[p..p + s.length])],
                             DecodeFields(specs[i + 1..], scope, info, b, p + s.length))
  {
    hide Decoded;
    assert specs[i..][1..] == specs[i + 1..];
    var s := specs[i];
    var key := ElementKey(s.enterpriseNo, s.elementId);
    if s.length <= |b| - p && key in info {
      var d := Decoded(s, scope, info[key], b[p..p + s.length]);
      var rest := DecodeFields(specs[i + 1..], scope, info, b, p + s.length);
      if rest.Row? {
        assert fields + ([d] + rest.fields) == fields + [d] + rest.fields;
      }
    }
  }

  /** One turn of the record loop. */
  lemma BodyStep(id: uint16, length: uint16, start: nat, t: Template, info: Elements, b: bytes, p: nat,
                 ts: seq<Template>, rs: seq<Record>)
    requires start <= p <= |b|
    ensures SetBody(id, length, start, t, info, b, p).After(ts, rs)
         == if !More(length, start, b, p) then SetResult(p, ts, rs, None, false)
            else if IsTemplateSet(id) then
              if U16(b, p) == 0 then SetResult(p, ts, rs, None, false)
              else
                var tr := ReadAnyTemplate(id, b, p);
                if tr.Got? then SetBody(id, length, start, t, info, b, tr.pos).After(ts + [tr.value], rs)
                else SetBody(id, length, start, t, info, b, tr.pos).After(ts, rs)
            else if IsReservedSet(id) then SetResult(p, ts, rs, None, false)
            else
              var row := DecodeRecord(t, info, b, p);
              if row.Bad? then SetResult(row.pos, ts, rs, Some(row.error), false)
              else if row.pos == p then SetResult(p, ts, rs, None, true)
              else SetBody(id, length, start, t, info, b, row.pos).After(ts, rs + [row.fields])
  {
    hide Wrap16, U16, ReadAnyTemplate, DecodeRecord;
    assert ts + [] == ts && rs + [] == rs;
    if More(length, start, b, p) {
      if IsTemplateSet(id) && U16(b, p) != 0 {
        var tr := ReadAnyTemplate(id, b, p);
        if tr.Got? {
          AfterStep(SetBody(id, length, start, t, info, b, tr.pos), ts, rs, [tr.value], []);
        }
      } else if IsDataSet(id) {
        var row := DecodeRecord(t, info, b, p);
        if row.Row? && row.pos != p {
          AfterStep(SetBody(id, length, start, t, info, b, row.pos), ts, rs, [], [row.fields]);
        }
      }
    }
  }

  // ---------- The set loop

  /** What was decoded before, and the rest. */
  function Joined(before: Run, rest: Run): Run {
    Run(before.learned + rest.learned, before.records + rest.records,
        before.errors + rest.errors, before.misses + rest.misses, rest.end)
  }

  /** What was decoded before, with one more set. */
  function Advanced(rule: StopRule, before: Run, s: SetResult, miss: Option<uint16>): Run {
    Run(before.learned + s.learned, before.records + s.records,
        if !s.stuck && Stops(rule, s) then before.errors else before.errors + Listed(s.error),
        before.misses + Listed(miss),
        if s.stuck then Stuck else if Stops(rule, s) then Stopped(s.error.value) else Finished)
  }

  lemma JoinNothing(r: Run)
    ensures Joined(Nothing(Finished), r) == r
  {
  }

  lemma SetsStep(rule: StopRule, c: Templates, info: Elements, b: bytes, p: nat, before: Run)
    requires p <= |b| && |b| - p > 4
    ensures var s, miss := Ipfix.DecodeSet(c, info, b, p), Miss(c, b, p);
            var next := Advanced(rule, before, s, miss);
            && next.errors == before.errors + (if next.end.Stopped? then [] else Listed(s.error))
            && next.end == (if s.stuck then Stuck else if Stops(rule, s) then Stopped(s.error.value) else Finished)
            && Joined(before, DecodeSets(rule, c, info, b, p))
               == if next.end.Finished? then Joined(next, DecodeSets(rule, InsertAll(c, s.learned), info, b, s.pos))
                  else next
  {
    hide Ipfix.DecodeSet, Miss, InsertAll, Fatal;
    var s, miss := Ipfix.DecodeSet(c, info, b, p), Miss(c, b, p);
    if s.stuck || Stops(rule, s) {
      JoinEnd(before, s, miss, if s.stuck then Stuck else Stopped(s.error.value));
      JoinEnd(before, s.(error := None), miss, if s.stuck then Stuck else Stopped(s.error.value));
    } else {
      JoinAfter(before, s, miss, DecodeSets(rule, InsertAll(c, s.learned), info, b, s.pos));
    }
  }

  lemma JoinEnd(before: Run, s: SetResult, miss: Option<uint16>, end: End)
    ensures Joined(before, Nothing(end).After(s, miss))
         == Run(before.learned + s.learned, before.records + s.records, before.errors + Listed(s.error), before.misses + Listed(miss), end)
    ensures before.errors + [] == before.errors
  {
    hide Listed;
    assert s.learned + [] == s.learned && s.records + [] == s.records;
    assert Listed(s.error) + [] == Listed(s.error) && Listed(miss) + [] == Listed(miss);
  }

  lemma JoinAfter(before: Run, s: SetResult, miss: Option<uint16>, rest: Run)
    ensures Joined(before, rest.After(s, miss))
         == Joined(Run(before.learned + s.learned, before.records + s.records, before.errors + Listed(s.error), before.misses + Listed(miss), Finished), rest)
  {
    hide Listed;
    assert before.learned + (s.learned + rest.learned) == before.learned + s.learned + rest.learned;
    assert before.records + (s.records + rest.records) == before.records + s.records + rest.records;
    assert before.errors + (Listed(s.error) + rest.errors) == before.errors + Listed(s.error) + rest.errors;
    assert before.misses + (Listed(miss) + rest.misses) == before.misses + Listed(miss) + rest.misses;
  }

  lemma SetsEnd(rule: StopRule, c: Templates, info: Elements, b: bytes, p: nat, before: Run)
    requires p <= |b|
    ensures |b| - p <= 4 ==> Joined(before, DecodeSets(rule, c, info, b, p)) == before.(end := Finished)
  {
  }

  /** The effect of a run on the cache, the message and the request channel. */
  ghost predicate Effect(addr: bytes, r: Run, c: Flat<Template>, c': Flat<Template>,
                         sets: seq<Record>, sets': seq<Record>, queue: seq<Request>, queue': seq<Request>)
  {
    && c' == InsertedAll(c, addr, r.learned)
    && sets' == sets + r.records
    && queue' == Posted(queue, Requests(addr, r.misses))
  }

  lemma EffectMeans(addr: bytes, r: Run, c: Flat<Template>, c': Flat<Template>,
                    sets: seq<Record>, sets': seq<Record>, queue: seq<Request>, queue': seq<Request>)
    requires Effect(addr, r, c, c', sets, sets', queue, queue')
    ensures c' == InsertedAll(c, addr, r.learned) && sets' == sets + r.records
    ensures queue' == Posted(queue, Requests(addr, r.misses))
  {
  }

  lemma NoEffect(addr: bytes, c: Flat<Template>, sets: seq<Record>, queue: seq<Request>)
    ensures Effect(addr, Nothing(Finished), c, c, sets, sets, queue, queue)
  {
    assert sets + [] == sets;
  }

  lemma EffectStep(addr: bytes, before: Run, s: SetResult, miss: Option<uint16>, rule: StopRule,
                   c: Flat<Template>, c': Flat<Template>, c'': Flat<Template>,
                   sets: seq<Record>, sets': seq<Record>, sets'': seq<Record>,
                   queue: seq<Request>, queue': seq<Request>, queue'': seq<Request>)
    requires Effect(addr, before, c, c', sets, sets', queue, queue')
    requires c'' == InsertedAll(c', addr, s.learned) && sets'' == sets' + s.records
    requires queue'' == Posted(queue', Requests(addr, Listed(miss)))
    ensures Effect(addr, Advanced(rule, before, s, miss), c, c'', sets, sets'', queue, queue'')
  {
    hide InsertedAll, Posted, Requests, Listed;
    InsertedAllTwice(c, addr, before.learned, s.learned);
    PostedTwice(queue, addr, before.misses, Listed(miss));
    assert sets + before.records + s.records == sets + (before.records + s.records);
  }

  lemma PostedTwice(queue: seq<Request>, addr: bytes, ids: seq<uint16>, more: seq<uint16>)
    ensures Posted(Posted(queue, Requests(addr, ids)), Requests(addr, more)) == Posted(queue, Requests(addr, ids + more))
  {
  }
}
