/** Whose template a node answers with: exactly when every answer in every reachable
    state of the cluster is a template of the exporter that was asked about. */
module TemplateOwnership {
  import opened Bytes
  import opened Fnv
  import opened Memcache
  import opened InfoModel
  import opened Ipfix
  import opened TemplateSharing
  import IpfixDecoder
  import IpfixExport
  import IpfixRoundTrip
  import IpfixMessage

  /** The exporter and the template id of an observation. */
  function PairOf(o: Observation): Pair {
    (o.source.addr, o.template.id)
  }

  /** Every template record of the run is one of the pairs in use. */
  ghost predicate LearnsWithin(es: seq<Step>, use: Pairs) {
    forall i | 0 <= i < |Observed(es)| :: use(PairOf(Observed(es)[i]))
  }

  /** The exporter sent this template with this id, and a decoder read it. */
  ghost predicate Sent(parsed: seq<Observation>, addr: bytes, id: uint16, t: Template) {
    exists i | 0 <= i < |parsed| :: Genuine(parsed[i]) && PairOf(parsed[i]) == (addr, id) && parsed[i].template == t
  }

  /** Every node answers for the pairs in use with the asked exporter's own template. */
  ghost predicate AnswersOwn(s: Cluster, use: Pairs) {
    forall n, id: uint16, addr: bytes | 0 <= n < |s.nodes| && use((addr, id)) ::
      Lookup(s.nodes[n].cache, id, addr).Some? ==> Sent(s.parsed, addr, id, Lookup(s.nodes[n].cache, id, addr).value)
  }

  ghost predicate AlwaysOwn(use: Pairs) {
    forall s: Cluster, es | Initial(s) && Possible(s, es) && LearnsWithin(es, use) :: AnswersOwn(After(s, es), use)
  }

  // ---------- A hash that separates is enough

  lemma SeparatedOwn(s: Cluster, es: seq<Step>, use: Pairs)
    requires Separates(use) && Initial(s) && Possible(s, es) && LearnsWithin(es, use)
    ensures AnswersOwn(After(s, es), use)
  {
    hide Possible, After, Initial, Genuine, Key;
    var r := After(s, es);
    Provenance(s, es);
    ObservedParsed(s, es);
    StartsEmpty(s);
    assert r.parsed == Observed(es);
    forall n, id: uint16, addr: bytes | 0 <= n < |r.nodes| && use((addr, id)) && Lookup(r.nodes[n].cache, id, addr).Some?
      ensures Sent(r.parsed, addr, id, Lookup(r.nodes[n].cache, id, addr).value)
    {
      var t := Lookup(r.nodes[n].cache, id, addr).value;
      assert NodeSound(r.nodes[n], r.parsed);
      assert Seen(r.parsed, Key(id, addr), t);
      var i :| 0 <= i < |r.parsed| && From(r.parsed[i], Key(id, addr), t);
      SamePair(r.parsed[i], id, addr, t, use);
    }
  }

  lemma StartsEmpty(s: Cluster)
    requires Initial(s)
    ensures s.parsed == []
  {
  }

  lemma SamePair(o: Observation, id: uint16, addr: bytes, t: Template, use: Pairs)
    requires Separates(use) && use((addr, id)) && use(PairOf(o)) && From(o, Key(id, addr), t)
    ensures Genuine(o) && PairOf(o) == (addr, id) && o.template == t
  {
    hide Genuine, Key;
    var p, q: Pair := PairOf(o), (addr, id);
    assert Key(p.1, p.0) == Key(q.1, q.0);
  }

  // ---------- And it is needed

  /** The message with which an exporter announces one template. */
  function Announcement(h: Header, t: Template): bytes {
    IpfixExport.EncodeHeader(h) + IpfixExport.EncodeSets([IpfixExport.TemplateSet([t], 0)])
  }

  ghost predicate CanAnnounce(h: Header, t: Template) {
    h.version == 10 && IpfixExport.CanExport(IpfixExport.TemplateSet([t], 0), map[], map[])
  }

  /** Decode accepts it, whatever the cache, and learns the template. */
  lemma AnnouncementDecoded(rule: StopRule, h: Header, t: Template, c: Templates, info: Elements)
    requires CanAnnounce(h, t)
    ensures var b := Announcement(h, t);
            && |b| >= 16 && ReadHeader(b).version == 10
            && DecodeSets(rule, c, info, b, 16) == Run([t], [], [], [], Finished)
  {
    hide IpfixExport.EncodeHeader, IpfixExport.EncodeSets, DecodeSets, IpfixExport.CanExportAll, IpfixExport.AllSeparable,
      IpfixExport.AnnouncedAll, IpfixExport.ShownAll, IpfixMessage.Calls, IpfixMessage.OwnResults;
    var ss := [IpfixExport.TemplateSet([t], 0)];
    OneTemplateSet(h, t, c, info);
    IpfixMessage.EverySetRoundTripIff(rule, h, ss, c, info);
    IpfixRoundTrip.AcceptedRun(rule, h, IpfixExport.EncodeSets(ss), c, info);
  }

  lemma OneTemplateSet(h: Header, t: Template, c: Templates, info: Elements)
    requires CanAnnounce(h, t)
    ensures var ss := [IpfixExport.TemplateSet([t], 0)];
            && IpfixExport.CanExportAll(ss, c, info) && IpfixExport.AllSeparable(ss, [])
            && IpfixExport.AnnouncedAll(ss) == [t] && IpfixExport.ShownAll(ss, c, info) == []
  {
    hide IpfixExport.EncodeSet, IpfixExport.EncodeTemplates, IpfixExport.AllExportable, InsertAll;
    var ss := [IpfixExport.TemplateSet([t], 0)];
    assert ss[1..] == [];
    var c' := InsertAll(c, [t]);
    assert IpfixExport.CanExportAll([], c', info) && IpfixExport.AllSeparable([], []);
    assert IpfixExport.AnnouncedAll([]) == [] && IpfixExport.ShownAll([], c', info) == [];
    assert IpfixExport.ShownSet(ss[0], c, info) == [];
  }

  /** A node that decodes the announcement of one exporter answers with it for another
      one whose id has the same key, and which never sent a template. */
  lemma ForeignTemplate(h: Header, t: Template, addr: bytes, id: uint16, other: bytes, rule: StopRule, info: Elements)
    returns (es: seq<Step>)
    requires CanAnnounce(h, t) && addr != other && Key(t.id, addr) == Key(id, other)
    ensures var s := Cluster([FRESH], []);
            && Initial(s) && Possible(s, es)
            && Lookup(After(s, es).nodes[0].cache, id, other) == Some(t)
            && |After(s, es).parsed| == 1
            && After(s, es).parsed[0].source == Source(addr, Announcement(h, t), rule, info)
            && After(s, es).parsed[0].template == t
  {
    hide Possible, After, Key, CanAnnounce, Announcement, DecodeSets, ReadHeader, Observed, IpfixDecoder.Posted, IpfixDecoder.Requests;
    var s, src := Cluster([FRESH], []), Source(addr, Announcement(h, t), rule, info);
    EmptyView(addr);
    AnnouncementDecoded(rule, h, t, map[], info);
    es := DecodeSteps(s, 0, src, [], 16);
    ObservedParsed(s, es);
    assert [t][1..] == [];
    OneObserved(Observed(es), src, t);
    assert [] + Observed(es) == Observed(es);
    OneInsert(addr, t);
  }

  lemma EmptyView(addr: bytes)
    ensures View<Template>(map[], addr) == map[]
  {
    hide Key;
  }

  lemma OneObserved(os: seq<Observation>, src: Source, t: Template)
    requires AllFrom(os, src, [t])
    ensures |os| == 1 && os[0].source == src && os[0].template == t
  {
    assert [t][1..] == [];
    assert os[1..] == [];
  }

  lemma OneInsert(addr: bytes, t: Template)
    ensures IpfixDecoder.InsertedAll(map[], addr, [t]) == map[Key(t.id, addr) := t]
  {
    hide Key;
    assert [t][1..] == [];
  }

  /** Any template of one field; its id is 256 or more. */
  function SomeTemplate(id: uint16): Template {
    Template(id, 1, [FieldSpec(1, 1, 0)], 0, [])
  }

  const SOME_HEADER := Header(10, 0, 0, 0, 0)

  lemma SomeTemplateFits(id: uint16)
    requires id >= 256
    ensures CanAnnounce(SOME_HEADER, SomeTemplate(id))
  {
    var t := SomeTemplate(id);
    var f := t.fields;
    assert f[1..] == [] && [t][1..] == [];
    assert IpfixExport.AllReadable(f);
    assert IpfixExport.Exportable(t) && IpfixExport.AllExportable([t]);
    assert |IpfixExport.EncodeFields(f)| == 4;
    assert |IpfixExport.EncodeTemplate(t)| == 8;
    assert |IpfixExport.EncodeTemplates([t])| == 8;
  }

  lemma CollisionForeign(p: Pair, q: Pair, use: Pairs)
    requires use(p) && use(q) && p != q && Key(p.1, p.0) == Key(q.1, q.0) && p.1 >= 256
    ensures !AlwaysOwn(use)
  {
    hide Possible, After, Key, Observed, Initial, Genuine;
    if p.0 == q.0 {
      KeyInjectivePerExporter(p.0, p.1, q.1);
    } else {
      var t := SomeTemplate(p.1);
      SomeTemplateFits(p.1);
      var es := ForeignTemplate(SOME_HEADER, t, p.0, q.1, q.0, AsWritten, map[]);
      var s := Cluster([FRESH], []);
      var r := After(s, es);
      ObservedParsed(s, es);
      assert [] + Observed(es) == Observed(es);
      assert LearnsWithin(es, use);
      assert !Sent(r.parsed, q.0, q.1, t);
      assert 0 < |r.nodes| && use((q.0, q.1));
      assert !AnswersOwn(r, use);
    }
  }

  /** For a set of exporter and template id pairs, with ids of 256 and more: in every
      run of every cluster that parses templates of those pairs only, each lookup of one
      of them is answered with a template that the asked exporter itself sent with that
      id, if and only if the hash separates the pairs. */
  lemma AlwaysOwnIff(use: Pairs)
    requires forall p | use(p) :: p.1 >= 256
    ensures AlwaysOwn(use) <==> Separates(use)
  {
    hide Possible, After, Key, LearnsWithin, AnswersOwn, Initial;
    if Separates(use) {
      forall s: Cluster, es | Initial(s) && Possible(s, es) && LearnsWithin(es, use)
        ensures AnswersOwn(After(s, es), use)
      {
        SeparatedOwn(s, es, use);
      }
    } else {
      var p, q :| use(p) && use(q) && Key(p.1, p.0) == Key(q.1, q.0) && p != q;
      CollisionForeign(p, q, use);
    }
  }

  /** For a single exporter that is always so. */
  lemma OneExporterOwn(addr: bytes)
    ensures AlwaysOwn((p: Pair) => p.0 == addr && p.1 >= 256)
  {
    hide AlwaysOwn, Key;
    var use := (p: Pair) => p.0 == addr && p.1 >= 256;
    assert Separates(use) by { OneExporterSeparated(addr); }
    AlwaysOwnIff(use);
  }

  /** For some two exporters it is not. */
  lemma TwoExportersForeign()
    ensures exists x: bytes, y: bytes | |x| == |y| == 16 && x != y ::
              !AlwaysOwn((p: Pair) => (p.0 == x || p.0 == y) && p.1 >= 256)
  {
    hide AlwaysOwn, Key;
    ExportersCollide();
    var x: bytes, y: bytes :| |x| == |y| == 16 && x != y && ShareKeys(x, y);
    var use := (p: Pair) => (p.0 == x || p.0 == y) && p.1 >= 256;
    assert Key(256, x) == Key(256, y);
    var p, q: Pair := (x, 256), (y, 256);
    assert use(p) && use(q) && p != q;
    CollisionForeign(p, q, use);
  }
}
