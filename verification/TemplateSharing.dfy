/** Template sharing between vFlow nodes (ipfix/memcache_rpc.go), as a protocol: the
    decoders of every node, its request channel and its RPC loop take steps in any
    order. */
module TemplateSharing {
  import opened Bytes
  import opened Fnv
  import opened Memcache
  import opened Ipfix
  import opened IpfixDecoder
  import opened InfoModel

  // ---------- Template records as a decoder meets them

  /** A datagram from exporter `addr`, and how it is decoded. */
  datatype Source = Source(addr: bytes, datagram: bytes, rule: StopRule, info: Elements)

  /** Where Decode stands after as many sets as there are views, from position p. Each
      view is the exporter's part of the cache when that set was read: other workers and
      the RPC loop may change the cache between two sets. */
  function Arrived(rule: StopRule, info: Elements, b: bytes, p: nat, views: seq<Templates>): (r: Option<nat>)
    requires p <= |b|
    ensures r.Some? ==> p <= r.value <= |b|
    decreases |views|
  {
    if views == [] then Some(p)
    else if |b| - p <= 4 then None
    else
      var s := DecodeSet(views[0], info, b, p);
      if s.stuck || Stops(rule, s) then None else Arrived(rule, info, b, s.pos, views[1..])
  }

  /** From p the record loop of a template set comes to q. */
  predicate LoopArrives(id: uint16, length: uint16, start: nat, b: bytes, p: nat, q: nat)
    requires start <= p <= |b|
    decreases |b| - p
  {
    p == q || (ReadsTemplate(length, start, b, p) && LoopArrives(id, length, start, b, ReadAnyTemplate(id, b, p).pos, q))
  }

  /** The record loop of a template set reads a record at p. */
  predicate ReadsTemplate(length: uint16, start: nat, b: bytes, p: nat)
    requires start <= p <= |b|
  {
    More(length, start, b, p) && U16(b, p) != 0
  }

  /** The template record that a decoder reads at `pos`, in the set at `start`. */
  datatype Observation = Observation(source: Source, views: seq<Templates>, start: nat, pos: nat, template: Template)

  /** Decode accepts the datagram and comes to a set at start; the set holds templates,
      its record loop comes to pos, and the record there is the template. */
  ghost predicate Genuine(o: Observation) {
    var b := o.source.datagram;
    && |b| >= 16 && ReadHeader(b).version == 10
    && Arrived(o.source.rule, o.source.info, b, 16, o.views) == Some(o.start)
    && |b| - o.start > 4 && 4 <= U16(b, o.start + 2) && IsTemplateSet(U16(b, o.start))
    && o.start <= o.pos <= |b|
    && LoopArrives(U16(b, o.start), U16(b, o.start + 2), o.start, b, o.start + 4, o.pos)
    && ReadsTemplate(U16(b, o.start + 2), o.start, b, o.pos)
    && var r := ReadAnyTemplate(U16(b, o.start), b, o.pos);
       r.Got? && r.value == o.template
  }

  /** t is what was parsed, and k is the key of its exporter and id. */
  ghost predicate From(o: Observation, k: uint32, t: Template) {
    Genuine(o) && o.template == t && Key(t.id, o.source.addr) == k
  }

  // ---------- The protocol

  /** Where the RPC loop of a node stands: waiting for a request, asking its peers
      one by one, or holding an answer that it has not stored yet. */
  datatype Loop =
    | Waiting
    | Asking(request: Request, peers: seq<nat>)
    | Holding(request: Request, answer: Template)

  datatype Node = Node(cache: Flat<Template>, channel: seq<Request>, loop: Loop)

  /** All nodes, and every template record ever parsed. */
  datatype Cluster = Cluster(nodes: seq<Node>, parsed: seq<Observation>)

  datatype Step =
    /** A decoder parses a template record and inserts it. */
    | Learn(n: nat, o: Observation)
    /** A decoder has found no template for a set and posts a request. Another worker may
        have inserted one since. */
    | Ask(n: nat, q: Request)
    /** The RPC loop receives a request and lists the peers to ask. */
    | Take(n: nat, peers: seq<nat>)
    /** The next peer cannot be reached, or has no template. */
    | Pass(n: nat)
    /** The next peer answers from its cache. */
    | Answer(n: nat)
    /** The RPC loop inserts the answer. */
    | Store(n: nat)
    /** No peer is left to ask. */
    | GiveUp(n: nat)

  ghost predicate Enabled(s: Cluster, e: Step) {
    && e.n < |s.nodes|
    && var node := s.nodes[e.n];
       match e {
         case Learn(_, o) => Genuine(o)
         case Ask(_, _) => true
         case Take(_, peers) => node.loop.Waiting? && node.channel != []
         case Pass(_) => node.loop.Asking? && node.loop.peers != []
         case Answer(_) =>
           && node.loop.Asking? && node.loop.peers != [] && node.loop.peers[0] < |s.nodes|
           && Lookup(s.nodes[node.loop.peers[0]].cache, node.loop.request.id, node.loop.request.addr).Some?
         case Store(_) => node.loop.Holding?
         case GiveUp(_) => node.loop.Asking? && node.loop.peers == []
       }
  }

  /** The stepping node after its step. */
  function NodeAfter(s: Cluster, e: Step): Node
    requires Enabled(s, e)
  {
    var node := s.nodes[e.n];
    match e
    case Learn(_, o) => node.(cache := Inserted(node.cache, o.template.id, o.source.addr, o.template))
    case Ask(_, q) => node.(channel := Posted(node.channel, [q]))
    case Take(_, peers) => node.(channel := node.channel[1..], loop := Asking(node.channel[0], peers))
    case Pass(_) => node.(loop := node.loop.(peers := node.loop.peers[1..]))
    case Answer(_) =>
      var q := node.loop.request;
      node.(loop := Holding(q, Lookup(s.nodes[node.loop.peers[0]].cache, q.id, q.addr).value))
    case Store(_) =>
      var q := node.loop.request;
      node.(cache := Inserted(node.cache, q.id, q.addr, node.loop.answer), loop := Waiting)
    case GiveUp(_) => node.(loop := Waiting)
  }

  function Apply(s: Cluster, e: Step): Cluster
    requires Enabled(s, e)
  {
    Cluster(s.nodes[e.n := NodeAfter(s, e)], if e.Learn? then s.parsed + [e.o] else s.parsed)
  }

  ghost predicate Possible(s: Cluster, es: seq<Step>)
    decreases |es|
  {
    es != [] ==> Enabled(s, es[0]) && Possible(Apply(s, es[0]), es[1..])
  }

  ghost function After(s: Cluster, es: seq<Step>): (s': Cluster)
    requires Possible(s, es)
    ensures |s'.nodes| == |s.nodes|
    decreases |es|
  {
    if es == [] then s else After(Apply(s, es[0]), es[1..])
  }

  const FRESH := Node(map[], [], Waiting)

  ghost predicate Initial(s: Cluster) {
    s.parsed == [] && forall i | 0 <= i < |s.nodes| :: s.nodes[i] == FRESH
  }

  // ---------- Provenance

  ghost predicate Seen(parsed: seq<Observation>, k: uint32, t: Template) {
    exists i | 0 <= i < |parsed| :: From(parsed[i], k, t)
  }

  ghost predicate NodeSound(node: Node, parsed: seq<Observation>) {
    && |node.channel| <= CHANNEL_SIZE
    && (forall k | k in node.cache :: Seen(parsed, k, node.cache[k]))
    && (node.loop.Holding? ==> Seen(parsed, Key(node.loop.request.id, node.loop.request.addr), node.loop.answer))
  }

  /** At most one request is pending at each node, and everything stored or about to
      be stored under a key was read by a decoder from a template set of an exporter,
      whose address and template id have that key. */
  ghost predicate Sound(s: Cluster) {
    forall i | 0 <= i < |s.nodes| :: NodeSound(s.nodes[i], s.parsed)
  }

  lemma FromGenuine(o: Observation)
    requires Genuine(o)
    ensures From(o, Key(o.template.id, o.source.addr), o.template)
  {
  }

  lemma SeenMore(parsed: seq<Observation>, o: Observation, k: uint32, t: Template)
    ensures Seen(parsed, k, t) ==> Seen(parsed + [o], k, t)
    ensures From(o, k, t) ==> Seen(parsed + [o], k, t)
  {
    hide From;
    var more := parsed + [o];
    assert more[|parsed|] == o;
    if i :| 0 <= i < |parsed| && From(parsed[i], k, t) {
      assert more[i] == parsed[i];
    }
  }

  lemma NodeSoundMore(node: Node, parsed: seq<Observation>, o: Observation)
    requires NodeSound(node, parsed)
    ensures NodeSound(node, parsed + [o])
  {
    hide Seen, Key;
    forall k | k in node.cache
      ensures Seen(parsed + [o], k, node.cache[k])
    {
      SeenMore(parsed, o, k, node.cache[k]);
    }
    if node.loop.Holding? {
      SeenMore(parsed, o, Key(node.loop.request.id, node.loop.request.addr), node.loop.answer);
    }
  }

  lemma StepSound(s: Cluster, e: Step)
    requires Sound(s) && Enabled(s, e)
    ensures NodeSound(NodeAfter(s, e), Apply(s, e).parsed)
  {
    hide From, Seen, Key, Genuine;
    var node := s.nodes[e.n];
    assert NodeSound(node, s.parsed);
    if e.Learn? {
      NodeSoundMore(node, s.parsed, e.o);
      var t := e.o.template;
      FromGenuine(e.o);
      SeenMore(s.parsed, e.o, Key(t.id, e.o.source.addr), t);
    } else if e.Answer? {
      assert NodeSound(s.nodes[node.loop.peers[0]], s.parsed);
    }
  }

  lemma OneStepSound(s: Cluster, e: Step)
    requires Sound(s) && Enabled(s, e)
    ensures Sound(Apply(s, e))
  {
    hide NodeSound, NodeAfter, From, Lookup, Genuine;
    StepSound(s, e);
    forall i | 0 <= i < |s.nodes| && i != e.n
      ensures NodeSound(s.nodes[i], Apply(s, e).parsed)
    {
      if e.Learn? {
        NodeSoundMore(s.nodes[i], s.parsed, e.o);
      }
    }
  }

  lemma {:induction false} RunSound(s: Cluster, es: seq<Step>)
    requires Sound(s) && Possible(s, es)
    ensures Sound(After(s, es))
    decreases |es|
  {
    hide Sound, Enabled, Apply;
    if es != [] {
      OneStepSound(s, es[0]);
      RunSound(Apply(s, es[0]), es[1..]);
    }
  }

  /** In every reachable state of any number of nodes. */
  lemma Provenance(s: Cluster, es: seq<Step>)
    requires Initial(s) && Possible(s, es)
    ensures Sound(After(s, es))
  {
    hide Seen, Possible, After;
    RunSound(s, es);
  }

  // ---------- Keys stay, misses do not wait

  lemma {:induction false} KeysStay(s: Cluster, es: seq<Step>, n: nat, k: uint32)
    requires n < |s.nodes| && k in s.nodes[n].cache && Possible(s, es)
    ensures n < |After(s, es).nodes| && k in After(s, es).nodes[n].cache
    decreases |es|
  {
    hide From, Key, Genuine;
    if es != [] {
      KeysStay(Apply(s, es[0]), es[1..], n, k);
    }
  }

  /** A decoder that misses a template can post its request in every state, at once:
      the channel then holds it, or one that was there before. */
  lemma MissNeverWaits(s: Cluster, n: nat, q: Request)
    requires Sound(s) && n < |s.nodes|
    ensures Enabled(s, Ask(n, q))
    ensures var channel := Apply(s, Ask(n, q)).nodes[n].channel;
            |channel| == CHANNEL_SIZE && (channel == [q] || channel == s.nodes[n].channel)
  {
    assert NodeSound(s.nodes[n], s.parsed);
  }

  // ---------- A peer that has the template can supply it

  /** Node n passes over k peers. */
  function Passing(n: nat, k: nat): seq<Step> {
    if k == 0 then [] else [Pass(n)] + Passing(n, k - 1)
  }

  lemma {:induction false} PassedOver(s: Cluster, n: nat, q: Request, peers: seq<nat>, k: nat)
    requires n < |s.nodes| && s.nodes[n].loop == Asking(q, peers) && k <= |peers|
    ensures Possible(s, Passing(n, k))
    ensures After(s, Passing(n, k)) == s.(nodes := s.nodes[n := s.nodes[n].(loop := Asking(q, peers[k..]))])
    decreases k
  {
    hide Key, From, Genuine, Lookup;
    if k == 0 {
      assert peers[0..] == peers;
      assert s.nodes == s.nodes[n := s.nodes[n]];
    } else {
      var s' := Apply(s, Pass(n));
      assert Passing(n, k)[1..] == Passing(n, k - 1);
      PassedOver(s', n, q, peers[1..], k - 1);
      assert peers[1..][k - 1..] == peers[k..];
    }
  }

  /** Whatever peers are listed, one of them that has the template can supply it: the
      node passes over those before it, takes its answer and stores it. */
  lemma MissRepaired(s: Cluster, n: nat, peers: seq<nat>, i: nat, q: Request)
    requires n < |s.nodes| && s.nodes[n].loop.Waiting? && s.nodes[n].channel == [q]
    requires i < |peers| && peers[i] < |s.nodes| && Lookup(s.nodes[peers[i]].cache, q.id, q.addr).Some?
    ensures var es := [Take(n, peers)] + Passing(n, i) + [Answer(n), Store(n)];
            && Possible(s, es)
            && Lookup(After(s, es).nodes[n].cache, q.id, q.addr) == Lookup(s.nodes[peers[i]].cache, q.id, q.addr)
            && After(s, es).nodes[n].loop.Waiting? && After(s, es).nodes[n].channel == []
  {
    hide Key, From, Genuine, Possible, After;
    Taken(s, n, peers, q);
    var s1 := After(s, [Take(n, peers)]);
    PassedOver(s1, n, q, peers, i);
    Compose(s, [Take(n, peers)], Passing(n, i));
    var s2 := After(s1, Passing(n, i));
    assert s2.nodes[peers[i]].cache == s.nodes[peers[i]].cache;
    AnsweredAndStored(s2, n, q, peers[i..]);
    Compose(s, [Take(n, peers)] + Passing(n, i), [Answer(n), Store(n)]);
  }

  lemma Taken(s: Cluster, n: nat, peers: seq<nat>, q: Request)
    requires n < |s.nodes| && s.nodes[n].loop.Waiting? && s.nodes[n].channel == [q]
    ensures Possible(s, [Take(n, peers)])
    ensures After(s, [Take(n, peers)]) == s.(nodes := s.nodes[n := s.nodes[n].(channel := [], loop := Asking(q, peers))])
  {
    hide Key, From, Genuine, Lookup;
    assert [Take(n, peers)][1..] == [];
    assert [q][1..] == [];
  }

  lemma AnsweredAndStored(s: Cluster, n: nat, q: Request, peers: seq<nat>)
    requires n < |s.nodes| && s.nodes[n].loop == Asking(q, peers) && peers != [] && peers[0] < |s.nodes|
    requires Lookup(s.nodes[peers[0]].cache, q.id, q.addr).Some?
    ensures var es := [Answer(n), Store(n)];
            && Possible(s, es)
            && Lookup(After(s, es).nodes[n].cache, q.id, q.addr) == Lookup(s.nodes[peers[0]].cache, q.id, q.addr)
            && After(s, es).nodes[n].loop.Waiting? && After(s, es).nodes[n].channel == s.nodes[n].channel
  {
    hide Key, From, Genuine;
    var es := [Answer(n), Store(n)];
    var s1 := Apply(s, es[0]);
    var s2 := Apply(s1, es[1]);
    assert es[1..] == [Store(n)] && [Store(n)][1..] == [];
    assert Possible(s1, [Store(n)]) && After(s1, [Store(n)]) == s2;
  }

  /** The peers that node n passes over in a run. */
  function Passes(es: seq<Step>, n: nat): nat
    decreases |es|
  {
    if es == [] then 0 else (if es[0] == Pass(n) then 1 else 0) + Passes(es[1..], n)
  }

  /** The run neither answers nor receives a request for node n. */
  predicate Unanswered(es: seq<Step>, n: nat)
    decreases |es|
  {
    es != [] ==> (es[0].n == n ==> !es[0].Answer? && !es[0].Take?) && Unanswered(es[1..], n)
  }

  /** However the nodes interleave, a node asks its peers one after the other until one
      answers, and without an answer it gives up only after the last. */
  lemma {:induction false} AsksAll(s: Cluster, es: seq<Step>, n: nat, q: Request, peers: seq<nat>)
    requires n < |s.nodes| && s.nodes[n].loop == Asking(q, peers) && Possible(s, es) && Unanswered(es, n)
    ensures var loop, k := After(s, es).nodes[n].loop, Passes(es, n);
            k <= |peers| && (loop == Asking(q, peers[k..]) || (loop.Waiting? && k == |peers|))
    decreases |es|
  {
    hide Key, From, Genuine, Lookup;
    if es == [] {
      assert peers[0..] == peers;
    } else {
      var e, s' := es[0], Apply(s, es[0]);
      if e == GiveUp(n) {
        StaysWaiting(s', es[1..], n);
      } else if e == Pass(n) {
        AsksAll(s', es[1..], n, q, peers[1..]);
        var k := Passes(es[1..], n);
        assert peers[1..][k..] == peers[k + 1..];
      } else {
        AsksAll(s', es[1..], n, q, peers);
      }
    }
  }

  lemma {:induction false} StaysWaiting(s: Cluster, es: seq<Step>, n: nat)
    requires n < |s.nodes| && s.nodes[n].loop.Waiting? && Possible(s, es) && Unanswered(es, n)
    ensures After(s, es).nodes[n].loop.Waiting? && Passes(es, n) == 0
    decreases |es|
  {
    hide Key, From, Genuine, Lookup;
    if es != [] {
      StaysWaiting(Apply(s, es[0]), es[1..], n);
    }
  }

  // ---------- What one decoder does to its node is a run of these steps

  /** The template records that a run observes, in order. */
  function Observed(es: seq<Step>): seq<Observation>
    decreases |es|
  {
    if es == [] then [] else (if es[0].Learn? then [es[0].o] else []) + Observed(es[1..])
  }

  lemma {:induction false} ObservedParsed(s: Cluster, es: seq<Step>)
    requires Possible(s, es)
    ensures After(s, es).parsed == s.parsed + Observed(es)
    decreases |es|
  {
    hide Enabled, NodeAfter;
    if es != [] {
      ObservedParsed(Apply(s, es[0]), es[1..]);
    }
  }

  lemma {:induction false} ObservedSplit(xs: seq<Step>, ys: seq<Step>)
    ensures Observed(xs + ys) == Observed(xs) + Observed(ys)
    decreases |xs|
  {
    if xs == [] {
      assert xs + ys == ys;
    } else {
      assert (xs + ys)[1..] == xs[1..] + ys && (xs + ys)[0] == xs[0];
      ObservedSplit(xs[1..], ys);
    }
  }

  /** The observations are those of the templates ts in this datagram, in order. */
  predicate AllFrom(os: seq<Observation>, src: Source, ts: seq<Template>)
    decreases |ts|
  {
    if ts == [] then os == []
    else os != [] && os[0].source == src && os[0].template == ts[0] && AllFrom(os[1..], src, ts[1..])
  }

  lemma {:induction false} AllFromSplit(os: seq<Observation>, ps: seq<Observation>, src: Source, ts: seq<Template>, us: seq<Template>)
    requires AllFrom(os, src, ts) && AllFrom(ps, src, us)
    ensures AllFrom(os + ps, src, ts + us)
    decreases |ts|
  {
    if ts == [] {
      assert os + ps == ps && ts + us == us;
    } else {
      assert (os + ps)[1..] == os[1..] + ps && (ts + us)[1..] == ts[1..] + us;
      AllFromSplit(os[1..], ps, src, ts[1..], us);
    }
  }

  lemma {:induction false} Compose(s: Cluster, xs: seq<Step>, ys: seq<Step>)
    requires Possible(s, xs) && Possible(After(s, xs), ys)
    ensures Possible(s, xs + ys) && After(s, xs + ys) == After(After(s, xs), ys)
    decreases |xs|
  {
    hide Enabled, Apply;
    if xs == [] {
      assert xs + ys == ys;
    } else {
      assert (xs + ys)[1..] == xs[1..] + ys && (xs + ys)[0] == xs[0];
      Compose(Apply(s, xs[0]), xs[1..], ys);
    }
  }

  /** s with the cache and channel of node n replaced. */
  ghost predicate Changed(s: Cluster, s': Cluster, n: nat, cache: Flat<Template>, channel: seq<Request>)
    requires n < |s.nodes|
  {
    s'.nodes == s.nodes[n := Node(cache, channel, s.nodes[n].loop)]
  }

  lemma {:induction false} LoopExtends(id: uint16, length: uint16, start: nat, b: bytes, p: nat, q: nat)
    requires start <= p <= |b| && start <= q <= |b| && LoopArrives(id, length, start, b, p, q) && ReadsTemplate(length, start, b, q)
    ensures LoopArrives(id, length, start, b, p, ReadAnyTemplate(id, b, q).pos)
    decreases |b| - p
  {
    hide ReadAnyTemplate, U16, Wrap16;
    if p != q {
      LoopExtends(id, length, start, b, ReadAnyTemplate(id, b, p).pos, q);
    } else {
      assert LoopArrives(id, length, start, b, ReadAnyTemplate(id, b, q).pos, ReadAnyTemplate(id, b, q).pos);
    }
  }

  /** The decoder is at q in the record loop of the template set at start. */
  ghost predicate InTemplateSet(src: Source, views: seq<Templates>, start: nat, q: nat) {
    var b := src.datagram;
    && |b| >= 16 && ReadHeader(b).version == 10
    && Arrived(src.rule, src.info, b, 16, views) == Some(start)
    && |b| - start > 4 && 4 <= U16(b, start + 2) && IsTemplateSet(U16(b, start))
    && start + 4 <= q <= |b| && LoopArrives(U16(b, start), U16(b, start + 2), start, b, start + 4, q)
  }

  lemma ReadHere(src: Source, views: seq<Templates>, start: nat, q: nat)
    requires InTemplateSet(src, views, start, q) && ReadsTemplate(U16(src.datagram, start + 2), start, src.datagram, q)
    ensures var r := ReadAnyTemplate(U16(src.datagram, start), src.datagram, q);
            && InTemplateSet(src, views, start, r.pos)
            && (r.Got? ==> Genuine(Observation(src, views, start, q, r.value)))
  {
    hide Arrived, ReadAnyTemplate, LoopArrives, ReadsTemplate, U16, ReadHeader;
    LoopExtends(U16(src.datagram, start), U16(src.datagram, start + 2), start, src.datagram, start + 4, q);
  }

  /** The rest of the record loop of a template set, as learn steps. */
  lemma {:induction false} LearnBody(s: Cluster, n: nat, src: Source, views: seq<Templates>, start: nat, q: nat, t: Template)
    returns (es: seq<Step>)
    requires n < |s.nodes| && InTemplateSet(src, views, start, q)
    ensures var b := src.datagram;
            var learned := SetBody(U16(b, start), U16(b, start + 2), start, t, src.info, b, q).learned;
            && Possible(s, es) && AllFrom(Observed(es), src, learned)
            && Changed(s, After(s, es), n, InsertedAll(s.nodes[n].cache, src.addr, learned), s.nodes[n].channel)
    decreases |src.datagram| - q
  {
    hide Key, ReadAnyTemplate, U16, Wrap16, Genuine, LoopArrives, Arrived, ReadHeader, Inserted;
    var b := src.datagram;
    var id, length := U16(b, start), U16(b, start + 2);
    if ReadsTemplate(length, start, b, q) {
      var r := ReadAnyTemplate(id, b, q);
      ReadHere(src, views, start, q);
      if r.Got? {
        var e := Learn(n, Observation(src, views, start, q, r.value));
        var rest := LearnBody(Apply(s, e), n, src, views, start, r.pos, t);
        es := [e] + rest;
        assert es[1..] == rest;
        var more := SetBody(id, length, start, t, src.info, b, r.pos).learned;
        assert ([r.value] + more)[1..] == more && (Observed(es))[1..] == Observed(rest);
      } else {
        es := LearnBody(s, n, src, views, start, r.pos, t);
      }
    } else {
      es := [];
    }
  }

  lemma {:induction false} DataLearnsNothing(id: uint16, length: uint16, start: nat, t: Template, info: Elements, b: bytes, p: nat)
    requires start <= p <= |b| && !IsTemplateSet(id)
    ensures SetBody(id, length, start, t, info, b, p).learned == []
    decreases |b| - p
  {
    hide DecodeRecord, Wrap16;
    if More(length, start, b, p) && !IsReservedSet(id) {
      var row := DecodeRecord(t, info, b, p);
      if row.Row? && row.pos != p {
        DataLearnsNothing(id, length, start, t, info, b, row.pos);
      }
    }
  }

  lemma AskMissing(s: Cluster, n: nat, addr: bytes, miss: Option<uint16>) returns (es: seq<Step>)
    requires n < |s.nodes|
    ensures Possible(s, es) && Observed(es) == []
    ensures Changed(s, After(s, es), n, s.nodes[n].cache, Posted(s.nodes[n].channel, Requests(addr, Listed(miss))))
  {
    hide Key, Genuine;
    if miss.None? {
      es := [];
    } else {
      var q := Request(miss.value, addr);
      es := [Ask(n, q)];
      assert es[1..] == [];
      assert Requests(addr, Listed(miss)) == [q];
      assert Possible(s, es) && After(s, es) == Apply(s, es[0]);
    }
  }

  /** The decoder has come to p: Decode accepts the datagram and reads a set there. */
  ghost predicate DecoderAt(src: Source, views: seq<Templates>, p: nat) {
    && |src.datagram| >= 16 && ReadHeader(src.datagram).version == 10
    && Arrived(src.rule, src.info, src.datagram, 16, views) == Some(p)
  }

  lemma LearnSet(s: Cluster, n: nat, src: Source, views: seq<Templates>, p: nat, c: Templates) returns (es: seq<Step>)
    requires n < |s.nodes| && DecoderAt(src, views, p) && |src.datagram| - p > 4
    ensures var learned := DecodeSet(c, src.info, src.datagram, p).learned;
            && Possible(s, es) && AllFrom(Observed(es), src, learned)
            && Changed(s, After(s, es), n, InsertedAll(s.nodes[n].cache, src.addr, learned), s.nodes[n].channel)
  {
    hide SetBody, U16, DecodeSet, Arrived, ReadHeader, InsertedAll;
    var b := src.datagram;
    LearnedBySet(c, src.info, b, p);
    if 4 <= U16(b, p + 2) && IsTemplateSet(U16(b, p)) {
      es := LearnBody(s, n, src, views, p, p + 4, NO_TEMPLATE);
    } else {
      es := [];
      NoInserts(s.nodes[n].cache, src.addr);
    }
  }

  /** Only template sets teach templates: those of their record loop. */
  lemma LearnedBySet(c: Templates, info: Elements, b: bytes, p: nat)
    requires p + 4 <= |b|
    ensures DecodeSet(c, info, b, p).learned
         == if 4 <= U16(b, p + 2) && IsTemplateSet(U16(b, p))
            then SetBody(U16(b, p), U16(b, p + 2), p, NO_TEMPLATE, info, b, p + 4).learned else []
  {
    hide SetBody, U16, Wrap16;
    var id := U16(b, p);
    if TemplateFor(c, id).Some? && !IsTemplateSet(id) {
      DataLearnsNothing(id, U16(b, p + 2), p, TemplateFor(c, id).value, info, b, p + 4);
    }
  }

  lemma SetSteps(s: Cluster, n: nat, src: Source, views: seq<Templates>, p: nat) returns (es: seq<Step>)
    requires n < |s.nodes| && DecoderAt(src, views, p) && |src.datagram| - p > 4
    ensures var c := View(s.nodes[n].cache, src.addr);
            var learned := DecodeSet(c, src.info, src.datagram, p).learned;
            && Possible(s, es) && AllFrom(Observed(es), src, learned)
            && Changed(s, After(s, es), n, InsertedAll(s.nodes[n].cache, src.addr, learned),
                       Posted(s.nodes[n].channel, Requests(src.addr, Listed(Miss(c, src.datagram, p)))))
  {
    hide View, DecodeSet, Miss, InsertedAll, Posted, Requests, Possible, After, AllFrom, DecoderAt;
    var c := View(s.nodes[n].cache, src.addr);
    var xs := LearnSet(s, n, src, views, p, c);
    var ys := AskMissing(After(s, xs), n, src.addr, Miss(c, src.datagram, p));
    Compose(s, xs, ys);
    ObservedSplit(xs, ys);
    es := xs + ys;
    assert Observed(xs) + [] == Observed(xs);
  }

  lemma {:induction false} ArrivedNext(src: Source, b: bytes, p: nat, views: seq<Templates>, c: Templates)
    requires p <= |b| && Arrived(src.rule, src.info, b, p, views).Some?
    requires var q := Arrived(src.rule, src.info, b, p, views).value;
             && |b| - q > 4
             && var r := DecodeSet(c, src.info, b, q);
                !r.stuck && !Stops(src.rule, r)
    ensures var q := Arrived(src.rule, src.info, b, p, views).value;
            Arrived(src.rule, src.info, b, p, views + [c]) == Some(DecodeSet(c, src.info, b, q).pos)
    decreases |views|
  {
    hide DecodeSet, Fatal;
    var all := views + [c];
    if views == [] {
      assert all == [c] && all[1..] == [];
    } else {
      assert all[0] == views[0] && all[1..] == views[1..] + [c];
      ArrivedNext(src, b, DecodeSet(views[0], src.info, b, p).pos, views[1..], c);
    }
  }

  /** A whole Decode, for the node it runs on, is a run of Learn and Ask steps that
      observes exactly the templates of the datagram, in order: what is proved of every
      run of the protocol covers the decoder. */
  lemma {:induction false} DecodeSteps(s: Cluster, n: nat, src: Source, views: seq<Templates>, p: nat) returns (es: seq<Step>)
    requires n < |s.nodes| && DecoderAt(src, views, p)
    ensures var run := DecodeSets(src.rule, View(s.nodes[n].cache, src.addr), src.info, src.datagram, p);
            && Possible(s, es) && AllFrom(Observed(es), src, run.learned)
            && Changed(s, After(s, es), n, InsertedAll(s.nodes[n].cache, src.addr, run.learned),
                       Posted(s.nodes[n].channel, Requests(src.addr, run.misses)))
    decreases |src.datagram| - p
  {
    hide View, DecodeSet, Miss, InsertedAll, InsertAll, Posted, Requests, Possible, After, Listed, Fatal, Arrived, ReadHeader, AllFrom, Observed;
    var node, b := s.nodes[n], src.datagram;
    var c := View(node.cache, src.addr);
    if |b| - p <= 4 {
      es := [];
      NoInserts(node.cache, src.addr);
      NoSteps(s, src, node.channel);
    } else {
      var r, miss := DecodeSet(c, src.info, b, p), Miss(c, b, p);
      var xs := SetSteps(s, n, src, views, p);
      if r.stuck || Stops(src.rule, r) {
        es := xs;
        assert r.learned + [] == r.learned && Listed(miss) + [] == Listed(miss);
      } else {
        ViewInsertedAll(node.cache, src.addr, r.learned);
        ArrivedNext(src, b, 16, views, c);
        var s' := After(s, xs);
        var ys := DecodeSteps(s', n, src, views + [c], r.pos);
        Compose(s, xs, ys);
        ObservedSplit(xs, ys);
        es := xs + ys;
        var rest := DecodeSets(src.rule, InsertAll(c, r.learned), src.info, b, r.pos);
        AllFromSplit(Observed(xs), Observed(ys), src, r.learned, rest.learned);
        InsertedAllTwice(node.cache, src.addr, r.learned, rest.learned);
        PostedTwice(node.channel, src.addr, Listed(miss), rest.misses);
      }
    }
  }

  lemma NoSteps(s: Cluster, src: Source, channel: seq<Request>)
    ensures Possible(s, []) && After(s, []) == s && Posted(channel, Requests(src.addr, [])) == channel
    ensures AllFrom(Observed([]), src, [])
  {
  }
}
