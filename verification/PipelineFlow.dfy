/** Nothing is lost or made up on the way through the goroutines: what happens to every
    datagram and every buffer in every run of the pipeline. */
module PipelineFlow {
  import opened Bytes
  import opened BufferPool
  import opened Pipeline

  // ---------- What a run reads, decodes, copies and loses

  /** The datagram that was put into the buffer at p, with its sender. */
  function HeldIn(b: Buffers, p: Place): Option<Datagram> {
    if p in b.refs && b.refs[p].data.Some? then Some(Datagram(b.refs[p].addr, b.refs[p].data.value)) else None
  }

  function Held(s: State, p: Place): Option<Datagram> {
    HeldIn(s.buffers, p)
  }

  function Listed<T>(o: Option<T>): seq<T> {
    if o.Some? then [o.value] else []
  }

  function ReadBy(e: Step): seq<Datagram> {
    if e.ListenerRead? then [e.d] else []
  }

  function DecodedBy(s: State, e: Step): seq<Datagram> {
    if e.WorkerDecode? then Listed(Held(s, Work(e.w))) else []
  }

  function PublishedBy(s: State, e: Step): seq<Datagram> {
    if e.WorkerDecode? && e.publish then Listed(Held(s, Work(e.w))) else []
  }

  function CopiedBy(s: State, e: Step): seq<Datagram> {
    if e.WorkerCopy? then Listed(Held(s, Work(e.w))) else []
  }

  predicate QueueFull(s: State) {
    s.mirrorQueue.tail - s.mirrorQueue.head >= 1000
  }

  function LostBy(s: State, e: Step): seq<Datagram> {
    if e.WorkerOffer? && QueueFull(s) then Listed(Held(s, Copy(e.w))) else []
  }

  /** A buffer is forgotten by the listener or with a copy that is lost. */
  function ForgottenBy(s: State, e: Step): nat {
    if e.ListenerDrop? || (e.WorkerOffer? && QueueFull(s)) then 1 else 0
  }

  datatype Account = Account(
    read: seq<Datagram>, decoded: seq<Datagram>, published: seq<Datagram>,
    copied: seq<Datagram>, lost: seq<Datagram>, forgotten: nat)
  {
    function With(s: State, e: Step): Account {
      Account(read + ReadBy(e), decoded + DecodedBy(s, e), published + PublishedBy(s, e),
              copied + CopiedBy(s, e), lost + LostBy(s, e), forgotten + ForgottenBy(s, e))
    }
  }

  const NOTHING := Account([], [], [], [], [], 0)

  /** The account of a run that continues the account a. */
  ghost function Of(s: State, es: seq<Step>, a: Account): Account
    decreases |es|
  {
    if es == [] || !Enabled(s, es[0]) || !Legal(s.buffers, ActionOf(s, es[0])) then a
    else Of(Next(s, es[0]), es[1..], a.With(s, es[0]))
  }

  // ---------- Where a datagram is

  /** The buffers between the network and the decoder. */
  predicate Arriving(s: State, p: Place) {
    p.Listener? || p.Udp? || (p.Work? && p.w < |s.workers| && InUse(s.workers[p.w]))
  }

  ghost function Flight(s: State, d: Datagram): set<Place> {
    set p | p in s.buffers.refs && Arriving(s, p) && Held(s, p) == Some(d)
  }

  /** The buffers between a worker's copy and the mirror's packet. */
  predicate Mirroring(p: Place) {
    p.Copy? || p.MirrorCell? || p.Dispatcher? || p.Out? || p.Mirror?
  }

  predicate IsSending(s: State, p: Place, d: Datagram) {
    p.Mirror? && p.i < |s.mirrors| && s.mirrors[p.i] == Sending(d)
  }

  ghost function MirrorFlight(s: State, d: Datagram): set<Place> {
    (set p | p in s.buffers.refs && Mirroring(p) && Held(s, p) == Some(d))
    + (set i | 0 <= i < |s.mirrors| && s.mirrors[i] == Sending(d) :: Mirror(i))
  }

  lemma InMirrorFlight(s: State, d: Datagram, p: Place)
    ensures p in MirrorFlight(s, d) <==>
              (p in s.buffers.refs && Mirroring(p) && Held(s, p) == Some(d)) || IsSending(s, p, d)
  {
    if IsSending(s, p, d) {
      assert p == Mirror(p.i);
    }
  }

  /** A mirror worker's packet holds what its buffer does. */
  ghost predicate PayloadsRight(s: State) {
    forall i | 0 <= i < |s.mirrors| && s.mirrors[i].Copied? ::
      Held(s, Mirror(i)).Some? && Held(s, Mirror(i)).value.data == s.mirrors[i].payload
  }

  // ---------- One step

  /** What the buffer at p holds after an action. */
  function HeldThen(b: Buffers, a: Action, p: Place): Option<Datagram> {
    match a
    case Acquire(q, _) => if p == q then None else HeldIn(b, p)
    case Move(q, to) => if p == to then HeldIn(b, q) else if p == q then None else HeldIn(b, p)
    case Read(q, d) => if p == q then Some(d) else HeldIn(b, p)
    case Duplicate(q, from) => if p == q then HeldIn(b, from) else HeldIn(b, p)
    case Drop(q) => if p == q then None else HeldIn(b, p)
    case Return(q) => if p == q then None else HeldIn(b, p)
    case Nothing => HeldIn(b, p)
  }

  lemma HeldMove(b: Buffers, q: Place, to: Place, p: Place)
    requires Legal(b, Move(q, to))
    ensures HeldIn(Do(b, Move(q, to)), p) == HeldThen(b, Move(q, to), p)
  {
    var refs := Do(b, Move(q, to)).refs;
    assert refs == (b.refs - {q})[to := b.refs[q]];
    assert p in refs <==> p == to || (p in b.refs && p != q);
  }

  lemma HeldDuplicate(b: Buffers, q: Place, from: Place, p: Place)
    requires Legal(b, Duplicate(q, from)) && b.memory[b.refs[from].buf] == b.refs[from].data.value
    ensures HeldIn(Do(b, Duplicate(q, from)), p) == HeldThen(b, Duplicate(q, from), p)
  {
  }

  lemma HeldRemoved(b: Buffers, q: Place, p: Place)
    requires q in b.refs
    ensures HeldIn(Do(b, Drop(q)), p) == HeldThen(b, Drop(q), p)
    ensures HeldIn(Do(b, Return(q)), p) == HeldThen(b, Return(q), p)
  {
  }

  lemma HeldUpdated(b: Buffers, a: Action, p: Place)
    requires Legal(b, a) && (a.Acquire? || a.Read? || a.Nothing?)
    ensures HeldIn(Do(b, a), p) == HeldThen(b, a, p)
  {
  }

  lemma FilledIntact(b: Buffers, q: Place, from: Place)
    requires Legal(b, Duplicate(q, from)) && Intact(b)
    ensures b.memory[b.refs[from].buf] == b.refs[from].data.value
  {
  }

  lemma HeldAfter(b: Buffers, a: Action, p: Place)
    requires Legal(b, a) && Intact(b)
    ensures HeldIn(Do(b, a), p) == HeldThen(b, a, p)
  {
    hide Intact, Do, HeldIn, HeldThen;
    match a
    case Move(q, to) => HeldMove(b, q, to, p);
    case Duplicate(q, from) =>
      FilledIntact(b, q, from);
      HeldDuplicate(b, q, from, p);
    case Drop(q) => HeldRemoved(b, q, p);
    case Return(q) => HeldRemoved(b, q, p);
    case _ => HeldUpdated(b, a, p);
  }

  /** The number of times d occurs. */
  function Count(ds: seq<Datagram>, d: Datagram): nat {
    multiset(ds)[d]
  }

  lemma CountAppend(xs: seq<Datagram>, ys: seq<Datagram>, d: Datagram)
    ensures Count(xs + ys, d) == Count(xs, d) + Count(ys, d)
  {
  }

  lemma CountOne(o: Option<Datagram>, d: Datagram)
    ensures Count(Listed(o), d) == if o == Some(d) then 1 else 0
  {
  }

  /** The places in a are those before the step that hold d on the way to the decoder. */
  ghost predicate Before(a: set<Place>, s: State, d: Datagram) {
    forall p :: p in a <==> Arriving(s, p) && Held(s, p) == Some(d)
  }

  /** The places in a are those after it. */
  ghost predicate Afterwards(a: set<Place>, s: State, e: Step, d: Datagram)
    requires Enabled(s, e)
  {
    forall p :: p in a <==> ArrivesThen(s, e, p) && HeldThen(s.buffers, ActionOf(s, e), p) == Some(d)
  }

  predicate ArrivesThen(s: State, e: Step, p: Place)
    requires Enabled(s, e)
  {
    p.Listener? || p.Udp? || (p.Work? && p.w < |WorkersAfter(s, e)| && InUse(WorkersAfter(s, e)[p.w]))
  }

  lemma Swapped(a: set<Place>, b: set<Place>, x: Place, y: Place)
    requires x != y && y !in a && (forall p :: p in b <==> (p == y && x in a) || (p in a && p != x))
    ensures |b| == |a|
  {
    if x in a {
      assert b == (a - {x}) + {y};
    } else {
      assert b == a;
    }
  }

  lemma Added(a: set<Place>, b: set<Place>, x: Place, more: bool)
    requires x !in a && (forall p :: p in b <==> p in a || (p == x && more))
    ensures |b| == |a| + if more then 1 else 0
  {
    assert b == a + if more then {x} else {};
  }

  lemma FlightRead(a: set<Place>, b: set<Place>, s: State, e: Step, d: Datagram)
    requires e.ListenerRead? && Enabled(s, e) && Before(a, s, d) && Afterwards(b, s, e, d)
    ensures |b| == |a| + if e.d == d then 1 else 0
  {
    Added(a, b, Listener, e.d == d);
  }

  lemma FlightSend(a: set<Place>, b: set<Place>, s: State, e: Step, d: Datagram)
    requires e.ListenerSend? && Enabled(s, e) && UdpRight(s) && Before(a, s, d) && Afterwards(b, s, e, d)
    ensures |b| == |a|
  {
    assert Udp(s.udp.tail) !in s.buffers.refs;
    Swapped(a, b, Listener, Udp(s.udp.tail));
  }

  lemma FlightReceive(a: set<Place>, b: set<Place>, s: State, e: Step, d: Datagram)
    requires e.WorkerReceive? && Enabled(s, e) && WorkersRight(s) && Before(a, s, d) && Afterwards(b, s, e, d)
    ensures |b| == |a|
  {
    assert Work(e.w) !in s.buffers.refs;
    Swapped(a, b, Udp(s.udp.head), Work(e.w));
  }

  lemma FlightDecode(a: set<Place>, b: set<Place>, s: State, e: Step, d: Datagram)
    requires e.WorkerDecode? && Enabled(s, e) && Before(a, s, d) && Afterwards(b, s, e, d)
    ensures |a| == |b| + if Held(s, Work(e.w)) == Some(d) then 1 else 0
  {
    Added(b, a, Work(e.w), Held(s, Work(e.w)) == Some(d));
  }

  /** No other step moves a datagram that is on its way to the decoder. */
  predicate IsOther(e: Step) {
    !e.ListenerRead? && !e.ListenerSend? && !e.WorkerReceive? && !e.WorkerDecode?
  }

  lemma OtherWork(s: State, e: Step, w: nat, d: Datagram)
    requires IsOther(e) && Enabled(s, e)
    ensures ArrivesThen(s, e, Work(w)) && HeldThen(s.buffers, ActionOf(s, e), Work(w)) == Some(d)
       <==> Arriving(s, Work(w)) && Held(s, Work(w)) == Some(d)
  {
    hide HasRoom, HeldIn;
  }

  lemma OtherPlace(s: State, e: Step, p: Place, d: Datagram)
    requires IsOther(e) && Enabled(s, e) && !p.Work?
    ensures ArrivesThen(s, e, p) && HeldThen(s.buffers, ActionOf(s, e), p) == Some(d)
       <==> Arriving(s, p) && Held(s, p) == Some(d)
  {
    hide HasRoom, WorkersAfter;
  }

  lemma FlightOther(a: set<Place>, b: set<Place>, s: State, e: Step, d: Datagram)
    requires IsOther(e) && Enabled(s, e) && Before(a, s, d) && Afterwards(b, s, e, d)
    ensures |b| == |a|
  {
    hide Enabled, ActionOf, WorkersAfter, HeldIn, HeldThen, ArrivesThen, Arriving, IsOther;
    forall p
      ensures p in a <==> p in b
    {
      if p.Work? {
        OtherWork(s, e, p.w, d);
        assert p == Work(p.w);
      } else {
        OtherPlace(s, e, p, d);
      }
    }
    assert a == b;
  }

  lemma FlightBefore(s: State, d: Datagram)
    ensures Before(Flight(s, d), s, d)
  {
  }

  lemma FlightAfterwards(s: State, e: Step, d: Datagram)
    requires Enabled(s, e) && Legal(s.buffers, ActionOf(s, e)) && Intact(s.buffers)
    ensures Afterwards(Flight(Next(s, e), d), s, e, d)
  {
    hide Enabled, Legal, ActionOf, Do, Intact, WorkersAfter, MirrorsAfter, HeldIn, HeldThen, Found;
    var t := Next(s, e);
    forall p
      ensures p in Flight(t, d) <==> ArrivesThen(s, e, p) && HeldThen(s.buffers, ActionOf(s, e), p) == Some(d)
    {
      HeldAfter(s.buffers, ActionOf(s, e), p);
      InFlight(t, d, p);
    }
  }

  lemma InFlight(s: State, d: Datagram, p: Place)
    ensures p in Flight(s, d) <==> Arriving(s, p) && Held(s, p) == Some(d)
  {
  }

  /** Where a step puts and takes a datagram on its way to the decoder. */
  lemma FlightStep(s: State, e: Step, d: Datagram)
    requires Right(s) && Enabled(s, e) && Legal(s.buffers, ActionOf(s, e))
    ensures |Flight(Next(s, e), d)| + Count(DecodedBy(s, e), d) == |Flight(s, d)| + Count(ReadBy(e), d)
  {
    hide Before, Afterwards, Next, Held, Legal, Flight, Enabled, ActionOf, UdpRight, WorkersRight, Count;
    var a, b := Flight(s, d), Flight(Next(s, e), d);
    FlightBefore(s, d);
    FlightAfterwards(s, e, d);
    if e.ListenerRead? {
      FlightRead(a, b, s, e, d);
      CountOne(Some(e.d), d);
    } else if e.ListenerSend? {
      FlightSend(a, b, s, e, d);
    } else if e.WorkerReceive? {
      FlightReceive(a, b, s, e, d);
    } else if e.WorkerDecode? {
      FlightDecode(a, b, s, e, d);
      CountOne(Held(s, Work(e.w)), d);
    } else {
      FlightOther(a, b, s, e, d);
    }
    CountOne(None, d);
  }

  // ---------- The way through the mirror

  ghost predicate MirrorBefore(a: set<Place>, s: State, d: Datagram) {
    forall p :: p in a <==> (Mirroring(p) && Held(s, p) == Some(d)) || IsSending(s, p, d)
  }

  ghost predicate MirrorAfterwards(a: set<Place>, s: State, e: Step, d: Datagram)
    requires Enabled(s, e)
  {
    forall p :: p in a <==>
      (Mirroring(p) && HeldThen(s.buffers, ActionOf(s, e), p) == Some(d)) || SendsThen(s, e, p, d)
  }

  predicate SendsThen(s: State, e: Step, p: Place, d: Datagram)
    requires Enabled(s, e)
  {
    p.Mirror? && p.i < |MirrorsAfter(s, e)| && MirrorsAfter(s, e)[p.i] == Sending(d)
  }

  lemma FlightMirrorBefore(s: State, d: Datagram)
    ensures MirrorBefore(MirrorFlight(s, d), s, d)
  {
    hide Mirroring, MirrorFlight, IsSending;
    forall p
      ensures p in MirrorFlight(s, d) <==> (Mirroring(p) && Held(s, p) == Some(d)) || IsSending(s, p, d)
    {
      InMirrorFlight(s, d, p);
    }
  }

  lemma FlightMirrorAfterwards(s: State, e: Step, d: Datagram)
    requires Enabled(s, e) && Legal(s.buffers, ActionOf(s, e)) && Intact(s.buffers)
    ensures MirrorAfterwards(MirrorFlight(Next(s, e), d), s, e, d)
  {
    hide Enabled, Legal, ActionOf, Do, Intact, WorkersAfter, MirrorsAfter, HeldIn, HeldThen, Found, Mirroring, MirrorFlight;
    var t := Next(s, e);
    forall p
      ensures p in MirrorFlight(t, d)
         <==> (Mirroring(p) && HeldThen(s.buffers, ActionOf(s, e), p) == Some(d)) || SendsThen(s, e, p, d)
    {
      HeldAfter(s.buffers, ActionOf(s, e), p);
      InMirrorFlight(t, d, p);
      HeldOnly(t, p);
    }
  }

  lemma HeldOnly(s: State, p: Place)
    ensures Held(s, p).Some? ==> p in s.buffers.refs
  {
  }

  lemma MirrorCopied(a: set<Place>, b: set<Place>, s: State, e: Step, d: Datagram)
    requires e.WorkerCopy? && Enabled(s, e) && MirrorBefore(a, s, d) && MirrorAfterwards(b, s, e, d)
    ensures |b| == |a| + if Held(s, Work(e.w)) == Some(d) then 1 else 0
  {
    Added(a, b, Copy(e.w), Held(s, Work(e.w)) == Some(d));
  }

  lemma MirrorOffered(a: set<Place>, b: set<Place>, s: State, e: Step, d: Datagram)
    requires e.WorkerOffer? && Enabled(s, e) && MirrorQueueRight(s) && MirrorBefore(a, s, d) && MirrorAfterwards(b, s, e, d)
    ensures |a| == |b| + if QueueFull(s) && Held(s, Copy(e.w)) == Some(d) then 1 else 0
  {
    if QueueFull(s) {
      Added(b, a, Copy(e.w), Held(s, Copy(e.w)) == Some(d));
    } else {
      assert MirrorCell(s.mirrorQueue.tail) !in s.buffers.refs;
      Swapped(a, b, Copy(e.w), MirrorCell(s.mirrorQueue.tail));
    }
  }

  lemma MirrorPassed(a: set<Place>, b: set<Place>, s: State, e: Step, d: Datagram)
    requires (e.Dispatch? || e.DispatchSend?) && Enabled(s, e) && OutRight(s)
    requires MirrorBefore(a, s, d) && MirrorAfterwards(b, s, e, d)
    ensures |a| == |b|
  {
    if e.Dispatch? {
      Swapped(a, b, MirrorCell(s.mirrorQueue.head), Dispatcher);
    } else {
      assert Out(s.out.tail) !in s.buffers.refs;
      Swapped(a, b, Dispatcher, Out(s.out.tail));
    }
  }

  lemma MirrorReceived(a: set<Place>, b: set<Place>, s: State, e: Step, d: Datagram)
    requires e.MirrorReceive? && Enabled(s, e) && MirrorsRight(s) && MirrorBefore(a, s, d) && MirrorAfterwards(b, s, e, d)
    ensures |a| == |b|
  {
    assert Mirror(e.i) !in s.buffers.refs;
    Swapped(a, b, Out(s.out.head), Mirror(e.i));
  }

  /** The packet that is about to be sent is the datagram of the buffer. */
  lemma PutSends(s: State, e: Step)
    requires e.MirrorPut? && Enabled(s, e) && PayloadsRight(s) && Intact(s.buffers)
    ensures Held(s, Mirror(e.i)).Some? && MirrorsAfter(s, e) == s.mirrors[e.i := Sending(Held(s, Mirror(e.i)).value)]
  {
    assert Held(s, Mirror(e.i)).Some?;
    hide Intact;
    FoundIs(s, Mirror(e.i));
  }

  lemma FoundIs(s: State, p: Place)
    requires Intact(s.buffers) && Held(s, p).Some?
    ensures Found(s, p) == Held(s, p).value
  {
  }

  lemma MirrorReturned(a: set<Place>, b: set<Place>, s: State, e: Step, d: Datagram)
    requires e.MirrorPut? && Enabled(s, e) && PayloadsRight(s) && Intact(s.buffers)
    requires MirrorBefore(a, s, d) && MirrorAfterwards(b, s, e, d)
    ensures |a| == |b|
  {
    PutSends(s, e);
    hide Intact, PayloadsRight, MirrorsAfter, HeldIn;
    assert a == b;
  }

  lemma MirrorSent(a: set<Place>, b: set<Place>, s: State, e: Step, d: Datagram)
    requires e.MirrorSend? && Enabled(s, e) && MirrorsRight(s) && MirrorBefore(a, s, d) && MirrorAfterwards(b, s, e, d)
    ensures |a| == |b| + if s.mirrors[e.i].d == d then 1 else 0
  {
    assert Mirror(e.i) !in s.buffers.refs;
    Added(b, a, Mirror(e.i), s.mirrors[e.i].d == d);
  }

  predicate IsMirrorStep(e: Step) {
    e.WorkerCopy? || e.WorkerOffer? || e.Dispatch? || e.DispatchSend? || e.MirrorReceive? || e.MirrorPut? || e.MirrorSend?
  }

  lemma OtherMirrorPlace(s: State, e: Step, p: Place, d: Datagram)
    requires !IsMirrorStep(e) && Enabled(s, e) && WorkersRight(s)
    ensures (Mirroring(p) && HeldThen(s.buffers, ActionOf(s, e), p) == Some(d)) || SendsThen(s, e, p, d)
       <==> (Mirroring(p) && Held(s, p) == Some(d)) || IsSending(s, p, d)
  {
    OtherMirrorHeld(s, e, p);
    hide HeldThen, HeldIn, ActionOf, WorkersRight;
    OtherSends(s, e, p, d);
    hide SendsThen, IsSending, Enabled;
  }

  lemma OtherSends(s: State, e: Step, p: Place, d: Datagram)
    requires !IsMirrorStep(e) && Enabled(s, e)
    ensures SendsThen(s, e, p, d) <==> IsSending(s, p, d)
  {
    hide Found;
  }

  lemma OtherMirrorHeld(s: State, e: Step, p: Place)
    requires !IsMirrorStep(e) && Enabled(s, e) && WorkersRight(s)
    ensures Mirroring(p) ==> HeldThen(s.buffers, ActionOf(s, e), p) == Held(s, p)
  {
    if e.WorkerMirrorGet? {
      assert Copy(e.w) !in s.buffers.refs;
    }
    hide WorkersRight;
  }

  lemma MirrorOther(a: set<Place>, b: set<Place>, s: State, e: Step, d: Datagram)
    requires !IsMirrorStep(e) && Enabled(s, e) && WorkersRight(s) && MirrorBefore(a, s, d) && MirrorAfterwards(b, s, e, d)
    ensures |b| == |a|
  {
    hide WorkersRight, Enabled, ActionOf, MirrorsAfter, HeldIn, HeldThen, SendsThen, IsSending, Mirroring, IsMirrorStep;
    forall p
      ensures p in a <==> p in b
    {
      OtherMirrorPlace(s, e, p, d);
    }
    assert a == b;
  }

  function SentBy(s: State, e: Step): seq<Datagram>
    requires Enabled(s, e)
  {
    if e.MirrorSend? then [s.mirrors[e.i].d] else []
  }

  lemma MirrorChange(a: set<Place>, b: set<Place>, s: State, e: Step, d: Datagram)
    requires MirrorQueueRight(s) && OutRight(s) && WorkersRight(s) && MirrorsRight(s) && PayloadsRight(s) && Intact(s.buffers)
    requires Enabled(s, e) && MirrorBefore(a, s, d) && MirrorAfterwards(b, s, e, d)
    ensures |b| + Count(SentBy(s, e), d) + Count(LostBy(s, e), d) == |a| + Count(CopiedBy(s, e), d)
  {
    CountOne(None, d);
    hide MirrorBefore, MirrorAfterwards, HeldIn, ActionOf, Count, PayloadsRight, Intact, QueueFull;
    hide MirrorQueueRight, OutRight, WorkersRight, MirrorsRight;
    match e {
      case WorkerCopy(w) =>
        MirrorCopied(a, b, s, e, d);
        CountOne(Held(s, Work(w)), d);
      case WorkerOffer(w) =>
        MirrorOffered(a, b, s, e, d);
        CountOne(Held(s, Copy(w)), d);
      case Dispatch => MirrorPassed(a, b, s, e, d);
      case DispatchSend => MirrorPassed(a, b, s, e, d);
      case MirrorReceive(i) => MirrorReceived(a, b, s, e, d);
      case MirrorPut(i) => MirrorReturned(a, b, s, e, d);
      case MirrorSend(i) =>
        MirrorSent(a, b, s, e, d);
        CountOne(Some(s.mirrors[i].d), d);
      case _ => MirrorOther(a, b, s, e, d);
    }
  }

  /** Where a step puts and takes a copy on its way through the mirror. */
  lemma MirrorFlightStep(s: State, e: Step, d: Datagram)
    requires Right(s) && PayloadsRight(s) && Enabled(s, e) && Legal(s.buffers, ActionOf(s, e))
    ensures |MirrorFlight(Next(s, e), d)| + Count(SentBy(s, e), d) + Count(LostBy(s, e), d)
         == |MirrorFlight(s, d)| + Count(CopiedBy(s, e), d)
  {
    hide MirrorBefore, MirrorAfterwards, Next, Held, Legal, MirrorFlight, ActionOf, Count, PayloadsRight, Intact, Enabled;
    hide UdpRight, MirrorQueueRight, OutRight, WorkersRight, MirrorsRight, FilledWhereUsed, LogsHonest, MirrorsHonest;
    hide SentBy, LostBy, CopiedBy;
    FlightMirrorBefore(s, d);
    FlightMirrorAfterwards(s, e, d);
    MirrorChange(MirrorFlight(s, d), MirrorFlight(Next(s, e), d), s, e, d);
  }

  lemma PayloadsStep(s: State, e: Step)
    requires Right(s) && PayloadsRight(s) && Enabled(s, e) && Legal(s.buffers, ActionOf(s, e))
    ensures PayloadsRight(Next(s, e))
  {
    var t := Next(s, e);
    forall i | 0 <= i < |t.mirrors| && t.mirrors[i].Copied?
      ensures Held(t, Mirror(i)).Some? && Held(t, Mirror(i)).value.data == t.mirrors[i].payload
    {
      PayloadStep(s, e, i);
    }
  }

  lemma PayloadStep(s: State, e: Step, i: nat)
    requires Right(s) && PayloadsRight(s) && Enabled(s, e) && Legal(s.buffers, ActionOf(s, e))
    requires i < |MirrorsAfter(s, e)| && MirrorsAfter(s, e)[i].Copied?
    ensures Held(Next(s, e), Mirror(i)).Some? && Held(Next(s, e), Mirror(i)).value.data == MirrorsAfter(s, e)[i].payload
  {
    hide Do, Legal, Intact, Found, HeldIn, HeldThen, ActionOf, PayloadsRight;
    hide UdpRight, MirrorQueueRight, OutRight, WorkersRight, MirrorsRight, FilledWhereUsed, LogsHonest, MirrorsHonest;
    HeldAfter(s.buffers, ActionOf(s, e), Mirror(i));
    if e == MirrorCopy(i) {
      MirrorHolds(s, i);
      FoundIs(s, Mirror(i));
      CopyChangesNothing(s, i);
    } else {
      PayloadOther(s, e, i);
    }
  }

  lemma CopyChangesNothing(s: State, i: nat)
    ensures HeldThen(s.buffers, ActionOf(s, MirrorCopy(i)), Mirror(i)) == Held(s, Mirror(i))
  {
  }

  lemma PayloadOther(s: State, e: Step, i: nat)
    requires Enabled(s, e) && PayloadsRight(s) && e != MirrorCopy(i)
    requires i < |MirrorsAfter(s, e)| && MirrorsAfter(s, e)[i].Copied?
    ensures i < |s.mirrors| && s.mirrors[i] == MirrorsAfter(s, e)[i]
    ensures HeldThen(s.buffers, ActionOf(s, e), Mirror(i)) == Held(s, Mirror(i))
    ensures Held(s, Mirror(i)).Some? && Held(s, Mirror(i)).value.data == s.mirrors[i].payload
  {
    hide HeldIn, Found;
  }

  lemma MirrorHolds(s: State, i: nat)
    requires MirrorsRight(s) && FilledWhereUsed(s) && i < |s.mirrors| && s.mirrors[i].Holding?
    ensures Held(s, Mirror(i)).Some?
  {
    assert Mirror(i) in s.buffers.refs;
  }

  // ---------- Buffers

  lemma OneFewer(refs: map<Place, Ref>, p: Place)
    requires p in refs
    ensures |refs - {p}| + 1 == |refs|
  {
    assert refs == (refs - {p})[p := refs[p]];
  }

  /** The buffers in the pool and in use, and those that were forgotten. */
  function Sum(b: Buffers): nat {
    |b.pool| + |b.refs|
  }

  lemma AcquireSum(b: Buffers, p: Place, buf: nat)
    requires Legal(b, Acquire(p, buf))
    ensures var c := Do(b, Acquire(p, buf));
            c.made + Sum(b) == b.made + Sum(c)
  {
    if buf in b.pool {
      assert b.pool == (b.pool - multiset{buf}) + multiset{buf};
    }
  }

  lemma MoveSum(b: Buffers, p: Place, to: Place)
    requires Legal(b, Move(p, to))
    ensures Sum(Do(b, Move(p, to))) == Sum(b) && Do(b, Move(p, to)).made == b.made
  {
    OneFewer(b.refs, p);
  }

  lemma ReturnSum(b: Buffers, p: Place)
    requires p in b.refs
    ensures Sum(Do(b, Return(p))) == Sum(b) && Do(b, Return(p)).made == b.made
    ensures Sum(Do(b, Drop(p))) + 1 == Sum(b) && Do(b, Drop(p)).made == b.made
  {
    OneFewer(b.refs, p);
  }

  lemma FilledSum(b: Buffers, a: Action)
    requires Legal(b, a) && (a.Read? || a.Duplicate? || a.Nothing?)
    ensures Sum(Do(b, a)) == Sum(b) && Do(b, a).made == b.made
  {
  }

  lemma BuffersAction(b: Buffers, a: Action)
    requires Legal(b, a)
    ensures var c := Do(b, a);
            c.made + Sum(b) == b.made + Sum(c) + if a.Drop? then 1 else 0
  {
    hide Do, Sum;
    match a
    case Acquire(p, buf) => AcquireSum(b, p, buf);
    case Move(p, to) => MoveSum(b, p, to);
    case Drop(p) => ReturnSum(b, p);
    case Return(p) => ReturnSum(b, p);
    case _ => FilledSum(b, a);
  }

  lemma DropForgets(s: State, e: Step)
    ensures ForgottenBy(s, e) == if ActionOf(s, e).Drop? then 1 else 0
  {
  }

  // ---------- Whole runs

  /** The account of the run so far is right for datagram d. */
  ghost predicate Balanced(s: State, a: Account, d: Datagram) {
    && s.buffers.received == a.read && s.published == a.published
    && Count(a.read, d) == |Flight(s, d)| + Count(a.decoded, d)
    && Count(a.copied, d) == |MirrorFlight(s, d)| + Count(s.mirrored, d) + Count(a.lost, d)
    && s.buffers.made == |s.buffers.pool| + |s.buffers.refs| + a.forgotten
  }

  /** What the step writes into the logs. */
  lemma LogsBy(s: State, e: Step)
    requires Right(s) && Enabled(s, e) && Legal(s.buffers, ActionOf(s, e))
    ensures var t := Next(s, e);
            && t.buffers.received == s.buffers.received + ReadBy(e)
            && t.published == s.published + PublishedBy(s, e)
            && t.mirrored == s.mirrored + SentBy(s, e)
  {
    hide Do, Legal, Found, HeldIn, WorkersAfter, MirrorsAfter, Intact, ActionOf;
    hide UdpRight, MirrorQueueRight, OutRight, WorkersRight, MirrorsRight, FilledWhereUsed, LogsHonest, MirrorsHonest;
    ReceivedBy(s, e);
    if e.WorkerDecode? {
      WorkHolds(s, e.w);
      FoundIs(s, Work(e.w));
    }
  }

  lemma ReceivedBy(s: State, e: Step)
    requires Legal(s.buffers, ActionOf(s, e))
    ensures Do(s.buffers, ActionOf(s, e)).received == s.buffers.received + ReadBy(e)
  {
  }

  lemma WorkHolds(s: State, w: nat)
    requires WorkersRight(s) && FilledWhereUsed(s) && w < |s.workers| && InUse(s.workers[w])
    ensures Held(s, Work(w)).Some?
  {
    assert Work(w) in s.buffers.refs;
  }

  lemma BalancedStep(s: State, e: Step, a: Account, d: Datagram)
    requires Right(s) && PayloadsRight(s) && Enabled(s, e) && Legal(s.buffers, ActionOf(s, e)) && Balanced(s, a, d)
    ensures Balanced(Next(s, e), a.With(s, e), d)
  {
    hide Right, PayloadsRight, Enabled, Legal, ActionOf, Next, Flight, MirrorFlight, Count;
    hide ReadBy, DecodedBy, PublishedBy, CopiedBy, LostBy, SentBy, ForgottenBy;
    LogsBy(s, e);
    FlightStep(s, e, d);
    MirrorFlightStep(s, e, d);
    BuffersBy(s, e);
    CountAppend(a.read, ReadBy(e), d);
    CountAppend(a.decoded, DecodedBy(s, e), d);
    CountAppend(a.copied, CopiedBy(s, e), d);
    CountAppend(a.lost, LostBy(s, e), d);
    CountAppend(s.mirrored, SentBy(s, e), d);
  }

  lemma BuffersBy(s: State, e: Step)
    requires Enabled(s, e) && Legal(s.buffers, ActionOf(s, e))
    ensures var b, c := s.buffers, Next(s, e).buffers;
            c.made + Sum(b) == b.made + Sum(c) + ForgottenBy(s, e)
  {
    hide Do, Legal, ActionOf, WorkersAfter, MirrorsAfter;
    BuffersAction(s.buffers, ActionOf(s, e));
    DropForgets(s, e);
  }

  lemma {:induction false} RunBalanced(s: State, es: seq<Step>, t: State, a: Account, d: Datagram)
    requires Right(s) && PayloadsRight(s) && Leads(s, es, t) && Balanced(s, a, d)
    ensures Balanced(t, Of(s, es, a), d)
    decreases |es|
  {
    hide Right, PayloadsRight, Enabled, Legal, ActionOf, Next, Balanced;
    if es != [] {
      StepRight(s, es[0]);
      PayloadsStep(s, es[0]);
      BalancedStep(s, es[0], a, d);
      RunBalanced(Next(s, es[0]), es[1..], t, a.With(s, es[0]), d);
    }
  }

  /** In every run: what was read from the network is, as often as it was read, on its way
      to the decoder or decoded; exactly the decoded datagrams chosen for it are published,
      in order; every copy for the mirror is on its way, sent, or lost at a full queue; and
      every buffer ever made is in the pool, in use, or forgotten. */
  lemma AlwaysBalanced(es: seq<Step>, t: State, d: Datagram)
    requires Leads(START, es, t)
    ensures var a := Of(START, es, NOTHING);
            && t.buffers.received == a.read && t.published == a.published
            && Count(a.read, d) == |Flight(t, d)| + Count(a.decoded, d)
            && Count(a.copied, d) == |MirrorFlight(t, d)| + Count(t.mirrored, d) + Count(a.lost, d)
            && t.buffers.made == |t.buffers.pool| + |t.buffers.refs| + a.forgotten
  {
    StartBalanced(d);
    hide Leads, Of, Right, PayloadsRight, Flight, MirrorFlight, Count;
    RunBalanced(START, es, t, NOTHING, d);
  }

  lemma StartBalanced(d: Datagram)
    ensures Right(START) && PayloadsRight(START) && Balanced(START, NOTHING, d)
  {
    assert Flight(START, d) == {};
    assert MirrorFlight(START, d) == {};
  }

  // ---------- Datagrams reach the workers in the order in which they came

  /** The datagrams in the cells of the UDP queue from i on. */
  ghost function Queued(s: State, i: nat): seq<Datagram>
    decreases s.udp.tail - i
  {
    if i >= s.udp.tail then [] else Listed(Held(s, Udp(i))) + Queued(s, i + 1)
  }

  /** What the worker holds that has just received from the queue. */
  ghost function TakenBy(s: State, e: Step): seq<Datagram>
    requires Enabled(s, e) && Legal(s.buffers, ActionOf(s, e))
  {
    if e.WorkerReceive? then Listed(Held(Next(s, e), Work(e.w))) else []
  }

  ghost function TakenIn(s: State, es: seq<Step>): seq<Datagram>
    decreases |es|
  {
    if es == [] || !Enabled(s, es[0]) || !Legal(s.buffers, ActionOf(s, es[0])) then []
    else TakenBy(s, es[0]) + TakenIn(Next(s, es[0]), es[1..])
  }

  /** What has been read and not yet been taken, oldest first. */
  ghost function Pending(s: State): seq<Datagram> {
    Queued(s, s.udp.head) + Listed(Held(s, Listener))
  }

  lemma {:induction false} QueuedSame(s: State, t: State, i: nat)
    requires s.udp.tail == t.udp.tail && forall j: nat | i <= j < s.udp.tail :: Held(s, Udp(j)) == Held(t, Udp(j))
    ensures Queued(s, i) == Queued(t, i)
    decreases s.udp.tail - i
  {
    hide Held;
    if i < s.udp.tail {
      QueuedSame(s, t, i + 1);
    }
  }

  lemma {:induction false} QueuedOneMore(s: State, t: State, i: nat)
    requires i <= s.udp.tail && t.udp.tail == s.udp.tail + 1
    requires forall j: nat | i <= j < s.udp.tail :: Held(s, Udp(j)) == Held(t, Udp(j))
    ensures Queued(t, i) == Queued(s, i) + Listed(Held(t, Udp(s.udp.tail)))
    decreases s.udp.tail - i
  {
    hide Held;
    if i < s.udp.tail {
      QueuedOneMore(s, t, i + 1);
      var first, rest, last := Listed(Held(s, Udp(i))), Queued(s, i + 1), Listed(Held(t, Udp(s.udp.tail)));
      assert first + (rest + last) == (first + rest) + last;
    } else {
      assert Queued(t, i + 1) == [] && Queued(s, i) == [];
    }
  }

  lemma UdpOther(s: State, e: Step, i: nat)
    requires Enabled(s, e)
    ensures !(e.ListenerSend? && i == s.udp.tail) && !(e.WorkerReceive? && i == s.udp.head) ==>
              HeldThen(s.buffers, ActionOf(s, e), Udp(i)) == Held(s, Udp(i))
    ensures e.ListenerSend? ==> HeldThen(s.buffers, ActionOf(s, e), Udp(s.udp.tail)) == Held(s, Listener)
    ensures e.WorkerReceive? ==> HeldThen(s.buffers, ActionOf(s, e), Work(e.w)) == Held(s, Udp(s.udp.head))
  {
    hide HeldIn, HasRoom;
  }

  lemma ListenerThen(s: State, e: Step)
    requires Enabled(s, e) && (e.ListenerGet? ==> Held(s, Listener).None?)
    ensures HeldThen(s.buffers, ActionOf(s, e), Listener)
         == if e.ListenerRead? then Some(e.d) else if e.ListenerSend? then None else Held(s, Listener)
    ensures e.ListenerRead? ==> Held(s, Listener).None?
  {
    hide HasRoom;
  }

  lemma UdpEnds(s: State, e: Step)
    requires Enabled(s, e) && Legal(s.buffers, ActionOf(s, e))
    ensures Next(s, e).udp == if e.ListenerSend? then Ends(s.udp.head, s.udp.tail + 1)
                              else if e.WorkerReceive? then Ends(s.udp.head + 1, s.udp.tail) else s.udp
  {
    hide Do, Legal, WorkersAfter, MirrorsAfter, Found;
  }

  lemma PendingStep(s: State, e: Step)
    requires Right(s) && Enabled(s, e) && Legal(s.buffers, ActionOf(s, e))
    ensures Pending(s) + ReadBy(e) == TakenBy(s, e) + Pending(Next(s, e))
  {
    hide UdpRight, MirrorQueueRight, OutRight, WorkersRight, MirrorsRight, FilledWhereUsed, LogsHonest, MirrorsHonest;
    hide Next, Legal, ActionOf, Intact, HeldThen, HeldIn, HasRoom, Queued;
    var t := Next(s, e);
    UdpEnds(s, e);
    HeldAfterStep(s, e, Listener);
    ListenerFree(s, e);
    ListenerThen(s, e);
    forall i: nat
      ensures !(e.ListenerSend? && i == s.udp.tail) && !(e.WorkerReceive? && i == s.udp.head) ==> Held(t, Udp(i)) == Held(s, Udp(i))
    {
      HeldAfterStep(s, e, Udp(i));
      UdpOther(s, e, i);
    }
    UdpOther(s, e, 0);
    if e.ListenerSend? {
      HeadFirst(s);
      HeldAfterStep(s, e, Udp(s.udp.tail));
      QueuedOneMore(s, t, s.udp.head);
    } else if e.WorkerReceive? {
      HeldAfterStep(s, e, Work(e.w));
      QueuedHead(s);
      QueuedSame(s, t, s.udp.head + 1);
    } else {
      QueuedSame(s, t, s.udp.head);
    }
  }

  lemma HeldAfterStep(s: State, e: Step, p: Place)
    requires Intact(s.buffers) && Enabled(s, e) && Legal(s.buffers, ActionOf(s, e))
    ensures Held(Next(s, e), p) == HeldThen(s.buffers, ActionOf(s, e), p)
  {
    hide Do, Legal, ActionOf, WorkersAfter, MirrorsAfter, HeldIn, HeldThen, Intact;
    HeldAfter(s.buffers, ActionOf(s, e), p);
  }

  lemma ListenerFree(s: State, e: Step)
    requires Enabled(s, e)
    ensures e.ListenerGet? ==> Held(s, Listener).None?
  {
  }

  lemma HeadFirst(s: State)
    requires UdpRight(s)
    ensures s.udp.head <= s.udp.tail
  {
  }

  lemma QueuedHead(s: State)
    requires s.udp.head < s.udp.tail
    ensures Queued(s, s.udp.head) == Listed(Held(s, Udp(s.udp.head))) + Queued(s, s.udp.head + 1)
  {
  }

  lemma {:induction false} RunInOrder(s: State, es: seq<Step>, t: State, read: seq<Datagram>, taken: seq<Datagram>)
    requires Right(s) && Leads(s, es, t) && s.buffers.received == read && read == taken + Pending(s)
    ensures t.buffers.received == taken + TakenIn(s, es) + Pending(t)
    decreases |es|
  {
    hide Right, Enabled, Legal, ActionOf, Next, Pending, TakenBy, ReadBy;
    if es == [] {
      assert taken + [] == taken;
    } else {
      var e, s' := es[0], Next(s, es[0]);
      StepRight(s, e);
      LogsBy(s, e);
      PendingStep(s, e);
      assert taken + Pending(s) + ReadBy(e) == taken + (Pending(s) + ReadBy(e));
      assert taken + (TakenBy(s, e) + Pending(s')) == (taken + TakenBy(s, e)) + Pending(s');
      RunInOrder(s', es[1..], t, s'.buffers.received, taken + TakenBy(s, e));
      assert taken + TakenBy(s, e) + TakenIn(s', es[1..]) == taken + (TakenBy(s, e) + TakenIn(s', es[1..]));
    }
  }

  /** In every run the workers take the datagrams in the order in which they were read:
      what has been taken, followed by what waits in the queue and what the listener is
      about to send, is all that was read. */
  lemma AlwaysInOrder(es: seq<Step>, t: State)
    requires Leads(START, es, t)
    ensures t.buffers.received == TakenIn(START, es) + Queued(t, t.udp.head) + Listed(Held(t, Listener))
  {
    hide Leads, TakenIn, Right;
    StartBalanced(Datagram([], []));
    assert Pending(START) == [];
    RunInOrder(START, es, t, [], []);
    assert [] + TakenIn(START, es) == TakenIn(START, es);
    var a, b, c := TakenIn(START, es), Queued(t, t.udp.head), Listed(Held(t, Listener));
    assert a + (b + c) == (a + b) + c;
  }
}
