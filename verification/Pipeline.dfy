/** The goroutines of vflow/ipfix.go and vflow/ipfix_unix.go that share the pooled
    buffers: listener, decoder workers, mirror dispatcher and mirror workers, taking
    steps in any order. */
module Pipeline {
  import opened Bytes
  import opened BufferPool

  datatype Worker =
    /** About to return its buffer, at the head of the loop. */
    | Top
    /** Waiting for a datagram. Its variable still names the returned buffer, which it
        does not touch. */
    | Waiting
    | Received
    /** Has taken a second buffer for the mirror. */
    | Copying
    | Decoding
    | Stopped

  datatype MirrorWorker =
    | Idle
    | Holding
    /** The payload is in the packet. */
    | Copied(payload: bytes)
    | Sending(d: Datagram)

  /** A queue occupies the cells from head to tail. */
  datatype Ends = Ends(head: nat, tail: nat)

  /** `out` stands for the dispatcher's two queues, which behave alike. */
  datatype State = State(
    buffers: Buffers,
    workers: seq<Worker>,
    mirrors: seq<MirrorWorker>,
    udp: Ends,
    mirrorQueue: Ends,
    out: Ends,
    /** What the decoder made a JSON message of, and what was sent on. */
    published: seq<Datagram>,
    mirrored: seq<Datagram>)

  const QUEUE_SIZE := 1000

  predicate HasRoom(q: Ends) {
    q.tail - q.head < QUEUE_SIZE
  }

  datatype Step =
    | ListenerGet(buf: nat)
    | ListenerRead(d: Datagram)
    /** A read error or timeout: the next round takes another buffer. */
    | ListenerDrop
    | ListenerSend
    | WorkerStart(buf: nat)
    | WorkerPut(w: nat)
    | WorkerReceive(w: nat)
    | WorkerStop(w: nat)
    | WorkerNoMirror(w: nat)
    | WorkerMirrorGet(w: nat, buf: nat)
    | WorkerCopy(w: nat)
    /** A full mirror queue drops the copy. */
    | WorkerOffer(w: nat)
    /** Decodes the body; `publish` says whether a JSON copy is queued. */
    | WorkerDecode(w: nat, publish: bool)
    | Dispatch
    | DispatchSend
    | MirrorStart
    | MirrorReceive(i: nat)
    | MirrorCopy(i: nat)
    | MirrorPut(i: nat)
    | MirrorSend(i: nat)

  predicate IsFilled(s: State, p: Place) {
    p in s.buffers.refs && s.buffers.refs[p].data.Some?
  }

  predicate IsUnfilled(s: State, p: Place) {
    p in s.buffers.refs && s.buffers.refs[p].data.None?
  }

  predicate WorkerAt(s: State, w: nat, pc: Worker) {
    w < |s.workers| && s.workers[w] == pc
  }

  predicate Enabled(s: State, e: Step) {
    match e
    case ListenerGet(buf) => Listener !in s.buffers.refs && Available(s.buffers, buf)
    case ListenerRead(_) => IsUnfilled(s, Listener)
    case ListenerDrop => IsUnfilled(s, Listener)
    case ListenerSend => IsFilled(s, Listener) && HasRoom(s.udp)
    case WorkerStart(buf) => Available(s.buffers, buf)
    case WorkerPut(w) => WorkerAt(s, w, Top)
    case WorkerReceive(w) => WorkerAt(s, w, Waiting) && s.udp.head < s.udp.tail
    case WorkerStop(w) => WorkerAt(s, w, Waiting)
    case WorkerNoMirror(w) => WorkerAt(s, w, Received)
    case WorkerMirrorGet(w, buf) => WorkerAt(s, w, Received) && Available(s.buffers, buf)
    case WorkerCopy(w) => WorkerAt(s, w, Copying) && IsUnfilled(s, Copy(w))
    case WorkerOffer(w) => WorkerAt(s, w, Copying) && IsFilled(s, Copy(w))
    case WorkerDecode(w, _) => WorkerAt(s, w, Decoding)
    case Dispatch => Dispatcher !in s.buffers.refs && s.mirrorQueue.head < s.mirrorQueue.tail
    case DispatchSend => Dispatcher in s.buffers.refs && HasRoom(s.out)
    case MirrorStart => true
    case MirrorReceive(i) => i < |s.mirrors| && s.mirrors[i].Idle? && s.out.head < s.out.tail
    case MirrorCopy(i) => i < |s.mirrors| && s.mirrors[i].Holding?
    case MirrorPut(i) => i < |s.mirrors| && s.mirrors[i].Copied?
    case MirrorSend(i) => i < |s.mirrors| && s.mirrors[i].Sending?
  }

  /** What a step does to the buffers. */
  function ActionOf(s: State, e: Step): Action {
    match e
    case ListenerGet(buf) => Acquire(Listener, buf)
    case ListenerRead(d) => Read(Listener, d)
    case ListenerDrop => Drop(Listener)
    case ListenerSend => Move(Listener, Udp(s.udp.tail))
    case WorkerStart(buf) => Acquire(Work(|s.workers|), buf)
    case WorkerPut(w) => Return(Work(w))
    case WorkerReceive(w) => Move(Udp(s.udp.head), Work(w))
    case WorkerStop(_) => Nothing
    case WorkerNoMirror(_) => Nothing
    case WorkerMirrorGet(w, buf) => Acquire(Copy(w), buf)
    case WorkerCopy(w) => Duplicate(Copy(w), Work(w))
    case WorkerOffer(w) => if HasRoom(s.mirrorQueue) then Move(Copy(w), MirrorCell(s.mirrorQueue.tail)) else Drop(Copy(w))
    case WorkerDecode(_, _) => Nothing
    case Dispatch => Move(MirrorCell(s.mirrorQueue.head), Dispatcher)
    case DispatchSend => Move(Dispatcher, Out(s.out.tail))
    case MirrorStart => Nothing
    case MirrorReceive(i) => Move(Out(s.out.head), Mirror(i))
    case MirrorCopy(_) => Nothing
    case MirrorPut(i) => Return(Mirror(i))
    case MirrorSend(_) => Nothing
  }

  /** What a goroutine finds in the buffer it holds, with the sender it was told. */
  function Found(s: State, p: Place): Datagram {
    if p in s.buffers.refs && s.buffers.refs[p].buf in s.buffers.memory
    then Datagram(s.buffers.refs[p].addr, s.buffers.memory[s.buffers.refs[p].buf])
    else Datagram([], [])
  }

  function WorkersAfter(s: State, e: Step): seq<Worker>
    requires Enabled(s, e)
  {
    match e
    case WorkerStart(_) => s.workers + [Top]
    case WorkerPut(w) => s.workers[w := Waiting]
    case WorkerReceive(w) => s.workers[w := Received]
    case WorkerStop(w) => s.workers[w := Stopped]
    case WorkerNoMirror(w) => s.workers[w := Decoding]
    case WorkerMirrorGet(w, _) => s.workers[w := Copying]
    case WorkerOffer(w) => s.workers[w := Decoding]
    case WorkerDecode(w, _) => s.workers[w := Top]
    case _ => s.workers
  }

  function MirrorsAfter(s: State, e: Step): seq<MirrorWorker>
    requires Enabled(s, e)
  {
    match e
    case MirrorStart => s.mirrors + [Idle]
    case MirrorReceive(i) => s.mirrors[i := Holding]
    case MirrorCopy(i) => s.mirrors[i := Copied(Found(s, Mirror(i)).data)]
    case MirrorPut(i) => s.mirrors[i := Sending(Datagram(Found(s, Mirror(i)).addr, s.mirrors[i].payload))]
    case MirrorSend(i) => s.mirrors[i := Idle]
    case _ => s.mirrors
  }

  function Grown(q: Ends): Ends {
    Ends(q.head, q.tail + 1)
  }

  function Shrunk(q: Ends): Ends {
    Ends(q.head + 1, q.tail)
  }

  function Next(s: State, e: Step): State
    requires Enabled(s, e) && Legal(s.buffers, ActionOf(s, e))
  {
    State(
      Do(s.buffers, ActionOf(s, e)),
      WorkersAfter(s, e),
      MirrorsAfter(s, e),
      if e.ListenerSend? then Grown(s.udp) else if e.WorkerReceive? then Shrunk(s.udp) else s.udp,
      if e.WorkerOffer? && HasRoom(s.mirrorQueue) then Grown(s.mirrorQueue)
      else if e.Dispatch? then Shrunk(s.mirrorQueue) else s.mirrorQueue,
      if e.DispatchSend? then Grown(s.out) else if e.MirrorReceive? then Shrunk(s.out) else s.out,
      if e.WorkerDecode? && e.publish then s.published + [Found(s, Work(e.w))] else s.published,
      if e.MirrorSend? then s.mirrored + [s.mirrors[e.i].d] else s.mirrored)
  }

  const START := State(EMPTY, [], [], Ends(0, 0), Ends(0, 0), Ends(0, 0), [], [])

  // ---------- Which places hold a buffer

  predicate Owns(pc: Worker) {
    pc.Top? || InUse(pc)
  }

  predicate InUse(pc: Worker) {
    pc.Received? || pc.Copying? || pc.Decoding?
  }

  ghost predicate UdpRight(s: State) {
    && s.udp.head <= s.udp.tail
    && forall i: nat :: Udp(i) in s.buffers.refs <==> s.udp.head <= i < s.udp.tail
  }

  ghost predicate MirrorQueueRight(s: State) {
    && s.mirrorQueue.head <= s.mirrorQueue.tail
    && forall i: nat :: MirrorCell(i) in s.buffers.refs <==> s.mirrorQueue.head <= i < s.mirrorQueue.tail
  }

  ghost predicate OutRight(s: State) {
    && s.out.head <= s.out.tail
    && forall i: nat :: Out(i) in s.buffers.refs <==> s.out.head <= i < s.out.tail
  }

  ghost predicate WorkersRight(s: State) {
    && (forall w: nat :: Work(w) in s.buffers.refs <==> w < |s.workers| && Owns(s.workers[w]))
    && (forall w: nat :: Copy(w) in s.buffers.refs <==> w < |s.workers| && s.workers[w].Copying?)
  }

  ghost predicate MirrorsRight(s: State) {
    forall i: nat :: Mirror(i) in s.buffers.refs <==> i < |s.mirrors| && (s.mirrors[i].Holding? || s.mirrors[i].Copied?)
  }

  /** Only the listener, a new mirror copy and a worker at the head of its loop may
      hold an unfilled buffer. */
  ghost predicate FilledWhereUsed(s: State) {
    forall p | p in s.buffers.refs ::
      s.buffers.refs[p].data.Some? || p.Listener? || p.Copy? || (p.Work? && p.w < |s.workers| && s.workers[p.w].Top?)
  }

  ghost predicate Control(s: State) {
    UdpRight(s) && MirrorQueueRight(s) && OutRight(s) && WorkersRight(s) && MirrorsRight(s) && FilledWhereUsed(s)
  }

  /** Everything published or mirrored was received like that. */
  ghost predicate LogsHonest(s: State) {
    && (forall d | d in s.published :: d in s.buffers.received)
    && (forall d | d in s.mirrored :: d in s.buffers.received)
  }

  /** So was everything that is about to be mirrored. */
  ghost predicate MirrorsHonest(s: State) {
    && (forall i | 0 <= i < |s.mirrors| && s.mirrors[i].Copied? && Mirror(i) in s.buffers.refs ::
          Datagram(s.buffers.refs[Mirror(i)].addr, s.mirrors[i].payload) in s.buffers.received)
    && (forall i | 0 <= i < |s.mirrors| && s.mirrors[i].Sending? :: s.mirrors[i].d in s.buffers.received)
  }

  /** No step of the program uses a reference that it does not have. */
  lemma StepLegal(s: State, e: Step)
    requires Control(s) && Intact(s.buffers) && Enabled(s, e)
    ensures Legal(s.buffers, ActionOf(s, e))
  {
    if e.WorkerCopy? {
      assert Work(e.w) in s.buffers.refs;
    }
  }

  /** The places that hold a buffer after an action. */
  lemma Holders(s: Buffers, a: Action, p: Place)
    requires Legal(s, a)
    ensures a.Move? ==> a.p in s.refs
    ensures p in Do(s, a).refs <==>
              match a {
                case Acquire(q, _) => p == q || p in s.refs
                case Move(q, to) => p == to || (p in s.refs && p != q)
                case Drop(q) => p in s.refs && p != q
                case Return(q) => p in s.refs && p != q
                case _ => p in s.refs
              }
    ensures p in Do(s, a).refs ==>
              match a {
                case Acquire(q, _) => p != q ==> Do(s, a).refs[p] == s.refs[p]
                case Move(q, to) => Do(s, a).refs[p] == s.refs[if p == to then q else p]
                case Read(q, _) => if p == q then Do(s, a).refs[p].data.Some? else Do(s, a).refs[p] == s.refs[p]
                case Duplicate(q, _) => if p == q then Do(s, a).refs[p].data.Some? else Do(s, a).refs[p] == s.refs[p]
                case _ => Do(s, a).refs[p] == s.refs[p]
              }
  {
  }

  lemma UdpStep(s: State, e: Step)
    requires UdpRight(s) && Enabled(s, e) && Legal(s.buffers, ActionOf(s, e))
    ensures UdpRight(Next(s, e))
  {
    hide Do, Legal, WorkersAfter, MirrorsAfter, Found;
    forall i: nat
      ensures Udp(i) in Next(s, e).buffers.refs <==> Next(s, e).udp.head <= i < Next(s, e).udp.tail
    {
      Holders(s.buffers, ActionOf(s, e), Udp(i));
    }
  }

  lemma MirrorQueueStep(s: State, e: Step)
    requires MirrorQueueRight(s) && Enabled(s, e) && Legal(s.buffers, ActionOf(s, e))
    ensures MirrorQueueRight(Next(s, e))
  {
    hide Do, Legal, WorkersAfter, MirrorsAfter, Found;
    forall i: nat
      ensures MirrorCell(i) in Next(s, e).buffers.refs <==> Next(s, e).mirrorQueue.head <= i < Next(s, e).mirrorQueue.tail
    {
      Holders(s.buffers, ActionOf(s, e), MirrorCell(i));
    }
  }

  lemma OutStep(s: State, e: Step)
    requires OutRight(s) && Enabled(s, e) && Legal(s.buffers, ActionOf(s, e))
    ensures OutRight(Next(s, e))
  {
    hide Do, Legal, WorkersAfter, MirrorsAfter, Found;
    forall i: nat
      ensures Out(i) in Next(s, e).buffers.refs <==> Next(s, e).out.head <= i < Next(s, e).out.tail
    {
      Holders(s.buffers, ActionOf(s, e), Out(i));
    }
  }

  /** A worker's buffer after a step. */
  lemma WorkPlace(s: State, e: Step, w: nat)
    requires Enabled(s, e) && Legal(s.buffers, ActionOf(s, e))
    ensures Work(w) in Do(s.buffers, ActionOf(s, e)).refs
       <==> if e.WorkerStart? then w == |s.workers| || Work(w) in s.buffers.refs
            else if e.WorkerReceive? then w == e.w || Work(w) in s.buffers.refs
            else Work(w) in s.buffers.refs && !(e.WorkerPut? && w == e.w)
  {
    hide Do, Legal;
    Holders(s.buffers, ActionOf(s, e), Work(w));
  }

  /** A worker's mirror copy after a step. */
  lemma CopyPlace(s: State, e: Step, w: nat)
    requires Enabled(s, e) && Legal(s.buffers, ActionOf(s, e))
    ensures Copy(w) in Do(s.buffers, ActionOf(s, e)).refs
       <==> if e.WorkerMirrorGet? then w == e.w || Copy(w) in s.buffers.refs
            else Copy(w) in s.buffers.refs && !(e.WorkerOffer? && w == e.w)
  {
    hide Do, Legal;
    Holders(s.buffers, ActionOf(s, e), Copy(w));
  }

  lemma WorkersStep(s: State, e: Step)
    requires WorkersRight(s) && Enabled(s, e) && Legal(s.buffers, ActionOf(s, e))
    ensures WorkersRight(Next(s, e))
  {
    hide Do, Legal, MirrorsAfter, Found, ActionOf;
    var t := Next(s, e);
    forall w: nat
      ensures Work(w) in t.buffers.refs <==> w < |t.workers| && Owns(t.workers[w])
      ensures Copy(w) in t.buffers.refs <==> w < |t.workers| && t.workers[w].Copying?
    {
      WorkPlace(s, e, w);
      CopyPlace(s, e, w);
    }
  }

  predicate MirrorUnchanged(s: State, refs: map<Place, Ref>, i: nat) {
    && (Mirror(i) in refs <==> Mirror(i) in s.buffers.refs)
    && (Mirror(i) in refs ==> refs[Mirror(i)] == s.buffers.refs[Mirror(i)])
  }

  /** A mirror worker's buffer after a step. */
  lemma MirrorPlace(s: State, e: Step, i: nat)
    requires Enabled(s, e) && Legal(s.buffers, ActionOf(s, e))
    ensures var refs := Do(s.buffers, ActionOf(s, e)).refs;
            if e.MirrorReceive? && e.i == i then Mirror(i) in refs
            else if e.MirrorPut? && e.i == i then Mirror(i) !in refs
            else MirrorUnchanged(s, refs, i)
  {
    hide Do, Legal;
    Holders(s.buffers, ActionOf(s, e), Mirror(i));
  }

  lemma MirrorsStep(s: State, e: Step)
    requires MirrorsRight(s) && Enabled(s, e) && Legal(s.buffers, ActionOf(s, e))
    ensures MirrorsRight(Next(s, e))
  {
    hide Do, Legal, WorkersAfter, Found, ActionOf;
    var t := Next(s, e);
    forall i: nat
      ensures Mirror(i) in t.buffers.refs <==> i < |t.mirrors| && (t.mirrors[i].Holding? || t.mirrors[i].Copied?)
    {
      MirrorPlace(s, e, i);
    }
  }

  lemma FilledStep(s: State, e: Step)
    requires WorkersRight(s) && FilledWhereUsed(s) && Enabled(s, e) && Legal(s.buffers, ActionOf(s, e))
    ensures FilledWhereUsed(Next(s, e))
  {
    hide Do, Legal, MirrorsAfter, Found;
    var t := Next(s, e);
    forall p | p in t.buffers.refs
      ensures t.buffers.refs[p].data.Some? || p.Listener? || p.Copy? || (p.Work? && p.w < |t.workers| && t.workers[p.w].Top?)
    {
      Holders(s.buffers, ActionOf(s, e), p);
      if p.Work? {
        assert p == Work(p.w);
      }
    }
  }

  /** What is found in a filled buffer has been received. */
  lemma FoundReceived(s: State, p: Place)
    requires Intact(s.buffers) && IsFilled(s, p)
    ensures Found(s, p) == Datagram(s.buffers.refs[p].addr, s.buffers.refs[p].data.value)
    ensures Found(s, p) in s.buffers.received
  {
  }

  lemma ReceivedGrows(s: Buffers, a: Action)
    requires Legal(s, a)
    ensures forall d | d in s.received :: d in Do(s, a).received
  {
  }

  lemma LogsStep(s: State, e: Step)
    requires WorkersRight(s) && FilledWhereUsed(s) && Intact(s.buffers) && LogsHonest(s) && MirrorsHonest(s)
    requires Enabled(s, e) && Legal(s.buffers, ActionOf(s, e))
    ensures LogsHonest(Next(s, e))
  {
    hide Do, Legal, WorkersAfter, MirrorsAfter, Found, Intact, ActionOf;
    ReceivedGrows(s.buffers, ActionOf(s, e));
    if e.WorkerDecode? {
      assert Work(e.w) in s.buffers.refs;
      FoundReceived(s, Work(e.w));
    }
  }

  lemma MirrorsHonestStep(s: State, e: Step)
    requires MirrorsRight(s) && FilledWhereUsed(s) && Intact(s.buffers) && MirrorsHonest(s)
    requires Enabled(s, e) && Legal(s.buffers, ActionOf(s, e))
    ensures MirrorsHonest(Next(s, e))
  {
    hide Do, Legal, WorkersAfter, Found, Intact, ActionOf;
    ReceivedGrows(s.buffers, ActionOf(s, e));
    var t := Next(s, e);
    if e.MirrorCopy? || e.MirrorPut? {
      assert Mirror(e.i) in s.buffers.refs;
      FoundReceived(s, Mirror(e.i));
    }
    forall i | 0 <= i < |t.mirrors| && t.mirrors[i].Copied? && Mirror(i) in t.buffers.refs
      ensures Datagram(t.buffers.refs[Mirror(i)].addr, t.mirrors[i].payload) in t.buffers.received
    {
      MirrorPlace(s, e, i);
    }
  }

  // ---------- All runs

  ghost predicate Right(s: State) {
    Control(s) && BufferPool.Sound(s.buffers) && LogsHonest(s) && MirrorsHonest(s)
  }

  lemma StepRight(s: State, e: Step)
    requires Right(s) && Enabled(s, e)
    ensures Legal(s.buffers, ActionOf(s, e)) && Right(Next(s, e))
  {
    hide UdpRight, MirrorQueueRight, OutRight, WorkersRight, MirrorsRight, FilledWhereUsed, LogsHonest, MirrorsHonest;
    hide Enabled, Legal, ActionOf, Do, WorkersAfter, MirrorsAfter, Found, OneOwner, HeldOutside, AtMostOnce, Intact;
    StepLegal(s, e);
    KeepsSound(s.buffers, ActionOf(s, e));
    UdpStep(s, e);
    MirrorQueueStep(s, e);
    OutStep(s, e);
    WorkersStep(s, e);
    MirrorsStep(s, e);
    FilledStep(s, e);
    LogsStep(s, e);
    MirrorsHonestStep(s, e);
  }

  /** A run of the program. */
  ghost predicate Leads(s: State, es: seq<Step>, t: State)
    decreases |es|
  {
    if es == [] then t == s
    else Enabled(s, es[0]) && Legal(s.buffers, ActionOf(s, es[0])) && Leads(Next(s, es[0]), es[1..], t)
  }

  lemma {:induction false} RunRight(s: State, es: seq<Step>, t: State)
    requires Right(s) && Leads(s, es, t)
    ensures Right(t)
    decreases |es|
  {
    hide Right, Enabled, Legal, ActionOf, Next;
    if es != [] {
      StepRight(s, es[0]);
      RunRight(Next(s, es[0]), es[1..], t);
    }
  }

  /** In every reachable state each buffer has at most one owner, every acquisition is
      returned at most once, a filled buffer keeps its datagram until it is returned,
      and everything published or mirrored is a datagram as it was received, with its
      own sender. No step finds a reference missing (StepRight). */
  lemma AlwaysRight(es: seq<Step>, t: State)
    requires Leads(START, es, t)
    ensures OneOwner(t.buffers) && HeldOutside(t.buffers) && AtMostOnce(t.buffers) && Intact(t.buffers)
    ensures forall d | d in t.published || d in t.mirrored :: d in t.buffers.received
  {
    hide Leads;
    RunRight(START, es, t);
  }
}
