/** Ownership of pooled buffers. References to buffers sit in places (variables and
    queue cells of the program); the program acquires, moves, fills, forgets and
    returns them. The pool hands out any buffer it holds, or makes a new one. */
module BufferPool {
  import opened Bytes

  /** A reference to a buffer: which acquisition from the pool it stems from, the
      sender and, once the buffer has been filled, what was put into it. */
  datatype Ref = Ref(buf: nat, acq: nat, addr: bytes, data: Option<bytes>)

  datatype Datagram = Datagram(addr: bytes, data: bytes)

  /** Listener, UDP queue cell, worker, a worker's mirror copy, mirror queue cell,
      dispatcher, cell of the dispatcher's queue, mirror worker. Queue cells are
      numbered from the start of the program. */
  datatype Place =
    | Listener | Udp(i: nat) | Work(w: nat) | Copy(w: nat) | MirrorCell(i: nat) | Dispatcher | Out(i: nat) | Mirror(i: nat)

  datatype Buffers = Buffers(
    pool: multiset<nat>,
    made: nat,
    acquired: nat,
    returned: multiset<nat>,
    memory: map<nat, bytes>,
    refs: map<Place, Ref>,
    received: seq<Datagram>)

  datatype Action =
    | Nothing
    | Acquire(p: Place, buf: nat)
    | Move(p: Place, to: Place)
    /** Fills the buffer from the network. */
    | Read(p: Place, d: Datagram)
    /** Fills the buffer with the contents and sender of another one. */
    | Duplicate(p: Place, source: Place)
    /** Forgets the reference; the buffer never returns to the pool. */
    | Drop(p: Place)
    | Return(p: Place)

  predicate Available(s: Buffers, buf: nat) {
    buf in s.pool || buf == s.made
  }

  predicate Legal(s: Buffers, a: Action) {
    match a
    case Nothing => true
    case Acquire(p, buf) => p !in s.refs && Available(s, buf)
    case Move(p, to) => p in s.refs && to !in s.refs
    case Read(p, _) => p in s.refs && s.refs[p].data.None?
    case Duplicate(p, source) =>
      && p in s.refs && s.refs[p].data.None?
      && source in s.refs && s.refs[source].data.Some? && s.refs[source].buf in s.memory
    case Drop(p) => p in s.refs
    case Return(p) => p in s.refs
  }

  function Filled(s: Buffers, p: Place, d: Datagram): Buffers
    requires p in s.refs
  {
    var r := s.refs[p];
    s.(memory := s.memory[r.buf := d.data], refs := s.refs[p := Ref(r.buf, r.acq, d.addr, Some(d.data))])
  }

  function Do(s: Buffers, a: Action): Buffers
    requires Legal(s, a)
  {
    match a
    case Nothing => s
    case Acquire(p, buf) =>
      s.(pool := if buf in s.pool then s.pool - multiset{buf} else s.pool,
         made := if buf in s.pool then s.made else s.made + 1,
         acquired := s.acquired + 1,
         refs := s.refs[p := Ref(buf, s.acquired, [], None)])
    case Move(p, to) => s.(refs := (s.refs - {p})[to := s.refs[p]])
    case Read(p, d) => Filled(s.(received := s.received + [d]), p, d)
    case Duplicate(p, source) => Filled(s, p, Datagram(s.refs[source].addr, s.memory[s.refs[source].buf]))
    case Drop(p) => s.(refs := s.refs - {p})
    case Return(p) =>
      var r := s.refs[p];
      s.(pool := s.pool + multiset{r.buf}, returned := s.returned + multiset{r.acq}, refs := s.refs - {p})
  }

  const EMPTY := Buffers(multiset{}, 0, 0, multiset{}, map[], map[], [])

  /** No two places hold the same buffer or the same acquisition. */
  ghost predicate OneOwner(s: Buffers) {
    forall p, q | p in s.refs && q in s.refs && p != q ::
      s.refs[p].buf != s.refs[q].buf && s.refs[p].acq != s.refs[q].acq
  }

  /** What is held is not in the pool and has not been returned. */
  ghost predicate HeldOutside(s: Buffers) {
    forall p | p in s.refs ::
      && s.refs[p].buf < s.made && s.pool[s.refs[p].buf] == 0
      && s.refs[p].acq < s.acquired && s.returned[s.refs[p].acq] == 0
  }

  /** A buffer is in the pool, and an acquisition has been returned, at most once. */
  ghost predicate AtMostOnce(s: Buffers) {
    && (forall b: nat :: s.pool[b] <= if b < s.made then 1 else 0)
    && (forall a: nat :: s.returned[a] <= if a < s.acquired then 1 else 0)
  }

  /** A filled buffer still holds what was put into it: a datagram as received, with
      its own sender. */
  ghost predicate Intact(s: Buffers) {
    forall p | p in s.refs && s.refs[p].data.Some? ::
      var r := s.refs[p];
      r.buf in s.memory && s.memory[r.buf] == r.data.value && Datagram(r.addr, r.data.value) in s.received
  }

  lemma AcquireOneOwner(s: Buffers, p: Place, buf: nat)
    requires OneOwner(s) && HeldOutside(s) && Legal(s, Acquire(p, buf))
    ensures OneOwner(Do(s, Acquire(p, buf)))
  {
  }

  lemma MoveOneOwner(s: Buffers, p: Place, to: Place)
    requires OneOwner(s) && Legal(s, Move(p, to))
    ensures OneOwner(Do(s, Move(p, to)))
  {
  }

  /** A buffer that is filled stays where it is. */
  lemma FilledOneOwner(s: Buffers, p: Place, d: Datagram)
    requires OneOwner(s) && p in s.refs
    ensures OneOwner(Filled(s, p, d))
  {
  }

  lemma FewerOneOwner(s: Buffers, p: Place)
    requires OneOwner(s)
    ensures OneOwner(s.(refs := s.refs - {p}))
  {
  }

  lemma KeepsOneOwner(s: Buffers, a: Action)
    requires OneOwner(s) && HeldOutside(s) && Legal(s, a)
    ensures OneOwner(Do(s, a))
  {
    hide HeldOutside;
    match a
    case Acquire(p, buf) => AcquireOneOwner(s, p, buf);
    case Move(p, to) => MoveOneOwner(s, p, to);
    case Read(p, d) => FilledOneOwner(s.(received := s.received + [d]), p, d);
    case Duplicate(p, source) => FilledOneOwner(s, p, Datagram(s.refs[source].addr, s.memory[s.refs[source].buf]));
    case Drop(p) => FewerOneOwner(s, p);
    case Return(p) => FewerOneOwner(s, p);
    case Nothing =>
  }

  lemma AcquireOutside(s: Buffers, p: Place, buf: nat)
    requires HeldOutside(s) && AtMostOnce(s) && Legal(s, Acquire(p, buf))
    ensures HeldOutside(Do(s, Acquire(p, buf)))
  {
    assert s.pool[buf] <= 1 && s.returned[s.acquired] == 0;
  }

  lemma ReturnOutside(s: Buffers, p: Place)
    requires OneOwner(s) && HeldOutside(s) && Legal(s, Return(p))
    ensures HeldOutside(Do(s, Return(p)))
  {
  }

  lemma KeepsOutside(s: Buffers, a: Action)
    requires OneOwner(s) && HeldOutside(s) && AtMostOnce(s) && Legal(s, a)
    ensures HeldOutside(Do(s, a))
  {
    if a.Acquire? || a.Return? {
      hide OneOwner, HeldOutside, AtMostOnce, Do;
      if a.Acquire? {
        AcquireOutside(s, a.p, a.buf);
      } else {
        ReturnOutside(s, a.p);
      }
    }
  }

  lemma KeepsOnce(s: Buffers, a: Action)
    requires HeldOutside(s) && AtMostOnce(s) && Legal(s, a)
    ensures AtMostOnce(Do(s, a))
  {
  }

  lemma KeepsIntact(s: Buffers, a: Action)
    requires OneOwner(s) && Intact(s) && Legal(s, a)
    ensures Intact(Do(s, a))
  {
  }

  ghost predicate Sound(s: Buffers) {
    OneOwner(s) && HeldOutside(s) && AtMostOnce(s) && Intact(s)
  }

  lemma KeepsSound(s: Buffers, a: Action)
    requires Sound(s) && Legal(s, a)
    ensures Sound(Do(s, a))
  {
    hide OneOwner, HeldOutside, AtMostOnce, Intact, Legal, Do;
    KeepsOneOwner(s, a);
    KeepsOutside(s, a);
    KeepsOnce(s, a);
    KeepsIntact(s, a);
  }
}
