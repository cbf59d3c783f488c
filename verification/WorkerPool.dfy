/** The self-scaling worker pool of vflow/ipfix.go, before shutdown: the scaling loop
    (dynWorkers) and the worker goroutines take their steps in any order. */
module WorkerPool {

  /** The configured number of workers and the capacity of the pool channel. */
  datatype Config = Config(minWorkers: nat, maxWorkers: nat)

  /** Where the scaling loop stands. */
  datatype Pc =
    | AtTick
    /** Starting goroutines: `left` still to start. */
    | Growing(left: nat)
    /** At the head of the retirement loop, `n` turns done. */
    | Shrinking(n: nat)
    /** Has seen more quit channels in the pool than configured workers. */
    | Chosen(n: nat)
    /** Has taken one off the worker count. */
    | Decremented(n: nat)
    /** Has received quit channel q from the pool. */
    | Received(n: nat, q: nat)

  /** Quit channels are numbered in the order they are made. `spawned` goroutines have
      not counted themselves yet; those in `counted` have, but are not in the pool;
      `running` are the workers that have put their quit channel into the pool. */
  datatype Pool = Pool(
    workers: int,
    spawned: nat,
    counted: set<nat>,
    queue: seq<nat>,
    running: set<nat>,
    closed: seq<nat>,
    made: nat,
    nSeq: nat,
    pc: Pc,
    idleRounds: nat,
    shrinkRounds: nat)

  const SHRINK_AFTER := 15
  const SHRINK_BY := 10

  function GrowBy(load: nat): nat {
    if load > 300 then 100 else if load > 200 then 60 else if load > 100 then 40 else 30
  }

  datatype Step =
    /** The scaling loop has measured the load of a round. */
    | Round(load: nat)
    | Spawn
    | Grown
    /** One turn of the retirement loop, instruction by instruction. */
    | Check
    | Decrement
    | Receive
    | Close
    | Shrunk
    /** A spawned goroutine counts itself and makes its quit channel. */
    | Register
    /** A counted goroutine puts its quit channel into the pool and starts to work. */
    | Enqueue(q: nat)
    /** A worker whose quit channel is closed leaves its loop. */
    | Exit(q: nat)

  predicate Refused(c: Config, s: Pool, load: nat) {
    s.workers + GrowBy(load) > c.maxWorkers
  }

  predicate Enabled(c: Config, s: Pool, e: Step) {
    match e
    case Round(_) => s.pc.AtTick?
    case Spawn => s.pc.Growing? && s.pc.left > 0
    case Grown => s.pc.Growing? && s.pc.left == 0
    case Check => s.pc.Shrinking? && s.pc.n < SHRINK_BY
    case Decrement => s.pc.Chosen?
    case Receive => s.pc.Decremented? && s.queue != []
    case Close => s.pc.Received?
    case Shrunk => s.pc.Shrinking? && s.pc.n >= SHRINK_BY
    case Register => s.spawned > 0
    case Enqueue(q) => q in s.counted && |s.queue| < c.maxWorkers
    case Exit(q) => q in s.running && q in s.closed
  }

  function AfterRound(c: Config, s: Pool, load: nat): Pool {
    if load > 15 then
      if Refused(c, s, load) then s else s.(pc := Growing(GrowBy(load)))
    else if load > 0 then s.(nSeq := 0)
    else if s.nSeq + 1 > SHRINK_AFTER then
      s.(nSeq := s.nSeq + 1, pc := Shrinking(0), idleRounds := s.idleRounds + 1, shrinkRounds := s.shrinkRounds + 1)
    else s.(nSeq := s.nSeq + 1, idleRounds := s.idleRounds + 1)
  }

  function Next(c: Config, s: Pool, e: Step): Pool
    requires Enabled(c, s, e)
  {
    match e
    case Round(load) => AfterRound(c, s, load)
    case Spawn => s.(spawned := s.spawned + 1, pc := Growing(s.pc.left - 1))
    case Grown => s.(nSeq := 0, pc := AtTick)
    case Check => s.(pc := if |s.queue| > c.minWorkers then Chosen(s.pc.n) else Shrinking(s.pc.n + 1))
    case Decrement => s.(workers := s.workers - 1, pc := Decremented(s.pc.n))
    case Receive => s.(queue := s.queue[1..], pc := Received(s.pc.n, s.queue[0]))
    case Close => s.(closed := s.closed + [s.pc.q], pc := Shrinking(s.pc.n + 1))
    case Shrunk => s.(nSeq := 0, pc := AtTick)
    case Register => s.(spawned := s.spawned - 1, workers := s.workers + 1, counted := s.counted + {s.made}, made := s.made + 1)
    case Enqueue(q) => s.(counted := s.counted - {q}, queue := s.queue + [q], running := s.running + {q})
    case Exit(q) => s.(running := s.running - {q})
  }

  predicate Possible(c: Config, s: Pool, es: seq<Step>)
    decreases |es|
  {
    es != [] ==> Enabled(c, s, es[0]) && Possible(c, Next(c, s, es[0]), es[1..])
  }

  function After(c: Config, s: Pool, es: seq<Step>): Pool
    requires Possible(c, s, es)
    decreases |es|
  {
    if es == [] then s else After(c, Next(c, s, es[0]), es[1..])
  }

  /** run has counted the configured workers and started their goroutines. */
  ghost predicate Initial(c: Config, s: Pool) {
    && s.workers == c.minWorkers == |s.counted| && (forall q: nat :: q in s.counted <==> q < s.made)
    && s.spawned == 0 && s.queue == [] && s.running == {} && s.closed == []
    && s.nSeq == 0 && s.pc.AtTick? && s.idleRounds == 0 && s.shrinkRounds == 0
  }

  // ---------- The worker count

  /** One worker has been taken off the count but not out of the pool. */
  function Pending(pc: Pc): nat {
    if pc.Decremented? then 1 else 0
  }

  /** The count is the pool plus the counted workers on their way into it, and it is
      never below the configured number. */
  ghost predicate CountRight(c: Config, s: Pool) {
    && s.workers == |s.queue| + |s.counted| - Pending(s.pc)
    && s.workers >= c.minWorkers
    && (s.pc.Chosen? || s.pc.Decremented? ==> |s.queue| > c.minWorkers)
  }

  // ---------- Quit channels

  ghost predicate Distinct(s: seq<nat>) {
    forall i, j | 0 <= i < j < |s| :: s[i] != s[j]
  }

  /** Every quit channel is in one place: with its goroutine, in the pool, in the
      hands of the scaling loop, or closed. */
  ghost predicate QuitsRight(s: Pool) {
    && (forall q | q in s.counted :: q < s.made)
    && (forall q | q in s.queue :: q < s.made)
    && (forall q | q in s.closed :: q < s.made)
    && Distinct(s.queue) && Distinct(s.closed)
    && (forall q | q in s.queue :: q !in s.counted && q !in s.closed)
    && (forall q | q in s.closed :: q !in s.counted)
    && (s.pc.Received? ==> s.pc.q < s.made && s.pc.q !in s.counted && s.pc.q !in s.queue && s.pc.q !in s.closed)
  }

  /** The workers: those of the pool, and those told to stop that have not yet left. */
  ghost predicate RunningRight(s: Pool) {
    && (forall q | q in s.running :: q in s.queue || q in s.closed || (s.pc.Received? && q == s.pc.q))
    && (forall q | q in s.queue || (s.pc.Received? && q == s.pc.q) :: q in s.running)
  }

  // ---------- Hysteresis

  /** Sixteen idle rounds were spent on every round that retires workers, and each
      of those retires at most ten. */
  ghost predicate PaidFor(s: Pool) {
    && 16 * s.shrinkRounds + (if InShrink(s.pc) then 0 else s.nSeq) <= s.idleRounds
    && s.nSeq <= 16 && (!InShrink(s.pc) ==> s.nSeq <= 15)
    && |s.closed| <= 10 * s.shrinkRounds
    && (InShrink(s.pc) ==> s.pc.n <= SHRINK_BY && s.shrinkRounds > 0 && |s.closed| <= 10 * (s.shrinkRounds - 1) + s.pc.n)
    && (s.pc.Chosen? || s.pc.Decremented? || s.pc.Received? ==> s.pc.n < SHRINK_BY)
  }

  predicate InShrink(pc: Pc) {
    pc.Shrinking? || pc.Chosen? || pc.Decremented? || pc.Received?
  }

  ghost predicate Right(c: Config, s: Pool) {
    CountRight(c, s) && QuitsRight(s) && RunningRight(s) && PaidFor(s)
  }

  lemma InitialRight(c: Config, s: Pool)
    requires Initial(c, s)
    ensures Right(c, s)
  {
  }

  lemma Bigger(a: set<nat>, q: nat)
    ensures q !in a ==> |a + {q}| == |a| + 1
    ensures q in a ==> |a - {q}| == |a| - 1
  {
  }

  lemma CountStep(c: Config, s: Pool, e: Step)
    requires CountRight(c, s) && s.made !in s.counted && Enabled(c, s, e)
    ensures CountRight(c, Next(c, s, e))
  {
    if e.Enqueue? {
      Bigger(s.counted, e.q);
    } else {
      Bigger(s.counted, s.made);
    }
  }

  lemma NextQuitIsNew(s: Pool)
    requires QuitsRight(s)
    ensures s.made !in s.counted
  {
  }

  lemma QuitsReceive(c: Config, s: Pool)
    requires QuitsRight(s) && Enabled(c, s, Receive)
    ensures QuitsRight(Next(c, s, Receive))
  {
    assert s.queue[0] in s.queue;
    assert forall q | q in s.queue[1..] :: q in s.queue;
  }

  lemma QuitsClose(c: Config, s: Pool)
    requires QuitsRight(s) && Enabled(c, s, Close)
    ensures QuitsRight(Next(c, s, Close))
  {
  }

  lemma QuitsEnqueue(c: Config, s: Pool, q: nat)
    requires QuitsRight(s) && Enabled(c, s, Enqueue(q))
    ensures QuitsRight(Next(c, s, Enqueue(q)))
  {
  }

  lemma QuitsStep(c: Config, s: Pool, e: Step)
    requires QuitsRight(s) && Enabled(c, s, e)
    ensures QuitsRight(Next(c, s, e))
  {
    if e.Receive? || e.Close? || e.Enqueue? {
      hide QuitsRight, Enabled, Next;
      if e.Receive? { QuitsReceive(c, s); }
      if e.Close? { QuitsClose(c, s); }
      if e.Enqueue? { QuitsEnqueue(c, s, e.q); }
    }
  }

  lemma RunningStep(c: Config, s: Pool, e: Step)
    requires QuitsRight(s) && RunningRight(s) && Enabled(c, s, e)
    ensures RunningRight(Next(c, s, e))
  {
    if e.Receive? {
      assert s.queue == [s.queue[0]] + s.queue[1..];
    }
  }

  lemma PaidStep(c: Config, s: Pool, e: Step)
    requires PaidFor(s) && Enabled(c, s, e)
    ensures PaidFor(Next(c, s, e))
  {
  }

  lemma StepRight(c: Config, s: Pool, e: Step)
    requires Right(c, s) && Enabled(c, s, e)
    ensures Right(c, Next(c, s, e))
  {
    hide CountRight, QuitsRight, RunningRight, PaidFor, Next, Enabled;
    NextQuitIsNew(s);
    CountStep(c, s, e);
    QuitsStep(c, s, e);
    RunningStep(c, s, e);
    PaidStep(c, s, e);
  }

  lemma {:induction false} RunRight(c: Config, s: Pool, es: seq<Step>)
    requires Right(c, s) && Possible(c, s, es)
    ensures Right(c, After(c, s, es))
    decreases |es|
  {
    hide Right, Next, Enabled;
    if es != [] {
      StepRight(c, s, es[0]);
      RunRight(c, Next(c, s, es[0]), es[1..]);
    }
  }

  /** In every reachable state: the worker count is right and at least the configured
      number, every quit channel was closed at most once, the workers of the pool are
      running, retirements have been paid for with idle rounds, and the retirement loop
      does not have to wait for a quit channel. */
  lemma AlwaysRight(c: Config, s: Pool, es: seq<Step>)
    requires Initial(c, s) && Possible(c, s, es)
    ensures Right(c, After(c, s, es))
    ensures |After(c, s, es).closed| <= 10 * (After(c, s, es).idleRounds / 16)
    ensures After(c, s, es).pc.Decremented? ==> Enabled(c, After(c, s, es), Receive)
  {
    InitialRight(c, s);
    RunRight(c, s, es);
    hide Possible, After;
    var r := After(c, s, es);
    assert 16 * r.shrinkRounds <= r.idleRounds;
    assert r.shrinkRounds <= r.idleRounds / 16;
    if r.pc.Decremented? {
      ShrinkNeverWaits(c, r);
    }
  }

  /** The receive in the retirement loop never waits. */
  lemma ShrinkNeverWaits(c: Config, s: Pool)
    requires CountRight(c, s) && s.pc.Decremented?
    ensures Enabled(c, s, Receive)
  {
  }

  // ---------- The upper bound

  /** Workers, and those that will be once every goroutine has counted itself. */
  function Committed(s: Pool): int {
    s.workers + s.spawned + Pending(s.pc) + if s.pc.Growing? then s.pc.left else 0
  }

  /** The round starts goroutines. */
  predicate Grows(c: Config, s: Pool, e: Step) {
    e.Round? && e.load > 15 && !Refused(c, s, e.load)
  }

  /** In every state of the run, all workers counted and to be counted fit. */
  predicate WithinBounds(c: Config, s: Pool, es: seq<Step>)
    requires Possible(c, s, es)
    decreases |es|
  {
    Committed(s) <= c.maxWorkers && (es != [] ==> WithinBounds(c, Next(c, s, es[0]), es[1..]))
  }

  /** At every round of the run that grows the pool, there is room for the new
      goroutines beside all those already started. */
  predicate GrowthsFit(c: Config, s: Pool, es: seq<Step>)
    requires Possible(c, s, es)
    decreases |es|
  {
    es != [] ==>
      && (Grows(c, s, es[0]) ==> Committed(s) + GrowBy(es[0].load) <= c.maxWorkers)
      && GrowthsFit(c, Next(c, s, es[0]), es[1..])
  }

  lemma CommittedStep(c: Config, s: Pool, e: Step)
    requires Enabled(c, s, e)
    ensures var t := Next(c, s, e);
            if Grows(c, s, e) then Committed(t) == Committed(s) + GrowBy(e.load) else Committed(t) <= Committed(s)
  {
  }

  /** The check against the maximum looks at the counted workers only. Over any run the
      maximum is kept if and only if every accepted growth also has room for the
      goroutines that have not counted themselves yet. */
  lemma {:induction false} MaxIff(c: Config, s: Pool, es: seq<Step>)
    requires Possible(c, s, es) && Committed(s) <= c.maxWorkers
    ensures WithinBounds(c, s, es) <==> GrowthsFit(c, s, es)
    decreases |es|
  {
    hide Next, Committed, Enabled, Grows;
    if es != [] {
      CommittedStep(c, s, es[0]);
      if Committed(Next(c, s, es[0])) <= c.maxWorkers {
        MaxIff(c, Next(c, s, es[0]), es[1..]);
      }
    }
  }

  lemma {:induction false} EndWithinBounds(c: Config, s: Pool, es: seq<Step>)
    requires Possible(c, s, es) && WithinBounds(c, s, es)
    ensures Committed(After(c, s, es)) <= c.maxWorkers
    decreases |es|
  {
    hide Next, Committed, Enabled;
    if es != [] {
      EndWithinBounds(c, Next(c, s, es[0]), es[1..]);
    }
  }

  /** Within bounds the count does not exceed the maximum, and no goroutine waits to put
      its quit channel into the pool. */
  lemma WithinBoundsMeans(c: Config, s: Pool, es: seq<Step>)
    requires Initial(c, s) && Possible(c, s, es) && WithinBounds(c, s, es)
    ensures var r := After(c, s, es);
            && r.workers <= c.maxWorkers
            && forall q | q in r.counted :: Enabled(c, r, Enqueue(q))
  {
    EndWithinBounds(c, s, es);
    AlwaysRight(c, s, es);
    hide Possible, After, WithinBounds, QuitsRight, RunningRight, PaidFor;
    var r := After(c, s, es);
    if r.counted != {} {
      assert |r.counted| > 0;
    }
  }

  /** At every round that grows the pool, all goroutines have counted themselves. */
  predicate RegistersFirst(c: Config, s: Pool, es: seq<Step>)
    requires Possible(c, s, es)
    decreases |es|
  {
    es != [] ==>
      && (es[0].Round? && es[0].load > 15 ==> s.spawned == 0)
      && RegistersFirst(c, Next(c, s, es[0]), es[1..])
  }

  lemma {:induction false} RegisteredFits(c: Config, s: Pool, es: seq<Step>)
    requires Possible(c, s, es) && RegistersFirst(c, s, es)
    ensures GrowthsFit(c, s, es)
    decreases |es|
  {
    hide Next;
    if es != [] {
      RegisteredFits(c, Next(c, s, es[0]), es[1..]);
    }
  }

  /** With that proviso the maximum is kept. */
  lemma NeverAboveMax(c: Config, s: Pool, es: seq<Step>)
    requires Initial(c, s) && c.minWorkers <= c.maxWorkers && Possible(c, s, es) && RegistersFirst(c, s, es)
    ensures var r := After(c, s, es);
            && r.workers <= c.maxWorkers
            && forall q | q in r.counted :: Enabled(c, r, Enqueue(q))
  {
    hide Possible, After, RegistersFirst, WithinBounds, GrowthsFit, Enabled;
    RegisteredFits(c, s, es);
    MaxIff(c, s, es);
    WithinBoundsMeans(c, s, es);
  }

  function Registrations(n: nat): seq<Step> {
    if n == 0 then [] else [Register] + Registrations(n - 1)
  }

  lemma {:induction false} AllRegister(c: Config, s: Pool, n: nat)
    requires n <= s.spawned
    ensures Possible(c, s, Registrations(n))
    ensures var r := After(c, s, Registrations(n));
            r.workers == s.workers + n && r.spawned == s.spawned - n
    decreases n
  {
    if n > 0 {
      assert Registrations(n)[1..] == Registrations(n - 1);
      AllRegister(c, Next(c, s, Register), n - 1);
    }
  }

  function Spawns(n: nat): seq<Step> {
    if n == 0 then [Grown] else [Spawn] + Spawns(n - 1)
  }

  lemma {:induction false} AllSpawn(c: Config, s: Pool, n: nat)
    requires s.pc == Growing(n)
    ensures Possible(c, s, Spawns(n))
    ensures After(c, s, Spawns(n)) == s.(spawned := s.spawned + n, nSeq := 0, pc := AtTick)
    decreases n
  {
    if n == 0 {
      assert Spawns(0)[1..] == [];
    } else {
      assert Spawns(n)[1..] == Spawns(n - 1);
      AllSpawn(c, Next(c, s, Spawn), n - 1);
    }
  }

  /** An accepted round starts its goroutines before the next one. */
  lemma GrowRound(c: Config, s: Pool, load: nat)
    requires s.pc.AtTick? && load > 15 && !Refused(c, s, load)
    ensures var es := [Round(load)] + Spawns(GrowBy(load));
            && Possible(c, s, es)
            && After(c, s, es) == s.(spawned := s.spawned + GrowBy(load), nSeq := 0)
  {
    var es := [Round(load)] + Spawns(GrowBy(load));
    assert es[1..] == Spawns(GrowBy(load));
    AllSpawn(c, Next(c, s, Round(load)), GrowBy(load));
  }

  lemma {:induction false} Compose(c: Config, s: Pool, xs: seq<Step>, ys: seq<Step>)
    requires Possible(c, s, xs) && Possible(c, After(c, s, xs), ys)
    ensures Possible(c, s, xs + ys) && After(c, s, xs + ys) == After(c, After(c, s, xs), ys)
    decreases |xs|
  {
    hide Enabled, Next;
    if xs == [] {
      assert xs + ys == ys;
    } else {
      assert (xs + ys)[1..] == xs[1..] + ys && (xs + ys)[0] == xs[0];
      Compose(c, Next(c, s, xs[0]), xs[1..], ys);
    }
  }

  /** The workers committed to are reached without any further round, unless the scaling
      loop is just taking one away. */
  lemma CommittedReached(c: Config, s: Pool)
    requires !s.pc.Decremented?
    ensures exists es: seq<Step> :: Possible(c, s, es) && (forall e | e in es :: !e.Round?) && After(c, s, es).workers == Committed(s)
  {
    hide Possible, After, Next, Enabled;
    var xs := if s.pc.Growing? then Spawns(s.pc.left) else [];
    if s.pc.Growing? {
      AllSpawn(c, s, s.pc.left);
      NoRoundSpawns(s.pc.left);
    } else {
      NoSteps(c, s);
    }
    var t := After(c, s, xs);
    AllRegister(c, t, t.spawned);
    NoRoundRegistrations(t.spawned);
    Compose(c, s, xs, Registrations(t.spawned));
    var es := xs + Registrations(t.spawned);
    assert Possible(c, s, es) && (forall e | e in es :: !e.Round?) && After(c, s, es).workers == Committed(s);
  }

  lemma NoSteps(c: Config, s: Pool)
    ensures Possible(c, s, []) && After(c, s, []) == s
  {
  }

  lemma {:induction false} NoRoundSpawns(n: nat)
    ensures forall e | e in Spawns(n) :: !e.Round?
    decreases n
  {
    if n > 0 {
      NoRoundSpawns(n - 1);
    }
  }

  lemma {:induction false} NoRoundRegistrations(n: nat)
    ensures forall e | e in Registrations(n) :: !e.Round?
    decreases n
  {
    if n > 0 {
      NoRoundRegistrations(n - 1);
    }
  }

  /** Growing rounds before anyone registers, as many as one likes. */
  lemma {:induction false} GrowRounds(c: Config, s: Pool, load: nat, k: nat) returns (es: seq<Step>)
    requires s.pc.AtTick? && load > 15 && !Refused(c, s, load) && s.nSeq == 0
    ensures Possible(c, s, es)
    ensures var t := After(c, s, es);
            t.pc.AtTick? && t.workers == s.workers && t.spawned == s.spawned + k * GrowBy(load)
    decreases k
  {
    hide Possible, After, Next, Enabled;
    if k == 0 {
      es := [];
      NoSteps(c, s);
    } else {
      var round := [Round(load)] + Spawns(GrowBy(load));
      GrowRound(c, s, load);
      var rest := GrowRounds(c, After(c, s, round), load, k - 1);
      Compose(c, s, round, rest);
      es := round + rest;
    }
  }

  /** Without the proviso the maximum is not kept: wherever one growth fits, busy rounds
      before anyone registers exceed it. */
  lemma MaxExceeded(c: Config, s: Pool, load: nat)
    requires Initial(c, s) && load > 15 && c.minWorkers + GrowBy(load) <= c.maxWorkers
    ensures exists es :: Possible(c, s, es) && After(c, s, es).workers > c.maxWorkers
  {
    hide Possible, After, Next, Enabled;
    var xs := GrowRounds(c, s, load, c.maxWorkers + 1);
    var t := After(c, s, xs);
    assert t.spawned >= c.maxWorkers + 1;
    AllRegister(c, t, t.spawned);
    Compose(c, s, xs, Registrations(t.spawned));
    var es := xs + Registrations(t.spawned);
    assert Possible(c, s, es) && After(c, s, es).workers > c.maxWorkers;
  }

  lemma {:induction false} NeverGrows(c: Config, s: Pool, es: seq<Step>)
    requires c.minWorkers + 30 > c.maxWorkers && Right(c, s) && Possible(c, s, es)
    ensures GrowthsFit(c, s, es)
    decreases |es|
  {
    hide QuitsRight, RunningRight, PaidFor, Next, Enabled;
    if es != [] {
      StepRight(c, s, es[0]);
      NeverGrows(c, Next(c, s, es[0]), es[1..]);
    }
  }

  /** The maximum is kept in every run if and only if not even the smallest growth fits
      above the configured number of workers. */
  lemma MaxKeptIff(c: Config, s: Pool)
    requires Initial(c, s) && c.minWorkers <= c.maxWorkers
    ensures (forall es | Possible(c, s, es) :: After(c, s, es).workers <= c.maxWorkers) <==> c.minWorkers + 30 > c.maxWorkers
  {
    if c.minWorkers + 30 > c.maxWorkers {
      InitialRight(c, s);
      hide Possible, After, Right, WithinBounds, GrowthsFit, Enabled;
      forall es | Possible(c, s, es)
        ensures After(c, s, es).workers <= c.maxWorkers
      {
        NeverGrows(c, s, es);
        MaxIff(c, s, es);
        WithinBoundsMeans(c, s, es);
      }
    } else {
      hide Possible, After;
      MaxExceeded(c, s, 16);
    }
  }

  // ---------- How far the pool grows and shrinks

  /** No round begins in the run. */
  predicate NoRounds(es: seq<Step>) {
    forall i | 0 <= i < |es| :: !es[i].Round?
  }

  lemma TailNoRounds(es: seq<Step>)
    requires es != [] && NoRounds(es)
    ensures !es[0].Round? && NoRounds(es[1..])
  {
    forall i | 0 <= i < |es[1..]|
      ensures !es[1..][i].Round?
    {
      assert es[1..][i] == es[i + 1];
    }
  }

  /** The goroutines ever started, and those the current round will still start. */
  function Started(s: Pool): nat {
    s.made + s.spawned + if s.pc.Growing? then s.pc.left else 0
  }

  lemma {:induction false} StartedKept(c: Config, s: Pool, es: seq<Step>)
    requires Possible(c, s, es) && NoRounds(es)
    ensures Started(After(c, s, es)) == Started(s)
    decreases |es|
  {
    hide NoRounds;
    if es != [] {
      TailNoRounds(es);
      assert Started(Next(c, s, es[0])) == Started(s);
      StartedKept(c, Next(c, s, es[0]), es[1..]);
    }
  }

  /** However the other goroutines step in between, a round starts 30, 40, 60 or 100 of
      them for a load above 15, 100, 200 or 300, unless that would exceed the maximum,
      and none for a smaller load. */
  lemma GrowthByLoad(c: Config, s: Pool, load: nat, es: seq<Step>)
    requires s.pc.AtTick? && Possible(c, s, [Round(load)] + es) && NoRounds(es)
    requires After(c, s, [Round(load)] + es).pc.AtTick?
    ensures var r := After(c, s, [Round(load)] + es);
            var growth := if load <= 15 then 0 else if load <= 100 then 30 else if load <= 200 then 40 else if load <= 300 then 60 else 100;
            r.made + r.spawned == s.made + s.spawned + if s.workers + growth <= c.maxWorkers then growth else 0
  {
    hide NoRounds;
    assert ([Round(load)] + es)[1..] == es;
    StartedKept(c, Next(c, s, Round(load)), es);
  }

  /** The idle rounds of a run of at most fifteen of them are counted; the next one makes
      the scaling loop retire workers. */
  lemma {:induction false} IdleRounds(c: Config, s: Pool, es: seq<Step>)
    requires s.pc.AtTick? && Possible(c, s, es) && s.nSeq + RoundsIn(es) <= 15
    requires forall i | 0 <= i < |es| :: es[i].Round? ==> es[i].load == 0
    ensures var r := After(c, s, es);
            && r.pc.AtTick? && r.nSeq == s.nSeq + RoundsIn(es) && r.closed == s.closed
            && (r.nSeq == 15 ==> Next(c, r, Round(0)).pc == Shrinking(0))
            && (r.nSeq < 15 ==> Next(c, r, Round(0)).pc.AtTick?)
    decreases |es|
  {
    if es != [] {
      assert forall i | 0 <= i < |es[1..]| :: es[1..][i] == es[i + 1];
      IdleRounds(c, Next(c, s, es[0]), es[1..]);
    }
  }

  function RoundsIn(es: seq<Step>): nat
    decreases |es|
  {
    if es == [] then 0 else (if es[0].Round? then 1 else 0) + RoundsIn(es[1..])
  }

  lemma {:induction false} CountReset(c: Config, s: Pool, es: seq<Step>)
    requires Possible(c, s, es) && NoRounds(es) && (s.pc.Growing? || (s.pc.AtTick? && s.nSeq == 0))
    ensures var r := After(c, s, es);
            r.closed == s.closed && (r.pc.Growing? || (r.pc.AtTick? && r.nSeq == 0))
    decreases |es|
  {
    hide NoRounds;
    if es != [] {
      TailNoRounds(es);
      CountReset(c, Next(c, s, es[0]), es[1..]);
    }
  }

  /** However the workers step in between, a round with any load starts the count of idle
      rounds again, so that nobody is retired in the next fifteen of them. A growth that is
      refused is the exception: it leaves everything as it was, the count included. */
  lemma BusyDelaysRetirement(c: Config, s: Pool, load: nat, xs: seq<Step>, ys: seq<Step>)
    requires s.pc.AtTick? && load > 0 && Possible(c, s, [Round(load)] + xs) && NoRounds(xs)
    requires var t := After(c, s, [Round(load)] + xs);
             t.pc.AtTick? && Possible(c, t, ys) && RoundsIn(ys) <= 15
    requires forall i | 0 <= i < |ys| :: ys[i].Round? ==> ys[i].load == 0
    ensures if load > 15 && s.workers + GrowBy(load) > c.maxWorkers then Next(c, s, Round(load)) == s
            else After(c, After(c, s, [Round(load)] + xs), ys).closed == s.closed
  {
    hide NoRounds, RoundsIn;
    assert ([Round(load)] + xs)[1..] == xs;
    if load <= 15 || s.workers + GrowBy(load) <= c.maxWorkers {
      CountReset(c, Next(c, s, Round(load)), xs);
      IdleRounds(c, After(c, s, [Round(load)] + xs), ys);
    }
  }

  function Min(a: int, b: int): int {
    if a < b then a else b
  }

  /** The workers above the configured number that the pool holds. */
  function Surplus(c: Config, s: Pool): nat {
    if |s.queue| > c.minWorkers then |s.queue| - c.minWorkers else 0
  }

  /** Those retired, in hand, and due in the turns that are left. */
  function Due(c: Config, s: Pool): int {
    |s.closed| +
    match s.pc
    case Shrinking(n) => Min(SHRINK_BY - n, Surplus(c, s))
    case Chosen(n) => Min(SHRINK_BY - n, Surplus(c, s))
    case Decremented(n) => Min(SHRINK_BY - n, Surplus(c, s))
    case Received(n, _) => 1 + Min(SHRINK_BY - n - 1, Surplus(c, s))
    case _ => 0
  }

  /** What holds while workers are retired. */
  ghost predicate Retiring(c: Config, s: Pool) {
    && (s.pc.Shrinking? ==> s.pc.n <= SHRINK_BY)
    && (s.pc.Chosen? || s.pc.Decremented? || s.pc.Received? ==> s.pc.n < SHRINK_BY)
    && (s.pc.Chosen? || s.pc.Decremented? ==> |s.queue| > c.minWorkers)
    && !s.pc.Growing?
  }

  lemma DueStep(c: Config, s: Pool, e: Step)
    requires Retiring(c, s) && Enabled(c, s, e) && !e.Round?
    ensures Retiring(c, Next(c, s, e)) && Due(c, Next(c, s, e)) >= Due(c, s)
    ensures !e.Enqueue? ==> Due(c, Next(c, s, e)) == Due(c, s)
  {
  }

  lemma {:induction false} DueKept(c: Config, s: Pool, es: seq<Step>)
    requires Retiring(c, s) && Possible(c, s, es) && NoRounds(es)
    ensures Due(c, After(c, s, es)) >= Due(c, s)
    ensures (forall i | 0 <= i < |es| :: !es[i].Enqueue?) ==> Due(c, After(c, s, es)) == Due(c, s)
    decreases |es|
  {
    hide Retiring, Due, Next, Enabled, NoRounds;
    if es != [] {
      TailNoRounds(es);
      DueStep(c, s, es[0]);
      DueKept(c, Next(c, s, es[0]), es[1..]);
      assert forall i | 0 <= i < |es[1..]| :: es[1..][i] == es[i + 1];
    }
  }

  /** However the workers step in between, a round that retires workers retires all
      those above the configured number up to ten of them, and no others unless more
      enter the pool meanwhile. */
  lemma ShrinkRetires(c: Config, s: Pool, es: seq<Step>)
    requires s.pc == Shrinking(0) && Possible(c, s, es) && NoRounds(es) && After(c, s, es).pc.AtTick?
    ensures var retired := |After(c, s, es).closed| - |s.closed|;
            && retired >= Min(10, Surplus(c, s))
            && ((forall i | 0 <= i < |es| :: !es[i].Enqueue?) ==> retired == Min(10, Surplus(c, s)))
  {
    hide NoRounds, Possible, After;
    DueKept(c, s, es);
  }

  // ---------- Every worker is accounted for

  function InHand(pc: Pc): nat {
    if pc.Received? then 1 else 0
  }

  function ExitsIn(es: seq<Step>): nat
    decreases |es|
  {
    if es == [] then 0 else (if es[0].Exit? then 1 else 0) + ExitsIn(es[1..])
  }

  /** The quit channels ever made, by where they are, and the workers that have begun and
      not left. */
  ghost predicate Accounted(s: Pool, exits: nat) {
    && s.made == |s.counted| + |s.queue| + InHand(s.pc) + |s.closed|
    && |s.running| + exits == |s.queue| + InHand(s.pc) + |s.closed|
  }

  lemma NewInPool(s: Pool, q: nat)
    requires QuitsRight(s) && RunningRight(s) && q in s.counted
    ensures q !in s.running
  {
  }

  lemma EnqueueAccounted(c: Config, s: Pool, q: nat, exits: nat)
    requires Accounted(s, exits) && Enabled(c, s, Enqueue(q)) && q !in s.running
    ensures Accounted(Next(c, s, Enqueue(q)), exits)
  {
    Bigger(s.counted, q);
    Bigger(s.running, q);
  }

  lemma RegisterAccounted(c: Config, s: Pool, exits: nat)
    requires Accounted(s, exits) && Enabled(c, s, Register) && s.made !in s.counted
    ensures Accounted(Next(c, s, Register), exits)
  {
    Bigger(s.counted, s.made);
  }

  lemma ExitAccounted(c: Config, s: Pool, q: nat, exits: nat)
    requires Accounted(s, exits) && Enabled(c, s, Exit(q))
    ensures Accounted(Next(c, s, Exit(q)), exits + 1)
  {
    Bigger(s.running, q);
  }

  lemma LoopAccounted(c: Config, s: Pool, e: Step, exits: nat)
    requires Accounted(s, exits) && Enabled(c, s, e) && !e.Enqueue? && !e.Register? && !e.Exit?
    ensures Accounted(Next(c, s, e), exits)
  {
  }

  lemma AccountedStep(c: Config, s: Pool, e: Step, exits: nat)
    requires QuitsRight(s) && RunningRight(s) && Accounted(s, exits) && Enabled(c, s, e)
    ensures Accounted(Next(c, s, e), exits + if e.Exit? then 1 else 0)
  {
    hide QuitsRight, RunningRight, Accounted, Next;
    match e
    case Enqueue(q) =>
      NewInPool(s, q);
      EnqueueAccounted(c, s, q, exits);
    case Register =>
      NextQuitIsNew(s);
      RegisterAccounted(c, s, exits);
    case Exit(q) => ExitAccounted(c, s, q, exits);
    case _ =>
      hide Enabled;
      LoopAccounted(c, s, e, exits);
  }

  lemma {:induction false} RunAccounted(c: Config, s: Pool, es: seq<Step>, exits: nat)
    requires Right(c, s) && Accounted(s, exits) && Possible(c, s, es)
    ensures Accounted(After(c, s, es), exits + ExitsIn(es))
    decreases |es|
  {
    hide CountRight, QuitsRight, RunningRight, PaidFor, Next, Enabled, Accounted;
    if es != [] {
      StepRight(c, s, es[0]);
      AccountedStep(c, s, es[0], exits);
      RunAccounted(c, Next(c, s, es[0]), es[1..], exits + if es[0].Exit? then 1 else 0);
    }
  }

  lemma {:induction false} SizeOfRange(q: set<nat>, n: nat)
    requires forall k: nat :: k in q <==> k < n
    ensures |q| == n
    decreases n
  {
    if n == 0 {
      assert q == {};
    } else {
      SizeOfRange(q - {n - 1}, n - 1);
    }
  }

  /** In every run each goroutine ever started is waiting to enter the pool, in it, about
      to be told to stop, or told so; and of those that have entered all run but the ones
      that have left. */
  lemma WorkersConserved(c: Config, s: Pool, es: seq<Step>)
    requires Initial(c, s) && Possible(c, s, es)
    ensures var r := After(c, s, es);
            && r.made == |r.counted| + |r.queue| + InHand(r.pc) + |r.closed|
            && |r.running| + ExitsIn(es) == r.made - |r.counted|
  {
    InitialRight(c, s);
    SizeOfRange(s.counted, s.made);
    hide Right, Possible, After, ExitsIn;
    RunAccounted(c, s, es, 0);
  }

  /** The quit channels that enter the pool in a run, in order. */
  function EnteredIn(es: seq<Step>): seq<nat>
    decreases |es|
  {
    if es == [] then [] else (if es[0].Enqueue? then [es[0].q] else []) + EnteredIn(es[1..])
  }

  function Hand(pc: Pc): seq<nat> {
    if pc.Received? then [pc.q] else []
  }

  /** Workers are told to stop in the order in which they entered the pool. */
  function InOrder(s: Pool): seq<nat> {
    s.closed + Hand(s.pc) + s.queue
  }

  lemma OrderStep(c: Config, s: Pool, e: Step)
    requires Enabled(c, s, e)
    ensures InOrder(Next(c, s, e)) == InOrder(s) + if e.Enqueue? then [e.q] else []
  {
    if e.Receive? {
      assert s.queue == [s.queue[0]] + s.queue[1..];
    }
  }

  lemma {:induction false} RunInOrder(c: Config, s: Pool, es: seq<Step>)
    requires Possible(c, s, es)
    ensures InOrder(After(c, s, es)) == InOrder(s) + EnteredIn(es)
    decreases |es|
  {
    hide Next, Enabled, InOrder;
    if es != [] {
      OrderStep(c, s, es[0]);
      RunInOrder(c, Next(c, s, es[0]), es[1..]);
    }
  }

  /** In every run the workers that were told to stop, the one that is about to be, and
      those in the pool are all that ever entered it, in that order. */
  lemma FirstInFirstOut(c: Config, s: Pool, es: seq<Step>)
    requires Initial(c, s) && Possible(c, s, es)
    ensures var r := After(c, s, es);
            r.closed + (if r.pc.Received? then [r.pc.q] else []) + r.queue == EnteredIn(es)
  {
    hide Possible, After, EnteredIn;
    RunInOrder(c, s, es);
    assert InOrder(s) == [];
  }
}
