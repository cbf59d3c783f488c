/** The template caches of ipfix/memcache.go and netflow/v9/memcache.go: 32 shards
    of hash-keyed maps. Both packages hold the same code over their own template
    type, so the cache is generic in the stored record. */
module Memcache {
  import opened Bytes
  import opened Fnv

  const SHARD_NO := 32

  /** What the shards amount to: one map from hash key to record. */
  type Flat<T> = map<uint32, T>

  function Inserted<T>(c: Flat<T>, id: uint16, addr: bytes, t: T): Flat<T> {
    c[Key(id, addr) := t]
  }

  function Lookup<T>(c: Flat<T>, id: uint16, addr: bytes): Option<T> {
    var k := Key(id, addr);
    if k in c then Some(c[k]) else None
  }

  /** Every key lives in the one shard its value names. */
  ghost predicate Sharded<T>(shards: seq<Flat<T>>) {
    && |shards| == SHARD_NO
    && forall i, k | 0 <= i < SHARD_NO && k in shards[i] :: k % SHARD_NO == i
  }

  ghost function KeySet<T>(shards: seq<Flat<T>>): set<uint32> {
    set i, k | 0 <= i < |shards| && k in shards[i] :: k
  }

  ghost function Flatten<T>(shards: seq<Flat<T>>): Flat<T>
    requires Sharded(shards)
  {
    map k | k in KeySet(shards) :: shards[k % SHARD_NO][k]
  }

  lemma FlattenAt<T>(shards: seq<Flat<T>>, k: uint32)
    requires Sharded(shards)
    ensures k in Flatten(shards) <==> k in shards[k % SHARD_NO]
    ensures k in Flatten(shards) ==> Flatten(shards)[k] == shards[k % SHARD_NO][k]
  {
    if k in Flatten(shards) {
      var i :| 0 <= i < |shards| && k in shards[i];
      assert k % SHARD_NO == i;
    }
  }

  function Store<T>(shards: seq<Flat<T>>, k: uint32, t: T): seq<Flat<T>>
    requires |shards| == SHARD_NO
  {
    var shard: Flat<T> := shards[k % SHARD_NO];
    shards[k % SHARD_NO := shard[k := t]]
  }

  lemma FlattenStore<T>(shards: seq<Flat<T>>, k: uint32, t: T)
    requires Sharded(shards)
    ensures Sharded(Store(shards, k, t))
    ensures Flatten(Store(shards, k, t)) == Flatten(shards)[k := t]
  {
    var s' := Store(shards, k, t);
    assert Sharded(s');
    forall j: uint32
      ensures j in Flatten(s') <==> j in Flatten(shards)[k := t]
      ensures j in Flatten(s') ==> Flatten(s')[j] == Flatten(shards)[k := t][j]
    {
      FlattenAt(s', j);
      FlattenAt(shards, j);
    }
  }

  class MemCache<T> {
    var shards: seq<Flat<T>>

    ghost predicate Valid()
      reads this
    {
      Sharded(shards)
    }

    ghost function Contents(): Flat<T>
      requires Valid()
      reads this
    {
      Flatten(shards)
    }

    /** The shards built when no saved cache is loaded. */
    constructor ()
      ensures Valid() && Contents() == map[]
    {
      shards := seq(SHARD_NO, _ => map[]);
      new;
      assert KeySet(shards) == {};
    }

    method GetShard(id: uint16, addr: bytes) returns (shard: nat, key: uint32)
      requires Valid()
      ensures key == Key(id, addr) && shard == key % 32 < |shards|
    {
      key := Sum32(addr + BE16(id));
      shard := key % SHARD_NO;
    }

    method Insert(id: uint16, addr: bytes, t: T)
      requires Valid()
      modifies this
      ensures Valid() && Contents() == Inserted(old(Contents()), id, addr, t)
    {
      var shard, key := GetShard(id, addr);
      FlattenStore(shards, key, t);
      shards := shards[shard := shards[shard][key := t]];
    }

    method Retrieve(id: uint16, addr: bytes) returns (r: Option<T>)
      requires Valid()
      ensures r == Lookup(Contents(), id, addr)
    {
      var shard, key := GetShard(id, addr);
      FlattenAt(shards, key);
      r := if key in shards[shard] then Some(shards[shard][key]) else None;
    }

    /** All stored ids, ascending: each id is listed once for every key that
        stores it. The order in which a shard is walked is arbitrary. */
    method AllSetIds(idOf: T -> uint16) returns (ids: seq<uint16>)
      requires Valid()
      ensures Ascending(ids)
      ensures forall x: uint16 :: multiset(ids)[x] == |Storing(Contents(), idOf, x)|
    {
      ids := [];
      ghost var seen: Flat<T> := map[];
      for i := 0 to SHARD_NO
        invariant forall k: uint32 :: k in seen <==> k % SHARD_NO < i && k in shards[k % SHARD_NO]
        invariant forall k: uint32 | k in seen :: seen[k] == shards[k % SHARD_NO][k]
        invariant Counted(ids, seen, idOf)
      {
        var todo := shards[i].Keys;
        while todo != {}
          invariant todo <= shards[i].Keys
          invariant forall k: uint32 :: k in seen <==>
            (k % SHARD_NO < i && k in shards[k % SHARD_NO]) || (k in shards[i] && k !in todo)
          invariant forall k: uint32 | k in seen :: seen[k] == shards[k % SHARD_NO][k]
          invariant Counted(ids, seen, idOf)
          decreases todo
        {
          var k :| k in todo;
          CountedStep(ids, seen, idOf, k, shards[i][k]);
          ids := ids + [idOf(shards[i][k])];
          seen := seen[k := shards[i][k]];
          todo := todo - {k};
        }
      }
      forall k: uint32
        ensures k in seen <==> k in Contents()
        ensures k in seen ==> seen[k] == Contents()[k]
      {
        FlattenAt(shards, k);
      }
      assert seen == Contents();
      SortSorts(ids);
      ids := Sort(ids);
    }
  }

  // The sorted list of stored ids.

  predicate Ascending(s: seq<int>) {
    |s| >= 2 ==> s[0] <= s[1] && Ascending(s[1..])
  }

  ghost function Storing<T>(c: Flat<T>, idOf: T -> uint16, x: uint16): set<uint32> {
    set k | k in c && idOf(c[k]) == x
  }

  ghost predicate Counted<T>(ids: seq<uint16>, c: Flat<T>, idOf: T -> uint16) {
    forall x: uint16 :: multiset(ids)[x] == |Storing(c, idOf, x)|
  }

  function InsertSorted(s: seq<uint16>, x: uint16): seq<uint16> {
    if s == [] || x <= s[0] then [x] + s else [s[0]] + InsertSorted(s[1..], x)
  }

  lemma {:induction false} InsertSortedCounts(s: seq<uint16>, x: uint16)
    ensures multiset(InsertSorted(s, x)) == multiset(s) + multiset{x}
  {
    if s != [] && x > s[0] {
      InsertSortedCounts(s[1..], x);
      assert s == [s[0]] + s[1..];
    }
  }

  lemma {:induction false} InsertSortedAscends(s: seq<uint16>, x: uint16)
    requires Ascending(s)
    ensures var r := InsertSorted(s, x);
            Ascending(r) && |r| >= 1 && (r[0] == x || (s != [] && r[0] == s[0]))
  {
    if s == [] || x <= s[0] {
      assert ([x] + s)[1..] == s;
    } else {
      InsertSortedAscends(s[1..], x);
      var t := InsertSorted(s[1..], x);
      assert ([s[0]] + t)[1..] == t;
    }
  }

  function Sort(s: seq<uint16>): seq<uint16> {
    if s == [] then [] else InsertSorted(Sort(s[1..]), s[0])
  }

  lemma {:induction false} SortSorts(s: seq<uint16>)
    ensures Ascending(Sort(s)) && multiset(Sort(s)) == multiset(s)
  {
    if s != [] {
      SortSorts(s[1..]);
      InsertSortedAscends(Sort(s[1..]), s[0]);
      InsertSortedCounts(Sort(s[1..]), s[0]);
      assert s == [s[0]] + s[1..];
    }
  }

  lemma StoringStep<T>(c: Flat<T>, idOf: T -> uint16, k: uint32, t: T, x: uint16)
    requires k !in c
    ensures |Storing(c[k := t], idOf, x)| == |Storing(c, idOf, x)| + if idOf(t) == x then 1 else 0
  {
    if idOf(t) == x {
      assert Storing(c[k := t], idOf, x) == Storing(c, idOf, x) + {k};
    } else {
      assert Storing(c[k := t], idOf, x) == Storing(c, idOf, x);
    }
  }

  lemma OneMoreId(ids: seq<uint16>, id: uint16, x: uint16)
    ensures multiset(ids + [id])[x] == multiset(ids)[x] + if id == x then 1 else 0
  {
  }

  lemma CountedStep<T>(ids: seq<uint16>, c: Flat<T>, idOf: T -> uint16, k: uint32, t: T)
    requires Counted(ids, c, idOf) && k !in c
    ensures Counted(ids + [idOf(t)], c[k := t], idOf)
  {
    hide Storing;
    forall x: uint16
      ensures multiset(ids + [idOf(t)])[x] == |Storing(c[k := t], idOf, x)|
    {
      StoringStep(c, idOf, k, t, x);
      OneMoreId(ids, idOf(t), x);
    }
  }

  // Agreement with a map keyed by the exporter and the template id themselves.

  type Pair = (bytes, uint16)
  type Pairs = Pair -> bool

  datatype Op<+T> = Put(pair: Pair, t: T) | Get(pair: Pair)

  /** The answers that a run of operations gets from the hash-keyed cache. */
  function FlatAnswers<T>(c: Flat<T>, ops: seq<Op<T>>): seq<Option<T>>
    decreases |ops|
  {
    if ops == [] then []
    else match ops[0]
      case Put(p, t) => FlatAnswers(Inserted(c, p.1, p.0, t), ops[1..])
      case Get(p) => [Lookup(c, p.1, p.0)] + FlatAnswers(c, ops[1..])
  }

  /** The answers that the same run would get from a plain map. */
  function PairAnswers<T>(m: map<Pair, T>, ops: seq<Op<T>>): seq<Option<T>>
    decreases |ops|
  {
    if ops == [] then []
    else match ops[0]
      case Put(p, t) => PairAnswers(m[p := t], ops[1..])
      case Get(p) => [if p in m then Some(m[p]) else None] + PairAnswers(m, ops[1..])
  }

  ghost predicate Within<T>(ops: seq<Op<T>>, use: Pairs) {
    forall i | 0 <= i < |ops| :: use(ops[i].pair)
  }

  ghost predicate Separates(use: Pairs) {
    forall p, q | use(p) && use(q) && Key(p.1, p.0) == Key(q.1, q.0) :: p == q
  }

  ghost predicate ActsAsPairMap<T(!new)>(use: Pairs) {
    forall ops: seq<Op<T>> | Within(ops, use) :: FlatAnswers(map[], ops) == PairAnswers(map[], ops)
  }

  lemma {:induction false} SeparatedAnswers<T>(c: Flat<T>, m: map<Pair, T>, ops: seq<Op<T>>, use: Pairs)
    requires Separates(use) && Within(ops, use)
    requires forall p | use(p) :: Lookup(c, p.1, p.0) == if p in m then Some(m[p]) else None
    ensures FlatAnswers(c, ops) == PairAnswers(m, ops)
    decreases |ops|
  {
    if ops != [] {
      assert use(ops[0].pair);
      match ops[0]
      case Put(p, t) => SeparatedAnswers(Inserted(c, p.1, p.0, t), m[p := t], ops[1..], use);
      case Get(p) => SeparatedAnswers(c, m, ops[1..], use);
    }
  }

  /** Two pairs with one key: the later insert is returned for the earlier pair. */
  lemma CollisionShows<T>(p: Pair, q: Pair, t: T, u: T)
    requires p != q && Key(p.1, p.0) == Key(q.1, q.0)
    ensures var ops := [Put(p, t), Put(q, u), Get(p)];
            FlatAnswers(map[], ops) == [Some(u)] && PairAnswers(map[], ops) == [Some(t)]
  {
    var ops: seq<Op<T>> := [Put(p, t), Put(q, u), Get(p)];
    var last: seq<Op<T>> := [Get(p)];
    assert ops[1..] == [Put(q, u), Get(p)] && ops[1..][1..] == last && last[1..] == [];
    var c: Flat<T>, m: map<Pair, T> := map[], map[];
    var c2, m2 := Inserted(Inserted(c, p.1, p.0, t), q.1, q.0, u), m[p := t][q := u];
    assert FlatAnswers(c, ops) == FlatAnswers(c2, last) == [Lookup(c2, p.1, p.0)] + FlatAnswers(c2, last[1..]);
    assert PairAnswers(m, ops) == PairAnswers(m2, last) == [Some(t)] + PairAnswers(m2, last[1..]);
  }

  /** The cache answers every run over the pairs in use as a map keyed by those
      pairs would, exactly when the hash separates them. */
  lemma ActsAsPairMapIff<T(!new)>(use: Pairs, t: T, u: T)
    requires t != u
    ensures ActsAsPairMap<T>(use) <==> Separates(use)
  {
    if Separates(use) {
      forall ops: seq<Op<T>> | Within(ops, use)
        ensures FlatAnswers(map[], ops) == PairAnswers(map[], ops)
      {
        SeparatedAnswers(map[], map[], ops, use);
      }
    } else {
      var p, q :| use(p) && use(q) && Key(p.1, p.0) == Key(q.1, q.0) && p != q;
      CollisionShows(p, q, t, u);
      var ops := [Put(p, t), Put(q, u), Get(p)];
      assert Within(ops, use);
      assert [Some(u)][0] != [Some(t)][0];
    }
  }

  /** The cache as one exporter sees it: a map keyed by template id. */
  ghost function View<T>(c: Flat<T>, addr: bytes): map<uint16, T> {
    map id: uint16 | 0 <= id < 0x1_0000 && Key(id, addr) in c :: c[Key(id, addr)]
  }

  lemma ViewLookup<T>(c: Flat<T>, id: uint16, addr: bytes)
    ensures Lookup(c, id, addr) == if id in View(c, addr) then Some(View(c, addr)[id]) else None
  {
  }

  /** An insert changes an exporter's view at the inserted id and nowhere else. */
  lemma ViewInserted<T>(c: Flat<T>, id: uint16, addr: bytes, t: T)
    ensures View(Inserted(c, id, addr, t), addr) == View(c, addr)[id := t]
  {
    forall i: uint16
      ensures Key(i, addr) == Key(id, addr) <==> i == id
    {
      KeyInjectivePerExporter(addr, i, id);
    }
  }

  /** For one exporter the hash separates all template ids. */
  lemma OneExporterSeparated(addr: bytes)
    ensures Separates((p: Pair) => p.0 == addr)
  {
    forall p: Pair, q: Pair | p.0 == addr && q.0 == addr && Key(p.1, p.0) == Key(q.1, q.0)
      ensures p == q
    {
      KeyInjectivePerExporter(addr, p.1, q.1);
    }
  }
}
