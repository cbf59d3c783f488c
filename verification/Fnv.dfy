/** The 32-bit FNV-1 hash (hash/fnv New32) that keys the template caches, and why
    two template ids of one exporter never share a key. */
module Fnv {
  import opened Bytes

  const OFFSET: uint32 := 2166136261
  const PRIME: uint32 := 16777619

  function Pow2(k: nat): (p: nat)
    ensures p > 0
  {
    if k == 0 then 1 else 2 * Pow2(k - 1)
  }

  /** Bitwise exclusive or of two k-bit numbers. */
  function Xor(k: nat, a: nat, b: nat): nat {
    if k == 0 then 0 else (if a % 2 == b % 2 then 0 else 1) + 2 * Xor(k - 1, a / 2, b / 2)
  }

  lemma XorBounded(k: nat, a: nat, b: nat)
    ensures Xor(k, a, b) < Pow2(k)
  {
  }

  function XorByte(a: byte, b: byte): byte {
    assert Pow2(8) == 0x100;
    XorBounded(8, a, b);
    Xor(8, a, b)
  }

  /** h ^ b for a 32-bit h: xor reaches the low byte only. */
  function XorLow(h: uint32, b: byte): uint32 {
    h as int / 0x100 * 0x100 + XorByte(h % 0x100, b)
  }

  function Times(h: uint32): uint32 {
    h as int * PRIME % 0x1_0000_0000
  }

  /** One round of FNV-1: multiply modulo 2^32, then xor the byte. */
  function Round(h: uint32, b: byte): uint32 {
    XorLow(Times(h), b)
  }

  function HashFrom(h: uint32, key: bytes): uint32
    decreases |key|
  {
    if key == [] then h else HashFrom(Round(h, key[0]), key[1..])
  }

  method Sum32(key: bytes) returns (h: uint32)
    ensures h == HashFrom(OFFSET, key)
  {
    h := OFFSET;
    for i := 0 to |key|
      invariant HashFrom(h, key[i..]) == HashFrom(OFFSET, key)
    {
      assert key[i..][1..] == key[i + 1..];
      h := XorLow(Times(h), key[i]);
    }
  }

  /** The bytes that are hashed: the exporter's address, then the id. */
  function KeyBytes(id: uint16, addr: bytes): bytes {
    addr + BE16(id)
  }

  function Key(id: uint16, addr: bytes): uint32 {
    HashFrom(OFFSET, KeyBytes(id, addr))
  }

  lemma {:induction false} XorCancels(k: nat, a: nat, b: nat, c: nat)
    requires b < Pow2(k) && c < Pow2(k) && Xor(k, a, b) == Xor(k, a, c)
    ensures b == c
  {
    if k != 0 {
      assert b % 2 == c % 2;
      XorCancels(k - 1, a / 2, b / 2, c / 2);
    }
  }

  lemma XorLowCancels(h: uint32, b: byte, c: byte)
    requires XorLow(h, b) == XorLow(h, c)
    ensures b == c
  {
    assert Pow2(8) == 0x100;
    XorCancels(8, h % 0x100, b, c);
  }

  lemma XorLowKeepsHigh(h: uint32, b: byte)
    ensures XorLow(h, b) / 0x100 == h / 0x100
  {
  }

  /** A difference of at most a byte, multiplied, is more than a byte away from
      every multiple of 2^32 but 0. */
  lemma SpreadsApart(d: int, k: int, e: int)
    requires -0xff <= d <= 0xff && -0xff <= e <= 0xff
    requires d * 16777619 == k * 0x1_0000_0000 + e
    ensures d == 0
  {
  }

  lemma MultiplySpreads(h: uint32, h': uint32)
    requires h / 0x100 == h' / 0x100 && Times(h) / 0x100 == Times(h') / 0x100
    ensures h == h'
  {
    var a, b := h as int * 16777619, h' as int * 16777619;
    SpreadsApart(h - h', a / 0x1_0000_0000 - b / 0x1_0000_0000, Times(h) - Times(h'));
  }

  lemma HashAppend(h: uint32, a: bytes, b: bytes)
    ensures HashFrom(h, a + b) == HashFrom(HashFrom(h, a), b)
    decreases |a|
  {
    if a == [] {
      assert a + b == b;
    } else {
      assert (a + b)[1..] == a[1..] + b;
      HashAppend(Round(h, a[0]), a[1..], b);
    }
  }

  lemma HashTwo(h: uint32, a: byte, b: byte)
    ensures HashFrom(h, [a, b]) == Round(Round(h, a), b)
  {
    assert [a, b][1..] == [b];
    assert HashFrom(h, [a, b]) == HashFrom(Round(h, a), [b]);
    assert HashFrom(Round(h, a), [b]) == HashFrom(Round(Round(h, a), b), []);
  }

  lemma TwoRoundsInjective(c: uint32, a: byte, b: byte, a': byte, b': byte)
    requires Round(Round(c, a), b) == Round(Round(c, a'), b')
    ensures a == a' && b == b'
  {
    var h, h' := Round(c, a), Round(c, a');
    XorLowKeepsHigh(Times(c), a);
    XorLowKeepsHigh(Times(c), a');
    XorLowKeepsHigh(Times(h), b);
    XorLowKeepsHigh(Times(h'), b');
    MultiplySpreads(h, h');
    XorLowCancels(Times(c), a, a');
    XorLowCancels(Times(h), b, b');
  }

  /** For one exporter, of any address length, the 32-bit key tells all 65536
      template ids apart. */
  lemma KeyInjectivePerExporter(addr: bytes, id: uint16, id': uint16)
    ensures Key(id, addr) == Key(id', addr) <==> id == id'
  {
    var h := HashFrom(OFFSET, addr);
    HashAppend(OFFSET, addr, BE16(id));
    HashTwo(h, Hi(id), Lo(id));
    HashAppend(OFFSET, addr, BE16(id'));
    HashTwo(h, Hi(id'), Lo(id'));
    if Key(id, addr) == Key(id', addr) {
      TwoRoundsInjective(h, Hi(id), Lo(id), Hi(id'), Lo(id'));
      QuotRem(id, 0x100);
      QuotRem(id', 0x100);
    }
  }

  /** Before hashing, the key bytes tell all (address, id) pairs apart. */
  lemma KeyBytesInjective(id: uint16, addr: bytes, id': uint16, addr': bytes)
    requires KeyBytes(id, addr) == KeyBytes(id', addr')
    ensures id == id' && addr == addr'
  {
    var k := KeyBytes(id, addr);
    assert |addr| == |addr'| == |k| - 2;
    assert addr == k[..|k| - 2] == addr';
    assert k[|k| - 2..] == BE16(id) == BE16(id');
    assert BE16(id)[0] == BE16(id')[0] && BE16(id)[1] == BE16(id')[1];
    QuotRem(id, 0x100);
    QuotRem(id', 0x100);
  }

  // Across exporters the key cannot separate.

  lemma {:induction false} Pigeonhole(s: seq<nat>)
    requires s != [] && forall i | 0 <= i < |s| :: s[i] < |s| - 1
    ensures exists i, j | 0 <= i < j < |s| :: s[i] == s[j]
    decreases |s|
  {
    var n := |s| - 1;
    var last := s[n];
    if !exists i | 0 <= i < n :: s[i] == last {
      // The last value is free among the others: give it to the topmost one.
      var t := seq(n, i requires 0 <= i < n => if s[i] == n - 1 then last else s[i]);
      Pigeonhole(t);
      var i, j :| 0 <= i < j < n && t[i] == t[j];
      assert s[i] == s[j];
    }
  }

  function SomeAddress(n: uint64): bytes {
    BE64(0) + BE64(n)
  }

  lemma BE64Injective(i: uint64, j: uint64)
    requires BE64(i) == BE64(j)
    ensures i == j
  {
    Read64(i, []);
    Read64(j, []);
  }

  lemma SomeAddressInjective(i: uint64, j: uint64)
    requires SomeAddress(i) == SomeAddress(j)
    ensures i == j
  {
    assert SomeAddress(i)[8..] == BE64(i) && SomeAddress(j)[8..] == BE64(j);
    BE64Injective(i, j);
  }

  ghost predicate ShareKeys(a: bytes, b: bytes) {
    forall id: uint16 :: Key(id, a) == Key(id, b)
  }

  lemma SameHashSameKeys(a: bytes, b: bytes, id: uint16)
    requires HashFrom(OFFSET, a) == HashFrom(OFFSET, b)
    ensures Key(id, a) == Key(id, b)
  {
    HashAppend(OFFSET, a, BE16(id));
    HashAppend(OFFSET, b, BE16(id));
  }

  /** Some two exporters with 16-byte addresses share the key of every template id. */
  lemma ExportersCollide()
    ensures exists a: bytes, b: bytes | |a| == |b| == 16 && a != b :: ShareKeys(a, b)
  {
    var s := seq(0x1_0000_0001, i requires 0 <= i < 0x1_0000_0001 => HashFrom(OFFSET, SomeAddress(i)) as nat);
    Pigeonhole(s);
    var i, j :| 0 <= i < j < |s| && s[i] == s[j];
    var a, b := SomeAddress(i), SomeAddress(j);
    if a == b {
      SomeAddressInjective(i, j);
    }
    forall id: uint16
      ensures Key(id, a) == Key(id, b)
    {
      SameHashSameKeys(a, b, id);
    }
    assert ShareKeys(a, b);
  }

  // ---------- The hash is the published one

  function Bit(n: nat, i: nat): nat {
    if i == 0 then n % 2 else Bit(n / 2, i - 1)
  }

  lemma {:induction false} XorBits(k: nat, a: nat, b: nat, i: nat)
    ensures i < k ==> (Bit(Xor(k, a, b), i) == 1 <==> Bit(a, i) != Bit(b, i))
    ensures Bit(a, i) < 2
    decreases i
  {
    if i > 0 {
      if k > 0 {
        assert Xor(k, a, b) / 2 == Xor(k - 1, a / 2, b / 2);
        XorBits(k - 1, a / 2, b / 2, i - 1);
      } else {
        XorBits(0, a / 2, b / 2, i - 1);
      }
    }
  }

  /** A round multiplies by the prime modulo 2^32; the exclusive or with the byte keeps all
      but the low eight bits, and flips of those exactly the ones that are set in it. */
  lemma RoundBits(h: uint32, b: byte, i: nat)
    requires i < 8
    ensures var m := h as int * 16777619 % 0x1_0000_0000;
            && Round(h, b) / 0x100 == m / 0x100
            && (Bit(Round(h, b) % 0x100, i) == 1 <==> Bit(m % 0x100, i) != Bit(b, i))
  {
    hide Bit, Xor;
    var m := Times(h);
    XorLowKeepsHigh(m, b);
    XorBits(8, m % 0x100, b, i);
    assert Round(h, b) % 0x100 == Xor(8, m % 0x100, b);
  }

  lemma ModIs(p: nat, q: nat, m: uint32)
    requires p == q * 0x1_0000_0000 + m
    ensures p % 0x1_0000_0000 == m
  {
  }

  lemma XorLowIs(m: uint32, b: byte, y: byte)
    requires Xor(8, m % 0x100, b) == y
    ensures XorLow(m, b) == m as int / 0x100 * 0x100 + y
  {
    hide Xor;
  }

  lemma FirstXor()
    ensures Xor(8, 31, 102) == 121
  {
    assert Xor(1, 0, 0) == 0 && Xor(2, 0, 1) == 1 && Xor(3, 0, 3) == 3;
    assert Xor(4, 1, 6) == 7 && Xor(5, 3, 12) == 15 && Xor(6, 7, 25) == 30;
    assert Xor(7, 15, 51) == 60 && Xor(8, 31, 102) == 121;
  }

  lemma FirstRound()
    ensures Round(0x811c9dc5, 0x66) == 0x50c5d79
  {
    hide Xor, XorLow;
    FirstXor();
    ModIs(0x811c9dc5 * 16777619, 8461673, 0x50c5d1f);
    XorLowIs(0x50c5d1f, 0x66, 121);
  }

  lemma SecondXor()
    ensures Xor(8, 123, 111) == 20
  {
    assert Xor(1, 0, 0) == 0 && Xor(2, 1, 1) == 0 && Xor(3, 3, 3) == 0;
    assert Xor(4, 7, 6) == 1 && Xor(5, 15, 13) == 2 && Xor(6, 30, 27) == 5;
    assert Xor(7, 61, 55) == 10 && Xor(8, 123, 111) == 20;
  }

  lemma SecondRound()
    ensures Round(0x50c5d79, 0x6f) == 0x6b772514
  {
    hide Xor, XorLow;
    SecondXor();
    ModIs(0x50c5d79 * 16777619, 330853, 0x6b77257b);
    XorLowIs(0x6b77257b, 0x6f, 20);
  }

  /** Published values of 32-bit FNV-1: of nothing, of "f" and of "fo". */
  lemma PublishedValues()
    ensures HashFrom(OFFSET, []) == 0x811c9dc5
    ensures HashFrom(OFFSET, [0x66]) == 0x50c5d79
    ensures HashFrom(OFFSET, [0x66, 0x6f]) == 0x6b772514
  {
    hide Round;
    FirstRound();
    SecondRound();
    assert [0x66][1..] == [];
    HashTwo(OFFSET, 0x66, 0x6f);
  }
}
