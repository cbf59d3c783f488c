/** Fixed-width unsigned integers, big-endian encodings and the optional value
    shared by all components. */
module Bytes {

  type byte = n: int | 0 <= n < 0x100
  type uint16 = n: int | 0 <= n < 0x1_0000
  type uint32 = n: int | 0 <= n < 0x1_0000_0000
  type uint64 = n: int | 0 <= n < 0x1_0000_0000_0000_0000

  type bytes = seq<byte>

  datatype Option<+T> = None | Some(value: T)

  // 16-bit arithmetic: the conversion uint16(n) and wrapping subtraction.

  function Wrap16(n: nat): uint16 {
    if n < 0x1_0000 then n else Wrap16(n - 0x1_0000)
  }

  function Sub16(a: uint16, b: uint16): uint16 {
    if a >= b then a - b else a as int - b + 0x1_0000
  }

  lemma {:induction false} Wrap16IsMod(n: nat)
    ensures Wrap16(n) == n % 0x1_0000
  {
    if n >= 0x1_0000 {
      Wrap16IsMod(n - 0x1_0000);
    }
  }

  // Joining and splitting numbers by repeated addition and subtraction: this keeps
  // the multiplications out of proofs that only pass numbers along.

  /** hi * w + lo. */
  function Join(hi: nat, lo: nat, w: nat): nat {
    if hi == 0 then lo else w + Join(hi - 1, lo, w)
  }

  lemma {:induction false} JoinValue(hi: nat, lo: nat, w: nat)
    ensures Join(hi, lo, w) == hi * w + lo
  {
    if hi != 0 {
      JoinValue(hi - 1, lo, w);
    }
  }

  function Quot(n: nat, w: nat): nat
    requires w > 0
  {
    if n < w then 0 else 1 + Quot(n - w, w)
  }

  function Rem(n: nat, w: nat): (r: nat)
    requires w > 0
    ensures r < w
  {
    if n < w then n else Rem(n - w, w)
  }

  lemma {:induction false} QuotRem(n: nat, w: nat)
    requires w > 0
    ensures n == Quot(n, w) * w + Rem(n, w)
    decreases n
  {
    if n >= w {
      QuotRem(n - w, w);
    }
  }

  lemma JoinQuotRem(n: nat, w: nat)
    requires w > 0
    ensures Join(Quot(n, w), Rem(n, w), w) == n
  {
    QuotRem(n, w);
    JoinValue(Quot(n, w), Rem(n, w), w);
  }

  // Reading big-endian numbers at an offset (encoding/binary's BigEndian.UintN).

  function U16(b: bytes, i: nat := 0): uint16
    requires i + 2 <= |b|
  {
    JoinValue(b[i], b[i + 1], 0x100);
    Join(b[i], b[i + 1], 0x100)
  }

  function U32(b: bytes, i: nat := 0): uint32
    requires i + 4 <= |b|
  {
    JoinValue(U16(b, i), U16(b, i + 2), 0x1_0000);
    Join(U16(b, i), U16(b, i + 2), 0x1_0000)
  }

  function U64(b: bytes, i: nat := 0): uint64
    requires i + 8 <= |b|
  {
    JoinValue(U32(b, i), U32(b, i + 4), 0x1_0000_0000);
    Join(U32(b, i), U32(b, i + 4), 0x1_0000_0000)
  }

  // Writing a number as big-endian bytes (BigEndian.PutUintN).

  function Hi(n: uint16): byte {
    QuotRem(n, 0x100);
    Quot(n, 0x100)
  }

  function Lo(n: uint16): byte {
    Rem(n, 0x100)
  }

  function Hi16(n: uint32): uint16 {
    QuotRem(n, 0x1_0000);
    Quot(n, 0x1_0000)
  }

  function Lo16(n: uint32): uint16 {
    Rem(n, 0x1_0000)
  }

  function Hi32(n: uint64): uint32 {
    QuotRem(n, 0x1_0000_0000);
    Quot(n, 0x1_0000_0000)
  }

  function Lo32(n: uint64): uint32 {
    Rem(n, 0x1_0000_0000)
  }

  function BE16(n: uint16): (b: bytes)
    ensures |b| == 2
  {
    [Hi(n), Lo(n)]
  }

  function BE32(n: uint32): (b: bytes)
    ensures |b| == 4
  {
    BE16(Hi16(n)) + BE16(Lo16(n))
  }

  function BE64(n: uint64): (b: bytes)
    ensures |b| == 8
  {
    BE32(Hi32(n)) + BE32(Lo32(n))
  }

  function Zeros(n: nat): (z: bytes)
    ensures |z| == n
  {
    if n == 0 then [] else [0] + Zeros(n - 1)
  }

  // A written number is read back, and what follows it is left.

  lemma Read16(n: uint16, rest: bytes)
    ensures U16(BE16(n) + rest) == n
    ensures (BE16(n) + rest)[2..] == rest
  {
    JoinQuotRem(n, 0x100);
  }

  lemma Read32(n: uint32, rest: bytes)
    ensures U32(BE32(n) + rest) == n
    ensures (BE32(n) + rest)[4..] == rest
  {
    var d := BE32(n) + rest;
    At16(d, 0, Hi16(n));
    At16(d, 2, Lo16(n));
    JoinQuotRem(n, 0x1_0000);
  }

  lemma Read64(n: uint64, rest: bytes)
    ensures U64(BE64(n) + rest) == n
    ensures (BE64(n) + rest)[8..] == rest
  {
    var d := BE64(n) + rest;
    AtPart(d, 0, [], BE32(Hi32(n)), BE32(Lo32(n)) + rest);
    AtPart(d, 4, BE32(Hi32(n)), BE32(Lo32(n)), rest);
    At32(d, 0, Hi32(n));
    At32(d, 4, Lo32(n));
    JoinQuotRem(n, 0x1_0000_0000);
  }

  /** Reading at an offset is reading the suffix. */
  lemma ReadAt(d: bytes, i: nat)
    requires i <= |d|
    ensures i + 2 <= |d| ==> U16(d, i) == U16(d[i..])
    ensures i + 4 <= |d| ==> U32(d, i) == U32(d[i..])
    ensures i + 8 <= |d| ==> U64(d, i) == U64(d[i..])
  {
  }

  lemma DropDrop<T>(s: seq<T>, i: nat, j: nat)
    requires i + j <= |s|
    ensures s[i..][j..] == s[i + j..]
  {
  }

  // ---------- Occurrence of a sequence at a position

  ghost predicate At<T>(b: seq<T>, p: nat, s: seq<T>) {
    p + |s| <= |b| && forall i | 0 <= i < |s| :: b[p + i] == s[i]
  }

  lemma AtIndex<T>(b: seq<T>, p: nat, s: seq<T>, i: nat)
    requires At(b, p, s) && i < |s|
    ensures b[p + i] == s[i]
  {
  }

  lemma AtSlice<T>(b: seq<T>, p: nat, s: seq<T>)
    requires At(b, p, s)
    ensures b[p..p + |s|] == s
  {
  }

  lemma AtSplit<T>(b: seq<T>, p: nat, s: seq<T>, t: seq<T>)
    requires At(b, p, s + t)
    ensures At(b, p, s) && At(b, p + |s|, t)
  {
    var u := s + t;
    assert forall i | 0 <= i < |s| :: u[i] == s[i];
    forall i | 0 <= i < |t|
      ensures b[p + |s| + i] == t[i]
    {
      assert u[|s| + i] == t[i];
    }
  }

  lemma AtPart<T>(b: seq<T>, p: nat, r: seq<T>, s: seq<T>, t: seq<T>)
    requires b == r + s + t && p == |r|
    ensures At(b, p, s)
  {
  }

  lemma At16(b: bytes, p: nat, n: uint16)
    requires At(b, p, BE16(n))
    ensures U16(b, p) == n
  {
    AtIndex(b, p, BE16(n), 0);
    AtIndex(b, p, BE16(n), 1);
    JoinQuotRem(n, 0x100);
  }

  lemma At32(b: bytes, p: nat, n: uint32)
    requires At(b, p, BE32(n))
    ensures U32(b, p) == n
  {
    AtSplit(b, p, BE16(Hi16(n)), BE16(Lo16(n)));
    At16(b, p, Hi16(n));
    At16(b, p + 2, Lo16(n));
    JoinQuotRem(n, 0x1_0000);
  }
}
