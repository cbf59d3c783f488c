/** The byte cursor of reader/reader.go: every read takes bytes off the front of
    `data` and adds their number to `count`; a read that does not fit changes
    nothing. `None` stands for the reader's single error value. */
module Readers {
  import opened Bytes

  class Reader {
    var data: bytes
    var count: nat
    ghost const all: bytes

    /** The count is the cursor's position in the bytes the reader was given. */
    ghost predicate Valid()
      reads this
    {
      count <= |all| && data == all[count..]
    }

    constructor (b: bytes)
      ensures Valid() && all == b && count == 0
    {
      data := b;
      count := 0;
      all := b;
    }

    method Advance(n: nat)
      requires Valid() && n <= |data|
      modifies this
      ensures Valid() && count == old(count) + n
    {
      DropDrop(all, count, n);
      data := data[n..];
      count := count + n;
    }

    method Uint8() returns (r: Option<byte>)
      requires Valid()
      modifies this
      ensures Valid()
      ensures r == if old(count) + 1 <= |all| then Some(all[old(count)]) else None
      ensures count == old(count) + if r.Some? then 1 else 0
    {
      if |data| < 1 { return None; }
      r := Some(data[0]);
      Advance(1);
    }

    method Uint16() returns (r: Option<uint16>)
      requires Valid()
      modifies this
      ensures Valid()
      ensures r == if old(count) + 2 <= |all| then Some(U16(all, old(count))) else None
      ensures count == old(count) + if r.Some? then 2 else 0
    {
      if |data| < 2 { return None; }
      ReadAt(all, count);
      r := Some(U16(data));
      Advance(2);
    }

    method Uint32() returns (r: Option<uint32>)
      requires Valid()
      modifies this
      ensures Valid()
      ensures r == if old(count) + 4 <= |all| then Some(U32(all, old(count))) else None
      ensures count == old(count) + if r.Some? then 4 else 0
    {
      if |data| < 4 { return None; }
      ReadAt(all, count);
      r := Some(U32(data));
      Advance(4);
    }

    method Uint64() returns (r: Option<uint64>)
      requires Valid()
      modifies this
      ensures Valid()
      ensures r == if old(count) + 8 <= |all| then Some(U64(all, old(count))) else None
      ensures count == old(count) + if r.Some? then 8 else 0
    {
      if |data| < 8 { return None; }
      ReadAt(all, count);
      r := Some(U64(data));
      Advance(8);
    }

    method Read(n: nat) returns (r: Option<bytes>)
      requires Valid()
      modifies this
      ensures Valid()
      ensures r == if old(count) + n <= |all| then Some(all[old(count)..old(count) + n]) else None
      ensures count == old(count) + if r.Some? then n else 0
    {
      if |data| < n { return None; }
      assert data[..n] == all[count..count + n];
      r := Some(data[..n]);
      Advance(n);
    }

    method Peek(n: nat) returns (r: Option<bytes>)
      requires Valid()
      ensures r == if count + n <= |all| then Some(all[count..count + n]) else None
    {
      if |data| < n { return None; }
      assert data[..n] == all[count..count + n];
      r := Some(data[..n]);
    }

    method PeekUint16() returns (r: Option<uint16>)
      requires Valid()
      ensures r == if count + 2 <= |all| then Some(U16(all, count)) else None
    {
      var bytes := Peek(2);
      r := if bytes.None? then None else Some(U16(bytes.value));
    }

    method Len() returns (n: nat)
      requires Valid()
      ensures n == |all| - count
    {
      n := |data|;
    }
  }
}
