/** Typed values of information elements (ipfix/interpret.go). The element table
    itself is data: every component takes it as an arbitrary map. */
module InfoModel {
  import opened Bytes

  datatype FieldType =
    | Unknown | Uint8 | Uint16 | Uint32 | Uint64 | Int8 | Int16 | Int32 | Int64
    | Float32 | Float64 | Boolean | MacAddress | OctetArray | String
    | DateTimeSeconds | DateTimeMilliseconds | DateTimeMicroseconds | DateTimeNanoseconds
    | Ipv4Address | Ipv6Address

  datatype ElementKey = ElementKey(enterpriseNo: uint32, elementId: uint16)
  datatype Element = Element(fieldId: uint16, fieldType: FieldType)
  type Elements = map<ElementKey, Element>

  /** The dynamic value of a decoded field. A float is kept as its bit pattern. */
  datatype Value =
    | Bool(b: bool)
    | Unsigned(bits: nat, n: nat)
    | Signed(bits: nat, i: int)
    | Float(bits: nat, pattern: nat)
    | Mac(mac: bytes)
    | Text(text: bytes)
    | Ip(ip: bytes)
    | Octets(octets: bytes)

  function MinLen(t: FieldType): nat {
    match t
    case Boolean => 1
    case Uint8 => 1 case Int8 => 1
    case Uint16 => 2 case Int16 => 2
    case Uint32 => 4 case Int32 => 4 case Float32 => 4
    case DateTimeSeconds => 4
    case Uint64 => 8 case Int64 => 8 case Float64 => 8
    case DateTimeMilliseconds => 8 case DateTimeMicroseconds => 8 case DateTimeNanoseconds => 8
    case MacAddress => 6
    case Ipv4Address => 4
    case Ipv6Address => 16
    case Unknown => 0 case OctetArray => 0 case String => 0
  }

  /** Reinterprets an unsigned number below `range` in two's complement. */
  function ToSigned(n: nat, range: nat): int {
    if 2 * n < range then n else n - range
  }

  function Interpret(b: bytes, t: FieldType): Value {
    if |b| < MinLen(t) then Octets(b)
    else match t
      case Boolean => Bool(b[0] == 1)
      case Uint8 => Unsigned(8, b[0])
      case Uint16 => Unsigned(16, U16(b))
      case Uint32 => Unsigned(32, U32(b))
      case Uint64 => Unsigned(64, U64(b))
      case Int8 => Signed(8, ToSigned(b[0], 0x100))
      case Int16 => Signed(16, ToSigned(U16(b), 0x1_0000))
      case Int32 => Signed(32, ToSigned(U32(b), 0x1_0000_0000))
      case Int64 => Signed(64, ToSigned(U64(b), 0x1_0000_0000_0000_0000))
      case Float32 => Float(32, U32(b))
      case Float64 => Float(64, U64(b))
      case MacAddress => Mac(b)
      case String => Text(b)
      case Ipv4Address => Ip(b)
      case Ipv6Address => Ip(b)
      case DateTimeSeconds => Unsigned(32, U32(b))
      case DateTimeMilliseconds => Unsigned(64, U64(b))
      case DateTimeMicroseconds => Unsigned(64, U64(b))
      case DateTimeNanoseconds => Unsigned(64, U64(b))
      case Unknown => Octets(b)
      case OctetArray => Octets(b)
  }

  // The exporter's side: section 6.1 of RFC 7011.

  function Width(t: FieldType): nat {
    match t
    case Uint8 => 8 case Int8 => 8
    case Uint16 => 16 case Int16 => 16
    case Uint32 => 32 case Int32 => 32 case Float32 => 32 case DateTimeSeconds => 32
    case _ => 64
  }

  function Range(bits: nat): nat {
    if bits == 8 then 0x100 else if bits == 16 then 0x1_0000
    else if bits == 32 then 0x1_0000_0000 else 0x1_0000_0000_0000_0000
  }

  /** v is a value of abstract type t. */
  predicate Fits(v: Value, t: FieldType) {
    match t
    case Boolean => v.Bool?
    case Uint8 => IsUnsigned(v, t) case Uint16 => IsUnsigned(v, t)
    case Uint32 => IsUnsigned(v, t) case Uint64 => IsUnsigned(v, t)
    case DateTimeSeconds => IsUnsigned(v, t) case DateTimeMilliseconds => IsUnsigned(v, t)
    case DateTimeMicroseconds => IsUnsigned(v, t) case DateTimeNanoseconds => IsUnsigned(v, t)
    case Int8 => IsSigned(v, t) case Int16 => IsSigned(v, t)
    case Int32 => IsSigned(v, t) case Int64 => IsSigned(v, t)
    case Float32 => v.Float? && v.bits == 32 && v.pattern < Range(32)
    case Float64 => v.Float? && v.bits == 64 && v.pattern < Range(64)
    case MacAddress => v.Mac? && |v.mac| == 6
    case Ipv4Address => v.Ip? && |v.ip| == 4
    case Ipv6Address => v.Ip? && |v.ip| == 16
    case String => v.Text?
    case Unknown => v.Octets? case OctetArray => v.Octets?
  }

  predicate IsUnsigned(v: Value, t: FieldType) {
    v.Unsigned? && v.bits == Width(t) && v.n < Range(v.bits)
  }

  predicate IsSigned(v: Value, t: FieldType) {
    v.Signed? && v.bits == Width(t) && 0 <= 2 * v.i + Range(v.bits) < 2 * Range(v.bits)
  }

  function BigEndian(bits: nat, n: nat): bytes
    requires n < Range(bits)
  {
    if bits == 8 then [n] else if bits == 16 then BE16(n) else if bits == 32 then BE32(n) else BE64(n)
  }

  function EncodeValue(v: Value, t: FieldType): bytes
    requires Fits(v, t)
  {
    match v
    case Bool(b) => [if b then 1 else 2]
    case Unsigned(bits, n) => BigEndian(bits, n)
    case Signed(bits, i) => BigEndian(bits, if i >= 0 then i else i + Range(bits))
    case Float(bits, p) => BigEndian(bits, p)
    case Mac(m) => m
    case Text(s) => s
    case Ip(a) => a
    case Octets(o) => o
  }

  /** b starts with n in the given number of bits. */
  ghost predicate Reads(b: bytes, bits: nat, n: nat) {
    && 8 * |b| >= bits
    && match bits
       case 8 => b[0] == n
       case 16 => U16(b) == n
       case 32 => U32(b) == n
       case 64 => U64(b) == n
       case _ => false
  }

  lemma ReadBack(bits: nat, n: nat)
    requires bits in {8, 16, 32, 64} && n < Range(bits)
    ensures Reads(BigEndian(bits, n), bits, n)
  {
    var b := BigEndian(bits, n);
    assert b + [] == b;
    if bits == 16 { Read16(n, []); }
    if bits == 32 { Read32(n, []); }
    if bits == 64 { Read64(n, []); }
  }

  lemma InterpretUnsigned(v: Value, t: FieldType)
    requires Fits(v, t) && v.Unsigned?
    ensures Interpret(EncodeValue(v, t), t) == v
  {
    ReadBack(v.bits, v.n);
  }

  lemma SignedBack(i: int, range: nat)
    requires 0 <= 2 * i + range < 2 * range
    ensures 0 <= (if i >= 0 then i else i + range) < range
    ensures ToSigned(if i >= 0 then i else i + range, range) == i
  {
  }

  lemma InterpretAsSigned(b: bytes, t: FieldType, n: nat)
    requires t in {Int8, Int16, Int32, Int64} && Reads(b, Width(t), n)
    ensures Interpret(b, t) == Signed(Width(t), ToSigned(n, Range(Width(t))))
  {
  }

  lemma InterpretSigned(v: Value, t: FieldType)
    requires Fits(v, t) && v.Signed?
    ensures Interpret(EncodeValue(v, t), t) == v
  {
    SignedBack(v.i, Range(v.bits));
    var n := if v.i >= 0 then v.i else v.i + Range(v.bits);
    ReadBack(v.bits, n);
    InterpretAsSigned(EncodeValue(v, t), t, n);
  }

  lemma InterpretFloat(v: Value, t: FieldType)
    requires Fits(v, t) && v.Float?
    ensures Interpret(EncodeValue(v, t), t) == v
  {
    ReadBack(v.bits, v.pattern);
  }

  /** Every typed value, encoded as the standard says, is interpreted as itself. */
  lemma InterpretEncoded(v: Value, t: FieldType)
    requires Fits(v, t)
    ensures Interpret(EncodeValue(v, t), t) == v
  {
    if v.Unsigned? {
      InterpretUnsigned(v, t);
    } else if v.Signed? {
      InterpretSigned(v, t);
    } else if v.Float? {
      InterpretFloat(v, t);
    }
  }

  /** Types whose values all have the same length. */
  predicate FixedLength(t: FieldType) {
    t != Unknown && t != OctetArray && t != String
  }

  /** A field shorter than the values of its type (reduced-size encoding, section 6.2 of
      RFC 7011) is kept as its octets, and only such a field is. */
  lemma ReducedSizeIff(b: bytes, v: Value, t: FieldType)
    requires FixedLength(t) && Fits(v, t)
    ensures Interpret(b, t) == Octets(b) <==> |b| < |EncodeValue(v, t)|
  {
    hide U16, U32, U64, BE16, BE32, BE64;
  }
}
