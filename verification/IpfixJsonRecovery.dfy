/** What can be read back from the text that ipfix/marshal.go prints. */
module IpfixJsonRecovery {
  import opened Bytes
  import opened InfoModel
  import opened Ipfix
  import opened IpfixJson
  import opened IpfixJsonRoundTrip
  import J = Json

  /** The kind of a value, which a reader of the text knows from the element table. */
  datatype Kind = UnsignedKind(bits: nat) | SignedKind(bits: nat) | TextKind | OctetsKind | AddressKind | OtherKind

  function KindOf(v: Value): Kind {
    match v
    case Unsigned(bits, _) => UnsignedKind(bits)
    case Signed(bits, _) => SignedKind(bits)
    case Text(_) => TextKind
    case Octets(_) => OctetsKind
    case Ip(_) => AddressKind
    case Mac(_) => AddressKind
    case Bool(_) => OtherKind
    case Float(_, _) => OtherKind
  }

  function KindsOf(r: Record): seq<Kind>
    decreases |r|
  {
    if r == [] then [] else [KindOf(r[0].value)] + KindsOf(r[1..])
  }

  function AllKindsOf(rs: seq<Record>): seq<seq<Kind>>
    decreases |rs|
  {
    if rs == [] then [] else [KindsOf(rs[0])] + AllKindsOf(rs[1..])
  }

  /** The library's reading of an address. */
  type Reader = string -> Value

  /** 64-bit integers, octet arrays, texts without control characters, quotation marks and
      backslashes, and addresses that the library can read back. */
  predicate Legible(v: Value, fmt: Formatter, read: Reader) {
    match v
    case Unsigned(_, n) => n < 0x1_0000_0000_0000_0000
    case Signed(_, _) => true
    case Octets(_) => true
    case Text(t) => forall i | 0 <= i < |t| :: t[i] >= 0x20 && t[i] != 0x22 && t[i] != 0x5c
    case Ip(_) => J.PlainString(fmt(v)) && read(fmt(v)) == v
    case Mac(_) => J.PlainString(fmt(v)) && read(fmt(v)) == v
    case Bool(_) => false
    case Float(_, _) => false
  }

  /** Of them, those that int64 can hold. */
  predicate Recoverable(v: Value) {
    v.Unsigned? ==> v.n < 0x8000_0000_0000_0000
  }

  predicate RecordLegible(r: Record, fmt: Formatter, read: Reader)
    decreases |r|
  {
    r != [] ==> Legible(r[0].value, fmt, read) && RecordLegible(r[1..], fmt, read)
  }

  predicate AllLegible(rs: seq<Record>, fmt: Formatter, read: Reader)
    decreases |rs|
  {
    rs != [] ==> RecordLegible(rs[0], fmt, read) && AllLegible(rs[1..], fmt, read)
  }

  predicate RecordRecoverable(r: Record)
    decreases |r|
  {
    r != [] ==> Recoverable(r[0].value) && RecordRecoverable(r[1..])
  }

  predicate AllRecoverable(rs: seq<Record>)
    decreases |rs|
  {
    rs != [] ==> RecordRecoverable(rs[0]) && AllRecoverable(rs[1..])
  }

  // ---------- The reader

  function Nibble(c: char): Option<nat> {
    if '0' <= c <= '9' then Some(c as int - '0' as int)
    else if 'a' <= c <= 'f' then Some(c as int - 'a' as int + 10)
    else None
  }

  function FromHex(s: string): Option<bytes>
    decreases |s|
  {
    if s == "" then Some([])
    else if |s| == 1 then None
    else
      var hi, lo, rest := Nibble(s[0]), Nibble(s[1]), FromHex(s[2..]);
      if hi.Some? && lo.Some? && rest.Some? then Some([16 * hi.value + lo.value] + rest.value) else None
  }

  predicate IsOctets(s: string) {
    forall i | 0 <= i < |s| :: s[i] as int < 0x100
  }

  /** The characters of a string, one octet each. */
  function OctetsOf(s: string): bytes
    requires IsOctets(s)
  {
    seq(|s|, i requires 0 <= i < |s| => s[i] as int)
  }

  function ReadValue(k: Kind, j: J.Value, read: Reader): Option<Value> {
    match k
    case UnsignedKind(bits) => if j.Num? && j.n >= 0 then Some(Unsigned(bits, j.n)) else None
    case SignedKind(bits) => if j.Num? then Some(Signed(bits, j.n)) else None
    case TextKind => if j.Str? && IsOctets(j.s) then Some(Text(OctetsOf(j.s))) else None
    case OctetsKind =>
      if !j.Str? || |j.s| < 2 || j.s[..2] != "0x" then None
      else
        var b := FromHex(j.s[2..]);
        if b.Some? then Some(Octets(b.value)) else None
    case AddressKind => if j.Str? then Some(read(j.s)) else None
    case OtherKind => None
  }

  function ReadEnterprise(ms: J.Members): Option<uint32> {
    if ms.NoMembers? then Some(0)
    else if ms.key == "E" && ms.value.Num? && 0 <= ms.value.n < 0x1_0000_0000 && ms.tail.NoMembers? then Some(ms.value.n)
    else None
  }

  function ReadEntry(k: Kind, j: J.Value, read: Reader): Option<DecodedField> {
    if !(j.Obj? && j.members.Member? && j.members.tail.Member?) then None
    else
      var i, v := j.members, j.members.tail;
      var value, e := ReadValue(k, v.value, read), ReadEnterprise(v.tail);
      if i.key == "I" && i.value.Num? && 0 <= i.value.n < 0x1_0000 && v.key == "V" && value.Some? && e.Some?
      then Some(DecodedField(i.value.n, value.value, e.value)) else None
  }

  function Joined<T>(x: Option<T>, xs: Option<seq<T>>): Option<seq<T>> {
    if x.Some? && xs.Some? then Some([x.value] + xs.value) else None
  }

  function ReadEntries(ks: seq<Kind>, items: J.Items, read: Reader): Option<Record>
    decreases |ks|
  {
    match items
    case NoItems => if ks == [] then Some([]) else None
    case Item(j, tail) =>
      if ks == [] then None else Joined(ReadEntry(ks[0], j, read), ReadEntries(ks[1..], tail, read))
  }

  function ReadRecords(kss: seq<seq<Kind>>, items: J.Items, read: Reader): Option<seq<Record>>
    decreases |kss|
  {
    match items
    case NoItems => if kss == [] then Some([]) else None
    case Item(j, tail) =>
      if kss == [] || !j.Arr? then None
      else Joined(ReadEntries(kss[0], j.items, read), ReadRecords(kss[1..], tail, read))
  }

  /** The number stored under the key, and the members after it. */
  function Take(key: string, ms: J.Members): (J.Members, Option<int>) {
    if ms.Member? && ms.key == key && ms.value.Num? then (ms.tail, Some(ms.value.n)) else (J.NoMembers, None)
  }

  function ReadHeaderValue(j: J.Value): Option<Header> {
    if !j.Obj? then None
    else
      var (ms1, version) := Take("Version", j.members);
      var (ms2, length) := Take("Length", ms1);
      var (ms3, exportTime) := Take("ExportTime", ms2);
      var (ms4, sequenceNo) := Take("SequenceNo", ms3);
      var (ms5, domainId) := Take("DomainID", ms4);
      if version.Some? && length.Some? && exportTime.Some? && sequenceNo.Some? && domainId.Some? && ms5.NoMembers?
         && 0 <= version.value < 0x1_0000 && 0 <= length.value < 0x1_0000 && 0 <= exportTime.value < 0x1_0000_0000
         && 0 <= sequenceNo.value < 0x1_0000_0000 && 0 <= domainId.value < 0x1_0000_0000
      then Some(Header(version.value, length.value, exportTime.value, sequenceNo.value, domainId.value))
      else None
  }

  function Recover(kss: seq<seq<Kind>>, j: J.Value, read: Reader): Option<Message> {
    if !(j.Obj? && j.members.Member? && j.members.tail.Member? && j.members.tail.tail.Member?) then None
    else
      var a, h, d := j.members, j.members.tail, j.members.tail.tail;
      if a.key != "AgentID" || !a.value.Str? || h.key != "Header" || d.key != "DataSets" || !d.value.Arr? then None
      else
        var header, records := ReadHeaderValue(h.value), ReadRecords(kss, d.value.items, read);
        if header.Some? && records.Some? then Some(Message(a.value.s, header.value, records.value)) else None
  }

  // ---------- It recovers the message

  lemma NibbleBack(d: nat)
    requires d < 16
    ensures Nibble(HexDigit(d)) == Some(d) && J.Unescaped(HexDigit(d))
  {
  }

  lemma {:induction false} HexBack(b: bytes)
    ensures FromHex(Hex(b)) == Some(b) && J.PlainString(Hex(b))
    decreases |b|
  {
    if b != [] {
      HexBack(b[1..]);
      var s := Hex(b);
      assert s[2..] == Hex(b[1..]);
      NibbleBack(b[0] / 16);
      NibbleBack(b[0] % 16);
      assert [b[0]] + b[1..] == b;
      assert s[1..][0] == s[1] && s[1..][1..] == s[2..];
      assert J.PlainString(s[1..]);
    }
  }

  /** The characters of a text are its octets. */
  lemma {:induction false} CharsAre(t: bytes)
    ensures |Chars(t)| == |t| && forall i | 0 <= i < |t| :: Chars(t)[i] as int == t[i]
    decreases |t|
  {
    if t != [] {
      CharsAre(t[1..]);
      assert forall i | 1 <= i < |t| :: Chars(t)[i] == Chars(t[1..])[i - 1] && t[i] == t[1..][i - 1];
    }
  }

  lemma {:induction false} PlainWhenEach(s: string)
    requires forall i | 0 <= i < |s| :: J.Unescaped(s[i])
    ensures J.PlainString(s)
    decreases |s|
  {
    if s != "" {
      PlainWhenEach(s[1..]);
    }
  }

  lemma TextBack(t: bytes)
    requires forall i | 0 <= i < |t| :: t[i] >= 0x20 && t[i] != 0x22 && t[i] != 0x5c
    ensures J.PlainString(Chars(t)) && IsOctets(Chars(t)) && OctetsOf(Chars(t)) == t
  {
    hide Chars;
    CharsAre(t);
    var s := Chars(t);
    forall i | 0 <= i < |s|
      ensures J.Unescaped(s[i])
    {
      assert s[i] as int == t[i];
    }
    PlainWhenEach(s);
  }

  lemma OctetsBack(b: bytes)
    ensures var s := "0x" + Hex(b);
            J.PlainString(s) && s[..2] == "0x" && FromHex(s[2..]) == Some(b)
  {
    hide Hex, FromHex;
    HexBack(b);
    var s := "0x" + Hex(b);
    assert s[..2] == "0x" && s[2..] == Hex(b);
    assert s[1..][1..] == s[2..] && s[1..][0] == 'x';
    assert J.PlainString(s[1..]);
  }

  lemma ValueRecoveredIff(v: Value, fmt: Formatter, read: Reader)
    requires Legible(v, fmt, read)
    ensures Printable(v) && J.Plain(ValueTree(v, fmt))
    ensures ReadValue(KindOf(v), ValueTree(v, fmt), read) == Some(v) <==> Recoverable(v)
  {
    hide Chars, Hex, FromHex, OctetsOf, IsOctets, J.PlainString;
    match v {
      case Text(t) => TextBack(t);
      case Octets(b) => OctetsBack(b);
      case _ =>
    }
  }

  lemma EntryRecoveredIff(f: DecodedField, fmt: Formatter, read: Reader)
    requires Legible(f.value, fmt, read)
    ensures ReadEntry(KindOf(f.value), FieldTree(f, fmt), read) == Some(f) <==> Recoverable(f.value)
  {
    hide ValueTree, ReadValue, Recoverable, KindOf, Legible;
    ValueRecoveredIff(f.value, fmt, read);
  }

  lemma JoinedIff<T>(x: Option<T>, xs: Option<seq<T>>, y: seq<T>)
    requires y != []
    ensures Joined(x, xs) == Some(y) <==> x == Some(y[0]) && xs == Some(y[1..])
  {
    if x.Some? && xs.Some? {
      assert ([x.value] + xs.value)[0] == x.value && ([x.value] + xs.value)[1..] == xs.value;
      assert y == [y[0]] + y[1..];
    }
  }

  lemma {:induction false} EntriesRecoveredIff(r: Record, fmt: Formatter, read: Reader)
    requires RecordLegible(r, fmt, read)
    ensures PlainRecord(r, fmt)
    ensures ReadEntries(KindsOf(r), FieldItems(r, fmt), read) == Some(r) <==> RecordRecoverable(r)
    decreases |r|
  {
    hide ValueTree, FieldTree, ReadEntry, Recoverable, KindOf, Printable, J.Plain, Legible, Joined;
    if r != [] {
      ValueRecoveredIff(r[0].value, fmt, read);
      EntryRecoveredIff(r[0], fmt, read);
      EntriesRecoveredIff(r[1..], fmt, read);
      assert KindsOf(r)[1..] == KindsOf(r[1..]);
      JoinedIff(ReadEntry(KindOf(r[0].value), FieldTree(r[0], fmt), read),
                ReadEntries(KindsOf(r[1..]), FieldItems(r[1..], fmt), read), r);
    }
  }

  lemma {:induction false} RecordsRecoveredIff(rs: seq<Record>, fmt: Formatter, read: Reader)
    requires AllLegible(rs, fmt, read)
    ensures PlainRecords(rs, fmt)
    ensures ReadRecords(AllKindsOf(rs), RecordItems(rs, fmt), read) == Some(rs) <==> AllRecoverable(rs)
    decreases |rs|
  {
    hide FieldItems, ReadEntries, RecordRecoverable, RecordLegible, KindsOf, PlainRecord, Joined;
    if rs != [] {
      EntriesRecoveredIff(rs[0], fmt, read);
      RecordsRecoveredIff(rs[1..], fmt, read);
      assert AllKindsOf(rs)[1..] == AllKindsOf(rs[1..]);
      JoinedIff(ReadEntries(KindsOf(rs[0]), FieldItems(rs[0], fmt), read),
                ReadRecords(AllKindsOf(rs[1..]), RecordItems(rs[1..], fmt), read), rs);
    }
  }

  lemma {:induction false} NothingFails(rs: seq<Record>, i: nat, fmt: Formatter)
    requires i <= |rs| && forall k | 0 <= k < |rs| :: AllPrintable(rs[k])
    ensures !LastFails(rs, i, fmt)
    decreases i
  {
    hide AllPrintable;
    if i > 0 {
      if rs[i - 1] == [] {
        NothingFails(rs, i - 1, fmt);
      } else {
        LastPrintable(rs[i - 1]);
      }
    }
  }

  lemma {:induction false} LastPrintable(r: Record)
    requires r != [] && AllPrintable(r)
    ensures HasText(r[|r| - 1].value)
    decreases |r|
  {
    if |r| > 1 {
      assert r[1..][|r| - 2] == r[|r| - 1];
      LastPrintable(r[1..]);
    }
  }

  lemma {:induction false} EachPrintable(rs: seq<Record>, k: nat)
    requires k < |rs| && AllRecordsPrintable(rs)
    ensures AllPrintable(rs[k])
    decreases k
  {
    hide AllPrintable;
    if k > 0 {
      assert rs[1..][k - 1] == rs[k];
      EachPrintable(rs[1..], k - 1);
    }
  }

  /** For every message of 64-bit integers, octet arrays, addresses and texts that need no
      escapes, in any number of records of any size, JSONMarshal succeeds with a JSON text,
      and the whole message is recovered from it if and only if no unsigned number is 2^63
      or more: those are printed as negative ones. */
  lemma JsonRoundTripIff(m: Message, fmt: Formatter, read: Reader)
    requires J.PlainString(m.agent) && AllLegible(m.dataSets, fmt, read)
    ensures !LastFails(m.dataSets, |m.dataSets|, fmt)
    ensures var j := J.ParseText(MessageText(m, fmt));
            && j.Some?
            && (Recover(AllKindsOf(m.dataSets), j.value, read) == Some(m) <==> AllRecoverable(m.dataSets))
  {
    hide PlainRecords, MessageText, J.PlainString, J.ParseText, AllRecordsPrintable, AllPrintable, RecordItems, ReadRecords, AllKindsOf, LastFails, AllLegible, AllRecoverable;
    RecordsRecoveredIff(m.dataSets, fmt, read);
    ParsesBack(m, fmt);
    PlainDataSets(m.dataSets, fmt);
    forall k | 0 <= k < |m.dataSets|
      ensures AllPrintable(m.dataSets[k])
    {
      EachPrintable(m.dataSets, k);
    }
    NothingFails(m.dataSets, |m.dataSets|, fmt);
    HeaderRecovered(m.header);
    hide HeaderTree, ReadHeaderValue;
  }

  lemma HeaderRecovered(h: Header)
    ensures ReadHeaderValue(HeaderTree(h)) == Some(h)
  {
  }
}
