/** JSON texts (sections 2 to 7 of RFC 8259) without insignificant white space,
    escapes and fractions, with a parser that inverts the printer. */
module Json {
  import opened Bytes

  datatype Value =
    | Num(n: int)
    | Str(s: string)
    | Arr(items: Items)
    | Obj(members: Members)

  datatype Items = NoItems | Item(head: Value, tail: Items)
  datatype Members = NoMembers | Member(key: string, value: Value, tail: Members)

  // ---------- Printing

  function Digit(d: nat): char
    requires d < 10
  {
    '0' + d as char
  }

  function Digits(n: nat): string {
    if n < 10 then [Digit(n)] else Digits(n / 10) + [Digit(n % 10)]
  }

  function Int(n: int): string {
    if n < 0 then "-" + Digits(-n) else Digits(n)
  }

  function Quoted(s: string): string {
    "\"" + (s + "\"")
  }

  function Show(v: Value): string {
    match v
    case Num(n) => Int(n)
    case Str(s) => Quoted(s)
    case Arr(items) => "[" + (if items.NoItems? then "]" else ShowItems(items))
    case Obj(members) => "{" + (if members.NoMembers? then "}" else ShowMembers(members))
  }

  /** The first of the remaining items, the others, and the closing bracket. */
  function ShowItems(items: Items): string
    requires items.Item?
  {
    Show(items.head) + (if items.tail.NoItems? then "]" else "," + ShowItems(items.tail))
  }

  function ShowMembers(members: Members): string
    requires members.Member?
  {
    Quoted(members.key) + (":" + (Show(members.value) + (if members.tail.NoMembers? then "}" else "," + ShowMembers(members.tail))))
  }

  // ---------- Parsing

  datatype Parse<+T> = Ok(value: T, pos: nat) | Fail

  predicate IsDigit(c: char) {
    '0' <= c <= '9'
  }

  /** Characters that a string may hold without escaping. */
  predicate Unescaped(c: char) {
    c >= ' ' && c != '"' && c != '\\'
  }

  /** The end of the string whose characters start at p: the next quotation mark. */
  function StringEnd(s: string, p: nat): (r: Option<nat>)
    requires p <= |s|
    ensures r.Some? ==> p <= r.value < |s|
    decreases |s| - p
  {
    if p == |s| then None
    else if s[p] == '"' then Some(p)
    else if !Unescaped(s[p]) then None
    else StringEnd(s, p + 1)
  }

  function ParseString(s: string, p: nat): (r: Parse<string>)
    requires p <= |s|
    ensures r.Ok? ==> p < r.pos <= |s|
  {
    if p == |s| || s[p] != '"' then Fail
    else
      var e := StringEnd(s, p + 1);
      if e.None? then Fail else Ok(s[p + 1..e.value], e.value + 1)
  }

  /** Reads on after the digits of `acc`, as far as there are digits. */
  function ParseDigits(s: string, p: nat, acc: nat): (r: Parse<nat>)
    requires p <= |s|
    ensures r.Ok? && p <= r.pos <= |s|
    decreases |s| - p
  {
    if p < |s| && IsDigit(s[p]) then ParseDigits(s, p + 1, 10 * acc + (s[p] as int - '0' as int)) else Ok(acc, p)
  }

  /** A number without sign has no leading zeros. */
  function ParseNat(s: string, p: nat): (r: Parse<nat>)
    requires p <= |s|
    ensures r.Ok? ==> p < r.pos <= |s|
  {
    if p == |s| || !IsDigit(s[p]) then Fail
    else if s[p] == '0' then Ok(0, p + 1)
    else ParseDigits(s, p + 1, s[p] as int - '0' as int)
  }

  function ParseInt(s: string, p: nat): (r: Parse<int>)
    requires p <= |s|
    ensures r.Ok? ==> p < r.pos <= |s|
  {
    if p < |s| && s[p] == '-' then
      var r: Parse<int> := ParseNat(s, p + 1);
      if r.Ok? then Ok(-r.value, r.pos) else Fail
    else ParseNat(s, p)
  }

  predicate Here(s: string, p: nat, c: char) {
    p < |s| && s[p] == c
  }

  function ParseValue(s: string, p: nat): (r: Parse<Value>)
    requires p <= |s|
    ensures r.Ok? ==> p < r.pos <= |s|
    decreases |s| - p, 0
  {
    if Here(s, p, '"') then
      var r := ParseString(s, p);
      if r.Ok? then Ok(Str(r.value), r.pos) else Fail
    else if Here(s, p, '[') then
      if Here(s, p + 1, ']') then Ok(Arr(NoItems), p + 2)
      else
        var r := ParseItems(s, p + 1);
        if r.Ok? then Ok(Arr(r.value), r.pos) else Fail
    else if Here(s, p, '{') then
      if Here(s, p + 1, '}') then Ok(Obj(NoMembers), p + 2)
      else
        var r := ParseMembers(s, p + 1);
        if r.Ok? then Ok(Obj(r.value), r.pos) else Fail
    else
      var r := ParseInt(s, p);
      if r.Ok? then Ok(Num(r.value), r.pos) else Fail
  }

  /** One value or more, up to and including the closing bracket. */
  function ParseItems(s: string, p: nat): (r: Parse<Items>)
    requires p <= |s|
    ensures r.Ok? ==> p < r.pos <= |s|
    decreases |s| - p, 1
  {
    var v := ParseValue(s, p);
    if v.Fail? then Fail
    else if Here(s, v.pos, ']') then Ok(Item(v.value, NoItems), v.pos + 1)
    else if Here(s, v.pos, ',') then
      var r := ParseItems(s, v.pos + 1);
      if r.Ok? then Ok(Item(v.value, r.value), r.pos) else Fail
    else Fail
  }

  function ParseMembers(s: string, p: nat): (r: Parse<Members>)
    requires p <= |s|
    ensures r.Ok? ==> p < r.pos <= |s|
    decreases |s| - p, 1
  {
    var k := ParseString(s, p);
    if k.Fail? || !Here(s, k.pos, ':') then Fail
    else
      var v := ParseValue(s, k.pos + 1);
      if v.Fail? then Fail
      else if Here(s, v.pos, '}') then Ok(Member(k.value, v.value, NoMembers), v.pos + 1)
      else if Here(s, v.pos, ',') then
        var r := ParseMembers(s, v.pos + 1);
        if r.Ok? then Ok(Member(k.value, v.value, r.value), r.pos) else Fail
      else Fail
  }

  /** A JSON text: one value, and nothing after it. */
  function ParseText(s: string): Option<Value> {
    var r := ParseValue(s, 0);
    if r.Ok? && r.pos == |s| then Some(r.value) else None
  }

  // ---------- The parser inverts the printer

  predicate PlainString(s: string)
    decreases |s|
  {
    s != [] ==> Unescaped(s[0]) && PlainString(s[1..])
  }

  predicate Plain(v: Value) {
    match v
    case Num(_) => true
    case Str(s) => PlainString(s)
    case Arr(items) => PlainItems(items)
    case Obj(members) => PlainMembers(members)
  }

  predicate PlainItems(items: Items) {
    items.Item? ==> Plain(items.head) && PlainItems(items.tail)
  }

  predicate PlainMembers(members: Members) {
    members.Member? ==> PlainString(members.key) && Plain(members.value) && PlainMembers(members.tail)
  }

  lemma {:induction false} StringEndAt(t: string, s: string, p: nat)
    requires PlainString(t) && At(s, p, t) && Here(s, p + |t|, '"')
    ensures StringEnd(s, p) == Some(p + |t|)
    decreases |t|
  {
    if t != [] {
      AtIndex(s, p, t, 0);
      AtSplit(s, p, [t[0]], t[1..]) by { assert [t[0]] + t[1..] == t; }
      hide At;
      StringEndAt(t[1..], s, p + 1);
    }
  }

  lemma StringAt(t: string, s: string, p: nat)
    requires PlainString(t) && At(s, p, Quoted(t))
    ensures p + |Quoted(t)| <= |s| && ParseString(s, p) == Ok(t, p + |Quoted(t)|)
    ensures s[p] == '"'
  {
    AtSplit(s, p, "\"", t + "\"");
    AtSplit(s, p + 1, t, "\"");
    AtIndex(s, p, "\"", 0);
    AtIndex(s, p + 1 + |t|, "\"", 0);
    AtSlice(s, p + 1, t);
    hide At;
    StringEndAt(t, s, p + 1);
  }

  lemma {:induction false} FirstDigit(n: nat)
    ensures |Digits(n)| >= 1 && IsDigit(Digits(n)[0]) && (Digits(n)[0] == '0' <==> n == 0)
    decreases n
  {
    if n >= 10 {
      FirstDigit(n / 10);
    }
  }

  /** Reading the digits of n from the left accumulates n. */
  lemma {:induction false} DigitsAt(n: nat, s: string, p: nat)
    requires At(s, p, Digits(n))
    ensures p + |Digits(n)| <= |s| && ParseDigits(s, p, 0) == ParseDigits(s, p + |Digits(n)|, n)
    decreases n
  {
    if n < 10 {
      AtIndex(s, p, Digits(n), 0);
    } else {
      AtSplit(s, p, Digits(n / 10), [Digit(n % 10)]);
      DigitsAt(n / 10, s, p);
      AtIndex(s, p + |Digits(n / 10)|, [Digit(n % 10)], 0);
    }
  }

  predicate EndsNumber(s: string, p: nat) {
    p == |s| || (p < |s| && !IsDigit(s[p]))
  }

  lemma NatAt(n: nat, s: string, p: nat)
    requires At(s, p, Digits(n)) && EndsNumber(s, p + |Digits(n)|)
    ensures p < |s| && IsDigit(s[p]) && ParseNat(s, p) == Ok(n, p + |Digits(n)|)
  {
    FirstDigit(n);
    AtIndex(s, p, Digits(n), 0);
    DigitsAt(n, s, p);
    if n == 0 {
      assert Digits(0) == "0";
    } else {
      assert ParseDigits(s, p, 0) == ParseDigits(s, p + 1, s[p] as int - '0' as int);
    }
  }

  lemma IntAt(n: int, s: string, p: nat)
    requires At(s, p, Int(n)) && EndsNumber(s, p + |Int(n)|)
    ensures p < |s| && ParseInt(s, p) == Ok(n, p + |Int(n)|)
    ensures s[p] != '"' && s[p] != '[' && s[p] != '{'
  {
    hide Digits;
    if n < 0 {
      AtSplit(s, p, "-", Digits(-n));
      AtIndex(s, p, "-", 0);
      hide At;
      NatAt(-n, s, p + 1);
    } else {
      hide At;
      NatAt(n, s, p);
    }
  }

  lemma ShowStarts(v: Value)
    ensures |Show(v)| >= 1 && Show(v)[0] != ']' && Show(v)[0] != '}'
  {
    if v.Num? {
      FirstDigit(if v.n < 0 then -v.n else v.n);
    }
  }

  lemma {:induction false} ValueAt(v: Value, s: string, p: nat)
    requires Plain(v) && At(s, p, Show(v)) && EndsNumber(s, p + |Show(v)|)
    ensures p <= |s| && ParseValue(s, p) == Ok(v, p + |Show(v)|)
    decreases v, 0
  {
    match v
    case Num(n) =>
      hide At, Int;
      IntAt(n, s, p);
    case Str(t) =>
      hide At, Quoted;
      StringAt(t, s, p);
    case Arr(items) =>
      ArrAt(items, s, p);
    case Obj(members) =>
      ObjAt(members, s, p);
  }

  lemma {:induction false} ArrAt(items: Items, s: string, p: nat)
    requires PlainItems(items) && At(s, p, Show(Arr(items)))
    ensures p <= |s| && ParseValue(s, p) == Ok(Arr(items), p + |Show(Arr(items))|)
    decreases items, 2
  {
    hide ShowItems;
    var rest := if items.NoItems? then "]" else ShowItems(items);
    AtSplit(s, p, "[", rest);
    AtIndex(s, p, "[", 0);
    if items.NoItems? {
      AtIndex(s, p + 1, rest, 0);
    } else {
      hide At;
      ItemsStart(items, s, p + 1);
      ItemsAt(items, s, p + 1);
    }
  }

  lemma ItemsStart(items: Items, s: string, p: nat)
    requires items.Item? && At(s, p, ShowItems(items))
    ensures !Here(s, p, ']')
  {
    hide Show;
    ShowStarts(items.head);
    AtIndex(s, p, ShowItems(items), 0);
  }

  lemma {:induction false} ItemsAt(items: Items, s: string, p: nat)
    requires items.Item? && PlainItems(items) && At(s, p, ShowItems(items))
    ensures p <= |s| && ParseItems(s, p) == Ok(items, p + |ShowItems(items)|)
    decreases items, 1
  {
    hide Show, At;
    var v, tail := items.head, items.tail;
    var rest := if tail.NoItems? then "]" else "," + ShowItems(tail);
    AtSplit(s, p, Show(v), rest);
    AtIndex(s, p + |Show(v)|, rest, 0);
    ValueAt(v, s, p);
    if tail.Item? {
      AtSplit(s, p + |Show(v)|, ",", ShowItems(tail));
      ItemsAt(tail, s, p + |Show(v)| + 1);
    }
  }

  lemma {:induction false} ObjAt(members: Members, s: string, p: nat)
    requires PlainMembers(members) && At(s, p, Show(Obj(members)))
    ensures p <= |s| && ParseValue(s, p) == Ok(Obj(members), p + |Show(Obj(members))|)
    decreases members, 2
  {
    hide ShowMembers;
    var rest := if members.NoMembers? then "}" else ShowMembers(members);
    AtSplit(s, p, "{", rest);
    AtIndex(s, p, "{", 0);
    if members.NoMembers? {
      AtIndex(s, p + 1, rest, 0);
    } else {
      hide At;
      MembersStart(members, s, p + 1);
      MembersAt(members, s, p + 1);
    }
  }

  lemma MembersStart(members: Members, s: string, p: nat)
    requires members.Member? && At(s, p, ShowMembers(members))
    ensures !Here(s, p, '}')
  {
    hide Show;
    AtIndex(s, p, ShowMembers(members), 0);
  }

  lemma {:induction false} MembersAt(members: Members, s: string, p: nat)
    requires members.Member? && PlainMembers(members) && At(s, p, ShowMembers(members))
    ensures p <= |s| && ParseMembers(s, p) == Ok(members, p + |ShowMembers(members)|)
    decreases members, 1
  {
    hide Show, At, Quoted, ParseValue, ParseString;
    var k, v, tail := Quoted(members.key), Show(members.value), members.tail;
    var rest := if tail.NoMembers? then "}" else "," + ShowMembers(tail);
    AtSplit(s, p, k, ":" + (v + rest));
    AtSplit(s, p + |k|, ":", v + rest);
    AtIndex(s, p + |k|, ":", 0);
    var q := p + |k| + 1;
    AtSplit(s, q, v, rest);
    AtIndex(s, q + |v|, rest, 0);
    StringAt(members.key, s, p);
    ValueAt(members.value, s, q);
    if tail.Member? {
      AtSplit(s, q + |v|, ",", ShowMembers(tail));
      MembersAt(tail, s, q + |v| + 1);
    }
  }

  /** Every value whose strings need no escapes is parsed back from its text. */
  lemma ParseShown(v: Value)
    requires Plain(v)
    ensures ParseText(Show(v)) == Some(v)
  {
    hide Show, Plain;
    AtPart(Show(v), 0, "", Show(v), "");
    hide At;
    ValueAt(v, Show(v), 0);
  }

  // ---------- The parser returns plain values only

  lemma {:induction false} StringEndPlain(s: string, p: nat)
    requires p <= |s|
    ensures var e := StringEnd(s, p);
            e.Some? ==> PlainString(s[p..e.value])
    decreases |s| - p
  {
    if p < |s| && s[p] != '"' && Unescaped(s[p]) {
      StringEndPlain(s, p + 1);
      var e := StringEnd(s, p + 1);
      if e.Some? {
        assert s[p..e.value][1..] == s[p + 1..e.value];
      }
    }
  }

  lemma ParsedStringPlain(s: string, p: nat)
    requires p <= |s|
    ensures ParseString(s, p).Ok? ==> PlainString(ParseString(s, p).value)
  {
    hide StringEnd, PlainString;
    if Here(s, p, '"') {
      StringEndPlain(s, p + 1);
    }
  }

  lemma {:induction false} ParsedPlain(s: string, p: nat)
    requires p <= |s|
    ensures ParseValue(s, p).Ok? ==> Plain(ParseValue(s, p).value)
    decreases |s| - p, 0
  {
    hide ParseString, ParseInt, PlainString;
    if Here(s, p, '"') {
      ParsedStringPlain(s, p);
    } else if Here(s, p, '[') && !Here(s, p + 1, ']') {
      ParsedItemsPlain(s, p + 1);
    } else if Here(s, p, '{') && !Here(s, p + 1, '}') {
      ParsedMembersPlain(s, p + 1);
    }
  }

  lemma {:induction false} ParsedItemsPlain(s: string, p: nat)
    requires p <= |s|
    ensures ParseItems(s, p).Ok? ==> PlainItems(ParseItems(s, p).value)
    decreases |s| - p, 1
  {
    hide ParseValue, Plain;
    ParsedPlain(s, p);
    var v := ParseValue(s, p);
    if v.Ok? && Here(s, v.pos, ',') {
      ParsedItemsPlain(s, v.pos + 1);
    }
  }

  lemma {:induction false} ParsedMembersPlain(s: string, p: nat)
    requires p <= |s|
    ensures ParseMembers(s, p).Ok? ==> PlainMembers(ParseMembers(s, p).value)
    decreases |s| - p, 1
  {
    hide ParseValue, ParseString, Plain, PlainString;
    ParsedStringPlain(s, p);
    var k := ParseString(s, p);
    if k.Ok? && Here(s, k.pos, ':') {
      ParsedPlain(s, k.pos + 1);
      var v := ParseValue(s, k.pos + 1);
      if v.Ok? && Here(s, v.pos, ',') {
        ParsedMembersPlain(s, v.pos + 1);
      }
    }
  }

  /** A printed value is parsed back if and only if its strings need no escapes. */
  lemma ParseShownIff(v: Value)
    ensures ParseText(Show(v)) == Some(v) <==> Plain(v)
  {
    hide Show, Plain, ParseValue;
    if Plain(v) {
      ParseShown(v);
    } else {
      ParsedPlain(Show(v), 0);
    }
  }
}
