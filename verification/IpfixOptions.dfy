/** Data records of options templates. An exporter sends the scope fields of a record
    first (section 3.4.2.2 of RFC 7011), the decoder takes the ordinary fields first. */
module IpfixOptions {
  import opened Bytes
  import opened InfoModel
  import opened Ipfix
  import opened IpfixFraming
  import opened IpfixExport
  import opened IpfixRoundTrip

  /** The octets x, cut into fields as the decoder does. */
  function Cut(x: bytes, fields: seq<FieldSpec>, scope: seq<FieldSpec>): (row: Octets)
    decreases |fields| + |scope|
  {
    if fields != [] && fields[0].length <= |x| then
      [x[..fields[0].length]] + Cut(x[fields[0].length..], fields[1..], scope)
    else if fields == [] && scope != [] && scope[0].length <= |x| then
      [x[..scope[0].length]] + Cut(x[scope[0].length..], [], scope[1..])
    else []
  }

  lemma {:induction false} CutFills(x: bytes, fields: seq<FieldSpec>, scope: seq<FieldSpec>)
    requires |x| == FieldsLength(fields) + FieldsLength(scope)
    ensures Fills(Cut(x, fields, scope), fields, scope) && EncodeRow(Cut(x, fields, scope)) == x
    decreases |fields| + |scope|
  {
    var row := Cut(x, fields, scope);
    if fields != [] {
      CutFills(x[fields[0].length..], fields[1..], scope);
      assert row[1..] == Cut(x[fields[0].length..], fields[1..], scope);
    } else if scope != [] {
      CutFills(x[scope[0].length..], [], scope[1..]);
      assert row[1..] == Cut(x[scope[0].length..], [], scope[1..]);
    }
  }

  /** The octets of a record leave no choice of its fields. */
  lemma {:induction false} RowDetermined(r: Octets, s: Octets, fields: seq<FieldSpec>, scope: seq<FieldSpec>)
    requires Fills(r, fields, scope) && Fills(s, fields, scope) && EncodeRow(r) == EncodeRow(s)
    ensures r == s
    decreases |r|
  {
    if r != [] {
      assert EncodeRow(r)[..|r[0]|] == r[0] && EncodeRow(s)[..|r[0]|] == s[0];
      assert EncodeRow(r)[|r[0]|..] == EncodeRow(r[1..]) && EncodeRow(s)[|r[0]|..] == EncodeRow(s[1..]);
      if fields != [] {
        RowDetermined(r[1..], s[1..], fields[1..], scope);
      } else {
        RowDetermined(r[1..], s[1..], [], scope[1..]);
      }
      assert r == [r[0]] + r[1..] && s == [s[0]] + s[1..];
    }
  }

  lemma {:induction false} EncodeRowAppend(r: Octets, s: Octets)
    ensures EncodeRow(r + s) == EncodeRow(r) + EncodeRow(s)
    decreases |r|
  {
    if r == [] {
      assert r + s == s;
    } else {
      assert (r + s)[1..] == r[1..] + s;
      EncodeRowAppend(r[1..], s);
    }
  }

  /** A record sent with its scope fields first is always decoded, but its octets go to
      their own fields if and only if the order makes no difference to the octets. */
  lemma ScopeFirstIff(ordinary: Octets, scope: Octets, t: Template, info: Elements, b: bytes, p: nat)
    requires Fills(ordinary + scope, t.fields, t.scopeFields) && AllKnown(t, info)
    requires At(b, p, EncodeRow(scope) + EncodeRow(ordinary))
    ensures exists row: Octets ::
              && Fills(row, t.fields, t.scopeFields)
              && DecodeRecord(t, info, b, p) == Row(Shown(t.fields, t.scopeFields, info, row), p + RecordLength(t))
              && (row == ordinary + scope <==> EncodeRow(scope) + EncodeRow(ordinary) == EncodeRow(ordinary) + EncodeRow(scope))
  {
    hide Fills, DecodeRecord, Shown, At, EncodeRow, Cut, FieldsLength, AllKnown;
    var x := EncodeRow(scope) + EncodeRow(ordinary);
    var row := Cut(x, t.fields, t.scopeFields);
    EncodeRowAppend(ordinary, scope);
    RowLength(ordinary + scope, t.fields, t.scopeFields);
    CutFills(x, t.fields, t.scopeFields);
    RecordRoundTrip(row, t, info, b, p);
    if x == EncodeRow(ordinary) + EncodeRow(scope) {
      RowDetermined(row, ordinary + scope, t.fields, t.scopeFields);
    }
  }

  /** The failing case in full: one field and one scope field of the same length come
      back with each other's octets. */
  lemma ScopeSwapped(f: FieldSpec, g: FieldSpec, x: bytes, y: bytes, t: Template, info: Elements, b: bytes, p: nat)
    requires t.fields == [f] && t.scopeFields == [g] && AllKnown(t, info)
    requires |x| == |y| == f.length == g.length && At(b, p, y + x)
    ensures DecodeRecord(t, info, b, p)
         == Row(ShownField(f, 0, info, y) + ShownField(g, g.enterpriseNo, info, x), p + 2 * f.length)
  {
    hide DecodeRecord, ShownField, At, AllKnown;
    var row := [y, x];
    assert row[1..] == [x] && [x][1..] == [] && [f][1..] == [] && [g][1..] == [];
    assert EncodeRow([x]) == x + [] == x;
    assert FieldsLength([f]) == f.length && FieldsLength([g]) == g.length;
    assert Fills([x], [], [g]) && Fills(row, [f], [g]);
    RecordRoundTrip(row, t, info, b, p);
    assert Shown([], [g], info, [x]) == ShownField(g, g.enterpriseNo, info, x) + [];
    assert Shown([f], [g], info, row) == ShownField(f, 0, info, y) + ShownField(g, g.enterpriseNo, info, x);
  }
}
