/** Whole IPFIX messages: exporting and decoding undo each other, and what the
    template cache then holds. */
module IpfixMessage {
  import opened Bytes
  import opened InfoModel
  import opened Ipfix
  import opened IpfixFraming
  import opened IpfixExport
  import opened IpfixRoundTrip

  /** The records of the last set can be told from its padding and from the tail that
      Decode ignores. */
  predicate EndsVisibly(ss: seq<Set>) {
    ss != [] ==> Separable(ss[|ss| - 1], [])
  }

  lemma RowsNotEmpty(s: Set, c: Templates, info: Elements, rest: bytes)
    requires CanExport(s, c, info) && Unpadded(s) && |rest| >= 4
    ensures Separable(s, rest)
  {
    if s.DataSet? && s.rows != [] {
      RecordExtent(s.rows[0], c[s.id]);
    }
  }

  lemma {:induction false} SeenWhenFollowed(ss: seq<Set>, c: Templates, info: Elements, rest: bytes)
    requires CanExportAll(ss, c, info) && AllUnpadded(ss) && |rest| >= 4
    ensures AllSeparable(ss, rest)
    decreases |ss|
  {
    hide CanExport, EncodeSet, InsertAll, Unpadded, Separable;
    if ss != [] {
      RowsNotEmpty(ss[0], c, info, EncodeSets(ss[1..]) + rest);
      SeenWhenFollowed(ss[1..], InsertAll(c, Announced(ss[0])), info, rest);
    }
  }

  lemma SetSize(s: Set)
    ensures |EncodeSet(s)| >= 4
  {
  }

  // The last set of a message, seen from its start.

  lemma {:induction false} SplitEncoding(ss: seq<Set>, s: Set)
    ensures EncodeSets(ss + [s]) == EncodeSets(ss) + EncodeSet(s)
    decreases |ss|
  {
    hide EncodeSet;
    var all := ss + [s];
    if ss == [] {
      assert all == [s] && all[1..] == [];
    } else {
      assert all[0] == ss[0] && all[1..] == ss[1..] + [s];
      SplitEncoding(ss[1..], s);
    }
  }

  lemma {:induction false} SplitAnnounced(ss: seq<Set>, s: Set)
    ensures AnnouncedAll(ss + [s]) == AnnouncedAll(ss) + Announced(s)
    decreases |ss|
  {
    hide Announced;
    var all := ss + [s];
    if ss == [] {
      assert all == [s] && all[1..] == [];
    } else {
      assert all[0] == ss[0] && all[1..] == ss[1..] + [s];
      SplitAnnounced(ss[1..], s);
    }
  }

  lemma {:induction false} SplitLast(ss: seq<Set>, s: Set, c: Templates, info: Elements)
    requires CanExportAll(ss + [s], c, info)
    ensures CanExportAll(ss, c, info)
    ensures CanExport(s, InsertAll(c, AnnouncedAll(ss)), info)
    ensures ShownAll(ss + [s], c, info) == ShownAll(ss, c, info) + ShownSet(s, InsertAll(c, AnnouncedAll(ss)), info)
    decreases |ss|
  {
    hide CanExport, ShownSet, Announced, InsertAll;
    var all := ss + [s];
    if ss == [] {
      assert all == [s] && all[1..] == [];
      NoInserts(c);
    } else {
      assert all[0] == ss[0] && all[1..] == ss[1..] + [s];
      SplitLast(ss[1..], s, InsertAll(c, Announced(ss[0])), info);
      InsertAllAppend(c, Announced(ss[0]), AnnouncedAll(ss[1..]));
    }
  }

  /** The sets before the last one come back; what is left is the last one. */
  lemma DownToLast(rule: StopRule, ss: seq<Set>, s: Set, c: Templates, info: Elements, b: bytes, p: nat)
    requires CanExportAll(ss + [s], c, info) && AllUnpadded(ss)
    requires At(b, p, EncodeSets(ss + [s])) && p + |EncodeSets(ss + [s])| == |b|
    ensures var c' := InsertAll(c, AnnouncedAll(ss));
            var q := p + |EncodeSets(ss)|;
            && CanExport(s, c', info) && At(b, q, EncodeSet(s)) && q + |EncodeSet(s)| == |b|
            && DecodeSets(rule, c, info, b, p)
            == Preceded(DecodeSets(rule, c', info, b, q), AnnouncedAll(ss), ShownAll(ss, c, info))
  {
    hide CanExport, CanExportAll, EncodeSet, EncodeSets, ShownAll, AnnouncedAll, InsertAll, DecodeSets, At, AllSeparable, AllUnpadded, Preceded;
    SplitLast(ss, s, c, info);
    SplitEncoding(ss, s);
    AtSplit(b, p, EncodeSets(ss), EncodeSet(s));
    SetSize(s);
    AtRest(b, p + |EncodeSets(ss)|, EncodeSet(s));
    SeenWhenFollowed(ss, c, info, b[p + |EncodeSets(ss)|..]);
    SetsRoundTrip(rule, ss, c, info, b, p);
  }

  /** The decoding of the last set of a message. */
  lemma LastSet(rule: StopRule, s: Set, c: Templates, info: Elements, b: bytes, p: nat)
    requires CanExport(s, c, info) && At(b, p, EncodeSet(s)) && p + |EncodeSet(s)| == |b|
    ensures var r := DecodeSets(rule, c, info, b, p);
            if Separable(s, []) then r == Run(Announced(s), ShownSet(s, c, info), [], [], Finished)
            else |r.records| != |ShownSet(s, c, info)| || r.errors != [] || r.end != Finished
  {
    hide SetBody, At, CanExport, EncodeSet, EncodeRow, ShownRows, Separable;
    if Separable(s, []) {
      SetAt(s, c, info, b, p);
      OneSet(rule, s, c, info, b, p, |b|);
    } else {
      CutSet(s, c, info, b, p);
    }
  }

  /** A last set that is not separable: a record is lost, or there are too many, or an
      error is reported. */
  lemma CutSet(s: Set, c: Templates, info: Elements, b: bytes, p: nat)
    requires CanExport(s, c, info) && At(b, p, EncodeSet(s)) && p + |EncodeSet(s)| == |b|
    requires !Separable(s, [])
    ensures p + 4 < |b|
    ensures var r := DecodeSet(c, info, b, p);
            && !r.stuck
            && (r.error == None ==>
                  (|r.records| < |ShownSet(s, c, info)| && r.pos == |b|) || |r.records| > |ShownSet(s, c, info)|)
  {
    hide SetBody, At, EncodeRow, EncodeRows, ShownRows, AllKnown, AllFill, RecordLength, Zeros;
    AtSet(s, b, p);
    ShownRowsLength(c[s.id], info, s.rows);
    DataSetBody(s, c[s.id], info, b, p);
    if s.rows != [] {
      RowsExtent(s.rows, c[s.id], info);
    }
  }

  lemma RowsExtent(rows: seq<Octets>, t: Template, info: Elements)
    requires rows != [] && FitsTemplate(rows, t, info)
    ensures |EncodeRows(rows)| >= 1
  {
    RecordExtent(rows[0], t);
  }

  lemma NoSets(rule: StopRule, c: Templates, info: Elements, b: bytes)
    ensures EncodeSets([]) == []
    ensures DecodeSets(rule, c, info, b, |b|) == Run(AnnouncedAll([]), ShownAll([], c, info), [], [], Finished)
  {
  }

  lemma SetsRoundTripIff(rule: StopRule, ss: seq<Set>, c: Templates, info: Elements, b: bytes, p: nat)
    requires CanExportAll(ss, c, info) && (ss != [] ==> AllUnpadded(ss[..|ss| - 1]))
    requires At(b, p, EncodeSets(ss)) && p + |EncodeSets(ss)| == |b|
    ensures DecodeSets(rule, c, info, b, p) == Run(AnnouncedAll(ss), ShownAll(ss, c, info), [], [], Finished)
       <==> EndsVisibly(ss)
  {
    hide CanExport, CanExportAll, EncodeSet, EncodeSets, ShownSet, ShownAll, Announced, AnnouncedAll, InsertAll, DecodeSets, At, Separable, AllUnpadded;
    if ss == [] {
      NoSets(rule, c, info, b);
    } else {
      var init, s := ss[..|ss| - 1], ss[|ss| - 1];
      assert ss == init + [s];
      DownToLast(rule, init, s, c, info, b, p);
      SplitLast(init, s, c, info);
      SplitEncoding(init, s);
      SplitAnnounced(init, s);
      LastSet(rule, s, InsertAll(c, AnnouncedAll(init)), info, b, p + |EncodeSets(init)|);
    }
  }

  /** Decode returns the header and the records of an exported message, in order and
      without error, under either stop rule, exactly when the message ends visibly. */
  lemma MessageRoundTripIff(rule: StopRule, h: Header, ss: seq<Set>, c: Templates, info: Elements)
    requires h.version == 10 && CanExportAll(ss, c, info) && (ss != [] ==> AllUnpadded(ss[..|ss| - 1]))
    ensures Decode(rule, c, info, EncodeHeader(h) + EncodeSets(ss))
         == Accepted(h, Run(AnnouncedAll(ss), ShownAll(ss, c, info), [], [], Finished))
       <==> EndsVisibly(ss)
  {
    hide CanExportAll, EncodeSets, ShownAll, AnnouncedAll, InsertAll, DecodeSets, At, EndsVisibly, EncodeHeader, Decode, AllUnpadded;
    AcceptedRun(rule, h, EncodeSets(ss), c, info);
    SetsRoundTripIff(rule, ss, c, info, EncodeHeader(h) + EncodeSets(ss), 16);
  }

  // ---------- Set by set

  /** What the calls of decodeSet in Decode return, one after the other. */
  function Calls(rule: StopRule, c: Templates, info: Elements, b: bytes, p: nat): seq<SetResult>
    requires p <= |b|
    decreases |b| - p
  {
    if |b| - p <= 4 then []
    else
      var s := DecodeSet(c, info, b, p);
      [s] + if s.stuck || Stops(rule, s) then [] else Calls(rule, InsertAll(c, s.learned), info, b, s.pos)
  }

  function AllRecords(rs: seq<SetResult>): seq<Record>
    decreases |rs|
  {
    if rs == [] then [] else rs[0].records + AllRecords(rs[1..])
  }

  function AllLearned(rs: seq<SetResult>): seq<Template>
    decreases |rs|
  {
    if rs == [] then [] else rs[0].learned + AllLearned(rs[1..])
  }

  /** The calls make up the run. */
  lemma {:induction false} CallsMakeRun(rule: StopRule, c: Templates, info: Elements, b: bytes, p: nat)
    requires p <= |b|
    ensures var r, calls := DecodeSets(rule, c, info, b, p), Calls(rule, c, info, b, p);
            r.records == AllRecords(calls) && r.learned == AllLearned(calls)
    decreases |b| - p
  {
    hide DecodeSet, InsertAll, Miss, Fatal;
    if |b| - p > 4 {
      var s := DecodeSet(c, info, b, p);
      if s.stuck || Stops(rule, s) {
        assert [s][1..] == [];
      } else {
        var rest := Calls(rule, InsertAll(c, s.learned), info, b, s.pos);
        CallsMakeRun(rule, InsertAll(c, s.learned), info, b, s.pos);
        assert ([s] + rest)[1..] == rest;
      }
    }
  }

  /** What each set of a message should be decoded to. A final set without contents is
      part of the tail that Decode ignores. */
  function OwnResults(ss: seq<Set>, c: Templates, info: Elements, p: nat): seq<SetResult>
    decreases |ss|
  {
    if |EncodeSets(ss)| <= 4 then []
    else
      var s, q := ss[0], p + |EncodeSet(ss[0])|;
      [SetResult(q, Announced(s), ShownSet(s, c, info), None, false)]
      + OwnResults(ss[1..], InsertAll(c, Announced(s)), info, q)
  }

  lemma {:induction false} SizeAtLeast(ss: seq<Set>)
    ensures |EncodeSets(ss)| >= 4 * |ss|
    decreases |ss|
  {
    hide EncodeSet;
    if ss != [] {
      SetSize(ss[0]);
      SizeAtLeast(ss[1..]);
    }
  }

  lemma EmptyIsSeparable(s: Set, c: Templates, info: Elements)
    requires CanExport(s, c, info) && |EncodeSet(s)| == 4
    ensures Separable(s, [])
  {
    if s.DataSet? && s.rows != [] {
      RecordExtent(s.rows[0], c[s.id]);
    }
  }

  lemma TailSeparable(ss: seq<Set>, c: Templates, info: Elements)
    requires CanExportAll(ss, c, info) && |EncodeSets(ss)| <= 4
    ensures AllSeparable(ss, [])
  {
    hide CanExport, EncodeSet, Separable, InsertAll;
    SizeAtLeast(ss);
    if ss != [] {
      SetSize(ss[0]);
      assert ss[1..] == [] && EncodeSets(ss[1..]) + [] == [];
      EmptyIsSeparable(ss[0], c, info);
    }
  }

  lemma {:induction false} SetBySetIff(rule: StopRule, ss: seq<Set>, c: Templates, info: Elements, b: bytes, p: nat)
    requires CanExportAll(ss, c, info) && At(b, p, EncodeSets(ss)) && p + |EncodeSets(ss)| == |b|
    ensures Calls(rule, c, info, b, p) == OwnResults(ss, c, info, p) <==> AllSeparable(ss, [])
    decreases |ss|
  {
    hide CanExport, EncodeSet, Separable, InsertAll, DecodeSet, At, Announced, ShownSet;
    if |EncodeSets(ss)| <= 4 {
      TailSeparable(ss, c, info);
    } else {
      var s, rest := ss[0], EncodeSets(ss[1..]);
      var q, c' := p + |EncodeSet(s)|, InsertAll(c, Announced(s));
      AtSplit(b, p, EncodeSet(s), rest);
      AtRest(b, q, rest);
      assert b[q..] == rest + [];
      SetRoundTripIff(s, c, info, b, p);
      SetBySetIff(rule, ss[1..], c', info, b, q);
      HeadAndTail(rule, c, info, b, p,
                  SetResult(q, Announced(s), ShownSet(s, c, info), None, false), OwnResults(ss[1..], c', info, q));
    }
  }

  /** The first call gives the expected result without error, and the others follow. */
  lemma HeadAndTail(rule: StopRule, c: Templates, info: Elements, b: bytes, p: nat, own: SetResult, rest: seq<SetResult>)
    requires p <= |b| && |b| - p > 4 && own.pos <= |b| && own.error == None && !own.stuck
    ensures p < own.pos || DecodeSet(c, info, b, p) != own
    ensures Calls(rule, c, info, b, p) == [own] + rest
       <==> DecodeSet(c, info, b, p) == own && Calls(rule, InsertAll(c, own.learned), info, b, own.pos) == rest
  {
    hide DecodeSet, InsertAll;
    var all := Calls(rule, c, info, b, p);
    assert all[0] == DecodeSet(c, info, b, p) && ([own] + rest)[0] == own && ([own] + rest)[1..] == rest;
    if DecodeSet(c, info, b, p) == own {
      assert all[1..] == Calls(rule, InsertAll(c, own.learned), info, b, own.pos);
    }
  }

  /** In a message of any exported sets with any padding, every set is decoded to
      exactly its own templates and records if and only if the records of each can be
      told from what comes after them. */
  lemma EverySetRoundTripIff(rule: StopRule, h: Header, ss: seq<Set>, c: Templates, info: Elements)
    requires h.version == 10 && CanExportAll(ss, c, info)
    ensures var b := EncodeHeader(h) + EncodeSets(ss);
            && Decode(rule, c, info, b) == Accepted(h, DecodeSets(rule, c, info, b, 16))
            && (Calls(rule, c, info, b, 16) == OwnResults(ss, c, info, 16) <==> AllSeparable(ss, []))
            && (AllSeparable(ss, []) ==>
                  DecodeSets(rule, c, info, b, 16) == Run(AnnouncedAll(ss), ShownAll(ss, c, info), [], [], Finished))
  {
    hide CanExportAll, EncodeSets, ShownAll, AnnouncedAll, InsertAll, DecodeSets, At, EncodeHeader, Decode, AllSeparable, Calls, OwnResults;
    var b := EncodeHeader(h) + EncodeSets(ss);
    AcceptedRun(rule, h, EncodeSets(ss), c, info);
    SetBySetIff(rule, ss, c, info, b, 16);
    if AllSeparable(ss, []) {
      assert b[16 + |EncodeSets(ss)|..] == [];
      SetsRoundTrip(rule, ss, c, info, b, 16);
      NothingLeft(rule, InsertAll(c, AnnouncedAll(ss)), info, b);
      assert AnnouncedAll(ss) + [] == AnnouncedAll(ss) && ShownAll(ss, c, info) + [] == ShownAll(ss, c, info);
    }
  }

  lemma NothingLeft(rule: StopRule, c: Templates, info: Elements, b: bytes)
    ensures DecodeSets(rule, c, info, b, |b|) == Nothing(Finished)
  {
  }

  // Why MessageRoundTripIff, which looks at the outcome only, leaves padded data sets to
  // the end of the message: an octet of padding read as a record can stand in for a
  // record that is lost in the tail.

  const ZERO_ROW: Octets := [[0]]

  lemma SameOctets(id: uint16)
    ensures EncodeSet(DataSet(id, [ZERO_ROW], 1)) == EncodeSet(DataSet(id, [ZERO_ROW, ZERO_ROW], 0))
    ensures |EncodeSet(DataSet(id, [ZERO_ROW], 1))| == 6 && |EncodeSet(DataSet(id, [ZERO_ROW], 0))| == 5
    ensures EncodeRow(ZERO_ROW) == [0]
  {
    hide BE16;
    assert ZERO_ROW[1..] == [];
    assert EncodeRow(ZERO_ROW) == [0];
    assert [ZERO_ROW][1..] == [] && EncodeRows([ZERO_ROW]) == [0];
    assert [ZERO_ROW, ZERO_ROW][1..] == [ZERO_ROW] && EncodeRows([ZERO_ROW, ZERO_ROW]) == [0, 0];
    assert Zeros(0) == [] && Zeros(1) == [0];
  }

  lemma TailSetLost(rule: StopRule, id: uint16, c: Templates, info: Elements, b: bytes, p: nat)
    requires var s := DataSet(id, [ZERO_ROW], 0);
             CanExport(s, c, info) && At(b, p, EncodeSet(s)) && p + |EncodeSet(s)| == |b|
    ensures DecodeSets(rule, c, info, b, p) == Nothing(Finished)
  {
    hide SetBody, At, EncodeSet, EncodeRow, EncodeRows, ShownRows, AllKnown, AllFill, RecordLength, Zeros, InsertAll;
    var s := DataSet(id, [ZERO_ROW], 0);
    SameOctets(id);
    AtSet(s, b, p);
    DataSetBody(s, c[id], info, b, p);
    NoInserts(c);
    assert DecodeSet(c, info, b, p) == SetResult(|b|, [], [], None, false);
  }

  /** Two sets of one zero octet each, the first padded with one more: the outcome is
      the right one, although neither set is decoded to its own records. */
  lemma PaddingCancels(rule: StopRule, h: Header, id: uint16, c: Templates, info: Elements)
    requires h.version == 10 && 256 <= id && id in c && FitsTemplate([ZERO_ROW], c[id], info)
    ensures var ss := [DataSet(id, [ZERO_ROW], 1), DataSet(id, [ZERO_ROW], 0)];
            && CanExportAll(ss, c, info) && !AllSeparable(ss, [])
            && Decode(rule, c, info, EncodeHeader(h) + EncodeSets(ss))
               == Accepted(h, Run(AnnouncedAll(ss), ShownAll(ss, c, info), [], [], Finished))
  {
    hide EncodeHeader, Decode, DecodeSets, At, ShownAll, AnnouncedAll, AllSeparable, CanExportAll, EncodeSets, CanExport;
    var ss := [DataSet(id, [ZERO_ROW], 1), DataSet(id, [ZERO_ROW], 0)];
    TwinsFit(id, c, info);
    CancelParts(id, c, info);
    AcceptedRun(rule, h, EncodeSets(ss), c, info);
    CancelRun(rule, id, c, info, EncodeHeader(h) + EncodeSets(ss), 16);
    ShownOnce(id, c, info);
  }

  lemma CancelRun(rule: StopRule, id: uint16, c: Templates, info: Elements, b: bytes, p: nat)
    requires 256 <= id && id in c && FitsTemplate([ZERO_ROW], c[id], info)
    requires var ss := [DataSet(id, [ZERO_ROW], 1), DataSet(id, [ZERO_ROW], 0)];
             At(b, p, EncodeSets(ss)) && p + |EncodeSets(ss)| == |b|
    ensures DecodeSets(rule, c, info, b, p)
         == Run([], ShownAll([DataSet(id, [ZERO_ROW, ZERO_ROW], 0)], c, info), [], [], Finished)
  {
    hide EncodeSet, DecodeSets, At, CanExport, ShownAll, AnnouncedAll, InsertAll, AllSeparable, CanExportAll, EncodeSets, FitsTemplate;
    TwinsFit(id, c, info);
    CancelParts(id, c, info);
    ShownOnce(id, c, info);
    NoInserts(c);
    var twin, last := DataSet(id, [ZERO_ROW, ZERO_ROW], 0), EncodeSet(DataSet(id, [ZERO_ROW], 0));
    AtSplit(b, p, EncodeSets([twin]), last);
    AtRest(b, p + 6, last);
    assert b[p + 6..] == last;
    SetsRoundTrip(rule, [twin], c, info, b, p);
    TailSetLost(rule, id, c, info, b, p + 6);
    assert ShownAll([twin], c, info) + [] == ShownAll([twin], c, info);
  }

  /** The octets of the message, and what can be said of its sets one by one. */
  lemma CancelParts(id: uint16, c: Templates, info: Elements)
    requires CanExport(DataSet(id, [ZERO_ROW], 1), c, info) && CanExport(DataSet(id, [ZERO_ROW], 0), c, info)
    requires CanExport(DataSet(id, [ZERO_ROW, ZERO_ROW], 0), c, info)
    ensures var first, last, twin := DataSet(id, [ZERO_ROW], 1), DataSet(id, [ZERO_ROW], 0), DataSet(id, [ZERO_ROW, ZERO_ROW], 0);
            && CanExportAll([first, last], c, info) && CanExportAll([twin], c, info)
            && !AllSeparable([first, last], []) && AllSeparable([twin], EncodeSet(last))
            && EncodeSets([first, last]) == EncodeSets([twin]) + EncodeSet(last)
            && |EncodeSets([twin])| == 6 && |EncodeSet(last)| == 5
  {
    hide EncodeSet, EncodeRow, CanExport;
    var first, last, twin := DataSet(id, [ZERO_ROW], 1), DataSet(id, [ZERO_ROW], 0), DataSet(id, [ZERO_ROW, ZERO_ROW], 0);
    SameOctets(id);
    NoInserts(c);
    assert [first, last][1..] == [last] && [last][1..] == [] && [twin][1..] == [];
    assert EncodeSets([last]) == EncodeSet(last) + [] == EncodeSet(last);
    assert EncodeSets([twin]) == EncodeSet(twin) + [] == EncodeSet(twin);
    assert CanExportAll([last], c, info);
    assert EncodeSets([last]) + [] == EncodeSet(last);
    assert EncodeSets([]) + EncodeSet(last) == EncodeSet(last);
  }

  lemma TwinsFit(id: uint16, c: Templates, info: Elements)
    requires 256 <= id && id in c && FitsTemplate([ZERO_ROW], c[id], info)
    ensures CanExport(DataSet(id, [ZERO_ROW], 1), c, info) && CanExport(DataSet(id, [ZERO_ROW], 0), c, info)
    ensures CanExport(DataSet(id, [ZERO_ROW, ZERO_ROW], 0), c, info)
  {
    SameOctets(id);
    hide AllKnown, RecordLength, Fills, BE16;
    assert [ZERO_ROW, ZERO_ROW][1..] == [ZERO_ROW];
  }

  /** Both ways of writing the octets show the same two records. */
  lemma ShownOnce(id: uint16, c: Templates, info: Elements)
    requires id in c
    ensures var ss, twin := [DataSet(id, [ZERO_ROW], 1), DataSet(id, [ZERO_ROW], 0)], DataSet(id, [ZERO_ROW, ZERO_ROW], 0);
            && ShownAll(ss, c, info) == ShownAll([twin], c, info)
            && AnnouncedAll(ss) == [] && AnnouncedAll([twin]) == []
  {
    hide Shown;
    var first, last, twin := DataSet(id, [ZERO_ROW], 1), DataSet(id, [ZERO_ROW], 0), DataSet(id, [ZERO_ROW, ZERO_ROW], 0);
    var ss := [first, last];
    NoInserts(c);
    assert ss[1..] == [last] && [last][1..] == [] && [twin][1..] == [];
    assert [ZERO_ROW, ZERO_ROW][1..] == [ZERO_ROW] && [ZERO_ROW][1..] == [];
    var r := Shown(c[id].fields, c[id].scopeFields, info, ZERO_ROW);
    assert ShownRows(c[id], info, [ZERO_ROW]) == [r];
    assert ShownRows(c[id], info, [ZERO_ROW, ZERO_ROW]) == [r, r];
    assert ShownAll([last], c, info) == [r];
    assert ShownAll([twin], c, info) == [r, r];
    assert AnnouncedAll([last]) == [];
  }

  // ---------- The templates a message leaves behind

  /** The last template of ts with the given id. */
  function Latest(ts: seq<Template>, id: uint16): Option<Template>
    decreases |ts|
  {
    if ts == [] then None
    else
      var n := |ts| - 1;
      if ts[n].id == id then Some(ts[n]) else Latest(ts[..n], id)
  }

  /** After a message each id stands for its latest definition. */
  lemma {:induction false} InsertAllLatest(c: Templates, ts: seq<Template>, id: uint16)
    ensures TemplateIn(InsertAll(c, ts), id)
         == if Latest(ts, id).Some? then Latest(ts, id) else TemplateIn(c, id)
    decreases |ts|
  {
    if ts != [] {
      var n := |ts| - 1;
      assert ts == ts[..n] + [ts[n]];
      InsertAllAppend(c, ts[..n], [ts[n]]);
      assert InsertAll(InsertAll(c, ts[..n]), [ts[n]]) == InsertAll(c, ts[..n])[ts[n].id := ts[n]];
      InsertAllLatest(c, ts[..n], id);
    }
  }

  function TemplateIn(c: Templates, id: uint16): Option<Template> {
    if id in c then Some(c[id]) else None
  }

  // ---------- Typed values

  /** v is a value of the type that the table gives the element of f, in the length
      that f announces. */
  predicate Typed(v: Value, f: FieldSpec, info: Elements) {
    var key := ElementKey(f.enterpriseNo, f.elementId);
    key in info && Fits(v, info[key].fieldType) && |EncodeValue(v, info[key].fieldType)| == f.length
  }

  predicate TypedRow(vs: seq<Value>, fields: seq<FieldSpec>, scope: seq<FieldSpec>, info: Elements)
    decreases |vs|
  {
    if vs == [] then fields == [] && scope == []
    else if fields != [] then Typed(vs[0], fields[0], info) && TypedRow(vs[1..], fields[1..], scope, info)
    else scope != [] && Typed(vs[0], scope[0], info) && TypedRow(vs[1..], [], scope[1..], info)
  }

  function ElementOf(f: FieldSpec, info: Elements): Element {
    var key := ElementKey(f.enterpriseNo, f.elementId);
    if key in info then info[key] else Element(0, Unknown)
  }

  function RowOctets(vs: seq<Value>, fields: seq<FieldSpec>, scope: seq<FieldSpec>, info: Elements): Octets
    requires TypedRow(vs, fields, scope, info)
    decreases |vs|
  {
    if vs == [] then []
    else if fields != [] then
      [EncodeValue(vs[0], ElementOf(fields[0], info).fieldType)] + RowOctets(vs[1..], fields[1..], scope, info)
    else [EncodeValue(vs[0], ElementOf(scope[0], info).fieldType)] + RowOctets(vs[1..], [], scope[1..], info)
  }

  function RowFields(vs: seq<Value>, fields: seq<FieldSpec>, scope: seq<FieldSpec>, info: Elements): Record
    requires TypedRow(vs, fields, scope, info)
    decreases |vs|
  {
    if vs == [] then []
    else if fields != [] then
      [DecodedField(ElementOf(fields[0], info).fieldId, vs[0], 0)] + RowFields(vs[1..], fields[1..], scope, info)
    else
      [DecodedField(ElementOf(scope[0], info).fieldId, vs[0], scope[0].enterpriseNo)]
      + RowFields(vs[1..], [], scope[1..], info)
  }

  /** A record of typed values fills its template and is shown as those values. */
  lemma {:induction false} TypedRowShown(vs: seq<Value>, fields: seq<FieldSpec>, scope: seq<FieldSpec>, info: Elements)
    requires TypedRow(vs, fields, scope, info)
    ensures Fills(RowOctets(vs, fields, scope, info), fields, scope)
    ensures Shown(fields, scope, info, RowOctets(vs, fields, scope, info)) == RowFields(vs, fields, scope, info)
    decreases |vs|
  {
    hide Fits, EncodeValue, Interpret;
    if vs != [] {
      var row := RowOctets(vs, fields, scope, info);
      if fields != [] {
        assert row[1..] == RowOctets(vs[1..], fields[1..], scope, info);
        InterpretEncoded(vs[0], ElementOf(fields[0], info).fieldType);
        TypedRowShown(vs[1..], fields[1..], scope, info);
      } else {
        assert row[1..] == RowOctets(vs[1..], [], scope[1..], info);
        InterpretEncoded(vs[0], ElementOf(scope[0], info).fieldType);
        TypedRowShown(vs[1..], [], scope[1..], info);
      }
    }
  }
}
