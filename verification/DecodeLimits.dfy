/** What the decoder does with messages that are too short, cut off, or of a kind it does not know, and the
    byte order of its integers. */
module DecodeLimits {
  import opened Wrappers
  import opened Bytes
  import opened Tuples
  import opened Messages
  import opened WireStream

  // ---------- integers ----------

  // The value of the next n bytes, most significant first.
  function Value(data: seq<byte>, at: nat, n: nat): nat
    requires at + n <= |data|
  {
    if n == 0 then 0
    else
      var low: int := data[at + n - 1];
      Value(data, at, n - 1) * 256 + low
  }

  /** All integers are big-endian, and reading one past the end of the message ends the process. */
  lemma BigEndian(data: seq<byte>, at: nat)
    ensures ReadU16(data, at) == if at + 2 <= |data| then Ok(Value(data, at, 2)) else Err(Panic)
    ensures at + 4 <= |data| ==> Value(data, at, 4) < 0x1_0000_0000
    ensures ReadU32(data, at) == if at + 4 <= |data| then Ok(Value(data, at, 4)) else Err(Panic)
    ensures at + 8 <= |data| ==> Value(data, at, 8) < 0x1_0000_0000_0000_0000
    ensures ReadU64(data, at) == if at + 8 <= |data| then Ok(Value(data, at, 8)) else Err(Panic)
  {
    if at + 2 <= |data| {
      ValueOfTwo(data, at);
    }
    if at + 4 <= |data| {
      ValueOfFour(data, at);
    }
    if at + 8 <= |data| {
      ValueOfFour(data, at);
      ValueOfFour(data, at + 4);
      ValueMore(data, at, 4);
      ValueMore(data, at, 6);
      ValueMore(data, at + 4, 2);
    }
  }

  lemma ValueOfTwo(data: seq<byte>, at: nat)
    requires at + 2 <= |data|
    ensures ReadU16(data, at) == Ok(Value(data, at, 2)) && Value(data, at, 2) < 0x1_0000
  {
    assert Value(data, at, 0) == 0;
    assert Value(data, at, 1) == Value(data, at, 0) * 256 + data[at];
    assert Value(data, at, 2) == Value(data, at, 1) * 256 + data[at + 1];
  }

  lemma ValueOfFour(data: seq<byte>, at: nat)
    requires at + 4 <= |data|
    ensures Value(data, at, 4) < 0x1_0000_0000 && ReadU32(data, at) == Ok(Value(data, at, 4))
  {
    hide ReadU16;
    ValueOfTwo(data, at);
    ValueOfTwo(data, at + 2);
    ValueMore(data, at, 2);
    assert Value(data, at, 4) == Value(data, at, 2) * 0x1_0000 + Value(data, at + 2, 2);
  }

  // Two more bytes.
  lemma ValueMore(data: seq<byte>, at: nat, n: nat)
    requires at + n + 2 <= |data|
    ensures Value(data, at, n + 2) == Value(data, at, n) * 0x1_0000 + Value(data, at + n, 2)
  {
    var b0: int, b1: int := data[at + n], data[at + n + 1];
    assert Value(data, at + n, 0) == 0;
    assert Value(data, at + n, 1) == b0;
    assert Value(data, at + n, 2) == b0 * 256 + b1;
    assert Value(data, at, n + 1) == Value(data, at, n) * 256 + b0;
    assert Value(data, at, n + 2) == Value(data, at, n + 1) * 256 + b1;
  }

  // ---------- refused messages ----------

  // The shortest message of each kind that the decoder looks into; inside a stream block the transaction
  // id comes on top.
  function MinLength(kind: byte, streamed: bool): nat {
    var id := if streamed then 4 else 0;
    if kind == BEGIN then 20
    else if kind == COMMIT then 25
    else if kind == RELATION then 8 + id
    else if kind == INSERT then 9 + id
    else if kind == UPDATE || kind == DELETE then 7 + id
    else 0
  }

  lemma HeaderErrors(data: seq<byte>, streamed: bool, min: nat)
    requires min >= 5
    ensures ReadHeader(data, streamed, min).Err? <==> |data| < min + (if streamed then 4 else 0)
    ensures ReadHeader(data, streamed, min).Err? ==> ReadHeader(data, streamed, min).error == TooShort
  {
  }

  // The errors of what comes behind the header.
  predicate Inner(e: DecodeError) {
    e == WrongTag || e == Panic || e == BadText || e == BadName || e == NoRelation
  }

  lemma {:induction false} RelationColumnsErrors(data: seq<byte>, at: nat, n: nat)
    ensures ReadRelationColumns(data, at, n).Err? ==> Inner(ReadRelationColumns(data, at, n).error)
    decreases n
  {
    if n > 0 && ReadRelationColumn(data, at).Ok? {
      RelationColumnsErrors(data, ReadRelationColumn(data, at).value.1, n - 1);
    } else if n > 0 {
      NameErrors(data, at + 1);
    }
  }

  lemma {:induction false} NameErrors(data: seq<byte>, at: nat)
    ensures ReadName(data, at).Err? ==> ReadName(data, at).error == Panic || ReadName(data, at).error == BadName
    decreases |data| - at
  {
    if at < |data| && data[at] != 0 {
      NameErrors(data, at + 1);
    }
  }

  lemma RelationErrors(data: seq<byte>, streamed: bool)
    ensures ReadRelation(data, streamed).Err? && ReadHeader(data, streamed, 8).Ok? ==>
              Inner(ReadRelation(data, streamed).error)
  {
    hide ReadRelationColumns, ReadName;
    var h := ReadHeader(data, streamed, 8);
    if h.Ok? {
      NameErrors(data, h.value.skip);
      var ns := ReadName(data, h.value.skip);
      if ns.Ok? {
        NameErrors(data, ns.value.1);
        var name := ReadName(data, ns.value.1);
        if name.Ok? && ReadU16(data, name.value.1 + 1).Ok? {
          RelationColumnsErrors(data, name.value.1 + 3, ReadU16(data, name.value.1 + 1).value);
        }
      }
    }
  }

  lemma TupleErrors(data: seq<byte>, tag: byte, at: nat)
    ensures NewData(data, tag, at).Err? ==> Inner(NewData(data, tag, at).error)
  {
  }

  /** A message is refused as too short if and only if it is shorter than the minimum of its kind, and as
      unsupported if and only if its kind is none of the ten. */
  lemma RefusedIff<V>(st: DecoderState, data: seq<byte>, parse: Parser<V>)
    requires data != []
    ensures Dispatch(st, data, parse).1 == Err(TooShort) <==> |data| < MinLength(data[0], st.streamed)
    ensures Dispatch(st, data, parse).1 == Err(Unsupported) <==> data[0] !in KNOWN
  {
    hide NewData, Named, Substituted, ReadRelation, ReadHeader, Cached;
    HeaderErrors(data, st.streamed, 7);
    HeaderErrors(data, st.streamed, 8);
    HeaderErrors(data, st.streamed, 9);
    RelationErrors(data, st.streamed);
    RelationTooShort(data, st.streamed);
    var kind := data[0];
    if kind == INSERT {
      InsertErrors(st, data, parse);
    } else if kind == UPDATE {
      UpdateErrors(st, data, parse);
    } else if kind == DELETE {
      DeleteErrors(st, data, parse);
    }
  }

  lemma RelationTooShort(data: seq<byte>, streamed: bool)
    ensures ReadHeader(data, streamed, 8).Err? ==>
              ReadRelation(data, streamed).Err?
              && ReadRelation(data, streamed).error == ReadHeader(data, streamed, 8).error
  {
  }

  lemma InsertErrors<V>(st: DecoderState, data: seq<byte>, parse: Parser<V>)
    ensures var h, r := ReadHeader(data, st.streamed, 9), NewInsert(st, data, parse);
            && (h.Err? ==> r.Err? && r.error == h.error)
            && (h.Ok? && r.Err? ==> Inner(r.error))
  {
    hide NewData, Named, ReadHeader;
    var h := ReadHeader(data, st.streamed, 9);
    if h.Ok? {
      TupleErrors(data, NEW, h.value.skip);
    }
  }

  lemma DeleteErrors<V>(st: DecoderState, data: seq<byte>, parse: Parser<V>)
    ensures var h, r := ReadHeader(data, st.streamed, 7), NewDelete(st, data, parse);
            && (h.Err? ==> r.Err? && r.error == h.error)
            && (h.Ok? && r.Err? ==> Inner(r.error))
  {
    hide NewData, Named, ReadHeader;
    var h := ReadHeader(data, st.streamed, 7);
    if h.Ok? && ReadByte(data, h.value.skip).Ok? {
      TupleErrors(data, ReadByte(data, h.value.skip).value, h.value.skip);
    }
  }

  lemma UpdateErrors<V>(st: DecoderState, data: seq<byte>, parse: Parser<V>)
    ensures var h, r := ReadHeader(data, st.streamed, 7), NewUpdate(st, data, parse);
            && (h.Err? ==> r.Err? && r.error == h.error)
            && (h.Ok? && r.Err? ==> Inner(r.error))
  {
    hide Named, ReadUpdate, ReadHeader;
    UpdateBodyErrors(data, st.streamed);
  }

  lemma UpdateBodyErrors(data: seq<byte>, streamed: bool)
    ensures var h, r := ReadHeader(data, streamed, 7), ReadUpdate(data, streamed);
            && (h.Err? ==> r.Err? && r.error == h.error)
            && (h.Ok? && r.Err? ==> Inner(r.error))
  {
    hide NewData, ReadHeader, Substituted;
    var h := ReadHeader(data, streamed, 7);
    if h.Ok? && ReadByte(data, h.value.skip).Ok? {
      var tag := ReadByte(data, h.value.skip).value;
      TupleErrors(data, tag, h.value.skip);
      TupleErrors(data, NEW, h.value.skip);
      if NewData(data, tag, h.value.skip).Ok? {
        var before := NewData(data, tag, h.value.skip).value;
        TupleErrors(data, NEW, before.1);
        if NewData(data, NEW, before.1).Ok? {
          SubstitutedErrors(NewData(data, NEW, before.1).value.0, before.0);
        }
      }
    }
  }

  lemma SubstitutedErrors(image: seq<Column>, before: seq<Column>)
    ensures Substituted(image, before).Err? ==> Substituted(image, before).error == Panic
  {
  }

  /** The minimum lengths admit one length each at which reading the last integer of a begin or commit ends
      the process. */
  lemma LengthGap<V>(st: DecoderState, data: seq<byte>, parse: Parser<V>)
    requires data != [] && (data[0] == BEGIN || data[0] == COMMIT)
    ensures Dispatch(st, data, parse).1 == Err(Panic) <==> |data| == MinLength(data[0], st.streamed)
    ensures Dispatch(st, data, parse).1.Ok? <==> |data| > MinLength(data[0], st.streamed)
  {
  }

  /** The byte that tells what kind of tuple follows: an insert wants a new tuple, an update a key, an old or
      a new one, and anything else is refused. */
  lemma TagRefused<V>(st: DecoderState, data: seq<byte>, parse: Parser<V>)
    requires data != [] && (data[0] == INSERT || data[0] == UPDATE) && |data| >= MinLength(data[0], st.streamed)
    requires var tag := data[if st.streamed then 9 else 5];
             tag != NEW && (data[0] == UPDATE ==> tag != KEY && tag != OLD)
    ensures Dispatch(st, data, parse) == (st, Err(WrongTag))
  {
    hide Named, ReadColumns, Substituted, Cached;
  }

  // ---------- tuples cut off ----------

  // A text of which only the first bytes arrived: the rest is read as NUL.
  function Padded(c: Column, missing: nat): Column
    requires missing <= |c.data|
  {
    Column(c.kind, c.data[..|c.data| - missing] + seq(missing, _ => 0))
  }

  // Only the text of the last column may be incomplete.
  predicate CutInLastText(cols: seq<Column>, missing: nat) {
    cols != [] && HasData(cols[|cols| - 1].kind) && missing <= |cols[|cols| - 1].data|
  }

  // What reading one column does that lies in the message only with its first bytes.
  lemma ColumnCut(data: seq<byte>, at: nat, c: Column, missing: nat)
    requires IsColumn(c) && 0 < missing <= |PutColumn(c)| && at + |PutColumn(c)| - missing == |data|
    requires data[at..] == PutColumn(c)[..|PutColumn(c)| - missing]
    ensures ReadColumn(data, at) ==
            if HasData(c.kind) && missing <= |c.data| then Ok((Padded(c, missing), |data| + missing)) else Err(Panic)
  {
    var piece, kept := PutColumn(c), |PutColumn(c)| - missing;
    assert forall i :: 0 <= i < kept ==> data[at + i] == data[at..][i] == piece[i];
    if kept > 0 && HasData(c.kind) && missing <= |c.data| {
      LengthBack(data, at, c, kept);
      var text := Copied(data, at + 5, |c.data|);
      assert text == Padded(c, missing).data by {
        forall i | 0 <= i < |c.data| ensures text[i] == Padded(c, missing).data[i] {
          if i < |c.data| - missing {
            assert data[at + 5 + i] == piece[5 + i] == c.data[i];
          }
        }
      }
    }
  }

  lemma LengthBack(data: seq<byte>, at: nat, c: Column, kept: nat)
    requires IsColumn(c) && HasData(c.kind) && 5 <= kept <= |PutColumn(c)| && at + kept == |data|
    requires data[at..] == PutColumn(c)[..kept]
    ensures ReadU32(data, at + 1) == Ok(|c.data|)
  {
    hide PutU32, ReadU32;
    var piece := PutColumn(c);
    assert piece == [c.kind] + PutU32(|c.data|) + c.data;
    assert data[at + 1..at + 5] == piece[1..5] == PutU32(|c.data|) by {
      assert data[at..][1..5] == data[at + 1..at + 5];
      assert piece[..kept][1..5] == piece[1..5];
    }
    U32Back(data, at + 1, |c.data|);
  }

  lemma {:induction false} LastInside(cols: seq<Column>)
    requires cols != [] && forall i :: 0 <= i < |cols| ==> IsColumn(cols[i])
    ensures |PutColumns(cols)| > |cols[|cols| - 1].data|
    decreases |cols|
  {
    if |cols| > 1 {
      LastInside(cols[1..]);
    }
  }

  lemma {:induction false} ColumnsCut(data: seq<byte>, at: nat, cols: seq<Column>, missing: nat)
    requires forall i :: 0 <= i < |cols| ==> IsColumn(cols[i])
    requires 0 < missing <= |PutColumns(cols)| && at + |PutColumns(cols)| - missing == |data|
    requires data[at..] == PutColumns(cols)[..|PutColumns(cols)| - missing]
    ensures ReadColumns(data, at, |cols|) ==
            if CutInLastText(cols, missing) then
              Ok((cols[..|cols| - 1] + [Padded(cols[|cols| - 1], missing)], |data| + missing))
            else Err(Panic)
    decreases |cols|
  {
    hide IsColumn, PutColumn, ReadColumn, Padded;
    var first, rest := PutColumn(cols[0]), PutColumns(cols[1..]);
    if missing <= |rest| {
      ReadColumnsUnrolled(data, at, |cols|);
      FirstWhole(data, at, first, rest, missing);
      ColumnBack(data, at, cols[0]);
      ColumnsCut(data, at + |first|, cols[1..], missing);
      SameLast(cols, missing);
    } else {
      CutInFirst(data, at, cols, missing);
    }
  }

  lemma CutInFirst(data: seq<byte>, at: nat, cols: seq<Column>, missing: nat)
    requires cols != [] && forall i :: 0 <= i < |cols| ==> IsColumn(cols[i])
    requires |PutColumns(cols[1..])| < missing <= |PutColumns(cols)| && at + |PutColumns(cols)| - missing == |data|
    requires data[at..] == PutColumns(cols)[..|PutColumns(cols)| - missing]
    ensures ReadColumns(data, at, |cols|) ==
            if CutInLastText(cols, missing) then
              Ok((cols[..|cols| - 1] + [Padded(cols[|cols| - 1], missing)], |data| + missing))
            else Err(Panic)
  {
    hide IsColumn, PutColumn, PutColumns, ReadColumn, Padded, ReadColumns, HasData;
    PutFirst(cols);
    var first, rest := PutColumn(cols[0]), PutColumns(cols[1..]);
    var kept := |first + rest| - missing;
    ReadColumnsUnrolled(data, at, |cols|);
    assert (first + rest)[..kept] == first[..kept];
    ColumnCut(data, at, cols[0], missing - |rest|);
    if |cols| > 1 {
      LastInside(cols[1..]);
      NothingBehind(data, |data| + (missing - |rest|), |cols| - 1);
    } else {
      NoneLeft(cols[1..]);
      ReadNoColumns(data, |data| + missing);
      if CutInLastText(cols, missing) {
        assert cols[..0] + [Padded(cols[0], missing)] == [Padded(cols[0], missing)] + [];
      }
    }
  }

  lemma PutFirst(cols: seq<Column>)
    requires cols != [] && forall i :: 0 <= i < |cols| ==> IsColumn(cols[i])
    ensures PutColumns(cols) == PutColumn(cols[0]) + PutColumns(cols[1..])
  {
  }

  lemma NoneLeft(cols: seq<Column>)
    requires cols == []
    ensures PutColumns(cols) == []
  {
  }

  lemma FirstWhole(data: seq<byte>, at: nat, first: seq<byte>, rest: seq<byte>, missing: nat)
    requires missing <= |rest| && at + |first + rest| - missing == |data|
    requires data[at..] == (first + rest)[..|first + rest| - missing]
    ensures At(data, at, first) && data[at + |first|..] == rest[..|rest| - missing]
  {
    var n := |first|;
    assert (first + rest)[..|first + rest| - missing] == first + rest[..|rest| - missing];
    assert data[at..at + n] == data[at..][..n] && data[at + n..] == data[at..][n..];
    assert (first + rest[..|rest| - missing])[..n] == first;
    assert (first + rest[..|rest| - missing])[n..] == rest[..|rest| - missing];
  }

  lemma SameLast(cols: seq<Column>, missing: nat)
    requires |cols| > 1
    ensures var tail := cols[1..];
            && CutInLastText(tail, missing) == CutInLastText(cols, missing)
            && (CutInLastText(cols, missing) ==>
                  [cols[0]] + (tail[..|tail| - 1] + [Padded(tail[|tail| - 1], missing)]) ==
                  cols[..|cols| - 1] + [Padded(cols[|cols| - 1], missing)])
  {
    hide Padded;
    var tail := cols[1..];
    assert tail[|tail| - 1] == cols[|cols| - 1] && [cols[0]] + tail[..|tail| - 1] == cols[..|cols| - 1];
    if CutInLastText(cols, missing) {
      var last := [Padded(cols[|cols| - 1], missing)];
      assert [cols[0]] + (tail[..|tail| - 1] + last) == ([cols[0]] + tail[..|tail| - 1]) + last;
    }
  }

  lemma NothingBehind(data: seq<byte>, at: nat, n: nat)
    requires at >= |data| && n > 0
    ensures ReadColumns(data, at, n) == Err(Panic)
  {
  }

  /** A tuple of which the last bytes are missing is still decoded if and only if they are missing from the
      text of its last column, which then ends in NUL bytes; every other cut ends the process. */
  lemma TupleCut(tag: byte, cols: seq<Column>, missing: nat)
    requires IsTuple(cols) && 0 < missing < |PutTuple(tag, cols)|
    ensures var whole := PutTuple(tag, cols);
            NewData(whole[..|whole| - missing], tag, 0) ==
            if CutInLastText(cols, missing) then
              Ok((cols[..|cols| - 1] + [Padded(cols[|cols| - 1], missing)], |whole|))
            else Err(Panic)
  {
    hide PutColumns, ReadColumns, CutInLastText, Padded;
    var whole, body := PutTuple(tag, cols), PutColumns(cols);
    var data := whole[..|whole| - missing];
    assert whole == [tag] + PutU16(|cols|) + body && |PutU16(|cols|)| == 2;
    assert data[0] == tag;
    if missing <= |body| {
      assert data[1..3] == PutU16(|cols|);
      U16Back(data, 1, |cols|);
      assert data[3..] == body[..|body| - missing];
      ColumnsCut(data, 3, cols, missing);
    } else {
      TooMuchMissing(cols, missing);
    }
  }

  lemma TooMuchMissing(cols: seq<Column>, missing: nat)
    requires (forall i :: 0 <= i < |cols| ==> IsColumn(cols[i])) && missing > |PutColumns(cols)|
    ensures !CutInLastText(cols, missing)
  {
    if cols != [] {
      LastInside(cols);
    }
  }

  // ---------- any sequence of messages ----------

  // The messages that open or close a stream block.
  predicate Controls(data: seq<byte>) {
    data != [] && data[0] in [STREAM_START, STREAM_STOP, STREAM_ABORT, STREAM_COMMIT]
  }

  /** Over any byte strings, well-formed or not: the decoder expects transaction ids if and only if the latest
      control message was a stream start. */
  lemma {:induction false} FlagFollowsControl<V>(datas: seq<seq<byte>>, parse: Parser<V>)
    ensures DecodeAll(datas, parse).0.streamed <==>
            exists i: nat :: LatestControl(datas, i) && datas[i][0] == STREAM_START
  {
    hide NewBegin, NewCommit, NewInsert, NewUpdate, NewDelete, ReadRelation;
    if datas != [] {
      var n := |datas| - 1;
      var init := datas[..n];
      FlagFollowsControl(init, parse);
      if Controls(datas[n]) {
        assert LatestControl(datas, n);
      } else {
        forall i: nat ensures LatestControl(datas, i) <==> LatestControl(init, i) {
          assert i < n ==> init[i] == datas[i];
          assert forall j :: i < j < n ==> init[j] == datas[j];
        }
      }
    }
  }

  ghost predicate LatestControl(datas: seq<seq<byte>>, i: nat) {
    i < |datas| && Controls(datas[i]) && forall j :: i < j < |datas| ==> !Controls(datas[j])
  }

  /** Only a relation message that decodes changes the cache, and only for its own table; a row of a table
      that is not in the cache is refused. */
  lemma CacheChanges<V>(st: DecoderState, data: seq<byte>, parse: Parser<V>, oid: uint32)
    ensures var (after, r) := Dispatch(st, data, parse);
            Cached(after.relations, oid) ==
            if r.Ok? && r.value.Some? && r.value.value.RelationInfo? && r.value.value.rel.oid == oid
            then Ok(r.value.value.rel) else Cached(st.relations, oid)
  {
    hide NewBegin, NewCommit, NewInsert, NewUpdate, NewDelete, ReadRelation;
    NoRelationInfo(st, data, parse);
  }

  lemma NoRelationInfo<V>(st: DecoderState, data: seq<byte>, parse: Parser<V>)
    ensures NewBegin<V>(data).Ok? ==> !NewBegin<V>(data).value.RelationInfo?
    ensures NewCommit<V>(data).Ok? ==> !NewCommit<V>(data).value.RelationInfo?
    ensures NewInsert(st, data, parse).Ok? ==> !NewInsert(st, data, parse).value.RelationInfo?
    ensures NewUpdate(st, data, parse).Ok? ==> !NewUpdate(st, data, parse).value.RelationInfo?
    ensures NewDelete(st, data, parse).Ok? ==> !NewDelete(st, data, parse).value.RelationInfo?
  {
    hide ReadHeader, NewData, Named, ReadUpdate;
  }

  lemma UnknownTable<V>(m: Wire, open: Option<uint32>, relations: map<uint32, Relation>, parse: Parser<V>)
    requires Legal(m, open)
    requires m.WInsert? || m.WDelete? || (m.WUpdate? && (m.before == None || forall i :: 0 <= i < |m.image| ==>
                                                                       m.image[i].kind != TOAST))
    requires m.oid !in relations
    ensures Dispatch(DecoderState(open.Some?, relations), Put(m, open), parse) ==
            (DecoderState(open.Some?, relations), Err(NoRelation))
  {
    hide Dispatch, Put, Named;
    MessageBack(m, open, relations, parse);
  }
}
