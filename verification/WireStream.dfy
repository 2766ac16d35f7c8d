/** The server's side of the message format, and what decoding a whole stream returns. */
module WireStream {
  import opened Wrappers
  import opened Bytes
  import opened Tuples
  import opened Messages

  // Messages as the server means them, before encoding.
  datatype Wire =
    | WBegin(finalLSN: uint64, time: uint64, xid: uint32)
    | WCommit(flags: byte, commitLSN: uint64, endLSN: uint64, time: uint64)
    | WRelation(oid: uint32, namespace: seq<byte>, name: seq<byte>, replicaId: byte, columns: seq<RelationColumn>)
    | WInsert(oid: uint32, image: seq<Column>)
    | WUpdate(oid: uint32, before: Option<(byte, seq<Column>)>, image: seq<Column>)
    | WDelete(oid: uint32, tag: byte, gone: seq<Column>)
    | WStreamStart(xid: uint32, first: bool)
    | WStreamStop
    | WStreamAbort(xid: uint32, subXid: uint32)
    | WStreamCommit(xid: uint32, flags: byte, commitLSN: uint64, endLSN: uint64, time: uint64)
    | WOther(kind: byte, body: seq<byte>)

  const KNOWN: seq<byte> :=
    [BEGIN, COMMIT, DELETE, INSERT, RELATION, UPDATE, STREAM_ABORT, STREAM_COMMIT, STREAM_START, STREAM_STOP]

  // open is the transaction of the current stream block.
  ghost predicate Legal(m: Wire, open: Option<uint32>) {
    match m
    case WBegin(_, _, _) => open == None
    case WCommit(_, _, _, _) => open == None
    case WRelation(_, ns, name, _, cols) =>
      IsName(ns) && IsName(name) && |cols| < 0x1_0000 && forall i :: 0 <= i < |cols| ==> IsName(cols[i].name)
    case WInsert(_, image) => IsTuple(image) && image != []
    case WUpdate(_, before, image) =>
      IsTuple(image)
      && (before.Some? ==> (before.value.0 == KEY || before.value.0 == OLD) && IsTuple(before.value.1))
    case WDelete(_, _, gone) => IsTuple(gone)
    case WStreamStart(_, _) => open == None
    case WStreamStop => open.Some?
    case WStreamAbort(_, _) => open == None
    case WStreamCommit(_, _, _, _, _) => open == None
    case WOther(kind, _) => kind !in KNOWN
  }

  // Inside a stream block the transaction follows the type byte.
  function Start(kind: byte, open: Option<uint32>, oid: uint32): seq<byte> {
    [kind] + (if open.Some? then PutU32(open.value) else []) + PutU32(oid)
  }

  function PutRelationColumn(c: RelationColumn): seq<byte> {
    [c.flags] + PutName(c.name) + PutU32(c.dataType) + PutU32(c.typeModifier)
  }

  function PutRelationColumns(cols: seq<RelationColumn>): seq<byte> {
    if cols == [] then [] else PutRelationColumn(cols[0]) + PutRelationColumns(cols[1..])
  }

  function PutBefore(before: Option<(byte, seq<Column>)>): seq<byte>
    requires before.Some? ==> IsTuple(before.value.1)
  {
    if before.Some? then PutTuple(before.value.0, before.value.1) else []
  }

  ghost function Put(m: Wire, open: Option<uint32>): seq<byte>
    requires Legal(m, open)
  {
    match m
    case WBegin(lsn, time, xid) => [BEGIN] + PutU64(lsn) + PutU64(time) + PutU32(xid)
    case WCommit(flags, lsn, end, time) => [COMMIT] + [flags] + PutU64(lsn) + PutU64(end) + PutU64(time)
    case WRelation(oid, ns, name, replicaId, cols) =>
      Start(RELATION, open, oid)
      + (PutName(ns) + (PutName(name) + ([replicaId] + (PutU16(|cols|) + PutRelationColumns(cols)))))
    case WInsert(oid, image) => Start(INSERT, open, oid) + PutTuple(NEW, image)
    case WUpdate(oid, before, image) => Start(UPDATE, open, oid) + (PutBefore(before) + PutTuple(NEW, image))
    case WDelete(oid, tag, gone) => Start(DELETE, open, oid) + PutTuple(tag, gone)
    case WStreamStart(xid, first) => [STREAM_START] + PutU32(xid) + [if first then 1 else 0]
    case WStreamStop => [STREAM_STOP]
    case WStreamAbort(xid, sub) => [STREAM_ABORT] + PutU32(xid) + PutU32(sub)
    case WStreamCommit(xid, flags, lsn, end, time) =>
      [STREAM_COMMIT] + PutU32(xid) + [flags] + PutU64(lsn) + PutU64(end) + PutU64(time)
    case WOther(kind, body) => [kind] + body
  }

  // ---------- what a message means in its place ----------

  function XidOf(open: Option<uint32>): uint32 {
    if open.Some? then open.value else 0
  }

  function Opened(open: Option<uint32>, m: Wire): Option<uint32> {
    match m
    case WStreamStart(xid, _) => Some(xid)
    case WStreamStop => None
    case _ => open
  }

  function Known(relations: map<uint32, Relation>, open: Option<uint32>, m: Wire): map<uint32, Relation> {
    match m
    case WRelation(oid, ns, name, replicaId, cols) =>
      relations[oid := Relation(oid, XidOf(open), ns, name, replicaId, cols)]
    case _ => relations
  }

  function Meaning<V>(m: Wire, open: Option<uint32>, relations: map<uint32, Relation>, parse: Parser<V>)
    : Result<Option<Msg<V>>, DecodeError>
  {
    match m
    case WBegin(lsn, time, xid) => Ok(Some(Begin(lsn, time, xid)))
    case WCommit(flags, lsn, end, time) => Ok(Some(Commit(flags, lsn, end, time)))
    case WRelation(oid, ns, name, replicaId, cols) =>
      Ok(Some(RelationInfo(Relation(oid, XidOf(open), ns, name, replicaId, cols))))
    case WInsert(oid, image) =>
      var rel :- Cached(relations, oid);
      var decoded :- Named(image, |image|, rel.columns, parse);
      Ok(Some(Insert(oid, XidOf(open), rel.namespace, rel.name, image, decoded)))
    case WUpdate(oid, before, sent) =>
      var image :- if before.Some? then Substituted(sent, before.value.1) else Ok(sent);
      var rel :- Cached(relations, oid);
      var oldDecoded :- if before.Some? then Named(before.value.1, |before.value.1|, rel.columns, parse)
                        else Ok(map[]);
      var decoded :- Named(image, |image|, rel.columns, parse);
      Ok(Some(Update(oid, XidOf(open), rel.namespace, rel.name, if before.Some? then before.value.0 else NEW,
                     if before.Some? then Some(before.value.1) else None, oldDecoded, image, decoded)))
    case WDelete(oid, tag, gone) =>
      var rel :- Cached(relations, oid);
      var oldDecoded :- Named(gone, |gone|, rel.columns, parse);
      Ok(Some(Delete(oid, XidOf(open), rel.namespace, rel.name, tag, gone, oldDecoded)))
    case WOther(_, _) => Err(Unsupported)
    case _ => Ok(None)
  }

  // ---------- one message back ----------

  lemma Whole(data: seq<byte>)
    ensures At(data, 0, data)
  {
  }

  lemma HeaderBack(data: seq<byte>, kind: byte, open: Option<uint32>, oid: uint32, rest: seq<byte>, min: nat)
    requires data == Start(kind, open, oid) + rest && min <= 5 + |rest|
    ensures data != [] && data[0] == kind
    ensures var skip := if open.Some? then 9 else 5;
            ReadHeader(data, open.Some?, min) == Ok(Header(XidOf(open), oid, skip)) && At(data, skip, rest)
  {
    hide PutU32, ReadU32;
    Whole(data);
    AtSplit(data, 0, Start(kind, open, oid), rest);
    var xid := if open.Some? then PutU32(open.value) else [];
    AtSplit(data, 0, [kind] + xid, PutU32(oid));
    AtSplit(data, 0, [kind], xid);
    if open.Some? {
      U32Back(data, 1, open.value);
      U32Back(data, 5, oid);
    } else {
      U32Back(data, 1, oid);
    }
  }

  lemma RelationColumnBack(data: seq<byte>, at: nat, c: RelationColumn)
    requires IsName(c.name) && At(data, at, PutRelationColumn(c))
    ensures ReadRelationColumn(data, at) == Ok((c, at + |PutRelationColumn(c)|))
  {
    hide PutU32, ReadU32, ReadName;
    AtSplit(data, at, [c.flags] + PutName(c.name) + PutU32(c.dataType), PutU32(c.typeModifier));
    AtSplit(data, at, [c.flags] + PutName(c.name), PutU32(c.dataType));
    AtSplit(data, at, [c.flags], PutName(c.name));
    AtIndex(data, at, [c.flags], 0);
    NameBack(data, at + 1, c.name);
    U32Back(data, at + 1 + |PutName(c.name)|, c.dataType);
    U32Back(data, at + 5 + |PutName(c.name)|, c.typeModifier);
  }

  lemma {:induction false} RelationColumnsBack(data: seq<byte>, at: nat, cols: seq<RelationColumn>)
    requires (forall i :: 0 <= i < |cols| ==> IsName(cols[i].name)) && At(data, at, PutRelationColumns(cols))
    ensures ReadRelationColumns(data, at, |cols|) == Ok(cols)
    decreases |cols|
  {
    hide At, IsName, PutRelationColumn, ReadRelationColumn;
    if cols != [] {
      AtSplit(data, at, PutRelationColumn(cols[0]), PutRelationColumns(cols[1..]));
      RelationColumnBack(data, at, cols[0]);
      RelationColumnsBack(data, at + |PutRelationColumn(cols[0])|, cols[1..]);
      assert [cols[0]] + cols[1..] == cols;
    }
  }

  lemma RelationPieces(data: seq<byte>, at: nat, ns: seq<byte>, name: seq<byte>, replicaId: byte,
                       cols: seq<RelationColumn>)
    requires IsName(ns) && IsName(name) && |cols| < 0x1_0000
    requires forall i :: 0 <= i < |cols| ==> IsName(cols[i].name)
    requires At(data, at, PutName(ns) + (PutName(name) + ([replicaId] + (PutU16(|cols|) + PutRelationColumns(cols)))))
    ensures ReadName(data, at) == Ok((ns, at + |ns| + 1))
    ensures var next := at + |ns| + 1;
            && ReadName(data, next) == Ok((name, next + |name| + 1))
            && var last := next + |name| + 1;
            && ReadByte(data, last) == Ok(replicaId)
            && ReadU16(data, last + 1) == Ok(|cols|)
            && ReadRelationColumns(data, last + 3, |cols|) == Ok(cols)
  {
    hide At, PutU16, ReadU16, ReadByte, ReadName, ReadRelationColumns, PutRelationColumns;
    PutU16Length(|cols|);
    var last := PutU16(|cols|) + PutRelationColumns(cols);
    AtSplit(data, at, PutName(ns), PutName(name) + ([replicaId] + last));
    NameBack(data, at, ns);
    var next := at + |ns| + 1;
    AtSplit(data, next, PutName(name), [replicaId] + last);
    NameBack(data, next, name);
    var end := next + |name| + 1;
    AtSplit(data, end, [replicaId], last);
    ByteBack(data, end, replicaId);
    AtSplit(data, end + 1, PutU16(|cols|), PutRelationColumns(cols));
    U16Back(data, end + 1, |cols|);
    RelationColumnsBack(data, end + 3, cols);
  }

  lemma RelationBack(m: Wire, open: Option<uint32>)
    requires m.WRelation? && Legal(m, open)
    ensures var data := Put(m, open);
            data != [] && data[0] == RELATION
            && ReadRelation(data, open.Some?) ==
               Ok(Relation(m.oid, XidOf(open), m.namespace, m.name, m.replicaId, m.columns))
  {
    hide At, PutU16, ReadU16, ReadByte, ReadName, ReadRelationColumns, PutRelationColumns, ReadHeader, Start;
    var data := Put(m, open);
    var rest := PutName(m.namespace)
                + (PutName(m.name) + ([m.replicaId] + (PutU16(|m.columns|) + PutRelationColumns(m.columns))));
    PutU16Length(|m.columns|);
    assert data == Start(RELATION, open, m.oid) + rest;
    HeaderBack(data, RELATION, open, m.oid, rest, 8);
    RelationPieces(data, if open.Some? then 9 else 5, m.namespace, m.name, m.replicaId, m.columns);
  }

  lemma {:induction false} PutColumnsLength(cols: seq<Column>)
    requires forall i :: 0 <= i < |cols| ==> IsColumn(cols[i])
    ensures |PutColumns(cols)| >= |cols|
  {
    if cols != [] {
      PutColumnsLength(cols[1..]);
    }
  }

  lemma PutTupleLength(tag: byte, cols: seq<Column>)
    requires IsTuple(cols)
    ensures |PutTuple(tag, cols)| >= 3 + |cols|
  {
    PutColumnsLength(cols);
  }

  lemma InsertBack<V>(m: Wire, open: Option<uint32>, relations: map<uint32, Relation>, parse: Parser<V>)
    requires m.WInsert? && Legal(m, open)
    ensures var data := Put(m, open);
            data != [] && data[0] == INSERT
            && Lift(NewInsert(DecoderState(open.Some?, relations), data, parse)) == Meaning(m, open, relations, parse)
  {
    hide PutTuple, NewData, Named, ReadHeader, Start;
    var data := Put(m, open);
    PutTupleLength(NEW, m.image);
    HeaderBack(data, INSERT, open, m.oid, PutTuple(NEW, m.image), 9);
    TupleBack(data, if open.Some? then 9 else 5, NEW, m.image);
  }

  lemma DeleteBack<V>(m: Wire, open: Option<uint32>, relations: map<uint32, Relation>, parse: Parser<V>)
    requires m.WDelete? && Legal(m, open)
    ensures var data := Put(m, open);
            data != [] && data[0] == DELETE
            && Lift(NewDelete(DecoderState(open.Some?, relations), data, parse)) == Meaning(m, open, relations, parse)
  {
    hide PutTuple, NewData, Named, ReadHeader, Start;
    var data := Put(m, open);
    PutTupleLength(m.tag, m.gone);
    HeaderBack(data, DELETE, open, m.oid, PutTuple(m.tag, m.gone), 7);
    var skip := if open.Some? then 9 else 5;
    TupleBack(data, skip, m.tag, m.gone);
    TagOf(data, skip, m.tag, m.gone);
  }

  lemma TagOf(data: seq<byte>, at: nat, tag: byte, cols: seq<Column>)
    requires IsTuple(cols) && At(data, at, PutTuple(tag, cols))
    ensures ReadByte(data, at) == Ok(tag)
  {
    AtIndex(data, at, PutTuple(tag, cols), 0);
  }

  lemma UpdateBodyBack(m: Wire, open: Option<uint32>)
    requires m.WUpdate? && Legal(m, open)
    ensures var data := Put(m, open);
            && data != [] && data[0] == UPDATE
            && var header := Header(XidOf(open), m.oid, if open.Some? then 9 else 5);
            && ReadUpdate(data, open.Some?) ==
               if m.before == None then Ok(UpdateBody(header, NEW, None, m.image))
               else match Substituted(m.image, m.before.value.1)
                    case Ok(image) => Ok(UpdateBody(header, m.before.value.0, Some(m.before.value.1), image))
                    case Err(e) => Err(e)
  {
    hide PutTuple, NewData, Substituted, ReadHeader, Start;
    var data := Put(m, open);
    var skip := if open.Some? then 9 else 5;
    PutTupleLength(NEW, m.image);
    HeaderBack(data, UPDATE, open, m.oid, PutBefore(m.before) + PutTuple(NEW, m.image), 7);
    AtSplit(data, skip, PutBefore(m.before), PutTuple(NEW, m.image));
    var at := skip + |PutBefore(m.before)|;
    if m.before.Some? {
      TupleBack(data, skip, m.before.value.0, m.before.value.1);
      TagOf(data, skip, m.before.value.0, m.before.value.1);
    }
    TupleBack(data, at, NEW, m.image);
    TagOf(data, at, NEW, m.image);
  }

  lemma UpdateBack<V>(m: Wire, open: Option<uint32>, relations: map<uint32, Relation>, parse: Parser<V>)
    requires m.WUpdate? && Legal(m, open)
    ensures var data := Put(m, open);
            data != [] && data[0] == UPDATE
            && Lift(NewUpdate(DecoderState(open.Some?, relations), data, parse)) == Meaning(m, open, relations, parse)
  {
    hide Put, Named, Substituted, ReadUpdate;
    UpdateBodyBack(m, open);
  }

  lemma BeginBack<V>(m: Wire, open: Option<uint32>)
    requires m.WBegin? && Legal(m, open)
    ensures var data := Put(m, open);
            data != [] && data[0] == BEGIN && NewBegin<V>(data) == Ok(Begin(m.finalLSN, m.time, m.xid))
  {
    hide PutU64, ReadU64, PutU32, ReadU32;
    var data := Put(m, open);
    Whole(data);
    AtSplit(data, 0, [BEGIN] + PutU64(m.finalLSN) + PutU64(m.time), PutU32(m.xid));
    AtSplit(data, 0, [BEGIN] + PutU64(m.finalLSN), PutU64(m.time));
    AtSplit(data, 0, [BEGIN], PutU64(m.finalLSN));
    U64Back(data, 1, m.finalLSN);
    U64Back(data, 9, m.time);
    U32Back(data, 17, m.xid);
  }

  lemma CommitBack<V>(m: Wire, open: Option<uint32>)
    requires m.WCommit? && Legal(m, open)
    ensures var data := Put(m, open);
            data != [] && data[0] == COMMIT && NewCommit<V>(data) == Ok(Commit(m.flags, m.commitLSN, m.endLSN, m.time))
  {
    hide PutU64, ReadU64;
    var data := Put(m, open);
    Whole(data);
    AtSplit(data, 0, [COMMIT] + [m.flags] + PutU64(m.commitLSN) + PutU64(m.endLSN), PutU64(m.time));
    AtSplit(data, 0, [COMMIT] + [m.flags] + PutU64(m.commitLSN), PutU64(m.endLSN));
    AtSplit(data, 0, [COMMIT] + [m.flags], PutU64(m.commitLSN));
    U64Back(data, 2, m.commitLSN);
    U64Back(data, 10, m.endLSN);
    U64Back(data, 18, m.time);
  }

  /** Decoding the encoding of any legal message, in any decoder state, returns its meaning and
      moves the stream flag and the relation cache as the message says. */
  lemma MessageBack<V>(m: Wire, open: Option<uint32>, relations: map<uint32, Relation>, parse: Parser<V>)
    requires Legal(m, open)
    ensures Dispatch(DecoderState(open.Some?, relations), Put(m, open), parse) ==
            (DecoderState(Opened(open, m).Some?, Known(relations, open, m)), Meaning(m, open, relations, parse))
  {
    hide NewInsert, NewUpdate, NewDelete, NewBegin, NewCommit, ReadRelation, PutTuple, PutRelationColumns, PutU32, PutU64;
    match m
    case WBegin(_, _, _) => BeginBack<V>(m, open);
    case WCommit(_, _, _, _) => CommitBack<V>(m, open);
    case WRelation(_, _, _, _, _) => RelationBack(m, open);
    case WInsert(_, _) => InsertBack(m, open, relations, parse);
    case WUpdate(_, _, _) => UpdateBack(m, open, relations, parse);
    case WDelete(_, _, _) => DeleteBack(m, open, relations, parse);
    case WOther(kind, _) =>
      assert forall i :: 0 <= i < |KNOWN| ==> KNOWN[i] != kind;
      assert KNOWN[0] == BEGIN && KNOWN[1] == COMMIT && KNOWN[2] == DELETE && KNOWN[3] == INSERT
             && KNOWN[4] == RELATION && KNOWN[5] == UPDATE && KNOWN[6] == STREAM_ABORT
             && KNOWN[7] == STREAM_COMMIT && KNOWN[8] == STREAM_START && KNOWN[9] == STREAM_STOP;
    case _ =>
  }

  // A table may have no columns; the length check refuses the inserts into it.
  lemma EmptyInsertRefused<V>(oid: uint32, open: Option<uint32>, relations: map<uint32, Relation>, parse: Parser<V>)
    ensures Dispatch(DecoderState(open.Some?, relations), Start(INSERT, open, oid) + PutTuple(NEW, []), parse) ==
            (DecoderState(open.Some?, relations), Err(TooShort))
  {
    var data := Start(INSERT, open, oid) + PutTuple(NEW, []);
    assert |data| == if open.Some? then 12 else 8;
    assert data[0] == INSERT;
  }

  // ---------- whole streams ----------

  // The stream block that is open before message i.
  function OpenAt(ms: seq<Wire>, i: nat): Option<uint32>
    requires i <= |ms|
  {
    if i == 0 then None else Opened(OpenAt(ms, i - 1), ms[i - 1])
  }

  // The latest relation message of each table before message i.
  function KnownAt(ms: seq<Wire>, i: nat): map<uint32, Relation>
    requires i <= |ms|
  {
    if i == 0 then map[] else Known(KnownAt(ms, i - 1), OpenAt(ms, i - 1), ms[i - 1])
  }

  ghost predicate LegalStream(ms: seq<Wire>) {
    forall i :: 0 <= i < |ms| ==> Legal(ms[i], OpenAt(ms, i))
  }

  ghost function PutStream(ms: seq<Wire>, n: nat): (datas: seq<seq<byte>>)
    requires n <= |ms| && LegalStream(ms)
    ensures |datas| == n && forall i :: 0 <= i < n ==> datas[i] == Put(ms[i], OpenAt(ms, i))
  {
    if n == 0 then [] else PutStream(ms, n - 1) + [Put(ms[n - 1], OpenAt(ms, n - 1))]
  }

  // The decoder over a sequence of messages.
  function DecodeAll<V>(datas: seq<seq<byte>>, parse: Parser<V>)
    : (r: (DecoderState, seq<Result<Option<Msg<V>>, DecodeError>>))
    ensures |r.1| == |datas|
  {
    if datas == [] then (DecoderState(false, map[]), [])
    else
      var n := |datas| - 1;
      var before := DecodeAll(datas[..n], parse);
      var last := Dispatch(before.0, datas[n], parse);
      (last.0, before.1 + [last.1])
  }

  lemma DecodeNone<V>(ms: seq<Wire>, parse: Parser<V>)
    requires LegalStream(ms)
    ensures DecodeAll(PutStream(ms, 0), parse) == (DecoderState(false, map[]), [])
    ensures OpenAt(ms, 0) == None && KnownAt(ms, 0) == map[]
  {
    hide LegalStream;
  }

  lemma DecodeOneMore<V>(datas: seq<seq<byte>>, data: seq<byte>, parse: Parser<V>)
    ensures var before := DecodeAll(datas, parse);
            var last := Dispatch(before.0, data, parse);
            DecodeAll(datas + [data], parse) == (last.0, before.1 + [last.1])
  {
    assert (datas + [data])[..|datas|] == datas;
  }

  // What one more message adds to the stream and to the state behind it.
  lemma PutOneMore(ms: seq<Wire>, n: nat)
    requires 0 < n <= |ms| && LegalStream(ms)
    ensures var m, open := ms[n - 1], OpenAt(ms, n - 1);
            && Legal(m, open) && PutStream(ms, n) == PutStream(ms, n - 1) + [Put(m, open)]
            && OpenAt(ms, n) == Opened(open, m) && KnownAt(ms, n) == Known(KnownAt(ms, n - 1), open, m)
  {
    hide Put, Legal, Known, Opened;
  }

  lemma {:induction false} StreamPrefixBack<V>(ms: seq<Wire>, n: nat, parse: Parser<V>)
    requires n <= |ms| && LegalStream(ms)
    ensures var r := DecodeAll(PutStream(ms, n), parse);
            && r.0 == DecoderState(OpenAt(ms, n).Some?, KnownAt(ms, n))
            && forall i :: 0 <= i < n ==> r.1[i] == Meaning(ms[i], OpenAt(ms, i), KnownAt(ms, i), parse)
  {
    hide Put, Meaning, Dispatch, Legal, Known, Opened, DecodeAll, LegalStream, PutStream, OpenAt, KnownAt;
    if n == 0 {
      DecodeNone(ms, parse);
    } else {
      StreamPrefixBack(ms, n - 1, parse);
      PutOneMore(ms, n);
      MessageBack(ms[n - 1], OpenAt(ms, n - 1), KnownAt(ms, n - 1), parse);
      DecodeOneMore(PutStream(ms, n - 1), Put(ms[n - 1], OpenAt(ms, n - 1)), parse);
    }
  }

  /** Round trip of a whole stream: each message comes back with its meaning, the transaction id
      exactly inside stream blocks, and rows named by the relation cached at that point. */
  lemma StreamRoundTrip<V>(ms: seq<Wire>, parse: Parser<V>)
    requires LegalStream(ms)
    ensures var r := DecodeAll(PutStream(ms, |ms|), parse);
            && |r.1| == |ms|
            && forall i :: 0 <= i < |ms| ==> r.1[i] == Meaning(ms[i], OpenAt(ms, i), KnownAt(ms, i), parse)
  {
    hide Put, Meaning;
    StreamPrefixBack(ms, |ms|, parse);
  }

  /** The cached relation of a table is the one of its latest relation message. */
  lemma {:induction false} KnownIsLatest(ms: seq<Wire>, i: nat, j: nat)
    requires j < i <= |ms| && ms[j].WRelation?
    requires forall k :: j < k < i && ms[k].WRelation? ==> ms[k].oid != ms[j].oid
    ensures Cached(KnownAt(ms, i), ms[j].oid) ==
            Ok(Relation(ms[j].oid, XidOf(OpenAt(ms, j)), ms[j].namespace, ms[j].name, ms[j].replicaId, ms[j].columns))
    decreases i
  {
    if j < i - 1 {
      KnownIsLatest(ms, i - 1, j);
    }
  }

  /** The open block is that of the latest stream start that was not stopped. */
  lemma {:induction false} OpenIsLatest(ms: seq<Wire>, i: nat, j: nat)
    requires j < i <= |ms| && (ms[j].WStreamStart? || ms[j].WStreamStop?)
    requires forall k :: j < k < i ==> !ms[k].WStreamStart? && !ms[k].WStreamStop?
    ensures OpenAt(ms, i) == if ms[j].WStreamStart? then Some(ms[j].xid) else None
    decreases i
  {
    if j < i - 1 {
      OpenIsLatest(ms, i - 1, j);
    }
  }

  /** An update with the full old row: whichever unchanged columns were left out, the decoded
      message has the true new row, and its columns by name are those of that row. */
  lemma UpdateRecoversRow<V>(oid: uint32, before: seq<Column>, row: seq<Column>, toasted: set<nat>,
                             open: Option<uint32>, relations: map<uint32, Relation>, parse: Parser<V>)
    requires IsRow(before) && IsRow(row) && |before| == |row|
    requires forall i: nat :: i in toasted && i < |row| ==> before[i] == row[i]
    requires oid in relations && |relations[oid].columns| == |row| && DistinctNames(relations[oid].columns)
    requires Readable(before, relations[oid].columns, parse) && Readable(row, relations[oid].columns, parse)
    ensures var m := WUpdate(oid, Some((OLD, before)), Toasted(row, toasted));
            && Legal(m, open)
            && var r := Dispatch(DecoderState(open.Some?, relations), Put(m, open), parse).1;
            && r.Ok? && r.value.Some? && r.value.value.Update?
            && r.value.value.image == row && r.value.value.oldImage == Some(before)
            && r.value.value.xid == XidOf(open) && r.value.value.name == relations[oid].name
            && forall i :: 0 <= i < |row| ==> Means(r.value.value.decoded, row[i], relations[oid].columns[i], parse)
  {
    hide Dispatch, Put, Named, Means, Toasted, Substituted, Readable, IsRow, IsTuple;
    var m := WUpdate(oid, Some((OLD, before)), Toasted(row, toasted));
    RowsAreTuples(before);
    RowsAreTuples(row);
    MessageBack(m, open, relations, parse);
    FullOldRowRecovers(before, row, toasted);
    NamedMeaning(before, |before|, relations[oid].columns, parse);
    NamedMeaning(row, |row|, relations[oid].columns, parse);
  }

  lemma RowsAreTuples(row: seq<Column>)
    requires IsRow(row)
    ensures IsTuple(row)
  {
  }
}
