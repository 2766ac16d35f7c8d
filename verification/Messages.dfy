/** The decoder of logical replication messages: relation cache, stream flag and dispatch. The encoder
    of the server and the round trips are in WireStream. */
module Messages {
  import opened Wrappers
  import opened Bytes
  import opened Tuples

  const BEGIN: byte := 0x42          // 'B'
  const COMMIT: byte := 0x43         // 'C'
  const DELETE: byte := 0x44         // 'D'
  const INSERT: byte := 0x49         // 'I'
  const RELATION: byte := 0x52       // 'R'
  const UPDATE: byte := 0x55         // 'U'
  const STREAM_ABORT: byte := 0x41   // 'A'
  const STREAM_COMMIT: byte := 0x63  // 'c'
  const STREAM_START: byte := 0x53   // 'S'
  const STREAM_STOP: byte := 0x45    // 'E'

  const KEY: byte := 0x4B  // 'K'
  const OLD: byte := 0x4F  // 'O'
  const NEW: byte := 0x4E  // 'N'

  datatype Relation = Relation(
    oid: uint32, xid: uint32, namespace: seq<byte>, name: seq<byte>, replicaId: byte,
    columns: seq<RelationColumn>)

  type Cells<V> = map<seq<byte>, Option<V>>

  datatype Msg<V> =
    | Begin(finalLSN: uint64, commitTime: uint64, beginXid: uint32)
    | Commit(flags: byte, commitLSN: uint64, endLSN: uint64, time: uint64)
    | RelationInfo(rel: Relation)
    | Insert(oid: uint32, xid: uint32, namespace: seq<byte>, name: seq<byte>, image: seq<Column>, decoded: Cells<V>)
    | Update(oid: uint32, xid: uint32, namespace: seq<byte>, name: seq<byte>, oldType: byte,
             oldImage: Option<seq<Column>>, oldDecoded: Cells<V>, image: seq<Column>, decoded: Cells<V>)
    | Delete(oid: uint32, xid: uint32, namespace: seq<byte>, name: seq<byte>, oldType: byte,
             before: seq<Column>, oldDecoded: Cells<V>)

  // ---------- one message ----------

  datatype Header = Header(xid: uint32, oid: uint32, skip: nat)

  function ReadHeader(data: seq<byte>, streamed: bool, min: nat): Result<Header, DecodeError> {
    if streamed then
      if |data| < min + 4 then Err(TooShort)
      else
        var xid :- ReadU32(data, 1);
        var oid :- ReadU32(data, 5);
        Ok(Header(xid, oid, 9))
    else
      if |data| < min then Err(TooShort)
      else
        var oid :- ReadU32(data, 1);
        Ok(Header(0, oid, 5))
  }

  function ReadRelationColumn(data: seq<byte>, at: nat): Result<(RelationColumn, nat), DecodeError> {
    var flags :- ReadByte(data, at);
    var name :- ReadName(data, at + 1);
    var dataType :- ReadU32(data, name.1);
    var typeModifier :- ReadU32(data, name.1 + 4);
    Ok((RelationColumn(flags, name.0, dataType, typeModifier), name.1 + 8))
  }

  function ReadRelationColumns(data: seq<byte>, at: nat, n: nat): Result<seq<RelationColumn>, DecodeError>
    decreases n
  {
    if n == 0 then Ok([])
    else
      var first :- ReadRelationColumn(data, at);
      var rest :- ReadRelationColumns(data, first.1, n - 1);
      Ok([first.0] + rest)
  }

  function ReadRelation(data: seq<byte>, streamed: bool): Result<Relation, DecodeError> {
    var h :- ReadHeader(data, streamed, 8);
    var namespace :- ReadName(data, h.skip);
    var name :- ReadName(data, namespace.1);
    var replicaId :- ReadByte(data, name.1);
    var n :- ReadU16(data, name.1 + 1);
    var columns :- ReadRelationColumns(data, name.1 + 3, n);
    Ok(Relation(h.oid, h.xid, namespace.0, name.0, replicaId, columns))
  }

  function WithColumns(head: seq<RelationColumn>, rest: Result<seq<RelationColumn>, DecodeError>)
    : Result<seq<RelationColumn>, DecodeError>
  {
    match rest
    case Err(e) => Err(e)
    case Ok(cols) => Ok(head + cols)
  }

  lemma WithColumnsTwice(a: seq<RelationColumn>, b: seq<RelationColumn>, rest: Result<seq<RelationColumn>, DecodeError>)
    ensures WithColumns(a, WithColumns(b, rest)) == WithColumns(a + b, rest)
  {
    if rest.Ok? {
      assert a + (b + rest.value) == a + b + rest.value;
    }
  }

  lemma RelationColumnsUnrolled(data: seq<byte>, at: nat, n: nat)
    requires n > 0
    ensures ReadRelationColumns(data, at, n) ==
            match ReadRelationColumn(data, at)
            case Err(e) => Err(e)
            case Ok(first) => WithColumns([first.0], ReadRelationColumns(data, first.1, n - 1))
  {
  }

  lemma NoRelationColumns(data: seq<byte>, at: nat)
    ensures ReadRelationColumns(data, at, 0) == Ok([])
  {
  }

  method NewRelation(data: seq<byte>, streamed: bool) returns (r: Result<Relation, DecodeError>)
    ensures r == ReadRelation(data, streamed)
  {
    hide ReadRelationColumns, ReadByte, ReadU16, ReadU32, ReadName, ReadHeader;
    var h :- ReadHeader(data, streamed, 8);
    var skipByte := h.skip;
    var namespace :- ReadName(data, skipByte);
    skipByte := namespace.1;
    var name :- ReadName(data, skipByte);
    skipByte := name.1;
    var replicaId :- ReadByte(data, skipByte);
    skipByte := skipByte + 1;
    var n :- ReadU16(data, skipByte);
    skipByte := skipByte + 2;
    var columns: seq<RelationColumn> := [];
    ghost var all := ReadRelationColumns(data, skipByte, n);
    assert all == WithColumns([], all) by {
      if all.Ok? {
        assert [] + all.value == all.value;
      }
    }
    for i := 0 to n
      invariant all == WithColumns(columns, ReadRelationColumns(data, skipByte, n - i))
    {
      RelationColumnsUnrolled(data, skipByte, n - i);
      var flags :- ReadByte(data, skipByte);
      skipByte := skipByte + 1;
      var colName :- ReadName(data, skipByte);
      skipByte := colName.1;
      var dataType :- ReadU32(data, skipByte);
      skipByte := skipByte + 4;
      var typeModifier :- ReadU32(data, skipByte);
      skipByte := skipByte + 4;
      var col := RelationColumn(flags, colName.0, dataType, typeModifier);
      WithColumnsTwice(columns, [col], ReadRelationColumns(data, skipByte, n - i - 1));
      columns := columns + [col];
    }
    NoRelationColumns(data, skipByte);
    assert columns + [] == columns;
    return Ok(Relation(h.oid, h.xid, namespace.0, name.0, replicaId, columns));
  }

  // The image of an update: what was sent, with omitted columns taken from the old image.
  datatype UpdateBody = UpdateBody(header: Header, oldType: byte, oldImage: Option<seq<Column>>, image: seq<Column>)

  function ReadUpdate(data: seq<byte>, streamed: bool): Result<UpdateBody, DecodeError> {
    var h :- ReadHeader(data, streamed, 7);
    var oldType :- ReadByte(data, h.skip);
    if oldType == KEY || oldType == OLD then
      var before :- NewData(data, oldType, h.skip);
      var sent :- NewData(data, NEW, before.1);
      var image :- Substituted(sent.0, before.0);
      Ok(UpdateBody(h, oldType, Some(before.0), image))
    else if oldType == NEW then
      var sent :- NewData(data, NEW, h.skip);
      Ok(UpdateBody(h, oldType, None, sent.0))
    else Err(WrongTag)
  }

  method DecodeUpdate(data: seq<byte>, streamed: bool) returns (r: Result<UpdateBody, DecodeError>)
    ensures r == ReadUpdate(data, streamed)
  {
    var h :- ReadHeader(data, streamed, 7);
    var skipByte := h.skip;
    var oldType :- ReadByte(data, skipByte);
    if oldType != KEY && oldType != OLD && oldType != NEW {
      return Err(WrongTag);
    }
    var oldImage: Option<seq<Column>> := None;
    if oldType == KEY || oldType == OLD {
      var before := NewTuple(data, oldType, skipByte);
      if before.Err? {
        return Err(before.error);
      }
      oldImage := Some(before.value.0);
      skipByte := before.value.1;
    }
    var sent := NewTuple(data, NEW, skipByte);
    if sent.Err? {
      return Err(sent.error);
    }
    var image := sent.value.0;
    if oldImage.Some? {
      var substituted := SubstituteToast(image, oldImage.value);
      if substituted.Err? {
        return Err(substituted.error);
      }
      image := substituted.value;
    }
    return Ok(UpdateBody(h, oldType, oldImage, image));
  }

  // ---------- dispatch ----------

  datatype DecoderState = DecoderState(streamed: bool, relations: map<uint32, Relation>)

  function Cached(relations: map<uint32, Relation>, oid: uint32): Result<Relation, DecodeError> {
    if oid in relations then Ok(relations[oid]) else Err(NoRelation)
  }

  function NewInsert<V>(st: DecoderState, data: seq<byte>, parse: Parser<V>): Result<Msg<V>, DecodeError> {
    var h :- ReadHeader(data, st.streamed, 9);
    var t :- NewData(data, NEW, h.skip);
    var rel :- Cached(st.relations, h.oid);
    var decoded :- Named(t.0, |t.0|, rel.columns, parse);
    Ok(Insert(h.oid, h.xid, rel.namespace, rel.name, t.0, decoded))
  }

  function NewUpdate<V>(st: DecoderState, data: seq<byte>, parse: Parser<V>): Result<Msg<V>, DecodeError> {
    var u :- ReadUpdate(data, st.streamed);
    var rel :- Cached(st.relations, u.header.oid);
    var oldDecoded :- match u.oldImage
      case None => Ok(map[])
      case Some(before) => Named(before, |before|, rel.columns, parse);
    var decoded :- Named(u.image, |u.image|, rel.columns, parse);
    Ok(Update(u.header.oid, u.header.xid, rel.namespace, rel.name, u.oldType, u.oldImage, oldDecoded, u.image, decoded))
  }

  function NewDelete<V>(st: DecoderState, data: seq<byte>, parse: Parser<V>): Result<Msg<V>, DecodeError> {
    var h :- ReadHeader(data, st.streamed, 7);
    var oldType :- ReadByte(data, h.skip);
    var t :- NewData(data, oldType, h.skip);
    var rel :- Cached(st.relations, h.oid);
    var oldDecoded :- Named(t.0, |t.0|, rel.columns, parse);
    Ok(Delete(h.oid, h.xid, rel.namespace, rel.name, oldType, t.0, oldDecoded))
  }

  function NewBegin<V>(data: seq<byte>): Result<Msg<V>, DecodeError> {
    if |data| < 20 then Err(TooShort)
    else
      var finalLSN :- ReadU64(data, 1);
      var commitTime :- ReadU64(data, 9);
      var xid :- ReadU32(data, 17);
      Ok(Begin(finalLSN, commitTime, xid))
  }

  function NewCommit<V>(data: seq<byte>): Result<Msg<V>, DecodeError> {
    if |data| < 25 then Err(TooShort)
    else
      var flags :- ReadByte(data, 1);
      var commitLSN :- ReadU64(data, 2);
      var endLSN :- ReadU64(data, 10);
      var time :- ReadU64(data, 18);
      Ok(Commit(flags, commitLSN, endLSN, time))
  }

  function Lift<V>(r: Result<Msg<V>, DecodeError>): Result<Option<Msg<V>>, DecodeError> {
    match r
    case Ok(m) => Ok(Some(m))
    case Err(e) => Err(e)
  }

  // What a message does to the decoder, and what is handed on: nothing for stream control.
  function Dispatch<V>(st: DecoderState, data: seq<byte>, parse: Parser<V>)
    : (DecoderState, Result<Option<Msg<V>>, DecodeError>)
  {
    if data == [] then (st, Err(Panic))
    else if data[0] == BEGIN then (st, Lift(NewBegin(data)))
    else if data[0] == COMMIT then (st, Lift(NewCommit(data)))
    else if data[0] == INSERT then (st, Lift(NewInsert(st, data, parse)))
    else if data[0] == UPDATE then (st, Lift(NewUpdate(st, data, parse)))
    else if data[0] == DELETE then (st, Lift(NewDelete(st, data, parse)))
    else if data[0] == STREAM_STOP || data[0] == STREAM_ABORT || data[0] == STREAM_COMMIT then
      (st.(streamed := false), Ok(None))
    else if data[0] == RELATION then
      match ReadRelation(data, st.streamed)
      case Ok(rel) => (st.(relations := st.relations[rel.oid := rel]), Ok(Some(RelationInfo(rel))))
      case Err(e) => (st, Err(e))
    else if data[0] == STREAM_START then (st.(streamed := true), Ok(None))
    else (st, Err(Unsupported))
  }

  class Decoder<!V> {
    var streamedTransaction: bool
    var relation: map<uint32, Relation>
    const parse: Parser<V>

    constructor (parse: Parser<V>)
      ensures State() == DecoderState(false, map[]) && this.parse == parse
    {
      streamedTransaction, relation, this.parse := false, map[], parse;
    }

    function State(): DecoderState
      reads this
    {
      DecoderState(streamedTransaction, relation)
    }

    method New(data: seq<byte>) returns (r: Result<Option<Msg<V>>, DecodeError>)
      modifies this
      ensures (State(), r) == Dispatch(old(State()), data, parse)
    {
      if data == [] {
        return Err(Panic);
      }
      var kind := data[0];
      if kind == BEGIN {
        r := Lift(NewBegin(data));
      } else if kind == COMMIT {
        r := Lift(NewCommit(data));
      } else if kind == INSERT {
        r := ReceiveInsert(data);
      } else if kind == UPDATE {
        r := ReceiveUpdate(data);
      } else if kind == DELETE {
        r := ReceiveDelete(data);
      } else if kind == STREAM_STOP || kind == STREAM_ABORT || kind == STREAM_COMMIT {
        streamedTransaction := false;
        r := Ok(None);
      } else if kind == RELATION {
        var msg := NewRelation(data, streamedTransaction);
        if msg.Err? {
          return Err(msg.error);
        }
        relation := relation[msg.value.oid := msg.value];
        r := Ok(Some(RelationInfo(msg.value)));
      } else if kind == STREAM_START {
        streamedTransaction := true;
        r := Ok(None);
      } else {
        r := Err(Unsupported);
      }
    }

    method ReceiveInsert(data: seq<byte>) returns (r: Result<Option<Msg<V>>, DecodeError>)
      ensures r == Lift(NewInsert(State(), data, parse))
    {
      var h :- ReadHeader(data, streamedTransaction, 9);
      var t := NewTuple(data, NEW, h.skip);
      if t.Err? {
        return Err(t.error);
      }
      var rel :- Cached(relation, h.oid);
      var decoded := DecodeWithColumn(t.value.0, rel.columns, parse);
      if decoded.Err? {
        return Err(decoded.error);
      }
      return Ok(Some(Insert(h.oid, h.xid, rel.namespace, rel.name, t.value.0, decoded.value)));
    }

    method ReceiveUpdate(data: seq<byte>) returns (r: Result<Option<Msg<V>>, DecodeError>)
      ensures r == Lift(NewUpdate(State(), data, parse))
    {
      var body := DecodeUpdate(data, streamedTransaction);
      if body.Err? {
        return Err(body.error);
      }
      var u := body.value;
      var rel :- Cached(relation, u.header.oid);
      var oldDecoded: Cells<V> := map[];
      if u.oldImage.Some? {
        var named := DecodeWithColumn(u.oldImage.value, rel.columns, parse);
        if named.Err? {
          return Err(named.error);
        }
        oldDecoded := named.value;
      }
      var decoded := DecodeWithColumn(u.image, rel.columns, parse);
      if decoded.Err? {
        return Err(decoded.error);
      }
      return Ok(Some(Update(u.header.oid, u.header.xid, rel.namespace, rel.name, u.oldType, u.oldImage,
                            oldDecoded, u.image, decoded.value)));
    }

    method ReceiveDelete(data: seq<byte>) returns (r: Result<Option<Msg<V>>, DecodeError>)
      ensures r == Lift(NewDelete(State(), data, parse))
    {
      var h :- ReadHeader(data, streamedTransaction, 7);
      var oldType :- ReadByte(data, h.skip);
      var t := NewTuple(data, oldType, h.skip);
      if t.Err? {
        return Err(t.error);
      }
      var rel :- Cached(relation, h.oid);
      var oldDecoded := DecodeWithColumn(t.value.0, rel.columns, parse);
      if oldDecoded.Err? {
        return Err(oldDecoded.error);
      }
      return Ok(Some(Delete(h.oid, h.xid, rel.namespace, rel.name, oldType, t.value.0, oldDecoded.value)));
    }
  }
}
