/** Byte strings and the big-endian integers in them. Reading outside a slice is Go's panic. */
module Bytes {
  import opened Wrappers

  type byte = x: int | 0 <= x < 256

  type uint32 = x: int | 0 <= x < 0x1_0000_0000
  type uint64 = x: int | 0 <= x < 0x1_0000_0000_0000_0000

  // Panic is not an error value: it ends the process.
  datatype DecodeError = TooShort | WrongTag | NoRelation | BadText | BadName | Unsupported | Panic

  function ReadByte(data: seq<byte>, at: nat): Result<byte, DecodeError> {
    if at < |data| then Ok(data[at]) else Err(Panic)
  }

  function ReadU16(data: seq<byte>, at: nat): (r: Result<nat, DecodeError>)
    ensures r.Ok? ==> r.value < 0x1_0000
    ensures r.Err? <==> |data| < at + 2
    ensures r.Err? ==> r.error.Panic?
  {
    if at + 2 <= |data| then
      var high: int, low: int := data[at], data[at + 1];
      Ok(high * 256 + low)
    else Err(Panic)
  }

  function ReadU32(data: seq<byte>, at: nat): (r: Result<uint32, DecodeError>)
    ensures r.Err? <==> |data| < at + 4
    ensures r.Err? ==> r.error.Panic?
  {
    var high :- ReadU16(data, at);
    var low :- ReadU16(data, at + 2);
    Ok(high * 0x1_0000 + low)
  }

  function ReadU64(data: seq<byte>, at: nat): Result<uint64, DecodeError> {
    var high :- ReadU32(data, at);
    var low :- ReadU32(data, at + 4);
    Ok(high * 0x1_0000_0000 + low)
  }

  // The bytes before the next NUL, and the place after it.
  function ReadName(data: seq<byte>, at: nat): (r: Result<(seq<byte>, nat), DecodeError>)
    ensures r.Ok? ==> at < r.value.1 <= |data|
    decreases |data| - at
  {
    if at > |data| then Err(Panic)
    else if at == |data| then Err(BadName)
    else if data[at] == 0 then Ok(([], at + 1))
    else
      var rest :- ReadName(data, at + 1);
      Ok(([data[at]] + rest.0, rest.1))
  }

  function PutU16(n: nat): seq<byte>
    requires n < 0x1_0000
  {
    [n / 256, n % 256]
  }

  function PutU32(n: uint32): (s: seq<byte>)
    ensures |s| == 4
  {
    PutU16(n / 0x1_0000) + PutU16(n % 0x1_0000)
  }

  function PutU64(n: uint64): (s: seq<byte>)
    ensures |s| == 8
  {
    PutU32(n / 0x1_0000_0000) + PutU32(n % 0x1_0000_0000)
  }

  function PutName(name: seq<byte>): seq<byte> {
    name + [0]
  }

  predicate IsName(name: seq<byte>) {
    0 !in name
  }

  // ---------- reading back what was put ----------

  // piece lies in data at this place.
  predicate At(data: seq<byte>, at: nat, piece: seq<byte>) {
    at + |piece| <= |data| && data[at..at + |piece|] == piece
  }

  lemma AtSplit(data: seq<byte>, at: nat, a: seq<byte>, b: seq<byte>)
    requires At(data, at, a + b)
    ensures At(data, at, a) && At(data, at + |a|, b)
  {
    var n, m := |a|, |b|;
    assert data[at..at + n + m][..n] == data[at..at + n];
    assert data[at..at + n + m][n..] == data[at + n..at + n + m];
    assert (a + b)[..n] == a && (a + b)[n..] == b;
  }

  lemma AtIndex(data: seq<byte>, at: nat, piece: seq<byte>, i: nat)
    requires At(data, at, piece) && i < |piece|
    ensures data[at + i] == piece[i]
  {
    assert data[at..at + |piece|][i] == data[at + i];
  }

  lemma ByteBack(data: seq<byte>, at: nat, b: byte)
    requires At(data, at, [b])
    ensures ReadByte(data, at) == Ok(b)
  {
    AtIndex(data, at, [b], 0);
  }

  lemma U16Back(data: seq<byte>, at: nat, n: nat)
    requires n < 0x1_0000 && At(data, at, PutU16(n))
    ensures ReadU16(data, at) == Ok(n)
  {
    AtIndex(data, at, PutU16(n), 0);
    AtIndex(data, at, PutU16(n), 1);
  }

  lemma U32Back(data: seq<byte>, at: nat, n: uint32)
    requires At(data, at, PutU32(n))
    ensures ReadU32(data, at) == Ok(n)
  {
    var high, low := n / 0x1_0000, n % 0x1_0000;
    AtSplit(data, at, PutU16(high), PutU16(low));
    U16Back(data, at, high);
    U16Back(data, at + 2, low);
  }

  lemma U64Back(data: seq<byte>, at: nat, n: uint64)
    requires At(data, at, PutU64(n))
    ensures ReadU64(data, at) == Ok(n)
  {
    hide ReadU32, PutU32;
    var high, low := n / 0x1_0000_0000, n % 0x1_0000_0000;
    AtSplit(data, at, PutU32(high), PutU32(low));
    U32Back(data, at, high);
    U32Back(data, at + 4, low);
  }

  lemma {:induction false} NameBack(data: seq<byte>, at: nat, name: seq<byte>)
    requires IsName(name) && At(data, at, PutName(name))
    ensures ReadName(data, at) == Ok((name, at + |name| + 1))
    decreases |name|
  {
    AtIndex(data, at, PutName(name), 0);
    if name != [] {
      assert PutName(name) == [name[0]] + PutName(name[1..]);
      AtSplit(data, at, [name[0]], PutName(name[1..]));
      NameBack(data, at + 1, name[1..]);
      assert [name[0]] + name[1..] == name;
    }
  }
}
