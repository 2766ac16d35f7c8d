/** Row images on the wire: columns that are null, unchanged-TOAST, text or binary, and what a
    decoded image says about the row. */
module Tuples {
  import opened Wrappers
  import opened Bytes

  const NULL: byte := 0x6E    // 'n'
  const TOAST: byte := 0x75   // 'u'
  const TEXT: byte := 0x74    // 't'
  const BINARY: byte := 0x62  // 'b'

  datatype Column = Column(kind: byte, data: seq<byte>)

  predicate HasData(kind: byte) {
    kind == TEXT || kind == BINARY
  }

  // length bytes from the cursor on, padded with zeros when the message ends before.
  function Copied(data: seq<byte>, at: nat, length: nat): (s: seq<byte>)
    requires at <= |data|
    ensures |s| == length
    ensures forall i :: 0 <= i < length ==> s[i] == if at + i < |data| then data[at + i] else 0
  {
    if at + length <= |data| then data[at..at + length]
    else data[at..] + seq(at + length - |data|, _ => 0)
  }

  // One column and the cursor behind it. A kind that is none of the four has no bytes.
  function ReadColumn(data: seq<byte>, at: nat): (r: Result<(Column, nat), DecodeError>)
    ensures r.Ok? ==> at < r.value.1
    ensures r.Err? ==> r.error.Panic?
  {
    var kind :- ReadByte(data, at);
    if HasData(kind) then
      var length :- ReadU32(data, at + 1);
      Ok((Column(kind, Copied(data, at + 5, length)), at + 5 + length))
    else Ok((Column(kind, []), at + 1))
  }

  function ReadColumns(data: seq<byte>, at: nat, n: nat): (r: Result<(seq<Column>, nat), DecodeError>)
    ensures r.Ok? ==> |r.value.0| == n && at <= r.value.1
    ensures r.Err? ==> r.error.Panic?
    decreases n
  {
    if n == 0 then Ok(([], at))
    else
      var first :- ReadColumn(data, at);
      var rest :- ReadColumns(data, first.1, n - 1);
      Ok(([first.0] + rest.0, rest.1))
  }

  function NewData(data: seq<byte>, tag: byte, at: nat): Result<(seq<Column>, nat), DecodeError> {
    var found :- ReadByte(data, at);
    if found != tag then Err(WrongTag)
    else
      var n :- ReadU16(data, at + 1);
      ReadColumns(data, at + 3, n)
  }

  class Data {
    var columns: seq<Column>
    var skipByte: nat
    var columnNumber: nat

    constructor ()
      ensures columns == []
    {
      columns, skipByte, columnNumber := [], 0, 0;
    }

    // The cursor loop: read the column count, then that many columns.
    method Decode(data: seq<byte>, at: nat) returns (r: Result<(), DecodeError>)
      requires columns == []
      modifies this
      ensures r.Ok? ==> ReadU16(data, at) == Ok(columnNumber)
                        && ReadColumns(data, at + 2, columnNumber) == Ok((columns, skipByte))
      ensures r.Err? ==> r.error.Panic?
                         && (ReadU16(data, at).Err? || ReadColumns(data, at + 2, ReadU16(data, at).value).Err?)
    {
      hide ReadColumns, ReadU16, ReadU32, Copied;
      columnNumber :- ReadU16(data, at);
      var skip: nat := at + 2;
      AppendedNothing(ReadColumns(data, skip, columnNumber));
      for i := 0 to columnNumber
        invariant columnNumber == ReadU16(data, at).Extract()
        invariant ReadColumns(data, at + 2, columnNumber) ==
                  Appended(columns, ReadColumns(data, skip, columnNumber - i))
      {
        ReadColumnsUnrolled(data, skip, columnNumber - i);
        var kind :- ReadByte(data, skip);
        skip := skip + 1;
        var col := Column(kind, []);
        if kind == TEXT || kind == BINARY {
          var length :- ReadU32(data, skip);
          skip := skip + 4;
          col := Column(kind, Copied(data, skip, length));
          skip := skip + length;
        }
        AppendedTwice(columns, [col], ReadColumns(data, skip, columnNumber - i - 1));
        columns := columns + [col];
      }
      ReadNoColumns(data, skip);
      assert columns + [] == columns;
      skipByte := skip;
      return Ok(());
    }
  }

  method NewTuple(data: seq<byte>, tag: byte, at: nat) returns (r: Result<(seq<Column>, nat), DecodeError>)
    ensures r == NewData(data, tag, at)
  {
    var found :- ReadByte(data, at);
    if found != tag {
      return Err(WrongTag);
    }
    var d := new Data();
    var done := d.Decode(data, at + 1);
    if done.Err? {
      return Err(done.error);
    }
    return Ok((d.columns, d.skipByte));
  }

  function Appended(head: seq<Column>, rest: Result<(seq<Column>, nat), DecodeError>)
    : Result<(seq<Column>, nat), DecodeError>
  {
    match rest
    case Err(e) => Err(e)
    case Ok((cols, at)) => Ok((head + cols, at))
  }

  lemma ReadColumnsUnrolled(data: seq<byte>, at: nat, n: nat)
    requires n > 0
    ensures ReadColumns(data, at, n) ==
            match ReadColumn(data, at)
            case Err(e) => Err(e)
            case Ok(first) => Appended([first.0], ReadColumns(data, first.1, n - 1))
  {
  }

  lemma ReadNoColumns(data: seq<byte>, at: nat)
    ensures ReadColumns(data, at, 0) == Ok(([], at))
  {
  }

  lemma AppendedNothing(rest: Result<(seq<Column>, nat), DecodeError>)
    ensures Appended([], rest) == rest
  {
    if rest.Ok? {
      assert [] + rest.value.0 == rest.value.0;
    }
  }

  lemma AppendedTwice(a: seq<Column>, b: seq<Column>, rest: Result<(seq<Column>, nat), DecodeError>)
    ensures Appended(a, Appended(b, rest)) == Appended(a + b, rest)
  {
    if rest.Ok? {
      assert a + (b + rest.value.0) == a + b + rest.value.0;
    }
  }

  // ---------- encoding ----------

  predicate IsColumn(c: Column) {
    if HasData(c.kind) then |c.data| < 0x1_0000_0000 else (c.kind == NULL || c.kind == TOAST) && c.data == []
  }

  predicate IsTuple(cols: seq<Column>) {
    |cols| < 0x1_0000 && forall i :: 0 <= i < |cols| ==> IsColumn(cols[i])
  }

  function PutColumn(c: Column): seq<byte>
    requires IsColumn(c)
  {
    [c.kind] + if HasData(c.kind) then PutU32(|c.data|) + c.data else []
  }

  function PutColumns(cols: seq<Column>): seq<byte>
    requires forall i :: 0 <= i < |cols| ==> IsColumn(cols[i])
  {
    if cols == [] then [] else PutColumn(cols[0]) + PutColumns(cols[1..])
  }

  function PutTuple(tag: byte, cols: seq<Column>): seq<byte>
    requires IsTuple(cols)
  {
    [tag] + PutU16(|cols|) + PutColumns(cols)
  }

  lemma ColumnBack(data: seq<byte>, at: nat, c: Column)
    requires IsColumn(c) && At(data, at, PutColumn(c))
    ensures ReadColumn(data, at) == Ok((c, at + |PutColumn(c)|))
  {
    AtIndex(data, at, PutColumn(c), 0);
    if HasData(c.kind) {
      hide PutU32, ReadU32;
      AtSplit(data, at, [c.kind], PutU32(|c.data|) + c.data);
      AtSplit(data, at + 1, PutU32(|c.data|), c.data);
      U32Back(data, at + 1, |c.data|);
    }
  }

  lemma {:induction false} ColumnsBack(data: seq<byte>, at: nat, cols: seq<Column>)
    requires (forall i :: 0 <= i < |cols| ==> IsColumn(cols[i])) && At(data, at, PutColumns(cols))
    ensures ReadColumns(data, at, |cols|) == Ok((cols, at + |PutColumns(cols)|))
    decreases |cols|
  {
    hide At, IsColumn, PutColumn, ReadColumn;
    if cols != [] {
      AtSplit(data, at, PutColumn(cols[0]), PutColumns(cols[1..]));
      ColumnBack(data, at, cols[0]);
      ColumnsBack(data, at + |PutColumn(cols[0])|, cols[1..]);
      assert [cols[0]] + cols[1..] == cols;
    }
  }

  /** A tuple anywhere in a message is read back exactly, and the cursor ends behind it. */
  lemma TupleBack(data: seq<byte>, at: nat, tag: byte, cols: seq<Column>)
    requires IsTuple(cols) && At(data, at, PutTuple(tag, cols))
    ensures NewData(data, tag, at) == Ok((cols, at + |PutTuple(tag, cols)|))
  {
    hide PutU16, ReadU16, PutColumns, ReadColumns;
    AtSplit(data, at, [tag] + PutU16(|cols|), PutColumns(cols));
    AtSplit(data, at, [tag], PutU16(|cols|));
    AtIndex(data, at, [tag], 0);
    U16Back(data, at + 1, |cols|);
    assert |PutU16(|cols|)| == 2 by { PutU16Length(|cols|); }
    ColumnsBack(data, at + 3, cols);
  }

  lemma PutU16Length(n: nat)
    requires n < 0x1_0000
    ensures |PutU16(n)| == 2
  {
  }

  // ---------- unchanged TOAST columns ----------

  function Substituted(image: seq<Column>, before: seq<Column>): Result<seq<Column>, DecodeError> {
    if forall i :: |before| <= i < |image| ==> image[i].kind != TOAST
    then Ok(seq(|image|, (i: nat) requires i < |image| =>
      if image[i].kind == TOAST && i < |before| then before[i] else image[i]))
    else Err(Panic)
  }

  method SubstituteToast(image: seq<Column>, before: seq<Column>) returns (r: Result<seq<Column>, DecodeError>)
    ensures r == Substituted(image, before)
    ensures r.Err? <==> exists i :: |before| <= i < |image| && image[i].kind == TOAST
    ensures r.Err? ==> r.error == Panic
    ensures r.Ok? ==> |r.value| == |image| && forall i :: 0 <= i < |image| ==>
              r.value[i] == if image[i].kind == TOAST then before[i] else image[i]
  {
    var cols := image;
    for i := 0 to |image|
      invariant |cols| == |image|
      invariant forall j :: |before| <= j < i ==> image[j].kind != TOAST
      invariant forall j :: 0 <= j < i ==>
                  cols[j] == if image[j].kind == TOAST && j < |before| then before[j] else image[j]
      invariant forall j :: i <= j < |image| ==> cols[j] == image[j]
    {
      if cols[i].kind == TOAST {
        if i >= |before| {
          return Err(Panic);
        }
        cols := cols[i := before[i]];
      }
    }
    assert cols == Substituted(image, before).Extract();
    return Ok(cols);
  }

  // A whole row: every column is null or has its text.
  predicate IsRow(cols: seq<Column>) {
    IsTuple(cols) && forall i :: 0 <= i < |cols| ==> cols[i].kind == NULL || cols[i].kind == TEXT
  }

  // The image the server sends when the columns in toasted were not changed by the update.
  function Toasted(row: seq<Column>, toasted: set<nat>): (s: seq<Column>)
    ensures |s| == |row|
    ensures IsTuple(row) ==> IsTuple(s)
  {
    seq(|row|, (i: nat) requires i < |row| => if i in toasted then Column(TOAST, []) else row[i])
  }

  // The image of the columns of the replica identity: the others are sent as null.
  function KeyImage(row: seq<Column>, key: set<nat>): (s: seq<Column>)
    ensures |s| == |row|
    ensures IsTuple(row) ==> IsTuple(s)
  {
    seq(|row|, (i: nat) requires i < |row| => if i in key then row[i] else Column(NULL, []))
  }

  /** Substitution recovers the new row if and only if the old image has the new row's value in
      every column that was left out. */
  lemma SubstitutionIff(row: seq<Column>, before: seq<Column>, toasted: set<nat>)
    requires IsRow(row)
    ensures Substituted(Toasted(row, toasted), before) == Ok(row) <==>
            forall i: nat :: i in toasted && i < |row| ==> i < |before| && before[i] == row[i]
  {
    var sent := Toasted(row, toasted);
    var r := Substituted(sent, before);
    if forall i: nat :: i in toasted && i < |row| ==> i < |before| && before[i] == row[i] {
      assert r.Ok?;
      assert r.value == row;
    } else {
      var i: nat :| i in toasted && i < |row| && !(i < |before| && before[i] == row[i]);
      assert sent[i].kind == TOAST;
      assert r.Ok? ==> i < |before| && r.value[i] == before[i];
    }
  }

  /** With the full old row, leaving out unchanged columns loses nothing. */
  lemma FullOldRowRecovers(before: seq<Column>, row: seq<Column>, toasted: set<nat>)
    requires IsRow(row) && |before| == |row|
    requires forall i: nat :: i in toasted && i < |row| ==> before[i] == row[i]
    ensures Substituted(Toasted(row, toasted), before) == Ok(row)
  {
    SubstitutionIff(row, before, toasted);
  }

  /** With only the key columns of the old row, an unchanged column that is not in the key is read
      as null: the row is recovered if and only if every such column is null, although the
      columns left out are exactly those that did not change. */
  lemma KeyImageRecoversIff(before: seq<Column>, row: seq<Column>, key: set<nat>, toasted: set<nat>)
    requires IsRow(row) && |before| == |row|
    requires forall i: nat :: i in toasted && i < |row| ==> before[i] == row[i]
    ensures Substituted(Toasted(row, toasted), KeyImage(before, key)) == Ok(row) <==>
            forall i: nat :: i in toasted && i < |row| && i !in key ==> row[i] == Column(NULL, [])
  {
    SubstitutionIff(row, KeyImage(before, key), toasted);
    var image := KeyImage(before, key);
    forall i: nat | i < |row| && i in toasted
      ensures image[i] == row[i] <==> (i !in key ==> row[i] == Column(NULL, []))
    {
    }
  }

  // A row with a key and a text that did not change, of which the server sends the key and omits the
  // text: the text is read as null.
  lemma KeyImageNullsText(id: seq<byte>, text: seq<byte>)
    requires |id| < 0x1_0000_0000 && |text| < 0x1_0000_0000
    ensures var row := [Column(TEXT, id), Column(TEXT, text)];
            IsRow(row) && Substituted(Toasted(row, {1}), KeyImage(row, {0})) == Ok([row[0], Column(NULL, [])])
  {
    var row := [Column(TEXT, id), Column(TEXT, text)];
    var r := Substituted(Toasted(row, {1}), KeyImage(row, {0}));
    assert r.Ok? && |r.value| == 2;
    assert r.value == [row[0], Column(NULL, [])];
  }

  // ---------- columns by name ----------

  datatype RelationColumn = RelationColumn(flags: byte, name: seq<byte>, dataType: uint32, typeModifier: uint32)

  // Text values of a type; None when the text is not of that type.
  type Parser<!V> = (seq<byte>, uint32) -> Option<V>

  // The images of the first n columns by name; unchanged-TOAST and binary columns are left out.
  function Named<V>(cols: seq<Column>, n: nat, rel: seq<RelationColumn>, parse: Parser<V>)
    : (r: Result<map<seq<byte>, Option<V>>, DecodeError>)
    requires n <= |cols|
    ensures r.Err? ==> r.error == Panic || r.error == BadText
  {
    if n == 0 then Ok(map[])
    else
      var before :- Named(cols, n - 1, rel, parse);
      if n > |rel| then Err(Panic)
      else if cols[n - 1].kind == NULL then Ok(before[rel[n - 1].name := None])
      else if cols[n - 1].kind == TEXT then
        match parse(cols[n - 1].data, rel[n - 1].dataType)
        case None => Err(BadText)
        case Some(v) => Ok(before[rel[n - 1].name := Some(v)])
      else Ok(before)
  }

  lemma {:induction false} NamedFails<V>(cols: seq<Column>, n: nat, m: nat, rel: seq<RelationColumn>, parse: Parser<V>)
    requires n <= m <= |cols| && Named(cols, n, rel, parse).Err?
    ensures Named(cols, m, rel, parse) == Named(cols, n, rel, parse)
    decreases m
  {
    if n < m {
      NamedFails(cols, n, m - 1, rel, parse);
    }
  }

  method DecodeWithColumn<V>(cols: seq<Column>, rel: seq<RelationColumn>, parse: Parser<V>)
    returns (r: Result<map<seq<byte>, Option<V>>, DecodeError>)
    ensures r == Named(cols, |cols|, rel, parse)
  {
    var decoded: map<seq<byte>, Option<V>> := map[];
    for idx := 0 to |cols|
      invariant Named(cols, idx, rel, parse) == Ok(decoded)
    {
      if idx >= |rel| {
        NamedFails(cols, idx + 1, |cols|, rel, parse);
        return Err(Panic);
      }
      var name := rel[idx].name;
      if cols[idx].kind == NULL {
        decoded := decoded[name := None];
      } else if cols[idx].kind == TEXT {
        var val := parse(cols[idx].data, rel[idx].dataType);
        if val == None {
          NamedFails(cols, idx + 1, |cols|, rel, parse);
          return Err(BadText);
        }
        decoded := decoded[name := val];
      }
    }
    return Ok(decoded);
  }

  predicate DistinctNames(rel: seq<RelationColumn>) {
    forall i, j :: 0 <= i < j < |rel| ==> rel[i].name != rel[j].name
  }

  ghost predicate Readable<V>(cols: seq<Column>, rel: seq<RelationColumn>, parse: Parser<V>) {
    |cols| <= |rel|
    && forall i :: 0 <= i < |cols| && cols[i].kind == TEXT ==> parse(cols[i].data, rel[i].dataType).Some?
  }

  // A text whose column type it does not fit.
  ghost predicate Unreadable<V>(cols: seq<Column>, rel: seq<RelationColumn>, parse: Parser<V>, i: nat) {
    i < |cols| && i < |rel| && cols[i].kind == TEXT && parse(cols[i].data, rel[i].dataType) == None
  }

  /** A row image is decoded if and only if it has no more columns than its relation and every text is
      readable. One unreadable text among the named columns refuses the whole message; otherwise an excess
      column ends the process. */
  lemma {:induction false} NamedIff<V>(cols: seq<Column>, n: nat, rel: seq<RelationColumn>, parse: Parser<V>)
    requires n <= |cols|
    ensures Named(cols, n, rel, parse) == Err(BadText) <==> exists i: nat :: i < n && Unreadable(cols, rel, parse, i)
    ensures Named(cols, n, rel, parse) == Err(Panic) <==>
            n > |rel| && forall i: nat :: i < n ==> !Unreadable(cols, rel, parse, i)
  {
    if n > 0 {
      NamedIff(cols, n - 1, rel, parse);
      assert (exists i: nat :: i < n && Unreadable(cols, rel, parse, i)) <==>
             Unreadable(cols, rel, parse, n - 1) || exists i: nat :: i < n - 1 && Unreadable(cols, rel, parse, i);
    }
  }

  // The meaning of column i under its name.
  ghost predicate Means<V>(m: map<seq<byte>, Option<V>>, c: Column, rc: RelationColumn, parse: Parser<V>) {
    if c.kind == NULL then rc.name in m && m[rc.name] == None
    else if c.kind == TEXT then rc.name in m && m[rc.name] == parse(c.data, rc.dataType)
    else rc.name !in m
  }

  /** Every column is found under its own name with its own value; a row image without omissions
      decodes to a map of all columns. */
  lemma {:induction false} NamedMeaning<V>(cols: seq<Column>, n: nat, rel: seq<RelationColumn>, parse: Parser<V>)
    requires n <= |cols| && DistinctNames(rel) && Readable(cols, rel, parse)
    ensures Named(cols, n, rel, parse).Ok?
    ensures var m := Named(cols, n, rel, parse).value;
            && (forall i :: 0 <= i < n ==> Means(m, cols[i], rel[i], parse))
            && (forall i :: n <= i < |rel| ==> rel[i].name !in m)
            && (forall x :: x in m ==> exists i :: 0 <= i < n && rel[i].name == x)
  {
    if n > 0 {
      NamedMeaning(cols, n - 1, rel, parse);
      var before, m := Named(cols, n - 1, rel, parse).value, Named(cols, n, rel, parse).value;
      forall i | 0 <= i < n ensures Means(m, cols[i], rel[i], parse) {
        assert i < n - 1 ==> Means(before, cols[i], rel[i], parse);
      }
      forall x | x in m ensures exists i :: 0 <= i < n && rel[i].name == x {
        if x in before {
          var i :| 0 <= i < n - 1 && rel[i].name == x;
          assert rel[i].name == x;
        } else {
          assert rel[n - 1].name == x;
        }
      }
    }
  }
}
