/** The encoder produces the byte strings that the repository's own tests give to the decoder. */
module WireBytes {
  import opened Wrappers
  import opened Bytes
  import opened Tuples
  import opened Messages
  import opened WireStream

  const TABLE: uint32 := 16390

  lemma TwoBytes(n: nat, a: byte, b: byte)
    requires n < 0x1_0000 && n == (a as int) * 256 + b as int
    ensures PutU16(n) == [a, b]
  {
  }

  lemma FourBytes(n: uint32, a: byte, b: byte, c: byte, d: byte)
    requires n == (((a as int) * 256 + b as int) * 256 + c as int) * 256 + d as int
    ensures PutU32(n) == [a, b, c, d]
  {
    TwoBytes(n / 0x1_0000, a, b);
    TwoBytes(n % 0x1_0000, c, d);
  }

  lemma TextColumn(text: seq<byte>)
    requires |text| < 256
    ensures IsColumn(Column(TEXT, text)) && PutColumn(Column(TEXT, text)) == [116, 0, 0, 0, |text|] + text
  {
    FourBytes(|text|, 0, 0, 0, |text|);
  }

  lemma TwoTexts(tag: byte, a: seq<byte>, b: seq<byte>)
    requires |a| < 256 && |b| < 256
    ensures var cols := [Column(TEXT, a), Column(TEXT, b)];
            && IsTuple(cols)
            && PutTuple(tag, cols) == [tag, 0, 2] + ([116, 0, 0, 0, |a|] + a) + ([116, 0, 0, 0, |b|] + b)
  {
    hide PutColumn, PutU16;
    var cols := [Column(TEXT, a), Column(TEXT, b)];
    TextColumn(a);
    TextColumn(b);
    TwoBytes(2, 0, 2);
    assert cols[1..] == [Column(TEXT, b)] && cols[1..][1..] == [];
    assert PutColumns(cols[1..][1..]) == [];
    assert PutColumns(cols[1..]) == PutColumn(cols[1]) + [];
    assert PutColumns(cols) == PutColumn(cols[0]) + PutColumn(cols[1]);
  }

  lemma TableHeader(kind: byte)
    ensures Start(kind, None, TABLE) == [kind, 0, 0, 64, 6]
  {
    FourBytes(TABLE, 0, 0, 64, 6);
  }

  lemma InsertBytes()
    ensures var m := WInsert(TABLE, [Column(TEXT, [54, 48, 53]), Column(TEXT, [102, 111, 111])]);
            Legal(m, None) && Put(m, None) ==
            [73, 0, 0, 64, 6, 78, 0, 2, 116, 0, 0, 0, 3, 54, 48, 53, 116, 0, 0, 0, 3, 102, 111, 111]
  {
    hide PutTuple, Start;
    TableHeader(73);
    TwoTexts(78, [54, 48, 53], [102, 111, 111]);
  }

  lemma DeleteBytes()
    ensures var m := WDelete(TABLE, OLD, [Column(TEXT, [54, 52, 53]), Column(TEXT, [102, 111, 111])]);
            Legal(m, None) && Put(m, None) ==
            [68, 0, 0, 64, 6, 79, 0, 2, 116, 0, 0, 0, 3, 54, 52, 53, 116, 0, 0, 0, 3, 102, 111, 111]
  {
    hide PutTuple, Start;
    TableHeader(68);
    TwoTexts(79, [54, 52, 53], [102, 111, 111]);
  }

  lemma UpdateBytes()
    ensures var before := [Column(TEXT, [53, 51]), Column(TEXT, [98, 97, 114, 50])];
            var m := WUpdate(TABLE, Some((OLD, before)), [Column(TEXT, [53, 51]), Column(TEXT, [98, 97, 114, 53])]);
            Legal(m, None) && Put(m, None) ==
            [85, 0, 0, 64, 6]
            + ([79, 0, 2, 116, 0, 0, 0, 2, 53, 51, 116, 0, 0, 0, 4, 98, 97, 114, 50]
               + [78, 0, 2, 116, 0, 0, 0, 2, 53, 51, 116, 0, 0, 0, 4, 98, 97, 114, 53])
  {
    hide PutTuple, Start, IsTuple;
    TableHeader(85);
    RowBytes(79, 50);
    RowBytes(78, 53);
  }

  lemma RowBytes(tag: byte, last: byte)
    ensures var row := [Column(TEXT, [53, 51]), Column(TEXT, [98, 97, 114, last])];
            IsTuple(row) && PutTuple(tag, row) ==
            [tag, 0, 2, 116, 0, 0, 0, 2, 53, 51, 116, 0, 0, 0, 4, 98, 97, 114, last]
  {
    hide PutTuple;
    TwoTexts(tag, [53, 51], [98, 97, 114, last]);
  }

  lemma RelationColumns()
    ensures var id := RelationColumn(1, [105, 100], 23, 0xFFFF_FFFF);
            var name := RelationColumn(0, [110, 97, 109, 101], 25, 0xFFFF_FFFF);
            PutRelationColumns([id, name]) ==
            [1, 105, 100, 0, 0, 0, 0, 23, 255, 255, 255, 255] + [0, 110, 97, 109, 101, 0, 0, 0, 0, 25, 255, 255, 255, 255]
  {
    hide PutU32;
    FourBytes(23, 0, 0, 0, 23);
    FourBytes(25, 0, 0, 0, 25);
    FourBytes(0xFFFF_FFFF, 255, 255, 255, 255);
    var id := RelationColumn(1, [105, 100], 23, 0xFFFF_FFFF);
    var name := RelationColumn(0, [110, 97, 109, 101], 25, 0xFFFF_FFFF);
    assert PutRelationColumn(id) == [1, 105, 100, 0, 0, 0, 0, 23, 255, 255, 255, 255];
    assert PutRelationColumn(name) == [0, 110, 97, 109, 101, 0, 0, 0, 0, 25, 255, 255, 255, 255];
    hide PutRelationColumn;
    assert [id, name][1..] == [name] && [name][1..] == [];
    assert PutRelationColumns([name]) == PutRelationColumn(name) + [];
    assert PutRelationColumns([id, name]) == PutRelationColumn(id) + PutRelationColumns([id, name][1..]);
  }

  lemma RelationBytes()
    ensures var id := RelationColumn(1, [105, 100], 23, 0xFFFF_FFFF);
            var name := RelationColumn(0, [110, 97, 109, 101], 25, 0xFFFF_FFFF);
            var m := WRelation(TABLE, [112, 117, 98, 108, 105, 99], [116], 100, [id, name]);
            Legal(m, None) && Put(m, None) ==
            [82, 0, 0, 64, 6] + [112, 117, 98, 108, 105, 99, 0, 116, 0, 100, 0, 2]
            + [1, 105, 100, 0, 0, 0, 0, 23, 255, 255, 255, 255]
            + [0, 110, 97, 109, 101, 0, 0, 0, 0, 25, 255, 255, 255, 255]
  {
    hide Start, PutU16, PutRelationColumns;
    TableHeader(82);
    TwoBytes(2, 0, 2);
    RelationColumns();
  }

  lemma EightBytes(n: uint64, high: uint32, low: uint32)
    requires n == high * 0x1_0000_0000 + low
    ensures PutU64(n) == PutU32(high) + PutU32(low)
  {
    hide PutU32;
    var q, r := n / 0x1_0000_0000, n % 0x1_0000_0000;
    assert n == q * 0x1_0000_0000 + r;
    assert q == high && r == low;
  }

  lemma BeginBytes()
    ensures Put(WBegin(26647832, 820254872552580, 761), None) ==
            [66, 0, 0, 0, 0, 1, 150, 157, 24, 0, 2, 234, 4, 120, 77, 196, 132, 0, 0, 2, 249]
  {
    hide PutU32;
    EightBytes(26647832, 0, 26647832);
    EightBytes(820254872552580, 0x2EA04, 0x784D_C484);
    FourBytes(0, 0, 0, 0, 0);
    FourBytes(26647832, 1, 150, 157, 24);
    FourBytes(0x2EA04, 0, 2, 234, 4);
    FourBytes(0x784D_C484, 120, 77, 196, 132);
    FourBytes(761, 0, 0, 2, 249);
  }

  lemma CommitBytes()
    ensures Put(WCommit(0, 26647832, 26647880, 820254872552580), None) ==
            [67, 0, 0, 0, 0, 0, 1, 150, 157, 24, 0, 0, 0, 0, 1, 150, 157, 72, 0, 2, 234, 4, 120, 77, 196, 132]
  {
    hide PutU32;
    EightBytes(26647832, 0, 26647832);
    EightBytes(26647880, 0, 26647880);
    EightBytes(820254872552580, 0x2EA04, 0x784D_C484);
    FourBytes(0, 0, 0, 0, 0);
    FourBytes(26647832, 1, 150, 157, 24);
    FourBytes(26647880, 1, 150, 157, 72);
    FourBytes(0x2EA04, 0, 2, 234, 4);
    FourBytes(0x784D_C484, 120, 77, 196, 132);
  }

  // The type bytes as the characters of the format description, and which columns carry bytes.
  lemma TypeBytes()
    ensures BEGIN == 'B' as int && COMMIT == 'C' as int && DELETE == 'D' as int && INSERT == 'I' as int
    ensures RELATION == 'R' as int && UPDATE == 'U' as int && STREAM_START == 'S' as int && STREAM_STOP == 'E' as int
    ensures STREAM_ABORT == 'A' as int && STREAM_COMMIT == 'c' as int
    ensures KEY == 'K' as int && OLD == 'O' as int && NEW == 'N' as int
    ensures NULL == 'n' as int && TOAST == 'u' as int && TEXT == 't' as int && BINARY == 'b' as int
    ensures forall kind: byte :: HasData(kind) <==> kind == 't' as int || kind == 'b' as int
  {
  }
}
