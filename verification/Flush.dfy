/** Writing one batch to the target: statements in one implicit transaction, or, for a batch of
    snapshot rows, COPY with a fallback to insert-if-absent. */
module Flush {
  import opened Wrappers
  import opened Rows
  import opened Seqs

  datatype Source = Cdc | FromSnapshot

  // A queued item: its statement (none for a placeholder) and the position it acknowledges.
  datatype Item = Item(source: Source, op: Option<RowOp>, stamp: nat)

  // What goes wrong outside the database's own rules: connections, the commit of a batch, and the
  // report of an acknowledged position.
  datatype Environment = Healthy | StatementFails(at: nat) | CloseFails | AckFails

  datatype FlushError = WriteFailed | AckFailed

  const MAX_ROWS_PER_COPY := 5000

  function Statements(items: seq<Item>): seq<RowOp> {
    if items == [] then []
    else
      var n := |items| - 1;
      Statements(items[..n]) + (if items[n].op.Some? then [items[n].op.value] else [])
  }

  // No change item behind position i, which holds one.
  ghost predicate IsLastCdc(items: seq<Item>, i: nat) {
    i < |items| && items[i].source.Cdc? && forall j :: i < j < |items| ==> !items[j].source.Cdc?
  }

  // What a batch acknowledges: the position of its last change item, and nothing if it has none.
  ghost predicate Acknowledges(items: seq<Item>, acked: Option<nat>) {
    match acked
    case Some(p) => exists i: nat :: IsLastCdc(items, i) && items[i].stamp == p
    case None => forall i :: 0 <= i < |items| ==> !items[i].source.Cdc?
  }

  // The item acknowledged for a batch: the last change item.
  function LastCdc(items: seq<Item>): (acked: Option<nat>)
    ensures Acknowledges(items, acked)
  {
    if items == [] then None
    else
      var n := |items| - 1;
      if items[n].source.Cdc? then
        assert IsLastCdc(items, n);
        Some(items[n].stamp)
      else
        var before := LastCdc(items[..n]);
        assert before.Some? ==> exists i: nat :: IsLastCdc(items[..n], i) && items[..n][i].stamp == before.value
                                                 && IsLastCdc(items, i);
        before
  }

  // The statements of one implicit transaction, in order; none is kept unless all succeed.
  method SendBatch(db: Database, batch: seq<RowOp>, env: Environment)
    returns (db': Database, r: Result<(), FlushError>)
    requires batch != []
    ensures r.Ok? ==> db' == TargetRun(db, batch)
    ensures r.Err? ==> db' == db && r.error == WriteFailed
    ensures r.Err? <==> env.CloseFails? || (env.StatementFails? && env.at < |batch|)
  {
    var tx := db;
    for i := 0 to |batch|
      invariant tx == TargetRun(db, batch[..i])
      invariant env.StatementFails? ==> i <= env.at
    {
      if env == StatementFails(i) {
        return db, Err(WriteFailed);
      }
      assert batch[..i + 1][..i] == batch[..i];
      tx := TargetApply(tx, batch[i]);
    }
    assert batch[..|batch|] == batch;
    if env.CloseFails? {
      return db, Err(WriteFailed);
    }
    return tx, Ok(());
  }

  method FindLastCdc(items: seq<Item>) returns (acked: Option<nat>)
    ensures Acknowledges(items, acked) && acked == LastCdc(items)
  {
    var i := |items|;
    assert items[..i] == items;
    while i > 0
      invariant 0 <= i <= |items|
      invariant LastCdc(items) == LastCdc(items[..i])
      invariant forall j :: i <= j < |items| ==> !items[j].source.Cdc?
    {
      i := i - 1;
      assert items[..i + 1][..i] == items[..i];
      if items[i].source.Cdc? {
        assert IsLastCdc(items, i);
        return Some(items[i].stamp);
      }
    }
    return None;
  }

  /** Statements run in queue order in one transaction. Only when the whole batch is confirmed is
      the last change item acknowledged; a failed write leaves the target as it was and
      acknowledges nothing; a failed report comes after the whole batch is written. */
  method FlushBatchGeneric(db: Database, items: seq<Item>, env: Environment)
    returns (db': Database, acked: Option<nat>, r: Result<(), FlushError>)
    ensures r.Ok? ==> db' == TargetRun(db, Statements(items)) && Acknowledges(items, acked)
    ensures r.Ok? ==> acked == LastCdc(items)
    ensures r == Err(WriteFailed) ==> db' == db && acked == None
    ensures r == Err(AckFailed) ==> db' == TargetRun(db, Statements(items)) && acked == None
    ensures r == Err(WriteFailed) <==> Statements(items) != []
                                       && (env.CloseFails? || (env.StatementFails? && env.at < |Statements(items)|))
    ensures r == Err(AckFailed) <==> env.AckFails? && LastCdc(items).Some?
  {
    var batch: seq<RowOp> := [];
    for i := 0 to |items|
      invariant batch == Statements(items[..i])
    {
      assert items[..i + 1][..i] == items[..i];
      if items[i].op.Some? {
        batch := batch + [items[i].op.value];
      }
    }
    assert items[..|items|] == items;
    db', acked, r := db, None, Ok(());
    if batch != [] {
      db', r := SendBatch(db, batch, env);
      if r.Err? {
        return;
      }
    }
    acked := FindLastCdc(items);
    if acked.Some? && env.AckFails? {
      return db', None, Err(AckFailed);
    }
  }

  // ---------- snapshot batches ----------

  datatype Row = Row(key: Key, cells: Cells)

  // Existing rows stay; of several rows with one key the first one wins.
  function InsertIfAbsent(db: Database, r: Row): Database {
    if r.key in db then db else db[r.key := r.cells]
  }

  function InsertAllIfAbsent(db: Database, rows: seq<Row>): Database {
    if rows == [] then db
    else InsertIfAbsent(InsertAllIfAbsent(db, rows[..|rows| - 1]), rows[|rows| - 1])
  }

  ghost predicate SameColumns(rows: seq<Row>) {
    forall i, j :: 0 <= i < |rows| && 0 <= j < |rows| && rows[i].key.table == rows[j].key.table
                   ==> rows[i].cells.Keys == rows[j].cells.Keys
  }

  // The cells of a row in the column list of a COPY.
  function Projected(columns: set<string>, cells: Cells): Cells {
    map c | c in columns :: if c in cells then cells[c] else None
  }

  // db plus exactly the rows at the given indices, whose keys are new and different.
  ghost predicate Inserted(db: Database, rows: seq<Row>, at: set<nat>, tx: Database) {
    && (forall i :: i in at ==> i < |rows| && rows[i].key !in db)
    && (forall i, j :: i in at && j in at && i != j ==> rows[i].key != rows[j].key)
    && (forall i :: i in at ==> rows[i].key in tx && tx[rows[i].key] == rows[i].cells)
    && (forall k :: k in db ==> k in tx && tx[k] == db[k])
    && (forall k :: k in tx ==> k in db || exists i :: i in at && rows[i].key == k)
  }

  // The first row of the batch that has key k.
  function FirstOf(rows: seq<Row>, k: Key): Option<Cells> {
    if rows == [] then None
    else if rows[0].key == k then Some(rows[0].cells)
    else FirstOf(rows[1..], k)
  }

  lemma {:induction false} FirstOfSnoc(rows: seq<Row>, r: Row, k: Key)
    ensures FirstOf(rows + [r], k) ==
            if FirstOf(rows, k).Some? then FirstOf(rows, k) else if r.key == k then Some(r.cells) else None
  {
    if rows != [] {
      assert (rows + [r])[1..] == rows[1..] + [r];
      FirstOfSnoc(rows[1..], r, k);
    }
  }

  /** Insert-if-absent keeps every existing row and gives every other key of the batch its first row. */
  lemma {:induction false} InsertAllLookup(db: Database, rows: seq<Row>, k: Key)
    ensures Lookup(InsertAllIfAbsent(db, rows), k) == if k in db then Some(db[k]) else FirstOf(rows, k)
  {
    if rows != [] {
      var n := |rows| - 1;
      assert rows == rows[..n] + [rows[n]];
      InsertAllLookup(db, rows[..n], k);
      FirstOfSnoc(rows[..n], rows[n], k);
    }
  }

  lemma {:induction false} FirstOfUnique(rows: seq<Row>, i: nat)
    requires i < |rows|
    requires forall j :: 0 <= j < |rows| && j != i ==> rows[j].key != rows[i].key
    ensures FirstOf(rows, rows[i].key) == Some(rows[i].cells)
  {
    if i > 0 {
      assert rows[1..][i - 1] == rows[i];
      assert forall j :: 0 <= j < |rows[1..]| ==> rows[1..][j] == rows[j + 1];
      FirstOfUnique(rows[1..], i - 1);
    }
  }

  lemma {:induction false} FirstOfNone(rows: seq<Row>, k: Key)
    requires forall j :: 0 <= j < |rows| ==> rows[j].key != k
    ensures FirstOf(rows, k) == None
  {
    if rows != [] {
      assert forall j :: 0 <= j < |rows[1..]| ==> rows[1..][j] == rows[j + 1];
      FirstOfNone(rows[1..], k);
    }
  }

  // With all keys new and different the order of insertion does not matter.
  lemma InsertedIsInsertAll(db: Database, rows: seq<Row>, at: set<nat>, tx: Database)
    requires Inserted(db, rows, at, tx)
    requires forall i :: 0 <= i < |rows| ==> i in at
    ensures tx == InsertAllIfAbsent(db, rows)
  {
    var all := InsertAllIfAbsent(db, rows);
    forall k ensures Lookup(tx, k) == Lookup(all, k) {
      InsertAllLookup(db, rows, k);
      if i :| 0 <= i < |rows| && rows[i].key == k {
        assert i in at;
        assert forall j :: 0 <= j < |rows| && j != i ==> j in at && rows[j].key != k;
        FirstOfUnique(rows, i);
      } else {
        FirstOfNone(rows, k);
      }
    }
    SameLookups(tx, all);
  }

  // Two equal keys in the batch, or a key that is already there.
  ghost predicate Conflicting(db: Database, rows: seq<Row>) {
    || (exists i :: 0 <= i < |rows| && rows[i].key in db)
    || (exists i, j :: 0 <= i < j < |rows| && rows[i].key == rows[j].key)
  }

  // Rows of table t among the first n of the queue, in queue order, as positions.
  ghost predicate TableGroup(rows: seq<Row>, n: nat, t: string, g: seq<nat>)
    requires n <= |rows|
  {
    && g != []
    && (forall a :: 0 <= a < |g| ==> g[a] < n && rows[g[a]].key.table == t)
    && (forall a, b :: 0 <= a < b < |g| ==> g[a] < g[b])
  }

  ghost predicate Placed(rows: seq<Row>, groups: map<string, seq<nat>>, p: nat)
    requires p < |rows|
  {
    rows[p].key.table in groups && p in groups[rows[p].key.table]
  }

  // Every one of the first n rows is in the group of its table.
  ghost predicate Grouped(rows: seq<Row>, n: nat, groups: map<string, seq<nat>>)
    requires n <= |rows|
  {
    && (forall t :: t in groups ==> TableGroup(rows, n, t, groups[t]))
    && (forall p: nat :: p < n ==> Placed(rows, groups, p))
  }

  lemma GroupOneMore(rows: seq<Row>, n: nat, groups: map<string, seq<nat>>, g: seq<nat>)
    requires n < |rows| && Grouped(rows, n, groups)
    requires g == if rows[n].key.table in groups then groups[rows[n].key.table] else []
    ensures Grouped(rows, n + 1, groups[rows[n].key.table := g + [n]])
  {
    var t := rows[n].key.table;
    var after := groups[t := g + [n]];
    forall u | u in after ensures TableGroup(rows, n + 1, u, after[u]) {
      if u in groups {
        assert TableGroup(rows, n, u, groups[u]);
      }
    }
    assert (g + [n])[|g|] == n;
    forall p: nat | p < n + 1 ensures Placed(rows, after, p) {
      if p < n {
        assert Placed(rows, groups, p);
      }
    }
  }

  method GroupByTable(rows: seq<Row>) returns (groups: map<string, seq<nat>>)
    ensures Grouped(rows, |rows|, groups)
  {
    groups := map[];
    for i := 0 to |rows|
      invariant Grouped(rows, i, groups)
    {
      var t := rows[i].key.table;
      var g := if t in groups then groups[t] else [];
      GroupOneMore(rows, i, groups, g);
      groups := groups[t := g + [i]];
    }
  }

  lemma InsertedMore(db: Database, rows: seq<Row>, at: set<nat>, tx: Database, p: nat)
    requires Inserted(db, rows, at, tx) && p < |rows| && rows[p].key !in tx
    ensures Inserted(db, rows, at + {p}, tx[rows[p].key := rows[p].cells])
  {
    var tx' := tx[rows[p].key := rows[p].cells];
    forall k | k in tx' ensures k in db || exists i :: i in at + {p} && rows[i].key == k {
      if k == rows[p].key {
        assert p in at + {p};
      } else if k !in db {
        var i :| i in at && rows[i].key == k;
        assert i in at + {p};
      }
    }
  }

  lemma InsertedConflict(db: Database, rows: seq<Row>, at: set<nat>, tx: Database, p: nat)
    requires Inserted(db, rows, at, tx) && p < |rows| && p !in at && rows[p].key in tx
    ensures Conflicting(db, rows)
  {
    if rows[p].key !in db {
      var i :| i in at && rows[i].key == rows[p].key;
      assert i < p || p < i;
    }
  }

  // COPY of one piece: the rows at some positions, all of one table, in one column list.
  method CopyFrom(ghost db: Database, rows: seq<Row>, ghost at: set<nat>, tx: Database,
                  piece: seq<nat>, columns: set<string>)
    returns (r: Result<Database, ()>, ghost at': set<nat>)
    requires Inserted(db, rows, at, tx)
    requires forall a :: 0 <= a < |piece| ==> piece[a] < |rows| && rows[piece[a]].cells.Keys == columns
    requires forall a :: 0 <= a < |piece| ==> piece[a] !in at
    requires forall a, b :: 0 <= a < b < |piece| ==> piece[a] < piece[b]
    ensures r.Ok? ==> Inserted(db, rows, at', r.value) && at' == at + Elements(piece)
    ensures r.Err? ==> Conflicting(db, rows)
  {
    hide Inserted, Conflicting;
    var out := tx;
    at' := at;
    for a := 0 to |piece|
      invariant at' == at + Elements(piece[..a])
      invariant Inserted(db, rows, at', out)
    {
      var row := rows[piece[a]];
      assert Projected(columns, row.cells) == row.cells;
      assert piece[a] !in at' by {
        assert forall b :: 0 <= b < a ==> piece[..a][b] < piece[a];
      }
      if row.key in out {
        InsertedConflict(db, rows, at', out, piece[a]);
        return Err(()), at';
      }
      InsertedMore(db, rows, at', out, piece[a]);
      out := out[row.key := Projected(columns, row.cells)];
      at' := at' + {piece[a]};
      assert piece[..a + 1] == piece[..a] + [piece[a]];
    }
    assert piece[..|piece|] == piece;
    r := Ok(out);
  }

  ghost function Elements(s: seq<nat>): set<nat> {
    set p | p in s
  }

  // A piece of an increasing group: increasing itself, and disjoint from what lies before it.
  lemma PieceOf(g: seq<nat>, i: nat, end: nat)
    requires i <= end <= |g|
    requires forall a, b :: 0 <= a < b < |g| ==> g[a] < g[b]
    ensures Elements(g[..end]) == Elements(g[..i]) + Elements(g[i..end])
    ensures forall a :: 0 <= a < end - i ==> g[i..end][a] == g[i + a] && g[i..end][a] !in Elements(g[..i])
    ensures forall a, b :: 0 <= a < b < end - i ==> g[i..end][a] < g[i..end][b]
  {
    assert g[..end] == g[..i] + g[i..end];
    forall a | 0 <= a < end - i ensures g[i..end][a] == g[i + a] && g[i..end][a] !in Elements(g[..i]) {
      assert forall b :: 0 <= b < i ==> g[..i][b] == g[b] < g[i + a];
    }
  }

  // The group of a table is copied in pieces of at most 5000 rows.
  method CopyTable(ghost db: Database, rows: seq<Row>, ghost at: set<nat>, tx: Database, t: string, g: seq<nat>)
    returns (r: Result<Database, ()>, ghost at': set<nat>, ghost pieces: seq<seq<nat>>)
    requires Inserted(db, rows, at, tx) && SameColumns(rows) && TableGroup(rows, |rows|, t, g)
    requires forall a :: 0 <= a < |g| ==> g[a] !in at
    ensures r.Ok? ==> Inserted(db, rows, at', r.value) && at' == at + Elements(g)
    ensures r.Err? ==> Conflicting(db, rows)
    ensures r.Ok? ==> Flatten(pieces) == g
    ensures forall p :: 0 <= p < |pieces| ==> 1 <= |pieces[p]| <= MAX_ROWS_PER_COPY
    ensures forall p :: 0 <= p < |pieces| - 1 ==> |pieces[p]| == MAX_ROWS_PER_COPY
  {
    hide Inserted, Conflicting, Elements, Flatten;
    FlattenNone<nat>();
    var columns := rows[g[0]].cells.Keys;
    var out := tx;
    at', pieces := at, [];
    var i := 0;
    assert at == at + Elements(g[..0]) by {
      NoElements(g[..0]);
    }
    while i < |g|
      invariant 0 <= i <= |g|
      invariant at' == at + Elements(g[..i])
      invariant Inserted(db, rows, at', out)
      invariant Flatten(pieces) == g[..i]
      invariant forall p :: 0 <= p < |pieces| ==> 1 <= |pieces[p]| <= MAX_ROWS_PER_COPY
      invariant forall p :: 0 <= p < |pieces| - (if i == |g| then 1 else 0) ==> |pieces[p]| == MAX_ROWS_PER_COPY
    {
      var end := if i + MAX_ROWS_PER_COPY > |g| then |g| else i + MAX_ROWS_PER_COPY;
      var piece := g[i..end];
      PieceOf(g, i, end);
      assert forall a :: 0 <= a < |piece| ==> piece[a] == g[i + a];
      var copied;
      copied, at' := CopyFrom(db, rows, at', out, piece, columns);
      if copied.Err? {
        return Err(()), at', pieces;
      }
      out := copied.value;
      FlattenOneMore(pieces, piece);
      assert g[..i] + piece == g[..end];
      pieces := pieces + [piece];
      i := end;
    }
    assert g[..|g|] == g;
    r := Ok(out);
  }

  lemma NoElements(s: seq<nat>)
    requires s == []
    ensures Elements(s) == {}
  {
  }

  /** COPY of the whole batch, table by table in any order. It succeeds exactly when no key of the
      batch is repeated or already present, and then equals insert-if-absent in queue order. */
  method FlushBatchSnapshotCopy(db: Database, rows: seq<Row>) returns (r: Result<Database, ()>)
    requires SameColumns(rows)
    ensures r.Ok? <==> !Conflicting(db, rows)
    ensures r.Ok? ==> r.value == InsertAllIfAbsent(db, rows)
  {
    var groups := GroupByTable(rows);
    var tx := db;
    ghost var at: set<nat> := {};
    var rest := groups.Keys;
    forall p: nat | p < |rows| ensures rows[p].key.table in rest {
      assert Placed(rows, groups, p);
    }
    while rest != {}
      invariant rest <= groups.Keys
      invariant Inserted(db, rows, at, tx)
      invariant forall p: nat :: p < |rows| ==> (p in at <==> rows[p].key.table !in rest)
      decreases rest
    {
      var t :| t in rest;
      assert TableGroup(rows, |rows|, t, groups[t]);
      var copied;
      ghost var before := at;
      ghost var pieces;
      copied, at, pieces := CopyTable(db, rows, at, tx, t, groups[t]);
      if copied.Err? {
        return Err(());
      }
      tx := copied.value;
      rest := rest - {t};
      forall p: nat | p < |rows| ensures p in at <==> rows[p].key.table !in rest {
        assert Placed(rows, groups, p);
      }
    }
    InsertedIsInsertAll(db, rows, at, tx);
    r := Ok(tx);
  }

  // One insert per row with ON CONFLICT DO NOTHING, all in one transaction.
  method FlushBatchSnapshotDoNothing(db: Database, rows: seq<Row>) returns (db': Database, inserted: nat)
    ensures db' == InsertAllIfAbsent(db, rows)
    ensures |db'| == |db| + inserted
  {
    db', inserted := db, 0;
    for i := 0 to |rows|
      invariant db' == InsertAllIfAbsent(db, rows[..i])
      invariant |db'| == |db| + inserted
    {
      assert rows[..i + 1][..i] == rows[..i];
      if rows[i].key !in db' {
        inserted := inserted + 1;
      }
      db' := InsertIfAbsent(db', rows[i]);
    }
    assert rows[..|rows|] == rows;
  }

  /** A snapshot batch, by COPY or by its fallback, inserts each row in queue order only if its
      key is absent. */
  method FlushBatchSnapshot(db: Database, rows: seq<Row>) returns (db': Database)
    requires SameColumns(rows)
    ensures db' == InsertAllIfAbsent(db, rows)
  {
    var copied := FlushBatchSnapshotCopy(db, rows);
    if copied.Ok? {
      return copied.value;
    }
    var inserted;
    db', inserted := FlushBatchSnapshotDoNothing(db, rows);
  }

  // ---------- dispatch ----------

  predicate AllSnapshot(items: seq<Item>) {
    forall i :: 0 <= i < |items| ==> items[i].source.FromSnapshot?
  }

  // A snapshot item always carries the insert of a full row.
  ghost predicate ItemOk(schema: Schema, item: Item) {
    item.source.FromSnapshot? ==> item.op.Some? && item.op.value.Insert? && FullImage(schema, item.op.value)
  }

  ghost predicate ItemsOk(schema: Schema, items: seq<Item>) {
    forall i :: 0 <= i < |items| ==> ItemOk(schema, items[i])
  }

  predicate AllInserts(items: seq<Item>) {
    forall i :: 0 <= i < |items| ==> items[i].op.Some? && items[i].op.value.Insert?
  }

  function RowsOf(items: seq<Item>): (rows: seq<Row>)
    requires AllInserts(items)
    ensures |rows| == |items|
    ensures forall i :: 0 <= i < |items| ==> rows[i] == Row(items[i].op.value.key, items[i].op.value.row)
  {
    seq(|items|, i requires 0 <= i < |items| => Row(items[i].op.value.key, items[i].op.value.row))
  }

  // The rows that a sequence of inserts carries.
  function InsertsOf(ops: seq<RowOp>): seq<Row> {
    if ops == [] then []
    else
      var n := |ops| - 1;
      InsertsOf(ops[..n]) + (if ops[n].Insert? then [Row(ops[n].key, ops[n].row)] else [])
  }

  // What a successful batch makes of the target.
  function BatchMeaning(db: Database, items: seq<Item>): Database {
    if AllSnapshot(items) && AllInserts(items) then InsertAllIfAbsent(db, RowsOf(items))
    else TargetRun(db, Statements(items))
  }

  /** A batch of snapshot rows only never overwrites; any other batch upserts and deletes, and
      acknowledges its last change item. A failed write leaves everything as it was; a failed
      report leaves the batch written. */
  method FlushBatch(ghost schema: Schema, db: Database, items: seq<Item>, env: Environment)
    returns (db': Database, acked: Option<nat>, r: Result<(), FlushError>)
    requires ItemsOk(schema, items)
    ensures r.Ok? ==> db' == BatchMeaning(db, items) && Acknowledges(items, acked)
    ensures r.Ok? ==> acked == LastCdc(items)
    ensures r == Err(WriteFailed) ==> db' == db && acked == None && (env.StatementFails? || env.CloseFails?)
    ensures r == Err(AckFailed) ==> db' == BatchMeaning(db, items) && acked == None && env.AckFails?
    ensures r.Err? ==> r.error == WriteFailed || r.error == AckFailed
    ensures env.Healthy? ==> r.Ok?
  {
    if items == [] {
      return db, None, Ok(());
    }
    if forall i :: 0 <= i < |items| ==> items[i].source.FromSnapshot? {
      assert forall i :: 0 <= i < |items| ==> ItemOk(schema, items[i]);
      assert AllInserts(items);
      SnapshotHasNoCdc(items);
      if env.StatementFails? || env.CloseFails? {
        return db, None, Err(WriteFailed);
      }
      db' := FlushBatchSnapshot(db, RowsOf(items));
      return db', None, Ok(());
    }
    db', acked, r := FlushBatchGeneric(db, items, env);
    assert r.Err? ==> r == Err(r.error);
  }

  lemma SnapshotHasNoCdc(items: seq<Item>)
    requires AllSnapshot(items)
    ensures LastCdc(items) == None
  {
    if items != [] {
      SnapshotHasNoCdc(items[..|items| - 1]);
    }
  }

  // ---------- batching ----------

  function RunBatches(db: Database, batches: seq<seq<Item>>): Database {
    if batches == [] then db
    else BatchMeaning(RunBatches(db, batches[..|batches| - 1]), batches[|batches| - 1])
  }

  lemma BatchMore(db: Database, batches: seq<seq<Item>>, batch: seq<Item>)
    ensures RunBatches(db, batches + [batch]) == BatchMeaning(RunBatches(db, batches), batch)
    ensures Flatten(batches + [batch]) == Flatten(batches) + batch
  {
    assert (batches + [batch])[..|batches|] == batches;
  }

  lemma {:induction false} StatementsAppend(a: seq<Item>, b: seq<Item>)
    ensures Statements(a + b) == Statements(a) + Statements(b)
    decreases |b|
  {
    if b == [] {
      assert a + b == a;
    } else {
      assert (a + b)[..|a + b| - 1] == a + b[..|b| - 1];
      StatementsAppend(a, b[..|b| - 1]);
    }
  }

  lemma {:induction false} InsertAllAppend(db: Database, a: seq<Row>, b: seq<Row>)
    ensures InsertAllIfAbsent(db, a + b) == InsertAllIfAbsent(InsertAllIfAbsent(db, a), b)
    decreases |b|
  {
    if b == [] {
      assert a + b == a;
    } else {
      assert (a + b)[..|a + b| - 1] == a + b[..|b| - 1];
      InsertAllAppend(db, a, b[..|b| - 1]);
    }
  }

  /** However the timers cut a stream of change items into batches, the target ends the same. */
  lemma {:induction false} ChangeBatchingIrrelevant(db: Database, batches: seq<seq<Item>>)
    requires forall i, j :: 0 <= i < |batches| && 0 <= j < |batches[i]| ==> batches[i][j].source.Cdc?
    ensures RunBatches(db, batches) == TargetRun(db, Statements(Flatten(batches)))
  {
    if batches != [] {
      var n := |batches| - 1;
      ChangeBatchingIrrelevant(db, batches[..n]);
      StatementsAppend(Flatten(batches[..n]), batches[n]);
      TargetRunAppend(db, Statements(Flatten(batches[..n])), Statements(batches[n]));
      if batches[n] == [] {
        assert RowsOf(batches[n]) == [];
      } else {
        assert batches[n][0].source.Cdc?;
      }
    }
  }

  lemma RowsOfAppend(a: seq<Item>, b: seq<Item>)
    requires AllInserts(a) && AllInserts(b)
    ensures AllInserts(a + b) && RowsOf(a + b) == RowsOf(a) + RowsOf(b)
  {
    assert forall i :: 0 <= i < |a| ==> (a + b)[i] == a[i];
    assert forall i :: 0 <= i < |b| ==> (a + b)[|a| + i] == b[i];
  }

  lemma SnapshotMeaning(db: Database, items: seq<Item>)
    requires AllSnapshot(items) && AllInserts(items)
    ensures BatchMeaning(db, items) == InsertAllIfAbsent(db, RowsOf(items))
  {
  }

  lemma NoBatches(db: Database)
    ensures Flatten<Item>([]) == [] && AllInserts([]) && RowsOf([]) == []
    ensures RunBatches(db, []) == db == InsertAllIfAbsent(db, [])
  {
  }

  /** The same for a stream of snapshot rows. */
  lemma {:induction false} SnapshotBatchingIrrelevant(db: Database, batches: seq<seq<Item>>)
    requires forall i :: 0 <= i < |batches| ==> AllSnapshot(batches[i]) && AllInserts(batches[i])
    ensures AllInserts(Flatten(batches))
    ensures RunBatches(db, batches) == InsertAllIfAbsent(db, RowsOf(Flatten(batches)))
  {
    hide AllSnapshot, AllInserts, RowsOf, InsertAllIfAbsent, BatchMeaning, RunBatches, Flatten;
    if batches == [] {
      NoBatches(db);
    } else {
      var n := |batches| - 1;
      var a, b := Flatten(batches[..n]), batches[n];
      SnapshotBatchingIrrelevant(db, batches[..n]);
      assert batches[..n] + [b] == batches;
      BatchMore(db, batches[..n], b);
      SnapshotMeaning(InsertAllIfAbsent(db, RowsOf(a)), b);
      RowsOfAppend(a, b);
      InsertAllAppend(db, RowsOf(a), RowsOf(b));
    }
  }

  lemma StatementsOne(item: Item)
    ensures Statements([item]) == if item.op.Some? then [item.op.value] else []
  {
    assert [item][..0] == [];
    assert Statements([item]) == Statements([item][..0]) + if item.op.Some? then [item.op.value] else [];
  }

  lemma RunOne(db: Database, op: RowOp)
    ensures TargetRun(db, [op]) == TargetApply(db, op)
  {
    assert [op][..0] == [];
    assert TargetRun(db, [op]) == TargetApply(TargetRun(db, [op][..0]), op);
  }

  // A mixed batch upserts its snapshot rows, so it overwrites a newer row with the snapshot's;
  // a batch of snapshot rows alone does not.
  lemma MixedBatchOverwrites(k: Key, newer: Cells, older: Cells, stamp: nat)
    requires newer.Keys == older.Keys
    ensures BatchMeaning(map[k := newer], [Item(FromSnapshot, Some(Insert(k, older)), 0)]) == map[k := newer]
    ensures BatchMeaning(map[k := newer], [Item(FromSnapshot, Some(Insert(k, older)), 0), Item(Cdc, None, stamp)])
            == map[k := older]
  {
    hide Statements, TargetRun;
    var db, a, b := map[k := newer], Item(FromSnapshot, Some(Insert(k, older)), 0), Item(Cdc, None, stamp);
    assert RowsOf([a]) == [Row(k, older)];
    assert [Row(k, older)][..0] == [];
    assert InsertAllIfAbsent(db, [Row(k, older)]) == InsertIfAbsent(db, Row(k, older));
    assert [a, b][1] == b && [a, b] == [a] + [b] && !AllSnapshot([a, b]);
    assert [Insert(k, older)] + [] == [Insert(k, older)];
    StatementsAppend([a], [b]);
    StatementsOne(a);
    StatementsOne(b);
    RunOne(db, Insert(k, older));
    assert newer + older == older;
  }
}
