/** Writes to the target in the order in which they arrive: rows of a snapshot, inserted if absent
    or upserted by a mixed batch, and changes of the stream. What each key ends up with, and when
    that is what the changes alone would have made of the snapshot. */
module Schedule {
  import opened Wrappers
  import opened Rows
  import opened Flush

  datatype Write =
    | Snap(row: Row)     // a snapshot row of a pure snapshot batch: inserted if absent
    | Over(row: Row)     // a snapshot row of a mixed batch: upserted
    | Chg(change: RowOp)

  function KeyOf(w: Write): Key {
    if w.Chg? then w.change.key else w.row.key
  }

  function Written(db: Database, w: Write): Database {
    match w
    case Snap(r) => InsertIfAbsent(db, r)
    case Over(r) => Upsert(db, r.key, r.cells)
    case Chg(op) => TargetApply(db, op)
  }

  function RunWrites(db: Database, ws: seq<Write>): Database {
    if ws == [] then db else Written(RunWrites(db, ws[..|ws| - 1]), ws[|ws| - 1])
  }

  function Changes(ws: seq<Write>): seq<RowOp> {
    if ws == [] then []
    else Changes(ws[..|ws| - 1]) + (if ws[|ws| - 1].Chg? then [ws[|ws| - 1].change] else [])
  }

  ghost predicate FullWrite(schema: Schema, w: Write) {
    if w.Chg? then FullImage(schema, w.change) else w.row.cells.Keys == schema(w.row.key.table)
  }

  ghost predicate FullWrites(schema: Schema, ws: seq<Write>) {
    forall i :: 0 <= i < |ws| ==> FullWrite(schema, ws[i])
  }

  // ---------- one key ----------

  function LastChange(ws: seq<Write>, k: Key): Option<RowOp> {
    if ws == [] then None
    else
      var w := ws[|ws| - 1];
      if w.Chg? && w.change.key == k then Some(w.change) else LastChange(ws[..|ws| - 1], k)
  }

  // The snapshot rows of k that arrive after its last change.
  function LateRows(ws: seq<Write>, k: Key): (late: seq<Write>)
    ensures forall i :: 0 <= i < |late| ==> !late[i].Chg? && late[i].row.key == k
  {
    if ws == [] then []
    else
      var w := ws[|ws| - 1];
      if KeyOf(w) != k then LateRows(ws[..|ws| - 1], k)
      else if w.Chg? then []
      else LateRows(ws[..|ws| - 1], k) + [w]
  }

  function LastOver(late: seq<Write>): Option<Cells> {
    if late == [] then None
    else if late[|late| - 1].Over? then Some(late[|late| - 1].row.cells)
    else LastOver(late[..|late| - 1])
  }

  function FirstRow(late: seq<Write>): Option<Cells> {
    if late == [] || late[0].Chg? then None else Some(late[0].row.cells)
  }

  // What is there after snapshot rows arrived: the last overwriting one, or else what was there
  // before, or else the first one.
  function Settled(before: Option<Cells>, late: seq<Write>): Option<Cells> {
    if LastOver(late).Some? then LastOver(late)
    else if before.Some? then before
    else FirstRow(late)
  }

  function BeforeLate(t: Database, ws: seq<Write>, k: Key): Option<Cells> {
    match LastChange(ws, k)
    case None => Lookup(t, k)
    case Some(op) => Outcome(op)
  }

  lemma {:induction false} RunWritesTyped(schema: Schema, t: Database, ws: seq<Write>)
    requires Typed(schema, t) && FullWrites(schema, ws)
    ensures Typed(schema, RunWrites(t, ws))
  {
    if ws != [] {
      var n := |ws| - 1;
      RunWritesTyped(schema, t, ws[..n]);
      assert FullWrite(schema, ws[n]);
      WrittenAt(schema, RunWrites(t, ws[..n]), ws[n], KeyOf(ws[n]));
    }
  }

  // One write replaces the row of its key, unless it is a snapshot row that finds one.
  lemma WrittenAt(schema: Schema, db: Database, w: Write, k: Key)
    requires Typed(schema, db) && FullWrite(schema, w)
    ensures Typed(schema, Written(db, w))
    ensures Lookup(Written(db, w), k) ==
            if KeyOf(w) != k then Lookup(db, k)
            else match w
                 case Snap(r) => if k in db then Some(db[k]) else Some(r.cells)
                 case Over(r) => Some(r.cells)
                 case Chg(op) => Outcome(op)
  {
    match w
    case Snap(r) =>
    case Over(r) => UpsertReplaces(schema, db, r.key, r.cells);
    case Chg(op) =>
      if !op.Delete? {
        UpsertReplaces(schema, db, op.key, op.row);
      }
  }

  lemma SettledMore(before: Option<Cells>, late: seq<Write>, w: Write)
    requires !w.Chg? && forall i :: 0 <= i < |late| ==> !late[i].Chg?
    ensures Settled(before, late + [w]) ==
            if w.Over? then Some(w.row.cells)
            else if Settled(before, late).Some? then Settled(before, late) else Some(w.row.cells)
  {
    assert (late + [w])[..|late|] == late;
  }

  /** What a key ends up with depends on its last change and on the snapshot rows after it. */
  lemma {:induction false} KeyOutcome(schema: Schema, t: Database, ws: seq<Write>, k: Key)
    requires Typed(schema, t) && FullWrites(schema, ws)
    ensures Lookup(RunWrites(t, ws), k) == Settled(BeforeLate(t, ws, k), LateRows(ws, k))
  {
    hide Settled, Written, Typed;
    if ws == [] {
      NothingLate(Lookup(t, k));
    } else {
      var n := |ws| - 1;
      var w := ws[n];
      KeyOutcome(schema, t, ws[..n], k);
      RunWritesTyped(schema, t, ws[..n]);
      assert FullWrite(schema, w);
      WrittenAt(schema, RunWrites(t, ws[..n]), w, k);
      if KeyOf(w) == k {
        if w.Chg? {
          NothingLate(Outcome(w.change));
        } else {
          SettledMore(BeforeLate(t, ws, k), LateRows(ws[..n], k), w);
        }
      }
    }
  }

  lemma NothingLate(before: Option<Cells>)
    ensures Settled(before, []) == before
  {
  }

  lemma {:induction false} ChangesOutcome(schema: Schema, t: Database, ws: seq<Write>, k: Key)
    requires Typed(schema, t) && FullWrites(schema, ws)
    ensures FullImages(schema, Changes(ws)) && Typed(schema, TargetRun(t, Changes(ws)))
    ensures Lookup(TargetRun(t, Changes(ws)), k) == BeforeLate(t, ws, k)
  {
    hide Typed;
    if ws != [] {
      var n := |ws| - 1;
      var w := ws[n];
      ChangesOutcome(schema, t, ws[..n], k);
      assert FullWrite(schema, w);
      if w.Chg? {
        var ops := Changes(ws[..n]);
        assert Changes(ws) == ops + [w.change];
        assert (ops + [w.change])[..|ops|] == ops;
        WrittenAt(schema, TargetRun(t, ops), w, k);
      } else {
        assert Changes(ws) == Changes(ws[..n]);
      }
    }
  }

  // ---------- what can go wrong ----------

  // No change addresses k, the snapshot has it, and nothing arrived.
  ghost predicate Missing(t: Database, ws: seq<Write>, snap: Database, k: Key) {
    LastChange(ws, k) == None && k in snap && Settled(Lookup(t, k), LateRows(ws, k)) == None
  }

  // No change addresses k, and what is there is not the snapshot's row.
  ghost predicate Stale(t: Database, ws: seq<Write>, snap: Database, k: Key) {
    && LastChange(ws, k) == None
    && Settled(Lookup(t, k), LateRows(ws, k)).Some?
    && Settled(Lookup(t, k), LateRows(ws, k)) != Lookup(snap, k)
  }

  // A row of k arrives after the change that deleted it.
  ghost predicate Revived(ws: seq<Write>, k: Key) {
    LastChange(ws, k).Some? && LastChange(ws, k).value.Delete? && LateRows(ws, k) != []
  }

  // A different row of k arrives after its last change, in a mixed batch.
  ghost predicate Overwritten(ws: seq<Write>, k: Key) {
    && LastChange(ws, k).Some? && !LastChange(ws, k).value.Delete?
    && LastOver(LateRows(ws, k)).Some? && LastOver(LateRows(ws, k)).value != LastChange(ws, k).value.row
  }

  ghost predicate Unharmed(t: Database, ws: seq<Write>, snap: Database, k: Key) {
    !Missing(t, ws, snap, k) && !Stale(t, ws, snap, k) && !Revived(ws, k) && !Overwritten(ws, k)
  }

  lemma KeyRightIff(schema: Schema, t: Database, ws: seq<Write>, snap: Database, k: Key)
    requires Typed(schema, t) && Typed(schema, snap) && FullWrites(schema, ws)
    ensures Lookup(RunWrites(t, ws), k) == Lookup(TargetRun(snap, Changes(ws)), k) <==> Unharmed(t, ws, snap, k)
  {
    KeyOutcome(schema, t, ws, k);
    ChangesOutcome(schema, snap, ws, k);
  }

  /** However rows and changes interleave, and whatever the target held before: it ends as the
      changes alone would have made of the snapshot, if and only if no key misses its row, holds
      a stale one, is revived after its deletion, or is overwritten after its last change. */
  lemma ScheduleIff(schema: Schema, t: Database, ws: seq<Write>, snap: Database)
    requires Typed(schema, t) && Typed(schema, snap) && FullWrites(schema, ws)
    ensures RunWrites(t, ws) == TargetRun(snap, Changes(ws)) <==> forall k :: Unharmed(t, ws, snap, k)
  {
    hide Unharmed;
    forall k
      ensures Lookup(RunWrites(t, ws), k) == Lookup(TargetRun(snap, Changes(ws)), k) <==> Unharmed(t, ws, snap, k)
    {
      KeyRightIff(schema, t, ws, snap, k);
    }
    if forall k :: Unharmed(t, ws, snap, k) {
      SameLookups(RunWrites(t, ws), TargetRun(snap, Changes(ws)));
    }
  }

  // ---------- rows of one snapshot, never overwriting ----------

  ghost predicate OneSnapshot(ws: seq<Write>, snap: Database) {
    forall i :: 0 <= i < |ws| && !ws[i].Chg? ==>
      ws[i].Snap? && ws[i].row.key in snap && ws[i].row.cells == snap[ws[i].row.key]
  }

  ghost predicate Arrives(ws: seq<Write>, k: Key) {
    exists i :: 0 <= i < |ws| && !ws[i].Chg? && ws[i].row.key == k
  }

  lemma NoneArrives(k: Key)
    ensures !Arrives([], k)
  {
  }

  lemma ArrivesSnoc(ws: seq<Write>, k: Key)
    requires ws != []
    ensures var n := |ws| - 1;
            Arrives(ws, k) <==> (KeyOf(ws[n]) == k && !ws[n].Chg?) || Arrives(ws[..n], k)
  {
    var n := |ws| - 1;
    if i :| 0 <= i < |ws| && !ws[i].Chg? && ws[i].row.key == k {
      if i < n {
        assert ws[..n][i] == ws[i];
      }
    }
    if i :| 0 <= i < n && !ws[..n][i].Chg? && ws[..n][i].row.key == k {
      assert ws[i] == ws[..n][i];
    }
  }

  lemma {:induction false} LateFromSnapshot(ws: seq<Write>, snap: Database, k: Key)
    requires OneSnapshot(ws, snap)
    ensures LastOver(LateRows(ws, k)) == None
    ensures forall i :: 0 <= i < |LateRows(ws, k)| ==> k in snap && LateRows(ws, k)[i].row.cells == snap[k]
    ensures LastChange(ws, k) == None ==> (LateRows(ws, k) != [] <==> Arrives(ws, k))
  {
    hide Arrives;
    NoneArrives(k);
    if ws != [] {
      var n := |ws| - 1;
      LateFromSnapshot(ws[..n], snap, k);
      var late := LateRows(ws[..n], k);
      assert (late + [ws[n]])[..|late|] == late;
      ArrivesSnoc(ws, k);
    }
  }

  /** Rows of one snapshot, inserted if absent: the target ends right if and only if every key
      that no change addresses held the snapshot's row or nothing and got its row if it held
      nothing, and no row of a key arrives after the change that deleted the key. */
  lemma OneSnapshotIff(schema: Schema, t: Database, ws: seq<Write>, snap: Database)
    requires Typed(schema, t) && Typed(schema, snap) && FullWrites(schema, ws) && OneSnapshot(ws, snap)
    ensures RunWrites(t, ws) == TargetRun(snap, Changes(ws)) <==>
            forall k :: match LastChange(ws, k)
                        case None => (k in t ==> k in snap && t[k] == snap[k])
                                     && (k !in t && k in snap ==> Arrives(ws, k))
                        case Some(op) => op.Delete? ==> LateRows(ws, k) == []
  {
    ScheduleIff(schema, t, ws, snap);
    forall k
      ensures Unharmed(t, ws, snap, k) <==>
              match LastChange(ws, k)
              case None => (k in t ==> k in snap && t[k] == snap[k])
                           && (k !in t && k in snap ==> Arrives(ws, k))
              case Some(op) => op.Delete? ==> LateRows(ws, k) == []
    {
      LateFromSnapshot(ws, snap, k);
    }
  }

  // A row that is written after its deletion was replayed comes back.
  lemma LateRowRevives(k: Key, r: Cells)
    ensures var ws := [Chg(Delete(k)), Snap(Row(k, r))];
            && RunWrites(map[], ws) == map[k := r]
            && TargetRun(map[k := r], Changes(ws)) == map[]
            && Revived(ws, k)
  {
    hide RunWrites, TargetRun, Changes, Revived;
    var a, b := Chg(Delete(k)), Snap(Row(k, r));
    assert [a, b] == [a] + [b] && [Delete(k)] + [] == [Delete(k)];
    RunWritesAppend(map[], [a], [b]);
    OneWrite(map[], a);
    OneWrite(map[], b);
    RunOne(map[k := r], Delete(k));
    DeletedThenRow(k, r);
  }

  lemma DeletedThenRow(k: Key, r: Cells)
    ensures Revived([Chg(Delete(k)), Snap(Row(k, r))], k)
  {
    var a, b := Chg(Delete(k)), Snap(Row(k, r));
    var ws := [a, b];
    assert ws[..1] == [a] && [a][..0] == [];
    assert LateRows(ws, k) == LateRows(ws[..1], k) + [b];
    assert LastChange(ws, k) == LastChange(ws[..1], k);
  }

  lemma OneWrite(db: Database, w: Write)
    ensures RunWrites(db, [w]) == Written(db, w)
    ensures Changes([w]) == if w.Chg? then [w.change] else []
  {
    assert [w][..0] == [];
    assert RunWrites(db, [w]) == Written(RunWrites(db, [w][..0]), w);
    assert Changes([w]) == Changes([w][..0]) + if w.Chg? then [w.change] else [];
  }

  // ---------- sequences of writes ----------

  lemma {:induction false} RunWritesAppend(db: Database, a: seq<Write>, b: seq<Write>)
    ensures RunWrites(db, a + b) == RunWrites(RunWrites(db, a), b)
    ensures Changes(a + b) == Changes(a) + Changes(b)
    decreases |b|
  {
    if b == [] {
      assert a + b == a;
    } else {
      var n := |b| - 1;
      assert (a + b)[..|a + b| - 1] == a + b[..n];
      RunWritesAppend(db, a, b[..n]);
    }
  }

  // Snapshot rows in the order in which they are inserted.
  function Snaps(rows: seq<Row>): (ws: seq<Write>)
    ensures |ws| == |rows| && forall i :: 0 <= i < |rows| ==> ws[i] == Snap(rows[i])
  {
    if rows == [] then [] else Snaps(rows[..|rows| - 1]) + [Snap(rows[|rows| - 1])]
  }

  lemma {:induction false} SnapsInsert(db: Database, rows: seq<Row>)
    ensures RunWrites(db, Snaps(rows)) == InsertAllIfAbsent(db, rows) && Changes(Snaps(rows)) == []
  {
    hide TargetApply, InsertIfAbsent, Upsert;
    if rows == [] {
    } else {
      var n := |rows| - 1;
      SnapsInsert(db, rows[..n]);
      assert Snaps(rows) == Snaps(rows[..n]) + [Snap(rows[n])] && Snaps(rows)[..n] == Snaps(rows[..n]);
    }
  }

  function Chgs(ops: seq<RowOp>): (ws: seq<Write>)
    ensures |ws| == |ops| && forall i :: 0 <= i < |ops| ==> ws[i] == Chg(ops[i])
  {
    if ops == [] then [] else Chgs(ops[..|ops| - 1]) + [Chg(ops[|ops| - 1])]
  }

  lemma ChgsMore(ops: seq<RowOp>)
    requires ops != []
    ensures var n := |ops| - 1;
            Chgs(ops) != [] && Chgs(ops)[..n] == Chgs(ops[..n]) && Chgs(ops)[n] == Chg(ops[n])
  {
    assert Chgs(ops) == Chgs(ops[..|ops| - 1]) + [Chg(ops[|ops| - 1])];
  }

  lemma {:induction false} ChgsRun(db: Database, ops: seq<RowOp>)
    ensures RunWrites(db, Chgs(ops)) == TargetRun(db, ops) && Changes(Chgs(ops)) == ops
  {
    hide TargetApply, InsertIfAbsent, Upsert;
    if ops == [] {
    } else {
      var n := |ops| - 1;
      ChgsRun(db, ops[..n]);
      ChgsMore(ops);
      assert ops[..n] + [ops[n]] == ops;
    }
  }

  // ---------- batches with both kinds of items ----------

  ghost predicate SnapshotInserts(items: seq<Item>) {
    forall i :: 0 <= i < |items| && items[i].source.FromSnapshot? ==> items[i].op.Some? && items[i].op.value.Insert?
  }

  // What the items of a batch should do: snapshot rows never overwrite.
  function Meant(item: Item): seq<Write> {
    if item.op == None then []
    else if item.source.FromSnapshot? && item.op.value.Insert? then [Snap(Row(item.op.value.key, item.op.value.row))]
    else [Chg(item.op.value)]
  }

  function AllMeant(items: seq<Item>): seq<Write> {
    if items == [] then [] else AllMeant(items[..|items| - 1]) + Meant(items[|items| - 1])
  }

  function Intended(db: Database, items: seq<Item>): Database {
    RunWrites(db, AllMeant(items))
  }

  predicate Addresses(item: Item, k: Key) {
    item.op.Some? && item.op.value.key == k
  }

  // Snapshot item i finds a different row under its key, and no later item addresses the key.
  ghost predicate Clash(db: Database, items: seq<Item>, i: nat, k: Key) {
    && i < |items| && items[i].source.FromSnapshot? && Addresses(items[i], k) && items[i].op.value.Insert?
    && Lookup(Intended(db, items[..i]), k).Some?
    && Lookup(Intended(db, items[..i]), k) != Some(items[i].op.value.row)
    && forall j :: i < j < |items| ==> !Addresses(items[j], k)
  }

  lemma ClashSnoc(db: Database, items: seq<Item>, k: Key)
    requires items != []
    ensures var n := |items| - 1;
            (exists i: nat :: Clash(db, items, i, k)) <==>
            Clash(db, items, n, k) || (!Addresses(items[n], k) && exists i: nat :: Clash(db, items[..n], i, k))
  {
    hide Intended;
    var n := |items| - 1;
    if i: nat :| Clash(db, items, i, k) {
      if i < n {
        assert items[..n][..i] == items[..i];
        assert Clash(db, items[..n], i, k);
      }
    }
    if !Addresses(items[n], k) && exists i: nat :: Clash(db, items[..n], i, k) {
      var i: nat :| Clash(db, items[..n], i, k);
      assert items[..n][..i] == items[..i];
      assert forall j :: i < j < n ==> items[..n][j] == items[j];
      assert Clash(db, items, i, k);
    }
  }

  lemma {:induction false} MeantFull(schema: Schema, items: seq<Item>)
    requires FullImages(schema, Statements(items))
    ensures FullWrites(schema, AllMeant(items))
  {
    if items != [] {
      var n := |items| - 1;
      assert FullImages(schema, Statements(items[..n])) by {
        assert forall i :: 0 <= i < |Statements(items[..n])| ==> Statements(items[..n])[i] == Statements(items)[i];
      }
      MeantFull(schema, items[..n]);
      if items[n].op.Some? {
        assert FullImage(schema, Statements(items)[|Statements(items)| - 1]);
      }
    }
  }

  lemma ItemStep(schema: Schema, a: Database, b: Database, item: Item, k: Key)
    requires Typed(schema, a) && Typed(schema, b)
    requires item.op.Some? ==> FullImage(schema, item.op.value)
    requires item.source.FromSnapshot? ==> item.op.Some? && item.op.value.Insert?
    ensures Typed(schema, RunWrites(b, Meant(item)))
    ensures item.op.Some? ==> Typed(schema, TargetApply(a, item.op.value))
    ensures !Addresses(item, k) ==>
              (item.op.Some? ==> Lookup(TargetApply(a, item.op.value), k) == Lookup(a, k))
              && Lookup(RunWrites(b, Meant(item)), k) == Lookup(b, k)
    ensures Addresses(item, k) ==>
              (Lookup(TargetApply(a, item.op.value), k) == Lookup(RunWrites(b, Meant(item)), k) <==>
               !(item.source.FromSnapshot? && Lookup(b, k).Some? && Lookup(b, k) != Some(item.op.value.row)))
  {
    if item.op.Some? {
      var w := Meant(item)[0];
      assert Meant(item)[..0] == [];
      assert RunWrites(b, Meant(item)) == Written(RunWrites(b, Meant(item)[..0]), w);
      WrittenAt(schema, a, Chg(item.op.value), k);
      WrittenAt(schema, b, w, k);
    }
  }

  lemma {:induction false} MixedKeyIff(schema: Schema, db: Database, items: seq<Item>, k: Key)
    requires Typed(schema, db) && FullImages(schema, Statements(items)) && SnapshotInserts(items)
    ensures Typed(schema, TargetRun(db, Statements(items))) && Typed(schema, Intended(db, items))
    ensures Lookup(TargetRun(db, Statements(items)), k) == Lookup(Intended(db, items), k) <==>
            !exists i: nat :: Clash(db, items, i, k)
  {
    hide Clash, Typed, Meant, TargetApply, Written;
    if items == [] {
      NoItemsNoClash(db, k);
    } else {
      var n := |items| - 1;
      var pre, item := items[..n], items[n];
      StatementsInit(schema, items);
      MixedKeyIff(schema, db, pre, k);
      ItemStep(schema, TargetRun(db, Statements(pre)), Intended(db, pre), item, k);
      RunWritesAppend(db, AllMeant(pre), Meant(item));
      ClashSnoc(db, items, k);
      ClashLast(db, items, k);
    }
  }

  lemma NoItemsNoClash(db: Database, k: Key)
    ensures !exists i: nat :: Clash(db, [], i, k)
  {
  }

  lemma ClashLast(db: Database, items: seq<Item>, k: Key)
    requires items != [] && SnapshotInserts(items)
    ensures var n := |items| - 1;
            Clash(db, items, n, k) <==>
            && items[n].source.FromSnapshot? && Addresses(items[n], k)
            && Lookup(Intended(db, items[..n]), k).Some?
            && Lookup(Intended(db, items[..n]), k) != Some(items[n].op.value.row)
  {
  }

  lemma StatementsInit(schema: Schema, items: seq<Item>)
    requires items != [] && FullImages(schema, Statements(items))
    ensures var n := |items| - 1;
            && FullImages(schema, Statements(items[..n]))
            && (items[n].op.Some? ==> FullImage(schema, items[n].op.value)
                                      && Statements(items) == Statements(items[..n]) + [items[n].op.value]
                                      && Statements(items)[..|Statements(items)| - 1] == Statements(items[..n]))
            && (items[n].op == None ==> Statements(items) == Statements(items[..n]))
  {
    var n := |items| - 1;
    if items[n].op.Some? {
      assert Statements(items)[|Statements(items)| - 1] == items[n].op.value;
      assert forall i :: 0 <= i < |Statements(items[..n])| ==> Statements(items[..n])[i] == Statements(items)[i];
    } else {
      assert Statements(items) == Statements(items[..n]);
    }
  }

  lemma {:induction false} PureIsMeant(db: Database, items: seq<Item>)
    requires AllSnapshot(items) && AllInserts(items)
    ensures Intended(db, items) == InsertAllIfAbsent(db, RowsOf(items))
  {
    if items != [] {
      var n := |items| - 1;
      var pre, rows := items[..n], RowsOf(items);
      PureIsMeant(db, pre);
      assert rows[..n] == RowsOf(pre);
      RunWritesAppend(db, AllMeant(pre), Meant(items[n]));
      assert Meant(items[n]) == [Snap(rows[n])] && [Snap(rows[n])][..0] == [];
      assert RunWrites(Intended(db, pre), [Snap(rows[n])]) ==
             Written(RunWrites(Intended(db, pre), [Snap(rows[n])][..0]), Snap(rows[n]));
    }
  }

  lemma StatementsIff(schema: Schema, db: Database, items: seq<Item>)
    requires Typed(schema, db) && FullImages(schema, Statements(items)) && SnapshotInserts(items)
    ensures TargetRun(db, Statements(items)) == Intended(db, items) <==> forall i: nat, k :: !Clash(db, items, i, k)
  {
    hide Clash, Intended, Typed, Statements, TargetRun, FullImages, SnapshotInserts;
    if forall i: nat, k :: !Clash(db, items, i, k) {
      forall k ensures Lookup(TargetRun(db, Statements(items)), k) == Lookup(Intended(db, items), k) {
        MixedKeyIff(schema, db, items, k);
      }
      SameLookups(TargetRun(db, Statements(items)), Intended(db, items));
    } else {
      var i: nat, k :| Clash(db, items, i, k);
      MixedKeyIff(schema, db, items, k);
    }
  }

  /** When a batch does what it should: a batch of snapshot rows only always does, and any other
      batch if and only if no snapshot item finds a different row under its key that no later
      item addresses. */
  lemma MixedBatchIff(schema: Schema, db: Database, items: seq<Item>)
    requires Typed(schema, db) && FullImages(schema, Statements(items)) && SnapshotInserts(items)
    ensures BatchMeaning(db, items) == Intended(db, items) <==>
            AllSnapshot(items) || forall i: nat, k :: !Clash(db, items, i, k)
  {
    hide Clash, Intended, Typed, Statements, TargetRun, FullImages;
    if AllSnapshot(items) {
      PureIsMeant(db, items);
    } else {
      StatementsIff(schema, db, items);
    }
  }
}
