/** What a change means: to the source database, and to the target database once the
    consumer has turned it into an upsert or a delete. */
module Rows {
  import opened Wrappers

  datatype Key = Key(table: string, pk: seq<string>)

  // Column name to text value; None is SQL NULL.
  type Cells = map<string, Option<string>>
  type Database = map<Key, Cells>

  // The columns of each table.
  type Schema = string -> set<string>

  datatype RowOp =
    | Insert(key: Key, row: Cells)
    | Update(oldKey: Key, key: Key, row: Cells)
    | Delete(key: Key)

  function Lookup(db: Database, k: Key): Option<Cells> {
    if k in db then Some(db[k]) else None
  }

  function SourceApply(db: Database, op: RowOp): Database {
    match op
    case Insert(k, r) => db[k := r]
    case Update(o, k, r) => (db - {o})[k := r]
    case Delete(k) => db - {k}
  }

  // The server only accepts an insert or a key move into a free key, and an update or
  // delete of a key that exists.
  predicate Accepted(db: Database, op: RowOp) {
    match op
    case Insert(k, _) => k !in db
    case Update(o, k, _) => o in db && (k == o || k !in db)
    case Delete(k) => k in db
  }

  // INSERT ... ON CONFLICT (pk) DO UPDATE SET c = EXCLUDED.c, for the columns of the image only.
  function Upsert(db: Database, k: Key, r: Cells): Database {
    db[k := if k in db then db[k] + r else r]
  }

  function TargetApply(db: Database, op: RowOp): Database {
    match op
    case Insert(k, r) => Upsert(db, k, r)
    case Update(_, k, r) => Upsert(db, k, r)
    case Delete(k) => db - {k}
  }

  function SourceRun(db: Database, ops: seq<RowOp>): Database {
    if ops == [] then db else SourceApply(SourceRun(db, ops[..|ops| - 1]), ops[|ops| - 1])
  }

  function TargetRun(db: Database, ops: seq<RowOp>): Database {
    if ops == [] then db else TargetApply(TargetRun(db, ops[..|ops| - 1]), ops[|ops| - 1])
  }

  ghost predicate AcceptedRun(db: Database, ops: seq<RowOp>) {
    forall i :: 0 <= i < |ops| ==> Accepted(SourceRun(db, ops[..i]), ops[i])
  }

  // REPLICA IDENTITY FULL: every image carries every column of its table.
  predicate FullImage(schema: Schema, op: RowOp) {
    op.Delete? || op.row.Keys == schema(op.key.table)
  }

  ghost predicate FullImages(schema: Schema, ops: seq<RowOp>) {
    forall i :: 0 <= i < |ops| ==> FullImage(schema, ops[i])
  }

  ghost predicate Typed(schema: Schema, db: Database) {
    forall k :: k in db ==> db[k].Keys == schema(k.table)
  }

  predicate KeepsKey(op: RowOp) {
    op.Update? ==> op.oldKey == op.key
  }

  ghost predicate KeyPreserving(ops: seq<RowOp>) {
    forall i :: 0 <= i < |ops| ==> KeepsKey(ops[i])
  }

  // The target statement of some change addresses k.
  ghost predicate Touched(ops: seq<RowOp>, k: Key) {
    exists i :: 0 <= i < |ops| && ops[i].key == k
  }

  // a and b may differ only on keys that ops addresses.
  ghost predicate AgreeOutside(a: Database, b: Database, ops: seq<RowOp>) {
    forall k :: !Touched(ops, k) ==> Lookup(a, k) == Lookup(b, k)
  }

  lemma SameLookups(a: Database, b: Database)
    requires forall k :: Lookup(a, k) == Lookup(b, k)
    ensures a == b
  {
    forall k ensures k in a <==> k in b {
      assert Lookup(a, k) == Lookup(b, k);
    }
    forall k | k in a ensures a[k] == b[k] {
      assert Lookup(a, k) == Lookup(b, k);
    }
  }

  lemma {:induction false} SourceRunAppend(db: Database, a: seq<RowOp>, b: seq<RowOp>)
    ensures SourceRun(db, a + b) == SourceRun(SourceRun(db, a), b)
    decreases |b|
  {
    if b == [] {
      assert a + b == a;
    } else {
      var n := |b| - 1;
      assert (a + b)[..|a + b| - 1] == a + b[..n];
      SourceRunAppend(db, a, b[..n]);
    }
  }

  lemma {:induction false} TargetRunAppend(db: Database, a: seq<RowOp>, b: seq<RowOp>)
    ensures TargetRun(db, a + b) == TargetRun(TargetRun(db, a), b)
    decreases |b|
  {
    if b == [] {
      assert a + b == a;
    } else {
      var n := |b| - 1;
      assert (a + b)[..|a + b| - 1] == a + b[..n];
      TargetRunAppend(db, a, b[..n]);
    }
  }

  lemma TouchedAppend(a: seq<RowOp>, b: seq<RowOp>, k: Key)
    ensures Touched(a + b, k) <==> Touched(a, k) || Touched(b, k)
  {
    if Touched(a, k) {
      var i :| 0 <= i < |a| && a[i].key == k;
      assert (a + b)[i].key == k;
    }
    if Touched(b, k) {
      var i :| 0 <= i < |b| && b[i].key == k;
      assert (a + b)[|a| + i].key == k;
    }
  }

  // With full images an upsert replaces the row whatever was there before.
  lemma UpsertReplaces(schema: Schema, db: Database, k: Key, r: Cells)
    requires Typed(schema, db) && r.Keys == schema(k.table)
    ensures Upsert(db, k, r) == db[k := r]
  {
    if k in db {
      assert db[k] + r == r;
    }
  }

  lemma {:induction false} TargetRunTyped(schema: Schema, db: Database, ops: seq<RowOp>)
    requires Typed(schema, db) && FullImages(schema, ops)
    ensures Typed(schema, TargetRun(db, ops))
  {
    if ops != [] {
      var n := |ops| - 1;
      TargetRunTyped(schema, db, ops[..n]);
      if !ops[n].Delete? {
        assert FullImage(schema, ops[n]);
        UpsertReplaces(schema, TargetRun(db, ops[..n]), ops[n].key, ops[n].row);
      }
    }
  }

  lemma {:induction false} UntouchedKeeps(db: Database, ops: seq<RowOp>, k: Key)
    requires !Touched(ops, k)
    ensures Lookup(TargetRun(db, ops), k) == Lookup(db, k)
  {
    if ops != [] {
      var n := |ops| - 1;
      assert ops[n].key != k;
      assert forall i :: 0 <= i < n ==> ops[..n][i] == ops[i] && ops[i].key != k;
      UntouchedKeeps(db, ops[..n], k);
    }
  }

  // The last change of a key decides it: what the target held before does not matter.
  lemma {:induction false} TouchedDecides(schema: Schema, a: Database, b: Database, ops: seq<RowOp>, k: Key)
    requires Typed(schema, a) && Typed(schema, b) && FullImages(schema, ops)
    requires Touched(ops, k)
    ensures Lookup(TargetRun(a, ops), k) == Lookup(TargetRun(b, ops), k)
  {
    var n := |ops| - 1;
    var pa, pb := TargetRun(a, ops[..n]), TargetRun(b, ops[..n]);
    if ops[n].key == k {
      TargetRunTyped(schema, a, ops[..n]);
      TargetRunTyped(schema, b, ops[..n]);
      if !ops[n].Delete? {
        assert FullImage(schema, ops[n]);
        UpsertReplaces(schema, pa, k, ops[n].row);
        UpsertReplaces(schema, pb, k, ops[n].row);
      }
    } else {
      var i :| 0 <= i < |ops| && ops[i].key == k;
      assert ops[..n][i].key == k;
      TouchedDecides(schema, a, b, ops[..n], k);
    }
  }

  lemma {:induction false} KeyPreservingSame(schema: Schema, db: Database, ops: seq<RowOp>)
    requires Typed(schema, db) && FullImages(schema, ops) && KeyPreserving(ops)
    ensures TargetRun(db, ops) == SourceRun(db, ops)
  {
    if ops != [] {
      var n := |ops| - 1;
      var pre := TargetRun(db, ops[..n]);
      KeyPreservingSame(schema, db, ops[..n]);
      TargetRunTyped(schema, db, ops[..n]);
      assert FullImage(schema, ops[n]) && KeepsKey(ops[n]);
      if !ops[n].Delete? {
        UpsertReplaces(schema, pre, ops[n].key, ops[n].row);
        if ops[n].Update? {
          assert (pre - {ops[n].key})[ops[n].key := ops[n].row] == pre[ops[n].key := ops[n].row];
        }
      }
    }
  }

  // Replaying changes twice over any mixture of old and new rows ends where replaying them once
  // does, as long as the keys they do not address were right already.
  lemma ReplayMirrors(schema: Schema, t: Database, db: Database, ops: seq<RowOp>)
    requires Typed(schema, t) && Typed(schema, db) && FullImages(schema, ops)
    requires AgreeOutside(t, TargetRun(db, ops), ops)
    ensures TargetRun(t, ops) == TargetRun(db, ops)
  {
    forall k ensures Lookup(TargetRun(t, ops), k) == Lookup(TargetRun(db, ops), k) {
      if Touched(ops, k) {
        TouchedDecides(schema, t, db, ops, k);
      } else {
        UntouchedKeeps(t, ops, k);
      }
    }
    SameLookups(TargetRun(t, ops), TargetRun(db, ops));
  }

  // Replaying a suffix of the history repairs any mixture of old and new rows, as long as the
  // keys the suffix does not address were right already.
  lemma ReplayHeals(schema: Schema, t: Database, db: Database, ops: seq<RowOp>)
    requires Typed(schema, t) && Typed(schema, db) && FullImages(schema, ops) && KeyPreserving(ops)
    requires AgreeOutside(t, SourceRun(db, ops), ops)
    ensures TargetRun(t, ops) == SourceRun(db, ops)
  {
    KeyPreservingSame(schema, db, ops);
    ReplayMirrors(schema, t, db, ops);
  }

  // ---------- the last change of a key ----------

  function LastOp(ops: seq<RowOp>, k: Key): Option<RowOp> {
    if ops == [] then None
    else if ops[|ops| - 1].key == k then Some(ops[|ops| - 1])
    else LastOp(ops[..|ops| - 1], k)
  }

  // What a change leaves under the key it addresses.
  function Outcome(op: RowOp): Option<Cells> {
    if op.Delete? then None else Some(op.row)
  }

  // What the changes leave under k in a database.
  function Left(db: Database, ops: seq<RowOp>, k: Key): Option<Cells> {
    match LastOp(ops, k)
    case None => Lookup(db, k)
    case Some(op) => Outcome(op)
  }

  lemma {:induction false} LastTouches(ops: seq<RowOp>, k: Key)
    ensures LastOp(ops, k).Some? <==> Touched(ops, k)
    ensures LastOp(ops, k).Some? ==> LastOp(ops, k).value.key == k && LastOp(ops, k).value in ops
  {
    if ops != [] {
      var n := |ops| - 1;
      LastTouches(ops[..n], k);
      assert ops == ops[..n] + [ops[n]];
      TouchedAppend(ops[..n], [ops[n]], k);
      assert ops[n].key == k ==> [ops[n]][0].key == k;
    }
  }

  lemma {:induction false} TargetAt(schema: Schema, db: Database, ops: seq<RowOp>, k: Key)
    requires Typed(schema, db) && FullImages(schema, ops)
    ensures Lookup(TargetRun(db, ops), k) == Left(db, ops, k)
  {
    if ops != [] {
      var n := |ops| - 1;
      TargetAt(schema, db, ops[..n], k);
      if ops[n].key == k && !ops[n].Delete? {
        TargetRunTyped(schema, db, ops[..n]);
        assert FullImage(schema, ops[n]);
        UpsertReplaces(schema, TargetRun(db, ops[..n]), k, ops[n].row);
      }
    }
  }

  // k is addressed, or moved away from.
  predicate Concerns(op: RowOp, k: Key) {
    op.key == k || (op.Update? && op.oldKey == k)
  }

  ghost predicate Concerned(ops: seq<RowOp>, k: Key) {
    exists i :: 0 <= i < |ops| && Concerns(ops[i], k)
  }

  lemma ConcernedAppend(a: seq<RowOp>, b: seq<RowOp>, k: Key)
    ensures Concerned(a + b, k) <==> Concerned(a, k) || Concerned(b, k)
  {
    if Concerned(a, k) {
      var i :| 0 <= i < |a| && Concerns(a[i], k);
      assert Concerns((a + b)[i], k);
    }
    if Concerned(b, k) {
      var i :| 0 <= i < |b| && Concerns(b[i], k);
      assert Concerns((a + b)[|a| + i], k);
    }
  }

  lemma {:induction false} UnconcernedKeeps(db: Database, ops: seq<RowOp>, k: Key)
    requires !Concerned(ops, k)
    ensures Lookup(SourceRun(db, ops), k) == Lookup(db, k)
  {
    if ops != [] {
      var n := |ops| - 1;
      assert !Concerns(ops[n], k);
      assert forall i :: 0 <= i < n ==> ops[..n][i] == ops[i];
      UnconcernedKeeps(db, ops[..n], k);
    }
  }

  lemma {:induction false} SourceRunTyped(schema: Schema, db: Database, ops: seq<RowOp>)
    requires Typed(schema, db) && FullImages(schema, ops)
    ensures Typed(schema, SourceRun(db, ops))
  {
    if ops != [] {
      var n := |ops| - 1;
      SourceRunTyped(schema, db, ops[..n]);
      assert FullImage(schema, ops[n]);
    }
  }

  // ---------- updates that change the primary key ----------

  // An update moved a row away from k, and nothing later addresses k.
  ghost predicate DanglingMove(ops: seq<RowOp>, k: Key) {
    exists i :: 0 <= i < |ops| && ops[i].Update? && ops[i].oldKey == k && ops[i].key != k
                && forall j :: i < j < |ops| ==> ops[j].key != k
  }

  lemma NoDanglingMove(k: Key)
    ensures !DanglingMove([], k)
  {
  }

  lemma DanglingSnoc(pre: seq<RowOp>, op: RowOp, k: Key)
    ensures DanglingMove(pre + [op], k) <==>
            op.key != k && ((op.Update? && op.oldKey == k) || DanglingMove(pre, k))
  {
    var ops := pre + [op];
    var n := |pre|;
    assert ops[n] == op;
    if DanglingMove(ops, k) {
      var i :| 0 <= i < |ops| && ops[i].Update? && ops[i].oldKey == k && ops[i].key != k
               && forall j :: i < j < |ops| ==> ops[j].key != k;
      if i < n {
        assert pre[i] == ops[i];
        assert forall j :: i < j < n ==> pre[j] == ops[j];
      }
    }
    if op.key != k && op.Update? && op.oldKey == k {
      assert ops[n].Update? && ops[n].oldKey == k && ops[n].key != k;
    } else if op.key != k && DanglingMove(pre, k) {
      var i :| 0 <= i < |pre| && pre[i].Update? && pre[i].oldKey == k && pre[i].key != k
               && forall j :: i < j < |pre| ==> pre[j].key != k;
      assert ops[i] == pre[i];
      assert forall j :: i < j < n ==> ops[j] == pre[j];
    }
  }

  lemma InitOfRun(schema: Schema, db: Database, ops: seq<RowOp>)
    requires ops != [] && FullImages(schema, ops) && AcceptedRun(db, ops)
    ensures var n := |ops| - 1;
            && FullImages(schema, ops[..n]) && AcceptedRun(db, ops[..n])
            && FullImage(schema, ops[n]) && Accepted(SourceRun(db, ops[..n]), ops[n])
  {
    var n := |ops| - 1;
    forall i | 0 <= i < n ensures Accepted(SourceRun(db, ops[..n][..i]), ops[..n][i]) {
      assert ops[..n][..i] == ops[..i] && ops[..n][i] == ops[i];
    }
  }

  lemma {:induction false} MoveOutcome(schema: Schema, db: Database, ops: seq<RowOp>, k: Key)
    requires Typed(schema, db) && FullImages(schema, ops) && AcceptedRun(db, ops)
    ensures DanglingMove(ops, k) ==> k in TargetRun(db, ops) && k !in SourceRun(db, ops)
    ensures !DanglingMove(ops, k) ==> Lookup(TargetRun(db, ops), k) == Lookup(SourceRun(db, ops), k)
  {
    hide AcceptedRun, FullImages, Typed, DanglingMove;
    if ops == [] {
      NoDanglingMove(k);
    } else {
      var n := |ops| - 1;
      var pre, op := ops[..n], ops[n];
      assert ops == pre + [op];
      InitOfRun(schema, db, ops);
      MoveOutcome(schema, db, pre, k);
      DanglingSnoc(pre, op, k);
      TargetRunTyped(schema, db, pre);
      if !op.Delete? {
        UpsertReplaces(schema, TargetRun(db, pre), op.key, op.row);
      }
    }
  }

  /** An upsert names the columns of its image and no others: an image that leaves a column out keeps what
      the target has in it, and what a new row of the target then lacks stays absent. */
  lemma UpsertColumns(db: Database, k: Key, r: Cells, c: string, j: Key)
    ensures k in Upsert(db, k, r) && (j != k ==> Lookup(Upsert(db, k, r), j) == Lookup(db, j))
    ensures c in r ==> c in Upsert(db, k, r)[k] && Upsert(db, k, r)[k][c] == r[c]
    ensures c !in r ==> (c in Upsert(db, k, r)[k] <==> k in db && c in db[k])
    ensures c !in r && k in db && c in db[k] ==> Upsert(db, k, r)[k][c] == db[k][c]
  {
  }

  /** Writing every update as an upsert of its new row reproduces the source exactly when no
      key is left by an update and never addressed again. */
  lemma ConvergesIffNoDanglingMove(schema: Schema, db: Database, ops: seq<RowOp>)
    requires Typed(schema, db) && FullImages(schema, ops) && AcceptedRun(db, ops)
    ensures TargetRun(db, ops) == SourceRun(db, ops) <==> forall k :: !DanglingMove(ops, k)
  {
    forall k {
      MoveOutcome(schema, db, ops, k);
    }
    if forall k :: !DanglingMove(ops, k) {
      SameLookups(TargetRun(db, ops), SourceRun(db, ops));
    }
  }

  // One update that changes the key of its row leaves the old row behind.
  lemma KeyChangeDiverges(o: Key, k: Key, r: Cells, r': Cells)
    requires o != k
    ensures Accepted(map[o := r], Update(o, k, r'))
    ensures SourceRun(map[o := r], [Update(o, k, r')]) == map[k := r']
    ensures TargetRun(map[o := r], [Update(o, k, r')]) == map[o := r, k := r']
  {
    var op := Update(o, k, r');
    assert [op][..0] == [];
    assert map[o := r] - {o} == map[];
    assert SourceRun(map[o := r], [op]) == SourceApply(SourceRun(map[o := r], [op][..0]), op);
    assert TargetRun(map[o := r], [op]) == TargetApply(TargetRun(map[o := r], [op][..0]), op);
  }

  // A key that was left by an update and never addressed again.
  lemma DanglingIsLast(ops: seq<RowOp>, k: Key)
    requires Concerned(ops, k) && !Touched(ops, k)
    ensures DanglingMove(ops, k)
  {
    var i :| 0 <= i < |ops| && Concerns(ops[i], k);
    assert ops[i].key != k;
  }

  // Leaving a key for good in the later part of the changes is leaving it for good.
  lemma DanglingInTail(a: seq<RowOp>, b: seq<RowOp>, k: Key)
    requires DanglingMove(b, k)
    ensures DanglingMove(a + b, k)
  {
    var i :| 0 <= i < |b| && b[i].Update? && b[i].oldKey == k && b[i].key != k
             && forall j :: i < j < |b| ==> b[j].key != k;
    var ops := a + b;
    assert ops[|a| + i] == b[i];
    forall j | |a| + i < j < |ops| ensures ops[j].key != k {
      assert ops[j] == b[j - |a|];
    }
  }

  // ---------- changes that could not be decoded ----------

  // A change of the log, and whether the consumer could decode it.
  datatype Sent = Sent(op: RowOp, decodable: bool)

  function AllOps(ss: seq<Sent>): (ops: seq<RowOp>)
    ensures |ops| == |ss| && forall i :: 0 <= i < |ss| ==> ops[i] == ss[i].op
  {
    if ss == [] then [] else AllOps(ss[..|ss| - 1]) + [ss[|ss| - 1].op]
  }

  function Decoded(ss: seq<Sent>): seq<RowOp> {
    if ss == [] then []
    else Decoded(ss[..|ss| - 1]) + (if ss[|ss| - 1].decodable then [ss[|ss| - 1].op] else [])
  }

  // The last change that addresses k.
  function LastSent(ss: seq<Sent>, k: Key): Option<Sent> {
    if ss == [] then None
    else if ss[|ss| - 1].op.key == k then Some(ss[|ss| - 1])
    else LastSent(ss[..|ss| - 1], k)
  }

  lemma {:induction false} SentAppend(a: seq<Sent>, b: seq<Sent>)
    ensures AllOps(a + b) == AllOps(a) + AllOps(b) && Decoded(a + b) == Decoded(a) + Decoded(b)
    decreases |b|
  {
    if b == [] {
      assert a + b == a;
    } else {
      assert (a + b)[..|a + b| - 1] == a + b[..|b| - 1];
      SentAppend(a, b[..|b| - 1]);
    }
  }

  lemma {:induction false} LastSentIs(ss: seq<Sent>, k: Key)
    ensures LastOp(AllOps(ss), k) == match LastSent(ss, k) case None => None case Some(x) => Some(x.op)
    ensures LastSent(ss, k) == None ==> LastOp(Decoded(ss), k) == None
    ensures LastSent(ss, k).Some? && LastSent(ss, k).value.decodable ==>
              LastOp(Decoded(ss), k) == Some(LastSent(ss, k).value.op)
  {
    if ss != [] {
      var n := |ss| - 1;
      LastSentIs(ss[..n], k);
      assert AllOps(ss)[..n] == AllOps(ss[..n]);
      if ss[n].decodable {
        var ops := Decoded(ss[..n]);
        assert (ops + [ss[n].op])[..|ops|] == ops;
      } else {
        assert Decoded(ss) == Decoded(ss[..n]);
      }
    }
  }

  lemma {:induction false} LastSentAppend(a: seq<Sent>, b: seq<Sent>, k: Key)
    ensures LastSent(a + b, k) == if LastSent(b, k).Some? then LastSent(b, k) else LastSent(a, k)
    decreases |b|
  {
    if b == [] {
      assert a + b == a;
    } else {
      assert (a + b)[..|a + b| - 1] == a + b[..|b| - 1];
      LastSentAppend(a, b[..|b| - 1], k);
    }
  }

  lemma {:induction false} DecodedFull(schema: Schema, ss: seq<Sent>)
    requires FullImages(schema, AllOps(ss))
    ensures FullImages(schema, Decoded(ss))
  {
    if ss != [] {
      var n := |ss| - 1;
      assert AllOps(ss)[..n] == AllOps(ss[..n]);
      assert forall i :: 0 <= i < n ==> AllOps(ss[..n])[i] == AllOps(ss)[i];
      DecodedFull(schema, ss[..n]);
      assert FullImage(schema, AllOps(ss)[n]);
    }
  }

  lemma {:induction false} AllDecoded(ss: seq<Sent>)
    requires forall i :: 0 <= i < |ss| ==> ss[i].decodable
    ensures Decoded(ss) == AllOps(ss)
  {
    if ss != [] {
      AllDecoded(ss[..|ss| - 1]);
    }
  }

  // What the source has under k, from its initial state and the log.
  ghost function SourceLeft(db: Database, ss: seq<Sent>, k: Key): Option<Cells> {
    if DanglingMove(AllOps(ss), k) then None else Left(db, AllOps(ss), k)
  }

  lemma SourceAt(schema: Schema, db: Database, ss: seq<Sent>, k: Key)
    requires Typed(schema, db) && FullImages(schema, AllOps(ss)) && AcceptedRun(db, AllOps(ss))
    ensures Lookup(SourceRun(db, AllOps(ss)), k) == SourceLeft(db, ss, k)
  {
    MoveOutcome(schema, db, AllOps(ss), k);
    TargetAt(schema, db, AllOps(ss), k);
  }

  // A row is held under a key that an update left for good.
  ghost predicate LeftBehind(ss: seq<Sent>, held: Option<Cells>, k: Key) {
    DanglingMove(AllOps(ss), k) && held.Some?
  }

  // The last change of k could not be decoded, and something else is held than it left.
  ghost predicate SkippedOver(ss: seq<Sent>, held: Option<Cells>, k: Key) {
    && !DanglingMove(AllOps(ss), k)
    && LastSent(ss, k).Some? && !LastSent(ss, k).value.decodable && held != Outcome(LastSent(ss, k).value.op)
  }

  /** With updates that change keys and changes that cannot be decoded: writing the decodable changes as
      upserts and deletes reproduces the source if and only if no row is left behind under a key that
      an update left for good, and no key whose last change was skipped holds something else than
      that change left. */
  lemma ConvergesIff(schema: Schema, db: Database, ss: seq<Sent>)
    requires Typed(schema, db) && FullImages(schema, AllOps(ss)) && AcceptedRun(db, AllOps(ss))
    ensures TargetRun(db, Decoded(ss)) == SourceRun(db, AllOps(ss)) <==>
            forall k :: !LeftBehind(ss, Left(db, Decoded(ss), k), k) && !SkippedOver(ss, Left(db, Decoded(ss), k), k)
  {
    hide AcceptedRun, DanglingMove, TargetRun, SourceRun;
    DecodedFull(schema, ss);
    forall k
      ensures Lookup(TargetRun(db, Decoded(ss)), k) == Lookup(SourceRun(db, AllOps(ss)), k) <==>
              !LeftBehind(ss, Left(db, Decoded(ss), k), k) && !SkippedOver(ss, Left(db, Decoded(ss), k), k)
    {
      TargetAt(schema, db, Decoded(ss), k);
      SourceAt(schema, db, ss, k);
      LastSentIs(ss, k);
    }
    if forall k :: !LeftBehind(ss, Left(db, Decoded(ss), k), k) && !SkippedOver(ss, Left(db, Decoded(ss), k), k) {
      SameLookups(TargetRun(db, Decoded(ss)), SourceRun(db, AllOps(ss)));
    }
  }
}
