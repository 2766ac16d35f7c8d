/** From the snapshot to the stream: the order in which slot, position and export are taken, what
    the copied rows are, and how the order and a retry can lose or keep rows. */
module Handoff {
  import opened Wrappers
  import opened Rows
  import opened Sink
  import opened Pipeline
  import opened Convergence
  import Flush
  import opened Schedule

  // ---------- what an export sees ----------

  // The transactions of the log whose index is visible, in log order.
  function Seen(log: seq<Txn>, visible: set<nat>): seq<Txn> {
    if log == [] then []
    else
      var n := |log| - 1;
      Seen(log[..n], visible) + (if n in visible then [log[n]] else [])
  }

  function SnapshotOf(origin: Database, log: seq<Txn>, visible: set<nat>): Database {
    SourceRun(origin, LogOps(Seen(log, visible)))
  }

  function SourceOf(origin: Database, log: seq<Txn>): Database {
    SourceRun(origin, LogOps(log))
  }

  lemma {:induction false} SeenImaged(schema: Schema, log: seq<Txn>, visible: set<nat>)
    requires ImagedLog(schema, log)
    ensures ImagedLog(schema, Seen(log, visible))
  {
    if log != [] {
      SeenImaged(schema, log[..|log| - 1], visible);
    }
  }

  lemma {:induction false} SeenAll(log: seq<Txn>, visible: set<nat>)
    requires forall i: nat :: i < |log| ==> i in visible
    ensures Seen(log, visible) == log
  {
    if log != [] {
      SeenAll(log[..|log| - 1], visible);
    }
  }

  // One more transaction at the end of the log.
  lemma SourceOfSnoc(origin: Database, log: seq<Txn>, t: Txn)
    ensures SourceOf(origin, log + [t]) == SourceRun(SourceOf(origin, log), LogOps([t]))
  {
    hide LogOps, SentOps, LogSent;
    LogSentSplit(log + [t], |log|);
    assert (log + [t])[..|log|] == log && (log + [t])[|log|..] == [t];
    SourceRunAppend(origin, LogOps(log), LogOps([t]));
  }

  lemma SourceOfTyped(schema: Schema, origin: Database, log: seq<Txn>)
    requires Typed(schema, origin) && ImagedLog(schema, log)
    ensures Typed(schema, SourceOf(origin, log))
  {
    hide LogOps;
    ImagedOps(schema, log);
    SourceRunTyped(schema, origin, LogOps(log));
  }

  // a and b may differ only on keys that ops address or move away from.
  ghost predicate AgreeElsewhere(a: Database, b: Database, ops: seq<RowOp>) {
    forall k :: !Concerned(ops, k) ==> Lookup(a, k) == Lookup(b, k)
  }

  lemma TailConcerns(log: seq<Txn>, h: nat, k: Key)
    requires h < |log| && !Concerned(LogOps(log[h..]), k)
    ensures !Concerned(LogOps(log[..|log| - 1][h..]), k) && !Concerned(LogOps([log[|log| - 1]]), k)
  {
    hide LogOps, SentOps, LogSent;
    var n := |log| - 1;
    LogSentSplit(log[h..], n - h);
    assert log[h..][..n - h] == log[..n][h..] && log[h..][n - h..] == [log[n]];
    ConcernedAppend(LogOps(log[..n][h..]), LogOps([log[n]]), k);
  }

  // An export that sees the first h transactions, and any of the later ones, is right about
  // every key that the later ones do not concern.
  lemma {:induction false} SeenAgrees(origin: Database, log: seq<Txn>, visible: set<nat>, h: nat)
    requires h <= |log| && forall i: nat :: i < h ==> i in visible
    ensures AgreeElsewhere(SnapshotOf(origin, log, visible), SourceOf(origin, log), LogOps(log[h..]))
  {
    hide LogOps, SourceRun, Concerned;
    if |log| == h {
      SeenAll(log, visible);
    } else {
      var n := |log| - 1;
      var t, pre := log[n], log[..n];
      assert pre + [t] == log;
      SeenAgrees(origin, pre, visible, h);
      SourceOfSnoc(origin, pre, t);
      SourceOfSnoc(origin, Seen(pre, visible), t);
      assert Seen(log, visible) == if n in visible then Seen(pre, visible) + [t] else Seen(pre, visible);
      forall k | !Concerned(LogOps(log[h..]), k)
        ensures Lookup(SnapshotOf(origin, log, visible), k) == Lookup(SourceOf(origin, log), k)
      {
        TailConcerns(log, h, k);
        UnconcernedKeeps(SourceOf(origin, pre), LogOps([t]), k);
        UnconcernedKeeps(SnapshotOf(origin, pre, visible), LogOps([t]), k);
      }
    }
  }

  // ---------- slot, position, export, copy ----------

  datatype Phase = NeedSlot | NeedPosition | NeedExport | Copying

  datatype Preparation = Preparation(
    phase: Phase,
    origin: Database,
    log: seq<Txn>,
    walEnd: nat,
    slot: Option<nat>,        // the position the slot keeps the log from
    lsn: nat,                 // captured by the coordinator, stored in the job row
    snapshot: Database,       // what the exported transaction sees
    target: Database,
    // history, read by no step but Land
    initial: Database,        // the target before anything was copied
    exports: seq<Database>,   // of all attempts, the last one is the snapshot
    landed: seq<Flush.Row>)   // the rows written to the target, in order

  datatype Preparing =
    | OtherCommit(t: Txn)
    | CreateSlot
    | CapturePosition
    | Export(visible: set<nat>)
    | Land(row: Flush.Row)  // a row of this or of an earlier export reaches the target
    | Retry                 // a phase failed: the next attempt starts over, slot and target stay

  predicate FromExport(exports: seq<Database>, row: Flush.Row) {
    exists i :: 0 <= i < |exports| && row.key in exports[i] && exports[i][row.key] == row.cells
  }

  ghost predicate CanPrepare(schema: Schema, p: Preparation, step: Preparing) {
    match step
    case OtherCommit(t) => ValidTxn(t) && ImagedTxn(schema, t) && p.walEnd <= t.commitLSN
    case CreateSlot => p.phase.NeedSlot?
    case CapturePosition => p.phase.NeedPosition?
    case Export(visible) =>
      // Everything committed below the captured position is visible to the export.
      p.phase.NeedExport?
      && forall i: nat :: i < |p.log| && p.log[i].commitLSN < p.lsn ==> i in visible
    case Land(row) => FromExport(p.exports, row)
    case Retry => true
  }

  function Prepare(p: Preparation, step: Preparing): Preparation {
    match step
    case OtherCommit(t) => p.(log := p.log + [t], walEnd := t.endLSN)
    case CreateSlot => p.(phase := NeedPosition, slot := if p.slot.Some? then p.slot else Some(p.walEnd))
    case CapturePosition => p.(phase := NeedExport, lsn := p.walEnd)
    case Export(visible) =>
      var snap := SnapshotOf(p.origin, p.log, visible);
      p.(phase := Copying, snapshot := snap, exports := p.exports + [snap])
    case Land(row) => p.(target := Flush.InsertIfAbsent(p.target, row), landed := p.landed + [row])
    case Retry => p.(phase := NeedSlot)
  }

  ghost predicate PrepareRun(schema: Schema, p: Preparation, steps: seq<Preparing>, p': Preparation)
    decreases |steps|
  {
    if steps == [] then p' == p
    else CanPrepare(schema, p, steps[0]) && PrepareRun(schema, Prepare(p, steps[0]), steps[1..], p')
  }

  // The slot is never ahead of the captured position, and the export is right about every key
  // that is not concerned from that position on.
  ghost predicate Placed(schema: Schema, p: Preparation) {
    && LogOk(p.log, p.walEnd) && ImagedLog(schema, p.log) && Typed(schema, p.origin)
    && (p.slot.Some? ==> p.slot.value <= p.walEnd)
    && (!p.phase.NeedSlot? ==> p.slot.Some?)
    && (p.phase.NeedExport? || p.phase.Copying? ==> p.slot.Some? && p.slot.value <= p.lsn <= p.walEnd)
    && (p.phase.Copying? ==>
          && Typed(schema, p.snapshot)
          && AgreeElsewhere(p.snapshot, SourceOf(p.origin, p.log), LogOps(p.log[From(p)..])))
  }

  // The first transaction that a stream opened at the captured position delivers.
  function From(p: Preparation): (i: nat)
    ensures i <= |p.log|
  {
    ResendIndex(p.log, p.lsn)
  }

  // What the first session writes if nothing commits and nothing crashes.
  function Replay(p: Preparation): seq<RowOp> {
    SentOps(p.log[From(p)..])
  }

  // The target holds what landed, attempt after attempt.
  ghost predicate Copied(schema: Schema, p: Preparation) {
    && Typed(schema, p.initial)
    && (forall i :: 0 <= i < |p.exports| ==> Typed(schema, p.exports[i]))
    && (forall i :: 0 <= i < |p.landed| ==> FromExport(p.exports, p.landed[i]))
    && p.target == RunWrites(p.initial, Snaps(p.landed))
  }

  ghost predicate Prepared(schema: Schema, p: Preparation) {
    Placed(schema, p) && Copied(schema, p)
  }

  // Nothing prepared yet.
  ghost predicate Beginning(schema: Schema, p: Preparation) {
    && p.phase.NeedSlot? && p.slot == None && LogOk(p.log, p.walEnd) && ImagedLog(schema, p.log)
    && Typed(schema, p.origin) && Typed(schema, p.initial)
    && p.target == p.initial && p.exports == [] && p.landed == []
  }

  // A commit above the position does not move the point of resumption.
  lemma ResendStable(log: seq<Txn>, t: Txn, p: nat)
    requires ValidLog(log) && p <= t.commitLSN
    ensures ResendIndex(log + [t], p) == ResendIndex(log, p)
  {
    assert (log + [t])[..|log|] == log;
  }

  lemma OtherCommitPlaced(schema: Schema, p: Preparation, t: Txn)
    requires Placed(schema, p) && CanPrepare(schema, p, OtherCommit(t))
    ensures Placed(schema, Prepare(p, OtherCommit(t)))
  {
    hide LogOps, SourceOf, ImagedTxn, LogOk, AgreeElsewhere;
    var p' := Prepare(p, OtherCommit(t));
    CommitLogOk(p.log, p.walEnd, t);
    if p.phase.Copying? {
      ReplayGrows(schema, p, t);
    }
  }

  lemma ReplayGrows(schema: Schema, p: Preparation, t: Txn)
    requires Placed(schema, p) && p.phase.Copying? && CanPrepare(schema, p, OtherCommit(t))
    ensures var p' := Prepare(p, OtherCommit(t));
            AgreeElsewhere(p.snapshot, SourceOf(p.origin, p'.log), LogOps(p'.log[From(p')..]))
  {
    hide LogOps, SourceOf, Concerned, ImagedTxn;
    var p' := Prepare(p, OtherCommit(t));
    var h := From(p);
    ResendStable(p.log, t, p.lsn);
    SourceOfSnoc(p.origin, p.log, t);
    assert p'.log[..|p'.log| - 1] == p.log;
    forall k | !Concerned(LogOps(p'.log[h..]), k)
      ensures Lookup(p.snapshot, k) == Lookup(SourceOf(p.origin, p'.log), k)
    {
      TailConcerns(p'.log, h, k);
      UnconcernedKeeps(SourceOf(p.origin, p.log), LogOps([t]), k);
    }
  }

  lemma ExportSees(schema: Schema, p: Preparation, visible: set<nat>)
    requires Placed(schema, p) && CanPrepare(schema, p, Export(visible))
    ensures Typed(schema, SnapshotOf(p.origin, p.log, visible))
    ensures AgreeElsewhere(SnapshotOf(p.origin, p.log, visible), SourceOf(p.origin, p.log), LogOps(p.log[From(p)..]))
  {
    hide LogOps, ResendIndex, ImagedTxn;
    SeenImaged(schema, p.log, visible);
    SourceOfTyped(schema, p.origin, Seen(p.log, visible));
    SeenAgrees(p.origin, p.log, visible, From(p));
  }

  lemma StepKeepsPlaced(schema: Schema, p: Preparation, step: Preparing)
    requires Placed(schema, p) && CanPrepare(schema, p, step)
    ensures Placed(schema, Prepare(p, step))
  {
    hide LogOps, ResendIndex, SourceOf, SnapshotOf, LogOk, AgreeElsewhere, ImagedTxn;
    match step
    case OtherCommit(t) => OtherCommitPlaced(schema, p, t);
    case Export(visible) =>
      ExportSees(schema, p, visible);
      assert From(Prepare(p, step)) == From(p);
    case Land(row) =>
      assert From(Prepare(p, step)) == From(p);
    case _ =>
  }

  lemma FromMore(exports: seq<Database>, e: Database, row: Flush.Row)
    requires FromExport(exports, row)
    ensures FromExport(exports + [e], row)
  {
    var i :| 0 <= i < |exports| && row.key in exports[i] && exports[i][row.key] == row.cells;
    assert (exports + [e])[i] == exports[i];
  }

  lemma ExportCopied(schema: Schema, p: Preparation, visible: set<nat>)
    requires Placed(schema, p) && Copied(schema, p) && CanPrepare(schema, p, Export(visible))
    ensures Copied(schema, Prepare(p, Export(visible)))
  {
    hide Placed, SnapshotOf, FromExport, Typed, RunWrites, SourceOf, AgreeElsewhere;
    var p' := Prepare(p, Export(visible));
    ExportSees(schema, p, visible);
    forall i | 0 <= i < |p'.landed| ensures FromExport(p'.exports, p'.landed[i]) {
      FromMore(p.exports, p'.exports[|p.exports|], p.landed[i]);
    }
  }

  lemma LandCopied(schema: Schema, p: Preparation, row: Flush.Row)
    requires Copied(schema, p) && CanPrepare(schema, p, Land(row))
    ensures Copied(schema, Prepare(p, Land(row)))
  {
    hide FromExport, Typed, RunWrites, Snaps;
    SnapsMore(p.landed, row);
    RunWritesAppend(p.initial, Snaps(p.landed), [Snap(row)]);
    OneWrite(p.target, Snap(row));
  }

  lemma SnapsMore(rows: seq<Flush.Row>, row: Flush.Row)
    ensures Snaps(rows + [row]) == Snaps(rows) + [Snap(row)]
  {
    assert (rows + [row])[..|rows|] == rows;
  }

  lemma StepKeepsCopied(schema: Schema, p: Preparation, step: Preparing)
    requires Placed(schema, p) && Copied(schema, p) && CanPrepare(schema, p, step)
    ensures Copied(schema, Prepare(p, step))
  {
    hide Placed, FromExport, Typed, RunWrites, Snaps, SnapshotOf;
    match step
    case Export(visible) => ExportCopied(schema, p, visible);
    case Land(row) => LandCopied(schema, p, row);
    case _ =>
  }

  /** Every step of the preparation, retries and commits of others included, keeps the order of slot,
      position and export, and the record of what reached the target. */
  lemma StepKeepsPrepared(schema: Schema, p: Preparation, step: Preparing)
    requires Prepared(schema, p) && CanPrepare(schema, p, step)
    ensures Prepared(schema, Prepare(p, step))
  {
    hide Placed, Copied, CanPrepare;
    StepKeepsPlaced(schema, p, step);
    StepKeepsCopied(schema, p, step);
  }

  lemma {:induction false} RunKeepsPrepared(schema: Schema, p: Preparation, steps: seq<Preparing>, p': Preparation)
    requires Prepared(schema, p) && PrepareRun(schema, p, steps, p')
    ensures Prepared(schema, p') && p'.initial == p.initial && p'.origin == p.origin
    decreases |steps|
  {
    hide Prepared, CanPrepare;
    if steps != [] {
      StepKeepsPrepared(schema, p, steps[0]);
      RunKeepsPrepared(schema, Prepare(p, steps[0]), steps[1..], p');
    }
  }

  lemma BeginningPrepared(schema: Schema, p: Preparation)
    requires Beginning(schema, p)
    ensures Prepared(schema, p)
  {
  }

  // The server starts at the requested position, or at the slot's if that is higher.
  function StartOf(p: Preparation): (i: nat)
    ensures i <= |p.log|
  {
    ResendIndex(p.log, Max(if p.slot.Some? then p.slot.value else 0, p.lsn))
  }

  lemma {:induction false} PrepareThen(schema: Schema, p: Preparation, a: seq<Preparing>, q: Preparation,
                                       b: seq<Preparing>, p': Preparation)
    requires PrepareRun(schema, p, a, q) && PrepareRun(schema, q, b, p')
    ensures PrepareRun(schema, p, a + b, p')
    decreases |a|
  {
    hide CanPrepare, Prepare;
    if a == [] {
      assert a + b == b;
    } else {
      PrepareThen(schema, Prepare(p, a[0]), a[1..], q, b, p');
      assert (a + b)[1..] == a[1..] + b;
    }
  }

  lemma PrepareNothing(schema: Schema, p: Preparation)
    ensures PrepareRun(schema, p, [], p)
  {
  }

  lemma PrepareMore(schema: Schema, p: Preparation, step: Preparing, rest: seq<Preparing>, steps: seq<Preparing>,
                    p': Preparation)
    requires CanPrepare(schema, p, step) && PrepareRun(schema, Prepare(p, step), rest, p')
    requires steps == [step] + rest
    ensures PrepareRun(schema, p, steps, p')
  {
    hide CanPrepare, Prepare;
    assert steps[1..] == rest;
  }

  // ---------- how it fails ----------

  lemma OneChange(t: Txn, op: RowOp, at: nat)
    requires t.inner == [Data(at, Change(op))]
    ensures LogOps([t]) == [op] && SentOps([t]) == [op]
  {
    assert t.inner[..0] == [];
    assert Logged(t.inner) == Logged(t.inner[..0]) + [Sent(op, true)];
    LogSentOne(t);
    assert [Sent(op, true)][..0] == [];
    assert Decoded([Sent(op, true)]) == Decoded([Sent(op, true)][..0]) + [op];
  }

  lemma OneSourceRun(db: Database, op: RowOp)
    ensures SourceRun(db, [op]) == SourceApply(db, op)
  {
    assert [op][..0] == [];
    assert SourceRun(db, [op]) == SourceApply(SourceRun(db, [op][..0]), op);
  }

  lemma SnapshotOfNothing(origin: Database, visible: set<nat>)
    ensures SnapshotOf(origin, [], visible) == origin
  {
    assert LogOps([]) == [];
  }

  // Position, export and slot in the order that the comment above Prepare asks for, with one insert
  // committing before the slot exists: no later than the position, everything committed is visible, and
  // still the stream starts behind the insert.
  lemma LateSlotLosesRow(schema: Schema, p0: Preparation, t: Txn, k: Key, r: Cells, at: nat) returns (p: Preparation)
    requires Beginning(schema, p0) && p0.log == [] && p0.origin == map[] && p0.initial == map[]
    requires ValidTxn(t) && ImagedTxn(schema, t) && p0.walEnd <= t.commitLSN
    requires t.inner == [Data(at, Change(Insert(k, r)))]
    ensures p == Prepare(Prepare(Prepare(Prepare(p0, CapturePosition), Export({})), OtherCommit(t)), CreateSlot)
    ensures p.snapshot == map[] && p.target == map[]
    ensures SourceOf(p.origin, p.log) == map[k := r]
    ensures StartOf(p) == |p.log| && p.log[StartOf(p)..] == []
  {
    hide LogOps, SentOps, SourceRun, SnapshotOf, ResendIndex, LogOk, ImagedLog, Typed, ValidTxn, ImagedTxn;
    SnapshotOfNothing(p0.origin, {});
    p := Prepare(Prepare(Prepare(Prepare(p0, CapturePosition), Export({})), OtherCommit(t)), CreateSlot);
    assert p.log == [t] && p.slot == Some(t.endLSN) && p.lsn == p0.walEnd;
    OneChange(t, Insert(k, r), at);
    OneSourceRun(map[], Insert(k, r));
    BehindOne(t, p.lsn);
  }

  lemma BehindOne(t: Txn, lsn: nat)
    requires ValidTxn(t) && lsn <= t.commitLSN
    ensures ResendIndex([t], Max(t.endLSN, lsn)) == 1
  {
    assert [t][..0] == [];
  }

  lemma SeenOne(t: Txn)
    ensures Seen([t], {0}) == [t]
  {
    assert [t][..0] == [];
    assert Seen([t], {0}) == Seen([t][..0], {0}) + [t];
  }

  lemma SnapshotOfUpdate(t: Txn, k: Key, older: Cells, newer: Cells, at: nat)
    requires t.inner == [Data(at, Change(Update(k, k, newer)))]
    ensures SnapshotOf(map[k := older], [t], {0}) == map[k := newer]
  {
    hide LogOps, SentOps, Seen, SourceRun;
    SeenOne(t);
    OneChange(t, Update(k, k, newer), at);
    OneSourceRun(map[k := older], Update(k, k, newer));
    assert (map[k := older] - {k})[k := newer] == map[k := newer];
  }

  // One attempt copies a row and is retried, the row is updated before the second position is
  // captured: the second copy finds the old row and leaves it, and the replay does not address it.
  lemma RetryKeepsStaleRow(schema: Schema, p0: Preparation, t: Txn, k: Key, older: Cells, newer: Cells, at: nat)
    returns (first: seq<Preparing>, second: seq<Preparing>, p: Preparation)
    requires Beginning(schema, p0) && p0.origin == map[k := older] && p0.log == [] && p0.initial == map[]
    requires ValidTxn(t) && ImagedTxn(schema, t) && p0.walEnd <= t.commitLSN
    requires t.inner == [Data(at, Change(Update(k, k, newer)))]
    ensures first == [CreateSlot, CapturePosition, Export({}), Land(Flush.Row(k, older)), Retry]
    ensures second == [OtherCommit(t), CreateSlot, CapturePosition] + [Export({0}), Land(Flush.Row(k, newer))]
    ensures PrepareRun(schema, p0, first + second, p) && p.phase.Copying? && Replay(p) == []
    ensures p.snapshot == map[k := newer] && p.target == map[k := older]
  {
    hide PrepareRun, ImagedTxn, LogOk, ImagedLog, Typed;
    first := [CreateSlot, CapturePosition, Export({}), Land(Flush.Row(k, older)), Retry];
    var again, copy := [OtherCommit(t), CreateSlot, CapturePosition], [Export({0}), Land(Flush.Row(k, newer))];
    second := again + copy;
    var p1 := FirstAttempt(schema, p0, k, older);
    var p2 := SecondPosition(schema, p1, t);
    p := SecondCopy(schema, p2, t, k, older, newer, at);
    PrepareThen(schema, p1, again, p2, copy, p);
    PrepareThen(schema, p0, first, p1, second, p);
  }

  lemma FirstAttempt(schema: Schema, p0: Preparation, k: Key, older: Cells) returns (p: Preparation)
    requires Beginning(schema, p0) && p0.origin == map[k := older] && p0.log == [] && p0.initial == map[]
    ensures PrepareRun(schema, p0, [CreateSlot, CapturePosition, Export({}), Land(Flush.Row(k, older)), Retry], p)
    ensures p == p0.(slot := Some(p0.walEnd), lsn := p0.walEnd, snapshot := map[k := older], target := map[k := older],
                     exports := [map[k := older]], landed := [Flush.Row(k, older)])
  {
    hide PrepareRun, SnapshotOf, LogOk, ImagedLog, Typed;
    var row := Flush.Row(k, older);
    var p2 := Positioned(schema, p0);
    SnapshotOfNothing(p0.origin, {});
    var p3 := Prepare(p2, Export({}));
    FromLast(p3.exports, row);
    var p4 := Prepare(p3, Land(row));
    p := Prepare(p4, Retry);
    PrepareNothing(schema, p);
    PrepareMore(schema, p4, Retry, [], [Retry], p);
    PrepareMore(schema, p3, Land(row), [Retry], [Land(row), Retry], p);
    PrepareMore(schema, p2, Export({}), [Land(row), Retry], [Export({}), Land(row), Retry], p);
    PrepareThen(schema, p0, [CreateSlot, CapturePosition], p2, [Export({}), Land(row), Retry], p);
    assert [CreateSlot, CapturePosition] + [Export({}), Land(row), Retry]
        == [CreateSlot, CapturePosition, Export({}), Land(row), Retry];
  }

  lemma Positioned(schema: Schema, p0: Preparation) returns (p: Preparation)
    requires p0.phase.NeedSlot?
    ensures PrepareRun(schema, p0, [CreateSlot, CapturePosition], p)
    ensures p == p0.(phase := NeedExport, lsn := p0.walEnd,
                     slot := if p0.slot.Some? then p0.slot else Some(p0.walEnd))
  {
    hide PrepareRun;
    var p1 := Prepare(p0, CreateSlot);
    p := Prepare(p1, CapturePosition);
    PrepareNothing(schema, p);
    PrepareMore(schema, p1, CapturePosition, [], [CapturePosition], p);
    PrepareMore(schema, p0, CreateSlot, [CapturePosition], [CreateSlot, CapturePosition], p);
  }

  lemma FromLast(exports: seq<Database>, row: Flush.Row)
    requires exports != [] && row.key in exports[|exports| - 1] && exports[|exports| - 1][row.key] == row.cells
    ensures FromExport(exports, row)
  {
  }

  lemma SecondPosition(schema: Schema, p0: Preparation, t: Txn) returns (p: Preparation)
    requires p0.phase.NeedSlot? && p0.slot.Some? && p0.log == []
    requires ValidTxn(t) && ImagedTxn(schema, t) && p0.walEnd <= t.commitLSN
    ensures PrepareRun(schema, p0, [OtherCommit(t), CreateSlot, CapturePosition], p)
    ensures p == p0.(phase := NeedExport, log := [t], walEnd := t.endLSN, lsn := t.endLSN)
  {
    hide PrepareRun, ImagedTxn, ValidTxn;
    var p1 := Prepare(p0, OtherCommit(t));
    assert p1.log == [t];
    p := Positioned(schema, p1);
    PrepareMore(schema, p0, OtherCommit(t), [CreateSlot, CapturePosition],
                [OtherCommit(t), CreateSlot, CapturePosition], p);
  }

  lemma SecondCopy(schema: Schema, p0: Preparation, t: Txn, k: Key, older: Cells, newer: Cells, at: nat)
    returns (p: Preparation)
    requires p0.phase.NeedExport? && p0.origin == map[k := older] && p0.log == [t] && p0.lsn == t.endLSN
    requires p0.target == map[k := older] && ValidTxn(t)
    requires t.inner == [Data(at, Change(Update(k, k, newer)))]
    ensures PrepareRun(schema, p0, [Export({0}), Land(Flush.Row(k, newer))], p)
    ensures p.phase.Copying? && Replay(p) == [] && p.snapshot == map[k := newer] && p.target == map[k := older]
  {
    hide PrepareRun, SnapshotOf, ValidTxn;
    var row := Flush.Row(k, newer);
    SnapshotOfUpdate(t, k, older, newer, at);
    var p1 := Prepare(p0, Export({0}));
    FromLast(p1.exports, row);
    p := Prepare(p1, Land(row));
    NothingToReplay(t);
    PrepareNothing(schema, p);
    PrepareMore(schema, p1, Land(row), [], [Land(row)], p);
    PrepareMore(schema, p0, Export({0}), [Land(row)], [Export({0}), Land(row)], p);
  }

  lemma NothingToReplay(t: Txn)
    requires ValidTxn(t)
    ensures SentOps([t][ResendIndex([t], t.endLSN)..]) == []
  {
    BehindOne(t, 0);
    assert [t][1..] == [];
    assert SentOps([]) == [];
  }
}
