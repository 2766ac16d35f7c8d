/** All pieces together: planned chunks, snapshot workers, hand-off, stream. */
module Migration {
  import opened Wrappers
  import opened Seqs
  import opened Rows
  import opened GoInt
  import ChunkPlan
  import ChunkCover
  import SnapshotProtocol
  import SnapshotRuns
  import SnapshotProgress
  import Flush
  import Schedule
  import Handoff
  import Landing
  import Pipeline
  import Convergence

  // A table of the exported snapshot, what the metadata queries said about it, and its rows.
  datatype SourceTable = SourceTable(
    table: ChunkPlan.Table,
    requested: ChunkCover.Requested,
    metadata: ChunkCover.Metadata,
    row: ChunkPlan.Tuple -> Flush.Row)

  ghost function Each<A, B>(s: seq<A>, f: A -> B): (r: seq<B>)
    ensures |r| == |s|
  {
    if s == [] then [] else Each(s[..|s| - 1], f) + [f(s[|s| - 1])]
  }

  ghost function Plan(t: SourceTable, size: int64): ChunkPlan.Plan
    requires size >= 1
  {
    ChunkCover.TablePlan(t.requested, t.metadata, size)
  }

  // The rows of each chunk of a table.
  ghost function TableRows(t: SourceTable, size: int64): seq<seq<Flush.Row>>
    requires size >= 1
  {
    var plan := Plan(t, size);
    if plan.Panic? then []
    else Each(ChunkPlan.Results(plan.chunks, t.table), (s: seq<ChunkPlan.Tuple>) => Each(s, t.row))
  }

  ghost function ChunkRows(tables: seq<SourceTable>, size: int64): seq<seq<Flush.Row>>
    requires size >= 1
  {
    if |tables| == 0 then []
    else ChunkRows(tables[..|tables| - 1], size) + TableRows(tables[|tables| - 1], size)
  }

  ghost function AllRows(tables: seq<SourceTable>): seq<Flush.Row> {
    if |tables| == 0 then []
    else AllRows(tables[..|tables| - 1]) + Each(tables[|tables| - 1].table.heap, tables[|tables| - 1].row)
  }

  // Every table is planned by a branch whose guard holds.
  ghost predicate WellPlanned(tables: seq<SourceTable>, size: int64) {
    size >= 1 && forall i :: 0 <= i < |tables| ==> WellPlannedTable(tables[i], size)
  }

  ghost predicate WellPlannedTable(t: SourceTable, size: int64)
    requires size >= 1
  {
    && ChunkPlan.ValidTable(t.table) && ChunkCover.TrueOf(t.metadata, t.table)
    && if t.table.heap == [] then Plan(t, size).Planned?
       else ChunkCover.PlanGuard(t.requested, t.metadata, size, |t.table.heap|)
  }

  lemma {:induction false} EachAppend<A, B>(a: seq<A>, b: seq<A>, f: A -> B)
    ensures Each(a + b, f) == Each(a, f) + Each(b, f)
    decreases |b|
  {
    if b == [] {
      assert a + b == a;
    } else {
      assert (a + b)[..|a + b| - 1] == a + b[..|b| - 1];
      EachAppend(a, b[..|b| - 1], f);
    }
  }

  lemma {:induction false} FlattenEach<A, B>(ss: seq<seq<A>>, f: A -> B)
    ensures Flatten(Each(ss, (s: seq<A>) => Each(s, f))) == Each(Flatten(ss), f)
  {
    if ss != [] {
      var n := |ss| - 1;
      FlattenEach(ss[..n], f);
      EachAppend(Flatten(ss[..n]), ss[n], f);
    }
  }

  lemma EachInsert<A, B>(head: seq<A>, x: A, tail: seq<A>, f: A -> B)
    ensures multiset(Each(head + [x] + tail, f)) == multiset(Each(head + tail, f)) + multiset{f(x)}
  {
    assert [x][..0] == [];
    assert Each([x], f) == [f(x)];
    hide Each;
    EachAppend(head, [x], f);
    EachAppend(head + [x], tail, f);
    EachAppend(head, tail, f);
  }

  lemma WithoutOne<A>(head: seq<A>, x: A, tail: seq<A>)
    ensures multiset(head + tail) == multiset(head + [x] + tail) - multiset{x}
  {
  }

  // A permutation of the rows is a permutation of their images.
  lemma {:induction false} EachPermutes<A, B>(a: seq<A>, b: seq<A>, f: A -> B)
    requires multiset(a) == multiset(b)
    ensures multiset(Each(a, f)) == multiset(Each(b, f))
    decreases |a|
  {
    assert |multiset(a)| == |a| && |multiset(b)| == |b|;
    hide Each;
    if a != [] {
      var x, init := a[|a| - 1], a[..|a| - 1];
      assert x in multiset(a);
      var j :| 0 <= j < |b| && b[j] == x;
      var head, tail := b[..j], b[j + 1..];
      assert a == init + [x] + [];
      assert b == head + [x] + tail;
      assert init + [] == init;
      WithoutOne(init, x, []);
      WithoutOne(head, x, tail);
      EachPermutes(init, head + tail, f);
      EachInsert(init, x, [], f);
      EachInsert(head, x, tail, f);
    }
  }

  lemma TableRowsComplete(t: SourceTable, size: int64)
    requires size >= 1 && WellPlannedTable(t, size)
    ensures multiset(Flatten(TableRows(t, size))) == multiset(Each(t.table.heap, t.row))
  {
    hide ChunkPlan.ValidTable, ChunkCover.TrueOf, ChunkCover.PlanGuard, ChunkCover.TablePlan;
    var plan := Plan(t, size);
    if t.table.heap == [] {
      ChunkCover.EmptyTableCovered(plan, t.table);
    } else {
      ChunkCover.TableCoveredIff(t.requested, t.metadata, size, t.table);
    }
    assert ChunkPlan.Covers(plan, t.table);
    var results := ChunkPlan.Results(plan.chunks, t.table);
    FlattenEach(results, t.row);
    EachPermutes(Flatten(results), t.table.heap, t.row);
  }

  /** The chunks of all tables together hold every row of the snapshot exactly once. */
  lemma {:induction false} ChunksHoldAllRows(tables: seq<SourceTable>, size: int64)
    requires WellPlanned(tables, size)
    ensures multiset(Flatten(ChunkRows(tables, size))) == multiset(AllRows(tables))
  {
    hide WellPlannedTable, TableRows;
    if |tables| > 0 {
      var n := |tables| - 1;
      ChunksHoldAllRows(tables[..n], size);
      TableRowsComplete(tables[n], size);
      FlattenAppend(ChunkRows(tables[..n], size), TableRows(tables[n], size));
    }
  }

  lemma SameElements<A>(a: seq<A>, b: seq<A>)
    requires multiset(a) == multiset(b)
    ensures forall x :: x in a <==> x in b
  {
    forall x ensures x in a <==> x in b {
      assert x in a <==> x in multiset(a);
      assert x in b <==> x in multiset(b);
    }
  }

  // rows are rows of db, and every key of db is among them.
  ghost predicate FullCopy(rows: seq<Flush.Row>, db: Database) {
    && (forall i :: 0 <= i < |rows| ==> rows[i].key in db && rows[i].cells == db[rows[i].key])
    && (forall k :: k in db ==> HasRow(rows, k))
  }

  ghost predicate HasRow(rows: seq<Flush.Row>, k: Key) {
    exists i :: 0 <= i < |rows| && rows[i].key == k
  }

  // The exported snapshot holds exactly these rows.
  ghost predicate Exports(tables: seq<SourceTable>, snap: Database) {
    FullCopy(AllRows(tables), snap)
  }

  lemma {:induction false} InFlatten<A>(ss: seq<seq<A>>, x: A)
    ensures x in Flatten(ss) <==> exists c :: 0 <= c < |ss| && x in ss[c]
  {
    if ss != [] {
      var n := |ss| - 1;
      InFlatten(ss[..n], x);
      assert forall c :: 0 <= c < n ==> ss[..n][c] == ss[c];
      if x in Flatten(ss) && x !in ss[n] {
        var c :| 0 <= c < n && x in ss[..n][c];
        assert x in ss[c];
      }
    }
  }

  lemma HandedIsAllRows(rows: seq<seq<Flush.Row>>, handed: seq<seq<Flush.Row>>, x: Flush.Row)
    requires SnapshotProtocol.AllHanded(rows, handed) && SnapshotProtocol.OnlyRows(rows, handed)
    ensures x in Flatten(handed) <==> x in Flatten(rows)
  {
    InFlatten(rows, x);
    InFlatten(handed, x);
    if c :| 0 <= c < |rows| && x in rows[c] {
      assert SnapshotProtocol.HandedFirst(rows[c], |rows[c]|, handed[c]);
    }
  }

  /** A completed job, in any interleaving of workers and failures, means that the whole snapshot, and
      nothing else, was handed over. */
  lemma CompletedJobCopiesSnapshot(tables: seq<SourceTable>, size: int64, snap: Database, timeout: nat,
                                   s: SnapshotProtocol.State<Flush.Row>, steps: seq<SnapshotProtocol.Step>,
                                   s': SnapshotProtocol.State<Flush.Row>)
    requires WellPlanned(tables, size) && Exports(tables, snap)
    requires SnapshotProtocol.Init(ChunkRows(tables, size), s) && SnapshotProtocol.Valid(ChunkRows(tables, size), s)
    requires SnapshotProtocol.Run(ChunkRows(tables, size), timeout, s, steps, s')
    requires s'.job.completed
    ensures FullCopy(Flatten(s'.handed), snap)
  {
    var rows := ChunkRows(tables, size);
    assert SnapshotProtocol.OnlyRows(rows, s.handed);
    hide SnapshotProtocol.Run, SnapshotProtocol.Init, ChunkRows, AllRows, WellPlanned;
    SnapshotProtocol.CompletedJobHandedEverything(rows, timeout, s, steps, s');
    SnapshotProtocol.RunKeepsOnlyRows(rows, timeout, s, steps, s');
    ChunksHoldAllRows(tables, size);
    SameElements(Flatten(rows), AllRows(tables));
    forall x ensures x in Flatten(s'.handed) <==> x in AllRows(tables) {
      HandedIsAllRows(rows, s'.handed, x);
    }
    SameRowsCopy(AllRows(tables), Flatten(s'.handed), snap);
  }

  lemma SameRowsCopy(a: seq<Flush.Row>, b: seq<Flush.Row>, snap: Database)
    requires FullCopy(a, snap) && forall x :: x in b <==> x in a
    ensures FullCopy(b, snap)
  {
    forall i | 0 <= i < |b| ensures b[i].key in snap && b[i].cells == snap[b[i].key] {
      assert b[i] in b;
      var j :| 0 <= j < |a| && a[j] == b[i];
    }
    forall k | k in snap ensures HasRow(b, k) {
      assert HasRow(a, k);
      var j :| 0 <= j < |a| && a[j].key == k;
      assert a[j] in b;
      var i :| 0 <= i < |b| && b[i] == a[j];
    }
  }

  // ---------- nothing is missing once everything handed over was written ----------

  // Every row that was handed over has been written, at some time and in some batch.
  ghost predicate AllWritten(handed: seq<Flush.Row>, ws: seq<Schedule.Write>) {
    forall i :: 0 <= i < |handed| ==> RowWritten(handed[i], ws)
  }

  ghost predicate RowWritten(row: Flush.Row, ws: seq<Schedule.Write>) {
    exists i :: 0 <= i < |ws| && !ws[i].Chg? && ws[i].row == row
  }

  lemma {:induction false} WrittenIsLate(ws: seq<Schedule.Write>, k: Key)
    requires Schedule.Arrives(ws, k) && Schedule.LastChange(ws, k) == None
    ensures Schedule.LateRows(ws, k) != []
  {
    var n := |ws| - 1;
    var i :| 0 <= i < |ws| && !ws[i].Chg? && ws[i].row.key == k;
    if Schedule.KeyOf(ws[n]) != k {
      assert ws[..n][i] == ws[i];
      WrittenIsLate(ws[..n], k);
    }
  }

  lemma NothingMissing(handed: seq<Flush.Row>, t: Database, ws: seq<Schedule.Write>, snap: Database, k: Key)
    requires FullCopy(handed, snap) && AllWritten(handed, ws)
    ensures !Schedule.Missing(t, ws, snap, k)
  {
    if k in snap && Schedule.LastChange(ws, k) == None {
      assert HasRow(handed, k);
      var j :| 0 <= j < |handed| && handed[j].key == k;
      assert RowWritten(handed[j], ws);
      assert Schedule.Arrives(ws, k);
      WrittenIsLate(ws, k);
    }
  }

  /** The migration as a whole, exactly. Plan the chunks of every table of the last export, let any
      number of workers run with failures until the job is completed, and let what they handed over
      be written at any time, also after the stream was opened; earlier attempts may have copied rows
      of their own exports; updates may change keys and changes may be undecodable. After any run of the
      stream, with any number of crashes, when nothing is left on the way: no row is missing, and the
      target equals the source if and only if no row is left behind under a key that an update left for
      good, no skipped last change matters, and no other key holds a stale row, is revived after its
      deletion, or is overwritten after its last change. */
  lemma MigrationIff(schema: Schema, p0: Handoff.Preparation, prepare: seq<Handoff.Preparing>,
                     p: Handoff.Preparation, tables: seq<SourceTable>, size: int64, timeout: nat,
                     s: SnapshotProtocol.State<Flush.Row>, work: seq<SnapshotProtocol.Step>,
                     s': SnapshotProtocol.State<Flush.Row>, hs: seq<Landing.Happening>, end: Pipeline.State)
    requires Handoff.Beginning(schema, p0) && Handoff.PrepareRun(schema, p0, prepare, p) && p.phase.Copying?
    requires WellPlanned(tables, size) && Exports(tables, p.snapshot)
    requires SnapshotProtocol.Init(ChunkRows(tables, size), s) && SnapshotProtocol.Valid(ChunkRows(tables, size), s)
    requires SnapshotProtocol.Run(ChunkRows(tables, size), timeout, s, work, s') && s'.job.completed
    requires Landing.Happens(schema, p, Landing.Opened(p), hs, end) && Pipeline.Drained(end) && Convergence.Lived(end)
    requires AllWritten(Flatten(s'.handed),
                        Schedule.Snaps(p.landed) + Landing.AllWrites(schema, p, Landing.Opened(p), hs, end))
    ensures var ws := Schedule.Snaps(p.landed) + Landing.AllWrites(schema, p, Landing.Opened(p), hs, end);
            end.target == Convergence.Source(end) <==>
            forall k :: KeyRight(p.initial, ws, p.snapshot, Convergence.LogSent(end.log), k)
  {
    hide Landing.Opened, Handoff.Beginning, Handoff.PrepareRun, Landing.Happens, Landing.AllWrites, ChunkRows, KeyRight;
    hide FullCopy, AllWritten, Convergence.Source, Convergence.LogSent, Convergence.Lived, Landing.EndsRight;
    var ws := Schedule.Snaps(p.landed) + Landing.AllWrites(schema, p, Landing.Opened(p), hs, end);
    var ss := Convergence.LogSent(end.log);
    CompletedJobCopiesSnapshot(tables, size, p.snapshot, timeout, s, work, s');
    Landing.LandingIff(schema, p0, prepare, p, hs, end);
    if forall k :: KeyRight(p.initial, ws, p.snapshot, ss, k) {
      forall k ensures Landing.EndsRight(p.initial, ws, p.snapshot, ss, k) {
        KeyRightEnds(Flatten(s'.handed), p.initial, ws, p.snapshot, ss, k);
      }
    } else {
      var k :| !KeyRight(p.initial, ws, p.snapshot, ss, k);
      KeyRightEnds(Flatten(s'.handed), p.initial, ws, p.snapshot, ss, k);
    }
  }

  // What is left to go wrong with a key when no row is missing.
  ghost predicate KeyRight(t: Database, ws: seq<Schedule.Write>, snap: Database, ss: seq<Sent>, k: Key) {
    && !LeftBehind(ss, Landing.Held(t, ws, k), k)
    && !SkippedOver(ss, Landing.Held(t, ws, k), k)
    && (Landing.Plain(ss, k) ==>
          !Schedule.Stale(t, ws, snap, k) && !Schedule.Revived(ws, k) && !Schedule.Overwritten(ws, k))
  }

  lemma KeyRightEnds(handed: seq<Flush.Row>, t: Database, ws: seq<Schedule.Write>, snap: Database, ss: seq<Sent>, k: Key)
    requires FullCopy(handed, snap) && AllWritten(handed, ws)
    ensures KeyRight(t, ws, snap, ss, k) <==> Landing.EndsRight(t, ws, snap, ss, k)
  {
    hide FullCopy, AllWritten, Schedule.Missing, Schedule.Stale, Schedule.Revived, Schedule.Overwritten, Landing.Held;
    hide Landing.Plain, LeftBehind, SkippedOver;
    NothingMissing(handed, t, ws, snap, k);
  }

  // ---------- one attempt, with the barrier ----------

  // What one export copied into an empty target, complete before the stream is opened.
  lemma FullCopyIsSnapshot(rows: seq<Flush.Row>, snap: Database)
    requires FullCopy(rows, snap)
    ensures Flush.InsertAllIfAbsent(map[], rows) == snap
  {
    forall k ensures Lookup(Flush.InsertAllIfAbsent(map[], rows), k) == Lookup(snap, k) {
      Flush.InsertAllLookup(map[], rows, k);
      if HasRow(rows, k) {
        FirstIsSnapshot(rows, snap, k);
      } else {
        Flush.FirstOfNone(rows, k);
      }
    }
    SameLookups(Flush.InsertAllIfAbsent(map[], rows), snap);
  }

  lemma {:induction false} FirstIsSnapshot(rows: seq<Flush.Row>, snap: Database, k: Key)
    requires HasRow(rows, k)
    requires forall i :: 0 <= i < |rows| ==> rows[i].key in snap && rows[i].cells == snap[rows[i].key]
    ensures k in snap && Flush.FirstOf(rows, k) == Some(snap[k])
  {
    var i :| 0 <= i < |rows| && rows[i].key == k;
    if rows[0].key != k {
      assert rows[1..][i - 1] == rows[i];
      assert forall j :: 0 <= j < |rows[1..]| ==> rows[1..][j] == rows[j + 1];
      FirstIsSnapshot(rows[1..], snap, k);
    }
  }

  /** The good case: everything decodable, keys that do not change, everything handed over and nothing
      else written to an empty target before the stream is opened. After any run with any number of
      crashes, when nothing is left on the way the target equals the source. */
  lemma MigrationReachesSource(schema: Schema, p0: Handoff.Preparation, prepare: seq<Handoff.Preparing>,
                               p: Handoff.Preparation, tables: seq<SourceTable>, size: int64, timeout: nat,
                               s: SnapshotProtocol.State<Flush.Row>, work: seq<SnapshotProtocol.Step>,
                               s': SnapshotProtocol.State<Flush.Row>,
                               steps: seq<Pipeline.Step>, end: Pipeline.State)
    requires Handoff.Beginning(schema, p0) && Handoff.PrepareRun(schema, p0, prepare, p) && p.phase.Copying?
    requires WellPlanned(tables, size) && Exports(tables, p.snapshot)
    requires SnapshotProtocol.Init(ChunkRows(tables, size), s) && SnapshotProtocol.Valid(ChunkRows(tables, size), s)
    requires SnapshotProtocol.Run(ChunkRows(tables, size), timeout, s, work, s') && s'.job.completed
    requires p0.initial == map[] && forall x :: x in p.landed <==> x in Flatten(s'.handed)
    requires Convergence.GoodLog(schema, p.log)
    requires Pipeline.Run(Landing.Opened(p), steps, end) && Convergence.GoodSteps(schema, steps)
    requires Pipeline.Drained(end)
    ensures end.target == Convergence.Source(end)
  {
    hide Landing.Opened, Handoff.PrepareRun, Pipeline.Run, ChunkRows, FullCopy, Handoff.Placed, Handoff.Replay;
    hide Convergence.Source;
    CompletedJobCopiesSnapshot(tables, size, p.snapshot, timeout, s, work, s');
    SameRowsCopy(Flatten(s'.handed), p.landed, p.snapshot);
    FullCopyIsSnapshot(p.landed, p.snapshot);
    Handoff.BeginningPrepared(schema, p0);
    Handoff.RunKeepsPrepared(schema, p0, prepare, p);
    Schedule.SnapsInsert(map[], p.landed);
    Landing.SnapshotThenStream(schema, p0, prepare, p, steps, end);
  }

  /** Without errors every row of every table is handed over exactly once: the multiset of what the
      handlers got is the multiset of the snapshot's rows. */
  lemma CleanMigrationHandsEachRowOnce(tables: seq<SourceTable>, size: int64, timeout: nat,
                                       s: SnapshotProtocol.State<Flush.Row>, steps: seq<SnapshotProtocol.Step>,
                                       s': SnapshotProtocol.State<Flush.Row>)
    requires WellPlanned(tables, size)
    requires SnapshotProtocol.Init(ChunkRows(tables, size), s) && SnapshotProtocol.Valid(ChunkRows(tables, size), s)
    requires SnapshotRuns.CleanRun(ChunkRows(tables, size), timeout, s, steps, s')
    requires ChunkRows(tables, size) != [] && s.workers != []
    requires !SnapshotProgress.CanWork(ChunkRows(tables, size), timeout, s')
    ensures multiset(Flatten(s'.handed)) == multiset(AllRows(tables)) && s'.job.completed
  {
    hide SnapshotRuns.CleanRun, SnapshotProtocol.Init, SnapshotProgress.CanWork, ChunkRows, AllRows, WellPlannedTable;
    SnapshotProgress.CleanRunEndsComplete(ChunkRows(tables, size), timeout, s, steps, s');
    ChunksHoldAllRows(tables, size);
  }

  // ---------- it can always be finished ----------

  lemma {:induction false} LandAll(schema: Schema, p: Handoff.Preparation, rows: seq<Flush.Row>)
    returns (steps: seq<Handoff.Preparing>, p': Handoff.Preparation)
    requires forall i :: 0 <= i < |rows| ==> Handoff.FromExport(p.exports, rows[i])
    ensures Handoff.PrepareRun(schema, p, steps, p')
    ensures p' == p.(target := Flush.InsertAllIfAbsent(p.target, rows), landed := p.landed + rows)
  {
    hide Handoff.FromExport;
    if rows == [] {
      steps, p' := [], p;
      assert p.landed + [] == p.landed;
    } else {
      var n := |rows| - 1;
      var before, mid := LandAll(schema, p, rows[..n]);
      var step := Handoff.Land(rows[n]);
      p' := Handoff.Prepare(mid, step);
      assert rows[..n] + [rows[n]] == rows;
      assert (p.landed + rows[..n]) + [rows[n]] == p.landed + rows;
      Handoff.PrepareNothing(schema, p');
      Handoff.PrepareMore(schema, mid, step, [], [step], p');
      Handoff.PrepareThen(schema, p, before, mid, [step], p');
      steps := before + [step];
    }
  }

  lemma FromLastExport(p: Handoff.Preparation, rows: seq<Flush.Row>)
    requires p.exports != [] && p.exports[|p.exports| - 1] == p.snapshot && FullCopy(rows, p.snapshot)
    ensures forall i :: 0 <= i < |rows| ==> Handoff.FromExport(p.exports, rows[i])
  {
  }

  /** And it can always be brought to that point: workers that complete the job, rows that land, and
      steps of the consumer that drain the stream exist for every well-planned export of a source whose
      changes are decodable and keep their keys. */
  lemma MigrationCanFinish(schema: Schema, p0: Handoff.Preparation, prepare: seq<Handoff.Preparing>,
                           p: Handoff.Preparation, tables: seq<SourceTable>, size: int64, timeout: nat,
                           s: SnapshotProtocol.State<Flush.Row>)
    returns (work: seq<SnapshotProtocol.Step>, s': SnapshotProtocol.State<Flush.Row>,
             landing: seq<Handoff.Preparing>, p': Handoff.Preparation,
             steps: seq<Pipeline.Step>, end: Pipeline.State)
    requires Handoff.Beginning(schema, p0) && Handoff.PrepareRun(schema, p0, prepare, p) && p.phase.Copying?
    requires p0.initial == map[] && p.landed == [] && p.exports == [p.snapshot]
    requires Convergence.GoodLog(schema, p.log)
    requires WellPlanned(tables, size) && Exports(tables, p.snapshot)
    requires SnapshotProtocol.Init(ChunkRows(tables, size), s) && SnapshotProtocol.Valid(ChunkRows(tables, size), s)
    requires ChunkRows(tables, size) != [] && s.workers != []
    ensures SnapshotProtocol.Run(ChunkRows(tables, size), timeout, s, work, s') && s'.job.completed
    ensures Handoff.PrepareRun(schema, p, landing, p') && p'.landed == Flatten(s'.handed)
    ensures Pipeline.Run(Landing.Opened(p'), steps, end) && Pipeline.Drained(end)
    ensures end.target == SourceRun(p.origin, Convergence.LogOps(p.log))
  {
    hide Landing.Opened, Handoff.PrepareRun, Pipeline.Run, SnapshotProtocol.Run, ChunkRows, AllRows, FullCopy;
    hide Handoff.Placed, Convergence.LogOps;
    work, s' := SnapshotProgress.CompletionReachable(ChunkRows(tables, size), timeout, s);
    var rows := Flatten(s'.handed);
    CompletedJobCopiesSnapshot(tables, size, p.snapshot, timeout, s, work, s');
    FromLastExport(p, rows);
    landing, p' := LandAll(schema, p, rows);
    assert [] + rows == rows;
    FullCopyIsSnapshot(rows, p.snapshot);
    Handoff.BeginningPrepared(schema, p0);
    Handoff.RunKeepsPrepared(schema, p0, prepare, p);
    Handoff.PrepareThen(schema, p0, prepare, p, landing, p');
    steps, end := StreamCanFinish(schema, p0, prepare + landing, p');
  }

  lemma StreamCanFinish(schema: Schema, p0: Handoff.Preparation, prepare: seq<Handoff.Preparing>,
                        p: Handoff.Preparation)
    returns (steps: seq<Pipeline.Step>, end: Pipeline.State)
    requires Handoff.Beginning(schema, p0) && Handoff.PrepareRun(schema, p0, prepare, p) && p.phase.Copying?
    requires p.target == p.snapshot && Convergence.GoodLog(schema, p.log)
    ensures Pipeline.Run(Landing.Opened(p), steps, end) && Pipeline.Drained(end)
    ensures end.target == SourceRun(p.origin, Convergence.LogOps(p.log))
  {
    hide Handoff.PrepareRun, Pipeline.Run, Pipeline.Init, Convergence.Healing, Pipeline.Delivery;
    hide Convergence.LogOps, Handoff.Copied, Handoff.SourceOf, Handoff.AgreeElsewhere, Handoff.Replay;
    var start := Landing.Opened(p);
    Landing.PrepareBegun(schema, p0, prepare, p);
    Landing.SnapsTyped(schema, p);
    Landing.RightAtOpening(schema, p);
    Landing.OpenedIsInit(schema, p);
    Pipeline.InitDelivery(start);
    steps, end := Pipeline.CanDrain(start);
    Pipeline.NothingCommitted(start, steps, end);
    NoCommits(schema, steps);
    Landing.SnapshotThenStream(schema, p0, prepare, p, steps, end);
  }

  lemma NoCommits(schema: Schema, steps: seq<Pipeline.Step>)
    requires forall i :: 0 <= i < |steps| ==> Pipeline.Moves(steps[i])
    ensures Convergence.GoodSteps(schema, steps)
  {
  }
}
