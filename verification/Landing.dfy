/** The stream opened behind a snapshot: when the target ends as the source, exactly, with rows that go on
    landing, crashes, updates that change keys, and changes that cannot be decoded. */
module Landing {
  import opened Wrappers
  import opened Rows
  import opened Sink
  import opened Pipeline
  import opened Convergence
  import Flush
  import opened Schedule
  import opened Handoff

  // ---------- what the source has under a key ----------

  // log continues the log of the preparation.
  ghost predicate Continues(p: Preparation, log: seq<Txn>) {
    |p.log| <= |log| && log[..|p.log|] == p.log
  }

  // The changes of ws are one or more passes over the log from the captured position: they make of the
  // state before it what one pass makes, and address every key that it addresses.
  ghost predicate Passed(schema: Schema, p: Preparation, ws: seq<Write>, log: seq<Txn>) {
    && From(p) <= |log| && FullImages(schema, Changes(ws))
    && TargetRun(TargetRun(p.origin, SentOps(log[..From(p)])), Changes(ws)) == TargetRun(p.origin, SentOps(log))
    && forall k :: Touched(SentOps(log[From(p)..]), k) ==> Touched(Changes(ws), k)
  }

  // The key is not left for good, and its last change, if it has one, could be decoded.
  ghost predicate Plain(ss: seq<Sent>, k: Key) {
    !DanglingMove(AllOps(ss), k) && (LastSent(ss, k).Some? ==> LastSent(ss, k).value.decodable)
  }

  lemma SnapshotRight(schema: Schema, p: Preparation, log: seq<Txn>, k: Key)
    requires Placed(schema, p) && p.phase.Copying? && Continues(p, log)
    requires !Concerned(LogOps(log[From(p)..]), k)
    ensures Lookup(p.snapshot, k) == Lookup(SourceOf(p.origin, log), k)
  {
    hide LogOps, SentOps, LogSent, Concerned, SourceRun;
    var n, h := |p.log|, From(p);
    LogSentSplit(log[h..], n - h);
    assert log[h..][..n - h] == p.log[h..] && log[h..][n - h..] == log[n..];
    ConcernedAppend(LogOps(p.log[h..]), LogOps(log[n..]), k);
    LogSentSplit(log, n);
    SourceRunAppend(p.origin, LogOps(p.log), LogOps(log[n..]));
    UnconcernedKeeps(SourceOf(p.origin, p.log), LogOps(log[n..]), k);
  }

  // A plain key that the decodable changes after the position do not address is not concerned at all
  // after the position.
  lemma PlainUnconcerned(log: seq<Txn>, h: nat, k: Key)
    requires h <= |log| && Plain(LogSent(log), k) && !Touched(SentOps(log[h..]), k)
    ensures !Concerned(LogOps(log[h..]), k)
  {
    hide LogSent, DanglingMove, Touched, Concerned, LastSent, LastOp, AllOps, Decoded;
    var head, tail := LogSent(log[..h]), LogSent(log[h..]);
    LogSentSplit(log, h);
    LastSentAppend(head, tail, k);
    LastSentIs(tail, k);
    LastTouches(AllOps(tail), k);
    LastTouches(Decoded(tail), k);
    if Concerned(AllOps(tail), k) {
      DanglingIsLast(AllOps(tail), k);
      DanglingInTail(AllOps(head), AllOps(tail), k);
    }
  }

  // What the source has under a plain key is what the changes of ws make of the snapshot.
  lemma PlainKey(schema: Schema, p: Preparation, ws: seq<Write>, log: seq<Txn>, k: Key)
    requires Placed(schema, p) && p.phase.Copying? && Continues(p, log) && ImagedLog(schema, log)
    requires AcceptedRun(p.origin, LogOps(log)) && Passed(schema, p, ws, log) && Plain(LogSent(log), k)
    ensures Lookup(SourceOf(p.origin, log), k) == Left(p.snapshot, Changes(ws), k)
  {
    hide LogSent, DanglingMove, Concerned, LastSent, LastOp, AllOps, Decoded, TargetRun, SourceRun, AcceptedRun, Typed;
    hide LogOk, AgreeElsewhere, ImagedTxn, Touched;
    ImagedOps(schema, log);
    SourceAt(schema, p.origin, LogSent(log), k);
    LastSentIs(LogSent(log), k);
    LastTouches(Changes(ws), k);
    if LastOp(Changes(ws), k).Some? {
      var before := TargetRun(p.origin, SentOps(log[..From(p)]));
      assert ImagedLog(schema, log[..From(p)]);
      ImagedOps(schema, log[..From(p)]);
      TargetRunTyped(schema, p.origin, SentOps(log[..From(p)]));
      TargetAt(schema, before, Changes(ws), k);
      TargetAt(schema, p.origin, SentOps(log), k);
    } else {
      PlainUnconcerned(log, From(p), k);
      SnapshotRight(schema, p, log, k);
    }
  }

  // ---------- rows and changes that reach the target ----------

  // Rows and changes that reach the target from some moment on.
  ghost predicate RowsFromExports(p: Preparation, ws: seq<Write>) {
    forall i :: 0 <= i < |ws| && !ws[i].Chg? ==> FromExport(p.exports, ws[i].row)
  }

  lemma HistoryFull(schema: Schema, p: Preparation, ws: seq<Write>)
    requires Copied(schema, p) && RowsFromExports(p, ws) && FullImages(schema, Changes(ws))
    ensures FullWrites(schema, Snaps(p.landed) + ws)
  {
    hide FullWrite, FromExport, Typed, Changes, RunWrites, FullImages;
    var all := Snaps(p.landed) + ws;
    forall i | 0 <= i < |all| ensures FullWrite(schema, all[i]) {
      if i < |p.landed| {
        ExportedRowFull(schema, p, all[i]);
      } else if all[i].Chg? {
        ListedChangeFull(schema, ws, i - |p.landed|);
      } else {
        ExportedRowFull(schema, p, all[i]);
      }
    }
  }

  lemma ExportedRowFull(schema: Schema, p: Preparation, w: Write)
    requires !w.Chg? && FromExport(p.exports, w.row)
    requires forall i :: 0 <= i < |p.exports| ==> Typed(schema, p.exports[i])
    ensures FullWrite(schema, w)
  {
  }

  lemma ListedChangeFull(schema: Schema, ws: seq<Write>, i: nat)
    requires i < |ws| && ws[i].Chg? && FullImages(schema, Changes(ws))
    ensures FullWrite(schema, ws[i])
  {
    hide Changes;
    ChangeListed(ws, i);
  }

  lemma {:induction false} ChangeListed(ws: seq<Write>, i: nat)
    requires i < |ws| && ws[i].Chg?
    ensures ws[i].change in Changes(ws)
  {
    if i < |ws| - 1 {
      assert ws[..|ws| - 1][i] == ws[i];
      ChangeListed(ws[..|ws| - 1], i);
    }
  }

  // What the target holds under k in the end.
  function Held(t: Database, ws: seq<Write>, k: Key): Option<Cells> {
    Settled(BeforeLate(t, ws, k), LateRows(ws, k))
  }

  // Of what can happen to a key, nothing did: a row left behind under a key that an update left for
  // good, a skipped last change that is not made up for, a missing or stale row, a row that comes back
  // after its deletion, or one that overwrites the last change.
  ghost predicate EndsRight(t: Database, ws: seq<Write>, snap: Database, ss: seq<Sent>, k: Key) {
    && !LeftBehind(ss, Held(t, ws, k), k)
    && !SkippedOver(ss, Held(t, ws, k), k)
    && (Plain(ss, k) ==> Unharmed(t, ws, snap, k))
  }

  lemma EndsRightIff(schema: Schema, p: Preparation, ws: seq<Write>, log: seq<Txn>, k: Key)
    requires Prepared(schema, p) && p.phase.Copying? && Continues(p, log) && ImagedLog(schema, log)
    requires AcceptedRun(p.origin, LogOps(log)) && Passed(schema, p, ws, log) && RowsFromExports(p, ws)
    ensures var all := Snaps(p.landed) + ws;
            Lookup(RunWrites(p.initial, all), k) == Lookup(SourceOf(p.origin, log), k)
            <==> EndsRight(p.initial, all, p.snapshot, LogSent(log), k)
  {
    hide LogSent, DanglingMove, AcceptedRun, Passed, Unharmed, RunWrites, TargetRun, SourceRun, Changes, Settled, Typed;
    hide LastSent, AllOps, Left, ImagedTxn, FullWrite, AgreeElsewhere, LogOk, FromExport;
    var all := Snaps(p.landed) + ws;
    var ss := LogSent(log);
    PassedImages(schema, p, ws, log);
    HistoryFull(schema, p, ws);
    HistoryChanges(p, ws);
    KeyOutcome(schema, p.initial, all, k);
    ImagedOps(schema, log);
    SourceAt(schema, p.origin, ss, k);
    LastSentIs(ss, k);
    if Plain(ss, k) {
      PlainKey(schema, p, ws, log, k);
      KeyRightIff(schema, p.initial, all, p.snapshot, k);
      TargetAt(schema, p.snapshot, Changes(ws), k);
    } else {
      NotPlain(p.origin, ss, Held(p.initial, all, k), k);
    }
  }

  lemma NotPlain(db: Database, ss: seq<Sent>, held: Option<Cells>, k: Key)
    requires !Plain(ss, k)
    ensures held == SourceLeft(db, ss, k) <==> !LeftBehind(ss, held, k) && !SkippedOver(ss, held, k)
  {
    hide DanglingMove;
    LastSentIs(ss, k);
  }

  lemma PassedImages(schema: Schema, p: Preparation, ws: seq<Write>, log: seq<Txn>)
    requires Passed(schema, p, ws, log)
    ensures FullImages(schema, Changes(ws))
  {
  }

  lemma HistoryChanges(p: Preparation, ws: seq<Write>)
    ensures Changes(Snaps(p.landed) + ws) == Changes(ws)
  {
    RunWritesAppend(p.initial, Snaps(p.landed), ws);
    SnapsInsert(p.initial, p.landed);
    assert [] + Changes(ws) == Changes(ws);
  }

  lemma EndsIff(schema: Schema, p: Preparation, ws: seq<Write>, log: seq<Txn>)
    requires Prepared(schema, p) && p.phase.Copying? && Continues(p, log) && ImagedLog(schema, log)
    requires AcceptedRun(p.origin, LogOps(log)) && Passed(schema, p, ws, log) && RowsFromExports(p, ws)
    ensures RunWrites(p.target, ws) == SourceOf(p.origin, log) <==>
            forall k :: EndsRight(p.initial, Snaps(p.landed) + ws, p.snapshot, LogSent(log), k)
  {
    hide EndsRight, LogSent, LogOps, RunWrites, SourceOf, Passed, AcceptedRun, Placed, RowsFromExports;
    hide Continues, ImagedLog;
    var all := Snaps(p.landed) + ws;
    CopyFirst(schema, p, ws);
    hide Copied;
    var ss := LogSent(log);
    if forall k :: EndsRight(p.initial, all, p.snapshot, ss, k) {
      forall k ensures Lookup(RunWrites(p.initial, all), k) == Lookup(SourceOf(p.origin, log), k) {
        EndsRightIff(schema, p, ws, log, k);
      }
      SameLookups(RunWrites(p.initial, all), SourceOf(p.origin, log));
    } else {
      var k :| !EndsRight(p.initial, all, p.snapshot, ss, k);
      EndsRightIff(schema, p, ws, log, k);
    }
  }

  lemma CopyFirst(schema: Schema, p: Preparation, ws: seq<Write>)
    requires Copied(schema, p)
    ensures RunWrites(p.initial, Snaps(p.landed) + ws) == RunWrites(p.target, ws)
  {
    hide RunWrites;
    RunWritesAppend(p.initial, Snaps(p.landed), ws);
  }

  lemma OnePass(schema: Schema, p: Preparation, ws: seq<Write>)
    requires Placed(schema, p) && Changes(ws) == Replay(p)
    ensures Passed(schema, p, ws, p.log) && Continues(p, p.log)
  {
    hide SentOps, LogOps, LogSent, TargetRun, LogOk, AgreeElsewhere;
    var h := From(p);
    LogSentSplit(p.log, h);
    TargetRunAppend(p.origin, SentOps(p.log[..h]), SentOps(p.log[h..]));
    assert ImagedLog(schema, p.log[h..]);
    ImagedOps(schema, p.log[h..]);
  }

  /** The hand-off without a barrier: after any number of attempts, rows of any export may go on
      landing between the changes of one pass over the log from the captured position. The result is
      the source if and only if every key ends right. */
  lemma HandoffIff(schema: Schema, p: Preparation, ws: seq<Write>)
    requires Prepared(schema, p) && p.phase.Copying? && AcceptedRun(p.origin, LogOps(p.log))
    requires RowsFromExports(p, ws) && Changes(ws) == Replay(p)
    ensures RunWrites(p.target, ws) == SourceOf(p.origin, p.log) <==>
            forall k :: EndsRight(p.initial, Snaps(p.landed) + ws, p.snapshot, LogSent(p.log), k)
  {
    hide EndsRight, Passed, AcceptedRun, Copied, RunWrites, LogSent, LogOps, SourceOf, RowsFromExports;
    OnePass(schema, p, ws);
    PlacedImaged(schema, p);
    EndsIff(schema, p, ws, p.log);
  }

  lemma PlacedImaged(schema: Schema, p: Preparation)
    requires Placed(schema, p)
    ensures ImagedLog(schema, p.log)
  {
  }

  // ---------- the first session ----------

  function Opened(p: Preparation): State {
    var start := StartOf(p);
    State(p.log, p.walEnd, if p.slot.Some? then p.slot.value else 0, AllEvents(p.log[start..]), None, [], [], None, 0,
          p.target, p.origin, start, p.target, [], [], start)
  }

  lemma OpenedStart(schema: Schema, p: Preparation)
    requires Placed(schema, p) && p.phase.Copying?
    ensures Init(Opened(p)) && Opened(p).start == From(p)
  {
    hide AllEvents, ImagedLog, SourceOf, AgreeElsewhere, Typed, ResendIndex, ValidTxn, LogOps;
    assert Max(p.slot.value, p.lsn) == p.lsn;
    assert ResendIndex(p.log, p.slot.value) <= From(p);
  }

  // The same session over another target.
  function Over(s: State, t: Database): State {
    s.(target := t, base := t)
  }

  // What the decodable changes before the position make of the source's initial state.
  function Ideal(p: Preparation): Database {
    TargetRun(p.origin, SentOps(p.log[..From(p)]))
  }

  lemma IdealTyped(schema: Schema, p: Preparation)
    requires Placed(schema, p)
    ensures Typed(schema, Ideal(p))
  {
    hide SentOps, LogOps, LogOk, SourceOf, AgreeElsewhere, ImagedTxn;
    assert ImagedLog(schema, p.log[..From(p)]);
    ImagedOps(schema, p.log[..From(p)]);
    TargetRunTyped(schema, p.origin, SentOps(p.log[..From(p)]));
  }

  lemma IdealMirrors(p: Preparation, k: Key)
    requires !Touched(SentOps(p.log[From(p)..]), k)
    ensures Lookup(Ideal(p), k) == Lookup(TargetRun(p.origin, SentOps(p.log)), k)
  {
    hide SentOps, LogOps, LogSent, TargetRun, From;
    var h := From(p);
    LogSentSplit(p.log, h);
    TargetRunAppend(p.origin, SentOps(p.log[..h]), SentOps(p.log[h..]));
    UntouchedKeeps(Ideal(p), SentOps(p.log[h..]), k);
  }

  lemma IdealHeals(schema: Schema, p: Preparation)
    requires Placed(schema, p) && p.phase.Copying?
    ensures var x := Over(Opened(p), Ideal(p)); Init(x) && Healing(schema, x)
  {
    hide AllEvents, SentOps, LogOps, TargetRun, LogOk, SourceOf, AgreeElsewhere, ImagedTxn, Ideal, Touched, Typed;
    OpenedStart(schema, p);
    var x := Over(Opened(p), Ideal(p));
    IdealTyped(schema, p);
    forall k | !Touched(SentOps(x.log[x.start..]), k) ensures Lookup(Ideal(p), k) == Lookup(Mirror(x), k) {
      IdealMirrors(p, k);
    }
    NoOps(Ideal(p));
    NoOpsAtAll();
  }

  lemma OpenedIsInit(schema: Schema, p: Preparation)
    requires Placed(schema, p) && p.phase.Copying? && GoodLog(schema, p.log) && Typed(schema, p.target)
    requires AgreeOutside(p.target, SourceOf(p.origin, p.log), Replay(p))
    ensures Init(Opened(p)) && Healing(schema, Opened(p))
  {
    OpenedStart(schema, p);
    hide LogOps, SentOps, AllEvents, ResendIndex, AgreeOutside, AgreeElsewhere, Typed, GoodTxn;
    GoodOps(schema, p.log);
    MirrorIsSource(schema, Opened(p));
    assert Ops([]) == [];
    NoOps(p.target);
  }

  // What happens once the stream is open: its own steps, and rows that still land. They may come in
  // batches with changes, and then overwrite.
  datatype Happening = Piped(step: Step) | Lands(w: Write)

  ghost predicate CanHappen(schema: Schema, p: Preparation, s: State, h: Happening) {
    match h
    case Piped(step) => Enabled(s, step) && (step.ServerCommit? ==> ImagedTxn(schema, step.t))
    case Lands(w) => !w.Chg? && FromExport(p.exports, w.row)
  }

  ghost function Happen(s: State, h: Happening): State
    requires h.Piped? ==> Enabled(s, h.step)
  {
    match h
    case Piped(step) => Do(s, step)
    case Lands(w) => s.(target := Written(s.target, w))
  }

  ghost predicate Happens(schema: Schema, p: Preparation, s: State, hs: seq<Happening>, s': State)
    decreases |hs|
  {
    if hs == [] then s' == s
    else CanHappen(schema, p, s, hs[0]) && Happens(schema, p, Happen(s, hs[0]), hs[1..], s')
  }

  // The writes one happening makes.
  function WritesOf(s: State, h: Happening): seq<Write> {
    match h
    case Piped(step) => if step.WriteBatch? then Chgs(Ops(s.queue)) else []
    case Lands(w) => [w]
  }

  ghost function AllWrites(schema: Schema, p: Preparation, s: State, hs: seq<Happening>, s': State): seq<Write>
    requires Happens(schema, p, s, hs, s')
    decreases |hs|
  {
    if hs == [] then []
    else WritesOf(s, hs[0]) + AllWrites(schema, p, Happen(s, hs[0]), hs[1..], s')
  }

  function PipedSteps(hs: seq<Happening>): seq<Step>
    decreases |hs|
  {
    if hs == [] then [] else (if hs[0].Piped? then [hs[0].step] else []) + PipedSteps(hs[1..])
  }

  // The same session over another target: nothing the consumer does depends on what it finds there.
  ghost predicate Twin(s: State, x: State) {
    x == s.(target := x.target, base := x.base)
  }

  lemma TwinStep(s: State, x: State, step: Step)
    requires Twin(s, x) && Enabled(s, step)
    ensures Enabled(x, step) && Twin(Do(s, step), Do(x, step))
    ensures Do(s, step).target == if step.WriteBatch? then TargetRun(s.target, Ops(s.queue)) else s.target
    ensures Do(x, step).target == if step.WriteBatch? then TargetRun(x.target, Ops(s.queue)) else x.target
  {
    hide Ops, TargetRun, SinkStep, AllEvents, ResendIndex, EventsOf, EnqueueOne, ValidTxn;
  }

  lemma StepWrites(s: State, h: Happening, db: Database)
    requires h.Piped?
    ensures RunWrites(db, WritesOf(s, h)) == if h.step.WriteBatch? then TargetRun(db, Ops(s.queue)) else db
    ensures Changes(WritesOf(s, h)) == if h.step.WriteBatch? then Ops(s.queue) else []
  {
    hide Ops;
    ChgsRun(db, Ops(s.queue));
  }

  // What one happening does to a session and to its twin over the snapshot.
  ghost predicate TwinsDo(schema: Schema, p: Preparation, ws: seq<Write>, t: Database, t': Database,
                          xt: Database, xt': Database)
  {
    && t' == RunWrites(t, ws) && xt' == TargetRun(xt, Changes(ws))
    && FullImages(schema, Changes(ws)) && RowsFromExports(p, ws)
  }

  lemma TwinsDoMore(schema: Schema, p: Preparation, a: seq<Write>, b: seq<Write>, t: Database, t1: Database,
                    t2: Database, xt: Database, xt1: Database, xt2: Database)
    requires TwinsDo(schema, p, a, t, t1, xt, xt1) && TwinsDo(schema, p, b, t1, t2, xt1, xt2)
    ensures TwinsDo(schema, p, a + b, t, t2, xt, xt2)
  {
    hide RunWrites, TargetRun, Changes, FullImage, FromExport;
    RunWritesAppend(t, a, b);
    TargetRunAppend(xt, Changes(a), Changes(b));
  }

  lemma TwinsRest(schema: Schema, p: Preparation, t: Database, xt: Database)
    ensures TwinsDo(schema, p, [], t, t, xt, xt)
  {
    NoWrites(t);
    NoWrites(xt);
  }

  lemma TwinKeeps(schema: Schema, p: Preparation, s: State, x: State, step: Step)
    requires Twin(s, x) && Enabled(s, step) && (step.ServerCommit? ==> ImagedTxn(schema, step.t))
    requires Delivery(x) && Healing(schema, x)
    ensures Enabled(x, step) && Twin(Do(s, step), Do(x, step))
    ensures Delivery(Do(x, step)) && Healing(schema, Do(x, step))
    ensures TwinsDo(schema, p, WritesOf(s, Piped(step)), s.target, Do(s, step).target, x.target, Do(x, step).target)
  {
    hide Do, Enabled, RunWrites, Changes, WritesOf, TargetRun, Delivery, Healing, FullImage, ImagedTxn;
    TwinStep(s, x, step);
    StepWrites(s, Piped(step), s.target);
    NoOps(x.target);
    StepKeepsDelivery(x, step);
    StepKeepsHealing(schema, x, step);
    QueueImaged(schema, x);
    ChangesOnly(s, Piped(step));
  }

  lemma TwinLands(schema: Schema, p: Preparation, s: State, x: State, w: Write)
    requires Twin(s, x) && !w.Chg? && FromExport(p.exports, w.row)
    ensures Twin(Happen(s, Lands(w)), x)
    ensures TwinsDo(schema, p, WritesOf(s, Lands(w)), s.target, Happen(s, Lands(w)).target, x.target, x.target)
  {
    hide RunWrites, Changes, TargetRun, FromExport, Written;
    OneWrite(s.target, w);
    NoOps(x.target);
  }

  // Run the session over the snapshot itself, with nothing landing: its target is what the changes
  // alone make of the snapshot.
  lemma {:induction false} TwinRun(schema: Schema, p: Preparation, s: State, hs: seq<Happening>, s': State, x: State)
    returns (x': State)
    requires Happens(schema, p, s, hs, s') && Twin(s, x) && Delivery(x) && Healing(schema, x)
    ensures Run(x, PipedSteps(hs), x') && Twin(s', x') && ImagedSteps(schema, PipedSteps(hs))
    ensures TwinsDo(schema, p, AllWrites(schema, p, s, hs, s'), s.target, s'.target, x.target, x'.target)
    decreases |hs|
  {
    hide Do, Enabled, WritesOf, Delivery, Healing, ImagedTxn, Run, ImagedSteps, TwinsDo, Twin, FromExport;
    if hs == [] {
      x' := x;
      RunNothing(schema, x);
      TwinsRest(schema, p, s.target, x.target);
    } else {
      var h, next := hs[0], Happen(s, hs[0]);
      var x1 := x;
      if h.Piped? {
        TwinKeeps(schema, p, s, x, h.step);
        x1 := Do(x, h.step);
      } else {
        TwinLands(schema, p, s, x, h.w);
      }
      x' := TwinRun(schema, p, next, hs[1..], s', x1);
      TwinsDoMore(schema, p, WritesOf(s, h), AllWrites(schema, p, next, hs[1..], s'), s.target, next.target,
                  s'.target, x.target, x1.target, x'.target);
      if h.Piped? {
        RunMore(schema, x, h.step, PipedSteps(hs[1..]), x');
      } else {
        assert PipedSteps(hs) == PipedSteps(hs[1..]);
      }
    }
  }

  lemma RunNothing(schema: Schema, x: State)
    ensures Run(x, [], x) && ImagedSteps(schema, [])
  {
  }

  lemma RunMore(schema: Schema, x: State, step: Step, rest: seq<Step>, x': State)
    requires Enabled(x, step) && Run(Do(x, step), rest, x')
    requires (step.ServerCommit? ==> ImagedTxn(schema, step.t)) && ImagedSteps(schema, rest)
    ensures Run(x, [step] + rest, x') && ImagedSteps(schema, [step] + rest)
  {
    hide Do, Enabled, ImagedTxn;
    assert ([step] + rest)[1..] == rest;
    assert forall i :: 0 < i < |[step] + rest| ==> ([step] + rest)[i] == rest[i - 1];
  }

  lemma NoWrites(db: Database)
    ensures RunWrites(db, []) == db && Changes([]) == [] && TargetRun(db, []) == db
  {
  }

  lemma NoOps(db: Database)
    ensures TargetRun(db, []) == db
  {
  }

  lemma ChangesOnly(s: State, h: Happening)
    requires h.Piped?
    ensures forall i :: 0 <= i < |WritesOf(s, h)| ==> WritesOf(s, h)[i].Chg?
  {
    hide Ops;
  }

  // ---------- everything decodable reaches the target ----------

  lemma {:induction false} DurableIsWritten(schema: Schema, p: Preparation, s: State, hs: seq<Happening>, s': State)
    requires Happens(schema, p, s, hs, s')
    ensures Ops(s'.durable) == Ops(s.durable) + Changes(AllWrites(schema, p, s, hs, s'))
    ensures s'.handoff == s.handoff && s'.origin == s.origin
    ensures |s.log| <= |s'.log| && s'.log[..|s.log|] == s.log
    decreases |hs|
  {
    hide Ops, Do, Enabled, Changes, WritesOf, FromExport, ImagedTxn;
    if hs == [] {
      NoWrites(s.target);
      assert Ops(s.durable) + [] == Ops(s.durable);
    } else {
      var h, next := hs[0], Happen(s, hs[0]);
      var rest := AllWrites(schema, p, next, hs[1..], s');
      HappenDurable(s, h);
      DurableIsWritten(schema, p, next, hs[1..], s');
      RunWritesAppend(s.target, WritesOf(s, h), rest);
      assert s'.log[..|s.log|] == s'.log[..|next.log|][..|s.log|];
    }
  }

  lemma HappenDurable(s: State, h: Happening)
    requires h.Piped? ==> Enabled(s, h.step)
    requires h.Lands? ==> !h.w.Chg?
    ensures var next := Happen(s, h);
            && Ops(next.durable) == Ops(s.durable) + Changes(WritesOf(s, h))
            && next.handoff == s.handoff && next.origin == s.origin
            && |s.log| <= |next.log| && next.log[..|s.log|] == s.log
  {
    hide Ops, SinkStep, AllEvents, EventsOf, EnqueueOne, ResendIndex, ValidTxn, TargetRun, Changes, Chgs;
    if h.Piped? {
      StepWrites(s, h, s.target);
      OpsAppend(s.durable, s.queue);
    } else {
      OneWrite(s.target, h.w);
    }
    assert Ops(s.durable) + [] == Ops(s.durable);
  }

  lemma WithinTouches(history: seq<Message>, piece: seq<Message>, k: Key)
    requires Within(history, piece) && Touched(Ops(piece), k)
    ensures Touched(Ops(history), k)
  {
    hide Ops, Touched;
    var a: nat :| OccursAt(history, piece, a);
    var b := a + |piece|;
    assert history == history[..a] + (piece + history[b..]);
    OpsAppend(history[..a], piece + history[b..]);
    OpsAppend(piece, history[b..]);
    TouchedAppend(Ops(piece), Ops(history[b..]), k);
    TouchedAppend(Ops(history[..a]), Ops(piece) + Ops(history[b..]), k);
  }

  lemma {:induction false} TailIsDurable(log: seq<Txn>, h: nat, history: seq<Message>, k: Key)
    requires h <= |log| && forall i :: h <= i < |log| ==> Within(history, Items(Emitted(log[i])))
    requires Touched(SentOps(log[h..]), k)
    ensures Touched(Ops(history), k)
    decreases |log| - h
  {
    hide Ops, Touched, SentOps, LogOps, LogSent, Within, Items, Emitted, Logged;
    if h == |log| {
      NothingSent(k);
    } else {
      LogSentSplit(log[h..], 1);
      assert log[h..][..1] == [log[h]] && log[h..][1..] == log[h + 1..];
      TouchedAppend(SentOps([log[h]]), SentOps(log[h + 1..]), k);
      if Touched(SentOps([log[h]]), k) {
        SentOne(log[h]);
        EmittedKeepsOps(log[h]);
        WithinTouches(history, Items(Emitted(log[h])), k);
      } else {
        TailIsDurable(log, h + 1, history, k);
      }
    }
  }

  lemma NothingSent(k: Key)
    ensures !Touched(SentOps([]), k)
  {
    assert SentOps([]) == [];
  }

  lemma SentOne(t: Txn)
    ensures SentOps([t]) == Decoded(Logged(t.inner))
  {
    hide Logged, LogSent;
    LogSentOne(t);
  }

  // ---------- the results ----------

  // The session over the ideal target: what its changes make, and that they miss no key.
  lemma SessionPassed(schema: Schema, p: Preparation, hs: seq<Happening>, s': State)
    requires Prepared(schema, p) && p.phase.Copying?
    requires Happens(schema, p, Opened(p), hs, s') && Drained(s')
    ensures var ws := AllWrites(schema, p, Opened(p), hs, s');
            && Passed(schema, p, ws, s'.log) && RowsFromExports(p, ws)
            && s'.target == RunWrites(p.target, ws)
    ensures Continues(p, s'.log) && ImagedLog(schema, s'.log) && s'.origin == p.origin
  {
    hide Happens, AllWrites, Copied, Run, LogSent, LogOps, SentOps, AllEvents, Ops, TargetRun, RunWrites, Changes;
    hide Touched, Mirror, SourceOf, AgreeElsewhere, Healing, Delivery, Init, FullImage, FromExport, From, Twin;
    var s := Opened(p);
    var t := Ideal(p);
    var x := Over(s, t);
    OpenedStart(schema, p);
    IdealHeals(schema, p);
    InitDelivery(x);
    OverIsTwin(s, t);
    var ws := AllWrites(schema, p, s, hs, s');
    var x' := TwinRun(schema, p, s, hs, s', x);
    DrainedTwin(s', x');
    DrainedMirrors(schema, x, PipedSteps(hs), x');
    DurableIsWritten(schema, p, s, hs, s');
    SessionIdeal(schema, p, s', x', ws, t);
  }

  lemma OverIsTwin(s: State, t: Database)
    ensures Twin(s, Over(s, t))
  {
  }

  lemma DrainedTwin(s: State, x: State)
    requires Twin(s, x) && Drained(s)
    ensures Drained(x) && x.log == s.log && x.origin == s.origin && x.durable == s.durable && x.handoff == s.handoff
  {
  }

  lemma SessionIdeal(schema: Schema, p: Preparation, s': State, x': State, ws: seq<Write>, t: Database)
    requires t == Ideal(p)
    requires Delivery(x') && Healing(schema, x') && Drained(x') && x'.target == Mirror(x')
    requires x'.log == s'.log && x'.origin == s'.origin == p.origin && x'.durable == s'.durable
    requires x'.handoff == s'.handoff == From(p) && Continues(p, s'.log)
    requires TwinsDo(schema, p, ws, p.target, s'.target, t, x'.target)
    requires Ops(s'.durable) == Ops([]) + Changes(ws)
    ensures Passed(schema, p, ws, s'.log) && RowsFromExports(p, ws) && s'.target == RunWrites(p.target, ws)
    ensures ImagedLog(schema, s'.log)
  {
    hide LogSent, LogOps, SentOps, Ops, TargetRun, RunWrites, Changes, Touched, Delivery, FullImage, FromExport;
    var h := From(p);
    assert s'.log[..h] == p.log[..h] by {
      assert s'.log[..|p.log|][..h] == s'.log[..h];
    }
    NoOpsAtAll();
    assert Ops(s'.durable) == Changes(ws);
    DrainedDelivers(x');
    forall k | Touched(SentOps(s'.log[h..]), k) ensures Touched(Changes(ws), k) {
      TailIsDurable(s'.log, h, s'.durable, k);
    }
  }

  lemma NoOpsAtAll()
    ensures Ops([]) == []
  {
  }

  /** The whole hand-off, exactly. Prepare with any number of attempts and retries while other
      transactions commit and rows land; open the stream; let it run with any number of crashes
      while rows of any export go on landing; updates may change keys, and changes may be skipped
      because they cannot be decoded. Whenever nothing is left on the way, the target equals the
      source if and only if every key ends right. */
  lemma LandingIff(schema: Schema, p0: Preparation, prepare: seq<Preparing>, p: Preparation,
                   hs: seq<Happening>, s': State)
    requires Beginning(schema, p0) && PrepareRun(schema, p0, prepare, p) && p.phase.Copying?
    requires Happens(schema, p, Opened(p), hs, s') && Drained(s') && Lived(s')
    ensures s'.target == Source(s') <==>
            forall k :: EndsRight(p.initial, Snaps(p.landed) + AllWrites(schema, p, Opened(p), hs, s'), p.snapshot,
                                  LogSent(s'.log), k)
  {
    hide EndsRight, Happens, AllWrites, PrepareRun, LogOps, LogSent, Prepared, Passed, RowsFromExports, RunWrites;
    hide AcceptedRun, SourceRun, Opened;
    BeginningPrepared(schema, p0);
    RunKeepsPrepared(schema, p0, prepare, p);
    SessionPassed(schema, p, hs, s');
    EndsIff(schema, p, AllWrites(schema, p, Opened(p), hs, s'), s'.log);
  }

  /** What happens to keys that no update left for good and whose last change could be decoded: they end
      right if and only if no row is missing or stale, revived or overwritten. */
  lemma PlainEndsRight(t: Database, ws: seq<Write>, snap: Database, ss: seq<Sent>, k: Key)
    requires Plain(ss, k)
    ensures EndsRight(t, ws, snap, ss, k) <==> Unharmed(t, ws, snap, k)
  {
    hide DanglingMove, Unharmed;
  }

  // ---------- with the barrier: nothing lands once the stream is open ----------

  ghost predicate OnlyPiped(hs: seq<Happening>) {
    forall i :: 0 <= i < |hs| ==> hs[i].Piped?
  }

  lemma {:induction false} PipedWrites(schema: Schema, p: Preparation, s: State, hs: seq<Happening>, s': State,
                                       t: Database)
    requires Happens(schema, p, s, hs, s') && OnlyPiped(hs)
    ensures var ws := AllWrites(schema, p, s, hs, s'); RunWrites(t, ws) == TargetRun(t, Changes(ws))
    decreases |hs|
  {
    hide Do, Enabled, RunWrites, Changes, WritesOf, TargetRun;
    if hs == [] {
      NoWrites(t);
    } else {
      var h, next := hs[0], Happen(s, hs[0]);
      var rest := AllWrites(schema, p, next, hs[1..], s');
      assert h.Piped? && OnlyPiped(hs[1..]);
      StepWrites(s, h, t);
      NoOps(t);
      RunWritesAppend(t, WritesOf(s, h), rest);
      TargetRunAppend(t, Changes(WritesOf(s, h)), Changes(rest));
      PipedWrites(schema, p, next, hs[1..], s', RunWrites(t, WritesOf(s, h)));
    }
  }

  lemma {:induction false} SnapsTyped(schema: Schema, p: Preparation)
    requires Copied(schema, p)
    ensures Typed(schema, p.target)
  {
    forall i | 0 <= i < |Snaps(p.landed)| ensures FullWrite(schema, Snaps(p.landed)[i]) {
      assert FromExport(p.exports, p.landed[i]);
    }
    RunWritesTyped(schema, p.initial, Snaps(p.landed));
  }

  /** The hand-off with the barrier, exactly, retries included: when nothing lands once the stream is
      open, the drained target is the source if and only if no row is left behind, no skipped change
      matters, and every plain key that no written change addresses holds the row of the last export -
      what an earlier attempt copied is not replaced. */
  lemma BarrierIff(schema: Schema, p0: Preparation, prepare: seq<Preparing>, p: Preparation,
                   hs: seq<Happening>, s': State)
    requires Beginning(schema, p0) && PrepareRun(schema, p0, prepare, p) && p.phase.Copying?
    requires Happens(schema, p, Opened(p), hs, s') && OnlyPiped(hs) && Drained(s') && Lived(s')
    ensures var ops, ss := Changes(AllWrites(schema, p, Opened(p), hs, s')), LogSent(s'.log);
            s'.target == Source(s') <==>
            forall k :: BarrierRight(p, ops, ss, k)
  {
    hide Happens, AllWrites, PrepareRun, LogOps, LogSent, Passed, RowsFromExports, RunWrites, Prepared;
    hide AcceptedRun, SourceRun, Opened, BarrierRight, TargetRun, Changes;
    BeginningPrepared(schema, p0);
    RunKeepsPrepared(schema, p0, prepare, p);
    SessionPassed(schema, p, hs, s');
    var ws := AllWrites(schema, p, Opened(p), hs, s');
    PipedWrites(schema, p, Opened(p), hs, s', p.target);
    assert s'.target == TargetRun(p.target, Changes(ws));
    assert Source(s') == SourceOf(p.origin, s'.log);
    var ops, ss := Changes(ws), LogSent(s'.log);
    if forall k :: BarrierRight(p, ops, ss, k) {
      forall k ensures Lookup(TargetRun(p.target, ops), k) == Lookup(SourceOf(p.origin, s'.log), k) {
        BarrierKey(schema, p, ws, s'.log, k);
      }
      SameLookups(TargetRun(p.target, ops), SourceOf(p.origin, s'.log));
    } else {
      var k :| !BarrierRight(p, ops, ss, k);
      BarrierKey(schema, p, ws, s'.log, k);
    }
  }

  ghost predicate BarrierRight(p: Preparation, ops: seq<RowOp>, ss: seq<Sent>, k: Key) {
    && !LeftBehind(ss, Left(p.target, ops, k), k)
    && !SkippedOver(ss, Left(p.target, ops, k), k)
    && (Plain(ss, k) && !Touched(ops, k) ==> Lookup(p.target, k) == Lookup(p.snapshot, k))
  }

  lemma BarrierKey(schema: Schema, p: Preparation, ws: seq<Write>, log: seq<Txn>, k: Key)
    requires Prepared(schema, p) && p.phase.Copying? && Continues(p, log) && ImagedLog(schema, log)
    requires AcceptedRun(p.origin, LogOps(log)) && Passed(schema, p, ws, log)
    ensures Lookup(TargetRun(p.target, Changes(ws)), k) == Lookup(SourceOf(p.origin, log), k)
            <==> BarrierRight(p, Changes(ws), LogSent(log), k)
  {
    hide LogSent, DanglingMove, AcceptedRun, Passed, TargetRun, SourceRun, Changes, Typed, LastSent, AllOps, ImagedTxn;
    hide AgreeElsewhere, LogOk, RunWrites, Touched;
    var ss, ops := LogSent(log), Changes(ws);
    PassedImages(schema, p, ws, log);
    SnapsTyped(schema, p);
    TargetAt(schema, p.target, ops, k);
    ImagedOps(schema, log);
    SourceAt(schema, p.origin, ss, k);
    LastSentIs(ss, k);
    LastTouches(ops, k);
    if Plain(ss, k) {
      PlainKey(schema, p, ws, log, k);
    } else {
      NotPlain(p.origin, ss, Left(p.target, ops, k), k);
    }
  }

  /** Snapshot, then stream: if every key outside the replay holds its row of the last export when
      the stream opens, everything is decodable and keys do not change, then after any run with any
      number of crashes the drained target equals the source, and at any time replaying from the
      confirmed position makes it so. */
  lemma SnapshotThenStream(schema: Schema, p0: Preparation, prepare: seq<Preparing>, p: Preparation,
                           steps: seq<Step>, s': State)
    requires Beginning(schema, p0) && PrepareRun(schema, p0, prepare, p) && p.phase.Copying?
    requires GoodLog(schema, p.log) && AgreeOutside(p.target, p.snapshot, Replay(p))
    requires Run(Opened(p), steps, s') && GoodSteps(schema, steps)
    ensures Drained(s') ==> s'.target == Source(s')
    ensures TargetRun(s'.target, LogOps(s'.log[ResendIndex(s'.log, s'.confirmed)..])) == Source(s')
  {
    hide LogOps, SentOps, Source, Run, PrepareRun, AgreeOutside, SourceOf, Copied, Beginning, Healing, GoodTxn, Init;
    hide AgreeElsewhere, TargetRun;
    PrepareBegun(schema, p0, prepare, p);
    SnapsTyped(schema, p);
    RightAtOpening(schema, p);
    OpenedIsInit(schema, p);
    var s := Opened(p);
    RecoveryConverges(schema, s, steps, s');
    if Drained(s') {
      DrainedEqualsSource(schema, s, steps, s');
    }
  }

  lemma PrepareBegun(schema: Schema, p0: Preparation, prepare: seq<Preparing>, p: Preparation)
    requires Beginning(schema, p0) && PrepareRun(schema, p0, prepare, p)
    ensures Prepared(schema, p) && p.initial == p0.initial && p.origin == p0.origin
  {
    hide Prepared, PrepareRun;
    BeginningPrepared(schema, p0);
    RunKeepsPrepared(schema, p0, prepare, p);
  }

  lemma RightAtOpening(schema: Schema, p: Preparation)
    requires Placed(schema, p) && p.phase.Copying? && GoodLog(schema, p.log)
    requires AgreeOutside(p.target, p.snapshot, Replay(p))
    ensures AgreeOutside(p.target, SourceOf(p.origin, p.log), Replay(p))
  {
    hide LogOps, SentOps, SourceOf, LogOk, GoodTxn, Typed;
    assert GoodLog(schema, p.log[From(p)..]);
    GoodOps(schema, p.log[From(p)..]);
    forall k | !Touched(Replay(p), k) ensures Lookup(p.target, k) == Lookup(SourceOf(p.origin, p.log), k) {
      KeysStay(Replay(p), k);
    }
  }

  lemma KeysStay(ops: seq<RowOp>, k: Key)
    requires KeyPreserving(ops) && !Touched(ops, k)
    ensures !Concerned(ops, k)
  {
    forall i | 0 <= i < |ops| ensures !Concerns(ops[i], k) {
      assert KeepsKey(ops[i]) && ops[i].key != k;
    }
  }

  /** Replay repairs a target if and only if the target is right about every key that the replay
      does not address. */
  lemma ReplayIff(schema: Schema, t: Database, db: Database, ops: seq<RowOp>)
    requires Typed(schema, t) && Typed(schema, db) && FullImages(schema, ops) && KeyPreserving(ops)
    ensures TargetRun(t, ops) == SourceRun(db, ops) <==> AgreeOutside(t, SourceRun(db, ops), ops)
  {
    if AgreeOutside(t, SourceRun(db, ops), ops) {
      ReplayHeals(schema, t, db, ops);
    } else {
      var k :| !Touched(ops, k) && Lookup(t, k) != Lookup(SourceRun(db, ops), k);
      UntouchedKeeps(t, ops, k);
    }
  }
}
