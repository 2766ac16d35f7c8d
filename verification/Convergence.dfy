/** What the target holds: any run of the pipeline, however often it crashed, can be completed
    by replaying from the confirmed position, and then equals the source. */
module Convergence {
  import opened Wrappers
  import opened Seqs
  import opened Rows
  import opened Sink
  import opened Pipeline

  // The row changes the source itself applied, and whether the consumer can decode them.
  function Logged(inner: seq<Event>): seq<Sent> {
    if inner == [] then []
    else
      var n := |inner| - 1;
      Logged(inner[..n]) +
      (match inner[n]
       case Data(_, Change(op)) => [Sent(op, true)]
       case Undecodable(op) => [Sent(op, false)]
       case _ => [])
  }

  function LogSent(log: seq<Txn>): seq<Sent> {
    if log == [] then [] else LogSent(log[..|log| - 1]) + Logged(log[|log| - 1].inner)
  }

  // Everything the source did, and what of it reaches the consumer.
  function LogOps(log: seq<Txn>): seq<RowOp> {
    AllOps(LogSent(log))
  }

  function SentOps(log: seq<Txn>): seq<RowOp> {
    Decoded(LogSent(log))
  }

  function Source(s: State): Database {
    SourceRun(s.origin, LogOps(s.log))
  }

  // What the consumer's upserts and deletes make of the source's initial state.
  function Mirror(s: State): Database {
    TargetRun(s.origin, SentOps(s.log))
  }

  // Images are full.
  ghost predicate ImagedTxn(schema: Schema, t: Txn) {
    FullImages(schema, AllOps(Logged(t.inner)))
  }

  ghost predicate ImagedLog(schema: Schema, log: seq<Txn>) {
    forall i :: 0 <= i < |log| ==> ImagedTxn(schema, log[i])
  }

  // And everything is decodable, and no update changes a primary key.
  ghost predicate GoodTxn(schema: Schema, t: Txn) {
    && ImagedTxn(schema, t) && KeyPreserving(AllOps(Logged(t.inner)))
    && forall i :: 0 <= i < |Logged(t.inner)| ==> Logged(t.inner)[i].decodable
  }

  ghost predicate GoodLog(schema: Schema, log: seq<Txn>) {
    forall i :: 0 <= i < |log| ==> GoodTxn(schema, log[i])
  }

  lemma {:induction false} LogSentAppend(a: seq<Txn>, b: seq<Txn>)
    ensures LogSent(a + b) == LogSent(a) + LogSent(b)
    decreases |b|
  {
    hide Logged;
    if b == [] {
      assert a + b == a;
    } else {
      assert (a + b)[..|a + b| - 1] == a + b[..|b| - 1];
      LogSentAppend(a, b[..|b| - 1]);
    }
  }

  lemma LogSentSplit(log: seq<Txn>, i: nat)
    requires i <= |log|
    ensures LogSent(log) == LogSent(log[..i]) + LogSent(log[i..])
    ensures LogOps(log) == LogOps(log[..i]) + LogOps(log[i..])
    ensures SentOps(log) == SentOps(log[..i]) + SentOps(log[i..])
  {
    hide LogSent;
    assert log == log[..i] + log[i..];
    LogSentAppend(log[..i], log[i..]);
    SentAppend(LogSent(log[..i]), LogSent(log[i..]));
  }

  lemma LogSentOne(t: Txn)
    ensures LogSent([t]) == Logged(t.inner)
  {
    assert [t][..0] == [];
    assert LogSent([t]) == LogSent([t][..0]) + Logged(t.inner);
  }

  lemma {:induction false} ImagedOps(schema: Schema, log: seq<Txn>)
    requires ImagedLog(schema, log)
    ensures FullImages(schema, LogOps(log)) && FullImages(schema, SentOps(log))
  {
    hide Logged;
    if log != [] {
      var n := |log| - 1;
      ImagedOps(schema, log[..n]);
      SentAppend(LogSent(log[..n]), Logged(log[n].inner));
      assert ImagedTxn(schema, log[n]);
      DecodedFull(schema, LogSent(log));
    }
  }

  lemma {:induction false} GoodOps(schema: Schema, log: seq<Txn>)
    requires GoodLog(schema, log)
    ensures ImagedLog(schema, log) && KeyPreserving(LogOps(log)) && SentOps(log) == LogOps(log)
  {
    hide Logged, ImagedTxn;
    if log != [] {
      var n := |log| - 1;
      GoodOps(schema, log[..n]);
      SentAppend(LogSent(log[..n]), Logged(log[n].inner));
      assert GoodTxn(schema, log[n]);
      AllDecoded(Logged(log[n].inner));
    }
  }

  lemma {:induction false} ItemsKeepOps(ms: seq<Message>)
    ensures Ops(Items(ms)) == Ops(ms)
  {
    if ms != [] {
      var n := |ms| - 1;
      ItemsKeepOps(ms[..n]);
      if !ms[n].body.RelationInfo? {
        OpsAppend(Items(ms[..n]), [ms[n]]);
        assert [ms[n]][..0] == [];
        assert Ops([ms[n]]) == Ops([ms[n]][..0]) + if ms[n].body.Change? then [ms[n].body.op] else [];
      } else {
        assert Items(ms) == Items(ms[..n]);
      }
    }
  }

  lemma {:induction false} DataKeepsOps(inner: seq<Event>)
    ensures Ops(DataOf(inner)) == Decoded(Logged(inner))
  {
    if inner != [] {
      var n := |inner| - 1;
      DataKeepsOps(inner[..n]);
      LoggedLast(inner);
      if inner[n].Data? {
        var m := Message(inner[n].lsn, inner[n].body);
        OpsAppend(DataOf(inner[..n]), [m]);
        assert [m][..0] == [];
        assert Ops([m]) == Ops([m][..0]) + if m.body.Change? then [m.body.op] else [];
      } else {
        assert DataOf(inner) == DataOf(inner[..n]);
      }
    }
  }

  lemma LoggedLast(inner: seq<Event>)
    requires inner != []
    ensures var n := |inner| - 1;
            Decoded(Logged(inner)) == Decoded(Logged(inner[..n])) +
              if inner[n].Data? && inner[n].body.Change? then [inner[n].body.op] else []
  {
    var n := |inner| - 1;
    var last := match inner[n]
      case Data(_, Change(op)) => [Sent(op, true)]
      case Undecodable(op) => [Sent(op, false)]
      case _ => [];
    SentAppend(Logged(inner[..n]), last);
    if last != [] {
      assert last[..0] == [];
      assert Decoded(last) == Decoded(last[..0]) + if last[0].decodable then [last[0].op] else [];
    }
  }

  // Restamping the last message changes no operation.
  lemma EmittedKeepsOps(t: Txn)
    ensures Ops(Items(Emitted(t))) == Decoded(Logged(t.inner))
  {
    hide Items, Logged, DataOf;
    ItemsKeepOps(Emitted(t));
    DataKeepsOps(t.inner);
    var ms := DataOf(t.inner);
    if ms != [] {
      var n := |ms| - 1;
      assert Emitted(t)[..n] == ms[..n];
      assert Ops(Emitted(t)) == Ops(ms);
    }
  }

  lemma {:induction false} DeliveredOps(log: seq<Txn>)
    ensures Ops(AllItems(log)) == SentOps(log)
  {
    hide Emitted, Items, Logged;
    if log == [] {
      assert AllItems(log) == [];
    } else {
      var n := |log| - 1;
      DeliveredOps(log[..n]);
      assert log[..n] + [log[n]] == log;
      AllItemsSnoc(log[..n], log[n]);
      OpsAppend(AllItems(log[..n]), Items(Emitted(log[n])));
      EmittedKeepsOps(log[n]);
      SentAppend(LogSent(log[..n]), Logged(log[n].inner));
    }
  }

  // ---------- the healing invariant ----------

  ghost predicate Healing(schema: Schema, s: State) {
    && s.start <= |s.log|
    && ImagedLog(schema, s.log) && Typed(schema, s.origin) && Typed(schema, s.base)
    && AgreeOutside(s.base, Mirror(s), SentOps(s.log[s.start..]))
    && s.target == TargetRun(s.base, Ops(s.flushed))
  }

  // Not yet written in this session.
  function Remaining(s: State): seq<RowOp> {
    Ops(s.queue + Items(s.channel + Pending(s.prev, s.wire)))
  }

  lemma RemainingOps(schema: Schema, s: State)
    requires Delivery(s) && Healing(schema, s)
    ensures Ops(s.flushed) + Remaining(s) == SentOps(s.log[s.start..])
  {
    hide Items, AllItems, Pending, SentOps, Mirror, Ops, Positions, Finished, EndsWith, LogOk, ImagedLog, Typed;
    hide AgreeOutside, TargetRun, SinkRun;
    OpsInTwo(s.flushed, s.queue, Items(s.channel + Pending(s.prev, s.wire)), AllItems(s.log[s.start..]));
    DeliveredOps(s.log[s.start..]);
  }

  lemma OpsInTwo(a: seq<Message>, b: seq<Message>, c: seq<Message>, all: seq<Message>)
    requires a + b + c == all
    ensures Ops(a) + Ops(b + c) == Ops(all)
  {
    hide Ops;
    assert a + (b + c) == all;
    OpsAppend(a, b + c);
  }

  lemma QueueImaged(schema: Schema, s: State)
    requires Delivery(s) && Healing(schema, s)
    ensures FullImages(schema, Ops(s.queue))
  {
    hide Items, AllItems, SinkRun, SentOps, Mirror, Delivery, Remaining;
    RemainingOps(schema, s);
    ImagedOps(schema, s.log[s.start..]);
    RemainingStarts(s);
    var done, ops := Ops(s.flushed), SentOps(s.log[s.start..]);
    forall i | 0 <= i < |Ops(s.queue)| ensures FullImage(schema, Ops(s.queue)[i]) {
      assert Ops(s.queue)[i] == Remaining(s)[i] == ops[|done| + i];
    }
  }

  lemma RemainingStarts(s: State)
    ensures Ops(s.queue) <= Remaining(s)
  {
    hide Items, SinkRun;
    OpsAppend(s.queue, Items(s.channel + Pending(s.prev, s.wire)));
  }

  lemma SessionHeals(schema: Schema, s: State)
    requires Healing(schema, s)
    ensures TargetRun(s.base, SentOps(s.log[s.start..])) == Mirror(s)
  {
    var before, ops := SentOps(s.log[..s.start]), SentOps(s.log[s.start..]);
    hide SentOps;
    LogSentSplit(s.log, s.start);
    TargetRunAppend(s.origin, before, ops);
    ImagedOps(schema, s.log[..s.start]);
    ImagedOps(schema, s.log[s.start..]);
    TargetRunTyped(schema, s.origin, before);
    ReplayMirrors(schema, s.base, TargetRun(s.origin, before), ops);
  }

  // At any moment the target is right outside the changes this session still has to write.
  lemma AgreesOutsideRemaining(schema: Schema, s: State)
    requires Delivery(s) && Healing(schema, s)
    ensures AgreeOutside(s.target, Mirror(s), Remaining(s))
    ensures Typed(schema, s.target)
  {
    hide Delivery, SentOps, Remaining, Mirror;
    var done, rest := Ops(s.flushed), Remaining(s);
    RemainingOps(schema, s);
    SessionHeals(schema, s);
    TargetRunAppend(s.base, done, rest);
    forall k | !Touched(rest, k) ensures Lookup(s.target, k) == Lookup(Mirror(s), k) {
      UntouchedKeeps(s.target, rest, k);
    }
    ImagedOps(schema, s.log[s.start..]);
    assert forall i :: 0 <= i < |done| ==> done[i] == SentOps(s.log[s.start..])[i];
    TargetRunTyped(schema, s.base, done);
  }

  // The changes this session still has to write are among those a resume would replay.
  lemma RemainingIsReplayed(schema: Schema, s: State, i: nat, k: Key)
    requires Delivery(s) && Healing(schema, s) && i == ResendIndex(s.log, s.confirmed)
    requires Touched(Remaining(s), k)
    ensures Touched(SentOps(s.log[i..]), k)
  {
    hide Delivery, SentOps, Remaining, Mirror, AllItems;
    var rest := Remaining(s);
    RemainingOps(schema, s);
    TouchedAppend(Ops(s.flushed), rest, k);
    if i <= s.start {
      EarlierTouched(s.log, i, s.start, k);
    } else {
      CoveredHead(s, i);
      FlushedHead(schema, s, i);
      TailSplit(s.log, s.start, i);
      var extra := s.flushed[|AllItems(s.log[s.start..i])|..];
      SuffixTouched(SentOps(s.log[s.start..i]), Ops(extra), rest, SentOps(s.log[i..]), k);
    }
  }

  lemma EarlierTouched(log: seq<Txn>, i: nat, start: nat, k: Key)
    requires i <= start <= |log| && Touched(SentOps(log[start..]), k)
    ensures Touched(SentOps(log[i..]), k)
  {
    hide SentOps;
    LogSentSplit(log[i..], start - i);
    assert log[i..][start - i..] == log[start..];
    TouchedAppend(SentOps(log[i..][..start - i]), SentOps(log[start..]), k);
  }

  lemma TailSplit(log: seq<Txn>, start: nat, i: nat)
    requires start <= i <= |log|
    ensures SentOps(log[start..]) == SentOps(log[start..i]) + SentOps(log[i..])
  {
    hide SentOps;
    assert log[start..][..i - start] == log[start..i] && log[start..][i - start..] == log[i..];
    LogSentSplit(log[start..], i - start);
  }

  lemma CoveredHead(s: State, i: nat)
    requires Delivery(s) && s.start < i == ResendIndex(s.log, s.confirmed)
    ensures |AllItems(s.log[s.start..i])| <= |s.flushed|
  {
    hide Conserved, Finished, AllItems;
    assert s.log[i - 1].commitLSN < s.confirmed;
    assert Covered(s.log, s.start, |s.flushed|, s.confirmed);
    assert |AllItems(s.log[s.start..(i - 1) + 1])| <= |s.flushed|;
  }

  lemma SuffixTouched(a: seq<RowOp>, b: seq<RowOp>, rest: seq<RowOp>, c: seq<RowOp>, k: Key)
    requires (a + b) + rest == a + c
    requires Touched(rest, k)
    ensures Touched(c, k)
  {
    assert (a + b) + rest == a + (b + rest);
    assert (a + (b + rest))[|a|..] == b + rest && (a + c)[|a|..] == c;
    TouchedAppend(b, rest, k);
  }

  lemma SamePrefix<T>(a: seq<T>, b: seq<T>, c: seq<T>, x: seq<T>, y: seq<T>)
    requires a + b + c == x + y && |x| <= |a|
    ensures a[..|x|] == x
  {
    forall j | 0 <= j < |x| ensures a[j] == x[j] {
      assert (a + b + c)[j] == (x + y)[j];
    }
  }

  lemma FlushedHead(schema: Schema, s: State, i: nat)
    requires Delivery(s) && Healing(schema, s) && s.start < i <= |s.log|
    requires |AllItems(s.log[s.start..i])| <= |s.flushed|
    ensures Ops(s.flushed) == SentOps(s.log[s.start..i]) + Ops(s.flushed[|AllItems(s.log[s.start..i])|..])
  {
    hide SentOps, Mirror, Items, Emitted, AllItems, SinkRun, TargetRun, Pending, Ops;
    hide Positions, Finished, EndsWith, LogOk, AgreeOutside, Typed, ImagedTxn;
    var tail, head := s.log[s.start..], s.log[s.start..i];
    var n := |AllItems(head)|;
    AllItemsSplit(tail, i - s.start);
    assert tail[..i - s.start] == head;
    SamePrefix(s.flushed, s.queue, Items(s.channel + Pending(s.prev, s.wire)), AllItems(head),
               AllItems(tail[i - s.start..]));
    assert s.flushed == s.flushed[..n] + s.flushed[n..];
    OpsAppend(s.flushed[..n], s.flushed[n..]);
    assert ImagedLog(schema, head);
    DeliveredOps(head);
  }

  // ---------- every step keeps it ----------

  lemma LogGrows(log: seq<Txn>, t: Txn, start: nat)
    requires start <= |log|
    ensures SentOps(log + [t]) == SentOps(log) + SentOps([t])
    ensures SentOps((log + [t])[start..]) == SentOps(log[start..]) + SentOps([t])
  {
    hide SentOps, LogOps, LogSent;
    LogSentSplit(log + [t], |log|);
    assert (log + [t])[..|log|] == log && (log + [t])[|log|..] == [t];
    TailSplit(log + [t], start, |log|);
    assert (log + [t])[start..|log|] == log[start..];
  }

  lemma AgreeMore(base: Database, mirror: Database, tail: seq<RowOp>, ops: seq<RowOp>)
    requires AgreeOutside(base, mirror, tail)
    ensures AgreeOutside(base, TargetRun(mirror, ops), tail + ops)
  {
    hide TargetRun, Touched;
    forall k | !Touched(tail + ops, k) ensures Lookup(base, k) == Lookup(TargetRun(mirror, ops), k) {
      TouchedAppend(tail, ops, k);
      UntouchedKeeps(mirror, ops, k);
    }
  }

  lemma CommitHeals(schema: Schema, s: State, t: Txn)
    requires Healing(schema, s) && ImagedTxn(schema, t) && Enabled(s, ServerCommit(t))
    ensures Healing(schema, Do(s, ServerCommit(t)))
  {
    hide SentOps, EventsOf, ValidTxn, ImagedTxn, AgreeOutside, TargetRun, Typed, Ops;
    var tail := s.log[s.start..];
    LogGrows(s.log, t, s.start);
    TargetRunAppend(s.origin, SentOps(s.log), SentOps([t]));
    AgreeMore(s.base, Mirror(s), SentOps(tail), SentOps([t]));
  }

  lemma RestartHeals(schema: Schema, s: State, s': State)
    requires s' == Do(s, Restart)
    requires Delivery(s) && Healing(schema, s)
    ensures Healing(schema, s')
  {
    hide SentOps, AllEvents, Delivery, Remaining, Mirror;
    var i := ResendIndex(s.log, s.confirmed);
    AgreesOutsideRemaining(schema, s);
    forall k | !Touched(SentOps(s.log[i..]), k) ensures Lookup(s.target, k) == Lookup(Mirror(s), k) {
      if Touched(Remaining(s), k) {
        RemainingIsReplayed(schema, s, i, k);
      }
    }
    assert Mirror(s') == Mirror(s) by {
      MirrorOfLog(s, s');
    }
    assert Ops([]) == [];
  }

  lemma MirrorOfLog(s: State, s': State)
    requires s.log == s'.log && s.origin == s'.origin
    ensures Mirror(s) == Mirror(s')
  {
  }

  lemma StepKeepsHealing(schema: Schema, s: State, step: Step)
    requires Delivery(s) && Healing(schema, s) && Enabled(s, step)
    requires step.ServerCommit? ==> ImagedTxn(schema, step.t)
    ensures Healing(schema, Do(s, step))
  {
    hide SentOps, AllEvents, Delivery, SinkStep, EventsOf;
    match step
    case ServerCommit(t) => CommitHeals(schema, s, t);
    case Restart => RestartHeals(schema, s, Do(s, step));
    case WriteBatch =>
      OpsAppend(s.flushed, s.queue);
      TargetRunAppend(s.base, Ops(s.flushed), Ops(s.queue));
    case _ =>
  }

  ghost predicate ImagedSteps(schema: Schema, steps: seq<Step>) {
    forall i :: 0 <= i < |steps| && steps[i].ServerCommit? ==> ImagedTxn(schema, steps[i].t)
  }

  ghost predicate GoodSteps(schema: Schema, steps: seq<Step>) {
    forall i :: 0 <= i < |steps| && steps[i].ServerCommit? ==> GoodTxn(schema, steps[i].t)
  }

  lemma {:induction false} RunKeepsHealing(schema: Schema, s: State, steps: seq<Step>, s': State)
    requires Delivery(s) && Healing(schema, s) && ImagedSteps(schema, steps) && Run(s, steps, s')
    ensures Delivery(s') && Healing(schema, s')
    decreases |steps|
  {
    hide Delivery, Healing;
    if steps != [] {
      StepKeepsDelivery(s, steps[0]);
      StepKeepsHealing(schema, s, steps[0]);
      assert forall i :: 0 <= i < |steps[1..]| ==> steps[1..][i] == steps[i + 1];
      RunKeepsHealing(schema, Do(s, steps[0]), steps[1..], s');
    }
  }

  lemma StepKeepsGoodLog(schema: Schema, s: State, step: Step)
    requires GoodLog(schema, s.log) && Enabled(s, step) && (step.ServerCommit? ==> GoodTxn(schema, step.t))
    ensures GoodLog(schema, Do(s, step).log) && Do(s, step).origin == s.origin
  {
    hide GoodTxn, ValidTxn, Ops, AllEvents, EventsOf, SinkStep, EnqueueOne, ResendIndex, TargetRun;
  }

  lemma {:induction false} RunKeepsGoodLog(schema: Schema, s: State, steps: seq<Step>, s': State)
    requires GoodLog(schema, s.log) && GoodSteps(schema, steps) && Run(s, steps, s')
    ensures GoodLog(schema, s'.log) && s'.origin == s.origin
    decreases |steps|
  {
    hide GoodLog, GoodTxn, Do, Enabled;
    if steps != [] {
      StepKeepsGoodLog(schema, s, steps[0]);
      assert forall i :: 0 <= i < |steps[1..]| ==> steps[1..][i] == steps[i + 1];
      RunKeepsGoodLog(schema, Do(s, steps[0]), steps[1..], s');
    }
  }

  // ---------- what the target holds ----------

  // The source accepted its own changes.
  ghost predicate Lived(s: State) {
    AcceptedRun(s.origin, LogOps(s.log))
  }

  lemma MirrorIsSource(schema: Schema, s: State)
    requires GoodLog(schema, s.log) && Typed(schema, s.origin)
    ensures Mirror(s) == Source(s)
  {
    hide LogOps, SentOps;
    GoodOps(schema, s.log);
    ImagedOps(schema, s.log);
    KeyPreservingSame(schema, s.origin, LogOps(s.log));
  }

  // However often a run crashed, replaying from the confirmed position makes the target what one
  // undisturbed pass over the log would have made it.
  lemma RecoveryMirrors(schema: Schema, s: State, steps: seq<Step>, s': State)
    requires Init(s) && Healing(schema, s) && ImagedSteps(schema, steps) && Run(s, steps, s')
    ensures Healing(schema, s')
    ensures TargetRun(s'.target, SentOps(s'.log[ResendIndex(s'.log, s'.confirmed)..])) == Mirror(s')
  {
    hide SentOps, Delivery, Mirror;
    InitDelivery(s);
    RunKeepsHealing(schema, s, steps, s');
    var r := Do(s', Restart);
    RestartHeals(schema, s', r);
    SessionHeals(schema, r);
    MirrorOfLog(s', r);
  }

  lemma DrainedMirrors(schema: Schema, s: State, steps: seq<Step>, s': State)
    requires Init(s) && Healing(schema, s) && ImagedSteps(schema, steps) && Run(s, steps, s')
    requires Drained(s')
    ensures Delivery(s') && Healing(schema, s')
    ensures s'.target == Mirror(s')
  {
    hide SentOps, Delivery, Mirror;
    InitDelivery(s);
    RunKeepsHealing(schema, s, steps, s');
    AgreesOutsideRemaining(schema, s');
    assert s'.channel + Pending(s'.prev, s'.wire) == [];
    assert Remaining(s') == [];
    SameLookups(s'.target, Mirror(s'));
  }

  lemma GoodStepsImaged(schema: Schema, steps: seq<Step>)
    requires GoodSteps(schema, steps)
    ensures ImagedSteps(schema, steps)
  {
  }

  /** Recovery: stop the consumer at any point of any run; replaying from the confirmed position
      makes the target equal to the source, although the target itself may be a mixture of old
      and new rows at that point. */
  lemma RecoveryConverges(schema: Schema, s: State, steps: seq<Step>, s': State)
    requires Init(s) && Healing(schema, s) && GoodLog(schema, s.log)
    requires GoodSteps(schema, steps) && Run(s, steps, s')
    ensures TargetRun(s'.target, LogOps(s'.log[ResendIndex(s'.log, s'.confirmed)..])) == Source(s')
  {
    hide LogOps, SentOps, Mirror, Source, Run, ImagedTxn;
    GoodStepsImaged(schema, steps);
    RecoveryMirrors(schema, s, steps, s');
    RunKeepsGoodLog(schema, s, steps, s');
    MirrorIsSource(schema, s');
    GoodOps(schema, s'.log[ResendIndex(s'.log, s'.confirmed)..]);
  }

  /** Convergence: after any run, with any number of crashes, whenever nothing is left on the
      wire or in the queues the target equals the source. */
  lemma DrainedEqualsSource(schema: Schema, s: State, steps: seq<Step>, s': State)
    requires Init(s) && Healing(schema, s) && GoodLog(schema, s.log)
    requires GoodSteps(schema, steps) && Run(s, steps, s')
    requires Drained(s')
    ensures s'.target == Source(s')
  {
    hide LogOps, SentOps, Mirror, Source, Run, ImagedTxn;
    GoodStepsImaged(schema, steps);
    DrainedMirrors(schema, s, steps, s');
    RunKeepsGoodLog(schema, s, steps, s');
    MirrorIsSource(schema, s');
  }

  /** With updates that change primary keys and changes that are skipped because they cannot be
      decoded, crashes included: the drained target equals the source if and only if no row is left
      behind under a key that an update left for good, and no key whose last change was skipped
      holds something else than that change left. */
  lemma DrainedEqualsSourceIff(schema: Schema, s: State, steps: seq<Step>, s': State)
    requires Init(s) && Healing(schema, s) && ImagedSteps(schema, steps) && Run(s, steps, s')
    requires Drained(s') && Lived(s')
    ensures s'.target == Source(s') <==>
            forall k :: var held := Left(s'.origin, SentOps(s'.log), k);
                        !LeftBehind(LogSent(s'.log), held, k) && !SkippedOver(LogSent(s'.log), held, k)
  {
    hide LogSent, Run, AgreeOutside, LeftBehind, SkippedOver, Left, TargetRun, SourceRun;
    DrainedMirrors(schema, s, steps, s');
    ImagedOps(schema, s'.log);
    ConvergesIff(schema, s'.origin, LogSent(s'.log));
  }

  // If every change is decodable, what is left is the keys that an update left for good: their old
  // rows always stay.
  lemma LeftBehindIffMoved(schema: Schema, db: Database, ss: seq<Sent>, k: Key)
    requires Typed(schema, db) && FullImages(schema, AllOps(ss)) && AcceptedRun(db, AllOps(ss))
    requires forall i :: 0 <= i < |ss| ==> ss[i].decodable
    ensures LeftBehind(ss, Left(db, Decoded(ss), k), k) <==> DanglingMove(AllOps(ss), k)
    ensures !SkippedOver(ss, Left(db, Decoded(ss), k), k)
  {
    hide DanglingMove, TargetRun, SourceRun, AcceptedRun, Typed, Left, Decoded, AllOps;
    AllDecoded(ss);
    MoveOutcome(schema, db, AllOps(ss), k);
    TargetAt(schema, db, AllOps(ss), k);
    LastSentDecodable(ss, k);
  }

  lemma {:induction false} LastSentDecodable(ss: seq<Sent>, k: Key)
    requires forall i :: 0 <= i < |ss| ==> ss[i].decodable
    ensures LastSent(ss, k).Some? ==> LastSent(ss, k).value.decodable
  {
    if ss != [] {
      LastSentDecodable(ss[..|ss| - 1], k);
    }
  }

  /** In particular, when everything is decodable: if and only if no key of the whole log is left by an
      update and never addressed again. */
  lemma DrainedDecodableIff(schema: Schema, s: State, steps: seq<Step>, s': State)
    requires Init(s) && Healing(schema, s) && ImagedSteps(schema, steps) && Run(s, steps, s')
    requires Drained(s') && Lived(s')
    requires forall i :: 0 <= i < |LogSent(s'.log)| ==> LogSent(s'.log)[i].decodable
    ensures s'.target == Source(s') <==> forall k :: !DanglingMove(LogOps(s'.log), k)
  {
    hide LogSent, Run, AgreeOutside, LeftBehind, SkippedOver, Left, TargetRun, SourceRun, DanglingMove, AcceptedRun;
    DrainedEqualsSourceIff(schema, s, steps, s');
    DrainedMirrors(schema, s, steps, s');
    ImagedOps(schema, s'.log);
    forall k ensures var held := Left(s'.origin, SentOps(s'.log), k);
                     (!LeftBehind(LogSent(s'.log), held, k) && !SkippedOver(LogSent(s'.log), held, k))
                     <==> !DanglingMove(LogOps(s'.log), k) {
      LeftBehindIffMoved(schema, s'.origin, LogSent(s'.log), k);
    }
  }

  // A skipped change does no harm if a decodable change addresses its key again.
  lemma {:induction false} AddressedAgain(ss: seq<Sent>, i: nat, held: Option<Cells>)
    requires i < |ss| && ss[i].decodable
    requires forall j :: i < j < |ss| && ss[j].op.key == ss[i].op.key ==> ss[j].decodable
    ensures !SkippedOver(ss, held, ss[i].op.key)
  {
    var n := |ss| - 1;
    var k := ss[i].op.key;
    if i < n && ss[n].op.key != k {
      AgainLast(ss[..n], i, k);
    }
  }

  lemma {:induction false} AgainLast(ss: seq<Sent>, i: nat, k: Key)
    requires i < |ss| && ss[i].decodable && ss[i].op.key == k
    requires forall j :: i < j < |ss| && ss[j].op.key == k ==> ss[j].decodable
    ensures LastSent(ss, k).Some? && LastSent(ss, k).value.decodable
  {
    var n := |ss| - 1;
    if i < n && ss[n].op.key != k {
      AgainLast(ss[..n], i, k);
    }
  }

  // A target that starts as a copy of the source, with the stream from the first transaction on.
  lemma CopyHeals(schema: Schema, s: State)
    requires Init(s) && s.start == 0 && s.target == s.origin
    requires ImagedLog(schema, s.log) && Typed(schema, s.origin)
    ensures Healing(schema, s)
  {
    hide SentOps, AllEvents;
    assert s.log[0..] == s.log;
    forall k | !Touched(SentOps(s.log), k) ensures Lookup(s.base, k) == Lookup(Mirror(s), k) {
      UntouchedKeeps(s.origin, SentOps(s.log), k);
    }
    assert Ops([]) == [];
  }
}
