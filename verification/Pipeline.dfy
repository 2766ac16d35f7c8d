/** The acknowledge pipeline as a step system: server log, connection, sink, channel, batching
    queue, target, acknowledged position, crash and resume. */
module Pipeline {
  import opened Wrappers
  import opened Rows
  import opened Seqs
  import opened Sink

  // ---------- the server log ----------

  // Transactions are logged in commit order. The changes of one may lie anywhere before its own
  // commit record, also before the commits of earlier transactions: only commits are ordered.
  ghost predicate ValidTxn(t: Txn) {
    && t.commitLSN < t.endLSN
    && (forall i :: 0 <= i < |t.inner| ==> InnerEvent(t.inner[i]))
    && (forall i :: 0 <= i < |t.inner| && t.inner[i].Data? ==> t.inner[i].lsn <= t.commitLSN)
  }

  ghost predicate ValidLog(log: seq<Txn>) {
    && (forall i :: 0 <= i < |log| ==> ValidTxn(log[i]))
    && (forall i :: 0 < i < |log| ==> log[i - 1].endLSN <= log[i].commitLSN)
  }

  // Where a session that starts at p begins: the server skips the transactions whose commit
  // record lies below p.
  function ResendIndex(log: seq<Txn>, p: nat): (i: nat)
    ensures i <= |log|
    ensures forall j :: 0 <= j < i ==> log[j].commitLSN < p
    ensures i < |log| ==> p <= log[i].commitLSN
  {
    if log == [] then 0
    else
      var i := ResendIndex(log[..|log| - 1], p);
      assert forall j :: 0 <= j < |log| - 1 ==> log[..|log| - 1][j] == log[j];
      if i == |log| - 1 && log[i].commitLSN < p then |log| else i
  }

  lemma {:induction false} EndsOrdered(log: seq<Txn>, i: nat, j: nat)
    requires ValidLog(log) && i < j < |log|
    ensures log[i].endLSN <= log[j].commitLSN < log[j].endLSN
    decreases j
  {
    assert ValidTxn(log[j]) && ValidTxn(log[j - 1]);
    if i < j - 1 {
      EndsOrdered(log, i, j - 1);
    }
  }

  function AllEvents(log: seq<Txn>): seq<Event> {
    if log == [] then [] else AllEvents(log[..|log| - 1]) + EventsOf(log[|log| - 1])
  }

  // ---------- what the consumer queues ----------

  // The listener ignores relation messages: they are neither queued nor acknowledged.
  function Items(ms: seq<Message>): seq<Message> {
    if ms == [] then []
    else
      var n := |ms| - 1;
      Items(ms[..n]) + (if ms[n].body.RelationInfo? then [] else [ms[n]])
  }

  // One batch of items for each transaction.
  function Batches(log: seq<Txn>): (bs: seq<seq<Message>>)
    ensures |bs| == |log|
    ensures forall i :: 0 <= i < |log| ==> bs[i] == Items(Emitted(log[i]))
  {
    if log == [] then [] else Batches(log[..|log| - 1]) + [Items(Emitted(log[|log| - 1]))]
  }

  function AllItems(log: seq<Txn>): seq<Message> {
    Flatten(Batches(log))
  }

  lemma {:induction false} ItemsAppend(a: seq<Message>, b: seq<Message>)
    ensures Items(a + b) == Items(a) + Items(b)
    decreases |b|
  {
    if b == [] {
      assert a + b == a;
    } else {
      assert (a + b)[..|a + b| - 1] == a + b[..|b| - 1];
      ItemsAppend(a, b[..|b| - 1]);
    }
  }

  lemma AllItemsSplit(log: seq<Txn>, i: nat)
    requires i <= |log|
    ensures AllItems(log) == AllItems(log[..i]) + AllItems(log[i..])
  {
    hide Emitted, Items, Flatten;
    assert Batches(log)[..i] == Batches(log[..i]);
    assert Batches(log)[i..] == Batches(log[i..]);
    FlattenSplit(Batches(log), i);
  }

  lemma AllItemsSnoc(log: seq<Txn>, t: Txn)
    ensures AllItems(log + [t]) == AllItems(log) + Items(Emitted(t))
  {
    hide Emitted, Items, Flatten;
    AllItemsSplit(log + [t], |log|);
    assert (log + [t])[..|log|] == log && (log + [t])[|log|..] == [t];
    assert Batches([t]) == [Items(Emitted(t))];
    FlattenOne(Items(Emitted(t)));
  }

  // The row changes the consumer writes for a sequence of queued messages.
  function Ops(ms: seq<Message>): seq<RowOp> {
    if ms == [] then []
    else
      var n := |ms| - 1;
      Ops(ms[..n]) + (if ms[n].body.Change? then [ms[n].body.op] else [])
  }

  // ---------- states and steps ----------

  datatype State = State(
    log: seq<Txn>,               // committed transactions, in commit order
    walEnd: nat,                 // end of the server's log
    confirmed: nat,              // the position the slot resumes from
    wire: seq<Event>,            // produced by the server for this session, not yet received
    prev: Option<Message>,       // held back by the sink
    channel: seq<Message>,       // between the sink and the batching loop
    queue: seq<Message>,         // collected by the batching loop
    written: Option<nat>,        // a batch is written and its last position not yet acknowledged
    pos: nat,                    // acknowledged in this session
    target: Database,
    // history, read by no step
    origin: Database,            // the source before the log
    start: nat,                  // first transaction of this session
    base: Database,              // the target when this session began
    flushed: seq<Message>,       // written in this session
    durable: seq<Message>,       // ever written, in the order of writing
    handoff: nat)                // first transaction that the stream has to deliver

  datatype Step =
    | ServerCommit(t: Txn)
    | Receive
    | Enqueue
    | WriteBatch
    | AckLast
    | Report(adopted: bool)
    | Restart

  ghost predicate Enabled(s: State, step: Step) {
    match step
    case ServerCommit(t) => ValidTxn(t) && s.walEnd <= t.commitLSN
    case Receive => s.wire != []
    case Enqueue => s.channel != []
    case WriteBatch => s.queue != [] && s.written == None
    case AckLast => s.written.Some?
    case Report(_) => s.pos > 0
    case Restart => true
  }

  // The listener drops relation messages and queues the others.
  function EnqueueOne(queue: seq<Message>, m: Message): seq<Message> {
    if m.body.RelationInfo? then queue else queue + [m]
  }

  ghost function Do(s: State, step: Step): State
    requires Enabled(s, step)
  {
    match step
    case ServerCommit(t) =>
      s.(log := s.log + [t], walEnd := t.endLSN, wire := s.wire + EventsOf(t))
    case Receive =>
      var st := SinkStep(SinkState(s.prev, s.channel), s.wire[0]);
      s.(wire := s.wire[1..], prev := st.prev, channel := st.sent)
    case Enqueue =>
      s.(channel := s.channel[1..], queue := EnqueueOne(s.queue, s.channel[0]))
    case WriteBatch =>
      s.(target := TargetRun(s.target, Ops(s.queue)), queue := [],
         written := Some(s.queue[|s.queue| - 1].walStart),
         flushed := s.flushed + s.queue, durable := s.durable + s.queue)
    case AckLast =>
      s.(written := None, pos := Max(s.pos, s.written.value))
    case Report(adopted) =>
      // A server may ignore a report, or move its slot back: both only cause redelivery.
      if adopted then s.(confirmed := s.pos) else s
    case Restart =>
      var i := ResendIndex(s.log, s.confirmed);
      s.(wire := AllEvents(s.log[i..]), prev := None, channel := [], queue := [], written := None,
         pos := 0, start := i, base := s.target, flushed := [])
  }

  ghost predicate Run(s: State, steps: seq<Step>, s': State)
    decreases |steps|
  {
    if steps == [] then s' == s
    else Enabled(s, steps[0]) && Run(Do(s, steps[0]), steps[1..], s')
  }

  // The first session: it streams everything from the hand-off on, and the slot resumes no later.
  ghost predicate Init(s: State) {
    && ValidLog(s.log)
    && (s.log != [] ==> s.log[|s.log| - 1].endLSN <= s.walEnd)
    && s.start == s.handoff <= |s.log|
    && ResendIndex(s.log, s.confirmed) <= s.handoff
    && s.confirmed <= s.walEnd
    && s.wire == AllEvents(s.log[s.start..])
    && s.prev == None && s.channel == [] && s.queue == [] && s.written == None && s.pos == 0
    && s.base == s.target && s.flushed == [] && s.durable == []
  }

  // ---------- delivery ----------

  function Pending(prev: Option<Message>, wire: seq<Event>): seq<Message> {
    SinkRun(Fresh(prev), wire).sent
  }

  // What a session over log has to deliver is written, queued, in the channel, held or on the wire.
  ghost predicate Conserved(log: seq<Txn>, flushed: seq<Message>, queue: seq<Message>,
                            channel: seq<Message>, prev: Option<Message>, wire: seq<Event>) {
    && flushed + queue + Items(channel + Pending(prev, wire)) == AllItems(log)
    && SinkRun(Fresh(prev), wire).prev == None
  }

  // Every transaction that a session starting at p skips was finished before this session, or
  // all its items are among the first n of this session.
  ghost predicate Covered(log: seq<Txn>, start: nat, n: nat, p: nat)
    requires start <= |log|
  {
    forall i :: start <= i < |log| && log[i].commitLSN < p ==> |AllItems(log[start..i + 1])| <= n
  }

  // The messages of piece, each as often as it occurs there, in order and without others between.
  ghost predicate Within(history: seq<Message>, piece: seq<Message>) {
    exists a: nat :: OccursAt(history, piece, a)
  }

  predicate OccursAt(history: seq<Message>, piece: seq<Message>, a: nat) {
    a + |piece| <= |history| && history[a..a + |piece|] == piece
  }

  ghost predicate Finished(log: seq<Txn>, upto: nat, from: nat, durable: seq<Message>)
    requires upto <= |log|
  {
    forall i :: from <= i < upto ==> Within(durable, Items(Emitted(log[i])))
  }

  ghost predicate EndsWith(history: seq<Message>, last: seq<Message>) {
    |last| <= |history| && history[|history| - |last|..] == last
  }

  ghost predicate LogOk(log: seq<Txn>, walEnd: nat) {
    ValidLog(log) && (log != [] ==> log[|log| - 1].endLSN <= walEnd)
  }

  ghost predicate Positions(s: State)
    requires s.start <= |s.log|
  {
    && s.confirmed <= s.walEnd && Covered(s.log, s.start, |s.flushed|, s.confirmed)
    && s.pos <= s.walEnd && Covered(s.log, s.start, |s.flushed|, s.pos)
    && (s.written.Some? ==>
          s.written.value <= s.walEnd && Covered(s.log, s.start, |s.flushed|, s.written.value))
  }

  ghost predicate Delivery(s: State) {
    && LogOk(s.log, s.walEnd) && s.start <= |s.log|
    && Conserved(s.log[s.start..], s.flushed, s.queue, s.channel, s.prev, s.wire)
    && Positions(s)
    && EndsWith(s.durable, s.flushed)
    && Finished(s.log, s.start, s.handoff, s.durable)
  }

  // Exactly the transactions before the resend index commit below p.
  lemma BelowResend(log: seq<Txn>, p: nat)
    requires ValidLog(log)
    ensures forall i :: 0 <= i < |log| ==> (log[i].commitLSN < p <==> i < ResendIndex(log, p))
  {
    var r := ResendIndex(log, p);
    forall i | r < i < |log| ensures p <= log[i].commitLSN {
      EndsOrdered(log, r, i);
      assert ValidTxn(log[r]);
    }
  }

  lemma SubLogValid(log: seq<Txn>, i: nat)
    requires ValidLog(log) && i <= |log|
    ensures ValidLog(log[i..]) && ValidLog(log[..i])
  {
    var tail := log[i..];
    assert forall j :: 0 <= j < |tail| ==> tail[j] == log[i + j];
    forall j | 0 < j < |tail| ensures tail[j - 1].endLSN <= tail[j].commitLSN {
      assert tail[j - 1] == log[i + j - 1];
    }
  }

  lemma {:induction false} StartConserves(log: seq<Txn>)
    requires ValidLog(log)
    ensures Conserved(log, [], [], [], None, AllEvents(log))
  {
    if log != [] {
      var n := |log| - 1;
      SubLogValid(log, n);
      assert ValidTxn(log[n]);
      StartConserves(log[..n]);
      CommitConserves(log[..n], [], [], [], None, AllEvents(log[..n]), log[n]);
      assert log[..n] + [log[n]] == log;
    }
  }

  lemma CommitConserves(log: seq<Txn>, flushed: seq<Message>, queue: seq<Message>,
                        channel: seq<Message>, prev: Option<Message>, wire: seq<Event>, t: Txn)
    requires Conserved(log, flushed, queue, channel, prev, wire) && ValidTxn(t)
    ensures Conserved(log + [t], flushed, queue, channel, prev, wire + EventsOf(t))
  {
    hide Emitted, EventsOf, Items, AllItems, SinkRun;
    var st := SinkRun(Fresh(prev), wire);
    SinkRunAppend(Fresh(prev), wire, EventsOf(t));
    TransactionRefinesBatch(st, t);
    AllItemsSnoc(log, t);
    var sent := channel + Pending(prev, wire);
    assert channel + Pending(prev, wire + EventsOf(t)) == sent + Emitted(t);
    ItemsAppend(sent, Emitted(t));
  }

  lemma ReceiveConserves(log: seq<Txn>, flushed: seq<Message>, queue: seq<Message>,
                         channel: seq<Message>, prev: Option<Message>, wire: seq<Event>)
    requires Conserved(log, flushed, queue, channel, prev, wire) && wire != []
    ensures var st := SinkStep(SinkState(prev, channel), wire[0]);
            Conserved(log, flushed, queue, st.sent, st.prev, wire[1..])
  {
    hide AllItems, Items, Pending, SinkStep;
    ReceiveShifts(channel, prev, wire);
  }

  lemma ReceiveShifts(channel: seq<Message>, prev: Option<Message>, wire: seq<Event>)
    requires wire != []
    ensures var st := SinkStep(SinkState(prev, channel), wire[0]);
            && st.sent + Pending(st.prev, wire[1..]) == channel + Pending(prev, wire)
            && SinkRun(Fresh(st.prev), wire[1..]).prev == SinkRun(Fresh(prev), wire).prev
  {
    hide SinkStep, Pending, SinkRun;
    var one := SinkStep(Fresh(prev), wire[0]);
    StepAppends(channel, prev, wire[0]);
    PendingUnrolled(prev, wire);
    assert (channel + one.sent) + Pending(one.prev, wire[1..]) == channel + (one.sent + Pending(one.prev, wire[1..]));
  }

  lemma StepAppends(channel: seq<Message>, prev: Option<Message>, ev: Event)
    ensures var st, one := SinkStep(SinkState(prev, channel), ev), SinkStep(Fresh(prev), ev);
            st.sent == channel + one.sent && st.prev == one.prev
  {
  }

  lemma PendingUnrolled(prev: Option<Message>, wire: seq<Event>)
    requires wire != []
    ensures var one := SinkStep(Fresh(prev), wire[0]);
            && Pending(prev, wire) == one.sent + Pending(one.prev, wire[1..])
            && SinkRun(Fresh(one.prev), wire[1..]).prev == SinkRun(Fresh(prev), wire).prev
  {
    var one := SinkStep(Fresh(prev), wire[0]);
    assert SinkRun(Fresh(prev), wire) == SinkRun(one, wire[1..]);
    hide SinkStep, SinkRun;
    SinkRunSent(one, wire[1..]);
  }

  lemma EnqueueConserves(log: seq<Txn>, flushed: seq<Message>, queue: seq<Message>,
                         channel: seq<Message>, prev: Option<Message>, wire: seq<Event>)
    requires Conserved(log, flushed, queue, channel, prev, wire) && channel != []
    ensures Conserved(log, flushed, EnqueueOne(queue, channel[0]), channel[1..], prev, wire)
  {
    hide AllItems, Items, Pending, EnqueueOne;
    var m, rest := channel[0], channel[1..] + Pending(prev, wire);
    assert channel + Pending(prev, wire) == [m] + rest;
    EnqueueShifts(queue, m, rest);
    assert flushed + queue + Items([m] + rest) == flushed + (queue + Items([m] + rest));
  }

  lemma EnqueueShifts(queue: seq<Message>, m: Message, rest: seq<Message>)
    ensures queue + Items([m] + rest) == EnqueueOne(queue, m) + Items(rest)
  {
    assert [m][..0] == [];
    assert Items([m]) == Items([m][..0]) + if m.body.RelationInfo? then [] else [m];
    hide Items;
    ItemsAppend([m], rest);
  }

  // ---------- stamps ----------

  lemma {:induction false} DataStamps(t: Txn, inner: seq<Event>, x: Message)
    requires forall i :: 0 <= i < |inner| && inner[i].Data? ==> inner[i].lsn <= t.commitLSN
    requires x in DataOf(inner)
    ensures x.walStart <= t.commitLSN
  {
    var n := |inner| - 1;
    if x in DataOf(inner[..n]) {
      DataStamps(t, inner[..n], x);
    } else {
      assert inner[n].Data?;
    }
  }

  // Within one transaction only the last emitted message lies above its commit record.
  lemma EmittedStamps(t: Txn, k: nat)
    requires ValidTxn(t) && k < |Emitted(t)|
    ensures Emitted(t)[k].walStart <= if k == |Emitted(t)| - 1 then t.endLSN else t.commitLSN
  {
    var ms := DataOf(t.inner);
    if k < |ms| - 1 {
      assert ms[k] in ms;
      DataStamps(t, t.inner, ms[k]);
    }
  }

  // Dropping the relation messages cannot move the last message to an earlier place.
  lemma {:induction false} ItemStamps(lo: nat, hi: nat, ms: seq<Message>, k: nat)
    requires k < |Items(ms)| && lo <= hi
    requires forall j :: 0 <= j < |ms| ==> ms[j].walStart <= if j == |ms| - 1 then hi else lo
    ensures Items(ms)[k].walStart <= if k == |Items(ms)| - 1 then hi else lo
  {
    var n := |ms| - 1;
    if k < |Items(ms[..n])| {
      ItemStamps(lo, lo, ms[..n], k);
    }
  }

  // All but the last stamp of a batch stay below the commit, and the last below the end.
  ghost predicate Stamped(log: seq<Txn>, bs: seq<seq<Message>>) {
    && |bs| == |log|
    && (forall i, k :: 0 <= i < |bs| && 0 <= k < |bs[i]| ==>
          bs[i][k].walStart <= if k == |bs[i]| - 1 then log[i].endLSN else log[i].commitLSN)
  }

  lemma BatchesStamped(log: seq<Txn>)
    requires ValidLog(log)
    ensures Stamped(log, Batches(log))
  {
    var bs: seq<seq<Message>> := Batches(log);
    forall i, k | 0 <= i < |bs| && 0 <= k < |bs[i]|
      ensures bs[i][k].walStart <= if k == |bs[i]| - 1 then log[i].endLSN else log[i].commitLSN
    {
      assert ValidTxn(log[i]);
      forall j | 0 <= j < |Emitted(log[i])|
        ensures Emitted(log[i])[j].walStart
             <= if j == |Emitted(log[i])| - 1 then log[i].endLSN else log[i].commitLSN
      {
        EmittedStamps(log[i], j);
      }
      ItemStamps(log[i].commitLSN, log[i].endLSN, Emitted(log[i]), k);
    }
  }

  // No stamp lies above the end of the last transaction.
  lemma {:induction false} StampsBelowEnd(log: seq<Txn>, bs: seq<seq<Message>>, n: nat)
    requires ValidLog(log) && Stamped(log, bs) && n < |Flatten(bs)|
    ensures log != [] && Flatten(bs)[n].walStart <= log[|log| - 1].endLSN
  {
    var k := |log| - 1;
    assert ValidTxn(log[k]);
    if n < |Flatten(bs[..k])| {
      SubLogValid(log, k);
      StampsBelowEnd(log[..k], bs[..k], n);
      EndsOrdered(log, k - 1, k);
    } else {
      assert Flatten(bs)[n] == bs[k][n - |Flatten(bs[..k])|];
    }
  }

  /** The ordering argument that makes an acknowledgement in the middle of a transaction safe: a
      transaction that commits below the stamp of the n-th item has all its items among the
      first n, although the stamps themselves are not monotone. */
  lemma {:induction false} StampCovers(log: seq<Txn>, bs: seq<seq<Message>>, n: nat, i: nat)
    requires ValidLog(log) && Stamped(log, bs) && n < |Flatten(bs)| && i < |log|
    requires log[i].commitLSN < Flatten(bs)[n].walStart
    ensures |Flatten(bs[..i + 1])| <= n + 1
  {
    var k := |log| - 1;
    var before := Flatten(bs[..k]);
    SubLogValid(log, k);
    assert ValidTxn(log[k]);
    if n < |before| {
      if i < k {
        assert bs[..k][..i + 1] == bs[..i + 1];
        StampCovers(log[..k], bs[..k], n, i);
      } else {
        StampsBelowEnd(log[..k], bs[..k], n);
      }
    } else if i < k {
      FlattenSplit(bs[..k], i + 1);
      assert bs[..k][..i + 1] == bs[..i + 1];
    } else {
      assert bs[..k + 1] == bs;
      assert Flatten(bs)[n] == bs[k][n - |before|];
    }
  }

  lemma WrittenCovered(log: seq<Txn>, start: nat, n: nat)
    requires ValidLog(log) && start <= |log| && n < |AllItems(log[start..])|
    ensures Covered(log, start, n + 1, AllItems(log[start..])[n].walStart)
    ensures log != [] && AllItems(log[start..])[n].walStart <= log[|log| - 1].endLSN
  {
    hide Emitted, Items, Flatten, Batches;
    var tail := log[start..];
    SubLogValid(log, start);
    BatchesStamped(tail);
    StampsBelowEnd(tail, Batches(tail), n);
    forall i | start <= i < |log| && log[i].commitLSN < AllItems(tail)[n].walStart
      ensures |AllItems(log[start..i + 1])| <= n + 1
    {
      StampCovers(tail, Batches(tail), n, i - start);
      assert tail[..i - start + 1] == log[start..i + 1];
      assert Batches(tail)[..i - start + 1] == Batches(tail[..i - start + 1]);
    }
  }

  lemma WithinAt(history: seq<Message>, piece: seq<Message>, a: nat)
    requires OccursAt(history, piece, a)
    ensures Within(history, piece)
  {
  }

  lemma WithinMore(history: seq<Message>, piece: seq<Message>, more: seq<Message>)
    requires Within(history, piece)
    ensures Within(history + more, piece)
  {
    var a: nat :| OccursAt(history, piece, a);
    assert (history + more)[a..a + |piece|] == piece;
    assert OccursAt(history + more, piece, a);
  }

  lemma WithinEnd(history: seq<Message>, last: seq<Message>, piece: seq<Message>)
    requires EndsWith(history, last) && Within(last, piece)
    ensures Within(history, piece)
  {
    var a: nat :| OccursAt(last, piece, a);
    var b := |history| - |last| + a;
    assert history[|history| - |last|..][a..a + |piece|] == history[b..b + |piece|];
    assert OccursAt(history, piece, b);
  }

  // The items of a covered transaction of this session have been written.
  lemma CoveredIsFlushed(log: seq<Txn>, flushed: seq<Message>, k: nat)
    requires k < |log| && flushed <= AllItems(log) && |AllItems(log[..k + 1])| <= |flushed|
    ensures Within(flushed, Items(Emitted(log[k])))
  {
    hide Emitted, Items, AllItems, Within;
    var piece, before := Items(Emitted(log[k])), AllItems(log[..k]);
    AllItemsSplit(log, k + 1);
    AllItemsSnoc(log[..k], log[k]);
    assert log[..k] + [log[k]] == log[..k + 1];
    var a := |before|;
    assert flushed[a..a + |piece|] == AllItems(log)[a..a + |piece|] == (before + piece)[a..a + |piece|] == piece;
    WithinAt(flushed, piece, a);
  }

  // A transaction that is covered has all its items durable.
  lemma FlushedFirst(log: seq<Txn>, flushed: seq<Message>, queue: seq<Message>, rest: seq<Message>)
    requires flushed + queue + rest == AllItems(log)
    ensures flushed <= AllItems(log)
  {
    hide AllItems;
    assert flushed + (queue + rest) == AllItems(log);
  }

  lemma CoveredIsFinished(s: State, p: nat)
    requires Delivery(s) && Covered(s.log, s.start, |s.flushed|, p)
    ensures Finished(s.log, ResendIndex(s.log, p), s.handoff, s.durable)
  {
    hide Emitted, Items, AllItems, SinkRun, Pending, ResendIndex, Within, EndsWith;
    BelowResend(s.log, p);
    var tail := s.log[s.start..];
    FlushedFirst(tail, s.flushed, s.queue, Items(s.channel + Pending(s.prev, s.wire)));
    forall i | s.handoff <= i < ResendIndex(s.log, p) ensures Within(s.durable, Items(Emitted(s.log[i]))) {
      if i >= s.start {
        assert s.log[i].commitLSN < p;
        assert tail[..i - s.start + 1] == s.log[s.start..i + 1];
        CoveredIsFlushed(tail, s.flushed, i - s.start);
        WithinEnd(s.durable, s.flushed, Items(Emitted(s.log[i])));
      }
    }
  }

  // ---------- every step keeps the delivery invariant ----------

  lemma InitDelivery(s: State)
    requires Init(s)
    ensures Delivery(s)
  {
    hide Emitted, Items, AllItems, SinkRun, AllEvents;
    SubLogValid(s.log, s.start);
    StartConserves(s.log[s.start..]);
    BelowResend(s.log, s.confirmed);
  }

  lemma CommitKeeps(s: State, t: Txn)
    requires Delivery(s) && Enabled(s, ServerCommit(t))
    ensures Delivery(Do(s, ServerCommit(t)))
  {
    hide AllItems, EventsOf, Conserved, Finished, Covered, LogOk;
    CommitLogOk(s.log, s.walEnd, t);
    var s' := Do(s, ServerCommit(t));
    CommitConserves(s.log[s.start..], s.flushed, s.queue, s.channel, s.prev, s.wire, t);
    assert s'.log[s.start..] == s.log[s.start..] + [t];
    CommitFinished(s.log, t, s.start, s.handoff, s.durable);
    CommitCovered(s, t, s.confirmed);
    CommitCovered(s, t, s.pos);
    if s.written.Some? {
      CommitCovered(s, t, s.written.value);
    }
  }

  lemma CommitLogOk(log: seq<Txn>, walEnd: nat, t: Txn)
    requires LogOk(log, walEnd) && ValidTxn(t) && walEnd <= t.commitLSN
    ensures LogOk(log + [t], t.endLSN)
  {
    assert forall i :: 0 <= i < |log| ==> (log + [t])[i] == log[i];
  }

  lemma CommitFinished(log: seq<Txn>, t: Txn, upto: nat, from: nat, durable: seq<Message>)
    requires upto <= |log| && Finished(log, upto, from, durable)
    ensures Finished(log + [t], upto, from, durable)
  {
    hide Items, Emitted, Within;
    forall i | from <= i < upto ensures Within(durable, Items(Emitted((log + [t])[i]))) {
      assert (log + [t])[i] == log[i];
    }
  }

  lemma WriteFinished(log: seq<Txn>, upto: nat, from: nat, durable: seq<Message>, queue: seq<Message>)
    requires upto <= |log| && Finished(log, upto, from, durable)
    ensures Finished(log, upto, from, durable + queue)
  {
    hide Items, Emitted, Within;
    forall i | from <= i < upto ensures Within(durable + queue, Items(Emitted(log[i]))) {
      WithinMore(durable, Items(Emitted(log[i])), queue);
    }
  }

  lemma WriteEnds(durable: seq<Message>, flushed: seq<Message>, queue: seq<Message>)
    requires EndsWith(durable, flushed)
    ensures EndsWith(durable + queue, flushed + queue)
  {
    assert durable == durable[..|durable| - |flushed|] + flushed;
    assert durable + queue == durable[..|durable| - |flushed|] + (flushed + queue);
  }

  lemma CommitCovered(s: State, t: Txn, p: nat)
    requires s.start <= |s.log| && s.walEnd <= t.commitLSN && p <= s.walEnd
    requires Covered(s.log, s.start, |s.flushed|, p)
    ensures Covered(s.log + [t], s.start, |s.flushed|, p)
  {
    hide AllItems;
    var log' := s.log + [t];
    forall i | s.start <= i < |log'| && log'[i].commitLSN < p
      ensures |AllItems(log'[s.start..i + 1])| <= |s.flushed|
    {
      assert i < |s.log| && log'[s.start..i + 1] == s.log[s.start..i + 1];
    }
  }

  lemma WriteKeeps(s: State)
    requires Delivery(s) && Enabled(s, WriteBatch)
    ensures Delivery(Do(s, WriteBatch))
  {
    hide Emitted, Items, AllItems, SinkRun, Finished, EndsWith;
    WriteFinished(s.log, s.start, s.handoff, s.durable, s.queue);
    WriteEnds(s.durable, s.flushed, s.queue);
    var s' := Do(s, WriteBatch);
    var all := AllItems(s.log[s.start..]);
    assert s'.flushed + s'.queue == s.flushed + s.queue;
    var n := |s'.flushed| - 1;
    assert all[n] == s'.flushed[n] == s.queue[|s.queue| - 1];
    WrittenCovered(s.log, s.start, n);
  }

  // A new session starts behind everything that lies below its position.
  lemma NothingCovered(log: seq<Txn>, p: nat, q: nat)
    requires ValidLog(log) && q <= p
    ensures Covered(log, ResendIndex(log, p), 0, q)
  {
    hide AllItems;
    BelowResend(log, p);
  }

  lemma RestartKeeps(s: State)
    requires Delivery(s)
    ensures Delivery(Do(s, Restart))
  {
    hide AllItems, AllEvents, Conserved, Covered, Finished, ValidLog, ResendIndex;
    var i := ResendIndex(s.log, s.confirmed);
    SubLogValid(s.log, i);
    StartConserves(s.log[i..]);
    NothingCovered(s.log, s.confirmed, s.confirmed);
    NothingCovered(s.log, s.confirmed, 0);
    CoveredIsFinished(s, s.confirmed);
  }

  lemma StepKeepsDelivery(s: State, step: Step)
    requires Delivery(s) && Enabled(s, step)
    ensures Delivery(Do(s, step))
  {
    hide Emitted, Items, AllItems, SinkRun, SinkStep;
    match step
    case ServerCommit(t) => CommitKeeps(s, t);
    case Receive =>
      ReceiveConserves(s.log[s.start..], s.flushed, s.queue, s.channel, s.prev, s.wire);
    case Enqueue =>
      EnqueueConserves(s.log[s.start..], s.flushed, s.queue, s.channel, s.prev, s.wire);
    case WriteBatch => WriteKeeps(s);
    case Restart => RestartKeeps(s);
    case _ =>
  }

  lemma {:induction false} RunKeepsDelivery(s: State, steps: seq<Step>, s': State)
    requires Delivery(s) && Run(s, steps, s')
    ensures Delivery(s')
    decreases |steps|
  {
    if steps != [] {
      StepKeepsDelivery(s, steps[0]);
      RunKeepsDelivery(Do(s, steps[0]), steps[1..], s');
    }
  }

  lemma {:induction false} OpsAppend(a: seq<Message>, b: seq<Message>)
    ensures Ops(a + b) == Ops(a) + Ops(b)
    decreases |b|
  {
    if b == [] {
      assert a + b == a;
    } else {
      assert (a + b)[..|a + b| - 1] == a + b[..|b| - 1];
      OpsAppend(a, b[..|b| - 1]);
    }
  }

  lemma StepIsWritten(s: State, step: Step, t: Database)
    requires s.target == TargetRun(t, Ops(s.durable)) && Enabled(s, step)
    ensures Do(s, step).target == TargetRun(t, Ops(Do(s, step).durable))
  {
    hide Ops, TargetRun, SinkStep, AllEvents, EventsOf, EnqueueOne, ResendIndex, ValidTxn;
    if step.WriteBatch? {
      OpsAppend(s.durable, s.queue);
      TargetRunAppend(t, Ops(s.durable), Ops(s.queue));
    }
  }

  // The target is what the writes made of it, in the order of writing.
  lemma {:induction false} TargetIsWritten(s: State, steps: seq<Step>, s': State, t: Database)
    requires s.target == TargetRun(t, Ops(s.durable)) && Run(s, steps, s')
    ensures s'.target == TargetRun(t, Ops(s'.durable))
    decreases |steps|
  {
    hide Ops, Enabled, Do, TargetRun;
    if steps != [] {
      StepIsWritten(s, steps[0], t);
      TargetIsWritten(Do(s, steps[0]), steps[1..], s', t);
    }
  }

  /** No loss: after any run, with any number of crashes and resumes and any batching, every
      transaction the slot would skip on resume - in particular every transaction that ends at or
      below the confirmed position - has all its decoded messages among those written, each as often
      as it was decoded, in order and with nothing in between; and the target is what the
      written changes, applied in the order of writing, make of the initial one. */
  lemma ConfirmedIsDurable(s: State, steps: seq<Step>, s': State, i: nat)
    requires Init(s) && Run(s, steps, s')
    requires s'.handoff <= i < |s'.log|
    requires s'.log[i].commitLSN < s'.confirmed || s'.log[i].endLSN <= s'.confirmed
    ensures Within(s'.durable, Items(Emitted(s'.log[i])))
    ensures s'.target == TargetRun(s.target, Ops(s'.durable))
  {
    hide Emitted, Items, AllItems, SinkRun, Within;
    InitDelivery(s);
    assert Ops([]) == [];
    TargetIsWritten(s, steps, s', s.target);
    RunKeepsDelivery(s, steps, s');
    assert ValidTxn(s'.log[i]);
    BelowResend(s'.log, s'.confirmed);
    CoveredIsFinished(s', s'.confirmed);
  }

  // ---------- draining ----------

  predicate Drained(s: State) {
    s.wire == [] && s.prev == None && s.channel == [] && s.queue == []
  }

  function OnTheWay(s: State): nat {
    4 * |s.wire| + 3 * |s.channel| + (if s.queue != [] then 2 else 0) + (if s.written.Some? then 1 else 0)
  }

  predicate Moves(step: Step) {
    step.Receive? || step.Enqueue? || step.WriteBatch? || step.AckLast?
  }

  // The step that brings the oldest message one place further.
  lemma DrainStep(s: State) returns (step: Step)
    requires Delivery(s) && !(Drained(s) && s.written == None)
    ensures Enabled(s, step) && Moves(step) && OnTheWay(Do(s, step)) < OnTheWay(s)
  {
    hide AllItems, Items, Positions, LogOk, Finished;
    if s.wire != [] {
      step := Receive;
    } else if s.channel != [] {
      step := Enqueue;
    } else {
      NothingHeld(s);
      step := if s.written.Some? then AckLast else WriteBatch;
      assert s.written == None ==> s.queue != [];
    }
  }

  lemma NothingHeld(s: State)
    requires Delivery(s) && s.wire == []
    ensures s.prev == None
  {
    hide AllItems, Items, Positions, LogOk, Finished;
    assert SinkRun(Fresh(s.prev), s.wire).prev == s.prev;
  }

  /** Nothing is stuck: from every reachable state receiving, queueing, writing and acknowledging
      alone drain everything that is on the way, the last acknowledgement included. What this
      confirms is in Confirm. */
  lemma {:induction false} CanDrain(s: State) returns (steps: seq<Step>, s': State)
    requires Delivery(s)
    ensures Run(s, steps, s') && Drained(s') && s'.written == None
    ensures forall i :: 0 <= i < |steps| ==> Moves(steps[i])
    decreases OnTheWay(s)
  {
    hide Delivery, OnTheWay, Do, Enabled, Drained;
    if Drained(s) && s.written == None {
      return [], s;
    }
    var step := DrainStep(s);
    StepKeepsDelivery(s, step);
    var rest;
    rest, s' := CanDrain(Do(s, step));
    steps := [step] + rest;
    assert steps[1..] == rest;
  }

  // Once drained, everything from the hand-off on has been written.
  lemma DrainedDelivers(s: State)
    requires Delivery(s) && Drained(s)
    ensures forall i :: s.handoff <= i < |s.log| ==> Within(s.durable, Items(Emitted(s.log[i])))
  {
    hide Emitted, Items, AllItems, SinkRun, Within, EndsWith, Positions, LogOk;
    var tail := s.log[s.start..];
    DrainedFlushed(s);
    forall i | s.handoff <= i < |s.log| ensures Within(s.durable, Items(Emitted(s.log[i]))) {
      if i >= s.start {
        var k := i - s.start;
        AllItemsSplit(tail, k + 1);
        CoveredIsFlushed(tail, s.flushed, k);
        WithinEnd(s.durable, s.flushed, Items(Emitted(s.log[i])));
      }
    }
  }

  lemma DrainedFlushed(s: State)
    requires Delivery(s) && Drained(s)
    ensures s.flushed == AllItems(s.log[s.start..])
  {
    hide AllItems, Positions, LogOk, Finished, EndsWith;
    assert s.channel + Pending(s.prev, s.wire) == [];
    assert s.flushed + s.queue + Items([]) == s.flushed;
  }

  lemma {:induction false} NothingCommitted(s: State, steps: seq<Step>, s': State)
    requires Run(s, steps, s') && forall i :: 0 <= i < |steps| ==> Moves(steps[i])
    ensures s'.log == s.log && s'.origin == s.origin && s'.start == s.start
    decreases |steps|
  {
    hide Ops, SinkStep, AllEvents, EventsOf, EnqueueOne, ResendIndex, ValidTxn, TargetRun;
    if steps != [] {
      assert forall i :: 0 <= i < |steps[1..]| ==> steps[1..][i] == steps[i + 1];
      NothingCommitted(Do(s, steps[0]), steps[1..], s');
    }
  }
}
