/** The batching loop between the listener and the target database. */
module Producer {
  import opened Wrappers
  import opened Rows
  import opened Seqs
  import opened Flush

  // A message of the listener: a placeholder, a change with its statement, or a change whose
  // statement cannot be built.
  datatype Action = Skip | Write(op: RowOp) | Unbuildable

  datatype Incoming = Incoming(source: Source, action: Action, stamp: nat)

  // What the select of the loop wakes up with. The change timer can only fire while armed.
  datatype Wakeup = Arrived(msg: Incoming, at: nat) | CdcTimerFired | Ticked(at: nat)

  const IDLE_FLUSH_MS := 1000

  predicate CannotBuild(w: Wakeup) {
    w.Arrived? && w.msg.action.Unbuildable?
  }

  // The queued item of a message: its statement if it has one, and what acknowledges it.
  predicate Carries(item: Item, m: Incoming) {
    && item.source == m.source && item.stamp == m.stamp
    && match m.action
       case Write(op) => item.op == Some(op)
       case Skip => item.op == None
       case Unbuildable => item.op == None  // it is never queued
  }

  function ItemOf(m: Incoming): (item: Item)
    ensures Carries(item, m)
  {
    Item(m.source, if m.action.Write? then Some(m.action.op) else None, m.stamp)
  }

  predicate HoldsCdc(items: seq<Item>) {
    exists i :: 0 <= i < |items| && items[i].source.Cdc?
  }

  lemma HoldsOneMore(items: seq<Item>, item: Item)
    ensures HoldsCdc(items + [item]) <==> HoldsCdc(items) || item.source.Cdc?
  {
    if HoldsCdc(items) {
      var i :| 0 <= i < |items| && items[i].source.Cdc?;
      assert (items + [item])[i].source.Cdc?;
    }
    assert (items + [item])[|items|] == item;
  }

  // Every acknowledged position is that of a written change item.
  ghost predicate AcksWritten(acks: seq<nat>, written: seq<Item>) {
    forall i :: 0 <= i < |acks| ==> AckWritten(acks[i], written)
  }

  ghost predicate AckWritten(ack: nat, written: seq<Item>) {
    exists j :: 0 <= j < |written| && written[j].source.Cdc? && written[j].stamp == ack
  }

  lemma WriteMore(acks: seq<nat>, written: seq<Item>, batch: seq<Item>, acked: Option<nat>)
    requires AcksWritten(acks, written) && Acknowledges(batch, acked)
    ensures AcksWritten(acks, written + batch)
    ensures acked.Some? ==> AcksWritten(acks + [acked.value], written + batch)
  {
    var all := written + batch;
    forall i | 0 <= i < |acks| ensures AckWritten(acks[i], all) {
      assert AckWritten(acks[i], written);
      var j :| 0 <= j < |written| && written[j].source.Cdc? && written[j].stamp == acks[i];
      assert all[j] == written[j];
    }
    if acked.Some? {
      var j: nat :| IsLastCdc(batch, j) && batch[j].stamp == acked.value;
      assert all[|written| + j] == batch[j];
    }
  }

  // Writing items: done and acknowledged with the last change item, or the process ends, with nothing
  // written or, if it was the report that failed, with everything written.
  ghost predicate WritesOut(items: seq<Item>, env: Environment, t: Database, t': Database,
                            acks: seq<nat>, acks': seq<nat>, exited: bool)
  {
    if exited then
      !env.Healthy? && acks' == acks && t' == if env.AckFails? then BatchMeaning(t, items) else t
    else
      t' == BatchMeaning(t, items) && Acked(acks, acks', items)
  }

  ghost predicate Acked(acks: seq<nat>, acks': seq<nat>, items: seq<Item>) {
    exists acked: Option<nat> ::
      Acknowledges(items, acked) && acks' == acks + (match acked case Some(p) => [p] case None => [])
  }

  ghost predicate MessageOk(schema: Schema, m: Incoming) {
    m.action.Unbuildable? || ItemOk(schema, ItemOf(m))
  }

  class Producer {
    const bulkSize: nat
    ghost const schema: Schema
    var queue: seq<Item>
    var cdcTimer: bool
    var lastRecv: nat
    var target: Database
    var acks: seq<nat>
    var exited: bool
    // what was taken from the channel, and the batches written to the initial target, oldest first
    ghost var received: seq<Item>
    ghost var written: seq<Item>
    ghost const initial: Database
    ghost var batches: seq<seq<Item>>

    // Holds even after the process gave up.
    ghost predicate Conserved()
      reads this
    {
      && written + queue == received && AcksWritten(acks, written)
      && written == Flatten(batches) && target == RunBatches(initial, batches)
    }

    ghost predicate Valid()
      reads this
    {
      && Conserved() && ItemsOk(schema, queue)
      && (cdcTimer <==> HoldsCdc(queue))
      && (|queue| < bulkSize || queue == [])
    }

    constructor (bulkSize: nat, ghost schema: Schema, target: Database)
      ensures Valid() && !exited && queue == [] && received == [] && acks == []
      ensures this.bulkSize == bulkSize && this.schema == schema && this.target == target == initial
    {
      this.bulkSize, this.schema, this.target, this.initial := bulkSize, schema, target, target;
      queue, cdcTimer, lastRecv, acks, exited := [], false, 0, [], false;
      received, written, batches := [], [], [];
    }

    // Write the whole queue, disarm the timer, acknowledge; a failed write ends the process, and so
    // does a failed report of the position, after the write.
    method Flush(env: Environment)
      requires !exited && queue != []
      requires Conserved() && ItemsOk(schema, queue)
      modifies this`queue, this`cdcTimer, this`target, this`acks, this`exited, this`written, this`batches
      ensures WritesOut(old(queue), env, old(target), target, old(acks), acks, exited)
      ensures !exited ==> Valid() && queue == [] && written == received
      ensures exited ==> Conserved() && written == if env.AckFails? then received else old(written)
      ensures old(batches) <= batches
    {
      hide BatchMeaning, RunBatches, Flatten, LastCdc, Acknowledges, AcksWritten, ItemOk;
      cdcTimer := false;
      BatchMore(initial, batches, queue);
      var acked, r;
      target, acked, r := FlushBatch(schema, target, queue, env);
      assert r.Err? ==> r == Err(r.error);
      if r.Err? && r.error == WriteFailed {
        exited := true;
        return;
      }
      WriteMore(acks, written, queue, if r.Ok? then acked else LastCdc(queue));
      written := written + queue;
      batches := batches + [queue];
      if r.Err? {
        exited := true;
      }
      if acked.Some? {
        acks := acks + [acked.value];
      }
      assert r.Ok? ==> Acked(old(acks), acks, queue);
      queue := [];
    }

    // One message from the channel.
    method Receive(m: Incoming, at: nat, env: Environment) returns (ghost item: Item)
      requires Valid() && !exited && MessageOk(schema, m)
      modifies this
      ensures lastRecv == at && old(batches) <= batches
      ensures !exited ==> Valid()
      ensures exited ==> Conserved() && (m.action.Unbuildable? || !env.Healthy?)
      ensures m.action.Unbuildable? ==>
                exited && received == old(received) && written == old(written) && target == old(target)
                && acks == old(acks)
      ensures Carries(item, m) && item == ItemOf(m)
      ensures !m.action.Unbuildable? ==> received == old(received) + [item]
      ensures !m.action.Unbuildable? && |old(queue)| + 1 < bulkSize ==>
                !exited && queue == old(queue) + [item] && written == old(written)
                && target == old(target) && acks == old(acks)
      ensures !m.action.Unbuildable? && |old(queue)| + 1 >= bulkSize ==>
                (!exited ==> queue == [])
                && WritesOut(old(queue) + [item], env, old(target), target, old(acks), acks, exited)
    {
      hide BatchMeaning, RunBatches, Flatten, LastCdc, HoldsCdc, AcksWritten, ItemOk, WritesOut;
      lastRecv := at;
      item := ItemOf(m);
      if m.action.Unbuildable? {
        exited := true;
        return;
      }
      ghost var before := queue;
      queue := queue + [ItemOf(m)];
      received := received + [ItemOf(m)];
      if m.source.Cdc? && !cdcTimer {
        cdcTimer := true;
      }
      HoldsOneMore(before, ItemOf(m));
      if |queue| >= bulkSize {
        Flush(env);
        WroteBadly(before + [ItemOf(m)], env, old(target), target, old(acks), acks, exited);
      }
    }

    // The change timer: there is always something to write when it fires.
    method OnCdcTimer(env: Environment)
      requires Valid() && !exited && cdcTimer
      modifies this
      ensures old(queue) != [] && received == old(received) && lastRecv == old(lastRecv) && old(batches) <= batches
      ensures WritesOut(old(queue), env, old(target), target, old(acks), acks, exited)
      ensures !exited ==> Valid() && queue == []
      ensures exited ==> Conserved() && !env.Healthy?
    {
      Flush(env);
    }

    // The ticker: an incomplete batch is written after one second without messages.
    method OnTick(at: nat, env: Environment)
      requires Valid() && !exited
      modifies this
      ensures received == old(received) && lastRecv == old(lastRecv) && old(batches) <= batches
      ensures !exited ==> Valid()
      ensures exited ==> Conserved() && !env.Healthy?
      ensures if old(queue) != [] && at >= old(lastRecv) + IDLE_FLUSH_MS
              then WritesOut(old(queue), env, old(target), target, old(acks), acks, exited) && (!exited ==> queue == [])
              else !exited && queue == old(queue) && target == old(target) && acks == old(acks)
                   && cdcTimer == old(cdcTimer)
    {
      if |queue| > 0 && at >= lastRecv + IDLE_FLUSH_MS {
        Flush(env);
      }
    }

    // The channel is closed and empty: write what is left.
    method OnClose(env: Environment)
      requires Valid() && !exited
      modifies this
      ensures received == old(received) && old(batches) <= batches
      ensures !exited ==> Valid() && queue == [] && written == received
      ensures exited ==> Conserved() && !env.Healthy?
      ensures if old(queue) != []
              then WritesOut(old(queue), env, old(target), target, old(acks), acks, exited)
              else !exited && target == old(target) && acks == old(acks)
    {
      if |queue| > 0 {
        Flush(env);
      }
    }

    // One turn of the select: a message, the change timer if it is armed, or the ticker.
    method Wake(w: Wakeup, env: Environment)
      requires Valid() && !exited && (w.Arrived? ==> MessageOk(schema, w.msg))
      modifies this
      ensures old(batches) <= batches && lastRecv == if w.Arrived? then w.at else old(lastRecv)
      ensures received == if w.Arrived? && !CannotBuild(w) then old(received) + [ItemOf(w.msg)] else old(received)
      ensures CannotBuild(w) ==> exited
      ensures exited ==> Conserved() && (!env.Healthy? || CannotBuild(w))
      ensures !exited ==> Valid() && |old(written)| <= |received|
      ensures !exited ==>
                |written| == if Due(w, received[|old(written)|..], lastRecv, bulkSize) then |received| else |old(written)|
    {
      hide BatchMeaning, RunBatches, Flatten, LastCdc, HoldsCdc, AcksWritten, ItemsOk, WritesOut, MessageOk;
      ghost var waiting := queue;
      match w {
        case Arrived(msg, at) =>
          ghost var item := Receive(msg, at, env);
          waiting := waiting + [item];
        case CdcTimerFired =>
          if cdcTimer {
            OnCdcTimer(env);
          }
        case Ticked(at) => OnTick(at, env);
      }
      if !exited {
        assert old(written) + waiting == received;
        assert received[|old(written)|..] == waiting;
      }
    }

    // The loop until the channel is closed.
    method Serve(wakeups: seq<Wakeup>, env: nat -> Environment) returns (ghost progress: seq<nat>)
      requires Valid() && !exited
      requires forall i :: 0 <= i < |wakeups| && wakeups[i].Arrived? ==> MessageOk(schema, wakeups[i].msg)
      modifies this
      ensures old(batches) <= batches && (exited ==> Conserved())
      ensures !exited ==> Valid() && received == old(received) + Arrivals(wakeups)
      ensures !exited ==> |progress| == |wakeups| && MessagesOk(schema, wakeups)
      ensures exited ==> received <= old(received) + Arrivals(wakeups) && Caused(wakeups, env, |wakeups|)
      ensures Paced(Start(old(received), |old(written)|, old(lastRecv), bulkSize), wakeups, progress)
    {
      hide Valid, Conserved, Paced, MessagesOk, MessageOk, Due, ItemOf, Caused, CannotBuild, Going, Arrivals;
      ghost var start := Start(received, |written|, lastRecv, bulkSize);
      BeginServing(schema, start, wakeups);
      progress := [];
      var i := 0;
      while i < |wakeups| && !exited
        invariant 0 <= i <= |wakeups| && old(batches) <= batches && (exited ==> Conserved())
        invariant !exited ==> Valid() && Going(schema, start, wakeups, i, received, |written|, lastRecv, progress)
        invariant exited ==> received <= start.received + Arrivals(wakeups) && Caused(wakeups, env, i)
        invariant exited ==> Paced(start, wakeups, progress)
      {
        ghost var before, waited, seen := received, |written|, lastRecv;
        Wake(wakeups[i], env(i));
        GaveUp(schema, start, wakeups, i, before, waited, seen, progress, received);
        if exited {
          CausedBy(wakeups, env, i);
        } else {
          GoOn(schema, start, wakeups, i, before, waited, seen, progress, received, |written|, lastRecv);
          progress := progress + [|written|];
        }
        i := i + 1;
      }
      if exited {
        CausedEarlier(wakeups, env, i);
      } else {
        ServedAll(schema, start, wakeups, received, |written|, lastRecv, progress);
      }
    }

    /** The loop over any sequence of wake-ups, then the close of the channel. Nothing is lost,
        duplicated or reordered on the way to the target; if the process gives up, what it wrote is
        a prefix of what arrived, and a write or a report failed or a statement could not be built.
        Either way only written items are acknowledged. Batches are cut where they are due and
        nowhere else (progress: how much is written after each wake-up); how they are cut does not
        matter for a stream of changes or a stream of snapshot rows. */
    method Produce(wakeups: seq<Wakeup>, env: nat -> Environment) returns (ghost progress: seq<nat>)
      requires Valid() && !exited
      requires forall i :: 0 <= i < |wakeups| && wakeups[i].Arrived? ==> MessageOk(schema, wakeups[i].msg)
      modifies this
      ensures AcksWritten(acks, written) && target == RunBatches(initial, batches) && written == Flatten(batches)
      ensures !exited ==> Valid() && queue == [] && written == old(received) + Arrivals(wakeups)
      ensures exited ==> written <= old(received) + Arrivals(wakeups)
      ensures exited ==> (exists i :: 0 <= i <= |wakeups| && !env(i).Healthy?)
                         || (exists i :: 0 <= i < |wakeups| && CannotBuild(wakeups[i]))
      ensures Paced(Start(old(received), |old(written)|, old(lastRecv), bulkSize), wakeups, progress)
      ensures !exited ==> |progress| == |wakeups|
      ensures !exited && OnlyFrom(Cdc, old(queue), wakeups) ==>
                target == TargetRun(old(target), Statements(old(queue)) + WrittenOps(wakeups))
      ensures !exited && OnlyFrom(FromSnapshot, old(queue), wakeups) ==>
                target == InsertAllIfAbsent(old(target), InsertsOf(Statements(old(queue)) + WrittenOps(wakeups)))
    {
      hide BatchMeaning, RunBatches, Flatten, HoldsCdc, AcksWritten, ItemsOk, Arrivals, WritesOut, MessageOk;
      hide Paced, OnlyFrom, MessagesOk, Statements, WrittenOps, TargetRun, InsertAllIfAbsent, InsertsOf;
      progress := Serve(wakeups, env);
      if !exited {
        OnClose(env(|wakeups|));
        if !exited {
          SinceThen(old(batches), batches, initial, old(written), old(queue), written, Arrivals(wakeups));
          OfOneKind(schema, old(target), old(queue), wakeups, batches[|old(batches)|..]);
        }
      }
    }
  }

  lemma WroteBadly(items: seq<Item>, env: Environment, t: Database, t': Database, acks: seq<nat>, acks': seq<nat>,
                   exited: bool)
    requires WritesOut(items, env, t, t', acks, acks', exited)
    ensures exited ==> !env.Healthy?
  {
  }

  // One of the first n wake-ups had a failing write or report, or a statement that could not be built.
  ghost predicate Caused(wakeups: seq<Wakeup>, env: nat -> Environment, n: nat)
    requires n <= |wakeups|
  {
    (exists i :: 0 <= i < n && !env(i).Healthy?) || exists i :: 0 <= i < n && CannotBuild(wakeups[i])
  }

  lemma CausedBy(wakeups: seq<Wakeup>, env: nat -> Environment, i: nat)
    requires i < |wakeups| && (!env(i).Healthy? || CannotBuild(wakeups[i]))
    ensures Caused(wakeups, env, i + 1)
  {
  }

  lemma CausedEarlier(wakeups: seq<Wakeup>, env: nat -> Environment, i: nat)
    requires i <= |wakeups| && Caused(wakeups, env, i)
    ensures Caused(wakeups, env, |wakeups|)
  {
  }

  // ---------- when batches are cut ----------

  // When the last message arrived.
  function LastSeen(before: nat, wakeups: seq<Wakeup>): nat {
    if wakeups == [] then before
    else
      var n := |wakeups| - 1;
      if wakeups[n].Arrived? then wakeups[n].at else LastSeen(before, wakeups[..n])
  }

  lemma SeenOneMore(before: nat, wakeups: seq<Wakeup>, i: nat)
    requires i < |wakeups|
    ensures LastSeen(before, wakeups[..i + 1]) ==
            if wakeups[i].Arrived? then wakeups[i].at else LastSeen(before, wakeups[..i])
  {
    assert wakeups[..i + 1][..i] == wakeups[..i];
  }

  // What waits is written when it fills a batch, when the timer fires on a change among it, and when
  // nothing has arrived for a second.
  ghost predicate Due(w: Wakeup, waiting: seq<Item>, lastRecv: nat, bulkSize: nat) {
    match w
    case Arrived(_, _) => |waiting| >= bulkSize
    case CdcTimerFired => HoldsCdc(waiting)
    case Ticked(at) => waiting != [] && at >= lastRecv + IDLE_FLUSH_MS
  }

  // What had arrived and how much of it was written when the loop began.
  datatype Start = Start(received: seq<Item>, written: nat, lastRecv: nat, bulkSize: nat)

  // Wake-up i writes all that has arrived if it is due, and nothing otherwise.
  ghost predicate CutsWhenDue(start: Start, wakeups: seq<Wakeup>, progress: seq<nat>, i: nat)
    requires i < |progress| <= |wakeups|
  {
    var arrived := start.received + Arrivals(wakeups[..i + 1]);
    var before := if i == 0 then start.written else progress[i - 1];
    && before <= |arrived|
    && progress[i] == if Due(wakeups[i], arrived[before..], LastSeen(start.lastRecv, wakeups[..i + 1]), start.bulkSize)
                      then |arrived| else before
  }

  ghost predicate Paced(start: Start, wakeups: seq<Wakeup>, progress: seq<nat>) {
    |progress| <= |wakeups| && forall i :: 0 <= i < |progress| ==> CutsWhenDue(start, wakeups, progress, i)
  }

  // The loop after i wake-ups.
  ghost predicate Going(schema: Schema, start: Start, wakeups: seq<Wakeup>, i: nat,
                        received: seq<Item>, written: nat, lastRecv: nat, progress: seq<nat>)
  {
    && |progress| == i <= |wakeups| && received == start.received + Arrivals(wakeups[..i])
    && lastRecv == LastSeen(start.lastRecv, wakeups[..i])
    && written == (if i == 0 then start.written else progress[i - 1])
    && MessagesOk(schema, wakeups[..i]) && Paced(start, wakeups, progress)
  }

  lemma BeginServing(schema: Schema, start: Start, wakeups: seq<Wakeup>)
    ensures Going(schema, start, wakeups, 0, start.received, start.written, start.lastRecv, [])
  {
    assert wakeups[..0] == [] && start.received + [] == start.received;
  }

  lemma ServedAll(schema: Schema, start: Start, wakeups: seq<Wakeup>,
                  received: seq<Item>, written: nat, lastRecv: nat, progress: seq<nat>)
    requires Going(schema, start, wakeups, |wakeups|, received, written, lastRecv, progress)
    ensures received == start.received + Arrivals(wakeups) && |progress| == |wakeups|
    ensures MessagesOk(schema, wakeups) && Paced(start, wakeups, progress)
  {
    hide Paced, MessagesOk, Arrivals;
    assert wakeups[..|wakeups|] == wakeups;
  }

  // Whatever the wake-up did, what was received by then is a part of what arrives.
  lemma GaveUp(schema: Schema, start: Start, wakeups: seq<Wakeup>, i: nat, received: seq<Item>, written: nat,
               lastRecv: nat, progress: seq<nat>, received': seq<Item>)
    requires i < |wakeups| && Going(schema, start, wakeups, i, received, written, lastRecv, progress)
    requires received' == if wakeups[i].Arrived? && !CannotBuild(wakeups[i])
                          then received + [ItemOf(wakeups[i].msg)] else received
    ensures received' <= start.received + Arrivals(wakeups) && Paced(start, wakeups, progress)
  {
    hide Arrivals, ItemOf, Paced, MessagesOk, LastSeen;
    NextArrival(start.received, wakeups, i);
    ArrivalsSplit(start.received, wakeups, i);
    ArrivalsSplit(start.received, wakeups, i + 1);
  }

  lemma GoOn(schema: Schema, start: Start, wakeups: seq<Wakeup>, i: nat, received: seq<Item>, written: nat,
             lastRecv: nat, progress: seq<nat>, received': seq<Item>, written': nat, lastRecv': nat)
    requires i < |wakeups| && Going(schema, start, wakeups, i, received, written, lastRecv, progress)
    requires !CannotBuild(wakeups[i]) && (wakeups[i].Arrived? ==> MessageOk(schema, wakeups[i].msg))
    requires received' == if wakeups[i].Arrived? then received + [ItemOf(wakeups[i].msg)] else received
    requires lastRecv' == (if wakeups[i].Arrived? then wakeups[i].at else lastRecv) && written <= |received'|
    requires written' == if Due(wakeups[i], received'[written..], lastRecv', start.bulkSize) then |received'| else written
    ensures Going(schema, start, wakeups, i + 1, received', written', lastRecv', progress + [written'])
  {
    hide Arrivals, ItemOf, MessageOk, LastSeen, Due, MessagesOk, CutsWhenDue;
    NextArrival(start.received, wakeups, i);
    SeenOneMore(start.lastRecv, wakeups, i);
    OkOneMore(schema, wakeups, i);
    forall j | 0 <= j <= i ensures CutsWhenDue(start, wakeups, progress + [written'], j) {
      CutStays(start, wakeups, progress, j, received', written, written', lastRecv');
    }
  }

  lemma CutStays(start: Start, wakeups: seq<Wakeup>, progress: seq<nat>, j: nat,
                 arrived: seq<Item>, before: nat, now: nat, seen: nat)
    requires j <= |progress| < |wakeups|
    requires j < |progress| ==> CutsWhenDue(start, wakeups, progress, j)
    requires j == |progress| ==>
               && arrived == start.received + Arrivals(wakeups[..j + 1])
               && seen == LastSeen(start.lastRecv, wakeups[..j + 1])
               && before == (if j == 0 then start.written else progress[j - 1]) && before <= |arrived|
               && now == if Due(wakeups[j], arrived[before..], seen, start.bulkSize) then |arrived| else before
    ensures CutsWhenDue(start, wakeups, progress + [now], j)
  {
    hide Arrivals, LastSeen, Due;
    var more := progress + [now];
    assert j < |progress| ==> more[j] == progress[j];
    assert j > 0 ==> more[j - 1] == progress[j - 1];
  }

  // ---------- what a stream of one kind makes of the target ----------

  ghost predicate OnlyFrom(source: Source, queue: seq<Item>, wakeups: seq<Wakeup>) {
    && (forall i :: 0 <= i < |queue| ==> queue[i].source == source)
    && (forall i :: 0 <= i < |wakeups| && wakeups[i].Arrived? ==> wakeups[i].msg.source == source)
  }

  // The statements of the messages that arrived, in order.
  function WrittenOps(wakeups: seq<Wakeup>): seq<RowOp> {
    if wakeups == [] then []
    else
      var n := |wakeups| - 1;
      WrittenOps(wakeups[..n])
      + (match wakeups[n]
         case Arrived(Incoming(_, Write(op), _), _) => [op]
         case _ => [])
  }

  // The batches of this call hold what was queued before and what has arrived since.
  lemma SinceThen(before: seq<seq<Item>>, batches: seq<seq<Item>>, initial: Database, written: seq<Item>,
                  queue: seq<Item>, written': seq<Item>, arrived: seq<Item>)
    requires before <= batches && written == Flatten(before) && written' == Flatten(batches)
    requires written' == written + queue + arrived
    ensures Flatten(batches[|before|..]) == queue + arrived
    ensures RunBatches(initial, batches) == RunBatches(RunBatches(initial, before), batches[|before|..])
  {
    hide Flatten, RunBatches;
    var more := batches[|before|..];
    FlattenSplit(batches, |before|);
    assert batches[..|before|] == before && before + more == batches;
    assert (written + Flatten(more))[|written|..] == Flatten(more);
    assert (written + queue + arrived)[|written|..] == queue + arrived;
    RunBatchesAppend(initial, before, more);
  }

  lemma {:induction false} RunBatchesAppend(db: Database, a: seq<seq<Item>>, b: seq<seq<Item>>)
    ensures RunBatches(db, a + b) == RunBatches(RunBatches(db, a), b)
    decreases |b|
  {
    hide BatchMeaning;
    if b == [] {
      assert a + b == a;
    } else {
      var n := |b| - 1;
      assert (a + b)[..|a + b| - 1] == a + b[..n];
      RunBatchesAppend(db, a, b[..n]);
    }
  }

  lemma {:induction false} StatementsOfArrivals(wakeups: seq<Wakeup>)
    ensures Statements(Arrivals(wakeups)) == WrittenOps(wakeups)
  {
    hide Statements;
    if wakeups == [] {
      NoStatements();
    } else {
      var n := |wakeups| - 1;
      StatementsOfArrivals(wakeups[..n]);
      if wakeups[n].Arrived? {
        StatementsAppend(Arrivals(wakeups[..n]), [ItemOf(wakeups[n].msg)]);
        StatementsOne(ItemOf(wakeups[n].msg));
      } else {
        assert Arrivals(wakeups) == Arrivals(wakeups[..n]);
      }
    }
  }

  lemma NoStatements()
    ensures Statements([]) == []
  {
  }

  lemma {:induction false} ArrivalIs(wakeups: seq<Wakeup>, x: Item) returns (i: nat)
    requires x in Arrivals(wakeups)
    ensures i < |wakeups| && wakeups[i].Arrived? && Carries(x, wakeups[i].msg)
  {
    var n := |wakeups| - 1;
    if x in Arrivals(wakeups[..n]) {
      i := ArrivalIs(wakeups[..n], x);
    } else {
      i := n;
    }
  }

  // However the batches were cut, a stream of changes is applied statement by statement, and a stream of
  // snapshot rows row by row if absent.
  lemma OfOneKind(schema: Schema, db: Database, queue: seq<Item>, wakeups: seq<Wakeup>, batches: seq<seq<Item>>)
    requires Flatten(batches) == queue + Arrivals(wakeups) && ItemsOk(schema, queue)
    requires MessagesOk(schema, wakeups)
    ensures OnlyFrom(Cdc, queue, wakeups) ==>
              RunBatches(db, batches) == TargetRun(db, Statements(queue) + WrittenOps(wakeups))
    ensures OnlyFrom(FromSnapshot, queue, wakeups) ==>
              RunBatches(db, batches) == InsertAllIfAbsent(db, InsertsOf(Statements(queue) + WrittenOps(wakeups)))
  {
    hide Flatten, Statements, RunBatches, TargetRun, Arrivals, InsertAllIfAbsent, InsertsOf, AllInserts, RowsOf;
    hide ItemsOk, MessagesOk, OnlyFrom;
    StatementsAppend(queue, Arrivals(wakeups));
    StatementsOfArrivals(wakeups);
    if OnlyFrom(Cdc, queue, wakeups) {
      forall i, j | 0 <= i < |batches| && 0 <= j < |batches[i]| ensures batches[i][j].source.Cdc? {
        FlattenHas(batches, i, batches[i][j]);
        ItemIs(schema, Cdc, queue, wakeups, batches[i][j]);
      }
      ChangeBatchingIrrelevant(db, batches);
    }
    if OnlyFrom(FromSnapshot, queue, wakeups) {
      forall i | 0 <= i < |batches| ensures AllSnapshot(batches[i]) && AllInserts(batches[i]) {
        RowsOnly(schema, queue, wakeups, batches, i);
      }
      SnapshotBatchingIrrelevant(db, batches);
      InsertsAreRows(Flatten(batches));
    }
  }

  lemma OkOneMore(schema: Schema, wakeups: seq<Wakeup>, i: nat)
    requires i < |wakeups| && (wakeups[i].Arrived? ==> MessageOk(schema, wakeups[i].msg))
    ensures MessagesOk(schema, wakeups[..i]) && !CannotBuild(wakeups[i]) ==> MessagesOk(schema, wakeups[..i + 1])
  {
    assert forall j :: 0 <= j < i ==> wakeups[..i][j] == wakeups[..i + 1][j];
  }

  // Every message can be built, and what comes from the snapshot is an insert.
  ghost predicate MessagesOk(schema: Schema, wakeups: seq<Wakeup>) {
    forall i :: 0 <= i < |wakeups| && wakeups[i].Arrived? ==>
      MessageOk(schema, wakeups[i].msg) && !wakeups[i].msg.action.Unbuildable?
  }

  lemma RowsOnly(schema: Schema, queue: seq<Item>, wakeups: seq<Wakeup>, batches: seq<seq<Item>>, i: nat)
    requires i < |batches| && Flatten(batches) == queue + Arrivals(wakeups) && ItemsOk(schema, queue)
    requires MessagesOk(schema, wakeups) && OnlyFrom(FromSnapshot, queue, wakeups)
    ensures AllSnapshot(batches[i]) && AllInserts(batches[i])
  {
    hide Flatten, Arrivals, ItemsOk, MessagesOk, OnlyFrom;
    forall j | 0 <= j < |batches[i]|
      ensures batches[i][j].source.FromSnapshot? && batches[i][j].op.Some? && batches[i][j].op.value.Insert?
    {
      FlattenHas(batches, i, batches[i][j]);
      ItemIs(schema, FromSnapshot, queue, wakeups, batches[i][j]);
    }
  }

  lemma ItemIs(schema: Schema, source: Source, queue: seq<Item>, wakeups: seq<Wakeup>, x: Item)
    requires x in queue + Arrivals(wakeups) && ItemsOk(schema, queue)
    requires MessagesOk(schema, wakeups) && OnlyFrom(source, queue, wakeups)
    ensures x.source == source && (source.FromSnapshot? ==> x.op.Some? && x.op.value.Insert?)
  {
    hide Arrivals, FullImage;
    if x in queue {
      var q :| 0 <= q < |queue| && queue[q] == x;
      assert ItemOk(schema, queue[q]);
    } else {
      var i := ArrivalIs(wakeups, x);
      assert MessageOk(schema, wakeups[i].msg);
    }
  }

  lemma {:induction false} InsertsAreRows(items: seq<Item>)
    requires AllInserts(items)
    ensures InsertsOf(Statements(items)) == RowsOf(items)
  {
    if items != [] {
      var n := |items| - 1;
      InsertsAreRows(items[..n]);
      var before := Statements(items[..n]);
      assert (before + [items[n].op.value])[..|before|] == before;
      assert RowsOf(items) == RowsOf(items[..n]) + [Row(items[n].op.value.key, items[n].op.value.row)];
    }
  }

  lemma ArrivalsOneMore(wakeups: seq<Wakeup>, i: nat)
    requires i <= |wakeups|
    ensures Arrivals(wakeups[..i]) ==
            if i == 0 then []
            else Arrivals(wakeups[..i - 1])
                 + (if wakeups[i - 1].Arrived? then [ItemOf(wakeups[i - 1].msg)] else [])
  {
    if i > 0 {
      assert wakeups[..i][..i - 1] == wakeups[..i - 1];
    }
  }

  lemma NextArrival(before: seq<Item>, wakeups: seq<Wakeup>, i: nat)
    requires i < |wakeups|
    ensures before + Arrivals(wakeups[..i + 1]) ==
            if wakeups[i].Arrived? then (before + Arrivals(wakeups[..i])) + [ItemOf(wakeups[i].msg)]
            else before + Arrivals(wakeups[..i])
  {
    hide Arrivals, ItemOf;
    ArrivalsOneMore(wakeups, i + 1);
    assert Arrivals(wakeups[..i]) + [] == Arrivals(wakeups[..i]);
  }

  lemma {:induction false} ArrivalsSplit(before: seq<Item>, wakeups: seq<Wakeup>, i: nat)
    requires i <= |wakeups|
    ensures before + Arrivals(wakeups[..i]) <= before + Arrivals(wakeups)
    decreases |wakeups| - i
  {
    hide Arrivals;
    if i == |wakeups| {
      assert wakeups[..i] == wakeups;
    } else {
      ArrivalsOneMore(wakeups, i + 1);
      ArrivalsSplit(before, wakeups, i + 1);
    }
  }

  function Arrivals(wakeups: seq<Wakeup>): seq<Item> {
    if wakeups == [] then []
    else
      var n := |wakeups| - 1;
      Arrivals(wakeups[..n]) + (if wakeups[n].Arrived? then [ItemOf(wakeups[n].msg)] else [])
  }
}
