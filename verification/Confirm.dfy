/** Progress of the slot: what acknowledging and reporting confirm once everything on the way was written. */
module Confirm {
  import opened Wrappers
  import opened Rows
  import opened Seqs
  import opened Sink
  import opened Pipeline

  // The stamp of the last item written is acknowledged or about to be, and nothing but stamps of
  // written items ever is.
  ghost predicate Noted(s: State) {
    && (s.pos == 0 || IsStamp(s.flushed, s.pos))
    && (s.flushed == [] ==> s.written == None)
    && (s.flushed != [] ==>
          match s.written
          case Some(p) => p == LastStamp(s.flushed)
          case None => LastStamp(s.flushed) <= s.pos)
  }

  ghost predicate IsStamp(ms: seq<Message>, p: nat) {
    exists i :: 0 <= i < |ms| && ms[i].walStart == p
  }

  function LastStamp(ms: seq<Message>): nat {
    if ms == [] then 0 else ms[|ms| - 1].walStart
  }

  lemma MoreStamps(a: seq<Message>, b: seq<Message>, p: nat)
    requires IsStamp(a, p)
    ensures IsStamp(a + b, p)
  {
    var i :| 0 <= i < |a| && a[i].walStart == p;
    assert (a + b)[i].walStart == p;
  }

  /** Every step keeps it: a batch is acknowledged with the stamp of its last item, before the next
      one is written. */
  lemma StepKeepsNoted(s: State, step: Step)
    requires Noted(s) && Enabled(s, step)
    ensures Noted(Do(s, step))
  {
    hide Ops, SinkStep, AllEvents, EventsOf, EnqueueOne, ResendIndex, ValidTxn, TargetRun, IsStamp;
    match step
    case WriteBatch =>
      assert LastStamp(s.flushed + s.queue) == LastStamp(s.queue);
      if s.pos != 0 {
        MoreStamps(s.flushed, s.queue, s.pos);
      }
    case AckLast => LastIsStamp(s.flushed);
    case _ =>
  }

  lemma LastIsStamp(ms: seq<Message>)
    requires ms != []
    ensures IsStamp(ms, LastStamp(ms))
  {
  }

  lemma {:induction false} RunKeepsNoted(s: State, steps: seq<Step>, s': State)
    requires Noted(s) && Run(s, steps, s')
    ensures Noted(s')
    decreases |steps|
  {
    hide Noted, Enabled, Do;
    if steps != [] {
      StepKeepsNoted(s, steps[0]);
      RunKeepsNoted(Do(s, steps[0]), steps[1..], s');
    }
  }

  lemma Reachable(s: State, steps: seq<Step>, s': State)
    requires Init(s) && Run(s, steps, s')
    ensures Delivery(s') && Noted(s')
  {
    hide Delivery, Run;
    InitDelivery(s);
    RunKeepsDelivery(s, steps, s');
    RunKeepsNoted(s, steps, s');
  }

  /** From every reachable state there is a way on which everything this session has to deliver is
      written and the stamp of its last item is acknowledged. */
  lemma CanAcknowledge(s: State) returns (steps: seq<Step>, s': State)
    requires Delivery(s) && Noted(s)
    ensures Run(s, steps, s') && forall i :: 0 <= i < |steps| ==> Moves(steps[i])
    ensures Delivery(s') && Noted(s') && Drained(s') && s'.written == None
    ensures s'.log == s.log && s'.start == s.start && s'.flushed == AllItems(s.log[s.start..])
    ensures s'.flushed != [] ==> LastStamp(s'.flushed) <= s'.pos
  {
    hide Delivery, Run, Moves, Drained, AllItems, IsStamp;
    steps, s' := CanDrain(s);
    RunKeepsDelivery(s, steps, s');
    RunKeepsNoted(s, steps, s');
    NothingCommitted(s, steps, s');
    DrainedFlushed(s');
  }

  // ---------- what that confirms ----------

  // The last message of the transaction is one that the consumer queues.
  predicate EndsQueued(t: Txn) {
    var ms := DataOf(t.inner);
    ms != [] && !ms[|ms| - 1].body.RelationInfo?
  }

  lemma {:induction false} ItemsFrom(ms: seq<Message>, x: Message)
    requires x in Items(ms)
    ensures x in ms
  {
    var n := |ms| - 1;
    if x in Items(ms[..n]) {
      ItemsFrom(ms[..n], x);
    }
  }

  // Only a queued last message carries the end of the transaction.
  lemma TransactionStamps(t: Txn)
    requires ValidTxn(t) && Items(Emitted(t)) != []
    ensures EndsQueued(t) ==> LastStamp(Items(Emitted(t))) == t.endLSN
    ensures !EndsQueued(t) ==> forall x :: x in Items(Emitted(t)) ==> x.walStart <= t.commitLSN
  {
    var ms, n := DataOf(t.inner), |DataOf(t.inner)| - 1;
    assert Emitted(t)[..n] == ms[..n] && Emitted(t)[n] == Message(t.endLSN, ms[n].body);
    forall x | x in Items(ms[..n]) ensures x.walStart <= t.commitLSN {
      ItemsFrom(ms[..n], x);
      DataStamps(t, t.inner, x);
    }
  }

  lemma {:induction false} NoItems(log: seq<Txn>)
    requires forall i :: 0 <= i < |log| ==> Items(Emitted(log[i])) == []
    ensures AllItems(log) == []
  {
    hide Items, Emitted;
    if log != [] {
      NoItems(log[..|log| - 1]);
      AllItemsSnoc(log[..|log| - 1], log[|log| - 1]);
      assert log[..|log| - 1] + [log[|log| - 1]] == log;
    }
  }

  // Transaction j is the last of the log that has something for the consumer.
  ghost predicate LastWithItems(log: seq<Txn>, j: nat) {
    j < |log| && Items(Emitted(log[j])) != [] && forall i :: j < i < |log| ==> Items(Emitted(log[i])) == []
  }

  lemma SessionEnds(log: seq<Txn>, j: nat)
    requires LastWithItems(log, j)
    ensures AllItems(log) == AllItems(log[..j]) + Items(Emitted(log[j]))
  {
    hide Items, Emitted, AllItems;
    AllItemsSplit(log, j + 1);
    NoItems(log[j + 1..]);
    assert log[..j] + [log[j]] == log[..j + 1];
    AllItemsSnoc(log[..j], log[j]);
    assert AllItems(log[..j + 1]) + [] == AllItems(log[..j + 1]);
  }

  lemma EarlierStamps(log: seq<Txn>, j: nat, n: nat)
    requires ValidLog(log) && j < |log| && n < |AllItems(log[..j])|
    ensures AllItems(log[..j])[n].walStart <= log[j].commitLSN
  {
    hide Items, Emitted, Flatten, Batches;
    SubLogValid(log, j);
    BatchesStamped(log[..j]);
    StampsBelowEnd(log[..j], Batches(log[..j]), n);
    EndsOrdered(log, j - 1, j);
  }

  // The last stamp is the end of t, or else no stamp lies above the commit of t.
  ghost predicate Ends(t: Txn, all: seq<Message>) {
    if EndsQueued(t) then LastStamp(all) == t.endLSN
    else forall p: nat :: IsStamp(all, p) ==> p <= t.commitLSN
  }

  lemma SessionStamps(log: seq<Txn>, j: nat, t: Txn, all: seq<Message>)
    requires j < |log| && t == log[j]
    requires ValidLog(log) && LastWithItems(log, j) && all == AllItems(log)
    ensures all != [] && Ends(t, all)
  {
    hide Items, Emitted, AllItems, EndsQueued;
    SessionEnds(log, j);
    assert ValidTxn(t);
    TransactionStamps(t);
    var before, own := AllItems(log[..j]), Items(Emitted(t));
    if !EndsQueued(t) {
      forall n | 0 <= n < |all| ensures all[n].walStart <= t.commitLSN {
        if n < |before| {
          EarlierStamps(log, j, n);
        } else {
          assert all[n] == own[n - |before|] && own[n - |before|] in own;
        }
      }
    }
  }

  /** When everything is written and acknowledged, the last transaction with anything for the consumer is
      confirmed by the next report, and skipped by the next session, if and only if its last message is
      one that the consumer queues. Otherwise the end of the transaction is lost with a relation
      message, and the transaction is delivered again after every restart. */
  lemma ConfirmedIff(s: State, j: nat, t: Txn, next: State)
    requires s.pos > 0 ==> next == Do(Do(s, Report(true)), Restart)
    requires s.start <= j < |s.log| && t == s.log[j]
    requires Delivery(s) && Noted(s) && Drained(s) && s.written == None
    requires LastWithItems(s.log, j)
    ensures t.endLSN <= s.pos <==> EndsQueued(t)
    ensures s.pos > 0 ==> (j < next.start <==> EndsQueued(t))
  {
    hide LastWithItems, AllItems, EndsQueued, Conserved, Positions, Finished, EndsWith, ResendIndex, AllEvents;
    LastOfTail(s.log, s.start, j);
    SubLogValid(s.log, s.start);
    assert ValidTxn(t);
    DrainedFlushed(s);
    SessionStamps(s.log[s.start..], j - s.start, t, s.flushed);
    BelowResend(s.log, s.pos);
  }

  lemma LastOfTail(log: seq<Txn>, start: nat, j: nat)
    requires start <= j < |log| && LastWithItems(log, j)
    ensures log[start..][j - start] == log[j] && LastWithItems(log[start..], j - start)
  {
    hide Items, Emitted;
  }

  /** And then everything is: no transaction with anything for the consumer is left unconfirmed, and a
      restart has nothing to deliver. */
  lemma EverythingConfirmed(s: State, j: nat, reported: State, next: State)
    requires s.pos > 0 ==> reported == Do(s, Report(true)) && next == Do(reported, Restart)
    requires s.start <= j < |s.log| && EndsQueued(s.log[j])
    requires Delivery(s) && Noted(s) && Drained(s) && s.written == None
    requires LastWithItems(s.log, j)
    ensures Enabled(s, Report(true))
    ensures forall i :: 0 <= i <= j ==> s.log[i].endLSN <= reported.confirmed
    ensures next.start <= |s.log| && AllItems(s.log[next.start..]) == []
  {
    hide AllItems, EndsQueued, Conserved, Positions, Finished, EndsWith, Noted, Items, Emitted, ResendIndex, AllEvents;
    ConfirmedIff(s, j, s.log[j], next);
    assert ValidTxn(s.log[j]);
    forall i | 0 <= i <= j ensures s.log[i].endLSN <= s.log[j].endLSN {
      if i < j {
        EndsOrdered(s.log, i, j);
      }
    }
    NoItems(s.log[next.start..]);
  }

  // A row change followed by a relation message whose own change is skipped: the consumer has nothing
  // with the end of the transaction.
  lemma RelationLast(op: RowOp)
    ensures var t := Txn([Data(10, Change(op)), Data(20, RelationInfo), Undecodable(op)], 30, 40);
            && ValidTxn(t) && !EndsQueued(t) && Items(Emitted(t)) == [Message(10, Change(op))]
  {
    var t := Txn([Data(10, Change(op)), Data(20, RelationInfo), Undecodable(op)], 30, 40);
    var m := Message(10, Change(op));
    assert t.inner[..2] == [Data(10, Change(op)), Data(20, RelationInfo)];
    assert t.inner[..2][..1] == [Data(10, Change(op))] && t.inner[..2][..1][..0] == [];
    assert DataOf(t.inner[..2][..1]) == DataOf(t.inner[..2][..1][..0]) + [m];
    assert DataOf(t.inner[..2]) == [m] + [Message(20, RelationInfo)];
    assert DataOf(t.inner) == DataOf(t.inner[..2]) + [];
    assert Emitted(t) == [m, Message(40, RelationInfo)];
    assert Emitted(t)[..1] == [m] && [m][..0] == [];
    assert Items([m]) == Items([m][..0]) + [m];
    assert Items(Emitted(t)) == Items([m]) + [];
  }
}
