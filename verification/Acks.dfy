/** Acknowledging only the last item of a batch, against acknowledging every item. */
module Acks {
  import opened Wrappers
  import opened Rows
  import opened Seqs
  import opened Sink
  import opened Pipeline

  // The position after acknowledging every message in order.
  function AckEach(pos: nat, ms: seq<Message>): nat {
    if ms == [] then pos else Max(AckEach(pos, ms[..|ms| - 1]), ms[|ms| - 1].walStart)
  }

  lemma {:induction false} AckEachIsMax(pos: nat, ms: seq<Message>)
    ensures pos <= AckEach(pos, ms)
    ensures forall i :: 0 <= i < |ms| ==> ms[i].walStart <= AckEach(pos, ms)
    ensures AckEach(pos, ms) == pos || exists i :: 0 <= i < |ms| && ms[i].walStart == AckEach(pos, ms)
  {
    if ms != [] {
      var n := |ms| - 1;
      AckEachIsMax(pos, ms[..n]);
      forall i | 0 <= i < |ms| ensures ms[i].walStart <= AckEach(pos, ms) {
        if i < n {
          assert ms[..n][i] == ms[i];
        }
      }
      var before := AckEach(pos, ms[..n]);
      if AckEach(pos, ms) == before && before != pos {
        var i :| 0 <= i < n && ms[..n][i].walStart == before;
        assert ms[i].walStart == before;
      }
    }
  }

  /** A fact about any stamps: acknowledging the last item never confirms more than acknowledging
      all of them, and exactly as much when no earlier stamp of the batch is above it. What the
      stream adds is AckLastAtTransactionEnd. */
  lemma AckLastNeverMore(pos: nat, ms: seq<Message>)
    requires ms != []
    ensures Max(pos, ms[|ms| - 1].walStart) <= AckEach(pos, ms)
    ensures Max(pos, ms[|ms| - 1].walStart) == AckEach(pos, ms) <==>
            forall i :: 0 <= i < |ms| ==> ms[i].walStart <= Max(pos, ms[|ms| - 1].walStart)
  {
    AckEachIsMax(pos, ms);
  }

  /** In the stream a batch that ends with the last message of a transaction confirms as much as its
      items one by one: the end position is above every stamp sent before it. */
  lemma AckLastAtTransactionEnd(log: seq<Txn>, j: nat, a: nat, b: nat, pos: nat)
    requires ValidLog(log) && j < |log| && a < b == |AllItems(log[..j + 1])|
    requires AllItems(log[..j + 1])[b - 1].walStart == log[j].endLSN
    ensures b <= |AllItems(log)|
    ensures Max(pos, AllItems(log)[b - 1].walStart) == AckEach(pos, AllItems(log)[a..b])
  {
    hide Emitted, Items, Flatten;
    var head := log[..j + 1];
    var all := AllItems(head);
    AllItemsSplit(log, j + 1);
    assert AllItems(log)[a..b] == all[a..b];
    SubLogValid(log, j + 1);
    BatchesStamped(head);
    forall i | 0 <= i < b - a ensures all[a..b][i].walStart <= log[j].endLSN {
      StampsBelowEnd(head, Batches(head), a + i);
    }
    AckLastNeverMore(pos, all[a..b]);
  }

  // The stamps of the stream are not monotone: B's first change was logged before A committed.
  lemma StampsNotMonotone(op: RowOp)
    ensures var c := Change(op);
            var a := Txn([Data(20, c)], 30, 40);
            var b := Txn([Data(10, c), Data(50, c)], 60, 70);
            && ValidLog([a, b])
            && Emitted(a) == [Message(40, c)] && Emitted(b) == [Message(10, c), Message(70, c)]
            && Max(0, 10) < AckEach(0, [Message(40, c), Message(10, c)])
  {
    var c := Change(op);
    var a, b := Txn([Data(20, c)], 30, 40), Txn([Data(10, c), Data(50, c)], 60, 70);
    assert a.inner[..0] == [] && b.inner[..1] == [Data(10, c)] && [Data(10, c)][..0] == [];
    assert DataOf(a.inner) == DataOf(a.inner[..0]) + [Message(20, c)];
    assert DataOf([Data(10, c)]) == DataOf([Data(10, c)][..0]) + [Message(10, c)];
    assert DataOf(b.inner) == DataOf(b.inner[..1]) + [Message(50, c)];
    AckEachIsMax(0, [Message(40, c), Message(10, c)]);
    assert [Message(40, c), Message(10, c)][0].walStart == 40;
  }
}
