/** The batching worker of the Kafka consumer: placeholders keep their place in the order of
    acknowledgements, and the position moves only after the batch is written. */
module KafkaWorker {
  import opened Wrappers

  // A unit of the queue; msg is None for an event that is not written to Kafka.
  datatype Pending<M> = Pending(msg: Option<M>, stamp: nat)

  const FLUSH_BATCH_SIZE := 500
  const RETRY_COUNT := 5

  function Payloads<M>(ps: seq<Pending<M>>): seq<M> {
    if ps == [] then []
    else
      var n := |ps| - 1;
      Payloads(ps[..n]) + (if ps[n].msg.Some? then [ps[n].msg.value] else [])
  }

  lemma PayloadsSnoc<M>(ps: seq<Pending<M>>, p: Pending<M>)
    ensures Payloads(ps + [p]) == if p.msg.Some? then Payloads(ps) + [p.msg.value] else Payloads(ps)
  {
    assert (ps + [p])[..|ps|] == ps;
  }

  // The messages of a batch at some of its places, in order.
  function Picked<M>(batch: seq<M>, places: set<nat>): (r: seq<M>)
    ensures forall x :: x in r ==> x in batch
  {
    if batch == [] then []
    else
      var n := |batch| - 1;
      Picked(batch[..n], places) + (if n in places then [batch[n]] else [])
  }

  // a is b with some elements left out.
  ghost predicate Subsequence<M>(a: seq<M>, b: seq<M>)
    decreases |b|
  {
    if a == [] then true
    else
      b != [] && ((a[|a| - 1] == b[|b| - 1] && Subsequence(a[..|a| - 1], b[..|b| - 1]))
                  || Subsequence(a, b[..|b| - 1]))
  }

  lemma {:induction false} MoreAround<M>(a: seq<M>, b: seq<M>, c: seq<M>)
    requires Subsequence(a, b)
    ensures Subsequence(a, b + c)
    decreases |c|
  {
    if c == [] {
      assert b + c == b;
    } else {
      var n := |c| - 1;
      assert (b + c)[..|b + c| - 1] == b + c[..n];
      MoreAround(a, b, c[..n]);
    }
  }

  lemma {:induction false} BothAppend<M>(a: seq<M>, b: seq<M>, c: seq<M>)
    requires Subsequence(a, b)
    ensures Subsequence(a + c, b + c)
    decreases |c|
  {
    if c == [] {
      assert a + c == a && b + c == b;
    } else {
      var n := |c| - 1;
      assert (b + c)[..|b + c| - 1] == b + c[..n] && (a + c)[..|a + c| - 1] == a + c[..n];
      BothAppend(a, b, c[..n]);
    }
  }

  // A batch that is stored after parts of it were.
  lemma WrittenOnce<M>(confirmed: seq<M>, topic: seq<M>, repeated: seq<M>, batch: seq<M>)
    requires Subsequence(confirmed, topic)
    ensures Subsequence(confirmed + batch, topic + repeated + batch)
    ensures repeated == [] ==> topic + repeated + batch == topic + batch
  {
    hide Subsequence;
    MoreAround(confirmed, topic, repeated);
    BothAppend(confirmed, topic + repeated, batch);
  }

  // An attempt to write the batch succeeds, or fails after storing the messages at some places.
  datatype Attempt = Succeeds | Fails(stored: set<nat>)

  lemma BatchIsRest<M>(received: seq<Pending<M>>, covered: nat, batch: seq<M>)
    requires covered <= |received| && Payloads(received[..covered]) + batch == Payloads(received)
    ensures covered == |received| ==> batch == []
    ensures forall x :: x in batch ==> x in Payloads(received)
  {
    hide Payloads;
    var confirmed := Payloads(received[..covered]);
    if covered == |received| {
      assert received[..covered] == received;
      assert |confirmed + batch| == |confirmed| + |batch|;
    }
    forall x | x in batch ensures x in confirmed + batch {
    }
  }

  // What the first n attempts stored, if none of them succeeded.
  function Parts<M>(batch: seq<M>, attempt: nat -> Attempt, n: nat): seq<M> {
    if n == 0 then []
    else
      Parts(batch, attempt, n - 1) + (match attempt(n) case Succeeds => [] case Fails(stored) => Picked(batch, stored))
  }

  class FlushWorker<M> {
    var batch: seq<M>
    var lastAck: Option<nat>
    var topic: seq<M>   // what the brokers have stored, in order
    var acks: seq<nat>  // positions acknowledged to the source
    var exited: bool
    ghost var received: seq<Pending<M>>
    ghost var covered: nat    // how many received units the last acknowledgement covers
    ghost var retried: bool   // some attempt to write failed

    // The topic has every payload up to the last acknowledgement in order, possibly with repetitions of
    // batches that had to be written again; batch has the payloads after it.
    ghost predicate Valid()
      reads this
    {
      && covered <= |received| && Payloads(received[..covered]) + batch == Payloads(received)
      && Subsequence(Payloads(received[..covered]), topic)
      && (!retried ==> topic == Payloads(received[..covered]))
      && (forall x :: x in topic ==> x in Payloads(received))
      && (lastAck == None <==> covered == |received|)
      && (lastAck.Some? ==> lastAck.value == received[|received| - 1].stamp)
      && (acks == [] <==> covered == 0)
      && (acks != [] ==> acks[|acks| - 1] == received[covered - 1].stamp)
    }

    constructor ()
      ensures Valid() && !exited && !retried && received == [] && batch == [] && topic == [] && acks == []
    {
      batch, lastAck, topic, acks, exited := [], None, [], [], false;
      received, covered, retried := [], 0, false;
    }

    // Up to five attempts. A failed one may have stored part of the batch, which the next writes
    // again; after a success the whole batch is at the end of the topic.
    method WriteKafkaBatch(attempt: nat -> Attempt) returns (ok: bool, ghost repeated: seq<M>, ghost tries: nat)
      modifies this`topic, this`retried
      ensures ok <==> exists i :: 1 <= i <= RETRY_COUNT && attempt(i).Succeeds?
      ensures 1 <= tries <= RETRY_COUNT && forall i :: 1 <= i < tries ==> attempt(i).Fails?
      ensures if ok then attempt(tries).Succeeds? else tries == RETRY_COUNT && attempt(tries).Fails?
      ensures repeated == Parts(batch, attempt, if ok then tries - 1 else tries)
      ensures topic == old(topic) + repeated + (if ok then batch else [])
      ensures forall x :: x in repeated ==> x in batch
      ensures attempt(1).Succeeds? ==> repeated == [] && retried == old(retried)
      ensures repeated != [] ==> retried
      ensures old(retried) ==> retried
    {
      repeated := [];
      var i := 1;
      while i <= RETRY_COUNT
        invariant 1 <= i <= RETRY_COUNT + 1 && repeated == Parts(batch, attempt, i - 1)
        invariant forall j :: 1 <= j < i ==> attempt(j).Fails?
        invariant topic == old(topic) + repeated && (forall x :: x in repeated ==> x in batch)
        invariant i == 1 ==> repeated == [] && retried == old(retried)
        invariant i > 1 || old(retried) ==> retried
      {
        match attempt(i) {
          case Succeeds =>
            topic := topic + batch;
            return true, repeated, i;
          case Fails(stored) =>
            var part := Picked(batch, stored);
            assert topic + part == old(topic) + (repeated + part);
            topic := topic + part;
            repeated := repeated + part;
            retried := true;
        }
        i := i + 1;
      }
      assert topic == old(topic) + repeated + [];
      return false, repeated, RETRY_COUNT;
    }

    // The last position is acknowledged only when all payloads up to it are in the topic.
    method Flush(attempt: nat -> Attempt)
      requires Valid() && !exited
      modifies this`batch, this`lastAck, this`topic, this`acks, this`exited, this`covered, this`retried
      ensures !exited ==> Valid() && covered == |received| && batch == []
      ensures old(topic) <= topic && (forall x :: x in topic ==> x in Payloads(received))
      ensures !exited && old(lastAck).Some? ==> acks == old(acks) + [old(lastAck).value]
      ensures old(lastAck) == None ==> !exited && acks == old(acks) && topic == old(topic)
      ensures exited ==> acks == old(acks) && old(batch) != []
                         && forall i :: 1 <= i <= RETRY_COUNT ==> attempt(i).Fails?
      ensures !old(retried) && attempt(1).Succeeds? ==> !exited && !retried
    {
      hide Subsequence, Payloads, Picked, Parts;
      ghost var confirmed := Payloads(received[..covered]);
      BatchIsRest(received, covered, batch);
      if lastAck == None {
        return;
      }
      if |batch| > 0 {
        var ok, repeated, tries := WriteKafkaBatch(attempt);
        if !ok {
          exited := true;
          return;
        }
        WrittenOnce(confirmed, old(topic), repeated, batch);
      } else {
        assert confirmed + batch == confirmed;
      }
      acks := acks + [lastAck.value];
      batch, lastAck := [], None;
      covered := |received|;
      assert received[..covered] == received && Payloads(received) + [] == Payloads(received);
    }

    method OnPending(p: Pending<M>, attempt: nat -> Attempt)
      requires Valid() && !exited && |batch| < FLUSH_BATCH_SIZE
      modifies this
      ensures received == old(received) + [p]
      ensures if |old(batch)| + (if p.msg.Some? then 1 else 0) < FLUSH_BATCH_SIZE
              then !exited && topic == old(topic) && acks == old(acks) && lastAck == Some(p.stamp)
              else exited || (batch == [] && lastAck == None && acks == old(acks) + [p.stamp])
      ensures !exited ==> Valid() && |batch| < FLUSH_BATCH_SIZE
      ensures acks == old(acks) || (!exited && acks == old(acks) + [p.stamp] && Subsequence(Payloads(received), topic))
      ensures old(topic) <= topic && (forall x :: x in topic ==> x in Payloads(received))
      ensures exited ==> acks == old(acks) && forall i :: 1 <= i <= RETRY_COUNT ==> attempt(i).Fails?
      ensures !old(retried) && attempt(1).Succeeds? ==> !exited && !retried
    {
      hide Payloads, Subsequence;
      PayloadsSnoc(received, p);
      received := received + [p];
      assert received[..covered] == old(received)[..covered];
      if p.msg.Some? {
        assert Payloads(received[..covered]) + (batch + [p.msg.value]) == Payloads(old(received)) + [p.msg.value];
        batch := batch + [p.msg.value];
      }
      lastAck := Some(p.stamp);
      if |batch| >= FLUSH_BATCH_SIZE {
        Flush(attempt);
        assert !exited ==> received[..covered] == received;
      }
    }

    method OnTick(attempt: nat -> Attempt)
      requires Valid() && !exited && |batch| < FLUSH_BATCH_SIZE
      modifies this
      ensures received == old(received)
      ensures !exited ==> Valid() && batch == [] && Subsequence(Payloads(received), topic)
      ensures !exited && received != [] ==> acks != [] && acks[|acks| - 1] == received[|received| - 1].stamp
      ensures exited ==> acks == old(acks) && forall i :: 1 <= i <= RETRY_COUNT ==> attempt(i).Fails?
      ensures !old(retried) && attempt(1).Succeeds? ==> !exited && topic == Payloads(received)
    {
      hide Payloads, Subsequence;
      Flush(attempt);
      assert !exited ==> received[..covered] == received;
    }
  }
}
