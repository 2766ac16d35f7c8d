/** The Kafka consumer at the end of the pipeline: writing a batch is not atomic, so batches may be in the
    topic in parts and again, and still nothing below the confirmed position is missing. */
module KafkaDelivery {
  import opened Wrappers
  import opened Sink
  import opened Pipeline
  import opened KafkaWorker

  // The messages that are written. Heartbeat rows keep their place in the queue only, and so do relation
  // messages, which this consumer queues and acknowledges like any other placeholder.
  function Payload(ms: seq<Message>): seq<Message> {
    if ms == [] then []
    else
      var n := |ms| - 1;
      Payload(ms[..n]) + (if ms[n].body.Change? then [ms[n]] else [])
  }

  // A step of the pipeline, whose batch is then written completely, or a failed attempt to write the
  // batch, after which the topic has some of its messages.
  datatype Happening = Piped(step: Step) | FailedAttempt(stored: set<nat>)

  ghost predicate CanHappen(s: State, h: Happening) {
    match h
    case Piped(step) => Enabled(s, step)
    case FailedAttempt(_) => s.queue != [] && s.written == None
  }

  ghost function Happen(s: State, h: Happening): State
    requires CanHappen(s, h)
  {
    match h
    case Piped(step) => Do(s, step)
    case FailedAttempt(_) => s
  }

  function TopicAfter(s: State, topic: seq<Message>, h: Happening): seq<Message> {
    match h
    case Piped(step) => if step.WriteBatch? then topic + Payload(s.queue) else topic
    case FailedAttempt(stored) => topic + Picked(Payload(s.queue), stored)
  }

  ghost predicate Happens(s: State, topic: seq<Message>, hs: seq<Happening>, s': State, topic': seq<Message>)
    decreases |hs|
  {
    if hs == [] then s' == s && topic' == topic
    else CanHappen(s, hs[0]) && Happens(Happen(s, hs[0]), TopicAfter(s, topic, hs[0]), hs[1..], s', topic')
  }

  function PipedSteps(hs: seq<Happening>): seq<Step>
    decreases |hs|
  {
    if hs == [] then [] else (if hs[0].Piped? then [hs[0].step] else []) + PipedSteps(hs[1..])
  }

  lemma {:induction false} PayloadAppend(a: seq<Message>, b: seq<Message>)
    ensures Payload(a + b) == Payload(a) + Payload(b)
    decreases |b|
  {
    if b == [] {
      assert a + b == a;
    } else {
      assert (a + b)[..|a + b| - 1] == a + b[..|b| - 1];
      PayloadAppend(a, b[..|b| - 1]);
    }
  }

  lemma {:induction false} Itself<M>(a: seq<M>)
    ensures Subsequence(a, a)
  {
    if a != [] {
      Itself(a[..|a| - 1]);
    }
  }

  lemma {:induction false} OfSubsequence<M>(a: seq<M>, b: seq<M>, c: seq<M>)
    requires Subsequence(a, b) && Subsequence(b, c)
    ensures Subsequence(a, c)
    decreases |c|
  {
    if a != [] {
      var a', b', c' := a[..|a| - 1], b[..|b| - 1], c[..|c| - 1];
      if Subsequence(b, c') {
        OfSubsequence(a, b, c');
      } else if a[|a| - 1] == b[|b| - 1] && Subsequence(a', b') {
        OfSubsequence(a', b', c');
      } else {
        OfSubsequence(a, b', c');
      }
    }
  }

  lemma PartOf(history: seq<Message>, piece: seq<Message>)
    requires Within(history, piece)
    ensures Subsequence(Payload(piece), Payload(history))
  {
    hide Payload, Subsequence;
    var a: nat :| OccursAt(history, piece, a);
    var before, after := history[..a], history[a + |piece|..];
    assert history == before + (piece + after);
    PayloadAppend(piece, after);
    PayloadAppend(before, piece + after);
    var p := Payload(piece);
    EmptyPart(Payload(before));
    BothAppend([], Payload(before), p);
    assert [] + p == p;
    MoreAround(p, Payload(before) + p, Payload(after));
    assert Payload(before) + p + Payload(after) == Payload(before) + (p + Payload(after));
  }

  lemma EmptyPart<M>(b: seq<M>)
    ensures Subsequence([], b)
  {
  }

  // What was written as batches is in the topic in order, whatever else is.
  lemma {:induction false} TopicHasDurable(s: State, topic: seq<Message>, hs: seq<Happening>, s': State,
                                           topic': seq<Message>)
    requires Happens(s, topic, hs, s', topic') && Subsequence(Payload(s.durable), topic)
    ensures Subsequence(Payload(s'.durable), topic') && Run(s, PipedSteps(hs), s')
    decreases |hs|
  {
    hide Payload, Subsequence, Do, Enabled, Picked;
    if hs != [] {
      var h := hs[0];
      OneHappening(s, topic, h);
      TopicHasDurable(Happen(s, h), TopicAfter(s, topic, h), hs[1..], s', topic');
      if h.Piped? {
        assert PipedSteps(hs)[1..] == PipedSteps(hs[1..]);
      } else {
        assert PipedSteps(hs) == PipedSteps(hs[1..]);
      }
    }
  }

  lemma OneHappening(s: State, topic: seq<Message>, h: Happening)
    requires CanHappen(s, h) && Subsequence(Payload(s.durable), topic)
    ensures Subsequence(Payload(Happen(s, h).durable), TopicAfter(s, topic, h))
  {
    hide Payload, Subsequence, Picked, SinkStep, AllEvents, EventsOf, ResendIndex, ValidTxn;
    match h
    case Piped(step) =>
      if step.WriteBatch? {
        PayloadAppend(s.durable, s.queue);
        BothAppend(Payload(s.durable), topic, Payload(s.queue));
      }
    case FailedAttempt(stored) => MoreAround(Payload(s.durable), topic, Picked(Payload(s.queue), stored));
  }

  /** At least once, end to end: after any run with any number of crashes, failed attempts and partly
      written batches, every transaction that ends at or below the confirmed position has all its
      decodable row changes in the topic, in order. */
  lemma ConfirmedIsInTopic(s: State, hs: seq<Happening>, s': State, topic': seq<Message>, i: nat)
    requires Init(s) && Happens(s, [], hs, s', topic')
    requires s'.handoff <= i < |s'.log|
    requires s'.log[i].commitLSN < s'.confirmed || s'.log[i].endLSN <= s'.confirmed
    ensures Subsequence(Payload(Items(Emitted(s'.log[i]))), topic')
  {
    EmptyPart<Message>([]);
    assert Payload([]) == [];
    hide Payload, Subsequence, Happens, Run, Emitted, Items, AllEvents, Within, ResendIndex;
    TopicHasDurable(s, [], hs, s', topic');
    ConfirmedIsDurable(s, PipedSteps(hs), s', i);
    PartOf(s'.durable, Items(Emitted(s'.log[i])));
    OfSubsequence(Payload(Items(Emitted(s'.log[i]))), Payload(s'.durable), topic');
  }
}
