/** The receive loop of the replication stream: it holds one message back so that the last
    message of a transaction can carry the transaction's end position. */
module Sink {
  import opened Wrappers
  import opened Rows

  // What a decoded message says. Heartbeat rows keep their place in the queues but are not written.
  datatype Body = Change(op: RowOp) | RelationInfo | Heartbeat

  datatype Message = Message(walStart: nat, body: Body)

  // The later of two positions.
  function Max(a: nat, b: nat): nat {
    if a < b then b else a
  }

  // What one received WAL message is to the loop. Undecodable is a row change whose decoding
  // failed; Silent is everything else that is skipped: keepalives, stream start/stop/abort/commit,
  // unsupported message bytes.
  datatype Event =
    | Begin
    | Commit(commitLSN: nat, endLSN: nat)
    | Data(lsn: nat, body: Body)
    | Undecodable(op: RowOp)
    | Silent

  // The one message held back, and everything put on the channel so far.
  datatype SinkState = SinkState(prev: Option<Message>, sent: seq<Message>)

  function SinkStep(st: SinkState, ev: Event): SinkState {
    match ev
    case Begin => SinkState(None, st.sent)
    case Commit(_, endLSN) =>
      (match st.prev
       case Some(m) => SinkState(None, st.sent + [Message(endLSN, m.body)])
       case None => SinkState(None, st.sent))
    case Data(lsn, body) =>
      (match st.prev
       case Some(m) => SinkState(Some(Message(lsn, body)), st.sent + [m])
       case None => SinkState(Some(Message(lsn, body)), st.sent))
    case Undecodable(_) => st
    case Silent => st
  }

  function SinkRun(st: SinkState, events: seq<Event>): SinkState
    decreases |events|
  {
    if events == [] then st else SinkRun(SinkStep(st, events[0]), events[1..])
  }

  function Fresh(prev: Option<Message>): SinkState {
    SinkState(prev, [])
  }

  lemma {:induction false} SinkRunSent(st: SinkState, events: seq<Event>)
    ensures SinkRun(st, events).prev == SinkRun(Fresh(st.prev), events).prev
    ensures SinkRun(st, events).sent == st.sent + SinkRun(Fresh(st.prev), events).sent
    decreases |events|
  {
    if events != [] {
      var next := SinkStep(st, events[0]);
      var empty := SinkStep(Fresh(st.prev), events[0]);
      SinkRunSent(next, events[1..]);
      SinkRunSent(empty, events[1..]);
      assert next.prev == empty.prev && next.sent == st.sent + empty.sent;
    }
  }

  lemma {:induction false} SinkRunAppend(st: SinkState, a: seq<Event>, b: seq<Event>)
    ensures SinkRun(st, a + b) == SinkRun(SinkRun(st, a), b)
    decreases |a|
  {
    if a == [] {
      assert a + b == b;
    } else {
      assert (a + b)[1..] == a[1..] + b;
      SinkRunAppend(SinkStep(st, a[0]), a[1..], b);
    }
  }

  lemma SinkRunSnoc(st: SinkState, events: seq<Event>, ev: Event)
    ensures SinkRun(st, events + [ev]) == SinkStep(SinkRun(st, events), ev)
  {
    SinkRunAppend(st, events, [ev]);
    assert [ev][1..] == [];
  }

  // ---------- what happens to each message, for any event sequence ----------

  predicate Relevant(ev: Event) {
    ev.Begin? || ev.Commit? || ev.Data?
  }

  // The first event that can resolve a held message.
  function NextRelevant(events: seq<Event>): (r: Option<Event>)
    ensures r.Some? ==> Relevant(r.value)
  {
    if events == [] then None
    else if Relevant(events[0]) then Some(events[0])
    else NextRelevant(events[1..])
  }

  // The fate of a message by the event that resolves it: a commit restamps it, the next
  // message lets it pass unchanged, a new transaction drops it, and until then it is held.
  function Fate(m: Message, next: Option<Event>): seq<Message> {
    match next
    case Some(Commit(_, endLSN)) => [Message(endLSN, m.body)]
    case Some(Data(_, _)) => [m]
    case _ => []
  }

  function FateOfPrev(prev: Option<Message>, events: seq<Event>): seq<Message> {
    match prev
    case None => []
    case Some(m) => Fate(m, NextRelevant(events))
  }

  // The fate of a message that is the head of the sequence.
  function FateOfHead(events: seq<Event>): seq<Message>
    requires events != []
  {
    match events[0]
    case Data(lsn, body) => Fate(Message(lsn, body), NextRelevant(events[1..]))
    case _ => []
  }

  // The messages an event sequence puts on the channel, each decided on its own.
  function Emission(events: seq<Event>): seq<Message> {
    if events == [] then [] else FateOfHead(events) + Emission(events[1..])
  }

  // The message still held at the end: the last one, if nothing relevant followed it.
  function HeldAfter(events: seq<Event>): Option<Message> {
    if events == [] then None
    else
      match HeldAfter(events[1..])
      case Some(m) => Some(m)
      case None =>
        if events[0].Data? && NextRelevant(events[1..]) == None
        then Some(Message(events[0].lsn, events[0].body)) else None
  }

  lemma {:induction false} HeldIfIrrelevant(events: seq<Event>)
    ensures NextRelevant(events) == None ==> HeldAfter(events) == None && Emission(events) == []
  {
    if events != [] {
      HeldIfIrrelevant(events[1..]);
    }
  }

  // One step resolves the held message, or leaves it to the rest, and may hold the next one.
  lemma StepFate(prev: Option<Message>, events: seq<Event>)
    requires events != []
    ensures var st := SinkStep(Fresh(prev), events[0]);
            st.sent + FateOfPrev(st.prev, events[1..]) == FateOfPrev(prev, events) + FateOfHead(events)
  {
  }

  lemma {:induction false} SinkRunSends(prev: Option<Message>, events: seq<Event>)
    ensures SinkRun(Fresh(prev), events).sent == FateOfPrev(prev, events) + Emission(events)
    decreases |events|
  {
    if events != [] {
      var st := SinkStep(Fresh(prev), events[0]);
      SinkRunSent(st, events[1..]);
      SinkRunSends(st.prev, events[1..]);
      StepFate(prev, events);
      hide Fate, FateOfPrev, FateOfHead, SinkStep, NextRelevant;
      assert Emission(events) == FateOfHead(events) + Emission(events[1..]);
    }
  }

  lemma {:induction false} SinkRunHolds(prev: Option<Message>, events: seq<Event>)
    ensures SinkRun(Fresh(prev), events).prev ==
            if NextRelevant(events) == None then prev else HeldAfter(events)
    decreases |events|
  {
    if events != [] {
      var st := SinkStep(Fresh(prev), events[0]);
      SinkRunSent(st, events[1..]);
      SinkRunHolds(st.prev, events[1..]);
      HeldIfIrrelevant(events[1..]);
    }
  }

  /** The one-message look-ahead puts on the channel exactly what deciding every message by the
      next relevant event would, and holds exactly the message that is still undecided. */
  lemma SinkRefinesLookahead(events: seq<Event>)
    ensures SinkRun(Fresh(None), events) == SinkState(HeldAfter(events), Emission(events))
  {
    SinkRunSends(None, events);
    SinkRunHolds(None, events);
    HeldIfIrrelevant(events);
  }

  // ---------- when nothing is lost ----------

  function Bodies(ms: seq<Message>): (r: seq<Body>)
    ensures |r| == |ms|
  {
    if ms == [] then [] else [ms[0].body] + Bodies(ms[1..])
  }

  function DataBodies(events: seq<Event>): seq<Body> {
    if events == [] then []
    else (if events[0].Data? then [events[0].body] else []) + DataBodies(events[1..])
  }

  function AsSeq(m: Option<Message>): seq<Message> {
    match m
    case None => []
    case Some(v) => [v]
  }

  // Some message is followed by the begin of another transaction before anything resolves it:
  // its own transaction ended without a commit message, as a streamed one does.
  ghost predicate LosesMessage(events: seq<Event>) {
    exists i :: 0 <= i < |events| && events[i].Data? && NextRelevant(events[i + 1..]) == Some(Begin)
  }

  lemma LosesTail(events: seq<Event>)
    requires events != []
    ensures LosesMessage(events) <==>
            (events[0].Data? && NextRelevant(events[1..]) == Some(Begin)) || LosesMessage(events[1..])
  {
    var tail := events[1..];
    if LosesMessage(events) {
      var i :| 0 <= i < |events| && events[i].Data? && NextRelevant(events[i + 1..]) == Some(Begin);
      if i > 0 {
        assert tail[i - 1] == events[i] && tail[i..] == events[i + 1..];
      }
    }
    if LosesMessage(tail) {
      var i :| 0 <= i < |tail| && tail[i].Data? && NextRelevant(tail[i + 1..]) == Some(Begin);
      assert events[i + 1] == tail[i] && events[i + 2..] == tail[i + 1..];
    }
  }

  function Kept(events: seq<Event>): seq<Message> {
    Emission(events) + AsSeq(HeldAfter(events))
  }

  // A message at the head is kept, in front of the rest, unless a begin resolves it.
  lemma KeptHead(events: seq<Event>)
    requires events != [] && events[0].Data?
    ensures NextRelevant(events[1..]) == Some(Begin) ==> Kept(events) == Kept(events[1..])
    ensures NextRelevant(events[1..]) != Some(Begin) ==>
              |Kept(events)| == 1 + |Kept(events[1..])| && Kept(events)[0].body == events[0].body
              && Kept(events)[1..] == Kept(events[1..])
  {
    var tail, m := events[1..], Message(events[0].lsn, events[0].body);
    var next := NextRelevant(tail);
    assert Emission(events) == Fate(m, next) + Emission(tail);
    if next == None {
      HeldIfIrrelevant(tail);
      assert Kept(events) == [m] && Kept(tail) == [];
    } else {
      assert HeldAfter(events) == HeldAfter(tail);
      assert Kept(events) == Fate(m, next) + Kept(tail);
    }
  }

  lemma {:induction false} EmissionKeepsBodies(events: seq<Event>)
    ensures |Kept(events)| <= |DataBodies(events)|
    ensures |Kept(events)| == |DataBodies(events)| <==> !LosesMessage(events)
    ensures !LosesMessage(events) ==> Bodies(Kept(events)) == DataBodies(events)
  {
    if events != [] {
      EmissionKeepsBodies(events[1..]);
      LosesTail(events);
      if events[0].Data? {
        KeptHead(events);
      } else {
        assert Emission(events) == Emission(events[1..]);
      }
    }
  }

  /** Sent plus held messages are all the decoded messages, in order, exactly when no decoded
      message is followed by a begin before a commit or another message. A streamed transaction
      breaks this: its commit is silent, so its last message is dropped by the next begin. */
  lemma NothingLostIff(events: seq<Event>)
    ensures var st := SinkRun(Fresh(None), events);
            Bodies(st.sent + AsSeq(st.prev)) == DataBodies(events) <==> !LosesMessage(events)
  {
    SinkRefinesLookahead(events);
    EmissionKeepsBodies(events);
  }

  // A streamed transaction of one change, then an ordinary transaction: the change is gone.
  lemma StreamedTransactionLoses(lsn: nat, body: Body)
    ensures SinkRun(Fresh(None), [Silent, Data(lsn, body), Silent, Silent, Begin]) == Fresh(None)
  {
    var e0 := [Silent, Data(lsn, body), Silent, Silent, Begin];
    assert e0[1..] == [Data(lsn, body), Silent, Silent, Begin];
    assert e0[1..][1..] == [Silent, Silent, Begin];
    assert e0[1..][1..][1..] == [Silent, Begin];
    assert e0[1..][1..][1..][1..] == [Begin];
    assert e0[1..][1..][1..][1..][1..] == [];
    var s1 := SinkStep(SinkStep(Fresh(None), Silent), Data(lsn, body));
    assert SinkRun(Fresh(None), e0) == SinkRun(s1, [Silent, Silent, Begin]);
    assert SinkRun(s1, [Silent, Silent, Begin]) == SinkRun(s1, [Silent, Begin]);
    assert SinkRun(s1, [Silent, Begin]) == SinkRun(s1, [Begin]);
    assert SinkRun(s1, [Begin]) == SinkStep(s1, Begin);
  }

  // ---------- transactions ----------

  // A transaction that is not streamed: its decoded messages arrive between Begin and Commit.
  datatype Txn = Txn(inner: seq<Event>, commitLSN: nat, endLSN: nat)

  predicate InnerEvent(ev: Event) {
    !ev.Begin? && !ev.Commit?
  }

  function EventsOf(t: Txn): seq<Event> {
    [Begin] + t.inner + [Commit(t.commitLSN, t.endLSN)]
  }

  function DataOf(inner: seq<Event>): seq<Message> {
    if inner == [] then []
    else
      var n := |inner| - 1;
      DataOf(inner[..n]) + (if inner[n].Data? then [Message(inner[n].lsn, inner[n].body)] else [])
  }

  // The batch specification: the transaction's decoded messages in order, the last one
  // stamped with the end of the commit.
  function Emitted(t: Txn): seq<Message> {
    var ms := DataOf(t.inner);
    if ms == [] then [] else ms[..|ms| - 1] + [Message(t.endLSN, ms[|ms| - 1].body)]
  }

  lemma {:induction false} InnerRun(inner: seq<Event>)
    requires forall i :: 0 <= i < |inner| ==> InnerEvent(inner[i])
    ensures var ms := DataOf(inner); var st := SinkRun(Fresh(None), inner);
            if ms == [] then st == Fresh(None)
            else st == SinkState(Some(ms[|ms| - 1]), ms[..|ms| - 1])
  {
    if inner != [] {
      var n := |inner| - 1;
      InnerRun(inner[..n]);
      assert inner == inner[..n] + [inner[n]];
      SinkRunSnoc(Fresh(None), inner[..n], inner[n]);
      assert InnerEvent(inner[n]);
      var ms := DataOf(inner[..n]);
      if inner[n].Data? && ms != [] {
        assert ms == ms[..|ms| - 1] + [ms[|ms| - 1]];
      }
    }
  }

  /** Streaming one transaction through the loop, whatever was held before, sends exactly the
      batch specification and holds nothing afterwards. */
  lemma TransactionRefinesBatch(st: SinkState, t: Txn)
    requires forall i :: 0 <= i < |t.inner| ==> InnerEvent(t.inner[i])
    ensures SinkRun(st, EventsOf(t)) == SinkState(None, st.sent + Emitted(t))
  {
    var last := [Commit(t.commitLSN, t.endLSN)];
    assert EventsOf(t)[1..] == t.inner + last;
    var begun := SinkStep(st, Begin);
    SinkRunSnoc(begun, t.inner, last[0]);
    SinkRunSent(begun, t.inner);
    InnerRun(t.inner);
  }
}
