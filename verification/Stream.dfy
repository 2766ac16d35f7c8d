/** The stream object: the receive loop, the acknowledged position it reports, and the gate that
    keeps it closed until the snapshot job is complete. */
module Stream {
  import opened Wrappers
  import opened Rows
  import opened Sink

  // What one receive attempt yields.
  datatype Received = Timeout | Keepalive(replyRequested: bool) | Wal(ev: Event)

  function WalEvents(received: seq<Received>): seq<Event> {
    if received == [] then []
    else
      var n := |received| - 1;
      WalEvents(received[..n]) + (if received[n].Wal? then [received[n].ev] else [])
  }

  // How many times a server that sends this is answered: whenever it asks, and on every idle interval
  // once a position was acknowledged.
  function Replies(received: seq<Received>, pos: nat): nat {
    if received == [] then 0
    else
      var n := |received| - 1;
      Replies(received[..n], pos)
      + (match received[n]
         case Timeout => if pos > 0 then 1 else 0
         case Keepalive(replyRequested) => if replyRequested then 1 else 0
         case Wal(_) => 0)
  }

  lemma NothingReceived(received: seq<Received>, pos: nat)
    requires received == []
    ensures WalEvents(received) == [] && Replies(received, pos) == 0
  {
  }

  lemma SinkNothing(st: SinkState)
    ensures SinkRun(st, []) == st
  {
  }

  lemma NextReceived(received: seq<Received>, i: nat, pos: nat)
    requires i < |received|
    ensures WalEvents(received[..i + 1]) ==
            if received[i].Wal? then WalEvents(received[..i]) + [received[i].ev] else WalEvents(received[..i])
    ensures Replies(received[..i + 1], pos) == Replies(received[..i], pos)
            + (match received[i]
               case Timeout => if pos > 0 then 1 else 0
               case Keepalive(replyRequested) => if replyRequested then 1 else 0
               case Wal(_) => 0)
  {
    assert received[..i + 1][..i] == received[..i];
  }

  // One poll of the snapshot job row; lsn is None when its text does not parse.
  datatype Poll = QueryFailed | NoJob | Job(completed: bool, lsn: Option<nat>)

  datatype SetupError = JobMissing | BadLSN | StillWaiting

  // The poll that ends the retry loop: everything but a failed query and an incomplete job.
  predicate Decisive(p: Poll) {
    p.NoJob? || (p.Job? && p.completed)
  }

  class Stream {
    var messageCH: seq<Message>
    var lastXLogPos: nat
    var openFromSnapshotLSN: bool
    var reports: seq<nat>  // the positions sent to the server

    constructor ()
      ensures messageCH == [] && lastXLogPos == 0 && !openFromSnapshotLSN && reports == []
      ensures Valid()
    {
      messageCH, lastXLogPos, openFromSnapshotLSN, reports := [], 0, false, [];
    }

    // The reported positions never go back.
    ghost predicate Valid()
      reads this
    {
      && (forall i, j :: 0 <= i <= j < |reports| ==> reports[i] <= reports[j])
      && (forall i :: 0 <= i < |reports| ==> reports[i] <= lastXLogPos)
    }

    method OpenFromSnapshotLSN()
      modifies this`openFromSnapshotLSN
      ensures openFromSnapshotLSN
    {
      openFromSnapshotLSN := true;
    }

    method SendStandbyStatusUpdate()
      requires Valid()
      modifies this`reports
      ensures Valid() && reports == old(reports) + [lastXLogPos]
    {
      reports := reports + [lastXLogPos];
    }

    // The receive loop, run over what it receives until it stops. Receiving, idling and keepalives
    // never move the acknowledged position: it is reported, and nothing else, on every request and on
    // every idle interval.
    method Sink(received: seq<Received>) returns (held: Option<Message>)
      requires Valid()
      modifies this`messageCH, this`reports
      ensures Valid()
      ensures SinkState(held, messageCH) == SinkRun(SinkState(None, old(messageCH)), WalEvents(received))
      ensures old(reports) <= reports && |reports| == |old(reports)| + Replies(received, lastXLogPos)
      ensures forall i :: |old(reports)| <= i < |reports| ==> reports[i] == lastXLogPos
    {
      hide WalEvents, Replies, SinkRun;
      held := None;
      NothingReceived(received[..0], lastXLogPos);
      SinkNothing(SinkState(None, messageCH));
      var i := 0;
      while i < |received|
        invariant 0 <= i <= |received| && Valid()
        invariant SinkState(held, messageCH) ==
                  SinkRun(SinkState(None, old(messageCH)), WalEvents(received[..i]))
        invariant old(reports) <= reports && |reports| == |old(reports)| + Replies(received[..i], lastXLogPos)
        invariant forall j :: |old(reports)| <= j < |reports| ==> reports[j] == lastXLogPos
      {
        NextReceived(received, i, lastXLogPos);
        match received[i] {
          case Timeout =>
            if lastXLogPos > 0 {
              SendStandbyStatusUpdate();
            }
          case Keepalive(replyRequested) =>
            if replyRequested {
              SendStandbyStatusUpdate();
            }
          case Wal(ev) =>
            ghost var before := SinkState(held, messageCH);
            match ev {
              case Begin =>
                held := None;
              case Commit(_, endLSN) =>
                if held.Some? {
                  messageCH := messageCH + [Message(endLSN, held.value.body)];
                }
                held := None;
              case Data(lsn, body) =>
                if held.Some? {
                  messageCH := messageCH + [held.value];
                }
                held := Some(Message(lsn, body));
              case Undecodable(_) =>
              case Silent =>
            }
            assert SinkState(held, messageCH) == SinkStep(before, ev);
            SinkRunSnoc(SinkState(None, old(messageCH)), WalEvents(received[..i]), ev);
        }
        i := i + 1;
      }
      assert received[..i] == received;
    }

    // One turn of the process loop: the listener gets the oldest message of the channel.
    method Process() returns (m: Message)
      requires messageCH != []
      modifies this`messageCH
      ensures old(messageCH) == [m] + messageCH
    {
      m := messageCH[0];
      messageCH := messageCH[1..];
    }

    method UpdateXLogPos(l: nat)
      requires Valid()
      modifies this`lastXLogPos
      ensures Valid() && lastXLogPos == Max(old(lastXLogPos), l)
    {
      if lastXLogPos < l {
        lastXLogPos := l;
      }
    }

    // The acknowledge closure of a message.
    method Ack(m: Message)
      requires Valid()
      modifies this`lastXLogPos, this`reports
      ensures Valid() && lastXLogPos == Max(old(lastXLogPos), m.walStart)
      ensures reports == old(reports) + [lastXLogPos]
    {
      UpdateXLogPos(m.walStart);
      SendStandbyStatusUpdate();
    }

    // Where replication starts. With a snapshot, only from the position of a completed job:
    // the loop retries failed queries and incomplete jobs, and gives up on a missing one.
    method Setup(polls: seq<Poll>) returns (r: Result<nat, SetupError>)
      ensures !openFromSnapshotLSN ==> r == Ok(lastXLogPos)
      ensures openFromSnapshotLSN ==>
                (forall l: nat :: r == Ok(l) <==>
                   exists i :: 0 <= i < |polls| && polls[i] == Job(true, Some(l))
                               && forall j :: 0 <= j < i ==> !Decisive(polls[j]))
      ensures openFromSnapshotLSN ==>
                (r == Err(StillWaiting) <==> forall j :: 0 <= j < |polls| ==> !Decisive(polls[j]))
      ensures openFromSnapshotLSN ==>
                (r == Err(JobMissing) <==> exists i :: 0 <= i < |polls| && polls[i].NoJob?
                                                       && forall j :: 0 <= j < i ==> !Decisive(polls[j]))
    {
      if !openFromSnapshotLSN {
        return Ok(lastXLogPos);
      }
      var i := 0;
      while i < |polls|
        invariant 0 <= i <= |polls|
        invariant forall j :: 0 <= j < i ==> !Decisive(polls[j])
      {
        match polls[i] {
          case QueryFailed =>
          case NoJob =>
            return Err(JobMissing);
          case Job(completed, lsn) =>
            if completed {
              assert Decisive(polls[i]);
              if lsn == None {
                return Err(BadLSN);
              }
              return Ok(lsn.value);
            }
        }
        i := i + 1;
      }
      return Err(StillWaiting);
    }
  }
}
