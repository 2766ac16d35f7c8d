/** The chunk and job tables of one snapshot, the statements workers run on them, and the loop of
    one worker. Times are milliseconds; stored timestamps are compared in whole seconds. */
module SnapshotTables {
  import opened Wrappers
  import opened Seqs

  datatype Status = Pending | InProgress | Completed

  datatype ChunkRow = ChunkRow(index: nat, status: Status, claimedBy: Option<nat>, heartbeat: Option<int>)

  datatype JobRow = JobRow(total: nat, counter: nat, completed: bool)

  // Timestamps are written without fractional seconds.
  function Seconds(ms: int): int {
    ms / 1000
  }

  predicate Stale(heartbeat: int, now: int, timeout: nat) {
    Seconds(heartbeat) < Seconds(now - timeout)
  }

  predicate Claimable(c: ChunkRow, now: int, timeout: nat) {
    c.status.Pending? || (c.status.InProgress? && c.heartbeat.Some? && Stale(c.heartbeat.value, now, timeout))
  }

  /** Truncating both sides to seconds never reclaims early, and always reclaims a heartbeat that is
      one second older than the timeout; in between it depends on where the seconds fall: a heartbeat is
      stale if and only if a new second has begun since it could have been renewed last. */
  lemma ClaimWindow(heartbeat: int, now: int, timeout: nat)
    ensures Stale(heartbeat, now, timeout) <==> heartbeat % 1000 + (now - timeout - heartbeat) >= 1000
    ensures now - heartbeat <= timeout ==> !Stale(heartbeat, now, timeout)
    ensures now - heartbeat >= timeout + 1000 ==> Stale(heartbeat, now, timeout)
  {
    var a, b := heartbeat, now - timeout;
    assert a == a / 1000 * 1000 + a % 1000 && b == b / 1000 * 1000 + b % 1000;
  }

  // The claim takes the lowest chunk index among the rows it can lock.
  ghost predicate IsClaim(chunks: seq<ChunkRow>, c: nat, locked: set<nat>, now: int, timeout: nat) {
    && c < |chunks| && c !in locked && Claimable(chunks[c], now, timeout)
    && forall d: nat :: d < |chunks| && d !in locked && Claimable(chunks[d], now, timeout)
                        ==> chunks[c].index <= chunks[d].index
  }

  ghost predicate NothingToClaim(chunks: seq<ChunkRow>, locked: set<nat>, now: int, timeout: nat) {
    forall d: nat :: d < |chunks| && d !in locked ==> !Claimable(chunks[d], now, timeout)
  }

  function Claimed(chunks: seq<ChunkRow>, c: nat, w: nat, now: int): seq<ChunkRow>
    requires c < |chunks|
  {
    chunks[c := chunks[c].(status := InProgress, claimedBy := Some(w), heartbeat := Some(now))]
  }

  function Finished(chunks: seq<ChunkRow>, c: nat): seq<ChunkRow>
    requires c < |chunks|
  {
    chunks[c := chunks[c].(status := Completed)]
  }

  function Released(chunks: seq<ChunkRow>, c: nat): seq<ChunkRow>
    requires c < |chunks|
  {
    chunks[c := chunks[c].(status := Pending, claimedBy := None, heartbeat := None)]
  }

  function Beaten(chunks: seq<ChunkRow>, c: nat, now: int): seq<ChunkRow>
    requires c < |chunks|
  {
    chunks[c := chunks[c].(heartbeat := Some(now))]
  }

  ghost predicate AllCompleted(chunks: seq<ChunkRow>) {
    forall c :: 0 <= c < |chunks| ==> chunks[c].status.Completed?
  }

  const BATCH_SIZE := 1000

  class MetadataStore {
    var chunks: seq<ChunkRow>
    var job: Option<JobRow>
    // what others could read while the tables were filled: the state after each statement
    ghost var shown: seq<(seq<ChunkRow>, Option<JobRow>)>

    constructor ()
      ensures chunks == [] && job == None && Shown()
    {
      chunks, job, shown := [], None, [([], None)];
    }

    ghost predicate Shown()
      reads this
    {
      shown != [] && shown[|shown| - 1] == (chunks, job)
    }

    // Chunk rows in batches of 1000, one table after the other, and the job row last: whoever
    // sees the job sees all its chunks.
    method CreateMetadata(planned: seq<seq<ChunkRow>>)
      requires chunks == [] && job == None && Shown()
      requires forall t, i :: 0 <= t < |planned| && 0 <= i < |planned[t]| ==> planned[t][i].status.Pending?
      modifies this
      ensures job == Some(JobRow(|chunks|, 0, false))
      ensures chunks == Flatten(planned)
      ensures forall i :: 0 <= i < |chunks| ==> chunks[i].status.Pending?
      ensures Shown() && old(shown) <= shown
      ensures forall i :: |old(shown)| <= i < |shown| && shown[i].1.Some? ==> shown[i].0 == Flatten(planned)
    {
      var totalChunks := 0;
      for t := 0 to |planned|
        invariant Shown() && old(shown) <= shown
        invariant forall i :: |old(shown)| <= i < |shown| ==> shown[i].1 == None
        invariant job == None && totalChunks == |chunks|
        invariant chunks == Flatten(planned[..t])
        invariant forall i :: 0 <= i < |chunks| ==> chunks[i].status.Pending?
      {
        SaveChunksBatch(planned[t]);
        assert planned[..t + 1][..t] == planned[..t];
        totalChunks := totalChunks + |planned[t]|;
      }
      assert planned[..|planned|] == planned;
      job := Some(JobRow(totalChunks, 0, false));
      shown := shown + [(chunks, job)];
    }

    // One statement for each batch.
    method SaveChunksBatch(rows: seq<ChunkRow>)
      requires Shown()
      modifies this`chunks, this`shown
      ensures chunks == old(chunks) + rows
      ensures Shown() && old(shown) <= shown
      ensures |shown| == |old(shown)| + (|rows| + BATCH_SIZE - 1) / BATCH_SIZE
      ensures forall i :: |old(shown)| <= i < |shown| ==>
                shown[i].1 == job && |shown[i].0| <= |old(chunks)| + (i + 1 - |old(shown)|) * BATCH_SIZE
    {
      ghost var n := 0;
      var i := 0;
      while i < |rows|
        invariant 0 <= i <= |rows| && (i == n * BATCH_SIZE || i == |rows|)
        invariant chunks == old(chunks) + rows[..i]
        invariant Shown() && old(shown) <= shown && |shown| == |old(shown)| + n
        invariant n == (i + BATCH_SIZE - 1) / BATCH_SIZE
        invariant forall j :: |old(shown)| <= j < |shown| ==>
                    shown[j].1 == job && |shown[j].0| <= |old(chunks)| + (j + 1 - |old(shown)|) * BATCH_SIZE
      {
        var end := if i + BATCH_SIZE > |rows| then |rows| else i + BATCH_SIZE;
        chunks := chunks + rows[i..end];
        assert rows[..end] == rows[..i] + rows[i..end];
        shown := shown + [(chunks, job)];
        i, n := end, n + 1;
      }
    }

    method ClaimNextChunk(w: nat, now: int, timeout: nat) returns (id: Option<nat>)
      modifies this`chunks
      ensures id == None ==> chunks == old(chunks) && NothingToClaim(old(chunks), {}, now, timeout)
      ensures id.Some? ==> IsClaim(old(chunks), id.value, {}, now, timeout)
                           && chunks == Claimed(old(chunks), id.value, w, now)
      ensures |chunks| == |old(chunks)| && forall d :: 0 <= d < |chunks| && Some(d) != id ==> chunks[d] == old(chunks)[d]
      ensures id.Some? && id.value < |chunks| ==>
                chunks[id.value] == ChunkRow(old(chunks)[id.value].index, InProgress, Some(w), Some(now))
    {
      id := None;
      for i := 0 to |chunks|
        invariant chunks == old(chunks)
        invariant id == None ==> forall d: nat :: d < i ==> !Claimable(chunks[d], now, timeout)
        invariant id.Some? ==> id.value < i && Claimable(chunks[id.value], now, timeout)
                               && forall d: nat :: d < i && Claimable(chunks[d], now, timeout)
                                                   ==> chunks[id.value].index <= chunks[d].index
      {
        if Claimable(chunks[i], now, timeout) && (id == None || chunks[i].index < chunks[id.value].index) {
          id := Some(i);
        }
      }
      if id.Some? {
        chunks := Claimed(chunks, id.value, w, now);
      }
    }

    // Whoever owns it, the chunk keeps status and owner, and if it is not pending it cannot be
    // claimed before the timeout has passed.
    method UpdateChunkHeartbeat(c: nat, now: int)
      requires c < |chunks|
      modifies this`chunks
      ensures chunks == Beaten(old(chunks), c, now)
      ensures |chunks| == |old(chunks)| && forall d :: 0 <= d < |chunks| && d != c ==> chunks[d] == old(chunks)[d]
      ensures chunks[c].index == old(chunks)[c].index && chunks[c].status == old(chunks)[c].status
      ensures chunks[c].claimedBy == old(chunks)[c].claimedBy && chunks[c].heartbeat == Some(now)
      ensures !chunks[c].status.Pending? ==>
                forall later: int, timeout: nat :: later - now <= timeout ==> !Claimable(chunks[c], later, timeout)
    {
      forall later: int, timeout: nat | later - now <= timeout ensures !Stale(now, later, timeout) {
        ClaimWindow(now, later, timeout);
      }
      chunks := Beaten(chunks, c, now);
    }

    // The chunk row, then the counter of the job row.
    method MarkChunkCompleted(c: nat)
      requires c < |chunks| && job.Some?
      modifies this
      ensures chunks == Finished(old(chunks), c)
      ensures |chunks| == |old(chunks)| && forall d :: 0 <= d < |chunks| && d != c ==> chunks[d] == old(chunks)[d]
      ensures chunks[c].status.Completed? && chunks[c].index == old(chunks)[c].index
      ensures chunks[c].claimedBy == old(chunks)[c].claimedBy && chunks[c].heartbeat == old(chunks)[c].heartbeat
      ensures job == Some(old(job).value.(counter := old(job).value.counter + 1))
    {
      chunks := Finished(chunks, c);
      job := Some(job.value.(counter := job.value.counter + 1));
    }

    // Whatever its status was, the chunk has no owner, anyone can claim it at once, and the job is
    // not complete until it was worked off again.
    method ReleaseChunk(c: nat)
      requires c < |chunks|
      modifies this`chunks
      ensures chunks == Released(old(chunks), c)
      ensures |chunks| == |old(chunks)| && forall d :: 0 <= d < |chunks| && d != c ==> chunks[d] == old(chunks)[d]
      ensures chunks[c].index == old(chunks)[c].index && chunks[c].claimedBy == None && chunks[c].heartbeat == None
      ensures forall now: int, timeout: nat :: Claimable(chunks[c], now, timeout)
      ensures !AllCompleted(chunks)
    {
      chunks := Released(chunks, c);
    }

    // The decision counts the rows; it does not look at the counter.
    method CheckJobCompleted() returns (done: bool)
      ensures done <==> chunks != [] && AllCompleted(chunks)
    {
      var total, completed := 0, 0;
      for i := 0 to |chunks|
        invariant total == i && 0 <= completed <= i
        invariant completed == i <==> forall d :: 0 <= d < i ==> chunks[d].status.Completed?
      {
        total := total + 1;
        if chunks[i].status.Completed? {
          completed := completed + 1;
        }
      }
      done := total > 0 && total == completed;
    }

    method MarkJobAsCompleted()
      requires job.Some?
      modifies this`job
      ensures job == Some(old(job).value.(completed := true))
    {
      job := Some(job.value.(completed := true));
    }
  }

  // ---------- heartbeats and releases ----------

  // What wakes the heartbeat loop: the id of the chunk the worker now works on, or the ticker.
  datatype Pulse = Notify(chunk: nat) | Tick(at: int, reached: bool)

  function Active(pulses: seq<Pulse>): Option<nat> {
    if pulses == [] then None
    else if pulses[|pulses| - 1].Notify? then Some(pulses[|pulses| - 1].chunk)
    else Active(pulses[..|pulses| - 1])
  }

  // The last time the heartbeat of chunk d was written.
  function LastBeat(pulses: seq<Pulse>, d: nat): Option<int> {
    if pulses == [] then None
    else
      var init, last := pulses[..|pulses| - 1], pulses[|pulses| - 1];
      if last.Tick? && last.reached && Active(init) == Some(d) then Some(last.at) else LastBeat(init, d)
  }

  /** The heartbeat loop touches nothing but heartbeats: each chunk has that of the last tick that
      found it active and reached the database, also if the worker lost or finished it meanwhile. */
  method HeartbeatWorker(store: MetadataStore, pulses: seq<Pulse>)
    requires forall i :: 0 <= i < |pulses| && pulses[i].Notify? ==> pulses[i].chunk < |store.chunks|
    modifies store`chunks
    ensures |store.chunks| == |old(store.chunks)|
    ensures forall d: nat :: d < |store.chunks| ==>
              store.chunks[d] == match LastBeat(pulses, d)
                                 case None => old(store.chunks)[d]
                                 case Some(at) => old(store.chunks)[d].(heartbeat := Some(at))
  {
    var active: Option<nat> := None;
    for i := 0 to |pulses|
      invariant |store.chunks| == |old(store.chunks)|
      invariant active == Active(pulses[..i]) && (active.Some? ==> active.value < |store.chunks|)
      invariant forall d: nat :: d < |store.chunks| ==>
                  store.chunks[d] == match LastBeat(pulses[..i], d)
                                     case None => old(store.chunks)[d]
                                     case Some(at) => old(store.chunks)[d].(heartbeat := Some(at))
    {
      assert pulses[..i + 1][..i] == pulses[..i] && pulses[..i + 1][i] == pulses[i];
      match pulses[i] {
        case Notify(chunk) =>
          active := Some(chunk);
        case Tick(at, reached) =>
          if active.Some? && reached {
            store.UpdateChunkHeartbeat(active.value, at);
          }
      }
    }
    assert pulses[..|pulses|] == pulses;
  }

  /** After an invalid snapshot the worker stops. If the release reached the database the chunk can
      be claimed at once by anyone; otherwise it stays claimed until it is stale. */
  method HandleInvalidSnapshot(store: MetadataStore, c: nat, reached: bool) returns (hasMore: bool)
    requires c < |store.chunks|
    modifies store`chunks
    ensures !hasMore && |store.chunks| == |old(store.chunks)|
    ensures forall d :: 0 <= d < |store.chunks| && d != c ==> store.chunks[d] == old(store.chunks)[d]
    ensures reached ==> forall now: int, timeout: nat :: Claimable(store.chunks[c], now, timeout)
    ensures !reached ==> store.chunks[c] == old(store.chunks)[c]
  {
    if reached {
      store.ReleaseChunk(c);
    }
    return false;
  }

  // What the handler got of a chunk: everything, or the first rows before an error.
  function RowsGiven<R>(rows: seq<R>, failsAfter: Option<nat>): (given: seq<R>)
    ensures given <= rows && (failsAfter == None ==> given == rows)
    ensures failsAfter.Some? ==> |given| == if failsAfter.value < |rows| then failsAfter.value else |rows|
  {
    if failsAfter.Some? && failsAfter.value < |rows| then rows[..failsAfter.value] else rows
  }

  function AllGiven<R>(rows: seq<seq<R>>, order: seq<nat>, fails: nat -> Option<nat>): seq<R>
    requires forall i :: 0 <= i < |order| ==> order[i] < |rows|
  {
    if order == [] then []
    else
      var n := |order| - 1;
      AllGiven(rows, order[..n], fails) + RowsGiven(rows[order[n]], fails(order[n]))
  }

  // What one chunk row becomes when this worker, alone, works off everything it can claim.
  function WorkedOff(c: ChunkRow, w: nat, now: int, timeout: nat, failed: bool): ChunkRow {
    if !Claimable(c, now, timeout) then c
    else ChunkRow(c.index, if failed then InProgress else Completed, Some(w), Some(now))
  }

  // order: chunks claimed so far; todo: what is still claimable.
  ghost predicate Ordered(before: seq<ChunkRow>, order: seq<nat>, todo: set<nat>) {
    && (forall i :: 0 <= i < |order| ==> order[i] < |before|)
    && InIndexOrder(before, order)
    && (forall i, c :: 0 <= i < |order| && c in todo && c < |before| ==> before[order[i]].index <= before[c].index)
  }

  // Every claimable chunk is either claimed or still to do, and untouched in the second case.
  ghost predicate Divided(before: seq<ChunkRow>, chunks: seq<ChunkRow>, order: seq<nat>, todo: set<nat>,
                          now: int, timeout: nat)
    requires |chunks| == |before|
  {
    && (forall c :: c in todo ==> c < |before| && c !in order && Claimable(before[c], now, timeout)
                                  && chunks[c] == before[c])
    && (forall c: nat :: c < |before| && Claimable(before[c], now, timeout) ==> c in order || c in todo)
    && (forall c :: c in order ==> c < |before| && Claimable(before[c], now, timeout))
  }

  ghost predicate OthersWorkedOff(before: seq<ChunkRow>, chunks: seq<ChunkRow>, todo: set<nat>,
                                  w: nat, now: int, timeout: nat, fails: nat -> Option<nat>)
    requires |chunks| == |before|
  {
    forall c: nat :: c < |before| && c !in todo ==>
      chunks[c] == WorkedOff(before[c], w, now, timeout, fails(c).Some?) && !Claimable(chunks[c], now, timeout)
  }

  ghost predicate Progress(before: seq<ChunkRow>, chunks: seq<ChunkRow>, order: seq<nat>, todo: set<nat>,
                           w: nat, now: int, timeout: nat, fails: nat -> Option<nat>)
  {
    && |chunks| == |before|
    && Ordered(before, order, todo)
    && Divided(before, chunks, order, todo, now, timeout)
    && OthersWorkedOff(before, chunks, todo, w, now, timeout, fails)
  }

  // Claimed once each, lowest chunk index first.
  ghost predicate InIndexOrder(before: seq<ChunkRow>, order: seq<nat>)
    requires forall i :: 0 <= i < |order| ==> order[i] < |before|
  {
    forall i, j :: 0 <= i < j < |order| ==>
      order[i] != order[j] && before[order[i]].index <= before[order[j]].index
  }

  lemma OrderStep(before: seq<ChunkRow>, chunks: seq<ChunkRow>, order: seq<nat>, todo: set<nat>,
                  now: int, timeout: nat, c: nat)
    requires |chunks| == |before| && Ordered(before, order, todo)
    requires Divided(before, chunks, order, todo, now, timeout)
    requires IsClaim(chunks, c, {}, now, timeout) && c in todo
    ensures Ordered(before, order + [c], todo - {c})
  {
    hide Claimable;
    forall d | d in todo && d != c ensures before[c].index <= before[d].index {
      assert Claimable(chunks[d], now, timeout);
    }
  }

  lemma DivideStep(before: seq<ChunkRow>, chunks: seq<ChunkRow>, after: seq<ChunkRow>, order: seq<nat>, todo: set<nat>,
                   now: int, timeout: nat, c: nat)
    requires |chunks| == |before| == |after| && Divided(before, chunks, order, todo, now, timeout) && c in todo
    requires forall d :: 0 <= d < |chunks| && d != c ==> after[d] == chunks[d]
    ensures Divided(before, after, order + [c], todo - {c}, now, timeout)
  {
    hide Claimable;
    assert forall d :: d in order + [c] <==> d in order || d == c;
  }

  lemma WorkStep(before: seq<ChunkRow>, chunks: seq<ChunkRow>, after: seq<ChunkRow>, todo: set<nat>,
                 w: nat, now: int, timeout: nat, fails: nat -> Option<nat>, c: nat)
    requires |chunks| == |before| == |after| && OthersWorkedOff(before, chunks, todo, w, now, timeout, fails)
    requires c in todo && c < |before| && Claimable(before[c], now, timeout)
    requires forall d :: 0 <= d < |chunks| && d != c ==> after[d] == chunks[d]
    requires after[c] == WorkedOff(before[c], w, now, timeout, fails(c).Some?)
    ensures OthersWorkedOff(before, after, todo - {c}, w, now, timeout, fails)
  {
    hide Stale;
    ClaimWindow(now, now, timeout);
    forall d: nat | d < |before| && d !in todo - {c}
      ensures after[d] == WorkedOff(before[d], w, now, timeout, fails(d).Some?)
              && !Claimable(after[d], now, timeout)
    {
      if d != c {
        assert after[d] == chunks[d];
      }
    }
  }

  lemma ProgressStep(before: seq<ChunkRow>, chunks: seq<ChunkRow>, order: seq<nat>, todo: set<nat>,
                     w: nat, now: int, timeout: nat, fails: nat -> Option<nat>, c: nat)
    requires Progress(before, chunks, order, todo, w, now, timeout, fails)
    requires IsClaim(chunks, c, {}, now, timeout)
    ensures c in todo
    ensures var taken := Claimed(chunks, c, w, now);
            Progress(before, if fails(c).Some? then taken else Finished(taken, c), order + [c], todo - {c},
                     w, now, timeout, fails)
  {
    ClaimIsToDo(before, chunks, order, todo, w, now, timeout, fails, c);
    var taken := Claimed(chunks, c, w, now);
    var after := if fails(c).Some? then taken else Finished(taken, c);
    hide Claimable, IsClaim, Ordered, Divided, OthersWorkedOff;
    OrderStep(before, chunks, order, todo, now, timeout, c);
    DivideStep(before, chunks, after, order, todo, now, timeout, c);
    WorkStep(before, chunks, after, todo, w, now, timeout, fails, c);
  }

  lemma ClaimIsToDo(before: seq<ChunkRow>, chunks: seq<ChunkRow>, order: seq<nat>, todo: set<nat>,
                    w: nat, now: int, timeout: nat, fails: nat -> Option<nat>, c: nat)
    requires Progress(before, chunks, order, todo, w, now, timeout, fails)
    requires IsClaim(chunks, c, {}, now, timeout)
    ensures c in todo && c < |before| && Claimable(before[c], now, timeout) && chunks[c] == before[c]
  {
    hide Claimable;
  }

  lemma ProgressStart(before: seq<ChunkRow>, todo: set<nat>, w: nat, now: int, timeout: nat,
                      fails: nat -> Option<nat>)
    requires todo == set c: nat | c < |before| && Claimable(before[c], now, timeout)
    ensures Progress(before, before, [], todo, w, now, timeout, fails)
  {
  }

  lemma ProgressDone(before: seq<ChunkRow>, chunks: seq<ChunkRow>, order: seq<nat>, todo: set<nat>,
                     w: nat, now: int, timeout: nat, fails: nat -> Option<nat>)
    requires Progress(before, chunks, order, todo, w, now, timeout, fails)
    requires NothingToClaim(chunks, {}, now, timeout)
    ensures |chunks| == |before|
    ensures forall i :: 0 <= i < |order| ==> order[i] < |before|
    ensures InIndexOrder(before, order)
    ensures forall c: nat :: c < |before| ==> (c in order <==> Claimable(before[c], now, timeout))
    ensures forall c: nat :: c < |before| ==>
              chunks[c] == WorkedOff(before[c], w, now, timeout, fails(c).Some?)
  {
    assert forall c: nat :: c < |before| ==> !Claimable(chunks[c], now, timeout);
  }

  /** The loop of one worker at one moment: it takes every claimable chunk exactly once, in
      chunk-index order, hands the rows of each to the handler, completes those that do not fail,
      and stops when nothing is claimable. */
  method WorkerProcess<R>(store: MetadataStore, rows: seq<seq<R>>, w: nat, now: int, timeout: nat,
                          fails: nat -> Option<nat>)
    returns (order: seq<nat>, handed: seq<R>)
    requires |rows| == |store.chunks| && store.job.Some?
    modifies store
    ensures |store.chunks| == |rows|
    ensures store.job.Some? && store.job.value.completed == old(store.job).value.completed
    ensures forall i :: 0 <= i < |order| ==> order[i] < |rows|
    ensures InIndexOrder(old(store.chunks), order)
    ensures forall c: nat :: c < |rows| ==> (c in order <==> Claimable(old(store.chunks)[c], now, timeout))
    ensures handed == AllGiven(rows, order, fails)
    ensures forall c: nat :: c < |rows| ==>
              store.chunks[c] == WorkedOff(old(store.chunks)[c], w, now, timeout, fails(c).Some?)
    ensures forall c: nat :: c < |rows| ==>
              if Claimable(old(store.chunks)[c], now, timeout)
              then (store.chunks[c].status.Completed? <==> fails(c) == None) && store.chunks[c].claimedBy == Some(w)
              else store.chunks[c] == old(store.chunks)[c]
    ensures NothingToClaim(store.chunks, {}, now, timeout)
  {
    hide Progress, NothingToClaim, IsClaim, Claimable;
    ghost var before := store.chunks;
    order, handed := [], [];
    ghost var todo := set c: nat | c < |before| && Claimable(before[c], now, timeout);
    ProgressStart(before, todo, w, now, timeout, fails);
    var more := true;
    while more
      invariant |before| == |rows| == |store.chunks|
      invariant store.job.Some? && store.job.value.completed == old(store.job).value.completed
      invariant Progress(before, store.chunks, order, todo, w, now, timeout, fails)
      invariant forall i :: 0 <= i < |order| ==> order[i] < |rows|
      invariant handed == AllGiven(rows, order, fails)
      invariant !more ==> NothingToClaim(store.chunks, {}, now, timeout)
      decreases todo, more
    {
      ghost var was := store.chunks;
      var id := store.ClaimNextChunk(w, now, timeout);
      if id == None {
        more := false;
      } else {
        var c := id.value;
        assert c < |rows| by {
          ClaimInRange(was, c, now, timeout);
        }
        ProgressStep(before, was, order, todo, w, now, timeout, fails, c);
        handed := handed + RowsGiven(rows[c], fails(c));
        assert (order + [c])[..|order|] == order;
        order := order + [c];
        todo := todo - {c};
        if fails(c) == None {
          store.MarkChunkCompleted(c);
        }
      }
    }
    ProgressDone(before, store.chunks, order, todo, w, now, timeout, fails);
  }

  lemma ClaimInRange(chunks: seq<ChunkRow>, c: nat, now: int, timeout: nat)
    requires IsClaim(chunks, c, {}, now, timeout)
    ensures c < |chunks|
  {
  }

  /** Working, then the completion decision: the job is marked exactly when there are chunks and
      all of them are completed. */
  method Execute<R>(store: MetadataStore, rows: seq<seq<R>>, w: nat, now: int, timeout: nat,
                    fails: nat -> Option<nat>)
    returns (order: seq<nat>, handed: seq<R>)
    requires |rows| == |store.chunks| && store.job.Some?
    modifies store
    ensures |store.chunks| == |rows| && store.job.Some?
    ensures store.job.value.completed <==>
            old(store.job).value.completed || (store.chunks != [] && AllCompleted(store.chunks))
    ensures forall i :: 0 <= i < |order| ==> order[i] < |rows|
    ensures handed == AllGiven(rows, order, fails)
    ensures forall c: nat :: c < |rows| ==>
              store.chunks[c] == WorkedOff(old(store.chunks)[c], w, now, timeout, fails(c).Some?)
  {
    order, handed := WorkerProcess(store, rows, w, now, timeout, fails);
    var done := store.CheckJobCompleted();
    if done {
      store.MarkJobAsCompleted();
    }
  }
}
