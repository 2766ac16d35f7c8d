/** Two kinds of good runs of the snapshot protocol: with fresh heartbeats no chunk has two owners,
    and without errors every row is handed over exactly once and the run ends. */
module SnapshotRuns {
  import opened Wrappers
  import opened Seqs
  import opened SnapshotTables
  import opened SnapshotProtocol

  // The worker is reading the chunk, or has read it and is about to mark it.
  predicate Owns(w: Worker, c: nat) {
    (w.Working? && w.chunk == c) || (w.Given? && w.chunk == c)
  }

  // No owner's heartbeat is older than the claim timeout.
  ghost predicate Fresh<R>(s: State<R>, timeout: nat) {
    forall w, c: nat :: 0 <= w < |s.workers| && c < |s.chunks| && Owns(s.workers[w], c) ==>
      s.chunks[c].heartbeat.Some? && s.now - s.chunks[c].heartbeat.value <= timeout
  }

  ghost predicate FreshRun<R>(rows: seq<seq<R>>, timeout: nat, s: State<R>, steps: seq<Step>, s': State<R>)
    requires Valid(rows, s)
    decreases |steps|
  {
    if steps == [] then s' == s
    else
      && Enabled(rows, timeout, s, steps[0])
      && (steps[0].Claim? ==> Fresh(s, timeout))
      && (StepKeepsValid(rows, timeout, s, steps[0]);
          FreshRun(rows, timeout, Do(rows, timeout, s, steps[0]), steps[1..], s'))
  }

  // ---------- one owner at a time ----------

  ghost predicate Exclusive<R>(s: State<R>) {
    forall v, w, c :: (0 <= v < |s.workers| && 0 <= w < |s.workers|
                       && Owns(s.workers[v], c) && Owns(s.workers[w], c)) ==> v == w
  }

  // Owned chunks are in progress, and chunks being counted are completed.
  ghost predicate OwnedInProgress<R>(s: State<R>) {
    && (forall w, c: nat :: (0 <= w < |s.workers| && c < |s.chunks| && Owns(s.workers[w], c)) ==>
          s.chunks[c].status.InProgress?)
    && (forall w :: 0 <= w < |s.workers| && s.workers[w].Counting? && s.workers[w].chunk < |s.chunks| ==>
          s.chunks[s.workers[w].chunk].status.Completed?)
  }

  // A fresh owner protects its chunk: it cannot be claimed.
  lemma FreshNotClaimable<R>(s: State<R>, timeout: nat, w: nat, c: nat)
    requires w < |s.workers| && c < |s.chunks| && Owns(s.workers[w], c)
    requires OwnedInProgress(s) && Fresh(s, timeout)
    ensures !Claimable(s.chunks[c], s.now, timeout)
  {
    ClaimWindow(s.chunks[c].heartbeat.value, s.now, timeout);
  }

  // A claimed chunk had no owner.
  lemma ClaimUnowned<R>(s: State<R>, timeout: nat, c: nat, locked: set<nat>, v: nat)
    requires OwnedInProgress(s) && Fresh(s, timeout) && IsClaim(s.chunks, c, locked, s.now, timeout)
    requires v < |s.workers|
    ensures !Owns(s.workers[v], c)
  {
    hide Fresh, OwnedInProgress, Claimable;
    ClaimRange(s.chunks, c, locked, s.now, timeout);
    if Owns(s.workers[v], c) {
      FreshNotClaimable(s, timeout, v, c);
    }
  }

  lemma StepKeepsOneOwner<R>(rows: seq<seq<R>>, timeout: nat, s: State<R>, step: Step)
    requires Valid(rows, s) && Exclusive(s) && OwnedInProgress(s) && Enabled(rows, timeout, s, step)
    requires step.Claim? ==> Fresh(s, timeout)
    ensures Exclusive(Do(rows, timeout, s, step))
  {
    hide IsClaim, NothingToClaim, Fresh, OwnedInProgress, Do, Owns, AllCompleted;
    WorkersStay(rows, timeout, s, step);
    var s' := Do(rows, timeout, s, step);
    forall v, w, c | 0 <= v < |s'.workers| && 0 <= w < |s'.workers|
                     && Owns(s'.workers[v], c) && Owns(s'.workers[w], c)
      ensures v == w
    {
      OldOwner(rows, timeout, s, step, v, c);
      OldOwner(rows, timeout, s, step, w, c);
      if step.Claim? {
        ClaimUnowned(s, timeout, step.c, step.locked, v);
        ClaimUnowned(s, timeout, step.c, step.locked, w);
      }
    }
  }

  lemma StepKeepsInProgress<R>(rows: seq<seq<R>>, timeout: nat, s: State<R>, step: Step)
    requires Valid(rows, s) && Exclusive(s) && OwnedInProgress(s) && Enabled(rows, timeout, s, step)
    ensures OwnedInProgress(Do(rows, timeout, s, step))
  {
    hide IsClaim, NothingToClaim, Claimable, AllCompleted;
    var s' := Do(rows, timeout, s, step);
    if step.Claim? {
      ClaimRange(s.chunks, step.c, step.locked, s.now, timeout);
      ClaimableIsOpen(s.chunks[step.c], s.now, timeout);
    }
    if step.ReleaseChunk? || step.MarkChunk? {
      assert Owns(s.workers[step.w], s.workers[step.w].chunk);
    }
    forall w, c: nat | 0 <= w < |s'.workers| && c < |s'.chunks| && Owns(s'.workers[w], c)
      ensures s'.chunks[c].status.InProgress?
    {
      OldOwner(rows, timeout, s, step, w, c);
    }
  }

  lemma ClaimableIsOpen(c: ChunkRow, now: int, timeout: nat)
    requires Claimable(c, now, timeout)
    ensures !c.status.Completed?
  {
  }

  lemma StepKeepsExclusive<R>(rows: seq<seq<R>>, timeout: nat, s: State<R>, step: Step)
    requires Valid(rows, s) && Exclusive(s) && OwnedInProgress(s) && Enabled(rows, timeout, s, step)
    requires step.Claim? ==> Fresh(s, timeout)
    ensures Exclusive(Do(rows, timeout, s, step)) && OwnedInProgress(Do(rows, timeout, s, step))
  {
    hide Exclusive, OwnedInProgress, Do, Enabled;
    StepKeepsOneOwner(rows, timeout, s, step);
    StepKeepsInProgress(rows, timeout, s, step);
  }

  // Only a claim makes a new owner.
  lemma OldOwner<R>(rows: seq<seq<R>>, timeout: nat, s: State<R>, step: Step, w: nat, c: nat)
    requires Valid(rows, s) && Enabled(rows, timeout, s, step)
    requires w < |s.workers| && Owns(Do(rows, timeout, s, step).workers[w], c)
    ensures Owns(s.workers[w], c) || step == Claim(w, c, if step.Claim? then step.locked else {})
  {
    hide IsClaim, NothingToClaim;
  }

  lemma {:induction false} RunKeepsExclusive<R>(rows: seq<seq<R>>, timeout: nat, s: State<R>, steps: seq<Step>,
                                                s': State<R>)
    requires Valid(rows, s) && Exclusive(s) && OwnedInProgress(s) && FreshRun(rows, timeout, s, steps, s')
    ensures Exclusive(s') && OwnedInProgress(s')
    decreases |steps|
  {
    hide Exclusive, OwnedInProgress;
    if steps != [] {
      StepKeepsValid(rows, timeout, s, steps[0]);
      StepKeepsExclusive(rows, timeout, s, steps[0]);
      RunKeepsExclusive(rows, timeout, Do(rows, timeout, s, steps[0]), steps[1..], s');
    }
  }

  /** Claim exclusion: as long as every claim happens while all owners' heartbeats are within the
      timeout, no chunk ever has two owners - also in runs with failures, releases and crashes. */
  lemma FreshRunIsExclusive<R>(rows: seq<seq<R>>, timeout: nat, s: State<R>, steps: seq<Step>, s': State<R>)
    requires Init(rows, s) && Valid(rows, s) && FreshRun(rows, timeout, s, steps, s')
    ensures forall v, w, c :: (0 <= v < |s'.workers| && 0 <= w < |s'.workers|
                               && Owns(s'.workers[v], c) && Owns(s'.workers[w], c)) ==> v == w
  {
    RunKeepsExclusive(rows, timeout, s, steps, s');
  }

  // ---------- runs without errors ----------

  predicate ErrorFree(step: Step) {
    match step
    case Claim(_, _, locked) => locked == {}
    case NoClaim(_, locked) => locked == {}
    case Redo(_) => false
    case FailChunk(_) => false
    case ReleaseChunk(_) => false
    case Recount(_) => false
    case GiveUpMark(_) => false
    case Crash(_) => false
    case Join(_) => false
    case _ => true
  }

  predicate Work(step: Step) {
    !step.Tick? && !step.Beat?
  }

  ghost predicate CleanRun<R>(rows: seq<seq<R>>, timeout: nat, s: State<R>, steps: seq<Step>, s': State<R>)
    requires Valid(rows, s)
    decreases |steps|
  {
    if steps == [] then s' == s
    else
      && Enabled(rows, timeout, s, steps[0]) && ErrorFree(steps[0]) && Fresh(s, timeout)
      && (StepKeepsValid(rows, timeout, s, steps[0]);
          CleanRun(rows, timeout, Do(rows, timeout, s, steps[0]), steps[1..], s'))
  }

  // How far the chunk is: by its status, and by its owner while it is in progress.
  ghost predicate ChunkClean<R>(rows: seq<seq<R>>, s: State<R>, c: nat)
    requires Valid(rows, s) && c < |rows|
  {
    match s.chunks[c].status
    case Pending => s.handed[c] == []
    case InProgress => exists w :: 0 <= w < |s.workers| && Owns(s.workers[w], c)
    case Completed => s.handed[c] == rows[c]
  }

  ghost predicate WorkerClean<R>(rows: seq<seq<R>>, s: State<R>, w: Worker)
    requires Valid(rows, s) && ValidWorker(rows, w)
  {
    match w
    case Working(c, g) => s.handed[c] == rows[c][..g]
    case Given(c) => s.handed[c] == rows[c]
    case Counting(_) => true
    case Idle => true
    case Checking => NonePending(s.chunks)
    case Marking => AllCompleted(s.chunks)
    case Stopped => NonePending(s.chunks)
  }

  ghost predicate NonePending(chunks: seq<ChunkRow>) {
    forall c :: 0 <= c < |chunks| ==> !chunks[c].status.Pending?
  }

  // Someone is still going to look whether the job is complete.
  ghost predicate WillCheck<R>(s: State<R>) {
    exists w :: 0 <= w < |s.workers| && (s.workers[w].Idle? || s.workers[w].Counting?
                                         || s.workers[w].Checking? || s.workers[w].Marking?)
  }

  function CompletedCount(chunks: seq<ChunkRow>): nat {
    if chunks == [] then 0
    else CompletedCount(chunks[..|chunks| - 1]) + (if chunks[|chunks| - 1].status.Completed? then 1 else 0)
  }

  function CountingCount(workers: seq<Worker>): nat {
    if workers == [] then 0
    else CountingCount(workers[..|workers| - 1]) + (if workers[|workers| - 1].Counting? then 1 else 0)
  }

  ghost predicate Clean<R>(rows: seq<seq<R>>, s: State<R>)
    requires Valid(rows, s)
  {
    && Exclusive(s) && OwnedInProgress(s)
    && (forall c: nat :: c < |rows| ==> ChunkClean(rows, s, c))
    && (forall w :: 0 <= w < |s.workers| ==> WorkerClean(rows, s, s.workers[w]))
    && s.job.total == |rows|
    && s.job.counter + CountingCount(s.workers) == CompletedCount(s.chunks)
    && (s.chunks != [] && AllCompleted(s.chunks) ==> s.job.completed || WillCheck(s))
  }

  lemma {:induction false} CompletedUpdate(chunks: seq<ChunkRow>, c: nat, row: ChunkRow)
    requires c < |chunks|
    ensures CompletedCount(chunks[c := row]) ==
            CompletedCount(chunks) + (if row.status.Completed? then 1 else 0)
                                   - (if chunks[c].status.Completed? then 1 else 0)
  {
    var n := |chunks| - 1;
    if c == n {
      assert chunks[c := row][..n] == chunks[..n];
    } else {
      assert chunks[c := row][..n] == chunks[..n][c := row];
      CompletedUpdate(chunks[..n], c, row);
    }
  }

  lemma {:induction false} CountingUpdate(workers: seq<Worker>, w: nat, x: Worker)
    requires w < |workers|
    ensures CountingCount(workers[w := x]) ==
            CountingCount(workers) + (if x.Counting? then 1 else 0) - (if workers[w].Counting? then 1 else 0)
  {
    var n := |workers| - 1;
    if w == n {
      assert workers[w := x][..n] == workers[..n];
    } else {
      assert workers[w := x][..n] == workers[..n][w := x];
      CountingUpdate(workers[..n], w, x);
    }
  }

  lemma {:induction false} AllCompletedCount(chunks: seq<ChunkRow>)
    ensures CompletedCount(chunks) <= |chunks|
    ensures AllCompleted(chunks) ==> CompletedCount(chunks) == |chunks|
  {
    if chunks != [] {
      AllCompletedCount(chunks[..|chunks| - 1]);
      assert AllCompleted(chunks) ==> AllCompleted(chunks[..|chunks| - 1]);
    }
  }

  lemma {:induction false} NoneCounting(workers: seq<Worker>)
    requires forall w :: 0 <= w < |workers| ==> !workers[w].Counting?
    ensures CountingCount(workers) == 0
  {
    if workers != [] {
      NoneCounting(workers[..|workers| - 1]);
    }
  }

  lemma {:induction false} NoneCompleted(chunks: seq<ChunkRow>)
    requires forall c :: 0 <= c < |chunks| ==> chunks[c].status.Pending?
    ensures CompletedCount(chunks) == 0
  {
    if chunks != [] {
      NoneCompleted(chunks[..|chunks| - 1]);
    }
  }

  lemma InitClean<R>(rows: seq<seq<R>>, s: State<R>)
    requires Init(rows, s) && Valid(rows, s)
    ensures Clean(rows, s)
  {
    NoneCounting(s.workers);
    NoneCompleted(s.chunks);
    if s.chunks != [] {
      assert !s.chunks[0].status.Completed?;
    }
  }

  // Without errors only pending chunks are claimed.
  lemma CleanClaimIsPending<R>(rows: seq<seq<R>>, timeout: nat, s: State<R>, w: nat, c: nat)
    requires Valid(rows, s) && Clean(rows, s) && Fresh(s, timeout)
    requires Enabled(rows, timeout, s, Claim(w, c, {}))
    ensures c < |rows| && s.chunks[c].status.Pending?
  {
    if s.chunks[c].status.InProgress? {
      assert ChunkClean(rows, s, c);
      var v :| 0 <= v < |s.workers| && Owns(s.workers[v], c);
      FreshNotClaimable(s, timeout, v, c);
    }
  }

  // A clean step: enabled, without error, with fresh heartbeats.
  ghost predicate CleanStep<R>(rows: seq<seq<R>>, timeout: nat, s: State<R>, step: Step)
    requires Valid(rows, s)
  {
    Clean(rows, s) && Fresh(s, timeout) && ErrorFree(step) && Enabled(rows, timeout, s, step)
  }

  // A claim completes nothing; a mark completes a chunk that is still to be counted.
  lemma ChunkCounted<R>(rows: seq<seq<R>>, timeout: nat, s: State<R>, step: Step)
    requires Valid(rows, s) && CleanStep(rows, timeout, s, step) && (step.Claim? || step.MarkChunk?)
    ensures var s' := Do(rows, timeout, s, step);
            s'.job.total == |rows| && s'.job.counter + CountingCount(s'.workers) == CompletedCount(s'.chunks)
  {
    hide IsClaim, NothingToClaim, Fresh, WorkerClean, WillCheck, Exclusive, AllCompleted, CompletedCount,
         CountingCount;
    var s' := Do(rows, timeout, s, step);
    var w := step.w;
    var c := if step.Claim? then step.c else s.workers[w].chunk;
    if step.Claim? {
      CleanClaimIsPending(rows, timeout, s, w, c);
    } else {
      assert Owns(s.workers[w], c);
    }
    CompletedUpdate(s.chunks, c, s'.chunks[c]);
    CountingUpdate(s.workers, w, s'.workers[w]);
  }

  lemma CountsKept<R>(rows: seq<seq<R>>, timeout: nat, s: State<R>, step: Step)
    requires Valid(rows, s) && CleanStep(rows, timeout, s, step)
    ensures var s' := Do(rows, timeout, s, step);
            s'.job.total == |rows| && s'.job.counter + CountingCount(s'.workers) == CompletedCount(s'.chunks)
  {
    hide IsClaim, NothingToClaim, Fresh, ChunkClean, WorkerClean, WillCheck, Exclusive, AllCompleted;
    var s' := Do(rows, timeout, s, step);
    match step
    case Tick(_) =>
    case Beat(c) => CompletedUpdate(s.chunks, c, s'.chunks[c]);
    case Claim(_, _, _) => ChunkCounted(rows, timeout, s, step);
    case MarkChunk(_) => ChunkCounted(rows, timeout, s, step);
    case NoClaim(w, _) => CountingUpdate(s.workers, w, s'.workers[w]);
    case Give(w) => CountingUpdate(s.workers, w, s'.workers[w]);
    case EndChunk(w) => CountingUpdate(s.workers, w, s'.workers[w]);
    case CountChunk(w) => CountingUpdate(s.workers, w, s'.workers[w]);
    case Check(w) => CountingUpdate(s.workers, w, s'.workers[w]);
    case MarkJob(w) => CountingUpdate(s.workers, w, s'.workers[w]);
    case _ =>
  }

  // A chunk whose row, log and owner a step does not touch stays as it is.
  lemma ChunkKept<R>(rows: seq<seq<R>>, timeout: nat, s: State<R>, step: Step, c: nat)
    requires Valid(rows, s) && CleanStep(rows, timeout, s, step) && c < |rows|
    ensures Valid(rows, Do(rows, timeout, s, step)) && ChunkClean(rows, Do(rows, timeout, s, step), c)
  {
    hide IsClaim, NothingToClaim, Fresh, WillCheck, AllCompleted, CompletedCount, CountingCount;
    StepKeepsValid(rows, timeout, s, step);
    var s' := Do(rows, timeout, s, step);
    assert ChunkClean(rows, s, c);
    if step.Claim? {
      CleanClaimIsPending(rows, timeout, s, step.w, step.c);
    }
    if s.chunks[c].status.InProgress? {
      var v :| 0 <= v < |s.workers| && Owns(s.workers[v], c);
      if s'.chunks[c].status.InProgress? {
        assert Owns(s'.workers[v], c);
      } else {
        // the owner marked it
        assert step.MarkChunk? && Owns(s.workers[step.w], c);
        assert WorkerClean(rows, s, s.workers[step.w]);
      }
    } else if step.Claim? && step.c == c {
      assert Owns(s'.workers[step.w], c);
    } else if step.Give? {
      assert Owns(s.workers[step.w], s.workers[step.w].chunk);
    } else if step.MarkChunk? {
      assert Owns(s.workers[step.w], s.workers[step.w].chunk);
    }
  }

  lemma WorkerKeptClaim<R>(rows: seq<seq<R>>, timeout: nat, s: State<R>, step: Step, v: nat)
    requires Valid(rows, s) && CleanStep(rows, timeout, s, step) && v < |s.workers| && step.Claim?
    requires Valid(rows, Do(rows, timeout, s, step))
    ensures WorkerClean(rows, Do(rows, timeout, s, step), Do(rows, timeout, s, step).workers[v])
  {
    hide IsClaim, NothingToClaim, Fresh, WillCheck, CompletedCount, CountingCount, Claimable, Exclusive;
    assert WorkerClean(rows, s, s.workers[v]);
    CleanClaimIsPending(rows, timeout, s, step.w, step.c);
    assert ChunkClean(rows, s, step.c);
  }

  lemma WorkerKeptGive<R>(rows: seq<seq<R>>, timeout: nat, s: State<R>, step: Step, v: nat)
    requires Valid(rows, s) && CleanStep(rows, timeout, s, step) && v < |s.workers| && step.Give?
    requires Valid(rows, Do(rows, timeout, s, step))
    ensures WorkerClean(rows, Do(rows, timeout, s, step), Do(rows, timeout, s, step).workers[v])
  {
    hide IsClaim, NothingToClaim, Fresh, WillCheck, CompletedCount, CountingCount, Claimable, ChunkClean, AllCompleted;
    hide NonePending;
    var w := step.w;
    var c, g := s.workers[w].chunk, s.workers[w].given;
    assert WorkerClean(rows, s, s.workers[v]) && WorkerClean(rows, s, s.workers[w]);
    assert rows[c][..g + 1] == rows[c][..g] + [rows[c][g]];
    assert Owns(s.workers[w], c);
    if v != w && (s.workers[v].Working? || s.workers[v].Given?) {
      assert Owns(s.workers[v], s.workers[v].chunk);
    }
  }

  // Steps that only look, and those that mark: nothing a worker knows is undone.
  lemma WorkerKeptOther<R>(rows: seq<seq<R>>, timeout: nat, s: State<R>, step: Step, v: nat)
    requires Valid(rows, s) && CleanStep(rows, timeout, s, step) && v < |s.workers| && !step.Claim? && !step.Give?
    requires Valid(rows, Do(rows, timeout, s, step))
    ensures WorkerClean(rows, Do(rows, timeout, s, step), Do(rows, timeout, s, step).workers[v])
  {
    hide IsClaim, NothingToClaim, Fresh, WillCheck, CompletedCount, CountingCount, Claimable, ChunkClean, Exclusive;
    assert WorkerClean(rows, s, s.workers[v]);
    if step.EndChunk? {
      var c := s.workers[step.w].chunk;
      assert rows[c][..|rows[c]|] == rows[c];
    } else if step.NoClaim? {
      NothingPending(s.chunks, s.now, timeout);
    }
  }

  lemma WorkerKept<R>(rows: seq<seq<R>>, timeout: nat, s: State<R>, step: Step, v: nat)
    requires Valid(rows, s) && CleanStep(rows, timeout, s, step) && v < |s.workers|
    ensures Valid(rows, Do(rows, timeout, s, step))
    ensures WorkerClean(rows, Do(rows, timeout, s, step), Do(rows, timeout, s, step).workers[v])
  {
    hide Do, WorkerClean, Clean, Fresh, IsClaim, NothingToClaim;
    StepKeepsValid(rows, timeout, s, step);
    if step.Claim? {
      WorkerKeptClaim(rows, timeout, s, step, v);
    } else if step.Give? {
      WorkerKeptGive(rows, timeout, s, step, v);
    } else {
      WorkerKeptOther(rows, timeout, s, step, v);
    }
  }

  lemma NothingPending(chunks: seq<ChunkRow>, now: int, timeout: nat)
    requires NothingToClaim(chunks, {}, now, timeout)
    ensures NonePending(chunks)
  {
    assert forall d: nat :: d < |chunks| ==> !Claimable(chunks[d], now, timeout);
  }

  lemma CheckKept<R>(rows: seq<seq<R>>, timeout: nat, s: State<R>, step: Step)
    requires Valid(rows, s) && CleanStep(rows, timeout, s, step)
    ensures var s' := Do(rows, timeout, s, step);
            s'.chunks != [] && AllCompleted(s'.chunks) ==> s'.job.completed || WillCheck(s')
  {
    hide IsClaim, NothingToClaim, Fresh, ChunkClean, WorkerClean, CompletedCount, CountingCount, Exclusive;
    var s' := Do(rows, timeout, s, step);
    if step.Claim? {
      ClaimRange(s.chunks, step.c, {}, s.now, timeout);
      assert s'.chunks[step.c].status.InProgress?;
    } else if s'.chunks != [] && AllCompleted(s'.chunks) && !s'.job.completed {
      match step
      case Tick(_) =>
      case Beat(c) =>
        assert forall d :: 0 <= d < |s.chunks| ==> s.chunks[d].status == s'.chunks[d].status;
        WillCheckKept(s, s');
      case MarkChunk(w) => assert s'.workers[w].Counting?;
      case CountChunk(w) => assert s'.workers[w].Idle?;
      case NoClaim(w, _) => assert s'.workers[w].Checking?;
      case Check(w) => assert s'.workers[w].Marking?;
      case Give(w) => WillCheckMoved(s, s', w);
      case EndChunk(w) => WillCheckMoved(s, s', w);
      case _ =>
    }
  }

  lemma WillCheckKept<R>(s: State<R>, s': State<R>)
    requires WillCheck(s) && s'.workers == s.workers
    ensures WillCheck(s')
  {
  }

  // A worker that is busy with a chunk was not the one that is going to check.
  lemma WillCheckMoved<R>(s: State<R>, s': State<R>, w: nat)
    requires WillCheck(s) && w < |s.workers| && s.workers[w].Working?
    requires |s'.workers| == |s.workers|
    requires forall v :: 0 <= v < |s.workers| && v != w ==> s'.workers[v] == s.workers[v]
    ensures WillCheck(s')
  {
    var v :| 0 <= v < |s.workers| && (s.workers[v].Idle? || s.workers[v].Counting?
                                      || s.workers[v].Checking? || s.workers[v].Marking?);
    assert s'.workers[v] == s.workers[v];
  }

  lemma StepKeepsClean<R>(rows: seq<seq<R>>, timeout: nat, s: State<R>, step: Step)
    requires Valid(rows, s) && CleanStep(rows, timeout, s, step)
    ensures Valid(rows, Do(rows, timeout, s, step)) && Clean(rows, Do(rows, timeout, s, step))
  {
    hide Do, Enabled, ChunkClean, WorkerClean, Exclusive, OwnedInProgress, Fresh, WillCheck, AllCompleted;
    StepKeepsValid(rows, timeout, s, step);
    StepKeepsExclusive(rows, timeout, s, step);
    CountsKept(rows, timeout, s, step);
    CheckKept(rows, timeout, s, step);
    var s' := Do(rows, timeout, s, step);
    WorkersStay(rows, timeout, s, step);
    forall c: nat | c < |rows| ensures ChunkClean(rows, s', c) {
      ChunkKept(rows, timeout, s, step, c);
    }
    forall w: nat | w < |s'.workers| ensures WorkerClean(rows, s', s'.workers[w]) {
      WorkerKept(rows, timeout, s, step, w);
    }
  }

  lemma WorkersStay<R>(rows: seq<seq<R>>, timeout: nat, s: State<R>, step: Step)
    requires Valid(rows, s) && Enabled(rows, timeout, s, step)
    ensures |Do(rows, timeout, s, step).workers| == |s.workers|
  {
    hide IsClaim, NothingToClaim;
  }

  lemma {:induction false} RunKeepsClean<R>(rows: seq<seq<R>>, timeout: nat, s: State<R>, steps: seq<Step>,
                                            s': State<R>)
    requires Valid(rows, s) && Clean(rows, s) && CleanRun(rows, timeout, s, steps, s')
    ensures Valid(rows, s') && Clean(rows, s') && |s'.workers| == |s.workers|
    decreases |steps|
  {
    hide Clean, Fresh, Enabled, Do;
    if steps != [] {
      StepKeepsClean(rows, timeout, s, steps[0]);
      WorkersStay(rows, timeout, s, steps[0]);
      RunKeepsClean(rows, timeout, Do(rows, timeout, s, steps[0]), steps[1..], s');
    }
  }

  /** Exactly once: when a run without errors and stale heartbeats ends, with any number of workers,
      every row was handed over exactly once and in order, the job is completed, and the counter
      equals the number of chunks. */
  lemma CleanRunHandsEachRowOnce<R>(rows: seq<seq<R>>, timeout: nat, s: State<R>, steps: seq<Step>, s': State<R>)
    requires Init(rows, s) && Valid(rows, s) && CleanRun(rows, timeout, s, steps, s')
    requires rows != [] && s.workers != []
    requires forall w :: 0 <= w < |s'.workers| ==> s'.workers[w].Stopped?
    ensures s'.handed == rows && multiset(Flatten(s'.handed)) == multiset(Flatten(rows))
    ensures s'.job == JobRow(|rows|, |rows|, true)
  {
    InitClean(rows, s);
    RunKeepsClean(rows, timeout, s, steps, s');
    assert WorkerClean(rows, s', s'.workers[0]);
    forall c: nat | c < |rows| ensures s'.chunks[c].status.Completed? && s'.handed[c] == rows[c] {
      assert ChunkClean(rows, s', c);
    }
    NoneCounting(s'.workers);
    AllCompletedCount(s'.chunks);
  }
}
