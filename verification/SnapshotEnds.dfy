/** How runs with failing chunks end: when the job is completed once all workers have stopped, and that it
    stays as it is until a worker joins. */
module SnapshotEnds {
  import opened Wrappers
  import opened SnapshotTables
  import opened SnapshotProtocol

  // Every worker that stops has checked: none crashes and none is stopped by an invalid snapshot. Chunks
  // may fail, be retried and reclaimed, marks may be lost or given up.
  predicate Returns(step: Step) {
    !step.Crash? && !step.ReleaseChunk?
  }

  ghost predicate AllReturn(steps: seq<Step>) {
    forall i :: 0 <= i < |steps| ==> Returns(steps[i])
  }

  ghost predicate AllStopped<R>(s: State<R>) {
    forall w :: 0 <= w < |s.workers| ==> s.workers[w].Stopped?
  }

  ghost predicate Done<R>(s: State<R>) {
    s.chunks != [] && AllCompleted(s.chunks)
  }

  // A completed job, or a worker that is about to mark it, has all chunks completed; and while all chunks
  // are completed the job is, or some worker is still going to look.
  ghost predicate Watched<R>(s: State<R>) {
    && (s.job.completed ==> Done(s))
    && (forall w :: 0 <= w < |s.workers| && s.workers[w].Marking? ==> Done(s))
    && (Done(s) ==> s.job.completed || exists w :: 0 <= w < |s.workers| && !s.workers[w].Stopped?)
  }

  lemma InitWatched<R>(rows: seq<seq<R>>, s: State<R>)
    requires Init(rows, s)
    ensures Watched(s)
  {
    if s.chunks != [] {
      assert s.chunks[0].status.Pending?;
    }
  }

  // Without releases a completed chunk stays completed.
  lemma DoneStays<R>(rows: seq<seq<R>>, timeout: nat, s: State<R>, step: Step)
    requires Valid(rows, s) && Enabled(rows, timeout, s, step) && Returns(step) && Done(s)
    ensures Done(Do(rows, timeout, s, step))
  {
    hide IsClaim, NothingToClaim;
    var s' := Do(rows, timeout, s, step);
    if step.Claim? {
      ClaimRange(s.chunks, step.c, step.locked, s.now, timeout);
    }
    forall c | 0 <= c < |s'.chunks| ensures s'.chunks[c].status.Completed? {
      assert s.chunks[c].status.Completed?;
    }
  }

  // A worker whose step completes the last chunk is still running after it.
  lemma StepKeepsWatched<R>(rows: seq<seq<R>>, timeout: nat, s: State<R>, step: Step)
    requires Valid(rows, s) && Watched(s) && Enabled(rows, timeout, s, step) && Returns(step)
    ensures Watched(Do(rows, timeout, s, step))
  {
    hide IsClaim, NothingToClaim, AllCompleted;
    var s' := Do(rows, timeout, s, step);
    if Done(s) {
      DoneStays(rows, timeout, s, step);
      StillWatched(rows, timeout, s, step);
    } else if Done(s') {
      NewlyDone(rows, timeout, s, step);
      assert !s'.workers[step.w].Stopped?;
    } else {
      assert forall w :: 0 <= w < |s'.workers| && s'.workers[w].Marking? ==> s.workers[w].Marking?;
    }
  }

  lemma StillWatched<R>(rows: seq<seq<R>>, timeout: nat, s: State<R>, step: Step)
    requires Valid(rows, s) && Done(s) && Enabled(rows, timeout, s, step) && Returns(step)
    requires s.job.completed || exists w :: 0 <= w < |s.workers| && !s.workers[w].Stopped?
    ensures var s' := Do(rows, timeout, s, step);
            s'.job.completed || exists w :: 0 <= w < |s'.workers| && !s'.workers[w].Stopped?
  {
    hide IsClaim, NothingToClaim, AllCompleted;
    var s' := Do(rows, timeout, s, step);
    if !s'.job.completed {
      var w :| 0 <= w < |s.workers| && !s.workers[w].Stopped?;
      assert !s'.workers[w].Stopped?;
    }
  }

  // Only marking a chunk can complete the last one.
  lemma OnlyMarks<R>(rows: seq<seq<R>>, timeout: nat, s: State<R>, step: Step)
    requires Valid(rows, s) && Enabled(rows, timeout, s, step) && Returns(step)
    requires !step.MarkChunk? && !step.Recount?
    ensures Done(Do(rows, timeout, s, step)) ==> Done(s)
  {
    hide IsClaim, NothingToClaim;
    var s' := Do(rows, timeout, s, step);
    if step.Claim? {
      ClaimRange(s.chunks, step.c, step.locked, s.now, timeout);
      assert s'.chunks[step.c].status.InProgress?;
    } else {
      assert forall c :: 0 <= c < |s.chunks| ==> s.chunks[c].status == s'.chunks[c].status;
    }
  }

  lemma NewlyDone<R>(rows: seq<seq<R>>, timeout: nat, s: State<R>, step: Step)
    requires Valid(rows, s) && Enabled(rows, timeout, s, step) && Returns(step)
    requires !Done(s) && Done(Do(rows, timeout, s, step))
    ensures (step.MarkChunk? || step.Recount?) && step.w < |s.workers|
    ensures Do(rows, timeout, s, step).workers[step.w].Counting?
    ensures Do(rows, timeout, s, step).job.completed == s.job.completed
  {
    hide IsClaim, NothingToClaim, AllCompleted;
    if !step.MarkChunk? && !step.Recount? {
      OnlyMarks(rows, timeout, s, step);
    }
  }

  lemma {:induction false} RunKeepsWatched<R>(rows: seq<seq<R>>, timeout: nat, s: State<R>, steps: seq<Step>,
                                              s': State<R>)
    requires Valid(rows, s) && Watched(s) && Run(rows, timeout, s, steps, s') && AllReturn(steps)
    ensures Valid(rows, s') && Watched(s')
    decreases |steps|
  {
    hide Watched, Do, Enabled, Returns;
    if steps != [] {
      assert Returns(steps[0]);
      assert forall i :: 0 <= i < |steps[1..]| ==> steps[1..][i] == steps[i + 1];
      StepKeepsValid(rows, timeout, s, steps[0]);
      StepKeepsWatched(rows, timeout, s, steps[0]);
      RunKeepsWatched(rows, timeout, Do(rows, timeout, s, steps[0]), steps[1..], s');
    }
  }

  /** Runs with failing chunks, retries, lost marks and stale reclaims: once all workers have stopped the job
      is completed if and only if there are chunks and every chunk is. A chunk whose last attempt failed
      is enough to leave the job incomplete, although no worker returns an error. */
  lemma StoppedJobIff<R>(rows: seq<seq<R>>, timeout: nat, s: State<R>, steps: seq<Step>, s': State<R>)
    requires Init(rows, s) && Valid(rows, s) && Run(rows, timeout, s, steps, s') && AllReturn(steps)
    requires AllStopped(s')
    ensures s'.job.completed <==> s'.chunks != [] && AllCompleted(s'.chunks)
  {
    InitWatched(rows, s);
    RunKeepsWatched(rows, timeout, s, steps, s');
  }

  /** And then nothing completes the job any more, however long one waits, until a worker joins. */
  lemma {:induction false} StoppedForGood<R>(rows: seq<seq<R>>, timeout: nat, s: State<R>, steps: seq<Step>, s': State<R>)
    requires Valid(rows, s) && AllStopped(s) && Run(rows, timeout, s, steps, s')
    requires forall i :: 0 <= i < |steps| ==> !steps[i].Join?
    ensures AllStopped(s') && s'.job == s.job
    decreases |steps|
  {
    hide IsClaim, NothingToClaim, AllCompleted;
    if steps != [] {
      assert !steps[0].Join?;
      assert forall i :: 0 <= i < |steps[1..]| ==> steps[1..][i] == steps[i + 1];
      StepKeepsValid(rows, timeout, s, steps[0]);
      NothingMoves(rows, timeout, s, steps[0]);
      StoppedForGood(rows, timeout, Do(rows, timeout, s, steps[0]), steps[1..], s');
    }
  }

  lemma NothingMoves<R>(rows: seq<seq<R>>, timeout: nat, s: State<R>, step: Step)
    requires Valid(rows, s) && AllStopped(s) && Enabled(rows, timeout, s, step) && !step.Join?
    ensures AllStopped(Do(rows, timeout, s, step)) && Do(rows, timeout, s, step).job == s.job
  {
    hide IsClaim, NothingToClaim, AllCompleted;
  }

  // One worker, one chunk, one failure: the worker looks for more, finds nothing claimable, finds the job
  // incomplete, and stops.
  lemma FailedChunkStalls<R>(row: R, timeout: nat, s: State<R>) returns (steps: seq<Step>, s': State<R>)
    requires Init([[row]], s) && Valid([[row]], s) && |s.workers| == 1
    ensures steps == [Claim(0, 0, {}), FailChunk(0), NoClaim(0, {}), Check(0)]
    ensures Run([[row]], timeout, s, steps, s') && AllReturn(steps)
    ensures AllStopped(s') && !s'.job.completed && |s'.chunks| == 1 && !s'.chunks[0].status.Completed?
  {
    var rows := [[row]];
    steps := [Claim(0, 0, {}), FailChunk(0), NoClaim(0, {}), Check(0)];
    assert IsClaim(s.chunks, 0, {}, s.now, timeout);
    StepKeepsValid(rows, timeout, s, steps[0]);
    var s1 := Do(rows, timeout, s, steps[0]);
    StepKeepsValid(rows, timeout, s1, steps[1]);
    var s2 := Do(rows, timeout, s1, steps[1]);
    ClaimWindow(s.now, s.now, timeout);
    assert NothingToClaim(s2.chunks, {}, s2.now, timeout);
    StepKeepsValid(rows, timeout, s2, steps[2]);
    var s3 := Do(rows, timeout, s2, steps[2]);
    StepKeepsValid(rows, timeout, s3, steps[3]);
    assert !s3.chunks[0].status.Completed?;
    s' := Do(rows, timeout, s3, steps[3]);
    hide Do, Enabled;
    assert steps[1..] == [FailChunk(0), NoClaim(0, {}), Check(0)];
    assert steps[1..][1..] == [NoClaim(0, {}), Check(0)];
    assert steps[1..][1..][1..] == [Check(0)];
    assert steps[1..][1..][1..][1..] == [];
    assert Run(rows, timeout, s', [], s');
    assert Run(rows, timeout, s3, [Check(0)], s');
    assert Run(rows, timeout, s2, [NoClaim(0, {}), Check(0)], s');
    assert Run(rows, timeout, s1, [FailChunk(0), NoClaim(0, {}), Check(0)], s');
  }
}
