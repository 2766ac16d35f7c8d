/** Runs without errors end: every step but ticks and heartbeats uses up a bounded budget, and as
    long as a worker has not stopped one of these steps is possible. */
module SnapshotProgress {
  import opened Wrappers
  import opened Seqs
  import opened SnapshotTables
  import opened SnapshotProtocol
  import opened SnapshotRuns

  // Steps the worker can still take before it stops, not counting further chunks.
  function WorkerBudget<R>(rows: seq<seq<R>>, w: Worker): nat {
    match w
    case Working(c, g) => 6 + (if c < |rows| && g < |rows[c]| then |rows[c]| - g else 0)
    case Given(_) => 5
    case Counting(_) => 4
    case Idle => 3
    case Checking => 2
    case Marking => 1
    case Stopped => 0
  }

  function WorkersBudget<R>(rows: seq<seq<R>>, workers: seq<Worker>): nat {
    if workers == [] then 0
    else
      var n := |workers| - 1;
      WorkersBudget(rows, workers[..n]) + WorkerBudget(rows, workers[n])
  }

  // Claiming, reading, marking and counting one chunk.
  function ChunkBudget<R>(rows: seq<R>, c: ChunkRow): nat {
    if c.status.Pending? then |rows| + 4 else 0
  }

  function ChunksBudget<R>(rows: seq<seq<R>>, chunks: seq<ChunkRow>): nat
    requires |rows| == |chunks|
  {
    if chunks == [] then 0
    else
      var n := |chunks| - 1;
      ChunksBudget(rows[..n], chunks[..n]) + ChunkBudget(rows[n], chunks[n])
  }

  function Budget<R>(rows: seq<seq<R>>, s: State<R>): nat
    requires |s.chunks| == |rows|
  {
    WorkersBudget(rows, s.workers) + ChunksBudget(rows, s.chunks)
  }

  function WorkSteps(steps: seq<Step>): nat
    decreases |steps|
  {
    if steps == [] then 0 else (if Work(steps[0]) then 1 else 0) + WorkSteps(steps[1..])
  }

  lemma {:induction false} WorkersBudgetUpdate<R>(rows: seq<seq<R>>, workers: seq<Worker>, w: nat, x: Worker)
    requires w < |workers|
    ensures WorkersBudget(rows, workers[w := x]) ==
            WorkersBudget(rows, workers) + WorkerBudget(rows, x) - WorkerBudget(rows, workers[w])
  {
    hide WorkerBudget;
    var n := |workers| - 1;
    if w == n {
      assert workers[w := x][..n] == workers[..n];
    } else {
      assert workers[w := x][..n] == workers[..n][w := x];
      WorkersBudgetUpdate(rows, workers[..n], w, x);
    }
  }

  lemma {:induction false} ChunksBudgetUpdate<R>(rows: seq<seq<R>>, chunks: seq<ChunkRow>, c: nat, row: ChunkRow)
    requires |rows| == |chunks| && c < |chunks|
    ensures ChunksBudget(rows, chunks[c := row]) ==
            ChunksBudget(rows, chunks) + ChunkBudget(rows[c], row) - ChunkBudget(rows[c], chunks[c])
  {
    hide ChunkBudget;
    var n := |chunks| - 1;
    if c == n {
      assert chunks[c := row][..n] == chunks[..n];
    } else {
      assert chunks[c := row][..n] == chunks[..n][c := row];
      ChunksBudgetUpdate(rows[..n], chunks[..n], c, row);
    }
  }

  // The steps that change both a chunk's row and a worker.
  lemma ChunkUsesBudget<R>(rows: seq<seq<R>>, timeout: nat, s: State<R>, step: Step)
    requires Valid(rows, s) && CleanStep(rows, timeout, s, step) && (step.Claim? || step.MarkChunk?)
    ensures |Do(rows, timeout, s, step).chunks| == |rows|
    ensures Budget(rows, Do(rows, timeout, s, step)) + 1 <= Budget(rows, s)
  {
    hide IsClaim, NothingToClaim, Fresh, Clean, AllCompleted, WorkersBudget, ChunksBudget;
    StepKeepsValid(rows, timeout, s, step);
    var s' := Do(rows, timeout, s, step);
    var w := step.w;
    var c := if step.Claim? then step.c else s.workers[w].chunk;
    if step.Claim? {
      CleanClaimIsPending(rows, timeout, s, w, c);
    }
    ChunksBudgetUpdate(rows, s.chunks, c, s'.chunks[c]);
    WorkersBudgetUpdate(rows, s.workers, w, s'.workers[w]);
  }

  lemma StepUsesBudget<R>(rows: seq<seq<R>>, timeout: nat, s: State<R>, step: Step)
    requires Valid(rows, s) && CleanStep(rows, timeout, s, step)
    ensures |Do(rows, timeout, s, step).chunks| == |rows|
    ensures Budget(rows, Do(rows, timeout, s, step)) + (if Work(step) then 1 else 0) <= Budget(rows, s)
  {
    hide IsClaim, NothingToClaim, Fresh, Clean, AllCompleted, WorkersBudget, ChunksBudget;
    StepKeepsValid(rows, timeout, s, step);
    var s' := Do(rows, timeout, s, step);
    match step
    case Beat(c) => ChunksBudgetUpdate(rows, s.chunks, c, s'.chunks[c]);
    case Claim(_, _, _) => ChunkUsesBudget(rows, timeout, s, step);
    case MarkChunk(_) => ChunkUsesBudget(rows, timeout, s, step);
    case Give(w) => WorkersBudgetUpdate(rows, s.workers, w, s'.workers[w]);
    case EndChunk(w) => WorkersBudgetUpdate(rows, s.workers, w, s'.workers[w]);
    case CountChunk(w) => WorkersBudgetUpdate(rows, s.workers, w, s'.workers[w]);
    case NoClaim(w, _) => WorkersBudgetUpdate(rows, s.workers, w, s'.workers[w]);
    case Check(w) => WorkersBudgetUpdate(rows, s.workers, w, s'.workers[w]);
    case MarkJob(w) => WorkersBudgetUpdate(rows, s.workers, w, s'.workers[w]);
    case _ =>
  }

  lemma {:induction false} RunUsesBudget<R>(rows: seq<seq<R>>, timeout: nat, s: State<R>, steps: seq<Step>,
                                            s': State<R>)
    requires Valid(rows, s) && Clean(rows, s) && CleanRun(rows, timeout, s, steps, s')
    ensures |s'.chunks| == |rows| && Budget(rows, s') + WorkSteps(steps) <= Budget(rows, s)
    decreases |steps|
  {
    hide Clean, Fresh, Enabled, Do, Budget;
    if steps != [] {
      StepKeepsClean(rows, timeout, s, steps[0]);
      StepUsesBudget(rows, timeout, s, steps[0]);
      RunUsesBudget(rows, timeout, Do(rows, timeout, s, steps[0]), steps[1..], s');
    }
  }

  lemma {:induction false} IdleBudget<R>(rows: seq<seq<R>>, workers: seq<Worker>)
    requires forall w :: 0 <= w < |workers| ==> workers[w].Idle?
    ensures WorkersBudget(rows, workers) == 3 * |workers|
  {
    if workers != [] {
      IdleBudget(rows, workers[..|workers| - 1]);
    }
  }

  lemma {:induction false} PendingBudget<R>(rows: seq<seq<R>>, chunks: seq<ChunkRow>)
    requires |rows| == |chunks| && forall c :: 0 <= c < |chunks| ==> chunks[c].status.Pending?
    ensures ChunksBudget(rows, chunks) == |Flatten(rows)| + 4 * |chunks|
  {
    if chunks != [] {
      var n := |chunks| - 1;
      PendingBudget(rows[..n], chunks[..n]);
    }
  }

  /** No run without errors goes on for ever: the number of claims, handed rows, completions and
      checks is bounded by the snapshot, whatever the number of workers and their interleaving. */
  lemma CleanRunIsBounded<R>(rows: seq<seq<R>>, timeout: nat, s: State<R>, steps: seq<Step>, s': State<R>)
    requires Init(rows, s) && Valid(rows, s) && CleanRun(rows, timeout, s, steps, s')
    ensures WorkSteps(steps) <= |Flatten(rows)| + 4 * |rows| + 3 * |s.workers|
  {
    InitClean(rows, s);
    RunUsesBudget(rows, timeout, s, steps, s');
    IdleBudget(rows, s.workers);
    PendingBudget(rows, s.chunks);
  }

  // ---------- no worker is stuck ----------

  lemma {:induction false} LowestClaimable(chunks: seq<ChunkRow>, now: int, timeout: nat, n: nat) returns (c: nat)
    requires n <= |chunks| && exists d: nat :: d < n && Claimable(chunks[d], now, timeout)
    ensures c < n && Claimable(chunks[c], now, timeout)
    ensures forall d: nat :: d < n && Claimable(chunks[d], now, timeout) ==> chunks[c].index <= chunks[d].index
  {
    hide Claimable;
    if exists d: nat :: d < n - 1 && Claimable(chunks[d], now, timeout) {
      c := LowestClaimable(chunks, now, timeout, n - 1);
      if Claimable(chunks[n - 1], now, timeout) && chunks[n - 1].index < chunks[c].index {
        c := n - 1;
      }
    } else {
      c := n - 1;
    }
  }

  ghost predicate CanWork<R>(rows: seq<seq<R>>, timeout: nat, s: State<R>) {
    exists step :: Work(step) && ErrorFree(step) && Enabled(rows, timeout, s, step)
  }

  lemma CanDo<R>(rows: seq<seq<R>>, timeout: nat, s: State<R>, step: Step)
    requires Work(step) && ErrorFree(step) && Enabled(rows, timeout, s, step)
    ensures CanWork(rows, timeout, s)
  {
  }

  lemma WorkerCanGoOn<R>(rows: seq<seq<R>>, timeout: nat, s: State<R>, w: nat)
    requires Valid(rows, s) && w < |s.workers| && !s.workers[w].Stopped?
    ensures CanWork(rows, timeout, s)
  {
    hide CanWork;
    assert ValidWorker(rows, s.workers[w]);
    match s.workers[w]
    case Idle =>
      if exists d: nat :: d < |s.chunks| && Claimable(s.chunks[d], s.now, timeout) {
        var c := LowestClaimable(s.chunks, s.now, timeout, |s.chunks|);
        assert IsClaim(s.chunks, c, {}, s.now, timeout);
        CanDo(rows, timeout, s, Claim(w, c, {}));
      } else {
        assert NothingToClaim(s.chunks, {}, s.now, timeout);
        CanDo(rows, timeout, s, NoClaim(w, {}));
      }
    case Working(c, g) => CanDo(rows, timeout, s, if g < |rows[c]| then Give(w) else EndChunk(w));
    case Given(_) => CanDo(rows, timeout, s, MarkChunk(w));
    case Counting(_) => CanDo(rows, timeout, s, CountChunk(w));
    case Checking => CanDo(rows, timeout, s, Check(w));
    case Marking => CanDo(rows, timeout, s, MarkJob(w));
  }

  /** Where a run without errors has come to its end, every row has been handed over exactly once
      and the job is completed: nothing is left waiting. */
  lemma CleanRunEndsComplete<R>(rows: seq<seq<R>>, timeout: nat, s: State<R>, steps: seq<Step>, s': State<R>)
    requires Init(rows, s) && Valid(rows, s) && CleanRun(rows, timeout, s, steps, s')
    requires rows != [] && s.workers != []
    requires !CanWork(rows, timeout, s')
    ensures s'.handed == rows && s'.job == JobRow(|rows|, |rows|, true)
  {
    hide CanWork, CleanRun, Init;
    InitClean(rows, s);
    RunKeepsClean(rows, timeout, s, steps, s');
    forall w: nat | w < |s'.workers| ensures s'.workers[w].Stopped? {
      if !s'.workers[w].Stopped? {
        WorkerCanGoOn(rows, timeout, s', w);
      }
    }
    CleanRunHandsEachRowOnce(rows, timeout, s, steps, s');
  }

  // ---------- completion can always be reached ----------

  // While the clock stands still every owner's heartbeat is now.
  ghost predicate BeatsNow<R>(s: State<R>) {
    forall w, c: nat :: 0 <= w < |s.workers| && c < |s.chunks| && Owns(s.workers[w], c) ==>
      s.chunks[c].heartbeat == Some(s.now)
  }

  lemma WorkKeepsBeats<R>(rows: seq<seq<R>>, timeout: nat, s: State<R>, step: Step)
    requires Valid(rows, s) && Enabled(rows, timeout, s, step) && Work(step) && ErrorFree(step) && BeatsNow(s)
    ensures BeatsNow(Do(rows, timeout, s, step))
  {
    hide IsClaim, NothingToClaim, AllCompleted;
    if step.Claim? {
      ClaimRange(s.chunks, step.c, step.locked, s.now, timeout);
    }
    var s' := Do(rows, timeout, s, step);
    forall w, c: nat | 0 <= w < |s'.workers| && c < |s'.chunks| && Owns(s'.workers[w], c)
      ensures s'.chunks[c].heartbeat == Some(s'.now)
    {
      OldOwner(rows, timeout, s, step, w, c);
    }
  }

  /** From every state of a run without errors there is a way to go on until all workers have
      stopped. */
  lemma {:induction false} CleanRunExists<R>(rows: seq<seq<R>>, timeout: nat, s: State<R>)
    returns (steps: seq<Step>, s': State<R>)
    requires Valid(rows, s) && Clean(rows, s) && BeatsNow(s)
    ensures CleanRun(rows, timeout, s, steps, s') && Valid(rows, s') && !CanWork(rows, timeout, s')
    decreases Budget(rows, s)
  {
    hide Clean, BeatsNow, Budget, Do, Enabled, Work, ErrorFree;
    if CanWork(rows, timeout, s) {
      var step :| Work(step) && ErrorFree(step) && Enabled(rows, timeout, s, step);
      BeatsAreFresh(s, timeout);
      StepKeepsClean(rows, timeout, s, step);
      StepUsesBudget(rows, timeout, s, step);
      WorkKeepsBeats(rows, timeout, s, step);
      var rest;
      rest, s' := CleanRunExists(rows, timeout, Do(rows, timeout, s, step));
      steps := [step] + rest;
      assert steps[1..] == rest;
    } else {
      steps, s' := [], s;
    }
  }

  lemma BeatsAreFresh<R>(s: State<R>, timeout: nat)
    requires BeatsNow(s)
    ensures Fresh(s, timeout)
  {
  }

  lemma {:induction false} CleanRunIsRun<R>(rows: seq<seq<R>>, timeout: nat, s: State<R>, steps: seq<Step>, s': State<R>)
    requires Valid(rows, s) && CleanRun(rows, timeout, s, steps, s')
    ensures Run(rows, timeout, s, steps, s')
    decreases |steps|
  {
    hide Do, Enabled, ErrorFree, Fresh;
    if steps != [] {
      StepKeepsValid(rows, timeout, s, steps[0]);
      CleanRunIsRun(rows, timeout, Do(rows, timeout, s, steps[0]), steps[1..], s');
    }
  }

  /** Every snapshot job with chunks and a worker can be completed. */
  lemma CompletionReachable<R>(rows: seq<seq<R>>, timeout: nat, s: State<R>) returns (steps: seq<Step>, s': State<R>)
    requires Init(rows, s) && Valid(rows, s) && rows != [] && s.workers != []
    ensures Run(rows, timeout, s, steps, s') && s'.job.completed
  {
    hide CanWork, CleanRun, Run;
    InitClean(rows, s);
    assert BeatsNow(s);
    steps, s' := CleanRunExists(rows, timeout, s);
    CleanRunEndsComplete(rows, timeout, s, steps, s');
    CleanRunIsRun(rows, timeout, s, steps, s');
  }
}
