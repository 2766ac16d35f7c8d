/** Many workers on one snapshot job, step by step, with failures, retries, releases, crashes and
    stale reclaims. One epoch: the chunk rows are written before the job row and not cleaned up. */
module SnapshotProtocol {
  import opened Wrappers
  import opened SnapshotTables

  datatype Worker =
    | Idle
    | Working(chunk: nat, given: nat)  // rows handed in the current attempt
    | Given(chunk: nat)                // all rows handed, transaction committed
    | Counting(chunk: nat)             // chunk row marked, counter not yet incremented
    | Checking
    | Marking
    | Stopped

  datatype State<R> = State(
    chunks: seq<ChunkRow>,
    job: JobRow,
    workers: seq<Worker>,
    now: int,
    handed: seq<seq<R>>)  // history: what handlers were given, by chunk

  datatype Step =
    | Tick(ms: nat)
    | Claim(w: nat, c: nat, locked: set<nat>)
    | NoClaim(w: nat, locked: set<nat>)
    | Give(w: nat)
    | Redo(w: nat)         // transient error: the chunk transaction is retried from its first row
    | EndChunk(w: nat)
    | FailChunk(w: nat)    // other error: the worker goes on, the chunk stays claimed
    | ReleaseChunk(w: nat) // invalid snapshot: back to pending, the worker stops
    | MarkChunk(w: nat)
    | CountChunk(w: nat)
    | Recount(w: nat)      // the statements took effect but their reply was lost: they are retried
    | GiveUpMark(w: nat)   // marking failed: the worker goes on
    | Check(w: nat)
    | MarkJob(w: nat)
    | Beat(c: nat)         // any worker's heartbeat, possibly for a chunk it no longer owns
    | Crash(w: nat)
    | Join(w: nat)

  function At<R>(s: State<R>, w: nat): Worker {
    if w < |s.workers| then s.workers[w] else Stopped
  }

  ghost predicate Enabled<R>(rows: seq<seq<R>>, timeout: nat, s: State<R>, step: Step) {
    match step
    case Tick(_) => true
    case Claim(w, c, locked) => At(s, w).Idle? && IsClaim(s.chunks, c, locked, s.now, timeout)
    case NoClaim(w, locked) => At(s, w).Idle? && NothingToClaim(s.chunks, locked, s.now, timeout)
    case Give(w) => At(s, w).Working? && At(s, w).chunk < |rows| && At(s, w).given < |rows[At(s, w).chunk]|
    case Redo(w) => At(s, w).Working?
    case EndChunk(w) => At(s, w).Working? && At(s, w).chunk < |rows| && At(s, w).given == |rows[At(s, w).chunk]|
    case FailChunk(w) => At(s, w).Working?
    case ReleaseChunk(w) => At(s, w).Working?
    case MarkChunk(w) => At(s, w).Given?
    case CountChunk(w) => At(s, w).Counting?
    case Recount(w) => At(s, w).Counting?
    case GiveUpMark(w) => At(s, w).Given? || At(s, w).Counting?
    case Check(w) => At(s, w).Checking?
    case MarkJob(w) => At(s, w).Marking?
    case Beat(c) => c < |s.chunks|
    case Crash(w) => w < |s.workers|
    case Join(w) => w < |s.workers| && At(s, w).Stopped?
  }

  ghost function Do<R>(rows: seq<seq<R>>, timeout: nat, s: State<R>, step: Step): State<R>
    requires Valid(rows, s) && Enabled(rows, timeout, s, step)
  {
    match step
    case Tick(ms) => s.(now := s.now + ms)
    case Claim(w, c, _) =>
      s.(chunks := Claimed(s.chunks, c, w, s.now), workers := s.workers[w := Working(c, 0)])
    case NoClaim(w, _) => s.(workers := s.workers[w := Checking])
    case Give(w) =>
      var c, g := s.workers[w].chunk, s.workers[w].given;
      s.(workers := s.workers[w := Working(c, g + 1)], handed := s.handed[c := s.handed[c] + [rows[c][g]]])
    case Redo(w) => s.(workers := s.workers[w := Working(s.workers[w].chunk, 0)])
    case EndChunk(w) => s.(workers := s.workers[w := Given(s.workers[w].chunk)])
    case FailChunk(w) => s.(workers := s.workers[w := Idle])
    case ReleaseChunk(w) =>
      s.(chunks := Released(s.chunks, s.workers[w].chunk), workers := s.workers[w := Stopped])
    case MarkChunk(w) =>
      s.(chunks := Finished(s.chunks, s.workers[w].chunk), workers := s.workers[w := Counting(s.workers[w].chunk)])
    case CountChunk(w) =>
      s.(job := s.job.(counter := s.job.counter + 1), workers := s.workers[w := Idle])
    case Recount(w) =>
      s.(chunks := Finished(s.chunks, s.workers[w].chunk), job := s.job.(counter := s.job.counter + 1))
    case GiveUpMark(w) => s.(workers := s.workers[w := Idle])
    case Check(w) =>
      s.(workers := s.workers[w := if s.chunks != [] && AllCompleted(s.chunks) then Marking else Stopped])
    case MarkJob(w) => s.(job := s.job.(completed := true), workers := s.workers[w := Stopped])
    case Beat(c) => s.(chunks := Beaten(s.chunks, c, s.now))
    case Crash(w) => s.(workers := s.workers[w := Stopped])
    case Join(w) => s.(workers := s.workers[w := Idle])
  }

  ghost predicate Valid<R>(rows: seq<seq<R>>, s: State<R>) {
    && |s.chunks| == |s.handed| == |rows|
    && (forall w :: 0 <= w < |s.workers| ==> ValidWorker(rows, s.workers[w]))
  }

  ghost predicate ValidWorker<R>(rows: seq<seq<R>>, w: Worker) {
    match w
    case Working(c, g) => c < |rows| && g <= |rows[c]|
    case Given(c) => c < |rows|
    case Counting(c) => c < |rows|
    case _ => true
  }

  ghost predicate Init<R>(rows: seq<seq<R>>, s: State<R>) {
    && |s.chunks| == |s.handed| == |rows|
    && (forall c :: 0 <= c < |s.chunks| ==> s.chunks[c].status.Pending? && s.handed[c] == [])
    && s.job == JobRow(|s.chunks|, 0, false)
    && (forall w :: 0 <= w < |s.workers| ==> s.workers[w].Idle?)
  }

  ghost predicate Run<R>(rows: seq<seq<R>>, timeout: nat, s: State<R>, steps: seq<Step>, s': State<R>)
    requires Valid(rows, s)
    decreases |steps|
  {
    if steps == [] then s' == s
    else
      Enabled(rows, timeout, s, steps[0])
      && (StepKeepsValid(rows, timeout, s, steps[0]);
          Run(rows, timeout, Do(rows, timeout, s, steps[0]), steps[1..], s'))
  }

  lemma StepKeepsValid<R>(rows: seq<seq<R>>, timeout: nat, s: State<R>, step: Step)
    requires Valid(rows, s) && Enabled(rows, timeout, s, step)
    ensures Valid(rows, Do(rows, timeout, s, step))
  {
    hide IsClaim, NothingToClaim, AllCompleted;
    if step.Claim? {
      assert step.c < |rows| by {
        ClaimRange(s.chunks, step.c, step.locked, s.now, timeout);
      }
    }
  }

  lemma ClaimRange(chunks: seq<ChunkRow>, c: nat, locked: set<nat>, now: int, timeout: nat)
    requires IsClaim(chunks, c, locked, now, timeout)
    ensures c < |chunks| && c !in locked && Claimable(chunks[c], now, timeout)
  {
  }

  // ---------- completion means everything was handed over ----------

  ghost predicate HandedFirst<R>(rows: seq<R>, n: nat, handed: seq<R>)
    requires n <= |rows|
  {
    forall i :: 0 <= i < n ==> rows[i] in handed
  }

  ghost predicate AllHanded<R>(rows: seq<seq<R>>, handed: seq<seq<R>>) {
    |rows| == |handed| && forall c :: 0 <= c < |rows| ==> HandedFirst(rows[c], |rows[c]|, handed[c])
  }

  ghost predicate WorkerSafe<R>(rows: seq<seq<R>>, handed: seq<seq<R>>, w: Worker)
    requires |handed| == |rows| && ValidWorker(rows, w)
  {
    match w
    case Working(c, g) => HandedFirst(rows[c], g, handed[c])
    case Given(c) => HandedFirst(rows[c], |rows[c]|, handed[c])
    case Counting(c) => HandedFirst(rows[c], |rows[c]|, handed[c])
    case Marking => AllHanded(rows, handed)
    case _ => true
  }

  // A completed chunk may become pending again, but what was handed over stays handed over.
  ghost predicate Safe<R>(rows: seq<seq<R>>, s: State<R>)
    requires Valid(rows, s)
  {
    && (forall c :: 0 <= c < |rows| && s.chunks[c].status.Completed? ==>
          HandedFirst(rows[c], |rows[c]|, s.handed[c]))
    && (forall w :: 0 <= w < |s.workers| ==> WorkerSafe(rows, s.handed, s.workers[w]))
    && (s.job.completed ==> AllHanded(rows, s.handed))
  }

  lemma GiveKeepsSafe<R>(rows: seq<seq<R>>, timeout: nat, s: State<R>, w: nat)
    requires Valid(rows, s) && Safe(rows, s) && Enabled(rows, timeout, s, Give(w))
    ensures Valid(rows, Do(rows, timeout, s, Give(w))) && Safe(rows, Do(rows, timeout, s, Give(w)))
  {
    StepKeepsValid(rows, timeout, s, Give(w));
    var s' := Do(rows, timeout, s, Give(w));
    var c, g := s.workers[w].chunk, s.workers[w].given;
    assert forall d, x :: 0 <= d < |rows| && x in s.handed[d] ==> x in s'.handed[d];
    assert s'.handed[c][|s.handed[c]|] == rows[c][g];
    forall v | 0 <= v < |s'.workers| ensures WorkerSafe(rows, s'.handed, s'.workers[v]) {
      assert WorkerSafe(rows, s.handed, s.workers[v]);
    }
  }

  lemma StepKeepsSafe<R>(rows: seq<seq<R>>, timeout: nat, s: State<R>, step: Step)
    requires Valid(rows, s) && Safe(rows, s) && Enabled(rows, timeout, s, step)
    ensures Valid(rows, Do(rows, timeout, s, step)) && Safe(rows, Do(rows, timeout, s, step))
  {
    StepKeepsValid(rows, timeout, s, step);
    var s' := Do(rows, timeout, s, step);
    if step.Give? {
      GiveKeepsSafe(rows, timeout, s, step.w);
    } else {
      hide IsClaim, NothingToClaim, HandedFirst;
      assert s'.handed == s.handed;
      if step.Claim? {
        ClaimRange(s.chunks, step.c, step.locked, s.now, timeout);
      }
      forall v | 0 <= v < |s'.workers| ensures WorkerSafe(rows, s'.handed, s'.workers[v]) {
        assert WorkerSafe(rows, s.handed, s.workers[v]);
        NothingHandedYet(rows, s.handed);
      }
      NothingHandedYet(rows, s.handed);
      if step.MarkJob? {
        assert WorkerSafe(rows, s.handed, s.workers[step.w]);
      }
      if step.MarkChunk? || step.Recount? {
        assert WorkerSafe(rows, s.handed, s.workers[step.w]);
      }
    }
  }

  lemma NothingHandedYet<R>(rows: seq<seq<R>>, handed: seq<seq<R>>)
    requires |rows| == |handed|
    ensures forall c :: 0 <= c < |rows| ==> HandedFirst(rows[c], 0, handed[c])
  {
  }

  lemma {:induction false} RunKeepsSafe<R>(rows: seq<seq<R>>, timeout: nat, s: State<R>, steps: seq<Step>,
                                           s': State<R>)
    requires Valid(rows, s) && Safe(rows, s) && Run(rows, timeout, s, steps, s')
    ensures Valid(rows, s') && Safe(rows, s')
    decreases |steps|
  {
    hide Safe;
    if steps != [] {
      StepKeepsSafe(rows, timeout, s, steps[0]);
      RunKeepsSafe(rows, timeout, Do(rows, timeout, s, steps[0]), steps[1..], s');
    }
  }

  // Handlers are given rows of the chunk and nothing else.
  ghost predicate OnlyRows<R>(rows: seq<seq<R>>, handed: seq<seq<R>>) {
    |rows| == |handed| && forall c, x :: 0 <= c < |rows| && x in handed[c] ==> x in rows[c]
  }

  lemma {:induction false} RunKeepsOnlyRows<R>(rows: seq<seq<R>>, timeout: nat, s: State<R>, steps: seq<Step>,
                                               s': State<R>)
    requires Valid(rows, s) && OnlyRows(rows, s.handed) && Run(rows, timeout, s, steps, s')
    ensures OnlyRows(rows, s'.handed)
    decreases |steps|
  {
    hide IsClaim, NothingToClaim;
    if steps != [] {
      StepKeepsValid(rows, timeout, s, steps[0]);
      RunKeepsOnlyRows(rows, timeout, Do(rows, timeout, s, steps[0]), steps[1..], s');
    }
  }

  /** In every interleaving, with failing chunks, retries, releases, crashes, stale reclaims and
      double completion, a completed job means that every row of every chunk was handed to a
      handler at least once. */
  lemma CompletedJobHandedEverything<R>(rows: seq<seq<R>>, timeout: nat, s: State<R>, steps: seq<Step>,
                                        s': State<R>)
    requires Init(rows, s) && Valid(rows, s) && Run(rows, timeout, s, steps, s')
    requires s'.job.completed
    ensures AllHanded(rows, s'.handed)
  {
    RunKeepsSafe(rows, timeout, s, steps, s');
  }
}
