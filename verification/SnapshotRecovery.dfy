/** A job is never lost: from every reachable state, whatever failed or crashed, one worker that is started
    again after the timeout completes it. */
module SnapshotRecovery {
  import opened Wrappers
  import opened SnapshotTables
  import opened SnapshotProtocol
  import opened SnapshotRuns

  // A claimed chunk always has a heartbeat, so that it can become stale.
  ghost predicate Beating(chunks: seq<ChunkRow>) {
    forall c :: 0 <= c < |chunks| && chunks[c].status.InProgress? ==> chunks[c].heartbeat.Some?
  }

  lemma StepKeepsBeating<R>(rows: seq<seq<R>>, timeout: nat, s: State<R>, step: Step)
    requires Valid(rows, s) && Beating(s.chunks) && Enabled(rows, timeout, s, step)
    ensures Beating(Do(rows, timeout, s, step).chunks)
  {
    hide IsClaim, NothingToClaim, AllCompleted;
    if step.Claim? {
      ClaimRange(s.chunks, step.c, step.locked, s.now, timeout);
    }
  }

  lemma {:induction false} RunKeepsBeating<R>(rows: seq<seq<R>>, timeout: nat, s: State<R>, steps: seq<Step>,
                                              s': State<R>)
    requires Valid(rows, s) && Beating(s.chunks) && Run(rows, timeout, s, steps, s')
    ensures Valid(rows, s') && Beating(s'.chunks)
    decreases |steps|
  {
    hide Do, Enabled, Beating;
    if steps != [] {
      StepKeepsValid(rows, timeout, s, steps[0]);
      StepKeepsBeating(rows, timeout, s, steps[0]);
      RunKeepsBeating(rows, timeout, Do(rows, timeout, s, steps[0]), steps[1..], s');
    }
  }

  // ---------- runs one after the other ----------

  lemma {:induction false} RunThen<R>(rows: seq<seq<R>>, timeout: nat, s: State<R>, a: seq<Step>, s1: State<R>,
                                      b: seq<Step>, s2: State<R>)
    requires Valid(rows, s) && Run(rows, timeout, s, a, s1) && Valid(rows, s1) && Run(rows, timeout, s1, b, s2)
    ensures Run(rows, timeout, s, a + b, s2)
    decreases |a|
  {
    hide Do, Enabled;
    if a == [] {
      assert a + b == b;
    } else {
      StepKeepsValid(rows, timeout, s, a[0]);
      assert (a + b)[0] == a[0] && (a + b)[1..] == a[1..] + b;
      RunThen(rows, timeout, Do(rows, timeout, s, a[0]), a[1..], s1, b, s2);
    }
  }

  lemma OneStep<R>(rows: seq<seq<R>>, timeout: nat, s: State<R>, step: Step)
    requires Valid(rows, s) && Enabled(rows, timeout, s, step)
    ensures Valid(rows, Do(rows, timeout, s, step)) && Run(rows, timeout, s, [step], Do(rows, timeout, s, step))
  {
    hide Do, Enabled;
    StepKeepsValid(rows, timeout, s, step);
    assert [step][1..] == [];
  }

  lemma StepThen<R>(rows: seq<seq<R>>, timeout: nat, s: State<R>, step: Step, rest: seq<Step>, s': State<R>)
    requires Valid(rows, s) && Enabled(rows, timeout, s, step)
    requires Valid(rows, Do(rows, timeout, s, step)) && Run(rows, timeout, Do(rows, timeout, s, step), rest, s')
    ensures Run(rows, timeout, s, [step] + rest, s')
  {
    hide Do, Enabled, Run;
    OneStep(rows, timeout, s, step);
    RunThen(rows, timeout, s, [step], Do(rows, timeout, s, step), rest, s');
  }

  // Only worker w moves, and time passes.
  ghost predicate Alone(w: nat, steps: seq<Step>) {
    forall i :: 0 <= i < |steps| ==> MovesOnly(w, steps[i])
  }

  predicate MovesOnly(w: nat, step: Step) {
    match step
    case Tick(_) => true
    case Claim(v, _, locked) => v == w && locked == {}
    case NoClaim(v, locked) => v == w && locked == {}
    case Give(v) => v == w
    case EndChunk(v) => v == w
    case MarkChunk(v) => v == w
    case CountChunk(v) => v == w
    case Check(v) => v == w
    case MarkJob(v) => v == w
    case Crash(v) => v == w
    case Join(v) => v == w
    case _ => false
  }

  // ---------- one chunk ----------

  // What is left of the chunk is handed over.
  lemma {:induction false} GiveRest<R>(rows: seq<seq<R>>, timeout: nat, s: State<R>, w: nat, c: nat, g: nat)
    returns (steps: seq<Step>, s': State<R>)
    requires Valid(rows, s) && w < |s.workers| && c < |rows| && g <= |rows[c]| && s.workers[w] == Working(c, g)
    ensures Run(rows, timeout, s, steps, s') && Valid(rows, s') && Alone(w, steps)
    ensures s' == s.(workers := s.workers[w := Working(c, |rows[c]|)], handed := s'.handed)
    decreases |rows[c]| - g
  {
    hide Run, Valid;
    if g == |rows[c]| {
      steps, s' := [], s;
      assert s.workers[w := Working(c, g)] == s.workers;
      NoSteps(rows, timeout, s);
    } else {
      var next := Do(rows, timeout, s, Give(w));
      StepKeepsValid(rows, timeout, s, Give(w));
      var rest;
      rest, s' := GiveRest(rows, timeout, next, w, c, g + 1);
      steps := [Give(w)] + rest;
      StepThen(rows, timeout, s, Give(w), rest, s');
      assert next.workers[w := Working(c, |rows[c]|)] == s.workers[w := Working(c, |rows[c]|)];
    }
  }

  lemma NoSteps<R>(rows: seq<seq<R>>, timeout: nat, s: State<R>)
    requires Valid(rows, s)
    ensures Run(rows, timeout, s, [], s)
  {
  }

  lemma WorkChunk<R>(rows: seq<seq<R>>, timeout: nat, s: State<R>, w: nat, c: nat)
    returns (steps: seq<Step>, s': State<R>)
    requires Valid(rows, s) && w < |s.workers| && s.workers[w].Idle? && IsClaim(s.chunks, c, {}, s.now, timeout)
    ensures Run(rows, timeout, s, steps, s') && Valid(rows, s') && Alone(w, steps)
    ensures c < |s.chunks| && s'.now == s.now && |s'.workers| == |s.workers| && s'.workers[w].Idle?
    ensures s'.chunks == s.chunks[c := ChunkRow(s.chunks[c].index, Completed, Some(w), Some(s.now))]
  {
    hide Run, Valid, IsClaim;
    ClaimRange(s.chunks, c, {}, s.now, timeout);
    SameSizes(rows, s);
    var claim := Claim(w, c, {});
    StepKeepsValid(rows, timeout, s, claim);
    var s1 := Do(rows, timeout, s, claim);
    var given, s2 := GiveRest(rows, timeout, s1, w, c, 0);
    StepKeepsValid(rows, timeout, s2, EndChunk(w));
    var s3 := Do(rows, timeout, s2, EndChunk(w));
    StepKeepsValid(rows, timeout, s3, MarkChunk(w));
    var s4 := Do(rows, timeout, s3, MarkChunk(w));
    StepKeepsValid(rows, timeout, s4, CountChunk(w));
    s' := Do(rows, timeout, s4, CountChunk(w));
    OneStep(rows, timeout, s4, CountChunk(w));
    StepThen(rows, timeout, s3, MarkChunk(w), [CountChunk(w)], s');
    StepThen(rows, timeout, s2, EndChunk(w), [MarkChunk(w)] + [CountChunk(w)], s');
    var rest := [EndChunk(w)] + ([MarkChunk(w)] + [CountChunk(w)]);
    RunThen(rows, timeout, s1, given, s2, rest, s');
    steps := [claim] + (given + rest);
    StepThen(rows, timeout, s, claim, given + rest, s');
  }

  lemma SameSizes<R>(rows: seq<seq<R>>, s: State<R>)
    requires Valid(rows, s)
    ensures |s.chunks| == |s.handed| == |rows|
  {
  }

  // ---------- all chunks ----------

  // Whatever is not completed can be claimed.
  ghost predicate AllFree(chunks: seq<ChunkRow>, now: int, timeout: nat) {
    forall c :: 0 <= c < |chunks| ==> chunks[c].status.Completed? || Claimable(chunks[c], now, timeout)
  }

  lemma {:induction false} CountBound(chunks: seq<ChunkRow>)
    ensures CompletedCount(chunks) <= |chunks|
  {
    if chunks != [] {
      CountBound(chunks[..|chunks| - 1]);
    }
  }

  lemma {:induction false} WorkAll<R>(rows: seq<seq<R>>, timeout: nat, s: State<R>, w: nat)
    returns (steps: seq<Step>, s': State<R>)
    requires Valid(rows, s) && w < |s.workers| && s.workers[w].Idle? && AllFree(s.chunks, s.now, timeout)
    ensures Run(rows, timeout, s, steps, s') && Valid(rows, s') && Alone(w, steps)
    ensures |s'.workers| == |s.workers| && s'.workers[w].Idle? && AllCompleted(s'.chunks)
    decreases |s.chunks| - CompletedCount(s.chunks)
  {
    hide Run, Valid, IsClaim, CompletedCount, Claimable;
    CountBound(s.chunks);
    if AllCompleted(s.chunks) {
      steps, s' := [], s;
      NoSteps(rows, timeout, s);
    } else {
      var c := ToDo(s.chunks, s.now, timeout);
      var done, next := WorkChunk(rows, timeout, s, w, c);
      CompletedUpdate(s.chunks, c, next.chunks[c]);
      CountBound(next.chunks);
      var rest;
      rest, s' := WorkAll(rows, timeout, next, w);
      steps := done + rest;
      RunThen(rows, timeout, s, done, next, rest, s');
    }
  }

  lemma ToDo(chunks: seq<ChunkRow>, now: int, timeout: nat) returns (c: nat)
    requires AllFree(chunks, now, timeout) && !AllCompleted(chunks)
    ensures c < |chunks| && IsClaim(chunks, c, {}, now, timeout) && !chunks[c].status.Completed?
  {
    var d :| 0 <= d < |chunks| && !chunks[d].status.Completed?;
    assert Claimable(chunks[d], now, timeout);
    c := Lowest(chunks, now, timeout, |chunks|);
  }

  lemma {:induction false} Lowest(chunks: seq<ChunkRow>, now: int, timeout: nat, n: nat) returns (c: nat)
    requires n <= |chunks| && exists d: nat :: d < n && Claimable(chunks[d], now, timeout)
    ensures c < n && Claimable(chunks[c], now, timeout)
    ensures forall d: nat :: d < n && Claimable(chunks[d], now, timeout) ==> chunks[c].index <= chunks[d].index
  {
    hide Claimable;
    c := n - 1;
    if exists d: nat :: d < n - 1 && Claimable(chunks[d], now, timeout) {
      var b := Lowest(chunks, now, timeout, n - 1);
      if !Claimable(chunks[n - 1], now, timeout) || chunks[b].index <= chunks[n - 1].index {
        c := b;
      }
    }
  }

  // ---------- the job ----------

  // A time from which on no heartbeat is fresh.
  lemma {:induction false} Later(chunks: seq<ChunkRow>, now: int, timeout: nat) returns (ms: nat)
    requires Beating(chunks)
    ensures forall later: int :: later >= now + ms ==> AllFree(chunks, later, timeout)
  {
    hide Claimable;
    if chunks == [] {
      ms := 0;
    } else {
      var n := |chunks| - 1;
      var before := Later(chunks[..n], now, timeout);
      var beat := match chunks[n].heartbeat case Some(t) => t case None => now;
      ms := if beat + timeout + 1000 - now > before then beat + timeout + 1000 - now else before;
      forall later: int | later >= now + ms ensures AllFree(chunks, later, timeout) {
        StaleBy(chunks[n], beat, later, timeout);
        assert AllFree(chunks[..n], later, timeout);
        forall c | 0 <= c < |chunks| ensures chunks[c].status.Completed? || Claimable(chunks[c], later, timeout) {
          if c < n {
            assert chunks[..n][c] == chunks[c];
          }
        }
      }
    }
  }

  lemma StaleBy(c: ChunkRow, beat: int, later: int, timeout: nat)
    requires c.status.InProgress? ==> c.heartbeat == Some(beat)
    requires later >= beat + timeout + 1000
    ensures c.status.Completed? || Claimable(c, later, timeout)
  {
    ClaimWindow(beat, later, timeout);
  }

  // A started worker is Idle.
  lemma Start<R>(rows: seq<seq<R>>, timeout: nat, s: State<R>, w: nat) returns (steps: seq<Step>, s': State<R>)
    requires Valid(rows, s) && w < |s.workers|
    ensures Run(rows, timeout, s, steps, s') && Valid(rows, s') && Alone(w, steps)
    ensures s' == s.(workers := s.workers[w := Idle])
  {
    hide Run, Valid;
    StepKeepsValid(rows, timeout, s, Crash(w));
    var s1 := Do(rows, timeout, s, Crash(w));
    OneStep(rows, timeout, s1, Join(w));
    s' := Do(rows, timeout, s1, Join(w));
    steps := [Crash(w)] + [Join(w)];
    StepThen(rows, timeout, s, Crash(w), [Join(w)], s');
    assert s.workers[w := Stopped][w := Idle] == s.workers[w := Idle];
  }

  lemma Finish<R>(rows: seq<seq<R>>, timeout: nat, s: State<R>, w: nat) returns (steps: seq<Step>, s': State<R>)
    requires Valid(rows, s) && w < |s.workers| && s.workers[w].Idle? && s.chunks != [] && AllCompleted(s.chunks)
    ensures Run(rows, timeout, s, steps, s') && Valid(rows, s') && Alone(w, steps)
    ensures s'.job.completed && s'.chunks == s.chunks && s'.handed == s.handed
  {
    hide Run, Valid;
    assert NothingToClaim(s.chunks, {}, s.now, timeout);
    StepKeepsValid(rows, timeout, s, NoClaim(w, {}));
    var s1 := Do(rows, timeout, s, NoClaim(w, {}));
    StepKeepsValid(rows, timeout, s1, Check(w));
    var s2 := Do(rows, timeout, s1, Check(w));
    OneStep(rows, timeout, s2, MarkJob(w));
    s' := Do(rows, timeout, s2, MarkJob(w));
    StepThen(rows, timeout, s1, Check(w), [MarkJob(w)], s');
    steps := [NoClaim(w, {})] + ([Check(w)] + [MarkJob(w)]);
    StepThen(rows, timeout, s, NoClaim(w, {}), [Check(w)] + [MarkJob(w)], s');
  }

  /** After any run - failures, invalid snapshots, crashes, lost marks, in any interleaving - any one worker
      can be started again, wait until no heartbeat is fresh, and complete the job alone: all chunks are
      completed and every row has been handed over. */
  lemma JobCanAlwaysComplete<R>(rows: seq<seq<R>>, timeout: nat, s0: State<R>, before: seq<Step>, s: State<R>, w: nat)
    returns (steps: seq<Step>, s': State<R>)
    requires Init(rows, s0) && Valid(rows, s0) && Run(rows, timeout, s0, before, s)
    requires rows != [] && w < |s.workers|
    ensures Valid(rows, s) && Run(rows, timeout, s, steps, s') && Alone(w, steps)
    ensures s'.job.completed && AllCompleted(s'.chunks) && AllHanded(rows, s'.handed)
  {
    hide Run, Valid, Beating, Safe, AllCompleted, AllHanded;
    InitBeating(rows, s0);
    RunKeepsBeating(rows, timeout, s0, before, s);
    var starting, s1 := Start(rows, timeout, s, w);
    var ms := Later(s1.chunks, s1.now, timeout);
    OneStep(rows, timeout, s1, Step.Tick(ms));
    var s2 := Do(rows, timeout, s1, Step.Tick(ms));
    assert AllFree(s2.chunks, s2.now, timeout);
    var working, s3 := WorkAll(rows, timeout, s2, w);
    SameSizes(rows, s3);
    var finishing, s4 := Finish(rows, timeout, s3, w);
    s' := s4;
    RunThen(rows, timeout, s2, working, s3, finishing, s');
    RunThen(rows, timeout, s1, [Step.Tick(ms)], s2, working + finishing, s');
    steps := starting + ([Step.Tick(ms)] + (working + finishing));
    RunThen(rows, timeout, s, starting, s1, [Step.Tick(ms)] + (working + finishing), s');
    RunThen(rows, timeout, s0, before, s, steps, s');
    CompletedJobHandedEverything(rows, timeout, s0, before + steps, s');
  }

  lemma InitBeating<R>(rows: seq<seq<R>>, s: State<R>)
    requires Init(rows, s)
    ensures Beating(s.chunks)
  {
  }

  // ---------- what errors cost ----------

  // A transient error in the middle of a chunk: its rows are handed over again.
  lemma RetryHandsAgain<R>(row: R, timeout: nat, s: State<R>) returns (steps: seq<Step>, s': State<R>)
    requires Init([[row]], s) && Valid([[row]], s) && s.workers == [Idle]
    ensures steps == [Claim(0, 0, {}), Give(0)] + [Redo(0), Give(0)]
    ensures Run([[row]], timeout, s, steps, s') && s'.handed == [[row, row]]
  {
    hide Run;
    var rows := [[row]];
    assert IsClaim(s.chunks, 0, {}, s.now, timeout);
    StepKeepsValid(rows, timeout, s, Claim(0, 0, {}));
    var s1 := Do(rows, timeout, s, Claim(0, 0, {}));
    OneStep(rows, timeout, s1, Give(0));
    var s2 := Do(rows, timeout, s1, Give(0));
    StepKeepsValid(rows, timeout, s2, Redo(0));
    var s3 := Do(rows, timeout, s2, Redo(0));
    OneStep(rows, timeout, s3, Give(0));
    s' := Do(rows, timeout, s3, Give(0));
    assert s2.handed[0] == [row] && s'.handed[0] == [row] + [row];
    assert [row] + [row] == [row, row] && |s'.handed| == 1 && s'.handed == [[row, row]];
    StepThen(rows, timeout, s, Claim(0, 0, {}), [Give(0)], s2);
    StepThen(rows, timeout, s2, Redo(0), [Give(0)], s');
    steps := ([Claim(0, 0, {})] + [Give(0)]) + ([Redo(0)] + [Give(0)]);
    RunThen(rows, timeout, s, [Claim(0, 0, {})] + [Give(0)], s2, [Redo(0)] + [Give(0)], s');
  }

  // A mark whose reply is lost is counted again: the counter passes the number of chunks.
  lemma LostReplyCountsAgain<R>(rows: seq<seq<R>>, timeout: nat, s: State<R>, w: nat)
    returns (steps: seq<Step>, s': State<R>)
    requires Valid(rows, s) && w < |s.workers| && s.workers[w].Given?
    ensures steps == [MarkChunk(w)] + ([Recount(w)] + [CountChunk(w)]) && Run(rows, timeout, s, steps, s')
    ensures s'.job.counter == s.job.counter + 2 && s'.job.total == s.job.total
    ensures |s'.workers| == |s.workers| && s'.workers[w].Idle?
    ensures s'.chunks == Finished(s.chunks, s.workers[w].chunk)
  {
    hide Run;
    StepKeepsValid(rows, timeout, s, MarkChunk(w));
    var s1 := Do(rows, timeout, s, MarkChunk(w));
    StepKeepsValid(rows, timeout, s1, Recount(w));
    var s2 := Do(rows, timeout, s1, Recount(w));
    OneStep(rows, timeout, s2, CountChunk(w));
    s' := Do(rows, timeout, s2, CountChunk(w));
    StepThen(rows, timeout, s1, Recount(w), [CountChunk(w)], s');
    steps := [MarkChunk(w)] + ([Recount(w)] + [CountChunk(w)]);
    StepThen(rows, timeout, s, MarkChunk(w), [Recount(w)] + [CountChunk(w)], s');
  }

  // ---------- when a chunk can be taken over ----------

  /** A heartbeat protects a claimed chunk for the whole timeout, whatever its heartbeat was before. */
  lemma BeatProtects<R>(rows: seq<seq<R>>, timeout: nat, s: State<R>, c: nat, ms: nat, s': State<R>)
    requires Valid(rows, s) && c < |s.chunks| && s.chunks[c].status.InProgress? && ms <= timeout
    requires Run(rows, timeout, s, [Beat(c), Step.Tick(ms)], s')
    ensures c < |s'.chunks| && !Claimable(s'.chunks[c], s'.now, timeout)
    ensures forall w: nat, locked :: !Enabled(rows, timeout, s', Claim(w, c, locked))
  {
    hide NothingToClaim;
    var steps := [Beat(c), Step.Tick(ms)];
    StepKeepsValid(rows, timeout, s, Beat(c));
    var s1 := Do(rows, timeout, s, Beat(c));
    assert steps[1..] == [Step.Tick(ms)] && steps[1..][1..] == [];
    assert Run(rows, timeout, s1, steps[1..], s');
    StepKeepsValid(rows, timeout, s1, Step.Tick(ms));
    assert s' == Do(rows, timeout, s1, Step.Tick(ms));
    ClaimWindow(s.now, s.now + ms, timeout);
  }

  /** An invalid snapshot stops the worker and frees its chunk at once; another failure keeps the worker and
      the claim, which then holds until the heartbeat is stale. */
  lemma FailureEffects<R>(rows: seq<seq<R>>, timeout: nat, s: State<R>, w: nat)
    requires Valid(rows, s) && w < |s.workers| && s.workers[w].Working?
    ensures var c, released := s.workers[w].chunk, Do(rows, timeout, s, ReleaseChunk(w));
            && released.workers == s.workers[w := Stopped] && |released.chunks| == |s.chunks|
            && (forall now: int :: Claimable(released.chunks[c], now, timeout))
            && (forall d :: 0 <= d < |s.chunks| && d != c ==> released.chunks[d] == s.chunks[d])
    ensures var failed := Do(rows, timeout, s, FailChunk(w));
            failed.workers == s.workers[w := Idle] && failed.chunks == s.chunks && failed.handed == s.handed
  {
  }
}
