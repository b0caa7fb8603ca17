/** The progress counters of src/status.c: a completed run has done every task that was announced. */
module Counts {
  import opened Lines
  import opened Index
  import opened Chunks
  import opened Runs
  import opened Soundness

  lemma {:induction false} SubchunksCount(env: Env, v: View, run: Run, p: nat)
    requires p <= |run.data| && Boundary(run.data, p) && 0 < |v|
    ensures var r := Subchunks(env, v, run, p);
            SameNewlines(run.data, r.data) && r.chunks == run.chunks &&
            (r.outcome == Completed ==> r.ctasks == run.ctasks + |ChunksFrom(env.chunkSize, run.data, p)|)
    decreases |run.data| - p
  {
    if p < |run.data| && run.outcome == Completed {
      var e := NextEnd(env.chunkSize, run.data, p);
      var mid := AfterSweep(env, v, run, p, e);
      SweepPrefix(env, v, run, p, e);
      ChunksStable(env.chunkSize, run.data, mid.data, e);
      SubchunksCount(env, v, mid, e);
    }
  }

  lemma PhaseCount(env: Env, run: Run, p: nat)
    requires p < |run.data| && 0 < env.slots && Boundary(run.data, p)
    ensures var r := Phase(env, run, p);
            SameNewlines(run.data, r.data) &&
            (r.outcome == Completed ==>
               r.chunks == run.chunks + 1 &&
               r.ctasks == run.ctasks + |ChunksFrom(env.chunkSize, run.data, p)|)
  {
    var e := NextEnd(env.chunkSize, run.data, p);
    var filled := AfterFill(env, run, p, e);
    FillPrefix(env, run, p, e);
    ChunksStable(env.chunkSize, run.data, filled.data, e);
    SubchunksCount(env, ViewAfterFill(env, run, p, e), filled, e);
  }

  /** The tasks of `n` phases, one by one. */
  function Tasks(n: nat): nat { if n == 0 then 0 else n + Tasks(n - 1) }

  lemma {:induction false} TasksAreTriangular(n: nat)
    ensures Tasks(n) == Triangular(n)
  {
    if n > 0 {
      TasksAreTriangular(n - 1);
      assert n * (n + 1) == (n - 1) * n + 2 * n;
    }
  }

  /** If `r` is completed, it has done the chunks from `p` on and their tasks, since `run`. */
  predicate Counted(chunkSize: nat, run: Run, r: Run, p: nat)
    requires p <= |run.data|
  {
    var n := |ChunksFrom(chunkSize, run.data, p)|;
    r.outcome == Completed ==> r.chunks == run.chunks + n && r.ctasks == run.ctasks + Tasks(n)
  }

  lemma CountedThen(env: Env, run: Run, next: Run, r: Run, p: nat)
    requires p < |run.data| && 0 < env.slots && Boundary(run.data, p)
    requires next == Phase(env, run, p) && (next.outcome != Completed ==> r.outcome != Completed)
    requires Counted(env.chunkSize, next, r, NextEnd(env.chunkSize, run.data, p))
    ensures Counted(env.chunkSize, run, r, p)
  {
    PhaseCount(env, run, p);
    ChunksStable(env.chunkSize, run.data, next.data, NextEnd(env.chunkSize, run.data, p));
  }

  lemma PhaseEnds(env: Env, run: Run, p: nat)
    requires p < |run.data| && 0 < env.slots && Boundary(run.data, p)
    ensures Boundary(Phase(env, run, p).data, NextEnd(env.chunkSize, run.data, p))
  {
    PhaseCount(env, run, p);
  }

  lemma {:induction false} RunTasks(env: Env, run: Run, p: nat)
    requires p <= |run.data| && 0 < env.slots && Boundary(run.data, p)
    ensures Counted(env.chunkSize, run, TagFrom(env, run, p), p)
    ensures run.outcome != Completed ==> TagFrom(env, run, p).outcome != Completed
    decreases |run.data| - p
  {
    if p < |run.data| && run.outcome == Completed {
      var e := NextEnd(env.chunkSize, run.data, p);
      var next := Phase(env, run, p);
      PhaseEnds(env, run, p);
      RunTasks(env, next, e);
      CountedThen(env, run, next, TagFrom(env, next, e), p);
    }
  }

  /** Over `n` chunks a completed run does `n` chunks and `n * (n + 1) / 2` tasks. */
  lemma RunCount(env: Env, s: seq<Byte>)
    requires 0 < env.slots
    ensures var r, n := TagFrom(env, Started(s), 0), |ChunksFrom(env.chunkSize, s, 0)|;
            r.outcome == Completed ==> r.chunks == n && r.ctasks == Triangular(n)
  {
    RunTasks(env, Started(s), 0);
    TasksAreTriangular(|ChunksFrom(env.chunkSize, s, 0)|);
  }

  // ---------------------------------------------------------------- duplicates

  lemma {:induction false} SubchunksReport(env: Env, v: View, run: Run, p: nat)
    requires p <= |run.data| && 0 < |v| && run.outcome == Completed && run.duplicates == |run.log|
    ensures var r := Subchunks(env, v, run, p);
            r.duplicates <= |r.log| && (r.outcome == Completed ==> r.duplicates == |r.log|)
    decreases |run.data| - p
  {
    if p < |run.data| {
      var e := NextEnd(env.chunkSize, run.data, p);
      var mid := AfterSweep(env, v, run, p, e);
      if mid.outcome == Completed { SubchunksReport(env, v, mid, e); }
    }
  }

  lemma PhaseReport(env: Env, run: Run, p: nat)
    requires p < |run.data| && 0 < env.slots && run.outcome == Completed && run.duplicates == |run.log|
    ensures var r := Phase(env, run, p);
            r.duplicates <= |r.log| && (r.outcome == Completed ==> r.duplicates == |r.log|)
  {
    var e := NextEnd(env.chunkSize, run.data, p);
    var filled := AfterFill(env, run, p, e);
    if filled.outcome == Completed { SubchunksReport(env, ViewAfterFill(env, run, p, e), filled, e); }
  }

  lemma {:induction false} RunReport(env: Env, run: Run, p: nat)
    requires p <= |run.data| && 0 < env.slots && run.outcome == Completed && run.duplicates == |run.log|
    ensures var r := TagFrom(env, run, p);
            r.duplicates <= |r.log| && (r.outcome == Completed ==> r.duplicates == |r.log|)
    decreases |run.data| - p
  {
    if p < |run.data| {
      var next := Phase(env, run, p);
      PhaseReport(env, run, p);
      if next.outcome == Completed { RunReport(env, next, NextEnd(env.chunkSize, run.data, p)); }
    }
  }

  /** A completed run has counted every duplicate that it logged. */
  lemma DuplicatesCounted(env: Env, s: seq<Byte>)
    requires 0 < env.slots
    ensures var r := TagFrom(env, Started(s), 0);
            r.duplicates <= |r.log| && (r.outcome == Completed ==> r.duplicates == |r.log|)
  {
    RunReport(env, Started(s), 0);
  }

  // ---------------------------------------------------------------- runs that do not complete

  /** How many of the `m` tasks of a phase's sweeps are done: all, or fewer when a look-up never ends. */
  lemma {:induction false} SubchunksDone(env: Env, v: View, run: Run, p: nat)
    requires p <= |run.data| && Boundary(run.data, p) && 0 < |v| && run.outcome == Completed
    ensures var r, m := Subchunks(env, v, run, p), |ChunksFrom(env.chunkSize, run.data, p)|;
            r.chunks == run.chunks &&
            if r.outcome == Completed then r.ctasks == run.ctasks + m
            else r.outcome == RunsForever && run.ctasks <= r.ctasks < run.ctasks + m
    decreases |run.data| - p
  {
    if p < |run.data| {
      var e := NextEnd(env.chunkSize, run.data, p);
      var mid := AfterSweep(env, v, run, p, e);
      SweepPrefix(env, v, run, p, e);
      ChunksStable(env.chunkSize, run.data, mid.data, e);
      if mid.outcome == Completed { SubchunksDone(env, v, mid, e); }
    }
  }

  /** A phase over `n` chunks that does not complete: no task is done when the error exit is taken, and some of
      the `n` when a look-up never ends. */
  lemma PhaseDone(env: Env, run: Run, p: nat)
    requires p < |run.data| && 0 < env.slots && Boundary(run.data, p) && run.outcome == Completed
    ensures var r, n := Phase(env, run, p), |ChunksFrom(env.chunkSize, run.data, p)|;
            (r.outcome == ErrorExit ==> r.chunks == run.chunks && r.ctasks == run.ctasks) &&
            (r.outcome == RunsForever ==> r.chunks == run.chunks && run.ctasks < r.ctasks < run.ctasks + n)
  {
    var e := NextEnd(env.chunkSize, run.data, p);
    var filled := AfterFill(env, run, p, e);
    FillPrefix(env, run, p, e);
    ChunksStable(env.chunkSize, run.data, filled.data, e);
    if filled.outcome == Completed { SubchunksDone(env, ViewAfterFill(env, run, p, e), filled, e); }
  }

  /** What a run over `n` chunks that has not completed has done, `chunks` of them and `tasks`: all the tasks of
      those chunks, and none of the next one's after the error exit, and some when a look-up never ends. */
  predicate Unfinished(outcome: Outcome, n: nat, chunks: int, tasks: int)
  {
    && (outcome == ErrorExit ==> 0 <= chunks < n && tasks == Tasks(n) - Tasks(n - chunks))
    && (outcome == RunsForever ==>
          0 <= chunks < n && Tasks(n) - Tasks(n - chunks) < tasks < Tasks(n) - Tasks(n - chunks - 1))
  }

  lemma OneMorePhase(outcome: Outcome, n: nat, chunks: int, tasks: int)
    requires 0 < n && Unfinished(outcome, n - 1, chunks, tasks)
    ensures Unfinished(outcome, n, chunks + 1, tasks + n)
  { }

  predicate UnfinishedFrom(chunkSize: nat, run: Run, r: Run, p: nat)
    requires p <= |run.data|
  {
    Unfinished(r.outcome, |ChunksFrom(chunkSize, run.data, p)|, r.chunks - run.chunks, r.ctasks - run.ctasks)
  }

  lemma PhaseUnfinished(env: Env, run: Run, p: nat)
    requires p < |run.data| && 0 < env.slots && Boundary(run.data, p) && run.outcome == Completed
    requires Phase(env, run, p).outcome != Completed
    ensures UnfinishedFrom(env.chunkSize, run, Phase(env, run, p), p)
  {
    PhaseDone(env, run, p);
  }

  /** The chunks after the first one. */
  lemma ChunksAfter(chunkSize: nat, s: seq<Byte>, t: seq<Byte>, p: nat)
    requires SameNewlines(s, t) && p < |s|
    ensures |ChunksFrom(chunkSize, s, p)| == 1 + |ChunksFrom(chunkSize, t, NextEnd(chunkSize, s, p))|
  {
    ChunksStable(chunkSize, s, t, NextEnd(chunkSize, s, p));
  }

  /** The run from `run` to `r`, which goes on from `next` after a phase. */
  lemma UnfinishedThen(chunkSize: nat, run: Run, next: Run, r: Run, p: nat)
    requires p < |run.data| && SameNewlines(run.data, next.data) && next.chunks == run.chunks + 1
    requires next.ctasks == run.ctasks + |ChunksFrom(chunkSize, run.data, p)|
    requires UnfinishedFrom(chunkSize, next, r, NextEnd(chunkSize, run.data, p))
    ensures UnfinishedFrom(chunkSize, run, r, p)
  {
    ChunksAfter(chunkSize, run.data, next.data, p);
    OneMorePhase(r.outcome, |ChunksFrom(chunkSize, run.data, p)|, r.chunks - next.chunks, r.ctasks - next.ctasks);
  }

  lemma {:induction false} RunUnfinished(env: Env, run: Run, p: nat)
    requires p <= |run.data| && 0 < env.slots && Boundary(run.data, p) && run.outcome == Completed
    ensures UnfinishedFrom(env.chunkSize, run, TagFrom(env, run, p), p)
    decreases |run.data| - p
  {
    if p < |run.data| {
      var e := NextEnd(env.chunkSize, run.data, p);
      var next := Phase(env, run, p);
      PhaseEnds(env, run, p);
      if next.outcome == Completed {
        RunUnfinished(env, next, e);
        PhaseCount(env, run, p);
        UnfinishedThen(env.chunkSize, run, next, TagFrom(env, next, e), p);
      } else {
        PhaseUnfinished(env, run, p);
      }
    }
  }

  /** The counters of a run that has not completed. */
  lemma UnfinishedCount(env: Env, s: seq<Byte>)
    requires 0 < env.slots
    ensures var r := TagFrom(env, Started(s), 0);
            Unfinished(r.outcome, |ChunksFrom(env.chunkSize, s, 0)|, r.chunks, r.ctasks)
  {
    RunUnfinished(env, Started(s), 0);
  }

  // ---------------------------------------------------------------- TRIANGULAR

  /** The product in `TRIANGULAR` fits a 32-bit `int` up to 46340 chunks and no further. */
  lemma TriangularFits(n: nat)
    ensures n * (n + 1) <= 0x7FFF_FFFF <==> n <= 46340
  {
    if n <= 46340 {
      ProductGrows(n, 46340);
    } else {
      ProductGrows(46341, n);
    }
  }

  lemma ProductGrows(m: nat, n: nat)
    requires m <= n
    ensures m * (m + 1) <= n * (n + 1)
  {
    var d := n - m;
    assert n * (n + 1) == m * (m + 1) + d * (2 * m + d + 1);
  }
}
