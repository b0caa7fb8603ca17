/** Whole runs of the threaded program: every interleaving ends, and ends like the program without
    threads. */
module ParallelRuns {
  import opened Lines
  import opened LineLists
  import opened Chunks
  import opened Runs
  import opened Soundness
  import opened Exactness
  import opened Counts
  import opened Sweeps
  import opened Parallel
  import opened ParallelSafety
  import P = ThreadPool
  import PoolRuns
  import Pipeline

  // ---------------------------------------------------------------- counters

  /** The duplicates that jobs have found and not yet reported. */
  function Unreported(jobs: seq<Job>): nat
  {
    if jobs == [] then 0 else jobs[0].found + Unreported(jobs[1..])
  }

  lemma {:induction false} UnreportedUpdate(jobs: seq<Job>, j: nat, job: Job)
    requires j < |jobs|
    ensures Unreported(jobs[j := job]) == Unreported(jobs) - jobs[j].found + job.found
  {
    if j == 0 {
      assert jobs[0 := job][1..] == jobs[1..];
    } else {
      assert jobs[j := job][1..] == jobs[1..][j - 1 := job];
      UnreportedUpdate(jobs[1..], j - 1, job);
    }
  }

  lemma {:induction false} UnreportedAppend(jobs: seq<Job>, job: Job)
    ensures Unreported(jobs + [job]) == Unreported(jobs) + job.found
  {
    if jobs == [] {
      assert [] + [job] == [job] && [job][1..] == [];
    } else {
      assert (jobs + [job])[1..] == jobs[1..] + [job];
      UnreportedAppend(jobs[1..], job);
    }
  }

  /** The tasks, and the chunks, that a list of commands announces. */
  function TasksIn(cs: seq<P.Command>): nat
  {
    if cs == [] then 0 else (if cs[0] == P.Push || cs[0] == P.Local(INDEX) then 1 else 0) + TasksIn(cs[1..])
  }

  function ChunksIn(cs: seq<P.Command>): nat
  {
    if cs == [] then 0 else (if cs[0] == P.Local(COUNT) then 1 else 0) + ChunksIn(cs[1..])
  }

  lemma {:induction false} TallyAppend(a: seq<P.Command>, b: seq<P.Command>)
    ensures TasksIn(a + b) == TasksIn(a) + TasksIn(b) && ChunksIn(a + b) == ChunksIn(a) + ChunksIn(b)
  {
    if a == [] {
      assert a + b == b;
    } else {
      assert (a + b)[1..] == a[1..] + b;
      TallyAppend(a[1..], b);
    }
  }

  /** Tasks done, under way and to come. */
  function TaskBalance(y: System): int { y.run.ctasks + y.pool.pushed - |y.pool.done| + TasksIn(y.pool.script) }

  function ChunkBalance(y: System): int { y.run.chunks + ChunksIn(y.pool.script) }

  /** The duplicates counted and not yet reported are those logged. */
  ghost predicate Reported(y: System)
  {
    && y.run.duplicates + Unreported(y.jobs) == |y.run.log|
    && forall j | 0 <= j < |y.jobs| && y.pool.done[j] == 1 :: y.jobs[j].found == 0
  }

  lemma StepBalance(env: Env, y: System, act: Act)
    requires P.Inv(y.pool) && Able(env, y, act) && Move(env, y, act).run.outcome == Completed
    ensures TaskBalance(Move(env, y, act)) == TaskBalance(y) && ChunkBalance(Move(env, y, act)) == ChunkBalance(y)
  {
    if act.Sched? { P.StepFrame(y.pool, act.st); }
  }

  lemma CleanReported(env: Env, y: System, i: nat)
    requires P.JobsOnce(y.pool) && Reported(y) && Able(env, y, Clean(i))
    ensures Reported(CleanLine(env, y, i))
  {
    var j := y.pool.workers[i].job;
    UnreportedUpdate(y.jobs, j, CleanLine(env, y, i).jobs[j]);
    assert P.HasJob(y.pool.workers[i]);
  }

  lemma FinishReported(env: Env, y: System, i: nat)
    requires P.Inv(y.pool) && Reported(y) && Able(env, y, Sched(P.Finish(i)))
    ensures Reported(Move(env, y, Sched(P.Finish(i))))
  {
    var y', j := Move(env, y, Sched(P.Finish(i))), y.pool.workers[i].job;
    P.StepFrame(y.pool, P.Finish(i));
    UnreportedUpdate(y.jobs, j, y'.jobs[j]);
    forall k | 0 <= k < |y'.jobs| && y'.pool.done[k] == 1 ensures y'.jobs[k].found == 0 {
      if k != j { assert y.pool.done[k] == 1; }
    }
  }

  lemma PushReported(env: Env, y: System)
    requires P.Inv(y.pool) && Reported(y) && Able(env, y, Sched(P.Enqueue))
    ensures Reported(Move(env, y, Sched(P.Enqueue)))
  {
    P.StepFrame(y.pool, P.Enqueue);
    UnreportedAppend(y.jobs, PushChunk(env, y).jobs[|y.jobs|]);
  }

  lemma StepReported(env: Env, y: System, act: Act)
    requires P.Inv(y.pool) && Reported(y) && Able(env, y, act) && Move(env, y, act).run.outcome == Completed
    ensures Reported(Move(env, y, act))
  {
    if act.Clean? {
      CleanReported(env, y, act.i);
    } else if act.st.Enqueue? {
      PushReported(env, y);
    } else if act.st.Finish? {
      FinishReported(env, y, act.st.i);
    } else {
      P.StepFrame(y.pool, act.st);
    }
  }

  lemma {:induction false} ScriptTally(n: nat, pooled: bool)
    ensures TasksIn(Script(n, pooled)) == Tasks(n) && ChunksIn(Script(n, pooled)) == n
  {
    if n > 0 {
      var a, w, d := [P.Local(INDEX)] + Pushes(n - 1), if pooled then [P.Wait] else [], Script(n - 1, pooled);
      ScriptTally(n - 1, pooled);
      PushesTally(n - 1);
      assert a[1..] == Pushes(n - 1);
      TallyAppend(a + [P.Local(COUNT)] + w, d);
      TallyAppend(a + [P.Local(COUNT)], w);
      TallyAppend(a, [P.Local(COUNT)]);
    }
  }

  lemma {:induction false} PushesTally(n: nat)
    ensures TasksIn(Pushes(n)) == n && ChunksIn(Pushes(n)) == 0
  {
    if n > 0 {
      assert Pushes(n)[1..] == Pushes(n - 1);
      PushesTally(n - 1);
    }
  }

  lemma {:induction false} DoneSize(done: multiset<nat>, n: nat)
    requires forall j: nat :: done[j] == if j < n then 1 else 0
    ensures |done| == n
  {
    if n > 0 {
      DoneSize(done[n - 1 := 0], n - 1);
      assert done == done[n - 1 := 0] + multiset{n - 1};
    } else {
      assert done == multiset{};
    }
  }

  lemma {:induction false} AllReported(jobs: seq<Job>)
    requires forall j | 0 <= j < |jobs| :: jobs[j].found == 0
    ensures Unreported(jobs) == 0
  {
    if jobs != [] { AllReported(jobs[1..]); }
  }

  // ---------------------------------------------------------------- standstill

  predicate SpuriousAct(act: Act) { act.Sched? && P.Spurious(act.st) }

  /** No step is left but spurious wake-ups. */
  ghost predicate Halted(env: Env, y: System)
  {
    forall act :: Able(env, y, act) ==> SpuriousAct(act)
  }

  /** Worker `i` is in a look-up that never ends. */
  predicate Blocked(env: Env, y: System, i: nat)
  {
    0 < |y.view| && HasChunk(y, i) && Reading(y, i) &&
    exists ln :: ln in LineHead(env, y, i) && Endless(env.hash, y.view, ln)
  }

  /** The guards of the loops agree with the commands that the main thread has still to do. */
  lemma GuardHolds(env: Env, s: seq<Byte>, y: System)
    requires Placed(env, s, y) && OnTrack(env, s, y) && y.pool.script != []
    ensures Guard(y, y.pool.script[0])
  { }

  /** A busy worker runs a job of the table, and has not left its chunk. */
  lemma WorkerJob(env: Env, s: seq<Byte>, y: System, i: nat)
    requires Safe(env, s, y) && y.run.outcome == Completed && i < |y.pool.workers| && y.pool.workers[i].Busy?
    ensures HasChunk(y, i) && JobOf(y, i).cur <= JobOf(y, i).hi <= |y.run.data|
  {
    assert P.HasJob(y.pool.workers[i]);
    HeldIsCurrent(y, i);
    assert JobFits(s, y, JobOf(y, i));
  }

  lemma HaltedWorker(env: Env, y: System, i: nat)
    requires Running(env, y) && Halted(env, y)
    requires HasChunk(y, i) && JobOf(y, i).cur <= JobOf(y, i).hi <= |y.run.data|
    ensures Blocked(env, y, i)
  {
    if JobOf(y, i).cur == JobOf(y, i).hi {
      assert Able(env, y, Sched(P.Finish(i)));
    } else if !Blocked(env, y, i) {
      assert Able(env, y, Clean(i));
    }
  }

  lemma HaltedStep(env: Env, y: System, st: P.Step)
    requires Running(env, y) && Halted(env, y) && P.Enabled(y.pool, st) && !st.Finish?
    requires y.pool.script != [] ==> Guard(y, y.pool.script[0])
    ensures P.Spurious(st)
  {
    assert Able(env, y, Sched(st)) || P.Spurious(st);
  }

  lemma HaltedPool(env: Env, s: seq<Byte>, y: System)
    requires Safe(env, s, y) && y.run.outcome == Completed && Halted(env, y)
    requires forall i: nat :: !Blocked(env, y, i)
    ensures PoolRuns.Stuck(y.pool)
  {
    if y.pool.script != [] { GuardHolds(env, s, y); }
    forall st | P.Enabled(y.pool, st) ensures P.Spurious(st) {
      if st.Finish? {
        WorkerJob(env, s, y, st.i);
        HaltedWorker(env, y, st.i);
      } else {
        HaltedStep(env, y, st);
      }
    }
  }

  /** A look-up of a worker that never ends is one of the run without threads. */
  lemma BlockedForever(env: Env, s: seq<Byte>, y: System, i: nat)
    requires Safe(env, s, y) && y.run.outcome == Completed && Blocked(env, y, i)
    ensures TagFrom(env, Started(s), 0).outcome == RunsForever
  {
    HeldIsCurrent(y, i);
    var j := y.pool.workers[i].job;
    assert JobFits(s, y, y.jobs[j]);
    ReadsModel(env, s, y, j);
    LineHere(env.conf, y.model.data, y.mainEnd, y.jobs[j].cur, y.jobs[j].hi);
    SubchunksMeans(env, y.view, y.model, y.mainEnd);
  }

  /** When nobody is blocked, the threads have come to the end of the run without threads. */
  lemma ThroughCompletes(env: Env, s: seq<Byte>, y: System)
    requires Safe(env, s, y) && y.run.outcome == Completed && y.pool.script == []
    ensures var r := TagFrom(env, Started(s), 0); r.outcome == Completed && y.run.data == r.data
  {
    assert y.stage.Between? && y.mainEnd == |s|;
  }

  // ---------------------------------------------------------------- counters of the run without threads

  predicate SameCounts(a: Run, b: Run)
  {
    a.duplicates == b.duplicates && a.ctasks == b.ctasks && a.chunks == b.chunks
  }

  /** The run without threads that a phase goes on from has counted all that it logged, and the chunks before
      this one. */
  predicate ModelCounted(env: Env, s: seq<Byte>, y: System)
  {
    && y.mainEnd <= |s| && y.model.duplicates == |y.model.log|
    && y.model.chunks + Left(env, s, y.mainEnd) + (if y.stage.Between? then 0 else 1) == Left(env, s, 0)
  }

  /** What has been done, is under way and is to come is all that was announced. */
  ghost predicate Booked(env: Env, s: seq<Byte>, y: System)
  {
    && Reported(y) && ModelCounted(env, s, y)
    && TaskBalance(y) == Tasks(Left(env, s, 0)) && ChunkBalance(y) == Left(env, s, 0)
  }

  lemma EndCounted(env: Env, s: seq<Byte>, y: System)
    requires Placed(env, s, y) && ModelCounted(env, s, y) && !y.stage.Between?
    requires y.model.outcome == Completed == EndPhase(env, y).model.outcome
    ensures ModelCounted(env, s, EndPhase(env, y))
  {
    SubchunksReport(env, y.view, y.model, y.mainEnd);
    SubchunksCount(env, y.view, y.model, y.mainEnd);
  }

  lemma IndexCounted(env: Env, s: seq<Byte>, y: System)
    requires Placed(env, s, y) && ModelCounted(env, s, y) && y.stage.Between? && y.mainEnd < |s|
    requires y.run.data == y.model.data && IndexChunk(env, y).model.outcome == Completed
    ensures ModelCounted(env, s, IndexChunk(env, y))
  {
    NextChunk(env, s, y.run.data, y.mainEnd);
  }

  lemma CountCounted(env: Env, s: seq<Byte>, y: System)
    requires Placed(env, s, y) && ModelCounted(env, s, y) && !y.stage.Between?
    requires y.model.outcome == Completed == CountChunk(env, y).model.outcome
    ensures ModelCounted(env, s, CountChunk(env, y))
  {
    if y.jobs == [] { EndCounted(env, s, y.(run := y.run.(chunks := y.run.chunks + 1))); }
  }

  lemma StepCounted(env: Env, s: seq<Byte>, y: System, act: Act)
    requires Placed(env, s, y) && Staged(env, s, y) && Able(env, y, act) && ModelCounted(env, s, y)
    requires act.Sched? && Returns(y, act.st) ==> !y.stage.Between?
    requires Move(env, y, act).model.outcome == Completed
    ensures ModelCounted(env, s, Move(env, y, act))
  {
    if act.Sched? {
      var st := act.st;
      if st.DoLocal? && y.pool.script[0].task == INDEX {
        IndexCounted(env, s, y);
      } else if st.DoLocal? {
        CountCounted(env, s, y);
      } else if Returns(y, st) {
        EndCounted(env, s, y);
      }
    }
  }

  lemma StepBooked(env: Env, s: seq<Byte>, y: System, act: Act)
    requires Safe(env, s, y) && Able(env, y, act) && Booked(env, s, y)
    requires Safe(env, s, Move(env, y, act)) && Move(env, y, act).run.outcome == Completed
    ensures Booked(env, s, Move(env, y, act))
  {
    StepBalance(env, y, act);
    StepReported(env, y, act);
    StepCounted(env, s, y, act);
  }

  /** When every job is done, everything is counted. */
  lemma AllBooked(env: Env, s: seq<Byte>, y: System)
    requires Safe(env, s, y) && Booked(env, s, y) && PoolRuns.AllDone(y.pool)
    ensures y.run.ctasks + TasksIn(y.pool.script) == Tasks(Left(env, s, 0))
    ensures y.run.chunks + ChunksIn(y.pool.script) == Left(env, s, 0) && y.run.duplicates == |y.run.log|
  {
    DoneSize(y.pool.done, y.pool.pushed);
    forall j | 0 <= j < |y.jobs| ensures y.jobs[j].found == 0 { assert y.pool.done[j] == 1; }
    AllReported(y.jobs);
  }

  /** Between phases every chunk so far and its tasks are counted, and every duplicate. */
  lemma BetweenCounted(env: Env, s: seq<Byte>, y: System)
    requires Safe(env, s, y) && y.run.outcome == Completed && Booked(env, s, y) && y.stage.Between?
    ensures var n, left := Left(env, s, 0), Left(env, s, y.mainEnd);
            y.run.ctasks + Tasks(left) == Tasks(n) && y.run.chunks + left == n && y.run.duplicates == |y.run.log|
  {
    PoolRuns.ClearIsDone(y.pool);
    AllBooked(env, s, y);
    var left := Left(env, s, y.mainEnd);
    ScriptTally(left, y.jobs != [] || 1 < left);
  }

  /** A fill that takes the error exit counts nothing and ends the run. */
  lemma FillExits(env: Env, run: Run, p: nat)
    requires p < |run.data| && 0 < env.slots && run.outcome == Completed
    requires AfterFill(env, run, p, NextEnd(env.chunkSize, run.data, p)).outcome != Completed
    ensures var r := AfterFill(env, run, p, NextEnd(env.chunkSize, run.data, p));
            TagFrom(env, run, p) == r && r.outcome == ErrorExit && SameCounts(r, run)
  {
    var e := NextEnd(env.chunkSize, run.data, p);
    assert Phase(env, run, p) == AfterFill(env, run, p, e);
  }

  lemma FillLogsSame(env: Env, a: Run, b: Run, p: nat, e: nat)
    requires p <= e <= |a.data| && a.data == b.data && 0 < env.slots
    ensures |AfterFill(env, a, p, e).log| - |a.log| == |AfterFill(env, b, p, e).log| - |b.log|
  { }

  /** When indexing a chunk takes the error exit, the run without threads ends there. */
  lemma ExitIs(env: Env, s: seq<Byte>, y: System)
    requires Placed(env, s, y) && Staged(env, s, y) && Linked(env, s, y)
    requires y.run.outcome == Completed && y.stage.Between? && y.mainEnd < |s|
    requires IndexChunk(env, y).run.outcome != Completed
    ensures var r, f := TagFrom(env, Started(s), 0), IndexChunk(env, y).run;
            && |f.log| - |y.run.log| == |r.log| - |y.model.log|
            && SameCounts(f, y.run) && SameCounts(r, y.model) && r.outcome == ErrorExit
  {
    var p, e := y.mainEnd, NextEnd(env.chunkSize, y.run.data, y.mainEnd);
    SameFill(env, y.run, y.model, p, e);
    FillExits(env, y.run, p);
    FillExits(env, y.model, p);
    FillLogsSame(env, y.run, y.model, p, e);
  }

  /** Equal buffers have lost the same lines. */
  lemma SameLog(c: Filter, s: seq<Byte>, t: seq<Byte>, a: seq<Text>, b: seq<Text>)
    requires Sound(c, s, t, a) && Sound(c, s, t, b)
    ensures multiset(a) == multiset(b) && |a| == |b|
  {
    Pipeline.SameRest(multiset(Texts(All(c, t))), multiset(a), multiset(b));
  }

  lemma ModelSound(env: Env, s: seq<Byte>)
    requires 0 < env.slots
    ensures var r := TagFrom(env, Started(s), 0); Sound(env.conf, s, r.data, r.log)
  {
    RunIsSound(env, Started(s), 0);
    var r := TagFrom(env, Started(s), 0);
    assert r.log[0..] == r.log;
  }

  /** Only indexing a chunk ends the program. */
  lemma ExitIndexes(env: Env, s: seq<Byte>, y: System, act: Act)
    requires Able(env, y, act) && Move(env, y, act).run.outcome != Completed
    ensures Move(env, y, act).run == IndexChunk(env, y).run && y.stage.Between? && y.mainEnd < |y.run.data|
  { }

  /** Logs of the same length grow to logs of the same length. */
  lemma ExitLogs(env: Env, s: seq<Byte>, y: System, run: Run)
    requires Sane(env, s, y) && y.run.outcome == Completed && y.stage.Between? && y.mainEnd < |s|
    requires run == IndexChunk(env, y).run && run.outcome != Completed
    requires Sound(env.conf, s, run.data, run.log) && run.data == TagFrom(env, Started(s), 0).data
    ensures |y.run.log| == |y.model.log|
  {
    var r := TagFrom(env, Started(s), 0);
    ExitIs(env, s, y);
    ModelSound(env, s);
    SameLog(env.conf, s, run.data, run.log, r.log);
  }

  lemma CountersMeet(n: nat, left: nat, a: Run, b: Run)
    requires Unfinished(ErrorExit, n, b.chunks, b.ctasks) && b.chunks + left == n
    requires a.ctasks + Tasks(left) == Tasks(n) && a.chunks + left == n
    ensures a.ctasks == b.ctasks && a.chunks == b.chunks
  { }

  /** The error exit leaves the counters of the run without threads. */
  lemma ExitCounted(env: Env, s: seq<Byte>, y: System, run: Run)
    requires Safe(env, s, y) && y.run.outcome == Completed && Booked(env, s, y) && y.stage.Between?
    requires y.mainEnd < |s| && run == IndexChunk(env, y).run && run.outcome != Completed
    requires Sound(env.conf, s, run.data, run.log) && run.data == TagFrom(env, Started(s), 0).data
    ensures SameCounts(run, TagFrom(env, Started(s), 0))
  {
    ExitIs(env, s, y);
    ExitLogs(env, s, y, run);
    BetweenCounted(env, s, y);
    UnfinishedCount(env, s);
    CountersMeet(Left(env, s, 0), Left(env, s, y.mainEnd), y.run, TagFrom(env, Started(s), 0));
  }

  lemma StepExits(env: Env, s: seq<Byte>, y: System, act: Act)
    requires Safe(env, s, y) && Booked(env, s, y) && Able(env, y, act)
    requires Safe(env, s, Move(env, y, act)) && Move(env, y, act).run.outcome != Completed
    ensures SameCounts(Move(env, y, act).run, TagFrom(env, Started(s), 0))
  {
    ExitIndexes(env, s, y, act);
    ExitCounted(env, s, y, Move(env, y, act).run);
  }

  // ---------------------------------------------------------------- runs

  predicate Possible(env: Env, y: System, acts: seq<Act>)
    decreases |acts|
  {
    acts == [] || (Able(env, y, acts[0]) && Possible(env, Move(env, y, acts[0]), acts[1..]))
  }

  function After(env: Env, y: System, acts: seq<Act>): System
    requires Possible(env, y, acts)
    decreases |acts|
  {
    if acts == [] then y else After(env, Move(env, y, acts[0]), acts[1..])
  }

  /** The invariants of a run. */
  ghost predicate Kept(env: Env, s: seq<Byte>, y: System)
  {
    && Safe(env, s, y) && y.pool.workers != []
    && if y.run.outcome == Completed then Booked(env, s, y) else SameCounts(y.run, TagFrom(env, Started(s), 0))
  }

  lemma StepWorkers(env: Env, y: System, act: Act)
    requires Able(env, y, act)
    ensures |Move(env, y, act).pool.workers| == |y.pool.workers|
  { }

  lemma StepKept(env: Env, s: seq<Byte>, y: System, act: Act)
    requires Kept(env, s, y) && Able(env, y, act)
    ensures Kept(env, s, Move(env, y, act))
  {
    StepSafe(env, s, y, act);
    StepWorkers(env, y, act);
    if Move(env, y, act).run.outcome == Completed {
      StepBooked(env, s, y, act);
    } else {
      StepExits(env, s, y, act);
    }
  }

  lemma {:induction false} RunKept(env: Env, s: seq<Byte>, y: System, acts: seq<Act>)
    requires Kept(env, s, y) && Possible(env, y, acts)
    ensures Kept(env, s, After(env, y, acts))
    decreases |acts|
  {
    if acts != [] {
      StepKept(env, s, y, acts[0]);
      RunKept(env, s, Move(env, y, acts[0]), acts[1..]);
    }
  }

  lemma BeginKept(env: Env, s: seq<Byte>, threads: nat)
    requires 0 < env.slots && 0 < threads
    ensures Kept(env, s, Begin(env, s, threads))
  {
    var n := Left(env, s, 0);
    ScriptTally(n, 1 < n);
    BeginSafe(env, s, threads);
  }

  /** Whatever the load, in every state that any interleaving reaches: the first occurrences are all
      there, and what is gone from the file is what was logged, each line once. */
  lemma AlwaysSound(env: Env, s: seq<Byte>, threads: nat, acts: seq<Act>)
    requires 0 < env.slots && 0 < threads && Possible(env, Begin(env, s, threads), acts)
    ensures var y := After(env, Begin(env, s, threads), acts); Sound(env.conf, s, y.run.data, y.run.log)
  {
    BeginKept(env, s, threads);
    RunKept(env, s, Begin(env, s, threads), acts);
  }

  /** Whatever the load and the schedule, at any time: every valid line of the file, tagged or not, has
      its like at the same place or before, not tagged; and it is the same one at all times. */
  lemma NothingLost(env: Env, s: seq<Byte>, threads: nat, acts: seq<Act>, ln: Line) returns (f: Line)
    requires 0 < env.slots && 0 < threads && Possible(env, Begin(env, s, threads), acts)
    requires ln in All(env.conf, s)
    ensures f in First(All(env.conf, s)) && f.text == ln.text && f.at <= ln.at
    ensures f in All(env.conf, After(env, Begin(env, s, threads), acts).run.data)
  {
    var y := After(env, Begin(env, s, threads), acts);
    AlwaysSound(env, s, threads, acts);
    f := LikeSurvives(env.conf, s, y.run.data, y.run.log, ln);
  }

  // ---------------------------------------------------------------- schedule independence

  /** The threads have left what the run `r` without threads leaves. */
  ghost predicate SameResult(y: System, r: Run)
  {
    y.run.data == r.data && multiset(y.run.log) == multiset(r.log) && SameCounts(y.run, r)
  }

  lemma CompletedCounts(env: Env, s: seq<Byte>)
    requires 0 < env.slots
    ensures var r, n := TagFrom(env, Started(s), 0), Left(env, s, 0);
            r.outcome == Completed ==> r.ctasks == Tasks(n) && r.chunks == n && r.duplicates == |r.log|
  {
    RunTasks(env, Started(s), 0);
    DuplicatesCounted(env, s);
  }

  lemma ThroughSame(env: Env, s: seq<Byte>, y: System)
    requires Kept(env, s, y) && y.run.outcome == Completed && PoolRuns.AllThrough(y.pool)
    ensures var r := TagFrom(env, Started(s), 0); r.outcome == Completed && SameResult(y, r)
  {
    var r := TagFrom(env, Started(s), 0);
    ThroughCompletes(env, s, y);
    AllBooked(env, s, y);
    CompletedCounts(env, s);
    ModelSound(env, s);
    SameLog(env.conf, s, r.data, y.run.log, r.log);
  }

  lemma ExitedSame(env: Env, s: seq<Byte>, y: System)
    requires Kept(env, s, y) && y.run.outcome != Completed
    ensures var r := TagFrom(env, Started(s), 0); r.outcome == ErrorExit && SameResult(y, r)
  {
    ModelSound(env, s);
    SameLog(env.conf, s, y.run.data, y.run.log, TagFrom(env, Started(s), 0).log);
  }

  /** How the threaded program has ended, given the run `r` without threads. */
  ghost predicate EndsLike(env: Env, y: System, r: Run)
  {
    match r.outcome
    case Completed => y.run.outcome == Completed && PoolRuns.AllThrough(y.pool) && SameResult(y, r)
    case ErrorExit => y.run.outcome == ErrorExit && SameResult(y, r)
    case RunsForever => y.run.outcome == Completed && exists i: nat :: Blocked(env, y, i)
  }

  lemma HaltedEnds(env: Env, s: seq<Byte>, y: System)
    requires Kept(env, s, y) && Halted(env, y)
    ensures EndsLike(env, y, TagFrom(env, Started(s), 0))
  {
    if y.run.outcome != Completed {
      ExitedSame(env, s, y);
    } else if i: nat :| Blocked(env, y, i) {
      BlockedForever(env, s, y, i);
    } else {
      HaltedPool(env, s, y);
      PoolRuns.NoDeadlock(y.pool);
      ThroughSame(env, s, y);
    }
  }

  /** Whatever the load, the number of workers and the schedule: a run of the threaded program that
      can go no further has ended exactly as the program without threads does. When that completes
      or takes the error exit, so has this one, with the same bytes, the same lines logged up to order, and the
      same counters; when a look-up never ends there, a worker is in one here. */
  lemma ScheduleIndependence(env: Env, s: seq<Byte>, threads: nat, acts: seq<Act>)
    requires 0 < env.slots && 0 < threads && Possible(env, Begin(env, s, threads), acts)
    ensures var y := After(env, Begin(env, s, threads), acts);
            Halted(env, y) ==> EndsLike(env, y, TagFrom(env, Started(s), 0))
  {
    var y0 := Begin(env, s, threads);
    BeginKept(env, s, threads);
    RunKept(env, s, y0, acts);
    if Halted(env, After(env, y0, acts)) { HaltedEnds(env, s, After(env, y0, acts)); }
  }
}
