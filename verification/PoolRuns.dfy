/** Whole runs of the thread pool: the barrier is safe, runs end, and nobody is left waiting. */
module PoolRuns {
  import opened ThreadPool

  // ---------------------------------------------------------------- the barrier

  /** Whatever the other threads do: when `thpool_wait` returns, every job ever pushed has run to its
      end exactly once, and no worker holds a job. */
  lemma BarrierSafe(p: Pool)
    requires Inv(p) && Enabled(p, ReadWorking) && Apply(p, ReadWorking).main.Ready?
    ensures p.queue == [] && AllDone(p)
    ensures forall i | 0 <= i < |p.workers| :: !IsWorking(p.workers[i])
  {
    forall i | 0 <= i < |p.workers| ensures !IsWorking(p.workers[i]) {
      if IsWorking(p.workers[i]) { CountPositive(p.workers, i); }
    }
    NothingHeld(p);
  }

  ghost predicate AllDone(p: Pool)
  {
    forall j: nat :: p.done[j] == if j < p.pushed then 1 else 0
  }

  lemma NothingHeld(p: Pool)
    requires JobsOnce(p) && p.queue == [] && forall i | 0 <= i < |p.workers| :: !HasJob(p.workers[i])
    ensures AllDone(p)
  {
    forall j: nat ensures p.done[j] == if j < p.pushed then 1 else 0 {
      if j < Pulled(p) { assert Served(p, j); }
    }
  }

  /** Until the next push after a return of `thpool_wait`, every job is done: whatever the main thread
      does there on its own overlaps no job. */
  lemma ClearIsDone(p: Pool)
    requires Inv(p) && p.clear
    ensures AllDone(p) && forall i | 0 <= i < |p.workers| :: !p.workers[i].Busy?
  {
    NothingHeld(p);
  }

  // ---------------------------------------------------------------- progress

  /** How many more steps a worker can take before it sleeps, what it can set off included. */
  function WorkerWeight(w: Worker): nat
  {
    match w
    case Asleep => 0
    case AtSem => 1
    case Leaving => 6
    case Busy(_) => 7
    case Counted => 7
    case Past => 8
    case Posting(_) => 17
  }

  function Weights(ws: seq<Worker>): nat
  {
    if ws == [] then 0 else WorkerWeight(ws[0]) + Weights(ws[1..])
  }

  function MainWeight(m: Main): nat
  {
    match m
    case Waiting => 0
    case WillWait => 1
    case LenZero => 2
    case HasLock => 3
    case Woken => 4
    case Ready => 5
    case Linked => 15
  }

  function CommandWeight(c: Command): nat
  {
    match c
    case Push => 22
    case Wait => 4
    case Local(_) => 1
  }

  function ScriptWeight(cs: seq<Command>): nat
  {
    if cs == [] then 0 else CommandWeight(cs[0]) + ScriptWeight(cs[1..])
  }

  /** Unfinished jobs, tokens, and the positions of the threads. */
  function Measure(p: Pool): nat
  {
    Weights(p.workers) + 11 * |p.queue| + (if p.sem then 8 else 0) + MainWeight(p.main) + ScriptWeight(p.script)
  }

  lemma {:induction false} WeightsUpdate(ws: seq<Worker>, i: nat, w: Worker)
    requires i < |ws|
    ensures Weights(ws[i := w]) == Weights(ws) - WorkerWeight(ws[i]) + WorkerWeight(w)
  {
    if i == 0 {
      assert ws[0 := w][1..] == ws[1..];
    } else {
      assert ws[i := w][1..] == ws[1..][i - 1 := w];
      WeightsUpdate(ws[1..], i - 1, w);
    }
  }

  lemma WakeWeight(ws: seq<Worker>, woken: nat)
    requires woken < |ws| ==> ws[woken].Asleep?
    ensures Weights(Wake(ws, woken)) <= Weights(ws) + 1
  {
    if woken < |ws| { WeightsUpdate(ws, woken, AtSem); }
  }

  predicate ByMain(st: Step)
  {
    st.DoLocal? || st.Enqueue? || st.MainPost? || st.Lock? || st.ReadLen? || st.ReadWorking? || st.Block? || st.Relock?
  }

  lemma MainDrops(p: Pool, st: Step)
    requires Inv(p) && Enabled(p, st) && ByMain(st)
    ensures Measure(Apply(p, st)) < Measure(p)
  {
    if st.MainPost? { WakeWeight(p.workers, st.woken); }
  }

  lemma PullDrops(p: Pool, i: nat)
    requires Enabled(p, Pull(i))
    ensures Measure(Apply(p, Pull(i))) < Measure(p)
  {
    WeightsUpdate(p.workers, i, Apply(p, Pull(i)).workers[i]);
  }

  lemma PostDrops(p: Pool, i: nat, woken: nat)
    requires Enabled(p, Post(i, woken))
    ensures Measure(Apply(p, Post(i, woken))) < Measure(p)
  {
    WeightsUpdate(p.workers, i, Busy(p.workers[i].job));
    WakeWeight(p.workers[i := Busy(p.workers[i].job)], woken);
  }

  lemma WorkerDrops(p: Pool, st: Step)
    requires Enabled(p, st) && !ByMain(st) && !Spurious(st)
    ensures Measure(Apply(p, st)) < Measure(p)
  {
    if st.Pull? {
      PullDrops(p, st.i);
    } else if st.Post? {
      PostDrops(p, st.i, st.woken);
    } else {
      WeightsUpdate(p.workers, st.i, Apply(p, st).workers[st.i]);
    }
  }

  /** Every step makes the measure smaller, but for a spurious wake-up, which adds at most four. */
  lemma StepDrops(p: Pool, st: Step)
    requires Inv(p) && Enabled(p, st)
    ensures if Spurious(st) then Measure(Apply(p, st)) <= Measure(p) + 4 else Measure(Apply(p, st)) < Measure(p)
  {
    if st.SpuriousWorker? {
      WeightsUpdate(p.workers, st.i, AtSem);
    } else if ByMain(st) {
      MainDrops(p, st);
    } else if !st.SpuriousMain? {
      WorkerDrops(p, st);
    }
  }

  /** The run is at a standstill: no step is left but spurious wake-ups. */
  ghost predicate Stuck(p: Pool)
  {
    forall st :: Enabled(p, st) ==> Spurious(st)
  }

  /** The main thread is through, every job has run exactly once, and the workers sleep. */
  ghost predicate AllThrough(p: Pool)
  {
    && p.main.Ready? && p.script == [] && p.queue == [] && AllDone(p)
    && forall i | 0 <= i < |p.workers| :: p.workers[i].Asleep?
  }

  lemma SomeCanWake(p: Pool) returns (woken: nat)
    ensures CanWake(p, woken)
  {
    if k :| 0 <= k < |p.workers| && p.workers[k].Asleep? { woken := k; } else { woken := |p.workers|; }
  }

  lemma StuckMain(p: Pool)
    requires Inv(p) && Stuck(p)
    ensures p.main.Ready? || p.main.Waiting?
  {
    var woken := SomeCanWake(p);
    assert !Enabled(p, MainPost(woken)) && !Enabled(p, ReadLen) && !Enabled(p, ReadWorking)
        && !Enabled(p, Block) && !Enabled(p, Relock);
  }

  lemma StuckPosting(p: Pool)
    requires Stuck(p)
    ensures forall i | 0 <= i < |p.workers| :: !p.workers[i].Posting?
  {
    var woken := SomeCanWake(p);
    forall i | 0 <= i < |p.workers| ensures !p.workers[i].Posting? {
      assert !Enabled(p, Post(i, woken));
    }
  }

  lemma StuckWorkers(p: Pool)
    requires Stuck(p) && (p.main.Ready? || p.main.Waiting?)
    ensures forall i | 0 <= i < |p.workers| :: p.workers[i].Asleep?
  {
    StuckPosting(p);
    forall i | 0 <= i < |p.workers| ensures p.workers[i].Asleep? {
      assert !Enabled(p, Take(i)) && !Enabled(p, Sleep(i)) && !Enabled(p, CountUp(i)) && !Enabled(p, Pull(i))
          && !Enabled(p, Finish(i)) && !Enabled(p, CountDown(i));
    }
  }

  /** No wake-up is lost: with at least one worker, a run comes to a standstill only when everything
      is done. */
  lemma NoDeadlock(p: Pool)
    requires Inv(p) && p.workers != [] && Stuck(p)
    ensures AllThrough(p)
  {
    StuckMain(p);
    StuckWorkers(p);
    assert p.workers[0].Asleep?;
    AsleepCount(p.workers);
    assert !Enabled(p, DoLocal) && !Enabled(p, Enqueue) && !Enabled(p, Lock);
    NothingHeld(p);
  }

  lemma {:induction false} AsleepCount(ws: seq<Worker>)
    requires forall i | 0 <= i < |ws| :: ws[i].Asleep?
    ensures CountWorking(ws) == 0
  {
    if ws != [] { AsleepCount(ws[1..]); }
  }

  // ---------------------------------------------------------------- runs

  predicate Allowed(p: Pool, steps: seq<Step>)
    decreases |steps|
  {
    steps == [] || (Enabled(p, steps[0]) && Allowed(Apply(p, steps[0]), steps[1..]))
  }

  function After(p: Pool, steps: seq<Step>): Pool
    requires Allowed(p, steps)
    decreases |steps|
  {
    if steps == [] then p else After(Apply(p, steps[0]), steps[1..])
  }

  function Count(steps: seq<Step>, spurious: bool): nat
  {
    if steps == [] then 0 else (if Spurious(steps[0]) == spurious then 1 else 0) + Count(steps[1..], spurious)
  }

  /** The invariants hold after every run, and a run is not longer than its spurious wake-ups allow. */
  lemma {:induction false} RunKeeps(p: Pool, steps: seq<Step>)
    requires Inv(p) && Allowed(p, steps)
    ensures var q := After(p, steps);
            Inv(q) && |q.workers| == |p.workers| &&
            Measure(q) + Count(steps, false) <= Measure(p) + 4 * Count(steps, true)
    decreases |steps|
  {
    if steps != [] {
      StepInv(p, steps[0]);
      StepDrops(p, steps[0]);
      RunKeeps(Apply(p, steps[0]), steps[1..]);
    }
  }

  /** Whatever the main thread's commands, the number of workers and the schedule: the length of a run
      is bounded but for spurious wake-ups, and a run that cannot go on has done every job exactly
      once and returned from every wait. */
  lemma RunsEnd(n: nat, script: seq<Command>, steps: seq<Step>)
    requires 0 < n && Allowed(Init(n, script), steps)
    ensures Count(steps, false) <= n + 5 + ScriptWeight(script) + 4 * Count(steps, true)
    ensures var q := After(Init(n, script), steps);
            Inv(q) && (Stuck(q) ==> AllThrough(q))
  {
    InitInv(n, script);
    RunKeeps(Init(n, script), steps);
    InitWeights(n);
    var q := After(Init(n, script), steps);
    if Stuck(q) { NoDeadlock(q); }
  }

  lemma {:induction false} InitWeights(n: nat)
    ensures Weights(seq(n, i => AtSem)) == n
  {
    if n > 0 {
      assert seq(n, i => AtSem)[1..] == seq(n - 1, i => AtSem);
      InitWeights(n - 1);
    }
  }
}
