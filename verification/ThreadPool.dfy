/** src/thpool.c as a transition system: workers that serve a job queue through a binary semaphore,
    and a main thread that pushes jobs and waits for them.

    A step is what one thread does while it holds one lock. Both condition variables behave as in
    POSIX.1-2017, `pthread_cond_wait`: a signal unblocks at least one waiting thread, and a thread may
    also wake up for no reason. Here a signal wakes exactly one thread, and any further wake-up is
    a spurious step. */
module ThreadPool {

  /** Where a worker is in `thread_do`. */
  datatype Worker =
    | AtSem               // about to test the semaphore
    | Asleep              // blocked in the wait of `bsem_wait`
    | Past                // past the semaphore, not counted as working yet
    | Counted             // counted as working, about to pull
    | Posting(job: nat)   // has pulled one of several jobs, still holds the queue's lock
    | Busy(job: nat)      // running the job's function
    | Leaving             // done with the job, or has found none

  /** Where the main thread is. */
  datatype Main =
    | Ready               // between two commands
    | Linked              // in `jobqueue_push`: the job is queued, the post is not done
    | HasLock             // in `thpool_wait`: holds `thcount_lock`, about to read `len`
    | LenZero             // has read that `len` is zero, about to read `num_threads_working`
    | WillWait            // has read a number that is not zero
    | Waiting             // blocked in the wait of `thpool_wait`
    | Woken               // about to take `thcount_lock` again

  /** What the main thread does: `thpool_add_work`, `thpool_wait`, or work of its own. */
  datatype Command = Push | Wait | Local(task: nat)

  /** Jobs are numbered in the order in which they are pushed. `done` counts how often each job's
      function has run to its end; `clear` says that nothing was pushed since the last return of
      `thpool_wait`. */
  datatype Pool = Pool(workers: seq<Worker>, queue: seq<nat>, sem: bool, working: int,
                       main: Main, script: seq<Command>, pushed: nat, done: multiset<nat>, clear: bool)

  function Init(n: nat, script: seq<Command>): Pool
  {
    Pool(seq(n, i => AtSem), [], false, 0, Ready, script, 0, multiset{}, true)
  }

  // ---------------------------------------------------------------- steps

  datatype Step =
    | DoLocal | Enqueue | MainPost(woken: nat)
    | Lock | ReadLen | ReadWorking | Block | Relock
    | Take(i: nat) | Sleep(i: nat) | CountUp(i: nat) | Pull(i: nat) | Post(i: nat, woken: nat)
    | Finish(i: nat) | CountDown(i: nat)
    | SpuriousWorker(i: nat) | SpuriousMain

  predicate Spurious(st: Step) { st.SpuriousWorker? || st.SpuriousMain? }

  /** The main thread holds `thcount_lock`. */
  predicate MainHolds(p: Pool) { p.main.HasLock? || p.main.LenZero? || p.main.WillWait? }

  /** Nobody holds the lock of the queue. */
  predicate QueueFree(p: Pool)
  {
    !p.main.Linked? && forall i | 0 <= i < |p.workers| :: !p.workers[i].Posting?
  }

  /** A signal on the semaphore wakes the worker `woken`, or nobody when nobody sleeps. */
  predicate CanWake(p: Pool, woken: nat)
  {
    if woken < |p.workers| then p.workers[woken].Asleep?
    else forall i | 0 <= i < |p.workers| :: !p.workers[i].Asleep?
  }

  function Wake(ws: seq<Worker>, woken: nat): (r: seq<Worker>)
    ensures |r| == |ws|
  {
    if woken < |ws| then ws[woken := AtSem] else ws
  }

  function Tail(cs: seq<Command>): seq<Command> { if cs == [] then [] else cs[1..] }

  predicate Enabled(p: Pool, st: Step)
  {
    match st
    case DoLocal => p.main.Ready? && p.script != [] && p.script[0].Local?
    case Enqueue => p.main.Ready? && p.script != [] && p.script[0].Push? && QueueFree(p)
    case MainPost(woken) => p.main.Linked? && CanWake(p, woken)
    case Lock => p.main.Ready? && p.script != [] && p.script[0].Wait?
    case ReadLen => p.main.HasLock?
    case ReadWorking => p.main.LenZero?
    case Block => p.main.WillWait?
    case Relock => p.main.Woken?
    case Take(i) => i < |p.workers| && p.workers[i].AtSem? && p.sem
    case Sleep(i) => i < |p.workers| && p.workers[i].AtSem? && !p.sem
    case CountUp(i) => i < |p.workers| && p.workers[i].Past? && !MainHolds(p)
    case Pull(i) => i < |p.workers| && p.workers[i].Counted? && QueueFree(p)
    case Post(i, woken) => i < |p.workers| && p.workers[i].Posting? && CanWake(p, woken)
    case Finish(i) => i < |p.workers| && p.workers[i].Busy?
    case CountDown(i) => i < |p.workers| && p.workers[i].Leaving? && !MainHolds(p)
    case SpuriousWorker(i) => i < |p.workers| && p.workers[i].Asleep?
    case SpuriousMain => p.main.Waiting?
  }

  function Apply(p: Pool, st: Step): (r: Pool)
    requires Enabled(p, st)
    ensures |r.workers| == |p.workers|
  {
    match st
    case DoLocal => p.(script := p.script[1..])
    case Enqueue =>
      p.(queue := p.queue + [p.pushed], pushed := p.pushed + 1, main := Linked, script := p.script[1..], clear := false)
    case MainPost(woken) => p.(sem := true, workers := Wake(p.workers, woken), main := Ready)
    case Lock => p.(main := HasLock)
    case ReadLen => p.(main := if p.queue == [] then LenZero else WillWait)
    case ReadWorking =>
      if p.working == 0 then p.(main := Ready, script := Tail(p.script), clear := true)
      else p.(main := WillWait)
    case Block => p.(main := Waiting)
    case Relock => p.(main := HasLock)
    case Take(i) => p.(workers := p.workers[i := Past], sem := false)
    case Sleep(i) => p.(workers := p.workers[i := Asleep])
    case CountUp(i) => p.(workers := p.workers[i := Counted], working := p.working + 1)
    case Pull(i) =>
      if p.queue == [] then p.(workers := p.workers[i := Leaving])
      else p.(workers := p.workers[i := if |p.queue| == 1 then Busy(p.queue[0]) else Posting(p.queue[0])],
              queue := p.queue[1..])
    case Post(i, woken) =>
      p.(sem := true, workers := Wake(p.workers[i := Busy(p.workers[i].job)], woken))
    case Finish(i) => p.(workers := p.workers[i := Leaving], done := p.done + multiset{p.workers[i].job})
    case CountDown(i) =>
      p.(workers := p.workers[i := AtSem], working := p.working - 1,
         main := if p.working == 1 && p.main.Waiting? then Woken else p.main)
    case SpuriousWorker(i) => p.(workers := p.workers[i := AtSem])
    case SpuriousMain => p.(main := Woken)
  }

  // ---------------------------------------------------------------- invariants

  predicate IsWorking(w: Worker) { w.Counted? || w.Posting? || w.Busy? || w.Leaving? }

  predicate HasJob(w: Worker) { w.Posting? || w.Busy? }

  function CountWorking(ws: seq<Worker>): nat
  {
    if ws == [] then 0 else (if IsWorking(ws[0]) then 1 else 0) + CountWorking(ws[1..])
  }

  /** Past the semaphore, and with a pull or a post to come. */
  predicate Bound(w: Worker) { w.Past? || w.Counted? || w.Posting? }

  /** A queued job has a wake-up under way: the semaphore is up, a post is pending, or a worker is
      past the semaphore and has not pulled yet. */
  predicate Awaited(p: Pool)
  {
    p.queue != [] ==>
      p.sem || p.main.Linked? ||
      exists i :: 0 <= i < |p.workers| && Bound(p.workers[i])
  }

  /** While the semaphore is up, somebody is about to test it, or nobody sleeps. */
  predicate Noticed(p: Pool)
  {
    p.sem ==> (exists i :: 0 <= i < |p.workers| && p.workers[i].AtSem?)
              || forall i | 0 <= i < |p.workers| :: !p.workers[i].Asleep?
  }

  function Pulled(p: Pool): int { p.pushed - |p.queue| }

  /** Job `j` is done, or some worker holds it. */
  ghost predicate Served(p: Pool, j: nat)
  {
    p.done[j] == 1 || exists i :: 0 <= i < |p.workers| && HasJob(p.workers[i]) && p.workers[i].job == j
  }

  /** Every job is queued, held by exactly one worker, or done exactly once; jobs leave the queue in
      the order in which they were pushed. */
  ghost predicate JobsOnce(p: Pool)
  {
    && 0 <= Pulled(p)
    && (forall k | 0 <= k < |p.queue| :: p.queue[k] == Pulled(p) + k)
    && (forall i | 0 <= i < |p.workers| && HasJob(p.workers[i]) ::
          p.workers[i].job < Pulled(p) && p.done[p.workers[i].job] == 0)
    && (forall i, k | 0 <= i < k < |p.workers| && HasJob(p.workers[i]) && HasJob(p.workers[k]) ::
          p.workers[i].job != p.workers[k].job)
    && (forall j: nat :: p.done[j] <= 1 && (Pulled(p) <= j ==> p.done[j] == 0))
    && (forall j: nat | j < Pulled(p) :: Served(p, j))
  }

  /** The main thread waits only while there is something to wait for, and believes the queue empty
      only while it is. */
  predicate WaitsForWork(p: Pool)
  {
    && (p.main.WillWait? || p.main.Waiting? ==> p.queue != [] || 0 < p.working)
    && (p.main.LenZero? ==> p.queue == [])
  }

  /** While `clear`, no job is queued or held. */
  predicate ClearMeans(p: Pool)
  {
    p.clear ==> p.queue == [] && !p.main.Linked? && forall i | 0 <= i < |p.workers| :: !HasJob(p.workers[i])
  }

  predicate InWait(p: Pool) { MainHolds(p) || p.main.Waiting? || p.main.Woken? }

  /** The command under way is the one at the head of the script. */
  predicate OnScript(p: Pool) { InWait(p) ==> p.script != [] && p.script[0].Wait? }

  ghost predicate Inv(p: Pool)
  {
    && p.working == CountWorking(p.workers)
    && Awaited(p) && Noticed(p) && JobsOnce(p) && WaitsForWork(p) && ClearMeans(p) && OnScript(p)
  }

  lemma {:induction false} CountUpdate(ws: seq<Worker>, i: nat, w: Worker)
    requires i < |ws|
    ensures CountWorking(ws[i := w]) ==
            CountWorking(ws) - (if IsWorking(ws[i]) then 1 else 0) + (if IsWorking(w) then 1 else 0)
  {
    if i == 0 {
      assert ws[0 := w][1..] == ws[1..];
    } else {
      assert ws[i := w][1..] == ws[1..][i - 1 := w];
      CountUpdate(ws[1..], i - 1, w);
    }
  }

  lemma {:induction false} CountPositive(ws: seq<Worker>, i: nat)
    requires i < |ws| && IsWorking(ws[i])
    ensures 0 < CountWorking(ws)
  {
    if i > 0 { CountPositive(ws[1..], i - 1); }
  }

  lemma {:induction false} CountZero(n: nat)
    ensures CountWorking(seq(n, i => AtSem)) == 0
  {
    if n > 0 {
      assert seq(n, i => AtSem)[1..] == seq(n - 1, i => AtSem);
      CountZero(n - 1);
    }
  }

  lemma InitInv(n: nat, script: seq<Command>)
    ensures Inv(Init(n, script))
  {
    CountZero(n);
  }

  // ---------------------------------------------------------------- every step keeps the invariants

  lemma WakeCount(ws: seq<Worker>, woken: nat)
    requires woken < |ws| ==> ws[woken].Asleep?
    ensures CountWorking(Wake(ws, woken)) == CountWorking(ws)
  {
    if woken < |ws| { CountUpdate(ws, woken, AtSem); }
  }

  lemma StepCount(p: Pool, st: Step)
    requires Inv(p) && Enabled(p, st)
    ensures Apply(p, st).working == CountWorking(Apply(p, st).workers)
  {
    match st
    case MainPost(woken) => WakeCount(p.workers, woken);
    case Take(i) => CountUpdate(p.workers, i, Past);
    case Sleep(i) => CountUpdate(p.workers, i, Asleep);
    case CountUp(i) => CountUpdate(p.workers, i, Counted);
    case Pull(i) => CountUpdate(p.workers, i, Apply(p, st).workers[i]);
    case Post(i, woken) =>
      CountUpdate(p.workers, i, Busy(p.workers[i].job));
      WakeCount(p.workers[i := Busy(p.workers[i].job)], woken);
    case Finish(i) => CountUpdate(p.workers, i, Leaving);
    case CountDown(i) => CountUpdate(p.workers, i, AtSem);
    case SpuriousWorker(i) => CountUpdate(p.workers, i, AtSem);
    case _ =>
  }

  lemma StepAwaited(p: Pool, st: Step)
    requires Inv(p) && Enabled(p, st)
    ensures Awaited(Apply(p, st))
  {
    var r := Apply(p, st);
    if st.Take? || st.Pull? {
      assert r.queue != [] ==> Bound(r.workers[st.i]);
    } else if r.queue != [] && !r.sem && !r.main.Linked? && !st.MainPost? && !st.Post? {
      var k :| 0 <= k < |p.workers| && Bound(p.workers[k]);
      assert Bound(r.workers[k]);
    }
  }

  lemma StepNoticed(p: Pool, st: Step)
    requires Inv(p) && Enabled(p, st)
    ensures Noticed(Apply(p, st))
  {
    var r := Apply(p, st);
    if st.MainPost? || st.Post? {
      if st.woken < |p.workers| { assert r.workers[st.woken].AtSem?; }
    } else if st.SpuriousWorker? || st.CountDown? {
      assert r.workers[st.i].AtSem?;
    } else if p.sem && exists k :: 0 <= k < |p.workers| && p.workers[k].Asleep? {
      var k :| 0 <= k < |p.workers| && p.workers[k].AtSem?;
      assert r.sem ==> r.workers[k].AtSem?;
    }
  }

  lemma StepWaits(p: Pool, st: Step)
    requires Inv(p) && Enabled(p, st)
    ensures WaitsForWork(Apply(p, st))
  {
    match st
    case Pull(i) => CountPositive(p.workers, i);
    case CountDown(i) => CountPositive(p.workers, i);
    case _ =>
  }

  lemma StepClear(p: Pool, st: Step)
    requires Inv(p) && Enabled(p, st)
    ensures ClearMeans(Apply(p, st))
  {
    if st.ReadWorking? && p.working == 0 {
      forall i | 0 <= i < |p.workers| ensures !HasJob(p.workers[i]) {
        if IsWorking(p.workers[i]) { CountPositive(p.workers, i); }
      }
    }
  }

  lemma PullJobs(p: Pool, i: nat)
    requires Inv(p) && Enabled(p, Pull(i)) && p.queue != []
    ensures JobsOnce(Apply(p, Pull(i)))
  {
    var r := Apply(p, Pull(i));
    assert Pulled(r) == Pulled(p) + 1;
    forall j: nat | j < Pulled(r) ensures Served(r, j) {
      if j == p.queue[0] {
        assert HasJob(r.workers[i]) && r.workers[i].job == j;
      } else if p.done[j] != 1 {
        assert Served(p, j);
        var k :| 0 <= k < |p.workers| && HasJob(p.workers[k]) && p.workers[k].job == j;
        assert r.workers[k] == p.workers[k];
      }
    }
  }

  lemma FinishJobs(p: Pool, i: nat)
    requires Inv(p) && Enabled(p, Finish(i))
    ensures JobsOnce(Apply(p, Finish(i)))
  {
    var r := Apply(p, Finish(i));
    forall j: nat | j < Pulled(r) ensures Served(r, j) {
      if p.done[j] != 1 && j != p.workers[i].job {
        assert Served(p, j);
        var k :| 0 <= k < |p.workers| && HasJob(p.workers[k]) && p.workers[k].job == j;
        assert r.workers[k] == p.workers[k];
      }
    }
  }

  lemma StepJobs(p: Pool, st: Step)
    requires Inv(p) && Enabled(p, st)
    ensures JobsOnce(Apply(p, st))
  {
    if st.Pull? && p.queue != [] {
      PullJobs(p, st.i);
    } else if st.Finish? {
      FinishJobs(p, st.i);
    } else {
      StillHeld(p, Apply(p, st));
    }
  }

  /** A step after which every worker holds the job that it held keeps the jobs in order. */
  lemma StillHeld(p: Pool, r: Pool)
    requires JobsOnce(p) && |r.workers| == |p.workers| && r.done == p.done
    requires Pulled(r) == Pulled(p) && forall k | 0 <= k < |r.queue| :: r.queue[k] == Pulled(r) + k
    requires forall i | 0 <= i < |p.workers| ::
               (HasJob(p.workers[i]) <==> HasJob(r.workers[i])) &&
               (HasJob(p.workers[i]) ==> p.workers[i].job == r.workers[i].job)
    ensures JobsOnce(r)
  {
    forall j: nat | j < Pulled(r) ensures Served(r, j) {
      assert Served(p, j);
      if p.done[j] != 1 {
        var i :| 0 <= i < |p.workers| && HasJob(p.workers[i]) && p.workers[i].job == j;
        assert HasJob(r.workers[i]) && r.workers[i].job == j;
      }
    }
  }

  /** Every step of every thread keeps the invariants. */
  lemma StepInv(p: Pool, st: Step)
    requires Inv(p) && Enabled(p, st)
    ensures Inv(Apply(p, st))
  {
    StepCount(p, st);
    StepAwaited(p, st);
    StepNoticed(p, st);
    StepWaits(p, st);
    StepClear(p, st);
    StepJobs(p, st);
  }

  /** What a step changes of the main thread's business. */
  lemma StepFrame(p: Pool, st: Step)
    requires Inv(p) && Enabled(p, st)
    ensures var q, back := Apply(p, st), st.ReadWorking? && p.working == 0;
            && q.pushed == p.pushed + (if st.Enqueue? then 1 else 0)
            && q.done == p.done + (if st.Finish? then multiset{p.workers[st.i].job} else multiset{})
            && q.clear == (if st.Enqueue? then false else if back then true else p.clear)
            && q.script == (if st.DoLocal? || st.Enqueue? || back then Tail(p.script) else p.script)
            && (InWait(q) <==> (InWait(p) || st.Lock?) && !back)
  { }

  // ---------------------------------------------------------------- locks and signals

  /** At most one thread holds the lock of the queue. */
  predicate OneHolder(p: Pool)
  {
    && (p.main.Linked? ==> forall i | 0 <= i < |p.workers| :: !p.workers[i].Posting?)
    && forall i, k | 0 <= i < k < |p.workers| :: !(p.workers[i].Posting? && p.workers[k].Posting?)
  }

  /** The lock of the queue has one holder at most, and while somebody holds it nobody else changes the queue;
      while the main thread holds `thcount_lock` the number of working threads stays. */
  lemma LocksHold(p: Pool, st: Step)
    requires Enabled(p, st) && OneHolder(p)
    ensures OneHolder(Apply(p, st))
    ensures !QueueFree(p) ==> Apply(p, st).queue == p.queue
    ensures MainHolds(p) ==> Apply(p, st).working == p.working
  { }

  /** Who sets the semaphore, and who is woken by whom: a worker goes on from its sleep by a post that picks it
      or for no reason, the main thread when the last working thread stops working or for no reason; and a
      worker posts just if it has left jobs in the queue. */
  lemma SignalsMean(p: Pool, st: Step)
    requires Enabled(p, st)
    ensures var q := Apply(p, st);
            && q.sem == (if st.MainPost? || st.Post? then true else if st.Take? then false else p.sem)
            && (forall i | 0 <= i < |p.workers| && p.workers[i].Asleep? ::
                  !q.workers[i].Asleep? <==>
                  (st.MainPost? && st.woken == i) || (st.Post? && st.woken == i) || (st.SpuriousWorker? && st.i == i))
            && (p.main.Waiting? ==>
                  (q.main == if st.SpuriousMain? || (st.CountDown? && q.working == 0) then Woken else Waiting))
            && (st.Pull? ==> (q.workers[st.i].Posting? <==> q.queue != []))
  { }
}
