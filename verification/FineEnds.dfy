/** Every run of the threaded program comes to an end, in steps as fine as one look at a slot of the table. */
module FineEnds {
  import opened Lines
  import opened Runs
  import opened Parallel
  import opened ParallelEnds
  import opened FineSteps
  import opened FineRuns
  import P = ThreadPool
  import PoolRuns

  /** How far a worker is with its line, out of a table of `n` slots. */
  function Progress(m: Micro, n: nat): nat
  {
    match m
    case Idle => 0
    case Probing(_, _, turn) => if turn <= n then 1 + turn else 0
    case Matched(_, _) => n + 2
    case Logged(_, _) => n + 3
  }

  /** The steps that a job has still to take: `n + 4` for each byte are enough. */
  function JobSteps(job: Job, m: Micro, n: nat): nat
  {
    if job.cur < job.hi then BytesCost(job, n, Progress(m, n)) else 0
  }

  function BytesCost(job: Job, n: nat, gone: nat): nat
    requires job.cur < job.hi
  {
    var all := Times(n + 4, job.hi - job.cur);
    if gone <= all then all - gone else 0
  }

  function StepsLeft(jobs: seq<Job>, ms: seq<Micro>, n: nat): nat
    requires |jobs| == |ms|
  {
    if jobs == [] then 0 else JobSteps(jobs[0], ms[0], n) + StepsLeft(jobs[1..], ms[1..], n)
  }

  lemma {:induction false} StepsUpdate(jobs: seq<Job>, ms: seq<Micro>, n: nat, j: nat, job: Job, m: Micro)
    requires j < |jobs| == |ms|
    ensures StepsLeft(jobs[j := job], ms[j := m], n) ==
            StepsLeft(jobs, ms, n) - JobSteps(jobs[j], ms[j], n) + JobSteps(job, m, n)
  {
    if j == 0 {
      assert jobs[0 := job][1..] == jobs[1..] && ms[0 := m][1..] == ms[1..];
    } else {
      assert jobs[j := job][1..] == jobs[1..][j - 1 := job] && ms[j := m][1..] == ms[1..][j - 1 := m];
      StepsUpdate(jobs[1..], ms[1..], n, j - 1, job, m);
    }
  }

  lemma {:induction false} StepsAppend(jobs: seq<Job>, ms: seq<Micro>, n: nat, job: Job)
    requires |jobs| == |ms|
    ensures StepsLeft(jobs + [job], ms + [Idle], n) == StepsLeft(jobs, ms, n) + JobSteps(job, Idle, n)
  {
    if jobs == [] {
      assert [] + [job] == [job] && [job][1..] == [] && ms + [Idle] == [Idle];
    } else {
      assert (jobs + [job])[1..] == jobs[1..] + [job] && (ms + [Idle])[1..] == ms[1..] + [Idle];
      StepsAppend(jobs[1..], ms[1..], n, job);
    }
  }

  /** Going on with a line, and being done with it, leave fewer steps. */
  lemma OnLessSteps(job: Job, m: Micro, m': Micro, n: nat)
    requires job.cur < job.hi && Progress(m, n) < Progress(m', n) <= n + 3
    ensures JobSteps(job, m', n) < JobSteps(job, m, n)
  {
    TimesPlus(n + 4, 1, job.hi - job.cur - 1);
    TimesIs(n + 4, 1);
  }

  lemma PassLessSteps(job: Job, job': Job, m: Micro, n: nat)
    requires job.cur < job'.cur && job.cur < job.hi == job'.hi && Progress(m, n) <= n + 3
    ensures JobSteps(job', Idle, n) < JobSteps(job, m, n)
  {
    TimesPlus(n + 4, 1, job.hi - job.cur - 1);
    TimesIs(n + 4, 1);
    if job'.cur < job'.hi { TimesPlus(n + 4, job'.hi - job'.cur, job'.cur - job.cur - 1); }
  }

  /** The worker of job `j` has gone on with its line, or is done with it. */
  predicate GoesFurther(f: Fine, f': Fine, j: nat, n: nat)
  {
    && j < |f.sys.jobs| == |f.micro| && f.sys.jobs[j].cur < f.sys.jobs[j].hi && Progress(f.micro[j], n) <= n + 3
    && |f'.sys.jobs| == |f'.micro| == |f.micro|
    && f'.sys.jobs == f.sys.jobs[j := f'.sys.jobs[j]] && f'.micro == f.micro[j := f'.micro[j]]
    && if f'.micro[j].Idle? then f.sys.jobs[j].cur < f'.sys.jobs[j].cur && f'.sys.jobs[j].hi == f.sys.jobs[j].hi
       else f'.sys.jobs[j] == f.sys.jobs[j] && Progress(f.micro[j], n) < Progress(f'.micro[j], n) <= n + 3
  }

  lemma LessLeft(f: Fine, f': Fine, j: nat, n: nat)
    requires GoesFurther(f, f', j, n)
    ensures StepsLeft(f'.sys.jobs, f'.micro, n) < StepsLeft(f.sys.jobs, f.micro, n)
  {
    StepsUpdate(f.sys.jobs, f.micro, n, j, f'.sys.jobs[j], f'.micro[j]);
    if f'.micro[j].Idle? {
      PassLessSteps(f.sys.jobs[j], f'.sys.jobs[j], f.micro[j], n);
    } else {
      OnLessSteps(f.sys.jobs[j], f.micro[j], f'.micro[j], n);
    }
  }

  lemma LookFurther(env: Env, f: Fine, i: nat)
    requires FineAble(env, f, Look(i)) && |f.sys.view| == env.slots
    requires Knows(env, f.sys, JobOf(f.sys, i), MicroOf(f, i))
    ensures GoesFurther(f, FineMove(env, f, Look(i)), f.sys.pool.workers[i].job, env.slots)
  {
    assert f.sys.jobs[f.sys.pool.workers[i].job := JobOf(f.sys, i)] == f.sys.jobs;
  }

  /** Every step of a worker goes further. */
  lemma WorkerFurther(env: Env, f: Fine, a: FineAct)
    requires !a.Other? && FineAble(env, f, a) && |f.sys.view| == env.slots
    requires Working(f, a.i) && Knows(env, f.sys, JobOf(f.sys, a.i), MicroOf(f, a.i))
    ensures GoesFurther(f, FineMove(env, f, a), f.sys.pool.workers[a.i].job, env.slots)
  {
    if a.Look? {
      LookFurther(env, f, a.i);
    } else {
      assert f.sys.jobs[f.sys.pool.workers[a.i].job := JobOf(f.sys, a.i)] == f.sys.jobs;
    }
  }

  lemma WorkerLess(env: Env, s: seq<Byte>, f: Fine, a: FineAct)
    requires FineInv(env, s, f) && !a.Other? && FineAble(env, f, a)
    ensures var f' := FineMove(env, f, a);
            |f'.micro| == |f'.sys.jobs| && f'.sys.pool == f.sys.pool &&
            StepsLeft(f'.sys.jobs, f'.micro, env.slots) < StepsLeft(f.sys.jobs, f.micro, env.slots)
  {
    assert Knows(env, f.sys, JobOf(f.sys, a.i), MicroOf(f, a.i));
    WorkerFurther(env, f, a);
    LessLeft(f, FineMove(env, f, a), f.sys.pool.workers[a.i].job, env.slots);
  }

  lemma PoolLeft(env: Env, f: Fine, st: P.Step)
    requires |f.micro| == |f.sys.jobs| && FineAble(env, f, Other(st))
    ensures var f' := FineMove(env, f, Other(st));
            |f'.micro| == |f'.sys.jobs| &&
            StepsLeft(f'.sys.jobs, f'.micro, env.slots) <=
            StepsLeft(f.sys.jobs, f.micro, env.slots) +
            if st.Enqueue? then Times(env.slots + 4, |f.sys.run.data|) else 0
  {
    var f' := FineMove(env, f, Other(st));
    if st.Enqueue? {
      var job := f'.sys.jobs[|f.sys.jobs|];
      StepsAppend(f.sys.jobs, f.micro, env.slots, job);
      TimesPlus(env.slots + 4, job.hi - job.cur, |f.sys.run.data| - (job.hi - job.cur));
    } else if st.Finish? {
      var j := f.sys.pool.workers[st.i].job;
      StepsUpdate(f.sys.jobs, f.micro, env.slots, j, f'.sys.jobs[j], f.micro[j]);
      assert f.micro[j := f.micro[j]] == f.micro;
    }
  }

  /** What is left to do: the steps of the pool, each worth `w`, and the steps of the jobs. */
  function FineWork(env: Env, w: nat, f: Fine): nat
    requires |f.micro| == |f.sys.jobs|
  {
    Times(w, PoolRuns.Measure(f.sys.pool)) + StepsLeft(f.sys.jobs, f.micro, env.slots)
  }

  lemma PoolWork(env: Env, f: Fine, st: P.Step, w: nat)
    requires |f.micro| == |f.sys.jobs| && P.Inv(f.sys.pool) && FineAble(env, f, Other(st))
    requires w == Times(env.slots + 4, |f.sys.run.data|) + 1
    ensures |FineMove(env, f, Other(st)).micro| == |FineMove(env, f, Other(st)).sys.jobs|
    ensures if P.Spurious(st) then FineWork(env, w, FineMove(env, f, Other(st))) <= FineWork(env, w, f) + 4 * w
            else FineWork(env, w, FineMove(env, f, Other(st))) < FineWork(env, w, f)
  {
    PoolLeft(env, f, st);
    PoolRuns.StepDrops(f.sys.pool, st);
    WorkDrops(w, PoolRuns.Measure(f.sys.pool), PoolRuns.Measure(P.Apply(f.sys.pool, st)));
  }

  /** Every step leaves less to do, but for a spurious wake-up. */
  lemma FineStepWork(env: Env, s: seq<Byte>, f: Fine, a: FineAct, w: nat)
    requires FineInv(env, s, f) && FineAble(env, f, a) && w == Times(env.slots + 4, |s|) + 1
    ensures |FineMove(env, f, a).micro| == |FineMove(env, f, a).sys.jobs|
    ensures if SpuriousFine(a) then FineWork(env, w, FineMove(env, f, a)) <= FineWork(env, w, f) + 4 * w
            else FineWork(env, w, FineMove(env, f, a)) < FineWork(env, w, f)
  {
    if a.Other? { PoolWork(env, f, a.st, w); } else { WorkerLess(env, s, f, a); }
  }

  function FineCount(run: seq<FineAct>, spurious: bool): nat
  {
    if run == [] then 0 else (if SpuriousFine(run[0]) == spurious then 1 else 0) + FineCount(run[1..], spurious)
  }

  predicate FinePays(w: nat, m: nat, m': nat, run: seq<FineAct>)
  {
    Pays(w, m, m', FineCount(run, false), FineCount(run, true))
  }

  lemma FinePaysFirst(w: nat, m: nat, m1: nat, m': nat, run: seq<FineAct>)
    requires run != [] && FinePays(w, m1, m', run[1..])
    requires if SpuriousFine(run[0]) then m1 <= m + 4 * w else m1 < m
    ensures FinePays(w, m, m', run)
  {
    PaysFirst(w, m, m1, m', FineCount(run[1..], false), FineCount(run[1..], true), SpuriousFine(run[0]));
  }

  lemma {:induction false} FineRunWork(env: Env, s: seq<Byte>, f: Fine, run: seq<FineAct>, w: nat)
    requires FineInv(env, s, f) && FinePossible(env, f, run) && w == Times(env.slots + 4, |s|) + 1
    ensures |FineAfter(env, f, run).micro| == |FineAfter(env, f, run).sys.jobs|
    ensures FinePays(w, FineWork(env, w, f), FineWork(env, w, FineAfter(env, f, run)), run)
    decreases |run|
  {
    if run != [] {
      var f1 := FineMove(env, f, run[0]);
      var acts := StepRefines(env, s, f, run[0]);
      FineStepWork(env, s, f, run[0], w);
      FineRunWork(env, s, f1, run[1..], w);
      FinePaysFirst(w, FineWork(env, w, f), FineWork(env, w, f1), FineWork(env, w, FineAfter(env, f, run)), run);
    }
  }

  lemma PaysBound(w: nat, m: nat, m': nat, steps: nat, wakes: nat)
    requires Pays(w, Times(w, m), m', steps, wakes)
    ensures steps <= w * m + 4 * w * wakes
  {
    TimesIs(w, m);
    TimesIs(4 * w, wakes);
  }

  /** Whatever the load, the number of workers and the interleaving: the length of a run is bounded but for
      spurious wake-ups. */
  lemma EveryInterleavingEnds(env: Env, s: seq<Byte>, threads: nat, run: seq<FineAct>) returns (w: nat)
    requires 0 < env.slots && FinePossible(env, BeginFine(env, s, threads), run)
    ensures w == (env.slots + 4) * |s| + 1
    ensures FineCount(run, false) <=
            w * PoolRuns.Measure(Begin(env, s, threads).pool) + 4 * w * FineCount(run, true)
  {
    var f := BeginFine(env, s, threads);
    w := Times(env.slots + 4, |s|) + 1;
    TimesIs(env.slots + 4, |s|);
    BeginRefines(env, s, threads);
    FineRunWork(env, s, f, run, w);
    PaysBound(w, PoolRuns.Measure(f.sys.pool), FineWork(env, w, FineAfter(env, f, run)),
              FineCount(run, false), FineCount(run, true));
  }
}
