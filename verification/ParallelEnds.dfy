/** The threaded program comes to an end, and within the load bound it deduplicates. */
module ParallelEnds {
  import opened Lines
  import opened LineLists
  import opened Chunks
  import opened Runs
  import opened Soundness
  import opened Exactness
  import opened Compaction
  import opened Reference
  import opened Parallel
  import opened ParallelSafety
  import opened ParallelRuns
  import P = ThreadPool
  import PoolRuns
  import Pipeline

  /** The bytes that jobs have still to read. */
  function Unread(jobs: seq<Job>): nat
  {
    if jobs == [] then 0
    else (if jobs[0].cur < jobs[0].hi then jobs[0].hi - jobs[0].cur else 0) + Unread(jobs[1..])
  }

  lemma {:induction false} UnreadUpdate(jobs: seq<Job>, j: nat, job: Job)
    requires j < |jobs| && job.hi == jobs[j].hi
    ensures jobs[j].cur == job.cur ==> Unread(jobs[j := job]) == Unread(jobs)
    ensures jobs[j].cur < job.cur && jobs[j].cur < job.hi ==> Unread(jobs[j := job]) < Unread(jobs)
  {
    if j == 0 {
      assert jobs[0 := job][1..] == jobs[1..];
    } else {
      assert jobs[j := job][1..] == jobs[1..][j - 1 := job];
      UnreadUpdate(jobs[1..], j - 1, job);
    }
  }

  lemma {:induction false} UnreadAppend(jobs: seq<Job>, job: Job)
    ensures Unread(jobs + [job]) == Unread(jobs) + (if job.cur < job.hi then job.hi - job.cur else 0)
  {
    if jobs == [] {
      assert [] + [job] == [job] && [job][1..] == [];
    } else {
      assert (jobs + [job])[1..] == jobs[1..] + [job];
      UnreadAppend(jobs[1..], job);
    }
  }

  /** `m` times `w`, as a sum. */
  function Times(w: nat, m: nat): nat { if m == 0 then 0 else w + Times(w, m - 1) }

  lemma {:induction false} TimesIs(w: nat, m: nat)
    ensures Times(w, m) == w * m
  {
    if m > 0 { TimesIs(w, m - 1); }
  }

  lemma {:induction false} TimesPlus(w: nat, m: nat, k: nat)
    ensures Times(w, m + k) == Times(w, m) + Times(w, k)
  {
    if k > 0 { TimesPlus(w, m, k - 1); }
  }

  /** What is left to do: the steps of the pool, each worth `w`, which is more than a whole file, and
      the bytes that jobs have still to read. */
  function Work(w: nat, y: System): nat
  {
    Times(w, PoolRuns.Measure(y.pool)) + Unread(y.jobs)
  }

  lemma CleanUnread(env: Env, y: System, i: nat)
    requires Able(env, y, Clean(i))
    ensures Unread(CleanLine(env, y, i).jobs) < Unread(y.jobs)
  {
    var j := y.pool.workers[i].job;
    UnreadUpdate(y.jobs, j, CleanLine(env, y, i).jobs[j]);
  }

  lemma SideUnread(env: Env, s: seq<Byte>, y: System, st: P.Step)
    requires |y.run.data| == |s| && Able(env, y, Sched(st))
    ensures Unread(Side(env, y, st).jobs) <= Unread(y.jobs) + if st.Enqueue? then |s| else 0
  {
    if st.Enqueue? {
      UnreadAppend(y.jobs, PushChunk(env, y).jobs[|y.jobs|]);
    } else if st.Finish? {
      var j := y.pool.workers[st.i].job;
      UnreadUpdate(y.jobs, j, ReportJob(y, st.i).jobs[j]);
    }
  }

  lemma StepWorkBy(env: Env, s: seq<Byte>, y: System, st: P.Step, w: nat)
    requires P.Inv(y.pool) && |y.run.data| == |s| && Able(env, y, Sched(st)) && w == |s| + 1
    ensures var y' := Move(env, y, Sched(st));
            if P.Spurious(st) then Work(w, y') <= Work(w, y) + 4 * w else Work(w, y') < Work(w, y)
  {
    SideUnread(env, s, y, st);
    PoolRuns.StepDrops(y.pool, st);
    WorkDrops(w, PoolRuns.Measure(y.pool), PoolRuns.Measure(P.Apply(y.pool, st)));
  }

  lemma WorkDrops(w: nat, m: nat, m': nat)
    ensures m' < m ==> Times(w, m') + w <= Times(w, m)
    ensures m' <= m + 4 ==> Times(w, m') <= Times(w, m) + 4 * w
  {
    TimesPlus(w, m, 4);
    TimesIs(w, 4);
    if m' <= m + 4 { TimesPlus(w, m', m + 4 - m'); }
    if m' < m { TimesPlus(w, m', m - m'); }
  }

  /** Every step leaves less to do, but for a spurious wake-up. */
  lemma StepWork(env: Env, s: seq<Byte>, y: System, act: Act, w: nat)
    requires P.Inv(y.pool) && |y.run.data| == |s| && Able(env, y, act) && w == |s| + 1
    ensures if SpuriousAct(act) then Work(w, Move(env, y, act)) <= Work(w, y) + 4 * w
            else Work(w, Move(env, y, act)) < Work(w, y)
  {
    match act
    case Clean(i) => CleanUnread(env, y, i);
    case Sched(st) => StepWorkBy(env, s, y, st, w);
  }

  function Count(acts: seq<Act>, spurious: bool): nat
  {
    if acts == [] then 0 else (if SpuriousAct(acts[0]) == spurious then 1 else 0) + Count(acts[1..], spurious)
  }

  /** So many steps and wake-ups can lead from `m` to `m'` left to do. */
  predicate Pays(w: nat, m: nat, m': nat, steps: nat, wakes: nat)
  {
    m' + steps <= m + Times(4 * w, wakes)
  }

  lemma PaysFirst(w: nat, m: nat, m1: nat, m': nat, steps: nat, wakes: nat, spurious: bool)
    requires Pays(w, m1, m', steps, wakes)
    requires if spurious then m1 <= m + 4 * w else m1 < m
    ensures if spurious then Pays(w, m, m', steps, wakes + 1) else Pays(w, m, m', steps + 1, wakes)
  { }

  predicate PaysFor(w: nat, m: nat, m': nat, acts: seq<Act>)
  {
    Pays(w, m, m', Count(acts, false), Count(acts, true))
  }

  lemma PaysForFirst(w: nat, m: nat, m1: nat, m': nat, acts: seq<Act>)
    requires acts != [] && PaysFor(w, m1, m', acts[1..])
    requires if SpuriousAct(acts[0]) then m1 <= m + 4 * w else m1 < m
    ensures PaysFor(w, m, m', acts)
  {
    PaysFirst(w, m, m1, m', Count(acts[1..], false), Count(acts[1..], true), SpuriousAct(acts[0]));
  }

  lemma {:induction false} RunWork(env: Env, s: seq<Byte>, y: System, acts: seq<Act>, w: nat)
    requires Safe(env, s, y) && Possible(env, y, acts) && w == |s| + 1
    ensures PaysFor(w, Work(w, y), Work(w, After(env, y, acts)), acts)
    decreases |acts|
  {
    if acts != [] {
      var y1 := Move(env, y, acts[0]);
      StepSafe(env, s, y, acts[0]);
      StepWork(env, s, y, acts[0], w);
      RunWork(env, s, y1, acts[1..], w);
      PaysForFirst(w, Work(w, y), Work(w, y1), Work(w, After(env, y, acts)), acts);
    }
  }

  /** Whatever the load, the number of workers and the schedule: the length of a run is bounded but
      for spurious wake-ups. */
  lemma ThreadsEnd(env: Env, s: seq<Byte>, threads: nat, acts: seq<Act>)
    requires 0 < env.slots && Possible(env, Begin(env, s, threads), acts)
    ensures Count(acts, false) <=
            (|s| + 1) * PoolRuns.Measure(Begin(env, s, threads).pool) + 4 * (|s| + 1) * Count(acts, true)
  {
    var w := |s| + 1;
    BeginSafe(env, s, threads);
    RunWork(env, s, Begin(env, s, threads), acts, w);
    TimesIs(w, PoolRuns.Measure(Begin(env, s, threads).pool));
    TimesIs(4 * w, Count(acts, true));
  }

  /** Within the load bound, whatever the number of workers and the schedule: a run that can go no
      further is through, rewriting its buffer gives the result of the reference program, and it has
      logged its duplicates and done every announced task. */
  lemma ThreadsDeduplicate(env: Env, s: seq<Byte>, threads: nat, acts: seq<Act>)
    requires 0 < env.slots && 0 < threads && LoadOk(env, s)
    requires Possible(env, Begin(env, s, threads), acts)
    requires Halted(env, After(env, Begin(env, s, threads), acts))
    ensures var y, n := After(env, Begin(env, s, threads), acts), |ChunksFrom(env.chunkSize, s, 0)|;
            PoolRuns.AllThrough(y.pool)
            && Output(|s|, Texts(All(env.conf, y.run.data))) == DedupeResult(env.conf, s)
            && multiset(y.run.log) == multiset(DedupeLists(env.conf, s).dupes)
            && y.run.duplicates == |All(env.conf, s)| - |First(All(env.conf, s))|
            && y.run.chunks == n && y.run.ctasks == Triangular(n)
  {
    ScheduleIndependence(env, s, threads, acts);
    Pipeline.EndToEnd(env, s);
  }
}
