/** src/dedupe.c with threads: the program as a transition system over the thread pool and the
    working file, and what every one of its steps keeps true.

    A step is a step of the pool, or one physical line read, looked up and possibly tagged by
    a worker. The table is read through the texts that its entries point at. */
module Parallel {
  import opened Lines
  import opened Index
  import opened Chunks
  import opened Runs
  import opened Sweeps
  import P = ThreadPool

  // ---------------------------------------------------------------- the program

  /** A job of the pool: the chunk that a `heap_chunk` describes, where its reader has come to, and
      the duplicates that it has counted and not yet reported. */
  datatype Job = Job(lo: nat, hi: nat, cur: nat, found: nat)

  /** Where the loop of `tag_duplicates` is: about to fetch a chunk, in `tag_subchunks`, or done with
      it and to call `thpool_wait`. */
  datatype Stage = Between | Pushing | Barrier

  /** `mainEnd` and `subEnd` are the `endptr` of `main_chunk` and of the `chunk` of `tag_subchunks`.
      Two fields are there for the proofs alone: `first`, the number of jobs pushed before this phase,
      and `model`, a run without threads: at the same place between phases, else just after the
      indexing of this phase's chunk. */
  datatype System = System(pool: P.Pool, run: Run, view: View, mainEnd: nat, subEnd: nat, jobs: seq<Job>,
                           stage: Stage, first: nat, model: Run)

  /** The two pieces of work that the main thread does between waits and pushes: indexing a chunk,
      and counting it as done. */
  const INDEX := 0
  const COUNT := 1

  function Pushes(n: nat): (cs: seq<P.Command>) { if n == 0 then [] else [P.Push] + Pushes(n - 1) }

  /** The commands of `tag_duplicates` over `n` chunks; it waits only once it has a pool. */
  function Script(n: nat, pooled: bool): seq<P.Command>
  {
    if n == 0 then []
    else [P.Local(INDEX)] + Pushes(n - 1) + [P.Local(COUNT)] + (if pooled then [P.Wait] else []) + Script(n - 1, pooled)
  }

  /** The number of chunks from `p` on. */
  function Left(env: Env, s: seq<Byte>, p: nat): nat
    requires p <= |s|
  {
    |ChunksFrom(env.chunkSize, s, p)|
  }

  function Begin(env: Env, s: seq<Byte>, threads: nat): System
  {
    System(P.Init(threads, Script(Left(env, s, 0), 1 < Left(env, s, 0))), Started(s), Blank(env.slots), 0, 0, [],
           Between, 0, Started(s))
  }

  datatype Act = Sched(st: P.Step) | Clean(i: nat)

  /** Worker `i` is running a job of the table. */
  predicate HasChunk(y: System, i: nat)
  {
    i < |y.pool.workers| && y.pool.workers[i].Busy? && y.pool.workers[i].job < |y.jobs|
  }

  function JobOf(y: System, i: nat): Job
    requires HasChunk(y, i)
  {
    y.jobs[y.pool.workers[i].job]
  }

  /** Its chunk has lines to read. */
  predicate Reading(y: System, i: nat)
    requires HasChunk(y, i)
  {
    JobOf(y, i).cur < JobOf(y, i).hi <= |y.run.data|
  }

  /** The physical line at its place, as a list: empty unless the line is valid. */
  function LineHead(env: Env, y: System, i: nat): seq<Line>
    requires HasChunk(y, i) && Reading(y, i)
  {
    var job := JobOf(y, i);
    Head(env.conf, y.run.data, job.cur, job.hi)
  }

  /** What the guards of the loops of `tag_duplicates` and `tag_subchunks` say of the main thread's
      next command. */
  predicate Guard(y: System, cmd: P.Command)
  {
    match cmd
    case Local(task) =>
      if task == INDEX then y.stage.Between? && y.mainEnd < |y.run.data|
      else task == COUNT && y.stage.Pushing? && y.subEnd == |y.run.data|
    case Push => y.stage.Pushing? && y.subEnd < |y.run.data|
    case Wait => y.stage.Barrier?
  }

  /** The program has not stopped; the other conditions always hold. */
  predicate Running(env: Env, y: System)
  {
    y.run.outcome == Completed && 0 < env.slots && 0 < |y.view| && y.mainEnd <= |y.run.data| == |y.model.data|
  }

  /** A step that the program can take. */
  predicate Able(env: Env, y: System, act: Act)
  {
    Running(env, y) &&
    match act
    case Sched(st) =>
      && P.Enabled(y.pool, st)
      && (st.DoLocal? || st.Enqueue? || st.Lock? ==> Guard(y, y.pool.script[0]))
      && (st.Finish? ==> HasChunk(y, st.i) && JobOf(y, st.i).cur == JobOf(y, st.i).hi)
    case Clean(i) =>
      && HasChunk(y, i) && Reading(y, i)
      && forall ln | ln in LineHead(env, y, i) :: !Endless(env.hash, y.view, ln)
  }

  /** The phase under way is over. */
  function EndPhase(env: Env, y: System): System
    requires y.mainEnd <= |y.model.data| && 0 < |y.view|
  {
    y.(stage := Between, model := Finish(env, y.view, y.model, y.mainEnd))
  }

  /** `populate_hmap` on the next chunk. */
  function IndexChunk(env: Env, y: System): System
    requires 0 < env.slots && y.mainEnd <= |y.run.data| == |y.model.data|
  {
    var p := y.mainEnd;
    var e := NextEnd(env.chunkSize, y.run.data, p);
    var run := AfterFill(env, y.run, p, e);
    y.(run := run, model := AfterFill(env, y.model, p, e), view := ViewAfterFill(env, y.run, p, e),
       mainEnd := e, subEnd := e, first := |y.jobs|, stage := Pushing)
  }

  /** `update_status(CHUNK_DONE)`; there is no pool to wait for unless a job has been pushed. */
  function CountChunk(env: Env, y: System): System
    requires y.mainEnd <= |y.model.data| && 0 < |y.view|
  {
    var y' := y.(run := y.run.(chunks := y.run.chunks + 1));
    if y.jobs == [] then EndPhase(env, y') else y'.(stage := Barrier)
  }

  /** `get_next_chunk` and the making of a job. */
  function PushChunk(env: Env, y: System): System
    requires y.subEnd <= |y.run.data|
  {
    var e := NextEnd(env.chunkSize, y.run.data, y.subEnd);
    y.(jobs := y.jobs + [Job(y.subEnd, e, y.subEnd, 0)], subEnd := e)
  }

  /** The end of `cleanout_chunk`. */
  function ReportJob(y: System, i: nat): System
    requires HasChunk(y, i)
  {
    y.(run := y.run.(ctasks := y.run.ctasks + 1, duplicates := y.run.duplicates + JobOf(y, i).found),
       jobs := y.jobs[y.pool.workers[i].job := JobOf(y, i).(found := 0)])
  }

  /** One line of the loop of `cleanout_chunk`. */
  function CleanLine(env: Env, y: System, i: nat): System
    requires 0 < |y.view| && HasChunk(y, i) && Reading(y, i)
  {
    var job := JobOf(y, i);
    var ls := LineHead(env, y, i);
    var next := job.(cur := Next(y.run.data, job.cur, job.hi));
    if ls != [] && Probe(y.view, ls[0].text, Home(env.hash, ls[0].text, |y.view|), 0, |y.view|).Match? then
      y.(run := y.run.(data := Tag(y.run.data, {job.cur}), log := y.run.log + [ls[0].text]),
         jobs := y.jobs[y.pool.workers[i].job := next.(found := job.found + 1)])
    else
      y.(jobs := y.jobs[y.pool.workers[i].job := next])
  }

  /** What a step of the pool means to the program. */
  function Side(env: Env, y: System, st: P.Step): System
    requires Able(env, y, Sched(st))
  {
    if st.DoLocal? then (if y.pool.script[0].task == INDEX then IndexChunk(env, y) else CountChunk(env, y))
    else if st.Enqueue? then PushChunk(env, y)
    else if st.Finish? then ReportJob(y, st.i)
    else if Returns(y, st) then EndPhase(env, y)
    else y
  }

  /** `thpool_wait` returns. */
  predicate Returns(y: System, st: P.Step) { st.ReadWorking? && y.pool.working == 0 }

  function Move(env: Env, y: System, act: Act): System
    requires Able(env, y, act)
  {
    match act
    case Clean(i) => CleanLine(env, y, i)
    case Sched(st) => Side(env, y, st).(pool := P.Apply(y.pool, st))
  }
}
