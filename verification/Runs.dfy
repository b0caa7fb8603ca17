/** What src/dedupe.c does to the working file, chunk by chunk, as functions on the buffer. */
module Runs {
  import opened Lines
  import opened Index
  import opened Chunks

  /** The parameters of a run: line filter, hash function, chunk size and number of slots. */
  datatype Env = Env(conf: Filter, hash: Hash, chunkSize: nat, slots: nat)

  /** How a run ends: completed, through the error exit of `populate_hmap`, or not at all, in a
      look-up of `cleanout_chunk`. */
  datatype Outcome = Completed | ErrorExit | RunsForever

  /** The buffer, the lines logged as duplicates, and the counters `tagdup_duplicates`, `done_ctasks` and
      `done_chunks`. Duplicates are counted at the end of a task. */
  datatype Run = Run(data: seq<Byte>, log: seq<Text>, duplicates: nat, ctasks: nat, chunks: nat, outcome: Outcome)

  function Started(s: seq<Byte>): Run { Run(s, [], 0, 0, 0, Completed) }

  /** `populate_hmap` on the chunk `[p, e)`, and its task counted. */
  function AfterFill(env: Env, run: Run, p: nat, e: nat): (r: Run)
    requires p <= e <= |run.data| && 0 < env.slots
    ensures |r.data| == |run.data|
  {
    var f := Populate(env.hash, env.slots, Parse(env.conf, run.data, p, e));
    run.(data := Tag(run.data, f.tags), log := run.log + f.log,
         duplicates := run.duplicates + (if f.ok then |f.log| else 0),
         ctasks := run.ctasks + (if f.ok then 1 else 0), outcome := if f.ok then Completed else ErrorExit)
  }

  function ViewAfterFill(env: Env, run: Run, p: nat, e: nat): (v: View)
    requires p <= e <= |run.data| && 0 < env.slots
    ensures |v| == env.slots
  {
    Populate(env.hash, env.slots, Parse(env.conf, run.data, p, e)).view
  }

  /** `cleanout_chunk` on the chunk `[p, e)`. */
  function AfterSweep(env: Env, v: View, run: Run, p: nat, e: nat): (r: Run)
    requires p <= e <= |run.data| && 0 < |v|
    ensures |r.data| == |run.data|
  {
    var w := SweepLines(env.hash, v, Sweep({}, [], true), Parse(env.conf, run.data, p, e));
    run.(data := Tag(run.data, w.tags), log := run.log + w.log,
         duplicates := run.duplicates + (if w.live then |w.log| else 0),
         ctasks := run.ctasks + (if w.live then 1 else 0), outcome := if w.live then Completed else RunsForever)
  }

  /** `tag_subchunks`: `cleanout_chunk` on every chunk from `p` on. */
  function Subchunks(env: Env, v: View, run: Run, p: nat): (r: Run)
    requires p <= |run.data| && 0 < |v|
    ensures |r.data| == |run.data|
    ensures run.outcome == Completed ==> r.outcome != ErrorExit
    decreases |run.data| - p
  {
    if p == |run.data| || run.outcome != Completed then run
    else
      var e := NextEnd(env.chunkSize, run.data, p);
      Subchunks(env, v, AfterSweep(env, v, run, p, e), e)
  }

  /** What follows the indexing of a chunk that ends at `e`: nothing after the error exit, else the
      later chunks are swept, and the chunk is counted. */
  function Finish(env: Env, v: View, filled: Run, e: nat): (r: Run)
    requires e <= |filled.data| && 0 < |v|
    ensures |r.data| == |filled.data|
  {
    if filled.outcome != Completed then filled
    else
      var swept := Subchunks(env, v, filled, e);
      if swept.outcome != Completed then swept else swept.(chunks := swept.chunks + 1)
  }

  /** One phase of `tag_duplicates`: the chunk at `p` is indexed, and the later ones are swept. */
  function Phase(env: Env, run: Run, p: nat): (r: Run)
    requires p < |run.data| && 0 < env.slots
    ensures |r.data| == |run.data|
  {
    var e := NextEnd(env.chunkSize, run.data, p);
    Finish(env, ViewAfterFill(env, run, p, e), AfterFill(env, run, p, e), e)
  }

  /** `tag_duplicates`, from the phase of the chunk at `p` on. */
  function TagFrom(env: Env, run: Run, p: nat): (r: Run)
    requires p <= |run.data| && 0 < env.slots
    ensures |r.data| == |run.data|
    decreases |run.data| - p
  {
    if p == |run.data| || run.outcome != Completed then run
    else TagFrom(env, Phase(env, run, p), NextEnd(env.chunkSize, run.data, p))
  }
}
