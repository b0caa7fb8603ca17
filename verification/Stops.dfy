/** How far the loops of src/hmap.c, src/chunk.c and src/dedupe.c get: each takes its lines or chunks in order,
    one at a time, and does nothing more once an exit is taken or a look-up never ends. */
module Stops {
  import opened Lines
  import opened Index
  import opened Chunks
  import opened Runs
  import opened Soundness
  import opened Counts

  /** A loop from `st` does `step` with one of the `xs` after the other, as long as its state is `on`, and
      ends in `r`. */
  ghost predicate Loop<S, X>(step: (S, X) --> S, on: S -> bool, st: S, xs: seq<X>, r: S)
    decreases |xs|
  {
    if xs == [] || !on(st) then r == st
    else step.requires(st, xs[0]) && Loop(step, on, step(st, xs[0]), xs[1..], r)
  }

  /** `tr` are the states of such a loop, up to one that is not `on` any more, or after the last of the `xs`. */
  ghost predicate Trace<S, X>(step: (S, X) --> S, on: S -> bool, tr: seq<S>, xs: seq<X>)
  {
    && 0 < |tr| <= |xs| + 1
    && (forall i | 0 <= i < |tr| - 1 ::
          on(tr[i]) && step.requires(tr[i], xs[i]) && tr[i + 1] == step(tr[i], xs[i]))
    && (|tr| <= |xs| ==> !on(tr[|tr| - 1]))
  }

  /** A loop has gone through one state after the other. */
  lemma {:induction false} LoopTrace<S, X>(step: (S, X) --> S, on: S -> bool, st: S, xs: seq<X>, r: S)
    returns (tr: seq<S>)
    requires Loop(step, on, st, xs, r)
    ensures Trace(step, on, tr, xs) && tr[0] == st && tr[|tr| - 1] == r
    decreases |xs|
  {
    tr := [st];
    if xs != [] && on(st) {
      var rest := LoopTrace(step, on, step(st, xs[0]), xs[1..], r);
      tr := [st] + rest;
      forall i | 0 <= i < |rest|
        ensures on(tr[i]) && step.requires(tr[i], xs[i]) && tr[i + 1] == step(tr[i], xs[i])
      {
        if i > 0 { assert tr[i] == rest[i - 1] && xs[i] == xs[1..][i - 1]; }
      }
    }
  }

  // ---------------------------------------------------------------- lines

  function Filling(hash: Hash): (Fill, Line) --> Fill
  {
    (st: Fill, ln: Line) requires 0 < |st.view| => FillLine(hash, st, ln)
  }

  function Sweeping(hash: Hash, v: View): (Sweep, Line) -> Sweep
    requires 0 < |v|
  {
    (st: Sweep, ln: Line) => SweepLine(hash, v, st, ln)
  }

  /** Indexing ends after the last line, or after the one that takes the error exit. */
  lemma {:induction false} FillStops(hash: Hash, st: Fill, ls: seq<Line>)
    requires 0 < |st.view|
    ensures Loop(Filling(hash), (f: Fill) => f.ok, st, ls, FillLines(hash, st, ls))
    decreases |ls|
  {
    if ls != [] && st.ok { FillStops(hash, FillLine(hash, st, ls[0]), ls[1..]); }
  }

  /** A sweep ends after the last line, or stays at the one whose look-up never ends. */
  lemma {:induction false} SweepStops(hash: Hash, v: View, st: Sweep, ls: seq<Line>)
    requires 0 < |v|
    ensures Loop(Sweeping(hash, v), (w: Sweep) => w.live, st, ls, SweepLines(hash, v, st, ls))
    decreases |ls|
  {
    if ls != [] && st.live { SweepStops(hash, v, SweepLine(hash, v, st, ls[0]), ls[1..]); }
  }

  // ---------------------------------------------------------------- chunks

  /** The sweep of a later chunk, on the buffer, the log and the counters that the one before left. */
  function Cleaning(env: Env, v: View): (Run, Span) --> Run
    requires 0 < |v|
  {
    (run: Run, sp: Span) requires sp.lo <= sp.hi <= |run.data| => AfterSweep(env, v, run, sp.lo, sp.hi)
  }

  /** The phase of a chunk. */
  function Phasing(env: Env): (Run, Span) --> Run
    requires 0 < env.slots
  {
    (run: Run, sp: Span) requires sp.lo < |run.data| => Phase(env, run, sp.lo)
  }

  function On(): Run -> bool { (run: Run) => run.outcome == Completed }

  lemma SweepKeepsChunks(env: Env, v: View, run: Run, p: nat)
    requires p < |run.data| && Boundary(run.data, p) && 0 < |v|
    ensures var e := NextEnd(env.chunkSize, run.data, p);
            var t := AfterSweep(env, v, run, p, e).data;
            Boundary(t, e) && ChunksFrom(env.chunkSize, t, e) == ChunksFrom(env.chunkSize, run.data, e)
  {
    var e := NextEnd(env.chunkSize, run.data, p);
    SweepPrefix(env, v, run, p, e);
    ChunksStable(env.chunkSize, run.data, AfterSweep(env, v, run, p, e).data, e);
  }

  /** The later chunks are swept in order, until a look-up never ends. */
  lemma {:induction false} SubchunksStop(env: Env, v: View, run: Run, p: nat)
    requires p <= |run.data| && Boundary(run.data, p) && 0 < |v|
    ensures Loop(Cleaning(env, v), On(), run, ChunksFrom(env.chunkSize, run.data, p), Subchunks(env, v, run, p))
    decreases |run.data| - p
  {
    if p < |run.data| && run.outcome == Completed {
      var e := NextEnd(env.chunkSize, run.data, p);
      SweepKeepsChunks(env, v, run, p);
      SubchunksStop(env, v, AfterSweep(env, v, run, p, e), e);
    }
  }

  lemma PhaseKeepsChunks(env: Env, run: Run, p: nat)
    requires p < |run.data| && Boundary(run.data, p) && 0 < env.slots
    ensures var e, t := NextEnd(env.chunkSize, run.data, p), Phase(env, run, p).data;
            Boundary(t, e) && ChunksFrom(env.chunkSize, t, e) == ChunksFrom(env.chunkSize, run.data, e)
  {
    PhaseCount(env, run, p);
    PhaseEnds(env, run, p);
    ChunksStable(env.chunkSize, run.data, Phase(env, run, p).data, NextEnd(env.chunkSize, run.data, p));
  }

  /** Every chunk has its phase, in order, until one does not complete. */
  lemma {:induction false} RunStops(env: Env, run: Run, p: nat)
    requires p <= |run.data| && Boundary(run.data, p) && 0 < env.slots
    ensures Loop(Phasing(env), On(), run, ChunksFrom(env.chunkSize, run.data, p), TagFrom(env, run, p))
    decreases |run.data| - p
  {
    if p < |run.data| && run.outcome == Completed {
      PhaseKeepsChunks(env, run, p);
      RunStops(env, Phase(env, run, p), NextEnd(env.chunkSize, run.data, p));
    }
  }

  lemma FillKeepsChunks(env: Env, run: Run, p: nat, e: nat)
    requires p <= e <= |run.data| && 0 < env.slots && Boundary(run.data, p) && Boundary(run.data, e)
    ensures var t := AfterFill(env, run, p, e).data;
            Boundary(t, e) && ChunksFrom(env.chunkSize, t, e) == ChunksFrom(env.chunkSize, run.data, e)
  {
    FillPrefix(env, run, p, e);
    ChunksStable(env.chunkSize, run.data, AfterFill(env, run, p, e).data, e);
  }

  /** A phase: after the error exit nothing is swept or counted; else the later chunks are swept, and the chunk
      is counted when all the sweeps have ended. */
  lemma PhaseMeans(env: Env, run: Run, p: nat) returns (last: Run)
    requires p < |run.data| && Boundary(run.data, p) && 0 < env.slots && run.outcome == Completed
    ensures var e, r := NextEnd(env.chunkSize, run.data, p), Phase(env, run, p);
            var filled := AfterFill(env, run, p, e);
            if filled.outcome != Completed then r == filled
            else
              Loop(Cleaning(env, ViewAfterFill(env, run, p, e)), On(), filled,
                   ChunksFrom(env.chunkSize, run.data, e), last) &&
              r == if last.outcome == Completed then last.(chunks := run.chunks + 1) else last
  {
    var e := NextEnd(env.chunkSize, run.data, p);
    var filled := AfterFill(env, run, p, e);
    var v := ViewAfterFill(env, run, p, e);
    FillKeepsChunks(env, run, p, e);
    last := Subchunks(env, v, filled, e);
    if filled.outcome == Completed { SubchunksStop(env, v, filled, e); SubchunksDone(env, v, filled, e); }
  }
}
