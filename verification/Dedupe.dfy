/** src/dedupe.c without threads: `tag_duplicates` and `tag_subchunks`. */
module Dedupe {
  import opened Lines
  import opened Index
  import opened State
  import opened Hmap
  import opened Cleanout
  import opened Chunks
  import opened Runs

  function EnvOf(g: Globals): (env: Env)
    ensures env.slots == g.slots.Length
  {
    Env(g.conf, g.hash, g.chunkSize, g.slots.Length)
  }

  /** The duplicates file and the counters when `tag_duplicates` starts. */
  datatype Books = Books(dupfile: seq<Text>, duplicates: nat, ctasks: nat, chunks: nat)

  function BooksOf(g: Globals): Books
    reads g`dupfile, g.status
  {
    Books(g.dupfile, g.status.duplicates, g.status.doneCtasks, g.status.doneChunks)
  }

  /** The program has got as far as `run`. */
  ghost predicate HasRun(g: Globals, run: Run, was: Books)
    reads g.data, g`dupfile, g.status
  {
    && g.data[..] == run.data
    && g.dupfile == was.dupfile + (if g.hasDupfile then run.log else [])
    && g.status.doneCtasks == was.ctasks + run.ctasks
    && g.status.doneChunks == was.chunks + run.chunks
    && g.status.duplicates == was.duplicates + run.duplicates
  }

  lemma LogMore(a: seq<Text>, b: seq<Text>, d: seq<Text>, has: bool)
    ensures (a + if has then b else []) + (if has then d else []) == a + (if has then b + d else [])
  { }

  /** Cleans the chunk that `heapChunk` describes. */
  method CleanOne(g: Globals, heapChunk: Chunk, ghost v: View, ghost lo: nat, ghost hi: nat,
                  ghost run: Run, ghost was: Books)
    returns (live: bool, ghost run': Run)
    requires g.Fits() && hi <= heapChunk.ptr <= heapChunk.endptr <= g.data.Length
    requires HasRun(g, run, was) && run.outcome == Completed
    requires TableIs(g.base, g.data[..], g.slots[..], v, lo, hi)
    modifies heapChunk`ptr, g.data, g`dupfile, g.status`duplicates, g.status`doneCtasks
    ensures 0 < |v| && TableIs(g.base, g.data[..], g.slots[..], v, lo, hi)
    ensures run' == AfterSweep(EnvOf(g), v, run, old(heapChunk.ptr), heapChunk.endptr)
    ensures HasRun(g, run', was) && live == (run'.outcome == Completed)
  {
    ghost var p := heapChunk.ptr;
    live := CleanoutChunk(g, heapChunk, v, lo, hi);
    ghost var w := SweepLines(g.hash, v, Sweep({}, [], true), Parse(g.conf, run.data, p, heapChunk.endptr));
    run' := AfterSweep(EnvOf(g), v, run, p, heapChunk.endptr);
    LogMore(was.dupfile, run.log, w.log, g.hasDupfile);
  }

  /** `get_next_chunk` has set `chunk` to the chunk at `p`, or has found no chunk there. */
  ghost predicate Holds(chunk: Chunk, more: bool, chunkSize: nat, s: seq<Byte>, p: nat)
    requires p <= |s|
    reads chunk
  {
    if more then p < |s| && chunk.ptr == p && chunk.endptr == NextEnd(chunkSize, s, p)
    else p == |s|
  }

  /** `get_next_chunk` on a chunk that ends at `e`. */
  method Fetch(g: Globals, chunk: Chunk, ghost e: nat) returns (more: bool)
    requires 0 <= chunk.ptr <= chunk.endptr == e <= g.data.Length == g.size
    modifies chunk
    ensures Holds(chunk, more, g.chunkSize, g.data[..], e)
  {
    more := GetNextChunk(g, chunk);
  }

  /** One turn of the loop of `tag_subchunks`. */
  method CleanNext(g: Globals, chunk: Chunk, ghost v: View, ghost lo: nat, ghost hi: nat,
                   ghost run: Run, ghost was: Books)
    returns (more: bool, live: bool, ghost run': Run)
    requires g.Fits() && g.size == g.data.Length && hi <= chunk.ptr < g.data.Length == |run.data|
    requires Holds(chunk, true, g.chunkSize, run.data, chunk.ptr)
    requires HasRun(g, run, was) && run.outcome == Completed
    requires TableIs(g.base, g.data[..], g.slots[..], v, lo, hi)
    modifies chunk, g.data, g`dupfile, g.status`duplicates, g.status`doneCtasks
    ensures 0 < |v| && TableIs(g.base, g.data[..], g.slots[..], v, lo, hi)
    ensures run' == AfterSweep(EnvOf(g), v, run, old(chunk.ptr), old(chunk.endptr))
    ensures HasRun(g, run', was) && live == (run'.outcome == Completed)
    ensures live ==> Holds(chunk, more, g.chunkSize, run'.data, old(chunk.endptr))
  {
    var heapChunk := new Chunk(chunk.ptr, chunk.endptr);
    live, run' := CleanOne(g, heapChunk, v, lo, hi, run, was);
    more := false;
    if live {
      more := Fetch(g, chunk, chunk.endptr);
    }
  }

  /** The loop of `tag_subchunks` */
  method CleanRest(g: Globals, parent: Chunk, ghost v: View, ghost lo: nat, ghost run: Run, ghost was: Books)
    returns (live: bool, ghost run': Run)
    requires g.Fits() && g.size == g.data.Length && 0 <= parent.ptr <= parent.endptr <= g.data.Length
    requires HasRun(g, run, was) && run.outcome == Completed && |run.data| == g.data.Length
    requires TableIs(g.base, g.data[..], g.slots[..], v, lo, parent.endptr)
    modifies g.data, g`dupfile, g.status`duplicates, g.status`doneCtasks
    ensures 0 < |v| && run' == Subchunks(EnvOf(g), v, run, parent.endptr)
    ensures HasRun(g, run', was) && live == (run'.outcome == Completed)
  {
    assert |v| == g.slots.Length;
    ghost var n, env, hi := g.data.Length, EnvOf(g), parent.endptr;
    ghost var all := Subchunks(env, v, run, hi);
    var chunk := new Chunk(parent.ptr, parent.endptr);
    run', live := run, true;
    ghost var p := hi;
    var more := Fetch(g, chunk, hi);
    while more && live
      invariant hi <= p <= n && HasRun(g, run', was) && |run'.data| == n
      invariant TableIs(g.base, g.data[..], g.slots[..], v, lo, hi)
      invariant live == (run'.outcome == Completed) && Subchunks(env, v, run', p) == all
      invariant live ==> Holds(chunk, more, g.chunkSize, run'.data, p)
      decreases n - p
    {
      ghost var e := chunk.endptr;
      SubchunksStep(env, v, run', p);
      more, live, run' := CleanNext(g, chunk, v, lo, hi, run', was);
      p := e;
    }
    SubchunksEnd(env, v, run', p);
  }

  /** `tag_subchunks` */
  method TagSubchunks(g: Globals, parent: Chunk, ghost v: View, ghost lo: nat, ghost run: Run, ghost was: Books)
    returns (live: bool, ghost run': Run)
    requires g.Fits() && g.size == g.data.Length && 0 <= parent.ptr <= parent.endptr <= g.data.Length
    requires HasRun(g, run, was) && run.outcome == Completed && |run.data| == g.data.Length
    requires TableIs(g.base, g.data[..], g.slots[..], v, lo, parent.endptr)
    modifies g.data, g`dupfile, g.status`duplicates, g.status`doneCtasks, g.status`doneChunks
    ensures 0 < |v|
    ensures var r := Subchunks(EnvOf(g), v, run, parent.endptr);
            live == (r.outcome == Completed) && run' == (if live then r.(chunks := r.chunks + 1) else r)
    ensures HasRun(g, run', was)
  {
    live, run' := CleanRest(g, parent, v, lo, run, was);
    if live {
      g.status.doneChunks := g.status.doneChunks + 1;
      run' := run'.(chunks := run'.chunks + 1);
    }
  }

  lemma SubchunksEnd(env: Env, v: View, run: Run, p: nat)
    requires p <= |run.data| && 0 < |v| && (p == |run.data| || run.outcome != Completed)
    ensures Subchunks(env, v, run, p) == run
  { }

  lemma SubchunksStep(env: Env, v: View, run: Run, p: nat)
    requires p < |run.data| && 0 < |v| && run.outcome == Completed
    ensures var e := NextEnd(env.chunkSize, run.data, p);
            Subchunks(env, v, run, p) == Subchunks(env, v, AfterSweep(env, v, run, p, e), e)
  { }

  /** Indexes `chunk`, and counts it as a task done. */
  method FillOne(g: Globals, chunk: Chunk, ghost run: Run, ghost was: Books)
    returns (ok: bool, ghost run': Run, ghost v: View)
    requires g.Fits() && 0 <= chunk.ptr <= chunk.endptr <= g.data.Length
    requires HasRun(g, run, was) && run.outcome == Completed
    modifies chunk`ptr, g.data, g.slots, g`dupfile, g.status`duplicates, g.status`doneCtasks
    ensures old(chunk.ptr) <= chunk.ptr <= chunk.endptr
    ensures run' == AfterFill(EnvOf(g), run, old(chunk.ptr), chunk.endptr)
    ensures HasRun(g, run', was) && ok == (run'.outcome == Completed)
    ensures v == ViewAfterFill(EnvOf(g), run, old(chunk.ptr), chunk.endptr)
    ensures TableIs(g.base, g.data[..], g.slots[..], v, old(chunk.ptr), chunk.endptr)
  {
    ghost var p := chunk.ptr;
    ok := PopulateHmap(g, chunk);
    ghost var f := Populate(g.hash, g.slots.Length, Parse(g.conf, run.data, p, chunk.endptr));
    LogMore(was.dupfile, run.log, f.log, g.hasDupfile);
    run' := AfterFill(EnvOf(g), run, p, chunk.endptr);
    v := ViewAfterFill(EnvOf(g), run, p, chunk.endptr);
    TableFrame(g.base, g.data[..], g.data[..], g.slots[..], v,
               p, chunk.ptr, chunk.endptr);
    if ok {
      g.status.doneCtasks := g.status.doneCtasks + 1;
    }
  }

  /** One turn of the loop of `tag_duplicates`. */
  method OnePhase(g: Globals, chunk: Chunk, ghost run: Run, ghost was: Books)
    returns (outcome: Outcome, ghost run': Run)
    requires g.Fits() && g.size == g.data.Length == |run.data| && 0 <= chunk.ptr < g.data.Length
    requires Holds(chunk, true, g.chunkSize, run.data, chunk.ptr)
    requires HasRun(g, run, was) && run.outcome == Completed
    modifies chunk`ptr, g.data, g.slots, g`dupfile, g.status`duplicates, g.status`doneCtasks, g.status`doneChunks
    ensures 0 <= chunk.ptr <= chunk.endptr
    ensures run' == Phase(EnvOf(g), run, old(chunk.ptr))
    ensures HasRun(g, run', was) && outcome == run'.outcome
  {
    ghost var p, e := chunk.ptr, chunk.endptr;
    var ok, live;
    ghost var v;
    ok, run', v := FillOne(g, chunk, run, was);
    if !ok {
      return ErrorExit, run';
    }
    live, run' := TagSubchunks(g, chunk, v, p, run', was);
    outcome := if live then Completed else RunsForever;
  }

  /** One turn of the loop of `tag_duplicates`, up to the next chunk. */
  method PhaseNext(g: Globals, chunk: Chunk, ghost run: Run, ghost was: Books)
    returns (more: bool, outcome: Outcome, ghost run': Run)
    requires g.Fits() && g.size == g.data.Length == |run.data| && 0 <= chunk.ptr < g.data.Length
    requires Holds(chunk, true, g.chunkSize, run.data, chunk.ptr)
    requires HasRun(g, run, was) && run.outcome == Completed
    modifies chunk, g.data, g.slots, g`dupfile, g.status`duplicates, g.status`doneCtasks, g.status`doneChunks
    ensures run' == Phase(EnvOf(g), run, old(chunk.ptr))
    ensures HasRun(g, run', was) && outcome == run'.outcome
    ensures outcome == Completed ==> Holds(chunk, more, g.chunkSize, run'.data, old(chunk.endptr))
  {
    outcome, run' := OnePhase(g, chunk, run, was);
    more := false;
    if outcome == Completed {
      more := Fetch(g, chunk, chunk.endptr);
    }
  }

  lemma TagStep(env: Env, run: Run, p: nat)
    requires p < |run.data| && 0 < env.slots && run.outcome == Completed
    ensures TagFrom(env, run, p) == TagFrom(env, Phase(env, run, p), NextEnd(env.chunkSize, run.data, p))
  { }

  /** `tag_duplicates`: the buffer, the duplicates file and the counters end as `TagFrom` says. */
  method TagDuplicates(g: Globals) returns (outcome: Outcome)
    requires g.Fits() && g.size == g.data.Length > 0
    modifies g.data, g.slots, g`dupfile, g.status`duplicates, g.status`doneCtasks, g.status`doneChunks
    ensures var r := TagFrom(EnvOf(g), Started(old(g.data[..])), 0);
            outcome == r.outcome && HasRun(g, r, old(BooksOf(g)))
  {
    ghost var n, env, was := g.data.Length, EnvOf(g), BooksOf(g);
    ghost var run, p := Started(g.data[..]), 0;
    ghost var all := TagFrom(env, run, p);
    outcome := Completed;
    var mainChunk := new Chunk(NULL, NULL);
    var more := GetNextChunk(g, mainChunk);
    while more && outcome == Completed
      invariant p <= n && HasRun(g, run, was) && |run.data| == n && outcome == run.outcome
      invariant TagFrom(env, run, p) == all
      invariant outcome == Completed ==> Holds(mainChunk, more, g.chunkSize, run.data, p)
      decreases n - p
    {
      ghost var e := mainChunk.endptr;
      TagStep(env, run, p);
      more, outcome, run := PhaseNext(g, mainChunk, run, was);
      p := e;
    }
  }
}
