/** What every step of the threaded program keeps true, whatever the load of the table. */
module ParallelSafety {
  import opened Lines
  import opened LineLists
  import opened Index
  import opened Chunks
  import opened Runs
  import opened Soundness
  import opened Exactness
  import opened Sweeps
  import opened Parallel
  import P = ThreadPool
  import State
  import TaggedLine
  import opened PoolRuns

  // ---------------------------------------------------------------- invariants

  /** A reader of this phase has passed the byte `k`. */
  predicate Passed(y: System, k: nat)
  {
    exists j :: y.first <= j < |y.jobs| && y.jobs[j].lo <= k < y.jobs[j].cur
  }

  /** The byte `k` belongs to a job of this phase. */
  predicate Covered(y: System, k: nat)
  {
    exists j :: y.first <= j < |y.jobs| && y.jobs[j].lo <= k < y.jobs[j].hi
  }

  predicate JobFits(s: seq<Byte>, y: System, job: Job)
  {
    y.mainEnd <= job.lo <= job.cur <= job.hi <= y.subEnd <= |s| && Boundary(s, job.cur) && Boundary(s, job.hi)
  }

  /** The jobs of this phase own disjoint chunks, which cover the file from the indexed chunk up to
      the last one that was fetched. */
  predicate Tiled(s: seq<Byte>, y: System)
  {
    && y.first <= |y.jobs| && y.mainEnd <= y.subEnd
    && (forall j | y.first <= j < |y.jobs| :: JobFits(s, y, y.jobs[j]))
    && (forall j, k | y.first <= j < k < |y.jobs| :: y.jobs[j].hi <= y.jobs[k].lo)
    && (forall k: nat | y.mainEnd <= k < y.subEnd :: Covered(y, k))
  }

  /** The lines after the indexed chunk when it had just been indexed. */
  function Later(env: Env, y: System): seq<Line>
    requires y.mainEnd <= |y.model.data|
  {
    Parse(env.conf, y.model.data, y.mainEnd, |y.model.data|)
  }

  predicate Marked(env: Env, y: System, k: nat)
    requires y.mainEnd <= |y.model.data|
  {
    Passed(y, k) && k in Doomed(Later(env, y), Keys(y.view))
  }

  /** In the middle of a phase, whatever the interleaving so far: the buffer is the one just after
      the indexing, with exactly those lines tagged that a reader has passed and the table holds. */
  predicate Mirrors(env: Env, y: System)
    requires y.mainEnd <= |y.model.data|
  {
    && |y.run.data| == |y.model.data|
    && (forall k | 0 <= k < |y.run.data| ::
          y.run.data[k] == if Marked(env, y, k) then DISABLED else y.model.data[k])
    && (0 < |y.view| ==> forall ln | ln in Later(env, y) && Passed(y, ln.at) :: !Endless(env.hash, y.view, ln))
  }

  /** The table is indexed, and holds texts of lines that are there before the end of its chunk. */
  predicate Looks(env: Env, y: System)
    requires y.mainEnd <= |y.model.data|
  {
    Indexed(env.hash, y.view) && Keys(y.view) <= TextSet(Parse(env.conf, y.model.data, 0, y.mainEnd))
  }

  /** Jobs are those of the pool; finished ones have read their whole chunk, and those of earlier
      phases are finished. */
  ghost predicate JobsFollow(y: System)
  {
    && |y.jobs| == y.pool.pushed && y.first <= |y.jobs|
    && (forall j: nat | j < y.first :: y.pool.done[j] == 1)
    && (forall j | 0 <= j < |y.jobs| && y.pool.done[j] == 1 :: y.jobs[j].cur == y.jobs[j].hi)
  }

  ghost predicate Pooled(y: System)
  {
    && P.Inv(y.pool) && JobsFollow(y)
    && (P.InWait(y.pool) ==> y.stage.Barrier?)
    && (y.stage.Between? || y.jobs == [] ==> y.pool.clear)
  }

  /** The commands that the main thread has still to do, with `sub` chunks left to push and `n` chunks
      left to index; `any` says that a job has been pushed. */
  function Rest(stage: Stage, any: bool, sub: nat, n: nat): seq<P.Command>
  {
    match stage
    case Between => Script(n, any || 1 < n)
    case Pushing =>
      Pushes(sub) + [P.Local(COUNT)] + (if any || 0 < sub then [P.Wait] else []) + Script(n, any || 0 < sub)
    case Barrier => [P.Wait] + Script(n, true)
  }

  predicate OnTrack(env: Env, s: seq<Byte>, y: System)
  {
    && y.mainEnd <= |s| && y.subEnd <= |s|
    && y.pool.script == Rest(y.stage, y.jobs != [], Left(env, s, y.subEnd), Left(env, s, y.mainEnd))
    && (y.stage.Pushing? && y.jobs == [] ==> y.subEnd == y.mainEnd)
    && (y.stage.Barrier? ==> y.jobs != [] && y.subEnd == |s|)
  }

  /** The run without threads, which goes on from `model`, ends like the whole run without threads. */
  predicate Linked(env: Env, s: seq<Byte>, y: System)
    requires 0 < env.slots && 0 < |y.view| && y.mainEnd <= |y.model.data|
  {
    TagFrom(env, Started(s), 0) ==
    TagFrom(env, if y.stage.Between? then y.model else Finish(env, y.view, y.model, y.mainEnd), y.mainEnd)
  }

  predicate Placed(env: Env, s: seq<Byte>, y: System)
  {
    && 0 < env.slots == |y.view|
    && SameNewlines(s, y.run.data) && SameNewlines(s, y.model.data)
    && Boundary(s, y.mainEnd) && Boundary(s, y.subEnd)
  }

  /** The phase, or the gap between phases, in which the program is. */
  predicate Staged(env: Env, s: seq<Byte>, y: System)
    requires Placed(env, s, y)
  {
    && y.model.outcome == Completed
    && if y.stage.Between? then y.run.data == y.model.data
       else Tiled(s, y) && Mirrors(env, y) && Looks(env, y)
  }

  /** After the error exit the program has stopped, just as it does without threads. */
  predicate Exited(env: Env, s: seq<Byte>, y: System)
    requires 0 < env.slots
  {
    var r := TagFrom(env, Started(s), 0);
    y.run.outcome == ErrorExit == r.outcome && y.run.data == r.data
  }

  /** What is true of the buffer, the table and the chunks. */
  predicate Sane(env: Env, s: seq<Byte>, y: System)
  {
    && Placed(env, s, y)
    && Sound(env.conf, s, y.run.data, y.run.log)
    && if y.run.outcome == Completed then Staged(env, s, y) && Linked(env, s, y) else Exited(env, s, y)
  }

  ghost predicate Safe(env: Env, s: seq<Byte>, y: System)
  {
    Sane(env, s, y) && Pooled(y) && (y.run.outcome == Completed ==> OnTrack(env, s, y))
  }

  // ---------------------------------------------------------------- one line of a worker

  /** `ls` is what `all` has between `lo` and `hi`: at most one line, at `lo`. */
  predicate OnlyLine(all: seq<Line>, ls: seq<Line>, lo: nat, hi: nat)
  {
    && |ls| <= 1
    && (forall ln | ln in ls :: ln in all && ln.at == lo)
    && (forall ln | ln in all && lo <= ln.at < hi :: ln in ls)
  }

  lemma DoomedHere(all: seq<Line>, ls: seq<Line>, lo: nat, hi: nat, keys: set<Text>)
    requires OnlyLine(all, ls, lo, hi)
    ensures forall k: nat | lo <= k < hi :: k in Doomed(all, keys) <==> k == lo && ls != [] && ls[0].text in keys
  {
    if ls != [] { assert ls[0] in ls; }
  }

  /** The physical line at `cur` holds all the parsed lines that start in it. */
  lemma LineHere(c: Filter, s: seq<Byte>, p: nat, cur: nat, hi: nat)
    requires p <= cur < hi <= |s| && Boundary(s, p) && Boundary(s, cur) && Boundary(s, hi)
    ensures Boundary(s, Next(s, cur, hi))
    ensures OnlyLine(Parse(c, s, p, |s|), Head(c, s, cur, hi), cur, Next(s, cur, hi))
  {
    var m := Next(s, cur, hi);
    var a, ls, b, d := Parse(c, s, p, cur), Head(c, s, cur, hi), Parse(c, s, m, hi), Parse(c, s, hi, |s|);
    ParseSplit(c, s, p, cur, |s|);
    ParseSplit(c, s, cur, hi, |s|);
    ParseOrder(c, s, p, cur);
    ParseOrder(c, s, m, hi);
    ParseOrder(c, s, hi, |s|);
    HeadStarts(c, s, cur, hi);
    assert Parse(c, s, p, |s|) == a + ((ls + b) + d);
    OnlyBetween(a, ls, b, d, cur, m);
  }

  lemma OnlyBetween(a: seq<Line>, ls: seq<Line>, b: seq<Line>, d: seq<Line>, lo: nat, hi: nat)
    requires |ls| <= 1 && forall ln | ln in ls :: ln.at == lo
    requires (forall ln | ln in a :: ln.at < lo) && (forall ln | ln in b :: hi <= ln.at)
    requires forall ln | ln in d :: hi <= ln.at
    ensures OnlyLine(a + ((ls + b) + d), ls, lo, hi)
  {
    var all := a + ((ls + b) + d);
    forall ln | ln in all && lo <= ln.at < hi ensures ln in ls {
      assert ln in a || ln in (ls + b) + d;
    }
  }

  /** No other reader has been where a reader is going. */
  lemma NotPassed(s: seq<Byte>, y: System, j: nat, k: nat)
    requires Tiled(s, y) && y.first <= j < |y.jobs| && y.jobs[j].cur <= k < y.jobs[j].hi
    ensures !Passed(y, k)
  {
    forall i | y.first <= i < |y.jobs| ensures !(y.jobs[i].lo <= k < y.jobs[i].cur) {
      assert JobFits(s, y, y.jobs[i]) && JobFits(s, y, y.jobs[j]);
      if i < j { assert y.jobs[i].hi <= y.jobs[j].lo; }
      if j < i { assert y.jobs[j].hi <= y.jobs[i].lo; }
    }
  }

  /** What a worker reads is what was there when the chunk was indexed. */
  lemma ReadsModel(env: Env, s: seq<Byte>, y: System, j: nat)
    requires Placed(env, s, y) && Staged(env, s, y) && !y.stage.Between?
    requires y.first <= j < |y.jobs| && y.jobs[j].cur < y.jobs[j].hi
    ensures var c, t, u, cur, hi := env.conf, y.run.data, y.model.data, y.jobs[j].cur, y.jobs[j].hi;
            hi <= |s| && Head(c, t, cur, hi) == Head(c, u, cur, hi) && Next(t, cur, hi) == Next(u, cur, hi)
  {
    var cur, hi := y.jobs[j].cur, y.jobs[j].hi;
    assert JobFits(s, y, y.jobs[j]);
    forall k | cur <= k < hi ensures y.run.data[k] == y.model.data[k] { NotPassed(s, y, j, k); }
    HeadFrame(env.conf, y.run.data, y.model.data, cur, hi);
  }

  /** `y'` is `y` with the reader of job `j` at `m`. */
  predicate Advances(y: System, y': System, j: nat, m: nat)
  {
    && y.first <= j < |y.jobs| && y.jobs[j].cur <= m <= y.jobs[j].hi
    && y'.first == y.first && y'.mainEnd == y.mainEnd && y'.subEnd == y.subEnd && y'.view == y.view
    && y'.model == y.model && |y'.jobs| == |y.jobs|
    && y'.jobs[j].lo == y.jobs[j].lo && y'.jobs[j].cur == m && y'.jobs[j].hi == y.jobs[j].hi
    && forall k | 0 <= k < |y.jobs| && k != j :: y'.jobs[k] == y.jobs[k]
  }

  lemma AdvancePassed(s: seq<Byte>, y: System, y': System, j: nat, m: nat, k: nat)
    requires Tiled(s, y) && Advances(y, y', j, m)
    ensures Passed(y', k) <==> Passed(y, k) || y.jobs[j].cur <= k < m
  {
    assert JobFits(s, y, y.jobs[j]);
    if y.jobs[j].lo <= k < m { assert y'.jobs[j].lo <= k < y'.jobs[j].cur; }
    if Passed(y, k) {
      var i :| y.first <= i < |y.jobs| && y.jobs[i].lo <= k < y.jobs[i].cur;
      assert y'.jobs[i].lo <= k < y'.jobs[i].cur;
    }
    if Passed(y', k) {
      var i :| y.first <= i < |y.jobs| && y'.jobs[i].lo <= k < y'.jobs[i].cur;
      assert i != j ==> y.jobs[i].lo <= k < y.jobs[i].cur;
    }
  }

  lemma AdvanceTiles(s: seq<Byte>, y: System, y': System, j: nat, m: nat)
    requires Tiled(s, y) && Advances(y, y', j, m) && Boundary(s, m)
    ensures Tiled(s, y')
  {
    forall k | y.first <= k < |y.jobs| ensures JobFits(s, y', y'.jobs[k]) {
      assert JobFits(s, y, y.jobs[k]);
    }
    forall k: nat | y.mainEnd <= k < y.subEnd ensures Covered(y', k) {
      assert Covered(y, k);
      var i :| y.first <= i < |y.jobs| && y.jobs[i].lo <= k < y.jobs[i].hi;
      assert y'.jobs[i].lo <= k < y'.jobs[i].hi;
    }
  }

  /** A worker holds a job of this phase. */
  lemma HeldIsCurrent(y: System, i: nat)
    requires Pooled(y) && HasChunk(y, i)
    ensures y.first <= y.pool.workers[i].job && !y.pool.clear && !y.stage.Between?
  {
    assert P.HasJob(y.pool.workers[i]);
  }

  /** The look-up of `ls`, at most one line, ends in a match. */
  predicate Hit(env: Env, v: View, ls: seq<Line>)
    requires 0 < |v|
  {
    ls != [] && Probe(v, ls[0].text, Home(env.hash, ls[0].text, |v|), 0, |v|).Match?
  }

  /** What a worker reads at its place: the only line there, which it tags just if the table holds it. */
  lemma CleanHere(env: Env, s: seq<Byte>, y: System, i: nat)
    requires Placed(env, s, y) && Pooled(y) && Staged(env, s, y) && Able(env, y, Clean(i))
    ensures var job, ls := JobOf(y, i), LineHead(env, y, i);
            var m := Next(y.run.data, job.cur, job.hi);
            !y.stage.Between? && Boundary(s, m) && OnlyLine(Later(env, y), ls, job.cur, m) &&
            (Hit(env, y.view, ls) <==> ls != [] && ls[0].text in Keys(y.view))
  {
    var j := y.pool.workers[i].job;
    var job, ls := JobOf(y, i), LineHead(env, y, i);
    HeldIsCurrent(y, i);
    assert JobFits(s, y, y.jobs[j]);
    ReadsModel(env, s, y, j);
    LineHere(env.conf, y.model.data, y.mainEnd, job.cur, job.hi);
    if ls != [] {
      assert ls[0] in ls;
      ProbeAnswers(env.hash, y.view, ls[0].text, |y.view|);
    }
  }

  lemma CleanAdvances(env: Env, s: seq<Byte>, y: System, i: nat)
    requires Placed(env, s, y) && Pooled(y) && Staged(env, s, y) && Able(env, y, Clean(i))
    ensures var y', j := CleanLine(env, y, i), y.pool.workers[i].job;
            !y.stage.Between? && Advances(y, y', j, Next(y.run.data, y.jobs[j].cur, y.jobs[j].hi)) && Tiled(s, y')
  {
    CleanHere(env, s, y, i);
    HeldIsCurrent(y, i);
    var y', j := CleanLine(env, y, i), y.pool.workers[i].job;
    AdvanceTiles(s, y, y', j, Next(y.run.data, y.jobs[j].cur, y.jobs[j].hi));
  }

  lemma CleanBytes(env: Env, s: seq<Byte>, y: System, i: nat, k: nat)
    requires Placed(env, s, y) && Pooled(y) && Staged(env, s, y) && Able(env, y, Clean(i)) && k < |y.run.data|
    ensures var y' := CleanLine(env, y, i);
            y'.run.data[k] == if Marked(env, y', k) then DISABLED else y.model.data[k]
  {
    var y', j := CleanLine(env, y, i), y.pool.workers[i].job;
    var cur, ls := y.jobs[j].cur, LineHead(env, y, i);
    var m := Next(y.run.data, cur, y.jobs[j].hi);
    CleanHere(env, s, y, i);
    CleanAdvances(env, s, y, i);
    DoomedHere(Later(env, y), ls, cur, m, Keys(y.view));
    AdvancePassed(s, y, y', j, m, k);
    if cur <= k < m { NotPassed(s, y, j, k); }
  }

  lemma CleanMirrors(env: Env, s: seq<Byte>, y: System, i: nat)
    requires Placed(env, s, y) && Pooled(y) && Staged(env, s, y) && Able(env, y, Clean(i))
    ensures Mirrors(env, CleanLine(env, y, i))
  {
    var y', j := CleanLine(env, y, i), y.pool.workers[i].job;
    var cur, ls := y.jobs[j].cur, LineHead(env, y, i);
    var m := Next(y.run.data, cur, y.jobs[j].hi);
    CleanHere(env, s, y, i);
    CleanAdvances(env, s, y, i);
    forall k: nat | k < |y.run.data|
      ensures y'.run.data[k] == if Marked(env, y', k) then DISABLED else y.model.data[k]
    {
      CleanBytes(env, s, y, i, k);
    }
    forall ln | ln in Later(env, y) && Passed(y', ln.at) ensures !Endless(env.hash, y.view, ln) {
      AdvancePassed(s, y, y', j, m, ln.at);
      if cur <= ln.at < m { assert ln in ls; }
    }
  }

  /** Tagging one line whose text occurs before it is sound. */
  lemma TagOneSound(c: Filter, s: seq<Byte>, p: nat, e: nat, ln: Line)
    requires p < e <= |s| && Boundary(s, p) && Boundary(s, e) && Head(c, s, p, e) == [ln]
    requires ln.text in TextSet(Parse(c, s, 0, p))
    ensures Sound(c, s, Tag(s, {p}), [ln.text])
  {
    var m := Next(s, p, e);
    var ls := Parse(c, s, p, m);
    HeadStarts(c, s, p, e);
    assert ln in [ln];
    if m < e { HeadCut(c, s, p, m, e); }
    assert ls == [ln] by {
      assert Parse(c, s, m, m) == [];
      assert Next(s, p, m) == m;
    }
    SeenRedundant(ls, {p}, TextSet(Parse(c, s, 0, p)));
    assert ls[1..] == [];
    assert Removed(ls, {p}) == [ln.text];
    TagIsSound(c, s, {p}, p, m);
  }

  /** Up to the end of the indexed chunk the file stays as it was when that had been indexed: the
      table can be read through its pointers at any time. */
  lemma IndexedStays(env: Env, s: seq<Byte>, y: System)
    requires Placed(env, s, y) && Staged(env, s, y) && !y.stage.Between?
    ensures forall k | 0 <= k < y.mainEnd :: y.run.data[k] == y.model.data[k]
    ensures Keys(y.view) <= TextSet(Parse(env.conf, y.run.data, 0, y.mainEnd))
  {
    forall k | 0 <= k < y.mainEnd ensures !Passed(y, k) {
      forall j | y.first <= j < |y.jobs| ensures !(y.jobs[j].lo <= k < y.jobs[j].cur) {
        assert JobFits(s, y, y.jobs[j]);
      }
    }
    ParseFrame(env.conf, y.run.data, y.model.data, 0, y.mainEnd);
  }

  /** Packed entries read the same texts all through the phase. */
  lemma TableStays(env: Env, s: seq<Byte>, y: System, base: nat, words: seq<TaggedLine.Word>)
    requires Placed(env, s, y) && Staged(env, s, y) && !y.stage.Between?
    requires State.TableIs(base, y.model.data, words, y.view, 0, y.mainEnd)
    ensures State.TableIs(base, y.run.data, words, y.view, 0, y.mainEnd)
  {
    IndexedStays(env, s, y);
    State.TableFrame(base, y.model.data, y.run.data, words, y.view, 0, y.mainEnd, y.mainEnd);
  }

  /** The texts of the table occur before every later place. */
  lemma KeysBefore(env: Env, s: seq<Byte>, y: System, p: nat)
    requires Placed(env, s, y) && Staged(env, s, y) && !y.stage.Between?
    requires y.mainEnd <= p <= |s| && Boundary(s, p)
    ensures Keys(y.view) <= TextSet(Parse(env.conf, y.run.data, 0, p))
  {
    var c, d := env.conf, y.run.data;
    IndexedStays(env, s, y);
    ParseSplit(c, d, 0, y.mainEnd, p);
    TextSetAppend(Parse(c, d, 0, y.mainEnd), Parse(c, d, y.mainEnd, p));
  }

  lemma CleanSound(env: Env, s: seq<Byte>, y: System, i: nat)
    requires Placed(env, s, y) && Pooled(y) && Staged(env, s, y) && Able(env, y, Clean(i))
    requires Sound(env.conf, s, y.run.data, y.run.log)
    ensures var y' := CleanLine(env, y, i); Sound(env.conf, s, y'.run.data, y'.run.log)
  {
    var c, d, job, ls := env.conf, y.run.data, JobOf(y, i), LineHead(env, y, i);
    CleanHere(env, s, y, i);
    HeldIsCurrent(y, i);
    assert JobFits(s, y, job);
    if Hit(env, y.view, ls) {
      KeysBefore(env, s, y, job.cur);
      TagOneSound(c, d, job.cur, job.hi, ls[0]);
      SoundThen(c, s, d, Tag(d, {job.cur}), y.run.log, [ls[0].text]);
    }
  }

  lemma CleanFollows(env: Env, y: System, i: nat)
    requires P.JobsOnce(y.pool) && JobsFollow(y) && Able(env, y, Clean(i))
    ensures JobsFollow(CleanLine(env, y, i))
  {
    assert P.HasJob(y.pool.workers[i]);
  }

  lemma CleanSafe(env: Env, s: seq<Byte>, y: System, i: nat)
    requires Safe(env, s, y) && Able(env, y, Clean(i))
    ensures Safe(env, s, CleanLine(env, y, i))
  {
    CleanAdvances(env, s, y, i);
    CleanMirrors(env, s, y, i);
    CleanSound(env, s, y, i);
    CleanFollows(env, y, i);
    HeldIsCurrent(y, i);
  }

  // ---------------------------------------------------------------- the other steps

  /** `y'` differs from `y` in nothing that the description of a phase speaks of. */
  predicate SamePhase(y: System, y': System)
  {
    && y'.run.data == y.run.data && y'.run.log == y.run.log && y'.run.outcome == y.run.outcome
    && y'.view == y.view && y'.model == y.model && y'.first == y.first
    && y'.mainEnd == y.mainEnd && y'.subEnd == y.subEnd && (y'.stage.Between? <==> y.stage.Between?)
    && |y'.jobs| == |y.jobs|
    && forall j | 0 <= j < |y.jobs| ::
         y'.jobs[j].lo == y.jobs[j].lo && y'.jobs[j].hi == y.jobs[j].hi && y'.jobs[j].cur == y.jobs[j].cur
  }

  lemma PassedFrame(y: System, y': System, k: nat)
    requires SamePhase(y, y') && y.first <= |y.jobs|
    ensures Passed(y', k) <==> Passed(y, k)
    ensures Covered(y', k) <==> Covered(y, k)
  {
    if Passed(y, k) {
      var j :| y.first <= j < |y.jobs| && y.jobs[j].lo <= k < y.jobs[j].cur;
      assert y'.jobs[j].lo <= k < y'.jobs[j].cur;
    }
    if Passed(y', k) {
      var j :| y.first <= j < |y.jobs| && y'.jobs[j].lo <= k < y'.jobs[j].cur;
      assert y.jobs[j].lo <= k < y.jobs[j].cur;
    }
    if Covered(y, k) {
      var j :| y.first <= j < |y.jobs| && y.jobs[j].lo <= k < y.jobs[j].hi;
      assert y'.jobs[j].lo <= k < y'.jobs[j].hi;
    }
    if Covered(y', k) {
      var j :| y.first <= j < |y.jobs| && y'.jobs[j].lo <= k < y'.jobs[j].hi;
      assert y.jobs[j].lo <= k < y.jobs[j].hi;
    }
  }

  lemma TiledFrame(s: seq<Byte>, y: System, y': System)
    requires SamePhase(y, y') && Tiled(s, y)
    ensures Tiled(s, y')
  {
    forall j | y.first <= j < |y.jobs| ensures JobFits(s, y', y'.jobs[j]) { assert JobFits(s, y, y.jobs[j]); }
    forall k: nat | y.mainEnd <= k < y.subEnd ensures Covered(y', k) { PassedFrame(y, y', k); }
  }

  lemma MirrorsFrame(env: Env, y: System, y': System)
    requires SamePhase(y, y') && y.first <= |y.jobs| && y.mainEnd <= |y.model.data| && Mirrors(env, y)
    ensures Mirrors(env, y')
  {
    forall k | 0 <= k < |y.run.data| ensures Marked(env, y', k) == Marked(env, y, k) { PassedFrame(y, y', k); }
    forall ln | ln in Later(env, y) && Passed(y', ln.at) ensures Passed(y, ln.at) { PassedFrame(y, y', ln.at); }
  }

  lemma LinkedFrame(env: Env, s: seq<Byte>, y: System, y': System)
    requires 0 < env.slots && 0 < |y.view| && y.mainEnd <= |y.model.data| && Linked(env, s, y)
    requires y'.view == y.view && y'.model == y.model && y'.mainEnd == y.mainEnd
    requires y'.stage.Between? <==> y.stage.Between?
    ensures Linked(env, s, y')
  { }

  lemma StagedFrame(env: Env, s: seq<Byte>, y: System, y': System)
    requires SamePhase(y, y') && Placed(env, s, y) && Staged(env, s, y)
    ensures Placed(env, s, y') && Staged(env, s, y')
  {
    if !y.stage.Between? {
      TiledFrame(s, y, y');
      MirrorsFrame(env, y, y');
    }
  }

  lemma SaneFrame(env: Env, s: seq<Byte>, y: System, y': System)
    requires SamePhase(y, y') && Sane(env, s, y)
    ensures Sane(env, s, y')
  {
    if y.run.outcome == Completed {
      StagedFrame(env, s, y, y');
      LinkedFrame(env, s, y, y');
    }
  }

  // ---------------------------------------------------------------- the main thread

  lemma AllPassed(s: seq<Byte>, y: System)
    requires Tiled(s, y) && forall j | y.first <= j < |y.jobs| :: y.jobs[j].cur == y.jobs[j].hi
    ensures forall k: nat | y.mainEnd <= k < y.subEnd :: Passed(y, k)
  {
    forall k: nat | y.mainEnd <= k < y.subEnd ensures Passed(y, k) {
      assert Covered(y, k);
      var j :| y.first <= j < |y.jobs| && y.jobs[j].lo <= k < y.jobs[j].hi;
      assert y.jobs[j].lo <= k < y.jobs[j].cur;
    }
  }

  lemma AllMarked(env: Env, s: seq<Byte>, y: System)
    requires Placed(env, s, y) && Staged(env, s, y) && !y.stage.Between? && y.subEnd == |s|
    requires forall j | y.first <= j < |y.jobs| :: y.jobs[j].cur == y.jobs[j].hi
    ensures y.run.data == Tag(y.model.data, Doomed(Later(env, y), Keys(y.view)))
    ensures forall ln | ln in Later(env, y) :: !Endless(env.hash, y.view, ln)
  {
    AllPassed(s, y);
    LaterPlaces(env, s, y);
  }

  /** When every reader of the phase is done, the buffer is what the sequential sweep makes of it. */
  lemma PhaseOver(env: Env, s: seq<Byte>, y: System)
    requires Placed(env, s, y) && Staged(env, s, y) && !y.stage.Between? && y.subEnd == |s|
    requires forall j | y.first <= j < |y.jobs| :: y.jobs[j].cur == y.jobs[j].hi
    ensures var r := Finish(env, y.view, y.model, y.mainEnd);
            r.outcome == Completed && y.run.data == r.data
  {
    AllMarked(env, s, y);
    SubchunksMeans(env, y.view, y.model, y.mainEnd);
  }

  lemma LaterPlaces(env: Env, s: seq<Byte>, y: System)
    requires Placed(env, s, y)
    ensures forall ln | ln in Later(env, y) :: y.mainEnd <= ln.at < |s|
  {
    ParseOrder(env.conf, y.model.data, y.mainEnd, |s|);
  }

  /** The end of a phase. */
  lemma EndSane(env: Env, s: seq<Byte>, y: System)
    requires Sane(env, s, y) && y.run.outcome == Completed && !y.stage.Between? && y.subEnd == |s|
    requires forall j | y.first <= j < |y.jobs| :: y.jobs[j].cur == y.jobs[j].hi
    ensures Sane(env, s, EndPhase(env, y))
  {
    PhaseOver(env, s, y);
  }

  lemma PushPassed(env: Env, y: System, k: nat)
    requires y.subEnd <= |y.run.data| && y.first <= |y.jobs|
    ensures Passed(PushChunk(env, y), k) <==> Passed(y, k)
  {
    var y' := PushChunk(env, y);
    if Passed(y, k) {
      var j :| y.first <= j < |y.jobs| && y.jobs[j].lo <= k < y.jobs[j].cur;
      assert y'.jobs[j] == y.jobs[j];
    }
    if Passed(y', k) {
      var j :| y.first <= j < |y'.jobs| && y'.jobs[j].lo <= k < y'.jobs[j].cur;
      assert j < |y.jobs|;
    }
  }

  lemma PushTiled(env: Env, s: seq<Byte>, y: System)
    requires Placed(env, s, y) && Tiled(s, y) && y.mainEnd <= y.subEnd < |s|
    ensures Tiled(s, PushChunk(env, y)) && Boundary(s, PushChunk(env, y).subEnd)
  {
    var y' := PushChunk(env, y);
    forall j | y.first <= j < |y'.jobs| ensures JobFits(s, y', y'.jobs[j]) {
      if j < |y.jobs| { assert JobFits(s, y, y.jobs[j]); }
    }
    forall j, k | y.first <= j < k < |y'.jobs| ensures y'.jobs[j].hi <= y'.jobs[k].lo {
      assert JobFits(s, y, y.jobs[j]);
    }
    forall k: nat | y.mainEnd <= k < y'.subEnd ensures Covered(y', k) {
      if k < y.subEnd {
        assert Covered(y, k);
        var j :| y.first <= j < |y.jobs| && y.jobs[j].lo <= k < y.jobs[j].hi;
        assert y'.jobs[j] == y.jobs[j];
      } else {
        assert y'.jobs[|y.jobs|].lo <= k < y'.jobs[|y.jobs|].hi;
      }
    }
  }

  lemma PushMirrors(env: Env, s: seq<Byte>, y: System)
    requires Placed(env, s, y) && Tiled(s, y) && Mirrors(env, y)
    ensures Mirrors(env, PushChunk(env, y))
  {
    var y' := PushChunk(env, y);
    forall k | 0 <= k < |y.run.data| ensures Marked(env, y', k) == Marked(env, y, k) { PushPassed(env, y, k); }
    forall ln | ln in Later(env, y) && Passed(y', ln.at) ensures Passed(y, ln.at) { PushPassed(env, y, ln.at); }
  }

  lemma PushStaged(env: Env, s: seq<Byte>, y: System)
    requires Placed(env, s, y) && Staged(env, s, y) && y.stage.Pushing? && y.subEnd < |s|
    ensures Placed(env, s, PushChunk(env, y)) && Staged(env, s, PushChunk(env, y))
  {
    PushTiled(env, s, y);
    PushMirrors(env, s, y);
  }

  lemma PushSane(env: Env, s: seq<Byte>, y: System)
    requires Sane(env, s, y) && y.run.outcome == Completed && y.stage.Pushing? && y.subEnd < |s|
    ensures Sane(env, s, PushChunk(env, y))
  {
    PushStaged(env, s, y);
    LinkedFrame(env, s, y, PushChunk(env, y));
  }

  /** Indexing depends on the bytes alone. */
  lemma SameFill(env: Env, a: Run, b: Run, p: nat, e: nat)
    requires p <= e <= |a.data| && a.data == b.data && 0 < env.slots
    ensures AfterFill(env, a, p, e).data == AfterFill(env, b, p, e).data
    ensures AfterFill(env, a, p, e).outcome == AfterFill(env, b, p, e).outcome
    ensures ViewAfterFill(env, a, p, e) == ViewAfterFill(env, b, p, e)
  { }

  lemma IndexLinked(env: Env, s: seq<Byte>, y: System)
    requires Sane(env, s, y) && y.run.outcome == Completed && y.stage.Between? && y.mainEnd < |s|
    ensures Linked(env, s, IndexChunk(env, y))
  {
    SameFill(env, y.run, y.model, y.mainEnd, NextEnd(env.chunkSize, y.run.data, y.mainEnd));
  }

  lemma SoundOn(c: Filter, s: seq<Byte>, run: Run, r: Run)
    requires Sound(c, s, run.data, run.log) && SoundRun(c, run, r)
    ensures Sound(c, s, r.data, r.log)
  {
    SoundThen(c, s, run.data, r.data, run.log, r.log[|run.log|..]);
    assert run.log + r.log[|run.log|..] == r.log;
  }

  lemma FillPlaced(env: Env, s: seq<Byte>, run: Run, p: nat, e: nat)
    requires 0 < env.slots && p < e <= |s| && SameNewlines(s, run.data) && Boundary(s, p) && Boundary(s, e)
    ensures var r, v := AfterFill(env, run, p, e), ViewAfterFill(env, run, p, e);
            SameNewlines(s, r.data) && Indexed(env.hash, v) && Keys(v) <= TextSet(Parse(env.conf, r.data, 0, e)) &&
            SoundRun(env.conf, run, r)
  {
    FillReady(env, run, p, e);
    FillPrefix(env, run, p, e);
  }

  lemma IndexPlaced(env: Env, s: seq<Byte>, y: System)
    requires Placed(env, s, y) && y.mainEnd < |s|
    requires y.run.data == y.model.data && Sound(env.conf, s, y.run.data, y.run.log)
    ensures var y' := IndexChunk(env, y);
            Placed(env, s, y') && Looks(env, y') && Sound(env.conf, s, y'.run.data, y'.run.log)
  {
    var e := NextEnd(env.chunkSize, y.run.data, y.mainEnd);
    EndIsBoundary(env.chunkSize, y.run.data, y.mainEnd);
    SameFill(env, y.run, y.model, y.mainEnd, e);
    FillPlaced(env, s, y.run, y.mainEnd, e);
    SoundOn(env.conf, s, y.run, AfterFill(env, y.run, y.mainEnd, e));
  }

  lemma IndexSane(env: Env, s: seq<Byte>, y: System)
    requires Sane(env, s, y) && y.run.outcome == Completed && y.stage.Between? && y.mainEnd < |s|
    ensures Sane(env, s, IndexChunk(env, y))
  {
    var y' := IndexChunk(env, y);
    IndexLinked(env, s, y);
    IndexPlaced(env, s, y);
    SameFill(env, y.run, y.model, y.mainEnd, y'.mainEnd);
    if y'.run.outcome == Completed { NoReaders(env, s, y'); }
  }

  /** A phase in which nothing has been pushed yet. */
  lemma NoReaders(env: Env, s: seq<Byte>, y: System)
    requires Placed(env, s, y) && y.first == |y.jobs| && y.mainEnd == y.subEnd && y.run.data == y.model.data
    ensures Tiled(s, y) && Mirrors(env, y)
  {
    assert forall k: nat :: !Passed(y, k);
  }

  // ---------------------------------------------------------------- every step

  /** What a reader has to have done for the phase to end. */
  lemma AllRead(y: System)
    requires JobsFollow(y) && AllDone(y.pool)
    ensures forall j | 0 <= j < |y.jobs| :: y.jobs[j].cur == y.jobs[j].hi
  {
    forall j | 0 <= j < |y.jobs| ensures y.jobs[j].cur == y.jobs[j].hi { assert y.pool.done[j] == 1; }
  }

  lemma CountSane(env: Env, s: seq<Byte>, y: System)
    requires Sane(env, s, y) && y.run.outcome == Completed && y.stage.Pushing? && y.subEnd == |s|
    requires y.first <= |y.jobs|
    ensures Sane(env, s, CountChunk(env, y))
  {
    var y' := CountChunk(env, y);
    if y.jobs == [] {
      EndSane(env, s, y);
      SaneFrame(env, s, EndPhase(env, y), y');
    } else {
      SaneFrame(env, s, y, y');
    }
  }

  lemma FinishSane(env: Env, s: seq<Byte>, y: System, i: nat)
    requires Sane(env, s, y) && HasChunk(y, i)
    ensures Sane(env, s, ReportJob(y, i))
  {
    assert SamePhase(y, ReportJob(y, i));
    SaneFrame(env, s, y, ReportJob(y, i));
  }

  lemma ReturnSane(env: Env, s: seq<Byte>, y: System)
    requires Safe(env, s, y) && Able(env, y, Sched(P.ReadWorking)) && y.pool.working == 0
    ensures Sane(env, s, EndPhase(env, y))
  {
    BarrierSafe(y.pool);
    AllRead(y);
    EndSane(env, s, y);
  }

  lemma SideSane(env: Env, s: seq<Byte>, y: System, st: P.Step)
    requires Safe(env, s, y) && Able(env, y, Sched(st))
    ensures Sane(env, s, Side(env, y, st))
  {
    if st.DoLocal? {
      if y.pool.script[0].task == INDEX { IndexSane(env, s, y); } else { CountSane(env, s, y); }
    } else if st.Enqueue? {
      PushSane(env, s, y);
    } else if st.Finish? {
      FinishSane(env, s, y, st.i);
    } else if Returns(y, st) {
      ReturnSane(env, s, y);
    }
  }

  lemma FinishFollows(env: Env, y: System, i: nat)
    requires P.Inv(y.pool) && JobsFollow(y) && Able(env, y, Sched(P.Finish(i)))
    ensures JobsFollow(Move(env, y, Sched(P.Finish(i))))
  {
    var y', j := Move(env, y, Sched(P.Finish(i))), y.pool.workers[i].job;
    P.StepInv(y.pool, P.Finish(i));
    P.StepFrame(y.pool, P.Finish(i));
    forall k | 0 <= k < |y'.jobs| && y'.pool.done[k] == 1 ensures y'.jobs[k].cur == y'.jobs[k].hi {
      if k != j { assert y.pool.done[k] == 1; }
    }
    forall k: nat | k < y.first ensures y'.pool.done[k] == 1 { assert y.pool.done[k] == 1; }
  }

  lemma SideFollows(env: Env, y: System, st: P.Step)
    requires Pooled(y) && Able(env, y, Sched(st))
    ensures JobsFollow(Move(env, y, Sched(st)))
  {
    P.StepFrame(y.pool, st);
    if st.Finish? {
      FinishFollows(env, y, st.i);
    } else if st.DoLocal? && y.pool.script[0].task == INDEX {
      ClearIsDone(y.pool);
    }
  }

  lemma SidePooled(env: Env, y: System, st: P.Step)
    requires Pooled(y) && Able(env, y, Sched(st))
    ensures Pooled(Move(env, y, Sched(st)))
  {
    P.StepInv(y.pool, st);
    P.StepFrame(y.pool, st);
    SideFollows(env, y, st);
  }

  /** The chunk that `get_next_chunk` finds is the one of the untouched file. */
  lemma NextChunk(env: Env, s: seq<Byte>, d: seq<Byte>, p: nat)
    requires SameNewlines(s, d) && p < |s|
    ensures var e := NextEnd(env.chunkSize, d, p); e <= |s| && Left(env, s, p) == 1 + Left(env, s, e)
  {
    ChunksStable(env.chunkSize, s, d, p);
  }

  lemma RestIndex(any: bool, sub: nat, n: nat)
    ensures var cs := Rest(Between, any, sub, n + 1); cs[1..] == Rest(Pushing, any, n, n)
  { }

  lemma RestPush(any: bool, sub: nat, n: nat)
    ensures var cs := Rest(Pushing, any, sub + 1, n); cs[1..] == Rest(Pushing, true, sub, n)
  {
    assert Pushes(sub + 1)[1..] == Pushes(sub);
  }

  lemma RestCount(any: bool, n: nat)
    ensures var cs := Rest(Pushing, any, 0, n);
            cs[1..] == if any then Rest(Barrier, any, 0, n) else Script(n, false)
  { }

  lemma IndexOnTrack(env: Env, s: seq<Byte>, y: System)
    requires Placed(env, s, y) && OnTrack(env, s, y) && Able(env, y, Sched(P.DoLocal)) && y.pool.script[0].task == INDEX
    ensures OnTrack(env, s, Move(env, y, Sched(P.DoLocal)))
  {
    var y' := Move(env, y, Sched(P.DoLocal));
    NextChunk(env, s, y.run.data, y.mainEnd);
    RestIndex(y.jobs != [], Left(env, s, y.subEnd), Left(env, s, y'.mainEnd));
  }

  lemma CountOnTrack(env: Env, s: seq<Byte>, y: System)
    requires Placed(env, s, y) && OnTrack(env, s, y) && Able(env, y, Sched(P.DoLocal)) && y.pool.script[0].task != INDEX
    ensures OnTrack(env, s, Move(env, y, Sched(P.DoLocal)))
  {
    assert ChunksFrom(env.chunkSize, s, |s|) == [];
    RestCount(y.jobs != [], Left(env, s, y.mainEnd));
  }

  lemma PushOnTrack(env: Env, s: seq<Byte>, y: System)
    requires Placed(env, s, y) && OnTrack(env, s, y) && Able(env, y, Sched(P.Enqueue))
    ensures OnTrack(env, s, Move(env, y, Sched(P.Enqueue)))
  {
    var y' := Move(env, y, Sched(P.Enqueue));
    NextChunk(env, s, y.run.data, y.subEnd);
    RestPush(y.jobs != [], Left(env, s, y'.subEnd), Left(env, s, y.mainEnd));
  }

  lemma SideOnTrack(env: Env, s: seq<Byte>, y: System, st: P.Step)
    requires Safe(env, s, y) && Able(env, y, Sched(st))
    ensures OnTrack(env, s, Move(env, y, Sched(st)))
  {
    P.StepFrame(y.pool, st);
    if st.DoLocal? {
      if y.pool.script[0].task == INDEX { IndexOnTrack(env, s, y); } else { CountOnTrack(env, s, y); }
    } else if st.Enqueue? {
      PushOnTrack(env, s, y);
    }
  }

  /** Every step of the threaded program keeps its invariants. */
  lemma StepSafe(env: Env, s: seq<Byte>, y: System, act: Act)
    requires Safe(env, s, y) && Able(env, y, act)
    ensures Safe(env, s, Move(env, y, act))
  {
    match act
    case Clean(i) => CleanSafe(env, s, y, i);
    case Sched(st) =>
      SideSane(env, s, y, st);
      SidePooled(env, y, st);
      SideOnTrack(env, s, y, st);
      SaneFrame(env, s, Side(env, y, st), Move(env, y, act));
  }

  lemma BeginSafe(env: Env, s: seq<Byte>, threads: nat)
    requires 0 < env.slots
    ensures Safe(env, s, Begin(env, s, threads))
  {
    P.InitInv(threads, Script(Left(env, s, 0), 1 < Left(env, s, 0)));
  }
}
