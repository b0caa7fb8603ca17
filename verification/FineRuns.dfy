/** Whole runs of the threaded program in which a worker reads, looks up, logs and overwrites in steps of
    their own. */
module FineRuns {
  import opened Lines
  import opened LineLists
  import opened Index
  import opened Chunks
  import opened Runs
  import opened Soundness
  import opened Exactness
  import opened Compaction
  import opened Reference
  import opened Sweeps
  import opened Parallel
  import opened ParallelSafety
  import opened ParallelRuns
  import opened FineSteps
  import P = ThreadPool
  import PoolRuns
  import Pipeline
  import State
  import TaggedLine

  // ---------------------------------------------------------------- refinement

  lemma WorkerSimulates(env: Env, s: seq<Byte>, f: Fine, a: FineAct)
    requires FineInv(env, s, f) && FineAble(env, f, a) && !a.Other?
    ensures Details(env, FineMove(env, f, a)) && Simulates(env, f, FineMove(env, f, a), a.i)
  {
    WorkerHolds(env, s, f, a.i);
    match a
    case Read(i) => ReadStep(env, s, f, i);
    case Look(i) => LookStep(env, s, f, i);
    case Log(i) => LogStep(env, s, f, i);
    case Mark(i) => MarkStep(env, s, f, i);
  }

  lemma PoolSimulates(env: Env, s: seq<Byte>, f: Fine, st: P.Step)
    requires FineInv(env, s, f) && FineAble(env, f, Other(st))
    ensures Details(env, FineMove(env, f, Other(st)))
    ensures Able(env, Abs(f), Sched(st)) && Abs(FineMove(env, f, Other(st))) == Move(env, Abs(f), Sched(st))
  {
    if st.DoLocal? {
      if f.sys.pool.script[0].task == INDEX { IndexFine(env, f); } else { CountFine(env, f); }
    } else if st.Enqueue? {
      PushDetails(env, s, f);
      PushFine(env, f);
    } else if st.Finish? {
      FinishFine(env, f, st.i);
    } else if Returns(f.sys, st) {
      ReturnFine(env, f);
    } else {
      OtherFine(env, f, st);
    }
  }

  /** Every step does nothing that the program in which a line is one step would see, or is a step of it. */
  lemma StepRefines(env: Env, s: seq<Byte>, f: Fine, a: FineAct) returns (acts: seq<Act>)
    requires FineInv(env, s, f) && FineAble(env, f, a)
    ensures FineInv(env, s, FineMove(env, f, a)) && |acts| <= 1
    ensures if acts == [] then Abs(FineMove(env, f, a)) == Abs(f)
            else Able(env, Abs(f), acts[0]) && Abs(FineMove(env, f, a)) == Move(env, Abs(f), acts[0])
  {
    acts := [];
    if a.Other? {
      PoolSimulates(env, s, f, a.st);
      acts := [Sched(a.st)];
    } else {
      WorkerSimulates(env, s, f, a);
      if Abs(FineMove(env, f, a)) != Abs(f) { acts := [Clean(a.i)]; }
    }
    if acts != [] { StepSafe(env, s, Abs(f), acts[0]); }
  }

  predicate FinePossible(env: Env, f: Fine, run: seq<FineAct>)
    decreases |run|
  {
    run == [] || (FineAble(env, f, run[0]) && FinePossible(env, FineMove(env, f, run[0]), run[1..]))
  }

  function FineAfter(env: Env, f: Fine, run: seq<FineAct>): Fine
    requires FinePossible(env, f, run)
    decreases |run|
  {
    if run == [] then f else FineAfter(env, FineMove(env, f, run[0]), run[1..])
  }

  lemma PossibleFirst(env: Env, y: System, act: Act, rest: seq<Act>)
    requires Able(env, y, act) && Possible(env, Move(env, y, act), rest)
    ensures Possible(env, y, [act] + rest) && After(env, y, [act] + rest) == After(env, Move(env, y, act), rest)
  {
    assert ([act] + rest)[1..] == rest;
  }

  /** Every run is, seen from outside, a run of the program in which a line is one step. */
  lemma {:induction false} RunRefines(env: Env, s: seq<Byte>, f: Fine, run: seq<FineAct>) returns (acts: seq<Act>)
    requires FineInv(env, s, f) && FinePossible(env, f, run)
    ensures var f' := FineAfter(env, f, run);
            FineInv(env, s, f') && Possible(env, Abs(f), acts) && Abs(f') == After(env, Abs(f), acts)
    decreases |run|
  {
    acts := [];
    if run != [] {
      var first := StepRefines(env, s, f, run[0]);
      var rest := RunRefines(env, s, FineMove(env, f, run[0]), run[1..]);
      acts := rest;
      if first != [] {
        PossibleFirst(env, Abs(f), first[0], rest);
        acts := [first[0]] + rest;
      }
    }
  }

  lemma BeginRefines(env: Env, s: seq<Byte>, threads: nat)
    requires 0 < env.slots
    ensures FineInv(env, s, BeginFine(env, s, threads)) && Abs(BeginFine(env, s, threads)) == Begin(env, s, threads)
  {
    BeginSafe(env, s, threads);
    AllIdle(BeginFine(env, s, threads));
  }

  // ---------------------------------------------------------------- soundness

  /** The middle of a phase, in which lines may be pending. */
  ghost predicate InPhase(env: Env, s: seq<Byte>, f: Fine)
  {
    && Details(env, f) && Tiled(s, Abs(f)) && Indexed(env.hash, f.sys.view)
    && SameNewlines(s, f.sys.run.data) && SameNewlines(s, f.sys.model.data) && Boundary(s, f.sys.mainEnd)
  }

  /** Jobs are run in the middle of a phase only. */
  lemma HeldPhase(env: Env, s: seq<Byte>, y: System, j: nat)
    requires Safe(env, s, y) && y.run.outcome == Completed && Held(y.pool, j) && j < |y.jobs|
    ensures Staged(env, s, y) && !y.stage.Between?
  {
    var i :| 0 <= i < |y.pool.workers| && y.pool.workers[i] == P.Busy(j);
    HeldIsCurrent(y, i);
  }

  /** Lines are pending in the middle of a phase only. */
  lemma PendingPhase(env: Env, s: seq<Byte>, f: Fine, a: nat)
    requires FineInv(env, s, f) && a in Pending(f)
    ensures InPhase(env, s, f) && Staged(env, s, Abs(f)) && !f.sys.stage.Between?
  {
    var j := PendingAt(env, f, a);
    assert MayWork(f.sys, j);
    HeldPhase(env, s, Abs(f), j);
    AbsNewlines(env, f);
  }

  lemma JobInFile(s: seq<Byte>, f: Fine, j: nat)
    requires |f.micro| == |f.sys.jobs| && Tiled(s, Abs(f)) && f.sys.first <= j < |f.micro|
    ensures f.sys.mainEnd <= f.sys.jobs[j].lo && f.sys.jobs[j].hi <= f.sys.subEnd <= |s|
    ensures Boundary(s, f.sys.jobs[j].hi)
  {
    assert JobFits(s, Abs(f), Abs(f).jobs[j]);
  }

  /** A line that is pending is a line of the buffer, after the indexed chunk, and its text is in the table. */
  lemma PendingLine(env: Env, s: seq<Byte>, f: Fine, a: nat) returns (ln: Line, m: nat)
    requires InPhase(env, s, f) && a in Pending(f)
    ensures f.sys.mainEnd <= a == ln.at < m <= |s| && ln.text in Keys(f.sys.view)
    ensures OnlyLine(Parse(env.conf, f.sys.run.data, f.sys.mainEnd, |s|), [ln], a, m)
  {
    var c, d := env.conf, f.sys.run.data;
    var j := PendingAt(env, f, a);
    var job := f.sys.jobs[j];
    assert Knows(env, f.sys, job, f.micro[j]) && Fresh(f.sys, job);
    ln, m := f.micro[j].ln, f.micro[j].next;
    JobInFile(s, f, j);
    HeadFrame(c, f.sys.model.data, d, job.cur, job.hi);
    LineHere(c, d, f.sys.mainEnd, job.cur, job.hi);
    HeadHere(c, d, job.cur, job.hi, ln);
    ProbeAnswers(env.hash, f.sys.view, ln.text, |f.sys.view|);
  }

  /** What is logged and not overwritten yet repeats earlier lines that are not to be overwritten. */
  lemma PendingRedundant(env: Env, s: seq<Byte>, f: Fine)
    requires InPhase(env, s, f)
    requires Keys(f.sys.view) <= TextSet(Parse(env.conf, f.sys.run.data, 0, f.sys.mainEnd))
    ensures var c, d, p := env.conf, f.sys.run.data, f.sys.mainEnd;
            TagsIn(c, d, Pending(f), p, |s|) &&
            Redundant(Parse(c, d, p, |s|), Pending(f), TextSet(Parse(c, d, 0, p)))
  {
    var c, d, p := env.conf, f.sys.run.data, f.sys.mainEnd;
    var ls := Parse(c, d, p, |s|);
    forall a | a in Pending(f) ensures exists ln :: ln in ls && ln.at == a {
      var ln, m := PendingLine(env, s, f, a);
      assert ln in [ln];
    }
    forall l | l in ls && l.at in Pending(f) ensures l.text in TextSet(Parse(c, d, 0, p)) {
      var ln, m := PendingLine(env, s, f, l.at);
      assert l in [ln];
    }
    SeenRedundant(ls, Pending(f), TextSet(Parse(c, d, 0, p)));
  }

  /** Up to the end of the indexed chunk the file stays as it was when that had been indexed. */
  lemma EarlyBytes(env: Env, s: seq<Byte>, f: Fine)
    requires InPhase(env, s, f) && Placed(env, s, Abs(f)) && Staged(env, s, Abs(f)) && !f.sys.stage.Between?
    ensures forall k | 0 <= k < f.sys.mainEnd :: f.sys.run.data[k] == Abs(f).run.data[k] == f.sys.model.data[k]
  {
    IndexedStays(env, s, Abs(f));
    forall k | 0 <= k < f.sys.mainEnd ensures f.sys.run.data[k] == Abs(f).run.data[k] {
      if k in Pending(f) { var ln, m := PendingLine(env, s, f, k); }
    }
  }

  lemma KeysThere(env: Env, s: seq<Byte>, f: Fine)
    requires InPhase(env, s, f) && Placed(env, s, Abs(f)) && Staged(env, s, Abs(f)) && !f.sys.stage.Between?
    ensures Keys(f.sys.view) <= TextSet(Parse(env.conf, f.sys.run.data, 0, f.sys.mainEnd))
  {
    IndexedStays(env, s, Abs(f));
    EarlyBytes(env, s, f);
    ParseFrame(env.conf, f.sys.run.data, Abs(f).run.data, 0, f.sys.mainEnd);
  }

  /** The middle of a phase, seen from the invariant. */
  lemma PhaseOf(env: Env, s: seq<Byte>, f: Fine)
    requires FineInv(env, s, f) && f.sys.run.outcome == Completed && !f.sys.stage.Between?
    ensures InPhase(env, s, f) && Staged(env, s, Abs(f))
  {
    AbsNewlines(env, f);
  }

  /** Packed entries read the same texts at every step of a phase: what a worker compares its line with is
      what was indexed. */
  lemma TableReads(env: Env, s: seq<Byte>, f: Fine, base: nat, words: seq<TaggedLine.Word>)
    requires FineInv(env, s, f) && f.sys.run.outcome == Completed && !f.sys.stage.Between?
    requires f.sys.mainEnd <= |f.sys.model.data|
    requires State.TableIs(base, f.sys.model.data, words, f.sys.view, 0, f.sys.mainEnd)
    ensures f.sys.mainEnd <= |f.sys.run.data|
    ensures State.TableIs(base, f.sys.run.data, words, f.sys.view, 0, f.sys.mainEnd)
  {
    PhaseOf(env, s, f);
    EarlyBytes(env, s, f);
    State.TableFrame(base, f.sys.model.data, f.sys.run.data, words, f.sys.view, 0, f.sys.mainEnd, f.sys.mainEnd);
  }

  /** The texts of the lines that are logged and not overwritten yet. */
  function Twice(env: Env, f: Fine): seq<Text>
    requires f.sys.mainEnd <= |f.sys.run.data|
  {
    Removed(Parse(env.conf, f.sys.run.data, f.sys.mainEnd, |f.sys.run.data|), Pending(f))
  }

  lemma SomePending(env: Env, s: seq<Byte>, f: Fine)
    requires InPhase(env, s, f) && Placed(env, s, Abs(f)) && Staged(env, s, Abs(f)) && !f.sys.stage.Between?
    ensures f.sys.mainEnd <= |f.sys.run.data|
    ensures Sound(env.conf, f.sys.run.data, Tag(f.sys.run.data, Pending(f)), Twice(env, f))
  {
    KeysThere(env, s, f);
    PendingRedundant(env, s, f);
    TagIsSound(env.conf, f.sys.run.data, Pending(f), f.sys.mainEnd, |f.sys.run.data|);
  }

  lemma NonePending(env: Env, f: Fine)
    requires Pending(f) == {} && f.sys.mainEnd <= |f.sys.run.data|
    ensures Sound(env.conf, f.sys.run.data, Tag(f.sys.run.data, Pending(f)), Twice(env, f))
  {
    assert Tag(f.sys.run.data, {}) == f.sys.run.data;
    RemovedNone(Parse(env.conf, f.sys.run.data, f.sys.mainEnd, |f.sys.run.data|), {});
  }

  /** Overwriting what is pending is sound. */
  lemma PendingSound(env: Env, s: seq<Byte>, f: Fine)
    requires FineInv(env, s, f)
    ensures f.sys.mainEnd <= |f.sys.run.data|
    ensures Sound(env.conf, f.sys.run.data, Tag(f.sys.run.data, Pending(f)), Twice(env, f))
  {
    if Pending(f) == {} {
      NonePending(env, f);
    } else {
      var a :| a in Pending(f);
      PendingPhase(env, s, f, a);
      SomePending(env, s, f);
    }
  }

  /** The books while lines are being logged and overwritten: what is in the file and what is logged, less
      what is both for the moment, is what there was; and the first occurrences are all there. */
  predicate Books(c: Filter, s: seq<Byte>, d: seq<Byte>, log: seq<Text>, twice: seq<Text>)
  {
    && First(All(c, d)) == First(All(c, s))
    && multiset(Texts(All(c, d))) + multiset(log) == multiset(Texts(All(c, s))) + multiset(twice)
  }

  /** Whatever the load, in every state that any interleaving of the finest steps reaches: the first
      occurrences are untouched, and every line is in the file or logged, or both if a worker that has
      logged it is about to overwrite it. */
  lemma AlwaysBooked(env: Env, s: seq<Byte>, threads: nat, run: seq<FineAct>)
    requires 0 < env.slots && FinePossible(env, BeginFine(env, s, threads), run)
    ensures var f := FineAfter(env, BeginFine(env, s, threads), run);
            f.sys.mainEnd <= |f.sys.run.data| &&
            Books(env.conf, s, f.sys.run.data, f.sys.run.log, Twice(env, f))
  {
    BeginRefines(env, s, threads);
    var acts := RunRefines(env, s, BeginFine(env, s, threads), run);
    var f := FineAfter(env, BeginFine(env, s, threads), run);
    PendingSound(env, s, f);
    BothSound(env.conf, s, f.sys.run.data, Abs(f).run.data, f.sys.run.log, Twice(env, f));
  }

  lemma BothSound(c: Filter, s: seq<Byte>, d: seq<Byte>, t: seq<Byte>, log: seq<Text>, twice: seq<Text>)
    requires Sound(c, s, t, log) && Sound(c, d, t, twice)
    ensures Books(c, s, d, log, twice)
  {
    var left := multiset(Texts(All(c, t)));
    calc {
      multiset(Texts(All(c, d))) + multiset(log);
      left + multiset(twice) + multiset(log);
      left + multiset(log) + multiset(twice);
      multiset(Texts(All(c, s))) + multiset(twice);
    }
  }

  /** Whatever the load and the schedule, at any time: every valid line of the file has its like at the same
      place or before, untouched, and it is the same one at all times. */
  lemma NeverLost(env: Env, s: seq<Byte>, threads: nat, run: seq<FineAct>, ln: Line) returns (first: Line)
    requires 0 < env.slots && FinePossible(env, BeginFine(env, s, threads), run)
    requires ln in All(env.conf, s)
    ensures first in First(All(env.conf, s)) && first.text == ln.text && first.at <= ln.at
    ensures first in All(env.conf, FineAfter(env, BeginFine(env, s, threads), run).sys.run.data)
  {
    AlwaysBooked(env, s, threads, run);
    ParseOrder(env.conf, s, 0, |s|);
    first := FirstComesFirst(All(env.conf, s), {}, ln);
    KeepIn(All(env.conf, FineAfter(env, BeginFine(env, s, threads), run).sys.run.data), {});
  }

  // ---------------------------------------------------------------- standstill

  predicate SpuriousFine(a: FineAct) { a.Other? && P.Spurious(a.st) }

  /** No step is left but spurious wake-ups. */
  ghost predicate FineHalted(env: Env, f: Fine)
  {
    forall a :: FineAble(env, f, a) ==> SpuriousFine(a)
  }

  /** A worker that is in the middle of a line can go on, unless its look-up has been round the table. */
  lemma CanGo(env: Env, s: seq<Byte>, f: Fine, i: nat) returns (a: FineAct)
    requires AtWork(env, s, f, i) && !(MicroOf(f, i).Probing? && MicroOf(f, i).turn == |f.sys.view|)
    ensures FineAble(env, f, a) && !SpuriousFine(a)
  {
    var m := MicroOf(f, i);
    if m.Idle? {
      a := Read(i);
    } else if m.Logged? {
      a := Mark(i);
    } else {
      HereIs(env, s, f, i);
      assert Knows(env, f.sys, JobOf(f.sys, i), m);
      a := if m.Matched? then Log(i) else Look(i);
    }
  }

  lemma GoesOn(env: Env, s: seq<Byte>, f: Fine, i: nat)
    requires FineInv(env, s, f) && Running(env, f.sys) && Working(f, i) && FineHalted(env, f)
    ensures AtWork(env, s, f, i) && MicroOf(f, i).Probing? && MicroOf(f, i).turn == |f.sys.view|
  {
    WorkerHolds(env, s, f, i);
    if !(MicroOf(f, i).Probing? && MicroOf(f, i).turn == |f.sys.view|) { var a := CanGo(env, s, f, i); }
  }

  /** Nothing is pending at a standstill. */
  lemma HaltedSettled(env: Env, s: seq<Byte>, f: Fine)
    requires FineInv(env, s, f) && FineHalted(env, f)
    ensures Abs(f) == f.sys
  {
    forall j | 0 <= j < |f.micro| ensures !f.micro[j].Logged? {
      if f.micro[j].Logged? {
        assert Knows(env, f.sys, f.sys.jobs[j], f.micro[j]) && MayWork(f.sys, j) && Fresh(f.sys, f.sys.jobs[j]);
        var i :| 0 <= i < |f.sys.pool.workers| && f.sys.pool.workers[i] == P.Busy(j);
        GoesOn(env, s, f, i);
      }
    }
    NoneLogged(f);
  }

  lemma NoneLogged(f: Fine)
    requires |f.micro| == |f.sys.jobs| && forall j | 0 <= j < |f.micro| :: !f.micro[j].Logged?
    ensures Abs(f) == f.sys
  {
    assert Pending(f) == {};
    assert Tag(f.sys.run.data, {}) == f.sys.run.data;
    assert Abs(f).jobs == f.sys.jobs;
  }

  /** A look-up that has been round the table is one that never ends. */
  lemma RoundIsEndless(env: Env, s: seq<Byte>, f: Fine, i: nat)
    requires AtWork(env, s, f, i) && MicroOf(f, i).Probing? && MicroOf(f, i).turn == |f.sys.view|
    ensures MicroOf(f, i).ln in LineHead(env, f.sys, i) && Endless(env.hash, f.sys.view, MicroOf(f, i).ln)
  {
    SameLine(env, s, f, i);
    assert Knows(env, f.sys, JobOf(f.sys, i), MicroOf(f, i));
  }

  /** A step of the program in which a line is one step is then no step of a worker. */
  lemma HaltedClean(env: Env, s: seq<Byte>, f: Fine, i: nat)
    requires FineInv(env, s, f) && FineHalted(env, f) && Abs(f) == f.sys
    ensures !Able(env, f.sys, Clean(i))
  {
    if Able(env, f.sys, Clean(i)) {
      GoesOn(env, s, f, i);
      RoundIsEndless(env, s, f, i);
    }
  }

  lemma HaltedSched(env: Env, s: seq<Byte>, f: Fine, st: P.Step)
    requires FineInv(env, s, f) && FineHalted(env, f) && Able(env, f.sys, Sched(st))
    ensures P.Spurious(st)
  {
    if st.Finish? {
      var j := f.sys.pool.workers[st.i].job;
      assert Knows(env, f.sys, f.sys.jobs[j], f.micro[j]);
    }
    assert FineAble(env, f, Other(st));
  }

  lemma HaltedRefines(env: Env, s: seq<Byte>, f: Fine)
    requires FineInv(env, s, f) && FineHalted(env, f)
    ensures Abs(f) == f.sys && Halted(env, f.sys)
  {
    HaltedSettled(env, s, f);
    forall act | Able(env, f.sys, act) ensures SpuriousAct(act) {
      match act
      case Clean(i) => HaltedClean(env, s, f, i);
      case Sched(st) => HaltedSched(env, s, f, st);
    }
  }

  /** Whatever the load, the number of workers and the interleaving of the finest steps: a run that can go no
      further has ended exactly as the program without threads does. */
  lemma AnyInterleaving(env: Env, s: seq<Byte>, threads: nat, run: seq<FineAct>)
    requires 0 < env.slots && 0 < threads && FinePossible(env, BeginFine(env, s, threads), run)
    ensures var f := FineAfter(env, BeginFine(env, s, threads), run);
            FineHalted(env, f) ==> EndsLike(env, f.sys, TagFrom(env, Started(s), 0))
  {
    BeginRefines(env, s, threads);
    var acts := RunRefines(env, s, BeginFine(env, s, threads), run);
    var f := FineAfter(env, BeginFine(env, s, threads), run);
    if FineHalted(env, f) {
      HaltedRefines(env, s, f);
      ScheduleIndependence(env, s, threads, acts);
    }
  }

  /** Below the load bound it is then through, rewriting its buffer gives the result of the reference program,
      and it has logged its duplicates and done every announced task. */
  lemma AnyInterleavingDeduplicates(env: Env, s: seq<Byte>, threads: nat, run: seq<FineAct>)
    requires 0 < env.slots && 0 < threads && LoadOk(env, s)
    requires FinePossible(env, BeginFine(env, s, threads), run)
    requires FineHalted(env, FineAfter(env, BeginFine(env, s, threads), run))
    ensures var y, n := FineAfter(env, BeginFine(env, s, threads), run).sys, |ChunksFrom(env.chunkSize, s, 0)|;
            PoolRuns.AllThrough(y.pool)
            && Output(|s|, Texts(All(env.conf, y.run.data))) == DedupeResult(env.conf, s)
            && multiset(y.run.log) == multiset(DedupeLists(env.conf, s).dupes)
            && y.run.duplicates == |All(env.conf, s)| - |First(All(env.conf, s))|
            && y.run.chunks == n && y.run.ctasks == Triangular(n)
  {
    AnyInterleaving(env, s, threads, run);
    Pipeline.EndToEnd(env, s);
  }
}
