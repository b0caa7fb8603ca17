/** The threaded program with the work of a worker on one line taken apart: it reads the line, looks at one
    slot of the table at a time, logs the line, and overwrites its first byte, and any other thread may
    take steps in between. Every run of this program is a run of the one in which a line is one step. */
module FineSteps {
  import opened Lines
  import opened Index
  import opened Chunks
  import opened Runs
  import opened Sweeps
  import opened Parallel
  import opened ParallelSafety
  import P = ThreadPool
  import PoolRuns

  /** What the worker of a job is doing with the line `ln`; the next line starts at `next`. */
  datatype Micro =
    | Idle
    | Probing(ln: Line, next: nat, turn: nat)
    | Matched(ln: Line, next: nat)
    | Logged(ln: Line, next: nat)

  /** The program, with the state of the worker of each job. */
  datatype Fine = Fine(sys: System, micro: seq<Micro>)

  datatype FineAct =
    | Other(st: P.Step)   // a step of the pool, as before
    | Read(i: nat)        // `get_next_line`: one physical line
    | Look(i: nat)        // `LINE_ISSET` and `cmp_line` on one slot
    | Log(i: nat)         // `log_duplicate`
    | Mark(i: nat)        // `*line_ptr = DISABLED_LINE`

  function BeginFine(env: Env, s: seq<Byte>, threads: nat): Fine { Fine(Begin(env, s, threads), []) }

  /** Worker `i` is running a job, and is in the middle of it. */
  predicate Working(f: Fine, i: nat)
  {
    HasChunk(f.sys, i) && |f.micro| == |f.sys.jobs| && Reading(f.sys, i)
  }

  function MicroOf(f: Fine, i: nat): Micro
    requires Working(f, i)
  {
    f.micro[f.sys.pool.workers[i].job]
  }

  predicate InBuffer(f: Fine, ln: Line) { ln.at + |ln.text| <= |f.sys.run.data| }

  /** The bytes where the line is, as they are now. */
  function Here(f: Fine, ln: Line): Text
    requires InBuffer(f, ln)
  {
    Cut(f.sys.run.data, ln.at, ln.at + |ln.text|)
  }

  predicate FineAble(env: Env, f: Fine, a: FineAct)
  {
    Running(env, f.sys) &&
    match a
    case Other(st) =>
      Able(env, f.sys, Sched(st)) && |f.micro| == |f.sys.jobs| &&
      (st.Finish? ==> f.micro[f.sys.pool.workers[st.i].job].Idle?)
    case Read(i) => Working(f, i) && MicroOf(f, i).Idle?
    case Look(i) =>
      Working(f, i) && MicroOf(f, i).Probing? && MicroOf(f, i).turn < |f.sys.view| && InBuffer(f, MicroOf(f, i).ln)
    case Log(i) => Working(f, i) && MicroOf(f, i).Matched? && InBuffer(f, MicroOf(f, i).ln)
    case Mark(i) => Working(f, i) && MicroOf(f, i).Logged?
  }

  /** The worker of job `j` is done with its line. */
  function Pass(f: Fine, j: nat, next: nat, more: nat): Fine
    requires j < |f.sys.jobs| == |f.micro|
  {
    var job := f.sys.jobs[j];
    Fine(f.sys.(jobs := f.sys.jobs[j := job.(cur := next, found := job.found + more)]), f.micro[j := Idle])
  }

  /** A worker compares the text `x` of its line with the text `y` of a slot. */
  function Looked(m: Micro, x: Text, y: Text): Micro
    requires m.Probing?
  {
    if y == x then Matched(m.ln, m.next) else m.(turn := m.turn + 1)
  }

  function LookOnce(env: Env, f: Fine, i: nat): Fine
    requires FineAble(env, f, Look(i))
  {
    var m, j, n := MicroOf(f, i), f.sys.pool.workers[i].job, |f.sys.view|;
    match f.sys.view[At(Home(env.hash, Here(f, m.ln), n), m.turn, n)]
    case None => Pass(f, j, m.next, 0)
    case Some(y) => f.(micro := f.micro[j := Looked(m, Here(f, m.ln), y)])
  }

  function FineMove(env: Env, f: Fine, a: FineAct): Fine
    requires FineAble(env, f, a)
  {
    match a
    case Other(st) =>
      var y := Move(env, f.sys, Sched(st));
      Fine(y, if st.Enqueue? then f.micro + [Idle] else f.micro)
    case Read(i) =>
      var j, ls := f.sys.pool.workers[i].job, LineHead(env, f.sys, i);
      var next := Next(f.sys.run.data, JobOf(f.sys, i).cur, JobOf(f.sys, i).hi);
      if ls == [] then Pass(f, j, next, 0) else f.(micro := f.micro[j := Probing(ls[0], next, 0)])
    case Look(i) => LookOnce(env, f, i)
    case Log(i) =>
      var m, j := MicroOf(f, i), f.sys.pool.workers[i].job;
      Fine(f.sys.(run := f.sys.run.(log := f.sys.run.log + [Here(f, m.ln)])), f.micro[j := Logged(m.ln, m.next)])
    case Mark(i) =>
      var m, j := MicroOf(f, i), f.sys.pool.workers[i].job;
      var run := f.sys.run.(data := Tag(f.sys.run.data, {m.ln.at}));
      Pass(f.(sys := f.sys.(run := run)), j, m.next, 1)
  }

  // ---------------------------------------------------------------- the program that it refines

  /** The lines that are logged and not overwritten yet. */
  function Pending(f: Fine): set<nat>
  {
    set j | 0 <= j < |f.micro| && f.micro[j].Logged? :: f.micro[j].ln.at
  }

  function Settled(job: Job, m: Micro): Job
  {
    if m.Logged? then job.(cur := m.next, found := job.found + 1) else job
  }

  /** The program in which a line is one step, that of being logged: what is logged is overwritten. */
  function Abs(f: Fine): (y: System)
    requires |f.micro| == |f.sys.jobs|
  {
    f.sys.(run := f.sys.run.(data := Tag(f.sys.run.data, Pending(f))),
           jobs := seq(|f.micro|, j requires 0 <= j < |f.micro| => Settled(f.sys.jobs[j], f.micro[j])))
  }

  /** What a worker that is not idle knows: its line is the one at its place, and its look-up has gone as
      far as it should have. */
  predicate Knows(env: Env, y: System, job: Job, m: Micro)
  {
    m.Idle? ||
    (&& 0 < |y.view| && job.cur < job.hi <= |y.model.data|
     && Head(env.conf, y.model.data, job.cur, job.hi) == [m.ln] && m.next == Next(y.model.data, job.cur, job.hi)
     && (m.Logged? ==> Boundary(y.model.data, job.cur))
     && var h := Home(env.hash, m.ln.text, |y.view|);
        var found := Probe(y.view, m.ln.text, h, 0, |y.view|);
        if m.Probing? then m.turn <= |y.view| && found == Probe(y.view, m.ln.text, h, m.turn, |y.view|)
        else found.Match?)
  }

  /** The bytes that a job has still to read are as they were when the chunk was indexed. */
  predicate Fresh(y: System, job: Job)
  {
    |y.run.data| == |y.model.data| && job.lo <= job.cur &&
    forall k | 0 <= job.cur <= k < job.hi <= |y.run.data| :: y.run.data[k] == y.model.data[k]
  }

  /** Some worker is running job `j`. */
  predicate Held(p: P.Pool, j: nat) { exists i :: 0 <= i < |p.workers| && p.workers[i] == P.Busy(j) }

  /** A worker can be in the middle of job `j`. */
  ghost predicate MayWork(y: System, j: nat)
  {
    y.first <= j && y.pool.done[j] == 0 && Held(y.pool, j) && y.run.outcome == Completed
  }

  /** What the workers know, and what the jobs of this phase have before them. */
  ghost predicate Details(env: Env, f: Fine)
  {
    && |f.micro| == |f.sys.jobs|
    && (forall j | 0 <= j < |f.micro| :: Knows(env, f.sys, f.sys.jobs[j], f.micro[j]))
    && (forall j | 0 <= j < |f.micro| && !f.micro[j].Idle? :: MayWork(f.sys, j))
    && (forall j | f.sys.first <= j < |f.micro| :: Fresh(f.sys, f.sys.jobs[j]))
  }

  ghost predicate FineInv(env: Env, s: seq<Byte>, f: Fine)
  {
    Details(env, f) && Safe(env, s, Abs(f))
  }

  // ---------------------------------------------------------------- one worker

  /** `f'` differs from `f` in job `j` and its worker alone, and in the bytes and the log. */
  predicate OneJob(f: Fine, f': Fine, j: nat)
  {
    && j < |f.sys.jobs| == |f.micro| == |f'.sys.jobs| == |f'.micro|
    && f'.sys == f.sys.(run := f'.sys.run, jobs := f'.sys.jobs)
    && f'.sys.run == f.sys.run.(data := f'.sys.run.data, log := f'.sys.run.log)
    && f'.sys.jobs == f.sys.jobs[j := f'.sys.jobs[j]] && f'.micro == f.micro[j := f'.micro[j]]
  }

  lemma AbsOne(f: Fine, f': Fine, j: nat)
    requires OneJob(f, f', j)
    ensures Abs(f').jobs == Abs(f).jobs[j := Settled(f'.sys.jobs[j], f'.micro[j])]
    ensures Abs(f') == Abs(f).(run := Abs(f').run, jobs := Abs(f').jobs)
  {
    assert Abs(f').jobs == Abs(f).jobs[j := Settled(f'.sys.jobs[j], f'.micro[j])];
  }

  lemma PendingOne(f: Fine, f': Fine, j: nat)
    requires OneJob(f, f', j) && !f.micro[j].Logged?
    ensures Pending(f') == Pending(f) + if f'.micro[j].Logged? then {f'.micro[j].ln.at} else {}
  {
    forall a | a in Pending(f) ensures a in Pending(f') {
      var k :| 0 <= k < |f.micro| && f.micro[k].Logged? && f.micro[k].ln.at == a;
      assert f'.micro[k] == f.micro[k];
    }
    forall a | a in Pending(f') ensures a in Pending(f) || (f'.micro[j].Logged? && a == f'.micro[j].ln.at) {
      var k :| 0 <= k < |f'.micro| && f'.micro[k].Logged? && f'.micro[k].ln.at == a;
      assert k != j ==> f'.micro[k] == f.micro[k];
    }
    if f'.micro[j].Logged? { assert f'.micro[j].ln.at in Pending(f'); }
  }

  /** Where a pending line is: at the place of its job. */
  lemma PendingAt(env: Env, f: Fine, a: nat) returns (j: nat)
    requires Details(env, f) && a in Pending(f)
    ensures f.sys.first <= j < |f.micro| && f.micro[j].Logged? && f.sys.jobs[j].cur == a < f.sys.jobs[j].hi
  {
    j :| 0 <= j < |f.micro| && f.micro[j].Logged? && f.micro[j].ln.at == a;
    assert Knows(env, f.sys, f.sys.jobs[j], f.micro[j]);
    var job := f.sys.jobs[j];
    assert f.micro[j].ln in Head(env.conf, f.sys.model.data, job.cur, job.hi);
  }

  lemma JobsApart(s: seq<Byte>, f: Fine)
    requires |f.micro| == |f.sys.jobs| && Tiled(s, Abs(f))
    ensures forall i, k | f.sys.first <= i < k < |f.sys.jobs| :: f.sys.jobs[i].hi <= f.sys.jobs[k].lo
  {
    forall i, k | f.sys.first <= i < k < |f.sys.jobs| ensures f.sys.jobs[i].hi <= f.sys.jobs[k].lo {
      assert Abs(f).jobs[i].hi <= Abs(f).jobs[k].lo;
    }
  }

  /** A byte belongs to one job. */
  lemma SameJob(s: seq<Byte>, f: Fine, i: nat, j: nat, k: nat)
    requires |f.micro| == |f.sys.jobs| && Tiled(s, Abs(f))
    requires f.sys.first <= i < |f.sys.jobs| && f.sys.jobs[i].lo <= k < f.sys.jobs[i].hi
    requires f.sys.first <= j < |f.sys.jobs| && f.sys.jobs[j].lo <= k < f.sys.jobs[j].hi
    ensures i == j
  {
    JobsApart(s, f);
  }

  /** No line that is still to be read by a job is pending, but its own. */
  lemma NotPending(env: Env, s: seq<Byte>, f: Fine, j: nat, k: nat)
    requires Details(env, f) && Tiled(s, Abs(f))
    requires f.sys.first <= j < |f.micro| && f.sys.jobs[j].cur <= k < f.sys.jobs[j].hi
    requires k in Pending(f)
    ensures f.micro[j].Logged? && k == f.sys.jobs[j].cur
  {
    var i := PendingAt(env, f, k);
    assert Fresh(f.sys, f.sys.jobs[i]) && Fresh(f.sys, f.sys.jobs[j]);
    SameJob(s, f, i, j, k);
  }

  /** Worker `i`, in the middle of a phase. */
  ghost predicate AtWork(env: Env, s: seq<Byte>, f: Fine, i: nat)
  {
    && Details(env, f) && Tiled(s, Abs(f)) && Running(env, f.sys) && Working(f, i)
    && MayWork(f.sys, f.sys.pool.workers[i].job) && SameNewlines(s, f.sys.model.data)
  }

  /** A worker works on a job of this phase, in the middle of the phase. */
  lemma WorkerHolds(env: Env, s: seq<Byte>, f: Fine, i: nat)
    requires FineInv(env, s, f) && Running(env, f.sys) && Working(f, i)
    ensures var j := f.sys.pool.workers[i].job;
            AtWork(env, s, f, i) && !f.sys.stage.Between?
  {
    HeldIsCurrent(Abs(f), i);
    assert P.HasJob(f.sys.pool.workers[i]);
  }

  /** What a worker reads is what was there when the chunk was indexed, and what a worker of the program in
      which a line is one step reads. */
  lemma SameBytes(env: Env, s: seq<Byte>, f: Fine, i: nat, k: nat)
    requires AtWork(env, s, f, i) && !MicroOf(f, i).Logged?
    requires JobOf(f.sys, i).cur <= k < JobOf(f.sys, i).hi
    ensures k < |f.sys.run.data| == |f.sys.model.data| && Abs(f).run.data[k] == f.sys.model.data[k] == f.sys.run.data[k]
  {
    assert Fresh(f.sys, JobOf(f.sys, i));
    if k in Pending(f) { NotPending(env, s, f, f.sys.pool.workers[i].job, k); }
  }

  lemma SameLine(env: Env, s: seq<Byte>, f: Fine, i: nat)
    requires AtWork(env, s, f, i) && !MicroOf(f, i).Logged?
    ensures HasChunk(Abs(f), i) && JobOf(Abs(f), i) == JobOf(f.sys, i) && Reading(Abs(f), i)
    ensures var c, job, u := env.conf, JobOf(f.sys, i), f.sys.model.data;
            |u| == |f.sys.run.data| &&
            LineHead(env, f.sys, i) == LineHead(env, Abs(f), i) == Head(c, u, job.cur, job.hi) &&
            Next(f.sys.run.data, job.cur, job.hi) == Next(Abs(f).run.data, job.cur, job.hi) ==
            Next(u, job.cur, job.hi)
  {
    var job, u := JobOf(f.sys, i), f.sys.model.data;
    assert Fresh(f.sys, job);
    forall k | job.cur <= k < job.hi ensures Abs(f).run.data[k] == u[k] == f.sys.run.data[k] {
      SameBytes(env, s, f, i, k);
    }
    HeadFrame(env.conf, f.sys.run.data, u, job.cur, job.hi);
    HeadFrame(env.conf, Abs(f).run.data, u, job.cur, job.hi);
  }

  lemma PlaceIsBoundary(env: Env, s: seq<Byte>, f: Fine, i: nat)
    requires AtWork(env, s, f, i) && !MicroOf(f, i).Logged?
    ensures Boundary(f.sys.model.data, JobOf(f.sys, i).cur)
  {
    FitsBoundary(s, Abs(f), f.sys.pool.workers[i].job, f.sys.model.data);
  }

  lemma FitsBoundary(s: seq<Byte>, y: System, j: nat, u: seq<Byte>)
    requires Tiled(s, y) && y.first <= j < |y.jobs| && SameNewlines(s, u)
    ensures Boundary(u, y.jobs[j].cur)
  {
    assert JobFits(s, y, y.jobs[j]);
  }

  /** The bytes where the line is are still those of the line. */
  lemma HereIs(env: Env, s: seq<Byte>, f: Fine, i: nat)
    requires AtWork(env, s, f, i) && !MicroOf(f, i).Logged? && !MicroOf(f, i).Idle?
    ensures var ln := MicroOf(f, i).ln;
            InBuffer(f, ln) && Here(f, ln) == ln.text && ln.at == JobOf(f.sys, i).cur && LineHead(env, f.sys, i) == [ln]
  {
    SameLine(env, s, f, i);
    var m, job := MicroOf(f, i), JobOf(f.sys, i);
    assert Knows(env, f.sys, job, m);
    HeadHere(env.conf, f.sys.run.data, job.cur, job.hi, m.ln);
  }

  lemma HeadHere(c: Filter, s: seq<Byte>, i: nat, e: nat, ln: Line)
    requires i < e <= |s| && Head(c, s, i, e) == [ln]
    ensures ln.at == i && i + |ln.text| <= e && ln.text == Cut(s, i, i + |ln.text|) && s[i] != LF && 0 < |ln.text|
  {
    assert ln == [ln][0];
  }

  // ---------------------------------------------------------------- steps of a worker

  /** What the steps of a worker keep that leave the bytes alone. */
  lemma KeepsDetails(env: Env, f: Fine, f': Fine, j: nat)
    requires Details(env, f) && OneJob(f, f', j) && f'.sys.run.data == f.sys.run.data
    requires MayWork(f.sys, j)
    requires Knows(env, f'.sys, f'.sys.jobs[j], f'.micro[j]) && Fresh(f'.sys, f'.sys.jobs[j])
    ensures Details(env, f')
  {
    forall k | 0 <= k < |f.micro| ensures Knows(env, f'.sys, f'.sys.jobs[k], f'.micro[k]) {
      assert k != j ==> Knows(env, f.sys, f.sys.jobs[k], f.micro[k]);
    }
    forall k | f.sys.first <= k < |f.micro| ensures Fresh(f'.sys, f'.sys.jobs[k]) {
      assert k != j ==> Fresh(f.sys, f.sys.jobs[k]);
    }
  }

  /** The worker of job `j` has nothing more to do with its line: in the program in which a line is one
      step, this is the step. */
  lemma PassAbs(env: Env, s: seq<Byte>, f: Fine, i: nat, next: nat)
    requires AtWork(env, s, f, i) && !MicroOf(f, i).Logged?
    requires next == Next(f.sys.run.data, JobOf(f.sys, i).cur, JobOf(f.sys, i).hi)
    requires !Hit(env, f.sys.view, LineHead(env, f.sys, i))
    requires forall ln | ln in LineHead(env, f.sys, i) :: !Endless(env.hash, f.sys.view, ln)
    ensures Able(env, Abs(f), Clean(i))
    ensures Abs(Pass(f, f.sys.pool.workers[i].job, next, 0)) == CleanLine(env, Abs(f), i)
  {
    var j := f.sys.pool.workers[i].job;
    var f' := Pass(f, j, next, 0);
    SameLine(env, s, f, i);
    AbsOne(f, f', j);
    PendingOne(f, f', j);
  }

  lemma PassDetails(env: Env, s: seq<Byte>, f: Fine, i: nat, next: nat)
    requires AtWork(env, s, f, i)
    requires JobOf(f.sys, i).cur <= next
    ensures Details(env, Pass(f, f.sys.pool.workers[i].job, next, 0))
  {
    assert Fresh(f.sys, JobOf(f.sys, i));
    KeepsDetails(env, f, Pass(f, f.sys.pool.workers[i].job, next, 0), f.sys.pool.workers[i].job);
  }

  /** A worker has moved on with its line without the program in which a line is one step noticing. */
  lemma StutterAbs(f: Fine, f': Fine, j: nat)
    requires OneJob(f, f', j) && f'.sys == f.sys && !f.micro[j].Logged? && !f'.micro[j].Logged?
    ensures Abs(f') == Abs(f)
  {
    AbsOne(f, f', j);
    PendingOne(f, f', j);
    assert Abs(f').jobs == Abs(f).jobs;
  }

  ghost predicate Simulates(env: Env, f: Fine, f': Fine, i: nat)
    requires Details(env, f) && Details(env, f')
  {
    Abs(f') == Abs(f) || (Able(env, Abs(f), Clean(i)) && Abs(f') == Move(env, Abs(f), Clean(i)))
  }

  lemma ReadStep(env: Env, s: seq<Byte>, f: Fine, i: nat)
    requires AtWork(env, s, f, i) && FineAble(env, f, Read(i))
    ensures Details(env, FineMove(env, f, Read(i))) && Simulates(env, f, FineMove(env, f, Read(i)), i)
  {
    var f', j, job := FineMove(env, f, Read(i)), f.sys.pool.workers[i].job, JobOf(f.sys, i);
    var ls := LineHead(env, f.sys, i);
    SameLine(env, s, f, i);
    if ls == [] {
      PassAbs(env, s, f, i, Next(f.sys.run.data, job.cur, job.hi));
      PassDetails(env, s, f, i, Next(f.sys.run.data, job.cur, job.hi));
    } else {
      assert ls == [ls[0]] && Fresh(f.sys, job);
      StutterAbs(f, f', j);
      KeepsDetails(env, f, f', j);
    }
  }

  /** The slot is empty: the line is not in the table. */
  lemma LookFree(env: Env, s: seq<Byte>, f: Fine, i: nat)
    requires AtWork(env, s, f, i) && FineAble(env, f, Look(i))
    requires var m, n := MicroOf(f, i), |f.sys.view|; f.sys.view[At(Home(env.hash, m.ln.text, n), m.turn, n)].None?
    ensures var j, next := f.sys.pool.workers[i].job, MicroOf(f, i).next;
            Details(env, Pass(f, j, next, 0)) && Simulates(env, f, Pass(f, j, next, 0), i)
  {
    var m := MicroOf(f, i);
    HereIs(env, s, f, i);
    SameLine(env, s, f, i);
    assert Knows(env, f.sys, JobOf(f.sys, i), m);
    PassAbs(env, s, f, i, m.next);
    PassDetails(env, s, f, i, m.next);
  }

  lemma LookKnows(env: Env, y: System, job: Job, m: Micro)
    requires m.Probing? && m.turn < |y.view| && Knows(env, y, job, m)
    requires var slot := y.view[At(Home(env.hash, m.ln.text, |y.view|), m.turn, |y.view|)]; slot.Some?
    ensures var slot := y.view[At(Home(env.hash, m.ln.text, |y.view|), m.turn, |y.view|)];
            Knows(env, y, job, Looked(m, m.ln.text, slot.value))
  {
    var n := |y.view|;
    var h := Home(env.hash, m.ln.text, n);
    var slot := y.view[At(h, m.turn, n)];
    assert Probe(y.view, m.ln.text, h, m.turn, n) ==
           if slot.value == m.ln.text then Match(m.turn) else Probe(y.view, m.ln.text, h, m.turn + 1, n);
  }

  lemma LookOn(env: Env, f: Fine, j: nat, m': Micro)
    requires Details(env, f) && j < |f.micro| && f.micro[j].Probing? && !m'.Logged?
    requires MayWork(f.sys, j) && Knows(env, f.sys, f.sys.jobs[j], m')
    ensures var f' := f.(micro := f.micro[j := m']); Details(env, f') && Abs(f') == Abs(f)
  {
    assert Fresh(f.sys, f.sys.jobs[j]);
    StutterAbs(f, f.(micro := f.micro[j := m']), j);
    KeepsDetails(env, f, f.(micro := f.micro[j := m']), j);
  }

  lemma LookFull(env: Env, s: seq<Byte>, f: Fine, i: nat)
    requires AtWork(env, s, f, i) && FineAble(env, f, Look(i))
    requires var m, n := MicroOf(f, i), |f.sys.view|; f.sys.view[At(Home(env.hash, m.ln.text, n), m.turn, n)].Some?
    ensures var m, j, n := MicroOf(f, i), f.sys.pool.workers[i].job, |f.sys.view|;
            var slot := f.sys.view[At(Home(env.hash, m.ln.text, n), m.turn, n)];
            var f' := f.(micro := f.micro[j := Looked(m, m.ln.text, slot.value)]);
            Details(env, f') && Abs(f') == Abs(f)
  {
    var m, j, n := MicroOf(f, i), f.sys.pool.workers[i].job, |f.sys.view|;
    LookKnows(env, f.sys, JobOf(f.sys, i), m);
    LookOn(env, f, j, Looked(m, m.ln.text, f.sys.view[At(Home(env.hash, m.ln.text, n), m.turn, n)].value));
  }

  lemma LookStep(env: Env, s: seq<Byte>, f: Fine, i: nat)
    requires AtWork(env, s, f, i) && FineAble(env, f, Look(i))
    ensures Details(env, FineMove(env, f, Look(i))) && Simulates(env, f, FineMove(env, f, Look(i)), i)
  {
    var m, n := MicroOf(f, i), |f.sys.view|;
    HereIs(env, s, f, i);
    if f.sys.view[At(Home(env.hash, m.ln.text, n), m.turn, n)].None? {
      LookFree(env, s, f, i);
    } else {
      LookFull(env, s, f, i);
    }
  }

  lemma LogStep(env: Env, s: seq<Byte>, f: Fine, i: nat)
    requires AtWork(env, s, f, i) && FineAble(env, f, Log(i))
    ensures Details(env, FineMove(env, f, Log(i))) && Simulates(env, f, FineMove(env, f, Log(i)), i)
  {
    var f', j, m := FineMove(env, f, Log(i)), f.sys.pool.workers[i].job, MicroOf(f, i);
    HereIs(env, s, f, i);
    SameLine(env, s, f, i);
    assert Knows(env, f.sys, JobOf(f.sys, i), m) && Fresh(f.sys, JobOf(f.sys, i));
    PlaceIsBoundary(env, s, f, i);
    KeepsDetails(env, f, f', j);
    LogAbs(env, f, f', i);
  }

  lemma LogAbs(env: Env, f: Fine, f': Fine, i: nat)
    requires |f.micro| == |f.sys.jobs| && FineAble(env, f, Log(i)) && f' == FineMove(env, f, Log(i))
    requires HasChunk(Abs(f), i) && JobOf(Abs(f), i) == JobOf(f.sys, i) && Reading(Abs(f), i)
    requires var m := MicroOf(f, i);
             Here(f, m.ln) == m.ln.text && m.ln.at == JobOf(f.sys, i).cur && LineHead(env, Abs(f), i) == [m.ln] &&
             m.next == Next(Abs(f).run.data, m.ln.at, JobOf(f.sys, i).hi) && Hit(env, f.sys.view, [m.ln])
    ensures Able(env, Abs(f), Clean(i)) && Abs(f') == Move(env, Abs(f), Clean(i))
  {
    var j, m := f.sys.pool.workers[i].job, MicroOf(f, i);
    AbsOne(f, f', j);
    PendingOne(f, f', j);
    TagTwice(f.sys.run.data, Pending(f), {m.ln.at});
    assert [m.ln][0] == m.ln && forall ln | ln in [m.ln] :: ln == m.ln;
  }

  lemma MarkStep(env: Env, s: seq<Byte>, f: Fine, i: nat)
    requires AtWork(env, s, f, i) && FineAble(env, f, Mark(i))
    ensures Details(env, FineMove(env, f, Mark(i))) && Simulates(env, f, FineMove(env, f, Mark(i)), i)
  {
    var j, m := f.sys.pool.workers[i].job, MicroOf(f, i);
    var f', at := FineMove(env, f, Mark(i)), JobOf(f.sys, i).cur;
    assert Knows(env, f.sys, JobOf(f.sys, i), m) && Fresh(f.sys, JobOf(f.sys, i));
    assert m.ln in Head(env.conf, f.sys.model.data, at, JobOf(f.sys, i).hi);
    JobsApart(s, f);
    MarkDetails(env, f, f', j, at);
    MarkAbs(f, f', j);
  }

  lemma MarkDetails(env: Env, f: Fine, f': Fine, j: nat, at: nat)
    requires Details(env, f) && OneJob(f, f', j) && f'.sys.run.data == Tag(f.sys.run.data, {at}) && f'.micro[j].Idle?
    requires forall i, k | f.sys.first <= i < k < |f.sys.jobs| :: f.sys.jobs[i].hi <= f.sys.jobs[k].lo
    requires f.sys.first <= j && f.sys.jobs[j].lo <= at == f.sys.jobs[j].cur < f'.sys.jobs[j].cur
    requires at < f.sys.jobs[j].hi
    requires f'.sys.jobs[j].lo == f.sys.jobs[j].lo && f'.sys.jobs[j].hi == f.sys.jobs[j].hi
    ensures Details(env, f')
  {
    forall k | 0 <= k < |f.micro| ensures Knows(env, f'.sys, f'.sys.jobs[k], f'.micro[k]) {
      assert k != j ==> Knows(env, f.sys, f.sys.jobs[k], f.micro[k]);
    }
    forall k | f.sys.first <= k < |f.micro| ensures Fresh(f'.sys, f'.sys.jobs[k]) {
      assert Fresh(f.sys, f.sys.jobs[k]);
    }
  }

  lemma MarkAbs(f: Fine, f': Fine, j: nat)
    requires OneJob(f, f', j) && f.micro[j].Logged? && f'.micro[j].Idle?
    requires f'.sys.run == f.sys.run.(data := Tag(f.sys.run.data, {f.micro[j].ln.at}))
    requires f'.sys.jobs[j] == Settled(f.sys.jobs[j], f.micro[j])
    ensures Abs(f') == Abs(f)
  {
    AbsOne(f, f', j);
    assert Abs(f').jobs == Abs(f).jobs;
    PendingLess(f, f', j);
    TagTwice(f.sys.run.data, {f.micro[j].ln.at}, Pending(f'));
  }

  lemma PendingLess(f: Fine, f': Fine, j: nat)
    requires OneJob(f, f', j) && f.micro[j].Logged? && f'.micro[j].Idle?
    ensures Pending(f) == {f.micro[j].ln.at} + Pending(f')
  {
    forall a | a in Pending(f) ensures a in {f.micro[j].ln.at} + Pending(f') {
      var k :| 0 <= k < |f.micro| && f.micro[k].Logged? && f.micro[k].ln.at == a;
      assert k != j ==> f'.micro[k] == f.micro[k];
    }
    forall a | a in Pending(f') ensures a in Pending(f) {
      var k :| 0 <= k < |f'.micro| && f'.micro[k].Logged? && f'.micro[k].ln.at == a;
      assert f'.micro[k] == f.micro[k];
    }
    assert f.micro[j].ln.at in Pending(f);
  }

  // ---------------------------------------------------------------- steps of the pool

  /** When every worker is idle, the two programs are in the same state. */
  lemma AllIdle(f: Fine)
    requires |f.micro| == |f.sys.jobs| && forall j | 0 <= j < |f.micro| :: f.micro[j].Idle?
    ensures Abs(f) == f.sys
  {
    assert Pending(f) == {};
    assert Tag(f.sys.run.data, {}) == f.sys.run.data;
    assert Abs(f).jobs == f.sys.jobs;
  }

  lemma DoneIdle(env: Env, f: Fine)
    requires Details(env, f) && JobsFollow(Abs(f)) && PoolRuns.AllDone(f.sys.pool)
    ensures Abs(f) == f.sys
    ensures forall j | 0 <= j < |f.micro| :: f.micro[j].Idle? && f.sys.jobs[j].cur == f.sys.jobs[j].hi
  {
    forall j | 0 <= j < |f.micro| ensures f.micro[j].Idle? { assert f.sys.pool.done[j] == 1; }
    AllIdle(f);
    AllRead(f.sys);
  }

  /** Overwriting what is pending moves no newline. */
  lemma AbsNewlines(env: Env, f: Fine)
    requires Details(env, f)
    ensures SameNewlines(f.sys.run.data, Abs(f).run.data)
  {
    forall a | a in Pending(f) ensures a < |f.sys.run.data| ==> f.sys.run.data[a] != LF {
      var j := PendingAt(env, f, a);
      var job := f.sys.jobs[j];
      assert Knows(env, f.sys, job, f.micro[j]) && Fresh(f.sys, job);
      HeadHere(env.conf, f.sys.model.data, job.cur, job.hi, f.micro[j].ln);
    }
  }

  lemma FineInvDone(env: Env, f: Fine, f': Fine)
    requires Details(env, f) && f'.micro == f.micro && |f'.sys.jobs| == |f.sys.jobs|
    requires f'.sys.model == f.sys.model && f'.sys.view == f.sys.view && f'.sys.first == f.sys.first
    requires f'.sys.run.data == f.sys.run.data
    requires forall j | 0 <= j < |f.micro| :: f'.sys.jobs[j] == f.sys.jobs[j].(found := f'.sys.jobs[j].found)
    requires forall j | 0 <= j < |f.micro| && !f.micro[j].Idle? :: MayWork(f'.sys, j)
    ensures Details(env, f')
  {
    forall j | 0 <= j < |f.micro| ensures Knows(env, f'.sys, f'.sys.jobs[j], f'.micro[j]) {
      assert Knows(env, f.sys, f.sys.jobs[j], f.micro[j]);
    }
    forall j | f.sys.first <= j < |f.micro| ensures Fresh(f'.sys, f'.sys.jobs[j]) {
      assert Fresh(f.sys, f.sys.jobs[j]);
    }
  }

  /** A job is run by its worker until that worker finishes it. */
  lemma HeldStays(p: P.Pool, st: P.Step, j: nat)
    requires P.Inv(p) && P.Enabled(p, st) && Held(p, j) && (st.Finish? ==> p.workers[st.i].job != j)
    ensures Held(P.Apply(p, st), j) && (p.done[j] == 0 ==> P.Apply(p, st).done[j] == 0)
  {
    var i :| 0 <= i < |p.workers| && p.workers[i] == P.Busy(j);
    P.StepFrame(p, st);
    assert P.Apply(p, st).workers[i] == P.Busy(j);
  }

  lemma AllHeld(f: Fine, st: P.Step)
    requires P.Inv(f.sys.pool) && P.Enabled(f.sys.pool, st)
    requires forall j | 0 <= j < |f.micro| && !f.micro[j].Idle? ::
               MayWork(f.sys, j) && (st.Finish? ==> f.sys.pool.workers[st.i].job != j)
    ensures forall j | 0 <= j < |f.micro| && !f.micro[j].Idle? ::
              Held(P.Apply(f.sys.pool, st), j) && P.Apply(f.sys.pool, st).done[j] == 0
  {
    forall j | 0 <= j < |f.micro| && !f.micro[j].Idle?
      ensures Held(P.Apply(f.sys.pool, st), j) && P.Apply(f.sys.pool, st).done[j] == 0
    {
      HeldStays(f.sys.pool, st, j);
    }
  }

  /** The steps that are nothing to the program. */
  lemma OtherFine(env: Env, f: Fine, st: P.Step)
    requires Details(env, f) && P.Inv(f.sys.pool) && FineAble(env, f, Other(st))
    requires !st.DoLocal? && !st.Enqueue? && !st.Finish? && !Returns(f.sys, st)
    ensures Details(env, FineMove(env, f, Other(st)))
    ensures Able(env, Abs(f), Sched(st)) && Abs(FineMove(env, f, Other(st))) == Move(env, Abs(f), Sched(st))
  {
    var f' := FineMove(env, f, Other(st));
    P.StepFrame(f.sys.pool, st);
    AllHeld(f, st);
    FineInvDone(env, f, f');
    assert Abs(f').jobs == Abs(f).jobs;
  }

  lemma FinishFine(env: Env, f: Fine, i: nat)
    requires Details(env, f) && P.Inv(f.sys.pool) && FineAble(env, f, Other(P.Finish(i)))
    ensures Details(env, FineMove(env, f, Other(P.Finish(i))))
    ensures Able(env, Abs(f), Sched(P.Finish(i)))
    ensures Abs(FineMove(env, f, Other(P.Finish(i)))) == Move(env, Abs(f), Sched(P.Finish(i)))
  {
    var f', j := FineMove(env, f, Other(P.Finish(i))), f.sys.pool.workers[i].job;
    P.StepFrame(f.sys.pool, P.Finish(i));
    AllHeld(f, P.Finish(i));
    FineInvDone(env, f, f');
    assert Abs(f').jobs == Abs(f).jobs[j := f'.sys.jobs[j]];
  }

  /** The next chunk is indexed: nobody is in the middle of a line. */
  lemma IndexFine(env: Env, f: Fine)
    requires Details(env, f) && Pooled(Abs(f)) && FineAble(env, f, Other(P.DoLocal))
    requires f.sys.pool.script[0].task == INDEX
    ensures Details(env, FineMove(env, f, Other(P.DoLocal)))
    ensures Able(env, Abs(f), Sched(P.DoLocal))
    ensures Abs(FineMove(env, f, Other(P.DoLocal))) == Move(env, Abs(f), Sched(P.DoLocal))
  {
    PoolRuns.ClearIsDone(f.sys.pool);
    DoneIdle(env, f);
    AllIdle(FineMove(env, f, Other(P.DoLocal)));
  }

  lemma CountFine(env: Env, f: Fine)
    requires Details(env, f) && P.Inv(f.sys.pool) && FineAble(env, f, Other(P.DoLocal))
    requires f.sys.pool.script[0].task != INDEX
    ensures Details(env, FineMove(env, f, Other(P.DoLocal)))
    ensures Able(env, Abs(f), Sched(P.DoLocal))
    ensures Abs(FineMove(env, f, Other(P.DoLocal))) == Move(env, Abs(f), Sched(P.DoLocal))
  {
    var f' := FineMove(env, f, Other(P.DoLocal));
    P.StepFrame(f.sys.pool, P.DoLocal);
    AllHeld(f, P.DoLocal);
    if f.sys.jobs != [] { FineInvDone(env, f, f'); }
    assert Abs(f').jobs == Abs(f).jobs;
  }

  lemma ReturnFine(env: Env, f: Fine)
    requires Details(env, f) && Pooled(Abs(f)) && FineAble(env, f, Other(P.ReadWorking)) && f.sys.pool.working == 0
    ensures Details(env, FineMove(env, f, Other(P.ReadWorking)))
    ensures Able(env, Abs(f), Sched(P.ReadWorking))
    ensures Abs(FineMove(env, f, Other(P.ReadWorking))) == Move(env, Abs(f), Sched(P.ReadWorking))
  {
    var f' := FineMove(env, f, Other(P.ReadWorking));
    PoolRuns.BarrierSafe(f.sys.pool);
    DoneIdle(env, f);
    AllIdle(f');
    forall j | f.sys.first <= j < |f.micro| ensures Fresh(f'.sys, f'.sys.jobs[j]) {
      assert Fresh(f.sys, f.sys.jobs[j]);
    }
  }

  /** The bytes of the chunk that is pushed are as they were when the table was filled. */
  lemma PushFresh(env: Env, s: seq<Byte>, f: Fine, k: nat)
    requires Details(env, f) && Placed(env, s, Abs(f)) && Tiled(s, Abs(f)) && Mirrors(env, Abs(f))
    requires f.sys.subEnd <= k < |f.sys.run.data|
    ensures k < |f.sys.model.data| && f.sys.run.data[k] == f.sys.model.data[k]
  {
    PendingBefore(env, s, f);
    NotPassedYet(s, Abs(f), k);
  }

  lemma PendingBefore(env: Env, s: seq<Byte>, f: Fine)
    requires Details(env, f) && Tiled(s, Abs(f))
    ensures forall a | a in Pending(f) :: a < f.sys.subEnd
  {
    forall a | a in Pending(f) ensures a < f.sys.subEnd {
      var j := PendingAt(env, f, a);
      assert JobFits(s, Abs(f), Abs(f).jobs[j]);
    }
  }

  lemma NotPassedYet(s: seq<Byte>, y: System, k: nat)
    requires Tiled(s, y) && y.subEnd <= k
    ensures !Passed(y, k)
  {
    forall j | y.first <= j < |y.jobs| ensures !(y.jobs[j].lo <= k < y.jobs[j].cur) {
      assert JobFits(s, y, y.jobs[j]);
    }
  }

  lemma PushFreshJobs(env: Env, s: seq<Byte>, f: Fine)
    requires Details(env, f) && FineAble(env, f, Other(P.Enqueue))
    requires Placed(env, s, Abs(f)) && Tiled(s, Abs(f)) && Mirrors(env, Abs(f))
    ensures var y := PushChunk(env, f.sys); forall j | f.sys.first <= j < |y.jobs| :: Fresh(y, y.jobs[j])
  {
    var y := PushChunk(env, f.sys);
    forall k | f.sys.subEnd <= k < |f.sys.run.data| ensures f.sys.run.data[k] == f.sys.model.data[k] {
      PushFresh(env, s, f, k);
    }
    forall j | f.sys.first <= j < |y.jobs| ensures Fresh(y, y.jobs[j]) {
      if j < |f.micro| { assert Fresh(f.sys, f.sys.jobs[j]); }
    }
  }

  lemma PushKnows(env: Env, f: Fine, y: System)
    requires Details(env, f) && y.view == f.sys.view && y.model == f.sys.model
    requires |y.jobs| == |f.sys.jobs| + 1 && y.jobs[..|f.sys.jobs|] == f.sys.jobs
    ensures forall j | 0 <= j < |f.micro| + 1 :: Knows(env, y, y.jobs[j], (f.micro + [Idle])[j])
  {
    forall j | 0 <= j < |f.micro| + 1 ensures Knows(env, y, y.jobs[j], (f.micro + [Idle])[j]) {
      if j < |f.micro| {
        assert y.jobs[j] == y.jobs[..|f.sys.jobs|][j];
        assert Knows(env, f.sys, f.sys.jobs[j], f.micro[j]);
      }
    }
  }

  lemma PushDetails(env: Env, s: seq<Byte>, f: Fine)
    requires Details(env, f) && P.Inv(f.sys.pool) && FineAble(env, f, Other(P.Enqueue))
    requires Placed(env, s, Abs(f)) && Tiled(s, Abs(f)) && Mirrors(env, Abs(f))
    ensures Details(env, FineMove(env, f, Other(P.Enqueue)))
  {
    var f' := FineMove(env, f, Other(P.Enqueue));
    AllHeld(f, P.Enqueue);
    PushFreshJobs(env, s, f);
    PushKnows(env, f, f'.sys);
    forall j | f'.sys.first <= j < |f'.micro| ensures Fresh(f'.sys, f'.sys.jobs[j]) {
      assert Fresh(PushChunk(env, f.sys), PushChunk(env, f.sys).jobs[j]);
    }
    forall j | 0 <= j < |f'.micro| && !f'.micro[j].Idle? ensures MayWork(f'.sys, j) {
      assert MayWork(f.sys, j);
    }
  }

  lemma PushFine(env: Env, f: Fine)
    requires Details(env, f) && FineAble(env, f, Other(P.Enqueue))
    ensures Able(env, Abs(f), Sched(P.Enqueue))
    ensures |FineMove(env, f, Other(P.Enqueue)).micro| == |FineMove(env, f, Other(P.Enqueue)).sys.jobs|
    ensures Abs(FineMove(env, f, Other(P.Enqueue))) == Move(env, Abs(f), Sched(P.Enqueue))
  {
    var f' := FineMove(env, f, Other(P.Enqueue));
    AbsNewlines(env, f);
    ChunksStable(env.chunkSize, f.sys.run.data, Abs(f).run.data, f.sys.subEnd);
    PendingPush(f, f');
    assert Abs(f').jobs == Abs(f).jobs + [f'.sys.jobs[|f.sys.jobs|]];
  }

  lemma PendingPush(f: Fine, f': Fine)
    requires f'.micro == f.micro + [Idle]
    ensures Pending(f') == Pending(f)
  {
    forall a | a in Pending(f) ensures a in Pending(f') {
      var j :| 0 <= j < |f.micro| && f.micro[j].Logged? && f.micro[j].ln.at == a;
      assert f'.micro[j] == f.micro[j];
    }
  }
}
