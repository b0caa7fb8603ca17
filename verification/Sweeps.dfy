/** `tag_subchunks` without threads, described at once: whatever the load, it tags every later line
    that the table holds, unless one of its look-ups never ends. */
module Sweeps {
  import opened Lines
  import opened Index
  import opened Chunks
  import opened Runs
  import opened Exactness

  /** The look-up of the line in `cleanout_chunk` never ends. */
  predicate Endless(hash: Hash, v: View, ln: Line)
    requires 0 < |v|
  {
    Probe(v, ln.text, Home(hash, ln.text, |v|), 0, |v|).Spent?
  }

  lemma {:induction false} SweepLive(hash: Hash, v: View, st: Sweep, ls: seq<Line>)
    requires 0 < |v| && st.live
    ensures SweepLines(hash, v, st, ls).live <==> forall ln | ln in ls :: !Endless(hash, v, ln)
    decreases |ls|
  {
    if ls != [] {
      assert forall ln :: ln in ls <==> ln == ls[0] || ln in ls[1..];
      var st' := SweepLine(hash, v, st, ls[0]);
      assert st'.live <==> !Endless(hash, v, ls[0]);
      if st'.live { SweepLive(hash, v, st', ls[1..]); }
    }
  }

  lemma TagTwice(s: seq<Byte>, a: set<nat>, b: set<nat>)
    ensures Tag(Tag(s, a), b) == Tag(s, a + b)
  { }

  /** One chunk: swept as a whole, unless one of its look-ups never ends. */
  lemma ChunkMeans(env: Env, v: View, run: Run, p: nat, e: nat)
    requires p <= e <= |run.data| && Boundary(run.data, p) && Boundary(run.data, e)
    requires Indexed(env.hash, v) && run.outcome == Completed
    ensures var ls, r := Parse(env.conf, run.data, p, e), AfterSweep(env, v, run, p, e);
            if forall ln | ln in ls :: !Endless(env.hash, v, ln)
            then r.outcome == Completed && r.data == Tag(run.data, Doomed(ls, Keys(v)))
            else r.outcome == RunsForever
  {
    var ls := Parse(env.conf, run.data, p, e);
    SweepLive(env.hash, v, Sweep({}, [], true), ls);
    SweepMeans(env.hash, v, Sweep({}, [], true), ls);
    assert {} + Doomed(ls, Keys(v)) == Doomed(ls, Keys(v));
  }

  /** One chunk and then the rest. */
  lemma SweepThen(env: Env, v: View, run: Run, p: nat, e: nat)
    requires p <= e <= |run.data| && Boundary(run.data, p) && Boundary(run.data, e)
    requires Indexed(env.hash, v) && run.outcome == Completed
    requires AfterSweep(env, v, run, p, e).outcome == Completed
    ensures var s, t := run.data, AfterSweep(env, v, run, p, e).data;
            Boundary(t, e) && Parse(env.conf, t, e, |s|) == Parse(env.conf, s, e, |s|) &&
            Tag(t, Doomed(Parse(env.conf, s, e, |s|), Keys(v))) == Tag(s, Doomed(Parse(env.conf, s, p, |s|), Keys(v)))
  {
    var c, s := env.conf, run.data;
    var b, d := Parse(c, s, p, e), Parse(c, s, e, |s|);
    ChunkMeans(env, v, run, p, e);
    DoomedTag(c, s, Keys(v), p, e);
    ParseFrame(c, s, Tag(s, Doomed(b, Keys(v))), e, |s|);
    ParseSplit(c, s, p, e, |s|);
    DoomedAppend(b, d, Keys(v));
    TagTwice(s, Doomed(b, Keys(v)), Doomed(d, Keys(v)));
  }

  /** What `tag_subchunks` does without threads, whatever the load: all the lines of the table are
      tagged at once, unless a look-up never ends. */
  lemma {:induction false} SubchunksMeans(env: Env, v: View, run: Run, p: nat)
    requires p <= |run.data| && Boundary(run.data, p)
    requires Indexed(env.hash, v) && run.outcome == Completed
    ensures var ls, r := Parse(env.conf, run.data, p, |run.data|), Subchunks(env, v, run, p);
            if forall ln | ln in ls :: !Endless(env.hash, v, ln)
            then r.outcome == Completed && r.data == Tag(run.data, Doomed(ls, Keys(v)))
            else r.outcome == RunsForever
    decreases |run.data| - p
  {
    var c, s := env.conf, run.data;
    if p == |s| {
      assert Tag(s, {}) == s;
      assert Doomed([], Keys(v)) == {};
    } else {
      var e := NextEnd(env.chunkSize, s, p);
      ParseSplit(c, s, p, e, |s|);
      ChunkMeans(env, v, run, p, e);
      if AfterSweep(env, v, run, p, e).outcome == Completed {
        SweepThen(env, v, run, p, e);
        SubchunksMeans(env, v, AfterSweep(env, v, run, p, e), e);
      }
    }
  }
}
