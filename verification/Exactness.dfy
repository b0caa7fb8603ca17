/** What a run computes below the load bound: the first occurrences, exactly. */
module Exactness {
  import opened Lines
  import opened LineLists
  import opened Index
  import opened Chunks
  import opened Runs
  import opened Soundness

  /** The lines of `ls` that start in `[lo, hi)`. */
  function Within(ls: seq<Line>, lo: nat, hi: nat): seq<Line>
  {
    if ls == [] then []
    else (if lo <= ls[0].at < hi then [ls[0]] else []) + Within(ls[1..], lo, hi)
  }

  /** The load bound: every chunk holds fewer first occurrences of the whole file than
      `populate_hmap` has probes. */
  predicate LoadOk(env: Env, s: seq<Byte>)
    requires 0 < env.slots
  {
    forall sp | sp in ChunksFrom(env.chunkSize, s, 0) ::
      |Within(First(All(env.conf, s)), sp.lo, sp.hi)| < Budget(env.slots)
  }

  /** The same bound, but for one: every chunk holds at most as many first occurrences as
      `populate_hmap` has probes. */
  predicate LoadFits(env: Env, s: seq<Byte>)
    requires 0 < env.slots
  {
    forall sp | sp in ChunksFrom(env.chunkSize, s, 0) ::
      |Within(First(All(env.conf, s)), sp.lo, sp.hi)| <= Budget(env.slots)
  }

  lemma {:induction false} WithinAppend(a: seq<Line>, b: seq<Line>, lo: nat, hi: nat)
    ensures Within(a + b, lo, hi) == Within(a, lo, hi) + Within(b, lo, hi)
  {
    if a == [] {
      assert a + b == b;
    } else {
      assert (a + b)[1..] == a[1..] + b;
      WithinAppend(a[1..], b, lo, hi);
    }
  }

  lemma {:induction false} WithinAll(ls: seq<Line>, lo: nat, hi: nat)
    requires forall ln | ln in ls :: lo <= ln.at < hi
    ensures Within(ls, lo, hi) == ls
  {
    if ls != [] {
      assert ls[0] in ls && forall ln | ln in ls[1..] :: ln in ls;
      WithinAll(ls[1..], lo, hi);
    }
  }

  lemma {:induction false} WithinNone(ls: seq<Line>, lo: nat, hi: nat)
    requires forall ln | ln in ls :: !(lo <= ln.at < hi)
    ensures Within(ls, lo, hi) == []
  {
    if ls != [] {
      assert ls[0] in ls && forall ln | ln in ls[1..] :: ln in ls;
      WithinNone(ls[1..], lo, hi);
    }
  }

  lemma {:induction false} KeepIn(ls: seq<Line>, seen: set<Text>)
    ensures forall ln | ln in Keep(ls, seen) :: ln in ls
  {
    if ls != [] {
      KeepIn(ls[1..], seen);
      KeepIn(ls[1..], seen + {ls[0].text});
    }
  }

  /** The first line with a text comes no later than any other. */
  lemma {:induction false} FirstComesFirst(ls: seq<Line>, seen: set<Text>, ln: Line) returns (f: Line)
    requires Increasing(ls) && ln in ls && ln.text !in seen
    ensures f in Keep(ls, seen) && f.text == ln.text && f.at <= ln.at
  {
    if ls[0].text == ln.text {
      f := ls[0];
    } else {
      f := FirstComesFirst(ls[1..], if ls[0].text in seen then seen else seen + {ls[0].text}, ln);
    }
  }

  /** After any sound steps, a valid line of the file, there still or not, has its like at the same
      place or before, still there. */
  lemma LikeSurvives(c: Filter, s: seq<Byte>, t: seq<Byte>, log: seq<Text>, ln: Line) returns (f: Line)
    requires Sound(c, s, t, log) && ln in All(c, s)
    ensures f in First(All(c, s)) && f in All(c, s) && f in All(c, t) && f.text == ln.text && f.at <= ln.at
  {
    ParseOrder(c, s, 0, |s|);
    f := FirstComesFirst(All(c, s), {}, ln);
    KeepIn(All(c, s), {});
    KeepIn(All(c, t), {});
  }

  /** Before the phase of the chunk at `p`, the lines before `p` are distinct, and no later line
      repeats one of them. */
  predicate Clean(c: Filter, s: seq<Byte>, p: nat)
    requires p <= |s|
  {
    var a, d := Parse(c, s, 0, p), Parse(c, s, p, |s|);
    First(a) == a && TextSet(d) !! TextSet(a)
  }

  lemma WithinParts(a: seq<Line>, b: seq<Line>, d: seq<Line>, lo: nat, hi: nat)
    requires forall ln | ln in a :: ln.at < lo
    requires forall ln | ln in b :: lo <= ln.at < hi
    requires forall ln | ln in d :: hi <= ln.at
    ensures Within(First(a + b + d), lo, hi) == Keep(b, TextSet(a))
  {
    var b', d' := Keep(b, TextSet(a)), Keep(d, TextSet(a) + TextSet(b));
    PartsKeep(a, b, d);
    KeepIn(a, {});
    KeepIn(b, TextSet(a));
    KeepIn(d, TextSet(a) + TextSet(b));
    WithinAppend(First(a) + b', d', lo, hi);
    WithinAppend(First(a), b', lo, hi);
    WithinNone(First(a), lo, hi);
    WithinAll(b', lo, hi);
    WithinNone(d', lo, hi);
  }

  /** What the chunk `[p, e)` adds to the first occurrences is its own first occurrences. */
  lemma ChunkLoad(c: Filter, s: seq<Byte>, p: nat, e: nat)
    requires p <= e <= |s| && Boundary(s, p) && Boundary(s, e) && Clean(c, s, p)
    ensures Within(First(All(c, s)), p, e) == First(Parse(c, s, p, e))
  {
    var a, b, d := Parse(c, s, 0, p), Parse(c, s, p, e), Parse(c, s, e, |s|);
    ThreeParts(c, s, p, e);
    ParseOrder(c, s, 0, p);
    ParseOrder(c, s, p, e);
    ParseOrder(c, s, e, |s|);
    WithinParts(a, b, d, p, e);
    KeepNew(a, b, d);
  }

  lemma KeepNew(a: seq<Line>, b: seq<Line>, d: seq<Line>)
    requires TextSet(b + d) !! TextSet(a)
    ensures Keep(b, TextSet(a)) == First(b)
  {
    TextSetAppend(b, d);
    KeepIgnores(b, {}, TextSet(a));
    assert {} + TextSet(a) == TextSet(a);
  }

  /** What `populate_hmap` does to a chunk that it gets through: it leaves the first occurrences,
      indexes every one of them, and leaves an empty slot. */
  predicate Filled(env: Env, run: Run, p: nat, e: nat)
    requires p <= e <= |run.data| && 0 < env.slots
  {
    var r, v := AfterFill(env, run, p, e), ViewAfterFill(env, run, p, e);
    var c, s, t := env.conf, run.data, r.data;
    && HasRoom(v) && Keys(v) == TextSet(Parse(c, s, p, e))
    && Parse(c, t, 0, p) == Parse(c, s, 0, p)
    && Parse(c, t, p, e) == First(Parse(c, s, p, e))
    && Parse(c, t, e, |t|) == Parse(c, s, e, |s|)
  }

  /** A chunk within the load bound or at it is deduplicated exactly unless `populate_hmap` takes its
      error exit, which it does not within the bound. */
  lemma FillIsExact(env: Env, run: Run, p: nat, e: nat)
    requires p <= e <= |run.data| && 0 < env.slots && Boundary(run.data, p) && Boundary(run.data, e)
    requires |First(Parse(env.conf, run.data, p, e))| <= Budget(env.slots)
    ensures var r := AfterFill(env, run, p, e);
            Indexed(env.hash, ViewAfterFill(env, run, p, e)) &&
            SameNewlines(run.data, r.data) && Boundary(r.data, p) && Boundary(r.data, e) &&
            (|First(Parse(env.conf, run.data, p, e))| < Budget(env.slots) ==> r.outcome == Completed) &&
            (r.outcome == Completed ==> Filled(env, run, p, e))
  {
    var c, s := env.conf, run.data;
    var ls, st := Parse(c, s, p, e), Fill(Blank(env.slots), {}, [], true);
    KeysOfBlank(env.hash, env.slots);
    ParseOrder(c, s, p, e);
    FillComplete(env.hash, st, ls);
    FillExact(env.hash, st, ls);
    FillTags(env.hash, st, ls);
    var f := FillLines(env.hash, st, ls);
    TagParts(c, s, f.tags, p, e);
    KeepTexts(ls, {});
    assert {} + TextSet(ls) == TextSet(ls) && TextSet(ls) - {} == TextSet(ls);
    if f.ok { RoomLeft(f.view); }
  }

  lemma {:induction false} MinusAppend(a: seq<Line>, b: seq<Line>, keys: set<Text>)
    ensures Minus(a + b, keys) == Minus(a, keys) + Minus(b, keys)
  {
    if a == [] {
      assert a + b == b;
    } else {
      assert (a + b)[1..] == a[1..] + b;
      MinusAppend(a[1..], b, keys);
    }
  }

  /** Tagging the lines of `[p, e)` whose texts are in `keys` leaves exactly the others there, and
      every byte elsewhere. */
  lemma DoomedTag(c: Filter, s: seq<Byte>, keys: set<Text>, p: nat, e: nat)
    requires p <= e <= |s| && Boundary(s, p) && Boundary(s, e)
    ensures var t := Tag(s, Doomed(Parse(c, s, p, e), keys));
            SameNewlines(s, t) && Boundary(t, p) && Boundary(t, e) &&
            (forall k | 0 <= k < p || e <= k < |s| :: t[k] == s[k]) &&
            Parse(c, t, p, e) == Minus(Parse(c, s, p, e), keys)
  {
    var ls := Parse(c, s, p, e);
    ParseOrder(c, s, p, e);
    DoomedRemoved(ls, keys);
    TagsInStart(c, s, Doomed(ls, keys), p, e);
    TagParts(c, s, Doomed(ls, keys), p, e);
  }

  /** With an empty slot in the table, `cleanout_chunk` ends, and leaves exactly the lines of the
      chunk that the table does not hold. */
  lemma SweepIsExact(env: Env, v: View, run: Run, p: nat, e: nat)
    requires p <= e <= |run.data| && Boundary(run.data, p) && Boundary(run.data, e)
    requires Indexed(env.hash, v) && HasRoom(v) && run.outcome == Completed
    ensures var r := AfterSweep(env, v, run, p, e);
            var c, s, t := env.conf, run.data, r.data;
            r.outcome == Completed && t == Tag(s, Doomed(Parse(c, s, p, e), Keys(v))) &&
            SameNewlines(s, t) && Boundary(t, p) && Boundary(t, e) &&
            (forall k | 0 <= k < p || e <= k < |s| :: t[k] == s[k]) &&
            Parse(c, t, p, e) == Minus(Parse(c, s, p, e), Keys(v))
  {
    var ls := Parse(env.conf, run.data, p, e);
    SweepMeans(env.hash, v, Sweep({}, [], true), ls);
    assert {} + Doomed(ls, Keys(v)) == Doomed(ls, Keys(v));
    DoomedTag(env.conf, run.data, Keys(v), p, e);
  }

  /** Sweeping the later chunks one by one leaves exactly their lines that the table does not hold,
      and every byte before them. */
  lemma {:induction false} SubchunksExact(env: Env, v: View, run: Run, p: nat)
    requires p <= |run.data| && Boundary(run.data, p)
    requires Indexed(env.hash, v) && HasRoom(v) && run.outcome == Completed
    ensures var r := Subchunks(env, v, run, p);
            var c, s, t := env.conf, run.data, r.data;
            r.outcome == Completed && SameNewlines(s, t) && (forall k | 0 <= k < p :: t[k] == s[k]) &&
            Parse(c, t, p, |t|) == Minus(Parse(c, s, p, |s|), Keys(v))
    decreases |run.data| - p
  {
    var c, s := env.conf, run.data;
    if p < |s| {
      var e := NextEnd(env.chunkSize, s, p);
      var mid := AfterSweep(env, v, run, p, e);
      SweepIsExact(env, v, run, p, e);
      SubchunksExact(env, v, mid, e);
      var t := Subchunks(env, v, mid, e).data;
      ParseFrame(c, mid.data, t, p, e);
      ParseFrame(c, s, mid.data, e, |s|);
      ParseSplit(c, s, p, e, |s|);
      ParseSplit(c, t, p, e, |t|);
      MinusAppend(Parse(c, s, p, e), Parse(c, s, e, |s|), Keys(v));
    }
  }

  /** One phase within the load bound or at it cleans one chunk more, unless it takes the error exit. */
  lemma PhaseExact(env: Env, run: Run, p: nat)
    requires p < |run.data| && 0 < env.slots && Boundary(run.data, p) && run.outcome == Completed
    requires Clean(env.conf, run.data, p)
    requires |First(Parse(env.conf, run.data, p, NextEnd(env.chunkSize, run.data, p)))| <= Budget(env.slots)
    ensures var r, e := Phase(env, run, p), NextEnd(env.chunkSize, run.data, p);
            r.outcome != RunsForever &&
            (|First(Parse(env.conf, run.data, p, e))| < Budget(env.slots) ==> r.outcome == Completed) &&
            (r.outcome == Completed ==> Clean(env.conf, r.data, e))
  {
    var c, s := env.conf, run.data;
    var e := NextEnd(env.chunkSize, s, p);
    var filled, v := AfterFill(env, run, p, e), ViewAfterFill(env, run, p, e);
    FillIsExact(env, run, p, e);
    if filled.outcome == Completed {
      SubchunksExact(env, v, filled, e);
      SweptClean(env, run, p, e);
    }
  }

  lemma SweptClean(env: Env, run: Run, p: nat, e: nat)
    requires p <= e <= |run.data| && 0 < env.slots && Boundary(run.data, p) && Boundary(run.data, e)
    requires Clean(env.conf, run.data, p) && Filled(env, run, p, e) && AfterFill(env, run, p, e).outcome == Completed
    requires Indexed(env.hash, ViewAfterFill(env, run, p, e)) && Boundary(AfterFill(env, run, p, e).data, e)
    requires Boundary(AfterFill(env, run, p, e).data, p)
    ensures Clean(env.conf, Subchunks(env, ViewAfterFill(env, run, p, e), AfterFill(env, run, p, e), e).data, e)
  {
    var c, s := env.conf, run.data;
    var filled, v := AfterFill(env, run, p, e), ViewAfterFill(env, run, p, e);
    SubchunksExact(env, v, filled, e);
    var t, u := filled.data, Subchunks(env, v, filled, e).data;
    ParseFrame(c, t, u, 0, p);
    ParseFrame(c, t, u, p, e);
    ParseSplit(c, u, 0, p, e);
    ParseSplit(c, s, p, e, |s|);
    CleanParts(Parse(c, s, 0, p), Parse(c, s, p, e), Parse(c, s, e, |s|), Keys(v));
  }

  lemma CleanParts(a: seq<Line>, b: seq<Line>, d: seq<Line>, keys: set<Text>)
    requires First(a) == a && TextSet(b + d) !! TextSet(a) && keys == TextSet(b)
    ensures First(a + First(b)) == a + First(b)
    ensures TextSet(Minus(d, keys)) !! TextSet(a + First(b))
  {
    TextSetAppend(b, d);
    TextSetAppend(a, First(b));
    KeepTexts(b, {});
    MinusTexts(d, keys);
    KeepAppend(a, First(b), {});
    KeepTwice(b, {});
    KeepIgnores(First(b), {}, TextSet(a));
  }

  /** The load bound, for the chunks from `p` on: fewer than `bound` first occurrences each. */
  predicate LoadFrom(env: Env, s: seq<Byte>, firsts: seq<Line>, p: nat, bound: nat)
    requires p <= |s|
  {
    forall sp | sp in ChunksFrom(env.chunkSize, s, p) :: |Within(firsts, sp.lo, sp.hi)| < bound
  }

  /** Within the load bound or at it, a run that completes leaves the first occurrences, a run that
      does not has taken the error exit, and within the bound the run completes. */
  lemma {:induction false} RunIsExact(env: Env, run: Run, p: nat)
    requires p <= |run.data| && 0 < env.slots && Boundary(run.data, p) && run.outcome == Completed
    requires Clean(env.conf, run.data, p)
    requires LoadFrom(env, run.data, First(All(env.conf, run.data)), p, Budget(env.slots) + 1)
    ensures var r := TagFrom(env, run, p);
            r.outcome != RunsForever &&
            (LoadFrom(env, run.data, First(All(env.conf, run.data)), p, Budget(env.slots)) ==>
               r.outcome == Completed) &&
            (r.outcome == Completed ==> All(env.conf, r.data) == First(All(env.conf, run.data)))
    decreases |run.data| - p
  {
    var c, s := env.conf, run.data;
    if p < |s| {
      var e := NextEnd(env.chunkSize, s, p);
      var next := Phase(env, run, p);
      EndIsBoundary(env.chunkSize, s, p);
      ChunkLoad(c, s, p, e);
      assert ChunksFrom(env.chunkSize, s, p)[0] == Span(p, e);
      PhaseExact(env, run, p);
      PhaseSound(env, run, p);
      ChunksStable(env.chunkSize, s, next.data, e);
      assert forall sp | sp in ChunksFrom(env.chunkSize, s, e) :: sp in ChunksFrom(env.chunkSize, s, p);
      if next.outcome == Completed { RunIsExact(env, next, e); }
    }
  }

  /** For every buffer, chunk size, filter and hash function within the load bound: the run of
      `tag_duplicates` completes, and leaves exactly the first occurrences of the valid lines. */
  lemma TaggingIsDeduplication(env: Env, s: seq<Byte>)
    requires 0 < env.slots && LoadOk(env, s)
    ensures var r := TagFrom(env, Started(s), 0);
            r.outcome == Completed && All(env.conf, r.data) == First(All(env.conf, s))
  {
    RunIsExact(env, Started(s), 0);
  }

  /** At the load bound too, under every hash function: a run that completes leaves exactly the first
      occurrences of the valid lines, and the only other end is the error exit. */
  lemma CompletedIsDeduplication(env: Env, s: seq<Byte>)
    requires 0 < env.slots && LoadFits(env, s)
    ensures var r := TagFrom(env, Started(s), 0);
            if r.outcome == Completed then All(env.conf, r.data) == First(All(env.conf, s))
            else r.outcome == ErrorExit
  {
    RunIsExact(env, Started(s), 0);
  }
}
