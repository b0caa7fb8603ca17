/** The load bound is exact: it is what makes the program right for every hash function. */
module LoadBound {
  import opened Lines
  import opened LineLists
  import opened Index
  import opened Chunks
  import opened Runs
  import opened Soundness
  import opened Exactness

  /** The run completes and leaves exactly the first occurrences. */
  predicate Deduplicates(env: Env, s: seq<Byte>)
    requires 0 < env.slots
  {
    var r := TagFrom(env, Started(s), 0);
    r.outcome == Completed && All(env.conf, r.data) == First(All(env.conf, s))
  }

  /** Every text hashes to the same slot. */
  const Collide: Hash := x => 0

  /** A table that holds its texts in its first slots. */
  predicate Packed(v: View, m: nat)
  {
    m <= |v| && forall k | 0 <= k < |v| :: v[k].Some? <==> k < m
  }

  lemma {:induction false} PackedProbe(v: View, m: nat, x: Text, i: nat, budget: nat)
    requires Packed(v, m) && i <= m < budget <= |v| && 0 < |v|
    requires forall j | 0 <= j < i :: v[j].value != x
    ensures var f := Probe(v, x, 0, i, budget);
            if x in Keys(v) then f.Match? && f.i < m else f == Free(m)
    decreases m - i
  {
    assert At(0, i, |v|) == i;
    if i < m {
      if v[i].value == x {
        assert x in Keys(v);
      } else {
        PackedProbe(v, m, x, i + 1, budget);
      }
    } else {
      assert x !in Keys(v);
    }
  }

  /** When all texts collide, a new text goes to the first empty slot. */
  lemma PackedLine(st: Fill, m: nat, ln: Line)
    requires 0 < |st.view| && Packed(st.view, m) && m < Budget(|st.view|)
    ensures var r := FillLine(Collide, st, ln);
            if ln.text in Keys(st.view) then r.view == st.view && r.ok
            else
              Packed(r.view, m + 1) && Keys(r.view) == Keys(st.view) + {ln.text} &&
              (r.ok <==> m + 1 != Budget(|st.view|))
  {
    var v := st.view;
    assert Home(Collide, ln.text, |v|) == 0;
    PackedProbe(v, m, ln.text, 0, Budget(|v|));
    assert At(0, m, |v|) == m;
    KeysOfInsert(v, m, ln.text);
  }

  /** When all texts collide, a chunk at or above the load bound takes the error exit. */
  lemma {:induction false} CollisionsExit(st: Fill, m: nat, ls: seq<Line>)
    requires 0 < |st.view| && Packed(st.view, m) && st.ok && m < Budget(|st.view|)
    requires Budget(|st.view|) <= m + |Keep(ls, Keys(st.view))|
    ensures !FillLines(Collide, st, ls).ok
    decreases |ls|
  {
    var st' := FillLine(Collide, st, ls[0]);
    PackedLine(st, m, ls[0]);
    if ls[0].text in Keys(st.view) {
      CollisionsExit(st', m, ls[1..]);
    } else if st'.ok {
      CollisionsExit(st', m + 1, ls[1..]);
    }
  }

  /** When all texts collide, a table of `n` slots gets through a chunk if and only if the chunk has fewer
      distinct lines than seven tenths of `n`, rounded down. */
  lemma CollisionsExactly(n: nat, ls: seq<Line>)
    requires 2 <= n
    ensures Populate(Collide, n, ls).ok <==> 10 * (|First(ls)| + 1) <= 7 * n
  {
    KeysOfBlank(Collide, n);
    if Budget(n) <= |First(ls)| {
      CollisionsExit(Fill(Blank(n), {}, [], true), 0, ls);
    } else {
      FillComplete(Collide, Fill(Blank(n), {}, [], true), ls);
    }
  }

  /** The load bound in numbers: one more first occurrence in a chunk would still be at most seven tenths
      of the slots. */
  lemma LoadInNumbers(env: Env, s: seq<Byte>)
    requires 0 < env.slots
    ensures LoadOk(env, s) <==>
            forall sp | sp in ChunksFrom(env.chunkSize, s, 0) ::
              10 * (|Within(First(All(env.conf, s)), sp.lo, sp.hi)| + 1) <= 7 * env.slots
  { }

  /** A chunk below the load bound leaves the overload to the chunks after it. */
  lemma OverloadNext(env: Env, run: Run, p: nat)
    requires p < |run.data| && 0 < env.slots && Boundary(run.data, p) && run.outcome == Completed
    requires Clean(env.conf, run.data, p)
    requires !LoadFrom(env, run.data, First(All(env.conf, run.data)), p, Budget(env.slots))
    requires |First(Parse(env.conf, run.data, p, NextEnd(env.chunkSize, run.data, p)))| < Budget(env.slots)
    ensures var next, e := Phase(env, run, p), NextEnd(env.chunkSize, run.data, p);
            next.outcome == Completed && Boundary(next.data, e) && Clean(env.conf, next.data, e) &&
            !LoadFrom(env, next.data, First(All(env.conf, next.data)), e, Budget(env.slots))
  {
    var next, e := Phase(env, run, p), NextEnd(env.chunkSize, run.data, p);
    EndIsBoundary(env.chunkSize, run.data, p);
    ChunkLoad(env.conf, run.data, p, e);
    PhaseExact(env, run, p);
    PhaseSound(env, run, p);
    LoadLater(env, run.data, next.data, p);
  }

  /** When all texts collide, the first chunk at or above the load bound ends the run. */
  lemma {:induction false} OverloadExits(env: Env, run: Run, p: nat)
    requires p <= |run.data| && 2 <= env.slots && Boundary(run.data, p) && run.outcome == Completed
    requires env.hash == Collide && Clean(env.conf, run.data, p)
    requires !LoadFrom(env, run.data, First(All(env.conf, run.data)), p, Budget(env.slots))
    ensures TagFrom(env, run, p).outcome != Completed
    decreases |run.data| - p
  {
    var e := NextEnd(env.chunkSize, run.data, p);
    if |First(Parse(env.conf, run.data, p, e))| < Budget(env.slots) {
      OverloadNext(env, run, p);
      OverloadExits(env, Phase(env, run, p), e);
    } else {
      PhaseExits(env, run, p);
    }
  }

  lemma PhaseExits(env: Env, run: Run, p: nat)
    requires p < |run.data| && 2 <= env.slots && env.hash == Collide
    requires Budget(env.slots) <= |First(Parse(env.conf, run.data, p, NextEnd(env.chunkSize, run.data, p)))|
    ensures Phase(env, run, p).outcome == ErrorExit
  {
    KeysOfBlank(env.hash, env.slots);
    CollisionsExit(Fill(Blank(env.slots), {}, [], true), 0,
                   Parse(env.conf, run.data, p, NextEnd(env.chunkSize, run.data, p)));
  }

  lemma LoadLater(env: Env, s: seq<Byte>, t: seq<Byte>, p: nat)
    requires p < |s| && 0 < env.slots && SameNewlines(s, t)
    requires First(All(env.conf, s)) == First(All(env.conf, t))
    requires !LoadFrom(env, s, First(All(env.conf, s)), p, Budget(env.slots))
    requires |Within(First(All(env.conf, s)), p, NextEnd(env.chunkSize, s, p))| < Budget(env.slots)
    ensures !LoadFrom(env, t, First(All(env.conf, t)), NextEnd(env.chunkSize, s, p), Budget(env.slots))
  {
    var e := NextEnd(env.chunkSize, s, p);
    ChunksStable(env.chunkSize, s, t, e);
    var sp :| sp in ChunksFrom(env.chunkSize, s, p) &&
              !(|Within(First(All(env.conf, s)), sp.lo, sp.hi)| < Budget(env.slots));
    assert sp in ChunksFrom(env.chunkSize, s, e);
  }

  lemma {:induction false} OneSlotFill(hash: Hash, ls: seq<Line>)
    ensures Populate(hash, 1, ls) == Fill(Blank(1), {}, [], true)
  {
    if ls != [] {
      assert FillLine(hash, Fill(Blank(1), {}, [], true), ls[0]) == Fill(Blank(1), {}, [], true);
      OneSlotFill(hash, ls[1..]);
    }
  }

  lemma {:induction false} BlankSweep(hash: Hash, n: nat, ls: seq<Line>)
    requires 0 < n
    ensures SweepLines(hash, Blank(n), Sweep({}, [], true), ls) == Sweep({}, [], true)
  {
    if ls != [] {
      assert SweepLine(hash, Blank(n), Sweep({}, [], true), ls[0]) == Sweep({}, [], true);
      BlankSweep(hash, n, ls[1..]);
    }
  }

  lemma {:induction false} BlankSubchunks(env: Env, n: nat, run: Run, p: nat)
    requires p <= |run.data| && 0 < n && run.outcome == Completed
    ensures var r := Subchunks(env, Blank(n), run, p); r.data == run.data && r.outcome == Completed
    decreases |run.data| - p
  {
    if p < |run.data| {
      var e := NextEnd(env.chunkSize, run.data, p);
      BlankSweep(env.hash, n, Parse(env.conf, run.data, p, e));
      assert Tag(run.data, {}) == run.data;
      BlankSubchunks(env, n, AfterSweep(env, Blank(n), run, p, e), e);
    }
  }

  /** A table of one slot has no probes: nothing is ever indexed, and nothing is tagged. */
  lemma {:induction false} OneSlotRun(env: Env, run: Run, p: nat)
    requires p <= |run.data| && env.slots == 1 && run.outcome == Completed
    ensures var r := TagFrom(env, run, p); r.data == run.data && r.outcome == Completed
    decreases |run.data| - p
  {
    if p < |run.data| {
      var e := NextEnd(env.chunkSize, run.data, p);
      OneSlotFill(env.hash, Parse(env.conf, run.data, p, e));
      assert Tag(run.data, {}) == run.data;
      BlankSubchunks(env, 1, AfterFill(env, run, p, e), e);
      OneSlotRun(env, Phase(env, run, p), e);
    }
  }

  /** What makes the program right for a file under every hash function: the load bound, or, for
      a table of one slot, that no line repeats another. */
  predicate Right(env: Env, s: seq<Byte>)
    requires 0 < env.slots
  {
    if env.slots == 1 then First(All(env.conf, s)) == All(env.conf, s) else LoadOk(env, s)
  }

  /** The program deduplicates a file correctly under every hash function if and only if the file is
      within the load bound; a table of one slot is right only if there is nothing to do. */
  lemma LoadBoundIsExact(env: Env, s: seq<Byte>)
    requires 0 < env.slots
    ensures Right(env, s) <==> forall hash: Hash :: Deduplicates(env.(hash := hash), s)
  {
    if env.slots == 1 {
      forall hash: Hash ensures Deduplicates(env.(hash := hash), s) <==> Right(env, s) {
        OneSlotRun(env.(hash := hash), Started(s), 0);
      }
      assert Deduplicates(env.(hash := Collide), s) <==> Right(env, s);
    } else if LoadOk(env, s) {
      forall hash: Hash ensures Deduplicates(env.(hash := hash), s) {
        TaggingIsDeduplication(env.(hash := hash), s);
      }
    } else {
      OverloadExits(env.(hash := Collide), Started(s), 0);
      assert !Deduplicates(env.(hash := Collide), s);
    }
  }

  // ---------------------------------------------------------------- a condition on sizes

  /** A line and the newline before the next one take two bytes at least. */
  lemma {:induction false} LinesTakeBytes(c: Filter, s: seq<Byte>, i: nat, e: nat)
    requires i <= e <= |s|
    ensures 2 * |Parse(c, s, i, e)| <= e - i + 1
    decreases e - i
  {
    if i < e {
      var head, m := Head(c, s, i, e), Next(s, i, e);
      LinesTakeBytes(c, s, m, e);
      if m == e { assert Parse(c, s, m, e) == []; }
      if m < e && head != [] { assert s[i] != LF; }
    }
  }

  lemma {:induction false} KeepIsShorter(ls: seq<Line>, seen: set<Text>)
    ensures |Keep(ls, seen)| <= |ls|
  {
    if ls != [] { KeepIsShorter(ls[1..], if ls[0].text in seen then seen else seen + {ls[0].text}); }
  }

  /** The first occurrences in a chunk are at most half its bytes. */
  lemma ChunkLoadBytes(c: Filter, s: seq<Byte>, p: nat, e: nat)
    requires p <= e <= |s| && Boundary(s, p) && Boundary(s, e)
    ensures 2 * |Within(First(All(c, s)), p, e)| <= e - p + 1
  {
    ThreeParts(c, s, p, e);
    ParseOrder(c, s, 0, p);
    ParseOrder(c, s, p, e);
    ParseOrder(c, s, e, |s|);
    var a, b, d := Parse(c, s, 0, p), Parse(c, s, p, e), Parse(c, s, e, |s|);
    WithinParts(a, b, d, p, e);
    KeepIsShorter(b, TextSet(a));
    LinesTakeBytes(c, s, p, e);
  }

  lemma {:induction false} ChunksAtBoundaries(chunkSize: nat, s: seq<Byte>, p: nat)
    requires p <= |s| && Boundary(s, p)
    ensures forall sp | sp in ChunksFrom(chunkSize, s, p) :: sp.lo <= sp.hi && Boundary(s, sp.lo) && Boundary(s, sp.hi)
    decreases |s| - p
  {
    if p < |s| { ChunksAtBoundaries(chunkSize, s, NextEnd(chunkSize, s, p)); }
  }

  /** Whatever the lines, a table with more probes than half the bytes of every chunk is large enough. */
  lemma SmallChunksFit(env: Env, s: seq<Byte>)
    requires 0 < env.slots
    requires forall sp | sp in ChunksFrom(env.chunkSize, s, 0) :: sp.hi - sp.lo + 1 < 2 * Budget(env.slots)
    ensures LoadOk(env, s)
  {
    ChunksAtBoundaries(env.chunkSize, s, 0);
    forall sp | sp in ChunksFrom(env.chunkSize, s, 0)
      ensures |Within(First(All(env.conf, s)), sp.lo, sp.hi)| < Budget(env.slots)
    {
      ChunkLoadBytes(env.conf, s, sp.lo, sp.hi);
    }
  }
}
