/** Whole runs above the load bound: files that the program gets wrong without saying so, a file on which
    it never ends, and conditions that rule these out. */
module OverloadRuns {
  import opened Lines
  import opened LineLists
  import opened Index
  import opened Chunks
  import opened Runs
  import opened Soundness
  import opened Exactness
  import opened LoadBound
  import opened Overload
  import opened Sweeps

  // ---------------------------------------------------------------- a file of one chunk

  /** What a run does to a file of one chunk. */
  lemma OneChunkRun(env: Env, s: seq<Byte>)
    requires 0 < |s| <= env.chunkSize && 0 < env.slots
    ensures var r, f := TagFrom(env, Started(s), 0), Populate(env.hash, env.slots, All(env.conf, s));
            (r.outcome == if f.ok then Completed else ErrorExit) &&
            All(env.conf, r.data) == Untagged(All(env.conf, s), f.tags)
  {
    var f := FillFacts(env, s, 0, |s|);
    TagParts(env.conf, s, f.tags, 0, |s|);
    var filled := AfterFill(env, Started(s), 0, |s|);
    assert NextEnd(env.chunkSize, s, 0) == |s|;
    assert Phase(env, Started(s), 0).data == filled.data;
  }

  /** A completed run leaves exactly the first occurrences. */
  predicate RightIfCompleted(env: Env, s: seq<Byte>)
    requires 0 < env.slots
  {
    TagFrom(env, Started(s), 0).outcome == Completed ==> Deduplicates(env, s)
  }

  /** A run on a file of one chunk that completes is right, under every hash function, if and only if no
      line that comes after as many distinct others as there are probes comes again. */
  lemma OneChunkIff(env: Env, s: seq<Byte>)
    requires 0 < |s| <= env.chunkSize && 0 < env.slots
    ensures env.slots == 2 || LateOnce(All(env.conf, s), {}, Budget(env.slots)) <==>
            forall hash: Hash :: RightIfCompleted(env.(hash := hash), s)
  {
    var n, ls := env.slots, All(env.conf, s);
    ParseOrder(env.conf, s, 0, |s|);
    forall hash: Hash ensures RightIfCompleted(env.(hash := hash), s) <==> Exact(hash, n, ls) {
      OneChunkRun(env.(hash := hash), s);
    }
    ExactIff(n, ls);
    if hash: Hash :| !Exact(hash, n, ls) {
      assert !RightIfCompleted(env.(hash := hash), s);
    }
  }

  // ---------------------------------------------------------------- two files

  /** A line of one printable byte. */
  lemma TinyLine(c: Filter, s: seq<Byte>, i: nat, e: nat)
    requires 1 <= c.lineMax && i + 2 <= e <= |s| && IsPrint(s[i]) && s[i + 1] == LF
    ensures Parse(c, s, i, e) == [Line(i, [s[i]])] + Parse(c, s, i + 2, e)
  {
    NewlineIs(s, i, e, i + 1);
    assert Cut(s, i, i + 1) == [s[i]];
  }

  lemma KeepHead(ln: Line, rest: seq<Line>, seen: set<Text>)
    requires ln.text !in seen
    ensures Keep([ln] + rest, seen) == [ln] + Keep(rest, seen + {ln.text})
  {
    assert ([ln] + rest)[1..] == rest;
  }

  predicate Distinct3(a: Line, b: Line, d: Line) { a.text != b.text && b.text != d.text && a.text != d.text }

  lemma InFront<T>(a: T, b: T, d: T, rest: seq<T>)
    ensures [a] + ([b] + ([d] + rest)) == [a, b, d] + rest
  { }

  /** Three different lines come first. */
  lemma FirstThree(a: Line, b: Line, d: Line, rest: seq<Line>)
    requires Distinct3(a, b, d)
    ensures var ks := First([a, b, d] + rest); 3 <= |ks| && ks[0] == a && ks[1] == b && ks[2] == d
  {
    var after := [d] + rest;
    KeepHead(a, [b] + after, {});
    KeepHead(b, after, {} + {a.text});
    KeepHead(d, rest, {} + {a.text} + {b.text});
    InFront(a, b, d, rest);
    InFront(a, b, d, Keep(rest, {} + {a.text} + {b.text} + {d.text}));
  }

  lemma ThreeLeading(a: Line, b: Line, d: Line, rest: seq<Line>, m: nat)
    requires Distinct3(a, b, d) && m <= 3
    ensures m <= |First([a, b, d] + rest)| && Leading([a, b, d] + rest, m) == [a.text, b.text, d.text][..m]
  {
    FirstThree(a, b, d, rest);
  }

  /** Three letters on three lines. */
  lemma ThreeLines(c: Filter, s: seq<Byte>, e: nat)
    requires 1 <= c.lineMax && 6 <= e <= |s| && s[0] == 97 && s[2] == 98 && s[4] == 99 && s[1] == s[3] == s[5] == LF
    ensures Parse(c, s, 0, e) == [Line(0, [97]), Line(2, [98]), Line(4, [99])] + Parse(c, s, 6, e)
  {
    TinyLine(c, s, 0, e);
    TinyLine(c, s, 2, e);
    TinyLine(c, s, 4, e);
    InFront(Line(0, [97]), Line(2, [98]), Line(4, [99]), Parse(c, s, 6, e));
  }

  /** The lines a, b, c and c. */
  const Abcc: seq<Byte> := [97, LF, 98, LF, 99, LF, 99, LF]

  lemma AbccLines(c: Filter)
    requires 1 <= c.lineMax
    ensures All(c, Abcc) == [Line(0, [97]), Line(2, [98]), Line(4, [99])] + [Line(6, [99])]
    ensures Increasing(All(c, Abcc))
  {
    var s := Abcc;
    ThreeLines(c, s, 8);
    TinyLine(c, s, 6, 8);
    assert Parse(c, s, 6, 8) == [Line(6, [99])];
    ParseOrder(c, s, 0, 8);
  }

  /** With two probes, spreading `a` and `b` leaves two equal lines `d` and `d'` alone. */
  lemma TwoStay(a: Line, b: Line, d: Line, d': Line)
    requires Distinct3(a, b, d) && d'.text == d.text && d.at != d'.at
    requires Increasing([a, b, d] + [d'])
    ensures var ls, hash := [a, b, d] + [d'], Spread([a.text, b.text]);
            var f := Populate(hash, 3, ls);
            f.ok && d.text in TextSet(ls) && d.text !in Keys(f.view) && Untagged(ls, f.tags) != First(ls)
  {
    var ls, ts := [a, b, d] + [d'], [a.text, b.text];
    ThreeLeading(a, b, d, [d'], 2);
    assert [a.text, b.text, d.text][..2] == ts;
    SpreadLeading(3, ls, 2);
    SpreadKeys(Populate(Spread(ts), 3, ls).view, ts, 2, d.text);
    assert ls[2] == d && ls[3] == d';
    TextSetHas(ls, d);
    TwiceStays(ls, Populate(Spread(ts), 3, ls).tags, d, d');
  }

  /** In a table of three slots, with two probes, a hash that spreads a and b leaves no way to c: the run
      completes, the table has never held c, and both lines c stay. */
  lemma WrongInSilence(c: Filter, chunkSize: nat)
    requires 1 <= c.lineMax && 8 <= chunkSize
    ensures var env := Env(c, Spread([[97], [98]]), chunkSize, 3);
            var f, r := Populate(env.hash, 3, All(c, Abcc)), TagFrom(env, Started(Abcc), 0);
            f.ok && [99] in TextSet(All(c, Abcc)) && [99] !in Keys(f.view) &&
            r.outcome == Completed && !Deduplicates(env, Abcc)
  {
    AbccLines(c);
    TwoStay(Line(0, [97]), Line(2, [98]), Line(4, [99]), Line(6, [99]));
    OneChunkRun(Env(c, Spread([[97], [98]]), chunkSize, 3), Abcc);
  }

  /** The lines a, b, c and d. */
  const Abcd: seq<Byte> := [97, LF, 98, LF, 99, LF, 100, LF]

  /** The chunk that ends at `e` has filled the table, and a line after it is none of its own: the run
      never ends. */
  lemma FullNeverEnds(env: Env, s: seq<Byte>, ts: seq<Text>, ln: Line)
    requires 0 < |s| && 0 < env.slots == |ts| && env.hash == Spread(ts) && ln.text !in ts
    requires var e := NextEnd(env.chunkSize, s, 0);
             var f := Populate(env.hash, env.slots, Parse(env.conf, s, 0, e));
             f.ok && Spreads(f.view, ts, |ts|) && ln in Parse(env.conf, s, e, |s|)
    ensures TagFrom(env, Started(s), 0).outcome == RunsForever
  {
    var c, e := env.conf, NextEnd(env.chunkSize, s, 0);
    EndIsBoundary(env.chunkSize, s, 0);
    var f := FillFacts(env, s, 0, e);
    TagParts(c, s, f.tags, 0, e);
    FullIsEndless(f.view, ts, ln);
    SubchunksMeans(env, f.view, AfterFill(env, Started(s), 0, e), e);
    assert Phase(env, Started(s), 0).outcome == RunsForever;
  }

  lemma FullIsEndless(v: View, ts: seq<Text>, ln: Line)
    requires Spreads(v, ts, |ts|) && 0 < |v| == |ts| && ln.text !in ts
    ensures Endless(Spread(ts), v, ln)
  {
    SpentFrom(v, ln.text, 0, |v|);
  }

  lemma AbcdLines(c: Filter)
    requires 1 <= c.lineMax
    ensures NextEnd(5, Abcd, 0) == 6 && Increasing(Parse(c, Abcd, 0, 6))
    ensures Parse(c, Abcd, 0, 6) == [Line(0, [97]), Line(2, [98]), Line(4, [99])] + []
    ensures Line(6, [100]) in Parse(c, Abcd, 6, 8)
  {
    var s := Abcd;
    NewlineIs(s, 5, 8, 5);
    ThreeLines(c, s, 6);
    ParseOrder(c, s, 0, 6);
    TinyLine(c, s, 6, 8);
  }

  lemma ThreeFill(a: Line, b: Line, d: Line)
    requires Distinct3(a, b, d) && Increasing([a, b, d] + [])
    ensures var ts, f := [a.text, b.text, d.text], Populate(Spread([a.text, b.text, d.text]), 3, [a, b, d] + []);
            f.ok && Spreads(f.view, ts, 3)
  {
    ThreeLeading(a, b, d, [], 3);
    assert [a.text, b.text, d.text][..3] == [a.text, b.text, d.text];
    SpreadLeading(3, [a, b, d] + [], 3);
  }

  /** In a table of three slots, a hash that spreads a, b and c fills it, and the look-up of d in the next
      chunk never ends. */
  lemma NeverEnds(c: Filter)
    requires 1 <= c.lineMax
    ensures TagFrom(Env(c, Spread([[97], [98], [99]]), 5, 3), Started(Abcd), 0).outcome == RunsForever
  {
    AbcdLines(c);
    ThreeFill(Line(0, [97]), Line(2, [98]), Line(4, [99]));
    FullNeverEnds(Env(c, Spread([[97], [98], [99]]), 5, 3), Abcd, [[97], [98], [99]], Line(6, [100]));
  }

  // ---------------------------------------------------------------- files on which every run ends

  /** `t` is `s` with some lines tagged. */
  predicate Tagged(s: seq<Byte>, t: seq<Byte>)
  {
    |t| == |s| && forall k | 0 <= k < |s| && t[k] != s[k] :: t[k] == DISABLED && Starts(s, {k})
  }

  lemma TaggedThen(s: seq<Byte>, t: seq<Byte>, u: seq<Byte>)
    requires Tagged(s, t) && Tagged(t, u)
    ensures Tagged(s, u)
  {
    forall k | 0 <= k < |s| && u[k] != s[k] ensures u[k] == DISABLED && Starts(s, {k}) {
      if u[k] != t[k] {
        assert k in {k};
        assert t[k] != s[k] || (s[k] != LF && (k == 0 || s[k - 1] == LF));
      }
    }
  }

  lemma TagIsTagged(s: seq<Byte>, tags: set<nat>)
    requires Starts(s, tags)
    ensures Tagged(s, Tag(s, tags))
  { }

  /** Tagging adds no text to a chunk. */
  lemma TaggedTexts(c: Filter, s: seq<Byte>, t: seq<Byte>, p: nat, e: nat)
    requires Tagged(s, t) && p <= e <= |s| && Boundary(s, p)
    ensures TextSet(Parse(c, t, p, e)) <= TextSet(Parse(c, s, p, e))
  {
    var tags := set k: nat | k < |s| && t[k] != s[k];
    assert forall a | a in tags :: Starts(s, {a}) && a in {a};
    assert Starts(s, tags) && t == Tag(s, tags);
    TaggingDeletes(c, s, tags, p, e);
    UntaggedTexts(Parse(c, s, p, e), tags);
  }

  lemma {:induction false} UntaggedTexts(ls: seq<Line>, tags: set<nat>)
    ensures TextSet(Untagged(ls, tags)) <= TextSet(ls)
  {
    if ls != [] {
      UntaggedTexts(ls[1..], tags);
      UntaggedFirst(ls, tags);
      if ls[0].at !in tags { assert ([ls[0]] + Untagged(ls[1..], tags))[1..] == Untagged(ls[1..], tags); }
    }
  }

  /** Every chunk from `p` on has fewer distinct lines than the table has slots. */
  predicate RoomFrom(env: Env, s: seq<Byte>, p: nat)
    requires p <= |s|
  {
    forall sp | sp in ChunksFrom(env.chunkSize, s, p) :: RoomIn(env, s, sp)
  }

  predicate RoomIn(env: Env, s: seq<Byte>, sp: Span)
  {
    sp.lo <= sp.hi <= |s| && |TextSet(Parse(env.conf, s, sp.lo, sp.hi))| < env.slots
  }

  lemma RoomStays(env: Env, s: seq<Byte>, t: seq<Byte>, p: nat)
    requires p <= |s| && Tagged(s, t) && RoomFrom(env, s, p) && Boundary(s, p)
    ensures RoomFrom(env, t, p)
  {
    TaggedNewlines(s, t);
    ChunksStable(env.chunkSize, s, t, p);
    ChunksAtBoundaries(env.chunkSize, s, p);
    forall sp | sp in ChunksFrom(env.chunkSize, t, p) ensures RoomIn(env, t, sp) {
      assert RoomIn(env, s, sp);
      TaggedTexts(env.conf, s, t, sp.lo, sp.hi);
      Subset(TextSet(Parse(env.conf, t, sp.lo, sp.hi)), TextSet(Parse(env.conf, s, sp.lo, sp.hi)));
    }
  }

  lemma TaggedNewlines(s: seq<Byte>, t: seq<Byte>)
    requires Tagged(s, t)
    ensures SameNewlines(s, t)
  {
    assert forall k: nat :: k in {k};
  }

  lemma FillTagged(env: Env, run: Run, p: nat, e: nat)
    requires p <= e <= |run.data| && 0 < env.slots && Boundary(run.data, p)
    ensures Tagged(run.data, AfterFill(env, run, p, e).data)
  {
    var f := FillFacts(env, run.data, p, e);
    TagsInStart(env.conf, run.data, f.tags, p, e);
    TagIsTagged(run.data, f.tags);
  }

  lemma SweepTagged(env: Env, v: View, run: Run, p: nat, e: nat)
    requires p <= e <= |run.data| && Boundary(run.data, p) && 0 < |v|
    ensures Tagged(run.data, AfterSweep(env, v, run, p, e).data)
  {
    var ls := Parse(env.conf, run.data, p, e);
    var w := SweepLines(env.hash, v, Sweep({}, [], true), ls);
    SweepTags(env.hash, v, Sweep({}, [], true), ls);
    TagsInStart(env.conf, run.data, w.tags, p, e);
    TagIsTagged(run.data, w.tags);
  }

  /** With an empty slot in the table, sweeping the later chunks ends, and tags lines only. */
  lemma {:induction false} RoomySubchunks(env: Env, v: View, run: Run, p: nat)
    requires p <= |run.data| && Boundary(run.data, p) && Indexed(env.hash, v) && HasRoom(v)
    requires run.outcome == Completed
    ensures var r := Subchunks(env, v, run, p); r.outcome == Completed && Tagged(run.data, r.data)
    decreases |run.data| - p
  {
    if p < |run.data| {
      var e := NextEnd(env.chunkSize, run.data, p);
      var mid := AfterSweep(env, v, run, p, e);
      SweepIsExact(env, v, run, p, e);
      SweepTagged(env, v, run, p, e);
      RoomySubchunks(env, v, mid, e);
      TaggedThen(run.data, mid.data, Subchunks(env, v, mid, e).data);
    }
  }

  lemma RoomyPhase(env: Env, run: Run, p: nat)
    requires p < |run.data| && 0 < env.slots && Boundary(run.data, p) && run.outcome == Completed
    requires RoomFrom(env, run.data, p)
    ensures var r := Phase(env, run, p); r.outcome != RunsForever && Tagged(run.data, r.data)
  {
    var s := run.data;
    var e := NextEnd(env.chunkSize, s, p);
    var filled, ls := AfterFill(env, run, p, e), Parse(env.conf, s, p, e);
    EndIsBoundary(env.chunkSize, s, p);
    assert ChunksFrom(env.chunkSize, s, p)[0] == Span(p, e);
    assert RoomIn(env, s, Span(p, e));
    FillTagged(env, run, p, e);
    FillIndexed(env, s, p, e);
    if filled.outcome == Completed {
      TaggedNewlines(s, filled.data);
      RoomySubchunks(env, ViewAfterFill(env, run, p, e), filled, e);
      TaggedThen(s, filled.data, Subchunks(env, ViewAfterFill(env, run, p, e), filled, e).data);
    }
  }

  lemma FillIndexed(env: Env, s: seq<Byte>, p: nat, e: nat)
    requires p <= e <= |s| && 0 < env.slots && Boundary(s, p) && RoomIn(env, s, Span(p, e))
    ensures var v := Populate(env.hash, env.slots, Parse(env.conf, s, p, e)).view; Indexed(env.hash, v) && HasRoom(v)
  {
    var ls := Parse(env.conf, s, p, e);
    ParseOrder(env.conf, s, p, e);
    KeysWithin(env.hash, env.slots, ls);
    var v := Populate(env.hash, env.slots, ls).view;
    Subset(Keys(v), TextSet(ls));
    RoomLeft(v);
  }

  lemma {:induction false} RoomyRun(env: Env, run: Run, p: nat)
    requires p <= |run.data| && 0 < env.slots && Boundary(run.data, p) && run.outcome == Completed
    requires RoomFrom(env, run.data, p)
    ensures TagFrom(env, run, p).outcome != RunsForever
    decreases |run.data| - p
  {
    if p < |run.data| {
      var e, next := NextEnd(env.chunkSize, run.data, p), Phase(env, run, p);
      EndIsBoundary(env.chunkSize, run.data, p);
      RoomyPhase(env, run, p);
      TaggedNewlines(run.data, next.data);
      assert forall sp | sp in ChunksFrom(env.chunkSize, run.data, e) :: sp in ChunksFrom(env.chunkSize, run.data, p);
      RoomStays(env, run.data, next.data, e);
      if next.outcome == Completed { RoomyRun(env, next, e); }
    }
  }

  /** Under every hash function the run ends, if every chunk has fewer distinct lines than the table has
      slots. */
  lemma EveryRunEnds(env: Env, s: seq<Byte>)
    requires 0 < env.slots && RoomFrom(env, s, 0)
    ensures TagFrom(env, Started(s), 0).outcome != RunsForever
  {
    RoomyRun(env, Started(s), 0);
  }
}
