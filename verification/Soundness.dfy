/** What a run keeps true whatever the load of the table, and however the run ends: the first
    occurrence of every valid line survives, and no line is lost from the books. */
module Soundness {
  import opened Lines
  import opened LineLists
  import opened Index
  import opened Chunks
  import opened Runs

  /** The valid lines of the whole file. */
  function All(c: Filter, s: seq<Byte>): seq<Line> { Parse(c, s, 0, |s|) }

  // ---------------------------------------------------------------- books

  /** The texts of the lines of `ls` that start in `tags`. */
  function Removed(ls: seq<Line>, tags: set<nat>): seq<Text>
  {
    if ls == [] then []
    else (if ls[0].at in tags then [ls[0].text] else []) + Removed(ls[1..], tags)
  }

  /** No line is lost: each is either still there or removed. */
  lemma {:induction false} RemovedBalance(ls: seq<Line>, tags: set<nat>)
    ensures multiset(Texts(Untagged(ls, tags))) + multiset(Removed(ls, tags)) == multiset(Texts(ls))
    ensures |Untagged(ls, tags)| + |Removed(ls, tags)| == |ls|
  {
    if ls != [] {
      RemovedBalance(ls[1..], tags);
      RemovedFirst(ls, tags);
      UntaggedFirst(ls, tags);
      if ls[0].at in tags {
        CountFirst(ls[0].text, Removed(ls[1..], tags));
      } else {
        TextsFirst(ls[0], Untagged(ls[1..], tags));
        CountFirst(ls[0].text, Texts(Untagged(ls[1..], tags)));
      }
      CountFirst(ls[0].text, Texts(ls[1..]));
    }
  }

  lemma TextsFirst(ln: Line, ls: seq<Line>)
    ensures Texts([ln] + ls) == [ln.text] + Texts(ls)
  {
    assert ([ln] + ls)[1..] == ls;
  }

  lemma CountFirst(t: Text, ts: seq<Text>)
    ensures multiset([t] + ts) == multiset{t} + multiset(ts)
  { }

  lemma RemovedFirst(ls: seq<Line>, tags: set<nat>)
    requires ls != []
    ensures var rest := Removed(ls[1..], tags);
            Removed(ls, tags) == if ls[0].at in tags then [ls[0].text] + rest else rest
  { }

  lemma {:induction false} RemovedNone(ls: seq<Line>, tags: set<nat>)
    requires forall ln | ln in ls :: ln.at !in tags
    ensures Removed(ls, tags) == []
  {
    if ls != [] {
      assert ls[0] in ls && forall ln | ln in ls[1..] :: ln in ls;
      RemovedNone(ls[1..], tags);
    }
  }

  /** What one line logs is what it tags. */
  lemma FillLineLogs(hash: Hash, st: Fill, ln: Line)
    requires 0 < |st.view| && ln.at !in st.tags
    ensures var r := FillLine(hash, st, ln);
            if ln.at in r.tags then r.tags == st.tags + {ln.at} && r.log == st.log + [ln.text]
            else r.tags == st.tags && r.log == st.log
  { }

  /** `populate_hmap` logs exactly the lines that it tags, in order. */
  lemma {:induction false} FillLogs(hash: Hash, st: Fill, ls: seq<Line>)
    requires 0 < |st.view| && Increasing(ls) && forall ln | ln in ls :: ln.at !in st.tags
    ensures var r := FillLines(hash, st, ls); r.log == st.log + Removed(ls, r.tags)
    decreases |ls|
  {
    if ls != [] {
      if st.ok {
        var st' := FillLine(hash, st, ls[0]);
        var tags := FillLines(hash, st', ls[1..]).tags;
        assert forall l | l in ls[1..] :: l in ls;
        FillLineLogs(hash, st, ls[0]);
        FillTags(hash, st', ls[1..]);
        FillLogs(hash, st', ls[1..]);
        RemovedFirst(ls, tags);
        assert ls[0].at in tags <==> ls[0].at in st'.tags;
      } else {
        RemovedNone(ls, st.tags);
      }
    }
  }

  lemma {:induction false} SweepTags(hash: Hash, v: View, st: Sweep, ls: seq<Line>)
    requires 0 < |v|
    ensures st.tags <= SweepLines(hash, v, st, ls).tags
    ensures forall a | a in SweepLines(hash, v, st, ls).tags :: a in st.tags || exists ln :: ln in ls && ln.at == a
    decreases |ls|
  {
    if ls != [] && st.live { SweepTags(hash, v, SweepLine(hash, v, st, ls[0]), ls[1..]); }
  }

  lemma SweepLineLogs(hash: Hash, v: View, st: Sweep, ln: Line)
    requires 0 < |v| && ln.at !in st.tags
    ensures var r := SweepLine(hash, v, st, ln);
            if ln.at in r.tags then r.tags == st.tags + {ln.at} && r.log == st.log + [ln.text]
            else r.tags == st.tags && r.log == st.log
  { }

  /** `cleanout_chunk` logs exactly the lines that it tags, in order. */
  lemma {:induction false} SweepLogs(hash: Hash, v: View, st: Sweep, ls: seq<Line>)
    requires 0 < |v| && Increasing(ls) && forall ln | ln in ls :: ln.at !in st.tags
    ensures var r := SweepLines(hash, v, st, ls); r.log == st.log + Removed(ls, r.tags)
    decreases |ls|
  {
    if ls != [] {
      if st.live {
        var st' := SweepLine(hash, v, st, ls[0]);
        assert forall l | l in ls[1..] :: l in ls;
        var tags := SweepLines(hash, v, st', ls[1..]).tags;
        SweepLineLogs(hash, v, st, ls[0]);
        SweepTags(hash, v, st', ls[1..]);
        SweepLogs(hash, v, st', ls[1..]);
        RemovedFirst(ls, tags);
        assert ls[0].at in tags <==> ls[0].at in st'.tags;
      } else {
        RemovedNone(ls, st.tags);
      }
    }
  }

  // ---------------------------------------------------------------- parsed lines

  /** Parsed lines start at increasing places, inside their range, at the start of a physical line. */
  lemma {:induction false} ParseOrder(c: Filter, s: seq<Byte>, i: nat, e: nat)
    requires i <= e <= |s| && Boundary(s, i)
    ensures Increasing(Parse(c, s, i, e))
    ensures forall ln | ln in Parse(c, s, i, e) :: i <= ln.at < e && Starts(s, {ln.at})
    decreases e - i
  {
    if i < e {
      var m := Next(s, i, e);
      var head, rest := Head(c, s, i, e), Parse(c, s, m, e);
      if m < e { ParseOrder(c, s, m, e); }
      HeadStarts(c, s, i, e);
      if head == [] {
        assert Parse(c, s, i, e) == rest;
      } else {
        assert Parse(c, s, i, e) == [head[0]] + rest;
        assert ([head[0]] + rest)[1..] == rest;
      }
    }
  }

  lemma HeadStarts(c: Filter, s: seq<Byte>, i: nat, e: nat)
    requires i < e <= |s| && Boundary(s, i)
    ensures forall ln | ln in Head(c, s, i, e) :: ln.at == i && Starts(s, {i})
  {
    var ls := Head(c, s, i, e);
    if ls != [] { assert s[i] != LF; }
  }

  /** `tags` are places of lines that are parsed from `s[p..e]`. */
  predicate TagsIn(c: Filter, s: seq<Byte>, tags: set<nat>, p: nat, e: nat)
    requires p <= e <= |s|
  {
    forall a | a in tags :: exists ln :: ln in Parse(c, s, p, e) && ln.at == a
  }

  lemma TagsInStart(c: Filter, s: seq<Byte>, tags: set<nat>, p: nat, e: nat)
    requires p <= e <= |s| && Boundary(s, p) && TagsIn(c, s, tags, p, e)
    ensures Starts(s, tags) && forall a | a in tags :: p <= a < e
  {
    ParseOrder(c, s, p, e);
    forall a | a in tags ensures Starts(s, {a}) && p <= a < e {
      var ln :| ln in Parse(c, s, p, e) && ln.at == a;
    }
    assert forall a | a in tags :: Starts(s, {a}) && a in {a};
  }

  /** What tagging lines of the range `[p, e)` does to the parse of the three parts of the file. */
  lemma TagParts(c: Filter, s: seq<Byte>, tags: set<nat>, p: nat, e: nat)
    requires p <= e <= |s| && Boundary(s, p) && Boundary(s, e) && TagsIn(c, s, tags, p, e)
    ensures var t := Tag(s, tags);
            SameNewlines(s, t) && Boundary(t, p) && Boundary(t, e) &&
            Parse(c, t, 0, p) == Parse(c, s, 0, p) && Parse(c, t, e, |s|) == Parse(c, s, e, |s|) &&
            Parse(c, t, p, e) == Untagged(Parse(c, s, p, e), tags)
  {
    TagsInStart(c, s, tags, p, e);
    var t := Tag(s, tags);
    ParseFrame(c, s, t, 0, p);
    ParseFrame(c, s, t, e, |s|);
    TaggingDeletes(c, s, tags, p, e);
  }

  /** The file is three parts. */
  lemma ThreeParts(c: Filter, s: seq<Byte>, p: nat, e: nat)
    requires p <= e <= |s| && Boundary(s, p) && Boundary(s, e)
    ensures All(c, s) == Parse(c, s, 0, p) + Parse(c, s, p, e) + Parse(c, s, e, |s|)
    ensures Parse(c, s, 0, e) == Parse(c, s, 0, p) + Parse(c, s, p, e)
    ensures Parse(c, s, p, |s|) == Parse(c, s, p, e) + Parse(c, s, e, |s|)
  {
    ParseSplit(c, s, 0, p, e);
    ParseSplit(c, s, 0, e, |s|);
    ParseSplit(c, s, p, e, |s|);
  }

  // ---------------------------------------------------------------- soundness

  /** The program has gone from `s` to `t`, logging `log`: newlines are where they were, the first
      occurrences are what they were, and what is gone from the parse is what was logged. */
  predicate Sound(c: Filter, s: seq<Byte>, t: seq<Byte>, log: seq<Text>)
  {
    && SameNewlines(s, t)
    && First(All(c, t)) == First(All(c, s))
    && multiset(Texts(All(c, t))) + multiset(log) == multiset(Texts(All(c, s)))
    && |All(c, t)| + |log| == |All(c, s)|
  }

  lemma SoundThen(c: Filter, s: seq<Byte>, t: seq<Byte>, u: seq<Byte>, log: seq<Text>, more: seq<Text>)
    requires Sound(c, s, t, log) && Sound(c, t, u, more)
    ensures Sound(c, s, u, log + more)
  {
    assert multiset(log + more) == multiset(log) + multiset(more);
  }

  /** Tagging redundant lines is sound. */
  lemma TagIsSound(c: Filter, s: seq<Byte>, tags: set<nat>, p: nat, e: nat)
    requires p <= e <= |s| && Boundary(s, p) && Boundary(s, e) && TagsIn(c, s, tags, p, e)
    requires Redundant(Parse(c, s, p, e), tags, TextSet(Parse(c, s, 0, p)))
    ensures Sound(c, s, Tag(s, tags), Removed(Parse(c, s, p, e), tags))
  {
    var t := Tag(s, tags);
    TagParts(c, s, tags, p, e);
    ThreeParts(c, s, p, e);
    ThreeParts(c, t, p, e);
    PartsSound(Parse(c, s, 0, p), Parse(c, s, p, e), Parse(c, s, e, |s|), tags);
  }

  lemma PartsSound(a: seq<Line>, b: seq<Line>, d: seq<Line>, tags: set<nat>)
    requires Redundant(b, tags, TextSet(a))
    ensures var b' := Untagged(b, tags);
            First(a + b' + d) == First(a + b + d) &&
            multiset(Texts(a + b' + d)) + multiset(Removed(b, tags)) == multiset(Texts(a + b + d)) &&
            |a + b' + d| + |Removed(b, tags)| == |a + b + d|
  {
    PartsFirsts(a, b, d, tags);
    RemovedBalance(b, tags);
    PartsTexts(a, b, d);
    PartsTexts(a, Untagged(b, tags), d);
  }

  lemma PartsFirsts(a: seq<Line>, b: seq<Line>, d: seq<Line>, tags: set<nat>)
    requires Redundant(b, tags, TextSet(a))
    ensures First(a + Untagged(b, tags) + d) == First(a + b + d)
  {
    RedundantKeep(b, tags, TextSet(a));
    PartsKeep(a, b, d);
    PartsKeep(a, Untagged(b, tags), d);
  }

  lemma PartsKeep(a: seq<Line>, b: seq<Line>, d: seq<Line>)
    ensures First(a + b + d) == First(a) + Keep(b, TextSet(a)) + Keep(d, TextSet(a) + TextSet(b))
  {
    KeepAppend(a + b, d, {});
    KeepAppend(a, b, {});
    TextSetAppend(a, b);
    assert {} + TextSet(a) == TextSet(a);
    assert {} + TextSet(a + b) == TextSet(a) + TextSet(b);
  }

  lemma PartsTexts(a: seq<Line>, b: seq<Line>, d: seq<Line>)
    ensures multiset(Texts(a + b + d)) == multiset(Texts(a)) + multiset(Texts(b)) + multiset(Texts(d))
  {
    TextsAppend(a + b, d);
    TextsAppend(a, b);
  }

  /** The run has gone on soundly from `run` to `r`. */
  predicate SoundRun(c: Filter, run: Run, r: Run)
  {
    |run.log| <= |r.log| && r.log[..|run.log|] == run.log && Sound(c, run.data, r.data, r.log[|run.log|..])
  }

  lemma SoundRunBy(c: Filter, run: Run, r: Run, log: seq<Text>)
    requires r.log == run.log + log && Sound(c, run.data, r.data, log)
    ensures SoundRun(c, run, r)
  {
    assert r.log[|run.log|..] == log;
  }

  lemma SoundRunThen(c: Filter, a: Run, b: Run, d: Run)
    requires SoundRun(c, a, b) && SoundRun(c, b, d)
    ensures SoundRun(c, a, d)
  {
    var more, most := b.log[|a.log|..], d.log[|b.log|..];
    SoundThen(c, a.data, b.data, d.data, more, most);
    assert d.log == b.log + most && b.log == a.log + more;
    assert d.log == a.log + (more + most);
    SoundRunBy(c, a, d, more + most);
  }

  /** What indexing a chunk yields, whatever the load. */
  lemma FillFacts(env: Env, s: seq<Byte>, p: nat, e: nat) returns (f: Fill)
    requires p <= e <= |s| && 0 < env.slots && Boundary(s, p)
    ensures f == Populate(env.hash, env.slots, Parse(env.conf, s, p, e))
    ensures TagsIn(env.conf, s, f.tags, p, e) && f.log == Removed(Parse(env.conf, s, p, e), f.tags)
    ensures Redundant(Parse(env.conf, s, p, e), f.tags, TextSet(Parse(env.conf, s, 0, p)))
    ensures Indexed(env.hash, f.view) && Keys(f.view) <= TextSet(Untagged(Parse(env.conf, s, p, e), f.tags))
  {
    var ls, st := Parse(env.conf, s, p, e), Fill(Blank(env.slots), {}, [], true);
    f := FillLines(env.hash, st, ls);
    KeysOfBlank(env.hash, env.slots);
    ParseOrder(env.conf, s, p, e);
    FillTags(env.hash, st, ls);
    FillSound(env.hash, st, ls, TextSet(Parse(env.conf, s, 0, p)));
    FillSound(env.hash, st, ls, {});
    FillLogs(env.hash, st, ls);
  }

  /** Indexing a chunk is sound, and the table then holds only texts of lines that stay there. */
  lemma FillIsSound(env: Env, run: Run, p: nat, e: nat)
    requires p <= e <= |run.data| && 0 < env.slots && Boundary(run.data, p) && Boundary(run.data, e)
    ensures var r, v := AfterFill(env, run, p, e), ViewAfterFill(env, run, p, e);
            Indexed(env.hash, v) && Keys(v) <= TextSet(Parse(env.conf, r.data, p, e)) &&
            SoundRun(env.conf, run, r)
  {
    var f := FillFacts(env, run.data, p, e);
    TagIsSound(env.conf, run.data, f.tags, p, e);
    TagParts(env.conf, run.data, f.tags, p, e);
    SoundRunBy(env.conf, run, AfterFill(env, run, p, e), f.log);
  }

  /** Sweeping a chunk with the table of an earlier chunk is sound. */
  lemma SweepIsSound(env: Env, v: View, run: Run, p: nat, e: nat)
    requires p <= e <= |run.data| && Boundary(run.data, p) && Boundary(run.data, e)
    requires Indexed(env.hash, v) && Keys(v) <= TextSet(Parse(env.conf, run.data, 0, p))
    ensures var r := AfterSweep(env, v, run, p, e);
            SoundRun(env.conf, run, r)
  {
    var c, s := env.conf, run.data;
    var ls, st := Parse(c, s, p, e), Sweep({}, [], true);
    var w := SweepLines(env.hash, v, st, ls);
    ParseOrder(c, s, p, e);
    SweepMeans(env.hash, v, st, ls);
    SweepTags(env.hash, v, st, ls);
    SweepLogs(env.hash, v, st, ls);
    DoomedSeen(ls, w.tags, Keys(v));
    SeenRedundant(ls, w.tags, TextSet(Parse(c, s, 0, p)));
    TagIsSound(c, s, w.tags, p, e);
    SoundRunBy(c, run, AfterSweep(env, v, run, p, e), w.log);
  }

  lemma DoomedSeen(ls: seq<Line>, tags: set<nat>, keys: set<Text>)
    requires Increasing(ls) && tags <= Doomed(ls, keys)
    ensures forall ln | ln in ls && ln.at in tags :: ln.text in keys
  {
    forall ln | ln in ls && ln.at in tags ensures ln.text in keys {
      var l :| l in ls && l.text in keys && l.at == ln.at;
      SamePlace(ls, ln, l);
    }
  }

  lemma {:induction false} SamePlace(ls: seq<Line>, a: Line, b: Line)
    requires Increasing(ls) && a in ls && b in ls && a.at == b.at
    ensures a == b
  {
    if a in ls[1..] && b in ls[1..] { SamePlace(ls[1..], a, b); }
  }

  /** A chunk ends where a physical line can start. */
  lemma EndIsBoundary(chunkSize: nat, s: seq<Byte>, p: nat)
    requires p <= |s|
    ensures Boundary(s, NextEnd(chunkSize, s, p))
  { }

  /** Sweeping the later chunks is sound, and leaves the texts of the earlier ones alone. */
  lemma {:induction false} SubchunksSound(env: Env, v: View, run: Run, p: nat)
    requires p <= |run.data| && Boundary(run.data, p)
    requires Indexed(env.hash, v) && Keys(v) <= TextSet(Parse(env.conf, run.data, 0, p))
    ensures SoundRun(env.conf, run, Subchunks(env, v, run, p))
    decreases |run.data| - p
  {
    if p == |run.data| || run.outcome != Completed {
      SoundRunBy(env.conf, run, run, []);
    } else {
      var e := NextEnd(env.chunkSize, run.data, p);
      var mid := AfterSweep(env, v, run, p, e);
      EndIsBoundary(env.chunkSize, run.data, p);
      SweepIsSound(env, v, run, p, e);
      SweepPrefix(env, v, run, p, e);
      SubchunksSound(env, v, mid, e);
      SoundRunThen(env.conf, run, mid, Subchunks(env, v, mid, e));
    }
  }

  lemma SweepPrefix(env: Env, v: View, run: Run, p: nat, e: nat)
    requires p <= e <= |run.data| && Boundary(run.data, p) && Boundary(run.data, e) && 0 < |v|
    ensures var t := AfterSweep(env, v, run, p, e).data;
            SameNewlines(run.data, t) && Boundary(t, e) &&
            TextSet(Parse(env.conf, run.data, 0, p)) <= TextSet(Parse(env.conf, t, 0, e))
  {
    var c, s := env.conf, run.data;
    var w := SweepLines(env.hash, v, Sweep({}, [], true), Parse(c, s, p, e));
    SweepTags(env.hash, v, Sweep({}, [], true), Parse(c, s, p, e));
    TagParts(c, s, w.tags, p, e);
    var t := Tag(s, w.tags);
    ThreeParts(c, t, p, e);
    TextSetAppend(Parse(c, t, 0, p), Parse(c, t, p, e));
  }

  lemma FillPrefix(env: Env, run: Run, p: nat, e: nat)
    requires p <= e <= |run.data| && 0 < env.slots && Boundary(run.data, p) && Boundary(run.data, e)
    ensures var t := AfterFill(env, run, p, e).data;
            SameNewlines(run.data, t) && Boundary(t, p) && Boundary(t, e) &&
            TextSet(Parse(env.conf, t, p, e)) <= TextSet(Parse(env.conf, t, 0, e))
  {
    var c, s := env.conf, run.data;
    var f := Populate(env.hash, env.slots, Parse(c, s, p, e));
    FillTags(env.hash, Fill(Blank(env.slots), {}, [], true), Parse(c, s, p, e));
    TagParts(c, s, f.tags, p, e);
    var t := Tag(s, f.tags);
    ThreeParts(c, t, p, e);
    TextSetAppend(Parse(c, t, 0, p), Parse(c, t, p, e));
  }

  /** Indexing a chunk makes the table ready for the later chunks. */
  lemma FillReady(env: Env, run: Run, p: nat, e: nat)
    requires p <= e <= |run.data| && 0 < env.slots && Boundary(run.data, p) && Boundary(run.data, e)
    ensures var r, v := AfterFill(env, run, p, e), ViewAfterFill(env, run, p, e);
            Boundary(r.data, e) && Indexed(env.hash, v) && Keys(v) <= TextSet(Parse(env.conf, r.data, 0, e)) &&
            SoundRun(env.conf, run, r)
  {
    FillIsSound(env, run, p, e);
    FillPrefix(env, run, p, e);
  }

  /** Sweeping after indexing is sound. */
  lemma SweptSound(env: Env, run: Run, filled: Run, v: View, e: nat)
    requires e <= |filled.data| && Boundary(filled.data, e) && SoundRun(env.conf, run, filled)
    requires Indexed(env.hash, v) && Keys(v) <= TextSet(Parse(env.conf, filled.data, 0, e))
    ensures SoundRun(env.conf, run, Finish(env, v, filled, e))
  {
    if filled.outcome == Completed {
      var swept := Subchunks(env, v, filled, e);
      SubchunksSound(env, v, filled, e);
      SoundRunThen(env.conf, run, filled, swept);
      FinishIs(env, v, filled, e);
      SoundRunSame(env.conf, run, swept, Finish(env, v, filled, e));
    }
  }

  lemma FinishIs(env: Env, v: View, filled: Run, e: nat)
    requires e <= |filled.data| && 0 < |v| && filled.outcome == Completed
    ensures var r, swept := Finish(env, v, filled, e), Subchunks(env, v, filled, e);
            r.data == swept.data && r.log == swept.log
  { }

  lemma SoundRunSame(c: Filter, run: Run, r: Run, r': Run)
    requires SoundRun(c, run, r) && r'.data == r.data && r'.log == r.log
    ensures SoundRun(c, run, r')
  { }

  /** One phase is sound, however it ends. */
  lemma PhaseSound(env: Env, run: Run, p: nat)
    requires p < |run.data| && 0 < env.slots && Boundary(run.data, p)
    ensures SoundRun(env.conf, run, Phase(env, run, p))
  {
    var e := NextEnd(env.chunkSize, run.data, p);
    FillReady(env, run, p, e);
    SweptSound(env, run, AfterFill(env, run, p, e), ViewAfterFill(env, run, p, e), e);
  }

  /** Whatever the load, and however the run ends: the first occurrence of every valid line is
      still in the file, in the same order, newlines are where they were, and what is gone from the
      file is exactly what was logged, each line once. */
  lemma {:induction false} RunIsSound(env: Env, run: Run, p: nat)
    requires p <= |run.data| && 0 < env.slots && Boundary(run.data, p)
    ensures SoundRun(env.conf, run, TagFrom(env, run, p))
    decreases |run.data| - p
  {
    if p == |run.data| || run.outcome != Completed {
      SoundRunBy(env.conf, run, run, []);
    } else {
      var e := NextEnd(env.chunkSize, run.data, p);
      var next := Phase(env, run, p);
      EndIsBoundary(env.chunkSize, run.data, p);
      PhaseSound(env, run, p);
      RunIsSound(env, next, e);
      SoundRunThen(env.conf, run, next, TagFrom(env, next, e));
    }
  }
}
