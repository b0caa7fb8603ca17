/** Above the load bound: what `populate_hmap` can leave out of the table without a word, what it can
    fill up, and exactly which chunks these happen to. */
module Overload {
  import opened Lines
  import opened LineLists
  import opened Index
  import opened Exactness

  // ---------------------------------------------------------------- a hash that spreads some texts

  /** The place of `x` in `ts`, or zero. */
  function Rank(ts: seq<Text>, x: Text): (r: nat)
    ensures x in ts ==> r < |ts| && ts[r] == x
    ensures x !in ts ==> r == 0
  {
    if x !in ts || ts[0] == x then 0 else 1 + Rank(ts[1..], x)
  }

  function Spread(ts: seq<Text>): Hash { x => Rank(ts, x) }

  predicate Different(ts: seq<Text>) { forall i, j | 0 <= i < j < |ts| :: ts[i] != ts[j] }

  /** The first `m` of the texts are in the table, each in the slot of its place, and nothing else. */
  predicate Spreads(v: View, ts: seq<Text>, m: nat)
  {
    m <= |ts| <= |v| && forall k | 0 <= k < |v| :: v[k] == if k < m then Some(ts[k]) else None
  }

  lemma SpreadKeys(v: View, ts: seq<Text>, m: nat, x: Text)
    requires Spreads(v, ts, m)
    ensures x in Keys(v) <==> exists k :: 0 <= k < m && ts[k] == x
  {
    if k :| 0 <= k < m && ts[k] == x { assert v[k].Some? && v[k].value == x; }
  }

  /** A probe from the first slot through slots that hold other texts. */
  lemma {:induction false} SpentFrom(v: View, x: Text, i: nat, budget: nat)
    requires 0 < |v| && i <= budget <= |v|
    requires forall k | i <= k < budget :: v[k].Some? && v[k].value != x
    ensures Probe(v, x, 0, i, budget).Spent?
    decreases budget - i
  {
    if i < budget { SpentFrom(v, x, i + 1, budget); }
  }

  /** A line of a spread text goes to its own slot, or is found there; when all those are in, any other
      line meets full slots only, and is left out. */
  lemma SpreadLine(ts: seq<Text>, st: Fill, m: nat, ln: Line)
    requires 3 <= |st.view| && Budget(|st.view|) <= |ts| && Different(ts) && Spreads(st.view, ts, m)
    ensures var r, x := FillLine(Spread(ts), st, ln), ln.text;
            if x in Keys(st.view) then x in ts && r == Fill(st.view, st.tags + {ln.at}, st.log + [x], true)
            else if m < |ts| && x == ts[m] then
              r.tags == st.tags && r.ok && Spreads(r.view, ts, m + 1) && Keys(r.view) == Keys(st.view) + {x}
            else m == |ts| ==> r == st
  {
    var v, n, x := st.view, |st.view|, ln.text;
    var h := Home(Spread(ts), x, n);
    SpreadKeys(v, ts, m, x);
    assert Rank(ts, x) < n;
    ModSmall(Rank(ts, x), n);
    if x in Keys(v) {
      var k :| 0 <= k < m && ts[k] == x;
      assert h == k && v[At(h, 0, n)] == Some(x);
    } else if m < |ts| && x == ts[m] {
      assert h == m && v[At(h, 0, n)] == None;
      KeysOfInsert(v, m, x);
    } else if m == |ts| {
      assert x !in ts;
      assert forall k | 0 <= k < Budget(n) :: v[k] == Some(ts[k]);
      SpentFrom(v, x, 0, Budget(n));
    }
  }

  lemma ModSmall(a: nat, n: nat)
    requires a < n
    ensures a % n == a
  { }

  /** The new texts of `ls` begin with the texts of `ts` that are still to come. */
  predicate Ahead(ts: seq<Text>, m: nat, ks: seq<Line>)
  {
    m <= |ts| <= m + |ks| && forall j | m <= j < |ts| :: ks[j - m].text == ts[j]
  }

  /** Part-way through a chunk under the hash that spreads `ts`. */
  predicate Spreading(ts: seq<Text>, st: Fill, m: nat, ls: seq<Line>)
  {
    && 3 <= |st.view| && Budget(|st.view|) <= |ts| && Different(ts) && Spreads(st.view, ts, m) && st.ok
    && Ahead(ts, m, Keep(ls, Keys(st.view)))
  }

  lemma AheadNext(ts: seq<Text>, m: nat, ks: seq<Line>)
    requires Ahead(ts, m, ks) && m < |ts|
    ensures ks != [] && ks[0].text == ts[m] && Ahead(ts, m + 1, ks[1..])
  {
    assert ks[m - m].text == ts[m];
    forall j | m + 1 <= j < |ts| ensures ks[1..][j - (m + 1)].text == ts[j] {
      assert ks[j - m].text == ts[j];
    }
  }

  lemma SpreadStep(ts: seq<Text>, st: Fill, m: nat, ls: seq<Line>) returns (m': nat)
    requires Spreading(ts, st, m, ls) && ls != []
    ensures var st' := FillLine(Spread(ts), st, ls[0]);
            Spreading(ts, st', m', ls[1..]) &&
            (st'.tags == st.tags || (ls[0].text in ts && st'.tags == st.tags + {ls[0].at}))
  {
    var keys, x := Keys(st.view), ls[0].text;
    var rest := Keep(ls[1..], keys + {x});
    m' := m;
    SpreadLine(ts, st, m, ls[0]);
    if x !in keys && m < |ts| {
      AheadNext(ts, m, Keep(ls, keys));
      assert Keep(ls, keys)[1..] == rest;
      m' := m + 1;
    }
  }

  /** Under the hash that spreads the first distinct texts of a chunk, at least as many as there are
      probes, `populate_hmap` indexes these and no others, and tags no line of any other. */
  lemma {:induction false} SpreadFill(ts: seq<Text>, st: Fill, m: nat, ls: seq<Line>)
    requires Spreading(ts, st, m, ls)
    requires Increasing(ls) && forall ln | ln in ls :: ln.at !in st.tags
    ensures var r := FillLines(Spread(ts), st, ls);
            r.ok && Spreads(r.view, ts, |ts|) && forall ln | ln in ls && ln.text !in ts :: ln.at !in r.tags
    decreases |ls|
  {
    if ls != [] {
      var ln, rest := ls[0], ls[1..];
      var st' := FillLine(Spread(ts), st, ln);
      var m' := SpreadStep(ts, st, m, ls);
      assert forall l :: l in ls <==> l == ln || l in rest;
      FillTags(Spread(ts), st', rest);
      SpreadFill(ts, st', m', rest);
    }
  }

  // ---------------------------------------------------------------- what is left out

  predicate Differ(ls: seq<Line>) { forall i, j | 0 <= i < j < |ls| :: ls[i].text != ls[j].text }

  lemma DifferCons(ln: Line, rest: seq<Line>)
    requires Differ(rest) && forall l | l in rest :: l.text != ln.text
    ensures Differ([ln] + rest)
  {
    var ls := [ln] + rest;
    forall i, j | 0 <= i < j < |ls| ensures ls[i].text != ls[j].text {
      assert ls[j] == rest[j - 1] && ls[j] in rest;
      if i > 0 { assert ls[i] == rest[i - 1]; }
    }
  }

  lemma {:induction false} KeepDiffers(ls: seq<Line>, seen: set<Text>)
    ensures Differ(Keep(ls, seen)) && forall ln | ln in Keep(ls, seen) :: ln.text !in seen
  {
    if ls == [] {
    } else if ls[0].text in seen {
      KeepDiffers(ls[1..], seen);
    } else {
      var rest := Keep(ls[1..], seen + {ls[0].text});
      KeepDiffers(ls[1..], seen + {ls[0].text});
      DifferCons(ls[0], rest);
      assert Keep(ls, seen) == [ls[0]] + rest;
    }
  }

  /** The texts of the first `m` distinct lines. */
  function Leading(ls: seq<Line>, m: nat): (ts: seq<Text>)
    requires m <= |First(ls)|
    ensures |ts| == m && forall i | 0 <= i < m :: ts[i] == First(ls)[i].text
  {
    var ks := First(ls);
    seq(m, i requires 0 <= i < m => ks[i].text)
  }

  lemma LeadingDiffers(ls: seq<Line>, m: nat)
    requires m <= |First(ls)|
    ensures Different(Leading(ls, m)) && (m < |First(ls)| ==> First(ls)[m].text !in Leading(ls, m))
  {
    var ks, ts := First(ls), Leading(ls, m);
    KeepDiffers(ls, {});
    forall i, j | 0 <= i < j < m ensures ts[i] != ts[j] { assert ks[i].text != ks[j].text; }
    forall i | 0 <= i < m && m < |ks| ensures ts[i] != ks[m].text { assert ks[i].text != ks[m].text; }
  }

  /** Spreading the first `m` distinct texts of a chunk: they fill the first `m` slots, and the other
      lines are left out of the table and of the tags. */
  lemma SpreadLeading(n: nat, ls: seq<Line>, m: nat)
    requires 3 <= n && Budget(n) <= m <= n && m <= |First(ls)| && Increasing(ls)
    ensures var ts, r := Leading(ls, m), Populate(Spread(Leading(ls, m)), n, ls);
            r.ok && Different(ts) && Spreads(r.view, ts, m) &&
            forall ln | ln in ls && ln.text !in ts :: ln.at !in r.tags
  {
    var ts := Leading(ls, m);
    LeadingDiffers(ls, m);
    KeysOfBlank(Spread(ts), n);
    assert Ahead(ts, 0, First(ls));
    SpreadFill(ts, Fill(Blank(n), {}, [], true), 0, ls);
  }

  /** With one slot there are no probes, and every line is left out; with two there is one, and the first
      line takes the error exit. */
  lemma {:induction false} NoProbes(hash: Hash, st: Fill, ls: seq<Line>)
    requires |st.view| == 1
    ensures FillLines(hash, st, ls).view == st.view && (st.ok ==> FillLines(hash, st, ls) == st)
    decreases |ls|
  {
    if ls != [] && st.ok { NoProbes(hash, st, ls[1..]); }
  }

  lemma OneProbe(hash: Hash, ls: seq<Line>)
    ensures Populate(hash, 2, ls).ok <==> ls == []
  {
    if ls != [] {
      var st := Fill(Blank(2), {}, [], true);
      var h := Home(hash, ls[0].text, 2);
      assert Budget(2) == 1;
      assert Probe(st.view, ls[0].text, h, 0, 1) == Free(0);
      var st' := FillLine(hash, st, ls[0]);
      assert !st'.ok && FillLines(hash, st', ls[1..]) == st';
    }
  }

  /** Every text of the chunk is in the table. */
  predicate Complete(hash: Hash, n: nat, ls: seq<Line>)
    requires 0 < n
  {
    var r := Populate(hash, n, ls); r.ok ==> Keys(r.view) == TextSet(ls)
  }

  lemma LeftOut(n: nat, ls: seq<Line>)
    requires 3 <= n && Budget(n) < |First(ls)| && Increasing(ls)
    ensures !Complete(Spread(Leading(ls, Budget(n))), n, ls)
  {
    var m := Budget(n);
    var ts, v := Leading(ls, m), Populate(Spread(Leading(ls, m)), n, ls).view;
    var ln := First(ls)[m];
    SpreadLeading(n, ls, m);
    LeadingDiffers(ls, m);
    SpreadKeys(v, ts, m, ln.text);
    KeepIn(ls, {});
    assert ln in First(ls);
    TextSetHas(ls, ln);
    assert ln.text in TextSet(ls) && ln.text !in Keys(v);
  }

  /** When `populate_hmap` does not take its error exit, it has indexed every distinct line of the chunk,
      under every hash function, if and only if there are at most as many as it has probes. (A table
      of two slots takes the error exit for any line.) */
  lemma CompleteIff(n: nat, ls: seq<Line>)
    requires 0 < n && Increasing(ls)
    ensures n == 2 || |First(ls)| <= Budget(n) <==> forall hash: Hash :: Complete(hash, n, ls)
  {
    if n == 2 {
      forall hash: Hash ensures Complete(hash, n, ls) { OneProbe(hash, ls); KeysOfBlank(hash, n); }
    } else if |First(ls)| <= Budget(n) {
      forall hash: Hash ensures Complete(hash, n, ls) {
        KeysOfBlank(hash, n);
        FillComplete(hash, Fill(Blank(n), {}, [], true), ls);
        assert {} + TextSet(ls) == TextSet(ls);
      }
    } else if n == 1 {
      KeysOfBlank(Spread([]), n);
      NoProbes(Spread([]), Fill(Blank(n), {}, [], true), ls);
      assert !Complete(Spread([]), n, ls);
    } else {
      LeftOut(n, ls);
    }
  }

  // ---------------------------------------------------------------- the last empty slot

  /** The table has an empty slot, which the look-ups of `cleanout_chunk` need to end. */
  predicate Roomy(hash: Hash, n: nat, ls: seq<Line>)
    requires 0 < n
  {
    var r := Populate(hash, n, ls); r.ok ==> HasRoom(r.view)
  }

  /** When `populate_hmap` does not take its error exit, it leaves an empty slot, under every hash function,
      if and only if the chunk has fewer distinct lines than the table has slots. (A table of one slot
      is never filled, and one of two slots takes the error exit for any line.) */
  lemma RoomyIff(n: nat, ls: seq<Line>)
    requires 0 < n && Increasing(ls)
    ensures n <= 2 || |First(ls)| < n <==> forall hash: Hash :: Roomy(hash, n, ls)
  {
    if n <= 2 || |First(ls)| < n {
      forall hash: Hash ensures Roomy(hash, n, ls) { RoomyWhen(hash, n, ls); }
    } else {
      var hash := Spread(Leading(ls, n));
      SpreadLeading(n, ls, n);
      assert !Roomy(hash, n, ls);
    }
  }

  lemma RoomyWhen(hash: Hash, n: nat, ls: seq<Line>)
    requires 0 < n && (n <= 2 || |First(ls)| < n) && Increasing(ls)
    ensures Roomy(hash, n, ls)
  {
    if n == 1 {
      NoProbes(hash, Fill(Blank(n), {}, [], true), ls);
      assert Blank(n)[0].None?;
    } else if n == 2 {
      OneProbe(hash, ls);
      assert Blank(n)[0].None?;
    } else {
      KeysWithin(hash, n, ls);
      RoomLeft(Populate(hash, n, ls).view);
    }
  }

  /** The table never holds more texts than the chunk has. */
  lemma KeysWithin(hash: Hash, n: nat, ls: seq<Line>)
    requires 0 < n && Increasing(ls)
    ensures var v := Populate(hash, n, ls).view;
            Indexed(hash, v) && Keys(v) <= TextSet(ls) && |Keys(v)| <= |First(ls)|
  {
    var st := Fill(Blank(n), {}, [], true);
    var r := FillLines(hash, st, ls);
    KeysOfBlank(hash, n);
    FillSound(hash, st, ls, {});
    RedundantKeep(ls, r.tags, {});
    assert {} + TextSet(Untagged(ls, r.tags)) == {} + TextSet(ls);
    KeepTexts(ls, {});
    assert TextSet(ls) - {} == TextSet(ls);
    assert TextSet(ls) == Keys(r.view) + (TextSet(ls) - Keys(r.view));
  }

  // ---------------------------------------------------------------- repetitions that stay

  /** No text that comes after `budget` others, those of `seen` included, comes again. */
  predicate LateOnce(ls: seq<Line>, seen: set<Text>, budget: nat)
  {
    ls == [] ||
    ((ls[0].text !in seen && budget <= |seen| ==> ls[0].text !in TextSet(ls[1..])) &&
     LateOnce(ls[1..], seen + {ls[0].text}, budget))
  }

  /** Every text of the table is where a probe of `populate_hmap` gets to. */
  predicate InReach(hash: Hash, v: View)
  {
    0 < |v| && forall k | 0 <= k < |v| && v[k].Some? :: Steps(Home(hash, v[k].value, |v|), k, |v|) < Budget(|v|)
  }

  lemma ReachLine(hash: Hash, st: Fill, ln: Line)
    requires Indexed(hash, st.view) && InReach(hash, st.view)
    ensures var r := FillLine(hash, st, ln);
            InReach(hash, r.view) && (ln.text in Keys(st.view) ==> r.view == st.view && r.tags == st.tags + {ln.at})
  {
    var v, n, x := st.view, |st.view|, ln.text;
    var h := Home(hash, x, n);
    var f := Probe(v, x, h, 0, Budget(n));
    ProbePath(v, x, h, 0, Budget(n));
    ProbeAnswers(hash, v, x, Budget(n));
    if x in Keys(v) {
      var k :| 0 <= k < n && v[k].Some? && v[k].value == x;
      assert v[At(h, Steps(h, k, n), n)] == Some(x);
    } else if f.Free? {
      assert Steps(h, At(h, f.i, n), n) == f.i;
    }
  }

  /** A line that is new, and the table after it. */
  lemma NewLine(hash: Hash, st: Fill, ln: Line)
    requires Indexed(hash, st.view) && ln.text !in Keys(st.view)
    ensures var r := FillLine(hash, st, ln);
            r.tags == st.tags && Indexed(hash, r.view) && Keys(r.view) <= Keys(st.view) + {ln.text} &&
            (ln.text in Keys(r.view) || Budget(|st.view|) <= |Keys(st.view)|)
  {
    LineEffect(hash, st, ln);
    assert Keys(st.view) - {ln.text} == Keys(st.view);
  }

  lemma Subset(a: set<Text>, b: set<Text>)
    requires a <= b
    ensures |a| <= |b|
  {
    assert b == a + (b - a);
  }

  /** Part-way through a chunk whose late texts come once: no text that was left out is to come again. */
  predicate Late(hash: Hash, v: View, ls: seq<Line>, seen: set<Text>)
  {
    && Indexed(hash, v) && InReach(hash, v) && Keys(v) <= seen
    && LateOnce(ls, seen, Budget(|v|)) && (seen - Keys(v)) !! TextSet(ls)
  }

  lemma LateStep(hash: Hash, st: Fill, ls: seq<Line>, seen: set<Text>)
    requires Late(hash, st.view, ls, seen) && ls != []
    ensures var st', x := FillLine(hash, st, ls[0]), ls[0].text;
            Late(hash, st'.view, ls[1..], seen + {x}) &&
            st'.tags == if x in seen then st.tags + {ls[0].at} else st.tags
  {
    ReachLine(hash, st, ls[0]);
    LineEffect(hash, st, ls[0]);
    if ls[0].text in seen {
      assert seen + {ls[0].text} == seen && ls[0].text in Keys(st.view);
    } else {
      NewLine(hash, st, ls[0]);
      Subset(Keys(st.view), seen);
    }
  }

  /** Whatever the load: a chunk whose late texts come once is left with its first occurrences, unless
      the error exit is taken. */
  lemma {:induction false} LateExact(hash: Hash, st: Fill, ls: seq<Line>, seen: set<Text>)
    requires Late(hash, st.view, ls, seen) && st.ok
    requires Increasing(ls) && forall ln | ln in ls :: ln.at !in st.tags
    ensures var r := FillLines(hash, st, ls); r.ok ==> Untagged(ls, r.tags) == Keep(ls, seen)
    decreases |ls|
  {
    if ls != [] {
      var st', seen' := FillLine(hash, st, ls[0]), seen + {ls[0].text};
      LateStep(hash, st, ls, seen);
      assert forall l | l in ls[1..] :: l in ls;
      FillTags(hash, st', ls[1..]);
      UntaggedFirst(ls, FillLines(hash, st', ls[1..]).tags);
      if ls[0].text in seen { assert seen' == seen; }
      if st'.ok { LateExact(hash, st', ls[1..], seen'); }
    }
  }

  /** A text that comes after `budget` others, and again. */
  lemma {:induction false} LateTwice(ls: seq<Line>, seen: set<Text>, budget: nat) returns (a: Line, b: Line, j: nat)
    requires !LateOnce(ls, seen, budget) && Increasing(ls)
    ensures a in ls && b in ls && a.at != b.at && a.text == b.text
    ensures j < |Keep(ls, seen)| && Keep(ls, seen)[j] == a && budget <= |seen| + j
  {
    var x := ls[0].text;
    if x !in seen && budget <= |seen| && x in TextSet(ls[1..]) {
      a, j := ls[0], 0;
      b := TextSetFrom(ls[1..], x);
    } else {
      a, b, j := LateTwice(ls[1..], seen + {x}, budget);
      if x in seen { assert seen + {x} == seen; } else { j := j + 1; }
    }
  }

  lemma {:induction false} UntaggedHas(ls: seq<Line>, tags: set<nat>, ln: Line)
    requires ln in ls && ln.at !in tags
    ensures ln in Untagged(ls, tags)
  {
    if ln != ls[0] { UntaggedHas(ls[1..], tags, ln); }
  }

  /** The chunk is left with its first occurrences. */
  predicate Exact(hash: Hash, n: nat, ls: seq<Line>)
    requires 0 < n
  {
    var r := Populate(hash, n, ls); r.ok ==> Untagged(ls, r.tags) == First(ls)
  }

  lemma TwiceStays(ls: seq<Line>, tags: set<nat>, a: Line, b: Line)
    requires a in ls && b in ls && a.at != b.at && a.text == b.text && a.at !in tags && b.at !in tags
    ensures Untagged(ls, tags) != First(ls)
  {
    UntaggedHas(ls, tags, a);
    UntaggedHas(ls, tags, b);
    KeepDiffers(ls, {});
  }

  lemma LateStays(n: nat, ls: seq<Line>)
    requires 3 <= n && Increasing(ls) && !LateOnce(ls, {}, Budget(n))
    ensures exists hash: Hash :: !Exact(hash, n, ls)
  {
    var a, b, j := LateTwice(ls, {}, Budget(n));
    var ts := Leading(ls, Budget(n));
    SpreadLeading(n, ls, Budget(n));
    KeepDiffers(ls, {});
    forall i | 0 <= i < |ts| ensures ts[i] != a.text { assert First(ls)[i].text != First(ls)[j].text; }
    TwiceStays(ls, Populate(Spread(ts), n, ls).tags, a, b);
    assert !Exact(Spread(ts), n, ls);
  }

  /** When `populate_hmap` does not take its error exit, it leaves a chunk with exactly its first
      occurrences, under every hash function, if and only if no text that comes after as many others as
      there are probes comes again. (A table of two slots takes the error exit for any line.) */
  lemma ExactIff(n: nat, ls: seq<Line>)
    requires 0 < n && Increasing(ls)
    ensures n == 2 || LateOnce(ls, {}, Budget(n)) <==> forall hash: Hash :: Exact(hash, n, ls)
  {
    if n == 2 {
      forall hash: Hash ensures Exact(hash, n, ls) { OneProbe(hash, ls); }
    } else if LateOnce(ls, {}, Budget(n)) {
      forall hash: Hash ensures Exact(hash, n, ls) {
        KeysOfBlank(hash, n);
        LateExact(hash, Fill(Blank(n), {}, [], true), ls, {});
      }
    } else if n == 1 {
      var a, b, j := LateTwice(ls, {}, Budget(n));
      NoProbes(Spread([]), Fill(Blank(n), {}, [], true), ls);
      TwiceStays(ls, {}, a, b);
      assert !Exact(Spread([]), n, ls);
    } else {
      LateStays(n, ls);
    }
  }
}
