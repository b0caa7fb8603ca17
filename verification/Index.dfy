/** The open-addressing index of src/hmap.c and src/chunk.c, on the texts its entries stand for:
    linear probing, insertion under a probe budget, and look-up without one. */
module Index {
  import opened Lines
  import opened LineLists

  datatype Option<+T> = None | Some(value: T)

  /** The table, each slot read as the text that its entry points at. */
  type View = seq<Option<Text>>

  type Hash = Text -> nat

  /** The slot that is `i` steps after `h` in a table of `n` slots. */
  function At(h: nat, i: nat, n: nat): (k: nat)
    requires h < n && i <= n
    ensures k < n
  {
    if h + i < n then h + i else h + i - n
  }

  /** How many steps lead from `h` to `k`. */
  function Steps(h: nat, k: nat, n: nat): (i: nat)
    requires h < n && k < n
    ensures i < n && At(h, i, n) == k
  {
    if h <= k then k - h else k + n - h
  }

  function Home(hash: Hash, x: Text, n: nat): (h: nat)
    requires 0 < n
    ensures h < n
  {
    hash(x) % n
  }

  /** The probe budget of `populate_hmap`. */
  function Budget(n: nat): (b: nat)
    requires 0 < n
    ensures b < n
  {
    n * 7 / 10
  }

  /** What a probe meets first: an empty slot or the text, after `i` steps, or the end of its budget. */
  datatype Found = Free(i: nat) | Match(i: nat) | Spent

  function Probe(v: View, x: Text, h: nat, i: nat, budget: nat): (f: Found)
    requires h < |v| && i <= budget <= |v|
    ensures f.Free? || f.Match? ==> i <= f.i < budget
    decreases budget - i
  {
    if i == budget then Spent
    else match v[At(h, i, |v|)]
      case None => Free(i)
      case Some(y) => if y == x then Match(i) else Probe(v, x, h, i + 1, budget)
  }

  /** The texts that the table holds. */
  function Keys(v: View): set<Text>
  {
    set k | 0 <= k < |v| && v[k].Some? :: v[k].value
  }

  function Blank(n: nat): (v: View)
    ensures |v| == n && forall k | 0 <= k < n :: v[k] == None
  {
    seq(n, k => None)
  }

  predicate Distinct(v: View)
  {
    forall j, k | 0 <= j < k < |v| && v[j].Some? && v[k].Some? :: v[j].value != v[k].value
  }

  /** The slot `k` is empty, or no slot between its home and `k` is. */
  predicate Chained(hash: Hash, v: View, k: nat)
    requires k < |v|
  {
    v[k].Some? ==>
      var h := Home(hash, v[k].value, |v|);
      forall i | 0 <= i < Steps(h, k, |v|) :: v[At(h, i, |v|)].Some?
  }

  /** What `populate_hmap` keeps true of the table: distinct texts, and no empty slot between the
      home of a text and its place. */
  predicate Indexed(hash: Hash, v: View)
  {
    0 < |v| && Distinct(v) && forall k | 0 <= k < |v| :: Chained(hash, v, k)
  }

  predicate HasRoom(v: View) { exists k :: 0 <= k < |v| && v[k].None? }

  // ---------------------------------------------------------------- what a probe means

  lemma {:induction false} ProbePath(v: View, x: Text, h: nat, i: nat, budget: nat)
    requires h < |v| && i <= budget <= |v|
    ensures var f := Probe(v, x, h, i, budget);
            forall j | i <= j < (if f.Spent? then budget else f.i) ::
              v[At(h, j, |v|)].Some? && v[At(h, j, |v|)].value != x
    ensures var f := Probe(v, x, h, i, budget);
            (f.Free? ==> v[At(h, f.i, |v|)].None?) &&
            (f.Match? ==> v[At(h, f.i, |v|)] == Some(x))
    decreases budget - i
  {
    if i < budget && v[At(h, i, |v|)].Some? && v[At(h, i, |v|)].value != x {
      ProbePath(v, x, h, i + 1, budget);
    }
  }

  /** A probe that reaches a match or an empty slot answers membership of the indexed set exactly. */
  lemma ProbeAnswers(hash: Hash, v: View, x: Text, budget: nat)
    requires Indexed(hash, v) && budget <= |v|
    ensures var f := Probe(v, x, Home(hash, x, |v|), 0, budget);
            (f.Match? ==> x in Keys(v)) && (f.Free? ==> x !in Keys(v))
            && (f.Spent? && budget == |v| ==> x !in Keys(v))
  {
    var n, h := |v|, Home(hash, x, |v|);
    var f := Probe(v, x, h, 0, budget);
    ProbePath(v, x, h, 0, budget);
    if x in Keys(v) {
      var k: nat :| k < n && v[k].Some? && v[k].value == x;
      assert Chained(hash, v, k);
      var i := Steps(h, k, n);
      assert v[At(h, i, n)] == Some(x);
    }
  }

  /** Distinct texts in the first `i` slots from `h` are `i` texts. */
  lemma {:induction false} PathCount(v: View, h: nat, i: nat, keys: set<Text>)
    requires h < |v| && i <= |v| && Distinct(v)
    requires forall j | 0 <= j < i :: v[At(h, j, |v|)].Some? && v[At(h, j, |v|)].value in keys
    ensures i <= |keys|
  {
    if i > 0 {
      var y := v[At(h, i - 1, |v|)].value;
      assert y in keys;
      PathCount(v, h, i - 1, keys - {y});
    }
  }

  /** A probe passes over at most as many slots as the table holds other texts. */
  lemma ProbeLength(v: View, x: Text, h: nat, budget: nat)
    requires h < |v| && budget <= |v| && Distinct(v)
    ensures var f := Probe(v, x, h, 0, budget);
            (if f.Spent? then budget else f.i) <= |Keys(v) - {x}|
  {
    var f := Probe(v, x, h, 0, budget);
    var i := if f.Spent? then budget else f.i;
    ProbePath(v, x, h, 0, budget);
    PathCount(v, h, i, Keys(v) - {x});
  }

  lemma KeysOfBlank(hash: Hash, n: nat)
    requires 0 < n
    ensures Indexed(hash, Blank(n)) && Keys(Blank(n)) == {}
  {
    forall k | 0 <= k < n ensures Chained(hash, Blank(n), k) { }
  }

  lemma KeysOfInsert(v: View, k: nat, x: Text)
    requires k < |v| && v[k].None?
    ensures Keys(v[k := Some(x)]) == Keys(v) + {x}
  {
    var w := v[k := Some(x)];
    forall y | y in Keys(v) ensures y in Keys(w) {
      var j :| 0 <= j < |v| && v[j].Some? && v[j].value == y;
      assert w[j].Some? && w[j].value == y;
    }
    assert w[k].Some? && w[k].value == x;
  }

  /** Filling the empty slot that ends a probe keeps the table indexed. */
  lemma InsertKeeps(hash: Hash, v: View, x: Text, budget: nat)
    requires Indexed(hash, v) && budget <= |v|
    requires Probe(v, x, Home(hash, x, |v|), 0, budget).Free?
    ensures var h := Home(hash, x, |v|);
            var w := v[At(h, Probe(v, x, h, 0, budget).i, |v|) := Some(x)];
            Indexed(hash, w) && Keys(w) == Keys(v) + {x}
  {
    var n, h := |v|, Home(hash, x, |v|);
    var i := Probe(v, x, h, 0, budget).i;
    var slot := At(h, i, n);
    var w := v[slot := Some(x)];
    ProbePath(v, x, h, 0, budget);
    ProbeAnswers(hash, v, x, budget);
    KeysOfInsert(v, slot, x);
    assert Distinct(w) by {
      forall j | 0 <= j < n && v[j].Some? ensures v[j].value != x { assert v[j].value in Keys(v); }
    }
    assert Steps(h, slot, n) == i;
    forall k | 0 <= k < n ensures Chained(hash, w, k) {
      assert Chained(hash, v, k);
    }
  }

  /** An index with fewer texts than slots has an empty slot. */
  lemma RoomLeft(v: View)
    requires 0 < |v| && Distinct(v) && |Keys(v)| < |v|
    ensures HasRoom(v)
  {
    if !HasRoom(v) {
      forall j | 0 <= j < |v| ensures v[At(0, j, |v|)].Some? { assert !v[j].None?; }
      PathCount(v, 0, |v|, Keys(v));
    }
  }

  /** With an empty slot in the table, a look-up ends within one turn of the table. */
  lemma RoomEnds(v: View, x: Text, h: nat)
    requires h < |v| && HasRoom(v)
    ensures !Probe(v, x, h, 0, |v|).Spent?
  {
    var k :| 0 <= k < |v| && v[k].None?;
    ProbePath(v, x, h, 0, |v|);
    assert v[At(h, Steps(h, k, |v|), |v|)].None?;
  }

  /** The slot that a probe looks at on its turn `i`, however often it has gone round. */
  function Turn(h: nat, i: nat, n: nat): (k: nat)
    requires 0 < n
    ensures k < n
  {
    (h + i) % n
  }

  lemma ModOnce(a: nat, n: nat)
    requires 0 < n <= a < 2 * n
    ensures a % n == a - n
  {
    assert (a - n) + n == a;
  }

  lemma AtIsTurn(h: nat, i: nat, n: nat)
    requires h < n && i <= n
    ensures Turn(h, i, n) == At(h, i, n)
  {
    if n <= h + i { ModOnce(h + i, n); }
  }

  /** The look-up of `cleanout_chunk`, which has no budget, runs forever exactly when one turn of
      the table meets neither the text nor an empty slot. */
  lemma SpentSpins(v: View, x: Text, h: nat)
    requires h < |v|
    ensures Probe(v, x, h, 0, |v|).Spent? <==>
            forall i: nat :: v[Turn(h, i, |v|)].Some? && v[Turn(h, i, |v|)].value != x
  {
    var n := |v|;
    var f := Probe(v, x, h, 0, n);
    ProbePath(v, x, h, 0, n);
    if f.Spent? {
      forall i: nat ensures v[Turn(h, i, n)].Some? && v[Turn(h, i, n)].value != x {
        var k := Turn(h, i, n);
        assert v[At(h, Steps(h, k, n), n)].Some?;
      }
    } else {
      AtIsTurn(h, f.i, n);
    }
  }

  // ---------------------------------------------------------------- populate_hmap

  /** `populate_hmap` part-way: the table, the lines tagged and logged so far, and whether it
      has not exited. */
  datatype Fill = Fill(view: View, tags: set<nat>, log: seq<Text>, ok: bool)

  /** One line: inserted, tagged, or left out when the budget is spent; finding a place on the last
      allowed probe is the error exit. */
  function FillLine(hash: Hash, st: Fill, ln: Line): (r: Fill)
    requires 0 < |st.view|
    ensures |r.view| == |st.view|
  {
    var n := |st.view|;
    var h := Home(hash, ln.text, n);
    match Probe(st.view, ln.text, h, 0, Budget(n))
    case Free(i) => st.(view := st.view[At(h, i, n) := Some(ln.text)], ok := i + 1 != Budget(n))
    case Match(i) => st.(tags := st.tags + {ln.at}, log := st.log + [ln.text], ok := i + 1 != Budget(n))
    case Spent => st
  }

  function FillLines(hash: Hash, st: Fill, ls: seq<Line>): (r: Fill)
    requires 0 < |st.view|
    ensures |r.view| == |st.view|
    decreases |ls|
  {
    if ls == [] || !st.ok then st else FillLines(hash, FillLine(hash, st, ls[0]), ls[1..])
  }

  function Populate(hash: Hash, n: nat, ls: seq<Line>): (r: Fill)
    requires 0 < n
    ensures |r.view| == n
  {
    FillLines(hash, Fill(Blank(n), {}, [], true), ls)
  }

  /** The places of the lines are increasing. */
  predicate Increasing(ls: seq<Line>)
  {
    ls == [] || (Increasing(ls[1..]) && forall ln | ln in ls[1..] :: ls[0].at < ln.at)
  }

  /** The tags grow, and only by lines of the list. */
  lemma {:induction false} FillTags(hash: Hash, st: Fill, ls: seq<Line>)
    requires 0 < |st.view|
    ensures st.tags <= FillLines(hash, st, ls).tags
    ensures forall a | a in FillLines(hash, st, ls).tags :: a in st.tags || exists ln :: ln in ls && ln.at == a
    decreases |ls|
  {
    if ls != [] && st.ok {
      FillTags(hash, FillLine(hash, st, ls[0]), ls[1..]);
    }
  }

  /** What one line does to the index: it is a match, a new text, or it is left out. */
  lemma LineEffect(hash: Hash, st: Fill, ln: Line)
    requires Indexed(hash, st.view)
    ensures var r := FillLine(hash, st, ln);
            Indexed(hash, r.view) &&
            if ln.text in Keys(st.view) then
              r.view == st.view && (r.tags == st.tags + {ln.at} || r == st)
            else
              r.tags == st.tags && (Keys(r.view) == Keys(st.view) + {ln.text} || r == st)
    ensures |Keys(st.view) - {ln.text}| < Budget(|st.view|) ==>
            var r := FillLine(hash, st, ln);
            if ln.text in Keys(st.view) then r.tags == st.tags + {ln.at}
            else Keys(r.view) == Keys(st.view) + {ln.text}
    ensures |Keys(st.view) - {ln.text}| + 1 < Budget(|st.view|) ==> FillLine(hash, st, ln).ok
  {
    var v, n := st.view, |st.view|;
    var h := Home(hash, ln.text, n);
    ProbeAnswers(hash, v, ln.text, Budget(n));
    ProbeLength(v, ln.text, h, Budget(n));
    if Probe(v, ln.text, h, 0, Budget(n)).Free? { InsertKeeps(hash, v, ln.text, Budget(n)); }
  }

  /** Whatever the load, a tagged line repeats an earlier line that is not tagged, and the table
      holds only texts of lines that are not tagged. */
  lemma {:induction false} FillSound(hash: Hash, st: Fill, ls: seq<Line>, seen: set<Text>)
    requires Indexed(hash, st.view) && Keys(st.view) <= seen
    requires Increasing(ls) && forall ln | ln in ls :: ln.at !in st.tags
    ensures var r := FillLines(hash, st, ls);
            Indexed(hash, r.view) && Redundant(ls, r.tags, seen) &&
            Keys(r.view) <= seen + TextSet(Untagged(ls, r.tags))
    decreases |ls|
  {
    if ls == [] {
    } else if !st.ok {
      NoneRedundant(ls, st.tags, seen);
    } else {
      var ln, rest := ls[0], ls[1..];
      var st' := FillLine(hash, st, ln);
      var r := FillLines(hash, st', rest);
      assert forall l | l in rest :: l in ls;
      LineEffect(hash, st, ln);
      FillTags(hash, st', rest);
      UntaggedCons(ls, r.tags);
      if st'.tags != st.tags {
        assert ln.at in r.tags;
        FillSound(hash, st', rest, seen);
      } else {
        assert ln.at !in r.tags;
        FillSound(hash, st', rest, seen + {ln.text});
      }
    }
  }

  lemma UntaggedCons(ls: seq<Line>, tags: set<nat>)
    requires ls != []
    ensures TextSet(Untagged(ls, tags)) ==
            (if ls[0].at in tags then {} else {ls[0].text}) + TextSet(Untagged(ls[1..], tags))
  {
    if ls[0].at in tags {
      assert Untagged(ls, tags) == Untagged(ls[1..], tags);
    } else {
      assert Untagged(ls, tags)[1..] == Untagged(ls[1..], tags);
    }
  }

  lemma {:induction false} NoneRedundant(ls: seq<Line>, tags: set<nat>, seen: set<Text>)
    requires forall ln | ln in ls :: ln.at !in tags
    ensures Redundant(ls, tags, seen)
  {
    if ls != [] {
      assert ls[0] in ls && forall ln | ln in ls[1..] :: ln in ls;
      NoneRedundant(ls[1..], tags, seen + {ls[0].text});
    }
  }

  /** Below the load bound the error exit is not taken; below it or at it, every distinct text is
      indexed unless the error exit is taken. */
  lemma {:induction false} FillComplete(hash: Hash, st: Fill, ls: seq<Line>)
    requires Indexed(hash, st.view) && st.ok
    requires |Keys(st.view)| + |Keep(ls, Keys(st.view))| <= Budget(|st.view|)
    ensures var r := FillLines(hash, st, ls);
            Indexed(hash, r.view) &&
            (|Keys(st.view)| + |Keep(ls, Keys(st.view))| < Budget(|st.view|) ==> r.ok) &&
            (r.ok ==> Keys(r.view) == Keys(st.view) + TextSet(ls))
    decreases |ls|
  {
    if ls != [] {
      LoadLeft(ls, Keys(st.view), Budget(|st.view|));
      LineEffect(hash, st, ls[0]);
      var st' := FillLine(hash, st, ls[0]);
      assert Keys(st'.view) == Keys(st.view) + {ls[0].text};
      if st'.ok { FillComplete(hash, st', ls[1..]); }
    }
  }

  /** Below the load bound or at it, every repetition is tagged unless the error exit is taken. */
  lemma {:induction false} FillExact(hash: Hash, st: Fill, ls: seq<Line>)
    requires Indexed(hash, st.view) && st.ok
    requires Increasing(ls) && forall ln | ln in ls :: ln.at !in st.tags
    requires |Keys(st.view)| + |Keep(ls, Keys(st.view))| <= Budget(|st.view|)
    ensures var r := FillLines(hash, st, ls); r.ok ==> Untagged(ls, r.tags) == Keep(ls, Keys(st.view))
    decreases |ls|
  {
    if ls != [] {
      var ln, rest, keys := ls[0], ls[1..], Keys(st.view);
      var st' := FillLine(hash, st, ln);
      assert forall l | l in rest :: l in ls;
      LoadLeft(ls, keys, Budget(|st.view|));
      LineEffect(hash, st, ln);
      FillTags(hash, st', rest);
      assert Keys(st'.view) == keys + {ln.text};
      if st'.ok {
        FillExact(hash, st', rest);
        UntaggedFirst(ls, FillLines(hash, st', rest).tags);
        if ln.text in keys { assert keys + {ln.text} == keys; }
      }
    }
  }

  lemma UntaggedFirst(ls: seq<Line>, tags: set<nat>)
    requires ls != []
    ensures var rest := Untagged(ls[1..], tags);
            Untagged(ls, tags) == if ls[0].at in tags then rest else [ls[0]] + rest
  { }

  /** A line of a chunk within the load bound leaves the rest within it. */
  lemma LoadLeft(ls: seq<Line>, keys: set<Text>, budget: nat)
    requires ls != [] && |keys| + |Keep(ls, keys)| <= budget
    ensures var x, load := ls[0].text, |keys| + |Keep(ls, keys)|;
            |keys - {x}| < budget && (load < budget ==> |keys - {x}| + 1 < budget) &&
            |keys + {x}| + |Keep(ls[1..], keys + {x})| == load
  {
    var x := ls[0].text;
    if x in keys {
      assert keys + {x} == keys;
      assert |keys| == |keys - {x}| + 1;
    } else {
      assert keys - {x} == keys;
    }
  }

  // ---------------------------------------------------------------- cleanout_chunk

  /** `cleanout_chunk` part-way: the lines tagged and logged so far, and whether its look-ups have
      all ended. */
  datatype Sweep = Sweep(tags: set<nat>, log: seq<Text>, live: bool)

  function SweepLine(hash: Hash, v: View, st: Sweep, ln: Line): Sweep
    requires 0 < |v|
  {
    match Probe(v, ln.text, Home(hash, ln.text, |v|), 0, |v|)
    case Free(_) => st
    case Match(_) => st.(tags := st.tags + {ln.at}, log := st.log + [ln.text])
    case Spent => st.(live := false)
  }

  function SweepLines(hash: Hash, v: View, st: Sweep, ls: seq<Line>): Sweep
    requires 0 < |v|
    decreases |ls|
  {
    if ls == [] || !st.live then st else SweepLines(hash, v, SweepLine(hash, v, st, ls[0]), ls[1..])
  }

  /** The places of the lines of `ls` whose text is in `keys`. */
  function Doomed(ls: seq<Line>, keys: set<Text>): set<nat>
  {
    set ln | ln in ls && ln.text in keys :: ln.at
  }

  /** The lines of `ls` whose text is not in `keys`. */
  function Minus(ls: seq<Line>, keys: set<Text>): seq<Line>
  {
    if ls == [] then []
    else (if ls[0].text in keys then [] else [ls[0]]) + Minus(ls[1..], keys)
  }

  /** Over an indexed table, sweeping tags lines of the indexed set only; all of them when it ends,
      and it does end when the table has an empty slot. */
  lemma {:induction false} SweepMeans(hash: Hash, v: View, st: Sweep, ls: seq<Line>)
    requires Indexed(hash, v) && st.live
    ensures var r := SweepLines(hash, v, st, ls);
            st.tags <= r.tags <= st.tags + Doomed(ls, Keys(v)) &&
            (r.live ==> r.tags == st.tags + Doomed(ls, Keys(v))) &&
            (HasRoom(v) ==> r.live)
    decreases |ls|
  {
    if ls != [] {
      var x := ls[0].text;
      ProbeAnswers(hash, v, x, |v|);
      if HasRoom(v) { RoomEnds(v, x, Home(hash, x, |v|)); }
      DoomedCons(ls, Keys(v));
      var st' := SweepLine(hash, v, st, ls[0]);
      if st'.live { SweepMeans(hash, v, st', ls[1..]); }
    }
  }

  lemma DoomedCons(ls: seq<Line>, keys: set<Text>)
    requires ls != []
    ensures Doomed(ls, keys) == (if ls[0].text in keys then {ls[0].at} else {}) + Doomed(ls[1..], keys)
  {
    assert forall ln :: ln in ls <==> ln == ls[0] || ln in ls[1..];
  }

  lemma DoomedAppend(a: seq<Line>, b: seq<Line>, keys: set<Text>)
    ensures Doomed(a + b, keys) == Doomed(a, keys) + Doomed(b, keys)
  {
    assert forall ln :: ln in a + b <==> ln in a || ln in b;
  }

  /** Removing the doomed lines leaves exactly the lines whose text is not indexed. */
  lemma {:induction false} DoomedRemoved(ls: seq<Line>, keys: set<Text>)
    requires Increasing(ls)
    ensures Untagged(ls, Doomed(ls, keys)) == Minus(ls, keys)
  {
    if ls != [] {
      var ln, rest := ls[0], ls[1..];
      DoomedCons(ls, keys);
      DoomedRemoved(rest, keys);
      UntaggedAgree(rest, Doomed(ls, keys), Doomed(rest, keys));
      assert ln.text !in keys ==> ln.at !in Doomed(ls, keys);
    }
  }

  lemma {:induction false} MinusTexts(ls: seq<Line>, keys: set<Text>)
    ensures TextSet(Minus(ls, keys)) == TextSet(ls) - keys
  {
    if ls != [] {
      MinusTexts(ls[1..], keys);
      if ls[0].text in keys {
        assert Minus(ls, keys) == Minus(ls[1..], keys);
      } else {
        assert Minus(ls, keys)[1..] == Minus(ls[1..], keys);
      }
    }
  }

  /** Tagging any lines whose texts were seen before is redundant. */
  lemma {:induction false} SeenRedundant(ls: seq<Line>, tags: set<nat>, seen: set<Text>)
    requires forall ln | ln in ls && ln.at in tags :: ln.text in seen
    ensures Redundant(ls, tags, seen)
  {
    if ls != [] {
      assert forall ln | ln in ls[1..] :: ln in ls;
      SeenRedundant(ls[1..], tags, if ls[0].at in tags then seen else seen + {ls[0].text});
    }
  }
}
