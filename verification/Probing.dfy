/** What a probe of src/hmap.c and src/chunk.c looks at, slot by slot and in numbers: it starts at the
    hash modulo the size of the table, goes up one slot at a time and round at the end, and
    `populate_hmap` looks at seven tenths of the slots at most. */
module Probing {
  import opened Lines
  import opened Index

  /** The slot `k` of a table that goes round. */
  function Nth(v: View, k: nat): Option<Text>
    requires 0 < |v|
  {
    v[k % |v|]
  }

  /** The slots from `a` up to `b` hold texts other than `x`. */
  predicate Others(v: View, x: Text, a: nat, b: nat)
    requires 0 < |v|
  {
    forall k: nat | a <= k < b :: Nth(v, k).Some? && Nth(v, k).value != x
  }

  lemma Apart(n: nat, p: nat, q: nat)
    requires p < q
    ensures p * n + n <= q * n
  {
    var d := q - p - 1;
    assert 0 <= d * n;
    assert q * n == (p + 1 + d) * n == p * n + n + d * n;
  }

  lemma Quotient(a: nat, n: nat)
    requires 0 < n
    ensures a == (a / n) * n + a % n
  { }

  /** Quotient and remainder are unique. */
  lemma DivMod(a: nat, n: nat, q: nat, r: nat)
    requires r < n && a == q * n + r
    ensures a % n == r
  {
    Quotient(a, n);
    if a / n < q { Apart(n, a / n, q); }
    if q < a / n { Apart(n, q, a / n); }
  }

  /** The home of a text is what is left of its hash when whole tables are taken off. */
  lemma HomeIs(hash: Hash, x: Text, n: nat, q: nat, r: nat)
    requires r < n && hash(x) == q * n + r
    ensures Home(hash, x, n) == r
  {
    DivMod(hash(x), n, q, r);
  }

  lemma RoundOnce(a: nat, i: nat, n: nat)
    requires 0 < n && i <= n
    ensures At(a % n, i, n) == (a + i) % n
  {
    var q, r := a / n, a % n;
    Quotient(a, n);
    if r + i < n {
      DivMod(a + i, n, q, r + i);
    } else {
      assert (q + 1) * n == q * n + n;
      DivMod(a + i, n, q + 1, r + i - n);
    }
  }

  /** A probe passes slots with other texts, from the hash on, up to an empty slot, its own text, or the
      end of its budget. */
  lemma ProbeMeans(hash: Hash, v: View, x: Text, budget: nat)
    requires 0 < |v| && budget <= |v|
    ensures var a, f := hash(x), Probe(v, x, Home(hash, x, |v|), 0, budget);
            Others(v, x, a, a + if f.Spent? then budget else f.i) &&
            (f.Free? ==> Nth(v, a + f.i).None?) && (f.Match? ==> Nth(v, a + f.i) == Some(x))
  {
    var a, n, h := hash(x), |v|, Home(hash, x, |v|);
    var f := Probe(v, x, h, 0, budget);
    var m := if f.Spent? then budget else f.i;
    ProbePath(v, x, h, 0, budget);
    forall k: nat | a <= k < a + m ensures Nth(v, k).Some? && Nth(v, k).value != x {
      RoundOnce(a, k - a, n);
      assert v[At(h, k - a, n)].Some?;
    }
    if !f.Spent? { RoundOnce(a, f.i, n); }
  }

  /** What `populate_hmap` does with a line, in a table of `n` slots: it passes `m` slots that hold other
      texts. When it may look at no more it leaves the line out; else it stores it in the next slot or, if
      that holds its text, tags and logs it; and it exits if it could not have looked at one more. */
  lemma FillLineMeans(hash: Hash, st: Fill, ln: Line) returns (m: nat)
    requires 0 < |st.view|
    ensures var n, a, x, r := |st.view|, hash(ln.text), ln.text, FillLine(hash, st, ln);
            10 * m <= 7 * n && Others(st.view, x, a, a + m) &&
            if 7 * n < 10 * (m + 1) then r == st
            else
              var k, ok := (a + m) % n, 10 * (m + 2) <= 7 * n;
              if st.view[k].None? then r == Fill(st.view[k := Some(x)], st.tags, st.log, ok)
              else st.view[k] == Some(x) && r == Fill(st.view, st.tags + {ln.at}, st.log + [x], ok)
  {
    var n, x := |st.view|, ln.text;
    var f := Probe(st.view, x, Home(hash, x, n), 0, Budget(n));
    ProbeMeans(hash, st.view, x, Budget(n));
    m := if f.Spent? then Budget(n) else f.i;
    RoundOnce(hash(x), m, n);
  }

  /** What `cleanout_chunk` does with a line: it passes `m` slots that hold other texts, up to an empty one,
      or one that holds its text, when it tags and logs it; or it goes round for ever. */
  lemma SweepLineMeans(hash: Hash, v: View, st: Sweep, ln: Line) returns (m: nat)
    requires 0 < |v|
    ensures var n, a, x, r := |v|, hash(ln.text), ln.text, SweepLine(hash, v, st, ln);
            m <= n && Others(v, x, a, a + m) &&
            if m == n then r == st.(live := false)
            else
              var k := (a + m) % n;
              if v[k].None? then r == st
              else v[k] == Some(x) && r == st.(tags := st.tags + {ln.at}, log := st.log + [x])
  {
    var n, x := |v|, ln.text;
    var f := Probe(v, x, Home(hash, x, n), 0, n);
    ProbeMeans(hash, v, x, n);
    m := if f.Spent? then n else f.i;
    RoundOnce(hash(x), m, n);
  }

  /** A line whose home is free is stored there, and found there by the look-up. */
  lemma StoredAtHome(hash: Hash, st: Fill, ln: Line, q: nat, r: nat, sw: Sweep, at: nat)
    requires 2 <= |st.view| && r < |st.view| && hash(ln.text) == q * |st.view| + r && st.view[r].None?
    ensures FillLine(hash, st, ln).view == st.view[r := Some(ln.text)]
    ensures SweepLine(hash, st.view[r := Some(ln.text)], sw, Line(at, ln.text)) ==
            sw.(tags := sw.tags + {at}, log := sw.log + [ln.text])
  {
    HomeIs(hash, ln.text, |st.view|, q, r);
  }
}
