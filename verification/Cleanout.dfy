/** src/chunk.c, `cleanout_chunk`: tagging the lines of a chunk that the table holds. */
module Cleanout {
  import opened Lines
  import opened Index
  import opened Probing
  import opened TaggedLine
  import opened State
  import opened Hmap

  /** How the look-up of `x`, which hashes to `a`, ends after `m` slots that hold other texts: at its text or
      an empty slot, or not at all. */
  predicate LookedUp(v: View, x: Text, a: nat, m: nat, same: bool, ends: bool)
  {
    && 0 < |v| && m <= |v| && Others(v, x, a, a + m)
    && if m == |v| then !same && !ends
       else ends && if same then v[(a + m) % |v|] == Some(x) else v[(a + m) % |v|].None?
  }

  /** The look-up loop of `cleanout_chunk`. It has no budget: `ends` is false when it runs forever,
      which it does as soon as it comes back to where it started. */
  method LookUp(g: Globals, ptr: nat, size: nat, ghost v: View, ghost lo: nat, ghost hi: nat)
    returns (same: bool, ends: bool)
    requires g.Fits() && ptr + size <= g.data.Length && hi <= g.data.Length
    requires TableIs(g.base, g.data[..], g.slots[..], v, lo, hi)
    ensures var x := Cut(g.data[..], ptr, ptr + size);
            var f := Probe(v, x, Home(g.hash, x, |v|), 0, |v|);
            same == f.Match? && ends == !f.Spent?
    ensures var x := Cut(g.data[..], ptr, ptr + size);
            exists m: nat :: LookedUp(v, x, g.hash(x), m, same, ends)
  {
    EndsAt(g.hash, v, Cut(g.data[..], ptr, ptr + size));
    var x := Cut(g.data[..], ptr, ptr + size);
    var n := g.slots.Length;
    var slot := Home(g.hash, x, n);
    ghost var h := slot;
    var i := 0;
    while LineIsSet(g.slots[slot])
      invariant i < n && slot == At(h, i, n)
      invariant Probe(v, x, h, 0, n) == Probe(v, x, h, i, n)
      decreases n - i
    {
      assert EntryIs(g.base, g.data[..], g.slots[slot], v[slot], lo, hi);
      var differ := CmpLine(g, g.slots[slot], ptr, size, v[slot], lo, hi);
      if !differ {
        return true, true;
      }
      AtStep(h, i, n);
      slot, i := (slot + 1) % n, i + 1;
      if i == n {
        return false, false;
      }
    }
    assert EntryIs(g.base, g.data[..], g.slots[slot], v[slot], lo, hi);
    return false, true;
  }

  lemma EndsAt(hash: Hash, v: View, x: Text)
    requires 0 < |v|
    ensures var f := Probe(v, x, Home(hash, x, |v|), 0, |v|);
            LookedUp(v, x, hash(x), if f.Spent? then |v| else f.i, f.Match?, !f.Spent?)
  {
    ProbeMeans(hash, v, x, |v|);
  }

  /** What `cleanout_chunk` has done to the file and the duplicates file when it has come to `p`. */
  ghost predicate Cleaned(g: Globals, s: seq<Byte>, logged: seq<Text>, v: View, lo: nat, hi: nat,
                          st: Sweep, b: nat, p: nat)
    reads g.data, g.slots, g`dupfile
  {
    && hi <= b <= p <= g.data.Length == |s|
    && g.data[..] == Tag(s, st.tags)
    && (forall a | a in st.tags :: b <= a < p)
    && TableIs(g.base, g.data[..], g.slots[..], v, lo, hi)
    && g.dupfile == logged + (if g.hasDupfile then st.log else [])
  }

  /** Tags the line at `ptr` if the table holds it. */
  method SweepOne(g: Globals, ptr: nat, size: nat, ghost s: seq<Byte>, ghost logged: seq<Text>, ghost v: View,
                  ghost lo: nat, ghost hi: nat, ghost st: Sweep, ghost b: nat, ghost p: nat, ghost q: nat)
    returns (dup: bool, live: bool)
    requires g.Fits() && b <= p <= ptr < ptr + size <= q <= g.data.Length
    requires Cleaned(g, s, logged, v, lo, hi, st, b, p) && st.live
    modifies g.data, g`dupfile
    ensures var r := SweepLine(g.hash, v, st, Line(ptr, Cut(s, ptr, ptr + size)));
            Cleaned(g, s, logged, v, lo, hi, r, b, q) && r.live == live && |r.log| == |st.log| + if dup then 1 else 0
  {
    ghost var t := g.data[..];
    ghost var x := Cut(s, ptr, ptr + size);
    assert Cut(t, ptr, ptr + size) == x;
    dup, live := LookUp(g, ptr, size, v, lo, hi);
    if dup {
      TagLine(g, ptr, size);
      assert g.data[..] == Tag(s, st.tags + {ptr});
      TableFrame(g.base, t, g.data[..], g.slots[..], v, lo, hi, hi);
    }
  }

  /** Reads and sweeps the next line of `chunk`, if any. */
  method SweepNext(g: Globals, chunk: Chunk, ghost s: seq<Byte>, ghost logged: seq<Text>,
                   ghost v: View, ghost lo: nat, ghost hi: nat, ghost st: Sweep, ghost b: nat)
    returns (found: bool, dup: bool, live: bool, ghost st': Sweep)
    requires g.Fits() && b <= chunk.ptr <= chunk.endptr <= g.data.Length
    requires Cleaned(g, s, logged, v, lo, hi, st, b, chunk.ptr) && st.live
    modifies chunk`ptr, g.data, g`dupfile
    ensures old(chunk.ptr) <= chunk.ptr <= chunk.endptr
    ensures found ==> old(chunk.ptr) < chunk.ptr
    ensures |v| > 0 && Cleaned(g, s, logged, v, lo, hi, st', b, chunk.ptr) && st'.live == live
    ensures SweepLines(g.hash, v, st', if found then Parse(g.conf, s, chunk.ptr, chunk.endptr) else []) ==
            SweepLines(g.hash, v, st, Parse(g.conf, s, old(chunk.ptr), chunk.endptr))
    ensures |st'.log| == |st.log| + if dup then 1 else 0
  {
    ghost var p := chunk.ptr;
    var lnptr, lnsz;
    found, lnptr, lnsz := NextOf(g.conf, g.data, chunk, s);
    dup, live, st' := false, true, st;
    if found {
      ghost var ln := Line(lnptr, Cut(s, lnptr, lnptr + lnsz));
      dup, live := SweepOne(g, lnptr, lnsz, s, logged, v, lo, hi, st, b, p, chunk.ptr);
      st' := SweepLine(g.hash, v, st, ln);
      SweepUnfolds(g.hash, v, st, ln, Parse(g.conf, s, chunk.ptr, chunk.endptr));
    }
  }

  lemma SweepUnfolds(hash: Hash, v: View, st: Sweep, ln: Line, rest: seq<Line>)
    requires 0 < |v| && st.live
    ensures SweepLines(hash, v, st, [ln] + rest) == SweepLines(hash, v, SweepLine(hash, v, st, ln), rest)
  {
    assert ([ln] + rest)[1..] == rest;
  }

  /** `cleanout_chunk`: tags the lines of `chunk` that the table `v` of an earlier chunk holds, and
      counts its task as done; `live` is false when a look-up runs forever. */
  method CleanoutChunk(g: Globals, chunk: Chunk, ghost v: View, ghost lo: nat, ghost hi: nat) returns (live: bool)
    requires g.Fits() && hi <= chunk.ptr <= chunk.endptr <= g.data.Length
    requires TableIs(g.base, g.data[..], g.slots[..], v, lo, hi)
    modifies chunk`ptr, g.data, g`dupfile, g.status`duplicates, g.status`doneCtasks
    ensures old(chunk.ptr) <= chunk.ptr <= chunk.endptr && |v| > 0
    ensures var s, b := old(g.data[..]), old(chunk.ptr);
            var r := SweepLines(g.hash, v, Sweep({}, [], true), Parse(g.conf, s, b, chunk.endptr));
            Cleaned(g, s, old(g.dupfile), v, lo, hi, r, b, chunk.ptr)
            && live == r.live
            && g.status.duplicates == old(g.status.duplicates) + (if live then |r.log| else 0)
            && g.status.doneCtasks == old(g.status.doneCtasks) + (if live then 1 else 0)
  {
    ghost var s, logged, b, e := g.data[..], g.dupfile, chunk.ptr, chunk.endptr;
    assert |v| == g.slots.Length;
    ghost var st := Sweep({}, [], true);
    ghost var all := SweepLines(g.hash, v, st, Parse(g.conf, s, b, e));
    var duplicates := 0;
    assert g.data[..] == Tag(s, {});
    var found := true;
    while found
      invariant b <= chunk.ptr <= e == chunk.endptr && st.live
      invariant SweepLines(g.hash, v, st, if found then Parse(g.conf, s, chunk.ptr, e) else []) == all
      invariant Cleaned(g, s, logged, v, lo, hi, st, b, chunk.ptr)
      invariant duplicates == |st.log|
      invariant g.status.duplicates == old(g.status.duplicates) && g.status.doneCtasks == old(g.status.doneCtasks)
      decreases found, e - chunk.ptr
    {
      var dup, fine;
      found, dup, fine, st := SweepNext(g, chunk, s, logged, v, lo, hi, st, b);
      if dup {
        duplicates := duplicates + 1;
      }
      if !fine {
        return false;
      }
    }
    g.status.duplicates := g.status.duplicates + duplicates;
    g.status.doneCtasks := g.status.doneCtasks + 1;
    live := true;
  }
}
