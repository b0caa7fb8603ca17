/** src/hmap.c: indexing a chunk. */
module Hmap {
  import opened Lines
  import opened Words
  import opened Index
  import opened Probing
  import opened TaggedLine
  import opened State

  /** `size_t` wraps below zero. */
  function PostDecrement(n: nat): nat { if n == 0 then TWO_64 - 1 else n - 1 }

  lemma AtStep(h: nat, i: nat, n: nat)
    requires h < n && i < n
    ensures (At(h, i, n) + 1) % n == At(h, i + 1, n)
  {
    AtIsTurn(At(h, i, n), 1, n);
  }

  /** Where the probe loop of `populate_hmap` has stopped, after `m` slots that hold other texts than `x`,
      which hashes to `a`: at a slot, counting whether it could have looked at one more, or, having looked at
      seven tenths of the slots, with a counter that has wrapped. */
  predicate Stopped(v: View, x: Text, a: nat, m: nat, slot: nat, isSet: bool, isSame: bool, hasSlots: nat)
  {
    && 0 < |v| && 10 * m <= 7 * |v| && Others(v, x, a, a + m)
    && if 7 * |v| < 10 * (m + 1) then isSet && !isSame && hasSlots != 0
       else slot == (a + m) % |v| && (isSet <==> v[slot].Some?) && (isSame <==> v[slot] == Some(x)) &&
            (isSet ==> isSame) && (hasSlots == 0 <==> 7 * |v| < 10 * (m + 2))
  }

  /** The probe loop of `populate_hmap`: looks for the line at `ptr` or for an empty slot, and
      counts the budget down in an unsigned variable that wraps. */
  method FindSlot(g: Globals, ptr: nat, size: nat, ghost v: View, ghost lo: nat, ghost hi: nat)
    returns (slot: nat, isSet: bool, isSame: bool, hasSlots: nat)
    requires g.Fits() && ptr + size <= g.data.Length && hi <= g.data.Length
    requires TableIs(g.base, g.data[..], g.slots[..], v, lo, hi)
    ensures slot < g.slots.Length && (isSame ==> isSet)
    ensures var n, x := g.slots.Length, Cut(g.data[..], ptr, ptr + size);
            var h := Home(g.hash, x, n);
            match Probe(v, x, h, 0, Budget(n))
            case Free(i) => !isSet && slot == At(h, i, n) && (hasSlots == 0 <==> i + 1 == Budget(n))
            case Match(i) => isSame && (hasSlots == 0 <==> i + 1 == Budget(n))
            case Spent => isSet && !isSame && hasSlots != 0
    ensures var x := Cut(g.data[..], ptr, ptr + size);
            exists m: nat :: Stopped(v, x, g.hash(x), m, slot, isSet, isSame, hasSlots)
  {
    var x := Cut(g.data[..], ptr, ptr + size);
    var n := g.slots.Length;
    slot := Home(g.hash, x, n);
    hasSlots := n * 7 / 10;
    isSet, isSame := true, false;
    ghost var h, i := slot, 0;
    while true
      invariant i <= Budget(n) && hasSlots == Budget(n) - i && slot == At(h, i, n)
      invariant Probe(v, x, h, 0, Budget(n)) == Probe(v, x, h, i, Budget(n))
      decreases Budget(n) - i
    {
      var left := hasSlots;
      hasSlots := PostDecrement(hasSlots);
      if left == 0 {
        break;
      }
      var item := g.slots[slot];
      assert EntryIs(g.base, g.data[..], item, v[slot], lo, hi);
      if !LineIsSet(item) {
        isSet := false;
        break;
      }
      var differ := CmpLine(g, item, ptr, size, v[slot], lo, hi);
      if !differ {
        isSame := true;
        break;
      }
      AtStep(h, i, n);
      slot, i := (slot + 1) % n, i + 1;
    }
    StopsAt(g.hash, v, x, i, slot, isSet, isSame, hasSlots);
  }

  /** The probe that a loop has carried out, slot by slot. */
  lemma StopsAt(hash: Hash, v: View, x: Text, i: nat, slot: nat, isSet: bool, isSame: bool, hasSlots: nat)
    requires 0 < |v| && i <= Budget(|v|) && slot == At(Home(hash, x, |v|), i, |v|)
    requires var f := Probe(v, x, Home(hash, x, |v|), 0, Budget(|v|));
             if f.Spent? then i == Budget(|v|) && isSet && !isSame && hasSlots != 0
             else i == f.i && (isSet <==> f.Match?) && (isSame <==> f.Match?) &&
                  (hasSlots == 0 <==> i + 1 == Budget(|v|))
    ensures Stopped(v, x, hash(x), i, slot, isSet, isSame, hasSlots)
  {
    ProbeMeans(hash, v, x, Budget(|v|));
    RoundOnce(hash(x), i, |v|);
  }

  /** Uses a free slot for the line at `ptr`. */
  method InsertLine(g: Globals, slot: nat, ptr: nat, size: nat, ghost v: View, ghost lo: nat, ghost hi: nat)
    requires g.Fits() && lo <= ptr < ptr + size <= hi <= g.data.Length && size <= 4095 && slot < g.slots.Length
    requires TableIs(g.base, g.data[..], g.slots[..], v, lo, hi)
    modifies g.slots
    ensures TableIs(g.base, g.data[..], g.slots[..], v[slot := Some(Cut(g.data[..], ptr, ptr + size))], lo, hi)
  {
    TableInsert(g.base, g.data[..], g.slots[..], v, lo, hi, slot, ptr, size);
    g.slots[slot] := MakeLine(g.base + ptr, size);
  }

  /** Logs and tags the line at `ptr`. */
  method TagLine(g: Globals, ptr: nat, size: nat)
    requires 0 < size && ptr + size <= g.data.Length
    modifies g.data, g`dupfile
    ensures g.data[..] == old(g.data[..])[ptr := DISABLED]
    ensures g.dupfile == old(g.dupfile) + if g.hasDupfile then [Cut(old(g.data[..]), ptr, ptr + size)] else []
  {
    LogDuplicate(g, ptr, size);
    g.data[ptr] := DISABLED;
  }

  /** Indexes or tags the line at `ptr`. `ok` is false when the program takes its error exit. */
  method IndexLine(g: Globals, ptr: nat, size: nat, ghost st: Fill, ghost lo: nat, ghost hi: nat)
    returns (dup: bool, ok: bool)
    requires g.Fits() && lo <= ptr < ptr + size <= hi <= g.data.Length && size <= 4095
    requires TableIs(g.base, g.data[..], g.slots[..], st.view, lo, hi) && st.ok
    modifies g.slots, g.data, g`dupfile
    ensures var x := Cut(old(g.data[..]), ptr, ptr + size);
            var r := FillLine(g.hash, st, Line(ptr, x));
            TableIs(g.base, old(g.data[..]), g.slots[..], r.view, lo, hi)
            && g.data[..] == old(g.data[..])[ptr := if dup then DISABLED else old(g.data[ptr])]
            && r.tags == (if dup then st.tags + {ptr} else st.tags)
            && r.log == (if dup then st.log + [x] else st.log)
            && r.ok == ok && (dup ==> r.view == st.view && g.slots[..] == old(g.slots[..]))
            && g.dupfile == old(g.dupfile) + (if dup && g.hasDupfile then [x] else [])
  {
    var slot, isSet, isSame, hasSlots := FindSlot(g, ptr, size, st.view, lo, hi);
    if !isSet {
      InsertLine(g, slot, ptr, size, st.view, lo, hi);
    } else if isSame {
      TagLine(g, ptr, size);
    }
    dup, ok := isSame, hasSlots != 0;
  }

  /** `memset` on the table. */
  method ClearTable(g: Globals)
    modifies g.slots
    ensures forall k | 0 <= k < g.slots.Length :: g.slots[k] == 0
  {
    var k := 0;
    while k < g.slots.Length
      invariant 0 <= k <= g.slots.Length
      invariant forall j | 0 <= j < k :: g.slots[j] == 0
    {
      g.slots[k] := 0;
      k := k + 1;
    }
  }

  /** What `populate_hmap` has done to the file, the table and the duplicates file when it has come
      to `p`. */
  ghost predicate Progress(g: Globals, s: seq<Byte>, logged: seq<Text>, st: Fill, lo: nat, p: nat)
    reads g.data, g.slots, g`dupfile
  {
    && p <= g.data.Length == |s|
    && g.data[..] == Tag(s, st.tags)
    && (forall a | a in st.tags :: lo <= a < p)
    && TableIs(g.base, g.data[..], g.slots[..], st.view, lo, p)
    && g.dupfile == logged + (if g.hasDupfile then st.log else [])
  }

  /** Indexing one line carries the progress past it. */
  method Advance(g: Globals, ptr: nat, size: nat, ghost s: seq<Byte>, ghost logged: seq<Text>,
                 ghost st: Fill, ghost lo: nat, ghost p: nat, ghost q: nat)
    returns (dup: bool, ok: bool)
    requires g.Fits() && lo <= p <= ptr < ptr + size <= q <= g.data.Length && size <= 4095
    requires Progress(g, s, logged, st, lo, p) && st.ok
    modifies g.slots, g.data, g`dupfile
    ensures var x := Cut(s, ptr, ptr + size);
            var r := FillLine(g.hash, st, Line(ptr, x));
            Progress(g, s, logged, r, lo, q)
            && r.log == (if dup then st.log + [x] else st.log)
            && r.ok == ok
  {
    ghost var t, words := g.data[..], g.slots[..];
    assert Cut(t, ptr, ptr + size) == Cut(s, ptr, ptr + size);
    TableFrame(g.base, t, t, words, st.view, lo, p, ptr + size);
    dup, ok := IndexLine(g, ptr, size, st, lo, ptr + size);
    if dup {
      TableFrame(g.base, t, g.data[..], words, st.view, lo, p, q);
      assert g.data[..] == Tag(s, st.tags + {ptr});
    } else {
      assert g.data[..] == t;
      ghost var view := FillLine(g.hash, st, Line(ptr, Cut(s, ptr, ptr + size))).view;
      TableFrame(g.base, t, t, g.slots[..], view, lo, ptr + size, q);
    }
  }

  /** `get_next_line` on a buffer that, from here on, is still the original one. */
  method NextOf(c: Filter, data: array<Byte>, chunk: Chunk, ghost s: seq<Byte>)
    returns (found: bool, lnptr: nat, lnsz: nat)
    requires 0 <= chunk.ptr <= chunk.endptr <= data.Length == |s|
    requires forall k | chunk.ptr <= k < chunk.endptr :: s[k] == data[k]
    modifies chunk`ptr
    ensures old(chunk.ptr) <= chunk.ptr <= chunk.endptr
    ensures found ==> old(chunk.ptr) <= lnptr < lnptr + lnsz <= chunk.ptr && lnsz <= c.lineMax
    ensures Parse(c, s, old(chunk.ptr), chunk.endptr) ==
            if found then [Line(lnptr, Cut(s, lnptr, lnptr + lnsz))] + Parse(c, s, chunk.ptr, chunk.endptr) else []
  {
    ghost var p, e := chunk.ptr, chunk.endptr;
    found, lnptr, lnsz := GetNextLine(c, data, chunk);
    YieldsSame(c, s, data[..], p, e, found, lnptr, lnsz, chunk.ptr);
  }

  lemma YieldsSame(c: Filter, s: seq<Byte>, t: seq<Byte>, p: nat, e: nat, found: bool, lnptr: nat, lnsz: nat, q: nat)
    requires p <= q <= e <= |s| == |t| && (forall k | p <= k < e :: s[k] == t[k])
    requires Yields(c, t, p, e, found, lnptr, lnsz, q)
    ensures found ==> p <= lnptr < lnptr + lnsz <= q && lnsz <= c.lineMax
    ensures Parse(c, s, p, e) ==
            if found then [Line(lnptr, Cut(s, lnptr, lnptr + lnsz))] + Parse(c, s, q, e) else []
  {
    ParseFrame(c, s, t, p, e);
    if found {
      ParseFrame(c, s, t, q, e);
      assert Cut(s, lnptr, lnptr + lnsz) == Cut(t, lnptr, lnptr + lnsz);
      FirstBounds(c, s, p, e);
    }
  }

  lemma FirstBounds(c: Filter, s: seq<Byte>, p: nat, e: nat)
    requires p <= e <= |s| && Parse(c, s, p, e) != []
    ensures |Parse(c, s, p, e)[0].text| <= c.lineMax
  {
    ParseBounds(c, s, p, e);
    assert LineIn(c, s, p, e, Parse(c, s, p, e)[0]);
  }

  lemma FillUnfolds(hash: Hash, st: Fill, ln: Line, rest: seq<Line>)
    requires 0 < |st.view| && st.ok
    ensures FillLines(hash, st, [ln] + rest) == FillLines(hash, FillLine(hash, st, ln), rest)
  {
    assert ([ln] + rest)[1..] == rest;
  }

  /** Reads and indexes the next line of `chunk`, if any. */
  method IndexNext(g: Globals, chunk: Chunk, ghost s: seq<Byte>, ghost logged: seq<Text>,
                   ghost st: Fill, ghost lo: nat)
    returns (found: bool, dup: bool, ok: bool, ghost st': Fill)
    requires g.Fits() && lo <= chunk.ptr <= chunk.endptr <= g.data.Length
    requires Progress(g, s, logged, st, lo, chunk.ptr) && st.ok
    modifies chunk`ptr, g.data, g.slots, g`dupfile
    ensures old(chunk.ptr) <= chunk.ptr <= chunk.endptr
    ensures found ==> old(chunk.ptr) < chunk.ptr
    ensures Progress(g, s, logged, st', lo, chunk.ptr) && st'.ok == ok && |st'.view| == |st.view|
    ensures FillLines(g.hash, st', if found then Parse(g.conf, s, chunk.ptr, chunk.endptr) else []) ==
            FillLines(g.hash, st, Parse(g.conf, s, old(chunk.ptr), chunk.endptr))
    ensures |st'.log| == |st.log| + if dup then 1 else 0
  {
    ghost var p := chunk.ptr;
    var lnptr, lnsz;
    found, lnptr, lnsz := NextOf(g.conf, g.data, chunk, s);
    dup, ok, st' := false, true, st;
    if found {
      ghost var ln := Line(lnptr, Cut(s, lnptr, lnptr + lnsz));
      dup, ok := Advance(g, lnptr, lnsz, s, logged, st, lo, p, chunk.ptr);
      st' := FillLine(g.hash, st, ln);
      FillUnfolds(g.hash, st, ln, Parse(g.conf, s, chunk.ptr, chunk.endptr));
    } else {
      TableFrame(g.base, g.data[..], g.data[..], g.slots[..], st.view, lo, p, chunk.ptr);
    }
  }

  /** `populate_hmap`: indexes the lines of `chunk` and tags those that repeat an indexed line.
      The buffer, the table, the duplicates file and the counter end as `Populate` says; `ok` is
      false when the program takes its error exit. */
  method PopulateHmap(g: Globals, chunk: Chunk) returns (ok: bool)
    requires g.Fits() && 0 <= chunk.ptr <= chunk.endptr <= g.data.Length
    modifies chunk`ptr, g.data, g.slots, g`dupfile, g.status`duplicates
    ensures old(chunk.ptr) <= chunk.ptr <= chunk.endptr
    ensures var s, lo := old(g.data[..]), old(chunk.ptr);
            var r := Populate(g.hash, g.slots.Length, Parse(g.conf, s, lo, chunk.endptr));
            Progress(g, s, old(g.dupfile), r, lo, chunk.ptr)
            && ok == r.ok
            && g.status.duplicates == old(g.status.duplicates) + (if ok then |r.log| else 0)
  {
    ghost var s, logged, lo, e := g.data[..], g.dupfile, chunk.ptr, chunk.endptr;
    ghost var all := Populate(g.hash, g.slots.Length, Parse(g.conf, s, lo, e));
    ghost var st := Fill(Blank(g.slots.Length), {}, [], true);
    var duplicates := 0;
    ClearTable(g);
    assert g.data[..] == Tag(s, {});
    var found := true;
    while found
      invariant lo <= chunk.ptr <= e == chunk.endptr && |st.view| == g.slots.Length && st.ok
      invariant FillLines(g.hash, st, if found then Parse(g.conf, s, chunk.ptr, e) else []) == all
      invariant Progress(g, s, logged, st, lo, chunk.ptr)
      invariant duplicates == |st.log| && g.status.duplicates == old(g.status.duplicates)
      decreases found, e - chunk.ptr
    {
      var dup, fine;
      found, dup, fine, st := IndexNext(g, chunk, s, logged, st, lo);
      if dup {
        duplicates := duplicates + 1;
      }
      if !fine {
        return false;
      }
    }
    g.status.duplicates := g.status.duplicates + duplicates;
    ok := true;
  }
}
