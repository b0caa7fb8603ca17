/** src/main.c, `remove_duplicates`: rewriting the file in place without the tagged lines. */
module Compaction {
  import opened Lines
  import opened LineLists
  import opened State
  import opened Soundness

  // ---------------------------------------------------------------- specification

  /** The lines one after the other, each followed by a newline. */
  function Joined(ts: seq<Text>): seq<Byte>
  {
    if ts == [] then [] else ts[0] + [LF] + Joined(ts[1..])
  }

  /** The new contents of a file of `n` bytes: the last newline is left out when there is no room
      for it. */
  function Output(n: nat, ts: seq<Text>): seq<Byte>
  {
    if |Joined(ts)| <= n then Joined(ts) else Joined(ts)[..n]
  }

  /** What the loop writes after `out` for the lines `ls`: a newline goes after each line unless the
      write cursor is at the end of the file. */
  function Emit(out: seq<Byte>, n: nat, ls: seq<Line>): seq<Byte>
    decreases |ls|
  {
    if ls == [] then out
    else
      var more := out + ls[0].text;
      Emit(if |more| != n then more + [LF] else more, n, ls[1..])
  }

  /** Each line starts at `lo` or later, and ends at least one byte before the next one and not
      after `n`. */
  predicate Spaced(ls: seq<Line>, lo: nat, n: nat)
  {
    ls == [] || (lo <= ls[0].at && ls[0].at + |ls[0].text| <= n && Spaced(ls[1..], ls[0].at + |ls[0].text| + 1, n))
  }

  lemma {:induction false} SpacedFrom(ls: seq<Line>, lo: nat, lo': nat, n: nat)
    requires Spaced(ls, lo', n) && lo <= lo'
    ensures Spaced(ls, lo, n)
  { }

  lemma HeadSpaced(c: Filter, s: seq<Byte>, i: nat, e: nat)
    requires i < e <= |s|
    ensures forall ln | ln in Head(c, s, i, e) ::
              ln.at == i && i + |ln.text| <= Next(s, i, e) && (Next(s, i, e) < e ==> i + |ln.text| < Next(s, i, e))
  { }

  lemma {:induction false} ParseSpaced(c: Filter, s: seq<Byte>, i: nat, e: nat)
    requires i <= e <= |s|
    ensures Spaced(Parse(c, s, i, e), i, e)
    decreases e - i
  {
    if i < e {
      var m := Next(s, i, e);
      var head, rest := Head(c, s, i, e), Parse(c, s, m, e);
      ParseSpaced(c, s, m, e);
      HeadSpaced(c, s, i, e);
      if head == [] {
        assert Parse(c, s, i, e) == rest;
        SpacedFrom(rest, i, m, e);
      } else {
        assert Parse(c, s, i, e) == [head[0]] + rest;
        assert ([head[0]] + rest)[1..] == rest;
        if m < e { SpacedFrom(rest, i + |head[0].text| + 1, m, e); }
      }
    }
  }

  /** The loop writes the lines joined by newlines, less the last newline when the file is full. */
  lemma {:induction false} EmitIsJoined(out: seq<Byte>, n: nat, ls: seq<Line>, lo: nat)
    requires Spaced(ls, lo, n) && |out| <= lo && (ls == [] ==> |out| <= n)
    ensures var all := out + Joined(Texts(ls));
            Emit(out, n, ls) == if |all| <= n then all else all[..n]
    decreases |ls|
  {
    if ls != [] {
      var t, rest := ls[0].text, ls[1..];
      var more := out + t;
      var all := out + Joined(Texts(ls));
      assert all == more + [LF] + Joined(Texts(rest));
      if |more| != n {
        EmitIsJoined(more + [LF], n, rest, ls[0].at + |t| + 1);
      } else {
        assert rest == [];
        assert all[..n] == more;
      }
    }
  }

  /** `j` is at most one byte longer than `s[i..]`, and then it is it, with one byte after it. */
  predicate FitsIn(s: seq<Byte>, i: nat, j: seq<Byte>)
    requires i < |s|
  {
    |j| <= |s| - i + 1 &&
    (|j| == |s| - i + 1 ==> s[|s| - 1] != LF && forall k | i <= k < |s| :: j[k - i] == s[k])
  }

  /** The joined lines of `s[i..]` fit in it, but for a last newline. */
  lemma {:induction false} JoinedFits(c: Filter, s: seq<Byte>, i: nat)
    requires i < |s|
    ensures FitsIn(s, i, Joined(Texts(Parse(c, s, i, |s|))))
    decreases |s| - i
  {
    var m := Next(s, i, |s|);
    var head, tail := Head(c, s, i, |s|), Parse(c, s, m, |s|);
    assert Parse(c, s, i, |s|) == head + tail;
    HeadSpaced(c, s, i, |s|);
    if m < |s| { JoinedFits(c, s, m); }
    if head == [] {
      assert head + tail == tail;
    } else {
      HeadIs(c, s, i);
      JoinedCons(head[0], tail);
      assert head == [head[0]];
      JoinedHead(s, i, head[0].text, m, Joined(Texts(tail)), Joined(Texts([head[0]] + tail)));
    }
  }

  lemma HeadIs(c: Filter, s: seq<Byte>, i: nat)
    requires i < |s| && Head(c, s, i, |s|) != []
    ensures var t := Head(c, s, i, |s|)[0].text;
            0 < |t| && i + |t| <= |s| && forall k | 0 <= k < |t| :: t[k] == s[i + k] != LF
  { }

  lemma JoinedCons(ln: Line, ls: seq<Line>)
    ensures Joined(Texts([ln] + ls)) == ln.text + [LF] + Joined(Texts(ls))
  {
    TextsAppend([ln], ls);
    assert Texts([ln]) == [ln.text];
    assert ([ln.text] + Texts(ls))[1..] == Texts(ls);
  }

  lemma JoinedHead(s: seq<Byte>, i: nat, t: Text, m: nat, rest: seq<Byte>, j: seq<Byte>)
    requires i + |t| <= m <= |s| && i < |s| && 0 < |t| && (forall k | 0 <= k < |t| :: t[k] == s[i + k] != LF)
    requires if m < |s| then i + |t| < m && s[m - 1] == LF && FitsIn(s, m, rest) else rest == []
    requires j == t + [LF] + rest
    ensures FitsIn(s, i, j)
  {
    if |j| == |s| - i + 1 && m == |s| {
      assert s[|s| - 1] == t[|t| - 1];
    }
  }

  /** The last newline is left out exactly when the file does not end in a newline and is kept whole. */
  lemma NewlineLeftOut(c: Filter, s: seq<Byte>)
    requires s != []
    ensures var ts := Texts(All(c, s));
            |Joined(ts)| > |s| <==> s[|s| - 1] != LF && Output(|s|, ts) == s
  {
    var ts := Texts(All(c, s));
    JoinedFits(c, s, 0);
    if ts != [] { JoinedEnd(ts); }
  }

  lemma {:induction false} JoinedEnd(ts: seq<Text>)
    requires ts != []
    ensures Joined(ts) != [] && Joined(ts)[|Joined(ts)| - 1] == LF
  {
    if |ts| > 1 { JoinedEnd(ts[1..]); }
  }

  // ---------------------------------------------------------------- program

  /** `memmove` inside the file. */
  method MemMove(data: array<Byte>, dst: nat, src: nat, size: nat)
    requires dst + size <= data.Length && src + size <= data.Length
    modifies data
    ensures forall k | 0 <= k < data.Length ::
              data[k] == if dst <= k < dst + size then old(data[src + (k - dst)]) else old(data[k])
  {
    forall k | dst <= k < dst + size {
      data[k] := data[src + (k - dst)];
    }
  }

  /** Copies the line at `ptr` down to `dst`, with its newline. */
  method CopyLine(data: array<Byte>, dst: nat, ptr: nat, size: nat, next: nat, endptr: nat) returns (dst': nat)
    requires dst <= ptr <= ptr + size <= next <= endptr <= data.Length
    requires next == endptr || ptr + size < next
    modifies data
    ensures dst <= dst' <= next
    ensures forall k | next <= k < data.Length :: data[k] == old(data[k])
    ensures var more := old(data[..dst]) + Cut(old(data[..]), ptr, ptr + size);
            data[..dst'] == if |more| != endptr then more + [LF] else more
  {
    ghost var s := data[..];
    ghost var t := Cut(s, ptr, ptr + size);
    MemMove(data, dst, ptr, size);
    dst' := dst + size;
    Prefix(s, data[..], dst, t);
    if dst' != endptr {
      data[dst'] := LF;
      dst' := dst' + 1;
      assert data[..dst'] == s[..dst] + t + [LF];
    }
  }

  lemma Prefix(s: seq<Byte>, u: seq<Byte>, n: nat, t: Text)
    requires n + |t| <= |u| == |s| && (forall k | 0 <= k < n :: u[k] == s[k])
    requires forall k | 0 <= k < |t| :: u[n + k] == t[k]
    ensures u[..n + |t|] == s[..n] + t
  { }

  /** `remove_duplicates`: the file ends as its parsed lines, joined. The write cursor never passes
      the read cursor, so the suffix that is still to be read is never written. */
  method RemoveDuplicates(g: Globals)
    requires g.size == g.data.Length
    modifies g.data, g`size
    ensures g.size <= g.data.Length
    ensures g.data[..g.size] == Output(g.data.Length, Texts(All(g.conf, old(g.data[..]))))
  {
    ghost var s, n := g.data[..], g.data.Length;
    ghost var all := All(g.conf, s);
    var fileChunk := new Chunk(0, g.size);
    var dst := 0;
    var found := true;
    while found
      invariant 0 <= dst <= fileChunk.ptr <= fileChunk.endptr == n
      invariant forall k | fileChunk.ptr <= k < n :: g.data[k] == s[k]
      invariant Emit(g.data[..dst], n, if found then Parse(g.conf, s, fileChunk.ptr, n) else []) == Emit([], n, all)
      decreases found, n - fileChunk.ptr
    {
      ghost var t, p := g.data[..], fileChunk.ptr;
      var lnptr, lnsz;
      found, lnptr, lnsz := GetNextLine(g.conf, g.data, fileChunk);
      ParseFrame(g.conf, s, t, p, n);
      if found {
        ParseFrame(g.conf, s, t, fileChunk.ptr, n);
        dst := CopyLine(g.data, dst, lnptr, lnsz, fileChunk.ptr, fileChunk.endptr);
      }
    }
    g.size := dst;
    ParseSpaced(g.conf, s, 0, n);
    EmitIsJoined([], n, all, 0);
    assert [] + Joined(Texts(all)) == Joined(Texts(all));
  }
}
