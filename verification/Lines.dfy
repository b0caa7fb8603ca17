/** The byte-level line parser of src/line.c, and the chunk cursor it advances. */
module Lines {

  newtype Byte = b: int | 0 <= b < 256

  /** The byte that tags a line for removal (`DISABLED_LINE`). */
  const DISABLED: Byte := 0
  const LF: Byte := 10
  const CR: Byte := 13

  /** The null pointer; every other pointer is an offset into the working file. */
  const NULL: int := -1

  type Text = seq<Byte>

  /** The options of `g_conf` that decide which lines are valid. */
  datatype Filter = Filter(lineMax: nat, printable: bool)

  /** A valid line: where it starts in the working file, and its bytes. */
  datatype Line = Line(at: nat, text: Text)

  // ---------------------------------------------------------------- specification

  /** What `memchr` finds: the first newline of `s[i..e]`, or `e` when there is none. */
  function Newline(s: seq<Byte>, i: nat, e: nat): (n: nat)
    requires i <= e <= |s|
    ensures i <= n <= e
    ensures forall k | i <= k < n :: s[k] != LF
    ensures n < e ==> s[n] == LF
    decreases e - i
  {
    if i == e || s[i] == LF then i else Newline(s, i + 1, e)
  }

  /** Where the text of the line `[i, n)` ends: a `'\r'` is dropped only just before a `'\n'`. */
  function TextEnd(s: seq<Byte>, i: nat, n: nat, e: nat): (h: nat)
    requires i <= n <= e <= |s|
    ensures i <= h <= n
  {
    if i < n < e && s[n - 1] == CR then n - 1 else n
  }

  /** The bytes `s[i..h]`. */
  function Cut(s: seq<Byte>, i: nat, h: nat): (t: Text)
    requires i <= h <= |s|
    ensures |t| == h - i
  {
    seq(h - i, k requires 0 <= k < h - i => s[i + k])
  }

  predicate IsPrint(b: Byte) { 32 <= b <= 126 }

  predicate Printable(t: Text) { forall k | 0 <= k < |t| :: IsPrint(t[k]) }

  /** The lines the program keeps: not empty, not tagged, not too long and, on demand, printable. */
  predicate Valid(c: Filter, t: Text)
  {
    0 < |t| <= c.lineMax && t[0] != DISABLED && (c.printable ==> Printable(t))
  }

  /** Where the physical line after the one at `i` starts, `e` when there is none. */
  function Next(s: seq<Byte>, i: nat, e: nat): (m: nat)
    requires i < e <= |s|
    ensures i < m <= e
    ensures m < e ==> s[m - 1] == LF
  {
    var n := Newline(s, i, e);
    if n < e then n + 1 else e
  }

  /** The physical line at `i`, as a list: empty unless the line is valid. */
  function Head(c: Filter, s: seq<Byte>, i: nat, e: nat): (ls: seq<Line>)
    requires i < e <= |s|
    ensures |ls| <= 1
  {
    var t := Cut(s, i, TextEnd(s, i, Newline(s, i, e), e));
    if Valid(c, t) then [Line(i, t)] else []
  }

  /** The valid lines of `s[i..e]`, in order. */
  function Parse(c: Filter, s: seq<Byte>, i: nat, e: nat): seq<Line>
    requires i <= e <= |s|
    decreases e - i
  {
    if i == e then [] else Head(c, s, i, e) + Parse(c, s, Next(s, i, e), e)
  }

  /** A place where a physical line can start. */
  predicate Boundary(s: seq<Byte>, p: nat)
  {
    p <= |s| && (p == 0 || p == |s| || s[p - 1] == LF)
  }

  // ---------------------------------------------------------------- properties

  /** `Newline` is the only index that its contract describes. */
  lemma {:induction false} NewlineIs(s: seq<Byte>, i: nat, e: nat, n: nat)
    requires i <= n <= e <= |s|
    requires forall k | i <= k < n :: s[k] != LF
    requires n < e ==> s[n] == LF
    ensures Newline(s, i, e) == n
    decreases n - i
  {
    if i < n { NewlineIs(s, i + 1, e, n); }
  }

  /** What every parsed line looks like. */
  predicate LineIn(c: Filter, s: seq<Byte>, i: nat, e: nat, ln: Line)
    requires e <= |s|
  {
    i <= ln.at && ln.at + |ln.text| <= e && ln.text == Cut(s, ln.at, ln.at + |ln.text|) && Valid(c, ln.text)
  }

  /** Every parsed line lies inside the range, and is what the buffer holds there. */
  lemma {:induction false} ParseBounds(c: Filter, s: seq<Byte>, i: nat, e: nat)
    requires i <= e <= |s|
    ensures forall ln | ln in Parse(c, s, i, e) :: LineIn(c, s, i, e, ln)
    decreases e - i
  {
    if i < e {
      ParseBounds(c, s, Next(s, i, e), e);
      forall ln | ln in Parse(c, s, i, e) ensures LineIn(c, s, i, e, ln) {
        if ln !in Head(c, s, i, e) {
          assert ln in Parse(c, s, Next(s, i, e), e);
        }
      }
    }
  }

  /** The line at `i` and the start of the next one depend on the bytes up to there. */
  lemma HeadBefore(c: Filter, s: seq<Byte>, t: seq<Byte>, i: nat, e: nat)
    requires i < e <= |s| && |t| == |s|
    requires forall k | i <= k < Next(s, i, e) :: s[k] == t[k]
    ensures Head(c, s, i, e) == Head(c, t, i, e) && Next(s, i, e) == Next(t, i, e)
  {
    var n := Newline(s, i, e);
    NewlineIs(t, i, e, n);
    var h := TextEnd(s, i, n, e);
    assert Cut(s, i, h) == Cut(t, i, h);
  }

  lemma HeadFrame(c: Filter, s: seq<Byte>, t: seq<Byte>, i: nat, e: nat)
    requires i < e <= |s| && |t| == |s|
    requires forall k | i <= k < e :: s[k] == t[k]
    ensures Head(c, s, i, e) == Head(c, t, i, e) && Next(s, i, e) == Next(t, i, e)
  {
    HeadBefore(c, s, t, i, e);
  }

  /** Parsing a range depends on the bytes of the range alone. */
  lemma {:induction false} ParseFrame(c: Filter, s: seq<Byte>, t: seq<Byte>, i: nat, e: nat)
    requires i <= e <= |s| && |t| == |s|
    requires forall k | i <= k < e :: s[k] == t[k]
    ensures Parse(c, s, i, e) == Parse(c, t, i, e)
    decreases e - i
  {
    if i < e {
      HeadFrame(c, s, t, i, e);
      ParseFrame(c, s, t, Next(s, i, e), e);
    }
  }

  lemma {:induction false} NewlineCut(s: seq<Byte>, i: nat, m: nat, e: nat)
    requires i < m <= e <= |s| && s[m - 1] == LF
    ensures Newline(s, i, e) == Newline(s, i, m) < m
    decreases m - i
  {
    if s[i] != LF { NewlineCut(s, i + 1, m, e); }
  }

  lemma HeadCut(c: Filter, s: seq<Byte>, i: nat, m: nat, e: nat)
    requires i < m <= e <= |s| && s[m - 1] == LF
    ensures Head(c, s, i, e) == Head(c, s, i, m) && Next(s, i, e) == Next(s, i, m)
  {
    NewlineCut(s, i, m, e);
  }

  /** Cutting a range just after a newline cuts its list of lines in two. */
  lemma {:induction false} ParseSplit(c: Filter, s: seq<Byte>, i: nat, m: nat, e: nat)
    requires i <= m <= e <= |s|
    requires m == i || m == e || s[m - 1] == LF
    ensures Parse(c, s, i, e) == Parse(c, s, i, m) + Parse(c, s, m, e)
    decreases m - i
  {
    if i < m < e {
      HeadCut(c, s, i, m, e);
      var n := Next(s, i, e);
      ParseSplit(c, s, n, m, e);
      var head, a, b := Head(c, s, i, e), Parse(c, s, n, m), Parse(c, s, m, e);
      assert Parse(c, s, i, m) == head + a;
      Regroup(head, a, b);
    }
  }

  lemma Regroup<T>(a: seq<T>, b: seq<T>, d: seq<T>)
    ensures a + (b + d) == (a + b) + d
  { }

  /** Each place of `tags` is where a physical line of `s` starts. */
  predicate Starts(s: seq<Byte>, tags: set<nat>)
  {
    forall a | a in tags :: a < |s| && s[a] != LF && (a == 0 || s[a - 1] == LF)
  }

  /** `s` with the first byte of every line that starts in `tags` overwritten. */
  function Tag(s: seq<Byte>, tags: set<nat>): (t: seq<Byte>)
    ensures |t| == |s|
    ensures forall k | 0 <= k < |s| :: t[k] == if k in tags then DISABLED else s[k]
  {
    seq(|s|, k requires 0 <= k < |s| => if k in tags then DISABLED else s[k])
  }

  /** The lines of `ls` that do not start in `tags`. */
  function Untagged(ls: seq<Line>, tags: set<nat>): seq<Line>
  {
    if ls == [] then []
    else (if ls[0].at in tags then [] else [ls[0]]) + Untagged(ls[1..], tags)
  }

  lemma {:induction false} UntaggedAppend(a: seq<Line>, b: seq<Line>, tags: set<nat>)
    ensures Untagged(a + b, tags) == Untagged(a, tags) + Untagged(b, tags)
  {
    if a == [] {
      assert a + b == b;
    } else {
      assert (a + b)[1..] == a[1..] + b;
      UntaggedAppend(a[1..], b, tags);
    }
  }

  lemma HeadTagged(c: Filter, s: seq<Byte>, tags: set<nat>, i: nat, e: nat)
    requires i < e <= |s| && Boundary(s, i) && Starts(s, tags)
    ensures Next(Tag(s, tags), i, e) == Next(s, i, e)
    ensures Head(c, Tag(s, tags), i, e) == Untagged(Head(c, s, i, e), tags)
  {
    var t := Tag(s, tags);
    var n := Newline(s, i, e);
    forall k | i < k < Next(s, i, e) ensures k !in tags {
      var j := k - 1;
      assert s[j] != LF;
    }
    NewlineIs(t, i, e, n);
    if i !in tags {
      HeadBefore(c, s, t, i, e);
    }
  }

  /** Tagging is exact deletion: overwriting the first byte of any lines of the file removes those
      lines from the parse, and nothing else. */
  lemma {:induction false} TaggingDeletes(c: Filter, s: seq<Byte>, tags: set<nat>, i: nat, e: nat)
    requires i <= e <= |s| && Boundary(s, i) && Starts(s, tags)
    ensures Parse(c, Tag(s, tags), i, e) == Untagged(Parse(c, s, i, e), tags)
    decreases e - i
  {
    if i < e {
      var m := Next(s, i, e);
      HeadTagged(c, s, tags, i, e);
      UntaggedAppend(Head(c, s, i, e), Parse(c, s, m, e), tags);
      if m < e { TaggingDeletes(c, s, tags, m, e); }
    }
  }

  // ---------------------------------------------------------------- program

  /** A slice of the working file that is being read (`t_chunk`). */
  class Chunk {
    var ptr: int
    var endptr: int

    constructor (ptr: int, endptr: int)
      ensures this.ptr == ptr && this.endptr == endptr
    {
      this.ptr, this.endptr := ptr, endptr;
    }
  }

  /** `str_isprint` */
  method StrIsPrint(data: array<Byte>, ptr: nat, size: nat) returns (yes: bool)
    requires ptr + size <= data.Length
    ensures yes <==> Printable(Cut(data[..], ptr, ptr + size))
  {
    ghost var t := Cut(data[..], ptr, ptr + size);
    var n := size;
    while n > 0
      invariant 0 <= n <= size
      invariant forall k | n <= k < size :: IsPrint(t[k])
    {
      n := n - 1;
      assert t[n] == data[ptr + n];
      if !IsPrint(data[ptr + n]) {
        return false;
      }
    }
    return true;
  }

  /** `filter_line`: true when the line must be dropped. */
  method FilterLine(c: Filter, data: array<Byte>, ptr: nat, size: nat) returns (drop: bool)
    requires ptr + size <= data.Length && 0 < size && data[ptr] != DISABLED
    ensures drop <==> !Valid(c, Cut(data[..], ptr, ptr + size))
  {
    if size > c.lineMax {
      return true;
    }
    if c.printable {
      var yes := StrIsPrint(data, ptr, size);
      return !yes;
    }
    return false;
  }

  /** One turn of the loop of `get_next_line`: classifies the physical line at `p`. `last` is set
      when no newline ends it. */
  method ReadLine(c: Filter, data: array<Byte>, p: nat, e: nat)
    returns (keep: bool, lnsz: nat, next: nat, last: bool)
    requires p < e <= data.Length
    ensures next == Next(data[..], p, e)
    ensures p + lnsz <= next && (last ==> next == e) && (!last ==> p + lnsz < next && data[next - 1] == LF)
    ensures Head(c, data[..], p, e) == if keep then [Line(p, Cut(data[..], p, p + lnsz))] else []
    ensures keep ==> 0 < lnsz
  {
    ghost var s := data[..];
    var size := e - p;
    var nl := Newline(data[..], p, e);
    next, last := (if nl == e then e else nl + 1), nl == e;
    if data[p] == DISABLED {
      return false, 0, next, last;
    } else if data[p] == LF {
      return false, 0, p + 1, false;
    } else if data[p] == CR && size > 1 && data[p + 1] == LF {
      NewlineIs(s, p, e, p + 1);
      return false, 0, p + 2, false;
    }
    lnsz := nl - p;
    if nl < e && data[p + lnsz - 1] == CR {
      lnsz := lnsz - 1;
    }
    var drop := FilterLine(c, data, p, lnsz);
    keep := !drop;
  }

  /** What `get_next_line` yields from `p`: the first line, and the cursor just after it, or none. */
  predicate Yields(c: Filter, s: seq<Byte>, p: nat, e: nat, found: bool, lnptr: nat, lnsz: nat, q: nat)
    requires p <= q <= e <= |s|
  {
    if found then
      && p <= lnptr < lnptr + lnsz <= q
      && (q == e || (lnptr + lnsz < q && s[q - 1] == LF))
      && Parse(c, s, p, e) == [Line(lnptr, Cut(s, lnptr, lnptr + lnsz))] + Parse(c, s, q, e)
    else
      Parse(c, s, p, e) == []
  }

  lemma YieldsHead(c: Filter, s: seq<Byte>, p: nat, e: nat, lnsz: nat)
    requires p < e <= |s| && p + lnsz <= Next(s, p, e) && 0 < lnsz
    requires Next(s, p, e) == e || p + lnsz < Next(s, p, e)
    requires Head(c, s, p, e) == [Line(p, Cut(s, p, p + lnsz))]
    ensures Yields(c, s, p, e, true, p, lnsz, Next(s, p, e))
  { }

  lemma SkipHead(c: Filter, s: seq<Byte>, p: nat, e: nat)
    requires p < e <= |s| && Head(c, s, p, e) == []
    ensures Parse(c, s, p, e) == Parse(c, s, Next(s, p, e), e)
  { }

  /** `get_next_line`: the next valid line of `chunk`, if any. */
  method GetNextLine(c: Filter, data: array<Byte>, chunk: Chunk)
    returns (found: bool, lnptr: nat, lnsz: nat)
    requires 0 <= chunk.ptr <= chunk.endptr <= data.Length
    modifies chunk`ptr
    ensures old(chunk.ptr) <= chunk.ptr <= chunk.endptr
    ensures Yields(c, data[..], old(chunk.ptr), chunk.endptr, found, lnptr, lnsz, chunk.ptr)
  {
    found, lnptr, lnsz := false, 0, 0;
    ghost var s, p, e := data[..], chunk.ptr, chunk.endptr;
    while chunk.ptr < chunk.endptr
      invariant p <= chunk.ptr <= e == chunk.endptr
      invariant Parse(c, s, p, e) == Parse(c, s, chunk.ptr, e)
    {
      var keep, size, next, last := ReadLine(c, data, chunk.ptr, chunk.endptr);
      if keep {
        YieldsHead(c, s, chunk.ptr, e, size);
        lnptr := chunk.ptr;
        chunk.ptr := next;
        return true, lnptr, size;
      }
      SkipHead(c, s, chunk.ptr, e);
      if last {
        return;
      }
      chunk.ptr := next;
    }
  }
}
