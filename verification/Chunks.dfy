/** src/chunk.c: cutting the working file into newline-aligned chunks. */
module Chunks {
  import opened Lines
  import opened State

  /** Where the chunk that starts at `p` ends. */
  function NextEnd(chunkSize: nat, s: seq<Byte>, p: nat): (e: nat)
    requires p <= |s|
    ensures p <= e <= |s| && (p < |s| ==> p < e)
    ensures e < |s| ==> s[e - 1] == LF && chunkSize < e - p
  {
    if |s| - p <= chunkSize then |s|
    else
      var n := Newline(s, p + chunkSize, |s|);
      if n < |s| then n + 1 else |s|
  }

  datatype Span = Span(lo: nat, hi: nat)

  /** The chunks of the file, from the one that starts at `p`. */
  function ChunksFrom(chunkSize: nat, s: seq<Byte>, p: nat): seq<Span>
    requires p <= |s|
    decreases |s| - p
  {
    if p == |s| then []
    else [Span(p, NextEnd(chunkSize, s, p))] + ChunksFrom(chunkSize, s, NextEnd(chunkSize, s, p))
  }

  /** The lines of the chunks, one chunk after the other. */
  function ParseChunks(c: Filter, s: seq<Byte>, spans: seq<Span>): seq<Line>
    requires forall sp | sp in spans :: sp.lo <= sp.hi <= |s|
  {
    if spans == [] then [] else Parse(c, s, spans[0].lo, spans[0].hi) + ParseChunks(c, s, spans[1..])
  }

  predicate SameNewlines(s: seq<Byte>, t: seq<Byte>)
  {
    |s| == |t| && forall k | 0 <= k < |s| :: s[k] == LF <==> t[k] == LF
  }

  /** A chunk from `p` ends at `e`: at the end of the file when no more than the chunk size is left, else
      just after the first newline from the chunk size on, or at the end of the file when there is none. */
  predicate ChunkEnd(chunkSize: nat, s: seq<Byte>, p: nat, e: nat)
  {
    && p <= e <= |s|
    && (|s| - p <= chunkSize ==> e == |s|)
    && (e < |s| ==> chunkSize < e - p && s[e - 1] == 10)
    && forall k | p + chunkSize <= k < e - 1 :: s[k] != 10
  }

  /** There is one such end. */
  lemma EndIs(chunkSize: nat, s: seq<Byte>, p: nat, e: nat)
    requires p <= |s|
    ensures ChunkEnd(chunkSize, s, p, e) <==> e == NextEnd(chunkSize, s, p)
  { }

  /** Adjacent chunks that cover the file from `p` on once; each but the last ends just after a
      newline, the first one from the chunk size on. */
  predicate Partition(chunkSize: nat, s: seq<Byte>, spans: seq<Span>, p: nat)
  {
    if spans == [] then p == |s|
    else
      && spans[0].lo == p < spans[0].hi <= |s|
      && ChunkEnd(chunkSize, s, p, spans[0].hi)
      && Partition(chunkSize, s, spans[1..], spans[0].hi)
  }

  lemma {:induction false} PartitionBounds(chunkSize: nat, s: seq<Byte>, spans: seq<Span>, p: nat)
    requires Partition(chunkSize, s, spans, p)
    ensures forall sp | sp in spans :: p <= sp.lo < sp.hi <= |s|
  {
    if spans != [] { PartitionBounds(chunkSize, s, spans[1..], spans[0].hi); }
  }

  lemma {:induction false} ChunksTile(chunkSize: nat, s: seq<Byte>, p: nat)
    requires p <= |s|
    ensures Partition(chunkSize, s, ChunksFrom(chunkSize, s, p), p)
    decreases |s| - p
  {
    if p < |s| {
      var e := NextEnd(chunkSize, s, p);
      ChunksTile(chunkSize, s, e);
      EndIs(chunkSize, s, p, e);
    }
  }

  /** The chunks partition the file, and the parse of the file is the concatenation of theirs. */
  lemma {:induction false} ChunksPartition(c: Filter, chunkSize: nat, s: seq<Byte>, p: nat)
    requires p <= |s|
    ensures var spans := ChunksFrom(chunkSize, s, p);
            Partition(chunkSize, s, spans, p) &&
            (forall sp | sp in spans :: p <= sp.lo < sp.hi <= |s|) &&
            Parse(c, s, p, |s|) == ParseChunks(c, s, spans)
    decreases |s| - p
  {
    ChunksTile(chunkSize, s, p);
    PartitionBounds(chunkSize, s, ChunksFrom(chunkSize, s, p), p);
    if p < |s| {
      var e := NextEnd(chunkSize, s, p);
      ChunksPartition(c, chunkSize, s, e);
      assert ChunksFrom(chunkSize, s, p)[1..] == ChunksFrom(chunkSize, s, e);
      ParseSplit(c, s, p, e, |s|);
    }
  }

  lemma {:induction false} NewlineStable(s: seq<Byte>, t: seq<Byte>, i: nat, e: nat)
    requires SameNewlines(s, t) && i <= e <= |s|
    ensures Newline(s, i, e) == Newline(t, i, e)
    decreases e - i
  {
    if i < e && s[i] != LF { NewlineStable(s, t, i + 1, e); }
  }

  /** Chunk boundaries are the same in every phase: they depend on the newlines alone. */
  lemma {:induction false} ChunksStable(chunkSize: nat, s: seq<Byte>, t: seq<Byte>, p: nat)
    requires SameNewlines(s, t) && p <= |s|
    ensures NextEnd(chunkSize, s, p) == NextEnd(chunkSize, t, p)
    ensures ChunksFrom(chunkSize, s, p) == ChunksFrom(chunkSize, t, p)
    decreases |s| - p
  {
    if p + chunkSize <= |s| { NewlineStable(s, t, p + chunkSize, |s|); }
    if p < |s| { ChunksStable(chunkSize, s, t, NextEnd(chunkSize, s, p)); }
  }

  /** A chunk before the first call of `get_next_chunk`, or one that a call has set and whose
      reader may have moved on inside it. */
  predicate IsChunk(chunk: Chunk, size: nat)
    reads chunk
  {
    (chunk.ptr == NULL && chunk.endptr == NULL) || 0 <= chunk.ptr <= chunk.endptr <= size
  }

  /** `get_next_chunk` */
  method GetNextChunk(g: Globals, chunk: Chunk) returns (more: bool)
    requires IsChunk(chunk, g.data.Length) && g.size == g.data.Length
    modifies chunk
    ensures more <==> old(chunk.endptr) != g.data.Length
    ensures !more ==> chunk.ptr == NULL && chunk.endptr == NULL
    ensures more ==> chunk.ptr == (if old(chunk.ptr) == NULL then 0 else old(chunk.endptr))
    ensures more ==> 0 <= chunk.ptr <= g.data.Length && chunk.endptr == NextEnd(g.chunkSize, g.data[..], chunk.ptr)
    ensures more ==> ChunkEnd(g.chunkSize, g.data[..], chunk.ptr, chunk.endptr)
  {
    if chunk.endptr == g.size {
      chunk.ptr, chunk.endptr := NULL, NULL;
      return false;
    }
    var ptr, endptr;
    var remaining;
    if chunk.ptr == NULL {
      ptr, remaining := 0, g.size;
    } else {
      ptr := chunk.endptr;
      remaining := g.size - ptr;
    }
    if remaining <= g.chunkSize {
      endptr := ptr + remaining;
    } else {
      endptr := Newline(g.data[..], ptr + g.chunkSize, g.size);
      if endptr != g.size {
        endptr := endptr + 1;
      }
    }
    EndIs(g.chunkSize, g.data[..], ptr, endptr);
    chunk.ptr, chunk.endptr := ptr, endptr;
    return true;
  }

  /** `count_chunks` */
  method CountChunks(g: Globals) returns (result: nat)
    requires g.size == g.data.Length > 0
    ensures result == |ChunksFrom(g.chunkSize, g.data[..], 0)|
  {
    ghost var s := g.data[..];
    var chunk := new Chunk(NULL, NULL);
    result := 0;
    ghost var p := 0;
    var more := GetNextChunk(g, chunk);
    while more
      invariant p <= |s| && (more ==> p < |s| && chunk.ptr == p && chunk.endptr == NextEnd(g.chunkSize, s, p))
      invariant !more ==> p == |s|
      invariant result + |ChunksFrom(g.chunkSize, s, p)| == |ChunksFrom(g.chunkSize, s, 0)|
      decreases |s| - p
    {
      p := chunk.endptr;
      result := result + 1;
      more := GetNextChunk(g, chunk);
    }
  }

  /** `TRIANGULAR` */
  function Triangular(n: nat): nat { n * (n + 1) / 2 }

  /** `update_status(TAGDUP_START)` */
  method StartTagging(g: Globals)
    requires g.size == g.data.Length > 0
    modifies g.status`totalChunks, g.status`totalCtasks
    ensures g.status.totalChunks == |ChunksFrom(g.chunkSize, g.data[..], 0)|
    ensures g.status.totalCtasks == Triangular(g.status.totalChunks)
  {
    g.status.totalChunks := CountChunks(g);
    g.status.totalCtasks := Triangular(g.status.totalChunks);
  }
}
