/** The program's globals: options, working file, hash map, duplicates file and counters. */
module State {
  import opened Lines
  import opened Index
  import opened TaggedLine

  /** The counters of src/status.c that the deduplication updates. */
  class Status {
    var totalChunks: nat
    var doneChunks: nat
    var totalCtasks: nat
    var doneCtasks: nat
    var duplicates: nat

    constructor ()
      ensures totalChunks == doneChunks == totalCtasks == doneCtasks == duplicates == 0
    {
      totalChunks, doneChunks, totalCtasks, doneCtasks, duplicates := 0, 0, 0, 0, 0;
    }
  }

  /** `g_conf`, `g_file`, `g_hmap` and `g_status`. */
  class Globals {
    const conf: Filter
    const hash: Hash
    const chunkSize: nat
    const hasDupfile: bool
    /** Where the working file is mapped. */
    const base: nat
    const data: array<Byte>
    /** `g_file->info.st_size` */
    var size: nat
    const slots: array<Word>
    /** The lines written to the duplicates file. */
    var dupfile: seq<Text>
    const status: Status

    constructor (conf: Filter, hash: Hash, chunkSize: nat, hasDupfile: bool, base: nat,
                 data: array<Byte>, slots: array<Word>, status: Status)
      ensures this.conf == conf && this.hash == hash && this.chunkSize == chunkSize
      ensures this.hasDupfile == hasDupfile && this.base == base && this.data == data
      ensures this.slots == slots && this.status == status
      ensures size == data.Length && dupfile == []
    {
      this.conf, this.hash, this.chunkSize, this.hasDupfile := conf, hash, chunkSize, hasDupfile;
      this.base, this.data, this.slots, this.status := base, data, slots, status;
      this.size, this.dupfile := data.Length, [];
    }

    /** What packed entries rely on: the file is mapped at a non-null address below 2^52, and the
        line limit is at most 4095 (`MAX_MAX_LINE_SIZE`). */
    predicate Fits()
    {
      && 0 < base && base + data.Length <= TWO_52
      && conf.lineMax <= 4095
      && 0 < slots.Length
    }
  }

  /** An empty slot, or an entry whose bytes lie in `s[lo..hi]` and read `slot`. */
  predicate EntryIs(base: nat, s: seq<Byte>, w: Word, slot: Option<Text>, lo: nat, hi: nat)
    requires hi <= |s|
  {
    if LineIsSet(w) then
      && base + lo <= LineAddr(w) && LineAddr(w) + LineSize(w) <= base + hi
      && slot == Some(Cut(s, LineAddr(w) - base, LineAddr(w) - base + LineSize(w)))
    else
      slot == None
  }

  /** The table of packed entries `words`, read through the buffer `s`, is `view`; all the bytes that
      it points at lie in `s[lo..hi]`. */
  predicate TableIs(base: nat, s: seq<Byte>, words: seq<Word>, view: View, lo: nat, hi: nat)
    requires hi <= |s|
  {
    |words| == |view| && forall k | 0 <= k < |words| :: EntryIs(base, s, words[k], view[k], lo, hi)
  }

  /** The table depends on the bytes that it points at alone. */
  lemma TableFrame(base: nat, s: seq<Byte>, t: seq<Byte>, words: seq<Word>, view: View,
                   lo: nat, hi: nat, hi': nat)
    requires hi <= hi' <= |s| == |t|
    requires TableIs(base, s, words, view, lo, hi)
    requires forall k | lo <= k < hi :: s[k] == t[k]
    ensures TableIs(base, t, words, view, lo, hi')
  {
    forall k | 0 <= k < |words| ensures EntryIs(base, t, words[k], view[k], lo, hi') {
      assert EntryIs(base, s, words[k], view[k], lo, hi);
      var w := words[k];
      if LineIsSet(w) {
        var a := LineAddr(w) - base;
        assert Cut(s, a, a + LineSize(w)) == Cut(t, a, a + LineSize(w));
      }
    }
  }

  /** Storing the packed entry of a line in an empty slot is storing its text. */
  lemma TableInsert(base: nat, s: seq<Byte>, words: seq<Word>, view: View, lo: nat, hi: nat,
                    k: nat, at: nat, size: nat)
    requires hi <= |s| && TableIs(base, s, words, view, lo, hi) && k < |words|
    requires lo <= at && at + size <= hi && 0 < base && base + |s| <= TWO_52 && 0 < size <= 4095
    ensures TableIs(base, s, words[k := MakeLine(base + at, size)], view[k := Some(Cut(s, at, at + size))], lo, hi)
  {
    var w := MakeLine(base + at, size);
    EntryDecodes(base + at, size);
    EntryIsSet(base + at, size);
    assert EntryIs(base, s, w, Some(Cut(s, at, at + size)), lo, hi);
    forall j | 0 <= j < |words| && j != k ensures EntryIs(base, s, words[j], view[j], lo, hi) { }
  }

  /** `cmp_line`: whether a table entry and a line of the file are different. */
  method CmpLine(g: Globals, item: Word, ptr: nat, size: nat, ghost slot: Option<Text>, ghost lo: nat, ghost hi: nat)
    returns (differ: bool)
    requires ptr + size <= g.data.Length && hi <= g.data.Length
    requires LineIsSet(item) && EntryIs(g.base, g.data[..], item, slot, lo, hi)
    ensures differ <==> slot != Some(Cut(g.data[..], ptr, ptr + size))
  {
    ghost var s := g.data[..];
    var a := LineAddr(item) - g.base;
    ghost var mine, its := Cut(s, ptr, ptr + size), Cut(s, a, a + LineSize(item));
    if LineSize(item) != size {
      assert |mine| != |its|;
      return true;
    }
    var k := 0;
    while k < size
      invariant 0 <= k <= size
      invariant forall j | 0 <= j < k :: mine[j] == its[j]
    {
      if g.data[a + k] != g.data[ptr + k] {
        assert mine[k] != its[k];
        return true;
      }
      k := k + 1;
    }
    assert mine == its;
    return false;
  }

  /** `log_duplicate`, called when there is a duplicates file. */
  method LogDuplicate(g: Globals, ptr: nat, size: nat)
    requires ptr + size <= g.data.Length
    modifies g`dupfile
    ensures g.dupfile == old(g.dupfile) + if g.hasDupfile then [Cut(g.data[..], ptr, ptr + size)] else []
  {
    if g.hasDupfile {
      g.dupfile := g.dupfile + [Cut(g.data[..], ptr, ptr + size)];
    }
  }
}
