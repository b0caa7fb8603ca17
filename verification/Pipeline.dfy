/** The whole program, from src/main.c: tagging, then rewriting, against the reference program. */
module Pipeline {
  import opened Lines
  import opened LineLists
  import opened State
  import opened Chunks
  import opened Runs
  import opened Dedupe
  import opened Soundness
  import opened Exactness
  import opened Counts
  import opened Compaction
  import opened Reference

  /** For every buffer, chunk size, line limit, printable flag and hash function within the load
      bound: tagging completes, rewriting the tagged file gives the result of the reference program,
      the duplicates logged are its duplicates up to order, and every announced task is done. */
  lemma EndToEnd(env: Env, s: seq<Byte>)
    requires 0 < env.slots && LoadOk(env, s)
    ensures var r, n := TagFrom(env, Started(s), 0), |ChunksFrom(env.chunkSize, s, 0)|;
            r.outcome == Completed
            && Output(|s|, Texts(All(env.conf, r.data))) == DedupeResult(env.conf, s)
            && multiset(r.log) == multiset(DedupeLists(env.conf, s).dupes)
            && |r.log| == |All(env.conf, s)| - |First(All(env.conf, s))|
            && r.duplicates == |r.log| && r.chunks == n && r.ctasks == Triangular(n)
  {
    var r := TagFrom(env, Started(s), 0);
    TaggingIsDeduplication(env, s);
    RunIsSound(env, Started(s), 0);
    assert r.log[0..] == r.log;
    RunCount(env, s);
    DuplicatesCounted(env, s);
    ReferenceLists(env.conf, s);
    ReferenceOutput(env.conf, s, r.data);
    SameRest(multiset(Texts(All(env.conf, r.data))), multiset(r.log), multiset(DedupeLists(env.conf, s).dupes));
  }

  /** Whatever the load: the first occurrences are the same lines, at the same places. */
  lemma FirstsSurvive(env: Env, s: seq<Byte>)
    requires 0 < env.slots
    ensures First(All(env.conf, TagFrom(env, Started(s), 0).data)) == First(All(env.conf, s))
  {
    RunIsSound(env, Started(s), 0);
  }

  lemma SameRest<T>(a: multiset<T>, b: multiset<T>, d: multiset<T>)
    requires a + b == a + d
    ensures b == d
  {
    forall x ensures b[x] == d[x] { assert (a + b)[x] == (a + d)[x]; }
  }

  /** What the program has made of the file `s`. When the run completed: its lines as tagging left them,
      joined. Else the file has not been rewritten; it is as long as it was, and as tagging left it. Either
      way the first occurrences are all there. */
  ghost predicate Rewritten(g: Globals, s: seq<Byte>, outcome: Outcome)
    reads g`size, g.data
    requires 0 < g.slots.Length
  {
    var r := TagFrom(EnvOf(g), Started(s), 0);
    && outcome == r.outcome && First(All(g.conf, r.data)) == First(All(g.conf, s))
    && if outcome == Completed then
         g.size <= g.data.Length && g.data[..g.size] == Output(|s|, Texts(All(g.conf, r.data)))
       else
         g.size == g.data.Length == |s| && g.data[..] == r.data
  }

  /** What the program has written to the duplicates file and to the counters. */
  ghost predicate Recorded(g: Globals, s: seq<Byte>)
    reads g`dupfile, g.status
    requires 0 < g.slots.Length
  {
    var r, n := TagFrom(EnvOf(g), Started(s), 0), |ChunksFrom(g.chunkSize, s, 0)|;
    && g.dupfile == (if g.hasDupfile then r.log else [])
    && g.status.doneCtasks == r.ctasks && g.status.doneChunks == r.chunks
    && g.status.totalChunks == n && g.status.totalCtasks == Triangular(n)
    && g.status.duplicates == r.duplicates && (r.outcome == Completed ==> r.duplicates == |r.log|)
  }

  /** The duplicates file and the counters are those of the reference program. */
  ghost predicate BooksLikeReference(g: Globals, s: seq<Byte>)
    reads g`dupfile, g.status
  {
    && (g.hasDupfile ==> multiset(g.dupfile) == multiset(DedupeLists(g.conf, s).dupes))
    && g.status.duplicates == |All(g.conf, s)| - |First(All(g.conf, s))|
    && g.status.doneChunks == g.status.totalChunks
    && g.status.doneCtasks == g.status.totalCtasks
  }

  /** The first half of `main`: tagging. */
  method TagAll(g: Globals) returns (outcome: Outcome)
    requires g.Fits() && g.size == g.data.Length > 0
    requires g.dupfile == [] && g.status.doneCtasks == g.status.doneChunks == g.status.duplicates == 0
    modifies g.data, g.slots, g`dupfile, g.status
    ensures var r := TagFrom(EnvOf(g), Started(old(g.data[..])), 0); outcome == r.outcome && g.data[..] == r.data
    ensures Recorded(g, old(g.data[..]))
    ensures LoadOk(EnvOf(g), old(g.data[..])) ==> BooksLikeReference(g, old(g.data[..]))
  {
    ghost var env, s := EnvOf(g), g.data[..];
    StartTagging(g);
    outcome := TagDuplicates(g);
    DuplicatesCounted(env, s);
    if LoadOk(env, s) { EndToEnd(env, s); }
  }

  /** `main`, from the sized configuration on. When the run completes the file holds the lines that
      tagging left, joined; else it is not rewritten, since the program has exited or goes on for ever. Within
      the load bound the run does complete, with the reference's result. */
  method Deduplicate(g: Globals) returns (outcome: Outcome)
    requires g.Fits() && g.size == g.data.Length > 0
    requires g.dupfile == [] && g.status.doneCtasks == g.status.doneChunks == g.status.duplicates == 0
    modifies g, g.data, g.slots, g.status
    ensures Rewritten(g, old(g.data[..]), outcome) && Recorded(g, old(g.data[..]))
    ensures LoadOk(EnvOf(g), old(g.data[..])) ==>
              outcome == Completed && g.data[..g.size] == DedupeResult(g.conf, old(g.data[..]))
              && BooksLikeReference(g, old(g.data[..]))
  {
    ghost var env, s := EnvOf(g), g.data[..];
    outcome := TagAll(g);
    FirstsSurvive(env, s);
    if LoadOk(env, s) { EndToEnd(env, s); }
    if outcome == Completed {
      RemoveDuplicates(g);
    }
  }
}
