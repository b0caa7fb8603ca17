# Verified model of duplicut

duplicut removes duplicate lines from a wordlist without changing the order of the lines that
stay. This project models its deduplication in Dafny 4.11 and proves what it is for. Check it with
`dafny verify dfyconfig.toml`.

## The program, and where each part is

The working file is one buffer of bytes. `tag_duplicates` cuts it into chunks that end just after
a newline. For each chunk it indexes the chunk's lines in an open-addressing table of packed
pointers into that same buffer, tagging repetitions by overwriting their first byte with `'\0'`,
and then tags the lines of every later chunk that the table holds, with worker threads.
`remove_duplicates` reads the tagged buffer once more and moves what is left together, in place.

* `Lines`, `LineLists`: the byte-level line parser, as a class and methods over an array and as
  a function, `Parse`; lists of lines and their first occurrences.
* `TaggedLine`, `Index`, `State`, `Hmap`, `Cleanout`: packed entries, probing, indexing and look-up.
  A `View` is the table with each entry read as the text it points at; `TableIs` ties it to the words.
* `Probing`: what a probe looks at, in numbers, without the functions that the indexing itself is written with.
* `Chunks`, `Runs`, `Dedupe`, `Counts`: chunks, the sequential `tag_duplicates`, its counters. `TagFrom`
  is what it does to the buffer, as a function; `Outcome` says whether it completes, takes the error
  exit of `populate_hmap`, or never returns from a look-up of `cleanout_chunk`.
* `Soundness`, `Exactness`, `LoadBound`: what holds whatever the load of the table, what holds below
  the load bound, and that the bound cannot be improved.
* `Overload`, `OverloadRuns`: what happens above the bound. Lines left out of the table without a word,
  tables filled to the last slot, files on which these go wrong, and exactly which chunks are safe.
* `Stops`: every loop over lines or chunks as one and the same loop, which does nothing more once an exit is
  taken or a look-up never ends.
* `Compaction`, `Reparse`, `Reference`, `Pipeline`: rewriting in place, reading the result again, the list
  program of test/scripts/reference-dedupe.py, and the whole program against it.
* `ThreadPool`, `PoolRuns`, `JobQueue`: the thread pool as a transition system, and its linked queue.
* `Parallel`, `Sweeps`, `ParallelSafety`, `ParallelRuns`, `ParallelEnds`: the threaded `tag_duplicates` as
  a transition system over the pool and the buffer, one line of a worker at a time, and its refinement of
  the sequential one.
* `FineSteps`, `FineRuns`, `FineEnds`: the same with a worker's line taken apart. It is read, looked up slot
  by slot, logged and overwritten in steps of their own, and other threads may step in between; every run
  of this program is, seen from outside, a run of the coarser one.
* `Words`, `Xxh3`, `Xxh3Stream`, `Xxh3Trace`, `XxhStream`, `Mult128`: streaming against one-shot hashing, which
  bytes of the secret a long XXH3 hash mixes with which bytes of the input, and the portable multiply, from
  the vendored include/xxhash.h.

## Main results

1. For every buffer, chunk size, line limit, printable flag and hash function below the load bound,
   the program completes and its output is that of the reference program (`Pipeline.EndToEnd`,
   `Pipeline.Deduplicate`). The bound is exact: a file is deduplicated correctly under every hash
   function if and only if it is within it (`LoadBound.LoadBoundIsExact`). Above it a run can also complete
   and leave duplicates, and even never end; `Overload.ExactIff`, `Overload.CompleteIff` and
   `Overload.RoomyIff` say exactly for which chunks that cannot happen.
2. With no load assumption, in every state that any interleaving of the worker threads reaches, down to the
   moment between logging a line and overwriting it, the first occurrence of every valid line is untouched,
   and every line is in the file, or logged, or just then both (`FineRuns.AlwaysBooked`,
   `FineRuns.NeverLost`).
3. Every interleaving of the threaded program is finite but for spurious wake-ups, and ends as the
   sequential program does: completed or by the error exit, with the same bytes, the same counters and the same
   logged lines up to order, or stuck in a look-up just if the sequential program is
   (`FineRuns.RunRefines`, `FineRuns.AnyInterleaving`, `FineEnds.EveryInterleavingEnds`).
4. The pool loses no wake-up, its barrier is safe, and it does not deadlock (`ThreadPool.StepInv`,
   `PoolRuns.BarrierSafe`, `PoolRuns.RunsEnd`).
5. However an input is split, streaming XXH3, XXH32 and XXH64 give the one-shot hash
   (`Xxh3Stream.HashPieces`, `XxhStream.State.Digest32`).

## Where the code differs from what one would expect

* A line that the probe budget of `populate_hmap` shuts out is silently left out of the table: the budget
  counter wraps around when it runs out, and the error exit is taken only when the last allowed probe
  finds its answer (src/hmap.c:80, 115). `OverloadRuns.WrongInSilence` shows it on the file of the lines a,
  b, c and c, in a table of three slots: the run completes, and both lines c stay. Without error exit every
  distinct line of the chunk is indexed, under every hash function, if and only if these are at most as many
  as the probes (`Overload.CompleteIff`), and the chunk is left with its first occurrences if and only if no
  line that comes after as many others comes again (`Overload.ExactIff`); a table of two slots takes the error
  exit for any line. At the bound itself a run that completes is still right
  (`Exactness.CompletedIsDeduplication`).
* The look-up of `cleanout_chunk` has no budget, and goes round for ever in a table without empty slot
  (`Index.SpentSpins`). `OverloadRuns.NeverEnds` shows it on the lines a, b, c and d, in a table of three slots
  that the first three fill. A table of three slots or more keeps an empty one, under every hash function, if
  and only if its chunk has fewer distinct lines than that (`Overload.RoomyIff`), and if that is so of every
  chunk, every run ends (`OverloadRuns.EveryRunEnds`).
* `remove_duplicates` leaves out the last newline exactly when the file does not end in a newline and is
  kept whole (`Compaction.NewlineLeftOut`), not whenever it is kept unchanged: a file that is kept
  unchanged and ends in a newline keeps it.
* A rewritten file reads back as the same lines exactly when no line that a newline now follows ends
  in a carriage return (`Reparse.RewrittenReads`); a line that ends in two loses one (`Reparse.TwoReturns`).
* `TRIANGULAR` fits a 32-bit `int` up to 46340 chunks and no further (`Counts.TriangularFits`).
* A `'\r'` is dropped only before a `'\n'`, and only one (src/line.c:87); the reference program agrees.

## Assumptions

A pointer is an offset into the file, `NULL` is -1, and the file is mapped at a non-null address below
2^52 with a line limit of at most 4095. The pool's steps are what a thread does while it holds
a lock; memory is sequentially consistent. Condition variables behave as in POSIX.1-2017, System
Interfaces, `pthread_cond_wait`: a signal unblocks at least one waiting thread, and wake-ups without
a signal are steps of their own. The table's hash is an arbitrary function.

## Model

| member | source | states |
|---|---|---|
| Lines.StrIsPrint | src/line.c:12-20 | true just if every byte of the line is printable |
| Lines.FilterLine | src/line.c:25-32 | the lines that the options remove: too long, or not printable when that is asked for |
| Lines.GetNextLine | src/line.c:38-122 | finds the first parsed line from the cursor and its extent, and leaves the cursor where the rest of the parse begins; reports none just if there is none |
| Lines.ParseFrame | src/line.c:38-122 | parsing a range depends on the bytes of that range alone |
| Lines.ParseSplit | src/line.c:38-122 | cutting a range just after a newline cuts its list of lines in two |
| Lines.ParseBounds | src/line.c:38-122 | a returned line lies inside the range, is what the buffer holds there, and passes the filter |
| Lines.TaggingDeletes | src/line.c:46-121 | overwriting the first bytes of lines removes exactly those lines from the parse |
| TaggedLine.EntryDecodes | include/line.h:14-28 | a packed entry decodes to its address and its length, if and only if the address is below 2^52 and the length below 4096 |
| TaggedLine.EntryIsSet | include/line.h:25-28 | the entry of a line is never the empty slot |
| TaggedLine.EntryLayout | include/line.h:14-28 | the length is the low 12 bits of the word and the address the 52 above them, in numbers |
| State.CmpLine | src/line.c:128-134 | an entry and a line are equal just if the bytes they stand for are |
| State.LogDuplicate | src/file.c:333-345 | appends the line to the duplicates file |
| State.TableInsert | src/hmap.c:82-98 | storing a packed pointer in a free slot stores the line's text there and changes no other slot |
| State.TableFrame | src/hmap.c:75-116 | the table reads the same while the bytes it points at are the same |
| Index.ProbeAnswers | src/hmap.c:78-114 | a probe that meets a match or an empty slot answers membership of the indexed set exactly |
| Index.InsertKeeps | src/hmap.c:82-98 | filling the slot that ends a probe keeps the texts distinct and every text reachable from its home |
| Index.RoomLeft | src/hmap.c:79-80 | below the budget the table has an empty slot |
| Index.RoomEnds | src/chunk.c:117-130 | with an empty slot every look-up ends within as many steps as the table has slots |
| Index.SpentSpins | src/chunk.c:117-130 | a look-up goes on for ever, if and only if no slot is empty and none holds the line |
| Index.FillSound | src/hmap.c:76-116 | whatever the load, a line is tagged only if an earlier line with its text stays, and the table holds only texts of lines that stay |
| Index.FillComplete | src/hmap.c:76-116 | below the budget the error exit is not taken; below it or at it, every distinct line is indexed unless the error exit is taken |
| Index.FillExact | src/hmap.c:76-116 | below the budget or at it, what stays of a chunk is its first occurrences, unless the error exit is taken |
| Index.SweepMeans | src/chunk.c:114-130 | a sweep tags only lines of the indexed set, all of them when it ends, and ends when a slot is empty |
| Probing.HomeIs | src/hmap.c:78 | the home of a line is the remainder of its hash by the table size, whatever the hash |
| Probing.FillLineMeans | src/hmap.c:76-116 | `populate_hmap` passes slots with other texts, at most seven tenths of the table; it leaves the line out when it may look at no more, and else stores it or tags and logs it, and exits just if it could not have looked at one more |
| Probing.SweepLineMeans | src/chunk.c:114-130 | `cleanout_chunk` passes slots with other texts up to an empty one, or to the line's own, when it tags and logs it, or goes round for ever |
| Probing.StoredAtHome | src/hmap.c:78-98 | a line whose hash leaves the remainder of a free slot is stored there, and found there by the look-up |
| Hmap.FindSlot | src/hmap.c:79-116 | the budgeted probe loop with its wrapping counter looks at seven tenths of the slots at most, from the remainder of the hash on, passing over other texts; it finds what the probe specification says, and takes the error exit in just that case |
| Hmap.ClearTable | src/hmap.c:73 | afterwards the table is blank |
| Hmap.PopulateHmap | src/hmap.c:48-126 | buffer, packed table, duplicates file and counter end as indexing the chunk's lines one by one says; the cursor has moved |
| Cleanout.LookUp | src/chunk.c:116-130 | follows the packed table from the remainder of the hash on, over other texts, to a match or an empty slot, or reports that it never would |
| Cleanout.CleanoutChunk | src/chunk.c:99-143 | buffer, duplicates file and counters end as sweeping the chunk's lines one by one says |
| Chunks.GetNextChunk | src/chunk.c:35-92 | the first chunk, the next chunk, or the end of the file; a chunk ends just after the first newline from the chunk size on |
| Chunks.CountChunks | src/chunk.c:16-27 | the number of chunks of the file |
| Chunks.EndIs | src/chunk.c:60-81 | a chunk has one end only: just after the first newline from the chunk size on, or the end of the file when there is none or no more than the chunk size is left |
| Chunks.ChunksPartition | src/chunk.c:35-92 | chunks are adjacent, not empty and cover the buffer once; each ends just after the first newline from the chunk size on, or at the end of the file; the parse of the buffer is the concatenation of theirs |
| Chunks.ChunksStable | src/chunk.c:41-80 | chunks depend on the newlines alone, so tagging changes none |
| Chunks.StartTagging | src/status.c:133-137 | the totals announced are the number of chunks and its triangular number |
| Dedupe.TagSubchunks | src/dedupe.c:72-87 | sweeps every later chunk, as its specification says, and counts the chunk |
| Dedupe.TagDuplicates | src/dedupe.c:92-105 | buffer, duplicates file and counters end as the run specification says, with its outcome |
| Soundness.TagIsSound | src/chunk.c:114-130 | tagging lines whose texts occur before keeps the first occurrences and moves exactly those lines to the log |
| Soundness.FillIsSound | src/hmap.c:76-116 | whatever the load, indexing is sound and the table then holds only texts that stay in the chunk |
| Soundness.SweepIsSound | src/chunk.c:114-130 | whatever the load, sweeping with the table of an earlier chunk is sound |
| Soundness.RunIsSound | src/dedupe.c:92-105 | whatever the load and however the run ends: first occurrences stay, newlines stay, and what is gone is what was logged, each line once |
| Exactness.LikeSurvives | src/chunk.c:114-130 | a valid line, tagged or not, has its like at the same place or before, untagged |
| Exactness.FillIsExact | src/hmap.c:79-116 | within the bound or at it, a chunk is left with its first occurrences, all indexed, and an empty slot is left, unless the error exit is taken, which it is not within the bound |
| Exactness.SweepIsExact | src/chunk.c:114-130 | with an empty slot the sweep ends and leaves exactly the lines that the table does not hold |
| Exactness.RunIsExact | src/dedupe.c:92-105 | within the bound or at it, a run that completes leaves the first occurrences of the whole file, and the only other end is the error exit; within the bound it completes |
| Exactness.TaggingIsDeduplication | src/dedupe.c:47-65 | the same from the untouched file, for every buffer, filter, chunk size and hash |
| Exactness.CompletedIsDeduplication | src/dedupe.c:92-105 | with at most as many first occurrences in each chunk as probes, under every hash function, a run that completes leaves exactly the first occurrences |
| LoadBound.CollisionsExit | src/hmap.c:79-116 | under a hash that sends every line to one slot, a chunk over the bound takes the error exit |
| LoadBound.CollisionsExactly | src/hmap.c:79-116 | under that hash a table of n slots, two or more, gets through a chunk if and only if ten times its distinct lines and one more are at most 7n |
| LoadBound.LoadInNumbers | src/hmap.c:79-80 | the load bound in numbers: in every chunk ten times the first occurrences and one more are at most seven times the slots |
| LoadBound.LoadBoundIsExact | src/hmap.c:79-116 | correct under every hash function if and only if within the load bound, or, for a table of one slot, if and only if no line repeats another |
| LoadBound.SmallChunksFit | src/hmap.c:79-80 | whatever the lines, a table with more probes than half the bytes of every chunk is large enough |
| Overload.SpreadFill | src/hmap.c:78-116 | under a hash that spreads the first distinct lines, at least as many as there are probes, these alone are indexed, and no other line is tagged |
| Overload.CompleteIff | src/hmap.c:79-116 | without error exit every distinct line is indexed, under every hash function, if and only if there are at most as many as probes; a table of two slots, which takes the error exit for any line, apart |
| Overload.RoomyIff | src/hmap.c:79-116 | without error exit an empty slot is left, under every hash function, if and only if there are fewer distinct lines than slots; tables of one and two slots, which cannot be filled, apart |
| Overload.ExactIff | src/hmap.c:79-116 | without error exit a chunk is left with its first occurrences, under every hash function, if and only if no line that comes after as many distinct others as there are probes comes again; a table of two slots apart |
| OverloadRuns.OneChunkIff | src/dedupe.c:92-105 | the same of whole runs, on files of one chunk |
| OverloadRuns.WrongInSilence | src/hmap.c:80-116 | a file and a hash for which the run completes, a line was never indexed, and its duplicate stays |
| OverloadRuns.NeverEnds | src/chunk.c:117-130 | a file and a hash for which the run never ends |
| OverloadRuns.EveryRunEnds | src/chunk.c:117-130 | with fewer distinct lines in each chunk than slots, every run ends, under every hash function |
| Counts.RunCount | src/status.c:133-151 | a completed run over n chunks has done n chunks and n(n+1)/2 tasks |
| Counts.UnfinishedCount | src/status.c:139-151 | a run that takes the error exit has done all tasks of the chunks before and none of the next one; one that never ends, some of the next one |
| Counts.DuplicatesCounted | src/chunk.c:110-139 | a completed run has counted every duplicate that it logged, no run more than it logged |
| Stops.LoopTrace | src/dedupe.c:92-105 | such a loop goes through one state after the other, in the order of its items, and stops at the first that is not to go on |
| Stops.FillStops | src/hmap.c:76-116 | indexing is the loop over the chunk's lines that stops after the one that takes the error exit |
| Stops.SweepStops | src/chunk.c:114-130 | a sweep is the loop over the chunk's lines that stays at the one whose look-up never ends |
| Stops.SubchunksStop | src/dedupe.c:72-87 | the sweeps of a phase are the loop over the later chunks of the buffer as it was before them |
| Stops.PhaseMeans | src/dedupe.c:92-105 | after the error exit a phase sweeps and counts nothing; else its chunk is counted just if all sweeps have ended |
| Stops.RunStops | src/dedupe.c:92-105 | a run is the loop over the chunks of the untouched buffer that stops at the first phase that does not complete |
| Counts.TriangularFits | src/status.c:12 | the product in `TRIANGULAR` fits a 32-bit `int` if and only if n is at most 46340 |
| Compaction.MemMove | src/main.c:53 | an overlapping move reads the old bytes |
| Compaction.RemoveDuplicates | src/main.c:34-68 | the file ends as its parsed lines, newline-terminated, but for a last newline without room; the write cursor never passes the read cursor |
| Compaction.JoinedFits | src/main.c:51-56 | the lines with their newlines exceed the file by one byte at most, and only when all of it is kept |
| Compaction.NewlineLeftOut | src/main.c:55-56 | the last newline is left out if and only if the file did not end in one and is kept whole |
| Reparse.RereadsItself | src/main.c:51-66 | reading the rewritten file gives the same lines if and only if no line that a newline now follows ends in a carriage return |
| Reparse.RewrittenReads | src/main.c:51-66 | the same of the lines that are written for a file, whatever the file |
| Reparse.TwoReturns | src/line.c:87-100 | a file whose rewriting does not read as the same lines |
| Reference.SplitIsParse | test/scripts/reference-dedupe.py:22-33 | splitting on CRLF or LF and filtering gives the parser's lines |
| Reference.ReferenceLists | test/scripts/reference-dedupe.py:25-37 | its unique lines are the first occurrences and its duplicates the other lines |
| Reference.ReferenceOutput | test/scripts/reference-dedupe.py:39-41 | rewriting a buffer of the same size with those lines gives its result, final newline included |
| Pipeline.EndToEnd | src/main.c:71-95 | below the load bound: completes, output and duplicates of the reference program, counters equal to the announced totals |
| Pipeline.FirstsSurvive | src/dedupe.c:92-105 | whatever the load, the first occurrences are the same lines at the same places |
| Pipeline.Deduplicate | src/main.c:83-88 | the program from a sized configuration on, in place: the reference result below the bound; unless tagging completes the file is not rewritten and keeps its size, as tagging left it; the first occurrences, the duplicates file and all counters always |
| ThreadPool.InitInv | src/thpool.c:141-192 | the pool starts in its invariant |
| ThreadPool.StepAwaited | src/thpool.c:458-511 | no lost wake-up: a queued job has the semaphore up, a post pending, or a worker past the semaphore that has not pulled |
| ThreadPool.StepNoticed | src/thpool.c:548-573 | while the semaphore is up, a worker is about to test it or none sleeps |
| ThreadPool.StepWaits | src/thpool.c:217-223 | the main thread waits only while there is queued or counted work |
| ThreadPool.StepClear | src/thpool.c:217-223 | from a return of the wait to the next push no job is queued or held |
| ThreadPool.StepJobs | src/thpool.c:373-395 | each job is queued, held by one worker, or done once, and jobs are pulled in order |
| ThreadPool.StepInv | src/thpool.c:337-511 | every step of every thread, spurious wake-ups included, keeps all invariants |
| ThreadPool.LocksHold | src/thpool.c:337-511 | the queue's lock has one holder at most, nobody else changes what a holder's lock protects |
| ThreadPool.SignalsMean | src/thpool.c:540-573 | who raises and takes the semaphore, who is woken by whom, and when a pulling worker posts |
| PoolRuns.BarrierSafe | src/thpool.c:217-223 | when the wait returns, every job ever pushed has run to its end exactly once and nobody works |
| PoolRuns.ClearIsDone | src/thpool.c:217-223 | until the next push all jobs are done and no worker is busy, so what the main thread does overlaps no job |
| PoolRuns.StepDrops | src/thpool.c:373-573 | every step but a spurious wake-up makes a measure of jobs, tokens and positions smaller |
| PoolRuns.NoDeadlock | src/thpool.c:217-573 | a pool that cannot move has done every job and returned from every wait |
| PoolRuns.RunsEnd | src/thpool.c:196-573 | for every script, number of workers and schedule, a run is bounded but for spurious wake-ups and ends with everything done |
| JobQueue.Queue.constructor | src/thpool.c:424-438 | an empty queue with the semaphore down |
| JobQueue.Queue.Take | src/thpool.c:566-573 | the semaphore goes down |
| JobQueue.Queue.Push | src/thpool.c:458-479 | the job comes last and the semaphore goes up |
| JobQueue.Queue.Pull | src/thpool.c:485-511 | the oldest job or null; the semaphore goes up when jobs are left, else it stays |
| JobQueue.Queue.Clear | src/thpool.c:442-453 | no job is left and the semaphore is down |
| JobQueue.PushInPool | src/thpool.c:196-213 | the pool's two steps of a push have the effect of the linked queue's method |
| JobQueue.PullInPool | src/thpool.c:485-511 | the pool's one or two steps of a pull have the effect of the linked queue's method |
| Sweeps.SubchunksMeans | src/dedupe.c:72-87 | sweeping chunk by chunk tags every later line that the table holds, unless a look-up never ends |
| ParallelSafety.CleanMirrors | src/chunk.c:114-130 | whatever the interleaving, the buffer is the one just after indexing with exactly the table's lines tagged that some reader has passed |
| ParallelSafety.IndexedStays | src/chunk.c:117-130 | while workers run, no byte up to the end of the indexed chunk changes |
| ParallelSafety.TableStays | src/chunk.c:117-119 | packed entries read the same texts all through a phase |
| ParallelSafety.CleanSound | src/chunk.c:119-125 | every tagging by a worker is sound, whatever the load |
| ParallelSafety.PhaseOver | src/dedupe.c:55-62 | when all readers of a phase are done the buffer is what the sequential sweep makes of it |
| ParallelSafety.StepSafe | src/dedupe.c:19-65 | every step of the main thread and of every worker keeps the invariants that tie the threaded program to the sequential one |
| ParallelRuns.StepBalance | src/status.c:139-151 | tasks done, under way and to come are constant, and so are chunks |
| ParallelRuns.StepReported | src/chunk.c:110-139 | duplicates reported and not yet reported are the lines logged |
| ParallelRuns.AlwaysSound | src/dedupe.c:19-65 | in every reachable state: first occurrences untouched, and what is gone is what was logged |
| ParallelRuns.NothingLost | src/chunk.c:114-130 | in every reachable state every valid line has its like at the same place or before, never tagged |
| ParallelRuns.BlockedForever | src/chunk.c:117-130 | a worker in an endless look-up means that the sequential program runs for ever |
| ParallelRuns.ExitCounted | src/hmap.c:115-116 | when indexing a chunk takes the error exit, the counters are those of the sequential run at its error exit |
| ParallelRuns.ScheduleIndependence | src/dedupe.c:19-105 | whatever the load, workers and schedule, a run that can go no further has ended as the sequential one, completed or by the error exit, with the same bytes, logged lines up to order, and counters; or a worker is in an endless look-up, if and only if the sequential run never ends |
| ParallelEnds.StepWork | src/dedupe.c:19-65 | every step but a spurious wake-up leaves less to do |
| ParallelEnds.ThreadsEnd | src/dedupe.c:47-65 | the length of every run is bounded but for spurious wake-ups |
| ParallelEnds.ThreadsDeduplicate | src/dedupe.c:47-65 | below the load bound every run that can go no further is through, with the reference result, its duplicates, and all announced tasks done |
| FineSteps.HereIs | src/chunk.c:116-119 | at every step of a look-up, the bytes of the worker's line are still those that it read |
| FineSteps.LookStep | src/chunk.c:117-130 | one look at a slot goes on with the look-up, or is the line's step of the coarser program |
| FineSteps.LogStep | src/chunk.c:121-123 | logging a line is the line's step of the coarser program |
| FineSteps.MarkStep | src/chunk.c:124-125 | overwriting a logged line is a step that the coarser program does not see |
| FineRuns.StepRefines | src/dedupe.c:19-65 | every step of every thread is no step, or a step, of the coarser program, and keeps what the workers know |
| FineRuns.RunRefines | src/dedupe.c:19-65 | every run is, seen from outside, a run of the coarser program |
| FineRuns.TableReads | src/chunk.c:117-119 | packed entries read the same texts at every step of a phase |
| FineRuns.AlwaysBooked | src/chunk.c:114-130 | in every reachable state: first occurrences untouched, and every line is in the file or logged, or both while its worker is between the two |
| FineRuns.NeverLost | src/chunk.c:114-130 | in every reachable state every valid line has its like at the same place or before, untouched |
| FineRuns.AnyInterleaving | src/dedupe.c:19-105 | whatever the load, workers and interleaving, a run that can go no further has ended as the sequential one, completed or by the error exit, with the same bytes, logged lines up to order, and counters; or a worker is in an endless look-up, if and only if the sequential run never ends |
| FineRuns.AnyInterleavingDeduplicates | src/dedupe.c:47-65 | below the load bound it is then through, with the reference result, its duplicates, and all announced tasks done |
| FineEnds.EveryInterleavingEnds | src/dedupe.c:47-65 | the length of every run is bounded but for spurious wake-ups |
| Xxh3.Accumulate | include/xxhash.h:4968-4985 | takes in the stripes of a part of a block |
| Xxh3.FeedInBlock | include/xxhash.h:6711-6728 | stripes up to the end of a block, fed one by one, are one accumulate and one scramble |
| Xxh3.FeedFrame | include/xxhash.h:6697-6730 | stripes are the same wherever their bytes lie |
| Xxh3.StripesOf | include/xxhash.h:6278-6294 | blocks and stripes counted by lengths are the stripes that do not reach the last byte |
| Xxh3.HashLongLoop | include/xxhash.h:6272-6302 | blocks, last partial block and last stripe are the stripe-by-stripe definition; no read leaves input or secret |
| Xxh3Trace.LongIsReplay | include/xxhash.h:6272-6302 | a long hash is the replay of a recording of which bytes of input meet which bytes of the secret, whatever the arithmetic |
| Xxh3Trace.StripeKey | include/xxhash.h:6272-6302 | stripe j of a block is recorded with the 64 bytes from byte 8j of the secret |
| Xxh3Trace.ScrambleKey | include/xxhash.h:6272-6302 | a full block is followed by a scramble with the last 64 bytes of the secret |
| Xxh3Trace.LastKey | include/xxhash.h:6296-6302 | the last 64 bytes of the input come last, with the 64 bytes of the secret that end seven bytes before its end; nothing else is recorded |
| Xxh3Trace.LongInputs | include/xxhash.h:6440-6495 | more than 240 bytes are hashed as long, with the secret of the variant |
| Xxh3Trace.ShortInputs | include/xxhash.h:6440-6495 | at most 240 bytes are hashed as short, with the given secret, or the default one and the seed |
| Xxh3Stream.ConsumeStripes | include/xxhash.h:6697-6730 | any number of stripes from any position in a block, over the boundaries of blocks |
| Xxh3Stream.State.Reset | include/xxhash.h:6637-6642 | a fresh state of the default variant |
| Xxh3Stream.State.ResetInternal | include/xxhash.h:6609-6633 | which fields a reset sets, and that it leaves the derived secret alone |
| Xxh3Stream.State.ResetWithSecret | include/xxhash.h:6646-6653 | succeeds just if there is a secret of at least 136 bytes; the secret cache stays right even when it fails |
| Xxh3Stream.State.ResetWithSeed | include/xxhash.h:6657-6665 | a fresh state of the seeded variant; skipping the derivation is correct after any resets |
| Xxh3Stream.State.ResetWithSecretAndSeed | include/xxhash.h:6669-6677 | succeeds just if there is a secret of at least 136 bytes, with the seed in use even if it is zero |
| Xxh3Stream.State.Update | include/xxhash.h:6742-6819 | appends the input to what has been fed, keeping accumulators, block position, buffered bytes and the last 64 bytes right |
| Xxh3Stream.State.DigestLong | include/xxhash.h:6840-6874 | the accumulators of the one-shot hash of all that was fed, the last stripe put together from both ends of the buffer |
| Xxh3Stream.State.DigestOf | include/xxhash.h:6877-6890 | of any input below 2^64 bytes, the one-shot hash of the variant; the state is not changed |
| Xxh3Stream.HashAtOnce | include/xxhash.h:6440-6495 | the one-shot entry points, by length, secret and seed |
| Xxh3Stream.HashPieces | include/xxhash.h:145-166 | a reset, updates with any pieces and a digest give the one-shot hash of the pieces joined |
| XxhStream.TailSize | include/xxhash.h:3196-3200 | the bytes after the last whole stripe are the length modulo the stripe |
| XxhStream.Lanes32 | include/xxhash.h:3021-3028 | the four lanes of XXH32 from the seed, in numbers |
| XxhStream.Lanes64 | include/xxhash.h:3547-3555 | the four lanes of XXH64 from the seed, in numbers |
| XxhStream.ShortHash | include/xxhash.h:3181-3202 | an input shorter than a stripe is hashed from the seed, the last prime and its length |
| XxhStream.LongHash | include/xxhash.h:3181-3202 | a longer input is hashed from its whole stripes, in order, the merged lanes, its length, and the bytes left over |
| XxhStream.ConsumeLong | include/xxhash.h:3037-3060 | reads every whole stripe and returns where it stopped |
| XxhStream.HashAtOnce | include/xxhash.h:3181-3202 | the one-shot hash, short or long |
| XxhStream.State.Reset | include/xxhash.h:3248-3254 | a fresh state of the seed |
| XxhStream.State.FillBuffer | include/xxhash.h:3279-3285 | the buffer is completed and read as the next stripe |
| XxhStream.State.Update | include/xxhash.h:3258-3301 | appends the input; the flag of a long input stays right though the 32-bit length wraps |
| XxhStream.State.Digest32 | include/xxhash.h:3305-3318 | the one-shot XXH32 of all that was fed, of any length |
| XxhStream.State.Digest64 | include/xxhash.h:3800-3813 | the one-shot XXH64 of all that was fed, below 2^64 bytes |
| Mult128.NoOverflow | include/xxhash.h:4588-4590 | no intermediate sum overflows 64 bits |
| Mult128.PortableExact | include/xxhash.h:4582-4597 | for all operands the two halves are the exact product |
| Mult128.PortableIsNative | include/xxhash.h:4498-4502 | the halves are those of the native 128-bit product |

## Left out

- File opening, mapping, truncation, partial writes, temporary files and alias checks (src/file.c): input and output. The model starts from the mapped buffer, which is not empty, since `init_files` ends the program on an empty file.
- The duplicates file is a sequence of lines.
- Case folding in `copy_file`: a map on bytes before the pipeline, so the folded bytes are the input here.
- Sizing of table and chunks (src/config.c): floating point; both sizes are parameters, and no result needs a prime.
- Options, memory probing, coloured output, progress bar and remaining-time estimate (src/status.c:14-130): user interface.
- The junk-line counter and the byte counters of the progress bar: they are counted again on every pass and drive the display alone.
- Widths of integers: `size_t` does not overflow in `g_hmap.size * 7`, and task and chunk counters are unbounded; `Counts.TriangularFits` says how far `int` carries the product, and the wrap of `has_slots` is modelled.
- Lines.GetNextLine: the junk-line count, and where the cursor is left after the last line, are not stated.
- State.LogDuplicate: the retry loop of `log_duplicate` and its exit on a failed write are not modelled.
- Hmap.PopulateHmap: the byte and junk-line counters of the progress bar are not modelled.
- Cleanout.CleanoutChunk: likewise.
- Compaction.RemoveDuplicates: likewise.
- Pipeline.Deduplicate: tags without threads; `FineRuns.AnyInterleavingDeduplicates` is the same result for the threaded tagging that `main` uses by default.
- OverloadRuns.EveryRunEnds: goes one way only. Whether some hash makes a file of several chunks go wrong also depends on how the chunks share their lines, since one hash serves them all; the conditions for one chunk, and for files of one chunk, go both ways.
- Exactness.CompletedIsDeduplication: goes one way only, for the same reason; `OverloadRuns.OneChunkIff` goes both ways.
- Cleanout.LookUp: a look-up that has been round the whole table is reported as one that never ends, instead of going on; `Index.SpentSpins` shows that it would.
- The bodies of the loops of `populate_hmap`, `cleanout_chunk`, `tag_duplicates` and `XXH3_update` are methods of their own, called from the loops; nothing else about their order differs.
- `thpool_destroy`, pause, resume, signals and allocation failures of src/thpool.c, and worker threads that start late: a pool's workers are there from the start and stay.
- ParallelRuns.ScheduleIndependence: a worker's step is a whole physical line; `FineRuns.AnyInterleaving` is the same of steps inside a line.
- ParallelRuns.AlwaysSound: likewise; `FineRuns.AlwaysBooked` covers the states inside a line.
- ParallelRuns.NothingLost: likewise; `FineRuns.NeverLost` covers the states inside a line.
- FineRuns.AnyInterleaving: reading one physical line and looking at one slot are single steps, since no other thread writes those bytes meanwhile, as `FineSteps.HereIs` and `FineRuns.TableReads` show; weaker memory orders are not modelled.
- ParallelSafety.StepSafe: the threaded program reads the table as a view; `FineRuns.TableReads` carries the packed words through a phase, and their indexing is proved for `Hmap.PopulateHmap`.
- Xxh3Stream.State.DigestOf: says nothing of inputs of 2^64 bytes or more, whose length the state cannot hold.
- XxhStream.State.Digest64: likewise.
- Xxh3.HashLongLoop: what one stripe, one scramble and the final mix compute are parameters, so SIMD variants are not told apart; with `XXH_SIZE_OPT` above zero a zero seed is derived like any other, which is not modelled.
- An external secret is a value: a caller that changes its bytes between calls is not modelled.
- Hash quality, and the short-input hashes of XXH3, which streaming and one-shot share.
