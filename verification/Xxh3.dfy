/** The long-input core of XXH3 in include/xxhash.h. What one stripe or one scramble does to the
    accumulators is a parameter, as it is there. */
module Xxh3 {
  import opened Lines

  /** `XXH_STRIPE_LEN` */
  const STRIPE := 64
  /** `XXH_SECRET_CONSUME_RATE` */
  const RATE := 8
  /** `XXH_SECRET_LASTACC_START` */
  const LASTACC := 7
  const MIDSIZE_MAX := 240
  const SECRET_MIN := 136
  const SECRET_DEFAULT := 192

  /** The parts that differ between the 64-bit and the 128-bit hash or between instruction sets:
      the first accumulators, `XXH3_accumulate_512`, `XXH3_scrambleAcc`, the end of a long hash from
      accumulators, secret and length, the hash of an input of at most 240 bytes from input, secret
      and seed, the secret derived from a seed, and the default secret. */
  datatype Kit<!Acc, !Digest> = Kit(
    init: Acc,
    accumulate: (Acc, seq<Byte>, seq<Byte>) -> Acc,
    scramble: (Acc, seq<Byte>) -> Acc,
    finish: (Acc, seq<Byte>, nat) -> Digest,
    short: (seq<Byte>, seq<Byte>, nat) -> Digest,
    derive: nat -> seq<Byte>,
    kSecret: seq<Byte>)

  ghost predicate KitOk<Acc, Digest>(k: Kit<Acc, Digest>)
  {
    |k.kSecret| == 192 && forall seed :: |k.derive(seed)| == 192
  }

  /** The stripes that one pass over the secret serves. */
  function PerBlock(secret: seq<Byte>): (n: nat)
    requires SECRET_MIN <= |secret|
    ensures 9 <= n && RATE * n + STRIPE <= |secret|
  {
    (|secret| - STRIPE) / RATE
  }

  /** The accumulators, and how many stripes of the current block they have taken in. */
  datatype Feed<Acc> = Feed(acc: Acc, pos: nat)

  /** One stripe more; the block's last one is followed by a scramble. */
  function FeedOne<Acc, Digest>(k: Kit<Acc, Digest>, secret: seq<Byte>, f: Feed<Acc>, stripe: seq<Byte>): (r: Feed<Acc>)
    requires SECRET_MIN <= |secret| && f.pos < PerBlock(secret)
    ensures r.pos < PerBlock(secret)
  {
    var a := k.accumulate(f.acc, stripe, Cut(secret, RATE * f.pos, RATE * f.pos + STRIPE));
    if f.pos + 1 < PerBlock(secret) then Feed(a, f.pos + 1)
    else Feed(k.scramble(a, Cut(secret, |secret| - STRIPE, |secret|)), 0)
  }

  /** The `n` stripes of `s` from the byte `i` on. */
  function FeedMany<Acc, Digest>(k: Kit<Acc, Digest>, secret: seq<Byte>, f: Feed<Acc>,
                                 s: seq<Byte>, i: nat, n: nat): (r: Feed<Acc>)
    requires SECRET_MIN <= |secret| && f.pos < PerBlock(secret) && i + STRIPE * n <= |s|
    ensures r.pos < PerBlock(secret)
  {
    if n == 0 then f
    else
      var j := i + STRIPE * (n - 1);
      FeedOne(k, secret, FeedMany(k, secret, f, s, i, n - 1), Cut(s, j, j + STRIPE))
  }

  /** The accumulators of a long input: every stripe that does not reach its last byte, then the last
      64 bytes, which may overlap them. */
  function LongAcc<Acc, Digest>(k: Kit<Acc, Digest>, secret: seq<Byte>, s: seq<Byte>): Acc
    requires SECRET_MIN <= |secret| && STRIPE < |s|
  {
    LastStripe(k, secret, FeedMany(k, secret, Feed(k.init, 0), s, 0, (|s| - 1) / STRIPE).acc, Cut(s, |s| - STRIPE, |s|))
  }

  function LastStripe<Acc, Digest>(k: Kit<Acc, Digest>, secret: seq<Byte>, acc: Acc, stripe: seq<Byte>): Acc
    requires SECRET_MIN <= |secret|
  {
    k.accumulate(acc, stripe, Cut(secret, |secret| - STRIPE - LASTACC, |secret| - LASTACC))
  }

  function Long<Acc, Digest>(k: Kit<Acc, Digest>, secret: seq<Byte>, s: seq<Byte>): Digest
    requires SECRET_MIN <= |secret| && STRIPE < |s|
  {
    k.finish(LongAcc(k, secret, s), secret, |s|)
  }

  // ---------------------------------------------------------------- stripes

  lemma {:induction false} FeedAppend<Acc, Digest>(
      k: Kit<Acc, Digest>, secret: seq<Byte>, f: Feed<Acc>, s: seq<Byte>, i: nat, m: nat, n: nat)
    requires SECRET_MIN <= |secret| && f.pos < PerBlock(secret) && i + STRIPE * (m + n) <= |s|
    ensures FeedMany(k, secret, f, s, i, m + n) ==
            FeedMany(k, secret, FeedMany(k, secret, f, s, i, m), s, i + STRIPE * m, n)
  {
    if n > 0 { FeedAppend(k, secret, f, s, i, m, n - 1); }
  }

  /** Equal pieces have equal parts. */
  lemma CutPart(s: seq<Byte>, i: nat, t: seq<Byte>, j: nat, n: nat, d: nat, m: nat)
    requires i + n <= |s| && j + n <= |t| && d + m <= n && Cut(s, i, i + n) == Cut(t, j, j + n)
    ensures Cut(s, i + d, i + d + m) == Cut(t, j + d, j + d + m)
  {
    assert Cut(s, i + d, i + d + m) == Cut(Cut(s, i, i + n), d, d + m);
    assert Cut(t, j + d, j + d + m) == Cut(Cut(t, j, j + n), d, d + m);
  }

  /** Stripes are the same wherever their bytes are. */
  lemma {:induction false} FeedFrame<Acc, Digest>(
      k: Kit<Acc, Digest>, secret: seq<Byte>, f: Feed<Acc>, s: seq<Byte>, i: nat, t: seq<Byte>, j: nat, n: nat)
    requires SECRET_MIN <= |secret| && f.pos < PerBlock(secret)
    requires i + STRIPE * n <= |s| && j + STRIPE * n <= |t|
    requires Cut(s, i, i + STRIPE * n) == Cut(t, j, j + STRIPE * n)
    ensures FeedMany(k, secret, f, s, i, n) == FeedMany(k, secret, f, t, j, n)
  {
    if n > 0 {
      var d := STRIPE * (n - 1);
      CutPart(s, i, t, j, STRIPE * n, 0, d);
      CutPart(s, i, t, j, STRIPE * n, d, STRIPE);
      FeedFrame(k, secret, f, s, i, t, j, n - 1);
    }
  }

  /** Stripes inside a block, without the scramble: the loop of `XXH3_accumulate`. */
  function Accumulated<Acc, Digest>(k: Kit<Acc, Digest>, secret: seq<Byte>, acc: Acc, pos: nat,
                                    s: seq<Byte>, i: nat, n: nat): Acc
    requires i + STRIPE * n <= |s| && RATE * (pos + n) + STRIPE <= |secret|
  {
    if n == 0 then acc
    else
      var j, o := i + STRIPE * (n - 1), RATE * (pos + n - 1);
      k.accumulate(Accumulated(k, secret, acc, pos, s, i, n - 1), Cut(s, j, j + STRIPE), Cut(secret, o, o + STRIPE))
  }

  /** Short of the end of the block, or up to it with the scramble that follows. */
  lemma {:induction false} FeedInBlock<Acc, Digest>(
      k: Kit<Acc, Digest>, secret: seq<Byte>, f: Feed<Acc>, s: seq<Byte>, i: nat, n: nat)
    requires SECRET_MIN <= |secret| && f.pos < PerBlock(secret) && i + STRIPE * n <= |s|
    requires f.pos + n <= PerBlock(secret)
    ensures var a := Accumulated(k, secret, f.acc, f.pos, s, i, n);
            FeedMany(k, secret, f, s, i, n) ==
            if f.pos + n < PerBlock(secret) then Feed(a, f.pos + n)
            else Feed(k.scramble(a, Cut(secret, |secret| - STRIPE, |secret|)), 0)
  {
    if n > 0 { FeedInBlock(k, secret, f, s, i, n - 1); }
  }

  /** `XXH3_accumulate` */
  method Accumulate<Acc, Digest>(k: Kit<Acc, Digest>, secret: seq<Byte>, acc: Acc, pos: nat,
                                 s: seq<Byte>, i: nat, n: nat)
    returns (r: Acc)
    requires i + STRIPE * n <= |s| && RATE * (pos + n) + STRIPE <= |secret|
    ensures r == Accumulated(k, secret, acc, pos, s, i, n)
  {
    r := acc;
    var m := 0;
    while m < n
      invariant 0 <= m <= n
      invariant r == Accumulated(k, secret, acc, pos, s, i, m)
    {
      var j, o := i + STRIPE * m, RATE * (pos + m);
      r := k.accumulate(r, Cut(s, j, j + STRIPE), Cut(secret, o, o + STRIPE));
      m := m + 1;
    }
  }

  /** `f` has been fed `d` stripes from the byte `i` of `input` on, and has come to `acc` and `pos`. */
  ghost predicate Fed<Acc, Digest>(k: Kit<Acc, Digest>, secret: seq<Byte>, f: Feed<Acc>,
                                   input: seq<Byte>, i: nat, d: nat, r: Feed<Acc>)
  {
    && SECRET_MIN <= |secret| && f.pos < PerBlock(secret) && i + STRIPE * d <= |input|
    && r == FeedMany(k, secret, f, input, i, d)
  }

  /** Part of a block, or all that is left of it and then the scramble. */
  method ConsumePart<Acc, Digest>(k: Kit<Acc, Digest>, secret: seq<Byte>, acc: Acc, pos: nat, input: seq<Byte>,
                                  next: nat, n: nat, ghost f: Feed<Acc>, ghost i: nat, ghost d: nat)
    returns (r: Acc)
    requires Fed(k, secret, f, input, i, d, Feed(acc, pos)) && next == i + STRIPE * d
    requires next + STRIPE * n <= |input| && pos + n <= PerBlock(secret)
    ensures Fed(k, secret, f, input, i, d + n, if pos + n < PerBlock(secret) then Feed(r, pos + n) else Feed(r, 0))
  {
    FeedAppend(k, secret, f, input, i, d, n);
    assert FeedMany(k, secret, f, input, i, d + n) == FeedMany(k, secret, Feed(acc, pos), input, next, n);
    FeedInBlock(k, secret, Feed(acc, pos), input, next, n);
    r := Accumulate(k, secret, acc, pos, input, next, n);
    if pos + n == PerBlock(secret) {
      r := k.scramble(r, Cut(secret, |secret| - STRIPE, |secret|));
    }
  }

  // ---------------------------------------------------------------- one-shot

  /** The blocks and the stripes of the last block, counted by lengths, are the stripes of the input. */
  lemma StripesOf(len: nat, perBlock: nat, blocks: nat, rest: nat)
    requires 0 < len && 0 < perBlock
    requires blocks == (len - 1) / (STRIPE * perBlock)
    requires rest == (len - 1 - STRIPE * perBlock * blocks) / STRIPE
    ensures rest < perBlock && (len - 1) / STRIPE == perBlock * blocks + rest
    ensures STRIPE * (perBlock * blocks + rest) < len
  {
    var b, x := STRIPE * perBlock, perBlock * blocks;
    assert b * blocks == STRIPE * x;
    assert b * blocks <= len - 1 < b * blocks + b;
    assert STRIPE * rest <= len - 1 - STRIPE * x < STRIPE * rest + STRIPE;
  }

  lemma NextBlock(perBlock: nat, n: nat, blocks: nat, d: nat, done: nat)
    requires n < blocks && d == perBlock * n && done == perBlock * blocks
    ensures perBlock * (n + 1) == d + perBlock <= done
  {
    var more := blocks - n - 1;
    assert 0 <= perBlock * more;
    assert perBlock * (n + 1 + more) == perBlock * n + perBlock + perBlock * more;
  }

  /** The blocks of `XXH3_hashLong_internal_loop`, `done` stripes in all. */
  method HashBlocks<Acc, Digest>(k: Kit<Acc, Digest>, secret: seq<Byte>, s: seq<Byte>, blocks: nat, ghost done: nat)
    returns (acc: Acc)
    requires SECRET_MIN <= |secret| && done == PerBlock(secret) * blocks && STRIPE * done <= |s|
    ensures Fed(k, secret, Feed(k.init, 0), s, 0, done, Feed(acc, 0))
  {
    var perBlock := PerBlock(secret);
    acc := k.init;
    var n, i := 0, 0;
    ghost var d := 0;
    while n < blocks
      invariant 0 <= n <= blocks && 0 <= d <= done && d == perBlock * n && i == STRIPE * d
      invariant Fed(k, secret, Feed(k.init, 0), s, 0, d, Feed(acc, 0))
    {
      NextBlock(perBlock, n, blocks, d, done);
      acc := ConsumePart(k, secret, acc, 0, s, i, perBlock, Feed(k.init, 0), 0, d);
      n, i, d := n + 1, i + STRIPE * perBlock, d + perBlock;
    }
    assert d == done;
  }

  /** The last partial block and the last stripe. */
  method HashRest<Acc, Digest>(k: Kit<Acc, Digest>, secret: seq<Byte>, s: seq<Byte>, acc: Acc, done: nat, rest: nat)
    returns (r: Acc)
    requires SECRET_MIN <= |secret| && STRIPE < |s| && rest < PerBlock(secret) && done + rest == (|s| - 1) / STRIPE
    requires Fed(k, secret, Feed(k.init, 0), s, 0, done, Feed(acc, 0))
    ensures r == LongAcc(k, secret, s)
  {
    r := ConsumePart(k, secret, acc, 0, s, STRIPE * done, rest, Feed(k.init, 0), 0, done);
    r := LastStripe(k, secret, r, Cut(s, |s| - STRIPE, |s|));
  }

  /** How many whole blocks, and how many stripes of the last one. */
  method CountBlocks(len: nat, perBlock: nat) returns (blocks: nat, done: nat, rest: nat)
    requires STRIPE < len && 0 < perBlock
    ensures done == perBlock * blocks && rest < perBlock
    ensures done + rest == (len - 1) / STRIPE && STRIPE * done + STRIPE * rest < len
  {
    blocks := (len - 1) / (STRIPE * perBlock);
    rest := (len - 1 - STRIPE * perBlock * blocks) / STRIPE;
    StripesOf(len, perBlock, blocks, rest);
    done := perBlock * blocks;
  }

  /** `XXH3_hashLong_internal_loop`: whole blocks, the last partial block, the last stripe. */
  method HashLongLoop<Acc, Digest>(k: Kit<Acc, Digest>, secret: seq<Byte>, s: seq<Byte>) returns (acc: Acc)
    requires SECRET_MIN <= |secret| && STRIPE < |s|
    ensures acc == LongAcc(k, secret, s)
  {
    var blocks, done, rest := CountBlocks(|s|, PerBlock(secret));
    acc := HashBlocks(k, secret, s, blocks, done);
    acc := HashRest(k, secret, s, acc, done, rest);
  }
}
