/** The streaming interface of XXH3 in include/xxhash.h: however the input is split, and whichever
    reset begins, the digest is the matching one-shot hash. */
module Xxh3Stream {
  import opened Lines
  import opened Words
  import opened Index
  import opened Xxh3

  const BUFFER := 256

  /** The one-shot function that a state is to agree with: `XXH3_64bits`, `XXH3_64bits_withSecret`,
      `XXH3_64bits_withSeed` or `XXH3_64bits_withSecretandSeed`, or their 128-bit likes. */
  datatype Variant =
    | Plain
    | WithSecret(secret: seq<Byte>)
    | WithSeed(seed: nat)
    | WithBoth(secret: seq<Byte>, seed: nat)

  predicate VariantOk(v: Variant)
  {
    v.WithSecret? || v.WithBoth? ==> 136 <= |v.secret|
  }

  ghost function OneShot<Acc, Digest>(k: Kit<Acc, Digest>, v: Variant, s: seq<Byte>): Digest
    requires KitOk(k) && VariantOk(v)
  {
    var small := |s| <= MIDSIZE_MAX;
    match v
    case Plain => if small then k.short(s, k.kSecret, 0) else Long(k, k.kSecret, s)
    case WithSecret(secret) => if small then k.short(s, secret, 0) else Long(k, secret, s)
    case WithSeed(seed) =>
      if small then k.short(s, k.kSecret, seed)
      else if seed == 0 then Long(k, k.kSecret, s)
      else Long(k, k.derive(seed), s)
    case WithBoth(secret, seed) => if small then k.short(s, k.kSecret, seed) else Long(k, secret, s)
  }

  /** `XXH3_consumeStripes`: takes in stripes from wherever in a block the last call ended. */
  method ConsumeStripes<Acc, Digest>(k: Kit<Acc, Digest>, secret: seq<Byte>, acc: Acc, soFar: nat, perBlock: nat,
                                     input: seq<Byte>, i: nat, nbStripes: nat)
    returns (r: Acc, pos: nat, next: nat)
    requires SECRET_MIN <= |secret| && perBlock == PerBlock(secret) && soFar < perBlock
    requires i + STRIPE * nbStripes <= |input|
    ensures pos < perBlock && next == i + STRIPE * nbStripes
    ensures Fed(k, secret, Feed(acc, soFar), input, i, nbStripes, Feed(r, pos))
  {
    ghost var f := Feed(acc, soFar);
    var left := nbStripes;
    r, pos, next := acc, soFar, i;
    ghost var d := 0;
    if left >= perBlock - soFar {
      var now := perBlock - soFar;
      var more := true;
      while more
        invariant 0 <= left && 0 <= d && d + left == nbStripes && next == i + STRIPE * d
        invariant pos < perBlock && now == perBlock - pos && (more <==> left >= now)
        invariant Fed(k, secret, f, input, i, d, Feed(r, pos))
        decreases left
      {
        r := ConsumePart(k, secret, r, pos, input, next, now, f, i, d);
        next, left, d := next + STRIPE * now, left - now, d + now;
        pos, now := 0, perBlock;
        more := left >= perBlock;
      }
    }
    if left > 0 {
      r := ConsumePart(k, secret, r, pos, input, next, left, f, i, d);
      next, pos := next + STRIPE * left, pos + left;
    }
  }

  // ---------------------------------------------------------------- the buffer

  /** `b` with `piece` written over it from `at` on. */
  function Overwrite(b: seq<Byte>, at: nat, piece: seq<Byte>): (r: seq<Byte>)
    requires at + |piece| <= |b|
    ensures |r| == |b|
    ensures forall x | 0 <= x < |b| :: r[x] == if at <= x < at + |piece| then piece[x - at] else b[x]
  {
    seq(|b|, x requires 0 <= x < |b| => if at <= x < at + |piece| then piece[x - at] else b[x])
  }

  /** `memcpy` into the buffer. */
  method MemCpy(dst: array<Byte>, at: nat, src: seq<Byte>, from: nat, n: nat)
    requires at + n <= dst.Length && from + n <= |src|
    modifies dst
    ensures dst[..] == Overwrite(old(dst[..]), at, Cut(src, from, from + n))
  {
    var m := 0;
    while m < n
      invariant 0 <= m <= n
      invariant forall x | 0 <= x < dst.Length ::
                  dst[x] == if at <= x < at + m then src[from + (x - at)] else old(dst[x])
    {
      dst[at + m] := src[from + m];
      m := m + 1;
    }
  }

  /** The last 64 bytes of `b` are those of `s[..at]`. */
  predicate TailHolds(b: seq<Byte>, s: seq<Byte>, at: nat)
  {
    |b| == BUFFER && STRIPE <= at <= |s| && forall x | BUFFER - STRIPE <= x < BUFFER :: b[x] == s[at + x - BUFFER]
  }

  /** The buffer `b` after `fed`, of which the stripes up to `at` have been taken in: it begins with the
      other bytes, and what they do not cover of its last 64 bytes are the bytes just before `at`. */
  predicate Holds(b: seq<Byte>, fed: seq<Byte>, at: nat, size: nat)
  {
    && |b| == BUFFER && at + size == |fed| && size <= BUFFER
    && (forall x | 0 <= x < size :: b[x] == fed[at + x])
    && (0 < at ==> STRIPE <= at && 0 < size && BUFFER < |fed|
                   && forall x | BUFFER - STRIPE <= x < BUFFER && size <= x :: b[x] == fed[at + x - BUFFER])
  }

  lemma HoldsMore(b: seq<Byte>, fed: seq<Byte>, at: nat, size: nat, input: seq<Byte>)
    requires Holds(b, fed, at, size) && size + |input| <= BUFFER
    ensures Holds(Overwrite(b, size, input), fed + input, at, size + |input|)
  { }

  /** A full buffer. */
  lemma HoldsAll(b: seq<Byte>, fed: seq<Byte>, at: nat, size: nat, input: seq<Byte>)
    requires Holds(b, fed, at, size) && BUFFER < size + |input|
    ensures var b', s := Overwrite(b, size, Cut(input, 0, BUFFER - size)), fed + input;
            Cut(b', 0, BUFFER) == Cut(s, at, at + BUFFER) && TailHolds(b', s, at + BUFFER)
  { }

  lemma HoldsRest(b: seq<Byte>, s: seq<Byte>, at: nat, rest: nat)
    requires TailHolds(b, s, at) && at + rest == |s| && 0 < rest <= BUFFER < |s|
    ensures Holds(Overwrite(b, 0, Cut(s, at, |s|)), s, at, rest)
  { }

  lemma HoldsTail(b: seq<Byte>, s: seq<Byte>, at: nat)
    requires |b| == BUFFER && STRIPE <= at <= |s|
    ensures TailHolds(Overwrite(b, BUFFER - STRIPE, Cut(s, at - STRIPE, at)), s, at)
  { }

  /** A short input is all in the buffer. */
  lemma HoldsShort(b: seq<Byte>, fed: seq<Byte>, at: nat, size: nat)
    requires Holds(b, fed, at, size) && |fed| <= BUFFER
    ensures at == 0 && Cut(b, 0, |fed|) == fed
  { }

  /** The last 64 bytes, put together from the end of the buffer and its beginning. */
  lemma LastBytes(b: seq<Byte>, fed: seq<Byte>, at: nat, size: nat)
    requires Holds(b, fed, at, size) && 0 < at && size < STRIPE
    ensures Cut(b, BUFFER - (STRIPE - size), BUFFER) + Cut(b, 0, size) == Cut(fed, |fed| - STRIPE, |fed|)
  { }

  lemma LastInBuffer(b: seq<Byte>, fed: seq<Byte>, at: nat, size: nat)
    requires Holds(b, fed, at, size) && STRIPE <= size
    ensures Cut(b, size - STRIPE, size) == Cut(fed, |fed| - STRIPE, |fed|)
  { }

  lemma RestAt(fed: seq<Byte>, input: seq<Byte>, i: nat, at: nat)
    requires i <= |input| && at + (|input| - i) == |fed| + |input|
    ensures Cut(input, i, |input|) == Cut(fed + input, at, |fed + input|)
  { }

  lemma WrapAdd(m: nat, n: nat)
    ensures (m % TWO_64 + n) % TWO_64 == (m + n) % TWO_64
  { }

  // ---------------------------------------------------------------- stripes of a stream

  /** Stripes taken in stay taken in when input is appended. */
  lemma FedOn<Acc, Digest>(k: Kit<Acc, Digest>, secret: seq<Byte>, f: Feed<Acc>, fed: seq<Byte>, d: nat,
                           r: Feed<Acc>, input: seq<Byte>)
    requires Fed(k, secret, f, fed, 0, d, r)
    ensures Fed(k, secret, f, fed + input, 0, d, r)
  {
    assert Cut(fed, 0, STRIPE * d) == Cut(fed + input, 0, STRIPE * d);
    FeedFrame(k, secret, f, fed, 0, fed + input, 0, d);
  }

  /** Stripes read elsewhere are the next stripes of the stream. */
  lemma FedThen<Acc, Digest>(k: Kit<Acc, Digest>, secret: seq<Byte>, f: Feed<Acc>, s: seq<Byte>, d: nat, mid: Feed<Acc>,
                             t: seq<Byte>, i: nat, n: nat, r: Feed<Acc>)
    requires Fed(k, secret, f, s, 0, d, mid) && Fed(k, secret, mid, t, i, n, r)
    requires STRIPE * d + STRIPE * n <= |s|
    requires Cut(t, i, i + STRIPE * n) == Cut(s, STRIPE * d, STRIPE * d + STRIPE * n)
    ensures Fed(k, secret, f, s, 0, d + n, r)
  {
    FeedFrame(k, secret, mid, t, i, s, STRIPE * d, n);
    FeedAppend(k, secret, f, s, 0, d, n);
  }

  // ---------------------------------------------------------------- the state

  datatype Settings = Settings(customSecret: seq<Byte>, useSeed: bool, nbStripesPerBlock: nat, secretLimit: nat,
                               seed: nat, extSecret: Option<seq<Byte>>) {

    function Secret(): seq<Byte>
    {
      if extSecret.None? then customSecret else extSecret.value
    }

    /** The secret of a seed is not derived again while this holds. */
    ghost predicate Cached<Acc, Digest>(k: Kit<Acc, Digest>)
    {
      extSecret.None? && seed != 0 ==> customSecret == k.derive(seed)
    }

    /** What a reset of the variant sets. */
    ghost predicate Match<Acc, Digest>(k: Kit<Acc, Digest>, variant: Variant)
    {
      && VariantOk(variant)
      && (match variant
          case Plain => extSecret == Some(k.kSecret) && !useSeed
          case WithSecret(secret) => extSecret == Some(secret) && !useSeed
          case WithSeed(z) =>
            if z == 0 then extSecret == Some(k.kSecret) && !useSeed else extSecret.None? && useSeed && seed == z
          case WithBoth(secret, z) => extSecret == Some(secret) && useSeed && seed == z)
      && SECRET_MIN <= |Secret()| && secretLimit == |Secret()| - STRIPE && nbStripesPerBlock == PerBlock(Secret())
    }
  }

  /** The last place where a stripe's worth of secret starts; `size_t` wraps around. */
  function Limit(secretSize: nat): nat
  {
    if STRIPE <= secretSize then secretSize - STRIPE else TWO_64 + secretSize - STRIPE
  }

  /** `XXH3_state_t`. A pointer to an external secret is the secret itself, which callers leave alone. */
  class State<Acc, Digest> {
    const k: Kit<Acc, Digest>
    var acc: Acc
    var customSecret: seq<Byte>
    const buffer: array<Byte>
    var bufferedSize: nat
    var useSeed: bool
    var nbStripesSoFar: nat
    var totalLen: nat
    var nbStripesPerBlock: nat
    var secretLimit: nat
    var seed: nat
    var extSecret: Option<seq<Byte>>
    /** What the digest is to be: of which variant, and of which input. */
    ghost var variant: Variant
    ghost var fed: seq<Byte>
    /** The number of stripes taken in. */
    ghost var taken: nat

    /** The fields that only a reset changes. */
    function Set(): Settings
      reads this`customSecret, this`useSeed, this`nbStripesPerBlock, this`secretLimit, this`seed, this`extSecret
    {
      Settings(customSecret, useSeed, nbStripesPerBlock, secretLimit, seed, extSecret)
    }

    function Secret(): seq<Byte>
      reads this`customSecret, this`useSeed, this`nbStripesPerBlock, this`secretLimit, this`seed, this`extSecret
    {
      Set().Secret()
    }

    /** Any reset can come next. */
    ghost predicate Ready()
      reads this`customSecret, this`useSeed, this`nbStripesPerBlock, this`secretLimit, this`seed, this`extSecret
    {
      KitOk(k) && buffer.Length == 256 && Set().Cached(k)
    }

    /** A reset has succeeded, and `fed` has been fed since. */
    ghost predicate Valid()
      reads this, buffer
    {
      Going() && totalLen == |fed| % TWO_64
    }

    ghost predicate Going()
      reads this`customSecret, this`useSeed, this`nbStripesPerBlock, this`secretLimit, this`seed, this`extSecret
      reads this`acc, this`nbStripesSoFar, this`bufferedSize, this`fed, this`taken, this`variant, buffer
    {
      && Ready() && Set().Match(k, variant)
      && Fed(k, Secret(), Feed(k.init, 0), fed, 0, taken, Feed(acc, nbStripesSoFar))
      && Holds(buffer[..], fed, STRIPE * taken, bufferedSize)
    }

    /** `XXH3_INITSTATE`; the other fields hold anything. */
    constructor (k: Kit<Acc, Digest>, acc: Acc, customSecret: seq<Byte>, buffer: array<Byte>)
      requires KitOk(k) && buffer.Length == BUFFER
      ensures Ready() && this.k == k && this.buffer == buffer
    {
      this.k, this.acc, this.customSecret, this.buffer := k, acc, customSecret, buffer;
      seed, extSecret := 0, None;
    }

    /** The `memset` of `XXH3_reset_internal`. */
    method ZeroMembers()
      modifies this`bufferedSize, this`useSeed, this`nbStripesSoFar, this`totalLen, this`fed, this`taken
      ensures bufferedSize == nbStripesSoFar == totalLen == taken == 0 && !useSeed && fed == []
    {
      bufferedSize, useSeed, nbStripesSoFar, totalLen := 0, false, 0, 0;
      fed, taken := [], 0;
    }

    /** `XXH3_reset_internal`; the null secret is `None`. */
    method ResetInternal(z: nat, secret: Option<seq<Byte>>, secretSize: nat)
      modifies this
      ensures acc == k.init && bufferedSize == nbStripesSoFar == totalLen == taken == 0 && fed == []
      ensures seed == z && (useSeed <==> z != 0) && extSecret == secret && customSecret == old(customSecret)
      ensures secretLimit == Limit(secretSize) && nbStripesPerBlock == secretLimit / RATE
    {
      ZeroMembers();
      acc, seed, useSeed, extSecret := k.init, z, z != 0, secret;
      secretLimit := Limit(secretSize);
      nbStripesPerBlock := secretLimit / RATE;
    }

    /** `XXH3_64bits_reset` */
    method Reset()
      requires Ready()
      modifies this
      ensures Valid() && fed == [] && variant == Plain
    {
      ResetInternal(0, Some(k.kSecret), SECRET_DEFAULT);
      variant := Plain;
    }

    /** `XXH3_64bits_reset_withSecret` */
    method ResetWithSecret(secret: Option<seq<Byte>>, secretSize: nat) returns (ok: bool)
      requires Ready() && secretSize < TWO_64 && (secret.Some? ==> |secret.value| == secretSize)
      modifies this
      ensures Ready()
      ensures ok <==> secret.Some? && 136 <= secretSize
      ensures ok ==> Valid() && fed == [] && variant == WithSecret(secret.value)
    {
      ResetInternal(0, secret, secretSize);
      if secret.None? { return false; }
      if secretSize < SECRET_MIN { return false; }
      variant := WithSecret(secret.value);
      return true;
    }

    /** `XXH3_64bits_reset_withSeed`: the derived secret is kept when it is still the right one. */
    method ResetWithSeed(z: nat)
      requires Ready()
      modifies this
      ensures Valid() && fed == [] && variant == WithSeed(z)
    {
      if z == 0 {
        Reset();
      } else {
        if z != seed || extSecret.Some? {
          customSecret := k.derive(z);
        }
        ResetInternal(z, None, SECRET_DEFAULT);
      }
      variant := WithSeed(z);
    }

    /** `XXH3_64bits_reset_withSecretandSeed` */
    method ResetWithSecretAndSeed(secret: Option<seq<Byte>>, secretSize: nat, z: nat) returns (ok: bool)
      requires Ready() && secretSize < TWO_64 && (secret.Some? ==> |secret.value| == secretSize)
      modifies this
      ensures Ready()
      ensures ok <==> secret.Some? && 136 <= secretSize
      ensures ok ==> Valid() && fed == [] && variant == WithBoth(secret.value, z)
    {
      if secret.None? { return false; }
      if secretSize < SECRET_MIN { return false; }
      ResetInternal(z, secret, secretSize);
      useSeed := true;
      variant := WithBoth(secret.value, z);
      return true;
    }

    /** `a` and `pos` are what `s` up to its stripe `d` makes of the accumulators. */
    ghost predicate Upto(s: seq<Byte>, d: nat, a: Acc, pos: nat)
      reads this`customSecret, this`useSeed, this`nbStripesPerBlock, this`secretLimit, this`seed, this`extSecret
    {
      Fed(k, Secret(), Feed(k.init, 0), s, 0, d, Feed(a, pos))
    }

    /** `XXH3_update`, where a part of the buffer is filled: it is completed and taken in. */
    method FillBuffer(input: seq<Byte>) returns (a: Acc, pos: nat, i: nat)
      requires Going() && 0 < bufferedSize && BUFFER < bufferedSize + |input|
      modifies buffer
      ensures i == BUFFER - bufferedSize
      ensures Upto(fed + input, taken + 4, a, pos)
      ensures TailHolds(buffer[..], fed + input, STRIPE * (taken + 4))
    {
      ghost var b, s := buffer[..], fed + input;
      i := BUFFER - bufferedSize;
      MemCpy(buffer, bufferedSize, input, 0, i);
      HoldsAll(b, fed, STRIPE * taken, bufferedSize, input);
      FedOn(k, Secret(), Feed(k.init, 0), fed, taken, Feed(acc, nbStripesSoFar), input);
      var end;
      a, pos, end := ConsumeStripes(k, Secret(), acc, nbStripesSoFar, nbStripesPerBlock,
                                    buffer[..], 0, BUFFER / STRIPE);
      FedThen(k, Secret(), Feed(k.init, 0), s, taken, Feed(acc, nbStripesSoFar), buffer[..], 0, 4, Feed(a, pos));
    }

    /** `XXH3_update`, where more than a buffer is left: all but the last stripe is taken in. */
    method TakeInput(input: seq<Byte>, a0: Acc, pos0: nat, i0: nat, ghost s: seq<Byte>, ghost d: nat)
      returns (a: Acc, pos: nat, i: nat, ghost n: nat)
      requires Ready() && Set().Match(k, variant) && Upto(s, d, a0, pos0)
      requires i0 + BUFFER < |input| && STRIPE * d + (|input| - i0) == |s|
      requires Cut(input, i0, |input|) == Cut(s, STRIPE * d, |s|)
      modifies buffer
      ensures i == i0 + STRIPE * n && i < |input| <= i + STRIPE
      ensures Upto(s, d + n, a, pos) && TailHolds(buffer[..], s, STRIPE * (d + n))
    {
      var nbStripes := (|input| - 1 - i0) / STRIPE;
      n := nbStripes;
      CutPart(input, i0, s, STRIPE * d, |input| - i0, 0, STRIPE * n);
      CutPart(input, i0, s, STRIPE * d, |input| - i0, STRIPE * (n - 1), STRIPE);
      a, pos, i := ConsumeStripes(k, Secret(), a0, pos0, nbStripesPerBlock, input, i0, nbStripes);
      FedThen(k, Secret(), Feed(k.init, 0), s, d, Feed(a0, pos0), input, i0, n, Feed(a, pos));
      HoldsTail(buffer[..], s, STRIPE * (d + n));
      MemCpy(buffer, BUFFER - STRIPE, input, i - STRIPE, STRIPE);
    }

    /** `XXH3_update`: the input goes behind what is buffered. */
    method BufferMore(input: seq<Byte>)
      requires Holds(buffer[..], fed, STRIPE * taken, bufferedSize) && bufferedSize + |input| <= BUFFER
      modifies buffer
      ensures Holds(buffer[..], fed + input, STRIPE * taken, bufferedSize + |input|)
    {
      HoldsMore(buffer[..], fed, STRIPE * taken, bufferedSize, input);
      assert Cut(input, 0, |input|) == input;
      MemCpy(buffer, bufferedSize, input, 0, |input|);
    }

    /** `XXH3_update`, of an input that fits the buffer. */
    method UpdateSmall(input: seq<Byte>)
      requires Going() && |input| <= BUFFER - bufferedSize
      modifies this, buffer
      ensures Going() && fed == old(fed) + input && variant == old(variant) && totalLen == old(totalLen)
    {
      ghost var was := Set();
      FedOn(k, Secret(), Feed(k.init, 0), fed, taken, Feed(acc, nbStripesSoFar), input);
      BufferMore(input);
      bufferedSize := bufferedSize + |input|;
      fed := fed + input;
      assert Set() == was;
    }

    /** `XXH3_update`, of one that does not: the buffer, if it holds anything, is filled and taken in. */
    method TakeBuffer(input: seq<Byte>) returns (a: Acc, pos: nat, i: nat, ghost d: nat)
      requires Going() && BUFFER - bufferedSize < |input|
      modifies buffer
      ensures i < |input| && STRIPE * d + (|input| - i) == |fed| + |input| && Upto(fed + input, d, a, pos)
      ensures BUFFER < |input| - i || TailHolds(buffer[..], fed + input, STRIPE * d)
    {
      a, pos, i, d := acc, nbStripesSoFar, 0, taken;
      if bufferedSize != 0 {
        a, pos, i := FillBuffer(input);
        d := d + 4;
      } else {
        FedOn(k, Secret(), Feed(k.init, 0), fed, taken, Feed(acc, nbStripesSoFar), input);
      }
    }

    /** `XXH3_update`: what is taken in before the rest is buffered. */
    method TakeLarge(input: seq<Byte>) returns (a: Acc, pos: nat, i: nat, ghost d: nat)
      requires Going() && BUFFER - bufferedSize < |input|
      modifies buffer
      ensures 0 <= |input| - i - 1 < BUFFER && STRIPE * d + (|input| - i) == |fed| + |input|
      ensures Upto(fed + input, d, a, pos) && TailHolds(buffer[..], fed + input, STRIPE * d)
    {
      a, pos, i, d := TakeBuffer(input);
      if BUFFER < |input| - i {
        RestAt(fed, input, i, STRIPE * d);
        ghost var n;
        a, pos, i, n := TakeInput(input, a, pos, i, fed + input, d);
        d := d + n;
      }
    }

    /** `XXH3_update`: the rest is buffered. */
    method BufferRest(input: seq<Byte>, i: nat, ghost d: nat)
      requires buffer.Length == BUFFER < |fed| + |input| && TailHolds(buffer[..], fed + input, STRIPE * d)
      requires i < |input| <= i + BUFFER && STRIPE * d + (|input| - i) == |fed| + |input|
      modifies buffer
      ensures Holds(buffer[..], fed + input, STRIPE * d, |input| - i)
    {
      RestAt(fed, input, i, STRIPE * d);
      HoldsRest(buffer[..], fed + input, STRIPE * d, |input| - i);
      MemCpy(buffer, 0, input, i, |input| - i);
    }

    method UpdateLarge(input: seq<Byte>)
      requires Going() && BUFFER - bufferedSize < |input|
      modifies this, buffer
      ensures Going() && fed == old(fed) + input && variant == old(variant) && totalLen == old(totalLen)
    {
      ghost var d;
      var a, pos, i;
      a, pos, i, d := TakeLarge(input);
      BufferRest(input, i, d);
      ghost var was := Set();
      bufferedSize, acc, nbStripesSoFar := |input| - i, a, pos;
      fed, taken := fed + input, d;
      assert Set() == was;
    }

    /** `XXH3_update` */
    method Update(input: seq<Byte>)
      requires Valid()
      modifies this, buffer
      ensures Valid() && fed == old(fed) + input && variant == old(variant)
    {
      WrapAdd(|fed|, |input|);
      totalLen := (totalLen + |input|) % TWO_64;
      if |input| <= BUFFER - bufferedSize { UpdateSmall(input); } else { UpdateLarge(input); }
    }

    /** `XXH3_digest_long`: the stripes in the buffer that do not reach its last byte. */
    method DigestStripes() returns (r: Acc)
      requires Going() && STRIPE <= bufferedSize
      ensures r == FeedMany(k, Secret(), Feed(k.init, 0), fed, 0, (|fed| - 1) / STRIPE).acc
    {
      var nbStripes := (bufferedSize - 1) / STRIPE;
      var pos, end;
      r, pos, end := ConsumeStripes(k, Secret(), acc, nbStripesSoFar, nbStripesPerBlock, buffer[..], 0, nbStripes);
      assert Cut(buffer[..], 0, STRIPE * nbStripes) == Cut(fed, STRIPE * taken, STRIPE * taken + STRIPE * nbStripes);
      FedThen(k, Secret(), Feed(k.init, 0), fed, taken, Feed(acc, nbStripesSoFar),
              buffer[..], 0, nbStripes, Feed(r, pos));
    }

    /** `XXH3_digest_long`, on a copy of the accumulators. */
    method DigestLong() returns (r: Acc)
      requires Going() && MIDSIZE_MAX < |fed|
      ensures r == LongAcc(k, Secret(), fed)
    {
      r := acc;
      var last;
      if STRIPE <= bufferedSize {
        r := DigestStripes();
        LastInBuffer(buffer[..], fed, STRIPE * taken, bufferedSize);
        last := Cut(buffer[..], bufferedSize - STRIPE, bufferedSize);
      } else {
        LastBytes(buffer[..], fed, STRIPE * taken, bufferedSize);
        last := Cut(buffer[..], BUFFER - (STRIPE - bufferedSize), BUFFER) + Cut(buffer[..], 0, bufferedSize);
      }
      r := LastStripe(k, Secret(), r, last);
    }

    /** `XXH3_64bits_digest` and `XXH3_128bits_digest`: of any input shorter than 2^64 bytes, however it
        was fed, the one-shot hash of the variant. The state stays as it is. */
    method DigestOf() returns (h: Digest)
      requires Valid()
      ensures |fed| < TWO_64 ==> h == OneShot(k, variant, fed)
    {
      if totalLen > MIDSIZE_MAX {
        var a := DigestLong();
        return k.finish(a, Secret(), totalLen);
      }
      if |fed| <= MIDSIZE_MAX { HoldsShort(buffer[..], fed, STRIPE * taken, bufferedSize); }
      if useSeed {
        return k.short(Cut(buffer[..], 0, totalLen), k.kSecret, seed);
      }
      return k.short(Cut(buffer[..], 0, totalLen), Secret(), 0);
    }
  }

  // ---------------------------------------------------------------- one-shot against streaming

  method HashLong<Acc, Digest>(k: Kit<Acc, Digest>, secret: seq<Byte>, s: seq<Byte>) returns (h: Digest)
    requires SECRET_MIN <= |secret| && MIDSIZE_MAX < |s|
    ensures h == Long(k, secret, s)
  {
    var acc := HashLongLoop(k, secret, s);
    h := k.finish(acc, secret, |s|);
  }

  /** The one-shot entry points. */
  method HashAtOnce<Acc, Digest>(k: Kit<Acc, Digest>, v: Variant, s: seq<Byte>) returns (h: Digest)
    requires KitOk(k) && VariantOk(v)
    ensures h == OneShot(k, v, s)
  {
    if |s| <= MIDSIZE_MAX {
      var secret := if v.WithSecret? then v.secret else k.kSecret;
      return k.short(s, secret, if v.WithSeed? || v.WithBoth? then v.seed else 0);
    }
    if v.WithSeed? && v.seed != 0 {
      h := HashLong(k, k.derive(v.seed), s);
    } else if v.WithSecret? || v.WithBoth? {
      h := HashLong(k, v.secret, s);
    } else {
      h := HashLong(k, k.kSecret, s);
    }
  }

  /** The pieces, one after the other. */
  function Concat(pieces: seq<seq<Byte>>): seq<Byte>
  {
    if pieces == [] then [] else Concat(pieces[..|pieces| - 1]) + pieces[|pieces| - 1]
  }

  /** The documented use: a reset, an update for every piece, a digest. */
  method HashPieces<Acc, Digest>(st: State<Acc, Digest>, pieces: seq<seq<Byte>>) returns (h: Digest)
    requires st.Valid() && st.fed == []
    modifies st, st.buffer
    ensures st.Valid() && st.variant == old(st.variant) && st.fed == Concat(pieces)
    ensures |Concat(pieces)| < TWO_64 ==> h == OneShot(st.k, st.variant, Concat(pieces))
  {
    var n := 0;
    while n < |pieces|
      invariant 0 <= n <= |pieces|
      invariant st.Valid() && st.variant == old(st.variant) && st.fed == Concat(pieces[..n])
    {
      st.Update(pieces[n]);
      assert pieces[..n + 1][..n] == pieces[..n];
      n := n + 1;
    }
    assert pieces[..n] == pieces;
    h := st.DigestOf();
  }
}
