/** XXH32 and XXH64 in include/xxhash.h, one-shot and streaming. The two are the same code over
    stripes of 16 or 32 bytes and words of 32 or 64 bits, but for how a digest finds out whether
    the input was long. */
module XxhStream {
  import opened Lines
  import opened Words

  /** The four accumulator lanes. */
  datatype Accs = Accs(a0: nat, a1: nat, a2: nat, a3: nat)

  /** What differs between the two: the size of a stripe, the number of word values, three primes, and
      the arithmetic on one stripe, at the merge of the lanes, and on the last bytes. */
  datatype Kit = Kit(stripe: nat, words: nat, prime1: nat, prime2: nat, prime5: nat,
                     round: (Accs, seq<Byte>) -> Accs, merge: Accs -> nat, finalize: (nat, seq<Byte>) -> nat) {

    predicate Ok()
    {
      Is32() || Is64()
    }

    predicate Is32()
    {
      stripe == 16 && words == 0x1_0000_0000
      && prime1 == 0x9E37_79B1 && prime2 == 0x85EB_CA77 && prime5 == 0x1656_67B1
    }

    predicate Is64()
    {
      stripe == 32 && words == 0x1_0000_0000_0000_0000
      && prime1 == 0x9E37_79B1_85EB_CA87 && prime2 == 0xC2B2_AE3D_27D4_EB4F && prime5 == 0x27D4_EB2F_1656_67C5
    }

    /** `XXH32_initAccs` */
    function InitAccs(seed: nat): Accs
      requires Ok()
    {
      Accs(Word(seed + prime1 + prime2), Word(seed + prime2), Word(seed + 0), Word(seed + words - prime1))
    }

    /** What fits a word. */
    function Word(n: nat): (w: nat)
      requires Ok()
      ensures w < words && (n < words ==> w == n)
    {
      n % words
    }

    lemma WordAdd(m: nat, n: nat)
      requires Ok()
      ensures Word(Word(m) + Word(n)) == Word(m + n)
    {
      if words == TWO_32 { Add32(m, n); } else { Add64(m, n); }
    }

    /** However the length has wrapped, the flag of a long input tells. */
    lemma LargeTells(m: nat, n: nat)
      requires Ok()
      ensures stripe <= m || stripe <= n || stripe <= Word(m + n) <==> stripe <= m + n
    {
      if m < stripe && n < stripe { assert Word(m + n) == m + n; }
    }

    /** The end of a hash: the lanes merged, or the seed for a short input, then the length and the
        bytes after the last stripe. */
    function End(large: bool, acc: Accs, seed: nat, len: nat, tail: seq<Byte>): nat
      requires Ok()
    {
      finalize(Word((if large then merge(acc) else Word(seed + prime5)) + len), tail)
    }
  }

  lemma Add32(m: nat, n: nat)
    ensures (m % TWO_32 + n % TWO_32) % TWO_32 == (m + n) % TWO_32
  { }

  lemma Add64(m: nat, n: nat)
    ensures (m % TWO_64 + n % TWO_64) % TWO_64 == (m + n) % TWO_64
  { }

  /** Where the reading of whole stripes has come to. */
  datatype Eaten = Eaten(acc: Accs, at: nat)

  /** Every whole stripe of `s` from `i` on. */
  function Eat(k: Kit, acc: Accs, s: seq<Byte>, i: nat): (r: Eaten)
    requires k.Ok() && i <= |s|
    ensures i <= r.at <= |s| < r.at + k.stripe
    decreases |s| - i
  {
    if |s| < i + k.stripe then Eaten(acc, i)
    else Eat(k, k.round(acc, Cut(s, i, i + k.stripe)), s, i + k.stripe)
  }

  /** `XXH32` and `XXH64` */
  function OneShot(k: Kit, seed: nat, s: seq<Byte>): nat
    requires k.Ok() && seed < k.words
  {
    var r := Eat(k, k.InitAccs(seed), s, 0);
    k.End(k.stripe <= |s|, r.acc, seed, k.Word(|s|), Cut(s, r.at, |s|))
  }

  // ---------------------------------------------------------------- stripes

  /** What has been read stays read when bytes are appended. */
  lemma {:induction false} EatMore(k: Kit, acc: Accs, s: seq<Byte>, i: nat, t: seq<Byte>)
    requires k.Ok() && i <= |s|
    ensures var r := Eat(k, acc, s, i); Eat(k, acc, s + t, i) == Eat(k, r.acc, s + t, r.at)
    decreases |s| - i
  {
    if i + k.stripe <= |s| {
      assert Cut(s, i, i + k.stripe) == Cut(s + t, i, i + k.stripe);
      EatMore(k, k.round(acc, Cut(s, i, i + k.stripe)), s, i + k.stripe, t);
    }
  }

  /** Reading depends on the bytes and not on their place. */
  lemma {:induction false} EatElsewhere(k: Kit, acc: Accs, s: seq<Byte>, i: nat, t: seq<Byte>, j: nat)
    requires k.Ok() && i <= |s| && j <= |t| && Cut(s, i, |s|) == Cut(t, j, |t|)
    ensures Eat(k, acc, s, i).acc == Eat(k, acc, t, j).acc && Eat(k, acc, s, i).at - i == Eat(k, acc, t, j).at - j
    decreases |s| - i
  {
    assert |s| - i == |Cut(s, i, |s|)| == |t| - j;
    if i + k.stripe <= |s| {
      var n := k.stripe;
      assert Cut(s, i, i + n) == Cut(Cut(s, i, |s|), 0, n);
      assert Cut(t, j, j + n) == Cut(Cut(t, j, |t|), 0, n);
      assert Cut(s, i + n, |s|) == Cut(Cut(s, i, |s|), n, |s| - i);
      assert Cut(t, j + n, |t|) == Cut(Cut(t, j, |t|), n, |t| - j);
      EatElsewhere(k, k.round(acc, Cut(s, i, i + n)), s, i + n, t, j + n);
    }
  }

  /** The bytes after the last whole stripe are counted by the low bits of the length. */
  lemma {:induction false} TailSize(k: Kit, acc: Accs, s: seq<Byte>, i: nat)
    requires k.Ok() && i <= |s|
    ensures |s| - Eat(k, acc, s, i).at == (|s| - i) % k.stripe
    decreases |s| - i
  {
    if i + k.stripe <= |s| {
      TailSize(k, k.round(acc, Cut(s, i, i + k.stripe)), s, i + k.stripe);
      if k.stripe == 16 { Less16(|s| - i); } else { Less32(|s| - i); }
    }
  }

  lemma Less16(n: nat)
    requires 16 <= n
    ensures n % 16 == (n - 16) % 16
  { }

  lemma Less32(n: nat)
    requires 32 <= n
    ensures n % 32 == (n - 32) % 32
  { }

  /** `XXH32_consumeLong` */
  method ConsumeLong(k: Kit, acc: Accs, input: seq<Byte>, from: nat) returns (r: Accs, at: nat)
    requires k.Ok() && from + k.stripe <= |input|
    ensures Eaten(r, at) == Eat(k, acc, input, from)
  {
    r, at := acc, from;
    var more := true;
    while more
      invariant from <= at <= |input| && (more <==> at + k.stripe <= |input|)
      invariant Eat(k, r, input, at) == Eat(k, acc, input, from)
      decreases |input| - at, more
    {
      r := k.round(r, Cut(input, at, at + k.stripe));
      at := at + k.stripe;
      more := at + k.stripe <= |input|;
    }
  }

  /** `XXH32_endian_align` */
  method HashAtOnce(k: Kit, seed: nat, input: seq<Byte>) returns (h: nat)
    requires k.Ok() && seed < k.words
    ensures h == OneShot(k, seed, input)
  {
    var acc, at := k.InitAccs(seed), 0;
    if k.stripe <= |input| {
      acc, at := ConsumeLong(k, acc, input, 0);
      h := k.merge(acc);
    } else {
      h := k.Word(seed + k.prime5);
    }
    TailSize(k, k.InitAccs(seed), input, 0);
    h := k.finalize(k.Word(h + k.Word(|input|)), Cut(input, at, at + |input| % k.stripe));
  }

  // ---------------------------------------------------------------- streaming

  lemma SameTail(input: seq<Byte>, from: nat, i: nat, s: seq<Byte>)
    requires from <= i <= |input| <= |s| && Cut(input, from, |input|) == Cut(s, |s| - (|input| - from), |s|)
    ensures Cut(input, i, |input|) == Cut(s, |s| - (|input| - i), |s|)
  {
    var n := |input| - from;
    assert Cut(input, i, |input|) == Cut(Cut(input, from, |input|), i - from, n);
    assert Cut(s, |s| - (|input| - i), |s|) == Cut(Cut(s, |s| - n, |s|), i - from, n);
  }

  /** The first `size` bytes of `b` are the last ones of `fed`. */
  predicate Buffered(b: seq<Byte>, fed: seq<Byte>, size: nat)
  {
    size <= |b| && size <= |fed| && forall x | 0 <= x < size :: b[x] == fed[|fed| - size + x]
  }

  /** `XXH32_state_t` and `XXH64_state_t`. `largeLen` is a field of the first alone, `totalLen` the whole
      length in the second; the buffer holds a stripe. */
  class State {
    const k: Kit
    var totalLen: nat
    var largeLen: bool
    var acc: Accs
    const buffer: array<Byte>
    var bufferedSize: nat
    ghost var seed: nat
    ghost var fed: seq<Byte>

    ghost predicate Valid()
      reads this, buffer
    {
      && Reading()
      && totalLen == k.Word(|fed|)
      && (largeLen <==> k.stripe <= |fed|)
    }

    /** The accumulators have taken in all that was fed but for what is buffered. */
    ghost predicate Reading()
      reads this`acc, this`bufferedSize, this`seed, this`fed, buffer
    {
      && k.Ok() && seed < k.words && buffer.Length == k.stripe && bufferedSize < k.stripe
      && bufferedSize <= |fed|
      && Eat(k, k.InitAccs(seed), fed, 0) == Eaten(acc, |fed| - bufferedSize)
      && Buffered(buffer[..], fed, bufferedSize)
    }

    constructor (k: Kit, buffer: array<Byte>)
      requires k.Ok() && buffer.Length == k.stripe
      ensures this.k == k && this.buffer == buffer
    {
      this.k, this.buffer := k, buffer;
      acc := Accs(0, 0, 0, 0);
      totalLen, largeLen, bufferedSize := 0, false, 0;
    }

    /** `XXH32_reset` */
    method Reset(z: nat)
      requires k.Ok() && z < k.words && buffer.Length == k.stripe
      modifies this
      ensures Valid() && fed == [] && seed == z
    {
      totalLen, largeLen, bufferedSize := 0, false, 0;
      acc := k.InitAccs(z);
      seed, fed := z, [];
    }

    method MemCpy(at: nat, src: seq<Byte>, from: nat, n: nat)
      requires at + n <= buffer.Length && from + n <= |src|
      modifies buffer
      ensures forall x | 0 <= x < buffer.Length ::
                buffer[x] == if at <= x < at + n then src[from + (x - at)] else old(buffer[x])
    {
      var m := 0;
      while m < n
        invariant 0 <= m <= n
        invariant forall x | 0 <= x < buffer.Length ::
                    buffer[x] == if at <= x < at + m then src[from + (x - at)] else old(buffer[x])
      {
        buffer[at + m] := src[from + m];
        m := m + 1;
      }
    }

    /** `XXH32_update`: what is buffered becomes a whole stripe, and is read. */
    method FillBuffer(input: seq<Byte>) returns (a: Accs, i: nat)
      requires k.Ok() && buffer.Length == k.stripe && bufferedSize < k.stripe <= bufferedSize + |input|
      requires Buffered(buffer[..], fed, bufferedSize)
      requires Eat(k, k.InitAccs(seed), fed, 0) == Eaten(acc, |fed| - bufferedSize)
      modifies buffer
      ensures i == k.stripe - bufferedSize
      ensures var s := fed + input;
              Eat(k, k.InitAccs(seed), s, 0) == Eat(k, a, s, |fed| - bufferedSize + k.stripe)
    {
      ghost var s, at := fed + input, |fed| - bufferedSize;
      EatMore(k, k.InitAccs(seed), fed, 0, input);
      i := k.stripe - bufferedSize;
      MemCpy(bufferedSize, input, 0, i);
      assert buffer[..] == Cut(s, at, at + k.stripe);
      var end;
      a, end := ConsumeLong(k, acc, buffer[..], 0);
      assert Cut(buffer[..], 0, k.stripe) == buffer[..];
    }

    /** `XXH32_update`: the whole stripes of the input from `from` on are read, and the rest is buffered. */
    method TakeRest(input: seq<Byte>, from: nat, ghost s: seq<Byte>)
      requires k.Ok() && buffer.Length == k.stripe && bufferedSize == 0
      requires from <= |input| <= |s| && Cut(input, from, |input|) == Cut(s, |s| - (|input| - from), |s|)
      modifies this`acc, this`bufferedSize, buffer
      ensures bufferedSize < k.stripe && Buffered(buffer[..], s, bufferedSize)
      ensures Eaten(acc, |s| - bufferedSize) == Eat(k, old(acc), s, |s| - (|input| - from))
    {
      var i := from;
      EatElsewhere(k, acc, input, i, s, |s| - (|input| - i));
      if k.stripe <= |input| - i {
        acc, i := ConsumeLong(k, acc, input, i);
      }
      if i < |input| {
        SameTail(input, from, i, s);
        MemCpy(0, input, i, |input| - i);
        bufferedSize := |input| - i;
        assert forall x | 0 <= x < bufferedSize :: buffer[x] == Cut(input, i, |input|)[x];
      }
    }

    /** `XXH32_update`, once the input does not fit the buffer. */
    method UpdateLarge(input: seq<Byte>)
      requires k.Ok() && buffer.Length == k.stripe && bufferedSize < k.stripe <= bufferedSize + |input|
      requires Buffered(buffer[..], fed, bufferedSize)
      requires Eat(k, k.InitAccs(seed), fed, 0) == Eaten(acc, |fed| - bufferedSize)
      modifies this`acc, this`bufferedSize, buffer
      ensures bufferedSize < k.stripe && Buffered(buffer[..], fed + input, bufferedSize)
      ensures Eat(k, k.InitAccs(seed), fed + input, 0) == Eaten(acc, |fed + input| - bufferedSize)
    {
      ghost var s := fed + input;
      var i := 0;
      EatMore(k, k.InitAccs(seed), fed, 0, input);
      if bufferedSize != 0 {
        acc, i := FillBuffer(input);
        bufferedSize := 0;
      }
      assert Cut(input, i, |input|) == Cut(s, |s| - (|input| - i), |s|);
      TakeRest(input, i, s);
    }

    /** `XXH32_update`, of an input that fits. */
    method UpdateSmall(input: seq<Byte>)
      requires k.Ok() && buffer.Length == k.stripe && bufferedSize + |input| < k.stripe
      requires Buffered(buffer[..], fed, bufferedSize)
      requires Eat(k, k.InitAccs(seed), fed, 0) == Eaten(acc, |fed| - bufferedSize)
      modifies this`bufferedSize, buffer
      ensures bufferedSize < k.stripe && Buffered(buffer[..], fed + input, bufferedSize)
      ensures Eat(k, k.InitAccs(seed), fed + input, 0) == Eaten(acc, |fed + input| - bufferedSize)
    {
      EatMore(k, k.InitAccs(seed), fed, 0, input);
      MemCpy(bufferedSize, input, 0, |input|);
      bufferedSize := bufferedSize + |input|;
    }

    /** `XXH32_update`: the counters. */
    method AddLength(len: nat)
      requires k.Ok() && totalLen == k.Word(|fed|) && (largeLen <==> k.stripe <= |fed|)
      modifies this`totalLen, this`largeLen
      ensures totalLen == k.Word(|fed| + len) && (largeLen <==> k.stripe <= |fed| + len)
    {
      k.WordAdd(|fed|, len);
      k.LargeTells(|fed|, len);
      totalLen := k.Word(totalLen + k.Word(len));
      largeLen := largeLen || k.stripe <= len || k.stripe <= totalLen;
    }

    /** `XXH32_update` and `XXH64_update` */
    method Update(input: seq<Byte>)
      requires Valid()
      modifies this, buffer
      ensures Valid() && fed == old(fed) + input && seed == old(seed)
    {
      AddLength(|input|);
      if |input| < k.stripe - bufferedSize { UpdateSmall(input); } else { UpdateLarge(input); }
      fed := fed + input;
    }

    /** What a digest reads. */
    lemma ReadsEnd(large: bool)
      requires Valid() && (large <==> k.stripe <= |fed|)
      ensures k.End(large, acc, acc.a2, totalLen, Cut(buffer[..], 0, bufferedSize)) == OneShot(k, seed, fed)
    {
      assert Cut(buffer[..], 0, bufferedSize) == Cut(fed, |fed| - bufferedSize, |fed|);
      assert !large ==> acc == k.InitAccs(seed) && acc.a2 == seed;
    }

    /** `XXH32_digest`: of any input, of whatever length, however it was fed. */
    method Digest32() returns (h: nat)
      requires Valid()
      ensures h == OneShot(k, seed, fed)
    {
      ReadsEnd(largeLen);
      h := k.End(largeLen, acc, acc.a2, totalLen, Cut(buffer[..], 0, bufferedSize));
    }

    /** `XXH64_digest`: of any input whose length fits a word. */
    method Digest64() returns (h: nat)
      requires Valid()
      ensures |fed| < k.words ==> h == OneShot(k, seed, fed)
    {
      if |fed| < k.words {
        TailSize(k, k.InitAccs(seed), fed, 0);
        ReadsEnd(k.stripe <= totalLen);
      }
      h := k.End(k.stripe <= totalLen, acc, acc.a2, totalLen, Cut(buffer[..], 0, totalLen % k.stripe));
    }
  }

  // ---------------------------------------------------------------- the hash in numbers

  /** Rounds over the whole stripes of `s`, in order. */
  function Rounds(round: (Accs, seq<Byte>) -> Accs, acc: Accs, s: seq<Byte>, stripe: nat): Accs
    requires 0 < stripe
    decreases |s|
  {
    if |s| < stripe then acc else Rounds(round, round(acc, s[..stripe]), s[stripe..], stripe)
  }

  lemma {:induction false} EatIsRounds(k: Kit, acc: Accs, s: seq<Byte>, i: nat)
    requires k.Ok() && i <= |s|
    ensures Eat(k, acc, s, i).acc == Rounds(k.round, acc, s[i..], k.stripe)
    decreases |s| - i
  {
    if i + k.stripe <= |s| {
      var x := Cut(s, i, i + k.stripe);
      assert s[i..][..k.stripe] == x && s[i..][k.stripe..] == s[i + k.stripe..];
      EatIsRounds(k, k.round(acc, x), s, i + k.stripe);
    }
  }

  /** The first lanes of XXH32: the seed, shifted by fixed numbers. */
  lemma Lanes32(k: Kit, seed: nat)
    requires k.Is32() && seed < 0x1_0000_0000
    ensures k.InitAccs(seed) == Accs((seed + 0x2423_4428) % 0x1_0000_0000, (seed + 0x85EB_CA77) % 0x1_0000_0000,
                                     seed, (seed + 0x61C8_864F) % 0x1_0000_0000)
  { }

  /** The first lanes of XXH64. */
  lemma Lanes64(k: Kit, seed: nat)
    requires k.Is64() && seed < 0x1_0000_0000_0000_0000
    ensures k.InitAccs(seed) == Accs((seed + 0x60EA_27EE_ADC0_B5D6) % 0x1_0000_0000_0000_0000,
                                     (seed + 0xC2B2_AE3D_27D4_EB4F) % 0x1_0000_0000_0000_0000,
                                     seed, (seed + 0x61C8_864E_7A14_3579) % 0x1_0000_0000_0000_0000)
  { }

  /** A short input: the seed, a prime and the length are summed, and every byte is left to the end. */
  lemma ShortHash(k: Kit, seed: nat, s: seq<Byte>)
    requires k.Ok() && seed < k.words && |s| < k.stripe
    ensures k.Is32() ==> OneShot(k, seed, s) == k.finalize((seed + 0x1656_67B1 + |s|) % 0x1_0000_0000, s)
    ensures k.Is64() ==>
              OneShot(k, seed, s) == k.finalize((seed + 0x27D4_EB2F_1656_67C5 + |s|) % 0x1_0000_0000_0000_0000, s)
  {
    assert Cut(s, 0, |s|) == s;
    k.WordAdd(seed + k.prime5, |s|);
    assert k.Word(k.Word(seed + k.prime5) + |s|) == k.Word(k.Word(seed + k.prime5) + k.Word(|s|));
  }

  lemma LanesAre(k: Kit, acc: Accs, s: seq<Byte>)
    requires k.Ok()
    ensures Eat(k, acc, s, 0).acc == Rounds(k.round, acc, s, k.stripe)
  {
    EatIsRounds(k, acc, s, 0);
    assert s[0..] == s;
  }

  lemma WordOf(k: Kit, m: nat, n: nat)
    requires k.Ok()
    ensures k.Word(m + k.Word(n)) == (m + n) % k.words
  {
    if k.Is32() { WordOf32(m, n); } else { WordOf64(m, n); }
  }

  lemma WordOf32(m: nat, n: nat)
    ensures (m + n % TWO_32) % TWO_32 == (m + n) % TWO_32
  { }

  lemma WordOf64(m: nat, n: nat)
    ensures (m + n % TWO_64) % TWO_64 == (m + n) % TWO_64
  { }

  lemma EndIs(k: Kit, acc: Accs, seed: nat, len: nat, tail: seq<Byte>)
    requires k.Ok()
    ensures k.End(true, acc, seed, k.Word(len), tail) == k.finalize((k.merge(acc) + len) % k.words, tail)
  {
    WordOf(k, k.merge(acc), len);
  }

  /** A long input: the merged lanes and the length are summed, and the bytes after the last whole stripe, as
      many as the length modulo the stripe, are left to the end. */
  lemma LongHash(k: Kit, seed: nat, s: seq<Byte>) returns (at: nat)
    requires k.Ok() && seed < k.words && k.stripe <= |s|
    ensures at <= |s| && |s| - at == |s| % k.stripe
    ensures var merged := k.merge(Rounds(k.round, k.InitAccs(seed), s, k.stripe));
            OneShot(k, seed, s) == k.finalize((merged + |s|) % k.words, s[at..])
  {
    var r := Eat(k, k.InitAccs(seed), s, 0);
    at := r.at;
    TailSize(k, k.InitAccs(seed), s, 0);
    LanesAre(k, k.InitAccs(seed), s);
    EndIs(k, r.acc, seed, |s|, s[at..]);
    assert Cut(s, at, |s|) == s[at..];
  }
}
