/** Which bytes of the input meet which bytes of the secret in a long XXH3 hash, in numbers: a kit that
    writes down what it is given, and every other kit as its replay. */
module Xxh3Trace {
  import opened Lines
  import opened Xxh3
  import opened Xxh3Stream

  /** A stripe of input with the window of the secret that it is mixed with, or a scramble with its window. */
  datatype Event = Stripe(input: seq<Byte>, key: seq<Byte>) | Scramble(key: seq<Byte>)

  /** The kit that records, for a long input. */
  function Recorder(): Kit<seq<Event>, seq<Event>>
  {
    Kit([], (t: seq<Event>, x: seq<Byte>, y: seq<Byte>) => t + [Stripe(x, y)],
        (t: seq<Event>, y: seq<Byte>) => t + [Scramble(y)],
        (t: seq<Event>, y: seq<Byte>, n: nat) => t, (x: seq<Byte>, y: seq<Byte>, z: nat) => [], (z: nat) => [], [])
  }

  function Recorded(secret: seq<Byte>, s: seq<Byte>, c: nat): Feed<seq<Event>>
    requires 136 <= |secret| && 64 * c <= |s|
  {
    FeedMany(Recorder(), secret, Feed([], 0), s, 0, c)
  }

  /** What a long hash is given, in order. */
  function Trace(secret: seq<Byte>, s: seq<Byte>): seq<Event>
    requires 136 <= |secret| && 64 < |s|
  {
    LongAcc(Recorder(), secret, s)
  }

  /** What a kit makes of a recording. */
  function Replay<Acc, Digest>(k: Kit<Acc, Digest>, t: seq<Event>): Acc
  {
    if t == [] then k.init
    else
      var a := Replay(k, t[..|t| - 1]);
      match t[|t| - 1]
      case Stripe(input, key) => k.accumulate(a, input, key)
      case Scramble(key) => k.scramble(a, key)
  }

  lemma ReplayOne<Acc, Digest>(k: Kit<Acc, Digest>, t: seq<Event>, e: Event)
    ensures Replay(k, t + [e]) ==
            if e.Stripe? then k.accumulate(Replay(k, t), e.input, e.key) else k.scramble(Replay(k, t), e.key)
  {
    assert (t + [e])[..|t|] == t;
  }

  lemma {:induction false} ReplayMany<Acc, Digest>(k: Kit<Acc, Digest>, secret: seq<Byte>, s: seq<Byte>, c: nat)
    requires 136 <= |secret| && 64 * c <= |s|
    ensures var f, r := FeedMany(k, secret, Feed(k.init, 0), s, 0, c), Recorded(secret, s, c);
            f.pos == r.pos && f.acc == Replay(k, r.acc)
  {
    if c > 0 {
      ReplayMany(k, secret, s, c - 1);
      var r, x := Recorded(secret, s, c - 1), Cut(s, 64 * (c - 1), 64 * c);
      var e := Stripe(x, Cut(secret, 8 * r.pos, 8 * r.pos + 64));
      ReplayOne(k, r.acc, e);
      ReplayOne(k, r.acc + [e], Scramble(Cut(secret, |secret| - 64, |secret|)));
    }
  }

  /** Every kit hashes a long input as the replay of its recording. */
  lemma LongIsReplay<Acc, Digest>(k: Kit<Acc, Digest>, secret: seq<Byte>, s: seq<Byte>)
    requires 136 <= |secret| && 64 < |s|
    ensures Long(k, secret, s) == k.finish(Replay(k, Trace(secret, s)), secret, |s|)
  {
    var c := (|s| - 1) / 64;
    ReplayMany(k, secret, s, c);
    var t := Trace(secret, s);
    assert t == Recorded(secret, s, c).acc + [t[|t| - 1]];
    ReplayOne(k, Recorded(secret, s, c).acc, t[|t| - 1]);
  }

  // ---------------------------------------------------------------- windows

  /** `per` windows of eight bytes each fit the secret before its last 64 bytes. */
  predicate Windows(secret: seq<Byte>, per: nat)
  {
    136 <= |secret| && 8 * per <= |secret| - 64 < 8 * (per + 1)
  }

  /** After `b` whole blocks and `j` more stripes, `c` in all. */
  lemma {:induction false} RecordedSize(secret: seq<Byte>, s: seq<Byte>, per: nat, b: nat, j: nat, c: nat)
    requires Windows(secret, per) && j < per && c == b * per + j && 64 * c <= |s|
    ensures Recorded(secret, s, c).pos == j && |Recorded(secret, s, c).acc| == c + b
    decreases c
  {
    if j > 0 {
      RecordedSize(secret, s, per, b, j - 1, c - 1);
    } else if b > 0 {
      assert (b - 1) * per + per == b * per;
      RecordedSize(secret, s, per, b - 1, per - 1, c - 1);
    }
  }

  lemma {:induction false} RecordedGrows(secret: seq<Byte>, s: seq<Byte>, c: nat, d: nat)
    requires 136 <= |secret| && c <= d && 64 * d <= |s|
    ensures Recorded(secret, s, c).acc <= Recorded(secret, s, d).acc
  {
    if c < d { RecordedGrows(secret, s, c, d - 1); }
  }

  /** What is recorded stays in the whole recording. */
  lemma InTrace(secret: seq<Byte>, s: seq<Byte>, c: nat, i: nat)
    requires 136 <= |secret| && 64 < |s| && c <= (|s| - 1) / 64 && i < |Recorded(secret, s, c).acc|
    ensures i < |Trace(secret, s)| && Trace(secret, s)[i] == Recorded(secret, s, c).acc[i]
  {
    RecordedGrows(secret, s, c, (|s| - 1) / 64);
  }

  lemma CutIs(s: seq<Byte>, i: nat, h: nat)
    requires i <= h <= |s|
    ensures Cut(s, i, h) == s[i..h]
  { }

  /** Stripe `j` of block `b` is mixed with the 64 bytes from byte `8 * j` of the secret. */
  lemma StripeKey(secret: seq<Byte>, s: seq<Byte>, per: nat, b: nat, j: nat)
    requires Windows(secret, per) && j < per && 64 * (b * per + j) + 64 < |s|
    ensures var c, t := b * per + j, Trace(secret, s);
            c + b < |t| && t[c + b] == Stripe(s[64 * c..64 * c + 64], secret[8 * j..8 * j + 64])
  {
    var c := b * per + j;
    RecordedSize(secret, s, per, b, j, c);
    CutIs(s, 64 * c, 64 * c + 64);
    CutIs(secret, 8 * j, 8 * j + 64);
    InTrace(secret, s, c + 1, c + b);
  }

  /** A block is followed by a scramble with the last 64 bytes of the secret. */
  lemma ScrambleKey(secret: seq<Byte>, s: seq<Byte>, per: nat, b: nat)
    requires Windows(secret, per) && 64 * (b * per + per) < |s|
    ensures var c, t := b * per + per, Trace(secret, s);
            c + b < |t| && t[c + b] == Scramble(secret[|secret| - 64..])
  {
    var c := b * per + per;
    RecordedSize(secret, s, per, b, per - 1, c - 1);
    CutIs(secret, |secret| - 64, |secret|);
    InTrace(secret, s, c, c + b);
  }

  /** The last 64 bytes of the input, which may overlap the last stripe, come last, mixed with the 64 bytes
      that end seven bytes before the end of the secret. Nothing else is recorded than what `StripeKey` and
      `ScrambleKey` say and this. */
  lemma LastKey(secret: seq<Byte>, s: seq<Byte>, per: nat, b: nat, j: nat)
    requires Windows(secret, per) && j < per && 64 * (b * per + j) < |s| <= 64 * (b * per + j) + 64 && 64 < |s|
    ensures var c, t := b * per + j, Trace(secret, s);
            |t| == c + b + 1 && t[c + b] == Stripe(s[|s| - 64..], secret[|secret| - 71..|secret| - 7])
  {
    RecordedSize(secret, s, per, b, j, b * per + j);
    CutIs(s, |s| - 64, |s|);
    CutIs(secret, |secret| - 71, |secret| - 7);
  }

  // ---------------------------------------------------------------- entry points

  /** The secret that a variant hashes a long input with. */
  ghost predicate KeyOf<Acc, Digest>(k: Kit<Acc, Digest>, v: Variant, key: seq<Byte>)
  {
    match v
    case Plain => key == k.kSecret
    case WithSecret(secret) => key == secret
    case WithSeed(seed) => key == if seed == 0 then k.kSecret else k.derive(seed)
    case WithBoth(secret, _) => key == secret
  }

  /** Inputs of more than 240 bytes are hashed in stripes, with the secret of the variant. */
  lemma LongInputs<Acc, Digest>(k: Kit<Acc, Digest>, v: Variant, s: seq<Byte>, key: seq<Byte>)
    requires KitOk(k) && VariantOk(v) && 240 < |s| && KeyOf(k, v, key)
    ensures 136 <= |key| && OneShot(k, v, s) == k.finish(Replay(k, Trace(key, s)), key, |s|)
  {
    LongIsReplay(k, key, s);
  }

  /** Inputs of at most 240 bytes are hashed as short ones: with the given secret and no seed, or with the
      default secret and the seed. */
  lemma ShortInputs<Acc, Digest>(k: Kit<Acc, Digest>, s: seq<Byte>, secret: seq<Byte>, seed: nat)
    requires KitOk(k) && |s| <= 240 && 136 <= |secret|
    ensures OneShot(k, Plain, s) == k.short(s, k.kSecret, 0)
    ensures OneShot(k, WithSecret(secret), s) == k.short(s, secret, 0)
    ensures OneShot(k, WithSeed(seed), s) == OneShot(k, WithBoth(secret, seed), s) == k.short(s, k.kSecret, seed)
  { }
}
