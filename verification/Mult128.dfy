/** The portable 64x64 to 128 bit multiply of include/xxhash.h: no sum overflows, and the result is
    exact, so that it agrees with the native multiply. */
module Mult128 {
  import opened Words

  type U64 = n: nat | n < TWO_64

  /** `XXH128_hash_t` */
  datatype Product = Product(low64: U64, high64: U64)

  /** The largest product of two 32-bit numbers. */
  const MAX_PRODUCT: nat := 0xFFFF_FFFE_0000_0001

  /** `xxh_u64` addition wraps around. */
  function Add(x: nat, y: nat): (r: U64)
    ensures x + y < TWO_64 ==> r == x + y
  {
    (x + y) % TWO_64
  }

  /** `XXH_mult32to64` */
  function Mult32(x: nat, y: nat): (p: U64)
    ensures p <= MAX_PRODUCT
    ensures x < TWO_32 && y < TWO_32 ==> p == x * y
  {
    ProductFits(x % TWO_32, y % TWO_32);
    (x % TWO_32) * (y % TWO_32)
  }

  lemma ProductFits(x: nat, y: nat)
    requires x < TWO_32 && y < TWO_32
    ensures 0 <= x * y <= MAX_PRODUCT
  {
    Grows(x, y, 0xFFFF_FFFF);
    Grows(0xFFFF_FFFF, x, 0xFFFF_FFFF);
  }

  lemma Grows(x: nat, y: nat, z: nat)
    requires y <= z
    ensures 0 <= x * y <= x * z
  {
    assert x * z == x * y + x * (z - y);
  }

  /** A 64-bit word shifted left by 32 keeps its low half. */
  function Shl32(x: U64): U64 { x % TWO_32 * TWO_32 }

  /** The additions of `XXH_mult64to128`; the low half's two parts share no bit. */
  function Combine(lo_lo: U64, hi_lo: U64, lo_hi: U64, hi_hi: U64): Product
  {
    var cross := Add(Add(lo_lo / TWO_32, hi_lo % TWO_32), lo_hi);
    var upper := Add(Add(hi_lo / TWO_32, cross / TWO_32), hi_hi);
    Product(Shl32(cross) + lo_lo % TWO_32, upper)
  }

  /** `XXH_mult64to128`, the portable scalar method. */
  function Portable(lhs: U64, rhs: U64): Product
  {
    Combine(Mult32(lhs % TWO_32, rhs % TWO_32), Mult32(lhs / TWO_32, rhs % TWO_32),
            Mult32(lhs % TWO_32, rhs / TWO_32), Mult32(lhs / TWO_32, rhs / TWO_32))
  }

  /** None of the sums overflows. */
  lemma NoOverflow(lo_lo: U64, hi_lo: U64, lo_hi: U64, hi_hi: U64)
    requires lo_lo <= MAX_PRODUCT && hi_lo <= MAX_PRODUCT && lo_hi <= MAX_PRODUCT && hi_hi <= MAX_PRODUCT
    ensures var cross := lo_lo / TWO_32 + hi_lo % TWO_32 + lo_hi;
            cross < TWO_64 && hi_lo / TWO_32 + cross / TWO_32 + hi_hi < TWO_64
  { }

  lemma CombineIs(lo_lo: U64, hi_lo: U64, lo_hi: U64, hi_hi: U64)
    requires lo_lo <= MAX_PRODUCT && hi_lo <= MAX_PRODUCT && lo_hi <= MAX_PRODUCT && hi_hi <= MAX_PRODUCT
    ensures var r, cross := Combine(lo_lo, hi_lo, lo_hi, hi_hi), lo_lo / TWO_32 + hi_lo % TWO_32 + lo_hi;
            r.high64 == hi_lo / TWO_32 + cross / TWO_32 + hi_hi &&
            r.low64 == cross % TWO_32 * TWO_32 + lo_lo % TWO_32
  {
    NoOverflow(lo_lo, hi_lo, lo_hi, hi_hi);
  }

  /** Together they are exact. */
  lemma CombineExact(lo_lo: U64, hi_lo: U64, lo_hi: U64, hi_hi: U64)
    requires lo_lo <= MAX_PRODUCT && hi_lo <= MAX_PRODUCT && lo_hi <= MAX_PRODUCT && hi_hi <= MAX_PRODUCT
    ensures var r := Combine(lo_lo, hi_lo, lo_hi, hi_hi);
            r.high64 * TWO_64 + r.low64 == hi_hi * TWO_64 + (hi_lo + lo_hi) * TWO_32 + lo_lo
  {
    CombineIs(lo_lo, hi_lo, lo_hi, hi_hi);
    var cross := lo_lo / TWO_32 + hi_lo % TWO_32 + lo_hi;
    Sum(lo_lo / TWO_32, lo_lo % TWO_32, hi_lo / TWO_32, hi_lo % TWO_32, lo_hi, hi_hi, cross / TWO_32, cross % TWO_32);
  }

  lemma Sum(p1: nat, p0: nat, q1: nat, q0: nat, r: nat, t: nat, c1: nat, c0: nat)
    requires c1 * TWO_32 + c0 == p1 + q0 + r
    ensures (q1 + c1 + t) * TWO_64 + c0 * TWO_32 + p0 ==
            t * TWO_64 + (q1 * TWO_32 + q0 + r) * TWO_32 + (p1 * TWO_32 + p0)
  { }

  /** The four partial products of two numbers cut in halves. */
  lemma FourProducts(a: nat, b: nat, c: nat, d: nat)
    ensures (a * TWO_32 + b) * (c * TWO_32 + d) == (a * c) * TWO_64 + (a * d + b * c) * TWO_32 + b * d
  {
    var y := c * TWO_32 + d;
    assert (a * TWO_32 + b) * y == (a * y) * TWO_32 + b * y;
    assert a * y == (a * c) * TWO_32 + a * d;
    assert b * y == (b * c) * TWO_32 + b * d;
  }

  /** For all operands, the two halves are the product. */
  lemma PortableExact(lhs: U64, rhs: U64)
    ensures Portable(lhs, rhs).high64 * TWO_64 + Portable(lhs, rhs).low64 == lhs * rhs
  {
    var a, b, c, d := lhs / TWO_32, lhs % TWO_32, rhs / TWO_32, rhs % TWO_32;
    FourProducts(a, b, c, d);
    CombineExact(Mult32(b, d), Mult32(a, d), Mult32(b, c), Mult32(a, c));
  }

  /** A 128-bit number has one high and one low half. */
  lemma Halves(high: nat, low: U64, n: nat)
    requires high * TWO_64 + low == n
    ensures high == n / TWO_64 && low == n % TWO_64
  { }

  /** The native method's product, cut in halves, is what the portable method gives. */
  lemma PortableIsNative(lhs: U64, rhs: U64)
    ensures Portable(lhs, rhs).low64 == (lhs * rhs) % TWO_64
    ensures Portable(lhs, rhs).high64 == (lhs * rhs) / TWO_64
  {
    PortableExact(lhs, rhs);
    Halves(Portable(lhs, rhs).high64, Portable(lhs, rhs).low64, lhs * rhs);
  }
}
