/** The rounded product of two 64-bit significands, in both of its forms. */
module RoundedProduct {
  import opened Powers
  import opened Bigits
  import opened BigintMul

  const HALF: int := 0x8000_0000_0000_0000

  /** `r` is the product over 2^64, rounded to nearest with ties upwards. */
  predicate IsRounded(product: int, r: int) {
    r * U64 - HALF <= product < r * U64 + HALF
  }

  /** The form with a 128-bit integer. */
  function MultiplyWide(lhs: uint64, rhs: uint64): (r: uint64)
    ensures IsRounded(lhs * rhs, r)
  {
    Wide(lhs, rhs);
    var product := lhs * rhs;
    var f: uint64 := product / U64;
    // The bit test `product & (1 << 63)`.
    if product % U64 / HALF % 2 != 0 then f + 1 else f
  }

  /** The form with 32-bit halves; every intermediate is a 64-bit value. */
  function MultiplyHalves(lhs: uint64, rhs: uint64): (r: uint64)
    ensures IsRounded(lhs * rhs, r)
  {
    Halves(lhs / B, lhs % B, rhs / B, rhs % B, lhs, rhs);
    Parts(lhs / B, lhs % B, rhs / B, rhs % B, lhs * rhs)
  }

  /** The four partial products. */
  function Parts(a: nat, b: nat, c: nat, d: nat, ghost product: nat): (r: uint64)
    requires a * c < U64 && b * c < U64 && a * d < U64 && b * d < U64
    requires product == a * c * U64 + (a * d + b * c) * B + b * d && product < (U64 - 1) * U64
    ensures IsRounded(product, r)
  {
    Combine(a * c, b * c, a * d, b * d, product)
  }

  /** The middle word takes the rounding bit, and its carry goes up. */
  function Combine(ac: uint64, bc: uint64, ad: uint64, bd: uint64, ghost product: nat): (r: uint64)
    requires product == ac * U64 + (ad + bc) * B + bd && product < (U64 - 1) * U64
    ensures IsRounded(product, r)
  {
    Collected(ac, bc, ad, bd, product);
    var mid: uint64 := bd / B + ad % B + bc % B + 0x8000_0000;
    ac + ad / B + bc / B + mid / B
  }

  /** The two forms agree, and both are the floor of the product plus a half. */
  lemma FormsAgree(lhs: uint64, rhs: uint64)
    ensures MultiplyWide(lhs, rhs) == MultiplyHalves(lhs, rhs) == (lhs * rhs + HALF) / U64
  {
    RoundedOnce(lhs * rhs, MultiplyWide(lhs, rhs));
    RoundedOnce(lhs * rhs, MultiplyHalves(lhs, rhs));
  }

  lemma RoundedOnce(product: int, r: int)
    requires IsRounded(product, r)
    ensures r == (product + HALF) / U64
  {
  }

  lemma Wide(lhs: uint64, rhs: uint64)
    ensures 0 <= lhs * rhs < (U64 - 1) * U64
  {
    MulMono(lhs, U64 - 1, rhs);
    MulMono(rhs, U64 - 1, U64 - 1);
  }

  lemma Halves(a: nat, b: nat, c: nat, d: nat, lhs: nat, rhs: nat)
    requires a < B && b < B && c < B && d < B && lhs == a * B + b && rhs == c * B + d
    ensures a * c < U64 && b * c < U64 && a * d < U64 && b * d < U64
    ensures lhs * rhs == a * c * U64 + (a * d + b * c) * B + b * d
    ensures 0 <= lhs * rhs < (U64 - 1) * U64
  {
    ProductFits(a, c);
    ProductFits(b, c);
    ProductFits(a, d);
    ProductFits(b, d);
    Expanded(a, b, c, d);
    Wide(lhs, rhs);
  }

  lemma Collected(ac: nat, bc: nat, ad: nat, bd: nat, product: nat)
    requires ac < U64 && bc < U64 && ad < U64 && bd < U64
    requires product == ac * U64 + (ad + bc) * B + bd && product < (U64 - 1) * U64
    ensures var mid := bd / B + ad % B + bc % B + 0x8000_0000;
            && mid < U64
            && ac + ad / B + bc / B + mid / B < U64
            && IsRounded(product, ac + ad / B + bc / B + mid / B)
  {
  }

  lemma Expanded(a: nat, b: nat, c: nat, d: nat)
    ensures (a * B + b) * (c * B + d) == a * c * U64 + (a * d + b * c) * B + b * d
  {
    assert U64 == B * B;
  }
}
