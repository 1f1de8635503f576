/** Positive doubles as bit patterns, and which of them a decimal is read as. */
module FloatBits {
  import opened Powers
  import opened Bigits

  /** 2^52, the implicit bit of a normalized significand. */
  const IMPLICIT_BIT: nat := 0x10_0000_0000_0000
  const BIAS: nat := 1075
  /** The pattern of infinity; as a number, the double that would come next. */
  const INFINITY: nat := 0x7FF0_0000_0000_0000

  /** The exponent field; subnormal numbers use that of the smallest normalized ones. */
  function Biased(u: nat): (e: nat)
    ensures e > 0
  {
    if u / IMPLICIT_BIT == 0 then 1 else u / IMPLICIT_BIT
  }

  function Significand(u: nat): nat {
    u % IMPLICIT_BIT + if u / IMPLICIT_BIT == 0 then 0 else IMPLICIT_BIT
  }

  function Exponent(u: nat): int {
    Biased(u) - BIAS
  }

  /** The predecessor is closer than the successor: a power of two other than the smallest normalized one. */
  predicate PredecessorCloser(u: nat) {
    u % IMPLICIT_BIT == 0 && u / IMPLICIT_BIT > 1
  }

  // ---- The numbers, counted in units of the smallest one ----

  function Units(u: nat): nat {
    Significand(u) * Pow(2, Biased(u) - 1)
  }

  /** The number 1. */
  function One(): nat {
    Pow(2, BIAS - 1)
  }

  /** That is pattern 0x3FF0000000000000, which fixes the scale; the smallest positive double is one unit. */
  lemma OneIs(u: nat)
    requires u == 0x3FF0_0000_0000_0000
    ensures Units(u) == One() && Units(1) == 1 && Units(0) == 0
  {
    Pattern(u, 1023, 0);
    PowAdd(2, 52, 1022);
    FiftyTwo(52);
    assert Pow(2, 0) == 1;
  }

  lemma FiftyTwo(n: nat)
    requires n == 52
    ensures Pow(2, n) == IMPLICIT_BIT
  {
    Pow2Of32();
    PowAdd(2, 32, 20);
    PowAdd(2, 10, 10);
    assert Pow(2, 10) == 1024;
  }

  function GapAbove(u: nat): nat {
    Pow(2, Biased(u) - 1)
  }

  function GapBelow(u: nat): nat {
    if PredecessorCloser(u) then Pow(2, Biased(u) - 2) else Pow(2, Biased(u) - 1)
  }

  /** The next pattern is the next number. */
  lemma Successor(u: nat)
    ensures Units(u + 1) == Units(u) + GapAbove(u)
  {
    var x, y := u / IMPLICIT_BIT, u % IMPLICIT_BIT;
    var p := Pow(2, Biased(u) - 1);
    if y + 1 < IMPLICIT_BIT {
      Pattern(u + 1, x, y + 1);
      Plus(Significand(u), 1, p);
    } else {
      Pattern(u + 1, x + 1, 0);
      if x > 0 {
        assert Pow(2, x) == 2 * p;
        Doubled(IMPLICIT_BIT, p);
      }
    }
  }

  lemma Pattern(u: nat, x: nat, y: nat)
    requires u == x * IMPLICIT_BIT + y && y < IMPLICIT_BIT
    ensures u / IMPLICIT_BIT == x && u % IMPLICIT_BIT == y
  {
  }

  lemma Plus(a: nat, b: nat, p: nat)
    ensures (a + b) * p == a * p + b * p
  {
  }

  lemma Doubled(a: nat, p: nat)
    requires a > 0
    ensures a * (2 * p) == (a + (a - 1)) * p + p
  {
  }

  lemma Predecessor(u: nat)
    requires u > 0
    ensures Units(u - 1) + GapBelow(u) == Units(u)
  {
    Successor(u - 1);
    var x, y := u / IMPLICIT_BIT, u % IMPLICIT_BIT;
    if y > 0 {
      Pattern(u - 1, x, y - 1);
    } else {
      Pattern(u - 1, x - 1, IMPLICIT_BIT - 1);
    }
  }

  lemma GapsPositive(u: nat)
    ensures GapAbove(u) > 0 && GapBelow(u) > 0
    ensures GapAbove(u) == if PredecessorCloser(u) then 2 * GapBelow(u) else GapBelow(u)
  {
  }

  /** The flag tells when the predecessor is half as far as the successor; otherwise they are equally far. */
  lemma CloserIff(u: nat)
    requires u > 0
    ensures var below, above := Units(u) - Units(u - 1), Units(u + 1) - Units(u);
            && above > 0 && above == (if PredecessorCloser(u) then 2 else 1) * below
            && (PredecessorCloser(u) <==> above == 2 * below)
  {
    Successor(u);
    Predecessor(u);
    GapsPositive(u);
  }

  /** One more in the exponent field doubles a power of two and the gaps at it. */
  lemma DoublePower(u: nat)
    requires PredecessorCloser(u)
    ensures var v := u + IMPLICIT_BIT;
            && PredecessorCloser(v) && v % 2 == u % 2 && Units(v) == 2 * Units(u)
            && GapBelow(v) == 2 * GapBelow(u) && GapAbove(v) == 2 * GapAbove(u)
  {
    var x := u / IMPLICIT_BIT;
    Pattern(u + IMPLICIT_BIT, x + 1, 0);
    assert Pow(2, x) == 2 * Pow(2, x - 1) && Pow(2, x - 1) == 2 * Pow(2, x - 2);
  }

  lemma {:induction false} Increasing(u: nat, v: nat)
    requires u <= v
    ensures Units(u) <= Units(v)
    decreases v - u
  {
    if u < v {
      Successor(u);
      Increasing(u + 1, v);
    }
  }

  // ---- Reading ----

  function Distance(u: nat, x: int, w: nat): nat {
    Far(x, Units(u) * w)
  }

  function Far(x: int, y: int): nat {
    if x < y then y - x else x - y
  }

  /** No farther than another double, and as far only from an even pattern. */
  predicate Nearer(u: nat, v: nat, x: int, w: nat) {
    Distance(u, x, w) < Distance(v, x, w) || (Distance(u, x, w) == Distance(v, x, w) && u % 2 == 0)
  }

  /** Among all doubles, the number `x / w` is nearest to this one; a tie goes to the even pattern. */
  ghost predicate ReadsAs(u: nat, x: int, w: nat) {
    forall v: nat :: v <= INFINITY && v != u ==> Nearer(u, v, x, w)
  }

  predicate Within(even: bool, off: int, below: int, above: int) {
    if even then -below <= off <= above else -below < off < above
  }

  /** Between the boundaries half way to the neighbours, which belong to the even patterns. */
  predicate BetweenBoundaries(u: nat, x: int, w: nat) {
    Within(u % 2 == 0, 2 * (x - Units(u) * w), GapBelow(u) * w, GapAbove(u) * w)
  }

  /** A number is read as the double between whose boundaries it lies, and only then. */
  lemma ReadsBetween(u: nat, x: int, w: nat)
    requires 0 < u < INFINITY && w > 0
    ensures ReadsAs(u, x, w) <==> BetweenBoundaries(u, x, w)
  {
    Around(u, w);
    if BetweenBoundaries(u, x, w) {
      forall v: nat | v <= INFINITY && v != u
        ensures Nearer(u, v, x, w)
      {
        Farther(u, v, x, w);
      }
    } else {
      assert !Nearer(u, u + 1, x, w) || !Nearer(u, u - 1, x, w);
    }
  }

  lemma Around(u: nat, w: nat)
    requires 0 < u && w > 0
    ensures Units(u + 1) * w == Units(u) * w + GapAbove(u) * w && GapAbove(u) * w > 0
    ensures Units(u - 1) * w == Units(u) * w - GapBelow(u) * w && GapBelow(u) * w > 0
  {
    Successor(u);
    Predecessor(u);
    GapsPositive(u);
    Plus(Units(u), GapAbove(u), w);
    Plus(Units(u - 1), GapBelow(u), w);
    MulMono(1, GapAbove(u), w);
    MulMono(1, GapBelow(u), w);
  }

  lemma Farther(u: nat, v: nat, x: int, w: nat)
    requires 0 < u && u != v && w > 0 && BetweenBoundaries(u, x, w)
    ensures Nearer(u, v, x, w)
  {
    Around(u, w);
    if v > u {
      Increasing(u + 1, v);
      MulMono(Units(u + 1), Units(v), w);
    } else {
      Increasing(v, u - 1);
      MulMono(Units(v), Units(u - 1), w);
    }
  }
}
