/** The fallback float printer from the bits of a double to its digits: what the set-up makes of the
    double, and whether the digits are read back as it. */
module FallbackSetUp {
  import opened Powers
  import opened Bytes
  import opened Decimal
  import opened Bigits
  import opened BigintMul
  import opened Bigint
  import opened ShortestDigits
  import opened FallbackFormat
  import opened FloatBits

  // ---- Decimals ----

  function TensUp(exp: int): (t: nat)
    ensures t > 0
  {
    if exp > 0 then Pow(10, exp) else 1
  }

  function TensDown(exp: int): (t: nat)
    ensures t > 0
  {
    if exp < 0 then Pow(10, -exp) else 1
  }

  /** The decimal `m * 10^exp` is read as this double. */
  ghost predicate ReadsBack(u: nat, m: int, exp: int) {
    ReadsAs(u, m * (TensUp(exp) * One()), TensDown(exp))
  }

  // ---- What the set-up means ----

  /** How many times the double the set-up stores: its first case leaves out the second extra bit. */
  function Excess(u: nat): nat {
    if Exponent(u) >= 0 && PredecessorCloser(u) then 2 else 1
  }

  /** Over 10^exp10, the numbers stand for `k` times the double and for `k` times half the gaps at it. */
  predicate StandsFor(s: Scaled, u: nat, exp10: int, k: nat) {
    var a, b := TensUp(exp10) * One(), s.d * TensDown(exp10);
    && s.n * a == k * Units(u) * b
    && 2 * s.lower * a == k * GapBelow(u) * b
    && 2 * s.upper * a == k * GapAbove(u) * b
    && s.d > 0 && s.lower > 0 && s.upper > 0 && s.even == (u % 2 == 0)
  }

  /** An extra bit or, when the lower boundary is closer, two. */
  function Shift(u: nat): nat {
    if PredecessorCloser(u) then 2 else 1
  }

  predicate SetFraction(s: Scaled, f: nat, e: int, shift: nat, up: nat, down: nat)
    requires e < 0
  {
    && s.n == down * (f * Pow(2, shift)) && s.d == up * Pow(2, shift - e)
    && s.lower == down && s.upper == if shift == 2 then 2 * s.lower else s.lower
  }

  predicate SetWhole(s: Scaled, f: nat, e: nat, shift: nat, up: nat) {
    && s.n == f * Pow(2, shift) * Pow(2, e) && s.d == 2 * up
    && s.lower == Pow(2, e) && s.upper == if shift == 2 then 2 * s.lower else s.lower
  }

  /** The second and third case: exponents below zero. */
  lemma FractionStands(s: Scaled, u: nat, exp10: int)
    requires Exponent(u) < 0 && s.even == (u % 2 == 0)
    requires SetFraction(s, Significand(u), Exponent(u), Shift(u), TensUp(exp10), TensDown(exp10))
    ensures StandsFor(s, u, exp10, 1)
  {
    var shift := Shift(u);
    var q, scale, r := Pow(2, shift), Pow(2, shift - Exponent(u)), GapAbove(u);
    PowAdd(2, Biased(u) - 1, shift - Exponent(u));
    PowAdd(2, BIAS - 1, shift);
    GapsPositive(u);
    assert Pow(2, 1) == 2 && Pow(2, 2) == 4;
    HalfGap(r, GapBelow(u), scale, One(), shift);
    Fraction(Significand(u), q, TensDown(exp10), TensUp(exp10), One(), r, scale, GapBelow(u));
  }

  lemma HalfGap(above: nat, below: nat, scale: nat, one: nat, shift: nat)
    requires shift == 1 || shift == 2
    requires above == (if shift == 2 then 2 * below else below) && above * scale == one * (if shift == 2 then 4 else 2)
    ensures below * scale == 2 * one
  {
  }

  lemma Fraction(f: nat, q: nat, down: nat, up: nat, one: nat, above: nat, scale: nat, below: nat)
    requires above * scale == one * q && below * scale == 2 * one
    ensures down * (f * q) * (up * one) == 1 * (f * above) * (up * scale * down)
    ensures 2 * down * (up * one) == 1 * below * (up * scale * down)
    ensures q * down * (up * one) == 1 * above * (up * scale * down)
  {
    assert f * above * (up * scale * down) == f * up * down * (above * scale);
    assert below * (up * scale * down) == up * down * (below * scale);
    assert above * (up * scale * down) == up * down * (above * scale);
  }

  /** The first case: the denominator takes one extra bit, whatever the numerator took. */
  lemma WholeStands(s: Scaled, u: nat, exp10: int)
    requires Exponent(u) >= 0 && exp10 >= 0 && s.even == (u % 2 == 0)
    requires SetWhole(s, Significand(u), Exponent(u), Shift(u), TensUp(exp10))
    ensures StandsFor(s, u, exp10, Excess(u))
  {
    PowAdd(2, Exponent(u), BIAS - 1);
    GapsPositive(u);
    assert Pow(2, 1) == 2 && Pow(2, 2) == 4;
    Whole(Significand(u), Shift(u), s.lower, One(), TensUp(exp10), GapBelow(u));
  }

  lemma Whole(f: nat, k: nat, scale: nat, one: nat, up: nat, below: nat)
    requires k == 1 || k == 2
    requires k * below == scale * one
    ensures f * (2 * k) * scale * (up * one) == k * (f * (scale * one)) * (2 * up * 1)
    ensures 2 * scale * (up * one) == k * below * (2 * up * 1)
    ensures 2 * (k * scale) * (up * one) == k * (scale * one) * (2 * up * 1)
  {
    assert f * (2 * k) * scale * (up * one) == f * (2 * k) * up * (scale * one);
    assert 2 * scale * (up * one) == 2 * up * (scale * one);
  }

  // ---- The set-up ----

  /** `value.f << shift`, which fits 64 bits. */
  function Shifted(u: nat): (n: uint64)
    requires u < INFINITY
    ensures n == Significand(u) * Pow(2, Shift(u)) && (u > 0 ==> n > 0)
  {
    assert Pow(2, 1) == 2 && Pow(2, 2) == 4;
    Significand(u) * if Shift(u) == 2 then 4 else 2
  }

  function NumeratorExp(u: nat, exp10: int): nat {
    if Exponent(u) >= 0 then Exponent(u) / 32 else if exp10 < 0 then -exp10 / 32 else 0
  }

  function DenominatorExp(u: nat, exp10: int): nat {
    (if exp10 < 0 then 0 else exp10 / 32) + if Exponent(u) >= 0 then 0 else (Shift(u) - Exponent(u)) / 32
  }

  /** The numbers `fallback_format` works on: the numerator, the denominator and the distances to the
      boundaries; `upper` is `lower` itself unless the lower boundary is closer. */
  method SetUp(u: nat, exp10: int) returns (numerator: Bigint, denominator: Bigint, lower: Bigint, upper: Bigint)
    requires 0 < u < INFINITY && -0x4000_0000 < exp10 < 0x4000_0000
    requires Exponent(u) >= 0 ==> exp10 >= 0
    ensures fresh({numerator, denominator, lower, upper})
    ensures Stored(numerator, denominator, lower, upper) && numerator.Normal()
    ensures numerator.exp == lower.exp == NumeratorExp(u, exp10) && denominator.exp == DenominatorExp(u, exp10)
    ensures StandsFor(Of(numerator, denominator, lower, upper, u % 2 == 0), u, exp10, Excess(u))
  {
    if Exponent(u) >= 0 {
      numerator, denominator, lower, upper := SetUpWhole(u, exp10);
      WholeStands(Of(numerator, denominator, lower, upper, u % 2 == 0), u, exp10);
    } else {
      if exp10 < 0 {
        numerator, denominator, lower, upper := SetUpTens(u, exp10);
      } else {
        numerator, denominator, lower, upper := SetUpOnes(u, exp10);
      }
      FractionStands(Of(numerator, denominator, lower, upper, u % 2 == 0), u, exp10);
    }
  }

  method SetUpWhole(u: nat, exp10: int) returns (numerator: Bigint, denominator: Bigint, lower: Bigint, upper: Bigint)
    requires 0 < u < INFINITY && Exponent(u) >= 0 && 0 <= exp10 < 0x4000_0000
    ensures fresh({numerator, denominator, lower, upper})
    ensures Stored(numerator, denominator, lower, upper) && numerator.Normal()
    ensures numerator.exp == lower.exp == NumeratorExp(u, exp10) && denominator.exp == DenominatorExp(u, exp10)
    ensures SetWhole(Of(numerator, denominator, lower, upper, u % 2 == 0), Significand(u), Exponent(u), Shift(u), TensUp(exp10))
  {
    var e := Exponent(u);
    assert Pow(2, 1) == 2 && Pow(2, e + 1) == 2 * Pow(2, e);
    numerator := WordShifted(Shifted(u), e);
    lower := WordShifted(1, e);
    upper := lower;
    if Shift(u) != 1 {
      upper := WordShifted(1, e + 1);
    }
    denominator := TensShifted(exp10, 1);
  }

  method TensShifted(power: nat, shift: nat) returns (n: Bigint)
    requires power < 0x4000_0000
    ensures fresh(n) && n.Normal() && n.Value() == Pow(10, power) * Pow(2, shift) && n.exp == power / 32 + shift / 32
  {
    n := new Bigint(0);
    n.AssignPow10(power);
    n.ShiftLeft(shift);
  }

  method WordShifted(word: uint64, shift: nat) returns (n: Bigint)
    requires word > 0
    ensures fresh(n) && n.Normal() && n.Value() == word * Pow(2, shift) && n.exp == shift / 32
  {
    n := new Bigint(word);
    n.ShiftLeft(shift);
  }

  method SetUpTens(u: nat, exp10: int) returns (numerator: Bigint, denominator: Bigint, lower: Bigint, upper: Bigint)
    requires 0 < u < INFINITY && Exponent(u) < 0 && -0x4000_0000 < exp10 < 0
    ensures fresh({numerator, denominator, lower, upper})
    ensures Stored(numerator, denominator, lower, upper) && numerator.Normal()
    ensures numerator.exp == lower.exp == NumeratorExp(u, exp10) && denominator.exp == DenominatorExp(u, exp10)
    ensures SetFraction(Of(numerator, denominator, lower, upper, u % 2 == 0), Significand(u), Exponent(u), Shift(u),
                        TensUp(exp10), TensDown(exp10))
  {
    numerator := new Bigint(0);
    numerator.AssignPow10(-exp10);
    lower := new Bigint(0);
    lower.Assign(numerator);
    upper := lower;
    if Shift(u) != 1 {
      upper := Twice(numerator);
    }
    Times64(numerator, Shifted(u));
    denominator := WordShifted(1, Shift(u) - Exponent(u));
  }

  method Twice(n: Bigint) returns (twice: Bigint)
    requires n.Normal()
    ensures fresh(twice) && twice.Normal() && twice.Value() == 2 * n.Value()
  {
    twice := new Bigint(0);
    twice.Assign(n);
    assert Pow(2, 1) == 2;
    twice.ShiftLeft(1);
  }

  method Times64(n: Bigint, factor: uint64)
    requires n.Normal() && factor > 0
    modifies n`bigits
    ensures n.Normal() && n.Value() == old(n.Value()) * factor
  {
    MulByTop(n.bigits, factor);
    Assoc(P(n.exp), Val(n.bigits), factor);
    n.Multiply64(factor);
  }

  method SetUpOnes(u: nat, exp10: int) returns (numerator: Bigint, denominator: Bigint, lower: Bigint, upper: Bigint)
    requires 0 < u < INFINITY && Exponent(u) < 0 && 0 <= exp10 < 0x4000_0000
    ensures fresh({numerator, denominator, lower, upper})
    ensures Stored(numerator, denominator, lower, upper) && numerator.Normal()
    ensures numerator.exp == lower.exp == NumeratorExp(u, exp10) && denominator.exp == DenominatorExp(u, exp10)
    ensures SetFraction(Of(numerator, denominator, lower, upper, u % 2 == 0), Significand(u), Exponent(u), Shift(u),
                        TensUp(exp10), TensDown(exp10))
  {
    numerator := new Bigint(Shifted(u));
    denominator := TensShifted(exp10, Shift(u) - Exponent(u));
    lower := new Bigint(1);
    upper := lower;
    if Shift(u) != 1 {
      upper := new Bigint(2);
    }
  }

  // ---- Reading the digits ----

  /** The digits' decimal, as the numbers behind `ReadsBack` count it. */
  function DecimalOver(exp10: int, j: nat): nat {
    TensDown(exp10) * Pow(10, j)
  }

  /** Between the boundaries of what was set up means between `k` times those of the double. */
  lemma InsideIs(s: Scaled, u: nat, exp10: int, k: nat, m: int, j: nat)
    requires StandsFor(s, u, exp10, k)
    ensures var x, w := m * (TensUp(exp10) * One()), DecimalOver(exp10, j);
            Inside(s, m, j) <==>
            Within(u % 2 == 0, 2 * (x - k * Units(u) * w), k * GapBelow(u) * w, k * GapAbove(u) * w)
  {
    var a, down, ten := TensUp(exp10) * One(), TensDown(exp10), Pow(10, j);
    OnePositive();
    MulMono(1, One(), TensUp(exp10));
    SameOff(m, s.d, s.n, a, down, ten, k * Units(u));
    SameReach(s.lower, s.d, a, down, ten, k * GapBelow(u));
    SameReach(s.upper, s.d, a, down, ten, k * GapAbove(u));
    var w := DecimalOver(exp10, j);
    Cross(2 * a, s.d, Off(s, m, j), 2 * (m * a - k * Units(u) * w),
          s.lower * ten, k * GapBelow(u) * w, s.upper * ten, k * GapAbove(u) * w, s.even);
  }

  lemma OnePositive()
    ensures One() > 0
  {
  }

  lemma SameOff(m: int, d: nat, n: nat, a: nat, down: nat, ten: nat, v: nat)
    requires n * a == v * (d * down)
    ensures 2 * a * (m * d - n * ten) == d * (2 * (m * a - v * (down * ten)))
  {
    assert 2 * a * (m * d - n * ten) == 2 * (d * (m * a)) - 2 * ten * (n * a);
    assert ten * (v * (d * down)) == d * (v * (down * ten));
  }

  lemma SameReach(lower: nat, d: nat, a: nat, down: nat, ten: nat, v: nat)
    requires 2 * lower * a == v * (d * down)
    ensures 2 * a * (lower * ten) == d * (v * (down * ten))
  {
    assert 2 * a * (lower * ten) == ten * (2 * lower * a);
    assert ten * (v * (d * down)) == d * (v * (down * ten));
  }

  /** Comparisons of numbers on two scales. */
  lemma Cross(a: nat, d: nat, off: int, off': int, below: int, below': int, above: int, above': int, even: bool)
    requires a > 0 && d > 0 && a * off == d * off' && a * below == d * below' && a * above == d * above'
    ensures Within(even, off, below, above) <==> Within(even, off', below', above')
  {
    Compares(a, d, -below, -below', off, off');
    Compares(a, d, off, off', above, above');
  }

  lemma Compares(a: nat, d: nat, x: int, x': int, y: int, y': int)
    requires a > 0 && d > 0 && a * x == d * x' && a * y == d * y'
    ensures x <= y <==> x' <= y'
    ensures x < y <==> x' < y'
  {
    Ordered(a, x, y);
    Ordered(d, x', y');
  }

  lemma Ordered(p: nat, x: int, y: int)
    requires p > 0
    ensures x < y <==> p * x < p * y
    ensures x <= y <==> p * x <= p * y
  {
    if x < y {
      MulMono(x + 1, y, p);
      assert (x + 1) * p == p * x + p;
    } else {
      MulMono(y, x, p);
    }
  }

  // ---- Which double the text is read as ----

  /** The estimate of the exponent is high enough: `k` times the upper boundary is below 10^(exp10 + 1). */
  predicate Fits(u: nat, exp10: int, k: nat) {
    var top, ten := k * (2 * Units(u) + GapAbove(u)) * TensDown(exp10), 20 * (TensUp(exp10) * One());
    top < ten || (u % 2 != 0 && top == ten)
  }

  /** That is the loop's start condition. */
  lemma FitsIs(s: Scaled, u: nat, exp10: int, k: nat)
    requires StandsFor(s, u, exp10, k)
    ensures Ready(s) <==> Fits(u, exp10, k)
  {
    var a, down := TensUp(exp10) * One(), TensDown(exp10);
    OnePositive();
    MulMono(1, One(), TensUp(exp10));
    Tops(s.n, s.upper, s.d, a, down, Units(u), GapAbove(u), k);
    Compares(2 * a, s.d, s.n + s.upper, k * (2 * Units(u) + GapAbove(u)) * down, 10 * s.d, 20 * a);
  }

  lemma Tops(n: nat, upper: nat, d: nat, a: nat, down: nat, units: nat, gap: nat, k: nat)
    requires n * a == k * units * (d * down) && 2 * upper * a == k * gap * (d * down)
    ensures 2 * a * (n + upper) == d * (k * (2 * units + gap) * down)
    ensures 2 * a * (10 * d) == d * (20 * a)
  {
    assert 2 * a * (n + upper) == 2 * (n * a) + 2 * upper * a;
    assert d * (k * (2 * units + gap) * down) == 2 * (k * units * (d * down)) + k * gap * (d * down);
  }

  /** Moving the point only changes the scale. */
  lemma SameDecimal(u: nat, m: int, exp10: int, j: nat)
    ensures BetweenBoundaries(u, m * (TensUp(exp10) * One()), DecimalOver(exp10, j)) <==>
            BetweenBoundaries(u, m * (TensUp(exp10 - j) * One()), TensDown(exp10 - j))
  {
    var c := CommonScale(exp10, j);
    ScaledBounds(u, m, TensUp(exp10), DecimalOver(exp10, j), TensUp(exp10 - j), TensDown(exp10 - j), One(), c);
  }

  lemma CommonScale(exp10: int, j: nat) returns (c: nat)
    ensures c > 0 && TensUp(exp10) == c * TensUp(exp10 - j) && DecimalOver(exp10, j) == c * TensDown(exp10 - j)
  {
    if exp10 <= 0 {
      PowAdd(10, -exp10, j);
      c := 1;
    } else if exp10 >= j {
      PowAdd(10, exp10 - j, j);
      c := Pow(10, j);
    } else {
      PowAdd(10, exp10, j - exp10);
      c := Pow(10, exp10);
    }
  }

  lemma ScaledBounds(u: nat, m: int, up: nat, w: nat, up': nat, w': nat, one: nat, c: nat)
    requires c > 0 && up == c * up' && w == c * w'
    ensures BetweenBoundaries(u, m * (up * one), w) <==> BetweenBoundaries(u, m * (up' * one), w')
  {
    var x, x', v := m * (up * one), m * (up' * one), Units(u);
    ScaledNumber(m, up', one, c, up);
    ScaledOff(x', v, w', c);
    Swap(GapBelow(u), c, w');
    Swap(GapAbove(u), c, w');
    Cross(1, c, 2 * (x - v * w), 2 * (x' - v * w'), GapBelow(u) * w, GapBelow(u) * w', GapAbove(u) * w, GapAbove(u) * w',
          u % 2 == 0);
  }

  lemma ScaledNumber(m: int, up: nat, one: nat, c: nat, scaled: nat)
    requires scaled == c * up
    ensures m * (scaled * one) == c * (m * (up * one))
  {
  }

  lemma Swap(g: nat, c: nat, w: nat)
    ensures g * (c * w) == c * (g * w)
  {
  }

  lemma ScaledOff(x: int, v: nat, w: nat, c: nat)
    ensures 2 * (c * x - v * (c * w)) == c * (2 * (x - v * w))
  {
    Swap(v, c, w);
  }

  /** A decimal is read back as the double exactly when it lies between the boundaries of what stands for it. */
  lemma InsideReadsBack(s: Scaled, u: nat, exp10: int, m: int, j: nat)
    requires 0 < u < INFINITY && StandsFor(s, u, exp10, 1)
    ensures Inside(s, m, j) <==> ReadsBack(u, m, exp10 - j)
  {
    InsideIs(s, u, exp10, 1, m, j);
    assert 1 * Units(u) == Units(u) && 1 * GapBelow(u) == GapBelow(u) && 1 * GapAbove(u) == GapAbove(u);
    SameDecimal(u, m, exp10, j);
    ReadsBetween(u, m * (TensUp(exp10 - j) * One()), TensDown(exp10 - j));
  }

  /** Nothing between the boundaries of twice a power of two is read back as that power. */
  lemma TwiceReadsOther(s: Scaled, u: nat, exp10: int, m: int, j: nat)
    requires 0 < u < INFINITY && PredecessorCloser(u) && StandsFor(s, u, exp10, 2) && Inside(s, m, j)
    ensures !ReadsBack(u, m, exp10 - j)
  {
    var x, w := m * (TensUp(exp10) * One()), DecimalOver(exp10, j);
    InsideIs(s, u, exp10, 2, m, j);
    GapsPositive(u);
    MulMono(1, TensDown(exp10), Pow(10, j));
    TooFar(x, Units(u), GapBelow(u), GapAbove(u), w, u % 2 == 0);
    SameDecimal(u, m, exp10, j);
    ReadsBetween(u, m * (TensUp(exp10 - j) * One()), TensDown(exp10 - j));
  }

  lemma TooFar(x: int, v: nat, below: nat, above: nat, w: nat, even: bool)
    requires w > 0 && above == 2 * below && v > above && Within(even, 2 * (x - 2 * v * w), 2 * below * w, 2 * above * w)
    ensures !Within(even, 2 * (x - v * w), below * w, above * w)
  {
    MulMono(above + 1, v, w);
    assert 2 * v * w == 2 * (v * w) && 2 * below * w == above * w && (above + 1) * w == above * w + w;
  }

  /** The digits generated are read back, and no decimal with fewer digits after the first is. */
  lemma ShortestReadsBack(s: Scaled, u: nat, exp10: int)
    requires 0 < u < INFINITY && StandsFor(s, u, exp10, 1) && Ready(s)
    ensures var digits := Generate(s);
            && ReadsBack(u, ValueOf(digits), exp10 - (|digits| - 1))
            && forall m, exp :: exp10 - (|digits| - 1) < exp <= exp10 ==> !ReadsBack(u, m, exp)
  {
    var digits := Generate(s);
    Shortest(s);
    InsideReadsBack(s, u, exp10, ValueOf(digits), |digits| - 1);
    forall m, exp | exp10 - (|digits| - 1) < exp <= exp10
      ensures !ReadsBack(u, m, exp)
    {
      InsideReadsBack(s, u, exp10, m, exp10 - exp);
    }
  }

  /** `value == (numerator / denominator) * pow(10, exp10)`, as the set-up promises, if and only if the
      double is not a power of two stored by its first case. */
  lemma InvariantIff(s: Scaled, u: nat, exp10: int)
    requires 0 < u < INFINITY && StandsFor(s, u, exp10, Excess(u))
    ensures s.n * (TensUp(exp10) * One()) == Units(u) * (s.d * TensDown(exp10)) <==>
            !(Exponent(u) >= 0 && PredecessorCloser(u))
  {
    MulMono(1, s.d, TensDown(exp10));
    SignificandPositive(u);
    MulMono(1, Significand(u), GapAbove(u));
    OnceOrTwice(Excess(u), Units(u), s.d * TensDown(exp10));
  }

  lemma OnceOrTwice(k: nat, v: nat, b: nat)
    requires (k == 1 || k == 2) && v > 0 && b > 0
    ensures k * v * b == v * b <==> k == 1
  {
    MulMono(1, v, b);
    assert 2 * v * b == v * b + v * b;
  }

  lemma SignificandPositive(u: nat)
    requires u > 0
    ensures Significand(u) > 0
  {
  }

  /** The double whose numbers are set up: where the first case stores twice a power of two, the next power. */
  function StoredAs(u: nat): nat {
    if Excess(u) == 2 then u + IMPLICIT_BIT else u
  }

  lemma StandsForNext(s: Scaled, u: nat, exp10: int)
    requires StandsFor(s, u, exp10, Excess(u))
    ensures StandsFor(s, StoredAs(u), exp10, 1)
  {
    if Excess(u) == 2 {
      DoublePower(u);
      var b := s.d * TensDown(exp10);
      OnceForTwice(Units(u), Units(u + IMPLICIT_BIT), b);
      OnceForTwice(GapBelow(u), GapBelow(u + IMPLICIT_BIT), b);
      OnceForTwice(GapAbove(u), GapAbove(u + IMPLICIT_BIT), b);
    }
  }

  lemma OnceForTwice(v: nat, twice: nat, b: nat)
    requires twice == 2 * v
    ensures 1 * twice * b == 2 * v * b
  {
  }

  /** Twice a power of two can start the loop whenever the power itself can. */
  lemma TwiceStarts(s: Scaled, u: nat, exp10: int)
    requires PredecessorCloser(u) && StandsFor(s, u, exp10, 2) && Fits(u, exp10, 1)
    ensures Starts(s)
  {
    var a, down := TensUp(exp10) * One(), TensDown(exp10);
    OnePositive();
    MulMono(1, One(), TensUp(exp10));
    Tops(s.n, s.upper, s.d, a, down, Units(u), GapAbove(u), 2);
    TwiceBelow(s.n + s.upper, s.d, a, (2 * Units(u) + GapAbove(u)) * down);
    CloseBy(s.n, s.upper, a, s.d * down, Units(u), GapAbove(u));
  }

  lemma TwiceBelow(n: nat, d: nat, a: nat, top: nat)
    requires a > 0 && 2 * a * n == d * (2 * top) && top <= 20 * a
    ensures n <= 20 * d
  {
    MulMono(top, 20 * a, 2 * d);
    Ordered(2 * a, n, 20 * d);
  }

  lemma CloseBy(n: nat, upper: nat, a: nat, b: nat, units: nat, gap: nat)
    requires a > 0 && n * a == 2 * units * b && 2 * upper * a == 2 * gap * b && units >= 20 * gap
    ensures n >= 40 * upper
  {
    MulMono(20 * gap, units, 2 * b);
    Ordered(a, n, 40 * upper);
  }

  /** `fallback_format`: digits that are read back as the double, if and only if it is not a power of two
      stored by the first case of the set-up, which gives digits of the next power or no digits at all.
      They are the shortest unless those are a lower boundary that the exponents hide. */
  method PrintDouble(u: nat, exp10: int) returns (data: Text, exp: int, ghost s: Scaled)
    requires 0 < u < INFINITY && -0x4000_0000 < exp10 < 0x4000_0000
    requires (Exponent(u) >= 0 ==> exp10 >= 0) && Fits(u, exp10, 1)
    ensures data != [] && exp == exp10 - (|data| - 1)
    ensures AllDigits(data) && ReadsBack(u, ValueOf(data), exp) <==> !(Exponent(u) >= 0 && PredecessorCloser(u))
    ensures AllDigits(data) && StoredAs(u) < INFINITY ==> ReadsBack(StoredAs(u), ValueOf(data), exp)
    ensures StandsFor(s, StoredAs(u), exp10, 1) && Ready(s) == Fits(u, exp10, Excess(u))
    ensures Ready(s) ==>
              && AllDigits(data)
              && (data == Generate(s) <==>
                  !LosesBoundary(s, NumeratorExp(u, exp10), DenominatorExp(u, exp10), NumeratorExp(u, exp10)))
  {
    var numerator, denominator, lower, upper := SetUp(u, exp10);
    s := Of(numerator, denominator, lower, upper, u % 2 == 0);
    FitsIs(s, u, exp10, Excess(u));
    if Excess(u) == 2 {
      TwiceStarts(s, u, exp10);
    }
    data, exp := FallbackDigits(numerator, denominator, lower, upper, u % 2 == 0, exp10);
    StandsForNext(s, u, exp10);
    if AllDigits(data) {
      ReadBackIff(s, u, exp10, ValueOf(data), |data| - 1);
      if StoredAs(u) < INFINITY {
        InsideReadsBack(s, StoredAs(u), exp10, ValueOf(data), |data| - 1);
      }
    }
  }

  lemma ReadBackIff(s: Scaled, u: nat, exp10: int, m: int, j: nat)
    requires 0 < u < INFINITY && StandsFor(s, u, exp10, Excess(u)) && Inside(s, m, j)
    ensures ReadsBack(u, m, exp10 - j) <==> Excess(u) == 1
  {
    if Excess(u) == 1 {
      InsideReadsBack(s, u, exp10, m, j);
    } else {
      TwiceReadsOther(s, u, exp10, m, j);
    }
  }

  /** The digits printed for 2^55 are read as 2^56. */
  method DoubledPower() returns (data: Text, exp: int)
    ensures data != [] && AllDigits(data)
    ensures !ReadsBack(0x4360_0000_0000_0000, ValueOf(data), exp) && ReadsBack(0x4370_0000_0000_0000, ValueOf(data), exp)
  {
    PowerFits(0x4360_0000_0000_0000);
    ghost var s;
    data, exp, s := PrintDouble(0x4360_0000_0000_0000, 16);
  }

  lemma PowerFits(u: nat)
    requires u == 0x4360_0000_0000_0000
    ensures Exponent(u) == 3 && PredecessorCloser(u) && Fits(u, 16, 1) && Fits(u, 16, 2)
  {
    PowAdd(2, BIAS - 1, 3);
    TenRows(16);
    assert Pow(2, 3) == 8;
    OnePositive();
    PowerBelow(One(), GapAbove(u), TensUp(16));
  }

  lemma PowerBelow(one: nat, gap: nat, ten: nat)
    requires one > 0 && gap == one * 8 && ten == 10000000000000000
    ensures 2 * (2 * (IMPLICIT_BIT * gap) + gap) * 1 < 20 * (ten * one)
  {
  }
}
