/** The shortest-digit loop of the fallback float printer, on the exact numbers it works with. */
module ShortestDigits {
  import opened Powers
  import opened Bytes
  import opened Decimal

  /** The value `n / d` and its distances to the two boundaries, all over the same denominator. The
      boundaries themselves belong to the interval when `even`. */
  datatype Scaled = Scaled(n: nat, d: nat, lower: nat, upper: nat, even: bool)

  /** The start condition, which every further digit keeps. */
  predicate Ready(s: Scaled) {
    s.d > 0 && s.lower > 0 && s.upper > 0 &&
    (s.n + s.upper < 10 * s.d || (!s.even && s.n + s.upper == 10 * s.d))
  }

  /** At most the lower distance above the digits so far. */
  predicate NearLow(s: Scaled, rest: nat) {
    rest < s.lower || (s.even && rest == s.lower)
  }

  /** At most the upper distance below the next number of that many digits. */
  predicate NearHigh(s: Scaled, rest: nat) {
    rest + s.upper > s.d || (s.even && rest + s.upper == s.d)
  }

  predicate RoundsUp(s: Scaled, digit: nat, rest: nat) {
    !NearLow(s, rest) || (NearHigh(s, rest) && (2 * rest > s.d || (2 * rest == s.d && digit % 2 != 0)))
  }

  /** What the next pass of the loop works on. */
  function Next(s: Scaled): Scaled
    requires s.d > 0
  {
    s.(n := 10 * (s.n % s.d), lower := 10 * s.lower, upper := 10 * s.upper)
  }

  predicate Last(s: Scaled)
    requires s.d > 0
  {
    NearLow(s, s.n % s.d) || NearHigh(s, s.n % s.d)
  }

  /** A digit short of 10 even when the last one is rounded up. */
  lemma DigitRange(s: Scaled)
    requires Ready(s)
    ensures 0 <= s.n / s.d <= 9 && 0 <= s.n % s.d < s.d
    ensures Last(s) && RoundsUp(s, s.n / s.d, s.n % s.d) ==> s.n / s.d <= 8
    ensures NearHigh(s, s.n % s.d) ==> s.n / s.d <= 8
    ensures !NearHigh(s, s.n % s.d) ==> Ready(Next(s))
    ensures !Last(s) ==> Ready(Next(s))
  {
    var digit, rest := s.n / s.d, s.n % s.d;
    assert s.n == digit * s.d + rest;
    if digit >= 10 {
      MulMono(10, digit, s.d);
    }
  }

  /** The digits the loop writes. */
  function Generate(s: Scaled): (digits: Text)
    requires Ready(s)
    ensures digits != [] && AllDigits(digits)
    decreases 10 * s.d - s.upper
  {
    var digit, rest := s.n / s.d, s.n % s.d;
    DigitRange(s);
    if Last(s) then
      [ZERO + if RoundsUp(s, digit, rest) then digit + 1 else digit]
    else
      [ZERO + digit] + Generate(Next(s))
  }

  // ---- What the digits promise ----

  /** How far the decimal `m / 10^j` lies above the value, over the denominator `d * 10^j`. */
  function Off(s: Scaled, m: int, j: nat): int {
    m * s.d - s.n * Pow(10, j)
  }

  predicate Between(s: Scaled, off: int, scale: nat) {
    if s.even then -(s.lower * scale) <= off <= s.upper * scale
    else -(s.lower * scale) < off < s.upper * scale
  }

  /** The decimal `m / 10^j` lies between the boundaries. */
  predicate Inside(s: Scaled, m: int, j: nat) {
    Between(s, Off(s, m, j), Pow(10, j))
  }

  function Abs(x: int): nat {
    if x < 0 then -x else x
  }

  function Distance(s: Scaled, m: int, j: nat): nat {
    Abs(Off(s, m, j))
  }

  /** `m` is inside, nothing inside is closer, and a tie leaves it even. */
  ghost predicate NearestOf(inside: int -> bool, distance: int -> nat, m: int) {
    inside(m) &&
    forall x :: inside(x) ==>
      distance(m) <= distance(x) && (x != m && distance(m) == distance(x) ==> m % 2 == 0)
  }

  /** Among the decimals over `10^j`, `m / 10^j` is the nearest that is inside. */
  ghost predicate Nearest(s: Scaled, m: int, j: nat) {
    NearestOf(x => Inside(s, x, j), x => Distance(s, x, j), m)
  }

  /** No decimal with fewer digits after the first is inside. */
  ghost predicate NoneBelow(s: Scaled, k: nat) {
    forall j: nat, x: int :: j < k ==> !Inside(s, x, j)
  }

  /** Taking off the leading digit moves to the next pass. */
  lemma OffShift(s: Scaled, m: int, j: nat)
    requires s.d > 0
    ensures Off(s, m, j + 1) == Off(Next(s), m - s.n / s.d * Pow(10, j + 1), j)
    ensures Inside(s, m, j + 1) == Inside(Next(s), m - s.n / s.d * Pow(10, j + 1), j)
  {
    var digit, rest := s.n / s.d, s.n % s.d;
    var ten := Pow(10, j);
    assert Pow(10, j + 1) == 10 * ten;
    Expand(m, digit, s.d, rest, s.n, ten);
    TenTimes(s.lower, ten);
    TenTimes(s.upper, ten);
  }

  lemma Expand(m: int, digit: nat, d: nat, rest: nat, n: nat, ten: nat)
    requires n == digit * d + rest
    ensures m * d - n * (10 * ten) == (m - digit * (10 * ten)) * d - 10 * rest * ten
  {
  }

  lemma TenTimes(x: nat, ten: nat)
    ensures x * (10 * ten) == 10 * x * ten == 10 * (x * ten)
  {
  }

  /** A pass that goes on has nothing inside between its two neighbours. */
  lemma NothingYet(s: Scaled, x: int)
    requires s.d > 0 && !Last(s)
    ensures !Inside(s, x, 0)
  {
    var digit, rest := s.n / s.d, s.n % s.d;
    assert Pow(10, 0) == 1 && s.n == digit * s.d + rest;
    if x <= digit {
      MulMono(x, digit, s.d);
    } else {
      MulMono(digit + 1, x, s.d);
    }
  }

  /** The last pass picks the nearest of its two neighbours that is inside. */
  lemma LastPass(s: Scaled)
    requires Ready(s) && Last(s)
    ensures Nearest(s, if RoundsUp(s, s.n / s.d, s.n % s.d) then s.n / s.d + 1 else s.n / s.d, 0)
  {
    var digit, rest := s.n / s.d, s.n % s.d;
    assert Pow(10, 0) == 1;
    forall x: int {:trigger Off(s, x, 0)}
      ensures Neighbours(s, digit, rest, x, Off(s, x, 0))
    {
      Around(s, x);
    }
    LastChoice(s, digit, rest);
  }

  /** Where a whole number lies, from the two around the value. */
  predicate Neighbours(s: Scaled, digit: int, rest: nat, x: int, off: int) {
    (x < digit ==> off + rest + s.d <= 0) && (x == digit ==> off + rest == 0) &&
    (x == digit + 1 ==> off + rest == s.d) && (x > digit + 1 ==> off + rest >= 2 * s.d)
  }

  lemma Multiples(n: nat, d: nat, digit: nat, rest: nat, x: int)
    requires n == digit * d + rest
    ensures x < digit ==> x * d - n * 1 + rest + d <= 0
    ensures x == digit ==> x * d - n * 1 + rest == 0
    ensures x == digit + 1 ==> x * d - n * 1 + rest == d
    ensures x > digit + 1 ==> x * d - n * 1 + rest >= 2 * d
  {
    if x < digit {
      MulMono(x + 1, digit, d);
    } else if x > digit + 1 {
      MulMono(digit + 2, x, d);
    }
  }

  lemma LastChoice(s: Scaled, digit: nat, rest: nat)
    requires s.lower > 0 && s.upper > 0 && rest < s.d && (NearLow(s, rest) || NearHigh(s, rest)) && Pow(10, 0) == 1
    requires forall x: int {:trigger Off(s, x, 0)} :: Neighbours(s, digit, rest, x, Off(s, x, 0))
    ensures Nearest(s, if RoundsUp(s, digit, rest) then digit + 1 else digit, 0)
  {
    var m := if RoundsUp(s, digit, rest) then digit + 1 else digit;
    Chosen(s, digit, rest, m, m, Off(s, m, 0), Off(s, m, 0));
    forall x: int | Inside(s, x, 0)
      ensures Distance(s, m, 0) <= Distance(s, x, 0)
      ensures x != m && Distance(s, m, 0) == Distance(s, x, 0) ==> m % 2 == 0
    {
      Chosen(s, digit, rest, m, x, Off(s, m, 0), Off(s, x, 0));
    }
  }

  lemma Chosen(s: Scaled, digit: nat, rest: nat, m: int, x: int, off: int, other: int)
    requires s.lower > 0 && s.upper > 0 && rest < s.d && (NearLow(s, rest) || NearHigh(s, rest))
    requires m == if RoundsUp(s, digit, rest) then digit + 1 else digit
    requires Neighbours(s, digit, rest, m, off) && Neighbours(s, digit, rest, x, other)
    ensures Between(s, off, 1)
    ensures Between(s, other, 1) ==> Abs(off) <= Abs(other) && (x != m && Abs(off) == Abs(other) ==> m % 2 == 0)
  {
  }

  lemma MoreDigits(c: nat, p: nat, v: nat, d: nat)
    ensures (c * p + v) * 10 + d == c * (10 * p) + (v * 10 + d)
  {
  }

  lemma {:induction false} FirstDigit(c: byte, s: Text, scale: nat)
    requires IsDigit(c) && AllDigits(s) && scale == Pow(10, |s|)
    ensures ValueOf([c] + s) == (c - ZERO) * scale + ValueOf(s)
  {
    var whole := [c] + s;
    if s == [] {
      assert whole[..0] == [];
    } else {
      var head, tail := s[..|s| - 1], s[|s| - 1] - ZERO;
      FirstDigit(c, head, Pow(10, |s| - 1));
      assert whole[..|whole| - 1] == [c] + head;
      MoreDigits(c - ZERO, Pow(10, |s| - 1), ValueOf(head), tail);
    }
  }

  /** The digits, read with the point after the first one, are the nearest decimal of their length
      inside the interval, and no decimal with fewer digits is inside. */
  lemma {:induction false} Shortest(s: Scaled)
    requires Ready(s)
    ensures var digits := Generate(s);
            Nearest(s, ValueOf(digits), |digits| - 1) && NoneBelow(s, |digits| - 1)
    decreases 10 * s.d - s.upper
  {
    if Last(s) {
      ShortestNow(s);
    } else {
      DigitRange(s);
      Shortest(Next(s));
      Prepend(s, s.n / s.d, Generate(Next(s)));
    }
  }

  lemma ShortestNow(s: Scaled)
    requires Ready(s) && Last(s)
    ensures |Generate(s)| == 1 && Nearest(s, ValueOf(Generate(s)), 0)
  {
    GeneratedNow(s);
    LastPass(s);
  }

  lemma GeneratedNow(s: Scaled)
    requires Ready(s) && Last(s)
    ensures |Generate(s)| == 1
    ensures ValueOf(Generate(s)) == s.n / s.d + if RoundsUp(s, s.n / s.d, s.n % s.d) then 1 else 0
  {
    var digits := Generate(s);
    DigitRange(s);
    FirstDigit(digits[0], [], 1);
    assert digits == [digits[0]] + [];
  }

  lemma Prepend(s: Scaled, digit: byte, rest: Text)
    requires Ready(s) && !Last(s) && digit == s.n / s.d && digit <= 9 && rest != [] && AllDigits(rest)
    requires Nearest(Next(s), ValueOf(rest), |rest| - 1) && NoneBelow(Next(s), |rest| - 1)
    ensures Nearest(s, ValueOf([ZERO + digit] + rest), |rest|) && NoneBelow(s, |rest|)
  {
    var k := |rest| - 1;
    var v := ValueOf(rest);
    var shift := Leading(digit, rest);
    PrependNearest(s, ValueOf([ZERO + digit] + rest), v, shift, k);
    PrependNone(s, k);
  }

  lemma Leading(digit: nat, rest: Text) returns (shift: nat)
    requires digit <= 9 && rest != [] && AllDigits(rest)
    ensures shift == digit * Pow(10, |rest|) && shift % 2 == 0
    ensures ValueOf([ZERO + digit] + rest) == shift + ValueOf(rest)
  {
    shift := digit * Pow(10, |rest|);
    FirstDigit(ZERO + digit, rest, Pow(10, |rest|));
    EvenTimes(digit, Pow(10, |rest| - 1));
  }

  lemma EvenTimes(x: nat, ten: nat)
    ensures x * (10 * ten) % 2 == 0
  {
    TenTimes(x, ten);
  }

  lemma PrependNone(s: Scaled, k: nat)
    requires s.d > 0 && !Last(s) && NoneBelow(Next(s), k)
    ensures NoneBelow(s, k + 1)
  {
    forall j: nat, x: int | j < k + 1
      ensures !Inside(s, x, j)
    {
      if j == 0 {
        NothingYet(s, x);
      } else {
        OffShift(s, x, j - 1);
      }
    }
  }

  lemma PrependNearest(s: Scaled, m: int, v: int, shift: int, k: nat)
    requires s.d > 0 && shift == s.n / s.d * Pow(10, k + 1) && shift % 2 == 0 && m == shift + v
    requires Nearest(Next(s), v, k)
    ensures Nearest(s, m, k + 1)
  {
    var inside, distance := (x: int) => Inside(s, x, k + 1), (x: int) => Distance(s, x, k + 1);
    var inNext, awayNext := (x: int) => Inside(Next(s), x, k), (x: int) => Distance(Next(s), x, k);
    forall x: int
      ensures inside(x) == inNext(x - shift) && distance(x) == awayNext(x - shift)
    {
      OffShift(s, x, k);
    }
    ShiftNearest(inside, distance, inNext, awayNext, m, shift);
  }

  lemma ShiftNearest(inside: int -> bool, distance: int -> nat, inNext: int -> bool, awayNext: int -> nat,
                     m: int, shift: int)
    requires forall x :: inside(x) == inNext(x - shift) && distance(x) == awayNext(x - shift)
    requires NearestOf(inNext, awayNext, m - shift) && shift % 2 == 0
    ensures NearestOf(inside, distance, m)
  {
  }

  /** The digits are exactly the lower boundary of the interval. */
  predicate OnLowerBoundary(s: Scaled)
    requires Ready(s)
  {
    var digits := Generate(s);
    Off(s, ValueOf(digits), |digits| - 1) == -(s.lower * Pow(10, |digits| - 1))
  }

  /** The lower boundary is itself the shortest decimal, and the nearest of its length. */
  ghost predicate BoundaryIsShortest(s: Scaled, m: int, j: nat) {
    m * s.d == (s.n - s.lower) * Pow(10, j) && Nearest(s, m, j) && NoneBelow(s, j)
  }

  /** Whether the digits are the boundary can be told from the numbers alone. */
  lemma OnBoundaryIff(s: Scaled)
    requires Ready(s)
    ensures OnLowerBoundary(s) <==> exists m, j :: BoundaryIsShortest(s, m, j)
  {
    var digits := Generate(s);
    var m, k := ValueOf(digits), |digits| - 1;
    Shortest(s);
    BoundaryOff(s, m, k, Pow(10, k));
    if OnLowerBoundary(s) {
      assert BoundaryIsShortest(s, m, k);
    }
    forall x, j: nat | BoundaryIsShortest(s, x, j)
      ensures OnLowerBoundary(s)
    {
      assert j == k;
      BoundaryOff(s, x, k, Pow(10, k));
      OneNearest(s, x, m, k);
    }
  }

  lemma BoundaryOff(s: Scaled, m: int, j: nat, ten: nat)
    requires ten == Pow(10, j)
    ensures Off(s, m, j) == -(s.lower * ten) <==> m * s.d == (s.n - s.lower) * ten
  {
  }

  lemma NearerThan(s: Scaled, m: int, j: nat, x: int)
    requires Nearest(s, m, j) && Inside(s, x, j)
    ensures Distance(s, m, j) <= Distance(s, x, j)
    ensures x != m && Distance(s, m, j) == Distance(s, x, j) ==> m % 2 == 0
  {
    var inside := (x: int) => Inside(s, x, j);
    assert inside(x);
  }

  /** Two nearest ones would be even, and the boundary is too far off for another number between them. */
  lemma OneNearest(s: Scaled, x: int, m: int, j: nat)
    requires Ready(s) && Nearest(s, x, j) && Nearest(s, m, j) && Off(s, x, j) == -(s.lower * Pow(10, j))
    ensures x == m
  {
    NearerThan(s, x, j, m);
    NearerThan(s, m, j, x);
    if x != m {
      TwoApart(s.d, s.n * Pow(10, j), s.lower * Pow(10, j), x, m);
      OneUp(s, x, j);
      NearerThan(s, x, j, x + 1);
      assert false;
    }
  }

  lemma TwoApart(d: nat, n: int, l: nat, x: int, m: int)
    requires d > 0 && l > 0 && x % 2 == 0 && m % 2 == 0 && x != m
    requires x * d + l == n && Abs(m * d - n) == l
    ensures d <= l
  {
    if m < x {
      MulMono(m + 1, x, d);
    } else {
      MulMono(x + 2, m, d);
    }
  }

  lemma OneUp(s: Scaled, x: int, j: nat)
    requires Off(s, x, j) == -(s.lower * Pow(10, j)) && 0 < s.d <= s.lower * Pow(10, j) && s.upper > 0
    ensures Inside(s, x + 1, j) && Distance(s, x + 1, j) < Distance(s, x, j)
  {
    assert Off(s, x + 1, j) == Off(s, x, j) + s.d;
  }

  /** In the last pass: the remainder is the lower distance and the digit is not rounded up. */
  lemma BoundaryNow(s: Scaled)
    requires Ready(s) && Last(s)
    ensures OnLowerBoundary(s) <==> s.n % s.d == s.lower && !RoundsUp(s, s.n / s.d, s.n % s.d)
  {
    DigitRange(s);
    GeneratedNow(s);
    Around(s, ValueOf(Generate(s)));
  }

  lemma Around(s: Scaled, x: int)
    requires s.d > 0
    ensures Pow(10, 0) == 1 && 0 <= s.n % s.d
    ensures Neighbours(s, s.n / s.d, s.n % s.d, x, Off(s, x, 0))
  {
    Multiples(s.n, s.d, s.n / s.d, s.n % s.d, x);
  }

  /** Before it: the rest of the digits decides. */
  lemma BoundaryLater(s: Scaled)
    requires Ready(s) && !Last(s) && Ready(Next(s))
    ensures OnLowerBoundary(s) <==> OnLowerBoundary(Next(s))
  {
    DigitRange(s);
    BoundaryPrepend(s, s.n / s.d, Generate(Next(s)));
  }

  lemma BoundaryPrepend(s: Scaled, digit: byte, rest: Text)
    requires s.d > 0 && digit == s.n / s.d && digit <= 9 && rest != [] && AllDigits(rest)
    ensures Off(s, ValueOf([ZERO + digit] + rest), |rest|) == Off(Next(s), ValueOf(rest), |rest| - 1)
    ensures s.lower * Pow(10, |rest|) == Next(s).lower * Pow(10, |rest| - 1)
  {
    var k := |rest| - 1;
    var v := ValueOf(rest);
    var shift := Leading(digit, rest);
    ShiftedOff(s, ValueOf([ZERO + digit] + rest), v, shift, k);
    TenTimes(s.lower, Pow(10, k));
  }

  lemma ShiftedOff(s: Scaled, m: int, v: int, shift: int, k: nat)
    requires s.d > 0 && shift == s.n / s.d * Pow(10, k + 1) && m == shift + v
    ensures Off(s, m, k + 1) == Off(Next(s), v, k)
  {
    OffShift(s, m, k);
  }

  /** Counted in significant digits: when the first digit is not zero, every decimal inside, at any
      scale, has at least as many digits as the loop wrote. */
  lemma FewestDigits(s: Scaled, m: nat, j: nat)
    requires Ready(s) && s.n >= s.d && Inside(s, m, j)
    ensures |Digits(m)| >= |Generate(s)|
  {
    var k := |Generate(s)| - 1;
    Shortest(s);
    DigitsSize(m);
    if |Digits(m)| <= k {
      Pow10Mono(|Digits(m)|, k);
      Pow10Mono(k, j);
      BelowOne(s, m, j, Pow(10, j));
      assert false;
    }
  }

  lemma BelowOne(s: Scaled, m: nat, j: nat, ten: nat)
    requires s.n >= s.d > 0 && Inside(s, m, j) && ten == Pow(10, j) && m < ten && s.lower > 0 && s.upper > 0
    ensures Inside(s, 1, 0)
  {
    assert Pow(10, 0) == 1;
    Below(s.n, s.lower, s.d, m, ten);
  }

  lemma Below(n: nat, lower: nat, d: nat, m: nat, ten: nat)
    requires m * d - n * ten >= -(lower * ten) && m < ten && d > 0
    ensures n - lower < d
  {
    if n - lower >= d {
      MulMono(d, n - lower, ten);
      MulMono(m + 1, ten, d);
    }
  }
}
