/** The digit loop of the fallback float printer, run on the big integers themselves. */
module FallbackFormat {
  import opened Bytes
  import opened Powers
  import opened Decimal
  import opened Bigits
  import opened BigintMul
  import opened Bigint
  import opened ShortestDigits

  /** Distinct numbers with non-zero top digits; `upper` may be `lower` itself. The set-up stores the
      numerator and the lower distance with one exponent, and alignment only takes the numerator's down. */
  predicate Stored(numerator: Bigint, denominator: Bigint, lower: Bigint, upper: Bigint)
    reads numerator, denominator, lower, upper
  {
    numerator !in {denominator, lower, upper} && denominator !in {lower, upper} &&
    denominator.Normal() && lower.Normal() && upper.Normal() &&
    numerator.exp <= lower.exp
  }

  ghost function Of(numerator: Bigint, denominator: Bigint, lower: Bigint, upper: Bigint, even: bool): Scaled
    reads numerator, denominator, lower, upper
  {
    Scaled(numerator.Value(), denominator.Value(), lower.Value(), upper.Value(), even)
  }

  /** Times ten, in place. */
  method TenFold(n: Bigint)
    requires n.Normal()
    modifies n`bigits
    ensures n.Normal() && n.Value() == 10 * old(n.Value())
  {
    MulByTop(n.bigits, 10);
    Shuffle(P(n.exp), Val(n.bigits));
    n.Multiply32(10);
  }

  lemma Shuffle(p: nat, v: nat)
    ensures p * (v * 10) == 10 * (p * v)
  {
  }

  /** Below the lower distance, or at it, unless the two are `hidden` from each other by being stored
      with different exponents. */
  predicate SeenLow(s: Scaled, rest: nat, hidden: bool) {
    rest < s.lower || (s.even && rest == s.lower && !hidden)
  }

  /** The loop can run: the start condition holds, or the number is below 20 and the upper boundary close,
      so that only the first digit can be too large. */
  predicate Starts(s: Scaled) {
    Ready(s) || (s.d > 0 && s.lower > 0 && 0 < s.upper < s.d && s.n < 20 * s.d)
  }

  /** The top digit is not zero, or there is only one, at or below the denominator's first place. */
  predicate Remainder(numerator: Bigint, denominator: Bigint)
    reads numerator, denominator
  {
    numerator.bigits != [] &&
    (numerator.Normal() || (|numerator.bigits| == 1 && numerator.exp <= denominator.exp))
  }

  /** One digit, and on which sides the remainder is seen to be close enough to stop. */
  method Pass(numerator: Bigint, denominator: Bigint, lower: Bigint, upper: Bigint, even: bool)
    returns (digit: nat, low: bool, high: bool)
    requires Stored(numerator, denominator, lower, upper) && numerator.Normal()
    requires Starts(Of(numerator, denominator, lower, upper, even))
    modifies numerator
    ensures Remainder(numerator, denominator) && (numerator.Value() > 0 ==> numerator.Normal())
    ensures numerator.exp == Aligned(old(numerator.exp), denominator.exp, digit)
    ensures var s, rest := old(Of(numerator, denominator, lower, upper, even)), numerator.Value();
            && Found(s, old(numerator.exp), denominator.exp, digit, rest)
            && low == SeenLow(s, rest, numerator.exp < lower.exp) && high == NearHigh(s, rest)
  {
    ghost var n, d := numerator.Value(), denominator.Value();
    PositiveValue(numerator);
    digit := numerator.DivmodAssign(denominator);
    NothingLeft(n, d, digit, numerator.Value());
    if numerator.Value() < d {
      Divides(n, d, digit, numerator.Value());
    }
    low, high := Sides(numerator, denominator, lower, upper, even);
  }

  lemma Divides(n: nat, d: nat, q: nat, r: nat)
    requires d > 0 && n == q * d + r && r < d
    ensures n / d == q && n % d == r
  {
    DivIs(n, d, q, r);
  }

  lemma NothingLeft(n: nat, d: nat, q: nat, r: nat)
    requires n > 0 && n == q * d + r
    ensures q == 0 ==> r > 0
  {
  }

  method Sides(numerator: Bigint, denominator: Bigint, lower: Bigint, upper: Bigint, even: bool)
    returns (low: bool, high: bool)
    requires Stored(numerator, denominator, lower, upper) && Remainder(numerator, denominator)
    ensures var s := Of(numerator, denominator, lower, upper, even);
            low == SeenLow(s, s.n, numerator.exp < lower.exp) && high == NearHigh(s, s.n)
  {
    var order := Compare(numerator, lower);
    low := order - (if even then 1 else 0) < 0;
    var sum := AddCompare(numerator, upper, denominator);
    high := sum + (if even then 1 else 0) > 0;
  }

  /** The last digit, one more when the next number is the nearer one. */
  method RoundLast(data: Text, numerator: Bigint, denominator: Bigint, digit: byte, low: bool, high: bool)
    returns (rounded: Text)
    requires ZERO + digit < 255 && Remainder(numerator, denominator) && denominator.Normal()
    ensures var rest, d := numerator.Value(), denominator.Value();
            var up := !low || (high && (2 * rest > d || (2 * rest == d && digit % 2 != 0)));
            rounded == data + [ZERO + digit + if up then 1 else 0]
  {
    var last := |data|;
    rounded := data + [ZERO + digit];
    if !low {
      rounded := rounded[last := rounded[last] + 1];
    } else if high {
      var result := AddCompare(numerator, numerator, denominator);
      // Round half to even.
      if result > 0 || (result == 0 && digit % 2 != 0) {
        rounded := rounded[last := rounded[last] + 1];
      }
    }
  }

  /** Moves the remainder and both distances to the next digit. */
  method MoveOn(numerator: Bigint, denominator: Bigint, lower: Bigint, upper: Bigint, ghost even: bool)
    requires Stored(numerator, denominator, lower, upper) && numerator.Normal()
    modifies numerator`bigits, lower`bigits, upper`bigits
    ensures Stored(numerator, denominator, lower, upper) && numerator.Normal()
    ensures var s := old(Of(numerator, denominator, lower, upper, even));
            Of(numerator, denominator, lower, upper, even) == Scaled(10 * s.n, s.d, 10 * s.lower, 10 * s.upper, even)
  {
    TenFold(numerator);
    TenFold(lower);
    if upper != lower {
      TenFold(upper);
    }
  }

  // ---- The lower boundary ----

  /** When the shortest decimal is the lower boundary itself, the loop sees it only if the remainder and
      the lower distance are stored with one exponent in the pass that reaches it. */
  predicate LosesBoundary(s: Scaled, numeratorExp: nat, denominatorExp: nat, lowerExp: nat)
    requires Ready(s)
  {
    s.even && OnLowerBoundary(s) && Hides(s.n == s.lower, numeratorExp, denominatorExp, lowerExp)
  }

  /** The exponents differ from the start, or once a digit other than 0 has aligned the numerator; a
      boundary of zero comes before that. */
  predicate Hides(zero: bool, numeratorExp: nat, denominatorExp: nat, lowerExp: nat) {
    numeratorExp < lowerExp || (numeratorExp > denominatorExp && !zero)
  }

  /** The numerator's exponent after a pass. */
  function Aligned(exp: nat, denominatorExp: nat, digit: nat): nat {
    if digit > 0 && exp > denominatorExp then denominatorExp else exp
  }

  /** Equal to the denominator but not yet aligned, the numerator gives 0 and rounds up to 1. */
  lemma NotAligned(s: Scaled)
    requires Ready(s) && s.n == s.d
    ensures Last(s) && Generate(s) == [ZERO + 1] && !OnLowerBoundary(s) && NearHigh(s, s.d)
  {
    Divides(s.n, s.d, 1, 0);
    BoundaryNow(s);
  }

  lemma DigitsApart(digit: nat, d: nat, n: nat, rest: nat)
    requires n == digit * d + rest && d > 0
    ensures n >= rest && (n == rest <==> digit == 0)
  {
    if digit > 0 {
      MulMono(1, digit, d);
    }
  }

  lemma HidesNow(zero: bool, digit: nat, exp: nat, den: nat, low: nat)
    requires exp <= low && (zero <==> digit == 0)
    ensures Hides(zero, exp, den, low) <==> Aligned(exp, den, digit) < low
  {
  }

  lemma HidesLater(digit: nat, exp: nat, den: nat, low: nat)
    requires exp <= low
    ensures Hides(false, exp, den, low) <==> Hides(false, Aligned(exp, den, digit), den, low)
  {
  }

  /** In the last pass the boundary is lost exactly when it is hidden there. */
  lemma LostNow(s: Scaled, digit: nat, exp: nat, den: nat, low: nat)
    requires Ready(s) && Last(s) && digit == s.n / s.d && exp <= low
    ensures LosesBoundary(s, exp, den, low) <==>
            s.even && OnLowerBoundary(s) && Aligned(exp, den, digit) < low
  {
    BoundaryNow(s);
    DigitRange(s);
    DigitsApart(digit, s.d, s.n, s.n % s.d);
    if OnLowerBoundary(s) {
      HidesNow(s.n == s.lower, digit, exp, den, low);
    }
  }

  lemma LostLater(s: Scaled, digit: nat, exp: nat, den: nat, low: nat)
    requires Ready(s) && !Last(s) && Ready(Next(s)) && digit == s.n / s.d && exp <= low
    ensures LosesBoundary(s, exp, den, low) <==>
            LosesBoundary(Next(s), Aligned(exp, den, digit), den, low)
  {
    BoundaryLater(s);
    if s.even {
      AboveLower(s);
      HidesLater(digit, exp, den, low);
    }
  }

  lemma AboveLower(s: Scaled)
    requires Ready(s) && !Last(s) && s.even
    ensures s.n > s.lower && Next(s).n > Next(s).lower
  {
    DigitRange(s);
    DigitsApart(s.n / s.d, s.d, s.n, s.n % s.d);
  }

  /** What the loop writes when it stops is the last digit generated, unless the boundary was hidden. */
  lemma StopsWith(s: Scaled, hidden: bool, up: bool)
    requires Ready(s) && (SeenLow(s, s.n % s.d, hidden) || NearHigh(s, s.n % s.d))
    requires up == (!SeenLow(s, s.n % s.d, hidden) || RoundsUp(s, s.n / s.d, s.n % s.d))
    ensures Last(s) && s.n / s.d + (if up then 1 else 0) <= 9
    ensures Generate(s) == [ZERO + s.n / s.d + if up then 1 else 0] <==> !(s.even && OnLowerBoundary(s) && hidden)
  {
    DigitRange(s);
    BoundaryNow(s);
  }

  // ---- Between the boundaries ----

  /** The digits, read with the point after the first one, lie between the boundaries. */
  predicate Lies(s: Scaled, digits: Text) {
    digits != [] && AllDigits(digits) && Inside(s, ValueOf(digits), |digits| - 1)
  }

  /** More digits behind these lie between the boundaries at the start exactly when, read by themselves,
      they lie between the ones now. */
  ghost predicate Carried(start: Text -> bool, data: Text, s: Scaled) {
    Carries(start, data, Judge(s))
  }

  function Judge(s: Scaled): Text -> bool {
    digits => Lies(s, digits)
  }

  ghost predicate Carries(start: Text -> bool, data: Text, now: Text -> bool) {
    forall rest :: rest != [] && AllDigits(rest) ==> (start(data + rest) <==> now(rest))
  }

  lemma CarriedStart(s: Scaled)
    ensures Carried(Judge(s), [], s)
  {
    assert forall rest: Text :: [] + rest == rest;
  }

  lemma CarriesOn(start: Text -> bool, data: Text, now: Text -> bool, digit: byte, next: Text -> bool)
    requires Carries(start, data, now) && IsDigit(digit)
    requires forall rest :: rest != [] && AllDigits(rest) ==> (now([digit] + rest) <==> next(rest))
    ensures Carries(start, data + [digit], next)
  {
    forall rest: Text | rest != [] && AllDigits(rest)
      ensures start(data + [digit] + rest) <==> next(rest)
    {
      assert data + [digit] + rest == data + ([digit] + rest);
    }
  }

  lemma LiesLater(s: Scaled, digit: nat, rest: Text)
    requires s.d > 0 && digit == s.n / s.d && digit <= 9 && rest != [] && AllDigits(rest)
    ensures Lies(s, [ZERO + digit] + rest) <==> Lies(Next(s), rest)
  {
    var shift := Leading(digit, rest);
    OffShift(s, ValueOf([ZERO + digit] + rest), |rest| - 1);
  }

  lemma CarriedOn(start: Text -> bool, data: Text, s: Scaled, digit: nat)
    requires Carried(start, data, s) && s.d > 0 && digit == s.n / s.d && digit <= 9
    ensures Carried(start, data + [ZERO + digit], Next(s))
  {
    forall rest: Text | rest != [] && AllDigits(rest)
      ensures Lies(s, [ZERO + digit] + rest) <==> Lies(Next(s), rest)
    {
      LiesLater(s, digit, rest);
    }
    CarriesOn(start, data, Judge(s), ZERO + digit, Judge(Next(s)));
  }

  /** The last digit, seen to be close enough, is between the boundaries, hidden ones or not. */
  lemma StopsInside(s: Scaled, exp: nat, den: nat, digit: nat, rest: nat, hidden: bool, up: bool)
    requires Starts(s) && Found(s, exp, den, digit, rest) && (SeenLow(s, rest, hidden) || NearHigh(s, rest))
    requires up == (!SeenLow(s, rest, hidden) || RoundsUp(s, digit, rest))
    ensures Inside(s, digit + if up then 1 else 0, 0)
  {
    if s.n == s.d {
      Divides(s.n, s.d, 1, 0);
    }
    Around(s, digit + if up then 1 else 0);
  }

  lemma EndsInside(start: Text -> bool, data: Text, s: Scaled, last: nat)
    requires Carried(start, data, s) && last <= 9 && Inside(s, last, 0)
    ensures start(data + [ZERO + last])
  {
    OneDigitLies(s, last);
    CarriesLast(start, data, Judge(s), [ZERO + last]);
  }

  lemma OneDigitLies(s: Scaled, last: nat)
    requires last <= 9 && Inside(s, last, 0)
    ensures Lies(s, [ZERO + last])
  {
    FirstDigit(ZERO + last, [], 1);
    assert [ZERO + last] + [] == [ZERO + last];
  }

  lemma CarriesLast(start: Text -> bool, data: Text, now: Text -> bool, last: Text)
    requires Carries(start, data, now) && last != [] && AllDigits(last) && now(last)
    ensures start(data + last)
  {
  }

  // ---- The loop ----

  /** Where the loop stands: on the way to the digits generated, or past them, or astray from the start
      because the first digit is too large; and which texts lie between the boundaries. */
  datatype Course = Course(judge: Text -> bool, goal: Text, loses: bool, astray: bool, passed: bool)

  /** On course, and the digits behind these are judged as at the start. */
  ghost predicate OnTrack(c: Course, data: Text, s: Scaled, exp: nat, den: nat, low: nat)
    requires Ready(s)
  {
    OnCourse(c, data, s, exp, den, low) && Carried(c.judge, data, s)
  }

  ghost predicate Along(c: Course, data: Text, s: Scaled, exp: nat, den: nat, low: nat) {
    if c.astray then Astray(c.judge, data, s) else Ready(s) && AllDigits(data) && OnTrack(c, data, s, exp, den, low)
  }

  /** The text begins with something else than a digit, or with what the first pass is about to write. */
  ghost predicate Astray(judge: Text -> bool, data: Text, s: Scaled) {
    if Ready(s) then data != [] && !IsDigit(data[0]) else data == [] && Starts(s) && judge == Judge(s)
  }

  /** What the text is in the end. */
  ghost predicate Ended(c: Course, text: Text) {
    && text != [] && (AllDigits(text) ==> c.judge(text))
    && (!c.astray ==> AllDigits(text) && (text == c.goal <==> !c.loses))
  }

  /** What a pass writes. */
  lemma Written(c: Course, data: Text, s: Scaled, exp: nat, den: nat, low: nat, digit: nat, rest: nat, done: bool, more: Text)
    returns (c': Course)
    requires Starts(s) && exp <= low && Found(s, exp, den, digit, rest) && Along(c, data, s, exp, den, low)
    requires Writes(s, data, digit, rest, Aligned(exp, den, digit) < low, done, more)
    ensures c' == c.(passed := c'.passed)
    ensures done ==> Ended(c, more)
    ensures !done ==>
              && rest == s.n % s.d && Ready(Next(s))
              && Along(c', more, Next(s), Aligned(exp, den, digit), den, low)
  {
    c' := c;
    if c.astray {
      WrittenAstray(c.judge, data, s, exp, den, digit, rest, Aligned(exp, den, digit) < low, done, more);
    } else if done {
      var up := !SeenLow(s, rest, Aligned(exp, den, digit) < low) || RoundsUp(s, digit, rest);
      Stops(c, data, s, exp, den, low, digit, rest, up);
      StopsInside(s, exp, den, digit, rest, Aligned(exp, den, digit) < low, up);
      EndsInside(c.judge, data, s, digit + if up then 1 else 0);
    } else {
      c' := GoesOn(c, data, s, exp, den, low, digit, rest);
      CarriedOn(c.judge, data, s, digit);
    }
  }

  lemma WrittenAstray(judge: Text -> bool, data: Text, s: Scaled, exp: nat, den: nat, digit: nat, rest: nat, hidden: bool,
                      done: bool, more: Text)
    requires Starts(s) && Found(s, exp, den, digit, rest) && Astray(judge, data, s)
    requires Writes(s, data, digit, rest, hidden, done, more)
    ensures more != [] && (AllDigits(more) ==> done && judge(more))
    ensures !done ==> rest == s.n % s.d && Ready(Next(s)) && !IsDigit(more[0])
  {
    if Ready(s) {
      DigitRange(s);
      assert more[0] == data[0];
    } else {
      TooLarge(s, s.n / s.d, s.n % s.d);
      assert more == [more[0]];
      if done && more[0] <= ZERO + 9 {
        StopsInside(s, exp, den, digit, rest, hidden, more[0] != ZERO + digit);
        OneDigitLies(s, more[0] - ZERO);
      }
    }
  }

  /** Without the start condition the first digit is at least 9, and 9 only right below ten. */
  lemma TooLarge(s: Scaled, digit: nat, rest: nat)
    requires Starts(s) && !Ready(s) && digit == s.n / s.d && rest == s.n % s.d
    ensures digit >= 9 && s.n != s.d && rest < s.d
    ensures digit == 9 ==> NearHigh(s, rest)
    ensures !NearHigh(s, rest) ==> Ready(Next(s))
  {
    assert s.n == digit * s.d + rest;
    if digit < 9 {
      MulMono(digit, 8, s.d);
    }
  }

  predicate OnCourse(c: Course, data: Text, s: Scaled, exp: nat, den: nat, low: nat)
    requires Ready(s)
  {
    if c.passed then c.loses && |data| >= |c.goal|
    else data + Generate(s) == c.goal && c.loses == LosesBoundary(s, exp, den, low)
  }

  /** What a pass finds, whose numerator is aligned to exponent `exp` of the two given. */
  predicate Found(s: Scaled, exp: nat, den: nat, digit: nat, rest: nat)
    requires s.d > 0
  {
    if s.n == s.d && exp > den then digit == 0 && rest == s.d
    else digit == s.n / s.d && rest == s.n % s.d
  }

  lemma GoesOn(c: Course, data: Text, s: Scaled, exp: nat, den: nat, low: nat, digit: nat, rest: nat) returns (c': Course)
    requires Ready(s) && exp <= low && Found(s, exp, den, digit, rest) && OnCourse(c, data, s, exp, den, low)
    requires !SeenLow(s, rest, Aligned(exp, den, digit) < low) && !NearHigh(s, rest)
    ensures rest > 0 && rest == s.n % s.d && digit == s.n / s.d && digit <= 9 && Ready(Next(s))
    ensures OnCourse(c', data + [ZERO + digit], Next(s), Aligned(exp, den, digit), den, low)
    ensures c' == c.(passed := c'.passed)
  {
    DigitRange(s);
    c' := c;
    if !c.passed && Last(s) {
      LostNow(s, s.n / s.d, exp, den, low);
      BoundaryNow(s);
      GeneratedNow(s);
      c' := c.(passed := true);
    } else if !c.passed {
      LostLater(s, digit, exp, den, low);
      Continued(data, s);
    }
  }

  lemma Continued(data: Text, s: Scaled)
    requires Ready(s) && !Last(s) && Ready(Next(s))
    ensures 0 <= s.n / s.d <= 9 && data + [ZERO + s.n / s.d] + Generate(Next(s)) == data + Generate(s)
  {
    DigitRange(s);
  }

  lemma Stops(c: Course, data: Text, s: Scaled, exp: nat, den: nat, low: nat, digit: nat, rest: nat, up: bool)
    requires Ready(s) && exp <= low && Found(s, exp, den, digit, rest) && OnCourse(c, data, s, exp, den, low)
    requires SeenLow(s, rest, Aligned(exp, den, digit) < low) || NearHigh(s, rest)
    requires up == (!SeenLow(s, rest, Aligned(exp, den, digit) < low) || RoundsUp(s, digit, rest))
    ensures digit + (if up then 1 else 0) <= 9
    ensures data + [ZERO + digit + if up then 1 else 0] == c.goal <==> !c.loses
  {
    DigitRange(s);
    if s.n == s.d && exp > den {
      NotAligned(s);
    } else {
      StopsWith(s, Aligned(exp, den, digit) < low, up);
    }
    if !c.passed {
      LostNow(s, s.n / s.d, exp, den, low);
      SameEnd(data, Generate(s), [ZERO + digit + if up then 1 else 0]);
    }
  }

  lemma SameEnd(data: Text, a: Text, b: Text)
    ensures data + a == data + b <==> a == b
  {
    assert (data + a)[|data|..] == a && (data + b)[|data|..] == b;
  }

  lemma DigitBelow(s: Scaled)
    requires Starts(s)
    ensures 0 <= s.n / s.d < 20 && s.n < 20 * s.d
  {
    if s.n / s.d >= 20 {
      MulMono(20, s.n / s.d, s.d);
    }
  }

  /** The body of the loop: a digit is written, and unless it is the last, all moves on to the next. */
  method WriteOne(numerator: Bigint, denominator: Bigint, lower: Bigint, upper: Bigint, even: bool, data: Text)
    returns (done: bool, more: Text, ghost digit: nat, ghost rest: nat)
    requires Stored(numerator, denominator, lower, upper) && numerator.Normal()
    requires Starts(Of(numerator, denominator, lower, upper, even))
    modifies numerator, lower`bigits, upper`bigits
    ensures var s := old(Of(numerator, denominator, lower, upper, even));
            && Found(s, old(numerator.exp), denominator.exp, digit, rest)
            && numerator.exp == Aligned(old(numerator.exp), denominator.exp, digit)
            && Writes(s, data, digit, rest, Aligned(old(numerator.exp), denominator.exp, digit) < lower.exp, done, more)
            && (!done ==>
                  && Stored(numerator, denominator, lower, upper) && numerator.Normal()
                  && Of(numerator, denominator, lower, upper, even) == Scaled(10 * rest, s.d, 10 * s.lower, 10 * s.upper, even))
  {
    DigitBelow(Of(numerator, denominator, lower, upper, even));
    var seen, low, high := Pass(numerator, denominator, lower, upper, even);
    digit, rest := seen, numerator.Value();
    done := low || high;
    if done {
      more := RoundLast(data, numerator, denominator, seen, low, high);
    } else {
      more := data + [ZERO + seen];
      MoveOn(numerator, denominator, lower, upper, even);
    }
  }

  /** The loop is done when the remainder is seen to be close enough, and then it rounds. */
  predicate Writes(s: Scaled, data: Text, digit: nat, rest: nat, hidden: bool, done: bool, more: Text) {
    && digit < 20 && done == (SeenLow(s, rest, hidden) || NearHigh(s, rest))
    && var up := done && (!SeenLow(s, rest, hidden) || RoundsUp(s, digit, rest));
       more == data + [ZERO + digit + if up then 1 else 0]
  }

  /** The body, along its course. */
  method WriteDigit(numerator: Bigint, denominator: Bigint, lower: Bigint, upper: Bigint, even: bool, data: Text,
                    ghost c: Course, ghost s: Scaled)
    returns (done: bool, more: Text, ghost c': Course)
    requires Stored(numerator, denominator, lower, upper) && numerator.Normal()
    requires s == Of(numerator, denominator, lower, upper, even) && Starts(s)
    requires Along(c, data, s, numerator.exp, denominator.exp, lower.exp)
    modifies numerator, lower`bigits, upper`bigits
    ensures c' == c.(passed := c'.passed)
    ensures done ==> Ended(c, more)
    ensures !done ==>
              && Stored(numerator, denominator, lower, upper) && numerator.Normal()
              && Of(numerator, denominator, lower, upper, even) == Next(s) && Ready(Next(s))
              && Along(c', more, Next(s), numerator.exp, denominator.exp, lower.exp)
  {
    ghost var exp := numerator.exp;
    ghost var digit, rest;
    done, more, digit, rest := WriteOne(numerator, denominator, lower, upper, even, data);
    c' := Written(c, data, s, exp, denominator.exp, lower.exp, digit, rest, done, more);
  }

  /** Under the start condition, the digits lie between the boundaries, and they are the ones generated from
      the exact numbers if and only if the shortest decimal is not a lower boundary that the exponents hide.
      In any case a text of digits lies between the boundaries. */
  method FallbackDigits(numerator: Bigint, denominator: Bigint, lower: Bigint, upper: Bigint, even: bool, exp10: int)
    returns (data: Text, exp: int)
    requires Stored(numerator, denominator, lower, upper) && numerator.Normal()
    requires Starts(Of(numerator, denominator, lower, upper, even))
    modifies numerator, lower`bigits, upper`bigits
    ensures data != [] && exp == exp10 - (|data| - 1)
    ensures var s := old(Of(numerator, denominator, lower, upper, even));
            && (AllDigits(data) ==> Lies(s, data))
            && (Ready(s) ==>
                  && AllDigits(data)
                  && (data == Generate(s) <==> !LosesBoundary(s, old(numerator.exp), denominator.exp, lower.exp)))
  {
    ghost var s := Of(numerator, denominator, lower, upper, even);
    ghost var c := SetOut(s, numerator.exp, denominator.exp, lower.exp);
    data := WriteAll(numerator, denominator, lower, upper, even, c);
    return data, exp10 - (|data| - 1);
  }

  lemma SetOut(s: Scaled, exp: nat, den: nat, low: nat) returns (c: Course)
    requires Starts(s)
    ensures Along(c, [], s, exp, den, low) && c.judge == Judge(s) && c.astray == !Ready(s)
    ensures Ready(s) ==> c.goal == Generate(s) && c.loses == LosesBoundary(s, exp, den, low)
  {
    if Ready(s) {
      c := Course(Judge(s), Generate(s), LosesBoundary(s, exp, den, low), false, false);
      assert [] + Generate(s) == Generate(s);
      CarriedStart(s);
    } else {
      c := Course(Judge(s), [], false, true, false);
    }
  }

  /** The loop itself. */
  method WriteAll(numerator: Bigint, denominator: Bigint, lower: Bigint, upper: Bigint, even: bool, ghost start: Course)
    returns (data: Text)
    requires Stored(numerator, denominator, lower, upper) && numerator.Normal()
    requires Starts(Of(numerator, denominator, lower, upper, even))
    requires Along(start, [], Of(numerator, denominator, lower, upper, even), numerator.exp, denominator.exp, lower.exp)
    modifies numerator, lower`bigits, upper`bigits
    ensures Ended(start, data)
  {
    ghost var s, c := Of(numerator, denominator, lower, upper, even), start;
    data := [];
    var done := false;
    while !done
      invariant c == start.(passed := c.passed)
      invariant done ==> Ended(start, data)
      invariant !done ==>
        && Stored(numerator, denominator, lower, upper) && numerator.Normal()
        && s == Of(numerator, denominator, lower, upper, even) && Starts(s)
        && Along(c, data, s, numerator.exp, denominator.exp, lower.exp)
      decreases !done, 10 * s.d - s.upper
    {
      done, data, c := WriteDigit(numerator, denominator, lower, upper, even, data, c, s);
      s := Next(s);
    }
  }

  // ---- A boundary that is lost ----

  /** What the set-up makes of the significand 8344650268554688 with binary exponent 40 and decimal
      exponent 27: the shortest decimal, 917504, is the lower boundary. */
  const EXAMPLE := Scaled(18350080000000001099511627776, 2_000_000_000_000_000_000_000_000_000, 1099511627776, 1099511627776, true)

  lemma GoOn(s: Scaled, digit: nat, rest: nat) returns (s': Scaled)
    requires Ready(s) && s.n == digit * s.d + rest && rest < s.d && !NearLow(s, rest) && !NearHigh(s, rest)
    ensures s' == Scaled(10 * rest, s.d, 10 * s.lower, 10 * s.upper, s.even) && Ready(s') && digit <= 9
    ensures Generate(s) == [ZERO + digit] + Generate(s')
    ensures OnLowerBoundary(s) <==> OnLowerBoundary(s')
  {
    s' := Next(s);
    Divides(s.n, s.d, digit, rest);
    DigitRange(s);
    BoundaryLater(s);
  }

  lemma StopAtBoundary(s: Scaled, digit: nat)
    requires Ready(s) && s.n == digit * s.d + s.lower && s.lower < s.d && s.even && !NearHigh(s, s.lower)
    ensures digit <= 9 && Generate(s) == [ZERO + digit] && OnLowerBoundary(s)
  {
    Divides(s.n, s.d, digit, s.lower);
    DigitRange(s);
    BoundaryNow(s);
  }

  lemma ExampleDigits()
    ensures Ready(EXAMPLE) && Generate(EXAMPLE) == [57, 49, 55, 53, 48, 52] && OnLowerBoundary(EXAMPLE)
  {
    var s1 := GoOn(EXAMPLE, 9, 350080000000001099511627776);
    var s2 := GoOn(s1, 1, 1500800000000010995116277760);
    var s3 := GoOn(s2, 7, 1008000000000109951162777600);
    var s4 := GoOn(s3, 5, 80000000001099511627776000);
    var s5 := GoOn(s4, 0, 800000000010995116277760000);
    StopAtBoundary(s5, 4);
  }

  lemma ExampleScale()
    ensures Pow(2, 40) == 1099511627776 && Pow(10, 27) == 1_000_000_000_000_000_000_000_000_000 && Pow(2, 1) == 2
  {
    Pow2Of32();
    PowAdd(2, 32, 8);
    assert Pow(2, 8) == 256;
    PowAdd(10, 20, 7);
    TenRows(20);
    TenRows(7);
  }

  /** The numbers as the set-up makes them. */
  method SetUpExample() returns (numerator: Bigint, denominator: Bigint, lower: Bigint)
    ensures fresh(numerator) && fresh(lower) && Stored(numerator, denominator, lower, lower) && numerator.Normal()
    ensures Of(numerator, denominator, lower, lower, true) == EXAMPLE
    ensures numerator.exp == lower.exp == 1 && denominator.exp == 0
  {
    ExampleScale();
    numerator := new Bigint(16689300537109376);
    numerator.ShiftLeft(40);
    lower := new Bigint(1);
    lower.ShiftLeft(40);
    denominator := new Bigint(1);
    denominator.AssignPow10(27);
    denominator.ShiftLeft(1);
  }

  /** The loop on them does not write the shortest decimal. */
  method LostBoundary() returns (data: Text)
    ensures Generate(EXAMPLE) == [57, 49, 55, 53, 48, 52] && data != Generate(EXAMPLE)
  {
    ExampleDigits();
    var numerator, denominator, lower := SetUpExample();
    var exp;
    data, exp := FallbackDigits(numerator, denominator, lower, lower, true, 27);
  }
}
