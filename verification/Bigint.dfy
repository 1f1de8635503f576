/** The arbitrary-precision integer of the float formatter: its loops over 32-bit digits, with every
    64-bit intermediate in range, proved against the numbers they compute. */
module Bigint {
  import opened Powers
  import opened Bigits
  import opened BigintMul
  import opened BigintSquare
  import opened BigintOrder

  class Bigint {
    var bigits: seq<bigit>
    var exp: nat

    ghost function Value(): nat
      reads this
    {
      P(exp) * Val(bigits)
    }

    /** At least one digit, the top one not zero. */
    predicate Normal()
      reads this
    {
      bigits != [] && bigits[|bigits| - 1] != 0
    }

    function NumBigits(): nat
      reads this
    {
      |bigits| + exp
    }

    constructor (n: uint64)
      ensures exp == 0 && Value() == n && (n != 0 ==> Normal())
      ensures bigits == if n < B then [n] else [n % B, n / B]
    {
      bigits, exp := [0], 0;
      new;
      Assign64(n);
    }

    method Assign64(n: uint64)
      modifies this
      ensures exp == 0 && Value() == n && Val(bigits) == n
      ensures bigits == if n < B then [n] else [n % B, n / B]
      ensures n != 0 ==> Normal()
    {
      var bs: seq<bigit> := [];
      var rest: int := n;
      while true
        invariant if bs == [] then rest == n else |bs| == 1 && n == bs[0] + rest * B && 0 < rest < B
        decreases rest
      {
        bs := bs + [rest % B];
        rest := rest / B;
        if rest == 0 {
          break;
        }
      }
      bigits, exp := bs, 0;
      if |bs| == 1 {
        ValOne(bs[0]);
        assert bs == [bs[0]];
      } else {
        ValTwo(bs[0], bs[1]);
        assert bs == [bs[0], bs[1]];
      }
      assert P(0) == 1;
    }

    method Assign(other: Bigint)
      modifies this
      ensures bigits == old(other.bigits) && exp == old(other.exp) && Value() == old(other.Value())
    {
      bigits, exp := other.bigits, other.exp;
    }

    method RemoveLeadingZeros()
      requires bigits != []
      modifies this`bigits
      ensures 1 <= |bigits| <= |old(bigits)| && bigits <= old(bigits)
      ensures |bigits| > 1 ==> Normal()
      ensures forall i :: |bigits| <= i < |old(bigits)| ==> old(bigits)[i] == 0
      ensures Val(bigits) == old(Val(bigits))
    {
      var n: int := |bigits| - 1;
      while n > 0 && bigits[n] == 0
        invariant 0 <= n < |bigits|
        invariant forall i :: n < i < |bigits| ==> bigits[i] == 0
      {
        n := n - 1;
      }
      DropZeros(bigits, n + 1);
      bigits := bigits[..n + 1];
    }

    /** `*= uint32_t`. */
    method Multiply32(value: nat)
      requires value < B
      modifies this`bigits
      ensures bigits == MulBy(old(bigits), value)
      ensures Val(bigits) == old(Val(bigits)) * value && |bigits| <= |old(bigits)| + 1
    {
      ghost var was := bigits;
      var carry, i := 0, 0;
      while i < |bigits|
        invariant i <= |bigits| == |was| && 0 <= carry < B
        invariant bigits == MulDigits(was[..i], value).0 + was[i..] && carry == MulDigits(was[..i], value).1
      {
        MulPass(was, value, bigits, i, carry);
        var low;
        low, carry := MulDigit32(bigits[i], value, carry);
        bigits := bigits[i := low];
        i := i + 1;
      }
      PassDone(was, value, bigits, carry);
      MulByValue(was, value);
      PushSmall(bigits, carry);
      if carry != 0 {
        bigits := bigits + [carry];
      }
    }

    /** The first loop of `*= uint64_t`: two 32-bit halves, every intermediate a 64-bit value. */
    method MultiplyPass64(value: uint64) returns (carry: uint64)
      modifies this`bigits
      ensures PushCarry(bigits, carry) == MulBy(old(bigits), value)
    {
      ghost var was := bigits;
      var lower: uint64, upper: uint64 := value % B, value / B;
      carry := 0;
      var i := 0;
      while i < |bigits|
        invariant i <= |bigits| == |was|
        invariant bigits == MulDigits(was[..i], value).0 + was[i..] && carry == MulDigits(was[..i], value).1
      {
        MulPass(was, value, bigits, i, carry);
        var low;
        low, carry := MulDigit64(bigits[i], lower, upper, carry, value);
        bigits := bigits[i := low];
        i := i + 1;
      }
      PassDone(was, value, bigits, carry);
    }

    /** `*= uint64_t`. */
    method Multiply64(value: uint64)
      modifies this`bigits
      ensures bigits == MulBy(old(bigits), value)
      ensures Val(bigits) == old(Val(bigits)) * value
    {
      MulByValue(bigits, value);
      var carry: uint64 := MultiplyPass64(value);
      while carry != 0
        invariant PushCarry(bigits, carry) == MulBy(old(bigits), value)
        decreases carry
      {
        bigits := bigits + [carry % B];
        carry := carry / B;
      }
    }

    /** The loop of `<<=` for a shift below a whole digit. */
    method ShiftPass(s: nat) returns (carry: nat)
      requires 0 < s < 32
      modifies this`bigits
      ensures carry < B && PushCarry(bigits, carry) == MulBy(old(bigits), Pow(2, s))
    {
      ghost var was, k := bigits, Pow(2, s);
      carry := 0;
      var i := 0;
      while i < |bigits|
        invariant i <= |bigits| == |was| && carry < B
        invariant bigits == MulDigits(was[..i], k).0 + was[i..] && carry == MulDigits(was[..i], k).1
      {
        CarryBound(was[..i], k);
        MulPass(was, k, bigits, i, carry);
        var low;
        low, carry := ShiftOne(bigits[i], s, carry);
        bigits := bigits[i := low];
        i := i + 1;
      }
      PassDone(was, k, bigits, carry);
    }

    /** `<<=`: whole digits go to the exponent, the rest through the digits. */
    method ShiftLeft(shift: nat)
      modifies this
      ensures bigits == MulBy(old(bigits), Pow(2, shift % 32)) && exp == old(exp) + shift / 32
      ensures Value() == old(Value()) * Pow(2, shift) && (old(Normal()) ==> Normal())
    {
      if Normal() {
        ShiftDivides(shift % 32);
        MulByTop(bigits, Pow(2, shift % 32));
      }
      MulByValue(bigits, Pow(2, shift % 32));
      ShiftedValue(Val(bigits), exp, shift);
      exp := exp + shift / 32;
      var s := shift % 32;
      if s == 0 {
        MulByOne(bigits);
        return;
      }
      var carry: nat := ShiftPass(s);
      PushSmall(bigits, carry);
      if carry != 0 {
        bigits := bigits + [carry];
      }
    }

    /** One column into its place, the carry kept in the accumulator. */
    method StoreColumn(sum: Accumulator, ghost n: seq<bigit>, k: nat, ghost carry: nat)
      requires 0 < |n| < 0x4000_0000 && k < |bigits| && carry <= |n| * B
      requires sum.Sum() == carry + Column(n, n, k)
      requires Val(bigits[..k]) + carry * P(k) == Columns(n, n, k)
      modifies this`bigits, sum
      ensures |bigits| == |old(bigits)| && sum.Sum() <= |n| * B
      ensures Val(bigits[..k + 1]) + sum.Sum() * P(k + 1) == Columns(n, n, k + 1)
    {
      ColumnDone(n, bigits, k, carry);
      bigits := bigits[k := sum.Digit()];
      sum.ShiftRight32();
    }

    /** The two column loops; `n` is the moved-out copy of the digits. */
    method SquareColumns(n: seq<bigit>)
      requires 0 < |n| < 0x4000_0000 && |bigits| == 2 * |n|
      modifies this`bigits
      ensures |bigits| == 2 * |n| && Val(bigits) == Val(n) * Val(n)
    {
      var num := |n|;
      var sum := new Accumulator();
      var k := 0;
      while k < num
        invariant k <= num && |bigits| == 2 * num && sum.Sum() <= num * B && fresh(sum)
        invariant Val(bigits[..k]) + sum.Sum() * P(k) == Columns(n, n, k)
      {
        ghost var carry := sum.Sum();
        AddLowColumn(sum, n, k);
        StoreColumn(sum, n, k, carry);
        k := k + 1;
      }
      while k < 2 * num
        invariant num <= k <= 2 * num && |bigits| == 2 * num && sum.Sum() <= num * B && fresh(sum)
        invariant Val(bigits[..k]) + sum.Sum() * P(k) == Columns(n, n, k)
      {
        ghost var carry := sum.Sum();
        AddHighColumn(sum, n, k);
        StoreColumn(sum, n, k, carry);
        k := k + 1;
      }
      assert bigits[..k] == bigits;
      AllColumnsDone(n, bigits, sum.Sum());
    }

    /** Squares in place. */
    method Square()
      requires 0 < |bigits| < 0x4000_0000
      modifies this
      ensures Val(bigits) == old(Val(bigits)) * old(Val(bigits)) && exp == 2 * old(exp)
      ensures Value() == old(Value()) * old(Value())
      ensures 1 <= |bigits| <= 2 * |old(bigits)| && (old(Normal()) ==> Normal())
    {
      var n := bigits;
      SquaredValue(Val(n), exp);
      bigits := Zeros(2 * |n|);
      SquareColumns(n);
      RemoveLeadingZeros();
      exp := exp * 2;
      if old(Normal()) {
        ValTop(n);
        SquarePositive(Val(n));
        NonZeroNormal(bigits);
      }
    }

    /** Assigns 10 to the power `power`: squaring and multiplying by 5 along the bits, then shifting. */
    method AssignPow10(power: nat)
      requires power < 0x4000_0000
      modifies this
      ensures Value() == Pow(10, power) && Normal() && exp == power / 32
    {
      if power == 0 {
        Assign64(1);
        return;
      }
      var bitmask: nat := TopBit(power);
      Assign64(5);
      ghost var step: nat := bitmask;
      assert Pow(5, 1) == 5 * Pow(5, 0);
      bitmask := bitmask / 2;
      while bitmask != 0
        invariant exp == 0 && Normal() && PowerOfTwo(step) && step <= power && bitmask == step / 2
        invariant Val(bigits) == Pow(5, power / step)
        decreases bitmask
      {
        NextBit(power, step, bitmask);
        step := bitmask;
        bitmask := bitmask / 2;
      }
      TimesPow2(power);
    }

    /** Five to a power times two to the same power. */
    method TimesPow2(power: nat)
      requires exp == 0 && Normal() && Val(bigits) == Pow(5, power)
      modifies this
      ensures Value() == Pow(10, power) && Normal() && exp == power / 32
    {
      ShiftDivides(power % 32);
      MulByTop(bigits, Pow(2, power % 32));
      assert P(0) == 1;
      ShiftLeft(power);
      PowProduct(5, 2, power);
    }

    /** Squares, and multiplies by 5 when the bit is set. */
    method NextBit(power: nat, ghost step: nat, bitmask: nat)
      requires exp == 0 && Normal() && power < 0x4000_0000 && PowerOfTwo(step) && 1 < step <= power && bitmask == step / 2
      requires Val(bigits) == Pow(5, power / step)
      modifies this
      ensures exp == 0 && Normal() && PowerOfTwo(bitmask) && Val(bigits) == Pow(5, power / bitmask)
    {
      ghost var e := power / step;
      NextStep(power, step, bitmask, e);
      FewDigits(bigits, e);
      NextPower(e, power / bitmask, Val(bigits));
      Square();
      // The bit test `exp & bitmask`.
      if power / bitmask % 2 != 0 {
        MulByTop(bigits, 5);
        Multiply32(5);
      }
    }

    /** All digits, the implicit low zeros included. */
    function Digits(): seq<bigit>
      reads this
    {
      Full(bigits, exp)
    }

    /** One digit of a subtraction, in wrapping 64-bit arithmetic. */
    method SubtractBigits(index: nat, other: bigit, borrow: nat) returns (next: nat)
      requires index < |bigits| && borrow <= 1
      modifies this`bigits
      ensures var d := old(bigits)[index] - other - borrow;
              bigits == old(bigits)[index := d % B] && next == if d < 0 then 1 else 0
    {
      var result: uint64 := (bigits[index] - other - borrow) % U64;
      WrappedDigit(bigits[index] - other - borrow);
      bigits := bigits[index := result % B];
      next := result / 0x8000_0000_0000_0000;
    }

    /** The loop over the digits of `other`, which starts at place `start` of this number. */
    method SubtractPass(other: Bigint, start: nat) returns (borrow: nat)
      requires this != other && start + |other.bigits| <= |bigits|
      modifies this`bigits
      ensures bigits == Passed(old(bigits), other.bigits, start) && borrow == BorrowOf(old(bigits), other.bigits, start)
    {
      ghost var was := bigits;
      var i: nat, j := start, 0;
      borrow := 0;
      while j != |other.bigits|
        invariant i == start + j && |bigits| == |was| && borrow <= 1
        invariant PartPassed(was, other.bigits, start, j, bigits, borrow)
        decreases |other.bigits| - j
      {
        SubPass(was, other.bigits, start, j, bigits, borrow);
        borrow := SubtractBigits(i, other.bigits[j], borrow);
        i, j := i + 1, j + 1;
      }
      SubDone(was, other.bigits, start, bigits, borrow);
    }

    /** The loop that pays the last borrow; it stays at place `i`. */
    method PayBorrow(i: nat, due: nat)
      requires due <= 1 && (due > 0 ==> i < |bigits|)
      modifies this`bigits
      ensures due == 0 ==> bigits == old(bigits)
      ensures due > 0 && old(bigits)[i] > 0 ==> bigits == old(bigits)[i := old(bigits)[i] - 1]
      ensures due > 0 && old(bigits)[i] == 0 ==> bigits == old(bigits)[i := B - 2]
    {
      var borrow := due;
      while borrow > 0
        invariant borrow <= 1 && |bigits| == |old(bigits)|
        invariant due == 0 ==> bigits == old(bigits) && borrow == 0
        invariant due > 0 && borrow > 0 ==>
          bigits == old(bigits) || (old(bigits)[i] == 0 && bigits == old(bigits)[i := B - 1])
        invariant due > 0 && borrow == 0 ==>
          bigits == old(bigits)[i := if old(bigits)[i] > 0 then old(bigits)[i] - 1 else B - 2]
        decreases borrow, if i < |bigits| && bigits[i] == 0 then 1 else 0
      {
        borrow := SubtractBigits(i, 0, borrow);
      }
    }

    /** The borrow out of the digits of `other` meets a zero digit, which the loop that pays it never
        moves past. */
    predicate Stalls(other: Bigint)
      reads this, other
    {
      other.exp >= exp &&
      var i := other.exp - exp;
      var j := i + |other.bigits|;
      j < |bigits| && bigits[j] == 0 && BorrowOf(bigits, other.bigits, i) > 0
    }

    /** The digits after both loops. */
    method SubtractLoops(other: Bigint, start: nat)
      requires this != other && start + |other.bigits| <= |bigits|
      requires BorrowOf(bigits, other.bigits, start) > 0 ==> start + |other.bigits| < |bigits|
      modifies this`bigits
      ensures AfterLoops(old(bigits), other.bigits, start, bigits)
    {
      var borrow := SubtractPass(other, start);
      PayBorrow(start + |other.bigits|, borrow);
    }

    /** Subtracts an aligned number that is not larger: right exactly when the borrow does not stall. */
    method SubtractAligned(other: Bigint)
      requires this != other && bigits != [] && other.Normal() && other.exp >= exp && Value() >= other.Value()
      modifies this`bigits
      ensures 1 <= |bigits| <= |old(bigits)| && (|bigits| > 1 ==> Normal())
      ensures Value() == old(Value()) - other.Value() <==> !old(Stalls(other))
    {
      var start := other.exp - exp;
      ghost var was := bigits;
      RoomToSubtract(bigits, exp, other.bigits, start, other.exp);
      SubtractLoops(other, start);
      AfterPaying(was, exp, other.bigits, start, bigits);
      RemoveLeadingZeros();
    }

    /** Moves the digits up by `shift` places, from the top. */
    method MoveUp(shift: nat)
      modifies this`bigits
      ensures |bigits| == |old(bigits)| + shift && bigits[shift..] == old(bigits)
    {
      ghost var was := bigits;
      var num := |bigits|;
      bigits := bigits + Zeros(shift);
      var i: int := num - 1;
      while i >= 0
        invariant -1 <= i < num && |bigits| == num + shift
        invariant forall m :: 0 <= m <= i ==> bigits[m] == was[m]
        invariant forall m {:trigger was[m]} :: i < m < num ==> bigits[m + shift] == was[m]
      {
        bigits := bigits[i + shift := bigits[i]];
        i := i - 1;
      }
    }

    /** Makes `shift` of the implicit low zeros explicit. */
    method Align(shift: nat)
      requires shift <= exp
      modifies this
      ensures bigits == Zeros(shift) + old(bigits) && exp == old(exp) - shift
    {
      ghost var was := bigits;
      MoveUp(shift);
      var k: nat := 0;
      while k < shift
        invariant k <= shift && |bigits| == |was| + shift && bigits[shift..] == was && exp == old(exp)
        invariant forall m :: 0 <= m < k ==> bigits[m] == 0
      {
        bigits := bigits[k := 0];
        k := k + 1;
      }
      exp := exp - shift;
    }

    /** One pass of the subtraction loop: whether another one follows. */
    method SubtractOnce(divisor: Bigint) returns (more: bool)
      requires this != divisor && Normal() && divisor.Normal()
      requires exp <= divisor.exp && divisor.Value() <= Value() < 0x8000_0000 * divisor.Value()
      modifies this`bigits
      ensures Value() == old(Value()) - divisor.Value() && more == (Value() >= divisor.Value())
      ensures bigits != [] && (|bigits| > 1 || Value() > 0 ==> Normal())
    {
      OneLonger(this, divisor);
      SubtractAligned(divisor);
      NormalWhenPositive(this);
      SmallAboveZero(this, divisor);
      var order := Compare(this, divisor);
      more := order >= 0;
    }

    /** The subtraction loop of DivmodAssign. */
    method Reduce(divisor: Bigint) returns (quotient: nat)
      requires this != divisor && Normal() && divisor.Normal()
      requires exp <= divisor.exp && divisor.Value() <= Value() < 0x8000_0000 * divisor.Value()
      modifies this`bigits
      ensures old(Value()) == quotient * divisor.Value() + Value() && Value() < divisor.Value()
      ensures bigits != [] && (|bigits| > 1 || Value() > 0 ==> Normal())
    {
      ghost var start, d := Value(), divisor.Value();
      quotient := 0;
      while true
        invariant Normal() && start == quotient * d + Value() && d <= Value() <= start
        decreases Value()
      {
        PositiveValue(divisor);
        var more := SubtractOnce(divisor);
        OneMoreTime(quotient, d);
        quotient := quotient + 1;
        if !more {
          break;
        }
      }
    }

    /** Quotient returned, remainder left in place: repeated subtraction of an aligned divisor. Only a
        divisor that equals this number and has the smaller exponent is taken to be the larger one. */
    method DivmodAssign(divisor: Bigint) returns (quotient: nat)
      requires this != divisor && Normal() && divisor.Normal()
      requires Value() < 0x8000_0000 * divisor.Value()
      modifies this
      ensures old(Value()) == quotient * divisor.Value() + Value()
      ensures Value() < divisor.Value() <==> !old(Value() == divisor.Value() && exp > divisor.exp)
      ensures Value() >= divisor.Value() ==> quotient == 0 && Value() == divisor.Value()
      ensures quotient < 0x8000_0000
      ensures exp == if quotient > 0 && old(exp) > divisor.exp then divisor.exp else old(exp)
      ensures bigits != [] && (|bigits| > 1 || Value() > 0 ==> Normal())
    {
      PositiveValue(divisor);
      var order := Compare(this, divisor);
      if order < 0 {
        return 0;
      }
      if exp > divisor.exp {
        AlignedValue(bigits, exp, exp - divisor.exp);
        Align(exp - divisor.exp);
      }
      quotient := Reduce(divisor);
      FewTimes(quotient, divisor.Value(), Value(), 0x8000_0000);
    }
  }

  // ---- Comparing ----

  /** One number stored in two ways: one keeps in its exponent what the other has as low zero digits. */
  ghost predicate TwoForms(lhs: Bigint, rhs: Bigint)
    reads lhs, rhs
  {
    lhs.Value() == rhs.Value() && lhs.exp != rhs.exp
  }

  /** For numbers with non-zero top digits, two forms differ only in low zero digits and exponent. */
  lemma TwoFormsIff(lhs: Bigint, rhs: Bigint)
    requires lhs.Normal() && rhs.Normal()
    ensures TwoForms(lhs, rhs) <==>
            HoldsZeros(lhs.bigits, lhs.exp, rhs.bigits, rhs.exp) || HoldsZeros(rhs.bigits, rhs.exp, lhs.bigits, lhs.exp)
  {
    if lhs.exp < rhs.exp {
      TwoFormsAre(lhs.bigits, lhs.exp, rhs.bigits, rhs.exp);
    } else if rhs.exp < lhs.exp {
      TwoFormsAre(rhs.bigits, rhs.exp, lhs.bigits, lhs.exp);
    }
  }

  /** With equal exponents, or when the one with the smaller exponent ends in a digit other than 0, a
      number has one form. */
  lemma OneForm(lhs: Bigint, rhs: Bigint)
    requires lhs.bigits != [] && rhs.bigits != []
    requires lhs.exp < rhs.exp ==> lhs.bigits[0] != 0
    requires rhs.exp < lhs.exp ==> rhs.bigits[0] != 0
    ensures !TwoForms(lhs, rhs)
  {
    if TwoForms(lhs, rhs) {
      if lhs.exp < rhs.exp {
        LowestZero(lhs.bigits, lhs.exp, rhs.bigits, rhs.exp);
      } else {
        LowestZero(rhs.bigits, rhs.exp, lhs.bigits, lhs.exp);
      }
    }
  }

  /** The sign of the difference, except for one number stored in two ways. */
  method Compare(lhs: Bigint, rhs: Bigint) returns (result: int)
    requires lhs.bigits != [] && rhs.bigits != []
    requires lhs.NumBigits() > rhs.NumBigits() ==> lhs.Normal()
    requires rhs.NumBigits() > lhs.NumBigits() ==> rhs.Normal()
    ensures result == Sign(lhs.Value() - rhs.Value()) <==> !TwoForms(lhs, rhs)
    ensures TwoForms(lhs, rhs) ==> result == Sign(rhs.exp - lhs.exp)
  {
    var numLhs, numRhs := lhs.NumBigits(), rhs.NumBigits();
    if numLhs != numRhs {
      if numLhs > numRhs {
        LongerFull(lhs.bigits, lhs.exp, rhs.bigits, rhs.exp);
        return 1;
      }
      LongerFull(rhs.bigits, rhs.exp, lhs.bigits, lhs.exp);
      return -1;
    }
    result := CompareDigits(lhs, rhs);
  }

  /** Compare for numbers that reach up to the same place. */
  method CompareDigits(lhs: Bigint, rhs: Bigint) returns (result: int)
    requires lhs.bigits != [] && rhs.bigits != [] && lhs.NumBigits() == rhs.NumBigits()
    ensures result == Sign(lhs.Value() - rhs.Value()) <==> !TwoForms(lhs, rhs)
    ensures TwoForms(lhs, rhs) ==> result == Sign(rhs.exp - lhs.exp)
  {
    var differ, i, j := FirstDifference(lhs, rhs);
    if differ {
      DecideFull(lhs.bigits, lhs.exp, rhs.bigits, rhs.exp, i, j);
      return if lhs.bigits[i] > rhs.bigits[j] then 1 else -1;
    }
    if i > j {
      CommonTop(lhs.bigits, lhs.exp, rhs.bigits, rhs.exp);
      return 1;
    }
    CommonTop(rhs.bigits, rhs.exp, lhs.bigits, lhs.exp);
    return if i != j then -1 else 0;
  }

  /** A number that compares as unequal to itself: 2^32 as digits, and in the exponent. */
  method ComparedUnequal() returns (lhs: Bigint, rhs: Bigint)
    ensures lhs.Value() == rhs.Value() == B && TwoForms(lhs, rhs)
  {
    lhs := new Bigint(B);
    rhs := new Bigint(1);
    Pow2Of32();
    rhs.ShiftLeft(32);
  }

  /** The loop of Compare: the topmost pair of digits that differ, if one does. */
  method FirstDifference(lhs: Bigint, rhs: Bigint) returns (differ: bool, i: int, j: int)
    requires lhs.bigits != [] && rhs.bigits != []
    ensures i - j == |lhs.bigits| - |rhs.bigits|
    ensures differ ==>
              && 0 <= i < |lhs.bigits| && 0 <= j < |rhs.bigits|
              && lhs.bigits[i] != rhs.bigits[j]
              && lhs.bigits[i + 1..] == rhs.bigits[j + 1..]
    ensures !differ ==> if i > j then lhs.bigits[i - j..] == rhs.bigits else rhs.bigits[j - i..] == lhs.bigits
  {
    i, j := |lhs.bigits| - 1, |rhs.bigits| - 1;
    var end := if i - j > 0 then i - j else 0;
    while i >= end
      invariant -1 <= i < |lhs.bigits| && -1 <= j < |rhs.bigits|
      invariant i - j == |lhs.bigits| - |rhs.bigits| && i >= end - 1
      invariant lhs.bigits[i + 1..] == rhs.bigits[j + 1..]
    {
      if lhs.bigits[i] != rhs.bigits[j] {
        return true, i, j;
      }
      i, j := i - 1, j - 1;
    }
    differ := false;
  }

  /** The digit at place `i`, zero outside the stored ones. */
  function DigitAt(n: Bigint, i: int): (d: bigit)
    requires i >= 0
    reads n
    ensures d == Dig(n.Digits(), i)
  {
    if n.exp <= i < n.NumBigits() then n.bigits[i - n.exp] else 0
  }

  /** The sign of `lhs1 + lhs2 - rhs`, decided from the top down. */
  method AddCompare(lhs1: Bigint, lhs2: Bigint, rhs: Bigint) returns (result: int)
    requires lhs1.bigits != [] && lhs2.bigits != [] && rhs.bigits != []
    requires lhs1.NumBigits() + 1 < rhs.NumBigits() && lhs2.NumBigits() + 1 < rhs.NumBigits() ==> rhs.Normal()
    requires lhs1.NumBigits() > rhs.NumBigits() ==> lhs1.Normal()
    requires lhs2.NumBigits() > rhs.NumBigits() ==> lhs2.Normal()
    ensures result == Sign(lhs1.Value() + lhs2.Value() - rhs.Value())
  {
    var maxLhs := if lhs1.NumBigits() > lhs2.NumBigits() then lhs1.NumBigits() else lhs2.NumBigits();
    var numRhs := rhs.NumBigits();
    ghost var a, b, c := lhs1.Digits(), lhs2.Digits(), rhs.Digits();
    FullValue(lhs1.bigits, lhs1.exp, a);
    FullValue(lhs2.bigits, lhs2.exp, b);
    FullValue(rhs.bigits, rhs.exp, c);
    if maxLhs + 1 < numRhs {
      TopShifted(rhs.exp, rhs.bigits);
      FarLonger(a, b, c);
      return -1;
    }
    if maxLhs > numRhs {
      TopShifted(lhs1.exp, lhs1.bigits);
      TopShifted(lhs2.exp, lhs2.bigits);
      LongerIsLarger(if lhs1.NumBigits() > numRhs then a else b, c);
      return 1;
    }
    result := AddCompareDigits(lhs1, lhs2, rhs);
  }

  /** What `lhs1 + lhs2` exceeds `rhs` by. */
  ghost function Excess(lhs1: Bigint, lhs2: Bigint, rhs: Bigint): int
    reads lhs1, lhs2, rhs
  {
    Val(lhs1.Digits()) + Val(lhs2.Digits()) - Val(rhs.Digits())
  }

  /** What the digits of `rhs` from place `i` up exceed those of the summands by. */
  ghost function OwedAt(lhs1: Bigint, lhs2: Bigint, rhs: Bigint, i: nat): int
    reads lhs1, lhs2, rhs
  {
    Gap(lhs1.Digits(), lhs2.Digits(), rhs.Digits(), i)
  }

  /** The loop of AddCompare: `borrow` is what the digits above still owe, at most one unit. */
  method AddCompareDigits(lhs1: Bigint, lhs2: Bigint, rhs: Bigint) returns (result: int)
    requires rhs.bigits != [] && lhs1.NumBigits() <= rhs.NumBigits() && lhs2.NumBigits() <= rhs.NumBigits()
    ensures result == Sign(Excess(lhs1, lhs2, rhs))
  {
    var borrow: uint64 := 0;
    var minExp := if lhs1.exp < lhs2.exp then lhs1.exp else lhs2.exp;
    minExp := if minExp < rhs.exp then minExp else rhs.exp;
    var i: int := rhs.NumBigits() - 1;
    while i >= minExp
      invariant minExp - 1 <= i
      invariant borrow == 0 || borrow == B
      invariant borrow == B * OwedAt(lhs1, lhs2, rhs, i + 1)
    {
      var sum: uint64 := DigitAt(lhs1, i) + DigitAt(lhs2, i);
      var rhsBigit := DigitAt(rhs, i);
      NextOwed(lhs1, lhs2, rhs, i, borrow, sum, rhsBigit);
      if sum > rhsBigit + borrow {
        return 1;
      }
      borrow := rhsBigit + borrow - sum;
      if borrow > 1 {
        return -1;
      }
      borrow := borrow * B;
      i := i - 1;
    }
    LowestGap(lhs1, lhs2, rhs, minExp, borrow);
    return if borrow != 0 then -1 else 0;
  }

  lemma NextOwed(lhs1: Bigint, lhs2: Bigint, rhs: Bigint, i: nat, borrow: nat, sum: nat, digit: nat)
    requires borrow == B * OwedAt(lhs1, lhs2, rhs, i + 1)
    requires sum == DigitAt(lhs1, i) + DigitAt(lhs2, i) && digit == DigitAt(rhs, i)
    ensures digit + borrow - sum == OwedAt(lhs1, lhs2, rhs, i)
    ensures sum > digit + borrow ==> Excess(lhs1, lhs2, rhs) > 0
    ensures digit + borrow - sum > 1 ==> Excess(lhs1, lhs2, rhs) < 0
  {
    GapStep(lhs1.Digits(), lhs2.Digits(), rhs.Digits(), i, borrow);
  }

  lemma LowestGap(lhs1: Bigint, lhs2: Bigint, rhs: Bigint, i: nat, borrow: nat)
    requires i <= lhs1.exp && i <= lhs2.exp && i <= rhs.exp
    requires borrow == B * OwedAt(lhs1, lhs2, rhs, i)
    ensures Sign(Excess(lhs1, lhs2, rhs)) == if borrow != 0 then -1 else 0
  {
    LowDigits(lhs1.bigits, lhs1.exp, i);
    LowDigits(lhs2.bigits, lhs2.exp, i);
    LowDigits(rhs.bigits, rhs.exp, i);
    WholeGap(lhs1.Digits(), lhs2.Digits(), rhs.Digits(), i);
  }

  lemma DecideDigits(l: seq<bigit>, e: nat, r: seq<bigit>, f: nat, i: nat, j: nat)
    requires i < |l| && j < |r| && e + |l| == f + |r| && i - j == |l| - |r|
    requires l[i + 1..] == r[j + 1..] && l[i] > r[j]
    ensures Val(Full(l, e)) > Val(Full(r, f))
  {
    var x, y := Full(l, e), Full(r, f);
    assert x[e + i + 1..] == l[i + 1..] && y[f + j + 1..] == r[j + 1..];
    DecideAt(x, y, e + i);
  }

  /** The topmost digit that differs decides. */
  lemma DecideFull(l: seq<bigit>, e: nat, r: seq<bigit>, f: nat, i: nat, j: nat)
    requires i < |l| && j < |r| && e + |l| == f + |r| && i - j == |l| - |r|
    requires l[i + 1..] == r[j + 1..] && l[i] != r[j]
    ensures if l[i] > r[j] then P(e) * Val(l) > P(f) * Val(r) else P(e) * Val(l) < P(f) * Val(r)
  {
    if l[i] > r[j] {
      DecideDigits(l, e, r, f, i, j);
      FullGreater(l, e, r, f);
    } else {
      DecideDigits(r, f, l, e, j, i);
      FullGreater(r, f, l, e);
    }
  }

  lemma CommonTop(l: seq<bigit>, e: nat, r: seq<bigit>, f: nat)
    requires |l| >= |r| && e + |l| == f + |r| && l[|l| - |r|..] == r
    ensures P(e) * Val(l) >= P(f) * Val(r)
    ensures P(e) * Val(l) == P(f) * Val(r) <==> AllZero(l[..|l| - |r|])
  {
    CommonTopParts(l[..|l| - |r|], r, e, f, l);
  }

  lemma CommonTopParts(low: seq<bigit>, r: seq<bigit>, e: nat, f: nat, l: seq<bigit>)
    requires f == e + |low| && l == low + r
    ensures P(e) * Val(l) >= P(f) * Val(r)
    ensures P(e) * Val(l) == P(f) * Val(r) <==> AllZero(low)
  {
    ExtraDigits(low, r, l, e, f);
    ZeroDigits(low);
    ScaledZero(P(e), Val(low));
  }

  // ---- Subtracting ----

  /** The two's complement of a negative digit: its low half, and its top bit as the borrow. */
  lemma WrappedDigit(d: int)
    requires -0x1_0000_0000 <= d < 0x1_0000_0000
    ensures d % U64 % B == d % B
    ensures d % U64 / 0x8000_0000_0000_0000 == if d < 0 then 1 else 0
  {
    if d < 0 {
      assert d % U64 == d + U64;
    }
  }

  lemma RoomFor(s: seq<bigit>, e: nat, t: seq<bigit>, f: nat)
    requires t != [] && t[|t| - 1] != 0 && f >= e && P(e) * Val(s) >= P(f) * Val(t)
    ensures f - e + |t| <= |s|
  {
    if e + |s| < f + |t| {
      LongerFull(t, f, s, e);
    }
  }

  /** There is a digit for each digit of the smaller number, and one more when a borrow is left. */
  lemma RoomToSubtract(s: seq<bigit>, e: nat, t: seq<bigit>, start: nat, f: nat)
    requires t != [] && t[|t| - 1] != 0 && f == e + start && P(e) * Val(s) >= P(f) * Val(t)
    ensures start + |t| <= |s|
    ensures BorrowOf(s, t, start) > 0 ==> start + |t| < |s|
  {
    RoomFor(s, e, t, f);
    RoomForBorrow(s, e, t, start);
  }

  lemma RoomForBorrow(s: seq<bigit>, e: nat, t: seq<bigit>, start: nat)
    requires start + |t| <= |s| && P(e) * Val(s) >= P(e + start) * Val(t)
    ensures BorrowOf(s, t, start) > 0 ==> start + |t| < |s|
  {
    Subtracted(s, e, t, start);
  }

  /** The first `j` digits of `t` have been subtracted. */
  predicate PartPassed(was: seq<bigit>, t: seq<bigit>, start: nat, j: nat, now: seq<bigit>, borrow: nat) {
    && j <= |t| && start + |t| <= |was|
    && borrow == SubDigits(was[start..start + j], t[..j]).1
    && now == was[..start] + SubDigits(was[start..start + j], t[..j]).0 + was[start + j..]
  }

  /** One digit further in the subtraction. */
  lemma SubPass(was: seq<bigit>, t: seq<bigit>, start: nat, j: nat, now: seq<bigit>, borrow: nat)
    requires j < |t| && PartPassed(was, t, start, j, now, borrow)
    ensures |now| == |was|
    ensures var d := now[start + j] - t[j] - borrow;
            PartPassed(was, t, start, j + 1, now[start + j := d % B], if d < 0 then 1 else 0)
  {
    var i := start + j;
    assert now[i] == was[i];
    assert was[start..i + 1][..j] == was[start..i] && t[..j + 1][..j] == t[..j];
  }

  lemma SubDone(was: seq<bigit>, t: seq<bigit>, start: nat, now: seq<bigit>, borrow: nat)
    requires PartPassed(was, t, start, |t|, now, borrow)
    ensures now == Passed(was, t, start) && borrow == BorrowOf(was, t, start)
  {
    assert t[..|t|] == t;
  }

  /** The borrow of 2^64 - 1 stalls once 2^64 is spelled out in digits. */
  method Stalling() returns (n: Bigint, other: Bigint)
    ensures n.Value() == U64 && other.Value() == 1 && n.Stalls(other)
  {
    n := SpelledOut();
    other := new Bigint(1);
    LoneOne(n.bigits);
  }

  method SpelledOut() returns (n: Bigint)
    ensures fresh(n) && n.bigits == Zeros(2) + [1] && n.exp == 0
  {
    n := new Bigint(1);
    MulByOne([1]);
    n.ShiftLeft(64);
    n.Align(2);
  }

  lemma LoneOne(s: seq<bigit>)
    requires s == Zeros(2) + [1]
    ensures Val(s) == U64 && BorrowOf(s, [1], 0) == 1 && |s| == 3 && s[1] == 0 && P(0) == 1
  {
    ValShifted(2, [1]);
    ValOne(1);
    assert P(2) == B * (B * P(0));
    assert s[0..1] == [0] && [0][..0] == [] && [1][..0] == [];
  }

  // ---- Dividing ----

  lemma AlignedValue(s: seq<bigit>, e: nat, shift: nat)
    requires shift <= e
    ensures P(e - shift) * Val(Zeros(shift) + s) == P(e) * Val(s)
  {
    ValShifted(shift, s);
    PAdd(e - shift, shift);
    Assoc(P(e - shift), P(shift), Val(s));
  }

  /** Below 2^31 times the divisor there is at most one digit above it, so no borrow stalls. */
  lemma OneLonger(n: Bigint, divisor: Bigint)
    requires n.Normal() && divisor.Normal() && n.exp <= divisor.exp
    requires n.Value() < 0x8000_0000 * divisor.Value()
    ensures !n.Stalls(divisor)
  {
    var j := divisor.exp - n.exp + |divisor.bigits|;
    if j < |n.bigits| - 1 {
      FarAbove(n.bigits, n.exp, divisor.bigits, divisor.exp);
      assert false;
    }
  }

  lemma FarAbove(s: seq<bigit>, e: nat, t: seq<bigit>, f: nat)
    requires s != [] && s[|s| - 1] != 0 && |s| + e > |t| + f + 1
    ensures P(e) * Val(s) >= 0x8000_0000 * (P(f) * Val(t))
  {
    var x, y := Full(s, e), Full(t, f);
    FullValue(s, e, x);
    FullValue(t, f, y);
    TopShifted(e, s);
    FarBelow(y, x);
  }

  lemma NormalWhenPositive(n: Bigint)
    requires n.bigits != [] && (|n.bigits| > 1 ==> n.Normal())
    ensures n.Value() > 0 ==> n.Normal()
  {
    if n.Value() > 0 {
      ScaledZero(P(n.exp), Val(n.bigits));
      NonZeroNormal(n.bigits);
    }
  }

  lemma PositiveValue(n: Bigint)
    requires n.Normal()
    ensures n.Value() > 0
  {
    ValTop(n.bigits);
    ScaledZero(P(n.exp), Val(n.bigits));
  }

  lemma SmallAboveZero(n: Bigint, divisor: Bigint)
    requires n.bigits != [] && (|n.bigits| > 1 ==> n.Normal()) && divisor.Normal() && n.exp <= divisor.exp
    ensures n.NumBigits() > divisor.NumBigits() ==> n.Normal()
  {
  }

  // ---- Powers of ten ----

  /** The highest power of two that does not exceed `power`. */
  method TopBit(power: nat) returns (bitmask: nat)
    requires power > 0
    ensures PowerOfTwo(bitmask) && power / bitmask == 1
  {
    bitmask := 1;
    while power >= bitmask
      invariant PowerOfTwo(bitmask) && (bitmask > 1 ==> power >= bitmask / 2)
      decreases 2 * power - bitmask
    {
      bitmask := bitmask * 2;
    }
    bitmask := bitmask / 2;
    DivIs(power, bitmask, 1, power - bitmask);
  }

  // ---- Squaring ----

  /** The inner loop of the low half: `i` runs up from 0 and `j` down to 0. */
  method AddLowColumn(sum: Accumulator, n: seq<bigit>, k: nat)
    requires k < |n| < 0x4000_0000 && sum.Sum() <= |n| * B
    modifies sum
    ensures sum.Sum() == old(sum.Sum()) + Column(n, n, k)
  {
    var i: int, j: int := 0, k;
    while j >= 0
      invariant 0 <= i <= k + 1 && i + j == k
      invariant sum.Sum() == old(sum.Sum()) + Column(n[..i], n, k)
      decreases j
    {
      AddTerm(sum, n, k, i, old(sum.Sum()));
      i, j := i + 1, j - 1;
    }
    ColumnTail(n, n, k, i);
  }

  /** The inner loop of the high half: `j` starts at the last digit and `i` runs up to it. */
  method AddHighColumn(sum: Accumulator, n: seq<bigit>, k: nat)
    requires 0 < |n| < 0x4000_0000 && |n| <= k < 2 * |n| && sum.Sum() <= |n| * B
    modifies sum
    ensures sum.Sum() == old(sum.Sum()) + Column(n, n, k)
  {
    var j: int := |n| - 1;
    var i: int := k - j;
    ColumnHead(n, n, k, i);
    while i < |n|
      invariant 0 <= i <= |n| && i + j == k && j < |n|
      invariant sum.Sum() == old(sum.Sum()) + Column(n[..i], n, k)
    {
      AddTerm(sum, n, k, i, old(sum.Sum()));
      i, j := i + 1, j - 1;
    }
    assert n[..i] == n;
  }

  /** `sum += n[i] * n[j]`: neither the product nor the 128-bit sum overflows. */
  method AddTerm(sum: Accumulator, n: seq<bigit>, k: nat, i: nat, ghost carry: nat)
    requires i < |n| < 0x4000_0000 && i <= k < i + |n| && carry <= |n| * B
    requires sum.Sum() == carry + Column(n[..i], n, k)
    modifies sum
    ensures sum.Sum() == carry + Column(n[..i + 1], n, k)
  {
    ColumnStep(n, n, k, i);
    ProductFits(n[i], n[k - i]);
    ColumnBound(n[..i + 1], n, k);
    MulMono(i + 1, |n|, (B - 1) * (B - 1));
    ghost var column := Column(n[..i + 1], n, k);
    CarryFits(|n|, column, carry);
    var term: uint64 := Times(n[i], n[k - i]);
    sum.Add(term);
    assert sum.Sum() == carry + column;
  }

  lemma ColumnDone(n: seq<bigit>, bits: seq<bigit>, k: nat, carry: nat)
    requires 0 < |n| < 0x4000_0000 && k < |bits| && carry <= |n| * B
    requires Val(bits[..k]) + carry * P(k) == Columns(n, n, k)
    ensures var t := carry + Column(n, n, k);
            && t / B <= |n| * B
            && Val(bits[k := t % B][..k + 1]) + t / B * P(k + 1) == Columns(n, n, k + 1)
  {
    var t := carry + Column(n, n, k);
    ColumnBound(n, n, k);
    CarryFits(|n|, Column(n, n, k), carry);
    var next := bits[k := t % B];
    assert next[..k] == bits[..k];
    ValTake(next, k);
    WriteColumn(Val(bits[..k]), carry, Column(n, n, k), P(k), Columns(n, n, k));
  }

  /** After the last column the carry is zero: the square fits twice the digits. */
  lemma AllColumnsDone(n: seq<bigit>, bits: seq<bigit>, carry: nat)
    requires |bits| == 2 * |n| && Val(bits) + carry * P(2 * |n|) == Columns(n, n, 2 * |n|)
    ensures carry == 0 && Val(bits) == Val(n) * Val(n)
  {
    ColumnsValue(n, n, 2 * |n|);
    ValBound(n);
    PAdd(|n|, |n|);
    LessSquare(Val(n), P(|n|));
    if carry > 0 {
      MulMono(1, carry, P(2 * |n|));
    }
  }

  lemma LessSquare(v: nat, p: nat)
    requires v < p
    ensures v * v < p * p
  {
    MulMono(v, p - 1, v);
    MulMono(v, p, p);
    assert v * v <= v * p;
    assert v * p < p * p;
  }

  lemma SquaredValue(v: nat, e: nat)
    ensures P(2 * e) * (v * v) == (P(e) * v) * (P(e) * v)
  {
    PAdd(e, e);
    Regroup(P(e), P(e), v, v);
  }

  lemma SquarePositive(v: nat)
    requires v > 0
    ensures v * v > 0
  {
  }

  lemma NonZeroNormal(s: seq<bigit>)
    requires s != [] && Val(s) > 0 && (|s| > 1 ==> s[|s| - 1] != 0)
    ensures s[|s| - 1] != 0
  {
    if |s| == 1 {
      ValOne(s[0]);
      assert s == [s[0]];
    }
  }

  predicate PowerOfTwo(n: nat)
    decreases n
  {
    n == 1 || (n > 1 && n % 2 == 0 && PowerOfTwo(n / 2))
  }

  lemma Divided(x: nat, m: nat) returns (q: nat, r: nat)
    requires m > 0
    ensures q == x / m && x == q * m + r && r < m
  {
    q, r := x / m, x % m;
  }

  lemma NextPower(e: nat, q: nat, v: nat)
    requires v == Pow(5, e) && (q == e * 2 || q == e * 2 + 1)
    ensures Pow(5, q) == if q % 2 != 0 then v * v * 5 else v * v
  {
    PowAdd(5, e, e);
    assert Pow(5, e + e + 1) == 5 * Pow(5, e + e);
  }

  lemma NextStep(power: nat, step: nat, h: nat, e: nat)
    requires h > 0 && step == 2 * h && e == power / step
    ensures power / h == e * 2 || power / h == e * 2 + 1
  {
    var q, r := Divided(power, step);
    HalfStep(power, step, h, q, r);
  }

  /** Halving the step doubles the exponent reached and may add one. */
  lemma HalfStep(power: nat, step: nat, h: nat, q: nat, r: nat)
    requires h > 0 && step == 2 * h && power == q * step + r && r < step
    ensures power / h == q * 2 + (if r < h then 0 else 1)
  {
    Assoc(q, 2, h);
    Spread(q * 2, 1, h);
    DivIs(power, h, q * 2 + (if r < h then 0 else 1), if r < h then r else r - h);
  }

  lemma DivIs(x: nat, m: nat, q: nat, r: nat)
    requires m > 0 && x == q * m + r && r < m
    ensures x / m == q
  {
    var d := x / m;
    assert x == d * m + x % m;
    if d < q {
      MulMono(d + 1, q, m);
    } else if q < d {
      MulMono(q + 1, d, m);
    }
  }

  /** A power of five has no more digits than its exponent, and one. */
  lemma FewDigits(s: seq<bigit>, e: nat)
    requires s != [] && s[|s| - 1] != 0 && Val(s) == Pow(5, e)
    ensures |s| <= e + 1
  {
    ValTop(s);
    if |s| > e + 1 {
      PMono(e + 1, |s| - 1);
      PowBelow(e);
    }
  }

  lemma {:induction false} PowBelow(e: nat)
    ensures Pow(5, e) < P(e + 1)
  {
    if e > 0 {
      PowBelow(e - 1);
    } else {
      assert P(1) == B * P(0);
    }
  }

  // ---- The bodies of the three digit loops ----

  method MulDigit32(d: bigit, value: nat, carry: nat) returns (low: bigit, next: nat)
    requires value < B && carry < B
    ensures low == Low(d, value, carry) && next == High(d, value, carry) && next < B
  {
    ProductFits(d, value);
    var result: uint64 := d * value + carry;
    low, next := result % B, result / B;
  }

  method MulDigit64(d: bigit, lower: uint64, upper: uint64, carry: uint64, ghost value: uint64)
    returns (low: bigit, next: uint64)
    requires lower == value % B && upper == value / B
    ensures low == Low(d, value, carry) && next == High(d, value, carry)
  {
    TwoHalves(d, value, carry);
    var result: uint64 := d * lower + carry % B;
    next := d * upper + result / B + carry / B;
    low := result % B;
  }

  method ShiftOne(d: bigit, s: nat, carry: nat) returns (low: bigit, next: nat)
    requires 0 < s < 32 && (carry < Pow(2, s) || carry == 0)
    ensures low == Low(d, Pow(2, s), carry) && next == High(d, Pow(2, s), carry) && next < B
  {
    ShiftDigit(d, s, carry);
    next := d / Pow(2, 32 - s);
    low := d * Pow(2, s) % B + carry;
  }

  /** One digit further in a pass that multiplies by `k`. */
  lemma MulPass(was: seq<bigit>, k: nat, now: seq<bigit>, i: nat, carry: nat)
    requires i < |was| && now == MulDigits(was[..i], k).0 + was[i..] && carry == MulDigits(was[..i], k).1
    ensures now[i] == was[i]
    ensures now[i := Low(now[i], k, carry)] == MulDigits(was[..i + 1], k).0 + was[i + 1..]
    ensures High(now[i], k, carry) == MulDigits(was[..i + 1], k).1
  {
    assert was[..i + 1][..i] == was[..i];
  }

  lemma PassDone(was: seq<bigit>, k: nat, now: seq<bigit>, carry: nat)
    requires now == MulDigits(was[..|was|], k).0 + was[|was|..] && carry == MulDigits(was[..|was|], k).1
    ensures PushCarry(now, carry) == MulBy(was, k)
    ensures |now| == |was|
  {
    assert was[..|was|] == was && now == MulDigits(was, k).0;
  }

  lemma {:induction false} MulByOne(s: seq<bigit>)
    ensures MulDigits(s, 1) == (s, 0) && MulBy(s, 1) == s
  {
    if s != [] {
      MulByOne(s[..|s| - 1]);
      assert s == s[..|s| - 1] + [s[|s| - 1]];
    }
  }

  lemma DropZeros(s: seq<bigit>, n: nat)
    requires n <= |s| && forall i :: n <= i < |s| ==> s[i] == 0
    ensures Val(s[..n]) == Val(s)
  {
    ValSplit(s, n);
    ValZeros(s[n..]);
  }
}
