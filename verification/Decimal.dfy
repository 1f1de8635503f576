/** Decimal text of unsigned integers: counting digits, printing, padding with zeros and parsing. */
module Decimal {
  import opened Bytes
  import opened Powers

  const ZERO: byte := 48

  predicate IsDigit(c: byte) {
    ZERO <= c <= ZERO + 9
  }

  predicate AllDigits(s: seq<byte>) {
    forall i :: 0 <= i < |s| ==> IsDigit(s[i])
  }

  /** The shortest decimal text of a number. */
  function Digits(n: nat): (s: seq<byte>)
    ensures |s| > 0
  {
    if n < 10 then [ZERO + n] else Digits(n / 10) + [ZERO + n % 10]
  }

  /** The number a digit string denotes, leading zeros allowed. */
  function ValueOf(s: seq<byte>): nat
    requires AllDigits(s)
  {
    if s == [] then 0 else ValueOf(s[..|s| - 1]) * 10 + (s[|s| - 1] - ZERO)
  }

  function ZeroText(n: nat): (s: seq<byte>)
    ensures |s| == n
  {
    if n == 0 then [] else ZeroText(n - 1) + [ZERO]
  }

  /** `{:0w}`: at least `width` digits. */
  function ZeroPadded(n: nat, width: nat): seq<byte> {
    ZeroText(if width > |Digits(n)| then width - |Digits(n)| else 0) + Digits(n)
  }

  lemma {:induction false} DigitsValue(n: nat)
    ensures AllDigits(Digits(n)) && ValueOf(Digits(n)) == n
  {
    if n >= 10 {
      DigitsValue(n / 10);
      assert Digits(n)[..|Digits(n)| - 1] == Digits(n / 10);
    } else {
      assert Digits(n)[..0] == [];
    }
  }

  lemma {:induction false} DigitsSize(n: nat)
    ensures n < Pow(10, |Digits(n)|)
    ensures n >= 10 ==> n >= Pow(10, |Digits(n)| - 1)
    ensures n < 10 ==> |Digits(n)| == 1
  {
    if n >= 10 {
      DigitsSize(n / 10);
      assert Pow(10, 0) == 1 && Pow(10, 1) == 10;
    } else {
      assert Pow(10, 1) == 10 * Pow(10, 0);
    }
  }

  lemma {:induction false} Pow10Mono(a: nat, b: nat)
    requires a <= b
    ensures Pow(10, a) <= Pow(10, b)
    decreases b - a
  {
    if a < b {
      Pow10Mono(a + 1, b);
    }
  }

  /** The number of digits is pinned by the enclosing powers of ten. */
  lemma DigitsCount(n: nat, k: nat)
    requires k >= 1 && n < Pow(10, k) && (k == 1 || n >= Pow(10, k - 1))
    ensures |Digits(n)| == k
  {
    var d := |Digits(n)|;
    DigitsSize(n);
    assert Pow(10, 1) == 10 * Pow(10, 0);
    if d < k {
      Pow10Mono(d, k - 1);
    } else if k < d {
      Pow10Mono(k, d - 1);
    }
  }

  lemma {:induction false} PaddedValue(zeros: nat, s: seq<byte>)
    requires AllDigits(s)
    ensures AllDigits(ZeroText(zeros) + s) && ValueOf(ZeroText(zeros) + s) == ValueOf(s)
    decreases zeros, |s|
  {
    var whole := ZeroText(zeros) + s;
    if s != [] {
      PaddedValue(zeros, s[..|s| - 1]);
      assert whole[..|whole| - 1] == ZeroText(zeros) + s[..|s| - 1];
    } else if zeros > 0 {
      PaddedValue(zeros - 1, []);
      assert whole[..|whole| - 1] == ZeroText(zeros - 1) + [];
    }
  }

  lemma ZeroPaddedValue(n: nat, width: nat)
    ensures AllDigits(ZeroPadded(n, width)) && ValueOf(ZeroPadded(n, width)) == n
    ensures |ZeroPadded(n, width)| == if width > |Digits(n)| then width else |Digits(n)|
  {
    DigitsValue(n);
    PaddedValue(if width > |Digits(n)| then width - |Digits(n)| else 0, Digits(n));
  }

  // ---- Counting digits ----

  /** The dividing form, four digits at a time. */
  method CountDigits(value: nat) returns (count: nat)
    ensures count == |Digits(value)|
  {
    var n := value;
    count := 1;
    while true
      invariant count >= 1 && count - 1 + |Digits(n)| == |Digits(value)|
      decreases n
    {
      DigitsBelow10000(n);
      if n < 10 {
        return count;
      }
      if n < 100 {
        return count + 1;
      }
      if n < 1000 {
        return count + 2;
      }
      if n < 10000 {
        return count + 3;
      }
      n := n / 10000;
      count := count + 4;
    }
  }

  lemma DigitsBelow10000(n: nat)
    ensures n < 10 ==> |Digits(n)| == 1
    ensures 10 <= n < 100 ==> |Digits(n)| == 2
    ensures 100 <= n < 1000 ==> |Digits(n)| == 3
    ensures 1000 <= n < 10000 ==> |Digits(n)| == 4
    ensures n >= 10000 ==> |Digits(n)| == 4 + |Digits(n / 10000)|
  {
    var a, b, c := n / 10, n / 100, n / 1000;
    assert a / 10 == b && b / 10 == c && c / 10 == n / 10000;
    assert n >= 10 ==> |Digits(n)| == |Digits(a)| + 1;
    assert a >= 10 ==> |Digits(a)| == |Digits(b)| + 1;
    assert b >= 10 ==> |Digits(b)| == |Digits(c)| + 1;
    assert c >= 10 ==> |Digits(c)| == |Digits(n / 10000)| + 1;
  }

  function BitLength(n: nat): nat {
    if n == 0 then 0 else 1 + BitLength(n / 2)
  }

  /** `zero_or_powers_of_10`: entry 0 is zero. */
  function PowerTable(t: nat): nat {
    if t == 0 then 0 else Pow(10, t)
  }

  /** The bit-length form of `count_digits`: 1233 / 4096 stands in for log10 of two. */
  function FastCount(n: nat): int {
    var t := BitLength(if n % 2 == 1 then n else n + 1) * 1233 / 4096;
    t - (if n < PowerTable(t) then 1 else 0) + 1
  }

  lemma {:induction false} BitLengthBounds(n: nat)
    requires n > 0
    ensures BitLength(n) >= 1 && Pow(2, BitLength(n) - 1) <= n < Pow(2, BitLength(n))
  {
    if n > 1 {
      BitLengthBounds(n / 2);
    } else {
      assert Pow(2, 0) == 1 && Pow(2, 1) == 2 && BitLength(1) == 1 + BitLength(0);
    }
  }

  lemma {:induction false} BitLengthAtMost(n: nat, bits: nat)
    requires n < Pow(2, bits)
    ensures BitLength(n) <= bits
  {
    if n > 0 {
      BitLengthAtMost(n / 2, bits - 1);
    }
  }

  /** The largest bit length whose approximation stays below `k`. */
  function LastLength(k: nat): int {
    (4096 * k + 1232) / 1233 - 1
  }

  lemma Step3(n: nat)
    ensures Pow(2, n + 3) == 8 * Pow(2, n)
  {
    assert Pow(2, n + 2) == 2 * Pow(2, n + 1);
  }

  lemma Step4(n: nat)
    ensures Pow(2, n + 4) == 16 * Pow(2, n)
  {
    Step3(n);
  }

  lemma Steps(before: nat, e: nat, x: nat, y: nat)
    requires Pow(2, before) == x
    requires (e == before + 3 && y == 8 * x) || (e == before + 4 && y == 16 * x)
    ensures Pow(2, e) == y
  {
    Step3(before);
    Step4(before);
  }

  /** The powers of two at those lengths, and the powers of ten. */
  function TwoRow(k: nat): nat {
    if k == 0 then 1 else if k == 1 then 8 else if k == 2 then 64 else
    if k == 3 then 512 else if k == 4 then 8192 else if k == 5 then 65536 else
    if k == 6 then 524288 else if k == 7 then 8388608 else if k == 8 then 67108864 else
    if k == 9 then 536870912 else if k == 10 then 8589934592 else if k == 11 then 68719476736 else
    if k == 12 then 549755813888 else if k == 13 then 8796093022208 else if k == 14 then 70368744177664 else
    if k == 15 then 562949953421312 else if k == 16 then 9007199254740992 else if k == 17 then 72057594037927936 else
    if k == 18 then 576460752303423488 else if k == 19 then 9223372036854775808 else if k == 20 then 73786976294838206464 else
    0
  }

  function TenRow(k: nat): nat {
    if k == 0 then 1 else if k == 1 then 10 else if k == 2 then 100 else
    if k == 3 then 1000 else if k == 4 then 10000 else if k == 5 then 100000 else
    if k == 6 then 1000000 else if k == 7 then 10000000 else if k == 8 then 100000000 else
    if k == 9 then 1000000000 else if k == 10 then 10000000000 else if k == 11 then 100000000000 else
    if k == 12 then 1000000000000 else if k == 13 then 10000000000000 else if k == 14 then 100000000000000 else
    if k == 15 then 1000000000000000 else if k == 16 then 10000000000000000 else if k == 17 then 100000000000000000 else
    if k == 18 then 1000000000000000000 else if k == 19 then 10000000000000000000 else if k == 20 then 100000000000000000000 else
    0
  }

  lemma RowStep(k: nat)
    requires 1 <= k <= 19
    ensures LastLength(k) >= 3 && TenRow(k + 1) == 10 * TenRow(k)
    ensures || (LastLength(k + 1) == LastLength(k) + 3 && TwoRow(k + 1) == 8 * TwoRow(k))
            || (LastLength(k + 1) == LastLength(k) + 4 && TwoRow(k + 1) == 16 * TwoRow(k))
  {
  }

  lemma {:induction false} TwoRows(k: nat, e: nat)
    requires 1 <= k <= 20 && e == LastLength(k)
    ensures Pow(2, e) == TwoRow(k)
  {
    if k == 1 {
      Step3(0);
    } else {
      var before := LastLength(k - 1);
      RowStep(k - 1);
      TwoRows(k - 1, before);
      Steps(before, e, TwoRow(k - 1), TwoRow(k));
    }
  }

  lemma {:induction false} TenRows(k: nat)
    requires k <= 20
    ensures Pow(10, k) == TenRow(k)
  {
    if k > 0 {
      TenRowStep(k);
      TenRows(k - 1);
    }
  }

  lemma TenRowStep(k: nat)
    requires 1 <= k <= 20
    ensures TenRow(k) == 10 * TenRow(k - 1)
  {
  }

  lemma RowBounds(k: nat)
    requires 1 <= k <= 20
    ensures LastLength(k) >= 3 && TenRow(k - 1) <= TwoRow(k) <= TenRow(k)
  {
  }

  lemma LastLengthFits(k: nat)
    requires 1 <= k <= 20
    ensures LastLength(k) >= 3 && Pow(10, k - 1) <= Pow(2, LastLength(k)) <= Pow(10, k)
  {
    RowBounds(k);
    TwoRows(k, LastLength(k));
    TenRows(k - 1);
    TenRows(k);
  }

  lemma BitLength64(m: nat)
    requires m < 0x1_0000_0000_0000_0000
    ensures BitLength(m) <= 64
  {
    var e := LastLength(19);
    TwoRows(19, e);
    var bits := e + 1;
    assert Pow(2, bits) == 2 * Pow(2, e);
    BitLengthAtMost(m, bits);
  }

  lemma {:induction false} Pow2Mono(a: nat, b: nat)
    requires a <= b
    ensures Pow(2, a) <= Pow(2, b)
    decreases b - a
  {
    if a < b {
      Pow2Mono(a + 1, b);
    }
  }

  /** The approximation is right or one too large at every bit length up to 64. */
  lemma LengthFits(len: nat, t: nat)
    requires 1 <= len <= 64 && t == len * 1233 / 4096
    ensures Pow(2, len) <= Pow(10, t + 1)
    ensures t > 0 ==> Pow(10, t - 1) <= Pow(2, len - 1)
  {
    LastLengthFits(t + 1);
    Pow2Mono(len, LastLength(t + 1));
    if t > 0 {
      LastLengthFits(t);
      Pow2Mono(LastLength(t), len - 1);
    }
  }

  /** For every 64-bit value (so for every 32-bit one) the fast form counts the digits. */
  lemma FastCountIsCount(n: nat)
    requires n < 0x1_0000_0000_0000_0000
    ensures FastCount(n) == |Digits(n)|
  {
    var m := if n % 2 == 1 then n else n + 1;
    var len := BitLength(m);
    var t := len * 1233 / 4096;
    BitLengthBounds(m);
    BitLength64(m);
    LengthFits(len, t);
    if t > 0 && n % 2 == 0 {
      EvenPower(t - 1, n);
    }
    Estimated(n, t);
  }

  /** The estimate is one too large exactly when the number is below that power of ten. */
  lemma Estimated(n: nat, t: nat)
    requires n < Pow(10, t + 1) && (t <= 1 || n >= Pow(10, t - 1))
    ensures |Digits(n)| == t - (if n < PowerTable(t) then 1 else 0) + 1
  {
    if t == 0 {
      assert Pow(10, 1) == 10 * Pow(10, 0);
      DigitsCount(n, 1);
    } else {
      DigitsCount(n, if n < Pow(10, t) then t else t + 1);
    }
  }

  /** Setting the lowest bit does not step over a power of ten. */
  lemma EvenPower(k: nat, n: nat)
    requires n + 1 >= Pow(10, k) && n % 2 == 0
    ensures k > 0 ==> n >= Pow(10, k)
  {
  }

  // ---- Printing ----

  /** Character `i` of the table "000102...99". */
  function TableDigit(i: nat): byte
    requires i < 200
  {
    if i % 2 == 0 then ZERO + i / 2 / 10 else ZERO + i / 2 % 10
  }

  /** Fills the cells `at .. at + numDigits` from the back, two digits at a time. */
  method FormatDecimal(buffer: array<byte>, at: nat, value: nat, numDigits: nat) returns (end: nat)
    requires numDigits == |Digits(value)| && at + numDigits <= buffer.Length
    modifies buffer
    ensures end == at + numDigits
    ensures buffer[at..end] == Digits(value)
    ensures buffer[..at] == old(buffer[..at]) && buffer[end..] == old(buffer[end..])
  {
    end := at + numDigits;
    var p, n := end, value;
    while n >= 100
      invariant at < p <= end && p - at == |Digits(n)|
      invariant Digits(n) + buffer[p..end] == Digits(value)
      invariant buffer[..at] == old(buffer[..at]) && buffer[end..] == old(buffer[end..])
      decreases n
    {
      TwoDigitsOff(n);
      p := PutTwo(buffer, p, end, n % 100);
      n := n / 100;
    }
    if n < 10 {
      PutOne(buffer, p - 1, end, n);
      return;
    }
    TwoDigits(n);
    p := PutTwo(buffer, p, end, n);
  }

  method PutOne(buffer: array<byte>, p: nat, ghost end: nat, digit: nat)
    requires p < end <= buffer.Length && digit < 10
    modifies buffer
    ensures buffer[p..end] == [ZERO + digit] + old(buffer[p + 1..end])
    ensures buffer[..p] == old(buffer[..p]) && buffer[end..] == old(buffer[end..])
  {
    buffer[p] := ZERO + digit;
  }

  /** Two digits from the table, the second one first. */
  method PutTwo(buffer: array<byte>, p: nat, ghost end: nat, two: nat) returns (q: nat)
    requires 2 <= p <= end <= buffer.Length && two < 100
    modifies buffer
    ensures q == p - 2
    ensures buffer[q..end] == [TableDigit(two * 2), TableDigit(two * 2 + 1)] + old(buffer[p..end])
    ensures buffer[..q] == old(buffer[..q]) && buffer[end..] == old(buffer[end..])
  {
    var index := two * 2;
    q := p - 1;
    buffer[q] := TableDigit(index + 1);
    q := q - 1;
    buffer[q] := TableDigit(index);
  }

  lemma TwoDigits(n: nat)
    requires 10 <= n < 100
    ensures Digits(n) == [TableDigit(n * 2), TableDigit(n * 2 + 1)]
  {
  }

  lemma TwoDigitsOff(n: nat)
    requires n >= 100
    ensures Digits(n) == Digits(n / 100) + [TableDigit(n % 100 * 2), TableDigit(n % 100 * 2 + 1)]
  {
    var a := n / 10;
    assert a / 10 == n / 100 && a % 10 == n % 100 / 10 && n % 10 == n % 100 % 10;
    assert Digits(a) == Digits(a / 10) + [ZERO + a % 10];
  }

  /** `write_int` with numeric alignment, fill '0', no prefix and the given width. */
  method WritePadded(value: nat, width: nat) returns (text: seq<byte>)
    requires value < 0x1_0000_0000
    ensures text == ZeroPadded(value, width)
  {
    FastCountIsCount(value);
    var numDigits := FastCount(value);
    var size, padding := numDigits, 0;
    if width > size {
      padding := width - size;
      size := width;
    }
    var buffer := new byte[size];
    var i := 0;
    while i < padding
      invariant i <= padding && buffer[..i] == ZeroText(i)
    {
      buffer[i] := ZERO;
      i := i + 1;
    }
    var end := FormatDecimal(buffer, padding, value, numDigits);
    text := buffer[..];
    assert text == buffer[..padding] + buffer[padding..end];
  }

  // ---- Parsing ----

  const MAX_INT: nat := 0x7FFF_FFFF

  datatype Parsed = Parsed(value: nat, next: nat) | TooBig

  /** The end of the run of digits that starts at `i`. */
  function RunEnd(s: seq<byte>, i: nat): (e: nat)
    requires i <= |s|
    ensures i <= e <= |s|
    ensures AllDigits(s[i..e])
    ensures e == |s| || !IsDigit(s[e])
    decreases |s| - i
  {
    if i < |s| && IsDigit(s[i]) then
      var e := RunEnd(s, i + 1);
      assert s[i..e] == [s[i]] + s[i + 1..e];
      e
    else i
  }

  lemma RunPrefix(s: seq<byte>, begin: nat, i: nat)
    requires begin <= |s| && begin <= i <= RunEnd(s, begin)
    ensures AllDigits(s[begin..i])
  {
    var run := s[begin..RunEnd(s, begin)];
    assert forall k :: 0 <= k < i - begin ==> s[begin..i][k] == run[k];
  }

  lemma {:induction false} ValueGrows(s: seq<byte>, t: seq<byte>)
    requires AllDigits(s + t)
    ensures AllDigits(s) && ValueOf(s) <= ValueOf(s + t)
    decreases |t|
  {
    assert forall c :: c in s ==> c in s + t;
    if t == [] {
      assert s + t == s;
    } else {
      assert (s + t)[..|s + t| - 1] == s + t[..|t| - 1];
      ValueGrows(s, t[..|t| - 1]);
    }
  }

  /** One more digit of the run: the value so far, and the value the run will have at least. */
  lemma RunStep(s: seq<byte>, begin: nat, i: nat)
    requires begin <= i < |s| && i < RunEnd(s, begin) && RunEnd(s, i) == RunEnd(s, begin)
    ensures IsDigit(s[i]) && RunEnd(s, i) == RunEnd(s, i + 1)
    ensures AllDigits(s[begin..i]) && AllDigits(s[begin..i + 1])
    ensures ValueOf(s[begin..i + 1]) == ValueOf(s[begin..i]) * 10 + (s[i] - ZERO)
    ensures ValueOf(s[begin..i + 1]) <= ValueOf(s[begin..RunEnd(s, begin)])
  {
    var end := RunEnd(s, begin);
    RunPrefix(s, begin, i);
    RunPrefix(s, begin, i + 1);
    assert s[begin..i + 1][i - begin] == s[i] && s[begin..i + 1][..i - begin] == s[begin..i];
    assert s[begin..end] == s[begin..i + 1] + s[i + 1..end];
    ValueGrows(s[begin..i + 1], s[i + 1..end]);
  }

  /** `parse_nonnegative_int` from `begin`: the whole run of digits, or an error exactly when its
      value does not fit an `int`. */
  method ParseNonnegativeInt(s: seq<byte>, begin: nat) returns (r: Parsed)
    requires begin < |s| && IsDigit(s[begin])
    ensures var run := s[begin..RunEnd(s, begin)];
            r == if ValueOf(run) <= MAX_INT then Parsed(ValueOf(run), RunEnd(s, begin)) else TooBig
  {
    var value: nat, i := 0, begin;
    var big := MAX_INT / 10;
    ghost var end := RunEnd(s, begin);
    while true
      invariant begin <= i < end && RunEnd(s, i) == end
      invariant AllDigits(s[begin..i]) && value == ValueOf(s[begin..i])
      decreases end - i
    {
      RunStep(s, begin, i);
      if value > big {
        value := MAX_INT + 1;
        break;
      }
      value := value * 10 + (s[i] - ZERO);
      i := i + 1;
      if i == |s| || !IsDigit(s[i]) {
        break;
      }
    }
    if value > MAX_INT {
      return TooBig;
    }
    return Parsed(value, i);
  }

  /** Printing and parsing back: the value when it fits `int`, an error otherwise. */
  lemma PrintParse(n: nat, width: nat)
    ensures var s := ZeroPadded(n, width); RunEnd(s, 0) == |s| && ValueOf(s[0..|s|]) == n
  {
    var s := ZeroPadded(n, width);
    ZeroPaddedValue(n, width);
    assert s[0..|s|] == s;
    var e := RunEnd(s, 0);
  }
}
