/** The printed numbers lose nothing: a reader gets back the sign flag, the number and the exponent. */
module NumberLaws {
  import opened Powers
  import opened Bytes
  import opened Decimal
  import opened NetworkObjects

  /** A number text as a reader takes it apart. */
  datatype Reading = Reading(negative: bool, number: nat, exponent: nat) | Unreadable

  function Unsigned(text: Text): Text {
    if text != [] && text[0] == MINUS then text[1..] else text
  }

  /** The index of the first point, the length when there is none. */
  function PointAt(s: Text): (i: nat)
    ensures i <= |s|
    ensures forall j :: 0 <= j < i ==> s[j] != POINT
    ensures i < |s| ==> s[i] == POINT
  {
    if s == [] || s[0] == POINT then 0 else 1 + PointAt(s[1..])
  }

  /** A sign, digits with at least one before the point, and the digits behind the point. */
  function ReadNumber(text: Text): Reading {
    var negative := text != [] && text[0] == MINUS;
    var s := Unsigned(text);
    var at := PointAt(s);
    var digits := if at < |s| then s[..at] + s[at + 1..] else s;
    if at > 0 && AllDigits(digits) then
      Reading(negative, ValueOf(digits), if at < |s| then |s| - at - 1 else 0)
    else Unreadable
  }

  lemma SignedReads(sign: byte, s: Text)
    requires ReadNumber(s).Reading? && s[0] != MINUS
    ensures ReadNumber(Signed(sign, s)) == ReadNumber(s).(negative := sign != 0)
  {
    assert Unsigned(Signed(sign, s)) == s;
  }

  lemma PointedShape(digits: Text, k: nat)
    requires AllDigits(digits) && k < |digits|
    ensures var s, at := Pointed(digits, k), |digits| - k;
            && |s| == |digits| + 1 && s[0] != MINUS
            && PointAt(s) == at
            && s[..at] + s[at + 1..] == digits
  {
    var s, at := Pointed(digits, k), |digits| - k;
    assert s[..at] == digits[..at] && s[at + 1..] == digits[at..];
    assert forall j :: 0 <= j < at ==> s[j] == digits[j];
    assert s[at] == POINT;
  }

  lemma PointedReads(digits: Text, k: nat)
    requires AllDigits(digits) && k < |digits|
    ensures Pointed(digits, k)[0] != MINUS
    ensures ReadNumber(Pointed(digits, k)) == Reading(false, ValueOf(digits), k)
  {
    PointedShape(digits, k);
    ReadsAt(Pointed(digits, k), |digits| - k, digits, k);
  }

  lemma ReadsAt(s: Text, at: nat, digits: Text, k: nat)
    requires s != [] && s[0] != MINUS && PointAt(s) == at && 0 < at && |s| == at + 1 + k
    requires s[..at] + s[at + 1..] == digits && AllDigits(digits)
    ensures ReadNumber(s) == Reading(false, ValueOf(digits), k)
  {
  }

  lemma PlainReads(digits: Text)
    requires AllDigits(digits) && digits != []
    ensures digits[0] != MINUS
    ensures ReadNumber(digits) == Reading(false, ValueOf(digits), 0)
  {
    assert forall j :: 0 <= j < |digits| ==> digits[j] != POINT;
    assert PointAt(digits) == |digits|;
  }

  lemma IntLossless(sign: byte, number: nat)
    ensures ReadNumber(IntText(sign, number)) == Reading(sign != 0, number, 0)
  {
    DigitsValue(number);
    PlainReads(Digits(number));
    SignedReads(sign, Digits(number));
  }

  lemma ShortRealLossless(number: nat)
    ensures ReadNumber(ShortRealText(number)) == Reading(false, number, 2)
  {
    ZeroPaddedValue(number, 3);
    PointedReads(ZeroPadded(number, 3), 2);
  }

  /** For every exponent, 255 included: at least one digit before the point, exactly `exponent` after. */
  lemma FloatLossless(sign: byte, number: nat, exponent: nat)
    ensures ReadNumber(FloatText(sign, number, exponent)) == Reading(sign != 0, number, exponent)
  {
    if exponent == 0 {
      IntLossless(sign, number);
    } else {
      var digits := ZeroPadded(number, exponent + 1);
      ZeroPaddedValue(number, exponent + 1);
      PointedReads(digits, exponent);
      SignedReads(sign, Pointed(digits, exponent));
    }
  }

  /** Unequal field values print differently, up to the value of a non-zero sign byte. */
  lemma FloatInjective(sign: byte, number: nat, exponent: nat, sign': byte, number': nat, exponent': nat)
    requires FloatText(sign, number, exponent) == FloatText(sign', number', exponent')
    ensures (sign == 0 <==> sign' == 0) && number == number' && exponent == exponent'
  {
    FloatLossless(sign, number, exponent);
    FloatLossless(sign', number', exponent');
  }

  lemma {:induction false} DigitsFewer(n: nat, k: nat)
    requires n < Pow(10, k) && k >= 1
    ensures |Digits(n)| <= k
  {
    assert Pow(10, 1) == 10 * Pow(10, 0);
    if n >= 10 {
      DigitsFewer(n / 10, k - 1);
    }
  }

  /** The longest text of each kind. */
  lemma TextSizes(sign: byte, number: nat, exponent: byte)
    requires number < 0x1_0000_0000
    ensures |IntText(sign, number)| <= 11 && |ShortRealText(number)| <= 11 && |FloatText(sign, number, exponent)| <= 258
  {
    var ten := 10;
    TenRows(ten);
    DigitsFewer(number, ten);
    ZeroPaddedValue(number, 3);
    ZeroPaddedValue(number, exponent + 1);
  }
}
