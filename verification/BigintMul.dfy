/** Multiplying a digit string by one number, digit by digit with a carry. */
module BigintMul {
  import opened Powers
  import opened Bigits

  const U64: nat := 0x1_0000_0000_0000_0000
  type uint64 = x: int | 0 <= x < U64

  /** One digit times `k` plus the carry: the digit that stays and the carry that moves on. */
  function Low(d: bigit, k: nat, carry: nat): bigit {
    (d * k + carry) % B
  }

  function High(d: bigit, k: nat, carry: nat): nat {
    (d * k + carry) / B
  }

  /** The digits after a pass over `s` that multiplies by `k`, and the carry out of it. */
  function MulDigits(s: seq<bigit>, k: nat): (r: (seq<bigit>, nat))
    ensures |r.0| == |s|
  {
    if s == [] then ([], 0)
    else
      var (ds, carry) := MulDigits(s[..|s| - 1], k);
      (ds + [Low(s[|s| - 1], k, carry)], High(s[|s| - 1], k, carry))
  }

  /** The carry pushed on top, digit by digit. */
  function PushCarry(ds: seq<bigit>, carry: nat): (r: seq<bigit>)
    ensures ds <= r
    ensures |r| > |ds| ==> r[|r| - 1] != 0
    decreases carry
  {
    if carry == 0 then ds else PushCarry(ds + [carry % B], carry / B)
  }

  function MulBy(s: seq<bigit>, k: nat): (r: seq<bigit>)
    ensures |r| >= |s|
    ensures |r| > |s| ==> r[|r| - 1] != 0
  {
    PushCarry(MulDigits(s, k).0, MulDigits(s, k).1)
  }

  /** The arithmetic of one step. */
  lemma MulStep(done: nat, carry: nat, p: nat, v: nat, d: nat, k: nat)
    requires done + carry * p == v * k
    ensures (done + (d * k + carry) % B * p) + (d * k + carry) / B * (B * p) == (v + d * p) * k
  {
    var t := d * k + carry;
    var low, high := t % B, t / B;
    assert t == low + B * high;
    assert t * p == low * p + high * (B * p) by {
      Assoc(high, B, p);
      assert (low + B * high) * p == low * p + (high * B) * p;
    }
    assert t * p == (d * k) * p + carry * p;
    assert (d * k) * p == (d * p) * k by {
      Assoc(d, k, p);
      Assoc(d, p, k);
    }
    assert (v + d * p) * k == v * k + (d * p) * k;
  }

  lemma {:induction false} MulDigitsValue(s: seq<bigit>, k: nat)
    ensures Val(MulDigits(s, k).0) + MulDigits(s, k).1 * P(|s|) == Val(s) * k
  {
    if s != [] {
      var n := |s| - 1;
      var before := MulDigits(s[..n], k);
      MulDigitsValue(s[..n], k);
      ValSnoc(before.0, (s[n] * k + before.1) % B);
      MulStep(Val(before.0), before.1, P(n), Val(s[..n]), s[n], k);
    }
  }

  lemma CarrySplit(carry: nat, p: nat)
    ensures carry % B * p + carry / B * (B * p) == carry * p
  {
    var low, high := carry % B, carry / B;
    Assoc(high, B, p);
    assert (low + B * high) * p == low * p + (high * B) * p;
  }

  lemma {:induction false} PushCarryValue(ds: seq<bigit>, carry: nat)
    ensures Val(PushCarry(ds, carry)) == Val(ds) + carry * P(|ds|)
    decreases carry
  {
    if carry != 0 {
      ValSnoc(ds, carry % B);
      PushCarryValue(ds + [carry % B], carry / B);
      CarrySplit(carry, P(|ds|));
    }
  }

  lemma PushSmall(ds: seq<bigit>, carry: nat)
    requires carry < B
    ensures PushCarry(ds, carry) == if carry == 0 then ds else ds + [carry]
  {
    if carry != 0 {
      assert PushCarry(ds + [carry], carry / B) == ds + [carry];
    }
  }

  lemma MulByValue(s: seq<bigit>, k: nat)
    ensures Val(MulBy(s, k)) == Val(s) * k
  {
    MulDigitsValue(s, k);
    PushCarryValue(MulDigits(s, k).0, MulDigits(s, k).1);
  }

  lemma Grows(v: nat, k: nat)
    requires k > 0
    ensures v * k >= v
  {
    MulMono(1, k, v);
  }

  /** A product of non-zero numbers keeps a non-zero top digit. */
  lemma MulByTop(s: seq<bigit>, k: nat)
    requires s != [] && s[|s| - 1] != 0 && k > 0
    ensures MulBy(s, k)[|MulBy(s, k)| - 1] != 0
  {
    if |MulBy(s, k)| == |s| {
      ValTop(s);
      MulByValue(s, k);
      Grows(Val(s), k);
      TopOf(MulBy(s, k));
    }
  }

  lemma ProductFits(a: nat, b: nat)
    requires a < B && b < B
    ensures a * b <= (B - 1) * (B - 1)
  {
    MulMono(a, B - 1, b);
    MulMono(b, B - 1, B - 1);
  }

  /** A carry stays below the multiplier. */
  lemma {:induction false} CarryBound(s: seq<bigit>, k: nat)
    ensures MulDigits(s, k).1 < k || MulDigits(s, k).1 == 0
  {
    if s != [] {
      var n := |s| - 1;
      var carry := MulDigits(s[..n], k).1;
      CarryBound(s[..n], k);
      if k > 0 {
        MulMono(s[n], B - 1, k);
        assert (B - 1) * k + k == B * k;
        assert s[n] * k + carry < B * k;
        DivBelow(s[n] * k + carry, k);
      }
    }
  }

  lemma DivBelow(t: nat, k: nat)
    requires t < B * k
    ensures t / B < k
  {
  }

  /** The two 32-bit halves used for a 64-bit multiplier: every intermediate fits 64 bits. */
  lemma TwoHalves(d: bigit, value: uint64, carry: uint64)
    ensures var result := d * (value % B) + carry % B;
            var next := d * (value / B) + result / B + carry / B;
            && 0 <= result < U64 && 0 <= next < U64
            && result % B == Low(d, value, carry) && next == High(d, value, carry)
  {
    var lower, upper := value % B, value / B;
    ProductFits(d, lower);
    ProductFits(d, upper);
    var result := d * lower + carry % B;
    var next := d * upper + result / B + carry / B;
    assert d * value == d * lower + B * (d * upper) by {
      assert value == lower + B * upper;
      Assoc(d, B, upper);
      Assoc(B, d, upper);
      assert d * (lower + B * upper) == d * lower + d * (B * upper);
    }
    RemainderIs(d * value + carry, next, result % B);
  }

  lemma RemainderIs(x: nat, q: nat, r: nat)
    requires x == q * B + r && r < B
    ensures x % B == r && x / B == q
  {
  }

  /** Shifting a digit left by less than 32 is multiplying it: what stays, and what moves on. */
  lemma ShiftDigit(d: bigit, s: nat, carry: nat)
    requires s < 32 && (carry < Pow(2, s) || carry == 0)
    ensures Pow(2, 32 - s) > 0
    ensures d * Pow(2, s) % B + carry < B
    ensures d * Pow(2, s) % B + carry == Low(d, Pow(2, s), carry)
    ensures d / Pow(2, 32 - s) == High(d, Pow(2, s), carry)
  {
    ShiftDivides(s);
    ShiftParts(d, Pow(2, s), Pow(2, 32 - s), carry);
  }

  lemma ShiftParts(d: bigit, k: nat, m: nat, carry: nat)
    requires k > 0 && m > 0 && k * m == B && (carry < k || carry == 0)
    ensures d * k % B + carry < B
    ensures d * k % B + carry == Low(d, k, carry)
    ensures d / m == High(d, k, carry)
  {
    var q, r := d / m, d % m;
    ShiftSplit(d, k, m, q, r);
    RemainderIs(d * k, q, r * k);
    RemainderIs(d * k + carry, q, r * k + carry);
  }

  lemma ShiftSplit(d: nat, k: nat, m: nat, q: nat, r: nat)
    requires k * m == B && d == q * m + r && r < m
    ensures d * k == q * B + r * k && r * k + k <= B
  {
    assert (q * m + r) * k == (q * m) * k + r * k;
    Assoc(q, m, k);
    MulMono(r + 1, m, k);
    assert (r + 1) * k == r * k + k;
  }

  /** Digits and exponent share a shift. */
  lemma ShiftedValue(v: nat, e: nat, shift: nat)
    ensures P(e + shift / 32) * (v * Pow(2, shift % 32)) == (P(e) * v) * Pow(2, shift)
  {
    var d, s := shift / 32, shift % 32;
    PAdd(e, d);
    PIsPow2(d);
    PowAdd(2, 32 * d, s);
    Regroup(P(e), P(d), v, Pow(2, s));
  }
}
