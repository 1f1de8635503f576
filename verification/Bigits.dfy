/** Little-endian strings of 32-bit digits and the numbers they stand for. */
module Bigits {
  import opened Powers

  const B: nat := 0x1_0000_0000

  type bigit = x: int | 0 <= x < B

  function P(n: nat): (p: nat)
    ensures p > 0
  {
    if n == 0 then 1 else B * P(n - 1)
  }

  function Val(s: seq<bigit>): nat {
    if s == [] then 0 else Val(s[..|s| - 1]) + s[|s| - 1] * P(|s| - 1)
  }

  lemma ValSnoc(s: seq<bigit>, d: bigit)
    ensures Val(s + [d]) == Val(s) + d * P(|s|)
  {
    assert (s + [d])[..|s|] == s;
  }

  lemma ValTake(s: seq<bigit>, i: nat)
    requires i < |s|
    ensures Val(s[..i + 1]) == Val(s[..i]) + s[i] * P(i)
  {
    assert s[..i + 1][..i] == s[..i];
  }

  lemma {:induction false} ValBound(s: seq<bigit>)
    ensures Val(s) < P(|s|)
  {
    if s != [] {
      var n := |s| - 1;
      ValBound(s[..n]);
      var top: int := s[n];
      MulMono(top + 1, B, P(n));
      assert (top + 1) * P(n) == top * P(n) + P(n);
    }
  }

  /** A non-zero top digit makes the number as long as it looks. */
  lemma ValTop(s: seq<bigit>)
    requires s != [] && s[|s| - 1] != 0
    ensures Val(s) >= P(|s| - 1)
  {
    var n := |s| - 1;
    MulMono(1, s[n], P(n));
  }

  /** And only then. */
  lemma TopOf(s: seq<bigit>)
    requires s != [] && Val(s) >= P(|s| - 1)
    ensures s[|s| - 1] != 0
  {
    ValBound(s[..|s| - 1]);
  }

  lemma ValOne(d: bigit)
    ensures Val([d]) == d
  {
    assert [d][..0] == [];
  }

  lemma ValTwo(d: bigit, e: bigit)
    ensures Val([d, e]) == d + e * B
  {
    ValOne(d);
    assert [d, e][..1] == [d] && P(1) == B * P(0);
  }

  lemma {:induction false} PAdd(a: nat, b: nat)
    ensures P(a + b) == P(a) * P(b)
  {
    if a > 0 {
      PAdd(a - 1, b);
      assert B * (P(a - 1) * P(b)) == (B * P(a - 1)) * P(b);
    }
  }

  lemma {:induction false} PMono(a: nat, b: nat)
    requires a <= b
    ensures P(a) <= P(b)
    ensures a < b ==> B * P(a) <= P(b)
    decreases b - a
  {
    if a < b {
      PMono(a, b - 1);
    }
  }

  lemma {:induction false} ValAppend(a: seq<bigit>, b: seq<bigit>)
    ensures Val(a + b) == Val(a) + P(|a|) * Val(b)
    decreases |b|
  {
    if b == [] {
      assert a + b == a;
    } else {
      var n, d := |b| - 1, b[|b| - 1];
      ValAppend(a, b[..n]);
      assert a + b == (a + b[..n]) + [d];
      ValSnoc(a + b[..n], d);
      PAdd(|a|, n);
      Distribute(P(|a|), Val(b[..n]), d, P(n));
    }
  }

  lemma Distribute(p: nat, v: nat, d: nat, q: nat)
    ensures p * (v + d * q) == p * v + d * (p * q)
  {
    assert p * (d * q) == d * (p * q);
  }

  lemma ValSplit(s: seq<bigit>, i: nat)
    requires i <= |s|
    ensures Val(s) == Val(s[..i]) + P(i) * Val(s[i..])
  {
    assert s == s[..i] + s[i..];
    ValAppend(s[..i], s[i..]);
  }

  function Zeros(n: nat): (s: seq<bigit>)
    ensures |s| == n && forall i :: 0 <= i < n ==> s[i] == 0
  {
    seq(n, _ => 0)
  }

  lemma {:induction false} ValZeros(s: seq<bigit>)
    requires forall i :: 0 <= i < |s| ==> s[i] == 0
    ensures Val(s) == 0
  {
    if s != [] {
      ValZeros(s[..|s| - 1]);
    }
  }

  lemma {:induction false} ZeroVal(s: seq<bigit>)
    requires Val(s) == 0
    ensures forall i :: 0 <= i < |s| ==> s[i] == 0
  {
    if s != [] {
      var n := |s| - 1;
      if s[n] != 0 {
        ValTop(s);
      }
      ZeroVal(s[..n]);
      assert forall i :: 0 <= i < n ==> s[i] == s[..n][i];
    }
  }

  /** Shifting up by whole digits. */
  lemma ValShifted(n: nat, s: seq<bigit>)
    ensures Val(Zeros(n) + s) == P(n) * Val(s)
  {
    ValZeros(Zeros(n));
    ValAppend(Zeros(n), s);
  }

  lemma {:induction false} PowAdd(b: nat, m: nat, n: nat)
    ensures Pow(b, m + n) == Pow(b, m) * Pow(b, n)
  {
    if m > 0 {
      PowAdd(b, m - 1, n);
      Assoc(b, Pow(b, m - 1), Pow(b, n));
    }
  }

  lemma Assoc(x: nat, y: nat, z: nat)
    ensures x * (y * z) == (x * y) * z
  {
  }

  lemma Regroup(a: nat, b: nat, x: nat, y: nat)
    ensures (a * b) * (x * y) == (a * x) * (b * y)
  {
    Assoc(a, b, x * y);
    Assoc(b, x, y);
    Assoc(x, b, y);
    Assoc(a, x, b * y);
    assert b * x == x * b;
  }

  lemma {:induction false} PowProduct(a: nat, b: nat, n: nat)
    ensures Pow(a * b, n) == Pow(a, n) * Pow(b, n)
  {
    if n > 0 {
      PowProduct(a, b, n - 1);
      Regroup(a, b, Pow(a, n - 1), Pow(b, n - 1));
    }
  }

  /** 32 doublings are one digit position. */
  lemma {:induction false} PIsPow2(n: nat)
    ensures P(n) == Pow(2, 32 * n)
  {
    if n > 0 {
      PIsPow2(n - 1);
      Pow2Of32();
      PowAdd(2, 32, 32 * (n - 1));
    }
  }

  lemma Pow2Of32()
    ensures Pow(2, 32) == B
  {
    var eight := 8;
    assert Pow(2, 2) == 4 && Pow(2, 4) == 16;
    PowAdd(2, 4, 4);
    assert Pow(2, eight) == 256;
    PowAdd(2, eight, eight);
    assert Pow(2, eight + eight) == 0x1_0000;
    PowAdd(2, eight + eight, eight + eight);
  }

  /** A shift below a whole digit divides the digit base. */
  lemma ShiftDivides(s: nat)
    requires s < 32
    ensures Pow(2, s) > 0 && Pow(2, 32 - s) > 0 && Pow(2, s) * Pow(2, 32 - s) == B
  {
    Pow2Of32();
    PowAdd(2, s, 32 - s);
    assert Pow(2, s) * Pow(2, 32 - s) > 0;
  }
}
