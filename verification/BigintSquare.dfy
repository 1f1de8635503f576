/** Products by columns: the sums that `bigint::square` accumulates, and the accumulator that holds
    them when the compiler has no 128-bit integer. */
module BigintSquare {
  import opened Powers
  import opened Bigits
  import opened BigintMul

  const U128: nat := 0x1_0000_0000_0000_0000_0000_0000_0000_0000

  class Accumulator {
    var lower: uint64
    var upper: uint64

    function Sum(): nat
      reads this
    {
      lower + upper * U64
    }

    constructor ()
      ensures Sum() == 0
    {
      lower, upper := 0, 0;
    }

    /** `+=` with a carry detected by wrap-around is 128-bit addition. */
    method Add(n: uint64)
      modifies this
      ensures Sum() == (old(Sum()) + n) % U128
    {
      AddCarries(lower, upper, n);
      lower := (lower + n) % U64;
      if lower < n {
        upper := (upper + 1) % U64;
      }
    }

    /** `>>= 32`; the left shift of the upper word drops what leaves 64 bits. */
    method ShiftRight32()
      modifies this
      ensures Sum() == old(Sum()) / B
    {
      lower := upper * B % U64 + lower / B;
      upper := upper / B;
    }

    /** The conversion to a digit. */
    function Digit(): bigit
      reads this
      ensures Digit() == Sum() % B
    {
      LowWord(lower, upper);
      lower % B
    }
  }

  /** The sum wrapped exactly when it is below the summand, and then a carry is due. */
  lemma AddCarries(lower: uint64, upper: uint64, n: uint64)
    ensures var sum := (lower + n) % U64;
            (lower + upper * U64 + n) % U128 == sum + (if sum < n then (upper + 1) % U64 else upper) * U64
  {
    var carry := if lower + n >= U64 then 1 else 0;
    var sum := lower + n - carry * U64;
    assert (lower + n) % U64 == sum;
    if carry == 1 && upper + 1 == U64 {
      assert lower + upper * U64 + n == sum + U128;
    }
  }

  lemma LowWord(lower: nat, upper: nat)
    ensures (lower + upper * U64) % B == lower % B
  {
    RemainderIs(lower + upper * U64, lower / B + upper * B, lower % B);
  }

  function Times(x: nat, y: nat): nat {
    x * y
  }

  /** What digit `x` at place `i` contributes to column `k` of a product with `b`. */
  function Term(x: nat, i: nat, b: seq<bigit>, k: nat): nat {
    if i <= k < i + |b| then Times(x, b[k - i]) else 0
  }

  /** The part of column `k` of a product that comes from the digits of `a`. */
  function Column(a: seq<bigit>, b: seq<bigit>, k: nat): nat {
    if a == [] then 0
    else
      var i := |a| - 1;
      Column(a[..i], b, k) + Term(a[i], i, b, k)
  }

  /** The first `m` columns, each at its place value. */
  function Columns(a: seq<bigit>, b: seq<bigit>, m: nat): nat {
    if m == 0 then 0 else Columns(a, b, m - 1) + Column(a, b, m - 1) * P(m - 1)
  }

  /** One digit of `a` times `b`, by columns. */
  function Row(x: bigit, i: nat, b: seq<bigit>, m: nat): nat {
    if m == 0 then 0
    else Row(x, i, b, m - 1) + Term(x, i, b, m - 1) * P(m - 1)
  }

  lemma {:induction false} RowValue(x: bigit, i: nat, b: seq<bigit>, m: nat)
    ensures Row(x, i, b, m) == x * (P(i) * Val(b[..if m <= i then 0 else if m <= i + |b| then m - i else |b|]))
  {
    if m == 0 {
      assert Val(b[..0]) == 0;
    } else {
      RowValue(x, i, b, m - 1);
      if i < m <= i + |b| {
        var j := m - 1 - i;
        ValTake(b, j);
        PAdd(i, j);
        RowStep(x, P(i), Val(b[..j]), b[j], P(j));
      }
    }
  }

  lemma RowStep(x: nat, p: nat, v: nat, d: nat, q: nat)
    ensures x * (p * v) + (x * d) * (p * q) == x * (p * (v + d * q))
  {
    Distribute(p, v, d, q);
    Assoc(x, d, p * q);
    assert x * (p * v + d * (p * q)) == x * (p * v) + x * (d * (p * q));
  }

  lemma Spread(x: nat, y: nat, p: nat)
    ensures (x + y) * p == x * p + y * p
  {
  }

  lemma {:induction false} ColumnsSplit(a: seq<bigit>, b: seq<bigit>, m: nat)
    requires a != []
    ensures Columns(a, b, m) == Columns(a[..|a| - 1], b, m) + Row(a[|a| - 1], |a| - 1, b, m)
  {
    if m > 0 {
      ColumnsSplit(a, b, m - 1);
      var i, k := |a| - 1, m - 1;
      Spread(Column(a[..i], b, k), Term(a[i], i, b, k), P(k));
    }
  }

  lemma {:induction false} NoColumns(b: seq<bigit>, m: nat)
    ensures Columns([], b, m) == 0
  {
    if m > 0 {
      NoColumns(b, m - 1);
      assert Column([], b, m - 1) == 0;
    }
  }

  /** All columns together are the product. */
  lemma {:induction false} ColumnsValue(a: seq<bigit>, b: seq<bigit>, m: nat)
    requires m >= |a| + |b|
    ensures Columns(a, b, m) == Val(a) * Val(b)
    decreases |a|
  {
    if a == [] {
      NoColumns(b, m);
    } else {
      var i := |a| - 1;
      ColumnsSplit(a, b, m);
      ColumnsValue(a[..i], b, m);
      RowValue(a[i], i, b, m);
      assert b[..|b|] == b;
      Assoc(a[i], P(i), Val(b));
      Spread(Val(a[..i]), Times(a[i], P(i)), Val(b));
    }
  }

  /** Digits of `a` beyond the column, or too low for it, add nothing. */
  lemma {:induction false} ColumnTail(a: seq<bigit>, b: seq<bigit>, k: nat, i: nat)
    requires k < i <= |a|
    ensures Column(a[..i], b, k) == Column(a, b, k)
    decreases |a| - i
  {
    if i < |a| {
      assert a[..i + 1][..i] == a[..i];
      ColumnTail(a, b, k, i + 1);
    } else {
      assert a[..i] == a;
    }
  }

  lemma {:induction false} ColumnHead(a: seq<bigit>, b: seq<bigit>, k: nat, i: nat)
    requires i <= |a| && i + |b| <= k + 1
    ensures Column(a[..i], b, k) == 0
  {
    if i > 0 {
      assert a[..i][..i - 1] == a[..i - 1];
      ColumnHead(a, b, k, i - 1);
    }
  }

  lemma ColumnStep(a: seq<bigit>, b: seq<bigit>, k: nat, i: nat)
    requires i < |a| && i <= k < i + |b|
    ensures Column(a[..i + 1], b, k) == Column(a[..i], b, k) + Times(a[i], b[k - i])
  {
    assert a[..i + 1][..i] == a[..i];
  }

  lemma {:induction false} ColumnBound(a: seq<bigit>, b: seq<bigit>, k: nat)
    ensures Column(a, b, k) <= |a| * ((B - 1) * (B - 1))
  {
    if a != [] {
      var i := |a| - 1;
      ColumnBound(a[..i], b, k);
      if i <= k < i + |b| {
        ProductFits(a[i], b[k - i]);
      }
      Spread(i, 1, (B - 1) * (B - 1));
    }
  }

  /** A column and the carry before it stay far below 128 bits, and the carry after it is bounded alike. */
  lemma CarryFits(n: nat, column: nat, carry: nat)
    requires n < B && column <= n * ((B - 1) * (B - 1)) && carry <= n * B
    ensures column + carry < U128 && (column + carry) / B <= n * B
  {
    var q := (B - 1) * (B - 1);
    assert q + B <= B * B;
    MulMono(q + B, B * B, n);
    assert n * (q + B) == n * q + n * B;
    assert column + carry <= n * (B * B);
    MulMono(n, B, B * B);
    Assoc(n, B, B);
    DivAtMost(column + carry, n * B);
  }

  lemma DivAtMost(t: nat, k: nat)
    requires t <= k * B
    ensures t / B <= k
  {
  }

  /** The digits written so far and the carry account for the columns done. */
  lemma WriteColumn(done: nat, carry: nat, column: nat, p: nat, before: nat)
    requires done + carry * p == before
    ensures var t := carry + column;
            (done + t % B * p) + t / B * (B * p) == before + column * p
  {
    var t := carry + column;
    CarrySplit(t, p);
    assert t * p == carry * p + column * p;
  }
}
