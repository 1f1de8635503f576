/** Order and subtraction on digit strings, from the most and from the least significant end. */
module BigintOrder {
  import opened Powers
  import opened Bigits

  function Sign(x: int): int {
    if x > 0 then 1 else if x < 0 then -1 else 0
  }

  /** All digits of a number whose lowest `exp` digits are implicit zeros. */
  function Full(bits: seq<bigit>, exp: nat): seq<bigit> {
    Zeros(exp) + bits
  }

  function Dig(s: seq<bigit>, i: nat): bigit {
    if i < |s| then s[i] else 0
  }

  /** The number formed by the digits from place `i` up. */
  function Hi(s: seq<bigit>, i: nat): nat {
    if i < |s| then Val(s[i..]) else 0
  }

  lemma ValCons(d: bigit, s: seq<bigit>)
    ensures Val([d] + s) == d + B * Val(s)
  {
    ValAppend([d], s);
    ValOne(d);
    assert P(1) == B * P(0);
  }

  lemma HiStep(s: seq<bigit>, i: nat)
    ensures Hi(s, i) == Dig(s, i) + B * Hi(s, i + 1)
  {
    if i < |s| {
      ValCons(s[i], s[i + 1..]);
      assert s[i..] == [s[i]] + s[i + 1..];
      if i + 1 == |s| {
        assert s[i + 1..] == [];
      }
    }
  }

  lemma HiSplit(s: seq<bigit>, i: nat) returns (low: nat)
    ensures Val(s) == low + P(i) * Hi(s, i) && low < P(i)
  {
    if i < |s| {
      low := Val(s[..i]);
      ValSplit(s, i);
      ValBound(s[..i]);
    } else {
      low := Val(s);
      ValBound(s);
      PMono(|s|, i);
    }
  }

  lemma OneMore(a: nat, b: nat, p: nat)
    requires a < b
    ensures b * p >= a * p + p
  {
    MulMono(a + 1, b, p);
  }

  lemma Sums(p: nat, x: int, y: int)
    ensures p * (x + y) == p * x + p * y
    ensures p * (x - y) == p * x - p * y
  {
  }

  lemma ExceedsArith(p: nat, a: nat, b: nat, c: nat)
    ensures c < a + b ==> p * a + p * b >= p * c + p
    ensures c >= a + b + 2 ==> p * c >= p * a + p * b + 2 * p
  {
    Sums(p, a, b);
    if c < a + b {
      OneMore(c, a + b, p);
    }
    if c >= a + b + 2 {
      MulMono(a + b + 2, c, p);
      Sums(p, a + b, 2);
    }
  }

  /** The highest place where two numbers differ decides. */
  lemma DecideAt(l: seq<bigit>, r: seq<bigit>, p: nat)
    requires p < |l| == |r| && l[p + 1..] == r[p + 1..] && l[p] > r[p]
    ensures Val(l) > Val(r)
  {
    ValSplit(l, p + 1);
    ValSplit(r, p + 1);
    ValTake(l, p);
    ValTake(r, p);
    ValBound(r[..p]);
    OneMore(r[p], l[p], P(p));
  }

  /** A longer number with a non-zero top digit is larger. */
  lemma LongerIsLarger(l: seq<bigit>, r: seq<bigit>)
    requires |l| > |r| && l[|l| - 1] != 0
    ensures Val(l) > Val(r)
  {
    ValTop(l);
    ValBound(r);
    PMono(|r|, |l| - 1);
  }

  lemma FarBelow(r: seq<bigit>, l: seq<bigit>)
    requires |r| + 1 < |l| && l[|l| - 1] != 0
    ensures 0x8000_0000 * Val(r) <= Val(l)
  {
    ValTop(l);
    ValBound(r);
    PMono(|r| + 1, |l| - 1);
    assert P(|r| + 1) == B * P(|r|);
  }

  /** The same for numbers with implicit low zeros. */
  lemma LongerFull(l: seq<bigit>, e: nat, r: seq<bigit>, f: nat)
    requires l != [] && l[|l| - 1] != 0 && |l| + e > |r| + f
    ensures P(e) * Val(l) > P(f) * Val(r)
  {
    var x, y := Full(l, e), Full(r, f);
    FullValue(l, e, x);
    FullValue(r, f, y);
    TopShifted(e, l);
    LongerIsLarger(x, y);
  }

  lemma FullValue(s: seq<bigit>, e: nat, full: seq<bigit>)
    requires full == Full(s, e)
    ensures |full| == |s| + e && Val(full) == P(e) * Val(s)
  {
    ValShifted(e, s);
  }

  lemma TopShifted(e: nat, l: seq<bigit>)
    requires l != []
    ensures Full(l, e)[e + |l| - 1] == l[|l| - 1]
  {
  }

  /** Below common high digits only the extra low digits of the longer string count. */
  lemma ExtraLow(low: seq<bigit>, r: seq<bigit>, e: nat, f: nat)
    requires f == e + |low|
    ensures P(e) * Val(low + r) == P(e) * Val(low) + P(f) * Val(r)
  {
    ValAppend(low, r);
    PAdd(e, |low|);
    Assoc(P(e), P(|low|), Val(r));
    Sums(P(e), Val(low), P(|low|) * Val(r));
  }

  lemma ExtraDigits(low: seq<bigit>, r: seq<bigit>, l: seq<bigit>, e: nat, f: nat)
    requires f == e + |low| && l == low + r
    ensures P(e) * Val(l) == P(e) * Val(low) + P(f) * Val(r)
  {
    ExtraLow(low, r, e, f);
  }

  lemma ScaledZero(p: nat, v: nat)
    requires p > 0
    ensures p * v >= 0
    ensures p * v == 0 <==> v == 0
  {
    if v > 0 {
      OneMore(0, v, p);
    }
  }

  predicate AllZero(s: seq<bigit>) {
    forall k :: 0 <= k < |s| ==> s[k] == 0
  }

  lemma ZeroDigits(s: seq<bigit>)
    ensures Val(s) == 0 <==> AllZero(s)
  {
    if Val(s) == 0 {
      ZeroVal(s);
    } else if AllZero(s) {
      ValZeros(s);
    }
  }

  lemma FullGreater(l: seq<bigit>, e: nat, r: seq<bigit>, f: nat)
    requires Val(Full(l, e)) > Val(Full(r, f))
    ensures P(e) * Val(l) > P(f) * Val(r)
  {
    FullValue(l, e, Full(l, e));
    FullValue(r, f, Full(r, f));
  }

  // ---- The early exits of a + b compared with c ----

  /** The high digits already exceed: what is below cannot make up one unit of place `i`. */
  lemma SumExceeds(a: seq<bigit>, b: seq<bigit>, c: seq<bigit>, i: nat)
    requires Hi(c, i) < Hi(a, i) + Hi(b, i)
    ensures Val(a) + Val(b) > Val(c)
  {
    var x := HiSplit(a, i);
    var y := HiSplit(b, i);
    var z := HiSplit(c, i);
    ExceedsArith(P(i), Hi(a, i), Hi(b, i), Hi(c, i));
  }

  /** A gap of two units of place `i` cannot be made up by two low parts. */
  lemma SumFallsShort(a: seq<bigit>, b: seq<bigit>, c: seq<bigit>, i: nat)
    requires Hi(c, i) >= Hi(a, i) + Hi(b, i) + 2
    ensures Val(a) + Val(b) < Val(c)
  {
    var x := HiSplit(a, i);
    var y := HiSplit(b, i);
    var z := HiSplit(c, i);
    ExceedsArith(P(i), Hi(a, i), Hi(b, i), Hi(c, i));
  }

  /** `c` less `a` and `b`, counted in units of place `i`. */
  function Gap(a: seq<bigit>, b: seq<bigit>, c: seq<bigit>, i: nat): int {
    Hi(c, i) - Hi(a, i) - Hi(b, i)
  }

  /** One place further down: the gap so far counts `B` times, and a gap outside 0..1 decides. */
  lemma GapStep(a: seq<bigit>, b: seq<bigit>, c: seq<bigit>, i: nat, borrow: int)
    requires borrow == B * Gap(a, b, c, i + 1)
    ensures Gap(a, b, c, i) == Dig(c, i) + borrow - (Dig(a, i) + Dig(b, i))
    ensures Gap(a, b, c, i) < 0 ==> Val(a) + Val(b) > Val(c)
    ensures Gap(a, b, c, i) > 1 ==> Val(a) + Val(b) < Val(c)
  {
    HiStep(a, i);
    HiStep(b, i);
    HiStep(c, i);
    if Gap(a, b, c, i) < 0 {
      SumExceeds(a, b, c, i);
    } else if Gap(a, b, c, i) > 1 {
      SumFallsShort(a, b, c, i);
    }
  }

  /** Two numbers that are two digits shorter together stay below. */
  lemma FarLonger(a: seq<bigit>, b: seq<bigit>, c: seq<bigit>)
    requires |a| + 1 < |c| && |b| + 1 < |c| && c[|c| - 1] != 0
    ensures Val(a) + Val(b) < Val(c)
  {
    FarBelow(a, c);
    FarBelow(b, c);
    ValTop(c);
  }

  lemma GapSign(p: nat, x: nat, y: nat, z: nat)
    requires p > 0
    ensures Sign(p * x + p * y - p * z) == Sign(x + y - z)
  {
    Sums(p, x, y);
    if x + y < z {
      OneMore(x + y, z, p);
    } else if x + y > z {
      OneMore(z, x + y, p);
    } else {
      assert p * (x + y) == p * z;
    }
  }

  /** Below every non-zero digit the gap at place `i` decides. */
  lemma WholeGap(a: seq<bigit>, b: seq<bigit>, c: seq<bigit>, i: nat)
    requires forall k :: 0 <= k < i ==> Dig(a, k) == 0 && Dig(b, k) == 0 && Dig(c, k) == 0
    ensures Sign(Val(a) + Val(b) - Val(c)) == Sign(Hi(a, i) + Hi(b, i) - Hi(c, i))
  {
    NoLow(a, i);
    NoLow(b, i);
    NoLow(c, i);
    GapSign(P(i), Hi(a, i), Hi(b, i), Hi(c, i));
  }

  lemma LowDigits(s: seq<bigit>, e: nat, i: nat)
    requires i <= e
    ensures forall k :: 0 <= k < i ==> Dig(Full(s, e), k) == 0
  {
  }

  lemma NoLow(s: seq<bigit>, i: nat)
    requires forall k :: 0 <= k < i ==> Dig(s, k) == 0
    ensures Val(s) == P(i) * Hi(s, i)
  {
    if i <= |s| {
      assert forall k :: 0 <= k < i ==> s[..i][k] == Dig(s, k);
      ValSplit(s, i);
      ValZeros(s[..i]);
      if i == |s| {
        assert s[i..] == [];
      }
    } else {
      assert forall k :: 0 <= k < |s| ==> s[k] == Dig(s, k);
      ValZeros(s);
    }
  }

  // ---- Subtraction ----

  /** Digits and final borrow of `s - t`, lowest digit first. */
  function SubDigits(s: seq<bigit>, t: seq<bigit>): (r: (seq<bigit>, nat))
    requires |s| == |t|
    ensures |r.0| == |s| && r.1 <= 1
  {
    if s == [] then ([], 0)
    else
      var n := |s| - 1;
      var (ds, borrow) := SubDigits(s[..n], t[..n]);
      (ds + [(s[n] - t[n] - borrow) % B], if s[n] - t[n] - borrow < 0 then 1 else 0)
  }

  /** One unit of place `n` when a borrow is owed there. */
  function Owed(borrow: nat, n: nat): nat {
    if borrow == 0 then 0 else P(n)
  }

  lemma {:induction false} SubDigitsValue(s: seq<bigit>, t: seq<bigit>)
    requires |s| == |t|
    ensures Val(SubDigits(s, t).0) == Val(s) - Val(t) + Owed(SubDigits(s, t).1, |s|)
  {
    if s != [] {
      var n := |s| - 1;
      var (ds, borrow) := SubDigits(s[..n], t[..n]);
      SubDigitsValue(s[..n], t[..n]);
      var low: bigit := (s[n] - t[n] - borrow) % B;
      ValSnoc(ds, low);
      SubStep(s[n], t[n], borrow, P(n));
    }
  }

  lemma SubStep(x: int, y: int, borrow: int, p: nat)
    requires 0 <= x < B && 0 <= y < B && 0 <= borrow <= 1
    ensures (x - y - borrow) % B * p == x * p - y * p - (if borrow == 0 then 0 else p)
                                        + (if x - y - borrow < 0 then B * p else 0)
  {
    var out := if x - y - borrow < 0 then B else 0;
    assert (x - y - borrow) % B == x - y - borrow + out;
    FourTerms(x, y, borrow, out, p);
  }

  lemma FourTerms(x: int, y: int, z: int, o: int, p: nat)
    ensures (x - y - z + o) * p == x * p - y * p - z * p + o * p
  {
    Differ(x + o, y + z, p);
    Differ(x, -o, p);
    Differ(y, -z, p);
  }

  lemma ValUpdate(s: seq<bigit>, i: nat, d: bigit)
    requires i < |s|
    ensures Val(s[i := d]) == Val(s) + (d - s[i]) * P(i)
  {
    var t := s[i := d];
    ValSplit(s, i + 1);
    ValSplit(t, i + 1);
    ValTake(s, i);
    ValTake(t, i);
    assert t[..i] == s[..i] && t[i + 1..] == s[i + 1..];
    Differ(d, s[i], P(i));
  }

  lemma Differ(x: int, y: int, p: nat)
    ensures (x - y) * p == x * p - y * p
  {
  }

  lemma ThreeParts(a: seq<bigit>, m: seq<bigit>, h: seq<bigit>, p: nat, q: nat)
    requires p == P(|a|) && q == P(|a| + |m|)
    ensures Val(a + m + h) == Val(a) + p * Val(m) + q * Val(h)
  {
    ValAppend(a + m, h);
    ValAppend(a, m);
  }

  /** Replacing middle digits changes the number by the change in the middle, at its place. */
  lemma MiddleChange(a: seq<bigit>, m: seq<bigit>, r: seq<bigit>, h: seq<bigit>)
    requires |r| == |m|
    ensures Val(a + r + h) - Val(a + m + h) == P(|a|) * Val(r) - P(|a|) * Val(m)
  {
    var p, q := P(|a|), P(|a| + |m|);
    ThreeParts(a, m, h, p, q);
    ThreeParts(a, r, h, p, q);
    Cancels(Val(a + r + h), Val(a + m + h), Val(a), p * Val(r), p * Val(m), q * Val(h));
  }

  lemma Cancels(x: int, y: int, low: int, r: int, m: int, high: int)
    requires x == low + r + high && y == low + m + high
    ensures x - y == r - m
  {
  }

  lemma MiddleArith(p: nat, r: nat, m: nat, t: nat, owed: nat)
    requires r == m - t + owed
    ensures p * r - p * m == p * owed - p * t
  {
    Sums(p, m, t);
    Sums(p, m - t, owed);
  }

  /** What the subtraction pass does to the whole number: the borrow is still owed above the middle. */
  lemma PassValue(a: seq<bigit>, m: seq<bigit>, h: seq<bigit>, t: seq<bigit>)
    requires |m| == |t|
    ensures var r := SubDigits(m, t);
            Val(a + r.0 + h) == Val(a + m + h) - P(|a|) * Val(t) + Owed(r.1, |a| + |t|)
  {
    var r := SubDigits(m, t);
    MiddleChange(a, m, r.0, h);
    SubDigitsValue(m, t);
    MiddleArith(P(|a|), Val(r.0), Val(m), Val(t), Owed(r.1, |t|));
    PAdd(|a|, |t|);
  }

  /** The three outcomes of a subtraction, by what the borrow owed at place `j` meets. */
  lemma Outcomes(passed: seq<bigit>, j: nat, borrow: nat, difference: nat)
    requires j <= |passed| && Val(passed) == difference + Owed(borrow, j)
    ensures borrow == 0 ==> Val(passed) == difference
    ensures borrow > 0 ==> j < |passed|
    ensures borrow > 0 && passed[j] > 0 ==> Val(passed[j := passed[j] - 1]) == difference
    ensures borrow > 0 && passed[j] == 0 ==> Val(passed[j := B - 2]) > difference
  {
    if borrow > 0 {
      ValBound(passed);
      if j < |passed| {
        PaidValue(passed, j, passed[j], difference);
      }
    }
  }

  lemma PaidValue(passed: seq<bigit>, j: nat, d: bigit, difference: nat)
    requires j < |passed| && passed[j] == d && Val(passed) == difference + P(j)
    ensures d > 0 ==> Val(passed[j := d - 1]) == difference
    ensures d == 0 ==> Val(passed[j := B - 2]) > difference
  {
    if d > 0 {
      ValUpdate(passed, j, d - 1);
    } else {
      ValUpdate(passed, j, B - 2);
      MulMono(0, B - 2, P(j));
    }
  }

  lemma Scaled(x: nat, y: nat, t: nat, e: nat, start: nat)
    requires P(e) * x >= P(e + start) * t
    ensures x >= P(start) * t
    ensures P(e) * (x - P(start) * t) == P(e) * x - P(e + start) * t
    ensures y > x - P(start) * t ==> P(e) * y > P(e) * (x - P(start) * t)
  {
    PAdd(e, start);
    Assoc(P(e), P(start), t);
    if x < P(start) * t {
      OneMore(x, P(start) * t, P(e));
    }
    Sums(P(e), x, P(start) * t);
    if y > x - P(start) * t {
      OneMore(x - P(start) * t, y, P(e));
    }
  }

  /** The digits of `was` after the pass from place `start` on, before the borrow is paid. */
  function Passed(was: seq<bigit>, t: seq<bigit>, start: nat): (r: seq<bigit>)
    requires start + |t| <= |was|
    ensures |r| == |was| && r[start + |t|..] == was[start + |t|..]
  {
    was[..start] + SubDigits(was[start..start + |t|], t).0 + was[start + |t|..]
  }

  function BorrowOf(was: seq<bigit>, t: seq<bigit>, start: nat): (borrow: nat)
    requires start + |t| <= |was|
    ensures borrow <= 1
  {
    SubDigits(was[start..start + |t|], t).1
  }

  lemma PassedParts(a: seq<bigit>, m: seq<bigit>, h: seq<bigit>, t: seq<bigit>, was: seq<bigit>, start: nat)
    requires was == a + m + h && |a| == start && |m| == |t|
    ensures Val(a + SubDigits(m, t).0 + h) == Val(was) - P(start) * Val(t) + Owed(SubDigits(m, t).1, start + |t|)
  {
    PassValue(a, m, h, t);
  }

  lemma PassedValue(was: seq<bigit>, t: seq<bigit>, start: nat)
    requires start + |t| <= |was|
    ensures Val(Passed(was, t, start)) == Val(was) - P(start) * Val(t) + Owed(BorrowOf(was, t, start), start + |t|)
  {
    PassedParts(was[..start], was[start..start + |t|], was[start + |t|..], t, was, start);
  }

  /** An aligned subtraction at scale `P(e)`: exact unless the borrow meets a zero digit. */
  lemma Subtracted(was: seq<bigit>, e: nat, t: seq<bigit>, start: nat)
    requires start + |t| <= |was| && P(e) * Val(was) >= P(e + start) * Val(t)
    ensures var j, borrow, passed := start + |t|, BorrowOf(was, t, start), Passed(was, t, start);
            var difference := P(e) * Val(was) - P(e + start) * Val(t);
            && (borrow == 0 ==> P(e) * Val(passed) == difference)
            && (borrow > 0 ==> j < |was|)
            && (borrow > 0 && was[j] > 0 ==> P(e) * Val(passed[j := was[j] - 1]) == difference)
            && (borrow > 0 && was[j] == 0 ==> P(e) * Val(passed[j := B - 2]) > difference)
  {
    var j, passed := start + |t|, Passed(was, t, start);
    var wrong := if j < |passed| then Val(passed[j := B - 2]) else 0;
    Scaled(Val(was), wrong, Val(t), e, start);
    PassedValue(was, t, start);
    Outcomes(passed, j, BorrowOf(was, t, start), Val(was) - P(start) * Val(t));
    assert j < |was| ==> passed[j] == passed[j..][0] == was[j];
  }

  /** The digits once the last borrow has been dealt with the way the code does it. */
  predicate AfterLoops(was: seq<bigit>, t: seq<bigit>, start: nat, now: seq<bigit>)
    requires start + |t| <= |was|
  {
    var j, borrow, passed := start + |t|, BorrowOf(was, t, start), Passed(was, t, start);
    if borrow == 0 then now == passed
    else j < |was| && now == passed[j := if passed[j] > 0 then passed[j] - 1 else B - 2]
  }

  lemma AfterPaying(was: seq<bigit>, e: nat, t: seq<bigit>, start: nat, now: seq<bigit>)
    requires start + |t| <= |was| && P(e) * Val(was) >= P(e + start) * Val(t)
    requires AfterLoops(was, t, start, now)
    ensures var stalls := BorrowOf(was, t, start) > 0 && was[start + |t|] == 0;
            P(e) * Val(now) == P(e) * Val(was) - P(e + start) * Val(t) <==> !stalls
  {
    Subtracted(was, e, t, start);
    var j, passed := start + |t|, Passed(was, t, start);
    assert j < |was| ==> passed[j] == passed[j..][0] == was[j];
  }

  lemma OneMoreTime(q: nat, d: nat)
    ensures (q + 1) * d == q * d + d
  {
  }

  lemma FewTimes(q: nat, d: nat, rest: nat, k: nat)
    requires q * d + rest < k * d
    ensures q < k
  {
    if k <= q {
      MulMono(k, q, d);
    }
  }

  // ---- One number in two forms ----

  lemma {:induction false} SameDigits(a: seq<bigit>, b: seq<bigit>)
    requires |a| == |b| && Val(a) == Val(b)
    ensures a == b
  {
    if a != [] {
      var n := |a| - 1;
      ValBound(a[..n]);
      ValBound(b[..n]);
      SameTop(a[n], Val(a[..n]), b[n], Val(b[..n]), P(n));
      SameDigits(a[..n], b[..n]);
    }
  }

  lemma SameTop(x: nat, v: nat, y: nat, w: nat, p: nat)
    requires v + x * p == w + y * p && v < p && w < p
    ensures x == y && v == w
  {
    if x < y {
      MulMono(x + 1, y, p);
    } else if y < x {
      MulMono(y + 1, x, p);
    }
  }

  lemma Cancel(p: nat, x: nat, y: nat)
    requires p > 0 && p * x == p * y
    ensures x == y
  {
    if x < y {
      OneMore(x, y, p);
    } else if y < x {
      OneMore(y, x, p);
    }
  }

  /** Low zero digits in the first take the place of a larger exponent in the second. */
  predicate HoldsZeros(l: seq<bigit>, e: nat, r: seq<bigit>, f: nat) {
    e < f && |l| + e == |r| + f && AllZero(l[..f - e]) && l[f - e..] == r
  }

  lemma DropScale(l: seq<bigit>, e: nat, r: seq<bigit>, f: nat)
    requires e <= f && P(e) * Val(l) == P(f) * Val(r)
    ensures Val(l) == P(f - e) * Val(r)
  {
    PAdd(e, f - e);
    Assoc(P(e), P(f - e), Val(r));
    Cancel(P(e), Val(l), P(f - e) * Val(r));
  }

  lemma TwoFormsAre(l: seq<bigit>, e: nat, r: seq<bigit>, f: nat)
    requires l != [] && l[|l| - 1] != 0 && r != [] && r[|r| - 1] != 0 && e < f
    ensures P(e) * Val(l) == P(f) * Val(r) <==> HoldsZeros(l, e, r, f)
  {
    if HoldsZeros(l, e, r, f) {
      ZerosHeld(l[..f - e], l, e, r, f);
    }
    if P(e) * Val(l) == P(f) * Val(r) {
      if |l| + e > |r| + f {
        LongerFull(l, e, r, f);
      } else if |l| + e < |r| + f {
        LongerFull(r, f, l, e);
      } else {
        SameLength(l, e, r, f, Zeros(f - e));
      }
    }
  }

  lemma ZerosHeld(low: seq<bigit>, l: seq<bigit>, e: nat, r: seq<bigit>, f: nat)
    requires AllZero(low) && |low| + e == f && l == low + r
    ensures P(e) * Val(l) == P(f) * Val(r)
  {
    ExtraDigits(low, r, l, e, f);
    ZeroDigits(low);
  }

  lemma SameLength(l: seq<bigit>, e: nat, r: seq<bigit>, f: nat, low: seq<bigit>)
    requires e < f && |l| + e == |r| + f && P(e) * Val(l) == P(f) * Val(r) && low == Zeros(f - e)
    ensures HoldsZeros(l, e, r, f)
  {
    DropScale(l, e, r, f);
    ValShifted(f - e, r);
    SameDigits(l, low + r);
  }

  /** A number with a larger exponent needs a low zero digit from the one it equals. */
  lemma LowestZero(l: seq<bigit>, e: nat, r: seq<bigit>, f: nat)
    requires l != [] && e < f && P(e) * Val(l) == P(f) * Val(r)
    ensures l[0] == 0
  {
    DropScale(l, e, r, f);
    ValCons(l[0], l[1..]);
    assert l == [l[0]] + l[1..];
    Assoc(B, P(f - e - 1), Val(r));
    SameTop(Val(l[1..]), l[0], P(f - e - 1) * Val(r), 0, B);
  }
}
