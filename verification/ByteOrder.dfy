/** Integers on the wire: `htonT` on either kind of host gives big-endian bytes. */
module ByteOrder {
  import opened Bytes

  datatype Host = LittleEndianHost | BigEndianHost

  function Pow256(n: nat): (p: nat)
    ensures p > 0
  {
    if n == 0 then 1 else 256 * Pow256(n - 1)
  }

  /** The low `n` bytes of `v`, least significant first. */
  function LittleEndian(v: nat, n: nat): (bs: seq<byte>)
    ensures |bs| == n
  {
    if n == 0 then [] else [v % 256] + LittleEndian(v / 256, n - 1)
  }

  /** The low `n` bytes of `v`, most significant first. */
  function BigEndian(v: nat, n: nat): (bs: seq<byte>)
    ensures |bs| == n
  {
    if n == 0 then [] else BigEndian(v / 256, n - 1) + [v % 256]
  }

  function FromBigEndian(bs: seq<byte>): nat {
    if bs == [] then 0 else FromBigEndian(bs[..|bs| - 1]) * 256 + bs[|bs| - 1]
  }

  /** Bytes behind their 16-bit length: a text in a stream, or a message on the wire. */
  function Prefixed(bs: seq<byte>): seq<byte> {
    BigEndian(|bs|, 2) + bs
  }

  function Reversed(bs: seq<byte>): (r: seq<byte>)
    ensures |r| == |bs|
  {
    if bs == [] then [] else Reversed(bs[1..]) + [bs[0]]
  }

  /** How an integer of `n` bytes lies in the memory of a host. */
  function InMemory(host: Host, v: nat, n: nat): (bs: seq<byte>)
    ensures |bs| == n
  {
    match host
    case LittleEndianHost => LittleEndian(v, n)
    case BigEndianHost => BigEndian(v, n)
  }

  function Hton(host: Host, bs: seq<byte>): (r: seq<byte>)
    ensures |r| == |bs|
  {
    match host
    case LittleEndianHost => Reversed(bs)
    case BigEndianHost => bs
  }

  lemma {:induction false} ReversedLittleEndian(v: nat, n: nat)
    ensures Reversed(LittleEndian(v, n)) == BigEndian(v, n)
  {
    if n > 0 {
      ReversedLittleEndian(v / 256, n - 1);
      assert LittleEndian(v, n)[1..] == LittleEndian(v / 256, n - 1);
    }
  }

  lemma {:induction false} ReversedSnoc(bs: seq<byte>, b: byte)
    ensures Reversed(bs + [b]) == [b] + Reversed(bs)
  {
    if bs != [] {
      ReversedSnoc(bs[1..], b);
      assert (bs + [b])[1..] == bs[1..] + [b];
    }
  }

  function FromLittleEndian(bs: seq<byte>): nat {
    if bs == [] then 0 else bs[0] + 256 * FromLittleEndian(bs[1..])
  }

  function FromMemory(host: Host, bs: seq<byte>): nat {
    match host
    case LittleEndianHost => FromLittleEndian(bs)
    case BigEndianHost => FromBigEndian(bs)
  }

  lemma {:induction false} FromLittleEndianReversed(bs: seq<byte>)
    ensures FromLittleEndian(Reversed(bs)) == FromBigEndian(bs)
  {
    if bs != [] {
      var init, last := bs[..|bs| - 1], bs[|bs| - 1];
      assert bs == init + [last];
      ReversedSnoc(init, last);
      FromLittleEndianReversed(init);
      assert ([last] + Reversed(init))[1..] == Reversed(init);
    }
  }

  /** The value received does not depend on the host. */
  lemma HostOrder(host: Host, bs: seq<byte>)
    ensures FromMemory(host, Hton(host, bs)) == FromBigEndian(bs)
  {
    FromLittleEndianReversed(bs);
  }

  /** The bytes sent do not depend on the host. */
  lemma NetworkOrder(host: Host, v: nat, n: nat)
    ensures Hton(host, InMemory(host, v, n)) == BigEndian(v, n)
  {
    ReversedLittleEndian(v, n);
  }

  lemma {:induction false} FromBigEndianBound(bs: seq<byte>)
    ensures FromBigEndian(bs) < Pow256(|bs|)
  {
    if bs != [] {
      FromBigEndianBound(bs[..|bs| - 1]);
    }
  }

  lemma {:induction false} BigEndianRoundTrip(v: nat, n: nat)
    ensures FromBigEndian(BigEndian(v, n)) == v % Pow256(n)
  {
    if n > 0 {
      var high := BigEndian(v / 256, n - 1);
      assert BigEndian(v, n)[..n - 1] == high;
      BigEndianRoundTrip(v / 256, n - 1);
      DivModSplit(v, Pow256(n - 1));
    }
  }

  lemma DivModSplit(v: nat, p: nat)
    requires p > 0
    ensures (v / 256 % p) * 256 + v % 256 == v % (256 * p)
  {
    var q, r := v / 256 / p, v / 256 % p;
    assert v / 256 == q * p + r;
    var low := r * 256 + v % 256;
    assert v == q * (256 * p) + low;
    assert low < 256 * p by {
      assert (r + 1) * 256 <= p * 256;
    }
    ModUnique(v, 256 * p, q, low);
  }

  lemma MulAtLeast(k: nat, m: nat)
    requires k > 0
    ensures k * m >= m
  {
    assert k * m == (k - 1) * m + m;
  }

  lemma ModUnique(v: nat, m: nat, q: nat, r: nat)
    requires m > 0 && r < m && v == q * m + r
    ensures v % m == r && v / m == q
  {
    var d := v / m;
    assert (q - d) * m == v % m - r;
    if d < q {
      MulAtLeast(q - d, m);
    } else if q < d {
      assert (d - q) * m == r - v % m;
      MulAtLeast(d - q, m);
    }
  }

  /** Unequal byte strings of one length denote unequal numbers: the encoding is also onto. */
  lemma {:induction false} FromBigEndianRoundTrip(bs: seq<byte>)
    ensures BigEndian(FromBigEndian(bs), |bs|) == bs
  {
    if bs != [] {
      FromBigEndianRoundTrip(bs[..|bs| - 1]);
      assert bs == bs[..|bs| - 1] + [bs[|bs| - 1]];
    }
  }
}
