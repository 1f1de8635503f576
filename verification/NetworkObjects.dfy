/** The objects carried by UDP posts and TCP packets: their texts, their encodings, their readers. */
module NetworkObjects {
  import opened Bytes
  import opened ByteOrder
  import opened BitStream
  import opened Decimal

  const MINUS: byte := 45
  const POINT: byte := 46

  const RPC_CLIENT_ANNOUNCE: byte := 1
  const RPC_SUBSCRIBE: byte := 2
  const RPC_UNSUBSCRIBE: byte := 3
  const RPC_MESSAGE: byte := 4

  const TYPE_INT: byte := 0
  const TYPE_SHORTREAL: byte := 1
  const TYPE_FLOAT: byte := 2
  const TYPE_STRING: byte := 3

  const TOPIC_SIZE := 50
  const STRING_SIZE := 1500

  predicate IsValidRPC(rpc: byte) {
    0 < rpc < 5
  }

  // ---- Number texts ----

  function Signed(sign: byte, text: Text): Text {
    if sign != 0 then [MINUS] + text else text
  }

  /** A point before the last `k` characters. */
  function Pointed(s: Text, k: nat): Text
    requires k <= |s|
  {
    s[..|s| - k] + [POINT] + s[|s| - k..]
  }

  lemma SignedPointed(sign: byte, s: Text, k: nat)
    requires k <= |s|
    ensures Pointed(Signed(sign, s), k) == Signed(sign, Pointed(s, k))
  {
  }

  function IntText(sign: byte, number: nat): Text {
    Signed(sign, Digits(number))
  }

  function ShortRealText(number: nat): Text {
    ZeroPaddedValue(number, 3);
    Pointed(ZeroPadded(number, 3), 2)
  }

  function FloatText(sign: byte, number: nat, exponent: nat): Text {
    ZeroPaddedValue(number, exponent + 1);
    Signed(sign, if exponent == 0 then Digits(number) else Pointed(ZeroPadded(number, exponent + 1), exponent))
  }

  /** `std::to_string`. */
  method ToString(number: nat) returns (text: Text)
    requires number < 0x1_0000_0000
    ensures text == Digits(number)
  {
    text := WritePadded(number, 0);
    assert [] + Digits(number) == Digits(number);
  }

  /** `_str.insert(_str.length() - k, ".")`. */
  method InsertPoint(s: Text, k: nat) returns (text: Text)
    requires k <= |s|
    ensures text == Pointed(s, k)
  {
    text := s[..|s| - k] + [POINT] + s[|s| - k..];
  }

  class Int {
    var text: Text
    var sign: byte
    var number: nat

    constructor ()
      ensures number < 0x1_0000_0000
    {
      text, sign, number := [], 0, 0;
    }

    method ConstructString()
      requires number < 0x1_0000_0000
      modifies this`text
      ensures text == IntText(sign, number)
    {
      text := [];
      if sign != 0 {
        text := text + [MINUS];
      }
      var digits := ToString(number);
      text := text + digits;
    }

    method Read(bs: BitStream) returns (count: nat)
      requires bs.Valid()
      modifies this, bs`readPtr
      ensures bs.Valid() && count == Min(5, |old(bs.Unread())|) && bs.Unread() == old(bs.Unread())[count..]
      ensures count == 5 ==> text == IntText(old(bs.Unread())[0], FromBigEndian(old(bs.Unread())[1..5]))
    {
      PowersOf256();
      ghost var b := bs.Unread();
      count, sign := bs.ReadByte();
      var more;
      more, number := bs.ReadInt(4);
      count := count + more;
      ConstructString();
      if count == 5 {
        assert b[1..][..4] == b[1..5];
      }
    }
  }

  class ShortReal {
    var text: Text
    var number: nat

    constructor () {
      text, number := [], 0;
    }

    method ConstructString()
      requires number < 0x1_0000_0000
      modifies this`text
      ensures text == ShortRealText(number)
    {
      text := WritePadded(number, 3);
      ZeroPaddedValue(number, 3);
      text := InsertPoint(text, 2);
    }

    method Read(bs: BitStream) returns (count: nat)
      requires bs.Valid()
      modifies this, bs`readPtr
      ensures bs.Valid() && count == Min(2, |old(bs.Unread())|) && bs.Unread() == old(bs.Unread())[count..]
      ensures count == 2 ==> text == ShortRealText(FromBigEndian(old(bs.Unread())[..2]))
    {
      PowersOf256();
      count, number := bs.ReadInt(2);
      ConstructString();
    }
  }

  class Float {
    var text: Text
    var sign: byte
    var number: nat
    var exponent: byte

    constructor () {
      text, sign, number, exponent := [], 0, 0, 0;
    }

    method ConstructString()
      requires number < 0x1_0000_0000
      modifies this`text
      ensures text == FloatText(sign, number, exponent)
    {
      text := [];
      if sign != 0 {
        text := text + [MINUS];
      }
      if exponent == 0 {
        var digits := ToString(number);
        text := text + digits;
        assert text == Signed(sign, Digits(number));
      } else {
        ZeroPaddedValue(number, exponent + 1);
        var digits := WritePadded(number, exponent + 1);
        text := text + digits;
        assert text == Signed(sign, digits);
        text := InsertPoint(text, exponent);
        SignedPointed(sign, digits, exponent);
      }
    }

    method Read(bs: BitStream) returns (count: nat)
      requires bs.Valid()
      modifies this, bs`readPtr
      ensures bs.Valid() && count == Min(6, |old(bs.Unread())|) && bs.Unread() == old(bs.Unread())[count..]
      ensures count == 6 ==>
        var b := old(bs.Unread()); text == FloatText(b[0], FromBigEndian(b[1..5]), b[5])
    {
      PowersOf256();
      ghost var b := bs.Unread();
      count, sign := bs.ReadByte();
      var more;
      more, number := bs.ReadInt(4);
      count := count + more;
      more, exponent := bs.ReadByte();
      count := count + more;
      ConstructString();
      if count == 6 {
        assert b[1..][..4] == b[1..5] && b[1..][4..][0] == b[5];
      }
    }
  }

  lemma PowersOf256()
    ensures Pow256(1) == 256 && Pow256(2) == 0x1_0000 && Pow256(4) == 0x1_0000_0000
  {
    assert Pow256(2) == 256 * Pow256(1) && Pow256(3) == 256 * Pow256(2);
  }
}
