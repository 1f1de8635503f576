/** What a datagram means, read off its bytes: 50 bytes of topic, one byte of type, and the value. */
module Posts {
  import opened Bytes
  import opened ByteOrder
  import opened Decimal
  import opened NetworkObjects
  import opened NumberLaws
  import opened Messages

  /** The text in a fixed field ends at the first NUL, or fills the field. */
  predicate TextIn(t: Text, field: seq<byte>) {
    t <= field && 0 !in t && (t == field || field[|t|] == 0)
  }

  lemma {:induction false} CStringIs(field: seq<byte>)
    ensures TextIn(CString(field), field)
  {
    if field != [] && field[0] != 0 {
      CStringIs(field[1..]);
      assert field == [field[0]] + field[1..];
    }
  }

  lemma OneTextIn(t: Text, u: Text, field: seq<byte>)
    requires TextIn(t, field) && TextIn(u, field)
    ensures t == u
  {
    assert forall k :: 0 <= k < |t| ==> t[k] == field[k] && t[k] != 0;
    assert forall k :: 0 <= k < |u| ==> u[k] == field[k] && u[k] != 0;
  }

  // ---- Every datagram ----

  /** Too short for its topic and type, or for the value of that type. */
  predicate TooShort(bs: seq<byte>) {
    || |bs| < 51 || (bs[50] == 0 && |bs| < 56) || (bs[50] == 1 && |bs| < 53)
    || (bs[50] == 2 && |bs| < 57) || (bs[50] == 3 && |bs| < 52)
  }

  lemma RejectedIff(bs: seq<byte>)
    ensures DecodePost(bs) == None <==> TooShort(bs)
  {
  }

  /** Two bytes, most significant first. */
  function Number16(high: nat, low: nat): nat {
    high * 0x100 + low
  }

  /** Four bytes, most significant first. */
  function Number32(bs: seq<byte>): nat
    requires |bs| == 4
  {
    Number16(bs[0], bs[1]) * 0x1_0000 + Number16(bs[2], bs[3])
  }

  /** No superfluous zeros in front, and no point at the end. */
  predicate Plain(s: Text) {
    s != [] && s[0] != MINUS && s[|s| - 1] != POINT && (|s| > 1 && s[0] == ZERO ==> s[1] == POINT)
  }

  predicate Prints(text: Text, negative: bool, number: nat, exponent: nat) {
    ReadNumber(text) == Reading(negative, number, exponent) && Plain(Unsigned(text))
  }

  /** What the post of a datagram says, type by type: an integer, a number with two decimals, a number with
      as many as its last byte says, a string; nothing for any other type. */
  predicate Says(bs: seq<byte>, post: PostData)
    requires !TooShort(bs)
  {
    && TextIn(post.topic, bs[..50]) && post.kind == bs[50]
    && (bs[50] == 0 ==> Prints(post.text, bs[51] != 0, Number32(bs[52..56]), 0))
    && (bs[50] == 1 ==> Prints(post.text, false, Number16(bs[51], bs[52]), 2))
    && (bs[50] == 2 ==> Prints(post.text, bs[51] != 0, Number32(bs[52..56]), bs[56]))
    && (bs[50] == 3 ==> TextIn(post.text, bs[51..Min(|bs|, 1551)]))
    && (bs[50] > 3 ==> post.text == [])
  }

  lemma PostSays(bs: seq<byte>)
    requires !TooShort(bs)
    ensures Says(bs, DecodePost(bs).value)
  {
    CStringIs(bs[..50]);
    var body := bs[51..];
    if bs[50] == 0 {
      Bytes4(body[1..5]);
      assert body[1..5] == bs[52..56];
      PrintsInt(bs[51], Number32(bs[52..56]));
    } else if bs[50] == 1 {
      Bytes2(body[..2]);
      PrintsShortReal(Number16(bs[51], bs[52]));
    } else if bs[50] == 2 {
      Bytes4(body[1..5]);
      assert body[1..5] == bs[52..56];
      PrintsFloat(bs[51], Number32(bs[52..56]), bs[56]);
    } else if bs[50] == 3 {
      assert body[..Min(1500, |body|)] == bs[51..Min(|bs|, 1551)];
      CStringIs(bs[51..Min(|bs|, 1551)]);
    }
  }

  lemma Bytes2(bs: seq<byte>)
    requires |bs| == 2
    ensures FromBigEndian(bs) == Number16(bs[0], bs[1])
  {
    assert bs[..1][..0] == [];
    assert FromBigEndian(bs[..1]) == bs[0];
  }

  lemma Bytes4(bs: seq<byte>)
    requires |bs| == 4
    ensures FromBigEndian(bs) == Number32(bs)
  {
    var three, two := bs[..3], bs[..2];
    assert three[..2] == two;
    Bytes2(two);
    assert FromBigEndian(three) == FromBigEndian(two) * 256 + bs[2];
  }

  // ---- Number texts ----

  lemma {:induction false} DigitsPlain(n: nat)
    ensures n > 0 ==> Digits(n)[0] != ZERO
    ensures n < 10 ==> |Digits(n)| == 1
  {
    if n >= 10 {
      DigitsPlain(n / 10);
    }
  }

  lemma PrintsInt(sign: byte, number: nat)
    ensures Prints(IntText(sign, number), sign != 0, number, 0)
  {
    IntLossless(sign, number);
    DigitsPlain(number);
    SignedPlain(sign, Digits(number));
  }

  lemma SignedPlain(sign: byte, s: Text)
    requires Plain(s)
    ensures Plain(Unsigned(Signed(sign, s)))
  {
    if sign != 0 {
      assert Signed(sign, s)[1..] == s;
    }
  }

  lemma PointedPlain(digits: Text, k: nat)
    requires AllDigits(digits) && 0 < k < |digits| && (|digits| == k + 1 || digits[0] != ZERO)
    ensures Plain(Pointed(digits, k))
  {
  }

  /** Padding is in front only where the number is too short. */
  lemma PaddedFront(number: nat, width: nat)
    requires width > 0
    ensures var digits := ZeroPadded(number, width);
            AllDigits(digits) && |digits| >= width && (|digits| == width || digits[0] != ZERO)
  {
    ZeroPaddedValue(number, width);
    DigitsPlain(number);
  }

  lemma PrintsShortReal(number: nat)
    ensures Prints(ShortRealText(number), false, number, 2)
  {
    ShortRealLossless(number);
    PaddedFront(number, 3);
    PointedPlain(ZeroPadded(number, 3), 2);
    SignedPlain(0, ShortRealText(number));
  }

  lemma PrintsFloat(sign: byte, number: nat, exponent: byte)
    ensures Prints(FloatText(sign, number, exponent), sign != 0, number, exponent)
  {
    FloatLossless(sign, number, exponent);
    if exponent == 0 {
      PrintsInt(sign, number);
    } else {
      var digits := ZeroPadded(number, exponent + 1);
      PaddedFront(number, exponent + 1);
      PointedPlain(digits, exponent);
      SignedPlain(sign, Pointed(digits, exponent));
    }
  }

  // ---- Datagrams as a sender builds them ----

  predicate FieldText(t: Text, size: nat) {
    |t| <= size && 0 !in t
  }

  /** A topic of at most 50 bytes, padded with NUL. */
  function TopicField(topic: Text): seq<byte>
    requires FieldText(topic, 50)
  {
    topic + seq(50 - |topic|, _ => 0)
  }

  lemma Behind(topic: Text, body: seq<byte>, bs: seq<byte>)
    requires FieldText(topic, 50) && bs == TopicField(topic) + body && !TooShort(bs)
    ensures |bs| == 50 + |body| && bs[50..] == body
    ensures DecodePost(bs).Some? && DecodePost(bs).value.topic == topic && Says(bs, DecodePost(bs).value)
  {
    RejectedIff(bs);
    PostSays(bs);
    assert bs[..50] == TopicField(topic);
    OneTextIn(DecodePost(bs).value.topic, topic, bs[..50]);
  }

  lemma Places(bs: seq<byte>, body: seq<byte>)
    requires |bs| == 50 + |body| && bs[50..] == body
    ensures forall i :: 0 <= i < |body| ==> bs[50 + i] == body[i]
    ensures forall i, j :: 50 <= i <= j <= |bs| ==> bs[i..j] == body[i - 50..j - 50]
  {
  }

  /** A string post gives back its topic and its whole text. */
  lemma StringPost(topic: Text, text: Text)
    requires FieldText(topic, 50) && FieldText(text, 1500) && text != []
    ensures DecodePost(TopicField(topic) + ([3] + text)) == Some(PostData(topic, 3, text))
  {
    var body := [3] + text;
    var bs := TopicField(topic) + body;
    assert bs[50] == body[0];
    Behind(topic, body, bs);
    Places(bs, body);
    assert bs[51..Min(|bs|, 1551)] == text;
    OneTextIn(DecodePost(bs).value.text, text, text);
  }

  lemma IntPost(topic: Text, sign: byte, number: nat, more: seq<byte>)
    requires FieldText(topic, 50) && number < 0x1_0000_0000
    ensures var post := DecodePost(TopicField(topic) + ([0, sign] + BigEndian(number, 4) + more));
            post.Some? && post.value.topic == topic && post.value.kind == 0 &&
            Prints(post.value.text, sign != 0, number, 0)
  {
    var body := [0, sign] + BigEndian(number, 4) + more;
    var bs := TopicField(topic) + body;
    assert bs[50] == body[0];
    Behind(topic, body, bs);
    Places(bs, body);
    assert body[2..6] == BigEndian(number, 4);
    WholeNumber(number, 4);
    Bytes4(BigEndian(number, 4));
  }

  lemma ShortRealPost(topic: Text, number: nat, more: seq<byte>)
    requires FieldText(topic, 50) && number < 0x1_0000
    ensures var post := DecodePost(TopicField(topic) + ([1] + BigEndian(number, 2) + more));
            post.Some? && post.value.topic == topic && post.value.kind == 1 &&
            Prints(post.value.text, false, number, 2)
  {
    var body := [1] + BigEndian(number, 2) + more;
    var bs := TopicField(topic) + body;
    assert bs[50] == body[0];
    Behind(topic, body, bs);
    Places(bs, body);
    assert body[1] == BigEndian(number, 2)[0] && body[2] == BigEndian(number, 2)[1];
    WholeNumber(number, 2);
    Bytes2(BigEndian(number, 2));
  }

  lemma FloatPost(topic: Text, sign: byte, number: nat, exponent: byte, more: seq<byte>)
    requires FieldText(topic, 50) && number < 0x1_0000_0000
    ensures var post := DecodePost(TopicField(topic) + ([2, sign] + BigEndian(number, 4) + [exponent] + more));
            post.Some? && post.value.topic == topic && post.value.kind == 2 &&
            Prints(post.value.text, sign != 0, number, exponent)
  {
    var body := [2, sign] + BigEndian(number, 4) + [exponent] + more;
    var bs := TopicField(topic) + body;
    assert bs[50] == body[0];
    Behind(topic, body, bs);
    Places(bs, body);
    assert body[2..6] == BigEndian(number, 4) && body[6] == exponent;
    WholeNumber(number, 4);
    Bytes4(BigEndian(number, 4));
  }

  lemma WholeNumber(v: nat, n: nat)
    requires (n == 2 && v < 0x1_0000) || (n == 4 && v < 0x1_0000_0000)
    ensures FromBigEndian(BigEndian(v, n)) == v
  {
    PowersOf256();
    WholeField(v, n);
  }
}
