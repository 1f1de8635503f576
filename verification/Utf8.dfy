/** The branchless UTF-8 decoder and the transcoder to UTF-16 built on it. Bytes and code units are
    bit vectors, as the code works on their bits. */
module Utf8 {
  import opened Bytes

  type octet = bv8
  type unit = bv16

  // ---- RFC 3629: the syntax of section 4, and the encoding of section 3 ----

  predicate Tail(b: octet) {
    0x80 <= b <= 0xBF
  }

  predicate Two(b0: octet, b1: octet) {
    0xC2 <= b0 <= 0xDF && Tail(b1)
  }

  predicate Three(b0: octet, b1: octet, b2: octet) {
    || (b0 == 0xE0 && 0xA0 <= b1 <= 0xBF && Tail(b2))
    || (0xE1 <= b0 <= 0xEC && Tail(b1) && Tail(b2))
    || (b0 == 0xED && 0x80 <= b1 <= 0x9F && Tail(b2))
    || (0xEE <= b0 <= 0xEF && Tail(b1) && Tail(b2))
  }

  predicate Four(b0: octet, b1: octet, b2: octet, b3: octet) {
    || (b0 == 0xF0 && 0x90 <= b1 <= 0xBF && Tail(b2) && Tail(b3))
    || (0xF1 <= b0 <= 0xF3 && Tail(b1) && Tail(b2) && Tail(b3))
    || (b0 == 0xF4 && 0x80 <= b1 <= 0x8F && Tail(b2) && Tail(b3))
  }

  /** The length of the well-formed sequence the string starts with; 0 if there is none. */
  function SequenceLength(s: seq<octet>): (n: nat)
    ensures n <= 4 && n <= |s|
  {
    if |s| >= 1 && s[0] <= 0x7F then 1
    else if |s| >= 2 && Two(s[0], s[1]) then 2
    else if |s| >= 3 && Three(s[0], s[1], s[2]) then 3
    else if |s| >= 4 && Four(s[0], s[1], s[2], s[3]) then 4
    else 0
  }

  /** The scalar value of the leading sequence, from the payload of each byte. */
  function ScalarAt(s: seq<octet>): bv32
    requires SequenceLength(s) > 0
  {
    match SequenceLength(s)
    case 1 => s[0] as bv32
    case 2 => Scalar2(s[0], s[1])
    case 3 => Scalar3(s[0], s[1], s[2])
    case _ => Scalar4(s[0], s[1], s[2], s[3])
  }

  function Scalar2(b0: octet, b1: octet): bv32 {
    (b0 as bv32 - 0xC0) * 64 + More(b1)
  }

  function Scalar3(b0: octet, b1: octet, b2: octet): bv32 {
    ((b0 as bv32 - 0xE0) * 64 + More(b1)) * 64 + More(b2)
  }

  function Scalar4(b0: octet, b1: octet, b2: octet, b3: octet): bv32 {
    (((b0 as bv32 - 0xF0) * 64 + More(b1)) * 64 + More(b2)) * 64 + More(b3)
  }

  function More(b: octet): bv32 {
    b as bv32 - 0x80
  }

  /** A Unicode scalar value: a code point that is not a surrogate. */
  predicate IsScalar(c: bv32) {
    c <= 0x10FFFF && !(0xD800 <= c <= 0xDFFF)
  }

  predicate AllScalars(cs: seq<bv32>) {
    forall i :: 0 <= i < |cs| ==> IsScalar(cs[i])
  }

  function Payload(c: bv32): octet {
    0x80 | (c & 0x3F) as octet
  }

  function Lead2(c: bv32): octet
    requires c <= 0x7FF
  {
    0xC0 | (c >> 6) as octet
  }

  function Lead3(c: bv32): octet
    requires c <= 0xFFFF
  {
    0xE0 | (c >> 12) as octet
  }

  function Lead4(c: bv32): octet
    requires c <= 0x10FFFF
  {
    0xF0 | (c >> 18) as octet
  }

  function Utf8Of(c: bv32): seq<octet>
    requires IsScalar(c)
  {
    if c <= 0x7F then [c as octet]
    else if c <= 0x7FF then [Lead2(c), Payload(c)]
    else if c <= 0xFFFF then [Lead3(c), Payload(c >> 6), Payload(c)]
    else [Lead4(c), Payload(c >> 12), Payload(c >> 6), Payload(c)]
  }

  lemma FromOne(b0: octet)
    requires b0 <= 0x7F
    ensures b0 as bv32 <= 0x7F && (b0 as bv32) as octet == b0
  {
  }

  lemma FromTwo(b0: octet, b1: octet)
    requires Two(b0, b1)
    ensures var c := Scalar2(b0, b1); 0x7F < c <= 0x7FF && Lead2(c) == b0 && Payload(c) == b1
  {
  }

  lemma FromThree(b0: octet, b1: octet, b2: octet)
    requires Three(b0, b1, b2)
    ensures var c := Scalar3(b0, b1, b2);
            0x7FF < c <= 0xFFFF && IsScalar(c) && Lead3(c) == b0 && Payload(c >> 6) == b1 && Payload(c) == b2
  {
  }

  lemma FromFour(b0: octet, b1: octet, b2: octet, b3: octet)
    requires Four(b0, b1, b2, b3)
    ensures var c := Scalar4(b0, b1, b2, b3);
            0xFFFF < c <= 0x10FFFF && Lead4(c) == b0 && Payload(c >> 12) == b1 && Payload(c >> 6) == b2 && Payload(c) == b3
  {
  }

  lemma ToTwo(c: bv32)
    requires 0x7F < c <= 0x7FF
    ensures Two(Lead2(c), Payload(c)) && Scalar2(Lead2(c), Payload(c)) == c
  {
  }

  lemma ToThree(c: bv32)
    requires 0x7FF < c <= 0xFFFF && IsScalar(c)
    ensures Three(Lead3(c), Payload(c >> 6), Payload(c)) && Scalar3(Lead3(c), Payload(c >> 6), Payload(c)) == c
  {
  }

  lemma ToFour(c: bv32)
    requires 0xFFFF < c <= 0x10FFFF
    ensures Four(Lead4(c), Payload(c >> 12), Payload(c >> 6), Payload(c))
    ensures Scalar4(Lead4(c), Payload(c >> 12), Payload(c >> 6), Payload(c)) == c
  {
  }

  lemma OneByte(s: seq<octet>)
    requires SequenceLength(s) == 1
    ensures IsScalar(ScalarAt(s)) && Utf8Of(ScalarAt(s)) == s[..1]
  {
    FromOne(s[0]);
    assert s[..1] == [s[0]];
  }

  lemma TwoBytes(s: seq<octet>)
    requires SequenceLength(s) == 2
    ensures IsScalar(ScalarAt(s)) && Utf8Of(ScalarAt(s)) == s[..2]
  {
    FromTwo(s[0], s[1]);
    assert s[..2] == [s[0], s[1]];
  }

  lemma ThreeBytes(s: seq<octet>)
    requires SequenceLength(s) == 3
    ensures IsScalar(ScalarAt(s)) && Utf8Of(ScalarAt(s)) == s[..3]
  {
    FromThree(s[0], s[1], s[2]);
    assert s[..3] == [s[0], s[1], s[2]];
  }

  lemma FourBytes(s: seq<octet>)
    requires SequenceLength(s) == 4
    ensures IsScalar(ScalarAt(s)) && Utf8Of(ScalarAt(s)) == s[..4]
  {
    FromFour(s[0], s[1], s[2], s[3]);
    assert s[..4] == [s[0], s[1], s[2], s[3]];
  }

  /** The leading sequence is the encoding of its scalar. */
  lemma SequenceIsEncoding(s: seq<octet>)
    requires SequenceLength(s) > 0
    ensures IsScalar(ScalarAt(s)) && Utf8Of(ScalarAt(s)) == s[..SequenceLength(s)]
  {
    match SequenceLength(s)
    case 1 => OneByte(s);
    case 2 => TwoBytes(s);
    case 3 => ThreeBytes(s);
    case _ => FourBytes(s);
  }

  /** The encoding of a scalar is a sequence, whatever follows it. */
  lemma EncodingIsSequence(c: bv32, rest: seq<octet>)
    requires IsScalar(c)
    ensures SequenceLength(Utf8Of(c) + rest) == |Utf8Of(c)| && ScalarAt(Utf8Of(c) + rest) == c
  {
    if c <= 0x7F {
    } else if c <= 0x7FF {
      ToTwo(c);
    } else if c <= 0xFFFF {
      ToThree(c);
    } else {
      ToFour(c);
    }
  }

  // ---- The decoder ----

  /** The length by the top five bits of the first byte; 0 for none. */
  function Lengths(top: bv8): (len: nat)
    ensures len <= 4
  {
    if top < 16 then 1 else if top < 24 then 0 else if top < 28 then 2
    else if top < 30 then 3 else if top < 31 then 4 else 0
  }

  function Masks(len: nat): bv8 {
    if len == 0 then 0 else if len == 1 then 0x7f else if len == 2 then 0x1f else if len == 3 then 0x0f else 0x07
  }

  function Mins(len: nat): bv32 {
    if len == 0 then 4194304 else if len == 1 then 0 else if len == 2 then 128 else if len == 3 then 2048 else 65536
  }

  function ShiftC(len: nat): bv32 {
    if len == 0 then 0 else if len == 1 then 18 else if len == 2 then 12 else if len == 3 then 6 else 0
  }

  function ShiftE(len: nat): bv32 {
    if len == 0 then 0 else if len == 1 then 6 else if len == 2 then 4 else if len == 3 then 2 else 0
  }

  function CodePoint(b0: octet, b1: octet, b2: octet, b3: octet, len: nat): bv32 {
    var c := ((b0 & Masks(len)) as bv32) << 18;
    var c := c | (((b1 & 0x3f) as bv32) << 12);
    var c := c | (((b2 & 0x3f) as bv32) << 6);
    var c := c | ((b3 & 0x3f) as bv32);
    c >> ShiftC(len)
  }

  function Bit(b: bool): bv32 {
    if b then 1 else 0
  }

  function Errors(b1: octet, b2: octet, b3: octet, len: nat, c: bv32): bv32 {
    var e := Bit(c < Mins(len)) << 6;           // not the shortest form
    var e := e | (Bit(c >> 11 == 0x1b) << 7);   // surrogate half
    var e := e | (Bit(c > 0x10FFFF) << 8);      // out of range
    var e := e | ((b1 as bv32 & 0xc0) >> 2);
    var e := e | ((b2 as bv32 & 0xc0) >> 4);
    var e := e | (b3 as bv32 >> 6);
    var e := e ^ 0x2a;                          // the top two bits of each tail byte
    e >> ShiftE(len)
  }

  lemma ErrorsMean(b0: octet, b1: octet, b2: octet, b3: octet, len: nat, c: bv32)
    requires len == Lengths(b0 >> 3) && c == CodePoint(b0, b1, b2, b3, len)
    ensures b0 <= 0x7F || Two(b0, b1) || Three(b0, b1, b2) || Four(b0, b1, b2, b3) ==> Errors(b1, b2, b3, len, c) == 0
    ensures Errors(b1, b2, b3, len, c) == 0 ==> b0 <= 0x7F || Two(b0, b1) || Three(b0, b1, b2) || Four(b0, b1, b2, b3)
  {
  }

  lemma CodePointMeans(b0: octet, b1: octet, b2: octet, b3: octet, len: nat, c: bv32)
    requires len == Lengths(b0 >> 3) && c == CodePoint(b0, b1, b2, b3, len)
    ensures b0 <= 0x7F ==> len == 1 && c == b0 as bv32
    ensures Two(b0, b1) ==> len == 2 && c == Scalar2(b0, b1)
    ensures Three(b0, b1, b2) ==> len == 3 && c == Scalar3(b0, b1, b2)
    ensures Four(b0, b1, b2, b3) ==> len == 4 && c == Scalar4(b0, b1, b2, b3)
  {
  }

  /** Decodes the sequence at the start of four readable bytes: how far to move on, the code point
      and the error bits. */
  method Utf8Decode(buf: seq<octet>) returns (next: nat, c: bv32, e: bv32)
    requires |buf| >= 4
    ensures 1 <= next <= 4
    ensures e == 0 <==> SequenceLength(buf) > 0
    ensures e == 0 ==> next == SequenceLength(buf) && c == ScalarAt(buf)
  {
    var len := Lengths(buf[0] >> 3);
    next := len + if len == 0 then 1 else 0;
    c := CodePoint(buf[0], buf[1], buf[2], buf[3], len);
    e := Errors(buf[1], buf[2], buf[3], len, c);
    ErrorsMean(buf[0], buf[1], buf[2], buf[3], len, c);
    CodePointMeans(buf[0], buf[1], buf[2], buf[3], len, c);
  }

  // ---- Strings ----

  predicate WellFormed(s: seq<octet>) {
    s == [] || (SequenceLength(s) > 0 && WellFormed(s[SequenceLength(s)..]))
  }

  function Scalars(s: seq<octet>): seq<bv32>
    requires WellFormed(s)
  {
    if s == [] then [] else [ScalarAt(s)] + Scalars(s[SequenceLength(s)..])
  }

  function EncodeUtf8(cs: seq<bv32>): seq<octet>
    requires AllScalars(cs)
  {
    if cs == [] then [] else Utf8Of(cs[0]) + EncodeUtf8(cs[1..])
  }

  /** A well-formed string is the encoding of its scalars. */
  lemma {:induction false} WellFormedIsEncoded(s: seq<octet>)
    requires WellFormed(s)
    ensures AllScalars(Scalars(s)) && EncodeUtf8(Scalars(s)) == s
  {
    if s != [] {
      SequenceIsEncoding(s);
      WellFormedIsEncoded(s[SequenceLength(s)..]);
    }
  }

  /** The encoding of any scalars is well formed, and decodes to them. */
  lemma {:induction false} EncodedIsWellFormed(cs: seq<bv32>)
    requires AllScalars(cs)
    ensures WellFormed(EncodeUtf8(cs)) && Scalars(EncodeUtf8(cs)) == cs
  {
    if cs != [] {
      EncodedIsWellFormed(cs[1..]);
      EncodingIsSequence(cs[0], EncodeUtf8(cs[1..]));
      assert EncodeUtf8(cs)[|Utf8Of(cs[0])|..] == EncodeUtf8(cs[1..]);
    }
  }

  // ---- RFC 2781 ----

  /** Section 2.1. */
  function Utf16Of(c: bv32): (units: seq<unit>)
    requires IsScalar(c)
    ensures 1 <= |units| <= 2
  {
    if c <= 0xFFFF then [c as unit]
    else
      [HighHalf(c - 0x10000), LowHalf(c - 0x10000)]
  }

  function HighHalf(u: bv32): unit
    requires u <= 0xFFFFF
  {
    0xD800 | (u >> 10) as unit
  }

  function LowHalf(u: bv32): unit {
    0xDC00 | (u & 0x3FF) as unit
  }

  function Joined(high: unit, low: unit): bv32 {
    ((high & 0x3FF) as bv32 << 10) | (low & 0x3FF) as bv32
  }

  lemma Halves(u: bv32)
    requires u <= 0xFFFFF
    ensures 0xD800 <= HighHalf(u) <= 0xDBFF && 0xDC00 <= LowHalf(u) <= 0xDFFF
    ensures Joined(HighHalf(u), LowHalf(u)) == u
  {
  }

  lemma HighSum(u: bv32)
    requires u <= 0xFFFFF
    ensures 0xD800 + (u >> 10) <= 0xFFFF && (0xD800 + (u >> 10)) as unit == HighHalf(u)
  {
  }

  lemma LowSum(u: bv32)
    ensures 0xDC00 + (u & 0x3FF) <= 0xFFFF && (0xDC00 + (u & 0x3FF)) as unit == LowHalf(u)
  {
  }

  lemma Single(c: bv32)
    requires c <= 0xFFFF
    ensures (c as unit) as bv32 == c && (IsScalar(c) ==> !(0xD800 <= c as unit <= 0xDFFF))
  {
  }

  function EncodeUtf16(cs: seq<bv32>): seq<unit>
    requires AllScalars(cs)
  {
    if cs == [] then [] else Utf16Of(cs[0]) + EncodeUtf16(cs[1..])
  }

  /** Section 2.2. */
  function DecodeUtf16(units: seq<unit>): Option<seq<bv32>> {
    if units == [] then Some([])
    else if !(0xD800 <= units[0] <= 0xDFFF) then Before(units[0] as bv32, DecodeUtf16(units[1..]))
    else if units[0] > 0xDBFF || |units| < 2 || !(0xDC00 <= units[1] <= 0xDFFF) then None
    else
      Before(Joined(units[0], units[1]) + 0x10000, DecodeUtf16(units[2..]))
  }

  function Before(c: bv32, rest: Option<seq<bv32>>): Option<seq<bv32>> {
    if rest.None? then None else Some([c] + rest.value)
  }

  lemma OneUtf16(c: bv32, rest: seq<unit>)
    requires IsScalar(c)
    ensures DecodeUtf16(Utf16Of(c) + rest) == Before(c, DecodeUtf16(rest))
  {
    if c <= 0xFFFF {
      SingleUtf16(c, rest);
    } else {
      PairUtf16(c, c - 0x10000, rest);
    }
  }

  lemma SingleUtf16(c: bv32, rest: seq<unit>)
    requires IsScalar(c) && c <= 0xFFFF
    ensures DecodeUtf16(Utf16Of(c) + rest) == Before(c, DecodeUtf16(rest))
  {
    OneUnit(c);
    Single(c);
    AloneInFront(Utf16Of(c), c, rest);
  }

  lemma AloneInFront(units: seq<unit>, c: bv32, rest: seq<unit>)
    requires |units| == 1 && !(0xD800 <= units[0] <= 0xDFFF) && units[0] as bv32 == c
    ensures DecodeUtf16(units + rest) == Before(c, DecodeUtf16(rest))
  {
    assert units == [units[0]];
    DecodeSingle(units[0], c, rest);
  }

  lemma OneUnit(c: bv32)
    requires IsScalar(c) && c <= 0xFFFF
    ensures Utf16Of(c) == [c as unit]
  {
  }

  lemma PairUtf16(c: bv32, u: bv32, rest: seq<unit>)
    requires IsScalar(c) && c > 0xFFFF && u == c - 0x10000
    ensures DecodeUtf16(Utf16Of(c) + rest) == Before(c, DecodeUtf16(rest))
  {
    Halves(u);
    DecodePair(HighHalf(u), LowHalf(u), c, rest);
    assert Utf16Of(c) == [HighHalf(u), LowHalf(u)];
  }

  lemma DecodeSingle(w: unit, c: bv32, rest: seq<unit>)
    requires !(0xD800 <= w <= 0xDFFF) && w as bv32 == c
    ensures DecodeUtf16([w] + rest) == Before(c, DecodeUtf16(rest))
  {
    assert ([w] + rest)[1..] == rest;
  }

  lemma DecodePair(high: unit, low: unit, c: bv32, rest: seq<unit>)
    requires 0xD800 <= high <= 0xDBFF && 0xDC00 <= low <= 0xDFFF && Joined(high, low) + 0x10000 == c
    ensures DecodeUtf16([high, low] + rest) == Before(c, DecodeUtf16(rest))
  {
    var units := [high, low] + rest;
    assert units[0] == high && units[1] == low && units[2..] == rest;
  }

  lemma {:induction false} Utf16RoundTrip(cs: seq<bv32>)
    requires AllScalars(cs)
    ensures DecodeUtf16(EncodeUtf16(cs)) == Some(cs)
  {
    if cs != [] {
      Utf16RoundTrip(cs[1..]);
      OneUtf16(cs[0], EncodeUtf16(cs[1..]));
      assert cs == [cs[0]] + cs[1..];
    }
  }

  // ---- The transcoder ----

  /** What is left to append for the rest of a string, or that it is malformed. */
  function Transcoded(s: seq<octet>): Option<seq<unit>> {
    var n := SequenceLength(s);
    if s == [] then Some([])
    else if n == 0 then None
    else After(LeadingUnits(s), Transcoded(s[n..]))
  }

  function LeadingUnits(s: seq<octet>): seq<unit>
    requires SequenceLength(s) > 0
  {
    SequenceIsEncoding(s);
    Utf16Of(ScalarAt(s))
  }

  function After(done: seq<unit>, rest: Option<seq<unit>>): Option<seq<unit>> {
    if rest.None? then None else Some(done + rest.value)
  }

  /** The transcoder accepts exactly the well-formed strings, and gives the UTF-16 of their scalars. */
  lemma {:induction false} TranscodedIs(s: seq<octet>)
    ensures Transcoded(s).Some? <==> WellFormed(s)
    ensures WellFormed(s) ==>
      && AllScalars(Scalars(s))
      && Transcoded(s) == Some(EncodeUtf16(Scalars(s)))
      && DecodeUtf16(Transcoded(s).value) == Some(Scalars(s))
  {
    if s != [] && SequenceLength(s) > 0 {
      TranscodedIs(s[SequenceLength(s)..]);
      SequenceIsEncoding(s);
    }
    if WellFormed(s) {
      Utf16RoundTrip(Scalars(s));
    }
  }

  /** Zeros after the end never complete a sequence, and four bytes are enough to see one. */
  lemma FirstFour(s: seq<octet>, zeros: seq<octet>)
    requires s != [] && |s| + |zeros| >= 4 && forall i :: 0 <= i < |zeros| ==> zeros[i] == 0
    ensures SequenceLength((s + zeros)[..4]) == SequenceLength(s)
    ensures SequenceLength(s) > 0 ==> ScalarAt((s + zeros)[..4]) == ScalarAt(s)
  {
  }

  lemma Window(s: seq<octet>, zeros: seq<octet>, at: nat)
    requires at <= |s| && at + 4 <= |s| + |zeros|
    ensures (s + zeros)[at..at + 4] == (s[at..] + zeros)[..4]
    ensures zeros == [] ==> (s + zeros)[at..at + 4] == s[at..at + 4]
  {
  }

  lemma AfterNothing(rest: Option<seq<unit>>)
    ensures After([], rest) == rest
  {
    if rest.Some? {
      assert [] + rest.value == rest.value;
    }
  }

  lemma NothingLeft(done: seq<unit>, s: seq<octet>)
    ensures After(done, Transcoded(s[|s|..])) == Some(done)
  {
    assert done + [] == done;
  }

  class Utf8ToUtf16 {
    var buffer: seq<unit>

    constructor ()
      ensures buffer == []
    {
      buffer := [];
    }

    /** Appends the code units of one character; None for the `invalid utf8` exception. */
    method Transcode(p: seq<octet>) returns (next: Option<nat>)
      requires |p| >= 4
      modifies this
      ensures next == if SequenceLength(p) > 0 then Some(SequenceLength(p)) else None
      ensures SequenceLength(p) > 0 ==> buffer == old(buffer) + LeadingUnits(p)
    {
      var n, c, error := Utf8Decode(p);
      if error != 0 {
        return None;
      }
      SequenceIsEncoding(p);
      Push(c);
      return Some(n);
    }

    /** One code unit, or a surrogate pair. */
    method Push(c: bv32)
      requires IsScalar(c)
      modifies this
      ensures buffer == old(buffer) + Utf16Of(c)
    {
      if c <= 0xFFFF {
        buffer := buffer + [c as unit];
      } else {
        var u := c - 0x10000;
        HighSum(u);
        LowSum(u);
        buffer := buffer + [(0xD800 + (u >> 10)) as unit];
        buffer := buffer + [(0xDC00 + (u & 0x3FF)) as unit];
      }
    }

    /** Transcode for the string `s` when the four bytes are its own, or zeros past its end. */
    method Advance(p: seq<octet>, ghost s: seq<octet>, ghost zeros: seq<octet>) returns (next: Option<nat>)
      requires s != [] && |s| + |zeros| >= 4 && (forall i :: 0 <= i < |zeros| ==> zeros[i] == 0)
      requires p == (s + zeros)[..4]
      modifies this
      ensures next.None? ==> Transcoded(s) == None
      ensures next.Some? ==>
                && 1 <= next.value <= |s|
                && After(old(buffer), Transcoded(s)) == After(buffer, Transcoded(s[next.value..]))
    {
      FirstFour(s, zeros);
      next := Transcode(p);
      if next.Some? {
        AfterAfter(old(buffer), LeadingUnits(s), Transcoded(s[next.value..]));
      }
    }

    /** The blocks of four bytes that lie inside the string. */
    method Blocks(s: seq<octet>) returns (p: Option<nat>)
      modifies this
      ensures p.None? ==> Transcoded(s) == None
      ensures p.Some? ==>
                && |s| - 3 <= p.value <= |s|
                && After(old(buffer), Transcoded(s)) == After(buffer, Transcoded(s[p.value..]))
    {
      var at := 0;
      if |s| >= 4 {
        var end := |s| - 4 + 1;
        while at < end
          invariant 0 <= at <= |s|
          invariant After(old(buffer), Transcoded(s)) == After(buffer, Transcoded(s[at..]))
        {
          Window(s, [], at);
          var next := Advance(s[at..at + 4], s[at..], []);
          if next.None? {
            return None;
          }
          assert s[at..][next.value..] == s[at + next.value..];
          at := at + next.value;
        }
      }
      return Some(at);
    }

    /** The last bytes, copied before zeros so that four can always be read. */
    method Rest(rest: seq<octet>) returns (ok: bool)
      requires 0 < |rest| < 4
      modifies this
      ensures !ok ==> Transcoded(rest) == None
      ensures ok ==> After(old(buffer), Transcoded(rest)) == Some(buffer)
    {
      var zeros: seq<octet> := seq(7 - |rest|, i => 0);
      var buf := rest + zeros;
      var at := 0;
      while true
        invariant 0 <= at < |rest|
        invariant After(old(buffer), Transcoded(rest)) == After(buffer, Transcoded(rest[at..]))
        decreases |rest| - at
      {
        Window(rest, zeros, at);
        var next := Advance(buf[at..at + 4], rest[at..], zeros);
        if next.None? {
          return false;
        }
        assert rest[at..][next.value..] == rest[at + next.value..];
        at := at + next.value;
        if at >= |rest| {
          break;
        }
      }
      NothingLeft(buffer, rest);
      return true;
    }

    /** Fills an empty buffer with the UTF-16 text and a zero, or reports malformed input. */
    method Convert(s: seq<octet>) returns (ok: bool)
      requires buffer == []
      modifies this
      ensures ok <==> Transcoded(s).Some?
      ensures ok ==> buffer == Transcoded(s).value + [0]
    {
      AfterNothing(Transcoded(s));
      var p := Blocks(s);
      if p.None? {
        return false;
      }
      NothingLeft(buffer, s);
      if |s| - p.value != 0 {
        var more := Rest(s[p.value..]);
        if !more {
          return false;
        }
      }
      buffer := buffer + [0];
      return true;
    }
  }

  lemma AfterAfter(a: seq<unit>, b: seq<unit>, rest: Option<seq<unit>>)
    ensures After(a, After(b, rest)) == After(a + b, rest)
  {
    if rest.Some? {
      assert a + (b + rest.value) == a + b + rest.value;
    }
  }
}
