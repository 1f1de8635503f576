/** Messages as length-prefixed frames on a byte stream, and putting them together again. */
module Framing {
  import opened Bytes
  import opened ByteOrder

  function Wire(msgs: seq<seq<byte>>): seq<byte> {
    if msgs == [] then [] else Prefixed(msgs[0]) + Wire(msgs[1..])
  }

  function Concat(chunks: seq<seq<byte>>): seq<byte> {
    if chunks == [] then [] else chunks[0] + Concat(chunks[1..])
  }

  /** Complete messages at the front of a buffer, and the bytes left over. */
  datatype Split = Split(msgs: seq<seq<byte>>, rest: seq<byte>)

  /** The length announced at the front, when a whole non-empty frame is there. */
  predicate FrameReady(buf: seq<byte>) {
    |buf| >= 2 && 0 < FromBigEndian(buf[..2]) <= |buf| - 2
  }

  function Drain(buf: seq<byte>): (r: Split)
    ensures |r.rest| <= |buf|
    decreases |buf|
  {
    if FrameReady(buf) then
      var n := FromBigEndian(buf[..2]);
      var more := Drain(buf[2 + n..]);
      Split([buf[2..2 + n]] + more.msgs, more.rest)
    else Split([], buf)
  }

  lemma DrainHead(buf: seq<byte>, n: nat)
    requires FrameReady(buf) && n == FromBigEndian(buf[..2])
    ensures Drain(buf).msgs == [buf[2..2 + n]] + Drain(buf[2 + n..]).msgs
  {
  }

  /** A reader that takes chunks one at a time. */
  function Feed(rest: seq<byte>, chunks: seq<seq<byte>>): Split
    decreases |chunks|
  {
    if chunks == [] then Split([], rest)
    else
      var now := Drain(rest + chunks[0]);
      var later := Feed(now.rest, chunks[1..]);
      Split(now.msgs + later.msgs, later.rest)
  }

  predicate Sendable(msgs: seq<seq<byte>>) {
    forall m :: m in msgs ==> 0 < |m| < 0x1_0000
  }

  lemma Associative<T>(a: seq<T>, b: seq<T>, c: seq<T>)
    ensures a + (b + c) == (a + b) + c
  {
  }

  lemma SlicesAppend(x: seq<byte>, y: seq<byte>, n: nat)
    requires 2 <= n <= |x|
    ensures (x + y)[..2] == x[..2] && (x + y)[2..n] == x[2..n] && (x + y)[n..] == x[n..] + y
  {
  }

  lemma {:induction false} DrainRest(buf: seq<byte>)
    ensures !FrameReady(Drain(buf).rest)
    ensures Drain(Drain(buf).rest) == Split([], Drain(buf).rest)
    decreases |buf|
  {
    if FrameReady(buf) {
      DrainRest(buf[2 + FromBigEndian(buf[..2])..]);
    }
  }

  /** Bytes that arrive later do not change what is already complete. */
  lemma {:induction false} DrainAppend(x: seq<byte>, y: seq<byte>)
    ensures Drain(x + y) ==
            Split(Drain(x).msgs + Drain(Drain(x).rest + y).msgs, Drain(Drain(x).rest + y).rest)
    decreases |x|
  {
    if FrameReady(x) {
      var n := FromBigEndian(x[..2]);
      var more := x[2 + n..];
      SlicesAppend(x, y, 2 + n);
      DrainAppend(more, y);
      Associative([x[2..2 + n]], Drain(more).msgs, Drain(Drain(more).rest + y).msgs);
    } else {
      assert [] + Drain(x + y).msgs == Drain(x + y).msgs;
    }
  }

  /** Reassembly does not depend on how the stream was cut, whatever the stream holds. */
  lemma {:induction false} FeedIsDrain(rest: seq<byte>, chunks: seq<seq<byte>>)
    requires !FrameReady(rest)
    ensures Feed(rest, chunks) == Drain(rest + Concat(chunks))
    decreases |chunks|
  {
    if chunks == [] {
      assert rest + [] == rest;
    } else {
      var now, later := rest + chunks[0], Concat(chunks[1..]);
      DrainRest(now);
      FeedIsDrain(Drain(now).rest, chunks[1..]);
      DrainAppend(now, later);
      Associative(rest, chunks[0], later);
    }
  }

  lemma LengthField(msg: seq<byte>)
    requires 0 < |msg| < 0x1_0000
    ensures FromBigEndian(BigEndian(|msg|, 2)) == |msg|
  {
    assert Pow256(2) == 0x1_0000 by {
      assert Pow256(1) == 256 * Pow256(0);
    }
    BigEndianRoundTrip(|msg|, 2);
  }

  /** A proper prefix of a frame yields nothing yet. */
  lemma PartialFrame(msg: seq<byte>, tail: seq<byte>)
    requires 0 < |msg| < 0x1_0000 && tail <= Prefixed(msg) && tail != Prefixed(msg)
    ensures !FrameReady(tail)
  {
    if |tail| >= 2 {
      assert tail[..2] == Prefixed(msg)[..2] == BigEndian(|msg|, 2);
      LengthField(msg);
    }
  }

  lemma FrontFrame(m: seq<byte>, more: seq<byte>)
    requires 0 < |m| < 0x1_0000
    ensures var buf := Prefixed(m) + more;
            FrameReady(buf) && FromBigEndian(buf[..2]) == |m| && buf[2..2 + |m|] == m && buf[2 + |m|..] == more
  {
    LengthField(m);
    assert (Prefixed(m) + more)[..2] == BigEndian(|m|, 2);
  }

  lemma {:induction false} DrainWire(msgs: seq<seq<byte>>, tail: seq<byte>)
    requires Sendable(msgs) && !FrameReady(tail)
    ensures Drain(Wire(msgs) + tail) == Split(msgs, tail)
    decreases |msgs|
  {
    if msgs == [] {
      assert Wire(msgs) + tail == tail;
    } else {
      var m, more := msgs[0], Wire(msgs[1..]);
      FrontFrame(m, more + tail);
      Associative(Prefixed(m), more, tail);
      DrainWire(msgs[1..], tail);
    }
  }

  /** A prefix of the stream is some whole frames and a proper prefix of the next one. */
  lemma {:induction false} WirePrefix(msgs: seq<seq<byte>>, part: seq<byte>) returns (j: nat, tail: seq<byte>)
    requires part <= Wire(msgs)
    ensures j <= |msgs| && part == Wire(msgs[..j]) + tail
    ensures if j == |msgs| then tail == [] else tail <= Prefixed(msgs[j]) && tail != Prefixed(msgs[j])
    decreases |msgs|
  {
    if msgs == [] {
      j, tail := 0, [];
    } else {
      var f := Prefixed(msgs[0]);
      if |part| < |f| {
        j, tail := 0, part;
        assert tail == f[..|tail|];
      } else {
        var k;
        assert part == f + part[|f|..];
        assert part[|f|..] <= Wire(msgs[1..]);
        k, tail := WirePrefix(msgs[1..], part[|f|..]);
        j := k + 1;
        assert msgs[..j][1..] == msgs[1..][..k];
      }
    }
  }

  lemma {:induction false} ConcatPrefix(chunks: seq<seq<byte>>, i: nat)
    requires i <= |chunks|
    ensures Concat(chunks[..i]) <= Concat(chunks)
    decreases i
  {
    if i > 0 {
      ConcatPrefix(chunks[1..], i - 1);
      assert chunks[..i][1..] == chunks[1..][..i - 1];
    }
  }

  /** After any number of chunks, the reader has queued exactly the messages whose frames are complete
      and holds a proper prefix of the next frame. */
  lemma AfterChunks(msgs: seq<seq<byte>>, chunks: seq<seq<byte>>, i: nat) returns (j: nat)
    requires Sendable(msgs) && Concat(chunks) == Wire(msgs) && i <= |chunks|
    ensures j <= |msgs| && Feed([], chunks[..i]).msgs == msgs[..j]
    ensures var rest := Feed([], chunks[..i]).rest;
            && Concat(chunks[..i]) == Wire(msgs[..j]) + rest
            && if j == |msgs| then rest == [] else rest <= Prefixed(msgs[j]) && rest != Prefixed(msgs[j])
  {
    var part := Concat(chunks[..i]);
    var tail;
    ConcatPrefix(chunks, i);
    j, tail := WirePrefix(msgs, part);
    if j < |msgs| {
      PartialFrame(msgs[j], tail);
    }
    FeedIsDrain([], chunks[..i]);
    assert [] + part == part;
    DrainWire(msgs[..j], tail);
  }

  /** Any cut of the whole stream gives back the messages, in order, with nothing left over. */
  lemma Reassembled(msgs: seq<seq<byte>>, chunks: seq<seq<byte>>)
    requires Sendable(msgs) && Concat(chunks) == Wire(msgs)
    ensures Feed([], chunks) == Split(msgs, [])
  {
    FeedIsDrain([], chunks);
    assert [] + Concat(chunks) == Wire(msgs) + [];
    DrainWire(msgs, []);
  }
}
