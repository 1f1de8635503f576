/** The bytes on the wire, one by one, and what a subscriber makes of packets that are not whole posts. */
module WireFormat {
  import opened Bytes
  import opened ByteOrder
  import opened BitStream
  import opened NetworkObjects
  import opened Framing
  import opened Connection
  import opened Messages
  import opened Client
  import opened Posts
  import Requests

  // ---- Byte by byte ----

  lemma BigEndian2(v: nat)
    requires v < 0x1_0000
    ensures BigEndian(v, 2) == [v / 0x100, v % 0x100]
  {
    assert BigEndian(v / 0x100, 1) == BigEndian(v / 0x1_0000, 0) + [v / 0x100];
  }

  lemma BigEndian4(v: nat)
    requires v < 0x1_0000_0000
    ensures BigEndian(v, 4) == [v / 0x100_0000, v / 0x1_0000 % 0x100, v / 0x100 % 0x100, v % 0x100]
  {
    BigEndian2(v / 0x1_0000);
    assert v / 0x100 / 0x100 == v / 0x1_0000 && v / 0x1_0000 / 0x100 == v / 0x100_0000;
    assert BigEndian(v / 0x100, 3) == BigEndian(v / 0x1_0000, 2) + [v / 0x100 % 0x100];
  }

  function Counted16(t: Text): seq<byte>
    requires |t| < 0x1_0000
  {
    [|t| / 0x100, |t| % 0x100] + t
  }

  /** A frame: two bytes of length, the message. */
  lemma FrameLayout(msg: seq<byte>)
    requires |msg| < 0x1_0000
    ensures Prefixed(msg) == Counted16(msg) && Wire([msg]) == Counted16(msg)
  {
    BigEndian2(|msg|);
    assert [msg][1..] == [];
  }

  /** A post for a subscriber: 4, topic, type, text, address, port. */
  lemma MessageLayout(m: Shown)
    requires |m.post.topic| < 0x1_0000 && |m.post.text| < 0x1_0000 && m.ip < 0x1_0000_0000 && m.port < 0x1_0000
    ensures EncodeMessage(m) ==
            [4] + Counted16(m.post.topic) + [m.post.kind] + Counted16(m.post.text)
            + [m.ip / 0x100_0000, m.ip / 0x1_0000 % 0x100, m.ip / 0x100 % 0x100, m.ip % 0x100]
            + [m.port / 0x100, m.port % 0x100]
  {
    FrameLayout(m.post.topic);
    FrameLayout(m.post.text);
    BigEndian4(m.ip);
    BigEndian2(m.port);
    SixParts([4], Counted16(m.post.topic), [m.post.kind], Counted16(m.post.text), BigEndian(m.ip, 4), BigEndian(m.port, 2));
    assert [] + [4] == [4];
  }

  /** The three requests: 1 and the client's id, 2 with topic and flag, 3 with topic. */
  lemma RequestLayout(r: Request)
    requires var t := if r.Announce? then r.clientId else r.topic; |t| < 0x1_0000
    ensures EncodeRequest(r) ==
            match r
            case Announce(clientId) => [1] + Counted16(clientId)
            case Subscribing(topic, sf) => [2] + Counted16(topic) + [sf]
            case Unsubscribing(topic) => [3] + Counted16(topic)
  {
    FrameLayout(if r.Announce? then r.clientId else r.topic);
  }

  // ---- Any bytes ----

  /** What is left has no whole frame in front: its length is missing, or is 0, or is more than there is. */
  predicate NoFrame(rest: seq<byte>) {
    |rest| < 2 || (var n := Requests.Length16(rest[0], rest[1]); n == 0 || n > |rest| - 2)
  }

  /** Taking messages out of any bytes loses nothing and leaves no whole frame in front. */
  lemma {:induction false} DrainSplits(buf: seq<byte>)
    ensures buf == Wire(Drain(buf).msgs) + Drain(buf).rest
    ensures Sendable(Drain(buf).msgs) && NoFrame(Drain(buf).rest)
    decreases |buf|
  {
    if |buf| >= 2 {
      LengthRead(buf);
    }
    if FrameReady(buf) {
      var n := FromBigEndian(buf[..2]);
      var m, more := buf[2..2 + n], buf[2 + n..];
      DrainSplits(more);
      FrameTaken(buf, n, more, Wire(Drain(more).msgs), Drain(more).rest);
      WireFirst(m, Drain(more).msgs);
    } else {
      assert [] + buf == buf;
    }
  }

  lemma WireFirst(m: seq<byte>, msgs: seq<seq<byte>>)
    ensures Wire([m] + msgs) == Prefixed(m) + Wire(msgs)
  {
    assert ([m] + msgs)[1..] == msgs;
  }

  lemma LengthRead(buf: seq<byte>)
    requires |buf| >= 2
    ensures FromBigEndian(buf[..2]) == Requests.Length16(buf[0], buf[1]) < 0x1_0000
  {
    Bytes2(buf[..2]);
  }

  lemma FrameTaken(buf: seq<byte>, n: nat, more: seq<byte>, wire: seq<byte>, rest: seq<byte>)
    requires 2 + n <= |buf| && n == FromBigEndian(buf[..2]) && more == buf[2 + n..] && more == wire + rest
    ensures buf == Prefixed(buf[2..2 + n]) + wire + rest
  {
    var m := buf[2..2 + n];
    FromBigEndianRoundTrip(buf[..2]);
    assert buf == (buf[..2] + m) + more;
    Associative(Prefixed(m), wire, rest);
  }

  /** What a subscriber reads in a packet: RPC 4, topic, type, text, address, port, all of it there. */
  ghost predicate Reads(payload: seq<byte>, m: Shown) {
    payload != [] && payload[0] == 4 &&
    exists topic: Text, rest: seq<byte>, text: Text, last: seq<byte> ::
      && Requests.Carries(payload[1..], topic, rest) && rest != []
      && Requests.Carries(rest[1..], text, last) && |last| >= 6
      && m == Shown(PostData(topic, rest[0], text), Number32(last[..4]), Number16(last[4], last[5]))
  }

  lemma ShownIff(payload: seq<byte>, m: Shown)
    ensures DecodeMessage(payload) == Some(m) <==> Reads(payload, m)
  {
    if DecodeMessage(payload) == Some(m) {
      var topic := GetText(payload[1..]);
      var text := GetText(topic.rest[1..]);
      Requests.TextCarried(payload[1..]);
      Requests.TextCarried(topic.rest[1..]);
      SourceRead(text.rest);
    }
    if Reads(payload, m) {
      var topic: Text, rest: seq<byte>, text: Text, last: seq<byte> :|
        && Requests.Carries(payload[1..], topic, rest) && rest != []
        && Requests.Carries(rest[1..], text, last) && |last| >= 6
        && m == Shown(PostData(topic, rest[0], text), Number32(last[..4]), Number16(last[4], last[5]));
      SameText(payload[1..], topic, rest);
      SameText(rest[1..], text, last);
      SourceRead(last);
    }
  }

  lemma SameText(body: seq<byte>, t: Text, rest: seq<byte>)
    requires Requests.Carries(body, t, rest)
    ensures GetText(body).text == t && GetText(body).rest == rest
  {
    Requests.TextCarried(body);
  }

  lemma SourceRead(last: seq<byte>)
    ensures DecodeSource(last) == if |last| < 6 then None else Some((Number32(last[..4]), Number16(last[4], last[5])))
  {
    if |last| >= 6 {
      Bytes4(last[..4]);
      Bytes2(last[4..6]);
    }
  }

  // ---- Packets cut short ----

  lemma TextCut(t: Text, more: seq<byte>, k: nat)
    requires |t| < 0x1_0000 && k <= 2 + |t| + |more|
    ensures |Prefixed(t) + more| == 2 + |t| + |more|
    ensures GetText((Prefixed(t) + more)[..k]).text == t[..if k < 2 then 0 else Min(k - 2, |t|)]
    ensures GetText((Prefixed(t) + more)[..k]).rest == if k <= 2 + |t| then [] else more[..k - 2 - |t|]
  {
    var cut := (Prefixed(t) + more)[..k];
    if k >= 2 {
      PowersOf256();
      WholeField(|t|, 2);
      assert cut[..2] == BigEndian(|t|, 2);
      CutParts(BigEndian(|t|, 2), t, more, k, cut);
    }
  }

  lemma CutParts(head: seq<byte>, t: Text, more: seq<byte>, k: nat, cut: seq<byte>)
    requires |head| == 2 && 2 <= k <= 2 + |t| + |more| && cut == (head + t + more)[..k]
    ensures cut[2..2 + Min(|t|, k - 2)] == t[..Min(|t|, k - 2)]
    ensures cut[2 + Min(|t|, k - 2)..] == if k <= 2 + |t| then [] else more[..k - 2 - |t|]
  {
    if k <= 2 + |t| {
      assert cut == head + t[..k - 2];
    } else {
      assert cut == head + t + more[..k - 2 - |t|];
    }
  }

  /** A post that lacks its last bytes is not shown. */
  lemma CutNotShown(m: Shown, k: nat)
    requires |m.post.topic| < 0x1_0000 && |m.post.text| < 0x1_0000 && k < |EncodeMessage(m)|
    ensures DecodeMessage(EncodeMessage(m)[..k]) == None
  {
    var source := BigEndian(m.ip, 4) + BigEndian(m.port, 2);
    var afterTopic := [m.post.kind] + (Prefixed(m.post.text) + source);
    var all, payload := EncodeMessage(m), EncodeMessage(m)[..k];
    assert all == [4] + (Prefixed(m.post.topic) + afterTopic);
    if k > 0 {
      CutFirst(Prefixed(m.post.topic) + afterTopic, all, k);
      CutBehind(m.post.topic, m.post.kind, m.post.text, source, payload);
    }
  }

  lemma CutBehind(topic: Text, kind: byte, t: Text, source: seq<byte>, payload: seq<byte>)
    requires |topic| < 0x1_0000 && |t| < 0x1_0000 && |source| == 6 && 0 < |payload| < 12 + |topic| + |t|
    requires payload[0] == 4
    requires payload[1..] == (Prefixed(topic) + ([kind] + (Prefixed(t) + source)))[..|payload| - 1]
    ensures DecodeMessage(payload) == None
  {
    TextCut(topic, [kind] + (Prefixed(t) + source), |payload| - 1);
    if |payload| > 3 + |topic| {
      TailCut(kind, t, source, |payload| - 3 - |topic|);
    }
    NotDecoded(payload);
  }

  lemma CutFirst(rest: seq<byte>, all: seq<byte>, k: nat)
    requires all == [4] + rest && 0 < k <= |all|
    ensures all[..k][0] == 4 && all[..k][1..] == rest[..k - 1]
  {
  }

  lemma TailCut(kind: byte, t: Text, source: seq<byte>, k: nat)
    requires |t| < 0x1_0000 && |source| == 6 && 0 < k < 9 + |t|
    ensures k <= |[kind] + (Prefixed(t) + source)|
    ensures DecodeSource(GetText(([kind] + (Prefixed(t) + source))[..k][1..]).rest) == None
  {
    assert ([kind] + (Prefixed(t) + source))[..k][1..] == (Prefixed(t) + source)[..k - 1];
    TextCut(t, source, k - 1);
  }

  lemma NotDecoded(payload: seq<byte>)
    requires payload != [] && payload[0] == 4
    requires var rest := GetText(payload[1..]).rest; rest == [] || DecodeSource(GetText(rest[1..]).rest) == None
    ensures DecodeMessage(payload) == None
  {
  }

  /** Bytes behind a post do not change it. */
  lemma MoreBehind(m: Shown, more: seq<byte>)
    requires |m.post.topic| < 0x1_0000 && |m.post.text| < 0x1_0000 && m.ip < 0x1_0000_0000 && m.port < 0x1_0000
    ensures DecodeMessage(EncodeMessage(m) + more) == Some(m)
  {
    var source := BigEndian(m.ip, 4) + BigEndian(m.port, 2);
    var afterKind := Prefixed(m.post.text) + (source + more);
    var afterTopic := [m.post.kind] + afterKind;
    assert (EncodeMessage(m) + more)[1..] == Prefixed(m.post.topic) + afterTopic;
    assert afterTopic[1..] == afterKind;
    GetPutText(m.post.topic, afterTopic);
    GetPutText(m.post.text, source + more);
    SourceBehind(m.ip, m.port, source, more);
  }

  lemma SourceBehind(ip: nat, port: nat, source: seq<byte>, more: seq<byte>)
    requires ip < 0x1_0000_0000 && port < 0x1_0000 && source == BigEndian(ip, 4) + BigEndian(port, 2)
    ensures DecodeSource(source + more) == Some((ip, port))
  {
    SourceRoundTrip(ip, port);
    assert (source + more)[..4] == source[..4] && (source + more)[4..6] == source[4..6];
  }

  // ---- What the subscriber shows ----

  function FirstLine(p: Packet): seq<Shown> {
    if DecodeMessage(p.payload).Some? then [DecodeMessage(p.payload).value] else []
  }

  lemma ShownFirst(packets: seq<Packet>)
    requires packets != [] && packets[0].payload != []
    ensures var rest := ShowAll(packets[1..]); ShowAll(packets) == Showing(FirstLine(packets[0]) + rest.lines, rest.running)
  {
  }

  lemma AppendTail(a: seq<Packet>, b: seq<Packet>)
    requires a != []
    ensures a + b != [] && (a + b)[0] == a[0] && (a + b)[1..] == a[1..] + b
  {
  }

  lemma LinesJoined(first: seq<Shown>, rest: Showing, more: Showing, all: Showing)
    requires rest.running && all == Showing(rest.lines + more.lines, more.running)
    ensures Showing(first + all.lines, all.running) == Showing((first + rest.lines) + more.lines, more.running)
  {
  }

  /** Packets are shown one after the other, those that do not decode are skipped, and after the end of the
      connection nothing is shown and the client stops. */
  lemma {:induction false} ShownInTurn(a: seq<Packet>, b: seq<Packet>)
    requires forall p :: p in a ==> p.payload != []
    ensures ShowAll(a).running
    ensures ShowAll(a + b) == Showing(ShowAll(a).lines + ShowAll(b).lines, ShowAll(b).running)
    decreases |a|
  {
    if a == [] {
      assert a + b == b;
    } else {
      ShownInTurn(a[1..], b);
      AppendTail(a, b);
      ShownFirst(a);
      ShownFirst(a + b);
      LinesJoined(FirstLine(a[0]), ShowAll(a[1..]), ShowAll(b), ShowAll(a[1..] + b));
    }
  }

  lemma ShownOne(p: Packet)
    ensures ShowAll([p]) ==
            if p.payload == [] then Showing([], false)
            else Showing(FirstLine(p), true)
  {
    assert [p][1..] == [];
  }

  lemma ShownToEnd(a: seq<Packet>, last: Packet, b: seq<Packet>)
    requires (forall p :: p in a ==> p.payload != []) && last.payload == []
    ensures ShowAll(a + ([last] + b)) == Showing(ShowAll(a).lines, false)
  {
    ShownInTurn(a, [last] + b);
  }
}
