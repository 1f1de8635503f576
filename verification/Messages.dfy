/** Posts as they arrive over UDP and RPC packets as they travel over TCP. */
module Messages {
  import opened Bytes
  import opened ByteOrder
  import opened BitStream
  import opened NetworkObjects
  import opened NumberLaws
  import opened Framing

  datatype PostData = PostData(topic: Text, kind: byte, text: Text)

  /** The bytes before the first NUL. */
  function CString(bs: seq<byte>): (t: Text)
    ensures |t| <= |bs|
  {
    if bs == [] || bs[0] == 0 then [] else [bs[0]] + CString(bs[1..])
  }

  /** Which datagrams are accepted, and as what post: a full topic field, a type byte, and the fixed
      size of a number or at least one byte of a string; an unknown type is accepted with no text. */
  function DecodePost(bs: seq<byte>): Option<PostData> {
    if |bs| <= TOPIC_SIZE then None
    else
      var topic, kind, body := CString(bs[..TOPIC_SIZE]), bs[TOPIC_SIZE], bs[TOPIC_SIZE + 1..];
      if kind == TYPE_INT then
        if |body| < 5 then None
        else Some(PostData(topic, kind, IntText(body[0], FromBigEndian(body[1..5]))))
      else if kind == TYPE_SHORTREAL then
        if |body| < 2 then None
        else Some(PostData(topic, kind, ShortRealText(FromBigEndian(body[..2]))))
      else if kind == TYPE_FLOAT then
        if |body| < 6 then None
        else Some(PostData(topic, kind, FloatText(body[0], FromBigEndian(body[1..5]), body[5])))
      else if kind == TYPE_STRING then
        if body == [] then None
        else Some(PostData(topic, kind, CString(body[..Min(STRING_SIZE, |body|)])))
      else Some(PostData(topic, kind, []))
  }

  /** `Impl_Read` for a text of at most `maxSize` bytes. */
  method ReadFixedText(bs: BitStream, maxSize: nat) returns (count: nat, t: Text)
    requires bs.Valid()
    modifies bs`readPtr
    ensures bs.Valid() && count == Min(maxSize, |old(bs.Unread())|)
    ensures bs.Unread() == old(bs.Unread())[count..]
    ensures t == CString(old(bs.Unread())[..count])
  {
    var data := bs.ReadBytes(maxSize);
    count := |data|;
    var i := 0;
    while i < count
      invariant i <= count && Begins(data, i)
      invariant bs.Valid() && bs.Unread() == old(bs.Unread())[count..]
    {
      if data[i] == 0 {
        break;
      }
      NextChar(data, i);
      i := i + 1;
    }
    AtEnd(data, i);
    t := data[..i];
  }

  /** No NUL so far. */
  predicate Begins(data: seq<byte>, i: nat)
    requires i <= |data|
  {
    CString(data) == data[..i] + CString(data[i..])
  }

  lemma NextChar(data: seq<byte>, i: nat)
    requires i < |data| && Begins(data, i) && data[i] != 0
    ensures Begins(data, i + 1)
  {
    assert data[i..][1..] == data[i + 1..];
    assert data[..i] + [data[i]] == data[..i + 1];
    Associative(data[..i], [data[i]], CString(data[i + 1..]));
  }

  lemma AtEnd(data: seq<byte>, i: nat)
    requires i <= |data| && Begins(data, i) && (i == |data| || data[i] == 0)
    ensures CString(data) == data[..i]
  {
  }

  method ReadUDPPacket(bs: BitStream) returns (post: Option<PostData>)
    requires bs.Valid()
    modifies bs`readPtr
    ensures bs.Valid()
    ensures post == DecodePost(bs.buffer)
  {
    bs.ResetReadPointer();
    var count, topic := ReadFixedText(bs, TOPIC_SIZE);
    if count != TOPIC_SIZE {
      return None;
    }
    var kind;
    count, kind := bs.ReadByte();
    if count != 1 {
      return None;
    }
    ghost var body := bs.buffer[TOPIC_SIZE + 1..];
    assert bs.Unread() == body;
    var text: Text := [];
    if kind == TYPE_INT {
      var value := new Int();
      count := value.Read(bs);
      if count != 5 {
        return None;
      }
      text := value.text;
    } else if kind == TYPE_SHORTREAL {
      var value := new ShortReal();
      count := value.Read(bs);
      if count != 2 {
        return None;
      }
      text := value.text;
    } else if kind == TYPE_FLOAT {
      var value := new Float();
      count := value.Read(bs);
      if count != 6 {
        return None;
      }
      text := value.text;
    } else if kind == TYPE_STRING {
      count, text := ReadFixedText(bs, STRING_SIZE);
      if count == 0 {
        return None;
      }
    }
    return Some(PostData(topic, kind, text));
  }

  // ---- RPC packets ----

  /** What a subscriber is shown for one post. */
  datatype Shown = Shown(post: PostData, ip: nat, port: nat)

  function EncodeMessage(m: Shown): seq<byte> {
    [RPC_MESSAGE] + (Prefixed(m.post.topic) + ([m.post.kind] + (Prefixed(m.post.text) +
      (BigEndian(m.ip, 4) + BigEndian(m.port, 2)))))
  }

  /** The last two fields of a message: address and port. */
  function DecodeSource(bs: seq<byte>): Option<(nat, nat)> {
    if |bs| < 6 then None else Some((FromBigEndian(bs[..4]), FromBigEndian(bs[4..6])))
  }

  /** The client's reader: nothing is shown unless the last field is complete. */
  function DecodeMessage(payload: seq<byte>): Option<Shown> {
    if payload == [] || payload[0] != RPC_MESSAGE then None
    else
      var topic := GetText(payload[1..]);
      if topic.rest == [] then None
      else
        var text := GetText(topic.rest[1..]);
        var source := DecodeSource(text.rest);
        if source == None then None
        else Some(Shown(PostData(topic.text, topic.rest[0], text.text), source.value.0, source.value.1))
  }

  /** The encoder in ProcessForumsMessages. */
  method WriteMessage(bs: BitStream, m: Shown)
    requires bs.Valid() && bs.AtEnd() && bs.buffer == []
    modifies bs
    ensures bs.Valid() && bs.buffer == EncodeMessage(m)
  {
    ByteBytes(RPC_MESSAGE);
    ByteBytes(m.post.kind);
    var _ := bs.WriteInt(RPC_MESSAGE, 1);
    var _ := bs.WriteText(m.post.topic);
    var _ := bs.WriteInt(m.post.kind, 1);
    var _ := bs.WriteText(m.post.text);
    var _ := bs.WriteInt(m.ip, 4);
    var _ := bs.WriteInt(m.port, 2);
    SixParts([RPC_MESSAGE], Prefixed(m.post.topic), [m.post.kind], Prefixed(m.post.text),
             BigEndian(m.ip, 4), BigEndian(m.port, 2));
  }

  lemma SixParts(a: seq<byte>, b: seq<byte>, c: seq<byte>, d: seq<byte>, e: seq<byte>, f: seq<byte>)
    ensures [] + a + b + c + d + e + f == a + (b + (c + (d + (e + f))))
  {
  }

  lemma ByteBytes(b: byte)
    ensures BigEndian(b, 1) == [b]
  {
    assert BigEndian(b / 256, 0) == [];
  }

  method ReadSource(bs: BitStream) returns (source: Option<(nat, nat)>)
    requires bs.Valid()
    modifies bs`readPtr
    ensures bs.Valid()
    ensures source == DecodeSource(old(bs.Unread()))
  {
    ghost var last := bs.Unread();
    var count, ip := bs.ReadInt(4);
    var port;
    count, port := bs.ReadInt(2);
    if count != 2 {
      return None;
    }
    assert last[4..][..2] == last[4..6];
    return Some((ip, port));
  }

  /** The decoder in the client's ProcessTCPPackets. */
  method ReadMessage(bs: BitStream) returns (shown: Option<Shown>)
    requires bs.Valid()
    modifies bs`readPtr
    ensures bs.Valid()
    ensures shown == DecodeMessage(bs.buffer)
  {
    bs.ResetReadPointer();
    var count, rpc := bs.ReadByte();
    if count != 1 || !IsValidRPC(rpc) {
      return None;
    }
    if rpc != RPC_MESSAGE {
      return None;
    }
    var topic, kind, text;
    count, topic := bs.ReadText();
    count, kind := bs.ReadByte();
    count, text := bs.ReadText();
    var source := ReadSource(bs);
    if source == None {
      return None;
    }
    return Some(Shown(PostData(topic, kind, text), source.value.0, source.value.1));
  }

  lemma GetPutText(t: Text, more: seq<byte>)
    requires |t| < 0x1_0000
    ensures GetText(Prefixed(t) + more) == TextRead(2 + |t|, t, more)
  {
    PowersOf256();
    BigEndianRoundTrip(|t|, 2);
    ThreeParts(BigEndian(|t|, 2), t, more, Prefixed(t) + more);
  }

  lemma ThreeParts(head: seq<byte>, t: seq<byte>, more: seq<byte>, all: seq<byte>)
    requires |head| == 2 && all == head + t + more
    ensures |all| == 2 + |t| + |more| && all[..2] == head && all[2..2 + |t|] == t && all[2 + |t|..] == more
  {
  }

  lemma MessageRoundTrip(m: Shown)
    requires |m.post.topic| < 0x1_0000 && |m.post.text| < 0x1_0000
    requires m.ip < 0x1_0000_0000 && m.port < 0x1_0000
    ensures DecodeMessage(EncodeMessage(m)) == Some(m)
  {
    var tail := BigEndian(m.ip, 4) + BigEndian(m.port, 2);
    SourceRoundTrip(m.ip, m.port);
    GetPutText(m.post.text, tail);
    var afterTopic := [m.post.kind] + (Prefixed(m.post.text) + tail);
    assert afterTopic[1..] == Prefixed(m.post.text) + tail;
    GetPutText(m.post.topic, afterTopic);
    assert EncodeMessage(m)[1..] == Prefixed(m.post.topic) + afterTopic;
  }

  lemma SourceRoundTrip(ip: nat, port: nat)
    requires ip < 0x1_0000_0000 && port < 0x1_0000
    ensures DecodeSource(BigEndian(ip, 4) + BigEndian(port, 2)) == Some((ip, port))
  {
    PowersOf256();
    WholeField(ip, 4);
    WholeField(port, 2);
    SourceParts(BigEndian(ip, 4), BigEndian(port, 2));
  }

  lemma WholeField(v: nat, n: nat)
    requires v < Pow256(n)
    ensures FromBigEndian(BigEndian(v, n)) == v
  {
    BigEndianRoundTrip(v, n);
  }

  lemma SourceParts(a: seq<byte>, b: seq<byte>)
    requires |a| == 4 && |b| == 2
    ensures DecodeSource(a + b) == Some((FromBigEndian(a), FromBigEndian(b)))
  {
    assert (a + b)[..4] == a && (a + b)[4..6] == b;
  }

  /** Every accepted post fits the message format. */
  lemma PostSizes(datagram: seq<byte>)
    requires DecodePost(datagram).Some?
    ensures var post := DecodePost(datagram).value; |post.topic| <= TOPIC_SIZE && |post.text| <= STRING_SIZE
  {
    var body := datagram[TOPIC_SIZE + 1..];
    PowersOf256();
    if datagram[TOPIC_SIZE] == TYPE_INT {
      FromBigEndianBound(body[1..5]);
      TextSizes(body[0], FromBigEndian(body[1..5]), 0);
    } else if datagram[TOPIC_SIZE] == TYPE_SHORTREAL {
      FromBigEndianBound(body[..2]);
      TextSizes(0, FromBigEndian(body[..2]), 0);
    } else if datagram[TOPIC_SIZE] == TYPE_FLOAT {
      FromBigEndianBound(body[1..5]);
      TextSizes(body[0], FromBigEndian(body[1..5]), body[5]);
    }
  }

  /** A datagram as the UDP server queues it. */
  datatype Datagram = Datagram(ip: nat, port: nat, bytes: seq<byte>)

  predicate Accepted(d: Datagram) {
    d.ip < 0x1_0000_0000 && d.port < 0x1_0000 && DecodePost(d.bytes).Some?
  }

  function ShownFor(d: Datagram): Shown
    requires Accepted(d)
  {
    Shown(DecodePost(d.bytes).value, d.ip, d.port)
  }

  lemma MessageSize(d: Datagram)
    requires Accepted(d)
    ensures 0 < |EncodeMessage(ShownFor(d))| <= 1562
  {
    PostSizes(d.bytes);
  }

  function Encoded(ds: seq<Datagram>): seq<seq<byte>>
    requires forall d :: d in ds ==> Accepted(d)
  {
    seq(|ds|, i requires 0 <= i < |ds| => EncodeMessage(ShownFor(ds[i])))
  }

  /** End to end: whatever posts are accepted, however the stream that carries them is cut, the
      client's reassembly and decoder give back each topic, type, text, address and port, in order. */
  lemma EndToEnd(ds: seq<Datagram>, chunks: seq<seq<byte>>)
    requires forall d :: d in ds ==> Accepted(d)
    requires Concat(chunks) == Wire(Encoded(ds))
    ensures var got := Feed([], chunks);
            && got == Split(Encoded(ds), [])
            && forall i :: 0 <= i < |ds| ==> DecodeMessage(got.msgs[i]) == Some(ShownFor(ds[i]))
  {
    var msgs := Encoded(ds);
    forall i | 0 <= i < |ds|
      ensures 0 < |msgs[i]| < 0x1_0000 && DecodeMessage(msgs[i]) == Some(ShownFor(ds[i]))
    {
      assert ds[i] in ds;
      MessageSize(ds[i]);
      PostSizes(ds[i].bytes);
      MessageRoundTrip(ShownFor(ds[i]));
    }
    Reassembled(msgs, chunks);
  }

  // ---- The client's requests ----

  datatype Request =
    | Announce(clientId: Text)
    | Subscribing(topic: Text, sf: byte)
    | Unsubscribing(topic: Text)

  function EncodeRequest(r: Request): seq<byte> {
    match r
    case Announce(clientId) => [RPC_CLIENT_ANNOUNCE] + Prefixed(clientId)
    case Subscribing(topic, sf) => [RPC_SUBSCRIBE] + Prefixed(topic) + [sf]
    case Unsubscribing(topic) => [RPC_UNSUBSCRIBE] + Prefixed(topic)
  }

  method WriteRequest(bs: BitStream, r: Request)
    requires bs.Valid() && bs.AtEnd() && bs.buffer == []
    modifies bs
    ensures bs.Valid() && bs.buffer == EncodeRequest(r)
  {
    match r
    case Announce(clientId) =>
      ByteBytes(RPC_CLIENT_ANNOUNCE);
      var _ := bs.WriteInt(RPC_CLIENT_ANNOUNCE, 1);
      var _ := bs.WriteText(clientId);
    case Subscribing(topic, sf) =>
      ByteBytes(RPC_SUBSCRIBE);
      ByteBytes(sf);
      var _ := bs.WriteInt(RPC_SUBSCRIBE, 1);
      var _ := bs.WriteText(topic);
      var _ := bs.WriteInt(sf, 1);
    case Unsubscribing(topic) =>
      ByteBytes(RPC_UNSUBSCRIBE);
      var _ := bs.WriteInt(RPC_UNSUBSCRIBE, 1);
      var _ := bs.WriteText(topic);
  }

  /** The server reads back what the client wrote. */
  lemma RequestRoundTrip(r: Request)
    requires var t := if r.Announce? then r.clientId else r.topic; |t| < 0x1_0000
    ensures var bs := EncodeRequest(r);
            var got := GetText(bs[1..]);
            match r
            case Announce(clientId) => bs[0] == RPC_CLIENT_ANNOUNCE && got.text == clientId && got.rest == []
            case Subscribing(topic, sf) => bs[0] == RPC_SUBSCRIBE && got.text == topic && got.rest == [sf]
            case Unsubscribing(topic) => bs[0] == RPC_UNSUBSCRIBE && got.text == topic && got.rest == []
  {
    match r
    case Announce(clientId) =>
      GetPutText(clientId, []);
      assert EncodeRequest(r)[1..] == Prefixed(clientId) + [];
    case Subscribing(topic, sf) =>
      GetPutText(topic, [sf]);
      assert EncodeRequest(r)[1..] == Prefixed(topic) + [sf];
    case Unsubscribing(topic) =>
      GetPutText(topic, []);
      assert EncodeRequest(r)[1..] == Prefixed(topic) + [];
  }
}
