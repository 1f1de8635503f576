/** One end of a TCP connection: the fragments received so far and the queue of whole packets. */
module Connection {
  import opened Bytes
  import opened ByteOrder
  import opened BitStream
  import opened Framing

  datatype Peer = Peer(clientId: Text, ip: nat, port: nat, fd: int)

  const NOBODY := Peer([], 0xFFFF_FFFF, 0, -1)

  /** A queued packet carries a copy of the peer data at the moment it was completed; size 0 is
      the end of the connection. */
  datatype Packet = Packet(source: Peer, payload: seq<byte>)

  const END_OF_STREAM := Packet(NOBODY, [])

  function Packets(source: Peer, msgs: seq<seq<byte>>): seq<Packet> {
    seq(|msgs|, i requires 0 <= i < |msgs| => Packet(source, msgs[i]))
  }

  lemma PacketsStep(source: Peer, buf: seq<byte>, queued: seq<Packet>)
    requires FrameReady(buf)
    ensures var n := FromBigEndian(buf[..2]);
            queued + Packets(source, Drain(buf).msgs) ==
            queued + [Packet(source, buf[2..2 + n])] + Packets(source, Drain(buf[2 + n..]).msgs)
  {
    var n := FromBigEndian(buf[..2]);
    var m, more := buf[2..2 + n], Drain(buf[2 + n..]).msgs;
    DrainHead(buf, n);
    PacketsCons(source, m, more, Drain(buf).msgs, queued);
  }

  lemma PacketsCons(source: Peer, m: seq<byte>, more: seq<seq<byte>>, msgs: seq<seq<byte>>, queued: seq<Packet>)
    requires msgs == [m] + more
    ensures queued + Packets(source, msgs) == queued + [Packet(source, m)] + Packets(source, more)
  {
  }

  class TCPClient {
    var peer: Peer
    var packets: seq<Packet>

    /** Everything handed to `send` on this connection so far. */
    var sent: seq<byte>

    const fragments: BitStream

    ghost predicate Valid()
      reads fragments
    {
      fragments.Valid() && fragments.writePtr == |fragments.buffer|
    }

    constructor (peer: Peer, host: Host)
      ensures Valid() && fresh(fragments)
      ensures this.peer == peer && packets == [] && sent == [] && fragments.buffer == []
    {
      this.peer, packets, sent := peer, [], [];
      fragments := new BitStream(host);
    }

    method SetClientID(clientId: Text)
      modifies this`peer
      ensures peer == old(peer).(clientId := clientId)
    {
      peer := peer.(clientId := clientId);
    }

    /** One pass of the loop in Select: queues the first complete message, if there is one. */
    method TakeMessage() returns (taken: bool)
      requires Valid()
      modifies this`packets, fragments
      ensures Valid()
      ensures taken == FrameReady(old(fragments.buffer))
      ensures taken ==>
        var buf := old(fragments.buffer);
        var n := FromBigEndian(buf[..2]);
        packets == old(packets) + [Packet(peer, buf[2..2 + n])] && fragments.buffer == buf[2 + n..]
      ensures !taken ==> packets == old(packets) && fragments.buffer == old(fragments.buffer)
    {
      fragments.ResetReadPointer();
      ghost var buf := fragments.buffer;
      var count, expected := fragments.ReadInt(2);
      if count != 2 {
        return false;
      }
      if expected == 0 {
        return false;
      }
      if |fragments.Unread()| < expected {
        return false;
      }
      var bs := new BitStream(fragments.host);
      var _ := bs.WriteFrom(fragments, expected);
      packets := packets + [Packet(peer, bs.buffer)];
      var _ := fragments.Remove(0, expected + 2);
      assert bs.buffer == buf[2..2 + expected] && fragments.buffer == buf[2 + expected..];
      return true;
    }

    /** One `recv`: an empty chunk is the end of the stream. */
    method Select(chunk: seq<byte>)
      requires Valid()
      modifies this`packets, fragments
      ensures Valid()
      ensures chunk == [] ==>
        packets == old(packets) + [END_OF_STREAM] && fragments.buffer == old(fragments.buffer)
      ensures chunk != [] ==>
        var got := Drain(old(fragments.buffer) + chunk);
        packets == old(packets) + Packets(peer, got.msgs) && fragments.buffer == got.rest
    {
      if chunk == [] {
        packets := packets + [END_OF_STREAM];
        return;
      }
      var _ := fragments.WriteBytes(chunk);
      ghost var got := Drain(fragments.buffer);
      assert fragments.buffer == old(fragments.buffer) + chunk;
      while true
        invariant Valid()
        invariant packets + Packets(peer, Drain(fragments.buffer).msgs) == old(packets) + Packets(peer, got.msgs)
        invariant Drain(fragments.buffer).rest == got.rest
        decreases |fragments.buffer|
      {
        ghost var buf, queued := fragments.buffer, packets;
        var taken := TakeMessage();
        if !taken {
          assert Packets(peer, []) == [] && packets + [] == packets;
          break;
        }
        PacketsStep(peer, buf, queued);
      }
    }

    method GetPacket() returns (packet: Option<Packet>)
      modifies this`packets
      ensures old(packets) == [] ==> packet == None && packets == []
      ensures old(packets) != [] ==> packet == Some(old(packets)[0]) && packets == old(packets)[1..]
    {
      if packets == [] {
        return None;
      }
      packet := Some(packets[0]);
      packets := packets[1..];
    }

    /** Puts one stream on the wire, behind its length. */
    method Send(bs: BitStream)
      requires bs.Valid()
      modifies this`sent
      ensures sent == old(sent) + Prefixed(bs.buffer)
    {
      var net := new BitStream(bs.host);
      var _ := net.WriteInt(|bs.buffer|, 2);
      var _ := net.WriteBytes(bs.buffer);
      sent := sent + net.buffer;
    }
  }
}
