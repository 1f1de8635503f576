/** The subscriber's side: packets from the server become lines shown to the user. */
module Client {
  import opened Bytes
  import opened ByteOrder
  import opened BitStream
  import opened Connection
  import opened Framing
  import opened Messages

  datatype Showing = Showing(lines: seq<Shown>, running: bool)

  /** What a queue of packets shows: everything decodable up to the end of the connection. */
  function ShowAll(packets: seq<Packet>): Showing
    decreases |packets|
  {
    if packets == [] then Showing([], true)
    else if packets[0].payload == [] then Showing([], false)
    else
      var rest := ShowAll(packets[1..]);
      match DecodeMessage(packets[0].payload)
      case None => rest
      case Some(line) => Showing([line] + rest.lines, rest.running)
  }

  class Client {
    const tcp: TCPClient
    var running: bool
    var shown: seq<Shown>

    constructor (server: Peer, host: Host)
      ensures tcp.Valid() && tcp.packets == [] && tcp.fragments.buffer == [] && running && shown == []
    {
      tcp := new TCPClient(server, host);
      running, shown := true, [];
    }

    method ProcessTCPPackets()
      requires running
      modifies this`running, this`shown, tcp`packets
      ensures var all := ShowAll(old(tcp.packets));
              shown == old(shown) + all.lines && running == all.running && (running ==> tcp.packets == [])
    {
      ghost var all := ShowAll(tcp.packets);
      while true
        invariant running && all.running == ShowAll(tcp.packets).running
        invariant shown + ShowAll(tcp.packets).lines == old(shown) + all.lines
        decreases |tcp.packets|
      {
        ghost var queue := tcp.packets;
        var packet := tcp.GetPacket();
        if packet == None {
          break;
        }
        if |packet.value.payload| == 0 {
          running := false;
          break;
        }
        ShowFirst(queue, shown);
        var line := Decode(packet.value.payload);
        if line == None {
          continue;
        }
        shown := shown + [line.value];
      }
    }

    method Decode(payload: seq<byte>) returns (line: Option<Shown>)
      ensures line == DecodeMessage(payload)
    {
      var bs := new BitStream(tcp.fragments.host);
      var _ := bs.WriteBytes(payload);
      assert bs.buffer == payload;
      line := ReadMessage(bs);
    }
  }

  /** The lines of the first packet and of the packets behind it. */
  lemma ShowFirst(packets: seq<Packet>, before: seq<Shown>)
    requires packets != [] && packets[0].payload != []
    ensures ShowAll(packets).running == ShowAll(packets[1..]).running
    ensures var line := DecodeMessage(packets[0].payload);
            before + ShowAll(packets).lines ==
            (if line == None then before else before + [line.value]) + ShowAll(packets[1..]).lines
  {
    var line, rest := DecodeMessage(packets[0].payload), ShowAll(packets[1..]).lines;
    if line.Some? {
      assert before + ([line.value] + rest) == before + [line.value] + rest;
    }
  }

  function Lines(ds: seq<Datagram>): seq<Shown>
    requires forall d :: d in ds ==> Accepted(d)
  {
    seq(|ds|, i requires 0 <= i < |ds| => ShownFor(ds[i]))
  }

  lemma FirstPacket(server: Peer, ds: seq<Datagram>)
    requires ds != [] && forall d :: d in ds ==> Accepted(d)
    ensures var ps := Packets(server, Encoded(ds));
            && ps[0].payload == EncodeMessage(ShownFor(ds[0]))
            && ps[1..] == Packets(server, Encoded(ds[1..]))
            && Lines(ds) == [ShownFor(ds[0])] + Lines(ds[1..])
  {
  }

  /** The whole path on the subscriber's side: the packets of accepted posts show exactly those posts. */
  lemma {:induction false} ShowsPosts(server: Peer, ds: seq<Datagram>)
    requires forall d :: d in ds ==> Accepted(d)
    ensures ShowAll(Packets(server, Encoded(ds))) == Showing(Lines(ds), true)
    decreases |ds|
  {
    if ds != [] {
      ShowsPosts(server, ds[1..]);
      MessageSize(ds[0]);
      PostSizes(ds[0].bytes);
      MessageRoundTrip(ShownFor(ds[0]));
      FirstPacket(server, ds);
    }
  }

  /** From accepted posts to shown lines through framing and any cut of the stream. */
  lemma StreamShowsPosts(server: Peer, ds: seq<Datagram>, chunks: seq<seq<byte>>)
    requires forall d :: d in ds ==> Accepted(d)
    requires Concat(chunks) == Wire(Encoded(ds))
    ensures Feed([], chunks).rest == []
    ensures ShowAll(Packets(server, Feed([], chunks).msgs)) == Showing(Lines(ds), true)
  {
    EndToEnd(ds, chunks);
    ShowsPosts(server, ds);
  }
}
