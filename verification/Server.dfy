/** The server's classes: the loop body of `Server::Run` over live connection objects, proved to take
    the abstract world exactly as ServerTick says. */
module Server {
  import opened Bytes
  import opened ByteOrder
  import opened BitStream
  import opened NetworkObjects
  import opened Messages
  import opened Connection
  import opened Framing
  import opened ForumState
  import opened ServerTick
  import opened Forums
  import opened Outbox

  function SessionOf(c: TCPClient): Session
    reads c`peer
  {
    Session(c.peer.fd, c.peer.clientId)
  }

  function SessionsOf(clients: seq<TCPClient>): (s: seq<Session>)
    reads clients
    ensures |s| == |clients|
  {
    seq(|clients|, i requires 0 <= i < |clients| reads clients => SessionOf(clients[i]))
  }

  function AsQueued(p: Packet): Queued {
    Queued(p.source.fd, p.source.clientId, p.payload)
  }

  function AllQueued(ps: seq<Packet>): (q: seq<Queued>)
    ensures |q| == |ps|
  {
    seq(|ps|, i requires 0 <= i < |ps| => AsQueued(ps[i]))
  }

  function Payloads(ps: seq<Packet>): (q: PacketQueue)
    ensures |q| == |ps|
  {
    seq(|ps|, i requires 0 <= i < |ps| => ps[i].payload)
  }

  /** Every queued packet carries its connection's own data, as `Select` stamped it. */
  predicate OwnPackets(c: TCPClient)
    reads c
  {
    forall p :: p in c.packets && p.payload != [] ==>
      p.source.fd == c.peer.fd && p.source.clientId == c.peer.clientId
  }

  /** The queues of the remaining connections are those the tick started with. */
  predicate QueuesAre(clients: seq<TCPClient>, queues: map<int, PacketQueue>)
    reads clients
  {
    forall i :: 0 <= i < |clients| ==>
      OwnPackets(clients[i]) && QueueOf(queues, clients[i].peer.fd) == Payloads(clients[i].packets)
  }

  /** Nothing is left in the queues of these connections. */
  predicate Drained(clients: seq<TCPClient>)
    reads clients
  {
    forall c :: c in clients ==> c.packets == []
  }

  lemma TailQueues(clients: seq<TCPClient>, it: nat, queues: map<int, PacketQueue>)
    requires it < |clients| && QueuesAre(clients[it..], queues)
    ensures QueuesAre(clients[it + 1..], queues)
  {
    var tail := clients[it + 1..];
    assert forall i :: 0 <= i < |tail| ==> tail[i] == clients[it..][i + 1];
  }

  class TCPServer {
    var clients: seq<TCPClient>
    var packets: seq<Packet>
    const forums: Forums

    ghost predicate Valid()
      reads this, forums
    {
      forums.Valid() && Distinct(clients)
    }

    constructor (forums: Forums)
      requires forums.Valid()
      ensures Valid() && clients == [] && packets == [] && this.forums == forums
    {
      this.forums := forums;
      clients, packets := [], [];
    }

    /** An accepted connection joins at the end of the table. */
    method AddClient(client: TCPClient)
      requires Valid() && client !in clients
      modifies this`clients
      ensures Valid() && clients == old(clients) + [client]
      ensures SessionsOf(clients) == old(SessionsOf(clients)) + [SessionOf(client)]
    {
      clients := clients + [client];
    }

    method GetPacket() returns (packet: Option<Packet>)
      modifies this`packets
      ensures old(packets) == [] ==> packet == None && packets == []
      ensures old(packets) != [] ==> packet == Some(old(packets)[0]) && packets == old(packets)[1..]
    {
      if packets == [] {
        return None;
      }
      packet := Some(packets[0]);
      packets := packets[1..];
    }

    /** `GetClient(int)`: the first connection with the descriptor. */
    method GetClientByFd(fd: int) returns (client: TCPClient?, ghost i: nat)
      ensures i == FindFd(SessionsOf(clients), fd)
      ensures client == if FindFd(SessionsOf(clients), fd) == |clients| then null
                        else clients[FindFd(SessionsOf(clients), fd)]
    {
      i := 0;
      var it := 0;
      ghost var sessions := SessionsOf(clients);
      while it < |clients|
        invariant it <= |clients| && i == it
        invariant FindFd(sessions, fd) == it + FindFd(sessions[it..], fd)
      {
        if clients[it].peer.fd == fd {
          return clients[it], it;
        }
        it, i := it + 1, i + 1;
      }
      client := null;
    }

    /** `GetClient(const std::string&)`: the first connection that announced the id. */
    method GetClientById(clientId: Text) returns (client: TCPClient?)
      ensures client == if FindId(SessionsOf(clients), clientId) == |clients| then null
                        else clients[FindId(SessionsOf(clients), clientId)]
    {
      var it := 0;
      ghost var sessions := SessionsOf(clients);
      while it < |clients|
        invariant it <= |clients|
        invariant FindId(sessions, clientId) == it + FindId(sessions[it..], clientId)
      {
        if clients[it].peer.clientId == clientId {
          return clients[it];
        }
        it := it + 1;
      }
      client := null;
    }

    /** The connection at `i` is dropped, and an announced client goes offline. */
    method RemoveClientAt(i: nat)
      requires Valid() && i < |clients|
      modifies this`clients, forums
      ensures Valid() && clients == old(clients)[..i] + old(clients)[i + 1..]
      ensures forums.hist == Disconnect(old(forums.hist), old(SessionOf(clients[i])))
    {
      if clients[i].peer.clientId != [] {
        forums.SetConnectionStatus(clients[i].peer.clientId, false);
      }
      clients := clients[..i] + clients[i + 1..];
    }

    method Kick(client: TCPClient, ghost i: nat)
      requires Valid() && i < |clients| && clients[i] == client
      modifies this`clients, forums
      ensures Valid() && clients == old(clients)[..i] + old(clients)[i + 1..]
      ensures World(SessionsOf(clients), forums.hist) ==
              ServerTick.Kick(old(World(SessionsOf(clients), forums.hist)), i)
    {
      var it := 0;
      while it < |clients| && clients[it] != client
        invariant it <= i
      {
        it := it + 1;
      }
      RemoveClientAt(it);
    }

    /** Moves one connection's queue into the server's, up to an end-of-stream packet. */
    method Drain(client: TCPClient) returns (remove: bool)
      requires OwnPackets(client)
      modifies this`packets, client`packets
      ensures remove == ([] in Payloads(old(client.packets))) && (!remove ==> client.packets == [])
      ensures AllQueued(packets) ==
              AllQueued(old(packets)) + Stamped(SessionOf(client), Before(Payloads(old(client.packets))))
    {
      ghost var s, queue := SessionOf(client), Payloads(client.packets);
      ghost var start := AllQueued(packets);
      remove := false;
      while true
        invariant OwnPackets(client)
        invariant [] in queue <==> [] in Payloads(client.packets)
        invariant AllQueued(packets) + Stamped(s, Before(Payloads(client.packets))) == start + Stamped(s, Before(queue))
        decreases |client.packets|
      {
        DrainStep(s, client.packets, packets);
        ghost var before := client.packets;
        var packet := client.GetPacket();
        if packet == None {
          break;
        }
        assert Payloads(before) == [packet.value.payload] + Payloads(client.packets);
        if |packet.value.payload| == 0 {
          remove := true;
          break;
        }
        assert packet.value in before;
        packets := packets + [packet.value];
      }
    }

    /** What one pass of the loop in Process leaves to do is what was left before it. */
    method ProcessOne(it: nat, client: TCPClient, ghost queues: map<int, PacketQueue>) returns (next: nat)
      requires Valid() && it < |clients| && clients[it] == client && QueuesAre(clients[it..], queues)
      requires Drained(clients[..it])
      modifies this`clients, this`packets, client`packets, forums
      ensures Valid() && next <= |clients| && clients[next..] == old(clients)[it + 1..]
      ensures QueuesAre(clients[next..], queues) && Drained(clients[..next])
      ensures forall c :: c in clients ==> c in old(clients)
      ensures Joined(SessionsOf(clients)[..next], AllQueued(packets),
                     ServerTick.Process(SessionsOf(clients)[next..], queues, forums.hist)) ==
              Joined(old(SessionsOf(clients))[..it], AllQueued(old(packets)),
                     ServerTick.Process(old(SessionsOf(clients))[it..], queues, old(forums.hist)))
    {
      ghost var sessions := SessionsOf(clients);
      ProcessStep(sessions, it, queues, forums.hist, AllQueued(packets));
      var remove := DrainAt(it, client, queues);
      next := Settle(it, remove);
    }

    /** Drain for the connection under the iterator: the others are left alone. */
    method DrainAt(it: nat, client: TCPClient, ghost queues: map<int, PacketQueue>) returns (remove: bool)
      requires Valid() && it < |clients| && clients[it] == client && QueuesAre(clients[it..], queues)
      requires Drained(clients[..it])
      modifies this`packets, client`packets
      ensures SessionsOf(clients) == old(SessionsOf(clients)) && QueuesAre(clients[it + 1..], queues)
      ensures Drained(clients[..if remove then it else it + 1])
      ensures var s := SessionsOf(clients)[it];
              var q := QueueOf(queues, s.fd);
              && remove == ([] in q)
              && AllQueued(packets) == AllQueued(old(packets)) + Stamped(s, Before(q))
    {
      ghost var tail := clients[it + 1..];
      assert client == clients[it..][0] && client !in tail;
      TailQueues(clients, it, queues);
      remove := Drain(client);
      assert QueuesAre(tail, queues);
      assert clients[..it + 1] == clients[..it] + [client];
    }

    /** A connection that ended is erased, and the iterator moves on past any other. */
    method Settle(it: nat, remove: bool) returns (next: nat)
      requires Valid() && it < |clients|
      modifies this`clients, forums
      ensures Valid() && next <= |clients| && clients[next..] == old(clients)[it + 1..]
      ensures clients[..next] == old(clients)[..if remove then it else it + 1]
      ensures forall c :: c in clients ==> c in old(clients)
      ensures SessionsOf(clients)[next..] == old(SessionsOf(clients))[it + 1..]
      ensures SessionsOf(clients)[..next] == old(SessionsOf(clients))[..if remove then it else it + 1]
      ensures forums.hist == if remove then Disconnect(old(forums.hist), old(SessionOf(clients[it]))) else old(forums.hist)
    {
      if remove {
        RemoveClientAt(it);
        next := it;
      } else {
        next := it + 1;
      }
    }

    /** `TCPServer::Process`: walks the table with an iterator and erases the connections that ended. */
    method Process(ghost queues: map<int, PacketQueue>)
      requires Valid() && packets == [] && QueuesAre(clients, queues)
      modifies this`clients, this`packets, clients`packets, forums
      ensures Valid() && (forall c :: c in clients ==> c in old(clients))
      ensures Drained(clients)
      ensures ServerTick.Process(old(SessionsOf(clients)), queues, old(forums.hist)) ==
              Intake(SessionsOf(clients), AllQueued(packets), forums.hist)
    {
      ghost var goal := ServerTick.Process(SessionsOf(clients), queues, forums.hist);
      var it: nat := 0;
      while it < |clients|
        invariant Valid() && it <= |clients| && QueuesAre(clients[it..], queues) && Drained(clients[..it])
        invariant forall c :: c in clients ==> c in old(clients)
        invariant Joined(SessionsOf(clients)[..it], AllQueued(packets),
                         ServerTick.Process(SessionsOf(clients)[it..], queues, forums.hist)) == goal
        decreases |clients| - it
      {
        assert clients[it] in clients;
        it := ProcessOne(it, clients[it], queues);
      }
      assert clients[..it] == clients;
    }
  }

  /** What the loop has done in front of what it has still to do. */
  function Joined(kept: seq<Session>, packets: seq<Queued>, rest: Intake): Intake {
    Intake(kept + rest.kept, packets + rest.packets, rest.hist)
  }

  lemma ProcessStep(sessions: seq<Session>, it: nat, queues: map<int, PacketQueue>, h: History, packets: seq<Queued>)
    requires it < |sessions|
    ensures var s, q := sessions[it], QueueOf(queues, sessions[it].fd);
            var more := packets + Stamped(s, Before(q));
            Joined(sessions[..it], packets, ServerTick.Process(sessions[it..], queues, h)) ==
            if [] in q then
              Joined(sessions[..it], more, ServerTick.Process(sessions[it + 1..], queues, Disconnect(h, s)))
            else Joined(sessions[..it + 1], more, ServerTick.Process(sessions[it + 1..], queues, h))
  {
    assert sessions[it..][0] == sessions[it] && sessions[it..][1..] == sessions[it + 1..];
    assert sessions[..it + 1] == sessions[..it] + [sessions[it]];
  }

  lemma DrainStep(s: Session, queue: seq<Packet>, packets: seq<Packet>)
    ensures queue == [] || queue[0].payload == [] ==> Stamped(s, Before(Payloads(queue))) == []
    ensures queue != [] && queue[0].payload != [] && queue[0].source.fd == s.fd && queue[0].source.clientId == s.clientId
      ==> AllQueued(packets) + Stamped(s, Before(Payloads(queue))) ==
          AllQueued(packets + [queue[0]]) + Stamped(s, Before(Payloads(queue[1..])))
  {
    if queue != [] {
      assert Payloads(queue)[1..] == Payloads(queue[1..]);
    }
  }

  /** A UDP datagram as the server queues it. */
  class UDPServer {
    var packets: seq<Datagram>

    constructor ()
      ensures packets == []
    {
      packets := [];
    }

    method GetPacket() returns (packet: Option<Datagram>)
      modifies this
      ensures old(packets) == [] ==> packet == None && packets == []
      ensures old(packets) != [] ==> packet == Some(old(packets)[0]) && packets == old(packets)[1..]
    {
      if packets == [] {
        return None;
      }
      packet := Some(packets[0]);
      packets := packets[1..];
    }
  }

  class Server {
    const host: Host
    const forums: Forums
    const tcp: TCPServer
    const udp: UDPServer

    ghost predicate Valid()
      reads this, tcp, forums
    {
      tcp.forums == forums && tcp.Valid()
    }

    /** The abstract world. */
    ghost function Abs(): World
      reads this, tcp, tcp.clients, forums
    {
      World(SessionsOf(tcp.clients), forums.hist)
    }

    constructor (host: Host)
      ensures Valid() && Abs() == BOOT && tcp.packets == [] && udp.packets == []
    {
      var f := new Forums();
      this.host, forums := host, f;
      tcp := new TCPServer(f);
      udp := new UDPServer();
    }

    /** The body of case RPC_CLIENT_ANNOUNCE. */
    method Announced(client: TCPClient, ghost i: nat, bs: BitStream)
      requires Valid() && bs.Valid() && i < |tcp.clients| && tcp.clients[i] == client
      modifies tcp`clients, client`peer, forums, bs`readPtr
      ensures Valid() && client.peer.fd == old(client.peer.fd)
      ensures forall c :: c in tcp.clients ==> c in old(tcp.clients)
      ensures Abs() == HandleAnnounce(old(Abs()), i, GetText(old(bs.Unread())).text)
    {
      var count, clientId := bs.ReadText();
      if count == 0 || |clientId| == 0 {
        tcp.Kick(client, i);
        return;
      }
      var other := tcp.GetClientById(clientId);
      if other != null {
        tcp.Kick(client, i);
        return;
      }
      if client.peer.clientId != [] {
        return;
      }
      ComesOnline(client, i, clientId);
    }

    method ComesOnline(client: TCPClient, ghost i: nat, clientId: Text)
      requires Valid() && i < |tcp.clients| && tcp.clients[i] == client
      modifies client`peer, forums
      ensures Valid() && client.peer.fd == old(client.peer.fd)
      ensures var w := old(Abs());
              Abs() == OnForum(w.(sessions := w.sessions[i := w.sessions[i].(clientId := clientId)]),
                               ForumState.SetConnectionStatus(clientId, true))
    {
      ghost var sessions := SessionsOf(tcp.clients);
      client.SetClientID(clientId);
      assert SessionsOf(tcp.clients) == sessions[i := sessions[i].(clientId := clientId)];
      forums.SetConnectionStatus(clientId, true);
    }

    /** The packet as a stream, its RPC byte already read. */
    method OpenPacket(packet: Packet) returns (bs: BitStream, count: nat, rpc: byte)
      ensures fresh(bs) && bs.Valid()
      ensures if packet.payload == [] then count != 1
              else count == 1 && rpc == packet.payload[0] && bs.Unread() == packet.payload[1..]
    {
      bs := new BitStream(host);
      var _ := bs.WriteBytes(packet.payload);
      bs.ResetReadPointer();
      assert bs.Unread() == packet.payload;
      count, rpc := bs.ReadByte();
    }

    /** One packet; `pool` bounds the connections it may touch. */
    method HandlePacket(packet: Packet, ghost pool: set<TCPClient>)
      requires Valid() && forall c :: c in tcp.clients ==> c in pool
      modifies tcp`clients, pool`peer, forums
      ensures Valid() && forall c :: c in tcp.clients ==> c in pool && c in old(tcp.clients)
      ensures forall c :: c in pool ==> c.peer.fd == old(c.peer.fd)
      ensures Abs() == ServerTick.HandlePacket(old(Abs()), AsQueued(packet))
    {
      var client, i := tcp.GetClientByFd(packet.source.fd);
      if client == null {
        return;
      }
      var bs, count, rpc := OpenPacket(packet);
      if count != 1 || !IsValidRPC(rpc) {
        return;
      }
      Dispatch(client, i, packet.source.clientId, rpc, bs);
    }

    method Dispatch(client: TCPClient, ghost i: nat, clientId: Text, rpc: byte, bs: BitStream)
      requires Valid() && bs.Valid() && i < |tcp.clients| && tcp.clients[i] == client
      modifies tcp`clients, client`peer, forums, bs`readPtr
      ensures Valid() && client.peer.fd == old(client.peer.fd)
      ensures forall c :: c in tcp.clients ==> c in old(tcp.clients)
      ensures Abs() == ServerTick.Dispatch(old(Abs()), i, clientId, rpc, old(bs.Unread()))
    {
      if clientId == [] && rpc != RPC_CLIENT_ANNOUNCE {
        tcp.Kick(client, i);
        return;
      }
      if rpc == RPC_CLIENT_ANNOUNCE {
        Announced(client, i, bs);
      } else if rpc == RPC_SUBSCRIBE {
        Subscribed(clientId, bs);
      } else if rpc == RPC_UNSUBSCRIBE {
        Unsubscribed(clientId, bs);
      }
    }

    /** The body of case RPC_SUBSCRIBE. */
    method Subscribed(clientId: Text, bs: BitStream)
      requires Valid() && bs.Valid()
      modifies forums, bs`readPtr
      ensures Valid()
      ensures var got := GetText(old(bs.Unread()));
              forums.hist == if got.rest == [] then old(forums.hist)
                             else Apply(old(forums.hist), Subscribe(clientId, got.text, got.rest[0] != 0))
    {
      var count, topic := bs.ReadText();
      var sf;
      count, sf := bs.ReadByte();
      if count != 1 {
        return;
      }
      var _ := forums.Subscribe(clientId, topic, sf != 0);
    }

    /** The body of case RPC_UNSUBSCRIBE. */
    method Unsubscribed(clientId: Text, bs: BitStream)
      requires Valid() && bs.Valid()
      modifies forums, bs`readPtr
      ensures Valid()
      ensures var got := GetText(old(bs.Unread()));
              forums.hist == if got.text == [] then old(forums.hist)
                             else Apply(old(forums.hist), Unsubscribe(clientId, got.text))
    {
      var count, topic := bs.ReadText();
      if count == 0 || |topic| == 0 {
        return;
      }
      var _ := forums.Unsubscribe(clientId, topic);
    }

    method ProcessTCPPackets(ghost pool: set<TCPClient>)
      requires Valid() && forall c :: c in tcp.clients ==> c in pool
      modifies tcp, pool`peer, forums
      ensures Valid() && tcp.packets == [] && forall c :: c in tcp.clients ==> c in old(tcp.clients)
      ensures forall c :: c in pool ==> c.peer.fd == old(c.peer.fd)
      ensures Abs() == HandlePackets(old(Abs()), AllQueued(old(tcp.packets)))
    {
      ghost var goal := HandlePackets(Abs(), AllQueued(tcp.packets));
      while true
        invariant Valid() && forall c :: c in tcp.clients ==> c in pool && c in old(tcp.clients)
        invariant forall c :: c in pool ==> c.peer.fd == old(c.peer.fd)
        invariant HandlePackets(Abs(), AllQueued(tcp.packets)) == goal
        decreases |tcp.packets|
      {
        ghost var queue := AllQueued(tcp.packets);
        var packet := tcp.GetPacket();
        if packet == None {
          break;
        }
        assert AllQueued(tcp.packets) == queue[1..];
        HandlePacket(packet.value, pool);
      }
    }

    method ProcessUDPPackets()
      requires Valid()
      modifies udp, forums
      ensures Valid() && udp.packets == [] && forums.hist == PublishAll(old(forums.hist), old(udp.packets))
    {
      ghost var goal := PublishAll(forums.hist, udp.packets);
      while true
        invariant Valid() && PublishAll(forums.hist, udp.packets) == goal
        decreases |udp.packets|
      {
        var packet := udp.GetPacket();
        if packet == None {
          break;
        }
        var bs := new BitStream(host);
        var _ := bs.WriteBytes(packet.value.bytes);
        assert bs.buffer == packet.value.bytes;
        var post := ReadUDPPacket(bs);
        if post == None {
          continue;
        }
        var _ := forums.AddMessage(post.value.topic, post.value.text, post.value.kind,
                                   Source(packet.value.ip, packet.value.port));
      }
    }

    method SendList(client: TCPClient, topic: Text, ms: seq<Message>)
      modifies client`sent
      ensures client.sent == old(client.sent) + Wire(ListBytes(topic, ms))
    {
      var j := 0;
      assert ListBytes(topic, ms[..0]) == [];
      while j < |ms|
        invariant j <= |ms| && client.sent == old(client.sent) + Wire(ListBytes(topic, ms[..j]))
      {
        var m := ms[j];
        var bs := new BitStream(host);
        WriteMessage(bs, Shown(PostData(topic, m.kind, m.text), m.source.ip, m.source.port));
        client.Send(bs);
        OneMessage(topic, ms, j);
        Associative(old(client.sent), Wire(ListBytes(topic, ms[..j])), Prefixed(MessageBytes(topic, m)));
        j := j + 1;
      }
      assert ms[..j] == ms;
    }

    /** What one client is sent: every message of every list, framed, in the order of the lists. */
    method SendLists(client: TCPClient, lists: seq<(Text, seq<Message>)>)
      modifies client`sent
      ensures client.sent == old(client.sent) + Wire(AllBytes(lists))
    {
      var i := 0;
      while i < |lists|
        invariant i <= |lists| && client.sent == old(client.sent) + Wire(AllBytes(lists[..i]))
      {
        SendList(client, lists[i].0, lists[i].1);
        OneList(lists, i);
        Associative(old(client.sent), Wire(AllBytes(lists[..i])), Wire(ListBytes(lists[i].0, lists[i].1)));
        i := i + 1;
      }
      assert lists[..i] == lists;
    }

    /** Each announced client is handed its messages and sent them on its own connection; `outbox` pairs
        what was sent with the batch logged for it. */
    method ProcessForumsMessages(ghost base: map<TCPClient, seq<byte>>) returns (ghost outbox: seq<Outgoing>)
      requires Valid() && HadSent(tcp.clients, base)
      modifies forums, tcp.clients`sent
      ensures Valid() && SessionsOf(tcp.clients) == old(SessionsOf(tcp.clients))
      ensures forums.hist == Deliver(old(forums.hist), SessionsOf(tcp.clients))
      ensures SentOut(outbox, old(forums.hist.log), forums.hist.log, tcp.clients, base)
    {
      ghost var sessions, before := SessionsOf(tcp.clients), forums.hist.log;
      ghost var goal := Deliver(forums.hist, sessions);
      RoundStart(before, tcp.clients, SentSoFar(tcp.clients), base);
      outbox := [];
      var i := 0;
      while i < |tcp.clients|
        invariant Valid() && i <= |tcp.clients| && SessionsOf(tcp.clients) == sessions
        invariant Deliver(forums.hist, sessions[i..]) == goal
        invariant Round(outbox, before, forums.hist.log, tcp.clients, i, SentSoFar(tcp.clients), base)
      {
        var client := tcp.clients[i];
        DeliverNext(forums.hist, sessions, i);
        outbox := ServeClient(client, i, before, base, outbox);
        i := i + 1;
      }
      RoundEnds(outbox, before, forums.hist.log, tcp.clients, base);
    }

    /** The body of the loop. */
    method ServeClient(client: TCPClient, ghost i: nat, ghost before: seq<Batch>, ghost base: map<TCPClient, seq<byte>>,
                       ghost outbox: seq<Outgoing>)
      returns (ghost more: seq<Outgoing>)
      requires Valid() && i < |tcp.clients| && tcp.clients[i] == client
      requires Round(outbox, before, forums.hist.log, tcp.clients, i, SentSoFar(tcp.clients), base)
      modifies forums, client`sent
      ensures Valid()
      ensures forums.hist == if client.peer.clientId == [] then old(forums.hist)
                             else Apply(old(forums.hist), GetUserMessages(client.peer.clientId))
      ensures Round(more, before, forums.hist.log, tcp.clients, i + 1, SentSoFar(tcp.clients), base)
    {
      if client.peer.clientId == [] {
        RoundSkips(outbox, before, forums.hist.log, tcp.clients, i, SentSoFar(tcp.clients), base);
        more := outbox;
      } else {
        more := HandOut(client, i, before, base, outbox);
      }
    }

    /** For an announced client. */
    method HandOut(client: TCPClient, ghost i: nat, ghost before: seq<Batch>, ghost base: map<TCPClient, seq<byte>>,
                   ghost outbox: seq<Outgoing>)
      returns (ghost more: seq<Outgoing>)
      requires Valid() && i < |tcp.clients| && tcp.clients[i] == client && client.peer.clientId != []
      requires Round(outbox, before, forums.hist.log, tcp.clients, i, SentSoFar(tcp.clients), base)
      modifies forums, client`sent
      ensures Valid() && forums.hist == Apply(old(forums.hist), GetUserMessages(client.peer.clientId))
      ensures Round(more, before, forums.hist.log, tcp.clients, i + 1, SentSoFar(tcp.clients), base)
    {
      ghost var log, now := forums.hist.log, SentSoFar(tcp.clients);
      ghost var batch;
      var lists;
      lists, batch := SendMessages(client, tcp.clients);
      more := outbox + [Outgoing(client, lists)];
      RoundServes(outbox, before, log, tcp.clients, i, now, base, Outgoing(client, lists), batch);
    }

    /** Asks the forum for a client's messages and sends them to it. */
    method SendMessages(client: TCPClient, ghost clients: seq<TCPClient>)
      returns (lists: seq<(Text, seq<Message>)>, ghost batch: Batch)
      requires Valid()
      modifies forums, client`sent
      ensures Valid() && forums.hist == Apply(old(forums.hist), GetUserMessages(client.peer.clientId))
      ensures forums.hist.log == old(forums.hist.log) + [batch]
      ensures batch.client == client.peer.clientId && Lists(lists, batch.lists)
      ensures SentSoFar(clients) ==
              if client in clients then old(SentSoFar(clients))[client := old(client.sent) + Wire(AllBytes(lists))]
              else old(SentSoFar(clients))
    {
      batch := Batch(client.peer.clientId, UserMessages(forums.hist.forum, client.peer.clientId));
      lists := forums.GetUserMessages(client.peer.clientId);
      SendLists(client, lists);
    }

    /** Connections and packets: everything up to the posts. */
    method ServeConnections(ghost queues: map<int, PacketQueue>, ghost pool: set<TCPClient>)
      requires Valid() && tcp.packets == [] && QueuesAre(tcp.clients, queues)
      requires forall c :: c in tcp.clients ==> c in pool
      modifies tcp, pool`peer, pool`packets, forums
      ensures Valid() && tcp.packets == [] && Drained(tcp.clients) && forums.hist.log == old(forums.hist.log)
      ensures forall c :: c in tcp.clients ==> c in old(tcp.clients)
      ensures forall c :: c in pool ==> c.peer.fd == old(c.peer.fd)
      ensures var intake := ServerTick.Process(old(SessionsOf(tcp.clients)), queues, old(forums.hist));
              Abs() == HandlePackets(World(intake.kept, intake.hist), intake.packets)
    {
      ProcessLog(SessionsOf(tcp.clients), queues, forums.hist);
      tcp.Process(queues);
      PacketsLog(Abs(), AllQueued(tcp.packets));
      ProcessTCPPackets(pool);
    }

    /** Posts, then delivery. */
    method PublishAndDeliver(ghost base: map<TCPClient, seq<byte>>) returns (ghost outbox: seq<Outgoing>)
      requires Valid() && HadSent(tcp.clients, base)
      modifies udp, forums, tcp.clients`sent
      ensures Valid() && udp.packets == [] && SessionsOf(tcp.clients) == old(SessionsOf(tcp.clients))
      ensures forums.hist == Deliver(PublishAll(old(forums.hist), old(udp.packets)), SessionsOf(tcp.clients))
      ensures SentOut(outbox, old(forums.hist.log), forums.hist.log, tcp.clients, base)
    {
      PublishLog(forums.hist, udp.packets);
      ProcessUDPPackets();
      outbox := ProcessForumsMessages(base);
    }

    /** The body of the loop in `Run` once the selector has filled the queues: whatever the tick hands out
        is sent. */
    method RunTick(ghost queues: map<int, PacketQueue>) returns (ghost outbox: seq<Outgoing>)
      requires Valid() && tcp.packets == [] && QueuesAre(tcp.clients, queues)
      modifies tcp, tcp.clients`peer, tcp.clients`packets, tcp.clients`sent, udp, forums
      ensures Valid() && tcp.packets == [] && udp.packets == [] && Drained(tcp.clients)
      ensures forall c :: c in tcp.clients ==> c in old(tcp.clients)
      ensures forall c :: c in old(tcp.clients) ==> c.peer.fd == old(c.peer.fd)
      ensures Abs() == Tick(old(Abs()), Input(None, queues, old(udp.packets)))
      ensures SentOut(outbox, old(forums.hist.log), forums.hist.log, tcp.clients, old(SentSoFar(tcp.clients)))
    {
      outbox := TickAmong(queues, set c | c in tcp.clients);
    }

    method TickAmong(ghost queues: map<int, PacketQueue>, ghost pool: set<TCPClient>) returns (ghost outbox: seq<Outgoing>)
      requires Valid() && tcp.packets == [] && QueuesAre(tcp.clients, queues)
      requires forall c :: c in tcp.clients ==> c in pool
      modifies tcp, pool`peer, pool`packets, pool`sent, udp, forums
      ensures Valid() && tcp.packets == [] && udp.packets == [] && Drained(tcp.clients)
      ensures forall c :: c in tcp.clients ==> c in old(tcp.clients)
      ensures forall c :: c in pool ==> c.peer.fd == old(c.peer.fd)
      ensures Abs() == Tick(old(Abs()), Input(None, queues, old(udp.packets)))
      ensures SentOut(outbox, old(forums.hist.log), forums.hist.log, tcp.clients, old(SentSoFar(tcp.clients)))
    {
      ghost var w, posts, base := Abs(), udp.packets, SentSoFar(tcp.clients);
      ServeConnections(queues, pool);
      ghost var served := Abs();
      outbox := PublishAndDeliver(base);
      TickInStages(w, queues, posts, ServerTick.Process(w.sessions, queues, w.hist), served);
    }
  }

  /** A tick that accepts is a tick without, from the larger table. */
  lemma AcceptFirst(w: World, accepted: Option<int>, queues: map<int, PacketQueue>, posts: seq<Datagram>)
    ensures Tick(w, Input(accepted, queues, posts)) == Tick(Accept(w, accepted), Input(None, queues, posts))
  {
  }

  lemma DeliverNext(h: History, sessions: seq<Session>, i: nat)
    requires i < |sessions|
    ensures var c := sessions[i].clientId;
            Deliver(h, sessions[i..]) == Deliver(if c == [] then h else Apply(h, GetUserMessages(c)), sessions[i + 1..])
  {
    assert sessions[i..][1..] == sessions[i + 1..];
  }

  lemma TickInStages(w: World, queues: map<int, PacketQueue>, posts: seq<Datagram>, intake: Intake, served: World)
    requires intake == ServerTick.Process(w.sessions, queues, w.hist)
    requires served == HandlePackets(World(intake.kept, intake.hist), intake.packets)
    ensures Tick(w, Input(None, queues, posts)) ==
            World(served.sessions, Deliver(PublishAll(served.hist, posts), served.sessions))
  {
  }
}
