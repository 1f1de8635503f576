/** The whole body of the server's loop: the selector accepts and receives, and the rest of the tick works
    on what it queued. */
module ServerLoop {
  import opened Bytes
  import opened BitStream
  import opened Framing
  import opened Messages
  import opened Connection
  import opened ServerTick
  import opened ServerLaws
  import opened Outbox
  import opened Server

  /** Connections in good order, each with fragments of its own among these. */
  ghost predicate Live(clients: seq<TCPClient>, fragments: set<BitStream>)
    reads fragments
  {
    && (forall c :: c in clients ==> c.fragments in fragments && c.Valid())
    && (forall c, d :: c in clients && d in clients && c != d ==> c.fragments != d.fragments)
  }

  /** What a descriptor received, if it was ready; nothing at all is the end of its stream. */
  function ChunkFor(chunks: map<int, seq<byte>>, fd: int): Option<seq<byte>> {
    if fd in chunks then Some(chunks[fd]) else None
  }

  function QueueFrom(buffer: seq<byte>, chunk: Option<seq<byte>>): PacketQueue {
    match chunk
    case None => []
    case Some(bytes) => if bytes == [] then [[]] else Drain(buffer + bytes).msgs
  }

  function BufferAfter(buffer: seq<byte>, chunk: Option<seq<byte>>): seq<byte> {
    match chunk
    case None => buffer
    case Some(bytes) => if bytes == [] then buffer else Drain(buffer + bytes).rest
  }

  predicate DistinctFds(clients: seq<TCPClient>)
    reads clients
  {
    forall i, j :: 0 <= i < j < |clients| ==> clients[i].peer.fd != clients[j].peer.fd
  }

  ghost function FdsOf(clients: seq<TCPClient>): map<TCPClient, int>
    reads clients`peer
  {
    map c | c in clients :: c.peer.fd
  }

  /** The queues that the selector fills from empty ones. */
  ghost function Received(clients: seq<TCPClient>, chunks: map<int, seq<byte>>, fragments: set<BitStream>):
    map<int, PacketQueue>
    reads clients, fragments
    requires DistinctFds(clients) && forall c :: c in clients ==> c.fragments in fragments
  {
    map i | 0 <= i < |clients| ::
      clients[i].peer.fd := QueueFrom(clients[i].fragments.buffer, ChunkFor(chunks, clients[i].peer.fd))
  }

  lemma ReceivedFor(clients: seq<TCPClient>, chunks: map<int, seq<byte>>, fragments: set<BitStream>)
    requires DistinctFds(clients) && forall c :: c in clients ==> c.fragments in fragments
    ensures var queues := Received(clients, chunks, fragments);
            && (forall fd :: fd in queues ==> exists i :: 0 <= i < |clients| && clients[i].peer.fd == fd)
            && forall c :: c in clients ==>
                 && c.peer.fd in queues
                 && queues[c.peer.fd] == QueueFrom(c.fragments.buffer, ChunkFor(chunks, c.peer.fd))
  {
    var queues := Received(clients, chunks, fragments);
    forall c | c in clients
      ensures c.peer.fd in queues && queues[c.peer.fd] == QueueFrom(c.fragments.buffer, ChunkFor(chunks, c.peer.fd))
    {
      var i :| 0 <= i < |clients| && clients[i] == c;
      assert clients[i].peer.fd in queues;
    }
  }

  /** The fragments each connection is left with. */
  ghost function Expected(clients: seq<TCPClient>, chunks: map<int, seq<byte>>, fragments: set<BitStream>):
    map<TCPClient, seq<byte>>
    reads clients, fragments
    requires forall c :: c in clients ==> c.fragments in fragments
  {
    map c | c in clients :: BufferAfter(c.fragments.buffer, ChunkFor(chunks, c.peer.fd))
  }

  ghost predicate Left(clients: seq<TCPClient>, expected: map<TCPClient, seq<byte>>, fragments: set<BitStream>)
    reads fragments
  {
    forall c :: c in clients ==> c.fragments in fragments && c in expected && c.fragments.buffer == expected[c]
  }

  lemma FewerLeft(clients: seq<TCPClient>, all: seq<TCPClient>, expected: map<TCPClient, seq<byte>>,
                  fragments: set<BitStream>)
    requires Left(all, expected, fragments) && forall c :: c in clients ==> c in all
    ensures Left(clients, expected, fragments)
  {
  }

  lemma OwnPayloads(c: TCPClient, msgs: seq<seq<byte>>)
    requires c.packets == Packets(c.peer, msgs)
    ensures OwnPackets(c) && Payloads(c.packets) == msgs
  {
  }

  /** The packets completed by what came behind these bytes, and the fragments left. */
  ghost predicate Got(c: TCPClient, buffer: seq<byte>, chunks: map<int, seq<byte>>)
    reads c, c.fragments
  {
    var chunk := ChunkFor(chunks, c.peer.fd);
    OwnPackets(c) && Payloads(c.packets) == QueueFrom(buffer, chunk) && c.fragments.buffer == BufferAfter(buffer, chunk)
  }

  /** One connection that may be ready. */
  method ReceiveOne(client: TCPClient, chunks: map<int, seq<byte>>)
    requires client.Valid() && client.packets == []
    modifies client`packets, client.fragments
    ensures client.Valid() && Got(client, old(client.fragments.buffer), chunks)
  {
    if client.peer.fd in chunks {
      ghost var buffer := client.fragments.buffer;
      client.Select(chunks[client.peer.fd]);
      if chunks[client.peer.fd] != [] {
        OwnPayloads(client, Drain(buffer + chunks[client.peer.fd]).msgs);
      }
    }
  }

  /** The selector's pass over the connections. */
  method Receive(clients: seq<TCPClient>, chunks: map<int, seq<byte>>, ghost fragments: set<BitStream>)
    requires Live(clients, fragments) && Distinct(clients) && Drained(clients)
    modifies clients`packets, fragments
    ensures Live(clients, fragments) && SessionsOf(clients) == old(SessionsOf(clients))
    ensures SentSoFar(clients) == old(SentSoFar(clients)) && FdsOf(clients) == old(FdsOf(clients))
    ensures forall c :: c in clients ==> Got(c, old(c.fragments.buffer), chunks)
  {
    var k := 0;
    while k < |clients|
      invariant k <= |clients| && Live(clients, fragments)
      invariant forall i :: k <= i < |clients| ==>
        clients[i].packets == [] && clients[i].fragments.buffer == old(clients[i].fragments.buffer)
      invariant forall i :: 0 <= i < k ==> Got(clients[i], old(clients[i].fragments.buffer), chunks)
    {
      assert clients[k] in clients;
      ReceiveOne(clients[k], chunks);
      k := k + 1;
    }
  }

  lemma FewerLive(clients: seq<TCPClient>, all: seq<TCPClient>, fragments: set<BitStream>)
    requires Live(all, fragments) && forall c :: c in clients ==> c in all
    ensures Live(clients, fragments)
  {
  }

  /** The queues are then the ones the tick is given. */
  method ReceiveAll(clients: seq<TCPClient>, chunks: map<int, seq<byte>>, ghost fragments: set<BitStream>)
    requires Live(clients, fragments) && Distinct(clients) && Drained(clients) && DistinctFds(clients)
    modifies clients`packets, fragments
    ensures Live(clients, fragments) && SessionsOf(clients) == old(SessionsOf(clients))
    ensures SentSoFar(clients) == old(SentSoFar(clients)) && FdsOf(clients) == old(FdsOf(clients))
    ensures QueuesAre(clients, old(Received(clients, chunks, fragments)))
    ensures Left(clients, old(Expected(clients, chunks, fragments)), fragments)
  {
    ReceivedFor(clients, chunks, fragments);
    Receive(clients, chunks, fragments);
  }

  /** In the state between ticks descriptors are distinct, so the loop can go on. */
  lemma DistinctAtRest(server: Server)
    requires server.Valid() && AtRest(server.Abs())
    ensures DistinctFds(server.tcp.clients)
  {
    var clients := server.tcp.clients;
    forall i, j | 0 <= i < j < |clients|
      ensures clients[i].peer.fd != clients[j].peer.fd
    {
      assert SessionsOf(clients)[i].fd != SessionsOf(clients)[j].fd;
    }
  }

  // ---- The whole body ----

  /** What the rest of a tick starts from once a new connection has joined: the abstract world, the posts,
      and each connection with its descriptor and what it has been sent. */
  datatype View = View(
    world: World, posts: seq<Datagram>, fds: map<TCPClient, int>, sent: map<TCPClient, seq<byte>>)

  ghost function ViewOf(server: Server, all: seq<TCPClient>): View
    reads server, server.tcp, server.udp, server.forums, all`peer, all`sent, all
  {
    View(World(SessionsOf(all), server.forums.hist), server.udp.packets, FdsOf(all), SentSoFar(all))
  }

  /** One tick of the abstract world has been taken; whatever it handed out has been sent; the connections
      left are among the ones there were, each with its descriptor, and nothing is left in their queues. */
  ghost predicate Ticked(server: Server, view: View, queues: map<int, PacketQueue>, outbox: seq<Outgoing>)
    reads server, server.tcp, server.udp, server.forums, server.tcp.clients
  {
    && server.Valid() && server.tcp.packets == [] && server.udp.packets == [] && Drained(server.tcp.clients)
    && (forall c :: c in server.tcp.clients ==> c in view.fds && c.peer.fd == view.fds[c])
    && server.Abs() == Tick(view.world, Input(None, queues, view.posts))
    && SentOut(outbox, view.world.hist.log, server.forums.hist.log, server.tcp.clients, view.sent)
  }

  /** The body of the loop in `Run`, from bytes received to bytes sent: one tick of the abstract world on
      the packets put together from the chunks, a new connection having joined the table. */
  method RunLoop(server: Server, all: seq<TCPClient>, chunks: map<int, seq<byte>>, ghost fragments: set<BitStream>)
    returns (ghost outbox: seq<Outgoing>)
    requires server.Valid() && server.tcp.packets == [] && server.tcp.clients == all
    requires Live(all, fragments) && Drained(all) && DistinctFds(all)
    modifies server.tcp, server.udp, server.forums, fragments, all`peer, all`packets, all`sent
    ensures Ticked(server, old(ViewOf(server, all)), old(Received(all, chunks, fragments)), outbox)
    ensures Live(server.tcp.clients, fragments)
    ensures Left(server.tcp.clients, old(Expected(all, chunks, fragments)), fragments)
  {
    ghost var queues, expected := Received(all, chunks, fragments), Expected(all, chunks, fragments);
    ReceiveAll(all, chunks, fragments);
    outbox := RunAside(server, all, queues, fragments);
    FewerLive(server.tcp.clients, all, fragments);
    FewerLeft(server.tcp.clients, all, expected, fragments);
  }

  /** The rest of the loop body does not touch what has been received. */
  method RunAside(server: Server, all: seq<TCPClient>, ghost queues: map<int, PacketQueue>, ghost fragments: set<BitStream>)
    returns (ghost outbox: seq<Outgoing>)
    requires server.Valid() && server.tcp.packets == [] && server.tcp.clients == all && QueuesAre(all, queues)
    modifies server.tcp, server.udp, server.forums, all`peer, all`packets, all`sent
    ensures unchanged(fragments)
    ensures forall c :: c in server.tcp.clients ==> c in all
    ensures Ticked(server, old(ViewOf(server, all)), queues, outbox)
  {
    outbox := server.RunTick(queues);
  }
}
