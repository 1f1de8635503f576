/** One tick of the server as a step on values: sessions in the order of `_clients`, and the history
    of the forum. */
module ServerTick {
  import opened Bytes
  import opened BitStream
  import opened NetworkObjects
  import opened Messages
  import opened ForumState

  /** A live connection; the client id is empty until it announces itself. */
  datatype Session = Session(fd: int, clientId: Text)

  datatype World = World(sessions: seq<Session>, hist: History)

  const BOOT := World([], FRESH)

  /** What one connection's queue holds when the tick starts: whole packets, the empty one standing
      for the end of the stream. */
  type PacketQueue = seq<seq<byte>>

  /** One tick's input: at most one accepted connection, the packet queues, the UDP queue. */
  datatype Input = Input(accepted: Option<int>, queues: map<int, PacketQueue>, posts: seq<Datagram>)

  /** A packet in the server's queue, with the copy of its sender's id taken when it was completed. */
  datatype Queued = Queued(fd: int, clientId: Text, payload: seq<byte>)

  function Accept(w: World, accepted: Option<int>): World {
    match accepted
    case None => w
    case Some(fd) => w.(sessions := w.sessions + [Session(fd, [])])
  }

  /** The packets in front of the end-of-stream marker, all of them when there is none. */
  function Before(q: PacketQueue): PacketQueue {
    if q == [] || q[0] == [] then [] else [q[0]] + Before(q[1..])
  }

  function QueueOf(queues: map<int, PacketQueue>, fd: int): PacketQueue {
    if fd in queues then queues[fd] else []
  }

  function Stamped(s: Session, payloads: PacketQueue): seq<Queued> {
    seq(|payloads|, i requires 0 <= i < |payloads| => Queued(s.fd, s.clientId, payloads[i]))
  }

  function Disconnect(h: History, s: Session): History {
    if s.clientId == [] then h else Apply(h, SetConnectionStatus(s.clientId, false))
  }

  datatype Intake = Intake(kept: seq<Session>, packets: seq<Queued>, hist: History)

  /** `TCPServer::Process`: drains the queues in client order and drops the connections that ended. */
  function Process(sessions: seq<Session>, queues: map<int, PacketQueue>, h: History): Intake
    decreases |sessions|
  {
    if sessions == [] then Intake([], [], h)
    else
      var s, q := sessions[0], QueueOf(queues, sessions[0].fd);
      var packets := Stamped(s, Before(q));
      if [] in q then
        var rest := Process(sessions[1..], queues, Disconnect(h, s));
        Intake(rest.kept, packets + rest.packets, rest.hist)
      else
        var rest := Process(sessions[1..], queues, h);
        Intake([s] + rest.kept, packets + rest.packets, rest.hist)
  }

  /** The index of the first session with this descriptor, the length when there is none. */
  function FindFd(sessions: seq<Session>, fd: int): (i: nat)
    ensures i <= |sessions|
    ensures i < |sessions| ==> sessions[i].fd == fd
    ensures forall j :: 0 <= j < i ==> sessions[j].fd != fd
  {
    if sessions == [] || sessions[0].fd == fd then 0 else 1 + FindFd(sessions[1..], fd)
  }

  function FindId(sessions: seq<Session>, clientId: Text): (i: nat)
    ensures i <= |sessions|
    ensures i < |sessions| ==> sessions[i].clientId == clientId
    ensures forall j :: 0 <= j < i ==> sessions[j].clientId != clientId
  {
    if sessions == [] || sessions[0].clientId == clientId then 0 else 1 + FindId(sessions[1..], clientId)
  }

  function Kick(w: World, i: nat): World
    requires i < |w.sessions|
  {
    World(w.sessions[..i] + w.sessions[i + 1..], Disconnect(w.hist, w.sessions[i]))
  }

  function OnForum(w: World, call: Call): World {
    w.(hist := Apply(w.hist, call))
  }

  /** An RPC_CLIENT_ANNOUNCE from session `i`; a second announcement of a live id, the session's own
      included, kicks the sender. */
  function HandleAnnounce(w: World, i: nat, clientId: Text): World
    requires i < |w.sessions|
  {
    if clientId == [] then Kick(w, i)
    else if FindId(w.sessions, clientId) < |w.sessions| then Kick(w, i)
    else if w.sessions[i].clientId != [] then w
    else OnForum(w.(sessions := w.sessions[i := w.sessions[i].(clientId := clientId)]),
              SetConnectionStatus(clientId, true))
  }

  /** A valid RPC from session `i`, with the id its packet was stamped with. */
  function Dispatch(w: World, i: nat, clientId: Text, rpc: byte, body: seq<byte>): World
    requires i < |w.sessions|
  {
    if clientId == [] && rpc != RPC_CLIENT_ANNOUNCE then Kick(w, i)
    else
      var got := GetText(body);
      if rpc == RPC_CLIENT_ANNOUNCE then HandleAnnounce(w, i, got.text)
      else if rpc == RPC_SUBSCRIBE then
        if got.rest == [] then w else OnForum(w, Subscribe(clientId, got.text, got.rest[0] != 0))
      else if rpc == RPC_UNSUBSCRIBE then
        if got.text == [] then w else OnForum(w, Unsubscribe(clientId, got.text))
      else w
  }

  /** One packet of `Server::ProcessTCPPackets`. */
  function HandlePacket(w: World, p: Queued): World {
    var i := FindFd(w.sessions, p.fd);
    if i == |w.sessions| then w
    else if p.payload == [] || !IsValidRPC(p.payload[0]) then w
    else Dispatch(w, i, p.clientId, p.payload[0], p.payload[1..])
  }

  function HandlePackets(w: World, packets: seq<Queued>): World
    decreases |packets|
  {
    if packets == [] then w else HandlePackets(HandlePacket(w, packets[0]), packets[1..])
  }

  /** One datagram of `Server::ProcessUDPPackets`. */
  function Publish(h: History, d: Datagram): History {
    match DecodePost(d.bytes)
    case None => h
    case Some(post) => Apply(h, AddMessage(post.topic, post.text, post.kind, Source(d.ip, d.port)))
  }

  function PublishAll(h: History, posts: seq<Datagram>): History
    decreases |posts|
  {
    if posts == [] then h else PublishAll(Publish(h, posts[0]), posts[1..])
  }

  /** `Server::ProcessForumsMessages`: every announced client, in client order. */
  function Deliver(h: History, sessions: seq<Session>): History
    decreases |sessions|
  {
    if sessions == [] then h
    else
      var s := sessions[0];
      Deliver(if s.clientId == [] then h else Apply(h, GetUserMessages(s.clientId)), sessions[1..])
  }

  /** Connections and packets: everything up to the posts. */
  function Serve(w: World, input: Input): World {
    var w1 := Accept(w, input.accepted);
    var intake := Process(w1.sessions, input.queues, w1.hist);
    HandlePackets(World(intake.kept, intake.hist), intake.packets)
  }

  /** The body of the loop in `Server::Run`, in its fixed order. */
  function Tick(w: World, input: Input): World {
    var served := Serve(w, input);
    served.(hist := Deliver(PublishAll(served.hist, input.posts), served.sessions))
  }

  function Run(w: World, inputs: seq<Input>): World
    decreases |inputs|
  {
    if inputs == [] then w else Run(Tick(w, inputs[0]), inputs[1..])
  }

  // ---- Only delivery adds to the log ----

  lemma {:induction false} ProcessLog(sessions: seq<Session>, queues: map<int, PacketQueue>, h: History)
    ensures Process(sessions, queues, h).hist.log == h.log
    decreases |sessions|
  {
    if sessions != [] {
      ProcessLog(sessions[1..], queues, if [] in QueueOf(queues, sessions[0].fd) then Disconnect(h, sessions[0]) else h);
    }
  }

  lemma {:induction false} PacketsLog(w: World, packets: seq<Queued>)
    ensures HandlePackets(w, packets).hist.log == w.hist.log
    decreases |packets|
  {
    if packets != [] {
      PacketsLog(HandlePacket(w, packets[0]), packets[1..]);
    }
  }

  lemma {:induction false} PublishLog(h: History, posts: seq<Datagram>)
    ensures PublishAll(h, posts).log == h.log
    decreases |posts|
  {
    if posts != [] {
      PublishLog(Publish(h, posts[0]), posts[1..]);
    }
  }

  // ---- Runs ----

  /** Accepted descriptors are new. */
  predicate Fits(w: World, input: Input) {
    input.accepted.Some? ==> forall i :: 0 <= i < |w.sessions| ==> w.sessions[i].fd != input.accepted.value
  }

  predicate FitsAll(w: World, inputs: seq<Input>)
    decreases |inputs|
  {
    inputs == [] || (Fits(w, inputs[0]) && FitsAll(Tick(w, inputs[0]), inputs[1..]))
  }
}
