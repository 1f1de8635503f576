/** Runs of the server over its live objects: whatever is accepted, received and posted, the run is one of
    the abstract world, each connection's packets are those of its uncut stream, and each connection has
    been sent exactly what was handed out to it. */
module ServerRun {
  import opened Bytes
  import opened ByteOrder
  import opened BitStream
  import opened Framing
  import opened Connection
  import opened Messages
  import opened ForumState
  import opened Forums
  import opened ServerTick
  import opened Publications
  import opened Subscriptions
  import opened Promise
  import opened Client
  import opened Outbox
  import opened Origins
  import opened Server
  import opened ServerLoop

  /** What one tick meets: perhaps a new descriptor, what each ready descriptor received, the datagrams. */
  datatype Event = Event(accepted: Option<int>, chunks: map<int, seq<byte>>, posts: seq<Datagram>)

  // ---- Streams over several ticks ----

  function BytesFor(events: seq<Event>, fd: int): seq<byte> {
    if events == [] then []
    else
      var last := ChunkFor(events[|events| - 1].chunks, fd);
      BytesFor(events[..|events| - 1], fd) + if last.None? then [] else last.value
  }

  /** The messages queued for a descriptor, up to the end of its stream in each tick. */
  function MessagesFor(inputs: seq<Input>, fd: int): seq<seq<byte>> {
    if inputs == [] then []
    else MessagesFor(inputs[..|inputs| - 1], fd) + Before(QueueOf(inputs[|inputs| - 1].queues, fd))
  }

  /** The stream has not ended, and the messages queued so far and the bytes kept are those of all of it, taken
      at once. */
  predicate Uncut(events: seq<Event>, inputs: seq<Input>, fd: int, kept: seq<byte>) {
    && Drain(BytesFor(events, fd)) == Split(MessagesFor(inputs, fd), kept)
    && forall k :: 0 <= k < |events| ==> ChunkFor(events[k].chunks, fd) != Some([])
  }

  lemma {:induction false} WholeMessages(buf: seq<byte>)
    ensures Before(Drain(buf).msgs) == Drain(buf).msgs
    decreases |buf|
  {
    if FrameReady(buf) {
      var n := FromBigEndian(buf[..2]);
      DrainHead(buf, n);
      WholeMessages(buf[2 + n..]);
    }
  }

  lemma UncutMore(events: seq<Event>, inputs: seq<Input>, fd: int, kept: seq<byte>, e: Event, input: Input)
    requires Uncut(events, inputs, fd, kept)
    requires QueueOf(input.queues, fd) == QueueFrom(kept, ChunkFor(e.chunks, fd)) && [] !in QueueOf(input.queues, fd)
    ensures Uncut(events + [e], inputs + [input], fd, BufferAfter(kept, ChunkFor(e.chunks, fd)))
  {
    var bytes, chunk := BytesFor(events, fd), ChunkFor(e.chunks, fd);
    var more := if chunk.None? then [] else chunk.value;
    assert (events + [e])[..|events|] == events && (inputs + [input])[..|inputs|] == inputs;
    if more == [] {
      assert bytes + [] == bytes && Before(QueueOf(input.queues, fd)) == [];
      assert MessagesFor(inputs, fd) + [] == MessagesFor(inputs, fd);
    } else {
      DrainAppend(bytes, more);
      WholeMessages(kept + more);
    }
  }

  // ---- One tick ----

  /** The server's objects between ticks: all connections in good order and with nothing queued. */
  ghost predicate Resting(server: Server, fragments: set<BitStream>)
    reads server, server.tcp, server.forums, server.tcp.clients, fragments
  {
    && server.Valid() && server.tcp.packets == []
    && Live(server.tcp.clients, fragments) && Drained(server.tcp.clients)
  }

  lemma NotInUse(server: Server, fd: int)
    requires FindFd(SessionsOf(server.tcp.clients), fd) == |server.tcp.clients|
    ensures forall c :: c in server.tcp.clients ==> c.peer.fd != fd
    ensures Fits(server.Abs(), Input(Some(fd), map[], []))
  {
    var clients := server.tcp.clients;
    forall c | c in clients
      ensures c.peer.fd != fd
    {
      var i :| 0 <= i < |clients| && clients[i] == c;
      assert SessionsOf(clients)[i].fd != fd;
    }
  }

  /** A new connection in good order joins others. */
  lemma JoinOrder(clients: seq<TCPClient>, joined: TCPClient, fragments: set<BitStream>)
    requires DistinctFds(clients) && forall c :: c in clients ==> c.peer.fd != joined.peer.fd
    requires Live(clients, fragments) && joined.Valid() && joined.fragments !in fragments
    requires Drained(clients) && joined.packets == []
    ensures var all := clients + [joined]; DistinctFds(all) && Live(all, fragments + {joined.fragments}) && Drained(all)
  {
    var all := clients + [joined];
    forall i, j | 0 <= i < j < |all|
      ensures all[i].peer.fd != all[j].peer.fd
    {
      assert clients[i] in clients;
    }
  }

  /** What each connection has at the start of a tick: fragments kept, descriptor, bytes sent. */
  datatype Start = Start(kept: map<TCPClient, seq<byte>>, fds: map<TCPClient, int>, sent: map<TCPClient, seq<byte>>)

  ghost function StartOf(clients: seq<TCPClient>, fragments: set<BitStream>): Start
    requires forall c :: c in clients ==> c.fragments in fragments
    reads clients, fragments
  {
    Start(map c | c in clients :: c.fragments.buffer, FdsOf(clients), SentSoFar(clients))
  }

  /** What was so of these connections at the start is still so. */
  ghost predicate AsAtStart(clients: seq<TCPClient>, start: Start, fragments: set<BitStream>)
    reads clients, fragments
  {
    forall c :: c in clients ==>
      && c.fragments in fragments && c in start.kept && c in start.fds && c in start.sent
      && start.kept[c] == c.fragments.buffer && start.fds[c] == c.peer.fd && start.sent[c] == c.sent
  }

  /** A connection that was there at the start has the same descriptor; its packets and fragments are made
      from what it kept and what it received. */
  ghost predicate Fed(c: TCPClient, start: Start, e: Event, input: Input)
    reads c, c.fragments
  {
    && c in start.kept && c in start.fds && c.peer.fd == start.fds[c]
    && QueueOf(input.queues, c.peer.fd) == QueueFrom(start.kept[c], ChunkFor(e.chunks, c.peer.fd))
    && c.fragments.buffer == BufferAfter(start.kept[c], ChunkFor(e.chunks, c.peer.fd))
  }

  /** Queues and fragments as they follow from the start of the tick. */
  predicate Follow(start: Start, e: Event, queues: map<int, PacketQueue>, expected: map<TCPClient, seq<byte>>) {
    forall c :: c in start.fds ==>
      && c in start.kept && c in expected
      && expected[c] == BufferAfter(start.kept[c], ChunkFor(e.chunks, start.fds[c]))
      && QueueOf(queues, start.fds[c]) == QueueFrom(start.kept[c], ChunkFor(e.chunks, start.fds[c]))
  }

  lemma Following(clients: seq<TCPClient>, e: Event, fragments: set<BitStream>)
    requires DistinctFds(clients) && forall c :: c in clients ==> c.fragments in fragments
    ensures Follow(StartOf(clients, fragments), e, Received(clients, e.chunks, fragments),
                   Expected(clients, e.chunks, fragments))
  {
    ReceivedFor(clients, e.chunks, fragments);
  }

  lemma AllFed(clients: seq<TCPClient>, start: Start, e: Event, queues: map<int, PacketQueue>,
               expected: map<TCPClient, seq<byte>>, fragments: set<BitStream>, accepted: Option<int>)
    requires Follow(start, e, queues, expected) && Left(clients, expected, fragments)
    requires forall c :: c in clients ==> c in start.fds && c.peer.fd == start.fds[c]
    ensures forall c :: c in clients ==> Fed(c, start, e, Input(accepted, queues, e.posts))
  {
  }

  /** A tick, once the new connection is in the table. */
  method Turn(server: Server, e: Event, ghost fragments: set<BitStream>, ghost accepted: Option<int>)
    returns (ghost queues: map<int, PacketQueue>, ghost outbox: seq<Outgoing>)
    requires Resting(server, fragments) && DistinctFds(server.tcp.clients) && server.udp.packets == e.posts
    modifies server.tcp, server.udp, server.forums, fragments
    modifies server.tcp.clients`peer, server.tcp.clients`packets, server.tcp.clients`sent
    ensures Resting(server, fragments) && forall c :: c in server.tcp.clients ==> c in old(server.tcp.clients)
    ensures server.Abs() == Tick(old(server.Abs()), Input(None, queues, e.posts))
    ensures SentOut(outbox, old(server.forums.hist.log), server.forums.hist.log, server.tcp.clients,
                    old(StartOf(server.tcp.clients, fragments)).sent)
    ensures forall c :: c in server.tcp.clients ==>
              Fed(c, old(StartOf(server.tcp.clients, fragments)), e, Input(accepted, queues, e.posts))
  {
    ghost var all, start := server.tcp.clients, StartOf(server.tcp.clients, fragments);
    ghost var expected := Expected(all, e.chunks, fragments);
    queues := Received(all, e.chunks, fragments);
    Following(all, e, fragments);
    outbox := RunLoop(server, server.tcp.clients, e.chunks, fragments);
    AllFed(server.tcp.clients, start, e, queues, expected, fragments, accepted);
  }

  // ---- The account kept over a run ----

  /** For each connection: the packets it has had since it joined and the bytes it keeps are those of its
      uncut stream, and it has been sent its messages among all results, and nothing else. */
  ghost predicate Balanced(start: Start, events: seq<Event>, inputs: seq<Input>, since: map<TCPClient, nat>,
                           outbox: seq<Outgoing>)
  {
    |events| == |inputs| &&
    forall c :: c in start.fds ==>
      && c in since && since[c] <= |events| && c in start.kept && c in start.sent
      && Uncut(events[since[c]..], inputs[since[c]..], start.fds[c], start.kept[c])
      && start.sent[c] == Wire(MessagesTo(outbox, c))
  }

  lemma {:induction false} MessagesAppend(outbox: seq<Outgoing>, more: seq<Outgoing>, c: TCPClient)
    ensures MessagesTo(outbox + more, c) == MessagesTo(outbox, c) + MessagesTo(more, c)
    decreases |more|
  {
    if more == [] {
      assert outbox + more == outbox;
    } else {
      var n := |more| - 1;
      MessagesAppend(outbox, more[..n], c);
      assert (outbox + more)[..|outbox + more| - 1] == outbox + more[..n];
      Associative(MessagesTo(outbox, c), MessagesTo(more[..n], c), if more[n].to == c then AllBytes(more[n].lists) else []);
    }
  }

  /** One connection's account after a tick. */
  lemma AccountMore(c: TCPClient, start: Start, events: seq<Event>, inputs: seq<Input>, since: map<TCPClient, nat>,
                    outbox: seq<Outgoing>, e: Event, input: Input, more: seq<Outgoing>, sent: seq<byte>)
    requires Balanced(start, events, inputs, since, outbox) && c in start.fds && Fed(c, start, e, input)
    requires [] !in QueueOf(input.queues, c.peer.fd)
    requires sent == start.sent[c] + Wire(MessagesTo(more, c))
    ensures since[c] <= |events|
    ensures Uncut((events + [e])[since[c]..], (inputs + [input])[since[c]..], c.peer.fd, c.fragments.buffer)
    ensures sent == Wire(MessagesTo(outbox + more, c))
  {
    var n := since[c];
    UncutMore(events[n..], inputs[n..], start.fds[c], start.kept[c], e, input);
    TailMore(events, e, n);
    TailMore(inputs, input, n);
    SentMore(outbox, more, c);
  }

  lemma TailMore<T>(s: seq<T>, x: T, n: nat)
    requires n <= |s|
    ensures (s + [x])[n..] == s[n..] + [x]
  {
  }

  lemma SentMore(outbox: seq<Outgoing>, more: seq<Outgoing>, c: TCPClient)
    ensures Wire(MessagesTo(outbox + more, c)) == Wire(MessagesTo(outbox, c)) + Wire(MessagesTo(more, c))
  {
    MessagesAppend(outbox, more, c);
    WireAppend(MessagesTo(outbox, c), MessagesTo(more, c));
  }

  lemma AccountsMore(clients: seq<TCPClient>, fragments: set<BitStream>, start: Start, events: seq<Event>,
                     inputs: seq<Input>, since: map<TCPClient, nat>, outbox: seq<Outgoing>, e: Event, input: Input,
                     more: seq<Outgoing>)
    requires Balanced(start, events, inputs, since, outbox)
    requires forall c :: c in clients ==>
               c.fragments in fragments && Fed(c, start, e, input) && [] !in QueueOf(input.queues, c.peer.fd)
    requires Grown(SentSoFar(clients), start.sent, more)
    ensures Balanced(StartOf(clients, fragments), events + [e], inputs + [input], since, outbox + more)
  {
    var now := StartOf(clients, fragments);
    forall c | c in clients
      ensures since[c] <= |events|
      ensures Uncut((events + [e])[since[c]..], (inputs + [input])[since[c]..], now.fds[c], now.kept[c])
      ensures now.sent[c] == Wire(MessagesTo(outbox + more, c))
    {
      assert c in SentSoFar(clients);
      AccountMore(c, start, events, inputs, since, outbox, e, input, more, c.sent);
    }
  }

  /** One connection has joined; all is as it was for the others. */
  predicate Opens(now: Start, start: Start, joined: TCPClient) {
    forall c :: c in now.fds ==>
      && c in now.kept && c in now.sent
      && if c == joined then now.kept[c] == [] && now.sent[c] == []
         else
           && c in start.fds && c in start.kept && c in start.sent
           && now.fds[c] == start.fds[c] && now.kept[c] == start.kept[c] && now.sent[c] == start.sent[c]
  }

  lemma JoinOpens(clients: seq<TCPClient>, joined: TCPClient, fragments: set<BitStream>, start: Start)
    requires AsAtStart(clients, start, fragments) && joined.sent == [] && joined.fragments.buffer == []
    ensures Opens(StartOf(clients + [joined], fragments + {joined.fragments}), start, joined)
  {
  }

  /** A connection that has just joined has an empty account. */
  lemma AccountOpened(now: Start, start: Start, joined: TCPClient, events: seq<Event>, inputs: seq<Input>,
                      since: map<TCPClient, nat>, outbox: seq<Outgoing>)
    requires Opens(now, start, joined) && joined !in Recipients(outbox)
    requires Balanced(start, events, inputs, since, outbox)
    ensures Balanced(now, events, inputs, since[joined := |events|], outbox)
  {
    NothingTo(outbox, joined);
    assert events[|events|..] == [] && inputs[|inputs|..] == [];
  }

  // ---- Whole runs ----

  /** Everything known of a run after some events: the inputs that make it a run of the abstract world, when
      each connection joined, and all results, one for each batch of the log. */
  datatype Record = Record(inputs: seq<Input>, since: map<TCPClient, nat>, outbox: seq<Outgoing>)

  ghost predicate Accounted(server: Server, fragments: set<BitStream>, events: seq<Event>, r: Record)
    reads server, server.tcp, server.forums, server.tcp.clients, fragments
  {
    && Resting(server, fragments) && DistinctFds(server.tcp.clients) && Reached(server.Abs(), r.inputs)
    && Balanced(StartOf(server.tcp.clients, fragments), events, r.inputs, r.since, r.outbox)
    && HandOuts(r.outbox, server.forums.hist.log, server.forums.hist.log)
    && AllMeet(r.inputs, events)
  }

  /** The input of a tick is its event: the same posts, and the new descriptor unless it is in use. */
  ghost predicate Meets(w: World, input: Input, e: Event) {
    && input.posts == e.posts
    && input.accepted == if InUse(w, e.accepted) then None else e.accepted
  }

  ghost predicate InUse(w: World, accepted: Option<int>) {
    accepted.Some? && exists s :: s in w.sessions && s.fd == accepted.value
  }

  ghost predicate AllMeet(inputs: seq<Input>, events: seq<Event>) {
    |inputs| == |events| && forall k :: 0 <= k < |events| ==> Meets(Run(BOOT, inputs[..k]), inputs[k], events[k])
  }

  lemma AllMeetMore(w: World, inputs: seq<Input>, events: seq<Event>, input: Input, e: Event)
    requires AllMeet(inputs, events) && Reached(w, inputs) && Meets(w, input, e)
    ensures AllMeet(inputs + [input], events + [e])
  {
    var all := inputs + [input];
    forall k | 0 <= k < |all|
      ensures Meets(Run(BOOT, all[..k]), all[k], (events + [e])[k])
    {
      assert all[..k] == inputs[..k];
      if k == |inputs| {
        assert inputs[..k] == inputs;
      }
    }
  }

  lemma {:induction false} ReachedMore(w: World, inputs: seq<Input>, input: Input)
    requires Reached(w, inputs) && Fits(w, input)
    ensures Reached(Tick(w, input), inputs + [input])
  {
    RunMore(BOOT, inputs, input);
  }

  lemma {:induction false} RunMore(w: World, inputs: seq<Input>, input: Input)
    requires FitsAll(w, inputs) && Fits(Run(w, inputs), input)
    ensures FitsAll(w, inputs + [input]) && Run(w, inputs + [input]) == Tick(Run(w, inputs), input)
    decreases |inputs|
  {
    var all := inputs + [input];
    if inputs == [] {
      assert all[1..] == [] && Run(w, all) == Run(Tick(w, input), all[1..]);
    } else {
      RunMore(Tick(w, inputs[0]), inputs[1..], input);
      assert all[1..] == inputs[1..] + [input];
    }
  }

  lemma MoreHandOuts(outbox: seq<Outgoing>, more: seq<Outgoing>, before: seq<Batch>, log: seq<Batch>,
                     clients: seq<TCPClient>)
    requires HandOuts(outbox, before, before) && before <= log && |log| == |before| + |more| && Sent(more, log, clients)
    ensures HandOuts(outbox + more, log, log)
  {
    forall k | 0 <= k < |log|
      ensures Lists((outbox + more)[k].lists, log[k].lists)
    {
      if k < |outbox| {
        assert log[k] == before[k];
      } else {
        assert Carries(more[k - |outbox|], log[|log| - |more| + (k - |outbox|)], clients);
      }
    }
  }

  lemma DistinctReached(server: Server, inputs: seq<Input>)
    requires server.Valid() && Reached(server.Abs(), inputs)
    ensures DistinctFds(server.tcp.clients)
  {
    ReachedInvariants(server.Abs(), inputs);
    DistinctAtRest(server);
  }

  /** The connections left are those whose streams go on. */
  lemma StillOpen(server: Server, w: World, inputs: seq<Input>, input: Input)
    requires Reached(w, inputs) && Fits(w, input) && server.Abs() == Tick(w, input)
    ensures forall c :: c in server.tcp.clients ==> [] !in QueueOf(input.queues, c.peer.fd)
  {
    ReachedInvariants(w, inputs);
    EndedGone(w, input);
    forall c | c in server.tcp.clients
      ensures [] !in QueueOf(input.queues, c.peer.fd)
    {
      var i :| 0 <= i < |server.tcp.clients| && server.tcp.clients[i] == c;
      assert SessionsOf(server.tcp.clients)[i] in server.Abs().sessions;
    }
  }

  /** The account after a tick. */
  lemma AccountedMore(server: Server, fragments: set<BitStream>, events: seq<Event>, r: Record, start: Start, w: World,
                      e: Event, input: Input, before: seq<Batch>, more: seq<Outgoing>)
    requires Resting(server, fragments) && Reached(w, r.inputs) && Fits(w, input) && server.Abs() == Tick(w, input)
    requires Balanced(start, events, r.inputs, r.since, r.outbox) && Meets(w, input, e)
    requires forall c :: c in server.tcp.clients ==> Fed(c, start, e, input)
    requires SentOut(more, before, server.forums.hist.log, server.tcp.clients, start.sent)
    requires HandOuts(r.outbox, before, before) && AllMeet(r.inputs, events)
    ensures Accounted(server, fragments, events + [e], Record(r.inputs + [input], r.since, r.outbox + more))
  {
    ReachedMore(w, r.inputs, input);
    AllMeetMore(w, r.inputs, events, input, e);
    StillOpen(server, w, r.inputs, input);
    DistinctReached(server, r.inputs + [input]);
    AccountsMore(server.tcp.clients, fragments, start, events, r.inputs, r.since, r.outbox, e, input, more);
    MoreHandOuts(r.outbox, more, before, server.forums.hist.log, server.tcp.clients);
  }

  /** A connection is accepted and its account opened. */
  method Join(server: Server, fd: int, ghost fragments: set<BitStream>, ghost events: seq<Event>, ghost r: Record)
    returns (ghost fragments': set<BitStream>, ghost since: map<TCPClient, nat>, ghost start: Start)
    requires Resting(server, fragments) && DistinctFds(server.tcp.clients)
    requires forall c :: c in server.tcp.clients ==> c.peer.fd != fd
    requires Balanced(StartOf(server.tcp.clients, fragments), events, r.inputs, r.since, r.outbox)
    modifies server.tcp`clients
    ensures Resting(server, fragments') && DistinctFds(server.tcp.clients)
    ensures forall f :: f in fragments' ==> f in fragments || fresh(f)
    ensures forall c :: c in since ==> c in r.since || fresh(c)
    ensures server.Abs() == Accept(old(server.Abs()), Some(fd))
    ensures start == StartOf(server.tcp.clients, fragments')
    ensures Balanced(start, events, r.inputs, since, r.outbox)
  {
    ghost var clients, was := server.tcp.clients, StartOf(server.tcp.clients, fragments);
    var joined := new TCPClient(Peer([], 0, 0, fd), server.host);
    fragments', since := fragments + {joined.fragments}, r.since[joined := |events|];
    server.tcp.AddClient(joined);
    JoinOrder(clients, joined, fragments);
    JoinOpens(clients, joined, fragments, was);
    start := StartOf(server.tcp.clients, fragments');
    AccountOpened(start, was, joined, events, r.inputs, r.since, r.outbox);
  }

  /** The selector's part of an event: the system never gives a new connection a descriptor that is in use. */
  method Admit(server: Server, e: Event, ghost fragments: set<BitStream>, ghost events: seq<Event>, ghost r: Record)
    returns (ghost fragments': set<BitStream>, ghost since: map<TCPClient, nat>, ghost accepted: Option<int>,
             ghost start: Start)
    requires Resting(server, fragments) && DistinctFds(server.tcp.clients)
    requires Balanced(StartOf(server.tcp.clients, fragments), events, r.inputs, r.since, r.outbox)
    modifies server.tcp`clients
    ensures Resting(server, fragments') && DistinctFds(server.tcp.clients)
    ensures forall f :: f in fragments' ==> f in fragments || fresh(f)
    ensures forall c :: c in since ==> c in r.since || fresh(c)
    ensures Fits(old(server.Abs()), Input(accepted, map[], [])) && server.Abs() == Accept(old(server.Abs()), accepted)
    ensures accepted == if InUse(old(server.Abs()), e.accepted) then None else e.accepted
    ensures start == StartOf(server.tcp.clients, fragments')
    ensures Balanced(start, events, r.inputs, since, r.outbox)
  {
    if e.accepted.Some? {
      var other, i := server.tcp.GetClientByFd(e.accepted.value);
      if other == null {
        NotInUse(server, e.accepted.value);
        accepted := e.accepted;
        fragments', since, start := Join(server, e.accepted.value, fragments, events, r);
        return;
      }
    }
    fragments', since, accepted, start := fragments, r.since, None, StartOf(server.tcp.clients, fragments);
  }

  /** One event of a run. */
  method Step(server: Server, e: Event, ghost fragments: set<BitStream>, ghost events: seq<Event>, ghost r: Record)
    returns (ghost fragments': set<BitStream>, ghost r': Record)
    requires Accounted(server, fragments, events, r) && server.udp.packets == e.posts
    modifies server.tcp, server.udp, server.forums, fragments, r.since.Keys
    ensures Accounted(server, fragments', events + [e], r')
    ensures forall f :: f in fragments' ==> f in fragments || fresh(f)
    ensures forall c :: c in r'.since ==> c in r.since || fresh(c)
  {
    ghost var w, before := server.Abs(), server.forums.hist.log;
    ghost var since, accepted, start;
    fragments', since, accepted, start := Admit(server, e, fragments, events, r);
    assert forall i :: 0 <= i < |server.tcp.clients| ==> server.tcp.clients[i] in start.fds;
    ghost var queues, more := Turn(server, e, fragments', accepted);
    ghost var input := Input(accepted, queues, e.posts);
    AcceptFirst(w, accepted, queues, e.posts);
    r' := Record(r.inputs + [input], since, r.outbox + more);
    AccountedMore(server, fragments', events, r.(since := since), start, w, e, input, before, more);
  }

  /** The datagrams arrive before the tick. */
  method Next(server: Server, e: Event, ghost fragments: set<BitStream>, ghost events: seq<Event>, ghost r: Record)
    returns (ghost fragments': set<BitStream>, ghost r': Record)
    requires Accounted(server, fragments, events, r)
    modifies server.tcp, server.udp, server.forums, fragments, r.since.Keys
    ensures Accounted(server, fragments', events + [e], r')
    ensures forall f :: f in fragments' ==> f in fragments || fresh(f)
    ensures forall c :: c in r'.since ==> c in r.since || fresh(c)
  {
    server.udp.packets := e.posts;
    assert Accounted(server, fragments, events, r);
    fragments', r' := Step(server, e, fragments, events, r);
  }

  /** The loop in `Run`, from an empty server: after any events the account holds. */
  method Serve(server: Server, events: seq<Event>) returns (ghost fragments: set<BitStream>, ghost r: Record)
    requires server.Valid() && server.Abs() == BOOT && server.tcp.packets == []
    modifies server.tcp, server.udp, server.forums
    ensures Accounted(server, fragments, events, r)
    ensures Records(FRESH, server.forums.hist, Entries(BOOT, r.inputs))
  {
    fragments, r := {}, Record([], map[], []);
    var k := 0;
    while k < |events|
      invariant k <= |events| && Accounted(server, fragments, events[..k], r)
      invariant fresh(fragments) && forall c :: c in r.since ==> fresh(c)
    {
      assert events[..k + 1] == events[..k] + [events[k]];
      fragments, r := Next(server, events[k], fragments, events[..k], r);
      k := k + 1;
    }
    assert events[..k] == events;
    AllRecorded(server.Abs(), r.inputs);
  }

  lemma AllRecorded(w: World, inputs: seq<Input>)
    requires Reached(w, inputs)
    ensures Records(FRESH, w.hist, Entries(BOOT, inputs))
  {
    ReachedInvariants(BOOT, []);
    RunPublishes(BOOT, inputs);
  }

  // ---- What a client sees of a run ----

  /** Every datagram of a run. */
  function PostsMet(events: seq<Event>): set<Datagram> {
    set i, j | 0 <= i < |events| && 0 <= j < |events[i].posts| :: events[i].posts[j]
  }

  lemma SamePosts(inputs: seq<Input>, events: seq<Event>)
    requires AllMeet(inputs, events)
    ensures PostsOf(inputs) == PostsMet(events)
  {
    forall d | d in PostsMet(events)
      ensures d in PostsOf(inputs)
    {
      var i, j :| 0 <= i < |events| && 0 <= j < |events[i].posts| && events[i].posts[j] == d;
      assert inputs[i].posts[j] == d;
    }
  }

  /** Whatever has been sent on a connection since it joined, cut anywhere, is shown by its client, complete
      and line by line, as accepted posts of the run. */
  lemma ShownInRun(server: Server, fragments: set<BitStream>, events: seq<Event>, r: Record, c: TCPClient, from: Peer,
                   chunks: seq<seq<byte>>)
    returns (ds: seq<Datagram>)
    requires Accounted(server, fragments, events, r) && Addressed(PostsMet(events))
    requires c in server.tcp.clients && Concat(chunks) == c.sent
    ensures forall d :: d in ds ==> d in PostsMet(events) && Accepted(d)
    ensures Encoded(ds) == MessagesTo(r.outbox, c) && Feed([], chunks).rest == []
    ensures ShowAll(Packets(from, Feed([], chunks).msgs)) == Showing(Lines(ds), true)
  {
    SamePosts(r.inputs, events);
    assert StartOf(server.tcp.clients, fragments).sent[c] == c.sent;
    ds := ShownWasPosted(server.Abs(), r.inputs, r.outbox, server.forums.hist.log, c, from, chunks);
  }
}
