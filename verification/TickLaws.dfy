/** The session table and the forum agree through every phase of a tick. */
module TickLaws {
  import opened Bytes
  import opened BitStream
  import opened NetworkObjects
  import opened Messages
  import opened ForumState
  import opened ForumLaws
  import opened ServerTick
  import opened ServerLaws

  /** The laws that hold inside a tick as well. */
  ghost predicate Sound(w: World) {
    && Lawful(w.hist)
    && PendingLaw(w.hist)
    && SessionsAgree(w.sessions, w.hist.forum.connected)
  }

  /** A packet stamped with an id speaks for the live connection it came from, and that client has
      been handed everything published so far. */
  ghost predicate Vouched(w: World, p: Queued) {
    forall i :: 0 <= i < |w.sessions| && w.sessions[i].fd == p.fd && p.clientId != [] ==>
      w.sessions[i].clientId == p.clientId && Current(w.hist, p.clientId)
  }

  // ---- The session table ----

  lemma IdsHave(sessions: seq<Session>, i: nat)
    requires i < |sessions| && sessions[i].clientId != []
    ensures sessions[i].clientId in Ids(sessions)
  {
  }

  lemma IdsWithout(sessions: seq<Session>, connected: set<Text>, i: nat)
    requires SessionsAgree(sessions, connected) && i < |sessions|
    ensures Ids(sessions[..i] + sessions[i + 1..]) == Ids(sessions) - {sessions[i].clientId}
    ensures SessionsAgree(sessions[..i] + sessions[i + 1..], connected - {sessions[i].clientId})
  {
    var rest := sessions[..i] + sessions[i + 1..];
    forall c | c in Ids(sessions) && c != sessions[i].clientId
      ensures c in Ids(rest)
    {
      var j :| 0 <= j < |sessions| && sessions[j].clientId != [] && sessions[j].clientId == c;
      IdsHave(rest, if j < i then j else j - 1);
    }
    forall c | c in Ids(rest)
      ensures c in Ids(sessions) && c != sessions[i].clientId
    {
      var j :| 0 <= j < |rest| && rest[j].clientId != [] && rest[j].clientId == c;
      IdsHave(sessions, if j < i then j else j + 1);
    }
  }

  lemma IdsWith(sessions: seq<Session>, i: nat, clientId: Text)
    requires i < |sessions| && sessions[i].clientId == [] && clientId != []
    ensures Ids(sessions[i := sessions[i].(clientId := clientId)]) == Ids(sessions) + {clientId}
  {
    var more := sessions[i := sessions[i].(clientId := clientId)];
    IdsHave(more, i);
    forall c | c in Ids(sessions)
      ensures c in Ids(more)
    {
      var j :| 0 <= j < |sessions| && sessions[j].clientId != [] && sessions[j].clientId == c;
      IdsHave(more, j);
    }
    forall c | c in Ids(more)
      ensures c in Ids(sessions) + {clientId}
    {
      var j :| 0 <= j < |more| && more[j].clientId != [] && more[j].clientId == c;
      if j != i {
        IdsHave(sessions, j);
      }
    }
  }

  lemma DisconnectSound(w: World, i: nat)
    requires Sound(w) && i < |w.sessions|
    ensures Sound(Kick(w, i))
  {
    var s := w.sessions[i];
    IdsWithout(w.sessions, w.hist.forum.connected, i);
    if s.clientId == [] {
      assert w.hist.forum.connected - {[]} == w.hist.forum.connected;
    } else {
      SetConnectionStatusLawful(w.hist, s.clientId, false);
      StatusPending(w.hist, s.clientId, false);
    }
  }

  /** Kicking and dropping touch nothing but the session table and the online set. */
  lemma KickVouched(w: World, i: nat, p: Queued)
    requires i < |w.sessions| && Vouched(w, p)
    ensures Vouched(Kick(w, i), p)
  {
    var rest := w.sessions[..i] + w.sessions[i + 1..];
    forall j | 0 <= j < |rest|
      ensures rest[j] == w.sessions[if j < i then j else j + 1]
    {
    }
  }

  lemma AnnounceSound(w: World, i: nat, clientId: Text)
    requires Sound(w) && i < |w.sessions|
    ensures Sound(HandleAnnounce(w, i, clientId))
  {
    var w' := HandleAnnounce(w, i, clientId);
    if clientId == [] || FindId(w.sessions, clientId) < |w.sessions| {
      DisconnectSound(w, i);
    } else if w.sessions[i].clientId == [] {
      IdsWith(w.sessions, i, clientId);
      SetConnectionStatusLawful(w.hist, clientId, true);
      StatusPending(w.hist, clientId, true);
    }
  }

  lemma AnnounceVouched(w: World, i: nat, clientId: Text, p: Queued)
    requires i < |w.sessions| && Vouched(w, p)
    ensures Vouched(HandleAnnounce(w, i, clientId), p)
  {
    KickVouched(w, i, p);
  }

  /** One request keeps the laws. */
  lemma DispatchSound(w: World, i: nat, clientId: Text, rpc: byte, body: seq<byte>)
    requires Sound(w) && i < |w.sessions|
    requires clientId != [] ==> w.sessions[i].clientId == clientId && Current(w.hist, clientId)
    ensures Sound(Dispatch(w, i, clientId, rpc, body))
  {
    var got := GetText(body);
    if clientId == [] && rpc != RPC_CLIENT_ANNOUNCE {
      DisconnectSound(w, i);
    } else if rpc == RPC_CLIENT_ANNOUNCE {
      AnnounceSound(w, i, got.text);
    } else if rpc == RPC_SUBSCRIBE && got.rest != [] {
      SubscribeLawful(w.hist, clientId, got.text, got.rest[0] != 0);
      SubscribePending(w.hist, clientId, got.text, got.rest[0] != 0);
    } else if rpc == RPC_UNSUBSCRIBE && got.text != [] {
      UnsubscribeLawful(w.hist, clientId, got.text);
      UnsubscribePending(w.hist, clientId, got.text);
    }
  }

  /** One packet keeps the laws. */
  lemma PacketSound(w: World, p: Queued)
    requires Sound(w) && Vouched(w, p)
    ensures Sound(HandlePacket(w, p))
  {
    var i := FindFd(w.sessions, p.fd);
    if i < |w.sessions| && p.payload != [] {
      DispatchSound(w, i, p.clientId, p.payload[0], p.payload[1..]);
    }
  }

  lemma PacketVouched(w: World, p: Queued, q: Queued)
    requires Vouched(w, p) && Vouched(w, q)
    ensures Vouched(HandlePacket(w, p), q)
  {
    var i := FindFd(w.sessions, p.fd);
    if i < |w.sessions| {
      KickVouched(w, i, q);
      AnnounceVouched(w, i, GetText(p.payload[if p.payload == [] then 0 else 1..]).text, q);
    }
  }

  /** Nothing was published, handed out or erased, and no mark moved. */
  ghost predicate SameStore(h: History, h': History) {
    && h'.published == h.published && h'.log == h.log
    && h'.forum.messages == h.forum.messages && h'.forum.lastId == h.forum.lastId
    && forall c :: c in h.forum.users ==>
         c in h'.forum.users && h'.forum.users[c].lastMsgId == h.forum.users[c].lastMsgId
  }

  lemma PacketSameStore(w: World, p: Queued)
    ensures SameStore(w.hist, HandlePacket(w, p).hist)
  {
  }

  lemma {:induction false} PacketsSound(w: World, packets: seq<Queued>)
    requires Sound(w) && forall i :: 0 <= i < |packets| ==> Vouched(w, packets[i])
    ensures Sound(HandlePackets(w, packets))
    ensures SameStore(w.hist, HandlePackets(w, packets).hist)
    decreases |packets|
  {
    if packets != [] {
      var p, rest := packets[0], packets[1..];
      PacketSound(w, p);
      PacketSameStore(w, p);
      forall i | 0 <= i < |rest|
        ensures Vouched(HandlePacket(w, p), rest[i])
      {
        PacketVouched(w, p, packets[i + 1]);
      }
      PacketsSound(HandlePacket(w, p), rest);
    }
  }

  /** Where queued packets come from: stamped with the descriptor and id of a session of this tick. */
  ghost predicate StampedFrom(p: Queued, sessions: seq<Session>) {
    Session(p.fd, p.clientId) in sessions
  }

  lemma {:induction false} ProcessOrigins(rest: seq<Session>, queues: map<int, PacketQueue>, h: History)
    ensures var r := Process(rest, queues, h);
            && (forall s :: s in r.kept ==> s in rest)
            && (forall p :: p in r.packets ==> StampedFrom(p, rest))
    decreases |rest|
  {
    if rest != [] {
      var s, q := rest[0], QueueOf(queues, rest[0].fd);
      var h1 := if [] in q then Disconnect(h, s) else h;
      var r := Process(rest[1..], queues, h1);
      ProcessOrigins(rest[1..], queues, h1);
      forall x | x in Process(rest, queues, h).kept
        ensures x in rest
      {
        if x in r.kept {
          assert x in rest[1..];
        }
      }
      forall p | p in Process(rest, queues, h).packets
        ensures StampedFrom(p, rest)
      {
        if p in r.packets {
          assert StampedFrom(p, rest[1..]);
        } else {
          assert p in Stamped(s, Before(q));
        }
      }
    }
  }

  /** Draining the queues behind the sessions already passed: connections that ended are gone, the
      others stay in order. */
  lemma {:induction false} ProcessSound(front: seq<Session>, rest: seq<Session>, queues: map<int, PacketQueue>, h: History)
    requires Sound(World(front + rest, h))
    ensures var r := Process(rest, queues, h);
            Sound(World(front + r.kept, r.hist)) && SameStore(h, r.hist)
    decreases |rest|
  {
    if rest != [] {
      var s, tail := rest[0], rest[1..];
      ProcessHead(rest, queues, h);
      if [] in QueueOf(queues, s.fd) {
        DropSound(front, s, tail, h);
        ProcessSound(front, tail, queues, Disconnect(h, s));
      } else {
        AppendAssoc(front, s, tail);
        ProcessSound(front + [s], tail, queues, h);
        AppendAssoc(front, s, Process(tail, queues, h).kept);
      }
    }
  }

  lemma ProcessHead(rest: seq<Session>, queues: map<int, PacketQueue>, h: History)
    requires rest != []
    ensures rest == [rest[0]] + rest[1..]
    ensures var s, r := rest[0], Process(rest, queues, h);
            if [] in QueueOf(queues, s.fd) then
              var t := Process(rest[1..], queues, Disconnect(h, s)); r.kept == t.kept && r.hist == t.hist
            else
              var t := Process(rest[1..], queues, h); r.kept == [s] + t.kept && r.hist == t.hist
  {
  }

  lemma CutOut(front: seq<Session>, s: Session, tail: seq<Session>)
    ensures var all, n := front + ([s] + tail), |front|;
            all[n] == s && all[..n] + all[n + 1..] == front + tail
  {
  }

  lemma DisconnectSameStore(h: History, s: Session)
    ensures SameStore(h, Disconnect(h, s))
  {
  }

  lemma DropSound(front: seq<Session>, s: Session, tail: seq<Session>, h: History)
    requires Sound(World(front + ([s] + tail), h))
    ensures Sound(World(front + tail, Disconnect(h, s))) && SameStore(h, Disconnect(h, s))
  {
    CutOut(front, s, tail);
    DisconnectSound(World(front + ([s] + tail), h), |front|);
    DisconnectSameStore(h, s);
  }

  lemma AppendAssoc(front: seq<Session>, s: Session, kept: seq<Session>)
    ensures front + ([s] + kept) == front + [s] + kept
  {
  }

  lemma AcceptSound(w: World, input: Input)
    requires Sound(w) && Fits(w, input)
    ensures Sound(Accept(w, input.accepted))
  {
    if input.accepted.Some? {
      var more := w.sessions + [Session(input.accepted.value, [])];
      forall c | c in Ids(w.sessions)
        ensures c in Ids(more)
      {
        var j :| 0 <= j < |w.sessions| && w.sessions[j].clientId != [] && w.sessions[j].clientId == c;
        IdsHave(more, j);
      }
      forall c | c in Ids(more)
        ensures c in Ids(w.sessions)
      {
        var j :| 0 <= j < |more| && more[j].clientId != [] && more[j].clientId == c;
        IdsHave(w.sessions, j);
      }
    }
  }

  /** Before the posts of a tick: the tables agree, nothing has been handed out yet, and every client
      announced in an earlier tick has been handed all there is. */
  lemma ServeSound(w: World, input: Input)
    requires AtRest(w) && Fits(w, input)
    ensures Sound(Serve(w, input)) && SameStore(w.hist, Serve(w, input).hist)
    ensures forall c :: c in w.hist.forum.connected ==> Current(Serve(w, input).hist, c)
  {
    var w1 := Accept(w, input.accepted);
    AcceptSound(w, input);
    IntakeSound(w, w1, input.queues);
    var r := Process(w1.sessions, input.queues, w1.hist);
    PacketsSound(World(r.kept, r.hist), r.packets);
  }

  /** One connection may have been accepted, under no id yet. */
  ghost predicate Accepts(sessions: seq<Session>, more: seq<Session>) {
    more == sessions ||
    (|more| > 0 && more == sessions + [Session(more[|more| - 1].fd, [])])
  }

  lemma IntakeSound(w: World, w1: World, queues: map<int, PacketQueue>)
    requires AtRest(w) && Sound(w1) && w1.hist == w.hist && Accepts(w.sessions, w1.sessions)
    ensures var r := Process(w1.sessions, queues, w1.hist);
            && Sound(World(r.kept, r.hist)) && SameStore(w.hist, r.hist)
            && forall k :: 0 <= k < |r.packets| ==> Vouched(World(r.kept, r.hist), r.packets[k])
  {
    var r := Process(w1.sessions, queues, w1.hist);
    WholeIntake(w1.sessions, queues, w1.hist, r);
    ProcessOrigins(w1.sessions, queues, w1.hist);
    AllVouched(w, w1, World(r.kept, r.hist), r.packets);
  }

  lemma WholeIntake(sessions: seq<Session>, queues: map<int, PacketQueue>, h: History, r: Intake)
    requires Sound(World(sessions, h)) && r == Process(sessions, queues, h)
    ensures Sound(World(r.kept, r.hist)) && SameStore(h, r.hist)
  {
    assert [] + sessions == sessions && [] + r.kept == r.kept;
    ProcessSound([], sessions, queues, h);
  }

  lemma AllVouched(w: World, w1: World, w2: World, packets: seq<Queued>)
    requires AtRest(w) && Sound(w1) && SameStore(w.hist, w2.hist) && Accepts(w.sessions, w1.sessions)
    requires forall s :: s in w2.sessions ==> s in w1.sessions
    requires forall p :: p in packets ==> StampedFrom(p, w1.sessions)
    ensures forall k :: 0 <= k < |packets| ==> Vouched(w2, packets[k])
  {
    forall k | 0 <= k < |packets|
      ensures Vouched(w2, packets[k])
    {
      assert packets[k] in packets;
      SenderVouches(w, w1, w2, packets[k]);
    }
  }

  /** The id a packet was stamped with is the one its connection had before the tick. */
  lemma SenderVouches(w: World, w1: World, w2: World, p: Queued)
    requires AtRest(w) && Sound(w1) && SameStore(w.hist, w2.hist)
    requires Accepts(w.sessions, w1.sessions)
    requires (forall s :: s in w2.sessions ==> s in w1.sessions) && StampedFrom(p, w1.sessions)
    ensures Vouched(w2, p)
  {
    forall i | 0 <= i < |w2.sessions| && w2.sessions[i].fd == p.fd && p.clientId != []
      ensures w2.sessions[i].clientId == p.clientId && Current(w2.hist, p.clientId)
    {
      assert w2.sessions[i] in w2.sessions;
      SenderIs(w, w1, w2.sessions[i], p);
    }
  }

  lemma SenderIs(w: World, w1: World, s: Session, p: Queued)
    requires AtRest(w) && Sound(w1)
    requires Accepts(w.sessions, w1.sessions)
    requires s in w1.sessions && StampedFrom(p, w1.sessions) && s.fd == p.fd && p.clientId != []
    ensures s.clientId == p.clientId && Current(w.hist, p.clientId)
  {
    var i :| 0 <= i < |w1.sessions| && w1.sessions[i] == s;
    var j :| 0 <= j < |w1.sessions| && w1.sessions[j] == Session(p.fd, p.clientId);
    assert i == j;
    IdsHave(w.sessions, j);
  }

  // ---- Who asks for what ----

  /** Each packet of a tick is still vouched for when its turn comes. */
  lemma {:induction false} VouchedInTurn(w: World, packets: seq<Queued>, k: nat)
    requires Sound(w) && k < |packets| && forall i :: 0 <= i < |packets| ==> Vouched(w, packets[i])
    ensures Vouched(HandlePackets(w, packets[..k]), packets[k])
    decreases k
  {
    if k > 0 {
      var w1, rest := HandlePacket(w, packets[0]), packets[1..];
      PacketSound(w, packets[0]);
      forall i | 0 <= i < |rest|
        ensures Vouched(w1, rest[i])
      {
        PacketVouched(w, packets[0], packets[i + 1]);
      }
      VouchedInTurn(w1, rest, k - 1);
      assert packets[..k][0] == packets[0] && packets[..k][1..] == rest[..k - 1];
    }
  }

  /** The change of subscriptions that a packet from client `c` asks for, if it is a complete one. */
  function Asked(c: Text, payload: seq<byte>): Option<Call> {
    if payload == [] then None
    else
      var got := GetText(payload[1..]);
      if payload[0] == RPC_SUBSCRIBE && got.rest != [] then Some(Subscribe(c, got.text, got.rest[0] != 0))
      else if payload[0] == RPC_UNSUBSCRIBE && got.text != [] then Some(Unsubscribe(c, got.text))
      else None
  }

  /** In a tick, every subscribe or unsubscribe is applied under the id that the live connection it came
      from has at that moment, and a client without one is not heard. */
  lemma AppliedUnderSender(w: World, input: Input, k: nat)
    requires AtRest(w) && Fits(w, input)
    requires var w1 := Accept(w, input.accepted); k < |Process(w1.sessions, input.queues, w1.hist).packets|
    ensures var w1 := Accept(w, input.accepted);
            var r := Process(w1.sessions, input.queues, w1.hist);
            var now, p := HandlePackets(World(r.kept, r.hist), r.packets[..k]), r.packets[k];
            var i := FindFd(now.sessions, p.fd);
            i < |now.sessions| ==>
              if p.clientId == [] then Asked([], p.payload).Some? ==> HandlePacket(now, p) == Kick(now, i)
              else
                var call := Asked(now.sessions[i].clientId, p.payload);
                call.Some? ==> HandlePacket(now, p) == OnForum(now, call.value)
  {
    var w1 := Accept(w, input.accepted);
    AcceptSound(w, input);
    IntakeSound(w, w1, input.queues);
    var r := Process(w1.sessions, input.queues, w1.hist);
    VouchedInTurn(World(r.kept, r.hist), r.packets, k);
    HandledAs(HandlePackets(World(r.kept, r.hist), r.packets[..k]), r.packets[k]);
  }

  lemma HandledAs(w: World, p: Queued)
    requires Vouched(w, p)
    ensures var i := FindFd(w.sessions, p.fd);
            i < |w.sessions| ==>
              if p.clientId == [] then Asked([], p.payload).Some? ==> HandlePacket(w, p) == Kick(w, i)
              else
                var call := Asked(w.sessions[i].clientId, p.payload);
                call.Some? ==> HandlePacket(w, p) == OnForum(w, call.value)
  {
  }

  // ---- Posts ----

  /** What a round of posts may change. */
  ghost predicate Posted(h: History, h': History) {
    && h'.log == h.log && h'.forum.connected == h.forum.connected && h'.forum.users == h.forum.users
    && h'.forum.lastId >= h.forum.lastId
    && (forall id :: id in h.published ==> id in h'.published && h'.published[id] == h.published[id])
    && (forall id :: id in h'.published && id !in h.published ==>
          h'.published[id].skipped !! h.forum.connected)
  }

  lemma PublishSound(w: World, d: Datagram)
    requires Sound(w)
    ensures Sound(World(w.sessions, Publish(w.hist, d))) && Posted(w.hist, Publish(w.hist, d))
  {
    var post := DecodePost(d.bytes);
    if post.Some? {
      AddMessageLawful(w.hist, post.value.topic, post.value.text, post.value.kind, Source(d.ip, d.port));
      AddMessagePending(w.hist, post.value.topic, post.value.text, post.value.kind, Source(d.ip, d.port));
    }
  }

  lemma {:induction false} PublishAllSound(w: World, posts: seq<Datagram>)
    requires Sound(w)
    ensures Sound(World(w.sessions, PublishAll(w.hist, posts))) && Posted(w.hist, PublishAll(w.hist, posts))
    decreases |posts|
  {
    if posts != [] {
      PublishSound(w, posts[0]);
      PublishAllSound(World(w.sessions, Publish(w.hist, posts[0])), posts[1..]);
    }
  }

  // ---- Delivery ----

  /** What handing out to some clients may change. */
  ghost predicate Delivered(h: History, h': History, clients: set<Text>) {
    && h'.published == h.published && h'.forum.lastId == h.forum.lastId
    && h'.forum.connected == h.forum.connected
    && (forall c :: Current(h, c) || c in clients ==> Current(h', c))
    && (forall id :: id in h.published ==> DeliveredAt(h, h', clients, id))
  }

  /** New receivers are among these clients, were pending on a stored message, and only they. */
  ghost predicate DeliveredAt(h: History, h': History, clients: set<Text>, id: nat)
    requires id in h.published && h'.published == h.published
  {
    && (Stored(h', id) ==> Stored(h, id))
    && Receivers(h.log, id) <= Receivers(h'.log, id)
    && Receivers(h'.log, id) <=
         Receivers(h.log, id) + (if Stored(h, id) then clients * Pending(h.forum, h.published[id].topic, id) else {})
    && Pending(h'.forum, h.published[id].topic, id) <= Pending(h.forum, h.published[id].topic, id)
  }

  lemma HandOutDeliveredAt(h: History, c: Text, h': History, id: nat)
    requires Lawful(h) && id in h.published && h' == Apply(h, GetUserMessages(c))
    ensures DeliveredAt(h, h', {c}, id)
  {
    StoredShrinks(h, c, id);
    ReceiversAfter(h, c, id);
    PendingAfter(h, c, h.published[id].topic, id);
  }

  lemma HandOutCurrent(h: History, c: Text, x: Text)
    requires Current(h, x) || x == c
    ensures Current(Apply(h, GetUserMessages(c)), x)
  {
  }

  lemma HandOutDelivered(h: History, c: Text, h': History)
    requires h' == Apply(h, GetUserMessages(c))
    requires forall id :: id in h.published ==> DeliveredAt(h, h', {c}, id)
    ensures Delivered(h, h', {c})
  {
    forall x | Current(h, x) || x in {c}
      ensures Current(h', x)
    {
      HandOutCurrent(h, c, x);
    }
  }

  lemma HandOutSound(h: History, c: Text, h1: History)
    requires Lawful(h) && PendingLaw(h) && h1 == Apply(h, GetUserMessages(c))
    ensures Lawful(h1) && PendingLaw(h1) && Delivered(h, h1, {c})
  {
    GetUserMessagesLawful(h, c);
    GetUserMessagesPending(h, c);
    forall id | id in h.published
      ensures DeliveredAt(h, h1, {c}, id)
    {
      HandOutDeliveredAt(h, c, h1, id);
    }
    HandOutDelivered(h, c, h1);
  }

  lemma DeliveredThen(h: History, h1: History, h2: History, a: set<Text>, b: set<Text>)
    requires Delivered(h, h1, a) && Delivered(h1, h2, b)
    ensures Delivered(h, h2, a + b)
  {
    forall id | id in h.published
      ensures DeliveredAt(h, h2, a + b, id)
    {
      assert DeliveredAt(h, h1, a, id) && DeliveredAt(h1, h2, b, id);
    }
  }

  lemma DeliveredNothing(h: History)
    ensures Delivered(h, h, {})
  {
    forall id | id in h.published
      ensures DeliveredAt(h, h, {}, id)
    {
    }
  }

  lemma {:induction false} DeliverSound(h: History, sessions: seq<Session>)
    requires Lawful(h) && PendingLaw(h)
    ensures var h' := Deliver(h, sessions); Lawful(h') && PendingLaw(h') && Delivered(h, h', Ids(sessions))
    decreases |sessions|
  {
    if sessions == [] {
      assert Ids(sessions) == {};
      DeliveredNothing(h);
    } else {
      var c := sessions[0].clientId;
      var h1 := if c == [] then h else Apply(h, GetUserMessages(c));
      var one := if c == [] then {} else {c};
      if c == [] {
        DeliveredNothing(h);
      } else {
        HandOutSound(h, c, h1);
      }
      DeliverSound(h1, sessions[1..]);
      DeliveredThen(h, h1, Deliver(h1, sessions[1..]), one, Ids(sessions[1..]));
      IdsFirst(sessions);
      assert one + Ids(sessions[1..]) == Ids(sessions);
    }
  }

  lemma IdsFirst(sessions: seq<Session>)
    requires sessions != []
    ensures Ids(sessions) == Ids(sessions[1..]) + (if sessions[0].clientId == [] then {} else {sessions[0].clientId})
  {
    forall c | c in Ids(sessions)
      ensures c == sessions[0].clientId || c in Ids(sessions[1..])
    {
      var j :| 0 <= j < |sessions| && sessions[j].clientId != [] && sessions[j].clientId == c;
      if j > 0 {
        IdsHave(sessions[1..], j - 1);
      }
    }
    forall c | c in Ids(sessions[1..])
      ensures c in Ids(sessions)
    {
      var j :| 0 <= j < |sessions[1..]| && sessions[1..][j].clientId != [] && sessions[1..][j].clientId == c;
      IdsHave(sessions, j + 1);
    }
  }

  // ---- A whole tick ----

  lemma TickAtRest(w: World, input: Input)
    requires AtRest(w) && Fits(w, input)
    ensures AtRest(Tick(w, input))
  {
    var served := Serve(w, input);
    ServeSound(w, input);
    PublishAllSound(served, input.posts);
    DeliverSound(PublishAll(served.hist, input.posts), served.sessions);
  }

  /** Every state the server reaches between ticks satisfies the invariant. */
  lemma {:induction false} RunAtRest(w: World, inputs: seq<Input>)
    requires AtRest(w) && FitsAll(w, inputs)
    ensures AtRest(Run(w, inputs))
    decreases |inputs|
  {
    if inputs != [] {
      TickAtRest(w, inputs[0]);
      RunAtRest(Tick(w, inputs[0]), inputs[1..]);
    }
  }
}
