/** What each packet of a client does, told from its bytes: the sessions, who is online and who is
    subscribed to what with which flag. */
module Requests {
  import opened Bytes
  import opened ByteOrder
  import opened BitStream
  import opened Framing
  import opened ForumState
  import opened ServerTick

  // ---- Bytes ----

  /** Two bytes of length in network order and that many bytes of text, or as many as there are. */
  predicate Carries(body: seq<byte>, t: Text, rest: seq<byte>) {
    if |body| < 2 then t == [] && rest == []
    else
      var n := Length16(body[0], body[1]);
      if n <= |body| - 2 then t == body[2..2 + n] && rest == body[2 + n..] else t == body[2..] && rest == []
  }

  function Length16(high: nat, low: nat): nat {
    high * 0x100 + low
  }

  lemma TextCarried(body: seq<byte>)
    ensures Carries(body, GetText(body).text, GetText(body).rest)
  {
    if |body| >= 2 {
      var two := body[..2];
      assert two[..1][..0] == [] && FromBigEndian(two[..1]) == two[0];
      assert FromBigEndian(two) == Length16(body[0], body[1]);
    }
  }

  // ---- Subscriptions ----

  /** The flag of a subscription, if there is one. */
  function FlagAt(s: State, c: Text, topic: Text): Option<bool> {
    if topic in s.subs && c in s.subs[topic] then Some(s.subs[topic][c]) else None
  }

  /** The other index. */
  predicate Lists(s: State, c: Text, topic: Text) {
    c in s.users && topic in s.users[c].topics
  }

  /** Nothing but subscriptions may differ; a client seen for the first time has this mark. */
  ghost predicate OnlySubscriptions(h: History, h': History, c: Text, mark: nat) {
    && h'.published == h.published && h'.log == h.log
    && h'.forum.lastId == h.forum.lastId && h'.forum.messages == h.forum.messages
    && h'.forum.connected == h.forum.connected
    && (forall x :: x in h'.forum.users <==> x in h.forum.users || x == c)
    && (forall x :: x in h'.forum.users ==>
          h'.forum.users[x].lastMsgId == if x in h.forum.users then h.forum.users[x].lastMsgId else mark)
  }

  /** The pair has this flag now, and every other pair the one it had. */
  ghost predicate FlagSet(s: State, s': State, c: Text, topic: Text, flag: Option<bool>) {
    forall x, t :: FlagAt(s', x, t) == if x == c && t == topic then flag else FlagAt(s, x, t)
  }

  ghost predicate ListSet(s: State, s': State, c: Text, topic: Text, listed: bool) {
    forall x, t :: Lists(s', x, t) <==> if x == c && t == topic then listed else Lists(s, x, t)
  }

  /** A first subscription stores its flag; a second one changes nothing, whatever its flag. A new client
      starts behind everything published so far. */
  ghost predicate Subscribes(h: History, h': History, c: Text, topic: Text, sf: bool) {
    if FlagAt(h.forum, c, topic).Some? then h' == h
    else
      && OnlySubscriptions(h, h', c, h.forum.lastId)
      && FlagSet(h.forum, h'.forum, c, topic, Some(sf)) && ListSet(h.forum, h'.forum, c, topic, true)
  }

  /** The pair is gone from both indexes. */
  ghost predicate Unsubscribes(h: History, h': History, c: Text, topic: Text) {
    && OnlySubscriptions(h, h', c, 0)
    && FlagSet(h.forum, h'.forum, c, topic, None) && ListSet(h.forum, h'.forum, c, topic, false)
  }

  lemma SubscribeIs(h: History, c: Text, topic: Text, sf: bool)
    ensures Subscribes(h, Apply(h, Subscribe(c, topic, sf)), c, topic, sf)
  {
  }

  lemma UnsubscribeIs(h: History, c: Text, topic: Text)
    ensures Unsubscribes(h, Apply(h, Unsubscribe(c, topic)), c, topic)
  {
  }

  // ---- Sessions ----

  /** Nothing but who is online may differ. */
  ghost predicate OnlyOnline(h: History, h': History, connected: set<Text>) {
    h' == h.(forum := h.forum.(connected := connected))
  }

  /** The connection at `i` is gone, the others are as they were and in order, and its own client is offline. */
  ghost predicate Drops(w: World, w': World, i: nat)
    requires i < |w.sessions|
  {
    && |w'.sessions| == |w.sessions| - 1
    && (forall j :: 0 <= j < i ==> w'.sessions[j] == w.sessions[j])
    && (forall j :: i <= j < |w'.sessions| ==> w'.sessions[j] == w.sessions[j + 1])
    && OnlyOnline(w.hist, w'.hist, if w.sessions[i].clientId == [] then w.hist.forum.connected
                                   else w.hist.forum.connected - {w.sessions[i].clientId})
  }

  /** The connection at `i` has this id now and is online. */
  ghost predicate Names(w: World, w': World, i: nat, c: Text)
    requires i < |w.sessions|
  {
    && |w'.sessions| == |w.sessions|
    && (forall j :: 0 <= j < |w.sessions| ==>
          w'.sessions[j] == if j == i then Session(w.sessions[i].fd, c) else w.sessions[j])
    && OnlyOnline(w.hist, w'.hist, w.hist.forum.connected + {c})
  }

  ghost predicate Held(sessions: seq<Session>, c: Text) {
    exists j :: 0 <= j < |sessions| && sessions[j].clientId == c
  }

  /** An announcement: an empty id, or one that any live connection holds, costs the sender its connection; a
      second one is ignored. */
  ghost predicate Announces(w: World, w': World, i: nat, c: Text)
    requires i < |w.sessions|
  {
    if c == [] || Held(w.sessions, c) then Drops(w, w', i)
    else if w.sessions[i].clientId != [] then w' == w
    else Names(w, w', i, c)
  }

  // ---- Packets ----

  /** What a packet does that comes from the live connection at `i`. */
  ghost predicate Does(w: World, w': World, p: Queued, i: nat)
    requires i < |w.sessions|
  {
    if p.payload == [] || p.payload[0] == 0 || p.payload[0] > 4 then w' == w
    else if p.clientId == [] && p.payload[0] != 1 then Drops(w, w', i)
    else
      forall t, rest :: Carries(p.payload[1..], t, rest) ==>
        if p.payload[0] == 1 then Announces(w, w', i, t)
        else if p.payload[0] == 2 then
          if rest == [] then w' == w
          else w'.sessions == w.sessions && Subscribes(w.hist, w'.hist, p.clientId, t, rest[0] != 0)
        else if p.payload[0] == 3 then
          if t == [] then w' == w else w'.sessions == w.sessions && Unsubscribes(w.hist, w'.hist, p.clientId, t)
        else w' == w
  }

  /** The sender is the first live connection with the packet's descriptor. */
  predicate Sender(sessions: seq<Session>, fd: int, i: nat) {
    i < |sessions| && sessions[i].fd == fd && forall j :: 0 <= j < i ==> sessions[j].fd != fd
  }

  lemma KickDrops(w: World, i: nat)
    requires i < |w.sessions|
    ensures Drops(w, Kick(w, i), i)
  {
  }

  lemma AnnounceIs(w: World, i: nat, c: Text)
    requires i < |w.sessions|
    ensures Announces(w, HandleAnnounce(w, i, c), i, c)
  {
    KickDrops(w, i);
    if Held(w.sessions, c) {
      var j :| 0 <= j < |w.sessions| && w.sessions[j].clientId == c;
      assert FindId(w.sessions, c) < |w.sessions|;
    }
  }

  /** Every packet does what its bytes say; one whose connection is gone does nothing. */
  lemma PacketDoes(w: World, p: Queued)
    ensures (forall s :: s in w.sessions ==> s.fd != p.fd) ==> HandlePacket(w, p) == w
    ensures forall i :: Sender(w.sessions, p.fd, i) ==> Does(w, HandlePacket(w, p), p, i)
  {
    var i := FindFd(w.sessions, p.fd);
    if i < |w.sessions| {
      assert w.sessions[i] in w.sessions;
      LiveDoes(w, p, i);
    }
  }

  lemma LiveDoes(w: World, p: Queued, i: nat)
    requires i == FindFd(w.sessions, p.fd) && i < |w.sessions|
    ensures Does(w, HandlePacket(w, p), p, i)
  {
    KickDrops(w, i);
    if p.payload != [] {
      var got := GetText(p.payload[1..]);
      TextCarried(p.payload[1..]);
      AnnounceIs(w, i, got.text);
      SubscribeIs(w.hist, p.clientId, got.text, got.rest != [] && got.rest[0] != 0);
      UnsubscribeIs(w.hist, p.clientId, got.text);
    }
  }

  /** The packet of an announcement, byte by byte. */
  lemma AnnouncementDoes(w: World, p: Queued, i: nat, c: Text)
    requires Sender(w.sessions, p.fd, i) && |c| < 0x1_0000
    requires p.payload == [1, |c| / 0x100, |c| % 0x100] + c
    ensures Announces(w, HandlePacket(w, p), i, c)
  {
    PacketDoes(w, p);
    var body := p.payload[1..];
    assert body == [|c| / 0x100, |c| % 0x100] + c && body[2..] == c;
    assert Length16(body[0], body[1]) == |c|;
    assert Carries(body, c, []);
  }

  // ---- The intake ----

  /** The packets of a queue up to the end of the stream. */
  predicate UpToEnd(q: PacketQueue, packets: PacketQueue) {
    packets <= q && [] !in packets && (packets == q || q[|packets|] == [])
  }

  lemma {:induction false} BeforeIs(q: PacketQueue)
    ensures UpToEnd(q, Before(q))
  {
    if q != [] && q[0] != [] {
      BeforeIs(q[1..]);
      assert q == [q[0]] + q[1..];
    }
  }

  /** What came in on one descriptor, with its stamps. */
  function Incoming(packets: seq<Queued>, fd: int): seq<Queued> {
    if packets == [] then []
    else (if packets[0].fd == fd then [packets[0]] else []) + Incoming(packets[1..], fd)
  }

  ghost predicate StampedAs(packets: seq<Queued>, s: Session, payloads: PacketQueue) {
    |packets| == |payloads| &&
    forall k :: 0 <= k < |packets| ==> packets[k] == Queued(s.fd, s.clientId, payloads[k])
  }

  /** The stream of the connection has ended. */
  predicate Ends(queues: map<int, PacketQueue>, s: Session) {
    s.fd in queues && [] in queues[s.fd]
  }

  function QueueAt(queues: map<int, PacketQueue>, fd: int): PacketQueue {
    if fd in queues then queues[fd] else []
  }

  predicate Rising(places: seq<nat>, limit: nat, repeated: bool) {
    && (forall a :: 0 <= a < |places| ==> places[a] < limit)
    && (forall a, b :: 0 <= a < b < |places| ==> places[a] < places[b] || (repeated && places[a] == places[b]))
  }

  function PlacesOf(fds: seq<int>, sessions: seq<Session>): (places: seq<nat>)
    ensures |places| == |fds|
  {
    seq(|fds|, k requires 0 <= k < |fds| => FindFd(sessions, fds[k]))
  }

  /** Descriptors in the order of the table; one may come several times if so `repeated`. */
  predicate InTableOrder(fds: seq<int>, sessions: seq<Session>, repeated: bool) {
    Rising(PlacesOf(fds, sessions), |sessions|, repeated)
  }

  function PacketFds(packets: seq<Queued>): seq<int> {
    seq(|packets|, k requires 0 <= k < |packets| => packets[k].fd)
  }

  function SessionFds(sessions: seq<Session>): seq<int> {
    seq(|sessions|, k requires 0 <= k < |sessions| => sessions[k].fd)
  }

  /** Every connection's packets up to the end of its stream come in, in order and under its own stamp, one
      connection after the other. */
  ghost predicate BringsIn(sessions: seq<Session>, queues: map<int, PacketQueue>, packets: seq<Queued>) {
    && (forall s :: s in sessions ==> StampedAs(Incoming(packets, s.fd), s, Before(QueueAt(queues, s.fd))))
    && InTableOrder(PacketFds(packets), sessions, true)
  }

  /** Exactly the connections whose stream has ended are gone. */
  ghost predicate Keeps(sessions: seq<Session>, queues: map<int, PacketQueue>, kept: seq<Session>) {
    && (forall s :: s in kept <==> s in sessions && !Ends(queues, s))
    && InTableOrder(SessionFds(kept), sessions, false)
  }

  /** And their clients are offline. */
  ghost predicate EndsOnline(sessions: seq<Session>, queues: map<int, PacketQueue>, h: History, h': History) {
    && OnlyOnline(h, h', h'.forum.connected)
    && (forall c :: c in h'.forum.connected <==>
          c in h.forum.connected && !exists s :: s in sessions && Ends(queues, s) && s.clientId == c && c != [])
  }

  predicate DistinctFds(sessions: seq<Session>) {
    forall i, j :: 0 <= i < j < |sessions| ==> sessions[i].fd != sessions[j].fd
  }

  lemma {:induction false} IncomingAppend(a: seq<Queued>, b: seq<Queued>, fd: int)
    ensures Incoming(a + b, fd) == Incoming(a, fd) + Incoming(b, fd)
  {
    if a == [] {
      assert a + b == b;
    } else {
      IncomingAppend(a[1..], b, fd);
      assert (a + b)[1..] == a[1..] + b;
      Associative(if a[0].fd == fd then [a[0]] else [], Incoming(a[1..], fd), Incoming(b, fd));
    }
  }

  lemma {:induction false} IncomingAll(packets: seq<Queued>, fd: int)
    requires forall p :: p in packets ==> p.fd == fd
    ensures Incoming(packets, fd) == packets
  {
    if packets != [] {
      IncomingAll(packets[1..], fd);
    }
  }

  lemma {:induction false} IncomingNone(packets: seq<Queued>, fd: int)
    requires forall p :: p in packets ==> p.fd != fd
    ensures Incoming(packets, fd) == []
  {
    if packets != [] {
      IncomingNone(packets[1..], fd);
    }
  }

  lemma {:induction false} IntakeKeeps(sessions: seq<Session>, queues: map<int, PacketQueue>, h: History)
    requires DistinctFds(sessions)
    ensures Keeps(sessions, queues, Process(sessions, queues, h).kept)
    ensures EndsOnline(sessions, queues, h, Process(sessions, queues, h).hist)
    decreases |sessions|
  {
    if sessions != [] {
      var s, tail := sessions[0], sessions[1..];
      var h1 := if Ends(queues, s) then Disconnect(h, s) else h;
      var r := Process(tail, queues, h1);
      IntakeKeeps(tail, queues, h1);
      KeptFirst(sessions, queues, r.kept);
      assert [] + r.kept == r.kept;
      OnlineFirst(sessions, queues, h, h1, r.hist);
    }
  }

  /** One step down the table. */
  lemma FindBehind(sessions: seq<Session>, fd: int)
    requires sessions != [] && DistinctFds(sessions) && FindFd(sessions[1..], fd) < |sessions[1..]|
    ensures fd != sessions[0].fd && FindFd(sessions, fd) == 1 + FindFd(sessions[1..], fd)
  {
    assert sessions[FindFd(sessions[1..], fd) + 1].fd == fd;
  }

  lemma OrderFirst(sessions: seq<Session>, own: seq<int>, fds: seq<int>, repeated: bool)
    requires sessions != [] && DistinctFds(sessions) && InTableOrder(fds, sessions[1..], repeated)
    requires (forall k :: 0 <= k < |own| ==> own[k] == sessions[0].fd) && (|own| <= 1 || repeated)
    ensures InTableOrder(own + fds, sessions, repeated)
  {
    var rest := PlacesOf(fds, sessions[1..]);
    forall a | 0 <= a < |fds|
      ensures PlacesOf(fds, sessions)[a] == 1 + rest[a]
    {
      assert rest[a] < |sessions[1..]|;
      FindBehind(sessions, fds[a]);
    }
    RisingFirst(PlacesOf(own, sessions), rest, PlacesOf(fds, sessions), |sessions[1..]|, repeated);
    assert PlacesOf(own + fds, sessions) == PlacesOf(own, sessions) + PlacesOf(fds, sessions);
  }

  lemma RisingFirst(own: seq<nat>, rest: seq<nat>, more: seq<nat>, limit: nat, repeated: bool)
    requires (forall k :: 0 <= k < |own| ==> own[k] == 0) && (|own| <= 1 || repeated)
    requires Rising(rest, limit, repeated) && |more| == |rest| && forall k :: 0 <= k < |rest| ==> more[k] == 1 + rest[k]
    ensures Rising(own + more, limit + 1, repeated)
  {
  }

  lemma KeptFirst(sessions: seq<Session>, queues: map<int, PacketQueue>, kept: seq<Session>)
    requires sessions != [] && DistinctFds(sessions) && Keeps(sessions[1..], queues, kept)
    ensures Keeps(sessions, queues, (if Ends(queues, sessions[0]) then [] else [sessions[0]]) + kept)
  {
    var s, own := sessions[0], if Ends(queues, sessions[0]) then [] else [sessions[0]];
    OrderFirst(sessions, SessionFds(own), SessionFds(kept), false);
    assert SessionFds(own + kept) == SessionFds(own) + SessionFds(kept);
    assert sessions == [s] + sessions[1..];
  }

  lemma OnlineFirst(sessions: seq<Session>, queues: map<int, PacketQueue>, h: History, h1: History, h2: History)
    requires sessions != [] && EndsOnline(sessions[1..], queues, h1, h2)
    requires h1 == if Ends(queues, sessions[0]) then Disconnect(h, sessions[0]) else h
    ensures EndsOnline(sessions, queues, h, h2)
  {
    var s, tail := sessions[0], sessions[1..];
    forall c
      ensures c in h2.forum.connected <==>
              c in h.forum.connected && !exists x :: x in sessions && Ends(queues, x) && x.clientId == c && c != []
    {
      assert sessions == [s] + tail;
    }
  }

  lemma {:induction false} IntakeBrings(sessions: seq<Session>, queues: map<int, PacketQueue>, h: History)
    requires DistinctFds(sessions)
    ensures BringsIn(sessions, queues, Process(sessions, queues, h).packets)
    decreases |sessions|
  {
    if sessions != [] {
      var s, tail := sessions[0], sessions[1..];
      var h1 := if Ends(queues, s) then Disconnect(h, s) else h;
      IntakeBrings(tail, queues, h1);
      BroughtFirst(sessions, queues, Process(tail, queues, h1).packets);
    }
  }

  lemma BroughtFirst(sessions: seq<Session>, queues: map<int, PacketQueue>, packets: seq<Queued>)
    requires sessions != [] && DistinctFds(sessions) && BringsIn(sessions[1..], queues, packets)
    ensures BringsIn(sessions, queues, Stamped(sessions[0], Before(QueueAt(queues, sessions[0].fd))) + packets)
  {
    var s, tail := sessions[0], sessions[1..];
    var own := Stamped(s, Before(QueueAt(queues, s.fd)));
    OrderFirst(sessions, PacketFds(own), PacketFds(packets), true);
    assert PacketFds(own + packets) == PacketFds(own) + PacketFds(packets);
    forall x | x in sessions
      ensures StampedAs(Incoming(own + packets, x.fd), x, Before(QueueAt(queues, x.fd)))
    {
      assert sessions == [s] + tail;
      IncomingAppend(own, packets, x.fd);
      if x.fd == s.fd {
        OneSession(sessions, x, s);
        NotBehind(sessions, packets);
        OwnFirst(s, Before(QueueAt(queues, s.fd)), packets);
      } else {
        IncomingNone(own, x.fd);
      }
    }
  }

  lemma OwnFirst(s: Session, payloads: PacketQueue, packets: seq<Queued>)
    requires forall p :: p in packets ==> p.fd != s.fd
    ensures StampedAs(Incoming(Stamped(s, payloads), s.fd) + Incoming(packets, s.fd), s, payloads)
  {
    IncomingAll(Stamped(s, payloads), s.fd);
    IncomingNone(packets, s.fd);
  }

  lemma NotBehind(sessions: seq<Session>, packets: seq<Queued>)
    requires sessions != [] && DistinctFds(sessions) && InTableOrder(PacketFds(packets), sessions[1..], true)
    ensures forall p :: p in packets ==> p.fd != sessions[0].fd
  {
    forall a | 0 <= a < |packets|
      ensures packets[a].fd != sessions[0].fd
    {
      assert PlacesOf(PacketFds(packets), sessions[1..])[a] == FindFd(sessions[1..], packets[a].fd);
      FindBehind(sessions, packets[a].fd);
    }
  }

  lemma OneSession(sessions: seq<Session>, x: Session, y: Session)
    requires DistinctFds(sessions) && x in sessions && y in sessions && x.fd == y.fd
    ensures x == y
  {
    var i :| 0 <= i < |sessions| && sessions[i] == x;
    var j :| 0 <= j < |sessions| && sessions[j] == y;
    assert i == j;
  }
}
