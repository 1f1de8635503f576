/** Subscriptions over whole runs: a client is subscribed from its request on until it unsubscribes, under the
    flag it first gave, and posts to the topic are for it during that time and at no other. */
module Subscriptions {
  import opened Bytes
  import opened Messages
  import opened ForumState
  import opened ServerTick
  import opened ServerLaws
  import opened TickLaws
  import opened DeliveryLaws
  import opened Publications
  import opened Promise
  import opened Requests

  /** A complete request to subscribe to the topic. */
  ghost predicate AsksIn(payload: seq<byte>, topic: Text, sf: bool) {
    payload != [] && payload[0] == 2 &&
    exists rest :: Carries(payload[1..], topic, rest) && rest != [] && sf == (rest[0] != 0)
  }

  /** A complete request to unsubscribe from it. */
  ghost predicate AsksOut(payload: seq<byte>, topic: Text) {
    payload != [] && payload[0] == 3 && topic != [] && exists rest :: Carries(payload[1..], topic, rest)
  }

  /** The packet's connection is live. */
  ghost predicate Heard(w: World, p: Queued) {
    exists i :: Sender(w.sessions, p.fd, i)
  }

  /** One packet and one pair of client and topic. */
  ghost predicate Answered(flag: Option<bool>, flag': Option<bool>, p: Queued, heard: bool, c: Text, topic: Text) {
    var own := heard && p.clientId == c;
    && (forall sf :: own && flag == None && AsksIn(p.payload, topic, sf) ==> flag' == Some(sf))
    && (own && AsksOut(p.payload, topic) ==> flag' == None)
    && ((own && flag == None && exists sf :: AsksIn(p.payload, topic, sf)) || (own && AsksOut(p.payload, topic))
        || flag' == flag)
  }

  lemma PacketAnswered(w: World, p: Queued, c: Text, topic: Text)
    requires c != []
    ensures Answered(FlagAt(w.hist.forum, c, topic), FlagAt(HandlePacket(w, p).hist.forum, c, topic), p, Heard(w, p), c, topic)
  {
    var w' := HandlePacket(w, p);
    PacketDoes(w, p);
    if Heard(w, p) {
      var i :| Sender(w.sessions, p.fd, i);
      DoesAnswer(w, w', p, i, c, topic);
    } else if FindFd(w.sessions, p.fd) < |w.sessions| {
      assert Sender(w.sessions, p.fd, FindFd(w.sessions, p.fd));
    }
  }

  lemma DoesAnswer(w: World, w': World, p: Queued, i: nat, c: Text, topic: Text)
    requires c != [] && i < |w.sessions| && Does(w, w', p, i)
    ensures Answered(FlagAt(w.hist.forum, c, topic), FlagAt(w'.hist.forum, c, topic), p, true, c, topic)
  {
    if p.payload != [] {
      var t, rest := CarriedText(p.payload[1..]);
      if p.payload[0] == 2 && rest != [] {
        assert AsksIn(p.payload, t, rest[0] != 0);
      }
      if p.payload[0] == 3 && t != [] {
        assert AsksOut(p.payload, t);
      }
    }
  }

  lemma CarriedText(body: seq<byte>) returns (t: Text, rest: seq<byte>)
    ensures Carries(body, t, rest) && forall u, more :: Carries(body, u, more) ==> u == t && more == rest
  {
    t, rest := [], [];
    if |body| >= 2 {
      var n := Length16(body[0], body[1]);
      if n <= |body| - 2 {
        t, rest := body[2..2 + n], body[2 + n..];
      } else {
        t := body[2..];
      }
    }
  }

  // ---- Over ticks ----

  /** The packets of a tick, with the state their handling starts in. */
  function PacketsOf(w: World, input: Input): seq<Queued> {
    var w1 := Accept(w, input.accepted);
    Process(w1.sessions, input.queues, w1.hist).packets
  }

  function TakenIn(w: World, input: Input): World {
    var w1 := Accept(w, input.accepted);
    var r := Process(w1.sessions, input.queues, w1.hist);
    World(r.kept, r.hist)
  }

  /** A tick takes in the packets of each connection, the new one included, up to the end of its stream. */
  lemma TickTakesIn(w: World, input: Input)
    requires AtRest(w) && Fits(w, input)
    ensures var sessions := w.sessions + if input.accepted == None then [] else [Session(input.accepted.value, [])];
            && BringsIn(sessions, input.queues, PacketsOf(w, input))
            && Keeps(sessions, input.queues, TakenIn(w, input).sessions)
            && EndsOnline(sessions, input.queues, w.hist, TakenIn(w, input).hist)
  {
    var w1 := Accept(w, input.accepted);
    AcceptSound(w, input);
    IntakeBrings(w1.sessions, input.queues, w1.hist);
    IntakeKeeps(w1.sessions, input.queues, w1.hist);
    assert w.sessions + [] == w.sessions;
  }

  lemma {:induction false} PacketsFds(w: World, packets: seq<Queued>)
    ensures forall s :: s in HandlePackets(w, packets).sessions ==> exists r :: r in w.sessions && r.fd == s.fd
    decreases |packets|
  {
    if packets != [] {
      OnePacketFds(w, packets[0]);
      PacketsFds(HandlePacket(w, packets[0]), packets[1..]);
    }
  }

  lemma OnePacketFds(w: World, p: Queued)
    ensures forall s :: s in HandlePacket(w, p).sessions ==> exists r :: r in w.sessions && r.fd == s.fd
  {
    var w' := HandlePacket(w, p);
    PacketDoes(w, p);
    forall s | s in w'.sessions
      ensures exists r :: r in w.sessions && r.fd == s.fd
    {
      var j :| 0 <= j < |w'.sessions| && w'.sessions[j] == s;
      var r := if |w'.sessions| == |w.sessions| || w.sessions[j].fd == s.fd then w.sessions[j] else w.sessions[j + 1];
      assert r in w.sessions;
    }
  }

  /** No connection outlives the end of its stream. */
  lemma EndedGone(w: World, input: Input)
    requires AtRest(w) && Fits(w, input)
    ensures forall s :: s in Tick(w, input).sessions ==> !Ends(input.queues, s)
  {
    TickTakesIn(w, input);
    PacketsFds(TakenIn(w, input), PacketsOf(w, input));
  }

  /** The client does not ask for the other state of its subscription. */
  ghost predicate Quiet(packets: seq<Queued>, c: Text, topic: Text, subscribed: bool) {
    forall k :: 0 <= k < |packets| && packets[k].clientId == c ==>
      if subscribed then !AsksOut(packets[k].payload, topic) else forall sf :: !AsksIn(packets[k].payload, topic, sf)
  }

  lemma {:induction false} QuietPackets(w: World, packets: seq<Queued>, c: Text, topic: Text)
    requires c != [] && Quiet(packets, c, topic, FlagAt(w.hist.forum, c, topic).Some?)
    ensures FlagAt(HandlePackets(w, packets).hist.forum, c, topic) == FlagAt(w.hist.forum, c, topic)
    decreases |packets|
  {
    if packets != [] {
      var flag, w1 := FlagAt(w.hist.forum, c, topic), HandlePacket(w, packets[0]);
      PacketAnswered(w, packets[0], c, topic);
      forall k | 0 <= k < |packets[1..]| && packets[1..][k].clientId == c
        ensures if flag.Some? then !AsksOut(packets[1..][k].payload, topic)
                else forall sf :: !AsksIn(packets[1..][k].payload, topic, sf)
      {
        assert packets[1..][k] == packets[k + 1];
      }
      QuietPackets(w1, packets[1..], c, topic);
    }
  }

  lemma SameFlag(s: State, s': State, c: Text, topic: Text)
    requires Subs(s', topic) == Subs(s, topic)
    ensures FlagAt(s', c, topic) == FlagAt(s, c, topic)
  {
  }

  /** The intake leaves subscriptions alone, and so do posts and delivery. */
  lemma TickFlags(w: World, input: Input, c: Text, topic: Text)
    requires AtRest(w) && Fits(w, input)
    ensures FlagAt(TakenIn(w, input).hist.forum, c, topic) == FlagAt(w.hist.forum, c, topic)
    ensures FlagAt(Tick(w, input).hist.forum, c, topic) == FlagAt(Serve(w, input).hist.forum, c, topic)
  {
    var w1 := Accept(w, input.accepted);
    ProcessForum(w1.sessions, input.queues, w1.hist);
    ServeSound(w, input);
    PostFlags(Serve(w, input), input.posts, c, topic);
  }

  lemma PostFlags(w: World, posts: seq<Datagram>, c: Text, topic: Text)
    requires SessionsAgree(w.sessions, w.hist.forum.connected)
    requires forall id :: id in w.hist.published ==> id <= w.hist.forum.lastId
    ensures FlagAt(Deliver(PublishAll(w.hist, posts), w.sessions).forum, c, topic) == FlagAt(w.hist.forum, c, topic)
  {
    var h := PublishAll(w.hist, posts);
    PublishAllIs(w, posts);
    DeliverNames(h, w.sessions);
    assert Subs(World(w.sessions, h).hist.forum, topic) == Subs(w.hist.forum, topic);
    SameFlag(w.hist.forum, Deliver(h, w.sessions).forum, c, topic);
  }

  lemma QuietTick(w: World, input: Input, c: Text, topic: Text)
    requires AtRest(w) && Fits(w, input) && c != []
    requires Quiet(PacketsOf(w, input), c, topic, FlagAt(w.hist.forum, c, topic).Some?)
    ensures FlagAt(Tick(w, input).hist.forum, c, topic) == FlagAt(w.hist.forum, c, topic)
  {
    TickFlags(w, input, c, topic);
    QuietPackets(TakenIn(w, input), PacketsOf(w, input), c, topic);
  }

  // ---- Over runs ----

  ghost predicate QuietRun(w: World, inputs: seq<Input>, c: Text, topic: Text, subscribed: bool)
    decreases |inputs|
  {
    inputs == [] ||
    (Quiet(PacketsOf(w, inputs[0]), c, topic, subscribed) && QuietRun(Tick(w, inputs[0]), inputs[1..], c, topic, subscribed))
  }

  /** The subscription stays as it is, and is so at the end of every tick that stores something. */
  lemma {:induction false} QuietFlags(w: World, inputs: seq<Input>, c: Text, topic: Text)
    requires AtRest(w) && FitsAll(w, inputs) && c != []
    requires QuietRun(w, inputs, c, topic, FlagAt(w.hist.forum, c, topic).Some?)
    ensures FlagAt(Run(w, inputs).hist.forum, c, topic) == FlagAt(w.hist.forum, c, topic)
    ensures forall e :: e in Entries(w, inputs) ==> FlagAt(e.at.hist.forum, c, topic) == FlagAt(w.hist.forum, c, topic)
    decreases |inputs|
  {
    if inputs != [] {
      QuietTick(w, inputs[0], c, topic);
      TickAtRest(w, inputs[0]);
      QuietFlags(Tick(w, inputs[0]), inputs[1..], c, topic);
    }
  }

  /** Whom a post is for. */
  ghost predicate MeantFor(p: Publication, c: Text, flag: Option<bool>) {
    match flag
    case None => c !in p.counted && c !in p.skipped
    case Some(sf) => (c in p.counted || c in p.skipped) && (sf ==> c in p.counted)
  }

  lemma EntryMeant(h: History, id: nat, e: Entry, c: Text)
    requires PublishedAs(h, id, e.post, e.at)
    ensures MeantFor(h.published[id], c, FlagAt(e.at.hist.forum, c, h.published[id].topic))
  {
    assert Audits(h.published[id], e.at);
    assert c in h.published[id].counted <==> Counts(e.at, h.published[id].topic, c);
  }

  /** As long as a client does not ask to change its subscription to a topic, all posts to the topic are for
      it, or none is; under a set flag they count it, online or not. */
  lemma MeantWhile(w: World, inputs: seq<Input>, c: Text, topic: Text, id: nat)
    requires AtRest(w) && FitsAll(w, inputs) && c != []
    requires QuietRun(w, inputs, c, topic, FlagAt(w.hist.forum, c, topic).Some?)
    requires id in Run(w, inputs).hist.published && id !in w.hist.published
    requires Run(w, inputs).hist.published[id].topic == topic
    ensures MeantFor(Run(w, inputs).hist.published[id], c, FlagAt(w.hist.forum, c, topic))
  {
    var es, k := Entries(w, inputs), id - w.hist.forum.lastId - 1;
    QuietFlags(w, inputs, c, topic);
    RunPublishes(w, inputs);
    assert PublishedAs(Run(w, inputs).hist, w.hist.forum.lastId + 1 + k, es[k].post, es[k].at);
    assert es[k] in es;
    EntryMeant(Run(w, inputs).hist, id, es[k], c);
  }

  lemma NotHanded(w: World, id: nat, c: Text)
    requires AtRest(w) && id in w.hist.published && MeantFor(w.hist.published[id], c, None)
    ensures c !in ReceiversOf(w, id)
  {
    assert PendingLawAt(w.hist, id);
  }

  /** The packet at `k` unsubscribes, and the client asks for nothing in the rest of the tick. */
  lemma UnsubscribedInTick(w: World, input: Input, k: nat, c: Text, topic: Text)
    requires AtRest(w) && Fits(w, input) && c != [] && k < |PacketsOf(w, input)|
    requires var p := PacketsOf(w, input)[k];
             p.clientId == c && AsksOut(p.payload, topic) && Heard(HandlePackets(TakenIn(w, input), PacketsOf(w, input)[..k]), p)
    requires Quiet(PacketsOf(w, input)[k + 1..], c, topic, false)
    ensures FlagAt(Tick(w, input).hist.forum, c, topic) == None
  {
    var packets, w0 := PacketsOf(w, input), TakenIn(w, input);
    var w1 := HandlePackets(w0, packets[..k]);
    HandledInTurn(w0, packets, k);
    PacketAnswered(w1, packets[k], c, topic);
    QuietPackets(HandlePacket(w1, packets[k]), packets[k + 1..], c, topic);
    TickFlags(w, input, c, topic);
  }

  /** The packet at `k` subscribes where there is no subscription, and the client does not take it back in the
      rest of the tick. */
  lemma SubscribedInTick(w: World, input: Input, k: nat, c: Text, topic: Text, sf: bool)
    requires AtRest(w) && Fits(w, input) && c != [] && k < |PacketsOf(w, input)|
    requires var p, w1 := PacketsOf(w, input)[k], HandlePackets(TakenIn(w, input), PacketsOf(w, input)[..k]);
             p.clientId == c && AsksIn(p.payload, topic, sf) && Heard(w1, p) && FlagAt(w1.hist.forum, c, topic) == None
    requires Quiet(PacketsOf(w, input)[k + 1..], c, topic, true)
    ensures FlagAt(Tick(w, input).hist.forum, c, topic) == Some(sf)
  {
    var packets, w0 := PacketsOf(w, input), TakenIn(w, input);
    var w1 := HandlePackets(w0, packets[..k]);
    HandledInTurn(w0, packets, k);
    PacketAnswered(w1, packets[k], c, topic);
    QuietPackets(HandlePacket(w1, packets[k]), packets[k + 1..], c, topic);
    TickFlags(w, input, c, topic);
  }

  lemma {:induction false} HandledInTurn(w: World, packets: seq<Queued>, k: nat)
    requires k < |packets|
    ensures HandlePackets(w, packets) ==
            HandlePackets(HandlePacket(HandlePackets(w, packets[..k]), packets[k]), packets[k + 1..])
    decreases k
  {
    if k > 0 {
      HandledInTurn(HandlePacket(w, packets[0]), packets[1..], k - 1);
      assert packets[1..][..k - 1] == packets[..k][1..] && packets[1..][k..] == packets[k + 1..];
    }
  }

  /** A client that has unsubscribed and not subscribed again: no post to the topic from that tick on counts it,
      skips it or is ever handed to it. */
  lemma Unsubscribed(w: World, input: Input, k: nat, inputs: seq<Input>, c: Text, topic: Text, id: nat)
    requires AtRest(w) && Fits(w, input) && FitsAll(Tick(w, input), inputs) && c != [] && k < |PacketsOf(w, input)|
    requires var p := PacketsOf(w, input)[k];
             p.clientId == c && AsksOut(p.payload, topic) && Heard(HandlePackets(TakenIn(w, input), PacketsOf(w, input)[..k]), p)
    requires Quiet(PacketsOf(w, input)[k + 1..], c, topic, false) && QuietRun(Tick(w, input), inputs, c, topic, false)
    requires var w' := Run(Tick(w, input), inputs);
             id in w'.hist.published && id !in w.hist.published && w'.hist.published[id].topic == topic
    ensures var w' := Run(Tick(w, input), inputs);
            && FlagAt(w'.hist.forum, c, topic) == None
            && c !in w'.hist.published[id].counted && c !in w'.hist.published[id].skipped
            && c !in ReceiversOf(w', id)
  {
    var w1 := Tick(w, input);
    var w' := Run(w1, inputs);
    UnsubscribedInTick(w, input, k, c, topic);
    TickAtRest(w, input);
    QuietFlags(w1, inputs, c, topic);
    RunAtRest(w1, inputs);
    if id in w1.hist.published {
      RunKeeps(w1, inputs, id);
      NewlyPublished(w, input, id);
      assert c in w1.hist.published[id].counted <==> Counts(w1, topic, c);
    } else {
      MeantWhile(w1, inputs, c, topic, id);
    }
    NotHanded(w', id, c);
  }
}
