/** Store and forward over whole runs of the server: who is handed a message, when, and when it goes. */
module DeliveryLaws {
  import opened Bytes
  import opened ByteOrder
  import opened BitStream
  import opened NetworkObjects
  import opened Messages
  import opened ForumState
  import opened ForumLists
  import opened ForumLaws
  import opened ServerTick
  import opened ServerLaws
  import opened TickLaws

  function Connected(w: World): set<Text> {
    w.hist.forum.connected
  }

  ghost function ReceiversOf(w: World, id: nat): set<Text> {
    Receivers(w.hist.log, id)
  }

  lemma SetSize(a: set<Text>, b: set<Text>)
    requires a <= b
    ensures |a| <= |b|
    ensures |a| == |b| ==> a == b
  {
    assert b == a + (b - a);
    if |a| == |b| {
      assert b - a == {};
    }
  }

  /** A stored message is still owed to `refCount` plus the skipped subscribers, and to nobody else. */
  lemma PendingCount(w: World, id: nat)
    requires Sound(w) && id in w.hist.published && Stored(w.hist, id)
    ensures var p := w.hist.published[id];
            var ref := RefOf(Msgs(w.hist.forum, p.topic), id);
            ref >= 1 && |Pending(w.hist.forum, p.topic, id)| == ref + |p.skipped|
  {
    var p := w.hist.published[id];
    assert PendingLawAt(w.hist, id) && Conserved(w.hist, id);
    AscendingRefs(Msgs(w.hist.forum, p.topic), 0, w.hist.forum.lastId, id);
    Remaining(p.counted, p.skipped, Receivers(w.hist.log, id));
  }

  lemma Remaining(counted: set<Text>, skipped: set<Text>, receivers: set<Text>)
    requires counted !! skipped && receivers <= counted + skipped
    ensures |counted + skipped - receivers| == |counted| + |skipped| - |receivers|
  {
    var audience := counted + skipped;
    assert audience == receivers + (audience - receivers);
    assert |audience| == |counted| + |skipped|;
  }

  /** Between ticks a message is stored for someone: a subscriber who is below it and is offline. */
  lemma NeverStranded(w: World, id: nat)
    requires AtRest(w) && id in w.hist.published && Stored(w.hist, id)
    ensures var waiting := Pending(w.hist.forum, w.hist.published[id].topic, id);
            waiting != {} && waiting !! Connected(w)
  {
    PendingCount(w, id);
    assert id <= w.hist.forum.lastId;
  }

  /** The law of one message between ticks when nobody was skipped: only the counted are handed it,
      every counted client that is online has it, and it is erased exactly when all have it. */
  lemma ExactlyOnce(w: World, id: nat)
    requires AtRest(w) && id in w.hist.published && w.hist.published[id].skipped == {}
    ensures var counted := w.hist.published[id].counted;
            && ReceiversOf(w, id) <= counted
            && counted * Connected(w) <= ReceiversOf(w, id)
            && (Stored(w.hist, id) <==> ReceiversOf(w, id) != counted)
  {
    var p := w.hist.published[id];
    assert PendingLawAt(w.hist, id) && Conserved(w.hist, id);
    assert Audience(p) == p.counted;
    AscendingRefs(Msgs(w.hist.forum, p.topic), 0, w.hist.forum.lastId, id);
    SetSize(ReceiversOf(w, id), p.counted);
    if Stored(w.hist, id) {
      NeverStranded(w, id);
    }
  }

  /** The message at place `k` of a topic's list in call `i`. */
  predicate HandedAt(log: seq<Batch>, i: nat, topic: Text, k: nat, client: Text, id: nat) {
    i < |log| && log[i].client == client && topic in log[i].lists &&
    k < |log[i].lists[topic]| && log[i].lists[topic][k].id == id
  }

  /** A client is handed one message at most once: not by two calls, under two topics or twice in a list. */
  lemma OnceEach(w: World, client: Text, id: nat, i: nat, t: Text, k: nat, i': nat, t': Text, k': nat)
    requires AtRest(w)
    requires HandedAt(w.hist.log, i, t, k, client, id) && HandedAt(w.hist.log, i', t', k', client, id)
    ensures i == i' && t == t' && k == k'
  {
    var b, b' := w.hist.log[i], w.hist.log[i'];
    assert b.lists[t][k] in b.lists[t] && HasId(b.lists[t], id) && BatchHas(b, id);
    assert b'.lists[t'][k'] in b'.lists[t'] && HasId(b'.lists[t'], id) && BatchHas(b', id);
    assert b in w.hist.log && BatchOrdered(b);
  }

  // ---- One tick ----

  /** What a tick does for a message that existed before it, and for one published in it. */
  ghost predicate TickEffect(w: World, w': World, id: nat)
    requires id in w'.hist.published
  {
    if id in w.hist.published then
      && w'.hist.published[id] == w.hist.published[id]
      && ReceiversOf(w, id) <= ReceiversOf(w', id)
      && ReceiversOf(w', id) - ReceiversOf(w, id) <= Connected(w')
      && (!Stored(w.hist, id) ==> !Stored(w'.hist, id) && ReceiversOf(w', id) == ReceiversOf(w, id))
    else
      ReceiversOf(w', id) <= Connected(w') && w'.hist.published[id].skipped !! Connected(w')
  }

  /** The stages of a tick and what each leaves behind. */
  lemma TickStages(w: World, input: Input)
    requires AtRest(w) && Fits(w, input)
    ensures var served := Serve(w, input);
            var h := PublishAll(served.hist, input.posts);
            var h' := Tick(w, input).hist;
            && SameStore(w.hist, served.hist) && Posted(served.hist, h) && Lawful(h) && PendingLaw(h)
            && Delivered(h, h', h'.forum.connected)
            && h'.forum.connected == served.hist.forum.connected
  {
    var served := Serve(w, input);
    ServeSound(w, input);
    PublishAllSound(served, input.posts);
    DeliverSound(PublishAll(served.hist, input.posts), served.sessions);
  }

  lemma TickEffects(w: World, input: Input, id: nat)
    requires AtRest(w) && Fits(w, input) && id in Tick(w, input).hist.published
    ensures TickEffect(w, Tick(w, input), id)
  {
    var served := Serve(w, input);
    var h, w' := PublishAll(served.hist, input.posts), Tick(w, input);
    TickStages(w, input);
    if id in w.hist.published {
      StoredSince(served.hist, h, input.posts, id);
    } else {
      NoReceiversYet(w.hist, id);
    }
    EffectOf(w, served.hist, h, w', id);
  }

  lemma EffectOf(w: World, served: History, h: History, w': World, id: nat)
    requires SameStore(w.hist, served) && Posted(served, h) && id in h.published && w'.hist.published == h.published
    requires DeliveredAt(h, w'.hist, Connected(w'), id) && Connected(w') == served.forum.connected
    requires if id in w.hist.published then Stored(h, id) ==> Stored(served, id) else ReceiversOf(w, id) == {}
    ensures TickEffect(w, w', id)
  {
  }

  /** Posts do not bring an erased message back. */
  lemma {:induction false} StoredSince(h: History, h': History, posts: seq<Datagram>, id: nat)
    requires id in h.published && h' == PublishAll(h, posts) && id <= h.forum.lastId
    ensures id in h'.published && h'.published[id] == h.published[id]
    ensures Stored(h', id) ==> Stored(h, id)
    decreases |posts|
  {
    if posts != [] {
      var h1 := Publish(h, posts[0]);
      var post := DecodePost(posts[0].bytes);
      if post.Some? {
        var s, t := h.forum, post.value.topic;
        var m := Message(s.lastId + 1, post.value.text, post.value.kind, Source(posts[0].ip, posts[0].port), |Counted(s, t)|);
        HasIdAppend(Msgs(s, t), m, id);
      }
      StoredSince(h1, h', posts[1..], id);
    }
  }

  /** In each tick a message with nobody skipped goes to exactly the counted clients that are online
      at its end and have not been handed it: the online ones in the tick of the post, an offline one in
      the tick in which it is back. */
  lemma TickDelivers(w: World, input: Input, id: nat)
    requires AtRest(w) && Fits(w, input)
    requires id in Tick(w, input).hist.published && Tick(w, input).hist.published[id].skipped == {}
    ensures var w' := Tick(w, input);
            ReceiversOf(w', id) - ReceiversOf(w, id) ==
            (w'.hist.published[id].counted - ReceiversOf(w, id)) * Connected(w')
  {
    var w' := Tick(w, input);
    TickEffects(w, input, id);
    TickAtRest(w, input);
    ExactlyOnce(w', id);
    if id !in w.hist.published {
      NoReceiversYet(w.hist, id);
    }
    NewReceivers(w, w', id);
  }

  lemma NewReceivers(w: World, w': World, id: nat)
    requires id in w'.hist.published && TickEffect(w, w', id)
    requires id !in w.hist.published ==> ReceiversOf(w, id) == {}
    requires var counted := w'.hist.published[id].counted;
             ReceiversOf(w', id) <= counted && counted * Connected(w') <= ReceiversOf(w', id)
    ensures ReceiversOf(w', id) - ReceiversOf(w, id) ==
            (w'.hist.published[id].counted - ReceiversOf(w, id)) * Connected(w')
  {
  }

  /** First come, first served: in one tick a message stored before it goes to subscribers of its post
      that are online and lack it, to all of them or to as many as its count still allows. */
  lemma FirstComeFirstServed(w: World, input: Input, id: nat)
    requires AtRest(w) && Fits(w, input) && id in w.hist.published && Stored(w.hist, id)
    requires id in Tick(w, input).hist.published
    ensures var w', p := Tick(w, input), w.hist.published[id];
            var waiting := (Audience(p) - ReceiversOf(w, id)) * Connected(w');
            var served := ReceiversOf(w', id) - ReceiversOf(w, id);
            served <= waiting && |served| == Min(RefOf(Msgs(w.hist.forum, p.topic), id), |waiting|)
  {
    var w', p := Tick(w, input), w.hist.published[id];
    TickEffects(w, input, id);
    TickAtRest(w, input);
    assert PendingLawAt(w'.hist, id) && Conserved(w'.hist, id) && Conserved(w.hist, id);
    AscendingRefs(Msgs(w'.hist.forum, p.topic), 0, w'.hist.forum.lastId, id);
    if Stored(w'.hist, id) {
      NeverStranded(w', id);
    }
    Served(Audience(p), ReceiversOf(w, id), ReceiversOf(w', id), Connected(w'), Stored(w'.hist, id),
           RefOf(Msgs(w.hist.forum, p.topic), id), RefOf(Msgs(w'.hist.forum, p.topic), id));
  }

  lemma Served(audience: set<Text>, before: set<Text>, after: set<Text>, online: set<Text>, stored: bool, due: int, left: int)
    requires before <= after <= audience && after - before <= online
    requires left >= 0 && due + |before| == left + |after| && (left == 0 <==> !stored)
    requires stored ==> (audience - after) !! online
    ensures after - before <= (audience - before) * online
    ensures |after - before| == Min(due, |(audience - before) * online|)
  {
    var served, waiting := after - before, (audience - before) * online;
    assert after == before + served && |after| == |before| + |served|;
    assert served <= waiting;
    SetSize(served, waiting);
    if stored {
      forall c | c in waiting
        ensures c in served
      {
        assert c in after || c in audience - after;
      }
      assert waiting == served;
    }
  }

  // ---- Names ----

  predicate Named(c: Text) {
    0 < |c| < 0x1_0000
  }

  /** Client ids come off the wire with a 16-bit length, and only announced clients subscribe. */
  ghost predicate NamesOk(w: World) {
    && (forall s :: s in w.sessions ==> |s.clientId| < 0x1_0000)
    && (forall t, c :: c in Subs(w.hist.forum, t) ==> Named(c))
    && (forall id, c :: id in w.hist.published && c in Audience(w.hist.published[id]) ==> Named(c))
  }

  lemma TextNamed(bs: seq<byte>)
    ensures |GetText(bs).text| < 0x1_0000
  {
    PowersOf256();
    if |bs| >= 2 {
      FromBigEndianBound(bs[..2]);
    }
  }

  lemma KickNames(w: World, i: nat)
    requires NamesOk(w) && i < |w.sessions|
    ensures NamesOk(Kick(w, i))
  {
    var w' := Kick(w, i);
    forall s | s in w'.sessions
      ensures s in w.sessions
    {
    }
    assert forall t :: Subs(w'.hist.forum, t) == Subs(w.hist.forum, t);
  }

  lemma AnnounceNames(w: World, i: nat, clientId: Text)
    requires NamesOk(w) && i < |w.sessions| && |clientId| < 0x1_0000
    ensures NamesOk(HandleAnnounce(w, i, clientId))
  {
    KickNames(w, i);
    var w' := HandleAnnounce(w, i, clientId);
    if clientId != [] && FindId(w.sessions, clientId) == |w.sessions| && w.sessions[i].clientId == [] {
      assert forall t :: Subs(w'.hist.forum, t) == Subs(w.hist.forum, t);
      forall s | s in w'.sessions
        ensures |s.clientId| < 0x1_0000
      {
        var j :| 0 <= j < |w'.sessions| && w'.sessions[j] == s;
        assert w.sessions[j] in w.sessions;
      }
    }
  }

  lemma CallNames(w: World, call: Call)
    requires NamesOk(w)
    requires call.Unsubscribe? || (call.Subscribe? && Named(call.client))
    ensures NamesOk(OnForum(w, call))
  {
    var s := w.hist.forum;
    var s' := OnForum(w, call).hist.forum;
    forall t, c | c in Subs(s', t)
      ensures Named(c)
    {
      assert c in Subs(s, t) || (call.Subscribe? && c == call.client);
    }
  }

  lemma PacketNames(w: World, p: Queued)
    requires NamesOk(w) && |p.clientId| < 0x1_0000
    ensures NamesOk(HandlePacket(w, p))
  {
    var i := FindFd(w.sessions, p.fd);
    if i < |w.sessions| && p.payload != [] {
      var got := GetText(p.payload[1..]);
      TextNamed(p.payload[1..]);
      KickNames(w, i);
      AnnounceNames(w, i, got.text);
      if p.clientId != [] {
        if got.rest != [] {
          CallNames(w, Subscribe(p.clientId, got.text, got.rest[0] != 0));
        }
        CallNames(w, Unsubscribe(p.clientId, got.text));
      }
    }
  }

  lemma {:induction false} PacketsNames(w: World, packets: seq<Queued>)
    requires NamesOk(w) && forall p :: p in packets ==> |p.clientId| < 0x1_0000
    ensures NamesOk(HandlePackets(w, packets))
    decreases |packets|
  {
    if packets != [] {
      PacketNames(w, packets[0]);
      PacketsNames(HandlePacket(w, packets[0]), packets[1..]);
    }
  }

  lemma {:induction false} ProcessNames(sessions: seq<Session>, queues: map<int, PacketQueue>, h: History)
    requires NamesOk(World(sessions, h))
    ensures var r := Process(sessions, queues, h);
            NamesOk(World(r.kept, r.hist)) && forall p :: p in r.packets ==> |p.clientId| < 0x1_0000
  {
    var r := Process(sessions, queues, h);
    ProcessOrigins(sessions, queues, h);
    ProcessForum(sessions, queues, h);
    forall p | p in r.packets
      ensures |p.clientId| < 0x1_0000
    {
      assert StampedFrom(p, sessions);
    }
    assert forall t :: Subs(r.hist.forum, t) == Subs(h.forum, t);
  }

  lemma {:induction false} ProcessForum(sessions: seq<Session>, queues: map<int, PacketQueue>, h: History)
    ensures var h' := Process(sessions, queues, h).hist; h'.published == h.published && h'.forum.subs == h.forum.subs
    decreases |sessions|
  {
    if sessions != [] {
      ProcessForum(sessions[1..], queues, Disconnect(h, sessions[0]));
      ProcessForum(sessions[1..], queues, h);
    }
  }

  lemma {:induction false} PublishAllNames(w: World, posts: seq<Datagram>)
    requires NamesOk(w)
    ensures NamesOk(World(w.sessions, PublishAll(w.hist, posts)))
    decreases |posts|
  {
    if posts != [] {
      var h' := Publish(w.hist, posts[0]);
      assert forall t :: Subs(h'.forum, t) == Subs(w.hist.forum, t);
      PublishAllNames(World(w.sessions, h'), posts[1..]);
    }
  }

  lemma {:induction false} DeliverNames(h: History, sessions: seq<Session>)
    ensures var h' := Deliver(h, sessions); h'.published == h.published && h'.forum.subs == h.forum.subs
    decreases |sessions|
  {
    if sessions != [] {
      var c := sessions[0].clientId;
      DeliverNames(if c == [] then h else Apply(h, GetUserMessages(c)), sessions[1..]);
    }
  }

  lemma TickNames(w: World, input: Input)
    requires NamesOk(w)
    ensures NamesOk(Tick(w, input))
  {
    var w1 := Accept(w, input.accepted);
    var r := Process(w1.sessions, input.queues, w1.hist);
    ProcessNames(w1.sessions, input.queues, w1.hist);
    PacketsNames(World(r.kept, r.hist), r.packets);
    var served := Serve(w, input);
    PublishAllNames(served, input.posts);
    var h := PublishAll(served.hist, input.posts);
    DeliverNames(h, served.sessions);
    assert forall t :: Subs(Deliver(h, served.sessions).forum, t) == Subs(h.forum, t);
  }
}
