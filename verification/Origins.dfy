/** Where messages come from: in every run of the server, whatever a subscriber is shown is a post that
    was accepted in that run, with its own topic, type, text, address and port. */
module Origins {
  import opened Bytes
  import opened Framing
  import opened Connection
  import opened Messages
  import opened Client
  import opened ForumState
  import opened ForumLaws
  import opened Forums
  import opened ServerTick
  import opened ServerLaws
  import opened TickLaws
  import opened DeliveryLaws
  import opened Publications
  import opened Promise
  import opened Outbox

  ghost predicate Traced(posts: set<Datagram>, p: Publication) {
    exists d :: d in posts && From(d, p)
  }

  /** The message has the content of the publication with its id. */
  predicate IsPublished(published: map<nat, Publication>, topic: Text, m: Message) {
    m.id in published &&
    var p := published[m.id];
    p.topic == topic && p.text == m.text && p.kind == m.kind && p.source == m.source
  }

  predicate AllPublished(published: map<nat, Publication>, topic: Text, ms: seq<Message>) {
    forall m :: m in ms ==> IsPublished(published, topic, m)
  }

  /** Everything stored, and everything ever handed out, is the publication with its id, and every
      publication is one of these posts. */
  ghost predicate Genuine(h: History, posts: set<Datagram>) {
    && (forall t :: AllPublished(h.published, t, Msgs(h.forum, t)))
    && (forall b, t :: b in h.log && t in b.lists ==> AllPublished(h.published, t, b.lists[t]))
    && (forall id :: id in h.published ==> Traced(posts, h.published[id]))
  }

  lemma {:induction false} HandedPublished(published: map<nat, Publication>, topic: Text, ms: seq<Message>, last: nat)
    requires AllPublished(published, topic, ms)
    ensures AllPublished(published, topic, Handed(ms, last)) && AllPublished(published, topic, Kept(ms, last))
  {
    if ms != [] {
      assert ms[0] in ms && IsPublished(published, topic, ms[0]);
      HandedPublished(published, topic, ms[1..], last);
    }
  }

  lemma HandOutGenuine(h: History, c: Text, posts: set<Datagram>)
    requires Genuine(h, posts)
    ensures Genuine(Apply(h, GetUserMessages(c)), posts)
  {
    var h', last := Apply(h, GetUserMessages(c)), UserOf(h.forum, c).lastMsgId;
    forall t
      ensures AllPublished(h.published, t, Msgs(h'.forum, t))
    {
      HandedPublished(h.published, t, Msgs(h.forum, t), last);
    }
    forall b, t | b in h'.log && t in b.lists
      ensures AllPublished(h.published, t, b.lists[t])
    {
      if b !in h.log {
        HandedPublished(h.published, t, Msgs(h.forum, t), last);
      }
    }
  }

  lemma MorePublished(published: map<nat, Publication>, more: map<nat, Publication>, topic: Text, ms: seq<Message>)
    requires AllPublished(published, topic, ms)
    requires forall id :: id in published ==> id in more && more[id] == published[id]
    ensures AllPublished(more, topic, ms)
  {
    forall m | m in ms
      ensures IsPublished(more, topic, m)
    {
      assert IsPublished(published, topic, m);
    }
  }

  lemma PublishGenuine(h: History, d: Datagram, posts: set<Datagram>)
    requires Lawful(h) && Genuine(h, posts) && d in posts
    ensures Genuine(Publish(h, d), posts)
  {
    var post := DecodePost(d.bytes);
    if post.Some? && Counted(h.forum, post.value.topic) != {} {
      var h' := Publish(h, d);
      var id := h.forum.lastId + 1;
      assert id !in h.published;
      assert From(d, h'.published[id]);
      forall x
        ensures AllPublished(h'.published, x, Msgs(h'.forum, x))
      {
        MorePublished(h.published, h'.published, x, Msgs(h.forum, x));
      }
      forall b, t | b in h'.log && t in b.lists
        ensures AllPublished(h'.published, t, b.lists[t])
      {
        MorePublished(h.published, h'.published, t, b.lists[t]);
      }
    } else {
      assert forall t :: Msgs(Publish(h, d).forum, t) == Msgs(h.forum, t);
    }
  }

  lemma {:induction false} PublishAllGenuine(w: World, ds: seq<Datagram>, posts: set<Datagram>)
    requires Sound(w) && Genuine(w.hist, posts) && forall d :: d in ds ==> d in posts
    ensures Genuine(PublishAll(w.hist, ds), posts)
    decreases |ds|
  {
    if ds != [] {
      PublishSound(w, ds[0]);
      PublishGenuine(w.hist, ds[0], posts);
      PublishAllGenuine(World(w.sessions, Publish(w.hist, ds[0])), ds[1..], posts);
    }
  }

  lemma {:induction false} DeliverGenuine(h: History, sessions: seq<Session>, posts: set<Datagram>)
    requires Genuine(h, posts)
    ensures Genuine(Deliver(h, sessions), posts)
    decreases |sessions|
  {
    if sessions != [] {
      var c := sessions[0].clientId;
      HandOutGenuine(h, c, posts);
      DeliverGenuine(if c == [] then h else Apply(h, GetUserMessages(c)), sessions[1..], posts);
    }
  }

  lemma SameStoreGenuine(h: History, h': History, posts: set<Datagram>)
    requires Genuine(h, posts) && SameStore(h, h')
    ensures Genuine(h', posts)
  {
    assert forall t :: Msgs(h'.forum, t) == Msgs(h.forum, t);
  }

  lemma TickGenuine(w: World, input: Input, posts: set<Datagram>)
    requires AtRest(w) && Fits(w, input) && Genuine(w.hist, posts) && forall d :: d in input.posts ==> d in posts
    ensures Genuine(Tick(w, input).hist, posts)
  {
    var served := Serve(w, input);
    ServeSound(w, input);
    SameStoreGenuine(w.hist, served.hist, posts);
    PublishAllGenuine(served, input.posts, posts);
    DeliverGenuine(PublishAll(served.hist, input.posts), served.sessions, posts);
  }

  /** Every datagram of a run. */
  function PostsOf(inputs: seq<Input>): set<Datagram> {
    set i, j | 0 <= i < |inputs| && 0 <= j < |inputs[i].posts| :: inputs[i].posts[j]
  }

  lemma {:induction false} RunGenuine(w: World, inputs: seq<Input>, posts: set<Datagram>)
    requires AtRest(w) && FitsAll(w, inputs) && Genuine(w.hist, posts) && PostsOf(inputs) <= posts
    ensures Genuine(Run(w, inputs).hist, posts)
    decreases |inputs|
  {
    if inputs != [] {
      forall d | d in inputs[0].posts
        ensures d in posts
      {
        assert d in PostsOf(inputs);
      }
      TickAtRest(w, inputs[0]);
      TickGenuine(w, inputs[0], posts);
      assert PostsOf(inputs[1..]) <= PostsOf(inputs);
      RunGenuine(Tick(w, inputs[0]), inputs[1..], posts);
    }
  }

  /** The socket layer gives 32-bit addresses and 16-bit ports. */
  predicate Addressed(posts: set<Datagram>) {
    forall d :: d in posts ==> d.ip < 0x1_0000_0000 && d.port < 0x1_0000
  }

  /** The posts behind one list of messages. */
  lemma {:induction false} ListPosts(h: History, posts: set<Datagram>, topic: Text, ms: seq<Message>)
    returns (ds: seq<Datagram>)
    requires Addressed(posts) && Genuine(h, posts) && AllPublished(h.published, topic, ms)
    ensures forall d :: d in ds ==> d in posts && Accepted(d)
    ensures Encoded(ds) == ListBytes(topic, ms)
  {
    ds := [];
    if ms != [] {
      var m := ms[0];
      assert IsPublished(h.published, topic, m) && Traced(posts, h.published[m.id]);
      var d :| d in posts && From(d, h.published[m.id]);
      assert forall x :: x in ms[1..] ==> x in ms;
      var rest := ListPosts(h, posts, topic, ms[1..]);
      OnePost(d, topic, m);
      EncodedAppend([d], rest);
      assert ListBytes(topic, ms) == [MessageBytes(topic, m)] + ListBytes(topic, ms[1..]);
      ds := [d] + rest;
    }
  }

  lemma OnePost(d: Datagram, topic: Text, m: Message)
    requires Accepted(d) && DecodePost(d.bytes) == Some(PostData(topic, m.kind, m.text)) && m.source == Source(d.ip, d.port)
    ensures Encoded([d]) == [MessageBytes(topic, m)]
  {
  }

  lemma EncodedAppend(ds: seq<Datagram>, more: seq<Datagram>)
    requires (forall d :: d in ds ==> Accepted(d)) && forall d :: d in more ==> Accepted(d)
    ensures Encoded(ds + more) == Encoded(ds) + Encoded(more)
  {
  }

  lemma {:induction false} BatchPosts(h: History, posts: set<Datagram>, lists: seq<(Text, seq<Message>)>)
    returns (ds: seq<Datagram>)
    requires Addressed(posts) && Genuine(h, posts)
    requires forall k :: 0 <= k < |lists| ==> AllPublished(h.published, lists[k].0, lists[k].1)
    ensures forall d :: d in ds ==> d in posts && Accepted(d)
    ensures Encoded(ds) == AllBytes(lists)
    decreases |lists|
  {
    ds := [];
    if lists != [] {
      var init, last := lists[..|lists| - 1], lists[|lists| - 1];
      var front := BatchPosts(h, posts, init);
      var back := ListPosts(h, posts, last.0, last.1);
      EncodedAppend(front, back);
      ds := front + back;
    }
  }

  /** The results of some hand-outs of a run, each with the batch logged for it. */
  ghost predicate HandOuts(outbox: seq<Outgoing>, batches: seq<Batch>, log: seq<Batch>) {
    |outbox| == |batches| &&
    forall k :: 0 <= k < |outbox| ==> batches[k] in log && Lists(outbox[k].lists, batches[k].lists)
  }

  /** What one tick sends are hand-outs of its log, and they stay hand-outs of every later one. */
  lemma SentIsHandedOut(outbox: seq<Outgoing>, clients: seq<TCPClient>, w: World, inputs: seq<Input>)
    requires AtRest(w) && FitsAll(w, inputs) && Sent(outbox, w.hist.log, clients)
    ensures HandOuts(outbox, w.hist.log[|w.hist.log| - |outbox|..], Run(w, inputs).hist.log)
  {
    LogGrows(w, inputs);
    var batches := w.hist.log[|w.hist.log| - |outbox|..];
    forall k | 0 <= k < |outbox|
      ensures batches[k] in Run(w, inputs).hist.log && Lists(outbox[k].lists, batches[k].lists)
    {
      assert Carries(outbox[k], batches[k], clients);
      assert batches[k] in w.hist.log;
    }
  }

  lemma {:induction false} LogGrows(w: World, inputs: seq<Input>)
    requires AtRest(w) && FitsAll(w, inputs)
    ensures forall b :: b in w.hist.log ==> b in Run(w, inputs).hist.log
    decreases |inputs|
  {
    if inputs != [] {
      TickAtRest(w, inputs[0]);
      TickStages(w, inputs[0]);
      DeliverLogs(PublishAll(Serve(w, inputs[0]).hist, inputs[0].posts), Serve(w, inputs[0]).sessions);
      LogGrows(Tick(w, inputs[0]), inputs[1..]);
    }
  }

  lemma {:induction false} DeliverLogs(h: History, sessions: seq<Session>)
    ensures forall b :: b in h.log ==> b in Deliver(h, sessions).log
    decreases |sessions|
  {
    if sessions != [] {
      var c := sessions[0].clientId;
      DeliverLogs(if c == [] then h else Apply(h, GetUserMessages(c)), sessions[1..]);
    }
  }

  lemma {:induction false} OutboxPosts(h: History, posts: set<Datagram>, outbox: seq<Outgoing>, batches: seq<Batch>,
                                       c: TCPClient)
    returns (ds: seq<Datagram>)
    requires Addressed(posts) && Genuine(h, posts) && HandOuts(outbox, batches, h.log)
    ensures forall d :: d in ds ==> d in posts && Accepted(d)
    ensures Encoded(ds) == MessagesTo(outbox, c)
    decreases |outbox|
  {
    ds := [];
    if outbox != [] {
      var n := |outbox| - 1;
      ds := OutboxPosts(h, posts, outbox[..n], batches[..n], c);
      if outbox[n].to == c {
        var lists, b := outbox[n].lists, batches[n];
        forall k | 0 <= k < |lists|
          ensures AllPublished(h.published, lists[k].0, lists[k].1)
        {
          assert lists[k].0 in b.lists;
        }
        var back := BatchPosts(h, posts, lists);
        EncodedAppend(ds, back);
        ds := ds + back;
      }
    }
  }

  /** From post to screen, over whole runs: all that is sent on one connection for any hand-outs of a
      reached state, cut anywhere, is put together by the client and shown as accepted posts of that run,
      line by line the messages handed out. */
  lemma ShownWasPosted(w: World, inputs: seq<Input>, outbox: seq<Outgoing>, batches: seq<Batch>, c: TCPClient,
                       server: Peer, chunks: seq<seq<byte>>)
    returns (ds: seq<Datagram>)
    requires Reached(w, inputs) && Addressed(PostsOf(inputs)) && HandOuts(outbox, batches, w.hist.log)
    requires Concat(chunks) == Wire(MessagesTo(outbox, c))
    ensures forall d :: d in ds ==> d in PostsOf(inputs) && Accepted(d)
    ensures Encoded(ds) == MessagesTo(outbox, c) && Feed([], chunks).rest == []
    ensures ShowAll(Packets(server, Feed([], chunks).msgs)) == Showing(Lines(ds), true)
  {
    RunGenuine(BOOT, inputs, PostsOf(inputs));
    ds := OutboxPosts(w.hist, PostsOf(inputs), outbox, batches, c);
    StreamShowsPosts(server, ds, chunks);
  }
}
