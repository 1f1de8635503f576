/** Which posts get an id, in which order, with what content, and whom they count: told from the bytes
    received, the subscriptions and the live connections. */
module Publications {
  import opened Bytes
  import opened Messages
  import opened ForumState
  import opened ServerTick
  import opened ServerLaws
  import opened TickLaws
  import opened DeliveryLaws

  /** A live connection has announced this id. */
  ghost predicate Online(sessions: seq<Session>, c: Text) {
    c != [] && exists i :: 0 <= i < |sessions| && sessions[i].clientId == c
  }

  /** A subscriber that a post to the topic counts: its flag is set, or it is online. */
  ghost predicate Counts(w: World, topic: Text, c: Text) {
    c in Subs(w.hist.forum, topic) && (Subs(w.hist.forum, topic)[c] || Online(w.sessions, c))
  }

  /** The datagram is a post that counts somebody. */
  ghost predicate Storable(w: World, d: Datagram) {
    DecodePost(d.bytes).Some? && exists c :: Counts(w, DecodePost(d.bytes).value.topic, c)
  }

  /** The ones that get an id, in order of arrival. */
  ghost function Storing(w: World, posts: seq<Datagram>): seq<Datagram> {
    if posts == [] then []
    else (if Storable(w, posts[0]) then [posts[0]] else []) + Storing(w, posts[1..])
  }

  /** The publication is the post of this datagram. */
  predicate From(d: Datagram, p: Publication) {
    DecodePost(d.bytes) == Some(PostData(p.topic, p.kind, p.text)) && p.source == Source(d.ip, d.port)
  }

  /** Its subscribers: those counted, and the others skipped. */
  ghost predicate Audits(p: Publication, w: World) {
    forall c ::
      && (c in p.counted <==> Counts(w, p.topic, c))
      && (c in p.skipped <==> c in Subs(w.hist.forum, p.topic) && !Counts(w, p.topic, c))
  }

  ghost predicate PublishedAs(h: History, id: nat, d: Datagram, w: World) {
    id in h.published && From(d, h.published[id]) && Audits(h.published[id], w)
  }

  /** Subscriptions and online clients are the same. */
  ghost predicate SameAudience(w: World, w': World) {
    w'.sessions == w.sessions && forall t :: Subs(w'.hist.forum, t) == Subs(w.hist.forum, t)
  }

  /** From one history to the next, exactly these datagrams have been published, under the next ids. */
  ghost predicate Publishes(h: History, h': History, ds: seq<Datagram>, w: World) {
    var last := h.forum.lastId;
    && h'.forum.lastId == last + |ds|
    && (forall id :: id in h.published ==> id in h'.published && h'.published[id] == h.published[id])
    && (forall k :: 0 <= k < |ds| ==> PublishedAs(h', last + 1 + k, ds[k], w))
    && (forall id :: id in h'.published ==> id in h.published || last < id <= last + |ds|)
  }

  lemma OnlineIds(sessions: seq<Session>, c: Text)
    ensures Online(sessions, c) <==> c in Ids(sessions)
  {
  }

  lemma CountsAre(w: World, topic: Text)
    requires SessionsAgree(w.sessions, w.hist.forum.connected)
    ensures forall c :: Counts(w, topic, c) <==> c in Counted(w.hist.forum, topic)
  {
    forall c
      ensures Online(w.sessions, c) <==> c in w.hist.forum.connected
    {
      OnlineIds(w.sessions, c);
    }
  }

  lemma PublishIs(w: World, d: Datagram)
    requires SessionsAgree(w.sessions, w.hist.forum.connected)
    requires w.hist.forum.lastId + 1 !in w.hist.published
    ensures Publishes(w.hist, Publish(w.hist, d), if Storable(w, d) then [d] else [], w)
    ensures SameAudience(w, World(w.sessions, Publish(w.hist, d)))
    ensures Publish(w.hist, d).forum.connected == w.hist.forum.connected
  {
    var post := DecodePost(d.bytes);
    if post.Some? {
      var topic, h' := post.value.topic, Publish(w.hist, d);
      CountsAre(w, topic);
      if Storable(w, d) {
        assert PublishedAs(h', w.hist.forum.lastId + 1, d, w);
      }
    }
  }

  lemma SameStorable(w: World, w': World, d: Datagram)
    requires SameAudience(w, w')
    ensures Storable(w', d) <==> Storable(w, d)
  {
    if DecodePost(d.bytes).Some? {
      forall c
        ensures Counts(w', DecodePost(d.bytes).value.topic, c) <==> Counts(w, DecodePost(d.bytes).value.topic, c)
      {
      }
    }
  }

  lemma {:induction false} SameStoring(w: World, w': World, posts: seq<Datagram>)
    requires SameAudience(w, w')
    ensures Storing(w', posts) == Storing(w, posts)
  {
    if posts != [] {
      SameStorable(w, w', posts[0]);
      SameStoring(w, w', posts[1..]);
    }
  }

  lemma SamePublishes(h: History, h': History, ds: seq<Datagram>, w: World, w': World)
    requires Publishes(h, h', ds, w') && SameAudience(w, w')
    ensures Publishes(h, h', ds, w)
  {
    forall k | 0 <= k < |ds|
      ensures PublishedAs(h', h.forum.lastId + 1 + k, ds[k], w)
    {
      assert PublishedAs(h', h.forum.lastId + 1 + k, ds[k], w');
      SameAudits(h'.published[h.forum.lastId + 1 + k], w, w');
    }
  }

  lemma SameAudits(p: Publication, w: World, w': World)
    requires SameAudience(w, w') && Audits(p, w')
    ensures Audits(p, w)
  {
    forall c
      ensures c in p.counted <==> Counts(w, p.topic, c)
      ensures c in p.skipped <==> c in Subs(w.hist.forum, p.topic) && !Counts(w, p.topic, c)
    {
      assert Counts(w', p.topic, c) <==> Counts(w, p.topic, c);
    }
  }

  lemma PublishesThen(h: History, h1: History, h2: History, ds: seq<Datagram>, es: seq<Datagram>, w: World)
    requires Publishes(h, h1, ds, w) && Publishes(h1, h2, es, w)
    ensures Publishes(h, h2, ds + es, w)
  {
    var last := h.forum.lastId;
    forall k | 0 <= k < |ds + es|
      ensures PublishedAs(h2, last + 1 + k, (ds + es)[k], w)
    {
      if k < |ds| {
        assert PublishedAs(h1, last + 1 + k, ds[k], w);
      } else {
        assert PublishedAs(h2, h1.forum.lastId + 1 + (k - |ds|), es[k - |ds|], w);
      }
    }
  }

  lemma {:induction false} PublishAllIs(w: World, posts: seq<Datagram>)
    requires SessionsAgree(w.sessions, w.hist.forum.connected)
    requires forall id :: id in w.hist.published ==> id <= w.hist.forum.lastId
    ensures Publishes(w.hist, PublishAll(w.hist, posts), Storing(w, posts), w)
    ensures SameAudience(w, World(w.sessions, PublishAll(w.hist, posts)))
    decreases |posts|
  {
    if posts != [] {
      var h1, first := Publish(w.hist, posts[0]), if Storable(w, posts[0]) then [posts[0]] else [];
      var w1 := World(w.sessions, h1);
      PublishIs(w, posts[0]);
      PublishAllIs(w1, posts[1..]);
      SameStoring(w, w1, posts[1..]);
      SamePublishes(h1, PublishAll(h1, posts[1..]), Storing(w, posts[1..]), w, w1);
      PublishesThen(w.hist, h1, PublishAll(h1, posts[1..]), first, Storing(w, posts[1..]), w);
    }
  }

  /** In a tick: one id for each datagram that counts somebody, in order of arrival, with its content; the
      subscribers that its publication counts are those with their flag set and those online at the end of
      the tick, and the others are skipped. */
  lemma TickPublishes(w: World, input: Input)
    requires AtRest(w) && Fits(w, input)
    ensures var w' := Tick(w, input); Publishes(w.hist, w'.hist, Storing(w', input.posts), w')
  {
    var served, w' := Serve(w, input), Tick(w, input);
    var h := PublishAll(served.hist, input.posts);
    ServeSound(w, input);
    TickStages(w, input);
    PublishAllIs(served, input.posts);
    DeliverNames(h, served.sessions);
    Settled(served, h, w');
    SameStoring(served, w', input.posts);
    SamePublishes(served.hist, h, Storing(served, input.posts), w', served);
    Around(w.hist, served.hist, h, w'.hist, Storing(w', input.posts), w');
  }

  lemma Settled(served: World, h: History, w': World)
    requires SameAudience(served, World(served.sessions, h)) && w'.sessions == served.sessions
    requires w'.hist.forum.subs == h.forum.subs
    ensures SameAudience(served, w') && SameAudience(w', served)
  {
    forall t
      ensures Subs(w'.hist.forum, t) == Subs(served.hist.forum, t)
    {
      assert Subs(World(served.sessions, h).hist.forum, t) == Subs(served.hist.forum, t);
    }
  }

  lemma Around(h: History, h0: History, h1: History, h': History, ds: seq<Datagram>, w: World)
    requires Publishes(h0, h1, ds, w)
    requires h0.published == h.published && h0.forum.lastId == h.forum.lastId
    requires h'.published == h1.published && h'.forum.lastId == h1.forum.lastId
    ensures Publishes(h, h', ds, w)
  {
    forall k | 0 <= k < |ds|
      ensures PublishedAs(h', h.forum.lastId + 1 + k, ds[k], w)
    {
      assert PublishedAs(h1, h0.forum.lastId + 1 + k, ds[k], w);
    }
  }

  /** Whatever is published in a tick is the post of one of its datagrams. */
  lemma NewlyPublished(w: World, input: Input, id: nat)
    requires AtRest(w) && Fits(w, input)
    requires id !in w.hist.published && id in Tick(w, input).hist.published
    ensures var w' := Tick(w, input); var p := w'.hist.published[id]; Audits(p, w') && exists c :: Counts(w', p.topic, c)
    ensures exists d :: d in input.posts && From(d, Tick(w, input).hist.published[id])
  {
    var w' := Tick(w, input);
    var ds := Storing(w', input.posts);
    TickPublishes(w, input);
    var k := id - w.hist.forum.lastId - 1;
    assert PublishedAs(w'.hist, w.hist.forum.lastId + 1 + k, ds[k], w');
    StoringAre(w', input.posts, k);
  }

  lemma {:induction false} StoringAre(w: World, posts: seq<Datagram>, k: nat)
    requires k < |Storing(w, posts)|
    ensures Storing(w, posts)[k] in posts && Storable(w, Storing(w, posts)[k])
  {
    var n := if Storable(w, posts[0]) then 1 else 0;
    if k >= n {
      StoringAre(w, posts[1..], k - n);
    }
  }

  // ---- Over runs ----

  /** A stored datagram, and the state at the end of the tick it came in. */
  datatype Entry = Entry(post: Datagram, at: World)

  ghost function EntriesOf(ds: seq<Datagram>, w: World): seq<Entry> {
    seq(|ds|, k requires 0 <= k < |ds| => Entry(ds[k], w))
  }

  /** Everything a run stores, in order. */
  ghost function Entries(w: World, inputs: seq<Input>): seq<Entry>
    decreases |inputs|
  {
    if inputs == [] then []
    else
      var w1 := Tick(w, inputs[0]);
      EntriesOf(Storing(w1, inputs[0].posts), w1) + Entries(w1, inputs[1..])
  }

  /** From one history to the next, exactly these entries have been published, under the next ids. */
  ghost predicate Records(h: History, h': History, es: seq<Entry>) {
    var last := h.forum.lastId;
    && h'.forum.lastId == last + |es|
    && (forall id :: id in h.published ==> id in h'.published && h'.published[id] == h.published[id])
    && (forall k :: 0 <= k < |es| ==> PublishedAs(h', last + 1 + k, es[k].post, es[k].at))
    && (forall id :: id in h'.published ==> id in h.published || last < id <= last + |es|)
  }

  /** In every run, the ids given are the places of the stored posts in their order of arrival. */
  lemma {:induction false} RunPublishes(w: World, inputs: seq<Input>)
    requires AtRest(w) && FitsAll(w, inputs)
    ensures Records(w.hist, Run(w, inputs).hist, Entries(w, inputs))
    decreases |inputs|
  {
    if inputs != [] {
      var w1 := Tick(w, inputs[0]);
      var ds := Storing(w1, inputs[0].posts);
      TickPublishes(w, inputs[0]);
      TickAtRest(w, inputs[0]);
      RunPublishes(w1, inputs[1..]);
      RecordsThen(w.hist, w1, Run(w, inputs).hist, ds, Entries(w1, inputs[1..]));
    }
  }

  lemma RecordsThen(h: History, w1: World, h': History, ds: seq<Datagram>, es: seq<Entry>)
    requires Publishes(h, w1.hist, ds, w1) && Records(w1.hist, h', es)
    ensures Records(h, h', EntriesOf(ds, w1) + es)
  {
    var last, all := h.forum.lastId, EntriesOf(ds, w1) + es;
    forall k | 0 <= k < |all|
      ensures PublishedAs(h', last + 1 + k, all[k].post, all[k].at)
    {
      if k < |ds| {
        assert PublishedAs(w1.hist, last + 1 + k, ds[k], w1);
      } else {
        assert PublishedAs(h', w1.hist.forum.lastId + 1 + (k - |ds|), es[k - |ds|].post, es[k - |ds|].at);
      }
    }
  }
}
