/** The README's promise, that a message is erased once it was sent to everyone who was subscribed when it
    arrived: exactly when the code keeps it, read for all subscribers and for those that were counted. */
module Promise {
  import opened Bytes
  import opened Messages
  import opened ForumState
  import opened ForumLists
  import opened ForumLaws
  import opened ServerTick
  import opened ServerLaws
  import opened TickLaws
  import opened DeliveryLaws
  import opened Publications

  /** `inputs` lead from the start to `w`. */
  ghost predicate Reached(w: World, inputs: seq<Input>) {
    FitsAll(BOOT, inputs) && Run(BOOT, inputs) == w
  }

  lemma {:induction false} RunNames(w: World, inputs: seq<Input>)
    requires NamesOk(w)
    ensures NamesOk(Run(w, inputs))
    decreases |inputs|
  {
    if inputs != [] {
      TickNames(w, inputs[0]);
      RunNames(Tick(w, inputs[0]), inputs[1..]);
    }
  }

  lemma ReachedInvariants(w: World, inputs: seq<Input>)
    requires Reached(w, inputs)
    ensures AtRest(w) && NamesOk(w)
  {
    RunAtRest(BOOT, inputs);
    RunNames(BOOT, inputs);
  }

  /** Publications are never forgotten, and an erased message stays erased with the same receivers. */
  lemma {:induction false} RunKeeps(w: World, inputs: seq<Input>, id: nat)
    requires AtRest(w) && FitsAll(w, inputs) && id in w.hist.published
    ensures var w' := Run(w, inputs);
            && AtRest(w') && id in w'.hist.published && w'.hist.published[id] == w.hist.published[id]
            && (!Stored(w.hist, id) ==> ReceiversOf(w', id) == ReceiversOf(w, id))
    decreases |inputs|
  {
    if inputs != [] {
      var w1 := Tick(w, inputs[0]);
      TickAtRest(w, inputs[0]);
      TickKeepsPublished(w, inputs[0], id);
      TickEffects(w, inputs[0], id);
      RunKeeps(w1, inputs[1..], id);
    }
  }

  lemma TickKeepsPublished(w: World, input: Input, id: nat)
    requires AtRest(w) && Fits(w, input) && id in w.hist.published
    ensures id in Tick(w, input).hist.published
  {
    TickStages(w, input);
  }

  /** Whatever happens from here on, an erased message has been sent to everyone subscribed at its post. */
  ghost predicate ErasedServedAll(w: World, id: nat)
    requires id in w.hist.published
  {
    forall inputs :: FitsAll(w, inputs) && Erased(Run(w, inputs), id) ==>
      Audience(w.hist.published[id]) <= ReceiversOf(Run(w, inputs), id)
  }

  /** The same for those counted at its post. */
  ghost predicate ErasedServedCounted(w: World, id: nat)
    requires id in w.hist.published
  {
    forall inputs :: FitsAll(w, inputs) && Erased(Run(w, inputs), id) ==>
      w.hist.published[id].counted <= ReceiversOf(Run(w, inputs), id)
  }

  ghost predicate Erased(w: World, id: nat) {
    id in w.hist.published && !Stored(w.hist, id)
  }

  /** Whatever happens from here on, only counted clients are handed the message. */
  ghost predicate OnlyCounted(w: World, id: nat)
    requires id in w.hist.published
  {
    forall inputs :: FitsAll(w, inputs) ==> ReceiversOf(Run(w, inputs), id) <= w.hist.published[id].counted
  }

  /** At the end of the tick of the post exactly the online counted have it; it is kept iff some are
      offline. Counted are the subscribers of the topic with their flag set and those online, and skipped
      are the others. */
  lemma AfterPost(w: World, input: Input, id: nat)
    requires AtRest(w) && Fits(w, input)
    requires id !in w.hist.published && id in Tick(w, input).hist.published
    ensures var w', p := Tick(w, input), Tick(w, input).hist.published[id];
            && ReceiversOf(w', id) == p.counted * Connected(w')
            && (Stored(w'.hist, id) <==> !(p.counted <= Connected(w')))
            && p.skipped !! Connected(w')
            && forall c ::
                 && (c in p.counted <==> Counts(w', p.topic, c))
                 && (c in p.skipped <==> c in Subs(w'.hist.forum, p.topic) && !Counts(w', p.topic, c))
  {
    TickAtRest(w, input);
    TickEffects(w, input, id);
    NewlyPublished(w, input, id);
    FirstReceivers(Tick(w, input), id);
  }

  lemma FirstReceivers(w: World, id: nat)
    requires AtRest(w) && id in w.hist.published
    requires ReceiversOf(w, id) <= Connected(w) && w.hist.published[id].skipped !! Connected(w)
    ensures ReceiversOf(w, id) == w.hist.published[id].counted * Connected(w)
    ensures Stored(w.hist, id) <==> !(w.hist.published[id].counted <= Connected(w))
  {
    var p, r := w.hist.published[id], ReceiversOf(w, id);
    assert PendingLawAt(w.hist, id);
    Spent(w, id);
    OnlineCounted(p.counted, p.skipped, r, Connected(w));
    if Stored(w.hist, id) {
      NeverStranded(w, id);
      AllOnline(p.counted, p.skipped, r, Connected(w), Pending(w.hist.forum, p.topic, id));
    }
    CountDecides(p.counted, r, Connected(w), Stored(w.hist, id));
  }

  lemma CountDecides(counted: set<Text>, receivers: set<Text>, online: set<Text>, stored: bool)
    requires receivers <= counted * online && (stored ==> counted * online <= receivers)
    requires !stored <==> |receivers| == |counted|
    ensures receivers == counted * online && (stored <==> !(counted <= online))
  {
    SetSize(receivers, counted);
    if counted <= online {
      assert counted * online == counted;
    }
  }

  lemma OnlineCounted(counted: set<Text>, skipped: set<Text>, receivers: set<Text>, online: set<Text>)
    requires receivers <= counted + skipped && receivers <= online && skipped !! online
    ensures receivers <= counted * online
  {
  }

  lemma AllOnline(counted: set<Text>, skipped: set<Text>, receivers: set<Text>, online: set<Text>, waiting: set<Text>)
    requires waiting == counted + skipped - receivers && waiting !! online
    ensures counted * online <= receivers
  {
    forall c | c in counted * online
      ensures c in receivers
    {
      assert c in waiting || c in receivers;
    }
  }

  // ---- How an offline subscriber that was skipped overtakes ----

  function Fresher(sessions: seq<Session>): (fd: int)
    ensures forall i :: 0 <= i < |sessions| ==> sessions[i].fd < fd
  {
    if sessions == [] then 0
    else
      var rest := Fresher(sessions[1..]);
      if sessions[0].fd < rest then rest else sessions[0].fd + 1
  }

  function Connect(fd: int): Input {
    Input(Some(fd), map[], [])
  }

  function Rejoin(fd: int, c: Text): Input {
    Input(None, map[fd := [EncodeRequest(Announce(c))]], [])
  }

  lemma ConnectServed(w: World, fd: int)
    ensures Serve(w, Connect(fd)) == World(w.sessions + [Session(fd, [])], w.hist)
  {
    OtherQueues(w.sessions + [Session(fd, [])], map[], w.hist);
  }

  /** Only the queue of the session at `i` holds something: one packet. */
  lemma {:induction false} OneQueue(sessions: seq<Session>, i: nat, payload: seq<byte>, h: History)
    requires payload != [] && i < |sessions|
    requires forall j, k :: 0 <= j < k < |sessions| ==> sessions[j].fd != sessions[k].fd
    ensures Process(sessions, map[sessions[i].fd := [payload]], h) ==
            Intake(sessions, [Queued(sessions[i].fd, sessions[i].clientId, payload)], h)
    decreases |sessions|
  {
    var queues := map[sessions[i].fd := [payload]];
    assert sessions == [sessions[0]] + sessions[1..];
    if i == 0 {
      assert Before([payload]) == [payload];
      forall j | 0 <= j < |sessions[1..]|
        ensures sessions[1..][j].fd !in queues
      {
        assert sessions[1..][j] == sessions[j + 1] && sessions[0].fd != sessions[j + 1].fd;
      }
      OtherQueues(sessions[1..], queues, h);
    } else {
      OneQueue(sessions[1..], i - 1, payload, h);
    }
  }

  lemma {:induction false} OtherQueues(sessions: seq<Session>, queues: map<int, PacketQueue>, h: History)
    requires forall j :: 0 <= j < |sessions| ==> sessions[j].fd !in queues
    ensures Process(sessions, queues, h) == Intake(sessions, [], h)
    decreases |sessions|
  {
    if sessions != [] {
      OtherQueues(sessions[1..], queues, h);
      assert sessions == [sessions[0]] + sessions[1..];
    }
  }

  /** An announcement of an id nobody holds, from a connection that has none, is accepted. */
  lemma RejoinServed(w: World, fd: int, c: Text, sessions: seq<Session>)
    requires Sound(w) && w.sessions == sessions + [Session(fd, [])]
    requires forall i :: 0 <= i < |sessions| ==> sessions[i].fd != fd
    requires Named(c) && c !in Connected(w)
    ensures Serve(w, Rejoin(fd, c)) == World(sessions + [Session(fd, c)], Apply(w.hist, SetConnectionStatus(c, true)))
  {
    var payload := EncodeRequest(Announce(c));
    assert w.sessions[|sessions|] == Session(fd, []);
    OneQueue(w.sessions, |sessions|, payload, w.hist);
    RequestRoundTrip(Announce(c));
    var p := Queued(fd, [], payload);
    var n := |sessions|;
    assert w.sessions[n] == Session(fd, []);
    assert FindFd(w.sessions, fd) == n;
    if FindId(w.sessions, c) < |w.sessions| {
      IdsHave(w.sessions, FindId(w.sessions, c));
      assert false;
    }
    assert HandlePackets(w, [p]) == HandlePackets(HandlePacket(w, p), [p][1..]);
    assert w.sessions[n := Session(fd, c)] == sessions + [Session(fd, c)];
  }

  /** A tick without posts: what delivery may add to the receivers of one message. */
  lemma NoPostTick(w: World, input: Input, served: World, w': World, id: nat)
    requires AtRest(w) && Fits(w, input) && input.posts == [] && id in w.hist.published
    requires served == Serve(w, input) && w' == Tick(w, input)
    ensures w'.sessions == served.sessions && Connected(w') == Connected(served)
    ensures w'.hist.published == w.hist.published && served.hist.published == w.hist.published
    ensures ReceiversOf(w, id) <= ReceiversOf(w', id)
    ensures ReceiversOf(w', id) <= ReceiversOf(w, id) +
            Connected(served) * Pending(served.hist.forum, w.hist.published[id].topic, id)
  {
    TickStages(w, input);
    assert DeliveredAt(served.hist, w'.hist, Connected(w'), id);
  }

  /** Nothing is handed out in a tick that only accepts a connection. */
  lemma ConnectTick(w: World, fd: int, w': World, id: nat)
    requires AtRest(w) && id in w.hist.published && Stored(w.hist, id)
    requires Fits(w, Connect(fd)) && w' == Tick(w, Connect(fd))
    ensures AtRest(w') && w'.sessions == w.sessions + [Session(fd, [])]
    ensures w'.hist.published == w.hist.published
    ensures ReceiversOf(w', id) == ReceiversOf(w, id) && Stored(w'.hist, id)
  {
    var served := World(w.sessions + [Session(fd, [])], w.hist);
    ConnectServed(w, fd);
    TickAtRest(w, Connect(fd));
    NoPostTick(w, Connect(fd), served, w', id);
    NeverStranded(w, id);
    assert ReceiversOf(w', id) == ReceiversOf(w, id);
    SameCount(w, w', id);
  }

  /** The receivers decide whether a message is still stored. */
  lemma SameCount(w: World, w': World, id: nat)
    requires AtRest(w) && AtRest(w') && id in w.hist.published && w'.hist.published == w.hist.published
    ensures ReceiversOf(w', id) == ReceiversOf(w, id) ==> (Stored(w'.hist, id) <==> Stored(w.hist, id))
  {
    assert Conserved(w.hist, id) && Conserved(w'.hist, id);
    var t := w.hist.published[id].topic;
    AscendingRefs(Msgs(w.hist.forum, t), 0, w.hist.forum.lastId, id);
    AscendingRefs(Msgs(w'.hist.forum, t), 0, w'.hist.forum.lastId, id);
  }

  lemma OnlineHasIt(w: World, id: nat, c: Text)
    requires AtRest(w) && id in w.hist.published && Stored(w.hist, id)
    requires c in Audience(w.hist.published[id]) && c in Connected(w)
    ensures c in ReceiversOf(w, id)
  {
    NeverStranded(w, id);
    assert PendingLawAt(w.hist, id);
  }

  /** A waiting subscriber that comes back alone is handed the stored message, counted or not. */
  lemma RejoinTick(w: World, fd: int, c: Text, sessions: seq<Session>, w': World, id: nat)
    requires AtRest(w) && id in w.hist.published && Stored(w.hist, id)
    requires w.sessions == sessions + [Session(fd, [])] && w' == Tick(w, Rejoin(fd, c))
    requires forall i :: 0 <= i < |sessions| ==> sessions[i].fd != fd
    requires Named(c) && c in Pending(w.hist.forum, w.hist.published[id].topic, id)
    ensures c in ReceiversOf(w', id)
  {
    NeverStranded(w, id);
    TickAtRest(w, Rejoin(fd, c));
    RejoinServed(w, fd, c, sessions);
    RejoinHandsOut(w, Rejoin(fd, c), Serve(w, Rejoin(fd, c)), c, w', id);
    if Stored(w'.hist, id) {
      assert PendingLawAt(w.hist, id);
      OnlineHasIt(w', id, c);
    } else {
      SameCount(w, w', id);
    }
  }

  lemma RejoinHandsOut(w: World, input: Input, served: World, c: Text, w': World, id: nat)
    requires AtRest(w) && Fits(w, input) && input.posts == [] && id in w.hist.published
    requires served == Serve(w, input) && w' == Tick(w, input)
    requires served.hist == Apply(w.hist, SetConnectionStatus(c, true))
    requires Pending(w.hist.forum, w.hist.published[id].topic, id) !! Connected(w)
    ensures w'.hist.published == w.hist.published && Connected(w') == Connected(w) + {c}
    ensures ReceiversOf(w, id) <= ReceiversOf(w', id) <= ReceiversOf(w, id) + {c}
  {
    NoPostTick(w, input, served, w', id);
    var topic := w.hist.published[id].topic;
    OnlineOnly(w.hist, c, topic, id);
    OnlyOne(ReceiversOf(w, id), ReceiversOf(w', id), Connected(w), Pending(w.hist.forum, topic, id), c);
  }

  lemma OnlineOnly(h: History, c: Text, topic: Text, id: nat)
    ensures var s := Apply(h, SetConnectionStatus(c, true)).forum;
            s.connected == h.forum.connected + {c} && Pending(s, topic, id) == Pending(h.forum, topic, id)
  {
    SamePending(h.forum, Apply(h, SetConnectionStatus(c, true)).forum, topic, id);
  }

  lemma OnlyOne(before: set<Text>, after: set<Text>, online: set<Text>, waiting: set<Text>, c: Text)
    requires after <= before + (online + {c}) * waiting && waiting !! online
    ensures after <= before + {c}
  {
  }

  lemma RunTwo(w: World, first: Input, second: Input, rest: seq<Input>)
    requires Fits(w, first) && Fits(Tick(w, first), second) && FitsAll(Tick(Tick(w, first), second), rest)
    ensures FitsAll(w, [first, second] + rest) && Run(w, [first, second] + rest) == Run(Tick(Tick(w, first), second), rest)
  {
    var all, w1 := [first, second] + rest, Tick(w, first);
    assert all[1..] == [second] + rest && ([second] + rest)[1..] == rest;
    assert FitsAll(w1, [second] + rest);
    assert Run(w1, [second] + rest) == Run(Tick(w1, second), rest);
  }

  /** A client that waits for a stored message can come back alone in two ticks, and then has it. */
  lemma ComesBack(w: World, id: nat, c: Text) returns (first: Input, second: Input)
    requires AtRest(w) && NamesOk(w) && id in w.hist.published && Stored(w.hist, id)
    requires c in Audience(w.hist.published[id]) && c !in ReceiversOf(w, id)
    ensures Fits(w, first) && Fits(Tick(w, first), second)
    ensures var w' := Tick(Tick(w, first), second);
            && AtRest(w') && NamesOk(w') && w'.hist.published == w.hist.published
            && ReceiversOf(w, id) <= ReceiversOf(w', id) && c in ReceiversOf(w', id)
  {
    var fd := Fresher(w.sessions);
    first, second := Connect(fd), Rejoin(fd, c);
    var w1 := Tick(w, first);
    ConnectTick(w, fd, w1, id);
    TickNames(w, first);
    StillWaiting(w, w1, id, c);
    ComesBackNow(w1, fd, c, w.sessions, Tick(w1, second), id);
  }

  lemma ComesBackNow(w: World, fd: int, c: Text, sessions: seq<Session>, w': World, id: nat)
    requires AtRest(w) && NamesOk(w) && id in w.hist.published && Stored(w.hist, id)
    requires w.sessions == sessions + [Session(fd, [])] && w' == Tick(w, Rejoin(fd, c))
    requires forall i :: 0 <= i < |sessions| ==> sessions[i].fd != fd
    requires Named(c) && c in Pending(w.hist.forum, w.hist.published[id].topic, id)
    ensures AtRest(w') && NamesOk(w') && w'.hist.published == w.hist.published
    ensures ReceiversOf(w, id) <= ReceiversOf(w', id) && c in ReceiversOf(w', id)
  {
    TickAtRest(w, Rejoin(fd, c));
    TickNames(w, Rejoin(fd, c));
    RejoinTick(w, fd, c, sessions, w', id);
    NoPostTick(w, Rejoin(fd, c), Serve(w, Rejoin(fd, c)), w', id);
  }

  lemma StillWaiting(w: World, w1: World, id: nat, c: Text)
    requires AtRest(w) && NamesOk(w) && id in w.hist.published && AtRest(w1) && w1.hist.published == w.hist.published
    requires c in Audience(w.hist.published[id]) && c !in ReceiversOf(w, id)
    requires Stored(w1.hist, id) && ReceiversOf(w1, id) == ReceiversOf(w, id)
    ensures Named(c) && c in Pending(w1.hist.forum, w1.hist.published[id].topic, id)
  {
    assert PendingLawAt(w1.hist, id);
  }

  /** As many receivers as were counted, exactly when the message is gone. */
  lemma Spent(w: World, id: nat)
    requires AtRest(w) && id in w.hist.published
    ensures |ReceiversOf(w, id)| <= |w.hist.published[id].counted|
    ensures !Stored(w.hist, id) <==> |ReceiversOf(w, id)| == |w.hist.published[id].counted|
  {
    assert Conserved(w.hist, id);
    AscendingRefs(Msgs(w.hist.forum, w.hist.published[id].topic), 0, w.hist.forum.lastId, id);
  }

  /** Any stored message can be drained: waiting clients come back one at a time until it is erased. */
  lemma {:induction false} Drains(w: World, id: nat) returns (inputs: seq<Input>)
    requires AtRest(w) && NamesOk(w) && id in w.hist.published
    ensures FitsAll(w, inputs) && Erased(Run(w, inputs), id)
    ensures Run(w, inputs).hist.published[id] == w.hist.published[id]
    ensures ReceiversOf(w, id) <= ReceiversOf(Run(w, inputs), id)
    ensures |ReceiversOf(Run(w, inputs), id)| == |w.hist.published[id].counted|
    decreases |w.hist.published[id].counted| - |ReceiversOf(w, id)|
  {
    Spent(w, id);
    if !Stored(w.hist, id) {
      return [];
    }
    NeverStranded(w, id);
    assert PendingLawAt(w.hist, id);
    var c :| c in Pending(w.hist.forum, w.hist.published[id].topic, id);
    var first, second := ComesBack(w, id, c);
    var w' := Tick(Tick(w, first), second);
    Spent(w', id);
    SetSize(ReceiversOf(w, id), ReceiversOf(w', id));
    var rest := Drains(w', id);
    RunTwo(w, first, second, rest);
    inputs := [first, second] + rest;
  }

  /** A skipped subscriber can take a share of the count, and then the message can be drained. */
  lemma Overtakes(w: World, id: nat, c: Text) returns (inputs: seq<Input>)
    requires AtRest(w) && NamesOk(w) && id in w.hist.published && Stored(w.hist, id)
    requires c in w.hist.published[id].skipped && c !in ReceiversOf(w, id)
    ensures FitsAll(w, inputs) && Erased(Run(w, inputs), id)
    ensures c in ReceiversOf(Run(w, inputs), id)
    ensures !(w.hist.published[id].counted <= ReceiversOf(Run(w, inputs), id))
  {
    assert PendingLawAt(w.hist, id);
    var first, second := ComesBack(w, id, c);
    var w' := Tick(Tick(w, first), second);
    var rest := Drains(w', id);
    RunTwo(w, first, second, rest);
    inputs := [first, second] + rest;
    OneTooMany(w.hist.published[id].counted, ReceiversOf(Run(w, inputs), id), c);
  }

  lemma OneTooMany(counted: set<Text>, receivers: set<Text>, c: Text)
    requires |receivers| == |counted| && c in receivers && c !in counted
    ensures !(counted <= receivers)
  {
    if counted <= receivers {
      SetSize(counted, receivers);
      assert false;
    }
  }

  /** Where the tick of a post leads. */
  ghost predicate PostedIn(history: seq<Input>, w: World, input: Input, id: nat) {
    Reached(w, history) && Fits(w, input) && id !in w.hist.published && id in Tick(w, input).hist.published
  }

  lemma PostedInvariants(history: seq<Input>, w: World, input: Input, id: nat)
    requires PostedIn(history, w, input, id)
    ensures var w' := Tick(w, input); AtRest(w) && AtRest(w') && NamesOk(w')
  {
    ReachedInvariants(w, history);
    TickAtRest(w, input);
    TickNames(w, input);
  }

  /** With nobody skipped, an erased message has been handed to the whole audience. */
  lemma NobodySkipped(w: World, inputs: seq<Input>, id: nat)
    requires AtRest(w) && id in w.hist.published && w.hist.published[id].skipped == {}
    requires FitsAll(w, inputs) && Erased(Run(w, inputs), id)
    ensures Audience(w.hist.published[id]) <= ReceiversOf(Run(w, inputs), id)
  {
    RunKeeps(w, inputs, id);
    ExactlyOnce(Run(w, inputs), id);
  }

  /** The promise as written, from the tick of the post on: it holds if and only if the post skipped
      nobody. */
  lemma PromiseKept(history: seq<Input>, w: World, input: Input, id: nat)
    requires PostedIn(history, w, input, id)
    ensures var w' := Tick(w, input); ErasedServedAll(w', id) <==> w'.hist.published[id].skipped == {}
  {
    var w' := Tick(w, input);
    var p := w'.hist.published[id];
    PostedInvariants(history, w, input, id);
    if p.skipped == {} {
      forall inputs | FitsAll(w', inputs) && Erased(Run(w', inputs), id)
        ensures Audience(p) <= ReceiversOf(Run(w', inputs), id)
      {
        NobodySkipped(w', inputs, id);
      }
    } else {
      var inputs := Drains(w', id);
      assert PendingLawAt(w'.hist, id);
      assert |Audience(p)| == |p.counted| + |p.skipped|;
      if Audience(p) <= ReceiversOf(Run(w', inputs), id) {
        SetSize(Audience(p), ReceiversOf(Run(w', inputs), id));
        assert false;
      }
    }
  }

  /** Read for the counted subscribers only: it holds if and only if the post skipped nobody or found
      every counted subscriber online. */
  lemma CountedPromiseKept(history: seq<Input>, w: World, input: Input, id: nat)
    requires PostedIn(history, w, input, id)
    ensures var w' := Tick(w, input);
            var p := w'.hist.published[id];
            ErasedServedCounted(w', id) <==> p.skipped == {} || p.counted <= Connected(w')
  {
    var w' := Tick(w, input);
    var p := w'.hist.published[id];
    PostedInvariants(history, w, input, id);
    AfterPost(w, input, id);
    if p.skipped == {} || p.counted <= Connected(w') {
      forall inputs | FitsAll(w', inputs) && Erased(Run(w', inputs), id)
        ensures p.counted <= ReceiversOf(Run(w', inputs), id)
      {
        if p.skipped == {} {
          NobodySkipped(w', inputs, id);
        } else {
          RunKeeps(w', inputs, id);
        }
      }
    } else {
      var c :| c in p.skipped;
      var inputs := Overtakes(w', id, c);
    }
  }

  /** And no uncounted client is ever handed the message under the same condition. */
  lemma OnlyCountedKept(history: seq<Input>, w: World, input: Input, id: nat)
    requires PostedIn(history, w, input, id)
    ensures var w' := Tick(w, input);
            var p := w'.hist.published[id];
            OnlyCounted(w', id) <==> p.skipped == {} || p.counted <= Connected(w')
  {
    var w' := Tick(w, input);
    var p := w'.hist.published[id];
    PostedInvariants(history, w, input, id);
    AfterPost(w, input, id);
    assert PendingLawAt(w'.hist, id);
    if p.skipped == {} || p.counted <= Connected(w') {
      forall inputs | FitsAll(w', inputs)
        ensures ReceiversOf(Run(w', inputs), id) <= p.counted
      {
        RunKeeps(w', inputs, id);
        assert PendingLawAt(Run(w', inputs).hist, id);
      }
    } else {
      var c :| c in p.skipped;
      var inputs := Overtakes(w', id, c);
    }
  }
}
