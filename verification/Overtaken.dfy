/** A run of the server, from its start, in which a subscriber that was counted never gets the message:
    one that was skipped comes back first and takes the only share. */
module Overtaken {
  import opened Bytes
  import opened NetworkObjects
  import opened Messages
  import opened ForumState
  import opened ServerTick
  import opened ServerLaws
  import opened TickLaws
  import opened DeliveryLaws
  import opened Promise

  const NEWS: Text := [110]
  const ANA: Text := [97]
  const BOB: Text := [98]

  /** "n" in its 50-byte field, the type STRING, and the text "x". */
  const POST := Datagram(1, 2, NEWS + seq(49, i => 0) + [TYPE_STRING, 120])

  /** A tick in which one connection sends one request. */
  function Say(fd: int, r: Request): Input {
    Input(None, map[fd := [EncodeRequest(r)]], [])
  }

  /** A tick in which one connection ends. */
  function HangUp(fd: int): Input {
    Input(None, map[fd := [[]]], [])
  }

  const ARRIVALS: seq<Input> := [Connect(1), Say(1, Announce(ANA)), Connect(2), Say(2, Announce(BOB))]

  /** Ana subscribes with store-and-forward, Bob without, and both leave. */
  const SUBSCRIPTIONS: seq<Input> := [Say(1, Subscribing(NEWS, 1)), Say(2, Subscribing(NEWS, 0)), HangUp(1), HangUp(2)]

  const POSTING := Input(None, map[], [POST])

  /** Bob is back first, and then Ana. */
  const RETURNS: seq<Input> := [Connect(3), Rejoin(3, BOB), Connect(4), Rejoin(4, ANA)]

  const THE_RUN: seq<Input> := ARRIVALS + SUBSCRIPTIONS + ([POSTING] + RETURNS)

  // ---- Ticks that nothing is posted in ----

  /** What the run needs to know before the post. */
  ghost predicate Stage(w: World, sessions: seq<Session>, subscribers: map<Text, bool>) {
    && AtRest(w) && w.sessions == sessions
    && Subs(w.hist.forum, NEWS) == subscribers && w.hist.published == map[]
  }

  lemma QuietTick(w: World, input: Input, served: World)
    requires AtRest(w) && Fits(w, input) && input.posts == [] && served == Serve(w, input)
    requires served.hist.published == map[]
    ensures Stage(Tick(w, input), served.sessions, Subs(served.hist.forum, NEWS))
  {
    TickAtRest(w, input);
    DeliverNames(served.hist, served.sessions);
  }

  lemma ConnectStage(w: World, sessions: seq<Session>, subscribers: map<Text, bool>, fd: int)
    requires Stage(w, sessions, subscribers) && forall i :: 0 <= i < |sessions| ==> sessions[i].fd != fd
    ensures Stage(Tick(w, Connect(fd)), sessions + [Session(fd, [])], subscribers)
  {
    ConnectServed(w, fd);
    QuietTick(w, Connect(fd), World(w.sessions + [Session(fd, [])], w.hist));
  }

  /** One request is handled as the packet of the session that sent it. */
  lemma SayServed(w: World, i: nat, r: Request)
    requires Sound(w) && i < |w.sessions|
    ensures var s := w.sessions[i];
            Serve(w, Say(s.fd, r)) == HandlePacket(w, Queued(s.fd, s.clientId, EncodeRequest(r)))
    ensures FindFd(w.sessions, w.sessions[i].fd) == i
  {
    var s := w.sessions[i];
    var p := Queued(s.fd, s.clientId, EncodeRequest(r));
    OneQueue(w.sessions, i, EncodeRequest(r), w.hist);
    assert HandlePackets(w, [p]) == HandlePackets(HandlePacket(w, p), [p][1..]);
  }

  lemma AnnounceStage(w: World, sessions: seq<Session>, subscribers: map<Text, bool>, i: nat, c: Text)
    requires Stage(w, sessions, subscribers) && i < |sessions| && sessions[i].clientId == []
    requires Named(c) && FindId(sessions, c) == |sessions|
    ensures Stage(Tick(w, Say(sessions[i].fd, Announce(c))), sessions[i := Session(sessions[i].fd, c)], subscribers)
  {
    SayServed(w, i, Announce(c));
    RequestRoundTrip(Announce(c));
    QuietTick(w, Say(sessions[i].fd, Announce(c)), Serve(w, Say(sessions[i].fd, Announce(c))));
  }

  lemma SubscribeStage(w: World, sessions: seq<Session>, subscribers: map<Text, bool>, i: nat, sf: byte)
    requires Stage(w, sessions, subscribers) && i < |sessions|
    requires sessions[i].clientId != [] && sessions[i].clientId !in subscribers
    ensures Stage(Tick(w, Say(sessions[i].fd, Subscribing(NEWS, sf))), sessions,
                  subscribers[sessions[i].clientId := sf != 0])
  {
    SayServed(w, i, Subscribing(NEWS, sf));
    RequestRoundTrip(Subscribing(NEWS, sf));
    QuietTick(w, Say(sessions[i].fd, Subscribing(NEWS, sf)), Serve(w, Say(sessions[i].fd, Subscribing(NEWS, sf))));
  }

  /** The first connection of the table ends. */
  lemma HangUpStage(w: World, sessions: seq<Session>, subscribers: map<Text, bool>)
    requires Stage(w, sessions, subscribers) && sessions != []
    ensures Stage(Tick(w, HangUp(sessions[0].fd)), sessions[1..], subscribers)
  {
    var input := HangUp(sessions[0].fd);
    var h := Disconnect(w.hist, sessions[0]);
    OtherQueues(sessions[1..], input.queues, h);
    assert Stamped(sessions[0], Before([[]])) == [];
    QuietTick(w, input, World(sessions[1..], h));
  }

  // ---- The post ----

  lemma PostDecodes()
    ensures DecodePost(POST.bytes) == Some(PostData(NEWS, TYPE_STRING, [120]))
  {
    var bs := POST.bytes;
    var field, body := bs[..TOPIC_SIZE], bs[TOPIC_SIZE + 1..];
    assert |bs| == 52 && bs[TOPIC_SIZE] == TYPE_STRING;
    assert field[0] == 110 && field[1..][0] == 0;
    assert CString(field) == [110] + CString(field[1..]) == NEWS;
    assert body == [120] && body[..Min(STRING_SIZE, |body|)] == [120];
    assert [120][1..] == [] && CString([120]) == [120] + CString([120][1..]);
    assert CString([120]) == [120] && CString(field) == NEWS;
    assert DecodePost(bs) == Some(PostData(CString(field), TYPE_STRING, CString(body[..Min(STRING_SIZE, |body|)])));
  }

  /** Ana is counted, Bob is skipped, and nobody is online. */
  lemma PostStage(w: World, w': World)
    requires Stage(w, [], map[ANA := true, BOB := false]) && w' == Tick(w, POSTING)
    ensures AtRest(w') && w'.sessions == [] && Connected(w') == {}
    ensures w'.hist.published == map[1 := Publication(NEWS, [120], TYPE_STRING, Source(1, 2), {ANA}, {BOB})]
    ensures Stored(w'.hist, 1) && ReceiversOf(w', 1) == {}
  {
    PostDecodes();
    assert Serve(w, POSTING) == w;
    assert PublishAll(w.hist, [POST]) == Publish(w.hist, POST);
    assert Connected(w) == {};
    assert 1 in w.hist.published <==> 1 <= w.hist.forum.lastId;
    assert Counted(w.hist.forum, NEWS) == {ANA};
    assert Subs(w.hist.forum, NEWS).Keys - {ANA} == {BOB};
    AfterPost(w, POSTING, 1);
    TickAtRest(w, POSTING);
  }

  // ---- The whole run ----

  lemma RunFour(w: World, w1: World, w2: World, w3: World, w4: World, inputs: seq<Input>)
    requires |inputs| == 4
    requires w1 == Tick(w, inputs[0]) && w2 == Tick(w1, inputs[1]) && w3 == Tick(w2, inputs[2]) && w4 == Tick(w3, inputs[3])
    requires Fits(w, inputs[0]) && Fits(w1, inputs[1]) && Fits(w2, inputs[2]) && Fits(w3, inputs[3])
    ensures FitsAll(w, inputs) && Run(w, inputs) == w4
  {
    var back := [inputs[2], inputs[3]];
    RunTwo(w2, inputs[2], inputs[3], []);
    assert back + [] == back;
    RunTwo(w, inputs[0], inputs[1], back);
    assert [inputs[0], inputs[1]] + back == inputs;
  }

  lemma {:induction false} RunJoined(w: World, inputs: seq<Input>, more: seq<Input>)
    requires FitsAll(w, inputs) && FitsAll(Run(w, inputs), more)
    ensures FitsAll(w, inputs + more) && Run(w, inputs + more) == Run(Run(w, inputs), more)
    decreases |inputs|
  {
    if inputs == [] {
      assert [] + more == more;
    } else {
      RunJoined(Tick(w, inputs[0]), inputs[1..], more);
      RunFrom(w, Tick(w, inputs[0]), inputs[0], inputs[1..], more, inputs + more);
    }
  }

  lemma RunFrom(w: World, w1: World, first: Input, inputs: seq<Input>, more: seq<Input>, all: seq<Input>)
    requires all == [first] + inputs + more && w1 == Tick(w, first) && Fits(w, first) && FitsAll(w1, inputs + more)
    ensures FitsAll(w, all) && Run(w, all) == Run(w1, inputs + more)
  {
    assert all[1..] == inputs + more;
  }

  lemma Arrive() returns (w: World)
    ensures FitsAll(BOOT, ARRIVALS) && w == Run(BOOT, ARRIVALS)
    ensures Stage(w, [Session(1, ANA), Session(2, BOB)], map[])
  {
    BootStage();
    var w1, w2 := Joins(BOOT, [], 1, ANA);
    assert [] + [Session(1, ANA)] == [Session(1, ANA)];
    w := BobArrives(w1, w2);
  }

  lemma BootStage()
    ensures Stage(BOOT, [], map[])
  {
  }

  lemma BobArrives(w1: World, w2: World) returns (w: World)
    requires Fits(BOOT, Connect(1)) && w1 == Tick(BOOT, Connect(1)) && w2 == Tick(w1, Say(1, Announce(ANA)))
    requires Stage(w2, [Session(1, ANA)], map[])
    ensures FitsAll(BOOT, ARRIVALS) && w == Run(BOOT, ARRIVALS)
    ensures Stage(w, [Session(1, ANA), Session(2, BOB)], map[])
  {
    var w3;
    w3, w := Joins(w2, [Session(1, ANA)], 2, BOB);
    assert [Session(1, ANA)] + [Session(2, BOB)] == [Session(1, ANA), Session(2, BOB)];
    ArrivalsRun(w1, w2, w3, w);
  }

  lemma ArrivalsRun(w1: World, w2: World, w3: World, w4: World)
    requires Fits(BOOT, Connect(1)) && w1 == Tick(BOOT, Connect(1)) && w2 == Tick(w1, Say(1, Announce(ANA)))
    requires Fits(w2, Connect(2)) && w3 == Tick(w2, Connect(2)) && w4 == Tick(w3, Say(2, Announce(BOB)))
    ensures FitsAll(BOOT, ARRIVALS) && w4 == Run(BOOT, ARRIVALS)
  {
    RunFour(BOOT, w1, w2, w3, w4, ARRIVALS);
  }

  /** A new client connects and announces itself. */
  lemma Joins(w: World, sessions: seq<Session>, fd: int, c: Text) returns (w1: World, w2: World)
    requires Stage(w, sessions, map[]) && Named(c)
    requires forall i :: 0 <= i < |sessions| ==> sessions[i].fd != fd && sessions[i].clientId != c
    ensures Fits(w, Connect(fd)) && w1 == Tick(w, Connect(fd)) && w2 == Tick(w1, Say(fd, Announce(c)))
    ensures Stage(w2, sessions + [Session(fd, c)], map[])
  {
    var n, more := |sessions|, sessions + [Session(fd, [])];
    w1 := Tick(w, Connect(fd));
    ConnectStage(w, sessions, map[], fd);
    w2 := Tick(w1, Say(fd, Announce(c)));
    assert more[n] == Session(fd, []);
    AnnounceStage(w1, more, map[], n, c);
    assert more[n := Session(fd, c)] == sessions + [Session(fd, c)];
  }

  lemma SubscribeAndLeave(w: World) returns (w4: World)
    requires Stage(w, [Session(1, ANA), Session(2, BOB)], map[])
    ensures FitsAll(w, SUBSCRIPTIONS) && w4 == Run(w, SUBSCRIPTIONS)
    ensures Stage(w4, [], map[ANA := true, BOB := false])
  {
    var both := [Session(1, ANA), Session(2, BOB)];
    var w1 := Tick(w, SUBSCRIPTIONS[0]);
    SubscribeStage(w, both, map[], 0, 1);
    var w2 := Tick(w1, SUBSCRIPTIONS[1]);
    SubscribeStage(w1, both, map[ANA := true], 1, 0);
    var w3 := Tick(w2, SUBSCRIPTIONS[2]);
    HangUpStage(w2, both, map[ANA := true, BOB := false]);
    assert both[1..] == [Session(2, BOB)];
    w4 := Tick(w3, SUBSCRIPTIONS[3]);
    HangUpStage(w3, [Session(2, BOB)], map[ANA := true, BOB := false]);
    assert [Session(2, BOB)][1..] == [];
    RunFour(w, w1, w2, w3, w4, SUBSCRIPTIONS);
  }

  /** A known client comes back on a new connection. */
  lemma Back(w: World, fd: int, c: Text) returns (w1: World, w2: World)
    requires AtRest(w) && NamesOk(w) && Named(c) && c !in Connected(w)
    requires forall i :: 0 <= i < |w.sessions| ==> w.sessions[i].fd != fd
    ensures w1 == Tick(w, Connect(fd)) && w2 == Tick(w1, Rejoin(fd, c)) && Fits(w, Connect(fd))
    ensures AtRest(w1) && AtRest(w2) && NamesOk(w2)
    ensures w2.sessions == w.sessions + [Session(fd, c)] && Connected(w2) == Connected(w) + {c}
  {
    w1 := Tick(w, Connect(fd));
    w2 := Tick(w1, Rejoin(fd, c));
    ConnectServed(w, fd);
    TickAtRest(w, Connect(fd));
    TickNames(w, Connect(fd));
    TickStages(w, Connect(fd));
    RejoinServed(w1, fd, c, w.sessions);
    TickAtRest(w1, Rejoin(fd, c));
    TickNames(w1, Rejoin(fd, c));
    TickStages(w1, Rejoin(fd, c));
  }

  lemma Return(w: World) returns (w4: World)
    requires AtRest(w) && NamesOk(w) && w.sessions == [] && Connected(w) == {}
    requires 1 in w.hist.published && w.hist.published[1].counted == {ANA} && w.hist.published[1].skipped == {BOB}
    requires Stored(w.hist, 1) && ReceiversOf(w, 1) == {}
    ensures FitsAll(w, RETURNS) && w4 == Run(w, RETURNS)
    ensures Connected(w4) == {ANA, BOB} && Erased(w4, 1) && ReceiversOf(w4, 1) == {BOB}
    ensures w4.hist.published[1] == w.hist.published[1]
  {
    var w1, w2 := BobReturns(w);
    w4 := AnaReturns(w, w1, w2);
  }

  lemma BobReturns(w: World) returns (w1: World, w2: World)
    requires AtRest(w) && NamesOk(w) && w.sessions == [] && Connected(w) == {}
    requires 1 in w.hist.published && w.hist.published[1].counted == {ANA} && w.hist.published[1].skipped == {BOB}
    requires Stored(w.hist, 1) && ReceiversOf(w, 1) == {}
    ensures Fits(w, Connect(3)) && w1 == Tick(w, Connect(3)) && w2 == Tick(w1, Rejoin(3, BOB))
    ensures AtRest(w2) && NamesOk(w2) && w2.sessions == [Session(3, BOB)] && Connected(w2) == {BOB}
    ensures Erased(w2, 1) && ReceiversOf(w2, 1) == {BOB} && w2.hist.published[1] == w.hist.published[1]
  {
    w1, w2 := Back(w, 3, BOB);
    BobCollects(w, w1, w2);
  }

  lemma AnaReturns(w: World, w1: World, w2: World) returns (w4: World)
    requires Fits(w, Connect(3)) && w1 == Tick(w, Connect(3)) && w2 == Tick(w1, Rejoin(3, BOB))
    requires AtRest(w2) && NamesOk(w2) && Erased(w2, 1)
    requires w2.sessions == [Session(3, BOB)] && Connected(w2) == {BOB}
    ensures FitsAll(w, RETURNS) && w4 == Run(w, RETURNS)
    ensures Connected(w4) == {BOB} + {ANA} && Erased(w4, 1)
    ensures ReceiversOf(w4, 1) == ReceiversOf(w2, 1) && w4.hist.published[1] == w2.hist.published[1]
  {
    var w3;
    w3, w4 := Back(w2, 4, ANA);
    NothingLeft(w2, w3, w4);
    ReturnsRun(w, w1, w2, w3, w4);
  }

  lemma ReturnsRun(w: World, w1: World, w2: World, w3: World, w4: World)
    requires Fits(w, Connect(3)) && w1 == Tick(w, Connect(3)) && w2 == Tick(w1, Rejoin(3, BOB))
    requires Fits(w2, Connect(4)) && w3 == Tick(w2, Connect(4)) && w4 == Tick(w3, Rejoin(4, ANA))
    ensures FitsAll(w, RETURNS) && w4 == Run(w, RETURNS)
  {
    RunFour(w, w1, w2, w3, w4, RETURNS);
  }

  lemma BobCollects(w: World, w1: World, w2: World)
    requires AtRest(w) && NamesOk(w) && w.sessions == []
    requires 1 in w.hist.published && w.hist.published[1].counted == {ANA} && w.hist.published[1].skipped == {BOB}
    requires Stored(w.hist, 1) && ReceiversOf(w, 1) == {} && Fits(w, Connect(3))
    requires w1 == Tick(w, Connect(3)) && w2 == Tick(w1, Rejoin(3, BOB)) && AtRest(w1) && AtRest(w2)
    ensures Erased(w2, 1) && ReceiversOf(w2, 1) == {BOB} && w2.hist.published[1] == w.hist.published[1]
  {
    ConnectTick(w, 3, w1, 1);
    StillWaiting(w, w1, 1, BOB);
    assert w1.sessions == [] + [Session(3, [])];
    TickNames(w, Connect(3));
    ComesBackNow(w1, 3, BOB, [], w2, 1);
    Spent(w2, 1);
    SetSize({BOB}, ReceiversOf(w2, 1));
  }

  lemma NothingLeft(w2: World, w3: World, w4: World)
    requires AtRest(w2) && Erased(w2, 1) && Fits(w2, Connect(4))
    requires w3 == Tick(w2, Connect(4)) && w4 == Tick(w3, Rejoin(4, ANA))
    ensures Erased(w4, 1) && ReceiversOf(w4, 1) == ReceiversOf(w2, 1) && w4.hist.published[1] == w2.hist.published[1]
  {
    TickAtRest(w2, Connect(4));
    TickKeepsPublished(w2, Connect(4), 1);
    TickEffects(w2, Connect(4), 1);
    TickKeepsPublished(w3, Rejoin(4, ANA), 1);
    TickEffects(w3, Rejoin(4, ANA), 1);
  }

  /** In a state the server reaches, the message is gone, Ana was counted for it and is online, and only
      Bob, who was not counted, has been handed it. */
  lemma OvertakenRun() returns (w: World)
    ensures Reached(w, THE_RUN)
    ensures 1 in w.hist.published && w.hist.published[1].counted == {ANA} && w.hist.published[1].skipped == {BOB}
    ensures Connected(w) == {ANA, BOB} && Erased(w, 1) && ReceiversOf(w, 1) == {BOB}
  {
    var w4 := Arrive();
    var w8 := SubscribeAndLeave(w4);
    RunJoined(BOOT, ARRIVALS, SUBSCRIPTIONS);
    ReachedInvariants(w8, ARRIVALS + SUBSCRIPTIONS);
    var w9 := Tick(w8, POSTING);
    PostStage(w8, w9);
    TickNames(w8, POSTING);
    w := Return(w9);
    var last := [POSTING] + RETURNS;
    assert last[1..] == RETURNS;
    assert Run(w8, last) == Run(w9, RETURNS);
    RunJoined(BOOT, ARRIVALS + SUBSCRIPTIONS, last);
  }
}
