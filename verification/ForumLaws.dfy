/** What every sequence of `Forums` calls keeps, in whatever order clients make them. */
module ForumLaws {
  import opened Bytes
  import opened ForumState
  import opened ForumLists

  /** The client-to-topic and topic-to-client indexes agree. */
  ghost predicate IndexesAgree(s: State) {
    forall c, t :: c in Subs(s, t) <==> t in UserOf(s, c).topics
  }

  /** Stored lists ascend up to `lastId`, and every stored id is a publication to that topic. */
  ghost predicate ListsOk(h: History) {
    && (forall t :: Ascending(Msgs(h.forum, t), 0, h.forum.lastId))
    && (forall id: nat :: id in h.published <==> 1 <= id <= h.forum.lastId)
    && (forall t, id: nat {:trigger HasId(Msgs(h.forum, t), id)} :: HasId(Msgs(h.forum, t), id) ==> id in h.published && h.published[id].topic == t)
  }

  ghost predicate MarksOk(s: State) {
    forall c :: c in s.users ==> s.users[c].lastMsgId <= s.lastId
  }

  /** Everything a client was handed is a publication at or below its high-water mark. */
  ghost predicate Past(h: History, b: Batch) {
    forall id: nat :: BatchHas(b, id) ==>
      id in h.published && b.client in h.forum.users && id <= h.forum.users[b.client].lastMsgId
  }

  ghost predicate HandedBelow(h: History) {
    forall b :: b in h.log ==> Past(h, b)
  }

  /** Later calls hand a client only later ids. */
  ghost predicate InOrder(log: seq<Batch>) {
    forall i, j, id: nat, id': nat {:trigger BatchHas(log[i], id), BatchHas(log[j], id')} ::
      0 <= i < j < |log| && log[i].client == log[j].client && BatchHas(log[i], id) && BatchHas(log[j], id')
      ==> id < id'
  }

  /** Within one call, each topic's ids strictly ascend and no id is handed out under two topics. */
  ghost predicate BatchOrdered(b: Batch) {
    && (forall t, i, j :: t in b.lists && 0 <= i < j < |b.lists[t]| ==> b.lists[t][i].id < b.lists[t][j].id)
    && (forall t, t', id :: t in b.lists && t' in b.lists && HasId(b.lists[t], id) && HasId(b.lists[t'], id)
          ==> t == t')
  }

  /** Deliveries made plus deliveries still expected is the number counted at publication. */
  ghost predicate Conserved(h: History, id: nat)
    requires id in h.published
  {
    RefOf(Msgs(h.forum, h.published[id].topic), id) + |Receivers(h.log, id)| == |h.published[id].counted|
  }

  ghost predicate Lawful(h: History) {
    && IndexesAgree(h.forum)
    && MarksOk(h.forum)
    && ListsOk(h)
    && HandedBelow(h)
    && InOrder(h.log)
    && (forall b :: b in h.log ==> BatchOrdered(b))
    && (forall id :: id in h.published ==> Conserved(h, id))
  }

  lemma IndexesKept(s: State, s': State)
    requires IndexesAgree(s)
    requires s'.subs == s.subs
    requires forall c :: UserOf(s', c).topics == UserOf(s, c).topics
    ensures IndexesAgree(s')
  {
    assert forall t :: Subs(s', t) == Subs(s, t);
  }

  lemma FreshLawful()
    ensures Lawful(FRESH)
  {
  }

  lemma ReceiversAppend(log: seq<Batch>, b: Batch, id: nat)
    ensures Receivers(log + [b], id) == Receivers(log, id) + (if BatchHas(b, id) then {b.client} else {})
  {
    assert (log + [b])[..|log|] == log;
  }

  lemma {:induction false} ReceiversAre(log: seq<Batch>, id: nat, c: Text)
    ensures c in Receivers(log, id) <==> exists i :: 0 <= i < |log| && log[i].client == c && BatchHas(log[i], id)
  {
    if log != [] {
      var init := log[..|log| - 1];
      ReceiversAre(init, id, c);
      if i :| 0 <= i < |log| && log[i].client == c && BatchHas(log[i], id) {
        if i < |init| {
          assert init[i].client == c && BatchHas(init[i], id);
        }
      }
      if i :| 0 <= i < |init| && init[i].client == c && BatchHas(init[i], id) {
        assert log[i].client == c && BatchHas(log[i], id);
      }
    }
  }

  /** A receiver of a message is past it, so it is never handed the message again. */
  lemma ReceiverPast(h: History, id: nat, c: Text)
    requires HandedBelow(h) && c in Receivers(h.log, id)
    ensures id in h.published && c in h.forum.users && id <= h.forum.users[c].lastMsgId
  {
    ReceiversAre(h.log, id, c);
    var i :| 0 <= i < |h.log| && h.log[i].client == c && BatchHas(h.log[i], id);
    assert Past(h, h.log[i]);
  }

  lemma NoReceiversYet(h: History, id: nat)
    requires HandedBelow(h) && id !in h.published
    ensures Receivers(h.log, id) == {}
  {
    if c :| c in Receivers(h.log, id) {
      ReceiverPast(h, id, c);
    }
  }

  /** A step that stores and hands out nothing, and lowers no mark, keeps the laws. */
  lemma QuietStep(h: History, h': History)
    requires Lawful(h)
    requires h'.published == h.published && h'.log == h.log
    requires h'.forum.messages == h.forum.messages && h'.forum.lastId == h.forum.lastId
    requires IndexesAgree(h'.forum) && MarksOk(h'.forum)
    requires forall c :: c in h.forum.users ==>
      c in h'.forum.users && h.forum.users[c].lastMsgId == h'.forum.users[c].lastMsgId
    ensures Lawful(h')
  {
    assert forall t :: Msgs(h'.forum, t) == Msgs(h.forum, t);
    forall id | id in h'.published
      ensures Conserved(h', id)
    {
      assert Conserved(h, id);
    }
  }

  lemma SubscribeLawful(h: History, c: Text, t: Text, sf: bool)
    requires Lawful(h)
    ensures Lawful(Apply(h, Subscribe(c, t, sf)))
  {
    var h' := Apply(h, Subscribe(c, t, sf));
    forall x, t'
      ensures x in Subs(h'.forum, t') <==> t' in UserOf(h'.forum, x).topics
    {
      assert x in Subs(h.forum, t') <==> t' in UserOf(h.forum, x).topics;
    }
    QuietStep(h, h');
  }

  lemma UnsubscribeLawful(h: History, c: Text, t: Text)
    requires Lawful(h)
    ensures Lawful(Apply(h, Unsubscribe(c, t)))
  {
    var h' := Apply(h, Unsubscribe(c, t));
    forall x, t'
      ensures x in Subs(h'.forum, t') <==> t' in UserOf(h'.forum, x).topics
    {
      assert x in Subs(h.forum, t') <==> t' in UserOf(h.forum, x).topics;
    }
    QuietStep(h, h');
  }

  lemma SetConnectionStatusLawful(h: History, c: Text, status: bool)
    requires Lawful(h)
    ensures Lawful(Apply(h, SetConnectionStatus(c, status)))
  {
    var h' := Apply(h, SetConnectionStatus(c, status));
    IndexesKept(h.forum, h'.forum);
    QuietStep(h, h');
  }

  lemma AddMessageListsOk(h: History, t: Text, text: Text, kind: byte, source: Source)
    requires Lawful(h) && Counted(h.forum, t) != {}
    ensures ListsOk(Apply(h, AddMessage(t, text, kind, source)))
  {
    var s, h' := h.forum, Apply(h, AddMessage(t, text, kind, source));
    var m := Message(s.lastId + 1, text, kind, source, |Counted(s, t)|);
    forall x: Text
      ensures Ascending(Msgs(h'.forum, x), 0, m.id)
      ensures forall id: nat :: HasId(Msgs(h'.forum, x), id) ==> HasId(Msgs(s, x), id) || (x == t && id == m.id)
    {
      AscendingAppend(Msgs(s, t), 0, s.lastId, m, m.id);
      AscendingWeaken(Msgs(s, x), 0, s.lastId, 0, m.id);
      forall id: nat | HasId(Msgs(h'.forum, x), id)
        ensures HasId(Msgs(s, x), id) || (x == t && id == m.id)
      {
        HasIdAppend(Msgs(s, t), m, id);
      }
    }
  }

  lemma AddMessageConserves(h: History, t: Text, text: Text, kind: byte, source: Source, id: nat)
    requires Lawful(h) && Counted(h.forum, t) != {}
    requires id in Apply(h, AddMessage(t, text, kind, source)).published
    ensures Conserved(Apply(h, AddMessage(t, text, kind, source)), id)
  {
    var s, h' := h.forum, Apply(h, AddMessage(t, text, kind, source));
    var m := Message(s.lastId + 1, text, kind, source, |Counted(s, t)|);
    MessageAdded(s, t, m);
    if id == m.id {
      NewConserved(h, h', t, m);
    } else {
      assert Conserved(h, id);
      OthersConserved(h, h', t, m, id);
    }
  }

  lemma MessageAdded(s: State, t: Text, m: Message)
    requires Counted(s, t) != {} && m == Message(s.lastId + 1, m.text, m.kind, m.source, |Counted(s, t)|)
    ensures var next := DoAddMessage(s, t, m.text, m.kind, m.source);
            Msgs(next, t) == Msgs(s, t) + [m] && forall x :: x != t ==> Msgs(next, x) == Msgs(s, x)
  {
  }

  /** Nothing of a new message has been delivered, and all of it is due. */
  lemma NewConserved(h: History, h': History, t: Text, m: Message)
    requires HandedBelow(h) && m.id !in h.published && h'.log == h.log
    requires m.id in h'.published && h'.published[m.id].topic == t && |h'.published[m.id].counted| == m.refCount
    requires Ascending(Msgs(h.forum, t), 0, h.forum.lastId) && m.id == h.forum.lastId + 1 && m.refCount >= 1
    requires Msgs(h'.forum, t) == Msgs(h.forum, t) + [m]
    ensures Conserved(h', m.id)
  {
    AscendingAppend(Msgs(h.forum, t), 0, h.forum.lastId, m, m.id);
    NoReceiversYet(h, m.id);
  }

  /** A message appended leaves what is due and delivered of the others. */
  lemma OthersConserved(h: History, h': History, t: Text, m: Message, id: nat)
    requires id in h.published && id in h'.published && h'.published[id] == h.published[id] && h'.log == h.log
    requires Ascending(Msgs(h.forum, t), 0, h.forum.lastId) && m.id == h.forum.lastId + 1 && m.refCount >= 1
    requires Msgs(h'.forum, t) == Msgs(h.forum, t) + [m] && id != m.id
    requires forall x :: x != t ==> Msgs(h'.forum, x) == Msgs(h.forum, x)
    requires Conserved(h, id)
    ensures Conserved(h', id)
  {
    AscendingAppend(Msgs(h.forum, t), 0, h.forum.lastId, m, id);
  }

  lemma AddMessageLawful(h: History, t: Text, text: Text, kind: byte, source: Source)
    requires Lawful(h)
    ensures Lawful(Apply(h, AddMessage(t, text, kind, source)))
  {
    var s, h' := h.forum, Apply(h, AddMessage(t, text, kind, source));
    forall x, t'
      ensures x in Subs(h'.forum, t') <==> t' in UserOf(h'.forum, x).topics
    {
      assert x in Subs(s, t') <==> t' in UserOf(s, x).topics;
    }
    if Counted(s, t) == {} {
      QuietStep(h, h');
    } else {
      AddMessageListsOk(h, t, text, kind, source);
      forall id | id in h'.published
        ensures Conserved(h', id)
      {
        AddMessageConserves(h, t, text, kind, source, id);
      }
      forall b | b in h'.log
        ensures Past(h', b)
      {
        assert Past(h, b);
      }
    }
  }

  /** A call hands out stored publications above the caller's mark, under their own topics. */
  lemma BatchFrom(h: History, c: Text, x: Text, id: nat)
    requires Lawful(h)
    ensures var lists := UserMessages(h.forum, c);
            x in lists && HasId(lists[x], id) <==>
            x in UserOf(h.forum, c).topics && id > UserOf(h.forum, c).lastMsgId && HasId(Msgs(h.forum, x), id)
    ensures HasId(Msgs(h.forum, x), id) ==>
            id in h.published && h.published[id].topic == x && id <= h.forum.lastId
  {
    HandedIds(Msgs(h.forum, x), UserOf(h.forum, c).lastMsgId, id);
  }

  /** The message is in the batch exactly when its own topic is subscribed, stores it, and it is new to
      the caller. */
  lemma BatchIs(h: History, c: Text, id: nat)
    requires Lawful(h)
    ensures BatchHas(Batch(c, UserMessages(h.forum, c)), id) <==>
            && id in h.published
            && h.published[id].topic in UserOf(h.forum, c).topics
            && id > UserOf(h.forum, c).lastMsgId
            && HasId(Msgs(h.forum, h.published[id].topic), id)
  {
    var b := Batch(c, UserMessages(h.forum, c));
    if BatchHas(b, id) {
      var x :| x in b.lists && HasId(b.lists[x], id);
      BatchFrom(h, c, x, id);
    }
    if id in h.published {
      BatchFrom(h, c, h.published[id].topic, id);
    }
  }

  lemma BatchIsOrdered(h: History, c: Text)
    requires Lawful(h)
    ensures BatchOrdered(Batch(c, UserMessages(h.forum, c)))
  {
    var s := h.forum;
    var lists: Store := UserMessages(h.forum, c);
    forall x: Text | x in lists
      ensures forall i, j :: 0 <= i < j < |lists[x]| ==> lists[x][i].id < lists[x][j].id
    {
      HandedAscending(Msgs(s, x), 0, s.lastId, UserOf(s, c).lastMsgId);
      AscendingIds(lists[x], 0, s.lastId);
    }
    forall x, x', id: nat | x in lists && x' in lists && HasId(lists[x], id) && HasId(lists[x'], id)
      ensures x == x'
    {
      BatchFrom(h, c, x, id);
      BatchFrom(h, c, x', id);
    }
  }

  lemma GetUserMessagesPast(h: History, c: Text, b: Batch)
    requires Lawful(h)
    requires b in h.log || b == Batch(c, UserMessages(h.forum, c))
    ensures Past(Apply(h, GetUserMessages(c)), b)
  {
    if b in h.log {
      assert Past(h, b);
      OldPast(h, c, b);
    } else {
      NewPast(h, c);
    }
  }

  lemma OldPast(h: History, c: Text, b: Batch)
    requires Past(h, b) && MarksOk(h.forum)
    ensures Past(Apply(h, GetUserMessages(c)), b)
  {
  }

  lemma NewPast(h: History, c: Text)
    requires Lawful(h)
    ensures Past(Apply(h, GetUserMessages(c)), Batch(c, UserMessages(h.forum, c)))
  {
    var h', b := Apply(h, GetUserMessages(c)), Batch(c, UserMessages(h.forum, c));
    forall id: nat | BatchHas(b, id)
      ensures id in h'.published && b.client in h'.forum.users && id <= h'.forum.users[b.client].lastMsgId
    {
      BatchIs(h, c, id);
    }
  }

  lemma GetUserMessagesInOrder(h: History, c: Text)
    requires Lawful(h)
    ensures InOrder(Apply(h, GetUserMessages(c)).log)
  {
    var log := Apply(h, GetUserMessages(c)).log;
    var n := |h.log|;
    forall i, j, id: nat, id': nat |
      0 <= i < j <= n && log[i].client == log[j].client && BatchHas(log[i], id) && BatchHas(log[j], id')
      ensures id < id'
    {
      assert BatchHas(h.log[i], id);
      if j < n {
        assert BatchHas(h.log[j], id');
      } else {
        assert Past(h, h.log[i]);
        BatchIs(h, c, id');
      }
    }
  }

  lemma GetUserMessagesConserves(h: History, c: Text, id: nat)
    requires Lawful(h) && id in h.published
    ensures Conserved(Apply(h, GetUserMessages(c)), id)
  {
    var h' := Apply(h, GetUserMessages(c));
    var s, t := h.forum, h.published[id].topic;
    assert Conserved(h, id);
    BatchIs(h, c, id);
    ReceiversAppend(h.log, Batch(c, UserMessages(s, c)), id);
    if c in Receivers(h.log, id) {
      ReceiverPast(h, id, c);
    }
    AscendingRefs(Msgs(s, t), 0, s.lastId, id);
    KeptRefs(Msgs(s, t), 0, s.lastId, UserOf(s, c).lastMsgId, id);
    ListLeft(s, c, t);
  }

  lemma ListLeft(s: State, c: Text, t: Text)
    ensures Msgs(DoGetUserMessages(s, c), t) ==
            if t in UserOf(s, c).topics then Kept(Msgs(s, t), UserOf(s, c).lastMsgId) else Msgs(s, t)
  {
  }

  lemma GetUserMessagesListsOk(h: History, c: Text)
    requires Lawful(h)
    ensures ListsOk(Apply(h, GetUserMessages(c)))
  {
    var s, user := h.forum, UserOf(h.forum, c);
    var h' := Apply(h, GetUserMessages(c));
    forall x: Text
      ensures Ascending(Msgs(h'.forum, x), 0, s.lastId)
      ensures forall id: nat :: HasId(Msgs(h'.forum, x), id) ==> HasId(Msgs(s, x), id)
    {
      KeptAscending(Msgs(s, x), 0, s.lastId, user.lastMsgId);
      forall id: nat | HasId(Msgs(h'.forum, x), id)
        ensures HasId(Msgs(s, x), id)
      {
        AscendingRefs(Msgs(s, x), 0, s.lastId, id);
        AscendingRefs(Kept(Msgs(s, x), user.lastMsgId), 0, s.lastId, id);
        KeptRefs(Msgs(s, x), 0, s.lastId, user.lastMsgId, id);
      }
    }
  }

  lemma GetUserMessagesLawful(h: History, c: Text)
    requires Lawful(h)
    ensures Lawful(Apply(h, GetUserMessages(c)))
  {
    var h' := Apply(h, GetUserMessages(c));
    forall b | b in h'.log
      ensures Past(h', b)
    {
      GetUserMessagesPast(h, c, b);
    }
    GetUserMessagesInOrder(h, c);
    GetUserMessagesListsOk(h, c);
    BatchIsOrdered(h, c);
    IndexesKept(h.forum, h'.forum);
    forall id | id in h'.published
      ensures Conserved(h', id)
    {
      GetUserMessagesConserves(h, c, id);
    }
  }

  lemma ApplyLawful(h: History, call: Call)
    requires Lawful(h)
    ensures Lawful(Apply(h, call))
  {
    match call
    case Subscribe(c, t, sf) => SubscribeLawful(h, c, t, sf);
    case Unsubscribe(c, t) => UnsubscribeLawful(h, c, t);
    case AddMessage(t, text, kind, source) => AddMessageLawful(h, t, text, kind, source);
    case GetUserMessages(c) => GetUserMessagesLawful(h, c);
    case SetConnectionStatus(c, status) => SetConnectionStatusLawful(h, c, status);
  }

  /** The laws hold after every sequence of calls. */
  lemma {:induction false} RunLawful(h: History, calls: seq<Call>)
    requires Lawful(h)
    ensures Lawful(RunCalls(h, calls))
    decreases |calls|
  {
    if calls != [] {
      ApplyLawful(h, calls[0]);
      RunLawful(Apply(h, calls[0]), calls[1..]);
    }
  }

  /** At most once and in order, for any calls whatever: a later call hands a client only larger ids. */
  lemma LaterIsNewer(calls: seq<Call>, i: nat, j: nat, id: nat, id': nat)
    requires var log := RunCalls(FRESH, calls).log;
             i < j < |log| && log[i].client == log[j].client && BatchHas(log[i], id) && BatchHas(log[j], id')
    ensures id < id'
  {
    FreshLawful();
    RunLawful(FRESH, calls);
  }

  /** Conservation for any calls whatever: what is due and what was delivered add up to the count at
      publication, and a message is stored exactly while some of it is due. */
  lemma DuePlusDelivered(calls: seq<Call>, id: nat)
    requires id in RunCalls(FRESH, calls).published
    ensures var h := RunCalls(FRESH, calls);
            var p := h.published[id];
            var due := RefOf(Msgs(h.forum, p.topic), id);
            && due + |Receivers(h.log, id)| == |p.counted|
            && (HasId(Msgs(h.forum, p.topic), id) <==> |Receivers(h.log, id)| < |p.counted|)
  {
    FreshLawful();
    RunLawful(FRESH, calls);
    var h := RunCalls(FRESH, calls);
    assert Conserved(h, id);
    AscendingRefs(Msgs(h.forum, h.published[id].topic), 0, h.forum.lastId, id);
  }

  // ---- One call, message by message ----

  lemma {:induction false} HandedAre(ms: seq<Message>, last: nat)
    ensures forall m :: m in Handed(ms, last) <==> m in ms && m.id > last
  {
    if ms != [] {
      HandedAre(ms[1..], last);
      assert ms == [ms[0]] + ms[1..];
    }
  }

  /** One delivery less is expected of a message that is above the mark, and none of one at or below it. */
  predicate Left(m: Message, m': Message, last: nat) {
    m' == m.(refCount := if m.id > last then m.refCount - 1 else m.refCount) && m'.refCount != 0
  }

  lemma {:induction false} KeptAre(ms: seq<Message>, last: nat)
    ensures forall m' :: m' in Kept(ms, last) <==> exists m :: m in ms && Left(m, m', last)
  {
    if ms != [] {
      KeptAre(ms[1..], last);
      assert ms == [ms[0]] + ms[1..];
      var first := if ms[0].id > last then ms[0].(refCount := ms[0].refCount - 1) else ms[0];
      assert first.refCount != 0 ==> Left(ms[0], first, last);
    }
  }

  /** A call returns a list for each topic of its caller, with the stored messages above its mark; what is still
      expected stays stored, other topics are left alone, and the caller's mark is the last id. */
  lemma CollectsExactly(s: State, c: Text)
    ensures var lists, s', user := UserMessages(s, c), DoGetUserMessages(s, c), UserOf(s, c);
            && (forall t :: t in lists <==> t in user.topics)
            && (forall t, m :: t in lists ==> (m in lists[t] <==> m in Msgs(s, t) && m.id > user.lastMsgId))
            && (forall t, m' :: t in lists ==>
                  (m' in Msgs(s', t) <==> exists m :: m in Msgs(s, t) && Left(m, m', user.lastMsgId)))
            && (forall t :: t !in lists ==> Msgs(s', t) == Msgs(s, t))
            && s'.subs == s.subs && s'.connected == s.connected && s'.lastId == s.lastId
            && s'.users == s.users[c := User(user.topics, s.lastId)]
  {
    var last := UserOf(s, c).lastMsgId;
    forall t | t in UserOf(s, c).topics
      ensures forall m :: m in Handed(Msgs(s, t), last) <==> m in Msgs(s, t) && m.id > last
      ensures forall m' :: m' in Kept(Msgs(s, t), last) <==> exists m :: m in Msgs(s, t) && Left(m, m', last)
    {
      HandedAre(Msgs(s, t), last);
      KeptAre(Msgs(s, t), last);
    }
  }
}
