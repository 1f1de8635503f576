/** What every tick of the server keeps, and what that means for delivery. */
module ServerLaws {
  import opened Bytes
  import opened ForumState
  import opened ForumLists
  import opened ForumLaws
  import opened ServerTick

  /** The ids of the announced clients. */
  ghost function Ids(sessions: seq<Session>): set<Text> {
    set i | 0 <= i < |sessions| && sessions[i].clientId != [] :: sessions[i].clientId
  }

  /** Live descriptors differ, announced ids differ, and the forum's online set is those ids. */
  ghost predicate SessionsAgree(sessions: seq<Session>, connected: set<Text>) {
    && (forall i, j :: 0 <= i < j < |sessions| ==> sessions[i].fd != sessions[j].fd)
    && (forall i, j :: 0 <= i < j < |sessions| && sessions[i].clientId != [] ==>
          sessions[i].clientId != sessions[j].clientId)
    && connected == Ids(sessions)
  }

  /** Everything published so far is at or below the client's mark. */
  predicate Current(h: History, c: Text) {
    c in h.forum.users && h.forum.users[c].lastMsgId == h.forum.lastId
  }

  ghost predicate Stored(h: History, id: nat)
    requires id in h.published
  {
    HasId(Msgs(h.forum, h.published[id].topic), id)
  }

  /** Everyone who was subscribed when the message was published. */
  function Audience(p: Publication): set<Text> {
    p.counted + p.skipped
  }

  /** While a message is stored, the subscribers still below it are exactly those who were subscribed
      at publication and have not been handed it. */
  ghost predicate PendingLawAt(h: History, id: nat)
    requires id in h.published
  {
    var p := h.published[id];
    && p.counted !! p.skipped
    && Receivers(h.log, id) <= Audience(p)
    && (Stored(h, id) ==> Pending(h.forum, p.topic, id) == Audience(p) - Receivers(h.log, id))
  }

  ghost predicate PendingLaw(h: History) {
    forall id :: id in h.published ==> PendingLawAt(h, id)
  }

  /** The invariant between ticks. */
  ghost predicate AtRest(w: World) {
    && Lawful(w.hist)
    && PendingLaw(w.hist)
    && SessionsAgree(w.sessions, w.hist.forum.connected)
    && (forall c :: c in w.hist.forum.connected ==> Current(w.hist, c))
  }

  // ---- The pending law, call by call ----

  /** Calls that publish, store and hand out nothing, for clients with nothing outstanding. */
  lemma QuietPending(h: History, h': History)
    requires Lawful(h) && PendingLaw(h)
    requires h'.published == h.published && h'.log == h.log && h'.forum.messages == h.forum.messages
    requires forall t, id: nat :: 1 <= id <= h.forum.lastId ==> Pending(h'.forum, t, id) == Pending(h.forum, t, id)
    ensures PendingLaw(h')
  {
    forall id | id in h'.published
      ensures PendingLawAt(h', id)
    {
      assert PendingLawAt(h, id);
    }
  }

  lemma SubscribePending(h: History, c: Text, t: Text, sf: bool)
    requires Lawful(h) && PendingLaw(h) && Current(h, c)
    ensures PendingLaw(Apply(h, Subscribe(c, t, sf)))
  {
    QuietPending(h, Apply(h, Subscribe(c, t, sf)));
  }

  lemma UnsubscribePending(h: History, c: Text, t: Text)
    requires Lawful(h) && PendingLaw(h) && Current(h, c)
    ensures PendingLaw(Apply(h, Unsubscribe(c, t)))
  {
    QuietPending(h, Apply(h, Unsubscribe(c, t)));
  }

  lemma StatusPending(h: History, c: Text, status: bool)
    requires Lawful(h) && PendingLaw(h)
    ensures PendingLaw(Apply(h, SetConnectionStatus(c, status)))
  {
    QuietPending(h, Apply(h, SetConnectionStatus(c, status)));
  }

  lemma NewPending(h: History, t: Text)
    requires Lawful(h)
    ensures Pending(h.forum, t, h.forum.lastId + 1) == Subs(h.forum, t).Keys
  {
    forall c | c in Subs(h.forum, t)
      ensures c in Pending(h.forum, t, h.forum.lastId + 1)
    {
      assert t in UserOf(h.forum, c).topics;
    }
  }

  lemma SamePending(s: State, s': State, topic: Text, id: nat)
    requires s'.users == s.users && Subs(s', topic) == Subs(s, topic)
    ensures Pending(s', topic, id) == Pending(s, topic, id)
  {
  }

  lemma OldPending(h: History, t: Text, text: Text, kind: byte, source: Source, id: nat)
    requires id in h.published && id <= h.forum.lastId && PendingLawAt(h, id)
    ensures PendingLawAt(Apply(h, AddMessage(t, text, kind, source)), id)
  {
    var h' := Apply(h, AddMessage(t, text, kind, source));
    var p := h.published[id];
    var m := Message(h.forum.lastId + 1, text, kind, source, |Counted(h.forum, t)|);
    assert h'.published[id] == p;
    SamePending(h.forum, h'.forum, p.topic, id);
    HasIdAppend(Msgs(h.forum, t), m, id);
    var before, after := Msgs(h.forum, p.topic), Msgs(h'.forum, p.topic);
    assert after == before || after == before + [m];
  }

  lemma AddMessagePendingAt(h: History, t: Text, text: Text, kind: byte, source: Source, id: nat)
    requires Lawful(h) && PendingLaw(h)
    requires id in Apply(h, AddMessage(t, text, kind, source)).published
    ensures PendingLawAt(Apply(h, AddMessage(t, text, kind, source)), id)
  {
    if id in h.published {
      OldPending(h, t, text, kind, source, id);
    } else {
      var h' := Apply(h, AddMessage(t, text, kind, source));
      SamePending(h.forum, h'.forum, t, id);
      NoReceiversYet(h, id);
      NewPending(h, t);
      assert Subs(h.forum, t).Keys == Audience(h'.published[id]);
    }
  }

  lemma AddMessagePending(h: History, t: Text, text: Text, kind: byte, source: Source)
    requires Lawful(h) && PendingLaw(h)
    ensures PendingLaw(Apply(h, AddMessage(t, text, kind, source)))
  {
    var h' := Apply(h, AddMessage(t, text, kind, source));
    forall id | id in h'.published
      ensures PendingLawAt(h', id)
    {
      AddMessagePendingAt(h, t, text, kind, source, id);
    }
  }

  /** A call hands the message to the caller exactly when the caller is pending on it. */
  lemma HandedWhenPending(h: History, c: Text, id: nat)
    requires Lawful(h) && id in h.published
    ensures BatchHas(Batch(c, UserMessages(h.forum, c)), id) <==>
            Stored(h, id) && c in Pending(h.forum, h.published[id].topic, id)
  {
    BatchIs(h, c, id);
    var t := h.published[id].topic;
    assert c in Subs(h.forum, t) <==> t in UserOf(h.forum, c).topics;
  }

  lemma StoredShrinks(h: History, c: Text, id: nat)
    requires Lawful(h) && id in h.published
    ensures Stored(Apply(h, GetUserMessages(c)), id) ==> Stored(h, id)
  {
    var t, last := h.published[id].topic, UserOf(h.forum, c).lastMsgId;
    AscendingRefs(Msgs(h.forum, t), 0, h.forum.lastId, id);
    KeptRefs(Msgs(h.forum, t), 0, h.forum.lastId, last, id);
    KeptAscending(Msgs(h.forum, t), 0, h.forum.lastId, last);
    AscendingRefs(Kept(Msgs(h.forum, t), last), 0, h.forum.lastId, id);
  }

  /** After the call the caller is pending on nothing, and nobody else's standing has changed. */
  lemma PendingAfter(h: History, c: Text, t: Text, id: nat)
    requires MarksOk(h.forum) && id <= h.forum.lastId
    ensures Pending(Apply(h, GetUserMessages(c)).forum, t, id) == Pending(h.forum, t, id) - {c}
  {
    assert Subs(Apply(h, GetUserMessages(c)).forum, t) == Subs(h.forum, t);
  }

  lemma BatchLogged(h: History, c: Text, id: nat)
    ensures Receivers(Apply(h, GetUserMessages(c)).log, id) ==
            Receivers(h.log, id) + (if BatchHas(Batch(c, UserMessages(h.forum, c)), id) then {c} else {})
  {
    ReceiversAppend(h.log, Batch(c, UserMessages(h.forum, c)), id);
  }

  lemma ReceiversAfter(h: History, c: Text, id: nat)
    requires Lawful(h) && id in h.published
    ensures Receivers(Apply(h, GetUserMessages(c)).log, id) == Receivers(h.log, id) +
            (if Stored(h, id) && c in Pending(h.forum, h.published[id].topic, id) then {c} else {})
  {
    BatchLogged(h, c, id);
    HandedWhenPending(h, c, id);
  }

  lemma GetUserMessagesPendingAt(h: History, c: Text, h': History, id: nat)
    requires Lawful(h) && id in h.published && PendingLawAt(h, id)
    requires h' == Apply(h, GetUserMessages(c))
    ensures PendingLawAt(h', id)
  {
    StoredShrinks(h, c, id);
    ReceiversAfter(h, c, id);
    PendingAfter(h, c, h.published[id].topic, id);
    PendingStep(h, h', c, id);
  }

  lemma PendingStep(h: History, h': History, c: Text, id: nat)
    requires id in h.published && h'.published == h.published && PendingLawAt(h, id)
    requires Stored(h', id) ==> Stored(h, id)
    requires var pending := Pending(h.forum, h.published[id].topic, id);
      && Pending(h'.forum, h.published[id].topic, id) == pending - {c}
      && Receivers(h'.log, id) == Receivers(h.log, id) + (if Stored(h, id) && c in pending then {c} else {})
    ensures PendingLawAt(h', id)
  {
    OneFewer(Pending(h.forum, h.published[id].topic, id), Audience(h.published[id]), Receivers(h.log, id), c);
  }

  lemma OneFewer(pending: set<Text>, audience: set<Text>, receivers: set<Text>, c: Text)
    ensures pending == audience - receivers ==>
      if c in pending then pending - {c} == audience - (receivers + {c}) else pending - {c} == pending
  {
  }

  lemma GetUserMessagesPending(h: History, c: Text)
    requires Lawful(h) && PendingLaw(h)
    ensures PendingLaw(Apply(h, GetUserMessages(c)))
  {
    var h' := Apply(h, GetUserMessages(c));
    forall id | id in h'.published
      ensures PendingLawAt(h', id)
    {
      assert PendingLawAt(h, id);
      GetUserMessagesPendingAt(h, c, h', id);
    }
  }
}
