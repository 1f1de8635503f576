/** The class `Forums`: its methods change its fields step by step, and each is proved to take
    the abstract state to what ForumState says. */
module Forums {
  import opened Bytes
  import opened ForumState

  datatype ECode = OK | ALREADY_SUBSCRIBED

  /** `pairs` lists the entries of `lists`, each topic once, in some order. */
  ghost predicate Lists(pairs: seq<(Text, seq<Message>)>, lists: Store) {
    && (forall i :: 0 <= i < |pairs| ==> pairs[i].0 in lists && lists[pairs[i].0] == pairs[i].1)
    && (forall i, j :: 0 <= i < j < |pairs| ==> pairs[i].0 != pairs[j].0)
    && (forall t :: t in lists ==> exists i :: 0 <= i < |pairs| && pairs[i].0 == t)
  }

  lemma ListsStep(pairs: seq<(Text, seq<Message>)>, lists: Store, topic: Text, ms: seq<Message>)
    requires Lists(pairs, lists) && topic !in lists
    ensures Lists(pairs + [(topic, ms)], lists[topic := ms])
  {
    var more, all := pairs + [(topic, ms)], lists[topic := ms];
    forall t | t in all
      ensures exists i :: 0 <= i < |more| && more[i].0 == t
    {
      if t == topic {
        assert more[|pairs|].0 == t;
      } else {
        var i :| 0 <= i < |pairs| && pairs[i].0 == t;
        assert more[i].0 == t;
      }
    }
  }

  /** One more topic walked. */
  lemma WalkStep(store: Store, done: set<Text>, topic: Text, last: nat)
    requires topic !in done
    ensures var list := ListAt(store, topic);
            && ListAt(Walked(store, done, last), topic) == list
            && Walked(store, done + {topic}, last) == Walked(store, done, last)[topic := Kept(list, last)]
            && HandedFrom(store, done + {topic}, last) == HandedFrom(store, done, last)[topic := Handed(list, last)]
  {
  }

  /** What the walk does with the entry at index `j`. */
  lemma TakeStep(ms: seq<Message>, j: nat, last: nat, taken: seq<Message>, done: seq<Message>)
    requires j < |ms|
    ensures taken + Handed(ms[j..], last) ==
            (if ms[j].id > last then taken + [ms[j]] else taken) + Handed(ms[j + 1..], last)
    ensures var m := if ms[j].id > last then ms[j].(refCount := ms[j].refCount - 1) else ms[j];
            done + Kept(ms[j..], last) ==
            (if m.refCount == 0 then done else done + [m]) + Kept(ms[j + 1..], last)
  {
    assert ms[j..][0] == ms[j] && ms[j..][1..] == ms[j + 1..];
  }

  /** The list under the iterator: storing to its entry, erasing it, and stepping over it. */
  lemma EraseStep(done: seq<Message>, ms: seq<Message>, j: nat, m: Message)
    requires j < |ms|
    ensures var list, it := done + ms[j..], |done|;
            && list[it := m] == (done + [m]) + ms[j + 1..]
            && list[..it] + list[it + 1..] == done + ms[j + 1..]
            && list[it := m][..it] + list[it := m][it + 1..] == done + ms[j + 1..]
  {
  }

  class Forums {
    var lastMessageId: nat
    var messages: Store
    var usersSubscribed: map<Text, User>
    var topicSubscriptions: map<Text, map<Text, bool>>
    var usersConnected: set<Text>

    /** The history of this forum, kept for its laws only. */
    ghost var hist: History

    ghost predicate Valid()
      reads this
    {
      Contents() == hist.forum
    }

    function Contents(): State
      reads this
    {
      State(lastMessageId, messages, usersSubscribed, topicSubscriptions, usersConnected)
    }

    constructor ()
      ensures Valid() && Contents() == EMPTY && hist == FRESH
    {
      hist := FRESH;
      lastMessageId := 0;
      messages, usersSubscribed, topicSubscriptions, usersConnected := map[], map[], map[], {};
    }

    method Subscribe(client: Text, topic: Text, sf: bool) returns (err: ECode)
      requires Valid()
      modifies this
      ensures Valid() && hist == Apply(old(hist), ForumState.Subscribe(client, topic, sf))
      ensures Contents() == DoSubscribe(old(Contents()), client, topic, sf)
      ensures err == ALREADY_SUBSCRIBED <==> client in Subs(old(Contents()), topic)
    {
      ghost var after := Apply(hist, ForumState.Subscribe(client, topic, sf));
      if topic in topicSubscriptions && client in topicSubscriptions[topic] {
        hist := after;
        return ALREADY_SUBSCRIBED;
      }
      var present := if topic in topicSubscriptions then topicSubscriptions[topic] else map[];
      topicSubscriptions := topicSubscriptions[topic := present[client := sf]];
      if client !in usersSubscribed {
        usersSubscribed := usersSubscribed[client := User({}, lastMessageId)];
      }
      var user := usersSubscribed[client];
      usersSubscribed := usersSubscribed[client := user.(topics := user.topics + {topic})];
      hist := after;
      return OK;
    }

    method Unsubscribe(client: Text, topic: Text) returns (err: ECode)
      requires Valid()
      modifies this
      ensures Valid() && hist == Apply(old(hist), ForumState.Unsubscribe(client, topic))
      ensures Contents() == DoUnsubscribe(old(Contents()), client, topic)
      ensures err == OK
    {
      ghost var after := Apply(hist, ForumState.Unsubscribe(client, topic));
      var present := if topic in topicSubscriptions then topicSubscriptions[topic] else map[];
      topicSubscriptions := topicSubscriptions[topic := present - {client}];
      var user := if client in usersSubscribed then usersSubscribed[client] else User({}, 0);
      usersSubscribed := usersSubscribed[client := user.(topics := user.topics - {topic})];
      hist := after;
      return OK;
    }

    /** The counting loop of AddMessage over one topic's subscribers. */
    method CountReceivers(present: map<Text, bool>) returns (subscribers: nat)
      ensures subscribers == |Counting(present, usersConnected)|
    {
      ghost var counted := Counting(present, usersConnected);
      var rest := present.Keys;
      ghost var seen: set<Text> := {};
      subscribers := 0;
      while rest != {}
        invariant rest <= present.Keys
        invariant seen == counted - rest && subscribers == |seen|
        decreases rest
      {
        var client :| client in rest;
        if present[client] || client in usersConnected {
          seen := seen + {client};
          subscribers := subscribers + 1;
        }
        rest := rest - {client};
      }
      assert seen == counted;
    }

    method AddMessage(topic: Text, text: Text, kind: byte, source: Source) returns (err: ECode)
      requires Valid()
      modifies this
      ensures Valid() && hist == Apply(old(hist), ForumState.AddMessage(topic, text, kind, source))
      ensures Contents() == DoAddMessage(old(Contents()), topic, text, kind, source)
      ensures err == OK
    {
      ghost var after := Apply(hist, ForumState.AddMessage(topic, text, kind, source));
      if topic !in topicSubscriptions {
        topicSubscriptions := topicSubscriptions[topic := map[]];
      }
      var subscribers := CountReceivers(topicSubscriptions[topic]);
      if subscribers > 0 {
        lastMessageId := lastMessageId + 1;
        var m := Message(lastMessageId, text, kind, source, subscribers);
        messages := messages[topic := (if topic in messages then messages[topic] else []) + [m]];
      }
      hist := after;
      return OK;
    }

    /** The inner loop of GetUserMessages: one topic's list, walked by an iterator that erases. */
    method TakeFrom(stored: seq<Message>, last: nat) returns (list: seq<Message>, taken: seq<Message>)
      ensures taken == Handed(stored, last)
      ensures list == Kept(stored, last)
    {
      list, taken := stored, [];
      var it := 0;
      ghost var j, done: seq<Message> := 0, [];
      while it < |list|
        invariant j <= |stored| && it == |done|
        invariant list == done + stored[j..]
        invariant taken + Handed(stored[j..], last) == Handed(stored, last)
        invariant done + Kept(stored[j..], last) == Kept(stored, last)
        decreases |stored| - j
      {
        TakeStep(stored, j, last, taken, done);
        var message := list[it];
        if message.id > last {
          taken := taken + [message];
          message := message.(refCount := message.refCount - 1);
          list := list[it := message];
        }
        EraseStep(done, stored, j, message);
        if message.refCount == 0 {
          list := list[..it] + list[it + 1..];
        } else {
          it, done := it + 1, done + [message];
        }
        j := j + 1;
      }
    }

    method WalkTopic(topic: Text, last: nat) returns (taken: seq<Message>)
      modifies this`messages
      ensures messages == old(messages)[topic := Kept(ListAt(old(messages), topic), last)]
      ensures taken == Handed(ListAt(old(messages), topic), last)
    {
      if topic !in messages {
        messages := messages[topic := []];
      }
      var list;
      list, taken := TakeFrom(messages[topic], last);
      messages := messages[topic := list];
    }

    /** The outer loop of GetUserMessages over the client's topics. */
    method WalkTopics(topics: set<Text>, last: nat) returns (result: seq<(Text, seq<Message>)>)
      modifies this`messages
      ensures messages == Walked(old(messages), topics, last)
      ensures Lists(result, HandedFrom(old(messages), topics, last))
    {
      ghost var store := messages;
      var rest := topics;
      ghost var done: set<Text> := {};
      result := [];
      assert messages == Walked(store, {}, last);
      while rest != {}
        invariant done + rest == topics && done !! rest
        invariant messages == Walked(store, done, last)
        invariant Lists(result, HandedFrom(store, done, last))
        decreases rest
      {
        var topic :| topic in rest;
        WalkStep(store, done, topic, last);
        ListsStep(result, HandedFrom(store, done, last), topic, Handed(ListAt(store, topic), last));
        var taken := WalkTopic(topic, last);
        result := result + [(topic, taken)];
        rest, done := rest - {topic}, done + {topic};
      }
      assert done == topics;
    }

    method GetUserMessages(client: Text) returns (result: seq<(Text, seq<Message>)>)
      requires Valid()
      modifies this
      ensures Valid() && hist == Apply(old(hist), ForumState.GetUserMessages(client))
      ensures Contents() == DoGetUserMessages(old(Contents()), client)
      ensures Lists(result, UserMessages(old(Contents()), client))
    {
      ghost var after := Apply(hist, ForumState.GetUserMessages(client));
      if client !in usersSubscribed {
        usersSubscribed := usersSubscribed[client := User({}, 0)];
      }
      var user := usersSubscribed[client];
      result := WalkTopics(user.topics, user.lastMsgId);
      usersSubscribed := usersSubscribed[client := usersSubscribed[client].(lastMsgId := lastMessageId)];
      hist := after;
    }

    method SetConnectionStatus(client: Text, status: bool)
      requires Valid()
      modifies this
      ensures Valid() && hist == Apply(old(hist), ForumState.SetConnectionStatus(client, status))
      ensures Contents() == DoSetConnectionStatus(old(Contents()), client, status)
    {
      ghost var after := Apply(hist, ForumState.SetConnectionStatus(client, status));
      if status {
        usersConnected := usersConnected + {client};
      } else {
        usersConnected := usersConnected - {client};
      }
      hist := after;
    }
  }
}
