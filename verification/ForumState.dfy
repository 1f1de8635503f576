/** The state of `Forums` as a value, what each of its calls does to that value, and the history
    of one run: what was published, to whom it was promised, and what was handed out. */
module ForumState {
  import opened Bytes

  datatype Source = Source(ip: nat, port: nat)

  /** A stored message; `refCount` is the number of deliveries still expected. */
  datatype Message = Message(id: nat, text: Text, kind: byte, source: Source, refCount: int)

  datatype User = User(topics: set<Text>, lastMsgId: nat)

  /** The five fields of `Forums`; a topic's subscriber set maps each client id to its sf flag. */
  datatype State = State(
    lastId: nat,
    messages: Store,
    users: map<Text, User>,
    subs: map<Text, map<Text, bool>>,
    connected: set<Text>)

  const EMPTY := State(0, map[], map[], map[], {})

  type Store = map<Text, seq<Message>>

  /** `_messages[topic]`, where a missing key reads as an empty list. */
  function ListAt(store: Store, topic: Text): seq<Message> {
    if topic in store then store[topic] else []
  }

  function Msgs(s: State, topic: Text): seq<Message> {
    ListAt(s.messages, topic)
  }

  function Subs(s: State, topic: Text): map<Text, bool> {
    if topic in s.subs then s.subs[topic] else map[]
  }

  /** `_usersSubscribed[client]`, where a missing key reads as the zero-initialised entry. */
  function UserOf(s: State, client: Text): User {
    if client in s.users then s.users[client] else User({}, 0)
  }

  /** The subscribers a publication counts: online ones, and offline ones with sf set. */
  function Counting(subscribers: map<Text, bool>, connected: set<Text>): set<Text> {
    set c | c in subscribers && (subscribers[c] || c in connected)
  }

  function Counted(s: State, topic: Text): set<Text> {
    Counting(Subs(s, topic), s.connected)
  }

  function DoSubscribe(s: State, client: Text, topic: Text, sf: bool): State {
    if client in Subs(s, topic) then s
    else
      var user := if client in s.users then s.users[client] else User({}, s.lastId);
      s.(subs := s.subs[topic := Subs(s, topic)[client := sf]],
         users := s.users[client := user.(topics := user.topics + {topic})])
  }

  function DoUnsubscribe(s: State, client: Text, topic: Text): State {
    var user := UserOf(s, client);
    s.(subs := s.subs[topic := Subs(s, topic) - {client}],
       users := s.users[client := user.(topics := user.topics - {topic})])
  }

  function DoAddMessage(s: State, topic: Text, text: Text, kind: byte, source: Source): State {
    var s0 := s.(subs := s.subs[topic := Subs(s, topic)]);
    var counted := Counted(s, topic);
    if counted == {} then s0
    else
      var m := Message(s.lastId + 1, text, kind, source, |counted|);
      s0.(lastId := s.lastId + 1, messages := s.messages[topic := Msgs(s, topic) + [m]])
  }

  /** What a client whose high-water mark is `last` is handed from one stored list. */
  function Handed(ms: seq<Message>, last: nat): seq<Message> {
    if ms == [] then []
    else (if ms[0].id > last then [ms[0]] else []) + Handed(ms[1..], last)
  }

  /** What stays stored: counts go down by one on the way, and a count of zero erases. */
  function Kept(ms: seq<Message>, last: nat): seq<Message> {
    if ms == [] then []
    else
      var m := if ms[0].id > last then ms[0].(refCount := ms[0].refCount - 1) else ms[0];
      (if m.refCount == 0 then [] else [m]) + Kept(ms[1..], last)
  }

  /** The stored lists once those of `topics` have been walked for a high-water mark. */
  function Walked(store: Store, topics: set<Text>, last: nat): Store {
    map t | t in store.Keys + topics ::
      if t in topics then Kept(ListAt(store, t), last) else store[t]
  }

  function DoGetUserMessages(s: State, client: Text): State {
    var user := UserOf(s, client);
    s.(messages := Walked(s.messages, user.topics, user.lastMsgId),
       users := s.users[client := user.(lastMsgId := s.lastId)])
  }

  function HandedFrom(store: Store, topics: set<Text>, last: nat): Store {
    map t | t in topics :: Handed(ListAt(store, t), last)
  }

  /** The lists returned by the call, one per subscribed topic. */
  function UserMessages(s: State, client: Text): Store {
    HandedFrom(s.messages, UserOf(s, client).topics, UserOf(s, client).lastMsgId)
  }

  function DoSetConnectionStatus(s: State, client: Text, status: bool): State {
    s.(connected := if status then s.connected + {client} else s.connected - {client})
  }

  // ---- Histories ----

  /** A post that got an id: its content, whom it counted, and which subscribers it skipped (offline
      with sf unset). */
  datatype Publication = Publication(
    topic: Text, text: Text, kind: byte, source: Source, counted: set<Text>, skipped: set<Text>)

  /** What one `GetUserMessages` call returned to one client. */
  datatype Batch = Batch(client: Text, lists: Store)

  datatype History = History(forum: State, published: map<nat, Publication>, log: seq<Batch>)

  const FRESH := History(EMPTY, map[], [])

  datatype Call =
    | Subscribe(client: Text, topic: Text, sf: bool)
    | Unsubscribe(client: Text, topic: Text)
    | AddMessage(topic: Text, text: Text, kind: byte, source: Source)
    | GetUserMessages(client: Text)
    | SetConnectionStatus(client: Text, status: bool)

  function Apply(h: History, call: Call): History {
    var s := h.forum;
    match call
    case Subscribe(c, t, sf) => h.(forum := DoSubscribe(s, c, t, sf))
    case Unsubscribe(c, t) => h.(forum := DoUnsubscribe(s, c, t))
    case AddMessage(t, text, kind, source) =>
      var next := DoAddMessage(s, t, text, kind, source);
      if Counted(s, t) == {} then h.(forum := next)
      else h.(forum := next,
              published := h.published[s.lastId + 1 :=
                Publication(t, text, kind, source, Counted(s, t), Subs(s, t).Keys - Counted(s, t))])
    case GetUserMessages(c) =>
      h.(forum := DoGetUserMessages(s, c), log := h.log + [Batch(c, UserMessages(s, c))])
    case SetConnectionStatus(c, status) => h.(forum := DoSetConnectionStatus(s, c, status))
  }

  function RunCalls(h: History, calls: seq<Call>): History
    decreases |calls|
  {
    if calls == [] then h else RunCalls(Apply(h, calls[0]), calls[1..])
  }

  ghost predicate HasId(ms: seq<Message>, id: nat) {
    exists m :: m in ms && m.id == id
  }

  ghost predicate BatchHas(b: Batch, id: nat) {
    exists t :: t in b.lists && HasId(b.lists[t], id)
  }

  /** The clients that have been handed message `id`. */
  ghost function Receivers(log: seq<Batch>, id: nat): set<Text> {
    if log == [] then {}
    else
      var last := log[|log| - 1];
      Receivers(log[..|log| - 1], id) + (if BatchHas(last, id) then {last.client} else {})
  }

  /** The remaining count of message `id` in a stored list, 0 when it is not there. */
  function RefOf(ms: seq<Message>, id: nat): int {
    if ms == [] then 0 else if ms[0].id == id then ms[0].refCount else RefOf(ms[1..], id)
  }

  /** The subscribers of a topic whose high-water mark is still below `id`. */
  function Pending(s: State, topic: Text, id: nat): set<Text> {
    set c | c in Subs(s, topic) && c in s.users && s.users[c].lastMsgId < id
  }
}
