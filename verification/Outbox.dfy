/** What one round of delivery puts on the wire: each result with the connection it is sent on, and how the
    streams of the connections grow. */
module Outbox {
  import opened Bytes
  import opened ByteOrder
  import opened Messages
  import opened Connection
  import opened Framing
  import opened ForumState
  import opened Forums

  predicate Distinct(clients: seq<TCPClient>) {
    forall i, j :: 0 <= i < j < |clients| ==> clients[i] != clients[j]
  }

  lemma WireOne(msg: seq<byte>)
    ensures Wire([msg]) == Prefixed(msg)
  {
    assert [msg][1..] == [];
  }

  lemma {:induction false} WireAppend(msgs: seq<seq<byte>>, more: seq<seq<byte>>)
    ensures Wire(msgs + more) == Wire(msgs) + Wire(more)
    decreases |msgs|
  {
    if msgs == [] {
      assert [] + more == more;
    } else {
      WireAppend(msgs[1..], more);
      assert (msgs + more)[1..] == msgs[1..] + more;
    }
  }

  function MessageBytes(topic: Text, m: Message): seq<byte> {
    EncodeMessage(Shown(PostData(topic, m.kind, m.text), m.source.ip, m.source.port))
  }

  function ListBytes(topic: Text, ms: seq<Message>): seq<seq<byte>> {
    seq(|ms|, i requires 0 <= i < |ms| => MessageBytes(topic, ms[i]))
  }

  function AllBytes(lists: seq<(Text, seq<Message>)>): seq<seq<byte>> {
    if lists == [] then [] else AllBytes(lists[..|lists| - 1]) + ListBytes(lists[|lists| - 1].0, lists[|lists| - 1].1)
  }

  lemma OneMessage(topic: Text, ms: seq<Message>, j: nat)
    requires j < |ms|
    ensures Wire(ListBytes(topic, ms[..j + 1])) == Wire(ListBytes(topic, ms[..j])) + Prefixed(MessageBytes(topic, ms[j]))
  {
    WireAppend(ListBytes(topic, ms[..j]), [MessageBytes(topic, ms[j])]);
    WireOne(MessageBytes(topic, ms[j]));
    assert ListBytes(topic, ms[..j + 1]) == ListBytes(topic, ms[..j]) + [MessageBytes(topic, ms[j])];
  }

  lemma OneList(lists: seq<(Text, seq<Message>)>, i: nat)
    requires i < |lists|
    ensures Wire(AllBytes(lists[..i + 1])) == Wire(AllBytes(lists[..i])) + Wire(ListBytes(lists[i].0, lists[i].1))
  {
    WireAppend(AllBytes(lists[..i]), ListBytes(lists[i].0, lists[i].1));
    assert lists[..i + 1][..i] == lists[..i];
  }

  // ---- Results ----

  /** One `GetUserMessages` result and the connection it is sent on. */
  datatype Outgoing = Outgoing(to: TCPClient, lists: seq<(Text, seq<Message>)>)

  function Recipients(outbox: seq<Outgoing>): (r: seq<TCPClient>)
    ensures |r| == |outbox|
  {
    seq(|outbox|, k requires 0 <= k < |outbox| => outbox[k].to)
  }

  /** The announced clients, in the order of the table. */
  function Announcing(clients: seq<TCPClient>): seq<TCPClient>
    reads clients`peer
  {
    if clients == [] then []
    else
      var last := clients[|clients| - 1];
      Announcing(clients[..|clients| - 1]) + if last.peer.clientId == [] then [] else [last]
  }

  /** The messages among some results that go out on one connection. */
  function MessagesTo(outbox: seq<Outgoing>, c: TCPClient): seq<seq<byte>> {
    if outbox == [] then []
    else
      var last := outbox[|outbox| - 1];
      MessagesTo(outbox[..|outbox| - 1], c) + if last.to == c then AllBytes(last.lists) else []
  }

  ghost function SentSoFar(clients: seq<TCPClient>): map<TCPClient, seq<byte>>
    reads clients`sent
  {
    map c | c in clients :: c.sent
  }

  /** Each connection has sent what it had at `base`, and its messages among the results. */
  ghost predicate Grown(now: map<TCPClient, seq<byte>>, base: map<TCPClient, seq<byte>>, outbox: seq<Outgoing>) {
    forall c :: c in now ==> c in base && now[c] == base[c] + Wire(MessagesTo(outbox, c))
  }

  lemma GrownMore(now: map<TCPClient, seq<byte>>, base: map<TCPClient, seq<byte>>, outbox: seq<Outgoing>, out: Outgoing)
    requires Grown(now, base, outbox) && out.to in now
    ensures Grown(now[out.to := now[out.to] + Wire(AllBytes(out.lists))], base, outbox + [out])
  {
    var more, later := outbox + [out], now[out.to := now[out.to] + Wire(AllBytes(out.lists))];
    assert more[..|outbox|] == outbox;
    forall c | c in later
      ensures c in base && later[c] == base[c] + Wire(MessagesTo(more, c))
    {
      if c == out.to {
        WireAppend(MessagesTo(outbox, c), AllBytes(out.lists));
        Associative(base[c], Wire(MessagesTo(outbox, c)), Wire(AllBytes(out.lists)));
      } else {
        assert MessagesTo(more, c) == MessagesTo(outbox, c);
      }
    }
  }

  /** The results are the newest batches of the log, in order, each sent to the client it was logged for. */
  ghost predicate Sent(outbox: seq<Outgoing>, log: seq<Batch>, clients: seq<TCPClient>)
    reads clients`peer
  {
    |outbox| <= |log| && forall k :: 0 <= k < |outbox| ==> Carries(outbox[k], log[|log| - |outbox| + k], clients)
  }

  ghost predicate Carries(out: Outgoing, b: Batch, clients: seq<TCPClient>)
    reads clients`peer
  {
    Lists(out.lists, b.lists) && out.to in clients && out.to.peer.clientId == b.client
  }

  lemma MoreSent(outbox: seq<Outgoing>, log: seq<Batch>, out: Outgoing, b: Batch, clients: seq<TCPClient>)
    requires Sent(outbox, log, clients) && Carries(out, b, clients)
    ensures Sent(outbox + [out], log + [b], clients)
  {
    var more, log' := outbox + [out], log + [b];
    forall k | 0 <= k < |more|
      ensures Carries(more[k], log'[|log'| - |more| + k], clients)
    {
      if k < |outbox| {
        assert log'[|log'| - |more| + k] == log[|log| - |outbox| + k];
      }
    }
  }

  // ---- One round ----

  /** A round that has served the first `n` connections. */
  ghost predicate Round(outbox: seq<Outgoing>, before: seq<Batch>, log: seq<Batch>, clients: seq<TCPClient>, n: nat,
                        now: map<TCPClient, seq<byte>>, base: map<TCPClient, seq<byte>>)
    reads clients`peer
  {
    && n <= |clients| && before <= log && |log| == |before| + |outbox|
    && Recipients(outbox) == Announcing(clients[..n])
    && Sent(outbox, log, clients) && Grown(now, base, outbox)
  }

  /** What these connections, and perhaps others, had sent at some moment. */
  ghost predicate HadSent(clients: seq<TCPClient>, base: map<TCPClient, seq<byte>>)
    reads clients`sent
  {
    forall c :: c in clients ==> c in base && base[c] == c.sent
  }

  lemma RoundStart(before: seq<Batch>, clients: seq<TCPClient>, now: map<TCPClient, seq<byte>>,
                   base: map<TCPClient, seq<byte>>)
    requires forall c :: c in now ==> c in base && base[c] == now[c]
    ensures Round([], before, before, clients, 0, now, base)
  {
    assert forall c :: c in base ==> base[c] + [] == base[c];
  }

  lemma RoundSkips(outbox: seq<Outgoing>, before: seq<Batch>, log: seq<Batch>, clients: seq<TCPClient>, n: nat,
                   now: map<TCPClient, seq<byte>>, base: map<TCPClient, seq<byte>>)
    requires Round(outbox, before, log, clients, n, now, base)
    requires n < |clients| && clients[n].peer.clientId == []
    ensures Round(outbox, before, log, clients, n + 1, now, base)
  {
    NextAnnounced(clients, n);
  }

  lemma RoundServes(outbox: seq<Outgoing>, before: seq<Batch>, log: seq<Batch>, clients: seq<TCPClient>, n: nat,
                    now: map<TCPClient, seq<byte>>, base: map<TCPClient, seq<byte>>, out: Outgoing, b: Batch)
    requires Round(outbox, before, log, clients, n, now, base)
    requires n < |clients| && clients[n] == out.to && out.to.peer.clientId != [] && out.to in now
    requires Carries(out, b, clients)
    ensures Round(outbox + [out], before, log + [b], clients, n + 1,
                  now[out.to := now[out.to] + Wire(AllBytes(out.lists))], base)
  {
    MoreSent(outbox, log, out, b, clients);
    GrownMore(now, base, outbox, out);
    NextAnnounced(clients, n);
    NextRecipient(outbox, out);
  }

  lemma NextRecipient(outbox: seq<Outgoing>, out: Outgoing)
    ensures Recipients(outbox + [out]) == Recipients(outbox) + [out.to]
  {
  }

  lemma NextAnnounced(clients: seq<TCPClient>, n: nat)
    requires n < |clients|
    ensures Announcing(clients[..n + 1]) ==
            Announcing(clients[..n]) + if clients[n].peer.clientId == [] then [] else [clients[n]]
  {
    assert clients[..n + 1][..n] == clients[..n];
  }

  // ---- What a round leaves ----

  /** The log has grown by one batch for each announced client, in the order of the table; each of these
      batches goes to its client on its own connection, and that is all the connections have sent. */
  ghost predicate SentOut(outbox: seq<Outgoing>, before: seq<Batch>, log: seq<Batch>, clients: seq<TCPClient>,
                            base: map<TCPClient, seq<byte>>)
    reads clients`peer, clients`sent
  {
    && before <= log && |log| == |before| + |outbox|
    && Recipients(outbox) == Announcing(clients) && Sent(outbox, log, clients)
    && Grown(SentSoFar(clients), base, outbox)
  }

  lemma RoundEnds(outbox: seq<Outgoing>, before: seq<Batch>, log: seq<Batch>, clients: seq<TCPClient>,
                  base: map<TCPClient, seq<byte>>)
    requires Round(outbox, before, log, clients, |clients|, SentSoFar(clients), base)
    ensures SentOut(outbox, before, log, clients, base)
  {
    assert clients[..|clients|] == clients;
  }

  /** An announced client has been sent the messages of the one batch logged for it in the round, and any
      other connection nothing. */
  ghost predicate OwnBatch(c: TCPClient, outbox: seq<Outgoing>, log: seq<Batch>, base: map<TCPClient, seq<byte>>)
    requires |outbox| <= |log|
    reads c
  {
    && c in base
    && if c.peer.clientId == [] then c.sent == base[c]
       else
         exists k :: 0 <= k < |outbox| && outbox[k].to == c &&
           var b := log[|log| - |outbox| + k];
           b.client == c.peer.clientId && Lists(outbox[k].lists, b.lists) &&
           c.sent == base[c] + Wire(AllBytes(outbox[k].lists))
  }

  lemma {:induction false} NothingTo(outbox: seq<Outgoing>, c: TCPClient)
    requires c !in Recipients(outbox)
    ensures MessagesTo(outbox, c) == []
  {
    if outbox != [] {
      var n := |outbox| - 1;
      assert Recipients(outbox)[n] == outbox[n].to;
      assert Recipients(outbox[..n]) == Recipients(outbox)[..n];
      NothingTo(outbox[..n], c);
    }
  }

  lemma {:induction false} OnceTo(outbox: seq<Outgoing>, c: TCPClient, k: nat)
    requires k < |outbox| && outbox[k].to == c && Distinct(Recipients(outbox))
    ensures MessagesTo(outbox, c) == AllBytes(outbox[k].lists)
  {
    var n := |outbox| - 1;
    var init := outbox[..n];
    assert Recipients(init) == Recipients(outbox)[..n];
    assert Recipients(outbox)[k] == c && Recipients(outbox)[n] == outbox[n].to;
    if k == n {
      NothingTo(init, c);
    } else {
      OnceTo(init, c, k);
    }
  }

  lemma {:induction false} AnnouncingAre(clients: seq<TCPClient>)
    requires Distinct(clients)
    ensures Distinct(Announcing(clients))
    ensures forall c :: c in Announcing(clients) <==> c in clients && c.peer.clientId != []
  {
    if clients != [] {
      var n := |clients| - 1;
      AnnouncingAre(clients[..n]);
      assert clients == clients[..n] + [clients[n]];
    }
  }

  /** Whatever a round hands out is sent: once, and to whom it is for. */
  lemma EachItsBatch(outbox: seq<Outgoing>, before: seq<Batch>, log: seq<Batch>, clients: seq<TCPClient>,
                     base: map<TCPClient, seq<byte>>)
    requires Distinct(clients) && SentOut(outbox, before, log, clients, base)
    ensures forall c :: c in clients ==> OwnBatch(c, outbox, log, base)
    ensures Distinct(Recipients(outbox))
  {
    AnnouncingAre(clients);
    forall c | c in clients
      ensures OwnBatch(c, outbox, log, base)
    {
      OwnBatchOf(c, outbox, log, clients, base);
    }
  }

  lemma OwnBatchOf(c: TCPClient, outbox: seq<Outgoing>, log: seq<Batch>, clients: seq<TCPClient>,
                   base: map<TCPClient, seq<byte>>)
    requires c in clients && Distinct(Recipients(outbox)) && Sent(outbox, log, clients)
    requires c in Recipients(outbox) <==> c.peer.clientId != []
    requires Grown(SentSoFar(clients), base, outbox)
    ensures OwnBatch(c, outbox, log, base)
  {
    assert SentSoFar(clients)[c] == c.sent;
    if c.peer.clientId == [] {
      NothingTo(outbox, c);
      assert base[c] + [] == base[c];
    } else {
      var k :| 0 <= k < |outbox| && Recipients(outbox)[k] == c;
      OnceTo(outbox, c, k);
      assert Carries(outbox[k], log[|log| - |outbox| + k], clients);
    }
  }
}
