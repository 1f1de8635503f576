# Store-and-forward messaging: model and proofs

The repository is a small publish/subscribe system. A server takes posts over UDP, stores each one
under its topic with an incremental id and a count of expected recipients, and delivers them over TCP
to subscribers, at once or when they come back. It bundles a header-only formatting library, whose
big integers, digit loops and UTF-8 decoder are part of this model.

The project has three parts.

**Delivery.** `ForumState` says what each `Forums` call does to the stored lists, subscriptions and
high-water marks; the class in `Forums` works step by step (counting loop, iterator that erases) and is
proved to do exactly that. `ForumLaws` proves what any sequence of calls keeps. `ServerTick` is one tick
of the server over sessions, packet queues and posts in the fixed order of `Server::Run`; the classes in
`Server` are proved to take that step, with `Outbox` for what it sends, `ServerLoop` the whole loop body from
bytes received to bytes sent, and `ServerRun` the loop from an empty server.
`Requests` says of every packet what it does to sessions and subscriptions, `Publications` which posts of a
tick get an id and whom they count, each from the bytes received, and `Subscriptions` follows a subscription
over runs. `ServerLaws`, `TickLaws`, `DeliveryLaws` and `Promise` prove what every run of ticks keeps,
`Overtaken` is a run in which delivery goes wrong, and `Origins` follows each message from the post to the
subscriber's screen.

**Bytes on the wire.** `BitStream`, `ByteOrder`, `Framing`, `Connection`, `NetworkObjects`, `NumberLaws`,
`Messages` and `Client` model the stream, the integers in network order, the 16-bit length frames, their
reassembly from arbitrary chunks, and the encoders and decoders; `Posts` and `WireFormat` say what they do byte
by byte.

**Exact arithmetic and text.** `Bigits`, `BigintMul`, `BigintSquare`, `BigintOrder` and `Bigint` model
`bigint`; `ShortestDigits` and `FallbackFormat` the shortest-digit loop; `FloatBits` doubles as bits and how
decimals are read, `FallbackSetUp` the printer from a double to its digits; `RoundedProduct` the rounded 64-bit
product; `Decimal` digit counting, printing and parsing; `Utf8` the decoder and the transcoder.

Class methods that change state are proved against a function of the old state, and the laws are
proved about those functions.

## Where the code and its description differ

- README.md:66-68 says that a message whose `ref_count` reached 0 was sent to everyone who was subscribed
  when it arrived. A subscriber that is offline with SF=0 is not counted (src/server/Forums.cpp:34), yet
  takes a share of the count if it is back while the message is still stored
  (src/server/Forums.cpp:62-64). `Promise.PromiseKept` proves that the claim holds in every continuation
  if and only if the post skipped nobody. Read for the counted subscribers only, it holds if and only if
  the post skipped nobody or found every counted subscriber online at the end of its tick
  (`Promise.CountedPromiseKept`). `Overtaken.OvertakenRun` is a run of the server from its start in which
  the message is erased and the one counted subscriber, back online, never got it.
- `bigint::subtract_aligned` keeps paying a borrow at the same digit (include/fmt/format-inl.h:544).
  `Bigint.Bigint.SubtractAligned` proves it right if and only if the borrow out of the digits of `other`
  does not meet a zero digit; `Bigint.Stalling` has operands where it does.
- `compare` reports a difference between equal numbers when one stores low zero digits that the other
  keeps in its exponent (include/fmt/format-inl.h:636). `Bigint.Compare` proves its result right if and
  only if that is not the case, and `Bigint.ComparedUnequal` has such operands.
- The digit loop of `fallback_format` compares the remainder with the lower distance
  (include/fmt/format-inl.h:1022), and alignment in `divmod_assign` can leave the two with different
  exponents. `FallbackFormat.FallbackDigits` proves that the loop writes the shortest decimal if and only
  if that decimal is not a lower boundary, with an even significand, that the exponents hide in this way.
  `FallbackFormat.LostBoundary` runs it on the numbers the set-up makes of 8344650268554688 * 2^40, for
  which it does not write the shortest decimal, 917504.

- The comment at include/fmt/format-inl.h:1016 promises that the set-up keeps the value of the double. Its first
  case shifts the denominator by one bit where the numerator is shifted by two (include/fmt/format-inl.h:993),
  so that a power of two with a non-negative exponent is stored twice over. `FallbackSetUp.InvariantIff` proves
  that the promise holds if and only if the double is not such a power, and `FallbackSetUp.PrintDouble` that the
  digits are read back as the double if and only if it is not. `FallbackSetUp.DoubledPower` runs it on 2^55:
  its digits are read as 2^56.

## Model

| member | source | states |
|---|---|---|
| `Forums.Forums.Subscribe` | src/server/Forums.cpp:8-21 | the new state and history are those of a subscription; an error exactly when the client was subscribed already |
| `Forums.Forums.Unsubscribe` | src/server/Forums.cpp:23-28 | both indexes lose the pair, whether or not it was there |
| `Forums.Forums.CountReceivers` | src/server/Forums.cpp:32-35 | the loop counts exactly the subscribers with SF or online |
| `Forums.Forums.AddMessage` | src/server/Forums.cpp:30-49 | a message with the next id and that count is appended, nothing when the count is zero |
| `Forums.Forums.TakeFrom` | src/server/Forums.cpp:58-73 | the erasing iterator hands out exactly the messages above the mark and leaves exactly those still due |
| `Forums.Forums.GetUserMessages` | src/server/Forums.cpp:51-80 | one list per topic of the client, every mark and stored list updated |
| `Forums.Forums.SetConnectionStatus` | src/server/Forums.cpp:82-90 | the client is online or not, nothing else changes |
| `ForumLaws.ApplyLawful` | src/server/Forums.cpp:8-90 | every call, in any state, keeps the index agreement, sorted lists bounded by the last id, marks, order and conservation |
| `ForumLaws.RunLawful` | src/server/Forums.cpp:8-90 | any sequence of calls keeps all of these |
| `ForumLaws.LaterIsNewer` | src/server/Forums.cpp:55-79 | after any calls, each id a client got by a later call exceeds each id it got by an earlier one |
| `ForumLaws.BatchIsOrdered` | src/server/Forums.cpp:55-76 | within one call each topic's ids strictly ascend and no id comes under two topics |
| `ForumLaws.BatchIs` | src/server/Forums.cpp:58-65 | a message is handed out exactly when its topic is subscribed, stores it, and its id is above the caller's mark |
| `ForumLaws.CollectsExactly` | src/server/Forums.cpp:51-80 | a call returns a list for each topic of its caller with exactly the stored messages above its mark, each of which is expected once less and erased at zero; all else but the caller's mark is left alone |
| `ForumLaws.DuePlusDelivered` | src/server/Forums.cpp:32-72 | after any calls, remaining count plus distinct receivers is the count at publication, and the message is stored exactly while receivers are fewer than that |
| `ServerLaws.HandedWhenPending` | src/server/Forums.cpp:58-65 | a call hands a stored message to its caller exactly when the caller is pending on it |
| `ServerLaws.PendingAfter` | src/server/Forums.cpp:78 | after collecting, exactly the caller has left what is pending, for every topic and id |
| `ServerLaws.GetUserMessagesPending` | src/server/Forums.cpp:51-80 | collecting keeps the pending law of every message |
| `ServerLaws.AddMessagePending` | src/server/Forums.cpp:30-49 | a new message is pending for every subscriber of its topic, counted or not, and older ones keep theirs |
| `TickLaws.DispatchSound` | src/server/Server.cpp:182-265 | every RPC keeps the session table and the forum in agreement |
| `TickLaws.VouchedInTurn` | src/server/Server.cpp:164-166 | when a packet's turn comes, its stamped id is still that of the live connection it came from, and that client is up to date |
| `TickLaws.AppliedUnderSender` | src/server/Server.cpp:182-264 | in every tick each subscribe or unsubscribe is applied under the id its live connection has at that moment, and one from an unannounced connection only kicks it |
| `TickLaws.ProcessSound` | src/server/TCPServer.cpp:94-120 | draining the queues and dropping ended connections keeps the agreement and publishes, hands out and erases nothing |
| `TickLaws.SenderVouches` | src/server/TCPClient.cpp:84-88 | the id a packet was stamped with is the one its live connection had before the tick, and that client is up to date |
| `TickLaws.ServeSound` | src/server/Server.cpp:45-57 | before posts are processed the online ids are exactly the announced sessions, and every client announced in an earlier tick has the last id as its mark |
| `TickLaws.DeliverSound` | src/server/Server.cpp:282-306 | delivery keeps the laws, hands messages only to online clients they were pending for, and brings every online client up to date |
| `TickLaws.TickAtRest` | src/server/Server.cpp:45-57 | one tick keeps the whole invariant: laws, pending law, session agreement, everyone online up to date |
| `TickLaws.RunAtRest` | src/server/Server.cpp:45-57 | every run of ticks keeps it |
| `Promise.ReachedInvariants` | src/server/Server.cpp:45-57 | every state reached from the start satisfies the whole invariant, and client ids are non-empty texts of at most 65535 bytes |
| `DeliveryLaws.PendingCount` | src/server/Forums.cpp:30-80 | a stored message has exactly `ref_count` plus the subscribers skipped at publication still below it, at least one |
| `DeliveryLaws.NeverStranded` | src/server/Forums.cpp:62-72 | between ticks each stored message awaits an offline subscriber, and nobody online |
| `DeliveryLaws.ExactlyOnce` | src/server/Forums.cpp:32-72 | with nobody skipped: only counted clients receive it, all online ones have it, and it is erased exactly when all have it |
| `DeliveryLaws.OnceEach` | src/server/Forums.cpp:62-65 | no client is handed the same message twice: by two calls, under two topics or twice in a list |
| `DeliveryLaws.TickDelivers` | src/server/Server.cpp:282-306 | with nobody skipped, a tick delivers a message to exactly the counted clients that are online at its end and lack it |
| `DeliveryLaws.FirstComeFirstServed` | src/server/Forums.cpp:58-72 | whoever was skipped: a tick hands an older message to online subscribers of its post that lack it, to all of them or to as many as its count still allows |
| `DeliveryLaws.TickEffects` | src/server/Server.cpp:45-57 | whatever was skipped: publications are never altered, new receivers are online, erased messages stay erased with the same receivers |
| `Promise.AfterPost` | src/server/Forums.cpp:32-46 | at the end of the tick of a post exactly the counted clients that are online have it, and it is stored exactly when some counted client is offline; counted are the subscribers of its topic whose flag is set or who are announced on a live connection, and all other subscribers are skipped |
| `Promise.PromiseKept` | README.md:66-68 | for every reached state and post: in every continuation an erased message has been sent to everyone subscribed at its post, if and only if nobody was skipped |
| `Promise.CountedPromiseKept` | README.md:66-68 | the same for those counted, if and only if nobody was skipped or all counted clients were online |
| `Promise.OnlyCountedKept` | src/server/Forums.cpp:32-35 | no continuation hands the message to an uncounted client, under the same condition |
| `Promise.Drains` | src/server/Forums.cpp:62-72 | from any reached state a stored message is erased by waiting clients that come back one at a time |
| `Promise.Overtakes` | src/server/Forums.cpp:62-64 | from a stored message with a waiting skipped subscriber, a continuation in which it is handed the message, which is erased before every counted client has it |
| `Overtaken.OvertakenRun` | src/server/Forums.cpp:34 | a run of thirteen ticks from the start: two clients connect, announce, subscribe and leave, a post arrives, both come back; the message is gone, the counted client is online and only the skipped one has received it |
| `Origins.RunGenuine` | src/server/Server.cpp:135-157 | in every run, everything stored or handed out under an id has the topic, text, type and source of the post that got that id, an accepted post of the run |
| `Origins.ShownWasPosted` | src/server/Server.cpp:290-301 | over any run, all that is sent on one connection for any hand-outs, cut anywhere, is reassembled and shown by the client line by line as the messages handed out, each an accepted post of that run |
| `Origins.SentIsHandedOut` | src/server/Server.cpp:290-301 | what a tick sends are hand-outs of its log and of every later one |
| `Publications.TickPublishes` | src/server/Server.cpp:135-157 | in a tick exactly the datagrams that are posts and count somebody get an id, one each and in order of arrival; each publication has the topic, text, type and source of its datagram, and counts a subscriber if and only if its flag is set or it is announced on a live connection |
| `Publications.NewlyPublished` | src/server/Forums.cpp:32-46 | whatever is published in a tick is the post of one of its datagrams, and somebody is counted for it |
| `Publications.RunPublishes` | src/server/Server.cpp:135-157 | in every run the ids given are the places of the stored posts in their order of arrival, each published with its content and audience |
| `Requests.PacketDoes` | src/server/Server.cpp:164-265 | every packet, byte by byte: without a live sender, empty, of unknown type or type 4 nothing; from an unannounced sender anything but an announcement costs the connection; 1 announces, 2 subscribes if its flag byte is there, 3 unsubscribes if its topic is not empty |
| `Requests.AnnounceIs` | src/server/Server.cpp:192-219 | an id that is empty or that any live connection holds costs exactly the sender its connection and takes its own client offline; a second id of an announced sender changes nothing; otherwise the connection gets the id and the client is online |
| `Requests.AnnouncementDoes` | src/server/Server.cpp:192-219 | the same for the packet of bytes 1, length, id |
| `Requests.SubscribeIs` | src/server/Forums.cpp:8-21 | a first subscription stores its flag in one index and its topic in the other, a second one changes nothing whatever its flag, a new client is marked at the last id, and every other pair and mark is as before |
| `Requests.UnsubscribeIs` | src/server/Forums.cpp:23-28 | the pair is in neither index afterwards, and every other pair, flag and mark is as before |
| `Requests.BeforeIs` | src/server/TCPServer.cpp:103-110 | what is taken of a queue is its front up to the first end-of-stream packet |
| `Requests.IntakeBrings` | src/server/TCPServer.cpp:94-120 | each connection's packets up to the end of its stream, in order and under its own stamp, one connection after the other in table order |
| `Requests.IntakeKeeps` | src/server/TCPServer.cpp:112-116 | exactly the connections whose stream has ended are gone, the others stay in order, and exactly their clients are offline |
| `Subscriptions.TickTakesIn` | src/server/Server.cpp:48-49 | the same for a tick, the connection accepted in it included at the end of the table |
| `Subscriptions.EndedGone` | src/server/TCPServer.cpp:104-113 | no connection outlives the tick in which its stream ended |
| `Subscriptions.PacketAnswered` | src/server/Server.cpp:221-264 | for every client and topic, a packet changes the subscription exactly when the client itself asks for it on a live connection |
| `Subscriptions.SubscribedInTick` | src/server/Server.cpp:221-243 | a client that subscribes in a tick and does not take it back is subscribed at its end, under its flag |
| `Subscriptions.QuietFlags` | src/server/Forums.cpp:8-28 | over every run a client's subscription and its flag stay as they are until it asks for a change |
| `Subscriptions.MeantWhile` | src/server/Forums.cpp:30-49 | during such a run every post to the topic is for a subscriber, and counts it if its flag is set, online or not; no post is for a client that is not subscribed |
| `Subscriptions.Unsubscribed` | src/server/Forums.cpp:23-28 | a client that has unsubscribed and not subscribed again: no post to the topic from that tick on counts it, skips it or is ever handed to it |
| `ServerTick.FindFd` | src/server/TCPServer.cpp:146-155 | the first session with the descriptor |
| `Server.TCPServer.GetClientByFd` | src/server/TCPServer.cpp:146-155 | the search finds the first connection with the descriptor, null when there is none |
| `Server.TCPServer.GetClientById` | src/server/TCPServer.cpp:135-144 | the first connection that announced the id, null when there is none |
| `Server.TCPServer.AddClient` | src/server/TCPServer.cpp:157-168 | a new connection joins at the end |
| `Server.TCPServer.RemoveClientAt` | src/server/TCPServer.cpp:181-205 | the connection is erased and an announced one goes offline |
| `Server.TCPServer.Kick` | src/server/TCPServer.cpp:170-179 | exactly the kicked connection is dropped |
| `Server.TCPServer.Drain` | src/server/TCPServer.cpp:103-110 | the queue up to an end-of-stream packet moves, in order and with its stamps |
| `Server.TCPServer.Process` | src/server/TCPServer.cpp:94-120 | the walk with an erasing iterator does what the tick says for the table, the queue and the forum, and leaves every queue empty |
| `Server.Server.Announced` | src/server/Server.cpp:192-219 | the announce case with its three refusals |
| `Server.Server.Subscribed` | src/server/Server.cpp:221-243 | a complete request subscribes under the packet's stamped id, an incomplete one changes nothing |
| `Server.Server.Unsubscribed` | src/server/Server.cpp:245-264 | likewise for unsubscribing |
| `Server.Server.HandlePacket` | src/server/Server.cpp:164-265 | unknown senders and invalid RPCs are discarded, unannounced ones kicked, the rest dispatched |
| `Server.Server.ProcessTCPPackets` | src/server/Server.cpp:159-268 | the queue is drained in order |
| `Server.Server.ProcessUDPPackets` | src/server/Server.cpp:135-157 | each datagram that decodes is stored, the others dropped |
| `Server.Server.ProcessForumsMessages` | src/server/Server.cpp:282-307 | one batch is logged for each announced client in table order; it is sent on that client's own connection, as frames, exactly its messages, and nobody is sent anything else |
| `Outbox.EachItsBatch` | src/server/Server.cpp:282-307 | whatever a round hands out is sent: each announced connection has been sent, beyond what it had before, exactly the messages of the one batch logged for its client in the round, the other connections nothing |
| `Server.Server.RunTick` | src/server/Server.cpp:49-53 | with the queues filled, the loop body over live objects is one tick of the abstract world; the log grows by one batch for each announced client in table order, each is sent on its client's own connection, no connection is sent anything else, and every queue is empty |
| `ServerLoop.Receive` | src/server/TCPClient.cpp:44-92 | each ready connection queues the packets its bytes complete, stamped with its own data, and keeps the rest |
| `ServerLoop.DistinctAtRest` | src/server/TCPServer.cpp:157-168 | between ticks live connections have distinct descriptors, as the next pass of the loop needs |
| `ServerLoop.RunLoop` | src/server/Server.cpp:47-54 | from bytes received to bytes sent, the whole loop body is one tick on the packets put together; every batch it hands out is sent on its own connection and nothing else is, and each connection left keeps exactly the bytes of its incomplete frame |
| `ServerRun.UncutMore` | src/server/TCPClient.cpp:73-91 | over ticks: while a stream has not ended, the packets queued so far and the bytes kept are those of the whole stream taken at once |
| `ServerRun.Step` | src/server/Server.cpp:47-54 | an event keeps the account of a run: reached world, uncut streams, everything handed out sent |
| `ServerRun.Serve` | src/server/Server.cpp:45-57 | from an empty server, after any accepted connections, received chunks and datagrams: the run is one of the abstract world on exactly these events; each live connection's stream has not ended, its packets since it joined are those of its uncut stream, and it has been sent exactly the messages of its client's batches, in order; the ids given are the places, in order of arrival, of the accepted datagrams that counted somebody, each published with its content |
| `ServerRun.ShownInRun` | src/client/Client.cpp:56-101 | in every such run, whatever has been sent on a live connection, cut anywhere, is shown by its client, complete and line by line, as accepted posts of the run |
| `BitStream.BitStream.WriteBytes` | src/common/BitStream.cpp:29-37 | bytes are inserted at the write pointer |
| `BitStream.BitStream.WriteFrom` | src/common/BitStream.cpp:14-27 | at most `size` unread bytes move from one stream to the other |
| `BitStream.BitStream.ReadBytes` | src/common/BitStream.cpp:39-49 | a read takes what is there, up to the size asked for |
| `BitStream.BitStream.Remove` | src/common/BitStream.cpp:86-105 | the range is cut out and both pointers stay inside |
| `BitStream.BitStream.ReadInt` | include/common/BitStream.h:38-46 | a complete read gives the big-endian value on either kind of host |
| `BitStream.BitStream.ReadText` | src/common/NetworkObjects.cpp:193-214 | a missing length gives an empty text, missing bytes a shorter one |
| `ByteOrder.NetworkOrder` | include/common/BitStream.h:48-56 | what is sent is big-endian on either kind of host |
| `ByteOrder.HostOrder` | include/common/BitStream.h:58-62 | what is received does not depend on the host |
| `ByteOrder.BigEndianRoundTrip` | include/common/BitStream.h:29-46 | writing and reading an integer gives it back modulo its width |
| `ByteOrder.FromBigEndianRoundTrip` | include/common/BitStream.h:29-46 | reading and writing bytes gives them back |
| `Framing.DrainWire` | src/server/TCPClient.cpp:75-91 | the reassembly loop takes exactly the complete frames and keeps an incomplete one |
| `Framing.FeedIsDrain` | src/server/TCPClient.cpp:73-91 | for any bytes, the messages do not depend on how the stream was cut |
| `Framing.AfterChunks` | src/server/TCPClient.cpp:73-91 | after each chunk the queued packets are exactly the messages whose frames are complete, and the fragments are a proper prefix of the next frame |
| `Framing.Reassembled` | src/server/TCPClient.cpp:124-140 | the whole stream gives back all messages in order with nothing left |
| `Connection.TCPClient.TakeMessage` | src/server/TCPClient.cpp:76-90 | one pass of the loop over the stream's pointers takes the first complete message with a copy of the peer |
| `Connection.TCPClient.Select` | src/client/TCPClient.cpp:80-119 | one received chunk queues the complete messages in order and keeps the rest; an empty one queues the end of the stream |
| `Connection.TCPClient.Send` | src/client/TCPClient.cpp:141-157 | the length in network order, then the bytes |
| `NetworkObjects.Int.Read` | src/common/NetworkObjects.cpp:107-117 | five bytes give the sign flag and number, printed |
| `NetworkObjects.ShortReal.Read` | src/common/NetworkObjects.cpp:130-146 | two bytes give the number, printed with two decimals |
| `NetworkObjects.Float.Read` | src/common/NetworkObjects.cpp:158-169 | six bytes give sign flag, number and exponent, printed |
| `NumberLaws.IntLossless` | src/common/NetworkObjects.cpp:29-35 | a reader recovers sign flag and number |
| `NumberLaws.ShortRealLossless` | src/common/NetworkObjects.cpp:37-41 | a reader recovers the number with exactly two decimals and at least one digit before the point |
| `NumberLaws.FloatLossless` | src/common/NetworkObjects.cpp:43-56 | a reader recovers sign flag, number and exponent, for every exponent up to 255 |
| `NumberLaws.FloatInjective` | src/common/NetworkObjects.cpp:43-56 | different values print differently |
| `Messages.ReadUDPPacket` | src/server/Server.cpp:59-133 | the sizes are checked exactly as decoded by the specification, on the same error paths |
| `Posts.RejectedIff` | src/server/Server.cpp:59-126 | a datagram is rejected exactly when it is too short for its topic and type, or for the value of its type: 56, 53, 57 and 52 bytes for types 0 to 3 |
| `Posts.PostSays` | src/server/Server.cpp:59-133 | what any other datagram says, from its bytes: the topic up to the first NUL of 50 bytes; sign and number, number with two decimals, sign, number and as many decimals as its last byte says, each without superfluous zeros; text up to the first NUL of 1500 bytes; no text for other types |
| `Posts.StringPost` | src/server/Server.cpp:117-124 | every NUL-free topic of up to 50 and text of 1 to 1500 bytes comes back whole |
| `Posts.IntPost` | src/server/Server.cpp:87-95 | sign and number come back from the bytes a sender builds from them |
| `Posts.ShortRealPost` | src/server/Server.cpp:97-105 | the number comes back with two decimals |
| `Posts.FloatPost` | src/server/Server.cpp:107-115 | sign, number and exponent come back |
| `Messages.MessageSize` | src/server/Server.cpp:293-301 | every accepted post encodes in 1 to 1562 bytes |
| `Messages.MessageRoundTrip` | src/client/Client.cpp:79-93 | the subscriber decodes what the server encoded |
| `Messages.EndToEnd` | src/client/Client.cpp:76-97 | encode, frame, cut anywhere, reassemble, decode: every accepted post comes back, in order |
| `Messages.WriteRequest` | src/client/TCPClient.cpp:47-73 | the three encoders of the subscriber |
| `Messages.RequestRoundTrip` | src/server/Server.cpp:190-251 | the server reads back each request |
| `Client.Client.ProcessTCPPackets` | src/client/Client.cpp:56-101 | the lines shown are those decodable before the end of the stream, in order, and the client stops at it |
| `Client.StreamShowsPosts` | src/client/Client.cpp:60-96 | from accepted posts to shown lines through any cut of the stream |
| `WireFormat.FrameLayout` | src/server/TCPClient.cpp:124-140 | a frame is two bytes of length, high one first, and the message |
| `WireFormat.DrainSplits` | src/server/TCPClient.cpp:75-91 | from any bytes: the messages taken and what is left are together all that was received, no message is empty, and what is left does not begin with a whole non-empty frame |
| `WireFormat.MessageLayout` | src/server/Server.cpp:292-298 | the bytes of a post for a subscriber, one by one |
| `WireFormat.RequestLayout` | src/client/TCPClient.cpp:47-73 | the bytes of the three requests |
| `WireFormat.ShownIff` | src/client/Client.cpp:67-93 | a packet is shown exactly when it is of type 4 with topic, type, text, address and port all there, and then as these |
| `WireFormat.CutNotShown` | src/client/Client.cpp:86-90 | a post that lacks its last bytes, however many, is not shown |
| `WireFormat.MoreBehind` | src/client/Client.cpp:76-93 | bytes behind a post do not change it |
| `WireFormat.ShownInTurn` | src/client/Client.cpp:60-96 | packets are shown one after the other, those that do not decode skipped |
| `WireFormat.ShownOne` | src/client/Client.cpp:60-96 | one packet shows its line if it decodes and nothing if it does not, and an empty one stops the client |
| `WireFormat.ShownToEnd` | src/client/Client.cpp:63-67 | at the end of the stream the client stops, and nothing behind it is shown |
| `Decimal.CountDigits` | include/fmt/format.h:794-807 | the dividing loop counts the decimal digits |
| `Decimal.FastCountIsCount` | include/fmt/format.h:786-791 | the bit-length form counts the digits for every 64-bit value |
| `Decimal.LengthFits` | include/fmt/format.h:789 | a number of at most 64 bits has as many digits as 1233/4096 of its bit length, or one more |
| `Decimal.FormatDecimal` | include/fmt/format.h:879-905 | exactly the given cells are filled with the digits, all others untouched |
| `Decimal.WritePadded` | include/fmt/format.h:1431-1448 | zero padding to the width, as used by the number types |
| `Decimal.ParseNonnegativeInt` | include/fmt/format.h:1968-1987 | the value of the whole run of digits, an error exactly when it does not fit `int` |
| `Decimal.PrintParse` | include/fmt/format.h:1968-1987 | a printed value is one run of digits with that value |
| `Decimal.DigitsCount` | include/fmt/format.h:784-785 | the digit count is the one between enclosing powers of ten |
| `RoundedProduct.MultiplyWide` | include/fmt/format-inl.h:450-452 | the 128-bit form is the product over 2^64, to nearest, ties up |
| `RoundedProduct.MultiplyHalves` | include/fmt/format-inl.h:454-461 | the 32-bit form is the same, and no intermediate overflows 64 bits |
| `RoundedProduct.FormsAgree` | include/fmt/format-inl.h:447-463 | both equal floor((lhs * rhs + 2^63) / 2^64) for all 64-bit values |
| `BigintSquare.Accumulator.Add` | include/fmt/format-inl.h:494-497 | wrap-around detection is 128-bit addition |
| `BigintSquare.Accumulator.ShiftRight32` | include/fmt/format-inl.h:498-503 | the two-word shift divides by 2^32 |
| `BigintSquare.ColumnsValue` | include/fmt/format-inl.h:691-708 | all columns together are the product |
| `BigintMul.TwoHalves` | include/fmt/format-inl.h:560-569 | multiplying by 32-bit halves is exact, with every intermediate below 2^64 |
| `BigintMul.MulByValue` | include/fmt/format-inl.h:548-574 | the digits after both loops denote the exact product |
| `Bigint.Bigint.Assign64` | include/fmt/format-inl.h:591-599 | one or two digits, the value exactly |
| `Bigint.Bigint.Assign` | include/fmt/format-inl.h:584-589 | digits and exponent are copied |
| `Bigint.Bigint.Multiply32` | include/fmt/format-inl.h:548-557 | the exact product |
| `Bigint.Bigint.Multiply64` | include/fmt/format-inl.h:559-574 | the exact product for a 64-bit factor |
| `Bigint.Bigint.ShiftLeft` | include/fmt/format-inl.h:603-616 | times a power of two, split between exponent and digits |
| `Bigint.Bigint.SquareColumns` | include/fmt/format-inl.h:691-708 | both column loops together write the square, with nothing carried out |
| `Bigint.Bigint.Square` | include/fmt/format-inl.h:684-712 | exactly the square of the value, exponent doubled, top digit kept |
| `Bigint.Bigint.AssignPow10` | include/fmt/format-inl.h:665-682 | exactly 10 to the power, for every exponent below 2^30 |
| `Bigint.TopBit` | include/fmt/format-inl.h:668-671 | the highest power of two in the exponent |
| `Bigint.Bigint.RemoveLeadingZeros` | include/fmt/format-inl.h:529-533 | only zero digits go, down to one digit |
| `Bigint.Bigint.SubtractBigits` | include/fmt/format-inl.h:523-527 | one digit in wrapping arithmetic, its top bit the borrow |
| `Bigint.Bigint.SubtractAligned` | include/fmt/format-inl.h:536-546 | the difference, if and only if the last borrow does not meet a zero digit |
| `BigintOrder.Subtracted` | include/fmt/format-inl.h:541-544 | what the digits denote after the loops, with and without a stalled borrow |
| `Bigint.Compare` | include/fmt/format-inl.h:624-638 | the sign of the difference, if and only if the operands are not equal numbers with different exponents; then the one with the smaller exponent counts as larger |
| `Bigint.TwoFormsIff` | include/fmt/format-inl.h:624-638 | for operands with non-zero top digits that condition can be read off: one has the digits of the other above as many zero digits as its exponent is smaller |
| `Bigint.OneForm` | include/fmt/format-inl.h:624-638 | with equal exponents, or a non-zero lowest digit in the operand with the smaller exponent, the comparison is right |
| `Bigint.ComparedUnequal` | include/fmt/format-inl.h:636 | 2^32 stored in two ways |
| `Bigint.Stalling` | include/fmt/format-inl.h:544 | 2^64 and 1, for which the borrow stalls |
| `Bigint.AddCompare` | include/fmt/format-inl.h:641-662 | the sign of lhs1 + lhs2 - rhs for all operands with non-zero top digits, despite the early exits |
| `BigintOrder.GapStep` | include/fmt/format-inl.h:653-659 | the kept borrow is the exact gap of the digits so far, and outside 0..1 it decides |
| `Bigint.OneLonger` | include/fmt/format-inl.h:716-736 | below 2^31 times the divisor no borrow of a pass stalls |
| `Bigint.Bigint.Align` | include/fmt/format-inl.h:721-729 | implicit low zeros become digits |
| `Bigint.Bigint.DivmodAssign` | include/fmt/format-inl.h:716-736 | old = quotient * divisor + new always, terminating, top digit kept; new is below the divisor if and only if old was not an equal number with a larger exponent, which gives 0 |
| `ShortestDigits.DigitRange` | include/fmt/format-inl.h:1020-1038 | the start condition is kept by every pass, and digits stay in 0..9 even when rounded up |
| `ShortestDigits.Generate` | include/fmt/format-inl.h:1020-1042 | the loop ends and writes decimal digits only |
| `ShortestDigits.Shortest` | include/fmt/format-inl.h:1020-1042 | the result lies in the interval (closed iff even), is the nearest such decimal of its length, ties to even, and no decimal with fewer digits lies inside |
| `ShortestDigits.FewestDigits` | include/fmt/format-inl.h:1020-1042 | with a non-zero first digit, every decimal inside the interval, at any scale, has at least as many significant digits |
| `FallbackFormat.Pass` | include/fmt/format-inl.h:1021-1024 | one digit and the two stop tests on the big integers, with what they miss when the exponents differ or the numerator equals the denominator unaligned |
| `FallbackFormat.FallbackDigits` | include/fmt/format-inl.h:1015-1042 | the loop over `bigint` objects writes digits that lie between the boundaries, and the ones generated from the exact numbers if and only if the significand is odd, or the shortest decimal is not the lower boundary, or numerator and lower distance end with one exponent; a first digit above 9 leaves a text that is not of digits |
| `FallbackFormat.LostNow` | include/fmt/format-inl.h:1022 | in the last pass the boundary is lost exactly when alignment has hidden it |
| `FallbackFormat.LostBoundary` | include/fmt/format-inl.h:980-1042 | 8344650268554688 * 2^40: the loop does not write 917504 |
| `ShortestDigits.OnBoundaryIff` | include/fmt/format-inl.h:1020-1042 | that the shortest decimal is the lower boundary can be told from the numbers alone: the boundary is a decimal that is nearest of its length, and no decimal with fewer digits lies inside |
| `ShortestDigits.BoundaryNow` | include/fmt/format-inl.h:1022-1034 | the digits are the lower boundary exactly when the last remainder is the lower distance and is not rounded up |
| `FloatBits.OneIs` | include/fmt/format-inl.h:371-392 | the pattern of 1.0 is the number 1, and the smallest positive pattern one unit |
| `FloatBits.CloserIff` | include/fmt/format-inl.h:371-392 | the flag returned tells exactly when the next lower double is half as far as the next higher one; otherwise both are equally far |
| `FloatBits.ReadsBetween` | include/fmt/format-inl.h:335-337 | a number is nearest to a double among all, ties to even, exactly when it lies between the boundaries half way to its neighbours, which count for even significands |
| `FallbackSetUp.SetUp` | include/fmt/format-inl.h:980-1015 | all three cases: the numbers stand for the double and half the gaps at it, or for twice those when a power of two takes the first case; numerator and lower distance share an exponent |
| `FallbackSetUp.InvariantIff` | include/fmt/format-inl.h:1016 | numerator over denominator times 10^exp10 is the double, if and only if it is not a power of two with a non-negative exponent |
| `FallbackSetUp.InsideReadsBack` | include/fmt/format-inl.h:971-974 | a decimal, at any scale, lies between the boundaries set up exactly when it is read back as the double |
| `FallbackSetUp.ShortestReadsBack` | include/fmt/format-inl.h:1020-1042 | the digits generated are read back as the double, and no decimal with fewer digits is |
| `FallbackSetUp.PrintDouble` | include/fmt/format-inl.h:968-1042 | from the bits to the text: digits that are read back as the double, if and only if it is not a power of two with a non-negative exponent, whose digits are read as the next power; shortest unless they are a hidden boundary |
| `FallbackSetUp.DoubledPower` | include/fmt/format-inl.h:982-993 | the digits printed for 2^55 are read as 2^56 |
| `Utf8.Utf8Decode` | include/fmt/format-inl.h:1240-1276 | no error exactly when the bytes start with one well-formed sequence, and then its length and scalar |
| `Utf8.SequenceIsEncoding` | include/fmt/format-inl.h:1240-1276 | each well-formed sequence is the section 3 encoding of its scalar |
| `Utf8.EncodingIsSequence` | include/fmt/format-inl.h:1240-1276 | each scalar's encoding is well formed and decodes to it |
| `Utf8.WellFormedIsEncoded` | include/fmt/format-inl.h:1303-1332 | a well-formed string is the encoding of its scalars |
| `Utf8.EncodedIsWellFormed` | include/fmt/format-inl.h:1303-1332 | the encoding of any scalars is well formed and decodes to them |
| `Utf8.Utf16RoundTrip` | include/fmt/format-inl.h:1309-1315 | section 2.2 of RFC 2781 decodes what section 2.1 encodes |
| `Utf8.TranscodedIs` | include/fmt/format-inl.h:1303-1332 | accepted exactly when well formed, and then the UTF-16 of its scalars |
| `Utf8.FirstFour` | include/fmt/format-inl.h:1324-1326 | zeros past the end never complete a sequence |
| `Utf8.Utf8ToUtf16.Convert` | include/fmt/format-inl.h:1303-1332 | blocks and zero-padded tail together transcode the whole string, with a final zero, or report it malformed |

## Left out

- Sockets, `select`, `accept`, `recv`, `send`, short writes and the `Selector` map: received chunks, the
  accepted connection and the end of a stream are inputs; a send is the bytes handed to it.
- Reuse of a descriptor within a tick: descriptors of live connections are distinct, and an event that offers
  one in use is taken as offering none.
- 32-bit wrap-around of message ids and counts: they are unbounded.
- Iteration order of hash containers: `Forums.Forums.GetUserMessages` lists topics in an arbitrary order,
  and one topic's subscribers are counted in an arbitrary order.
- What `send` is given is kept as a field of the connection; that it arrives unchanged is assumed.
- The two `TCPClient` classes share one model: their reassembly loops and `Send` are the same code.
- A queued packet's own stream is kept as the bytes it holds; handlers read it through a fresh stream.
- Messages of length 0 or above 65535: `Framing.AfterChunks` and `Framing.Reassembled` are about 1 to
  65535 bytes; `Framing.FeedIsDrain` is about any bytes.
- The default size of `BitStream::Write(BitStream&, size)`, which overflows when added to the read pointer.
- An integer read cut short by the end of the stream leaves an indeterminate value; its count is modelled.
- Fields of the number types that a short read leaves indeterminate: only complete reads say what is printed.
- Keyboard commands, logging, error codes as text, address conversion and the main programs.
- bigint buffers: capacity and raw memory; digits are a sequence held in a field. Bits that do not overlap
  are joined by addition, and bit tests are divisions, in `Bigint` and `RoundedProduct`.
- The assertion in `subtract_aligned` on the order of its operands is a precondition here.
- FallbackFormat.FallbackDigits: asks that the numerator's exponent be at most the lower distance's, which
  `FallbackSetUp.SetUp` gives, and that the first digit be below 20.
- FallbackSetUp.PrintDouble: asks that the decimal exponent found before be high enough for the double, which the
  Grisu path that finds it is left to ensure.
- The Grisu path, cached powers, the boundaries of `float` and `snprintf_float`.
- The rest of the formatting library: argument handling, locale, chrono, color, printf, ranges, OS wrappers;
  of `write_int` only numeric alignment with zero fill, as the number types use it; `format_decimal` without
  thousands separators; `count_digits` for 128-bit values.
- `BitStream::Write` for the topic, message and number types, which nothing calls.
