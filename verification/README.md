# Booster, modelled and verified

Booster is a peer-to-peer network balancer: every node runs a SOCKS5 proxy, knows a few remote
nodes over packet connections, and sends each proxied stream either out directly or through
the least loaded remote. This project models the parts of it that carry state, arithmetic or
protocol content, in Dafny 4.11, and proves what they keep and what they compute.

`dafny verify dfyconfig.toml` checks everything.

## What is here

**Load balancing.** `Nodes` has the nodes and their tunnel tables: objects with maps of shared
`Tunnel` objects, refined to multisets of targets; `Sharing` has any number of nodes that share
them. `Dispatch` has the balanced choice and the retry loop of the dispatcher, `Rereads` the
choice when loads change while it is made, `RetryOrder` what the loop does when every dial
fails, `Snapshots` what the dispatcher sees of the objects.
`Updates` says what any sequence of table updates leads to, and which reorderings matter.
`Accounting` is the distributed system: a root and any number of remotes, each with open
tunnels, updates in flight in any order, some of which get lost, and the table that the others
build. Its conservation law holds in every reachable state, whatever overtakes what.
`Histories` reads every account off the steps of the run. `Balance` builds on
it: how far apart the greedy choice lets the true loads drift when updates lag behind, with a
family of runs that attains the bound for every lag.

**Packets.** `Streams`, `Tags`, `Packets`, `Codec` and `Connections` are the packet stream, as
objects with cursors; `CodecTheorems` says exactly which byte strings decode to which packets,
and derives from it the round trip, the truncations that are accepted, and the framing of
streams.

**Heartbeat.** `Heartbeat` is a timed state machine for the token that two peers exchange:
when no run closes a healthy connection, exactly, and when a lost token is noticed. The
class `Side` has the code of one side, tied to the steps of the machine.

**Publication and subscription.** `Channels` has the goroutines of one subscriber's channel as
interleaved steps. `Slots` has the table of slots; `Handles` has every run of subscriptions,
cancels, closes, publications and timeouts as seen through the handles given out;
`Subscriptions` has the objects, topics with arrays of slots, which keep such a run as a ghost;
`Registration` has the subscriptions to a topic that get between each other's steps.

**Connections and tracing.** `Lifecycle` is the state machine of connections that are added,
marked, closed, traced, pinged and replaced. It says exactly which steps must not be
interleaved, and which nodes can come back by themselves.
`Networks` has the objects, with methods that refine the machine.

**SOCKS5 addresses.** `Addresses` has the address codec of section 5 of RFC 1928 with the text
forms, and says exactly which texts and which wire forms survive a round trip.

## Where the code and its description differ

The model follows the code. These are the places where that shows in a theorem.

- `DialContext` returns neither a connection nor an error after a context error
  (node/dispatcher.go:197-199): outcome `NilNil` of `Dispatch.DialContext`.
- A tag reader reports a complete tag and a stream that ended with the same `io.EOF`
  (network/packet/tag.go:63-73), so an encoding that lost its closing tags decodes:
  `CodecTheorems.TruncationExact`.
- `Consume` clears its running flag when it has started its goroutine, not when that is done
  (network/network.go:80-83), so it never keeps a second consumer out: `Connections.Conn.Consume`.
- A cancel function is a bare index, so a second call can remove somebody else:
  `Handles.CancelKeepsExactly`, `Handles.SecondCancelHitsTheNextOwner`.
- `Unsub` lets an index equal to the number of slots through and panics
  (pubsub/pubsub.go:153-157): outcome `IndexPanic` of `Subscriptions.PubSub.Unsub`.
- A message that times out stops its channel without the topic's lock, after which a
  publisher can wait, with the lock, for ever: `Channels.TimeoutCanBlockTheTopic`; when it can,
  exactly: `Channels.HolderCanBlockExactly`. The channel keeps its slot, and its subscriber gets
  nothing from then on: `Handles.StoppedKeepsItsSlot`.
- The goroutine that forwards a tunnel update gives up after a second, so updates can be lost,
  and the tables are off for good: `Accounting.DrainedLoad`, `Accounting.LostRemovalCounts`.
- `Sub` looks up and registers a topic in two steps, so a subscription can be lost that was
  granted: `Registration.SurvivesExactly`.
- An accepting side that closes because a heartbeat came too late does not make the other side
  close: that waits for its timer (`Heartbeat.LossDetection`).
- A manual disconnection does not take the node out of the tracer, so a node that the tracer
  still pings, and that is inactive, is connected again: `Lifecycle.DisconnectionLastsExactly`.
- `Ping` refuses an active node, and a tunnel update makes a node active even after its
  connection closed, so such a node is pinged in vain for ever: `Lifecycle.LostReturnsExactly`,
  `Lifecycle.LateUpdateStrandsTheNode`.
- A node that is back under the same address with another proxy port has another identifier;
  the tracer then forgets the old one although its entry is still lost:
  `Lifecycle.OnlineKeepsExactly`.
- `Wire` marks the connection after it has sent its packets, and the tracer forgets an
  identifier after it has reconnected: a close in between loses the node
  (`Lifecycle.CloseBeforeMark`, `Lifecycle.CloseBeforeUntrace`).
- An update that arrives for the old node of a replaced connection changes tunnel objects that
  the new node shares, except that the last copy stays behind: `Sharing.DeliverAll`.

## Model

| member | source | states |
|---|---|---|
| Tags.TagReader.Flush | network/packet/tag.go:47-51 | the cursor is back at the start |
| Tags.TagReader.Read | network/packet/tag.go:53-84 | the result, the bytes taken and the new cursor are those of scanning what is left of the tag, through a buffer of any size; end of tag and end of stream are reported alike |
| Tags.ScanTagExact | network/packet/tag.go:53-84 | a tag that fits the buffer passes exactly when it is there in full or cut short by the end of the stream |
| Tags.TailOkJoins | network/packet/decoder.go:108-134 | two tags read one after the other accept what their concatenation accepts, truncations included |
| Packets.NewModule | network/packet/packet.go:86-101 | succeeds exactly for two-byte identifiers and payloads of 1 to 65535 bytes, and yields that module |
| Packets.Packet.AddModule | network/packet/packet.go:51-63 | refuses exactly a present identifier or an invalid module; otherwise adds just that module; built packets stay built |
| Packets.Packet.DelModule | network/packet/packet.go:65-69 | removes just that module |
| Packets.Packet.GetModule | network/packet/packet.go:71-78 | finds exactly the modules that are there |
| Packets.ToMapHas | network/packet/decoder.go:132-133 | with distinct identifiers every module read is in the map; with duplicates its identifier still is |
| Packets.ToMapSize | network/packet/encoder.go:75-88 | an ordering of a module map has as many modules as the map |
| Codec.Encoder.EncodeOne | network/packet/encoder.go:111-157 | fails exactly on an identifier that is not two bytes long, otherwise appends the module's encoding |
| Codec.Encoder.EncodeAll | network/packet/encoder.go:83-88 | the loop over the map writes the modules once each, in the order in which the map is traversed |
| Codec.Encoder.Encode | network/packet/encoder.go:38-96 | succeeds exactly for 1 to 255 modules with two-byte identifiers and then appends the encoding of some ordering of the map |
| Codec.Decoder.DecodeOne | network/packet/decoder.go:150-199 | reads one module off the stream as the specification does, same outcome and same rest |
| Codec.Decoder.ReadHeader | network/packet/decoder.go:53-97 | reads the opening tag and the three header fields as the specification does |
| Codec.Decoder.DecodeAll | network/packet/decoder.go:105-134 | the loop over the announced number of modules fills the map with them, later duplicates winning |
| Codec.Decoder.Decode | network/packet/decoder.go:45-135 | succeeds exactly when the specification does, and then metadata, map and rest of the stream are those of the specification |
| CodecTheorems.SizeRoundTrip | network/packet/encoder.go:134-139 | the two size bytes read back as the payload's size |
| CodecTheorems.PacketForward | network/packet/decoder.go:45-135 | whatever decodes is a frame around that packet, up to closing tags that may be cut short, or up to the last separator if nothing is to follow it |
| CodecTheorems.PacketBackward | network/packet/decoder.go:45-135 | every such frame decodes to its packet and its rest |
| CodecTheorems.AcceptedExactly | network/packet/decoder.go:45-135 | the decoder accepts exactly the encodings, and those encodings of which only part of what closes the packet is missing at the end of the stream |
| CodecTheorems.PacketRoundTrip | network/packet/encoder.go:38-96 | for every order of the map and whatever follows, decoding an encoding gives the packet back and leaves exactly what followed |
| CodecTheorems.TagSetsThatRoundTrip | network/packet/decoder.go:53-199 | a tag set carries every packet exactly when its tags fit the decoder's buffers |
| CodecTheorems.TagsThatDoNotFit | network/packet/decoder.go:53-199 | for every other tag set a concrete packet fails to come back |
| CodecTheorems.PacketGrows | network/packet/decoder.go:45-135 | bytes that arrive later cannot turn a packet that was read into another one |
| CodecTheorems.TruncationExact | network/packet/tag.go:53-84 | a prefix of an encoding decodes exactly when at most the last closing tags are cut off (and the separator before them, without a closing tag and a payload), and then to the same packet |
| CodecTheorems.UniqueFraming | network/packet/encoder.go:38-96 | equal byte strings are the same packet followed by the same rest |
| CodecTheorems.AcceptedReencodes | network/packet/decoder.go:45-199 | for every tag set that fits the buffers, whatever is accepted re-encodes, in reading order, to the bytes consumed, except for what may be missing at the end of the stream |
| CodecTheorems.HollowPacket | network/packet/decoder.go:181-196 | without a module closing tag and a last payload the last separator can be missing: such a stream is accepted |
| CodecTheorems.StreamFraming | network/network.go:75-101 | consuming the encodings of any list of packets gives the list, in order, then what the rest holds |
| Connections.Conn.Send | network/network.go:126-131 | appends the packet's encoding, or fails as the encoder does |
| Connections.Conn.Recv | network/network.go:105-122 | reads one packet off the stream, unless the connection is running |
| Connections.Conn.Consume | network/network.go:75-101 | delivers exactly the packets of the stream up to the first failure; the running flag is as it was before |
| Connections.ProtocolCarriesAll | protocol/protocol.go:48-52 | with the tags of the protocol every packet of the encoder comes back off every stream, and a connection delivers exactly the packets sent |
| Connections.OnTheWire | network/packet/encoder.go:38-157 | every packet of the encoder, byte by byte, with the tags of the protocol |
| Connections.ProtocolModules | protocol/protocol.go:42-52 | HE and PA are identifiers, shorter and longer ones are not, and a packet with a module HE in bytes |
| Nodes.Node.constructor | node/node.go:47-68 | a new node is inactive, not traced and has no tunnels |
| Nodes.Node.Workload | node/node.go:83-93 | the loop returns the size of the multiset of targets |
| Nodes.Node.AddTunnel | node/node.go:143-158 | the target's multiplicity grows by one, or by the copies of the tunnel that is filed; the node is active; every tunnel keeps its own key and at least one copy |
| Nodes.Node.RemoveTunnel | node/node.go:173-192 | fails exactly on an absent target, otherwise takes one copy off; the last copy goes with its entry |
| Nodes.Node.CopyTunnels | node/node.go:71-80 | the other node has the union of both tables, sharing the tunnel objects; an empty one has the same multiset |
| Nodes.Node.UpdateNode | booster/network.go:426-442 | adds or removes a target as the multiset specification does; an addition makes the node active, a removal leaves that as it is |
| Nodes.Node.Ping | node/node.go:218-230 | succeeds exactly for a node that is not active and can be reached |
| Sharing.UpdateIn | node/node.go:71-80 | what an update of one of any number of nodes that share tunnel objects does to each of the others, exactly; all stay valid |
| Sharing.DeliverAll | node/node.go:143-192 | the same for any updates of the nodes in any interleaving: all stay valid, and all multisets and all that is shared are those of the specification |
| Sharing.SharedExactly | node/node.go:182-189 | two or more nodes go on sharing a tunnel, all of them, exactly as long as the updates of all of them together leave a copy of it; until then all count what is left |
| Sharing.LastCopyLeaves | node/node.go:184-187 | the removal of the last copy takes its node out, and the others go on sharing the tunnel |
| Nodes.BagUnique | node/tunnel.go:44-49 | a table of copies stands for one multiset only |
| Updates.RunExact | node/node.go:143-192 | over any sequence, the removals of a target that fail are the deepest shortfall of any prefix, and the table is too large by just that |
| Updates.NoFailureIff | node/node.go:173-180 | no removal fails exactly when no prefix removes more of a target than is there |
| Updates.OrderIndependence | pubsub/channel.go:62-66 | two delivery orders of the same updates end in the same table exactly when the same removals fail |
| Updates.WorkloadBalance | node/node.go:83-93 | the workload is what it was, plus additions, less removals, plus the removals that failed |
| Updates.Deliver | booster/handlers.go:277-297 | what a node makes of a sequence of updates is the specification's run, failures counted |
| Dispatch.GetNodeBalanced | node/dispatcher.go:91-145 | when the loads do not change meanwhile, the pick is the least loaded of the nodes that are left, remotes before the root on ties and earlier remotes first; it fails exactly when none is left |
| Rereads.GetNodeReading | node/dispatcher.go:91-145 | with the candidate's load read again as the code does, and no load changing by more than `d`: how far the pick can be above any other node that is left; without changes it is the balanced one |
| Rereads.NextCandidate | node/dispatcher.go:112-120 | what one comparison with a load that was read again does to that bound |
| Rereads.DriftIs | node/dispatcher.go:112-120 | the bound in closed form |
| Snapshots.Observe | node/dispatcher.go:92-105 | what the dispatcher sees of a network's objects: exactly the active nodes of open entries, each with the size of its tunnel multiset; no identifier twice, unless the local node's own is an entry |
| Dispatch.BalancedUnique | node/dispatcher.go:98-144 | there is only one such pick |
| Dispatch.BalancedIs | node/dispatcher.go:98-144 | what a balanced pick is on the loads themselves: less than every earlier remote that is left, no more than any later one and the root's own share, which is its load less those of all active remotes |
| Dispatch.DialContext | node/dispatcher.go:169-211 | over a network that may change between attempts: every attempt is balanced, no identifier is tried twice, at most as many attempts as there are identifiers; the result for every outcome of the last dial, with the last error returned exactly when all are exhausted |
| Dispatch.IdsWithin | node/dispatcher.go:66-80 | distinct identifiers out of a finite universe are no more than it has, which is why the loop ends |
| RetryOrder.DialFailing | node/dispatcher.go:169-211 | over a fixed network in which every dial fails the attempts are those that the theorems below are about |
| RetryOrder.TriedIsPermutation | node/dispatcher.go:169-211 | the attempts are a permutation of the root and the active remotes |
| RetryOrder.TriedInLoadOrder | node/dispatcher.go:112-144 | loads never decrease along the attempts and no remote follows the root on equal load |
| RetryOrder.LoadBag | node/dispatcher.go:98-105 | the bag of loads tried can be read off the list of nodes |
| RetryOrder.LoadsIndependentOfList | node/dispatcher.go:98-144 | listing the nodes in another order leads to the same sequence of loads |
| Accounting.StepKeepsOk | socks5/socks5.go:315-317 | every step of the system keeps the structure that conservation rests on |
| Accounting.Conservation | booster/booster.go:369-384 | in every reachable state, per node and target: table plus additions in flight or lost, less removals in flight or lost, is what is open plus the removals that failed |
| Accounting.NoOvertakingNoFailure | pubsub/channel.go:62-66 | in runs in which no removal overtakes its own addition no removal fails, though updates of different tunnels overtake each other |
| Accounting.DrainedLoad | node/dispatcher.go:132-135 | when nothing is in flight any more the root's load as the balancer computes it is its direct tunnels, with failed removals, lost additions and lost removals of all nodes, and what the remotes serve for others, as exact error terms |
| Accounting.DrainedLoadIsDirect | node/dispatcher.go:132-135 | without overtaking that is exactly the number of direct tunnels if and only if the losses and what the remotes serve for others cancel out; where nothing is lost, if and only if the remotes serve nobody else |
| Accounting.LostRemovalCounts | pubsub/channel.go:55-59 | after one lost removal the computed load of an idle root is 1 |
| Histories.TablesAreDeliveries | booster/network.go:426-442 | in every run each table, with the removals that failed, is what the updates delivered to it lead to one by one; what is open, in flight and lost is exactly what the steps of the run say |
| Histories.Drains | pubsub/channel.go:62-66 | from every reachable state, delivering what is in flight empties all queues but for what is lost, and opens and closes nothing |
| Histories.LoadsOff | node/dispatcher.go:132-135 | a remote that serves somebody else makes the computed load of an idle root negative; a lost addition hides an open tunnel |
| Balance.SeenRoot | node/dispatcher.go:93-135 | in every state of a growing run the load seen of the root is off by exactly its own pending additions and those of the remotes |
| Balance.SeenRemote | node/dispatcher.go:104-105 | the load seen of a remote is short of exactly its pending additions |
| Balance.ChoiceIsLow | node/dispatcher.go:91-145 | with at most `lag` dispatches not fully applied, the choice is at most `2 * lag` above any other in true load |
| Balance.BalanceBound | node/dispatcher.go:91-145 | in every run of additions with that lag, true loads differ by at most `2 * lag + 1`; a lost addition counts into the lag for good |
| Balance.PerfectBalance | node/dispatcher.go:91-145 | without lag, loads differ by at most one and none exceeds the number of dispatches divided by the number of nodes, rounded up |
| Balance.BoundIsTight | node/dispatcher.go:91-145 | for every lag a run attains the spread `2 * lag + 1` |
| Balance.LossStaysUnapplied | pubsub/channel.go:55-59 | a lost addition is never applied |
| Heartbeat.Side.Receive | booster/handlers.go:143-152 | the expiry check and the timer stop are a delivery step of the machine |
| Heartbeat.Side.Resend | booster/handlers.go:155-171 | the timer reset and the composed message are a resend step of the machine |
| Heartbeat.Side.Expire | booster/booster.go:349-355 | the function of the timer is a fire step of the machine |
| Heartbeat.Side.constructor | booster/booster.go:338-355 | the dialling side starts with its timer set to twice the TTL |
| Heartbeat.AlwaysBeating | booster/handlers.go:129-172 | with timely hops and no loss every reachable state has one token, an open connection and exact send times |
| Heartbeat.HeartbeatSafety | booster/handlers.go:143-171 | then neither the expiry check nor the timer ever fires, and the dialling side sends at exact intervals of twice the TTL |
| Heartbeat.HopsExact | booster/network.go:221-236 | in every run, late or lossy, the hop counter is the number of messages sent by both sides, and exactly so while it fits 32 bits |
| Heartbeat.FirstHopLate | booster/handlers.go:143-147 | if delay and skew can exceed the TTL on the first hop, a run without loss expires |
| Heartbeat.HopBackLate | booster/booster.go:349-355 | if they can reach it on the way back, the timer fires in a run without loss |
| Heartbeat.SafeExactlyWhenTimely | booster/handlers.go:129-172 | no run without loss closes the connection if and only if delay plus skew stays within the TTL on the first hop and below it on the hop back |
| Heartbeat.LossDetection | booster/booster.go:347-355 | in every run, however late: the timer closes the connection only two TTLs after the last send of the dialling side; once the token is gone, that side is open until then, or was closed just then |
| Heartbeat.AlwaysSound | booster/handlers.go:129-172 | in every run there is at most one token, and the timer is the one set with the last send until the token is back |
| Heartbeat.HistoryTells | booster/network.go:221-236 | the messages counted are those that the steps of the run send, and the time is what has passed |
| Heartbeat.LossLoses | booster/handlers.go:149-171 | a loss takes the token away and leaves the timer |
| Heartbeat.LostFirstMessage | booster/booster.go:338-355 | without the first message the dialling side closes two TTLs after the start |
| Heartbeat.CrashWithTheToken | booster/booster.go:347-355 | the same when the accepting side crashes with the message |
| Heartbeat.OneRound | booster/handlers.go:129-172 | one round in numbers: every message, deadline and timer |
| Heartbeat.Wrap32 | booster/network.go:221-236 | a number in the range of 32 bits, with the same remainder |
| Heartbeat.BeatsOrFallsSilent | booster/handlers.go:143-171 | with timely hops the token never expires: it is there and all is well, or it was lost |
| Heartbeat.SilenceEnds | booster/booster.go:347-355 | time cannot pass that moment without the close |
| Channels.StepConserves | pubsub/channel.go:46-71 | every step keeps delivered, in flight and dropped messages apart and complete |
| Channels.ChannelSafety | pubsub/channel.go:46-131 | in every interleaving each accepted message is exactly one of delivered once, in flight and dropped; the output is closed at most once; one `stop` wins |
| Channels.HistoryTells | pubsub/channel.go:46-71 | in every run the messages delivered are those of the steps that deliver one, in that order; the dropped ones are those that timed out or met a closed output; the accepted ones are as many as were handed over |
| Channels.LiveDelivers | pubsub/channel.go:54-56 | while the loop is live the goroutine of any message in flight can hand it over |
| Channels.SenderSteps | pubsub/channel.go:46-60 | what the goroutine of a message can do, exactly |
| Channels.StopOvertakesAMessage | pubsub/channel.go:90-101 | a run in which one message arrives and the stop overtakes another one |
| Channels.NothingAfterClose | pubsub/channel.go:98-99 | after the close nothing is delivered and nothing is opened again |
| Channels.PanicIsHarmless | pubsub/channel.go:47-53 | a sender that finds the output closed finds the channel inactive, so its `stop` returns at once |
| Channels.HolderProgresses | pubsub/channel.go:84-96 | if `stop` is called only under the topic's lock, an active channel has a live or starting loop whenever the lock is free, and the holder of the lock always has an enabled step that brings it closer to releasing it |
| Channels.StuckForGood | pubsub/channel.go:84-88 | a publisher that waits for a loop that has ended waits for ever |
| Channels.WaitingPublisher | pubsub/channel.go:84-88 | a waiting publisher can still be served if and only if the loop has not ended |
| Channels.HolderCanBlockExactly | pubsub/channel.go:84-96 | a call that holds the lock can get stuck by what other goroutines do meanwhile if and only if the channel is active with a message in flight or a `stop` under way; once it waits, if and only if the loop has ended or one of these is there |
| Channels.TimeoutCanBlockTheTopic | pubsub/channel.go:55-59 | such a state is reachable through a timeout |
| Slots.FirstFree | pubsub/pubsub.go:101-112 | the first free slot, or none exactly when all are taken |
| Subscriptions.Topic.Place | pubsub/pubsub.go:101-112 | the loop takes the first free slot and touches no other |
| Subscriptions.PubSub.Sub | pubsub/pubsub.go:73-140 | creates the topic if needed and gives a new, running channel the first free slot; fails on a missing topic or action and on a full topic; the run goes on with that step |
| Subscriptions.PubSub.Unsub | pubsub/pubsub.go:145-166 | frees the slot and stops its channel; each of the four ways to fail, exactly; the run goes on with a cancel by that handle |
| Subscriptions.PubSub.Close | pubsub/pubsub.go:169-188 | removes the topic and stops exactly the channels in its slots |
| Subscriptions.PubSub.Pub | pubsub/pubsub.go:192-208 | every subscriber with a live handle of the topic that no timeout stopped has the message once more than before, and no other channel has changed |
| Subscriptions.PubSub.Broadcast | pubsub/pubsub.go:201-207 | the loop sends the message once to every active channel that holds a slot |
| Subscriptions.PubSub.TimeOut | pubsub/channel.go:55-59 | the channel stops and its slot stays taken |
| Registration.ReachedExactly | pubsub/pubsub.go:86-117 | of subscriptions at the same time, one that has its slot is reached exactly if no topic was registered after its own |
| Registration.SurvivesExactly | pubsub/pubsub.go:86-117 | it is reached in every continuation if and only if, besides, nobody who found no topic is still about to register one |
| Registration.FirstOfTwoIsLost | pubsub/pubsub.go:86-97 | of two first subscriptions that both find no topic the one that registers first is lost |
| Registration.LookUpFindsTheRegistered | pubsub/pubsub.go:210-221 | a look-up finds the topic that is registered at that moment, and whoever then gets a slot of it is reached |
| Slots.SubscribedOnce | pubsub/pubsub.go:101-112 | a new subscriber gets one slot, and nobody ever holds two, of one topic or of two |
| Handles.RunLinked | pubsub/pubsub.go:73-208 | in every run in which each handle is used at most once and not after its topic closed, live handles and taken slots correspond |
| Handles.LiveExactlyTaken | pubsub/pubsub.go:101-166 | in every such run a handle is live if and only if its subscriber holds the slot that it names |
| Handles.ReachedExactly | pubsub/pubsub.go:192-208 | in every such run a publication reaches a subscriber if and only if it has a live handle of the topic and was never stopped by a timeout; no other step reaches it |
| Handles.HoldersAreLive | pubsub/pubsub.go:192-208 | who holds a slot of a topic is who has a live handle of it |
| Handles.StoppedKeepsItsSlot | pubsub/channel.go:55-59 | a subscriber stopped by a timeout keeps its live handle and its slot and is not reached |
| Handles.StepKeepsPlaced | pubsub/pubsub.go:73-208 | however handles are used, every holder is a subscriber and holds one slot |
| Handles.LiveSlotsDistinct | pubsub/pubsub.go:101-112 | live handles of a topic name distinct slots |
| Handles.SubFailsExactlyWhenFull | pubsub/pubsub.go:101-116 | a topic has at most `MaxSubs` live handles, and a subscription fails exactly when it has that many |
| Handles.SubAddsOne | pubsub/pubsub.go:73-140 | a new subscriber disturbs no old one |
| Handles.LiveHandleCancelsItsOwn | pubsub/pubsub.go:138-166 | a live handle succeeds and removes its own subscriber and nobody else |
| Handles.CancelKeepsExactly | pubsub/pubsub.go:145-166 | a cancel by any handle at any time keeps the correspondence if and only if nobody else holds the slot that it names |
| Handles.SecondCancelHitsTheNextOwner | pubsub/pubsub.go:138-140 | a second cancel removes the slot's next owner and reports success |
| Handles.ClosedHandleHitsTheNewTopic | pubsub/pubsub.go:169-188 | a handle kept past the close of its topic names a slot of the new topic |
| Lifecycle.StepKeepsExactly | booster/network.go:352-502 | which steps keep the invariant: all but marking and untracing always do, those two exactly under their condition |
| Lifecycle.RunKeepsExactly | booster/network.go:352-502 | a run of single steps, however interleaved, has every lost node traced in all its states if and only if every mark and every untrace in it meets that condition |
| Lifecycle.OneOpen | booster/network.go:356-361 | in every interleaving of single steps, of all connections ever added under an identifier at most one is open |
| Lifecycle.LostIsTraced | booster/network.go:296-502 | in every run in which `Wire` and reconnect-then-untrace are single steps and a traced node answers under its own identifier, an identifier whose connection went down unasked stays in the tracer until a new connection replaces it |
| Lifecycle.WireKeeps | booster/booster.go:304-365 | `Wire` succeeds exactly when its packets go out and no connection with that identifier is open; then the connection is current, open, its node active and marked; if it fails after filing, it is current and closed, if the socket closes; it keeps the invariant and never untraces |
| Lifecycle.CloseLeaves | booster/network.go:468-502 | the connection is closed, its node inactive, the identifier traced if nobody asked for it, and nothing else changes |
| Lifecycle.AllClosedLeaves | booster/network.go:71-78 | no entry is marked any more, and all are closed and inactive whose socket closes |
| Lifecycle.ReportWithoutEffect | booster/network.go:309-325 | an identifier without an entry is taken out of the tracer; without an answer nothing happens |
| Lifecycle.OnlineKeepsExactly | booster/network.go:296-330 | reconnecting and untracing in one step keeps the invariant except exactly when the address of a lost node answers under another identifier |
| Lifecycle.Reconnects | booster/network.go:296-330 | a successful reconnection puts the new connection in place and forgets the identifier; while the entry is open nothing changes and the tracer pings on |
| Lifecycle.OneMoreClosed | booster/network.go:71-78 | closing all connections one by one, in any order, closes them all and traces none |
| Lifecycle.DisconnectionLastsExactly | booster/handlers.go:249-260 | a disconnected node stays away in every continuation without a manual connection if and only if the tracer has no inactive node under its identifier and no report about it is under way |
| Lifecycle.AwayForGoodExactly | node/node.go:218-230 | the same for any node that is down, whatever brought it down |
| Lifecycle.LostReturnsExactly | booster/network.go:296-330 | a lost node, though traced, comes back by itself if and only if the node traced for it is inactive or a report about it is under way |
| Lifecycle.LateUpdateStrandsTheNode | node/node.go:143-144 | a tunnel update that is handled after the close leaves a lost and traced node that never comes back by itself |
| Lifecycle.PlainLossReturns | booster/network.go:296-330 | after a connection that went down, and nothing else, the tracer can bring the node back |
| Lifecycle.ReportIsSpent | booster/network.go:296-330 | a report is handled once: when it is, a node that has become active meanwhile stays away for good |
| Lifecycle.CloseBeforeUntrace | booster/network.go:317-328 | a close between reconnection and untrace leaves a lost node untraced |
| Lifecycle.CloseBeforeMark | booster/booster.go:332-359 | so does a close before `Wire` has marked the connection |
| Networks.Network.AddConn | booster/network.go:352-383 | refused exactly when an open connection has the identifier; otherwise filed, with exactly the tunnels of the closed one that it replaces |
| Networks.Network.CloseConn | booster/network.go:468-502 | the state after `Close`, whether it fails, traces, or waits for a tracer that is not running; after a success the node is inactive |
| Networks.Network.Disconnect | booster/handlers.go:249-260 | the node is unmarked, then its connection closed if its socket closes |
| Networks.Network.CloseAll | booster/network.go:71-78 | the loop unmarks every node and closes every connection whose socket closes |
| Networks.Network.Wire | booster/booster.go:304-365 | refines the step of the machine, for every point at which it can fail; after a success the connection is filed and open and its node active, marked and listed by `Nodes`; after a failure it is closed if its socket closes |
| Networks.Network.Online | booster/network.go:296-330 | refines the step of the machine |
| Networks.Network.Ping | tracer/tracer.go:107-116 | the tracer gets an answer exactly from a reachable node that is not active |
| Networks.Network.Nodes | booster/network.go:387-401 | exactly the nodes of open entries that are active, with distinct identifiers |
| Networks.Tracer.Run | tracer/tracer.go:98-102 | fails exactly when the tracer runs |
| Networks.Tracer.Trace | tracer/tracer.go:149-155 | adds the node; the caller is held up if nothing runs |
| Networks.Tracer.Untrace | tracer/tracer.go:172-182 | removes the identifier; the caller is held up if nothing runs |
| Networks.Tracer.Close | tracer/tracer.go:185-189 | stops the tracer and keeps its identifiers |
| Addresses.ReadHost | socks5/socks5.go:388-432 | reads as the specification does, same outcome, same rest |
| Addresses.ReadPort | socks5/socks5.go:435-443 | reads two bytes and prints them as a decimal number |
| Addresses.ReadAddress | socks5/socks5.go:373-385 | reads host and port as the specification does |
| Addresses.AtoiOfItoa | socks5/socks5.go:434-510 | printed numbers parse to themselves within 64 bits |
| Addresses.ItoaIsNumeral | socks5/socks5.go:441-442 | a printed number is digits without a leading zero, and the sum of digit times power of ten is the number |
| Addresses.NumeralIsItoa | socks5/socks5.go:441-442 | there is no other numeral for it |
| Addresses.Ip4OnTheWire | socks5/socks5.go:373-443 | `01 7f 00 00 01 1f 90` reads as 127.0.0.1:8080 |
| Addresses.NameOnTheWire | socks5/socks5.go:405-427 | `03 02 62 6f 00 50` reads as bo:80 |
| Addresses.Ip6OnTheWire | socks5/socks5.go:403-429 | `04`, sixteen bytes and `00 50` read as the text of the address in brackets, and :80 |
| Addresses.MappedOnTheWire | socks5/socks5.go:424-429 | ::ffff:127.0.0.1 on the wire reads as 127.0.0.1 |
| Addresses.NoOtherKind | socks5/socks5.go:411-413 | any other kind of address fails |
| Addresses.PortTexts | socks5/socks5.go:498-510 | 80, +80 and 080 encode as 80; -1, +, 0, 8x and nothing do not encode |
| Addresses.OctetTexts | socks5/socks5.go:476 | a number of a dotted address can have leading zeros and be at most 255 |
| Addresses.SplitJoinExactly | socks5/socks5.go:384-452 | a host comes back out of a host:port text if and only if it has no bracket |
| Addresses.ParseDotted | socks5/socks5.go:424-483 | a dotted IPv4 address parses to itself and prints the same |
| Addresses.HostEncoded | socks5/socks5.go:473-494 | a host fails to encode exactly when it is a name over 255 bytes; otherwise it reads back as its canonical form |
| Addresses.PortEncoded | socks5/socks5.go:498-510 | a port encodes exactly when it is a number from 1 to 65535, and reads back as that number |
| Addresses.EncodedReadsBack | socks5/socks5.go:448-469 | whatever encodes reads back as its canonical form, with whatever follows left on the stream |
| Addresses.PairRoundTripsExactly | socks5/socks5.go:373-510 | a host and a number survive the round trip if and only if the host is canonical and the number is a port other than 0 |
| Addresses.AddressRoundTripsExactly | socks5/socks5.go:373-510 | the same, for every text there is |
| Addresses.AddressReencodesExactly | socks5/socks5.go:373-510 | an address read off the wire encodes to its own bytes if and only if its port is not 0, it is no IPv4 address in IPv6 form and no name with a bracket or in the form of an IP address |

## Left out

- Sockets, listeners, dialling, `io.Copy` and the idle timer of `ProxyData`: input and output. Dials and sends appear as outcomes that can be anything; writes to a stream do not fail.
- `Booster.Run`, `run`, `Restart` and signal handling: supervision of the other parts.
- Protobuf and JSON payloads and `ValidatePacket`: payloads are opaque bytes.
- SHA-1 identifiers: identifiers are values, and different nodes are taken to have different ones.
- The monitor, `serveNet`, `serveNode`, the websocket gateway, the commands and the log: output.
- `NetworkIO` and its counters: a plain sum.
- SOCKS5 negotiation, `Bind`, `Associate` and the replies of `Connect`: short writes of constants.
- The text of IPv6 addresses: printing and parsing are parameters of `Addresses`; the theorems that need it assume that what is printed has no bracket and parses back.
- `JoinHostPort` of hosts with a percent sign, which some versions of the library bracket, and the rejection of leading zeros in IPv4 addresses by newer versions.
- The `Run` function of a subscriber and its `PostRun`: an error in it makes one more use of the same handle. What a channel took is what its loop accepted; that a message can be dropped afterwards is part of `Channels`.
- Locks as such: the methods of `Subscriptions`, `Networks` and `Nodes` are taken to run one at a time. The steps that can be interleaved are those of `Channels`, `Registration` and `Lifecycle`; in `Channels` the lock is part of the state.
- Dispatch.GetNodeBalanced: reads the load of every node once; the code's further reads of the candidate are the subject of `Rereads`.
- Balance.BalanceBound: is about runs in which tunnels are only opened and the remotes stay the same; closing tunnels can leave any imbalance.
- Accounting.DrainedLoad: is about remotes that stay connected; tunnels that `CopyTunnels` carries over to a replaced connection are counted by `Sharing`, not here.
- Heartbeat.SafeExactlyWhenTimely: is about clocks that run at the same rate, with a constant offset, and handlers that take no time.
- Heartbeat.LossDetection: loses the token on the wire, at the accepting side or by its expiry there; a dialling side that crashes is not part of it.
- Lifecycle.LostIsTraced: a traced address that answers under another identifier is left to `Lifecycle.OnlineKeepsExactly`, which says when that loses a node.
- Networks.Network.Online: the failed lookup that `TraceNodes` logs and the publication of network updates are not part of this model.
- Codec.Encoder.Encode: the bytes that a failed encoding has already written are only known to follow what was there.
