# Verification of magpie's protocols

A Dafny model of the concurrent protocols of the magpie messaging library and of the data structures
behind them, with proofs of what they keep in every run. `dafny verify dfyconfig.toml` checks it.

Concurrent code is modelled twice. A step system says what one critical section, atomic store,
message or notification does, and theorems range over all its runs; threads, the network, the relay
and the foreign libraries are steps the environment chooses. A class with the source's own fields
then carries out the operations, and the contract of each method ties its new state to the step.

What a step does is pinned down a second time from outside, by lemmas whose names mostly end in
`Exactly`: they speak of raw fields, indices and the history of actions, not of the step functions. That
the promises are not empty is shown by runs from the start, such as `PeerNetwork.TwoParticipantsConnect`,
`PeerRpc.ARequestIsAnsweredExample`, `RpcRun.ACallCanReturn` and `RpcShutdown.AReturnExample`.

| files | subject |
|---|---|
| `PeerLink`, `PeerGroup`, `PeerNetwork`, `PeerConnection`, `PeerRpc` | the WebRTC peer group: role election, link replacement, ICE candidates, the callback mirror, reply routing, and requests answered over it |
| `RpcProtocol`, `RpcRun`, `RpcRequester`, `RpcResponder`, `RpcShutdown` | requests, acknowledgements and replies over ZeroMQ, MQTT and WebRTC, end to end; locks, wake-ups and shutdown of the requester |
| `Discovery`, `DiscoveryOrder`, `DiscoveryCache`, `Advertising` | the mDNS record cache and what announcements make of it |
| `MqttTopics`, `MqttRegistry` | wildcard matching and the subscription registry |
| `Msgpack`, `Serializer` | the MessagePack packer and unpacker |
| `Base64Url`, `FlacPcm` | identifier encoding, PCM loops around the FLAC codec |
| `ServerPool`, `ServerNode`, `NodeLifecycle` | the worker pool and the life of a node |
| `RelaySignaling` | the HTTP relay's sender and poller |
| `StreamQueue`, `StreamReading`, `Streams` | the bounded queues of stream writers and readers, and their closing |
| `Values` | the dynamic values all of them pass around |

## What is assumed

- A lock-protected section, an atomic operation and one message are each one indivisible step.
- Request ids, message ids and participant ids are fresh or distinct where the source draws them at random.
- The signals of one link are handled one at a time; the network may lose, repeat and reorder what
  participants publish, but invents nothing.
- A link whose flag says connected has its data channel, and what is handed to an open channel is sent.
- The MQTT client library keeps the order of the commands handed to it.
- MessagePack: a buffer is the sequence of tokens the packer emits. Which doubles the library stores
  as integers is a parameter. A raw byte where a token header is expected counts as malformed; no
  statement depends on that, because oversized values are excluded by their own counts.
- FLAC: lossless, the decoder calling back with the encoder's samples in blocks of any size. Samples
  are read and written low byte first, as on the hosts the library runs on.
- mDNS: a record is what the parser extracts; the printed form of an address is a parameter.
- The relay stores a message unless it remembers its id; otherwise it may answer anything, lose
  requests, responses and its whole memory, and see a request late.

## Where the code does not do what one might expect

Each of these has a lemma that shows it, mostly as a run from the start, and a theorem that says
exactly when it happens.

- A malformed message notifies only one of a call's two condition variables; a caller in its other
  wait sleeps on until its time-out. Shown by `RpcShutdown.AMissedWakeUpExample`; exactly these
  messages do it (`RpcShutdown.MessageWakesExactly`), and nothing else loses a wake-up
  (`RpcShutdown.NoWakeUpIsLost`).
- An `rpc_rep` without payload returns Null over WebRTC and fails the call elsewhere
  (`RpcProtocol.ReplyWithoutPayload`, both directions).
- After a goodbye the host entry stays, so addresses that come back before their SRV record are lost
  (`Advertising.AReturnExample`, `Advertising.ReturnAfterGoodbyeDependsOnOrder`), and a withdrawn address of an unknown host is
  parked as if it were live; `DiscoveryOrder.WhenAnAddressIsKept` says for every address record when.
- Ids with upper-case letters never resolve (`Discovery.OnlyLowerCaseIdsResolve`); of a fully
  announced node `Advertising.FoundUnderItsOwnId` says exactly when its own id does.
- `p/#` does not match `p` and a final `+` does not match an empty level; `MqttTopics.AcceptsExactly`
  has no other difference from the standard. The comment above the matcher names section 4.7 of the
  standard; the model follows the code.
- Subscribe and unsubscribe commands are handed to the client library outside the registry's mutex
  and can overtake each other. Shown by `MqttRegistry.OvertakenUnsubscribeLosesTheFilter`; an operation
  runs into it exactly when a command of the opposite kind is on its way
  (`MqttRegistry.OvertakenExactlyByTheOpposite`), and callers are safe who start an operation on a
  filter only when no command about it is on its way (`MqttRegistry.BrokerServesTheRegistry`).
- An answer over WebRTC can be lost for good, in two ways: a hello has replaced the link of the peer
  that asked, or the chosen link is not connected, drops the answer without a word, and a reply has
  used up its origin by then. Shown by `PeerGroup.AReplyLostToAHello` and
  `PeerGroup.AReplyLostUnconnected`; exactly when, by `PeerRpc.AnswersReachTheRequesterExactly`. A sweep
  of lost links is no such loss by itself: the link made anew is chosen, and gets the answer if it is
  connected by then.
- Doubles the library stores as integers do not come back as doubles, and counts of binaries, lists
  and dictionaries are narrowed to 32 bits without an error (`Msgpack.RoundTripsExactly`, both
  directions).
- Replies still queued when the server's loop ends are not sent. Shown by
  `ServerPool.ALostAnswerExample`; which ones, by `ServerPool.LeftUnsentExactly` and
  `ServerPool.AnswersLostExactly`.
- A request received while the server stops can be acknowledged and never handled. Shown by
  `ServerPool.ANeverHandledExample`; exactly when, by `ServerPool.NeverHandledExactly`.
- terminate without a time-out waits for ever after a setup that threw. Shown by
  `NodeLifecycle.AFailedSetupExample`; it happens then and only then
  (`NodeLifecycle.ReturnsExactlyUnlessSetupThrew`).
- A write that overlaps close can leave its frame in the queue. Shown by
  `StreamQueue.ALateFrameExample`; exactly when, by `StreamQueue.LeavesNothingExactly`.
- Close of a queued reader notifies without the queue's mutex, so a read about to sleep can miss it.
  Shown by `StreamReading.AMissedCloseExample`; exactly when, by `StreamReading.CloseReleasesExactly`.

## Model

| member | source | states |
|---|---|---|
| PeerLink.CandidatesInOrder | src/transport/webrtc/webrtc_connection.cpp:271-436 | over any sequence of signals and channel events of one link: candidates handed to the peer connection followed by those waiting are exactly the non-empty candidates received, in order and once each; none handed before the remote description is set, none waiting afterwards |
| PeerLink.OffersExactlyWhenLarger | src/transport/webrtc/webrtc_connection.cpp:312-343 | a link offers at most once, exactly when its own id is larger than the remote's and a hello of the remote was handled, whatever is repeated or reordered |
| PeerLink.DescribedExactly | src/transport/webrtc/webrtc_connection.cpp:345-437 | from the events alone, over any sequence of them: the link is connected, has a peer connection and has its remote description exactly when the channel events, hellos and accepted offers and answers since the last loss say so, an answer counting only if a connection was there; with a remote description all candidates received have been handed over |
| PeerLink.AnswersOnceWhenSmaller | src/transport/webrtc/webrtc_connection.cpp:327-342 | a hello is answered at most once over any sequence of events: by the first hello of the remote that is handled, exactly when its own id is the smaller; the answer is a hello that carries its own id, role and restart id |
| PeerLink.OnlyHelloDecides | src/transport/webrtc/webrtc_connection.cpp:284-437 | no signal but a hello changes the role decision, the offer count or the remembered remote id, and no signal changes who the link is |
| PeerLink.AddressedSignal | src/transport/webrtc/webrtc_connection.cpp:90-108 | a published signal names its addressee and the sender's role and leaves every other field alone |
| PeerGroup.MirrorInEveryRun | src/transport/webrtc/webrtc_connection.cpp:798-836 | whenever the group mutex is free, every peer holds exactly the group's callback entries, in every run of arrivals, replacements, additions and removals |
| PeerGroup.CallbacksAreThoseGiven | src/transport/webrtc/webrtc_connection.cpp:973-1153 | in every run the entries of the group are exactly those given and not removed since, each under a handle of its own |
| PeerGroup.OtherStepsExactly | src/transport/webrtc/webrtc_connection.cpp:919-1340 | what every other step changes, field by field: readiness, callbacks, origins and stopping |
| PeerGroup.ChurnBoundedInEveryRun | src/transport/webrtc/webrtc_connection.cpp:864-912 | in every run the links made for a peer are at most one more than its ready notifications plus the changes of restart id in its hellos |
| PeerGroup.AnswersGoToTheLatestOrigin | src/transport/webrtc/webrtc_connection.cpp:1311-1340 | in every run an rpc_ack or rpc_rep is meant for at most one peer, the one that last recorded a request with its rid; every other message for exactly the connected peers |
| PeerGroup.AnswerIsMeantForRequesterExactly | src/transport/webrtc/webrtc_connection.cpp:1311-1340 | the link chosen for an answer to a request recorded once is that of the peer that asked if and only if that peer has a link, no hello replaced its link since, the group was not cleared and no reply went out yet; else none is chosen |
| PeerGroup.AnswerReachesRequesterExactly | src/transport/webrtc/webrtc_connection.cpp:1311-1351 | when nothing happens between choosing the link and handing over: the answer reaches the peer that asked if and only if a link is chosen and that link is connected; else nobody. A link that was swept and made anew will do once it is connected |
| PeerGroup.AReplyLostToAHello | src/transport/webrtc/webrtc_connection.cpp:864-1351 | a run from the start in which a peer asks, restarts and opens its new link, and the reply is meant for nobody |
| PeerGroup.AReplyLostUnconnected | src/transport/webrtc/webrtc_connection.cpp:1311-1351 | a run from the start in which the chosen link has lost its connection and drops the reply, its origin gone: the link comes back and no answer reaches the peer any more |
| PeerGroup.RepliesNeverExceedRequests | src/transport/webrtc/webrtc_connection.cpp:1324-1334 | in every run no more rpc_rep are routed for a rid than requests were recorded for it |
| PeerGroup.RequestIsAnsweredOnce | src/transport/webrtc/webrtc_connection.cpp:1311-1351 | after a request is recorded its acknowledgement and its reply reach the recording peer if its link is connected; the reply uses up the origin also when the link dropped it, and no later answer is meant for anybody |
| PeerRpc.OnlyTheRequesterHears | src/transport/webrtc/webrtc_connection.cpp:1226-1351 | with fresh rids, in every run of the group and its responders: only the peer that sent a request is ever chosen for an answer to it, and only that peer can get it |
| PeerRpc.AnswersChooseTheRequesterExactly | src/transport/webrtc/webrtc_connection.cpp:1226-1340 | with fresh rids, in every run: the link chosen for an rpc_ack or rpc_rep is that of the peer that asked if it has one and since it asked no hello replaced its link and the group was not cleared, and otherwise none |
| PeerRpc.AnswersReachTheRequesterExactly | src/transport/webrtc/webrtc_connection.cpp:1226-1351 | with fresh rids, in every run, whatever happens between choosing and handing over: an rpc_ack or rpc_rep reaches the peer that asked if its link is chosen and that very link is connected when the answer is handed to it, and otherwise nobody |
| PeerRpc.AnswersReachAtOnceExactly | src/transport/webrtc/webrtc_connection.cpp:1226-1351 | handed over at once it reaches the peer that asked if that peer has a connected link and since it asked no hello replaced its link and the group was not cleared, and otherwise nobody |
| PeerRpc.OpenInEveryRun | src/transport/webrtc/webrtc_connection.cpp:1155-1157 | in every run a link of the table says it is connected exactly when it is among the open ones, and no link is under two remotes |
| PeerRpc.WhatIsSentExactly | src/transport/webrtc/webrtc_connection.cpp:1226-1351 | what a responder of the group takes up and sends: a well-formed request that is acknowledged becomes a job with its peer, rid and payload, a job that ends with an answer sends that, and nothing else sends |
| PeerRpc.ARequestIsAnsweredExample | src/transport/webrtc/webrtc_connection.cpp:1226-1351 | any request of any peer has a run in which that peer gets the acknowledgement and the reply |
| PeerNetwork.NoPairHasTwoOfferers | src/transport/webrtc/webrtc_connection.cpp:312-343 | for any set of participants with distinct ids and any loss, duplication or reordering of signals: of all links two participants ever made for each other only those at the larger id offer, each at most once |
| PeerNetwork.LinksJoinOppositeSides | src/transport/webrtc/webrtc_connection.cpp:838-862 | in every run no link joins two clients, two hosts or a participant with itself |
| PeerNetwork.PublishedIsHonest | src/transport/webrtc/webrtc_connection.cpp:777-796 | every signal a participant publishes carries its own id, its true role and, where addressed, an addressee |
| PeerNetwork.NobodyHearsWhatIsMeantForOthers | src/transport/webrtc/webrtc_connection.cpp:838-862 | in every run of every set of participants each signal a participant acted on names it as addressee or names none |
| PeerNetwork.WhatIsReceivedIsHandedOn | src/transport/webrtc/webrtc_connection.cpp:838-917 | in every run a signal that reaches a participant and is meant for it is handed to its link with the sender |
| PeerNetwork.WhatIsNotMeantIsIgnored | src/transport/webrtc/webrtc_connection.cpp:838-862 | and one that is meant for nobody here, or comes after the group has stopped, changes nothing |
| PeerNetwork.TwoParticipantsConnect | src/transport/webrtc/webrtc_connection.cpp:284-437 | for any two participants on opposite sides or of a mesh there is a run in which they connect: the smaller id says hello, the larger offers once, the answer comes back, and both ends have their remote description |
| PeerNetwork.EveryLinkHasItsHistory | src/transport/webrtc/webrtc_connection.cpp:284-437 | in every run of a network each link ever made is what the signals handled for it and its channel events make of a fresh one, so all that is proved of single links holds of it |
| PeerNetwork.EveryGroupHasItsRun | src/transport/webrtc/webrtc_connection.cpp:838-957 | and each group is where a run of its own takes it that consists of the signals received and its other steps |
| PeerNetwork.PublishedExactly | src/transport/webrtc/webrtc_connection.cpp:777-796 | in every run the channel has carried exactly what was published |
| PeerConnection.Link.SetupPeerConnection | src/transport/webrtc/webrtc_connection.cpp:110-241 | the link has a peer connection from then on; nothing else of its state changes |
| PeerConnection.Link.CreateOffer | src/transport/webrtc/webrtc_connection.cpp:243-269 | one more offer is made; nothing else of the link's state changes |
| PeerConnection.Link.ApplyPendingCandidates | src/transport/webrtc/webrtc_connection.cpp:271-282 | the loop hands over exactly the waiting candidates, in order, and leaves none waiting |
| PeerConnection.Link.OnSignalMessage | src/transport/webrtc/webrtc_connection.cpp:284-437 | one signal takes the link to the state the pure step gives, which PeerLink.DescribedExactly, OffersExactlyWhenLarger, AnswersOnceWhenSmaller and CandidatesInOrder pin down from the events alone |
| PeerConnection.Link.OnDataChannelMessage | src/transport/webrtc/webrtc_connection.cpp:439-587 | the callbacks called are exactly those the link's tables hold for the message |
| PeerConnection.CalledForExactly | src/transport/webrtc/webrtc_connection.cpp:634-760 | from the fields of a message alone, kind by kind: for which callbacks it is |
| PeerConnection.Group.constructor | src/transport/webrtc/webrtc_connection.cpp:747-783 | a new group has no peers, no callbacks and no origins |
| PeerGroup.SenderExactly | src/transport/webrtc/webrtc_connection.cpp:838-862 | a signal has a sender exactly when it is a dictionary whose peer_id is a non-empty string other than the group's own id, whose to_peer_id is absent or the group's own, and whose role is not that of the same exclusive side |
| PeerGroup.ActsExactlyOnItsOwn | src/transport/webrtc/webrtc_connection.cpp:838-917 | a signal meant for somebody else, or one with no sender, leaves the group as it was; every other one gives a group that is not stopped a link to its sender |
| PeerConnection.Group.Sender | src/transport/webrtc/webrtc_connection.cpp:838-862 | the sender PeerGroup.SenderExactly characterises, or none |
| PeerConnection.Group.NoteRestart | src/transport/webrtc/webrtc_connection.cpp:870-876 | a restart id is remembered and reported new exactly when it differs from the one known |
| PeerConnection.Group.ErasePeer | src/transport/webrtc/webrtc_connection.cpp:879-887 | a replaced link takes its readiness and all its request origins with it |
| PeerConnection.Group.RegisterCallbacks | src/transport/webrtc/webrtc_connection.cpp:798-836 | a new link's tables mirror the group's, request callbacks wrapped for its remote |
| PeerConnection.Group.MakeLink | src/transport/webrtc/webrtc_connection.cpp:889-907 | a fresh link enters the peers with mirrored tables and a new identity |
| PeerConnection.Group.Route | src/transport/webrtc/webrtc_connection.cpp:864-912 | the locked section of onSignal: the link found, made or replaced, and the new group state, as the pure step gives them |
| PeerGroup.ReasonsExactly | src/transport/webrtc/webrtc_connection.cpp:864-890 | from the fields alone: why a signal makes a link, replaces the one there is, or leaves it |
| PeerGroup.SignalChangesLinksExactly | src/transport/webrtc/webrtc_connection.cpp:864-912 | what a signal does to the peers: a link is made or replaced for the sender alone, with the group's callbacks, and every other peer stays |
| PeerGroup.SignalChangesRestExactly | src/transport/webrtc/webrtc_connection.cpp:864-912 | what it does to readiness, restart ids and recorded origins: those of the sender, and only when its link is replaced |
| PeerGroup.SignalLogsExactly | src/transport/webrtc/webrtc_connection.cpp:864-912 | which link is started, which gets the signal and which is retired |
| PeerConnection.Group.OnSignal | src/transport/webrtc/webrtc_connection.cpp:838-917 | the whole of onSignal: routing, starting a created link, handing the signal to it and retiring the old one |
| PeerConnection.Group.Install | src/transport/webrtc/webrtc_connection.cpp:1186-1203 | an added callback enters the group's table and every peer's |
| PeerConnection.Group.Uninstall | src/transport/webrtc/webrtc_connection.cpp:1205-1224 | a removed callback leaves the group's table and every peer's |
| PeerConnection.Group.AddRpcRequestCallback | src/transport/webrtc/webrtc_connection.cpp:1226-1258 | as Install, the peers' copies recording the origin before they run; the handle is new |
| PeerConnection.Group.RemoveRpcRequestCallback | src/transport/webrtc/webrtc_connection.cpp:1260-1279 | as Uninstall for a service and handle |
| PeerConnection.Group.AddRpcReplyCallback | src/transport/webrtc/webrtc_connection.cpp:1281-1294 | a reply callback for a rid enters the group's table and every peer's |
| PeerConnection.Group.RemoveRpcReplyCallback | src/transport/webrtc/webrtc_connection.cpp:1296-1309 | a reply callback for a rid leaves the group's table and every peer's |
| PeerConnection.Group.AddVideoCallback | src/transport/webrtc/webrtc_connection.cpp:1353-1370 | as Install for the video table; the handle is new |
| PeerConnection.Group.RemoveVideoCallback | src/transport/webrtc/webrtc_connection.cpp:1372-1385 | as Uninstall for the video table |
| PeerConnection.Group.AddAudioCallback | src/transport/webrtc/webrtc_connection.cpp:1387-1404 | as Install for the audio table; the handle is new |
| PeerConnection.Group.RemoveAudioCallback | src/transport/webrtc/webrtc_connection.cpp:1406-1419 | as Uninstall for the audio table |
| PeerConnection.Group.AddPubCallback | src/transport/webrtc/webrtc_connection.cpp:1186-1203 | as Install for a topic; the handle is new |
| PeerConnection.Group.RemovePubCallback | src/transport/webrtc/webrtc_connection.cpp:1205-1224 | as Uninstall for a topic and handle |
| PeerConnection.Group.SendTargets | src/transport/webrtc/webrtc_connection.cpp:1311-1340 | the peers a message goes to, and the origin forgotten with the reply, as the pure step gives them |
| PeerConnection.Link.SendData | src/transport/webrtc/webrtc_connection.cpp:1342-1351 | a link takes a message exactly when it is connected |
| PeerConnection.Group.SendData | src/transport/webrtc/webrtc_connection.cpp:1311-1340 | the whole of sendData when nothing interferes: the chosen links that are connected get the message, and the group's new state is that of the pure step |
| PeerConnection.Group.OnStateChange | src/transport/webrtc/webrtc_connection.cpp:896-905 | a connected link makes its remote ready |
| PeerGroup.SweepsExactly | src/transport/webrtc/webrtc_connection.cpp:946-957 | after a sweep a peer is there exactly if it was and is connected or was never ready; those that stay are unchanged, and those taken out lose their readiness |
| PeerGroup.SweepsSpareTheConnected | src/transport/webrtc/webrtc_connection.cpp:946-957 | in every run a sweep takes out no connected peer, and every peer that was ready and is not connected |
| PeerConnection.Group.SweepStale | src/transport/webrtc/webrtc_connection.cpp:946-957 | the links of exactly those peers are handed back to be disconnected |
| PeerConnection.Group.FinishStop | src/transport/webrtc/webrtc_connection.cpp:978-986 | stopping empties peers, origins and restart ids and hands back every link that was there |
| PeerConnection.EveryPeerCallsTheGroupsCallbacks | src/transport/webrtc/webrtc_connection.cpp:439-587 | in every run the calls a live peer's link makes for a data message are the group's callbacks the message is for, each once; request callbacks note that peer as the origin, the others are the user's own |
| RpcProtocol.RequestRoundTrip | src/transport/zmq/zmq_rpc_responder.cpp:95-158 | the responder gets out of a request exactly the rid, return address and payload the caller put in, for all three transports |
| RpcProtocol.AcceptsExactly | src/transport/zmq/zmq_rpc_responder.cpp:15-21 | which messages are requests, and where the answers go |
| RpcProtocol.ProcessExactly | src/transport/zmq/zmq_rpc_requester.cpp:554-613 | what each message does to flags, payload and error of its call, field by field |
| RpcProtocol.AnswersDoTheirPart | src/transport/zmq/zmq_rpc_requester.cpp:528-610 | an acknowledgement sets only the acked flag and a reply only the payload and its flag, of the call with their rid |
| RpcProtocol.ProcessIsMonotone | src/transport/zmq/zmq_rpc_requester.cpp:528-610 | no message takes back an acknowledgement, a reply or an error |
| RpcProtocol.ReplyWithoutPayload | src/transport/webrtc/webrtc_rpc_requester.cpp:163-208 | a reply without payload fails the call over ZMQ and MQTT and, over WebRTC alone, lets it return Null |
| RpcRun.ReturnsItsOwnReply | src/transport/zmq/zmq_rpc_requester.cpp:152-267 | with any number of callers and requesters and a network that drops, duplicates and reorders: a call that returns normally returns the handler's value for its own request, after both an acknowledgement and a reply for its own rid were processed |
| RpcRun.ACallCanReturn | src/transport/zmq/zmq_rpc_requester.cpp:152-267 | for every transport, handler and request there is a run in which the call returns, in either order of acknowledgement and reply |
| RpcRun.NothingStaysPending | src/transport/zmq/zmq_rpc_requester.cpp:174-265 | in every run, once all callers have left the pending map is empty |
| RpcRun.EndingIsFinal | src/transport/zmq/zmq_rpc_requester.cpp:152-267 | how a call ended is final, whatever still arrives |
| RpcRun.FlagsTellWhatWasApplied | src/transport/zmq/zmq_rpc_requester.cpp:528-610 | in every run an acked or replied flag is set exactly if the acknowledgement or the reply of that call was processed |
| RpcRun.EndsExactly | src/transport/zmq/zmq_rpc_requester.cpp:191-267 | how a call ends, from its own fields: it throws exactly when it cannot be sent or judges a wait that nothing has ended and there is an error or a time-out; it goes on past a wait only with that wait's flag, and returns only by leaving |
| RpcRun.OnlyPendingCallsAreReached | src/transport/zmq/zmq_rpc_requester.cpp:454-575 | a message is looked up only for a pending call of the requester it reached, a sweep empties that requester's table and no other, and only calls it took are failed |
| RpcRequester.Requester.OnMessage | src/transport/zmq/zmq_rpc_requester.cpp:528-610 | one incoming message changes exactly the pending call with its rid, as the protocol says, and no other |
| RpcRequester.Requester.FailAllPending | src/transport/zmq/zmq_rpc_requester.cpp:454-469 | the sweep empties the table and sets an error on exactly the calls that were in it and had none |
| RpcRequester.Requester.Register | src/transport/zmq/zmq_rpc_requester.cpp:174-180 | a new call enters the table under its rid and the others stay |
| RpcRequester.Requester.TransportCall | src/transport/zmq/zmq_rpc_requester.cpp:152-267 | a call that is refused or cannot be sent throws that error; otherwise it returns, throws or times out exactly as its flags and errors say after the messages, sweeps and other callers' comings and goings up to the look that ends each of its two waits. It leaves the table without it, the calls that were not swept and did not leave still the same objects |
| RpcRequester.GenuineAnswersDecide | src/transport/zmq/zmq_rpc_requester.cpp:152-267 | with a genuine responder a call returns the response exactly when an acknowledgement came during the first wait and a reply by the end of the second, each before any sweep; else it throws the first sweep's error or times out |
| RpcRequester.OnlyTheFirstSweepCounts | src/transport/zmq/zmq_rpc_requester.cpp:454-469 | what a call has seen after any events is the messages before the first sweep, and then that sweep's error if it had none; other callers make no difference |
| RpcRequester.Requester.Sleep | src/transport/zmq/zmq_rpc_requester.cpp:184-262 | while a caller sleeps, any sequence of messages, sweeps and other callers leaves its call, and the table, where the pure fold says |
| RpcRequester.ProcessAllIsMonotone | src/transport/zmq/zmq_rpc_requester.cpp:528-610 | once acknowledged or replied a call stays so through any messages |
| RpcRequester.ProcessedExactly | src/transport/zmq/zmq_rpc_requester.cpp:528-613 | whatever the messages are, a call is acknowledged or replied exactly if one with its rid does it |
| RpcRequester.LivedExactly | src/transport/zmq/zmq_rpc_requester.cpp:174-267 | a refused call sees nothing, another its first wait, and its second exactly when an acknowledgement came in the first before any sweep |
| RpcRequester.OthersExactly | src/transport/zmq/zmq_rpc_requester.cpp:174-469 | another call is in the table exactly if the last event about it is its registration, or it was there and there is none |
| RpcShutdown.SweptCallersAreReleased | src/transport/zmq/zmq_rpc_requester.cpp:454-469 | in every interleaving: a call some sweep took from the table, once no sweep has it in hand, has its wait condition true and its caller is not asleep without a wake-up |
| RpcShutdown.NoWakeUpIsLost | src/transport/zmq/zmq_rpc_requester.cpp:174-265 | in every interleaving a caller asleep although its condition holds has a notification on its way, except after a malformed message for the other of its two waits |
| RpcShutdown.MalformedMessageMissesTheOtherWait | src/transport/zmq/zmq_rpc_requester.cpp:574-610 | the exception is real: the error becomes true, the other condition variable alone is notified, and the caller sleeps on |
| RpcShutdown.MessageWakesExactly | src/transport/zmq/zmq_rpc_requester.cpp:574-610 | a message that makes a sleeping caller's condition true leaves it asleep if and only if it is malformed and of the kind the caller does not wait for |
| RpcShutdown.AMissedWakeUpExample | src/transport/zmq/zmq_rpc_requester.cpp:574-610 | for each of the two waits a run from the start in which the caller sleeps on with its condition true and no notification on its way |
| RpcShutdown.NoRunDeadlocks | src/transport/zmq/zmq_rpc_requester.cpp:174-265 | in every interleaving no two threads hold the same mutex, and whenever a thread is blocked a mutex holder can take a step |
| RpcShutdown.WaitsForItsMutexOnly | src/transport/zmq/zmq_rpc_requester.cpp:174-265 | a thread at a mutex can go on exactly when nobody holds that one |
| RpcShutdown.TableEmptiesWhenAllLeave | src/transport/zmq/zmq_rpc_requester.cpp:174-265 | in every interleaving, once all callers have left the table is empty |
| RpcShutdown.FlagsRiseExactly | src/transport/zmq/zmq_rpc_requester.cpp:528-613 | in every run each flag of a call is raised exactly by the messages of its kind, and the error by malformed ones and sweeps; none is ever lowered |
| RpcShutdown.FoundInTheTable | src/transport/zmq/zmq_rpc_requester.cpp:566-575 | a service locks a call for a message only if it found it in the table, and a sweep takes the whole table and leaves it empty |
| RpcShutdown.AReturnExample | src/transport/zmq/zmq_rpc_requester.cpp:174-267 | a run from the start in which a call gets both messages and returns |
| RpcShutdown.ASweptCallExample | src/transport/zmq/zmq_rpc_requester.cpp:174-469 | for each of its two waits a run in which a call is swept, woken and throws |
| RpcShutdown.ATimeOutExample | src/transport/zmq/zmq_rpc_requester.cpp:174-265 | a run in which a call is woken for nothing, sleeps again, times out and throws |
| RpcShutdown.ASendFailsExample | src/transport/zmq/zmq_rpc_requester.cpp:181-189 | a run in which the request cannot be sent and the call leaves the table |
| RpcResponder.Responder.TransportRecv | src/transport/zmq/zmq_rpc_responder.cpp:95-158 | the oldest request is consumed; its payload and client context are given out exactly when it is well-formed and its acknowledgement was sent |
| RpcResponder.Responder.TransportSend | src/transport/zmq/zmq_rpc_responder.cpp:161-197 | the reply carries the rid and goes to the address its request came with |
| RpcResponder.Responder.HandleOnce | src/transport/rpc_responder.cpp:14-62 | what one call puts on the wire and whether it returns true, false or throws, for every outcome of receive, handler and sends |
| RpcResponder.Responder.OnRequestMessage | src/transport/mqtt/mqtt_rpc_responder.cpp:56-66 | a request is queued last, or dropped once closed |
| RpcResponder.Responder.Close | src/transport/rpc_responder.cpp:64-77 | only the first close reaches the transport |
| RpcResponder.AnswersNeverExceedRequests | src/transport/rpc_responder.cpp:14-62 | over any number of requests and failures, an address gets for a rid no more replies than acknowledgements and no more of these than well-formed requests it sent with it |
| RpcResponder.AnswerFollowsAck | src/transport/rpc_responder.cpp:14-62 | a handled request's reply follows its acknowledgement directly, to the same address, with the handler's answer |
| RpcResponder.ReportsExactly | src/transport/rpc_responder.cpp:14-62 | a request is reported as handled exactly if its reply followed its acknowledgement, or it was acknowledged and wanted none |
| Discovery.SoundInEveryRun | src/discovery/zconf_discovery.cpp:630-894 | in every run of records, goodbyes included: entries carry their own lower-case key and an expiry, an instance maps to the id its name spells, no address is listed twice, and no host is both known and parked |
| Discovery.OnlyLowerCaseIdsResolve | src/discovery/zconf_discovery.cpp:406-419 | an id with an upper-case letter is never resolved, whatever was received |
| DiscoveryOrder.OrderAndRepetitionDoNotMatter | src/discovery/zconf_discovery.cpp:668-893 | two runs of live, mutually consistent records that handled the same set of records end in equal tables, that of the instances included, up to the order of addresses and the expiry times |
| DiscoveryOrder.AddressesAreInOnePlace | src/discovery/zconf_discovery.cpp:827-893 | every address seen for a host is in exactly one place: at the node of the host, or parked while the host is unknown |
| DiscoveryOrder.WhenAnAddressIsKept | src/discovery/zconf_discovery.cpp:827-893 | a live address is kept if and only if its host is unknown or its node is there; a withdrawn one is forgotten if and only if its host is known |
| DiscoveryOrder.KnownHostsHaveNodes | src/discovery/zconf_discovery.cpp:712-768 | without goodbyes the node of a known host is always there, so no live address is lost |
| Advertising.NodeIdRoundTrip | src/discovery/zconf_discovery.cpp:446-463 | the node id taken out of an advertised instance name is the lower-cased id, for every id and service |
| Advertising.HostsDiffer | src/discovery/zconf_discovery.cpp:333-335 | ids that differ after lower-casing never share a normalised host |
| Advertising.AdvertisedNodesAreFound | src/discovery/zconf_discovery.cpp:899-958 | once all records of a node's announcement have arrived, in any order and repetition and among those of other nodes, the cache holds exactly what was advertised, and the node resolves if and only if it has a port and an address |
| Advertising.FoundUnderItsOwnId | src/discovery/zconf_discovery.cpp:406-419 | of a completely announced node: the id it was given resolves if and only if that id has no upper-case letter, its port is not 0 and an address was announced |
| Advertising.ReturnAfterGoodbyeDependsOnOrder | src/discovery/zconf_discovery.cpp:691-697 | after a goodbye the host outlives its node: an address handled before the SRV record is lost, after it is kept |
| Advertising.AReturnExample | src/discovery/zconf_discovery.cpp:691-893 | from an empty cache: a node's address is known, and after its goodbye and return lost if handled before the SRV record, known again if after it |
| Advertising.AnnouncesTheFirst | src/discovery/zconf_discovery.cpp:926-955 | how many address records fit and that they are the first ones |
| Advertising.GoodbyeForgets | src/discovery/zconf_discovery.cpp:960-977 | a goodbye removes the node, its instance and its expiry, and leaves its host |
| Advertising.GoodbyeSparesTheOthers | src/discovery/zconf_discovery.cpp:691-697 | in every run a goodbye of one advertised node changes no other node's answer |
| Advertising.Announced | src/discovery/zconf_discovery.cpp:930-952 | at most 29 addresses are announced |
| DiscoveryCache.Cache.constructor | src/discovery/zconf_discovery.cpp:245-246 | an empty cache for the service type with a final dot |
| Discovery.GoodbyeTakesOneExactly | src/discovery/zconf_discovery.cpp:691-815 | a PTR, SRV or TXT record with time to live 0: its node, that node's expiry and that instance go; membership, entry, expiry and answer of every other node, every other instance, all hosts and all parked addresses stay |
| Discovery.WithdrawalTakesOneExactly | src/discovery/zconf_discovery.cpp:836-894 | an address with time to live 0 leaves the node of its host and nothing else changes; of an unknown host it is parked |
| Discovery.LiveRecordsTeachExactly | src/discovery/zconf_discovery.cpp:699-824 | what a live PTR, SRV or TXT record changes, table by table: instance, host and port with the parked addresses, or payload, the rest of the entry and all else kept |
| Discovery.LiveRecordsSetTheExpiry | src/discovery/zconf_discovery.cpp:665-824 | such a record makes its node known and sets its expiry to now plus the time to live in seconds; no other node is touched |
| Discovery.ForeignRecordsTeachNothing | src/discovery/zconf_discovery.cpp:682-795 | records of other services and empty names change nothing |
| Discovery.AddressesArePlacedExactly | src/discovery/zconf_discovery.cpp:836-894 | an address that is announced joins those of its host's node and renews its expiry, is parked if nobody has named the host, and dropped if the node is gone |
| Discovery.NodeIdExactly | src/discovery/zconf_discovery.cpp:446-470 | the node id in a name is what precedes the service, but for case and final dots, and empty when the name is of another service |
| Discovery.LastValueExactly | src/discovery/zconf_discovery.cpp:786-797 | of a TXT record's values for a key the last non-empty one is taken |
| DiscoveryCache.Cache.HandleRecord | src/discovery/zconf_discovery.cpp:630-894 | one record takes the five maps where the pure step says, which the rows above characterise |
| DiscoveryCache.Cache.NameNode | src/discovery/zconf_discovery.cpp:688-709 | the locked part of a PTR record |
| DiscoveryCache.Cache.LocateNode | src/discovery/zconf_discovery.cpp:726-768 | the locked part of a SRV record: parked addresses move to the node without duplicates |
| DiscoveryCache.Cache.DescribeNode | src/discovery/zconf_discovery.cpp:807-824 | the locked part of a TXT record |
| DiscoveryCache.Cache.PlaceAddress | src/discovery/zconf_discovery.cpp:837-860 | the locked part of an A or AAAA record: parked, added once, withdrawn or dropped |
| DiscoveryCache.Cache.ResolveNode | src/discovery/zconf_discovery.cpp:406-419 | found if and only if the id is a key and the entry has an id, a port and an address |
| DiscoveryCache.ReadPairs | src/discovery/zconf_discovery.cpp:786-801 | the last non-empty node_id and payload of a TXT record, the payload {} by default |
| DiscoveryCache.BuildAnnouncement | src/discovery/zconf_discovery.cpp:899-952 | the records built are exactly those of the announcement, within the 32 places |
| MqttTopics.TopicMatches | src/transport/mqtt/mqtt_connection.cpp:43-71 | the pointer loop terminates and decides what the recursive scan of the two C strings decides |
| MqttTopics.AcceptsExactly | src/transport/mqtt/mqtt_connection.cpp:43-71 | for every well-formed filter and every topic the matcher accepts exactly what section 4.7.1 of MQTT 3.1.1 accepts, except for "p/#" against "p" and a final "+" against an empty last level |
| MqttTopics.NeverTooGenerous | src/transport/mqtt/mqtt_connection.cpp:43-71 | it never accepts what that section rejects |
| MqttTopics.ParentIsRefused | src/transport/mqtt/mqtt_connection.cpp:65-70 | "p/#" does not match "p", which the standard accepts |
| MqttTopics.EmptyLastLevelIsRefused | src/transport/mqtt/mqtt_connection.cpp:65-70 | "p/+" does not match "p/", which the standard accepts |
| MqttTopics.LevelsRejoin | src/transport/mqtt/mqtt_connection.cpp:43-71 | the levels compared are what stands between the slashes: joined again they are the string |
| MqttRegistry.Registry.AddSubscription | src/transport/mqtt/mqtt_connection.cpp:318-345 | the callback is registered under a new handle; the broker is asked exactly for the first callback of a filter |
| MqttRegistry.Registry.RemoveSubscription | src/transport/mqtt/mqtt_connection.cpp:347-372 | the callback goes; the broker is told exactly when the filter has none left |
| MqttRegistry.Registry.OnMessage | src/transport/mqtt/mqtt_connection.cpp:154-184 | each registered callback whose filter accepts the topic is called exactly once, and no other |
| MqttRegistry.CalledWhileRegistered | src/transport/mqtt/mqtt_connection.cpp:154-184 | in every run a callback is called for a matching message if and only if it has not been removed since it was added |
| MqttRegistry.SoundInEveryRun | src/transport/mqtt/mqtt_connection.cpp:318-372 | no filter without callbacks stays in the table and no handle is given out twice |
| MqttRegistry.RemoveUndoesAdd | src/transport/mqtt/mqtt_connection.cpp:318-372 | removing what was just added restores the table, and unsubscribes if and only if adding subscribed |
| MqttRegistry.CommandsTellWhatChanged | src/transport/mqtt/mqtt_connection.cpp:318-372 | an operation asks to subscribe or unsubscribe exactly when its filter enters or leaves the table |
| MqttRegistry.AgreesWhenTheLastArrivesLast | src/transport/mqtt/mqtt_connection.cpp:318-372 | with any operations overlapping and commands handed to the client library in any order: of a filter without commands on their way to it, the broker serves it exactly when it has a callback if and only if the last command handed over was of the kind of the last one issued |
| MqttRegistry.BrokerServesTheRegistry | src/transport/mqtt/mqtt_connection.cpp:318-372 | when every operation on a filter starts with no command about it on its way, whatever those on other filters do, the broker serves it exactly when it has a callback |
| MqttRegistry.AgreesExactlyWhenSettled | src/transport/mqtt/mqtt_connection.cpp:335-371 | from a state with commands about a filter on their way there is an order of handing them over, and every order ends in agreement if and only if all of them are of the kind last issued |
| MqttRegistry.OvertakenExactlyByTheOpposite | src/transport/mqtt/mqtt_connection.cpp:335-371 | after an operation that asks something of the broker every order of handing over ends in agreement about its filter if and only if no command of the opposite kind was on its way before |
| MqttRegistry.OvertakenUnsubscribeLosesTheFilter | src/transport/mqtt/mqtt_connection.cpp:357-371 | a run from the start in which everything was handed over and the broker does not serve a filter that has a callback: the unsubscribe of its predecessor came last |
| Msgpack.PackReadsBack | src/serializer/msgpack_serializer.cpp:39-132 | reading what was packed, followed by any suffix, gives the stored form of the value and leaves exactly the suffix |
| Msgpack.RoundTripsExactly | src/serializer/msgpack_serializer.cpp:6-34 | a value whose strings can be packed survives serialise and deserialise if and only if its binaries, lists and dictionaries fit 32-bit counts and it holds no double the library stores as an integer |
| Msgpack.UnpackedSizesFit | src/serializer/msgpack_serializer.cpp:84-132 | nothing read from a buffer has a size beyond 32 bits |
| Msgpack.PackIsInjective | src/serializer/msgpack_serializer.cpp:39-82 | different such values never share an encoding |
| Serializer.Packer.PackValue | src/serializer/msgpack_serializer.cpp:39-82 | the packer appends exactly the tokens of the value and throws exactly when a string or key is too long |
| Serializer.Packer.PackDict | src/serializer/msgpack_serializer.cpp:72-80 | a dictionary is packed in the order of its keys |
| Serializer.Serialize | src/serializer/msgpack_serializer.cpp:6-15 | a fresh buffer with exactly the tokens of the value, or the exception |
| Serializer.ValueFromObject | src/serializer/msgpack_serializer.cpp:84-132 | the conversion loops build exactly the value of the object, or fail on a key that is no string |
| Serializer.Deserialize | src/serializer/msgpack_serializer.cpp:17-35 | the first object of the buffer, Null for anything malformed, empty or not convertible |
| Base64Url.EncodeId | src/transport/webrtc/webrtc_http_signaler.cpp:24-38 | the shifting and masking loop computes the encoding by sextets |
| Base64Url.EncodesAsTheStandardSays | src/transport/webrtc/webrtc_http_signaler.cpp:24-38 | the output is unpadded base64url as sections 4 and 5 of RFC 4648 describe it: alphabet, ceil(4n/3) letters, and the input's bits followed by zeros only |
| Base64Url.RoundTrip | src/transport/webrtc/webrtc_http_signaler.cpp:24-38 | decoding gives the original bytes back for every length |
| Base64Url.EncodeIsInjective | src/transport/webrtc/webrtc_http_signaler.cpp:24-38 | different ids have different encodings |
| Base64Url.PathsAreDistinct | src/transport/webrtc/webrtc_http_signaler.cpp:123-125 | different (session, participant) pairs have different relay paths |
| FlacPcm.ReadSamples | src/frames/audio_frame_flac.cpp:222-235 | the sample loops read every 16- or 32-bit sample in order |
| FlacPcm.EncodeFlac | src/frames/audio_frame_flac.cpp:201-271 | refused for bad parameters, nothing for less than a frame, otherwise the whole frames, their count narrowed to 32 bits |
| FlacPcm.DecodeContext.WriteBlock | src/frames/audio_frame_flac.cpp:161-181 | the planes of a block are appended frame by frame |
| FlacPcm.WritePcm16 | src/frames/audio_frame_flac.cpp:321-330 | every sample is clamped to 16 bits and written low byte first |
| FlacPcm.DecodeFlac | src/frames/audio_frame_flac.cpp:274-333 | the bytes are those of all blocks' samples, interleaved and clamped |
| FlacPcm.RoundTrip16 | src/frames/audio_frame_flac.cpp:201-333 | for every channel count and 16-bit byte string and any cut into blocks, the result is a prefix of whole frames, and the longest one if and only if there are fewer than 2^32 |
| FlacPcm.RoundTrip32 | src/frames/audio_frame_flac.cpp:321-330 | each 32-bit sample comes back clamped, unchanged if and only if it fits 16 bits |
| FlacPcm.NothingToEncode | src/frames/audio_frame_flac.cpp:215-216 | nothing is encoded if and only if the input is shorter than one frame |
| FlacPcm.RefusesExactly | src/frames/audio_frame_flac.cpp:201-222 | refused are exactly a channel count or rate below one and a depth other than 16 and 32 bits |
| FlacPcm.ReadContext.Read | src/frames/audio_frame_flac.cpp:139-159 | a request gets the next bytes, at most as many as asked for, or the end, or an abort for zero |
| FlacPcm.FedInOrder | src/frames/audio_frame_flac.cpp:139-159 | for any sequence of requested sizes the input is handed over once and in order, as far as the requests reach |
| FlacPcm.EndMeansAll | src/frames/audio_frame_flac.cpp:148-151 | the end is reported if and only if all of the input was handed over |
| ServerPool.EachRequestIsInOnePlace | include/magpie/nodes/server_node.hpp:214-292 | under any interleaving every dispatched request is in exactly one place: queued, in a worker's hands, waiting to be sent, being sent, sent, or dropped |
| ServerPool.RepliesAreOwn | include/magpie/nodes/server_node.hpp:240-292 | each reply sent carries the context of its own request and the handler's answer to it |
| ServerPool.RepliesAreSentOnce | include/magpie/nodes/server_node.hpp:240-292 | no request is answered twice |
| ServerPool.JobsAreTakenInOrder | include/magpie/nodes/server_node.hpp:214-241 | in every run a worker that looks at a queue with jobs takes one, and jobs are taken in the order of their dispatch |
| ServerPool.RepliesLeaveInOrder | include/magpie/nodes/server_node.hpp:265-292 | in every run the I/O thread takes the replies in the order in which workers queued them |
| ServerPool.SentExactly | include/magpie/nodes/server_node.hpp:273-292 | a reply taken is sent if its send succeeds and dropped alone if it fails; nothing else sends |
| ServerPool.WorkersLeaveAnEmptyQueue | include/magpie/nodes/server_node.hpp:228-240 | a worker exits only when stopping with an empty job queue |
| ServerPool.NothingDispatchedInTimeIsLeft | include/magpie/nodes/server_node.hpp:172-195 | when cleanup has joined the pool every request dispatched before the stop has been handled |
| ServerPool.NothingIsSentAfterTheLoop | include/magpie/nodes/server_node.hpp:172-195 | replies not sent when the loop ends are never sent |
| ServerPool.LeftUnsentExactly | include/magpie/nodes/server_node.hpp:172-195 | after the loop has ended the replies left are exactly those waiting then and those queued since |
| ServerPool.AnswersLostExactly | include/magpie/nodes/server_node.hpp:172-195 | of every dispatched request: cleanup loses its answer if and only if it was handled, the handler answers it, and its reply had neither been sent nor failed when the loop ended |
| ServerPool.NeverHandledExactly | include/magpie/nodes/server_node.hpp:124-292 | once the pool is joined a request is left unhandled if and only if every worker had left when it was dispatched |
| ServerPool.ANeverHandledExample | include/magpie/nodes/server_node.hpp:124-195 | a run that leaves a request unhandled: the worker leaves while process is receiving it |
| ServerPool.ALostAnswerExample | include/magpie/nodes/server_node.hpp:172-195 | for every request a handler answers, a run of one worker that ends with that reply unsent |
| ServerPool.JoinWaitsForNoSleeper | include/magpie/nodes/server_node.hpp:172-183 | while cleanup joins, every worker that has not exited can take a step |
| ServerPool.QueuedJobsAreAttended | include/magpie/nodes/server_node.hpp:214-240 | while a job is queued a worker is about to look at the queue, a notification is on its way, or no worker is asleep |
| ServerPool.SleepsExactly | include/magpie/nodes/server_node.hpp:228-241 | in every run a worker goes to sleep exactly when it finds the queue empty and the pool not stopping, and leaves exactly when it finds it empty and stopping |
| ServerPool.WakesExactly | include/magpie/nodes/server_node.hpp:214-233 | a sleeping worker wakes exactly when it is the one notified of a job, when all are notified of a stop, or spuriously |
| ServerPool.ProcessInOrder | include/magpie/nodes/server_node.hpp:123-142 | a call of process drains the reply queue until it is empty, then receives, and ends when nothing came or its request has been notified |
| ServerPool.InterruptsNotifyExactly | include/magpie/nodes/server_node.hpp:150-163 | every interrupt that has set the flag notifies once |
| ServerNode.Server.DispatchRequest | include/magpie/nodes/server_node.hpp:214-220 | a request is queued last with its own context |
| ServerNode.Server.LookForJob | include/magpie/nodes/server_node.hpp:227-244 | a worker takes the oldest job, sleeps, or leaves |
| ServerNode.Server.HandleJob | include/magpie/nodes/server_node.hpp:246-264 | an answer is kept with its job's context, an error or a notification is dropped |
| ServerNode.Server.EnqueueReply | include/magpie/nodes/server_node.hpp:266-270 | the reply is queued last |
| ServerNode.Server.StopWorkers | include/magpie/nodes/server_node.hpp:150-164 | the stopping flag is raised; only the first time counts |
| ServerNode.Server.DrainReplies | include/magpie/nodes/server_node.hpp:273-292 | replies are sent oldest first until a turn finds the queue empty, whatever workers queue before each turn; the new state is that of the pool's own steps |
| ServerNode.DrainingLosesNothing | include/magpie/nodes/server_node.hpp:273-292 | draining leaves every request in exactly as many places as before, whatever workers queue meanwhile |
| ServerNode.DrainsInOrder | include/magpie/nodes/server_node.hpp:273-292 | what is sent and what is lost to errors are the replies queued before and then those added meanwhile, in order, each by its own outcome |
| ServerNode.DeliveredExactly | include/magpie/nodes/server_node.hpp:273-292 | sent are those whose send succeeds, in their order, and the others are lost |
| NodeLifecycle.OneSetupThenProcessesThenOneCleanup | include/magpie/nodes/base_node.hpp:94-264 | with any mix of calls: at most one setup, then processes, then at most one cleanup and nothing after; at most one process call begins after the terminating flag is set |
| NodeLifecycle.NoLostWakeUp | include/magpie/nodes/base_node.hpp:225-236 | the worker is asleep at the gate while resumed or terminating only if a notifier is on its way |
| NodeLifecycle.TerminateReturnsAfterCleanup | include/magpie/nodes/base_node.hpp:131-167 | an untimed terminate that found the node started returns only after cleanup |
| NodeLifecycle.ExitWakesTerminator | include/magpie/nodes/base_node.hpp:244-254 | a terminate asleep while the exit flag is set is about to be notified |
| NodeLifecycle.TerminationIsNeverStuck | include/magpie/nodes/base_node.hpp:225-254 | while terminate waits for a made thread, that thread or a notification for it can go on |
| NodeLifecycle.WaitingMakesProgress | include/magpie/nodes/base_node.hpp:225-254 | while terminate waits, each step of the worker brings it nearer to its end and no step takes it further away |
| NodeLifecycle.ReturnsExactlyUnlessSetupThrew | include/magpie/nodes/base_node.hpp:94-167 | from any state of any run in which terminate waits without a timeout, it can still return, without spurious wake-ups, if and only if setup has not thrown |
| NodeLifecycle.FailedSetupIsWaitedForForever | include/magpie/nodes/base_node.hpp:94-102 | after a setup that threw, an untimed terminate never returns |
| NodeLifecycle.AFailedSetupExample | include/magpie/nodes/base_node.hpp:94-167 | a run that comes to that |
| NodeLifecycle.ATimedTerminateCanReturn | include/magpie/nodes/base_node.hpp:160-271 | a terminate with a time-out can return at any moment of its wait |
| NodeLifecycle.WaitsForTheExit | include/magpie/nodes/base_node.hpp:252-255 | one that finds the node not exited sleeps, and looks again when woken for nothing |
| NodeLifecycle.ReturnsWhenNeverStarted | include/magpie/nodes/base_node.hpp:150-158 | one that finds the node never started sets the exit flag and returns |
| NodeLifecycle.Node.Start | include/magpie/nodes/base_node.hpp:94-102 | only the first start does anything; a throwing setup leaves the node started without a thread |
| NodeLifecycle.Node.PauseNode | include/magpie/nodes/base_node.hpp:104-107 | the pause flag alone is set |
| NodeLifecycle.Node.Resume | include/magpie/nodes/base_node.hpp:109-116 | the flag is cleared and a sleeper woken |
| NodeLifecycle.Node.BeginTerminate | include/magpie/nodes/base_node.hpp:131-158 | only the first call raises the flags, opens the gate and decides whether to wait |
| NodeLifecycle.PauseHoldsProcessing | include/magpie/nodes/base_node.hpp:228-240 | in every run, while a node is paused and not terminating at most one process call begins, and that one was past the gate already |
| NodeLifecycle.StaysAtGate | include/magpie/nodes/base_node.hpp:228-240 | a worker at the gate of a paused node that is not terminating stays there and begins no process call until a resume or a terminate stores its flag |
| NodeLifecycle.AResumedWorkerProcesses | include/magpie/nodes/base_node.hpp:109-117 | a worker at the gate of a node that is neither paused nor terminating can begin a process call, woken if need be by a notification on its way |
| NodeLifecycle.PausedExactly | include/magpie/nodes/base_node.hpp:104-143 | in every run a node is paused exactly when the last store to its flag was a pause, or it was made so and there was none |
| NodeLifecycle.TerminatingExactly | include/magpie/nodes/base_node.hpp:131-143 | and terminating exactly from the store of terminate on |
| NodeLifecycle.SleepsWhilePaused | include/magpie/nodes/base_node.hpp:228-233 | a worker that finds the node paused goes to sleep, and looks again when woken for nothing |
| NodeLifecycle.NotifiesExactly | include/magpie/nodes/base_node.hpp:109-117 | in every run the notifications still to come are those of the resumes that have stored and not yet notified |
| NodeLifecycle.CallsExactly | include/magpie/nodes/base_node.hpp:225-240 | from the reads of the two flags alone: each process call has its loop test, its reads at the gate of which the last and no other finds the node resumed or terminating, and its test behind the gate; turns follow each other without a gap, and the loop ends with the first that finds the node terminating |
| NodeLifecycle.NoCallWhilePaused | include/magpie/nodes/base_node.hpp:228-240 | a loop that finds the node paused until it is terminated makes no process call |
| NodeLifecycle.ACallForThreeReads | include/magpie/nodes/base_node.hpp:225-240 | one that never finds it paused makes a call for every three reads |
| NodeLifecycle.Node.RunLoop | include/magpie/nodes/base_node.hpp:225-249 | the process calls are as many as NodeLifecycle.CallsExactly says, one cleanup follows, and the exit flag is set |
| NodeLifecycle.EndsAfterTerminating | include/magpie/nodes/base_node.hpp:228-240 | once a read finds the terminating flag set the loop ends within two more reads and no process call begins |
| RelaySignaling.AcknowledgedInPublishOrder | src/transport/webrtc/webrtc_http_signaler.cpp:186-207 | against any relay the messages acknowledged with 204 are a prefix of the publish order, the queue is the rest, and each was stored by the relay |
| RelaySignaling.AcknowledgedExactly | src/transport/webrtc/webrtc_http_signaler.cpp:183-207 | a message is acknowledged exactly when a 204 arrives for it, and leaves the queue then |
| RelaySignaling.AnswerExactly | src/transport/webrtc/webrtc_http_signaler.cpp:183-207 | the answer on its way is what the relay last did with the message in flight |
| RelaySignaling.RetriesTheOldest | src/transport/webrtc/webrtc_http_signaler.cpp:183-207 | whatever a request comes to, the sender may go on, and sends the same message again unless the answer was 204, and the next one if it was |
| RelaySignaling.FlagsExactly | src/transport/webrtc/webrtc_http_signaler.cpp:262-300 | in every run the signaler is started exactly from the first subscribe on and closed exactly from the first disconnect on |
| RelaySignaling.OnlyWhenConnected | src/transport/webrtc/webrtc_http_signaler.cpp:183-300 | in every run nothing is published before the first subscribe or after a disconnect, nobody subscribes after one, and one request is under way at a time |
| RelaySignaling.RelayHoldsExactly | src/transport/webrtc/webrtc_http_signaler.cpp:183-207 | what the relay of the model holds: a message is added unless its id is remembered, in time or late, and all may be forgotten |
| RelaySignaling.RelayHoldsAPrefix | src/transport/webrtc/webrtc_http_signaler.cpp:186-207 | a relay that keeps its memory holds the published messages in order, each once, at most one ahead of the acknowledged ones, however many requests and responses are lost or late |
| RelaySignaling.CompletedInOrder | src/transport/webrtc/webrtc_http_signaler.cpp:209-235 | whatever the relay answers, between registrations the sequence numbers whose handling completes increase strictly |
| RelaySignaling.PolledExactly | src/transport/webrtc/webrtc_http_signaler.cpp:209-235 | from the answers alone: a registration puts the cursor back to 0, from then on it is the largest number delivered with a callback that returned, and completed are the numbers larger than all such before them |
| RelaySignaling.EveryDeliveryOnce | src/transport/webrtc/webrtc_http_signaler.cpp:209-235 | with a relay that serves the message after the cursor, the completed deliveries are the first of those stored, each exactly once and in order |
| RelaySignaling.Signaler.PublishMessage | src/transport/webrtc/webrtc_http_signaler.cpp:262-270 | refused unless connected; otherwise queued last |
| RelaySignaling.Signaler.SubscribeTo | src/transport/webrtc/webrtc_http_signaler.cpp:272-287 | refused when closed or not registered; the first success starts the loops |
| RelaySignaling.Signaler.SendOldest | src/transport/webrtc/webrtc_http_signaler.cpp:188-203 | 204 alone removes the oldest message; every other outcome keeps it |
| RelaySignaling.Signaler.PollAll | src/transport/webrtc/webrtc_http_signaler.cpp:209-235 | the poll loop leaves the cursor and the completed deliveries where the pure fold says |
| StreamQueue.WhereFramesAre | src/transport/stream_writer.cpp:58-66 | the queue never exceeds its bound and holds the newest frames; a frame is dropped only when a full queue of newer ones was accepted after it |
| StreamQueue.CloseFlushesEverything | src/transport/stream_writer.cpp:71-130 | when no write is between its closed check and its queueing once closed is set, every frame ever accepted is handed to the transport before the thread has left, or dropped for a full queue of newer ones |
| StreamQueue.LeavesNothingExactly | src/transport/stream_writer.cpp:23-130 | once closed is set, and however it goes on: no frame can be left behind if and only if no write is between its closed check and its queueing and none is left behind already |
| StreamQueue.CloseFlushes | src/transport/stream_writer.cpp:71-130 | when the writer thread is gone every frame accepted before it left was handed to the transport or dropped for a full queue of newer ones |
| StreamQueue.LeavesEmpty | src/transport/stream_writer.cpp:95-113 | the writer thread leaves only with an empty queue and after close was requested |
| StreamQueue.AcceptedExactly | src/transport/stream_writer.cpp:23-92 | in every run the flags say which parts of close are done and the frames accepted are those queued by writes, in order |
| StreamQueue.EachWriteIsSomewhere | src/transport/stream_writer.cpp:23-113 | in every run each write that began is under way, has queued its frame or failed to clone it, and the thread writes the frames it takes one at a time |
| StreamQueue.CloseStopsWrites | src/transport/stream_writer.cpp:23-113 | in every run no write begins once closed is set, and the thread can leave exactly when it finds the queue empty and the stop requested |
| StreamQueue.LateFrameIsNeverSent | src/transport/stream_writer.cpp:23-66 | a frame queued after the thread has left is never handed to the transport |
| StreamQueue.ALateFrameExample | src/transport/stream_writer.cpp:23-66 | such a frame is possible: its write passed the closed check before close |
| StreamQueue.PushIsOrderly | src/transport/stream_reader.cpp:119-127 | pushing keeps bound, order and the account of dropped frames |
| StreamQueue.TakeIsOrderly | src/transport/stream_reader.cpp:44-50 | so does taking: frames are taken in the order accepted |
| StreamQueue.DrainingHandsOver | src/transport/stream_writer.cpp:95-130 | taking until the queue is found empty hands over every frame accepted by then, those pushed meanwhile included, or drops it for a full queue of newer ones |
| StreamQueue.LookingTakesInOrder | src/transport/stream_reader.cpp:43-68 | a read takes one frame, in order, if and only if one is waiting or arrives before close is seen; otherwise it ends or times out with an empty queue and has missed none |
| StreamReading.ReadsInOrder | src/transport/stream_reader.cpp:24-131 | in every run of the reading thread, any number of reads and close: frames are read in the order of arrival and at most once, the queue holds the newest within its bound, and a frame is lost only when a full queue of newer ones came after it |
| StreamReading.EachReadIsSomewhere | src/transport/stream_reader.cpp:24-131 | in every run each read that began is under way, has taken a frame, found the end or timed out; frames taken are as many as reads that took one, and those accepted are the ones that arrived, in order |
| StreamReading.ClosedExactly | src/transport/stream_reader.cpp:71-92 | the flags say which parts of close are done |
| StreamReading.ReadsEndAsTheyShould | src/transport/stream_reader.cpp:24-68 | a read takes a frame only if one waits, ends only if none does and the reader is closed, sleeps or times out only if none does and it is open |
| StreamReading.ReadsGoOnExactly | src/transport/stream_reader.cpp:41-68 | a read that is awake takes a frame exactly if one waits, ends exactly if none does and the reader is closed, and may sleep or time out exactly if it is open |
| StreamReading.SleepersExactly | src/transport/stream_reader.cpp:52-131 | a notification of a frame wakes one read, that of close all that sleep |
| StreamReading.NoFrameBesideASleeper | src/transport/stream_reader.cpp:41-68 | while frames wait and a read sleeps, another read is on its way to them or a notification is |
| StreamReading.NothingIsReadAfterClose | src/transport/stream_reader.cpp:32-54 | once closed is set and no read is under way, nothing is read any more |
| StreamReading.AtMostOneMoreFrame | src/transport/stream_reader.cpp:98-127 | once the stop is requested at most the poll under way brings a frame, and none once the thread is gone |
| StreamReading.CloseReleasesExactly | src/transport/stream_reader.cpp:71-76 | after close's notification no read can be left asleep for ever if and only if none was between finding the queue empty and falling asleep when it came |
| StreamReading.StuckForEver | src/transport/stream_reader.cpp:52-67 | a read left asleep by a finished close stays so, unless woken spuriously or by its time-out |
| StreamReading.AMissedCloseExample | src/transport/stream_reader.cpp:71-76 | a run from the start that comes to that |
| Streams.DropOldest.Push | src/transport/stream_writer.cpp:58-66 | the queue loses its oldest frame exactly when full and gains the new one |
| Streams.DropOldest.Pop | src/transport/stream_writer.cpp:98-114 | the oldest frame is handed out |
| Streams.StreamReader.Read | src/transport/stream_reader.cpp:24-69 | without a queue the transport's own outcome; else the end at once when closed, and otherwise what looking at the queue turn by turn finds, whatever arrives and whenever close is seen: the frame taken, the end, or after the last turn a time-out or a further wait |
| Streams.StreamReader.Receive | src/transport/stream_reader.cpp:95-130 | a frame read from the transport is queued, dropping the oldest when full |
| Streams.StreamWriter.Write | src/transport/stream_writer.cpp:23-69 | dropped after close, written at once without a queue, otherwise queued if it could be cloned |
| Streams.StreamWriter.Flush | src/transport/stream_writer.cpp:95-130 | after close is requested queued frames are written, oldest first, until a turn finds the queue empty, whatever writers queue before each turn; what is written is what was taken |

## Left out

- Sockets, libdatachannel, curl, Paho, libFLAC, mdns.h and msgpack-c: environment steps or token and sample streams.
- Time: a time-out is a step that may happen; expiry arithmetic, polling intervals and `list_nodes`' filter by expiry are not modelled.
- `scheduleReconnect`, `helloLoopFunc` and the ungrouped branch of `connect` in webrtc_connection.cpp: group-owned links never reach them.
- The buffering inside `DirectedSignaler`: a signal is delivered to its link at any later point instead.
- Media tracks and the sending of data on the wire in webrtc_connection.cpp.
- RPC calls that register after the last sweep of a closing requester: no promise is made for them, and the source makes none.
- MQTT reply topics and WebRTC reply callbacks of the requesters as separate tables: their requesters share the pending-call model, and differ in the messages only.
- The request queues of the responders while a close overlaps a receive: a receive that finds the transport closed on entry fails at once.
- mDNS questions and answers, interface enumeration, pacing of follow-up queries, name and TXT length limits, `pick_best_ip`.
- MQTT operations while disconnected, which send nothing, subscriptions renewed after a reconnect, publishing, and the quality of service agreed with the broker.
- MessagePack's byte layout, its nesting limits, and float32 tokens as distinct from float64.
- The FLAC frame's own dictionary form and the stream parameters read back from STREAMINFO.
- Schema dispatch, handler timing and the order in which workers finish.
- The destructor of a node, and interrupt and cleanup hooks that throw.
- Re-registration of a participant with the relay beyond its effect on the cursor, request headers, and the final DELETE.
- Clone failures of frames are a flag; frames and topics of a stream are one value.
- Serializer.Packer.PackValue: after the exception for a string that is too long nothing is said about the buffer, which the source discards.
- NodeLifecycle.Node.RunLoop: takes what its successive reads of the two flags find as an argument; which reads other threads can bring about is the subject of the step system.
- ServerNode.Server.DrainReplies: of what workers do meanwhile it has the queuing of replies; their other steps, which do not touch the reply queue, are in `ServerPool` only.
- PeerNetwork.NoPairHasTwoOfferers: participants keep one id and one role for life.
- Advertising.AdvertisedNodesAreFound: an empty node id and an empty service type are excluded; the source announces them, and its own receiver ignores their PTR records.
- DiscoveryOrder.OrderAndRepetitionDoNotMatter: goodbyes and records that contradict each other are excluded; after a goodbye the order does matter, as shown.
- PeerConnection.Link.SetupPeerConnection: the ICE servers, the callbacks of the peer connection and its data channels are not modelled, only that there is one; what the callbacks do are steps of their own.
- PeerConnection.Link.CreateOffer: data channels, their reliability and the local description are not modelled, only that an offer was made.
- RpcRequester.Requester.TransportCall: the refusals of a requester without socket or serializer are not modelled.
- Streams.StreamReader.Read: a call still waiting when its turns are over is reported as such; that it can wait for ever is the subject of `StreamReading`.
