/** One peer link: the negotiation half of a WebRTC connection to a single remote.

    The library that gathers candidates and opens channels is outside; its answers arrive as
    events.  Signals of one link are handled one at a time. */
module PeerLink {
  import opened Values

  datatype Candidate = Candidate(text: string, mid: string, index: int)

  /** `handed` is what the peer connection has been given, `offers` counts createOffer. */
  datatype LinkState = LinkState(
    peerId: string,
    targetRemote: string,
    role: string,
    remotePeerId: string,
    roleDecided: bool,
    remoteDescSet: bool,
    connected: bool,
    disconnecting: bool,
    hasConnection: bool,
    pending: seq<Candidate>,
    handed: seq<(string, string)>,
    offers: nat)

  function Fresh(peerId: string, targetRemote: string, role: string): LinkState {
    LinkState(peerId, targetRemote, role, "", false, false, false, false, false, [], [], 0)
  }

  /** `accepted` says whether the library took the remote description. */
  datatype LinkEvent =
    | Signal(message: Value, accepted: bool)
    | Opened
    | Lost
    | Disconnected

  // ----- what a link publishes -----

  /** A signal body with the addressee and the sender's role added. */
  function AddressedSignal(targetRemote: string, role: string, body: map<string, Value>): (r: Value)
    ensures r.Dict? && StringField(r.fields, "role") == Some(role)
    ensures targetRemote != "" ==> StringField(r.fields, "to_peer_id") == Some(targetRemote)
    ensures forall k :: k in body && k != "role" && k != "to_peer_id" ==> k in r.fields && r.fields[k] == body[k]
  {
    var addressed := if targetRemote != "" then body["to_peer_id" := Str(targetRemote)] else body;
    Dict(addressed["role" := Str(role)])
  }

  function HelloBody(peerId: string): map<string, Value> {
    map["type" := Str("hello"), "peer_id" := Str(peerId)]
  }

  /** The hello a link answers with: the side that waits for an offer makes itself known once. */
  function Answer(before: LinkState, after: LinkState): seq<Value> {
    if !before.roleDecided && after.roleDecided && after.offers == before.offers
    then [Hello(after)] else []
  }

  function Hello(l: LinkState): Value {
    AddressedSignal(l.targetRemote, l.role, HelloBody(l.peerId))
  }

  // ----- what a link does with one signal -----

  /** The candidate a signal carries, if it is a usable candidate signal. */
  function CandidateOf(fields: map<string, Value>): Option<Candidate> {
    if StringField(fields, "candidate").None? || fields["candidate"].text == "" then None
    else Some(Candidate(
      fields["candidate"].text,
      if StringField(fields, "sdpMid").Some? then fields["sdpMid"].text else "0",
      if "sdpMLineIndex" in fields && fields["sdpMLineIndex"].Int?
      then ToInt32(fields["sdpMLineIndex"].number as int) else 0))
  }

  /** Narrowing to a 32-bit int. */
  function ToInt32(i: int): (r: int)
    ensures -0x8000_0000 <= r < 0x8000_0000 && (r - i) % 0x1_0000_0000 == 0
  {
    var low := i % 0x1_0000_0000;
    if low < 0x8000_0000 then low else low - 0x1_0000_0000
  }

  function Pairs(candidates: seq<Candidate>): (r: seq<(string, string)>)
    ensures |r| == |candidates|
  {
    seq(|candidates|, i requires 0 <= i < |candidates| => (candidates[i].text, candidates[i].mid))
  }

  /** The type of a signal this link looks into: a dictionary with a type, not its own. */
  function Concerns(peerId: string, message: Value): Option<string> {
    if !message.Dict? || StringField(message.fields, "type").None? then None
    else if StringField(message.fields, "peer_id") == Some(peerId) then None
    else StringField(message.fields, "type")
  }

  function OnHello(l: LinkState, remote: string): LinkState {
    var l1 := if l.remotePeerId == "" then l.(remotePeerId := remote) else l;
    if l1.roleDecided then l1
    else if Less(l1.remotePeerId, l1.peerId)
    then l1.(roleDecided := true, hasConnection := true, offers := l1.offers + 1)
    else l1.(roleDecided := true, hasConnection := true)
  }

  function OnDescription(l: LinkState, offer: bool, accepted: bool): LinkState {
    if l.connected || (!offer && !l.hasConnection) then l
    else
      var l1 := l.(hasConnection := true);
      if !accepted then l1
      else l1.(remoteDescSet := true, handed := l.handed + Pairs(l.pending), pending := [])
  }

  function OnCandidate(l: LinkState, c: Candidate): LinkState {
    if l.remoteDescSet && l.hasConnection
    then l.(handed := l.handed + [(c.text, c.mid)])
    else l.(pending := l.pending + [c])
  }

  /** What a signal of a given type does. */
  function Act(l: LinkState, kind: string, fields: map<string, Value>, accepted: bool): LinkState {
    if kind == "hello" then
      if StringField(fields, "peer_id").Some? then OnHello(l, fields["peer_id"].text) else l
    else if kind == "offer" || kind == "answer" then
      if StringField(fields, "sdp").Some? then OnDescription(l, kind == "offer", accepted) else l
    else if kind == "candidate" then
      if CandidateOf(fields).Some? then OnCandidate(l, CandidateOf(fields).value) else l
    else l
  }

  function OnSignal(l: LinkState, message: Value, accepted: bool): LinkState {
    if l.disconnecting || Concerns(l.peerId, message).None? then l
    else Act(l, Concerns(l.peerId, message).value, message.fields, accepted)
  }

  function Step(l: LinkState, e: LinkEvent): LinkState {
    match e
    case Signal(message, accepted) => OnSignal(l, message, accepted)
    case Opened => l.(connected := true)
    case Lost => l.(connected := false)
    case Disconnected => l.(disconnecting := true, connected := false, hasConnection := false)
  }

  function Run(l: LinkState, events: seq<LinkEvent>): LinkState {
    if events == [] then l else Step(Run(l, events[..|events| - 1]), events[|events| - 1])
  }

  // ----- candidates -----

  /** The usable candidates among the signals handled before the link is disconnected,
      in order: written from the events alone. */
  function CandidatesReceived(peerId: string, events: seq<LinkEvent>): seq<(string, string)> {
    if events == [] then []
    else
      var before := CandidatesReceived(peerId, events[..|events| - 1]);
      var last := events[|events| - 1];
      if Disconnected in events[..|events| - 1] || !IsCandidate(peerId, last) then before
      else
        var fields := last.message.fields;
        before + [(fields["candidate"].text,
                   if "sdpMid" in fields && fields["sdpMid"].Str? then fields["sdpMid"].text else "0")]
  }

  /** A signal of this type that is not the link's own. */
  predicate IsOfType(peerId: string, e: LinkEvent, kind: string) {
    && e.Signal? && e.message.Dict?
    && "type" in e.message.fields && e.message.fields["type"] == Str(kind)
    && ("peer_id" in e.message.fields ==> e.message.fields["peer_id"] != Str(peerId))
  }

  predicate IsCandidate(peerId: string, e: LinkEvent) {
    && IsOfType(peerId, e, "candidate") && "candidate" in e.message.fields
    && e.message.fields["candidate"].Str? && e.message.fields["candidate"].text != ""
  }

  /** Everything received is handed over or waiting, in order; waiting and handed over exclude
      each other, the remote description deciding which. */
  predicate InOrder(l: LinkState, received: seq<(string, string)>) {
    && l.handed + Pairs(l.pending) == received
    && (l.remoteDescSet ==> l.pending == [])
    && (!l.remoteDescSet ==> l.handed == [])
    && (l.remoteDescSet && !l.disconnecting ==> l.hasConnection)
  }

  /** Every candidate is either handed over or waiting, in the order received and once each;
      none is handed over before the remote description is set, and none waits afterwards. */
  lemma {:induction false} CandidatesInOrder(l: LinkState, events: seq<LinkEvent>)
    requires l == Fresh(l.peerId, l.targetRemote, l.role)
    ensures Run(l, events).peerId == l.peerId
    ensures Run(l, events).disconnecting == (Disconnected in events)
    ensures InOrder(Run(l, events), CandidatesReceived(l.peerId, events))
  {
    if events != [] {
      var before, last := events[..|events| - 1], events[|events| - 1];
      CandidatesInOrder(l, before);
      assert events == before + [last];
      StepKeepsOrder(Run(l, before), last, CandidatesReceived(l.peerId, before));
      assert CandidatesReceived(l.peerId, events)
          == CandidatesReceived(l.peerId, before) + Brings(Run(l, before), last);
    }
  }

  /** The candidate an event brings to a link that is still in use. */
  function Brings(l: LinkState, e: LinkEvent): seq<(string, string)> {
    if !l.disconnecting && e.Signal? && Concerns(l.peerId, e.message) == Some("candidate") &&
       CandidateOf(e.message.fields).Some?
    then [(CandidateOf(e.message.fields).value.text, CandidateOf(e.message.fields).value.mid)]
    else []
  }

  lemma StepKeepsOrder(l: LinkState, e: LinkEvent, received: seq<(string, string)>)
    requires InOrder(l, received)
    ensures InOrder(Step(l, e), received + Brings(l, e))
    ensures Step(l, e).peerId == l.peerId
    ensures Step(l, e).disconnecting == (l.disconnecting || e == Disconnected)
  {
    assert received + [] == received;
    if e.Signal? && !l.disconnecting && Concerns(l.peerId, e.message).Some? {
      ActKeepsOrder(l, Concerns(l.peerId, e.message).value, e.message.fields, e.accepted, received);
    }
  }

  lemma ActKeepsOrder(l: LinkState, kind: string, fields: map<string, Value>, accepted: bool, received: seq<(string, string)>)
    requires InOrder(l, received) && !l.disconnecting
    ensures var r := Act(l, kind, fields, accepted);
            && r.peerId == l.peerId && !r.disconnecting
            && InOrder(r, if kind == "candidate" && CandidateOf(fields).Some?
                          then received + [(CandidateOf(fields).value.text, CandidateOf(fields).value.mid)]
                          else received)
  {
    if kind == "candidate" && CandidateOf(fields).Some? {
      CandidateKeepsOrder(l, CandidateOf(fields).value, received);
    } else if kind == "offer" || kind == "answer" {
      DescriptionKeepsOrder(l, kind == "offer", accepted, received);
    }
  }

  lemma CandidateKeepsOrder(l: LinkState, c: Candidate, received: seq<(string, string)>)
    requires InOrder(l, received) && !l.disconnecting
    ensures InOrder(OnCandidate(l, c), received + [(c.text, c.mid)])
  {
    if l.remoteDescSet {
      assert Pairs(l.pending) == [];
      assert l.handed == received;
    } else {
      assert Pairs(l.pending + [c]) == Pairs(l.pending) + [(c.text, c.mid)];
    }
  }

  lemma DescriptionKeepsOrder(l: LinkState, offer: bool, accepted: bool, received: seq<(string, string)>)
    requires InOrder(l, received)
    ensures InOrder(OnDescription(l, offer, accepted), received)
  {
    assert Pairs([]) == [];
    assert received + [] == received;
  }

  // ----- roles -----

  /** Only a hello has a say in the role, and nothing a link handles changes who it is. */
  lemma OnlyHelloDecides(l: LinkState, message: Value, accepted: bool)
    ensures var r := OnSignal(l, message, accepted);
            && r.peerId == l.peerId && r.targetRemote == l.targetRemote && r.role == l.role
            && r.disconnecting == l.disconnecting
            && if IsHello(l.peerId, Signal(message, accepted)) && !l.disconnecting
               then r == OnHello(l, message.fields["peer_id"].text)
               else r.remotePeerId == l.remotePeerId && r.roleDecided == l.roleDecided && r.offers == l.offers
  {
    if !l.disconnecting && Concerns(l.peerId, message).Some? {
      var kind := Concerns(l.peerId, message).value;
      if kind != "hello" {
        OthersDecideNothing(l, kind, message.fields, accepted);
      }
    }
  }

  lemma OthersDecideNothing(l: LinkState, kind: string, fields: map<string, Value>, accepted: bool)
    requires kind != "hello"
    ensures var r := Act(l, kind, fields, accepted);
            && r.peerId == l.peerId && r.targetRemote == l.targetRemote && r.role == l.role
            && r.disconnecting == l.disconnecting
            && r.remotePeerId == l.remotePeerId && r.roleDecided == l.roleDecided && r.offers == l.offers
  {
    if kind != "offer" && kind != "answer" && kind == "candidate" && CandidateOf(fields).Some? {
      assert Act(l, kind, fields, accepted) == OnCandidate(l, CandidateOf(fields).value);
    }
  }

  /** A hello was handled before the link was disconnected. */
  predicate HelloHandled(peerId: string, events: seq<LinkEvent>) {
    exists i :: 0 <= i < |events| && Disconnected !in events[..i] && IsHello(peerId, events[i])
  }

  predicate IsHello(peerId: string, e: LinkEvent) {
    IsOfType(peerId, e, "hello") && "peer_id" in e.message.fields && e.message.fields["peer_id"].Str?
  }

  /** Every signal that names a sender names `remote`: what the group's demultiplexing guarantees. */
  predicate OnlyFrom(remote: string, events: seq<LinkEvent>) {
    forall i :: 0 <= i < |events| && events[i].Signal? && events[i].message.Dict? ==>
      StringField(events[i].message.fields, "peer_id") == Some(remote)
  }

  /** The role part of a link's state, given whether a hello of `remote` was handled. */
  predicate RoleDecidedBy(r: LinkState, remote: string, heard: bool) {
    && r.roleDecided == heard
    && r.remotePeerId == (if heard then remote else "")
    && r.offers == (if heard && Less(remote, r.peerId) then 1 else 0)
  }

  /** A link offers at most once, and it does exactly when its id is the larger one and the
      remote has been heard; whatever is repeated, lost or reordered. */
  lemma {:induction false} OffersExactlyWhenLarger(l: LinkState, remote: string, events: seq<LinkEvent>)
    requires l == Fresh(l.peerId, l.targetRemote, l.role) && remote != ""
    requires OnlyFrom(remote, events)
    ensures Run(l, events).peerId == l.peerId
    ensures Run(l, events).disconnecting == (Disconnected in events)
    ensures RoleDecidedBy(Run(l, events), remote, HelloHandled(l.peerId, events))
  {
    if events != [] {
      var before, last := events[..|events| - 1], events[|events| - 1];
      OffersExactlyWhenLarger(l, remote, before);
      HelloHandledSnoc(l.peerId, before, last);
      assert events == before + [last];
      StepDecides(Run(l, before), remote, last, HelloHandled(l.peerId, before));
    }
  }

  lemma StepDecides(l: LinkState, remote: string, e: LinkEvent, heard: bool)
    requires RoleDecidedBy(l, remote, heard) && remote != ""
    requires OnlyFrom(remote, [e])
    ensures RoleDecidedBy(Step(l, e), remote, heard || (!l.disconnecting && IsHello(l.peerId, e)))
    ensures Step(l, e).peerId == l.peerId
    ensures Step(l, e).disconnecting == (l.disconnecting || e == Disconnected)
  {
    if e.Signal? {
      assert [e][0] == e;
      OnlyHelloDecides(l, e.message, e.accepted);
    }
  }

  lemma HelloHandledSnoc(peerId: string, before: seq<LinkEvent>, last: LinkEvent)
    ensures HelloHandled(peerId, before + [last])
            <==> HelloHandled(peerId, before) || (Disconnected !in before && IsHello(peerId, last))
  {
    var events := before + [last];
    assert events[..|before|] == before;
    if HelloHandled(peerId, before) {
      var i :| 0 <= i < |before| && Disconnected !in before[..i] && IsHello(peerId, before[i]);
      assert events[..i] == before[..i] && events[i] == before[i];
    }
    if HelloHandled(peerId, events) {
      var i :| 0 <= i < |events| && Disconnected !in events[..i] && IsHello(peerId, events[i]);
      if i < |before| {
        assert events[..i] == before[..i] && events[i] == before[i];
      }
    }
    if Disconnected !in before && IsHello(peerId, last) {
      assert events[|before|] == last;
    }
  }

  // ----- the remote description -----

  /** The last word on the channel is that it opened. */
  predicate IsOpen(events: seq<LinkEvent>) {
    exists i :: 0 <= i < |events| && events[i].Opened? && Lost !in events[i..]
  }

  predicate IsDescription(peerId: string, e: LinkEvent, kind: string) {
    IsOfType(peerId, e, kind) && "sdp" in e.message.fields && e.message.fields["sdp"].Str?
  }

  /** What gives a link its peer connection: a hello, or an offer while the channel is not open. */
  predicate Connects(peerId: string, before: seq<LinkEvent>, e: LinkEvent) {
    && Disconnected !in before
    && (IsHello(peerId, e) || (IsDescription(peerId, e, "offer") && !IsOpen(before)))
  }

  predicate HasConnected(peerId: string, events: seq<LinkEvent>) {
    exists i :: 0 <= i < |events| && Connects(peerId, events[..i], events[i])
  }

  /** What sets the remote description: an accepted offer, or an accepted answer once there is a peer
      connection, while the channel is not open. */
  predicate Describes(peerId: string, before: seq<LinkEvent>, e: LinkEvent) {
    && Disconnected !in before && !IsOpen(before) && e.Signal? && e.accepted
    && (IsDescription(peerId, e, "offer") || (IsDescription(peerId, e, "answer") && HasConnected(peerId, before)))
  }

  predicate IsDescribed(peerId: string, events: seq<LinkEvent>) {
    exists i :: 0 <= i < |events| && Describes(peerId, events[..i], events[i])
  }

  lemma OpenSnoc(before: seq<LinkEvent>, e: LinkEvent)
    ensures IsOpen(before + [e]) <==> e.Opened? || (IsOpen(before) && !e.Lost?)
  {
    var events := before + [e];
    forall i | 0 <= i <= |before| ensures Lost in events[i..] <==> Lost in before[i..] || e.Lost? {
      assert events[i..] == before[i..] + [e];
    }
    if i :| 0 <= i < |before| && before[i].Opened? && Lost !in before[i..] {
      assert events[i] == before[i];
    }
    assert events[|before|] == e;
  }

  lemma ConnectedSnoc(peerId: string, before: seq<LinkEvent>, e: LinkEvent)
    ensures HasConnected(peerId, before + [e]) <==> HasConnected(peerId, before) || Connects(peerId, before, e)
  {
    var events := before + [e];
    forall i | 0 <= i < |before| ensures events[..i] == before[..i] && events[i] == before[i] {
    }
    assert events[..|before|] == before && events[|before|] == e;
    if HasConnected(peerId, before) {
      var i :| 0 <= i < |before| && Connects(peerId, before[..i], before[i]);
      assert Connects(peerId, events[..i], events[i]);
    }
  }

  lemma DescribedSnoc(peerId: string, before: seq<LinkEvent>, e: LinkEvent)
    ensures IsDescribed(peerId, before + [e]) <==> IsDescribed(peerId, before) || Describes(peerId, before, e)
  {
    var events := before + [e];
    forall i | 0 <= i < |before| ensures events[..i] == before[..i] && events[i] == before[i] {
    }
    assert events[..|before|] == before && events[|before|] == e;
    if IsDescribed(peerId, before) {
      var i :| 0 <= i < |before| && Describes(peerId, before[..i], before[i]);
      assert Describes(peerId, events[..i], events[i]);
    }
  }

  /** When a link is connected, has its peer connection, and has its remote description, for every
      sequence of events; and that it hands over candidates from then on and not before. */
  lemma {:induction false} DescribedExactly(l: LinkState, events: seq<LinkEvent>)
    requires l == Fresh(l.peerId, l.targetRemote, l.role)
    ensures var r := Run(l, events);
            && r.peerId == l.peerId && r.disconnecting == (Disconnected in events)
            && (if r.disconnecting then !r.hasConnection
                else r.connected == IsOpen(events) && r.hasConnection == HasConnected(l.peerId, events))
            && r.remoteDescSet == IsDescribed(l.peerId, events)
            && r.handed == if IsDescribed(l.peerId, events) then CandidatesReceived(l.peerId, events) else []
  {
    CandidatesInOrder(l, events);
    if events != [] {
      var before, last := events[..|events| - 1], events[|events| - 1];
      DescribedExactly(l, before);
      assert events == before + [last];
      OpenSnoc(before, last);
      ConnectedSnoc(l.peerId, before, last);
      DescribedSnoc(l.peerId, before, last);
      DecidedIsConnected(l, before);
      OneEvent(Run(l, before), before, last);
    }
    assert Pairs([]) == [];
  }

  /** Only a hello decides the role, and it sets up the peer connection. */
  lemma {:induction false} DecidedIsConnected(l: LinkState, events: seq<LinkEvent>)
    requires l == Fresh(l.peerId, l.targetRemote, l.role)
    ensures var r := Run(l, events); r.roleDecided && !r.disconnecting ==> r.hasConnection
  {
    if events != [] {
      DecidedIsConnected(l, events[..|events| - 1]);
    }
  }

  lemma OneEvent(l: LinkState, before: seq<LinkEvent>, e: LinkEvent)
    requires l.disconnecting == (Disconnected in before)
    requires if l.disconnecting then !l.hasConnection
             else l.connected == IsOpen(before) && l.hasConnection == HasConnected(l.peerId, before)
    requires l.roleDecided && !l.disconnecting ==> l.hasConnection
    ensures var r := Step(l, e);
            && r.disconnecting == (Disconnected in before + [e])
            && (e.Disconnected? ==> !r.connected)
            && (if r.disconnecting then !r.hasConnection
                else r.connected == (e.Opened? || (l.connected && !e.Lost?))
                     && r.hasConnection == (l.hasConnection || Connects(l.peerId, before, e)))
            && r.remoteDescSet == (l.remoteDescSet || Describes(l.peerId, before, e))
  {
    if e.Signal? && !l.disconnecting {
      OneSignal(l, e);
    }
  }

  /** What a signal does to the connection and the description, by its type. */
  lemma OneSignal(l: LinkState, e: LinkEvent)
    requires e.Signal? && !l.disconnecting && (l.roleDecided ==> l.hasConnection)
    ensures var r := OnSignal(l, e.message, e.accepted);
            && r.disconnecting == l.disconnecting && r.connected == l.connected
            && r.hasConnection == (l.hasConnection || IsHello(l.peerId, e)
                                   || (IsDescription(l.peerId, e, "offer") && !l.connected))
            && r.remoteDescSet == (l.remoteDescSet || (e.accepted && !l.connected
                                   && (IsDescription(l.peerId, e, "offer")
                                       || (IsDescription(l.peerId, e, "answer") && l.hasConnection))))
  {
    if Concerns(l.peerId, e.message).Some? {
      var kind := Concerns(l.peerId, e.message).value;
      assert IsOfType(l.peerId, e, kind);
      OneAct(l, kind, e.message.fields, e.accepted);
    }
  }

  lemma OneAct(l: LinkState, kind: string, fields: map<string, Value>, accepted: bool)
    requires l.roleDecided ==> l.hasConnection
    ensures var r, hello, described := Act(l, kind, fields, accepted), StringField(fields, "peer_id").Some?,
                                       StringField(fields, "sdp").Some? && !l.connected;
            && r.disconnecting == l.disconnecting && r.connected == l.connected
            && r.hasConnection == (l.hasConnection || (kind == "hello" && hello) || (kind == "offer" && described))
            && r.remoteDescSet == (l.remoteDescSet || (accepted && described
                                   && (kind == "offer" || (kind == "answer" && l.hasConnection))))
  {
    if kind == "hello" {
      assert kind != "offer" && kind != "answer" by { assert kind[0] == 'h'; }
    } else if kind == "offer" || kind == "answer" {
      OneDescription(l, kind == "offer", accepted);
    } else if kind == "candidate" && CandidateOf(fields).Some? {
      OneCandidate(l, CandidateOf(fields).value);
    }
  }

  lemma OneDescription(l: LinkState, offer: bool, accepted: bool)
    ensures var r := OnDescription(l, offer, accepted);
            && r.disconnecting == l.disconnecting && r.connected == l.connected
            && r.hasConnection == (l.hasConnection || (offer && !l.connected))
            && r.remoteDescSet == (l.remoteDescSet || (accepted && !l.connected && (offer || l.hasConnection)))
  {
  }

  lemma OneCandidate(l: LinkState, c: Candidate)
    ensures var r := OnCandidate(l, c);
            && r.disconnecting == l.disconnecting && r.connected == l.connected
            && r.hasConnection == l.hasConnection && r.remoteDescSet == l.remoteDescSet
  {
  }

  // ----- the hello a waiting side answers with -----

  /** Everything a link publishes in answer to the signals it handles. */
  function Published(l: LinkState, events: seq<LinkEvent>): seq<Value> {
    if events == [] then []
    else
      var before := Run(l, events[..|events| - 1]);
      Published(l, events[..|events| - 1]) + Answer(before, Step(before, events[|events| - 1]))
  }

  /** A link with the smaller id answers the first hello it handles with one hello of its own, and
      publishes nothing else; one with the larger id publishes none, for it offers. */
  lemma {:induction false} AnswersOnceWhenSmaller(l: LinkState, remote: string, events: seq<LinkEvent>)
    requires l == Fresh(l.peerId, l.targetRemote, l.role) && remote != "" && l.targetRemote != ""
    requires OnlyFrom(remote, events)
    ensures var hello := Dict(map["type" := Str("hello"), "peer_id" := Str(l.peerId),
                                  "to_peer_id" := Str(l.targetRemote), "role" := Str(l.role)]);
            Published(l, events) == if HelloHandled(l.peerId, events) && !Less(remote, l.peerId) then [hello] else []
  {
    if events != [] {
      var before, last := events[..|events| - 1], events[|events| - 1];
      AnswersOnceWhenSmaller(l, remote, before);
      OffersExactlyWhenLarger(l, remote, before);
      OffersExactlyWhenLarger(l, remote, events);
      HelloHandledSnoc(l.peerId, before, last);
      assert events == before + [last];
      IdentityStays(l, events);
      AnswerToOneEvent(Run(l, before), Run(l, events), remote,
                       HelloHandled(l.peerId, before), HelloHandled(l.peerId, events));
    }
  }

  lemma AnswerToOneEvent(l: LinkState, r: LinkState, remote: string, before: bool, after: bool)
    requires RoleDecidedBy(l, remote, before) && RoleDecidedBy(r, remote, after) && (before ==> after)
    requires l.peerId == r.peerId && r.targetRemote != ""
    ensures Answer(l, r) == if !before && after && !Less(remote, r.peerId)
                            then [Dict(map["type" := Str("hello"), "peer_id" := Str(r.peerId),
                                           "to_peer_id" := Str(r.targetRemote), "role" := Str(r.role)])] else []
  {
    HelloFields(r);
  }

  lemma {:induction false} IdentityStays(l: LinkState, events: seq<LinkEvent>)
    ensures var r := Run(l, events); r.peerId == l.peerId && r.targetRemote == l.targetRemote && r.role == l.role
  {
    if events != [] {
      IdentityStays(l, events[..|events| - 1]);
      var e := events[|events| - 1];
      if e.Signal? {
        OnlyHelloDecides(Run(l, events[..|events| - 1]), e.message, e.accepted);
      }
    }
  }

  lemma HelloFields(l: LinkState)
    requires l.targetRemote != ""
    ensures Hello(l) == Dict(map["type" := Str("hello"), "peer_id" := Str(l.peerId),
                                 "to_peer_id" := Str(l.targetRemote), "role" := Str(l.role)])
  {
  }
}
