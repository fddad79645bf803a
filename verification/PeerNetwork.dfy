/** Role election over whole runs: any number of participants exchanging signals over a channel
    that loses, repeats and reorders them at will. */
module PeerNetwork {
  import opened Values
  import L = PeerLink
  import G = PeerGroup

  /** One participant: its group and the negotiation state of every link it ever made, live or
      replaced; the signals routed to a link and not yet worked off are kept with it. */
  datatype Node = Node(group: G.Group, links: map<nat, L.LinkState>, routed: set<(nat, Value)>)

  /** `published` only grows: delivering any element any number of times, in any order or never,
      is loss, duplication and reordering. */
  datatype Net = Net(nodes: map<string, Node>, published: set<Value>)

  // ----- what a participant may publish -----

  /** A group's own hello, to everybody or to one remote. */
  function GroupHello(self: string, role: string, target: string, restartId: string): (r: Value)
    ensures SentBy(r, self, role)
  {
    var hello := map["type" := Str("hello"), "peer_id" := Str(self), "role" := Str(role)];
    var hello1 := if target != "" then hello["to_peer_id" := Str(target)] else hello;
    Dict(if restartId != "" then hello1["restart_id" := Str(restartId)] else hello1)
  }

  /** The signal says truly who sent it and which role the sender has. */
  predicate SentBy(message: Value, self: string, role: string) {
    message.Dict? && StringField(message.fields, "peer_id") == Some(self) && StringField(message.fields, "role") == Some(role)
  }

  /** A hello of the group, or a body of a link (hello, offer, answer, candidate) as the link
      addresses it. */
  ghost predicate MayPublish(n: Node, message: Value) {
    || (exists target, restartId :: message == GroupHello(n.group.self, n.group.role, target, restartId))
    || (exists id, body :: id in n.links && LinkBody(n.links[id], body) &&
          message == L.AddressedSignal(n.links[id].targetRemote, n.links[id].role, body))
  }

  predicate LinkBody(l: L.LinkState, body: map<string, Value>) {
    StringField(body, "peer_id") == Some(l.peerId)
  }

  // ----- steps -----

  datatype Action =
    | Publish(self: string, message: Value)
    | Receive(self: string, message: Value)
    | Handle(self: string, id: nat, message: Value, accepted: bool)
    | Notify(self: string, id: nat, event: L.LinkEvent)
    | GroupStep(self: string, op: G.Op)

  /** Receiving a signal: the group decides, a new link starts fresh, the signal is routed. */
  function OnReceive(n: Node, message: Value): Node {
    var g, g' := n.group, G.OnSignal(n.group, message);
    var sender := G.SenderOf(g.self, g.role, message);
    if g.stopped || sender.None? || sender.value !in g'.peers then n.(group := g')
    else
      var id := g'.peers[sender.value].id;
      Node(g',
           if id in n.links then n.links else n.links[id := L.Fresh(g.self, sender.value, g.role)],
           n.routed + {(id, message)})
  }

  ghost predicate Enabled(s: Net, a: Action) {
    a.self in s.nodes &&
    match a
    case Publish(p, message) => MayPublish(s.nodes[p], message)
    case Receive(p, message) => message in s.published
    case Handle(p, id, message, _) => id in s.nodes[p].links && (id, message) in s.nodes[p].routed
    case Notify(p, id, event) => id in s.nodes[p].links && !event.Signal?
    case GroupStep(p, op) => !op.Signal? && G.Enabled(s.nodes[p].group, op)
  }

  function NodeStep(n: Node, a: Action): Node
    requires (a.Handle? || a.Notify?) ==> a.id in n.links
    requires a.GroupStep? ==> G.Enabled(n.group, a.op)
  {
    match a
    case Publish(_, message) => n
    case Receive(_, message) => OnReceive(n, message)
    case Handle(_, id, message, accepted) =>
      n.(links := n.links[id := L.OnSignal(n.links[id], message, accepted)])
    case Notify(_, id, event) => n.(links := n.links[id := L.Step(n.links[id], event)])
    case GroupStep(_, op) => n.(group := G.Step(n.group, op))
  }

  function Step(s: Net, a: Action): Net
    requires a.self in s.nodes
    requires (a.Handle? || a.Notify?) ==> a.id in s.nodes[a.self].links
    requires a.GroupStep? ==> G.Enabled(s.nodes[a.self].group, a.op)
  {
    Net(s.nodes[a.self := NodeStep(s.nodes[a.self], a)],
        if a.Publish? then s.published + {a.message} else s.published)
  }

  /** Every participant starts alone; ids are distinct because they are the keys. */
  ghost predicate Initial(s: Net) {
    && s.published == {}
    && "" !in s.nodes
    && forall p :: p in s.nodes ==> s.nodes[p] == Node(G.Initial(p, s.nodes[p].group.role), map[], {})
  }

  ghost predicate IsRun(run: seq<Net>, actions: seq<Action>) {
    && |run| == |actions| + 1
    && Initial(run[0])
    && forall i {:trigger actions[i]} | 0 <= i < |actions| ::
         Enabled(run[i], actions[i]) && run[i + 1] == Step(run[i], actions[i])
  }

  // ----- the invariant -----

  /** The roles are fixed, so they are stated once for a run. */
  function Roles(s: Net): (r: map<string, string>)
    ensures r.Keys == s.nodes.Keys
  {
    map p | p in s.nodes :: s.nodes[p].group.role
  }

  /** A link a participant made: its other end is another participant on the other side, and it
      offered only if its own id is the larger one, and then once. */
  predicate GoodLink(roles: map<string, string>, p: string, l: L.LinkState) {
    && l.peerId == p
    && p in roles && l.role == roles[p]
    && l.targetRemote in roles && l.targetRemote != "" && l.targetRemote != p
    && !G.SameSide(roles[p], roles[l.targetRemote])
    && (l.remotePeerId == "" || l.remotePeerId == l.targetRemote)
    && l.offers <= 1
    && (l.offers == 1 ==> l.roleDecided && Less(l.targetRemote, p))
  }

  ghost predicate Honest(roles: map<string, string>, message: Value) {
    exists p :: p in roles && SentBy(message, p, roles[p])
  }

  ghost predicate GoodNode(roles: map<string, string>, p: string, n: Node) {
    && p in roles
    && n.group.self == p && n.group.role == roles[p]
    && (forall r :: r in n.group.peers ==> HoldsLink(n, r))
    && (forall id :: id in n.links ==> id < n.group.created && GoodLink(roles, p, n.links[id]))
    && (forall id, m :: (id, m) in n.routed ==> RoutedFromTarget(roles, n, id, m))
  }

  predicate HoldsLink(n: Node, r: string)
    requires r in n.group.peers
  {
    n.group.peers[r].id in n.links && n.links[n.group.peers[r].id].targetRemote == r
  }

  predicate RoutedFromTarget(roles: map<string, string>, n: Node, id: nat, m: Value) {
    id in n.links && n.links[id].targetRemote in roles &&
    SentBy(m, n.links[id].targetRemote, roles[n.links[id].targetRemote])
  }

  ghost predicate Inv(roles: map<string, string>, s: Net) {
    && s.nodes.Keys == roles.Keys && "" !in roles
    && (forall m :: m in s.published ==> Honest(roles, m))
    && (forall p :: p in s.nodes ==> GoodNode(roles, p, s.nodes[p]))
  }

  // ----- every step keeps it -----

  lemma PublishedIsHonest(roles: map<string, string>, p: string, n: Node, message: Value)
    requires GoodNode(roles, p, n) && MayPublish(n, message)
    ensures Honest(roles, message)
  {
    if target, restartId :| message == GroupHello(n.group.self, n.group.role, target, restartId) {
    } else {
      var id, body :| id in n.links && LinkBody(n.links[id], body) &&
        message == L.AddressedSignal(n.links[id].targetRemote, n.links[id].role, body);
      assert message.fields["peer_id"] == body["peer_id"];
    }
    assert SentBy(message, p, roles[p]);
  }

  /** How a signal changes the group's links: at most one, for the sender, and it is new. */
  lemma SignalMakesAtMostOneLink(g: G.Group, message: Value)
    ensures var g' := G.OnSignal(g, message);
            && g'.self == g.self && g'.role == g.role && g'.created >= g.created
            && forall r :: r in g'.peers ==>
                 || (r in g.peers && g'.peers[r].id == g.peers[r].id)
                 || (G.SenderOf(g.self, g.role, message) == Some(r) && g'.peers[r].id == g.created < g'.created)
  {
    var sender := G.SenderOf(g.self, g.role, message);
    if sender.Some? && !g.stopped {
      var g1 := G.NoteRestart(g, sender.value, message);
      assert g1.peers == g.peers && g1.created == g.created && g1.self == g.self && g1.role == g.role;
    }
  }

  lemma OtherStepsMakeNoLink(g: G.Group, op: G.Op)
    requires !op.Signal? && G.Enabled(g, op)
    ensures var g' := G.Step(g, op);
            && g'.self == g.self && g'.role == g.role && g'.created == g.created
            && forall r :: r in g'.peers ==> r in g.peers && g'.peers[r].id == g.peers[r].id
  {
  }

  lemma ReceiveKeepsNode(roles: map<string, string>, p: string, n: Node, message: Value)
    requires GoodNode(roles, p, n) && Honest(roles, message) && "" !in roles
    ensures GoodNode(roles, p, OnReceive(n, message))
  {
    var g, g' := n.group, G.OnSignal(n.group, message);
    SignalMakesAtMostOneLink(g, message);
    var sender := G.SenderOf(g.self, g.role, message);
    var n' := OnReceive(n, message);
    if !g.stopped && sender.Some? && sender.value in g'.peers {
      var q :| q in roles && SentBy(message, q, roles[q]);
      var id := g'.peers[sender.value].id;
      assert sender.value == q;
      forall r | r in g'.peers ensures HoldsLink(n', r) {
        if r in g.peers && g'.peers[r].id == g.peers[r].id {
          assert HoldsLink(n, r);
        }
      }
      assert RoutedFromTarget(roles, n', id, message);
      forall i, m | (i, m) in n'.routed ensures RoutedFromTarget(roles, n', i, m) {
        if (i, m) in n.routed { assert RoutedFromTarget(roles, n, i, m); }
      }
    } else {
      forall r | r in n'.group.peers ensures HoldsLink(n', r) {
        assert HoldsLink(n, r);
      }
      forall i, m | (i, m) in n'.routed ensures RoutedFromTarget(roles, n', i, m) {
        assert RoutedFromTarget(roles, n, i, m);
      }
    }
  }

  lemma SignalKeepsLink(roles: map<string, string>, p: string, l: L.LinkState, message: Value, accepted: bool)
    requires GoodLink(roles, p, l) && SentBy(message, l.targetRemote, roles[l.targetRemote])
    ensures GoodLink(roles, p, L.OnSignal(l, message, accepted))
    ensures L.OnSignal(l, message, accepted).targetRemote == l.targetRemote
  {
    L.OnlyHelloDecides(l, message, accepted);
    var r := L.OnSignal(l, message, accepted);
    if r.offers != l.offers {
      assert r == L.OnHello(l, l.targetRemote);
    }
  }

  lemma UpdateKeepsInv(roles: map<string, string>, s: Net, p: string, n: Node)
    requires Inv(roles, s) && p in s.nodes && GoodNode(roles, p, n)
    ensures Inv(roles, s.(nodes := s.nodes[p := n]))
  {
  }

  lemma GroupStepKeepsNode(roles: map<string, string>, p: string, n: Node, op: G.Op)
    requires GoodNode(roles, p, n) && !op.Signal? && G.Enabled(n.group, op)
    ensures GoodNode(roles, p, n.(group := G.Step(n.group, op)))
  {
    OtherStepsMakeNoLink(n.group, op);
    var n' := n.(group := G.Step(n.group, op));
    forall r | r in n'.group.peers ensures HoldsLink(n', r) {
      assert HoldsLink(n, r);
    }
    forall i, m | (i, m) in n'.routed ensures RoutedFromTarget(roles, n', i, m) {
      assert RoutedFromTarget(roles, n, i, m);
    }
  }

  lemma LinkStepKeepsNode(roles: map<string, string>, p: string, n: Node, id: nat, l: L.LinkState)
    requires GoodNode(roles, p, n) && id in n.links
    requires GoodLink(roles, p, l) && l.targetRemote == n.links[id].targetRemote
    ensures GoodNode(roles, p, n.(links := n.links[id := l]))
  {
    var n' := n.(links := n.links[id := l]);
    forall r | r in n'.group.peers ensures HoldsLink(n', r) {
      assert HoldsLink(n, r);
    }
    forall i, m | (i, m) in n'.routed ensures RoutedFromTarget(roles, n', i, m) {
      assert RoutedFromTarget(roles, n, i, m);
    }
  }

  lemma HandleKeepsNode(roles: map<string, string>, p: string, n: Node, id: nat, message: Value, accepted: bool)
    requires GoodNode(roles, p, n) && id in n.links && (id, message) in n.routed
    ensures GoodNode(roles, p, n.(links := n.links[id := L.OnSignal(n.links[id], message, accepted)]))
  {
    assert RoutedFromTarget(roles, n, id, message);
    SignalKeepsLink(roles, p, n.links[id], message, accepted);
    LinkStepKeepsNode(roles, p, n, id, L.OnSignal(n.links[id], message, accepted));
  }

  lemma NotifyKeepsNode(roles: map<string, string>, p: string, n: Node, id: nat, event: L.LinkEvent)
    requires GoodNode(roles, p, n) && id in n.links && !event.Signal?
    ensures GoodNode(roles, p, n.(links := n.links[id := L.Step(n.links[id], event)]))
  {
    var l := n.links[id];
    assert GoodLink(roles, p, l);
    assert GoodLink(roles, p, L.Step(l, event));
    LinkStepKeepsNode(roles, p, n, id, L.Step(l, event));
  }

  lemma StepKeepsInv(roles: map<string, string>, s: Net, a: Action)
    requires Inv(roles, s) && Enabled(s, a)
    ensures Inv(roles, Step(s, a))
  {
    var n := s.nodes[a.self];
    assert GoodNode(roles, a.self, n);
    match a
    case Publish(p, message) =>
      PublishedIsHonest(roles, p, n, message);
      assert s.nodes[p := n] == s.nodes;
    case Receive(p, message) =>
      ReceiveKeepsNode(roles, p, n, message);
      UpdateKeepsInv(roles, s, p, NodeStep(n, a));
    case Handle(p, id, message, accepted) =>
      HandleKeepsNode(roles, p, n, id, message, accepted);
      UpdateKeepsInv(roles, s, p, NodeStep(n, a));
    case Notify(p, id, event) =>
      NotifyKeepsNode(roles, p, n, id, event);
      UpdateKeepsInv(roles, s, p, NodeStep(n, a));
    case GroupStep(p, op) =>
      GroupStepKeepsNode(roles, p, n, op);
      UpdateKeepsInv(roles, s, p, NodeStep(n, a));
  }

  lemma RunBefore(run: seq<Net>, actions: seq<Action>)
    requires IsRun(run, actions) && actions != []
    ensures var n := |actions| - 1;
            && IsRun(run[..n + 1], actions[..n]) && run[..n + 1][|actions[..n]|] == run[n]
            && Enabled(run[n], actions[n]) && run[n + 1] == Step(run[n], actions[n])
  {
  }

  lemma {:induction false} InvInEveryRun(run: seq<Net>, actions: seq<Action>)
    requires IsRun(run, actions)
    ensures Inv(Roles(run[0]), run[|actions|])
  {
    if actions != [] {
      var n := |actions| - 1;
      RunBefore(run, actions);
      InvInEveryRun(run[..n + 1], actions[..n]);
      StepKeepsInv(Roles(run[0]), run[n], actions[n]);
    }
  }

  // ----- who a link hears -----

  /** What was handed to a link named no addressee or this participant. */
  ghost predicate OnlyAddressed(n: Node) {
    forall id, m | (id, m) in n.routed ::
      m.Dict? && ("to_peer_id" in m.fields ==> m.fields["to_peer_id"] == Str(n.group.self))
  }

  lemma StepKeepsAddressed(s: Net, a: Action, p: string)
    requires Enabled(s, a) && p in s.nodes && OnlyAddressed(s.nodes[p])
    ensures Step(s, a).nodes[p].group.self == s.nodes[p].group.self && OnlyAddressed(Step(s, a).nodes[p])
  {
    var n := s.nodes[p];
    if a.self == p && a.Receive? {
      SignalMakesAtMostOneLink(n.group, a.message);
      var sender := G.SenderOf(n.group.self, n.group.role, a.message);
      if sender.Some? {
        G.SenderExactly(n.group.self, n.group.role, a.message, sender.value);
      }
    } else if a.self == p && a.GroupStep? {
      OtherStepsMakeNoLink(n.group, a.op);
    }
  }

  /** Whatever is meant for a participant is handed to its link with the sender. */
  lemma WhatIsMeantIsHandedOn(n: Node, message: Value, remote: string)
    requires G.MeantFor(n.group.self, n.group.role, message, remote) && !n.group.stopped
    ensures var n' := OnReceive(n, message);
            && remote in n'.group.peers && n'.group.peers[remote].id in n'.links
            && (n'.group.peers[remote].id, message) in n'.routed
  {
    G.SenderExactly(n.group.self, n.group.role, message, remote);
    G.ActsExactlyOnItsOwn(n.group, message);
  }

  /** In every run a link handles only signals that name no addressee or its own participant: on a
      channel shared by many nobody reacts to what is meant for somebody else. */
  lemma {:induction false} NobodyHearsWhatIsMeantForOthers(run: seq<Net>, actions: seq<Action>, p: string, id: nat, m: Value)
    requires IsRun(run, actions) && p in run[|actions|].nodes && (id, m) in run[|actions|].nodes[p].routed
    ensures m.Dict? && ("to_peer_id" in m.fields ==> m.fields["to_peer_id"] == Str(p))
  {
    AddressedInEveryRun(run, actions, p);
  }

  lemma {:induction false} AddressedInEveryRun(run: seq<Net>, actions: seq<Action>, p: string)
    requires IsRun(run, actions) && p in run[|actions|].nodes
    ensures run[|actions|].nodes[p].group.self == p && OnlyAddressed(run[|actions|].nodes[p])
  {
    if actions != [] {
      var n := |actions| - 1;
      assert Enabled(run[n], actions[n]) && p in run[n].nodes;
      AddressedInEveryRun(run[..n + 1], actions[..n], p);
      StepKeepsAddressed(run[n], actions[n], p);
    }
  }

  // ----- what the actions so far amount to -----

  /** What one action brings a link of a participant. */
  function EventOf(a: Action, p: string, id: nat): seq<L.LinkEvent> {
    if a.self != p then []
    else if a.Handle? && a.id == id then [L.Signal(a.message, a.accepted)]
    else if a.Notify? && a.id == id then [a.event]
    else []
  }

  function EventsOf(actions: seq<Action>, p: string, id: nat): seq<L.LinkEvent> {
    if actions == [] then []
    else EventsOf(actions[..|actions| - 1], p, id) + EventOf(actions[|actions| - 1], p, id)
  }

  lemma ParticipantsStay(run: seq<Net>, actions: seq<Action>, p: string)
    requires IsRun(run, actions) && p in run[0].nodes
    ensures p in run[|actions|].nodes
    ensures var g := run[|actions|].nodes[p].group; g.self == p && g.role == run[0].nodes[p].group.role
  {
    InvInEveryRun(run, actions);
    assert GoodNode(Roles(run[0]), p, run[|actions|].nodes[p]);
  }

  /** In every run each link ever made is where the signals handled for it and the events of its channel,
      in their order, take a fresh one: what is proved of single links holds of all links in a network. */
  lemma {:induction false} EveryLinkHasItsHistory(run: seq<Net>, actions: seq<Action>, p: string, id: nat)
    requires IsRun(run, actions) && p in run[0].nodes
    ensures p in run[|actions|].nodes
    ensures HasHistory(run[|actions|].nodes[p], p, run[0].nodes[p].group.role, id, EventsOf(actions, p, id))
  {
    ParticipantsStay(run, actions, p);
    if actions != [] {
      var n := |actions| - 1;
      RunBefore(run, actions);
      ParticipantsStay(run[..n + 1], actions[..n], p);
      EveryLinkHasItsHistory(run[..n + 1], actions[..n], p, id);
      HistoryStep(run[n], actions[n], p, id, EventsOf(actions[..n], p, id));
    }
  }

  /** A link that has been made is what its events make of a fresh one, and one that has not has none. */
  ghost predicate HasHistory(n: Node, p: string, role: string, id: nat, events: seq<L.LinkEvent>) {
    if id in n.links then n.links[id] == L.Run(L.Fresh(p, n.links[id].targetRemote, role), events) else events == []
  }

  lemma HistoryStep(s: Net, a: Action, p: string, id: nat, events: seq<L.LinkEvent>)
    requires Enabled(s, a) && p in s.nodes && s.nodes[p].group.self == p
    requires HasHistory(s.nodes[p], p, s.nodes[p].group.role, id, events)
    ensures HasHistory(Step(s, a).nodes[p], p, s.nodes[p].group.role, id, events + EventOf(a, p, id))
  {
    var n, n' := s.nodes[p], Step(s, a).nodes[p];
    if EventOf(a, p, id) != [] {
      var e := EventOf(a, p, id)[0];
      var l := n.links[id];
      assert (events + [e])[..|events|] == events && (events + [e])[|events|] == e;
      assert n'.links[id] == L.Step(l, e) && L.Step(l, e).targetRemote == l.targetRemote by {
        assert [e][..0] == [] && L.Run(l, [e]) == L.Step(l, e);
        L.IdentityStays(l, [e]);
      }
    } else {
      assert events + EventOf(a, p, id) == events;
    }
  }

  /** What one action asks of a participant's group. */
  function OpOf(a: Action, p: string): seq<G.Op> {
    if a.self != p then []
    else if a.Receive? then [G.Signal(a.message)]
    else if a.GroupStep? then [a.op]
    else []
  }

  function OpsOf(actions: seq<Action>, p: string): seq<G.Op> {
    if actions == [] then [] else OpsOf(actions[..|actions| - 1], p) + OpOf(actions[|actions| - 1], p)
  }

  /** In every run each participant's group is where a run of its own takes it that consists of the
      signals received and its other steps: what is proved of single groups holds of all groups. */
  lemma {:induction false} EveryGroupHasItsRun(run: seq<Net>, actions: seq<Action>, p: string) returns (groups: seq<G.Group>)
    requires IsRun(run, actions) && p in run[0].nodes
    ensures p in run[|actions|].nodes
    ensures G.IsRun(groups, OpsOf(actions, p)) && groups[|OpsOf(actions, p)|] == run[|actions|].nodes[p].group
  {
    if actions == [] {
      groups := [run[0].nodes[p].group];
    } else {
      var n := |actions| - 1;
      RunBefore(run, actions);
      groups := EveryGroupHasItsRun(run[..n + 1], actions[..n], p);
      GroupFollows(run[n], actions[n], p);
      if OpOf(actions[n], p) != [] {
        groups := GroupRunExtends(groups, OpsOf(actions[..n], p), OpOf(actions[n], p)[0]);
      }
    }
  }

  lemma GroupFollows(s: Net, a: Action, p: string)
    requires Enabled(s, a) && p in s.nodes
    ensures var ops, g' := OpOf(a, p), Step(s, a).nodes[p].group;
            if ops == [] then g' == s.nodes[p].group
            else ops == [ops[0]] && G.Enabled(s.nodes[p].group, ops[0]) && g' == G.Step(s.nodes[p].group, ops[0])
  {
  }

  lemma GroupRunExtends(groups: seq<G.Group>, ops: seq<G.Op>, op: G.Op) returns (groups': seq<G.Group>)
    requires G.IsRun(groups, ops) && G.Enabled(groups[|ops|], op)
    ensures G.IsRun(groups', ops + [op]) && groups'[|ops| + 1] == G.Step(groups[|ops|], op)
  {
    groups' := groups + [G.Step(groups[|ops|], op)];
  }

  /** In every run the channel has carried exactly what was published. */
  lemma {:induction false} PublishedExactly(run: seq<Net>, actions: seq<Action>, m: Value)
    requires IsRun(run, actions)
    ensures m in run[|actions|].published <==> exists i :: 0 <= i < |actions| && IsPublish(actions[i], m)
  {
    if actions != [] {
      var n := |actions| - 1;
      RunBefore(run, actions);
      PublishedExactly(run[..n + 1], actions[..n], m);
      assert m in run[n + 1].published <==> m in run[n].published || IsPublish(actions[n], m);
      if m in run[n].published {
        var i :| 0 <= i < n && IsPublish(actions[..n][i], m);
        assert IsPublish(actions[i], m);
      }
      if i :| 0 <= i < |actions| && IsPublish(actions[i], m) {
        if i < n {
          assert IsPublish(actions[..n][i], m);
        }
      }
    }
  }

  predicate IsPublish(a: Action, m: Value) {
    a.Publish? && a.message == m
  }

  /** A signal that reaches a participant and is meant for it is handed to its link with the sender. */
  lemma WhatIsReceivedIsHandedOn(run: seq<Net>, actions: seq<Action>, k: nat, remote: string)
    requires IsRun(run, actions) && k < |actions| && actions[k].Receive?
    requires actions[k].self in run[k].nodes && !run[k].nodes[actions[k].self].group.stopped
    requires var g := run[k].nodes[actions[k].self].group; G.MeantFor(g.self, g.role, actions[k].message, remote)
    ensures actions[k].self in run[k + 1].nodes
    ensures var n := run[k + 1].nodes[actions[k].self];
            && remote in n.group.peers && n.group.peers[remote].id in n.links
            && (n.group.peers[remote].id, actions[k].message) in n.routed
  {
    assert run[k + 1] == Step(run[k], actions[k]);
    WhatIsMeantIsHandedOn(run[k].nodes[actions[k].self], actions[k].message, remote);
  }

  /** A signal meant for nobody here, or one that comes after the group has stopped, changes nothing. */
  lemma WhatIsNotMeantIsIgnored(run: seq<Net>, actions: seq<Action>, k: nat)
    requires IsRun(run, actions) && k < |actions| && actions[k].Receive? && actions[k].self in run[k].nodes
    requires var g := run[k].nodes[actions[k].self].group;
             g.stopped || forall remote :: !G.MeantFor(g.self, g.role, actions[k].message, remote)
    ensures run[k + 1] == run[k]
  {
    var n := run[k].nodes[actions[k].self];
    assert run[k + 1] == Step(run[k], actions[k]);
    G.ActsExactlyOnItsOwn(n.group, actions[k].message);
    var sender := G.SenderOf(n.group.self, n.group.role, actions[k].message);
    if sender.Some? {
      G.SenderExactly(n.group.self, n.group.role, actions[k].message, sender.value);
    }
    assert OnReceive(n, actions[k].message) == n;
  }

  /** A group's own hello: who it is, which role it has, whom it addresses and which restart it is. */
  lemma GroupHelloExactly(self: string, role: string, target: string, restartId: string)
    ensures var d := GroupHello(self, role, target, restartId).fields;
            && "type" in d && d["type"] == Str("hello") && "peer_id" in d && d["peer_id"] == Str(self)
            && "role" in d && d["role"] == Str(role)
            && ("to_peer_id" in d <==> target != "") && (target != "" ==> d["to_peer_id"] == Str(target))
            && ("restart_id" in d <==> restartId != "") && (restartId != "" ==> d["restart_id"] == Str(restartId))
  {
    assert "type"[0] == 't' && "peer_id"[0] == 'p' && "role"[1] == 'o' && "to_peer_id"[1] == 'o' && "restart_id"[1] == 'e';
    assert "type"[1] == 'y' && "role"[0] == 'r' && "to_peer_id"[0] == 't' && "restart_id"[0] == 'r';
  }

  // ----- role election -----

  /** In every run, of all links two participants ever made for each other only those at the
      larger id call createOffer, each at most once, so no pair has offerers on both ends. */
  lemma NoPairHasTwoOfferers(run: seq<Net>, actions: seq<Action>, p: string, id: nat, q: string, id': nat)
    requires IsRun(run, actions)
    requires p in run[|actions|].nodes && q in run[|actions|].nodes
    requires id in run[|actions|].nodes[p].links && id' in run[|actions|].nodes[q].links
    requires run[|actions|].nodes[p].links[id].targetRemote == q
    requires run[|actions|].nodes[q].links[id'].targetRemote == p
    ensures var l, l' := run[|actions|].nodes[p].links[id], run[|actions|].nodes[q].links[id'];
            && l.offers <= 1 && l'.offers <= 1
            && (l.offers == 1 ==> Less(q, p))
            && !(l.offers > 0 && l'.offers > 0)
  {
    InvInEveryRun(run, actions);
    LessIsStrictTotal(p, q);
  }

  /** In every run, every link ever made joins two different participants that are neither both
      clients nor both hosts. */
  lemma LinksJoinOppositeSides(run: seq<Net>, actions: seq<Action>, p: string, id: nat)
    requires IsRun(run, actions)
    requires p in run[|actions|].nodes && id in run[|actions|].nodes[p].links
    ensures var roles := Roles(run[0]);
            var q := run[|actions|].nodes[p].links[id].targetRemote;
            && p in roles && q in roles && p != q
            && !(roles[p] == "client" && roles[q] == "client")
            && !(roles[p] == "host" && roles[q] == "host")
  {
    InvInEveryRun(run, actions);
  }

  // ----- two participants can connect -----

  lemma Extend(run: seq<Net>, actions: seq<Action>, a: Action) returns (run': seq<Net>, actions': seq<Action>)
    requires IsRun(run, actions) && Enabled(run[|actions|], a)
    ensures IsRun(run', actions') && run'[|actions'|] == Step(run[|actions|], a)
  {
    run', actions' := run + [Step(run[|actions|], a)], actions + [a];
  }

  function Alone(self: string, role: string): Node {
    Node(G.Initial(self, role), map[], {})
  }

  function Two(p: string, n: Node, q: string, m: Node, published: set<Value>): Net {
    Net(map[p := n, q := m], published)
  }

  /** A group that was alone has made its first link, which is in state `l`. */
  function Met(self: string, role: string, remote: string, l: L.LinkState, routed: set<(nat, Value)>): Node {
    Node(G.AddPeer(G.Initial(self, role), remote), map[0 := l], routed)
  }

  lemma FirstSignalMakesALink(self: string, role: string, m: Value, remote: string)
    requires G.MeantFor(self, role, m, remote) && "restart_id" !in m.fields
    ensures OnReceive(Alone(self, role), m) == Met(self, role, remote, L.Fresh(self, remote, role), {(0, m)})
  {
    G.SenderExactly(self, role, m, remote);
  }

  lemma NextSignalFindsTheLink(self: string, role: string, m: Value, remote: string, l: L.LinkState, routed: set<(nat, Value)>)
    requires G.MeantFor(self, role, m, remote) && "type" in m.fields && m.fields["type"] == Str("answer")
    ensures OnReceive(Met(self, role, remote, l, routed), m) == Met(self, role, remote, l, routed + {(0, m)})
  {
    G.SenderExactly(self, role, m, remote);
    assert "answer"[0] != "hello"[0];
  }

  /** What a link tells the other end of a description. */
  function Description(kind: string, self: string, role: string, remote: string, sdp: string): Value {
    L.AddressedSignal(remote, role, map["type" := Str(kind), "peer_id" := Str(self), "sdp" := Str(sdp)])
  }

  lemma DescriptionIsMeant(kind: string, self: string, role: string, remote: string, remoteRole: string, sdp: string)
    requires self != "" && remote != "" && self != remote && !G.SameSide(role, remoteRole)
    ensures var d := Description(kind, self, role, remote, sdp).fields;
            && "type" in d && d["type"] == Str(kind) && "peer_id" in d && d["peer_id"] == Str(self)
            && "sdp" in d && d["sdp"] == Str(sdp) && "restart_id" !in d
    ensures G.MeantFor(remote, remoteRole, Description(kind, self, role, remote, sdp), self)
  {
    assert "type"[0] == 't' && "peer_id"[0] == 'p' && "sdp"[0] == 's' && "to_peer_id"[1] == 'o' && "role"[0] == 'r';
    assert "type"[1] == 'y' && "restart_id"[1] == 'e' && "role"[1] == 'o';
  }

  lemma HelloIsMeant(self: string, role: string, remote: string, remoteRole: string)
    requires self != "" && self != remote && !G.SameSide(role, remoteRole)
    ensures G.MeantFor(remote, remoteRole, GroupHello(self, role, "", ""), self)
    ensures "restart_id" !in GroupHello(self, role, "", "").fields
  {
    GroupHelloExactly(self, role, "", "");
  }

  /** The link of the larger id, once it has offered. */
  function Offering(self: string, remote: string, role: string): L.LinkState {
    L.Fresh(self, remote, role).(remotePeerId := remote, roleDecided := true, hasConnection := true, offers := 1)
  }

  lemma HelloMakesItOffer(self: string, remote: string, role: string, remoteRole: string, accepted: bool)
    requires Less(remote, self) && remote != self
    ensures L.OnSignal(L.Fresh(self, remote, role), GroupHello(remote, remoteRole, "", ""), accepted) == Offering(self, remote, role)
  {
    GroupHelloExactly(remote, remoteRole, "", "");
  }

  lemma OfferIsTaken(self: string, remote: string, role: string, m: Value)
    requires m.Dict? && "type" in m.fields && m.fields["type"] == Str("offer")
    requires "peer_id" in m.fields && m.fields["peer_id"] == Str(remote) && remote != self
    requires "sdp" in m.fields && m.fields["sdp"].Str?
    ensures L.OnSignal(L.Fresh(self, remote, role), m, true)
            == L.Fresh(self, remote, role).(hasConnection := true, remoteDescSet := true)
  {
    assert "offer"[0] != "hello"[0];
  }

  lemma AnswerIsTaken(self: string, remote: string, role: string, m: Value)
    requires m.Dict? && "type" in m.fields && m.fields["type"] == Str("answer")
    requires "peer_id" in m.fields && m.fields["peer_id"] == Str(remote) && remote != self
    requires "sdp" in m.fields && m.fields["sdp"].Str?
    ensures L.OnSignal(Offering(self, remote, role), m, true) == Offering(self, remote, role).(remoteDescSet := true)
  {
    assert "answer"[0] != "hello"[0] && "answer"[0] != "offer"[0];
  }

  lemma Publishes(run: seq<Net>, actions: seq<Action>, p: string, n: Node, q: string, m: Node, published: set<Value>, a: Action)
    returns (run': seq<Net>, actions': seq<Action>)
    requires IsRun(run, actions) && run[|actions|] == Two(p, n, q, m, published) && p != q
    requires a.Publish? && Enabled(Two(p, n, q, m, published), a)
    ensures IsRun(run', actions') && run'[|actions'|] == Two(p, n, q, m, published + {a.message})
  {
    run', actions' := Extend(run, actions, a);
    assert Two(p, n, q, m, published).nodes == map[p := n, q := m];
  }

  lemma LargerActs(run: seq<Net>, actions: seq<Action>, p: string, n: Node, q: string, m: Node, published: set<Value>, a: Action)
    returns (run': seq<Net>, actions': seq<Action>)
    requires IsRun(run, actions) && run[|actions|] == Two(p, n, q, m, published) && p != q
    requires !a.Publish? && a.self == q && Enabled(Two(p, n, q, m, published), a)
    ensures IsRun(run', actions') && run'[|actions'|] == Two(p, n, q, NodeStep(m, a), published)
  {
    run', actions' := Extend(run, actions, a);
    assert map[p := n, q := m][q := NodeStep(m, a)] == map[p := n, q := NodeStep(m, a)];
  }

  lemma SmallerActs(run: seq<Net>, actions: seq<Action>, p: string, n: Node, q: string, m: Node, published: set<Value>, a: Action)
    returns (run': seq<Net>, actions': seq<Action>)
    requires IsRun(run, actions) && run[|actions|] == Two(p, n, q, m, published) && p != q
    requires !a.Publish? && a.self == p && Enabled(Two(p, n, q, m, published), a)
    ensures IsRun(run', actions') && run'[|actions'|] == Two(p, NodeStep(n, a), q, m, published)
  {
    run', actions' := Extend(run, actions, a);
    assert map[p := n, q := m][p := NodeStep(n, a)] == map[p := NodeStep(n, a), q := m];
  }

  lemma HandlingMovesTheLink(self: string, role: string, remote: string, l: L.LinkState, l': L.LinkState,
                             routed: set<(nat, Value)>, m: Value)
    requires L.OnSignal(l, m, true) == l' && (0, m) in routed
    ensures NodeStep(Met(self, role, remote, l, routed), Handle(self, 0, m, true)) == Met(self, role, remote, l', routed)
  {
    assert map[0 := l][0 := l'] == map[0 := l'];
  }

  /** The smaller id says hello, and the larger one offers. */
  lemma SmallerSaysHello(p: string, roleP: string, q: string, roleQ: string) returns (run: seq<Net>, actions: seq<Action>)
    requires p != "" && q != "" && p != q && Less(p, q) && !G.SameSide(roleP, roleQ)
    ensures IsRun(run, actions)
    ensures var h := GroupHello(p, roleP, "", "");
            run[|actions|] == Two(p, Alone(p, roleP), q, Met(q, roleQ, p, Offering(q, p, roleQ), {(0, h)}), {h})
  {
    var h := GroupHello(p, roleP, "", "");
    HelloIsMeant(p, roleP, q, roleQ);
    FirstSignalMakesALink(q, roleQ, h, p);
    HelloMakesItOffer(q, p, roleQ, roleP, true);
    HandlingMovesTheLink(q, roleQ, p, L.Fresh(q, p, roleQ), Offering(q, p, roleQ), {(0, h)}, h);
    run, actions := [Two(p, Alone(p, roleP), q, Alone(q, roleQ), {})], [];
    run, actions := Publishes(run, actions, p, Alone(p, roleP), q, Alone(q, roleQ), {}, Publish(p, h));
    assert {} + {h} == {h};
    run, actions := LargerActs(run, actions, p, Alone(p, roleP), q, Alone(q, roleQ), {h}, Receive(q, h));
    run, actions := LargerActs(run, actions, p, Alone(p, roleP), q, Met(q, roleQ, p, L.Fresh(q, p, roleQ), {(0, h)}), {h},
                               Handle(q, 0, h, true));
  }

  lemma MayPublishDescription(kind: string, self: string, role: string, remote: string, l: L.LinkState,
                              routed: set<(nat, Value)>, sdp: string)
    requires l.peerId == self && l.targetRemote == remote && l.role == role
    ensures MayPublish(Met(self, role, remote, l, routed), Description(kind, self, role, remote, sdp))
  {
    var n := Met(self, role, remote, l, routed);
    var body: map<string, Value> := map["type" := Str(kind), "peer_id" := Str(self), "sdp" := Str(sdp)];
    assert "type"[0] == 't' && "peer_id"[0] == 'p' && "sdp"[0] == 's';
    assert 0 in n.links && LinkBody(n.links[0], body);
  }

  /** The link of the smaller id, once it has taken the offer. */
  function Answering(self: string, remote: string, role: string): L.LinkState {
    L.Fresh(self, remote, role).(hasConnection := true, remoteDescSet := true)
  }

  /** The offer arrives and is taken. */
  lemma SmallerTakesOffer(p: string, roleP: string, q: string, roleQ: string, sdp: string)
    returns (run: seq<Net>, actions: seq<Action>, routed: set<(nat, Value)>, published: set<Value>)
    requires p != "" && q != "" && p != q && Less(p, q) && !G.SameSide(roleP, roleQ)
    ensures IsRun(run, actions)
    ensures run[|actions|] == Two(p, Met(p, roleP, q, Answering(p, q, roleP), {(0, Description("offer", q, roleQ, p, sdp))}),
                                  q, Met(q, roleQ, p, Offering(q, p, roleQ), routed), published)
  {
    var h, o := GroupHello(p, roleP, "", ""), Description("offer", q, roleQ, p, sdp);
    routed, published := {(0, h)}, {h, o};
    var n, m := Alone(p, roleP), Met(q, roleQ, p, Offering(q, p, roleQ), routed);
    run, actions := SmallerSaysHello(p, roleP, q, roleQ);
    MayPublishDescription("offer", q, roleQ, p, Offering(q, p, roleQ), routed, sdp);
    run, actions := Publishes(run, actions, p, n, q, m, {h}, Publish(q, o));
    assert {h} + {o} == published;
    DescriptionIsMeant("offer", q, roleQ, p, roleP, sdp);
    FirstSignalMakesALink(p, roleP, o, q);
    run, actions := SmallerActs(run, actions, p, n, q, m, published, Receive(p, o));
    OfferIsTaken(p, q, roleP, o);
    HandlingMovesTheLink(p, roleP, q, L.Fresh(p, q, roleP), Answering(p, q, roleP), {(0, o)}, o);
    run, actions := SmallerActs(run, actions, p, Met(p, roleP, q, L.Fresh(p, q, roleP), {(0, o)}), q, m, published,
                                Handle(p, 0, o, true));
  }

  /** The answer arrives and is taken. */
  lemma LargerTakesAnswer(p: string, roleP: string, q: string, roleQ: string, sdp: string)
    returns (run: seq<Net>, actions: seq<Action>, heardP: set<(nat, Value)>, heardQ: set<(nat, Value)>, published: set<Value>)
    requires p != "" && q != "" && p != q && Less(p, q) && !G.SameSide(roleP, roleQ)
    ensures IsRun(run, actions)
    ensures run[|actions|] == Two(p, Met(p, roleP, q, Answering(p, q, roleP), heardP),
                                  q, Met(q, roleQ, p, Offering(q, p, roleQ).(remoteDescSet := true), heardQ), published)
  {
    var a := Description("answer", p, roleP, q, sdp);
    run, actions, heardQ, published := SmallerTakesOffer(p, roleP, q, roleQ, sdp);
    heardP := {(0, Description("offer", q, roleQ, p, sdp))};
    var n, m := Met(p, roleP, q, Answering(p, q, roleP), heardP), Met(q, roleQ, p, Offering(q, p, roleQ), heardQ);
    MayPublishDescription("answer", p, roleP, q, Answering(p, q, roleP), heardP, sdp);
    run, actions := Publishes(run, actions, p, n, q, m, published, Publish(p, a));
    published := published + {a};
    DescriptionIsMeant("answer", p, roleP, q, roleQ, sdp);
    NextSignalFindsTheLink(q, roleQ, a, p, Offering(q, p, roleQ), heardQ);
    run, actions := LargerActs(run, actions, p, n, q, m, published, Receive(q, a));
    heardQ := heardQ + {(0, a)};
    AnswerIsTaken(q, p, roleQ, a);
    HandlingMovesTheLink(q, roleQ, p, Offering(q, p, roleQ), Offering(q, p, roleQ).(remoteDescSet := true), heardQ, a);
    run, actions := LargerActs(run, actions, p, n, q, Met(q, roleQ, p, Offering(q, p, roleQ), heardQ), published,
                               Handle(q, 0, a, true));
  }

  lemma OpeningConnects(self: string, role: string, remote: string, l: L.LinkState, routed: set<(nat, Value)>)
    ensures NodeStep(Met(self, role, remote, l, routed), Notify(self, 0, L.Opened))
            == Met(self, role, remote, L.Step(l, L.Opened), routed)
  {
    assert map[0 := l][0 := L.Step(l, L.Opened)] == map[0 := L.Step(l, L.Opened)];
  }

  /** The promise is not empty: any two participants on opposite sides, or of a mesh, have a run in which
      they connect -- the smaller id says hello, the larger one offers, once, and the answer comes back. */
  lemma TwoParticipantsConnect(p: string, roleP: string, q: string, roleQ: string, sdp: string)
    returns (run: seq<Net>, actions: seq<Action>)
    requires p != "" && q != "" && p != q && Less(p, q) && !G.SameSide(roleP, roleQ)
    ensures IsRun(run, actions)
    ensures p in run[|actions|].nodes && 0 in run[|actions|].nodes[p].links
    ensures q in run[|actions|].nodes && 0 in run[|actions|].nodes[q].links
    ensures var l, l' := run[|actions|].nodes[p].links[0], run[|actions|].nodes[q].links[0];
            && l.targetRemote == q && l.connected && l.remoteDescSet && l.offers == 0
            && l'.targetRemote == p && l'.connected && l'.remoteDescSet && l'.offers == 1
  {
    var heardP, heardQ, published;
    run, actions, heardP, heardQ, published := LargerTakesAnswer(p, roleP, q, roleQ, sdp);
    var l, l' := Answering(p, q, roleP), Offering(q, p, roleQ).(remoteDescSet := true);
    OpeningConnects(p, roleP, q, l, heardP);
    run, actions := SmallerActs(run, actions, p, Met(p, roleP, q, l, heardP), q, Met(q, roleQ, p, l', heardQ), published,
                                Notify(p, 0, L.Opened));
    OpeningConnects(q, roleQ, p, l', heardQ);
    run, actions := LargerActs(run, actions, p, Met(p, roleP, q, L.Step(l, L.Opened), heardP), q, Met(q, roleQ, p, l', heardQ),
                               published, Notify(q, 0, L.Opened));
  }
}
