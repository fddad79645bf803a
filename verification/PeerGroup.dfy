/** A peer group as a state machine.

    Every step below is one section of the source that runs under the group's mutex, so a run
    is any interleaving of the signalling thread, the discovery thread, the library's
    notifications and any number of callers. */
module PeerGroup {
  import opened Values

  /** A callback: the user's own, or one wrapped so that it first notes the request's origin. */
  datatype Function = User(id: nat) | Recording(origin: string, inner: Function)

  /** Where a callback is registered: every table of the source, flattened to its entries. */
  datatype Key =
    | OnPub(topic: string, pubHandle: nat)
    | OnRequest(service: string, requestHandle: nat)
    | OnReply(rid: string)
    | OnVideo(videoHandle: nat)
    | OnAudio(audioHandle: nat)

  /** What a child's tables hold for the group's: request callbacks are wrapped. */
  function Mirrored(table: map<Key, Function>, remote: string): (r: map<Key, Function>)
    ensures r.Keys == table.Keys
  {
    map k | k in table :: Wrap(k, remote, table[k])
  }

  function Wrap(k: Key, remote: string, f: Function): Function {
    if k.OnRequest? then Recording(remote, f) else f
  }

  /** A live link as the group sees it; `id` tells apart the links made for one remote. */
  datatype Peer = Peer(id: nat, entries: map<Key, Function>, connected: bool)

  /** What happened to the links, for stating properties of whole runs. */
  datatype Event =
    | Created(remote: string)
    | BecameReady(remote: string)
    | Restarted(remote: string)

  datatype Group = Group(
    self: string,
    role: string,
    stopped: bool,
    peers: map<string, Peer>,
    entries: map<Key, Function>,
    origins: map<string, string>,
    everReady: set<string>,
    restartIds: map<string, string>,
    nextHandle: nat,
    created: nat,
    log: seq<Event>)

  function Initial(self: string, role: string): Group {
    Group(self, role, false, map[], map[], map[], {}, map[], 1, 0, [])
  }

  // ----- an incoming signal -----

  /** The sender of a signal this group has to act on: somebody else, addressing this group or
      everybody, and not of the same one-sided role. */
  function SenderOf(self: string, role: string, message: Value): Option<string> {
    if !message.Dict? then None
    else
      var fields := message.fields;
      var sender := StringField(fields, "peer_id");
      if sender.None? || sender.value == "" || sender.value == self then None
      else if "to_peer_id" in fields && fields["to_peer_id"] != Str(self) then None
      else if SameSide(role, RoleOf(fields)) then None
      else sender
  }

  function RoleOf(fields: map<string, Value>): string {
    if StringField(fields, "role").Some? then fields["role"].text else "mesh"
  }

  predicate SameSide(a: string, b: string) {
    (a == "client" && b == "client") || (a == "host" && b == "host")
  }

  predicate IsHello(message: Value) {
    message.Dict? && StringField(message.fields, "type") == Some("hello")
  }

  /** The restart id a hello announces. */
  function RestartOf(message: Value): Option<string> {
    if IsHello(message) then StringField(message.fields, "restart_id") else None
  }

  /** The restart id known for a remote; one never heard of has the empty id. */
  function KnownRestart(g: Group, remote: string): string {
    if remote in g.restartIds then g.restartIds[remote] else ""
  }

  predicate NewRestart(g: Group, remote: string, message: Value) {
    RestartOf(message).Some? && KnownRestart(g, remote) != RestartOf(message).value
  }

  /** A hello replaces the link it finds when the remote restarted, or when the link was ready
      once and is not connected any more. */
  predicate Replaces(g: Group, remote: string, message: Value) {
    remote in g.peers && IsHello(message) &&
    (NewRestart(g, remote, message) || (remote in g.everReady && !g.peers[remote].connected))
  }

  function NoteRestart(g: Group, remote: string, message: Value): Group {
    if RestartOf(message).None? then g
    else
      var g1 := g.(restartIds := g.restartIds[remote := RestartOf(message).value]);
      if NewRestart(g, remote, message) then g1.(log := g.log + [Restarted(remote)]) else g1
  }

  function DropPeer(g: Group, remote: string): Group {
    g.(peers := Omit(g.peers, remote),
       everReady := g.everReady - {remote},
       origins := map rid | rid in g.origins && g.origins[rid] != remote :: g.origins[rid])
  }

  function AddPeer(g: Group, remote: string): Group {
    g.(peers := g.peers[remote := Peer(g.created, Mirrored(g.entries, remote), false)],
       created := g.created + 1,
       log := g.log + [Created(remote)])
  }

  function OnSignal(g: Group, message: Value): Group {
    var sender := SenderOf(g.self, g.role, message);
    if sender.None? || g.stopped then g
    else
      var remote := sender.value;
      var g1 := NoteRestart(g, remote, message);
      var g2 := if Replaces(g, remote, message) then DropPeer(g1, remote) else g1;
      if remote in g2.peers then g2 else AddPeer(g2, remote)
  }

  // ----- the other sections -----

  function OnReady(g: Group, remote: string): Group {
    g.(everReady := g.everReady + {remote}, log := g.log + [BecameReady(remote)])
  }

  function Stale(g: Group): set<string> {
    set r | r in g.peers && r in g.everReady && !g.peers[r].connected
  }

  function Sweep(g: Group): Group {
    g.(peers := map r | r in g.peers && r !in Stale(g) :: g.peers[r], everReady := g.everReady - Stale(g))
  }

  /** An entry set in every peer's tables, a request callback wrapped for its remote. */
  function RegisterAtPeers(peers: map<string, Peer>, k: Key, callback: Function): (r: map<string, Peer>)
    ensures r.Keys == peers.Keys
  {
    map r | r in peers :: peers[r].(entries := peers[r].entries[k := Wrap(k, r, callback)])
  }

  function UnregisterAtPeers(peers: map<string, Peer>, k: Key): (r: map<string, Peer>)
    ensures r.Keys == peers.Keys
  {
    map r | r in peers :: peers[r].(entries := Omit(peers[r].entries, k))
  }

  function Register(g: Group, k: Key, callback: Function): Group {
    g.(entries := g.entries[k := callback], peers := RegisterAtPeers(g.peers, k, callback))
  }

  function TakeHandle(g: Group): Group {
    g.(nextHandle := g.nextHandle + 1)
  }

  function Unregister(g: Group, k: Key): Group {
    g.(entries := Omit(g.entries, k), peers := UnregisterAtPeers(g.peers, k))
  }

  /** A wrapped request callback notes where the request came from before it runs. */
  function Record(g: Group, rid: string, remote: string): Group {
    g.(origins := g.origins[rid := remote])
  }

  function KindOf(message: Value): string {
    if message.Dict? && StringField(message.fields, "type").Some? then message.fields["type"].text else ""
  }

  function RidOf(message: Value): string {
    if message.Dict? && StringField(message.fields, "rid").Some? then message.fields["rid"].text else ""
  }

  predicate IsAnswer(message: Value) {
    KindOf(message) == "rpc_ack" || KindOf(message) == "rpc_rep"
  }

  function ConnectedPeers(g: Group): set<string> {
    set r | r in g.peers && g.peers[r].connected
  }

  /** The peers a message is meant for, chosen under the mutex. */
  function Targets(g: Group, message: Value): (r: set<string>)
    ensures r <= g.peers.Keys
  {
    if !IsAnswer(message) then ConnectedPeers(g)
    else if RidOf(message) in g.origins && g.origins[RidOf(message)] in g.peers
    then {g.origins[RidOf(message)]}
    else {}
  }

  /** The peers it is handed to when nothing happens in between: once the mutex is free, a chosen link
      that is not connected drops it without a word. */
  function Delivered(g: Group, message: Value): set<string> {
    set r | r in Targets(g, message) && g.peers[r].connected
  }

  function Send(g: Group, message: Value): Group {
    if KindOf(message) == "rpc_rep" && RidOf(message) in g.origins
    then g.(origins := Omit(g.origins, RidOf(message)))
    else g
  }

  function StopClear(g: Group): Group {
    g.(peers := map[], origins := map[], restartIds := map[])
  }

  datatype Op =
    | Signal(message: Value)
    | Ready(remote: string)
    | Connectivity(remote: string, up: bool)
    | SweepStale
    | AddHandled(key: Key, callback: Function)
    | AddReply(rid: string, callback: Function)
    | Remove(key: Key)
    | Request(rid: string, remote: string)
    | SendData(message: Value)
    | Stop
    | Clear

  /** The key of a new handled callback carries the handle taken for it. */
  predicate FreshHandle(g: Group, k: Key) {
    match k
    case OnPub(_, h) => h == g.nextHandle
    case OnRequest(_, h) => h == g.nextHandle
    case OnVideo(h) => h == g.nextHandle
    case OnAudio(h) => h == g.nextHandle
    case OnReply(_) => false
  }

  predicate Enabled(g: Group, op: Op) {
    match op
    case AddHandled(k, _) => FreshHandle(g, k)
    case Connectivity(remote, _) => remote in g.peers
    case Clear => g.stopped
    case _ => true
  }

  function Step(g: Group, op: Op): Group
    requires Enabled(g, op)
  {
    match op
    case Signal(message) => OnSignal(g, message)
    case Ready(remote) => OnReady(g, remote)
    case Connectivity(remote, up) => g.(peers := g.peers[remote := g.peers[remote].(connected := up)])
    case SweepStale => Sweep(g)
    case AddHandled(k, callback) => TakeHandle(Register(g, k, callback))
    case AddReply(rid, callback) => Register(g, OnReply(rid), callback)
    case Remove(k) => Unregister(g, k)
    case Request(rid, remote) => Record(g, rid, remote)
    case SendData(message) => Send(g, message)
    case Stop => g.(stopped := true)
    case Clear => StopClear(g)
  }

  /** A run is a sequence of states, each following from the one before. */
  ghost predicate IsRun(run: seq<Group>, ops: seq<Op>) {
    && |run| == |ops| + 1
    && run[0] == Initial(run[0].self, run[0].role)
    && forall i {:trigger ops[i]} | 0 <= i < |ops| :: Enabled(run[i], ops[i]) && run[i + 1] == Step(run[i], ops[i])
  }

  // ----- the callback mirror -----

  ghost predicate Mirror(g: Group) {
    forall r :: r in g.peers ==> g.peers[r].entries == Mirrored(g.entries, r)
  }

  lemma StepKeepsMirror(g: Group, op: Op)
    requires Enabled(g, op) && Mirror(g)
    ensures Mirror(Step(g, op))
  {
    match op
    case Signal(message) => SignalKeepsMirror(g, message);
    case AddHandled(k, callback) => RegisterKeepsMirror(g, k, callback);
    case AddReply(rid, callback) => RegisterKeepsMirror(g, OnReply(rid), callback);
    case Remove(k) => UnregisterKeepsMirror(g, k);
    case _ =>
  }

  lemma SignalKeepsMirror(g: Group, message: Value)
    requires Mirror(g)
    ensures Mirror(OnSignal(g, message))
  {
    var sender := SenderOf(g.self, g.role, message);
    if sender.Some? && !g.stopped {
      var g1 := NoteRestart(g, sender.value, message);
      assert Mirror(g1);
      AddKeepsMirror(g1, sender.value);
      AddKeepsMirror(DropPeer(g1, sender.value), sender.value);
    }
  }

  lemma AddKeepsMirror(g: Group, remote: string)
    requires Mirror(g)
    ensures Mirror(AddPeer(g, remote)) && Mirror(DropPeer(g, remote))
  {
  }

  lemma RegisterKeepsMirror(g: Group, k: Key, callback: Function)
    requires Mirror(g)
    ensures Mirror(Register(g, k, callback))
  {
    forall r | r in g.peers
      ensures g.peers[r].entries[k := Wrap(k, r, callback)] == Mirrored(g.entries[k := callback], r)
    {
    }
  }

  lemma UnregisterKeepsMirror(g: Group, k: Key)
    requires Mirror(g)
    ensures Mirror(Unregister(g, k))
  {
    forall r | r in g.peers
      ensures Omit(g.peers[r].entries, k) == Mirrored(Omit(g.entries, k), r)
    {
    }
  }

  /** Whenever the mutex is free, every peer's tables hold exactly the group's entries,
      whatever the order of arrivals, replacements, additions and removals. */
  lemma {:induction false} MirrorInEveryRun(run: seq<Group>, ops: seq<Op>)
    requires IsRun(run, ops)
    ensures Mirror(run[|ops|])
  {
    if ops != [] {
      var n := |ops| - 1;
      MirrorInEveryRun(run[..n + 1], ops[..n]);
      StepKeepsMirror(run[n], ops[n]);
    }
  }

  // ----- which signals a group acts on, and how -----

  predicate HasText(fields: map<string, Value>, key: string, text: string) {
    key in fields && fields[key] == Str(text)
  }

  /** A signal of somebody else for this group or for everybody, from a side this group talks to. */
  predicate MeantFor(self: string, role: string, message: Value, remote: string) {
    && message.Dict? && remote != "" && remote != self && HasText(message.fields, "peer_id", remote)
    && ("to_peer_id" in message.fields ==> message.fields["to_peer_id"] == Str(self))
    && !(role == "client" && HasText(message.fields, "role", "client"))
    && !(role == "host" && HasText(message.fields, "role", "host"))
  }

  lemma SenderExactly(self: string, role: string, message: Value, remote: string)
    ensures SenderOf(self, role, message) == Some(remote) <==> MeantFor(self, role, message, remote)
  {
    assert "mesh"[0] != "client"[0] && "mesh"[0] != "host"[0];
  }

  /** A group acts on exactly the signals meant for it: it has a link to the sender afterwards, and any
      other signal, or one that comes after the group has stopped, changes nothing. */
  lemma ActsExactlyOnItsOwn(g: Group, message: Value)
    ensures forall remote :: MeantFor(g.self, g.role, message, remote) && !g.stopped ==>
              remote in OnSignal(g, message).peers
    ensures g.stopped || (forall remote :: !MeantFor(g.self, g.role, message, remote)) ==> OnSignal(g, message) == g
    ensures message.Dict? && "to_peer_id" in message.fields && message.fields["to_peer_id"] != Str(g.self) ==>
              OnSignal(g, message) == g
  {
    forall remote ensures SenderOf(g.self, g.role, message) == Some(remote) <==> MeantFor(g.self, g.role, message, remote) {
      SenderExactly(g.self, g.role, message, remote);
    }
    var sender := SenderOf(g.self, g.role, message);
    if sender.Some? {
      assert MeantFor(g.self, g.role, message, sender.value);
    }
  }

  predicate Announces(message: Value, restartId: string) {
    message.Dict? && HasText(message.fields, "type", "hello") && HasText(message.fields, "restart_id", restartId)
  }

  /** A hello of `remote` that finds a link worth replacing: it announces a restart id that is not the
      one last heard, empty when none was, or the link was ready and is not connected any more. */
  ghost predicate GivesReason(g: Group, message: Value, remote: string) {
    && message.Dict? && HasText(message.fields, "type", "hello") && remote in g.peers
    && ((exists id :: Announces(message, id) && id != (if remote in g.restartIds then g.restartIds[remote] else ""))
        || (remote in g.everReady && !g.peers[remote].connected))
  }

  lemma ReasonsExactly(g: Group, message: Value, remote: string)
    ensures Replaces(g, remote, message) <==> GivesReason(g, message, remote)
    ensures forall id :: RestartOf(message) == Some(id) <==> Announces(message, id)
  {
    if RestartOf(message).Some? {
      assert Announces(message, RestartOf(message).value);
    }
  }

  lemma SignalInParts(g: Group, message: Value, remote: string)
    requires MeantFor(g.self, g.role, message, remote) && !g.stopped
    ensures var g1 := NoteRestart(g, remote, message);
            && g1 == g.(restartIds := g1.restartIds, log := g1.log)
            && OnSignal(g, message) == if GivesReason(g, message, remote) then AddPeer(DropPeer(g1, remote), remote)
                                       else if remote !in g.peers then AddPeer(g1, remote) else g1
  {
    SenderExactly(g.self, g.role, message, remote);
    ReasonsExactly(g, message, remote);
  }

  /** What a signal meant for the group does to its links, their readiness and their requests. */
  lemma SignalChangesLinksExactly(g: Group, message: Value, remote: string)
    requires MeantFor(g.self, g.role, message, remote) && !g.stopped
    ensures var g', anew := OnSignal(g, message), GivesReason(g, message, remote);
            && (forall r :: r in g'.peers <==> r in g.peers || r == remote)
            && (forall r | r in g.peers && !(r == remote && anew) :: g'.peers[r] == g.peers[r])
            && (anew || remote !in g.peers ==> g'.peers[remote].id == g.created && !g'.peers[remote].connected)
            && g'.created == g.created + (if anew || remote !in g.peers then 1 else 0)
            && (forall r :: r in g'.everReady <==> r in g.everReady && !(r == remote && anew))
            && (forall rid :: rid in g'.origins <==> rid in g.origins && !(g.origins[rid] == remote && anew))
            && (forall rid | rid in g'.origins :: g'.origins[rid] == g.origins[rid])
  {
    SignalInParts(g, message, remote);
  }

  /** What it does to the restart ids: the one a hello announces is remembered.  The rest stays. */
  lemma SignalChangesRestExactly(g: Group, message: Value, remote: string)
    requires MeantFor(g.self, g.role, message, remote) && !g.stopped
    ensures var g' := OnSignal(g, message);
            && g'.self == g.self && g'.role == g.role && !g'.stopped
            && g'.entries == g.entries && g'.nextHandle == g.nextHandle
            && (forall id | Announces(message, id) :: g'.restartIds == g.restartIds[remote := id])
            && ((forall id :: !Announces(message, id)) ==> g'.restartIds == g.restartIds)
  {
    SignalInParts(g, message, remote);
    ReasonsExactly(g, message, remote);
    if RestartOf(message).Some? {
      assert Announces(message, RestartOf(message).value);
    }
  }

  /** What is noted of it: a restart when the id announced is a new one, and a link that was made. */
  lemma SignalLogsExactly(g: Group, message: Value, remote: string)
    requires MeantFor(g.self, g.role, message, remote) && !g.stopped
    ensures var known := if remote in g.restartIds then g.restartIds[remote] else "";
            OnSignal(g, message).log
            == g.log + (if exists id :: Announces(message, id) && id != known then [Restarted(remote)] else [])
                     + (if GivesReason(g, message, remote) || remote !in g.peers then [Created(remote)] else [])
  {
    SignalInParts(g, message, remote);
    ReasonsExactly(g, message, remote);
    if NewRestart(g, remote, message) {
      assert Announces(message, RestartOf(message).value);
    }
  }

  // ----- sweeping -----

  /** A sweep takes out exactly the links that were ready and are not connected, with their readiness,
      and leaves everything else as it is. */
  lemma SweepsExactly(g: Group)
    ensures var g' := Step(g, SweepStale);
            && (forall r :: r in g'.peers <==> r in g.peers && (g.peers[r].connected || r !in g.everReady))
            && (forall r | r in g'.peers :: g'.peers[r] == g.peers[r])
            && (forall r :: r in g'.everReady <==> r in g.everReady && (r in g.peers ==> g.peers[r].connected))
            && g' == g.(peers := g'.peers, everReady := g'.everReady)
  {
  }

  /** In every run: a sweep never takes out a connected peer or one that has not been ready yet, and
      after it no peer is left that was ready and is not connected. */
  lemma SweepsSpareTheConnected(run: seq<Group>, ops: seq<Op>, n: nat, r: string)
    requires IsRun(run, ops) && n < |ops| && ops[n].SweepStale? && r in run[n].peers
    ensures run[n].peers[r].connected || r !in run[n].everReady ==>
              r in run[n + 1].peers && run[n + 1].peers[r] == run[n].peers[r]
    ensures !run[n].peers[r].connected && r in run[n].everReady ==>
              r !in run[n + 1].peers && r !in run[n + 1].everReady
  {
    assert run[n + 1] == Step(run[n], ops[n]);
    SweepsExactly(run[n]);
  }

  // ----- which callbacks a group has -----

  /** The callback last given for a key and not removed since. */
  function LastGiven(ops: seq<Op>, k: Key): Option<Function> {
    if ops == [] then None
    else
      match ops[|ops| - 1]
      case AddHandled(key, callback) => if key == k then Some(callback) else LastGiven(ops[..|ops| - 1], k)
      case AddReply(rid, callback) => if OnReply(rid) == k then Some(callback) else LastGiven(ops[..|ops| - 1], k)
      case Remove(key) => if key == k then None else LastGiven(ops[..|ops| - 1], k)
      case _ => LastGiven(ops[..|ops| - 1], k)
  }

  lemma SignalKeepsEntries(g: Group, message: Value)
    ensures OnSignal(g, message).entries == g.entries && OnSignal(g, message).nextHandle == g.nextHandle
  {
    var sender := SenderOf(g.self, g.role, message);
    if sender.Some? && !g.stopped {
      assert NoteRestart(g, sender.value, message).entries == g.entries;
    }
  }

  lemma OneStepOfEntries(g: Group, op: Op)
    requires Enabled(g, op)
    ensures op.AddHandled? ==> Step(g, op).entries == g.entries[op.key := op.callback]
    ensures op.AddReply? ==> Step(g, op).entries == g.entries[OnReply(op.rid) := op.callback]
    ensures op.Remove? ==> Step(g, op).entries == map k | k in g.entries && k != op.key :: g.entries[k]
    ensures !op.AddHandled? && !op.AddReply? && !op.Remove? ==> Step(g, op).entries == g.entries
    ensures Step(g, op).nextHandle == g.nextHandle + if op.AddHandled? then 1 else 0
  {
    if op.Signal? {
      SignalKeepsEntries(g, op.message);
    }
  }

  /** In every run the group's callbacks are those given and not removed since, and a handle that is
      given out has not been in use before. */
  lemma {:induction false} CallbacksAreThoseGiven(run: seq<Group>, ops: seq<Op>, n: nat, k: Key)
    requires IsRun(run, ops) && n < |run|
    ensures (k in run[n].entries <==> LastGiven(ops[..n], k).Some?)
    ensures k in run[n].entries ==> LastGiven(ops[..n], k) == Some(run[n].entries[k])
    ensures k in run[n].entries && !k.OnReply? ==> HandleOf(k) < run[n].nextHandle
    ensures n < |ops| && ops[n].AddHandled? && ops[n].key == k ==> k !in run[n].entries
    decreases n
  {
    if n > 0 {
      CallbacksAreThoseGiven(run, ops, n - 1, k);
      OneStepOfEntries(run[n - 1], ops[n - 1]);
      assert ops[..n][..n - 1] == ops[..n - 1];
      assert run[n] == Step(run[n - 1], ops[n - 1]);
    }
    if n < |ops| && ops[n].AddHandled? && ops[n].key == k {
      assert Enabled(run[n], ops[n]);
    }
  }

  function HandleOf(k: Key): nat {
    match k
    case OnPub(_, h) => h
    case OnRequest(_, h) => h
    case OnVideo(h) => h
    case OnAudio(h) => h
    case OnReply(_) => 0
  }

  /** What the remaining steps do to the tables. */
  lemma OtherStepsExactly(g: Group, op: Op)
    requires Enabled(g, op)
    ensures op.Ready? ==> Step(g, op) == g.(everReady := g.everReady + {op.remote}, log := g.log + [BecameReady(op.remote)])
    ensures op.Stop? ==> Step(g, op) == g.(stopped := true)
    ensures op.Clear? ==> Step(g, op) == g.(peers := map[], origins := map[], restartIds := map[])
    ensures op.Request? ==> Step(g, op) == g.(origins := g.origins[op.rid := op.remote])
    ensures op.SendData? ==> Step(g, op) == g.(origins := Step(g, op).origins)
    ensures !op.Stop? ==> Step(g, op).stopped == g.stopped
  {
    if op.Signal? {
      var sender := SenderOf(g.self, g.role, op.message);
      if sender.Some? && !g.stopped {
        assert NoteRestart(g, sender.value, op.message).stopped == g.stopped;
      }
    }
  }

  // ----- link churn -----

  function Count(log: seq<Event>, e: Event): nat {
    if log == [] then 0
    else Count(log[..|log| - 1], e) + (if log[|log| - 1] == e then 1 else 0)
  }

  lemma CountSnoc(log: seq<Event>, last: Event, e: Event)
    ensures Count(log + [last], e) == Count(log, e) + (if last == e then 1 else 0)
  {
    assert (log + [last])[..|log|] == log;
  }


  /** What is left to pay for a new link to a remote: its ready notifications and its restarts,
      less the links made already. */
  function Credit(log: seq<Event>, remote: string): int {
    Count(log, BecameReady(remote)) + Count(log, Restarted(remote)) - Count(log, Created(remote))
  }

  /** A link still held counts as unspent, a ready mark as spent. */
  function Slack(g: Group, remote: string): int {
    Credit(g.log, remote) + One(remote in g.peers) - One(remote in g.everReady)
  }

  ghost predicate ChurnBounded(g: Group, remote: string) {
    && (g.stopped || Slack(g, remote) >= 0)
    && Credit(g.log, remote) >= -1
  }

  lemma CreditSnoc(log: seq<Event>, e: Event, remote: string)
    ensures Credit(log + [e], remote)
            == Credit(log, remote) + One(e == BecameReady(remote)) + One(e == Restarted(remote))
               - One(e == Created(remote))
  {
    CountSnoc(log, e, Created(remote));
    CountSnoc(log, e, BecameReady(remote));
    CountSnoc(log, e, Restarted(remote));
  }

  lemma RestartSlack(g: Group, r: string, message: Value, remote: string)
    ensures var g1 := NoteRestart(g, r, message);
            Slack(g1, remote) == Slack(g, remote) + One(NewRestart(g, r, message) && r == remote)
  {
    CreditSnoc(g.log, Restarted(r), remote);
  }

  lemma DropSlack(g: Group, r: string, remote: string)
    requires r in g.peers
    ensures Slack(DropPeer(g, r), remote)
            == Slack(g, remote) - One(r == remote) + One(r == remote && r in g.everReady)
  {
  }

  lemma AddSlack(g: Group, r: string, remote: string)
    requires r !in g.peers
    ensures Slack(AddPeer(g, r), remote) == Slack(g, remote)
  {
    CreditSnoc(g.log, Created(r), remote);
  }

  lemma SignalSlack(g: Group, message: Value, remote: string)
    requires Slack(g, remote) >= 0
    ensures Slack(OnSignal(g, message), remote) >= 0
  {
    var sender := SenderOf(g.self, g.role, message);
    if sender.Some? && !g.stopped {
      var r := sender.value;
      RestartSlack(g, r, message, remote);
      var g1 := NoteRestart(g, r, message);
      var g2 := if Replaces(g, r, message) then DropPeer(g1, r) else g1;
      if Replaces(g, r, message) { DropSlack(g1, r, remote); }
      if r !in g2.peers { AddSlack(g2, r, remote); }
    }
  }

  /** Steps other than a signal or a ready notification make no link and note nothing; but for
      sweeping and the final clearing they drop none either. */
  lemma QuietSlack(g: Group, op: Op, remote: string)
    requires Enabled(g, op) && !op.Signal? && !op.Ready?
    ensures Step(g, op).log == g.log
    ensures g.stopped ==> Step(g, op).stopped
    ensures !op.Clear? ==> Slack(Step(g, op), remote) >= Slack(g, remote)
  {
    var g' := Step(g, op);
    assert g'.log == g.log;
    if op.SweepStale? {
      assert remote in g.peers && remote !in g'.peers ==> remote in g.everReady && remote !in g'.everReady;
    } else if !op.Clear? {
      assert g'.peers.Keys == g.peers.Keys && g'.everReady == g.everReady;
    }
  }

  lemma StepKeepsChurn(g: Group, op: Op, remote: string)
    requires Enabled(g, op) && ChurnBounded(g, remote)
    ensures ChurnBounded(Step(g, op), remote)
  {
    if op.Signal? {
      if !g.stopped { SignalSlack(g, op.message, remote); }
    } else if op.Ready? {
      CreditSnoc(g.log, BecameReady(op.remote), remote);
    } else {
      QuietSlack(g, op, remote);
    }
  }

  lemma {:induction false} CreditInEveryRun(run: seq<Group>, ops: seq<Op>, remote: string)
    requires IsRun(run, ops)
    ensures ChurnBounded(run[|ops|], remote)
  {
    if ops != [] {
      var n := |ops| - 1;
      CreditInEveryRun(run[..n + 1], ops[..n], remote);
      StepKeepsChurn(run[n], ops[n], remote);
    }
  }

  /** In every run the links made for a peer are at most one more than its ready notifications
      and the changes of restart id seen in its hellos. */
  lemma ChurnBoundedInEveryRun(run: seq<Group>, ops: seq<Op>, remote: string)
    requires IsRun(run, ops)
    ensures var log := run[|ops|].log;
            Count(log, Created(remote)) <= 1 + Count(log, BecameReady(remote)) + Count(log, Restarted(remote))
  {
    CreditInEveryRun(run, ops, remote);
  }

  /** A link's id is below the number of links made. */
  ghost predicate IdsBelow(g: Group) {
    forall r :: r in g.peers ==> g.peers[r].id < g.created
  }

  lemma {:induction false} IdsBelowInEveryRun(run: seq<Group>, ops: seq<Op>)
    requires IsRun(run, ops)
    ensures IdsBelow(run[|ops|])
  {
    if ops != [] {
      var n := |ops| - 1;
      IdsBelowInEveryRun(run[..n + 1], ops[..n]);
      StepKeepsIds(run[n], ops[n]);
    }
  }

  lemma StepKeepsIds(g: Group, op: Op)
    requires Enabled(g, op) && IdsBelow(g)
    ensures IdsBelow(Step(g, op))
  {
    match op
    case Signal(message) =>
      var sender := SenderOf(g.self, g.role, message);
      if sender.Some? && !g.stopped {
        var g1 := NoteRestart(g, sender.value, message);
        assert IdsBelow(g1);
        assert IdsBelow(DropPeer(g1, sender.value));
      }
    case _ =>
  }

  /** The step behind that bound: in every run a signal makes a new link for a known remote exactly
      when it is a hello of that remote that announces a restart or finds a link that was ready and
      got lost; a repeated or plain hello leaves healthy and still-negotiating links alone. */
  lemma LinkReplacedExactlyWithReason(run: seq<Group>, ops: seq<Op>, message: Value, remote: string)
    requires IsRun(run, ops) && remote in run[|ops|].peers
    ensures var g := run[|ops|];
            var g' := OnSignal(g, message);
            remote in g'.peers &&
            (g'.peers[remote].id != g.peers[remote].id <==>
              && !g.stopped
              && IsHello(message)
              && SenderOf(g.self, g.role, message) == Some(remote)
              && (NewRestart(g, remote, message) || (remote in g.everReady && !g.peers[remote].connected)))
  {
    IdsBelowInEveryRun(run, ops);
    var g := run[|ops|];
    var sender := SenderOf(g.self, g.role, message);
    if sender.Some? && !g.stopped {
      var g1 := NoteRestart(g, sender.value, message);
      assert g1.peers == g.peers && g1.created == g.created;
    }
  }

  // ----- reply routing -----

  /** The peer whose link most recently recorded a request with this rid. */
  function LatestOrigin(ops: seq<Op>, rid: string): Option<string> {
    if ops == [] then None
    else if ops[|ops| - 1].Request? && ops[|ops| - 1].rid == rid then Some(ops[|ops| - 1].remote)
    else LatestOrigin(ops[..|ops| - 1], rid)
  }

  /** How often a request with this rid was recorded. */
  function Requests(ops: seq<Op>, rid: string): nat {
    if ops == [] then 0
    else Requests(ops[..|ops| - 1], rid) + One(ops[|ops| - 1].Request? && ops[|ops| - 1].rid == rid)
  }

  /** How often an rpc_rep with this rid went out to somebody. */
  function RepliesRouted(run: seq<Group>, ops: seq<Op>, rid: string): nat
    requires |run| == |ops| + 1
  {
    if ops == [] then 0
    else
      var n := |ops| - 1;
      RepliesRouted(run[..n + 1], ops[..n], rid) + One(RoutesReply(run[n], ops[n], rid))
  }

  predicate RoutesReply(g: Group, op: Op, rid: string) {
    op.SendData? && KindOf(op.message) == "rpc_rep" && RidOf(op.message) == rid && Targets(g, op.message) != {}
  }

  lemma {:induction false} OriginsInEveryRun(run: seq<Group>, ops: seq<Op>, rid: string)
    requires IsRun(run, ops)
    ensures rid in run[|ops|].origins ==> LatestOrigin(ops, rid) == Some(run[|ops|].origins[rid])
    ensures RepliesRouted(run, ops, rid) + One(rid in run[|ops|].origins) <= Requests(ops, rid)
  {
    if ops != [] {
      var n := |ops| - 1;
      OriginsInEveryRun(run[..n + 1], ops[..n], rid);
      StepOrigins(run[n], ops[n], rid);
    }
  }

  /** Only recording a request adds an origin; a routed reply uses one up. */
  lemma StepOrigins(g: Group, op: Op, rid: string)
    requires Enabled(g, op)
    ensures var g' := Step(g, op);
            if op.Request? && op.rid == rid then rid in g'.origins && g'.origins[rid] == op.remote
            else rid in g'.origins ==> rid in g.origins && g'.origins[rid] == g.origins[rid]
    ensures RoutesReply(g, op, rid) ==> rid in g.origins && rid !in Step(g, op).origins
  {
    match op
    case Signal(message) =>
      var sender := SenderOf(g.self, g.role, message);
      if sender.Some? && !g.stopped {
        assert NoteRestart(g, sender.value, message).origins == g.origins;
      }
    case _ =>
  }

  /** In every run an rpc_ack or rpc_rep goes to at most one peer: the one whose link most
      recently recorded a request with its rid.  Any other message goes to exactly the
      connected peers. */
  lemma AnswersGoToTheLatestOrigin(run: seq<Group>, ops: seq<Op>, message: Value)
    requires IsRun(run, ops)
    ensures var targets := Targets(run[|ops|], message);
            if IsAnswer(message)
            then forall t :: t in targets ==>
                   targets == {t} && t in run[|ops|].peers && LatestOrigin(ops, RidOf(message)) == Some(t)
            else forall r :: r in targets <==> r in run[|ops|].peers && run[|ops|].peers[r].connected
  {
    OriginsInEveryRun(run, ops, RidOf(message));
  }

  predicate HasOrigin(g: Group, rid: string, remote: string) {
    rid in g.origins && g.origins[rid] == remote
  }

  /** Steps that drop what a remote asked: its link is replaced by a hello, or the group stops.  A
      sweep of lost links is none of them. */
  predicate Forgets(g: Group, op: Op, remote: string) {
    op.Clear?
    || (op.Signal? && !g.stopped && SenderOf(g.self, g.role, op.message) == Some(remote)
        && Replaces(g, remote, op.message))
  }

  predicate SendsReply(op: Op, rid: string) {
    op.SendData? && KindOf(op.message) == "rpc_rep" && RidOf(op.message) == rid
  }

  lemma SignalKeepsOrigin(g: Group, message: Value, rid: string, remote: string)
    ensures HasOrigin(OnSignal(g, message), rid, remote)
            <==> HasOrigin(g, rid, remote) && !Forgets(g, Signal(message), remote)
  {
    var sender := SenderOf(g.self, g.role, message);
    if sender.Some? && !g.stopped {
      assert NoteRestart(g, sender.value, message).origins == g.origins;
      assert NoteRestart(g, sender.value, message).peers == g.peers;
    }
  }

  lemma OriginKeptExactly(g: Group, op: Op, rid: string, remote: string)
    requires Enabled(g, op) && !(op.Request? && op.rid == rid)
    ensures HasOrigin(Step(g, op), rid, remote)
            <==> HasOrigin(g, rid, remote) && !Forgets(g, op, remote) && !SendsReply(op, rid)
  {
    if op.Signal? {
      SignalKeepsOrigin(g, op.message, rid, remote);
    }
  }

  lemma {:induction false} OriginSince(run: seq<Group>, ops: seq<Op>, k: nat, n: nat, rid: string, remote: string)
    requires IsRun(run, ops) && k < n <= |ops| && ops[k] == Request(rid, remote)
    requires forall j | k < j < n :: !(ops[j].Request? && ops[j].rid == rid)
    ensures HasOrigin(run[n], rid, remote)
            <==> forall j | k < j < n :: !Forgets(run[j], ops[j], remote) && !SendsReply(ops[j], rid)
    ensures rid in run[n].origins ==> run[n].origins[rid] == remote
  {
    assert run[n] == Step(run[n - 1], ops[n - 1]);
    if k < n - 1 {
      OriginSince(run, ops, k, n - 1, rid, remote);
      OriginKeptExactly(run[n - 1], ops[n - 1], rid, remote);
      StepOrigins(run[n - 1], ops[n - 1], rid);
    }
  }

  /** For whom an answer is meant, exactly: the peer that asked when it has a link, its link was not
      replaced by a hello since it asked, the group was not cleared and no reply to it has gone out
      yet; else nobody. */
  lemma AnswerIsMeantForRequesterExactly(run: seq<Group>, ops: seq<Op>, k: nat, n: nat, remote: string, answer: Value)
    requires IsRun(run, ops) && k < n <= |ops| && IsAnswer(answer) && ops[k] == Request(RidOf(answer), remote)
    requires forall j | k < j < n :: !(ops[j].Request? && ops[j].rid == RidOf(answer))
    ensures Targets(run[n], answer)
            == if remote in run[n].peers
                  && forall j | k < j < n :: !Forgets(run[j], ops[j], remote) && !SendsReply(ops[j], RidOf(answer))
               then {remote} else {}
  {
    OriginSince(run, ops, k, n, RidOf(answer), remote);
  }

  /** Whom an answer reaches, exactly: the peer it is meant for, when its link is connected.  A link
      that was swept and made anew will do, once its own channel has opened. */
  lemma AnswerReachesRequesterExactly(run: seq<Group>, ops: seq<Op>, k: nat, n: nat, remote: string, answer: Value)
    requires IsRun(run, ops) && k < n <= |ops| && IsAnswer(answer) && ops[k] == Request(RidOf(answer), remote)
    requires forall j | k < j < n :: !(ops[j].Request? && ops[j].rid == RidOf(answer))
    ensures Delivered(run[n], answer)
            == if remote in run[n].peers && run[n].peers[remote].connected
                  && forall j | k < j < n :: !Forgets(run[j], ops[j], remote) && !SendsReply(ops[j], RidOf(answer))
               then {remote} else {}
  {
    AnswerIsMeantForRequesterExactly(run, ops, k, n, remote, answer);
  }

  /** In every run no more replies are routed for a rid than requests were recorded for it. */
  lemma RepliesNeverExceedRequests(run: seq<Group>, ops: seq<Op>, rid: string)
    requires IsRun(run, ops)
    ensures RepliesRouted(run, ops, rid) <= Requests(ops, rid)
  {
    OriginsInEveryRun(run, ops, rid);
  }

  /** The acknowledgement and the reply to a request recorded by a live link reach that link if it is
      connected, the reply even after the acknowledgement.  The reply uses up the origin either way:
      no further answer reaches anybody, also when the link dropped it. */
  lemma RequestIsAnsweredOnce(g: Group, rid: string, remote: string, ack: Value, reply: Value, late: Value)
    requires remote in g.peers && IsAnswer(late) && RidOf(late) == rid
    requires KindOf(ack) == "rpc_ack" && RidOf(ack) == rid
    requires KindOf(reply) == "rpc_rep" && RidOf(reply) == rid
    ensures var g1 := Record(g, rid, remote);
            var g2 := Send(g1, ack);
            var g3 := Send(g2, reply);
            && Targets(g1, ack) == {remote} == Targets(g2, reply)
            && Delivered(g1, ack) == Delivered(g2, reply) == (if g.peers[remote].connected then {remote} else {})
            && rid !in g3.origins && Targets(g3, late) == {} == Delivered(g3, late)
  {
    assert "rpc_ack"[4] != "rpc_rep"[4];
  }

  // ----- answers that are lost -----

  function HelloOf(remote: string, restartId: string): Value {
    Dict(map["type" := Str("hello"), "peer_id" := Str(remote), "restart_id" := Str(restartId)])
  }

  lemma HelloIsHeard(self: string, role: string, remote: string, restartId: string)
    requires remote != "" && remote != self
    ensures SenderOf(self, role, HelloOf(remote, restartId)) == Some(remote)
    ensures RestartOf(HelloOf(remote, restartId)) == Some(restartId)
  {
    assert "to_peer_id" !in HelloOf(remote, restartId).fields && "role" !in HelloOf(remote, restartId).fields by {
      assert "to_peer_id"[0] == 't' && "role"[0] == 'r' && |"role"| == 4 && |"type"| == 4 && "type"[0] == 't';
      assert |"to_peer_id"| == 10 && |"restart_id"| == 10 && "restart_id"[0] == 'r' && |"peer_id"| == 7;
    }
  }

  lemma Extend(run: seq<Group>, ops: seq<Op>, op: Op) returns (run': seq<Group>, ops': seq<Op>)
    requires IsRun(run, ops) && Enabled(run[|ops|], op)
    ensures IsRun(run', ops') && ops' == ops + [op] && run' == run + [Step(run[|ops|], op)]
  {
    run', ops' := run + [Step(run[|ops|], op)], ops + [op];
  }

  /** A peer says hello, its channel opens and it sends a request. */
  lemma ARequestIsRecorded(self: string, role: string, remote: string, restartId: string, rid: string)
    returns (run: seq<Group>, ops: seq<Op>)
    requires remote != "" && remote != self && restartId != ""
    ensures IsRun(run, ops)
    ensures ops == [Signal(HelloOf(remote, restartId)), Connectivity(remote, true), Request(rid, remote)]
    ensures var g := run[|ops|];
            && g.self == self && g.role == role && !g.stopped && g.everReady == {}
            && g.peers == map[remote := Peer(0, map[], true)] && g.origins == map[rid := remote]
            && g.restartIds == map[remote := restartId] && g.entries == map[] && g.created == 1
  {
    HelloIsHeard(self, role, remote, restartId);
    run, ops := [Initial(self, role)], [];
    run, ops := Extend(run, ops, Signal(HelloOf(remote, restartId)));
    assert run[|ops|].peers == map[remote := Peer(0, map[], false)];
    run, ops := Extend(run, ops, Connectivity(remote, true));
    run, ops := Extend(run, ops, Request(rid, remote));
  }

  /** A reply lost to a hello: the peer restarts, its new link opens, and the reply is meant for nobody. */
  lemma AReplyLostToAHello(self: string, role: string, remote: string, rid: string, reply: Value)
    returns (run: seq<Group>, ops: seq<Op>)
    requires remote != "" && remote != self && KindOf(reply) == "rpc_rep" && RidOf(reply) == rid
    ensures IsRun(run, ops)
    ensures ops == [Signal(HelloOf(remote, "1")), Connectivity(remote, true), Request(rid, remote),
                    Signal(HelloOf(remote, "2")), Connectivity(remote, true)]
    ensures remote in run[|ops|].peers && run[|ops|].peers[remote].connected
    ensures Targets(run[|ops|], reply) == {} == Delivered(run[|ops|], reply)
  {
    assert "1"[0] != "2"[0];
    run, ops := ARequestIsRecorded(self, role, remote, "1", rid);
    HelloIsHeard(self, role, remote, "2");
    run, ops := Extend(run, ops, Signal(HelloOf(remote, "2")));
    run, ops := Extend(run, ops, Connectivity(remote, true));
  }

  /** A reply lost to a broken connection: it is dropped by the link it is meant for, and although the
      same link comes back no later answer reaches the peer. */
  lemma AReplyLostUnconnected(self: string, role: string, remote: string, rid: string, reply: Value)
    returns (run: seq<Group>, ops: seq<Op>)
    requires remote != "" && remote != self && KindOf(reply) == "rpc_rep" && RidOf(reply) == rid
    ensures IsRun(run, ops)
    ensures ops == [Signal(HelloOf(remote, "1")), Connectivity(remote, true), Request(rid, remote),
                    Connectivity(remote, false), SendData(reply), Connectivity(remote, true)]
    ensures Targets(run[4], reply) == {remote} && Delivered(run[4], reply) == {}
    ensures remote in run[|ops|].peers && run[|ops|].peers[remote].connected && rid !in run[|ops|].origins
    ensures Targets(run[|ops|], reply) == {}
  {
    run, ops := ARequestIsRecorded(self, role, remote, "1", rid);
    run, ops := Extend(run, ops, Connectivity(remote, false));
    assert Targets(run[4], reply) == {remote} && Delivered(run[4], reply) == {};
    run, ops := Extend(run, ops, SendData(reply));
    run, ops := Extend(run, ops, Connectivity(remote, true));
  }
}
