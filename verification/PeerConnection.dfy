/** The peer group and its links as the objects they are: callback tables, flags and maps
    updated in place, each method one section that runs under the object's mutex. */
module PeerConnection {
  import opened Values
  import L = PeerLink
  import G = PeerGroup

  type Nested = map<string, map<nat, G.Function>>

  // ----- callback tables -----

  /** m[name][handle] = f, making the inner table when it is missing. */
  function Put(m: Nested, name: string, handle: nat, f: G.Function): Nested {
    m[name := (if name in m then m[name] else map[])[handle := f]]
  }

  /** m.find(name)->erase(handle); an emptied inner table stays. */
  function Erase(m: Nested, name: string, handle: nat): Nested {
    if name in m then m[name := m[name] - {handle}] else m
  }

  /** The five tables a group and each of its links hold. */
  datatype Tables = Tables(
    pub: Nested,
    requests: Nested,
    replies: map<string, G.Function>,
    video: map<nat, G.Function>,
    audio: map<nat, G.Function>)
  {
    predicate Has(k: G.Key) {
      match k
      case OnPub(topic, h) => topic in pub && h in pub[topic]
      case OnRequest(service, h) => service in requests && h in requests[service]
      case OnReply(rid) => rid in replies
      case OnVideo(h) => h in video
      case OnAudio(h) => h in audio
    }

    function At(k: G.Key): G.Function
      requires Has(k)
    {
      match k
      case OnPub(topic, h) => pub[topic][h]
      case OnRequest(service, h) => requests[service][h]
      case OnReply(rid) => replies[rid]
      case OnVideo(h) => video[h]
      case OnAudio(h) => audio[h]
    }

    function Keys(): set<G.Key> {
      (set topic, h | topic in pub && h in pub[topic] :: G.OnPub(topic, h))
      + (set service, h | service in requests && h in requests[service] :: G.OnRequest(service, h))
      + (set rid | rid in replies :: G.OnReply(rid))
      + (set h | h in video :: G.OnVideo(h))
      + (set h | h in audio :: G.OnAudio(h))
    }

    function Entries(): map<G.Key, G.Function> {
      map k | k in Keys() :: At(k)
    }

    /** One entry set, whichever table it belongs to. */
    function With(k: G.Key, f: G.Function): Tables {
      match k
      case OnPub(topic, h) => this.(pub := Put(pub, topic, h, f))
      case OnRequest(service, h) => this.(requests := Put(requests, service, h, f))
      case OnReply(rid) => this.(replies := replies[rid := f])
      case OnVideo(h) => this.(video := video[h := f])
      case OnAudio(h) => this.(audio := audio[h := f])
    }

    /** One entry removed. */
    function Without(k: G.Key): Tables {
      match k
      case OnPub(topic, h) => this.(pub := Erase(pub, topic, h))
      case OnRequest(service, h) => this.(requests := Erase(requests, service, h))
      case OnReply(rid) => this.(replies := replies - {rid})
      case OnVideo(h) => this.(video := video - {h})
      case OnAudio(h) => this.(audio := audio - {h})
    }
  }

  /** The entries are exactly what the five tables hold. */
  lemma EntriesAreTheTables(t: Tables)
    ensures forall k :: k in t.Entries() <==> t.Has(k)
    ensures forall k :: k in t.Entries() ==> t.Entries()[k] == t.At(k)
  {
    forall k ensures k in t.Keys() <==> t.Has(k) {
    }
  }

  lemma WithPointwise(t: Tables, k: G.Key, f: G.Function, k': G.Key)
    ensures t.With(k, f).Has(k') <==> k' == k || t.Has(k')
    ensures t.With(k, f).Has(k') ==> t.With(k, f).At(k') == if k' == k then f else t.At(k')
  {
  }

  lemma WithoutPointwise(t: Tables, k: G.Key, k': G.Key)
    ensures t.Without(k).Has(k') <==> k' != k && t.Has(k')
    ensures t.Without(k).Has(k') ==> t.Without(k).At(k') == t.At(k')
  {
  }

  /** The nested update of the source is the update of one entry. */
  lemma WithEntries(t: Tables, k: G.Key, f: G.Function)
    ensures t.With(k, f).Entries() == t.Entries()[k := f]
  {
    EntriesAreTheTables(t);
    EntriesAreTheTables(t.With(k, f));
    forall k' {
      WithPointwise(t, k, f, k');
    }
  }

  /** Erasing from the inner table removes that entry and no other. */
  lemma WithoutEntries(t: Tables, k: G.Key)
    ensures t.Without(k).Entries() == Omit(t.Entries(), k)
  {
    EntriesAreTheTables(t);
    EntriesAreTheTables(t.Without(k));
    forall k' {
      WithoutPointwise(t, k, k');
    }
  }

  // ----- dispatch of a data channel message -----

  /** The callbacks a data channel message is for. */
  predicate IsFor(k: G.Key, message: Value) {
    message.Dict? &&
    match StringField(message.fields, "type")
    case None => false
    case Some(kind) =>
      if kind == "pub" then
        "payload" in message.fields && k.OnPub? && StringField(message.fields, "topic") == Some(k.topic)
      else if kind == "rpc_req" then
        k.OnRequest? && StringField(message.fields, "service") == Some(k.service)
      else if kind == "media" then
        "payload" in message.fields && message.fields["payload"].Dict? &&
        StringField(message.fields, "topic").Some? && IsForMedia(k, message.fields["topic"].text)
      else if kind == "rpc_ack" || kind == "rpc_rep" then
        k.OnReply? && StringField(message.fields, "rid") == Some(k.rid)
      else false
  }

  predicate IsForMedia(k: G.Key, topic: string) {
    if topic == "video" then k.OnVideo?
    else if topic == "audio" then k.OnAudio?
    else k.OnPub? && k.topic == topic
  }

  /** Which messages a callback is called for, by the kind of callback: the keys of the message that
      matter and what they must hold. */
  lemma CalledForExactly(k: G.Key, message: Value)
    ensures !message.Dict? ==> !IsFor(k, message)
    ensures message.Dict? ==>
              var d := message.fields;
              var media := Has(d, "type", "media") && "payload" in d && d["payload"].Dict?;
              IsFor(k, message)
              <==> match k
                   case OnPub(topic, _) =>
                     (Has(d, "type", "pub") && "payload" in d && Has(d, "topic", topic))
                     || (media && Has(d, "topic", topic) && topic != "video" && topic != "audio")
                   case OnRequest(service, _) => Has(d, "type", "rpc_req") && Has(d, "service", service)
                   case OnReply(rid) => (Has(d, "type", "rpc_ack") || Has(d, "type", "rpc_rep")) && Has(d, "rid", rid)
                   case OnVideo(_) => media && Has(d, "topic", "video")
                   case OnAudio(_) => media && Has(d, "topic", "audio")
  {
    TypesDiffer();
  }

  predicate Has(fields: map<string, Value>, key: string, text: string) {
    key in fields && fields[key] == Str(text)
  }

  lemma TypesDiffer()
    ensures "pub" != "media" && "pub" != "rpc_req" && "pub" != "rpc_ack" && "pub" != "rpc_rep"
    ensures "media" != "rpc_req" && "media" != "rpc_ack" && "media" != "rpc_rep"
    ensures "rpc_req" != "rpc_ack" && "rpc_req" != "rpc_rep" && "video" != "audio"
  {
    assert "pub"[0] == 'p' && "media"[0] == 'm' && "rpc_req"[0] == 'r' && "rpc_ack"[0] == 'r' && "rpc_rep"[0] == 'r';
    assert "rpc_req"[4] == 'r' && "rpc_ack"[4] == 'a' && "rpc_req"[6] == 'q' && "rpc_rep"[6] == 'p';
    assert "video"[0] == 'v' && "audio"[0] == 'a';
  }

  ghost predicate Distinct<T>(s: seq<T>) {
    forall i, j :: 0 <= i < j < |s| ==> s[i] != s[j]
  }

  /** The calls a link with these tables makes for a message: each callback it is for, once. */
  ghost predicate CallsFor(t: Tables, message: Value, calls: seq<G.Key>) {
    Distinct(calls) && forall k :: k in calls <==> t.Has(k) && IsFor(k, message)
  }

  /** Copies a table into a list, in any order. */
  method Collect(table: map<nat, G.Function>) returns (handles: seq<nat>)
    ensures Distinct(handles)
    ensures forall h :: h in handles <==> h in table
  {
    handles := [];
    var todo := table.Keys;
    while todo != {}
      invariant todo <= table.Keys
      invariant Distinct(handles)
      invariant forall h :: h in handles <==> h in table && h !in todo
      decreases todo
    {
      var h :| h in todo;
      handles := handles + [h];
      todo := todo - {h};
    }
  }

  predicate Filed(m: Nested, name: string, handle: nat) {
    name in m && handle in m[name]
  }

  /** Every callback filed in `wrapped` is the one filed in `requests`, wrapped. */
  ghost predicate WrapsOf(wrapped: Nested, requests: Nested, remote: string) {
    forall s, h | Filed(wrapped, s, h) ::
      Filed(requests, s, h) && wrapped[s][h] == G.Recording(remote, requests[s][h])
  }

  /** The request table of a new link: the same services and handles, each callback wrapped. */
  method WrapRequests(requests: Nested, remote: string) returns (wrapped: Nested)
    ensures WrapsOf(wrapped, requests, remote)
    ensures forall s, h :: Filed(requests, s, h) ==> Filed(wrapped, s, h)
  {
    wrapped := map[];
    var services := requests.Keys;
    while services != {}
      invariant services <= requests.Keys
      invariant WrapsOf(wrapped, requests, remote)
      invariant forall s, h :: Filed(requests, s, h) && s !in services ==> Filed(wrapped, s, h)
      decreases services
    {
      var service :| service in services;
      services := services - {service};
      var handles := requests[service].Keys;
      while handles != {}
        invariant handles <= requests[service].Keys
        invariant WrapsOf(wrapped, requests, remote)
        invariant forall s, h :: Filed(requests, s, h) && s !in services && (s != service || h !in handles)
                    ==> Filed(wrapped, s, h)
        decreases handles
      {
        var handle :| handle in handles;
        wrapped := Put(wrapped, service, handle, G.Recording(remote, requests[service][handle]));
        handles := handles - {handle};
      }
    }
  }

  lemma MirroredTables(t: Tables, c: Tables, remote: string)
    requires c.pub == t.pub && c.replies == t.replies && c.video == t.video && c.audio == t.audio
    requires WrapsOf(c.requests, t.requests, remote)
    requires forall s, h :: Filed(t.requests, s, h) ==> Filed(c.requests, s, h)
    ensures c.Entries() == G.Mirrored(t.Entries(), remote)
  {
    EntriesAreTheTables(t);
    EntriesAreTheTables(c);
    forall k
      ensures c.Has(k) <==> t.Has(k)
      ensures c.Has(k) ==> c.At(k) == G.Wrap(k, remote, t.At(k))
    {
      if k.OnRequest? {
        assert c.Has(k) <==> Filed(c.requests, k.service, k.requestHandle);
        assert t.Has(k) <==> Filed(t.requests, k.service, k.requestHandle);
      }
    }
  }

  // ----- one link -----

  class Link {
    ghost const id: nat
    const peerId: string
    const targetRemote: string
    const role: string

    var remotePeerId: string
    var roleDecided: bool
    var remoteDescSet: bool
    var connected: bool
    var disconnecting: bool
    var hasConnection: bool
    var pending: seq<L.Candidate>
    var tables: Tables

    /** What the library was given: the candidates handed over and the offers asked for. */
    ghost var handed: seq<(string, string)>
    ghost var offers: nat

    constructor (ghost id: nat, peerId: string, targetRemote: string, role: string)
      ensures this.id == id && this.targetRemote == targetRemote
      ensures State() == L.Fresh(peerId, targetRemote, role)
      ensures tables == Tables(map[], map[], map[], map[], map[])
    {
      this.id := id;
      this.peerId := peerId;
      this.targetRemote := targetRemote;
      this.role := role;
      remotePeerId, roleDecided, remoteDescSet := "", false, false;
      connected, disconnecting, hasConnection := false, false, false;
      pending, handed, offers := [], [], 0;
      tables := Tables(map[], map[], map[], map[], map[]);
    }

    ghost function State(): L.LinkState
      reads this
    {
      L.LinkState(peerId, targetRemote, role, remotePeerId, roleDecided, remoteDescSet, connected,
                  disconnecting, hasConnection, pending, handed, offers)
    }

    /** What the group knows of this link. */
    ghost function Peer(): G.Peer
      reads this`tables, this`connected
    {
      G.Peer(id, tables.Entries(), connected)
    }

    method StoreEntry(k: G.Key, f: G.Function)
      modifies this`tables
      ensures Peer() == old(Peer()).(entries := old(Peer()).entries[k := f])
    {
      WithEntries(tables, k, f);
      tables := tables.With(k, f);
    }

    method EraseEntry(k: G.Key)
      modifies this`tables
      ensures Peer() == old(Peer()).(entries := Omit(old(Peer()).entries, k))
    {
      WithoutEntries(tables, k);
      tables := tables.Without(k);
    }

    method SetupPeerConnection()
      modifies this`hasConnection
      ensures hasConnection
    {
      hasConnection := true;
    }

    method CreateOffer()
      modifies this`offers
      ensures offers == old(offers) + 1
    {
      offers := offers + 1;
    }

    /** Hands the buffered candidates over one by one; an error on one does not stop the rest. */
    method ApplyPendingCandidates()
      modifies this`pending, this`handed
      ensures pending == []
      ensures handed == old(handed) + L.Pairs(old(pending))
    {
      var i := 0;
      while i < |pending|
        invariant 0 <= i <= |pending| && pending == old(pending)
        invariant handed == old(handed) + L.Pairs(pending)[..i]
      {
        AddRemoteCandidate(pending[i].text, pending[i].mid);
        i := i + 1;
      }
      pending := [];
    }

    method AddRemoteCandidate(text: string, mid: string)
      modifies this`handed
      ensures handed == old(handed) + [(text, mid)]
    {
      handed := handed + [(text, mid)];
    }

    /** Handles one signal and returns what it publishes in answer. */
    method OnSignalMessage(message: Value, accepted: bool) returns (sent: seq<Value>)
      modifies this
      ensures State() == L.OnSignal(old(State()), message, accepted)
      ensures tables == old(tables) && connected == old(connected)
      ensures sent == L.Answer(old(State()), State())
    {
      sent := [];
      if disconnecting || !message.Dict? || StringField(message.fields, "type").None? {
        return;
      }
      var d := message.fields;
      var kind := d["type"].text;
      if StringField(d, "peer_id") == Some(peerId) {
        return;
      }
      if kind == "hello" {
        sent := HandleHello(d);
      } else if kind == "offer" || kind == "answer" {
        HandleDescription(d, kind == "offer", accepted);
      } else if kind == "candidate" {
        HandleCandidate(d);
      }
    }

    method HandleHello(d: map<string, Value>) returns (sent: seq<Value>)
      modifies this
      ensures State() == if StringField(d, "peer_id").Some? then L.OnHello(old(State()), d["peer_id"].text) else old(State())
      ensures tables == old(tables) && connected == old(connected)
      ensures sent == L.Answer(old(State()), State())
    {
      sent := [];
      if StringField(d, "peer_id").None? {
        return;
      }
      var doOffer, doReply := false, false;
      if remotePeerId == "" {
        remotePeerId := d["peer_id"].text;
      }
      if !roleDecided {
        roleDecided := true;
        if Less(remotePeerId, peerId) {
          doOffer := true;
        } else {
          doReply := true;
        }
      }
      if doOffer {
        SetupPeerConnection();
        CreateOffer();
      } else if doReply {
        sent := [L.AddressedSignal(targetRemote, role, L.HelloBody(peerId))];
        SetupPeerConnection();
      }
    }

    method HandleDescription(d: map<string, Value>, offer: bool, accepted: bool)
      modifies this
      ensures State() == if StringField(d, "sdp").Some? then L.OnDescription(old(State()), offer, accepted) else old(State())
      ensures tables == old(tables) && connected == old(connected)
    {
      if connected || StringField(d, "sdp").None? {
        return;
      }
      if !hasConnection {
        if !offer {
          return;
        }
        SetupPeerConnection();
      }
      if accepted {
        remoteDescSet := true;
        ApplyPendingCandidates();
      }
    }

    method HandleCandidate(d: map<string, Value>)
      modifies this
      ensures State() == if L.CandidateOf(d).Some? then L.OnCandidate(old(State()), L.CandidateOf(d).value) else old(State())
      ensures tables == old(tables) && connected == old(connected)
    {
      if StringField(d, "candidate").None? {
        return;
      }
      var cand := d["candidate"].text;
      var mid := if StringField(d, "sdpMid").Some? then d["sdpMid"].text else "0";
      var idx := if "sdpMLineIndex" in d && d["sdpMLineIndex"].Int?
                 then L.ToInt32(d["sdpMLineIndex"].number as int) else 0;
      if cand == "" {
        return;
      }
      if remoteDescSet && hasConnection {
        AddRemoteCandidate(cand, mid);
      } else {
        pending := pending + [L.Candidate(cand, mid, idx)];
      }
    }

    /** sendData of one link: handed to the data channel, or dropped while there is no connection. */
    method SendData(message: Value) returns (handed: bool)
      ensures handed == connected
    {
      return connected;
    }

    /** The data channel opened or closed. */
    method SetConnected(up: bool)
      modifies this`connected
      ensures State() == L.Step(old(State()), if up then L.Opened else L.Lost)
    {
      connected := up;
    }

    method Disconnect()
      modifies this
      ensures tables == old(tables)
      ensures State() == if old(disconnecting) then old(State()) else L.Step(old(State()), L.Disconnected)
    {
      if disconnecting {
        return;
      }
      disconnecting := true;
      connected := false;
      hasConnection := false;
    }

    /** Collects the callbacks a data channel message is for: each registered one exactly once. */
    method OnDataChannelMessage(message: Value) returns (calls: seq<G.Key>)
      ensures CallsFor(tables, message, calls)
    {
      calls := [];
      if !message.Dict? || StringField(message.fields, "type").None? {
        return;
      }
      var d := message.fields;
      var kind := d["type"].text;
      if kind == "pub" {
        if "payload" in d && StringField(d, "topic").Some? {
          calls := PubCalls(d["topic"].text);
        }
      } else if kind == "rpc_req" {
        if StringField(d, "service").Some? && d["service"].text in tables.requests {
          var handles := Collect(tables.requests[d["service"].text]);
          calls := seq(|handles|, i requires 0 <= i < |handles| => G.OnRequest(d["service"].text, handles[i]));
          MapsBack(handles, calls, (h: nat) => G.OnRequest(d["service"].text, h));
        }
      } else if kind == "media" {
        if "payload" in d && d["payload"].Dict? && StringField(d, "topic").Some? {
          calls := MediaCalls(d["topic"].text);
        }
      } else if kind == "rpc_ack" || kind == "rpc_rep" {
        if StringField(d, "rid").Some? && d["rid"].text in tables.replies {
          calls := [G.OnReply(d["rid"].text)];
        }
      }
    }

    method PubCalls(topic: string) returns (calls: seq<G.Key>)
      ensures Distinct(calls)
      ensures forall k :: k in calls <==> tables.Has(k) && k.OnPub? && k.topic == topic
    {
      calls := [];
      if topic in tables.pub {
        var handles := Collect(tables.pub[topic]);
        calls := seq(|handles|, i requires 0 <= i < |handles| => G.OnPub(topic, handles[i]));
        MapsBack(handles, calls, (h: nat) => G.OnPub(topic, h));
      }
    }

    method MediaCalls(topic: string) returns (calls: seq<G.Key>)
      ensures Distinct(calls)
      ensures forall k :: k in calls <==> tables.Has(k) && IsForMedia(k, topic)
    {
      if topic == "video" {
        var handles := Collect(tables.video);
        calls := seq(|handles|, i requires 0 <= i < |handles| => G.OnVideo(handles[i]));
        MapsBack(handles, calls, (h: nat) => G.OnVideo(h));
      } else if topic == "audio" {
        var handles := Collect(tables.audio);
        calls := seq(|handles|, i requires 0 <= i < |handles| => G.OnAudio(handles[i]));
        MapsBack(handles, calls, (h: nat) => G.OnAudio(h));
      } else {
        calls := PubCalls(topic);
      }
    }
  }

  // ----- the group -----

  /** What registering or removing an entry makes of a peer. */
  function Registered(p: G.Peer, remote: string, k: G.Key, f: G.Function): G.Peer {
    p.(entries := p.entries[k := G.Wrap(k, remote, f)])
  }

  function Unregistered(p: G.Peer, k: G.Key): G.Peer {
    p.(entries := Omit(p.entries, k))
  }

  class Group {
    const self: string
    const role: string
    var stopped: bool
    var everConnected: bool
    var peers: map<string, Link>
    var tables: Tables
    var rpcOrigins: map<string, string>
    var everReadyPeers: map<string, bool>
    var restartIds: map<string, string>
    var nextHandle: nat

    /** How many links were made, and what happened to them. */
    ghost var created: nat
    ghost var log: seq<G.Event>

    constructor (self: string, role: string)
      ensures Valid() && Model() == G.Initial(self, role)
    {
      this.self, this.role := self, role;
      stopped, everConnected := false, false;
      peers, rpcOrigins, everReadyPeers, restartIds := map[], map[], map[], map[];
      tables := Tables(map[], map[], map[], map[], map[]);
      nextHandle, created, log := 1, 0, [];
    }

    ghost function Links(): set<Link>
      reads this`peers
    {
      set r | r in peers :: peers[r]
    }

    /** Each link is filed under its remote, so no link is filed twice. */
    ghost predicate Valid()
      reads this`peers, Links()
    {
      forall r :: r in peers ==> peers[r].targetRemote == r
    }

    ghost function PeerModels(): (m: map<string, G.Peer>)
      reads this`peers, Links()
      ensures m.Keys == peers.Keys
    {
      map r | r in peers :: peers[r].Peer()
    }

    ghost function Model(): G.Group
      reads this, Links()
    {
      G.Group(self, role, stopped, PeerModels(), tables.Entries(), rpcOrigins, everReadyPeers.Keys,
              restartIds, nextHandle, created, log)
    }

    // ----- adding and removing callbacks -----

    /** Sets an entry in the group's tables and in every link's, a request callback wrapped for
        the link's remote. */
    method Install(k: G.Key, f: G.Function)
      requires Valid()
      modifies this`tables, Links()`tables
      ensures Valid()
      ensures Model() == G.Register(old(Model()), k, f)
    {
      ghost var g := Model();
      StoreOwn(k, f);
      assert PeerModels() == g.peers;
      SpreadEntry(k, f);
      assert PeerModels() == G.RegisterAtPeers(g.peers, k, f);
      assert tables.Entries() == g.entries[k := f];
    }

    method StoreOwn(k: G.Key, f: G.Function)
      modifies this`tables
      ensures tables.Entries() == old(tables.Entries())[k := f]
    {
      WithEntries(tables, k, f);
      tables := tables.With(k, f);
    }

    method EraseOwn(k: G.Key)
      modifies this`tables
      ensures tables.Entries() == Omit(old(tables.Entries()), k)
    {
      WithoutEntries(tables, k);
      tables := tables.Without(k);
    }

    method StoreAt(remote: string, k: G.Key, f: G.Function)
      requires Valid() && remote in peers
      modifies Links()`tables
      ensures Valid() && peers[remote].Peer() == Registered(old(peers[remote].Peer()), remote, k, f)
      ensures forall r | r in peers && r != remote :: peers[r].Peer() == old(peers[r].Peer())
    {
      assert forall r | r in peers && r != remote :: peers[r] != peers[remote];
      peers[remote].StoreEntry(k, G.Wrap(k, remote, f));
    }

    method SpreadEntry(k: G.Key, f: G.Function)
      requires Valid()
      modifies Links()`tables
      ensures Valid()
      ensures forall r | r in peers :: peers[r].Peer() == Registered(old(peers[r].Peer()), r, k, f)
    {
      var todo := peers.Keys;
      while todo != {}
        invariant todo <= peers.Keys
        invariant forall r | r in todo :: peers[r].Peer() == old(peers[r].Peer())
        invariant forall r | r in peers && r !in todo :: peers[r].Peer() == Registered(old(peers[r].Peer()), r, k, f)
        decreases todo
      {
        var r :| r in todo;
        StoreAt(r, k, f);
        todo := todo - {r};
      }
    }

    /** Removes an entry from the group's tables and from every link's. */
    method Uninstall(k: G.Key)
      requires Valid()
      modifies this`tables, Links()`tables
      ensures Valid()
      ensures Model() == G.Unregister(old(Model()), k)
    {
      ghost var g := Model();
      EraseOwn(k);
      assert PeerModels() == g.peers;
      SpreadRemoval(k);
      assert PeerModels() == G.UnregisterAtPeers(g.peers, k);
      assert tables.Entries() == Omit(g.entries, k);
    }

    method EraseAt(remote: string, k: G.Key)
      requires Valid() && remote in peers
      modifies Links()`tables
      ensures Valid() && peers[remote].Peer() == Unregistered(old(peers[remote].Peer()), k)
      ensures forall r | r in peers && r != remote :: peers[r].Peer() == old(peers[r].Peer())
    {
      assert forall r | r in peers && r != remote :: peers[r] != peers[remote];
      peers[remote].EraseEntry(k);
    }

    method SpreadRemoval(k: G.Key)
      requires Valid()
      modifies Links()`tables
      ensures Valid()
      ensures forall r | r in peers :: peers[r].Peer() == Unregistered(old(peers[r].Peer()), k)
    {
      var todo := peers.Keys;
      while todo != {}
        invariant todo <= peers.Keys
        invariant forall r | r in todo :: peers[r].Peer() == old(peers[r].Peer())
        invariant forall r | r in peers && r !in todo :: peers[r].Peer() == Unregistered(old(peers[r].Peer()), k)
        decreases todo
      {
        var r :| r in todo;
        EraseAt(r, k);
        todo := todo - {r};
      }
    }

    method AddPubCallback(topic: string, callback: G.Function) returns (handle: nat)
      requires Valid()
      modifies this`nextHandle, this`tables, Links()`tables
      ensures Valid() && handle == old(nextHandle)
      ensures Model() == G.Step(old(Model()), G.AddHandled(G.OnPub(topic, handle), callback))
    {
      handle := nextHandle;
      Install(G.OnPub(topic, handle), callback);
      nextHandle := nextHandle + 1;
    }

    method RemovePubCallback(topic: string, handle: nat)
      requires Valid()
      modifies this`tables, Links()`tables
      ensures Valid() && Model() == G.Step(old(Model()), G.Remove(G.OnPub(topic, handle)))
    {
      Uninstall(G.OnPub(topic, handle));
    }

    method AddRpcRequestCallback(service: string, callback: G.Function) returns (handle: nat)
      requires Valid()
      modifies this`nextHandle, this`tables, Links()`tables
      ensures Valid() && handle == old(nextHandle)
      ensures Model() == G.Step(old(Model()), G.AddHandled(G.OnRequest(service, handle), callback))
    {
      handle := nextHandle;
      Install(G.OnRequest(service, handle), callback);
      nextHandle := nextHandle + 1;
    }

    method RemoveRpcRequestCallback(service: string, handle: nat)
      requires Valid()
      modifies this`tables, Links()`tables
      ensures Valid() && Model() == G.Step(old(Model()), G.Remove(G.OnRequest(service, handle)))
    {
      Uninstall(G.OnRequest(service, handle));
    }

    method AddVideoCallback(callback: G.Function) returns (handle: nat)
      requires Valid()
      modifies this`nextHandle, this`tables, Links()`tables
      ensures Valid() && handle == old(nextHandle)
      ensures Model() == G.Step(old(Model()), G.AddHandled(G.OnVideo(handle), callback))
    {
      handle := nextHandle;
      Install(G.OnVideo(handle), callback);
      nextHandle := nextHandle + 1;
    }

    method RemoveVideoCallback(handle: nat)
      requires Valid()
      modifies this`tables, Links()`tables
      ensures Valid() && Model() == G.Step(old(Model()), G.Remove(G.OnVideo(handle)))
    {
      Uninstall(G.OnVideo(handle));
    }

    method AddAudioCallback(callback: G.Function) returns (handle: nat)
      requires Valid()
      modifies this`nextHandle, this`tables, Links()`tables
      ensures Valid() && handle == old(nextHandle)
      ensures Model() == G.Step(old(Model()), G.AddHandled(G.OnAudio(handle), callback))
    {
      handle := nextHandle;
      Install(G.OnAudio(handle), callback);
      nextHandle := nextHandle + 1;
    }

    method RemoveAudioCallback(handle: nat)
      requires Valid()
      modifies this`tables, Links()`tables
      ensures Valid() && Model() == G.Step(old(Model()), G.Remove(G.OnAudio(handle)))
    {
      Uninstall(G.OnAudio(handle));
    }

    method AddRpcReplyCallback(rid: string, callback: G.Function)
      requires Valid()
      modifies this`tables, Links()`tables
      ensures Valid() && Model() == G.Step(old(Model()), G.AddReply(rid, callback))
    {
      Install(G.OnReply(rid), callback);
    }

    method RemoveRpcReplyCallback(rid: string)
      requires Valid()
      modifies this`tables, Links()`tables
      ensures Valid() && Model() == G.Step(old(Model()), G.Remove(G.OnReply(rid)))
    {
      Uninstall(G.OnReply(rid));
    }

    // ----- requests, replies and other messages -----

    /** What a wrapped request callback does before it calls the user's. */
    method RecordOrigin(message: Value, remote: string)
      requires Valid()
      modifies this`rpcOrigins
      ensures Valid()
      ensures Model() == if message.Dict? && StringField(message.fields, "rid").Some?
                         then G.Step(old(Model()), G.Request(message.fields["rid"].text, remote))
                         else old(Model())
    {
      if message.Dict? && StringField(message.fields, "rid").Some? {
        rpcOrigins := rpcOrigins[message.fields["rid"].text := remote];
      }
    }

    /** Chooses the links a message goes out on; sending itself happens after the mutex is free. */
    method SendTargets(message: Value) returns (targets: set<string>)
      requires Valid()
      modifies this`rpcOrigins
      ensures Valid()
      ensures targets == G.Targets(old(Model()), message)
      ensures Model() == G.Step(old(Model()), G.SendData(message))
    {
      ghost var g := Model();
      var kind, rid := KindAndRid(message);
      targets := {};
      if kind == "rpc_ack" || kind == "rpc_rep" {
        if rid in rpcOrigins {
          if rpcOrigins[rid] in peers {
            targets := {rpcOrigins[rid]};
          }
          if kind == "rpc_rep" {
            rpcOrigins := Omit(rpcOrigins, rid);
          }
        }
      } else {
        targets := ConnectedPeers();
      }
      assert PeerModels() == g.peers;
    }

    /** sendData when nothing interferes: the chosen links are handed the message one by one. */
    method SendData(message: Value) returns (reached: set<string>)
      requires Valid()
      modifies this`rpcOrigins
      ensures Valid() && reached == G.Delivered(old(Model()), message)
      ensures Model() == G.Step(old(Model()), G.SendData(message))
    {
      var targets := SendTargets(message);
      reached := HandToAll(targets, message);
    }

    method HandToAll(targets: set<string>, message: Value) returns (reached: set<string>)
      requires Valid() && targets <= peers.Keys
      ensures reached == set r | r in targets && peers[r].connected
    {
      reached := {};
      var todo := targets;
      while todo != {}
        invariant todo <= targets
        invariant reached == set r | r in targets && r !in todo && peers[r].connected
        decreases todo
      {
        var r :| r in todo;
        var handed := peers[r].SendData(message);
        if handed {
          reached := reached + {r};
        }
        todo := todo - {r};
      }
    }

    method KindAndRid(message: Value) returns (kind: string, rid: string)
      ensures kind == G.KindOf(message) && rid == G.RidOf(message)
    {
      kind, rid := "", "";
      if message.Dict? {
        if StringField(message.fields, "type").Some? {
          kind := message.fields["type"].text;
        }
        if StringField(message.fields, "rid").Some? {
          rid := message.fields["rid"].text;
        }
      }
    }

    method ConnectedPeers() returns (targets: set<string>)
      requires Valid()
      ensures targets == G.ConnectedPeers(Model())
    {
      targets := {};
      var todo := peers.Keys;
      while todo != {}
        invariant todo <= peers.Keys
        invariant targets == set r | r in peers && r !in todo && peers[r].connected
        decreases todo
      {
        var r :| r in todo;
        if peers[r].connected {
          targets := targets + {r};
        }
        todo := todo - {r};
      }
    }

    // ----- links coming and going -----

    /** A link of `remote` reports that its channel opened or closed. */
    method OnStateChange(remote: string, connected: bool)
      requires Valid()
      modifies this`everConnected, this`everReadyPeers, this`log
      ensures Valid()
      ensures Model() == if connected then G.Step(old(Model()), G.Ready(remote)) else old(Model())
    {
      if connected {
        everConnected := true;
        ghost var before := PeerModels();
        everReadyPeers := everReadyPeers[remote := true];
        log := log + [G.BecameReady(remote)];
        assert PeerModels() == before;
      }
    }

    ghost predicate IsStale(r: string)
      reads this`peers, this`everReadyPeers, Links()
    {
      r in peers && r in everReadyPeers && !peers[r].connected
    }

    ghost function StaleLinks(): set<string>
      reads this`peers, this`everReadyPeers, Links()
    {
      set r | r in peers && IsStale(r)
    }

    lemma StaleInModel()
      ensures StaleLinks() == G.Stale(Model())
    {
    }

    /** The discovery thread takes out the links that were ready and got lost. */
    method TakeOutStale() returns (stale: map<string, Link>)
      modifies this`peers, this`everReadyPeers
      ensures stale.Keys == old(StaleLinks())
      ensures forall r :: r in stale ==> r in old(peers) && stale[r] == old(peers)[r]
      ensures peers == old(peers) - stale.Keys && everReadyPeers == old(everReadyPeers) - stale.Keys
    {
      stale := map[];
      var todo := peers.Keys;
      while todo != {}
        invariant todo <= peers.Keys <= old(peers).Keys
        invariant forall r :: r in stale <==> r !in todo && old(IsStale(r))
        invariant forall r :: r in stale ==> stale[r] == old(peers)[r]
        invariant peers == old(peers) - stale.Keys && everReadyPeers == old(everReadyPeers) - stale.Keys
        decreases todo
      {
        var r :| r in todo;
        todo := todo - {r};
        if r in everReadyPeers && !peers[r].connected {
          stale := stale[r := peers[r]];
          everReadyPeers := everReadyPeers - {r};
          peers := peers - {r};
        }
      }
    }

    method SweepStale() returns (stale: map<string, Link>)
      requires Valid()
      modifies this`peers, this`everReadyPeers
      ensures Valid() && Model() == G.Step(old(Model()), G.SweepStale)
      ensures stale.Keys == G.Stale(old(Model()))
      ensures forall r :: r in stale ==> r in old(peers) && stale[r] == old(peers)[r]
    {
      ghost var g := Model();
      StaleInModel();
      stale := TakeOutStale();
      assert stale.Keys == G.Stale(g);
      assert everReadyPeers.Keys == g.everReady - stale.Keys;
      LeftOf(g.peers, PeerModels(), stale.Keys);
    }

    /** Copies the group's tables into a new link, wrapping the request callbacks. */
    method RegisterCallbacks(child: Link, remote: string)
      requires child.tables == Tables(map[], map[], map[], map[], map[])
      modifies child`tables
      ensures child.tables.Entries() == G.Mirrored(tables.Entries(), remote)
    {
      child.tables := child.tables.(pub := tables.pub);
      var requests := WrapRequests(tables.requests, remote);
      child.tables := child.tables.(requests := requests);
      child.tables := child.tables.(replies := tables.replies);
      child.tables := child.tables.(video := tables.video, audio := tables.audio);
      MirroredTables(tables, child.tables, remote);
    }

    method DropOrigins(remote: string)
      modifies this`rpcOrigins
      ensures rpcOrigins == map rid | rid in old(rpcOrigins) && old(rpcOrigins)[rid] != remote :: old(rpcOrigins)[rid]
    {
      var todo := rpcOrigins.Keys;
      while todo != {}
        invariant todo <= rpcOrigins.Keys <= old(rpcOrigins).Keys
        invariant forall rid :: rid in old(rpcOrigins) ==>
          (rid in rpcOrigins <==> rid in todo || old(rpcOrigins)[rid] != remote)
        invariant forall rid :: rid in rpcOrigins ==> rpcOrigins[rid] == old(rpcOrigins)[rid]
        decreases todo
      {
        var rid :| rid in todo;
        if rpcOrigins[rid] == remote {
          rpcOrigins := Omit(rpcOrigins, rid);
        }
        todo := todo - {rid};
      }
    }

    /** The filters a signal passes before the group looks at its links. */
    method Sender(message: Value) returns (remote: string)
      ensures remote == (if G.SenderOf(self, role, message).Some? then G.SenderOf(self, role, message).value else "")
      ensures remote != "" <==> G.SenderOf(self, role, message).Some?
    {
      remote := "";
      if !message.Dict? {
        return;
      }
      var fields := message.fields;
      if "peer_id" !in fields || !fields["peer_id"].Str? {
        return;
      }
      var from := fields["peer_id"].text;
      if from == "" || from == self {
        return;
      }
      if "to_peer_id" in fields && (!fields["to_peer_id"].Str? || fields["to_peer_id"].text != self) {
        return;
      }
      var remoteRole := if "role" in fields && fields["role"].Str? then fields["role"].text else "mesh";
      if (role == "client" && remoteRole == "client") || (role == "host" && remoteRole == "host") {
        return;
      }
      remote := from;
    }

    /** Notes the restart id a hello announces; tells whether it is a new one. */
    method NoteRestart(message: Value, remote: string) returns (newRestart: bool)
      requires Valid()
      modifies this`restartIds, this`log
      ensures Valid() && Model() == G.NoteRestart(old(Model()), remote, message)
      ensures newRestart == G.NewRestart(old(Model()), remote, message)
    {
      ghost var g := Model();
      newRestart := false;
      if G.IsHello(message) && "restart_id" in message.fields && message.fields["restart_id"].Str? {
        assert G.RestartOf(message) == Some(message.fields["restart_id"].text);
        newRestart := RememberRestart(remote, message.fields["restart_id"].text);
      } else {
        assert G.RestartOf(message) == None;
      }
      assert PeerModels() == g.peers;
    }

    /** The stored id is read, empty at first, compared and replaced when it differs. */
    method RememberRestart(remote: string, restartId: string) returns (isNew: bool)
      modifies this`restartIds, this`log
      ensures isNew == ((if remote in old(restartIds) then old(restartIds)[remote] else "") != restartId)
      ensures restartIds == old(restartIds)[remote := restartId]
      ensures log == if isNew then old(log) + [G.Restarted(remote)] else old(log)
    {
      if remote !in restartIds {
        restartIds := restartIds[remote := ""];
      }
      isNew := restartIds[remote] != restartId;
      if isNew {
        restartIds := restartIds[remote := restartId];
        log := log + [G.Restarted(remote)];
      }
    }

    method ErasePeer(remote: string)
      requires Valid() && remote in peers
      modifies this`peers, this`everReadyPeers, this`rpcOrigins
      ensures Valid() && Model() == G.DropPeer(old(Model()), remote)
      ensures peers == Omit(old(peers), remote)
    {
      ghost var before := PeerModels();
      peers := Omit(peers, remote);
      everReadyPeers := everReadyPeers - {remote};
      DropOrigins(remote);
      SamePeers(Omit(before, remote), PeerModels());
    }

    method MakeLink(remote: string) returns (child: Link)
      requires Valid() && remote !in peers
      modifies this`peers, this`created, this`log
      ensures Valid() && Model() == G.AddPeer(old(Model()), remote)
      ensures peers == old(peers)[remote := child]
      ensures fresh(child) && child.State() == L.Fresh(self, remote, role)
    {
      ghost var g := Model();
      child := new Link(created, self, remote, role);
      RegisterCallbacks(child, remote);
      assert PeerModels() == g.peers && child.Peer() == G.Peer(g.created, G.Mirrored(g.entries, remote), false);
      Admit(child, remote);
    }

    /** A link enters the table of peers. */
    method Admit(child: Link, remote: string)
      requires Valid() && remote !in peers && child !in Links() && child.targetRemote == remote
      modifies this`peers, this`created, this`log
      ensures Valid() && peers == old(peers)[remote := child]
      ensures Model() == old(Model()).(peers := old(PeerModels())[remote := child.Peer()],
                                       created := old(created) + 1, log := old(log) + [G.Created(remote)])
    {
      ghost var g := Model();
      peers := peers[remote := child];
      created := created + 1;
      log := log + [G.Created(remote)];
      assert PeerModels() == g.peers[remote := child.Peer()];
    }

    /** The section of onSignal under the mutex: which link a signal belongs to, making one or
        replacing one when needed. */
    method Route(message: Value, remote: string) returns (child: Link, created: bool, oldChild: Link?)
      requires Valid() && !stopped
      requires G.SenderOf(self, role, message) == Some(remote)
      modifies this
      ensures Valid() && Model() == G.OnSignal(old(Model()), message)
      ensures remote in peers && peers[remote] == child
      ensures if created then fresh(child) && child.State() == L.Fresh(self, remote, role)
              else remote in old(peers) && child == old(peers)[remote]
      ensures created == old(MakesLink(message, remote))
      ensures oldChild == if G.Replaces(old(Model()), remote, message) then old(peers)[remote] else null
      ensures oldChild != null ==> oldChild !in Links()
    {
      oldChild := null;
      created := false;
      var isHello := G.IsHello(message);
      var newRestart := NoteRestart(message, remote);
      if remote in peers && isHello &&
         (newRestart || (remote in everReadyPeers && !peers[remote].connected)) {
        oldChild := peers[remote];
        ErasePeer(remote);
      }
      if remote !in peers {
        child := MakeLink(remote);
        created := true;
      } else {
        child := peers[remote];
      }
    }

    /** A signal for `remote` finds no link, or one it replaces. */
    ghost predicate MakesLink(message: Value, remote: string)
      reads this, Links()
    {
      remote !in peers || G.Replaces(Model(), remote, message)
    }

    /** The state a link is in when a signal for `remote` reaches it. */
    ghost function LinkBefore(message: Value, remote: string): L.LinkState
      reads this, Links()
    {
      if MakesLink(message, remote) then L.Fresh(self, remote, role) else peers[remote].State()
    }

    /** A whole signal when nothing interferes: the link it belongs to handles it, a new one
        having said hello first, and a replaced one is disconnected. */
    method OnSignal(message: Value, accepted: bool) returns (sent: seq<Value>)
      requires Valid()
      modifies this, Links()
      ensures Valid() && Model() == G.OnSignal(old(Model()), message)
      ensures var sender := G.SenderOf(self, role, message);
              if old(stopped) || sender.None? then sent == []
              else sender.value in peers &&
                   var before := old(LinkBefore(message, sender.value));
                   var after := L.OnSignal(before, message, accepted);
                   && peers[sender.value].State() == after
                   && sent == (if old(MakesLink(message, sender.value)) then [L.Hello(before)] else []) + L.Answer(before, after)
    {
      sent := [];
      var remote := Sender(message);
      if remote == "" || stopped {
        return;
      }
      var child, created, oldChild := Route(message, remote);
      sent := HandOn(remote, created, oldChild, message, accepted);
    }

    /** What onSignal does after the mutex is free. */
    method HandOn(remote: string, created: bool, oldChild: Link?, message: Value, accepted: bool) returns (sent: seq<Value>)
      requires Valid() && remote in peers
      requires oldChild != null ==> oldChild !in Links()
      modifies peers[remote], oldChild
      ensures Valid() && PeerModels() == old(PeerModels())
      ensures peers[remote].State() == L.OnSignal(old(peers[remote].State()), message, accepted)
      ensures sent == (if created then [L.Hello(old(peers[remote].State()))] else [])
                      + L.Answer(old(peers[remote].State()), peers[remote].State())
    {
      ghost var before := PeerModels();
      var child := peers[remote];
      sent := [];
      if created {
        sent := [L.AddressedSignal(child.targetRemote, child.role, L.HelloBody(child.peerId))];
      }
      var answer := child.OnSignalMessage(message, accepted);
      sent := sent + answer;
      if oldChild != null {
        oldChild.Disconnect();
      }
      assert forall r :: r in peers && r != remote ==> peers[r] != child && peers[r] != oldChild;
      SamePeers(before, PeerModels());
    }

    method RequestStop() returns (first: bool)
      requires Valid()
      modifies this`stopped
      ensures Valid() && first == !old(stopped)
      ensures Model() == G.Step(old(Model()), G.Stop)
    {
      first := !stopped;
      stopped := true;
    }

    /** Once the discovery thread is joined, the links are handed back to be disconnected. */
    method FinishStop() returns (children: set<Link>)
      requires Valid() && stopped
      modifies this`peers, this`rpcOrigins, this`restartIds
      ensures Valid() && Model() == G.Step(old(Model()), G.Clear)
      ensures children == old(Links())
    {
      children := set r | r in peers :: peers[r];
      peers, rpcOrigins, restartIds := map[], map[], map[];
    }
  }

  /** In every run, whatever a live peer's link calls for a data channel message: it is each callback
      of the group the message is for, once, run as the user gave it, but for request callbacks,
      which note that peer as the origin first. */
  lemma EveryPeerCallsTheGroupsCallbacks(run: seq<G.Group>, ops: seq<G.Op>, remote: string,
                                         link: Tables, message: Value, calls: seq<G.Key>)
    requires G.IsRun(run, ops) && remote in run[|ops|].peers
    requires run[|ops|].peers[remote].entries == link.Entries() && CallsFor(link, message, calls)
    ensures var held := run[|ops|].entries;
            && Distinct(calls)
            && (forall k :: k in calls <==> k in held && IsFor(k, message))
            && (forall k | k in calls ::
                  link.Has(k)
                  && link.At(k) == if G.KindOf(message) == "rpc_req" then G.Recording(remote, held[k]) else held[k])
  {
    G.MirrorInEveryRun(run, ops);
    EntriesAreTheTables(link);
    forall k | k in calls ensures k.OnRequest? <==> G.KindOf(message) == "rpc_req" {
      assert IsFor(k, message);
    }
  }

  lemma SamePeers(before: map<string, G.Peer>, after: map<string, G.Peer>)
    requires after.Keys == before.Keys && forall r | r in after :: after[r] == before[r]
    ensures after == before
  {
  }

  lemma LeftOf<T>(before: map<string, T>, after: map<string, T>, gone: set<string>)
    requires after.Keys == before.Keys - gone && forall r | r in after :: after[r] == before[r]
    ensures after == map r | r in before && r !in gone :: before[r]
  {
  }

  lemma MapsBack(handles: seq<nat>, calls: seq<G.Key>, f: nat -> G.Key)
    requires |calls| == |handles| && forall i :: 0 <= i < |handles| ==> calls[i] == f(handles[i])
    ensures forall k :: k in calls <==> exists h :: h in handles && f(h) == k
  {
    forall k | exists h :: h in handles && f(h) == k ensures k in calls {
      var h :| h in handles && f(h) == k;
      var i :| 0 <= i < |handles| && handles[i] == h;
      assert calls[i] == k;
    }
  }
}
