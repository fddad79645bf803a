/** The cache of mDNS service records, seen as a function of the records handled so far.

    Records that name an instance (PTR), locate it (SRV), describe it (TXT) or give an address
    of its host (A, AAAA) arrive one at a time, in any order, and are joined through four maps.
    The packet parser is outside: a record is what it extracts. */
module Discovery {
  import opened Values

  // ----- names -----

  /** tolower in the C locale. */
  function LowerChar(c: char): char {
    if 'A' <= c <= 'Z' then (c as int + 32) as char else c
  }

  function Lower(s: string): (r: string)
    ensures |r| == |s|
  {
    seq(|s|, i requires 0 <= i < |s| => LowerChar(s[i]))
  }

  function EnsureDot(s: string): string {
    if s == "" || s[|s| - 1] == '.' then s else s + "."
  }

  predicate EndsWith(s: string, suffix: string) {
    |suffix| <= |s| && Lower(s[|s| - |suffix|..]) == Lower(suffix)
  }

  function NormHost(host: string): string {
    EnsureDot(Lower(host))
  }

  /** The node id inside "<id>.<service>", empty when the name is of another service. */
  function NodeIdFromInstance(service: string, instance: string): string {
    var s := EnsureDot(Lower(instance));
    var suffix := EnsureDot(Lower(service));
    if !EndsWith(s, suffix) then ""
    else
      var node := s[..|s| - |suffix|];
      if node != "" && node[|node| - 1] == '.' then node[..|node| - 1] else node
  }

  // ----- records and tables -----

  /** What one resource record says; `pairs` are the key-value pairs of a TXT record and an
      address is its printed form, empty if it could not be printed. */
  datatype Content =
    | Ptr(instance: string)
    | Srv(host: string, port: nat)
    | Txt(pairs: seq<(string, string)>)
    | Address(ip: string)

  datatype Record = Record(owner: string, content: Content)

  /** A record handled at time `now` (milliseconds); a time to live of 0 is a goodbye. */
  datatype Arrival = Arrival(record: Record, ttl: nat, now: nat)

  datatype NodeInfo = NodeInfo(
    nodeId: string,
    instance: string,
    host: string,
    port: nat,
    payload: string,
    ips: seq<string>)

  const BLANK := NodeInfo("", "", "", 0, "{}", [])

  predicate IsResolved(info: NodeInfo) {
    info.nodeId != "" && info.port != 0 && info.ips != []
  }

  /** `pending` parks the addresses of hosts that no SRV record has named yet. */
  datatype Tables = Tables(
    nodes: map<string, NodeInfo>,
    instanceToNode: map<string, string>,
    hostToNode: map<string, string>,
    pending: map<string, seq<string>>,
    expires: map<string, nat>)

  const EMPTY := Tables(map[], map[], map[], map[], map[])

  function Info(t: Tables, node: string): NodeInfo {
    if node in t.nodes then t.nodes[node] else BLANK
  }

  function Parked(t: Tables, host: string): seq<string> {
    if host in t.pending then t.pending[host] else []
  }

  // ----- what one record does -----

  /** `ip` added unless it is there already. */
  function AddIp(ips: seq<string>, ip: string): seq<string> {
    if ip in ips then ips else ips + [ip]
  }

  function AddIps(ips: seq<string>, more: seq<string>): seq<string>
    decreases more
  {
    if more == [] then ips else AddIp(AddIps(ips, more[..|more| - 1]), more[|more| - 1])
  }

  function RemoveIp(ips: seq<string>, ip: string): seq<string> {
    if ips == [] then []
    else RemoveIp(ips[..|ips| - 1], ip) + (if ips[|ips| - 1] == ip then [] else [ips[|ips| - 1]])
  }

  /** The last non-empty value given for a key of a TXT record. */
  function LastValue(pairs: seq<(string, string)>, key: string, otherwise: string): string {
    if pairs == [] then otherwise
    else
      var last := pairs[|pairs| - 1];
      if last.0 == key && last.1 != "" then last.1 else LastValue(pairs[..|pairs| - 1], key, otherwise)
  }

  function TxtNode(service: string, instance: string, pairs: seq<(string, string)>): string {
    var given := LastValue(pairs, "node_id", "");
    if given != "" then Lower(given) else NodeIdFromInstance(service, instance)
  }

  /** What a record asserts once its names are resolved; `at` is the normalised host. */
  datatype Fact =
    | Named(node: string, instance: string)
    | Located(node: string, instance: string, host: string, at: string, port: nat)
    | Described(node: string, instance: string, payload: string)
    | Addressed(at: string, ip: string)

  function Learn(t: Tables, f: Fact, expire: nat): Tables {
    match f
    case Named(n, i) =>
      t.(nodes := t.nodes[n := Info(t, n).(nodeId := n, instance := i)],
         instanceToNode := t.instanceToNode[i := n],
         expires := t.expires[n := expire])
    case Located(n, i, h, at, p) =>
      var ips := AddIps(Info(t, n).ips, Parked(t, at));
      t.(nodes := t.nodes[n := Info(t, n).(nodeId := n, instance := i, host := h, port := p, ips := ips)],
         hostToNode := t.hostToNode[at := n],
         pending := Omit(t.pending, at),
         expires := t.expires[n := expire])
    case Described(n, i, p) =>
      t.(nodes := t.nodes[n := Info(t, n).(nodeId := n, instance := i, payload := p)],
         expires := t.expires[n := expire])
    case Addressed(h, ip) =>
      if h !in t.hostToNode then t.(pending := t.pending[h := AddIp(Parked(t, h), ip)])
      else if t.hostToNode[h] !in t.nodes then t
      else
        var n := t.hostToNode[h];
        t.(nodes := t.nodes[n := t.nodes[n].(ips := AddIp(t.nodes[n].ips, ip))],
           expires := t.expires[n := expire])
  }

  /** A goodbye: the node, its instance and its expiry go; its host stays. */
  function Forget(t: Tables, node: string, instance: string): Tables {
    t.(nodes := Omit(t.nodes, node),
       instanceToNode := Omit(t.instanceToNode, instance),
       expires := Omit(t.expires, node))
  }

  /** An address withdrawn: it leaves its node, but is parked all the same while its host is unknown. */
  function Withdraw(t: Tables, host: string, ip: string): Tables {
    if host !in t.hostToNode then Learn(t, Addressed(host, ip), 0)
    else if t.hostToNode[host] !in t.nodes then t
    else
      var n := t.hostToNode[host];
      t.(nodes := t.nodes[n := t.nodes[n].(ips := RemoveIp(t.nodes[n].ips, ip))])
  }

  function Expiry(a: Arrival): nat {
    if a.ttl == 0 then 0 else a.now + a.ttl * 1000
  }

  function PtrFact(service: string, owner: string, inst: string): Option<Fact> {
    if inst == "" || !EndsWith(owner, service) || !EndsWith(inst, service) then None
    else Kept(Named(NodeIdFromInstance(service, inst), inst))
  }

  function SrvFact(service: string, instance: string, host: string, port: nat, node: string): Option<Fact> {
    if host == "" || !EndsWith(instance, service) then None
    else Kept(Located(node, instance, host, NormHost(host), port))
  }

  function TxtFact(service: string, instance: string, pairs: seq<(string, string)>): Option<Fact> {
    if !EndsWith(instance, service) then None
    else Kept(Described(TxtNode(service, instance, pairs), instance, LastValue(pairs, "payload", "{}")))
  }

  function AddressFact(owner: string, ip: string): Option<Fact> {
    if ip == "" then None else Some(Addressed(NormHost(owner), ip))
  }

  /** What a record asserts, given the node id a SRV record would be about. */
  function FactWith(service: string, r: Record, srvNode: string): Option<Fact> {
    if r.owner == "" then None
    else match r.content
      case Ptr(inst) => PtrFact(service, r.owner, inst)
      case Srv(host, port) => SrvFact(service, EnsureDot(r.owner), host, port, srvNode)
      case Txt(pairs) => TxtFact(service, EnsureDot(r.owner), pairs)
      case Address(ip) => AddressFact(r.owner, ip)
  }

  /** The node id known for an instance, or else the one its name spells. */
  function SrvNode(service: string, known: map<string, string>, instance: string): string {
    if instance in known then known[instance] else NodeIdFromInstance(service, instance)
  }

  /** Nothing is known about the empty node. */
  function Kept(f: Fact): Option<Fact>
    requires !f.Addressed?
  {
    if f.node == "" then None else Some(f)
  }

  function Apply(t: Tables, f: Fact, a: Arrival): Tables {
    if a.ttl > 0 then Learn(t, f, Expiry(a))
    else if f.Addressed? then Withdraw(t, f.at, f.ip)
    else Forget(t, f.node, f.instance)
  }

  function ApplyIfAny(t: Tables, f: Option<Fact>, a: Arrival): Tables {
    if f.None? then t else Apply(t, f.value, a)
  }

  /** One call of handle_record on an answer, authority or additional record. */
  function Step(service: string, t: Tables, a: Arrival): Tables {
    ApplyIfAny(t, FactWith(service, a.record, SrvNode(service, t.instanceToNode, EnsureDot(a.record.owner))), a)
  }

  function Run(service: string, arrivals: seq<Arrival>): Tables {
    if arrivals == [] then EMPTY
    else Step(service, Run(service, arrivals[..|arrivals| - 1]), arrivals[|arrivals| - 1])
  }

  /** resolve_node's test, without the waiting. */
  predicate Resolves(t: Tables, nodeId: string) {
    nodeId in t.nodes && IsResolved(t.nodes[nodeId])
  }

  // ----- what every run keeps, goodbyes included -----

  predicate NoDuplicates(s: seq<string>) {
    forall i, j :: 0 <= i < j < |s| ==> s[i] != s[j]
  }

  predicate IsLower(s: string) { Lower(s) == s }

  predicate NodesSound(t: Tables) {
    && t.nodes.Keys == t.expires.Keys
    && (forall n | n in t.nodes :: n != "" && IsLower(n) && t.nodes[n].nodeId == n && NoDuplicates(t.nodes[n].ips))
    && (forall h | h in t.hostToNode :: t.hostToNode[h] != "" && IsLower(t.hostToNode[h]))
  }

  /** An instance is remembered only under the node id its own name spells. */
  predicate InstancesSound(service: string, t: Tables) {
    forall i | i in t.instanceToNode ::
      t.instanceToNode[i] == NodeIdFromInstance(service, i) && t.instanceToNode[i] != ""
  }

  /** A host is either known or has parked addresses, never both. */
  predicate ParkingSound(t: Tables) {
    forall h | h in t.pending :: h !in t.hostToNode && t.pending[h] != [] && NoDuplicates(t.pending[h])
  }

  predicate Sound(service: string, t: Tables) {
    NodesSound(t) && InstancesSound(service, t) && ParkingSound(t)
  }

  lemma LowerIsIdempotent(s: string)
    ensures IsLower(Lower(s))
  {
    assert forall i | 0 <= i < |s| :: LowerChar(LowerChar(s[i])) == LowerChar(s[i]);
  }

  lemma LowerConcat(a: string, b: string)
    ensures Lower(a + b) == Lower(a) + Lower(b)
  {
  }

  lemma NodeIdIsLower(service: string, instance: string)
    ensures IsLower(NodeIdFromInstance(service, instance))
  {
    LowerIsIdempotent(instance);
    var s := EnsureDot(Lower(instance));
    assert forall i | 0 <= i < |s| :: LowerChar(s[i]) == s[i] by {
      assert forall i | 0 <= i < |instance| :: LowerChar(Lower(instance)[i]) == Lower(instance)[i];
    }
    var node := NodeIdFromInstance(service, instance);
    assert forall i | 0 <= i < |node| :: node[i] == s[i];
  }

  lemma {:induction false} AddIpsAdds(ips: seq<string>, more: seq<string>)
    requires NoDuplicates(ips)
    ensures NoDuplicates(AddIps(ips, more))
    ensures forall ip :: ip in AddIps(ips, more) <==> ip in ips || ip in more
    decreases more
  {
    if more != [] {
      var init, last := more[..|more| - 1], more[|more| - 1];
      AddIpsAdds(ips, init);
      assert more == init + [last];
      assert forall ip :: ip in more <==> ip in init || ip == last;
    }
  }

  lemma {:induction false} RemoveIpRemoves(ips: seq<string>, ip: string)
    ensures forall x :: x in RemoveIp(ips, ip) <==> x in ips && x != ip
    ensures NoDuplicates(ips) ==> NoDuplicates(RemoveIp(ips, ip))
  {
    if ips != [] {
      var init, last := ips[..|ips| - 1], ips[|ips| - 1];
      RemoveIpRemoves(init, ip);
      assert ips == init + [last];
      assert forall x :: x in ips <==> x in init || x == last;
      assert NoDuplicates(ips) ==> last !in init;
    }
  }

  /** What a fact may be for the tables to stay sound. */
  predicate Proper(service: string, f: Fact) {
    && (!f.Addressed? ==> (f.node != "" && IsLower(f.node)))
    && (f.Named? ==> f.node == NodeIdFromInstance(service, f.instance))
  }

  lemma LearnKeepsSound(service: string, t: Tables, f: Fact, expire: nat)
    requires Sound(service, t) && Proper(service, f)
    ensures Sound(service, Learn(t, f, expire))
  {
    match f {
      case Named(_, _) => NamedKeepsSound(service, t, f, expire);
      case Located(_, _, _, _, _) => LocatedKeepsSound(service, t, f, expire);
      case Described(_, _, _) => DescribedKeepsSound(service, t, f, expire);
      case Addressed(h, ip) => AddressedKeepsSound(service, t, h, ip, expire);
    }
  }

  lemma NamedKeepsSound(service: string, t: Tables, f: Fact, expire: nat)
    requires Sound(service, t) && Proper(service, f) && f.Named?
    ensures Sound(service, Learn(t, f, expire))
  {
    assert NoDuplicates(Info(t, f.node).ips);
  }

  lemma DescribedKeepsSound(service: string, t: Tables, f: Fact, expire: nat)
    requires Sound(service, t) && Proper(service, f) && f.Described?
    ensures Sound(service, Learn(t, f, expire))
  {
    assert NoDuplicates(Info(t, f.node).ips);
  }

  lemma LocatedKeepsSound(service: string, t: Tables, f: Fact, expire: nat)
    requires Sound(service, t) && f.Located? && f.node != "" && IsLower(f.node)
    ensures Sound(service, Learn(t, f, expire))
  {
    assert NoDuplicates(Info(t, f.node).ips);
    AddIpsAdds(Info(t, f.node).ips, Parked(t, f.at));
  }

  lemma AddressedKeepsSound(service: string, t: Tables, h: string, ip: string, expire: nat)
    requires Sound(service, t)
    ensures Sound(service, Learn(t, Addressed(h, ip), expire))
  {
    if h !in t.hostToNode {
      assert NoDuplicates(AddIp(Parked(t, h), ip));
    } else if t.hostToNode[h] in t.nodes {
      assert NoDuplicates(AddIp(t.nodes[t.hostToNode[h]].ips, ip));
    }
  }

  lemma ForgetKeepsSound(service: string, t: Tables, node: string, instance: string)
    requires Sound(service, t)
    ensures Sound(service, Forget(t, node, instance))
  {
  }

  lemma WithdrawKeepsSound(service: string, t: Tables, host: string, ip: string)
    requires Sound(service, t)
    ensures Sound(service, Withdraw(t, host, ip))
  {
    if host !in t.hostToNode {
      LearnKeepsSound(service, t, Addressed(host, ip), 0);
    } else if t.hostToNode[host] in t.nodes {
      RemoveIpRemoves(t.nodes[t.hostToNode[host]].ips, ip);
    }
  }

  lemma PtrIsProper(service: string, owner: string, inst: string)
    ensures PtrFact(service, owner, inst).Some? ==> Proper(service, PtrFact(service, owner, inst).value)
  {
    NodeIdIsLower(service, inst);
  }

  lemma TxtIsProper(service: string, instance: string, pairs: seq<(string, string)>)
    ensures TxtFact(service, instance, pairs).Some? ==> Proper(service, TxtFact(service, instance, pairs).value)
  {
    NodeIdIsLower(service, instance);
    LowerIsIdempotent(LastValue(pairs, "node_id", ""));
  }

  lemma SrvIsProper(service: string, instance: string, host: string, port: nat, node: string)
    requires IsLower(node)
    ensures SrvFact(service, instance, host, port, node).Some?
            ==> Proper(service, SrvFact(service, instance, host, port, node).value)
  {
  }

  lemma FactIsProper(service: string, r: Record, node: string)
    requires IsLower(node)
    ensures FactWith(service, r, node).Some? ==> Proper(service, FactWith(service, r, node).value)
  {
    match r.content {
      case Ptr(inst) => PtrIsProper(service, r.owner, inst);
      case Srv(host, port) => SrvIsProper(service, EnsureDot(r.owner), host, port, node);
      case Txt(pairs) => TxtIsProper(service, EnsureDot(r.owner), pairs);
      case Address(_) =>
    }
  }

  /** The table lookup a SRV record makes never changes its outcome. */
  lemma LookupChangesNothing(service: string, t: Tables, instance: string)
    requires InstancesSound(service, t)
    ensures SrvNode(service, t.instanceToNode, instance) == NodeIdFromInstance(service, instance)
  {
  }

  lemma ApplyKeepsSound(service: string, t: Tables, f: Fact, a: Arrival)
    requires Sound(service, t) && Proper(service, f)
    ensures Sound(service, Apply(t, f, a))
  {
    if a.ttl > 0 {
      LearnKeepsSound(service, t, f, Expiry(a));
    } else if f.Addressed? {
      WithdrawKeepsSound(service, t, f.at, f.ip);
    } else {
      ForgetKeepsSound(service, t, f.node, f.instance);
    }
  }

  lemma StepKeepsSound(service: string, t: Tables, a: Arrival)
    requires Sound(service, t)
    ensures Sound(service, Step(service, t, a))
  {
    var node := SrvNode(service, t.instanceToNode, EnsureDot(a.record.owner));
    LookupChangesNothing(service, t, EnsureDot(a.record.owner));
    NodeIdIsLower(service, EnsureDot(a.record.owner));
    var f := FactWith(service, a.record, node);
    if f.Some? {
      FactIsProper(service, a.record, node);
      ApplyKeepsSound(service, t, f.value, a);
    }
  }

  /** In every run: node entries carry their own lower-case key and an expiry, no address is
      listed twice, and no host is both known and parked. */
  lemma {:induction false} SoundInEveryRun(service: string, arrivals: seq<Arrival>)
    ensures Sound(service, Run(service, arrivals))
  {
    if arrivals != [] {
      SoundInEveryRun(service, arrivals[..|arrivals| - 1]);
      StepKeepsSound(service, Run(service, arrivals[..|arrivals| - 1]), arrivals[|arrivals| - 1]);
    }
  }

  // ----- goodbyes and withdrawn addresses, table by table -----

  /** The node a record is about and its instance, if it is about one. */
  ghost predicate IsAbout(service: string, t: Tables, r: Record, node: string, instance: string) {
    && r.owner != "" && node != ""
    && match r.content
       case Ptr(inst) =>
         inst != "" && inst == instance && EndsWith(r.owner, service) && EndsWith(inst, service)
         && node == NodeIdFromInstance(service, inst)
       case Srv(host, _) =>
         host != "" && instance == EnsureDot(r.owner) && EndsWith(instance, service)
         && node == if instance in t.instanceToNode then t.instanceToNode[instance] else NodeIdFromInstance(service, instance)
       case Txt(pairs) =>
         instance == EnsureDot(r.owner) && EndsWith(instance, service)
         && node == var given := LastValue(pairs, "node_id", "");
                    if given != "" then Lower(given) else NodeIdFromInstance(service, instance)
       case Address(_) => false
  }

  lemma TheFactIsAboutIt(service: string, t: Tables, r: Record, node: string, instance: string)
    requires IsAbout(service, t, r, node, instance)
    ensures var f := FactWith(service, r, SrvNode(service, t.instanceToNode, EnsureDot(r.owner)));
            f.Some? && !f.value.Addressed? && f.value.node == node && f.value.instance == instance
  {
  }

  /** A goodbye takes away the node it is about, that node's expiry and that instance; of every other
      node nothing changes, and hosts and parked addresses stay. */
  lemma GoodbyeTakesOneExactly(service: string, t: Tables, r: Record, now: nat, node: string, instance: string)
    requires IsAbout(service, t, r, node, instance)
    ensures TakesOne(t, Step(service, t, Arrival(r, 0, now)), node, instance)
  {
    TheFactIsAboutIt(service, t, r, node, instance);
    ForgettingTakesOne(t, node, instance);
  }

  ghost predicate TakesOne(t: Tables, t': Tables, node: string, instance: string) {
    && node !in t'.nodes && node !in t'.expires && instance !in t'.instanceToNode && !Resolves(t', node)
    && (forall m | m != node :: m in t'.nodes <==> m in t.nodes)
    && (forall m | m != node :: m in t'.expires <==> m in t.expires)
    && (forall m | m != node && m in t.nodes :: t'.nodes[m] == t.nodes[m])
    && (forall m | m != node && m in t.expires :: t'.expires[m] == t.expires[m])
    && (forall m | m != node :: Resolves(t', m) <==> Resolves(t, m))
    && (forall i | i != instance :: i in t'.instanceToNode <==> i in t.instanceToNode)
    && (forall i | i != instance && i in t.instanceToNode :: t'.instanceToNode[i] == t.instanceToNode[i])
    && t'.hostToNode == t.hostToNode && t'.pending == t.pending
  }

  lemma ForgettingTakesOne(t: Tables, node: string, instance: string)
    ensures TakesOne(t, Forget(t, node, instance), node, instance)
  {
  }

  /** An address that is withdrawn leaves the node of its host, if there is one, and nothing else; of a
      host nobody has named it is parked. */
  lemma WithdrawalTakesOneExactly(service: string, t: Tables, a: Arrival)
    requires a.ttl == 0 && a.record.owner != "" && a.record.content.Address? && a.record.content.ip != ""
    ensures var t', host, ip := Step(service, t, a), NormHost(a.record.owner), a.record.content.ip;
            && t'.nodes.Keys == t.nodes.Keys && t'.instanceToNode == t.instanceToNode
            && t'.hostToNode == t.hostToNode && t'.expires == t.expires
            && (forall m, x | m in t.nodes ::
                  x in t'.nodes[m].ips <==> x in t.nodes[m].ips && !(x == ip && host in t.hostToNode && t.hostToNode[host] == m))
            && (forall m | m in t.nodes :: t'.nodes[m] == t.nodes[m].(ips := t'.nodes[m].ips))
            && (forall h, x :: x in Parked(t', h) <==> x in Parked(t, h) || (h == host && x == ip && host !in t.hostToNode))
  {
    var host, ip := NormHost(a.record.owner), a.record.content.ip;
    assert Step(service, t, a) == Withdraw(t, host, ip);
    WithdrawsOne(t, host, ip);
  }

  lemma WithdrawsOne(t: Tables, host: string, ip: string)
    ensures var t' := Withdraw(t, host, ip);
            && t'.nodes.Keys == t.nodes.Keys && t'.instanceToNode == t.instanceToNode
            && t'.hostToNode == t.hostToNode && t'.expires == t.expires
            && (forall m, x | m in t.nodes ::
                  x in t'.nodes[m].ips <==> x in t.nodes[m].ips && !(x == ip && host in t.hostToNode && t.hostToNode[host] == m))
            && (forall m | m in t.nodes :: t'.nodes[m] == t.nodes[m].(ips := t'.nodes[m].ips))
            && (forall h, x :: x in Parked(t', h) <==> x in Parked(t, h) || (h == host && x == ip && host !in t.hostToNode))
  {
    if host in t.hostToNode && t.hostToNode[host] in t.nodes {
      RemoveIpRemoves(t.nodes[t.hostToNode[host]].ips, ip);
    }
  }

  /** Records of other services, and those that name nothing, change nothing. */
  lemma ForeignRecordsTeachNothing(service: string, t: Tables, a: Arrival)
    requires match a.record.content
             case Ptr(inst) => inst == "" || !EndsWith(a.record.owner, service) || !EndsWith(inst, service)
             case Srv(host, _) => host == "" || !EndsWith(EnsureDot(a.record.owner), service)
             case Txt(_) => !EndsWith(EnsureDot(a.record.owner), service)
             case Address(ip) => ip == ""
    ensures Step(service, t, a) == t
  {
  }

  /** A name is of the service when, but for the case of letters, it is something followed by it. */
  lemma EndsWithExactly(s: string, suffix: string)
    ensures EndsWith(s, suffix) <==> exists front :: Lower(s) == front + Lower(suffix)
  {
    if EndsWith(s, suffix) {
      var n := |s| - |suffix|;
      assert Lower(s) == Lower(s)[..n] + Lower(s)[n..];
      assert Lower(s)[n..] == Lower(s[n..]);
    }
    if front :| Lower(s) == front + Lower(suffix) {
      assert Lower(s)[|front|..] == Lower(suffix) && Lower(s)[|front|..] == Lower(s[|front|..]);
    }
  }

  /** A live record that is about a node sets its expiry, the time to live being in seconds, and leaves
      the other nodes alone. */
  lemma LiveRecordsSetTheExpiry(service: string, t: Tables, a: Arrival, node: string, instance: string)
    requires a.ttl > 0 && IsAbout(service, t, a.record, node, instance)
    ensures SetsOne(t, Step(service, t, a), node, instance, a.now + 1000 * a.ttl)
  {
    TheFactIsAboutIt(service, t, a.record, node, instance);
    var fact := FactWith(service, a.record, SrvNode(service, t.instanceToNode, EnsureDot(a.record.owner)));
    ApplyingSetsOne(t, fact, a);
  }

  lemma ApplyingSetsOne(t: Tables, fact: Option<Fact>, a: Arrival)
    requires a.ttl > 0 && fact.Some? && !fact.value.Addressed?
    ensures SetsOne(t, ApplyIfAny(t, fact, a), fact.value.node, fact.value.instance, a.now + 1000 * a.ttl)
  {
    LearningSetsOne(t, fact.value, a.now + 1000 * a.ttl);
  }

  ghost predicate SetsOne(t: Tables, t': Tables, node: string, instance: string, expire: nat) {
    && node in t'.nodes && t'.expires == t.expires[node := expire]
    && t'.nodes[node].nodeId == node && t'.nodes[node].instance == instance
    && forall m | m != node && m in t.nodes :: m in t'.nodes && t'.nodes[m] == t.nodes[m]
  }

  lemma LearningSetsOne(t: Tables, f: Fact, expire: nat)
    requires !f.Addressed?
    ensures SetsOne(t, Learn(t, f, expire), f.node, f.instance, expire)
  {
  }

  /** What such a record says of its node: a name leaves the rest of the entry, a location replaces host
      and port and collects the addresses parked for that host, a description replaces the payload. */
  ghost predicate Teaches(t: Tables, t': Tables, content: Content, node: string, instance: string) {
    var was := if node in t.nodes then t.nodes[node] else NodeInfo(node, instance, "", 0, "{}", []);
    node in t'.nodes
    && match content
       case Ptr(_) =>
         && t'.nodes[node] == was.(nodeId := node, instance := instance)
         && t'.instanceToNode == t.instanceToNode[instance := node]
         && t'.hostToNode == t.hostToNode && t'.pending == t.pending
       case Srv(host, port) =>
         && t'.nodes[node] == NodeInfo(node, instance, host, port, was.payload, t'.nodes[node].ips)
         && (forall ip :: ip in t'.nodes[node].ips <==> ip in was.ips || ip in Parked(t, NormHost(host)))
         && t'.instanceToNode == t.instanceToNode && t'.hostToNode == t.hostToNode[NormHost(host) := node]
         && NormHost(host) !in t'.pending
         && forall h | h != NormHost(host) :: Parked(t', h) == Parked(t, h)
       case Txt(pairs) =>
         && t'.nodes[node] == was.(nodeId := node, instance := instance, payload := LastValue(pairs, "payload", "{}"))
         && t'.instanceToNode == t.instanceToNode && t'.hostToNode == t.hostToNode && t'.pending == t.pending
       case Address(_) => true
  }

  lemma LiveRecordsTeachExactly(service: string, t: Tables, a: Arrival, node: string, instance: string)
    requires Sound(service, t) && a.ttl > 0 && IsAbout(service, t, a.record, node, instance)
    ensures Teaches(t, Step(service, t, a), a.record.content, node, instance)
  {
    TheFactIsAboutIt(service, t, a.record, node, instance);
    var fact := FactWith(service, a.record, SrvNode(service, t.instanceToNode, EnsureDot(a.record.owner)));
    ApplyingTeaches(service, t, fact, a, node, instance);
  }

  predicate Reports(f: Fact, content: Content, node: string, instance: string) {
    match content
    case Ptr(_) => f == Named(node, instance)
    case Srv(host, port) => f == Located(node, instance, host, NormHost(host), port)
    case Txt(pairs) => f == Described(node, instance, LastValue(pairs, "payload", "{}"))
    case Address(_) => false
  }

  lemma ApplyingTeaches(service: string, t: Tables, fact: Option<Fact>, a: Arrival, node: string, instance: string)
    requires Sound(service, t) && a.ttl > 0 && fact.Some? && Reports(fact.value, a.record.content, node, instance)
    ensures Teaches(t, ApplyIfAny(t, fact, a), a.record.content, node, instance)
  {
    if a.record.content.Srv? {
      LocatingTeaches(service, t, fact.value, Expiry(a));
    } else {
      LearningTeaches(t, fact.value, a.record.content, Expiry(a));
    }
  }

  lemma LocatingTeaches(service: string, t: Tables, f: Fact, expire: nat)
    requires Sound(service, t) && f.Located? && f.at == NormHost(f.host)
    ensures Teaches(t, Learn(t, f, expire), Srv(f.host, f.port), f.node, f.instance)
  {
    AddIpsAdds(Info(t, f.node).ips, Parked(t, f.at));
  }

  lemma LearningTeaches(t: Tables, f: Fact, content: Content, expire: nat)
    requires (f.Named? || f.Described?) && Reports(f, content, f.node, f.instance)
    ensures Teaches(t, Learn(t, f, expire), content, f.node, f.instance)
  {
  }

  /** An address that is announced joins those of the node its host belongs to and renews that node's
      expiry; of a host nobody has named it is parked, and of a host whose node is gone it is dropped. */
  ghost predicate PlacesAddress(t: Tables, t': Tables, host: string, ip: string, expire: nat) {
    if host !in t.hostToNode then
      t' == t.(pending := t'.pending)
      && forall h, x :: x in Parked(t', h) <==> x in Parked(t, h) || (h == host && x == ip)
    else if t.hostToNode[host] !in t.nodes then t' == t
    else
      var n := t.hostToNode[host];
      && n in t'.nodes
      && t' == t.(nodes := t.nodes[n := t.nodes[n].(ips := t'.nodes[n].ips)], expires := t.expires[n := expire])
      && forall x :: x in t'.nodes[n].ips <==> x in t.nodes[n].ips || x == ip
  }

  lemma AddressesArePlacedExactly(service: string, t: Tables, a: Arrival)
    requires a.ttl > 0 && a.record.owner != "" && a.record.content.Address? && a.record.content.ip != ""
    ensures PlacesAddress(t, Step(service, t, a), NormHost(a.record.owner), a.record.content.ip, a.now + 1000 * a.ttl)
  {
    AnAddressIsLearnt(t, NormHost(a.record.owner), a.record.content.ip, a.now + 1000 * a.ttl);
  }

  lemma AnAddressIsLearnt(t: Tables, host: string, ip: string, expire: nat)
    ensures PlacesAddress(t, Learn(t, Addressed(host, ip), expire), host, ip, expire)
  {
  }

  const UPPER := "ABCDEFGHIJKLMNOPQRSTUVWXYZ"
  const LOWER := "abcdefghijklmnopqrstuvwxyz"

  lemma TheAlphabet(i: nat)
    requires i < 26
    ensures |UPPER| == |LOWER| == 26 && UPPER[i] as int == 'A' as int + i && LOWER[i] as int == 'a' as int + i
  {
  }

  /** Lower-casing turns each of the 26 capital letters into its small one and leaves every other character. */
  lemma LowersExactly(c: char)
    ensures |UPPER| == |LOWER| == 26
    ensures forall i | 0 <= i < 26 :: UPPER[i] == c ==> LowerChar(c) == LOWER[i]
    ensures (forall i | 0 <= i < 26 :: UPPER[i] != c) ==> LowerChar(c) == c
  {
    forall i | 0 <= i < 26
      ensures |UPPER| == |LOWER| == 26 && UPPER[i] as int == 'A' as int + i && LOWER[i] as int == 'a' as int + i
    {
      TheAlphabet(i);
    }
    if 'A' <= c <= 'Z' {
      assert UPPER[c as int - 'A' as int] == c;
    }
  }

  /** The node id in a name: what precedes the service, but for the case of letters and the dots that end
      names and labels; nothing when the name is of another service. */
  lemma NodeIdExactly(service: string, instance: string, front: string)
    ensures EnsureDot(Lower(instance)) == front + EnsureDot(Lower(service)) ==>
              NodeIdFromInstance(service, instance)
              == if front != "" && front[|front| - 1] == '.' then front[..|front| - 1] else front
    ensures NodeIdFromInstance(service, instance) != "" ==>
              exists f :: EnsureDot(Lower(instance)) == f + EnsureDot(Lower(service))
  {
    var s, suffix := EnsureDot(Lower(instance)), EnsureDot(Lower(service));
    LowerTwice(instance);
    LowerTwice(service);
    if s == front + suffix {
      assert s[|s| - |suffix|..] == suffix && s[..|s| - |suffix|] == front;
    }
    if NodeIdFromInstance(service, instance) != "" {
      assert Lower(s[|s| - |suffix|..]) == Lower(s)[|s| - |suffix|..];
      assert s == s[..|s| - |suffix|] + suffix;
    }
  }

  lemma LowerTwice(name: string)
    ensures Lower(EnsureDot(Lower(name))) == EnsureDot(Lower(name))
  {
    LowerIsIdempotent(name);
    if EnsureDot(Lower(name)) != Lower(name) {
      LowerConcat(Lower(name), ".");
      assert Lower(".") == ".";
    }
  }

  predicate Gives(pair: (string, string), key: string) {
    pair.0 == key && pair.1 != ""
  }

  /** Of a TXT record's values for a key the last one that is not empty is taken: none gives one from
      `i` on. */
  lemma {:induction false} LastValueExactly(pairs: seq<(string, string)>, key: string, otherwise: string, i: nat)
    requires i <= |pairs| && forall j | i <= j < |pairs| :: !Gives(pairs[j], key)
    ensures i == 0 ==> LastValue(pairs, key, otherwise) == otherwise
    ensures i > 0 && Gives(pairs[i - 1], key) ==> LastValue(pairs, key, otherwise) == pairs[i - 1].1
  {
    if i < |pairs| {
      assert !Gives(pairs[|pairs| - 1], key);
      LastValueExactly(pairs[..|pairs| - 1], key, otherwise, i);
    }
  }

  /** Keys are lower-cased and the argument of resolve_node is not: an id with an upper-case
      letter is never found, whatever has been received. */
  lemma OnlyLowerCaseIdsResolve(service: string, arrivals: seq<Arrival>, nodeId: string)
    ensures Resolves(Run(service, arrivals), nodeId) ==> nodeId == Lower(nodeId)
  {
    SoundInEveryRun(service, arrivals);
  }
}
