/** The cache does not depend on the order of live records, and what a goodbye changes. */
module DiscoveryOrder {
  import opened Values
  import opened Discovery

  // ----- the facts of a run of live records, whatever their order -----

  /** What a record asserts, without looking at the tables. */
  function FactOf(service: string, r: Record): Option<Fact> {
    FactWith(service, r, NodeIdFromInstance(service, EnsureDot(r.owner)))
  }

  lemma StepLearnsTheFact(service: string, t: Tables, a: Arrival)
    requires Sound(service, t) && a.ttl > 0
    ensures Step(service, t, a) ==
            match FactOf(service, a.record)
            case None => t
            case Some(f) => Learn(t, f, Expiry(a))
  {
    LookupChangesNothing(service, t, EnsureDot(a.record.owner));
  }

  function Facts(service: string, records: set<Record>): set<Fact> {
    set r | r in records && FactOf(service, r).Some? :: FactOf(service, r).value
  }

  function Records(arrivals: seq<Arrival>): set<Record> {
    set a | a in arrivals :: a.record
  }

  ghost predicate AllLive(arrivals: seq<Arrival>) {
    forall a | a in arrivals :: a.ttl > 0
  }

  /** Facts about one node agree: one instance name, one host and port, one payload, and no
      host shared with another node. */
  predicate Agree(f: Fact, g: Fact) {
    && (!f.Addressed? && !g.Addressed? && f.node == g.node ==> f.instance == g.instance)
    && (f.Located? && g.Located? ==> (f.node == g.node <==> f.at == g.at))
    && (f.Located? && g.Located? && f.node == g.node ==> f.host == g.host && f.port == g.port)
    && (f.Described? && g.Described? && f.node == g.node ==> f.payload == g.payload)
  }

  ghost predicate Consistent(facts: set<Fact>) {
    forall f, g | f in facts && g in facts :: Agree(f, g)
  }

  // The tables a consistent set of facts leads to, stated without an order.

  ghost predicate NodesReflect(t: Tables, facts: set<Fact>) {
    && (forall f | f in facts && !f.Addressed? ::
          f.node in t.nodes && t.nodes[f.node].nodeId == f.node && t.nodes[f.node].instance == f.instance)
    && (forall n | n in t.nodes :: exists f :: f in facts && !f.Addressed? && f.node == n)
  }

  ghost predicate IsLocated(facts: set<Fact>, node: string) {
    exists f :: f in facts && f.Located? && f.node == node
  }

  predicate PlacedAs(t: Tables, f: Fact)
    requires f.Located?
  {
    && f.node in t.nodes && t.nodes[f.node].host == f.host && t.nodes[f.node].port == f.port
    && f.at in t.hostToNode && t.hostToNode[f.at] == f.node
  }

  predicate IsUnplaced(info: NodeInfo) {
    info.host == "" && info.port == 0 && info.ips == []
  }

  ghost predicate HostsReflect(t: Tables, facts: set<Fact>) {
    && (forall f | f in facts && f.Located? :: PlacedAs(t, f))
    && (forall n | n in t.nodes && !IsLocated(facts, n) :: IsUnplaced(t.nodes[n]))
    && (forall h | h in t.hostToNode :: exists f :: f in facts && f.Located? && f.at == h)
  }

  ghost predicate PayloadsReflect(t: Tables, facts: set<Fact>) {
    && (forall f | f in facts && f.Described? :: f.node in t.nodes && t.nodes[f.node].payload == f.payload)
    && (forall n | n in t.nodes :: t.nodes[n].payload == "{}" || Described(n, t.nodes[n].instance, t.nodes[n].payload) in facts)
  }

  ghost predicate AddressesReflect(t: Tables, facts: set<Fact>) {
    && (forall f, ip | f in facts && f.Located? ::
          ip in Info(t, f.node).ips <==> Addressed(f.at, ip) in facts)
    && (forall h, ip | h !in t.hostToNode :: ip in Parked(t, h) <==> Addressed(h, ip) in facts)
  }

  ghost predicate Reflects(t: Tables, facts: set<Fact>) {
    NodesReflect(t, facts) && HostsReflect(t, facts) && PayloadsReflect(t, facts) && AddressesReflect(t, facts)
  }

  lemma LearnNamed(t: Tables, facts: set<Fact>, f: Fact, expire: nat)
    requires (f.Named? || f.Described?) && Reflects(t, facts) && Consistent(facts + {f})
    ensures Reflects(Learn(t, f, expire), facts + {f})
  {
    NamesStay(t, facts, f);
    var t' := Learn(t, f, expire);
    LearnRenames(t, f, expire);
    NamingKeepsHosts(t, t', facts, f);
    NamingKeepsAddresses(t, t', facts, f);
    NamingKeepsNodes(t, t', facts, f);
    PayloadsStay(t, t', facts, f);
  }

  /** Only the entry of the fact's node may change, and neither its host nor its addresses. */
  predicate OnlyRenames(t: Tables, t': Tables, f: Fact) {
    && (f.Named? || f.Described?)
    && t'.hostToNode == t.hostToNode && t'.pending == t.pending
    && t'.nodes.Keys == t.nodes.Keys + {f.node}
    && (forall n | n in t.nodes && n != f.node :: t'.nodes[n] == t.nodes[n])
    && t'.nodes[f.node].(payload := "") == Info(t, f.node).(nodeId := f.node, instance := f.instance, payload := "")
  }

  lemma LearnRenames(t: Tables, f: Fact, expire: nat)
    requires f.Named? || f.Described?
    ensures OnlyRenames(t, Learn(t, f, expire), f)
  {
  }

  lemma NamingKeepsNodes(t: Tables, t': Tables, facts: set<Fact>, f: Fact)
    requires OnlyRenames(t, t', f) && NodesReflect(t, facts)
    requires f.node in t.nodes ==> t.nodes[f.node].instance == f.instance
    ensures NodesReflect(t', facts + {f})
  {
    forall n | n in t'.nodes ensures exists g :: g in facts + {f} && !g.Addressed? && g.node == n {
      if n == f.node {
        assert f in facts + {f};
      } else {
        var g :| g in facts && !g.Addressed? && g.node == n;
        assert g in facts + {f};
      }
    }
  }

  lemma NamingKeepsHosts(t: Tables, t': Tables, facts: set<Fact>, f: Fact)
    requires OnlyRenames(t, t', f) && HostsReflect(t, facts)
    ensures HostsReflect(t', facts + {f})
  {
    forall n | n in t'.nodes && !IsLocated(facts + {f}, n)
      ensures IsUnplaced(t'.nodes[n])
    {
      assert forall g | g in facts :: g in facts + {f};
      assert !IsLocated(facts, n);
    }
    forall h | h in t'.hostToNode ensures exists g :: g in facts + {f} && g.Located? && g.at == h {
      var g :| g in facts && g.Located? && g.at == h;
      assert g in facts + {f};
    }
  }

  lemma NamingKeepsAddresses(t: Tables, t': Tables, facts: set<Fact>, f: Fact)
    requires OnlyRenames(t, t', f) && AddressesReflect(t, facts)
    ensures AddressesReflect(t', facts + {f})
  {
    forall k, ip | k in facts + {f} && k.Located?
      ensures ip in Info(t', k.node).ips <==> Addressed(k.at, ip) in facts + {f}
    {
      assert k in facts;
      assert ip in Info(t, k.node).ips <==> Addressed(k.at, ip) in facts;
    }
    forall h, ip | h !in t'.hostToNode ensures ip in Parked(t', h) <==> Addressed(h, ip) in facts + {f} {
      assert ip in Parked(t, h) <==> Addressed(h, ip) in facts;
    }
  }

  /** Payloads stay as they are, but for the one a Described fact sets. */
  lemma PayloadsStay(t: Tables, t': Tables, facts: set<Fact>, f: Fact)
    requires PayloadsReflect(t, facts) && NodesReflect(t', facts + {f})
    requires !f.Addressed? && t'.nodes.Keys == t.nodes.Keys + {f.node} && Consistent(facts + {f})
    requires forall n | n in t.nodes && (n != f.node || !f.Described?) ::
               t'.nodes[n].payload == t.nodes[n].payload && t'.nodes[n].instance == t.nodes[n].instance
    requires f.Described? ==> t'.nodes[f.node].payload == f.payload
    requires !f.Described? && f.node !in t.nodes ==> t'.nodes[f.node].payload == "{}"
    ensures PayloadsReflect(t', facts + {f})
  {
    assert forall g | g in facts :: Agree(f, g);
  }

  /** Every node known before is still there under the same instance name. */
  lemma NamesStay(t: Tables, facts: set<Fact>, f: Fact)
    requires !f.Addressed? && NodesReflect(t, facts) && Consistent(facts + {f})
    ensures f.node in t.nodes ==> t.nodes[f.node].instance == f.instance
  {
    if f.node in t.nodes {
      var g :| g in facts && !g.Addressed? && g.node == f.node;
      assert Agree(f, g);
    }
  }

  lemma LearnLocated(t: Tables, facts: set<Fact>, f: Fact, expire: nat)
    requires f.Located? && Reflects(t, facts) && Consistent(facts + {f}) && ParkingSound(t)
    requires forall n | n in t.nodes :: NoDuplicates(t.nodes[n].ips)
    ensures Reflects(Learn(t, f, expire), facts + {f})
  {
    NamesStay(t, facts, f);
    LocatedNodes(t, facts, f, expire);
    LocatedHosts(t, facts, f, expire);
    LocatedPayloads(t, facts, f, expire);
    LocatedAddresses(t, facts, f, expire);
  }

  lemma LocatedNodes(t: Tables, facts: set<Fact>, f: Fact, expire: nat)
    requires f.Located? && NodesReflect(t, facts)
    requires f.node in t.nodes ==> t.nodes[f.node].instance == f.instance
    ensures NodesReflect(Learn(t, f, expire), facts + {f})
  {
    assert forall g | g in facts :: g in facts + {f};
    assert f in facts + {f};
  }

  lemma LocatedPayloads(t: Tables, facts: set<Fact>, f: Fact, expire: nat)
    requires f.Located? && PayloadsReflect(t, facts) && Consistent(facts + {f})
    requires NodesReflect(Learn(t, f, expire), facts + {f})
    requires f.node in t.nodes ==> t.nodes[f.node].instance == f.instance
    ensures PayloadsReflect(Learn(t, f, expire), facts + {f})
  {
    PayloadsStay(t, Learn(t, f, expire), facts, f);
  }

  lemma LocatedHosts(t: Tables, facts: set<Fact>, f: Fact, expire: nat)
    requires f.Located? && HostsReflect(t, facts) && Consistent(facts + {f})
    ensures HostsReflect(Learn(t, f, expire), facts + {f})
  {
    var t' := Learn(t, f, expire);
    forall g | g in facts + {f} && g.Located? ensures PlacedAs(t', g) {
      assert Agree(f, g);
      assert g != f ==> PlacedAs(t, g);
    }
    forall n | n in t'.nodes && !IsLocated(facts + {f}, n) ensures IsUnplaced(t'.nodes[n]) {
      assert f in facts + {f};
      assert !IsLocated(facts, n) by { assert facts <= facts + {f}; }
    }
    forall h | h in t'.hostToNode ensures exists g :: g in facts + {f} && g.Located? && g.at == h {
      if h == f.at {
        assert f in facts + {f};
      } else {
        var g :| g in facts && g.Located? && g.at == h;
        assert g in facts + {f};
      }
    }
  }

  /** Before its first location a node has no addresses; a known host has none parked. */
  lemma WhereAddressesWere(t: Tables, facts: set<Fact>, f: Fact)
    requires f.Located? && HostsReflect(t, facts) && AddressesReflect(t, facts) && Consistent(facts + {f})
    requires ParkingSound(t)
    ensures forall ip :: ip in Info(t, f.node).ips || ip in Parked(t, f.at) <==> Addressed(f.at, ip) in facts
  {
    if f.at in t.hostToNode {
      var g :| g in facts && g.Located? && g.at == f.at;
      assert Agree(f, g) && Parked(t, f.at) == [];
      forall ip ensures ip in Info(t, f.node).ips <==> Addressed(f.at, ip) in facts {
        assert ip in Info(t, g.node).ips <==> Addressed(g.at, ip) in facts;
      }
    } else {
      forall g | g in facts && g.Located? ensures g.node != f.node {
        assert Agree(f, g) && PlacedAs(t, g);
      }
      assert !IsLocated(facts, f.node);
      forall ip ensures ip in Parked(t, f.at) <==> Addressed(f.at, ip) in facts {
      }
    }
  }

  lemma LocatedAddresses(t: Tables, facts: set<Fact>, f: Fact, expire: nat)
    requires f.Located? && HostsReflect(t, facts) && AddressesReflect(t, facts) && Consistent(facts + {f})
    requires ParkingSound(t) && forall n | n in t.nodes :: NoDuplicates(t.nodes[n].ips)
    ensures AddressesReflect(Learn(t, f, expire), facts + {f})
  {
    WhereAddressesWere(t, facts, f);
    AddIpsAdds(Info(t, f.node).ips, Parked(t, f.at));
    forall g, ip | g in facts + {f} && g.Located?
      ensures ip in Info(Learn(t, f, expire), g.node).ips <==> Addressed(g.at, ip) in facts + {f}
    {
      assert Agree(f, g);
      LocatedNodeIps(t, facts, f, expire, g, ip);
    }
    forall h, ip | h !in Learn(t, f, expire).hostToNode
      ensures ip in Parked(Learn(t, f, expire), h) <==> Addressed(h, ip) in facts + {f}
    {
      assert ip in Parked(t, h) <==> Addressed(h, ip) in facts;
    }
  }

  lemma LocatedNodeIps(t: Tables, facts: set<Fact>, f: Fact, expire: nat, g: Fact, ip: string)
    requires f.Located? && g.Located? && Agree(f, g)
    requires ip in AddIps(Info(t, f.node).ips, Parked(t, f.at)) <==> Addressed(f.at, ip) in facts
    requires g.node != f.node ==> (ip in Info(t, g.node).ips <==> Addressed(g.at, ip) in facts)
    ensures ip in Info(Learn(t, f, expire), g.node).ips <==> Addressed(g.at, ip) in facts + {f}
  {
  }

  lemma LearnAddressed(t: Tables, facts: set<Fact>, f: Fact, expire: nat)
    requires f.Addressed? && Reflects(t, facts) && Consistent(facts + {f})
    ensures Reflects(Learn(t, f, expire), facts + {f})
  {
    if f.at in t.hostToNode {
      var g :| g in facts && g.Located? && g.at == f.at;
      KnownHostGetsAddress(t, facts, f, g, expire);
    } else {
      UnknownHostGetsAddress(t, facts, f, expire);
    }
    AddressedRest(t, facts, f, expire);
  }

  lemma AddressedRest(t: Tables, facts: set<Fact>, f: Fact, expire: nat)
    requires f.Addressed? && NodesReflect(t, facts) && HostsReflect(t, facts) && PayloadsReflect(t, facts)
    ensures var t' := Learn(t, f, expire);
            NodesReflect(t', facts + {f}) && HostsReflect(t', facts + {f}) && PayloadsReflect(t', facts + {f})
  {
    var t' := Learn(t, f, expire);
    AddressChangesIps(t, f, expire);
    forall n | n in t.nodes ensures IsLocated(facts, n) || t'.nodes[n] == t.nodes[n] {
      if f.at in t.hostToNode && n == t.hostToNode[f.at] {
        var g :| g in facts && g.Located? && g.at == f.at;
        assert PlacedAs(t, g);
      }
    }
    AddressingKeepsTheRest(t, t', facts, f);
  }

  predicate OnlyIpsDiffer(t: Tables, t': Tables) {
    && t'.hostToNode == t.hostToNode && t'.nodes.Keys == t.nodes.Keys
    && forall n | n in t.nodes :: t'.nodes[n] == t.nodes[n].(ips := t'.nodes[n].ips)
  }

  lemma AddressChangesIps(t: Tables, f: Fact, expire: nat)
    requires f.Addressed?
    ensures OnlyIpsDiffer(t, Learn(t, f, expire))
    ensures forall n | n in t.nodes ::
              (f.at in t.hostToNode && n == t.hostToNode[f.at]) || Learn(t, f, expire).nodes[n] == t.nodes[n]
  {
  }

  lemma AddressingKeepsTheRest(t: Tables, t': Tables, facts: set<Fact>, f: Fact)
    requires f.Addressed? && NodesReflect(t, facts) && HostsReflect(t, facts) && PayloadsReflect(t, facts)
    requires OnlyIpsDiffer(t, t')
    requires forall n | n in t.nodes :: IsLocated(facts, n) || t'.nodes[n] == t.nodes[n]
    ensures NodesReflect(t', facts + {f}) && HostsReflect(t', facts + {f}) && PayloadsReflect(t', facts + {f})
  {
    assert forall g | g != f :: g in facts + {f} <==> g in facts;
    AddressingKeepsHosts(t, t', facts, f);
  }

  lemma AddressingKeepsHosts(t: Tables, t': Tables, facts: set<Fact>, f: Fact)
    requires f.Addressed? && HostsReflect(t, facts) && OnlyIpsDiffer(t, t')
    requires forall n | n in t.nodes :: IsLocated(facts, n) || t'.nodes[n] == t.nodes[n]
    ensures HostsReflect(t', facts + {f})
  {
    assert facts <= facts + {f};
    forall g | g in facts + {f} && g.Located? ensures PlacedAs(t', g) {
      assert PlacedAs(t, g);
    }
    forall n | n in t'.nodes && !IsLocated(facts + {f}, n) ensures IsUnplaced(t'.nodes[n]) {
      assert !IsLocated(facts, n);
    }
    forall h | h in t'.hostToNode ensures exists g :: g in facts + {f} && g.Located? && g.at == h {
      var g :| g in facts && g.Located? && g.at == h;
      assert g in facts + {f};
    }
  }

  lemma KnownHostGetsAddress(t: Tables, facts: set<Fact>, f: Fact, g: Fact, expire: nat)
    requires f.Addressed? && HostsReflect(t, facts) && AddressesReflect(t, facts) && Consistent(facts + {f})
    requires g in facts && g.Located? && g.at == f.at
    ensures AddressesReflect(Learn(t, f, expire), facts + {f})
  {
    forall k, ip | k in facts && k.Located?
      ensures ip in Info(Learn(t, f, expire), k.node).ips <==> Addressed(k.at, ip) in facts + {f}
    {
      assert Agree(k, g);
      AddressReachesItsNode(t, facts, f, g, expire, k, ip);
    }
  }

  lemma AddressReachesItsNode(t: Tables, facts: set<Fact>, f: Fact, g: Fact, expire: nat, k: Fact, ip: string)
    requires f.Addressed? && g.Located? && g.at == f.at && k.Located? && Agree(k, g)
    requires f.at in t.hostToNode && t.hostToNode[f.at] == g.node && g.node in t.nodes
    requires ip in Info(t, k.node).ips <==> Addressed(k.at, ip) in facts
    ensures ip in Info(Learn(t, f, expire), k.node).ips <==> Addressed(k.at, ip) in facts + {f}
  {
  }

  lemma UnknownHostGetsAddress(t: Tables, facts: set<Fact>, f: Fact, expire: nat)
    requires f.Addressed? && HostsReflect(t, facts) && AddressesReflect(t, facts) && f.at !in t.hostToNode
    ensures AddressesReflect(Learn(t, f, expire), facts + {f})
  {
    var t' := Learn(t, f, expire);
    forall h, ip | h !in t'.hostToNode
      ensures ip in Parked(t', h) <==> Addressed(h, ip) in facts + {f}
    {
      assert ip in Parked(t, h) <==> Addressed(h, ip) in facts;
    }
    forall k, ip | k in facts && k.Located?
      ensures ip in Info(t', k.node).ips <==> Addressed(k.at, ip) in facts + {f}
    {
      assert ip in Info(t, k.node).ips <==> Addressed(k.at, ip) in facts;
    }
  }

  lemma FactsGrow(service: string, init: seq<Arrival>, a: Arrival)
    ensures var before, after := Facts(service, Records(init)), Facts(service, Records(init + [a]));
            after == if FactOf(service, a.record).Some? then before + {FactOf(service, a.record).value} else before
  {
    assert Records(init + [a]) == Records(init) + {a.record};
  }

  lemma {:induction false} RunReflectsItsFacts(service: string, arrivals: seq<Arrival>)
    requires AllLive(arrivals) && Consistent(Facts(service, Records(arrivals)))
    ensures Reflects(Run(service, arrivals), Facts(service, Records(arrivals)))
  {
    if arrivals != [] {
      var init, a := arrivals[..|arrivals| - 1], arrivals[|arrivals| - 1];
      assert arrivals == init + [a];
      FactsGrow(service, init, a);
      RunReflectsItsFacts(service, init);
      SoundInEveryRun(service, init);
      StepLearnsTheFact(service, Run(service, init), a);
      if FactOf(service, a.record).Some? {
        LearnReflects(Run(service, init), Facts(service, Records(init)), FactOf(service, a.record).value, Expiry(a));
      }
    }
  }

  lemma LearnReflects(t: Tables, facts: set<Fact>, f: Fact, expire: nat)
    requires Reflects(t, facts) && Consistent(facts + {f}) && ParkingSound(t)
    requires forall n | n in t.nodes :: NoDuplicates(t.nodes[n].ips)
    ensures Reflects(Learn(t, f, expire), facts + {f})
  {
    match f {
      case Named(_, _) => LearnNamed(t, facts, f, expire);
      case Located(_, _, _, _, _) => LearnLocated(t, facts, f, expire);
      case Described(_, _, _) => LearnNamed(t, facts, f, expire);
      case Addressed(_, _) => LearnAddressed(t, facts, f, expire);
    }
  }

  // ----- order-independence -----

  predicate SameUpToOrder(a: seq<string>, b: seq<string>) {
    multiset(a) == multiset(b)
  }

  predicate SameInfo(a: NodeInfo, b: NodeInfo) {
    a == b.(ips := a.ips) && SameUpToOrder(a.ips, b.ips)
  }

  /** Equal but for the order of addresses and for the times of expiry. */
  predicate Equivalent(t: Tables, u: Tables) {
    && t.nodes.Keys == u.nodes.Keys
    && (forall n | n in t.nodes :: SameInfo(t.nodes[n], u.nodes[n]))
    && t.instanceToNode == u.instanceToNode && t.hostToNode == u.hostToNode
    && t.pending.Keys == u.pending.Keys
    && (forall h | h in t.pending :: SameUpToOrder(t.pending[h], u.pending[h]))
  }

  lemma {:induction false} Multiplicity(s: seq<string>, x: string)
    requires NoDuplicates(s)
    ensures multiset(s)[x] == if x in s then 1 else 0
  {
    if s != [] {
      var init, last := s[..|s| - 1], s[|s| - 1];
      assert s == init + [last];
      Multiplicity(init, x);
      assert last !in init;
    }
  }

  lemma SameElements(a: seq<string>, b: seq<string>)
    requires NoDuplicates(a) && NoDuplicates(b)
    requires forall x :: x in a <==> x in b
    ensures SameUpToOrder(a, b)
  {
    forall x ensures multiset(a)[x] == multiset(b)[x] {
      Multiplicity(a, x);
      Multiplicity(b, x);
    }
  }

  lemma SameNode(service: string, t: Tables, u: Tables, facts: set<Fact>, n: string)
    requires Sound(service, t) && Sound(service, u)
    requires Reflects(t, facts) && Reflects(u, facts) && n in t.nodes
    ensures n in u.nodes && SameInfo(t.nodes[n], u.nodes[n])
  {
    var f :| f in facts && !f.Addressed? && f.node == n;
    assert n in u.nodes && t.nodes[n].instance == f.instance == u.nodes[n].instance;
    SamePlace(t, u, facts, n);
    SamePayload(t, u, facts, n);
    SameElements(t.nodes[n].ips, u.nodes[n].ips);
  }

  lemma SamePayload(t: Tables, u: Tables, facts: set<Fact>, n: string)
    requires PayloadsReflect(t, facts) && PayloadsReflect(u, facts) && n in t.nodes && n in u.nodes
    ensures t.nodes[n].payload == u.nodes[n].payload
  {
    var mine := Described(n, t.nodes[n].instance, t.nodes[n].payload);
    if mine in facts {
      assert u.nodes[n].payload == mine.payload;
    } else if u.nodes[n].payload != "{}" {
      assert t.nodes[n].payload == Described(n, u.nodes[n].instance, u.nodes[n].payload).payload;
    }
  }

  lemma SamePlace(t: Tables, u: Tables, facts: set<Fact>, n: string)
    requires HostsReflect(t, facts) && HostsReflect(u, facts)
    requires AddressesReflect(t, facts) && AddressesReflect(u, facts) && n in t.nodes && n in u.nodes
    ensures t.nodes[n].host == u.nodes[n].host && t.nodes[n].port == u.nodes[n].port
    ensures forall ip :: ip in t.nodes[n].ips <==> ip in u.nodes[n].ips
  {
    if IsLocated(facts, n) {
      var g :| g in facts && g.Located? && g.node == n;
      forall ip ensures ip in t.nodes[n].ips <==> ip in u.nodes[n].ips {
        assert ip in Info(t, g.node).ips <==> Addressed(g.at, ip) in facts;
        assert ip in Info(u, g.node).ips <==> Addressed(g.at, ip) in facts;
      }
    }
  }

  lemma SameParking(service: string, t: Tables, u: Tables, facts: set<Fact>, h: string)
    requires Sound(service, t) && Sound(service, u)
    requires AddressesReflect(t, facts) && AddressesReflect(u, facts)
    requires t.hostToNode == u.hostToNode && h in t.pending
    ensures h in u.pending && SameUpToOrder(t.pending[h], u.pending[h])
  {
    assert forall ip :: ip in Parked(t, h) <==> ip in Parked(u, h) by {
      forall ip ensures ip in Parked(t, h) <==> ip in Parked(u, h) {
        assert ip in Parked(t, h) <==> Addressed(h, ip) in facts;
      }
    }
    assert Parked(t, h)[0] in Parked(u, h);
    SameElements(t.pending[h], u.pending[h]);
  }

  lemma SameHosts(t: Tables, u: Tables, facts: set<Fact>)
    requires HostsReflect(t, facts) && HostsReflect(u, facts)
    ensures t.hostToNode == u.hostToNode
  {
    forall h | h in t.hostToNode ensures h in u.hostToNode && t.hostToNode[h] == u.hostToNode[h] {
      var f :| f in facts && f.Located? && f.at == h;
    }
    forall h | h in u.hostToNode ensures h in t.hostToNode {
      var f :| f in facts && f.Located? && f.at == h;
    }
  }

  lemma SameNodes(service: string, t: Tables, u: Tables, facts: set<Fact>)
    requires Sound(service, t) && Sound(service, u) && Reflects(t, facts) && Reflects(u, facts)
    ensures t.nodes.Keys == u.nodes.Keys && forall n | n in t.nodes :: SameInfo(t.nodes[n], u.nodes[n])
  {
    forall n | n in t.nodes ensures n in u.nodes && SameInfo(t.nodes[n], u.nodes[n]) {
      SameNode(service, t, u, facts, n);
    }
    forall n | n in u.nodes ensures n in t.nodes {
      SameNode(service, u, t, facts, n);
    }
  }

  lemma SameParkings(service: string, t: Tables, u: Tables, facts: set<Fact>)
    requires Sound(service, t) && Sound(service, u) && t.hostToNode == u.hostToNode
    requires AddressesReflect(t, facts) && AddressesReflect(u, facts)
    ensures t.pending.Keys == u.pending.Keys && forall h | h in t.pending :: SameUpToOrder(t.pending[h], u.pending[h])
  {
    forall h | h in t.pending ensures h in u.pending && SameUpToOrder(t.pending[h], u.pending[h]) {
      SameParking(service, t, u, facts, h);
    }
    forall h | h in u.pending ensures h in t.pending {
      SameParking(service, u, t, facts, h);
    }
  }

  ghost predicate IsNamed(facts: set<Fact>, instance: string) {
    exists f :: f in facts && f.Named? && f.instance == instance
  }

  /** The instances remembered are those some PTR record named. */
  ghost predicate InstancesReflect(t: Tables, facts: set<Fact>) {
    forall i :: i in t.instanceToNode <==> IsNamed(facts, i)
  }

  lemma LearnKeepsInstances(t: Tables, facts: set<Fact>, f: Fact, expire: nat)
    requires InstancesReflect(t, facts)
    ensures InstancesReflect(Learn(t, f, expire), facts + {f})
  {
    forall i ensures IsNamed(facts + {f}, i) <==> IsNamed(facts, i) || (f.Named? && f.instance == i) {
      assert f in facts + {f};
      if IsNamed(facts, i) {
        var g :| g in facts && g.Named? && g.instance == i;
        assert g in facts + {f};
      }
    }
  }

  lemma {:induction false} InstancesOfRun(service: string, arrivals: seq<Arrival>)
    requires AllLive(arrivals)
    ensures InstancesReflect(Run(service, arrivals), Facts(service, Records(arrivals)))
  {
    if arrivals != [] {
      var init, a := arrivals[..|arrivals| - 1], arrivals[|arrivals| - 1];
      assert arrivals == init + [a];
      FactsGrow(service, init, a);
      InstancesOfRun(service, init);
      SoundInEveryRun(service, init);
      StepLearnsTheFact(service, Run(service, init), a);
      if FactOf(service, a.record).Some? {
        LearnKeepsInstances(Run(service, init), Facts(service, Records(init)), FactOf(service, a.record).value, Expiry(a));
      }
    }
  }

  lemma SameInstances(service: string, t: Tables, u: Tables, facts: set<Fact>)
    requires InstancesSound(service, t) && InstancesSound(service, u)
    requires InstancesReflect(t, facts) && InstancesReflect(u, facts)
    ensures t.instanceToNode == u.instanceToNode
  {
    forall i ensures i in t.instanceToNode <==> i in u.instanceToNode {
      assert i in t.instanceToNode <==> IsNamed(facts, i);
    }
  }

  lemma ReflectionIsUnique(service: string, t: Tables, u: Tables, facts: set<Fact>)
    requires Sound(service, t) && Sound(service, u) && Reflects(t, facts) && Reflects(u, facts)
    requires InstancesReflect(t, facts) && InstancesReflect(u, facts)
    ensures Equivalent(t, u)
  {
    SameInstances(service, t, u, facts);
    SameNodes(service, t, u, facts);
    SameHosts(t, u, facts);
    SameParkings(service, t, u, facts);
  }

  /** Two runs of live records that agree with each other lead to the same tables whenever they
      handled the same records, in whatever order and however often each was repeated. */
  lemma OrderAndRepetitionDoNotMatter(service: string, a: seq<Arrival>, b: seq<Arrival>)
    requires AllLive(a) && AllLive(b) && Records(a) == Records(b)
    requires Consistent(Facts(service, Records(a)))
    ensures Equivalent(Run(service, a), Run(service, b))
  {
    RunReflectsItsFacts(service, a);
    RunReflectsItsFacts(service, b);
    InstancesOfRun(service, a);
    InstancesOfRun(service, b);
    SoundInEveryRun(service, a);
    SoundInEveryRun(service, b);
    ReflectionIsUnique(service, Run(service, a), Run(service, b), Facts(service, Records(a)));
  }

  /** Every address announced for a host is, duplicate-free, in exactly one place: at the node
      the host belongs to, or in the parking table while no SRV record has named the host. */
  lemma AddressesAreInOnePlace(service: string, arrivals: seq<Arrival>, host: string, ip: string)
    requires AllLive(arrivals) && Consistent(Facts(service, Records(arrivals)))
    requires Addressed(host, ip) in Facts(service, Records(arrivals))
    ensures var t := Run(service, arrivals);
            if host in t.hostToNode
            then t.hostToNode[host] in t.nodes && ip in t.nodes[t.hostToNode[host]].ips && host !in t.pending
            else host in t.pending && ip in t.pending[host]
  {
    RunReflectsItsFacts(service, arrivals);
    SoundInEveryRun(service, arrivals);
    var t, facts := Run(service, arrivals), Facts(service, Records(arrivals));
    if host in t.hostToNode {
      var f :| f in facts && f.Located? && f.at == host;
      assert ip in Info(t, f.node).ips <==> Addressed(f.at, ip) in facts;
    } else {
      assert ip in Parked(t, host) <==> Addressed(host, ip) in facts;
    }
  }

  // ----- goodbyes -----

  /** Where an address of a host is to be found. */
  predicate Knows(t: Tables, host: string, ip: string) {
    if host in t.hostToNode
    then t.hostToNode[host] in t.nodes && ip in t.nodes[t.hostToNode[host]].ips
    else host in t.pending && ip in t.pending[host]
  }

  lemma LearntAddressIsKnown(service: string, t: Tables, host: string, ip: string, expire: nat)
    requires Sound(service, t)
    ensures Knows(Learn(t, Addressed(host, ip), expire), host, ip)
            <==> (host in t.hostToNode ==> t.hostToNode[host] in t.nodes)
  {
  }

  lemma WithdrawnAddressIsUnknown(service: string, t: Tables, host: string, ip: string)
    requires Sound(service, t)
    ensures Knows(Withdraw(t, host, ip), host, ip) <==> host !in t.hostToNode
  {
    if host in t.hostToNode && t.hostToNode[host] in t.nodes {
      RemoveIpRemoves(t.nodes[t.hostToNode[host]].ips, ip);
    }
  }

  lemma AddressStep(service: string, t: Tables, a: Arrival)
    requires a.record.owner != "" && a.record.content.Address? && a.record.content.ip != ""
    ensures var host, ip := NormHost(a.record.owner), a.record.content.ip;
            Step(service, t, a)
            == if a.ttl > 0 then Learn(t, Addressed(host, ip), Expiry(a)) else Withdraw(t, host, ip)
  {
    var f := FactWith(service, a.record, SrvNode(service, t.instanceToNode, EnsureDot(a.record.owner)));
    assert f == Some(Addressed(NormHost(a.record.owner), a.record.content.ip));
  }

  /** A live address is kept unless its host is known and belongs to a node that said goodbye; a
      withdrawn one is forgotten exactly when its host is known. */
  lemma WhenAnAddressIsKept(service: string, t: Tables, a: Arrival)
    requires Sound(service, t) && a.record.owner != "" && a.record.content.Address? && a.record.content.ip != ""
    ensures var host, ip := NormHost(a.record.owner), a.record.content.ip;
            var t' := Step(service, t, a);
            && (a.ttl > 0 ==> (Knows(t', host, ip) <==> (host in t.hostToNode ==> t.hostToNode[host] in t.nodes)))
            && (a.ttl == 0 ==> (Knows(t', host, ip) <==> host !in t.hostToNode))
  {
    AddressStep(service, t, a);
    LearntAddressIsKnown(service, t, NormHost(a.record.owner), a.record.content.ip, Expiry(a));
    WithdrawnAddressIsUnknown(service, t, NormHost(a.record.owner), a.record.content.ip);
  }

  predicate HostsHaveNodes(t: Tables) {
    forall h | h in t.hostToNode :: t.hostToNode[h] in t.nodes
  }

  /** No goodbye, no lost address: while every record is live the node of a known host is there. */
  lemma {:induction false} KnownHostsHaveNodes(service: string, arrivals: seq<Arrival>)
    requires AllLive(arrivals)
    ensures HostsHaveNodes(Run(service, arrivals))
  {
    if arrivals != [] {
      var init, a := arrivals[..|arrivals| - 1], arrivals[|arrivals| - 1];
      assert a in arrivals && AllLive(init);
      KnownHostsHaveNodes(service, init);
      SoundInEveryRun(service, init);
      StepLearnsTheFact(service, Run(service, init), a);
      if FactOf(service, a.record).Some? {
        LearnKeepsHostsHaveNodes(Run(service, init), FactOf(service, a.record).value, Expiry(a));
      }
    }
  }

  lemma LearnKeepsHostsHaveNodes(t: Tables, f: Fact, expire: nat)
    requires HostsHaveNodes(t)
    ensures HostsHaveNodes(Learn(t, f, expire))
  {
  }
}
