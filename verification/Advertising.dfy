/** Announcements, and what a receiver makes of them. */
module Advertising {
  import opened Values
  import opened Discovery
  import opened DiscoveryOrder

  lemma LoweredInstance(service: string, nodeId: string)
    requires service == EnsureDot(service)
    ensures EnsureDot(nodeId + "." + service) == nodeId + "." + service
    ensures EnsureDot(Lower(nodeId + "." + service)) == Lower(nodeId) + "." + Lower(service)
    ensures EnsureDot(Lower(service)) == Lower(service)
  {
    assert (nodeId + "." + service)[|nodeId|] == '.';
    LowerConcat(nodeId + ".", service);
    LowerConcat(nodeId, ".");
    assert Lower(".") == ".";
    assert |service| > 0 ==> Lower(service)[|service| - 1] == '.';
  }

  lemma LastPart(a: string, b: string)
    requires IsLower(b)
    ensures EndsWith(a + b, b) && (a + b)[..|a + b| - |b|] == a
  {
    assert (a + b)[|a + b| - |b|..] == b;
  }

  /** Building an instance name and taking the node id out of it again. */
  lemma NodeIdRoundTrip(service: string, nodeId: string)
    requires service == EnsureDot(service)
    ensures NodeIdFromInstance(service, EnsureDot(nodeId + "." + service)) == Lower(nodeId)
  {
    LoweredInstance(service, nodeId);
    LowerIsIdempotent(service);
    LastPart(Lower(nodeId) + ".", Lower(service));
    assert (Lower(nodeId) + ".")[..|nodeId|] == Lower(nodeId);
  }

  /** What a node advertises; the payload is "{}" when none is given. */
  datatype Advert = Advert(nodeId: string, port: nat, payload: string, ips: seq<string>)

  function InstanceOf(service: string, nodeId: string): string {
    EnsureDot(nodeId + "." + service)
  }

  function HostOf(nodeId: string): string {
    EnsureDot(nodeId + ".local.")
  }

  function PayloadOf(ad: Advert): string {
    if ad.payload == "" then "{}" else ad.payload
  }

  /** The addresses that fit: an announcement has room for 32 additional records, three of which
      are the SRV and the two TXT strings.  `printed` is how a receiver prints an address, if it
      is one at all. */
  function Announced(ips: seq<string>, printed: map<string, string>): (r: seq<string>)
    ensures |r| <= 29
  {
    if ips == [] then []
    else
      var init, ip := Announced(ips[..|ips| - 1], printed), ips[|ips| - 1];
      if |init| < 29 && ip in printed then init + [printed[ip]] else init
  }

  function PtrOf(service: string, ad: Advert): Record {
    Record(service, Ptr(InstanceOf(service, ad.nodeId)))
  }

  function SrvOf(service: string, ad: Advert): Record {
    Record(InstanceOf(service, ad.nodeId), Srv(HostOf(ad.nodeId), ad.port))
  }

  function TxtOf(service: string, ad: Advert): Record {
    Record(InstanceOf(service, ad.nodeId), Txt([("node_id", ad.nodeId), ("payload", PayloadOf(ad))]))
  }

  function Announcement(service: string, ad: Advert, printed: map<string, string>): set<Record> {
    {PtrOf(service, ad), SrvOf(service, ad), TxtOf(service, ad)}
    + set ip | ip in Announced(ad.ips, printed) :: Record(HostOf(ad.nodeId), Address(ip))
  }

  function NamedBy(service: string, ad: Advert): Fact {
    Named(Lower(ad.nodeId), InstanceOf(service, ad.nodeId))
  }

  function LocatedBy(service: string, ad: Advert): Fact {
    Located(Lower(ad.nodeId), InstanceOf(service, ad.nodeId), HostOf(ad.nodeId), NormHost(HostOf(ad.nodeId)), ad.port)
  }

  function DescribedBy(service: string, ad: Advert): Fact {
    Described(Lower(ad.nodeId), InstanceOf(service, ad.nodeId), PayloadOf(ad))
  }

  /** The facts an announcement carries. */
  predicate Carries(service: string, ad: Advert, printed: map<string, string>, f: Fact) {
    || f == NamedBy(service, ad)
    || f == LocatedBy(service, ad)
    || f == DescribedBy(service, ad)
    || (f.Addressed? && f.at == NormHost(HostOf(ad.nodeId)) && f.ip in Announced(ad.ips, printed))
  }

  ghost predicate Printable(printed: map<string, string>) {
    forall ip | ip in printed :: printed[ip] != ""
  }

  lemma {:induction false} AnnouncedArePrinted(ips: seq<string>, printed: map<string, string>)
    requires Printable(printed)
    ensures "" !in Announced(ips, printed)
  {
    if ips != [] {
      AnnouncedArePrinted(ips[..|ips| - 1], printed);
    }
  }

  /** Names built with the service type are recognised as names of the service. */
  lemma NamesEndWithService(service: string, nodeId: string)
    requires service == EnsureDot(service)
    ensures var instance := InstanceOf(service, nodeId);
            && instance == nodeId + "." + service && EnsureDot(instance) == instance
            && EndsWith(instance, service) && EndsWith(service, service)
  {
    var instance := nodeId + "." + service;
    assert instance[|instance| - |service|..] == service;
    assert service[|service| - |service|..] == service;
  }

  /** The two strings of the TXT record are read back as they were written. */
  lemma TxtReadsBack(nodeId: string, payload: string)
    requires nodeId != "" && payload != ""
    ensures var pairs := [("node_id", nodeId), ("payload", payload)];
            LastValue(pairs, "node_id", "") == nodeId && LastValue(pairs, "payload", "{}") == payload
  {
    var pairs := [("node_id", nodeId), ("payload", payload)];
    assert pairs[..1] == [("node_id", nodeId)];
    assert LastValue(pairs[..1], "node_id", "") == nodeId;
    assert "node_id" != "payload" by { assert "node_id"[0] != "payload"[0]; }
  }

  lemma PtrCarries(service: string, ad: Advert)
    requires service == EnsureDot(service) && service != "" && ad.nodeId != ""
    ensures FactOf(service, PtrOf(service, ad)) == Some(NamedBy(service, ad))
  {
    NodeIdRoundTrip(service, ad.nodeId);
    NamesEndWithService(service, ad.nodeId);
  }

  lemma SrvCarries(service: string, ad: Advert)
    requires service == EnsureDot(service) && ad.nodeId != ""
    ensures FactOf(service, SrvOf(service, ad)) == Some(LocatedBy(service, ad))
  {
    var instance := InstanceOf(service, ad.nodeId);
    var node := NodeIdFromInstance(service, instance);
    assert node == Lower(ad.nodeId) by { NodeIdRoundTrip(service, ad.nodeId); }
    NamesEndWithService(service, ad.nodeId);
    assert HostOf(ad.nodeId) != "" && node != "";
  }

  lemma TxtCarries(service: string, ad: Advert)
    requires service == EnsureDot(service) && ad.nodeId != ""
    ensures FactOf(service, TxtOf(service, ad)) == Some(DescribedBy(service, ad))
  {
    NamesEndWithService(service, ad.nodeId);
    TxtReadsBack(ad.nodeId, PayloadOf(ad));
  }

  lemma AnnouncementCarriesFacts(service: string, ad: Advert, printed: map<string, string>, r: Record)
    requires service == EnsureDot(service) && service != "" && ad.nodeId != "" && Printable(printed)
    requires r in Announcement(service, ad, printed)
    ensures FactOf(service, r).Some? && Carries(service, ad, printed, FactOf(service, r).value)
  {
    if r == PtrOf(service, ad) {
      PtrCarries(service, ad);
    } else if r == SrvOf(service, ad) {
      SrvCarries(service, ad);
    } else if r == TxtOf(service, ad) {
      TxtCarries(service, ad);
    } else {
      AnnouncedArePrinted(ad.ips, printed);
      AddressCarries(HostOf(ad.nodeId), r.content.ip, service);
    }
  }

  lemma AddressCarries(host: string, ip: string, service: string)
    requires host != "" && ip != ""
    ensures FactOf(service, Record(host, Address(ip))) == Some(Addressed(NormHost(host), ip))
  {
  }

  /** Different node ids have different hosts, even after normalisation. */
  lemma HostsDiffer(a: string, b: string)
    requires NormHost(HostOf(a)) == NormHost(HostOf(b))
    ensures Lower(a) == Lower(b)
  {
    LowerConcat(a, ".local.");
    LowerConcat(b, ".local.");
    assert HostOf(a) == a + ".local." && HostOf(b) == b + ".local.";
    assert NormHost(HostOf(a)) == Lower(a) + Lower(".local.");
    assert NormHost(HostOf(b)) == Lower(b) + Lower(".local.");
    assert Lower(a) == NormHost(HostOf(a))[..|a|];
    assert Lower(b) == NormHost(HostOf(b))[..|b|];
  }

  ghost predicate DistinctIds(ads: set<Advert>) {
    && (forall a | a in ads :: a.nodeId != "")
    && (forall a, b | a in ads && b in ads && Lower(a.nodeId) == Lower(b.nodeId) :: a == b)
  }

  ghost predicate Advertised(service: string, ads: set<Advert>, printed: map<string, string>, r: Record) {
    exists ad :: ad in ads && r in Announcement(service, ad, printed)
  }

  lemma FactsAreCarried(service: string, ads: set<Advert>, printed: map<string, string>, records: set<Record>, f: Fact)
    requires service == EnsureDot(service) && service != "" && DistinctIds(ads) && Printable(printed)
    requires forall r | r in records :: Advertised(service, ads, printed, r)
    requires f in Facts(service, records)
    ensures exists ad :: ad in ads && Carries(service, ad, printed, f)
  {
    var r :| r in records && FactOf(service, r).Some? && FactOf(service, r).value == f;
    var ad :| ad in ads && r in Announcement(service, ad, printed);
    AnnouncementCarriesFacts(service, ad, printed, r);
  }

  lemma CarriedFactsAgree(service: string, a: Advert, b: Advert, printed: map<string, string>, f: Fact, g: Fact)
    requires Lower(a.nodeId) == Lower(b.nodeId) ==> a == b
    requires Carries(service, a, printed, f) && Carries(service, b, printed, g)
    ensures Agree(f, g)
  {
    if NormHost(HostOf(a.nodeId)) == NormHost(HostOf(b.nodeId)) {
      HostsDiffer(a.nodeId, b.nodeId);
    }
  }

  /** Announcements of nodes with distinct ids never contradict each other. */
  lemma AnnouncementsAgree(service: string, ads: set<Advert>, printed: map<string, string>, records: set<Record>)
    requires service == EnsureDot(service) && service != "" && DistinctIds(ads) && Printable(printed)
    requires forall r | r in records :: Advertised(service, ads, printed, r)
    ensures Consistent(Facts(service, records))
  {
    forall f, g | f in Facts(service, records) && g in Facts(service, records) ensures Agree(f, g) {
      FactsAreCarried(service, ads, printed, records, f);
      FactsAreCarried(service, ads, printed, records, g);
      var a :| a in ads && Carries(service, a, printed, f);
      var b :| b in ads && Carries(service, b, printed, g);
      CarriedFactsAgree(service, a, b, printed, f, g);
    }
  }

  /** What a receiver should end up with for an advertised node. */
  predicate IsInfoOf(service: string, ad: Advert, printed: map<string, string>, info: NodeInfo) {
    && info == NodeInfo(Lower(ad.nodeId), InstanceOf(service, ad.nodeId), HostOf(ad.nodeId), ad.port,
                        if ad.payload == "" then "{}" else ad.payload, info.ips)
    && NoDuplicates(info.ips)
    && (forall ip | ip in info.ips :: ip in Announced(ad.ips, printed))
    && (forall ip | ip in Announced(ad.ips, printed) :: ip in info.ips)
  }

  /** Discovery works: once every record of a node's announcement has arrived, in any order, any
      number of times and mixed with the announcements of other nodes, the cache holds exactly
      what the node advertised, and the node resolves if it has a port and an address. */
  lemma AdvertisedNodesAreFound(service: string, ads: set<Advert>, printed: map<string, string>,
                                arrivals: seq<Arrival>, ad: Advert)
    requires service == EnsureDot(service) && service != "" && DistinctIds(ads) && Printable(printed)
    requires AllLive(arrivals)
    requires forall r | r in Records(arrivals) :: Advertised(service, ads, printed, r)
    requires ad in ads && Announcement(service, ad, printed) <= Records(arrivals)
    ensures var t, node := Run(service, arrivals), Lower(ad.nodeId);
            && node in t.nodes && IsInfoOf(service, ad, printed, t.nodes[node])
            && (Resolves(t, node) <==> ad.port != 0 && Announced(ad.ips, printed) != [])
  {
    var records := Records(arrivals);
    var facts := Facts(service, records);
    AnnouncementsAgree(service, ads, printed, records);
    RunReflectsItsFacts(service, arrivals);
    SoundInEveryRun(service, arrivals);
    AnnouncementIsLearnt(service, ads, printed, records, Run(service, arrivals), ad);
  }

  /** Whether the node is found under the id it was given: exactly when that id has no upper-case
      letter and the node a port and an address. */
  lemma FoundUnderItsOwnId(service: string, ads: set<Advert>, printed: map<string, string>,
                           arrivals: seq<Arrival>, ad: Advert)
    requires service == EnsureDot(service) && service != "" && DistinctIds(ads) && Printable(printed)
    requires AllLive(arrivals)
    requires forall r | r in Records(arrivals) :: Advertised(service, ads, printed, r)
    requires ad in ads && Announcement(service, ad, printed) <= Records(arrivals)
    ensures Resolves(Run(service, arrivals), ad.nodeId)
            <==> ad.nodeId == Lower(ad.nodeId) && ad.port != 0 && Announced(ad.ips, printed) != []
  {
    OnlyLowerCaseIdsResolve(service, arrivals, ad.nodeId);
    AdvertisedNodesAreFound(service, ads, printed, arrivals, ad);
  }

  /** The facts of a complete announcement are among those handled, and no other address of its host. */
  lemma AnnouncementFacts(service: string, ads: set<Advert>, printed: map<string, string>,
                          records: set<Record>, ad: Advert)
    requires service == EnsureDot(service) && service != "" && DistinctIds(ads) && Printable(printed)
    requires forall r | r in records :: Advertised(service, ads, printed, r)
    requires ad in ads && Announcement(service, ad, printed) <= records
    ensures LocatedBy(service, ad) in Facts(service, records)
    ensures DescribedBy(service, ad) in Facts(service, records)
    ensures forall ip :: Addressed(NormHost(HostOf(ad.nodeId)), ip) in Facts(service, records)
                         <==> ip in Announced(ad.ips, printed)
  {
    SrvCarries(service, ad);
    TxtCarries(service, ad);
    assert SrvOf(service, ad) in records && TxtOf(service, ad) in records;
    forall ip ensures Addressed(NormHost(HostOf(ad.nodeId)), ip) in Facts(service, records)
                      <==> ip in Announced(ad.ips, printed)
    {
      AnnouncedAddress(service, ads, printed, records, ad, ip);
    }
  }

  lemma AnnouncedIsHandled(service: string, printed: map<string, string>, records: set<Record>, ad: Advert, ip: string)
    requires Printable(printed) && Announcement(service, ad, printed) <= records
    requires ip in Announced(ad.ips, printed)
    ensures Addressed(NormHost(HostOf(ad.nodeId)), ip) in Facts(service, records)
  {
    AnnouncedArePrinted(ad.ips, printed);
    var r := Record(HostOf(ad.nodeId), Address(ip));
    AddressCarries(HostOf(ad.nodeId), ip, service);
    assert r in Announcement(service, ad, printed);
  }

  lemma AnnouncedAddress(service: string, ads: set<Advert>, printed: map<string, string>,
                         records: set<Record>, ad: Advert, ip: string)
    requires service == EnsureDot(service) && service != "" && DistinctIds(ads) && Printable(printed)
    requires forall r | r in records :: Advertised(service, ads, printed, r)
    requires ad in ads && Announcement(service, ad, printed) <= records
    ensures Addressed(NormHost(HostOf(ad.nodeId)), ip) in Facts(service, records)
            <==> ip in Announced(ad.ips, printed)
  {
    if ip in Announced(ad.ips, printed) {
      AnnouncedIsHandled(service, printed, records, ad, ip);
    } else if Addressed(NormHost(HostOf(ad.nodeId)), ip) in Facts(service, records) {
      OnlyAnnouncedAddresses(service, ads, printed, records, ad, ip);
    }
  }

  lemma OnlyAnnouncedAddresses(service: string, ads: set<Advert>, printed: map<string, string>,
                               records: set<Record>, ad: Advert, ip: string)
    requires service == EnsureDot(service) && service != "" && DistinctIds(ads) && Printable(printed)
    requires forall r | r in records :: Advertised(service, ads, printed, r)
    requires ad in ads && Addressed(NormHost(HostOf(ad.nodeId)), ip) in Facts(service, records)
    ensures ip in Announced(ad.ips, printed)
  {
    var f := Addressed(NormHost(HostOf(ad.nodeId)), ip);
    FactsAreCarried(service, ads, printed, records, f);
    var other :| other in ads && Carries(service, other, printed, f);
    HostsDiffer(ad.nodeId, other.nodeId);
  }

  lemma AnnouncementIsLearnt(service: string, ads: set<Advert>, printed: map<string, string>,
                             records: set<Record>, t: Tables, ad: Advert)
    requires service == EnsureDot(service) && service != "" && DistinctIds(ads) && Printable(printed)
    requires forall r | r in records :: Advertised(service, ads, printed, r)
    requires ad in ads && Announcement(service, ad, printed) <= records
    requires Reflects(t, Facts(service, records)) && Sound(service, t)
    ensures var node := Lower(ad.nodeId);
            && node in t.nodes && IsInfoOf(service, ad, printed, t.nodes[node])
            && (Resolves(t, node) <==> ad.port != 0 && Announced(ad.ips, printed) != [])
  {
    AnnouncementFacts(service, ads, printed, records, ad);
    FactsAreLearnt(service, printed, Facts(service, records), t, ad);
  }

  lemma FactsAreLearnt(service: string, printed: map<string, string>, facts: set<Fact>, t: Tables, ad: Advert)
    requires LocatedBy(service, ad) in facts && DescribedBy(service, ad) in facts
    requires forall ip :: Addressed(NormHost(HostOf(ad.nodeId)), ip) in facts <==> ip in Announced(ad.ips, printed)
    requires Reflects(t, facts) && NodesSound(t)
    ensures var node := Lower(ad.nodeId);
            && node in t.nodes && IsInfoOf(service, ad, printed, t.nodes[node])
            && (Resolves(t, node) <==> ad.port != 0 && Announced(ad.ips, printed) != [])
  {
    var node, located := Lower(ad.nodeId), LocatedBy(service, ad);
    forall ip ensures ip in Info(t, node).ips <==> ip in Announced(ad.ips, printed) {
      assert ip in Info(t, located.node).ips <==> Addressed(located.at, ip) in facts;
    }
    EmptyTogether(Info(t, node).ips, Announced(ad.ips, printed));
    assert PlacedAs(t, located);
  }

  lemma EmptyTogether(a: seq<string>, b: seq<string>)
    requires forall ip :: ip in a <==> ip in b
    ensures a == [] <==> b == []
  {
    assert a != [] ==> a[0] in b;
    assert b != [] ==> b[0] in a;
  }

  /** Why goodbyes are left out above: the host of a node outlives it, so when the node comes back
      an address handled before its SRV record is lost, and one handled after it is not. */
  lemma ReturnAfterGoodbyeDependsOnOrder(service: string, t: Tables, srv: Arrival, address: Arrival, ip: string)
    requires Sound(service, t) && srv.ttl > 0 && address.ttl > 0
    requires FactOf(service, srv.record).Some? && FactOf(service, srv.record).value.Located?
    requires var f := FactOf(service, srv.record).value;
             && FactOf(service, address.record) == Some(Addressed(f.at, ip))
             && f.at in t.hostToNode && t.hostToNode[f.at] == f.node
    ensures var f := FactOf(service, srv.record).value;
            var gone := Forget(t, f.node, f.instance);
            && !Knows(Step(service, Step(service, gone, address), srv), f.at, ip)
            && Knows(Step(service, Step(service, gone, srv), address), f.at, ip)
  {
    var f := FactOf(service, srv.record).value;
    var gone := Forget(t, f.node, f.instance);
    ForgetKeepsSound(service, t, f.node, f.instance);
    TwoSteps(service, gone, address, srv);
    TwoSteps(service, gone, srv, address);
    LostOrKept(service, gone, f, ip, Expiry(srv), Expiry(address));
  }

  lemma TwoSteps(service: string, t: Tables, a: Arrival, b: Arrival)
    requires Sound(service, t) && a.ttl > 0 && b.ttl > 0
    requires FactOf(service, a.record).Some? && FactOf(service, b.record).Some?
    ensures Step(service, Step(service, t, a), b)
            == Learn(Learn(t, FactOf(service, a.record).value, Expiry(a)), FactOf(service, b.record).value, Expiry(b))
  {
    StepLearnsTheFact(service, t, a);
    StepKeepsSound(service, t, a);
    StepLearnsTheFact(service, Step(service, t, a), b);
  }

  lemma LostOrKept(service: string, t: Tables, f: Fact, ip: string, e1: nat, e2: nat)
    requires Sound(service, t) && f.Located? && f.at in t.hostToNode
    requires t.hostToNode[f.at] == f.node && f.node !in t.nodes
    ensures var host := f.at;
            && !Knows(Learn(Learn(t, Addressed(host, ip), e2), f, e1), host, ip)
            && Knows(Learn(Learn(t, f, e1), Addressed(host, ip), e2), host, ip)
  {
    var host := f.at;
    assert Learn(t, Addressed(host, ip), e2) == t;
    assert Parked(t, host) == [] && Info(t, f.node).ips == [] && AddIps([], []) == [];
  }

  /** What the goodbye of an advertised node does: its host stays behind. */
  lemma GoodbyeForgets(service: string, t: Tables, ad: Advert, now: nat)
    requires service == EnsureDot(service) && service != "" && ad.nodeId != ""
    ensures Step(service, t, Arrival(PtrOf(service, ad), 0, now))
            == Forget(t, Lower(ad.nodeId), InstanceOf(service, ad.nodeId))
  {
    NodeIdRoundTrip(service, ad.nodeId);
    NamesEndWithService(service, ad.nodeId);
  }

  function Live(r: Record, now: nat): Arrival {
    Arrival(r, 120, now)
  }

  function AddressOf(ad: Advert, ip: string): Record {
    Record(HostOf(ad.nodeId), Address(ip))
  }

  lemma OneMoreArrival(service: string, arrivals: seq<Arrival>, a: Arrival)
    ensures Run(service, arrivals + [a]) == Step(service, Run(service, arrivals), a)
  {
    assert (arrivals + [a])[..|arrivals|] == arrivals;
  }

  /** A node that says goodbye and returns, from an empty cache on: its address is known, then lost when
      it comes before the SRV record, and known again when it comes after it. */
  lemma AReturnExample(service: string, ad: Advert, ip: string, now: nat)
    requires service == EnsureDot(service) && service != "" && ad.nodeId != "" && ip != ""
    ensures var host, address, srv := NormHost(HostOf(ad.nodeId)), Live(AddressOf(ad, ip), now), Live(SrvOf(service, ad), now);
            var left := [srv] + [Arrival(PtrOf(service, ad), 0, now)];
            && Knows(Run(service, [srv] + [address]), host, ip)
            && !Knows(Run(service, left + [address] + [srv]), host, ip)
            && Knows(Run(service, left + [srv] + [address]), host, ip)
  {
    var address, srv := Live(AddressOf(ad, ip), now), Live(SrvOf(service, ad), now);
    var goodbye := Arrival(PtrOf(service, ad), 0, now);
    LocatedFromNothing(service, ad, now);
    AddressCarries(HostOf(ad.nodeId), ip, service);
    SrvCarries(service, ad);
    KnownAtFirst(service, ad, ip, now);
    OneMoreArrival(service, [srv], goodbye);
    GoodbyeForgets(service, Run(service, [srv]), ad, now);
    ReturnAfterGoodbyeDependsOnOrder(service, Run(service, [srv]), srv, address, ip);
    TwoMoreArrivals(service, [srv] + [goodbye], address, srv);
    TwoMoreArrivals(service, [srv] + [goodbye], srv, address);
  }

  lemma TwoMoreArrivals(service: string, arrivals: seq<Arrival>, a: Arrival, b: Arrival)
    ensures Run(service, arrivals + [a] + [b]) == Step(service, Step(service, Run(service, arrivals), a), b)
  {
    OneMoreArrival(service, arrivals, a);
    OneMoreArrival(service, arrivals + [a], b);
  }

  lemma KnownAtFirst(service: string, ad: Advert, ip: string, now: nat)
    requires service == EnsureDot(service) && ad.nodeId != "" && ip != ""
    ensures Knows(Run(service, [Live(SrvOf(service, ad), now)] + [Live(AddressOf(ad, ip), now)]),
                  NormHost(HostOf(ad.nodeId)), ip)
  {
    var srv, address := Live(SrvOf(service, ad), now), Live(AddressOf(ad, ip), now);
    LocatedFromNothing(service, ad, now);
    AddressCarries(HostOf(ad.nodeId), ip, service);
    OneMoreArrival(service, [srv], address);
    StepLearnsTheFact(service, Run(service, [srv]), address);
    LearntAddressIsKnown(service, Run(service, [srv]), NormHost(HostOf(ad.nodeId)), ip, Expiry(address));
  }

  lemma LocatedFromNothing(service: string, ad: Advert, now: nat)
    requires service == EnsureDot(service) && ad.nodeId != ""
    ensures var t, f := Run(service, [Live(SrvOf(service, ad), now)]), LocatedBy(service, ad);
            && Sound(service, t) && f.at in t.hostToNode && t.hostToNode[f.at] == f.node && f.node in t.nodes
  {
    var srv := Live(SrvOf(service, ad), now);
    SoundInEveryRun(service, [srv]);
    assert [] + [srv] == [srv];
    OneMoreArrival(service, [], srv);
    SrvCarries(service, ad);
    StepLearnsTheFact(service, EMPTY, srv);
  }

  /** The addresses a receiver could print, in order. */
  function Printed(ips: seq<string>, printed: map<string, string>): seq<string> {
    if ips == [] then []
    else (if ips[0] in printed then [printed[ips[0]]] else []) + Printed(ips[1..], printed)
  }

  lemma {:induction false} PrintedSnoc(ips: seq<string>, ip: string, printed: map<string, string>)
    ensures Printed(ips + [ip], printed) == Printed(ips, printed) + if ip in printed then [printed[ip]] else []
  {
    if ips == [] {
      assert ips + [ip] == [ip] && [ip][1..] == [];
    } else {
      assert (ips + [ip])[1..] == ips[1..] + [ip];
      PrintedSnoc(ips[1..], ip, printed);
    }
  }

  /** What is announced is the first of them, as many as fit. */
  lemma {:induction false} AnnouncesTheFirst(ips: seq<string>, printed: map<string, string>)
    ensures var all := Printed(ips, printed);
            Announced(ips, printed) == if |all| <= 29 then all else all[..29]
  {
    if ips != [] {
      var init, ip := ips[..|ips| - 1], ips[|ips| - 1];
      assert ips == init + [ip];
      PrintedSnoc(init, ip, printed);
      AnnouncesTheFirst(init, printed);
    }
  }

  /** Over runs: the goodbye of one advertised node changes no other node's answer. */
  lemma GoodbyeSparesTheOthers(service: string, arrivals: seq<Arrival>, ad: Advert, now: nat, other: string)
    requires service == EnsureDot(service) && service != "" && ad.nodeId != "" && other != Lower(ad.nodeId)
    ensures var before := Run(service, arrivals);
            var after := Run(service, arrivals + [Arrival(PtrOf(service, ad), 0, now)]);
            && (Resolves(after, other) <==> Resolves(before, other)) && !Resolves(after, Lower(ad.nodeId))
            && (other in after.nodes <==> other in before.nodes)
            && (other in after.nodes ==> after.nodes[other] == before.nodes[other])
  {
    OneMoreArrival(service, arrivals, Arrival(PtrOf(service, ad), 0, now));
    NodeIdRoundTrip(service, ad.nodeId);
    NamesEndWithService(service, ad.nodeId);
    GoodbyeTakesOneExactly(service, Run(service, arrivals), PtrOf(service, ad), now, Lower(ad.nodeId),
                           InstanceOf(service, ad.nodeId));
  }
}
