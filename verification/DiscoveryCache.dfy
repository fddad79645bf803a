/** The record cache and the announcement builder as the discovery service runs them: maps and
    lists changed in place, each operation tied to its step in Discovery and Advertising. */
module DiscoveryCache {
  import opened Values
  import opened Discovery
  import opened Advertising

  class Cache {
    const service: string
    var nodes: map<string, NodeInfo>
    var instanceToNode: map<string, string>
    var hostToNode: map<string, string>
    var pendingIpsByHost: map<string, seq<string>>
    var expireMsByNode: map<string, nat>

    function Model(): Tables
      reads this
    {
      Tables(nodes, instanceToNode, hostToNode, pendingIpsByHost, expireMsByNode)
    }

    constructor (serviceType: string)
      ensures service == EnsureDot(serviceType)
      ensures Model() == EMPTY
    {
      service := EnsureDot(serviceType);
      nodes, instanceToNode, hostToNode := map[], map[], map[];
      pendingIpsByHost, expireMsByNode := map[], map[];
    }

    /** One answer, authority or additional record. */
    method HandleRecord(a: Arrival)
      modifies this
      ensures Model() == Step(service, old(Model()), a)
    {
      var owner := a.record.owner;
      if owner == "" { return; }
      match a.record.content {
        case Ptr(inst) => HandlePtr(a, owner, inst);
        case Srv(host, port) => HandleSrv(a, EnsureDot(owner), host, port);
        case Txt(pairs) => HandleTxt(a, EnsureDot(owner), pairs);
        case Address(ip) => HandleAddress(a, owner, ip);
      }
    }

    method HandlePtr(a: Arrival, owner: string, inst: string)
      modifies this
      ensures Model() == ApplyIfAny(old(Model()), PtrFact(service, owner, inst), a)
    {
      if inst == "" || !EndsWith(owner, service) || !EndsWith(inst, service) { return; }
      var nodeId := NodeIdFromInstance(service, inst);
      if nodeId == "" { return; }
      NameNode(a, nodeId, inst);
    }

    /** The locked part of a PTR record. */
    method NameNode(a: Arrival, nodeId: string, inst: string)
      modifies this
      ensures Model() == Apply(old(Model()), Named(nodeId, inst), a)
    {
      if a.ttl == 0 {
        Erase(nodeId, inst);
        return;
      }
      nodes := nodes[nodeId := Info(Model(), nodeId).(nodeId := nodeId, instance := inst)];
      instanceToNode := instanceToNode[inst := nodeId];
      expireMsByNode := expireMsByNode[nodeId := Expiry(a)];
    }

    method HandleSrv(a: Arrival, instance: string, host: string, port: nat)
      modifies this
      ensures Model() == ApplyIfAny(old(Model()), SrvFact(service, instance, host, port,
                                                          SrvNode(service, old(instanceToNode), instance)), a)
    {
      if host == "" || !EndsWith(instance, service) { return; }
      var nodeId := if instance in instanceToNode then instanceToNode[instance]
                    else NodeIdFromInstance(service, instance);
      if nodeId == "" { return; }
      LocateNode(a, nodeId, instance, host, NormHost(host), port);
    }

    /** The locked part of a SRV record. */
    method LocateNode(a: Arrival, nodeId: string, instance: string, host: string, hostNorm: string, port: nat)
      modifies this
      ensures Model() == Apply(old(Model()), Located(nodeId, instance, host, hostNorm, port), a)
    {
      if a.ttl == 0 {
        Erase(nodeId, instance);
        return;
      }
      var info := Info(Model(), nodeId).(nodeId := nodeId, instance := instance, host := host, port := port);
      hostToNode := hostToNode[hostNorm := nodeId];
      if hostNorm in pendingIpsByHost {
        var ips := MergeIps(info.ips, pendingIpsByHost[hostNorm]);
        info := info.(ips := ips);
        pendingIpsByHost := Omit(pendingIpsByHost, hostNorm);
      } else {
        assert Omit(pendingIpsByHost, hostNorm) == pendingIpsByHost;
      }
      nodes := nodes[nodeId := info];
      expireMsByNode := expireMsByNode[nodeId := Expiry(a)];
    }

    method HandleTxt(a: Arrival, instance: string, pairs: seq<(string, string)>)
      modifies this
      ensures Model() == ApplyIfAny(old(Model()), TxtFact(service, instance, pairs), a)
    {
      if !EndsWith(instance, service) { return; }
      var nodeId := NodeIdFromInstance(service, instance);
      var given, payload := ReadPairs(pairs);
      if given != "" {
        nodeId := Lower(given);
      }
      if nodeId == "" { return; }
      DescribeNode(a, nodeId, instance, payload);
    }

    /** The locked part of a TXT record. */
    method DescribeNode(a: Arrival, nodeId: string, instance: string, payload: string)
      modifies this
      ensures Model() == Apply(old(Model()), Described(nodeId, instance, payload), a)
    {
      if a.ttl == 0 {
        Erase(nodeId, instance);
        return;
      }
      nodes := nodes[nodeId := Info(Model(), nodeId).(nodeId := nodeId, instance := instance, payload := payload)];
      expireMsByNode := expireMsByNode[nodeId := Expiry(a)];
    }

    method HandleAddress(a: Arrival, owner: string, ip: string)
      modifies this
      ensures Model() == ApplyIfAny(old(Model()), AddressFact(owner, ip), a)
    {
      if ip == "" { return; }
      PlaceAddress(a, NormHost(owner), ip);
    }

    /** The locked part of an A or AAAA record. */
    method PlaceAddress(a: Arrival, hostNorm: string, ip: string)
      modifies this
      ensures Model() == Apply(old(Model()), Addressed(hostNorm, ip), a)
    {
      if hostNorm !in hostToNode {
        var parked := if hostNorm in pendingIpsByHost then pendingIpsByHost[hostNorm] else [];
        if ip !in parked {
          parked := parked + [ip];
        }
        pendingIpsByHost := pendingIpsByHost[hostNorm := parked];
        return;
      }
      var nodeId := hostToNode[hostNorm];
      if nodeId !in nodes { return; }
      var ips := nodes[nodeId].ips;
      if a.ttl == 0 {
        ips := EraseIp(ips, ip);
        nodes := nodes[nodeId := nodes[nodeId].(ips := ips)];
      } else {
        if ip !in ips {
          ips := ips + [ip];
        }
        nodes := nodes[nodeId := nodes[nodeId].(ips := ips)];
        expireMsByNode := expireMsByNode[nodeId := Expiry(a)];
      }
    }

    method Erase(nodeId: string, instance: string)
      modifies this
      ensures Model() == Forget(old(Model()), nodeId, instance)
    {
      nodes := Omit(nodes, nodeId);
      instanceToNode := Omit(instanceToNode, instance);
      expireMsByNode := Omit(expireMsByNode, nodeId);
    }

    /** resolve_node after its wait: found, with the entry, or not. */
    method ResolveNode(nodeId: string) returns (r: Option<NodeInfo>)
      ensures r.Some? <==> Resolves(Model(), nodeId)
      ensures r.Some? ==> r.value == nodes[nodeId]
    {
      if nodeId in nodes && IsResolved(nodes[nodeId]) {
        r := Some(nodes[nodeId]);
      } else {
        r := None;
      }
    }
  }

  method MergeIps(ips: seq<string>, more: seq<string>) returns (r: seq<string>)
    ensures r == AddIps(ips, more)
  {
    r := ips;
    for k := 0 to |more|
      invariant r == AddIps(ips, more[..k])
    {
      assert more[..k + 1][..k] == more[..k];
      if more[k] !in r {
        r := r + [more[k]];
      }
    }
    assert more[..|more|] == more;
  }

  method EraseIp(ips: seq<string>, ip: string) returns (r: seq<string>)
    ensures r == RemoveIp(ips, ip)
  {
    r := [];
    for k := 0 to |ips|
      invariant r == RemoveIp(ips[..k], ip)
    {
      assert ips[..k + 1][..k] == ips[..k];
      if ips[k] != ip {
        r := r + [ips[k]];
      }
    }
    assert ips[..|ips|] == ips;
  }

  method ReadPairs(pairs: seq<(string, string)>) returns (nodeId: string, payload: string)
    ensures nodeId == LastValue(pairs, "node_id", "")
    ensures payload == LastValue(pairs, "payload", "{}")
  {
    nodeId, payload := "", "{}";
    for k := 0 to |pairs|
      invariant nodeId == LastValue(pairs[..k], "node_id", "")
      invariant payload == LastValue(pairs[..k], "payload", "{}")
    {
      assert pairs[..k + 1][..k] == pairs[..k];
      if pairs[k].0 == "node_id" && pairs[k].1 != "" {
        nodeId := pairs[k].1;
      }
      if pairs[k].0 == "payload" && pairs[k].1 != "" {
        payload := pairs[k].1;
      }
    }
    assert pairs[..|pairs|] == pairs;
  }

  /** The records of an announcement, addresses last and only while there is room. */
  method BuildAnnouncement(service: string, ad: Advert, printed: map<string, string>) returns (records: seq<Record>)
    ensures |records| <= 32
    ensures (set r | r in records) == Announcement(service, ad, printed)
  {
    records := [PtrOf(service, ad), SrvOf(service, ad), TxtOf(service, ad)];
    var used := 3;
    ghost var ips: seq<string> := [];
    for k := 0 to |ad.ips|
      invariant ips == Announced(ad.ips[..k], printed) && |records| == used == 3 + |ips|
      invariant (set r | r in records) == {PtrOf(service, ad), SrvOf(service, ad), TxtOf(service, ad)}
                                          + set ip | ip in ips :: Record(HostOf(ad.nodeId), Address(ip))
    {
      assert ad.ips[..k + 1][..k] == ad.ips[..k];
      if used < 32 && ad.ips[k] in printed {
        var r := Record(HostOf(ad.nodeId), Address(printed[ad.ips[k]]));
        ghost var before := records;
        records := records + [r];
        assert (set x | x in records) == (set x | x in before) + {r};
        used := used + 1;
        ips := ips + [printed[ad.ips[k]]];
      }
    }
    assert ad.ips[..|ad.ips|] == ad.ips;
  }
}
