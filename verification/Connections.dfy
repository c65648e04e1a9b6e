/** Connection discovery as the analyzer performs it. */
module Connections {
  import opened Model
  import opened Text
  import opened Addresses
  import opened Selectors
  import Spec = DiscoverySpec

  method SvcHasExposedPorts(svc: Service) returns (exposed: bool)
    ensures exposed <==> Spec.HasExposedPorts(svc)
  {
    if svc.exposeExternally {
      return true;
    }
    for i := 0 to |svc.network|
      invariant forall j :: 0 <= j < i ==> !svc.network[j].exposeToCluster
    {
      if svc.network[i].exposeToCluster {
        return true;
      }
    }
    return false;
  }

  method GetPossibleServiceAddresses(svc: Service, resource: Resource) returns (svcAddresses: seq<string>)
    ensures svcAddresses == PossibleAddresses(svc, resource.namespace)
  {
    svcAddresses := [];
    if svc.namespace != "" {
      var serviceDotNamespace := svc.name + "." + svc.namespace;
      svcAddresses := svcAddresses + [serviceDotNamespace, serviceDotNamespace + ".svc.cluster.local"];
    }
    if svc.namespace == resource.namespace {
      svcAddresses := svcAddresses + [svc.name];
    }
  }

  lemma {:induction false} FirstWithPortAt(envVal: string, network: seq<SvcNetworkAttr>, addresses: seq<string>, i: nat)
    requires i <= |network|
    requires forall j :: 0 <= j < i ==> !HasPortForm(envVal, addresses, network[j].port)
    ensures FirstWithPort(envVal, network, addresses) == FirstWithPort(envVal, network[i..], addresses)
  {
    if i > 0 {
      FirstWithPortAt(envVal, network[1..], addresses, i - 1);
      assert network[1..][i - 1..] == network[i..];
    }
  }

  method EnvValueMatchesService(envVal: string, svc: Service, serviceAddresses: seq<string>)
    returns (matched: bool, port: SvcNetworkAttr)
    ensures MatchIn(envVal, svc, serviceAddresses) == if matched then Some(port) else None
    ensures !matched ==> port == NO_PORT
  {
    hide Itoa;
    for i := 0 to |serviceAddresses|
      invariant forall j :: 0 <= j < i ==> serviceAddresses[j] != envVal
    {
      if serviceAddresses[i] == envVal {
        return true, NO_PORT;
      }
    }
    for i := 0 to |svc.network|
      invariant forall j :: 0 <= j < i ==> !HasPortForm(envVal, serviceAddresses, svc.network[j].port)
    {
      var p := svc.network[i];
      FirstWithPortAt(envVal, svc.network, serviceAddresses, i);
      for k := 0 to |serviceAddresses|
        invariant forall j :: 0 <= j < k ==> envVal != WithPort(serviceAddresses[j], p.port)
      {
        var serviceWithPort := serviceAddresses[k] + ":" + Itoa(p.port);
        if envVal == serviceWithPort {
          assert serviceWithPort == WithPort(serviceAddresses[k], p.port);
          assert HasPortForm(envVal, serviceAddresses, p.port);
          return true, p;
        }
      }
    }
    FirstWithPortAt(envVal, svc.network, serviceAddresses, |svc.network|);
    return false, NO_PORT;
  }

  method FindServices(resource: Resource, links: seq<Service>) returns (matchedSvc: seq<Service>)
    ensures matchedSvc == Spec.ServicesOf(resource, links)
  {
    matchedSvc := [];
    for i := 0 to |links|
      invariant matchedSvc == Spec.ServicesOf(resource, links[..i])
    {
      assert links[..i + 1][..i] == links[..i];
      var link := links[i];
      if link.namespace != resource.namespace {
        continue;
      }
      var res := AreSelectorsContained(resource.labels, link.selectors);
      if res {
        matchedSvc := matchedSvc + [link];
      }
    }
    assert links[..|links|] == links;
  }

  /** The copy of one workload that records the ports it uses, and whether it uses any address at all. */
  method UseOfService(resource: Resource, svc: Service) returns (matched: bool, foundSrc: Resource)
    ensures matched <==> Spec.References(resource, svc)
    ensures foundSrc == Spec.AsSource(resource, svc)
  {
    hide MatchIn, PossibleAddresses;
    var serviceAddresses := GetPossibleServiceAddresses(svc, resource);
    foundSrc, matched := resource, false;
    var addrs := resource.networkAddrs;
    ghost var ports := [];
    for i := 0 to |addrs|
      invariant matched <==> exists j :: 0 <= j < i && Match(addrs[j], svc, resource.namespace).Some?
      invariant ports == Spec.PortsUsedBy(addrs[..i], svc, resource.namespace)
      invariant foundSrc == resource.(usedPorts := resource.usedPorts + ports)
    {
      assert addrs[..i + 1][..i] == addrs[..i];
      var ok, port := EnvValueMatchesService(addrs[i], svc, serviceAddresses);
      ghost var used := Spec.PortUsedBy(addrs[i], svc, resource.namespace);
      assert resource.usedPorts + (ports + used) == (resource.usedPorts + ports) + used;
      ports := ports + used;
      if ok {
        matched := true;
        if port.port > 0 {
          foundSrc := foundSrc.(usedPorts := foundSrc.usedPorts + [port]);
        }
      }
    }
    assert addrs[..|addrs|] == addrs;
  }

  method FindSource(resources: seq<Resource>, svc: Service) returns (tRes: seq<Resource>)
    ensures tRes == Spec.SourcesOf(resources, svc)
  {
    tRes := [];
    for i := 0 to |resources|
      invariant tRes == Spec.SourcesOf(resources[..i], svc)
    {
      assert resources[..i + 1][..i] == resources[..i];
      var matched, foundSrc := UseOfService(resources[i], svc);
      if matched {
        tRes := tRes + [foundSrc];
      }
    }
    assert resources[..|resources|] == resources;
  }

  /** The connections that lead to one workload through one of its services. */
  method ConnectThrough(resources: seq<Resource>, destRes: Resource, svc: Service)
    returns (connections: seq<Connection>)
    ensures connections == Spec.ViaService(resources, destRes, svc)
  {
    connections := [];
    var srcRes := FindSource(resources, svc);
    for i := 0 to |srcRes|
      invariant connections == Spec.FromSources(srcRes[..i], destRes, svc)
    {
      assert srcRes[..i + 1][..i] == srcRes[..i];
      var r := srcRes[i];
      if !r.Equals(destRes) {
        connections := connections + [Connection(Some(r), destRes, svc)];
      }
    }
    assert srcRes[..|srcRes|] == srcRes;
    var exposed := SvcHasExposedPorts(svc);
    if |srcRes| == 0 || exposed {
      connections := connections + [Connection(None, destRes, svc)];
    }
  }

  method ConnectTo(resources: seq<Resource>, destRes: Resource, links: seq<Service>)
    returns (connections: seq<Connection>)
    ensures connections == Spec.ViaServices(resources, destRes, Spec.ServicesOf(destRes, links))
  {
    connections := [];
    var deploymentServices := FindServices(destRes, links);
    for j := 0 to |deploymentServices|
      invariant connections == Spec.ViaServices(resources, destRes, deploymentServices[..j])
    {
      assert deploymentServices[..j + 1][..j] == deploymentServices[..j];
      var found := ConnectThrough(resources, destRes, deploymentServices[j]);
      connections := connections + found;
    }
    assert deploymentServices[..|deploymentServices|] == deploymentServices;
  }

  method DiscoverConnections(resources: seq<Resource>, links: seq<Service>) returns (connections: seq<Connection>)
    ensures connections == Spec.Discover(resources, links)
  {
    connections := [];
    for i := 0 to |resources|
      invariant connections == Spec.ToTargets(resources, resources[..i], links)
    {
      assert resources[..i + 1][..i] == resources[..i];
      var found := ConnectTo(resources, resources[i], links);
      connections := connections + found;
    }
    assert resources[..|resources|] == resources;
  }
}
