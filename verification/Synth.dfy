/** Policy synthesis as the analyzer performs it: rules are appended in place to
    per-workload objects held in a map, which is then listed in arbitrary order and sorted. */
module Synth {
  import opened Model
  import opened Netpol
  import opened Sequences
  import opened Ordering
  import Spec = SynthSpec

  class DeploymentConnectivity {
    const resource: Resource
    var ingressConns: seq<Rule>
    var egressConns: seq<Rule>

    constructor (r: Resource)
      ensures resource == r && ingressConns == [] && egressConns == []
    {
      resource := r;
      ingressConns, egressConns := [], [];
    }

    ghost function Entry(): Spec.Entry
      reads this
    {
      Spec.Entry(resource, ingressConns, egressConns)
    }

    method AddIngressRule(peers: seq<Peer>, ports: seq<NetpolPort>)
      modifies `ingressConns
      ensures ingressConns == AddNew(old(ingressConns), Rule(peers, ports))
    {
      var rule := Rule(peers, ports);
      for i := 0 to |ingressConns|
        invariant ingressConns == old(ingressConns)
        invariant rule !in ingressConns[..i]
      {
        if ingressConns[i] == rule {
          return;
        }
      }
      ingressConns := ingressConns + [rule];
    }

    method AddEgressRule(peers: seq<Peer>, ports: seq<NetpolPort>)
      modifies `egressConns
      ensures egressConns == AddNew(old(egressConns), Rule(peers, ports))
    {
      var rule := Rule(peers, ports);
      for i := 0 to |egressConns|
        invariant egressConns == old(egressConns)
        invariant rule !in egressConns[..i]
      {
        if egressConns[i] == rule {
          return;
        }
      }
      egressConns := egressConns + [rule];
    }
  }

  type ConnectivityMap = map<string, DeploymentConnectivity>

  /** Distinct keys hold distinct objects, and together they hold the table `t`. */
  ghost predicate Holds(m: ConnectivityMap, t: Spec.Table)
    reads m.Values
  {
    && m.Keys == t.Keys
    && (forall n :: n in m ==> m[n].Entry() == t[n] && m[n].resource.name == n)
    && (forall n1, n2 :: n1 in m && n2 in m && n1 != n2 ==> m[n1] != m[n2])
  }

  method FindOrAddDeploymentConn(resource: Option<Resource>, deployConns: ConnectivityMap, ghost t: Spec.Table)
    returns (d: DeploymentConnectivity?, m: ConnectivityMap)
    requires Holds(deployConns, t)
    ensures d == null <==> resource.None? || resource.value.name == ""
    ensures d != null ==> resource.value.name in m && m[resource.value.name] == d
    ensures Holds(m, if resource.None? then t else Spec.Register(t, resource.value))
    ensures forall n :: n in deployConns ==> n in m && m[n] == deployConns[n]
    ensures forall n :: n in m ==> (n in deployConns && m[n] == deployConns[n]) || fresh(m[n])
  {
    m := deployConns;
    if resource.None? || resource.value.name == "" {
      return null, m;
    }
    var name := resource.value.name;
    if name in m {
      return m[name], m;
    }
    d := new DeploymentConnectivity(resource.value);
    m := m[name := d];
  }

  method GetNetpolPeer(netpolDeploy: DeploymentConnectivity, otherDeploy: DeploymentConnectivity) returns (peer: Peer)
    ensures peer == Spec.PeerFor(netpolDeploy.resource, otherDeploy.resource)
  {
    peer := Peer(Some(otherDeploy.resource.labels), None);
    if netpolDeploy.resource.namespace != otherDeploy.resource.namespace {
      if otherDeploy.resource.namespace != "" {
        peer := peer.(namespaceSelector := Some(map[NAMESPACE_LABEL := otherDeploy.resource.namespace]));
      }
    }
  }

  method ToNetpolPorts(ports: seq<SvcNetworkAttr>, exposedOnly: bool) returns (netpolPorts: seq<NetpolPort>)
    ensures netpolPorts == Spec.ToNetpolPorts(ports, exposedOnly)
  {
    netpolPorts := [];
    for i := 0 to |ports|
      invariant netpolPorts == Spec.ToNetpolPorts(ports[..i], exposedOnly)
    {
      assert ports[..i + 1][..i] == ports[..i];
      var port := ports[i];
      if exposedOnly && !port.exposeToCluster {
        continue;
      }
      var protocol := port.protocol;
      if protocol == "" {
        protocol := "TCP";
      }
      var portNum := port.targetPort;
      if portNum.FromInt? && portNum.intVal == 0 {
        portNum := FromInt(port.port);
      }
      netpolPorts := netpolPorts + [NetpolPort(protocol, portNum)];
    }
    assert ports[..|ports|] == ports;
  }

  /** Appends to the object under one key; the other objects are not touched. */
  method OfferEgress(m: ConnectivityMap, ghost t: Spec.Table, d: DeploymentConnectivity, ghost name: string,
                     peers: seq<Peer>, ports: seq<NetpolPort>)
    requires Holds(m, t) && name in m && m[name] == d
    modifies d`egressConns
    ensures Holds(m, Spec.OfferEgress(t, name, Rule(peers, ports)))
  {
    d.AddEgressRule(peers, ports);
  }

  method OfferIngress(m: ConnectivityMap, ghost t: Spec.Table, d: DeploymentConnectivity, ghost name: string,
                     peers: seq<Peer>, ports: seq<NetpolPort>)
    requires Holds(m, t) && name in m && m[name] == d
    modifies d`ingressConns
    ensures Holds(m, Spec.OfferIngress(t, name, Rule(peers, ports)))
  {
    d.AddIngressRule(peers, ports);
  }

  /** The entries of both ends of a connection; the source's is null when there is none. */
  method FindOrAddEnds(conn: Connection, deployConns: ConnectivityMap, ghost t: Spec.Table)
    returns (src: DeploymentConnectivity?, dst: DeploymentConnectivity?, m: ConnectivityMap)
    requires Holds(deployConns, t)
    ensures Holds(m, Spec.Registered(t, conn))
    ensures src != null <==> Spec.HasSource(conn)
    ensures src != null ==> conn.source.value.name in m && m[conn.source.value.name] == src
    ensures dst != null <==> conn.target.name != ""
    ensures dst != null ==> conn.target.name in m && m[conn.target.name] == dst
    ensures forall n :: n in m ==> (n in deployConns && m[n] == deployConns[n]) || fresh(m[n])
  {
    src, m := FindOrAddDeploymentConn(conn.source, deployConns, t);
    dst, m := FindOrAddDeploymentConn(Some(conn.target), m,
                                      if conn.source.Some? then Spec.Register(t, conn.source.value) else t);
  }

  method TargetPorts(conn: Connection, srcDeploy: DeploymentConnectivity?) returns (targetPorts: seq<NetpolPort>)
    requires srcDeploy != null <==> Spec.HasSource(conn)
    ensures targetPorts == Spec.PortsOf(conn)
  {
    targetPorts := ToNetpolPorts(conn.link.network, srcDeploy == null && !conn.link.exposeExternally);
    if conn.source.Some? && |conn.source.value.usedPorts| > 0 {
      targetPorts := ToNetpolPorts(conn.source.value.usedPorts, false);
    }
  }

  /** One turn of the loop over connections. Whichever rule is to be added, its peer or the object
      it is added to is read from the entry of the target, which is null for a nameless one. */
  method AddConnection(conn: Connection, deploysConnectivity: ConnectivityMap, ghost t: Spec.Table)
    returns (m: ConnectivityMap, panicked: bool)
    requires Holds(deploysConnectivity, t)
    modifies deploysConnectivity.Values
    ensures panicked <==> !Spec.NamedTarget(conn)
    ensures !panicked ==> Holds(m, Spec.Step(t, conn))
    ensures forall n :: n in m ==> (n in deploysConnectivity && m[n] == deploysConnectivity[n]) || fresh(m[n])
  {
    var srcDeploy, dstDeploy;
    srcDeploy, dstDeploy, m := FindOrAddEnds(conn, deploysConnectivity, t);
    panicked := false;
    var targetPorts := TargetPorts(conn, srcDeploy);
    if |targetPorts| == 0 {
      return;
    }
    if dstDeploy == null {
      return m, true;
    }
    ghost var t' := Spec.Registered(t, conn);
    assert conn.target.name in m && m[conn.target.name] == dstDeploy;
    OwnersHeld(m, t', conn);

    if srcDeploy != null {
      var netpolPeer := GetNetpolPeer(srcDeploy, dstDeploy);
      OfferEgress(m, t', srcDeploy, conn.source.value.name, [netpolPeer], targetPorts);
      t' := Spec.OfferEgress(t', conn.source.value.name, Rule([netpolPeer], targetPorts));
    }

    if conn.link.exposeExternally {
      OfferIngress(m, t', dstDeploy, conn.target.name, [], targetPorts);
    } else if srcDeploy == null {
      OfferIngress(m, t', dstDeploy, conn.target.name, [Peer(None, Some(map[]))], targetPorts);
    } else {
      var netpolPeer := GetNetpolPeer(dstDeploy, srcDeploy);
      OfferIngress(m, t', dstDeploy, conn.target.name, [netpolPeer], targetPorts);
    }
  }

  lemma OwnersHeld(m: ConnectivityMap, t: Spec.Table, conn: Connection)
    requires Holds(m, t)
    ensures var owners := Spec.OwnersIn(t);
            && (conn.target.name in m ==>
                  Spec.OwnerOf(owners, conn.target) == m[conn.target.name].resource)
            && (conn.source.Some? && conn.source.value.name in m ==>
                  Spec.OwnerOf(owners, conn.source.value) == m[conn.source.value.name].resource)
  {
    assert forall n :: n in m ==> m[n].Entry().resource == t[n].resource;
  }

  ghost predicate SortedByName(s: seq<DeploymentConnectivity>) {
    forall i, j :: 0 <= i < j < |s| ==> !Less(s[j].resource.name, s[i].resource.name)
  }

  /** Some sort by name; nothing is promised about entries with equal names. */
  method SortByName(s: seq<DeploymentConnectivity>) returns (r: seq<DeploymentConnectivity>)
    ensures multiset(r) == multiset(s)
    ensures SortedByName(r)
  {
    r := [];
    for i := 0 to |s|
      invariant multiset(r) == multiset(s[..i])
      invariant SortedByName(r)
    {
      var k := |r|;
      while k > 0 && Less(s[i].resource.name, r[k - 1].resource.name)
        invariant 0 <= k <= |r|
        invariant forall j :: k <= j < |r| ==> Less(s[i].resource.name, r[j].resource.name)
      {
        k := k - 1;
      }
      InsertKeepsSorted(r, k, s[i]);
      assert r == r[..k] + r[k..];
      assert s[..i + 1] == s[..i] + [s[i]];
      r := r[..k] + [s[i]] + r[k..];
    }
    assert s[..|s|] == s;
  }

  lemma InsertKeepsSorted(r: seq<DeploymentConnectivity>, k: nat, d: DeploymentConnectivity)
    requires k <= |r| && SortedByName(r)
    requires k > 0 ==> !Less(d.resource.name, r[k - 1].resource.name)
    requires forall j :: k <= j < |r| ==> Less(d.resource.name, r[j].resource.name)
    ensures SortedByName(r[..k] + [d] + r[k..])
  {
    forall j | 0 <= j < k ensures !Less(d.resource.name, r[j].resource.name) {
      if Less(d.resource.name, r[j].resource.name) && j < k - 1 {
        LessTotal(r[j].resource.name, r[k - 1].resource.name);
        if Less(r[j].resource.name, r[k - 1].resource.name) {
          LessTransitive(d.resource.name, r[j].resource.name, r[k - 1].resource.name);
        }
      }
    }
    forall j | k <= j < |r| ensures !Less(r[j].resource.name, d.resource.name) {
      LessAsymmetric(d.resource.name, r[j].resource.name);
    }
  }

  // ----- listing the map -----

  /** Ranges over the map in an arbitrary order. */
  method ListValues(m: ConnectivityMap, ghost t: Spec.Table) returns (s: seq<DeploymentConnectivity>)
    requires Holds(m, t)
    ensures multiset(s) == multiset(m.Values)
  {
    s := [];
    var keys := m.Keys;
    ghost var visited := {};
    while keys != {}
      invariant keys <= m.Keys
      invariant visited == set n | n in m && n !in keys :: m[n]
      invariant multiset(s) == multiset(visited)
    {
      var n :| n in keys;
      assert m[n] !in visited;
      s, keys, visited := s + [m[n]], keys - {n}, visited + {m[n]};
    }
    assert visited == m.Values;
  }

  lemma ElementsOfSet(s: seq<DeploymentConnectivity>, ds: set<DeploymentConnectivity>)
    requires multiset(s) == multiset(ds)
    ensures forall i, j :: 0 <= i < j < |s| ==> s[i] != s[j]
    ensures forall d :: d in ds <==> d in s
  {
    forall j | 0 <= j < |s| ensures s[j] !in s[..j] {
      assert s == s[..j] + [s[j]] + s[j + 1..];
      assert multiset(s)[s[j]] == multiset(s[..j])[s[j]] + 1 + multiset(s[j + 1..])[s[j]];
      assert multiset(s)[s[j]] <= 1;
    }
    forall i, j | 0 <= i < j < |s| ensures s[i] != s[j] {
      assert s[..j][i] == s[i];
    }
    assert forall d :: d in ds <==> d in multiset(s);
  }

  function Names(s: seq<DeploymentConnectivity>): seq<string> {
    seq(|s|, i requires 0 <= i < |s| => s[i].resource.name)
  }

  /** However the map was listed and however ties were broken, sorting its values
      by name gives the one listing of the table. */
  lemma SortedValuesAreTheListing(m: ConnectivityMap, t: Spec.Table, s: seq<DeploymentConnectivity>)
    requires Holds(m, t) && multiset(s) == multiset(m.Values) && SortedByName(s)
    ensures |s| == |Spec.Listing(t)|
    ensures forall i :: 0 <= i < |s| ==> s[i].Entry() == Spec.Listing(t)[i]
  {
    hide Sorted, Less;
    ElementsOfSet(s, m.Values);
    forall i | 0 <= i < |s| ensures s[i].resource.name in m && m[s[i].resource.name] == s[i] {
      assert s[i] in s;
      assert s[i] in m.Values;
    }
    var names := Names(s);
    forall i, j | 0 <= i < j < |names| ensures Less(names[i], names[j]) {
      LessTotal(names[i], names[j]);
    }
    forall n ensures n in names <==> n in t.Keys {
      if n in t.Keys {
        assert m[n] in s;
        var i :| 0 <= i < |s| && s[i] == m[n];
        assert names[i] == n;
      }
    }
    SortedListsTheNames(t.Keys);
    IncreasingIsUnique(names, Sorted(t.Keys));
    forall i | 0 <= i < |s| ensures s[i].Entry() == Spec.Listing(t)[i] {
      assert names[i] == s[i].resource.name;
    }
  }

  lemma HoldsNothing()
    ensures Holds(map[], Spec.TableOf([]))
  {
  }

  /** The loop over connections. */
  method AddConnections(connections: seq<Connection>) returns (m: ConnectivityMap, panicked: bool)
    ensures panicked <==> !Spec.NamedTargets(connections)
    ensures !panicked ==> Holds(m, Spec.TableOf(connections))
    ensures forall n :: n in m ==> fresh(m[n])
  {
    hide Spec.NamedTarget, Holds, Spec.Step;
    m, panicked := map[], false;
    HoldsNothing();
    for i := 0 to |connections|
      invariant Holds(m, Spec.TableOf(connections[..i]))
      invariant forall n :: n in m ==> fresh(m[n])
      invariant !panicked && forall j :: 0 <= j < i ==> Spec.NamedTarget(connections[j])
    {
      assert connections[..i + 1][..i] == connections[..i];
      m, panicked := AddConnection(connections[i], m, Spec.TableOf(connections[..i]));
      if panicked {
        assert connections[i] in connections;
        return;
      }
    }
    assert connections[..|connections|] == connections;
  }

  /** The objects of a map, sorted by name. */
  method ListSorted(m: ConnectivityMap, ghost t: Spec.Table) returns (retSlice: seq<DeploymentConnectivity>)
    requires Holds(m, t)
    ensures |retSlice| == |Spec.Listing(t)|
    ensures forall i :: 0 <= i < |retSlice| ==> retSlice[i].Entry() == Spec.Listing(t)[i]
    ensures forall i, j :: 0 <= i < j < |retSlice| ==> retSlice[i] != retSlice[j]
    ensures forall i :: 0 <= i < |retSlice| ==> retSlice[i] in m.Values
  {
    retSlice := ListValues(m, t);
    retSlice := SortByName(retSlice);
    SortedValuesAreTheListing(m, t, retSlice);
    ElementsOfSet(retSlice, m.Values);
    assert forall i :: 0 <= i < |retSlice| ==> retSlice[i] in retSlice;
  }

  method DetermineConnectivityPerDeployment(connections: seq<Connection>)
    returns (retSlice: seq<DeploymentConnectivity>, panicked: bool)
    ensures panicked <==> !Spec.NamedTargets(connections)
    ensures !panicked ==> |retSlice| == |Spec.Listing(Spec.TableOf(connections))|
    ensures !panicked ==> forall i :: 0 <= i < |retSlice| ==>
                            retSlice[i].Entry() == Spec.Listing(Spec.TableOf(connections))[i]
    ensures forall i :: 0 <= i < |retSlice| ==> fresh(retSlice[i])
    ensures forall i, j :: 0 <= i < j < |retSlice| ==> retSlice[i] != retSlice[j]
  {
    hide Holds, Spec.TableOf, Spec.Listing;
    var deploysConnectivity;
    deploysConnectivity, panicked := AddConnections(connections);
    if panicked {
      return [], true;
    }
    retSlice := ListSorted(deploysConnectivity, Spec.TableOf(connections));
  }

  // ----- policies -----

  /** Adds the DNS rule to the objects it is given, in place. */
  method BuildNetpolPerDeployment(deployConnectivity: seq<DeploymentConnectivity>, dnsPort: IntOrString)
    returns (netpols: seq<Policy>)
    requires forall i, j :: 0 <= i < j < |deployConnectivity| ==> deployConnectivity[i] != deployConnectivity[j]
    modifies deployConnectivity
    ensures |netpols| == |deployConnectivity|
    ensures forall i :: 0 <= i < |netpols| ==> netpols[i] == Spec.NetpolOf(old(deployConnectivity[i].Entry()), dnsPort)
    ensures forall i :: 0 <= i < |netpols| ==>
              && deployConnectivity[i].ingressConns == old(deployConnectivity[i].ingressConns)
              && deployConnectivity[i].egressConns == Spec.WithDns(old(deployConnectivity[i].egressConns), dnsPort)
  {
    netpols := [];
    for i := 0 to |deployConnectivity|
      invariant |netpols| == i
      invariant forall j :: 0 <= j < i ==> netpols[j] == Spec.NetpolOf(old(deployConnectivity[j].Entry()), dnsPort)
      invariant forall j :: 0 <= j < |deployConnectivity| ==>
                  deployConnectivity[j].ingressConns == old(deployConnectivity[j].ingressConns)
      invariant forall j :: 0 <= j < i ==>
                  deployConnectivity[j].egressConns == Spec.WithDns(old(deployConnectivity[j].egressConns), dnsPort)
      invariant forall j :: i <= j < |deployConnectivity| ==>
                  deployConnectivity[j].egressConns == old(deployConnectivity[j].egressConns)
    {
      var deployConn := deployConnectivity[i];
      if |deployConn.egressConns| > 0 {
        var allClusterPeers := [Peer(None, Some(map[]))];
        deployConn.AddEgressRule(allClusterPeers, [NetpolPort("UDP", dnsPort)]);
      }
      var netpol := Policy(deployConn.resource.name + "-netpol", deployConn.resource.namespace,
                           deployConn.resource.labels, deployConn.ingressConns, deployConn.egressConns,
                           [Ingress, Egress]);
      netpols := netpols + [netpol];
    }
  }

  method GetNsDefaultDenyPolicy(namespace: string) returns (netpol: Policy)
    ensures netpol == Spec.DenyPolicy(namespace)
  {
    var policyName := "default-deny-in-namespace";
    if namespace != "" {
      policyName := policyName + "-" + namespace;
    }
    netpol := Policy(policyName, namespace, map[], [], [], [Ingress, Egress]);
  }

  method GetNsDefaultDenyPolicies(resources: seq<Resource>) returns (denyNetpols: seq<Policy>)
    ensures denyNetpols == Spec.DenyPolicies(resources)
  {
    denyNetpols := [];
    var namespaces: map<string, bool> := map[];
    ghost var all := Spec.NamespacesOf(resources);
    for i := 0 to |resources|
      invariant |denyNetpols| == |Dedup(all[..i])|
      invariant forall j :: 0 <= j < |denyNetpols| ==> denyNetpols[j] == Spec.DenyPolicy(Dedup(all[..i])[j])
      invariant forall n :: n in namespaces <==> n in Dedup(all[..i])
    {
      assert all[..i + 1][..i] == all[..i];
      var namespace := resources[i].namespace;
      if namespace !in namespaces {
        namespaces := namespaces[namespace := true];
        var netpol := GetNsDefaultDenyPolicy(namespace);
        denyNetpols := denyNetpols + [netpol];
      }
    }
    assert all[..|resources|] == all;
  }

  method SynthNetpols(resources: seq<Resource>, connections: seq<Connection>, dnsPort: IntOrString)
    returns (netpols: seq<Policy>, panicked: bool)
    ensures panicked <==> !Spec.NamedTargets(connections)
    ensures !panicked ==> netpols == Spec.Synth(resources, connections, dnsPort)
  {
    var deployConnectivity;
    deployConnectivity, panicked := DetermineConnectivityPerDeployment(connections);
    if panicked {
      return [], true;
    }
    netpols := BuildNetpolPerDeployment(deployConnectivity, dnsPort);
    assert netpols == Spec.PoliciesOf(Spec.Listing(Spec.TableOf(connections)), dnsPort);
    var denyNetpols := GetNsDefaultDenyPolicies(resources);
    netpols := netpols + denyNetpols;
  }
}
