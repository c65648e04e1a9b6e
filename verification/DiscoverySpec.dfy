/** Connection discovery as nested sequences, and as a join. */
module DiscoverySpec {
  import opened Model
  import opened Addresses
  import opened Selectors

  /** `svc` may stand in front of workload `d`. */
  predicate Fronts(svc: Service, d: Resource) {
    svc.namespace == d.namespace && Contained(d.labels, svc.selectors)
  }

  predicate HasExposedPorts(svc: Service) {
    svc.exposeExternally || exists p :: p in svc.network && p.exposeToCluster
  }

  /** Some address of `r` denotes `svc`. */
  predicate References(r: Resource, svc: Service) {
    exists a :: a in r.networkAddrs && Match(a, svc, r.namespace).Some?
  }

  function PortUsedBy(addr: string, svc: Service, viewerNs: string): seq<SvcNetworkAttr> {
    var m := Match(addr, svc, viewerNs);
    if m.Some? && m.value.port > 0 then [m.value] else []
  }

  function PortsUsedBy(addrs: seq<string>, svc: Service, viewerNs: string): seq<SvcNetworkAttr> {
    if addrs == [] then []
    else PortsUsedBy(addrs[..|addrs| - 1], svc, viewerNs) + PortUsedBy(addrs[|addrs| - 1], svc, viewerNs)
  }

  /** A copy of the workload that records the ports by which it uses the service. */
  function AsSource(r: Resource, svc: Service): Resource {
    r.(usedPorts := r.usedPorts + PortsUsedBy(r.networkAddrs, svc, r.namespace))
  }

  function ServicesOf(d: Resource, links: seq<Service>): seq<Service> {
    if links == [] then []
    else
      var last := links[|links| - 1];
      ServicesOf(d, links[..|links| - 1]) + (if Fronts(last, d) then [last] else [])
  }

  function SourcesOf(resources: seq<Resource>, svc: Service): seq<Resource> {
    if resources == [] then []
    else
      var last := resources[|resources| - 1];
      SourcesOf(resources[..|resources| - 1], svc) + (if References(last, svc) then [AsSource(last, svc)] else [])
  }

  function FromSources(sources: seq<Resource>, d: Resource, svc: Service): seq<Connection> {
    if sources == [] then []
    else
      var last := sources[|sources| - 1];
      FromSources(sources[..|sources| - 1], d, svc)
      + (if last.Equals(d) then [] else [Connection(Some(last), d, svc)])
  }

  function ViaService(resources: seq<Resource>, d: Resource, svc: Service): seq<Connection> {
    var sources := SourcesOf(resources, svc);
    FromSources(sources, d, svc)
    + (if sources == [] || HasExposedPorts(svc) then [Connection(None, d, svc)] else [])
  }

  function ViaServices(resources: seq<Resource>, d: Resource, svcs: seq<Service>): seq<Connection> {
    if svcs == [] then []
    else ViaServices(resources, d, svcs[..|svcs| - 1]) + ViaService(resources, d, svcs[|svcs| - 1])
  }

  function ToTargets(resources: seq<Resource>, targets: seq<Resource>, links: seq<Service>): seq<Connection> {
    if targets == [] then []
    else
      var last := targets[|targets| - 1];
      ToTargets(resources, targets[..|targets| - 1], links) + ViaServices(resources, last, ServicesOf(last, links))
  }

  function Discover(resources: seq<Resource>, links: seq<Service>): seq<Connection> {
    ToTargets(resources, resources, links)
  }

  // ----- the join -----

  /** Two different workloads, as far as name, namespace and kind can tell. */
  predicate Distinct(r1: Resource, r2: Resource) {
    r1.name != r2.name || r1.namespace != r2.namespace || r1.kind != r2.kind
  }

  /** What it takes for a connection to be discovered, with no reference to any order. */
  predicate Discoverable(resources: seq<Resource>, links: seq<Service>, c: Connection) {
    && c.target in resources && c.link in links && Fronts(c.link, c.target)
    && (if c.source.Some? then
          exists r :: r in resources && References(r, c.link) && Distinct(r, c.target)
                      && c.source.value == AsSource(r, c.link)
        else
          HasExposedPorts(c.link) || forall r :: r in resources ==> !References(r, c.link))
  }

  lemma {:induction false} ServicesOfElements(d: Resource, links: seq<Service>, svc: Service)
    ensures svc in ServicesOf(d, links) <==> svc in links && Fronts(svc, d)
  {
    if links != [] {
      var init, last := links[..|links| - 1], links[|links| - 1];
      assert links == init + [last];
      ServicesOfElements(d, init, svc);
    }
  }

  lemma {:induction false} SourcesOfElements(resources: seq<Resource>, svc: Service, s: Resource)
    ensures s in SourcesOf(resources, svc)
            <==> exists r :: r in resources && References(r, svc) && s == AsSource(r, svc)
  {
    if resources != [] {
      var init, last := resources[..|resources| - 1], resources[|resources| - 1];
      assert resources == init + [last];
      SourcesOfElements(init, svc, s);
    }
  }

  lemma {:induction false} FromSourcesElements(sources: seq<Resource>, d: Resource, svc: Service, c: Connection)
    ensures c in FromSources(sources, d, svc)
            <==> exists s :: s in sources && !s.Equals(d) && c == Connection(Some(s), d, svc)
  {
    if sources != [] {
      var init, last := sources[..|sources| - 1], sources[|sources| - 1];
      assert sources == init + [last];
      FromSourcesElements(init, d, svc, c);
    }
  }

  lemma NothingFrom(d: Resource, svc: Service)
    ensures FromSources([], d, svc) == []
  {
  }

  lemma {:induction false} FromSourcesSnoc(sources: seq<Resource>, s: Resource, d: Resource, svc: Service)
    ensures FromSources(sources + [s], d, svc)
            == FromSources(sources, d, svc) + (if s.Equals(d) then [] else [Connection(Some(s), d, svc)])
  {
    assert (sources + [s])[..|sources|] == sources;
  }

  lemma {:induction false} ViaServicesElements(resources: seq<Resource>, d: Resource, svcs: seq<Service>, c: Connection)
    ensures c in ViaServices(resources, d, svcs) <==> exists svc :: svc in svcs && c in ViaService(resources, d, svc)
  {
    if svcs != [] {
      var init, last := svcs[..|svcs| - 1], svcs[|svcs| - 1];
      assert svcs == init + [last];
      ViaServicesElements(resources, d, init, c);
    }
  }

  lemma {:induction false} ToTargetsElements(resources: seq<Resource>, targets: seq<Resource>,
                                             links: seq<Service>, c: Connection)
    ensures c in ToTargets(resources, targets, links)
            <==> exists d :: d in targets && c in ViaServices(resources, d, ServicesOf(d, links))
  {
    if targets != [] {
      var init, last := targets[..|targets| - 1], targets[|targets| - 1];
      assert targets == init + [last];
      ToTargetsElements(resources, init, links, c);
      if d :| d in targets && c in ViaServices(resources, d, ServicesOf(d, links)) {
        assert d in init || d == last;
      }
    }
  }

  lemma NoSources(resources: seq<Resource>, svc: Service)
    ensures SourcesOf(resources, svc) == [] <==> forall r :: r in resources ==> !References(r, svc)
  {
    var sources := SourcesOf(resources, svc);
    if sources != [] {
      SourcesOfElements(resources, svc, sources[0]);
    }
    if r :| r in resources && References(r, svc) {
      SourcesOfElements(resources, svc, AsSource(r, svc));
    }
  }

  lemma ViaServiceElements(resources: seq<Resource>, d: Resource, svc: Service, c: Connection)
    ensures c in ViaService(resources, d, svc)
            <==> && c.target == d && c.link == svc
                 && (if c.source.Some? then
                       exists r :: r in resources && References(r, svc) && !r.Equals(d)
                                   && c.source.value == AsSource(r, svc)
                     else HasExposedPorts(svc) || forall r :: r in resources ==> !References(r, svc))
  {
    var sources := SourcesOf(resources, svc);
    NoSources(resources, svc);
    FromSourcesElements(sources, d, svc, c);
    if c.source.Some? {
      SourcesOfElements(resources, svc, c.source.value);
    }
  }

  /** The nested loops compute the join of workloads, services and workloads. */
  lemma DiscoveryIsAJoin(resources: seq<Resource>, links: seq<Service>, c: Connection)
    ensures c in Discover(resources, links) <==> Discoverable(resources, links, c)
  {
    ToTargetsElements(resources, resources, links, c);
    forall d | d in resources
      ensures c in ViaServices(resources, d, ServicesOf(d, links))
              <==> c.target == d && Discoverable(resources, links, c)
    {
      ViaServicesElements(resources, d, ServicesOf(d, links), c);
      ServicesOfElements(d, links, c.link);
      forall svc ensures c in ViaService(resources, d, svc) ==> c.link == svc && c.target == d {
        ViaServiceElements(resources, d, svc, c);
      }
      ViaServiceElements(resources, d, c.link, c);
    }
  }
}
