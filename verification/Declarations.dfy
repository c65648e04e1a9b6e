/** Whole runs in terms of the declared objects: which flows the policies allow, and which
    inputs crash. */
module Declarations {
  import opened Model
  import opened Netpol
  import opened Addresses
  import opened Selectors
  import opened AddressExtraction
  import opened Exposure
  import opened Inlining
  import opened ManifestSpec
  import opened Accumulator
  import opened SynthSpec
  import opened SynthTable
  import opened SynthTheorems
  import opened LabelTheorems
  import opened DiscoverySpec
  import opened Pipeline
  import Run = RunSpec

  // ----- what the manifests say -----

  /** Workload `r` is configured with an address that denotes `svc`. */
  ghost predicate RefersTo(lib: Lib, cms: CfgMaps, r: Resource, svc: Service) {
    exists a :: Configures(lib, cms, r, a) && Match(a, svc, r.namespace).Some?
  }

  /** One of these addresses names port `q` of `svc` by its number. */
  ghost predicate Numbers(lib: Lib, cms: CfgMaps, r: Resource, svc: Service, q: SvcNetworkAttr) {
    exists a :: Configures(lib, cms, r, a) && Match(a, svc, r.namespace) == Some(q) && q.port > 0
  }

  ghost predicate NumbersSome(lib: Lib, cms: CfgMaps, r: Resource, svc: Service) {
    exists q :: Numbers(lib, cms, r, svc, q)
  }

  /** Workload `r` asks for port `p` of `svc`: for those it names by number, or for all if it names none. */
  ghost predicate Requests(lib: Lib, cms: CfgMaps, r: Resource, svc: Service, p: NetpolPort) {
    && RefersTo(lib, cms, r, svc)
    && exists q :: && Translates(q, p)
                   && (if NumbersSome(lib, cms, r, svc) then Numbers(lib, cms, r, svc, q) else q in svc.network)
  }

  /** Port `q` of `svc` is open to the cluster by its declaration, or a router exposes it by its name
      or by its number. */
  ghost predicate Flagged(infos: seq<Info>, svc: Service, q: SvcNetworkAttr) {
    || q.exposeToCluster
    || (q.name != "" && ExposedBy(infos, Exposed(svc.namespace, svc.name, FromString(q.name))))
    || (q.port > 0 && ExposedBy(infos, Exposed(svc.namespace, svc.name, FromInt(q.port))))
  }

  /** Some workload called `source` asks for port `p` of a Service in front of one called `target`,
      given the ConfigMaps in effect. */
  ghost predicate UseUnder(lib: Lib, cms: CfgMaps, infos: seq<Info>, source: string, target: string, p: NetpolPort) {
    exists r, d, svc ::
      && WorkloadInfo(r) in infos && WorkloadInfo(d) in infos && ServiceInfo(svc) in infos
      && r.name == source && d.name == target && Distinct(r, d)
      && Fronts(svc, d) && Requests(lib, cms, r, svc, p)
  }

  ghost predicate DeclaredUse(lib: Lib, infos: seq<Info>, source: string, target: string, p: NetpolPort) {
    UseUnder(lib, ByName(ConfigMapsIn(infos)), infos, source, target, p)
  }

  /** A Service in front of a workload called `target` opens port `p` to everyone, or to the cluster. */
  ghost predicate DeclaredOffer(infos: seq<Info>, target: string, p: NetpolPort) {
    exists d, svc, q ::
      && WorkloadInfo(d) in infos && ServiceInfo(svc) in infos && d.name == target && Fronts(svc, d)
      && q in svc.network && Translates(q, p) && (svc.exposeExternally || Flagged(infos, svc, q))
  }

  ghost predicate DeclaredSender(lib: Lib, infos: seq<Info>, source: string) {
    exists target, p :: DeclaredUse(lib, infos, source, target, p)
  }

  // ----- declared and analysed Services -----

  lemma {:induction false} FlagsDoNotMatter(envVal: string, network1: seq<SvcNetworkAttr>,
                                            network2: seq<SvcNetworkAttr>, addresses: seq<string>)
    requires |network1| == |network2|
    requires forall i :: 0 <= i < |network1| ==>
               network2[i] == network1[i].(exposeToCluster := network2[i].exposeToCluster)
    ensures var m1, m2 := FirstWithPort(envVal, network1, addresses), FirstWithPort(envVal, network2, addresses);
            && (m1.Some? <==> m2.Some?)
            && (m1.Some? ==> m2.value == m1.value.(exposeToCluster := m2.value.exposeToCluster))
  {
    if network1 != [] {
      FlagsDoNotMatter(envVal, network1[1..], network2[1..], addresses);
    }
  }

  /** Exposing a Service changes neither its addresses nor what they denote. */
  lemma {:induction false} ExposureKeepsMatches(a: string, svc: Service, infos: seq<Info>, viewerNs: string)
    ensures var m1, m2 := Match(a, svc, viewerNs), Match(a, AnalysedService(infos, svc), viewerNs);
            && (m1.Some? <==> m2.Some?)
            && (m1.Some? ==> m2.value == m1.value.(exposeToCluster := m2.value.exposeToCluster))
  {
    FlagsDoNotMatter(a, svc.network, AnalysedService(infos, svc).network, PossibleAddresses(svc, viewerNs));
    assert PossibleAddresses(AnalysedService(infos, svc), viewerNs) == PossibleAddresses(svc, viewerNs);
  }

  lemma AnalysedServicesElements(infos: seq<Info>, after: Service)
    ensures after in AnalysedServices(infos)
            <==> exists svc :: ServiceInfo(svc) in infos && after == AnalysedService(infos, svc)
  {
    hide ServicesIn, ExposedService, ExposureIn;
    InfosElements(infos);
    var svcs := ServicesIn(infos);
    if after in AnalysedServices(infos) {
      var i :| 0 <= i < |svcs| && AnalysedServices(infos)[i] == after;
      assert svcs[i] in svcs;
    }
    if svc :| ServiceInfo(svc) in infos && after == AnalysedService(infos, svc) {
      assert svc in svcs;
      var i :| 0 <= i < |svcs| && svcs[i] == svc;
      assert AnalysedServices(infos)[i] == after;
    }
  }

  /** The ports of an exposed Service are the declared ones, with the flags of the exposed set. */
  lemma {:induction false} ExposedPorts(infos: seq<Info>, svc: Service, p: NetpolPort)
    ensures (exists q :: q in AnalysedService(infos, svc).network && Translates(q, p))
            <==> exists q :: q in svc.network && Translates(q, p)
    ensures (exists q :: q in AnalysedService(infos, svc).network && q.exposeToCluster && Translates(q, p))
            <==> exists q :: q in svc.network && Flagged(infos, svc, q) && Translates(q, p)
  {
    hide ExposedBy, ExposureIn;
    var after := AnalysedService(infos, svc);
    forall i | 0 <= i < |svc.network|
      ensures after.network[i] in after.network && svc.network[i] in svc.network
      ensures Translates(after.network[i], p) <==> Translates(svc.network[i], p)
      ensures after.network[i].exposeToCluster <==> Flagged(infos, svc, svc.network[i])
    {
      FlagIsSetExactly(infos, svc, i);
    }
  }

  // ----- declared and analysed workloads -----

  lemma AnalysedOf(lib: Lib, infos: seq<Info>, cms: CfgMaps, rs: seq<Resource>, d: Resource) returns (r: Resource)
    requires InlinedAll(lib, cms, WorkloadsIn(infos), rs) && WorkloadInfo(d) in infos
    ensures r in rs && Inlined(lib, cms, d, r)
  {
    hide WorkloadsIn, InlinedAll, Inlined;
    InfosElements(infos);
    InlinedEach(lib, cms, WorkloadsIn(infos), rs);
    var before := WorkloadsIn(infos);
    assert d in before;
    var i :| 0 <= i < |before| && before[i] == d;
    r := rs[i];
  }

  lemma DeclaredOf(lib: Lib, infos: seq<Info>, cms: CfgMaps, rs: seq<Resource>, r: Resource) returns (d: Resource)
    requires InlinedAll(lib, cms, WorkloadsIn(infos), rs) && r in rs
    ensures WorkloadInfo(d) in infos && Inlined(lib, cms, d, r)
  {
    hide WorkloadsIn, InlinedAll, Inlined;
    InfosElements(infos);
    InlinedEach(lib, cms, WorkloadsIn(infos), rs);
    var before := WorkloadsIn(infos);
    var i :| 0 <= i < |rs| && rs[i] == r;
    assert before[i] in before;
    d := before[i];
  }

  lemma InlinedKeeps(lib: Lib, cms: CfgMaps, d: Resource, r: Resource)
    requires Inlined(lib, cms, d, r)
    ensures r == d.(networkAddrs := r.networkAddrs)
    ensures forall a :: a in r.networkAddrs <==> Configures(lib, cms, d, a)
  {
    forall a ensures a in r.networkAddrs <==> Configures(lib, cms, d, a) {
      InlinedAddresses(lib, cms, d, r, a);
    }
  }

  /** What an analysed workload refers to is what the declared one is configured with. */
  lemma {:induction false} ReferencesAreDeclared(lib: Lib, cms: CfgMaps, d: Resource, r: Resource, svc: Service,
                                                 infos: seq<Info>)
    requires Inlined(lib, cms, d, r)
    ensures References(r, AnalysedService(infos, svc)) <==> RefersTo(lib, cms, d, svc)
    ensures NumbersPort(r, AnalysedService(infos, svc)) <==> NumbersSome(lib, cms, d, svc)
  {
    hide Match, Configures, Inlined, AnalysedService;
    InlinedKeeps(lib, cms, d, r);
    var after := AnalysedService(infos, svc);
    forall a ensures Match(a, after, r.namespace).Some? <==> Match(a, svc, r.namespace).Some?
             ensures PortUsedBy(a, after, r.namespace) == [] <==> PortUsedBy(a, svc, r.namespace) == [] {
      ExposureKeepsMatches(a, svc, infos, r.namespace);
    }
    if a :| a in r.networkAddrs && PortUsedBy(a, after, r.namespace) != [] {
      assert PortUsedBy(a, svc, r.namespace) != [];
      assert Numbers(lib, cms, d, svc, Match(a, svc, r.namespace).value);
    }
    if q :| Numbers(lib, cms, d, svc, q) {
      var a :| Configures(lib, cms, d, a) && Match(a, svc, d.namespace) == Some(q) && q.port > 0;
      assert PortUsedBy(a, svc, r.namespace) != [];
    }
  }

  // ----- crashes -----

  /** The analyzer dereferences nil on these objects: a nameless workload behind a Service gets
      ports from external or cluster exposure, or from another workload's reference. */
  ghost predicate DeclaredCrashAt(lib: Lib, infos: seq<Info>, d: Resource, svc: Service) {
    var cms := ByName(ConfigMapsIn(infos));
    && d.name == "" && Fronts(svc, d)
    && (|| (svc.exposeExternally && svc.network != [])
        || (exists q :: q in svc.network && Flagged(infos, svc, q))
        || (exists r :: && WorkloadInfo(r) in infos && Distinct(r, d) && RefersTo(lib, cms, r, svc)
                        && (r.usedPorts != [] || NumbersSome(lib, cms, r, svc)
                            || (r.name != "" && svc.network != []))))
  }

  ghost predicate DeclaredCrash(lib: Lib, infos: seq<Info>) {
    exists d, svc :: WorkloadInfo(d) in infos && ServiceInfo(svc) in infos && DeclaredCrashAt(lib, infos, d, svc)
  }

  lemma SomeFlagged(infos: seq<Info>, svc: Service)
    ensures (exists q :: q in AnalysedService(infos, svc).network && q.exposeToCluster)
            <==> exists q :: q in svc.network && Flagged(infos, svc, q)
    ensures AnalysedService(infos, svc).network == [] <==> svc.network == []
  {
    hide Flagged, AnalysedService;
    if q :| q in AnalysedService(infos, svc).network && q.exposeToCluster {
      ExposedPorts(infos, svc, ToNetpolPort(q));
    }
    if q :| q in svc.network && Flagged(infos, svc, q) {
      ExposedPorts(infos, svc, ToNetpolPort(q));
    }
    ExposureKeepsLength(svc, infos);
  }

  lemma ExposureKeepsLength(svc: Service, infos: seq<Info>)
    ensures |AnalysedService(infos, svc).network| == |svc.network|
    ensures AnalysedService(infos, svc) == svc.(network := AnalysedService(infos, svc).network)
  {
  }

  lemma {:induction false} CrashAtIsDeclared(lib: Lib, infos: seq<Info>, rs: seq<Resource>,
                                             d: Resource, e: Resource, svc: Service)
    requires InlinedAll(lib, ByName(ConfigMapsIn(infos)), WorkloadsIn(infos), rs)
    requires Inlined(lib, ByName(ConfigMapsIn(infos)), d, e)
    ensures CrashesAt(rs, e, AnalysedService(infos, svc)) <==> DeclaredCrashAt(lib, infos, d, svc)
  {
    hide InlinedAll, Inlined, WorkloadsIn, ConfigMapsIn, ByName, Flagged, References, NumbersPort;
    hide RefersTo, NumbersSome, AnalysedService, Contained;
    var cms := ByName(ConfigMapsIn(infos));
    var after := AnalysedService(infos, svc);
    SomeFlagged(infos, svc);
    ExposureKeepsLength(svc, infos);
    InlinedKeeps(lib, cms, d, e);
    if r :| r in rs && Distinct(r, e) && YieldsPorts(r, after) {
      var declared := DeclaredOf(lib, infos, cms, rs, r);
      InlinedKeeps(lib, cms, declared, r);
      ReferencesAreDeclared(lib, cms, declared, r, svc, infos);
    }
    if declared :| && WorkloadInfo(declared) in infos && Distinct(declared, d) && RefersTo(lib, cms, declared, svc)
                   && (declared.usedPorts != [] || NumbersSome(lib, cms, declared, svc)
                       || (declared.name != "" && svc.network != [])) {
      var r := AnalysedOf(lib, infos, cms, rs, declared);
      InlinedKeeps(lib, cms, declared, r);
      ReferencesAreDeclared(lib, cms, declared, r, svc, infos);
      assert YieldsPorts(r, after);
    }
  }

  /** Exactly which inputs crash. */
  lemma {:induction false} RunCrashesExactly(lib: Lib, infos: seq<Info>, f: Run.Findings)
    requires Run.FindingsOf(lib, infos, f)
    ensures !NamedTargets(f.connections) <==> DeclaredCrash(lib, infos)
  {
    hide InlinedAll, Inlined, WorkloadsIn, ConfigMapsIn, ByName, AnalysedServices, Discover;
    hide CrashesAt, DeclaredCrashAt, NamedTargets;
    var cms := ByName(ConfigMapsIn(infos));
    var links := AnalysedServices(infos);
    CrashExactly(f.resources, links);
    if e, after :| e in f.resources && after in links && CrashesAt(f.resources, e, after) {
      var d := DeclaredOf(lib, infos, cms, f.resources, e);
      AnalysedServicesElements(infos, after);
      var svc :| ServiceInfo(svc) in infos && after == AnalysedService(infos, svc);
      CrashAtIsDeclared(lib, infos, f.resources, d, e, svc);
    }
    if d, svc :| WorkloadInfo(d) in infos && ServiceInfo(svc) in infos && DeclaredCrashAt(lib, infos, d, svc) {
      var e := AnalysedOf(lib, infos, cms, f.resources, d);
      AnalysedServicesElements(infos, AnalysedService(infos, svc));
      CrashAtIsDeclared(lib, infos, f.resources, d, e, svc);
      assert CrashesAt(f.resources, e, AnalysedService(infos, svc));
    }
  }

  /** If every workload has a name, no run crashes. */
  lemma NamedWorkloadsNeverCrash(lib: Lib, infos: seq<Info>, f: Run.Findings)
    requires Run.FindingsOf(lib, infos, f) && AllNamed(WorkloadsIn(infos))
    ensures NamedTargets(f.connections)
  {
    hide Run.FindingsOf, WorkloadsIn, NamedTargets;
    RunCrashesExactly(lib, infos, f);
    InfosElements(infos);
  }

  // ----- exactness -----

  /** Parsed workloads do not record any used ports yet. */
  predicate NothingUsed(infos: seq<Info>) {
    forall r :: r in WorkloadsIn(infos) ==> r.usedPorts == []
  }

  lemma {:induction false} PortsUsedElements(addrs: seq<string>, svc: Service, viewerNs: string, p: SvcNetworkAttr)
    ensures p in PortsUsedBy(addrs, svc, viewerNs) <==> exists a :: a in addrs && p in PortUsedBy(a, svc, viewerNs)
  {
    if addrs != [] {
      var init, last := addrs[..|addrs| - 1], addrs[|addrs| - 1];
      assert addrs == init + [last];
      PortsUsedElements(init, svc, viewerNs, p);
    }
  }

  /** The ports that an analysed workload uses, by the declarations. */
  lemma {:induction false} UsedAreNumbered(lib: Lib, cms: CfgMaps, d: Resource, r: Resource, svc: Service,
                                           infos: seq<Info>, p: NetpolPort)
    requires Inlined(lib, cms, d, r)
    ensures var used := PortsUsedBy(r.networkAddrs, AnalysedService(infos, svc), r.namespace);
            && (used != [] <==> NumbersSome(lib, cms, d, svc))
            && ((exists q :: q in used && Translates(q, p))
                <==> exists q :: Numbers(lib, cms, d, svc, q) && Translates(q, p))
  {
    hide Match, Configures, Inlined, AnalysedService;
    InlinedKeeps(lib, cms, d, r);
    ReferencesAreDeclared(lib, cms, d, r, svc, infos);
    var after := AnalysedService(infos, svc);
    var used := PortsUsedBy(r.networkAddrs, after, r.namespace);
    UsesNothing(r.networkAddrs, after, r.namespace);
    if q :| q in used && Translates(q, p) {
      PortsUsedElements(r.networkAddrs, after, r.namespace, q);
      var a :| a in r.networkAddrs && q in PortUsedBy(a, after, r.namespace);
      ExposureKeepsMatches(a, svc, infos, r.namespace);
      assert Numbers(lib, cms, d, svc, Match(a, svc, r.namespace).value);
    }
    if q :| Numbers(lib, cms, d, svc, q) && Translates(q, p) {
      var a :| Configures(lib, cms, d, a) && Match(a, svc, d.namespace) == Some(q) && q.port > 0;
      ExposureKeepsMatches(a, svc, infos, r.namespace);
      var after_q := Match(a, after, r.namespace).value;
      assert after_q in PortUsedBy(a, after, r.namespace);
      PortsUsedElements(r.networkAddrs, after, r.namespace, after_q);
    }
  }

  /** The ports of a sourced connection, by the declarations. */
  lemma {:induction false} PortsAreRequested(lib: Lib, infos: seq<Info>, d: Resource, r: Resource, target: Resource,
                                             svc: Service, p: NetpolPort)
    requires Inlined(lib, ByName(ConfigMapsIn(infos)), d, r) && d.usedPorts == [] && d.name != ""
    ensures var after := AnalysedService(infos, svc);
            References(r, after) && p in PortsOf(Connection(Some(AsSource(r, after)), target, after))
            <==> Requests(lib, ByName(ConfigMapsIn(infos)), d, svc, p)
  {
    hide Inlined, ConfigMapsIn, ByName, References, RefersTo, Numbers, AnalysedService, Translates;
    hide PortsUsedBy, PortsOf;
    var cms, after := ByName(ConfigMapsIn(infos)), AnalysedService(infos, svc);
    InlinedKeeps(lib, cms, d, r);
    ReferencesAreDeclared(lib, cms, d, r, svc, infos);
    UsedAreNumbered(lib, cms, d, r, svc, infos, p);
    ExposedPorts(infos, svc, p);
    assert AsSource(r, after).usedPorts == PortsUsedBy(r.networkAddrs, after, r.namespace);
    PortsOfElements(Connection(Some(AsSource(r, after)), target, after), p);
  }

  lemma {:induction false} UseIsDeclared(lib: Lib, infos: seq<Info>, rs: seq<Resource>,
                                         ws: Resource, wd: Resource, p: NetpolPort)
    requires InlinedAll(lib, ByName(ConfigMapsIn(infos)), WorkloadsIn(infos), rs)
    requires AllNamed(WorkloadsIn(infos)) && NothingUsed(infos)
    ensures UsesPort(rs, AnalysedServices(infos), ws, wd, p) <==> DeclaredUse(lib, infos, ws.name, wd.name, p)
  {
    hide InlinedAll, Inlined, WorkloadsIn, ConfigMapsIn, ByName, AnalysedServices;
    hide References, AnalysedService, Requests, Contained, PortsOf, AsSource;
    var cms, links := ByName(ConfigMapsIn(infos)), AnalysedServices(infos);
    InfosElements(infos);
    if r, e, after :| && r in rs && e in rs && after in links && r.name == ws.name && e.name == wd.name
                      && Distinct(r, e)
                      && Fronts(after, e) && References(r, after)
                      && p in PortsOf(Connection(Some(AsSource(r, after)), e, after)) {
      AnalysedServicesElements(infos, after);
      var svc :| ServiceInfo(svc) in infos && after == AnalysedService(infos, svc);
      var dr := DeclaredOf(lib, infos, cms, rs, r);
      var de := DeclaredOf(lib, infos, cms, rs, e);
      InlinedKeeps(lib, cms, dr, r);
      InlinedKeeps(lib, cms, de, e);
      ExposureKeepsLength(svc, infos);
      PortsAreRequested(lib, infos, dr, r, e, svc, p);
      assert Fronts(svc, de) && Distinct(dr, de);
    }
    if dr, de, svc :| && WorkloadInfo(dr) in infos && WorkloadInfo(de) in infos && ServiceInfo(svc) in infos
                      && dr.name == ws.name && de.name == wd.name && Distinct(dr, de)
                      && Fronts(svc, de) && Requests(lib, cms, dr, svc, p) {
      var after := AnalysedService(infos, svc);
      AnalysedServicesElements(infos, after);
      var r := AnalysedOf(lib, infos, cms, rs, dr);
      var e := AnalysedOf(lib, infos, cms, rs, de);
      InlinedKeeps(lib, cms, dr, r);
      InlinedKeeps(lib, cms, de, e);
      ExposureKeepsLength(svc, infos);
      PortsAreRequested(lib, infos, dr, r, e, svc, p);
      assert Fronts(after, e) && Distinct(r, e);
    }
  }

  lemma {:induction false} SourcelessPortsAre(d: Resource, svc: Service, p: NetpolPort)
    ensures p in PortsOf(Connection(None, d, svc))
            <==> exists q :: q in svc.network && Translates(q, p) && (svc.exposeExternally || q.exposeToCluster)
  {
    PortsOfElements(Connection(None, d, svc), p);
  }

  /** The ports of an external Service are open to everyone whoever refers to it. */
  lemma {:induction false} ExternalPortsAre(r: Resource, d: Resource, svc: Service, p: NetpolPort)
    requires r.usedPorts == [] && svc.exposeExternally
    requires p in PortsOf(Connection(Some(AsSource(r, svc)), d, svc))
    ensures exists q :: q in svc.network && Translates(q, p)
  {
    hide PortUsedBy, Translates;
    var c := Connection(Some(AsSource(r, svc)), d, svc);
    PortsOfElements(c, p);
    if c.source.value.usedPorts != [] {
      var q :| q in c.source.value.usedPorts && Translates(q, p);
      PortsUsedElements(r.networkAddrs, svc, r.namespace, q);
      var a :| a in r.networkAddrs && q in PortUsedBy(a, svc, r.namespace);
      UsedPortIsListed(a, svc, r.namespace, q);
    }
  }

  lemma UsedPortIsListed(a: string, svc: Service, viewerNs: string, q: SvcNetworkAttr)
    requires q in PortUsedBy(a, svc, viewerNs)
    ensures q in svc.network
  {
    MatchedPortIsListed(a, svc.network, PossibleAddresses(svc, viewerNs));
  }

  /** What an offer takes, in terms of analysed objects. */
  predicate PlainOffer(d: Resource, svc: Service, target: string, q: SvcNetworkAttr, p: NetpolPort) {
    && d.name == target && Fronts(svc, d)
    && q in svc.network && Translates(q, p) && (svc.exposeExternally || q.exposeToCluster)
  }

  /** What is offered to everyone: the ports of external Services and the flagged ones. */
  lemma {:induction false} OffersAre(resources: seq<Resource>, links: seq<Service>, wd: Resource, p: NetpolPort)
    requires forall r :: r in resources ==> r.usedPorts == []
    ensures OffersPort(resources, links, wd, p)
            <==> exists d, svc, q :: d in resources && svc in links && PlainOffer(d, svc, wd.name, q, p)
  {
    hide PortsOf, References, Fronts, AsSource, Translates;
    if c :| Discoverable(resources, links, c) && c.target.name == wd.name && p in PortsOf(c)
            && (c.link.exposeExternally || c.source.None?) {
      if c.source.Some? {
        var r :| r in resources && References(r, c.link) && Distinct(r, c.target)
            && c.source.value == AsSource(r, c.link);
        assert c == Connection(Some(AsSource(r, c.link)), c.target, c.link);
        ExternalPortsAre(r, c.target, c.link, p);
      } else {
        assert c == Connection(None, c.target, c.link);
        SourcelessPortsAre(c.target, c.link, p);
      }
      var q :| q in c.link.network && Translates(q, p) && (c.link.exposeExternally || q.exposeToCluster);
      assert PlainOffer(c.target, c.link, wd.name, q, p);
    }
    if d, svc, q :| d in resources && svc in links && PlainOffer(d, svc, wd.name, q, p) {
      SourcelessPortsAre(d, svc, p);
      assert Discoverable(resources, links, Connection(None, d, svc));
    }
  }

  lemma {:induction false} OfferIsDeclared(lib: Lib, infos: seq<Info>, rs: seq<Resource>,
                                           wd: Resource, p: NetpolPort)
    requires InlinedAll(lib, ByName(ConfigMapsIn(infos)), WorkloadsIn(infos), rs) && NothingUsed(infos)
    ensures OffersPort(rs, AnalysedServices(infos), wd, p) <==> DeclaredOffer(infos, wd.name, p)
  {
    hide InlinedAll, Inlined, WorkloadsIn, ConfigMapsIn, ByName, AnalysedServices;
    hide OffersPort, Flagged, Fronts, AnalysedService, Translates, NothingUsed, PlainOffer, DeclaredOffer;
    var cms, links := ByName(ConfigMapsIn(infos)), AnalysedServices(infos);
    AnalysedUseNothing(lib, infos, cms, rs);
    OffersAre(rs, links, wd, p);
    if e, after, q :| e in rs && after in links && PlainOffer(e, after, wd.name, q, p) {
      AnalysedServicesElements(infos, after);
      var svc :| ServiceInfo(svc) in infos && after == AnalysedService(infos, svc);
      var d := DeclaredOf(lib, infos, cms, rs, e);
      OfferedPort(lib, infos, d, e, svc, q, wd.name, p);
    }
    if DeclaredOffer(infos, wd.name, p) {
      var d, svc := OfferedBy(infos, wd.name, p);
      AnalysedServicesElements(infos, AnalysedService(infos, svc));
      var e := AnalysedOf(lib, infos, cms, rs, d);
      var q := AnalysedPort(lib, infos, d, e, svc, p);
    }
  }

  lemma OfferedBy(infos: seq<Info>, target: string, p: NetpolPort) returns (d: Resource, svc: Service)
    requires DeclaredOffer(infos, target, p)
    ensures WorkloadInfo(d) in infos && ServiceInfo(svc) in infos && d.name == target && Fronts(svc, d)
    ensures exists q :: q in svc.network && Translates(q, p) && (svc.exposeExternally || Flagged(infos, svc, q))
  {
    hide Fronts, Flagged, Translates;
    var q;
    d, svc, q :| && WorkloadInfo(d) in infos && ServiceInfo(svc) in infos && d.name == target && Fronts(svc, d)
                 && q in svc.network && Translates(q, p) && (svc.exposeExternally || Flagged(infos, svc, q));
  }

  lemma AnalysedUseNothing(lib: Lib, infos: seq<Info>, cms: CfgMaps, rs: seq<Resource>)
    requires InlinedAll(lib, cms, WorkloadsIn(infos), rs) && NothingUsed(infos)
    ensures forall r :: r in rs ==> r.usedPorts == []
  {
    hide WorkloadsIn, InlinedAll, Inlined;
    InfosElements(infos);
    forall r | r in rs ensures r.usedPorts == [] {
      var d := DeclaredOf(lib, infos, cms, rs, r);
      InlinedKeeps(lib, cms, d, r);
    }
  }

  lemma OfferedPort(lib: Lib, infos: seq<Info>, d: Resource, e: Resource, svc: Service,
                    q: SvcNetworkAttr, target: string, p: NetpolPort)
    requires WorkloadInfo(d) in infos && ServiceInfo(svc) in infos
    requires Inlined(lib, ByName(ConfigMapsIn(infos)), d, e) && PlainOffer(e, AnalysedService(infos, svc), target, q, p)
    ensures DeclaredOffer(infos, target, p)
  {
    hide Inlined, AnalysedService, Translates, Flagged;
    InlinedKeeps(lib, ByName(ConfigMapsIn(infos)), d, e);
    ExposureKeepsLength(svc, infos);
    ExposedPorts(infos, svc, p);
    var q' :| q' in svc.network && Translates(q', p) && (svc.exposeExternally || Flagged(infos, svc, q'));
    assert Fronts(svc, d);
  }

  lemma AnalysedPort(lib: Lib, infos: seq<Info>, d: Resource, e: Resource, svc: Service, p: NetpolPort)
    returns (q: SvcNetworkAttr)
    requires Inlined(lib, ByName(ConfigMapsIn(infos)), d, e) && Fronts(svc, d)
    requires exists offered :: offered in svc.network && Translates(offered, p)
                          && (svc.exposeExternally || Flagged(infos, svc, offered))
    ensures PlainOffer(e, AnalysedService(infos, svc), d.name, q, p)
  {
    hide Inlined, AnalysedService, Translates, Flagged;
    InlinedKeeps(lib, ByName(ConfigMapsIn(infos)), d, e);
    ExposureKeepsLength(svc, infos);
    ExposedPorts(infos, svc, p);
    var after := AnalysedService(infos, svc);
    q :| q in after.network && Translates(q, p) && (after.exposeExternally || q.exposeToCluster);
  }

  // ----- the theorem -----

  lemma AnalysedIsSame(lib: Lib, cms: CfgMaps, d: Resource, r: Resource)
    requires Inlined(lib, cms, d, r)
    ensures SameWorkload(d, r)
  {
    InlinedKeeps(lib, cms, d, r);
  }

  /** What holds of the names, namespaces and labels of declared workloads holds of analysed ones. */
  lemma {:induction false} AnalysedAreFit(lib: Lib, infos: seq<Info>, cms: CfgMaps, rs: seq<Resource>)
    requires InlinedAll(lib, cms, WorkloadsIn(infos), rs)
    requires WorkloadsIdentified(WorkloadsIn(infos)) && AllNamed(WorkloadsIn(infos))
    requires NamespacesAgree(WorkloadsIn(infos)) && Antichain(WorkloadsIn(infos))
    ensures WorkloadsIdentified(rs) && AllNamed(rs) && NamespacesAgree(rs) && Antichain(rs)
  {
    hide WorkloadsIn, InlinedAll, Inlined;
    InfosElements(infos);
    forall r1, r2 | r1 in rs && r2 in rs
      ensures r1.name == r2.name != "" ==> SameWorkload(r1, r2)
      ensures r1.name != "" && (r1.namespace == "" ==> r2.namespace == "")
      ensures Inherits(r1, r2) ==> r1.name == r2.name
    {
      var d1 := DeclaredOf(lib, infos, cms, rs, r1);
      var d2 := DeclaredOf(lib, infos, cms, rs, r2);
      AnalysedIsSame(lib, cms, d1, r1);
      AnalysedIsSame(lib, cms, d2, r2);
      assert Inherits(r1, r2) <==> Inherits(d1, d2);
    }
  }

  lemma {:induction false} SenderIsDeclared(lib: Lib, infos: seq<Info>, rs: seq<Resource>,
                                            ws: Resource)
    requires InlinedAll(lib, ByName(ConfigMapsIn(infos)), WorkloadsIn(infos), rs)
    requires AllNamed(WorkloadsIn(infos)) && NothingUsed(infos)
    ensures UsesSomePort(rs, AnalysedServices(infos), ws) <==> DeclaredSender(lib, infos, ws.name)
  {
    hide InlinedAll, WorkloadsIn, ConfigMapsIn, ByName, AnalysedServices, NothingUsed;
    hide Requests, References, Fronts, AsSource, PortsOf, AllNamed;
    var links := AnalysedServices(infos);
    if wd, p :| wd in rs && UsesPort(rs, links, ws, wd, p) {
      UseIsDeclared(lib, infos, rs, ws, wd, p);
    }
    if target, p :| DeclaredUse(lib, infos, ws.name, target, p) {
      var wd :| WorkloadInfo(wd) in infos && wd.name == target;
      UseIsDeclared(lib, infos, rs, ws, wd, p);
      var r, e, svc :| && r in rs && e in rs && svc in links
                       && r.name == ws.name && e.name == wd.name && Distinct(r, e)
                       && Fronts(svc, e) && References(r, svc)
                       && p in PortsOf(Connection(Some(AsSource(r, svc)), e, svc));
      assert UsesPort(rs, links, ws, e, p);
    }
  }

  /** A run allows exactly what the manifests declare: a flow between the pods of two workloads is
      allowed if and only if the first is configured with an address of a Service in front of the
      second and asks for that port, or it is DNS where that is open anyway. */
  lemma {:induction false} RunIsExact(lib: Lib, infos: seq<Info>, f: Run.Findings, dnsPort: IntOrString,
                                      ws: Resource, wd: Resource, p: NetpolPort)
    requires Run.FindingsOf(lib, infos, f) && NothingUsed(infos)
    requires WorkloadsIdentified(WorkloadsIn(infos)) && AllNamed(WorkloadsIn(infos))
    requires NamespacesAgree(WorkloadsIn(infos)) && Antichain(WorkloadsIn(infos))
    requires WorkloadInfo(ws) in infos && WorkloadInfo(wd) in infos
    ensures Allows(Synth(f.resources, f.connections, dnsPort), PodFor(ws), PodFor(wd), p)
            <==> || DeclaredUse(lib, infos, ws.name, wd.name, p)
                 || (p == NetpolPort("UDP", dnsPort) && DeclaredSender(lib, infos, ws.name)
                     && DeclaredOffer(infos, wd.name, p))
  {
    hide InlinedAll, Inlined, WorkloadsIn, ConfigMapsIn, ByName, AnalysedServices, WorkloadsIdentified, AllNamed;
    hide NamespacesAgree, Antichain, NothingUsed, Discover;
    hide Allows, Synth, UsesPort, UsesSomePort, OffersPort, DeclaredUse, DeclaredOffer, DeclaredSender;
    var cms := ByName(ConfigMapsIn(infos));
    var links := AnalysedServices(infos);
    AnalysedAreFit(lib, infos, cms, f.resources);
    var rs := AnalysedOf(lib, infos, cms, f.resources, ws);
    var rd := AnalysedOf(lib, infos, cms, f.resources, wd);
    AnalysedIsSame(lib, cms, ws, rs);
    AnalysedIsSame(lib, cms, wd, rd);
    AntichainPipelineIsExact(f.resources, links, dnsPort, rs, rd, p);
    UseIsDeclared(lib, infos, f.resources, rs, rd, p);
    SenderIsDeclared(lib, infos, f.resources, rs);
    OfferIsDeclared(lib, infos, f.resources, rd, p);
  }

  // ----- Services by their selectors -----

  /** The selector strings of `svc` list this label map. */
  ghost predicate Lists(svc: Service, selector: Selector) {
    ColonFreeKeys(selector) && forall s :: s in svc.selectors <==> s in EncodedLabels(selector)
  }

  /** What a Service selects in a cluster: nothing, if it has no selector. */
  ghost predicate SelectedInCluster(svc: Service, selector: Selector, d: Resource) {
    svc.namespace == d.namespace && selector != map[] && Matches(selector, d.labels)
  }

  /** The analyzer puts a Service in front of exactly the workloads that it selects in a cluster,
      if and only if it has a selector; without one it is put in front of its whole namespace. */
  lemma {:induction false} FrontsExactly(svc: Service, selector: Selector)
    requires Lists(svc, selector)
    ensures (forall d: Resource :: ColonFreeKeys(d.labels) ==>
               (Fronts(svc, d) <==> SelectedInCluster(svc, selector, d)))
            <==> selector != map[]
  {
    forall d: Resource | ColonFreeKeys(d.labels)
      ensures Contained(d.labels, svc.selectors) <==> Matches(selector, d.labels)
    {
      SelectorEncodingIsFaithful(d.labels, selector, svc.selectors);
    }
    var d := Resource("", svc.namespace, map[], "", [], [], [], []);
    assert ColonFreeKeys(d.labels);
  }

  ghost predicate SelectedUse(lib: Lib, infos: seq<Info>, selectors: map<Service, Selector>,
                              source: string, target: string, p: NetpolPort) {
    exists r, d, svc ::
      && WorkloadInfo(r) in infos && WorkloadInfo(d) in infos && ServiceInfo(svc) in infos && svc in selectors
      && r.name == source && d.name == target && Distinct(r, d)
      && SelectedInCluster(svc, selectors[svc], d) && Requests(lib, ByName(ConfigMapsIn(infos)), r, svc, p)
  }

  ghost predicate SelectedOffer(infos: seq<Info>, selectors: map<Service, Selector>, target: string, p: NetpolPort) {
    exists d, svc, q ::
      && WorkloadInfo(d) in infos && ServiceInfo(svc) in infos && svc in selectors
      && d.name == target && SelectedInCluster(svc, selectors[svc], d)
      && q in svc.network && Translates(q, p) && (svc.exposeExternally || Flagged(infos, svc, q))
  }

  /** Every declared Service has a selector, and no label key contains the separator. */
  ghost predicate SelectorsGiven(infos: seq<Info>, selectors: map<Service, Selector>) {
    && (forall svc :: ServiceInfo(svc) in infos ==>
          svc in selectors && Lists(svc, selectors[svc]) && selectors[svc] != map[])
    && (forall r :: WorkloadInfo(r) in infos ==> ColonFreeKeys(r.labels))
  }

  lemma {:induction false} SelectedMeansFronted(infos: seq<Info>, selectors: map<Service, Selector>, svc: Service,
                                                d: Resource)
    requires SelectorsGiven(infos, selectors) && ServiceInfo(svc) in infos && WorkloadInfo(d) in infos
    ensures Fronts(svc, d) <==> SelectedInCluster(svc, selectors[svc], d)
  {
    hide Fronts, SelectedInCluster, Lists;
    FrontsExactly(svc, selectors[svc]);
  }

  lemma {:induction false} SelectedMeansDeclared(lib: Lib, infos: seq<Info>, selectors: map<Service, Selector>,
                                                 source: string, target: string, p: NetpolPort)
    requires SelectorsGiven(infos, selectors)
    ensures DeclaredUse(lib, infos, source, target, p) <==> SelectedUse(lib, infos, selectors, source, target, p)
    ensures DeclaredOffer(infos, target, p) <==> SelectedOffer(infos, selectors, target, p)
  {
    hide Fronts, SelectedInCluster, Lists, Requests, Flagged, ColonFreeKeys, Translates, ByName, ConfigMapsIn;
    forall svc, d | ServiceInfo(svc) in infos && WorkloadInfo(d) in infos
      ensures svc in selectors && (Fronts(svc, d) <==> SelectedInCluster(svc, selectors[svc], d))
    {
      SelectedMeansFronted(infos, selectors, svc, d);
    }
    assert DeclaredUse(lib, infos, source, target, p) <==> SelectedUse(lib, infos, selectors, source, target, p) by {
      hide DeclaredOffer, SelectedOffer;
    }
    assert DeclaredOffer(infos, target, p) <==> SelectedOffer(infos, selectors, target, p) by {
      hide DeclaredUse, SelectedUse;
    }
  }

  /** The same for Services given by their label maps, as a cluster understands them. */
  lemma {:induction false} RunIsExactForSelectors(lib: Lib, infos: seq<Info>, selectors: map<Service, Selector>,
                                                  f: Run.Findings, dnsPort: IntOrString,
                                                  ws: Resource, wd: Resource, p: NetpolPort)
    requires Run.FindingsOf(lib, infos, f) && NothingUsed(infos) && SelectorsGiven(infos, selectors)
    requires WorkloadsIdentified(WorkloadsIn(infos)) && AllNamed(WorkloadsIn(infos))
    requires NamespacesAgree(WorkloadsIn(infos)) && Antichain(WorkloadsIn(infos))
    requires WorkloadInfo(ws) in infos && WorkloadInfo(wd) in infos
    ensures Allows(Synth(f.resources, f.connections, dnsPort), PodFor(ws), PodFor(wd), p)
            <==> || SelectedUse(lib, infos, selectors, ws.name, wd.name, p)
                 || (p == NetpolPort("UDP", dnsPort)
                     && (exists target, q :: SelectedUse(lib, infos, selectors, ws.name, target, q))
                     && SelectedOffer(infos, selectors, wd.name, p))
  {
    hide Run.FindingsOf, WorkloadsIn, WorkloadsIdentified, AllNamed, NamespacesAgree, Antichain, NothingUsed;
    hide Allows, Synth, DeclaredUse, DeclaredOffer, SelectedUse, SelectedOffer, SelectorsGiven;
    RunIsExact(lib, infos, f, dnsPort, ws, wd, p);
    forall target, q
      ensures DeclaredUse(lib, infos, ws.name, target, q) <==> SelectedUse(lib, infos, selectors, ws.name, target, q)
    {
      SelectedMeansDeclared(lib, infos, selectors, ws.name, target, q);
    }
    SelectedMeansDeclared(lib, infos, selectors, ws.name, wd.name, p);
  }
}
