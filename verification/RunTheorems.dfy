/** Whole runs: the traffic that the policies allow depends only on which objects the
    manifests declare, not on their order nor on the order in which ConfigMaps are read. */
module RunTheorems {
  import opened Model
  import opened Netpol
  import opened Sequences
  import opened Addresses
  import opened Selectors
  import opened AddressExtraction
  import opened Exposure
  import opened Inlining
  import opened InliningTheorems
  import opened ManifestSpec
  import opened Accumulator
  import opened SynthSpec
  import opened SynthTheorems
  import opened OrderTheorems
  import opened DiscoverySpec
  import opened Pipeline
  import Run = RunSpec

  // ----- workloads that differ in the order of their addresses -----

  ghost predicate SameButOrder(r1: Resource, r2: Resource) {
    && r2 == r1.(networkAddrs := r2.networkAddrs)
    && multiset(r1.networkAddrs) == multiset(r2.networkAddrs)
  }

  ghost predicate AllFoundIn(rs1: seq<Resource>, rs2: seq<Resource>) {
    forall r1 :: r1 in rs1 ==> exists r2 :: r2 in rs2 && SameButOrder(r1, r2)
  }

  lemma SameReferences(r1: Resource, r2: Resource, svc: Service)
    requires SameButOrder(r1, r2)
    ensures References(r1, svc) <==> References(r2, svc)
  {
    PermutationElements(r1.networkAddrs, r2.networkAddrs);
  }

  lemma {:induction false} PortsUsedMap(f: string -> seq<SvcNetworkAttr>, addrs: seq<string>, svc: Service,
                                        viewerNs: string)
    requires forall a :: f(a) == PortUsedBy(a, svc, viewerNs)
    ensures PortsUsedBy(addrs, svc, viewerNs) == FlatMap(f, addrs)
  {
    hide PortUsedBy;
    if addrs != [] {
      PortsUsedMap(f, addrs[..|addrs| - 1], svc, viewerNs);
    }
  }

  lemma {:induction false} SamePortsUsed(r1: Resource, r2: Resource, svc: Service)
    requires SameButOrder(r1, r2)
    ensures multiset(AsSource(r1, svc).usedPorts) == multiset(AsSource(r2, svc).usedPorts)
  {
    var f := (a: string) => PortUsedBy(a, svc, r1.namespace);
    PortsUsedMap(f, r1.networkAddrs, svc, r1.namespace);
    PortsUsedMap(f, r2.networkAddrs, svc, r1.namespace);
    FlatMapPermutes(f, r1.networkAddrs, r2.networkAddrs);
  }

  lemma {:induction false} NetpolPortsMap(f: SvcNetworkAttr -> seq<NetpolPort>, ports: seq<SvcNetworkAttr>)
    requires forall p :: f(p) == [ToNetpolPort(p)]
    ensures ToNetpolPorts(ports, false) == FlatMap(f, ports)
  {
    hide ToNetpolPort;
    if ports != [] {
      NetpolPortsMap(f, ports[..|ports| - 1]);
    }
  }

  lemma {:induction false} PermutedPorts(ports1: seq<SvcNetworkAttr>, ports2: seq<SvcNetworkAttr>)
    requires multiset(ports1) == multiset(ports2)
    ensures multiset(ToNetpolPorts(ports1, false)) == multiset(ToNetpolPorts(ports2, false))
    ensures ports1 == [] <==> ports2 == []
  {
    var f := p => [ToNetpolPort(p)];
    NetpolPortsMap(f, ports1);
    NetpolPortsMap(f, ports2);
    FlatMapPermutes(f, ports1, ports2);
    PermutationElements(ports1, ports2);
  }

  lemma SourcedAlike(r1: Resource, r2: Resource, d1: Resource, d2: Resource, svc: Service)
    requires SameButOrder(r1, r2) && SameButOrder(d1, d2)
    ensures SameEffect(false, Connection(Some(AsSource(r1, svc)), d1, svc),
                       Connection(Some(AsSource(r2, svc)), d2, svc))
  {
    SamePortsUsed(r1, r2, svc);
    PermutedPorts(AsSource(r1, svc).usedPorts, AsSource(r2, svc).usedPorts);
  }

  lemma SourcelessAlike(d1: Resource, d2: Resource, svc: Service)
    requires SameButOrder(d1, d2)
    ensures SameEffect(false, Connection(None, d1, svc), Connection(None, d2, svc))
  {
  }

  lemma UnreferencedIn(rs1: seq<Resource>, rs2: seq<Resource>, svc: Service)
    requires AllFoundIn(rs2, rs1) && forall r :: r in rs1 ==> !References(r, svc)
    ensures forall r :: r in rs2 ==> !References(r, svc)
  {
    forall r2 | r2 in rs2 ensures !References(r2, svc) {
      var r1 :| r1 in rs1 && SameButOrder(r2, r1);
      SameReferences(r2, r1, svc);
    }
  }

  lemma SourcedIsFound(rs1: seq<Resource>, rs2: seq<Resource>, links: seq<Service>, c1: Connection, r1: Resource)
    returns (c2: Connection)
    requires AllFoundIn(rs1, rs2)
    requires c1.target in rs1 && c1.link in links && Fronts(c1.link, c1.target)
    requires r1 in rs1 && References(r1, c1.link) && Distinct(r1, c1.target)
    requires c1 == Connection(Some(AsSource(r1, c1.link)), c1.target, c1.link)
    ensures Discoverable(rs2, links, c2) && SameEffect(false, c1, c2) && c2.source.Some?
  {
    hide References, AsSource, SameEffect, Contained;
    var d2 :| d2 in rs2 && SameButOrder(c1.target, d2);
    var r2 :| r2 in rs2 && SameButOrder(r1, r2);
    SameReferences(r1, r2, c1.link);
    SourcedAlike(r1, r2, c1.target, d2, c1.link);
    c2 := Connection(Some(AsSource(r2, c1.link)), d2, c1.link);
  }

  lemma SourcelessIsDiscoverable(rs: seq<Resource>, links: seq<Service>, d: Resource, svc: Service)
    requires d in rs && svc in links && Fronts(svc, d)
    requires HasExposedPorts(svc) || forall r :: r in rs ==> !References(r, svc)
    ensures Discoverable(rs, links, Connection(None, d, svc))
  {
    hide References, Fronts, HasExposedPorts;
  }

  lemma {:induction false} SourcelessIsFound(rs1: seq<Resource>, rs2: seq<Resource>, links: seq<Service>,
                                             d1: Resource, svc: Service)
    returns (c2: Connection)
    requires AllFoundIn(rs1, rs2) && AllFoundIn(rs2, rs1)
    requires d1 in rs1 && svc in links && Fronts(svc, d1)
    requires HasExposedPorts(svc) || forall r :: r in rs1 ==> !References(r, svc)
    ensures Discoverable(rs2, links, c2) && SameEffect(false, Connection(None, d1, svc), c2)
    ensures c2 == Connection(None, c2.target, svc) && SameButOrder(d1, c2.target)
  {
    hide References, Contained, HasExposedPorts, SameEffect, Discoverable;
    var d2 :| d2 in rs2 && SameButOrder(d1, d2);
    if !HasExposedPorts(svc) {
      UnreferencedIn(rs1, rs2, svc);
    }
    SourcelessIsDiscoverable(rs2, links, d2, svc);
    SourcelessAlike(d1, d2, svc);
    c2 := Connection(None, d2, svc);
  }

  /** Every connection found with one list is found, with the same effect, with the other. */
  lemma SameConnections(rs1: seq<Resource>, rs2: seq<Resource>, links1: seq<Service>, links2: seq<Service>)
    requires AllFoundIn(rs1, rs2) && AllFoundIn(rs2, rs1)
    requires forall svc :: svc in links1 ==> svc in links2
    ensures EffectsWithin(false, Discover(rs1, links1), Discover(rs2, links2))
  {
    hide Discover, SameEffect, References, Fronts, HasExposedPorts, AllFoundIn, AsSource;
    forall c1 | c1 in Discover(rs1, links1)
      ensures exists c2 :: c2 in Discover(rs2, links2) && SameEffect(false, c1, c2)
    {
      DiscoveryIsAJoin(rs1, links1, c1);
      var c2;
      if c1.source.Some? {
        var r1 :| r1 in rs1 && References(r1, c1.link) && Distinct(r1, c1.target)
            && c1.source.value == AsSource(r1, c1.link);
        c2 := SourcedIsFound(rs1, rs2, links2, c1, r1);
      } else {
        c2 := SourcelessIsFound(rs1, rs2, links2, c1.target, c1.link);
        assert c1 == Connection(None, c1.target, c1.link);
      }
      DiscoveryIsAJoin(rs2, links2, c2);
    }
  }

  // ----- from objects to findings -----

  ghost predicate SameObjects(infos1: seq<Info>, infos2: seq<Info>) {
    forall x :: x in infos1 <==> x in infos2
  }

  /** No two different ConfigMaps have one full name. */
  ghost predicate ConfigMapsUnique(infos: seq<Info>) {
    forall cm1, cm2 :: ConfigMapInfo(cm1) in infos && ConfigMapInfo(cm2) in infos && cm1.fullName == cm2.fullName
                       ==> cm1 == cm2
  }

  lemma {:induction false} SameConfigMaps(infos1: seq<Info>, infos2: seq<Info>)
    requires SameObjects(infos1, infos2) && ConfigMapsUnique(infos1)
    ensures ByName(ConfigMapsIn(infos1)) == ByName(ConfigMapsIn(infos2))
  {
    hide ByName, ConfigMapsIn;
    var cms1, cms2 := ConfigMapsIn(infos1), ConfigMapsIn(infos2);
    InfosElements(infos1);
    InfosElements(infos2);
    forall name ensures name in ByName(cms1) <==> name in ByName(cms2)
                ensures name in ByName(cms1) && name in ByName(cms2) ==> ByName(cms1)[name] == ByName(cms2)[name] {
      LastDuplicateWins(cms1, name);
      LastDuplicateWins(cms2, name);
    }
  }

  /** The list with its `i`-th element moved to the end. */
  function ToEnd<T>(s: seq<T>, i: nat): seq<T>
    requires i < |s|
  {
    s[..i] + s[i + 1..] + [s[i]]
  }

  lemma LastIsInEffect(infos: seq<Info>, cm: CfgMap)
    ensures var cms := ByName(ConfigMapsIn(infos + [ConfigMapInfo(cm)]));
            cm.fullName in cms && cms[cm.fullName] == cm
  {
    assert (infos + [ConfigMapInfo(cm)])[..|infos|] == infos;
    assert (ConfigMapsIn(infos) + [cm])[|ConfigMapsIn(infos)|] == cm;
  }

  lemma ToEndPermutes<T>(s: seq<T>, i: nat)
    requires i < |s|
    ensures multiset(ToEnd(s, i)) == multiset(s)
  {
    assert s == s[..i] + [s[i]] + s[i + 1..];
  }

  /** Which ConfigMaps are in effect depends on the order of manifests exactly if two
      different ones share a full name. */
  lemma {:induction false} ConfigMapOrderExactly(infos: seq<Info>)
    ensures (forall infos1, infos2 :: multiset(infos1) == multiset(infos) && multiset(infos2) == multiset(infos) ==>
               ByName(ConfigMapsIn(infos1)) == ByName(ConfigMapsIn(infos2)))
            <==> ConfigMapsUnique(infos)
  {
    hide ByName, ConfigMapsIn;
    if ConfigMapsUnique(infos) {
      forall infos1, infos2 | multiset(infos1) == multiset(infos) && multiset(infos2) == multiset(infos)
        ensures ByName(ConfigMapsIn(infos1)) == ByName(ConfigMapsIn(infos2))
      {
        PermutationElements(infos1, infos);
        PermutationElements(infos2, infos);
        SameConfigMaps(infos1, infos2);
      }
    }
    if cm1, cm2 :| ConfigMapInfo(cm1) in infos && ConfigMapInfo(cm2) in infos && cm1.fullName == cm2.fullName
                   && cm1 != cm2 {
      var i :| 0 <= i < |infos| && infos[i] == ConfigMapInfo(cm1);
      var j :| 0 <= j < |infos| && infos[j] == ConfigMapInfo(cm2);
      ToEndPermutes(infos, i);
      ToEndPermutes(infos, j);
      LastIsInEffect(infos[..i] + infos[i + 1..], cm1);
      LastIsInEffect(infos[..j] + infos[j + 1..], cm2);
    }
  }

  lemma SameExposures(infos1: seq<Info>, infos2: seq<Info>, e: Exposed)
    requires SameObjects(infos1, infos2)
    ensures ExposedBy(infos1, e) <==> ExposedBy(infos2, e)
  {
  }

  lemma {:induction false} SameServices(infos1: seq<Info>, infos2: seq<Info>)
    requires SameObjects(infos1, infos2)
    ensures forall svc :: svc in AnalysedServices(infos1) ==> svc in AnalysedServices(infos2)
  {
    hide ServicesIn, ExposedBy, Has, ExposedService, ExposureIn;
    var svcs1, svcs2, t1, t2 := ServicesIn(infos1), ServicesIn(infos2), ExposureIn(infos1), ExposureIn(infos2);
    InfosElements(infos1);
    InfosElements(infos2);
    forall e ensures Has(t1, e) <==> Has(t2, e) {
      SameExposures(infos1, infos2, e);
      ExposureElements(infos1, e);
      ExposureElements(infos2, e);
    }
    forall svc | svc in ExposedServices(svcs1, t1) ensures svc in ExposedServices(svcs2, t2) {
      var i :| 0 <= i < |svcs1| && ExposedServices(svcs1, t1)[i] == svc;
      assert svcs1[i] in svcs1;
      assert svcs1[i] in svcs2;
      var j :| 0 <= j < |svcs2| && svcs2[j] == svcs1[i];
      ExposureDependsOnMembership(svcs1[i], t1, t2);
      assert ExposedServices(svcs2, t2)[j] == svc;
    }
  }

  lemma {:induction false} InlinedAlike(lib: Lib, cms: CfgMaps, before: Resource, r1: Resource, r2: Resource)
    requires Inlined(lib, cms, before, r1) && Inlined(lib, cms, before, r2)
    ensures SameButOrder(r1, r2)
  {
    hide AddressesByRef, Flatten;
    var parts1 :| InlinedWith(lib, cms, before, r1, parts1);
    var parts2 :| InlinedWith(lib, cms, before, r2, parts2);
    FlattenPermutes(parts1, parts2);
  }

  lemma SameWorkloads(lib: Lib, infos1: seq<Info>, infos2: seq<Info>, cms: CfgMaps, rs1: seq<Resource>,
                      rs2: seq<Resource>)
    requires SameObjects(infos1, infos2)
    requires InlinedAll(lib, cms, WorkloadsIn(infos1), rs1) && InlinedAll(lib, cms, WorkloadsIn(infos2), rs2)
    ensures AllFoundIn(rs1, rs2)
  {
    hide WorkloadsIn, InlinedAll, Inlined, SameButOrder;
    var before1, before2 := WorkloadsIn(infos1), WorkloadsIn(infos2);
    InfosElements(infos1);
    InfosElements(infos2);
    InlinedEach(lib, cms, before1, rs1);
    InlinedEach(lib, cms, before2, rs2);
    forall r1 | r1 in rs1 ensures exists r2 :: r2 in rs2 && SameButOrder(r1, r2) {
      var i :| 0 <= i < |rs1| && rs1[i] == r1;
      assert before1[i] in before1;
      assert before1[i] in before2;
      var j :| 0 <= j < |before2| && before2[j] == before1[i];
      InlinedAlike(lib, cms, before1[i], rs1[i], rs2[j]);
      assert rs2[j] in rs2;
    }
  }

  /** Inlining leaves everything but the addresses of a workload as declared. */
  lemma InlinedIsDeclared(lib: Lib, infos: seq<Info>, cms: CfgMaps, rs: seq<Resource>, r: Resource)
    returns (declared: Resource)
    requires InlinedAll(lib, cms, WorkloadsIn(infos), rs) && r in rs
    ensures declared in WorkloadsIn(infos) && SameWorkload(declared, r) && declared.kind == r.kind
  {
    hide WorkloadsIn, InlinedAll;
    InlinedEach(lib, cms, WorkloadsIn(infos), rs);
    var i :| 0 <= i < |rs| && rs[i] == r;
    declared := WorkloadsIn(infos)[i];
  }

  lemma {:induction false} AnalysedAreIdentified(lib: Lib, infos: seq<Info>, cms: CfgMaps, rs: seq<Resource>)
    requires InlinedAll(lib, cms, WorkloadsIn(infos), rs) && WorkloadsIdentified(WorkloadsIn(infos))
    ensures WorkloadsIdentified(rs)
  {
    hide WorkloadsIn, InlinedAll;
    forall r1, r2 | r1 in rs && r2 in rs && r1.name == r2.name != "" ensures SameWorkload(r1, r2) {
      var d1 := InlinedIsDeclared(lib, infos, cms, rs, r1);
      var d2 := InlinedIsDeclared(lib, infos, cms, rs, r2);
    }
  }

  /** Names that identify the declared workloads leave nothing for connections to disagree about. */
  lemma {:induction false} IdentifiedWorkloadsAgree(lib: Lib, infos: seq<Info>, f: Run.Findings)
    requires Run.FindingsOf(lib, infos, f) && WorkloadsIdentified(WorkloadsIn(infos))
    ensures FirstEndsAgree(f.connections)
  {
    hide WorkloadsIn, InlinedAll, Discover, NamesIdentify, AnalysedServices, FirstEndsAgree, WorkloadsIdentified;
    hide ByName, ConfigMapsIn, AllAnalysed, AllNamed;
    AnalysedAreIdentified(lib, infos, ByName(ConfigMapsIn(infos)), f.resources);
    DiscoveredConnectionsAreFit(f.resources, AnalysedServices(infos));
    IdentifiedNamesAgree(f.connections);
  }

  /** In a run, a workload refers to a Service exactly when it is configured, directly or
      through a ConfigMap, with an address that denotes the Service. */
  lemma ReferenceMeansConfigured(lib: Lib, cms: CfgMaps, declared: Resource, r: Resource, svc: Service)
    requires Inlined(lib, cms, declared, r)
    ensures References(r, svc)
            <==> exists a :: Configures(lib, cms, declared, a) && Match(a, svc, declared.namespace).Some?
  {
    hide Match, Configures;
    assert r.namespace == declared.namespace;
    forall a ensures a in r.networkAddrs <==> Configures(lib, cms, declared, a) {
      InlinedAddresses(lib, cms, declared, r, a);
    }
  }

  lemma SameObjectsIsSymmetric(infos1: seq<Info>, infos2: seq<Info>)
    requires SameObjects(infos1, infos2)
    ensures SameObjects(infos2, infos1)
  {
  }

  lemma {:induction false} SameRunEffects(lib: Lib, infos1: seq<Info>, infos2: seq<Info>,
                                          f1: Run.Findings, f2: Run.Findings)
    requires SameObjects(infos1, infos2)
    requires ByName(ConfigMapsIn(infos1)) == ByName(ConfigMapsIn(infos2))
    requires Run.FindingsOf(lib, infos1, f1) && Run.FindingsOf(lib, infos2, f2)
    ensures EffectsWithin(false, f1.connections, f2.connections)
    ensures AllFoundIn(f1.resources, f2.resources)
  {
    hide WorkloadsIn, InlinedAll, Discover, AnalysedServices, SameObjects, ByName;
    hide EffectsWithin, AllFoundIn;
    var cms := ByName(ConfigMapsIn(infos1));
    SameObjectsIsSymmetric(infos1, infos2);
    SameWorkloads(lib, infos1, infos2, cms, f1.resources, f2.resources);
    SameWorkloads(lib, infos2, infos1, cms, f2.resources, f1.resources);
    SameServices(infos1, infos2);
    SameConnections(f1.resources, f2.resources, AnalysedServices(infos1), AnalysedServices(infos2));
  }

  lemma FoundCoverNamespaces(rs1: seq<Resource>, rs2: seq<Resource>)
    requires AllFoundIn(rs2, rs1)
    ensures CoversNamespaces(rs1, rs2)
  {
  }

  // ----- determinism -----

  lemma {:induction false} InlinedAllOf(lib: Lib, cms: CfgMaps, before: seq<Resource>, after: seq<Resource>)
    requires |after| == |before| && forall i :: 0 <= i < |before| ==> Inlined(lib, cms, before[i], after[i])
    ensures InlinedAll(lib, cms, before, after)
  {
    if before != [] {
      InlinedAllOf(lib, cms, before[..|before| - 1], after[..|after| - 1]);
    }
  }

  lemma {:induction false} OneWayToInline(lib: Lib, cms: CfgMaps, before: seq<Resource>, a: seq<Resource>,
                                          b: seq<Resource>)
    requires InlinedAll(lib, cms, before, a) && InlinedAll(lib, cms, before, b)
    requires forall r :: r in before ==> OrderCannotMatter(lib, cms, r)
    ensures a == b
  {
    hide OrderCannotMatter, Inlined;
    InlinedEach(lib, cms, before, a);
    InlinedEach(lib, cms, before, b);
    forall i | 0 <= i < |before| ensures a[i] == b[i] {
      assert before[i] in before;
      InliningIsDeterminedExactly(lib, cms, before[i]);
    }
  }

  lemma {:induction false} SameRun(lib: Lib, infos: seq<Info>, f1: Run.Findings, f2: Run.Findings)
    requires Run.FindingsOf(lib, infos, f1) && Run.FindingsOf(lib, infos, f2)
    requires forall r :: r in WorkloadsIn(infos) ==> OrderCannotMatter(lib, ByName(ConfigMapsIn(infos)), r)
    ensures f1 == f2
  {
    hide WorkloadsIn, ByName, ConfigMapsIn, InlinedAll, Discover, AnalysedServices;
    hide OrderCannotMatter;
    OneWayToInline(lib, ByName(ConfigMapsIn(infos)), WorkloadsIn(infos), f1.resources, f2.resources);
  }

  lemma {:induction false} OtherRun(lib: Lib, infos: seq<Info>, f: Run.Findings, i: nat, other: Resource)
    returns (g: Run.Findings)
    requires Run.FindingsOf(lib, infos, f) && i < |WorkloadsIn(infos)|
    requires Inlined(lib, ByName(ConfigMapsIn(infos)), WorkloadsIn(infos)[i], other)
    ensures |f.resources| == |WorkloadsIn(infos)|
    ensures Run.FindingsOf(lib, infos, g) && g.resources == f.resources[i := other]
  {
    hide WorkloadsIn, ByName, ConfigMapsIn, Inlined, InlinedAll, Discover, AnalysedServices;
    var cms := ByName(ConfigMapsIn(infos));
    InlinedEach(lib, cms, WorkloadsIn(infos), f.resources);
    var rs := f.resources[i := other];
    InlinedAllOf(lib, cms, WorkloadsIn(infos), rs);
    g := Run.Findings(rs, Discover(rs, AnalysedServices(infos)));
  }

  /** Every list of objects leads to some findings. */
  lemma {:induction false} SomeFindings(lib: Lib, infos: seq<Info>) returns (f: Run.Findings)
    ensures Run.FindingsOf(lib, infos, f)
  {
    hide WorkloadsIn, ByName, ConfigMapsIn, InlinedAll, Discover, AnalysedServices;
    var rs := SomeInlinings(lib, ByName(ConfigMapsIn(infos)), WorkloadsIn(infos));
    f := Run.Findings(rs, Discover(rs, AnalysedServices(infos)));
  }

  lemma {:induction false} SomeInlinings(lib: Lib, cms: CfgMaps, before: seq<Resource>) returns (after: seq<Resource>)
    ensures InlinedAll(lib, cms, before, after)
  {
    hide Inlined;
    after := [];
    if before != [] {
      var init := SomeInlinings(lib, cms, before[..|before| - 1]);
      var last := SomeInlining(lib, cms, before[|before| - 1]);
      after := init + [last];
      assert after[..|after| - 1] == init;
    }
  }

  /** However Go ranges over maps, a run can have only these findings if and only if no workload
      refers to a ConfigMap that holds two different addresses. */
  lemma {:induction false} RunIsDeterminedExactly(lib: Lib, infos: seq<Info>, f: Run.Findings)
    requires Run.FindingsOf(lib, infos, f)
    ensures (forall g :: Run.FindingsOf(lib, infos, g) ==> g == f)
            <==> forall r :: r in WorkloadsIn(infos) ==> OrderCannotMatter(lib, ByName(ConfigMapsIn(infos)), r)
  {
    hide WorkloadsIn, ByName, ConfigMapsIn, Inlined, OrderCannotMatter, Run.FindingsOf;
    var cms := ByName(ConfigMapsIn(infos));
    if forall r :: r in WorkloadsIn(infos) ==> OrderCannotMatter(lib, cms, r) {
      forall g | Run.FindingsOf(lib, infos, g) ensures g == f {
        SameRun(lib, infos, f, g);
      }
    }
    if r :| r in WorkloadsIn(infos) && !OrderCannotMatter(lib, cms, r) {
      var i :| 0 <= i < |WorkloadsIn(infos)| && WorkloadsIn(infos)[i] == r;
      InliningIsDeterminedExactly(lib, cms, r);
      var a, b :| Inlined(lib, cms, r, a) && Inlined(lib, cms, r, b) && a != b;
      var g1 := OtherRun(lib, infos, f, i, a);
      var g2 := OtherRun(lib, infos, f, i, b);
      assert g1.resources[i] == a && g2.resources[i] == b;
    }
  }
}
