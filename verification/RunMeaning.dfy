/** What a run returns, in terms of the declared objects alone: which pods the policies isolate,
    which flows they allow, and when the run crashes. */
module RunMeaning {
  import opened Model
  import opened Netpol
  import opened Selectors
  import opened AddressExtraction
  import opened Errors
  import opened Inlining
  import opened ManifestSpec
  import opened Accumulator
  import opened SynthSpec
  import opened SynthTable
  import opened SynthMeaning
  import opened SynthTheorems
  import opened LabelTheorems
  import opened DiscoverySpec
  import opened Pipeline
  import opened Declarations
  import opened RunSpec

  // ----- what policies owe to the objects -----

  /** Every pod in the namespace of a declared workload is isolated both ways. */
  ghost predicate Isolates(infos: seq<Info>, policies: seq<Policy>) {
    forall w, e: Endpoint :: WorkloadInfo(w) in infos && e.Pod? && e.namespace == w.namespace ==>
      IsolatedFor(Ingress, policies, e) && IsolatedFor(Egress, policies, e)
  }

  /** The workloads have names that identify them, no labels contained in another's, and namespaces
      all or none. */
  ghost predicate Fit(infos: seq<Info>) {
    && WorkloadsIdentified(WorkloadsIn(infos)) && AllNamed(WorkloadsIn(infos))
    && NamespacesAgree(WorkloadsIn(infos)) && Antichain(WorkloadsIn(infos)) && NothingUsed(infos)
  }

  ghost predicate DeclaredFlow(lib: Lib, infos: seq<Info>, dnsPort: IntOrString, source: string, target: string,
                               p: NetpolPort) {
    || DeclaredUse(lib, infos, source, target, p)
    || (p == NetpolPort("UDP", dnsPort) && DeclaredSender(lib, infos, source) && DeclaredOffer(infos, target, p))
  }

  /** Between the pods of declared workloads, exactly the declared flows are allowed. */
  ghost predicate AllowsTheDeclared(lib: Lib, infos: seq<Info>, dnsPort: IntOrString, policies: seq<Policy>) {
    forall ws, wd, p :: WorkloadInfo(ws) in infos && WorkloadInfo(wd) in infos ==>
      (Allows(policies, PodFor(ws), PodFor(wd), p) <==> DeclaredFlow(lib, infos, dnsPort, ws.name, wd.name, p))
  }

  /** Service `svc` opens port `p` of workload `d` to the outside. */
  ghost predicate OpensExternally(infos: seq<Info>, d: Resource, svc: Service, p: NetpolPort) {
    && WorkloadInfo(d) in infos && ServiceInfo(svc) in infos && Fronts(svc, d) && svc.exposeExternally
    && exists q :: q in svc.network && Translates(q, p)
  }

  /** A Service in front of a workload called `target` is exposed externally with port `p`. */
  ghost predicate ExternalOffer(infos: seq<Info>, target: string, p: NetpolPort) {
    exists d, svc :: OpensExternally(infos, d, svc, p) && d.name == target
  }

  /** A pod that is none of a declared workload. */
  ghost predicate Stranger(infos: seq<Info>, e: Endpoint) {
    e.Pod? && WellLabelled(e) && forall r :: WorkloadInfo(r) in infos ==> !Covers(r, e)
  }

  /** No pod of a declared workload may leave the cluster; from outside it may be entered exactly on
      externally exposed ports, and by pods of undeclared workloads exactly on exposed ones. */
  ghost predicate GuardsTheOutside(infos: seq<Info>, policies: seq<Policy>) {
    && (forall w, p :: WorkloadInfo(w) in infos ==>
          && !Allows(policies, PodFor(w), External, p)
          && (Allows(policies, External, PodFor(w), p) <==> ExternalOffer(infos, w.name, p)))
    && (forall w, e, p :: WorkloadInfo(w) in infos && Stranger(infos, e) ==>
          (IngressAllowed(policies, e, PodFor(w), p) <==> DeclaredOffer(infos, w.name, p)))
  }

  /** How a run over objects that can be parsed ends. */
  ghost predicate Concludes(lib: Lib, infos: seq<Info>, dnsPort: IntOrString, out: Outcome<seq<Policy>>) {
    if forall w :: WorkloadInfo(w) !in infos then out == ApiError(FileProcessingError(NoK8sResourcesFound, true, true))
    else if DeclaredCrash(lib, infos) then out == Crash
    else
      && out.Returned? && Isolates(infos, out.value)
      && (Fit(infos) ==> AllowsTheDeclared(lib, infos, dnsPort, out.value) && GuardsTheOutside(infos, out.value))
      && exists f :: FindingsOf(lib, infos, f) && out.value == Synth(f.resources, f.connections, dnsPort)
  }

  // ----- isolation -----

  lemma {:induction false} RunIsolates(lib: Lib, infos: seq<Info>, f: Findings, dnsPort: IntOrString)
    requires FindingsOf(lib, infos, f)
    ensures Isolates(infos, Synth(f.resources, f.connections, dnsPort))
  {
    hide InlinedAll, WorkloadsIn, Discover, AnalysedServices, Synth, IsolatedFor;
    forall w, e: Endpoint | WorkloadInfo(w) in infos && e.Pod? && e.namespace == w.namespace
      ensures IsolatedFor(Ingress, Synth(f.resources, f.connections, dnsPort), e)
      ensures IsolatedFor(Egress, Synth(f.resources, f.connections, dnsPort), e)
    {
      var r := AnalysedOf(lib, infos, ByName(ConfigMapsIn(infos)), f.resources, w);
      AnalysedIsSame(lib, ByName(ConfigMapsIn(infos)), w, r);
      IsolationMeaning(f.resources, f.connections, dnsPort, e, Ingress);
      IsolationMeaning(f.resources, f.connections, dnsPort, e, Egress);
    }
  }

  // ----- flows between declared workloads -----

  lemma {:induction false} RunAllowsTheDeclared(lib: Lib, infos: seq<Info>, f: Findings, dnsPort: IntOrString)
    requires FindingsOf(lib, infos, f) && Fit(infos)
    ensures AllowsTheDeclared(lib, infos, dnsPort, Synth(f.resources, f.connections, dnsPort))
  {
    hide FindingsOf, Allows, Synth, DeclaredUse, DeclaredOffer, DeclaredSender, WorkloadsIn, WorkloadsIdentified;
    hide AllNamed, NamespacesAgree, Antichain, NothingUsed;
    forall ws, wd, p | WorkloadInfo(ws) in infos && WorkloadInfo(wd) in infos
      ensures Allows(Synth(f.resources, f.connections, dnsPort), PodFor(ws), PodFor(wd), p)
              <==> DeclaredFlow(lib, infos, dnsPort, ws.name, wd.name, p)
    {
      RunIsExact(lib, infos, f, dnsPort, ws, wd, p);
    }
  }

  // ----- flows from elsewhere -----

  /** Which connections open port `p` of workload `w` to a peer that is no declared pod. */
  lemma {:induction false} OpenedToStrangers(ws: seq<Resource>, conns: seq<Connection>, c: Connection, w: Resource,
                                             e: Endpoint, p: NetpolPort)
    requires Among(ws, conns) && WorkloadsIdentified(ws) && AllNamed(ws) && NamespacesAgree(ws) && Antichain(ws)
    requires c in conns && w in ws
    requires WellLabelled(e) && forall r :: r in ws ==> !Covers(r, e)
    ensures Receives(NO_OWNERS, c, e, PodFor(w), p)
            <==> && p in PortsOf(c) && c.target.name == w.name
                 && (c.link.exposeExternally || (c.source.None? && e.Pod?))
  {
    hide PortsOf, PeerMatches, PeerFor, Matches;
    assert IsEnd(c, c.target);
    assert c.source.Some? ==> IsEnd(c, c.source.value);
    assert Mentioned(conns, c.target) && (c.source.Some? ==> Mentioned(conns, c.source.value));
    var target :| target in ws && SameWorkload(target, c.target);
    PodsInherit(w, c.target);
    InheritsItself(w);
    assert Inherits(w, c.target) <==> Inherits(w, target);
    assert Covers(c.target, PodFor(w)) <==> c.target.name == w.name;
    if c.source.Some? {
      var source :| source in ws && SameWorkload(source, c.source.value);
      PeerReachesOnly(c.target, c.source.value, e);
    }
  }

  lemma {:induction false} AnalysedStranger(lib: Lib, infos: seq<Info>, f: Findings, e: Endpoint)
    requires FindingsOf(lib, infos, f) && WellLabelled(e) && forall r :: WorkloadInfo(r) in infos ==> !Covers(r, e)
    ensures forall r :: r in f.resources ==> !Covers(r, e)
  {
    hide InlinedAll, WorkloadsIn, Discover, AnalysedServices, Inlined, ByName, ConfigMapsIn;
    forall r | r in f.resources ensures !Covers(r, e) {
      var d := DeclaredOf(lib, infos, ByName(ConfigMapsIn(infos)), f.resources, r);
      AnalysedIsSame(lib, ByName(ConfigMapsIn(infos)), d, r);
    }
  }

  /** What the policies of a run let into the pods of a workload from elsewhere. */
  lemma {:induction false} EnteredFromElsewhere(lib: Lib, infos: seq<Info>, f: Findings, dnsPort: IntOrString,
                                                w: Resource, r: Resource, e: Endpoint, p: NetpolPort)
    requires FindingsOf(lib, infos, f) && Fit(infos)
    requires r in f.resources && SameWorkload(w, r)
    requires WellLabelled(e) && forall d :: WorkloadInfo(d) in infos ==> !Covers(d, e)
    ensures IngressAllowed(Synth(f.resources, f.connections, dnsPort), e, PodFor(w), p)
            <==> exists c :: c in f.connections && p in PortsOf(c) && c.target.name == w.name
                             && (c.link.exposeExternally || (c.source.None? && e.Pod?))
  {
    hide InlinedAll, WorkloadsIn, Discover, AnalysedServices, ByName, ConfigMapsIn, Synth, IngressAllowed;
    hide EgressAllowed, PortsOf, Receives, Covers, Antichain, NamespacesAgree, WorkloadsIdentified, Among;
    var conns := f.connections;
    AnalysedAreFit(lib, infos, ByName(ConfigMapsIn(infos)), f.resources);
    AnalysedStranger(lib, infos, f, e);
    DiscoveredAmong(f.resources, AnalysedServices(infos));
    AmongIsFit(f.resources, conns);
    PlainMeaning(f.resources, conns, dnsPort, e, PodFor(w), p);
    assert PodFor(w) == PodFor(r);
    assert Isolated(NO_OWNERS, f.resources, conns, PodFor(w));
    forall c | c in conns
      ensures Receives(NO_OWNERS, c, e, PodFor(w), p)
              <==> && p in PortsOf(c) && c.target.name == w.name
                   && (c.link.exposeExternally || (c.source.None? && e.Pod?))
    {
      OpenedToStrangers(f.resources, conns, c, r, e, p);
    }
  }

  lemma {:induction false} OffersByConnections(lib: Lib, infos: seq<Info>, f: Findings, w: Resource, p: NetpolPort)
    requires FindingsOf(lib, infos, f) && NothingUsed(infos)
    ensures (exists c :: c in f.connections && p in PortsOf(c) && c.target.name == w.name
                         && (c.link.exposeExternally || c.source.None?))
            <==> DeclaredOffer(infos, w.name, p)
  {
    hide InlinedAll, WorkloadsIn, AnalysedServices, ByName, ConfigMapsIn, PortsOf, Discover, NothingUsed;
    hide Discoverable, DeclaredOffer;
    var links := AnalysedServices(infos);
    OfferIsDeclared(lib, infos, f.resources, w, p);
    forall c ensures c in f.connections <==> Discoverable(f.resources, links, c) {
      DiscoveryIsAJoin(f.resources, links, c);
    }
  }

  /** The ports of externally exposed Services, by the declarations. */
  lemma {:induction false} ExternalByConnections(lib: Lib, infos: seq<Info>, f: Findings, w: Resource, p: NetpolPort)
    requires FindingsOf(lib, infos, f) && NothingUsed(infos)
    ensures (exists c :: c in f.connections && p in PortsOf(c) && c.target.name == w.name && c.link.exposeExternally)
            <==> ExternalOffer(infos, w.name, p)
  {
    hide InlinedAll, WorkloadsIn, AnalysedServices, ByName, ConfigMapsIn, PortsOf, Discover, Discoverable;
    hide NothingUsed, FindingsOf, OpensExternally;
    if c :| c in f.connections && p in PortsOf(c) && c.target.name == w.name && c.link.exposeExternally {
      ExternalIsOffered(lib, infos, f, c, p);
    }
    if d, svc :| OpensExternally(infos, d, svc, p) && d.name == w.name {
      var c := OfferIsFound(lib, infos, f, d, svc, p);
    }
  }

  lemma {:induction false} ExternalIsOffered(lib: Lib, infos: seq<Info>, f: Findings, c: Connection, p: NetpolPort)
    requires FindingsOf(lib, infos, f) && NothingUsed(infos)
    requires c in f.connections && p in PortsOf(c) && c.link.exposeExternally
    ensures ExternalOffer(infos, c.target.name, p)
  {
    hide InlinedAll, Inlined, WorkloadsIn, AnalysedServices, AnalysedService, ByName, ConfigMapsIn, PortsOf, Discover;
    hide NothingUsed, References, Contained, AsSource, Translates;
    var cms, links := ByName(ConfigMapsIn(infos)), AnalysedServices(infos);
    AnalysedUseNothing(lib, infos, cms, f.resources);
    DiscoveryIsAJoin(f.resources, links, c);
    var d := DeclaredOf(lib, infos, cms, f.resources, c.target);
    AnalysedServicesElements(infos, c.link);
    var svc :| ServiceInfo(svc) in infos && c.link == AnalysedService(infos, svc);
    InlinedKeeps(lib, cms, d, c.target);
    ExposureKeepsLength(svc, infos);
    ExternalPorts(f.resources, links, c, p);
    ExposedPorts(infos, svc, p);
    assert Fronts(svc, d);
    assert OpensExternally(infos, d, svc, p);
  }

  lemma {:induction false} OfferIsFound(lib: Lib, infos: seq<Info>, f: Findings, d: Resource, svc: Service,
                                        p: NetpolPort) returns (c: Connection)
    requires FindingsOf(lib, infos, f) && OpensExternally(infos, d, svc, p)
    ensures c in f.connections && p in PortsOf(c) && c.target.name == d.name && c.link.exposeExternally
  {
    hide InlinedAll, Inlined, WorkloadsIn, AnalysedServices, AnalysedService, ByName, ConfigMapsIn, PortsOf, Discover;
    hide References, Contained, AsSource, Translates;
    var cms, after := ByName(ConfigMapsIn(infos)), AnalysedService(infos, svc);
    AnalysedServicesElements(infos, after);
    ExposureKeepsLength(svc, infos);
    ExposedPorts(infos, svc, p);
    var e := AnalysedOf(lib, infos, cms, f.resources, d);
    InlinedKeeps(lib, cms, d, e);
    assert Fronts(after, e);
    c := Connection(None, e, after);
    DiscoveryIsAJoin(f.resources, AnalysedServices(infos), c);
    SourcelessPortsAre(e, after, p);
  }

  /** An external connection has only ports of its Service. */
  lemma {:induction false} ExternalPorts(resources: seq<Resource>, links: seq<Service>, c: Connection, p: NetpolPort)
    requires Discoverable(resources, links, c) && c.link.exposeExternally && p in PortsOf(c)
    requires forall r :: r in resources ==> r.usedPorts == []
    ensures exists q :: q in c.link.network && Translates(q, p)
  {
    hide PortsOf, References, AsSource, Translates, Fronts;
    if c.source.Some? {
      var r :| r in resources && References(r, c.link) && Distinct(r, c.target)
          && c.source.value == AsSource(r, c.link);
      assert c == Connection(Some(AsSource(r, c.link)), c.target, c.link);
      ExternalPortsAre(r, c.target, c.link, p);
    } else {
      assert c == Connection(None, c.target, c.link);
      SourcelessPortsAre(c.target, c.link, p);
    }
  }

  lemma {:induction false} NoLeaving(lib: Lib, infos: seq<Info>, f: Findings, dnsPort: IntOrString, w: Resource,
                                     p: NetpolPort)
    requires FindingsOf(lib, infos, f) && Fit(infos) && WorkloadInfo(w) in infos
    ensures !Allows(Synth(f.resources, f.connections, dnsPort), PodFor(w), External, p)
    ensures EgressAllowed(Synth(f.resources, f.connections, dnsPort), External, PodFor(w), p)
  {
    hide InlinedAll, WorkloadsIn, Discover, AnalysedServices, ByName, ConfigMapsIn, Synth, IngressAllowed;
    hide EgressAllowed, PortsOf, Antichain, NamespacesAgree, WorkloadsIdentified, Among;
    var r := AnalysedOf(lib, infos, ByName(ConfigMapsIn(infos)), f.resources, w);
    AnalysedIsSame(lib, ByName(ConfigMapsIn(infos)), w, r);
    AnalysedAreFit(lib, infos, ByName(ConfigMapsIn(infos)), f.resources);
    DiscoveredAmong(f.resources, AnalysedServices(infos));
    AmongIsFit(f.resources, f.connections);
    PlainMeaning(f.resources, f.connections, dnsPort, PodFor(w), External, p);
    PlainMeaning(f.resources, f.connections, dnsPort, External, PodFor(w), p);
    assert Isolated(NO_OWNERS, f.resources, f.connections, PodFor(w));
  }

  lemma {:induction false} RunGuardsTheOutside(lib: Lib, infos: seq<Info>, f: Findings, dnsPort: IntOrString)
    requires FindingsOf(lib, infos, f) && Fit(infos)
    ensures GuardsTheOutside(infos, Synth(f.resources, f.connections, dnsPort))
  {
    hide InlinedAll, Inlined, WorkloadsIn, Discover, AnalysedServices, ByName, ConfigMapsIn, Synth, IngressAllowed;
    hide EgressAllowed, PortsOf, DeclaredOffer, ExternalOffer, Fit;
    var policies := Synth(f.resources, f.connections, dnsPort);
    FitUsesNothing(infos);
    forall w, p | WorkloadInfo(w) in infos
      ensures !Allows(policies, PodFor(w), External, p)
      ensures Allows(policies, External, PodFor(w), p) <==> ExternalOffer(infos, w.name, p)
    {
      var r := AnalysedOf(lib, infos, ByName(ConfigMapsIn(infos)), f.resources, w);
      AnalysedIsSame(lib, ByName(ConfigMapsIn(infos)), w, r);
      NoLeaving(lib, infos, f, dnsPort, w, p);
      EnteredFromElsewhere(lib, infos, f, dnsPort, w, r, External, p);
      ExternalByConnections(lib, infos, f, w, p);
    }
    forall w, e, p | WorkloadInfo(w) in infos && Stranger(infos, e)
      ensures IngressAllowed(policies, e, PodFor(w), p) <==> DeclaredOffer(infos, w.name, p)
    {
      var r := AnalysedOf(lib, infos, ByName(ConfigMapsIn(infos)), f.resources, w);
      AnalysedIsSame(lib, ByName(ConfigMapsIn(infos)), w, r);
      EnteredFromElsewhere(lib, infos, f, dnsPort, w, r, e, p);
      OffersByConnections(lib, infos, f, w, p);
    }
  }

  lemma FitUsesNothing(infos: seq<Info>)
    requires Fit(infos)
    ensures NothingUsed(infos)
  {
  }

  // ----- the conclusion -----

  /** A run that gets as far as synthesis ends as the declared objects say. */
  lemma {:induction false} RunConcludes(lib: Lib, infos: seq<Info>, f: Findings, dnsPort: IntOrString,
                                        out: Outcome<seq<Policy>>)
    requires WorkloadsIn(infos) == [] ==> out == ApiError(NO_K8S_RESOURCES_FOUND)
    requires WorkloadsIn(infos) != [] ==>
               && FindingsOf(lib, infos, f)
               && out == if NamedTargets(f.connections) then Returned(Synth(f.resources, f.connections, dnsPort))
                         else Crash
    ensures Concludes(lib, infos, dnsPort, out)
  {
    hide FindingsOf, Synth, DeclaredCrash, Isolates, Fit, AllowsTheDeclared, GuardsTheOutside, NamedTargets;
    hide WorkloadsIn;
    InfosElements(infos);
    if WorkloadsIn(infos) == [] {
      assert forall w :: WorkloadInfo(w) in infos ==> w in WorkloadsIn(infos);
    } else {
      assert WorkloadsIn(infos)[0] in WorkloadsIn(infos);
      RunCrashesExactly(lib, infos, f);
      RunIsolates(lib, infos, f, dnsPort);
      if Fit(infos) {
        RunAllowsTheDeclared(lib, infos, f, dnsPort);
        RunGuardsTheOutside(lib, infos, f, dnsPort);
      }
    }
  }
}
