/** When the emitted text is determined: exactly what decides the ports in the rules. */
module TextTheorems {
  import opened Model
  import opened Netpol
  import opened Sequences
  import opened Ordering
  import opened Addresses
  import opened Selectors
  import opened AddressExtraction
  import opened Inlining
  import opened ManifestSpec
  import opened Accumulator
  import opened SynthSpec
  import opened SynthTable
  import opened SynthMeaning
  import opened SynthTheorems
  import opened OrderTheorems
  import opened DiscoverySpec
  import opened Pipeline
  import opened PortOrder
  import opened RunTheorems
  import opened Declarations
  import Run = RunSpec

  // ----- connections of the same effect, one by one -----

  /** The two lists have the same effects, position by position. */
  ghost predicate InStep(conns1: seq<Connection>, conns2: seq<Connection>) {
    |conns1| == |conns2| && forall i :: 0 <= i < |conns1| ==> SameEffect(true, conns1[i], conns2[i])
  }

  ghost predicate SameEntry(e1: Entry, e2: Entry) {
    SameWorkload(e1.resource, e2.resource) && e1.ingress == e2.ingress && e1.egress == e2.egress
  }

  ghost predicate SameTable(t1: Table, t2: Table) {
    t1.Keys == t2.Keys && forall n :: n in t1 ==> SameEntry(t1[n], t2[n])
  }

  lemma {:induction false} SameRegistered(t1: Table, t2: Table, c1: Connection, c2: Connection)
    requires SameTable(t1, t2) && SameEffect(true, c1, c2)
    ensures SameTable(Registered(t1, c1), Registered(t2, c2))
  {
    hide PortsOf;
  }

  lemma {:induction false} SameRulesOffered(t1: Table, t2: Table, c1: Connection, c2: Connection)
    requires SameTable(t1, t2) && SameEffect(true, c1, c2)
    ensures HasSource(c1) ==> EgressRuleOf(OwnersIn(t1), c1) == EgressRuleOf(OwnersIn(t2), c2)
    ensures IngressRuleOf(OwnersIn(t1), c1) == IngressRuleOf(OwnersIn(t2), c2)
  {
    hide PortsOf;
    assert SameWorkload(OwnerOf(OwnersIn(t1), c1.target), OwnerOf(OwnersIn(t2), c2.target));
    if HasSource(c1) {
      assert SameWorkload(OwnerOf(OwnersIn(t1), c1.source.value), OwnerOf(OwnersIn(t2), c2.source.value));
    }
  }

  lemma {:induction false} SameStep(t1: Table, t2: Table, c1: Connection, c2: Connection)
    requires SameTable(t1, t2) && SameEffect(true, c1, c2)
    ensures SameTable(Step(t1, c1), Step(t2, c2))
  {
    hide PortsOf, Registered, EgressRuleOf, IngressRuleOf, AddNew, OwnersIn;
    SameRegistered(t1, t2, c1, c2);
    SameRulesOffered(Registered(t1, c1), Registered(t2, c2), c1, c2);
  }

  lemma {:induction false} SameTables(conns1: seq<Connection>, conns2: seq<Connection>)
    requires InStep(conns1, conns2)
    ensures SameTable(TableOf(conns1), TableOf(conns2))
  {
    hide Step, SameEffect;
    if conns1 != [] {
      SameTables(conns1[..|conns1| - 1], conns2[..|conns2| - 1]);
      SameStep(TableOf(conns1[..|conns1| - 1]), TableOf(conns2[..|conns2| - 1]),
               conns1[|conns1| - 1], conns2[|conns2| - 1]);
    }
  }

  lemma {:induction false} SameListed(t1: Table, t2: Table, dnsPort: IntOrString)
    requires SameTable(t1, t2)
    ensures PoliciesOf(Listing(t1), dnsPort) == PoliciesOf(Listing(t2), dnsPort)
  {
    hide Sorted, WithDns;
    SortedListsTheNames(t1.Keys);
    var names := Sorted(t1.Keys);
    assert forall i :: 0 <= i < |names| ==> names[i] in t1.Keys;
    assert PoliciesOf(Listing(t1), dnsPort) == PoliciesOf(Listing(t2), dnsPort);
  }

  /** Connections of the same effects in the same order give the same text. */
  lemma {:induction false} InStepSameText(resources1: seq<Resource>, conns1: seq<Connection>,
                                          resources2: seq<Resource>, conns2: seq<Connection>, dnsPort: IntOrString)
    requires InStep(conns1, conns2) && NamespacesOf(resources1) == NamespacesOf(resources2)
    ensures Synth(resources1, conns1, dnsPort) == Synth(resources2, conns2, dnsPort)
  {
    hide Listing, PoliciesOf, NamespacesOf, TableOf, InStep, SameTable, DenyPolicy;
    SameTables(conns1, conns2);
    SameListed(TableOf(conns1), TableOf(conns2), dnsPort);
    assert DenyPolicies(resources1) == DenyPolicies(resources2);
  }

  /** A connection of the same effect as an earlier one leaves the table as it is. */
  lemma {:induction false} AbsorbedStep(conns: seq<Connection>, c: Connection, earlier: Connection)
    requires earlier in conns && SameEffect(true, c, earlier)
    ensures Step(TableOf(conns), c) == TableOf(conns)
  {
    hide PortsOf, TableOf, EgressOffer, IngressOffer;
    var t := TableOf(conns);
    assert IsEnd(earlier, earlier.target);
    if c.target.name != "" {
      EntryOf(conns, earlier.target);
    }
    if HasSource(c) {
      assert IsEnd(earlier, earlier.source.value);
      EntryOf(conns, earlier.source.value);
    }
    OwnerIsFirstMention(conns, "");
    assert Registered(t, c) == t;
    if PortsOf(c) != [] {
      AbsorbedRules(conns, c, earlier);
    }
  }

  lemma {:induction false} AbsorbedRules(conns: seq<Connection>, c: Connection, earlier: Connection)
    requires earlier in conns && SameEffect(true, c, earlier) && PortsOf(c) != []
    ensures var t := TableOf(conns);
            && (HasSource(c) && c.source.value.name in t ==>
                  EgressRuleOf(OwnersIn(t), c) in t[c.source.value.name].egress)
            && (c.target.name in t ==> IngressRuleOf(OwnersIn(t), c) in t[c.target.name].ingress)
  {
    hide TableOf, PortsOf;
    var t := TableOf(conns);
    assert SameTable(t, t);
    SameRulesOffered(t, t, c, earlier);
    if HasSource(c) && c.source.value.name in t {
      assert EgressRuleOf(Owners(conns), earlier) in EgressOffer(Owners(conns), earlier, c.source.value.name);
      EntryRules(conns, c.source.value.name, EgressRuleOf(Owners(conns), earlier));
    }
    if c.target.name in t {
      assert IngressRuleOf(Owners(conns), earlier) in IngressOffer(Owners(conns), earlier, c.target.name);
      EntryRules(conns, c.target.name, IngressRuleOf(Owners(conns), earlier));
    }
  }

  /** Where other connections give both of two rules already, it makes no difference to the text which
      of the two one more connection gives. */
  lemma {:induction false} ChangeIsAbsorbed(resources: seq<Resource>, conns: seq<Connection>, c1: Connection,
                                            c2: Connection, earlier1: Connection, earlier2: Connection,
                                            dnsPort: IntOrString)
    requires earlier1 in conns && SameEffect(true, c1, earlier1)
    requires earlier2 in conns && SameEffect(true, c2, earlier2)
    ensures Synth(resources, conns + [c1], dnsPort) == Synth(resources, conns + [c2], dnsPort)
  {
    hide Step, SameEffect;
    AbsorbedStep(conns, c1, earlier1);
    AbsorbedStep(conns, c2, earlier2);
    assert (conns + [c1])[..|conns|] == conns && (conns + [c2])[..|conns|] == conns;
  }

  // ----- discovery in step -----

  /** The same workloads, with their addresses in other orders. */
  ghost predicate Twins(rs1: seq<Resource>, rs2: seq<Resource>) {
    |rs1| == |rs2| && forall i :: 0 <= i < |rs1| ==> SameButOrder(rs1[i], rs2[i])
  }

  /** Wherever `r1` uses `svc` to reach `d`, its twin uses the same ports in the same order. */
  ghost predicate SameUse(r1: Resource, r2: Resource, d: Resource, svc: Service) {
    References(r1, svc) && Distinct(r1, d) ==>
      ToNetpolPorts(AsSource(r1, svc).usedPorts, false) == ToNetpolPorts(AsSource(r2, svc).usedPorts, false)
  }

  ghost predicate SameUses(rs1: seq<Resource>, rs2: seq<Resource>, d: Resource, svc: Service)
    requires |rs1| == |rs2|
  {
    forall i :: 0 <= i < |rs1| ==> SameUse(rs1[i], rs2[i], d, svc)
  }

  lemma {:induction false} TwinSources(r1: Resource, r2: Resource, d1: Resource, d2: Resource, svc: Service)
    requires SameButOrder(r1, r2) && SameButOrder(d1, d2) && SameUse(r1, r2, d1, svc)
    requires References(r1, svc) && Distinct(r1, d1)
    ensures SameEffect(true, Connection(Some(AsSource(r1, svc)), d1, svc), Connection(Some(AsSource(r2, svc)), d2, svc))
  {
    SamePortsUsed(r1, r2, svc);
    PermutationElements(AsSource(r1, svc).usedPorts, AsSource(r2, svc).usedPorts);
  }

  lemma InStepAppend(a1: seq<Connection>, a2: seq<Connection>, b1: seq<Connection>, b2: seq<Connection>)
    requires InStep(a1, a2) && InStep(b1, b2)
    ensures InStep(a1 + b1, a2 + b2)
  {
    hide SameEffect;
  }

  lemma TwinsLookAlike(r1: Resource, r2: Resource, d1: Resource, d2: Resource, svc: Service)
    requires SameButOrder(r1, r2) && SameButOrder(d1, d2)
    ensures References(r1, svc) <==> References(r2, svc)
    ensures AsSource(r1, svc).Equals(d1) <==> r1.Equals(d1)
    ensures AsSource(r2, svc).Equals(d2) <==> r1.Equals(d1)
    ensures Fronts(svc, d1) <==> Fronts(svc, d2)
  {
    SameReferences(r1, r2, svc);
  }

  lemma {:induction false} FromTwins(rs1: seq<Resource>, rs2: seq<Resource>, d1: Resource, d2: Resource, svc: Service)
    requires Twins(rs1, rs2) && SameButOrder(d1, d2) && SameUses(rs1, rs2, d1, svc)
    ensures InStep(FromSources(SourcesOf(rs1, svc), d1, svc), FromSources(SourcesOf(rs2, svc), d2, svc))
    ensures SourcesOf(rs1, svc) == [] <==> SourcesOf(rs2, svc) == []
  {
    hide References, AsSource, SameEffect, SameButOrder, FromSources, SameUse;
    if rs1 == [] {
      NothingFrom(d1, svc);
      NothingFrom(d2, svc);
    } else {
      var m := |rs1| - 1;
      FromTwins(rs1[..m], rs2[..m], d1, d2, svc);
      TwinsLookAlike(rs1[m], rs2[m], d1, d2, svc);
      assert SourcesOf(rs1[..m], svc) + [] == SourcesOf(rs1[..m], svc);
      assert SourcesOf(rs2[..m], svc) + [] == SourcesOf(rs2[..m], svc);
      if References(rs1[m], svc) {
        FromSourcesSnoc(SourcesOf(rs1[..m], svc), AsSource(rs1[m], svc), d1, svc);
        FromSourcesSnoc(SourcesOf(rs2[..m], svc), AsSource(rs2[m], svc), d2, svc);
        if Distinct(rs1[m], d1) {
          TwinSources(rs1[m], rs2[m], d1, d2, svc);
          InStepAppend(FromSources(SourcesOf(rs1[..m], svc), d1, svc), FromSources(SourcesOf(rs2[..m], svc), d2, svc),
                       [Connection(Some(AsSource(rs1[m], svc)), d1, svc)],
                       [Connection(Some(AsSource(rs2[m], svc)), d2, svc)]);
        }
      }
    }
  }

  lemma {:induction false} ViaTwin(rs1: seq<Resource>, rs2: seq<Resource>, d1: Resource, d2: Resource, svc: Service)
    requires Twins(rs1, rs2) && SameButOrder(d1, d2) && SameUses(rs1, rs2, d1, svc)
    ensures InStep(ViaService(rs1, d1, svc), ViaService(rs2, d2, svc))
  {
    hide FromSources, SourcesOf, HasExposedPorts, Twins, SameUses;
    FromTwins(rs1, rs2, d1, d2, svc);
    SourcelessInStep(d1, d2, svc);
    var sources1, sources2 := SourcesOf(rs1, svc), SourcesOf(rs2, svc);
    var more1 := if sources1 == [] || HasExposedPorts(svc) then [Connection(None, d1, svc)] else [];
    var more2 := if sources2 == [] || HasExposedPorts(svc) then [Connection(None, d2, svc)] else [];
    InStepAppend(FromSources(sources1, d1, svc), FromSources(sources2, d2, svc), more1, more2);
  }

  lemma SourcelessInStep(d1: Resource, d2: Resource, svc: Service)
    requires SameButOrder(d1, d2)
    ensures InStep([Connection(None, d1, svc)], [Connection(None, d2, svc)])
  {
  }

  lemma {:induction false} ViaTwins(rs1: seq<Resource>, rs2: seq<Resource>, d1: Resource, d2: Resource,
                                    svcs: seq<Service>)
    requires Twins(rs1, rs2) && SameButOrder(d1, d2)
    requires forall svc :: svc in svcs ==> SameUses(rs1, rs2, d1, svc)
    ensures InStep(ViaServices(rs1, d1, svcs), ViaServices(rs2, d2, svcs))
  {
    hide ViaService, SameButOrder, SameUses, SameEffect;
    if svcs != [] {
      var init, last := svcs[..|svcs| - 1], svcs[|svcs| - 1];
      ViaTwins(rs1, rs2, d1, d2, init);
      ViaTwin(rs1, rs2, d1, d2, last);
      InStepAppend(ViaServices(rs1, d1, init), ViaServices(rs2, d2, init),
                   ViaService(rs1, d1, last), ViaService(rs2, d2, last));
    }
  }

  lemma {:induction false} TwinServices(d1: Resource, d2: Resource, links: seq<Service>)
    requires SameButOrder(d1, d2)
    ensures ServicesOf(d1, links) == ServicesOf(d2, links)
  {
    if links != [] {
      TwinServices(d1, d2, links[..|links| - 1]);
    }
  }

  /** Twins use the same ports for whatever they reach among `targets`. */
  ghost predicate SameUsesOfAll(rs1: seq<Resource>, rs2: seq<Resource>, targets: seq<Resource>, links: seq<Service>)
    requires |rs1| == |rs2|
  {
    forall d, svc :: d in targets && svc in links && Fronts(svc, d) ==> SameUses(rs1, rs2, d, svc)
  }

  lemma {:induction false} ToTwins(rs1: seq<Resource>, rs2: seq<Resource>, targets1: seq<Resource>,
                                   targets2: seq<Resource>, links: seq<Service>)
    requires Twins(rs1, rs2) && Twins(targets1, targets2) && SameUsesOfAll(rs1, rs2, targets1, links)
    ensures InStep(ToTargets(rs1, targets1, links), ToTargets(rs2, targets2, links))
  {
    hide ViaServices, ServicesOf, SameButOrder, SameUses, SameEffect, Fronts;
    if targets1 != [] {
      var m := |targets1| - 1;
      var d1, d2 := targets1[m], targets2[m];
      ToTwins(rs1, rs2, targets1[..m], targets2[..m], links);
      TwinServices(d1, d2, links);
      forall svc | svc in ServicesOf(d1, links) ensures SameUses(rs1, rs2, d1, svc) {
        ServicesOfElements(d1, links, svc);
      }
      ViaTwins(rs1, rs2, d1, d2, ServicesOf(d1, links));
      InStepAppend(ToTargets(rs1, targets1[..m], links), ToTargets(rs2, targets2[..m], links),
                   ViaServices(rs1, d1, ServicesOf(d1, links)), ViaServices(rs2, d2, ServicesOf(d2, links)));
    }
  }

  // ----- whole runs -----

  /** Workload `r` is found to reach workload `d` through `svc`. */
  ghost predicate DeclaredLink(lib: Lib, infos: seq<Info>, r: Resource, svc: Service, d: Resource) {
    && WorkloadInfo(r) in infos && WorkloadInfo(d) in infos && ServiceInfo(svc) in infos
    && RefersTo(lib, ByName(ConfigMapsIn(infos)), r, svc) && Fronts(svc, d) && Distinct(r, d)
  }

  /** No workload refers to a ConfigMap that names two different ports of a Service that it reaches
      another workload through. */
  ghost predicate PortsFixed(lib: Lib, infos: seq<Info>) {
    forall r, svc, d :: DeclaredLink(lib, infos, r, svc, d) ==>
      PortOrderFixed(lib, ByName(ConfigMapsIn(infos)), r, svc)
  }

  lemma {:induction false} ExposureKeepsPortLists(infos: seq<Info>, addrs: seq<string>, svc: Service, viewerNs: string)
    ensures PortList(addrs, AnalysedService(infos, svc), viewerNs) == PortList(addrs, svc, viewerNs)
  {
    hide AnalysedService, PortList, Match;
    var f := (a: string) => NumberedPort(a, svc, viewerNs);
    forall a ensures f(a) == NumberedPort(a, AnalysedService(infos, svc), viewerNs) {
      ExposureKeepsMatches(a, svc, infos, viewerNs);
    }
    PortListMap(f, addrs, svc, viewerNs);
    PortListMap(f, addrs, AnalysedService(infos, svc), viewerNs);
  }

  lemma PortsAsSource(r: Resource, svc: Service)
    ensures ToNetpolPorts(AsSource(r, svc).usedPorts, false)
            == ToNetpolPorts(r.usedPorts, false) + PortList(r.networkAddrs, svc, r.namespace)
  {
    ToNetpolPortsAppend(r.usedPorts, PortsUsedBy(r.networkAddrs, svc, r.namespace));
  }

  lemma {:induction false} FixedUse(lib: Lib, infos: seq<Info>, r: Resource, svc: Service, d: Resource,
                                    a: Resource, b: Resource, target: Resource)
    requires PortsFixed(lib, infos)
    requires WorkloadInfo(r) in infos && WorkloadInfo(d) in infos && ServiceInfo(svc) in infos && Fronts(svc, d)
    requires var cms := ByName(ConfigMapsIn(infos));
             Inlined(lib, cms, r, a) && Inlined(lib, cms, r, b) && Inlined(lib, cms, d, target)
    ensures SameUse(a, b, target, AnalysedService(infos, svc))
  {
    hide Inlined, AnalysedService, PortList, PortOrderFixed, Fronts, ByName, ConfigMapsIn, RefersTo, References;
    hide AsSource;
    var cms, after := ByName(ConfigMapsIn(infos)), AnalysedService(infos, svc);
    InlinedKeeps(lib, cms, r, a);
    InlinedKeeps(lib, cms, r, b);
    InlinedKeeps(lib, cms, d, target);
    ReferencesAreDeclared(lib, cms, r, a, svc, infos);
    if References(a, after) && Distinct(a, target) {
      assert DeclaredLink(lib, infos, r, svc, d);
      SamePortList(lib, cms, r, svc, a, b);
      ExposureKeepsPortLists(infos, a.networkAddrs, svc, r.namespace);
      ExposureKeepsPortLists(infos, b.networkAddrs, svc, r.namespace);
      PortsAsSource(a, after);
      PortsAsSource(b, after);
    }
  }

  lemma {:induction false} RunsAreTwins(lib: Lib, infos: seq<Info>, f: Run.Findings, g: Run.Findings)
    requires Run.FindingsOf(lib, infos, f) && Run.FindingsOf(lib, infos, g)
    ensures |f.resources| == |g.resources| == |WorkloadsIn(infos)|
    ensures forall i :: 0 <= i < |f.resources| ==>
              && WorkloadInfo(WorkloadsIn(infos)[i]) in infos
              && Inlined(lib, ByName(ConfigMapsIn(infos)), WorkloadsIn(infos)[i], f.resources[i])
              && Inlined(lib, ByName(ConfigMapsIn(infos)), WorkloadsIn(infos)[i], g.resources[i])
    ensures Twins(f.resources, g.resources)
  {
    hide WorkloadsIn, ByName, ConfigMapsIn, Inlined, InlinedAll, Discover, AnalysedServices, SameButOrder;
    var cms, before := ByName(ConfigMapsIn(infos)), WorkloadsIn(infos);
    InfosElements(infos);
    InlinedEach(lib, cms, before, f.resources);
    InlinedEach(lib, cms, before, g.resources);
    forall i | 0 <= i < |before|
      ensures WorkloadInfo(before[i]) in infos && SameButOrder(f.resources[i], g.resources[i])
    {
      assert before[i] in before;
      InlinedAlike(lib, cms, before[i], f.resources[i], g.resources[i]);
    }
  }

  lemma {:induction false} FixedUsesOfAll(lib: Lib, infos: seq<Info>, f: Run.Findings, g: Run.Findings)
    requires Run.FindingsOf(lib, infos, f) && Run.FindingsOf(lib, infos, g) && PortsFixed(lib, infos)
    requires |f.resources| == |g.resources|
    ensures SameUsesOfAll(f.resources, g.resources, f.resources, AnalysedServices(infos))
  {
    hide WorkloadsIn, ByName, ConfigMapsIn, Inlined, InlinedAll, Discover, AnalysedServices, AnalysedService;
    hide PortsFixed, SameUse, Contained, Run.FindingsOf;
    RunsAreTwins(lib, infos, f, g);
    forall target, after | target in f.resources && after in AnalysedServices(infos) && Fronts(after, target)
      ensures SameUses(f.resources, g.resources, target, after)
    {
      AnalysedServicesElements(infos, after);
      var svc :| ServiceInfo(svc) in infos && after == AnalysedService(infos, svc);
      var j :| 0 <= j < |f.resources| && f.resources[j] == target;
      var d := WorkloadsIn(infos)[j];
      InlinedKeeps(lib, ByName(ConfigMapsIn(infos)), d, target);
      ExposureKeepsLength(svc, infos);
      forall i | 0 <= i < |f.resources| ensures SameUse(f.resources[i], g.resources[i], target, after) {
        FixedUse(lib, infos, WorkloadsIn(infos)[i], svc, d, f.resources[i], g.resources[i], target);
      }
    }
  }

  lemma TwinNamespaces(rs1: seq<Resource>, rs2: seq<Resource>)
    requires Twins(rs1, rs2)
    ensures NamespacesOf(rs1) == NamespacesOf(rs2)
  {
  }

  /** If the ports are determined, so is the text: every run emits the identical list of policies. */
  lemma {:induction false} FixedPortsFixTheText(lib: Lib, infos: seq<Info>, f: Run.Findings, g: Run.Findings,
                                                dnsPort: IntOrString)
    requires Run.FindingsOf(lib, infos, f) && Run.FindingsOf(lib, infos, g) && PortsFixed(lib, infos)
    ensures Synth(f.resources, f.connections, dnsPort) == Synth(g.resources, g.connections, dnsPort)
  {
    hide InlinedAll, AnalysedServices, Twins, SameUsesOfAll, InStep, ToTargets, PortsFixed, Synth, NamespacesOf;
    RunsAreTwins(lib, infos, f, g);
    FixedUsesOfAll(lib, infos, f, g);
    TwinNamespaces(f.resources, g.resources);
    ToTwins(f.resources, g.resources, f.resources, g.resources, AnalysedServices(infos));
    InStepSameText(f.resources, f.connections, g.resources, g.connections, dnsPort);
  }

  // ----- and only then -----

  /** A workload names the pods of each target in its egress rules because of one Service only.
      Otherwise the rule that one Service gives may be there already because of the other, and
      be absorbed by deduplication. */
  ghost predicate OneServicePerPeer(lib: Lib, infos: seq<Info>) {
    forall r1, svc1, d1, r2, svc2, d2 ::
      (&& DeclaredLink(lib, infos, r1, svc1, d1) && DeclaredLink(lib, infos, r2, svc2, d2)
       && r1.name == r2.name && PeerFor(r1, d1) == PeerFor(r2, d2)) ==> r1 == r2 && svc1 == svc2
  }

  /** The policy of workload `n` has this egress rule. */
  ghost predicate HasEgress(policies: seq<Policy>, n: string, rule: Rule) {
    exists pol :: pol in policies && pol.name == n + "-netpol" && rule in pol.egress
  }

  /** A connection that lets workload `n` out to `peer` on these ports. */
  ghost predicate LetsOutTo(c: Connection, n: string, peer: Peer, ports: seq<NetpolPort>) {
    && HasSource(c) && c.source.value.name == n && PortsOf(c) == ports != []
    && PeerFor(c.source.value, c.target) == peer
  }

  lemma OfferedRule(c: Connection, n: string, peer: Peer, ports: seq<NetpolPort>)
    ensures Rule([peer], ports) in EgressOffer(NO_OWNERS, c, n) <==> LetsOutTo(c, n, peer, ports)
  {
    hide PortsOf, PeerFor;
  }

  /** The policy with an egress rule for `n` is that of the entry of `n`. */
  lemma {:induction false} EgressComesFromEntry(resources: seq<Resource>, t: Table, dnsPort: IntOrString, n: string,
                                                pol: Policy, rule: Rule)
    requires forall m :: m in t ==> t[m].resource.name == m
    requires pol in PoliciesFor(resources, t, dnsPort) && pol.name == n + "-netpol" && rule in pol.egress
    ensures n in t && pol == NetpolOf(t[n], dnsPort)
  {
    hide DenyName, WithDns, PoliciesFor;
    PoliciesForElements(resources, t, dnsPort, pol);
    var m :| m in t && pol == NetpolOf(t[m], dnsPort);
    SuffixCancels(m, n, "-netpol");
  }

  lemma {:induction false} EntryInText(resources: seq<Resource>, conns: seq<Connection>, dnsPort: IntOrString,
                                       n: string, rule: Rule)
    requires rule != DnsRule(dnsPort)
    ensures HasEgress(Synth(resources, conns, dnsPort), n, rule)
            <==> n in TableOf(conns) && rule in TableOf(conns)[n].egress
  {
    hide TableOf, PoliciesFor;
    var t := TableOf(conns);
    OwnerIsFirstMention(conns, n);
    if pol :| pol in PoliciesFor(resources, t, dnsPort) && pol.name == n + "-netpol" && rule in pol.egress {
      EgressComesFromEntry(resources, t, dnsPort, n, pol, rule);
    }
    if n in t && rule in t[n].egress {
      PoliciesForElements(resources, t, dnsPort, NetpolOf(t[n], dnsPort));
    }
  }

  /** Which egress rules stand in the text. */
  lemma {:induction false} EgressInText(resources: seq<Resource>, conns: seq<Connection>, dnsPort: IntOrString,
                                        n: string, peer: Peer, ports: seq<NetpolPort>)
    requires NamesIdentify(conns) && n != "" && peer.podSelector.Some?
    ensures HasEgress(Synth(resources, conns, dnsPort), n, Rule([peer], ports))
            <==> exists c :: c in conns && LetsOutTo(c, n, peer, ports)
  {
    hide TableOf, Owners, LetsOutTo, EgressOffer, IngressOffer, NamesIdentify, HasEgress, Synth;
    var t, rule := TableOf(conns), Rule([peer], ports);
    assert rule.peers[0] != DnsRule(dnsPort).peers[0];
    EntryInText(resources, conns, dnsPort, n, rule);
    if n in t && rule in t[n].egress {
      EntryRules(conns, n, rule);
      var c :| c in conns && rule in EgressOffer(Owners(conns), c, n);
      OffersAreNeutral(conns, c, n);
      OfferedRule(c, n, peer, ports);
    }
    if c :| c in conns && LetsOutTo(c, n, peer, ports) {
      OfferedRule(c, n, peer, ports);
      OffersAreNeutral(conns, c, n);
      SourceHasEntry(conns, c, n, peer, ports);
      EntryRules(conns, n, rule);
    }
  }

  lemma SourceHasEntry(conns: seq<Connection>, c: Connection, n: string, peer: Peer, ports: seq<NetpolPort>)
    requires c in conns && LetsOutTo(c, n, peer, ports)
    ensures n in TableOf(conns)
  {
    assert IsEnd(c, c.source.value);
    EntryOf(conns, c.source.value);
  }

  lemma {:induction false} OffersAreNeutral(conns: seq<Connection>, c: Connection, n: string)
    requires NamesIdentify(conns) && c in conns
    ensures EgressOffer(Owners(conns), c, n) == EgressOffer(NO_OWNERS, c, n)
  {
    OwnersAreNeutral(conns, c);
  }

  /** A run in which every copy of `r` reads its ConfigMaps as `a` does. */
  lemma {:induction false} RunWith(lib: Lib, infos: seq<Info>, r: Resource, a: Resource) returns (f: Run.Findings)
    requires Inlined(lib, ByName(ConfigMapsIn(infos)), r, a)
    ensures Run.FindingsOf(lib, infos, f) && |f.resources| == |WorkloadsIn(infos)|
    ensures forall i :: 0 <= i < |f.resources| && WorkloadsIn(infos)[i] == r ==> f.resources[i] == a
  {
    hide WorkloadsIn, ByName, ConfigMapsIn, InlinedAll, Discover, AnalysedServices, Inlined;
    var cms, before := ByName(ConfigMapsIn(infos)), WorkloadsIn(infos);
    var some := SomeInlinings(lib, cms, before);
    InlinedEach(lib, cms, before, some);
    var rs := seq(|before|, i requires 0 <= i < |before| => if before[i] == r then a else some[i]);
    InlinedAllOf(lib, cms, before, rs);
    f := Run.Findings(rs, Discover(rs, AnalysedServices(infos)));
  }

  /** In such a run, whatever lets workload `r` out to `d` has the ports that `a` uses. */
  lemma {:induction false} PortsOfPeer(lib: Lib, infos: seq<Info>, f: Run.Findings, r: Resource, svc: Service,
                                       d: Resource, a: Resource, c: Connection)
    requires OneServicePerPeer(lib, infos) && DeclaredLink(lib, infos, r, svc, d)
    requires Run.FindingsOf(lib, infos, f) && |f.resources| == |WorkloadsIn(infos)|
    requires forall i :: 0 <= i < |f.resources| && WorkloadsIn(infos)[i] == r ==> f.resources[i] == a
    requires c in f.connections && HasSource(c) && c.source.value.name == r.name
    requires PeerFor(c.source.value, c.target) == PeerFor(r, d)
    ensures c.source == Some(AsSource(a, AnalysedService(infos, svc))) && c.link == AnalysedService(infos, svc)
  {
    hide WorkloadsIn, ByName, ConfigMapsIn, InlinedAll, Discover, AnalysedServices, Inlined, AnalysedService;
    hide References, RefersTo, Contained, PeerFor, OneServicePerPeer;
    var cms := ByName(ConfigMapsIn(infos));
    DiscoveryIsAJoin(f.resources, AnalysedServices(infos), c);
    var x :| x in f.resources && References(x, c.link) && Distinct(x, c.target)
        && c.source.value == AsSource(x, c.link);
    RunsAreTwins(lib, infos, f, f);
    var i :| 0 <= i < |f.resources| && f.resources[i] == x;
    var j :| 0 <= j < |f.resources| && f.resources[j] == c.target;
    var r2, d2 := WorkloadsIn(infos)[i], WorkloadsIn(infos)[j];
    AnalysedServicesElements(infos, c.link);
    var svc2 :| ServiceInfo(svc2) in infos && c.link == AnalysedService(infos, svc2);
    InlinedKeeps(lib, cms, r2, x);
    InlinedKeeps(lib, cms, d2, c.target);
    ReferencesAreDeclared(lib, cms, r2, x, svc2, infos);
    ExposureKeepsLength(svc2, infos);
    assert DeclaredLink(lib, infos, r2, svc2, d2);
    SamePeer(c.source.value, c.target, r2, d2);
    LinkIsUnique(lib, infos, r, svc, d, r2, svc2, d2);
  }

  lemma SamePeer(s1: Resource, d1: Resource, s2: Resource, d2: Resource)
    requires SameWorkload(s1, s2) && SameWorkload(d1, d2)
    ensures PeerFor(s1, d1) == PeerFor(s2, d2)
  {
  }

  lemma LinkIsUnique(lib: Lib, infos: seq<Info>, r1: Resource, svc1: Service, d1: Resource,
                     r2: Resource, svc2: Service, d2: Resource)
    requires OneServicePerPeer(lib, infos)
    requires DeclaredLink(lib, infos, r1, svc1, d1) && DeclaredLink(lib, infos, r2, svc2, d2)
    requires r1.name == r2.name && PeerFor(r1, d1) == PeerFor(r2, d2)
    ensures r1 == r2 && svc1 == svc2
  {
    hide DeclaredLink, PeerFor;
  }

  /** The connection itself is found in every run. */
  lemma {:induction false} LinkIsFound(lib: Lib, infos: seq<Info>, f: Run.Findings, r: Resource, svc: Service,
                                       d: Resource, a: Resource) returns (c: Connection)
    requires DeclaredLink(lib, infos, r, svc, d) && Inlined(lib, ByName(ConfigMapsIn(infos)), r, a)
    requires Run.FindingsOf(lib, infos, f) && |f.resources| == |WorkloadsIn(infos)|
    requires forall i :: 0 <= i < |f.resources| && WorkloadsIn(infos)[i] == r ==> f.resources[i] == a
    ensures c in f.connections && c.source == Some(AsSource(a, AnalysedService(infos, svc)))
    ensures c.link == AnalysedService(infos, svc) && SameWorkload(c.target, d) && SameWorkload(c.source.value, r)
  {
    hide WorkloadsIn, ByName, ConfigMapsIn, InlinedAll, Discover, AnalysedServices, Inlined, AnalysedService;
    hide References, RefersTo, Contained;
    var cms, after := ByName(ConfigMapsIn(infos)), AnalysedService(infos, svc);
    InfosElements(infos);
    RunsAreTwins(lib, infos, f, f);
    assert r in WorkloadsIn(infos) && d in WorkloadsIn(infos);
    var i :| 0 <= i < |f.resources| && WorkloadsIn(infos)[i] == r;
    var j :| 0 <= j < |f.resources| && WorkloadsIn(infos)[j] == d;
    var target := f.resources[j];
    InlinedKeeps(lib, cms, r, a);
    InlinedKeeps(lib, cms, d, target);
    ReferencesAreDeclared(lib, cms, r, a, svc, infos);
    ExposureKeepsLength(svc, infos);
    AnalysedServicesElements(infos, after);
    assert f.resources[i] in f.resources;
    c := Connection(Some(AsSource(a, after)), target, after);
    DiscoveryIsAJoin(f.resources, AnalysedServices(infos), c);
  }

  /** The ports of a source that is known to use some. */
  lemma PortsWhenUsed(c: Connection, a: Resource, svc: Service)
    requires c.source == Some(AsSource(a, svc)) && c.link == svc && AsSource(a, svc).usedPorts != []
    ensures PortsOf(c) == ToNetpolPorts(AsSource(a, svc).usedPorts, false)
  {
    hide AsSource;
  }

  lemma {:induction false} RunHasRule(lib: Lib, infos: seq<Info>, f: Run.Findings, r: Resource, svc: Service,
                                      d: Resource, a: Resource, ports: seq<NetpolPort>, dnsPort: IntOrString)
    requires OneServicePerPeer(lib, infos) && DeclaredLink(lib, infos, r, svc, d) && r.name != ""
    requires Inlined(lib, ByName(ConfigMapsIn(infos)), r, a)
    requires Run.FindingsOf(lib, infos, f) && |f.resources| == |WorkloadsIn(infos)|
    requires forall i :: 0 <= i < |f.resources| && WorkloadsIn(infos)[i] == r ==> f.resources[i] == a
    requires NamesIdentify(f.connections) && AsSource(a, AnalysedService(infos, svc)).usedPorts != []
    requires ports != []
    ensures HasEgress(Synth(f.resources, f.connections, dnsPort), r.name, Rule([PeerFor(r, d)], ports))
            <==> ports == ToNetpolPorts(AsSource(a, AnalysedService(infos, svc)).usedPorts, false)
  {
    hide WorkloadsIn, ByName, ConfigMapsIn, Inlined, AnalysedService, PortsOf, Run.FindingsOf;
    hide OneServicePerPeer, DeclaredLink, NamesIdentify, HasEgress, Synth, AsSource, ToNetpolPorts;
    var after := AnalysedService(infos, svc);
    EgressInText(f.resources, f.connections, dnsPort, r.name, PeerFor(r, d), ports);
    var c := LinkIsFound(lib, infos, f, r, svc, d, a);
    SamePeer(c.source.value, c.target, r, d);
    PortsWhenUsed(c, a, after);
    if c' :| c' in f.connections && LetsOutTo(c', r.name, PeerFor(r, d), ports) {
      PortsOfPeer(lib, infos, f, r, svc, d, a, c');
      PortsWhenUsed(c', a, after);
    }
  }

  /** Two readings with different ports give two runs with different texts. */
  lemma {:induction false} TwoTexts(lib: Lib, infos: seq<Info>, r: Resource, svc: Service, d: Resource,
                                    a: Resource, b: Resource, dnsPort: IntOrString)
    returns (f: Run.Findings, g: Run.Findings)
    requires WorkloadsIdentified(WorkloadsIn(infos)) && AllNamed(WorkloadsIn(infos))
    requires OneServicePerPeer(lib, infos) && DeclaredLink(lib, infos, r, svc, d)
    requires var cms := ByName(ConfigMapsIn(infos)); Inlined(lib, cms, r, a) && Inlined(lib, cms, r, b)
    requires PortList(a.networkAddrs, svc, r.namespace) != PortList(b.networkAddrs, svc, r.namespace)
    ensures Run.FindingsOf(lib, infos, f) && Run.FindingsOf(lib, infos, g)
    ensures Synth(f.resources, f.connections, dnsPort) != Synth(g.resources, g.connections, dnsPort)
  {
    hide ByName, ConfigMapsIn, Inlined, AnalysedService, PortList, OneServicePerPeer, NamesIdentify;
    hide WorkloadsIn, Run.FindingsOf, Synth, HasEgress, AsSource, ToNetpolPorts, WorkloadsIdentified, RefersTo, Fronts;
    InfosElements(infos);
    var after := AnalysedService(infos, svc);
    f := RunWith(lib, infos, r, a);
    g := RunWith(lib, infos, r, b);
    RunIdentifies(lib, infos, f);
    RunIdentifies(lib, infos, g);
    DifferentPorts(lib, infos, r, svc, a, b);
    var ports := ToNetpolPorts(AsSource(a, after).usedPorts, false);
    RunHasRule(lib, infos, f, r, svc, d, a, ports, dnsPort);
    RunHasRule(lib, infos, g, r, svc, d, b, ports, dnsPort);
  }

  lemma {:induction false} DifferentPorts(lib: Lib, infos: seq<Info>, r: Resource, svc: Service,
                                          a: Resource, b: Resource)
    requires var cms := ByName(ConfigMapsIn(infos)); Inlined(lib, cms, r, a) && Inlined(lib, cms, r, b)
    requires PortList(a.networkAddrs, svc, r.namespace) != PortList(b.networkAddrs, svc, r.namespace)
    ensures var usedA := AsSource(a, AnalysedService(infos, svc)).usedPorts;
            var usedB := AsSource(b, AnalysedService(infos, svc)).usedPorts;
            && usedA != [] && usedB != [] && ToNetpolPorts(usedA, false) != []
            && ToNetpolPorts(usedA, false) != ToNetpolPorts(usedB, false)
  {
    hide ByName, ConfigMapsIn, Inlined, AnalysedService, PortList, AsSource;
    var cms, after := ByName(ConfigMapsIn(infos)), AnalysedService(infos, svc);
    InlinedKeeps(lib, cms, r, a);
    InlinedKeeps(lib, cms, r, b);
    InlinedAlike(lib, cms, r, a, b);
    SamePortsUsed(a, b, after);
    PermutedPorts(AsSource(a, after).usedPorts, AsSource(b, after).usedPorts);
    PermutationElements(ToNetpolPorts(AsSource(a, after).usedPorts, false),
                        ToNetpolPorts(AsSource(b, after).usedPorts, false));
    ExposureKeepsPortLists(infos, a.networkAddrs, svc, r.namespace);
    ExposureKeepsPortLists(infos, b.networkAddrs, svc, r.namespace);
    PortsAsSource(a, after);
    PortsAsSource(b, after);
    PrefixStays(ToNetpolPorts(r.usedPorts, false), PortList(a.networkAddrs, svc, r.namespace),
                PortList(b.networkAddrs, svc, r.namespace));
  }

  lemma PrefixStays<T>(prefix: seq<T>, a: seq<T>, b: seq<T>)
    requires a != b
    ensures prefix + a != prefix + b
  {
    assert (prefix + a)[|prefix|..] == a && (prefix + b)[|prefix|..] == b;
  }

  lemma {:induction false} RunIdentifies(lib: Lib, infos: seq<Info>, f: Run.Findings)
    requires Run.FindingsOf(lib, infos, f) && WorkloadsIdentified(WorkloadsIn(infos))
    ensures NamesIdentify(f.connections)
  {
    hide WorkloadsIn, InlinedAll, Discover, NamesIdentify, AnalysedServices, WorkloadsIdentified;
    hide ByName, ConfigMapsIn, AllAnalysed, AllNamed;
    AnalysedAreIdentified(lib, infos, ByName(ConfigMapsIn(infos)), f.resources);
    DiscoveredConnectionsAreFit(f.resources, AnalysedServices(infos));
  }

  /** Whatever order Go reads ConfigMaps in, the text of the policies is the same if and only if
      the ports that workloads use of the Services they reach others through are determined. */
  lemma {:induction false} TextIsDeterminedExactly(lib: Lib, infos: seq<Info>, dnsPort: IntOrString)
    requires WorkloadsIdentified(WorkloadsIn(infos)) && AllNamed(WorkloadsIn(infos))
    requires OneServicePerPeer(lib, infos)
    ensures (forall f, g :: Run.FindingsOf(lib, infos, f) && Run.FindingsOf(lib, infos, g) ==>
               Synth(f.resources, f.connections, dnsPort) == Synth(g.resources, g.connections, dnsPort))
            <==> PortsFixed(lib, infos)
  {
    hide WorkloadsIn, ByName, ConfigMapsIn, Inlined, PortList, OneServicePerPeer, Run.FindingsOf, Synth;
    hide WorkloadsIdentified, AllNamed, DeclaredLink, PortOrderFixed;
    if PortsFixed(lib, infos) {
      forall f, g | Run.FindingsOf(lib, infos, f) && Run.FindingsOf(lib, infos, g)
        ensures Synth(f.resources, f.connections, dnsPort) == Synth(g.resources, g.connections, dnsPort)
      {
        FixedPortsFixTheText(lib, infos, f, g, dnsPort);
      }
    }
    var cms := ByName(ConfigMapsIn(infos));
    if r, svc, d :| DeclaredLink(lib, infos, r, svc, d) && !PortOrderFixed(lib, cms, r, svc) {
      PortsAreDeterminedExactly(lib, cms, r, svc);
      var a, b :| Inlined(lib, cms, r, a) && Inlined(lib, cms, r, b)
                  && PortList(a.networkAddrs, svc, r.namespace) != PortList(b.networkAddrs, svc, r.namespace);
      var f, g := TwoTexts(lib, infos, r, svc, d, a, b, dnsPort);
    }
  }
}
