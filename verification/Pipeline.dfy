/** Discovery followed by synthesis: what the policies mean in terms of workloads and Services. */
module Pipeline {
  import opened Model
  import opened Netpol
  import opened Addresses
  import opened SynthSpec
  import opened SynthTable
  import opened SynthMeaning
  import opened SynthTheorems
  import opened LabelTheorems
  import opened SynthInvariants
  import opened DiscoverySpec

  /** Both ends of a discovered connection are analysed workloads; the source is a copy. */
  lemma EndsAreAnalysed(resources: seq<Resource>, links: seq<Service>, c: Connection)
    requires c in Discover(resources, links)
    ensures c.target in resources
    ensures c.source.Some? ==>
              exists r :: r in resources && c.source.value == AsSource(r, c.link) && References(r, c.link)
  {
    DiscoveryIsAJoin(resources, links, c);
  }

  lemma MentionsAreAnalysed(resources: seq<Resource>, links: seq<Service>, m: Resource) returns (r: Resource)
    requires Mentioned(Discover(resources, links), m)
    ensures r in resources && SameWorkload(r, m)
  {
    var c :| c in Discover(resources, links) && IsEnd(c, m);
    EndsAreAnalysed(resources, links, c);
    if m == c.target {
      r := m;
    } else {
      r :| r in resources && c.source.value == AsSource(r, c.link);
    }
  }

  /** Discovery hands synthesis what it needs. */
  lemma DiscoveredConnectionsAreFit(resources: seq<Resource>, links: seq<Service>)
    ensures AllAnalysed(resources, Discover(resources, links))
    ensures WorkloadsIdentified(resources) ==> NamesIdentify(Discover(resources, links))
    ensures AllNamed(resources) ==> NamedTargets(Discover(resources, links))
  {
    hide Discover, PortsOf, AsSource, References;
    var conns := Discover(resources, links);
    forall m | Mentioned(conns, m) ensures exists r :: r in resources && r.namespace == m.namespace {
      var r := MentionsAreAnalysed(resources, links, m);
    }
    if WorkloadsIdentified(resources) {
      forall m1, m2 | Mentioned(conns, m1) && Mentioned(conns, m2) && m1.name == m2.name != ""
        ensures SameWorkload(m1, m2)
      {
        var r1 := MentionsAreAnalysed(resources, links, m1);
        var r2 := MentionsAreAnalysed(resources, links, m2);
      }
    }
    if AllNamed(resources) {
      forall c | c in conns ensures NamedTarget(c) {
        EndsAreAnalysed(resources, links, c);
      }
    }
  }

  lemma NoFormsAcrossNamespaces(svc: Service, viewerNs: string)
    requires svc.namespace == "" && viewerNs != ""
    ensures PossibleAddresses(svc, viewerNs) == []
  {
  }

  lemma ReferenceNeedsNamespace(r: Resource, svc: Service)
    requires References(r, svc) && svc.namespace == ""
    ensures r.namespace == ""
  {
    var a :| a in r.networkAddrs && Match(a, svc, r.namespace).Some?;
    MatchNeedsAForm(a, svc.network, PossibleAddresses(svc, r.namespace));
    if r.namespace != "" {
      NoFormsAcrossNamespaces(svc, r.namespace);
    }
  }

  /** A target without a namespace is only addressed by sources without one. */
  lemma UnnamespacedTargets(resources: seq<Resource>, links: seq<Service>, c: Connection)
    requires c in Discover(resources, links) && c.source.Some?
    ensures c.target.namespace == "" ==> c.source.value.namespace == ""
  {
    DiscoveryIsAJoin(resources, links, c);
    var r :| r in resources && References(r, c.link) && c.source.value == AsSource(r, c.link);
    assert Fronts(c.link, c.target);
    assert AsSource(r, c.link).namespace == r.namespace;
    if c.link.namespace == "" {
      ReferenceNeedsNamespace(r, c.link);
    }
  }

  lemma {:induction false} MatchNeedsAForm(envVal: string, network: seq<SvcNetworkAttr>, addresses: seq<string>)
    ensures FirstWithPort(envVal, network, addresses).Some? ==> addresses != []
  {
    if network != [] {
      MatchNeedsAForm(envVal, network[1..], addresses);
    }
  }

  /** What discovery finds, synthesis allows: the source may always send, and the target
      lets it in unless the source's namespace cannot be named, in which case only another
      connection can open that port to it. */
  lemma {:induction false} DiscoveredIsAllowed(resources: seq<Resource>, links: seq<Service>, dnsPort: IntOrString,
                                               c: Connection, s: Endpoint, d: Endpoint, p: NetpolPort)
    requires WorkloadsIdentified(resources) && AllNamed(resources)
    requires c in Discover(resources, links) && HasSource(c) && p in PortsOf(c)
    requires WellLabelled(s) && WellLabelled(d) && Covers(c.source.value, s) && Covers(c.target, d)
    ensures var conns := Discover(resources, links);
            var policies := Synth(resources, conns, dnsPort);
            && EgressAllowed(policies, s, d, p)
            && (Allows(policies, s, d, p)
                <==> || c.source.value.namespace == c.target.namespace || c.source.value.namespace != ""
                     || c.link.exposeExternally
                     || exists c' :: c' in conns && c' != c && Receives(NO_OWNERS, c', s, d, p))
  {
    var conns := Discover(resources, links);
    DiscoveredConnectionsAreFit(resources, links);
    UnnamespacedTargets(resources, links, c);
    EndsAreAnalysed(resources, links, c);
    PlainMeaning(resources, conns, dnsPort, s, d, p);
    ConnectionIsHonoured(c, s, d, p);
  }

  /** Workload `ws` refers to a Service in front of `wd`, and port `p` is among those it uses. */
  ghost predicate UsesPort(resources: seq<Resource>, links: seq<Service>, ws: Resource, wd: Resource, p: NetpolPort) {
    exists r, t, svc ::
      && r in resources && t in resources && svc in links
      && r.name == ws.name && t.name == wd.name && Distinct(r, t)
      && Fronts(svc, t) && References(r, svc)
      && p in PortsOf(Connection(Some(AsSource(r, svc)), t, svc))
  }

  /** A Service in front of `wd` offers port `p` to the whole cluster, or to everyone. */
  ghost predicate OffersPort(resources: seq<Resource>, links: seq<Service>, wd: Resource, p: NetpolPort) {
    exists c :: Discoverable(resources, links, c) && c.target.name == wd.name && p in PortsOf(c)
                && (c.link.exposeExternally || c.source.None?)
  }

  ghost predicate UsesSomePort(resources: seq<Resource>, links: seq<Service>, ws: Resource) {
    exists wd, p :: wd in resources && UsesPort(resources, links, ws, wd, p)
  }

  /** Between pods of analysed workloads, the flows allowed are those to a used port of a
      referenced Service, and DNS where it is open anyway. */
  lemma {:induction false} PipelineIsExact(resources: seq<Resource>, links: seq<Service>, dnsPort: IntOrString,
                                           ws: Resource, wd: Resource, s: Endpoint, d: Endpoint, p: NetpolPort)
    requires WorkloadsIdentified(resources) && AllNamed(resources)
    requires NamespacesAgree(resources)
    requires ws in resources && wd in resources
    requires PodOf(Discover(resources, links), ws, s) && PodOf(Discover(resources, links), wd, d)
    ensures Allows(Synth(resources, Discover(resources, links), dnsPort), s, d, p)
            <==> || UsesPort(resources, links, ws, wd, p)
                 || (p == NetpolPort("UDP", dnsPort) && UsesSomePort(resources, links, ws)
                     && OffersPort(resources, links, wd, p))
  {
    var conns := Discover(resources, links);
    DiscoveredConnectionsAreFit(resources, links);
    forall c | c in conns ensures NamespacesKnown(c) {
      EndsAreAnalysed(resources, links, c);
    }
    SynthesisIsExact(resources, conns, dnsPort, ws, wd, s, d, p);
    LinkedMeansUsed(resources, links, ws, wd, p);
    SendersUseSomePort(resources, links, ws);
    OpenedMeansOffered(resources, links, ws, wd, p);
  }

  lemma SameByName(resources: seq<Resource>, r: Resource, w: Resource)
    requires WorkloadsIdentified(resources) && AllNamed(resources) && r in resources && w in resources
    ensures r.name == w.name <==> SameWorkload(r, w)
  {
  }

  lemma {:induction false} LinkedMeansUsed(resources: seq<Resource>, links: seq<Service>, ws: Resource, wd: Resource,
                                           p: NetpolPort)
    requires WorkloadsIdentified(resources) && AllNamed(resources) && ws in resources && wd in resources
    ensures (exists c :: c in Discover(resources, links) && Links(c, ws, wd) && p in PortsOf(c))
            <==> UsesPort(resources, links, ws, wd, p)
  {
    hide Discover, References, Fronts, PortsOf, AsSource, WorkloadsIdentified;
    var conns := Discover(resources, links);
    if c :| c in conns && Links(c, ws, wd) && p in PortsOf(c) {
      DiscoveryIsAJoin(resources, links, c);
      var r :| r in resources && References(r, c.link) && Distinct(r, c.target)
          && c.source.value == AsSource(r, c.link);
      SourceIsCopy(r, c.link);
      assert c == Connection(Some(AsSource(r, c.link)), c.target, c.link);
    }
    if r, t, svc :| && r in resources && t in resources && svc in links
                    && r.name == ws.name && t.name == wd.name && Distinct(r, t)
                    && Fronts(svc, t) && References(r, svc)
                    && p in PortsOf(Connection(Some(AsSource(r, svc)), t, svc)) {
      var c := Connection(Some(AsSource(r, svc)), t, svc);
      DiscoveryIsAJoin(resources, links, c);
      SourceIsCopy(r, svc);
      SameByName(resources, r, ws);
      SameByName(resources, t, wd);
      assert Links(c, ws, wd);
    }
  }

  lemma SendersUseSomePort(resources: seq<Resource>, links: seq<Service>, ws: Resource)
    requires WorkloadsIdentified(resources) && AllNamed(resources) && ws in resources
    ensures (exists c :: && c in Discover(resources, links) && HasSource(c) && SameWorkload(c.source.value, ws)
                         && PortsOf(c) != [])
            <==> UsesSomePort(resources, links, ws)
  {
    var conns := Discover(resources, links);
    if c :| c in conns && HasSource(c) && SameWorkload(c.source.value, ws) && PortsOf(c) != [] {
      EndsAreAnalysed(resources, links, c);
      assert Links(c, ws, c.target) && PortsOf(c)[0] in PortsOf(c);
      LinkedMeansUsed(resources, links, ws, c.target, PortsOf(c)[0]);
    }
    if wd, p :| wd in resources && UsesPort(resources, links, ws, wd, p) {
      LinkedMeansUsed(resources, links, ws, wd, p);
    }
  }

  lemma OpenedMeansOffered(resources: seq<Resource>, links: seq<Service>, ws: Resource, wd: Resource, p: NetpolPort)
    requires WorkloadsIdentified(resources) && AllNamed(resources) && ws in resources && wd in resources
    ensures (exists c :: c in Discover(resources, links) && Opens(c, ws, wd, p))
            <==> UsesPort(resources, links, ws, wd, p) || OffersPort(resources, links, wd, p)
  {
    var conns := Discover(resources, links);
    LinkedMeansUsed(resources, links, ws, wd, p);
    if c :| c in conns && Opens(c, ws, wd, p) {
      DiscoveryIsAJoin(resources, links, c);
      assert HasSource(c) && !c.link.exposeExternally ==> Links(c, ws, wd);
    }
    if c :| c in conns && Links(c, ws, wd) && p in PortsOf(c) {
      assert Opens(c, ws, wd, p);
    }
    if c :| Discoverable(resources, links, c) && c.target.name == wd.name && p in PortsOf(c)
            && (c.link.exposeExternally || c.source.None?) {
      DiscoveryIsAJoin(resources, links, c);
      assert Opens(c, ws, wd, p);
    }
  }

  lemma DiscoveredAmong(resources: seq<Resource>, links: seq<Service>)
    ensures Among(resources, Discover(resources, links))
  {
    hide Discover;
    forall m | Mentioned(Discover(resources, links), m) ensures exists w :: w in resources && SameWorkload(w, m) {
      var w := MentionsAreAnalysed(resources, links, m);
    }
  }

  /** The same for the declared pods of any two analysed workloads, if no workload's labels are
      contained in another's. */
  lemma {:induction false} AntichainPipelineIsExact(resources: seq<Resource>, links: seq<Service>,
                                                    dnsPort: IntOrString, ws: Resource, wd: Resource, p: NetpolPort)
    requires WorkloadsIdentified(resources) && AllNamed(resources)
    requires NamespacesAgree(resources) && Antichain(resources)
    requires ws in resources && wd in resources
    ensures Allows(Synth(resources, Discover(resources, links), dnsPort), PodFor(ws), PodFor(wd), p)
            <==> || UsesPort(resources, links, ws, wd, p)
                 || (p == NetpolPort("UDP", dnsPort) && UsesSomePort(resources, links, ws)
                     && OffersPort(resources, links, wd, p))
  {
    hide Discover, Allows, Synth, UsesPort, UsesSomePort, OffersPort, PodOf, Among, Antichain;
    DiscoveredAmong(resources, links);
    AntichainPods(resources, Discover(resources, links), ws);
    AntichainPods(resources, Discover(resources, links), wd);
    PipelineIsExact(resources, links, dnsPort, ws, wd, PodFor(ws), PodFor(wd), p);
  }

  // ----- who gets a policy -----

  /** A Service in front of `w` is exposed, or referred to by another workload, or by none at all;
      or `w` refers to a Service in front of another workload. */
  predicate Connected(resources: seq<Resource>, links: seq<Service>, w: Resource) {
    || (exists svc :: && svc in links && Fronts(svc, w)
                      && (|| HasExposedPorts(svc)
                          || (exists r :: r in resources && References(r, svc) && Distinct(r, w))
                          || (forall r :: r in resources ==> !References(r, svc))))
    || (exists svc, d :: && svc in links && d in resources && Fronts(svc, d) && References(w, svc) && Distinct(w, d))
  }

  lemma {:induction false} ConnectedIsMentioned(resources: seq<Resource>, links: seq<Service>, w: Resource)
    requires w in resources && Connected(resources, links, w)
    ensures exists m :: Mentioned(Discover(resources, links), m) && m.name == w.name
  {
    hide Discover, References, Fronts, HasExposedPorts, AsSource;
    var c;
    if svc :| && svc in links && Fronts(svc, w)
              && (HasExposedPorts(svc) || forall r :: r in resources ==> !References(r, svc)) {
      c := Connection(None, w, svc);
    } else if svc, r :| svc in links && Fronts(svc, w) && r in resources && References(r, svc) && Distinct(r, w) {
      c := Connection(Some(AsSource(r, svc)), w, svc);
    } else {
      var svc, d :| svc in links && d in resources && Fronts(svc, d) && References(w, svc) && Distinct(w, d);
      c := Connection(Some(AsSource(w, svc)), d, svc);
      SourceIsCopy(w, svc);
      assert IsEnd(c, AsSource(w, svc));
    }
    DiscoveryIsAJoin(resources, links, c);
    assert IsEnd(c, c.target);
  }

  lemma SourceIsCopy(r: Resource, svc: Service)
    ensures SameWorkload(AsSource(r, svc), r)
  {
  }

  lemma {:induction false} MentionedIsConnected(resources: seq<Resource>, links: seq<Service>, m: Resource)
    returns (w: Resource)
    requires Mentioned(Discover(resources, links), m)
    ensures w in resources && w.name == m.name && Connected(resources, links, w)
  {
    hide Discover, References, Fronts, HasExposedPorts, AsSource;
    var c :| c in Discover(resources, links) && IsEnd(c, m);
    DiscoveryIsAJoin(resources, links, c);
    if c.source == Some(m) {
      w :| w in resources && References(w, c.link) && Distinct(w, c.target) && c.source.value == AsSource(w, c.link);
      SourceIsCopy(w, c.link);
    } else {
      w := m;
    }
  }

  /** A workload gets a policy of its own exactly if it is connected. */
  lemma {:induction false} WhoGetsAPolicy(resources: seq<Resource>, links: seq<Service>, name: string)
    requires name != ""
    ensures (exists e :: e in Listing(TableOf(Discover(resources, links))) && e.resource.name == name)
            <==> exists w :: w in resources && w.name == name && Connected(resources, links, w)
  {
    hide Discover, Listing, TableOf, Connected;
    OneEntryPerName(Discover(resources, links), name);
    if m :| Mentioned(Discover(resources, links), m) && m.name == name {
      var w := MentionedIsConnected(resources, links, m);
    }
    if w :| w in resources && w.name == name && Connected(resources, links, w) {
      ConnectedIsMentioned(resources, links, w);
    }
  }

  // ----- crashes -----

  /** Some address of `r` denotes a port of `svc` by its number. */
  predicate NumbersPort(r: Resource, svc: Service) {
    exists a :: a in r.networkAddrs && PortUsedBy(a, svc, r.namespace) != []
  }

  /** Workload `r` refers to `svc` in a way that yields ports. A nameless workload counts as no
      source, so that it yields only the ports it names itself. */
  predicate YieldsPorts(r: Resource, svc: Service) {
    References(r, svc) && (r.usedPorts != [] || NumbersPort(r, svc) || (r.name != "" && svc.network != []))
  }

  /** Service `svc` in front of the nameless workload `d` makes synthesis dereference nil. */
  predicate CrashesAt(resources: seq<Resource>, d: Resource, svc: Service) {
    && d.name == "" && Fronts(svc, d)
    && (|| (svc.exposeExternally && svc.network != [])
        || (exists q :: q in svc.network && q.exposeToCluster)
        || (exists r :: r in resources && Distinct(r, d) && YieldsPorts(r, svc)))
  }

  predicate Crashes(resources: seq<Resource>, links: seq<Service>) {
    exists d, svc :: d in resources && svc in links && CrashesAt(resources, d, svc)
  }

  lemma HasPorts(c: Connection)
    ensures c.source.Some? && c.source.value.usedPorts != [] ==> PortsOf(c) != []
    ensures !(c.source.Some? && c.source.value.usedPorts != []) ==>
              (PortsOf(c) != []
               <==> exists q :: q in c.link.network && (HasSource(c) || c.link.exposeExternally || q.exposeToCluster))
  {
    if c.source.Some? && c.source.value.usedPorts != [] {
      assert c.source.value.usedPorts[0] in c.source.value.usedPorts;
      PortsOfElements(c, ToNetpolPort(c.source.value.usedPorts[0]));
    } else {
      if q :| q in c.link.network && (HasSource(c) || c.link.exposeExternally || q.exposeToCluster) {
        PortsOfElements(c, ToNetpolPort(q));
      }
      if PortsOf(c) != [] {
        assert PortsOf(c)[0] in PortsOf(c);
        PortsOfElements(c, PortsOf(c)[0]);
      }
    }
  }

  lemma {:induction false} UsesNothing(addrs: seq<string>, svc: Service, viewerNs: string)
    ensures PortsUsedBy(addrs, svc, viewerNs) == [] <==> forall a :: a in addrs ==> PortUsedBy(a, svc, viewerNs) == []
  {
    if addrs != [] {
      var init, last := addrs[..|addrs| - 1], addrs[|addrs| - 1];
      assert addrs == init + [last];
      UsesNothing(init, svc, viewerNs);
    }
  }

  lemma {:induction false} MatchedPortIsListed(envVal: string, network: seq<SvcNetworkAttr>, addresses: seq<string>)
    ensures var m := FirstWithPort(envVal, network, addresses);
            m.Some? ==> m.value in network
  {
    if network != [] {
      MatchedPortIsListed(envVal, network[1..], addresses);
      assert network == [network[0]] + network[1..];
    }
  }

  /** A discovered connection has ports exactly if one of the guards holds. */
  lemma {:induction false} SourcedPorts(r: Resource, d: Resource, svc: Service)
    requires References(r, svc)
    ensures PortsOf(Connection(Some(AsSource(r, svc)), d, svc)) != []
            <==> YieldsPorts(r, svc) || (svc.exposeExternally && svc.network != [])
                 || exists q :: q in svc.network && q.exposeToCluster
  {
    hide References, PortsOf;
    var c := Connection(Some(AsSource(r, svc)), d, svc);
    HasPorts(c);
    UsesNothing(r.networkAddrs, svc, r.namespace);
    assert svc.network != [] ==> svc.network[0] in svc.network;
  }

  lemma {:induction false} SourcelessPorts(d: Resource, svc: Service)
    ensures PortsOf(Connection(None, d, svc)) != []
            <==> (svc.exposeExternally && svc.network != []) || exists q :: q in svc.network && q.exposeToCluster
  {
    HasPorts(Connection(None, d, svc));
    assert svc.network != [] ==> svc.network[0] in svc.network;
  }

  /** Exactly which workloads and Services lead to a nil dereference. */
  lemma {:induction false} CrashExactly(resources: seq<Resource>, links: seq<Service>)
    ensures !NamedTargets(Discover(resources, links)) <==> Crashes(resources, links)
  {
    hide PortsOf, Discover, References, YieldsPorts, Fronts, AsSource;
    var conns := Discover(resources, links);
    if c :| c in conns && !NamedTarget(c) {
      DiscoveryIsAJoin(resources, links, c);
      if c.source.Some? {
        var r :| r in resources && References(r, c.link) && Distinct(r, c.target)
            && c.source.value == AsSource(r, c.link);
        SourcedPorts(r, c.target, c.link);
        assert c == Connection(Some(AsSource(r, c.link)), c.target, c.link);
      } else {
        SourcelessPorts(c.target, c.link);
        assert c == Connection(None, c.target, c.link);
      }
      assert CrashesAt(resources, c.target, c.link);
    }
    if d, svc :| d in resources && svc in links && CrashesAt(resources, d, svc) {
      var c;
      if r :| r in resources && Distinct(r, d) && YieldsPorts(r, svc) {
        YieldsAReference(r, svc);
        SourcedPorts(r, d, svc);
        c := Connection(Some(AsSource(r, svc)), d, svc);
      } else {
        SourcelessPorts(d, svc);
        c := Connection(None, d, svc);
      }
      DiscoveryIsAJoin(resources, links, c);
      assert !NamedTarget(c);
    }
  }

  lemma YieldsAReference(r: Resource, svc: Service)
    requires YieldsPorts(r, svc)
    ensures References(r, svc)
  {
  }
}
