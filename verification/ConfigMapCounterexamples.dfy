/** ConfigMaps on which a run depends on the order of manifests, or on the order in which Go
    ranges over a map. */
module ConfigMapCounterexamples {
  import opened Model
  import opened Netpol
  import opened Sequences
  import opened Addresses
  import opened Selectors
  import opened AddressExtraction
  import opened Recognition
  import opened Exposure
  import opened Inlining
  import opened ManifestSpec
  import opened Accumulator
  import opened SynthSpec
  import opened SynthTable
  import opened SynthMeaning
  import opened SynthTheorems
  import opened LabelTheorems
  import opened OrderTheorems
  import opened DiscoverySpec
  import opened RunTheorems
  import opened ManifestOrder
  import opened Declarations
  import opened Counterexamples
  import Run = RunSpec

  // ----- two ConfigMaps of one full name -----

  /** A workload whose only configuration is the ConfigMap "cm" of its namespace. */
  const CLIENT := Resource("client", "n", APP_X, "Deployment", [], ["cm"], [], [])
  const EMPTY_CM := CfgMap("n/cm", map[])
  const SVC_CM := CfgMap("n/cm", map["BACKEND" := "svc"])

  function Manifests(svc: Service, cm1: CfgMap, cm2: CfgMap): seq<Info> {
    [WorkloadInfo(CLIENT), WorkloadInfo(BACK), ServiceInfo(svc), ConfigMapInfo(cm1)] + [ConfigMapInfo(cm2)]
  }

  lemma {:induction false} ManifestsHold(svc: Service, cm1: CfgMap, cm2: CfgMap)
    ensures var infos := Manifests(svc, cm1, cm2);
            && (forall r :: WorkloadInfo(r) in infos <==> r == CLIENT || r == BACK)
            && (forall s :: ServiceInfo(s) in infos <==> s == svc)
  {
    var infos := Manifests(svc, cm1, cm2);
    assert infos[0] == WorkloadInfo(CLIENT) && infos[1] == WorkloadInfo(BACK) && infos[2] == ServiceInfo(svc);
  }

  lemma {:induction false} ClientAndBackAreFit(ws: seq<Resource>)
    requires forall r :: r in ws ==> r == CLIENT || r == BACK
    ensures WorkloadsIdentified(ws) && AllNamed(ws) && NamespacesAgree(ws) && Antichain(ws)
  {
    assert !Inherits(CLIENT, BACK) && !Inherits(BACK, CLIENT) by {
      assert "app" in APP_X && "app" in APP_Z && APP_X["app"] != APP_Z["app"];
    }
  }

  lemma {:induction false} ManifestsAreFit(svc: Service, cm1: CfgMap, cm2: CfgMap)
    ensures var infos := Manifests(svc, cm1, cm2);
            && WorkloadsIdentified(WorkloadsIn(infos)) && AllNamed(WorkloadsIn(infos))
            && NamespacesAgree(WorkloadsIn(infos)) && Antichain(WorkloadsIn(infos)) && NothingUsed(infos)
  {
    hide WorkloadsIn, Manifests, WorkloadsIdentified, AllNamed, NamespacesAgree, Antichain;
    InfosElements(Manifests(svc, cm1, cm2));
    ManifestsHold(svc, cm1, cm2);
    ClientAndBackAreFit(WorkloadsIn(Manifests(svc, cm1, cm2)));
  }

  /** What the client is configured with is what its ConfigMap holds. */
  lemma {:induction false} ClientIsConfigured(lib: Lib, cms: CfgMaps, a: string)
    requires "n/cm" in cms
    ensures Configures(lib, cms, CLIENT, a)
            <==> exists k :: k in cms["n/cm"].data && AddressIn(lib, cms["n/cm"].data[k]) == Some(a)
  {
    hide AddressIn;
    assert FullName("n", "cm") == "n/cm";
    assert forall ref :: ref in CLIENT.configMapRefs <==> ref == "cm";
  }

  lemma {:induction false} SvcIsRecognised(lib: Lib)
    requires lib.hostOf("svc") == Some("svc")
    ensures AddressIn(lib, "svc") == Some("svc") && Match("svc", SVC, "n") == Some(NO_PORT)
  {
    assert PossibleAddresses(SVC, "n")[2] == "svc";
    PatternIsRecognised(lib, "svc", SVC, "n", "svc", 80);
  }

  lemma {:induction false} EmptyConfigMapUsesNothing(lib: Lib)
    ensures !DeclaredUse(lib, Manifests(SVC, SVC_CM, EMPTY_CM), "client", "back", TCP_80)
  {
    hide ByName, ConfigMapsIn, Match, Fronts, Configures;
    var infos := Manifests(SVC, SVC_CM, EMPTY_CM);
    var cms := ByName(ConfigMapsIn(infos));
    ManifestsHold(SVC, SVC_CM, EMPTY_CM);
    LastIsInEffect(infos[..4], EMPTY_CM);
    assert infos == infos[..4] + [ConfigMapInfo(EMPTY_CM)];
    forall a ensures !Configures(lib, cms, CLIENT, a) {
      ClientIsConfigured(lib, cms, a);
    }
    assert !RefersTo(lib, cms, CLIENT, SVC);
  }

  lemma {:induction false} FullConfigMapUsesSvc(lib: Lib)
    requires lib.hostOf("svc") == Some("svc")
    ensures DeclaredUse(lib, Manifests(SVC, EMPTY_CM, SVC_CM), "client", "back", TCP_80)
  {
    hide ByName, ConfigMapsIn, Match, Fronts, Configures, AddressIn;
    var infos := Manifests(SVC, EMPTY_CM, SVC_CM);
    var cms := ByName(ConfigMapsIn(infos));
    ManifestsHold(SVC, EMPTY_CM, SVC_CM);
    LastIsInEffect(infos[..4], SVC_CM);
    assert infos == infos[..4] + [ConfigMapInfo(SVC_CM)];
    SvcIsRecognised(lib);
    SelectsZ(SVC, BACK);
    forall a ensures Configures(lib, cms, CLIENT, a) <==> a == "svc" {
      ClientIsConfigured(lib, cms, a);
      assert "BACKEND" in SVC_CM.data;
    }
    assert RefersTo(lib, cms, CLIENT, SVC) && !NumbersSome(lib, cms, CLIENT, SVC);
    assert SVC.network[0] == PORT && Translates(PORT, TCP_80);
    assert Requests(lib, cms, CLIENT, SVC, TCP_80);
  }

  lemma {:induction false} NotReached(lib: Lib, f: Run.Findings)
    requires Run.FindingsOf(lib, Manifests(SVC, SVC_CM, EMPTY_CM), f)
    ensures !Allows(Synth(f.resources, f.connections, DNS), PodFor(CLIENT), PodFor(BACK), TCP_80)
  {
    hide Run.FindingsOf, Allows, Synth, DeclaredUse, DeclaredOffer, DeclaredSender;
    hide WorkloadsIn, WorkloadsIdentified, AllNamed, NamespacesAgree, Antichain, NothingUsed;
    ManifestsHold(SVC, SVC_CM, EMPTY_CM);
    ManifestsAreFit(SVC, SVC_CM, EMPTY_CM);
    EmptyConfigMapUsesNothing(lib);
    RunIsExact(lib, Manifests(SVC, SVC_CM, EMPTY_CM), f, DNS, CLIENT, BACK, TCP_80);
  }

  lemma {:induction false} Reached(lib: Lib, f: Run.Findings)
    requires lib.hostOf("svc") == Some("svc") && Run.FindingsOf(lib, Manifests(SVC, EMPTY_CM, SVC_CM), f)
    ensures Allows(Synth(f.resources, f.connections, DNS), PodFor(CLIENT), PodFor(BACK), TCP_80)
  {
    hide Run.FindingsOf, Allows, Synth, DeclaredUse, DeclaredOffer, DeclaredSender;
    hide WorkloadsIn, WorkloadsIdentified, AllNamed, NamespacesAgree, Antichain, NothingUsed;
    ManifestsHold(SVC, EMPTY_CM, SVC_CM);
    ManifestsAreFit(SVC, EMPTY_CM, SVC_CM);
    FullConfigMapUsesSvc(lib);
    RunIsExact(lib, Manifests(SVC, EMPTY_CM, SVC_CM), f, DNS, CLIENT, BACK, TCP_80);
  }

  /** Of two ConfigMaps with one full name the last one decides: the order of manifests
      decides whether the client may reach the Service, in every run. */
  lemma {:induction false} ConfigMapOrderMatters(lib: Lib)
    requires lib.hostOf("svc") == Some("svc")
    ensures var infos1, infos2 := Manifests(SVC, SVC_CM, EMPTY_CM), Manifests(SVC, EMPTY_CM, SVC_CM);
            && multiset(infos1) == multiset(infos2)
            && (exists f :: Run.FindingsOf(lib, infos1, f)) && (exists f :: Run.FindingsOf(lib, infos2, f))
            && (forall f :: Run.FindingsOf(lib, infos1, f) ==>
                  !Allows(Synth(f.resources, f.connections, DNS), PodFor(CLIENT), PodFor(BACK), TCP_80))
            && (forall f :: Run.FindingsOf(lib, infos2, f) ==>
                  Allows(Synth(f.resources, f.connections, DNS), PodFor(CLIENT), PodFor(BACK), TCP_80))
  {
    hide Run.FindingsOf, Allows, Synth;
    var infos1, infos2 := Manifests(SVC, SVC_CM, EMPTY_CM), Manifests(SVC, EMPTY_CM, SVC_CM);
    var f1 := SomeFindings(lib, infos1);
    var f2 := SomeFindings(lib, infos2);
    forall f | Run.FindingsOf(lib, infos1, f)
      ensures !Allows(Synth(f.resources, f.connections, DNS), PodFor(CLIENT), PodFor(BACK), TCP_80)
    {
      NotReached(lib, f);
    }
    forall f | Run.FindingsOf(lib, infos2, f)
      ensures Allows(Synth(f.resources, f.connections, DNS), PodFor(CLIENT), PodFor(BACK), TCP_80)
    {
      Reached(lib, f);
    }
  }

  // ----- a ConfigMap with two addresses -----

  const TLS := SvcNetworkAttr("", 443, FromInt(0), "", false)
  const TCP_443 := NetpolPort("TCP", FromInt(443))
  const TWO_PORTS := Svc("n", [PORT, TLS], false)
  const PLAIN_URL := WithPort("svc", 80)
  const TLS_URL := WithPort("svc", 443)
  const BOTH_CM := CfgMap("n/cm", map["PLAIN" := PLAIN_URL, "SECURE" := TLS_URL])

  function TwoUrls(): seq<Info> {
    [WorkloadInfo(CLIENT), WorkloadInfo(BACK), ServiceInfo(TWO_PORTS), ConfigMapInfo(BOTH_CM)]
  }

  lemma {:induction false} TakenIn(before: seq<Info>, info: Info)
    ensures WorkloadsIn(before + [info]) == WorkloadsIn(before) + WorkloadOf(info)
    ensures ServicesIn(before + [info]) == ServicesIn(before) + ServiceOf(info)
    ensures ConfigMapsIn(before + [info]) == ConfigMapsIn(before) + ConfigMapOf(info)
    ensures EntriesIn(before + [info]) == EntriesIn(before) + EntriesOfInfo(info)
  {
    assert (before + [info])[..|before|] == before;
  }

  lemma {:induction false} TwoUrlsHold()
    ensures WorkloadsIn(TwoUrls()) == [CLIENT, BACK] && AnalysedServices(TwoUrls()) == [TWO_PORTS]
    ensures "n/cm" in ByName(ConfigMapsIn(TwoUrls())) && ByName(ConfigMapsIn(TwoUrls()))["n/cm"] == BOTH_CM
  {
    var infos := TwoUrls();
    hide ByName, WorkloadsIn, ServicesIn, ConfigMapsIn, EntriesIn, ExposedService;
    TakenInNothing();
    var one, two, three := [] + [infos[0]], [] + [infos[0]] + [infos[1]], [] + [infos[0]] + [infos[1]] + [infos[2]];
    TakenIn([], infos[0]);
    TakenIn(one, infos[1]);
    TakenIn(two, infos[2]);
    TakenIn(three, infos[3]);
    assert infos == three + [infos[3]];
    LastIsInEffect(infos[..3], BOTH_CM);
    assert infos == infos[..3] + [ConfigMapInfo(BOTH_CM)];
    NothingToAdd(map[]);
    UnexposedServiceIsKept(TWO_PORTS, map[]);
  }

  lemma TakenInNothing()
    ensures WorkloadsIn([]) == [] && ServicesIn([]) == [] && ConfigMapsIn([]) == [] && EntriesIn([]) == []
  {
  }

  lemma {:induction false} BothAddresses(lib: Lib, data: map<string, string>)
    requires data == BOTH_CM.data
    requires AddressIn(lib, PLAIN_URL) == Some(PLAIN_URL) && AddressIn(lib, TLS_URL) == Some(TLS_URL)
    ensures AddressesUnder(lib, data, data.Keys) == multiset{PLAIN_URL, TLS_URL}
  {
    hide AddressIn, WithPort;
    assert data["PLAIN"] == PLAIN_URL && data["SECURE"] == TLS_URL;
    assert data.Keys - {"PLAIN"} - {"SECURE"} == {};
    AddressesUnderAnyOrder(lib, data, data.Keys, "PLAIN");
    AddressesUnderAnyOrder(lib, data, data.Keys - {"PLAIN"}, "SECURE");
  }

  /** Go may range over the ConfigMap in either order. */
  lemma {:induction false} EitherOrder(lib: Lib, cms: CfgMaps, addrs: seq<string>)
    requires lib.hostOf(PLAIN_URL) == Some(PLAIN_URL) && lib.hostOf(TLS_URL) == Some(TLS_URL)
    requires "n/cm" in cms && cms["n/cm"] == BOTH_CM
    requires multiset(addrs) == multiset{PLAIN_URL, TLS_URL}
    ensures Inlined(lib, cms, CLIENT, CLIENT.(networkAddrs := addrs))
  {
    hide AddressIn, Match, WithPort, AddressesUnder;
    UrlsAreRecognised(lib, "n");
    BothAddresses(lib, BOTH_CM.data);
    assert FullName("n", "cm") == "n/cm";
    assert Readings(lib, cms, "n", CLIENT.configMapRefs, [addrs]);
    assert [addrs][..0] == [];
    assert Flatten([addrs]) == addrs;
    assert addrs + [] == addrs;
    assert InlinedWith(lib, cms, CLIENT, CLIENT.(networkAddrs := addrs), [addrs]);
  }

  lemma {:induction false} UrlsAreRecognised(lib: Lib, viewerNs: string)
    requires lib.hostOf(PLAIN_URL) == Some(PLAIN_URL) && lib.hostOf(TLS_URL) == Some(TLS_URL) && viewerNs == "n"
    ensures AddressIn(lib, PLAIN_URL) == Some(PLAIN_URL) && AddressIn(lib, TLS_URL) == Some(TLS_URL)
    ensures Match(PLAIN_URL, TWO_PORTS, viewerNs) == Some(PORT) && Match(TLS_URL, TWO_PORTS, viewerNs) == Some(TLS)
  {
    hide AddressIn, Match, WithPort;
    assert PossibleAddresses(TWO_PORTS, viewerNs)[2] == "svc";
    PatternIsRecognised(lib, PLAIN_URL, TWO_PORTS, viewerNs, "svc", 80);
    PatternIsRecognised(lib, TLS_URL, TWO_PORTS, viewerNs, "svc", 443);
  }

  lemma {:induction false} BackInlinesNothing(lib: Lib, cms: CfgMaps)
    ensures Inlined(lib, cms, BACK, BACK)
  {
    assert WithAddrs(BACK, [] + []) == BACK;
    assert InlinedWith(lib, cms, BACK, BACK, []);
  }

  /** The run in which the client's addresses are read in this order. */
  function RunReading(addrs: seq<string>): Run.Findings {
    var rs := [CLIENT.(networkAddrs := addrs), BACK];
    Run.Findings(rs, Discover(rs, [TWO_PORTS]))
  }

  lemma {:induction false} BothAreRuns(lib: Lib, addrs: seq<string>)
    requires lib.hostOf(PLAIN_URL) == Some(PLAIN_URL) && lib.hostOf(TLS_URL) == Some(TLS_URL)
    requires multiset(addrs) == multiset{PLAIN_URL, TLS_URL}
    ensures Run.FindingsOf(lib, TwoUrls(), RunReading(addrs))
  {
    hide Discover, WorkloadsIn, ByName, ConfigMapsIn, AnalysedServices, Inlined, InlinedAll, WithPort;
    var cms := ByName(ConfigMapsIn(TwoUrls()));
    TwoUrlsHold();
    EitherOrder(lib, cms, addrs);
    BackInlinesNothing(lib, cms);
    InlinedAllOf(lib, cms, [CLIENT, BACK], RunReading(addrs).resources);
  }

  lemma {:induction false} UsesBoth(lib: Lib, client: Resource)
    requires lib.hostOf(PLAIN_URL) == Some(PLAIN_URL) && lib.hostOf(TLS_URL) == Some(TLS_URL)
    requires client == CLIENT.(networkAddrs := client.networkAddrs)
    requires client.networkAddrs == [PLAIN_URL, TLS_URL] || client.networkAddrs == [TLS_URL, PLAIN_URL]
    ensures References(client, TWO_PORTS)
    ensures AsSource(client, TWO_PORTS).usedPorts
            == if client.networkAddrs[0] == PLAIN_URL then [PORT, TLS] else [TLS, PORT]
  {
    hide AddressIn, Match, WithPort;
    UrlsAreRecognised(lib, client.namespace);
    var addrs := client.networkAddrs;
    assert addrs[0] in addrs;
    assert addrs[..1] == [addrs[0]] && addrs[..1][..0] == [];
    assert PortsUsedBy([], TWO_PORTS, "n") == [];
    assert PortsUsedBy(addrs[..1], TWO_PORTS, "n") == PortUsedBy(addrs[0], TWO_PORTS, "n");
    assert Match(PLAIN_URL, TWO_PORTS, "n") != Match(TLS_URL, TWO_PORTS, "n");
  }

  lemma {:induction false} TwoNetpolPorts(p: SvcNetworkAttr, q: SvcNetworkAttr)
    ensures ToNetpolPorts([p, q], false) == [ToNetpolPort(p), ToNetpolPort(q)]
  {
    assert [p, q][..1] == [p] && [p][..0] == [];
    assert ToNetpolPorts([], false) == [] && ToNetpolPorts([p], false) == [ToNetpolPort(p)];
  }

  /** The one connection of such a run. */
  lemma {:induction false} BothConnect(lib: Lib, addrs: seq<string>)
    requires lib.hostOf(PLAIN_URL) == Some(PLAIN_URL) && lib.hostOf(TLS_URL) == Some(TLS_URL)
    requires addrs == [PLAIN_URL, TLS_URL] || addrs == [TLS_URL, PLAIN_URL]
    ensures var conns := RunReading(addrs).connections;
            && conns != []
            && forall c :: c in conns ==>
                 HasSource(c) && PortsOf(c) == if addrs[0] == PLAIN_URL then [TCP_80, TCP_443] else [TCP_443, TCP_80]
  {
    hide Match, Contained, Discover, AsSource, WithPort;
    var client := CLIENT.(networkAddrs := addrs);
    UsesBoth(lib, client);
    SelectsZ(TWO_PORTS, BACK);
    SkipsOthers(TWO_PORTS, client);
    assert [client, BACK][0] == client && [client, BACK][1] == BACK;
    assert !References(BACK, TWO_PORTS);
    OneConnection([client, BACK], TWO_PORTS, client, BACK);
    TwoNetpolPorts(PORT, TLS);
    TwoNetpolPorts(TLS, PORT);
    SourceKeepsName(client, TWO_PORTS);
    assert RunReading(addrs).connections != [] by {
      assert Connection(Some(AsSource(client, TWO_PORTS)), BACK, TWO_PORTS) in RunReading(addrs).connections;
    }
  }

  lemma SourceKeepsName(r: Resource, svc: Service)
    ensures AsSource(r, svc).name == r.name
  {
  }

  // ----- ports in emitted policies -----

  /** The ports of a connection stand in an egress rule as they are. */
  lemma {:induction false} PortsAppear(resources: seq<Resource>, conns: seq<Connection>, dnsPort: IntOrString,
                                       c: Connection) returns (pol: Policy, rule: Rule)
    requires c in conns && HasSource(c) && PortsOf(c) != []
    ensures pol in Synth(resources, conns, dnsPort) && rule in pol.egress && rule.ports == PortsOf(c)
  {
    hide TableOf, Owners, PortsOf;
    var t, n := TableOf(conns), c.source.value.name;
    assert IsEnd(c, c.source.value);
    EntryOf(conns, c.source.value);
    rule := EgressRuleOf(Owners(conns), c);
    assert rule in EgressOffer(Owners(conns), c, n);
    EntryRules(conns, n, rule);
    pol := NetpolOf(t[n], dnsPort);
    PoliciesForElements(resources, t, dnsPort, pol);
  }

  /** The ports of an egress rule are those of a connection, or that of DNS. */
  lemma {:induction false} PortsComeFrom(resources: seq<Resource>, conns: seq<Connection>, dnsPort: IntOrString,
                                         pol: Policy, rule: Rule) returns (c: Connection)
    requires pol in Synth(resources, conns, dnsPort) && rule in pol.egress && rule != DnsRule(dnsPort)
    ensures c in conns && rule.ports == PortsOf(c)
  {
    hide TableOf, Owners, PortsOf;
    var t := TableOf(conns);
    PoliciesForElements(resources, t, dnsPort, pol);
    var n :| n in t && pol == NetpolOf(t[n], dnsPort);
    EntryRules(conns, n, rule);
    c :| c in conns && rule in EgressOffer(Owners(conns), c, n);
  }

  /** The two runs have no connection with the same ports, so their policies differ. */
  lemma {:induction false} TextsDiffer(f1: Run.Findings, f2: Run.Findings, ports1: seq<NetpolPort>,
                                       ports2: seq<NetpolPort>)
    requires f1.connections != [] && ports1 != ports2 && |ports1| == 2
    requires forall c :: c in f1.connections ==> HasSource(c) && PortsOf(c) == ports1
    requires forall c :: c in f2.connections ==> PortsOf(c) == ports2
    ensures Synth(f1.resources, f1.connections, DNS) != Synth(f2.resources, f2.connections, DNS)
  {
    hide Synth, PortsOf;
    var pol, rule := PortsAppear(f1.resources, f1.connections, DNS, f1.connections[0]);
    if Synth(f1.resources, f1.connections, DNS) == Synth(f2.resources, f2.connections, DNS) {
      var c := PortsComeFrom(f2.resources, f2.connections, DNS, pol, rule);
    }
  }

  lemma {:induction false} SameTraffic(lib: Lib, f1: Run.Findings, f2: Run.Findings)
    requires Run.FindingsOf(lib, TwoUrls(), f1) && Run.FindingsOf(lib, TwoUrls(), f2)
    ensures Alike(Synth(f1.resources, f1.connections, DNS), Synth(f2.resources, f2.connections, DNS))
  {
    hide Run.FindingsOf, Synth, FirstEndsAgree, WorkloadsIn, WorkloadsIdentified, Alike;
    TwoUrlsHold();
    ClientAndBackAreFit(WorkloadsIn(TwoUrls()));
    IdentifiedWorkloadsAgree(lib, TwoUrls(), f1);
    LeadersAgreeToo(lib, TwoUrls(), f1);
    ManifestOrderIsIrrelevant(lib, TwoUrls(), TwoUrls(), f1, f2, DNS);
  }

  /** Two runs over the same objects that differ in the text of the policies, though not in its meaning. */
  lemma {:induction false} TextDependsOnMapOrder(lib: Lib)
    requires lib.hostOf(PLAIN_URL) == Some(PLAIN_URL) && lib.hostOf(TLS_URL) == Some(TLS_URL)
    ensures var f1, f2 := RunReading([PLAIN_URL, TLS_URL]), RunReading([TLS_URL, PLAIN_URL]);
            && Run.FindingsOf(lib, TwoUrls(), f1) && Run.FindingsOf(lib, TwoUrls(), f2)
            && Synth(f1.resources, f1.connections, DNS) != Synth(f2.resources, f2.connections, DNS)
            && Alike(Synth(f1.resources, f1.connections, DNS), Synth(f2.resources, f2.connections, DNS))
  {
    hide Run.FindingsOf, RunReading, Synth, PortsOf, WithPort, Alike, TwoUrls;
    var plain, secure := [PLAIN_URL, TLS_URL], [TLS_URL, PLAIN_URL];
    var f1, f2 := RunReading(plain), RunReading(secure);
    BothAreRuns(lib, plain);
    BothAreRuns(lib, secure);
    SameTraffic(lib, f1, f2);
    BothConnect(lib, plain);
    BothConnect(lib, secure);
    UrlsDiffer(lib);
    assert [TCP_80, TCP_443][0] != [TCP_443, TCP_80][0];
    TextsDiffer(f1, f2, [TCP_80, TCP_443], [TCP_443, TCP_80]);
  }

  lemma UrlsDiffer(lib: Lib)
    requires lib.hostOf(PLAIN_URL) == Some(PLAIN_URL) && lib.hostOf(TLS_URL) == Some(TLS_URL)
    ensures PLAIN_URL != TLS_URL
  {
    hide Match, WithPort;
    UrlsAreRecognised(lib, "n");
  }
}
