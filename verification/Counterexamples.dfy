/** Workloads and Services on which the analyzer does something that its users may not expect:
    an input for every property of the pipeline that does not hold without a condition. */
module Counterexamples {
  import opened Model
  import opened Netpol
  import opened Addresses
  import opened Selectors
  import opened SynthSpec
  import opened SynthMeaning
  import opened SynthTheorems
  import opened LabelTheorems
  import opened DiscoverySpec
  import opened Pipeline
  import opened Declarations

  // ----- manifests -----

  function Workload(name: string, namespace: string, labels: map<string, string>, addrs: seq<string>): Resource {
    Resource(name, namespace, labels, "Deployment", addrs, [], [], [])
  }

  const DNS := FromInt(53)
  const APP_X := map["app" := "x"]
  const APP_Z := map["app" := "z"]

  /** The Service "svc" in front of the workloads labelled app=z of a namespace. */
  function Svc(namespace: string, network: seq<SvcNetworkAttr>, exposeExternally: bool): Service {
    Service("svc", namespace, ["app:z"], network, exposeExternally)
  }

  const BACK := Workload("back", "n", APP_Z, [])
  const SVC := Svc("n", [PORT], false)

  lemma SelectsZ(svc: Service, d: Resource)
    requires svc.selectors == ["app:z"] && d.labels == APP_Z && svc.namespace == d.namespace
    ensures Fronts(svc, d)
  {
    assert Encode("app", "z") == "app:z";
    assert Encode("app", d.labels["app"]) in EncodedLabels(d.labels);
  }

  lemma SkipsOthers(svc: Service, d: Resource)
    requires svc.selectors == ["app:z"]
    requires forall k :: k in d.labels ==> (k == "app" && d.labels[k] == "x") || k == "track"
    ensures !Fronts(svc, d)
  {
    var selector := "app:z";
    assert svc.selectors[0] == selector && selector[0] == 'a' && selector[4] == 'z';
    forall k | k in d.labels ensures Encode(k, d.labels[k]) != selector {
      if k == "app" {
        assert Encode(k, "x")[4] == 'x';
      } else {
        assert Encode(k, d.labels[k])[0] == 't';
      }
    }
    assert selector in svc.selectors && selector !in EncodedLabels(d.labels);
  }

  /** If one workload refers to a Service, and the Service stands in front of one other workload,
      the connection between the two is all there is. */
  lemma {:induction false} OneConnection(rs: seq<Resource>, svc: Service, src: Resource, dst: Resource)
    requires src in rs && dst in rs && Distinct(src, dst)
    requires References(src, svc) && forall r :: r in rs && References(r, svc) ==> r == src
    requires Fronts(svc, dst) && forall d :: d in rs && Fronts(svc, d) ==> d == dst
    requires !HasExposedPorts(svc)
    ensures forall c :: c in Discover(rs, [svc]) <==> c == Connection(Some(AsSource(src, svc)), dst, svc)
  {
    hide Discover, References, Fronts, AsSource, HasExposedPorts;
    assert forall x :: x in [svc] <==> x == svc;
    forall c ensures c in Discover(rs, [svc]) <==> c == Connection(Some(AsSource(src, svc)), dst, svc) {
      DiscoveryIsAJoin(rs, [svc], c);
    }
  }

  /** The address "svc" is found by its own namespace, the address "svc.n" by all. */
  lemma BareNameMatches(a: string, svc: Service, viewerNs: string)
    requires a in PossibleAddresses(svc, viewerNs)
    ensures Match(a, svc, viewerNs) == Some(NO_PORT)
    ensures PortUsedBy(a, svc, viewerNs) == []
  {
  }

  lemma UsesByName(r: Resource, svc: Service, a: string)
    requires r.networkAddrs == [a] && r.usedPorts == [] && a in PossibleAddresses(svc, r.namespace)
    ensures References(r, svc) && AsSource(r, svc) == r
  {
    BareNameMatches(a, svc, r.namespace);
    assert r.networkAddrs[0] == a;
    assert r.networkAddrs[..0] == [];
    assert PortsUsedBy([], svc, r.namespace) == [];
  }

  lemma PortsOfSvc(c: Connection)
    requires c.link.network == [PORT] && (HasSource(c) || c.link.exposeExternally)
    requires c.source.Some? ==> c.source.value.usedPorts == []
    ensures PortsOf(c) == [TCP_80]
  {
    assert [PORT][..0] == [];
    assert ToNetpolPorts([], false) == [];
  }

  // ----- labels of one workload contained in another's -----

  const FRONT := Workload("front", "n", APP_X, ["svc"])
  const CANARY := Workload("canary", "n", map["app" := "x", "track" := "canary"], [])
  const FRONT_TO_BACK := Connection(Some(FRONT), BACK, SVC)

  lemma {:induction false} OverlapIsDiscovered()
    ensures forall c :: c in Discover([FRONT, CANARY, BACK], [SVC]) <==> c == FRONT_TO_BACK
  {
    hide Discover, Contained, Match;
    var rs := [FRONT, CANARY, BACK];
    assert rs[0] == FRONT && rs[2] == BACK;
    assert PossibleAddresses(SVC, "n")[2] == "svc";
    UsesByName(FRONT, SVC, "svc");
    SkipsOthers(SVC, FRONT);
    SkipsOthers(SVC, CANARY);
    SelectsZ(SVC, BACK);
    OneConnection(rs, SVC, FRONT, BACK);
  }

  /** The workload with more labels inherits traffic that it does not ask for. */
  lemma {:induction false} OverlappingLabelsInherit()
    ensures var rs := [FRONT, CANARY, BACK];
            && Allows(Synth(rs, Discover(rs, [SVC]), DNS), PodFor(CANARY), PodFor(BACK), TCP_80)
            && !UsesPort(rs, [SVC], CANARY, BACK, TCP_80)
  {
    hide Discover, Synth, Allows;
    var rs := [FRONT, CANARY, BACK];
    var conns := Discover(rs, [SVC]);
    OverlapIsDiscovered();
    PortsOfSvc(FRONT_TO_BACK);
    PodsInherit(CANARY, FRONT);
    PodsInherit(BACK, BACK);
    assert NamesIdentify(conns) && NamedTargets(conns);
    ConnectedIsAllowed(rs, conns, DNS, FRONT_TO_BACK, PodFor(CANARY), PodFor(BACK), TCP_80);
  }

  // ----- a source without a namespace -----

  const ROOTLESS := Workload("rootless", "", APP_X, ["svc.n"])
  const ROOTLESS_TO_BACK := Connection(Some(ROOTLESS), BACK, SVC)

  lemma {:induction false} RootlessIsDiscovered()
    ensures References(ROOTLESS, SVC) && AsSource(ROOTLESS, SVC) == ROOTLESS && Fronts(SVC, BACK)
    ensures forall c :: c in Discover([ROOTLESS, BACK], [SVC]) <==> c == ROOTLESS_TO_BACK
  {
    hide Discover, Contained, Match;
    var rs := [ROOTLESS, BACK];
    assert rs[0] == ROOTLESS && rs[1] == BACK;
    assert PossibleAddresses(SVC, "")[0] == "svc" + "." + "n" == "svc.n";
    UsesByName(ROOTLESS, SVC, "svc.n");
    SelectsZ(SVC, BACK);
    OneConnection(rs, SVC, ROOTLESS, BACK);
  }

  /** A target that has a namespace cannot name a source that has none, and blocks what it asks for. */
  lemma {:induction false} UnnamespacedSourceIsBlocked()
    ensures var rs := [ROOTLESS, BACK];
            && UsesPort(rs, [SVC], ROOTLESS, BACK, TCP_80)
            && !Allows(Synth(rs, Discover(rs, [SVC]), DNS), PodFor(ROOTLESS), PodFor(BACK), TCP_80)
  {
    hide Discover, Synth, EgressAllowed, IngressAllowed, References, Fronts, AsSource, Covers, PeerMatches, PortsOf;
    var rs := [ROOTLESS, BACK];
    var conns := Discover(rs, [SVC]);
    RootlessIsDiscovered();
    PortsOfSvc(ROOTLESS_TO_BACK);
    assert rs[0] == ROOTLESS && rs[1] == BACK && [SVC][0] == SVC;
    assert UsesPort(rs, [SVC], ROOTLESS, BACK, TCP_80);
    assert NamesIdentify(conns) && NamedTargets(conns);
    PlainMeaning(rs, conns, DNS, PodFor(ROOTLESS), PodFor(BACK), TCP_80);
    PodsInherit(BACK, BACK);
    PodsInherit(ROOTLESS, ROOTLESS);
    ConnectionIsHonoured(ROOTLESS_TO_BACK, PodFor(ROOTLESS), PodFor(BACK), TCP_80);
  }

  // ----- a Service without a selector -----

  const NO_LABELS: map<string, string> := map[]
  const NO_SELECTOR := Service("svc", "n", [], [PORT], true)

  /** In a cluster such a Service selects no pod; the analyzer opens the whole namespace to the outside. */
  lemma {:induction false} SelectorlessServiceOpensAll()
    ensures Lists(NO_SELECTOR, NO_LABELS) && !SelectedInCluster(NO_SELECTOR, NO_LABELS, BACK)
    ensures Allows(Synth([BACK], Discover([BACK], [NO_SELECTOR]), DNS), External, PodFor(BACK), TCP_80)
  {
    hide Discover, Synth, EgressAllowed, IngressAllowed, PortsOf;
    var c := Connection(None, BACK, NO_SELECTOR);
    var conns := Discover([BACK], [NO_SELECTOR]);
    assert EncodedLabels(NO_LABELS) == {};
    assert [BACK][0] == BACK && [NO_SELECTOR][0] == NO_SELECTOR;
    forall c' ensures c' in conns <==> c' == c {
      DiscoveryIsAJoin([BACK], [NO_SELECTOR], c');
    }
    PortsOfSvc(c);
    PodsInherit(BACK, BACK);
    assert NamesIdentify(conns) && NamedTargets(conns);
    PlainMeaning([BACK], conns, DNS, External, PodFor(BACK), TCP_80);
    assert Receives(NO_OWNERS, c, External, PodFor(BACK), TCP_80);
  }

  // ----- a workload that only refers to itself -----

  const LONER := Workload("loner", "n", APP_Z, ["svc"])

  /** It stands behind a Service, and yet no policy is made for it. */
  lemma {:induction false} LonerGetsNoPolicy()
    ensures Fronts(SVC, LONER) && References(LONER, SVC)
    ensures !exists e :: e in Listing(TableOf(Discover([LONER], [SVC]))) && e.resource.name == "loner"
  {
    hide Discover, Listing, TableOf, Match, Contained;
    assert PossibleAddresses(SVC, "n")[2] == "svc";
    UsesByName(LONER, SVC, "svc");
    SelectsZ(SVC, LONER);
    assert [LONER][0] == LONER && !HasExposedPorts(SVC);
    assert !Connected([LONER], [SVC], LONER);
    WhoGetsAPolicy([LONER], [SVC], "loner");
  }
}
