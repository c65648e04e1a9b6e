/** Names on which the analyzer serves the wrong workload, or emits two policies of one identity. */
module NameCounterexamples {
  import opened Model
  import opened Netpol
  import opened Addresses
  import opened Selectors
  import opened SynthSpec
  import opened SynthTable
  import opened SynthMeaning
  import opened SynthInvariants
  import opened LabelTheorems
  import opened OrderTheorems
  import opened DiscoverySpec
  import opened Pipeline
  import opened Counterexamples

  // ----- two workloads of one name -----

  const WEB_A := Workload("web", "a", APP_Z, [])
  const WEB_B := Workload("web", "b", APP_Z, [])
  const LB_A := Svc("a", [PORT], true)
  const LB_B := Svc("b", [PORT], true)

  lemma FirstComesFirst(c1: Connection, c2: Connection)
    requires c1.source.None? && c2.source.None? && c1.target.name == c2.target.name != ""
    ensures OwnerOf(Owners([c1, c2]), c1.target) == c1.target
    ensures OwnerOf(Owners([c1, c2]), c2.target) == c1.target
  {
    assert [c1, c2][..1] == [c1] && [c1][..0] == [];
    assert Mentions([]) == [];
    assert Mentions([c1]) == [c1.target];
    assert Mentions([c1, c2]) == [c1.target, c2.target];
    OwnerIsFirstMention([c1, c2], c1.target.name);
  }

  /** The connection that comes first owns the name, for itself and for the other. */
  lemma {:induction false} WhoReceives(c1: Connection, c2: Connection, e: Endpoint, p: NetpolPort)
    requires c1.source.None? && c2.source.None? && c1.target.name == c2.target.name != ""
    requires c1.target.namespace != c2.target.namespace
    requires c1.link.exposeExternally && c2.link.exposeExternally
    requires Covers(c2.target, e) && p in PortsOf(c2)
    ensures forall c :: c in [c1, c2] ==> !Receives(Owners([c1, c2]), c, External, e, p)
    ensures exists c :: c in [c2, c1] && Receives(Owners([c2, c1]), c, External, e, p)
  {
    hide Owners, PortsOf, Matches;
    FirstComesFirst(c1, c2);
    FirstComesFirst(c2, c1);
    assert [c2, c1][0] == c2 && Receives(Owners([c2, c1]), c2, External, e, p);
  }

  /** Of two exposed workloads with one name in different namespaces, only the one
      whose connection comes first is opened. */
  lemma {:induction false} FirstNameIsOpened(resources: seq<Resource>, c1: Connection, c2: Connection,
                                             dnsPort: IntOrString, e: Endpoint, p: NetpolPort)
    requires c1.source.None? && c2.source.None? && c1.target.name == c2.target.name != ""
    requires c1.target.namespace != c2.target.namespace
    requires c1.link.exposeExternally && c2.link.exposeExternally
    requires c2.target in resources && Covers(c2.target, e) && p in PortsOf(c2)
    ensures !Allows(Synth(resources, [c1, c2], dnsPort), External, e, p)
    ensures Allows(Synth(resources, [c2, c1], dnsPort), External, e, p)
  {
    assert NamedTargets([c1, c2]) && NamedTargets([c2, c1]);
    hide Owners, PortsOf, Synth, EgressAllowed, IngressAllowed, Matches, Receives, Sends, IsSender, NamedTargets;
    WhoReceives(c1, c2, e, p);
    SynthMeansTheConnections(resources, [c1, c2], dnsPort, External, e, p);
    SynthMeansTheConnections(resources, [c2, c1], dnsPort, External, e, p);
  }

  lemma {:induction false} InTurn(w1: Resource, w2: Resource, s1: Service, s2: Service, links: seq<Service>)
    requires ServicesOf(w1, links) == [s1] && ServicesOf(w2, links) == [s2]
    requires s1.exposeExternally && s2.exposeExternally && w1.networkAddrs == w2.networkAddrs == []
    ensures Discover([w1, w2], links) == [Connection(None, w1, s1), Connection(None, w2, s2)]
  {
    var rs := [w1, w2];
    assert rs[..1] == [w1] && [w1][..0] == [] && [s1][..0] == [] && [s2][..0] == [];
    NoSources(rs, s1);
    NoSources(rs, s2);
    assert ViaServices(rs, w1, [s1]) == [Connection(None, w1, s1)];
    assert ViaServices(rs, w2, [s2]) == [Connection(None, w2, s2)];
    assert ToTargets(rs, [w1], links) == [Connection(None, w1, s1)];
  }

  lemma {:induction false} BalancersInFront()
    ensures ServicesOf(WEB_A, [LB_A, LB_B]) == [LB_A] && ServicesOf(WEB_B, [LB_A, LB_B]) == [LB_B]
  {
    SelectsZ(LB_A, WEB_A);
    SelectsZ(LB_B, WEB_B);
    assert [LB_A, LB_B][..1] == [LB_A] && [LB_A][..0] == [];
    assert ServicesOf(WEB_A, [LB_A]) == [LB_A] && ServicesOf(WEB_B, [LB_A]) == [];
  }

  /** Two workloads share a name: which one its LoadBalancer can reach depends on the order of manifests. */
  lemma {:induction false} SharedNamesDependOnOrder()
    ensures var links := [LB_A, LB_B];
            && !Allows(Synth([WEB_A, WEB_B], Discover([WEB_A, WEB_B], links), DNS), External, PodFor(WEB_B), TCP_80)
            && Allows(Synth([WEB_B, WEB_A], Discover([WEB_B, WEB_A], links), DNS), External, PodFor(WEB_B), TCP_80)
  {
    hide Discover, Synth, Allows, PortsOf;
    var links := [LB_A, LB_B];
    BalancersInFront();
    InTurn(WEB_A, WEB_B, LB_A, LB_B, links);
    InTurn(WEB_B, WEB_A, LB_B, LB_A, links);
    var c1, c2 := Connection(None, WEB_A, LB_A), Connection(None, WEB_B, LB_B);
    PortsOfSvc(c2);
    PodsInherit(WEB_B, WEB_B);
    assert [WEB_A, WEB_B][1] == WEB_B && [WEB_B, WEB_A][0] == WEB_B;
    FirstNameIsOpened([WEB_A, WEB_B], c1, c2, DNS, PodFor(WEB_B), TCP_80);
    FirstNameIsOpened([WEB_B, WEB_A], c1, c2, DNS, PodFor(WEB_B), TCP_80);
  }

  const CALLER := Workload("web", "a", APP_X, ["svc.b"])
  const WEB_SVC := Svc("b", [PORT], false)
  const CALLER_TO_WEB := Connection(Some(CALLER), WEB_B, WEB_SVC)

  lemma {:induction false} CallerIsDiscovered()
    ensures References(CALLER, WEB_SVC) && AsSource(CALLER, WEB_SVC) == CALLER && Fronts(WEB_SVC, WEB_B)
    ensures forall c :: c in Discover([CALLER, WEB_B], [WEB_SVC]) <==> c == CALLER_TO_WEB
  {
    hide Discover, Contained, Match;
    var rs := [CALLER, WEB_B];
    assert rs[0] == CALLER && rs[1] == WEB_B;
    assert PossibleAddresses(WEB_SVC, "a")[0] == "svc" + "." + "b" == "svc.b";
    UsesByName(CALLER, WEB_SVC, "svc.b");
    SelectsZ(WEB_SVC, WEB_B);
    OneConnection(rs, WEB_SVC, CALLER, WEB_B);
  }

  /** If all connections are the same, its source owns its name. */
  lemma {:induction false} SourceOwns(conns: seq<Connection>, c: Connection)
    requires c in conns && HasSource(c) && forall other :: other in conns ==> other == c
    ensures c.source.value.name in Owners(conns) && Owners(conns)[c.source.value.name] == c.source.value
  {
    hide Owners, MentionsOf;
    FirstEndIsEnd(c, c.source.value.name);
    NamedEndIsOwned(conns, c, c.source.value.name);
    var c' := OwnerIsSomeFirstEnd(conns, c.source.value.name);
  }

  /** A workload refers to a Service in front of its namesake. No other connection competes with
      theirs, whose order therefore cannot matter, and yet the flow is blocked. */
  lemma {:induction false} NamesakeIsBlocked()
    ensures var rs := [CALLER, WEB_B];
            && UsesPort(rs, [WEB_SVC], CALLER, WEB_B, TCP_80)
            && FirstEndsAgree(Discover(rs, [WEB_SVC]))
            && !Allows(Synth(rs, Discover(rs, [WEB_SVC]), DNS), PodFor(CALLER), PodFor(WEB_B), TCP_80)
  {
    hide Discover, Synth, EgressAllowed, IngressAllowed, References, Fronts, AsSource, PortsOf, Owners, MentionsOf;
    var rs := [CALLER, WEB_B];
    var conns := Discover(rs, [WEB_SVC]);
    CallerIsDiscovered();
    PortsOfSvc(CALLER_TO_WEB);
    assert rs[0] == CALLER && rs[1] == WEB_B && [WEB_SVC][0] == WEB_SVC;
    assert UsesPort(rs, [WEB_SVC], CALLER, WEB_B, TCP_80);
    SourceOwns(conns, CALLER_TO_WEB);
    SynthMeansTheConnections(rs, conns, DNS, PodFor(CALLER), PodFor(WEB_B), TCP_80);
    assert !Covers(OwnerOf(Owners(conns), WEB_B), PodFor(WEB_B));
  }

  // ----- a workload called after a default-deny policy -----

  const DENIER := Workload("default-deny-in-namespace-a", "a-netpol", APP_Z, [])
  const DENIER_SVC := Svc("a-netpol", [PORT], false)

  lemma {:induction false} DenierIsMentioned(conns: seq<Connection>)
    requires conns == Discover([DENIER], [DENIER_SVC])
    ensures FirstNamed(Mentions(conns), DENIER.name) == Some(DENIER)
  {
    hide Discover, Match, Fronts, Mentions;
    var c := Connection(None, DENIER, DENIER_SVC);
    SelectsZ(DENIER_SVC, DENIER);
    assert [DENIER][0] == DENIER && [DENIER_SVC][0] == DENIER_SVC;
    DiscoveryIsAJoin([DENIER], [DENIER_SVC], c);
    assert IsEnd(c, DENIER);
    MentionsElements(conns, DENIER);
    FirstNamedIsElement(Mentions(conns), DENIER.name);
    var r := FirstNamed(Mentions(conns), DENIER.name).value;
    MentionsElements(conns, r);
    var c' :| c' in conns && IsEnd(c', r);
    DiscoveryIsAJoin([DENIER], [DENIER_SVC], c');
  }

  lemma {:induction false} DenierCollides()
    ensures Collides(DENIER)
  {
    hide Collides;
    CollisionIsTextual(DENIER);
    assert DENIER.name + "-netpol" == "default-deny-in-namespace-a-netpol" == DenyName("a-netpol");
  }

  /** Any Service in front of this workload makes two policies of one name and namespace. */
  lemma {:induction false} PoliciesCollide()
    ensures !NamedApart(Synth([DENIER], Discover([DENIER], [DENIER_SVC]), DNS))
  {
    hide Discover, NamedApart, Synth, Collides, Mentions;
    var conns := Discover([DENIER], [DENIER_SVC]);
    DenierIsMentioned(conns);
    DenierCollides();
    assert [DENIER][0] == DENIER;
    assert SomeCollision([DENIER], conns);
    PoliciesAreNamedApart([DENIER], conns, DNS);
  }
}
