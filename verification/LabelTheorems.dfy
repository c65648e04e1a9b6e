/** Labels: which workloads inherit the traffic of others, and when none does. */
module LabelTheorems {
  import opened Model
  import opened Netpol
  import opened SynthSpec
  import opened SynthTable
  import opened SynthMeaning
  import opened SynthTheorems

  /** A pod of workload `w` with the labels that its manifest gives it, and no others. */
  function PodFor(w: Resource): Endpoint {
    Pod(w.namespace, map["kubernetes.io/metadata.name" := w.namespace], w.labels)
  }

  /** The pods of `w` are selected by the policy of `owner`. */
  ghost predicate Inherits(w: Resource, owner: Resource) {
    w.namespace == owner.namespace && Matches(owner.labels, w.labels)
  }

  lemma PodsInherit(w: Resource, owner: Resource)
    ensures WellLabelled(PodFor(w)) && PodFor(w).Pod?
    ensures Covers(owner, PodFor(w)) <==> Inherits(w, owner)
  {
  }

  // ----- inheritance, connection by connection -----

  lemma InheritsFrom(c: Connection, w1: Resource, w2: Resource, p: NetpolPort)
    requires NamespacesKnown(c)
    ensures IsSender(NO_OWNERS, c, PodFor(w1))
            <==> HasSource(c) && PortsOf(c) != [] && Inherits(w1, c.source.value)
    ensures Sends(NO_OWNERS, c, PodFor(w1), PodFor(w2), p)
            <==> HasSource(c) && p in PortsOf(c) && Inherits(w1, c.source.value) && Inherits(w2, c.target)
    ensures Receives(NO_OWNERS, c, PodFor(w1), PodFor(w2), p)
            <==> && p in PortsOf(c) && Inherits(w2, c.target)
                 && (c.link.exposeExternally || !HasSource(c) || Inherits(w1, c.source.value))
  {
    hide Covers, Inherits, Matches, PeerMatches, PeerFor, PortsOf;
    PodsInherit(w2, c.target);
    if HasSource(c) && PortsOf(c) != [] {
      PodsInherit(w1, c.source.value);
      PeerReachesOnly(c.source.value, c.target, PodFor(w2));
      PeerReachesOnly(c.target, c.source.value, PodFor(w1));
    }
  }

  /** What the pods of two workloads may do: what any connection gives to workloads that they
      inherit from. */
  lemma {:induction false} TrafficIsInherited(resources: seq<Resource>, conns: seq<Connection>, dnsPort: IntOrString,
                                              w1: Resource, w2: Resource, p: NetpolPort)
    requires NamedTargets(conns) && NamesIdentify(conns)
    requires forall c :: c in conns ==> NamespacesKnown(c)
    requires w1 in resources && w2 in resources
    ensures EgressAllowed(Synth(resources, conns, dnsPort), PodFor(w1), PodFor(w2), p)
            <==> || (exists c :: c in conns && HasSource(c) && p in PortsOf(c)
                                 && Inherits(w1, c.source.value) && Inherits(w2, c.target))
                 || (p == NetpolPort("UDP", dnsPort)
                     && exists c :: c in conns && HasSource(c) && PortsOf(c) != [] && Inherits(w1, c.source.value))
    ensures IngressAllowed(Synth(resources, conns, dnsPort), PodFor(w1), PodFor(w2), p)
            <==> exists c :: c in conns && p in PortsOf(c) && Inherits(w2, c.target)
                             && (c.link.exposeExternally || !HasSource(c) || Inherits(w1, c.source.value))
  {
    hide Synth, EgressAllowed, IngressAllowed, Sends, Receives, IsSender, Inherits, PortsOf, NamespacesKnown;
    PlainMeaning(resources, conns, dnsPort, PodFor(w1), PodFor(w2), p);
    forall c | c in conns
      ensures IsSender(NO_OWNERS, c, PodFor(w1))
              <==> HasSource(c) && PortsOf(c) != [] && Inherits(w1, c.source.value)
      ensures Sends(NO_OWNERS, c, PodFor(w1), PodFor(w2), p)
              <==> HasSource(c) && p in PortsOf(c) && Inherits(w1, c.source.value) && Inherits(w2, c.target)
      ensures Receives(NO_OWNERS, c, PodFor(w1), PodFor(w2), p)
              <==> && p in PortsOf(c) && Inherits(w2, c.target)
                   && (c.link.exposeExternally || !HasSource(c) || Inherits(w1, c.source.value))
    {
      InheritsFrom(c, w1, w2, p);
    }
  }

  /** The traffic of one connection is shared by exactly the workloads whose labels contain
      those of its two ends. */
  lemma {:induction false} WhoInherits(resources: seq<Resource>, c: Connection, dnsPort: IntOrString,
                                       w1: Resource, w2: Resource, p: NetpolPort)
    requires HasSource(c) && c.target.name != "" && p in PortsOf(c)
    requires NamesIdentify([c]) && NamespacesKnown(c)
    requires w1 in resources && w2 in resources
    requires c.link.exposeExternally ==> p != NetpolPort("UDP", dnsPort)
    ensures Allows(Synth(resources, [c], dnsPort), PodFor(w1), PodFor(w2), p)
            <==> Inherits(w1, c.source.value) && Inherits(w2, c.target)
  {
    hide Synth, EgressAllowed, IngressAllowed, Inherits, PortsOf;
    assert forall x :: x in [c] <==> x == c;
    TrafficIsInherited(resources, [c], dnsPort, w1, w2, p);
  }

  // ----- when nobody inherits -----

  /** No workload's labels are contained in another's of the same namespace. */
  ghost predicate Antichain(ws: seq<Resource>) {
    forall w, owner :: w in ws && owner in ws && Inherits(w, owner) ==> w.name == owner.name
  }

  /** Either all workloads have a namespace or all live in the default one. */
  predicate NamespacesAgree(ws: seq<Resource>) {
    forall w1, w2 :: w1 in ws && w2 in ws && w1.namespace == "" ==> w2.namespace == ""
  }

  /** The connections are between copies of these workloads. */
  ghost predicate Among(ws: seq<Resource>, conns: seq<Connection>) {
    forall r :: Mentioned(conns, r) ==> exists w :: w in ws && SameWorkload(w, r)
  }

  ghost predicate ExactFor(ws: seq<Resource>, conns: seq<Connection>, dnsPort: IntOrString) {
    forall w1, w2, p :: w1 in ws && w2 in ws ==>
      (Allows(Synth(ws, conns, dnsPort), PodFor(w1), PodFor(w2), p) <==> AskedFor(conns, dnsPort, w1, w2, p))
  }

  lemma AmongIsFit(ws: seq<Resource>, conns: seq<Connection>)
    requires Among(ws, conns) && WorkloadsIdentified(ws) && AllNamed(ws)
    ensures NamedTargets(conns) && NamesIdentify(conns)
    ensures NamespacesAgree(ws) ==> forall c :: c in conns ==> NamespacesKnown(c)
  {
    hide PortsOf;
    forall c | c in conns ensures c.target.name != "" && (NamespacesAgree(ws) ==> NamespacesKnown(c)) {
      assert IsEnd(c, c.target);
      assert c.source.Some? ==> IsEnd(c, c.source.value);
      assert Mentioned(conns, c.target) && (c.source.Some? ==> Mentioned(conns, c.source.value));
    }
  }

  /** In an antichain, a pod with its workload's labels belongs to no other workload. */
  lemma {:induction false} AntichainPods(ws: seq<Resource>, conns: seq<Connection>, w: Resource)
    requires Among(ws, conns) && WorkloadsIdentified(ws) && AllNamed(ws) && Antichain(ws) && w in ws
    ensures PodOf(conns, w, PodFor(w))
  {
    PodsInherit(w, w);
    forall r | Mentioned(conns, r)
      ensures r.name == w.name ==> SameWorkload(r, w)
      ensures Covers(r, PodFor(w)) ==> r.name == w.name
    {
      var owner :| owner in ws && SameWorkload(owner, r);
      PodsInherit(w, owner);
    }
  }

  /** Between the pods of any two analysed workloads of an antichain, exactly what the
      connections ask for is allowed. */
  lemma {:induction false} AntichainIsExact(ws: seq<Resource>, conns: seq<Connection>, dnsPort: IntOrString)
    requires WorkloadsIdentified(ws) && AllNamed(ws) && Antichain(ws) && NamespacesAgree(ws)
    requires Among(ws, conns)
    ensures ExactFor(ws, conns, dnsPort)
  {
    hide Allows, Synth, AskedFor, PodOf, Antichain, Among, NamespacesKnown;
    AmongIsFit(ws, conns);
    forall w1, w2, p | w1 in ws && w2 in ws
      ensures Allows(Synth(ws, conns, dnsPort), PodFor(w1), PodFor(w2), p) <==> AskedFor(conns, dnsPort, w1, w2, p)
    {
      AntichainPods(ws, conns, w1);
      AntichainPods(ws, conns, w2);
      SynthesisIsExact(ws, conns, dnsPort, w1, w2, PodFor(w1), PodFor(w2), p);
    }
  }

  // ----- and when someone does -----

  const PORT := SvcNetworkAttr("", 80, FromInt(0), "", false)
  const TCP_80 := NetpolPort("TCP", FromInt(80))

  /** `r1` uses port 80 of a Service in front of `r2`. */
  function LinkOf(r1: Resource, r2: Resource): Connection {
    Connection(Some(r1.(usedPorts := [PORT])), r2, Service("svc", r2.namespace, [], [PORT], false))
  }

  lemma LinkIsAmong(ws: seq<Resource>, r1: Resource, r2: Resource)
    requires r1 in ws && r2 in ws && r1.name != ""
    ensures HasSource(LinkOf(r1, r2)) && PortsOf(LinkOf(r1, r2)) == [TCP_80]
    ensures Among(ws, [LinkOf(r1, r2)])
  {
    var c := LinkOf(r1, r2);
    assert [PORT][..0] == [];
    assert ToNetpolPorts([], false) == [];
    forall r | Mentioned([c], r) ensures exists w :: w in ws && SameWorkload(w, r) {
      assert SameWorkload(r1, c.source.value) && SameWorkload(r2, c.target);
    }
  }

  /** If `w` inherits from `owner`, a connection from `owner` to `w` lets pods of `w` talk
      to each other. */
  lemma {:induction false} InheritanceIsInexact(ws: seq<Resource>, w: Resource, owner: Resource, dnsPort: IntOrString)
    requires WorkloadsIdentified(ws) && AllNamed(ws) && w in ws && owner in ws
    requires Inherits(w, owner) && w.name != owner.name
    ensures Among(ws, [LinkOf(owner, w)]) && !ExactFor(ws, [LinkOf(owner, w)], dnsPort)
  {
    var c := LinkOf(owner, w);
    LinkIsAmong(ws, owner, w);
    AmongIsFit(ws, [c]);
    assert NamespacesKnown(c) && NamesIdentify([c]);
    assert Inherits(w, c.target) && Inherits(w, c.source.value);
    WhoInherits(ws, c, dnsPort, w, w, TCP_80);
    assert !AskedFor([c], dnsPort, w, w, TCP_80);
  }

  lemma {:induction false} LinkRunsBetween(ws: seq<Resource>, w1: Resource, w2: Resource, dnsPort: IntOrString)
    requires w1 in ws && w2 in ws && w1.name != "" && w2.name != "" && NamesIdentify([LinkOf(w1, w2)])
    ensures Allows(Synth(ws, [LinkOf(w1, w2)], dnsPort), PodFor(w1), PodFor(w2), TCP_80)
            <==> w1.namespace == w2.namespace || (w1.namespace != "" && w2.namespace != "")
  {
    hide Synth, Allows, PortsOf;
    var c := LinkOf(w1, w2);
    LinkIsAmong(ws, w1, w2);
    PodsInherit(w1, w1);
    PodsInherit(w2, w2);
    LoneConnectionWorksExactly(ws, c, dnsPort, PodFor(w1), PodFor(w2), TCP_80);
  }

  /** A connection from a workload without a namespace to one with a namespace is blocked. */
  lemma {:induction false} MixedNamespacesAreInexact(ws: seq<Resource>, w1: Resource, w2: Resource,
                                                     dnsPort: IntOrString)
    requires WorkloadsIdentified(ws) && AllNamed(ws) && w1 in ws && w2 in ws
    requires w1.namespace == "" && w2.namespace != ""
    ensures Among(ws, [LinkOf(w1, w2)]) && !ExactFor(ws, [LinkOf(w1, w2)], dnsPort)
  {
    var c := LinkOf(w1, w2);
    LinkIsAmong(ws, w1, w2);
    AmongIsFit(ws, [c]);
    PodsInherit(w1, w1);
    PodsInherit(w2, w2);
    LinkRunsBetween(ws, w1, w2, dnsPort);
    assert [c][0] in [c] && Links(c, w1, w2);
    assert AskedFor([c], dnsPort, w1, w2, TCP_80);
  }

  // ----- two workloads of one name -----

  /** Both ends of a connection between namesakes belong to its source. */
  lemma {:induction false} NamesakesShareAnOwner(c: Connection)
    requires HasSource(c) && c.target.name == c.source.value.name
    ensures OwnerOf(Owners([c]), c.source.value) == c.source.value
    ensures OwnerOf(Owners([c]), c.target) == c.source.value
  {
    assert [c][..0] == [];
    assert Mentions([]) == [];
    assert Mentions([c]) == [c.source.value, c.target];
    OwnerIsFirstMention([c], c.source.value.name);
  }

  /** The flows that a connection between namesakes opens are those among pods of its source. */
  lemma {:induction false} NamesakesAreMerged(ws: seq<Resource>, w1: Resource, w2: Resource, dnsPort: IntOrString,
                                              s: Resource, d: Resource)
    requires w1 in ws && w2 in ws && w1.name == w2.name != "" && s in ws && d in ws
    ensures Allows(Synth(ws, [LinkOf(w1, w2)], dnsPort), PodFor(s), PodFor(d), TCP_80)
            <==> Inherits(s, w1) && Inherits(d, w1)
  {
    hide Synth, EgressAllowed, IngressAllowed, Owners, PortsOf, PeerFor, Inherits, Matches, PeerMatches;
    var c := LinkOf(w1, w2);
    LinkIsAmong(ws, w1, w2);
    NamesakesShareAnOwner(c);
    var owner := c.source.value;
    OnlyElement(c);
    SynthMeansTheConnections(ws, [c], dnsPort, PodFor(s), PodFor(d), TCP_80);
    assert Inherits(s, owner) == Inherits(s, w1) && Inherits(d, owner) == Inherits(d, w1) by {
      InheritsByLabels(s, owner, w1);
      InheritsByLabels(d, owner, w1);
    }
    PodsInherit(s, owner);
    PodsInherit(d, owner);
    PeerReachesOnly(owner, owner, PodFor(d));
    PeerReachesOnly(owner, owner, PodFor(s));
    assert TCP_80 in PortsOf(c) && TCP_80 != NetpolPort("UDP", dnsPort);
    assert Sends(Owners([c]), c, PodFor(s), PodFor(d), TCP_80) <==> Inherits(s, owner) && Inherits(d, owner);
    assert Receives(Owners([c]), c, PodFor(s), PodFor(d), TCP_80) <==> Inherits(s, owner) && Inherits(d, owner);
    assert Isolated(Owners([c]), ws, [c], PodFor(s)) && Isolated(Owners([c]), ws, [c], PodFor(d));
  }

  lemma OnlyElement(c: Connection)
    ensures forall x :: x in [c] <==> x == c
  {
  }

  lemma InheritsByLabels(w: Resource, owner1: Resource, owner2: Resource)
    requires SameWorkload(owner1, owner2)
    ensures Inherits(w, owner1) == Inherits(w, owner2)
  {
  }

  /** Workloads that inherit from each other have the same labels. */
  lemma MutualInheritance(w1: Resource, w2: Resource)
    requires Inherits(w1, w2) && Inherits(w2, w1) && w1.name == w2.name
    ensures SameWorkload(w1, w2)
  {
    assert w1.labels.Keys == w2.labels.Keys;
  }

  /** A connection between two different workloads of one name is either blocked, or opens the first to itself. */
  lemma {:induction false} NamesakesAreInexact(ws: seq<Resource>, w1: Resource, w2: Resource, dnsPort: IntOrString)
    requires w1 in ws && w2 in ws && w1.name == w2.name != "" && !SameWorkload(w1, w2)
    ensures Among(ws, [LinkOf(w1, w2)]) && !ExactFor(ws, [LinkOf(w1, w2)], dnsPort)
  {
    hide Allows, Synth, Inherits, PortsOf;
    var c := LinkOf(w1, w2);
    LinkIsAmong(ws, w1, w2);
    OnlyElement(c);
    InheritsItself(w1);
    if Inherits(w2, w1) {
      NamesakesAreMerged(ws, w1, w2, dnsPort, w1, w1);
      assert !AskedFor([c], dnsPort, w1, w1, TCP_80);
    } else {
      NamesakesAreMerged(ws, w1, w2, dnsPort, w1, w2);
      assert Links(c, w1, w2);
      assert AskedFor([c], dnsPort, w1, w2, TCP_80);
    }
  }

  lemma InheritsItself(w: Resource)
    ensures Inherits(w, w)
  {
  }

  /** The policies are exact for every list of connections among these workloads if and only
      if names identify them, no workload's labels are contained in another's, and the namespaces agree. */
  lemma {:induction false} ExactForAllListsExactly(ws: seq<Resource>, dnsPort: IntOrString)
    requires AllNamed(ws)
    ensures (forall conns :: Among(ws, conns) ==> ExactFor(ws, conns, dnsPort))
            <==> WorkloadsIdentified(ws) && Antichain(ws) && NamespacesAgree(ws)
  {
    hide ExactFor, Among, Inherits, SameWorkload;
    if w1, w2 :| w1 in ws && w2 in ws && w1.name == w2.name != "" && !SameWorkload(w1, w2) {
      NamesakesAreInexact(ws, w1, w2, dnsPort);
    } else if w, owner :| w in ws && owner in ws && Inherits(w, owner) && w.name != owner.name {
      InheritanceIsInexact(ws, w, owner, dnsPort);
    } else if w1, w2 :| w1 in ws && w2 in ws && w1.namespace == "" && w2.namespace != "" {
      MixedNamespacesAreInexact(ws, w1, w2, dnsPort);
    } else {
      forall conns | Among(ws, conns) ensures ExactFor(ws, conns, dnsPort) {
        AntichainIsExact(ws, conns, dnsPort);
      }
    }
  }

  // ----- when connections speak for themselves -----

  /** The policies mean what the connections say, each for its own ends. */
  ghost predicate Plain(ws: seq<Resource>, conns: seq<Connection>, dnsPort: IntOrString) {
    forall src, dst, p ::
      && (EgressAllowed(Synth(ws, conns, dnsPort), src, dst, p)
          <==> MayLeave(NO_OWNERS, ws, conns, dnsPort, src, dst, p))
      && (IngressAllowed(Synth(ws, conns, dnsPort), src, dst, p)
          <==> MayEnter(NO_OWNERS, ws, conns, src, dst, p))
  }

  /** The same connection, through a Service that is exposed externally. */
  function ExposedLinkOf(r1: Resource, r2: Resource): Connection {
    var c := LinkOf(r1, r2);
    c.(link := c.link.(exposeExternally := true))
  }

  lemma {:induction false} ExposedLinkIsAmong(ws: seq<Resource>, r1: Resource, r2: Resource)
    requires r1 in ws && r2 in ws && r1.name != ""
    ensures HasSource(ExposedLinkOf(r1, r2)) && PortsOf(ExposedLinkOf(r1, r2)) == [TCP_80]
    ensures Among(ws, [ExposedLinkOf(r1, r2)])
  {
    LinkIsAmong(ws, r1, r2);
    assert PortsOf(ExposedLinkOf(r1, r2)) == PortsOf(LinkOf(r1, r2));
    forall r | Mentioned([ExposedLinkOf(r1, r2)], r) ensures Mentioned([LinkOf(r1, r2)], r) {
      OnlyElement(ExposedLinkOf(r1, r2));
      assert [LinkOf(r1, r2)][0] == LinkOf(r1, r2);
      assert IsEnd(LinkOf(r1, r2), r);
    }
  }

  /** A pod of a workload that is not also one of its namesake's stays closed. */
  lemma {:induction false} NamesakeIsNotServed(ws: seq<Resource>, w1: Resource, w2: Resource, dnsPort: IntOrString)
    requires w1 in ws && w2 in ws && w1.name == w2.name != "" && !Inherits(w2, w1)
    ensures Among(ws, [ExposedLinkOf(w1, w2)]) && !Plain(ws, [ExposedLinkOf(w1, w2)], dnsPort)
  {
    hide Synth, EgressAllowed, IngressAllowed, Owners, PortsOf, PeerFor, PeerMatches, Matches, Inherits;
    var c := ExposedLinkOf(w1, w2);
    ExposedLinkIsAmong(ws, w1, w2);
    NamesakesShareAnOwner(c);
    OnlyElement(c);
    InheritsItself(w2);
    InheritsByLabels(w2, c.source.value, w1);
    PodsInherit(w2, c.source.value);
    PodsInherit(w2, w2);
    SynthMeansTheConnections(ws, [c], dnsPort, External, PodFor(w2), TCP_80);
    assert Receives(NO_OWNERS, c, External, PodFor(w2), TCP_80);
    assert MayEnter(NO_OWNERS, ws, [c], External, PodFor(w2), TCP_80);
  }

  /** Every connection among these workloads speaks for its own ends if and only if names identify them. */
  lemma {:induction false} PlainForAllListsExactly(ws: seq<Resource>, dnsPort: IntOrString)
    requires AllNamed(ws)
    ensures (forall conns :: Among(ws, conns) ==> Plain(ws, conns, dnsPort)) <==> WorkloadsIdentified(ws)
  {
    hide Among, Inherits, SameWorkload, Synth, EgressAllowed, IngressAllowed, MayLeave, MayEnter;
    if w1, w2 :| w1 in ws && w2 in ws && w1.name == w2.name != "" && !SameWorkload(w1, w2) {
      if !Inherits(w2, w1) {
        NamesakeIsNotServed(ws, w1, w2, dnsPort);
      } else {
        if Inherits(w1, w2) {
          MutualInheritance(w1, w2);
        }
        NamesakeIsNotServed(ws, w2, w1, dnsPort);
      }
    } else {
      forall conns | Among(ws, conns) ensures Plain(ws, conns, dnsPort) {
        AmongIsFit(ws, conns);
        forall src, dst, p
          ensures (EgressAllowed(Synth(ws, conns, dnsPort), src, dst, p)
                   <==> MayLeave(NO_OWNERS, ws, conns, dnsPort, src, dst, p))
          ensures (IngressAllowed(Synth(ws, conns, dnsPort), src, dst, p)
                   <==> MayEnter(NO_OWNERS, ws, conns, src, dst, p))
        {
          PlainMeaning(ws, conns, dnsPort, src, dst, p);
        }
      }
    }
  }
}
