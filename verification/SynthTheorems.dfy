/** Consequences of the compiler theorem, for workloads that their names identify. */
module SynthTheorems {
  import opened Model
  import opened Netpol
  import opened SynthSpec
  import opened SynthTable
  import opened SynthMeaning

  /** The table is keyed by name alone, so names must determine what policies depend on. */
  predicate SameWorkload(r1: Resource, r2: Resource) {
    r1.name == r2.name && r1.namespace == r2.namespace && r1.labels == r2.labels
  }

  ghost predicate NamesIdentify(conns: seq<Connection>) {
    forall r1, r2 :: Mentioned(conns, r1) && Mentioned(conns, r2) && r1.name == r2.name != ""
                     ==> SameWorkload(r1, r2)
  }

  predicate WorkloadsIdentified(resources: seq<Resource>) {
    forall r1, r2 :: r1 in resources && r2 in resources && r1.name == r2.name != "" ==> SameWorkload(r1, r2)
  }

  predicate AllNamed(resources: seq<Resource>) {
    forall r :: r in resources ==> r.name != ""
  }

  /** Every workload owns itself. */
  const NO_OWNERS: OwnerMap := map[]

  lemma OwnerIsSame(conns: seq<Connection>, r: Resource)
    requires NamesIdentify(conns) && Mentioned(conns, r)
    ensures SameWorkload(OwnerOf(Owners(conns), r), r)
  {
    OwnerIsFirstMention(conns, r.name);
    FirstNamedIsElement(Mentions(conns), r.name);
    if r.name != "" {
      MentionsElements(conns, r);
      MentionsElements(conns, OwnerOf(Owners(conns), r));
    }
  }

  lemma {:induction false} OwnersAreNeutral(conns: seq<Connection>, c: Connection)
    requires NamesIdentify(conns) && c in conns
    ensures HasSource(c) ==> EgressRuleOf(Owners(conns), c) == EgressRuleOf(NO_OWNERS, c)
    ensures IngressRuleOf(Owners(conns), c) == IngressRuleOf(NO_OWNERS, c)
    ensures forall src, dst, p :: Sends(Owners(conns), c, src, dst, p) <==> Sends(NO_OWNERS, c, src, dst, p)
    ensures forall src, dst, p :: Receives(Owners(conns), c, src, dst, p) <==> Receives(NO_OWNERS, c, src, dst, p)
    ensures forall src :: IsSender(Owners(conns), c, src) <==> IsSender(NO_OWNERS, c, src)
  {
    assert IsEnd(c, c.target);
    OwnerIsSame(conns, c.target);
    if c.source.Some? {
      assert IsEnd(c, c.source.value);
      OwnerIsSame(conns, c.source.value);
    }
  }

  lemma IsolationIsNeutral(resources: seq<Resource>, conns: seq<Connection>, e: Endpoint)
    requires NamesIdentify(conns)
    ensures Isolated(Owners(conns), resources, conns, e) <==> Isolated(NO_OWNERS, resources, conns, e)
  {
    forall r | Mentioned(conns, r)
      ensures Covers(OwnerOf(Owners(conns), r), e) <==> Covers(OwnerOf(NO_OWNERS, r), e)
    {
      OwnerIsSame(conns, r);
    }
  }

  /** The meaning of the emitted policies, read off the connections themselves. */
  lemma {:induction false} PlainMeaning(resources: seq<Resource>, conns: seq<Connection>, dnsPort: IntOrString,
                                        src: Endpoint, dst: Endpoint, p: NetpolPort)
    requires NamedTargets(conns) && NamesIdentify(conns)
    ensures EgressAllowed(Synth(resources, conns, dnsPort), src, dst, p)
            <==> MayLeave(NO_OWNERS, resources, conns, dnsPort, src, dst, p)
    ensures IngressAllowed(Synth(resources, conns, dnsPort), src, dst, p)
            <==> MayEnter(NO_OWNERS, resources, conns, src, dst, p)
  {
    SynthMeansTheConnections(resources, conns, dnsPort, src, dst, p);
    IsolationIsNeutral(resources, conns, src);
    IsolationIsNeutral(resources, conns, dst);
    forall c | c in conns
      ensures Sends(Owners(conns), c, src, dst, p) <==> Sends(NO_OWNERS, c, src, dst, p)
      ensures Receives(Owners(conns), c, src, dst, p) <==> Receives(NO_OWNERS, c, src, dst, p)
      ensures IsSender(Owners(conns), c, src) <==> IsSender(NO_OWNERS, c, src)
    {
      OwnersAreNeutral(conns, c);
    }
  }

  // ----- peers -----

  /** A peer finds the pods of a workload from namespace `n` exactly when the workload
      lives there or has a namespace to select. */
  lemma PeerReaches(netpolRes: Resource, otherRes: Resource, e: Endpoint)
    requires WellLabelled(e) && Covers(otherRes, e)
    ensures PeerMatches(netpolRes.namespace, PeerFor(netpolRes, otherRes), e)
            <==> netpolRes.namespace == otherRes.namespace || otherRes.namespace != ""
  {
  }

  /** When the namespaces can be told apart, a peer finds nothing else. */
  lemma PeerReachesOnly(netpolRes: Resource, otherRes: Resource, e: Endpoint)
    requires WellLabelled(e)
    requires netpolRes.namespace == otherRes.namespace || otherRes.namespace != ""
    ensures PeerMatches(netpolRes.namespace, PeerFor(netpolRes, otherRes), e) <==> Covers(otherRes, e)
  {
    if otherRes.namespace != netpolRes.namespace {
      var sel := map[NAMESPACE_LABEL := otherRes.namespace];
      assert PeerFor(netpolRes, otherRes).namespaceSelector == Some(sel);
      assert NAMESPACE_LABEL in sel;
    }
  }

  // ----- exactness -----

  /** `e` belongs to workload `w` and to no other workload of the connections. */
  ghost predicate PodOf(conns: seq<Connection>, w: Resource, e: Endpoint) {
    && WellLabelled(e) && Covers(w, e)
    && (forall r :: Mentioned(conns, r) && r.name == w.name ==> SameWorkload(r, w))
    && (forall r :: Mentioned(conns, r) && Covers(r, e) ==> r.name == w.name)
  }

  /** Both ends can name each other's namespace. */
  predicate NamespacesKnown(c: Connection) {
    HasSource(c) && PortsOf(c) != [] ==>
      || c.source.value.namespace == c.target.namespace
      || (c.source.value.namespace != "" && c.target.namespace != "")
  }

  predicate Links(c: Connection, s: Resource, d: Resource) {
    HasSource(c) && SameWorkload(c.source.value, s) && SameWorkload(c.target, d)
  }

  /** Connection `c` opens port `p` of workload `d` to workload `s`. */
  predicate Opens(c: Connection, s: Resource, d: Resource, p: NetpolPort) {
    && SameWorkload(c.target, d) && p in PortsOf(c)
    && (c.link.exposeExternally || !HasSource(c) || SameWorkload(c.source.value, s))
  }

  /** Some connection gives `ws` port `p` of `wd`; or it is the DNS port, some connection lets
      `ws` send at all, and one opens that port of `wd` to it. */
  predicate AskedFor(conns: seq<Connection>, dnsPort: IntOrString, ws: Resource, wd: Resource, p: NetpolPort) {
    || (exists c :: c in conns && Links(c, ws, wd) && p in PortsOf(c))
    || (&& p == NetpolPort("UDP", dnsPort)
        && (exists c :: c in conns && HasSource(c) && SameWorkload(c.source.value, ws) && PortsOf(c) != [])
        && (exists c :: c in conns && Opens(c, ws, wd, p)))
  }

  lemma SendsExactly(conns: seq<Connection>, c: Connection, ws: Resource, wd: Resource,
                     s: Endpoint, d: Endpoint, p: NetpolPort)
    requires c in conns && NamespacesKnown(c)
    requires PodOf(conns, ws, s) && PodOf(conns, wd, d)
    ensures Sends(NO_OWNERS, c, s, d, p) <==> Links(c, ws, wd) && p in PortsOf(c)
    ensures IsSender(NO_OWNERS, c, s) <==> HasSource(c) && SameWorkload(c.source.value, ws) && PortsOf(c) != []
  {
    assert IsEnd(c, c.target);
    assert c.source.Some? ==> IsEnd(c, c.source.value);
    if HasSource(c) && PortsOf(c) != [] {
      assert Covers(c.source.value, s) <==> SameWorkload(c.source.value, ws);
      assert Covers(c.target, d) <==> SameWorkload(c.target, wd);
      PeerReachesOnly(c.source.value, c.target, d);
    }
  }

  lemma ReceivesExactly(conns: seq<Connection>, c: Connection, ws: Resource, wd: Resource,
                        s: Endpoint, d: Endpoint, p: NetpolPort)
    requires c in conns && NamespacesKnown(c)
    requires PodOf(conns, ws, s) && PodOf(conns, wd, d)
    ensures Receives(NO_OWNERS, c, s, d, p) <==> Opens(c, ws, wd, p)
  {
    assert IsEnd(c, c.target);
    assert c.source.Some? ==> IsEnd(c, c.source.value);
    assert Covers(c.target, d) <==> SameWorkload(c.target, wd);
    if HasSource(c) && PortsOf(c) != [] {
      assert Covers(c.source.value, s) <==> SameWorkload(c.source.value, ws);
      PeerReachesOnly(c.target, c.source.value, s);
    }
  }

  lemma PodIsIsolated(resources: seq<Resource>, conns: seq<Connection>, w: Resource, e: Endpoint)
    requires w in resources && PodOf(conns, w, e)
    ensures Isolated(NO_OWNERS, resources, conns, e) && e.Pod?
  {
  }

  /** Between pods of analysed workloads the policies allow the discovered traffic and
      DNS, and nothing else. */
  lemma {:induction false} SynthesisIsExact(resources: seq<Resource>, conns: seq<Connection>, dnsPort: IntOrString,
                                            ws: Resource, wd: Resource, s: Endpoint, d: Endpoint, p: NetpolPort)
    requires NamedTargets(conns) && NamesIdentify(conns)
    requires forall c :: c in conns ==> NamespacesKnown(c)
    requires ws in resources && wd in resources
    requires PodOf(conns, ws, s) && PodOf(conns, wd, d)
    ensures Allows(Synth(resources, conns, dnsPort), s, d, p)
            <==> AskedFor(conns, dnsPort, ws, wd, p)
  {
    hide Synth, EgressAllowed, IngressAllowed, Sends, Receives, IsSender, PortsOf, NamespacesKnown, Isolated, PodOf;
    PodIsIsolated(resources, conns, ws, s);
    PodIsIsolated(resources, conns, wd, d);
    PlainMeaning(resources, conns, dnsPort, s, d, p);
    forall c | c in conns
      ensures Sends(NO_OWNERS, c, s, d, p) <==> Links(c, ws, wd) && p in PortsOf(c)
      ensures IsSender(NO_OWNERS, c, s) <==> HasSource(c) && SameWorkload(c.source.value, ws) && PortsOf(c) != []
      ensures Receives(NO_OWNERS, c, s, d, p) <==> Opens(c, ws, wd, p)
    {
      SendsExactly(conns, c, ws, wd, s, d, p);
      ReceivesExactly(conns, c, ws, wd, s, d, p);
    }
    assert forall c :: Links(c, ws, wd) && p in PortsOf(c) ==> Opens(c, ws, wd, p);
  }

  /** The rules of a single connection admit each other's pods exactly under these conditions. */
  lemma ConnectionIsHonoured(c: Connection, s: Endpoint, d: Endpoint, p: NetpolPort)
    requires HasSource(c) && p in PortsOf(c)
    requires WellLabelled(s) && WellLabelled(d) && Covers(c.source.value, s) && Covers(c.target, d)
    ensures Sends(NO_OWNERS, c, s, d, p)
            <==> c.source.value.namespace == c.target.namespace || c.target.namespace != ""
    ensures Receives(NO_OWNERS, c, s, d, p)
            <==> || c.link.exposeExternally || c.source.value.namespace == c.target.namespace
                 || c.source.value.namespace != ""
  {
    PeerReaches(c.source.value, c.target, d);
    PeerReaches(c.target, c.source.value, s);
  }

  /** Whatever pods the two ends of a connection select, the flow between them is allowed. */
  lemma {:induction false} ConnectedIsAllowed(resources: seq<Resource>, conns: seq<Connection>, dnsPort: IntOrString,
                                              c: Connection, s: Endpoint, d: Endpoint, p: NetpolPort)
    requires NamedTargets(conns) && NamesIdentify(conns)
    requires c in conns && HasSource(c) && p in PortsOf(c) && NamespacesKnown(c)
    requires WellLabelled(s) && WellLabelled(d) && Covers(c.source.value, s) && Covers(c.target, d)
    ensures Allows(Synth(resources, conns, dnsPort), s, d, p)
  {
    PlainMeaning(resources, conns, dnsPort, s, d, p);
    ConnectionIsHonoured(c, s, d, p);
  }

  /** With a single connection, the flow it describes is allowed exactly when each policy
      can name the namespace of the other end. */
  lemma {:induction false} LoneConnectionWorksExactly(resources: seq<Resource>, c: Connection, dnsPort: IntOrString,
                                                      s: Endpoint, d: Endpoint, p: NetpolPort)
    requires HasSource(c) && p in PortsOf(c) && c.target.name != "" && NamesIdentify([c])
    requires WellLabelled(s) && WellLabelled(d) && Covers(c.source.value, s) && Covers(c.target, d)
    ensures Allows(Synth(resources, [c], dnsPort), s, d, p)
            <==> && (|| c.source.value.namespace == c.target.namespace || c.target.namespace != ""
                     || p == NetpolPort("UDP", dnsPort))
                 && (|| c.source.value.namespace == c.target.namespace || c.source.value.namespace != ""
                     || c.link.exposeExternally)
  {
    hide Synth, EgressAllowed, IngressAllowed, Sends, Receives, PortsOf;
    PlainMeaning(resources, [c], dnsPort, s, d, p);
    ConnectionIsHonoured(c, s, d, p);
    assert [c][0] in [c] && IsEnd(c, c.source.value) && IsEnd(c, c.target);
    assert Mentioned([c], c.source.value) && Mentioned([c], c.target);
  }

  // ----- comparing lists of connections -----

  /** `c2` describes at least the traffic of `c1`. */
  ghost predicate Includes(c2: Connection, c1: Connection) {
    && HasSource(c1) == HasSource(c2)
    && (HasSource(c1) ==> SameWorkload(c1.source.value, c2.source.value))
    && SameWorkload(c1.target, c2.target)
    && c1.link.exposeExternally == c2.link.exposeExternally
    && (forall p :: p in PortsOf(c1) ==> p in PortsOf(c2))
  }

  ghost predicate IncludesAll(conns2: seq<Connection>, conns1: seq<Connection>) {
    forall c1 :: c1 in conns1 ==> exists c2 :: c2 in conns2 && Includes(c2, c1)
  }

  ghost predicate AllAnalysed(resources: seq<Resource>, conns: seq<Connection>) {
    forall r :: Mentioned(conns, r) ==> exists w :: w in resources && w.namespace == r.namespace
  }

  lemma IsolatedWhenAnalysed(resources: seq<Resource>, conns: seq<Connection>, e: Endpoint)
    requires AllAnalysed(resources, conns)
    ensures Isolated(NO_OWNERS, resources, conns, e)
            <==> exists r :: r in resources && e.Pod? && r.namespace == e.namespace
  {
    if r :| Mentioned(conns, r) && r.name != "" && Covers(OwnerOf(NO_OWNERS, r), e) {
      var w :| w in resources && w.namespace == r.namespace;
    }
  }

  lemma IncludedTraffic(c1: Connection, c2: Connection, src: Endpoint, dst: Endpoint, p: NetpolPort)
    requires Includes(c2, c1)
    ensures IsSender(NO_OWNERS, c1, src) ==> IsSender(NO_OWNERS, c2, src)
    ensures Sends(NO_OWNERS, c1, src, dst, p) ==> Sends(NO_OWNERS, c2, src, dst, p)
    ensures Receives(NO_OWNERS, c1, src, dst, p) ==> Receives(NO_OWNERS, c2, src, dst, p)
  {
    assert PortsOf(c1) != [] ==> PortsOf(c1)[0] in PortsOf(c2);
  }

  lemma IncludedInSome(conns1: seq<Connection>, conns2: seq<Connection>, c1: Connection,
                       src: Endpoint, dst: Endpoint, p: NetpolPort) returns (c2: Connection)
    requires c1 in conns1 && IncludesAll(conns2, conns1)
    ensures c2 in conns2
    ensures IsSender(NO_OWNERS, c1, src) ==> IsSender(NO_OWNERS, c2, src)
    ensures Sends(NO_OWNERS, c1, src, dst, p) ==> Sends(NO_OWNERS, c2, src, dst, p)
    ensures Receives(NO_OWNERS, c1, src, dst, p) ==> Receives(NO_OWNERS, c2, src, dst, p)
  {
    c2 :| c2 in conns2 && Includes(c2, c1);
    IncludedTraffic(c1, c2, src, dst, p);
  }

  ghost predicate CoversNamespaces(resources1: seq<Resource>, resources2: seq<Resource>) {
    forall r2 :: r2 in resources2 ==> exists r1 :: r1 in resources1 && r1.namespace == r2.namespace
  }

  lemma IsolatedBefore(resources1: seq<Resource>, conns1: seq<Connection>,
                       resources2: seq<Resource>, conns2: seq<Connection>, e: Endpoint)
    requires AllAnalysed(resources2, conns2) && CoversNamespaces(resources1, resources2)
    requires Isolated(NO_OWNERS, resources2, conns2, e)
    ensures Isolated(NO_OWNERS, resources1, conns1, e)
  {
    IsolatedWhenAnalysed(resources2, conns2, e);
    var r2 :| r2 in resources2 && e.Pod? && r2.namespace == e.namespace;
    var r1 :| r1 in resources1 && r1.namespace == r2.namespace;
  }

  /** Monotonicity: describing more traffic between analysed workloads never takes a flow away. */
  lemma {:induction false} MoreConnectionsAllowMore(resources1: seq<Resource>, conns1: seq<Connection>,
                                                    resources2: seq<Resource>, conns2: seq<Connection>,
                                                    dnsPort: IntOrString, src: Endpoint, dst: Endpoint, p: NetpolPort)
    requires NamedTargets(conns1) && NamesIdentify(conns1)
    requires NamedTargets(conns2) && NamesIdentify(conns2)
    requires AllAnalysed(resources2, conns2) && CoversNamespaces(resources1, resources2)
    requires IncludesAll(conns2, conns1)
    ensures Allows(Synth(resources1, conns1, dnsPort), src, dst, p)
            ==> Allows(Synth(resources2, conns2, dnsPort), src, dst, p)
  {
    hide Synth, EgressAllowed, IngressAllowed, IncludesAll, Sends, IsSender, Receives, Isolated;
    hide NamesIdentify, AllAnalysed, CoversNamespaces;
    PlainMeaning(resources1, conns1, dnsPort, src, dst, p);
    PlainMeaning(resources2, conns2, dnsPort, src, dst, p);
    if Isolated(NO_OWNERS, resources2, conns2, src) {
      IsolatedBefore(resources1, conns1, resources2, conns2, src);
    }
    if Isolated(NO_OWNERS, resources2, conns2, dst) {
      IsolatedBefore(resources1, conns1, resources2, conns2, dst);
    }
    if c1 :| c1 in conns1 && IsSender(NO_OWNERS, c1, src) {
      var c2 := IncludedInSome(conns1, conns2, c1, src, dst, p);
    }
    if c1 :| c1 in conns1 && Sends(NO_OWNERS, c1, src, dst, p) {
      var c2 := IncludedInSome(conns1, conns2, c1, src, dst, p);
    }
    if c1 :| c1 in conns1 && Receives(NO_OWNERS, c1, src, dst, p) {
      var c2 := IncludedInSome(conns1, conns2, c1, src, dst, p);
    }
  }
}
