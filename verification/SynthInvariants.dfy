/** What every table and every emitted policy list satisfies. */
module SynthInvariants {
  import opened Model
  import opened Netpol
  import opened Sequences
  import opened Ordering
  import opened SynthSpec
  import opened SynthTable
  import opened SynthMeaning

  // ----- the mirror invariant -----

  /** Every egress rule is answered, with the same ports, by an ingress rule of the entry
      that its peer selects. Holds after every prefix of the connections, since `conns` is any list. */
  lemma EgressIsMirrored(conns: seq<Connection>, s: string, rule: Rule) returns (d: string)
    requires NamedTargets(conns)
    requires s in TableOf(conns) && rule in TableOf(conns)[s].egress
    ensures d in TableOf(conns)
    ensures var t := TableOf(conns);
            && rule.peers == [PeerFor(t[s].resource, t[d].resource)]
            && (|| Rule([], rule.ports) in t[d].ingress
                || Rule([PeerFor(t[d].resource, t[s].resource)], rule.ports) in t[d].ingress)
  {
    hide TableOf, Owners, PeerFor;
    var owners := Owners(conns);
    TableDescribes(conns, s);
    var c :| c in conns && rule in EgressOffer(owners, c, s);
    d := c.target.name;
    assert IsEnd(c, c.target);
    EntryOf(conns, c.target);
    TableDescribes(conns, d);
    assert IngressRuleOf(owners, c) in IngressOffer(owners, c, d);
  }

  /** Every ingress rule that names a workload is answered by that workload's egress rule. */
  lemma IngressIsMirrored(conns: seq<Connection>, d: string, rule: Rule, peer: Peer) returns (s: string)
    requires d in TableOf(conns) && rule in TableOf(conns)[d].ingress
    requires peer in rule.peers && peer.podSelector.Some?
    ensures s in TableOf(conns)
    ensures var t := TableOf(conns);
            && rule.peers == [PeerFor(t[d].resource, t[s].resource)]
            && Rule([PeerFor(t[s].resource, t[d].resource)], rule.ports) in t[s].egress
  {
    hide TableOf, Owners, PeerFor, PortsOf;
    var owners := Owners(conns);
    TableDescribes(conns, d);
    var c :| c in conns && rule in IngressOffer(owners, c, d);
    s := c.source.value.name;
    assert IsEnd(c, c.source.value);
    EntryOf(conns, c.source.value);
    TableDescribes(conns, s);
    assert EgressRuleOf(owners, c) in EgressOffer(owners, c, s);
  }

  // ----- one entry per workload -----

  /** Whatever order the map was ranged over, there is one entry per name that occurs in a
      connection, with or without ports; it stands for the first workload of that name,
      and entries are listed in strictly increasing order of names. */
  lemma {:induction false} OneEntryPerName(conns: seq<Connection>, name: string)
    ensures var es := Listing(TableOf(conns));
            && (forall i, j :: 0 <= i < j < |es| ==> Less(es[i].resource.name, es[j].resource.name))
            && ((exists e :: e in es && e.resource.name == name)
                <==> name != "" && exists r :: Mentioned(conns, r) && r.name == name)
            && (forall e :: e in es && e.resource.name == name ==>
                  Some(e.resource) == FirstNamed(Mentions(conns), name))
  {
    var t, es, names := TableOf(conns), Listing(TableOf(conns)), Sorted(TableOf(conns).Keys);
    SortedListsTheNames(t.Keys);
    OwnerIsFirstMention(conns, name);
    assert forall i :: 0 <= i < |names| ==> names[i] in t.Keys && es[i].resource.name == names[i];
    if r :| Mentioned(conns, r) && r.name == name && name != "" {
      EntryOf(conns, r);
      ListingElements(t, t[name]);
    }
    forall e | e in es && e.resource.name == name
      ensures name in t && e == t[name] && name != "" && exists r :: Mentioned(conns, r) && r.name == name
    {
      ListingElements(t, e);
      var r := EntryIsMentioned(conns, name);
    }
  }

  // ----- the DNS rule -----

  lemma {:induction false} OfferedRulesAreNotDns(conns: seq<Connection>, n: string, dnsPort: IntOrString)
    requires n in TableOf(conns)
    ensures DnsRule(dnsPort) !in TableOf(conns)[n].egress
  {
    var owners := Owners(conns);
    EntryRules(conns, n, DnsRule(dnsPort));
    forall c | c in conns ensures DnsRule(dnsPort) !in EgressOffer(owners, c, n) {
      if HasSource(c) {
        var peer := EgressRuleOf(owners, c).peers[0];
        assert peer.podSelector.Some? && DnsRule(dnsPort).peers[0].podSelector.None?;
      }
    }
  }

  /** The DNS rule comes last, once, exactly when there is another egress rule; and adding
      it a second time to the same entries changes nothing. */
  lemma {:induction false} DnsRuleIsAddedOnce(conns: seq<Connection>, n: string, dnsPort: IntOrString)
    requires n in TableOf(conns)
    ensures var egress := TableOf(conns)[n].egress;
            && WithDns(egress, dnsPort) == egress + (if egress == [] then [] else [DnsRule(dnsPort)])
            && multiset(WithDns(egress, dnsPort))[DnsRule(dnsPort)] == (if egress == [] then 0 else 1)
            && WithDns(WithDns(egress, dnsPort), dnsPort) == WithDns(egress, dnsPort)
  {
    OfferedRulesAreNotDns(conns, n, dnsPort);
    var egress := TableOf(conns)[n].egress;
    assert multiset(egress)[DnsRule(dnsPort)] == 0;
  }

  // ----- isolation -----

  /** A policy without rules that selects every pod of a namespace and isolates it both ways. */
  predicate DeniesAll(pol: Policy, namespace: string) {
    && pol.namespace == namespace && pol.podSelector == map[] && pol.ingress == [] && pol.egress == []
    && pol.policyTypes == [Ingress, Egress]
    && (namespace == "" ==> pol.name == "default-deny-in-namespace")
    && (namespace != "" ==> pol.name == "default-deny-in-namespace-" + namespace)
  }

  lemma DenyPolicyAt(resources: seq<Resource>, i: nat)
    requires i < |DenyPolicies(resources)|
    ensures var namespaces := Dedup(NamespacesOf(resources));
            && i < |namespaces| && DenyPolicies(resources)[i] == DenyPolicy(namespaces[i])
            && DenyPolicies(resources)[i].namespace == namespaces[i]
            && DenyPolicies(resources)[i].name == DenyName(namespaces[i])
  {
  }

  /** One default-deny policy per namespace of a workload, all named apart. */
  lemma {:induction false} DenyPoliciesAreOnePerNamespace(resources: seq<Resource>)
    ensures forall pol :: pol in DenyPolicies(resources) ==> DeniesAll(pol, pol.namespace)
    ensures forall pol :: pol in DenyPolicies(resources) ==> exists r :: r in resources && r.namespace == pol.namespace
    ensures forall r :: r in resources ==>
              exists pol :: pol in DenyPolicies(resources) && pol.namespace == r.namespace
    ensures forall i, j :: 0 <= i < j < |DenyPolicies(resources)| ==>
              DenyPolicies(resources)[i].name != DenyPolicies(resources)[j].name
  {
    hide DeniesAll, DenyPolicies, DenyName;
    forall pol | pol in DenyPolicies(resources)
      ensures DeniesAll(pol, pol.namespace) && exists r :: r in resources && r.namespace == pol.namespace
    {
      DenyElements(resources, pol);
      var r :| r in resources && pol == DenyPolicy(r.namespace);
      DenyPolicyDenies(r.namespace);
    }
    forall r | r in resources ensures exists pol :: pol in DenyPolicies(resources) && pol.namespace == r.namespace {
      DenyElements(resources, DenyPolicy(r.namespace));
    }
    DedupElements(NamespacesOf(resources));
    forall i, j | 0 <= i < j < |DenyPolicies(resources)|
      ensures DenyPolicies(resources)[i].name != DenyPolicies(resources)[j].name
    {
      DenyPolicyAt(resources, i);
      DenyPolicyAt(resources, j);
      DenyNamesDiffer(Dedup(NamespacesOf(resources))[i], Dedup(NamespacesOf(resources))[j]);
    }
  }

  /** Their order is that in which the namespaces first occur among the workloads. */
  lemma {:induction false} DenyPoliciesInOrder(resources: seq<Resource>, i: nat, j: nat)
    returns (first1: nat, first2: nat)
    requires i < j < |DenyPolicies(resources)|
    ensures first1 < first2 < |resources|
    ensures resources[first1].namespace == DenyPolicies(resources)[i].namespace
    ensures resources[first2].namespace == DenyPolicies(resources)[j].namespace
    ensures forall k :: 0 <= k < first1 ==> resources[k].namespace != DenyPolicies(resources)[i].namespace
    ensures forall k :: 0 <= k < first2 ==> resources[k].namespace != DenyPolicies(resources)[j].namespace
  {
    var all := NamespacesOf(resources);
    DenyPolicyAt(resources, i);
    DenyPolicyAt(resources, j);
    hide DenyPolicies, Dedup, DenyPolicy;
    DedupKeepsOrder(all, i, j);
    first1, first2 := FirstIndex(all, Dedup(all)[i]), FirstIndex(all, Dedup(all)[j]);
    assert forall k :: 0 <= k < first1 ==> all[..first1][k] == resources[k].namespace;
    assert forall k :: 0 <= k < first2 ==> all[..first2][k] == resources[k].namespace;
  }

  lemma DenyPolicyDenies(namespace: string)
    ensures DeniesAll(DenyPolicy(namespace), namespace)
    ensures DenyPolicy(namespace).name == DenyName(namespace) && DenyPolicy(namespace).namespace == namespace
  {
    assert "default-deny-in-namespace" + ("-" + namespace) == "default-deny-in-namespace-" + namespace;
  }

  /** The emitted list: first the policies of the connected workloads, in increasing order of names,
      each with its workload's identity and selector; then the default-deny policies. */
  lemma {:induction false} EmittedInOrder(resources: seq<Resource>, conns: seq<Connection>, dnsPort: IntOrString)
    ensures var policies, es := Synth(resources, conns, dnsPort), Listing(TableOf(conns));
            && |policies| >= |es| && policies[|es|..] == DenyPolicies(resources)
            && (forall i, j :: 0 <= i < j < |es| ==> Less(es[i].resource.name, es[j].resource.name))
            && (forall i :: 0 <= i < |es| ==>
                  && policies[i].name == es[i].resource.name + "-netpol"
                  && policies[i].namespace == es[i].resource.namespace
                  && policies[i].podSelector == es[i].resource.labels
                  && policies[i].policyTypes == [Ingress, Egress]
                  && policies[i].ingress == es[i].ingress
                  && policies[i].egress == WithDns(es[i].egress, dnsPort))
  {
    hide Sorted, WithDns;
    OneEntryPerName(conns, "");
  }

  /** The namespace that a default-deny policy's name spells out. */
  function NamespaceInDenyName(name: string): string {
    if |name| <= |"default-deny-in-namespace-"| then "" else name[|"default-deny-in-namespace-"|..]
  }

  lemma DenyNamesDiffer(n1: string, n2: string)
    requires n1 != n2
    ensures DenyName(n1) != DenyName(n2)
  {
    assert NamespaceInDenyName(DenyName(n1)) == n1;
    assert NamespaceInDenyName(DenyName(n2)) == n2;
  }

  /** Every pod in an analysed namespace is isolated both ways. A flow into it, or out of it,
      is owed to a connection whose target, or source, is a workload that selects the pod. */
  lemma NothingElseIsAllowed(resources: seq<Resource>, conns: seq<Connection>, dnsPort: IntOrString,
                             w: Resource, src: Endpoint, dst: Endpoint, p: NetpolPort)
    requires NamedTargets(conns) && w in resources
    ensures var policies := Synth(resources, conns, dnsPort);
            && (dst.Pod? && dst.namespace == w.namespace ==>
                  && IsolatedFor(Ingress, policies, dst) && IsolatedFor(Egress, policies, dst)
                  && (IngressAllowed(policies, src, dst, p)
                      <==> exists c :: c in conns && Receives(Owners(conns), c, src, dst, p)))
            && (src.Pod? && src.namespace == w.namespace ==>
                  (EgressAllowed(policies, src, dst, p)
                   <==> || (exists c :: c in conns && Sends(Owners(conns), c, src, dst, p))
                        || (p == NetpolPort("UDP", dnsPort) && dst.Pod?
                            && exists c :: c in conns && IsSender(Owners(conns), c, src))))
  {
    SynthMeansTheConnections(resources, conns, dnsPort, src, dst, p);
    IsolationMeaning(resources, conns, dnsPort, dst, Ingress);
    IsolationMeaning(resources, conns, dnsPort, dst, Egress);
  }

  /** No analysed pod may leave the cluster, and only externally exposed links may be entered from outside. */
  lemma {:induction false} OutsideTraffic(resources: seq<Resource>, conns: seq<Connection>, dnsPort: IntOrString,
                                          w: Resource, e: Endpoint, p: NetpolPort)
    requires NamedTargets(conns) && w in resources && e.Pod? && e.namespace == w.namespace
    ensures !Allows(Synth(resources, conns, dnsPort), e, External, p)
    ensures Allows(Synth(resources, conns, dnsPort), External, e, p)
            <==> exists c :: c in conns && c.link.exposeExternally && p in PortsOf(c)
                             && Covers(OwnerOf(Owners(conns), c.target), e)
  {
    SynthMeansTheConnections(resources, conns, dnsPort, e, External, p);
    SynthMeansTheConnections(resources, conns, dnsPort, External, e, p);
    if c :| c in conns && c.link.exposeExternally && p in PortsOf(c) && Covers(OwnerOf(Owners(conns), c.target), e) {
      assert Receives(Owners(conns), c, External, e, p);
    }
  }

  /** A workload that occurs in no connection is cut off, unless another one's selector covers its pod. */
  lemma {:induction false} UnconnectedIsCutOff(resources: seq<Resource>, conns: seq<Connection>, dnsPort: IntOrString,
                                               w: Resource, e: Endpoint, other: Endpoint, p: NetpolPort)
    requires NamedTargets(conns) && w in resources && Covers(w, e)
    requires forall r :: Mentioned(conns, r) ==> !Covers(OwnerOf(Owners(conns), r), e)
    ensures !Allows(Synth(resources, conns, dnsPort), e, other, p)
    ensures !Allows(Synth(resources, conns, dnsPort), other, e, p)
  {
    SynthMeansTheConnections(resources, conns, dnsPort, e, other, p);
    SynthMeansTheConnections(resources, conns, dnsPort, other, e, p);
    forall c | c in conns
      ensures !IsSender(Owners(conns), c, e) && !Receives(Owners(conns), c, other, e, p)
    {
      assert IsEnd(c, c.target);
      assert c.source.Some? ==> IsEnd(c, c.source.value);
    }
  }

  // ----- policy identities -----

  /** A workload whose policy would be called like the default-deny policy of its namespace. */
  predicate Collides(w: Resource) {
    var suffix := "-" + w.namespace;
    && |suffix| >= |"-netpol"| && suffix[|suffix| - |"-netpol"|..] == "-netpol"
    && w.name == "default-deny-in-namespace" + suffix[..|suffix| - |"-netpol"|]
  }

  lemma ShortNamespaceNeverCollides(w: Resource)
    requires |w.namespace| < 6
    ensures w.name + "-netpol" != DenyName(w.namespace) && !Collides(w)
  {
    var deny, base := DenyName(w.namespace), "default-deny-in-namespace";
    var k := |deny| - |"-netpol"|;
    assert 18 <= k < |base| && deny[k] == base[k] && base[k] != '-';
    var mine := w.name + "-netpol";
    assert mine[|mine| - |"-netpol"|] == '-';
  }

  lemma EndsWithNetpol(name: string, base: string, suffix: string)
    requires |suffix| >= |"-netpol"|
    ensures name + "-netpol" == base + suffix
            <==> suffix[|suffix| - 7..] == "-netpol" && name == base + suffix[..|suffix| - 7]
  {
    var cut := |suffix| - 7;
    assert suffix == suffix[..cut] + suffix[cut..];
    if name + "-netpol" == base + suffix {
      assert (base + suffix)[|base| + cut..] == suffix[cut..];
      assert (base + suffix)[..|base| + cut] == base + suffix[..cut];
      assert (name + "-netpol")[|name|..] == "-netpol" && (name + "-netpol")[..|name|] == name;
    }
  }

  lemma CollisionIsTextual(w: Resource)
    ensures w.name + "-netpol" == DenyName(w.namespace) <==> Collides(w)
  {
    if |w.namespace| < 6 {
      ShortNamespaceNeverCollides(w);
    } else {
      EndsWithNetpol(w.name, "default-deny-in-namespace", "-" + w.namespace);
    }
  }

  ghost predicate NamedApart(policies: seq<Policy>) {
    forall i, j :: 0 <= i < j < |policies| ==>
      policies[i].name != policies[j].name || policies[i].namespace != policies[j].namespace
  }

  lemma WorkloadPoliciesNamedApart(t: Table, dnsPort: IntOrString)
    requires forall n :: n in t ==> t[n].resource.name == n
    ensures var policies := PoliciesOf(Listing(t), dnsPort);
            forall i, j :: 0 <= i < j < |policies| ==> policies[i].name != policies[j].name
  {
    var policies, names := PoliciesOf(Listing(t), dnsPort), Sorted(t.Keys);
    SortedListsTheNames(t.Keys);
    forall i, j | 0 <= i < j < |policies| ensures policies[i].name != policies[j].name {
      assert names[i] in t.Keys && names[j] in t.Keys;
      assert policies[i].name == names[i] + "-netpol" && policies[j].name == names[j] + "-netpol";
      assert (names[i] + "-netpol")[..|names[i]|] == names[i];
      LessAsymmetric(names[i], names[j]);
      assert Less(names[i], names[j]);
    }
  }

  lemma NamedApartConcat(a: seq<Policy>, b: seq<Policy>)
    requires forall i, j :: 0 <= i < j < |a| ==> a[i].name != a[j].name
    requires forall i, j :: 0 <= i < j < |b| ==> b[i].name != b[j].name
    ensures NamedApart(a + b)
            <==> !exists i, j :: 0 <= i < |a| && 0 <= j < |b|
                                 && a[i].name == b[j].name && a[i].namespace == b[j].namespace
  {
    if NamedApart(a + b) {
      forall i, j | 0 <= i < |a| && 0 <= j < |b|
        ensures a[i].name != b[j].name || a[i].namespace != b[j].namespace
      {
        assert (a + b)[i] == a[i] && (a + b)[|a| + j] == b[j];
      }
    }
  }

  ghost predicate EntryCollides(resources: seq<Resource>, t: Table) {
    exists n, r :: n in t && r in resources && r.namespace == t[n].resource.namespace && Collides(t[n].resource)
  }

  /** The first workload mentioned under some name is called after the default-deny policy of its
      namespace, which is analysed. */
  ghost predicate SomeCollision(resources: seq<Resource>, conns: seq<Connection>) {
    exists n, r :: n != "" && r in resources &&
                   var first := FirstNamed(Mentions(conns), n);
                   first.Some? && first.value.namespace == r.namespace && Collides(first.value)
  }

  lemma {:induction false} CollisionsAreFirstMentions(resources: seq<Resource>, conns: seq<Connection>)
    ensures EntryCollides(resources, TableOf(conns)) <==> SomeCollision(resources, conns)
  {
    hide TableOf, Collides, Mentions;
    var t := TableOf(conns);
    if n, r :| n in t && r in resources && r.namespace == t[n].resource.namespace && Collides(t[n].resource) {
      OwnerIsFirstMention(conns, n);
    }
    if n, r :| n != "" && r in resources && FirstNamed(Mentions(conns), n).Some?
               && FirstNamed(Mentions(conns), n).value.namespace == r.namespace
               && Collides(FirstNamed(Mentions(conns), n).value) {
      OwnerIsFirstMention(conns, n);
      assert n in t && t[n].resource == FirstNamed(Mentions(conns), n).value;
    }
  }

  lemma TableIsNamedApart(resources: seq<Resource>, t: Table, dnsPort: IntOrString)
    requires forall n :: n in t ==> t[n].resource.name == n
    ensures NamedApart(PoliciesFor(resources, t, dnsPort))
            <==> !EntryCollides(resources, t)
  {
    WorkloadPoliciesNamedApart(t, dnsPort);
    DenyPoliciesAreOnePerNamespace(resources);
    ClashMeansCollision(resources, t, dnsPort);
    NamedApartConcat(PoliciesOf(Listing(t), dnsPort), DenyPolicies(resources));
  }

  /** No two emitted policies share a namespace and a name, which would make one overwrite
      the other in a cluster, exactly when no analysed workload is called after its
      namespace's default-deny policy. */
  lemma PoliciesAreNamedApart(resources: seq<Resource>, conns: seq<Connection>, dnsPort: IntOrString)
    ensures NamedApart(Synth(resources, conns, dnsPort))
            <==> !SomeCollision(resources, conns)
  {
    CollisionsAreFirstMentions(resources, conns);
    OwnerIsFirstMention(conns, "");
    TableIsNamedApart(resources, TableOf(conns), dnsPort);
  }

  lemma ClashMeansCollision(resources: seq<Resource>, t: Table, dnsPort: IntOrString)
    ensures var mine, deny := PoliciesOf(Listing(t), dnsPort), DenyPolicies(resources);
            (exists i, j :: 0 <= i < |mine| && 0 <= j < |deny|
                            && mine[i].name == deny[j].name && mine[i].namespace == deny[j].namespace)
            <==> EntryCollides(resources, t)
  {
    hide Collides, DenyName, Listing, DenyPolicies, WithDns;
    var mine, deny := PoliciesOf(Listing(t), dnsPort), DenyPolicies(resources);
    if i, j :| 0 <= i < |mine| && 0 <= j < |deny|
               && mine[i].name == deny[j].name && mine[i].namespace == deny[j].namespace {
      var e := Listing(t)[i];
      ListingElements(t, e);
      var n :| n in t && e == t[n];
      assert deny[j] in deny;
      DenyElements(resources, deny[j]);
      CollisionIsTextual(t[n].resource);
    }
    if n, r :| n in t && r in resources && r.namespace == t[n].resource.namespace && Collides(t[n].resource) {
      ListingElements(t, t[n]);
      var i :| 0 <= i < |Listing(t)| && Listing(t)[i] == t[n];
      DenyElements(resources, DenyPolicy(r.namespace));
      var j :| 0 <= j < |deny| && deny[j] == DenyPolicy(r.namespace);
      CollisionIsTextual(t[n].resource);
      assert mine[i].name == deny[j].name;
    }
  }
}
