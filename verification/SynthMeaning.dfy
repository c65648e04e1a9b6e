/** The compiler theorem: the emitted policies allow exactly the traffic that the
    connections describe. */
module SynthMeaning {
  import opened Model
  import opened Netpol
  import opened Sequences
  import opened Ordering
  import opened SynthSpec
  import opened SynthTable

  // ----- the meaning of a list of connections, without any policy -----

  /** `e` is a pod of `w`, as far as namespace and labels can tell. */
  ghost predicate Covers(w: Resource, e: Endpoint) {
    e.Pod? && e.namespace == w.namespace && Matches(w.labels, e.labels)
  }

  ghost predicate Isolated(owners: OwnerMap, resources: seq<Resource>, conns: seq<Connection>, e: Endpoint) {
    || (exists r :: r in resources && e.Pod? && r.namespace == e.namespace)
    || (exists r :: Mentioned(conns, r) && r.name != "" && Covers(OwnerOf(owners, r), e))
  }

  ghost predicate IsSender(owners: OwnerMap, c: Connection, src: Endpoint) {
    HasSource(c) && PortsOf(c) != [] && Covers(OwnerOf(owners, c.source.value), src)
  }

  /** Connection `c` lets `src` open port `p` of `dst`. */
  ghost predicate Sends(owners: OwnerMap, c: Connection, src: Endpoint, dst: Endpoint, p: NetpolPort) {
    && IsSender(owners, c, src)
    && p in PortsOf(c)
    && var s, d := OwnerOf(owners, c.source.value), OwnerOf(owners, c.target);
       PeerMatches(s.namespace, PeerFor(s, d), dst)
  }

  /** Connection `c` lets port `p` of `dst` be opened by `src`. */
  ghost predicate Receives(owners: OwnerMap, c: Connection, src: Endpoint, dst: Endpoint, p: NetpolPort) {
    && p in PortsOf(c)
    && Covers(OwnerOf(owners, c.target), dst)
    && if c.link.exposeExternally then true
       else if !HasSource(c) then src.Pod?
       else
         var s, d := OwnerOf(owners, c.source.value), OwnerOf(owners, c.target);
         PeerMatches(d.namespace, PeerFor(d, s), src)
  }

  ghost predicate MayLeave(owners: OwnerMap, resources: seq<Resource>, conns: seq<Connection>, dnsPort: IntOrString,
                           src: Endpoint, dst: Endpoint, p: NetpolPort) {
    || !Isolated(owners, resources, conns, src)
    || (exists c :: c in conns && Sends(owners, c, src, dst, p))
    || (p == NetpolPort("UDP", dnsPort) && dst.Pod? && exists c :: c in conns && IsSender(owners, c, src))
  }

  ghost predicate MayEnter(owners: OwnerMap, resources: seq<Resource>, conns: seq<Connection>,
                           src: Endpoint, dst: Endpoint, p: NetpolPort) {
    || !Isolated(owners, resources, conns, dst)
    || (exists c :: c in conns && Receives(owners, c, src, dst, p))
  }

  // ----- which policies are emitted -----

  lemma ListingElements(t: Table, e: Entry)
    ensures e in Listing(t) <==> exists n :: n in t && e == t[n]
  {
    var names := Sorted(t.Keys);
    SortedListsTheNames(t.Keys);
    if e in Listing(t) {
      var i :| 0 <= i < |names| && Listing(t)[i] == e;
      assert names[i] in t.Keys;
    }
    if n :| n in t && e == t[n] {
      assert n in names;
      var i :| 0 <= i < |names| && names[i] == n;
      assert Listing(t)[i] == e;
    }
  }

  lemma PoliciesOfElements(es: seq<Entry>, dnsPort: IntOrString, pol: Policy)
    ensures pol in PoliciesOf(es, dnsPort) <==> exists e :: e in es && pol == NetpolOf(e, dnsPort)
  {
    if pol in PoliciesOf(es, dnsPort) {
      var i :| 0 <= i < |es| && PoliciesOf(es, dnsPort)[i] == pol;
      assert es[i] in es;
    }
    if e :| e in es && pol == NetpolOf(e, dnsPort) {
      var i :| 0 <= i < |es| && es[i] == e;
      assert PoliciesOf(es, dnsPort)[i] == pol;
    }
  }

  lemma NamespacesElements(resources: seq<Resource>, n: string)
    ensures n in Dedup(NamespacesOf(resources)) <==> exists r :: r in resources && n == r.namespace
  {
    var namespaces := NamespacesOf(resources);
    DedupElements(namespaces);
    if n in namespaces {
      var i :| 0 <= i < |namespaces| && namespaces[i] == n;
      assert resources[i] in resources;
    }
    if r :| r in resources && n == r.namespace {
      var i :| 0 <= i < |resources| && resources[i] == r;
      assert namespaces[i] == n;
    }
  }

  lemma DenyElements(resources: seq<Resource>, pol: Policy)
    ensures pol in DenyPolicies(resources) <==> exists r :: r in resources && pol == DenyPolicy(r.namespace)
  {
    var namespaces, deny := Dedup(NamespacesOf(resources)), DenyPolicies(resources);
    if pol in deny {
      var i :| 0 <= i < |deny| && deny[i] == pol;
      NamespacesElements(resources, namespaces[i]);
    }
    if r :| r in resources && pol == DenyPolicy(r.namespace) {
      NamespacesElements(resources, r.namespace);
      var j :| 0 <= j < |namespaces| && namespaces[j] == r.namespace;
      assert deny[j] == pol;
    }
  }

  lemma PoliciesForElements(resources: seq<Resource>, t: Table, dnsPort: IntOrString, pol: Policy)
    ensures pol in PoliciesFor(resources, t, dnsPort)
            <==> || (exists n :: n in t && pol == NetpolOf(t[n], dnsPort))
                 || (exists r :: r in resources && pol == DenyPolicy(r.namespace))
  {
    var es := Listing(t);
    PoliciesOfElements(es, dnsPort, pol);
    DenyElements(resources, pol);
    if e :| e in es && pol == NetpolOf(e, dnsPort) {
      ListingElements(t, e);
    }
    if n :| n in t && pol == NetpolOf(t[n], dnsPort) {
      ListingElements(t, t[n]);
    }
  }

  /** The entry of a mentioned workload, and who owns it. */
  lemma EntryOf(conns: seq<Connection>, r: Resource)
    requires Mentioned(conns, r) && r.name != ""
    ensures r.name in TableOf(conns) && TableOf(conns)[r.name].resource == OwnerOf(Owners(conns), r)
  {
    MentionsElements(conns, r);
    FirstNamedIsElement(Mentions(conns), r.name);
    OwnerIsFirstMention(conns, r.name);
  }

  lemma EntryIsMentioned(conns: seq<Connection>, n: string) returns (r: Resource)
    requires n in TableOf(conns)
    ensures n != "" && r.name == n && Mentioned(conns, r)
    ensures TableOf(conns)[n].resource == r == OwnerOf(Owners(conns), r)
  {
    OwnerIsFirstMention(conns, n);
    FirstNamedIsElement(Mentions(conns), n);
    r := TableOf(conns)[n].resource;
    MentionsElements(conns, r);
    EntryOf(conns, r);
  }

  /** What a table entry says about the connections it came from. */
  ghost predicate Describes(conns: seq<Connection>, owners: OwnerMap, n: string, entry: Entry) {
    && (forall rule :: rule in entry.egress <==> exists c :: c in conns && rule in EgressOffer(owners, c, n))
    && (forall rule :: rule in entry.ingress <==> exists c :: c in conns && rule in IngressOffer(owners, c, n))
    && (forall c :: c in conns && HasSource(c) && c.source.value.name == n ==>
          OwnerOf(owners, c.source.value) == entry.resource)
    && (forall c :: c in conns && c.target.name == n ==> OwnerOf(owners, c.target) == entry.resource)
  }

  lemma {:induction false} EntryRules(conns: seq<Connection>, n: string, rule: Rule)
    requires n in TableOf(conns)
    ensures rule in TableOf(conns)[n].egress
            <==> exists c :: c in conns && rule in EgressOffer(Owners(conns), c, n)
    ensures rule in TableOf(conns)[n].ingress
            <==> exists c :: c in conns && rule in IngressOffer(Owners(conns), c, n)
  {
    var r := EntryIsMentioned(conns, n);
    RulesAreDedupedOffers(conns, n);
    DedupElements(EgressOffers(Owners(conns), conns, n));
    DedupElements(IngressOffers(Owners(conns), conns, n));
    EgressOffersElements(Owners(conns), conns, n, rule);
    IngressOffersElements(Owners(conns), conns, n, rule);
  }

  lemma {:induction false} TableDescribes(conns: seq<Connection>, n: string)
    requires n in TableOf(conns)
    ensures n != "" && Describes(conns, Owners(conns), n, TableOf(conns)[n])
  {
    var r := EntryIsMentioned(conns, n);
    var owners, entry := Owners(conns), TableOf(conns)[n];
    forall rule ensures rule in entry.egress <==> exists c :: c in conns && rule in EgressOffer(owners, c, n) {
      EntryRules(conns, n, rule);
    }
    forall rule ensures rule in entry.ingress <==> exists c :: c in conns && rule in IngressOffer(owners, c, n) {
      EntryRules(conns, n, rule);
    }
    forall c | c in conns && HasSource(c) && c.source.value.name == n
      ensures OwnerOf(owners, c.source.value) == entry.resource {
      assert IsEnd(c, c.source.value);
      EntryOf(conns, c.source.value);
    }
    forall c | c in conns && c.target.name == n ensures OwnerOf(owners, c.target) == entry.resource {
      assert IsEnd(c, c.target);
      EntryOf(conns, c.target);
    }
  }

  // ----- the theorem -----

  lemma EmittedFor(resources: seq<Resource>, t: Table, dnsPort: IntOrString, n: string, e: Endpoint)
    requires n in t && Covers(t[n].resource, e)
    ensures var pol := NetpolOf(t[n], dnsPort);
            pol in PoliciesFor(resources, t, dnsPort) && Selects(pol, e)
            && Ingress in pol.policyTypes && Egress in pol.policyTypes
  {
    PoliciesForElements(resources, t, dnsPort, NetpolOf(t[n], dnsPort));
  }

  lemma PoliciesIsolate(resources: seq<Resource>, t: Table, dnsPort: IntOrString, e: Endpoint, pt: PolicyType)
    ensures IsolatedFor(pt, PoliciesFor(resources, t, dnsPort), e)
            <==> || (exists r :: r in resources && e.Pod? && r.namespace == e.namespace)
                 || (exists n :: n in t && Covers(t[n].resource, e))
  {
    if pol :| pol in PoliciesFor(resources, t, dnsPort) && Selects(pol, e) && pt in pol.policyTypes {
      PoliciesForElements(resources, t, dnsPort, pol);
    }
    if r :| r in resources && e.Pod? && r.namespace == e.namespace {
      var pol := DenyPolicy(r.namespace);
      PoliciesForElements(resources, t, dnsPort, pol);
      assert Selects(pol, e) && pt in pol.policyTypes;
    }
    if n :| n in t && Covers(t[n].resource, e) {
      EmittedFor(resources, t, dnsPort, n, e);
    }
  }

  lemma IsolationMeaning(resources: seq<Resource>, conns: seq<Connection>, dnsPort: IntOrString, e: Endpoint,
                         pt: PolicyType)
    ensures IsolatedFor(pt, Synth(resources, conns, dnsPort), e) <==> Isolated(Owners(conns), resources, conns, e)
  {
    var t, owners := TableOf(conns), Owners(conns);
    PoliciesIsolate(resources, t, dnsPort, e, pt);
    if n :| n in t && Covers(t[n].resource, e) {
      var r := EntryIsMentioned(conns, n);
      assert Covers(OwnerOf(owners, r), e);
    }
    if r :| Mentioned(conns, r) && r.name != "" && Covers(OwnerOf(owners, r), e) {
      EntryOf(conns, r);
    }
  }

  lemma SinglePeer(policyNs: string, peer: Peer, ports: seq<NetpolPort>, e: Endpoint, p: NetpolPort)
    requires ports != []
    ensures Admits(policyNs, Rule([peer], ports), e, p) <==> PeerMatches(policyNs, peer, e) && p in ports
  {
    assert [peer][0] in [peer];
  }

  /** A connection is acted upon by `name` when `name` is its source. */
  ghost predicate LetsOut(owners: OwnerMap, c: Connection, name: string, dnsPort: IntOrString,
                          src: Endpoint, dst: Endpoint, p: NetpolPort) {
    && HasSource(c) && c.source.value.name == name
    && (|| Sends(owners, c, src, dst, p)
        || (p == NetpolPort("UDP", dnsPort) && dst.Pod? && IsSender(owners, c, src)))
  }

  /** What the egress rules of one workload's policy admit. */
  lemma EgressRulesSound(conns: seq<Connection>, owners: OwnerMap, n: string, entry: Entry, dnsPort: IntOrString,
                         src: Endpoint, dst: Endpoint, p: NetpolPort, rule: Rule)
    returns (c: Connection)
    requires Describes(conns, owners, n, entry) && Covers(entry.resource, src)
    requires rule in WithDns(entry.egress, dnsPort) && Admits(entry.resource.namespace, rule, dst, p)
    ensures c in conns && LetsOut(owners, c, n, dnsPort, src, dst, p)
  {
    var origin := if rule in entry.egress then rule else entry.egress[0];
    assert origin in entry.egress;
    c :| c in conns && origin in EgressOffer(owners, c, n);
    SinglePeer(entry.resource.namespace, rule.peers[0], rule.ports, dst, p);
  }

  lemma EgressRulesComplete(conns: seq<Connection>, owners: OwnerMap, n: string, entry: Entry, dnsPort: IntOrString,
                            src: Endpoint, dst: Endpoint, p: NetpolPort, c: Connection)
    returns (rule: Rule)
    requires Describes(conns, owners, n, entry)
    requires c in conns && LetsOut(owners, c, n, dnsPort, src, dst, p)
    ensures rule in WithDns(entry.egress, dnsPort) && Admits(entry.resource.namespace, rule, dst, p)
  {
    var own := EgressRuleOf(owners, c);
    assert own in EgressOffer(owners, c, n);
    assert own in entry.egress;
    rule := if Sends(owners, c, src, dst, p) then own else DnsRule(dnsPort);
    SinglePeer(entry.resource.namespace, rule.peers[0], rule.ports, dst, p);
  }

  lemma IngressRuleAdmits(owners: OwnerMap, c: Connection, src: Endpoint, dst: Endpoint, p: NetpolPort)
    requires PortsOf(c) != [] && Covers(OwnerOf(owners, c.target), dst)
    ensures Admits(OwnerOf(owners, c.target).namespace, IngressRuleOf(owners, c), src, p)
            <==> Receives(owners, c, src, dst, p)
  {
    var rule := IngressRuleOf(owners, c);
    if rule.peers != [] {
      SinglePeer(OwnerOf(owners, c.target).namespace, rule.peers[0], rule.ports, src, p);
    }
  }

  lemma {:induction false} IngressRulesMeaning(conns: seq<Connection>, owners: OwnerMap, n: string, entry: Entry,
                                               src: Endpoint, dst: Endpoint, p: NetpolPort)
    requires Describes(conns, owners, n, entry) && Covers(entry.resource, dst)
    ensures (exists rule :: rule in entry.ingress && Admits(entry.resource.namespace, rule, src, p))
            <==> exists c :: c in conns && c.target.name == n && Receives(owners, c, src, dst, p)
  {
    if rule :| rule in entry.ingress && Admits(entry.resource.namespace, rule, src, p) {
      var c :| c in conns && rule in IngressOffer(owners, c, n);
      IngressRuleAdmits(owners, c, src, dst, p);
    }
    if c :| c in conns && c.target.name == n && Receives(owners, c, src, dst, p) {
      var rule := IngressRuleOf(owners, c);
      assert rule in IngressOffer(owners, c, n);
      IngressRuleAdmits(owners, c, src, dst, p);
      assert rule in entry.ingress;
    }
  }

  /** The entry and rule behind an admitted flow; default-deny policies have no rules. */
  lemma AdmittingEntry(resources: seq<Resource>, t: Table, dnsPort: IntOrString, pol: Policy, rule: Rule,
                       selected: Endpoint, other: Endpoint, p: NetpolPort)
    returns (n: string)
    requires pol in PoliciesFor(resources, t, dnsPort) && Selects(pol, selected)
    requires (rule in pol.egress || rule in pol.ingress) && Admits(pol.namespace, rule, other, p)
    ensures n in t && pol == NetpolOf(t[n], dnsPort) && Covers(t[n].resource, selected)
  {
    PoliciesForElements(resources, t, dnsPort, pol);
    n :| n in t && pol == NetpolOf(t[n], dnsPort);
  }

  lemma {:induction false} EgressSound(resources: seq<Resource>, conns: seq<Connection>, dnsPort: IntOrString,
                                       src: Endpoint, dst: Endpoint, p: NetpolPort)
    requires EgressAllowed(Synth(resources, conns, dnsPort), src, dst, p)
    ensures MayLeave(Owners(conns), resources, conns, dnsPort, src, dst, p)
  {
    var t, owners := TableOf(conns), Owners(conns);
    IsolationMeaning(resources, conns, dnsPort, src, Egress);
    if pol, rule :| pol in PoliciesFor(resources, t, dnsPort) && Selects(pol, src) && Egress in pol.policyTypes
                    && rule in pol.egress && Admits(pol.namespace, rule, dst, p) {
      var n := AdmittingEntry(resources, t, dnsPort, pol, rule, src, dst, p);
      TableDescribes(conns, n);
      var c := EgressRulesSound(conns, owners, n, t[n], dnsPort, src, dst, p, rule);
    }
  }

  lemma {:induction false} EgressComplete(resources: seq<Resource>, conns: seq<Connection>, dnsPort: IntOrString,
                                          src: Endpoint, dst: Endpoint, p: NetpolPort, c: Connection)
    requires c in conns && HasSource(c)
    requires LetsOut(Owners(conns), c, c.source.value.name, dnsPort, src, dst, p)
    ensures EgressAllowed(Synth(resources, conns, dnsPort), src, dst, p)
  {
    var t, n := TableOf(conns), c.source.value.name;
    assert IsEnd(c, c.source.value);
    EntryOf(conns, c.source.value);
    TableDescribes(conns, n);
    var rule := EgressRulesComplete(conns, Owners(conns), n, t[n], dnsPort, src, dst, p, c);
    EmittedFor(resources, t, dnsPort, n, src);
  }

  lemma {:induction false} IngressSound(resources: seq<Resource>, conns: seq<Connection>, dnsPort: IntOrString,
                                        src: Endpoint, dst: Endpoint, p: NetpolPort)
    requires IngressAllowed(Synth(resources, conns, dnsPort), src, dst, p)
    ensures MayEnter(Owners(conns), resources, conns, src, dst, p)
  {
    var t := TableOf(conns);
    IsolationMeaning(resources, conns, dnsPort, dst, Ingress);
    if pol, rule :| pol in PoliciesFor(resources, t, dnsPort) && Selects(pol, dst) && Ingress in pol.policyTypes
                    && rule in pol.ingress && Admits(pol.namespace, rule, src, p) {
      var n := AdmittingEntry(resources, t, dnsPort, pol, rule, dst, src, p);
      TableDescribes(conns, n);
      IngressRulesMeaning(conns, Owners(conns), n, t[n], src, dst, p);
    }
  }

  lemma {:induction false} IngressComplete(resources: seq<Resource>, conns: seq<Connection>, dnsPort: IntOrString,
                                           src: Endpoint, dst: Endpoint, p: NetpolPort, c: Connection)
    requires c in conns && c.target.name != "" && Receives(Owners(conns), c, src, dst, p)
    ensures IngressAllowed(Synth(resources, conns, dnsPort), src, dst, p)
  {
    var t, n := TableOf(conns), c.target.name;
    assert IsEnd(c, c.target);
    EntryOf(conns, c.target);
    TableDescribes(conns, n);
    IngressRulesMeaning(conns, Owners(conns), n, t[n], src, dst, p);
    EmittedFor(resources, t, dnsPort, n, dst);
  }

  /** Exactly what the emitted policies allow, for any connections and any two endpoints. */
  lemma {:induction false} SynthMeansTheConnections(resources: seq<Resource>, conns: seq<Connection>,
                                                    dnsPort: IntOrString,
                                                    src: Endpoint, dst: Endpoint, p: NetpolPort)
    requires NamedTargets(conns)
    ensures EgressAllowed(Synth(resources, conns, dnsPort), src, dst, p)
            <==> MayLeave(Owners(conns), resources, conns, dnsPort, src, dst, p)
    ensures IngressAllowed(Synth(resources, conns, dnsPort), src, dst, p)
            <==> MayEnter(Owners(conns), resources, conns, src, dst, p)
  {
    hide Synth, Owners, Covers, PeerMatches, PeerFor, Isolated, IsolatedFor;
    var policies, owners := Synth(resources, conns, dnsPort), Owners(conns);
    IsolationMeaning(resources, conns, dnsPort, src, Egress);
    IsolationMeaning(resources, conns, dnsPort, dst, Ingress);
    if EgressAllowed(policies, src, dst, p) {
      EgressSound(resources, conns, dnsPort, src, dst, p);
    }
    if c :| c in conns && HasSource(c) && LetsOut(owners, c, c.source.value.name, dnsPort, src, dst, p) {
      EgressComplete(resources, conns, dnsPort, src, dst, p, c);
    }
    if IngressAllowed(policies, src, dst, p) {
      IngressSound(resources, conns, dnsPort, src, dst, p);
    }
    if c :| c in conns && Receives(owners, c, src, dst, p) {
      IngressComplete(resources, conns, dnsPort, src, dst, p, c);
    }
  }
}
