/** The table of workloads, characterised without its fold: who owns each name,
    and each rule list as the first-occurrence deduplication of all rules offered. */
module SynthTable {
  import opened Model
  import opened Netpol
  import opened Sequences
  import opened SynthSpec

  /** The workloads a connection mentions, source first. */
  function MentionsOf(c: Connection): seq<Resource> {
    (if c.source.Some? then [c.source.value] else []) + [c.target]
  }

  function Mentions(conns: seq<Connection>): seq<Resource> {
    if conns == [] then [] else Mentions(conns[..|conns| - 1]) + MentionsOf(conns[|conns| - 1])
  }

  predicate IsEnd(c: Connection, r: Resource) {
    c.source == Some(r) || c.target == r
  }

  predicate Mentioned(conns: seq<Connection>, r: Resource) {
    exists c :: c in conns && IsEnd(c, r)
  }

  /** The first workload called `name` in a list. */
  function FirstNamed(rs: seq<Resource>, name: string): Option<Resource> {
    if rs == [] then None
    else if rs[0].name == name then Some(rs[0])
    else FirstNamed(rs[1..], name)
  }

  ghost function Owners(conns: seq<Connection>): OwnerMap {
    OwnersIn(TableOf(conns))
  }

  // ----- ports -----

  /** A policy port admits a Service port: the target port, unless that is the number 0, and else the
      Service's own; by the protocol given, and else by TCP. */
  predicate Translates(p: SvcNetworkAttr, q: NetpolPort) {
    && (p.protocol == "" ==> q.protocol == "TCP")
    && (p.protocol != "" ==> q.protocol == p.protocol)
    && (p.targetPort == FromInt(0) ==> q.port == FromInt(p.port))
    && (p.targetPort != FromInt(0) ==> q.port == p.targetPort)
  }

  lemma PortIsTranslated(p: SvcNetworkAttr, q: NetpolPort)
    ensures q == ToNetpolPort(p) <==> Translates(p, q)
  {
  }

  /** The translated ports stand in the order of the Service's, one for each that is not filtered out. */
  lemma {:induction false} PortsInOrder(ports: seq<SvcNetworkAttr>, exposedOnly: bool) returns (idx: seq<nat>)
    ensures Places(idx, |ports|) && |idx| == |ToNetpolPorts(ports, exposedOnly)|
    ensures forall i :: 0 <= i < |idx| ==> Translates(ports[idx[i]], ToNetpolPorts(ports, exposedOnly)[i])
    ensures forall k :: 0 <= k < |ports| ==> (k in idx <==> !exposedOnly || ports[k].exposeToCluster)
  {
    idx := [];
    if ports != [] {
      var init, last := ports[..|ports| - 1], |ports| - 1;
      idx := PortsInOrder(init, exposedOnly);
      PortIsTranslated(ports[last], ToNetpolPort(ports[last]));
      if !exposedOnly || ports[last].exposeToCluster {
        idx := idx + [last];
      }
    }
  }

  lemma {:induction false} NetpolPortsElements(ports: seq<SvcNetworkAttr>, exposedOnly: bool, q: NetpolPort)
    ensures q in ToNetpolPorts(ports, exposedOnly)
            <==> exists p :: p in ports && (!exposedOnly || p.exposeToCluster) && Translates(p, q)
  {
    hide ToNetpolPort;
    if ports != [] {
      var init, last := ports[..|ports| - 1], ports[|ports| - 1];
      assert ports == init + [last];
      NetpolPortsElements(init, exposedOnly, q);
      PortIsTranslated(last, q);
    }
  }

  /** The ports of a connection: those its source uses, if it is known to use any; otherwise
      the Service's, of which only the exposed ones count when there is no named source and no
      external exposure. */
  lemma PortsOfElements(c: Connection, q: NetpolPort)
    ensures q in PortsOf(c) <==>
            exists p :: Translates(p, q)
                        && (if c.source.Some? && c.source.value.usedPorts != [] then p in c.source.value.usedPorts
                            else && p in c.link.network
                                 && (|| (c.source.Some? && c.source.value.name != "")
                                     || c.link.exposeExternally || p.exposeToCluster))
  {
    hide Translates;
    if c.source.Some? && c.source.value.usedPorts != [] {
      NetpolPortsElements(c.source.value.usedPorts, false, q);
    } else {
      NetpolPortsElements(c.link.network, !HasSource(c) && !c.link.exposeExternally, q);
    }
  }

  // ----- rules offered by a list of connections -----

  function EgressOffer(owners: OwnerMap, c: Connection, name: string): seq<Rule> {
    if HasSource(c) && c.source.value.name == name && PortsOf(c) != [] then [EgressRuleOf(owners, c)] else []
  }

  function IngressOffer(owners: OwnerMap, c: Connection, name: string): seq<Rule> {
    if c.target.name == name && PortsOf(c) != [] then [IngressRuleOf(owners, c)] else []
  }

  function EgressOffers(owners: OwnerMap, conns: seq<Connection>, name: string): seq<Rule> {
    if conns == [] then []
    else EgressOffers(owners, conns[..|conns| - 1], name) + EgressOffer(owners, conns[|conns| - 1], name)
  }

  function IngressOffers(owners: OwnerMap, conns: seq<Connection>, name: string): seq<Rule> {
    if conns == [] then []
    else IngressOffers(owners, conns[..|conns| - 1], name) + IngressOffer(owners, conns[|conns| - 1], name)
  }

  lemma {:induction false} EgressOffersElements(owners: OwnerMap, conns: seq<Connection>, name: string, rule: Rule)
    ensures rule in EgressOffers(owners, conns, name)
            <==> exists c :: c in conns && rule in EgressOffer(owners, c, name)
  {
    if conns != [] {
      var init, last := conns[..|conns| - 1], conns[|conns| - 1];
      assert conns == init + [last];
      EgressOffersElements(owners, init, name, rule);
    }
  }

  lemma {:induction false} IngressOffersElements(owners: OwnerMap, conns: seq<Connection>, name: string, rule: Rule)
    ensures rule in IngressOffers(owners, conns, name)
            <==> exists c :: c in conns && rule in IngressOffer(owners, c, name)
  {
    if conns != [] {
      var init, last := conns[..|conns| - 1], conns[|conns| - 1];
      assert conns == init + [last];
      IngressOffersElements(owners, init, name, rule);
    }
  }

  // ----- ownership -----

  lemma {:induction false} FirstNamedAppend(rs: seq<Resource>, ss: seq<Resource>, name: string)
    ensures FirstNamed(rs + ss, name) ==
            if FirstNamed(rs, name).Some? then FirstNamed(rs, name) else FirstNamed(ss, name)
  {
    if rs == [] {
      assert rs + ss == ss;
    } else {
      assert (rs + ss)[1..] == rs[1..] + ss;
      FirstNamedAppend(rs[1..], ss, name);
    }
  }

  lemma {:induction false} FirstNamedIsElement(rs: seq<Resource>, name: string)
    ensures var f := FirstNamed(rs, name);
            if f.Some? then f.value in rs && f.value.name == name else forall r :: r in rs ==> r.name != name
  {
    if rs != [] {
      FirstNamedIsElement(rs[1..], name);
      assert rs == [rs[0]] + rs[1..];
    }
  }

  lemma EndsAreMentioned(c: Connection, r: Resource)
    ensures r in MentionsOf(c) <==> IsEnd(c, r)
  {
    assert c.source.Some? ==> MentionsOf(c)[0] == c.source.value;
    assert MentionsOf(c)[|MentionsOf(c)| - 1] == c.target;
  }

  lemma {:induction false} MentionsElements(conns: seq<Connection>, r: Resource)
    ensures r in Mentions(conns) <==> Mentioned(conns, r)
  {
    if conns != [] {
      var init, last := conns[..|conns| - 1], conns[|conns| - 1];
      assert conns == init + [last];
      MentionsElements(init, r);
      EndsAreMentioned(last, r);
    }
  }

  /** Registering a connection's workloads adds only the names not yet taken. */
  lemma RegisteredOwner(t: Table, c: Connection, name: string)
    requires forall n :: n in t ==> t[n].resource.name == n
    ensures var t' := Registered(t, c);
            var f := FirstNamed(MentionsOf(c), name);
            && (name in t' <==> name in t || (name != "" && f.Some?))
            && (name in t ==> t'[name] == t[name])
            && (name !in t && name in t' ==> f.Some? && t'[name] == Entry(f.value, [], []))
  {
    if c.source.Some? {
      FirstNamedAppend([c.source.value], [c.target], name);
    }
  }

  lemma StepKeepsOwners(t: Table, c: Connection)
    ensures Step(t, c).Keys == Registered(t, c).Keys
    ensures OwnersIn(Step(t, c)) == OwnersIn(Registered(t, c))
  {
    hide PortsOf, EgressRuleOf, IngressRuleOf, AddNew, Registered;
  }

  /** Every name belongs to the first workload that carries it; the empty name to none. */
  lemma {:induction false} OwnerIsFirstMention(conns: seq<Connection>, name: string)
    ensures var owners, f := Owners(conns), FirstNamed(Mentions(conns), name);
            if name != "" && f.Some? then name in owners && owners[name] == f.value else name !in owners
    ensures forall n :: n in TableOf(conns) ==> TableOf(conns)[n].resource.name == n
  {
    if conns != [] {
      var init, last := conns[..|conns| - 1], conns[|conns| - 1];
      OwnerIsFirstMention(init, name);
      StepKeepsOwners(TableOf(init), last);
      RegisteredOwner(TableOf(init), last, name);
      FirstNamedAppend(Mentions(init), MentionsOf(last), name);
      forall n | n in TableOf(conns) ensures TableOf(conns)[n].resource.name == n {
        RegisteredOwner(TableOf(init), last, n);
        FirstNamedIsElement(MentionsOf(last), n);
        assert OwnersIn(TableOf(conns))[n] == OwnersIn(Registered(TableOf(init), last))[n];
      }
    }
  }

  // ----- rule lists -----

  /** Later connections do not change who owns a name mentioned earlier. */
  lemma OwnersGrow(init: seq<Connection>, last: Connection, r: Resource)
    requires Mentioned(init, r)
    ensures OwnerOf(Owners(init), r) == OwnerOf(Owners(init + [last]), r)
  {
    var conns := init + [last];
    assert conns[..|conns| - 1] == init;
    MentionsElements(init, r);
    FirstNamedIsElement(Mentions(init), r.name);
    FirstNamedAppend(Mentions(init), MentionsOf(last), r.name);
    OwnerIsFirstMention(init, r.name);
    OwnerIsFirstMention(conns, r.name);
  }

  lemma OfferStable(o1: OwnerMap, o2: OwnerMap, c: Connection, name: string)
    requires forall r :: IsEnd(c, r) ==> OwnerOf(o1, r) == OwnerOf(o2, r)
    ensures EgressOffer(o1, c, name) == EgressOffer(o2, c, name)
    ensures IngressOffer(o1, c, name) == IngressOffer(o2, c, name)
  {
    assert IsEnd(c, c.target);
    assert c.source.Some? ==> IsEnd(c, c.source.value);
  }

  lemma {:induction false} OffersStable(o1: OwnerMap, o2: OwnerMap, conns: seq<Connection>, name: string)
    requires forall c, r :: c in conns && IsEnd(c, r) ==> OwnerOf(o1, r) == OwnerOf(o2, r)
    ensures EgressOffers(o1, conns, name) == EgressOffers(o2, conns, name)
    ensures IngressOffers(o1, conns, name) == IngressOffers(o2, conns, name)
  {
    if conns != [] {
      var init, last := conns[..|conns| - 1], conns[|conns| - 1];
      OfferStable(o1, o2, last, name);
      OffersStable(o1, o2, init, name);
    }
  }

  function RulesIn(t: Table, name: string): (seq<Rule>, seq<Rule>) {
    if name in t then (t[name].ingress, t[name].egress) else ([], [])
  }

  /** Each workload's rules are the deduplication, in order of first offer, of the
      rules that all the connections offer to its name. */
  lemma {:induction false} RulesAreDedupedOffers(conns: seq<Connection>, name: string)
    requires name != ""
    ensures var owners := Owners(conns);
            RulesIn(TableOf(conns), name)
            == (Dedup(IngressOffers(owners, conns, name)), Dedup(EgressOffers(owners, conns, name)))
  {
    if conns != [] {
      var init, last := conns[..|conns| - 1], conns[|conns| - 1];
      assert conns == init + [last];
      RulesAreDedupedOffers(init, name);
      forall c, r | c in init && IsEnd(c, r) ensures OwnerOf(Owners(init), r) == OwnerOf(Owners(conns), r) {
        OwnersGrow(init, last, r);
      }
      OffersStable(Owners(init), Owners(conns), init, name);
      StepAddsOffers(init, last, name);
      DedupSnoc(IngressOffers(Owners(conns), init, name), IngressOffer(Owners(conns), last, name));
      DedupSnoc(EgressOffers(Owners(conns), init, name), EgressOffer(Owners(conns), last, name));
    }
  }

  function AddAtMostOne(rules: seq<Rule>, offer: seq<Rule>): seq<Rule>
    requires |offer| <= 1
  {
    if offer == [] then rules else AddNew(rules, offer[0])
  }

  lemma {:induction false} DedupSnoc(rules: seq<Rule>, offer: seq<Rule>)
    requires |offer| <= 1
    ensures Dedup(rules + offer) == AddAtMostOne(Dedup(rules), offer)
  {
    if offer == [] {
      assert rules + offer == rules;
    } else {
      assert (rules + offer)[..|rules + offer| - 1] == rules;
    }
  }

  /** A name that is new to the table starts without rules. */
  lemma RegisteredRules(t: Table, c: Connection, name: string)
    ensures RulesIn(Registered(t, c), name) == RulesIn(t, name)
  {
  }

  lemma OffersLand(t: Table, c: Connection, name: string)
    requires c.target.name == name ==> name in t
    requires HasSource(c) && c.source.value.name == name ==> name in t
    ensures var (ingress, egress) := RulesIn(t, name);
            RulesIn(ApplyOffers(t, c), name)
            == (AddAtMostOne(ingress, IngressOffer(OwnersIn(t), c, name)),
                AddAtMostOne(egress, EgressOffer(OwnersIn(t), c, name)))
  {
  }

  lemma {:induction false} StepAddsOffers(init: seq<Connection>, last: Connection, name: string)
    requires name != ""
    ensures var conns := init + [last];
            var (ingress, egress) := RulesIn(TableOf(init), name);
            RulesIn(TableOf(conns), name)
            == (AddAtMostOne(ingress, IngressOffer(Owners(conns), last, name)),
                AddAtMostOne(egress, EgressOffer(Owners(conns), last, name)))
  {
    var conns := init + [last];
    assert conns[..|conns| - 1] == init && conns[|conns| - 1] == last;
    RegisteredRules(TableOf(init), last, name);
    StepKeepsOwners(TableOf(init), last);
    OffersLand(Registered(TableOf(init), last), last, name);
  }
}
