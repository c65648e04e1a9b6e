/** When the order of connections matters: policies depend on it exactly if two connections
    disagree about which workload bears a name. */
module OrderTheorems {
  import opened Model
  import opened Netpol
  import opened Sequences
  import opened Ordering
  import opened SynthSpec
  import opened SynthTable
  import opened SynthMeaning
  import opened SynthTheorems

  // ----- lists of the same effect -----

  predicate SamePorts(inOrder: bool, ports1: seq<NetpolPort>, ports2: seq<NetpolPort>) {
    if inOrder then ports1 == ports2 else multiset(ports1) == multiset(ports2)
  }

  /** The two connections give the same rules to the same workloads, with the same ports,
      which may be listed in another order unless `inOrder`. */
  predicate SameEffect(inOrder: bool, c1: Connection, c2: Connection) {
    && HasSource(c1) == HasSource(c2)
    && (HasSource(c1) ==> SameWorkload(c1.source.value, c2.source.value))
    && SameWorkload(c1.target, c2.target)
    && c1.link.exposeExternally == c2.link.exposeExternally
    && SamePorts(inOrder, PortsOf(c1), PortsOf(c2))
  }

  ghost predicate EffectsWithin(inOrder: bool, conns1: seq<Connection>, conns2: seq<Connection>) {
    forall c1 :: c1 in conns1 ==> exists c2 :: c2 in conns2 && SameEffect(inOrder, c1, c2)
  }

  ghost predicate SameEffects(inOrder: bool, conns1: seq<Connection>, conns2: seq<Connection>) {
    EffectsWithin(inOrder, conns1, conns2) && EffectsWithin(inOrder, conns2, conns1)
  }

  predicate SameRule(inOrder: bool, rule1: Rule, rule2: Rule) {
    rule1.peers == rule2.peers && SamePorts(inOrder, rule1.ports, rule2.ports)
  }

  ghost predicate RulesWithin(inOrder: bool, rules1: seq<Rule>, rules2: seq<Rule>) {
    forall rule1 :: rule1 in rules1 ==> exists rule2 :: rule2 in rules2 && SameRule(inOrder, rule1, rule2)
  }

  /** The same policy with the same set of rules. */
  ghost predicate SamePolicy(inOrder: bool, p1: Policy, p2: Policy) {
    && p1.name == p2.name && p1.namespace == p2.namespace && p1.podSelector == p2.podSelector
    && p1.policyTypes == p2.policyTypes
    && RulesWithin(inOrder, p1.ingress, p2.ingress) && RulesWithin(inOrder, p2.ingress, p1.ingress)
    && RulesWithin(inOrder, p1.egress, p2.egress) && RulesWithin(inOrder, p2.egress, p1.egress)
  }

  /** One by one. */
  ghost predicate SamePolicies(inOrder: bool, policies1: seq<Policy>, policies2: seq<Policy>) {
    && |policies1| == |policies2|
    && forall i :: 0 <= i < |policies1| ==> SamePolicy(inOrder, policies1[i], policies2[i])
  }

  /** With the ports in order, the rule sets are equal. */
  lemma {:induction false} SameRulesInOrder(p1: Policy, p2: Policy)
    requires SamePolicy(true, p1, p2)
    ensures forall rule :: rule in p1.ingress <==> rule in p2.ingress
    ensures forall rule :: rule in p1.egress <==> rule in p2.egress
  {
  }

  lemma SamePolicySymmetric(inOrder: bool, p1: Policy, p2: Policy)
    requires SamePolicy(inOrder, p1, p2)
    ensures SamePolicy(inOrder, p2, p1)
  {
  }

  lemma SamePolicyReflexive(inOrder: bool, pol: Policy)
    ensures SamePolicy(inOrder, pol, pol)
  {
    forall rule ensures SameRule(inOrder, rule, rule) {
    }
  }

  // ----- whom a name belongs to -----

  /** No two connections disagree about the first workload of any name. */
  ghost predicate FirstEndsAgree(conns: seq<Connection>) {
    forall c1, c2, n :: c1 in conns && c2 in conns && n != "" ==>
      var end1, end2 := FirstNamed(MentionsOf(c1), n), FirstNamed(MentionsOf(c2), n);
      end1.Some? && end2.Some? ==> SameWorkload(end1.value, end2.value)
  }

  lemma FirstEndIsEnd(c: Connection, n: string)
    ensures var end := FirstNamed(MentionsOf(c), n);
            && (n != "" && end.Some? <==>
                  n != "" && ((HasSource(c) && c.source.value.name == n) || c.target.name == n))
            && (n != "" && end.Some? ==>
                  end.value == if HasSource(c) && c.source.value.name == n then c.source.value else c.target)
  {
    if c.source.Some? {
      FirstNamedAppend([c.source.value], [c.target], n);
    }
  }

  lemma SameFirstEnd(inOrder: bool, c1: Connection, c2: Connection, n: string)
    requires SameEffect(inOrder, c1, c2) && n != ""
    ensures var end1, end2 := FirstNamed(MentionsOf(c1), n), FirstNamed(MentionsOf(c2), n);
            && (end1.Some? <==> end2.Some?)
            && (end1.Some? ==> SameWorkload(end1.value, end2.value))
  {
    FirstEndIsEnd(c1, n);
    FirstEndIsEnd(c2, n);
  }

  /** Names that identify workloads leave nothing to disagree about. */
  lemma IdentifiedNamesAgree(conns: seq<Connection>)
    requires NamesIdentify(conns)
    ensures FirstEndsAgree(conns)
  {
    forall c1, c2, n | c1 in conns && c2 in conns && n != ""
      ensures var end1, end2 := FirstNamed(MentionsOf(c1), n), FirstNamed(MentionsOf(c2), n);
              end1.Some? && end2.Some? ==> SameWorkload(end1.value, end2.value)
    {
      FirstNamedIsElement(MentionsOf(c1), n);
      FirstNamedIsElement(MentionsOf(c2), n);
      var end1, end2 := FirstNamed(MentionsOf(c1), n), FirstNamed(MentionsOf(c2), n);
      if end1.Some? && end2.Some? {
        EndsAreMentioned(c1, end1.value);
        EndsAreMentioned(c2, end2.value);
      }
    }
  }

  /** The owner of a name is the first end of that name of some connection. */
  lemma {:induction false} OwnerIsSomeFirstEnd(conns: seq<Connection>, n: string) returns (c: Connection)
    requires n in Owners(conns)
    ensures n != "" && c in conns && FirstNamed(MentionsOf(c), n) == Some(Owners(conns)[n])
  {
    OwnerIsFirstMention(conns, n);
    c := FirstMentionIsFirstEnd(conns, n);
  }

  lemma {:induction false} FirstMentionIsFirstEnd(conns: seq<Connection>, n: string) returns (c: Connection)
    requires FirstNamed(Mentions(conns), n).Some?
    ensures c in conns && FirstNamed(MentionsOf(c), n) == FirstNamed(Mentions(conns), n)
  {
    var init, last := conns[..|conns| - 1], conns[|conns| - 1];
    FirstNamedAppend(Mentions(init), MentionsOf(last), n);
    if FirstNamed(Mentions(init), n).Some? {
      c := FirstMentionIsFirstEnd(init, n);
    } else {
      c := last;
    }
  }

  lemma {:induction false} NamedEndIsOwned(conns: seq<Connection>, c: Connection, n: string)
    requires c in conns && n != "" && FirstNamed(MentionsOf(c), n).Some?
    ensures n in Owners(conns)
  {
    FirstNamedIsElement(MentionsOf(c), n);
    var end := FirstNamed(MentionsOf(c), n).value;
    EndsAreMentioned(c, end);
    EntryOf(conns, end);
  }

  /** The connections `lead`, a part of `conns`, decide whom each name belongs to. */
  ghost predicate Decisive(lead: seq<Connection>, conns: seq<Connection>) {
    && (forall c :: c in lead ==> c in conns)
    && forall n :: n in Owners(conns) ==>
         n != "" && exists c :: c in lead && FirstNamed(MentionsOf(c), n) == Some(Owners(conns)[n])
  }

  lemma {:induction false} AllDecide(conns: seq<Connection>)
    ensures Decisive(conns, conns)
  {
    hide Owners, MentionsOf;
    forall n | n in Owners(conns)
      ensures n != "" && exists c :: c in conns && FirstNamed(MentionsOf(c), n) == Some(Owners(conns)[n])
    {
      var c := OwnerIsSomeFirstEnd(conns, n);
    }
  }

  lemma Decider(lead: seq<Connection>, conns: seq<Connection>, n: string) returns (c: Connection)
    requires Decisive(lead, conns) && n in Owners(conns)
    ensures n != "" && c in lead && c in conns && FirstNamed(MentionsOf(c), n) == Some(Owners(conns)[n])
  {
    hide Owners, MentionsOf;
    c :| c in lead && FirstNamed(MentionsOf(c), n) == Some(Owners(conns)[n]);
  }

  /** The connection of the same effect in the other list, and its first end of a name. */
  lemma EffectCounterpart(inOrder: bool, lead1: seq<Connection>, lead2: seq<Connection>, c1: Connection, n: string)
    returns (c2: Connection)
    requires EffectsWithin(inOrder, lead1, lead2) && c1 in lead1 && n != ""
    ensures c2 in lead2
    ensures var end1, end2 := FirstNamed(MentionsOf(c1), n), FirstNamed(MentionsOf(c2), n);
            && (end1.Some? <==> end2.Some?)
            && (end1.Some? ==> SameWorkload(end1.value, end2.value))
  {
    hide SameEffect, MentionsOf, SameWorkload;
    c2 :| c2 in lead2 && SameEffect(inOrder, c1, c2);
    SameFirstEnd(inOrder, c1, c2, n);
  }

  lemma {:induction false} SameOwner(inOrder: bool, lead1: seq<Connection>, conns1: seq<Connection>,
                                     lead2: seq<Connection>, conns2: seq<Connection>, n: string)
    requires Decisive(lead1, conns1) && Decisive(lead2, conns2)
    requires SameEffects(inOrder, lead1, lead2) && FirstEndsAgree(lead1) && n in Owners(conns1)
    ensures n in Owners(conns2) && SameWorkload(Owners(conns1)[n], Owners(conns2)[n])
  {
    hide Owners, MentionsOf, SameWorkload, Decisive, EffectsWithin;
    var c1 := Decider(lead1, conns1, n);
    var c2 := EffectCounterpart(inOrder, lead1, lead2, c1, n);
    Owned(lead2, conns2, c2, n);
    var d2 := Decider(lead2, conns2, n);
    var d1 := EffectCounterpart(inOrder, lead2, lead1, d2, n);
    SameWorkloadTransitive(Owners(conns1)[n], FirstNamed(MentionsOf(d1), n).value, Owners(conns2)[n]);
  }

  lemma {:induction false} Owned(lead: seq<Connection>, conns: seq<Connection>, c: Connection, n: string)
    requires Decisive(lead, conns) && c in lead && n != "" && FirstNamed(MentionsOf(c), n).Some?
    ensures n in Owners(conns)
  {
    hide Owners, MentionsOf;
    NamedEndIsOwned(conns, c, n);
  }

  lemma SameWorkloadTransitive(r1: Resource, r2: Resource, r3: Resource)
    requires SameWorkload(r1, r2) && SameWorkload(r3, r2)
    ensures SameWorkload(r1, r3)
  {
  }

  ghost predicate OwnersAgree(owners1: OwnerMap, owners2: OwnerMap) {
    && owners1.Keys == owners2.Keys
    && forall n :: n in owners1 ==> SameWorkload(owners1[n], owners2[n])
  }

  lemma {:induction false} EffectsGiveOwners(inOrder: bool, lead1: seq<Connection>, conns1: seq<Connection>,
                                             lead2: seq<Connection>, conns2: seq<Connection>)
    requires Decisive(lead1, conns1) && Decisive(lead2, conns2)
    requires SameEffects(inOrder, lead1, lead2) && FirstEndsAgree(lead1)
    ensures OwnersAgree(Owners(conns1), Owners(conns2))
  {
    hide Owners, MentionsOf, SameWorkload, FirstEndsAgree, Decisive, EffectsWithin;
    forall n ensures n in Owners(conns1) <==> n in Owners(conns2)
             ensures n in Owners(conns1) && n in Owners(conns2) ==> SameWorkload(Owners(conns1)[n], Owners(conns2)[n]) {
      if n in Owners(conns1) {
        SameOwner(inOrder, lead1, conns1, lead2, conns2, n);
      } else if n in Owners(conns2) {
        var c2 := Decider(lead2, conns2, n);
        var c1 := EffectCounterpart(inOrder, lead2, lead1, c2, n);
        Owned(lead1, conns1, c1, n);
      }
    }
  }

  // ----- the rules offered -----

  lemma SameOffers(inOrder: bool, owners1: OwnerMap, owners2: OwnerMap, c1: Connection, c2: Connection, n: string)
    requires SameEffect(inOrder, c1, c2) && OwnersAgree(owners1, owners2)
    ensures RulesWithin(inOrder, EgressOffer(owners1, c1, n), EgressOffer(owners2, c2, n))
    ensures RulesWithin(inOrder, IngressOffer(owners1, c1, n), IngressOffer(owners2, c2, n))
  {
    hide PortsOf;
    assert SameWorkload(OwnerOf(owners1, c1.target), OwnerOf(owners2, c2.target));
    if !inOrder {
      PermutationElements(PortsOf(c1), PortsOf(c2));
    }
    if HasSource(c1) {
      assert SameWorkload(OwnerOf(owners1, c1.source.value), OwnerOf(owners2, c2.source.value));
      if c1.source.value.name == n && PortsOf(c1) != [] {
        assert EgressOffer(owners2, c2, n)[0] == EgressRuleOf(owners2, c2);
        assert SameRule(inOrder, EgressRuleOf(owners1, c1), EgressRuleOf(owners2, c2));
      }
    }
    if c1.target.name == n && PortsOf(c1) != [] {
      assert IngressOffer(owners2, c2, n)[0] == IngressRuleOf(owners2, c2);
      assert SameRule(inOrder, IngressRuleOf(owners1, c1), IngressRuleOf(owners2, c2));
    }
  }

  lemma Counterpart(inOrder: bool, rules1: seq<Rule>, rules2: seq<Rule>, rule1: Rule) returns (rule2: Rule)
    requires RulesWithin(inOrder, rules1, rules2) && rule1 in rules1
    ensures rule2 in rules2 && SameRule(inOrder, rule1, rule2)
  {
    rule2 :| rule2 in rules2 && SameRule(inOrder, rule1, rule2);
  }

  lemma EachHasCounterpart(inOrder: bool, rules1: seq<Rule>, rules2: seq<Rule>)
    requires forall rule1 :: rule1 in rules1 ==> exists rule2 :: rule2 in rules2 && SameRule(inOrder, rule1, rule2)
    ensures RulesWithin(inOrder, rules1, rules2)
  {
  }

  lemma {:induction false} EgressRulesWithin(inOrder: bool, conns1: seq<Connection>, conns2: seq<Connection>,
                                              n: string)
    requires SameEffects(inOrder, conns1, conns2) && OwnersAgree(Owners(conns1), Owners(conns2))
    requires n in TableOf(conns1) && n in TableOf(conns2)
    ensures RulesWithin(inOrder, TableOf(conns1)[n].egress, TableOf(conns2)[n].egress)
  {
    hide Owners, SameEffect, SameRule, OwnersAgree, TableOf, EgressOffer, IngressOffer, RulesWithin;
    var rules1, rules2 := TableOf(conns1)[n].egress, TableOf(conns2)[n].egress;
    forall rule1 | rule1 in rules1 ensures exists rule2 :: rule2 in rules2 && SameRule(inOrder, rule1, rule2) {
      EntryRules(conns1, n, rule1);
      var c1 :| c1 in conns1 && rule1 in EgressOffer(Owners(conns1), c1, n);
      var c2 :| c2 in conns2 && SameEffect(inOrder, c1, c2);
      SameOffers(inOrder, Owners(conns1), Owners(conns2), c1, c2, n);
      var rule2 := Counterpart(inOrder, EgressOffer(Owners(conns1), c1, n),
                               EgressOffer(Owners(conns2), c2, n), rule1);
      EntryRules(conns2, n, rule2);
    }
    EachHasCounterpart(inOrder, rules1, rules2);
  }

  lemma {:induction false} IngressRulesWithin(inOrder: bool, conns1: seq<Connection>, conns2: seq<Connection>,
                                              n: string)
    requires SameEffects(inOrder, conns1, conns2) && OwnersAgree(Owners(conns1), Owners(conns2))
    requires n in TableOf(conns1) && n in TableOf(conns2)
    ensures RulesWithin(inOrder, TableOf(conns1)[n].ingress, TableOf(conns2)[n].ingress)
  {
    hide Owners, SameEffect, SameRule, OwnersAgree, TableOf, EgressOffer, IngressOffer, RulesWithin;
    var rules1, rules2 := TableOf(conns1)[n].ingress, TableOf(conns2)[n].ingress;
    forall rule1 | rule1 in rules1 ensures exists rule2 :: rule2 in rules2 && SameRule(inOrder, rule1, rule2) {
      EntryRules(conns1, n, rule1);
      var c1 :| c1 in conns1 && rule1 in IngressOffer(Owners(conns1), c1, n);
      var c2 :| c2 in conns2 && SameEffect(inOrder, c1, c2);
      SameOffers(inOrder, Owners(conns1), Owners(conns2), c1, c2, n);
      var rule2 := Counterpart(inOrder, IngressOffer(Owners(conns1), c1, n),
                               IngressOffer(Owners(conns2), c2, n), rule1);
      EntryRules(conns2, n, rule2);
    }
    EachHasCounterpart(inOrder, rules1, rules2);
  }

  lemma DnsWithin(inOrder: bool, rules1: seq<Rule>, rules2: seq<Rule>, dnsPort: IntOrString)
    requires RulesWithin(inOrder, rules1, rules2)
    ensures RulesWithin(inOrder, WithDns(rules1, dnsPort), WithDns(rules2, dnsPort))
  {
    if rules1 != [] {
      assert rules1[0] in rules1;
      var dns := DnsRule(dnsPort);
      assert dns in WithDns(rules2, dnsPort) && SameRule(inOrder, dns, dns);
      forall rule1 | rule1 in WithDns(rules1, dnsPort)
        ensures exists rule2 :: rule2 in WithDns(rules2, dnsPort) && SameRule(inOrder, rule1, rule2)
      {
        if rule1 in rules1 {
          var other :| other in rules2 && SameRule(inOrder, rule1, other);
          assert other in WithDns(rules2, dnsPort);
        }
      }
    }
  }

  lemma SymmetricEffects(inOrder: bool, conns1: seq<Connection>, conns2: seq<Connection>)
    requires SameEffects(inOrder, conns1, conns2) && OwnersAgree(Owners(conns1), Owners(conns2))
    ensures SameEffects(inOrder, conns2, conns1) && OwnersAgree(Owners(conns2), Owners(conns1))
  {
  }

  lemma {:induction false} SameEntryPolicy(inOrder: bool, conns1: seq<Connection>, conns2: seq<Connection>,
                                           dnsPort: IntOrString, n: string)
    requires SameEffects(inOrder, conns1, conns2) && OwnersAgree(Owners(conns1), Owners(conns2))
    requires n in TableOf(conns1) && n in TableOf(conns2)
    ensures SamePolicy(inOrder, NetpolOf(TableOf(conns1)[n], dnsPort), NetpolOf(TableOf(conns2)[n], dnsPort))
  {
    hide SameEffects, RulesWithin;
    var e1, e2 := TableOf(conns1)[n], TableOf(conns2)[n];
    assert n in Owners(conns1) && SameWorkload(e1.resource, e2.resource);
    EgressRulesWithin(inOrder, conns1, conns2, n);
    IngressRulesWithin(inOrder, conns1, conns2, n);
    SymmetricEffects(inOrder, conns1, conns2);
    EgressRulesWithin(inOrder, conns2, conns1, n);
    IngressRulesWithin(inOrder, conns2, conns1, n);
    DnsWithin(inOrder, e1.egress, e2.egress, dnsPort);
    DnsWithin(inOrder, e2.egress, e1.egress, dnsPort);
  }

  /** Connections of the same effects, in any order and number, give the same policies to workloads. */
  lemma {:induction false} SameEffectsSamePolicies(inOrder: bool, conns1: seq<Connection>, conns2: seq<Connection>,
                                                   dnsPort: IntOrString)
    requires SameEffects(inOrder, conns1, conns2) && OwnersAgree(Owners(conns1), Owners(conns2))
    ensures SamePolicies(inOrder, PoliciesOf(Listing(TableOf(conns1)), dnsPort),
                         PoliciesOf(Listing(TableOf(conns2)), dnsPort))
  {
    var t1, t2 := TableOf(conns1), TableOf(conns2);
    assert t1.Keys == Owners(conns1).Keys == Owners(conns2).Keys == t2.Keys;
    hide SamePolicy, NetpolOf, Sorted, TableOf, SameEffects, Owners, OwnersAgree;
    var names := Sorted(t1.Keys);
    SortedListsTheNames(t1.Keys);
    forall i | 0 <= i < |names|
      ensures SamePolicy(inOrder, NetpolOf(Listing(t1)[i], dnsPort), NetpolOf(Listing(t2)[i], dnsPort)) {
      assert names[i] in t1.Keys;
      SameEntryPolicy(inOrder, conns1, conns2, dnsPort, names[i]);
    }
  }

  // ----- order of connections -----

  lemma {:induction false} SameOwnersInAnyOrder(conns1: seq<Connection>, conns2: seq<Connection>)
    requires (forall c :: c in conns1 <==> c in conns2) && FirstEndsAgree(conns1)
    ensures OwnersAgree(Owners(conns1), Owners(conns2))
  {
    hide Owners, Decisive, FirstEndsAgree;
    AllDecide(conns1);
    AllDecide(conns2);
    assert SameEffects(true, conns1, conns2) by {
      assert forall c :: SameEffect(true, c, c);
    }
    EffectsGiveOwners(true, conns1, conns1, conns2, conns2);
  }

  /** The order in which connections were discovered, and repetitions among them, affect
      neither the sequence of policies nor the set of rules of each. */
  lemma {:induction false} ConnectionOrderIsIrrelevant(resources: seq<Resource>, conns1: seq<Connection>,
                                                       conns2: seq<Connection>, dnsPort: IntOrString)
    requires forall c :: c in conns1 <==> c in conns2
    requires FirstEndsAgree(conns1)
    ensures SamePolicies(true, Synth(resources, conns1, dnsPort), Synth(resources, conns2, dnsPort))
    ensures var policies1, policies2 := Synth(resources, conns1, dnsPort), Synth(resources, conns2, dnsPort);
            forall i, rule :: 0 <= i < |policies1| ==>
              && (rule in policies1[i].ingress <==> rule in policies2[i].ingress)
              && (rule in policies1[i].egress <==> rule in policies2[i].egress)
  {
    hide Listing, TableOf, SamePolicy, DenyPolicies, FirstEndsAgree;
    assert SameEffects(true, conns1, conns2) by {
      assert forall c :: SameEffect(true, c, c);
    }
    SameOwnersInAnyOrder(conns1, conns2);
    SameEffectsSamePolicies(true, conns1, conns2, dnsPort);
    forall pol ensures SamePolicy(true, pol, pol) {
      SamePolicyReflexive(true, pol);
    }
    var policies1, policies2 := Synth(resources, conns1, dnsPort), Synth(resources, conns2, dnsPort);
    forall i, rule | 0 <= i < |policies1|
      ensures rule in policies1[i].ingress <==> rule in policies2[i].ingress
      ensures rule in policies1[i].egress <==> rule in policies2[i].egress
    {
      SameRulesInOrder(policies1[i], policies2[i]);
    }
  }

  /** The list with its `i`-th element moved to the front. */
  function ToFront<T>(s: seq<T>, i: nat): seq<T>
    requires i < |s|
  {
    [s[i]] + s[..i] + s[i + 1..]
  }

  lemma ToFrontPermutes<T>(s: seq<T>, i: nat)
    requires i < |s|
    ensures multiset(ToFront(s, i)) == multiset(s)
  {
    assert s == s[..i] + [s[i]] + s[i + 1..];
  }

  lemma {:induction false} MentionsSnoc(init: seq<Connection>, last: Connection)
    ensures Mentions(init + [last]) == Mentions(init) + MentionsOf(last)
  {
    assert (init + [last])[..|init|] == init;
  }

  lemma {:induction false} MentionsAppend(conns1: seq<Connection>, conns2: seq<Connection>)
    ensures Mentions(conns1 + conns2) == Mentions(conns1) + Mentions(conns2)
  {
    hide MentionsOf;
    if conns2 == [] {
      assert Mentions(conns2) == [];
      assert conns1 + conns2 == conns1;
    } else {
      var init, last := conns2[..|conns2| - 1], conns2[|conns2| - 1];
      MentionsAppend(conns1, init);
      MentionsSnoc(conns1 + init, last);
      MentionsSnoc(init, last);
      assert conns1 + conns2 == conns1 + init + [last] && conns2 == init + [last];
    }
  }

  lemma {:induction false} FrontOwns(conns: seq<Connection>, i: nat, n: string)
    requires i < |conns| && n != "" && FirstNamed(MentionsOf(conns[i]), n).Some?
    ensures var t := TableOf(ToFront(conns, i));
            n in t && t[n].resource == FirstNamed(MentionsOf(conns[i]), n).value
  {
    hide TableOf, MentionsOf;
    var moved := ToFront(conns, i);
    var front, rest := [conns[i]], conns[..i] + conns[i + 1..];
    assert moved == front + rest;
    MentionsAppend(front, rest);
    assert front[..|front| - 1] == [];
    assert Mentions(front) == MentionsOf(conns[i]);
    FirstNamedAppend(Mentions(front), Mentions(rest), n);
    OwnerIsFirstMention(moved, n);
  }

  lemma {:induction false} SamePoliciesSameOwner(resources: seq<Resource>, t1: Table, t2: Table, dnsPort: IntOrString,
                                                 n: string)
    requires t1.Keys == t2.Keys && n in t1 && t1[n].resource.name == t2[n].resource.name
    requires SamePolicies(true, PoliciesFor(resources, t1, dnsPort), PoliciesFor(resources, t2, dnsPort))
    ensures SameWorkload(t1[n].resource, t2[n].resource)
  {
    hide Sorted, RulesWithin;
    var names := Sorted(t1.Keys);
    SortedListsTheNames(t1.Keys);
    assert n in names;
    var i :| 0 <= i < |names| && names[i] == n;
    assert Listing(t1)[i] == t1[n] && Listing(t2)[i] == t2[n];
    assert PoliciesFor(resources, t1, dnsPort)[i] == NetpolOf(t1[n], dnsPort);
    assert PoliciesFor(resources, t2, dnsPort)[i] == NetpolOf(t2[n], dnsPort);
  }

  lemma {:induction false} SameNames(conns1: seq<Connection>, conns2: seq<Connection>)
    requires forall c :: c in conns1 <==> c in conns2
    ensures TableOf(conns1).Keys == TableOf(conns2).Keys
  {
    hide TableOf;
    forall n ensures n in TableOf(conns1) <==> n in TableOf(conns2) {
      if n in TableOf(conns1) {
        var r := EntryIsMentioned(conns1, n);
        EntryOf(conns2, r);
      }
      if n in TableOf(conns2) {
        var r := EntryIsMentioned(conns2, n);
        EntryOf(conns1, r);
      }
    }
  }

  /** Any reordering gives the same policies. */
  ghost predicate OrderIrrelevant(resources: seq<Resource>, conns: seq<Connection>, dnsPort: IntOrString) {
    forall conns1, conns2 :: multiset(conns1) == multiset(conns) && multiset(conns2) == multiset(conns) ==>
      SamePolicies(true, Synth(resources, conns1, dnsPort), Synth(resources, conns2, dnsPort))
  }

  lemma {:induction false} DisagreementShows(resources: seq<Resource>, conns: seq<Connection>, dnsPort: IntOrString,
                                             i: nat, j: nat, n: string)
    requires OrderIrrelevant(resources, conns, dnsPort)
    requires i < |conns| && j < |conns| && n != ""
    requires FirstNamed(MentionsOf(conns[i]), n).Some? && FirstNamed(MentionsOf(conns[j]), n).Some?
    ensures SameWorkload(FirstNamed(MentionsOf(conns[i]), n).value, FirstNamed(MentionsOf(conns[j]), n).value)
  {
    hide TableOf, MentionsOf, SamePolicies;
    var conns1, conns2 := ToFront(conns, i), ToFront(conns, j);
    ToFrontPermutes(conns, i);
    ToFrontPermutes(conns, j);
    assert SamePolicies(true, Synth(resources, conns1, dnsPort), Synth(resources, conns2, dnsPort));
    PermutationElements(conns1, conns2);
    SameNames(conns1, conns2);
    FrontOwns(conns, i, n);
    FrontOwns(conns, j, n);
    FirstNamedIsElement(MentionsOf(conns[i]), n);
    FirstNamedIsElement(MentionsOf(conns[j]), n);
    SamePoliciesSameOwner(resources, TableOf(conns1), TableOf(conns2), dnsPort, n);
  }

  /** The order of connections is irrelevant if and only if no two of them disagree about
      the first workload of some name. */
  lemma {:induction false} OrderIsIrrelevantExactly(resources: seq<Resource>, conns: seq<Connection>,
                                                    dnsPort: IntOrString)
    ensures OrderIrrelevant(resources, conns, dnsPort) <==> FirstEndsAgree(conns)
  {
    hide Synth, SamePolicies, MentionsOf, SameWorkload;
    if FirstEndsAgree(conns) {
      forall conns1, conns2 | multiset(conns1) == multiset(conns) && multiset(conns2) == multiset(conns)
        ensures SamePolicies(true, Synth(resources, conns1, dnsPort), Synth(resources, conns2, dnsPort))
      {
        PermutationElements(conns1, conns);
        PermutationElements(conns2, conns);
        ConnectionOrderIsIrrelevant(resources, conns1, conns2, dnsPort);
      }
    }
    if OrderIrrelevant(resources, conns, dnsPort) {
      forall c1, c2, n | c1 in conns && c2 in conns && n != ""
        ensures var end1, end2 := FirstNamed(MentionsOf(c1), n), FirstNamed(MentionsOf(c2), n);
                end1.Some? && end2.Some? ==> SameWorkload(end1.value, end2.value)
      {
        var i :| 0 <= i < |conns| && conns[i] == c1;
        var j :| 0 <= j < |conns| && conns[j] == c2;
        if FirstNamed(MentionsOf(c1), n).Some? && FirstNamed(MentionsOf(c2), n).Some? {
          DisagreementShows(resources, conns, dnsPort, i, j, n);
        }
      }
    }
  }

  lemma SuffixCancels(a: string, b: string, suffix: string)
    requires a + suffix == b + suffix
    ensures a == b
  {
    assert |a| == |b|;
    assert (a + suffix)[..|a|] == a && (b + suffix)[..|b|] == b;
  }

  // ----- policies that differ in the order of ports allow the same -----

  ghost predicate PoliciesWithin(policies1: seq<Policy>, policies2: seq<Policy>) {
    forall pol1 :: pol1 in policies1 ==> exists pol2 :: pol2 in policies2 && SamePolicy(false, pol1, pol2)
  }

  lemma SameRuleAdmits(ns: string, rule1: Rule, rule2: Rule, e: Endpoint, p: NetpolPort)
    requires SameRule(false, rule1, rule2) && Admits(ns, rule1, e, p)
    ensures Admits(ns, rule2, e, p)
  {
    PermutationElements(rule1.ports, rule2.ports);
  }

  lemma {:induction false} IsolatedWithin(policies1: seq<Policy>, policies2: seq<Policy>, t: PolicyType, e: Endpoint)
    requires PoliciesWithin(policies1, policies2) && IsolatedFor(t, policies1, e)
    ensures IsolatedFor(t, policies2, e)
  {
    var pol1 :| pol1 in policies1 && Selects(pol1, e) && t in pol1.policyTypes;
    var pol2 :| pol2 in policies2 && SamePolicy(false, pol1, pol2);
  }

  lemma PolicyCounterpart(policies1: seq<Policy>, policies2: seq<Policy>, pol1: Policy, e: Endpoint)
    returns (pol2: Policy)
    requires PoliciesWithin(policies1, policies2) && pol1 in policies1
    ensures pol2 in policies2 && (Selects(pol1, e) <==> Selects(pol2, e))
    ensures pol1.namespace == pol2.namespace && pol1.policyTypes == pol2.policyTypes
    ensures RulesWithin(false, pol1.egress, pol2.egress) && RulesWithin(false, pol1.ingress, pol2.ingress)
  {
    pol2 :| pol2 in policies2 && SamePolicy(false, pol1, pol2);
  }

  lemma {:induction false} EgressWithin(policies1: seq<Policy>, policies2: seq<Policy>,
                                        src: Endpoint, dst: Endpoint, p: NetpolPort)
    requires PoliciesWithin(policies1, policies2) && PoliciesWithin(policies2, policies1)
    requires EgressAllowed(policies1, src, dst, p)
    ensures EgressAllowed(policies2, src, dst, p)
  {
    hide SameRule, Admits, PoliciesWithin, SamePolicy, Selects;
    if IsolatedFor(Egress, policies2, src) {
      IsolatedWithin(policies2, policies1, Egress, src);
      var pol1, rule1 :| pol1 in policies1 && Selects(pol1, src) && Egress in pol1.policyTypes
                         && rule1 in pol1.egress && Admits(pol1.namespace, rule1, dst, p);
      var pol2 := PolicyCounterpart(policies1, policies2, pol1, src);
      var rule2 := Counterpart(false, pol1.egress, pol2.egress, rule1);
      SameRuleAdmits(pol1.namespace, rule1, rule2, dst, p);
    }
  }

  lemma {:induction false} IngressWithin(policies1: seq<Policy>, policies2: seq<Policy>,
                                        src: Endpoint, dst: Endpoint, p: NetpolPort)
    requires PoliciesWithin(policies1, policies2) && PoliciesWithin(policies2, policies1)
    requires IngressAllowed(policies1, src, dst, p)
    ensures IngressAllowed(policies2, src, dst, p)
  {
    hide SameRule, Admits, PoliciesWithin, SamePolicy, Selects;
    if IsolatedFor(Ingress, policies2, dst) {
      IsolatedWithin(policies2, policies1, Ingress, dst);
      var pol1, rule1 :| pol1 in policies1 && Selects(pol1, dst) && Ingress in pol1.policyTypes
                         && rule1 in pol1.ingress && Admits(pol1.namespace, rule1, src, p);
      var pol2 := PolicyCounterpart(policies1, policies2, pol1, dst);
      var rule2 := Counterpart(false, pol1.ingress, pol2.ingress, rule1);
      SameRuleAdmits(pol1.namespace, rule1, rule2, src, p);
    }
  }

  /** The same policies for workloads, up to the order of ports inside their rules, followed
      by the same default-deny policies in some order. */
  ghost predicate Alike(policies1: seq<Policy>, policies2: seq<Policy>) {
    exists k: nat :: && k <= |policies1| && k <= |policies2|
                     && SamePolicies(false, policies1[..k], policies2[..k])
                     && multiset(policies1[k..]) == multiset(policies2[k..])
  }

  lemma SamePoliciesSymmetric(policies1: seq<Policy>, policies2: seq<Policy>)
    requires SamePolicies(false, policies1, policies2)
    ensures SamePolicies(false, policies2, policies1)
  {
    forall i | 0 <= i < |policies1| ensures SamePolicy(false, policies2[i], policies1[i]) {
      SamePolicySymmetric(false, policies1[i], policies2[i]);
    }
  }

  lemma AlikeSymmetric(policies1: seq<Policy>, policies2: seq<Policy>)
    requires Alike(policies1, policies2)
    ensures Alike(policies2, policies1)
  {
    var k: nat :| && k <= |policies1| && k <= |policies2|
                  && SamePolicies(false, policies1[..k], policies2[..k])
                  && multiset(policies1[k..]) == multiset(policies2[k..]);
    SamePoliciesSymmetric(policies1[..k], policies2[..k]);
  }

  lemma {:induction false} AlikeWithin(policies1: seq<Policy>, policies2: seq<Policy>)
    requires Alike(policies1, policies2)
    ensures PoliciesWithin(policies1, policies2)
  {
    hide SamePolicy;
    var k: nat :| && k <= |policies1| && k <= |policies2|
                  && SamePolicies(false, policies1[..k], policies2[..k])
                  && multiset(policies1[k..]) == multiset(policies2[k..]);
    PermutationElements(policies1[k..], policies2[k..]);
    forall pol1 | pol1 in policies1 ensures exists pol2 :: pol2 in policies2 && SamePolicy(false, pol1, pol2) {
      var i :| 0 <= i < |policies1| && policies1[i] == pol1;
      if i < k {
        assert policies1[..k][i] == pol1 && policies2[..k][i] == policies2[i];
        assert policies2[i] in policies2;
      } else {
        assert policies1[k..][i - k] == pol1;
        assert pol1 in policies2[k..];
        SamePolicyReflexive(false, pol1);
      }
    }
  }

  /** Neither the order of policies nor that of ports inside their rules means anything. */
  lemma {:induction false} AlikeAllowAlike(policies1: seq<Policy>, policies2: seq<Policy>,
                                           src: Endpoint, dst: Endpoint, p: NetpolPort)
    requires Alike(policies1, policies2)
    ensures Allows(policies1, src, dst, p) <==> Allows(policies2, src, dst, p)
  {
    hide Alike, PoliciesWithin, EgressAllowed, IngressAllowed;
    AlikeSymmetric(policies1, policies2);
    AlikeWithin(policies1, policies2);
    AlikeWithin(policies2, policies1);
    if Allows(policies1, src, dst, p) {
      EgressWithin(policies1, policies2, src, dst, p);
      IngressWithin(policies1, policies2, src, dst, p);
    }
    if Allows(policies2, src, dst, p) {
      EgressWithin(policies2, policies1, src, dst, p);
      IngressWithin(policies2, policies1, src, dst, p);
    }
  }

  lemma {:induction false} DenyPoliciesDiffer(resources: seq<Resource>)
    ensures NoRepeats(DenyPolicies(resources))
  {
    DedupElements(NamespacesOf(resources));
    assert forall n1, n2 :: DenyPolicy(n1) == DenyPolicy(n2) ==> n1 == n2;
  }

  lemma {:induction false} SameDenyPolicies(resources1: seq<Resource>, resources2: seq<Resource>)
    requires CoversNamespaces(resources1, resources2) && CoversNamespaces(resources2, resources1)
    ensures multiset(DenyPolicies(resources1)) == multiset(DenyPolicies(resources2))
  {
    hide DenyPolicy, DenyPolicies;
    forall pol ensures pol in DenyPolicies(resources1) <==> pol in DenyPolicies(resources2) {
      DenyElements(resources1, pol);
      DenyElements(resources2, pol);
    }
    DenyPoliciesDiffer(resources1);
    DenyPoliciesDiffer(resources2);
    SameElementsPermute(DenyPolicies(resources1), DenyPolicies(resources2));
  }

  /** Connections of the same effects between workloads of the same namespaces. */
  lemma {:induction false} SameEffectsAlike(resources1: seq<Resource>, conns1: seq<Connection>,
                                            resources2: seq<Resource>, conns2: seq<Connection>, dnsPort: IntOrString)
    requires SameEffects(false, conns1, conns2) && OwnersAgree(Owners(conns1), Owners(conns2))
    requires CoversNamespaces(resources1, resources2) && CoversNamespaces(resources2, resources1)
    ensures Alike(Synth(resources1, conns1, dnsPort), Synth(resources2, conns2, dnsPort))
  {
    hide SameEffects, FirstEndsAgree, CoversNamespaces, SamePolicies, PoliciesOf, DenyPolicies, Listing;
    var mine1, mine2 := PoliciesOf(Listing(TableOf(conns1)), dnsPort), PoliciesOf(Listing(TableOf(conns2)), dnsPort);
    SameEffectsSamePolicies(false, conns1, conns2, dnsPort);
    SameLength(mine1, mine2);
    SameDenyPolicies(resources1, resources2);
    var policies1, policies2 := Synth(resources1, conns1, dnsPort), Synth(resources2, conns2, dnsPort);
    var k := |mine1|;
    assert policies1[..k] == mine1 && policies2[..k] == mine2;
    assert policies1[k..] == DenyPolicies(resources1) && policies2[k..] == DenyPolicies(resources2);
  }

  lemma SameLength(policies1: seq<Policy>, policies2: seq<Policy>)
    requires SamePolicies(false, policies1, policies2)
    ensures |policies1| == |policies2|
  {
  }

  lemma {:induction false} SameEffectsNamed(inOrder: bool, conns1: seq<Connection>, conns2: seq<Connection>)
    requires SameEffects(inOrder, conns1, conns2)
    ensures NamedTargets(conns1) <==> NamedTargets(conns2)
  {
    hide PortsOf;
    forall c1, c2 | SameEffect(inOrder, c1, c2) ensures NamedTarget(c1) <==> NamedTarget(c2) {
      if !inOrder {
        PermutationElements(PortsOf(c1), PortsOf(c2));
      }
    }
  }
}
