/** When the order of manifests matters: policies depend on it exactly if two of the connections
    that can come first disagree about which workload bears a name. */
module ManifestOrder {
  import opened Model
  import opened Netpol
  import opened Sequences
  import opened Ordering
  import opened Selectors
  import opened AddressExtraction
  import opened Exposure
  import opened Inlining
  import opened ManifestSpec
  import opened Accumulator
  import opened SynthSpec
  import opened SynthTable
  import opened SynthTheorems
  import opened OrderTheorems
  import opened DiscoverySpec
  import opened RunTheorems
  import opened Declarations
  import Run = RunSpec

  // ----- the connections that can come first -----

  /** A source-less connection follows the sourced ones through the same Service to the same target. */
  predicate Leads(resources: seq<Resource>, c: Connection) {
    c.source.None? ==> forall r :: r in resources && References(r, c.link) ==> r.Equals(c.target)
  }

  function Leaders(resources: seq<Resource>, conns: seq<Connection>): seq<Connection> {
    if conns == [] then []
    else
      var last := conns[|conns| - 1];
      Leaders(resources, conns[..|conns| - 1]) + (if Leads(resources, last) then [last] else [])
  }

  lemma {:induction false} LeadersElements(resources: seq<Resource>, conns: seq<Connection>, c: Connection)
    ensures c in Leaders(resources, conns) <==> c in conns && Leads(resources, c)
  {
    hide Leads;
    if conns != [] {
      var init, last := conns[..|conns| - 1], conns[|conns| - 1];
      assert conns == init + [last];
      LeadersElements(resources, init, c);
    }
  }

  /** Whoever is mentioned first under a name is so by a leader. */
  ghost predicate Led(resources: seq<Resource>, conns: seq<Connection>) {
    forall n :: n != "" && FirstNamed(Mentions(conns), n).Some? ==>
      exists c :: c in conns && Leads(resources, c)
                  && FirstNamed(MentionsOf(c), n) == FirstNamed(Mentions(conns), n)
  }

  lemma {:induction false} LedAppend(resources: seq<Resource>, a: seq<Connection>, b: seq<Connection>)
    requires Led(resources, a) && Led(resources, b)
    ensures Led(resources, a + b)
  {
    hide Leads, Mentions, MentionsOf;
    forall n | n != "" && FirstNamed(Mentions(a + b), n).Some?
      ensures exists c :: c in a + b && Leads(resources, c)
                          && FirstNamed(MentionsOf(c), n) == FirstNamed(Mentions(a + b), n)
    {
      MentionsAppend(a, b);
      FirstNamedAppend(Mentions(a), Mentions(b), n);
      var part := if FirstNamed(Mentions(a), n).Some? then a else b;
      var c :| c in part && Leads(resources, c) && FirstNamed(MentionsOf(c), n) == FirstNamed(Mentions(part), n);
      assert c in a + b;
    }
  }

  lemma {:induction false} LeadersLead(resources: seq<Resource>, conns: seq<Connection>)
    requires forall c :: c in conns ==> Leads(resources, c)
    ensures Led(resources, conns)
  {
    hide Leads, Mentions, MentionsOf;
    forall n | n != "" && FirstNamed(Mentions(conns), n).Some?
      ensures exists c :: c in conns && Leads(resources, c)
                          && FirstNamed(MentionsOf(c), n) == FirstNamed(Mentions(conns), n)
    {
      var c := FirstMentionIsFirstEnd(conns, n);
    }
  }

  /** A connection whose target is mentioned before adds no first mention. */
  lemma {:induction false} LedBehind(resources: seq<Resource>, a: seq<Connection>, d: Resource, svc: Service)
    requires Led(resources, a) && exists c :: c in a && c.target == d
    ensures Led(resources, a + [Connection(None, d, svc)])
  {
    hide Leads, Mentions;
    var b := [Connection(None, d, svc)];
    forall n | n != "" && FirstNamed(Mentions(a + b), n).Some?
      ensures exists c :: c in a + b && Leads(resources, c)
                          && FirstNamed(MentionsOf(c), n) == FirstNamed(Mentions(a + b), n)
    {
      MentionsAppend(a, b);
      MentionsSnoc([], b[0]);
      NoMentions();
      assert [] + b == b;
      FirstNamedAppend(Mentions(a), Mentions(b), n);
      if FirstNamed(Mentions(a), n).None? {
        var c :| c in a && c.target == d;
        MentionsElements(a, d);
        assert IsEnd(c, d);
        FirstNamedIsElement(Mentions(a), n);
        FirstNamedIsElement(Mentions(b), n);
      }
      var c :| c in a && Leads(resources, c) && FirstNamed(MentionsOf(c), n) == FirstNamed(Mentions(a), n);
      assert c in a + b;
    }
  }

  lemma NoMentions()
    ensures Mentions([]) == []
  {
  }

  lemma {:induction false} SourcedReaches(resources: seq<Resource>, d: Resource, svc: Service, r: Resource)
    requires r in resources && References(r, svc) && Distinct(r, d)
    ensures exists c :: c in FromSources(SourcesOf(resources, svc), d, svc) && c.target == d
  {
    hide References, AsSource, FromSources, SourcesOf;
    SourcesOfElements(resources, svc, AsSource(r, svc));
    EqualsAsSource(r, d, svc);
    FromSourcesElements(SourcesOf(resources, svc), d, svc, Connection(Some(AsSource(r, svc)), d, svc));
  }

  lemma {:induction false} ViaServiceLed(resources: seq<Resource>, d: Resource, svc: Service)
    ensures Led(resources, ViaService(resources, d, svc))
  {
    hide References, AsSource, FromSources, SourcesOf, HasExposedPorts, Led;
    var sources := SourcesOf(resources, svc);
    var sourced := FromSources(sources, d, svc);
    forall c | c in sourced ensures Leads(resources, c) {
      FromSourcesElements(sources, d, svc, c);
    }
    LeadersLead(resources, sourced);
    var last := Connection(None, d, svc);
    assert sourced + [] == sourced;
    if Leads(resources, last) {
      LeadersLead(resources, [last]);
      LedAppend(resources, sourced, [last]);
    } else {
      var r :| r in resources && References(r, svc) && Distinct(r, d);
      SourcedReaches(resources, d, svc, r);
      LedBehind(resources, sourced, d, svc);
    }
  }

  lemma EqualsAsSource(r: Resource, d: Resource, svc: Service)
    ensures AsSource(r, svc).Equals(d) <==> r.Equals(d)
  {
  }

  lemma {:induction false} ViaServicesLed(resources: seq<Resource>, d: Resource, svcs: seq<Service>)
    ensures Led(resources, ViaServices(resources, d, svcs))
  {
    hide Led, ViaService;
    if svcs == [] {
      LeadersLead(resources, []);
    } else {
      ViaServicesLed(resources, d, svcs[..|svcs| - 1]);
      ViaServiceLed(resources, d, svcs[|svcs| - 1]);
      LedAppend(resources, ViaServices(resources, d, svcs[..|svcs| - 1]),
                ViaService(resources, d, svcs[|svcs| - 1]));
    }
  }

  lemma {:induction false} ToTargetsLed(resources: seq<Resource>, targets: seq<Resource>, links: seq<Service>)
    ensures Led(resources, ToTargets(resources, targets, links))
  {
    hide Led, ViaServices;
    if targets == [] {
      LeadersLead(resources, []);
    } else {
      var last := targets[|targets| - 1];
      ToTargetsLed(resources, targets[..|targets| - 1], links);
      ViaServicesLed(resources, last, ServicesOf(last, links));
      LedAppend(resources, ToTargets(resources, targets[..|targets| - 1], links),
                ViaServices(resources, last, ServicesOf(last, links)));
    }
  }

  /** The leaders decide whom each name belongs to. */
  lemma {:induction false} LeadersDecide(resources: seq<Resource>, links: seq<Service>)
    ensures Decisive(Leaders(resources, Discover(resources, links)), Discover(resources, links))
  {
    hide Leads, Leaders, Mentions, MentionsOf, Owners;
    var conns := Discover(resources, links);
    ToTargetsLed(resources, resources, links);
    forall c ensures c in Leaders(resources, conns) <==> c in conns && Leads(resources, c) {
      LeadersElements(resources, conns, c);
    }
    forall n | n in Owners(conns)
      ensures n != "" && exists c :: c in Leaders(resources, conns)
                                     && FirstNamed(MentionsOf(c), n) == Some(Owners(conns)[n])
    {
      OwnerIsFirstMention(conns, n);
      var c :| c in conns && Leads(resources, c) && FirstNamed(MentionsOf(c), n) == FirstNamed(Mentions(conns), n);
    }
  }

  // ----- order does not matter if leaders agree -----

  lemma {:induction false} SourcelessLeads(rs1: seq<Resource>, rs2: seq<Resource>, d1: Resource, d2: Resource,
                                           svc: Service)
    requires AllFoundIn(rs2, rs1) && SameButOrder(d1, d2) && Leads(rs1, Connection(None, d1, svc))
    ensures Leads(rs2, Connection(None, d2, svc))
  {
    hide References;
    forall r2 | r2 in rs2 && References(r2, svc) ensures r2.Equals(d2) {
      var r1 :| r1 in rs1 && SameButOrder(r2, r1);
      SameReferences(r2, r1, svc);
    }
  }

  /** Every leader found with one list is found, with the same effect, with the other. */
  lemma {:induction false} SameLeaders(rs1: seq<Resource>, rs2: seq<Resource>, links1: seq<Service>,
                                       links2: seq<Service>)
    requires AllFoundIn(rs1, rs2) && AllFoundIn(rs2, rs1)
    requires forall svc :: svc in links1 ==> svc in links2
    ensures EffectsWithin(false, Leaders(rs1, Discover(rs1, links1)), Leaders(rs2, Discover(rs2, links2)))
  {
    hide Discover, SameEffect, References, Fronts, HasExposedPorts, AllFoundIn, AsSource, Leaders, SameButOrder;
    var conns1, conns2 := Discover(rs1, links1), Discover(rs2, links2);
    forall c1 | c1 in Leaders(rs1, conns1)
      ensures exists c2 :: c2 in Leaders(rs2, conns2) && SameEffect(false, c1, c2)
    {
      LeadersElements(rs1, conns1, c1);
      DiscoveryIsAJoin(rs1, links1, c1);
      var c2;
      if c1.source.Some? {
        var r1 :| r1 in rs1 && References(r1, c1.link) && Distinct(r1, c1.target)
            && c1.source.value == AsSource(r1, c1.link);
        c2 := SourcedIsFound(rs1, rs2, links2, c1, r1);
      } else {
        c2 := SourcelessIsFound(rs1, rs2, links2, c1.target, c1.link);
        assert c1 == Connection(None, c1.target, c1.link);
        SourcelessLeads(rs1, rs2, c1.target, c2.target, c1.link);
      }
      DiscoveryIsAJoin(rs2, links2, c2);
      LeadersElements(rs2, conns2, c2);
    }
  }

  function LeadersOf(f: Run.Findings): seq<Connection> {
    Leaders(f.resources, f.connections)
  }

  lemma {:induction false} SameRunLeaders(lib: Lib, infos1: seq<Info>, infos2: seq<Info>,
                                          f1: Run.Findings, f2: Run.Findings)
    requires SameObjects(infos1, infos2)
    requires ByName(ConfigMapsIn(infos1)) == ByName(ConfigMapsIn(infos2))
    requires Run.FindingsOf(lib, infos1, f1) && Run.FindingsOf(lib, infos2, f2)
    ensures EffectsWithin(false, LeadersOf(f1), LeadersOf(f2))
  {
    hide WorkloadsIn, InlinedAll, Discover, AnalysedServices, SameObjects, ByName, ConfigMapsIn, Leaders;
    hide EffectsWithin, AllFoundIn;
    SameRunEffects(lib, infos1, infos2, f1, f2);
    SameObjectsIsSymmetric(infos1, infos2);
    SameRunEffects(lib, infos2, infos1, f2, f1);
    SameServices(infos1, infos2);
    SameLeaders(f1.resources, f2.resources, AnalysedServices(infos1), AnalysedServices(infos2));
  }

  lemma {:induction false} RunLeadersDecide(lib: Lib, infos: seq<Info>, f: Run.Findings)
    requires Run.FindingsOf(lib, infos, f)
    ensures Decisive(LeadersOf(f), f.connections)
  {
    hide WorkloadsIn, InlinedAll, Discover, AnalysedServices, Leaders, Decisive;
    LeadersDecide(f.resources, AnalysedServices(infos));
  }

  /** Runs over the same objects, listed in any order and any number of times. */
  ghost predicate SameInput(lib: Lib, infos1: seq<Info>, f1: Run.Findings, infos2: seq<Info>, f2: Run.Findings) {
    && SameObjects(infos1, infos2) && ByName(ConfigMapsIn(infos1)) == ByName(ConfigMapsIn(infos2))
    && Run.FindingsOf(lib, infos1, f1) && Run.FindingsOf(lib, infos2, f2)
  }

  lemma {:induction false} SameRunOwners(lib: Lib, infos1: seq<Info>, infos2: seq<Info>,
                                         f1: Run.Findings, f2: Run.Findings)
    requires SameInput(lib, infos1, f1, infos2, f2) && FirstEndsAgree(LeadersOf(f1))
    ensures OwnersAgree(Owners(f1.connections), Owners(f2.connections))
    ensures SameEffects(false, f1.connections, f2.connections)
    ensures CoversNamespaces(f1.resources, f2.resources) && CoversNamespaces(f2.resources, f1.resources)
  {
    hide SameObjects, ByName, ConfigMapsIn, Run.FindingsOf, EffectsWithin, AllFoundIn, FirstEndsAgree, LeadersOf;
    hide Decisive, OwnersAgree, CoversNamespaces;
    SameObjectsIsSymmetric(infos1, infos2);
    SameRunEffects(lib, infos1, infos2, f1, f2);
    SameRunEffects(lib, infos2, infos1, f2, f1);
    FoundCoverNamespaces(f1.resources, f2.resources);
    FoundCoverNamespaces(f2.resources, f1.resources);
    SameRunLeaders(lib, infos1, infos2, f1, f2);
    SameRunLeaders(lib, infos2, infos1, f2, f1);
    RunLeadersDecide(lib, infos1, f1);
    RunLeadersDecide(lib, infos2, f2);
    EffectsGiveOwners(false, LeadersOf(f1), f1.connections, LeadersOf(f2), f2.connections);
  }

  /** Two runs over the same objects, listed in any order and any number of times, and reading
      ConfigMaps in any order, crash both or neither, and emit the same policies, up to the order of
      ports inside rules and the order of default-deny policies. They allow exactly the same traffic. */
  lemma {:induction false} ManifestOrderIsIrrelevant(lib: Lib, infos1: seq<Info>, infos2: seq<Info>,
                                                     f1: Run.Findings, f2: Run.Findings, dnsPort: IntOrString)
    requires SameObjects(infos1, infos2)
    requires ByName(ConfigMapsIn(infos1)) == ByName(ConfigMapsIn(infos2))
    requires Run.FindingsOf(lib, infos1, f1) && Run.FindingsOf(lib, infos2, f2)
    requires FirstEndsAgree(LeadersOf(f1))
    ensures NamedTargets(f1.connections) <==> NamedTargets(f2.connections)
    ensures Alike(Synth(f1.resources, f1.connections, dnsPort), Synth(f2.resources, f2.connections, dnsPort))
    ensures forall src, dst, p :: Allows(Synth(f1.resources, f1.connections, dnsPort), src, dst, p)
                                  <==> Allows(Synth(f2.resources, f2.connections, dnsPort), src, dst, p)
  {
    hide SameObjects, ByName, ConfigMapsIn, Run.FindingsOf, SameEffects, FirstEndsAgree, NamedTargets, LeadersOf;
    hide Alike, Allows, Synth, CoversNamespaces, OwnersAgree;
    SameRunOwners(lib, infos1, infos2, f1, f2);
    SameEffectsNamed(false, f1.connections, f2.connections);
    SameEffectsAlike(f1.resources, f1.connections, f2.resources, f2.connections, dnsPort);
    var policies1 := Synth(f1.resources, f1.connections, dnsPort);
    var policies2 := Synth(f2.resources, f2.connections, dnsPort);
    forall src, dst, p ensures Allows(policies1, src, dst, p) <==> Allows(policies2, src, dst, p) {
      AlikeAllowAlike(policies1, policies2, src, dst, p);
    }
  }

  lemma {:induction false} LeadersAgreeToo(lib: Lib, infos: seq<Info>, f: Run.Findings)
    requires Run.FindingsOf(lib, infos, f) && FirstEndsAgree(f.connections)
    ensures FirstEndsAgree(LeadersOf(f))
  {
    hide MentionsOf, SameWorkload, Run.FindingsOf;
    forall c ensures c in LeadersOf(f) ==> c in f.connections {
      LeadersElements(f.resources, f.connections, c);
    }
  }

  // ----- and only then -----

  lemma {:induction false} InfosAppend(a: seq<Info>, b: seq<Info>)
    ensures WorkloadsIn(a + b) == WorkloadsIn(a) + WorkloadsIn(b)
    ensures ServicesIn(a + b) == ServicesIn(a) + ServicesIn(b)
    ensures ConfigMapsIn(a + b) == ConfigMapsIn(a) + ConfigMapsIn(b)
  {
    hide WorkloadOf, ServiceOf, ConfigMapOf;
    if b == [] {
      assert a + b == a;
    } else {
      var init, last := b[..|b| - 1], b[|b| - 1];
      InfosAppend(a, init);
      InOneMore(b);
      InOneMore(a + b);
      assert (a + b)[..|a + b| - 1] == a + init && (a + b)[|a + b| - 1] == last;
      hide WorkloadsIn, ServicesIn, ConfigMapsIn;
      assert WorkloadsIn(a + b) == WorkloadsIn(a) + WorkloadsIn(init) + WorkloadOf(last);
      assert ServicesIn(a + b) == ServicesIn(a) + ServicesIn(init) + ServiceOf(last);
      assert ConfigMapsIn(a + b) == ConfigMapsIn(a) + ConfigMapsIn(init) + ConfigMapOf(last);
    }
  }

  lemma InOneMore(infos: seq<Info>)
    requires infos != []
    ensures var n := |infos| - 1;
            && WorkloadsIn(infos) == WorkloadsIn(infos[..n]) + WorkloadOf(infos[n])
            && ServicesIn(infos) == ServicesIn(infos[..n]) + ServiceOf(infos[n])
            && ConfigMapsIn(infos) == ConfigMapsIn(infos[..n]) + ConfigMapOf(infos[n])
  {
  }

  lemma {:induction false} OneInfo(info: Info)
    ensures WorkloadsIn([info]) == WorkloadOf(info) && ServicesIn([info]) == ServiceOf(info)
    ensures ConfigMapsIn([info]) == ConfigMapOf(info)
  {
    assert [info][..0] == [];
    assert WorkloadsIn([]) == [] && ServicesIn([]) == [] && ConfigMapsIn([]) == [];
  }

  lemma FrontAndRest(infos: seq<Info>, i: nat)
    requires i < |infos|
    ensures infos == infos[..i] + ([infos[i]] + infos[i + 1..])
    ensures ToFront(infos, i) == [infos[i]] + (infos[..i] + infos[i + 1..])
    ensures multiset(ToFront(infos, i)) == multiset(infos)
    ensures i > 0 ==> ToFront(infos, i)[1..] == [infos[0]] + ToFront(infos, i)[2..]
  {
    ToFrontPermutes(infos, i);
  }

  /** Moving an object that is no ConfigMap to the front. */
  lemma {:induction false} MovedToFront(infos: seq<Info>, i: nat)
    requires i < |infos| && !infos[i].ConfigMapInfo?
    ensures var moved := ToFront(infos, i);
            && multiset(moved) == multiset(infos)
            && ConfigMapsIn(moved) == ConfigMapsIn(infos)
            && (!infos[i].ServiceInfo? ==> ServicesIn(moved) == ServicesIn(infos))
            && WorkloadsIn(moved) == WorkloadOf(infos[i]) + WorkloadsIn(infos[..i] + infos[i + 1..])
            && ServicesIn(moved) == ServiceOf(infos[i]) + ServicesIn(infos[..i] + infos[i + 1..])
  {
    hide WorkloadsIn, ServicesIn, ConfigMapsIn, ToFront;
    var left, middle, right := infos[..i], [infos[i]], infos[i + 1..];
    FrontAndRest(infos, i);
    OneInfo(infos[i]);
    InfosAppend(left, middle + right);
    InfosAppend(middle, right);
    InfosAppend(left, right);
    InfosAppend(middle, left + right);
    assert ConfigMapsIn(left) + ([] + ConfigMapsIn(right)) == [] + (ConfigMapsIn(left) + ConfigMapsIn(right));
    if !infos[i].ServiceInfo? {
      assert ServicesIn(left) + ([] + ServicesIn(right)) == [] + (ServicesIn(left) + ServicesIn(right));
    }
  }

  /** The objects with a Service, and then one or two workloads, moved to the front. */
  lemma {:induction false} ServiceAndTargetFirst(infos: seq<Info>, svc: Service, d: Resource) returns (moved: seq<Info>)
    requires ServiceInfo(svc) in infos && WorkloadInfo(d) in infos
    ensures multiset(moved) == multiset(infos) && ConfigMapsIn(moved) == ConfigMapsIn(infos)
    ensures WorkloadsIn(moved) != [] && WorkloadsIn(moved)[0] == d
    ensures ServicesIn(moved) != [] && ServicesIn(moved)[0] == svc
  {
    hide WorkloadsIn, ServicesIn, ConfigMapsIn, ToFront;
    var k :| 0 <= k < |infos| && infos[k] == ServiceInfo(svc);
    MovedToFront(infos, k);
    var one := ToFront(infos, k);
    PermutationElements(one, infos);
    var j :| 0 <= j < |one| && one[j] == WorkloadInfo(d);
    MovedToFront(one, j);
    moved := ToFront(one, j);
  }

  lemma {:induction false} WorkloadMovedToFront(infos: seq<Info>, w: Resource) returns (moved: seq<Info>)
    requires WorkloadInfo(w) in infos
    ensures multiset(moved) == multiset(infos) && ConfigMapsIn(moved) == ConfigMapsIn(infos)
    ensures ServicesIn(moved) == ServicesIn(infos)
    ensures moved != [] && moved[0] == WorkloadInfo(w)
    ensures infos[0] != WorkloadInfo(w) ==> moved[1..] != [] && moved[1] == infos[0]
  {
    hide WorkloadsIn, ServicesIn, ConfigMapsIn, ToFront;
    var i :| 0 <= i < |infos| && infos[i] == WorkloadInfo(w);
    MovedToFront(infos, i);
    FrontAndRest(infos, i);
    moved := ToFront(infos, i);
    if i > 0 {
      assert moved[1..][0] == infos[0];
    }
  }

  lemma {:induction false} FirstTwoWorkloads(infos: seq<Info>, d: Resource, r: Resource)
    requires |infos| >= 2 && infos[0] == WorkloadInfo(d) && infos[1] == WorkloadInfo(r)
    ensures |WorkloadsIn(infos)| >= 2 && WorkloadsIn(infos)[0] == d && WorkloadsIn(infos)[1] == r
  {
    hide WorkloadsIn, ServicesIn, ConfigMapsIn;
    assert infos == [infos[0]] + ([infos[1]] + infos[2..]);
    OneInfo(infos[0]);
    OneInfo(infos[1]);
    InfosAppend([infos[1]], infos[2..]);
    InfosAppend([infos[0]], [infos[1]] + infos[2..]);
  }

  lemma {:induction false} LinkFirst(infos: seq<Info>, svc: Service, d: Resource, r: Resource)
    returns (moved: seq<Info>)
    requires ServiceInfo(svc) in infos && WorkloadInfo(d) in infos && WorkloadInfo(r) in infos && r != d
    ensures multiset(moved) == multiset(infos) && ConfigMapsIn(moved) == ConfigMapsIn(infos)
    ensures |WorkloadsIn(moved)| >= 2 && WorkloadsIn(moved)[0] == d && WorkloadsIn(moved)[1] == r
    ensures ServicesIn(moved) != [] && ServicesIn(moved)[0] == svc
  {
    hide WorkloadsIn, ServicesIn, ConfigMapsIn;
    var two := ServiceAndTargetFirst(infos, svc, r);
    PermutationElements(two, infos);
    var three := WorkloadMovedToFront(two, r);
    PermutationElements(three, infos);
    moved := WorkloadMovedToFront(three, d);
    FirstTwoWorkloads(moved, d, r);
  }

  // ----- the first connection -----

  lemma {:induction false} FirstService(d: Resource, links: seq<Service>)
    requires links != [] && Fronts(links[0], d)
    ensures ServicesOf(d, links) != [] && ServicesOf(d, links)[0] == links[0]
  {
    if |links| == 1 {
      assert links[..0] == [];
      assert ServicesOf(d, []) == [];
    } else {
      assert links[..|links| - 1][0] == links[0];
      FirstService(d, links[..|links| - 1]);
    }
  }

  lemma {:induction false} FirstVia(rs: seq<Resource>, d: Resource, svcs: seq<Service>)
    requires svcs != [] && ViaService(rs, d, svcs[0]) != []
    ensures ViaServices(rs, d, svcs) != [] && ViaServices(rs, d, svcs)[0] == ViaService(rs, d, svcs[0])[0]
  {
    hide ViaService;
    if |svcs| == 1 {
      assert svcs[..0] == [];
      assert ViaServices(rs, d, []) == [];
    } else {
      assert svcs[..|svcs| - 1][0] == svcs[0];
      FirstVia(rs, d, svcs[..|svcs| - 1]);
    }
  }

  lemma {:induction false} FirstTarget(rs: seq<Resource>, targets: seq<Resource>, links: seq<Service>)
    requires targets != [] && ViaServices(rs, targets[0], ServicesOf(targets[0], links)) != []
    ensures ToTargets(rs, targets, links) != []
    ensures ToTargets(rs, targets, links)[0] == ViaServices(rs, targets[0], ServicesOf(targets[0], links))[0]
  {
    hide ViaServices, ServicesOf;
    if |targets| == 1 {
      assert targets[..0] == [];
      assert ToTargets(rs, [], links) == [];
    } else {
      assert targets[..|targets| - 1][0] == targets[0];
      FirstTarget(rs, targets[..|targets| - 1], links);
    }
  }

  /** The first connection goes to the first workload, through the first Service. */
  lemma {:induction false} FirstFound(rs: seq<Resource>, links: seq<Service>)
    requires rs != [] && links != [] && Fronts(links[0], rs[0]) && ViaService(rs, rs[0], links[0]) != []
    ensures Discover(rs, links) != [] && Discover(rs, links)[0] == ViaService(rs, rs[0], links[0])[0]
  {
    hide ViaService, ViaServices, ServicesOf, ToTargets;
    FirstService(rs[0], links);
    FirstVia(rs, rs[0], ServicesOf(rs[0], links));
    FirstTarget(rs, rs, links);
  }

  /** Of the sources, the second workload comes first, unless the target is among them. */
  lemma {:induction false} FirstSource(rs: seq<Resource>, d: Resource, svc: Service)
    requires |rs| >= 2 && rs[0].Equals(d) && References(rs[1], svc) && Distinct(rs[1], d)
    ensures var sourced := FromSources(SourcesOf(rs, svc), d, svc);
            sourced != [] && sourced[0] == Connection(Some(AsSource(rs[1], svc)), d, svc)
  {
    hide References, AsSource, FromSources;
    var init, last := rs[..|rs| - 1], rs[|rs| - 1];
    FromSourcesSnoc(SourcesOf(init, svc), AsSource(last, svc), d, svc);
    EqualsAsSource(last, d, svc);
    assert SourcesOf(init, svc) + [] == SourcesOf(init, svc);
    if |rs| == 2 {
      assert init == [rs[0]] && init[..0] == [];
      assert SourcesOf([], svc) == [];
      EqualsAsSource(rs[0], d, svc);
      FromSourcesSnoc([], AsSource(rs[0], svc), d, svc);
      assert [] + [AsSource(rs[0], svc)] == [AsSource(rs[0], svc)];
      NothingFrom(d, svc);
    } else {
      FirstSource(init, d, svc);
    }
  }

  /** If only the target itself refers to its Service, there is no sourced connection. */
  lemma {:induction false} NoOtherSource(rs: seq<Resource>, d: Resource, svc: Service)
    requires forall r :: r in rs && References(r, svc) ==> r.Equals(d)
    ensures FromSources(SourcesOf(rs, svc), d, svc) == []
  {
    hide References, AsSource, FromSources, SourcesOf;
    var sourced := FromSources(SourcesOf(rs, svc), d, svc);
    if sourced != [] {
      FromSourcesElements(SourcesOf(rs, svc), d, svc, sourced[0]);
      var s :| s in SourcesOf(rs, svc) && !s.Equals(d);
      SourcesOfElements(rs, svc, s);
      var r :| r in rs && References(r, svc) && s == AsSource(r, svc);
      EqualsAsSource(r, d, svc);
    }
  }

  // ----- any leader can come first -----

  /** The objects in another order, with the same ConfigMaps in effect. */
  ghost predicate Reordered(infos1: seq<Info>, infos2: seq<Info>) {
    multiset(infos1) == multiset(infos2) && ByName(ConfigMapsIn(infos1)) == ByName(ConfigMapsIn(infos2))
  }

  /** Findings in which the given connection, or one of the same effect, comes first. */
  ghost predicate ComesFirst(c: Connection, g: Run.Findings) {
    g.connections != [] && SameEffect(false, c, g.connections[0])
  }

  lemma {:induction false} FirstAnalysed(lib: Lib, infos: seq<Info>, g: Run.Findings, svc: Service, i: nat)
    requires Run.FindingsOf(lib, infos, g) && i < |WorkloadsIn(infos)|
    requires ServicesIn(infos) != [] && ServicesIn(infos)[0] == svc
    ensures |g.resources| == |WorkloadsIn(infos)|
    ensures Inlined(lib, ByName(ConfigMapsIn(infos)), WorkloadsIn(infos)[i], g.resources[i])
    ensures AnalysedServices(infos) != [] && AnalysedServices(infos)[0] == AnalysedService(infos, svc)
  {
    hide WorkloadsIn, ServicesIn, InlinedAll, Inlined, Discover, ByName, ConfigMapsIn;
    InlinedEach(lib, ByName(ConfigMapsIn(infos)), WorkloadsIn(infos), g.resources);
  }

  lemma {:induction false} SameAnalysed(infos1: seq<Info>, infos2: seq<Info>, svc: Service)
    requires SameObjects(infos1, infos2)
    ensures AnalysedService(infos1, svc) == AnalysedService(infos2, svc)
  {
    hide ExposureIn, ExposedService, ExposedBy, Has;
    forall e ensures Has(ExposureIn(infos1), e) <==> Has(ExposureIn(infos2), e) {
      SameExposures(infos1, infos2, e);
      ExposureElements(infos1, e);
      ExposureElements(infos2, e);
    }
    ExposureDependsOnMembership(svc, ExposureIn(infos1), ExposureIn(infos2));
  }

  lemma {:induction false} SourcedComesFirst(lib: Lib, infos: seq<Info>, f: Run.Findings, c: Connection)
    returns (moved: seq<Info>, g: Run.Findings)
    requires Run.FindingsOf(lib, infos, f) && c in f.connections && c.source.Some?
    ensures Reordered(moved, infos) && Run.FindingsOf(lib, moved, g) && ComesFirst(c, g)
  {
    hide WorkloadsIn, ServicesIn, InlinedAll, Inlined, Discover, ByName, ConfigMapsIn, AnalysedServices;
    hide AnalysedService, References, AsSource, SameEffect, Fronts, Run.FindingsOf, SameButOrder;
    var cms := ByName(ConfigMapsIn(infos));
    RunIs(lib, infos, f);
    DiscoveryIsAJoin(f.resources, AnalysedServices(infos), c);
    var x :| x in f.resources && References(x, c.link) && Distinct(x, c.target)
        && c.source.value == AsSource(x, c.link);
    var r := DeclaredOf(lib, infos, cms, f.resources, x);
    var d := DeclaredOf(lib, infos, cms, f.resources, c.target);
    AnalysedServicesElements(infos, c.link);
    var svc :| ServiceInfo(svc) in infos && c.link == AnalysedService(infos, svc);
    InlinedKeeps(lib, cms, r, x);
    InlinedKeeps(lib, cms, d, c.target);
    moved := LinkFirst(infos, svc, d, r);
    g := SomeFindings(lib, moved);
    FirstAnalysed(lib, moved, g, svc, 0);
    FirstAnalysed(lib, moved, g, svc, 1);
    PermutationElements(moved, infos);
    SameAnalysed(moved, infos, svc);
    InlinedAlike(lib, cms, d, c.target, g.resources[0]);
    InlinedAlike(lib, cms, r, x, g.resources[1]);
    InlinedKeeps(lib, cms, r, g.resources[1]);
    InlinedKeeps(lib, cms, d, g.resources[0]);
    RunIs(lib, moved, g);
    LinkComesFirst(x, c.target, g.resources, AnalysedServices(moved), c.link);
    assert c == Connection(Some(AsSource(x, c.link)), c.target, c.link);
  }

  lemma RunIs(lib: Lib, infos: seq<Info>, f: Run.Findings)
    requires Run.FindingsOf(lib, infos, f)
    ensures InlinedAll(lib, ByName(ConfigMapsIn(infos)), WorkloadsIn(infos), f.resources)
    ensures f.connections == Discover(f.resources, AnalysedServices(infos))
  {
  }

  lemma {:induction false} LinkComesFirst(x: Resource, target: Resource, rs: seq<Resource>, links: seq<Service>,
                                          svc: Service)
    requires |rs| >= 2 && links != [] && links[0] == svc && Fronts(svc, target)
    requires SameButOrder(target, rs[0]) && SameButOrder(x, rs[1])
    requires References(x, svc) && Distinct(x, target)
    ensures Discover(rs, links) != []
    ensures SameEffect(false, Connection(Some(AsSource(x, svc)), target, svc), Discover(rs, links)[0])
  {
    hide References, AsSource, SameEffect, Discover, Contained;
    SameReferences(x, rs[1], svc);
    FirstSource(rs, rs[0], svc);
    FirstFound(rs, links);
    SourcedAlike(x, rs[1], target, rs[0], svc);
  }

  lemma {:induction false} TargetComesFirst(rs1: seq<Resource>, target: Resource, rs: seq<Resource>,
                                            links: seq<Service>, svc: Service)
    requires rs != [] && links != [] && links[0] == svc && Fronts(svc, target) && SameButOrder(target, rs[0])
    requires AllFoundIn(rs, rs1) && Leads(rs1, Connection(None, target, svc))
    requires HasExposedPorts(svc) || forall r :: r in rs1 ==> !References(r, svc)
    ensures Discover(rs, links) != []
    ensures SameEffect(false, Connection(None, target, svc), Discover(rs, links)[0])
  {
    hide References, AsSource, SameEffect, Discover, Contained, HasExposedPorts, AllFoundIn, FromSources, SourcesOf;
    SourcelessLeads(rs1, rs, target, rs[0], svc);
    NoOtherSource(rs, rs[0], svc);
    if !HasExposedPorts(svc) {
      UnreferencedIn(rs1, rs, svc);
      NoSources(rs, svc);
    }
    assert ViaService(rs, rs[0], svc) == [Connection(None, rs[0], svc)];
    FirstFound(rs, links);
    SourcelessAlike(target, rs[0], svc);
  }

  lemma {:induction false} SourcelessComesFirst(lib: Lib, infos: seq<Info>, f: Run.Findings, c: Connection)
    returns (moved: seq<Info>, g: Run.Findings)
    requires Run.FindingsOf(lib, infos, f) && c in f.connections && c.source.None? && Leads(f.resources, c)
    ensures Reordered(moved, infos) && Run.FindingsOf(lib, moved, g) && ComesFirst(c, g)
  {
    hide WorkloadsIn, ServicesIn, InlinedAll, Inlined, Discover, ByName, ConfigMapsIn, AnalysedServices;
    hide AnalysedService, References, SameEffect, Fronts, Run.FindingsOf, SameButOrder, AllFoundIn, EffectsWithin;
    hide Leads;
    var cms := ByName(ConfigMapsIn(infos));
    RunIs(lib, infos, f);
    DiscoveryIsAJoin(f.resources, AnalysedServices(infos), c);
    var d := DeclaredOf(lib, infos, cms, f.resources, c.target);
    AnalysedServicesElements(infos, c.link);
    var svc :| ServiceInfo(svc) in infos && c.link == AnalysedService(infos, svc);
    moved := ServiceAndTargetFirst(infos, svc, d);
    g := SomeFindings(lib, moved);
    FirstAnalysed(lib, moved, g, svc, 0);
    PermutationElements(moved, infos);
    SameAnalysed(moved, infos, svc);
    InlinedAlike(lib, cms, d, c.target, g.resources[0]);
    SameRunEffects(lib, moved, infos, g, f);
    RunIs(lib, moved, g);
    assert c == Connection(None, c.target, c.link);
    TargetComesFirst(f.resources, c.target, g.resources, AnalysedServices(moved), c.link);
  }

  /** Every leader comes first for some order of the manifests. */
  lemma {:induction false} LeaderComesFirst(lib: Lib, infos: seq<Info>, f: Run.Findings, c: Connection)
    returns (moved: seq<Info>, g: Run.Findings)
    requires Run.FindingsOf(lib, infos, f) && c in LeadersOf(f)
    ensures Reordered(moved, infos) && Run.FindingsOf(lib, moved, g) && ComesFirst(c, g)
  {
    hide Run.FindingsOf, Leads, ComesFirst, Reordered;
    LeadersElements(f.resources, f.connections, c);
    if c.source.Some? {
      moved, g := SourcedComesFirst(lib, infos, f, c);
    } else {
      moved, g := SourcelessComesFirst(lib, infos, f, c);
    }
  }

  // ----- the theorem -----

  /** The policies of two runs: the workloads' one by one, up to the order of ports, and the
      default-deny ones in any order. */
  ghost predicate RunsAlike(f1: Run.Findings, f2: Run.Findings, dnsPort: IntOrString) {
    && SamePolicies(false, PoliciesOf(Listing(TableOf(f1.connections)), dnsPort),
                    PoliciesOf(Listing(TableOf(f2.connections)), dnsPort))
    && multiset(DenyPolicies(f1.resources)) == multiset(DenyPolicies(f2.resources))
  }

  lemma {:induction false} FirstOwns(conns: seq<Connection>, n: string)
    requires conns != [] && n != "" && FirstNamed(MentionsOf(conns[0]), n).Some?
    ensures var t := TableOf(conns);
            n in t && t[n].resource == FirstNamed(MentionsOf(conns[0]), n).value
  {
    hide TableOf, MentionsOf;
    FrontOwns(conns, 0, n);
    assert ToFront(conns, 0) == conns;
  }

  lemma {:induction false} AlikeSameOwner(t1: Table, t2: Table, dnsPort: IntOrString, n: string)
    requires forall m :: m in t1 ==> t1[m].resource.name == m
    requires forall m :: m in t2 ==> t2[m].resource.name == m
    requires SamePolicies(false, PoliciesOf(Listing(t1), dnsPort), PoliciesOf(Listing(t2), dnsPort)) && n in t1
    ensures n in t2 && SameWorkload(t1[n].resource, t2[n].resource)
  {
    hide Sorted, RulesWithin, WithDns;
    var names1, names2 := Sorted(t1.Keys), Sorted(t2.Keys);
    SortedListsTheNames(t1.Keys);
    SortedListsTheNames(t2.Keys);
    assert n in names1;
    var i :| 0 <= i < |names1| && names1[i] == n;
    assert names2[i] in t2.Keys;
    assert PoliciesOf(Listing(t1), dnsPort)[i] == NetpolOf(t1[n], dnsPort);
    assert PoliciesOf(Listing(t2), dnsPort)[i] == NetpolOf(t2[names2[i]], dnsPort);
    SuffixCancels(n, names2[i], "-netpol");
  }

  lemma {:induction false} FirstsAgree(c1: Connection, g1: Run.Findings, c2: Connection, g2: Run.Findings,
                                       dnsPort: IntOrString, n: string)
    requires ComesFirst(c1, g1) && ComesFirst(c2, g2) && RunsAlike(g1, g2, dnsPort) && n != ""
    requires FirstNamed(MentionsOf(c1), n).Some? && FirstNamed(MentionsOf(c2), n).Some?
    ensures SameWorkload(FirstNamed(MentionsOf(c1), n).value, FirstNamed(MentionsOf(c2), n).value)
  {
    hide TableOf, MentionsOf, SameEffect, SamePolicies;
    SameFirstEnd(false, c1, g1.connections[0], n);
    SameFirstEnd(false, c2, g2.connections[0], n);
    FirstOwns(g1.connections, n);
    FirstOwns(g2.connections, n);
    OwnerIsFirstMention(g1.connections, n);
    OwnerIsFirstMention(g2.connections, n);
    AlikeSameOwner(TableOf(g1.connections), TableOf(g2.connections), dnsPort, n);
  }

  /** Whatever order the manifests are read in, as long as the same ConfigMaps are in effect. */
  ghost predicate AllOrdersAlike(lib: Lib, infos: seq<Info>, dnsPort: IntOrString) {
    forall infos1, infos2, f1, f2 ::
      (&& Reordered(infos1, infos) && Reordered(infos2, infos)
       && Run.FindingsOf(lib, infos1, f1) && Run.FindingsOf(lib, infos2, f2)) ==> RunsAlike(f1, f2, dnsPort)
  }

  lemma {:induction false} LeadersOfOtherRun(lib: Lib, infos: seq<Info>, f: Run.Findings, infos1: seq<Info>,
                                             f1: Run.Findings)
    requires Run.FindingsOf(lib, infos, f) && Run.FindingsOf(lib, infos1, f1) && Reordered(infos1, infos)
    requires FirstEndsAgree(LeadersOf(f))
    ensures FirstEndsAgree(LeadersOf(f1))
  {
    hide Run.FindingsOf, LeadersOf, MentionsOf, SameWorkload, EffectsWithin, ByName, ConfigMapsIn;
    PermutationElements(infos1, infos);
    SameRunLeaders(lib, infos1, infos, f1, f);
    forall c1, c2, n | c1 in LeadersOf(f1) && c2 in LeadersOf(f1) && n != ""
      ensures var end1, end2 := FirstNamed(MentionsOf(c1), n), FirstNamed(MentionsOf(c2), n);
              end1.Some? && end2.Some? ==> SameWorkload(end1.value, end2.value)
    {
      var d1 := EffectCounterpart(false, LeadersOf(f1), LeadersOf(f), c1, n);
      var d2 := EffectCounterpart(false, LeadersOf(f1), LeadersOf(f), c2, n);
      if FirstNamed(MentionsOf(c1), n).Some? && FirstNamed(MentionsOf(c2), n).Some? {
        SameWorkloadSquare(FirstNamed(MentionsOf(c1), n).value, FirstNamed(MentionsOf(d1), n).value,
                           FirstNamed(MentionsOf(d2), n).value, FirstNamed(MentionsOf(c2), n).value);
      }
    }
  }

  lemma SameWorkloadSquare(r1: Resource, r2: Resource, r3: Resource, r4: Resource)
    requires SameWorkload(r1, r2) && SameWorkload(r2, r3) && SameWorkload(r4, r3)
    ensures SameWorkload(r1, r4)
  {
  }

  lemma {:induction false} AgreeingRunsAlike(lib: Lib, infos1: seq<Info>, infos2: seq<Info>,
                                             f1: Run.Findings, f2: Run.Findings, dnsPort: IntOrString)
    requires SameInput(lib, infos1, f1, infos2, f2) && FirstEndsAgree(LeadersOf(f1))
    ensures RunsAlike(f1, f2, dnsPort)
  {
    hide SameInput, LeadersOf, FirstEndsAgree, SameEffects, OwnersAgree, CoversNamespaces, SamePolicies, DenyPolicies;
    SameRunOwners(lib, infos1, infos2, f1, f2);
    SameEffectsSamePolicies(false, f1.connections, f2.connections, dnsPort);
    SameDenyPolicies(f1.resources, f2.resources);
  }

  /** The order of manifests is irrelevant to the policies if and only if no two connections that can
      come first disagree about the first workload of some name. */
  lemma {:induction false} ManifestOrderExactly(lib: Lib, infos: seq<Info>, f: Run.Findings, dnsPort: IntOrString)
    requires Run.FindingsOf(lib, infos, f)
    ensures AllOrdersAlike(lib, infos, dnsPort) <==> FirstEndsAgree(LeadersOf(f))
  {
    hide Run.FindingsOf, RunsAlike, LeadersOf, MentionsOf, SameWorkload, ComesFirst, ByName, ConfigMapsIn;
    if FirstEndsAgree(LeadersOf(f)) {
      forall infos1, infos2, f1, f2 | && Reordered(infos1, infos) && Reordered(infos2, infos)
                                      && Run.FindingsOf(lib, infos1, f1) && Run.FindingsOf(lib, infos2, f2)
        ensures RunsAlike(f1, f2, dnsPort)
      {
        LeadersOfOtherRun(lib, infos, f, infos1, f1);
        PermutationElements(infos1, infos2);
        AgreeingRunsAlike(lib, infos1, infos2, f1, f2, dnsPort);
      }
    }
    if AllOrdersAlike(lib, infos, dnsPort) {
      forall c1, c2, n | c1 in LeadersOf(f) && c2 in LeadersOf(f) && n != ""
        ensures var end1, end2 := FirstNamed(MentionsOf(c1), n), FirstNamed(MentionsOf(c2), n);
                end1.Some? && end2.Some? ==> SameWorkload(end1.value, end2.value)
      {
        var infos1, g1 := LeaderComesFirst(lib, infos, f, c1);
        var infos2, g2 := LeaderComesFirst(lib, infos, f, c2);
        if FirstNamed(MentionsOf(c1), n).Some? && FirstNamed(MentionsOf(c2), n).Some? {
          assert RunsAlike(g1, g2, dnsPort);
          FirstsAgree(c1, g1, c2, g2, dnsPort, n);
        }
      }
    }
  }
}
