/** When the choice among ConfigMaps of one full name, which the order of manifests makes, matters. */
module ConfigMapOrder {
  import opened Model
  import opened Netpol
  import opened Sequences
  import opened AddressExtraction
  import opened Inlining
  import opened ManifestSpec
  import opened SynthSpec
  import opened SynthTable
  import opened SynthTheorems
  import opened LabelTheorems
  import opened RunTheorems
  import opened Declarations
  import opened RunMeaning
  import opened ManifestOrder
  import Run = RunSpec

  // ----- the ConfigMaps that can be in effect -----

  /** One of the declared ConfigMaps for each full name. */
  ghost predicate Selection(infos: seq<Info>, cms: CfgMaps) {
    && (forall name :: name in cms ==> cms[name].fullName == name && ConfigMapInfo(cms[name]) in infos)
    && (forall cm :: ConfigMapInfo(cm) in infos ==> cm.fullName in cms)
  }

  lemma {:induction false} EffectIsSelection(infos: seq<Info>, infos1: seq<Info>)
    requires multiset(infos1) == multiset(infos)
    ensures Selection(infos, ByName(ConfigMapsIn(infos1)))
  {
    hide ByName, ConfigMapsIn;
    var maps := ConfigMapsIn(infos1);
    InfosElements(infos1);
    PermutationElements(infos1, infos);
    forall name | name in ByName(maps)
      ensures ByName(maps)[name].fullName == name && ConfigMapInfo(ByName(maps)[name]) in infos
    {
      LastDuplicateWins(maps, name);
    }
    forall cm | ConfigMapInfo(cm) in infos ensures cm.fullName in ByName(maps) {
      LastDuplicateWins(maps, cm.fullName);
    }
  }

  /** A ConfigMap takes part only in what is in effect under its own full name. */
  lemma {:induction false} OtherNames(a: seq<CfgMap>, cm: CfgMap, b: seq<CfgMap>, name: string)
    requires name != cm.fullName
    ensures name in ByName(a + [cm] + b) <==> name in ByName(a + b)
    ensures name in ByName(a + b) ==> ByName(a + [cm] + b)[name] == ByName(a + b)[name]
  {
    if b == [] {
      assert (a + [cm] + b)[..|a|] == a && a + b == a;
    } else {
      var init := b[..|b| - 1];
      OtherNames(a, cm, init, name);
      assert (a + [cm] + b)[..|a + [cm] + b| - 1] == a + [cm] + init;
      assert (a + b)[..|a + b| - 1] == a + init;
    }
  }

  /** Reading a ConfigMap last puts it in effect, and changes nothing else. */
  lemma {:induction false} PutInEffect(infos: seq<Info>, cm: CfgMap) returns (moved: seq<Info>)
    requires ConfigMapInfo(cm) in infos
    ensures multiset(moved) == multiset(infos)
    ensures ByName(ConfigMapsIn(moved)) == ByName(ConfigMapsIn(infos))[cm.fullName := cm]
  {
    hide ConfigMapsIn, ByName;
    var i :| 0 <= i < |infos| && infos[i] == ConfigMapInfo(cm);
    moved := ToEnd(infos, i);
    ToEndPermutes(infos, i);
    var left, right := infos[..i], infos[i + 1..];
    assert infos == left + [infos[i]] + right;
    InfosAppend(left, [infos[i]]);
    InfosAppend(left + [infos[i]], right);
    InfosAppend(left, right);
    InfosAppend(left + right, [infos[i]]);
    OneInfo(infos[i]);
    var a, b := ConfigMapsIn(left), ConfigMapsIn(right);
    assert ConfigMapsIn(infos) == a + [cm] + b && ConfigMapsIn(moved) == a + b + [cm];
    InEffect(a, cm, b);
  }

  lemma {:induction false} InEffect(a: seq<CfgMap>, cm: CfgMap, b: seq<CfgMap>)
    ensures ByName(a + b + [cm]) == ByName(a + [cm] + b)[cm.fullName := cm]
  {
    hide ByName;
    ByNameSnoc(a + b, cm);
    forall name | name != cm.fullName
      ensures name in ByName(a + b) <==> name in ByName(a + [cm] + b)
      ensures name in ByName(a + b) ==> ByName(a + [cm] + b)[name] == ByName(a + b)[name]
    {
      OtherNames(a, cm, b, name);
    }
  }

  lemma ByNameSnoc(maps: seq<CfgMap>, cm: CfgMap)
    ensures ByName(maps + [cm]) == ByName(maps)[cm.fullName := cm]
  {
    assert (maps + [cm])[..|maps|] == maps;
  }

  /** Every choice of ConfigMaps is in effect for some order of the manifests. */
  lemma {:induction false} EverySelection(infos: seq<Info>, cms: CfgMaps) returns (moved: seq<Info>)
    requires Selection(infos, cms)
    ensures multiset(moved) == multiset(infos) && ByName(ConfigMapsIn(moved)) == cms
  {
    hide ByName, ConfigMapsIn, Selection;
    EffectIsSelection(infos, infos);
    SelectionsHaveOneDomain(infos, ByName(ConfigMapsIn(infos)), cms);
    moved := infos;
    var left, current := cms.Keys, ByName(ConfigMapsIn(infos));
    while left != {}
      invariant left <= cms.Keys && multiset(moved) == multiset(infos)
      invariant current == ByName(ConfigMapsIn(moved)) && current.Keys == cms.Keys
      invariant forall name :: name in cms && name !in left ==> current[name] == cms[name]
    {
      var name :| name in left;
      PermutationElements(moved, infos);
      SelectedIsDeclared(infos, cms, name);
      moved := PutInEffect(moved, cms[name]);
      left, current := left - {name}, current[name := cms[name]];
    }
    assert current == cms;
  }

  lemma SelectedIsDeclared(infos: seq<Info>, cms: CfgMaps, name: string)
    requires Selection(infos, cms) && name in cms
    ensures cms[name].fullName == name && ConfigMapInfo(cms[name]) in infos
  {
  }

  lemma SelectionsHaveOneDomain(infos: seq<Info>, cms1: CfgMaps, cms2: CfgMaps)
    requires Selection(infos, cms1) && Selection(infos, cms2)
    ensures cms1.Keys == cms2.Keys
  {
    assert forall name :: name in cms1 ==> name in cms2;
    assert forall name :: name in cms2 ==> name in cms1;
  }

  // ----- flows -----

  /** The flow that the objects declare, given the ConfigMaps in effect. */
  ghost predicate FlowUnder(lib: Lib, cms: CfgMaps, infos: seq<Info>, dnsPort: IntOrString,
                            source: string, target: string, p: NetpolPort) {
    || UseUnder(lib, cms, infos, source, target, p)
    || (p == NetpolPort("UDP", dnsPort) && (exists other, q :: UseUnder(lib, cms, infos, source, other, q))
        && DeclaredOffer(infos, target, p))
  }

  /** All choices among ConfigMaps of one full name declare the same flows between these workloads. */
  ghost predicate ChoiceIsImmaterial(lib: Lib, infos: seq<Info>, dnsPort: IntOrString) {
    forall cms1, cms2, ws, wd, p :: Selection(infos, cms1) && Selection(infos, cms2)
                                    && WorkloadInfo(ws) in infos && WorkloadInfo(wd) in infos ==>
      (FlowUnder(lib, cms1, infos, dnsPort, ws.name, wd.name, p)
       <==> FlowUnder(lib, cms2, infos, dnsPort, ws.name, wd.name, p))
  }

  lemma {:induction false} StillFit(infos: seq<Info>, infos1: seq<Info>)
    requires Fit(infos) && multiset(infos1) == multiset(infos)
    ensures Fit(infos1)
  {
    hide WorkloadsIn, Inherits;
    InfosElements(infos);
    InfosElements(infos1);
    PermutationElements(infos1, infos);
    assert forall r :: r in WorkloadsIn(infos1) <==> r in WorkloadsIn(infos);
  }

  lemma {:induction false} SameDeclarations(lib: Lib, cms: CfgMaps, infos: seq<Info>, infos1: seq<Info>,
                                            source: string, target: string, p: NetpolPort)
    requires multiset(infos1) == multiset(infos)
    ensures UseUnder(lib, cms, infos1, source, target, p) <==> UseUnder(lib, cms, infos, source, target, p)
    ensures DeclaredOffer(infos1, target, p) <==> DeclaredOffer(infos, target, p)
  {
    hide Requests, ExposedBy, Translates;
    PermutationElements(infos1, infos);
    forall e ensures ExposedBy(infos1, e) <==> ExposedBy(infos, e) {
      SameExposures(infos1, infos, e);
    }
    forall svc, q ensures Flagged(infos1, svc, q) <==> Flagged(infos, svc, q) {
    }
  }

  /** What a run over some order of the objects allows. */
  lemma {:induction false} ExactUnder(lib: Lib, infos: seq<Info>, infos1: seq<Info>, f: Run.Findings,
                                      dnsPort: IntOrString, ws: Resource, wd: Resource, p: NetpolPort)
    requires Fit(infos) && multiset(infos1) == multiset(infos) && Run.FindingsOf(lib, infos1, f)
    requires WorkloadInfo(ws) in infos && WorkloadInfo(wd) in infos
    ensures Allows(Synth(f.resources, f.connections, dnsPort), PodFor(ws), PodFor(wd), p)
            <==> FlowUnder(lib, ByName(ConfigMapsIn(infos1)), infos, dnsPort, ws.name, wd.name, p)
  {
    hide Run.FindingsOf, Allows, Synth, UseUnder, DeclaredOffer, ByName, ConfigMapsIn, WorkloadsIn;
    hide WorkloadsIdentified, AllNamed, NamespacesAgree, Antichain, NothingUsed;
    StillFit(infos, infos1);
    PermutationElements(infos1, infos);
    RunIsExact(lib, infos1, f, dnsPort, ws, wd, p);
    var cms := ByName(ConfigMapsIn(infos1));
    forall target, q
      ensures UseUnder(lib, cms, infos1, ws.name, target, q) <==> UseUnder(lib, cms, infos, ws.name, target, q)
    {
      SameDeclarations(lib, cms, infos, infos1, ws.name, target, q);
    }
    SameDeclarations(lib, cms, infos, infos1, ws.name, wd.name, p);
    SenderUnder(lib, cms, infos1, ws.name);
  }

  lemma {:induction false} SenderUnder(lib: Lib, cms: CfgMaps, infos: seq<Info>, source: string)
    requires cms == ByName(ConfigMapsIn(infos))
    ensures DeclaredSender(lib, infos, source) <==> exists other, q :: UseUnder(lib, cms, infos, source, other, q)
  {
    hide UseUnder, ByName, ConfigMapsIn;
    forall other, q
      ensures DeclaredUse(lib, infos, source, other, q) <==> UseUnder(lib, cms, infos, source, other, q)
    {
    }
  }

  /** All runs over all orders of the objects allow the same flows between declared pods. */
  ghost predicate AllOrdersAllowAlike(lib: Lib, infos: seq<Info>, dnsPort: IntOrString) {
    forall infos1, infos2, f1, f2, ws, wd, p ::
      (&& multiset(infos1) == multiset(infos) && multiset(infos2) == multiset(infos)
       && Run.FindingsOf(lib, infos1, f1) && Run.FindingsOf(lib, infos2, f2)
       && WorkloadInfo(ws) in infos && WorkloadInfo(wd) in infos) ==>
        (Allows(Synth(f1.resources, f1.connections, dnsPort), PodFor(ws), PodFor(wd), p)
         <==> Allows(Synth(f2.resources, f2.connections, dnsPort), PodFor(ws), PodFor(wd), p))
  }

  /** The order of manifests does not change what is allowed if and only if it does not matter which
      of several ConfigMaps of one full name is in effect. */
  lemma {:induction false} FlowsDependOnChoiceExactly(lib: Lib, infos: seq<Info>, dnsPort: IntOrString)
    requires Fit(infos)
    ensures AllOrdersAllowAlike(lib, infos, dnsPort) <==> ChoiceIsImmaterial(lib, infos, dnsPort)
  {
    hide Run.FindingsOf, Allows, Synth, ByName, ConfigMapsIn, Fit, Selection, FlowUnder;
    if ChoiceIsImmaterial(lib, infos, dnsPort) {
      forall infos1, infos2, f1, f2, ws, wd, p |
        && multiset(infos1) == multiset(infos) && multiset(infos2) == multiset(infos)
        && Run.FindingsOf(lib, infos1, f1) && Run.FindingsOf(lib, infos2, f2)
        && WorkloadInfo(ws) in infos && WorkloadInfo(wd) in infos
        ensures Allows(Synth(f1.resources, f1.connections, dnsPort), PodFor(ws), PodFor(wd), p)
                <==> Allows(Synth(f2.resources, f2.connections, dnsPort), PodFor(ws), PodFor(wd), p)
      {
        EffectIsSelection(infos, infos1);
        EffectIsSelection(infos, infos2);
        ExactUnder(lib, infos, infos1, f1, dnsPort, ws, wd, p);
        ExactUnder(lib, infos, infos2, f2, dnsPort, ws, wd, p);
      }
    }
    if AllOrdersAllowAlike(lib, infos, dnsPort) {
      forall cms1, cms2, ws, wd, p | Selection(infos, cms1) && Selection(infos, cms2)
                                     && WorkloadInfo(ws) in infos && WorkloadInfo(wd) in infos
        ensures FlowUnder(lib, cms1, infos, dnsPort, ws.name, wd.name, p)
                <==> FlowUnder(lib, cms2, infos, dnsPort, ws.name, wd.name, p)
      {
        var infos1 := EverySelection(infos, cms1);
        var infos2 := EverySelection(infos, cms2);
        var f1 := SomeFindings(lib, infos1);
        var f2 := SomeFindings(lib, infos2);
        ExactUnder(lib, infos, infos1, f1, dnsPort, ws, wd, p);
        ExactUnder(lib, infos, infos2, f2, dnsPort, ws, wd, p);
      }
    }
  }
}
