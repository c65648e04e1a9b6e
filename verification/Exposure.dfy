/** Ports that Ingress, Route and Gateway Route objects expose, and the flags they
    set on the ports of Services. */
module Exposure {
  import opened Model

  // ----- manifest objects that expose ports -----

  datatype ServiceBackendPort = ServiceBackendPort(name: string, number: Int32)

  datatype ServiceBackend = ServiceBackend(name: string, port: ServiceBackendPort)

  datatype BackendRef = BackendRef(kind: Option<string>, namespace: Option<string>, name: string, port: Option<Int32>)

  /** Optional parts stand for nil-able pointers: a route without a port, a backend that is no
      Service, a rule without HTTP paths. */
  datatype Router =
    | OcRoute(namespace: string, to: string, targetPort: Option<IntOrString>, alternateBackends: seq<string>)
    | Ingress(namespace: string, defaultBackend: Option<ServiceBackend>,
              rules: seq<Option<seq<Option<ServiceBackend>>>>)
    | GatewayRoute(namespace: string, backendRules: seq<seq<BackendRef>>)

  datatype Exposed = Exposed(namespace: string, service: string, port: IntOrString)

  function PortFromServiceBackendPort(p: ServiceBackendPort): IntOrString {
    if p.number == 0 then FromString(p.name) else FromInt(p.number)
  }

  /** Reading the port of a route that has none dereferences nil. */
  predicate RouterPanics(router: Router) {
    router.OcRoute? && router.targetPort.None?
  }

  // ----- what a router exposes -----

  predicate InIngressRule(rule: Option<seq<Option<ServiceBackend>>>, b: ServiceBackend) {
    rule.Some? && Some(b) in rule.value
  }

  /** A backend is exposed by its number, or by its name if the number is zero. */
  predicate FromBackend(e: Exposed, namespace: string, b: ServiceBackend) {
    && e.namespace == namespace && e.service == b.name
    && (b.port.number != 0 ==> e.port == FromInt(b.port.number))
    && (b.port.number == 0 ==> e.port == FromString(b.port.name))
  }

  predicate FromRef(e: Exposed, namespace: string, b: BackendRef) {
    && (b.kind.None? || b.kind.value == "Service") && b.port.Some?
    && e == Exposed(if b.namespace.Some? then b.namespace.value else namespace, b.name, FromInt(b.port.value))
  }

  /** `router` exposes this port of this Service. */
  ghost predicate Exposes(router: Router, e: Exposed) {
    match router
    case OcRoute(ns, to, port, alternates) =>
      e.namespace == ns && port == Some(e.port) && (e.service == to || e.service in alternates)
    case Ingress(ns, default, rules) =>
      exists b :: && FromBackend(e, ns, b)
                  && (default == Some(b) || exists rule :: rule in rules && InIngressRule(rule, b))
    case GatewayRoute(ns, rules) =>
      exists refs, b :: refs in rules && b in refs && FromRef(e, ns, b)
  }

  // ----- the same as a list, in the order of the manifest -----

  function EntryOfBackend(namespace: string, b: Option<ServiceBackend>): seq<Exposed> {
    if b.None? then [] else [Exposed(namespace, b.value.name, PortFromServiceBackendPort(b.value.port))]
  }

  function EntriesOfPaths(namespace: string, paths: seq<Option<ServiceBackend>>): seq<Exposed> {
    if paths == [] then []
    else EntriesOfPaths(namespace, paths[..|paths| - 1]) + EntryOfBackend(namespace, paths[|paths| - 1])
  }

  function EntriesOfRule(namespace: string, rule: Option<seq<Option<ServiceBackend>>>): seq<Exposed> {
    if rule.None? then [] else EntriesOfPaths(namespace, rule.value)
  }

  function EntriesOfRules(namespace: string, rules: seq<Option<seq<Option<ServiceBackend>>>>): seq<Exposed> {
    if rules == [] then []
    else EntriesOfRules(namespace, rules[..|rules| - 1]) + EntriesOfRule(namespace, rules[|rules| - 1])
  }

  function EntryOfRef(namespace: string, b: BackendRef): seq<Exposed> {
    if (b.kind.Some? && b.kind.value != "Service") || b.port.None? then []
    else [Exposed(if b.namespace.Some? then b.namespace.value else namespace, b.name, FromInt(b.port.value))]
  }

  function EntriesOfRefs(namespace: string, refs: seq<BackendRef>): seq<Exposed> {
    if refs == [] then []
    else EntriesOfRefs(namespace, refs[..|refs| - 1]) + EntryOfRef(namespace, refs[|refs| - 1])
  }

  function EntriesOfRefLists(namespace: string, rules: seq<seq<BackendRef>>): seq<Exposed> {
    if rules == [] then []
    else EntriesOfRefLists(namespace, rules[..|rules| - 1]) + EntriesOfRefs(namespace, rules[|rules| - 1])
  }

  function EntriesOfNames(namespace: string, port: IntOrString, names: seq<string>): seq<Exposed> {
    if names == [] then []
    else EntriesOfNames(namespace, port, names[..|names| - 1]) + [Exposed(namespace, names[|names| - 1], port)]
  }

  function EntriesOf(router: Router): seq<Exposed> {
    match router
    case OcRoute(ns, to, port, alternates) =>
      if port.None? then [] else [Exposed(ns, to, port.value)] + EntriesOfNames(ns, port.value, alternates)
    case Ingress(ns, default, rules) => EntryOfBackend(ns, default) + EntriesOfRules(ns, rules)
    case GatewayRoute(ns, rules) => EntriesOfRefLists(ns, rules)
  }

  lemma {:induction false} PathsElements(namespace: string, paths: seq<Option<ServiceBackend>>, e: Exposed)
    ensures e in EntriesOfPaths(namespace, paths) <==> exists b :: Some(b) in paths && FromBackend(e, namespace, b)
  {
    if paths != [] {
      var init, last := paths[..|paths| - 1], paths[|paths| - 1];
      assert paths == init + [last];
      PathsElements(namespace, init, e);
    }
  }

  lemma {:induction false} RulesElements(namespace: string, rules: seq<Option<seq<Option<ServiceBackend>>>>, e: Exposed)
    ensures e in EntriesOfRules(namespace, rules)
            <==> exists rule, b :: rule in rules && InIngressRule(rule, b) && FromBackend(e, namespace, b)
  {
    hide FromBackend;
    if rules != [] {
      var init, last := rules[..|rules| - 1], rules[|rules| - 1];
      assert rules == init + [last];
      RulesElements(namespace, init, e);
      assert last.Some? ==> forall b :: InIngressRule(last, b) <==> Some(b) in last.value;
      if last.Some? {
        PathsElements(namespace, last.value, e);
      }
    }
  }

  lemma {:induction false} RefsElements(namespace: string, refs: seq<BackendRef>, e: Exposed)
    ensures e in EntriesOfRefs(namespace, refs) <==> exists b :: b in refs && FromRef(e, namespace, b)
  {
    if refs != [] {
      var init, last := refs[..|refs| - 1], refs[|refs| - 1];
      assert refs == init + [last];
      RefsElements(namespace, init, e);
      assert e in EntryOfRef(namespace, last) <==> FromRef(e, namespace, last);
    }
  }

  lemma {:induction false} RefListsElements(namespace: string, rules: seq<seq<BackendRef>>, e: Exposed)
    ensures e in EntriesOfRefLists(namespace, rules)
            <==> exists refs, b :: refs in rules && b in refs && FromRef(e, namespace, b)
  {
    hide FromRef;
    if rules != [] {
      var init, last := rules[..|rules| - 1], rules[|rules| - 1];
      assert rules == init + [last];
      RefListsElements(namespace, init, e);
      RefsElements(namespace, last, e);
    }
  }

  lemma {:induction false} NamesElements(namespace: string, port: IntOrString, names: seq<string>, e: Exposed)
    ensures e in EntriesOfNames(namespace, port, names)
            <==> e.namespace == namespace && e.port == port && e.service in names
  {
    if names != [] {
      var init, last := names[..|names| - 1], names[|names| - 1];
      assert names == init + [last];
      NamesElements(namespace, port, init, e);
    }
  }

  /** The list holds exactly the ports that the router exposes. */
  lemma {:induction false} EntriesAreExposed(router: Router, e: Exposed)
    ensures e in EntriesOf(router) <==> Exposes(router, e)
  {
    hide EntriesOfNames, EntriesOfRules, EntriesOfRefLists, FromRef;
    match router
    case OcRoute(ns, to, port, alternates) =>
      if port.Some? {
        NamesElements(ns, port.value, alternates, e);
      }
    case Ingress(ns, default, rules) =>
      RulesElements(ns, rules, e);
    case GatewayRoute(ns, rules) =>
      RefListsElements(ns, rules, e);
  }

  // ----- the multimap -----

  type ExposureTable = map<string, map<string, seq<IntOrString>>>

  function Lookup(t: ExposureTable, namespace: string, svcName: string): seq<IntOrString> {
    if namespace in t && svcName in t[namespace] then t[namespace][svcName] else []
  }

  predicate Has(t: ExposureTable, e: Exposed) {
    e.port in Lookup(t, e.namespace, e.service)
  }

  /** The table with one port appended to the list of its Service. */
  function AddEntry(t: ExposureTable, e: Exposed): ExposureTable {
    var svcPortsMap := if e.namespace in t then t[e.namespace] else map[];
    t[e.namespace := svcPortsMap[e.service := Lookup(t, e.namespace, e.service) + [e.port]]]
  }

  function AddEntries(t: ExposureTable, es: seq<Exposed>): ExposureTable {
    if es == [] then t else AddEntry(AddEntries(t, es[..|es| - 1]), es[|es| - 1])
  }

  lemma {:induction false} AddEntriesAppend(t: ExposureTable, a: seq<Exposed>, b: seq<Exposed>)
    ensures AddEntries(AddEntries(t, a), b) == AddEntries(t, a + b)
  {
    hide AddEntry;
    if b == [] {
      assert a + b == a;
    } else {
      assert (a + b)[..|a + b| - 1] == a + b[..|b| - 1];
      AddEntriesAppend(t, a, b[..|b| - 1]);
    }
  }

  lemma AddOneEntry(t: ExposureTable, e: Exposed)
    ensures AddEntries(t, [e]) == AddEntry(t, e)
  {
    assert [e][..0] == [];
  }

  /** The ports of one Service among exposed ones, in order. */
  function PortsTo(es: seq<Exposed>, namespace: string, svcName: string): seq<IntOrString> {
    if es == [] then []
    else
      var last := es[|es| - 1];
      PortsTo(es[..|es| - 1], namespace, svcName)
      + (if last.namespace == namespace && last.service == svcName then [last.port] else [])
  }

  /** Every Service keeps its list, followed by the new ports in order. */
  lemma {:induction false} EntriesAreAppended(t: ExposureTable, es: seq<Exposed>, namespace: string, svcName: string)
    ensures Lookup(AddEntries(t, es), namespace, svcName)
            == Lookup(t, namespace, svcName) + PortsTo(es, namespace, svcName)
  {
    if es != [] {
      EntriesAreAppended(t, es[..|es| - 1], namespace, svcName);
    }
  }

  lemma {:induction false} EntriesAreAdded(t: ExposureTable, es: seq<Exposed>, e: Exposed)
    ensures Has(AddEntries(t, es), e) <==> Has(t, e) || e in es
  {
    if es != [] {
      assert es == es[..|es| - 1] + [es[|es| - 1]];
      EntriesAreAdded(t, es[..|es| - 1], e);
    }
  }

  class ServicesToExpose {
    var table: ExposureTable

    constructor ()
      ensures table == map[]
    {
      table := map[];
    }

    method AppendPort(namespace: string, svcName: string, port: IntOrString)
      modifies this
      ensures table == AddEntries(old(table), [Exposed(namespace, svcName, port)])
      ensures forall ns, s :: Lookup(table, ns, s)
                              == Lookup(old(table), ns, s) + (if ns == namespace && s == svcName then [port] else [])
    {
      AddOneEntry(table, Exposed(namespace, svcName, port));
      if namespace !in table {
        table := table[namespace := map[]];
      }
      var svcPortsMap := table[namespace];
      svcPortsMap := svcPortsMap[svcName := (if svcName in svcPortsMap then svcPortsMap[svcName] else []) + [port]];
      table := table[namespace := svcPortsMap];
    }

    /** A route without a port makes the Go code dereference nil. */
    method ExposeOcRoute(r: Router) returns (panicked: bool)
      requires r.OcRoute?
      modifies this
      ensures panicked <==> r.targetPort.None?
      ensures table == AddEntries(old(table), EntriesOf(r))
    {
      hide AddEntries;
      if r.targetPort.None? {
        NothingToAdd(table);
        return true;
      }
      var port := r.targetPort.value;
      AppendPort(r.namespace, r.to, port);
      var alternates := r.alternateBackends;
      ghost var added := [Exposed(r.namespace, r.to, port)];
      assert added + [] == added;
      for i := 0 to |alternates|
        invariant added == [Exposed(r.namespace, r.to, port)] + EntriesOfNames(r.namespace, port, alternates[..i])
        invariant table == AddEntries(old(table), added)
      {
        assert alternates[..i + 1][..i] == alternates[..i];
        AppendPort(r.namespace, alternates[i], port);
        AddEntriesAppend(old(table), added, [Exposed(r.namespace, alternates[i], port)]);
        added := added + [Exposed(r.namespace, alternates[i], port)];
      }
      assert alternates[..|alternates|] == alternates;
      return false;
    }

    method AppendBackend(namespace: string, b: Option<ServiceBackend>)
      modifies this
      ensures table == AddEntries(old(table), EntryOfBackend(namespace, b))
    {
      hide AddEntries;
      NothingToAdd(table);
      if b.Some? {
        var portToAppend := FromInt(b.value.port.number);
        if b.value.port.number == 0 {
          portToAppend := FromString(b.value.port.name);
        }
        AppendPort(namespace, b.value.name, portToAppend);
      }
    }

    method ExposePaths(namespace: string, paths: seq<Option<ServiceBackend>>)
      modifies this
      ensures table == AddEntries(old(table), EntriesOfPaths(namespace, paths))
    {
      hide AddEntries;
      NothingToAdd(table);
      for i := 0 to |paths|
        invariant table == AddEntries(old(table), EntriesOfPaths(namespace, paths[..i]))
      {
        assert paths[..i + 1][..i] == paths[..i];
        AppendBackend(namespace, paths[i]);
        AddEntriesAppend(old(table), EntriesOfPaths(namespace, paths[..i]), EntryOfBackend(namespace, paths[i]));
      }
      assert paths[..|paths|] == paths;
    }

    method ExposeIngress(r: Router)
      requires r.Ingress?
      modifies this
      ensures table == AddEntries(old(table), EntriesOf(r))
    {
      hide AddEntries;
      AppendBackend(r.namespace, r.defaultBackend);
      ghost var default := EntryOfBackend(r.namespace, r.defaultBackend);
      ExposeRules(r.namespace, r.rules);
      AddEntriesAppend(old(table), default, EntriesOfRules(r.namespace, r.rules));
    }

    method ExposeRules(namespace: string, rules: seq<Option<seq<Option<ServiceBackend>>>>)
      modifies this
      ensures table == AddEntries(old(table), EntriesOfRules(namespace, rules))
    {
      hide AddEntries, EntriesOfPaths;
      NothingToAdd(table);
      for i := 0 to |rules|
        invariant table == AddEntries(old(table), EntriesOfRules(namespace, rules[..i]))
      {
        assert rules[..i + 1][..i] == rules[..i];
        AddEntriesAppend(old(table), EntriesOfRules(namespace, rules[..i]), EntriesOfRule(namespace, rules[i]));
        NothingToAdd(table);
        if rules[i].Some? {
          ExposePaths(namespace, rules[i].value);
        }
      }
      assert rules[..|rules|] == rules;
    }

    method ExposeRefs(namespace: string, refs: seq<BackendRef>)
      modifies this
      ensures table == AddEntries(old(table), EntriesOfRefs(namespace, refs))
    {
      hide AddEntries;
      NothingToAdd(table);
      for i := 0 to |refs|
        invariant table == AddEntries(old(table), EntriesOfRefs(namespace, refs[..i]))
      {
        assert refs[..i + 1][..i] == refs[..i];
        AddEntriesAppend(old(table), EntriesOfRefs(namespace, refs[..i]), EntryOfRef(namespace, refs[i]));
        NothingToAdd(table);
        var backend := refs[i];
        if (backend.kind.Some? && backend.kind.value != "Service") || backend.port.None? {
          continue;
        }
        var ns := namespace;
        if backend.namespace.Some? {
          ns := backend.namespace.value;
        }
        AppendPort(ns, backend.name, FromInt(backend.port.value));
      }
      assert refs[..|refs|] == refs;
    }

    method ExposeGatewayRoute(r: Router)
      requires r.GatewayRoute?
      modifies this
      ensures table == AddEntries(old(table), EntriesOf(r))
    {
      hide AddEntries;
      NothingToAdd(table);
      for i := 0 to |r.backendRules|
        invariant table == AddEntries(old(table), EntriesOfRefLists(r.namespace, r.backendRules[..i]))
      {
        assert r.backendRules[..i + 1][..i] == r.backendRules[..i];
        ExposeRefs(r.namespace, r.backendRules[i]);
        AddEntriesAppend(old(table), EntriesOfRefLists(r.namespace, r.backendRules[..i]),
                         EntriesOfRefs(r.namespace, r.backendRules[i]));
      }
      assert r.backendRules[..|r.backendRules|] == r.backendRules;
    }

    method Expose(r: Router) returns (panicked: bool)
      modifies this
      ensures panicked <==> RouterPanics(r)
      ensures table == AddEntries(old(table), EntriesOf(r))
    {
      panicked := false;
      match r
      case OcRoute(_, _, _, _) => panicked := ExposeOcRoute(r);
      case Ingress(_, _, _) => ExposeIngress(r);
      case GatewayRoute(_, _) => ExposeGatewayRoute(r);
    }
  }

  lemma NothingToAdd(t: ExposureTable)
    ensures AddEntries(t, []) == t
  {
  }

  // ----- the effect on Services -----

  function FlagPort(p: SvcNetworkAttr, ports: seq<IntOrString>): SvcNetworkAttr {
    p.(exposeToCluster := p.exposeToCluster || exists q :: q in ports && p.Equals(q))
  }

  /** The Service with the flags set of those of its ports that are exposed; all else as before. */
  function ExposedService(svc: Service, t: ExposureTable): Service {
    var ports := Lookup(t, svc.namespace, svc.name);
    svc.(network := seq(|svc.network|, i requires 0 <= i < |svc.network| => FlagPort(svc.network[i], ports)))
  }

  /** Setting flags twice is setting them once. */
  lemma ExposureIsIdempotent(svc: Service, t: ExposureTable)
    ensures ExposedService(ExposedService(svc, t), t) == ExposedService(svc, t)
  {
    var ports := Lookup(t, svc.namespace, svc.name);
    forall i | 0 <= i < |svc.network|
      ensures FlagPort(FlagPort(svc.network[i], ports), ports) == FlagPort(svc.network[i], ports)
    {
      assert forall q :: FlagPort(svc.network[i], ports).Equals(q) == svc.network[i].Equals(q);
    }
    var once := ExposedService(svc, t);
    assert ExposedService(once, t).network == once.network;
  }

  /** Only which ports are exposed counts, not how often nor in what order. */
  lemma ExposureDependsOnMembership(svc: Service, t1: ExposureTable, t2: ExposureTable)
    requires forall e :: Has(t1, e) <==> Has(t2, e)
    ensures ExposedService(svc, t1) == ExposedService(svc, t2)
  {
    var ports1, ports2 := Lookup(t1, svc.namespace, svc.name), Lookup(t2, svc.namespace, svc.name);
    forall q ensures q in ports1 <==> q in ports2 {
      assert Has(t1, Exposed(svc.namespace, svc.name, q)) <==> Has(t2, Exposed(svc.namespace, svc.name, q));
    }
    assert ExposedService(svc, t1).network == ExposedService(svc, t2).network;
  }
}
