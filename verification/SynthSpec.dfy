/** What policy synthesis computes: a table of per-workload rules folded out of
    the connections, listed by name, and completed with default-deny policies. */
module SynthSpec {
  import opened Model
  import opened Netpol
  import opened Sequences
  import opened Ordering

  // ----- ports -----

  function ToNetpolPort(port: SvcNetworkAttr): NetpolPort {
    NetpolPort(if port.protocol == "" then "TCP" else port.protocol,
               if port.targetPort == FromInt(0) then FromInt(port.port) else port.targetPort)
  }

  function ToNetpolPorts(ports: seq<SvcNetworkAttr>, exposedOnly: bool): seq<NetpolPort> {
    if ports == [] then []
    else
      var last := ports[|ports| - 1];
      ToNetpolPorts(ports[..|ports| - 1], exposedOnly)
      + (if exposedOnly && !last.exposeToCluster then [] else [ToNetpolPort(last)])
  }

  /** Nameless sources are treated as absent. */
  predicate HasSource(c: Connection) {
    c.source.Some? && c.source.value.name != ""
  }

  function PortsOf(c: Connection): seq<NetpolPort> {
    if c.source.Some? && c.source.value.usedPorts != [] then ToNetpolPorts(c.source.value.usedPorts, false)
    else ToNetpolPorts(c.link.network, !HasSource(c) && !c.link.exposeExternally)
  }

  /** A connection that adds a rule must have a named target: the Go code
      dereferences a nil pointer otherwise. */
  predicate NamedTarget(c: Connection) {
    c.target.name == "" ==> PortsOf(c) == []
  }

  predicate NamedTargets(conns: seq<Connection>) {
    forall c :: c in conns ==> NamedTarget(c)
  }

  // ----- rules -----

  const ALL_CLUSTER := Peer(None, Some(map[]))

  /** The peer by which a policy of `netpolRes` names the pods of `otherRes`. */
  function PeerFor(netpolRes: Resource, otherRes: Resource): Peer {
    Peer(Some(otherRes.labels),
         if netpolRes.namespace != otherRes.namespace && otherRes.namespace != ""
         then Some(map[NAMESPACE_LABEL := otherRes.namespace]) else None)
  }

  /** The workload registered under each name. */
  type OwnerMap = map<string, Resource>

  function OwnerOf(owners: OwnerMap, r: Resource): Resource {
    if r.name in owners then owners[r.name] else r
  }

  function EgressRuleOf(owners: OwnerMap, c: Connection): Rule
    requires HasSource(c)
  {
    Rule([PeerFor(OwnerOf(owners, c.source.value), OwnerOf(owners, c.target))], PortsOf(c))
  }

  function IngressRuleOf(owners: OwnerMap, c: Connection): Rule {
    var peers :=
      if c.link.exposeExternally then []
      else if !HasSource(c) then [ALL_CLUSTER]
      else [PeerFor(OwnerOf(owners, c.target), OwnerOf(owners, c.source.value))];
    Rule(peers, PortsOf(c))
  }

  // ----- the table of workloads -----

  datatype Entry = Entry(resource: Resource, ingress: seq<Rule>, egress: seq<Rule>)

  type Table = map<string, Entry>

  function Register(t: Table, r: Resource): Table {
    if r.name == "" || r.name in t then t else t[r.name := Entry(r, [], [])]
  }

  function Registered(t: Table, c: Connection): Table {
    Register(if c.source.Some? then Register(t, c.source.value) else t, c.target)
  }

  function OwnersIn(t: Table): OwnerMap {
    map n | n in t :: t[n].resource
  }

  function OfferEgress(t: Table, name: string, rule: Rule): Table {
    if name in t then t[name := t[name].(egress := AddNew(t[name].egress, rule))] else t
  }

  function OfferIngress(t: Table, name: string, rule: Rule): Table {
    if name in t then t[name := t[name].(ingress := AddNew(t[name].ingress, rule))] else t
  }

  /** Adds the rules of a connection to the entries of its two ends. */
  function ApplyOffers(t: Table, c: Connection): Table {
    var owners := OwnersIn(t);
    if PortsOf(c) == [] then t
    else
      OfferIngress(
        if HasSource(c) then OfferEgress(t, c.source.value.name, EgressRuleOf(owners, c)) else t,
        c.target.name, IngressRuleOf(owners, c))
  }

  /** The effect of one connection. */
  function Step(t: Table, c: Connection): Table {
    ApplyOffers(Registered(t, c), c)
  }

  function TableOf(conns: seq<Connection>): Table {
    if conns == [] then map[] else Step(TableOf(conns[..|conns| - 1]), conns[|conns| - 1])
  }

  // ----- policies -----

  function DnsRule(dnsPort: IntOrString): Rule {
    Rule([ALL_CLUSTER], [NetpolPort("UDP", dnsPort)])
  }

  function WithDns(egress: seq<Rule>, dnsPort: IntOrString): seq<Rule> {
    if egress == [] then [] else AddNew(egress, DnsRule(dnsPort))
  }

  function NetpolOf(e: Entry, dnsPort: IntOrString): Policy {
    Policy(e.resource.name + "-netpol", e.resource.namespace, e.resource.labels,
           e.ingress, WithDns(e.egress, dnsPort), [Ingress, Egress])
  }

  function DenyName(namespace: string): string {
    "default-deny-in-namespace" + (if namespace == "" then "" else "-" + namespace)
  }

  function DenyPolicy(namespace: string): Policy {
    Policy(DenyName(namespace), namespace, map[], [], [], [Ingress, Egress])
  }

  function NamespacesOf(resources: seq<Resource>): seq<string> {
    seq(|resources|, i requires 0 <= i < |resources| => resources[i].namespace)
  }

  function DenyPolicies(resources: seq<Resource>): seq<Policy> {
    var namespaces := Dedup(NamespacesOf(resources));
    seq(|namespaces|, i requires 0 <= i < |namespaces| => DenyPolicy(namespaces[i]))
  }

  /** The entries of a table in increasing order of their names. */
  ghost function Listing(t: Table): seq<Entry> {
    var names := Sorted(t.Keys);
    SortedListsTheNames(t.Keys);
    seq(|names|, i requires 0 <= i < |names| => assert names[i] in t.Keys; t[names[i]])
  }

  function PoliciesOf(es: seq<Entry>, dnsPort: IntOrString): seq<Policy> {
    seq(|es|, i requires 0 <= i < |es| => NetpolOf(es[i], dnsPort))
  }

  ghost function PoliciesFor(resources: seq<Resource>, t: Table, dnsPort: IntOrString): seq<Policy> {
    PoliciesOf(Listing(t), dnsPort) + DenyPolicies(resources)
  }

  ghost function Synth(resources: seq<Resource>, conns: seq<Connection>, dnsPort: IntOrString): seq<Policy> {
    PoliciesFor(resources, TableOf(conns), dnsPort)
  }
}
