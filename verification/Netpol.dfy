/** Network policies and what they mean.

    The semantics is that of NetworkPolicy in the networking.k8s.io/v1 API: the
    Kubernetes page "Network Policies", sections "The two sorts of pod isolation"
    and "Behavior of to and from selectors". */
module Netpol {
  import opened Model

  datatype NetpolPort = NetpolPort(protocol: string, port: IntOrString)

  type Selector = map<string, string>

  datatype Peer = Peer(podSelector: Option<Selector>, namespaceSelector: Option<Selector>)

  /** An ingress rule (its peers are the "from" list) or an egress rule (the "to" list). */
  datatype Rule = Rule(peers: seq<Peer>, ports: seq<NetpolPort>)

  datatype PolicyType = Ingress | Egress

  datatype Policy = Policy(name: string, namespace: string, podSelector: Selector,
                           ingress: seq<Rule>, egress: seq<Rule>, policyTypes: seq<PolicyType>)

  /** One end of a flow: a pod, with its own labels and those of its namespace,
      or an address outside the cluster. */
  datatype Endpoint = Pod(namespace: string, nsLabels: map<string, string>, labels: map<string, string>)
                    | External

  /** Kubernetes puts this label on every namespace. */
  const NAMESPACE_LABEL := "kubernetes.io/metadata.name"

  predicate WellLabelled(e: Endpoint) {
    e.Pod? ==> "kubernetes.io/metadata.name" in e.nsLabels
               && e.nsLabels["kubernetes.io/metadata.name"] == e.namespace
  }

  ghost predicate Matches(selector: Selector, labels: map<string, string>) {
    forall k :: k in selector ==> k in labels && labels[k] == selector[k]
  }

  ghost predicate PeerMatches(policyNs: string, peer: Peer, e: Endpoint) {
    && e.Pod?
    && (peer.podSelector.None? || Matches(peer.podSelector.value, e.labels))
    && (if peer.namespaceSelector.None? then e.namespace == policyNs
        else Matches(peer.namespaceSelector.value, e.nsLabels))
  }

  /** Empty lists admit every peer and every port. */
  ghost predicate Admits(policyNs: string, rule: Rule, e: Endpoint, p: NetpolPort) {
    && (rule.peers == [] || exists peer :: peer in rule.peers && PeerMatches(policyNs, peer, e))
    && (rule.ports == [] || p in rule.ports)
  }

  ghost predicate Selects(policy: Policy, e: Endpoint) {
    e.Pod? && policy.namespace == e.namespace && Matches(policy.podSelector, e.labels)
  }

  ghost predicate IsolatedFor(t: PolicyType, policies: seq<Policy>, e: Endpoint) {
    exists pol :: pol in policies && Selects(pol, e) && t in pol.policyTypes
  }

  ghost predicate EgressAllowed(policies: seq<Policy>, src: Endpoint, dst: Endpoint, p: NetpolPort) {
    || !IsolatedFor(Egress, policies, src)
    || exists pol, rule :: pol in policies && Selects(pol, src) && Egress in pol.policyTypes
                           && rule in pol.egress && Admits(pol.namespace, rule, dst, p)
  }

  ghost predicate IngressAllowed(policies: seq<Policy>, src: Endpoint, dst: Endpoint, p: NetpolPort) {
    || !IsolatedFor(Ingress, policies, dst)
    || exists pol, rule :: pol in policies && Selects(pol, dst) && Ingress in pol.policyTypes
                           && rule in pol.ingress && Admits(pol.namespace, rule, src, p)
  }

  /** May `src` open a connection to port `p` of `dst`? */
  ghost predicate Allows(policies: seq<Policy>, src: Endpoint, dst: Endpoint, p: NetpolPort) {
    EgressAllowed(policies, src, dst, p) && IngressAllowed(policies, src, dst, p)
  }
}
