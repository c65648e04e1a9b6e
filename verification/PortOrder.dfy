/** When the ports by which a workload uses a Service are determined, in spite of Go's map order. */
module PortOrder {
  import opened Model
  import opened Netpol
  import opened Sequences
  import opened Addresses
  import opened AddressExtraction
  import opened Inlining
  import opened InliningTheorems
  import opened SynthSpec
  import opened DiscoverySpec

  /** The port of `svc` that an address names by number, if it does. */
  function NumberedPort(addr: string, svc: Service, viewerNs: string): seq<NetpolPort> {
    var m := Match(addr, svc, viewerNs);
    if m.Some? && m.value.port > 0 then [ToNetpolPort(m.value)] else []
  }

  function PortList(addrs: seq<string>, svc: Service, viewerNs: string): seq<NetpolPort> {
    ToNetpolPorts(PortsUsedBy(addrs, svc, viewerNs), false)
  }

  lemma {:induction false} ToNetpolPortsAppend(a: seq<SvcNetworkAttr>, b: seq<SvcNetworkAttr>)
    ensures ToNetpolPorts(a + b, false) == ToNetpolPorts(a, false) + ToNetpolPorts(b, false)
  {
    if b == [] {
      assert a + b == a;
    } else {
      assert (a + b)[..|a + b| - 1] == a + b[..|b| - 1];
      ToNetpolPortsAppend(a, b[..|b| - 1]);
    }
  }

  lemma PortOfOne(addr: string, svc: Service, viewerNs: string)
    ensures ToNetpolPorts(PortUsedBy(addr, svc, viewerNs), false) == NumberedPort(addr, svc, viewerNs)
  {
    hide Match;
    var used := PortUsedBy(addr, svc, viewerNs);
    assert used != [] ==> used[..0] == [];
    assert ToNetpolPorts([], false) == [];
  }

  lemma {:induction false} PortListMap(f: string -> seq<NetpolPort>, addrs: seq<string>, svc: Service, viewerNs: string)
    requires forall a :: f(a) == NumberedPort(a, svc, viewerNs)
    ensures PortList(addrs, svc, viewerNs) == FlatMap(f, addrs)
  {
    hide NumberedPort, PortUsedBy;
    if addrs != [] {
      var init, last := addrs[..|addrs| - 1], addrs[|addrs| - 1];
      PortListMap(f, init, svc, viewerNs);
      ToNetpolPortsAppend(PortsUsedBy(init, svc, viewerNs), PortUsedBy(last, svc, viewerNs));
      PortOfOne(last, svc, viewerNs);
    }
  }

  // ----- the condition -----

  /** The port of `svc` that the address in a configuration value names. */
  function PortIn(lib: Lib, value: string, svc: Service, viewerNs: string): seq<NetpolPort> {
    var address := AddressIn(lib, value);
    if address.Some? then NumberedPort(address.value, svc, viewerNs) else []
  }

  /** All values of a ConfigMap that name a port of `svc` by number name the same one. */
  ghost predicate OnePort(lib: Lib, data: map<string, string>, svc: Service, viewerNs: string) {
    forall k1, k2 :: k1 in data && k2 in data
                     && PortIn(lib, data[k1], svc, viewerNs) != [] && PortIn(lib, data[k2], svc, viewerNs) != []
                     ==> PortIn(lib, data[k1], svc, viewerNs) == PortIn(lib, data[k2], svc, viewerNs)
  }

  /** None of the ConfigMaps that `r` refers to as a whole names two different ports of `svc`. */
  ghost predicate PortOrderFixed(lib: Lib, cms: CfgMaps, r: Resource, svc: Service) {
    forall ref :: ref in r.configMapRefs && FullName(r.namespace, ref) in cms
                  ==> OnePort(lib, cms[FullName(r.namespace, ref)].data, svc, r.namespace)
  }

  // ----- it suffices -----

  lemma {:induction false} NumberAlike(lib: Lib, cms: CfgMaps, r: Resource, svc: Service, ref: string,
                                       x: string, y: string)
    requires PortOrderFixed(lib, cms, r, svc) && ref in r.configMapRefs
    requires x in AddressesByRef(lib, cms, r.namespace, ref) && y in AddressesByRef(lib, cms, r.namespace, ref)
    requires NumberedPort(x, svc, r.namespace) != [] && NumberedPort(y, svc, r.namespace) != []
    ensures NumberedPort(x, svc, r.namespace) == NumberedPort(y, svc, r.namespace)
  {
    hide AddressIn, AddressesByRef, FullName, NumberedPort;
    AddressesByRefElements(lib, cms, r.namespace, ref, x);
    AddressesByRefElements(lib, cms, r.namespace, ref, y);
  }

  lemma {:induction false} PartsMapAlike(lib: Lib, cms: CfgMaps, r: Resource, svc: Service,
                                         f: string -> seq<NetpolPort>, ref: string, a: seq<string>, b: seq<string>)
    requires forall x :: f(x) == NumberedPort(x, svc, r.namespace)
    requires PortOrderFixed(lib, cms, r, svc) && ref in r.configMapRefs
    requires multiset(a) == multiset(b) == AddressesByRef(lib, cms, r.namespace, ref)
    ensures FlatMap(f, a) == FlatMap(f, b)
  {
    hide AddressesByRef, NumberedPort, FlatMap, PortOrderFixed;
    forall p, q | p in FlatMap(f, a) && q in FlatMap(f, a) ensures p == q {
      FlatMapElements(f, a, p);
      FlatMapElements(f, a, q);
      var x :| x in a && p in f(x);
      var y :| y in a && q in f(y);
      assert x in multiset(a) && y in multiset(a);
      NumberAlike(lib, cms, r, svc, ref, x, y);
      NumberedIsOne(x, svc, r.namespace);
    }
    FlatMapPermutes(f, a, b);
    ConstantsAreEqual(FlatMap(f, a), FlatMap(f, b));
  }

  lemma NumberedIsOne(x: string, svc: Service, viewerNs: string)
    ensures |NumberedPort(x, svc, viewerNs)| <= 1
  {
  }

  lemma {:induction false} SamePortList(lib: Lib, cms: CfgMaps, r: Resource, svc: Service, a: Resource, b: Resource)
    requires PortOrderFixed(lib, cms, r, svc) && Inlined(lib, cms, r, a) && Inlined(lib, cms, r, b)
    ensures PortList(a.networkAddrs, svc, r.namespace) == PortList(b.networkAddrs, svc, r.namespace)
  {
    hide AddressesByRef, NumberedPort, Flatten, FlatMap, PortList, PortOrderFixed;
    var f := (x: string) => NumberedPort(x, svc, r.namespace);
    var parts1 :| InlinedWith(lib, cms, r, a, parts1);
    var parts2 :| InlinedWith(lib, cms, r, b, parts2);
    forall i | 0 <= i < |parts1| ensures FlatMap(f, parts1[i]) == FlatMap(f, parts2[i]) {
      PartsMapAlike(lib, cms, r, svc, f, r.configMapRefs[i], parts1[i], parts2[i]);
    }
    FlatMapFlatten(f, parts1, parts2);
    var keyed := AddressesByKeyRefs(lib, cms, r.namespace, r.configMapKeyRefs);
    FlatMapAppend(f, Flatten(parts1), keyed);
    FlatMapAppend(f, Flatten(parts2), keyed);
    FlatMapAppend(f, r.networkAddrs, Flatten(parts1) + keyed);
    FlatMapAppend(f, r.networkAddrs, Flatten(parts2) + keyed);
    PortListMap(f, a.networkAddrs, svc, r.namespace);
    PortListMap(f, b.networkAddrs, svc, r.namespace);
  }

  // ----- and it is needed -----

  lemma {:induction false} PortListFrom(prefix: seq<string>, x: string, rest: seq<string>, svc: Service,
                                        viewerNs: string)
    requires NumberedPort(x, svc, viewerNs) != []
    ensures var ports, k := PortList(prefix + [x] + rest, svc, viewerNs), |PortList(prefix, svc, viewerNs)|;
            k < |ports| && [ports[k]] == NumberedPort(x, svc, viewerNs)
  {
    hide FlatMap, PortList;
    var f := (a: string) => NumberedPort(a, svc, viewerNs);
    PortListMap(f, prefix + [x] + rest, svc, viewerNs);
    PortListMap(f, prefix, svc, viewerNs);
    FlatMapAppend(f, prefix + [x], rest);
    FlatMapAppend(f, prefix, [x]);
    FlatMapSingle(f, x);
    NumberedIsOne(x, svc, viewerNs);
  }

  lemma {:induction false} TwoPorts(lib: Lib, cms: CfgMaps, r: Resource, svc: Service, ref: string)
    returns (a: Resource, b: Resource)
    requires ref in r.configMapRefs && FullName(r.namespace, ref) in cms
    requires !OnePort(lib, cms[FullName(r.namespace, ref)].data, svc, r.namespace)
    ensures Inlined(lib, cms, r, a) && Inlined(lib, cms, r, b)
    ensures PortList(a.networkAddrs, svc, r.namespace) != PortList(b.networkAddrs, svc, r.namespace)
  {
    hide AddressIn, AddressesByRef, FullName, NumberedPort, PortList, Flatten, Inlined;
    var data := cms[FullName(r.namespace, ref)].data;
    var k1, k2 :| k1 in data && k2 in data
                  && PortIn(lib, data[k1], svc, r.namespace) != [] && PortIn(lib, data[k2], svc, r.namespace) != []
                  && PortIn(lib, data[k1], svc, r.namespace) != PortIn(lib, data[k2], svc, r.namespace);
    var x, y := AddressIn(lib, data[k1]).value, AddressIn(lib, data[k2]).value;
    AddressesByRefElements(lib, cms, r.namespace, ref, x);
    AddressesByRefElements(lib, cms, r.namespace, ref, y);
    var parts := SomeReadings(lib, cms, r.namespace, r.configMapRefs);
    var i :| 0 <= i < |r.configMapRefs| && r.configMapRefs[i] == ref;
    assert x in multiset(parts[i]) && y in multiset(parts[i]);
    var restA, restB;
    a, restA := ReadingFrom(lib, cms, r, parts, i, x);
    b, restB := ReadingFrom(lib, cms, r, parts, i, y);
    var prefix := r.networkAddrs + Flatten(parts[..i]);
    PortListFrom(prefix, x, restA, svc, r.namespace);
    PortListFrom(prefix, y, restB, svc, r.namespace);
  }

  /** The list of ports by which a workload uses a Service is determined, however Go ranges over maps,
      if and only if no ConfigMap that it refers to as a whole names two different ports of the Service. */
  lemma {:induction false} PortsAreDeterminedExactly(lib: Lib, cms: CfgMaps, r: Resource, svc: Service)
    ensures (forall a, b :: Inlined(lib, cms, r, a) && Inlined(lib, cms, r, b) ==>
               PortList(a.networkAddrs, svc, r.namespace) == PortList(b.networkAddrs, svc, r.namespace))
            <==> PortOrderFixed(lib, cms, r, svc)
  {
    hide Inlined, PortList, OnePort, FullName;
    if PortOrderFixed(lib, cms, r, svc) {
      forall a, b | Inlined(lib, cms, r, a) && Inlined(lib, cms, r, b)
        ensures PortList(a.networkAddrs, svc, r.namespace) == PortList(b.networkAddrs, svc, r.namespace)
      {
        SamePortList(lib, cms, r, svc, a, b);
      }
    }
    if ref :| ref in r.configMapRefs && FullName(r.namespace, ref) in cms
              && !OnePort(lib, cms[FullName(r.namespace, ref)].data, svc, r.namespace) {
      var a, b := TwoPorts(lib, cms, r, svc, ref);
    }
  }
}
