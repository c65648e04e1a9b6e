/** What inlining ConfigMap references adds to a workload, and which references dangle. */
module Inlining {
  import opened Model
  import opened Sequences
  import opened AddressExtraction
  import opened Errors

  type CfgMaps = map<string, CfgMap>

  /** A later ConfigMap of the same full name replaces an earlier one. */
  function ByName(configmaps: seq<CfgMap>): CfgMaps {
    if configmaps == [] then map[]
    else
      var last := configmaps[|configmaps| - 1];
      ByName(configmaps[..|configmaps| - 1])[last.fullName := last]
  }

  function FullName(namespace: string, name: string): string {
    namespace + "/" + name
  }

  // ----- addresses -----

  function AddressesOf(lib: Lib, value: string): seq<string> {
    if AddressIn(lib, value).Some? then [AddressIn(lib, value).value] else []
  }

  /** The addresses in the values of some keys of a ConfigMap. */
  ghost function AddressesUnder(lib: Lib, data: map<string, string>, keys: set<string>): multiset<string>
    requires keys <= data.Keys
  {
    if keys == {} then multiset{}
    else
      var k :| k in keys;
      AddressesUnder(lib, data, keys - {k}) + multiset(AddressesOf(lib, data[k]))
  }

  /** Any key may be taken first. */
  lemma {:induction false} AddressesUnderAnyOrder(lib: Lib, data: map<string, string>, keys: set<string>, k: string)
    requires keys <= data.Keys && k in keys
    ensures AddressesUnder(lib, data, keys)
            == AddressesUnder(lib, data, keys - {k}) + multiset(AddressesOf(lib, data[k]))
    decreases |keys|
  {
    var first :| first in keys && AddressesUnder(lib, data, keys)
                                  == AddressesUnder(lib, data, keys - {first}) + multiset(AddressesOf(lib,
                                      data[first]));
    if first != k {
      AddressesUnderAnyOrder(lib, data, keys - {first}, k);
      AddressesUnderAnyOrder(lib, data, keys - {k}, first);
      assert keys - {first} - {k} == keys - {k} - {first};
    }
  }

  lemma {:induction false} AddressesUnderElements(lib: Lib, data: map<string, string>, keys: set<string>, a: string)
    requires keys <= data.Keys
    ensures a in AddressesUnder(lib, data, keys) <==> exists k :: k in keys && AddressIn(lib, data[k]) == Some(a)
    decreases |keys|
  {
    if keys != {} {
      var k :| k in keys;
      AddressesUnderAnyOrder(lib, data, keys, k);
      AddressesUnderElements(lib, data, keys - {k}, a);
    }
  }

  ghost function AddressesByRef(lib: Lib, cms: CfgMaps, namespace: string, ref: string): multiset<string> {
    var name := FullName(namespace, ref);
    if name in cms then AddressesUnder(lib, cms[name].data, cms[name].data.Keys) else multiset{}
  }

  function ValueByKeyRef(cms: CfgMaps, namespace: string, ref: CfgMapKeyRef): Option<string> {
    var name := FullName(namespace, ref.name);
    if name in cms && ref.key in cms[name].data then Some(cms[name].data[ref.key]) else None
  }

  function AddressesByKeyRef(lib: Lib, cms: CfgMaps, namespace: string, ref: CfgMapKeyRef): seq<string> {
    var value := ValueByKeyRef(cms, namespace, ref);
    if value.Some? then AddressesOf(lib, value.value) else []
  }

  function AddressesByKeyRefs(lib: Lib, cms: CfgMaps, namespace: string, refs: seq<CfgMapKeyRef>): seq<string> {
    if refs == [] then []
    else
      AddressesByKeyRefs(lib, cms, namespace, refs[..|refs| - 1])
      + AddressesByKeyRef(lib, cms, namespace, refs[|refs| - 1])
  }

  function WithAddrs(r: Resource, addrs: seq<string>): Resource {
    r.(networkAddrs := r.networkAddrs + addrs)
  }

  lemma WithMoreAddrs(r: Resource, a: seq<string>, b: seq<string>)
    ensures WithAddrs(WithAddrs(r, a), b) == WithAddrs(r, a + b)
  {
    assert r.networkAddrs + a + b == r.networkAddrs + (a + b);
  }

  /** `parts` lists, reference by reference, the addresses found in the ConfigMap referred to,
      whose values are read in some order. */
  ghost predicate Readings(lib: Lib, cms: CfgMaps, namespace: string, refs: seq<string>, parts: seq<seq<string>>) {
    && |parts| == |refs|
    && forall i :: 0 <= i < |refs| ==> multiset(parts[i]) == AddressesByRef(lib, cms, namespace, refs[i])
  }

  lemma NothingRead(lib: Lib, cms: CfgMaps, namespace: string)
    ensures Readings(lib, cms, namespace, [], []) && Flatten<string>([]) == []
  {
  }

  lemma ReadOneRefMore(lib: Lib, cms: CfgMaps, namespace: string, refs: seq<string>, i: nat,
                       parts: seq<seq<string>>, found: seq<string>)
    requires i < |refs| && Readings(lib, cms, namespace, refs[..i], parts)
    requires multiset(found) == AddressesByRef(lib, cms, namespace, refs[i])
    ensures Readings(lib, cms, namespace, refs[..i + 1], parts + [found])
    ensures Flatten(parts + [found]) == Flatten(parts) + found
  {
    hide AddressesByRef;
    assert (parts + [found])[..i] == parts;
  }

  /** The addresses found through whole ConfigMaps, in the order of the references, and then
      those of single keys. */
  ghost predicate InlinedWith(lib: Lib, cms: CfgMaps, before: Resource, after: Resource, parts: seq<seq<string>>) {
    && Readings(lib, cms, before.namespace, before.configMapRefs, parts)
    && after == WithAddrs(before, Flatten(parts)
                                  + AddressesByKeyRefs(lib, cms, before.namespace, before.configMapKeyRefs))
  }

  ghost predicate Inlined(lib: Lib, cms: CfgMaps, before: Resource, after: Resource) {
    exists parts :: InlinedWith(lib, cms, before, after, parts)
  }

  /** Workload by workload. */
  ghost predicate InlinedAll(lib: Lib, cms: CfgMaps, before: seq<Resource>, after: seq<Resource>) {
    && |after| == |before|
    && (before == [] || (&& InlinedAll(lib, cms, before[..|before| - 1], after[..|after| - 1])
                         && Inlined(lib, cms, before[|before| - 1], after[|after| - 1])))
  }

  lemma {:induction false} InlinedEach(lib: Lib, cms: CfgMaps, before: seq<Resource>, after: seq<Resource>)
    requires InlinedAll(lib, cms, before, after)
    ensures |after| == |before| && forall i :: 0 <= i < |before| ==> Inlined(lib, cms, before[i], after[i])
  {
    if before != [] {
      InlinedEach(lib, cms, before[..|before| - 1], after[..|after| - 1]);
    }
  }

  lemma NoneInlined(lib: Lib, cms: CfgMaps)
    ensures InlinedAll(lib, cms, [], []) && AllDangling(cms, []) == []
  {
  }

  lemma InlinedOneMore(lib: Lib, cms: CfgMaps, before: seq<Resource>, after: seq<Resource>, b: Resource, a: Resource)
    requires InlinedAll(lib, cms, before, after) && Inlined(lib, cms, b, a)
    ensures InlinedAll(lib, cms, before + [b], after + [a])
    ensures AllDangling(cms, before + [b]) == AllDangling(cms, before) + Dangling(cms, b)
  {
    assert (before + [b])[..|before|] == before && (after + [a])[..|after|] == after;
  }

  // ----- errors -----

  function DanglingRef(cms: CfgMaps, namespace: string, owner: string, ref: string): seq<FileProcessingError> {
    var name := FullName(namespace, ref);
    if name in cms then [] else [MissingConfigMap(name, owner)]
  }

  function DanglingKeyRef(cms: CfgMaps, namespace: string, owner: string, ref: CfgMapKeyRef): seq<FileProcessingError> {
    var name := FullName(namespace, ref.name);
    if name !in cms then [MissingConfigMap(name, owner)]
    else if ref.key !in cms[name].data then [MissingConfigMapKey(ref.name, ref.key, owner)]
    else []
  }

  function DanglingRefs(cms: CfgMaps, namespace: string, owner: string, refs: seq<string>): seq<FileProcessingError> {
    if refs == [] then []
    else DanglingRefs(cms, namespace, owner, refs[..|refs| - 1]) + DanglingRef(cms, namespace, owner, refs[|refs| - 1])
  }

  function DanglingKeyRefs(cms: CfgMaps, namespace: string, owner: string,
                           refs: seq<CfgMapKeyRef>): seq<FileProcessingError> {
    if refs == [] then []
    else DanglingKeyRefs(cms, namespace, owner, refs[..|refs| - 1]) + DanglingKeyRef(cms, namespace, owner,
        refs[|refs| - 1])
  }

  function Dangling(cms: CfgMaps, r: Resource): seq<FileProcessingError> {
    DanglingRefs(cms, r.namespace, r.name, r.configMapRefs)
    + DanglingKeyRefs(cms, r.namespace, r.name, r.configMapKeyRefs)
  }

  /** One error per reference that leads nowhere, in the order of the references. */
  function AllDangling(cms: CfgMaps, rs: seq<Resource>): seq<FileProcessingError> {
    if rs == [] then [] else AllDangling(cms, rs[..|rs| - 1]) + Dangling(cms, rs[|rs| - 1])
  }

  lemma {:induction false} DanglingIsMild(cms: CfgMaps, rs: seq<Resource>)
    ensures Mild(AllDangling(cms, rs))
  {
    if rs != [] {
      DanglingIsMild(cms, rs[..|rs| - 1]);
      var r := rs[|rs| - 1];
      DanglingRefsAreMild(cms, r.namespace, r.name, r.configMapRefs);
      DanglingKeyRefsAreMild(cms, r.namespace, r.name, r.configMapKeyRefs);
    }
  }

  lemma {:induction false} DanglingRefsAreMild(cms: CfgMaps, namespace: string, owner: string, refs: seq<string>)
    ensures Mild(DanglingRefs(cms, namespace, owner, refs))
  {
    if refs != [] {
      DanglingRefsAreMild(cms, namespace, owner, refs[..|refs| - 1]);
    }
  }

  lemma {:induction false} DanglingKeyRefsAreMild(cms: CfgMaps, namespace: string, owner: string,
                                                  refs: seq<CfgMapKeyRef>)
    ensures Mild(DanglingKeyRefs(cms, namespace, owner, refs))
  {
    if refs != [] {
      DanglingKeyRefsAreMild(cms, namespace, owner, refs[..|refs| - 1]);
    }
  }

  // ----- what inlining makes known -----

  /** Workload `r` is configured with address `a`: directly, or by the value under some key of a
      ConfigMap that it refers to, or by the value under the one key that it refers to. */
  ghost predicate Configures(lib: Lib, cms: CfgMaps, r: Resource, a: string) {
    || a in r.networkAddrs
    || (exists ref, k :: && ref in r.configMapRefs && r.namespace + "/" + ref in cms
                         && k in cms[r.namespace + "/" + ref].data
                         && AddressIn(lib, cms[r.namespace + "/" + ref].data[k]) == Some(a))
    || (exists ref :: && ref in r.configMapKeyRefs && r.namespace + "/" + ref.name in cms
                      && ref.key in cms[r.namespace + "/" + ref.name].data
                      && AddressIn(lib, cms[r.namespace + "/" + ref.name].data[ref.key]) == Some(a))
  }

  lemma AddressesByRefElements(lib: Lib, cms: CfgMaps, namespace: string, ref: string, a: string)
    ensures a in AddressesByRef(lib, cms, namespace, ref)
            <==> exists k :: && FullName(namespace, ref) in cms && k in cms[FullName(namespace, ref)].data
                             && AddressIn(lib, cms[FullName(namespace, ref)].data[k]) == Some(a)
  {
    var name := FullName(namespace, ref);
    if name in cms {
      AddressesUnderElements(lib, cms[name].data, cms[name].data.Keys, a);
    }
  }

  lemma {:induction false} ReadingsElements(lib: Lib, cms: CfgMaps, namespace: string, refs: seq<string>,
                                            parts: seq<seq<string>>, a: string)
    requires Readings(lib, cms, namespace, refs, parts)
    ensures a in Flatten(parts)
            <==> exists ref, k :: && ref in refs && namespace + "/" + ref in cms
                                  && k in cms[namespace + "/" + ref].data
                                  && AddressIn(lib, cms[namespace + "/" + ref].data[k]) == Some(a)
  {
    hide AddressesByRef, AddressIn;
    FlattenElements(parts, a);
    forall i | 0 <= i < |refs|
      ensures a in parts[i]
              <==> exists k :: && namespace + "/" + refs[i] in cms && k in cms[namespace + "/" + refs[i]].data
                               && AddressIn(lib, cms[namespace + "/" + refs[i]].data[k]) == Some(a)
    {
      assert a in parts[i] <==> a in multiset(parts[i]);
      var name := FullName(namespace, refs[i]);
      assert name == namespace + "/" + refs[i];
      AddressesByRefElements(lib, cms, namespace, refs[i], a);
    }
  }

  lemma AddressByKeyRef(lib: Lib, cms: CfgMaps, namespace: string, ref: CfgMapKeyRef, a: string)
    ensures a in AddressesByKeyRef(lib, cms, namespace, ref)
            <==> && namespace + "/" + ref.name in cms && ref.key in cms[namespace + "/" + ref.name].data
                 && AddressIn(lib, cms[namespace + "/" + ref.name].data[ref.key]) == Some(a)
  {
    hide AddressIn;
  }

  lemma {:induction false} AddressesByKeyRefsElements(lib: Lib, cms: CfgMaps, namespace: string,
                                                      refs: seq<CfgMapKeyRef>, a: string)
    ensures a in AddressesByKeyRefs(lib, cms, namespace, refs)
            <==> exists ref :: && ref in refs && namespace + "/" + ref.name in cms
                               && ref.key in cms[namespace + "/" + ref.name].data
                               && AddressIn(lib, cms[namespace + "/" + ref.name].data[ref.key]) == Some(a)
  {
    hide AddressIn, AddressesByKeyRef;
    if refs != [] {
      var init, last := refs[..|refs| - 1], refs[|refs| - 1];
      assert refs == init + [last];
      AddressesByKeyRefsElements(lib, cms, namespace, init, a);
      AddressByKeyRef(lib, cms, namespace, last, a);
    }
  }

  /** After inlining, a workload holds exactly the addresses it is configured with, its own first;
      nothing else about it changes. */
  lemma {:induction false} InlinedAddresses(lib: Lib, cms: CfgMaps, before: Resource, after: Resource, a: string)
    requires Inlined(lib, cms, before, after)
    ensures a in after.networkAddrs <==> Configures(lib, cms, before, a)
    ensures after == before.(networkAddrs := after.networkAddrs)
    ensures |before.networkAddrs| <= |after.networkAddrs|
    ensures after.networkAddrs[..|before.networkAddrs|] == before.networkAddrs
  {
    hide AddressIn, Readings, AddressesByKeyRefs;
    var parts :| InlinedWith(lib, cms, before, after, parts);
    ReadingsElements(lib, cms, before.namespace, before.configMapRefs, parts, a);
    AddressesByKeyRefsElements(lib, cms, before.namespace, before.configMapKeyRefs, a);
  }

  /** Of several ConfigMaps with one full name, the last one read is in effect. */
  lemma {:induction false} LastDuplicateWins(configmaps: seq<CfgMap>, name: string)
    ensures name in ByName(configmaps) <==> exists cm :: cm in configmaps && cm.fullName == name
    ensures name in ByName(configmaps) ==>
              exists i :: 0 <= i < |configmaps| && configmaps[i].fullName == name
                          && ByName(configmaps)[name] == configmaps[i]
                          && forall j :: i < j < |configmaps| ==> configmaps[j].fullName != name
  {
    if configmaps != [] {
      var init, last := configmaps[..|configmaps| - 1], configmaps[|configmaps| - 1];
      assert configmaps == init + [last];
      LastDuplicateWins(init, name);
      if last.fullName == name {
        assert configmaps[|configmaps| - 1] == last;
      } else if name in ByName(init) {
        var i :| 0 <= i < |init| && init[i].fullName == name && ByName(init)[name] == init[i]
                 && forall j :: i < j < |init| ==> init[j].fullName != name;
        assert configmaps[i] == init[i];
      }
    }
  }
}
