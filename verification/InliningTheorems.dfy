/** Exactly when inlining is deterministic, and how many errors it reports. */
module InliningTheorems {
  import opened Model
  import opened Sequences
  import opened AddressExtraction
  import opened Errors
  import opened Inlining

  // ----- when inlining is deterministic -----

  /** All addresses in the values of a ConfigMap are the same one. */
  ghost predicate AtMostOneAddress(lib: Lib, data: map<string, string>) {
    forall k1, k2 :: k1 in data && k2 in data
                     && AddressIn(lib, data[k1]).Some? && AddressIn(lib, data[k2]).Some?
                     ==> AddressIn(lib, data[k1]) == AddressIn(lib, data[k2])
  }

  /** None of the ConfigMaps that `r` refers to as a whole holds two different addresses. */
  ghost predicate OrderCannotMatter(lib: Lib, cms: CfgMaps, r: Resource) {
    forall ref :: ref in r.configMapRefs && FullName(r.namespace, ref) in cms
                  ==> AtMostOneAddress(lib, cms[FullName(r.namespace, ref)].data)
  }

  lemma {:induction false} SeqOf<T>(m: multiset<T>) returns (s: seq<T>)
    ensures multiset(s) == m
    decreases |m|
  {
    if |m| == 0 {
      s := [];
    } else {
      var x :| x in m;
      s := SeqOf(m - multiset{x});
      s := s + [x];
    }
  }

  lemma {:induction false} SomeReadings(lib: Lib, cms: CfgMaps, namespace: string, refs: seq<string>)
    returns (parts: seq<seq<string>>)
    ensures Readings(lib, cms, namespace, refs, parts)
  {
    hide AddressesByRef;
    parts := [];
    if refs != [] {
      parts := SomeReadings(lib, cms, namespace, refs[..|refs| - 1]);
      var last := SeqOf(AddressesByRef(lib, cms, namespace, refs[|refs| - 1]));
      parts := parts + [last];
    }
  }

  lemma {:induction false} SomeInlining(lib: Lib, cms: CfgMaps, before: Resource) returns (after: Resource)
    ensures Inlined(lib, cms, before, after)
  {
    var parts := SomeReadings(lib, cms, before.namespace, before.configMapRefs);
    after := WithAddrs(before, Flatten(parts)
                               + AddressesByKeyRefs(lib, cms, before.namespace, before.configMapKeyRefs));
    assert InlinedWith(lib, cms, before, after, parts);
  }

  lemma {:induction false} ConstantsAreEqual<T>(s: seq<T>, t: seq<T>)
    requires multiset(s) == multiset(t)
    requires forall x, y :: x in s && y in s ==> x == y
    ensures s == t
  {
    assert |s| == |multiset(s)| && |t| == |multiset(t)|;
    forall i | 0 <= i < |s| ensures s[i] == t[i] {
      assert t[i] in multiset(t);
      assert s[i] in s && t[i] in s;
    }
  }

  /** Where no ConfigMap holds two addresses, there is only one way to inline. */
  lemma {:induction false} OneReading(lib: Lib, cms: CfgMaps, r: Resource, a: seq<seq<string>>, b: seq<seq<string>>)
    requires OrderCannotMatter(lib, cms, r)
    requires Readings(lib, cms, r.namespace, r.configMapRefs, a)
    requires Readings(lib, cms, r.namespace, r.configMapRefs, b)
    ensures a == b
  {
    hide AddressIn, AddressesByRef, FullName;
    forall i | 0 <= i < |a| ensures a[i] == b[i] {
      var ref := r.configMapRefs[i];
      forall x, y | x in a[i] && y in a[i] ensures x == y {
        assert x in multiset(a[i]) && y in multiset(a[i]);
        AddressesByRefElements(lib, cms, r.namespace, ref, x);
        AddressesByRefElements(lib, cms, r.namespace, ref, y);
      }
      ConstantsAreEqual(a[i], b[i]);
    }
  }

  /** A list of the same elements that begins with `x`. */
  lemma StartWith<T>(m: multiset<T>, x: T) returns (s: seq<T>)
    requires x in m
    ensures multiset(s) == m && s != [] && s[0] == x
  {
    var rest := SeqOf(m - multiset{x});
    s := [x] + rest;
  }

  lemma {:induction false} FlattenAt<T>(a: seq<seq<T>>, i: nat)
    requires i < |a|
    ensures Flatten(a) == Flatten(a[..i]) + a[i] + Flatten(a[i + 1..])
  {
    assert a == a[..i] + ([a[i]] + a[i + 1..]);
    FlattenAppend(a[..i], [a[i]] + a[i + 1..]);
    FlattenAppend([a[i]], a[i + 1..]);
    assert [a[i]][..0] == [];
    assert Flatten([a[i]]) == a[i];
  }

  /** The reading of one ConfigMap may start with any of its addresses. */
  lemma {:induction false} ReadingFrom(lib: Lib, cms: CfgMaps, r: Resource, parts: seq<seq<string>>, i: nat,
                                       x: string) returns (after: Resource, rest: seq<string>)
    requires Readings(lib, cms, r.namespace, r.configMapRefs, parts) && i < |parts|
    requires x in parts[i]
    ensures Inlined(lib, cms, r, after)
    ensures after.networkAddrs == r.networkAddrs + Flatten(parts[..i]) + [x] + rest
  {
    hide AddressesByRef, AddressesByKeyRefs, Flatten;
    assert x in multiset(parts[i]);
    var part := StartWith(multiset(parts[i]), x);
    var others := parts[i := part];
    assert others[..i] == parts[..i];
    var keyed := AddressesByKeyRefs(lib, cms, r.namespace, r.configMapKeyRefs);
    after := WithAddrs(r, Flatten(others) + keyed);
    assert InlinedWith(lib, cms, r, after, others);
    FlattenAt(others, i);
    rest := part[1..] + Flatten(others[i + 1..]) + keyed;
    assert part == [x] + part[1..];
  }

  /** The addresses of a workload are determined, however Go ranges over maps, if and only if
      no ConfigMap that it refers to as a whole holds two different addresses. */
  lemma {:induction false} InliningIsDeterminedExactly(lib: Lib, cms: CfgMaps, before: Resource)
    ensures (forall a, b :: Inlined(lib, cms, before, a) && Inlined(lib, cms, before, b) ==> a == b)
            <==> OrderCannotMatter(lib, cms, before)
  {
    hide AddressIn, AddressesByRef, AtMostOneAddress, Flatten;
    if OrderCannotMatter(lib, cms, before) {
      forall a, b | Inlined(lib, cms, before, a) && Inlined(lib, cms, before, b) ensures a == b {
        var parts1 :| InlinedWith(lib, cms, before, a, parts1);
        var parts2 :| InlinedWith(lib, cms, before, b, parts2);
        OneReading(lib, cms, before, parts1, parts2);
      }
    }
    if ref :| ref in before.configMapRefs && FullName(before.namespace, ref) in cms
              && !AtMostOneAddress(lib, cms[FullName(before.namespace, ref)].data) {
      var x, y := TwoAddresses(lib, cms, before.namespace, ref);
      var parts := SomeReadings(lib, cms, before.namespace, before.configMapRefs);
      var i :| 0 <= i < |before.configMapRefs| && before.configMapRefs[i] == ref;
      assert x in multiset(parts[i]) && y in multiset(parts[i]);
      var a, restA := ReadingFrom(lib, cms, before, parts, i, x);
      var b, restB := ReadingFrom(lib, cms, before, parts, i, y);
      assert a.networkAddrs[|before.networkAddrs + Flatten(parts[..i])|] == x;
    }
  }

  lemma TwoAddresses(lib: Lib, cms: CfgMaps, namespace: string, ref: string) returns (x: string, y: string)
    requires FullName(namespace, ref) in cms && !AtMostOneAddress(lib, cms[FullName(namespace, ref)].data)
    ensures x != y && x in AddressesByRef(lib, cms, namespace, ref) && y in AddressesByRef(lib, cms, namespace, ref)
  {
    hide AddressIn, AddressesByRef;
    var data := cms[FullName(namespace, ref)].data;
    var k1, k2 :| k1 in data && k2 in data && AddressIn(lib, data[k1]).Some? && AddressIn(lib, data[k2]).Some?
                  && AddressIn(lib, data[k1]) != AddressIn(lib, data[k2]);
    x, y := AddressIn(lib, data[k1]).value, AddressIn(lib, data[k2]).value;
    AddressesByRefElements(lib, cms, namespace, ref, x);
    AddressesByRefElements(lib, cms, namespace, ref, y);
  }

  // ----- how many references dangle -----

  /** Where a reference stands: the workload, and the place among its references of either kind. */
  datatype Position = Whole(workload: nat, ref: nat) | Single(workload: nat, ref: nat)

  predicate Dangles(cms: CfgMaps, namespace: string, ref: string) {
    namespace + "/" + ref !in cms
  }

  /** The ConfigMap is missing, or the key in it. */
  predicate KeyDangles(cms: CfgMaps, namespace: string, ref: CfgMapKeyRef) {
    var name := namespace + "/" + ref.name;
    name !in cms || ref.key !in cms[name].data
  }

  ghost function DanglingPositions(cms: CfgMaps, rs: seq<Resource>): set<Position> {
    (set w, i | 0 <= w < |rs| && 0 <= i < |rs[w].configMapRefs|
                && Dangles(cms, rs[w].namespace, rs[w].configMapRefs[i]) :: Whole(w, i))
    + (set w, i | 0 <= w < |rs| && 0 <= i < |rs[w].configMapKeyRefs|
                  && KeyDangles(cms, rs[w].namespace, rs[w].configMapKeyRefs[i]) :: Single(w, i))
  }

  ghost function WholePositions(cms: CfgMaps, namespace: string, refs: seq<string>, w: nat): set<Position> {
    set i | 0 <= i < |refs| && Dangles(cms, namespace, refs[i]) :: Whole(w, i)
  }

  ghost function SinglePositions(cms: CfgMaps, namespace: string, refs: seq<CfgMapKeyRef>, w: nat): set<Position> {
    set i | 0 <= i < |refs| && KeyDangles(cms, namespace, refs[i]) :: Single(w, i)
  }

  lemma {:induction false} WholePositionsGrow(cms: CfgMaps, namespace: string, init: seq<string>, last: string, w: nat)
    ensures WholePositions(cms, namespace, init + [last], w)
            == WholePositions(cms, namespace, init, w)
               + (if Dangles(cms, namespace, last) then {Whole(w, |init|)} else {})
  {
  }

  lemma {:induction false} SinglePositionsGrow(cms: CfgMaps, namespace: string, init: seq<CfgMapKeyRef>,
                                               last: CfgMapKeyRef, w: nat)
    ensures SinglePositions(cms, namespace, init + [last], w)
            == SinglePositions(cms, namespace, init, w)
               + (if KeyDangles(cms, namespace, last) then {Single(w, |init|)} else {})
  {
  }

  lemma {:induction false} CountWhole(cms: CfgMaps, namespace: string, owner: string, refs: seq<string>, w: nat)
    ensures |DanglingRefs(cms, namespace, owner, refs)| == |WholePositions(cms, namespace, refs, w)|
  {
    if refs != [] {
      var init, last := refs[..|refs| - 1], refs[|refs| - 1];
      CountWhole(cms, namespace, owner, init, w);
      WholePositionsGrow(cms, namespace, init, last, w);
      assert refs == init + [last];
    }
  }

  lemma KeyRefDangles(cms: CfgMaps, namespace: string, owner: string, ref: CfgMapKeyRef)
    ensures |DanglingKeyRef(cms, namespace, owner, ref)| == if KeyDangles(cms, namespace, ref) then 1 else 0
  {
  }

  lemma {:induction false} CountSingle(cms: CfgMaps, namespace: string, owner: string, refs: seq<CfgMapKeyRef>, w: nat)
    ensures |DanglingKeyRefs(cms, namespace, owner, refs)| == |SinglePositions(cms, namespace, refs, w)|
  {
    hide DanglingKeyRef, KeyDangles;
    if refs != [] {
      var init, last := refs[..|refs| - 1], refs[|refs| - 1];
      CountSingle(cms, namespace, owner, init, w);
      SinglePositionsGrow(cms, namespace, init, last, w);
      KeyRefDangles(cms, namespace, owner, last);
      assert refs == init + [last];
    }
  }

  /** The positions of one more workload. */
  lemma {:induction false} PositionsGrow(cms: CfgMaps, init: seq<Resource>, r: Resource)
    ensures var before := DanglingPositions(cms, init);
            var whole := WholePositions(cms, r.namespace, r.configMapRefs, |init|);
            var single := SinglePositions(cms, r.namespace, r.configMapKeyRefs, |init|);
            && DanglingPositions(cms, init + [r]) == before + whole + single
            && before !! whole && before !! single && whole !! single
  {
    hide Dangles, KeyDangles;
    var rs := init + [r];
    forall p ensures p in DanglingPositions(cms, rs)
                     <==> || p in DanglingPositions(cms, init)
                          || p in WholePositions(cms, r.namespace, r.configMapRefs, |init|)
                          || p in SinglePositions(cms, r.namespace, r.configMapKeyRefs, |init|) {
      assert forall w :: 0 <= w < |init| ==> rs[w] == init[w];
    }
  }

  /** There is one error for every place in which a reference leads nowhere. */
  lemma {:induction false} DanglingIsCounted(cms: CfgMaps, rs: seq<Resource>)
    ensures |AllDangling(cms, rs)| == |DanglingPositions(cms, rs)|
  {
    hide DanglingPositions, WholePositions, SinglePositions, DanglingRefs, DanglingKeyRefs;
    if rs == [] {
      NoPositions(cms);
    } else {
      var init, r := rs[..|rs| - 1], rs[|rs| - 1];
      assert rs == init + [r];
      DanglingIsCounted(cms, init);
      CountWhole(cms, r.namespace, r.name, r.configMapRefs, |init|);
      CountSingle(cms, r.namespace, r.name, r.configMapKeyRefs, |init|);
      PositionsGrow(cms, init, r);
    }
  }

  lemma NoPositions(cms: CfgMaps)
    ensures DanglingPositions(cms, []) == {}
  {
  }

  // ----- which errors -----

  /** The error that a reference to a whole ConfigMap leads to. */
  predicate MissesMap(cms: CfgMaps, namespace: string, owner: string, ref: string, e: FileProcessingError) {
    && namespace + "/" + ref !in cms
    && e == FileProcessingError(ConfigMapNotFound(namespace + "/" + ref, owner), false, false)
  }

  /** The error that a reference to a single key leads to: for the ConfigMap, or else for the key. */
  predicate MissesKey(cms: CfgMaps, namespace: string, owner: string, ref: CfgMapKeyRef, e: FileProcessingError) {
    var name := namespace + "/" + ref.name;
    if name !in cms then e == FileProcessingError(ConfigMapNotFound(name, owner), false, false)
    else && ref.key !in cms[name].data
         && e == FileProcessingError(ConfigMapKeyNotFound(ref.name, ref.key, owner), false, false)
  }

  lemma {:induction false} MissingMaps(cms: CfgMaps, namespace: string, owner: string, refs: seq<string>,
                                       e: FileProcessingError)
    ensures e in DanglingRefs(cms, namespace, owner, refs)
            <==> exists ref :: ref in refs && MissesMap(cms, namespace, owner, ref, e)
  {
    if refs != [] {
      var init, last := refs[..|refs| - 1], refs[|refs| - 1];
      assert refs == init + [last];
      MissingMaps(cms, namespace, owner, init, e);
      assert e in DanglingRef(cms, namespace, owner, last) <==> MissesMap(cms, namespace, owner, last, e);
    }
  }

  lemma {:induction false} MissingKeys(cms: CfgMaps, namespace: string, owner: string, refs: seq<CfgMapKeyRef>,
                                       e: FileProcessingError)
    ensures e in DanglingKeyRefs(cms, namespace, owner, refs)
            <==> exists ref :: ref in refs && MissesKey(cms, namespace, owner, ref, e)
  {
    if refs != [] {
      var init, last := refs[..|refs| - 1], refs[|refs| - 1];
      assert refs == init + [last];
      MissingKeys(cms, namespace, owner, init, e);
      assert e in DanglingKeyRef(cms, namespace, owner, last) <==> MissesKey(cms, namespace, owner, last, e);
    }
  }

  /** The errors of inlining are those of the references that lead nowhere. */
  lemma {:induction false} DanglingErrors(cms: CfgMaps, rs: seq<Resource>, e: FileProcessingError)
    ensures e in AllDangling(cms, rs)
            <==> exists r :: && r in rs
                             && (|| (exists ref :: && ref in r.configMapRefs
                                                   && MissesMap(cms, r.namespace, r.name, ref, e))
                                 || (exists ref :: && ref in r.configMapKeyRefs
                                                   && MissesKey(cms, r.namespace, r.name, ref, e)))
  {
    hide MissesMap, MissesKey, DanglingRefs, DanglingKeyRefs;
    if rs != [] {
      var init, last := rs[..|rs| - 1], rs[|rs| - 1];
      assert rs == init + [last];
      DanglingErrors(cms, init, e);
      MissingMaps(cms, last.namespace, last.name, last.configMapRefs, e);
      MissingKeys(cms, last.namespace, last.name, last.configMapKeyRefs, e);
    }
  }
}
