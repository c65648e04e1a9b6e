/** Order-preserving removal of repeated elements. */
module Sequences {

  function AddNew<T(==)>(s: seq<T>, x: T): seq<T> {
    if x in s then s else s + [x]
  }

  /** Keeps the first occurrence of every element. */
  function Dedup<T(==)>(s: seq<T>): seq<T> {
    if s == [] then [] else AddNew(Dedup(s[..|s| - 1]), s[|s| - 1])
  }

  ghost predicate NoRepeats<T>(s: seq<T>) {
    forall i, j :: 0 <= i < j < |s| ==> s[i] != s[j]
  }

  lemma {:induction false} DedupElements<T(!new)>(s: seq<T>)
    ensures forall x :: x in Dedup(s) <==> x in s
    ensures NoRepeats(Dedup(s))
  {
    if s != [] {
      var init, last := s[..|s| - 1], s[|s| - 1];
      DedupElements(init);
      assert s == init + [last];
    }
  }

  /** Where an element first stands in `s`. */
  ghost function FirstIndex<T(!new)>(s: seq<T>, x: T): (i: nat)
    requires x in s
    ensures i < |s| && s[i] == x && x !in s[..i]
  {
    if s[0] == x then 0
    else
      var i := FirstIndex(s[1..], x) + 1;
      assert s[..i] == [s[0]] + s[1..][..i - 1];
      i
  }

  /** The survivors stand in the order of their first occurrences. */
  lemma {:induction false} DedupKeepsOrder<T(!new)>(s: seq<T>, i: nat, j: nat)
    requires i < j < |Dedup(s)|
    ensures Dedup(s)[i] in s && Dedup(s)[j] in s
    ensures FirstIndex(s, Dedup(s)[i]) < FirstIndex(s, Dedup(s)[j])
  {
    var init, last := s[..|s| - 1], s[|s| - 1];
    var d := Dedup(init);
    DedupElements(init);
    assert s == init + [last];
    assert forall x :: x in Dedup(init) ==> x in init;
    assert d[i] in d;
    FirstIndexInPrefix(init, [last], d[i]);
    DedupElements(s);
    if j < |d| {
      DedupKeepsOrder(init, i, j);
      assert d[j] in d;
      FirstIndexInPrefix(init, [last], d[j]);
    } else {
      assert last !in init;
    }
  }

  lemma FirstIndexInPrefix<T(!new)>(s: seq<T>, t: seq<T>, x: T)
    requires x in s
    ensures x in s + t && FirstIndex(s + t, x) == FirstIndex(s, x)
  {
    var u := s + t;
    assert u[FirstIndex(s, x)] == x;
    var i, j := FirstIndex(s, x), FirstIndex(u, x);
    assert forall k :: 0 <= k < i ==> s[..i][k] == u[k];
    assert forall k :: 0 <= k < j ==> u[..j][k] == u[k];
  }

  /** The places of a list that are kept, in increasing order. */
  ghost predicate Places(idx: seq<nat>, n: nat) {
    && (forall i :: 0 <= i < |idx| ==> idx[i] < n)
    && (forall i, j :: 0 <= i < j < |idx| ==> idx[i] < idx[j])
  }

  // ----- concatenation -----

  function Flatten<T>(parts: seq<seq<T>>): seq<T> {
    if parts == [] then [] else Flatten(parts[..|parts| - 1]) + parts[|parts| - 1]
  }

  lemma {:induction false} FlattenElements<T>(parts: seq<seq<T>>, x: T)
    ensures x in Flatten(parts) <==> exists i :: 0 <= i < |parts| && x in parts[i]
  {
    if parts != [] {
      var init, last := parts[..|parts| - 1], parts[|parts| - 1];
      FlattenElements(init, x);
      if i :| 0 <= i < |parts| && x in parts[i] {
        assert i < |init| ==> init[i] == parts[i];
      }
      if i :| 0 <= i < |init| && x in init[i] {
        assert x in parts[i];
      }
    }
  }

  lemma {:induction false} FlattenAppend<T>(a: seq<seq<T>>, b: seq<seq<T>>)
    ensures Flatten(a + b) == Flatten(a) + Flatten(b)
  {
    if b == [] {
      assert a + b == a;
    } else {
      var init, last := b[..|b| - 1], b[|b| - 1];
      FlattenAppend(a, init);
      assert (a + b)[..|a + b| - 1] == a + init && (a + b)[|a + b| - 1] == last;
      assert Flatten(a + b) == Flatten(a) + Flatten(init) + last;
    }
  }

  lemma FlattenOne<T>(part: seq<T>)
    ensures Flatten([part]) == part
  {
    assert [part][..0] == [];
  }

  lemma {:induction false} FlattenPermutes<T>(a: seq<seq<T>>, b: seq<seq<T>>)
    requires |a| == |b| && forall i :: 0 <= i < |a| ==> multiset(a[i]) == multiset(b[i])
    ensures multiset(Flatten(a)) == multiset(Flatten(b))
  {
    if a != [] {
      FlattenPermutes(a[..|a| - 1], b[..|b| - 1]);
    }
  }

  // ----- permutations -----

  lemma PermutationElements<T>(s: seq<T>, t: seq<T>)
    requires multiset(s) == multiset(t)
    ensures forall x :: x in s <==> x in t
    ensures |s| == |t|
  {
    assert forall x :: x in s <==> x in multiset(s);
    assert forall x :: x in t <==> x in multiset(t);
    assert |multiset(s)| == |s| && |multiset(t)| == |t|;
  }

  lemma {:induction false} OccursOnce<T(!new)>(s: seq<T>, x: T)
    requires NoRepeats(s)
    ensures multiset(s)[x] == if x in s then 1 else 0
  {
    if s != [] {
      assert s == s[..|s| - 1] + [s[|s| - 1]];
      OccursOnce(s[..|s| - 1], x);
    }
  }

  /** Without repetitions, having the same elements is being a permutation. */
  lemma {:induction false} SameElementsPermute<T(!new)>(s: seq<T>, t: seq<T>)
    requires NoRepeats(s) && NoRepeats(t)
    requires forall x :: x in s <==> x in t
    ensures multiset(s) == multiset(t)
  {
    forall x ensures multiset(s)[x] == multiset(t)[x] {
      OccursOnce(s, x);
      OccursOnce(t, x);
    }
  }

  function FlatMap<A, B>(f: A -> seq<B>, s: seq<A>): seq<B> {
    if s == [] then [] else FlatMap(f, s[..|s| - 1]) + f(s[|s| - 1])
  }

  lemma {:induction false} FlatMapAppend<A, B>(f: A -> seq<B>, s: seq<A>, t: seq<A>)
    ensures FlatMap(f, s + t) == FlatMap(f, s) + FlatMap(f, t)
  {
    if t == [] {
      assert s + t == s;
    } else {
      assert (s + t)[..|s + t| - 1] == s + t[..|t| - 1];
      FlatMapAppend(f, s, t[..|t| - 1]);
    }
  }

  lemma WithoutOne<T>(init: seq<T>, x: T, t: seq<T>, i: nat)
    requires i < |t| && t[i] == x && multiset(init + [x]) == multiset(t)
    ensures multiset(init) == multiset(t[..i] + t[i + 1..])
  {
    assert t == t[..i] + [x] + t[i + 1..];
    assert multiset(t) == multiset(t[..i] + t[i + 1..]) + multiset{x};
    assert multiset(init + [x]) - multiset{x} == multiset(init);
  }

  lemma {:induction false} FlatMapMiddle<A, B>(f: A -> seq<B>, s: seq<A>, i: nat)
    requires i < |s|
    ensures multiset(FlatMap(f, s)) == multiset(FlatMap(f, s[..i] + s[i + 1..])) + multiset(f(s[i]))
  {
    var left, middle, right := s[..i], [s[i]], s[i + 1..];
    assert s == left + (middle + right);
    FlatMapAppend(f, left, right);
    FlatMapAppend(f, left, middle + right);
    FlatMapAppend(f, middle, right);
    assert middle[..0] == [] && FlatMap(f, middle) == f(s[i]);
  }

  /** Mapping a permutation gives a permutation. */
  lemma {:induction false} FlatMapPermutes<A(!new), B>(f: A -> seq<B>, s: seq<A>, t: seq<A>)
    requires multiset(s) == multiset(t)
    ensures multiset(FlatMap(f, s)) == multiset(FlatMap(f, t))
  {
    PermutationElements(s, t);
    if s != [] {
      var init, last := s[..|s| - 1], s[|s| - 1];
      assert s == init + [last];
      assert last in t;
      var i :| 0 <= i < |t| && t[i] == last;
      WithoutOne(init, last, t, i);
      FlatMapPermutes(f, init, t[..i] + t[i + 1..]);
      FlatMapMiddle(f, t, i);
    }
  }

  lemma {:induction false} FlatMapElements<A(!new), B>(f: A -> seq<B>, s: seq<A>, y: B)
    ensures y in FlatMap(f, s) <==> exists x :: x in s && y in f(x)
  {
    if s != [] {
      var init, last := s[..|s| - 1], s[|s| - 1];
      assert s == init + [last];
      FlatMapElements(f, init, y);
    }
  }

  lemma {:induction false} FlatMapSingle<A, B>(f: A -> seq<B>, x: A)
    ensures FlatMap(f, [x]) == f(x)
  {
    assert [x][..0] == [];
  }

  /** Mapping a concatenation is concatenating what the parts are mapped to. */
  lemma {:induction false} FlatMapFlatten<A, B>(f: A -> seq<B>, a: seq<seq<A>>, b: seq<seq<A>>)
    requires |a| == |b| && forall i :: 0 <= i < |a| ==> FlatMap(f, a[i]) == FlatMap(f, b[i])
    ensures FlatMap(f, Flatten(a)) == FlatMap(f, Flatten(b))
  {
    hide FlatMap;
    if a != [] {
      var m := |a| - 1;
      FlatMapFlatten(f, a[..m], b[..m]);
      FlatMapAppend(f, Flatten(a[..m]), a[m]);
      FlatMapAppend(f, Flatten(b[..m]), b[m]);
    }
  }
}
