/** Go's string order, and the strictly increasing listing of a set of strings. */
module Ordering {

  /** Lexicographic order by code point, which is the order of the UTF-8 bytes. */
  predicate Less(a: string, b: string) {
    if b == [] then false
    else if a == [] then true
    else if a[0] != b[0] then a[0] < b[0]
    else Less(a[1..], b[1..])
  }

  /** One string comes before the other if they first differ in a smaller character, or if it is a
      proper prefix of the other. */
  lemma {:induction false} LessIsLexicographic(a: string, b: string)
    ensures Less(a, b) <==> exists k :: 0 <= k <= |a| && k < |b| && a[..k] == b[..k] && (k == |a| || a[k] < b[k])
  {
    if a != [] && b != [] && a[0] == b[0] {
      LessIsLexicographic(a[1..], b[1..]);
      if k :| && 0 <= k <= |a| - 1 && k < |b| - 1 && a[1..][..k] == b[1..][..k]
              && (k == |a| - 1 || a[1..][k] < b[1..][k]) {
        assert a[..k + 1] == [a[0]] + a[1..][..k] && b[..k + 1] == [b[0]] + b[1..][..k];
      }
      if k :| 0 <= k <= |a| && k < |b| && a[..k] == b[..k] && (k == |a| || a[k] < b[k]) {
        assert k > 0;
        assert a[1..][..k - 1] == a[..k][1..] && b[1..][..k - 1] == b[..k][1..];
      }
    } else if b != [] {
      assert a[..0] == b[..0];
      forall k | 0 < k <= |a| && k < |b| ensures a[..k] != b[..k] {
        assert a[..k][0] == a[0] && b[..k][0] == b[0];
      }
    }
  }

  lemma {:induction false} LessTotal(a: string, b: string)
    ensures Less(a, b) || a == b || Less(b, a)
  {
    if a != [] && b != [] && a[0] == b[0] {
      LessTotal(a[1..], b[1..]);
      assert a == [a[0]] + a[1..] && b == [b[0]] + b[1..];
    }
  }

  lemma {:induction false} LessAsymmetric(a: string, b: string)
    ensures !(Less(a, b) && Less(b, a))
    ensures !Less(a, a)
  {
    if a != [] {
      LessAsymmetric(a[1..], if b == [] then [] else b[1..]);
    }
  }

  lemma {:induction false} LessTransitive(a: string, b: string, c: string)
    requires Less(a, b) && Less(b, c)
    ensures Less(a, c)
  {
    if a != [] && a[0] == b[0] == c[0] {
      LessTransitive(a[1..], b[1..], c[1..]);
    }
  }

  ghost predicate Increasing(s: seq<string>) {
    forall i, j :: 0 <= i < j < |s| ==> Less(s[i], s[j])
  }

  ghost function Least(names: set<string>): (m: string)
    requires names != {}
    ensures m in names && forall x :: x in names && x != m ==> Less(m, x)
  {
    var x :| x in names;
    if names == {x} then x
    else
      var m := Least(names - {x});
      LessTotal(x, m);
      assert Less(x, m) ==> forall y :: y in names && y != x ==> Less(x, y) by {
        forall y | Less(x, m) && y in names && y != x ensures Less(x, y) {
          if y != m {
            LessTransitive(x, m, y);
          }
        }
      }
      if Less(x, m) then x else m
  }

  /** The one strictly increasing sequence whose elements are `names`. */
  ghost function Sorted(names: set<string>): seq<string> {
    if names == {} then []
    else
      var m := Least(names);
      [m] + Sorted(names - {m})
  }

  lemma {:induction false} SortedListsTheNames(names: set<string>)
    ensures Increasing(Sorted(names))
    ensures forall n :: n in Sorted(names) <==> n in names
  {
    if names != {} {
      var m := Least(names);
      SortedListsTheNames(names - {m});
      assert forall n :: n in names <==> n == m || n in names - {m};
    }
  }

  lemma HeadIsLeast(s: seq<string>, x: string)
    requires Increasing(s) && x in s
    ensures x == s[0] || Less(s[0], x)
    ensures x in s[1..] <==> x != s[0]
  {
    var i :| 0 <= i < |s| && s[i] == x;
    LessAsymmetric(x, x);
    assert x != s[0] ==> s[1..][i - 1] == x;
  }

  /** A strictly increasing sequence is determined by its set of elements. */
  lemma {:induction false} IncreasingIsUnique(s: seq<string>, t: seq<string>)
    requires Increasing(s) && Increasing(t)
    requires forall n :: n in s <==> n in t
    ensures s == t
  {
    assert forall i :: 0 <= i < |s| ==> s[i] in t;
    assert forall i :: 0 <= i < |t| ==> t[i] in s;
    if s != [] && t != [] {
      assert s[0] in t && t[0] in s;
      HeadIsLeast(s, t[0]);
      HeadIsLeast(t, s[0]);
      LessAsymmetric(s[0], t[0]);
      forall n ensures n in s[1..] <==> n in t[1..] {
        assert n in s[1..] ==> n in s;
        assert n in t[1..] ==> n in t;
        if n in s {
          HeadIsLeast(s, n);
          HeadIsLeast(t, n);
        }
      }
      IncreasingIsUnique(s[1..], t[1..]);
      assert s == [s[0]] + s[1..] && t == [t[0]] + t[1..];
    }
  }
}
