/** Service selectors travel as "key:value" strings; the encoding loses nothing
    as long as no key contains the separator. */
module Selectors {
  import opened Netpol
  import opened Text

  function Encode(k: string, v: string): string {
    k + ":" + v
  }

  function EncodedLabels(labels: map<string, string>): set<string> {
    set k | k in labels :: Encode(k, labels[k])
  }

  predicate Contained(labels: map<string, string>, selectors: seq<string>) {
    forall s :: s in selectors ==> s in EncodedLabels(labels)
  }

  /** Ranges over the labels in an arbitrary order. */
  method MatchLabelSelectorToStrLabels(labels: map<string, string>) returns (res: seq<string>)
    ensures |res| == |labels|
    ensures forall s :: s in res <==> s in EncodedLabels(labels)
  {
    res := [];
    var keys := labels.Keys;
    while keys != {}
      invariant keys <= labels.Keys
      invariant |res| + |keys| == |labels|
      invariant forall s :: s in res <==> exists k :: k in labels && k !in keys && s == Encode(k, labels[k])
    {
      var k :| k in keys;
      res, keys := res + [Encode(k, labels[k])], keys - {k};
    }
  }

  method AreSelectorsContained(selectors1: map<string, string>, selectors2: seq<string>) returns (contained: bool)
    ensures contained <==> Contained(selectors1, selectors2)
  {
    var elementMap: map<string, string> := map[];
    var keys := selectors1.Keys;
    while keys != {}
      invariant keys <= selectors1.Keys
      invariant forall s :: s in elementMap <==>
                  exists k :: k in selectors1 && k !in keys && s == Encode(k, selectors1[k])
    {
      var k :| k in keys;
      elementMap, keys := elementMap[Encode(k, selectors1[k]) := ""], keys - {k};
    }
    assert elementMap.Keys == EncodedLabels(selectors1);
    for i := 0 to |selectors2|
      invariant forall j :: 0 <= j < i ==> selectors2[j] in elementMap
    {
      if selectors2[i] !in elementMap {
        return false;
      }
    }
    return true;
  }

  predicate ColonFreeKeys(labels: map<string, string>) {
    forall k :: k in labels ==> ':' !in k
  }

  lemma EncodeIsInjective(k1: string, v1: string, k2: string, v2: string)
    requires ':' !in k1 && ':' !in k2 && Encode(k1, v1) == Encode(k2, v2)
    ensures k1 == k2 && v1 == v2
  {
    SplitsAt(k1, ':', v1);
    SplitsAt(k2, ':', v2);
  }

  /** Whatever order the selector was listed in, comparing strings decides whether it is
      a sub-map of the labels. */
  lemma SelectorEncodingIsFaithful(labels: map<string, string>, selector: map<string, string>, strs: seq<string>)
    requires ColonFreeKeys(labels) && ColonFreeKeys(selector)
    requires forall s :: s in strs <==> s in EncodedLabels(selector)
    ensures Contained(labels, strs) <==> Matches(selector, labels)
  {
    if Contained(labels, strs) {
      forall k | k in selector ensures k in labels && labels[k] == selector[k] {
        assert Encode(k, selector[k]) in strs;
        var k' :| k' in labels && Encode(k', labels[k']) == Encode(k, selector[k]);
        EncodeIsInjective(k, selector[k], k', labels[k']);
      }
    }
  }

  /** With a separator in a key, two different pairs can be written alike. */
  lemma ColonInKeyIsAmbiguous()
    ensures var labels, selector := map["a:b" := "c"], map["a" := "b:c"];
            Contained(labels, [Encode("a", "b:c")]) && EncodedLabels(selector) == {Encode("a", "b:c")}
            && !Matches(selector, labels)
  {
    var labels, selector := map["a:b" := "c"], map["a" := "b:c"];
    assert Encode("a:b", "c") == "a:b:c" == Encode("a", "b:c");
    assert "a" in selector && "a" !in labels;
    assert "a:b" in labels && Encode("a:b", labels["a:b"]) in EncodedLabels(labels);
  }
}
