/** The validators of the Kubernetes API machinery, character by character, and the shape of an
    address that passes them. */
module Validators {
  import opened Model
  import opened Text
  import opened AddressExtraction

  predicate LowerOrDigit(c: char) {
    'a' <= c <= 'z' || '0' <= c <= '9'
  }

  /** Lower-case letters, digits, hyphens and dots, with letters or digits at both ends and on both
      sides of each dot: [a-z0-9]([-a-z0-9]*[a-z0-9])?(\.[a-z0-9]([-a-z0-9]*[a-z0-9])?)*. */
  predicate Subdomain(s: string) {
    && s != "" && LowerOrDigit(s[0]) && LowerOrDigit(s[|s| - 1])
    && (forall i :: 0 <= i < |s| ==> LowerOrDigit(s[i]) || s[i] == '-' || s[i] == '.')
    && (forall i :: 0 < i < |s| - 1 && s[i] == '.' ==> LowerOrDigit(s[i - 1]) && LowerOrDigit(s[i + 1]))
  }

  lemma LabelHasNoDot(s: string)
    requires '.' !in s
    ensures IsLabel(s) <==> Subdomain(s)
  {
    assert forall i :: 0 <= i < |s| ==> s[i] in s;
  }

  lemma PartsAreSubdomains(a: string, b: string)
    requires Subdomain(a + "." + b)
    ensures Subdomain(a) && Subdomain(b)
  {
    var s, n := a + "." + b, |a|;
    assert forall i :: 0 <= i < n ==> s[i] == a[i];
    assert forall i :: 0 <= i < |b| ==> s[n + 1 + i] == b[i];
    assert s[n] == '.';
    assert a != "" && b != "";
    assert s[n - 1] == a[n - 1] && s[n + 1] == b[0];
  }

  lemma SubdomainsJoin(a: string, b: string)
    requires Subdomain(a) && Subdomain(b)
    ensures Subdomain(a + "." + b)
  {
    hide LowerOrDigit;
    var s, n := a + "." + b, |a|;
    assert s[n] == '.' && forall i :: n < i < |s| ==> s[i] == b[i - n - 1];
    forall i | 0 < i < |s| - 1 && s[i] == '.' ensures LowerOrDigit(s[i - 1]) && LowerOrDigit(s[i + 1]) {
      DotIsNeither();
      assert i != n - 1 && i != n + 1;
    }
  }

  lemma DotIsNeither()
    ensures !LowerOrDigit('.')
  {
  }

  /** A subdomain splits at any dot, and two join at one. */
  lemma {:induction false} SubdomainSplits(a: string, b: string)
    ensures Subdomain(a + "." + b) <==> Subdomain(a) && Subdomain(b)
  {
    hide Subdomain;
    if Subdomain(a + "." + b) {
      PartsAreSubdomains(a, b);
    }
    if Subdomain(a) && Subdomain(b) {
      SubdomainsJoin(a, b);
    }
  }

  /** Splitting at dots accepts exactly the subdomains. */
  lemma {:induction false} LabelsAreSubdomains(s: string)
    ensures AreLabels(s) <==> Subdomain(s)
    decreases |s|
  {
    hide Subdomain, IsLabel;
    var i := Find(s, '.');
    LabelHasNoDot(s[..i]);
    if i < |s| {
      LabelsAreSubdomains(s[i + 1..]);
      assert s == s[..i] + "." + s[i + 1..];
      SubdomainSplits(s[..i], s[i + 1..]);
    } else {
      assert s[..i] == s;
    }
  }

  /** Groups of lower-case letters and digits, separated by single hyphens. */
  predicate Hyphenated(s: string)
    decreases |s|
  {
    var i := Find(s, '-');
    && i > 0 && (forall j :: 0 <= j < i ==> LowerOrDigit(s[j]))
    && (i == |s| || Hyphenated(s[i + 1..]))
  }

  predicate SingleHyphens(s: string) {
    && s != "" && s[0] != '-' && s[|s| - 1] != '-'
    && (forall i :: 0 <= i < |s| ==> LowerOrDigit(s[i]) || s[i] == '-')
    && (forall i :: 0 <= i < |s| - 1 ==> !(s[i] == '-' && s[i + 1] == '-'))
  }

  lemma {:induction false} HyphensJoin(a: string, b: string)
    requires a != "" && (forall j :: 0 <= j < |a| ==> LowerOrDigit(a[j])) && SingleHyphens(b)
    ensures SingleHyphens(a + "-" + b)
  {
    var s, n := a + "-" + b, |a|;
    assert s[0] == a[0] && s[|s| - 1] == b[|b| - 1];
    forall i | 0 <= i < |s|
      ensures LowerOrDigit(s[i]) || s[i] == '-'
      ensures i < |s| - 1 ==> !(s[i] == '-' && s[i + 1] == '-')
    {
      if i < n {
        assert s[i] == a[i];
      } else if i > n {
        assert s[i] == b[i - n - 1];
        assert i < |s| - 1 ==> s[i + 1] == b[i - n];
      } else {
        assert s[i + 1] == b[0];
      }
    }
  }

  lemma {:induction false} HyphensPart(a: string, b: string)
    requires '-' !in a && SingleHyphens(a + "-" + b)
    ensures a != "" && (forall j :: 0 <= j < |a| ==> LowerOrDigit(a[j])) && SingleHyphens(b)
  {
    var s, n := a + "-" + b, |a|;
    assert s[n] == '-';
    assert |s| == n + 1 + |b| && n != 0 && n != |s| - 1;
    assert s[n + 1] == b[0] && s[|s| - 1] == b[|b| - 1];
    assert !(s[n] == '-' && s[n + 1] == '-');
    forall j | 0 <= j < |a| ensures LowerOrDigit(a[j]) {
      assert s[j] == a[j] && a[j] in a;
    }
    forall i | 0 <= i < |b|
      ensures LowerOrDigit(b[i]) || b[i] == '-'
      ensures i < |b| - 1 ==> !(b[i] == '-' && b[i + 1] == '-')
    {
      assert s[n + 1 + i] == b[i];
      assert i < |b| - 1 ==> s[n + 2 + i] == b[i + 1];
    }
  }

  lemma {:induction false} HyphenatedMeansSingle(s: string)
    ensures Hyphenated(s) <==> SingleHyphens(s)
    decreases |s|
  {
    hide SingleHyphens;
    var i := Find(s, '-');
    if i < |s| {
      HyphenatedMeansSingle(s[i + 1..]);
      assert s == s[..i] + "-" + s[i + 1..];
      assert forall j :: 0 <= j < i ==> s[..i][j] == s[j];
      if SingleHyphens(s) {
        HyphensPart(s[..i], s[i + 1..]);
      }
      if i > 0 && (forall j :: 0 <= j < i ==> LowerOrDigit(s[j])) && SingleHyphens(s[i + 1..]) {
        HyphensJoin(s[..i], s[i + 1..]);
      }
    } else {
      NoHyphens(s);
    }
  }

  lemma NoHyphens(s: string)
    requires '-' !in s
    ensures SingleHyphens(s) <==> s != "" && forall j :: 0 <= j < |s| ==> LowerOrDigit(s[j])
  {
    assert forall i :: 0 <= i < |s| ==> s[i] in s;
  }

  /** A port name: at most 15 characters, at least one letter, groups separated by single hyphens. */
  predicate PortName(s: string) {
    |s| <= 15 && Hyphenated(s) && exists i :: 0 <= i < |s| && 'a' <= s[i] <= 'z'
  }

  lemma PortNamesAreValid(s: string)
    ensures IsValidPortName(s) <==> PortName(s)
  {
    hide Hyphenated;
    HyphenatedMeansSingle(s);
  }

  // ----- addresses -----

  /** A host: a subdomain of at most 253 characters that cannot be read as an integer. */
  predicate Host(s: string) {
    |s| <= 253 && Subdomain(s) && Atoi(s).None?
  }

  predicate PortNumber(s: string) {
    Atoi(s).Some? && 1 <= Atoi(s).value <= 65535
  }

  lemma PartsOfAddress(h: string)
    ensures IsAddress(h)
            <==> && Host(HostPart(h))
                 && (PortPart(h).Some? ==> PortName(PortPart(h).value) || PortNumber(PortPart(h).value))
  {
    hide Atoi, Subdomain, PortName, IsValidPortName, AreLabels, HostPart, PortPart;
    LabelsAreSubdomains(HostPart(h));
    if PortPart(h).Some? {
      PortNamesAreValid(PortPart(h).value);
    }
  }

  lemma PartsAre(h: string)
    ensures PortPart(h).None? ==> HostPart(h) == h
    ensures PortPart(h).Some? ==> h == HostPart(h) + ":" + PortPart(h).value
  {
    assert h[..|h|] == h;
  }

  lemma PartsOfHost(host: string, port: string)
    requires Host(host)
    ensures HostPart(host) == host && PortPart(host).None?
    ensures HostPart(host + ":" + port) == host && PortPart(host + ":" + port) == Some(port)
  {
    NoColonInSubdomain(host);
    SplitsAt(host, ':', port);
    assert host[..|host|] == host;
  }

  /** An address is a host, or a host with a port name or number. */
  lemma {:induction false} AddressesAre(h: string)
    ensures IsAddress(h)
            <==> || Host(h)
                 || exists host, port ::
                      h == host + ":" + port && Host(host) && (PortName(port) || PortNumber(port))
  {
    hide Host, PortName, PortNumber, HostPart, PortPart, IsAddress;
    PartsOfAddress(h);
    PartsAre(h);
    if Host(h) {
      PartsOfHost(h, "");
    }
    if host, port :| h == host + ":" + port && Host(host) && (PortName(port) || PortNumber(port)) {
      PartsOfHost(host, port);
    }
  }

  lemma NoColonInSubdomain(s: string)
    requires Subdomain(s)
    ensures ':' !in s
  {
  }

  /** What is extracted from one candidate: its host part, if that is an address. */
  lemma {:induction false} ExtractedAddresses(lib: Lib, value: string, h: string)
    ensures FromSuffix(lib, value) == Some(h)
            <==> && lib.hostOf(value) == Some(h)
                 && (|| Host(h)
                     || exists host, port ::
                          h == host + ":" + port && Host(host) && (PortName(port) || PortNumber(port)))
  {
    hide Host, PortName, PortNumber, IsAddress;
    AddressesAre(h);
  }
}
