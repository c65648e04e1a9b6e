/** Extraction and matching agree: an address written by the documented pattern is
    recognised in a configuration value and denotes the Service it was written for. */
module Recognition {
  import opened Model
  import opened Text
  import opened Addresses
  import opened AddressExtraction

  /** Kubernetes requires Service names to be labels that start with a letter, and
      namespace names to be labels. */
  predicate WellNamed(svc: Service) {
    && IsLabel(svc.name) && IsLower(svc.name[0])
    && (svc.namespace == "" || IsLabel(svc.namespace))
  }

  lemma LabelIsPlain(s: string)
    requires IsLabel(s)
    ensures '.' !in s && ':' !in s
  {
  }

  lemma LabelPrefixed(name: string, rest: string)
    requires IsLabel(name) && AreLabels(rest)
    ensures AreLabels(name + "." + rest)
  {
    LabelIsPlain(name);
    SplitsAt(name, '.', rest);
  }

  lemma OneLabel(name: string)
    requires IsLabel(name)
    ensures AreLabels(name)
  {
    LabelIsPlain(name);
    SplitsAt(name, '.', "");
    assert name[..|name|] == name;
  }

  lemma {:induction false} ThreeLabels(a: string, b: string, c: string)
    requires IsLabel(a) && IsLabel(b) && IsLabel(c)
    ensures AreLabels(a + "." + (b + "." + c))
  {
    OneLabel(c);
    LabelPrefixed(b, c);
    LabelPrefixed(a, b + "." + c);
  }

  lemma {:induction false} QualifiedIsLabels(name: string, ns: string, tail: string)
    requires IsLabel(name) && IsLabel(ns) && AreLabels(tail)
    ensures AreLabels(name + "." + ns + ("." + tail))
  {
    LabelPrefixed(ns, tail);
    LabelPrefixed(name, ns + "." + tail);
    assert name + "." + ns + ("." + tail) == name + "." + (ns + "." + tail);
  }

  lemma ClusterSuffixSplits(a: string, b: string, c: string)
    requires a == "svc" && b == "cluster" && c == "local"
    ensures CLUSTER_SUFFIX == "." + (a + "." + (b + "." + c))
  {
  }

  lemma {:induction false} QualifiedFormIsLabels(name: string, ns: string)
    requires IsLabel(name) && IsLabel(ns)
    ensures AreLabels(name + "." + ns + CLUSTER_SUFFIX)
  {
    var a, b, c :| a == "svc" && b == "cluster" && c == "local";
    ThreeLabels(a, b, c);
    QualifiedIsLabels(name, ns, a + "." + (b + "." + c));
    ClusterSuffixSplits(a, b, c);
  }

  lemma {:induction false} HostFormsAreLabels(svc: Service, viewerNs: string, host: string)
    requires WellNamed(svc) && host in PossibleAddresses(svc, viewerNs)
    ensures AreLabels(host) && host[0] == svc.name[0]
  {
    if host == svc.name {
      OneLabel(svc.name);
    } else {
      OneLabel(svc.namespace);
      LabelPrefixed(svc.name, svc.namespace);
      QualifiedFormIsLabels(svc.name, svc.namespace);
      assert host == svc.name + "." + svc.namespace || host == svc.name + "." + svc.namespace + CLUSTER_SUFFIX;
    }
  }

  /** Host and port parts of a printed address. */
  lemma PartsOfPrinted(host: string, port: Int32)
    requires AreLabels(host)
    ensures HostPart(host) == host && PortPart(host) == None
    ensures HostPart(WithPort(host, port)) == host && PortPart(WithPort(host, port)) == Some(Itoa(port))
  {
    LabelsHaveNoColon(host);
    SplitsAt(host, ':', Itoa(port));
    assert host[..|host|] == host;
  }

  /** Every address of the documented pattern, on a legal port, is a network address. */
  lemma {:induction false} PatternIsAnAddress(svc: Service, viewerNs: string, host: string, port: Int32)
    requires WellNamed(svc) && host in PossibleAddresses(svc, viewerNs)
    requires |host| <= 253 && 1 <= port <= 65535
    ensures IsAddress(host) && IsAddress(WithPort(host, port))
  {
    HostFormsAreLabels(svc, viewerNs, host);
    PartsOfPrinted(host, port);
    AtoiInvertsItoa(port);
    assert !IsDigit(host[0]);
  }

  /** The number that follows Go's largest int is taken for a host name. */
  lemma HugeIntegerIsAccepted(lib: Lib, value: string)
    requires lib.hostOf(value) == Some(Itoa(9223372036854775808))
    ensures FromSuffix(lib, value) == Some(Itoa(9223372036854775808))
  {
    hide Pow10, AreLabels;
    TwentyDigits();
    ValueOfDigits(MAX_INT64 + 1);
    DigitsAreFew(MAX_INT64 + 1, 20);
    OneLabel(Itoa(MAX_INT64 + 1));
    IntegersAreHostsWhenHuge(lib, value);
  }

  lemma TwentyDigits()
    ensures MAX_INT64 + 1 < Pow10(20)
  {
    assert Pow10(3) == 1000 && Pow10(5) == 100 * Pow10(3);
    Pow10Sum(5, 5);
    Pow10Sum(10, 10);
  }

  function Pow10(k: nat): nat {
    if k == 0 then 1 else 10 * Pow10(k - 1)
  }

  lemma {:induction false} Pow10Sum(a: nat, b: nat)
    ensures Pow10(a + b) == Pow10(a) * Pow10(b)
  {
    if a > 0 {
      Pow10Sum(a - 1, b);
    }
  }

  lemma {:induction false} DigitsAreFew(n: nat, k: nat)
    requires n < Pow10(k) && k > 0
    ensures |Digits(n)| <= k
  {
    if n >= 10 {
      DigitsAreFew(n / 10, k - 1);
    }
  }

  /** A configuration value whose host part is such an address is found in the workload,
      and the address found denotes that Service and that port. */
  lemma PatternIsRecognised(lib: Lib, value: string, svc: Service, viewerNs: string, host: string, port: Int32)
    requires WellNamed(svc) && host in PossibleAddresses(svc, viewerNs)
    requires |host| <= 253 && 1 <= port <= 65535
    ensures lib.hostOf(value) == Some(host) ==>
              && AddressIn(lib, value) == Some(host)
              && Match(host, svc, viewerNs) == Some(NO_PORT)
    ensures lib.hostOf(value) == Some(WithPort(host, port)) ==>
              && AddressIn(lib, value) == Some(WithPort(host, port))
              && Match(WithPort(host, port), svc, viewerNs) == FirstNumbered(port, svc.network)
  {
    PatternIsAnAddress(svc, viewerNs, host, port);
    CandidatesShrink(lib, value, |value|);
    LabelIsPlain(svc.name);
    if svc.namespace != "" {
      LabelIsPlain(svc.namespace);
    }
    AddressRoundTrip(svc, viewerNs, host, port);
  }
}
