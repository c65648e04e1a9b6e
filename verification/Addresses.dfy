/** Which addresses denote which Service, and the parser that the matcher amounts to. */
module Addresses {
  import opened Model
  import opened Text

  const CLUSTER_SUFFIX := ".svc.cluster.local"

  /** The host parts by which a workload in namespace `viewerNs` may address `svc`. */
  function PossibleAddresses(svc: Service, viewerNs: string): seq<string> {
    (if svc.namespace != "" then
       [svc.name + "." + svc.namespace, svc.name + "." + svc.namespace + CLUSTER_SUFFIX]
     else [])
    + (if svc.namespace == viewerNs then [svc.name] else [])
  }

  function WithPort(host: string, port: Int32): string {
    host + ":" + Itoa(port)
  }

  predicate HasPortForm(envVal: string, addresses: seq<string>, port: Int32) {
    exists a :: a in addresses && envVal == WithPort(a, port)
  }

  function FirstWithPort(envVal: string, network: seq<SvcNetworkAttr>, addresses: seq<string>): Option<SvcNetworkAttr> {
    if network == [] then None
    else if HasPortForm(envVal, addresses, network[0].port) then Some(network[0])
    else FirstWithPort(envVal, network[1..], addresses)
  }

  /** The port a value refers to, `NO_PORT` when it names none, nothing when it does not match. */
  function MatchIn(envVal: string, svc: Service, addresses: seq<string>): Option<SvcNetworkAttr> {
    if envVal in addresses then Some(NO_PORT) else FirstWithPort(envVal, svc.network, addresses)
  }

  function Match(envVal: string, svc: Service, viewerNs: string): Option<SvcNetworkAttr> {
    MatchIn(envVal, svc, PossibleAddresses(svc, viewerNs))
  }

  // ----- the address grammar: svc(.ns(.svc.cluster.local)?)?(:port)? -----

  datatype Address = Address(service: string, namespace: string, port: Option<string>)

  /** A bare name is taken in the viewer's own namespace. */
  function ParseHost(host: string, viewerNs: string): Option<(string, string)> {
    var i := Find(host, '.');
    if i == |host| then Some((host, viewerNs))
    else
      var rest := host[i + 1..];
      var j := Find(rest, '.');
      if j != 0 && (rest[j..] == "" || rest[j..] == ".svc.cluster.local") then Some((host[..i], rest[..j])) else None
  }

  function ParseAddress(text: string, viewerNs: string): Option<Address> {
    var i := Find(text, ':');
    var host := ParseHost(text[..i], viewerNs);
    if host.None? then None
    else Some(Address(host.value.0, host.value.1, if i == |text| then None else Some(text[i + 1..])))
  }

  /** Kubernetes names of Services and namespaces contain neither separator. */
  predicate Plain(svc: Service) {
    '.' !in svc.name && ':' !in svc.name && '.' !in svc.namespace && ':' !in svc.namespace
  }

  lemma ParseDotted(name: string, ns: string, tail: string, viewerNs: string)
    requires '.' !in name && '.' !in ns && ns != ""
    requires tail == "" || tail == CLUSTER_SUFFIX
    ensures ParseHost(name + "." + ns + tail, viewerNs) == Some((name, ns))
  {
    hide Find;
    assert name + "." + ns + tail == name + ['.'] + (ns + tail);
    SplitsAt(name, '.', ns + tail);
    if tail == "" {
      SplitsAt(ns, '.', "");
      assert ns + tail == ns && ns[..|ns|] == ns;
    } else {
      assert ns + tail == ns + ['.'] + tail[1..];
      SplitsAt(ns, '.', tail[1..]);
    }
  }

  lemma FormsResolve(svc: Service, viewerNs: string, host: string)
    requires Plain(svc) && host in PossibleAddresses(svc, viewerNs)
    ensures ParseHost(host, viewerNs) == Some((svc.name, svc.namespace))
  {
    if svc.namespace == viewerNs && host == svc.name {
      SplitsAt(svc.name, '.', "");
    } else {
      var dotted := svc.name + "." + svc.namespace;
      var tail := if host == dotted then "" else CLUSTER_SUFFIX;
      assert dotted + "" == dotted;
      assert host == dotted + tail;
      ParseDotted(svc.name, svc.namespace, tail, viewerNs);
    }
  }

  lemma DottedForms(svc: Service, viewerNs: string, tail: string)
    requires svc.namespace != "" && (tail == "" || tail == CLUSTER_SUFFIX)
    ensures svc.name + "." + svc.namespace + tail in PossibleAddresses(svc, viewerNs)
  {
    var forms, dotted := PossibleAddresses(svc, viewerNs), svc.name + "." + svc.namespace;
    assert dotted + "" == dotted;
    assert forms[0] == dotted && forms[1] == dotted + CLUSTER_SUFFIX;
  }

  lemma ResolvedAreForms(svc: Service, viewerNs: string, host: string)
    requires ParseHost(host, viewerNs) == Some((svc.name, svc.namespace))
    ensures host in PossibleAddresses(svc, viewerNs)
  {
    hide Find;
    var i := Find(host, '.');
    if i < |host| {
      var rest := host[i + 1..];
      var j := Find(rest, '.');
      var name, ns, tail := host[..i], rest[..j], rest[j..];
      assert rest == ns + tail;
      assert host == name + "." + ns + tail;
      DottedForms(svc, viewerNs, tail);
    } else {
      var forms := PossibleAddresses(svc, viewerNs);
      assert forms[|forms| - 1] == svc.name;
    }
  }

  /** The host forms of a Service are exactly what the grammar resolves to it. */
  lemma HostFormsAreParsed(svc: Service, viewerNs: string, host: string)
    requires Plain(svc)
    ensures host in PossibleAddresses(svc, viewerNs) <==> ParseHost(host, viewerNs) == Some((svc.name, svc.namespace))
  {
    if host in PossibleAddresses(svc, viewerNs) {
      FormsResolve(svc, viewerNs, host);
    }
    if ParseHost(host, viewerNs) == Some((svc.name, svc.namespace)) {
      ResolvedAreForms(svc, viewerNs, host);
    }
  }

  lemma HostFormsHaveNoColon(svc: Service, viewerNs: string)
    requires Plain(svc)
    ensures forall a :: a in PossibleAddresses(svc, viewerNs) ==> ':' !in a
  {
  }

  // ----- the matcher is the parser -----

  /** The first port of a Service that is printed as `text`. */
  function FirstPrinted(text: string, network: seq<SvcNetworkAttr>): Option<SvcNetworkAttr> {
    if network == [] then None
    else if Itoa(network[0].port) == text then Some(network[0])
    else FirstPrinted(text, network[1..])
  }

  lemma Rejoins(text: string, i: nat)
    requires i < |text| && text[i] == ':'
    ensures text == text[..i] + ":" + text[i + 1..]
  {
  }

  lemma {:induction false} PortFormSplits(text: string, addresses: seq<string>, port: Int32)
    requires forall a :: a in addresses ==> ':' !in a
    ensures var i := Find(text, ':');
            HasPortForm(text, addresses, port)
            <==> i < |text| && text[..i] in addresses && text[i + 1..] == Itoa(port)
  {
    hide Find, Itoa;
    var i := Find(text, ':');
    if a :| a in addresses && text == WithPort(a, port) {
      SplitsAt(a, ':', Itoa(port));
    }
    if i < |text| {
      Rejoins(text, i);
    }
  }

  lemma BareFormSplits(text: string, addresses: seq<string>)
    requires forall a :: a in addresses ==> ':' !in a
    ensures var i := Find(text, ':');
            text in addresses <==> i == |text| && text[..i] in addresses
  {
    hide Find;
    var i := Find(text, ':');
    assert i == |text| ==> text[..i] == text;
    assert i < |text| ==> text[i] in text;
  }

  lemma {:induction false} FirstWithPortSplits(text: string, network: seq<SvcNetworkAttr>, addresses: seq<string>)
    requires forall a :: a in addresses ==> ':' !in a
    ensures var i := Find(text, ':');
            FirstWithPort(text, network, addresses)
            == if i < |text| && text[..i] in addresses then FirstPrinted(text[i + 1..], network) else None
  {
    if network != [] {
      PortFormSplits(text, addresses, network[0].port);
      FirstWithPortSplits(text, network[1..], addresses);
    }
  }

  /** What a text means for a Service, by the grammar. */
  function Meaning(text: string, svc: Service, viewerNs: string): Option<SvcNetworkAttr> {
    var address := ParseAddress(text, viewerNs);
    if address.None? || address.value.service != svc.name || address.value.namespace != svc.namespace then None
    else if address.value.port.None? then Some(SvcNetworkAttr("", 0, FromInt(0), "", false))
    else FirstPrinted(address.value.port.value, svc.network)
  }

  /** Comparing with every printed form accepts precisely the documented pattern. */
  lemma MatcherIsTheGrammar(text: string, svc: Service, viewerNs: string)
    requires Plain(svc)
    ensures Match(text, svc, viewerNs) == Meaning(text, svc, viewerNs)
  {
    var addresses, i := PossibleAddresses(svc, viewerNs), Find(text, ':');
    HostFormsHaveNoColon(svc, viewerNs);
    HostFormsAreParsed(svc, viewerNs, text[..i]);
    BareFormSplits(text, addresses);
    FirstWithPortSplits(text, svc.network, addresses);
  }

  /** One text seen from one place denotes at most one Service name and namespace. */
  lemma AddressesAreUnambiguous(text: string, svc1: Service, svc2: Service, viewerNs: string)
    requires Plain(svc1) && Plain(svc2)
    requires Match(text, svc1, viewerNs).Some? && Match(text, svc2, viewerNs).Some?
    ensures svc1.name == svc2.name && svc1.namespace == svc2.namespace
  {
    MatcherIsTheGrammar(text, svc1, viewerNs);
    MatcherIsTheGrammar(text, svc2, viewerNs);
  }

  /** With a dot in a name, one text can denote two Services. */
  lemma DottedNamesAreAmbiguous()
    ensures var svc1, svc2 := Service("a", "b", [], [], false), Service("a.b", "n", [], [], false);
            Match("a.b", svc1, "n").Some? && Match("a.b", svc2, "n").Some?
  {
    var svc1, svc2 := Service("a", "b", [], [], false), Service("a.b", "n", [], [], false);
    assert PossibleAddresses(svc1, "n")[0] == "a.b";
    assert PossibleAddresses(svc2, "n")[2] == "a.b";
  }

  /** The first port of a Service with a given number. */
  function FirstNumbered(port: Int32, network: seq<SvcNetworkAttr>): Option<SvcNetworkAttr> {
    if network == [] then None
    else if network[0].port == port then Some(network[0])
    else FirstNumbered(port, network[1..])
  }

  lemma {:induction false} PrintedIsNumbered(port: Int32, network: seq<SvcNetworkAttr>)
    ensures FirstPrinted(Itoa(port), network) == FirstNumbered(port, network)
  {
    if network != [] {
      ItoaIsInjective(network[0].port, port);
      PrintedIsNumbered(port, network[1..]);
    }
  }

  /** Printing an address and matching it gives back the port that was printed. */
  lemma AddressRoundTrip(svc: Service, viewerNs: string, host: string, port: Int32)
    requires Plain(svc) && host in PossibleAddresses(svc, viewerNs)
    ensures Match(host, svc, viewerNs) == Some(NO_PORT)
    ensures Match(WithPort(host, port), svc, viewerNs) == FirstNumbered(port, svc.network)
  {
    HostFormsHaveNoColon(svc, viewerNs);
    HostFormsAreParsed(svc, viewerNs, host);
    MatcherIsTheGrammar(WithPort(host, port), svc, viewerNs);
    SplitsAt(host, ':', Itoa(port));
    PrintedIsNumbered(port, svc.network);
  }
}
