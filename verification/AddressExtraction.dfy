/** Recognising network addresses in configuration values.

    URL parsing and the Unicode letter tables belong to Go's libraries and are
    parameters of the model. */
module AddressExtraction {
  import opened Model
  import opened Text

  /** What the model takes from Go's libraries: the host part that getHostFromURL
      extracts from a text, if any, and unicode.IsLetter. */
  datatype Lib = Lib(hostOf: string -> Option<string>, isLetter: char -> bool)

  // ----- validators of the Kubernetes API machinery -----

  predicate IsLower(c: char) {
    'a' <= c <= 'z'
  }

  predicate IsAlnum(c: char) {
    IsLower(c) || IsDigit(c)
  }

  predicate IsLabel(s: string) {
    && s != "" && IsAlnum(s[0]) && IsAlnum(s[|s| - 1])
    && forall i :: 0 <= i < |s| ==> IsAlnum(s[i]) || s[i] == '-'
  }

  /** Labels separated by dots. */
  predicate AreLabels(s: string)
    decreases |s|
  {
    var i := Find(s, '.');
    IsLabel(s[..i]) && (i == |s| || AreLabels(s[i + 1..]))
  }

  /** A subdomain in the sense of section 2.1 of RFC 1123, in lower case. */
  predicate IsDns1123Subdomain(s: string) {
    |s| <= 253 && AreLabels(s)
  }

  /** A service name in the sense of section 5.1 of RFC 6335, in lower case. */
  predicate IsValidPortName(s: string) {
    && 0 < |s| <= 15
    && (forall i :: 0 <= i < |s| ==> IsAlnum(s[i]) || s[i] == '-')
    && (exists i :: 0 <= i < |s| && IsLower(s[i]))
    && (forall i :: 0 <= i < |s| - 1 ==> !(s[i] == '-' && s[i + 1] == '-'))
    && s[0] != '-' && s[|s| - 1] != '-'
  }

  predicate IsValidPortNum(s: string) {
    var n := Atoi(s);
    n.Some? && 1 <= n.value <= 65535
  }

  // ----- one candidate -----

  function PortPart(host: string): Option<string> {
    var i := Find(host, ':');
    if i == |host| then None else Some(host[i + 1..])
  }

  function HostPart(host: string): string {
    host[..Find(host, ':')]
  }

  predicate IsAddress(host: string) {
    && (PortPart(host).Some? ==> IsValidPortName(PortPart(host).value) || IsValidPortNum(PortPart(host).value))
    && IsDns1123Subdomain(HostPart(host))
    && Atoi(HostPart(host)).None?
  }

  function FromSuffix(lib: Lib, value: string): Option<string> {
    var host := lib.hostOf(value);
    if host.Some? && IsAddress(host.value) then host else None
  }

  method NetworkAddressFromSuffix(lib: Lib, value: string) returns (addr: string, ok: bool)
    ensures FromSuffix(lib, value) == if ok then Some(addr) else None
    ensures !ok ==> addr == ""
  {
    hide Find, Atoi, AreLabels, IsValidPortName;
    var parsed := lib.hostOf(value);
    if parsed.None? {
      return "", false;
    }
    var host := parsed.value;
    var hostNoPort := host;
    var colonPos := Find(host, ':');
    if colonPos < |host| {
      hostNoPort := host[..colonPos];
      var port := host[colonPos + 1..];
      if !IsValidPortName(port) {
        var portInt := Atoi(port);
        if portInt.None? || !(1 <= portInt.value <= 65535) {
          return "", false;
        }
      }
    } else {
      assert host[..colonPos] == host;
    }
    if !IsDns1123Subdomain(hostNoPort) {
      return "", false;
    }
    if Atoi(hostNoPort).Some? {
      return "", false;
    }
    return host, true;
  }

  // ----- all candidates -----

  /** A letter that follows a separator, not within the first two positions. */
  predicate StartsCandidate(lib: Lib, value: string, i: nat) {
    1 < i < |value| && lib.isLetter(value[i])
    && (value[i - 1] == ':' || value[i - 1] == '=' || value[i - 1] == ' ')
  }

  predicate IsCandidate(lib: Lib, value: string, s: string) {
    || s == value
    || exists i :: && 1 < i < |value| && lib.isLetter(value[i])
                   && (value[i - 1] == ':' || value[i - 1] == '=' || value[i - 1] == ' ') && s == value[i..]
  }

  /** The candidates that start before position `n`. */
  function CandidatesUpTo(lib: Lib, value: string, n: nat): seq<string>
    requires n <= |value|
  {
    if n == 0 then [value]
    else CandidatesUpTo(lib, value, n - 1) + (if StartsCandidate(lib, value, n - 1) then [value[n - 1..]] else [])
  }

  function Candidates(lib: Lib, value: string): seq<string> {
    CandidatesUpTo(lib, value, |value|)
  }

  method PossibleSuffixes(lib: Lib, value: string) returns (res: seq<string>)
    ensures res == Candidates(lib, value)
  {
    res := [value];
    var prevRune := '\0';
    for i := 0 to |value|
      invariant res == CandidatesUpTo(lib, value, i)
      invariant i > 0 ==> prevRune == value[i - 1]
    {
      var r := value[i];
      if i > 1 && lib.isLetter(r) && (prevRune == ':' || prevRune == '=' || prevRune == ' ') {
        res := res + [value[i..]];
      }
      prevRune := r;
    }
  }

  /** None missed. */
  lemma {:induction false} CandidatesElements(lib: Lib, value: string, n: nat, s: string)
    requires n <= |value|
    ensures s in CandidatesUpTo(lib, value, n)
            <==> s == value || exists i :: 1 < i < n && StartsCandidate(lib, value, i) && s == value[i..]
  {
    if n > 0 {
      CandidatesElements(lib, value, n - 1, s);
    }
  }

  /** None repeated, longest first, beginning with the whole value. */
  lemma {:induction false} CandidatesShrink(lib: Lib, value: string, n: nat)
    requires n <= |value|
    ensures var cs := CandidatesUpTo(lib, value, n);
            && |cs| > 0 && cs[0] == value
            && (forall j :: 0 < j < |cs| ==> |value| - n < |cs[j]|)
            && (forall j, k :: 0 <= j < k < |cs| ==> |cs[j]| > |cs[k]|)
  {
    if n > 0 {
      CandidatesShrink(lib, value, n - 1);
    }
  }

  /** The list holds exactly the candidates, in strictly shrinking order. */
  lemma CandidatesAreListed(lib: Lib, value: string)
    ensures var cs := Candidates(lib, value);
            && |cs| > 0 && cs[0] == value
            && (forall s :: s in cs <==> IsCandidate(lib, value, s))
            && (forall j, k :: 0 <= j < k < |cs| ==> |cs[j]| > |cs[k]|)
  {
    CandidatesShrink(lib, value, |value|);
    forall s ensures s in Candidates(lib, value) <==> IsCandidate(lib, value, s) {
      CandidatesElements(lib, value, |value|, s);
    }
  }

  function FirstAccepted(lib: Lib, suffixes: seq<string>): Option<string> {
    if suffixes == [] then None
    else if FromSuffix(lib, suffixes[0]).Some? then FromSuffix(lib, suffixes[0])
    else FirstAccepted(lib, suffixes[1..])
  }

  /** The network address found in a configuration value. */
  function AddressIn(lib: Lib, value: string): Option<string> {
    FirstAccepted(lib, Candidates(lib, value))
  }

  lemma {:induction false} FirstAcceptedAt(lib: Lib, suffixes: seq<string>, k: nat)
    requires k <= |suffixes|
    requires forall j :: 0 <= j < k ==> FromSuffix(lib, suffixes[j]).None?
    ensures FirstAccepted(lib, suffixes)
            == if k < |suffixes| && FromSuffix(lib, suffixes[k]).Some? then FromSuffix(lib, suffixes[k])
               else FirstAccepted(lib, suffixes[k..])
  {
    if k > 0 {
      FirstAcceptedAt(lib, suffixes[1..], k - 1);
      assert suffixes[1..][k - 1..] == suffixes[k..];
    }
  }

  method NetworkAddressFromStr(lib: Lib, value: string) returns (addr: string, ok: bool)
    ensures AddressIn(lib, value) == if ok then Some(addr) else None
    ensures !ok ==> addr == ""
  {
    var suffixes := PossibleSuffixes(lib, value);
    for i := 0 to |suffixes|
      invariant forall j :: 0 <= j < i ==> FromSuffix(lib, suffixes[j]).None?
    {
      addr, ok := NetworkAddressFromSuffix(lib, suffixes[i]);
      if ok {
        FirstAcceptedAt(lib, suffixes, i);
        return;
      }
    }
    FirstAcceptedAt(lib, suffixes, |suffixes|);
    return "", false;
  }

  /** The result is that of the longest candidate that is an address, and there is a
      result as soon as some candidate is one. */
  lemma LongestCandidateWins(lib: Lib, value: string)
    ensures var found := AddressIn(lib, value);
            if found.None? then forall s :: IsCandidate(lib, value, s) ==> FromSuffix(lib, s).None?
            else
              && IsAddress(found.value)
              && exists s :: IsCandidate(lib, value, s) && FromSuffix(lib, s) == found
                             && forall t :: IsCandidate(lib, value, t) && FromSuffix(lib, t).Some? ==> |t| <= |s|
  {
    var cs := Candidates(lib, value);
    CandidatesAreListed(lib, value);
    var k := 0;
    while k < |cs| && FromSuffix(lib, cs[k]).None?
      invariant k <= |cs|
      invariant forall j :: 0 <= j < k ==> FromSuffix(lib, cs[j]).None?
    {
      k := k + 1;
    }
    FirstAcceptedAt(lib, cs, k);
    forall t | IsCandidate(lib, value, t) && FromSuffix(lib, t).Some?
      ensures k < |cs| && |t| <= |cs[k]|
    {
      assert t in cs;
      var j :| 0 <= j < |cs| && cs[j] == t;
    }
    if k < |cs| {
      assert cs[k] in cs;
    }
  }

  // ----- integers -----

  /** A plain integer is turned down exactly as long as it fits Go's int. */
  lemma IntegersAreHostsWhenHuge(lib: Lib, value: string)
    requires lib.hostOf(value).Some? && IsDns1123Subdomain(lib.hostOf(value).value)
    ensures var h := lib.hostOf(value).value;
            FromSuffix(lib, value).Some? <==> !(AllDigits(h) && ValueOf(h) <= 9223372036854775807)
  {
    var h := lib.hostOf(value).value;
    LabelsHaveNoColon(h);
    FindIsFirst(h, ':', |h|);
    assert h[..|h|] == h;
    var i := Find(h, '.');
    assert h[..i] != "" && IsAlnum(h[..i][0]);
  }

  lemma {:induction false} LabelsHaveNoColon(s: string)
    requires AreLabels(s)
    ensures ':' !in s && s != "" && IsAlnum(s[0])
    decreases |s|
  {
    var i := Find(s, '.');
    assert s[..i][0] == s[0];
    if i < |s| {
      LabelsHaveNoColon(s[i + 1..]);
      assert s == s[..i] + [s[i]] + s[i + 1..];
    } else {
      assert s == s[..i];
    }
  }
}
