/** Objects on which the analyzer dereferences nil. */
module CrashCounterexamples {
  import opened Model
  import opened Netpol
  import opened Exposure
  import opened Selectors
  import opened Inlining
  import opened ManifestSpec
  import opened LabelTheorems
  import opened Declarations
  import opened Counterexamples
  import opened RunSpec
  import opened Synthesizer

  // ----- objects that cannot be parsed -----

  const PORTLESS := OcRoute("n", "svc", None, [])

  lemma PanicsWith(info: Info)
    requires Panics(info)
    ensures SomePanic([WorkloadInfo(BACK), info])
  {
    assert [WorkloadInfo(BACK), info][1] == info;
  }

  /** A nil object, a workload that cannot be decoded, and a Route without a port: each crashes the run. */
  method UnparsableObjectsCrash(ps: PoliciesSynthesizer) returns (allCrash: bool)
    modifies ps
    ensures allCrash && ps.errors == old(ps.errors)
  {
    hide SomePanic;
    PanicsWith(NilInfo);
    PanicsWith(BadWorkloadInfo);
    PanicsWith(RouterInfo(PORTLESS));
    var missing := ps.PoliciesFromInfos([WorkloadInfo(BACK), NilInfo]);
    var undecodable := ps.PoliciesFromInfos([WorkloadInfo(BACK), BadWorkloadInfo]);
    var portless := ps.PoliciesFromInfos([WorkloadInfo(BACK), RouterInfo(PORTLESS)]);
    allCrash := missing.Crash? && undecodable.Crash? && portless.Crash?;
  }

  // ----- a nameless workload behind a LoadBalancer -----

  const NAMELESS := Workload("", "n", APP_Z, [])
  const BALANCER := Svc("n", [PORT], true)

  /** A run over these two objects crashes. */
  method NamelessWorkloadCrashes(ps: PoliciesSynthesizer) returns (out: Outcome<seq<Policy>>)
    modifies ps
    ensures out == Crash
  {
    hide Contained, ByName, ConfigMapsIn;
    var infos := [WorkloadInfo(NAMELESS), ServiceInfo(BALANCER)];
    assert infos[0] == WorkloadInfo(NAMELESS) && infos[1] == ServiceInfo(BALANCER);
    SelectsZ(BALANCER, NAMELESS);
    assert DeclaredCrashAt(ps.lib, infos, NAMELESS, BALANCER);
    out := ps.PoliciesFromInfos(infos);
  }
}
