# What the topology analyzer's network policies mean

The analyzer reads Kubernetes manifests, works out which workload needs to reach which
Service, and emits NetworkPolicies that allow only that. This project models the pipeline
from parsed manifest objects to policies and proves what the policies allow.

| file | models |
|---|---|
| `Model.dfy` | workloads, Services, ports, connections (types.go) |
| `Netpol.dfy` | network policies and their meaning: isolation, union of rules, selectors, as the networking.k8s.io/v1 API defines them |
| `Sequences.dfy`, `Ordering.dfy`, `Text.dfy` | first-occurrence deduplication, string order, numerals and separators |
| `SynthSpec.dfy`, `SynthTable.dfy` | what synthesis computes: the table of workloads and its closed form |
| `Synth.dfy` | synthesis as written: objects in a map, rules appended in place, listing, sorting (synth_netpols.go) |
| `SynthMeaning.dfy` | the compiler theorem: policies mean exactly what the connections say |
| `SynthTheorems.dfy`, `SynthInvariants.dfy` | exactness, monotonicity, mirror invariant, isolation, policy identities |
| `LabelTheorems.dfy`, `OrderTheorems.dfy` | exactly which workloads inherit traffic, and exactly when the order of connections matters |
| `Selectors.dfy`, `Addresses.dfy`, `DiscoverySpec.dfy`, `Connections.dfy` | connection discovery, its string encodings, and the join it computes (connections.go) |
| `DiscoveryOrder.dfy` | in which order connections and used ports are found |
| `Pipeline.dfy` | discovery followed by synthesis: what is allowed, who gets a policy, what crashes |
| `AddressExtraction.dfy`, `Validators.dfy`, `Recognition.dfy` | finding addresses in configuration values (info_to_resource.go), what the validators accept, and the agreement with the matcher |
| `Errors.dfy`, `Exposure.dfy`, `Inlining.dfy`, `ManifestSpec.dfy`, `Accumulator.dfy` | error flags, exposed ports, ConfigMap references, and the accumulator (resource_accumulator.go) |
| `InliningTheorems.dfy`, `PortOrder.dfy` | exactly when inlined addresses and used ports are determined, and how many errors inlining reports |
| `RunSpec.dfy`, `Synthesizer.dfy` | whole runs and the stop protocol (policies_synthesizer.go) |
| `ReadingTheorems.dfy` | which files, objects and errors a run reads and reports |
| `RunTheorems.dfy` | what runs over the same objects share |
| `Declarations.dfy`, `RunMeaning.dfy` | what a run returns and which runs crash, in terms of the declared objects |
| `ManifestOrder.dfy`, `ConfigMapOrder.dfy`, `TextTheorems.dfy` | exactly when the order of manifests, and the order of a map, change policies, flows and text |
| `Counterexamples.dfy`, `NameCounterexamples.dfy`, `CrashCounterexamples.dfy`, `ConfigMapCounterexamples.dfy` | inputs for the properties that do not hold unconditionally |

`dafny verify dfyconfig.toml` checks everything.

## Main results

- **Compiler correctness** (`SynthMeaning.SynthMeansTheConnections`). For every list of
  connections, every two endpoints and every port, the emitted policies allow the flow if
  and only if the connections say so. There is no hypothesis about labels, names or
  namespaces; the only one is that the run does not crash.
- **Exactness** (`SynthTheorems.SynthesisIsExact`, `Pipeline.PipelineIsExact`,
  `Declarations.RunIsExact`). Between pods that belong to one workload each, exactly the
  discovered traffic and DNS are allowed; for a whole run, exactly what the manifests declare.
  All workloads must have names that identify them, and all or none of them a namespace.
- **What a run returns** (`Synthesizer.PoliciesSynthesizer.PoliciesFromInfos`,
  `Synthesizer.PoliciesSynthesizer.PoliciesFromFolderPaths`, by `RunMeaning.RunConcludes`). Every
  pod in the namespace of a declared workload is isolated both ways by the returned policies; under
  the hypotheses of exactness they allow between declared pods exactly the declared flows, nothing
  out of the cluster, and from elsewhere exactly what is exposed. The run crashes, or fails for want
  of workloads, exactly when the objects say so.
- **What a run reads** (`ReadingTheorems.ObjectsOfRun`, `ReadingTheorems.WhatStopsARun`). A run that
  gets through takes in exactly the objects of the YAML files in its directories, and it gets through
  unless a directory is inaccessible or, failing fast, a subdirectory is or a file cannot be read.
- **When exactness is possible** (`LabelTheorems.ExactForAllListsExactly`). The policies are exact
  for every list of connections among some named workloads if and only if names identify the
  workloads, no workload's labels contain another's in the same namespace, and either all or none
  of them have a namespace.
- **When order matters** (`OrderTheorems.OrderIsIrrelevantExactly`,
  `ManifestOrder.ManifestOrderExactly`). Reordering connections leaves the policies as they are if
  and only if no two connections disagree about the first workload of some name; reordering
  manifests does if and only if no two connections that can come first disagree, as long as the
  same ConfigMaps are in effect.
- **What runs over the same objects share** (`ManifestOrder.ManifestOrderIsIrrelevant`). Two runs
  over the same objects, with the same ConfigMaps in effect and leading connections that agree
  on names, emit the same policies up to the order of ports inside rules and of default-deny
  policies, and allow the same flows, whatever order manifests and ConfigMap data are read in.
- **When the text is determined** (`TextTheorems.TextIsDeterminedExactly`). All runs over a list of
  objects emit the identical list of policies if and only if no workload refers to a ConfigMap that
  names two different ports of a Service through which it reaches another workload, for named and
  identified workloads that name each target because of one Service only.
- **The matcher is a grammar** (`Addresses.MatcherIsTheGrammar`). Comparing with every printed
  address accepts precisely the pattern that the documentation gives, and extraction finds
  every such address (`Recognition.PatternIsRecognised`).
- **Stop protocol** (`Synthesizer.PoliciesSynthesizer.PoliciesFromFolderPaths`). In every run,
  fail-fast or not, at most one recorded error stops processing and it is the last one.

## What the code does not do

Each of these comes with the exact condition and with an input.

- The table of workloads is keyed by name alone. Of two workloads of one name only the first one
  mentioned is served (served exactly if `ExactForAllListsExactly`, `PlainForAllListsExactly`; order
  matters exactly if `OrderIsIrrelevantExactly`, `ManifestOrderExactly`; inputs:
  `NamesakeIsBlocked`, where order cannot matter, and `SharedNamesDependOnOrder`, where it does).
- A workload whose labels contain another's inherits that workload's traffic
  (`TrafficIsInherited`, `WhoInherits`, `ExactForAllListsExactly`; `OverlappingLabelsInherit`).
- A target that has a namespace cannot name a source that has none: such a connection is
  blocked at the target (`LoneConnectionWorksExactly`, `DiscoveredIsAllowed`;
  `UnnamespacedSourceIsBlocked`).
- A workload can be named such that its policy gets the identity of its namespace's
  default-deny policy (`PoliciesAreNamedApart`; `PoliciesCollide`).
- A connection with ports to a nameless target dereferences a nil pointer (`CrashExactly`,
  `RunCrashesExactly`; `NamelessWorkloadCrashes`). So do a nil object, a workload that cannot be
  decoded or has no pod template, and a Route without a port (`WhatCrashesParsing`, by the
  contracts of `PoliciesFromInfos` and `PoliciesFromFolderPaths`; `UnparsableObjectsCrash`).
- Of two ConfigMaps of one full name the last one read counts, so that the order of manifests
  decides (which are in effect: `ConfigMapOrderExactly`; which flows are allowed:
  `FlowsDependOnChoiceExactly`; `ConfigMapOrderMatters`).
- The order of ports inside a rule follows the order in which Go ranges over a ConfigMap's data,
  so that two runs over the same objects can differ in the text of a policy, though not in what it
  allows (`PortsAreDeterminedExactly`, `TextIsDeterminedExactly`; `TextDependsOnMapOrder`). A
  change is absorbed where other Services give the same rules anyway (`ChangeIsAbsorbed`); the
  theorem on the text is about objects for which that cannot happen.
- A Service without a selector selects nothing in a cluster; the analyzer puts it in front of its
  whole namespace (`FrontsExactly`; `SelectorlessServiceOpensAll`).
- An all-digit host is refused only while it fits Go's int (`IntegersAreHostsWhenHuge`;
  `HugeIntegerIsAccepted`).
- README.md:38 of the analyzer promises a policy for each workload. The code emits one per
  workload name that occurs in some connection (`OneEntryPerName`, `WhoGetsAPolicy`;
  `LonerGetsNoPolicy`); the others are covered by the default-deny policies alone
  (`UnconnectedIsCutOff`). The model follows the code.

## Model

| member | source | states |
|---|---|---|
| `Synth.DeploymentConnectivity.AddIngressRule` | pkg/analyzer/synth_netpols.go:30-39 | the rule list afterwards is the old one, with the rule at its end unless it was there already |
| `Synth.DeploymentConnectivity.AddEgressRule` | pkg/analyzer/synth_netpols.go:41-50 | the same for egress rules |
| `Synth.FindOrAddDeploymentConn` | pkg/analyzer/synth_netpols.go:138-149 | null exactly for an absent or nameless workload; otherwise the object under its name, fresh if the name was new; keys keep distinct objects |
| `Synth.GetNetpolPeer` | pkg/analyzer/synth_netpols.go:151-161 | the peer carries the other's labels, and its namespace only when that differs and is not empty |
| `Synth.ToNetpolPorts` | pkg/analyzer/synth_netpols.go:167-188 | the translated ports, in order, without the unexposed ones when asked |
| `Synth.TargetPorts` | pkg/analyzer/synth_netpols.go:102-105 | the ports of a connection: used ports win, and the exposed-only filter applies to source-less internal links |
| `SynthTable.PortIsTranslated` | pkg/analyzer/synth_netpols.go:173-184 | a port is opened by its target if that is a name or a number other than 0, else by its own number; by its protocol if it has one, else TCP |
| `SynthTable.PortsInOrder` | pkg/analyzer/synth_netpols.go:167-188 | the ports are those of the Service that are kept, translated, each once and in order |
| `SynthTable.PortsOfElements` | pkg/analyzer/synth_netpols.go:102-108 | which ports a connection has, as a condition on the single ports of its Service or those recorded as used |
| `Synth.AddConnection` | pkg/analyzer/synth_netpols.go:99-125 | one turn of the loop performs one step of the table, through the objects in the map; panics iff the connection has ports and a nameless target |
| `Synth.ListValues` | pkg/analyzer/synth_netpols.go:127-130 | ranging over the map in any order lists each object once |
| `Synth.SortByName` | pkg/analyzer/synth_netpols.go:131-134 | a permutation in non-decreasing order of names; ties are left open |
| `Synth.SortedValuesAreTheListing` | pkg/analyzer/synth_netpols.go:127-135 | any listing, sorted with any treatment of ties, is the one strictly increasing listing of the table |
| `Synth.DetermineConnectivityPerDeployment` | pkg/analyzer/synth_netpols.go:97-136 | fresh, pairwise distinct objects that hold the entries of the table in increasing order of names; panics iff some connection makes it |
| `Synth.BuildNetpolPerDeployment` | pkg/analyzer/synth_netpols.go:190-216 | one policy per entry, with the DNS rule added in place to entries that have egress rules |
| `Synth.GetNsDefaultDenyPolicy` | pkg/analyzer/synth_netpols.go:53-74 | a policy that selects the whole namespace, isolates both ways and has no rules |
| `Synth.GetNsDefaultDenyPolicies` | pkg/analyzer/synth_netpols.go:77-88 | one such policy per distinct namespace, in order of first occurrence |
| `Synth.SynthNetpols` | pkg/analyzer/synth_netpols.go:90-95 | the emitted list is a function of its inputs, whatever the map order and the sort do; panics iff some connection with ports has a nameless target |
| `SynthTable.OwnerIsFirstMention` | pkg/analyzer/synth_netpols.go:138-149 | a name belongs to the first workload mentioned under it, the empty name to none |
| `SynthTable.RulesAreDedupedOffers` | pkg/analyzer/synth_netpols.go:30-50 | each entry's rules are the first-occurrence deduplication of all rules offered to its name by all connections |
| `Sequences.DedupElements` | pkg/analyzer/synth_netpols.go:33-38 | deduplication keeps the elements and leaves no repetition |
| `Sequences.DedupKeepsOrder` | pkg/analyzer/synth_netpols.go:33-38 | survivors stand in the order of their first occurrences |
| `Ordering.IncreasingIsUnique` | pkg/analyzer/synth_netpols.go:131-134 | a strictly increasing sequence of names is determined by the set of names |
| `Ordering.LessIsLexicographic` | pkg/analyzer/synth_netpols.go:131-134 | the order of names is lexicographic: a proper prefix comes first, else the first differing character decides |
| `SynthMeaning.IsolationMeaning` | pkg/analyzer/synth_netpols.go:52-95 | a pod is isolated exactly if its namespace is analysed or an entry covers it |
| `SynthMeaning.EgressSound` | pkg/analyzer/synth_netpols.go:110-113 | an admitted egress is owed to a connection, to DNS, or to the source not being isolated |
| `SynthMeaning.EgressComplete` | pkg/analyzer/synth_netpols.go:110-113 | what a connection lets out, the policies let out |
| `SynthMeaning.IngressSound` | pkg/analyzer/synth_netpols.go:115-124 | an admitted ingress is owed to a connection or to the target not being isolated |
| `SynthMeaning.IngressComplete` | pkg/analyzer/synth_netpols.go:115-124 | what a connection lets in, the policies let in |
| `SynthMeaning.SynthMeansTheConnections` | pkg/analyzer/synth_netpols.go:90-216 | for all endpoints and ports, egress and ingress are allowed if and only if the connections' own meaning allows them |
| `SynthTheorems.PlainMeaning` | pkg/analyzer/synth_netpols.go:97-125 | the same with each connection speaking for itself, when names identify workloads |
| `SynthTheorems.PeerReaches` | pkg/analyzer/synth_netpols.go:151-160 | a peer finds a workload's pods exactly if the namespaces agree or the workload has one |
| `SynthTheorems.PeerReachesOnly` | pkg/analyzer/synth_netpols.go:151-160 | and then it finds nothing but pods the workload covers |
| `SynthTheorems.SynthesisIsExact` | pkg/analyzer/synth_netpols.go:90-216 | between pods of one workload each: allowed iff a connection has the port, or it is DNS, the source sends somewhere and the target admits the port |
| `LabelTheorems.AntichainPods` | pkg/analyzer/synth_netpols.go:163-165 | in an antichain of labels, the declared pod of every analysed workload has a single owner |
| `LabelTheorems.AntichainIsExact` | pkg/analyzer/synth_netpols.go:90-216 | for any two workloads of an antichain and any connections among them, the allowed flows are those asked for |
| `LabelTheorems.TrafficIsInherited` | pkg/analyzer/synth_netpols.go:151-165 | for any connections, egress and ingress between declared pods are allowed iff some connection gives them to workloads whose labels theirs contain |
| `LabelTheorems.WhoInherits` | pkg/analyzer/synth_netpols.go:163-165 | a connection's traffic is shared by exactly the workloads whose labels contain those of its two ends |
| `LabelTheorems.ExactForAllListsExactly` | pkg/analyzer/synth_netpols.go:138-165 | exactness holds for all lists of connections among some named workloads iff names identify them, their labels form an antichain per namespace, and their namespaces agree |
| `LabelTheorems.PlainForAllListsExactly` | pkg/analyzer/synth_netpols.go:138-149 | each connection speaks for its own ends, in all lists among some named workloads, iff names identify them |
| `LabelTheorems.NamesakesAreMerged` | pkg/analyzer/synth_netpols.go:142-147 | a connection between two workloads of one name opens exactly the flows among pods that its source's labels select |
| `SynthTheorems.ConnectionIsHonoured` | pkg/analyzer/synth_netpols.go:110-124 | exactly when the rules of one connection admit its own pods at either end |
| `SynthTheorems.ConnectedIsAllowed` | pkg/analyzer/synth_netpols.go:110-124 | any pods that the ends of a connection select may talk on its ports, when the namespaces are known |
| `SynthTheorems.LoneConnectionWorksExactly` | pkg/analyzer/synth_netpols.go:151-160 | a single connection's flow is allowed if and only if each policy can name the other end's namespace |
| `SynthTheorems.MoreConnectionsAllowMore` | pkg/analyzer/synth_netpols.go:97-125 | describing more traffic between analysed workloads never removes an allowed flow |
| `OrderTheorems.ConnectionOrderIsIrrelevant` | pkg/analyzer/synth_netpols.go:97-136 | permuting or repeating connections that agree on the first workload of each name leaves the ordered list of policies and the rule set of each as they were |
| `OrderTheorems.OrderIsIrrelevantExactly` | pkg/analyzer/synth_netpols.go:138-149 | all permutations give the same policies if and only if no two connections disagree on the first workload of a name |
| `OrderTheorems.SameEffectsAlike` | pkg/analyzer/synth_netpols.go:90-136 | connections of the same effects, with names that belong to the same workloads, give policies that are alike |
| `OrderTheorems.AlikeAllowAlike` | pkg/analyzer/synth_netpols.go:167-188 | policy lists that differ in the order of ports and of default-deny policies allow the same flows |
| `SynthInvariants.EgressIsMirrored` | pkg/analyzer/synth_netpols.go:99-125 | after any connections, every egress rule has its ingress rule with the same ports in the entry its peer selects |
| `SynthInvariants.IngressIsMirrored` | pkg/analyzer/synth_netpols.go:99-125 | every ingress rule that names a workload has its egress rule in that workload's entry |
| `SynthInvariants.OneEntryPerName` | pkg/analyzer/synth_netpols.go:98-136 | entries are strictly increasing by name, one per name that occurs in any connection, for its first workload |
| `SynthInvariants.DnsRuleIsAddedOnce` | pkg/analyzer/synth_netpols.go:193-196 | the DNS rule is last and single exactly when there is another egress rule; adding it again changes nothing |
| `SynthInvariants.DenyPoliciesAreOnePerNamespace` | pkg/analyzer/synth_netpols.go:76-88 | exactly the namespaces of workloads get a policy that selects all of the namespace and has both types and no rule; all are named apart |
| `SynthInvariants.DenyPoliciesInOrder` | pkg/analyzer/synth_netpols.go:77-88 | they stand in the order in which the namespaces first occur among the workloads |
| `SynthInvariants.EmittedInOrder` | pkg/analyzer/synth_netpols.go:90-95 | first the policies of connected workloads, increasing by name, each named after its workload, in its namespace and with its selector; then the default-deny policies |
| `SynthInvariants.NothingElseIsAllowed` | pkg/analyzer/synth_netpols.go:90-125 | pods of analysed namespaces are isolated both ways, and every flow in or out is owed to a connection or DNS |
| `SynthInvariants.OutsideTraffic` | pkg/analyzer/synth_netpols.go:115-117 | no analysed pod may leave the cluster; from outside exactly the externally exposed ports are open |
| `SynthInvariants.UnconnectedIsCutOff` | pkg/analyzer/synth_netpols.go:90-95 | a workload in no connection has no allowed flow unless another one's selector covers its pod |
| `SynthInvariants.PoliciesAreNamedApart` | pkg/analyzer/synth_netpols.go:54-57 | emitted policies differ in namespace or name if and only if no first mention of a name bears the colliding one in an analysed namespace |
| `SynthInvariants.CollisionIsTextual` | pkg/analyzer/synth_netpols.go:203-204 | the names that collide with a default-deny policy's |
| `Counterexamples.OverlappingLabelsInherit` | pkg/analyzer/synth_netpols.go:163-165 | from discovered connections, a workload whose labels contain another's is allowed a flow it does not ask for |
| `Counterexamples.UnnamespacedSourceIsBlocked` | pkg/analyzer/synth_netpols.go:151-160 | a workload without namespace refers to a Service in one, and the discovered connection is not allowed |
| `NameCounterexamples.SharedNamesDependOnOrder` | pkg/analyzer/synth_netpols.go:142-147 | two workloads of one name behind LoadBalancers: which one is opened depends on the order in which they are read |
| `NameCounterexamples.NamesakeIsBlocked` | pkg/analyzer/synth_netpols.go:142-147 | a workload uses a Service in front of its namesake in another namespace; order cannot matter, and the flow is blocked |
| `Counterexamples.SelectorlessServiceOpensAll` | pkg/analyzer/connections.go:48-62 | a Service without a selector, exposed externally, opens a workload that it does not select in a cluster |
| `CrashCounterexamples.UnparsableObjectsCrash` | pkg/analyzer/info_to_resource.go:48-51 | a nil object, an undecodable workload and a Route without a port each crash the run |
| `NameCounterexamples.PoliciesCollide` | pkg/analyzer/synth_netpols.go:54-57 | a workload and a Service for which two emitted policies have one name and namespace |
| `Counterexamples.LonerGetsNoPolicy` | README.md:38 | a workload behind a Service that only it refers to gets no policy of its own |
| `CrashCounterexamples.NamelessWorkloadCrashes` | pkg/analyzer/synth_netpols.go:115-124 | a run over a nameless workload and a LoadBalancer in front of it crashes |
| `ConfigMapCounterexamples.ConfigMapOrderMatters` | pkg/analyzer/resource_accumulator.go:165-169 | two orders of the same objects such that all runs over one forbid a flow that all runs over the other allow |
| `ConfigMapCounterexamples.TextDependsOnMapOrder` | pkg/analyzer/resource_accumulator.go:177-181 | two runs over the same objects whose policies differ, yet are alike |
| `Selectors.MatchLabelSelectorToStrLabels` | pkg/analyzer/info_to_resource.go:80-86 | one string per label, the encodings of all labels, in some order |
| `Selectors.AreSelectorsContained` | pkg/analyzer/connections.go:48-62 | true exactly if every selector string encodes a label |
| `Selectors.SelectorEncodingIsFaithful` | pkg/analyzer/connections.go:48-62 | for keys without ':' string containment is sub-map containment |
| `Selectors.ColonInKeyIsAmbiguous` | pkg/analyzer/info_to_resource.go:80-86 | a ':' in a key makes the encoding ambiguous |
| `Connections.SvcHasExposedPorts` | pkg/analyzer/connections.go:36-46 | exposed externally or some port flagged |
| `Connections.GetPossibleServiceAddresses` | pkg/analyzer/connections.go:104-115 | the host forms of a Service as seen from a workload |
| `Connections.EnvValueMatchesService` | pkg/analyzer/connections.go:117-135 | no-port match first, otherwise the first port one of whose forms equals the value |
| `Connections.FindServices` | pkg/analyzer/connections.go:64-79 | the Services of the workload's namespace whose selectors it carries, in order |
| `Connections.UseOfService` | pkg/analyzer/connections.go:85-96 | matched iff some address denotes the Service; the copy records the positive ports matched, in order |
| `Connections.FindSource` | pkg/analyzer/connections.go:81-102 | the copies of all workloads that refer to the Service, in order |
| `Connections.ConnectThrough` | pkg/analyzer/connections.go:20-31 | the connections of one target through one Service, with the source-less one where due |
| `Connections.DiscoverConnections` | pkg/analyzer/connections.go:13-34 | all connections, target by target |
| `DiscoverySpec.DiscoveryIsAJoin` | pkg/analyzer/connections.go:15-102 | a connection is found iff it satisfies the join of workloads, Services and workloads; source-less iff nothing refers to the Service or it is exposed |
| `DiscoveryOrder.DiscoveryIsInOrder` | pkg/analyzer/connections.go:15-34 | the list of connections enumerates the matching triples of target, Service and source once each, in lexicographic order, with the source-less one last |
| `DiscoveryOrder.SourceRecordsItsPorts` | pkg/analyzer/connections.go:81-102 | the copy of a source differs only in used ports: the old ones, then those that its addresses denote by number, in order |
| `Addresses.HostFormsAreParsed` | pkg/analyzer/connections.go:104-115 | the host forms of a Service are exactly the texts that parse to its name and namespace |
| `Addresses.MatcherIsTheGrammar` | pkg/analyzer/connections.go:117-135 | matching equals parsing by `svc(.ns(.svc.cluster.local)?)?(:port)?`, the bare name only in its own namespace |
| `Addresses.AddressesAreUnambiguous` | pkg/analyzer/connections.go:104-135 | one text seen from one place denotes at most one Service name and namespace |
| `Addresses.DottedNamesAreAmbiguous` | pkg/analyzer/connections.go:104-115 | with a dot in a name one text can denote two Services |
| `Addresses.AddressRoundTrip` | README.md:56 | matching a printed address gives no port if none was written, else the first port of that number |
| `Text.ItoaIsInjective` | pkg/analyzer/connections.go:128 | two numbers are never printed alike |
| `Text.AtoiReads` | pkg/analyzer/info_to_resource.go:330-341 | a text is read as an integer iff it is a decimal numeral, perhaps with a sign, whose value fits 64 bits |
| `Pipeline.DiscoveredConnectionsAreFit` | pkg/analyzer/connections.go:15-34 | discovered connections stay among analysed workloads, keep names identifying, and have named targets when workloads are named |
| `Pipeline.UnnamespacedTargets` | pkg/analyzer/connections.go:104-115 | a target without a namespace only gets sources without one |
| `Pipeline.DiscoveredIsAllowed` | pkg/analyzer/connections.go:15-33 | every discovered connection may leave its source, and may enter its target exactly if the source can be named or another connection opens the port |
| `Pipeline.PipelineIsExact` | README.md:34-44 | allowed iff the source refers to a Service in front of the target and uses that port, or DNS |
| `Pipeline.AntichainPipelineIsExact` | README.md:34-44 | the same for the declared pods of any two workloads of an antichain |
| `Pipeline.WhoGetsAPolicy` | README.md:38 | a name gets a policy iff a workload of that name is connected: behind an exposed or otherwise referred to, or unreferenced Service, or referring to another's |
| `Pipeline.CrashExactly` | pkg/analyzer/synth_netpols.go:115-124 | discovery hands a nameless target with ports to synthesis iff one of the guards holds |
| `AddressExtraction.PossibleSuffixes` | pkg/analyzer/info_to_resource.go:345-361 | the list of candidates |
| `AddressExtraction.CandidatesAreListed` | pkg/analyzer/info_to_resource.go:345-361 | exactly the value and its suffixes that start with a letter after a separator, in strictly shrinking order |
| `AddressExtraction.NetworkAddressFromSuffix` | pkg/analyzer/info_to_resource.go:314-343 | accepts a host that is a subdomain, not an int, with a valid port name or number if any |
| `Validators.LabelsAreSubdomains` | pkg/analyzer/info_to_resource.go:335-337 | subdomains, read label by label, are the texts of lower-case letters, digits, '-' and '.' in which the characters next to each dot, and at both ends, are alphanumeric |
| `Validators.PortNamesAreValid` | pkg/analyzer/info_to_resource.go:328-329 | the service names of RFC 6335: up to 15 lower-case letters, digits and single inner hyphens, with a letter |
| `Validators.AddressesAre` | pkg/analyzer/info_to_resource.go:314-343 | the hosts that are accepted, as a grammar: a subdomain that is no integer within 64 bits, alone or with a port name or a number from 1 to 65535 |
| `Validators.ExtractedAddresses` | pkg/analyzer/info_to_resource.go:314-343 | what a candidate gives: the host part of the URL, iff that is of this grammar |
| `AddressExtraction.NetworkAddressFromStr` | pkg/analyzer/info_to_resource.go:297-312 | the result of the first accepted candidate, or nothing |
| `AddressExtraction.LongestCandidateWins` | pkg/analyzer/info_to_resource.go:297-312 | the result is a valid address, that of the longest accepted candidate, and exists iff some candidate is accepted |
| `AddressExtraction.IntegersAreHostsWhenHuge` | pkg/analyzer/info_to_resource.go:338-341 | a subdomain without port is accepted iff it is not a decimal within the range of int |
| `Recognition.HugeIntegerIsAccepted` | pkg/analyzer/info_to_resource.go:338-341 | the integer after the largest int is accepted as a host |
| `Recognition.PatternIsRecognised` | README.md:56 | an address of the documented pattern is extracted from a value and denotes the Service and port it was written for |
| `Exposure.ServicesToExpose.AppendPort` | pkg/analyzer/types.go:84-91 | appends to the list under namespace and name and to no other |
| `Exposure.ServicesToExpose.ExposeOcRoute` | pkg/analyzer/info_to_resource.go:148-161 | appends the route's port for its target and then its alternate backends; panics iff there is no port |
| `Exposure.ServicesToExpose.ExposeIngress` | pkg/analyzer/info_to_resource.go:163-198 | appends the ports of the default backend and of all path backends that are Services, in their order |
| `Exposure.ServicesToExpose.ExposeGatewayRoute` | pkg/analyzer/info_to_resource.go:200-248 | appends the ports of backends that are Services and give a port, in their order, in their own namespace if they give one |
| `Exposure.EntriesAreExposed` | pkg/analyzer/info_to_resource.go:148-248 | the ports appended for a router are exactly those it exposes |
| `Exposure.EntriesAreAppended` | pkg/analyzer/types.go:84-91 | each Service's list is the old one followed by its new ports in order |
| `ManifestSpec.ExposureElements` | pkg/analyzer/resource_accumulator.go:211-230 | a port is listed iff some router among the objects exposes it |
| `Exposure.ExposureIsIdempotent` | pkg/analyzer/resource_accumulator.go:211-230 | exposing twice is exposing once |
| `Exposure.ExposureDependsOnMembership` | pkg/analyzer/resource_accumulator.go:211-230 | only the set of exposed ports matters, not their order or number |
| `ManifestSpec.FlagIsSetExactly` | pkg/analyzer/resource_accumulator.go:211-230 | a flag is set iff it was, or a router exposes that Service and the port by its non-empty name or its positive number; nothing else changes |
| `ManifestSpec.IngressSetsFlags` | pkg/analyzer/info_to_resource.go:163-198 | an Ingress backend with a number sets the flags of the Service's ports of that number, one with only a name those of that name |
| `Accumulator.ResourceAccumulator.ExposeServices` | pkg/analyzer/resource_accumulator.go:208-230 | flags set in place on exactly the exposed ports of every accumulated Service |
| `Accumulator.ResourceAccumulator.ParseInfo` | pkg/analyzer/resource_accumulator.go:111-161 | the accumulator holds one object more, whatever its kind; fails on nil and undecodable objects, panics on workloads that are undecodable or without a pod template and on port-less routes |
| `Accumulator.ResourceAccumulator.ParseInfos` | pkg/analyzer/resource_accumulator.go:91-109 | all objects are taken in, with one mild error per object that cannot be decoded; panics iff one of them does, nil included |
| `Accumulator.ResourceAccumulator.ParseK8sYaml` | pkg/analyzer/resource_accumulator.go:75-89 | a file's objects and errors; none of its objects when a reading error stops it |
| `Accumulator.ResourceAccumulator.ParseK8sYamls` | pkg/analyzer/resource_accumulator.go:61-73 | exactly the objects and errors of the files up to the one that stops |
| `Accumulator.ResourceAccumulator.InlineConfigMapRefsAsEnvs` | pkg/analyzer/resource_accumulator.go:163-206 | every workload in place: old addresses, then reference by reference a permutation of what its ConfigMap holds, then those of single keys; one error per dangling reference |
| `Inlining.AddressesUnderAnyOrder` | pkg/analyzer/resource_accumulator.go:177-181 | the multiset of addresses in a ConfigMap does not depend on the order of its keys |
| `Inlining.InlinedAddresses` | pkg/analyzer/resource_accumulator.go:172-204 | afterwards a workload holds exactly the addresses it is configured with: its own, those in the values of ConfigMaps it refers to, and those in the values under keys it refers to; the old ones stay in front and nothing else changes |
| `Inlining.LastDuplicateWins` | pkg/analyzer/resource_accumulator.go:166-169 | of several ConfigMaps of one full name the last is in effect |
| `Inlining.DanglingIsMild` | pkg/analyzer/error_types.go:159-165 | dangling references never stop a run |
| `InliningTheorems.DanglingIsCounted` | pkg/analyzer/resource_accumulator.go:172-204 | the number of errors is the number of places in which a reference dangles |
| `InliningTheorems.DanglingErrors` | pkg/analyzer/resource_accumulator.go:172-204 | which errors: for each reference whose ConfigMap is missing that it is, for each key missing from its ConfigMap that it is, with the workload's name |
| `InliningTheorems.InliningIsDeterminedExactly` | pkg/analyzer/resource_accumulator.go:177-181 | a workload's addresses are determined iff no ConfigMap it refers to as a whole holds two different ones |
| `Errors.StopProcessing` | pkg/analyzer/utils.go:9-17 | true iff some error is fatal, or severe when failing fast |
| `Errors.HasFatalError` | pkg/analyzer/policies_synthesizer.go:242-249 | the first fatal error, if any |
| `Errors.GoingOn` | pkg/analyzer/utils.go:9-17 | continuing after errors that do not stop keeps the stopping error last |
| `ManifestSpec.ErrorsOfFilesStop` | pkg/analyzer/resource_accumulator.go:62-73 | reading stops iff some file stops it, and the stopping error is last |
| `ManifestSpec.ErrorsOfDirsStop` | pkg/analyzer/manifest_finder.go:25-41 | scanning stops iff some directory stops it, and the stopping error is last |
| `Synthesizer.PoliciesSynthesizer.SearchForManifestsInDir` | pkg/analyzer/manifest_finder.go:43-65 | the files and errors of a walk up to the event that ends it |
| `Synthesizer.PoliciesSynthesizer.SearchForManifestsInDirs` | pkg/analyzer/manifest_finder.go:24-41 | the files and errors of all directories; no files when the scan stops |
| `Synthesizer.PoliciesSynthesizer.ExtractConnections` | pkg/analyzer/policies_synthesizer.go:223-240 | without workloads the one fatal error; otherwise inlined workloads and the connections discovered after exposure |
| `Synthesizer.PoliciesSynthesizer.ExtractConnectionsFromInfos` | pkg/analyzer/policies_synthesizer.go:186-197 | the findings and errors of a run over objects; panics iff parsing one of them does |
| `Synthesizer.PoliciesSynthesizer.ExtractConnectionsFromFolderPaths` | pkg/analyzer/policies_synthesizer.go:199-221 | the findings and errors of a run over directories, stopped at whichever phase stops it; panics iff an object that is read does |
| `Synthesizer.PoliciesSynthesizer.Conclude` | pkg/analyzer/policies_synthesizer.go:120-130 | policies only if nothing stopped; an API error iff some error is fatal; errors recorded |
| `Synthesizer.PoliciesSynthesizer.PoliciesFromInfos` | pkg/analyzer/policies_synthesizer.go:116-131 | a crash if parsing does; an error if no workload is declared; a crash if the declared objects make synthesis crash; otherwise policies that isolate the declared workloads and allow exactly what is declared; the errors recorded, and the stop protocol |
| `Synthesizer.PoliciesSynthesizer.PoliciesFromFolderPaths` | pkg/analyzer/policies_synthesizer.go:139-154 | the outcome in each way a run can end; if neither the scan nor reading stops or crashes, that of a run over the objects read, by the same relation to what they declare; the errors recorded, and the stop protocol |
| `RunMeaning.RunConcludes` | pkg/analyzer/policies_synthesizer.go:116-154 | how a run over parsed objects ends, on the declared objects alone: error, crash, or policies that isolate, allow the declared and guard the outside |
| `RunMeaning.RunIsolates` | pkg/analyzer/synth_netpols.go:90-95 | every pod in the namespace of a declared workload is isolated for ingress and for egress |
| `RunMeaning.RunAllowsTheDeclared` | README.md:25-44 | for any two declared workloads and any port, the policies allow the flow iff the objects declare it, or it is DNS |
| `RunMeaning.RunGuardsTheOutside` | pkg/analyzer/synth_netpols.go:115-124 | no declared pod may leave the cluster; from outside exactly externally exposed ports may be entered, and from undeclared pods exactly exposed ones |
| `ReadingTheorems.FilesAreFound` | pkg/analyzer/manifest_finder.go:45-65 | the files found in a directory are its YAML files up to the event that ends the walk, in the order of the walk |
| `ReadingTheorems.FilesOfDirElements` | pkg/analyzer/manifest_finder.go:45-65 | a file is found iff the walk reports it as YAML after no event that ends it |
| `ReadingTheorems.DirsAreScannedInOrder` | pkg/analyzer/manifest_finder.go:25-41 | the files of all directories, directory by directory |
| `ReadingTheorems.ObjectsAreTakenIn` | pkg/analyzer/resource_accumulator.go:62-89 | the objects are those of all files before the first that stops reading, in order; reading errors stop a fail-fast run and no other |
| `ReadingTheorems.ObjectsOfRun` | pkg/analyzer/policies_synthesizer.go:200-215 | a run that gets through takes in an object iff it stands in a YAML file of a directory, reading errors notwithstanding |
| `ReadingTheorems.WhatStopsARun` | pkg/analyzer/policies_synthesizer.go:200-215 | scan or reading stop iff a directory is inaccessible or, failing fast, a subdirectory is or a file has reading errors |
| `ReadingTheorems.WhatCrashesParsing` | pkg/analyzer/resource_accumulator.go:92-161 | parsing crashes iff there is a nil object, an undecodable workload or a Route without a port |
| `ReadingTheorems.WorkloadsInOrder` | pkg/analyzer/resource_accumulator.go:92-161 | the workloads taken in are those among the objects, each once and in their order |
| `ReadingTheorems.ServicesInOrder` | pkg/analyzer/resource_accumulator.go:92-161 | the same for Services |
| `ReadingTheorems.ConfigMapInEffect` | pkg/analyzer/resource_accumulator.go:165-169 | a full name is in effect iff a ConfigMap bears it, and then for the last one among the objects |
| `ReadingTheorems.ErrorsOfWalk` | pkg/analyzer/manifest_finder.go:48-54 | one severe error for each inaccessible entry that is reached, fatal at the root only |
| `ReadingTheorems.ErrorsOfScan` | pkg/analyzer/manifest_finder.go:25-41 | the errors of the scan: those of each walk it gets to, and that no YAML file was found so far, after a directory that did not stop it |
| `ReadingTheorems.ErrorsOfReading` | pkg/analyzer/resource_accumulator.go:62-109 | the errors of reading files, up to the one that stops a fail-fast run, and of their objects that cannot be decoded |
| `ReadingTheorems.ScanErrorsAreCounted` | pkg/analyzer/resource_accumulator.go:92-109 | one error per object that cannot be decoded |
| `ReadingTheorems.ErrorsOfInfosRun` | pkg/analyzer/policies_synthesizer.go:186-197 | the errors of a run over objects: of undecodable objects, that there is no workload, and of references that lead nowhere |
| `ReadingTheorems.ErrorsOfDirsRun` | pkg/analyzer/policies_synthesizer.go:199-221 | the errors of a run over directories: those of each phase up to the one that stops |
| `RunSpec.InfosRunProtocol` | pkg/analyzer/policies_synthesizer.go:118-131 | in a run over objects the only stopping error is the last one, and is there iff there is no workload |
| `RunSpec.DirsRunProtocol` | pkg/analyzer/policies_synthesizer.go:141-154 | in a run over directories at most one error stops, it is last, and which phase it comes from |
| `Declarations.RunCrashesExactly` | pkg/analyzer/synth_netpols.go:115-124 | a run dereferences nil during synthesis iff a nameless workload stands behind a Service that is exposed with ports, or is referred to in a way that yields ports |
| `Declarations.NamedWorkloadsNeverCrash` | pkg/analyzer/synth_netpols.go:138-141 | if all workloads have names no connection leads to a nil dereference |
| `Declarations.ReferencesAreDeclared` | pkg/analyzer/connections.go:81-102 | what an analysed workload refers to, and whether by number, is what the declared one is configured with, exposure notwithstanding |
| `Declarations.RunIsExact` | README.md:25-44 | for a whole run, a flow between two workloads' pods is allowed iff the first is configured with an address of a declared Service in front of the second and asks for that port, or it is DNS |
| `Declarations.FrontsExactly` | pkg/analyzer/connections.go:48-79 | a Service is put in front of exactly the workloads that its label map selects in a cluster iff the map is not empty |
| `Declarations.RunIsExactForSelectors` | README.md:25-44 | exactness of a run with Services given by their label maps, as a cluster understands them |
| `RunTheorems.ReferenceMeansConfigured` | pkg/analyzer/resource_accumulator.go:163-206 | a workload refers to a Service iff it is configured with an address that denotes it |
| `RunTheorems.SameConnections` | pkg/analyzer/connections.go:15-34 | reordering workloads, Services and addresses leaves connections of the same effect |
| `ManifestOrder.ManifestOrderIsIrrelevant` | pkg/analyzer/policies_synthesizer.go:186-240 | runs over the same objects in any order, with the same ConfigMaps in effect and leaders that agree on names, crash both or neither, emit the same policies up to port and deny order, and allow the same flows |
| `ManifestOrder.ManifestOrderExactly` | pkg/analyzer/connections.go:15-34 | all orders of the manifests with the same ConfigMaps in effect give alike policies iff no two connections that can come first disagree on the first workload of a name |
| `ManifestOrder.LeadersDecide` | pkg/analyzer/connections.go:20-31 | a name belongs to the first end of a connection that can come first; source-less ones follow the sourced ones of their target and Service |
| `ManifestOrder.LeaderComesFirst` | pkg/analyzer/connections.go:15-34 | each such connection does come first for some order of the manifests |
| `ConfigMapOrder.EverySelection` | pkg/analyzer/resource_accumulator.go:165-169 | every choice among ConfigMaps of one full name is in effect for some order of the manifests |
| `ConfigMapOrder.FlowsDependOnChoiceExactly` | pkg/analyzer/resource_accumulator.go:165-169 | all orders allow the same flows between declared pods iff all choices among ConfigMaps of one full name declare the same ones |
| `RunTheorems.ConfigMapOrderExactly` | pkg/analyzer/resource_accumulator.go:165-169 | all permutations of the objects put the same ConfigMaps in effect iff no two different ones share a full name |
| `RunTheorems.RunIsDeterminedExactly` | pkg/analyzer/resource_accumulator.go:163-206 | the findings of a run are determined, whatever the map order, iff no workload refers to a ConfigMap with two different addresses |
| `PortOrder.PortsAreDeterminedExactly` | pkg/analyzer/connections.go:81-102 | the ports by which a workload uses a Service are determined, in order, iff no ConfigMap it refers to as a whole names two different ports of the Service |
| `TextTheorems.FixedPortsFixTheText` | pkg/analyzer/synth_netpols.go:90-216 | if so for every workload and Service that it reaches another workload through, all runs emit the identical list of policies |
| `TextTheorems.TextIsDeterminedExactly` | pkg/analyzer/synth_netpols.go:90-216 | and only then, for named and identified workloads that name each target because of one Service only |
| `TextTheorems.InStepSameText` | pkg/analyzer/synth_netpols.go:97-136 | connections of the same effects in the same order give the same text |
| `TextTheorems.ChangeIsAbsorbed` | pkg/analyzer/synth_netpols.go:30-50 | if other connections give both of two rules already, which of them one more connection gives makes no difference to the text |

## Left out

- Synth.SortByName: Go's sort algorithm is not modelled, only that its result is sorted and a permutation.
- Synth.DeploymentConnectivity.AddIngressRule: a nil and an empty label map are one value here, so two rules that differ only in that are one rule; they mean the same.
- Accumulator.ResourceAccumulator.ParseNext: the return after a stopping error is unreachable, since scanning errors are mild, and stands as `assert false`; likewise in ExtractConnections and ExtractConnectionsFromInfos.
- TextTheorems.TextIsDeterminedExactly: where a workload names one target because of several Services, only `FixedPortsFixTheText` is stated, since deduplication may absorb a change of ports.
- Workloads and Services are values that live in one heap object per slot of the accumulator; discovery and synthesis work on snapshots, so aliasing between connections and accumulated workloads is not modelled. The Go code updates neither after discovery starts.
- URL parsing and the Unicode letter tables are parameters of the model (`AddressExtraction.Lib`).
- Decoding of manifests, the switch over workload kinds, and the collection of environment values from containers: a parsed workload carries the addresses and references found in its own manifest.
- Prometheus annotations: they only give the initial value of a port's exposure flag.
- File paths, images, service accounts, line numbers, log output and error texts: they influence neither connections nor policies.
- ConnectionsFromInfos, ConnectionsFromFolderPaths, the options, the policy list wrapper and the command line: the same extraction without synthesis, field assignments, or presentation.
- The conversion of an int DNS port to 32 bits: the DNS port is taken as a value that already fits.
- Lengths are counted in characters; the two differ from bytes only for texts that the validators refuse anyway.
- Named ports are compared as values and not resolved on pods; that a pod may always reach itself is not part of the semantics.
