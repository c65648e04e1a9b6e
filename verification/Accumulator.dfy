/** The accumulator of parsed resources, which it later updates in place. */
module Accumulator {
  import opened Model
  import opened Sequences
  import opened AddressExtraction
  import opened Errors
  import opened Exposure
  import opened Inlining
  import opened ManifestSpec

  /** A workload on the heap. */
  class ResourceRef {
    var val: Resource

    constructor (r: Resource)
      ensures val == r
    {
      val := r;
    }
  }

  /** A Service on the heap. */
  class ServiceRef {
    var val: Service

    constructor (s: Service)
      ensures val == s
    {
      val := s;
    }
  }

  function ResourcesAt(refs: seq<ResourceRef>): (rs: seq<Resource>)
    reads refs
    ensures |rs| == |refs| && forall i :: 0 <= i < |refs| ==> rs[i] == refs[i].val
  {
    seq(|refs|, i requires 0 <= i < |refs| reads refs => refs[i].val)
  }

  function ServicesAt(refs: seq<ServiceRef>): (svcs: seq<Service>)
    reads refs
    ensures |svcs| == |refs| && forall i :: 0 <= i < |refs| ==> svcs[i] == refs[i].val
  {
    seq(|refs|, i requires 0 <= i < |refs| reads refs => refs[i].val)
  }

  function ExposedServices(svcs: seq<Service>, t: ExposureTable): seq<Service> {
    seq(|svcs|, i requires 0 <= i < |svcs| => ExposedService(svcs[i], t))
  }

  lemma PrefixOfSnoc(before: seq<Info>, info: Info)
    ensures (before + [info])[..|before + [info]| - 1] == before
    ensures ExposureIn(before + [info]) == AddEntries(ExposureIn(before), EntriesOfInfo(info))
    ensures SomePanic(before + [info]) <==> SomePanic(before) || Panics(info)
  {
    hide AddEntries, EntriesOfInfo, Panics;
    var after := before + [info];
    assert after[..|after| - 1] == before;
    AddEntriesAppend(map[], EntriesIn(before), EntriesOfInfo(info));
    assert forall x :: x in after <==> x in before || x == info;
  }

  /** A Service as discovery sees it. */
  function AnalysedService(infos: seq<Info>, svc: Service): Service {
    ExposedService(svc, ExposureIn(infos))
  }

  /** The Services with the flags that the routers among the objects set. */
  function AnalysedServices(infos: seq<Info>): seq<Service> {
    ExposedServices(ServicesIn(infos), ExposureIn(infos))
  }

  lemma NoPanic()
    ensures !SomePanic([])
  {
  }

  lemma PanicsOfParts(a: seq<Info>, b: seq<Info>)
    ensures SomePanic(a + b) <==> SomePanic(a) || SomePanic(b)
  {
    hide Panics;
    assert forall x :: x in a + b <==> x in a || x in b;
  }

  /** A crash on one file is a crash on the files. */
  lemma ReadPanics(stopOn1stErr: bool, files: seq<YamlFile>, i: nat, infos: seq<Info>, errs: seq<FileProcessingError>)
    requires i < |files| && ReadUpTo(stopOn1stErr, files, i, infos, errs)
    ensures SomePanic(InfosOfFile(stopOn1stErr, files[i])) ==> SomePanic(InfosOfFiles(stopOn1stErr, files))
  {
    hide SomePanic;
    var rest := files[i..];
    assert rest[0] == files[i];
    PanicsOfParts(infos, InfosOfFiles(stopOn1stErr, rest));
    PanicsOfParts(InfosOfFile(stopOn1stErr, files[i]),
                  if StopsAt(stopOn1stErr, files[i]) then [] else InfosOfFiles(stopOn1stErr, rest[1..]));
  }

  lemma NothingScanned()
    ensures ScanErrorsIn([]) == []
  {
  }

  lemma ScanErrorsGoOn(stopOn1stErr: bool, infos: seq<Info>)
    ensures !Stops(stopOn1stErr, ScanErrorsIn(infos))
  {
    InfosElements(infos);
    MildNeverStops(stopOn1stErr, ScanErrorsIn(infos));
  }

  lemma UnexposedServiceIsKept(svc: Service, t: ExposureTable)
    ensures Lookup(t, svc.namespace, svc.name) == [] ==> ExposedService(svc, t) == svc
  {
    if Lookup(t, svc.namespace, svc.name) == [] {
      assert ExposedService(svc, t).network == svc.network;
    }
  }

  class ResourceAccumulator {
    const lib: Lib
    const stopOn1stErr: bool
    var workloads: seq<ResourceRef>
    var services: seq<ServiceRef>
    var configmaps: seq<CfgMap>
    const servicesToExpose: ServicesToExpose

    constructor (lib: Lib, failFast: bool)
      ensures Holds([]) && fresh(servicesToExpose) && workloads == [] && services == []
      ensures this.lib == lib && stopOn1stErr == failFast
    {
      this.lib, stopOn1stErr := lib, failFast;
      workloads, services, configmaps := [], [], [];
      servicesToExpose := new ServicesToExpose();
    }

    /** Every slot has its own object. */
    ghost predicate Valid()
      reads this
    {
      && (forall i, j :: 0 <= i < j < |workloads| ==> workloads[i] != workloads[j])
      && (forall i, j :: 0 <= i < j < |services| ==> services[i] != services[j])
    }

    /** The accumulator holds exactly what these objects declare. */
    ghost predicate Holds(infos: seq<Info>)
      reads this, workloads, services, servicesToExpose
    {
      && Valid()
      && ResourcesAt(workloads) == WorkloadsIn(infos)
      && ServicesAt(services) == ServicesIn(infos)
      && configmaps == ConfigMapsIn(infos)
      && servicesToExpose.table == ExposureIn(infos)
    }

    /** Takes in one object; fails if it is nil or cannot be decoded. */
    method ParseInfo(info: Info, ghost before: seq<Info>) returns (failed: bool, panicked: bool)
      requires Holds(before)
      modifies this, servicesToExpose
      ensures panicked <==> Panics(info) && !info.NilInfo?
      ensures failed <==> info.BadInfo? || info.NilInfo?
      ensures !Panics(info) ==> Holds(before + [info])
      ensures forall w :: w in workloads ==> w in old(workloads) || fresh(w)
      ensures forall s :: s in services ==> s in old(services) || fresh(s)
    {
      hide EntriesOf, AddEntries, ExposureIn;
      PrefixOfSnoc(before, info);
      NothingToAdd(ExposureIn(before));
      failed, panicked := false, false;
      match info
      case ServiceInfo(svc) =>
        var ref := new ServiceRef(svc);
        services := services + [ref];
      case RouterInfo(router) =>
        panicked := servicesToExpose.Expose(router);
      case ConfigMapInfo(cm) =>
        configmaps := configmaps + [cm];
      case WorkloadInfo(wl) =>
        var ref := new ResourceRef(wl);
        workloads := workloads + [ref];
      case BadWorkloadInfo =>
        panicked := true;
      case IrrelevantInfo =>
      case NilInfo =>
        failed := true;
      case BadInfo =>
        failed := true;
    }

    /** One turn of the loop over objects. The error report reads the source of the object, which
        panics if it is nil. Scanning errors are mild, so the check never stops the loop. */
    method ParseNext(info: Info, ghost before: seq<Info>, ghost done: seq<Info>, errs: seq<FileProcessingError>)
      returns (parseErrors: seq<FileProcessingError>, panicked: bool)
      requires Holds(before) && errs == ScanErrorsIn(done)
      modifies this, servicesToExpose
      ensures panicked <==> Panics(info)
      ensures !panicked ==> Holds(before + [info]) && parseErrors == ScanErrorsIn(done + [info])
      ensures forall w :: w in workloads ==> w in old(workloads) || fresh(w)
      ensures forall s :: s in services ==> s in old(services) || fresh(s)
    {
      assert (done + [info])[..|done + [info]| - 1] == done;
      parseErrors := errs;
      var failed;
      failed, panicked := ParseInfo(info, before);
      if failed {
        if info.NilInfo? {
          return parseErrors, true;
        }
        parseErrors := parseErrors + [FAILED_SCANNING_RESOURCE];
        var stop := StopProcessing(stopOn1stErr, parseErrors);
        ScanErrorsGoOn(stopOn1stErr, done + [info]);
        if stop {
          assert false;
        }
      }
    }

    method ParseInfos(infos: seq<Info>, ghost before: seq<Info>)
      returns (parseErrors: seq<FileProcessingError>, panicked: bool)
      requires Holds(before)
      modifies this, servicesToExpose
      ensures panicked <==> SomePanic(infos)
      ensures !panicked ==> Holds(before + infos) && parseErrors == ScanErrorsIn(infos)
      ensures forall w :: w in workloads ==> w in old(workloads) || fresh(w)
      ensures forall s :: s in services ==> s in old(services) || fresh(s)
    {
      hide WorkloadsIn, ServicesIn, ConfigMapsIn, ScanErrorsIn, ExposureIn, Panics;
      NothingScanned();
      parseErrors, panicked := [], false;
      ghost var holding, done := before, [];
      for i := 0 to |infos|
        invariant done == infos[..i] && holding == before + done
        invariant Holds(holding) && parseErrors == ScanErrorsIn(done)
        invariant !panicked && !SomePanic(done)
        invariant forall w :: w in workloads ==> w in old(workloads) || fresh(w)
        invariant forall s :: s in services ==> s in old(services) || fresh(s)
      {
        parseErrors, panicked := ParseNext(infos[i], holding, done, parseErrors);
        if panicked {
          assert infos[i] in infos;
          return;
        }
        PrefixOfSnoc(done, infos[i]);
        holding, done := holding + [infos[i]], done + [infos[i]];
      }
      assert done == infos;
    }

    // ----- YAML files -----

    method RecordReadErrors(f: YamlFile) returns (parseErrors: seq<FileProcessingError>, stop: bool)
      ensures parseErrors == ReadErrorsOf(stopOn1stErr, f) && (stop <==> StopsAt(stopOn1stErr, f))
    {
      parseErrors, stop := [], false;
      for i := 0 to f.readErrors
        invariant parseErrors == seq(i, _ => UnreadableFile(f.path))
        invariant !stop && (i > 0 ==> !stopOn1stErr)
      {
        parseErrors := parseErrors + [UnreadableFile(f.path)];
        stop := StopProcessing(stopOn1stErr, parseErrors);
        assert parseErrors[i] in parseErrors;
        if stop {
          assert parseErrors == [UnreadableFile(f.path)];
          return;
        }
      }
    }

    method ParseK8sYaml(f: YamlFile, ghost before: seq<Info>)
      returns (errs: seq<FileProcessingError>, panicked: bool)
      requires Holds(before)
      modifies this, servicesToExpose
      ensures panicked <==> SomePanic(InfosOfFile(stopOn1stErr, f))
      ensures !panicked ==> && Holds(before + InfosOfFile(stopOn1stErr, f))
                            && errs == ErrorsOfFile(stopOn1stErr, f)
      ensures forall w :: w in workloads ==> w in old(workloads) || fresh(w)
      ensures forall s :: s in services ==> s in old(services) || fresh(s)
    {
      var parseErrors, stop := RecordReadErrors(f);
      if stop {
        assert before + [] == before;
        return parseErrors, false;
      }
      var moreErrors;
      moreErrors, panicked := ParseInfos(f.infos, before);
      errs := parseErrors + moreErrors;
    }

    /** One turn of the loop over files. */
    method ParseNextFile(f: YamlFile, ghost before: seq<Info>, parseErrors: seq<FileProcessingError>)
      returns (errs: seq<FileProcessingError>, stop: bool, panicked: bool)
      requires Holds(before) && !Stops(stopOn1stErr, parseErrors)
      modifies this, servicesToExpose
      ensures panicked <==> SomePanic(InfosOfFile(stopOn1stErr, f))
      ensures !panicked ==> && Holds(before + InfosOfFile(stopOn1stErr, f))
                            && errs == parseErrors + ErrorsOfFile(stopOn1stErr, f)
                            && (stop <==> StopsAt(stopOn1stErr, f))
                            && (stop <==> Stops(stopOn1stErr, errs))
      ensures forall w :: w in workloads ==> w in old(workloads) || fresh(w)
      ensures forall s :: s in services ==> s in old(services) || fresh(s)
    {
      errs, panicked := ParseK8sYaml(f, before);
      if panicked {
        return errs, false, true;
      }
      ErrorsOfFileStop(stopOn1stErr, f);
      GoingOn(stopOn1stErr, parseErrors, errs);
      errs := parseErrors + errs;
      stop := StopProcessing(stopOn1stErr, errs);
    }

    method ParseK8sYamls(files: seq<YamlFile>) returns (parseErrors: seq<FileProcessingError>, panicked: bool)
      requires Holds([])
      modifies this, servicesToExpose
      ensures panicked <==> SomePanic(InfosOfFiles(stopOn1stErr, files))
      ensures !panicked ==> && Holds(InfosOfFiles(stopOn1stErr, files))
                            && parseErrors == ErrorsOfFiles(stopOn1stErr, files)
      ensures forall w :: w in workloads ==> w in old(workloads) || fresh(w)
      ensures forall s :: s in services ==> s in old(services) || fresh(s)
    {
      hide InfosOfFiles, InfosOfFile, ErrorsOfFiles, SomePanic;
      parseErrors, panicked := [], false;
      ghost var holding := [];
      ReadNothing(stopOn1stErr, files);
      NoPanic();
      for i := 0 to |files|
        invariant Holds(holding)
        invariant !panicked && !SomePanic(holding)
        invariant !Stops(stopOn1stErr, parseErrors)
        invariant ReadUpTo(stopOn1stErr, files, i, holding, parseErrors)
        invariant forall w :: w in workloads ==> w in old(workloads) || fresh(w)
        invariant forall s :: s in services ==> s in old(services) || fresh(s)
      {
        ReadOneMore(stopOn1stErr, files, i, holding, parseErrors);
        PanicsOfParts(holding, InfosOfFile(stopOn1stErr, files[i]));
        ReadPanics(stopOn1stErr, files, i, holding, parseErrors);
        var stop;
        parseErrors, stop, panicked := ParseNextFile(files[i], holding, parseErrors);
        if panicked {
          return;
        }
        holding := holding + InfosOfFile(stopOn1stErr, files[i]);
        if stop {
          return;
        }
      }
      ReadToTheEnd(stopOn1stErr, files, holding, parseErrors);
    }

    // ----- ConfigMap references -----

    /** Appends the address in a value, if there is one. */
    method InlineValue(res: ResourceRef, value: string)
      modifies res
      ensures res.val == WithAddrs(old(res.val), AddressesOf(lib, value))
    {
      var netAddr, ok := NetworkAddressFromStr(lib, value);
      if ok {
        res.val := res.val.(networkAddrs := res.val.networkAddrs + [netAddr]);
      } else {
        assert res.val.networkAddrs + [] == res.val.networkAddrs;
      }
    }

    /** Reads a ConfigMap's values in an arbitrary order. */
    method InlineConfigMap(res: ResourceRef, data: map<string, string>) returns (ghost found: seq<string>)
      modifies res
      ensures multiset(found) == AddressesUnder(lib, data, data.Keys)
      ensures res.val == WithAddrs(old(res.val), found)
    {
      found := [];
      var keys := data.Keys;
      ghost var read: set<string> := {};
      assert res.val.networkAddrs + [] == res.val.networkAddrs;
      while keys != {}
        invariant keys <= data.Keys && read == data.Keys - keys
        invariant multiset(found) == AddressesUnder(lib, data, read)
        invariant res.val == WithAddrs(old(res.val), found)
      {
        var k :| k in keys;
        assert read + {k} - {k} == read;
        AddressesUnderAnyOrder(lib, data, read + {k}, k);
        WithMoreAddrs(old(res.val), found, AddressesOf(lib, data[k]));
        InlineValue(res, data[k]);
        found := found + AddressesOf(lib, data[k]);
        keys, read := keys - {k}, read + {k};
      }
      assert read == data.Keys;
    }

    /** Follows one envFrom or volume reference. */
    method InlineRef(res: ResourceRef, cms: CfgMaps, ref: string)
      returns (errs: seq<FileProcessingError>, ghost found: seq<string>)
      modifies res
      ensures errs == DanglingRef(cms, old(res.val).namespace, old(res.val).name, ref)
      ensures multiset(found) == AddressesByRef(lib, cms, old(res.val).namespace, ref)
      ensures res.val == WithAddrs(old(res.val), found)
    {
      errs, found := [], [];
      var configmapFullName := res.val.namespace + "/" + ref;
      if configmapFullName in cms {
        found := InlineConfigMap(res, cms[configmapFullName].data);
      } else {
        errs := [MissingConfigMap(configmapFullName, res.val.name)];
        assert res.val.networkAddrs + [] == res.val.networkAddrs;
      }
    }

    method InlineRefs(res: ResourceRef, cms: CfgMaps)
      returns (parseErrors: seq<FileProcessingError>, ghost parts: seq<seq<string>>)
      modifies res
      ensures parseErrors == DanglingRefs(cms, old(res.val).namespace, old(res.val).name, old(res.val).configMapRefs)
      ensures Readings(lib, cms, old(res.val).namespace, old(res.val).configMapRefs, parts)
      ensures res.val == WithAddrs(old(res.val), Flatten(parts))
    {
      hide Readings, Flatten, AddressesByRef, DanglingRef;
      parseErrors, parts := [], [];
      NothingRead(lib, cms, res.val.namespace);
      var refs := res.val.configMapRefs;
      assert res.val.networkAddrs + [] == res.val.networkAddrs;
      for i := 0 to |refs|
        invariant parseErrors == DanglingRefs(cms, old(res.val).namespace, old(res.val).name, refs[..i])
        invariant Readings(lib, cms, old(res.val).namespace, refs[..i], parts)
        invariant res.val == WithAddrs(old(res.val), Flatten(parts))
      {
        assert refs[..i + 1][..i] == refs[..i];
        ghost var found;
        var errs;
        errs, found := InlineRef(res, cms, refs[i]);
        WithMoreAddrs(old(res.val), Flatten(parts), found);
        ReadOneRefMore(lib, cms, old(res.val).namespace, refs, i, parts, found);
        parseErrors, parts := parseErrors + errs, parts + [found];
      }
      assert refs[..|refs|] == refs;
    }

    /** Follows one env reference to a single key. */
    method InlineKeyRef(res: ResourceRef, cms: CfgMaps, ref: CfgMapKeyRef) returns (errs: seq<FileProcessingError>)
      modifies res
      ensures errs == DanglingKeyRef(cms, old(res.val).namespace, old(res.val).name, ref)
      ensures res.val == WithAddrs(old(res.val), AddressesByKeyRef(lib, cms, old(res.val).namespace, ref))
    {
      errs := [];
      assert res.val.networkAddrs + [] == res.val.networkAddrs;
      var configmapFullName := res.val.namespace + "/" + ref.name;
      if configmapFullName !in cms {
        errs := [MissingConfigMap(configmapFullName, res.val.name)];
        return;
      }
      if ref.key in cms[configmapFullName].data {
        InlineValue(res, cms[configmapFullName].data[ref.key]);
      } else {
        errs := [MissingConfigMapKey(ref.name, ref.key, res.val.name)];
      }
    }

    method InlineKeyRefs(res: ResourceRef, cms: CfgMaps) returns (parseErrors: seq<FileProcessingError>)
      modifies res
      ensures parseErrors == DanglingKeyRefs(cms, old(res.val).namespace, old(res.val).name,
          old(res.val).configMapKeyRefs)
      ensures res.val == WithAddrs(old(res.val),
                           AddressesByKeyRefs(lib, cms, old(res.val).namespace, old(res.val).configMapKeyRefs))
    {
      parseErrors := [];
      var refs := res.val.configMapKeyRefs;
      ghost var found := [];
      assert res.val.networkAddrs + [] == res.val.networkAddrs;
      for i := 0 to |refs|
        invariant parseErrors == DanglingKeyRefs(cms, old(res.val).namespace, old(res.val).name, refs[..i])
        invariant found == AddressesByKeyRefs(lib, cms, old(res.val).namespace, refs[..i])
        invariant res.val == WithAddrs(old(res.val), found)
      {
        assert refs[..i + 1][..i] == refs[..i];
        ghost var more := AddressesByKeyRef(lib, cms, old(res.val).namespace, refs[i]);
        WithMoreAddrs(old(res.val), found, more);
        var errs := InlineKeyRef(res, cms, refs[i]);
        parseErrors, found := parseErrors + errs, found + more;
      }
      assert refs[..|refs|] == refs;
    }

    method InlineWorkload(res: ResourceRef, cms: CfgMaps) returns (parseErrors: seq<FileProcessingError>)
      modifies res
      ensures parseErrors == Dangling(cms, old(res.val))
      ensures Inlined(lib, cms, old(res.val), res.val)
    {
      ghost var parts;
      ghost var before := res.val;
      parseErrors, parts := InlineRefs(res, cms);
      var more := InlineKeyRefs(res, cms);
      parseErrors := parseErrors + more;
      WithMoreAddrs(before, Flatten(parts), AddressesByKeyRefs(lib, cms, before.namespace, before.configMapKeyRefs));
      assert InlinedWith(lib, cms, before, res.val, parts);
    }

    /** The lookup table by full name; a later duplicate replaces an earlier one. */
    method CfgMapsByName() returns (cfgMapsByName: CfgMaps)
      ensures cfgMapsByName == ByName(configmaps)
    {
      cfgMapsByName := map[];
      for i := 0 to |configmaps|
        invariant cfgMapsByName == ByName(configmaps[..i])
      {
        assert configmaps[..i + 1][..i] == configmaps[..i];
        cfgMapsByName := cfgMapsByName[configmaps[i].fullName := configmaps[i]];
      }
      assert configmaps[..|configmaps|] == configmaps;
    }

    method InlineWorkloads(refs: seq<ResourceRef>, cms: CfgMaps, ghost before: seq<Resource>)
      returns (parseErrors: seq<FileProcessingError>, ghost after: seq<Resource>)
      requires forall i, j :: 0 <= i < j < |refs| ==> refs[i] != refs[j]
      requires |before| == |refs| && forall i :: 0 <= i < |refs| ==> refs[i].val == before[i]
      modifies refs
      ensures |after| == |refs| && forall i :: 0 <= i < |refs| ==> refs[i].val == after[i]
      ensures InlinedAll(lib, cms, before, after)
      ensures parseErrors == AllDangling(cms, before)
    {
      hide InlinedAll, Inlined, AllDangling;
      NoneInlined(lib, cms);
      parseErrors, after := [], [];
      ghost var done := [];
      for i := 0 to |refs|
        invariant done == before[..i] && |after| == i
        invariant parseErrors == AllDangling(cms, done)
        invariant InlinedAll(lib, cms, done, after)
        invariant forall j :: 0 <= j < i ==> refs[j].val == after[j]
        invariant forall j :: i <= j < |refs| ==> refs[j].val == before[j]
      {
        var errs := InlineWorkload(refs[i], cms);
        InlinedOneMore(lib, cms, done, after, before[i], refs[i].val);
        parseErrors, after, done := parseErrors + errs, after + [refs[i].val], done + [before[i]];
      }
      assert done == before;
    }

    method InlineConfigMapRefsAsEnvs() returns (parseErrors: seq<FileProcessingError>)
      requires Valid()
      modifies workloads
      ensures InlinedAll(lib, ByName(configmaps), old(ResourcesAt(workloads)), ResourcesAt(workloads))
      ensures parseErrors == AllDangling(ByName(configmaps), old(ResourcesAt(workloads)))
    {
      var cfgMapsByName := CfgMapsByName();
      ghost var after;
      parseErrors, after := InlineWorkloads(workloads, cfgMapsByName, ResourcesAt(workloads));
      assert ResourcesAt(workloads) == after;
    }

    // ----- exposure -----

    /** Sets the flags of one Service's ports in place. */
    method ExposePorts(svc: ServiceRef, portsToExpose: seq<IntOrString>)
      modifies svc
      ensures svc.val == old(svc.val).(network := svc.val.network)
      ensures |svc.val.network| == |old(svc.val).network|
      ensures forall i :: 0 <= i < |svc.val.network| ==>
                svc.val.network[i] == FlagPort(old(svc.val).network[i], portsToExpose)
    {
      for i := 0 to |svc.val.network|
        invariant svc.val == old(svc.val).(network := svc.val.network)
        invariant |svc.val.network| == |old(svc.val).network|
        invariant forall j :: 0 <= j < i ==> svc.val.network[j] == FlagPort(old(svc.val).network[j], portsToExpose)
        invariant forall j :: i <= j < |svc.val.network| ==> svc.val.network[j] == old(svc.val).network[j]
      {
        var port := svc.val.network[i];
        for k := 0 to |portsToExpose|
          invariant port == FlagPort(old(svc.val).network[i], portsToExpose[..k])
        {
          assert forall q :: q in portsToExpose[..k + 1] <==> q in portsToExpose[..k] || q == portsToExpose[k];
          if port.Equals(portsToExpose[k]) {
            port := port.(exposeToCluster := true);
          }
        }
        assert portsToExpose[..|portsToExpose|] == portsToExpose;
        svc.val := svc.val.(network := svc.val.network[i := port]);
      }
    }

    method ExposeServices()
      requires Valid()
      modifies services
      ensures ServicesAt(services) == ExposedServices(old(ServicesAt(services)), servicesToExpose.table)
    {
      ghost var before := old(ServicesAt(services));
      var table := servicesToExpose.table;
      for i := 0 to |services|
        invariant servicesToExpose.table == table
        invariant forall j :: 0 <= j < i ==> services[j].val == ExposedService(before[j], table)
        invariant forall j :: i <= j < |services| ==> services[j].val == before[j]
      {
        var svc := services[i];
        UnexposedServiceIsKept(svc.val, table);
        if svc.val.namespace !in table {
          continue;
        }
        var exposedServicesInNamespace := table[svc.val.namespace];
        if svc.val.name !in exposedServicesInNamespace {
          continue;
        }
        ExposePorts(svc, exposedServicesInNamespace[svc.val.name]);
        assert svc.val.network == ExposedService(before[i], table).network;
      }
    }

  }
}
