/** The public API: whole runs over objects or directories. */
module Synthesizer {
  import opened Model
  import opened Netpol
  import opened AddressExtraction
  import opened Errors
  import opened Inlining
  import opened ManifestSpec
  import opened Accumulator
  import opened RunSpec
  import opened RunMeaning
  import SynthSpec
  import Synth
  import Connections

  class PoliciesSynthesizer {
    const lib: Lib
    const stopOnError: bool
    const dnsPort: IntOrString
    var errors: seq<FileProcessingError>

    constructor (lib: Lib, stopOnError: bool, dnsPort: IntOrString)
      ensures this.lib == lib && this.stopOnError == stopOnError && this.dnsPort == dnsPort && errors == []
    {
      this.lib, this.stopOnError, this.dnsPort, errors := lib, stopOnError, dnsPort, [];
    }

    // ----- scanning directories -----

    method SearchForManifestsInDir(events: seq<WalkEvent>)
      returns (yamls: seq<YamlFile>, errs: seq<FileProcessingError>)
      ensures yamls == FilesOfDir(stopOnError, events) && errs == ErrorsOfDir(stopOnError, events)
    {
      hide FilesOfDir, ErrorsOfDir, WalkedUpTo;
      WalkBegins(stopOnError, events);
      yamls, errs := [], [];
      for i := 0 to |events|
        invariant WalkedUpTo(stopOnError, events, i, yamls, errs)
        invariant !Stops(stopOnError, errs)
      {
        WalkStep(stopOnError, events, i, yamls, errs);
        assert yamls + [] == yamls && errs + [] == errs;
        match events[i]
        case Inaccessible(path, isSubDir) =>
          GoingOn(stopOnError, errs, [UnreadableDir(path, isSubDir)]);
          assert [UnreadableDir(path, isSubDir)][0] in [UnreadableDir(path, isSubDir)];
          errs := errs + [UnreadableDir(path, isSubDir)];
          var stop := StopProcessing(stopOnError, errs);
          if stop {
            return;
          }
        case Yaml(file) =>
          yamls := yamls + [file];
        case OtherEntry =>
      }
      WalkEnds(stopOnError, events, yamls, errs);
    }

    /** No files are returned when the scan stops. */
    method SearchForManifestsInDirs(dirs: seq<seq<WalkEvent>>)
      returns (manifestFiles: seq<YamlFile>, fileErrors: seq<FileProcessingError>)
      ensures fileErrors == ErrorsOfDirs(stopOnError, dirs, [])
      ensures manifestFiles == if Stops(stopOnError, fileErrors) then [] else FilesOfDirs(stopOnError, dirs)
    {
      hide FilesOfDir, ErrorsOfDir, ErrorsOfDirs, FilesOfDirs, ScannedUpTo;
      ScanBegins(stopOnError, dirs);
      manifestFiles, fileErrors := [], [];
      for i := 0 to |dirs|
        invariant ScannedUpTo(stopOnError, dirs, i, manifestFiles, fileErrors)
        invariant !Stops(stopOnError, fileErrors)
      {
        ScanStep(stopOnError, dirs, i, manifestFiles, fileErrors);
        ErrorsOfDirStop(stopOnError, dirs[i]);
        var manifests, errs := SearchForManifestsInDir(dirs[i]);
        GoingOn(stopOnError, fileErrors, errs);
        manifestFiles, fileErrors := manifestFiles + manifests, fileErrors + errs;
        var stop := StopProcessing(stopOnError, errs);
        if stop {
          return [], fileErrors;
        }
        GoingOn(stopOnError, fileErrors, NoYamls(manifestFiles));
        assert fileErrors + [] == fileErrors;
        if |manifestFiles| == 0 {
          fileErrors := fileErrors + [NO_YAMLS_FOUND];
        }
      }
      ScanEnds(stopOnError, dirs, manifestFiles, fileErrors);
    }

    // ----- extraction -----

    method ExtractConnections(resAcc: ResourceAccumulator, ghost infos: seq<Info>)
      returns (wls: seq<Resource>, conns: seq<Connection>, fileErrors: seq<FileProcessingError>)
      requires resAcc.Holds(infos) && resAcc.lib == lib
      modifies resAcc.workloads, resAcc.services
      ensures fileErrors == LateErrors(infos)
      ensures WorkloadsIn(infos) == [] ==> wls == [] && conns == []
      ensures WorkloadsIn(infos) != [] ==> FindingsOf(lib, infos, Findings(wls, conns))
    {
      hide WorkloadsIn, ServicesIn, ConfigMapsIn, InlinedAll, AllDangling, ExposureIn, ByName, SomePanic;
      if |resAcc.workloads| == 0 {
        return [], [], [NO_K8S_RESOURCES_FOUND];
      }
      fileErrors := resAcc.InlineConfigMapRefsAsEnvs();
      var stop := StopProcessing(stopOnError, fileErrors);
      LateErrorsGoOn(stopOnError, infos);
      if stop {
        assert false;
      }
      wls := ResourcesAt(resAcc.workloads);
      resAcc.ExposeServices();
      conns := Connections.DiscoverConnections(wls, ServicesAt(resAcc.services));
    }

    method ExtractConnectionsFromInfos(infos: seq<Info>)
      returns (wls: seq<Resource>, conns: seq<Connection>, errs: seq<FileProcessingError>, panicked: bool)
      ensures panicked <==> SomePanic(infos)
      ensures !panicked ==> errs == ErrorsFromInfos(infos)
      ensures !panicked && WorkloadsIn(infos) == [] ==> wls == [] && conns == []
      ensures !panicked && WorkloadsIn(infos) != [] ==> FindingsOf(lib, infos, Findings(wls, conns))
    {
      hide WorkloadsIn, ServicesIn, ConfigMapsIn, InlinedAll, AllDangling, ExposureIn, ByName, SomePanic;
      var resAcc := new ResourceAccumulator(lib, stopOnError);
      var parseErrors;
      parseErrors, panicked := resAcc.ParseInfos(infos, []);
      if panicked {
        return [], [], [], true;
      }
      assert [] + infos == infos;
      var stop := StopProcessing(stopOnError, parseErrors);
      ScanErrorsGoOn(stopOnError, infos);
      if stop {
        assert false;
      }
      forall i | 0 <= i < |resAcc.workloads| ensures fresh(resAcc.workloads[i]) {
        assert resAcc.workloads[i] in resAcc.workloads;
      }
      forall i | 0 <= i < |resAcc.services| ensures fresh(resAcc.services[i]) {
        assert resAcc.services[i] in resAcc.services;
      }
      wls, conns, errs := ExtractConnections(resAcc, infos);
      errs := parseErrors + errs;
    }

    /** What a run over directories knows, depending on whether reading was stopped. */
    method ExtractConnectionsFromFolderPaths(dirs: seq<seq<WalkEvent>>)
      returns (wls: seq<Resource>, conns: seq<Connection>, fileErrors: seq<FileProcessingError>, panicked: bool)
      ensures panicked <==> PanicsInDirs(stopOnError, dirs)
      ensures !panicked ==> fileErrors == ErrorsFromDirs(stopOnError, dirs)
      ensures var infos := InfosFromDirs(stopOnError, dirs);
              !panicked ==>
                if Stops(stopOnError, EarlyErrorsFromDirs(stopOnError, dirs)) || WorkloadsIn(infos) == []
                then wls == [] && conns == []
                else FindingsOf(lib, infos, Findings(wls, conns))
    {
      hide WorkloadsIn, ServicesIn, ConfigMapsIn, InlinedAll, AllDangling, ExposureIn, ByName, SomePanic;
      hide ErrorsOfDirs, FilesOfDirs, ErrorsOfFiles, InfosOfFiles;
      panicked := false;
      var manifestFiles;
      manifestFiles, fileErrors := SearchForManifestsInDirs(dirs);
      var stop := StopProcessing(stopOnError, fileErrors);
      if stop {
        return [], [], fileErrors, false;
      }
      var resAcc := new ResourceAccumulator(lib, stopOnError);
      var parseErrors;
      parseErrors, panicked := resAcc.ParseK8sYamls(manifestFiles);
      if panicked {
        return [], [], [], true;
      }
      fileErrors := fileErrors + parseErrors;
      stop := StopProcessing(stopOnError, fileErrors);
      if stop {
        return [], [], fileErrors, false;
      }
      var errs;
      forall i | 0 <= i < |resAcc.workloads| ensures fresh(resAcc.workloads[i]) {
        assert resAcc.workloads[i] in resAcc.workloads;
      }
      forall i | 0 <= i < |resAcc.services| ensures fresh(resAcc.services[i]) {
        assert resAcc.services[i] in resAcc.services;
      }
      wls, conns, errs := ExtractConnections(resAcc, InfosFromDirs(stopOnError, dirs));
      fileErrors := fileErrors + errs;
    }

    // ----- policies -----

    /** Records the errors of a run and decides what it returns. */
    method Conclude(wls: seq<Resource>, conns: seq<Connection>, errs: seq<FileProcessingError>)
      returns (out: Outcome<seq<Policy>>)
      modifies this
      ensures !Stops(stopOnError, errs) ==>
                if SynthSpec.NamedTargets(conns) then out == Returned(SynthSpec.Synth(wls, conns, dnsPort))
                else out == Crash
      ensures Stops(stopOnError, errs) ==>
                out == if FatalIn(errs).Some? then ApiError(FatalIn(errs).value) else Returned([])
      ensures errors == if out.Crash? then old(errors) else errs
    {
      NoFatal(errs);
      var policies := [];
      var stop := StopProcessing(stopOnError, errs);
      if !stop {
        var panicked;
        policies, panicked := Synth.SynthNetpols(wls, conns, dnsPort);
        if panicked {
          return Crash;
        }
      }
      errors := errs;
      var err := HasFatalError(errs);
      if err.Some? {
        return ApiError(err.value);
      }
      return Returned(policies);
    }

    /** At most one recorded error stops processing, and it is the last; the call fails exactly
        when an error is fatal; and there are policies only if nothing stopped the run. */
    ghost predicate FollowsProtocol(out: Outcome<seq<Policy>>)
      reads this
    {
      && StopsAtLast(stopOnError, errors)
      && (out.ApiError? <==> exists e :: e in errors && e.fatal)
      && (out.Returned? && out.value != [] ==> !Stops(stopOnError, errors))
    }

    method PoliciesFromInfos(infos: seq<Info>) returns (out: Outcome<seq<Policy>>)
      modifies this
      ensures if SomePanic(infos) then out == Crash else Concludes(lib, infos, dnsPort, out)
      ensures errors == if out.Crash? then old(errors) else ErrorsFromInfos(infos)
      ensures !out.Crash? ==> FollowsProtocol(out)
    {
      hide FindingsOf, ErrorsFromInfos, ErrorsFromDirs, EarlyErrorsFromDirs, InfosFromDirs, WorkloadsIn, Concludes;
      hide Stops, StopsAtLast, FatalIn, SomePanic, SynthSpec.NamedTargets, SynthSpec.Synth;
      var resources, connections, errs, panicked := ExtractConnectionsFromInfos(infos);
      if panicked {
        return Crash;
      }
      InfosRunProtocol(stopOnError, infos);
      FatalIsFound(errs);
      out := Conclude(resources, connections, errs);
      RunConcludes(lib, infos, Findings(resources, connections), dnsPort, out);
    }

    /** Unless the scan, or reading, is stopped or crashes, a run over directories ends like one
        over the objects that were read. */
    method PoliciesFromFolderPaths(dirs: seq<seq<WalkEvent>>) returns (out: Outcome<seq<Policy>>)
      modifies this
      ensures var early := EarlyErrorsFromDirs(stopOnError, dirs);
              if PanicsInDirs(stopOnError, dirs) then out == Crash
              else if Stops(stopOnError, early)
              then out == if FatalIn(early).Some? then ApiError(FatalIn(early).value) else Returned([])
              else Concludes(lib, InfosFromDirs(stopOnError, dirs), dnsPort, out)
      ensures errors == if out.Crash? then old(errors) else ErrorsFromDirs(stopOnError, dirs)
      ensures !out.Crash? ==> FollowsProtocol(out)
    {
      hide FindingsOf, ErrorsFromInfos, ErrorsFromDirs, EarlyErrorsFromDirs, InfosFromDirs, WorkloadsIn, Concludes;
      hide Stops, StopsAtLast, FatalIn, PanicsInDirs, SynthSpec.NamedTargets, SynthSpec.Synth;
      var resources, connections, errs, panicked := ExtractConnectionsFromFolderPaths(dirs);
      if panicked {
        return Crash;
      }
      DirsRunProtocol(stopOnError, dirs);
      FatalIsFound(errs);
      out := Conclude(resources, connections, errs);
      if !Stops(stopOnError, EarlyErrorsFromDirs(stopOnError, dirs)) {
        RunConcludes(lib, InfosFromDirs(stopOnError, dirs), Findings(resources, connections), dnsPort, out);
      }
    }
  }
}
