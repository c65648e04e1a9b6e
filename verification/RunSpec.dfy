/** What whole runs over objects or directories find out and report, and their error protocol. */
module RunSpec {
  import opened Model
  import opened AddressExtraction
  import opened Errors
  import opened Inlining
  import opened ManifestSpec
  import opened Accumulator
  import DiscoverySpec

  /** What a call returns. `Crash` is a nil dereference: by an object that cannot be parsed, or
      by a connection with ports to a nameless target. */
  datatype Outcome<T> = Returned(value: T) | ApiError(error: FileProcessingError) | Crash

  /** What a run has found out before it turns to synthesis. */
  datatype Findings = Findings(resources: seq<Resource>, connections: seq<Connection>)

  /** The findings that a list of accepted objects can lead to; the order in which
      ConfigMap values are read is left open. */
  ghost predicate FindingsOf(lib: Lib, infos: seq<Info>, f: Findings) {
    && InlinedAll(lib, ByName(ConfigMapsIn(infos)), WorkloadsIn(infos), f.resources)
    && f.connections == DiscoverySpec.Discover(f.resources, AnalysedServices(infos))
  }

  /** The errors reported after all objects are taken in. */
  function LateErrors(infos: seq<Info>): seq<FileProcessingError> {
    if WorkloadsIn(infos) == [] then [NO_K8S_RESOURCES_FOUND]
    else AllDangling(ByName(ConfigMapsIn(infos)), WorkloadsIn(infos))
  }

  function ErrorsFromInfos(infos: seq<Info>): seq<FileProcessingError> {
    ScanErrorsIn(infos) + LateErrors(infos)
  }

  /** The objects that a run over directories takes in, if it gets that far. */
  function InfosFromDirs(stop: bool, dirs: seq<seq<WalkEvent>>): seq<Info> {
    InfosOfFiles(stop, FilesOfDirs(stop, dirs))
  }

  function EarlyErrorsFromDirs(stop: bool, dirs: seq<seq<WalkEvent>>): seq<FileProcessingError> {
    var fileErrors := ErrorsOfDirs(stop, dirs, []);
    if Stops(stop, fileErrors) then fileErrors else fileErrors + ErrorsOfFiles(stop, FilesOfDirs(stop, dirs))
  }

  function ErrorsFromDirs(stop: bool, dirs: seq<seq<WalkEvent>>): seq<FileProcessingError> {
    var early := EarlyErrorsFromDirs(stop, dirs);
    if Stops(stop, early) then early else early + LateErrors(InfosFromDirs(stop, dirs))
  }

  /** The scan goes through, and an object that is then read crashes the parser. */
  predicate PanicsInDirs(stop: bool, dirs: seq<seq<WalkEvent>>) {
    !Stops(stop, ErrorsOfDirs(stop, dirs, [])) && SomePanic(InfosFromDirs(stop, dirs))
  }

  // ----- the stop protocol over whole runs -----

  lemma LateErrorsGoOn(stop: bool, infos: seq<Info>)
    ensures Stops(stop, LateErrors(infos)) <==> WorkloadsIn(infos) == []
    ensures StopsAtLast(stop, LateErrors(infos))
  {
    if WorkloadsIn(infos) == [] {
      assert LateErrors(infos)[0] == NO_K8S_RESOURCES_FOUND;
      assert LateErrors(infos)[0] in LateErrors(infos);
    } else {
      DanglingIsMild(ByName(ConfigMapsIn(infos)), WorkloadsIn(infos));
      MildNeverStops(stop, LateErrors(infos));
    }
  }

  lemma FatalInConcat(a: seq<FileProcessingError>, b: seq<FileProcessingError>)
    requires FatalIn(a).None?
    ensures FatalIn(a + b) == FatalIn(b)
  {
    NoFatal(a);
    FatalInSkips(a + b, |a|);
    assert (a + b)[|a|..] == b;
  }

  lemma {:induction false} NoFatal(errs: seq<FileProcessingError>)
    ensures FatalIn(errs).None? <==> forall j :: 0 <= j < |errs| ==> !errs[j].fatal
  {
    if errs != [] {
      NoFatal(errs[1..]);
      assert forall j :: 1 <= j < |errs| ==> errs[j] == errs[1..][j - 1];
    }
  }

  lemma FatalIsFound(errs: seq<FileProcessingError>)
    ensures FatalIn(errs).Some? <==> exists e :: e in errs && e.fatal
  {
    NoFatal(errs);
  }

  lemma NotStoppingIsNotFatal(stop: bool, errs: seq<FileProcessingError>)
    requires !Stops(stop, errs)
    ensures FatalIn(errs).None?
  {
    NoFatal(errs);
    assert forall j :: 0 <= j < |errs| ==> errs[j] in errs;
  }

  /** A run over objects: at most one stopping error, at the end, and it is there exactly
      when no workload was found. */
  lemma {:induction false} InfosRunProtocol(stop: bool, infos: seq<Info>)
    ensures var errs := ErrorsFromInfos(infos);
            && StopsAtLast(stop, errs)
            && (Stops(stop, errs) <==> WorkloadsIn(infos) == [])
            && FatalIn(errs) == (if WorkloadsIn(infos) == [] then Some(NO_K8S_RESOURCES_FOUND) else None)
  {
    hide WorkloadsIn, AllDangling;
    InfosElements(infos);
    MildNeverStops(stop, ScanErrorsIn(infos));
    NotStoppingIsNotFatal(stop, ScanErrorsIn(infos));
    LateErrorsGoOn(stop, infos);
    GoingOn(stop, ScanErrorsIn(infos), LateErrors(infos));
    FatalInConcat(ScanErrorsIn(infos), LateErrors(infos));
    if WorkloadsIn(infos) != [] {
      NotStoppingIsNotFatal(stop, LateErrors(infos));
    }
  }

  /** A run over directories: at most one stopping error, at the end; it comes from the
      scan, from reading, or from finding no workload. */
  lemma {:induction false} DirsRunProtocol(stop: bool, dirs: seq<seq<WalkEvent>>)
    ensures var errs, early, infos :=
              ErrorsFromDirs(stop, dirs), EarlyErrorsFromDirs(stop, dirs), InfosFromDirs(stop, dirs);
            && StopsAtLast(stop, errs)
            && (Stops(stop, errs) <==> Stops(stop, early) || WorkloadsIn(infos) == [])
            && FatalIn(errs) == (if Stops(stop, early) then FatalIn(early)
                                 else if WorkloadsIn(infos) == [] then Some(NO_K8S_RESOURCES_FOUND) else None)
  {
    hide WorkloadsIn, AllDangling, ErrorsOfDirs, FilesOfDirs, ErrorsOfFiles, InfosOfFiles;
    var early, infos := EarlyErrorsFromDirs(stop, dirs), InfosFromDirs(stop, dirs);
    var fileErrors := ErrorsOfDirs(stop, dirs, []);
    ErrorsOfDirsStop(stop, dirs, []);
    if !Stops(stop, fileErrors) {
      ErrorsOfFilesStop(stop, FilesOfDirs(stop, dirs));
      GoingOn(stop, fileErrors, ErrorsOfFiles(stop, FilesOfDirs(stop, dirs)));
      if !Stops(stop, early) {
        LateErrorsGoOn(stop, infos);
        GoingOn(stop, early, LateErrors(infos));
        NotStoppingIsNotFatal(stop, early);
        FatalInConcat(early, LateErrors(infos));
        if WorkloadsIn(infos) != [] {
          NotStoppingIsNotFatal(stop, LateErrors(infos));
        }
      }
    }
  }
}
