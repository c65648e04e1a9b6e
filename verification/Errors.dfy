/** Processing errors, and the predicate that decides when processing stops. */
module Errors {
  import opened Model

  datatype ErrorKind =
    | NoYamlsFound
    | NoK8sResourcesFound
    | ConfigMapNotFound(cfgMapName: string, resourceName: string)
    | ConfigMapKeyNotFound(cfgMapName: string, cfgMapKey: string, resourceName: string)
    | FailedScanningResource
    | FailedReadingFile(path: string)
    | FailedAccessingDir(path: string)

  datatype FileProcessingError = FileProcessingError(kind: ErrorKind, fatal: bool, severe: bool)

  const NO_YAMLS_FOUND := FileProcessingError(NoYamlsFound, false, false)
  const NO_K8S_RESOURCES_FOUND := FileProcessingError(NoK8sResourcesFound, true, true)
  const FAILED_SCANNING_RESOURCE := FileProcessingError(FailedScanningResource, false, false)

  function MissingConfigMap(cfgMapName: string, resourceName: string): FileProcessingError {
    FileProcessingError(ConfigMapNotFound(cfgMapName, resourceName), false, false)
  }

  function MissingConfigMapKey(cfgMapName: string, cfgMapKey: string, resourceName: string): FileProcessingError {
    FileProcessingError(ConfigMapKeyNotFound(cfgMapName, cfgMapKey, resourceName), false, false)
  }

  function UnreadableFile(path: string): FileProcessingError {
    FileProcessingError(FailedReadingFile(path), false, true)
  }

  function UnreadableDir(path: string, isSubDir: bool): FileProcessingError {
    FileProcessingError(FailedAccessingDir(path), !isSubDir, true)
  }

  /** The error keeps processing from going on. */
  predicate Stopping(stopOn1stErr: bool, e: FileProcessingError) {
    e.fatal || (stopOn1stErr && e.severe)
  }

  predicate Stops(stopOn1stErr: bool, errs: seq<FileProcessingError>) {
    exists e :: e in errs && Stopping(stopOn1stErr, e)
  }

  method StopProcessing(stopOn1stErr: bool, errs: seq<FileProcessingError>) returns (stop: bool)
    ensures stop <==> Stops(stopOn1stErr, errs)
    ensures stop <==> exists e :: e in errs && (e.fatal || (stopOn1stErr && e.severe))
  {
    for idx := 0 to |errs|
      invariant forall j :: 0 <= j < idx ==> !Stopping(stopOn1stErr, errs[j])
    {
      if errs[idx].fatal || (stopOn1stErr && errs[idx].severe) {
        assert Stopping(stopOn1stErr, errs[idx]) && errs[idx] in errs;
        return true;
      }
    }
    return false;
  }

  function FatalIn(errs: seq<FileProcessingError>): Option<FileProcessingError> {
    if errs == [] then None
    else if errs[0].fatal then Some(errs[0])
    else FatalIn(errs[1..])
  }

  lemma {:induction false} FatalInSkips(errs: seq<FileProcessingError>, k: nat)
    requires k <= |errs| && forall j :: 0 <= j < k ==> !errs[j].fatal
    ensures FatalIn(errs) == FatalIn(errs[k..])
  {
    if k > 0 {
      FatalInSkips(errs[1..], k - 1);
      assert errs[1..][k - 1..] == errs[k..];
    }
  }

  method HasFatalError(errs: seq<FileProcessingError>) returns (err: Option<FileProcessingError>)
    ensures err == FatalIn(errs)
    ensures if err.None? then forall e :: e in errs ==> !e.fatal
            else exists i :: && 0 <= i < |errs| && errs[i] == err.value && errs[i].fatal
                             && forall j :: 0 <= j < i ==> !errs[j].fatal
  {
    for idx := 0 to |errs|
      invariant forall j :: 0 <= j < idx ==> !errs[j].fatal
    {
      FatalInSkips(errs, idx);
      if errs[idx].fatal {
        return Some(errs[idx]);
      }
    }
    FatalInSkips(errs, |errs|);
    return None;
  }

  // ----- the stop protocol -----

  /** Nothing follows an error that stops processing. */
  predicate StopsAtLast(stopOn1stErr: bool, errs: seq<FileProcessingError>) {
    forall i :: 0 <= i < |errs| - 1 ==> !Stopping(stopOn1stErr, errs[i])
  }

  predicate Mild(errs: seq<FileProcessingError>) {
    forall e :: e in errs ==> !e.fatal && !e.severe
  }

  lemma MildNeverStops(stopOn1stErr: bool, errs: seq<FileProcessingError>)
    requires Mild(errs)
    ensures !Stops(stopOn1stErr, errs) && StopsAtLast(stopOn1stErr, errs)
  {
  }

  /** Going on after errors that do not stop keeps the protocol. */
  lemma GoingOn(stopOn1stErr: bool, before: seq<FileProcessingError>, after: seq<FileProcessingError>)
    requires !Stops(stopOn1stErr, before) && StopsAtLast(stopOn1stErr, after)
    ensures StopsAtLast(stopOn1stErr, before + after)
    ensures Stops(stopOn1stErr, before + after) <==> Stops(stopOn1stErr, after)
  {
    forall i | 0 <= i < |before + after| - 1 ensures !Stopping(stopOn1stErr, (before + after)[i]) {
      if i < |before| {
        assert before[i] in before;
      }
    }
  }
}
