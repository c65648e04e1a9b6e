/** Which files and objects a run over directories reads, and which errors it records. */
module ReadingTheorems {
  import opened Model
  import opened Sequences
  import opened Errors
  import opened Exposure
  import opened Inlining
  import opened InliningTheorems
  import opened ManifestSpec
  import opened RunSpec

  // ----- files -----

  /** The walk gets as far as event `i`: nothing before it was inaccessible, but for subdirectories
      in a run that does not stop at errors. */
  ghost predicate Reaches(stop: bool, events: seq<WalkEvent>, i: nat)
    requires i < |events|
  {
    forall j :: 0 <= j < i ==> !(events[j].Inaccessible? && (stop || !events[j].isSubDir))
  }

  lemma {:induction false} ReachesOneMore(stop: bool, events: seq<WalkEvent>, i: nat)
    requires i < |events| && i > 0
    ensures Reaches(stop, events, i)
            <==> !(events[0].Inaccessible? && (stop || !events[0].isSubDir)) && Reaches(stop, events[1..], i - 1)
  {
    if Reaches(stop, events[1..], i - 1) && !(events[0].Inaccessible? && (stop || !events[0].isSubDir)) {
      forall j | 0 <= j < i ensures !(events[j].Inaccessible? && (stop || !events[j].isSubDir)) {
        assert j > 0 ==> events[1..][j - 1] == events[j];
      }
    }
  }

  /** The files found in a directory are those that the walk reaches, in the order of the walk. */
  lemma {:induction false} FilesAreFound(stop: bool, events: seq<WalkEvent>) returns (idx: seq<nat>)
    ensures Places(idx, |events|) && |idx| == |FilesOfDir(stop, events)|
    ensures forall k :: 0 <= k < |idx| ==> events[idx[k]] == Yaml(FilesOfDir(stop, events)[k])
    ensures forall i :: 0 <= i < |events| ==> (i in idx <==> events[i].Yaml? && Reaches(stop, events, i))
  {
    hide Reaches;
    idx := [];
    if events != [] {
      var later := [];
      if !EndsWalk(stop, events[0]) {
        later := FilesAreFound(stop, events[1..]);
      }
      idx := FoundOneMore(stop, events, later);
      FilesOneMore(events, later, idx, if EndsWalk(stop, events[0]) then [] else FilesOfDir(stop, events[1..]));
    }
  }

  lemma {:induction false} FilesOneMore(events: seq<WalkEvent>, later: seq<nat>, idx: seq<nat>, files: seq<YamlFile>)
    requires events != [] && |later| == |files| && Places(later, |events| - 1) && Places(idx, |events|)
    requires forall k :: 0 <= k < |later| ==> events[1..][later[k]] == Yaml(files[k])
    requires idx == (if events[0].Yaml? then [0] else []) + Moved(later)
    ensures |idx| == |FileOfEvent(events[0]) + files|
    ensures forall k :: 0 <= k < |idx| ==> events[idx[k]] == Yaml((FileOfEvent(events[0]) + files)[k])
  {
    assert forall k :: 0 <= k < |later| ==> events[later[k] + 1] == events[1..][later[k]];
  }

  function Moved(later: seq<nat>): seq<nat> {
    seq(|later|, k requires 0 <= k < |later| => later[k] + 1)
  }

  lemma MovedPlaces(later: seq<nat>, n: nat)
    requires Places(later, n)
    ensures Places(Moved(later), n + 1)
    ensures forall i: nat :: i in Moved(later) <==> i > 0 && i - 1 in later
  {
    forall i: nat | i > 0 && i - 1 in later ensures i in Moved(later) {
      var k :| 0 <= k < |later| && later[k] == i - 1;
      assert Moved(later)[k] == i;
    }
  }

  lemma {:induction false} FoundOneMore(stop: bool, events: seq<WalkEvent>, later: seq<nat>) returns (idx: seq<nat>)
    requires events != [] && Places(later, |events| - 1)
    requires if EndsWalk(stop, events[0]) then later == []
             else forall i :: 0 <= i < |events| - 1 ==>
                    (i in later <==> events[1..][i].Yaml? && Reaches(stop, events[1..], i))
    ensures idx == (if events[0].Yaml? then [0] else []) + Moved(later)
    ensures Places(idx, |events|)
    ensures forall i :: 0 <= i < |events| ==> (i in idx <==> events[i].Yaml? && Reaches(stop, events, i))
  {
    hide Reaches, Moved;
    MovedPlaces(later, |events| - 1);
    idx := (if events[0].Yaml? then [0] else []) + Moved(later);
    forall i | 0 <= i < |events| ensures i in idx <==> events[i].Yaml? && Reaches(stop, events, i) {
      if i == 0 {
        ReachesFirst(stop, events);
      } else {
        ReachesOneMore(stop, events, i);
        assert events[1..][i - 1] == events[i];
      }
    }
    assert forall k :: 0 <= k < |Moved(later)| ==> Moved(later)[k] in Moved(later);
  }

  lemma ReachesFirst(stop: bool, events: seq<WalkEvent>)
    requires events != []
    ensures Reaches(stop, events, 0)
  {
  }

  lemma {:induction false} FilesOfDirElements(stop: bool, events: seq<WalkEvent>, f: YamlFile)
    ensures f in FilesOfDir(stop, events)
            <==> exists i :: 0 <= i < |events| && events[i] == Yaml(f) && Reaches(stop, events, i)
  {
    hide Reaches;
    var idx := FilesAreFound(stop, events);
    if f in FilesOfDir(stop, events) {
      var k :| 0 <= k < |idx| && FilesOfDir(stop, events)[k] == f;
      assert idx[k] in idx;
    }
    if i :| 0 <= i < |events| && events[i] == Yaml(f) && Reaches(stop, events, i) {
      var k :| 0 <= k < |idx| && idx[k] == i;
    }
  }

  /** Directory by directory. */
  lemma {:induction false} DirsAreScannedInOrder(stop: bool, dirs: seq<seq<WalkEvent>>)
    ensures FilesOfDirs(stop, dirs)
            == Flatten(seq(|dirs|, i requires 0 <= i < |dirs| => FilesOfDir(stop, dirs[i])))
  {
    hide FilesOfDir;
    var parts := seq(|dirs|, i requires 0 <= i < |dirs| => FilesOfDir(stop, dirs[i]));
    if dirs != [] {
      DirsAreScannedInOrder(stop, dirs[1..]);
      var rest := seq(|dirs| - 1, i requires 0 <= i < |dirs| - 1 => FilesOfDir(stop, dirs[1..][i]));
      assert parts == [FilesOfDir(stop, dirs[0])] + rest;
      FlattenAppend([FilesOfDir(stop, dirs[0])], rest);
      FlattenOne(FilesOfDir(stop, dirs[0]));
    }
  }

  lemma {:induction false} FilesOfDirsElements(stop: bool, dirs: seq<seq<WalkEvent>>, f: YamlFile)
    ensures f in FilesOfDirs(stop, dirs) <==> exists d :: d in dirs && f in FilesOfDir(stop, d)
  {
    hide FilesOfDir;
    if dirs != [] {
      FilesOfDirsElements(stop, dirs[1..], f);
      assert dirs[0] in dirs;
      if d :| d in dirs && f in FilesOfDir(stop, d) {
        assert d != dirs[0] ==> d in dirs[1..];
      }
      if d :| d in dirs[1..] && f in FilesOfDir(stop, d) {
        assert d in dirs;
      }
    }
  }

  // ----- objects -----

  lemma OneFileMore(files: seq<YamlFile>, rest: nat)
    requires rest < |files|
    ensures Flatten(seq(rest + 1, i requires 0 <= i < rest + 1 => files[i].infos))
            == files[0].infos + Flatten(seq(rest, i requires 0 <= i < rest => files[1..][i].infos))
  {
    var parts := seq(rest + 1, i requires 0 <= i < rest + 1 => files[i].infos);
    var later := seq(rest, i requires 0 <= i < rest => files[1..][i].infos);
    assert parts == [files[0].infos] + later;
    FlattenAppend([files[0].infos], later);
    FlattenOne(files[0].infos);
  }

  /** The objects taken in are those of all files before the first one that stops reading, file by
      file: a file with reading errors stops a run that stops at errors, and no other. */
  lemma {:induction false} ObjectsAreTakenIn(stop: bool, files: seq<YamlFile>) returns (k: nat)
    ensures k <= |files| && forall i :: 0 <= i < k ==> !(stop && files[i].readErrors > 0)
    ensures k == |files| || (stop && files[k].readErrors > 0)
    ensures InfosOfFiles(stop, files) == Flatten(seq(k, i requires 0 <= i < k => files[i].infos))
  {
    k := 0;
    if files != [] && !StopsAt(stop, files[0]) {
      var rest := ObjectsAreTakenIn(stop, files[1..]);
      k := rest + 1;
      assert forall i :: 0 < i < |files| ==> files[i] == files[1..][i - 1];
      OneFileMore(files, rest);
    }
  }

  /** The objects of a run that gets through: all objects in all YAML files of all directories,
      including those of files with reading errors in a run that does not stop at them. */
  lemma {:induction false} ObjectsOfRun(stop: bool, dirs: seq<seq<WalkEvent>>, info: Info)
    requires !Stops(stop, EarlyErrorsFromDirs(stop, dirs))
    ensures info in InfosFromDirs(stop, dirs)
            <==> exists d, f :: d in dirs && Yaml(f) in d && info in f.infos
  {
    hide ErrorsOfDirs, FilesOfDirs, ErrorsOfFiles, InfosOfFiles, FilesOfDir, Reaches;
    NothingStops(stop, dirs);
    var files := FilesOfDirs(stop, dirs);
    var k := ObjectsAreTakenIn(stop, files);
    var parts := seq(k, i requires 0 <= i < k => files[i].infos);
    assert forall i :: 0 <= i < |files| ==> files[i] in files;
    assert k == |files|;
    FlattenElements(parts, info);
    if i :| 0 <= i < |parts| && info in parts[i] {
      assert files[i] in files;
      FilesOfRun(stop, dirs, files[i]);
    }
    if d, f :| d in dirs && Yaml(f) in d && info in f.infos {
      FilesOfRun(stop, dirs, f);
      var i :| 0 <= i < |files| && files[i] == f;
      assert parts[i] == f.infos;
    }
  }

  /** In such a run no file is missed. */
  lemma {:induction false} FilesOfRun(stop: bool, dirs: seq<seq<WalkEvent>>, f: YamlFile)
    requires !Stops(stop, ErrorsOfDirs(stop, dirs, []))
    ensures f in FilesOfDirs(stop, dirs) <==> exists d :: d in dirs && Yaml(f) in d
  {
    hide ErrorsOfDirs, FilesOfDir;
    ErrorsOfDirsStop(stop, dirs, []);
    FilesOfDirsElements(stop, dirs, f);
    forall d | d in dirs ensures f in FilesOfDir(stop, d) <==> Yaml(f) in d {
      FilesOfDirElements(stop, d, f);
      assert forall e :: e in d ==> !EndsWalk(stop, e);
      forall i | 0 <= i < |d| ensures Reaches(stop, d, i) {
        assert forall j :: 0 <= j < i ==> d[j] in d;
      }
    }
  }

  lemma {:induction false} NothingStops(stop: bool, dirs: seq<seq<WalkEvent>>)
    requires !Stops(stop, EarlyErrorsFromDirs(stop, dirs))
    ensures !Stops(stop, ErrorsOfDirs(stop, dirs, []))
    ensures forall f :: f in FilesOfDirs(stop, dirs) ==> !(stop && f.readErrors > 0)
  {
    hide ErrorsOfDirs, FilesOfDirs, ErrorsOfFiles;
    var fileErrors := ErrorsOfDirs(stop, dirs, []);
    if !Stops(stop, fileErrors) {
      ErrorsOfDirsStop(stop, dirs, []);
      ErrorsOfFilesStop(stop, FilesOfDirs(stop, dirs));
      GoingOn(stop, fileErrors, ErrorsOfFiles(stop, FilesOfDirs(stop, dirs)));
    }
  }

  lemma WhatStopsADir(stop: bool, events: seq<WalkEvent>)
    ensures DirStops(stop, events) <==> exists e :: e in events && e.Inaccessible? && (stop || !e.isSubDir)
  {
  }

  /** A run does not get through exactly if a directory cannot be accessed, or, stopping at errors, a
      subdirectory cannot or a file cannot be read. */
  lemma {:induction false} WhatStopsARun(stop: bool, dirs: seq<seq<WalkEvent>>)
    ensures Stops(stop, EarlyErrorsFromDirs(stop, dirs))
            <==> || (exists d, e :: d in dirs && e in d && e.Inaccessible? && (stop || !e.isSubDir))
                 || (stop && exists d, f :: d in dirs && Yaml(f) in d && f.readErrors > 0)
  {
    hide ErrorsOfDirs, FilesOfDirs, ErrorsOfFiles;
    var fileErrors, files := ErrorsOfDirs(stop, dirs, []), FilesOfDirs(stop, dirs);
    ErrorsOfDirsStop(stop, dirs, []);
    ErrorsOfFilesStop(stop, files);
    if Stops(stop, fileErrors) {
      var d :| d in dirs && DirStops(stop, d);
      WhatStopsADir(stop, d);
    } else {
      GoingOn(stop, fileErrors, ErrorsOfFiles(stop, files));
      forall d: seq<WalkEvent>
        ensures DirStops(stop, d) <==> exists e :: e in d && e.Inaccessible? && (stop || !e.isSubDir)
      {
        WhatStopsADir(stop, d);
      }
      forall f ensures f in files <==> exists d :: d in dirs && Yaml(f) in d {
        FilesOfRun(stop, dirs, f);
      }
    }
  }

  // ----- errors -----

  /** The errors of a walk: one for each inaccessible entry that it reaches, fatal at the root. */
  lemma {:induction false} ErrorsOfWalk(stop: bool, events: seq<WalkEvent>, e: FileProcessingError)
    ensures e in ErrorsOfDir(stop, events)
            <==> exists i :: && 0 <= i < |events| && Reaches(stop, events, i) && events[i].Inaccessible?
                             && e == FileProcessingError(FailedAccessingDir(events[i].path), !events[i].isSubDir, true)
  {
    hide Reaches;
    if events != [] {
      ReachesFirst(stop, events);
      if !EndsWalk(stop, events[0]) {
        ErrorsOfWalk(stop, events[1..], e);
      }
      forall i | 0 < i < |events|
        ensures Reaches(stop, events, i) <==> !EndsWalk(stop, events[0]) && Reaches(stop, events[1..], i - 1)
        ensures events[1..][i - 1] == events[i]
      {
        ReachesOneMore(stop, events, i);
      }
      if e in ErrorsOfDir(stop, events) && e !in ErrorOfEvent(events[0]) {
        var i :| && 0 <= i < |events| - 1 && Reaches(stop, events[1..], i) && events[1..][i].Inaccessible?
                 && e == FileProcessingError(FailedAccessingDir(events[1..][i].path), !events[1..][i].isSubDir, true);
        assert events[1..][i] == events[i + 1];
        assert Reaches(stop, events, i + 1);
      }
    }
  }

  /** Scanning directory `k` reports this error: one of its walk, or that no YAML file was found so far. */
  ghost predicate Reports(stop: bool, dirs: seq<seq<WalkEvent>>, found: seq<YamlFile>, k: nat, e: FileProcessingError)
    requires k < |dirs|
  {
    && (forall j :: 0 <= j < k ==> !DirStops(stop, dirs[j]))
    && (|| e in ErrorsOfDir(stop, dirs[k])
        || (&& !DirStops(stop, dirs[k]) && found + FilesOfDirs(stop, dirs[..k + 1]) == []
            && e == FileProcessingError(NoYamlsFound, false, false)))
  }

  lemma {:induction false} ReportsOneMore(stop: bool, dirs: seq<seq<WalkEvent>>, found: seq<YamlFile>, k: nat,
                                          e: FileProcessingError)
    requires 0 < k < |dirs|
    ensures Reports(stop, dirs, found, k, e)
            <==> !DirStops(stop, dirs[0])
                 && Reports(stop, dirs[1..], found + FilesOfDir(stop, dirs[0]), k - 1, e)
  {
    hide ErrorsOfDir, FilesOfDir, DirStops;
    assert dirs[..k + 1][1..] == dirs[1..][..k] && dirs[..k + 1][0] == dirs[0];
    assert found + FilesOfDirs(stop, dirs[..k + 1])
        == found + FilesOfDir(stop, dirs[0]) + FilesOfDirs(stop, dirs[1..][..k]);
    assert forall j :: 0 < j < k ==> dirs[1..][j - 1] == dirs[j];
    assert forall j :: 0 <= j < k - 1 ==> dirs[1..][j] == dirs[j + 1];
  }

  lemma {:induction false} ReportsFirst(stop: bool, dirs: seq<seq<WalkEvent>>, found: seq<YamlFile>,
                                        e: FileProcessingError)
    requires dirs != []
    ensures Reports(stop, dirs, found, 0, e)
            <==> || e in ErrorsOfDir(stop, dirs[0])
                 || (!DirStops(stop, dirs[0]) && e in NoYamls(found + FilesOfDir(stop, dirs[0])))
  {
    hide ErrorsOfDir, FilesOfDir, DirStops;
    FirstDir(stop, dirs);
  }

  /** The errors of the scan, directory by directory, as far as it gets. */
  lemma {:induction false} ErrorsOfScan(stop: bool, dirs: seq<seq<WalkEvent>>, found: seq<YamlFile>,
                                        e: FileProcessingError)
    ensures e in ErrorsOfDirs(stop, dirs, found) <==> exists k :: 0 <= k < |dirs| && Reports(stop, dirs, found, k, e)
  {
    hide ErrorsOfDir, FilesOfDir, DirStops, Reports, NoYamls;
    if dirs != [] {
      var files := found + FilesOfDir(stop, dirs[0]);
      ReportsFirst(stop, dirs, found, e);
      forall k | 0 < k < |dirs|
        ensures Reports(stop, dirs, found, k, e)
                <==> !DirStops(stop, dirs[0]) && Reports(stop, dirs[1..], files, k - 1, e)
      {
        ReportsOneMore(stop, dirs, found, k, e);
      }
      if !DirStops(stop, dirs[0]) {
        ErrorsOfScan(stop, dirs[1..], files, e);
        if k :| 0 <= k < |dirs| - 1 && Reports(stop, dirs[1..], files, k, e) {
          assert Reports(stop, dirs, found, k + 1, e);
        }
      }
    }
  }

  lemma FirstDir(stop: bool, dirs: seq<seq<WalkEvent>>)
    requires dirs != []
    ensures FilesOfDirs(stop, dirs[..1]) == FilesOfDir(stop, dirs[0])
  {
    hide FilesOfDir;
    assert dirs[..1][1..] == [];
    assert FilesOfDirs(stop, []) == [];
  }

  /** Reading a file reports that it could not be read, once per error, or once if that stops the run;
      and one mild error per object that cannot be decoded. */
  lemma {:induction false} ErrorsOfReading(stop: bool, files: seq<YamlFile>, e: FileProcessingError)
    ensures e in ErrorsOfFiles(stop, files)
            <==> exists k :: && 0 <= k < |files| && (forall j :: 0 <= j < k ==> !(stop && files[j].readErrors > 0))
                             && (|| (files[k].readErrors > 0
                                     && e == FileProcessingError(FailedReadingFile(files[k].path), false, true))
                                 || (&& !(stop && files[k].readErrors > 0) && BadInfo in files[k].infos
                                     && e == FileProcessingError(FailedScanningResource, false, false)))
  {
    hide ScanErrorsIn;
    if files != [] {
      ErrorsOfOneFile(stop, files[0], e);
      if !StopsAt(stop, files[0]) {
        ErrorsOfReading(stop, files[1..], e);
      }
      hide ErrorsOfFile;
      assert forall j :: 0 < j < |files| ==> files[1..][j - 1] == files[j];
      assert forall j :: 0 <= j < |files| - 1 ==> files[1..][j] == files[j + 1];
    }
  }

  lemma {:induction false} ErrorsOfOneFile(stop: bool, f: YamlFile, e: FileProcessingError)
    ensures e in ErrorsOfFile(stop, f)
            <==> || (f.readErrors > 0 && e == FileProcessingError(FailedReadingFile(f.path), false, true))
                 || (&& !(stop && f.readErrors > 0) && BadInfo in f.infos
                     && e == FileProcessingError(FailedScanningResource, false, false))
    ensures f.readErrors > 0 && !stop ==>
              |ErrorsOfFile(stop, f)| == f.readErrors + |set i | 0 <= i < |f.infos| && f.infos[i] == BadInfo|
  {
    hide ScanErrorsIn;
    ScanErrors(f.infos, e);
    ScanErrorsAreCounted(f.infos);
    if f.readErrors > 0 {
      assert ReadErrorsOf(stop, f)[0] == UnreadableFile(f.path);
    }
  }

  lemma {:induction false} ScanErrors(infos: seq<Info>, e: FileProcessingError)
    ensures e in ScanErrorsIn(infos)
            <==> BadInfo in infos && e == FileProcessingError(FailedScanningResource, false, false)
  {
    if infos != [] {
      assert infos == infos[..|infos| - 1] + [infos[|infos| - 1]];
      ScanErrors(infos[..|infos| - 1], e);
    }
  }

  /** One error for each object that cannot be decoded. */
  lemma {:induction false} ScanErrorsAreCounted(infos: seq<Info>)
    ensures |ScanErrorsIn(infos)| == |set i | 0 <= i < |infos| && infos[i] == BadInfo|
  {
    if infos != [] {
      ScanErrorsAreCounted(infos[..|infos| - 1]);
      OnePlaceMore(infos);
    }
  }

  lemma {:induction false} OnePlaceMore(infos: seq<Info>)
    requires infos != []
    ensures var n := |infos| - 1;
            |set i | 0 <= i < |infos| && infos[i] == BadInfo|
            == |set i | 0 <= i < |infos[..n]| && infos[..n][i] == BadInfo| + (if infos[n] == BadInfo then 1 else 0)
  {
    var n := |infos| - 1;
    var before := set i | 0 <= i < |infos[..n]| && infos[..n][i] == BadInfo;
    var after := set i | 0 <= i < |infos| && infos[i] == BadInfo;
    assert after == if infos[n] == BadInfo then before + {n} else before;
  }

  // ----- what objects lead to -----

  /** Workloads are taken in in the order of the objects. */
  lemma {:induction false} WorkloadsInOrder(infos: seq<Info>) returns (idx: seq<nat>)
    ensures Places(idx, |infos|) && |idx| == |WorkloadsIn(infos)|
    ensures forall k :: 0 <= k < |idx| ==> infos[idx[k]] == WorkloadInfo(WorkloadsIn(infos)[k])
    ensures forall i :: 0 <= i < |infos| ==> (i in idx <==> infos[i].WorkloadInfo?)
  {
    idx := [];
    if infos != [] {
      var init, last := infos[..|infos| - 1], infos[|infos| - 1];
      var before := WorkloadsInOrder(init);
      idx := before + (if last.WorkloadInfo? then [|init|] else []);
      assert forall i :: 0 <= i < |init| ==> init[i] == infos[i];
      forall i | 0 <= i < |infos| ensures i in idx <==> infos[i].WorkloadInfo? {
        assert i < |init| ==> (i in before <==> infos[i].WorkloadInfo?);
      }
      hide WorkloadsIn;
      assert forall k :: 0 <= k < |before| ==> infos[before[k]] == init[before[k]];
    }
  }

  /** So are Services. */
  lemma {:induction false} ServicesInOrder(infos: seq<Info>) returns (idx: seq<nat>)
    ensures Places(idx, |infos|) && |idx| == |ServicesIn(infos)|
    ensures forall k :: 0 <= k < |idx| ==> infos[idx[k]] == ServiceInfo(ServicesIn(infos)[k])
    ensures forall i :: 0 <= i < |infos| ==> (i in idx <==> infos[i].ServiceInfo?)
  {
    idx := [];
    if infos != [] {
      var init, last := infos[..|infos| - 1], infos[|infos| - 1];
      var before := ServicesInOrder(init);
      idx := before + (if last.ServiceInfo? then [|init|] else []);
      assert forall i :: 0 <= i < |init| ==> init[i] == infos[i];
      forall i | 0 <= i < |infos| ensures i in idx <==> infos[i].ServiceInfo? {
        assert i < |init| ==> (i in before <==> infos[i].ServiceInfo?);
      }
      hide ServicesIn;
      assert forall k :: 0 <= k < |before| ==> infos[before[k]] == init[before[k]];
    }
  }

  /** Object `i` is the last ConfigMap of this full name. */
  ghost predicate IsLast(infos: seq<Info>, i: nat, name: string)
    requires i < |infos|
  {
    && infos[i].ConfigMapInfo? && infos[i].configmap.fullName == name
    && forall j :: i < j < |infos| && infos[j].ConfigMapInfo? ==> infos[j].configmap.fullName != name
  }

  /** The ConfigMap in effect under a full name is the last one of that name among the objects. */
  lemma {:induction false} ConfigMapInEffect(infos: seq<Info>, name: string)
    ensures name in ByName(ConfigMapsIn(infos)) <==> exists cm :: ConfigMapInfo(cm) in infos && cm.fullName == name
    ensures forall i :: 0 <= i < |infos| && IsLast(infos, i, name) ==>
              name in ByName(ConfigMapsIn(infos)) && ByName(ConfigMapsIn(infos))[name] == infos[i].configmap
  {
    if infos != [] {
      var init, last := infos[..|infos| - 1], infos[|infos| - 1];
      assert infos == init + [last];
      ConfigMapInEffect(init, name);
      hide ByName;
      EffectOfOneMore(ConfigMapsIn(init), last, name);
      if last.ConfigMapInfo? {
        assert last == ConfigMapInfo(last.configmap);
      }
      forall i | 0 <= i < |infos| && IsLast(infos, i, name)
        ensures name in ByName(ConfigMapsIn(infos)) && ByName(ConfigMapsIn(infos))[name] == infos[i].configmap
      {
        if i < |init| {
          assert infos[|init|] == last;
          assert IsLast(init, i, name);
        }
      }
    }
  }

  lemma EffectOfOneMore(cms: seq<CfgMap>, info: Info, name: string)
    ensures var before, after := ByName(cms), ByName(cms + ConfigMapOf(info));
            if info.ConfigMapInfo? && info.configmap.fullName == name
            then name in after && after[name] == info.configmap
            else (name in after <==> name in before) && (name in before ==> after[name] == before[name])
  {
    var all := cms + ConfigMapOf(info);
    if info.ConfigMapInfo? {
      assert all[..|all| - 1] == cms;
    } else {
      assert all == cms;
    }
  }

  /** Parsing crashes on a nil object, on a workload that cannot be decoded, and on a Route without a
      port, and on nothing else. */
  lemma {:induction false} WhatCrashesParsing(infos: seq<Info>)
    ensures SomePanic(infos)
            <==> || NilInfo in infos || BadWorkloadInfo in infos
                 || exists ns, to, alternates :: RouterInfo(OcRoute(ns, to, None, alternates)) in infos
  {
    if info :| info in infos && Panics(info) {
      assert info.RouterInfo? ==> info == RouterInfo(OcRoute(info.router.namespace, info.router.to, None,
                                                             info.router.alternateBackends));
    }
    if ns, to, alternates :| RouterInfo(OcRoute(ns, to, None, alternates)) in infos {
      assert Panics(RouterInfo(OcRoute(ns, to, None, alternates)));
    }
    assert NilInfo in infos ==> Panics(NilInfo);
    assert BadWorkloadInfo in infos ==> Panics(BadWorkloadInfo);
  }

  // ----- the errors of whole runs -----

  /** The errors after reading: that there is no workload; otherwise those of references of declared
      workloads that lead nowhere. */
  ghost predicate ReportsLate(infos: seq<Info>, e: FileProcessingError) {
    if forall w :: WorkloadInfo(w) !in infos then e == FileProcessingError(NoK8sResourcesFound, true, true)
    else exists w :: && WorkloadInfo(w) in infos
                     && (|| (exists ref :: && ref in w.configMapRefs
                                           && MissesMap(ByName(ConfigMapsIn(infos)), w.namespace, w.name, ref, e))
                         || (exists ref :: && ref in w.configMapKeyRefs
                                           && MissesKey(ByName(ConfigMapsIn(infos)), w.namespace, w.name, ref, e)))
  }

  lemma {:induction false} LateErrorsElements(infos: seq<Info>, e: FileProcessingError)
    ensures e in LateErrors(infos) <==> ReportsLate(infos, e)
  {
    hide WorkloadsIn, AllDangling, MissesMap, MissesKey, ByName, ConfigMapsIn;
    InfosElements(infos);
    if WorkloadsIn(infos) == [] {
      assert forall w :: WorkloadInfo(w) in infos ==> w in WorkloadsIn(infos);
    } else {
      assert WorkloadsIn(infos)[0] in WorkloadsIn(infos);
      DanglingErrors(ByName(ConfigMapsIn(infos)), WorkloadsIn(infos), e);
    }
  }

  lemma {:induction false} ErrorsOfInfosRun(infos: seq<Info>, e: FileProcessingError)
    ensures e in ErrorsFromInfos(infos)
            <==> || (BadInfo in infos && e == FileProcessingError(FailedScanningResource, false, false))
                 || ReportsLate(infos, e)
  {
    hide ScanErrorsIn, LateErrors, ReportsLate;
    ScanErrors(infos, e);
    LateErrorsElements(infos, e);
  }

  /** A run over directories reports the errors of its phases up to the one that stops it. */
  lemma {:induction false} ErrorsOfDirsRun(stop: bool, dirs: seq<seq<WalkEvent>>, e: FileProcessingError)
    ensures var scan := ErrorsOfDirs(stop, dirs, []);
            e in ErrorsFromDirs(stop, dirs)
            <==> || e in scan
                 || (!Stops(stop, scan) && e in ErrorsOfFiles(stop, FilesOfDirs(stop, dirs)))
                 || (!Stops(stop, EarlyErrorsFromDirs(stop, dirs)) && ReportsLate(InfosFromDirs(stop, dirs), e))
  {
    hide ErrorsOfDirs, ErrorsOfFiles, FilesOfDirs, InfosOfFiles, LateErrors, ReportsLate;
    LateErrorsElements(InfosFromDirs(stop, dirs), e);
  }
}
