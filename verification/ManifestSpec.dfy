/** What is read from a list of parsed manifest objects, from YAML files, and from directories. */
module ManifestSpec {
  import opened Model
  import opened Errors
  import opened Exposure

  /** A parsed object: of one of the accepted kinds, of another kind, or not decodable. A nil
      pointer, and a workload that cannot be decoded or has no pod template (as a
      ReplicationController may), make the Go code dereference nil. */
  datatype Info =
    | WorkloadInfo(workload: Resource)
    | ServiceInfo(service: Service)
    | ConfigMapInfo(configmap: CfgMap)
    | RouterInfo(router: Router)
    | IrrelevantInfo
    | BadInfo
    | NilInfo
    | BadWorkloadInfo

  /** Parsing this object crashes. */
  predicate Panics(info: Info) {
    info.NilInfo? || info.BadWorkloadInfo? || (info.RouterInfo? && RouterPanics(info.router))
  }

  predicate SomePanic(infos: seq<Info>) {
    exists info :: info in infos && Panics(info)
  }

  function WorkloadOf(info: Info): seq<Resource> {
    if info.WorkloadInfo? then [info.workload] else []
  }

  function ServiceOf(info: Info): seq<Service> {
    if info.ServiceInfo? then [info.service] else []
  }

  function ConfigMapOf(info: Info): seq<CfgMap> {
    if info.ConfigMapInfo? then [info.configmap] else []
  }

  function ErrorOf(info: Info): seq<FileProcessingError> {
    if info.BadInfo? then [FAILED_SCANNING_RESOURCE] else []
  }

  function WorkloadsIn(infos: seq<Info>): seq<Resource> {
    if infos == [] then [] else WorkloadsIn(infos[..|infos| - 1]) + WorkloadOf(infos[|infos| - 1])
  }

  function ServicesIn(infos: seq<Info>): seq<Service> {
    if infos == [] then [] else ServicesIn(infos[..|infos| - 1]) + ServiceOf(infos[|infos| - 1])
  }

  function ConfigMapsIn(infos: seq<Info>): seq<CfgMap> {
    if infos == [] then [] else ConfigMapsIn(infos[..|infos| - 1]) + ConfigMapOf(infos[|infos| - 1])
  }

  function ScanErrorsIn(infos: seq<Info>): seq<FileProcessingError> {
    if infos == [] then [] else ScanErrorsIn(infos[..|infos| - 1]) + ErrorOf(infos[|infos| - 1])
  }

  function EntriesOfInfo(info: Info): seq<Exposed> {
    if info.RouterInfo? then EntriesOf(info.router) else []
  }

  function EntriesIn(infos: seq<Info>): seq<Exposed> {
    if infos == [] then [] else EntriesIn(infos[..|infos| - 1]) + EntriesOfInfo(infos[|infos| - 1])
  }

  /** The ports that the routers among the objects expose, Service by Service. */
  function ExposureIn(infos: seq<Info>): ExposureTable {
    AddEntries(map[], EntriesIn(infos))
  }

  /** Some router among the objects exposes this port. */
  ghost predicate ExposedBy(infos: seq<Info>, e: Exposed) {
    exists info :: info in infos && info.RouterInfo? && Exposes(info.router, e)
  }

  lemma {:induction false} EntriesInElements(infos: seq<Info>, e: Exposed)
    ensures e in EntriesIn(infos) <==> ExposedBy(infos, e)
  {
    hide Exposes, EntriesOf;
    if infos != [] {
      var init, last := infos[..|infos| - 1], infos[|infos| - 1];
      assert infos == init + [last];
      EntriesInElements(init, e);
      if last.RouterInfo? {
        EntriesAreExposed(last.router, e);
      }
    }
  }

  /** The table holds a port exactly if some router exposes it, whatever the order of objects. */
  lemma {:induction false} ExposureElements(infos: seq<Info>, e: Exposed)
    ensures Has(ExposureIn(infos), e) <==> ExposedBy(infos, e)
  {
    EntriesInElements(infos, e);
    EntriesAreAdded(map[], EntriesIn(infos), e);
  }

  /** The flag of a port ends up set exactly when it was set before, or a router among the
      objects exposes that port, by name or by number, of the Service of that namespace and name. */
  lemma {:induction false} FlagIsSetExactly(infos: seq<Info>, svc: Service, i: nat)
    requires i < |svc.network|
    ensures var after := ExposedService(svc, ExposureIn(infos));
            && after == svc.(network := after.network) && |after.network| == |svc.network|
            && after.network[i] == svc.network[i].(exposeToCluster := after.network[i].exposeToCluster)
            && (after.network[i].exposeToCluster
                <==> || svc.network[i].exposeToCluster
                     || (&& svc.network[i].name != ""
                         && ExposedBy(infos, Exposed(svc.namespace, svc.name, FromString(svc.network[i].name))))
                     || (&& svc.network[i].port > 0
                         && ExposedBy(infos, Exposed(svc.namespace, svc.name, FromInt(svc.network[i].port)))))
  {
    hide ExposedBy, ExposureIn;
    var ports := Lookup(ExposureIn(infos), svc.namespace, svc.name);
    forall q ensures q in ports <==> ExposedBy(infos, Exposed(svc.namespace, svc.name, q)) {
      ExposureElements(infos, Exposed(svc.namespace, svc.name, q));
    }
  }

  /** An Ingress backend with a number opens the Service's ports of that number, and one with a name
      only those of that name. */
  lemma {:induction false} IngressSetsFlags(infos: seq<Info>, ingress: Router, b: ServiceBackend, svc: Service, i: nat)
    requires RouterInfo(ingress) in infos && ingress.Ingress?
    requires ingress.defaultBackend == Some(b)
             || exists rule :: Some(rule) in ingress.rules && Some(b) in rule
    requires svc.namespace == ingress.namespace && svc.name == b.name && i < |svc.network|
    requires || (b.port.number > 0 && svc.network[i].port == b.port.number)
             || (b.port.number == 0 && b.port.name != "" && svc.network[i].name == b.port.name)
    ensures ExposedService(svc, ExposureIn(infos)).network[i].exposeToCluster
  {
    hide ExposureIn, ExposedService;
    var e := Exposed(svc.namespace, svc.name,
                     if b.port.number != 0 then FromInt(b.port.number) else FromString(b.port.name));
    assert FromBackend(e, ingress.namespace, b);
    if rule :| Some(rule) in ingress.rules && Some(b) in rule {
      assert InIngressRule(Some(rule), b);
    }
    assert Exposes(ingress, e);
    assert ExposedBy(infos, e);
    FlagIsSetExactly(infos, svc, i);
  }

  lemma {:induction false} InfosElements(infos: seq<Info>)
    ensures forall r :: r in WorkloadsIn(infos) <==> WorkloadInfo(r) in infos
    ensures forall svc :: svc in ServicesIn(infos) <==> ServiceInfo(svc) in infos
    ensures forall cm :: cm in ConfigMapsIn(infos) <==> ConfigMapInfo(cm) in infos
    ensures Mild(ScanErrorsIn(infos))
  {
    if infos != [] {
      InfosElements(infos[..|infos| - 1]);
      assert infos == infos[..|infos| - 1] + [infos[|infos| - 1]];
    }
  }

  // ----- YAML files -----

  /** A file: the objects read from it, and how many reading errors it gave. */
  datatype YamlFile = YamlFile(path: string, infos: seq<Info>, readErrors: nat)

  /** Reading stops at this file. */
  predicate StopsAt(stopOn1stErr: bool, f: YamlFile) {
    stopOn1stErr && f.readErrors > 0
  }

  function ReadErrorsOf(stopOn1stErr: bool, f: YamlFile): seq<FileProcessingError> {
    if StopsAt(stopOn1stErr, f) then [UnreadableFile(f.path)]
    else seq(f.readErrors, _ => UnreadableFile(f.path))
  }

  function ErrorsOfFile(stopOn1stErr: bool, f: YamlFile): seq<FileProcessingError> {
    ReadErrorsOf(stopOn1stErr, f) + (if StopsAt(stopOn1stErr, f) then [] else ScanErrorsIn(f.infos))
  }

  function InfosOfFile(stopOn1stErr: bool, f: YamlFile): seq<Info> {
    if StopsAt(stopOn1stErr, f) then [] else f.infos
  }

  function ErrorsOfFiles(stopOn1stErr: bool, files: seq<YamlFile>): seq<FileProcessingError> {
    if files == [] then []
    else
      ErrorsOfFile(stopOn1stErr, files[0])
      + (if StopsAt(stopOn1stErr, files[0]) then [] else ErrorsOfFiles(stopOn1stErr, files[1..]))
  }

  /** The objects that are taken in before reading stops. */
  function InfosOfFiles(stopOn1stErr: bool, files: seq<YamlFile>): seq<Info> {
    if files == [] then []
    else
      InfosOfFile(stopOn1stErr, files[0])
      + (if StopsAt(stopOn1stErr, files[0]) then [] else InfosOfFiles(stopOn1stErr, files[1..]))
  }

  lemma Associates<T>(a: seq<T>, b: seq<T>, c: seq<T>)
    ensures a + (b + c) == a + b + c
  {
  }

  /** `infos` have been taken in, and `errs` reported, once the files before `i` are read. */
  ghost predicate ReadUpTo(stopOn1stErr: bool, files: seq<YamlFile>, i: nat, infos: seq<Info>,
                           errs: seq<FileProcessingError>)
    requires i <= |files|
  {
    && InfosOfFiles(stopOn1stErr, files) == infos + InfosOfFiles(stopOn1stErr, files[i..])
    && ErrorsOfFiles(stopOn1stErr, files) == errs + ErrorsOfFiles(stopOn1stErr, files[i..])
  }

  ghost predicate ReadAll(stopOn1stErr: bool, files: seq<YamlFile>, infos: seq<Info>, errs: seq<FileProcessingError>) {
    InfosOfFiles(stopOn1stErr, files) == infos && ErrorsOfFiles(stopOn1stErr, files) == errs
  }

  lemma {:induction false} ReadOneMore(stopOn1stErr: bool, files: seq<YamlFile>, i: nat, infos: seq<Info>,
                                       errs: seq<FileProcessingError>)
    requires i < |files| && ReadUpTo(stopOn1stErr, files, i, infos, errs)
    ensures var infos', errs' := infos + InfosOfFile(stopOn1stErr, files[i]), errs + ErrorsOfFile(stopOn1stErr,
        files[i]);
            if StopsAt(stopOn1stErr, files[i]) then ReadAll(stopOn1stErr, files, infos', errs')
            else ReadUpTo(stopOn1stErr, files, i + 1, infos', errs')
  {
    var rest := files[i..];
    assert rest[1..] == files[i + 1..] && rest[0] == files[i];
    Associates(infos, InfosOfFile(stopOn1stErr, files[i]), InfosOfFiles(stopOn1stErr, files[i + 1..]));
    Associates(errs, ErrorsOfFile(stopOn1stErr, files[i]), ErrorsOfFiles(stopOn1stErr, files[i + 1..]));
  }

  lemma ReadToTheEnd(stopOn1stErr: bool, files: seq<YamlFile>, infos: seq<Info>, errs: seq<FileProcessingError>)
    requires ReadUpTo(stopOn1stErr, files, |files|, infos, errs)
    ensures ReadAll(stopOn1stErr, files, infos, errs)
  {
  }

  lemma ReadNothing(stopOn1stErr: bool, files: seq<YamlFile>)
    ensures ReadUpTo(stopOn1stErr, files, 0, [], [])
  {
    assert files[0..] == files;
  }

  lemma ErrorsOfFileStop(stopOn1stErr: bool, f: YamlFile)
    ensures Stops(stopOn1stErr, ErrorsOfFile(stopOn1stErr, f)) <==> StopsAt(stopOn1stErr, f)
    ensures StopsAtLast(stopOn1stErr, ErrorsOfFile(stopOn1stErr, f))
  {
    InfosElements(f.infos);
    if StopsAt(stopOn1stErr, f) {
      var errs := ErrorsOfFile(stopOn1stErr, f);
      assert errs == [UnreadableFile(f.path)];
      assert errs[0] in errs && Stopping(stopOn1stErr, errs[0]);
    }
  }

  lemma {:induction false} ErrorsOfFilesStop(stopOn1stErr: bool, files: seq<YamlFile>)
    ensures StopsAtLast(stopOn1stErr, ErrorsOfFiles(stopOn1stErr, files))
    ensures Stops(stopOn1stErr, ErrorsOfFiles(stopOn1stErr, files))
        <==> exists f :: f in files && StopsAt(stopOn1stErr, f)
  {
    if files != [] {
      ErrorsOfFileStop(stopOn1stErr, files[0]);
      assert files == [files[0]] + files[1..];
      if StopsAt(stopOn1stErr, files[0]) {
        assert ErrorsOfFiles(stopOn1stErr, files) == ErrorsOfFile(stopOn1stErr, files[0]);
      } else {
        ErrorsOfFilesStop(stopOn1stErr, files[1..]);
        GoingOn(stopOn1stErr, ErrorsOfFile(stopOn1stErr, files[0]), ErrorsOfFiles(stopOn1stErr, files[1..]));
      }
    }
  }

  // ----- directories -----

  /** What a directory walk reports: an entry that could not be accessed, a YAML file, or something else. */
  datatype WalkEvent = Inaccessible(path: string, isSubDir: bool) | Yaml(file: YamlFile) | OtherEntry

  function ErrorOfEvent(e: WalkEvent): seq<FileProcessingError> {
    if e.Inaccessible? then [UnreadableDir(e.path, e.isSubDir)] else []
  }

  /** The walk ends when its callback returns an error. */
  predicate EndsWalk(stopOn1stErr: bool, e: WalkEvent) {
    e.Inaccessible? && (stopOn1stErr || !e.isSubDir)
  }

  function ErrorsOfDir(stopOn1stErr: bool, events: seq<WalkEvent>): seq<FileProcessingError> {
    if events == [] then []
    else
      ErrorOfEvent(events[0])
      + (if EndsWalk(stopOn1stErr, events[0]) then [] else ErrorsOfDir(stopOn1stErr, events[1..]))
  }

  function FileOfEvent(e: WalkEvent): seq<YamlFile> {
    if e.Yaml? then [e.file] else []
  }

  function FilesOfDir(stopOn1stErr: bool, events: seq<WalkEvent>): seq<YamlFile> {
    if events == [] then []
    else
      FileOfEvent(events[0]) + (if EndsWalk(stopOn1stErr, events[0]) then [] else FilesOfDir(stopOn1stErr, events[1..]))
  }

  predicate DirStops(stopOn1stErr: bool, events: seq<WalkEvent>) {
    exists e :: e in events && EndsWalk(stopOn1stErr, e)
  }

  lemma {:induction false} ErrorsOfDirStop(stopOn1stErr: bool, events: seq<WalkEvent>)
    ensures StopsAtLast(stopOn1stErr, ErrorsOfDir(stopOn1stErr, events))
    ensures Stops(stopOn1stErr, ErrorsOfDir(stopOn1stErr, events)) <==> DirStops(stopOn1stErr, events)
  {
    if events != [] {
      assert events == [events[0]] + events[1..];
      if EndsWalk(stopOn1stErr, events[0]) {
        var errs := ErrorsOfDir(stopOn1stErr, events);
        assert errs == ErrorOfEvent(events[0]);
        assert errs[0] in errs && Stopping(stopOn1stErr, errs[0]);
      } else {
        ErrorsOfDirStop(stopOn1stErr, events[1..]);
        GoingOn(stopOn1stErr, ErrorOfEvent(events[0]), ErrorsOfDir(stopOn1stErr, events[1..]));
      }
    }
  }

  /** `files` have been found, and `errs` reported, once the events before `i` are handled. */
  ghost predicate WalkedUpTo(stopOn1stErr: bool, events: seq<WalkEvent>, i: nat, files: seq<YamlFile>,
                             errs: seq<FileProcessingError>)
    requires i <= |events|
  {
    && FilesOfDir(stopOn1stErr, events) == files + FilesOfDir(stopOn1stErr, events[i..])
    && ErrorsOfDir(stopOn1stErr, events) == errs + ErrorsOfDir(stopOn1stErr, events[i..])
  }

  ghost predicate WalkedAll(stopOn1stErr: bool, events: seq<WalkEvent>, files: seq<YamlFile>,
                            errs: seq<FileProcessingError>) {
    FilesOfDir(stopOn1stErr, events) == files && ErrorsOfDir(stopOn1stErr, events) == errs
  }

  lemma WalkBegins(stopOn1stErr: bool, events: seq<WalkEvent>)
    ensures WalkedUpTo(stopOn1stErr, events, 0, [], [])
  {
    assert events[0..] == events;
  }

  lemma {:induction false} WalkStep(stopOn1stErr: bool, events: seq<WalkEvent>, i: nat, files: seq<YamlFile>,
                                    errs: seq<FileProcessingError>)
    requires i < |events| && WalkedUpTo(stopOn1stErr, events, i, files, errs)
    ensures var files', errs' := files + FileOfEvent(events[i]), errs + ErrorOfEvent(events[i]);
            if EndsWalk(stopOn1stErr, events[i]) then WalkedAll(stopOn1stErr, events, files', errs')
            else WalkedUpTo(stopOn1stErr, events, i + 1, files', errs')
  {
    var rest := events[i..];
    assert rest[0] == events[i] && rest[1..] == events[i + 1..];
    Associates(files, FileOfEvent(events[i]), FilesOfDir(stopOn1stErr, events[i + 1..]));
    Associates(errs, ErrorOfEvent(events[i]), ErrorsOfDir(stopOn1stErr, events[i + 1..]));
  }

  lemma WalkEnds(stopOn1stErr: bool, events: seq<WalkEvent>, files: seq<YamlFile>, errs: seq<FileProcessingError>)
    requires WalkedUpTo(stopOn1stErr, events, |events|, files, errs)
    ensures WalkedAll(stopOn1stErr, events, files, errs)
  {
  }

  function NoYamls(files: seq<YamlFile>): seq<FileProcessingError> {
    if files == [] then [NO_YAMLS_FOUND] else []
  }

  /** `found` are the files of the directories scanned before. */
  function ErrorsOfDirs(stopOn1stErr: bool, dirs: seq<seq<WalkEvent>>, found: seq<YamlFile>): seq<FileProcessingError> {
    if dirs == [] then []
    else
      var files := found + FilesOfDir(stopOn1stErr, dirs[0]);
      ErrorsOfDir(stopOn1stErr, dirs[0])
      + (if DirStops(stopOn1stErr, dirs[0]) then []
         else NoYamls(files) + ErrorsOfDirs(stopOn1stErr, dirs[1..], files))
  }

  function FilesOfDirs(stopOn1stErr: bool, dirs: seq<seq<WalkEvent>>): seq<YamlFile> {
    if dirs == [] then []
    else FilesOfDir(stopOn1stErr, dirs[0]) + FilesOfDirs(stopOn1stErr, dirs[1..])
  }

  lemma {:induction false} ErrorsOfDirsStop(stopOn1stErr: bool, dirs: seq<seq<WalkEvent>>, found: seq<YamlFile>)
    ensures StopsAtLast(stopOn1stErr, ErrorsOfDirs(stopOn1stErr, dirs, found))
    ensures Stops(stopOn1stErr, ErrorsOfDirs(stopOn1stErr, dirs, found))
            <==> exists d :: d in dirs && DirStops(stopOn1stErr, d)
  {
    if dirs != [] {
      assert dirs == [dirs[0]] + dirs[1..];
      ErrorsOfDirStop(stopOn1stErr, dirs[0]);
      var errs := ErrorsOfDir(stopOn1stErr, dirs[0]);
      if DirStops(stopOn1stErr, dirs[0]) {
        assert ErrorsOfDirs(stopOn1stErr, dirs, found) == errs;
      } else {
        var files := found + FilesOfDir(stopOn1stErr, dirs[0]);
        var rest := ErrorsOfDirs(stopOn1stErr, dirs[1..], files);
        ErrorsOfDirsStop(stopOn1stErr, dirs[1..], files);
        GoingOn(stopOn1stErr, NoYamls(files), rest);
        GoingOn(stopOn1stErr, errs, NoYamls(files) + rest);
      }
    }
  }

  /** `files` have been found, and `errs` reported, once the directories before `i` are scanned. */
  ghost predicate ScannedUpTo(stopOn1stErr: bool, dirs: seq<seq<WalkEvent>>, i: nat, files: seq<YamlFile>,
                              errs: seq<FileProcessingError>)
    requires i <= |dirs|
  {
    && FilesOfDirs(stopOn1stErr, dirs) == files + FilesOfDirs(stopOn1stErr, dirs[i..])
    && ErrorsOfDirs(stopOn1stErr, dirs, []) == errs + ErrorsOfDirs(stopOn1stErr, dirs[i..], files)
  }

  lemma ScanBegins(stopOn1stErr: bool, dirs: seq<seq<WalkEvent>>)
    ensures ScannedUpTo(stopOn1stErr, dirs, 0, [], [])
  {
    assert dirs[0..] == dirs;
  }

  lemma {:induction false} ScanStep(stopOn1stErr: bool, dirs: seq<seq<WalkEvent>>, i: nat, files: seq<YamlFile>,
                                    errs: seq<FileProcessingError>)
    requires i < |dirs| && ScannedUpTo(stopOn1stErr, dirs, i, files, errs)
    ensures var files', errs' := files + FilesOfDir(stopOn1stErr, dirs[i]), errs + ErrorsOfDir(stopOn1stErr, dirs[i]);
            if DirStops(stopOn1stErr, dirs[i]) then ErrorsOfDirs(stopOn1stErr, dirs, []) == errs'
            else ScannedUpTo(stopOn1stErr, dirs, i + 1, files', errs' + NoYamls(files'))
  {
    hide FilesOfDir, ErrorsOfDir, DirStops;
    var rest := dirs[i..];
    assert rest[0] == dirs[i] && rest[1..] == dirs[i + 1..];
    var found, failed := FilesOfDir(stopOn1stErr, dirs[i]), ErrorsOfDir(stopOn1stErr, dirs[i]);
    Associates(files, found, FilesOfDirs(stopOn1stErr, dirs[i + 1..]));
    var late := ErrorsOfDirs(stopOn1stErr, dirs[i + 1..], files + found);
    Associates(failed, NoYamls(files + found), late);
    Associates(errs, failed, NoYamls(files + found) + late);
    Associates(errs + failed, NoYamls(files + found), late);
  }

  lemma ScanEnds(stopOn1stErr: bool, dirs: seq<seq<WalkEvent>>, files: seq<YamlFile>, errs: seq<FileProcessingError>)
    requires ScannedUpTo(stopOn1stErr, dirs, |dirs|, files, errs)
    ensures FilesOfDirs(stopOn1stErr, dirs) == files && ErrorsOfDirs(stopOn1stErr, dirs, []) == errs
  {
  }
}
