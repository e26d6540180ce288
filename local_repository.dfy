/**
  The local repository: where the store lives on disk, how it is loaded
  (main store plus one shard per external drive, attached under each
  database's `external` key) and how it is saved (the reverse split, the
  removal of the legacy zip and of stale shards, and the last-successful-run
  marker), plus the provider that hands out the one repository instance.
 */
module LocalRepositories {
  import opened Wrappers
  import opened PosixPaths
  import opened Stores
  import opened FileSystems

  /**
    The file names the repository uses. The constants module is not part of
    this model; a name format with one `%s` is given as the text before and
    after the `%s`.
   */
  datatype FileNames = FileNames(
    storageJson: string,
    storageZip: string,
    externalStorage: string,
    lastRunPrefix: string,
    lastRunSuffix: string,
    logPrefix: string,
    logSuffix: string)

  /** The configuration entries the repository reads. */
  datatype RepoConfig = RepoConfig(baseSystemPath: string, configPath: PurePath, logfile: Option<string>)

  /** The outcome of the store migrator on one store: migrated, a failure, or the unreachable-state error. */
  datatype Migration = Migrated(store: LocalStore) | MigrationError | UnreachableError

  /**
    The store migrator and the store constructors, whose code is not part of
    this model: the fresh store, the empty database record, and migration.
   */
  datatype StoreKit = StoreKit(newStore: LocalStore, emptyDb: DbStore, migrate: LocalStore -> Migration)

  /** The errors `load_store` lets through. */
  datatype LoadError = MigrationFailed | UnreachableRaised

  // ---------------------------------------------------------------------
  // Paths
  // ---------------------------------------------------------------------

  function JsonPath(cfg: RepoConfig, names: FileNames): Path
  {
    cfg.baseSystemPath + "/" + names.storageJson
  }

  function ZipPath(cfg: RepoConfig, names: FileNames): Path
  {
    cfg.baseSystemPath + "/" + names.storageZip
  }

  /** The last-successful-run marker, named after the stem of the configuration file. */
  function MarkerPath(cfg: RepoConfig, names: FileNames): Path
  {
    cfg.baseSystemPath + "/" + (names.lastRunPrefix + Stem(cfg.configPath) + names.lastRunSuffix)
  }

  /** The log file used when the configuration names none. */
  function DefaultLogPath(cfg: RepoConfig, names: FileNames): Path
  {
    cfg.baseSystemPath + "/" + (names.logPrefix + Stem(cfg.configPath) + names.logSuffix)
  }

  /** Where drive `d` keeps its shard. */
  function ShardPath(names: FileNames, d: Drive): Path
  {
    d + "/" + names.externalStorage
  }

  /** Different drives keep their shards at different paths. */
  lemma {:induction false} ShardPathInjective(names: FileNames, a: Drive, b: Drive)
    ensures ShardPath(names, a) == ShardPath(names, b) <==> a == b
  {
    if ShardPath(names, a) == ShardPath(names, b) {
      var tail := "/" + names.externalStorage;
      assert |a| == |b|;
      assert a == ShardPath(names, a)[..|a|];
      assert b == ShardPath(names, b)[..|b|];
    }
  }

  /** The path the store is loaded from: the legacy zip when it is a file, the json path otherwise. */
  function LoadPathFor(files: map<Path, Content>, cfg: RepoConfig, names: FileNames): (p: Path)
    ensures p == ZipPath(cfg, names) || p == JsonPath(cfg, names)
    ensures ZipPath(cfg, names) in files ==> p == ZipPath(cfg, names)
    ensures p == ZipPath(cfg, names) && ZipPath(cfg, names) != JsonPath(cfg, names) ==> ZipPath(cfg, names) in files
  {
    if ZipPath(cfg, names) in files then ZipPath(cfg, names) else JsonPath(cfg, names)
  }

  /** The log file: the configured one, else the default one. */
  function LogPathFor(cfg: RepoConfig, names: FileNames): (p: Path)
    ensures cfg.logfile.Some? ==> p == cfg.logfile.value
    ensures cfg.logfile.None? ==> p == DefaultLogPath(cfg, names)
  {
    if cfg.logfile.Some? then cfg.logfile.value else DefaultLogPath(cfg, names)
  }

  // ---------------------------------------------------------------------
  // Loading
  // ---------------------------------------------------------------------

  /** The main store as read: the stored one when it loads, a fresh store otherwise. */
  function ReadMainStore(files: map<Path, Content>, loadPath: Path, kit: StoreKit): (s: LocalStore)
    ensures loadPath in files && files[loadPath].StoreFile? ==> s == files[loadPath].store
    ensures !(loadPath in files && files[loadPath].StoreFile?) ==> s == kit.newStore
  {
    var loaded := LoadDict(files, loadPath);
    if loaded.Ok? then loaded.value else kit.newStore
  }

  /** The migrated main store; any migration failure is fatal. */
  function MainStore(files: map<Path, Content>, loadPath: Path, kit: StoreKit): (r: Result<LocalStore, LoadError>)
    ensures r.Ok? <==> kit.migrate(ReadMainStore(files, loadPath, kit)).Migrated?
    ensures r.Ok? ==> r.value == kit.migrate(ReadMainStore(files, loadPath, kit)).store
    ensures r == Err(UnreachableRaised) <==> kit.migrate(ReadMainStore(files, loadPath, kit)).UnreachableError?
  {
    match kit.migrate(ReadMainStore(files, loadPath, kit))
    case Migrated(s) => Ok(s)
    case MigrationError => Err(MigrationFailed)
    case UnreachableError => Err(UnreachableRaised)
  }

  /**
    The shard of drive `d` as the load sees it: nothing when the file is
    missing, does not load or fails to migrate; the unreachable-state error
    is passed on.
   */
  function DriveShard(files: map<Path, Content>, names: FileNames, kit: StoreKit, d: Drive)
    : (r: Result<Option<LocalStore>, LoadError>)
    ensures r.Err? <==> (LoadDict(files, ShardPath(names, d)).Ok?
                         && kit.migrate(LoadDict(files, ShardPath(names, d)).value).UnreachableError?)
    ensures r.Err? ==> r.error == UnreachableRaised
    ensures (r.Ok? && r.value.Some?) <==> (LoadDict(files, ShardPath(names, d)).Ok?
                                           && kit.migrate(LoadDict(files, ShardPath(names, d)).value).Migrated?)
    ensures r.Ok? && r.value.Some? ==> r.value.value == kit.migrate(LoadDict(files, ShardPath(names, d)).value).store
  {
    var p := ShardPath(names, d);
    if p !in files then Ok(None)
    else match LoadDict(files, p)
      case Err(_) => Ok(None)
      case Ok(s) =>
        match kit.migrate(s)
        case Migrated(m) => Ok(Some(m))
        case MigrationError => Ok(None)
        case UnreachableError => Err(UnreachableRaised)
  }

  /** The drives processed in order; the first unreachable-state error stops the load. */
  function MergeDrives(files: map<Path, Content>, names: FileNames, kit: StoreKit, store: LocalStore, drives: seq<Drive>)
    : (r: Result<LocalStore, LoadError>)
    ensures r.Ok? ==> r.value == store.(dbs := r.value.dbs) && store.dbs.Keys <= r.value.dbs.Keys
    ensures r.Err? ==> r.error == UnreachableRaised
    decreases |drives|
  {
    if drives == [] then Ok(store)
    else
      match MergeDrives(files, names, kit, store, drives[..|drives| - 1])
      case Err(e) => Err(e)
      case Ok(acc) =>
        var d := drives[|drives| - 1];
        match DriveShard(files, names, kit, d)
        case Err(e) => Err(e)
        case Ok(None) => Ok(acc)
        case Ok(Some(shard)) => Ok(acc.(dbs := MergeShard(acc.dbs, d, shard.dbs, kit.emptyDb)))
  }

  /** What `load_store` returns, given the files, the load path and the connected drives. */
  function LoadSpec(files: map<Path, Content>, loadPath: Path, names: FileNames, kit: StoreKit, drives: seq<Drive>)
    : (r: Result<LocalStore, LoadError>)
    ensures MainStore(files, loadPath, kit).Err? ==> r == Err(MainStore(files, loadPath, kit).error)
    ensures r.Ok? ==>
      && MainStore(files, loadPath, kit).Ok?
      && var main := MainStore(files, loadPath, kit).value;
         r.value == main.(dbs := r.value.dbs) && main.dbs.Keys <= r.value.dbs.Keys
  {
    match MainStore(files, loadPath, kit)
    case Err(e) => Err(e)
    case Ok(main) => MergeDrives(files, names, kit, main, drives)
  }

  /** Once a prefix of the drives has failed, the whole load has failed the same way. */
  lemma {:induction false} MergeDrivesErrorSticks(
    files: map<Path, Content>, names: FileNames, kit: StoreKit, store: LocalStore, drives: seq<Drive>, k: nat)
    requires k <= |drives|
    requires MergeDrives(files, names, kit, store, drives[..k]).Err?
    ensures MergeDrives(files, names, kit, store, drives) == MergeDrives(files, names, kit, store, drives[..k])
    decreases |drives| - k
  {
    if k < |drives| {
      assert drives[..k + 1][..k] == drives[..k];
      MergeDrivesErrorSticks(files, names, kit, store, drives, k + 1);
    } else {
      assert drives[..k] == drives;
    }
  }

  /** The load fails exactly when some drive's shard raises the unreachable-state error. */
  lemma {:induction false} MergeDrivesFailsIffUnreachable(
    files: map<Path, Content>, names: FileNames, kit: StoreKit, store: LocalStore, drives: seq<Drive>)
    ensures MergeDrives(files, names, kit, store, drives).Err?
        <==> exists i :: 0 <= i < |drives| && DriveShard(files, names, kit, drives[i]).Err?
    ensures MergeDrives(files, names, kit, store, drives).Err? ==>
            MergeDrives(files, names, kit, store, drives).error == UnreachableRaised
    decreases |drives|
  {
    if drives != [] {
      var init := drives[..|drives| - 1];
      MergeDrivesFailsIffUnreachable(files, names, kit, store, init);
      if exists i :: 0 <= i < |init| && DriveShard(files, names, kit, init[i]).Err? {
        var i :| 0 <= i < |init| && DriveShard(files, names, kit, init[i]).Err?;
        assert drives[i] == init[i];
      }
      if exists i :: 0 <= i < |drives| && DriveShard(files, names, kit, drives[i]).Err? {
        var i :| 0 <= i < |drives| && DriveShard(files, names, kit, drives[i]).Err?;
        if i < |init| {
          assert init[i] == drives[i];
        }
      }
    }
  }

  /** A drive whose shard is skipped does not affect the result; the drives after it are still processed. */
  lemma {:induction false} SkippedDriveIsIgnored(
    files: map<Path, Content>, names: FileNames, kit: StoreKit, store: LocalStore,
    before: seq<Drive>, d: Drive, after: seq<Drive>)
    requires DriveShard(files, names, kit, d) == Ok(None)
    ensures MergeDrives(files, names, kit, store, before + [d] + after)
         == MergeDrives(files, names, kit, store, before + after)
    decreases |after|
  {
    if after == [] {
      assert (before + [d] + after)[..|before|] == before;
      assert before + after == before;
    } else {
      var init := after[..|after| - 1];
      SkippedDriveIsIgnored(files, names, kit, store, before, d, init);
      assert (before + [d] + after)[..|before + [d] + after| - 1] == before + [d] + init;
      assert (before + after)[..|before + after| - 1] == before + init;
    }
  }

  /**
    When every drive's shard is the one in `shards` (or is skipped for
    drives not in it), the load attaches exactly those shards in order.
   */
  lemma {:induction false} MergeDrivesAttachesShards(
    files: map<Path, Content>, names: FileNames, kit: StoreKit, store: LocalStore, drives: seq<Drive>,
    shards: map<Drive, LocalStore>)
    requires forall i :: 0 <= i < |drives| ==>
      DriveShard(files, names, kit, drives[i]) == if drives[i] in shards then Ok(Some(shards[drives[i]])) else Ok(None)
    ensures MergeDrives(files, names, kit, store, drives)
         == Ok(store.(dbs := MergeShards(store.dbs, drives, shards, kit.emptyDb)))
    decreases |drives|
  {
    if drives != [] {
      var init := drives[..|drives| - 1];
      MergeDrivesAttachesShards(files, names, kit, store, init, shards);
    }
  }

  // ---------------------------------------------------------------------
  // Saving
  // ---------------------------------------------------------------------

  /** The main store as saved: every `external` key removed. */
  function SavedMain(store: LocalStore): (m: LocalStore)
    ensures m.dbs.Keys == store.dbs.Keys
    ensures forall id :: id in m.dbs ==> m.dbs[id].external.None? && m.dbs[id].fields == store.dbs[id].fields
    ensures m.internal == store.internal && m.fields == store.fields
  {
    store.(dbs := StripExternal(store.dbs))
  }

  /** The shards saved: one per drive that holds an entry. */
  function SavedShards(store: LocalStore, kit: StoreKit): map<Drive, LocalStore>
  {
    Shards(kit.newStore, Externals(store.dbs))
  }

  /** Writing the main store. */
  function MainOps(json: Path, main: LocalStore): seq<FsOp>
  {
    [MakeDirsParent(json), SaveJson(json, main)]
  }

  /** Removing the legacy zip, once both it and the new json are present. */
  function ZipOps(files: map<Path, Content>, json: Path, zip: Path): seq<FsOp>
  {
    if zip in files && json in files then [Unlink(zip)] else []
  }

  /** Writing the shards, in the given drive order. */
  function ShardOps(names: FileNames, shards: map<Drive, LocalStore>, order: seq<Drive>): (ops: seq<FsOp>)
    requires forall i :: 0 <= i < |order| ==> order[i] in shards
    ensures |ops| == |order|
    ensures forall i :: 0 <= i < |order| ==> ops[i] == SaveJson(ShardPath(names, order[i]), shards[order[i]])
    decreases |order|
  {
    if order == [] then []
    else
      var d := order[|order| - 1];
      ShardOps(names, shards, order[..|order| - 1]) + [SaveJson(ShardPath(names, d), shards[d])]
  }

  /** Removing the shard files, where they exist, of the given drives. */
  function CleanOps(files: map<Path, Content>, names: FileNames, order: seq<Drive>): (ops: seq<FsOp>)
    ensures forall i :: 0 <= i < |ops| ==> ops[i].Unlink? && exists j :: 0 <= j < |order| && ops[i].path == ShardPath(names, order[j])
    ensures forall i :: 0 <= i < |ops| ==> ops[i].path in files
    ensures forall j :: 0 <= j < |order| && ShardPath(names, order[j]) in files ==> Unlink(ShardPath(names, order[j])) in ops
    decreases |order|
  {
    if order == [] then []
    else
      var init := CleanOps(files, names, order[..|order| - 1]);
      var p := ShardPath(names, order[|order| - 1]);
      var ops := if p in files then init + [Unlink(p)] else init;
      assert forall i :: 0 <= i < |init| ==> exists j :: 0 <= j < |order| && init[i].path == ShardPath(names, order[j]) by {
        forall i | 0 <= i < |init|
          ensures exists j :: 0 <= j < |order| && init[i].path == ShardPath(names, order[j])
        {
          var j :| 0 <= j < |order| - 1 && init[i].path == ShardPath(names, order[..|order| - 1][j]);
          assert order[..|order| - 1][j] == order[j];
        }
      }
      ops
  }

  /**
    Every write of a saving run, in order: the main store, the legacy zip's
    removal, the shards, the stale shards' removal, the marker.
   */
  function SaveOps(files: map<Path, Content>, cfg: RepoConfig, names: FileNames, kit: StoreKit,
                   store: LocalStore, shardOrder: seq<Drive>, cleanOrder: seq<Drive>): (ops: seq<FsOp>)
    requires forall i :: 0 <= i < |shardOrder| ==> shardOrder[i] in SavedShards(store, kit)
    ensures |ops| >= 3 + |shardOrder|
    ensures ops[0] == MakeDirsParent(JsonPath(cfg, names)) && ops[1] == SaveJson(JsonPath(cfg, names), SavedMain(store))
    ensures ops[|ops| - 1] == Touch(MarkerPath(cfg, names))
  {
    var json := JsonPath(cfg, names);
    var main := MainOps(json, SavedMain(store));
    var zip := ZipOps(Replay(files, main), json, ZipPath(cfg, names));
    var shards := ShardOps(names, SavedShards(store, kit), shardOrder);
    var clean := CleanOps(Replay(files, main + zip + shards), names, cleanOrder);
    main + zip + shards + clean + [Touch(MarkerPath(cfg, names))]
  }

  // ---------------------------------------------------------------------
  // Objects
  // ---------------------------------------------------------------------

  /** A loaded store and whether it has changed since. */
  class LocalStoreWrapper {
    var store: LocalStore
    var dirty: bool

    constructor(store0: LocalStore)
      ensures store == store0 && !dirty
    {
      store := store0;
      dirty := false;
    }

    method MarkForSave()
      modifies this
      ensures dirty && store == old(store)
    {
      dirty := true;
    }

    method NeedsSave() returns (b: bool)
      ensures b == dirty
    {
      b := dirty;
    }
  }

  class LocalRepository {
    const cfg: RepoConfig
    const names: FileNames
    const kit: StoreKit
    const fs: FileSystem
    var storagePathSaveValue: Option<Path>
    var storagePathOldValue: Option<Path>
    var storagePathLoadValue: Option<Path>
    var lastSuccessfulRunValue: Option<Path>
    var logfilePathValue: Option<Path>

    /** The memoised paths, once set, hold what they were computed from. */
    ghost predicate Valid()
      reads this, fs
    {
      && fs.Valid()
      && (storagePathSaveValue.Some? ==> storagePathSaveValue.value == JsonPath(cfg, names))
      && (storagePathOldValue.Some? ==> storagePathOldValue.value == ZipPath(cfg, names))
      && (storagePathLoadValue.Some? ==>
            storagePathLoadValue.value == ZipPath(cfg, names) || storagePathLoadValue.value == JsonPath(cfg, names))
      && (lastSuccessfulRunValue.Some? ==> lastSuccessfulRunValue.value == MarkerPath(cfg, names))
    }

    constructor(cfg: RepoConfig, names: FileNames, kit: StoreKit, fs: FileSystem)
      requires fs.Valid()
      ensures this.cfg == cfg && this.names == names && this.kit == kit && this.fs == fs
      ensures storagePathSaveValue.None? && storagePathOldValue.None? && storagePathLoadValue.None?
      ensures lastSuccessfulRunValue.None? && logfilePathValue.None?
      ensures Valid()
    {
      this.cfg := cfg;
      this.names := names;
      this.kit := kit;
      this.fs := fs;
      storagePathSaveValue := None;
      storagePathOldValue := None;
      storagePathLoadValue := None;
      lastSuccessfulRunValue := None;
      logfilePathValue := None;
    }

    method StorageSavePath() returns (p: Path)
      requires Valid()
      modifies this`storagePathSaveValue
      ensures Valid()
      ensures p == JsonPath(cfg, names) && storagePathSaveValue == Some(p)
    {
      if storagePathSaveValue.None? {
        storagePathSaveValue := Some(JsonPath(cfg, names));
      }
      p := storagePathSaveValue.value;
    }

    method StorageOldPath() returns (p: Path)
      requires Valid()
      modifies this`storagePathOldValue
      ensures Valid()
      ensures p == ZipPath(cfg, names) && storagePathOldValue == Some(p)
    {
      if storagePathOldValue.None? {
        storagePathOldValue := Some(ZipPath(cfg, names));
      }
      p := storagePathOldValue.value;
    }

    /** The load path is chosen on first use and kept afterwards, whatever the files become. */
    method StorageLoadPath() returns (p: Path)
      requires Valid()
      modifies this`storagePathLoadValue, this`storagePathOldValue, this`storagePathSaveValue
      ensures Valid()
      ensures old(storagePathLoadValue).Some? ==> p == old(storagePathLoadValue).value
      ensures old(storagePathLoadValue).None? ==> p == LoadPathFor(fs.files, cfg, names)
      ensures storagePathLoadValue == Some(p)
    {
      if storagePathLoadValue.None? {
        var oldPath := StorageOldPath();
        var isFile := fs.IsFile(oldPath);
        var storePath;
        if isFile {
          storePath := oldPath;
        } else {
          storePath := StorageSavePath();
        }
        storagePathLoadValue := Some(storePath);
      }
      p := storagePathLoadValue.value;
    }

    method LastSuccessfulRun() returns (p: Path)
      requires Valid()
      modifies this`lastSuccessfulRunValue
      ensures Valid()
      ensures p == MarkerPath(cfg, names) && lastSuccessfulRunValue == Some(p)
    {
      if lastSuccessfulRunValue.None? {
        lastSuccessfulRunValue := Some(MarkerPath(cfg, names));
      }
      p := lastSuccessfulRunValue.value;
    }

    /** The log file is chosen on first use, unless set explicitly. */
    method LogfilePath() returns (p: Path)
      modifies this`logfilePathValue
      ensures old(logfilePathValue).Some? ==> p == old(logfilePathValue).value
      ensures old(logfilePathValue).None? ==> p == LogPathFor(cfg, names)
      ensures logfilePathValue == Some(p)
    {
      if logfilePathValue.None? {
        if cfg.logfile.Some? {
          logfilePathValue := cfg.logfile;
        } else {
          logfilePathValue := Some(DefaultLogPath(cfg, names));
        }
      }
      p := logfilePathValue.value;
    }

    /** Setting the log file path; setting nothing makes the next use choose again. */
    method SetLogfilePath(value: Option<Path>)
      modifies this`logfilePathValue
      ensures logfilePathValue == value
    {
      logfilePathValue := value;
    }

    method HasLastSuccessfulRun() returns (b: bool)
      requires Valid()
      modifies this`lastSuccessfulRunValue
      ensures Valid()
      ensures b <==> MarkerPath(cfg, names) in fs.files
      ensures lastSuccessfulRunValue == Some(MarkerPath(cfg, names))
    {
      var marker := LastSuccessfulRun();
      b := fs.IsFile(marker);
    }

    /** Loads the main store and attaches the shards of the connected drives, in their order. */
    method LoadStore(drives: seq<Drive>) returns (r: Result<LocalStoreWrapper, LoadError>)
      requires Valid()
      modifies this`storagePathLoadValue, this`storagePathOldValue, this`storagePathSaveValue
      ensures Valid()
      ensures var loadPath := if old(storagePathLoadValue).Some? then old(storagePathLoadValue).value
                              else LoadPathFor(fs.files, cfg, names);
        var spec := LoadSpec(fs.files, loadPath, names, kit, drives);
        && storagePathLoadValue == Some(loadPath)
        && (r.Ok? ==> spec == Ok(r.value.store) && fresh(r.value) && !r.value.dirty)
        && (r.Err? ==> spec == Err(r.error))
    {
      var loadPath := StorageLoadPath();
      r := LoadFrom(fs, names, kit, loadPath, drives);
    }

    /**
      Saves a changed store: the split, the main json, the legacy zip's
      removal, the shards, the stale shards' removal and the marker. The
      order the shards and the stale drives are visited in is returned.
     */
    method SaveStore(w: LocalStoreWrapper, connected: seq<Drive>) returns (ghost shardOrder: seq<Drive>, ghost cleanOrder: seq<Drive>)
      requires Valid()
      modifies this`storagePathSaveValue, this`storagePathOldValue, this`lastSuccessfulRunValue, fs, w`store
      ensures Valid()
      ensures w.dirty == old(w.dirty)
      ensures !old(w.dirty) ==> unchanged(fs, w)
      ensures old(w.dirty) ==>
        SavedRun(cfg, names, kit, connected, old(fs.files), old(fs.log), old(w.store), shardOrder, cleanOrder,
                 fs.files, fs.log, w.store)
    {
      shardOrder := [];
      cleanOrder := [];
      var needsSave := w.NeedsSave();
      if needsSave {
        var json := StorageSavePath();
        var zip := StorageOldPath();
        var marker := LastSuccessfulRun();
        shardOrder, cleanOrder := WriteStore(fs, cfg, names, kit, w, connected, json, zip, marker);
      }
    }
  }

  /**
    The writes of a saving run, given its three paths: the split, the main
    json, the legacy zip's removal, the shards, the stale shards' removal
    and the marker.
   */
  method WriteStore(fs: FileSystem, cfg: RepoConfig, names: FileNames, kit: StoreKit, w: LocalStoreWrapper,
                    connected: seq<Drive>, json: Path, zip: Path, marker: Path)
    returns (ghost shardOrder: seq<Drive>, ghost cleanOrder: seq<Drive>)
    requires fs.Valid()
    requires json == JsonPath(cfg, names) && zip == ZipPath(cfg, names) && marker == MarkerPath(cfg, names)
    modifies fs, w`store
    ensures fs.Valid()
    ensures SavedRun(cfg, names, kit, connected, old(fs.files), old(fs.log), old(w.store), shardOrder, cleanOrder,
                     fs.files, fs.log, w.store)
  {
    ghost var files0 := fs.files;
    ghost var log0 := fs.log;
    ghost var store0 := w.store;
    var main, externalStores := SplitExternal(w.store.dbs, kit.newStore);
    w.store := w.store.(dbs := main);

    WriteMainJson(fs, json, w.store);
    ghost var files1 := fs.files;
    RemoveLegacyZip(fs, json, zip);

    var externalDrives := set d | d in connected;
    var stale;
    stale, shardOrder := WriteShards(fs, names, externalStores, externalDrives);
    ghost var files3 := fs.files;
    cleanOrder := CleanStaleShards(fs, names, stale);

    fs.Perform(Touch(marker));

    SaveOpsRuns(files0, cfg, names, kit, store0, shardOrder, cleanOrder);
    ConcatFive(log0, MainOps(json, w.store), ZipOps(files1, json, zip), ShardOps(names, externalStores, shardOrder),
               CleanOps(files3, names, cleanOrder), [Touch(marker)]);
  }

  /** The load from a given path: the main store, then each drive's shard. */
  method LoadFrom(fs: FileSystem, names: FileNames, kit: StoreKit, loadPath: Path, drives: seq<Drive>)
    returns (r: Result<LocalStoreWrapper, LoadError>)
    ensures var spec := LoadSpec(fs.files, loadPath, names, kit, drives);
      && (r.Ok? ==> spec == Ok(r.value.store) && fresh(r.value) && !r.value.dirty)
      && (r.Err? ==> spec == Err(r.error))
  {
    var main := LoadMain(fs, loadPath, kit);
    if main.Err? {
      r := Err(main.error);
    } else {
      var merged := LoadDrives(fs, names, kit, main.value, drives);
      if merged.Err? {
        r := Err(merged.error);
      } else {
        var w := new LocalStoreWrapper(merged.value);
        r := Ok(w);
      }
    }
  }

  /**
    What a saving run leaves behind, starting from files `files0`, log
    `log0` and store `store0`: every shard written once, every connected
    drive without a shard cleaned once, the main store stripped of its
    external parts, and exactly the writes of `SaveOps` made.
   */
  ghost predicate SavedRun(cfg: RepoConfig, names: FileNames, kit: StoreKit, connected: seq<Drive>,
                           files0: map<Path, Content>, log0: seq<FsOp>, store0: LocalStore,
                           shardOrder: seq<Drive>, cleanOrder: seq<Drive>,
                           files: map<Path, Content>, log: seq<FsOp>, store: LocalStore)
  {
    && (forall i :: 0 <= i < |shardOrder| ==> shardOrder[i] in SavedShards(store0, kit))
    && (forall d :: d in SavedShards(store0, kit) ==> d in shardOrder)
    && Distinct(shardOrder)
    && (forall d :: d in cleanOrder <==> d in connected && d !in SavedShards(store0, kit))
    && Distinct(cleanOrder)
    && store == SavedMain(store0)
    && log == log0 + SaveOps(files0, cfg, names, kit, store0, shardOrder, cleanOrder)
    && files == Replay(files0, SaveOps(files0, cfg, names, kit, store0, shardOrder, cleanOrder))
  }

  /** Whether no element of `s` occurs twice. */
  predicate Distinct<T(==)>(s: seq<T>)
  {
    forall i, j :: 0 <= i < j < |s| ==> s[i] != s[j]
  }

  /** `order` lists each element of `done` exactly once, and nothing else. */
  predicate VisitedOnce<T(==)>(order: seq<T>, done: set<T>)
  {
    && (forall i :: 0 <= i < |order| ==> order[i] in done)
    && (forall x :: x in done ==> x in order)
    && Distinct(order)
  }

  /** Visiting one more element. */
  lemma VisitOnce<T>(order: seq<T>, done: set<T>, x: T)
    requires VisitedOnce(order, done) && x !in done
    ensures VisitedOnce(order + [x], done + {x})
  {
    DistinctSnoc(order, x);
  }

  /** Appending an element that does not occur keeps a sequence free of repeats. */
  lemma DistinctSnoc<T>(s: seq<T>, x: T)
    requires Distinct(s)
    requires forall i :: 0 <= i < |s| ==> s[i] != x
    ensures Distinct(s + [x])
  {
  }

  /** Writing one more shard. */
  lemma ShardOpsSnoc(names: FileNames, shards: map<Drive, LocalStore>, order: seq<Drive>, d: Drive)
    requires forall i :: 0 <= i < |order| ==> order[i] in shards
    requires d in shards
    ensures ShardOps(names, shards, order + [d]) == ShardOps(names, shards, order) + [SaveJson(ShardPath(names, d), shards[d])]
  {
    assert (order + [d])[..|order|] == order;
  }

  lemma ConcatAssoc<T>(a: seq<T>, b: seq<T>, c: seq<T>)
    ensures a + b + c == a + (b + c)
  {
  }

  /** Cleaning one more drive. */
  lemma CleanOpsSnoc(files: map<Path, Content>, names: FileNames, order: seq<Drive>, d: Drive)
    ensures CleanOps(files, names, order + [d])
         == CleanOps(files, names, order) + (if ShardPath(names, d) in files then [Unlink(ShardPath(names, d))] else [])
  {
    assert (order + [d])[..|order|] == order;
  }

  lemma ConcatFive<T>(l: seq<T>, a: seq<T>, b: seq<T>, c: seq<T>, e: seq<T>, t: seq<T>)
    ensures l + a + b + c + e + t == l + (a + b + c + e + t)
  {
  }

  /** The writes of a saving run, run by run: each run sees the files the previous ones left. */
  lemma {:induction false} SaveOpsRuns(files: map<Path, Content>, cfg: RepoConfig, names: FileNames, kit: StoreKit,
                                       store: LocalStore, shardOrder: seq<Drive>, cleanOrder: seq<Drive>)
    requires forall i :: 0 <= i < |shardOrder| ==> shardOrder[i] in SavedShards(store, kit)
    ensures var json := JsonPath(cfg, names);
      var a := MainOps(json, SavedMain(store));
      var b := ZipOps(Replay(files, a), json, ZipPath(cfg, names));
      var c := ShardOps(names, SavedShards(store, kit), shardOrder);
      var e := CleanOps(Replay(Replay(Replay(files, a), b), c), names, cleanOrder);
      var t := Touch(MarkerPath(cfg, names));
      && SaveOps(files, cfg, names, kit, store, shardOrder, cleanOrder) == a + b + c + e + [t]
      && Replay(files, a + b + c + e + [t]) == Apply(Replay(Replay(Replay(Replay(files, a), b), c), e), t)
  {
    var json := JsonPath(cfg, names);
    var a := MainOps(json, SavedMain(store));
    var b := ZipOps(Replay(files, a), json, ZipPath(cfg, names));
    var c := ShardOps(names, SavedShards(store, kit), shardOrder);
    var e := CleanOps(Replay(Replay(Replay(files, a), b), c), names, cleanOrder);
    var t := Touch(MarkerPath(cfg, names));
    ReplayAppend(files, a, b);
    ReplayAppend(files, a + b, c);
    ReplayAppend(files, a + b + c, e);
    ReplaySnoc(files, a + b + c + e, t);
  }

  /** The main part of the load: read the main store and migrate it. */
  method LoadMain(fs: FileSystem, loadPath: Path, kit: StoreKit) returns (r: Result<LocalStore, LoadError>)
    ensures r == MainStore(fs.files, loadPath, kit)
  {
    var store := ReadMain(fs, loadPath, kit);
    var migrated := kit.migrate(store);
    match migrated {
      case Migrated(s) => r := Ok(s);
      case MigrationError => r := Err(MigrationFailed);
      case UnreachableError => r := Err(UnreachableRaised);
    }
  }

  /** Reads the main store: the stored one when the load path holds one, a fresh store otherwise. */
  method ReadMain(fs: FileSystem, loadPath: Path, kit: StoreKit) returns (store: LocalStore)
    ensures store == ReadMainStore(fs.files, loadPath, kit)
  {
    var isFile := fs.IsFile(loadPath);
    if isFile {
      var loaded := fs.LoadDictFromFile(loadPath);
      if loaded.Ok? {
        store := loaded.value;
      } else {
        store := kit.newStore;
      }
    } else {
      store := kit.newStore;
    }
  }

  /** The drive loop of the load: attaches each drive's shard in turn, stopping at the first error. */
  method LoadDrives(fs: FileSystem, names: FileNames, kit: StoreKit, store0: LocalStore, drives: seq<Drive>)
    returns (r: Result<LocalStore, LoadError>)
    ensures r == MergeDrives(fs.files, names, kit, store0, drives)
  {
    var store := store0;
    var i := 0;
    while i < |drives|
      invariant 0 <= i <= |drives|
      invariant MergeDrives(fs.files, names, kit, store0, drives[..i]) == Ok(store)
    {
      var d := drives[i];
      MergeDrivesStep(fs.files, names, kit, store0, drives, i, store);
      var shard := LoadShard(fs, names, kit, d);
      if shard.Err? {
        MergeDrivesErrorSticks(fs.files, names, kit, store0, drives, i + 1);
        return Err(shard.error);
      }
      if shard.value.Some? {
        var merged := MergeShardInto(store.dbs, d, shard.value.value.dbs, kit.emptyDb);
        store := store.(dbs := merged);
      }
      i := i + 1;
    }
    assert drives[..i] == drives;
    r := Ok(store);
  }

  /** One drive of the load: its shard, when the file exists, loads and migrates. */
  method LoadShard(fs: FileSystem, names: FileNames, kit: StoreKit, d: Drive)
    returns (r: Result<Option<LocalStore>, LoadError>)
    ensures r == DriveShard(fs.files, names, kit, d)
  {
    var p := d + "/" + names.externalStorage;
    var isFile := fs.IsFile(p);
    if !isFile {
      return Ok(None);
    }
    var loaded := fs.LoadDictFromFile(p);
    if loaded.Err? {
      return Ok(None);
    }
    var m := kit.migrate(loaded.value);
    match m {
      case Migrated(s) => r := Ok(Some(s));
      case MigrationError => r := Ok(None);
      case UnreachableError => r := Err(UnreachableRaised);
    }
  }

  /** One more drive processed by the load. */
  lemma {:induction false} MergeDrivesStep(
    files: map<Path, Content>, names: FileNames, kit: StoreKit, store: LocalStore, drives: seq<Drive>, i: nat,
    acc: LocalStore)
    requires i < |drives|
    requires MergeDrives(files, names, kit, store, drives[..i]) == Ok(acc)
    ensures MergeDrives(files, names, kit, store, drives[..i + 1])
         == match DriveShard(files, names, kit, drives[i])
            case Err(e) => Err(e)
            case Ok(None) => Ok(acc)
            case Ok(Some(shard)) => Ok(acc.(dbs := MergeShard(acc.dbs, drives[i], shard.dbs, kit.emptyDb)))
  {
    assert drives[..i + 1][..i] == drives[..i];
  }

  /** Creates the json's directory and writes the main store to it. */
  method WriteMainJson(fs: FileSystem, json: Path, main: LocalStore)
    requires fs.Valid()
    modifies fs
    ensures fs.Valid()
    ensures fs.log == old(fs.log) + MainOps(json, main)
    ensures fs.files == Replay(old(fs.files), MainOps(json, main))
  {
    ghost var files0 := fs.files;
    ReplaySnoc(files0, [], MakeDirsParent(json));
    fs.Perform(MakeDirsParent(json));
    ReplaySnoc(files0, [MakeDirsParent(json)], SaveJson(json, main));
    fs.Perform(SaveJson(json, main));
  }

  /** Removes the legacy zip when both it and the json are files. */
  method RemoveLegacyZip(fs: FileSystem, json: Path, zip: Path)
    requires fs.Valid()
    modifies fs
    ensures fs.Valid()
    ensures fs.log == old(fs.log) + ZipOps(old(fs.files), json, zip)
    ensures fs.files == Replay(old(fs.files), ZipOps(old(fs.files), json, zip))
  {
    var zipIsFile := fs.IsFile(zip);
    if zipIsFile {
      var jsonIsFile := fs.IsFile(json);
      if jsonIsFile {
        ReplaySnoc(fs.files, [], Unlink(zip));
        fs.Perform(Unlink(zip));
      }
    }
  }

  /**
    Writes every shard to its drive, and returns the connected drives that
    received none.
   */
  method WriteShards(fs: FileSystem, names: FileNames, shards: map<Drive, LocalStore>, connected: set<Drive>)
    returns (remaining: set<Drive>, ghost order: seq<Drive>)
    requires fs.Valid()
    modifies fs
    ensures fs.Valid()
    ensures forall i :: 0 <= i < |order| ==> order[i] in shards
    ensures forall d :: d in shards ==> d in order
    ensures Distinct(order)
    ensures remaining == connected - shards.Keys
    ensures fs.log == old(fs.log) + ShardOps(names, shards, order)
    ensures fs.files == Replay(old(fs.files), ShardOps(names, shards, order))
  {
    ghost var files0 := fs.files;
    ghost var log0 := fs.log;
    remaining := connected;
    order := [];
    var todo := shards.Keys;
    ghost var done: set<Drive> := {};
    while todo != {}
      invariant fs.Valid()
      invariant todo !! done && todo + done == shards.Keys
      invariant VisitedOnce(order, done)
      invariant remaining == connected - done
      invariant ShardsWritten(names, shards, files0, log0, order, fs.files, fs.log)
      decreases todo
    {
      var d :| d in todo;
      VisitOnce(order, done, d);
      SaveShard(fs, names, shards, d, files0, log0, order);
      if d in remaining {
        remaining := remaining - {d};
      }
      order := order + [d];
      todo := todo - {d};
      done := done + {d};
    }
  }

  /** The file system after the shard writes of `order`, starting from `files0` and `log0`. */
  ghost predicate ShardsWritten(names: FileNames, shards: map<Drive, LocalStore>, files0: map<Path, Content>,
                                log0: seq<FsOp>, order: seq<Drive>, files: map<Path, Content>, log: seq<FsOp>)
  {
    && (forall i :: 0 <= i < |order| ==> order[i] in shards)
    && log == log0 + ShardOps(names, shards, order)
    && files == Replay(files0, ShardOps(names, shards, order))
  }

  /** Writes the shard of drive `d`, one more write of the shard run that `order` has begun. */
  method SaveShard(fs: FileSystem, names: FileNames, shards: map<Drive, LocalStore>, d: Drive,
                   ghost files0: map<Path, Content>, ghost log0: seq<FsOp>, ghost order: seq<Drive>)
    requires fs.Valid()
    requires d in shards
    requires ShardsWritten(names, shards, files0, log0, order, fs.files, fs.log)
    modifies fs
    ensures fs.Valid()
    ensures ShardsWritten(names, shards, files0, log0, order + [d], fs.files, fs.log)
  {
    var store := shards[d];
    ghost var ops := ShardOps(names, shards, order);
    ReplaySnoc(files0, ops, SaveJson(ShardPath(names, d), store));
    ShardOpsSnoc(names, shards, order, d);
    fs.Perform(SaveJson(d + "/" + names.externalStorage, store));
    ConcatAssoc(log0, ops, [SaveJson(ShardPath(names, d), store)]);
  }

  /** Removes the shard file, where one exists, of every given drive. */
  method CleanStaleShards(fs: FileSystem, names: FileNames, stale: set<Drive>) returns (ghost order: seq<Drive>)
    requires fs.Valid()
    modifies fs
    ensures fs.Valid()
    ensures forall i :: 0 <= i < |order| ==> order[i] in stale
    ensures forall d :: d in stale ==> d in order
    ensures Distinct(order)
    ensures fs.log == old(fs.log) + CleanOps(old(fs.files), names, order)
    ensures fs.files == Replay(old(fs.files), CleanOps(old(fs.files), names, order))
  {
    ghost var files0 := fs.files;
    ghost var log0 := fs.log;
    order := [];
    var todo := stale;
    ghost var done: set<Drive> := {};
    while todo != {}
      invariant fs.Valid()
      invariant todo <= stale
      invariant todo !! done && todo + done == stale
      invariant VisitedOnce(order, done)
      invariant forall d :: d in todo ==> (ShardPath(names, d) in fs.files <==> ShardPath(names, d) in files0)
      invariant fs.log == log0 + CleanOps(files0, names, order)
      invariant fs.files == Replay(files0, CleanOps(files0, names, order))
      decreases todo
    {
      var d :| d in todo;
      var dbToClean := d + "/" + names.externalStorage;
      var isFile := fs.IsFile(dbToClean);
      ghost var ops := CleanOps(files0, names, order);
      CleanOpsSnoc(files0, names, order, d);
      VisitOnce(order, done, d);
      if isFile {
        ReplaySnoc(files0, ops, Unlink(dbToClean));
        fs.Perform(Unlink(dbToClean));
        ConcatAssoc(log0, ops, [Unlink(dbToClean)]);
        forall x | x in todo - {d}
          ensures ShardPath(names, x) != dbToClean
        {
          ShardPathInjective(names, x, d);
        }
      }
      order := order + [d];
      todo := todo - {d};
      done := done + {d};
    }
  }

  /** Why the provider refused. */
  datatype ProviderError = AlreadyInitialized | NotInitialized

  /** Holds the one local repository: it can be initialised once, and read only after that. */
  class LocalRepositoryProvider {
    var localRepository: Option<LocalRepository>

    constructor()
      ensures localRepository.None?
    {
      localRepository := None;
    }

    method Initialize(repository: LocalRepository) returns (outcome: Outcome<ProviderError>)
      modifies this
      ensures old(localRepository).Some? ==> outcome == Fail(AlreadyInitialized) && localRepository == old(localRepository)
      ensures old(localRepository).None? ==> outcome == Pass && localRepository == Some(repository)
    {
      if localRepository.Some? {
        return Fail(AlreadyInitialized);
      }
      localRepository := Some(repository);
      outcome := Pass;
    }

    method GetLocalRepository() returns (r: Result<LocalRepository, ProviderError>)
      ensures localRepository.None? ==> r == Err(NotInitialized)
      ensures localRepository.Some? ==> r == Ok(localRepository.value)
    {
      if localRepository.None? {
        return Err(NotInitialized);
      }
      r := Ok(localRepository.value);
    }
  }
}
