/**
  What a saving run leaves on disk, file by file, and the round trip it
  exists for: loading what was just saved gives the saved store back.
 */
module SaveLoad {
  import opened Wrappers
  import opened Stores
  import opened FileSystems
  import opened LocalRepositories

  // ---------------------------------------------------------------------
  // The runs of writes, one at a time
  // ---------------------------------------------------------------------

  /** Writing the main store puts it at the json path and changes nothing else. */
  lemma MainRunWrites(files: map<Path, Content>, json: Path, main: LocalStore)
    ensures var f := Replay(files, MainOps(json, main));
      && json in f && f[json] == StoreFile(main)
      && forall p :: p != json ==> (p in f <==> p in files) && (p in f ==> f[p] == files[p])
  {
    ReplaySnoc(files, [], MakeDirsParent(json));
    ReplaySnoc(files, [MakeDirsParent(json)], SaveJson(json, main));
    assert [MakeDirsParent(json)] + [SaveJson(json, main)] == MainOps(json, main);
  }

  /** Once the json is present, the legacy zip is gone after its run, and nothing else changed. */
  lemma ZipRunRemoves(files: map<Path, Content>, json: Path, zip: Path)
    requires json in files
    ensures var f := Replay(files, ZipOps(files, json, zip));
      && zip !in f
      && forall p :: p != zip ==> (p in f <==> p in files) && (p in f ==> f[p] == files[p])
  {
    if zip in files {
      ReplaySnoc(files, [], Unlink(zip));
      assert [] + [Unlink(zip)] == ZipOps(files, json, zip);
    }
  }

  /** The shard run leaves each visited drive's shard file holding that drive's shard. */
  lemma {:induction false} ShardRunWrites(
    files: map<Path, Content>, names: FileNames, shards: map<Drive, LocalStore>, order: seq<Drive>, k: nat)
    requires forall i :: 0 <= i < |order| ==> order[i] in shards
    requires k < |order|
    ensures var f := Replay(files, ShardOps(names, shards, order));
      ShardPath(names, order[k]) in f && f[ShardPath(names, order[k])] == StoreFile(shards[order[k]])
    decreases |order|
  {
    var init := order[..|order| - 1];
    var last := order[|order| - 1];
    assert init + [last] == order;
    ShardOpsSnoc(names, shards, init, last);
    ReplaySnoc(files, ShardOps(names, shards, init), SaveJson(ShardPath(names, last), shards[last]));
    if k < |order| - 1 {
      assert init[k] == order[k];
      ShardRunWrites(files, names, shards, init, k);
      ShardPathInjective(names, order[k], last);
    }
  }

  /** The clean run only removes files: whatever survives it is as it was. */
  lemma {:induction false} CleanRunOnlyRemoves(files: map<Path, Content>, names: FileNames, order: seq<Drive>, p: Path)
    requires p in Replay(files, CleanOps(files, names, order))
    ensures p in files && Replay(files, CleanOps(files, names, order))[p] == files[p]
    decreases |order|
  {
    if order != [] {
      var init := order[..|order| - 1];
      var q := ShardPath(names, order[|order| - 1]);
      if q in files {
        ReplaySnoc(files, CleanOps(files, names, init), Unlink(q));
      }
      CleanRunOnlyRemoves(files, names, init, p);
    }
  }

  /** After the clean run no visited drive has a shard file. */
  lemma {:induction false} CleanRunRemoves(files: map<Path, Content>, names: FileNames, order: seq<Drive>, k: nat)
    requires k < |order|
    ensures ShardPath(names, order[k]) !in Replay(files, CleanOps(files, names, order))
    decreases |order|
  {
    var init := order[..|order| - 1];
    var q := ShardPath(names, order[|order| - 1]);
    var p := ShardPath(names, order[k]);
    if q in files {
      ReplaySnoc(files, CleanOps(files, names, init), Unlink(q));
    }
    if k == |order| - 1 {
      if q !in files && p in Replay(files, CleanOps(files, names, order)) {
        CleanRunOnlyRemoves(files, names, order, p);
      }
    } else {
      assert init[k] == order[k];
      CleanRunRemoves(files, names, init, k);
    }
  }

  /** A path that is no drive's shard path in `order` is untouched by the clean run. */
  lemma CleanRunElsewhere(files: map<Path, Content>, names: FileNames, order: seq<Drive>, p: Path)
    requires forall j :: 0 <= j < |order| ==> ShardPath(names, order[j]) != p
    ensures p in Replay(files, CleanOps(files, names, order)) <==> p in files
    ensures p in files ==> Replay(files, CleanOps(files, names, order))[p] == files[p]
  {
    var ops := CleanOps(files, names, order);
    forall i | 0 <= i < |ops| ensures !Touches(ops[i], p) {
      var j :| 0 <= j < |order| && ops[i].path == ShardPath(names, order[j]);
    }
    ReplayElsewhere(files, ops, p);
  }

  /** A path that is no drive's shard path in `order` is untouched by the shard run. */
  lemma ShardRunElsewhere(
    files: map<Path, Content>, names: FileNames, shards: map<Drive, LocalStore>, order: seq<Drive>, p: Path)
    requires forall i :: 0 <= i < |order| ==> order[i] in shards
    requires forall i :: 0 <= i < |order| ==> ShardPath(names, order[i]) != p
    ensures p in Replay(files, ShardOps(names, shards, order)) <==> p in files
    ensures p in files ==> Replay(files, ShardOps(names, shards, order))[p] == files[p]
  {
    ReplayElsewhere(files, ShardOps(names, shards, order), p);
  }

  // ---------------------------------------------------------------------
  // A whole saving run
  // ---------------------------------------------------------------------

  /** The files after the writes of a saving run. */
  function AfterSave(files: map<Path, Content>, cfg: RepoConfig, names: FileNames, kit: StoreKit,
                     store: LocalStore, shardOrder: seq<Drive>, cleanOrder: seq<Drive>): map<Path, Content>
    requires forall i :: 0 <= i < |shardOrder| ==> shardOrder[i] in SavedShards(store, kit)
  {
    Replay(files, SaveOps(files, cfg, names, kit, store, shardOrder, cleanOrder))
  }

  /**
    After saving, the json holds the main store stripped of its external
    parts, unless a later write reuses its path.
   */
  lemma SaveWritesMain(files: map<Path, Content>, cfg: RepoConfig, names: FileNames, kit: StoreKit,
                       store: LocalStore, shardOrder: seq<Drive>, cleanOrder: seq<Drive>)
    requires forall i :: 0 <= i < |shardOrder| ==> shardOrder[i] in SavedShards(store, kit)
    requires JsonPath(cfg, names) != ZipPath(cfg, names)
    requires forall i :: 0 <= i < |shardOrder| ==> ShardPath(names, shardOrder[i]) != JsonPath(cfg, names)
    requires forall j :: 0 <= j < |cleanOrder| ==> ShardPath(names, cleanOrder[j]) != JsonPath(cfg, names)
    ensures var after := AfterSave(files, cfg, names, kit, store, shardOrder, cleanOrder);
      JsonPath(cfg, names) in after && after[JsonPath(cfg, names)] == StoreFile(SavedMain(store))
  {
    var json := JsonPath(cfg, names);
    var a := MainOps(json, SavedMain(store));
    var f1 := Replay(files, a);
    var b := ZipOps(f1, json, ZipPath(cfg, names));
    var f2 := Replay(f1, b);
    var c := ShardOps(names, SavedShards(store, kit), shardOrder);
    var f3 := Replay(f2, c);
    SaveOpsRuns(files, cfg, names, kit, store, shardOrder, cleanOrder);
    MainRunWrites(files, json, SavedMain(store));
    ZipRunRemoves(f1, json, ZipPath(cfg, names));
    ShardRunElsewhere(f2, names, SavedShards(store, kit), shardOrder, json);
    CleanRunElsewhere(f3, names, cleanOrder, json);
  }

  /** After saving, each shard's file on its drive holds that shard. */
  lemma SaveWritesShard(files: map<Path, Content>, cfg: RepoConfig, names: FileNames, kit: StoreKit,
                        store: LocalStore, shardOrder: seq<Drive>, cleanOrder: seq<Drive>, k: nat)
    requires forall i :: 0 <= i < |shardOrder| ==> shardOrder[i] in SavedShards(store, kit)
    requires forall j :: 0 <= j < |cleanOrder| ==> cleanOrder[j] !in SavedShards(store, kit)
    requires k < |shardOrder|
    ensures var after := AfterSave(files, cfg, names, kit, store, shardOrder, cleanOrder);
      var p := ShardPath(names, shardOrder[k]);
      p in after && after[p] == StoreFile(SavedShards(store, kit)[shardOrder[k]])
  {
    var json := JsonPath(cfg, names);
    var a := MainOps(json, SavedMain(store));
    var f1 := Replay(files, a);
    var b := ZipOps(f1, json, ZipPath(cfg, names));
    var f2 := Replay(f1, b);
    var c := ShardOps(names, SavedShards(store, kit), shardOrder);
    var f3 := Replay(f2, c);
    var p := ShardPath(names, shardOrder[k]);
    SaveOpsRuns(files, cfg, names, kit, store, shardOrder, cleanOrder);
    ShardRunWrites(f2, names, SavedShards(store, kit), shardOrder, k);
    forall j | 0 <= j < |cleanOrder| ensures ShardPath(names, cleanOrder[j]) != p {
      ShardPathInjective(names, cleanOrder[j], shardOrder[k]);
    }
    CleanRunElsewhere(f3, names, cleanOrder, p);
  }

  /** After saving, no cleaned drive has a shard file, unless it is the marker itself. */
  lemma SaveRemovesStaleShard(files: map<Path, Content>, cfg: RepoConfig, names: FileNames, kit: StoreKit,
                              store: LocalStore, shardOrder: seq<Drive>, cleanOrder: seq<Drive>, k: nat)
    requires forall i :: 0 <= i < |shardOrder| ==> shardOrder[i] in SavedShards(store, kit)
    requires k < |cleanOrder|
    requires ShardPath(names, cleanOrder[k]) != MarkerPath(cfg, names)
    ensures ShardPath(names, cleanOrder[k]) !in AfterSave(files, cfg, names, kit, store, shardOrder, cleanOrder)
  {
    var json := JsonPath(cfg, names);
    var a := MainOps(json, SavedMain(store));
    var f1 := Replay(files, a);
    var b := ZipOps(f1, json, ZipPath(cfg, names));
    var f2 := Replay(f1, b);
    var c := ShardOps(names, SavedShards(store, kit), shardOrder);
    var f3 := Replay(f2, c);
    SaveOpsRuns(files, cfg, names, kit, store, shardOrder, cleanOrder);
    CleanRunRemoves(f3, names, cleanOrder, k);
  }

  /** After saving, the legacy zip is gone, unless a later write reuses its path. */
  lemma SaveRemovesLegacyZip(files: map<Path, Content>, cfg: RepoConfig, names: FileNames, kit: StoreKit,
                             store: LocalStore, shardOrder: seq<Drive>, cleanOrder: seq<Drive>)
    requires forall i :: 0 <= i < |shardOrder| ==> shardOrder[i] in SavedShards(store, kit)
    requires ZipPath(cfg, names) != MarkerPath(cfg, names)
    requires forall i :: 0 <= i < |shardOrder| ==> ShardPath(names, shardOrder[i]) != ZipPath(cfg, names)
    ensures ZipPath(cfg, names) !in AfterSave(files, cfg, names, kit, store, shardOrder, cleanOrder)
  {
    var json := JsonPath(cfg, names);
    var zip := ZipPath(cfg, names);
    var a := MainOps(json, SavedMain(store));
    var f1 := Replay(files, a);
    var b := ZipOps(f1, json, zip);
    var f2 := Replay(f1, b);
    var c := ShardOps(names, SavedShards(store, kit), shardOrder);
    var f3 := Replay(f2, c);
    var e := CleanOps(f3, names, cleanOrder);
    SaveOpsRuns(files, cfg, names, kit, store, shardOrder, cleanOrder);
    MainRunWrites(files, json, SavedMain(store));
    ZipRunRemoves(f1, json, zip);
    ShardRunElsewhere(f2, names, SavedShards(store, kit), shardOrder, zip);
    if zip in Replay(f3, e) {
      CleanRunOnlyRemoves(f3, names, cleanOrder, zip);
    }
  }

  /**
    After saving, the marker exists, and every file that is neither the
    json, the zip, the marker nor a visited drive's shard file is as it was.
   */
  lemma SaveLeavesOthers(files: map<Path, Content>, cfg: RepoConfig, names: FileNames, kit: StoreKit,
                         store: LocalStore, shardOrder: seq<Drive>, cleanOrder: seq<Drive>, p: Path)
    requires forall i :: 0 <= i < |shardOrder| ==> shardOrder[i] in SavedShards(store, kit)
    requires p != JsonPath(cfg, names) && p != ZipPath(cfg, names) && p != MarkerPath(cfg, names)
    requires forall i :: 0 <= i < |shardOrder| ==> ShardPath(names, shardOrder[i]) != p
    requires forall j :: 0 <= j < |cleanOrder| ==> ShardPath(names, cleanOrder[j]) != p
    ensures var after := AfterSave(files, cfg, names, kit, store, shardOrder, cleanOrder);
      && MarkerPath(cfg, names) in after
      && (p in after <==> p in files)
      && (p in files ==> after[p] == files[p])
  {
    var json := JsonPath(cfg, names);
    var zip := ZipPath(cfg, names);
    var a := MainOps(json, SavedMain(store));
    var f1 := Replay(files, a);
    var b := ZipOps(f1, json, zip);
    var f2 := Replay(f1, b);
    var c := ShardOps(names, SavedShards(store, kit), shardOrder);
    var f3 := Replay(f2, c);
    SaveOpsRuns(files, cfg, names, kit, store, shardOrder, cleanOrder);
    MainRunWrites(files, json, SavedMain(store));
    ZipRunRemoves(f1, json, zip);
    ShardRunElsewhere(f2, names, SavedShards(store, kit), shardOrder, p);
    CleanRunElsewhere(f3, names, cleanOrder, p);
  }

  // ---------------------------------------------------------------------
  // The round trip
  // ---------------------------------------------------------------------

  /** Drive `d`'s shard file is neither the json, the zip nor the marker. */
  predicate ApartFromStoreFiles(cfg: RepoConfig, names: FileNames, d: Drive)
  {
    && ShardPath(names, d) != JsonPath(cfg, names)
    && ShardPath(names, d) != ZipPath(cfg, names)
    && ShardPath(names, d) != MarkerPath(cfg, names)
  }

  /** Right after a save the load reads the json, which holds the stripped main store. */
  lemma AfterSaveLoadsMain(files0: map<Path, Content>, cfg: RepoConfig, names: FileNames, kit: StoreKit,
                           store: LocalStore, shardOrder: seq<Drive>, cleanOrder: seq<Drive>)
    requires forall i :: 0 <= i < |shardOrder| ==> shardOrder[i] in SavedShards(store, kit)
    requires kit.migrate(SavedMain(store)) == Migrated(SavedMain(store))
    requires JsonPath(cfg, names) != ZipPath(cfg, names) && ZipPath(cfg, names) != MarkerPath(cfg, names)
    requires forall i :: 0 <= i < |shardOrder| ==> ApartFromStoreFiles(cfg, names, shardOrder[i])
    requires forall j :: 0 <= j < |cleanOrder| ==> ApartFromStoreFiles(cfg, names, cleanOrder[j])
    ensures var files := AfterSave(files0, cfg, names, kit, store, shardOrder, cleanOrder);
      && LoadPathFor(files, cfg, names) == JsonPath(cfg, names)
      && MainStore(files, JsonPath(cfg, names), kit) == Ok(SavedMain(store))
  {
    SaveRemovesLegacyZip(files0, cfg, names, kit, store, shardOrder, cleanOrder);
    SaveWritesMain(files0, cfg, names, kit, store, shardOrder, cleanOrder);
  }

  /**
    Right after a save the load finds, on a drive that got a shard, that
    shard, and on a cleaned drive nothing.
   */
  lemma AfterSaveLoadsShard(files0: map<Path, Content>, cfg: RepoConfig, names: FileNames, kit: StoreKit,
                            store: LocalStore, shardOrder: seq<Drive>, cleanOrder: seq<Drive>, d: Drive)
    requires forall i :: 0 <= i < |shardOrder| ==> shardOrder[i] in SavedShards(store, kit)
    requires forall d :: d in SavedShards(store, kit) ==> d in shardOrder
    requires forall j :: 0 <= j < |cleanOrder| ==> cleanOrder[j] !in SavedShards(store, kit)
    requires d in SavedShards(store, kit) || d in cleanOrder
    requires d in SavedShards(store, kit) ==>
      kit.migrate(SavedShards(store, kit)[d]) == Migrated(SavedShards(store, kit)[d])
    requires ShardPath(names, d) != MarkerPath(cfg, names)
    ensures var files := AfterSave(files0, cfg, names, kit, store, shardOrder, cleanOrder);
      var shards := SavedShards(store, kit);
      DriveShard(files, names, kit, d) == if d in shards then Ok(Some(shards[d])) else Ok(None)
  {
    var files := AfterSave(files0, cfg, names, kit, store, shardOrder, cleanOrder);
    var shards := SavedShards(store, kit);
    if d in shards {
      var k :| 0 <= k < |shardOrder| && shardOrder[k] == d;
      SaveWritesShard(files0, cfg, names, kit, store, shardOrder, cleanOrder, k);
      StoredShardLoads(files, names, kit, d, shards[d]);
    } else {
      var k :| 0 <= k < |cleanOrder| && cleanOrder[k] == d;
      SaveRemovesStaleShard(files0, cfg, names, kit, store, shardOrder, cleanOrder, k);
    }
  }

  /** A shard file holding a store the migrator keeps loads as that store. */
  lemma StoredShardLoads(files: map<Path, Content>, names: FileNames, kit: StoreKit, d: Drive, s: LocalStore)
    requires ShardPath(names, d) in files && files[ShardPath(names, d)] == StoreFile(s)
    requires kit.migrate(s) == Migrated(s)
    ensures DriveShard(files, names, kit, d) == Ok(Some(s))
  {
  }

  /**
    Loading right after a save gives back the store that was saved. This
    holds when: the store is well formed (see `Stores.WellFormed`); a fresh
    store has no databases; the migrator leaves freshly saved stores as
    they are; no shard file of a connected drive or of a drive that gets a
    shard is the json, the zip or the marker, and
    the zip and the marker are not the json; and the drives loaded from are
    drives the save knew as connected, covering every drive that got a
    shard.
   */
  lemma SaveThenLoad(
    cfg: RepoConfig, names: FileNames, kit: StoreKit, connected: seq<Drive>,
    files0: map<Path, Content>, log0: seq<FsOp>, store0: LocalStore,
    shardOrder: seq<Drive>, cleanOrder: seq<Drive>,
    files: map<Path, Content>, log: seq<FsOp>, store: LocalStore,
    drives: seq<Drive>)
    requires SavedRun(cfg, names, kit, connected, files0, log0, store0, shardOrder, cleanOrder, files, log, store)
    requires WellFormed(store0.dbs) && kit.newStore.dbs == map[]
    requires kit.migrate(SavedMain(store0)) == Migrated(SavedMain(store0))
    requires forall d :: d in SavedShards(store0, kit) ==>
      kit.migrate(SavedShards(store0, kit)[d]) == Migrated(SavedShards(store0, kit)[d])
    requires JsonPath(cfg, names) != ZipPath(cfg, names) && ZipPath(cfg, names) != MarkerPath(cfg, names)
    requires forall d :: d in connected || d in SavedShards(store0, kit) ==> ApartFromStoreFiles(cfg, names, d)
    requires forall i :: 0 <= i < |drives| ==> drives[i] in connected || drives[i] in SavedShards(store0, kit)
    requires forall d :: d in SavedShards(store0, kit) ==> d in drives
    ensures LoadSpec(files, LoadPathFor(files, cfg, names), names, kit, drives) == Ok(store0)
  {
    var shards := SavedShards(store0, kit);
    assert files == AfterSave(files0, cfg, names, kit, store0, shardOrder, cleanOrder);
    AfterSaveLoadsMain(files0, cfg, names, kit, store0, shardOrder, cleanOrder);
    forall j | 0 <= j < |cleanOrder| ensures cleanOrder[j] !in shards {
      assert cleanOrder[j] in cleanOrder;
    }
    forall i | 0 <= i < |drives|
      ensures DriveShard(files, names, kit, drives[i]) == if drives[i] in shards then Ok(Some(shards[drives[i]])) else Ok(None)
    {
      AfterSaveLoadsShard(files0, cfg, names, kit, store0, shardOrder, cleanOrder, drives[i]);
    }
    MergeDrivesAttachesShards(files, names, kit, SavedMain(store0), drives, shards);
    SplitThenMergeRestores(store0.dbs, kit.newStore, drives, kit.emptyDb);
  }
}
