# Local repository and configuration of the MiSTer downloader, in Dafny

This project models two parts of the downloader:

- The **local repository**, which persists the store of installed files.
  The store is split between a main json file under the base system path
  and one shard file per external drive. A shard holds the database
  entries attributed to that drive.
  - On load, the main store is read and migrated. The main store comes
    from the legacy zip when it exists, otherwise from the json. Then every
    connected drive's shard is read, migrated and attached to the matching
    database records under their `external` key.
  - On save, a changed store is split back into the stripped main store and
    the per-drive shards. The main store is written, and then the legacy
    zip is removed once the json is in place. Next every shard is written,
    and the shard files of connected drives that no longer hold any entry
    are removed. Last, the last-successful-run marker is touched.
  - The repository memoises its paths. The **provider** hands out the one
    repository instance: it can be initialised once, and read only after
    that.
- The **configuration**. This covers:
  - where the ini file is looked for, given the executable's path;
  - the two bounded policy enums;
  - the default settings;
  - how the parsed ini sections and the environment become the settings
    and the list of databases. A `[mister]` section overrides settings;
    every other section declares a database. When no database section was
    read, the default database is used, and an `ALLOW_REBOOT` environment
    value wins over the ini file.

Files:

- `wrappers.dfy`: `Option`, `Result` and `Outcome`.
- `posix_paths.dfy`: the part of pure POSIX paths that `config_file_path` uses.
- `config.dfy`: the configuration.
- `stores.dfy`: store values; attaching a shard; splitting a store into
  main and shards; the proof that the split and the load's merge are
  inverse.
- `file_systems.dfy`: the file system as a map from path to content, plus
  the log of writes made through it.
- `local_repository.dfy`: the repository, its load and save, the
  store wrapper and the provider.
- `save_load.dfy`: what a save leaves on disk, and the round trip from save
  to load.

The file system, the store migrator, the drive enumeration and the
environment are parameters of the model:

- the file system is a `FileSystem` object over a `map`;
- the migrator, the fresh store and the empty database record form a
  `StoreKit`;
- the connected drives are a sequence argument;
- `Env` holds the environment values.

Python's dict iteration order is not modelled. The save's loops pick their
next drive by choice, and return the order they used as ghost outputs; the
save's contract holds for that order.

`save_store` does not clear the wrapper's dirty bit
(`src/downloader/local_repository.py:125-163`); `LocalRepository.SaveStore`
ensures that the bit is unchanged.

## Model

| member | source | states |
|---|---|---|
| PosixPaths.Split | src/downloader/config.py:29 | splitting at '/' gives at least one piece, and no piece holds a '/' |
| PosixPaths.JoinSplit | src/downloader/config.py:33-34 | joining the split pieces with '/' gives the original string back |
| PosixPaths.SplitJoin | src/downloader/config.py:33-34 | splitting a '/'-join of slash-free pieces gives the pieces back |
| PosixPaths.Parse | src/downloader/config.py:29 | a parsed path's root is the text's root and its names are the names of the text's '/'-pieces; every name is non-empty, not ".", and free of '/' |
| PosixPaths.Root | src/downloader/config.py:29 | the root is "", "/" or "//"; it is empty exactly for a relative path, and "//" exactly when the text starts with two slashes and not a third |
| PosixPaths.Names | src/downloader/config.py:29 | the names are taken from the pieces and are never "" or "." |
| PosixPaths.NamesOfOne | src/downloader/config.py:29 | a single piece is kept exactly when it is neither "" nor "." |
| PosixPaths.NamesAppend | src/downloader/config.py:29 | the names of concatenated pieces are the concatenated names, so every other piece is kept, in order |
| PosixPaths.RFindIsLast | src/downloader/config.py:36 | `rfind` returns an index exactly when the character is there and occurs nowhere after it |
| PosixPaths.RFind | src/downloader/config.py:36 | the index is the last occurrence of the character, or -1 when it does not occur |
| PosixPaths.Stem | src/downloader/config.py:36 | the stem is a prefix of the name; it is shorter exactly when the name's last '.' is neither its first nor its last character, and then the part dropped is that '.' and what follows it |
| PosixPaths.Parents | src/downloader/config.py:32-33 | there is one parent per name; the first is the path's parent, each next one is the parent of the one before, and the last is the bare root |
| PosixPaths.Lower | src/downloader/config.py:32 | lowering keeps the length and lowers each character |
| Config.ConfigFilePath | src/downloader/config.py:25-36 | with no executable the result is `/media/fat/downloader.ini`; it fails exactly on an empty executable or an absolute path with no names |
| Config.IniPathBeside | src/downloader/config.py:29-36 | the same failure condition, for an executable already parsed |
| Config.ReversedParentNamesOf | src/downloader/config.py:33 | the reversed parent names list has one entry per name of the path |
| Config.ReversedParentNames | src/downloader/config.py:33 | the reversed parents' names are the root's "" followed by every directory name |
| Config.ConfigFilePathKeepsParent | src/downloader/config.py:29-36 | outside a `scripts` folder, the ini file is `<parent>/<stem>.ini` |
| Config.ConfigFilePathDropsScripts | src/downloader/config.py:32-36 | directly inside an absolute path's `scripts` folder (any case), that folder is skipped |
| Config.ConfigFilePathEndsInIni | src/downloader/config.py:25-36 | every successful result ends in ".ini" |
| Config.ConfigFilePathOfScriptsExample | src/downloader/config.py:25-36 | `/media/fat/Scripts/downloader.sh` reads `/media/fat/downloader.ini` |
| Config.ConfigFilePathOfRelativeExample | src/downloader/config.py:25-36 | `downloader.sh` reads `./downloader.ini` |
| Config.IntOf | src/downloader/config.py:132 | `int()` of a text with no decimal digit fails |
| Config.IntOfSkipsSpace | src/downloader/config.py:132 | `int(" 1\n") == 1`: spaces and newlines around the digits are skipped |
| Config.IntOfKeepsSeparator | src/downloader/config.py:132 | `int("\x1c1")` fails: the separator 0x1c, which `str.strip()` would drop, is not skipped (only C `isspace` characters are) |
| Config.IntOfRejectsLetters | src/downloader/config.py:132 | `int()` of a text holding a letter fails (`int("yes")` raises) |
| Config.IntOfDecimal | src/downloader/config.py:132 | `int(str(n)) == n` for every integer |
| Config.StripKeeps | src/downloader/config.py:132 | stripping the white space around a text keeps every other character |
| Config.DefaultConfig | src/downloader/config.py:53-68 | the defaults have no databases, allow deleting (ALL, value 1) and rebooting (ALWAYS, value 1), and use `/media/fat/` as both base paths |
| Config.AllowDeleteValue | src/downloader/config.py:39-43 | an allow-delete value is between 0 and 2 |
| Config.AllowDeleteOf | src/downloader/config.py:39-43 | converting an integer succeeds exactly on 0..2 and gives the member with that value |
| Config.AllowRebootValue | src/downloader/config.py:46-50 | an allow-reboot value is between 0 and 2 |
| Config.AllowRebootOf | src/downloader/config.py:46-50 | converting an integer succeeds exactly on 0..2 and gives the member with that value |
| Config.PolicyValuesRoundTrip | src/downloader/config.py:39-50 | both enums are unique: each member maps back to itself through its value |
| Config.ApplyMister | src/downloader/config.py:97-112 | a `[mister]` section keeps the databases and the config path, and fails exactly when it lists an `allow_delete` or `allow_reboot` that is not a policy value |
| Config.MisterKeepsUnlisted | src/downloader/config.py:97-111 | every setting whose key the `[mister]` section does not list keeps its current value |
| Config.MisterOverridesListed | src/downloader/config.py:97-111 | every setting whose key the `[mister]` section lists takes the section's value |
| Config.DbEntry | src/downloader/config.py:114-122 | a database section succeeds exactly when it has a `db_url` or is the default database's section (case-insensitively); the URL comes from the section, else from the environment; otherwise the error names the section |
| Config.ApplySectionsErrorSticks | src/downloader/config.py:95-122 | once a section has failed, the later sections do not change the outcome |
| Config.ReadConfig | src/downloader/config.py:82-134 | the section loop's result equals `ReadConfigSpec` |
| Config.ApplyRebootOverride | src/downloader/config.py:131-132 | the `ALLOW_REBOOT` step as the source runs it: unset keeps the configuration, a value `int()` rejects is `NotAnInteger`, an integer outside 0..2 is `InvalidAllowReboot`, otherwise the reboot policy is replaced, exactly as `RebootOverride` |
| Config.ReadSection | src/downloader/config.py:96-121 | one pass of the section loop: a `[mister]` section gives `ApplyMister`'s result, any other section appends its database entry or fails with the missing-URL error, exactly as `ApplySection` |
| Config.DbSections | src/downloader/config.py:95-97 | the database sections are non-`[mister]` sections taken from the file |
| Config.MisterSections | src/downloader/config.py:95-97 | the `[mister]` sections are `[mister]` sections taken from the file |
| Config.SectionsOfOne | src/downloader/config.py:97 | one section is a database section or a `[mister]` section, never both |
| Config.SectionsAppend | src/downloader/config.py:95 | both filters keep file order: the sections of a concatenation are the concatenated sections |
| Config.SectionsPartition | src/downloader/config.py:95-97 | every section lands in exactly one of the two filters, with its multiplicity |
| Config.DatabasesFollowSections | src/downloader/config.py:95-122 | the databases read are one per database section, in file order, each named after its section |
| Config.SettingsFollowMisterSections | src/downloader/config.py:97-112 | database sections never change a setting: applying only the `[mister]` sections gives the same settings |
| Config.MisterSectionEffect | src/downloader/config.py:97-112 | a `[mister]` section adds no database, and fails exactly on an out-of-range policy value |
| Config.EmptyMisterSectionKeepsSettings | src/downloader/config.py:97-111 | a `[mister]` section that lists nothing keeps every setting |
| Config.DefaultDatabaseOnlyWithoutSections | src/downloader/config.py:124-129 | the default database is added exactly when no database section was read |
| Config.ReadConfigDatabases | src/downloader/config.py:124-132 | the databases read are the sections' databases, or the default database when there are none; `ALLOW_REBOOT` does not touch them |
| Config.EnvironmentOverridesAllowReboot | src/downloader/config.py:131-132 | an `ALLOW_REBOOT` text overrides the ini file; the read fails with a not-an-integer error when `int()` rejects the text, and otherwise unless the number is a valid policy |
| Config.DecimalAllowRebootSelects | src/downloader/config.py:131-132 | `ALLOW_REBOOT` set to a policy's decimal value selects that policy |
| Config.EmptyIniGivesDefaults | src/downloader/config.py:53-68 | without sections, the result is the default settings plus the config path and the default database |
| Stores.MergeShard | src/downloader/local_repository.py:111-115 | attaching a shard keeps every database id and adds the shard's ids |
| Stores.MergeShardMeaning | src/downloader/local_repository.py:111-115 | attaching a shard: every shard id gets the drive's entry under `external`; other drives' entries and the record's own keys are kept; an empty or missing record starts from the empty record; ids not in the shard are unchanged |
| Stores.MergeShardInto | src/downloader/local_repository.py:111-115 | the loop over the shard's entries computes `MergeShard` |
| Stores.MergeEmptyShard | src/downloader/local_repository.py:111-115 | attaching an empty shard changes nothing |
| Stores.StripExternal | src/downloader/local_repository.py:143 | the stripped store has the same ids and record keys, and no `external` key |
| Stores.SplitExternal | src/downloader/local_repository.py:131-143 | the split loop gives the stripped main store and one shard per drive with an entry |
| Stores.Shards | src/downloader/local_repository.py:131-141 | there is one shard per drive that holds an `external` entry |
| Stores.ShardsHoldExternalEntries | src/downloader/local_repository.py:131-141 | every `external` entry lands in its drive's shard under its id; every shard is non-internal and comes from some entry; a shard holds only such entries |
| Stores.MergeShardExtends | src/downloader/local_repository.py:111-115 | attaching drive d's split-off entries to a partly merged store extends it by exactly d |
| Stores.MergeShardsStep | src/downloader/local_repository.py:96-115 | attaching one more drive's split-off shard, or skipping a drive without one, extends the partly merged store by that drive |
| Stores.MergeShardsIsPartlyMerged | src/downloader/local_repository.py:96-115 | attaching the split-off shards of a list of drives restores exactly those drives' entries |
| Stores.SplitThenMergeRestores | src/downloader/local_repository.py:96-143 | splitting a well-formed store, then attaching its shards over drives that cover every shard drive, gives the store back |
| FileSystems.Apply | src/downloader/local_repository.py:145-163 | `save_json` sets the path, `unlink` removes it, `touch` creates an empty file only if missing, `make_dirs_parent` changes no file, and no other path changes |
| FileSystems.ReplayAppend | src/downloader/local_repository.py:145-163 | replaying two runs of writes is replaying the second run on the result of the first |
| FileSystems.ReplayElsewhere | src/downloader/local_repository.py:145-163 | writes that do not touch a path leave it as it was |
| FileSystems.LoadDict | src/downloader/local_repository.py:84 | loading succeeds exactly on a file that holds a store, and gives that store |
| FileSystems.FileSystem.IsFile | src/downloader/local_repository.py:82 | true exactly when the path is a file |
| FileSystems.FileSystem.LoadDictFromFile | src/downloader/local_repository.py:84 | the result is `LoadDict` of the current files |
| FileSystems.FileSystem.Perform | src/downloader/local_repository.py:145-163 | one write is applied and appended to the log, keeping files == the initial files with the log replayed |
| LocalRepositories.ShardPathInjective | src/downloader/local_repository.py:97 | two drives' shard paths are equal exactly when the drives are |
| LocalRepositories.LoadPathFor | src/downloader/local_repository.py:51-59 | the load path is the zip when the zip is a file, otherwise the json |
| LocalRepositories.LogPathFor | src/downloader/local_repository.py:67-74 | the configured log file, else `<base>/<log name of the config stem>` |
| LocalRepositories.ReadMainStore | src/downloader/local_repository.py:82-90 | the stored store when the load path holds one, otherwise a fresh store |
| LocalRepositories.MainStore | src/downloader/local_repository.py:82-92 | the main load succeeds exactly when migration succeeds, gives the migrated store, and raises the unreachable error exactly when the migrator does |
| LocalRepositories.DriveShard | src/downloader/local_repository.py:97-109 | a drive's shard fails exactly on the unreachable error; it is present exactly when the file loads and migrates; otherwise the drive is skipped |
| LocalRepositories.MergeDrives | src/downloader/local_repository.py:96-115 | the drive loop changes only the databases, keeps every database id, and fails only with the unreachable error |
| LocalRepositories.LoadSpec | src/downloader/local_repository.py:79-117 | a failed main load fails the whole load; a successful load extends the migrated main store's databases and changes nothing else |
| LocalRepositories.MergeDrivesErrorSticks | src/downloader/local_repository.py:104-105 | once a drive has raised, the load's result is that error |
| LocalRepositories.MergeDrivesFailsIffUnreachable | src/downloader/local_repository.py:96-115 | the drive loop fails exactly when some drive raises the unreachable error, and then with that error |
| LocalRepositories.SkippedDriveIsIgnored | src/downloader/local_repository.py:98-109 | a skipped drive does not affect the result, and the drives after it are still processed |
| LocalRepositories.MergeDrivesAttachesShards | src/downloader/local_repository.py:96-115 | when each drive's shard is known, the loop attaches exactly those shards in drive order |
| LocalRepositories.SavedMain | src/downloader/local_repository.py:131-143 | the saved main store has the same ids and record keys, and no `external` key |
| LocalRepositories.ShardOps | src/downloader/local_repository.py:153-154 | one `save_json` per visited drive, of that drive's shard at its shard path |
| LocalRepositories.CleanOps | src/downloader/local_repository.py:158-161 | every cleaning write is an `unlink` of an existing file that is some visited drive's shard path, and every visited drive whose shard file exists gets one |
| LocalRepositories.SaveOps | src/downloader/local_repository.py:125-163 | a save's writes start by creating the json's directory and writing the stripped main store there, include one write per shard, and end by touching the marker |
| LocalRepositories.SaveOpsRuns | src/downloader/local_repository.py:145-163 | a save's writes are the main run, zip run, shard run, clean run and touch, each replayed on the previous run's result |
| LocalRepositories.LocalStoreWrapper.constructor | src/downloader/local_repository.py:117 | a freshly loaded store is not marked as changed |
| LocalRepositories.LocalStoreWrapper.NeedsSave | src/downloader/local_repository.py:126 | true exactly when the store was marked as changed |
| LocalRepositories.LocalRepository.constructor | src/downloader/local_repository.py:27-37 | every path cache starts empty |
| LocalRepositories.LocalRepository.StorageSavePath | src/downloader/local_repository.py:39-43 | `<base>/<storage json>`, cached |
| LocalRepositories.LocalRepository.StorageOldPath | src/downloader/local_repository.py:45-49 | `<base>/<storage zip>`, cached |
| LocalRepositories.LocalRepository.StorageLoadPath | src/downloader/local_repository.py:51-59 | the cached path if any, otherwise `LoadPathFor` of the current files, then cached |
| LocalRepositories.LocalRepository.LastSuccessfulRun | src/downloader/local_repository.py:61-65 | `<base>/<marker name of the config stem>`, cached |
| LocalRepositories.LocalRepository.LogfilePath | src/downloader/local_repository.py:67-74 | the cached path if any, otherwise `LogPathFor`, then cached |
| LocalRepositories.LocalRepository.SetLogfilePath | src/downloader/local_repository.py:76-77 | the log path cache holds the given value |
| LocalRepositories.LocalRepository.HasLastSuccessfulRun | src/downloader/local_repository.py:119-120 | true exactly when the marker is a file |
| LocalRepositories.LocalRepository.LoadStore | src/downloader/local_repository.py:79-117 | the result is `LoadSpec` of the files, the (cached) load path and the drives; a success is a fresh wrapper that is not marked as changed; afterwards the cached load path is the one used, so a later load reuses it whatever the files become |
| LocalRepositories.LocalRepository.SaveStore | src/downloader/local_repository.py:125-163 | an unchanged store writes nothing; otherwise the store is stripped and exactly the writes of `SaveOps` are made and logged, each shard once and each connected drive without a shard cleaned once (`SavedRun`) |
| LocalRepositories.WriteStore | src/downloader/local_repository.py:130-163 | the body of a save, given its three paths, satisfies `SavedRun` |
| LocalRepositories.LoadFrom | src/downloader/local_repository.py:82-117 | the load from a given path returns `LoadSpec` |
| LocalRepositories.LoadMain | src/downloader/local_repository.py:82-92 | reading and migrating the main store gives `MainStore` |
| LocalRepositories.ReadMain | src/downloader/local_repository.py:82-90 | the main read gives `ReadMainStore` |
| LocalRepositories.LoadDrives | src/downloader/local_repository.py:96-115 | the drive loop computes `MergeDrives` |
| LocalRepositories.LoadShard | src/downloader/local_repository.py:97-109 | one drive's read gives `DriveShard` |
| LocalRepositories.MergeDrivesStep | src/downloader/local_repository.py:96-115 | one more drive either fails, is skipped, or attaches its shard |
| LocalRepositories.WriteMainJson | src/downloader/local_repository.py:145-146 | the writes made are `MainOps` |
| LocalRepositories.RemoveLegacyZip | src/downloader/local_repository.py:147-149 | the zip is unlinked exactly when both it and the json are files |
| LocalRepositories.WriteShards | src/downloader/local_repository.py:151-156 | each shard is written once, and the connected drives without a shard remain |
| LocalRepositories.SaveShard | src/downloader/local_repository.py:154 | one shard written at its drive's shard path |
| LocalRepositories.CleanStaleShards | src/downloader/local_repository.py:158-161 | each given drive is visited once, and its shard file is unlinked when it exists |
| LocalRepositories.LocalRepositoryProvider.constructor | src/downloader/local_repository.py:172-173 | the provider starts uninitialised |
| LocalRepositories.LocalRepositoryProvider.Initialize | src/downloader/local_repository.py:175-179 | a second initialisation fails and keeps the first repository; the first one stores the repository |
| LocalRepositories.LocalRepositoryProvider.GetLocalRepository | src/downloader/local_repository.py:181-186 | reading before initialisation fails; afterwards it returns the stored repository |
| SaveLoad.MainRunWrites | src/downloader/local_repository.py:145-146 | writing the main store puts it at the json path and changes no other file |
| SaveLoad.ZipRunRemoves | src/downloader/local_repository.py:147-149 | once the json is present, the zip is gone after its run, and nothing else changed |
| SaveLoad.ShardRunWrites | src/downloader/local_repository.py:153-154 | after the shard run, each visited drive's shard file holds its shard |
| SaveLoad.ShardRunElsewhere | src/downloader/local_repository.py:153-154 | the shard run changes no file other than the visited drives' shard files |
| SaveLoad.CleanRunOnlyRemoves | src/downloader/local_repository.py:158-161 | the clean run only removes files |
| SaveLoad.CleanRunRemoves | src/downloader/local_repository.py:158-161 | after the clean run, no visited drive has a shard file |
| SaveLoad.CleanRunElsewhere | src/downloader/local_repository.py:158-161 | the clean run changes no file other than the visited drives' shard files |
| SaveLoad.SaveWritesMain | src/downloader/local_repository.py:145-163 | after a save, the json holds the stripped main store |
| SaveLoad.SaveWritesShard | src/downloader/local_repository.py:151-163 | after a save, each shard drive's file holds its shard |
| SaveLoad.SaveRemovesStaleShard | src/downloader/local_repository.py:158-163 | after a save, no cleaned drive has a shard file |
| SaveLoad.SaveRemovesLegacyZip | src/downloader/local_repository.py:147-163 | after a save, the legacy zip is gone |
| SaveLoad.SaveLeavesOthers | src/downloader/local_repository.py:125-163 | after a save, the marker exists and every other unrelated file is as it was |
| SaveLoad.AfterSaveLoadsMain | src/downloader/local_repository.py:82-92 | right after a save, the load reads the json and gets the stripped main store, provided no shard file the save writes or removes is the json or the zip |
| SaveLoad.AfterSaveLoadsShard | src/downloader/local_repository.py:96-109 | right after a save, a shard drive gives its shard and a cleaned drive gives nothing |
| SaveLoad.SaveThenLoad | src/downloader/local_repository.py:79-163 | loading right after a save gives back the saved store (well-formed store, identity migration, json, zip and marker distinct from each other and from the shard files of the connected and shard drives, load drives known to the save and covering every shard) |

## Left out

- `save_log_from_tmp` (`src/downloader/local_repository.py:165-168`) is not modelled. It only turns off the file system's logs and copies a temporary file; logging and file copying are outside the model.
- Logging and benchmarking calls (`self._logger.*`) have no effect on state and are left out.
- Files other than the two core files are not part of this model:
  - the file system (`file_system.py`);
  - the store migrator and `make_new_local_store`;
  - `empty_store_without_base_path`;
  - the external drives repository;
  - `LocalStoreWrapper`;
  - the ini parser;
  - the constants module.

  They enter as parameters:
  - `StoreKit` for the migrator, the fresh store and the empty record;
  - `FileNames` for the file-name constants, with a `%s` format given as the text before and after it;
  - a drive sequence for the connected drives;
  - `Section` values whose entries are already converted to strings, integers and booleans.
- The migrator is a pure function from a store to a result. The source's in-place migration is modelled as returning the migrated store.
- JSON and zip serialisation is not modelled: a stored file is either a parsed store (`StoreFile`), a file that does not parse (`Unreadable`), or the marker's empty file (`Blank`). Directories are not modelled either, so `make_dirs_parent` is logged but changes no file.
- The file system's `is_file` cache is not modelled. `is_file(..., use_cache=False)` is therefore the same as `is_file`.
- Python dict iteration order is not modelled. The save loops visit drives in an order chosen by the model and return it.
- LocalRepositories.LocalRepository.SaveStore: the three paths are read before the first write, whereas the source reads the zip path after writing the json and the marker path at the end. The paths depend only on the configuration, so the writes are the same.
- LocalRepositories.LocalStoreWrapper: only the store and the changed flag are modelled. `MarkForSave` stands for the wrapper's way of marking the store as changed, which lives in a file that is not part of this model; the wrapper's other methods are left out.
- Aliasing between a loaded store and the caller's own references is not modelled. The saved store replaces the wrapper's store as a value.
- Config.ReadConfig: the ini file is taken as already parsed (`IniFile`). An unreadable ini file behaves as one with no sections, and parse errors raised by the ini parser are not modelled.
- PosixPaths.Lower: case-insensitive comparison lowers ASCII letters only. Against the fixed names `mister` and `scripts` this agrees with Python's `str.lower()`: no non-ASCII character lowers to a single letter of these names.
- Config.DbEntry: the section name and the default database id are compared after ASCII-only lowering. Python's `str.lower()` also lowers non-ASCII letters, so a section such as `[Ä]` matches the id `ä` in the source but not in the model.
- Config.IntOf: `int()` is modelled for ASCII text only; around the number it skips exactly C's `isspace` characters (tab to carriage return, and space), as CPython does for ASCII. Non-ASCII white space and non-ASCII decimal digits, which Python also accepts, make the model's `IntOf` fail.
- Integers are unbounded, which matches Python.
