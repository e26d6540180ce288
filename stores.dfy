/**
  The store values of the local repository and the two transformations it
  owns: attaching an external drive's shard to the main store when loading,
  and splitting the `external` parts back out into one shard per drive when
  saving.
 */
module Stores {
  import opened Wrappers

  type DbId = string
  type Drive = string

  /**
    The record of one database: its own keys (`files`, `folders`, `zips`, ...)
    with their serialised values, and the optional `external` key mapping a
    drive to the part of the record that lives on that drive.
   */
  datatype DbStore = DbStore(fields: map<string, string>, external: Option<map<Drive, DbStore>>)

  /** A whole store: its databases, the `internal` flag and its other keys (such as the schema version). */
  datatype LocalStore = LocalStore(dbs: map<DbId, DbStore>, internal: bool, fields: map<string, string>)

  /** `len(db) == 0`: the record has no key at all, not even `external`. */
  predicate IsEmptyDb(db: DbStore)
  {
    db.fields == map[] && db.external.None?
  }

  /** `db.get('external', {})`. */
  function ExternalOf(db: DbStore): map<Drive, DbStore>
  {
    if db.external.Some? then db.external.value else map[]
  }

  // ---------------------------------------------------------------------
  // Merge on load
  // ---------------------------------------------------------------------

  /** The record a shard entry is attached to: an absent or empty record is replaced by `emptyDb`. */
  function BaseFor(dbs: map<DbId, DbStore>, id: DbId, emptyDb: DbStore): DbStore
  {
    if id !in dbs || IsEmptyDb(dbs[id]) then emptyDb else dbs[id]
  }

  /** `db['external'][drive] = e`, creating the `external` key when missing. */
  function Attach(db: DbStore, drive: Drive, e: DbStore): DbStore
  {
    db.(external := Some(ExternalOf(db)[drive := e]))
  }

  /** Attaching a drive's shard to the databases of the main store. */
  function MergeShard(dbs: map<DbId, DbStore>, drive: Drive, shard: map<DbId, DbStore>, emptyDb: DbStore)
    : (r: map<DbId, DbStore>)
    ensures r.Keys == dbs.Keys + shard.Keys
  {
    map id | id in dbs.Keys + shard.Keys ::
      if id in shard then Attach(BaseFor(dbs, id, emptyDb), drive, shard[id]) else dbs[id]
  }

  /**
    What attaching a shard means: every database of the shard ends up under
    `external[drive]` of the same database of the store, whose own keys and
    other drives' entries are kept (an absent or empty record starts from
    the empty record); databases the shard does not mention are untouched.
   */
  lemma {:induction false} MergeShardMeaning(
    dbs: map<DbId, DbStore>, drive: Drive, shard: map<DbId, DbStore>, emptyDb: DbStore)
    ensures var r := MergeShard(dbs, drive, shard, emptyDb);
      && r.Keys == dbs.Keys + shard.Keys
      && (forall id :: id in shard ==>
            && r[id].external.Some?
            && drive in r[id].external.value
            && r[id].external.value[drive] == shard[id]
            && r[id].external.value - {drive} == ExternalOf(BaseFor(dbs, id, emptyDb)) - {drive})
      && (forall id :: id in shard && id in dbs && !IsEmptyDb(dbs[id]) ==> r[id].fields == dbs[id].fields)
      && (forall id :: id in shard && (id !in dbs || IsEmptyDb(dbs[id])) ==> r[id].fields == emptyDb.fields)
      && (forall id :: id in dbs && id !in shard ==> r[id] == dbs[id])
  {
    var r := MergeShard(dbs, drive, shard, emptyDb);
    forall id | id in shard
      ensures r[id].external.value - {drive} == ExternalOf(BaseFor(dbs, id, emptyDb)) - {drive}
    {
      var base := ExternalOf(BaseFor(dbs, id, emptyDb));
      assert r[id].external.value == base[drive := shard[id]];
    }
  }

  /** Attaching one more database of the shard changes only that database's record. */
  lemma {:induction false} MergeShardAddOne(
    dbs: map<DbId, DbStore>, drive: Drive, part: map<DbId, DbStore>, id: DbId, v: DbStore, emptyDb: DbStore)
    ensures MergeShard(dbs, drive, part[id := v], emptyDb)
         == MergeShard(dbs, drive, part, emptyDb)[id := Attach(BaseFor(dbs, id, emptyDb), drive, v)]
  {
    var a := MergeShard(dbs, drive, part[id := v], emptyDb);
    var b := MergeShard(dbs, drive, part, emptyDb)[id := Attach(BaseFor(dbs, id, emptyDb), drive, v)];
    assert a.Keys == b.Keys;
    forall k | k in a.Keys ensures a[k] == b[k] {
    }
  }

  /** The loop over a loaded shard's databases that attaches each of them to the store. */
  method MergeShardInto(dbs: map<DbId, DbStore>, drive: Drive, shard: map<DbId, DbStore>, emptyDb: DbStore)
    returns (merged: map<DbId, DbStore>)
    ensures merged == MergeShard(dbs, drive, shard, emptyDb)
  {
    merged := dbs;
    var todo := shard.Keys;
    assert shard - todo == map[];
    assert MergeShard(dbs, drive, map[], emptyDb) == dbs;
    while todo != {}
      invariant todo <= shard.Keys
      invariant merged == MergeShard(dbs, drive, shard - todo, emptyDb)
      decreases todo
    {
      var id :| id in todo;
      var external := shard[id];
      ghost var before := merged;
      assert id in merged <==> id in dbs;
      assert id in merged ==> merged[id] == dbs[id];
      if id !in merged || IsEmptyDb(merged[id]) {
        merged := merged[id := emptyDb];
      }
      var db := merged[id];
      db := db.(external := Some(ExternalOf(db)));
      db := db.(external := Some(db.external.value[drive := external]));
      assert db == Attach(BaseFor(dbs, id, emptyDb), drive, external);
      merged := merged[id := db];
      assert merged == before[id := db];
      MergeShardAddOne(dbs, drive, shard - todo, id, external, emptyDb);
      RemoveStep(shard, todo, id);
      todo := todo - {id};
    }
    assert shard - {} == shard;
  }

  // ---------------------------------------------------------------------
  // Split on save
  // ---------------------------------------------------------------------

  /** The main store's databases with every `external` key removed. */
  function StripExternal(dbs: map<DbId, DbStore>): (r: map<DbId, DbStore>)
    ensures r.Keys == dbs.Keys
    ensures forall id :: id in r ==> r[id].external.None? && r[id].fields == dbs[id].fields
  {
    map id | id in dbs :: dbs[id].(external := None)
  }

  /** The `external` maps of the databases that have one. */
  function Externals(dbs: map<DbId, DbStore>): map<DbId, map<Drive, DbStore>>
  {
    map id | id in dbs && dbs[id].external.Some? :: dbs[id].external.value
  }

  /** The drives that hold at least one database entry. */
  function ShardDrives(ext: map<DbId, map<Drive, DbStore>>): set<Drive>
  {
    set id, d | id in ext && d in ext[id] :: d
  }

  /** The database entries that live on drive `d`. */
  function ShardDbs(ext: map<DbId, map<Drive, DbStore>>, d: Drive): map<DbId, DbStore>
  {
    map id | id in ext && d in ext[id] :: ext[id][d]
  }

  /** The shard saved for drive `d`: a new store, marked external, holding `d`'s entries. */
  function ShardStore(newStore: LocalStore, ext: map<DbId, map<Drive, DbStore>>, d: Drive): LocalStore
  {
    newStore.(internal := false, dbs := newStore.dbs + ShardDbs(ext, d))
  }

  /** One shard per drive that holds at least one entry. */
  function Shards(newStore: LocalStore, ext: map<DbId, map<Drive, DbStore>>): (r: map<Drive, LocalStore>)
    ensures r.Keys == ShardDrives(ext)
  {
    map d | d in ShardDrives(ext) :: ShardStore(newStore, ext, d)
  }

  /** The store seen halfway through the split: databases still in `todo` keep their `external` key. */
  function PartlyStripped(dbs: map<DbId, DbStore>, todo: set<DbId>): map<DbId, DbStore>
  {
    map id | id in dbs :: if id in todo then dbs[id] else dbs[id].(external := None)
  }

  /** A drive holding no entry has no database in its shard. */
  lemma {:induction false} NoShardDbs(ext: map<DbId, map<Drive, DbStore>>, d: Drive)
    requires d !in ShardDrives(ext)
    ensures ShardDbs(ext, d) == map[]
  {
    forall id | id in ext ensures d !in ext[id] {
    }
  }

  /** Recording a (database, drive) entry adds that drive to the drives holding entries. */
  lemma {:induction false} ShardDrivesAddEntry(
    acc: map<DbId, map<Drive, DbStore>>, id: DbId, inner: map<Drive, DbStore>, d: Drive, e: DbStore)
    requires inner == if id in acc then acc[id] else map[]
    ensures ShardDrives(acc[id := inner[d := e]]) == ShardDrives(acc) + {d}
  {
    var acc' := acc[id := inner[d := e]];
    forall x | x in ShardDrives(acc') ensures x in ShardDrives(acc) + {d} {
      var i :| i in acc' && x in acc'[i];
      if i != id {
        assert i in acc && x in acc[i];
      } else if x != d {
        assert id in acc && x in acc[id];
      }
    }
    assert id in acc' && d in acc'[id];
    forall x | x in ShardDrives(acc) ensures x in ShardDrives(acc') {
      var i :| i in acc && x in acc[i];
      if i != id {
        assert x in acc'[i];
      } else if x != d {
        assert x in acc'[id];
      }
    }
  }

  /** Recording a (database, drive) entry adds it to that drive's entries only. */
  lemma {:induction false} ShardDbsAddEntry(
    acc: map<DbId, map<Drive, DbStore>>, id: DbId, inner: map<Drive, DbStore>, d: Drive, e: DbStore, x: Drive)
    requires inner == if id in acc then acc[id] else map[]
    ensures ShardDbs(acc[id := inner[d := e]], x) == if x == d then ShardDbs(acc, d)[id := e] else ShardDbs(acc, x)
  {
    var acc' := acc[id := inner[d := e]];
    var want := if x == d then ShardDbs(acc, d)[id := e] else ShardDbs(acc, x);
    assert ShardDbs(acc', x).Keys == want.Keys;
  }

  /** `shards[d]['dbs'][id] = e`, creating `d`'s shard from the new store, marked external, when missing. */
  function AddEntry(shards: map<Drive, LocalStore>, newStore: LocalStore, id: DbId, d: Drive, e: DbStore)
    : map<Drive, LocalStore>
  {
    var shard := if d in shards then shards[d] else newStore.(internal := false);
    shards[d := shard.(dbs := shard.dbs[id := e])]
  }

  /** Recording a (database, drive) entry changes drive `d`'s shard by that entry and no other shard. */
  lemma {:induction false} ShardStoreAddEntry(
    newStore: LocalStore, acc: map<DbId, map<Drive, DbStore>>, id: DbId, inner: map<Drive, DbStore>,
    d: Drive, e: DbStore, x: Drive)
    requires inner == if id in acc then acc[id] else map[]
    ensures ShardStore(newStore, acc[id := inner[d := e]], x)
         == if x != d then ShardStore(newStore, acc, x)
            else
              var shard := if d in ShardDrives(acc) then ShardStore(newStore, acc, d) else newStore.(internal := false);
              shard.(dbs := shard.dbs[id := e])
  {
    ShardDbsAddEntry(acc, id, inner, d, e, x);
    if x == d {
      UnionUpdate(newStore.dbs, ShardDbs(acc, d), id, e);
      if d !in ShardDrives(acc) {
        NoShardDbs(acc, d);
        assert newStore.dbs + map[] == newStore.dbs;
      }
    }
  }

  /** Recording one more (database, drive) entry updates only that drive's shard. */
  lemma {:induction false} ShardsAddEntry(
    newStore: LocalStore, rest: map<DbId, map<Drive, DbStore>>, id: DbId, inner: map<Drive, DbStore>, d: Drive, e: DbStore)
    ensures Shards(newStore, rest[id := inner[d := e]]) == AddEntry(Shards(newStore, rest[id := inner]), newStore, id, d, e)
  {
    var acc := rest[id := inner];
    var acc' := acc[id := inner[d := e]];
    assert acc' == rest[id := inner[d := e]];
    var after := AddEntry(Shards(newStore, acc), newStore, id, d, e);
    ShardDrivesAddEntry(acc, id, inner, d, e);
    assert Shards(newStore, acc').Keys == after.Keys;
    forall x | x in ShardDrives(acc')
      ensures Shards(newStore, acc')[x] == after[x]
    {
      ShardStoreAddEntry(newStore, acc, id, inner, d, e, x);
    }
  }

  /** Taking one more key out of the pending set adds its entry to what is done. */
  lemma RemoveStep<K, V>(m: map<K, V>, todo: set<K>, k: K)
    requires k in todo && todo <= m.Keys
    ensures (m - todo)[k := m[k]] == m - (todo - {k})
  {
  }

  /** The elements of `s + [x]`. */
  lemma ElementsOfSnoc<T>(s: seq<T>, x: T)
    ensures (set y | y in s + [x]) == (set y | y in s) + {x}
  {
  }

  /** The empty map is a left unit of `+`. */
  lemma EmptyUnion<K, V>(m: map<K, V>)
    ensures map[] + m == m
  {
  }

  /** Updating a union updates its right operand. */
  lemma UnionUpdate<K, V>(a: map<K, V>, b: map<K, V>, k: K, v: V)
    ensures (a + b)[k := v] == a + b[k := v]
  {
  }

  /** A database without drive entries adds no shard. */
  lemma {:induction false} ShardsIgnoreEmptyEntry(newStore: LocalStore, acc: map<DbId, map<Drive, DbStore>>, id: DbId)
    requires id !in acc
    ensures Shards(newStore, acc[id := map[]]) == Shards(newStore, acc)
  {
    var acc' := acc[id := map[]];
    assert ShardDrives(acc') == ShardDrives(acc) by {
      forall x | x in ShardDrives(acc') ensures x in ShardDrives(acc) {
        var i :| i in acc' && x in acc'[i];
        assert i != id;
      }
      forall x | x in ShardDrives(acc) ensures x in ShardDrives(acc') {
        var i :| i in acc && x in acc[i];
        assert x in acc'[i];
      }
    }
    forall x | x in ShardDrives(acc) ensures ShardDbs(acc', x) == ShardDbs(acc, x) {
    }
  }

  /** One more database processed by the split. */
  lemma {:induction false} SplitStep(dbs: map<DbId, DbStore>, todo: set<DbId>, id: DbId)
    requires id in todo && id in dbs
    ensures PartlyStripped(dbs, todo - {id}) == PartlyStripped(dbs, todo)[id := dbs[id].(external := None)]
    ensures Externals(dbs) - (todo - {id})
         == if dbs[id].external.Some? then (Externals(dbs) - todo)[id := dbs[id].external.value]
            else Externals(dbs) - todo
  {
    var a := PartlyStripped(dbs, todo - {id});
    var b := PartlyStripped(dbs, todo)[id := dbs[id].(external := None)];
    assert a.Keys == b.Keys;
    var e := Externals(dbs) - (todo - {id});
    var f := if dbs[id].external.Some? then (Externals(dbs) - todo)[id := dbs[id].external.value]
             else Externals(dbs) - todo;
    assert e.Keys == f.Keys;
  }

  /**
    The loop of the save that regroups the `external` entries by drive and
    removes every `external` key from the main store's databases.
   */
  method SplitExternal(dbs: map<DbId, DbStore>, newStore: LocalStore)
    returns (main: map<DbId, DbStore>, shards: map<Drive, LocalStore>)
    ensures main == StripExternal(dbs)
    ensures shards == Shards(newStore, Externals(dbs))
  {
    main := dbs;
    shards := map[];
    var todo := dbs.Keys;
    ghost var done: map<DbId, map<Drive, DbStore>> := map[];
    assert PartlyStripped(dbs, todo) == dbs;
    assert Externals(dbs) - todo == map[];
    assert Shards(newStore, done) == map[];
    while todo != {}
      invariant todo <= dbs.Keys
      invariant main == PartlyStripped(dbs, todo)
      invariant done == Externals(dbs) - todo
      invariant shards == Shards(newStore, done)
      decreases todo
    {
      var id :| id in todo;
      var store := main[id];
      SplitStep(dbs, todo, id);
      if store.external.Some? {
        var ext := store.external.value;
        var drives := ext.Keys;
        ghost var part: map<Drive, DbStore> := map[];
        ShardsIgnoreEmptyEntry(newStore, done, id);
        while drives != {}
          invariant drives <= ext.Keys
          invariant part == ext - drives
          invariant shards == Shards(newStore, done[id := part])
          decreases drives
        {
          var d :| d in drives;
          ShardsAddEntry(newStore, done, id, part, d, ext[d]);
          var shard := if d in shards then shards[d] else newStore.(internal := false);
          shards := shards[d := shard.(dbs := shard.dbs[id := ext[d]])];
          RemoveStep(ext, drives, d);
          part := part[d := ext[d]];
          drives := drives - {d};
        }
        assert part == ext;
        main := main[id := store.(external := None)];
        done := done[id := ext];
      } else {
        assert dbs[id].(external := None) == dbs[id];
      }
      todo := todo - {id};
    }
    assert Externals(dbs) - {} == Externals(dbs);
  }

  /**
    What the split promises: every drive entry of every database is found,
    unchanged, in that drive's shard; every shard is marked external; and a
    shard holds nothing but such entries and the new store's own databases.
   */
  lemma {:induction false} ShardsHoldExternalEntries(dbs: map<DbId, DbStore>, newStore: LocalStore)
    ensures var shards := Shards(newStore, Externals(dbs));
      && (forall id, d :: id in dbs && d in ExternalOf(dbs[id]) ==>
            d in shards && id in shards[d].dbs && shards[d].dbs[id] == ExternalOf(dbs[id])[d])
      && (forall d :: d in shards ==> !shards[d].internal && exists id :: id in dbs && d in ExternalOf(dbs[id]))
      && (forall d, id :: d in shards && id in shards[d].dbs && id !in newStore.dbs ==>
            id in dbs && d in ExternalOf(dbs[id]) && shards[d].dbs[id] == ExternalOf(dbs[id])[d])
  {
    var ext := Externals(dbs);
    var shards := Shards(newStore, ext);
    forall id, d | id in dbs && d in ExternalOf(dbs[id])
      ensures d in shards && id in shards[d].dbs && shards[d].dbs[id] == ExternalOf(dbs[id])[d]
    {
      assert id in ext && d in ext[id];
      assert d in ShardDrives(ext);
      assert id in ShardDbs(ext, d);
    }
    forall d | d in shards ensures exists id :: id in dbs && d in ExternalOf(dbs[id]) {
      var id :| id in ext && d in ext[id];
      assert d in ExternalOf(dbs[id]);
    }
  }

  // ---------------------------------------------------------------------
  // Split, then merge again
  // ---------------------------------------------------------------------

  /**
    The shape a saved store must have for a reload to give it back: every
    database record has keys of its own (so it is not replaced by an empty
    record on load) and an `external` key, when present, names a drive.
   */
  predicate WellFormed(dbs: map<DbId, DbStore>)
  {
    forall id :: id in dbs ==> dbs[id].fields != map[] && (dbs[id].external.Some? ==> dbs[id].external.value != map[])
  }

  /** A record's `external` restricted to the drives in `seen`; an empty result means no key. */
  function RestrictExternal(external: Option<map<Drive, DbStore>>, seen: set<Drive>): Option<map<Drive, DbStore>>
  {
    match external
    case None => None
    case Some(m) =>
      var r := map d | d in m && d in seen :: m[d];
      if r == map[] then None else Some(r)
  }

  /** A record once the shards of the drives in `seen` have been attached to its stripped form. */
  function PartlyMergedEntry(db: DbStore, seen: set<Drive>): DbStore
  {
    db.(external := RestrictExternal(db.external, seen))
  }

  /** The store after the shards of the drives in `seen` have been attached to the stripped store. */
  function PartlyMerged(dbs: map<DbId, DbStore>, seen: set<Drive>): map<DbId, DbStore>
  {
    map id | id in dbs :: PartlyMergedEntry(dbs[id], seen)
  }

  /** Attaching the shards of `drives`, in order, as the load does; drives without a shard are skipped. */
  function MergeShards(dbs: map<DbId, DbStore>, drives: seq<Drive>, shards: map<Drive, LocalStore>, emptyDb: DbStore)
    : map<DbId, DbStore>
    decreases |drives|
  {
    if drives == [] then dbs
    else
      var acc := MergeShards(dbs, drives[..|drives| - 1], shards, emptyDb);
      var d := drives[|drives| - 1];
      if d in shards then MergeShard(acc, d, shards[d].dbs, emptyDb) else acc
  }

  /** Attaching a record's own entry for drive `d` extends it by that drive. */
  lemma {:induction false} AttachExtendsEntry(db: DbStore, seen: set<Drive>, d: Drive)
    requires db.external.Some? && d in db.external.value
    ensures Attach(PartlyMergedEntry(db, seen), d, db.external.value[d]) == PartlyMergedEntry(db, seen + {d})
  {
    var m := db.external.value;
    assert ExternalOf(PartlyMergedEntry(db, seen)) == map x | x in m && x in seen :: m[x];
    var r := map x | x in m && x in seen + {d} :: m[x];
    assert d in r;
    assert (map x | x in m && x in seen :: m[x])[d := m[d]] == r;
  }

  /** A record without an entry for drive `d` is not changed by that drive. */
  lemma {:induction false} DriveWithoutEntry(db: DbStore, seen: set<Drive>, d: Drive)
    requires d !in ExternalOf(db)
    ensures PartlyMergedEntry(db, seen) == PartlyMergedEntry(db, seen + {d})
  {
    if db.external.Some? {
      var m := db.external.value;
      assert (map x | x in m && x in seen :: m[x]) == (map x | x in m && x in seen + {d} :: m[x]);
    }
  }

  /** Attaching one more drive's entries extends the partly merged store by that drive. */
  lemma {:induction false} MergeShardExtends(dbs: map<DbId, DbStore>, seen: set<Drive>, d: Drive, emptyDb: DbStore)
    requires WellFormed(dbs)
    ensures MergeShard(PartlyMerged(dbs, seen), d, ShardDbs(Externals(dbs), d), emptyDb) == PartlyMerged(dbs, seen + {d})
  {
    var ext := Externals(dbs);
    var part := PartlyMerged(dbs, seen);
    var shard := ShardDbs(ext, d);
    var merged := MergeShard(part, d, shard, emptyDb);
    var want := PartlyMerged(dbs, seen + {d});
    assert shard.Keys <= dbs.Keys;
    assert merged.Keys == want.Keys;
    forall id | id in dbs ensures merged[id] == want[id] {
      if id in shard {
        assert !IsEmptyDb(part[id]);
        AttachExtendsEntry(dbs[id], seen, d);
      } else {
        assert d !in ExternalOf(dbs[id]);
        DriveWithoutEntry(dbs[id], seen, d);
      }
    }
  }

  /** Attaching no entries changes nothing. */
  lemma {:induction false} MergeEmptyShard(dbs: map<DbId, DbStore>, d: Drive, emptyDb: DbStore)
    ensures MergeShard(dbs, d, map[], emptyDb) == dbs
  {
    assert MergeShard(dbs, d, map[], emptyDb).Keys == dbs.Keys;
  }

  /** After attaching the shards of a prefix of the drives, the store is partly merged by those drives. */
  lemma {:induction false} MergeShardsIsPartlyMerged(
    dbs: map<DbId, DbStore>, newStore: LocalStore, drives: seq<Drive>, emptyDb: DbStore)
    requires WellFormed(dbs)
    requires newStore.dbs == map[]
    ensures MergeShards(StripExternal(dbs), drives, Shards(newStore, Externals(dbs)), emptyDb)
         == PartlyMerged(dbs, set d | d in drives)
    decreases |drives|
  {
    var ext := Externals(dbs);
    var shards := Shards(newStore, ext);
    if drives == [] {
      NothingMergedIsStripped(dbs);
    } else {
      var init := drives[..|drives| - 1];
      var d := drives[|drives| - 1];
      MergeShardsIsPartlyMerged(dbs, newStore, init, emptyDb);
      var seen := set x | x in init;
      assert drives == init + [d];
      ElementsOfSnoc(init, d);
      MergeShardsStep(dbs, newStore, seen, d, emptyDb);
    }
  }

  /** Partly merged by no drive is the stripped store. */
  lemma {:induction false} NothingMergedIsStripped(dbs: map<DbId, DbStore>)
    requires WellFormed(dbs)
    ensures PartlyMerged(dbs, {}) == StripExternal(dbs)
  {
  }

  /** Attaching drive `d`'s shard, or skipping a drive without one, extends the partly merged store by `d`. */
  lemma {:induction false} MergeShardsStep(
    dbs: map<DbId, DbStore>, newStore: LocalStore, seen: set<Drive>, d: Drive, emptyDb: DbStore)
    requires WellFormed(dbs)
    requires newStore.dbs == map[]
    ensures var shards := Shards(newStore, Externals(dbs));
      var part := PartlyMerged(dbs, seen);
      (if d in shards then MergeShard(part, d, shards[d].dbs, emptyDb) else part) == PartlyMerged(dbs, seen + {d})
  {
    var ext := Externals(dbs);
    MergeShardExtends(dbs, seen, d, emptyDb);
    if d in Shards(newStore, ext) {
      EmptyUnion(ShardDbs(ext, d));
    } else {
      NoShardDbs(ext, d);
      MergeEmptyShard(PartlyMerged(dbs, seen), d, emptyDb);
    }
  }

  /**
    Splitting a well-formed store and attaching every shard again, over any
    sequence of drives that includes every drive holding an entry, gives the
    store back.
   */
  lemma {:induction false} SplitThenMergeRestores(
    dbs: map<DbId, DbStore>, newStore: LocalStore, drives: seq<Drive>, emptyDb: DbStore)
    requires WellFormed(dbs)
    requires newStore.dbs == map[]
    requires ShardDrives(Externals(dbs)) <= set d | d in drives
    ensures MergeShards(StripExternal(dbs), drives, Shards(newStore, Externals(dbs)), emptyDb) == dbs
  {
    MergeShardsIsPartlyMerged(dbs, newStore, drives, emptyDb);
    PartlyMergedByAll(dbs, set d | d in drives);
  }

  /** Restricting every record's shards to a set that holds every shard drive keeps the store. */
  lemma {:induction false} PartlyMergedByAll(dbs: map<DbId, DbStore>, seen: set<Drive>)
    requires WellFormed(dbs)
    requires ShardDrives(Externals(dbs)) <= seen
    ensures PartlyMerged(dbs, seen) == dbs
  {
    var ext := Externals(dbs);
    forall id | id in dbs ensures PartlyMergedEntry(dbs[id], seen) == dbs[id] {
      forall x | x in ExternalOf(dbs[id]) ensures x in seen {
        assert id in ext && x in ext[id];
        assert x in ShardDrives(ext);
      }
      RestrictToAll(dbs[id], seen);
    }
  }

  /** A record whose shards all lie on drives in `seen` is unchanged by restricting to `seen`. */
  lemma {:induction false} RestrictToAll(db: DbStore, seen: set<Drive>)
    requires db.external.Some? ==> db.external.value != map[]
    requires ExternalOf(db).Keys <= seen
    ensures PartlyMergedEntry(db, seen) == db
  {
    if db.external.Some? {
      var m := db.external.value;
      assert (map x | x in m && x in seen :: m[x]) == m;
    }
  }
}
