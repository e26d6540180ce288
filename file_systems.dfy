/**
  The file system as the local repository sees it: a map from path to
  content, and the log of every write made through it. Directories are not
  modelled; a stored file is either a parsed store, a file that does not
  parse as one, or an empty file left by `touch`.
 */
module FileSystems {
  import opened Wrappers
  import opened Stores

  type Path = string

  datatype Content = StoreFile(store: LocalStore) | Unreadable | Blank

  /** The writes the repository makes. */
  datatype FsOp = MakeDirsParent(path: Path) | SaveJson(path: Path, store: LocalStore) | Unlink(path: Path) | Touch(path: Path)

  /** Why a file could not be loaded as a store. */
  datatype LoadFailure = NotAFile | NotAStore

  /** The effect of one write. */
  function Apply(files: map<Path, Content>, op: FsOp): (r: map<Path, Content>)
    ensures op.SaveJson? ==> op.path in r && r[op.path] == StoreFile(op.store)
    ensures op.Unlink? ==> op.path !in r
    ensures op.Touch? ==> op.path in r && (op.path in files ==> r[op.path] == files[op.path])
    ensures forall p :: p != op.path ==> (p in r <==> p in files) && (p in r ==> r[p] == files[p])
    ensures op.MakeDirsParent? ==> r == files
  {
    match op
    case MakeDirsParent(_) => files
    case SaveJson(p, s) => files[p := StoreFile(s)]
    case Unlink(p) => files - {p}
    case Touch(p) => if p in files then files else files[p := Blank]
  }

  /** The effect of a sequence of writes, in order. */
  function Replay(files: map<Path, Content>, ops: seq<FsOp>): map<Path, Content>
    decreases |ops|
  {
    if ops == [] then files else Apply(Replay(files, ops[..|ops| - 1]), ops[|ops| - 1])
  }

  /** Replaying two runs of writes is replaying the second on the result of the first. */
  lemma {:induction false} ReplayAppend(files: map<Path, Content>, a: seq<FsOp>, b: seq<FsOp>)
    ensures Replay(files, a + b) == Replay(Replay(files, a), b)
    decreases |b|
  {
    if b == [] {
      assert a + b == a;
    } else {
      var b' := b[..|b| - 1];
      assert (a + b)[..|a + b| - 1] == a + b';
      ReplayAppend(files, a, b');
    }
  }

  /** Replaying one more write. */
  lemma ReplaySnoc(files: map<Path, Content>, ops: seq<FsOp>, op: FsOp)
    ensures Replay(files, ops + [op]) == Apply(Replay(files, ops), op)
  {
    assert (ops + [op])[..|ops|] == ops;
  }

  /** Whether a write can change what is stored at `p`. */
  predicate Touches(op: FsOp, p: Path)
  {
    !op.MakeDirsParent? && op.path == p
  }

  /** Writes that do not touch `p` leave it as it was. */
  lemma {:induction false} ReplayElsewhere(files: map<Path, Content>, ops: seq<FsOp>, p: Path)
    requires forall i :: 0 <= i < |ops| ==> !Touches(ops[i], p)
    ensures p in Replay(files, ops) <==> p in files
    ensures p in files ==> Replay(files, ops)[p] == files[p]
    decreases |ops|
  {
    if ops != [] {
      ReplayElsewhere(files, ops[..|ops| - 1], p);
    }
  }

  /** `load_dict_from_file`: a missing file or one that is not a store fails. */
  function LoadDict(files: map<Path, Content>, p: Path): (r: Result<LocalStore, LoadFailure>)
    ensures r.Ok? <==> p in files && files[p].StoreFile?
    ensures r.Ok? ==> files[p] == StoreFile(r.value)
    ensures r == Err(NotAFile) <==> p !in files
  {
    if p !in files then Err(NotAFile)
    else match files[p]
      case StoreFile(s) => Ok(s)
      case _ => Err(NotAStore)
  }

  /**
    The file system object: its current files, and the log of writes made
    since it was created; the files are always the initial ones with the
    log replayed on them.
   */
  class FileSystem {
    var files: map<Path, Content>
    var log: seq<FsOp>
    ghost const initial: map<Path, Content>

    ghost predicate Valid()
      reads this
    {
      files == Replay(initial, log)
    }

    constructor(files0: map<Path, Content>)
      ensures files == files0 && log == [] && initial == files0
      ensures Valid()
    {
      files := files0;
      log := [];
      initial := files0;
    }

    /** `is_file`, with or without its cache: the file system has no cache here. */
    method IsFile(p: Path) returns (b: bool)
      ensures b <==> p in files
    {
      b := p in files;
    }

    method LoadDictFromFile(p: Path) returns (r: Result<LocalStore, LoadFailure>)
      ensures r == LoadDict(files, p)
    {
      r := LoadDict(files, p);
    }

    /** Performs one write and records it. */
    method Perform(op: FsOp)
      requires Valid()
      modifies this
      ensures Valid()
      ensures log == old(log) + [op]
      ensures files == Apply(old(files), op)
    {
      match op {
        case MakeDirsParent(_) =>
        case SaveJson(p, s) =>
          files := files[p := StoreFile(s)];
        case Unlink(p) =>
          files := files - {p};
        case Touch(p) =>
          if p !in files {
            files := files[p := Blank];
          }
      }
      log := log + [op];
      assert log[..|log| - 1] == old(log);
    }
  }
}
