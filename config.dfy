/**
  Configuration derivation of the downloader: where the ini file is looked
  for, the two bounded policy enums, the default settings, and how the
  already-parsed ini sections and the environment turn into the settings
  and the list of databases.
 */
module Config {
  import opened Wrappers
  import opened PosixPaths

  // ---------------------------------------------------------------------
  // Location of the ini file
  // ---------------------------------------------------------------------

  /** Raised by Python when indexing an empty string or an empty `parents`. */
  datatype PathError = IndexError

  /**
    The ini file that sits next to the executable, named after its stem. When
    the executable lives directly in a `scripts` folder of an absolute path,
    that folder is skipped. Without an executable the fixed default is used.
   */
  function ConfigFilePath(originalExecutable: Option<string>): (r: Result<string, PathError>)
    ensures originalExecutable.None? ==> r == Ok("/media/fat/downloader.ini")
    ensures originalExecutable.Some? ==>
      var exe := originalExecutable.value;
      (r.Err? <==> exe == [] || (exe[0] == '/' && Parse(exe).names == []))
  {
    match originalExecutable
    case None => Ok("/media/fat/downloader.ini")
    case Some(exe) => IniPathBeside(exe, Parse(exe))
  }

  /** `config_file_path` for an executable `exe` that parses to `path`. */
  function IniPathBeside(exe: string, path: PurePath): (r: Result<string, PathError>)
    ensures r.Err? <==> exe == [] || (exe[0] == '/' && path.names == [])
  {
    var parent := ToString(Parent(path));
    if exe == [] then Err(IndexError)
    else if exe[0] == '/' && |Parents(path)| == 0 then Err(IndexError)
    else
      var dir :=
        if exe[0] == '/' && Lower(Name(Parents(path)[0])) == "scripts" then
          var listOfParents := ReversedParentNamesOf(path);
          Join(listOfParents[0..|listOfParents| - 1], "/")
        else parent;
      Ok(dir + "/" + Stem(path) + ".ini")
  }

  /** True when `exe` is absolute and `path`'s directory is named `scripts` in any case. */
  predicate InScriptsFolder(exe: string, path: PurePath)
  {
    exe != [] && exe[0] == '/' && |path.names| >= 2 && Lower(path.names[|path.names| - 2]) == "scripts"
  }

  /** `[str(p.name) for p in reversed(path.parents)]`. */
  function ReversedParentNamesOf(path: PurePath): (l: seq<string>)
    ensures |l| == |path.names|
  {
    var n := |Parents(path)|;
    seq(n, i requires 0 <= i < n => Name(Parents(path)[n - 1 - i]))
  }

  /** The names of the reversed `parents` are "" (the root) followed by all directory names. */
  lemma {:induction false} ReversedParentNames(p: PurePath)
    requires |p.names| >= 1
    ensures ReversedParentNamesOf(p) == [""] + p.names[..|p.names| - 1]
  {
    var n := |p.names|;
    var l := ReversedParentNamesOf(p);
    forall i | 0 <= i < n ensures l[i] == ([""] + p.names[..n - 1])[i] {
      assert l[i] == Name(Parents(p)[n - 1 - i]);
      assert Parents(p)[n - 1 - i] == PurePath(p.root, p.names[..i]);
      if i > 0 {
        assert p.names[..i][i - 1] == p.names[i - 1];
      }
    }
  }

  /** Outside a `scripts` folder the ini file is `<parent>/<stem>.ini`. */
  lemma {:induction false} ConfigFilePathKeepsParent(exe: string, path: PurePath)
    requires path == Parse(exe)
    requires exe != [] && (exe[0] != '/' || path.names != [])
    requires !InScriptsFolder(exe, path)
    ensures ConfigFilePath(Some(exe)) == Ok(ToString(Parent(path)) + "/" + Stem(path) + ".ini")
  {
    if exe[0] == '/' && |path.names| == 1 {
      assert Name(Parents(path)[0]) == "";
      assert Lower("") != "scripts";
    } else if exe[0] == '/' {
      assert Name(Parents(path)[0]) == path.names[|path.names| - 2];
    }
  }

  /**
    Inside a `scripts` folder of an absolute path the folder is dropped: the
    directory used, followed by "/" and the `scripts` folder's own name, spells
    out the executable's directory below the root.
   */
  lemma {:induction false} ConfigFilePathDropsScripts(exe: string, path: PurePath)
    requires path == Parse(exe)
    requires InScriptsFolder(exe, path)
    ensures var n := |path.names|;
      var dir := Join([""] + path.names[..n - 2], "/");
      && ConfigFilePath(Some(exe)) == Ok(dir + "/" + Stem(path) + ".ini")
      && dir + "/" + path.names[n - 2] == "/" + Join(path.names[..n - 1], "/")
  {
    assert ConfigFilePath(Some(exe)) == IniPathBeside(exe, path);
    IniPathBesideDropsScripts(exe, path);
  }

  lemma {:induction false} IniPathBesideDropsScripts(exe: string, path: PurePath)
    requires InScriptsFolder(exe, path)
    ensures var n := |path.names|;
      var dir := Join([""] + path.names[..n - 2], "/");
      && IniPathBeside(exe, path) == Ok(dir + "/" + Stem(path) + ".ini")
      && dir + "/" + path.names[n - 2] == "/" + Join(path.names[..n - 1], "/")
  {
    ScriptsFolderOfParents(path);
    JoinBelowRoot(path.names, |path.names| - 1);
  }

  /** The nearest parent is the `scripts` folder, and the reversed parent names before it are the root and the folders above. */
  lemma {:induction false} ScriptsFolderOfParents(path: PurePath)
    requires |path.names| >= 2
    ensures var n := |path.names|;
      && Name(Parents(path)[0]) == path.names[n - 2]
      && ReversedParentNamesOf(path)[0..n - 1] == [""] + path.names[..n - 2]
  {
    var n := |path.names|;
    ReversedParentNames(path);
    var l := [""] + path.names[..n - 1];
    assert l[0..n - 1] == [""] + path.names[..n - 2];
    assert Parents(path)[0] == PurePath(path.root, path.names[..n - 1]);
  }

  /** Joining the root piece and the first `k - 1` names, then the `k`-th, spells "/" and the first `k` names. */
  lemma {:induction false} JoinBelowRoot(names: seq<string>, k: nat)
    requires 1 <= k <= |names|
    ensures Join([""] + names[..k - 1], "/") + "/" + names[k - 1] == "/" + Join(names[..k], "/")
  {
    JoinSnoc([""] + names[..k - 1], names[k - 1], "/");
    assert ([""] + names[..k - 1]) + [names[k - 1]] == [""] + names[..k];
    assert ([""] + names[..k])[1..] == names[..k];
  }

  /** Joining one more piece appends the separator and the piece. */
  lemma {:induction false} JoinSnoc(parts: seq<string>, x: string, sep: string)
    requires |parts| >= 1
    ensures Join(parts + [x], sep) == Join(parts, sep) + sep + x
    decreases |parts|
  {
    if |parts| == 1 {
      assert (parts + [x])[1..] == [x];
    } else {
      assert (parts + [x])[1..] == parts[1..] + [x];
      JoinSnoc(parts[1..], x, sep);
    }
  }

  /** Whatever the executable, a successful result ends in ".ini". */
  lemma {:induction false} ConfigFilePathEndsInIni(exe: Option<string>)
    requires ConfigFilePath(exe).Ok?
    ensures var v := ConfigFilePath(exe).value; |v| >= 4 && v[|v| - 4..] == ".ini"
  {
    if exe.Some? {
      var e := exe.value;
      var path := Parse(e);
      if InScriptsFolder(e, path) {
        ConfigFilePathDropsScripts(e, path);
      } else {
        ConfigFilePathKeepsParent(e, path);
      }
    }
  }

  /** The MiSTer default location: `/media/fat/Scripts/downloader.sh` reads `/media/fat/downloader.ini`. */
  lemma ConfigFilePathOfScriptsExample(exe: string)
    requires exe == "/media/fat/Scripts/downloader.sh"
    ensures ConfigFilePath(Some(exe)) == Ok("/media/fat/downloader.ini")
  {
    var names := ["media", "fat", "Scripts", "downloader.sh"];
    var path := PurePath("/", names);
    ParseOfScriptsExample(exe);
    assert InScriptsFolder(exe, path) by {
      assert Lower("Scripts") == "scripts";
    }
    ConfigFilePathDropsScripts(exe, path);
    StemOfDownloaderSh("downloader.sh");
    DirOfScriptsExample(names);
    IniNameOfScriptsExample();
  }

  lemma DirOfScriptsExample(names: seq<string>)
    requires names == ["media", "fat", "Scripts", "downloader.sh"]
    ensures Join([""] + names[..2], "/") == "/media/fat"
  {
    assert [""] + names[..2] == ["", "media", "fat"];
    assert ["", "media", "fat"][1..] == ["media", "fat"];
    assert ["media", "fat"][1..] == ["fat"];
  }

  lemma ParseOfScriptsExample(exe: string)
    requires exe == "/media/fat/Scripts/downloader.sh"
    ensures Parse(exe) == PurePath("/", ["media", "fat", "Scripts", "downloader.sh"])
  {
    SplitOfScriptsExample(exe);
    NamesOfScriptsExample(["", "media", "fat", "Scripts", "downloader.sh"]);
  }

  lemma SplitOfScriptsExample(exe: string)
    requires exe == "/media/fat/Scripts/downloader.sh"
    ensures Split(exe) == ["", "media", "fat", "Scripts", "downloader.sh"]
  {
    SpellingOfScriptsExample(exe);
    SplitAbsolute4(exe, "media", "fat", "Scripts", "downloader.sh");
  }

  /** The example path, spelled as the root piece and four names joined by slashes. */
  lemma SpellingOfScriptsExample(exe: string)
    requires exe == "/media/fat/Scripts/downloader.sh"
    ensures exe == "" + "/" + ("media" + "/" + ("fat" + "/" + ("Scripts" + "/" + "downloader.sh")))
  {
    SpellingOfScriptsTail();
    Spelled("media", "fat/Scripts/downloader.sh", "media/fat/Scripts/downloader.sh");
    Spelled("", "media/fat/Scripts/downloader.sh", "/media/fat/Scripts/downloader.sh");
  }

  lemma SpellingOfScriptsTail()
    ensures "fat" + "/" + ("Scripts" + "/" + "downloader.sh") == "fat/Scripts/downloader.sh"
  {
    Spelled("Scripts", "downloader.sh", "Scripts/downloader.sh");
    Spelled("fat", "Scripts/downloader.sh", "fat/Scripts/downloader.sh");
  }

  /** `a + "/" + b` spells `s` when `s` is `a`, a slash, then `b`. */
  lemma {:induction false} Spelled(a: string, b: string, s: string)
    requires |s| == |a| + 1 + |b|
    requires s[..|a|] == a && s[|a|] == '/' && s[|a| + 1..] == b
    ensures a + "/" + b == s
  {
  }

  /** An absolute path of four slash-free names splits into the root piece and the names. */
  lemma SplitAbsolute4(s: string, a: string, b: string, c: string, d: string)
    requires '/' !in a && '/' !in b && '/' !in c && '/' !in d
    requires s == "" + "/" + (a + "/" + (b + "/" + (c + "/" + d)))
    ensures Split(s) == ["", a, b, c, d]
  {
    var r3 := c + "/" + d;
    var r2 := b + "/" + r3;
    var r1 := a + "/" + r2;
    SplitSlashFree(d);
    SplitConcat(c, d);
    SplitConcat(b, r3);
    SplitConcat(a, r2);
    SplitConcat("", r1);
  }

  lemma NamesOfScriptsExample(parts: seq<string>)
    requires parts == ["", "media", "fat", "Scripts", "downloader.sh"]
    ensures Names(parts) == ["media", "fat", "Scripts", "downloader.sh"]
  {
    var names := ["media", "fat", "Scripts", "downloader.sh"];
    assert parts[1..] == names;
    assert names[3..][1..] == [];
    assert names[2..][1..] == names[3..];
    assert names[1..][1..] == names[2..];
    assert names[1..] == ["fat", "Scripts", "downloader.sh"];
  }

  lemma StemOfDownloaderSh(name: string)
    requires name == "downloader.sh"
    ensures Stem(PurePath("/", ["media", "fat", "Scripts", name])) == "downloader"
    ensures Stem(PurePath("", [name])) == "downloader"
  {
    assert name[..12] == "downloader.s";
    assert name[..12][..11] == "downloader.";
    assert RFind(name, '.') == 10;
  }

  lemma IniNameOfScriptsExample()
    ensures "/media/fat" + "/" + "downloader" + ".ini" == "/media/fat/downloader.ini"
  {
  }

  /** A relative executable keeps its (possibly ".") directory. */
  lemma ConfigFilePathOfRelativeExample(exe: string)
    requires exe == "downloader.sh"
    ensures ConfigFilePath(Some(exe)) == Ok("./downloader.ini")
  {
    var path := PurePath("", [exe]);
    assert Parse(exe) == path by { SplitSlashFree(exe); }
    ConfigFilePathKeepsParent(exe, path);
    StemOfDownloaderSh(exe);
    assert Parent(path) == PurePath("", []);
    assert ToString(Parent(path)) == ".";
    IniNameOfRelativeExample();
  }

  lemma IniNameOfRelativeExample()
    ensures "." + "/" + "downloader" + ".ini" == "./downloader.ini"
  {
  }

  // ---------------------------------------------------------------------
  // Policies
  // ---------------------------------------------------------------------

  /** Which files may be deleted: none, all, or only old core binaries. */
  datatype AllowDelete = DeleteNone | DeleteAll | DeleteOldRbf

  /** Whether the device may reboot: never, always, or only after a Linux update. */
  datatype AllowReboot = Never | Always | OnlyAfterLinuxUpdate

  function AllowDeleteValue(a: AllowDelete): (v: int)
    ensures 0 <= v <= 2
  {
    match a
    case DeleteNone => 0
    case DeleteAll => 1
    case DeleteOldRbf => 2
  }

  /** `AllowDelete(v)`: only the three declared values are accepted. */
  function AllowDeleteOf(v: int): (r: Option<AllowDelete>)
    ensures r.Some? <==> 0 <= v <= 2
    ensures r.Some? ==> AllowDeleteValue(r.value) == v
  {
    if v == 0 then Some(DeleteNone)
    else if v == 1 then Some(DeleteAll)
    else if v == 2 then Some(DeleteOldRbf)
    else None
  }

  function AllowRebootValue(a: AllowReboot): (v: int)
    ensures 0 <= v <= 2
  {
    match a
    case Never => 0
    case Always => 1
    case OnlyAfterLinuxUpdate => 2
  }

  /** `AllowReboot(v)`: only the three declared values are accepted. */
  function AllowRebootOf(v: int): (r: Option<AllowReboot>)
    ensures r.Some? <==> 0 <= v <= 2
    ensures r.Some? ==> AllowRebootValue(r.value) == v
  {
    if v == 0 then Some(Never)
    else if v == 1 then Some(Always)
    else if v == 2 then Some(OnlyAfterLinuxUpdate)
    else None
  }

  /** Both enums are unique: every member maps back to itself through its value. */
  lemma {:induction false} PolicyValuesRoundTrip(d: AllowDelete, r: AllowReboot)
    ensures AllowDeleteOf(AllowDeleteValue(d)) == Some(d)
    ensures AllowRebootOf(AllowRebootValue(r)) == Some(r)
  {
    match d
    case DeleteNone =>
    case DeleteAll =>
    case DeleteOldRbf =>
  }

  // ---------------------------------------------------------------------
  // `int()` on an environment value
  // ---------------------------------------------------------------------

  /**
    The ASCII characters `int()` skips around the number: C's `isspace`,
    tab to carriage return and space. The separators 0x1c to 0x1f, which
    `str.strip()` would drop, are not among them.
   */
  predicate IsSpace(ch: char)
  {
    9 <= ch as int <= 13 || ch == ' '
  }

  predicate IsDigit(ch: char)
  {
    '0' <= ch <= '9'
  }

  /** Drops the leading white space. */
  function StripStart(s: string): (t: string)
    ensures |t| <= |s| && t == s[|s| - |t|..]
    ensures forall j :: 0 <= j < |s| - |t| ==> IsSpace(s[j])
    ensures t == [] || !IsSpace(t[0])
    decreases |s|
  {
    if s != [] && IsSpace(s[0]) then StripStart(s[1..]) else s
  }

  /** Drops the trailing white space. */
  function StripEnd(s: string): (t: string)
    ensures |t| <= |s| && t == s[..|t|]
    ensures forall j :: |t| <= j < |s| ==> IsSpace(s[j])
    ensures t == [] || !IsSpace(t[|t| - 1])
    decreases |s|
  {
    if s != [] && IsSpace(s[|s| - 1]) then StripEnd(s[..|s| - 1]) else s
  }

  /** Drops the white space `int()` skips at both ends. */
  function Strip(s: string): string
  {
    StripEnd(StripStart(s))
  }

  /** Decimal digits, with single underscores allowed between two digits. */
  predicate DigitGroups(t: string)
  {
    && |t| >= 1 && IsDigit(t[0]) && IsDigit(t[|t| - 1])
    && (forall i :: 0 <= i < |t| ==> IsDigit(t[i]) || t[i] == '_')
    && (forall i :: 0 <= i < |t| - 1 ==> t[i] == '_' ==> t[i + 1] != '_')
  }

  /** The number the digits of `t` spell, underscores ignored. */
  function DigitsValue(t: string): int
    decreases |t|
  {
    if t == [] then 0
    else if t[|t| - 1] == '_' then DigitsValue(t[..|t| - 1])
    else DigitsValue(t[..|t| - 1]) * 10 + (t[|t| - 1] as int - '0' as int)
  }

  /**
    `int(s)` in base ten: white space around, an optional sign, then digit
    groups. Anything else makes Python raise `ValueError`, here `None`.
   */
  function IntOf(s: string): (r: Option<int>)
    ensures (forall i :: 0 <= i < |s| ==> !IsDigit(s[i])) ==> r.None?
  {
    StrippedFromSource(s);
    SignedDigitsOf(Strip(s))
  }

  /** An optional sign followed by digit groups, read from text already stripped. */
  function SignedDigitsOf(t: string): (r: Option<int>)
    ensures (forall i :: 0 <= i < |t| ==> !IsDigit(t[i])) ==> r.None?
  {
    var signed := t != [] && (t[0] == '-' || t[0] == '+');
    var body := if signed then t[1..] else t;
    assert forall i :: 0 <= i < |body| ==> body[i] in t;
    if !DigitGroups(body) then None
    else if signed && t[0] == '-' then Some(-DigitsValue(body))
    else Some(DigitsValue(body))
  }

  /** Every character left by the strip comes from `s`. */
  lemma {:induction false} StrippedFromSource(s: string)
    ensures forall c :: c in Strip(s) ==> c in s
  {
    var u := StripStart(s);
    var t := StripEnd(u);
    forall c | c in t ensures c in s {
      var k :| 0 <= k < |t| && t[k] == c;
      assert t[k] == u[k] == s[|s| - |u| + k];
    }
  }

  /** A character of `s` that is not white space survives the strip. */
  lemma {:induction false} StripKeeps(s: string, i: nat)
    requires i < |s| && !IsSpace(s[i])
    ensures exists k :: 0 <= k < |Strip(s)| && Strip(s)[k] == s[i]
  {
    var u := StripStart(s);
    var k := i - (|s| - |u|);
    assert 0 <= k < |u| && u[k] == s[i];
    assert !IsSpace(u[k]);
    var t := StripEnd(u);
    assert k < |t|;
    assert t[k] == u[k] == s[i];
    assert Strip(s) == t;
    assert 0 <= k < |Strip(s)| && Strip(s)[k] == s[i];
  }

  /** `int()` skips the spaces and newlines around the digits: `int(" 1\n") == 1`. */
  lemma IntOfSkipsSpace()
    ensures IntOf(" 1\n") == Some(1)
  {
    StripOfPadded();
    SignedDigitsOfOne();
  }

  /** The digit `"1"` reads as one. */
  lemma SignedDigitsOfOne()
    ensures SignedDigitsOf("1") == Some(1)
  {
    assert "1"[..0] == [] && DigitsValue("1") == 1;
    assert DigitGroups("1");
  }

  /** Stripping `" 1\n"` leaves `"1"`. */
  lemma StripOfPadded()
    ensures Strip(" 1\n") == "1"
  {
    var s := " 1\n";
    assert IsSpace(s[0]) && s[1..] == "1\n";
    var u := "1\n";
    assert !IsSpace(u[0]) && StripStart(u) == u;
    assert IsSpace(u[1]) && u[..1] == "1";
    assert !IsSpace('1') && StripEnd("1") == "1";
  }

  /** `int()` does not skip the separator 0x1c, which `str.strip()` would: `int("\x1c1")` raises. */
  lemma IntOfKeepsSeparator()
    ensures IntOf([28 as char, '1']).None?
  {
    var s := [28 as char, '1'];
    assert !IsSpace(s[0]) && !IsSpace(s[1]);
    assert StripStart(s) == s && StripEnd(s) == s;
    assert !DigitGroups(s);
  }

  /** A value holding a letter is never a number: `int("yes")` raises. */
  lemma {:induction false} IntOfRejectsLetters(s: string, i: nat)
    requires i < |s| && ('a' <= s[i] <= 'z' || 'A' <= s[i] <= 'Z')
    ensures IntOf(s).None?
  {
    StripKeeps(s, i);
    var t := Strip(s);
    var k :| 0 <= k < |t| && t[k] == s[i];
    var signed := t[0] == '-' || t[0] == '+';
    var body := if signed then t[1..] else t;
    var j := if signed then k - 1 else k;
    assert 0 <= j < |body| && body[j] == s[i];
    assert !DigitGroups(body);
  }

  /** The decimal spelling of a natural number, as `str(n)` gives it. */
  function NatDigits(n: nat): (t: string)
    ensures |t| >= 1 && forall i :: 0 <= i < |t| ==> IsDigit(t[i])
    decreases n
  {
    var d := ['0' + (n % 10) as char];
    if n < 10 then d else NatDigits(n / 10) + d
  }

  /** The decimal spelling of an integer, as `str(n)` gives it. */
  function Decimal(n: int): string
  {
    if n < 0 then "-" + NatDigits(-n) else NatDigits(n)
  }

  lemma {:induction false} NatDigitsValue(n: nat)
    ensures DigitsValue(NatDigits(n)) == n
    decreases n
  {
    var t := NatDigits(n);
    if n >= 10 {
      NatDigitsValue(n / 10);
      assert t[..|t| - 1] == NatDigits(n / 10);
    }
  }

  /** `int(str(n)) == n`: every integer's decimal spelling reads back as that integer. */
  lemma {:induction false} IntOfDecimal(n: int)
    ensures IntOf(Decimal(n)) == Some(n)
  {
    StripNothing(Decimal(n));
    SignedDigitsOfDecimal(n);
  }

  /** The decimal spelling, sign included, reads back as the number. */
  lemma {:induction false} SignedDigitsOfDecimal(n: int)
    ensures SignedDigitsOf(Decimal(n)) == Some(n)
  {
    var t := Decimal(n);
    var m := if n < 0 then -n else n;
    NatDigitsValue(m);
    NatDigitsAreGroups(m);
    if n < 0 {
      assert t[1..] == NatDigits(m);
    }
  }

  lemma {:induction false} NatDigitsAreGroups(n: nat)
    ensures DigitGroups(NatDigits(n))
  {
  }

  /** A text with no white space at either end is its own strip. */
  lemma {:induction false} StripNothing(t: string)
    requires t != [] && !IsSpace(t[0]) && !IsSpace(t[|t| - 1])
    ensures Strip(t) == t
  {
    assert StripStart(t) == t;
    assert StripEnd(t) == t;
  }

  // ---------------------------------------------------------------------
  // Settings
  // ---------------------------------------------------------------------

  datatype Database = Database(dbUrl: string, section: string)

  datatype Config = Config(
    databases: seq<Database>,
    basePath: string,
    baseSystemPath: string,
    allowDelete: AllowDelete,
    allowReboot: AllowReboot,
    checkManuallyDeletedFiles: bool,
    updateLinux: bool,
    parallelUpdate: bool,
    downloaderSizeMbLimit: int,
    downloaderProcessLimit: int,
    downloaderTimeout: int,
    downloaderRetries: int,
    verbose: bool,
    configPath: Option<PurePath>)

  /** `default_config()`: no databases yet, deleting allowed (ALL = 1), rebooting allowed (ALWAYS = 1). */
  function DefaultConfig(): (c: Config)
    ensures c.databases == [] && c.configPath.None?
    ensures AllowDeleteValue(c.allowDelete) == 1 && AllowRebootValue(c.allowReboot) == 1
    ensures c.basePath == c.baseSystemPath == "/media/fat/"
  {
    Config(
      databases := [],
      basePath := "/media/fat/",
      baseSystemPath := "/media/fat/",
      allowDelete := DeleteAll,
      allowReboot := Always,
      checkManuallyDeletedFiles := true,
      updateLinux := true,
      parallelUpdate := true,
      downloaderSizeMbLimit := 100,
      downloaderProcessLimit := 300,
      downloaderTimeout := 300,
      downloaderRetries := 3,
      verbose := false,
      configPath := None)
  }

  /**
    One ini section as the ini parser presents it (defaults of the DEFAULT
    section already visible), with its values already converted by type.
   */
  datatype Section = Section(
    name: string,
    strings: map<string, string>,
    ints: map<string, int>,
    bools: map<string, bool>)

  /** The parsed ini file: the DEFAULT section and the other sections in file order. */
  datatype IniFile = IniFile(defaults: map<string, string>, sections: seq<Section>)

  /** The environment values read: DEFAULT_DB_URL, DEFAULT_DB_ID and ALLOW_REBOOT, as text. */
  datatype Env = Env(defaultDbUrl: string, defaultDbId: string, allowReboot: Option<string>)

  datatype ConfigError =
    | InvalidAllowDelete(value: int)
    | InvalidAllowReboot(value: int)
    | NotAnInteger(text: string)
    | MissingDbUrl(section: string)

  function GetString(s: Section, key: string, default: string): string
  {
    if key in s.strings then s.strings[key] else default
  }

  function GetInt(s: Section, key: string, default: int): int
  {
    if key in s.ints then s.ints[key] else default
  }

  function GetBool(s: Section, key: string, default: bool): bool
  {
    if key in s.bools then s.bools[key] else default
  }

  predicate IsMister(s: Section)
  {
    Lower(s.name) == "mister"
  }

  /** The `[mister]` section: every listed setting overrides, every other keeps its value. */
  function ApplyMister(c: Config, s: Section): (r: Result<Config, ConfigError>)
    ensures r.Ok? ==> r.value.databases == c.databases && r.value.configPath == c.configPath
    ensures r.Err? <==>
      ("allow_delete" in s.ints && AllowDeleteOf(s.ints["allow_delete"]).None?) ||
      ("allow_reboot" in s.ints && AllowRebootOf(s.ints["allow_reboot"]).None?)
  {
    var delete := GetInt(s, "allow_delete", AllowDeleteValue(c.allowDelete));
    var reboot := GetInt(s, "allow_reboot", AllowRebootValue(c.allowReboot));
    match AllowDeleteOf(delete)
    case None => Err(InvalidAllowDelete(delete))
    case Some(allowDelete) =>
      match AllowRebootOf(reboot)
      case None => Err(InvalidAllowReboot(reboot))
      case Some(allowReboot) =>
        Ok(c.(
          basePath := GetString(s, "base_path", c.basePath),
          baseSystemPath := GetString(s, "base_system_path", c.baseSystemPath),
          allowDelete := allowDelete,
          allowReboot := allowReboot,
          checkManuallyDeletedFiles := GetBool(s, "check_manually_deleted_files", c.checkManuallyDeletedFiles),
          verbose := GetBool(s, "verbose", c.verbose),
          parallelUpdate := GetBool(s, "parallel_update", c.parallelUpdate),
          updateLinux := GetBool(s, "update_linux", c.updateLinux),
          downloaderSizeMbLimit := GetInt(s, "downloader_size_mb_limit", c.downloaderSizeMbLimit),
          downloaderProcessLimit := GetInt(s, "downloader_process_limit", c.downloaderProcessLimit),
          downloaderTimeout := GetInt(s, "downloader_timeout", c.downloaderTimeout),
          downloaderRetries := GetInt(s, "downloader_retries", c.downloaderRetries)))
  }

  /** A setting the `[mister]` section does not list keeps its current value. */
  lemma {:induction false} MisterKeepsUnlisted(c: Config, s: Section)
    requires ApplyMister(c, s).Ok?
    ensures var r := ApplyMister(c, s).value;
      && ("base_path" !in s.strings ==> r.basePath == c.basePath)
      && ("base_system_path" !in s.strings ==> r.baseSystemPath == c.baseSystemPath)
      && ("allow_delete" !in s.ints ==> r.allowDelete == c.allowDelete)
      && ("allow_reboot" !in s.ints ==> r.allowReboot == c.allowReboot)
      && ("check_manually_deleted_files" !in s.bools ==> r.checkManuallyDeletedFiles == c.checkManuallyDeletedFiles)
      && ("verbose" !in s.bools ==> r.verbose == c.verbose)
      && ("parallel_update" !in s.bools ==> r.parallelUpdate == c.parallelUpdate)
      && ("update_linux" !in s.bools ==> r.updateLinux == c.updateLinux)
      && ("downloader_size_mb_limit" !in s.ints ==> r.downloaderSizeMbLimit == c.downloaderSizeMbLimit)
      && ("downloader_process_limit" !in s.ints ==> r.downloaderProcessLimit == c.downloaderProcessLimit)
      && ("downloader_timeout" !in s.ints ==> r.downloaderTimeout == c.downloaderTimeout)
      && ("downloader_retries" !in s.ints ==> r.downloaderRetries == c.downloaderRetries)
  {
    MisterKeepsPolicies(c, s);
  }

  /** The two policies of a `[mister]` section that does not list them keep their values. */
  lemma {:induction false} MisterKeepsPolicies(c: Config, s: Section)
    requires ApplyMister(c, s).Ok?
    ensures "allow_delete" !in s.ints ==> ApplyMister(c, s).value.allowDelete == c.allowDelete
    ensures "allow_reboot" !in s.ints ==> ApplyMister(c, s).value.allowReboot == c.allowReboot
  {
    PolicyValuesRoundTrip(c.allowDelete, c.allowReboot);
  }

  /** A setting the `[mister]` section lists takes the section's value. */
  lemma {:induction false} MisterOverridesListed(c: Config, s: Section)
    requires ApplyMister(c, s).Ok?
    ensures var r := ApplyMister(c, s).value;
      && ("base_path" in s.strings ==> r.basePath == s.strings["base_path"])
      && ("base_system_path" in s.strings ==> r.baseSystemPath == s.strings["base_system_path"])
      && ("allow_delete" in s.ints ==> AllowDeleteValue(r.allowDelete) == s.ints["allow_delete"])
      && ("allow_reboot" in s.ints ==> AllowRebootValue(r.allowReboot) == s.ints["allow_reboot"])
      && ("check_manually_deleted_files" in s.bools ==> r.checkManuallyDeletedFiles == s.bools["check_manually_deleted_files"])
      && ("verbose" in s.bools ==> r.verbose == s.bools["verbose"])
      && ("parallel_update" in s.bools ==> r.parallelUpdate == s.bools["parallel_update"])
      && ("update_linux" in s.bools ==> r.updateLinux == s.bools["update_linux"])
      && ("downloader_size_mb_limit" in s.ints ==> r.downloaderSizeMbLimit == s.ints["downloader_size_mb_limit"])
      && ("downloader_process_limit" in s.ints ==> r.downloaderProcessLimit == s.ints["downloader_process_limit"])
      && ("downloader_timeout" in s.ints ==> r.downloaderTimeout == s.ints["downloader_timeout"])
      && ("downloader_retries" in s.ints ==> r.downloaderRetries == s.ints["downloader_retries"])
  {
  }

  /**
    A database section: its `db_url`, or the environment's default URL when the
    section is the default database's (compared case-insensitively).
   */
  function DbEntry(s: Section, env: Env): (r: Result<Database, ConfigError>)
    ensures r.Ok? <==> "db_url" in s.strings || Lower(s.name) == Lower(env.defaultDbId)
    ensures r.Ok? ==> r.value.section == s.name
    ensures r.Ok? && "db_url" in s.strings ==> r.value.dbUrl == s.strings["db_url"]
    ensures r.Ok? && "db_url" !in s.strings ==> r.value.dbUrl == env.defaultDbUrl
    ensures r.Err? ==> r.error == MissingDbUrl(s.name)
  {
    var defaultUrl := if Lower(s.name) == Lower(env.defaultDbId) then Some(env.defaultDbUrl) else None;
    var dbUrl := if "db_url" in s.strings then Some(s.strings["db_url"]) else defaultUrl;
    match dbUrl
    case None => Err(MissingDbUrl(s.name))
    case Some(url) => Ok(Database(url, s.name))
  }

  /** One iteration of the section loop. */
  function ApplySection(c: Config, s: Section, env: Env): Result<Config, ConfigError>
  {
    if IsMister(s) then ApplyMister(c, s)
    else
      match DbEntry(s, env)
      case Err(e) => Err(e)
      case Ok(db) => Ok(c.(databases := c.databases + [db]))
  }

  /** The section loop over `secs`, stopping at the first error. */
  function ApplySections(c: Config, secs: seq<Section>, env: Env): Result<Config, ConfigError>
    decreases |secs|
  {
    if secs == [] then Ok(c)
    else
      match ApplySections(c, secs[..|secs| - 1], env)
      case Err(e) => Err(e)
      case Ok(c') => ApplySection(c', secs[|secs| - 1], env)
  }

  /** The database entry appended when no database section was read. */
  function DefaultDatabase(ini: IniFile, env: Env): Database
  {
    Database(if "db_url" in ini.defaults then ini.defaults["db_url"] else env.defaultDbUrl, env.defaultDbId)
  }

  /** `read_config` as a function of the parsed ini file and the environment. */
  function ReadConfigSpec(configPath: string, ini: IniFile, env: Env): Result<Config, ConfigError>
  {
    var start := DefaultConfig().(configPath := Some(Parse(configPath)));
    match ApplySections(start, ini.sections, env)
    case Err(e) => Err(e)
    case Ok(c) =>
      var withDb := if |c.databases| == 0 then c.(databases := [DefaultDatabase(ini, env)]) else c;
      RebootOverride(withDb, env)
  }

  /** The last step of `read_config`: `ALLOW_REBOOT`, when set, replaces the reboot policy. */
  function RebootOverride(c: Config, env: Env): Result<Config, ConfigError>
  {
    match env.allowReboot
    case None => Ok(c)
    case Some(text) =>
      match IntOf(text)
      case None => Err(NotAnInteger(text))
      case Some(v) =>
        match AllowRebootOf(v)
        case None => Err(InvalidAllowReboot(v))
        case Some(allowReboot) => Ok(c.(allowReboot := allowReboot))
  }

  /** Once the section loop has failed, later sections do not matter. */
  lemma {:induction false} ApplySectionsErrorSticks(c: Config, secs: seq<Section>, env: Env, i: nat)
    requires i <= |secs|
    requires ApplySections(c, secs[..i], env).Err?
    ensures ApplySections(c, secs, env) == ApplySections(c, secs[..i], env)
    decreases |secs| - i
  {
    if i < |secs| {
      assert secs[..i + 1][..i] == secs[..i];
      ApplySectionsErrorSticks(c, secs, env, i + 1);
    } else {
      assert secs[..i] == secs;
    }
  }

  /** One pass of the section loop: a `[mister]` section updates the settings, any other appends a database. */
  method ReadSection(result: Config, section: Section, env: Env) returns (r: Result<Config, ConfigError>)
    ensures r == ApplySection(result, section, env)
  {
    if IsMister(section) {
      r := ApplyMister(result, section);
      return;
    }
    var entry := DbEntry(section, env);
    if entry.Err? {
      return Err(entry.error);
    }
    r := Ok(result.(databases := result.databases + [entry.value]));
  }

  /** The section dispatch of `read_config`, as the loop the source runs. */
  method ReadConfig(configPath: string, ini: IniFile, env: Env) returns (r: Result<Config, ConfigError>)
    ensures r == ReadConfigSpec(configPath, ini, env)
  {
    var result := DefaultConfig();
    result := result.(configPath := Some(Parse(configPath)));
    ghost var start := result;
    var i := 0;
    while i < |ini.sections|
      invariant 0 <= i <= |ini.sections|
      invariant ApplySections(start, ini.sections[..i], env) == Ok(result)
    {
      assert ini.sections[..i + 1][..i] == ini.sections[..i];
      var applied := ReadSection(result, ini.sections[i], env);
      if applied.Err? {
        ApplySectionsErrorSticks(start, ini.sections, env, i + 1);
        return Err(applied.error);
      }
      result := applied.value;
      i := i + 1;
    }
    assert ini.sections[..i] == ini.sections;
    if |result.databases| == 0 {
      result := result.(databases := [DefaultDatabase(ini, env)]);
    }
    r := ApplyRebootOverride(result, env);
  }

  /** `AllowReboot(int(env['ALLOW_REBOOT']))` when the variable is set. */
  method ApplyRebootOverride(c: Config, env: Env) returns (r: Result<Config, ConfigError>)
    ensures r == RebootOverride(c, env)
  {
    r := Ok(c);
    if env.allowReboot.Some? {
      var value := IntOf(env.allowReboot.value);
      if value.None? {
        return Err(NotAnInteger(env.allowReboot.value));
      }
      var allowReboot := AllowRebootOf(value.value);
      if allowReboot.None? {
        return Err(InvalidAllowReboot(value.value));
      }
      r := Ok(c.(allowReboot := allowReboot.value));
    }
  }

  // ---------------------------------------------------------------------
  // What the section dispatch promises
  // ---------------------------------------------------------------------

  /** The sections that declare databases, in file order. */
  function DbSections(secs: seq<Section>): (dbs: seq<Section>)
    ensures |dbs| <= |secs|
    ensures forall i :: 0 <= i < |dbs| ==> !IsMister(dbs[i]) && dbs[i] in secs
    decreases |secs|
  {
    if secs == [] then []
    else DbSections(secs[..|secs| - 1]) + (if IsMister(secs[|secs| - 1]) then [] else [secs[|secs| - 1]])
  }

  /** The `[mister]` sections, in file order. */
  function MisterSections(secs: seq<Section>): (ms: seq<Section>)
    ensures |ms| <= |secs|
    ensures forall i :: 0 <= i < |ms| ==> IsMister(ms[i]) && ms[i] in secs
    decreases |secs|
  {
    if secs == [] then []
    else MisterSections(secs[..|secs| - 1]) + (if IsMister(secs[|secs| - 1]) then [secs[|secs| - 1]] else [])
  }

  /** One section is a database section or a `[mister]` section, never both. */
  lemma {:induction false} SectionsOfOne(s: Section)
    ensures DbSections([s]) == if IsMister(s) then [] else [s]
    ensures MisterSections([s]) == if IsMister(s) then [s] else []
  {
    assert [s][..0] == [];
  }

  /** Both filters keep file order: the sections of a concatenation are the concatenated sections. */
  lemma {:induction false} SectionsAppend(a: seq<Section>, b: seq<Section>)
    ensures DbSections(a + b) == DbSections(a) + DbSections(b)
    ensures MisterSections(a + b) == MisterSections(a) + MisterSections(b)
    decreases |b|
  {
    if b == [] {
      assert a + b == a;
    } else {
      var ab := a + b;
      assert ab[..|ab| - 1] == a + b[..|b| - 1];
      assert ab[|ab| - 1] == b[|b| - 1];
      SectionsAppend(a, b[..|b| - 1]);
    }
  }

  /** Every section lands in exactly one of the two filters. */
  lemma {:induction false} SectionsPartition(secs: seq<Section>)
    ensures multiset(DbSections(secs)) + multiset(MisterSections(secs)) == multiset(secs)
    decreases |secs|
  {
    if secs != [] {
      var init := secs[..|secs| - 1];
      SectionsPartition(init);
      assert secs == init + [secs[|secs| - 1]];
    }
  }

  /**
    Every database section yields exactly one entry, appended in section order,
    named after its section, with the URL that section resolves to.
   */
  lemma {:induction false} DatabasesFollowSections(c: Config, secs: seq<Section>, env: Env)
    requires ApplySections(c, secs, env).Ok?
    ensures var r := ApplySections(c, secs, env).value; var ds := DbSections(secs);
      && |r.databases| == |c.databases| + |ds|
      && r.databases[..|c.databases|] == c.databases
      && forall i :: 0 <= i < |ds| ==>
           DbEntry(ds[i], env) == Ok(r.databases[|c.databases| + i]) && r.databases[|c.databases| + i].section == ds[i].name
    decreases |secs|
  {
    if secs != [] {
      var init := secs[..|secs| - 1];
      var last := secs[|secs| - 1];
      DatabasesFollowSections(c, init, env);
      var prev := ApplySections(c, init, env).value;
      var r := ApplySections(c, secs, env).value;
      var ds := DbSections(secs);
      if IsMister(last) {
        assert ds == DbSections(init) + [];
        assert r.databases == prev.databases;
      } else {
        assert ds == DbSections(init) + [last];
        assert r.databases == prev.databases + [DbEntry(last, env).value];
      }
    }
  }

  /** Database sections never change a setting: the settings come from the `[mister]` sections alone. */
  lemma {:induction false} SettingsFollowMisterSections(c: Config, secs: seq<Section>, env: Env)
    requires ApplySections(c, secs, env).Ok?
    ensures ApplySections(c, MisterSections(secs), env).Ok?
    ensures ApplySections(c, MisterSections(secs), env).value
         == ApplySections(c, secs, env).value.(databases := c.databases)
    decreases |secs|
  {
    if secs != [] {
      var init := secs[..|secs| - 1];
      var last := secs[|secs| - 1];
      assert ApplySections(c, init, env).Ok?;
      SettingsFollowMisterSections(c, init, env);
      var prev := ApplySections(c, init, env).value;
      var ms := MisterSections(secs);
      if IsMister(last) {
        assert ms == MisterSections(init) + [last];
        assert ms[..|ms| - 1] == MisterSections(init);
        MisterIgnoresDatabases(prev, last, c.databases);
      } else {
        assert ms == MisterSections(init);
      }
    }
  }

  /** A `[mister]` section treats the database list as opaque: replacing it beforehand replaces it afterwards. */
  lemma {:induction false} MisterIgnoresDatabases(c: Config, s: Section, dbs: seq<Database>)
    requires ApplyMister(c, s).Ok?
    ensures ApplyMister(c.(databases := dbs), s) == Ok(ApplyMister(c, s).value.(databases := dbs))
  {
  }

  /** A `[mister]` section never adds a database, and it fails exactly on an out-of-range policy. */
  lemma {:induction false} MisterSectionEffect(c: Config, s: Section, env: Env)
    requires IsMister(s)
    ensures ApplySection(c, s, env).Err? <==>
      ("allow_delete" in s.ints && !(0 <= s.ints["allow_delete"] <= 2)) ||
      ("allow_reboot" in s.ints && !(0 <= s.ints["allow_reboot"] <= 2))
    ensures ApplySection(c, s, env).Ok? ==> ApplySection(c, s, env).value.databases == c.databases
  {
  }

  /** A `[mister]` section that lists nothing keeps every setting as it was. */
  lemma {:induction false} EmptyMisterSectionKeepsSettings(c: Config, name: string, env: Env)
    requires Lower(name) == "mister"
    ensures ApplySection(c, Section(name, map[], map[], map[]), env) == Ok(c)
  {
    PolicyValuesRoundTrip(c.allowDelete, c.allowReboot);
  }

  /** The default database is added exactly when no database section was read. */
  lemma {:induction false} DefaultDatabaseOnlyWithoutSections(configPath: string, ini: IniFile, env: Env)
    requires ReadConfigSpec(configPath, ini, env).Ok?
    ensures var c := ReadConfigSpec(configPath, ini, env).value;
      && (DbSections(ini.sections) == [] ==> c.databases == [DefaultDatabase(ini, env)])
      && (DbSections(ini.sections) != [] ==>
            && |c.databases| == |DbSections(ini.sections)|
            && forall i :: 0 <= i < |c.databases| ==> c.databases[i].section == DbSections(ini.sections)[i].name)
  {
    var start := DefaultConfig().(configPath := Some(Parse(configPath)));
    ReadConfigDatabases(configPath, ini, env);
    DatabasesFollowSections(start, ini.sections, env);
  }

  /** The environment's ALLOW_REBOOT never touches the databases the sections produced. */
  lemma {:induction false} ReadConfigDatabases(configPath: string, ini: IniFile, env: Env)
    requires ReadConfigSpec(configPath, ini, env).Ok?
    ensures var start := DefaultConfig().(configPath := Some(Parse(configPath)));
      && ApplySections(start, ini.sections, env).Ok?
      && var c := ApplySections(start, ini.sections, env).value;
         ReadConfigSpec(configPath, ini, env).value.databases
         == if |c.databases| == 0 then [DefaultDatabase(ini, env)] else c.databases
  {
  }

  /** An ALLOW_REBOOT environment value overrides the ini file, and must be a valid policy. */
  lemma {:induction false} EnvironmentOverridesAllowReboot(configPath: string, ini: IniFile, env: Env)
    requires env.allowReboot.Some?
    requires ApplySections(DefaultConfig().(configPath := Some(Parse(configPath))), ini.sections, env).Ok?
    ensures var v := IntOf(env.allowReboot.value);
      ReadConfigSpec(configPath, ini, env).Ok? <==> v.Some? && 0 <= v.value <= 2
    ensures IntOf(env.allowReboot.value).None? ==>
      ReadConfigSpec(configPath, ini, env) == Err(NotAnInteger(env.allowReboot.value))
    ensures ReadConfigSpec(configPath, ini, env).Ok? ==>
      AllowRebootValue(ReadConfigSpec(configPath, ini, env).value.allowReboot) == IntOf(env.allowReboot.value).value
  {
  }

  /** Setting ALLOW_REBOOT to the decimal spelling of a policy value selects that policy. */
  lemma {:induction false} DecimalAllowRebootSelects(configPath: string, ini: IniFile, env: Env, r: AllowReboot)
    requires env.allowReboot == Some(Decimal(AllowRebootValue(r)))
    requires ApplySections(DefaultConfig().(configPath := Some(Parse(configPath))), ini.sections, env).Ok?
    ensures ReadConfigSpec(configPath, ini, env).Ok?
    ensures ReadConfigSpec(configPath, ini, env).value.allowReboot == r
  {
    IntOfDecimal(AllowRebootValue(r));
    PolicyValuesRoundTrip(DeleteAll, r);
  }

  /** Without sections the result is the default configuration plus the path and the default database. */
  lemma {:induction false} EmptyIniGivesDefaults(configPath: string, defaults: map<string, string>, env: Env)
    requires env.allowReboot.None?
    ensures var r := ReadConfigSpec(configPath, IniFile(defaults, []), env);
      && r == Ok(DefaultConfig().(
           configPath := Some(Parse(configPath)),
           databases := [DefaultDatabase(IniFile(defaults, []), env)]))
      && r.value.downloaderRetries == 3
      && r.value.allowDelete == DeleteAll
      && r.value.databases[0].section == env.defaultDbId
  {
  }
}
