/**
  The part of POSIX pure-path semantics (Python's `PurePosixPath`) that the
  configuration code relies on, restated as explicit string splitting on '/':
  parsing into a root and a list of names, `name`, `stem`, `parent`,
  `parents` and the string form of a path.
 */
module PosixPaths {

  /** Splits `s` at every '/', keeping empty pieces: "a//b" gives ["a", "", "b"]. */
  function Split(s: string): (parts: seq<string>)
    ensures |parts| >= 1
    ensures forall i :: 0 <= i < |parts| ==> '/' !in parts[i]
    decreases |s|
  {
    if s == [] then [[]]
    else
      var rest := Split(s[1..]);
      if s[0] == '/' then [[]] + rest else [[s[0]] + rest[0]] + rest[1..]
  }

  /** `sep.join(parts)`. */
  function Join(parts: seq<string>, sep: string): string
    decreases |parts|
  {
    if |parts| == 0 then ""
    else if |parts| == 1 then parts[0]
    else parts[0] + sep + Join(parts[1..], sep)
  }

  /** Joining the pieces back with '/' gives the original string. */
  lemma {:induction false} JoinSplit(s: string)
    ensures Join(Split(s), "/") == s
    decreases |s|
  {
    if s != [] {
      var rest := Split(s[1..]);
      JoinSplit(s[1..]);
      if s[0] == '/' {
        assert Split(s) == [[]] + rest;
        assert ([[]] + rest)[1..] == rest;
        assert s == [] + "/" + s[1..];
      } else {
        var parts := [[s[0]] + rest[0]] + rest[1..];
        assert Split(s) == parts;
        if |rest| == 1 {
          assert s[1..] == rest[0];
        } else {
          assert parts[1..] == rest[1..];
          assert Join(rest, "/") == rest[0] + "/" + Join(rest[1..], "/");
        }
      }
    }
  }

  /** Splitting a '/'-join of slash-free pieces gives the pieces back. */
  lemma {:induction false} SplitJoin(parts: seq<string>)
    requires |parts| >= 1
    requires forall i :: 0 <= i < |parts| ==> '/' !in parts[i]
    ensures Split(Join(parts, "/")) == parts
    decreases |parts|
  {
    if |parts| == 1 {
      SplitSlashFree(parts[0]);
    } else {
      SplitJoin(parts[1..]);
      SplitConcat(parts[0], Join(parts[1..], "/"));
      assert parts == [parts[0]] + parts[1..];
    }
  }

  /** A slash-free string is a single piece. */
  lemma {:induction false} SplitSlashFree(a: string)
    requires '/' !in a
    ensures Split(a) == [a]
    decreases |a|
  {
    if a != [] {
      SplitSlashFree(a[1..]);
      assert [a[0]] + a[1..] == a;
    }
  }

  /** The first piece of `a + "/" + rest` is `a` when `a` is slash-free. */
  lemma {:induction false} SplitConcat(a: string, rest: string)
    requires '/' !in a
    ensures Split(a + "/" + rest) == [a] + Split(rest)
    decreases |a|
  {
    if a == [] {
      assert a + "/" + rest == "/" + rest;
      assert ("/" + rest)[1..] == rest;
    } else {
      assert (a + "/" + rest)[1..] == a[1..] + "/" + rest;
      SplitConcat(a[1..], rest);
      assert [a[0]] + a[1..] == a;
    }
  }

  /** A parsed pure path: its root ("", "/" or "//") and its names. */
  datatype PurePath = PurePath(root: string, names: seq<string>)

  /**
    The root of a POSIX path: exactly two leading slashes are kept as "//",
    one or three or more leading slashes give "/", none gives "".
   */
  function Root(s: string): (r: string)
    ensures r == "" || r == "/" || r == "//"
    ensures r == "" <==> (s == [] || s[0] != '/')
    ensures r == "//" <==> |s| >= 2 && s[..2] == "//" && (|s| == 2 || s[2] != '/')
  {
    if s != [] && s[0] == '/' then
      if |s| >= 2 && s[1] == '/' && (|s| == 2 || s[2] != '/') then "//" else "/"
    else ""
  }

  /** The pieces that name something: empty pieces and "." are dropped. */
  function Names(parts: seq<string>): (names: seq<string>)
    ensures |names| <= |parts|
    ensures forall i :: 0 <= i < |names| ==> names[i] != "" && names[i] != "." && names[i] in parts
    decreases |parts|
  {
    if parts == [] then []
    else if parts[0] == "" || parts[0] == "." then Names(parts[1..])
    else [parts[0]] + Names(parts[1..])
  }

  /** A single piece is kept exactly when it is neither "" nor ".". */
  lemma {:induction false} NamesOfOne(x: string)
    ensures Names([x]) == if x == "" || x == "." then [] else [x]
  {
    assert [x][1..] == [];
  }

  /** The names of concatenated pieces are the concatenated names: pieces are kept in order. */
  lemma {:induction false} NamesAppend(a: seq<string>, b: seq<string>)
    ensures Names(a + b) == Names(a) + Names(b)
    decreases |a|
  {
    if a != [] {
      assert (a + b)[0] == a[0];
      assert (a + b)[1..] == a[1..] + b;
      NamesAppend(a[1..], b);
    } else {
      assert a + b == b;
    }
  }

  /** `PurePosixPath(s)`. */
  function Parse(s: string): (p: PurePath)
    ensures p.root == Root(s) && p.names == Names(Split(s))
    ensures forall i :: 0 <= i < |p.names| ==> '/' !in p.names[i] && p.names[i] != "" && p.names[i] != "."
  {
    var parts := Split(s);
    var names := Names(parts);
    assert forall i :: 0 <= i < |names| ==> '/' !in names[i] by {
      forall i | 0 <= i < |names| ensures '/' !in names[i] {
        var j :| 0 <= j < |parts| && parts[j] == names[i];
      }
    }
    PurePath(Root(s), names)
  }

  /** `str(path)`: the empty relative path prints as ".". */
  function ToString(p: PurePath): string
  {
    if p.root == "" && p.names == [] then "." else p.root + Join(p.names, "/")
  }

  /** `path.name`: the last name, or "" for a path with no names. */
  function Name(p: PurePath): string
  {
    if p.names == [] then "" else p.names[|p.names| - 1]
  }

  /** Index of the last occurrence of `c` in `s`, or -1 (`str.rfind`). */
  function RFind(s: string, c: char): (i: int)
    ensures -1 <= i < |s|
    ensures i >= 0 ==> s[i] == c && forall j :: i < j < |s| ==> s[j] != c
    ensures i == -1 ==> c !in s
    decreases |s|
  {
    if s == [] then -1
    else if s[|s| - 1] == c then |s| - 1
    else RFind(s[..|s| - 1], c)
  }

  /** `s[k]` is the last occurrence of `c` in `s`. */
  predicate LastAt(s: string, c: char, k: int)
  {
    0 <= k < |s| && s[k] == c && c !in s[k + 1..]
  }

  /** `str.rfind` finds `c` exactly where its last occurrence is. */
  lemma {:induction false} RFindIsLast(s: string, c: char, k: nat)
    ensures LastAt(s, c, k) <==> k == RFind(s, c)
  {
    var i := RFind(s, c);
    if k == i {
      NothingAfter(s, c, k);
    } else if LastAt(s, c, k) {
      OnlyLast(s, c, k, i);
    }
  }

  lemma {:induction false} NothingAfter(s: string, c: char, k: int)
    requires 0 <= k < |s| && forall j :: k < j < |s| ==> s[j] != c
    ensures c !in s[k + 1..]
  {
    var tail := s[k + 1..];
    forall j | 0 <= j < |tail| ensures tail[j] != c {
      assert tail[j] == s[k + 1 + j];
    }
  }

  lemma {:induction false} OnlyLast(s: string, c: char, k: int, i: int)
    requires LastAt(s, c, k)
    requires -1 <= i < |s|
    requires i >= 0 ==> s[i] == c && forall j :: i < j < |s| ==> s[j] != c
    requires i == -1 ==> c !in s
    ensures k == i
  {
  }

  /** `path.stem`: the name without its final suffix, a suffix being a '.' that is neither first nor last. */
  function Stem(p: PurePath): (stem: string)
    ensures |stem| <= |Name(p)| && stem == Name(p)[..|stem|]
    ensures |stem| < |Name(p)| <==> exists i :: 0 < i < |Name(p)| - 1 && LastAt(Name(p), '.', i)
    ensures |stem| < |Name(p)| ==> 0 < |stem| < |Name(p)| - 1 && LastAt(Name(p), '.', |stem|)
  {
    var name := Name(p);
    var i := RFind(name, '.');
    assert i >= 0 ==> LastAt(name, '.', i) by {
      if i >= 0 {
        RFindIsLast(name, '.', i);
      }
    }
    assert forall k :: LastAt(name, '.', k) ==> k == i by {
      forall k | LastAt(name, '.', k) ensures k == i {
        RFindIsLast(name, '.', k);
      }
    }
    if 0 < i < |name| - 1 then name[..i] else name
  }

  /** `path.parent`: a path with no names is its own parent. */
  function Parent(p: PurePath): PurePath
  {
    if p.names == [] then p else PurePath(p.root, p.names[..|p.names| - 1])
  }

  /** `path.parents`: the parent, then the grandparent, ... up to the root. */
  function Parents(p: PurePath): (ps: seq<PurePath>)
    ensures |ps| == |p.names|
    ensures |ps| > 0 ==> ps[0] == Parent(p)
    ensures forall k :: 0 <= k < |ps| - 1 ==> ps[k + 1] == Parent(ps[k])
    ensures |ps| > 0 ==> ps[|ps| - 1] == PurePath(p.root, [])
  {
    seq(|p.names|, k requires 0 <= k < |p.names| => PurePath(p.root, p.names[..|p.names| - 1 - k]))
  }

  /** ASCII lower-casing of one character. */
  function LowerChar(c: char): char
  {
    if 'A' <= c <= 'Z' then (c as int + 32) as char else c
  }

  /** `str.lower()` on ASCII letters; other characters are kept. */
  function Lower(s: string): (r: string)
    ensures |r| == |s|
    ensures forall i :: 0 <= i < |s| ==> r[i] == LowerChar(s[i])
  {
    seq(|s|, i requires 0 <= i < |s| => LowerChar(s[i]))
  }
}
