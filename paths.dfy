/** The shell's in-memory filesystem records and the path helpers of
    `FakeShell`: resolving, parent and base name, full paths, and the
    linear lookup that `FileIndex` and `FilesInDir` perform. */
module Paths {
  import opened Strings

  /** One record of the filesystem list: `{parent, name, data}`. */
  datatype Entry = Entry(parent: string, name: string, data: string)

  /** The data value that marks an entry as a directory. */
  const DirMarker: string := "DIR"

  predicate IsDirectory(e: Entry) {
    e.data == DirMarker
  }

  predicate IsAbsolute(p: string) {
    |p| > 0 && p[0] == '/'
  }

  predicate EndsWithSlash(p: string) {
    |p| > 0 && p[|p| - 1] == '/'
  }

  /** The working-directory shape the shell keeps: absolute, ending in `/`. */
  predicate IsDirectoryPath(p: string) {
    IsAbsolute(p) && EndsWithSlash(p)
  }

  /** `EvaluatePath`: the empty path stays empty, an absolute path is kept,
      a relative one is appended to the working directory. */
  function EvaluatePath(path: string, workingDirectory: string): (r: string)
    ensures r == "" <==> path == ""
    ensures IsAbsolute(path) ==> r == path
    ensures path != "" && !IsAbsolute(path) ==> r == workingDirectory + path
    ensures path != "" ==> (IsAbsolute(r) <==> IsAbsolute(path) || IsAbsolute(workingDirectory))
  {
    if path == "" then ""
    else if path[0] == '/' then path
    else workingDirectory + path
  }

  /** The path as typed is always the tail of the resolved path. */
  lemma EvaluatePathEndsWithPath(path: string, workingDirectory: string)
    ensures var r := EvaluatePath(path, workingDirectory);
            |path| <= |r| && r[|r| - |path|..] == path
  {
  }

  /** Resolving a resolved path again changes nothing, as long as the
      working directory is absolute. */
  lemma EvaluatePathIdempotent(path: string, workingDirectory: string)
    requires IsAbsolute(workingDirectory)
    ensures EvaluatePath(EvaluatePath(path, workingDirectory), workingDirectory)
         == EvaluatePath(path, workingDirectory)
  {
  }

  /** The path without one trailing `/`, if it has one. */
  function DropTrailingSlash(p: string): (r: string)
    ensures |r| <= |p| && r == p[..|r|]
    ensures EndsWithSlash(p) ==> |r| == |p| - 1
    ensures !EndsWithSlash(p) ==> r == p
  {
    if EndsWithSlash(p) then p[..|p| - 1] else p
  }

  /** `parent` is the part of `path` up to and including the `/` before its
      last segment (a trailing `/` of `path` not counted). */
  predicate IsParentPrefix(parent: string, path: string) {
    var t := DropTrailingSlash(path);
    && |parent| < |path|
    && |parent| <= |t|
    && parent == path[..|parent|]
    && EndsWithSlash(parent)
    && NoneOf(t[|parent|..], {'/'})
  }

  lemma {:induction false} SlashesKeptAfterTrim(p: string)
    requires Count(p, {'/'}) >= 2
    ensures '/' in DropTrailingSlash(p)
  {
    var t := DropTrailingSlash(p);
    if EndsWithSlash(p) {
      assert p == t + [p[|p| - 1]];
      CountConcat(t, [p[|p| - 1]], {'/'});
      assert Count([p[|p| - 1]], {'/'}) == 1;
    }
    CountZero(t, {'/'});
    var k :| 0 <= k < |t| && t[k] in {'/'};
    assert t[k] == '/';
  }

  /** `OneDirectoryUp`: a path with fewer than two `/` goes to the root,
      any other to the text up to and including the `/` before its last
      segment; `"/"`, `""` and `" "` are returned as they are. */
  function OneDirectoryUp(path: string): (r: string)
    ensures r == "" <==> path == ""
  {
    if path == "/" || path == "" || path == " " then path
    else if |Split(path, {'/'})| - 1 < 2 then "/"
    else
      var p := DropTrailingSlash(path);
      SlashesKeptAfterTrim(path);
      p[..LastIndexOf(p, '/') + 1]
  }

  /** `"/"`, `""` and `" "` are the fixed points of `OneDirectoryUp` and
      nothing else is; a path with fewer than two `/` goes to the root; any
      other path goes to the prefix that names its parent directory. */
  lemma OneDirectoryUpSpec(path: string)
    ensures var r := OneDirectoryUp(path);
      && (r == path <==> path == "/" || path == "" || path == " ")
      && (r != path && Count(path, {'/'}) < 2 ==> r == "/")
      && (Count(path, {'/'}) >= 2 ==> IsParentPrefix(r, path))
  {
    if path == "/" || path == "" || path == " " {
      assert Count(path, {'/'}) < 2 by {
        assert path == [] || path[1..] == [];
      }
    } else if Count(path, {'/'}) >= 2 {
      var p := DropTrailingSlash(path);
      SlashesKeptAfterTrim(path);
      var k := LastIndexOf(p, '/');
      assert p[k + 1..] == p[|p[..k + 1]|..];
      assert NoneOf(p[k + 1..], {'/'});
    }
  }

  /** `FileNameFromPath`: the root names itself, any other path its last
      segment, a trailing `/` not counted. The source indexes the last
      character, so the empty path is outside its domain. */
  function FileNameFromPath(path: string): (r: string)
    requires path != ""
    ensures |r| <= |path|
  {
    if path == "/" then path
    else
      var p := DropTrailingSlash(path);
      p[LastIndexOf(p, '/') + 1..]
  }

  /** The name `FileNameFromPath` gives holds no `/` and is the tail of the
      path after its last `/` (a trailing `/` not counted). */
  lemma FileNameFromPathSpec(path: string)
    requires path != ""
    ensures var r := FileNameFromPath(path);
      && (path == "/" ==> r == "/")
      && (path != "/" ==> NoneOf(r, {'/'}))
      && (path != "/" ==> var t := DropTrailingSlash(path);
            |r| <= |t| && t[|t| - |r|..] == r && (|r| < |t| ==> t[|t| - |r| - 1] == '/'))
  {
    if path != "/" {
      var p := DropTrailingSlash(path);
      var slash := LastIndexOf(p, '/');
      assert NoneOf(p[slash + 1..], {'/'});
    }
  }

  /** A path with a single `/` in front has no other `/`. */
  lemma {:induction false} OnlyLeadingSlash(path: string)
    requires IsAbsolute(path) && Count(path, {'/'}) < 2
    ensures NoneOf(path[1..], {'/'})
  {
    assert path == [path[0]] + path[1..];
    CountConcat([path[0]], path[1..], {'/'});
    assert Count([path[0]], {'/'}) == 1;
    CountZero(path[1..], {'/'});
  }

  lemma {:induction false} RootChildJoinsName(path: string)
    requires IsAbsolute(path) && path != "/" && Count(path, {'/'}) < 2
    ensures DropTrailingSlash(path) == path
    ensures OneDirectoryUp(path) == "/"
    ensures FileNameFromPath(path) == path[1..]
  {
    OnlyLeadingSlash(path);
    assert |Split(path, {'/'})| - 1 < 2;
    assert |path| > 1;
    assert path[|path| - 1] == path[1..][|path| - 2];
    assert LastIndexOf(path, '/') == 0;
  }

  lemma {:induction false} DeepPathJoinsName(path: string)
    requires path != "" && Count(path, {'/'}) >= 2
    ensures OneDirectoryUp(path) + FileNameFromPath(path) == DropTrailingSlash(path)
  {
    var t := DropTrailingSlash(path);
    var up := OneDirectoryUp(path);
    var name := FileNameFromPath(path);
    OneDirectoryUpSpec(path);
    FileNameFromPathSpec(path);
    assert path != "/";
    assert IsParentPrefix(up, path);
    var rest := t[|up|..];
    assert NoneOf(rest, {'/'});
    assert t == t[..|up|] + rest;
    assert rest == t[|t| - |name|..];
  }

  /** An absolute path other than the root is its parent followed by its
      name (a trailing `/` dropped), and its parent is a directory path. */
  lemma {:induction false} ParentJoinsName(path: string)
    requires IsAbsolute(path) && path != "/"
    ensures OneDirectoryUp(path) + FileNameFromPath(path) == DropTrailingSlash(path)
    ensures IsDirectoryPath(OneDirectoryUp(path))
  {
    var up := OneDirectoryUp(path);
    if Count(path, {'/'}) < 2 {
      RootChildJoinsName(path);
    } else {
      DeepPathJoinsName(path);
      OneDirectoryUpSpec(path);
      assert IsParentPrefix(up, path);
      assert up[0] == path[0];
    }
  }

  /** A `/` in `t` lies before any `/`-free tail of `t`. */
  lemma SlashBefore(t: string, a: nat, k: nat)
    requires a <= |t| && NoneOf(t[a..], {'/'}) && k < |t| && t[k] == '/'
    ensures k < a
  {
  }

  /** A directory path extended by a segment and a `/` holds two `/`. */
  lemma {:induction false} ChildHasTwoSlashes(parent: string, name: string)
    requires IsAbsolute(parent)
    ensures Count(parent + name + "/", {'/'}) >= 2
  {
    assert parent + name + "/" == parent + (name + "/");
    CountConcat(parent, name + "/", {'/'});
    CountConcat(name, "/", {'/'});
    assert parent == [parent[0]] + parent[1..];
    CountConcat([parent[0]], parent[1..], {'/'});
    assert Count([parent[0]], {'/'}) == 1;
    assert Count("/", {'/'}) == 1;
  }

  /** The parent of a directory path extended by one slash-free segment
      (and a trailing `/`) is that directory path again. */
  lemma {:induction false} UpOfChild(parent: string, name: string)
    requires IsDirectoryPath(parent) && name != "" && NoneOf(name, {'/'})
    ensures OneDirectoryUp(parent + name + "/") == parent
  {
    var path := parent + name + "/";
    var t := parent + name;
    ChildHasTwoSlashes(parent, name);
    OneDirectoryUpSpec(path);
    var up := OneDirectoryUp(path);
    assert DropTrailingSlash(path) == t;
    assert IsParentPrefix(up, path);
    SlashBefore(t, |up|, |parent| - 1);
    assert t[..|up|] == up;
    assert t[|parent|..] == name;
    SlashBefore(t, |parent|, |up| - 1);
  }

  /** `FullFilePath`: the root-parented entry is parent + name; every other
      entry, file or directory, gets a trailing `/` as well. */
  function FullFilePath(e: Entry): (r: string)
    ensures e.parent != "" ==> EndsWithSlash(r)
  {
    if e.parent == "" then e.parent + e.name
    else e.parent + e.name + "/"
  }

  /** `FileName`: how `ls` shows an entry, directories with a trailing `/`. */
  function FileName(e: Entry): (r: string)
    ensures r == e.name + "/" <==> IsDirectory(e)
    ensures !IsDirectory(e) ==> r == e.name
  {
    if e.data == DirMarker then e.name + "/" else e.name
  }

  /** `QuotesParse`: the text between the first two `"` of the line, or the
      empty string when the line holds fewer than two. */
  function QuotesParse(line: string): (r: string)
    ensures Count(line, {'"'}) < 2 ==> r == ""
    ensures NoneOf(r, {'"'})
  {
    var quotesSplit := Split(line, {'"'});
    if |quotesSplit| > 2 then quotesSplit[1] else ""
  }

  /** When the first two `"` of the line are at `i` and `j`,
      `QuotesParse` gives exactly the characters strictly between them. */
  lemma QuotesParseBetween(line: string, i: nat, j: nat)
    requires i < j < |line| && line[i] == '"' && line[j] == '"'
    requires NoneOf(line[..i], {'"'}) && NoneOf(line[i + 1..j], {'"'})
    ensures QuotesParse(line) == line[i + 1..j]
  {
    var q := '"';
    var after := line[j + 1..];
    var rest := line[i + 1..];
    assert rest == line[i + 1..j] + [q] + after by {
      assert rest == rest[..j - i - 1] + [rest[j - i - 1]] + rest[j - i..];
    }
    assert line == line[..i] + [q] + rest by {
      assert line == line[..i] + [line[i]] + line[i + 1..];
    }
    SplitAtFirst(line[i + 1..j], q, after);
    SplitAtFirst(line[..i], q, rest);
  }

  /** The directory form of a path: a `/` appended unless it ends in one. */
  function AsDir(path: string): (r: string)
    requires path != ""
    ensures EndsWithSlash(r)
  {
    if path[|path| - 1] != '/' then path + "/" else path
  }

  /** The test `FileIndex` applies to one entry. A directory lookup
      accepts only a full path ending in `/` -- which every entry with a
      parent has, so it never looks at the data. */
  predicate Matches(e: Entry, path: string, mustBeDirectory: bool): (r: bool)
    requires path != ""
    ensures r && mustBeDirectory ==> EndsWithSlash(FullFilePath(e))
  {
    (FullFilePath(e) == path && !mustBeDirectory) || FullFilePath(e) == AsDir(path)
  }

  /** A match names the entry's full path up to one trailing `/`, and
      requiring a directory only narrows the matches. */
  lemma MatchesSpec(e: Entry, path: string)
    requires path != ""
    ensures Matches(e, path, false) ==> DropTrailingSlash(FullFilePath(e)) == DropTrailingSlash(path)
    ensures Matches(e, path, true) ==> Matches(e, path, false)
  {
  }

  /** The first position at or after `from` that holds `true`, or -1. */
  function FirstTrue(hits: seq<bool>, from: nat): (r: int)
    requires from <= |hits|
    ensures r == -1 || from <= r < |hits|
    ensures r >= 0 ==> hits[r]
    ensures forall j :: from <= j < |hits| && (r == -1 || j < r) ==> !hits[j]
    decreases |hits| - from
  {
    if from == |hits| then -1
    else if hits[from] then from
    else FirstTrue(hits, from + 1)
  }

  /** The first entry that `path` names, or -1 when none does. */
  function Lookup(files: seq<Entry>, path: string, mustBeDirectory: bool): (r: int)
    requires path != ""
    ensures -1 <= r < |files|
    ensures r == -1 <==> forall i :: 0 <= i < |files| ==> !Matches(files[i], path, mustBeDirectory)
    ensures r >= 0 ==> Matches(files[r], path, mustBeDirectory)
    ensures r >= 0 ==> forall j :: 0 <= j < r ==> !Matches(files[j], path, mustBeDirectory)
  {
    var hits := seq(|files|, i requires 0 <= i < |files| => Matches(files[i], path, mustBeDirectory));
    assert forall i :: 0 <= i < |files| ==> hits[i] == Matches(files[i], path, mustBeDirectory);
    FirstTrue(hits, 0)
  }

  /** Appending an entry never changes which earlier entry a path finds; it
      is found itself only when nothing before it matches. */
  lemma LookupAppend(files: seq<Entry>, e: Entry, path: string, mustBeDirectory: bool)
    requires path != ""
    ensures Lookup(files + [e], path, mustBeDirectory)
         == if Lookup(files, path, mustBeDirectory) != -1 then Lookup(files, path, mustBeDirectory)
            else if Matches(e, path, mustBeDirectory) then |files|
            else -1
  {
    var r := Lookup(files + [e], path, mustBeDirectory);
    assert forall i :: 0 <= i < |files| ==> (files + [e])[i] == files[i];
    assert (files + [e])[|files|] == e;
  }

  /** An entry made from an absolute path (other than the root) the way
      `mkdir` and `touch` make it is found again by that path, also when a
      directory is required. */
  lemma NewEntryMatches(path: string, data: string)
    requires IsAbsolute(path) && path != "/"
    ensures Matches(Entry(OneDirectoryUp(path), FileNameFromPath(path), data), path, true)
  {
    ParentJoinsName(path);
    var up := OneDirectoryUp(path);
    var name := FileNameFromPath(path);
    AsDirTrimmed(path);
    assert FullFilePath(Entry(up, name, data)) == up + name + "/";
  }

  /** The directory form of a path is the path without its trailing `/`,
      followed by one `/`. */
  lemma AsDirTrimmed(path: string)
    requires path != ""
    ensures AsDir(path) == DropTrailingSlash(path) + "/"
  {
    if EndsWithSlash(path) {
      assert path == DropTrailingSlash(path) + "/";
    }
  }

  /** `FilesInDir`'s result: the entries whose parent is exactly `dir`,
      in list order. */
  function ChildrenOf(files: seq<Entry>, dir: string): (r: seq<Entry>)
    ensures |r| <= |files|
    ensures forall e :: e in r ==> e in files && e.parent == dir
    ensures forall e :: e in files && e.parent == dir ==> e in r
    decreases |files|
  {
    if files == [] then []
    else
      var last := files[|files| - 1];
      var front := files[..|files| - 1];
      assert files == front + [last];
      ChildrenOf(front, dir) + (if last.parent == dir then [last] else [])
  }

  /** Filtering distributes over concatenation, so children keep their
      relative order. */
  lemma {:induction false} ChildrenOfConcat(a: seq<Entry>, b: seq<Entry>, dir: string)
    ensures ChildrenOf(a + b, dir) == ChildrenOf(a, dir) + ChildrenOf(b, dir)
    decreases |b|
  {
    if b == [] {
      assert a + b == a;
    } else {
      var last := b[|b| - 1];
      var front := b[..|b| - 1];
      assert a + b == (a + front) + [last];
      assert (a + b)[..|a + b| - 1] == a + front;
      ChildrenOfConcat(a, front, dir);
    }
  }
}
