/** What each built-in command of `FakeShell` does to the session, as
    functions from the state before to the state after, and the dispatch
    from an input line to a command. An index out of range in the source is
    the outcome `Crashed`, carrying the state at the point of the throw. */
module Commands {
  import opened Strings
  import opened Paths

  datatype Option<T> = None | Some(value: T)

  /** The state the commands read and change. `console` is every line
      written to the terminal; `stdout` is the pipe buffer (a null list in
      the source is the empty sequence here). */
  datatype Session = Session(
    files: seq<Entry>,
    workingDirectory: string,
    running: bool,
    outputMode: int,
    stdout: seq<string>,
    console: seq<string>)

  /** `outputMode` values: 1 writes to the terminal, 2 to `stdout`. */
  const ConsoleMode: int := 1
  const PipeMode: int := 2

  datatype Outcome = Completed(after: Session) | Crashed(after: Session)

  const Banner: string := "Last login: Tue Jan 12 22:29:30 2079"
  const PipeNotice: string := "Congratulations! You used a pipe or carrot."
  /** The 57 newlines `clear` prints. */
  const ClearScreen: string := "\n\n\n\n\n\n\n\n\n\n\n\n\n\n\n\n\n\n\n\n\n\n\n\n\n\n\n\n\n\n\n\n\n\n\n\n\n\n\n\n\n\n\n\n\n\n\n\n\n\n\n\n\n\n\n\n\n"

  /** The filesystem the shell starts with. */
  const SeedFiles: seq<Entry> := [
    Entry("", "/", DirMarker),
    Entry("/", "home", DirMarker),
    Entry("/", "usr", DirMarker),
    Entry("/usr/", "secretformula.txt", "It's plankton!")
  ]

  /** The state the constructor leaves: the seed files, the root as working
      directory, running, console mode, and the login banner printed. */
  function Boot(): (s: Session)
    ensures s.workingDirectory == "/" && s.files == SeedFiles && s.running
    ensures s.outputMode == ConsoleMode && s.stdout == [] && s.console == [Banner]
  {
    Session(SeedFiles, FullFilePath(SeedFiles[0]), true, ConsoleMode, [], [Banner])
  }

  /** `Output`, applied to several lines in turn: they go to the terminal in
      console mode, to `stdout` in pipe mode, and nowhere in any other mode;
      nothing else changes. */
  function Emit(s: Session, lines: seq<string>): (r: Session)
    ensures r.files == s.files && r.workingDirectory == s.workingDirectory
    ensures r.running == s.running && r.outputMode == s.outputMode
    ensures r.console == s.console + (if s.outputMode == ConsoleMode then lines else [])
    ensures r.stdout == s.stdout + (if s.outputMode == PipeMode then lines else [])
  {
    if s.outputMode == ConsoleMode then s.(console := s.console + lines)
    else if s.outputMode == PipeMode then s.(stdout := s.stdout + lines)
    else s
  }

  lemma EmitTwice(s: Session, a: seq<string>, b: seq<string>)
    ensures Emit(Emit(s, a), b) == Emit(s, a + b)
  {
  }

  // ---------------------------------------------------------------
  // The layout of `ls`: names followed by a tab, three to a line.
  // ---------------------------------------------------------------

  /** The names, in order, each followed by a tab. */
  function Tabbed(names: seq<string>): (r: string)
    ensures r == "" <==> names == []
    decreases |names|
  {
    if names == [] then "" else Tabbed(names[..|names| - 1]) + names[|names| - 1] + "\t"
  }

  /** Extending a run of names by the next one appends that name and a tab. */
  lemma TabbedStep(names: seq<string>, a: nat, b: nat)
    requires a <= b < |names|
    ensures Tabbed(names[a..b + 1]) == Tabbed(names[a..b]) + names[b] + "\t"
  {
    assert names[a..b + 1][..b - a] == names[a..b];
  }

  lemma {:induction false} TabbedConcat(a: seq<string>, b: seq<string>)
    ensures Tabbed(a + b) == Tabbed(a) + Tabbed(b)
    decreases |b|
  {
    if b == [] {
      assert a + b == a;
    } else {
      var front := b[..|b| - 1];
      assert (a + b)[..|a + b| - 1] == a + front;
      assert (a + b)[|a + b| - 1] == b[|b| - 1];
      TabbedConcat(a, front);
    }
  }

  /** The lines `ls` prints: consecutive groups of three names, the last
      group possibly shorter. */
  function Rows(names: seq<string>): (r: seq<string>)
    ensures r == [] <==> names == []
    ensures forall k :: 0 <= k < |r| ==> r[k] != ""
    decreases |names|
  {
    if |names| == 0 then []
    else if |names| <= 3 then [Tabbed(names)]
    else [Tabbed(names[..3])] + Rows(names[3..])
  }

  /** `n` names make ceil(n / 3) lines. */
  lemma {:induction false} RowsCount(names: seq<string>)
    ensures |Rows(names)| == (|names| + 2) / 3
    decreases |names|
  {
    if |names| > 3 {
      RowsCount(names[3..]);
    }
  }

  function Concat(lines: seq<string>): string
    decreases |lines|
  {
    if lines == [] then "" else lines[0] + Concat(lines[1..])
  }

  /** Read one after the other, the lines give every name, in order, each
      followed by a tab: nothing is lost, repeated or reordered. */
  lemma {:induction false} RowsCover(names: seq<string>)
    ensures Concat(Rows(names)) == Tabbed(names)
    decreases |names|
  {
    if 0 < |names| <= 3 {
      assert Concat([Tabbed(names)]) == Tabbed(names) + Concat([]);
    } else if |names| > 3 {
      RowsCover(names[3..]);
      var rows := Rows(names);
      assert rows[1..] == Rows(names[3..]);
      TabbedConcat(names[..3], names[3..]);
      assert names == names[..3] + names[3..];
    }
  }

  /** A full first part of whole groups lays out independently of the rest. */
  lemma {:induction false} RowsConcat(a: seq<string>, b: seq<string>)
    requires |a| % 3 == 0
    ensures Rows(a + b) == Rows(a) + Rows(b)
    decreases |a|
  {
    if a == [] {
      assert a + b == b;
    } else {
      assert (a + b)[..3] == a[..3];
      assert (a + b)[3..] == a[3..] + b;
      RowsConcat(a[3..], b);
      if b == [] {
        assert a + b == a;
      }
      if |a| == 3 {
        assert Rows(a) == [Tabbed(a)];
        assert a[3..] == [];
        assert a[..3] == a;
      }
    }
  }

  /** One more whole group of three names adds one line. */
  lemma RowsStep(names: seq<string>, g: nat)
    requires 3 * g + 3 <= |names|
    ensures Rows(names[..3 * g + 3]) == Rows(names[..3 * g]) + [Tabbed(names[3 * g..3 * g + 3])]
  {
    var group := names[3 * g..3 * g + 3];
    assert names[..3 * g + 3] == names[..3 * g] + group;
    RowsConcat(names[..3 * g], group);
    assert Rows(group) == [Tabbed(group)];
  }

  /** After the last whole group, a shorter remainder is one more line. */
  lemma RowsFinish(names: seq<string>, g: nat)
    requires 3 * g <= |names| < 3 * g + 3
    ensures Rows(names) == Rows(names[..3 * g]) + (if 3 * g == |names| then [] else [Tabbed(names[3 * g..])])
  {
    var rest := names[3 * g..];
    assert names == names[..3 * g] + rest;
    RowsConcat(names[..3 * g], rest);
  }

  /** Printing a whole group of three names after the lines already
      printed gives the lines of the longer prefix. */
  lemma PrintGroup(s: Session, names: seq<string>, g: nat, line: string)
    requires 3 * g + 3 <= |names| && line == Tabbed(names[3 * g..3 * g + 3])
    ensures Emit(Emit(s, Rows(names[..3 * g])), [line]) == Emit(s, Rows(names[..3 * (g + 1)]))
  {
    RowsStep(names, g);
    EmitTwice(s, Rows(names[..3 * g]), [line]);
  }

  /** Printing the shorter remainder, if any, after the whole groups gives
      the lines of all the names. */
  lemma PrintRest(s: Session, names: seq<string>, g: nat, line: string)
    requires 3 * g <= |names| < 3 * g + 3 && line == Tabbed(names[3 * g..])
    ensures line == "" ==> Emit(s, Rows(names[..3 * g])) == Emit(s, Rows(names))
    ensures line != "" ==> Emit(Emit(s, Rows(names[..3 * g])), [line]) == Emit(s, Rows(names))
  {
    RowsFinish(names, g);
    EmitTwice(s, Rows(names[..3 * g]), [line]);
  }

  /** How `ls` shows each entry of a list. */
  function Names(entries: seq<Entry>): seq<string>
  {
    seq(|entries|, i requires 0 <= i < |entries| => FileName(entries[i]))
  }

  /** The lines `ls` prints for directory `dir`. */
  function Listing(files: seq<Entry>, dir: string): seq<string>
  {
    Rows(Names(ChildrenOf(files, dir)))
  }

  /** The listing of a directory has ceil(n / 3) lines for its n children
      and, read in order, shows each child's name (with `/` for a
      directory) followed by a tab, in list order. */
  lemma ListingShowsChildren(files: seq<Entry>, dir: string)
    ensures |Listing(files, dir)| == (|ChildrenOf(files, dir)| + 2) / 3
    ensures Concat(Listing(files, dir)) == Tabbed(Names(ChildrenOf(files, dir)))
  {
    RowsCount(Names(ChildrenOf(files, dir)));
    RowsCover(Names(ChildrenOf(files, dir)));
  }

  // ---------------------------------------------------------------
  // The commands.
  // ---------------------------------------------------------------

  /** `CLEAR`: prints one fixed line of newlines; nothing else changes. */
  function RunClear(s: Session): (r: Session)
    ensures r.files == s.files && r.workingDirectory == s.workingDirectory
    ensures r.running == s.running && r.outputMode == s.outputMode
    ensures r.console == s.console + (if s.outputMode == ConsoleMode then [ClearScreen] else [])
    ensures r.stdout == s.stdout + (if s.outputMode == PipeMode then [ClearScreen] else [])
  {
    Emit(s, [ClearScreen])
  }

  /** `PWD`: prints the working directory; nothing else changes. */
  function RunPwd(s: Session): (r: Session)
    ensures r.files == s.files && r.workingDirectory == s.workingDirectory
    ensures r.running == s.running && r.outputMode == s.outputMode
    ensures r.console == s.console + (if s.outputMode == ConsoleMode then [s.workingDirectory] else [])
    ensures r.stdout == s.stdout + (if s.outputMode == PipeMode then [s.workingDirectory] else [])
  {
    Emit(s, [s.workingDirectory])
  }

  /** `ECHO`: prints the first argument only, or an empty line; the words
      after the first argument are ignored, and nothing else changes. */
  function RunEcho(s: Session, args: seq<string>): (r: Session)
    ensures r.files == s.files && r.workingDirectory == s.workingDirectory
    ensures r.running == s.running && r.outputMode == s.outputMode
    ensures |args| <= 1 ==> r == Emit(s, [""])
    ensures |args| > 1 ==> r == Emit(s, [args[1]])
  {
    var output := if |args| > 1 then args[1] else "";
    Emit(s, [output])
  }

  /** `Exit`: the session stops; nothing else changes. */
  function RunExit(s: Session): (r: Session)
    ensures !r.running
    ensures r.(running := s.running) == s
  {
    s.(running := false)
  }

  function LsMissing(arg: string): string {
    "ls: cannot access '" + arg + "': No such file or directory"
  }

  /** `LS`: lists the working directory, or the entry the first argument
      resolves to; an argument that resolves to nothing gives one error
      line. Only output changes; the source throws on an empty argument. */
  function RunLs(s: Session, args: seq<string>): (r: Outcome)
    ensures r.Crashed? <==> |args| > 1 && args[1] == ""
    ensures r.Crashed? ==> r.after == s
    ensures |args| <= 1 ==> r == Completed(Emit(s, Listing(s.files, s.workingDirectory)))
    ensures |args| > 1 && args[1] != "" ==>
      var i := Lookup(s.files, EvaluatePath(args[1], s.workingDirectory), false);
      r == Completed(Emit(s, if i == -1 then [LsMissing(args[1])]
                             else Listing(s.files, FullFilePath(s.files[i]))))
  {
    if |args| > 1 then
      var path := EvaluatePath(args[1], s.workingDirectory);
      if path == "" then Crashed(s)
      else
        var i := Lookup(s.files, path, false);
        if i == -1 then Completed(Emit(s, [LsMissing(args[1])]))
        else Completed(Emit(s, Listing(s.files, FullFilePath(s.files[i]))))
    else Completed(Emit(s, Listing(s.files, s.workingDirectory)))
  }

  function CdMissing(arg: string): string {
    "cd: '" + arg + "': No such file or directory"
  }

  /** `CD`: no argument or `./` does nothing, `..` and `../` go to the
      parent, anything else goes to the full path of the first entry it
      resolves to -- a file as readily as a directory. Only the working
      directory and output change. */
  function RunCd(s: Session, args: seq<string>): (r: Outcome)
    ensures r.Crashed? <==> |args| == 0 || (|args| > 1 && args[1] == "")
    ensures r.Crashed? ==> r.after == s
    ensures r.after.files == s.files && r.after.running == s.running
    ensures r.after.outputMode == s.outputMode
    ensures |args| == 1 || (|args| > 1 && args[1] == "./") ==> r == Completed(s)
    ensures |args| > 1 && (args[1] == ".." || args[1] == "../") ==>
      r == Completed(s.(workingDirectory := OneDirectoryUp(s.workingDirectory)))
    ensures |args| > 1 && args[1] !in {"", "./", "..", "../"} ==>
      var i := Lookup(s.files, EvaluatePath(args[1], s.workingDirectory), false);
      && (i == -1 ==> r == Completed(Emit(s, [CdMissing(args[1])])))
      && (i != -1 ==> r == Completed(s.(workingDirectory := FullFilePath(s.files[i]))))
  {
    if |args| == 0 then Crashed(s)
    else if |args| == 1 || args[1] == "./" then Completed(s)
    else if args[1] == "../" || args[1] == ".." then
      Completed(s.(workingDirectory := OneDirectoryUp(s.workingDirectory)))
    else
      var path := EvaluatePath(args[1], s.workingDirectory);
      if path == "" then Crashed(s)
      else
        var i := Lookup(s.files, path, false);
        if i == -1 then Completed(Emit(s, [CdMissing(args[1])]))
        else Completed(s.(workingDirectory := FullFilePath(s.files[i])))
  }

  function RmMissing(arg: string): string {
    "rm: cannot remove '" + arg + "': No such file or directory"
  }

  /** `RM`: removes the first entry the argument names, taken literally
      (not resolved against the working directory); the entries that were
      inside a removed directory stay. */
  function RunRm(s: Session, args: seq<string>): (r: Outcome)
    ensures r.Crashed? <==> |args| >= 2 && args[1] == ""
    ensures r.Crashed? ==> r.after == s
    ensures r.after.workingDirectory == s.workingDirectory && r.after.running == s.running
    ensures r.after.outputMode == s.outputMode
    ensures |args| < 2 ==> r == Completed(Emit(s, ["rm: missing operand"]))
    ensures |args| >= 2 && args[1] != "" && Lookup(s.files, args[1], false) == -1 ==>
      r == Completed(Emit(s, [RmMissing(args[1])]))
    ensures |args| >= 2 && args[1] != "" && Lookup(s.files, args[1], false) != -1 ==>
      var i := Lookup(s.files, args[1], false);
      r == Completed(s.(files := s.files[..i] + s.files[i + 1..]))
  {
    if |args| < 2 then Completed(Emit(s, ["rm: missing operand"]))
    else if args[1] == "" then Crashed(s)
    else
      var i := Lookup(s.files, args[1], false);
      if i == -1 then Completed(Emit(s, [RmMissing(args[1])]))
      else Completed(s.(files := s.files[..i] + s.files[i + 1..]))
  }

  /** `RM` reads the argument as given: the working directory plays no part. */
  lemma RmIgnoresWorkingDirectory(s: Session, args: seq<string>, elsewhere: string)
    ensures RunRm(s.(workingDirectory := elsewhere), args).after.files == RunRm(s, args).after.files
  {
  }

  /** Dropping position `i` keeps every other element, in order. */
  lemma DropAt<T>(xs: seq<T>, i: nat, ys: seq<T>)
    requires i < |xs| && ys == xs[..i] + xs[i + 1..]
    ensures multiset(ys) + multiset{xs[i]} == multiset(xs)
    ensures forall j :: 0 <= j < i ==> ys[j] == xs[j]
    ensures forall j :: i <= j < |ys| ==> ys[j] == xs[j + 1]
    ensures forall j :: 0 <= j < |xs| && j != i ==> xs[j] in ys
  {
    assert xs == xs[..i] + [xs[i]] + xs[i + 1..];
    forall j | 0 <= j < |xs| && j != i
      ensures xs[j] in ys
    {
      if j < i {
        assert ys[j] == xs[j];
      } else {
        assert ys[j - 1] == xs[j];
      }
    }
  }

  /** A successful `RM` removes exactly the first entry the argument
      names: the others keep their relative order, and every one of them
      stays -- the entries inside a removed directory included (no cascade). */
  lemma RmRemovesOne(s: Session, args: seq<string>)
    requires |args| >= 2 && args[1] != "" && Lookup(s.files, args[1], false) != -1
    ensures var i := Lookup(s.files, args[1], false);
            var after := RunRm(s, args).after.files;
            && multiset(after) + multiset{s.files[i]} == multiset(s.files)
            && (forall j :: 0 <= j < i ==> after[j] == s.files[j])
            && (forall j :: i <= j < |after| ==> after[j] == s.files[j + 1])
            && (forall j :: 0 <= j < |s.files| && j != i ==> s.files[j] in after)
  {
    var i := Lookup(s.files, args[1], false);
    var after := RunRm(s, args).after.files;
    assert after == s.files[..i] + s.files[i + 1..];
    DropAt(s.files, i, after);
  }

  function MkdirError(arg: string, reason: string): string {
    "mkdir: cannot create directory \U{2018}" + arg + "\U{2019}: " + reason
  }

  /** `MKDIR`: appends one directory entry `{OneDirectoryUp(path),
      FileNameFromPath(path), "DIR"}` exactly when the parent resolves and
      the path does not resolve as a directory; otherwise the list is kept
      and one error line is printed. The source throws when there is no
      argument or it is empty. */
  function RunMkdir(s: Session, args: seq<string>): (r: Outcome)
    ensures r.Crashed? <==> |args| < 2 || args[1] == ""
    ensures r.Crashed? ==> r.after == s
    ensures r.after.workingDirectory == s.workingDirectory && r.after.running == s.running
    ensures r.after.outputMode == s.outputMode
    ensures r.Completed? ==>
      var path := EvaluatePath(args[1], s.workingDirectory);
      var parentFound := Lookup(s.files, OneDirectoryUp(path), false) != -1;
      var pathFound := Lookup(s.files, path, true) != -1;
      && (parentFound && !pathFound ==>
            r.after == s.(files := s.files + [Entry(OneDirectoryUp(path), FileNameFromPath(path), DirMarker)]))
      && (!parentFound ==> r.after == Emit(s, [MkdirError(args[1], "No such file or directory")]))
      && (parentFound && pathFound ==> r.after == Emit(s, [MkdirError(args[1], "File exists")]))
  {
    if |args| < 2 then Crashed(s)
    else
      var path := EvaluatePath(args[1], s.workingDirectory);
      var dir := OneDirectoryUp(path);
      if path == "" then Crashed(s)
      else
        var name := FileNameFromPath(path);
        if Lookup(s.files, dir, false) == -1 then
          Completed(Emit(s, [MkdirError(args[1], "No such file or directory")]))
        else if Lookup(s.files, path, true) != -1 then
          Completed(Emit(s, [MkdirError(args[1], "File exists")]))
        else
          Completed(s.(files := s.files + [Entry(dir, name, DirMarker)]))
  }

  /** `TOUCH`: a path that already resolves changes nothing; otherwise one
      empty file entry is appended, whether or not its parent exists.
      Existing entries, and so existing contents, are never altered. */
  function RunTouch(s: Session, args: seq<string>): (r: Outcome)
    ensures r.Crashed? <==> |args| == 0 || (|args| > 1 && args[1] == "")
    ensures r.Crashed? ==> r.after == s
    ensures r.after.workingDirectory == s.workingDirectory && r.after.running == s.running
    ensures r.after.outputMode == s.outputMode
    ensures r.after.console == s.console && r.after.stdout == s.stdout
    ensures |s.files| <= |r.after.files| <= |s.files| + 1
    ensures r.after.files[..|s.files|] == s.files
    ensures |args| == 1 ==> r == Completed(s)
    ensures |args| > 1 && args[1] != "" ==>
      var path := EvaluatePath(args[1], s.workingDirectory);
      && (|r.after.files| == |s.files| + 1 <==> Lookup(s.files, path, false) == -1)
      && (|r.after.files| == |s.files| + 1 ==>
            r.after.files[|s.files|] == Entry(OneDirectoryUp(path), FileNameFromPath(path), ""))
  {
    if |args| == 0 then Crashed(s)
    else if |args| == 1 then Completed(s)
    else
      var path := EvaluatePath(args[1], s.workingDirectory);
      var dir := OneDirectoryUp(path);
      if path == "" then Crashed(s)
      else
        var name := FileNameFromPath(path);
        if Lookup(s.files, path, false) != -1 then Completed(s)
        else Completed(s.(files := s.files + [Entry(dir, name, "")]))
  }

  function CatMissing(arg: string): string {
    "cat: '" + arg + "': No such file or directory"
  }

  function CatDirectory(name: string): string {
    "cat: '" + name + "': Is a directory"
  }

  /** `CAT`: prints the data of the first entry the argument resolves to;
      a directory gives "Is a directory" and never its data, an unknown
      path an error line. Only output changes. */
  function RunCat(s: Session, args: seq<string>): (r: Outcome)
    ensures r.Crashed? <==> |args| == 0 || (|args| > 1 && args[1] == "")
    ensures r.Crashed? ==> r.after == s
    ensures r.after.files == s.files && r.after.workingDirectory == s.workingDirectory
    ensures r.after.running == s.running && r.after.outputMode == s.outputMode
    ensures |args| == 1 ==> r == Completed(s)
    ensures |args| > 1 && args[1] != "" ==>
      var i := Lookup(s.files, EvaluatePath(args[1], s.workingDirectory), false);
      && (i == -1 ==> r.after == Emit(s, [CatMissing(args[1])]))
      && (i != -1 && IsDirectory(s.files[i]) ==> r.after == Emit(s, [CatDirectory(s.files[i].name)]))
      && (i != -1 && !IsDirectory(s.files[i]) ==> r.after == Emit(s, [s.files[i].data]))
  {
    if |args| == 0 then Crashed(s)
    else if |args| == 1 then Completed(s)
    else
      var path := EvaluatePath(args[1], s.workingDirectory);
      if path == "" then Crashed(s)
      else
        var i := Lookup(s.files, path, false);
        if i == -1 then Completed(Emit(s, [CatMissing(args[1])]))
        else
          var file := s.files[i];
          if file.data == DirMarker then Completed(Emit(s, [CatDirectory(file.name)]))
          else Completed(Emit(s, [file.data]))
  }

  // ---------------------------------------------------------------
  // Dispatch.
  // ---------------------------------------------------------------

  datatype Builtin = Clear | Ls | Cd | Exit | Pwd | Rm | Touch | Mkdir | Cat | Echo

  function CommandName(c: Builtin): string {
    match c
    case Clear => "clear"
    case Ls => "ls"
    case Cd => "cd"
    case Exit => "exit"
    case Pwd => "pwd"
    case Rm => "rm"
    case Touch => "touch"
    case Mkdir => "mkdir"
    case Cat => "cat"
    case Echo => "echo"
  }

  /** The `switch` on the lower-cased command name. */
  function Recognize(name: string): (r: Option<Builtin>)
    ensures r.Some? ==> CommandName(r.value) == Lower(name)
    ensures r.None? ==> forall c :: CommandName(c) != Lower(name)
  {
    var n := Lower(name);
    if n == "clear" then Some(Clear)
    else if n == "ls" then Some(Ls)
    else if n == "cd" then Some(Cd)
    else if n == "exit" then Some(Exit)
    else if n == "pwd" then Some(Pwd)
    else if n == "rm" then Some(Rm)
    else if n == "touch" then Some(Touch)
    else if n == "mkdir" then Some(Mkdir)
    else if n == "cat" then Some(Cat)
    else if n == "echo" then Some(Echo)
    else None
  }

  /** A name selects a built-in exactly when, lower-cased, it is that
      built-in's name; there is no other (in particular no `grep`). */
  lemma RecognizeExactly(name: string, c: Builtin)
    ensures Recognize(name) == Some(c) <==> Lower(name) == CommandName(c)
  {
  }

  lemma NoGrep(name: string)
    requires Lower(name) == "grep"
    ensures Recognize(name) == None
  {
  }

  /** The command name is matched regardless of ASCII case. */
  lemma RecognizeIgnoresCase(name: string)
    ensures Recognize(Lower(name)) == Recognize(name)
  {
    LowerIdempotent(name);
  }

  /** A command name typed in mixed case runs that command. */
  lemma DispatchMixedCase(s: Session, arg: string)
    ensures Dispatch(s, ["MkDir", arg]) == RunMkdir(s, ["MkDir", arg])
  {
    assert Lower("MkDir") == "mkdir";
  }

  function NotFound(name: string): string {
    name + ": command not found"
  }

  /** Runs the built-in that `args[0]` names, or reports it unknown under
      the name as typed. */
  function Dispatch(s: Session, args: seq<string>): (r: Outcome)
    requires |args| > 0
    ensures Recognize(args[0]) == None ==> r == Completed(Emit(s, [NotFound(args[0])]))
    ensures Lower(args[0]) == "clear" ==> r == Completed(RunClear(s))
    ensures Lower(args[0]) == "ls" ==> r == RunLs(s, args)
    ensures Lower(args[0]) == "cd" ==> r == RunCd(s, args)
    ensures Lower(args[0]) == "exit" ==> r == Completed(RunExit(s))
    ensures Lower(args[0]) == "pwd" ==> r == Completed(RunPwd(s))
    ensures Lower(args[0]) == "rm" ==> r == RunRm(s, args)
    ensures Lower(args[0]) == "touch" ==> r == RunTouch(s, args)
    ensures Lower(args[0]) == "mkdir" ==> r == RunMkdir(s, args)
    ensures Lower(args[0]) == "cat" ==> r == RunCat(s, args)
    ensures Lower(args[0]) == "echo" ==> r == Completed(RunEcho(s, args))
  {
    match Recognize(args[0])
    case None => Completed(Emit(s, [NotFound(args[0])]))
    case Some(c) =>
      match c
      case Clear => Completed(RunClear(s))
      case Ls => RunLs(s, args)
      case Cd => RunCd(s, args)
      case Exit => Completed(RunExit(s))
      case Pwd => Completed(RunPwd(s))
      case Rm => RunRm(s, args)
      case Touch => RunTouch(s, args)
      case Mkdir => RunMkdir(s, args)
      case Cat => RunCat(s, args)
      case Echo => Completed(RunEcho(s, args))
  }

  /** The words of a line: split at every space, the second word replaced
      by the first quoted span (console mode only). The source throws when
      there is a quoted span but no second word. */
  function Words(line: string, outputMode: int): (r: Option<seq<string>>)
    ensures var words := Split(line, {' '});
            var quoted := QuotesParse(line);
            && (r.None? <==> outputMode == ConsoleMode && quoted != "" && |words| < 2)
            && (r.Some? ==> |r.value| == |words| && r.value[0] == words[0])
            && (r.Some? ==> forall k :: 2 <= k < |words| ==> r.value[k] == words[k])
            && (r.Some? && |words| > 1 ==>
                  r.value[1] == if outputMode == ConsoleMode && quoted != "" then quoted else words[1])
  {
    var words := Split(line, {' '});
    var quoted := QuotesParse(line);
    if outputMode == ConsoleMode && quoted != "" then
      if |words| < 2 then None else Some(words[1 := quoted])
    else Some(words)
  }

  /** In console mode, when the first two `"` of the line enclose a
      non-empty span and the line has a second word, that word becomes
      exactly the span; the other words are the pieces between spaces, so
      the words the span covered stay as they are. */
  lemma WordsQuoted(line: string, i: nat, j: nat)
    requires i + 1 < j < |line| && line[i] == '"' && line[j] == '"'
    requires NoneOf(line[..i], {'"'}) && NoneOf(line[i + 1..j], {'"'})
    requires |Split(line, {' '})| >= 2
    ensures Words(line, ConsoleMode) == Some(Split(line, {' '})[1 := line[i + 1..j]])
  {
    QuotesParseBetween(line, i, j);
    assert line[i + 1..j][0] == line[i + 1];
  }

  /** `ExecuteCommand`: in pipe mode with a non-empty buffer the buffered
      lines become extra arguments and the buffer is emptied; a line whose
      first word is empty does nothing. */
  function Execute(s: Session, line: string): (r: Outcome)
    ensures Words(line, s.outputMode).None? ==> r == Crashed(s)
    ensures Words(line, s.outputMode).Some? ==>
      var words := Words(line, s.outputMode).value;
      var piped := s.outputMode == PipeMode && |s.stdout| > 0;
      var s1 := if piped then s.(stdout := []) else s;
      && (words[0] == "" ==> r == Completed(s1))
      && (words[0] != "" ==> r == Dispatch(s1, if piped then words + s.stdout else words))
  {
    match Words(line, s.outputMode)
    case None => Crashed(s)
    case Some(words) =>
      var piped := s.outputMode == PipeMode && |s.stdout| > 0;
      var args := if piped then words + s.stdout else words;
      var s1 := if piped then s.(stdout := []) else s;
      if |args| == 0 || args[0] == "" then Completed(s1)
      else Dispatch(s1, args)
  }

  /** `HandleInput`: a line without `>` or `|` is executed as a whole; a
      line with one runs nothing, prints a notice and leaves console mode
      set. */
  function HandleInput(s: Session, line: string): (r: Outcome)
    ensures NoneOf(line, {'>', '|'}) ==> r == Execute(s, line)
    ensures !NoneOf(line, {'>', '|'}) ==>
      r == Completed(s.(outputMode := ConsoleMode, console := s.console + [PipeNotice]))
  {
    var commands := Split(line, {'>', '|'});
    CountZero(line, {'>', '|'});
    if |commands| == 1 then Execute(s, line)
    else
      // outputMode is set to 2 and back to 1 around a direct write.
      Completed(s.(outputMode := ConsoleMode, console := s.console + [PipeNotice]))
  }

  /** In console mode, a line with no operator whose first word is not a
      built-in prints "<word>: command not found", with the word as typed,
      and changes nothing else (a quoted span replaces only the second
      word, so it does not matter unless there is no second word). */
  lemma UnknownCommandReported(s: Session, line: string)
    requires s.outputMode == ConsoleMode
    requires NoneOf(line, {'>', '|'})
    requires QuotesParse(line) == "" || |Split(line, {' '})| >= 2
    requires Split(line, {' '})[0] != "" && Recognize(Split(line, {' '})[0]) == None
    ensures HandleInput(s, line)
         == Completed(s.(console := s.console + [NotFound(Split(line, {' '})[0])]))
  {
  }

  /** End to end: typing `ls` in console mode prints the listing of the
      working directory and changes nothing else. */
  lemma HandleInputLs(s: Session)
    requires s.outputMode == ConsoleMode
    ensures HandleInput(s, "ls") == Completed(Emit(s, Listing(s.files, s.workingDirectory)))
  {
    assert NoneOf("ls", {' '}) && NoneOf("ls", {'"'}) && NoneOf("ls", {'>', '|'});
    SplitNone("ls", ' ');
    CountZero("ls", {'"'});
    assert Lower("ls") == "ls";
  }

  /** `cd ..` is two words, with no quote and no operator. */
  lemma CdUpWords()
    ensures Words("cd ..", ConsoleMode) == Some(["cd", ".."])
    ensures NoneOf("cd ..", {'>', '|'})
  {
    CdUpSplit();
    assert NoneOf("cd ..", {'"'});
    CountZero("cd ..", {'"'});
  }

  lemma CdUpSplit()
    ensures Split("cd ..", {' '}) == ["cd", ".."]
  {
    assert "cd .." == "cd" + [' '] + "..";
    SplitAtFirst("cd", ' ', "..");
    SplitNone("..", ' ');
  }

  /** End to end: `cd ..` in console mode moves to the parent directory. */
  lemma HandleInputCdUp(s: Session)
    requires s.outputMode == ConsoleMode
    ensures HandleInput(s, "cd ..")
         == Completed(s.(workingDirectory := OneDirectoryUp(s.workingDirectory)))
  {
    CdUpWords();
    assert Lower("cd") == "cd";
    assert Execute(s, "cd ..") == Dispatch(s, ["cd", ".."]);
  }

  // ---------------------------------------------------------------
  // The shape of the state the commands keep.
  // ---------------------------------------------------------------

  /** The root entry, or an entry whose parent is a directory path. */
  predicate WellPlaced(e: Entry) {
    (e.parent == "" && e.name == "/") || IsDirectoryPath(e.parent)
  }

  /** The working directory is an absolute path ending in `/`, and every
      entry is well placed. */
  predicate Valid(s: Session) {
    IsDirectoryPath(s.workingDirectory) && forall e :: e in s.files ==> WellPlaced(e)
  }

  lemma BootValid()
    ensures Valid(Boot())
  {
  }

  lemma {:induction false} UpKeepsDirectoryPath(p: string)
    requires IsDirectoryPath(p)
    ensures IsDirectoryPath(OneDirectoryUp(p))
  {
    if p != "/" && Count(p, {'/'}) >= 2 {
      var up := OneDirectoryUp(p);
      assert IsParentPrefix(up, p);
      assert up[0] == p[0];
    }
  }

  lemma FullPathOfWellPlaced(e: Entry)
    requires WellPlaced(e)
    ensures IsDirectoryPath(FullFilePath(e))
  {
    if e.parent != "" {
      assert FullFilePath(e)[0] == e.parent[0];
    }
  }

  /** What `mkdir` and `touch` append under an absolute working directory
      is well placed. */
  lemma NewEntryWellPlaced(s: Session, arg: string, data: string)
    requires Valid(s) && arg != ""
    ensures var path := EvaluatePath(arg, s.workingDirectory);
            WellPlaced(Entry(OneDirectoryUp(path), FileNameFromPath(path), data))
  {
    var path := EvaluatePath(arg, s.workingDirectory);
    if path != "/" {
      ParentJoinsName(path);
    }
  }

  lemma CdKeepsValid(s: Session, args: seq<string>)
    requires Valid(s)
    ensures Valid(RunCd(s, args).after)
  {
    var r := RunCd(s, args);
    if r.Completed? && r.after.workingDirectory != s.workingDirectory {
      if args[1] == "../" || args[1] == ".." {
        UpKeepsDirectoryPath(s.workingDirectory);
      } else {
        var i := Lookup(s.files, EvaluatePath(args[1], s.workingDirectory), false);
        FullPathOfWellPlaced(s.files[i]);
      }
    }
  }

  lemma RmKeepsValid(s: Session, args: seq<string>)
    requires Valid(s)
    ensures Valid(RunRm(s, args).after)
  {
    if |args| >= 2 && args[1] != "" && Lookup(s.files, args[1], false) != -1 {
      var i := Lookup(s.files, args[1], false);
      var after := RunRm(s, args).after;
      assert after == s.(files := s.files[..i] + s.files[i + 1..]);
      forall e | e in after.files ensures WellPlaced(e) {
        assert e in s.files[..i] || e in s.files[i + 1..];
      }
    }
  }

  lemma MkdirKeepsValid(s: Session, args: seq<string>)
    requires Valid(s)
    ensures Valid(RunMkdir(s, args).after)
  {
    var r := RunMkdir(s, args);
    if |args| >= 2 && args[1] != "" {
      NewEntryWellPlaced(s, args[1], DirMarker);
      if r.after.files != s.files {
        var path := EvaluatePath(args[1], s.workingDirectory);
        var e := Entry(OneDirectoryUp(path), FileNameFromPath(path), DirMarker);
        assert r.after.files == s.files + [e];
      }
    }
  }

  lemma TouchKeepsValid(s: Session, args: seq<string>)
    requires Valid(s)
    ensures Valid(RunTouch(s, args).after)
  {
    var r := RunTouch(s, args);
    if |r.after.files| == |s.files| + 1 {
      NewEntryWellPlaced(s, args[1], "");
      assert r.after.files == s.files + [r.after.files[|s.files|]];
    } else {
      assert r.after.files == s.files;
    }
  }

  /** Every command keeps the session valid. */
  lemma {:induction false} DispatchKeepsValid(s: Session, args: seq<string>)
    requires Valid(s) && |args| > 0
    ensures Valid(Dispatch(s, args).after)
  {
    match Recognize(args[0])
    case None =>
    case Some(c) =>
      match c
      case Cd => CdKeepsValid(s, args);
      case Rm => RmKeepsValid(s, args);
      case Mkdir => MkdirKeepsValid(s, args);
      case Touch => TouchKeepsValid(s, args);
      case _ =>
  }

  /** Handling any line keeps the session valid. */
  lemma HandleInputKeepsValid(s: Session, line: string)
    requires Valid(s)
    ensures Valid(HandleInput(s, line).after)
  {
    match Words(line, s.outputMode)
    case None =>
    case Some(words) =>
      var piped := s.outputMode == PipeMode && |s.stdout| > 0;
      var args := if piped then words + s.stdout else words;
      var s1 := if piped then s.(stdout := []) else s;
      if |args| > 0 && args[0] != "" {
        DispatchKeepsValid(s1, args);
      }
  }

  /** No two entries share a full path, so the first match `FileIndex`
      finds is the only one. */
  predicate UniquePaths(files: seq<Entry>) {
    forall i, j :: 0 <= i < j < |files| ==> FullFilePath(files[i]) != FullFilePath(files[j])
  }

  lemma BootUnique()
    ensures UniquePaths(Boot().files)
  {
    // The four full paths differ in length.
    var lengths := [1, 6, 5, 23];
    forall k | 0 <= k < 4 ensures |FullFilePath(SeedFiles[k])| == lengths[k] {
    }
    forall i, j | 0 <= i < j < 4
      ensures FullFilePath(SeedFiles[i]) != FullFilePath(SeedFiles[j])
    {
      assert lengths[i] != lengths[j];
    }
  }

  /** An entry whose full path no entry of a unique list has keeps the list
      unique when appended. */
  lemma AppendUnique(files: seq<Entry>, e: Entry)
    requires UniquePaths(files)
    requires forall i :: 0 <= i < |files| ==> FullFilePath(files[i]) != FullFilePath(e)
    ensures UniquePaths(files + [e])
  {
    var all := files + [e];
    forall i, j | 0 <= i < j < |all| ensures FullFilePath(all[i]) != FullFilePath(all[j]) {
      assert all[i] == files[i];
      if j < |files| {
        assert all[j] == files[j];
      }
    }
  }

  /** The entry `mkdir` or `touch` makes for a path that finds no entry as
      a directory has a full path no entry has. */
  lemma NewEntryIsNew(s: Session, arg: string, data: string)
    requires Valid(s) && arg != "" && EvaluatePath(arg, s.workingDirectory) != "/"
    requires Lookup(s.files, EvaluatePath(arg, s.workingDirectory), true) == -1
    ensures var path := EvaluatePath(arg, s.workingDirectory);
            var e := Entry(OneDirectoryUp(path), FileNameFromPath(path), data);
            forall i :: 0 <= i < |s.files| ==> FullFilePath(s.files[i]) != FullFilePath(e)
  {
    var path := EvaluatePath(arg, s.workingDirectory);
    NewEntryMatches(path, data);
  }

  lemma MkdirKeepsUnique(s: Session, args: seq<string>)
    requires Valid(s) && UniquePaths(s.files)
    ensures UniquePaths(RunMkdir(s, args).after.files)
  {
    var t := RunMkdir(s, args).after;
    if t.files != s.files {
      var path := EvaluatePath(args[1], s.workingDirectory);
      var e := Entry(OneDirectoryUp(path), FileNameFromPath(path), DirMarker);
      assert t.files == s.files + [e];
      assert path != "/";
      NewEntryIsNew(s, args[1], DirMarker);
      AppendUnique(s.files, e);
    }
  }

  /** `touch` keeps full paths unique for every argument but `/`. */
  lemma TouchKeepsUnique(s: Session, args: seq<string>)
    requires Valid(s) && UniquePaths(s.files)
    requires |args| > 1 ==> args[1] != "/"
    ensures UniquePaths(RunTouch(s, args).after.files)
  {
    var t := RunTouch(s, args).after;
    if |t.files| == |s.files| + 1 {
      var path := EvaluatePath(args[1], s.workingDirectory);
      var e := Entry(OneDirectoryUp(path), FileNameFromPath(path), "");
      assert t.files == s.files + [e];
      assert path != "/";
      assert Lookup(s.files, path, false) == -1;
      assert Lookup(s.files, path, true) == -1;
      NewEntryIsNew(s, args[1], "");
      AppendUnique(s.files, e);
    } else {
      assert t.files == s.files;
    }
  }

  lemma RmKeepsUnique(s: Session, args: seq<string>)
    requires UniquePaths(s.files)
    ensures UniquePaths(RunRm(s, args).after.files)
  {
    if |args| >= 2 && args[1] != "" && Lookup(s.files, args[1], false) != -1 {
      var i := Lookup(s.files, args[1], false);
      var after := RunRm(s, args).after.files;
      assert after == s.files[..i] + s.files[i + 1..];
      DropAt(s.files, i, after);
      forall j, k | 0 <= j < k < |after| ensures FullFilePath(after[j]) != FullFilePath(after[k]) {
        var j' := if j < i then j else j + 1;
        var k' := if k < i then k else k + 1;
        assert after[j] == s.files[j'] && after[k] == s.files[k'];
      }
    }
  }

  // ---------------------------------------------------------------
  // Properties that relate two commands.
  // ---------------------------------------------------------------

  /** A `mkdir` that created a directory, repeated with the same argument,
      reports "File exists" and changes nothing but the output. */
  lemma MkdirTwice(s: Session, args: seq<string>)
    requires Valid(s) && |args| >= 2 && args[1] != ""
    requires |RunMkdir(s, args).after.files| > |s.files|
    ensures var t := RunMkdir(s, args).after;
            RunMkdir(t, args) == Completed(Emit(t, [MkdirError(args[1], "File exists")]))
  {
    var t := RunMkdir(s, args).after;
    var path := EvaluatePath(args[1], s.workingDirectory);
    var dir := OneDirectoryUp(path);
    var e := Entry(dir, FileNameFromPath(path), DirMarker);
    assert t.files == s.files + [e];
    // The root path never gets this far: it names its own parent.
    assert path != "/";
    NewEntryMatches(path, DirMarker);
    LookupAppend(s.files, e, dir, false);
    LookupAppend(s.files, e, path, true);
  }

  /** `touch` is idempotent: a second identical `touch` changes nothing
      (the root path is set aside: once the root entry is removed, `touch /`
      appends a new entry every time, as `TouchRootRepeats` shows). */
  lemma TouchTwice(s: Session, args: seq<string>)
    requires Valid(s)
    requires RunTouch(s, args).Completed?
    requires |args| > 1 ==> args[1] != "/"
    ensures var t := RunTouch(s, args).after;
            RunTouch(t, args) == Completed(t)
  {
    var t := RunTouch(s, args).after;
    if |t.files| == |s.files| + 1 {
      var path := EvaluatePath(args[1], s.workingDirectory);
      var e := Entry(OneDirectoryUp(path), FileNameFromPath(path), "");
      assert t.files == s.files + [e];
      assert path != "/";
      NewEntryMatches(path, "");
      LookupAppend(s.files, e, path, false);
    } else {
      assert t == s;
    }
  }

  /** Once no entry answers to `/` (after `rm /`, say), every `touch /`
      appends another file: the entry it makes has full path `///`, which
      `/` never finds. Two of them share that full path, the one way the
      commands break `UniquePaths`. */
  lemma TouchRootRepeats(s: Session, args: seq<string>)
    requires |args| > 1 && args[1] == "/" && Lookup(s.files, "/", false) == -1
    ensures var t := RunTouch(s, args).after;
            && t.files == s.files + [Entry("/", "/", "")]
            && RunTouch(t, args).after.files == s.files + [Entry("/", "/", ""), Entry("/", "/", "")]
            && !UniquePaths(RunTouch(t, args).after.files)
  {
    var e := Entry("/", "/", "");
    assert RunTouch(s, args).after.files == s.files + [e];
    assert FullFilePath(e) == "///";
    LookupAppend(s.files, e, "/", false);
    var u := RunTouch(s, args).after.files + [e];
    assert u == s.files + [e, e];
    assert u[|s.files|] == u[|s.files| + 1];
  }

  /** `rm /` on the seed filesystem removes the root entry, after which no
      entry answers to `/`. */
  lemma RmRootFromBoot()
    ensures var t := RunRm(Boot(), ["rm", "/"]);
            && t.Completed? && t.after.files == SeedFiles[1..]
            && Lookup(t.after.files, "/", false) == -1
  {
    assert Matches(SeedFiles[0], "/", false);
    assert Lookup(SeedFiles, "/", false) == 0;
    SeedHasOneRoot();
  }

  lemma SeedHasOneRoot()
    ensures Lookup(SeedFiles[1..], "/", false) == -1
  {
    var rest := SeedFiles[1..];
    assert !Matches(rest[0], "/", false);
    assert !Matches(rest[1], "/", false);
    assert !Matches(rest[2], "/", false);
  }

  /** A file that `touch` has just created reads back empty: `cat` of the
      same argument prints one empty line and changes nothing else (the
      root path is set aside, as for `TouchTwice`). */
  lemma TouchThenCat(s: Session, touchArgs: seq<string>, catArgs: seq<string>)
    requires Valid(s) && |touchArgs| > 1 && |catArgs| > 1
    requires touchArgs[1] == catArgs[1] != "/"
    requires |RunTouch(s, touchArgs).after.files| == |s.files| + 1
    ensures var t := RunTouch(s, touchArgs).after;
            RunCat(t, catArgs) == Completed(Emit(t, [""]))
  {
    var t := RunTouch(s, touchArgs).after;
    var path := EvaluatePath(touchArgs[1], s.workingDirectory);
    var e := Entry(OneDirectoryUp(path), FileNameFromPath(path), "");
    assert t.files == s.files + [e];
    assert path != "/";
    NewEntryMatches(path, "");
    LookupAppend(s.files, e, path, false);
  }

  /** `cd` into an entry whose name is a plain segment, then `cd ..`,
      comes back to the entry's parent directory. */
  lemma CdThenUp(s: Session, args: seq<string>)
    requires Valid(s) && |args| > 1 && args[1] !in {"", "./", "..", "../"}
    requires Lookup(s.files, EvaluatePath(args[1], s.workingDirectory), false) != -1
    requires var e := s.files[Lookup(s.files, EvaluatePath(args[1], s.workingDirectory), false)];
             e.parent != "" && e.name != "" && NoneOf(e.name, {'/'})
    ensures var e := s.files[Lookup(s.files, EvaluatePath(args[1], s.workingDirectory), false)];
            var t := RunCd(s, args).after;
            && t.workingDirectory == FullFilePath(e)
            && RunCd(t, ["cd", ".."]) == Completed(t.(workingDirectory := e.parent))
  {
    var e := s.files[Lookup(s.files, EvaluatePath(args[1], s.workingDirectory), false)];
    assert WellPlaced(e);
    UpOfChild(e.parent, e.name);
  }
}
