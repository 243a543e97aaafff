/** The `FakeShell` object: the filesystem list, the working directory,
    the session flags and the pipe buffer, updated in place by the command
    methods. Each method is proved to do what the matching function of
    `Commands` describes, and the terminal is the ghost log `console`. */
module Shell {
  import opened Strings
  import opened Paths
  import opened Commands

  class FakeShell {
    var running: bool
    /** The filesystem: `{parent, name, data}` records, `"DIR"` data for a directory. */
    var fakeFiles: seq<Entry>
    var workingDirectory: string
    var user: string
    var computer: string
    /** The pipe buffer; the source's null list is the empty sequence. */
    var stdout: seq<string>
    /** 1 = console, 2 = pipe. */
    var outputMode: int
    /** Every line written to the terminal, in order. */
    ghost var console: seq<string>

    /** The fields the commands read and change, as one value. */
    ghost function State(): Session
      reads this
    {
      Session(fakeFiles, workingDirectory, running, outputMode, stdout, console)
    }

    ghost predicate Valid()
      reads this
    {
      Commands.Valid(State())
    }

    /** The call ended as `o` says: `ok` exactly when it completed, and the
        fields hold `o`'s state either way. */
    twostate predicate Follows(o: Outcome, ok: bool)
      reads this
    {
      ok == o.Completed? && State() == o.after
    }

    /** The seed filesystem, the root as working directory, and the login
        banner on the terminal. */
    constructor ()
      ensures State() == Boot() && Valid()
      ensures user == "elitehaxxorprotagonist" && computer == "badguyterminal"
    {
      computer := "badguyterminal";
      user := "elitehaxxorprotagonist";
      outputMode := ConsoleMode;
      stdout := [];
      console := [];
      new;
      Output(Banner);
      running := true;
      fakeFiles := SeedFiles;
      workingDirectory := FullFilePath(fakeFiles[0]);
      BootValid();
    }

    // -------------------------------------------------------------
    // Output.
    // -------------------------------------------------------------

    /** Writes a line to the terminal in console mode, to the pipe buffer in
        pipe mode, and nowhere in any other mode. */
    method Output(message: string)
      modifies this`console, this`stdout
      ensures State() == Emit(old(State()), [message])
    {
      if outputMode == ConsoleMode {
        console := console + [message];
      } else if outputMode == PipeMode {
        STDOUT(message);
      }
    }

    /** Appends a line to the pipe buffer. */
    method STDOUT(message: string)
      modifies this`stdout
      ensures stdout == old(stdout) + [message]
    {
      stdout := stdout + [message];
    }

    // -------------------------------------------------------------
    // Filesystem queries.
    // -------------------------------------------------------------

    /** The first entry whose full path is `path` (unless a directory is
        required) or `path` with a `/` appended; -1 when there is none. */
    method FileIndex(path: string, mustBeDirectory: bool) returns (index: int)
      requires path != ""
      ensures -1 <= index < |fakeFiles|
      ensures index == -1 <==> forall i :: 0 <= i < |fakeFiles| ==> !Matches(fakeFiles[i], path, mustBeDirectory)
      ensures index >= 0 ==> Matches(fakeFiles[index], path, mustBeDirectory)
      ensures index >= 0 ==> forall j :: 0 <= j < index ==> !Matches(fakeFiles[j], path, mustBeDirectory)
      ensures index == Lookup(fakeFiles, path, mustBeDirectory)
    {
      var pathAsDir := path;
      if path[|path| - 1] != '/' {
        pathAsDir := path + "/";
      }
      var i := 0;
      while i < |fakeFiles|
        invariant 0 <= i <= |fakeFiles|
        invariant forall j :: 0 <= j < i ==> !Matches(fakeFiles[j], path, mustBeDirectory)
      {
        var fakePath := FullFilePath(fakeFiles[i]);
        if (fakePath == path && !mustBeDirectory) || fakePath == pathAsDir {
          return i;
        }
        i := i + 1;
      }
      return -1;
    }

    /** The entries whose parent is exactly `path`, in list order. */
    method FilesInDir(path: string) returns (ret: seq<Entry>)
      ensures ret == ChildrenOf(fakeFiles, path)
    {
      ret := [];
      var i := 0;
      while i < |fakeFiles|
        invariant 0 <= i <= |fakeFiles|
        invariant ret == ChildrenOf(fakeFiles[..i], path)
      {
        assert fakeFiles[..i + 1][..i] == fakeFiles[..i];
        if fakeFiles[i].parent == path {
          ret := ret + [fakeFiles[i]];
        }
        i := i + 1;
      }
      assert fakeFiles[..i] == fakeFiles;
    }

    // -------------------------------------------------------------
    // The built-in commands.
    // -------------------------------------------------------------

    method CLEAR(args: seq<string>)
      modifies this`console, this`stdout
      ensures State() == RunClear(old(State()))
    {
      Output(ClearScreen);
    }

    method PWD(args: seq<string>)
      modifies this`console, this`stdout
      ensures State() == RunPwd(old(State()))
    {
      Output(workingDirectory);
    }

    /** Lists a directory three names to a line, each name followed by a tab. */
    method LS(args: seq<string>) returns (ok: bool)
      modifies this`console, this`stdout
      ensures Follows(RunLs(old(State()), args), ok)
    {
      ghost var before := State();
      var directory := workingDirectory;
      if |args| > 1 {
        var path := EvaluatePath(args[1], workingDirectory);
        if path == "" {
          // FileIndex reads the last character of the empty path.
          return false;
        }
        var index := FileIndex(path, false);
        if index == -1 {
          Output(LsMissing(args[1]));
          return true;
        }
        directory := FullFilePath(fakeFiles[index]);
      }
      var matchingFiles := FilesInDir(directory);
      PrintRows(matchingFiles);
      assert RunLs(before, args) == Completed(Emit(before, Listing(before.files, directory)));
      ok := true;
    }

    /** The listing loop of `LS`: each name and a tab appended to the line,
        the line printed after every third name, and a last shorter line
        printed if one is left. */
    method PrintRows(matchingFiles: seq<Entry>)
      modifies this`console, this`stdout
      ensures State() == Emit(old(State()), Rows(Names(matchingFiles)))
    {
      ghost var names := Names(matchingFiles);
      ghost var start := State();
      ghost var g := 0;
      ghost var printed: seq<string> := [];
      var i := 0;
      var output := "";
      var k := 0;
      while k < |matchingFiles|
        invariant 0 <= i < 3 && k == 3 * g + i <= |names|
        invariant output == Tabbed(names[3 * g..k])
        invariant printed == Rows(names[..3 * g])
        invariant State() == Emit(start, printed)
      {
        TabbedStep(names, 3 * g, k);
        output := output + FileName(matchingFiles[k]) + "\t";
        i := i + 1;
        if i == 3 {
          PrintGroup(start, names, g, output);
          Output(output);
          i := 0;
          g := g + 1;
          printed := Rows(names[..3 * g]);
          output := "";
        }
        k := k + 1;
      }
      assert names[3 * g..k] == names[3 * g..];
      PrintRest(start, names, g, output);
      if output != "" {
        Output(output);
      }
    }

    /** Changes the working directory; any entry will do, a file included. */
    method CD(args: seq<string>) returns (ok: bool)
      modifies this`workingDirectory, this`console, this`stdout
      ensures Follows(RunCd(old(State()), args), ok)
    {
      if |args| == 0 {
        // args[1] on an empty argument array.
        return false;
      }
      if |args| == 1 || args[1] == "./" {
        return true;
      }
      if args[1] == "../" || args[1] == ".." {
        workingDirectory := OneDirectoryUp(workingDirectory);
        return true;
      }
      var path := EvaluatePath(args[1], workingDirectory);
      if path == "" {
        return false;
      }
      var fileIndex := FileIndex(path, false);
      if fileIndex == -1 {
        Output(CdMissing(args[1]));
        return true;
      }
      workingDirectory := FullFilePath(fakeFiles[fileIndex]);
      return true;
    }

    /** Removes the entry the argument names, as given (not resolved). */
    method RM(args: seq<string>) returns (ok: bool)
      modifies this`fakeFiles, this`console, this`stdout
      ensures Follows(RunRm(old(State()), args), ok)
    {
      if |args| < 2 {
        Output("rm: missing operand");
        return true;
      }
      if args[1] == "" {
        return false;
      }
      var fileIndex := FileIndex(args[1], false);
      if fileIndex == -1 {
        Output(RmMissing(args[1]));
        return true;
      }
      fakeFiles := fakeFiles[..fileIndex] + fakeFiles[fileIndex + 1..];
      return true;
    }

    /** Appends a directory entry under an existing parent. */
    method MKDIR(args: seq<string>) returns (ok: bool)
      modifies this`fakeFiles, this`console, this`stdout
      ensures Follows(RunMkdir(old(State()), args), ok)
    {
      if |args| < 2 {
        return false;
      }
      var path := EvaluatePath(args[1], workingDirectory);
      var dir := OneDirectoryUp(path);
      if path == "" {
        // FileNameFromPath reads the last character of the empty path.
        return false;
      }
      var name := FileNameFromPath(path);
      var data := DirMarker;
      ghost var before := State();
      var parentIndex := FileIndex(dir, false);
      if parentIndex == -1 {
        Output(MkdirError(args[1], "No such file or directory"));
        return true;
      }
      var existing := FileIndex(path, true);
      if existing != -1 {
        Output(MkdirError(args[1], "File exists"));
        return true;
      }
      fakeFiles := fakeFiles + [Entry(dir, name, data)];
      assert RunMkdir(before, args) == Completed(before.(files := before.files + [Entry(dir, name, data)]));
      return true;
    }

    /** Appends an empty file entry unless the path already resolves. */
    method TOUCH(args: seq<string>) returns (ok: bool)
      modifies this`fakeFiles
      ensures Follows(RunTouch(old(State()), args), ok)
    {
      if |args| == 0 {
        return false;
      }
      if |args| == 1 {
        return true;
      }
      var path := EvaluatePath(args[1], workingDirectory);
      var dir := OneDirectoryUp(path);
      if path == "" {
        return false;
      }
      var name := FileNameFromPath(path);
      var data := "";
      var existing := FileIndex(path, false);
      if existing != -1 {
        return true;
      }
      fakeFiles := fakeFiles + [Entry(dir, name, data)];
      return true;
    }

    /** Prints a file's data; a directory is refused. */
    method CAT(args: seq<string>) returns (ok: bool)
      modifies this`console, this`stdout
      ensures Follows(RunCat(old(State()), args), ok)
    {
      if |args| == 0 {
        return false;
      }
      if |args| == 1 {
        return true;
      }
      var path := EvaluatePath(args[1], workingDirectory);
      if path == "" {
        return false;
      }
      var fileIndex := FileIndex(path, false);
      if fileIndex == -1 {
        Output(CatMissing(args[1]));
        return true;
      }
      var file := fakeFiles[fileIndex];
      if file.data == DirMarker {
        Output(CatDirectory(file.name));
        return true;
      }
      Output(file.data);
      return true;
    }

    method ECHO(args: seq<string>)
      modifies this`console, this`stdout
      ensures State() == RunEcho(old(State()), args)
    {
      var output := "";
      if |args| > 1 {
        output := args[1];
      }
      Output(output);
    }

    method Exit(args: seq<string>)
      modifies this`running
      ensures State() == RunExit(old(State()))
    {
      running := false;
    }

    // -------------------------------------------------------------
    // Input.
    // -------------------------------------------------------------

    /** Splits the line into words and runs the built-in the first one names. */
    method ExecuteCommand(inputLine: string) returns (ok: bool)
      modifies this`fakeFiles, this`workingDirectory, this`running, this`console, this`stdout
      ensures Follows(Execute(old(State()), inputLine), ok)
    {
      ghost var s := State();
      var args := Split(inputLine, {' '});
      if outputMode == ConsoleMode && QuotesParse(inputLine) != "" {
        if |args| < 2 {
          // args[1] written past the end of the array.
          return false;
        }
        args := args[1 := QuotesParse(inputLine)];
      }
      assert Words(inputLine, s.outputMode) == Some(args);
      if outputMode == PipeMode && |stdout| > 0 {
        args := args + stdout;
        stdout := [];
      }
      if |args| == 0 || args[0] == "" {
        return true;
      }
      ok := RunBuiltin(args);
    }

    /** The `switch` of `ExecuteCommand`: the built-in the first word names,
        or "command not found". */
    method RunBuiltin(args: seq<string>) returns (ok: bool)
      requires |args| > 0
      modifies this`fakeFiles, this`workingDirectory, this`running, this`console, this`stdout
      ensures Follows(Dispatch(old(State()), args), ok)
    {
      match Recognize(args[0]) {
        case None =>
          Output(NotFound(args[0]));
          ok := true;
        case Some(c) =>
          match c {
            case Clear => CLEAR(args); ok := true;
            case Ls => ok := LS(args);
            case Cd => ok := CD(args);
            case Exit => Exit(args); ok := true;
            case Pwd => PWD(args); ok := true;
            case Rm => ok := RM(args);
            case Touch => ok := TOUCH(args);
            case Mkdir => ok := MKDIR(args);
            case Cat => ok := CAT(args);
            case Echo => ECHO(args); ok := true;
          }
      }
    }

    /** Runs a line without `>` or `|`; a line with one runs nothing. */
    method HandleInput(inputLine: string) returns (ok: bool)
      modifies this`fakeFiles, this`workingDirectory, this`running, this`outputMode
      modifies this`console, this`stdout
      ensures Follows(Commands.HandleInput(old(State()), inputLine), ok)
      ensures old(Valid()) ==> Valid()
    {
      ghost var before := State();
      var commands := Split(inputLine, {'>', '|'});
      if |commands| == 1 {
        ok := ExecuteCommand(inputLine);
      } else {
        outputMode := PipeMode;
        console := console + [PipeNotice];
        outputMode := ConsoleMode;
        ok := true;
      }
      if Commands.Valid(before) {
        HandleInputKeepsValid(before, inputLine);
      }
    }
  }
}
