# FakeShell in Dafny

A model of `FakeShell`, a toy Unix-like shell for games. The filesystem is an
in-memory list of `{parent, name, data}` records, where the data `"DIR"` marks
a directory. There is one working directory. The built-in commands are
`clear`, `pwd`, `ls`, `cd`, `rm`, `mkdir`, `touch`, `cat`, `echo` and
`exit`. Output goes to the terminal (console mode) or to a pipe buffer
(`stdout`, pipe mode).

The project has four modules, one per file:

- `Strings` (`strings.dfy`): the .NET string operations the shell relies on.
  These are `String.Split` over a set of separator characters,
  `LastIndexOf` and `ToLower`, all over `string = seq<char>`.
- `Paths` (`paths.dfy`): the filesystem record `Entry` and the path helpers.
  These are `EvaluatePath`, `OneDirectoryUp`, `FileNameFromPath`,
  `FullFilePath`, `FileName` and `QuotesParse`. It also holds `Lookup` and
  `ChildrenOf`, the specifications of the `FileIndex` and `FilesInDir` scans.
- `Commands` (`commands.dfy`): the state of a session as the value `Session`.
  Each command is a function from the state before to its `Outcome`, and
  dispatch goes from an input line to a command. The lemmas here relate the
  commands to each other and to the invariant `Valid`.
- `Shell` (`shell.dfy`): the class `FakeShell`. It has the source's fields,
  updated in place by its methods. Each method is proved to leave exactly the
  state that the matching `Commands` function gives. `FileIndex`, `FilesInDir`
  and the listing loop of `LS` keep their loops and are proved against
  `Lookup`, `ChildrenOf` and `Rows`.

Modelling decisions:

- Terminal output (`Console.Write`) is the ghost field `console`, the sequence
  of lines written so far. `Output` appends the message; the `"\n"` the
  source adds is implied by the line structure.
- An index out of range in the source is the outcome `Crashed(after)`. The
  shell methods return `ok == false` in that case. The state carried is the
  one at the throw, which differs from the state before only when
  `ExecuteCommand` had already emptied the pipe buffer.
  - An empty path reaching `FileIndex` or `FileNameFromPath` crashes there.
  - So does a missing argument to `mkdir`.
  - So does a quoted span on a line with no second word.
- The source's null `stdout` list is the empty sequence.
- Behaviours of the code that a reader might not expect, all kept by the
  model:
  - the words of a line are `Split(' ')`, with the second word replaced by the
    first quoted span (console mode only);
  - a line containing `>` or `|` runs nothing and only prints a notice: there
    is no pipeline and no `grep`;
  - `rm` looks its argument up literally, without resolving it against the
    working directory, and it can remove the root entry;
  - `cd` accepts a file as readily as a directory.

## Model

| member | source | states |
|---|---|---|
| Strings.Split | FakeShell.cs:63 | `String.Split` gives one more piece than there are separators, and no piece holds a separator |
| Strings.JoinSplit | FakeShell.cs:63 | joining the pieces of a split back with the separator gives the original line: splitting loses nothing |
| Strings.CountZero | FakeShell.cs:46-53 | a line has no separator exactly when splitting it gives a single piece |
| Strings.LastIndexOf | FakeShell.cs:315 | the result is -1 exactly when the character is absent; otherwise it is a position of that character with none after it |
| Strings.SplitAtFirst | FakeShell.cs:283 | splitting text that has a separator after a separator-free prefix gives that prefix followed by the pieces of the rest |
| Strings.SplitNone | FakeShell.cs:63 | text without the separator splits into itself alone |
| Strings.Lower | FakeShell.cs:78 | each character is lower-cased in place (an ASCII capital becomes its small letter, anything else is kept), so no ASCII capital is left |
| Strings.LowerChar | FakeShell.cs:78 | a capital `A`-`Z` becomes the small letter 32 code points on; every other character is kept |
| Strings.LowerIdempotent | FakeShell.cs:78 | lower-casing an already lower-cased word changes nothing |
| Paths.EvaluatePath | FakeShell.cs:375-383 | the result is empty exactly for the empty path; an absolute path is kept; any other path becomes the working directory followed by the path |
| Paths.EvaluatePathEndsWithPath | FakeShell.cs:375-383 | the path as typed is always the tail of the resolved path |
| Paths.EvaluatePathIdempotent | FakeShell.cs:375-383 | under an absolute working directory, resolving a resolved path again changes nothing |
| Paths.DropTrailingSlash | FakeShell.cs:311-313 | the result is a prefix of the path, one character shorter exactly when the path ends in `/` |
| Paths.OneDirectoryUp | FakeShell.cs:344-357 | the parent of a non-empty path is non-empty |
| Paths.OneDirectoryUpSpec | FakeShell.cs:344-357 | `"/"`, `""` and `" "` are the only fixed points; a path with fewer than two `/` goes to `"/"`; any other path goes to the prefix ending at the `/` before its last segment |
| Paths.UpOfChild | FakeShell.cs:344-357 | the parent of a directory path extended by one `/`-free segment and a `/` is that directory path again |
| Paths.FileNameFromPath | FakeShell.cs:307-321 | the name taken from a path is never longer than the path (its exact shape is `FileNameFromPathSpec`) |
| Paths.FileNameFromPathSpec | FakeShell.cs:307-321 | the root names itself; any other path gives a `/`-free tail of the path (trailing `/` dropped), preceded by a `/` when shorter than the path |
| Paths.ParentJoinsName | FakeShell.cs:187-190 | for an absolute path other than the root, parent followed by name gives the path without its trailing `/`, and the parent is absolute and ends in `/` |
| Paths.FullFilePath | FakeShell.cs:300-305 | every entry with a parent has a full path ending in `/` |
| Paths.FileName | FakeShell.cs:323-328 | an entry is shown as its name plus `/` exactly when it is a directory, and as exactly its name otherwise |
| Paths.QuotesParse | FakeShell.cs:282-288 | a line with fewer than two `"` gives the empty string, and the result never holds a `"` |
| Paths.QuotesParseBetween | FakeShell.cs:282-288 | when the first two `"` are at `i` and `j`, the result is exactly the text strictly between them |
| Paths.AsDir | FakeShell.cs:331-334 | the directory form of a path ends in `/` |
| Paths.AsDirTrimmed | FakeShell.cs:331-334 | the directory form of a path is the path without its trailing `/`, followed by one `/` |
| Paths.Matches | FakeShell.cs:337 | a lookup that requires a directory accepts only full paths ending in `/`; every entry with a parent has one, so the data is never consulted |
| Paths.MatchesSpec | FakeShell.cs:331-337 | a match names the entry's full path up to one trailing `/`, and requiring a directory only narrows the matches |
| Paths.FirstTrue | FakeShell.cs:335-341 | the result is the first position at or after the start that holds true, or -1 when none does |
| Paths.Lookup | FakeShell.cs:330-342 | the result is -1 exactly when no entry matches; otherwise it is a matching entry with no match before it |
| Paths.LookupAppend | FakeShell.cs:203 | appending an entry never changes which earlier entry a path finds; the new entry is found only when nothing before it matches |
| Paths.NewEntryMatches | FakeShell.cs:187-203 | the entry `mkdir` or `touch` builds from an absolute path other than the root is found again by that path, also when a directory is required |
| Paths.ChildrenOf | FakeShell.cs:290-298 | the result holds exactly the entries whose parent is the directory, and is no longer than the list |
| Paths.ChildrenOfConcat | FakeShell.cs:290-298 | filtering distributes over concatenation, so children keep their relative order |
| Commands.Boot | FakeShell.cs:29-43 | the shell starts at `/` with the four seed entries, running, in console mode, with the login banner printed |
| Commands.Emit | FakeShell.cs:269-276 | output lines go to the terminal in mode 1, to `stdout` in mode 2 and nowhere otherwise; nothing else changes |
| Commands.EmitTwice | FakeShell.cs:269-276 | printing lines in two calls is the same as printing them all in one |
| Commands.RunClear | FakeShell.cs:119-121 | the 57 newlines are printed as one line, in the current output mode; nothing else changes |
| Commands.RunPwd | FakeShell.cs:122-124 | the working directory is printed; nothing else changes |
| Commands.RunEcho | FakeShell.cs:239-247 | the first argument is printed, or an empty line without one; later words are ignored and nothing else changes |
| Commands.RunExit | FakeShell.cs:249-251 | the session stops running and nothing else changes |
| Commands.Tabbed | FakeShell.cs:140-141 | the tabbed text of a group is empty exactly when the group is |
| Commands.TabbedConcat | FakeShell.cs:140-141 | the tabbed text of two groups is their texts one after the other |
| Commands.Rows | FakeShell.cs:138-151 | no names give no lines, and every line printed holds at least one name |
| Commands.RowsCount | FakeShell.cs:138-151 | `n` names make ceil(n / 3) lines |
| Commands.RowsCover | FakeShell.cs:138-151 | the lines read in order give every name followed by a tab: nothing lost, repeated or reordered |
| Commands.RowsConcat | FakeShell.cs:138-151 | the lines of a multiple of three names followed by more names are the lines of each part in turn |
| Commands.ListingShowsChildren | FakeShell.cs:137-151 | the listing of a directory has ceil(n / 3) lines for its n children and shows each child's name, in list order |
| Commands.RunLs | FakeShell.cs:126-152 | crashes exactly on an empty argument; lists the working directory or the resolved entry, or prints one error line; only output changes |
| Commands.RunCd | FakeShell.cs:154-170 | crashes exactly on no arguments or an empty argument; a bare `cd` and `./` change nothing; `..` and `../` move to `OneDirectoryUp` of the working directory; any other argument moves to the full path of the first entry it resolves to, a file included, or prints one error line |
| Commands.RunRm | FakeShell.cs:172-185 | crashes exactly on an empty argument; a missing operand and an unknown path print one error line; otherwise the first matching entry is cut out of the list and nothing is printed |
| Commands.RmIgnoresWorkingDirectory | FakeShell.cs:177 | the entries left by `rm` do not depend on the working directory |
| Commands.RmRemovesOne | FakeShell.cs:184 | `rm` removes the first matching entry only, as a multiset; the others keep their order, and a removed directory's contents stay |
| Commands.RunMkdir | FakeShell.cs:187-204 | crashes exactly without a non-empty argument; appends the directory entry exactly when the parent resolves and the path is not a directory yet, otherwise prints the matching error |
| Commands.RunTouch | FakeShell.cs:206-219 | crashes exactly on no arguments or an empty argument; a bare `touch` changes nothing; never prints and never alters existing entries; the list grows by one exactly when the resolved path finds no entry, and the new entry is the empty file `{OneDirectoryUp(path), FileNameFromPath(path), ""}` |
| Commands.RunCat | FakeShell.cs:221-237 | crashes exactly on no arguments or an empty argument; a bare `cat` changes nothing; prints a file's data, "Is a directory" for a directory, or an error line; only output changes |
| Commands.RecognizeExactly | FakeShell.cs:78-108 | a word selects a built-in exactly when, lower-cased, it equals that built-in's name |
| Commands.NoGrep | FakeShell.cs:78-112 | `grep` is not a command |
| Commands.Recognize | FakeShell.cs:78-108 | a recognised built-in is the one whose name is the lower-cased word; an unrecognised word lower-cases to no built-in's name |
| Commands.RecognizeIgnoresCase | FakeShell.cs:78 | a word and its lower-cased form select the same built-in |
| Commands.DispatchMixedCase | FakeShell.cs:78-101 | `MkDir` runs `mkdir` with the same arguments |
| Commands.Dispatch | FakeShell.cs:78-111 | each lower-cased built-in name runs its own command with the words as arguments; an unrecognised first word prints "<word>: command not found" and changes nothing else |
| Commands.Words | FakeShell.cs:63-66 | the words are the pieces of the line between spaces, one per piece; only the second is replaced, by the quoted span, and only in console mode; a span with no second word gives no words |
| Commands.WordsQuoted | FakeShell.cs:63-66 | when the first two `"` enclose a non-empty span, the second word becomes exactly that span and the pieces it covered stay as later words |
| Commands.Execute | FakeShell.cs:62-76 | a quoted span with no second word crashes with the state unchanged; otherwise, in pipe mode with a non-empty buffer, the buffer is emptied and its lines follow the words; an empty first word then does nothing, any other runs `Dispatch` on the words |
| Commands.HandleInput | FakeShell.cs:45-60 | a line without `>` or a pipe character is executed; a line with one only prints the notice and leaves console mode set |
| Commands.UnknownCommandReported | FakeShell.cs:45-113 | in console mode, a line without `>` or a pipe character whose first word is no built-in prints "<word>: command not found", the word as typed, also when the line holds a quoted span (unless that span has no second word to replace) |
| Commands.CdUpWords | FakeShell.cs:45-66 | `cd ..` holds no operator and splits into the two words `cd` and `..` |
| Commands.HandleInputLs | FakeShell.cs:45-152 | typing `ls` in console mode prints the listing of the working directory and changes nothing else |
| Commands.HandleInputCdUp | FakeShell.cs:45-170 | typing `cd ..` in console mode moves to `OneDirectoryUp` of the working directory and changes nothing else |
| Commands.BootValid | FakeShell.cs:29-43 | the initial state is valid: absolute working directory ending in `/`, every entry well placed |
| Commands.CdKeepsValid | FakeShell.cs:154-170 | `cd` keeps the session valid |
| Commands.RmKeepsValid | FakeShell.cs:172-185 | `rm` keeps the session valid |
| Commands.MkdirKeepsValid | FakeShell.cs:187-204 | `mkdir` keeps the session valid |
| Commands.TouchKeepsValid | FakeShell.cs:206-219 | `touch` keeps the session valid |
| Commands.DispatchKeepsValid | FakeShell.cs:78-112 | every built-in keeps the session valid |
| Commands.HandleInputKeepsValid | FakeShell.cs:45-76 | handling any input line keeps the session valid |
| Commands.BootUnique | FakeShell.cs:36-41 | no two seed entries share a full path |
| Commands.AppendUnique | FakeShell.cs:203 | appending an entry whose full path is new keeps full paths unique |
| Commands.NewEntryIsNew | FakeShell.cs:187-203 | the entry built for a path that finds no directory has a full path no entry has |
| Commands.MkdirKeepsUnique | FakeShell.cs:187-204 | `mkdir` keeps full paths unique |
| Commands.TouchKeepsUnique | FakeShell.cs:206-219 | `touch` keeps full paths unique for every argument but `/` |
| Commands.RmKeepsUnique | FakeShell.cs:172-185 | `rm` keeps full paths unique |
| Commands.MkdirTwice | FakeShell.cs:198-201 | repeating a `mkdir` that created a directory reports "File exists" and changes only the output |
| Commands.TouchTwice | FakeShell.cs:215-218 | `touch` is idempotent for every path but `/` |
| Commands.TouchRootRepeats | FakeShell.cs:206-218 | once no entry answers to `/`, each `touch /` appends the same entry `{"/", "/", ""}` again, so two entries then share the full path `///`: the one case where the commands break unique full paths, and the reason `/` is excluded from `TouchTwice` |
| Commands.RmRootFromBoot | FakeShell.cs:172-185 | `rm /` on the seed filesystem removes the root entry and leaves no entry that answers to `/` |
| Commands.SeedHasOneRoot | FakeShell.cs:36-41 | of the seed entries, only the root answers to `/` |
| Commands.TouchThenCat | FakeShell.cs:206-237 | a file that `touch` has just created is found by `cat` under the same argument and reads back as one empty line |
| Commands.CdThenUp | FakeShell.cs:154-170 | `cd` into an entry with a plain name, then `cd ..`, returns to the entry's parent directory |
| Shell.FakeShell.constructor | FakeShell.cs:29-43 | the new shell is in the `Boot` state and valid, with the fixed user and computer names |
| Shell.FakeShell.Output | FakeShell.cs:269-276 | the fields change as `Emit` of the one message says |
| Shell.FakeShell.STDOUT | FakeShell.cs:360-365 | the message is appended to the pipe buffer |
| Shell.FakeShell.FileIndex | FakeShell.cs:330-342 | the loop returns the first matching index, or -1 when no entry matches, which is `Lookup` |
| Shell.FakeShell.FilesInDir | FakeShell.cs:290-298 | the loop collects exactly `ChildrenOf` the directory |
| Shell.FakeShell.CLEAR | FakeShell.cs:119-121 | the 57 newlines are printed and nothing else changes |
| Shell.FakeShell.PWD | FakeShell.cs:122-124 | the working directory is printed and nothing else changes |
| Shell.FakeShell.LS | FakeShell.cs:126-152 | the fields end as `RunLs` says, and `ok` is false exactly when it crashes |
| Shell.FakeShell.PrintRows | FakeShell.cs:137-151 | the listing loop prints exactly the lines `Rows` gives for the names |
| Shell.FakeShell.CD | FakeShell.cs:154-170 | the fields end as `RunCd` says, and `ok` is false exactly when it crashes |
| Shell.FakeShell.RM | FakeShell.cs:172-185 | the fields end as `RunRm` says, and `ok` is false exactly when it crashes |
| Shell.FakeShell.MKDIR | FakeShell.cs:187-204 | the fields end as `RunMkdir` says, and `ok` is false exactly when it crashes |
| Shell.FakeShell.TOUCH | FakeShell.cs:206-219 | the fields end as `RunTouch` says, and `ok` is false exactly when it crashes |
| Shell.FakeShell.CAT | FakeShell.cs:221-237 | the fields end as `RunCat` says, and `ok` is false exactly when it crashes |
| Shell.FakeShell.ECHO | FakeShell.cs:239-247 | the first argument, or an empty line, is printed and nothing else changes |
| Shell.FakeShell.Exit | FakeShell.cs:249-251 | the shell stops running and nothing else changes |
| Shell.FakeShell.ExecuteCommand | FakeShell.cs:62-76 | the fields end as `Execute` says for the line, and `ok` is false exactly when it crashes |
| Shell.FakeShell.RunBuiltin | FakeShell.cs:78-112 | the fields end as `Dispatch` says for the words |
| Shell.FakeShell.HandleInput | FakeShell.cs:45-60 | the fields end as `HandleInput` says, and a valid shell stays valid |

## Left out

- `Main`, `Running` and `PrintPrompt` are left out. They only read the console, loop on it, and print the prompt from `user`, `computer` and the working directory. `user` and `computer` are kept as fields.
- The `stdin` field is left out because no code reads or writes it.
- The branch for zero parsed commands is left out because it cannot be reached: `Split` always returns at least one piece.
- A null input line is left out, together with `Main`. At the end of input `Console.ReadLine()` gives null, and `HandleInput` then throws at its first `Split`. Null `args` never reach a command: `ExecuteCommand` always passes the array that `Split` made.
- Lower: the culture-sensitive `ToLower` is modelled on ASCII capitals only, so the model and the source part ways on other letters. A word whose non-ASCII letters lower-case to a built-in name is a built-in in the source and unknown in the model (`m` + KELVIN SIGN U+212A + `dir` lower-cases to `mkdir`). Under a culture with its own casing rules the source rejects names the model accepts (in Turkish, `EXIT` lower-cases to `exıt`).
- A crash is modelled as an outcome, not as an exception unwinding through `HandleInput` to the caller.
- The `"\n"` that `Output` appends in console mode is not stored: `console` holds one element per `Output` call (a message may itself hold newlines, as the one `clear` prints does).
