# relais.dev in Dafny

A Dafny model of the core of `relais.dev`, a collection of Python 2
development utilities. It covers two groups.

The first is the external command-line lifecycle (`ClineApp`) and its
scratch-area helpers (`scratchfile`). `ClineApp`:
- checks its configuration;
- sets up a working directory, or makes a fresh scratch directory;
- assembles the command line;
- records the line, launches it and keeps its exit status and output;
- removes the working directory when asked to.

The second is the deterministic helpers:
- `renamer`: a unique-id counter and the translate/backtranslate dictionaries.
- `const`: a write-once store.
- `enum`: ordinal enumerations.
- `statusmsg`: ordering of status messages.
- `reprobj`: text forms with sorted fields.
- `options`: merging defaults with user values.
- `mountpoint`: an append-only plugin registry.
- `iterutils`: `unique`, `tally` and `iter_adapt`.
- `misc`: `get_dictval`.
- `rcheck`: argument validators.
- `textutils`: character search and end-of-line conversion.
- `fileutils`: extension extraction.
- `io/baseio`: format derivation and handle ownership.
- `io/readers/linereader`: a reader with one line of look-ahead.
- `xml/utils`: in-place pretty-printing indentation of an element tree.

There is one Dafny module per source file, in a file of the same name. Two
shared modules support them:
- `Results` holds the Python exceptions as an `Error` datatype, together with `Result`, `Outcome` and `Option`.
- `Strings` holds joining, splitting, decimal rendering, Python's string `cmp` and ASCII lower-casing.

Code that updates state in place is modelled as classes, whose methods name
what they modify:
- the filesystem;
- `ClineApp`;
- the renamer and the uid counter;
- the constant store;
- the plugin list;
- file handles, `BaseIO` and `LineReader`;
- XML elements.

Each class's methods are proved against specification functions. Pure code
is modelled as functions and lemmas. A Python `assert` or `raise` becomes an
`Err`/`Fail` result carrying the exception, not a precondition.

The outside world becomes parameters:
- `tempfile.mktemp` is a temporary path given to the call.
- `which` is a function from executable to its output.
- The process launch is a function from command line and working directory to an exit status and captured streams, or an error.
- A file's contents are a function from path to text, or an error.
- The platform's `os.linesep` is a parameter.

Points of the code's behaviour that the model keeps as they are:
- A failed configuration or requirement check raises `AssertionError`; there is no dedicated requirement error.
- With `check_requirements` set, `_build_cmdline` as written always raises `AttributeError` (see Findings). `ClineApp.BuildCmdlineAsWritten` models that; `CallCmdline` uses the corrected build, in which the line is built when the requirements hold.
- The working directory is passed to the launch as its current directory; no `cd` prefix is added to the line.
- Each argument token is kept verbatim; a token with spaces is not split. `' '.join(clargs)` raises `TypeError` for a token that is not a string, a nested sequence included.
- A path setting of `''` is false like `None` and is modelled as `None`; every other path, the root `/` included, is true. The root is a working directory like any other, and it always exists.
- A path is an absolute location: the sequence of its components from the root, each a plain name (not empty, not `.` or `..`, without `/`). `PathText` gives its text, `/` followed by the components joined by `/`.

## Model

| member | source | states |
|---|---|---|
| ClineApp.ClineApp.Create | relais/dev/clineapp.py:116-130 | construction fails with `AssertionError` exactly when `use_workdir` is off and a workdir (the root `/` included) or removal is requested; otherwise every run field (current workdir, current line, output, error, status) is unset and the configuration is stored |
| ClineApp.ClineApp.constructor | relais/dev/clineapp.py:121-130 | a valid configuration gives an object with no run fields set |
| ClineApp.ClineApp.SetupWorkdir | relais/dev/clineapp.py:258-261 | with `use_workdir` the current workdir becomes the configured one (the root `/` included), or a freshly made scratch directory when none is configured; without it nothing is set; the configured workdir and the run fields never change; failure to make the directory leaves the filesystem unchanged |
| ClineApp.CheckRequirements | relais/dev/clineapp.py:158-164 | passes iff the `which` output does not start with `no ` and, when a workdir is used, the current workdir exists (the root always does); otherwise `AssertionError` with `can't find exepath (<which output>)` or `can't access working dir (<path>)`, or `TypeError` for an unset workdir |
| ClineApp.RootWorkdir | relais/dev/clineapp.py:119-120 | a workdir of `/` is set, so it is refused without `use_workdir`, and it passes the existence check |
| ClineApp.CmdlineIsJoin | relais/dev/clineapp.py:231-241 | the command line is the executable and the arguments joined by single spaces, so it is the executable alone for no arguments |
| ClineApp.CmdlineTokens | relais/dev/clineapp.py:231-241 | when no token contains a space, splitting the line at spaces gives back the executable and the arguments in order |
| ClineApp.BuildCmdlineAsWritten | relais/dev/clineapp.py:227-241 | `_build_cmdline` as written succeeds iff `check_requirements` is off, and then yields the command line |
| ClineApp.AsWrittenBuildRejectsMetRequirements | relais/dev/clineapp.py:149-229 | requirements that hold still make the as-written build fail, with the `AttributeError` for `exe_path` |
| ClineApp.BuildCmdline | relais/dev/clineapp.py:227-241 | the intended build succeeds iff the check is off or passes, yields the command line, and otherwise carries the check's error |
| ClineApp.BuildCmdlineAgreesUnchecked | relais/dev/clineapp.py:227-241 | without the check the intended and as-written builds agree; with a passing check the intended build gives the same line |
| ClineApp.ClineApp.CallCmdline | relais/dev/clineapp.py:184-210 | the workdir is set up first and is the only filesystem change; the line is built and recorded only after a successful setup; the launch gets that line and the chosen workdir; status, output and error are those of the launch, and are untouched when any step fails |
| ClineApp.ClineApp.CleanupWorkdir | relais/dev/clineapp.py:278-282 | only with `remove_workdir`, `use_workdir` and a current workdir is that directory tree removed, and then the field is cleared iff the removal succeeded; a missing workdir fails with nothing changed; for the root `/` the tree is emptied and the removal fails; otherwise nothing changes, so a second call after success is a no-op |
| ClineApp.ClineApp.Dispose | relais/dev/clineapp.py:133-147 | the destructor's cleanup with its error dropped: when removal applies and the workdir exists, the tree is removed, and the workdir is unset unless it is the root `/`; when it does not apply, or the workdir is already gone, the filesystem and the workdir are unchanged; the current line, output, error and status never change |
| ClineApp.ClineApp.ExtractDiagnostics | relais/dev/clineapp.py:297-298 | always raises `NotImplementedError` |
| ClineApp.ScratchLifecycle | relais/dev/clineapp.py:166-282 | a run in a fresh scratch directory with removal set records the line and status and leaves the filesystem as it was |
| ScratchFile.FileSystem.MakeDir | relais/dev/scratchfile.py:45 | `os.mkdir` succeeds iff the path is a location of plain names, is new, and its parent is a directory, adding one empty directory; otherwise `OSError` and no change |
| ScratchFile.FileSystem.MakeScratchDir | relais/dev/scratchfile.py:44-47 | returns the temporary path, which did not exist and is now an empty directory; nothing else changes |
| ScratchFile.FileSystem.MakeScratchFile | relais/dev/scratchfile.py:74-79 | succeeds iff nothing exists at `os.path.join(dir, name)`, returning that path and creating nothing there, else `AssertionError` with `path '<joined path>' already exists`; without a directory exactly one fresh scratch directory is made first and stays even when the check fails; for a plain name that check never fails in a new directory |
| ScratchFile.FileSystem.MakeScratchFiles | relais/dev/scratchfile.py:99-104 | succeeds iff no name's joined path exists, with one path per name in order, all in one directory, else the `AssertionError` of the first name whose path exists; a repeated name gives the same path twice; without a directory exactly one is made first and stays; for plain names the checks never fail in a new directory |
| ScratchFile.FileSystem.JoinEach | relais/dev/scratchfile.py:101-104 | one joined path per name, in order, iff none of them exists; otherwise the `AssertionError` of the first name whose path exists |
| ScratchFile.FileSystem.RecursiveRemove | relais/dev/scratchfile.py:164-169 | the path must exist, else `AssertionError` with nothing changed; afterwards it and everything below it are gone and nothing else changes; for the root `/` the whole tree is emptied and then `OSError` is raised, as the root cannot be removed |
| ScratchFile.FileSystem.RecursiveClear | relais/dev/scratchfile.py:180-185 | the path must be a directory (the root `/` included), else `AssertionError`; afterwards it still is one, has no entries, and nothing outside it changed |
| ScratchFile.RemoveFileTree | relais/dev/scratchfile.py:164-166 | removing a file removes that file only |
| ScratchFile.RemoveTreeWellFormed | relais/dev/scratchfile.py:164-169 | removing a subtree leaves a well-formed tree |
| ScratchFile.ClearTreeProperties | relais/dev/scratchfile.py:180-185 | clearing a directory, the root included, leaves a well-formed tree in which the directory exists and is empty |
| ScratchFile.NewDirIsEmpty | relais/dev/scratchfile.py:44-47 | a newly made directory has no entries |
| ScratchFile.NothingInNewDir | relais/dev/scratchfile.py:74-79 | once a directory that did not exist is made, no plain name inside it exists |
| ScratchFile.PlainJoin | relais/dev/scratchfile.py:76-78 | joining a plain name adds one component, and the path exists iff the directory exists and has that entry |
| ScratchFile.PlainJoinText | relais/dev/scratchfile.py:76-78 | for a plain name, the path text in the error message is the text of the joined path |
| ScratchFile.SpecialNamesExist | relais/dev/scratchfile.py:76-78 | inside an existing directory the names `""`, `.` and `..` join to paths that exist, so `make_scratch_file` rejects them |
| Renamer.Scan | relais/dev/renamer.py:73 | parsing a format string once its one argument is used leaves literal text only |
| Renamer.ScanEscaped | relais/dev/renamer.py:73 | escaped text parses back to itself literally |
| Renamer.EscapePlain | relais/dev/renamer.py:73 | text without `%` is its own escaped form |
| Renamer.FormatEscaped | relais/dev/renamer.py:73 | formatting `a%sb` (with `a` and `b` escaped) with an argument gives `a + arg + b` |
| Renamer.FormatInjective | relais/dev/renamer.py:180-182 | whether formatting succeeds does not depend on the argument, and different arguments give different results |
| Renamer.NumberedNamesDistinct | relais/dev/renamer.py:180-182 | a format filled with two different numbers gives two different names |
| Renamer.UidCounter.GetSimpleUid | relais/dev/renamer.py:71-73 | increments the module counter by exactly one and returns the format filled with the new count |
| Renamer.DefaultFormat | relais/dev/renamer.py:45 | the default format `uid_%s` gives `uid_` followed by the number |
| Renamer.FooBarFormat | relais/dev/renamer.py:67-68 | `foo%sbar` gives the number between `foo` and `bar` |
| Renamer.SimpleUidSession | relais/dev/renamer.py:63-68 | the documented session yields `uid_1`, `uid_2`, `foo3bar` |
| Renamer.Renamer.constructor | relais/dev/renamer.py:109-178 | both dictionaries start empty, and the counter starts at 0 |
| Renamer.Renamer.Rename | relais/dev/renamer.py:140-182 | the base class raises `NotImplementedError`; the numbering scheme increments its counter and formats the new number; the dictionaries are untouched |
| Renamer.Renamer.Translate | relais/dev/renamer.py:121-132 | a new name never issued before is recorded new→original and original→new; a repeated name raises `AssertionError`; on any error the dictionaries are unchanged |
| Renamer.Renamer.Backtranslate | relais/dev/renamer.py:134-138 | returns the original of an issued name, and `KeyError` for any other |
| Renamer.Renamer.NextNameIsFresh | relais/dev/renamer.py:128-182 | the next numbered name has never been issued, so the uniqueness assertion cannot fail |
| Renamer.TranslateAll | relais/dev/renamer.py:121-138 | translating a list gives pairwise distinct new names, each backtranslating to its original, even when an original repeats |
| Const.ConstStore.SetAttr | relais/dev/const.py:36-39 | a new name is stored; a bound name raises `ConstError` and keeps its value; other bindings never change |
| Const.ConstStore.DelAttr | relais/dev/const.py:41-45 | always raises: `ConstError` iff the name is bound, `KeyError` iff it is not |
| Const.ConstStore.GetAttr | relais/dev/const.py:36-39 | a name bound through `__setattr__` reads back its stored value; any other name is an `AttributeError` |
| Const.RunAll | relais/dev/const.py:36-45 | running statements one by one (errors caught) gives the bindings of `AfterAll`; a statement passes iff it binds a name not yet bound; earlier bindings survive |
| Const.BoundStaysBound | relais/dev/const.py:36-45 | once bound, a name keeps its value through any later statements |
| Const.FirstBindingWins | relais/dev/const.py:36-39 | a name holds the value of the first statement that binds it |
| Const.AfterAllStep | relais/dev/const.py:36-45 | one more statement extends the bindings by one step |
| Enum.EnumClass.constructor | relais/dev/enum.py:86-94 | the `i`-th constant has ordinal `i` and belongs to this enumeration |
| Enum.EnumClass.Len | relais/dev/enum.py:47-48 | the length is the number of names |
| Enum.EnumClass.Iter | relais/dev/enum.py:44-45 | iteration yields one value per name, with ordinals 0, 1, … in order |
| Enum.EnumClass.GetItem | relais/dev/enum.py:50-51 | tuple indexing: succeeds iff `-n <= i < n`, negative indices count from the end, and `IndexError` otherwise |
| Enum.EnumClass.LastIndexOf | relais/dev/enum.py:89-91 | the last position of a name among the first `upTo` names, or -1 when it is not there |
| Enum.EnumClass.Attr | relais/dev/enum.py:89-91 | a name of the enumeration gives a value of this enumeration positioned at that name |
| Enum.EnumClass.Invert | relais/dev/enum.py:77-78 | `~v` has ordinal `(n - 1) - v` |
| Enum.EnumClass.InvertInvolutive | relais/dev/enum.py:77-78 | `~~v == v` |
| Enum.EnumClass.InvertReversesOrder | relais/dev/enum.py:71-78 | `~` reverses comparisons |
| Enum.EnumClass.AttrOfName | relais/dev/enum.py:83-91 | with distinct names, each name gives the constant at its position, whose repr is the name |
| Enum.EnumClass.GetItemMatchesIter | relais/dev/enum.py:44-51 | indexing agrees with iteration, and index -1 is the last value |
| Enum.Cmp | relais/dev/enum.py:71-75 | values of different enumerations raise `AssertionError`; otherwise the result orders the ordinals and is 0 iff the values are equal |
| Enum.HashConsistent | relais/dev/enum.py:68-75 | values that compare equal hash equally |
| Enum.Nonzero | relais/dev/enum.py:80-81 | a value is false iff its ordinal is 0 |
| Enum.Repr | relais/dev/enum.py:83-84 | the repr of a value is its name |
| Enum.CmpInt | relais/dev/enum.py:75 | Python's `cmp` on integers: -1, 0, 1 for less, equal, greater |
| StatusMsg.Cmp | relais/dev/statusmsg.py:57-64 | messages order by type ordinal, then by text; 0 iff type and text are equal; different type enumerations fail |
| StatusMsg.CmpAntisymmetric | relais/dev/statusmsg.py:62 | swapping the operands negates the comparison |
| StatusMsg.CmpTransitive | relais/dev/statusmsg.py:62 | the order is transitive |
| StatusMsg.SortedGroupsByType | relais/dev/statusmsg.py:28-64 | in a sorted list all info messages come before warnings, and warnings before errors |
| StatusMsg.StatusMsgModule.Info | relais/dev/statusmsg.py:67-71 | a message of type ordinal 0 with the given text |
| StatusMsg.StatusMsgModule.Warning | relais/dev/statusmsg.py:74-78 | a message of type ordinal 1 with the given text |
| StatusMsg.StatusMsgModule.Error | relais/dev/statusmsg.py:81-85 | a message of type ordinal 2 with the given text |
| StatusMsg.StatusMsgModule.TypesOrdered | relais/dev/statusmsg.py:28-64 | whatever the texts, info < warning < error |
| StatusMsg.TextFields | relais/dev/statusmsg.py:42-45 | the text of a message lists `msg` before `type`, each as `name: 'value'` |
| StatusMsg.TextShape | relais/dev/statusmsg.py:42-45 | a message shows as `StatusMsg (msg: '…', type: '…')`, its fields in alphabetical order |
| ReprObj.Sort | relais/dev/reprobj.py:52-53 | the sorted fields are in order and a permutation of the declared ones |
| ReprObj.SortedUnique | relais/dev/reprobj.py:52-53 | two sorted lists with the same elements are equal |
| ReprObj.FieldTexts | relais/dev/reprobj.py:52 | one `name: 'value'` per field, in the given order, with `?` for a missing field |
| ReprObj.UnicodeOrderIndependent | relais/dev/reprobj.py:52-54 | the text does not depend on the declaration order of the fields |
| ReprObj.UnicodeShape | relais/dev/reprobj.py:54 | the text is the class name, ` (`, the fields joined by `, `, then `)`; no fields give `ClassName ()` |
| ReprObj.TwoFields | relais/dev/reprobj.py:52-54 | two fields show alphabetically whichever way they are declared |
| ReprObj.Str | relais/dev/reprobj.py:32-41 | `__str__` is the unicode form |
| ReprObj.Repr | relais/dev/reprobj.py:56-62 | `__repr__` is the unicode form |
| Options.Merge | relais/dev/options.py:58-61 | the keys are the union of default and user keys; user values win; other defaults are kept |
| Options.MergeLaws | relais/dev/options.py:58-61 | no user values give the defaults; no defaults give the user values; merging the same user values again changes nothing |
| Options.Options.constructor | relais/dev/options.py:49-62 | the options are the merge, and the class defaults are unchanged |
| Options.Options.Validate | relais/dev/options.py:64-65 | the base validation accepts every option set |
| Mountpoint.PluginClass.constructor | relais/dev/mountpoint.py:48-54 | a class with no inherited list gets a fresh empty one; a derived class shares its base's list; `__init_cls__` is inherited |
| Mountpoint.DefineClass | relais/dev/mountpoint.py:48-61 | the mount class gets a fresh empty list and is not registered; a plugin is appended to the shared list, keeping the earlier ones in order; `__init_cls__` is called iff present |
| Mountpoint.PluginClass.GetPlugins | relais/dev/mountpoint.py:63-67 | one new, distinct instance per registered class, in registration order |
| Mountpoint.DefineMountAndPlugins | relais/dev/mountpoint.py:48-61 | defining a mount and then plugins registers exactly those plugins, in definition order, and not the mount |
| IterUtils.IterAdapt | relais/dev/iterutils.py:38-39 | `adaptor(item)` for each item, in order, same length |
| IterUtils.Unique | relais/dev/iterutils.py:46-50 | the loop with its `seen` set yields `Dedup` of the input |
| IterUtils.DedupSameValues | relais/dev/iterutils.py:46-50 | the output holds exactly the input's values |
| IterUtils.DedupNoDuplicates | relais/dev/iterutils.py:46-50 | the output has no duplicates |
| IterUtils.DedupSubsequence | relais/dev/iterutils.py:46-50 | the output is a subsequence of the input |
| IterUtils.DedupPrefix | relais/dev/iterutils.py:46-50 | the output for a prefix is a prefix of the output, so first occurrences keep input order |
| IterUtils.DedupOfDistinct | relais/dev/iterutils.py:46-50 | input without duplicates comes back unchanged |
| IterUtils.DedupIdempotent | relais/dev/iterutils.py:46-50 | `unique` of its own output returns it unchanged |
| IterUtils.Tally | relais/dev/iterutils.py:72-77 | the keys are exactly the input's values and each count is the number of occurrences |
| IterUtils.TallyTotal | relais/dev/iterutils.py:72-77 | the counts sum to the input length |
| Misc.GetDictval | relais/dev/misc.py:29-38 | the value of the first key present, in order; the default when none is (so always for no keys) |
| Misc.LaterKeysIrrelevant | relais/dev/misc.py:35-37 | keys after the first present one do not affect the result |
| RCheck.MakeSequence | relais/dev/rcheck.py:35-62 | lists and tuples come back unchanged; anything else, strings included, is wrapped in a one-element list |
| RCheck.MakeSequenceIdempotent | relais/dev/rcheck.py:56-62 | wrapping twice is wrapping once |
| RCheck.MakeSequenceString | relais/dev/rcheck.py:44-62 | a string is one item, not a sequence of characters |
| RCheck.Contains | relais/dev/rcheck.py:97 | `in` holds iff some item is `==` to the value |
| RCheck.PyEqReflexive | relais/dev/rcheck.py:97 | every value equals itself under Python `==` |
| RCheck.AssertValEqual | relais/dev/rcheck.py:77-98 | passes iff the value equals some allowed value; otherwise `AssertionError` with the documented message |
| RCheck.AssertValEqualSingle | relais/dev/rcheck.py:86-97 | a single allowed value is treated as a one-element list, and a value is always allowed against itself |
| RCheck.CheckAllIn | relais/dev/rcheck.py:130-133 | passes iff every element is in the allowed values; otherwise names the first that is not |
| RCheck.AssertValsIn | relais/dev/rcheck.py:125-133 | passes iff every element of the wrapped value is in the wrapped allowed values |
| RCheck.AssertValsInLaws | relais/dev/rcheck.py:125-133 | a single value passes iff it is in the list; a list is always within itself |
| RCheck.AssertType | relais/dev/rcheck.py:136-154 | passes iff the value's type is one of the allowed types; otherwise `AssertionError` naming value, type and allowed types |
| RCheck.TypesOf | relais/dev/rcheck.py:173 | the types of the allowed values, in order |
| RCheck.AssertTypeLike | relais/dev/rcheck.py:157-173 | passes iff the value's type is the type of some allowed value |
| RCheck.AssertInBounds | relais/dev/rcheck.py:176-198 | passes iff `lower <= v <= upper`, inclusive; the lower bound is checked first, each with its message |
| RCheck.Failure | relais/dev/rcheck.py:201-208 | always fails with `shouldn't get here`, followed by `: msg` exactly when `msg` is non-empty |
| RCheckDoctests.AssertValEqualExample | relais/dev/rcheck.py:86-93 | the doctests of `assert_val_equal` |
| RCheckDoctests.AssertTypeLikeExample | relais/dev/rcheck.py:164-169 | the doctests of `assert_type_like` |
| RCheckDoctests.AssertInBoundsExamples | relais/dev/rcheck.py:183-194 | the doctests of `assert_in_bounds` |
| TextUtils.FindNot | relais/dev/textutils.py:138-145 | the smallest index whose character differs from `c`, or -1 if every character equals `c` |
| TextUtils.RFindNot | relais/dev/textutils.py:148-155 | the largest index whose character differs from `c`, or -1 if none does |
| TextUtils.FindNotBeforeRFindNot | relais/dev/textutils.py:138-155 | `find_not` is -1 iff `rfind_not` is; otherwise it is not after it |
| TextUtils.ReplaceCharRemoves | relais/dev/textutils.py:162-164 | replacing a character by another leaves none of it |
| TextUtils.ReplaceCharIdentity | relais/dev/textutils.py:162-164 | replacing a character by itself changes nothing |
| TextUtils.ReplaceCharAbsent | relais/dev/textutils.py:162-164 | replacing a character that does not occur changes nothing |
| TextUtils.CanonicalEolnIsCanon | relais/dev/textutils.py:158-164 | the two `replace` passes equal a single left-to-right conversion of `\r\n` and lone `\r` to `\n` |
| TextUtils.CanonicalEolnProperties | relais/dev/textutils.py:158-164 | the result has no `\r`, strings without `\r` are unchanged, and the conversion is idempotent |
| TextUtils.NativeEolnAsWrittenUnix | relais/dev/textutils.py:171-175 | with `linesep` `\n`, `native_eoln` equals `canonical_eoln` |
| TextUtils.NativeEolnAsWrittenWindows | relais/dev/textutils.py:171-175 | with `linesep` `\r\n`, `a\r\nb` becomes `a\r\n\n\nb`, which no longer has the same lines |
| TextUtils.NativeEolnKeepsLines | relais/dev/textutils.py:167-176 | the corrected conversion keeps the lines under any platform separator, and equals `canonical_eoln` for `\n` |
| FileUtils.Splitext | relais/dev/fileutils.py:42 | the root and extension put together are the path; the extension is empty or a dot followed by no dot and no `/` |
| FileUtils.ExtProperties | relais/dev/fileutils.py:42-46 | the extension has no `.` or `/`; with `lower` it is lower-cased and otherwise the case is kept; the path ends with `.` and the extension |
| FileUtils.NoExtension | relais/dev/fileutils.py:42 | a final component without a dot, or with only leading dots such as `.bashrc`, gives no extension |
| FileUtils.ExtRoundTrip | relais/dev/fileutils.py:42-44 | a name, a dot and a dot-free extension give back that extension |
| FileUtils.DummyJpg | relais/dev/fileutils.py:28-46 | `test/in/dummy.jpg` gives `jpg` |
| BaseIO.GetFormatLaws | relais/dev/io/baseio.py:76-96 | only a missing format with a nameless handle fails (`AttributeError`); a name of `None` gives `None`; with `lower` the result has no capitals; a derived format has no dot |
| BaseIO.GetFormatExamples | relais/dev/io/baseio.py:87-96 | `TXT` gives `txt`, `test/in/dummy.jpg` gives `jpg`, a `StringIO` without format fails |
| BaseIO.BaseIO.Create | relais/dev/io/baseio.py:54-62 | a path is opened (failing as the file system does) and marked as opened here; a handle is used as given and not marked; the format is `get_format` of the given format and the handle's name |
| BaseIO.BaseIO.Dispose | relais/dev/io/baseio.py:65-73 | the handle is closed iff this object opened it |
| BaseIO.Handle.Readline | relais/dev/io/readers/linereader.py:47-48 | `readline`: the next line, with its `\n`, or the empty string at the end |
| BaseIO.LinesConcat | relais/dev/io/readers/linereader.py:47-48 | the lines `readline` returns, put together, are the text |
| BaseIO.LinesShape | relais/dev/io/readers/linereader.py:47-48 | every line but the last ends in `\n`, and no line has `\n` elsewhere |
| LineReader.LineReader.constructor | relais/dev/io/readers/linereader.py:25-31 | after construction the look-ahead holds the first line, or the empty string for an empty source |
| LineReader.LineReader.Create | relais/dev/io/readers/linereader.py:25-31 | the reader has format `txt` and will return exactly the source's lines |
| LineReader.LineReader.Read | relais/dev/io/readers/linereader.py:34-41 | returns the look-ahead and moves it to the next line; at the end it returns the empty string again and again; the handle stays open or closed as it was |
| LineReader.LineReader.AtEnd | relais/dev/io/readers/linereader.py:44-45 | true iff no line is left |
| LineReader.LineReader.ReadAll | relais/dev/io/readers/recordreader.py:56-61 | reading until `at_end` returns exactly the remaining lines, in order, each once; the handle stays open or closed as it was |
| LineReader.ReadFile | relais/dev/io/readers/linereader.py:25-48 | reading a file fails iff opening it does; otherwise it gives the file's lines, which together are its text |
| XmlUtils.Element.Indent | relais/dev/xml/utils.py:16-35 | `indent` in place: the new value of the subtree is `IndentTree` of the old one |
| XmlUtils.Element.IndentContent | relais/dev/xml/utils.py:27-33 | an element with children: a blank text becomes `"\n" + level*ind + ind`, a non-blank one is kept, the tail is untouched, and the children's new values are the indented old ones with the last one closed |
| XmlUtils.Element.IndentKids | relais/dev/xml/utils.py:30-33 | the children's new values are the old ones indented one level deeper, then the last one closed |
| XmlUtils.Element.IndentChild | relais/dev/xml/utils.py:31 | one turn of the loop indents that child's subtree and leaves every sibling's value unchanged |
| XmlUtils.Element.IndentEach | relais/dev/xml/utils.py:30-31 | the loop indents every child one level deeper, in place |
| XmlUtils.Element.CloseLastChild | relais/dev/xml/utils.py:32-33 | the last child's blank tail becomes a new line at the element's level; nothing else changes |
| XmlUtils.Element.constructor | relais/dev/xml/utils.py:16 | an element over separate subtrees is a proper tree |
| XmlUtils.IndentOwnFields | relais/dev/xml/utils.py:26-35 | an element with children and blank text gets text `"\n" + (level+1)*ind`; a non-root blank tail becomes `"\n" + level*ind`; the root's tail is unchanged |
| XmlUtils.IndentChildren | relais/dev/xml/utils.py:30-33 | each child but the last is indented one level deeper; with a whitespace indent, the last child's blank tail becomes `"\n" + level*ind`, overriding its own call's value |
| XmlUtils.IndentPreserves | relais/dev/xml/utils.py:26-35 | tags, attributes and the number and order of children are unchanged; non-blank texts and tails, and the text of a leaf, are never overwritten |
| XmlUtils.TwoChildrenExample | relais/dev/xml/utils.py:16-35 | `<a><b/><c/></a>` with two spaces: `a` gets text `\n  `, `b` tail `\n  `, `c` tail `\n`, and the root's tail stays unset |
| Strings.Cmp | relais/dev/statusmsg.py:62 | Python's string `cmp` is -1, 0 or 1, and 0 exactly for equal strings |
| Strings.CmpTotal | relais/dev/statusmsg.py:62 | any two strings are ordered one way or the other |
| Strings.CmpAntisymmetric | relais/dev/statusmsg.py:62 | Python's string `cmp` is antisymmetric |
| Strings.CmpTransitive | relais/dev/statusmsg.py:62 | Python's string `cmp` is transitive |
| Strings.ParseNatToString | relais/dev/renamer.py:73 | `str` of a count reads back as that count |
| Strings.NatToStringInjective | relais/dev/renamer.py:180-182 | different counts give different decimal texts |
| Strings.LowerProperties | relais/dev/fileutils.py:45-46 | lower-casing keeps the length, leaves no capital, and is idempotent |
| Strings.SplitJoin | relais/dev/clineapp.py:231-233 | splitting space-joined, space-free tokens gives the tokens back |

## Left out

- Process execution: `subprocess.Popen`, `wait`, reading the streams, the `SIGTERM` kill in `__del__`, and the `which` shell call. They are parameters: the exit status and streams are whatever the launch function returns.
- The `isinstance(exepath, basestring)` check: the executable is typed as a string.
- The real filesystem and `tempfile.mktemp`: the filesystem is a map from paths to file/directory nodes. The temporary name is a parameter, and it fails like `os.mkdir` when taken.
- `write_handle_to_tmpfile`, `file_to_string`, `string_to_file`, `hoover_dir`, `string_to_handle`, `io/utils.py`, `singlereader.py`, and the abstract reader and writer bases: other I/O, outside this model.
- BaseIO.BaseIO.Create: the open `mode` is ignored. A file's contents come from a function from path to text or error.
- `LineReader.__init__` calls `basereader`, which that module never imports. The model initialises the `BaseIO` base with format `txt`, as intended.
- `ftpcnxn.py` (network), `moremath.py` and `pilutils.py` (floating point, images), `timeutils.py` and `getCurrTimeStr` (clock): outside this model.
- `unescape` and `ends_with_patt` (regular expressions), and `is_int_str` and `is_float_str` (Python's numeric parsers): outside this model.
- `delete_str_posns` calls the `StringIO` module as a function. `unique_run` uses undefined names. Neither can run, so neither is modelled.
- `debug.py`, `simplelog.py`, `warn_deprecated`, `runtime_warning` and the `MSG` logging in `call_cmdline`: logging and stack introspection, no state the model observes.
- `assert_val_is` (object identity), `assert_file_exists` (filesystem), and equality between ints and floats: outside this model. Python values are ints, bools (`True == 1`), strings, `None`, lists and tuples.
- RCheck.Str, RCheck.Repr: `repr` of strings does not escape quotes or control characters.
- Renamer.Format: only `%s` and `%%` are modelled. Any other conversion, or a wrong number of slots, is a `ValueError`/`TypeError` result rather than Python's exact exception.
- ReprObj.Str: the UTF-8 encoding is not modelled; the text is the unicode form.
- Mountpoint: a plugin with several bases is not modelled.
- XmlUtils.Element.Indent: an element shared by two places in the tree (aliasing) is excluded. The tree is built from separate subtrees in one step, not by appending sub-elements.
- TextUtils.Replace: an empty pattern is excluded by its precondition. `canonical_eoln` and `native_eoln` never pass one.
- IterUtils.IterAdapt, IterUtils.Unique: generators are modelled as the finished sequence. Laziness and infinite inputs are not modelled.
- The thin ElementTree wrappers (`etreewriter.py`, `builder.py`, `etree.py`, `xmlobj.py`), `errors.py`, `common.py` and `setup.py`: no logic of their own.
- ClineApp.ClineApp.CallCmdline: builds the line with the corrected `ClineApp.BuildCmdline`. With `check_requirements` set, the code as written raises `AttributeError` instead (see Findings), which `ClineApp.BuildCmdlineAsWritten` models.
- ScratchFile.FileSystem.MakeScratchFile, ScratchFile.FileSystem.MakeScratchFiles, ScratchFile.FileSystem.RecursiveRemove, ScratchFile.FileSystem.RecursiveClear, ClineApp.ClineApp.SetupWorkdir, ClineApp.CheckRequirements: a given `scratch_dir`, working directory, or path to remove or clear is an absolute, normalised location. Relative paths depend on a current directory that is not modelled. Symbolic links are not modelled, and `..` at the root stays at the root.
- ScratchFile.FileSystem.MakeDir, ScratchFile.FileSystem.MakeScratchDir: a temporary name with an empty, `.` or `..` component, or one holding `/`, is refused with `OSError`. The kernel would resolve such a name first; `tempfile.mktemp` never returns one.
- BaseIO.Handle.Readline: reading a closed handle, where Python raises `ValueError`, is not modelled; the model reads on.
- ClineApp.ClineApp.CallCmdline: arguments are strings. A non-string argument, on which `' '.join` raises `TypeError`, is not modelled.
- StatusMsg.Cmp, Enum.Cmp: both operands have the right type. Comparing a status message with another object calls `ReprObj.__cmp__`, which does not exist, and comparing an enumeration value with a non-enum reads `other.EnumType`; both raise `AttributeError` in Python and are not modelled.
- Const.ConstStore.GetAttr: only bindings made through `__setattr__`. The class attributes (`ConstError`, `__name__` and the methods) also read successfully in Python; the model gives `AttributeError` for them.
- RCheck.AssertInBounds: integer arguments only. Python compares any values with `<`; comparisons of strings, floats or mixed types are not modelled.
- Enum.EnumClass.GetItem: integer indices only. Slicing the constants tuple is not modelled.
- Enum.EnumClass.constructor: names are taken as given. A name that is not a valid identifier makes `__slots__` raise in Python; the model does not reject it.
- XmlUtils.IsSpace: ASCII whitespace only. Unicode whitespace that `unicode.strip()` also removes is not modelled.
- Tests that no longer match the code are not followed: a `find_exe` call, and an expected `cd` prefix on the command line.

## Findings

| source | as written | input that shows it | evidently intended | confidence | as-written member | corrected member |
|---|---|---|---|---|---|---|
| relais/dev/clineapp.py:149-229 | `_build_cmdline` asserts the return value of `assert_requirements`, which returns `None`, and that method reads `self.exe_path`, which is never set | `check_requirements=True`, executable `perl` found by `which`, argument `-h` | the requirement check passes or raises, and the line is built when it passes | high (not executed) | ClineApp.BuildCmdlineAsWritten, ClineApp.AsWrittenBuildRejectsMetRequirements | ClineApp.BuildCmdline, ClineApp.ClineApp.CallCmdline |
| relais/dev/textutils.py:171-175 | after the first `replace` has turned each `\r\n` into `os.linesep`, the second and the third `replace` each convert every `\r` again, including the `\r` of the line ends already converted; each such line end gains another `\n` per pass | `native_eoln("a\r\nb")` with `linesep` `\r\n` gives `a\r\n\n\nb` | each `\n` becomes `os.linesep`, giving `a\r\nb` | high (not executed) | TextUtils.NativeEolnAsWritten, TextUtils.NativeEolnAsWrittenWindows | TextUtils.NativeEoln, TextUtils.NativeEolnKeepsLines |
