/** The external command-line lifecycle (relais/dev/clineapp.py): a
    `ClineApp` is configured once, sets up its working directory, builds
    and records the command line, launches it and keeps its status and
    output, and removes the working directory when told to.

    The operating system is abstracted: `tmpName` is the name
    `tempfile.mktemp` would return, `which` gives the output of the shell's
    `which` for a name, and `launch` gives what running a command line in a
    working directory yields (exit status and captured streams, or the error
    `Popen` raises). */
module ClineApp {
  import opened Results
  import opened Strings
  import opened ScratchFile

  /** What a finished process left behind. */
  datatype ProcessRun = ProcessRun(status: int, stdout: string, stderr: string)

  /** Python truth of a path setting: only `None` is false. A caller's
      `''`, false like `None`, is modelled as `None`; every location, the
      root `/` included, is true. */
  predicate Truthy(p: Option<Path>)
  {
    p.Some?
  }

  /** The constructor's check: without `use_workdir` there may be neither a
      working directory nor a request to remove one. */
  predicate ConfigOk(useWorkdir: bool, workdir: Option<Path>, removeWorkdir: bool)
  {
    useWorkdir || (!removeWorkdir && !Truthy(workdir))
  }

  /** The command line: the executable, then, if there are arguments, a
      space and the arguments joined by single spaces. */
  function Cmdline(exepath: string, args: seq<string>): string
  {
    if args == [] then exepath else exepath + " " + Join(" ", args)
  }

  /** The command line is the executable and the arguments joined by single
      spaces, each argument kept verbatim (spaces inside it included). */
  lemma CmdlineIsJoin(exepath: string, args: seq<string>)
    ensures Cmdline(exepath, args) == Join(" ", [exepath] + args)
  {
    if args != [] {
      assert ([exepath] + args)[1..] == args;
    }
  }

  /** When no token contains a space, splitting the command line at spaces
      gives back the executable and the arguments, in order. */
  lemma CmdlineTokens(exepath: string, args: seq<string>)
    requires ' ' !in exepath
    requires forall i :: 0 <= i < |args| ==> ' ' !in args[i]
    ensures Split(Cmdline(exepath, args), ' ') == [exepath] + args
  {
    CmdlineIsJoin(exepath, args);
    SplitJoin([exepath] + args, ' ');
  }

  /** `assert_requirements` as its documentation describes it: the output
      of `which` for the executable must not start with "no ", and, when a
      working directory is used, that directory must exist. */
  function CheckRequirements(whichOutput: string, useWorkdir: bool, currWorkdir: Option<Path>,
                             nodes: map<Path, Node>): (r: Outcome)
    ensures r.Pass? <==>
      !(|whichOutput| >= 3 && whichOutput[..3] == "no ") &&
      (useWorkdir ==> currWorkdir.Some? && ExistsAt(nodes, currWorkdir.value))
    ensures |whichOutput| >= 3 && whichOutput[..3] == "no " ==>
      r == Fail(AssertionError("can't find exepath (" + whichOutput + ")"))
    ensures !(|whichOutput| >= 3 && whichOutput[..3] == "no ") && useWorkdir && currWorkdir.None? ==>
      r.Fail? && r.error.TypeError?
    ensures !(|whichOutput| >= 3 && whichOutput[..3] == "no ") && useWorkdir && currWorkdir.Some? &&
            !ExistsAt(nodes, currWorkdir.value) ==>
      r == Fail(AssertionError("can't access working dir (" + PathText(currWorkdir.value) + ")"))
  {
    if |whichOutput| >= 3 && whichOutput[..3] == "no " then
      Fail(AssertionError("can't find exepath (" + whichOutput + ")"))
    else if useWorkdir && currWorkdir.None? then
      Fail(TypeError("coercing to Unicode: need string or buffer, NoneType found"))
    else if useWorkdir && !ExistsAt(nodes, currWorkdir.value) then
      Fail(AssertionError("can't access working dir (" + PathText(currWorkdir.value) + ")"))
    else
      Pass
  }

  /** The root `/` is a working directory like any other: being set, it
      needs `use_workdir`, and it always exists. */
  lemma RootWorkdir(whichOutput: string, nodes: map<Path, Node>)
    requires !(|whichOutput| >= 3 && whichOutput[..3] == "no ")
    ensures !ConfigOk(false, Some([]), false)
    ensures CheckRequirements(whichOutput, true, Some([]), nodes) == Pass
  {
  }

  /** `_build_cmdline` as written: with `check_requirements` set it runs
      `assert (self.assert_requirements())`, and `assert_requirements`
      reads the attribute `exe_path`, which no code ever sets (the
      attribute is `exepath`); even with that fixed it returns `None`, which
      the assert rejects. */
  function BuildCmdlineAsWritten(exepath: string, checkRequirements: bool, args: seq<string>): (r: Result<string>)
    ensures r.Ok? <==> !checkRequirements
    ensures r.Ok? ==> r.value == Cmdline(exepath, args)
  {
    if checkRequirements then Err(AttributeError("exe_path")) else Ok(Cmdline(exepath, args))
  }

  /** The requirements can hold and still the as-written build fails: with
      `perl` found by `which` and no working directory in use. */
  lemma AsWrittenBuildRejectsMetRequirements()
    ensures CheckRequirements("/usr/bin/perl", false, None, map[]) == Pass
    ensures BuildCmdlineAsWritten("perl", true, ["-h"]) == Err(AttributeError("exe_path"))
  {
    assert "/usr/bin/perl"[..3] == "/us";
  }

  /** `_build_cmdline` as intended: the requirement check, when enabled,
      either passes or raises; on success the command line is built. */
  function BuildCmdline(exepath: string, checkRequirements: bool, whichOutput: string, useWorkdir: bool,
                        currWorkdir: Option<Path>, nodes: map<Path, Node>, args: seq<string>): (r: Result<string>)
    ensures r.Ok? <==> !checkRequirements || CheckRequirements(whichOutput, useWorkdir, currWorkdir, nodes).Pass?
    ensures r.Ok? ==> r.value == Cmdline(exepath, args)
    ensures r.Err? ==> r.error == CheckRequirements(whichOutput, useWorkdir, currWorkdir, nodes).error
  {
    if checkRequirements then
      var check := CheckRequirements(whichOutput, useWorkdir, currWorkdir, nodes);
      if check.Fail? then Err(check.error) else Ok(Cmdline(exepath, args))
    else
      Ok(Cmdline(exepath, args))
  }

  /** Without a requirement check, the as-written and intended builds
      agree; with one, only the intended build can succeed. */
  lemma BuildCmdlineAgreesUnchecked(exepath: string, whichOutput: string, useWorkdir: bool,
                                    currWorkdir: Option<Path>, nodes: map<Path, Node>, args: seq<string>)
    ensures BuildCmdline(exepath, false, whichOutput, useWorkdir, currWorkdir, nodes, args)
         == BuildCmdlineAsWritten(exepath, false, args)
    ensures CheckRequirements(whichOutput, useWorkdir, currWorkdir, nodes).Pass? ==>
              BuildCmdline(exepath, true, whichOutput, useWorkdir, currWorkdir, nodes, args).Ok? &&
              BuildCmdlineAsWritten(exepath, true, args).Err?
  {
  }

  class ClineApp {
    const exepath: string
    const useWorkdir: bool
    const workdir: Option<Path>
    const removeWorkdir: bool
    const checkRequirements: bool
    /** The working directory and command line actually used. */
    var currWorkdir: Option<Path>
    var currCline: Option<string>
    /** The captured output, error output and exit status of the run. */
    var clineOut: Option<string>
    var clineErr: Option<string>
    var clineStatus: Option<int>

    ghost predicate Valid()
      reads this
    {
      ConfigOk(useWorkdir, workdir, removeWorkdir) && (!useWorkdir ==> currWorkdir.None?)
    }

    /** Nothing has run yet. */
    predicate Unrun()
      reads this
    {
      currWorkdir.None? && currCline.None? && clineOut.None? && clineErr.None? && clineStatus.None?
    }

    /** `setup_workdir` has to create a scratch directory. */
    predicate NeedsScratchDir()
    {
      useWorkdir && !Truthy(workdir)
    }

    /** The working directory `setup_workdir` settles on. */
    function ChosenWorkdir(tmpName: Path): Option<Path>
    {
      if !useWorkdir then None else if Truthy(workdir) then workdir else Some(tmpName)
    }

    /** `setup_workdir` succeeds on this filesystem. */
    predicate SetupSucceeds(nodes: map<Path, Node>, tmpName: Path)
    {
      !NeedsScratchDir() || CanMakeDir(nodes, tmpName)
    }

    /** The filesystem after a successful `setup_workdir`. */
    function NodesAfterSetup(nodes: map<Path, Node>, tmpName: Path): map<Path, Node>
    {
      if NeedsScratchDir() then nodes[tmpName := Dir] else nodes
    }

    /** What `_build_cmdline` yields once the working directory is set up. */
    function BuiltAfterSetup(nodes: map<Path, Node>, tmpName: Path, which: string -> string,
                             args: seq<string>): Result<string>
    {
      BuildCmdline(exepath, checkRequirements, which(exepath), useWorkdir, ChosenWorkdir(tmpName),
                   NodesAfterSetup(nodes, tmpName), args)
    }

    /** `__init__` once its check has passed. */
    constructor (exepath: string, useWorkdir: bool, workdir: Option<Path>, removeWorkdir: bool,
                 checkRequirements: bool)
      requires ConfigOk(useWorkdir, workdir, removeWorkdir)
      ensures Valid() && Unrun()
      ensures this.exepath == exepath && this.useWorkdir == useWorkdir && this.workdir == workdir
      ensures this.removeWorkdir == removeWorkdir && this.checkRequirements == checkRequirements
    {
      this.exepath := exepath;
      this.useWorkdir := useWorkdir;
      this.workdir := workdir;
      this.removeWorkdir := removeWorkdir;
      this.checkRequirements := checkRequirements;
      currWorkdir, currCline := None, None;
      clineErr, clineOut, clineStatus := None, None, None;
    }

    /** `ClineApp(...)`: the configuration check raises `AssertionError`
        without `use_workdir` if a working directory or its removal is asked
        for; otherwise a fresh object with nothing run. */
    static method Create(exepath: string, useWorkdir: bool, workdir: Option<Path>, removeWorkdir: bool,
                         checkRequirements: bool) returns (r: Result<ClineApp>)
      ensures r.Err? <==> !useWorkdir && (removeWorkdir || Truthy(workdir))
      ensures r.Err? ==> r.error.AssertionError?
      ensures r.Ok? ==> fresh(r.value) && r.value.Valid() && r.value.Unrun()
      ensures r.Ok? ==> r.value.exepath == exepath && r.value.useWorkdir == useWorkdir &&
                        r.value.workdir == workdir && r.value.removeWorkdir == removeWorkdir &&
                        r.value.checkRequirements == checkRequirements
    {
      if !ConfigOk(useWorkdir, workdir, removeWorkdir) {
        return Err(AssertionError(""));
      }
      var app := new ClineApp(exepath, useWorkdir, workdir, removeWorkdir, checkRequirements);
      r := Ok(app);
    }

    /** `setup_workdir`: with `use_workdir`, the current working directory
        becomes the configured one or, if none is configured, a new scratch
        directory; the configured `workdir` is never changed. Without
        `use_workdir` nothing happens. */
    method SetupWorkdir(fs: FileSystem, tmpName: Path) returns (r: Outcome)
      requires Valid() && fs.Valid()
      modifies this, fs
      ensures Valid() && fs.Valid()
      ensures r.Pass? <==> SetupSucceeds(old(fs.nodes), tmpName)
      ensures r.Pass? ==> currWorkdir == ChosenWorkdir(tmpName)
      ensures r.Pass? ==> fs.nodes == NodesAfterSetup(old(fs.nodes), tmpName)
      ensures r.Fail? ==> currWorkdir == workdir && fs.nodes == old(fs.nodes)
      ensures currCline == old(currCline) && clineOut == old(clineOut)
      ensures clineErr == old(clineErr) && clineStatus == old(clineStatus)
    {
      r := Pass;
      if useWorkdir {
        currWorkdir := workdir;
        if !Truthy(currWorkdir) {
          var made := fs.MakeScratchDir(tmpName);
          if made.Err? {
            return Fail(made.error);
          }
          currWorkdir := Some(made.value);
        }
      }
    }

    /** `call_cmdline`: set up the working directory, build the command
        line, record it, then launch it in the working directory (if one is
        used) and keep its exit status and captured streams. A failing step
        raises and stops the later ones. */
    method CallCmdline(fs: FileSystem, tmpName: Path, args: seq<string>, which: string -> string,
                       launch: (string, Option<Path>) -> Result<ProcessRun>) returns (r: Outcome)
      requires Valid() && fs.Valid()
      modifies this, fs
      ensures Valid() && fs.Valid()
      // the workdir is set up first, and that is the only filesystem change
      ensures SetupSucceeds(old(fs.nodes), tmpName) ==>
        fs.nodes == NodesAfterSetup(old(fs.nodes), tmpName) && currWorkdir == ChosenWorkdir(tmpName)
      ensures !SetupSucceeds(old(fs.nodes), tmpName) ==>
        r.Fail? && fs.nodes == old(fs.nodes) && currWorkdir == workdir
      // the line is built, and recorded, only once the workdir is set up
      ensures SetupSucceeds(old(fs.nodes), tmpName) && BuiltAfterSetup(old(fs.nodes), tmpName, which, args).Ok? ==>
        currCline == Some(Cmdline(exepath, args))
      ensures !(SetupSucceeds(old(fs.nodes), tmpName) && BuiltAfterSetup(old(fs.nodes), tmpName, which, args).Ok?) ==>
        r.Fail? && currCline == old(currCline)
      // the line launched is the one recorded, in the chosen workdir
      ensures r.Pass? <==>
        && SetupSucceeds(old(fs.nodes), tmpName)
        && BuiltAfterSetup(old(fs.nodes), tmpName, which, args).Ok?
        && launch(Cmdline(exepath, args), ChosenWorkdir(tmpName)).Ok?
      ensures r.Pass? ==>
        && clineStatus == Some(launch(Cmdline(exepath, args), ChosenWorkdir(tmpName)).value.status)
        && clineOut == Some(launch(Cmdline(exepath, args), ChosenWorkdir(tmpName)).value.stdout)
        && clineErr == Some(launch(Cmdline(exepath, args), ChosenWorkdir(tmpName)).value.stderr)
      ensures r.Fail? ==> clineStatus == old(clineStatus) && clineOut == old(clineOut) && clineErr == old(clineErr)
    {
      r := SetupWorkdir(fs, tmpName);
      if r.Fail? {
        return;
      }
      var line := BuildCmdline(exepath, checkRequirements, which(exepath), useWorkdir, currWorkdir, fs.nodes, args);
      if line.Err? {
        return Fail(line.error);
      }
      currCline := Some(line.value);
      var cwd := if useWorkdir then currWorkdir else None;
      var run := launch(line.value, cwd);
      if run.Err? {
        return Fail(run.error);
      }
      clineStatus := Some(run.value.status);
      clineErr := Some(run.value.stderr);
      clineOut := Some(run.value.stdout);
    }

    /** `cleanup_workdir`: only with both `remove_workdir` and `use_workdir`
        set and a current working directory, that directory is removed with
        everything in it and then forgotten; otherwise nothing changes. After
        a successful call a second call changes nothing. */
    method CleanupWorkdir(fs: FileSystem) returns (r: Outcome)
      requires Valid() && fs.Valid()
      modifies this, fs
      ensures Valid() && fs.Valid()
      ensures !(removeWorkdir && useWorkdir && Truthy(old(currWorkdir))) ==>
        r.Pass? && currWorkdir == old(currWorkdir) && fs.nodes == old(fs.nodes)
      ensures removeWorkdir && useWorkdir && Truthy(old(currWorkdir)) ==>
        && (r.Pass? <==> old(currWorkdir).value in old(fs.nodes))
        && (r.Pass? ==> currWorkdir == None)
        && (r.Fail? ==> currWorkdir == old(currWorkdir))
        && (ExistsAt(old(fs.nodes), old(currWorkdir).value) ==>
              fs.nodes == RemoveTree(old(fs.nodes), old(currWorkdir).value))
        && (!ExistsAt(old(fs.nodes), old(currWorkdir).value) ==> fs.nodes == old(fs.nodes))
      ensures r.Pass? ==> !(removeWorkdir && useWorkdir && Truthy(currWorkdir))
      ensures currCline == old(currCline) && clineOut == old(clineOut)
      ensures clineErr == old(clineErr) && clineStatus == old(clineStatus)
    {
      r := Pass;
      if removeWorkdir && useWorkdir {
        if Truthy(currWorkdir) {
          r := fs.RecursiveRemove(currWorkdir.value);
          if r.Fail? {
            return;
          }
          currWorkdir := None;
        }
      }
    }

    /** `__del__` with the process already finished: cleanup runs, and an
        error it raises is dropped, as Python drops exceptions raised in a
        destructor. */
    method Dispose(fs: FileSystem)
      requires Valid() && fs.Valid()
      modifies this, fs
      ensures Valid() && fs.Valid()
      ensures removeWorkdir && useWorkdir && Truthy(old(currWorkdir)) ==>
        && (currWorkdir == None <==> old(currWorkdir).value in old(fs.nodes))
        && (currWorkdir != None ==> currWorkdir == old(currWorkdir))
        && (ExistsAt(old(fs.nodes), old(currWorkdir).value) ==>
              fs.nodes == RemoveTree(old(fs.nodes), old(currWorkdir).value))
        && (!ExistsAt(old(fs.nodes), old(currWorkdir).value) ==> fs.nodes == old(fs.nodes))
      ensures !(removeWorkdir && useWorkdir && Truthy(old(currWorkdir))) ==>
        currWorkdir == old(currWorkdir) && fs.nodes == old(fs.nodes)
      ensures currCline == old(currCline) && clineOut == old(clineOut)
      ensures clineErr == old(clineErr) && clineStatus == old(clineStatus)
    {
      var _ := CleanupWorkdir(fs);
    }

    /** `extract_diagnostics`: left to subclasses; the base always raises. */
    function ExtractDiagnostics(): (r: Result<map<string, string>>)
      ensures r.Err? && r.error.NotImplementedError?
    {
      Err(NotImplementedError("this should be supplied by a derived class"))
    }
  }

  /** The configured use of a scratch directory in a full lifecycle: a
      fresh application with `use_workdir` and `remove_workdir` and no
      configured directory creates a scratch directory on its call and
      removes it again on cleanup, leaving the filesystem as it was. */
  method ScratchLifecycle(fs: FileSystem, tmpName: Path, args: seq<string>, which: string -> string,
                          launch: (string, Option<Path>) -> Result<ProcessRun>) returns (app: ClineApp)
    requires fs.Valid() && CanMakeDir(fs.nodes, tmpName)
    requires launch(Cmdline("perl", args), Some(tmpName)).Ok?
    modifies fs
    ensures fresh(app) && fs.nodes == old(fs.nodes)
    ensures app.currCline == Some(Cmdline("perl", args)) && app.currWorkdir == None
    ensures app.clineStatus == Some(launch(Cmdline("perl", args), Some(tmpName)).value.status)
  {
    app := new ClineApp("perl", true, None, true, false);
    var called := app.CallCmdline(fs, tmpName, args, which, launch);
    var cleaned := app.CleanupWorkdir(fs);
    assert fs.nodes == RemoveTree(old(fs.nodes)[tmpName := Dir], tmpName);
    forall p | p in old(fs.nodes)
      ensures !AtOrBelow(tmpName, p)
    {
      if AtOrBelow(tmpName, p) && p != tmpName {
        AncestorIsDir(old(fs.nodes), p, |tmpName|);
      }
      assert |p| == |tmpName| && p[..|tmpName|] == tmpName ==> p == tmpName;
    }
  }
}
