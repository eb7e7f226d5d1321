/** Scratch directories and files (relais/dev/scratchfile.py) over an
    in-memory filesystem: a map from paths to file or directory nodes.
    The name `tempfile.mktemp` would return is passed in as `tmpName`. */
module ScratchFile {
  import opened Results
  import Strings

  /** An absolute path as the sequence of its components; `[]` is the
      root, which always exists. */
  type Path = seq<string>

  datatype Node = File | Dir

  /** A name that is one ordinary component: not empty, not `.` or `..`,
      and without `/`. */
  predicate PlainName(name: string)
  {
    name != "" && name != "." && name != ".." && '/' !in name
  }

  /** The text of a location: `/`, then its components joined by `/`. */
  function PathText(p: Path): string
  {
    "/" + Strings.Join("/", p)
  }

  /** `os.path.join(dir, name)` as text: an absolute name as it is, and
      otherwise the directory, a `/` unless the directory is the root, and
      the name. */
  function JoinText(dir: Path, name: string): string
  {
    if |name| > 0 && name[0] == '/' then name
    else if dir == [] then "/" + name
    else PathText(dir) + "/" + name
  }

  /** The error `make_scratch_file` raises when the joined path exists. */
  function ExistsError(dir: Path, name: string): Error
  {
    AssertionError("path '" + JoinText(dir, name) + "' already exists")
  }

  /** The joined text of a plain name is the text of the joined path. */
  lemma PlainJoinText(dir: Path, name: string)
    requires PlainName(name)
    ensures JoinText(dir, name) == PathText(JoinPath(dir, name))
  {
    PlainJoin(map[], dir, name);
    if dir != [] {
      Strings.JoinSnoc("/", dir, name);
    }
  }

  /** `os.path.exists(p)`: the root or an entry of the tree. */
  predicate ExistsAt(nodes: map<Path, Node>, p: Path)
  {
    p == [] || p in nodes
  }

  /** `os.path.join(dir, name)`: a name starting with `/` replaces the
      directory; otherwise the name's `/`-separated pieces follow the
      directory's components, kept as written (`""`, `.` and `..`
      included). */
  function JoinPath(dir: Path, name: string): Path
  {
    (if |name| > 0 && name[0] == '/' then [] else dir) + Strings.Split(name, '/')
  }

  /** `p` is the root or an existing directory. */
  predicate IsDirAt(nodes: map<Path, Node>, p: Path)
  {
    p == [] || (p in nodes && nodes[p] == Dir)
  }

  /** Looking up the pieces `comps` from `cur` as the kernel does: each
      piece needs a directory to be looked up in; `""` and `.` stay where
      they are, `..` goes up (and stays at the root), and any other piece
      goes down. `None` when some piece has no directory to be looked up
      in. */
  function Walk(nodes: map<Path, Node>, cur: Path, comps: seq<string>): Option<Path>
    decreases |comps|
  {
    if comps == [] then Some(cur)
    else if !IsDirAt(nodes, cur) then None
    else
      var c := comps[0];
      var next := if c == "" || c == "." then cur
                  else if c == ".." then (if cur == [] then [] else cur[..|cur| - 1])
                  else cur + [c];
      Walk(nodes, next, comps[1..])
  }

  /** `os.path.exists(os.path.join(dir, name))`. */
  predicate PathExists(nodes: map<Path, Node>, dir: Path, name: string)
  {
    var w := Walk(nodes, if |name| > 0 && name[0] == '/' then [] else dir, Strings.Split(name, '/'));
    w.Some? && ExistsAt(nodes, w.value)
  }

  /** For a plain name the join is one more component, and it exists
      exactly when the directory does and holds an entry of that name. */
  lemma PlainJoin(nodes: map<Path, Node>, dir: Path, name: string)
    requires PlainName(name)
    ensures JoinPath(dir, name) == dir + [name]
    ensures PathExists(nodes, dir, name) <==> IsDirAt(nodes, dir) && dir + [name] in nodes
  {
    Strings.SplitNoSeparator(name, '/');
    assert name[0] != '/';
    assert Walk(nodes, dir + [name], []) == Some(dir + [name]);
  }

  /** The names that are not plain components: inside an existing
      directory, `""` names that directory (`dir/`), `.` names it too, and
      `..` names its parent, so all three exist. */
  lemma SpecialNamesExist(nodes: map<Path, Node>, dir: Path)
    requires WellFormed(nodes) && IsDirAt(nodes, dir)
    ensures PathExists(nodes, dir, "")
    ensures PathExists(nodes, dir, ".")
    ensures PathExists(nodes, dir, "..")
  {
    assert Strings.Split("", '/') == [""];
    assert Walk(nodes, dir, [""]) == Walk(nodes, dir, []);
    SplitSingle(".");
    assert Walk(nodes, dir, ["."]) == Walk(nodes, dir, []);
    SplitSingle("..");
    var up := if dir == [] then [] else dir[..|dir| - 1];
    assert Walk(nodes, dir, [".."]) == Walk(nodes, up, []);
    if |dir| > 1 {
      assert up == Parent(dir);
    }
  }

  /** A name without `/` is one piece. */
  lemma SplitSingle(name: string)
    requires '/' !in name
    ensures Strings.Split(name, '/') == [name]
  {
    Strings.SplitNoSeparator(name, '/');
  }

  /** The directory a path is in. */
  function Parent(p: Path): Path
    requires |p| > 1
  {
    p[..|p| - 1]
  }

  /** `p` is `root` or lies somewhere below it. */
  predicate AtOrBelow(root: Path, p: Path)
  {
    |root| <= |p| && p[..|root|] == root
  }

  /** `p` lies strictly below `dir`. */
  predicate Below(dir: Path, p: Path)
  {
    |dir| < |p| && p[..|dir|] == dir
  }

  /** A filesystem tree: no empty path, and every entry that is not at the
      top level sits in a directory that exists. */
  ghost predicate WellFormed(nodes: map<Path, Node>)
  {
    forall p :: p in nodes ==>
      p != [] && (|p| > 1 ==> Parent(p) in nodes && nodes[Parent(p)] == Dir)
  }

  /** What `os.listdir(dir)` lists: the entries directly inside `dir`. */
  function Entries(nodes: map<Path, Node>, dir: Path): set<Path>
  {
    set p | p in nodes && |p| == |dir| + 1 && p[..|dir|] == dir
  }

  /** The tree with `root` and everything below it gone. */
  function RemoveTree(nodes: map<Path, Node>, root: Path): map<Path, Node>
  {
    map p | p in nodes && !AtOrBelow(root, p) :: nodes[p]
  }

  /** The tree with everything strictly below `dir` gone. */
  function ClearTree(nodes: map<Path, Node>, dir: Path): map<Path, Node>
  {
    map p | p in nodes && !Below(dir, p) :: nodes[p]
  }

  /** `os.mkdir(p)` succeeds: `p` is a location (every component a plain
      name), does not exist yet, and its parent is an existing directory (a
      top-level path needs none). */
  predicate CanMakeDir(nodes: map<Path, Node>, p: Path)
  {
    && p != [] && p !in nodes
    && (forall i :: 0 <= i < |p| ==> PlainName(p[i]))
    && (|p| > 1 ==> Parent(p) in nodes && nodes[Parent(p)] == Dir)
  }

  /** In a tree, every proper prefix of an entry is an existing directory. */
  lemma {:induction false} AncestorIsDir(nodes: map<Path, Node>, p: Path, k: nat)
    requires WellFormed(nodes) && p in nodes
    requires 1 <= k < |p|
    ensures p[..k] in nodes && nodes[p[..k]] == Dir
    decreases |p| - k
  {
    if k == |p| - 1 {
      assert p[..k] == Parent(p);
    } else {
      AncestorIsDir(nodes, p, k + 1);
      var q := p[..k + 1];
      assert |q| > 1 && Parent(q) == p[..k];
    }
  }

  /** Nothing lies below a file, so removing a file's tree removes only the
      file. */
  lemma RemoveFileTree(nodes: map<Path, Node>, path: Path)
    requires WellFormed(nodes) && path in nodes && nodes[path] == File
    ensures RemoveTree(nodes, path) == nodes - {path}
  {
    forall p | p in nodes
      ensures !Below(path, p)
    {
      if Below(path, p) {
        AncestorIsDir(nodes, p, |path|);
      }
    }
    forall p | p in nodes
      ensures AtOrBelow(path, p) <==> p == path || Below(path, p)
    {
      assert |p| == |path| && p[..|path|] == path ==> p == path;
    }
  }

  /** Removing a whole subtree leaves a tree. */
  lemma RemoveTreeWellFormed(nodes: map<Path, Node>, root: Path)
    requires WellFormed(nodes)
    ensures WellFormed(RemoveTree(nodes, root))
  {
    var r := RemoveTree(nodes, root);
    forall p | p in r && |p| > 1
      ensures Parent(p) in r
    {
      assert |root| <= |Parent(p)| ==> p[..|root|] == Parent(p)[..|root|];
    }
  }

  /** Clearing a directory (the root included) leaves a tree in which the
      directory is still there, still a directory, and has no entries. */
  lemma ClearTreeProperties(nodes: map<Path, Node>, dir: Path)
    requires WellFormed(nodes) && IsDirAt(nodes, dir)
    ensures WellFormed(ClearTree(nodes, dir))
    ensures IsDirAt(ClearTree(nodes, dir), dir)
    ensures Entries(ClearTree(nodes, dir), dir) == {}
  {
    var r := ClearTree(nodes, dir);
    forall p | p in r && |p| > 1
      ensures Parent(p) in r
    {
      assert |dir| < |Parent(p)| ==> p[..|dir|] == Parent(p)[..|dir|];
    }
  }

  /** Once a directory that did not exist is made, no plain name inside
      it exists yet. */
  lemma NothingInNewDir(nodes: map<Path, Node>, dir: Path, name: string)
    requires WellFormed(nodes) && dir != [] && dir !in nodes && PlainName(name)
    ensures !PathExists(nodes[dir := Dir], dir, name)
  {
    PlainJoin(nodes[dir := Dir], dir, name);
    assert Parent(dir + [name]) == dir;
  }

  /** A directory just made has no entries. */
  lemma NewDirIsEmpty(nodes: map<Path, Node>, dir: Path)
    requires WellFormed(nodes) && dir != [] && dir !in nodes
    ensures Entries(nodes[dir := Dir], dir) == {}
  {
    forall p | p in nodes
      ensures !(|p| == |dir| + 1 && p[..|dir|] == dir)
    {
      assert |p| == |dir| + 1 && p[..|dir|] == dir ==> Parent(p) == dir;
    }
  }

  /** The tree with the entries `done` of `dir`, and everything below
      them, gone. */
  ghost function Cleared(nodes: map<Path, Node>, dir: Path, done: set<Path>): map<Path, Node>
  {
    map p | p in nodes && !(Below(dir, p) && p[..|dir| + 1] in done) :: nodes[p]
  }

  /** Removing one more entry of `dir` from a partly cleared tree clears
      that entry too; the entry is still there to be removed. */
  lemma ClearedStep(nodes: map<Path, Node>, dir: Path, done: set<Path>, item: Path)
    requires item in Entries(nodes, dir) && item !in done
    ensures item in Cleared(nodes, dir, done)
    ensures RemoveTree(Cleared(nodes, dir, done), item) == Cleared(nodes, dir, done + {item})
  {
    assert item[..|dir| + 1] == item;
    var before := Cleared(nodes, dir, done);
    forall p | p in before
      ensures AtOrBelow(item, p) <==> Below(dir, p) && p[..|dir| + 1] == item
    {
      if AtOrBelow(item, p) {
        assert p[..|dir|] == item[..|dir|];
      }
      if Below(dir, p) && p[..|dir| + 1] == item {
        assert p[..|item|] == item;
      }
    }
  }

  /** Once every entry of a directory is removed, the directory is
      cleared. */
  lemma ClearedAll(nodes: map<Path, Node>, dir: Path)
    requires WellFormed(nodes)
    ensures Cleared(nodes, dir, Entries(nodes, dir)) == ClearTree(nodes, dir)
  {
    forall p | p in nodes && Below(dir, p)
      ensures p[..|dir| + 1] in Entries(nodes, dir)
    {
      if |p| == |dir| + 1 {
        assert p[..|dir| + 1] == p;
      } else {
        AncestorIsDir(nodes, p, |dir| + 1);
        assert p[..|dir| + 1][..|dir|] == dir;
      }
    }
  }

  /** The check of `make_scratch_file` once the directory is known: the
      joined path, unless something exists there. */
  function CheckedJoin(nodes: map<Path, Node>, dir: Path, name: string): Result<Path>
  {
    if PathExists(nodes, dir, name) then Err(ExistsError(dir, name)) else Ok(JoinPath(dir, name))
  }

  /** No joined path of `names` exists. */
  ghost predicate NoneExist(nodes: map<Path, Node>, dir: Path, names: seq<string>)
  {
    forall k :: 0 <= k < |names| ==> !PathExists(nodes, dir, names[k])
  }

  /** `e` is the error for the first of `names` whose joined path exists. */
  ghost predicate FirstExisting(nodes: map<Path, Node>, dir: Path, names: seq<string>, e: Error)
  {
    exists k :: 0 <= k < |names| && PathExists(nodes, dir, names[k]) && e == ExistsError(dir, names[k]) &&
      forall j :: 0 <= j < k ==> !PathExists(nodes, dir, names[j])
  }

  /** The machine's filesystem, changed in place by the operations below. */
  class FileSystem {
    var nodes: map<Path, Node>

    ghost predicate Valid()
      reads this
    {
      WellFormed(nodes)
    }

    constructor (initial: map<Path, Node>)
      requires WellFormed(initial)
      ensures Valid() && nodes == initial
    {
      nodes := initial;
    }

    /** `os.mkdir(p)`: creates an empty directory, or raises `OSError`
        when `p` exists or has no directory to live in. */
    method MakeDir(p: Path) returns (r: Outcome)
      requires Valid()
      modifies this
      ensures Valid()
      ensures r.Pass? <==> CanMakeDir(old(nodes), p)
      ensures r.Pass? ==> nodes == old(nodes)[p := Dir]
      ensures r.Fail? ==> nodes == old(nodes) && r.error.OSError?
    {
      if !CanMakeDir(nodes, p) {
        return Fail(OSError("cannot create directory"));
      }
      nodes := nodes[p := Dir];
      r := Pass;
    }

    /** `make_scratch_dir`: creates the directory named by the temporary-name
        source and returns its path, a path that did not exist before and is
        an (empty) directory afterwards. */
    method MakeScratchDir(tmpName: Path) returns (r: Result<Path>)
      requires Valid()
      modifies this
      ensures Valid()
      ensures r.Ok? <==> CanMakeDir(old(nodes), tmpName)
      ensures r.Ok? ==> r.value == tmpName && r.value !in old(nodes)
      ensures r.Ok? ==> nodes == old(nodes)[tmpName := Dir] && Entries(nodes, r.value) == {}
      ensures r.Err? ==> nodes == old(nodes)
    {
      var made := MakeDir(tmpName);
      if made.Fail? {
        return Err(made.error);
      }
      NewDirIsEmpty(old(nodes), tmpName);
      r := Ok(tmpName);
    }

    /** `make_scratch_file`: `os.path.join` of `scratchDir` and `fileName`,
        where `scratchDir` is a new scratch directory when none is given.
        Nothing may exist at that path (else `AssertionError`); nothing is
        created there. A scratch directory made first stays even when the
        check fails. */
    method MakeScratchFile(fileName: string, scratchDir: Option<Path>, tmpName: Path)
      returns (r: Result<Path>)
      requires Valid()
      modifies this
      ensures Valid()
      ensures scratchDir.Some? ==>
        && nodes == old(nodes)
        && (r.Ok? <==> !PathExists(old(nodes), scratchDir.value, fileName))
        && (r.Ok? ==> r.value == JoinPath(scratchDir.value, fileName))
        && (r.Err? ==> r.error == ExistsError(scratchDir.value, fileName))
      ensures scratchDir.None? && CanMakeDir(old(nodes), tmpName) ==>
        && nodes == old(nodes)[tmpName := Dir]
        && (r.Ok? <==> !PathExists(nodes, tmpName, fileName))
        && (r.Ok? ==> r.value == JoinPath(tmpName, fileName))
        && (r.Err? ==> r.error == ExistsError(tmpName, fileName))
      ensures scratchDir.None? && !CanMakeDir(old(nodes), tmpName) ==>
        nodes == old(nodes) && r.Err?
      ensures scratchDir.None? && PlainName(fileName) ==> (r.Ok? <==> CanMakeDir(old(nodes), tmpName))
    {
      var dir: Path;
      if scratchDir.None? {
        var made := MakeScratchDir(tmpName);
        if made.Err? {
          return Err(made.error);
        }
        dir := made.value;
        if PlainName(fileName) {
          NothingInNewDir(old(nodes), dir, fileName);
        }
      } else {
        dir := scratchDir.value;
      }
      r := CheckedJoin(nodes, dir, fileName);
    }

    /** `make_scratch_files`: `make_scratch_file` for each name in turn, all
        in the same directory, which is created first when none is given.
        The first name whose path exists stops it with `AssertionError`. A
        repeated name gives the same path twice. */
    method MakeScratchFiles(fileNames: seq<string>, scratchDir: Option<Path>, tmpName: Path)
      returns (r: Result<seq<Path>>)
      requires Valid()
      modifies this
      ensures Valid()
      ensures scratchDir.Some? ==>
        && nodes == old(nodes)
        && (r.Ok? <==> forall k :: 0 <= k < |fileNames| ==> !PathExists(old(nodes), scratchDir.value, fileNames[k]))
        && (r.Ok? ==> |r.value| == |fileNames| &&
                      forall k :: 0 <= k < |fileNames| ==> r.value[k] == JoinPath(scratchDir.value, fileNames[k]))
        && (r.Err? ==> FirstExisting(old(nodes), scratchDir.value, fileNames, r.error))
      ensures scratchDir.None? && CanMakeDir(old(nodes), tmpName) ==>
        && nodes == old(nodes)[tmpName := Dir]
        && (r.Ok? <==> forall k :: 0 <= k < |fileNames| ==> !PathExists(nodes, tmpName, fileNames[k]))
        && (r.Ok? ==> |r.value| == |fileNames| &&
                      forall k :: 0 <= k < |fileNames| ==> r.value[k] == JoinPath(tmpName, fileNames[k]))
        && (r.Err? ==> FirstExisting(nodes, tmpName, fileNames, r.error))
      ensures scratchDir.None? && !CanMakeDir(old(nodes), tmpName) ==>
        nodes == old(nodes) && r.Err?
      ensures scratchDir.None? && (forall k :: 0 <= k < |fileNames| ==> PlainName(fileNames[k])) ==>
        (r.Ok? <==> CanMakeDir(old(nodes), tmpName))
    {
      var dir: Path;
      if scratchDir.None? {
        var made := MakeScratchDir(tmpName);
        if made.Err? {
          return Err(made.error);
        }
        dir := made.value;
        forall k | 0 <= k < |fileNames| && PlainName(fileNames[k])
          ensures !PathExists(nodes, dir, fileNames[k])
        {
          NothingInNewDir(old(nodes), dir, fileNames[k]);
        }
      } else {
        dir := scratchDir.value;
      }
      r := JoinEach(fileNames, dir);
    }

    /** The loop of `make_scratch_files`: for each name in turn, the call
        `make_scratch_file(name, dir)`, which with a directory given is
        `CheckedJoin` and changes nothing; it stops at the first name whose
        path exists. */
    method JoinEach(fileNames: seq<string>, dir: Path) returns (r: Result<seq<Path>>)
      ensures r.Ok? <==> NoneExist(nodes, dir, fileNames)
      ensures r.Ok? ==> |r.value| == |fileNames| &&
                        forall k :: 0 <= k < |fileNames| ==> r.value[k] == JoinPath(dir, fileNames[k])
      ensures r.Err? ==> FirstExisting(nodes, dir, fileNames, r.error)
    {
      var filePaths: seq<Path> := [];
      var i := 0;
      while i < |fileNames|
        invariant 0 <= i <= |fileNames|
        invariant |filePaths| == i
        invariant forall k :: 0 <= k < i ==> filePaths[k] == JoinPath(dir, fileNames[k])
        invariant NoneExist(nodes, dir, fileNames[..i])
      {
        var path := CheckedJoin(nodes, dir, fileNames[i]);
        if path.Err? {
          assert FirstExisting(nodes, dir, fileNames, path.error) by {
            assert PathExists(nodes, dir, fileNames[i]) && path.error == ExistsError(dir, fileNames[i]);
            assert forall j :: 0 <= j < i ==> fileNames[..i][j] == fileNames[j];
          }
          assert !NoneExist(nodes, dir, fileNames);
          return Err(path.error);
        }
        assert fileNames[..i + 1] == fileNames[..i] + [fileNames[i]];
        filePaths := filePaths + [path.value];
        i := i + 1;
      }
      assert fileNames[..i] == fileNames;
      r := Ok(filePaths);
    }

    /** `recursive_remove`: the path must exist; afterwards that file, or
        that directory and everything below it, is gone and nothing else
        changed. For the root `/`, `shutil.rmtree` empties the whole tree
        and then cannot remove the root itself, raising `OSError`. */
    method RecursiveRemove(path: Path) returns (r: Outcome)
      requires Valid()
      modifies this
      ensures Valid()
      ensures r.Pass? <==> path in old(nodes)
      ensures ExistsAt(old(nodes), path) ==> nodes == RemoveTree(old(nodes), path)
      ensures path == [] ==> nodes == map[] && r.Fail? && r.error.OSError?
      ensures !ExistsAt(old(nodes), path) ==> nodes == old(nodes) && r.Fail? && r.error.AssertionError?
    {
      if path == [] {
        assert forall p :: AtOrBelow(path, p);
        nodes := RemoveTree(nodes, path);
        return Fail(OSError("cannot remove the root directory"));
      }
      if path !in nodes {
        return Fail(AssertionError(""));
      }
      if nodes[path] == File {
        RemoveFileTree(nodes, path);
        nodes := nodes - {path};
      } else {
        RemoveTreeWellFormed(nodes, path);
        nodes := RemoveTree(nodes, path);
      }
      r := Pass;
    }

    /** `recursive_clear`: the path must be an existing directory (the
        root `/` included); each of its entries is removed with
        `RecursiveRemove`, leaving the directory itself in place and
        empty. */
    method RecursiveClear(path: Path) returns (r: Outcome)
      requires Valid()
      modifies this
      ensures Valid()
      ensures r.Pass? <==> IsDirAt(old(nodes), path)
      ensures r.Pass? ==> nodes == ClearTree(old(nodes), path)
      ensures r.Pass? ==> IsDirAt(nodes, path) && Entries(nodes, path) == {}
      ensures r.Fail? ==> nodes == old(nodes) && r.error.AssertionError?
    {
      if !IsDirAt(nodes, path) {
        return Fail(AssertionError(""));
      }
      ghost var start := nodes;
      var contents := Entries(nodes, path);
      var remaining := contents;
      assert nodes == Cleared(start, path, {});
      while remaining != {}
        invariant remaining <= contents
        invariant Valid()
        invariant nodes == Cleared(start, path, contents - remaining)
        decreases remaining
      {
        var item :| item in remaining;
        ClearedStep(start, path, contents - remaining, item);
        var removed := RecursiveRemove(item);
        assert contents - (remaining - {item}) == (contents - remaining) + {item};
        remaining := remaining - {item};
      }
      ClearedAll(start, path);
      ClearTreeProperties(start, path);
      r := Pass;
    }
  }
}
