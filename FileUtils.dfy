/** File-name helpers (relais/dev/fileutils.py): the extension of a path,
    as `os.path.splitext` on a POSIX host finds it. */
module FileUtils {
  import Strings

  /** `p.rfind(c)` below position `n`: the last index holding `c`, or -1. */
  function RFind(p: string, c: char, n: nat): (r: int)
    requires n <= |p|
    ensures -1 <= r < n
    ensures r >= 0 ==> p[r] == c
    ensures forall j :: r < j < n ==> p[j] != c
  {
    if n == 0 then -1
    else if p[n - 1] == c then n - 1
    else RFind(p, c, n - 1)
  }

  /** Some character in `p[lo..hi]` is not a dot. */
  predicate HasNonDot(p: string, lo: int, hi: int)
    requires 0 <= lo <= hi <= |p|
  {
    exists j :: lo <= j < hi && p[j] != '.'
  }

  /** `os.path.splitext` (posixpath): the extension starts at the last dot
      when that dot lies in the final path component and is not one of the
      component's leading dots; otherwise there is no extension. */
  function Splitext(p: string): (r: (string, string))
    ensures r.0 + r.1 == p
    ensures r.1 == [] || (r.1[0] == '.' && '.' !in r.1[1..] && '/' !in r.1)
  {
    var sepIndex := RFind(p, '/', |p|);
    var dotIndex := RFind(p, '.', |p|);
    if dotIndex > sepIndex && HasNonDot(p, sepIndex + 1, dotIndex) then
      assert forall j :: 1 <= j < |p[dotIndex..]| ==> p[dotIndex..][j] == p[dotIndex + j];
      (p[..dotIndex], p[dotIndex..])
    else (p, [])
  }

  /** `ext_from_filepath`: the extension without its dot, lower-cased when
      `lower` is set. */
  function ExtFromFilepath(fpath: string, lower: bool): string
  {
    var ext := Splitext(fpath).1;
    var ext := if |ext| >= 1 && ext[0] == '.' then ext[1..] else ext;
    if lower then Strings.Lower(ext) else ext
  }

  /** Lower-casing never makes a dot or a slash. */
  lemma LowerKeepsOut(s: string, c: char)
    requires c == '.' || c == '/'
    requires c !in s
    ensures c !in Strings.Lower(s)
  {
    forall i | 0 <= i < |s| ensures Strings.Lower(s)[i] != c {
      assert s[i] != c;
    }
  }

  /** The extension holds neither a dot nor a path separator; with `lower`
      it is the lower-cased extension, without it the case is kept and the
      path ends with a dot and the extension. */
  lemma ExtProperties(fpath: string, lower: bool)
    ensures '.' !in ExtFromFilepath(fpath, lower) && '/' !in ExtFromFilepath(fpath, lower)
    ensures ExtFromFilepath(fpath, true) == Strings.Lower(ExtFromFilepath(fpath, false))
    ensures var ext := ExtFromFilepath(fpath, false);
      ext == [] || (|ext| < |fpath| && fpath[|fpath| - |ext| - 1..] == "." + ext)
  {
    var ext := ExtFromFilepath(fpath, false);
    LowerKeepsOut(ext, '.');
    LowerKeepsOut(ext, '/');
    var (root, dotExt) := Splitext(fpath);
    if dotExt != [] {
      assert dotExt == "." + ext;
      assert fpath[|root|..] == dotExt;
    }
  }

  /** A final component with no dot, or whose dots are all leading (such
      as `.bashrc`), has no extension. */
  lemma NoExtension(fpath: string, lower: bool)
    requires forall i :: 0 <= i < |fpath| && fpath[i] == '.' ==>
      forall j :: 0 <= j < i && fpath[j] != '.' ==> exists k :: j < k < i && fpath[k] == '/'
    ensures ExtFromFilepath(fpath, lower) == []
  {
    var sepIndex := RFind(fpath, '/', |fpath|);
    var dotIndex := RFind(fpath, '.', |fpath|);
    if dotIndex > sepIndex {
      forall j | sepIndex + 1 <= j < dotIndex ensures fpath[j] == '.' {
        assert forall k :: sepIndex < k < |fpath| ==> fpath[k] != '/';
      }
    }
  }

  /** A name ending in something other than a dot or a slash, followed by
      a dot and a dot-free, slash-free extension, gives that extension. */
  lemma ExtRoundTrip(base: string, ext: string)
    requires |base| >= 1 && base[|base| - 1] != '.' && base[|base| - 1] != '/'
    requires '.' !in ext && '/' !in ext
    ensures ExtFromFilepath(base + "." + ext, false) == ext
  {
    var p := base + "." + ext;
    var dot := |base|;
    assert p[dot] == '.';
    assert forall j :: dot < j < |p| ==> p[j] == ext[j - dot - 1];
    var sepIndex := RFind(p, '/', |p|);
    var dotIndex := RFind(p, '.', |p|);
    assert dotIndex == dot;
    assert sepIndex < dot - 1 || sepIndex == -1 by {
      assert p[dot - 1] == base[|base| - 1];
    }
    assert p[dot - 1] != '.';
    assert HasNonDot(p, sepIndex + 1, dotIndex);
    assert p[dot..][1..] == ext;
  }

  /** `test/in/dummy.jpg` has the extension `jpg`. */
  lemma DummyJpg()
    ensures ExtFromFilepath("test/in/dummy.jpg", true) == "jpg"
    ensures ExtFromFilepath("test/in/dummy.jpg", false) == "jpg"
  {
    ExtRoundTrip("test/in/dummy", "jpg");
    assert "test/in/dummy" + "." + "jpg" == "test/in/dummy.jpg";
    assert Strings.Lower("jpg") == "jpg";
  }
}
