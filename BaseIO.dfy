/** The common base of readers and writers (relais/dev/io/baseio.py): the
    handle, whether the object opened it itself, and the file format, given
    or derived from the handle's name. File-like objects are modelled by
    their `name` attribute and their text with a read position. */
module BaseIO {
  import opened Results
  import Strings
  import FileUtils

  /** A handle's `name` attribute: missing (as on a `StringIO`), `None`, or
      a path. */
  datatype HandleName = NoNameAttr | NameNone | Name(path: string)

  /** The position just after the line that starts at `i`: after its `\n`,
      or at the end of the text for a last line without one. */
  function LineEnd(s: string, i: nat): (k: nat)
    requires i <= |s|
    ensures i <= k <= |s|
    ensures i < |s| ==> i < k
    ensures forall j :: i <= j < k - 1 ==> s[j] != '\n'
    ensures k < |s| ==> s[k - 1] == '\n'
    decreases |s| - i
  {
    if i == |s| then i
    else if s[i] == '\n' then i + 1
    else LineEnd(s, i + 1)
  }

  /** The lines `readline` returns one after the other, each with its
      `\n`; none of them is empty. */
  function Lines(s: string): (ls: seq<string>)
    ensures forall i :: 0 <= i < |ls| ==> ls[i] != ""
    decreases |s|
  {
    if s == [] then []
    else
      var k := LineEnd(s, 0);
      [s[..k]] + Lines(s[k..])
  }

  /** The lines written one after the other. */
  function Concat(ls: seq<string>): string
  {
    if ls == [] then "" else ls[0] + Concat(ls[1..])
  }

  /** Splitting a text into lines loses nothing: the lines put back
      together are the text. */
  lemma {:induction false} LinesConcat(s: string)
    ensures Concat(Lines(s)) == s
    decreases |s|
  {
    if s != [] {
      var k := LineEnd(s, 0);
      LinesConcat(s[k..]);
      assert s == s[..k] + s[k..];
    }
  }

  /** Every line but the last ends with `\n`, and no line has a `\n`
      anywhere else. */
  lemma {:induction false} LinesShape(s: string)
    ensures var ls := Lines(s);
      forall i :: 0 <= i < |ls| ==>
        (forall j :: 0 <= j < |ls[i]| - 1 ==> ls[i][j] != '\n') &&
        (i < |ls| - 1 ==> ls[i][|ls[i]| - 1] == '\n')
    decreases |s|
  {
    if s != [] {
      var k := LineEnd(s, 0);
      LinesShape(s[k..]);
      var ls := Lines(s);
      assert ls == [s[..k]] + Lines(s[k..]);
      assert |ls| > 1 ==> k < |s|;
    }
  }

  /** A file-like object: its name, its text and how far it has been
      read. */
  class Handle {
    const name: HandleName
    const text: string
    var pos: nat
    var closed: bool

    ghost predicate Valid()
      reads this
    {
      pos <= |text|
    }

    /** A freshly opened handle, at the start of its text. */
    constructor (name: HandleName, text: string)
      ensures Valid() && this.name == name && this.text == text
      ensures pos == 0 && !closed
    {
      this.name := name;
      this.text := text;
      pos := 0;
      closed := false;
    }

    /** The text not read yet. */
    function Unread(): string
      requires Valid()
      reads this
    {
      text[pos..]
    }

    /** `readline()`: the next line, or the empty string at the end. */
    method Readline() returns (line: string)
      requires Valid()
      modifies this
      ensures Valid() && closed == old(closed)
      ensures old(Unread()) == [] ==> line == "" && Unread() == []
      ensures old(Unread()) != [] ==> line == Lines(old(Unread()))[0] && Lines(Unread()) == Lines(old(Unread()))[1..]
    {
      var rest := text[pos..];
      var k := LineEnd(rest, 0);
      line := rest[..k];
      assert text[pos + k..] == rest[k..];
      pos := pos + k;
    }

    /** `close()`. */
    method Close()
      modifies this
      ensures closed && pos == old(pos)
    {
      closed := true;
    }
  }

  /** `get_format`: an explicit format, lower-cased when `lower` is set;
      otherwise the extension of the handle's name, `None` for a name of
      `None`, and an `AttributeError` for a handle without a name. */
  function GetFormat(fmt: Option<string>, name: HandleName, lower: bool): Result<Option<string>>
  {
    if fmt.Some? then Ok(Some(if lower then Strings.Lower(fmt.value) else fmt.value))
    else
      match name
      case NoNameAttr => Err(AttributeError("name"))
      case NameNone => Ok(None)
      case Name(path) => Ok(Some(FileUtils.ExtFromFilepath(path, lower)))
  }

  /** Only a missing format with a nameless handle fails; a format is
      never upper-case when `lower` is set, and one derived from a name
      holds no dot. */
  lemma GetFormatLaws(fmt: Option<string>, name: HandleName, lower: bool)
    ensures GetFormat(fmt, name, lower).Err? <==> fmt.None? && name.NoNameAttr?
    ensures GetFormat(fmt, name, lower).Ok? && GetFormat(fmt, name, lower).value.None? <==> fmt.None? && name.NameNone?
    ensures lower && GetFormat(fmt, name, lower).Ok? && GetFormat(fmt, name, lower).value.Some? ==>
      forall i :: 0 <= i < |GetFormat(fmt, name, lower).value.value| ==> !('A' <= GetFormat(fmt, name, lower).value.value[i] <= 'Z')
    ensures fmt.None? && name.Name? ==> '.' !in GetFormat(fmt, name, lower).value.value
  {
    if fmt.Some? {
      Strings.LowerProperties(fmt.value);
    } else if name.Name? {
      FileUtils.ExtProperties(name.path, lower);
      FileUtils.ExtProperties(name.path, false);
      Strings.LowerProperties(FileUtils.ExtFromFilepath(name.path, false));
    }
  }

  /** The constructor tests: `TXT` gives `txt`, `test/in/dummy.jpg` gives
      `jpg`, and a `StringIO` without a format fails. */
  lemma GetFormatExamples()
    ensures GetFormat(Some("TXT"), NoNameAttr, true) == Ok(Some("txt"))
    ensures GetFormat(None, Name("test/in/dummy.jpg"), true) == Ok(Some("jpg"))
    ensures GetFormat(None, NoNameAttr, true).Err?
  {
    assert GetFormat(Some("TXT"), NoNameAttr, true) == Ok(Some("txt")) by {
      assert Strings.Lower("TXT") == "txt";
    }
    assert GetFormat(None, Name("test/in/dummy.jpg"), true) == Ok(Some("jpg")) by {
      FileUtils.DummyJpg();
    }
  }

  /** What `hndl` is given as: a path to open, or an open handle. */
  datatype Source = PathSrc(path: string) | HandleSrc(h: Handle)

  class BaseIO {
    const hndl: Handle
    const hndlOpened: bool
    const fmt: Option<string>

    constructor (hndl: Handle, hndlOpened: bool, fmt: Option<string>)
      ensures this.hndl == hndl && this.hndlOpened == hndlOpened && this.fmt == fmt
    {
      this.hndl := hndl;
      this.hndlOpened := hndlOpened;
      this.fmt := fmt;
    }

    /** `BaseIO(hndl, mode, fmt)`: a path is opened (the file system is the
        `contents` oracle, which may fail) and remembered as opened here;
        a handle is used as given. The format comes from `get_format`. */
    static method Create(src: Source, fmt: Option<string>, contents: string -> Result<string>) returns (r: Result<BaseIO>)
      ensures src.PathSrc? ==> (r.Ok? <==> contents(src.path).Ok?)
      ensures src.PathSrc? && r.Err? ==> r.error == contents(src.path).error
      ensures src.PathSrc? && r.Ok? ==>
        fresh(r.value) && fresh(r.value.hndl) && r.value.hndlOpened &&
        r.value.hndl.name == Name(src.path) && r.value.hndl.text == contents(src.path).value &&
        r.value.hndl.Valid() && r.value.hndl.pos == 0 && !r.value.hndl.closed &&
        r.value.fmt == GetFormat(fmt, Name(src.path), true).value
      ensures src.HandleSrc? ==> (r.Ok? <==> GetFormat(fmt, src.h.name, true).Ok?)
      ensures src.HandleSrc? && r.Err? ==> r.error == GetFormat(fmt, src.h.name, true).error
      ensures src.HandleSrc? && r.Ok? ==>
        fresh(r.value) && r.value.hndl == src.h && !r.value.hndlOpened &&
        r.value.fmt == GetFormat(fmt, src.h.name, true).value
    {
      var h: Handle;
      var isOpened: bool;
      match src {
        case PathSrc(path) =>
          match contents(path) {
            case Err(e) =>
              return Err(e);
            case Ok(text) =>
              h := new Handle(Name(path), text);
              isOpened := true;
          }
        case HandleSrc(given) =>
          h := given;
          isOpened := false;
      }
      match GetFormat(fmt, h.name, true) {
        case Err(e) =>
          r := Err(e);
        case Ok(f) =>
          var io := new BaseIO(h, isOpened, f);
          r := Ok(io);
      }
    }

    /** `__del__`: the handle is closed only if this object opened it. */
    method Dispose()
      modifies hndl
      ensures hndl.closed == (old(hndl.closed) || hndlOpened)
      ensures hndl.pos == old(hndl.pos)
    {
      if hndlOpened {
        hndl.Close();
      }
    }
  }
}
