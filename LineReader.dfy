/** A line-oriented reader (relais/dev/io/readers/linereader.py) with a
    one-line look-ahead: `buf` always holds the next line to return, or the
    empty string once the source is exhausted. The reader is built on
    `BaseIO` with the format `txt`. */
module LineReader {
  import opened Results
  import Strings
  import BaseIO

  class LineReader {
    const io: BaseIO.BaseIO
    var buf: string

    /** `buf` is empty only when nothing is left to read. */
    ghost predicate Valid()
      reads this, io, io.hndl
    {
      io.hndl.Valid() && (buf == "" ==> io.hndl.Unread() == [])
    }

    /** The lines `read` will still return: `buf`, then the unread lines
        of the handle. */
    ghost function Remaining(): seq<string>
      requires Valid()
      reads this, io, io.hndl
    {
      (if buf == "" then [] else [buf]) + BaseIO.Lines(io.hndl.Unread())
    }

    /** The look-ahead: the first line is read at once. */
    constructor (io: BaseIO.BaseIO)
      requires io.hndl.Valid()
      modifies io.hndl
      ensures Valid() && this.io == io
      ensures Remaining() == BaseIO.Lines(old(io.hndl.Unread()))
      ensures io.hndl.closed == old(io.hndl.closed)
    {
      this.io := io;
      buf := "";
      new;
      buf := io.hndl.Readline();
    }

    /** `LineReader(src)`: the base initialisation with format `txt`, then
        the look-ahead. */
    static method Create(src: BaseIO.Source, contents: string -> Result<string>) returns (r: Result<LineReader>)
      requires src.HandleSrc? ==> src.h.Valid()
      modifies if src.HandleSrc? then {src.h} else {}
      ensures src.PathSrc? ==> (r.Ok? <==> contents(src.path).Ok?)
      ensures src.HandleSrc? ==> r.Ok?
      ensures r.Ok? ==> fresh(r.value) && r.value.Valid() && r.value.io.fmt == Some("txt")
      ensures r.Ok? && src.PathSrc? ==> fresh(r.value.io) && fresh(r.value.io.hndl)
      ensures r.Ok? && src.PathSrc? ==> r.value.Remaining() == BaseIO.Lines(contents(src.path).value)
      ensures r.Ok? && src.HandleSrc? ==> r.value.io.hndl == src.h && r.value.Remaining() == BaseIO.Lines(old(src.h.Unread()))
    {
      assert Strings.Lower("txt") == "txt";
      var base := BaseIO.BaseIO.Create(src, Some("txt"), contents);
      match base {
        case Err(e) =>
          r := Err(e);
        case Ok(io) =>
          var reader := new LineReader(io);
          r := Ok(reader);
      }
    }

    /** `read`: return the look-ahead and read the next line into it; at
        the end the empty string, again and again. */
    method Read() returns (line: string)
      requires Valid()
      modifies this, io.hndl
      ensures Valid() && io.hndl.closed == old(io.hndl.closed)
      ensures line == old(buf)
      ensures old(Remaining()) != [] ==> line == old(Remaining())[0] && Remaining() == old(Remaining())[1..]
      ensures old(Remaining()) == [] ==> line == "" && Remaining() == []
    {
      line := buf;
      buf := io.hndl.Readline();
    }

    /** `at_end`: the look-ahead is empty, which happens exactly when
        nothing is left. */
    function AtEnd(): (r: bool)
      requires Valid()
      reads this, io, io.hndl
      ensures r <==> Remaining() == []
    {
      buf == ""
    }

    /** Reading until `at_end` (`while not at_end(): read()`): the lines
        left, in order, each once. */
    method ReadAll() returns (lines: seq<string>)
      requires Valid()
      modifies this, io.hndl
      ensures Valid() && AtEnd() && io.hndl.closed == old(io.hndl.closed)
      ensures lines == old(Remaining())
    {
      lines := [];
      while !AtEnd()
        invariant Valid() && io.hndl.closed == old(io.hndl.closed)
        invariant lines + Remaining() == old(Remaining())
        decreases |Remaining()|
      {
        var line := Read();
        lines := lines + [line];
      }
    }
  }

  /** Reading a file from start to end gives its lines, which together are
      exactly its text. */
  method ReadFile(path: string, contents: string -> Result<string>) returns (r: Result<seq<string>>)
    ensures r.Ok? <==> contents(path).Ok?
    ensures r.Ok? ==> r.value == BaseIO.Lines(contents(path).value) && BaseIO.Concat(r.value) == contents(path).value
  {
    var reader := LineReader.Create(BaseIO.PathSrc(path), contents);
    match reader {
      case Err(e) =>
        r := Err(e);
      case Ok(rdr) =>
        var lines := rdr.ReadAll();
        BaseIO.LinesConcat(contents(path).value);
        r := Ok(lines);
    }
  }
}
