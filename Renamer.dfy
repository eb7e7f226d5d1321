/** Unique names and their back-translation (relais/dev/renamer.py): the
    session counter behind `get_simple_uid`, and renamers that hand out new
    names and remember which original each stands for. Names are made by
    Python 2's `fmt % str(n)`, modelled here for `%s` and `%%` directives. */
module Renamer {
  import opened Results
  import opened Strings

  /** A parsed format string: text with no slot (`Plain`), or the text
      before and after its one `%s` (`Slot`). */
  datatype Template = Plain(text: string) | Slot(before: string, after: string)

  /** Put literal text in front of a parsed template. */
  function PrependText(a: string, r: Result<Template>): Result<Template>
  {
    match r
    case Ok(Plain(t)) => Ok(Plain(a + t))
    case Ok(Slot(x, y)) => Ok(Slot(a + x, y))
    case Err(e) => Err(e)
  }

  /** Parse a format string left to right for a single argument, as
      `str.__mod__` does: `%%` is a literal percent sign, the first `%s`
      takes the argument, a directive once the argument is taken finds no
      argument left, a lone `%` at the end is incomplete, and any other
      directive is not supported by this model. */
  function Scan(fmt: string, used: bool): (r: Result<Template>)
    ensures used && r.Ok? ==> r.value.Plain?
  {
    if fmt == [] then Ok(Plain(""))
    else if fmt[0] != '%' then PrependText([fmt[0]], Scan(fmt[1..], used))
    else if |fmt| == 1 then Err(ValueError("incomplete format"))
    else if fmt[1] == '%' then PrependText("%", Scan(fmt[2..], used))
    else if used then Err(TypeError("not enough arguments for format string"))
    else if fmt[1] == 's' then
      var rest := Scan(fmt[2..], true);
      if rest.Err? then rest else Ok(Slot("", rest.value.text))
    else Err(ValueError("unsupported format character"))
  }

  /** `fmt % arg` for one string argument: the argument replaces the one
      `%s`; a format without one leaves the argument unconverted. */
  function Format(fmt: string, arg: string): Result<string>
  {
    match Scan(fmt, false)
    case Err(e) => Err(e)
    case Ok(Plain(_)) => Err(TypeError("not all arguments converted during string formatting"))
    case Ok(Slot(a, b)) => Ok(a + arg + b)
  }

  /** Write `s` as format text: every percent sign doubled. */
  function Escape(s: string): string
  {
    if s == [] then "" else (if s[0] == '%' then "%%" else [s[0]]) + Escape(s[1..])
  }

  /** Prepending twice is prepending the concatenation. */
  lemma PrependTextTwice(a: string, b: string, r: Result<Template>)
    ensures PrependText(a, PrependText(b, r)) == PrependText(a + b, r)
  {
    match r
    case Ok(Plain(t)) => assert a + (b + t) == a + b + t;
    case Ok(Slot(x, y)) => assert a + (b + x) == a + b + x;
    case Err(_) =>
  }

  /** One step of `Scan` over the escaped form of one character. */
  lemma ScanEscapedChar(c: char, rest: string, used: bool)
    ensures Scan((if c == '%' then "%%" else [c]) + rest, used) == PrependText([c], Scan(rest, used))
  {
    var s := (if c == '%' then "%%" else [c]) + rest;
    if c == '%' {
      assert s[0] == '%' && s[1] == '%' && s[2..] == rest;
    } else {
      assert s[0] == c && s[1..] == rest;
    }
  }

  /** Parsing escaped text yields that text literally. */
  lemma {:induction false} ScanEscaped(a: string, rest: string, used: bool)
    ensures Scan(Escape(a) + rest, used) == PrependText(a, Scan(rest, used))
  {
    if a == [] {
      assert Escape(a) + rest == rest;
      PrependTextTwice([], [], Scan(rest, used));
      match Scan(rest, used)
      case Ok(Plain(t)) => assert a + t == t;
      case Ok(Slot(x, y)) => assert a + x == x;
      case Err(_) =>
    } else {
      var c, tail := a[0], a[1..];
      var head := if c == '%' then "%%" else [c];
      assert Escape(a) + rest == head + (Escape(tail) + rest);
      ScanEscapedChar(c, Escape(tail) + rest, used);
      ScanEscaped(tail, rest, used);
      PrependTextTwice([c], tail, Scan(rest, used));
      assert [c] + tail == a;
    }
  }

  /** Text without a percent sign is its own escaped form. */
  lemma {:induction false} EscapePlain(s: string)
    requires '%' !in s
    ensures Escape(s) == s
  {
    if s != [] {
      EscapePlain(s[1..]);
      assert [s[0]] + s[1..] == s;
    }
  }

  /** The format inverts `Escape` around one `%s`: formatting
      `Escape(a) + "%s" + Escape(b)` with `arg` gives `a + arg + b`. */
  lemma FormatEscaped(a: string, b: string, arg: string)
    ensures Format(Escape(a) + "%s" + Escape(b), arg) == Ok(a + arg + b)
  {
    var tail := "%s" + Escape(b);
    ScanEscaped(b, "", true);
    assert Scan(Escape(b), true) == Ok(Plain(b)) by {
      assert Escape(b) + "" == Escape(b);
      assert b + "" == b;
    }
    assert tail[0] == '%' && tail[1] == 's' && tail[2..] == Escape(b);
    assert Scan(tail, false) == Ok(Slot("", b));
    ScanEscaped(a, tail, false);
    assert a + "" == a;
    assert Escape(a) + "%s" + Escape(b) == Escape(a) + tail;
  }

  /** Whether formatting succeeds does not depend on the argument, and a
      successful format keeps the argument recoverable: different arguments
      give different strings. */
  lemma FormatInjective(fmt: string, x: string, y: string)
    ensures Format(fmt, x).Ok? <==> Format(fmt, y).Ok?
    ensures Format(fmt, x).Ok? && Format(fmt, x) == Format(fmt, y) ==> x == y
  {
    if Format(fmt, x).Ok? && Format(fmt, x) == Format(fmt, y) {
      var a, b := Scan(fmt, false).value.before, Scan(fmt, false).value.after;
      var s := a + x + b;
      assert s == a + y + b;
      assert |x| == |y|;
      assert x == s[|a|..|a| + |x|];
      assert y == s[|a|..|a| + |y|];
    }
  }

  /** Numbered names from one format are distinct. */
  lemma NumberedNamesDistinct(fmt: string, m: nat, n: nat)
    requires m != n
    requires Format(fmt, NatToString(m)).Ok?
    ensures Format(fmt, NatToString(n)).Ok?
    ensures Format(fmt, NatToString(m)).value != Format(fmt, NatToString(n)).value
  {
    FormatInjective(fmt, NatToString(m), NatToString(n));
    if NatToString(m) == NatToString(n) {
      NatToStringInjective(m, n);
    }
  }

  /** The module-level counter `_CURR_UID` behind `get_simple_uid`. */
  class UidCounter {
    var current: nat

    /** The counter as the module is imported: zero. */
    constructor ()
      ensures current == 0
    {
      current := 0;
    }

    /** `get_simple_uid(base)`: the counter is incremented first, then the
        new value is formatted into `base` (so a bad `base` still uses up a
        number). */
    method GetSimpleUid(base: string) returns (r: Result<string>)
      modifies this
      ensures current == old(current) + 1
      ensures r == Format(base, NatToString(current))
    {
      current := current + 1;
      r := Format(base, NatToString(current));
    }
  }

  /** Formatting a number into the default name format. */
  lemma DefaultFormat(n: string)
    ensures Format("uid_%s", n) == Ok("uid_" + n)
  {
    EscapePlain("uid_");
    EscapePlain("");
    FormatEscaped("uid_", "", n);
    assert "uid_" + "%s" + "" == "uid_%s";
    assert "uid_" + n + "" == "uid_" + n;
  }

  /** Formatting a number into a format with text on both sides. */
  lemma FooBarFormat(n: string)
    ensures Format("foo%sbar", n) == Ok("foo" + n + "bar")
  {
    EscapePlain("foo");
    EscapePlain("bar");
    FormatEscaped("foo", "bar", n);
    assert "foo" + "%s" + "bar" == "foo%sbar";
  }

  /** The documented session: `uid_1`, `uid_2`, then `foo3bar`. */
  method SimpleUidSession() returns (first: Result<string>, second: Result<string>, third: Result<string>)
    ensures first == Ok("uid_1") && second == Ok("uid_2") && third == Ok("foo3bar")
  {
    var counter := new UidCounter();
    first := counter.GetSimpleUid("uid_%s");
    second := counter.GetSimpleUid("uid_%s");
    third := counter.GetSimpleUid("foo%sbar");
    assert NatToString(1) == "1" && NatToString(2) == "2" && NatToString(3) == "3";
    DefaultFormat("1");
    DefaultFormat("2");
    FooBarFormat("3");
    assert "uid_" + "1" == "uid_1" && "uid_" + "2" == "uid_2" && "foo" + "3" + "bar" == "foo3bar";
  }

  /** How a renamer makes new names: `BaseRenamer` leaves it to subclasses,
      `StrNumRenamer` formats an incrementing number. */
  datatype Scheme = Base | StrNum(fmt: string)

  class Renamer {
    const scheme: Scheme
    /** Original name to its latest new name, and new name to original. */
    var transdict: map<string, string>
    var backdict: map<string, string>
    /** The last number used (`StrNumRenamer` only). */
    var currId: nat
    /** The number each new name was made from. */
    ghost var ids: map<string, nat>

    /** Every new name maps back to an original, every original's latest
        new name maps back to it, and, for a numbering scheme, every new
        name was made from a number already used. */
    ghost predicate Valid()
      reads this
    {
      && (forall o | o in transdict :: transdict[o] in backdict && backdict[transdict[o]] == o)
      && ids.Keys == backdict.Keys
      && (scheme.Base? ==> backdict == map[])
      && (scheme.StrNum? ==>
            forall n | n in ids :: 1 <= ids[n] <= currId && Format(scheme.fmt, NatToString(ids[n])) == Ok(n))
    }

    /** `BaseRenamer()` or `StrNumRenamer(fmt_str)`: both dictionaries empty. */
    constructor (scheme: Scheme)
      ensures Valid() && this.scheme == scheme
      ensures transdict == map[] && backdict == map[] && currId == 0
    {
      this.scheme := scheme;
      transdict, backdict, currId := map[], map[], 0;
      ids := map[];
    }

    /** `_rename`: the base class raises; the numbering scheme increments
        its counter and formats it. */
    method Rename(name: string) returns (r: Result<string>)
      requires Valid()
      modifies this
      ensures Valid()
      ensures transdict == old(transdict) && backdict == old(backdict) && ids == old(ids)
      ensures scheme.Base? ==> r == Err(NotImplementedError("must override method in subclass")) && currId == old(currId)
      ensures scheme.StrNum? ==> currId == old(currId) + 1 && r == Format(scheme.fmt, NatToString(currId))
    {
      if scheme.Base? {
        return Err(NotImplementedError("must override method in subclass"));
      }
      currId := currId + 1;
      r := Format(scheme.fmt, NatToString(currId));
    }

    /** `translate`: a new name for `name`; it must not have been handed
        out before, and both directions are recorded. */
    method Translate(name: string) returns (r: Result<string>)
      requires Valid()
      modifies this
      ensures Valid()
      ensures scheme.Base? ==> r.Err? && r.error.NotImplementedError? && currId == old(currId)
      ensures scheme.StrNum? ==> currId == old(currId) + 1
      ensures scheme.StrNum? && Format(scheme.fmt, NatToString(currId)).Err? ==>
        r == Format(scheme.fmt, NatToString(currId))
      ensures scheme.StrNum? && Format(scheme.fmt, NatToString(currId)).Ok? ==>
        var candidate := Format(scheme.fmt, NatToString(currId)).value;
        if candidate in old(backdict) then r == Err(AssertionError("name '%s' is not unique"))
        else r == Ok(candidate)
      ensures r.Ok? ==> r.value !in old(backdict)
      ensures r.Ok? ==> backdict == old(backdict)[r.value := name] && transdict == old(transdict)[name := r.value]
      ensures r.Err? ==> backdict == old(backdict) && transdict == old(transdict)
    {
      r := Rename(name);
      if r.Err? {
        return;
      }
      var newName := r.value;
      if newName in backdict {
        return Err(AssertionError("name '%s' is not unique"));
      }
      backdict := backdict[newName := name];
      transdict := transdict[name := newName];
      ids := ids[newName := currId];
    }

    /** `backtranslate`: the original of a name this renamer made; any
        other name is a missing key. */
    function Backtranslate(name: string): (r: Result<string>)
      reads this
      ensures r.Ok? <==> name in backdict
      ensures r.Ok? ==> backdict[name] == r.value
      ensures r.Err? ==> r == Err(KeyError(name))
    {
      if name in backdict then Ok(backdict[name]) else Err(KeyError(name))
    }

    /** The next number gives a name not yet handed out, so the uniqueness
        assertion of `translate` never fires for a numbering renamer. */
    lemma NextNameIsFresh()
      requires Valid() && scheme.StrNum?
      requires Format(scheme.fmt, NatToString(currId + 1)).Ok?
      ensures Format(scheme.fmt, NatToString(currId + 1)).value !in backdict
    {
      var next := Format(scheme.fmt, NatToString(currId + 1)).value;
      if next in backdict {
        NumberedNamesDistinct(scheme.fmt, currId + 1, ids[next]);
      }
    }
  }

  /** Renaming a list of names one after the other and translating each new
      name back: the new names are pairwise distinct and each leads back to
      its original. */
  method TranslateAll(rnmr: Renamer, names: seq<string>) returns (r: Result<seq<string>>)
    requires rnmr.Valid() && rnmr.scheme.StrNum?
    requires Format(rnmr.scheme.fmt, "").Ok?
    modifies rnmr
    ensures rnmr.Valid()
    ensures r.Ok? && |r.value| == |names|
    ensures forall i, j :: 0 <= i < j < |r.value| ==> r.value[i] != r.value[j]
    ensures forall i :: 0 <= i < |r.value| ==> rnmr.Backtranslate(r.value[i]) == Ok(names[i])
  {
    var newNames := [];
    for k := 0 to |names|
      invariant rnmr.Valid() && |newNames| == k
      invariant forall i, j :: 0 <= i < j < k ==> newNames[i] != newNames[j]
      invariant forall i :: 0 <= i < k ==> newNames[i] in rnmr.backdict && rnmr.backdict[newNames[i]] == names[i]
    {
      FormatInjective(rnmr.scheme.fmt, "", NatToString(rnmr.currId + 1));
      rnmr.NextNameIsFresh();
      ghost var oldBack := rnmr.backdict;
      var newName := rnmr.Translate(names[k]);
      assert newName.Ok? && newName.value !in oldBack;
      assert rnmr.backdict == oldBack[newName.value := names[k]];
      newNames := newNames + [newName.value];
    }
    r := Ok(newNames);
  }
}
