/** Text helpers (relais/dev/textutils.py): searching for the first and
    last character that differs from a given one, and end-of-line
    conversion between DOS (`\r\n`), classic Mac (`\r`) and Unix (`\n`)
    conventions. The platform's `os.linesep` is a parameter. */
module TextUtils {

  /** `find_not` from position `i` on: the first index at or after `i`
      whose character is not `c`, or -1. */
  function FindNotFrom(s: string, c: char, i: nat): (r: int)
    requires i <= |s|
    ensures r == -1 || i <= r < |s|
    ensures r == -1 <==> forall j :: i <= j < |s| ==> s[j] == c
    ensures r >= 0 ==> s[r] != c && forall j :: i <= j < r ==> s[j] == c
    decreases |s| - i
  {
    if i == |s| then -1
    else if s[i] != c then i
    else FindNotFrom(s, c, i + 1)
  }

  /** `find_not`: the smallest index whose character is not `c`, or -1 if
      every character is `c`. */
  function FindNot(s: string, c: char): (r: int)
    ensures -1 <= r < |s|
    ensures r == -1 <==> forall j :: 0 <= j < |s| ==> s[j] == c
    ensures r >= 0 ==> s[r] != c && forall j :: 0 <= j < r ==> s[j] == c
  {
    FindNotFrom(s, c, 0)
  }

  /** `rfind_not` over the indices below `n`, scanning down. */
  function RFindNotBelow(s: string, c: char, n: nat): (r: int)
    requires n <= |s|
    ensures -1 <= r < n
    ensures r == -1 <==> forall j :: 0 <= j < n ==> s[j] == c
    ensures r >= 0 ==> s[r] != c && forall j :: r < j < n ==> s[j] == c
  {
    if n == 0 then -1
    else if s[n - 1] != c then n - 1
    else RFindNotBelow(s, c, n - 1)
  }

  /** `rfind_not`: the largest index whose character is not `c`, or -1 if
      every character is `c`. */
  function RFindNot(s: string, c: char): (r: int)
    ensures -1 <= r < |s|
    ensures r == -1 <==> forall j :: 0 <= j < |s| ==> s[j] == c
    ensures r >= 0 ==> s[r] != c && forall j :: r < j < |s| ==> s[j] == c
  {
    RFindNotBelow(s, c, |s|)
  }

  /** The two searches agree on whether there is such a character, and
      the first one found from the left is no later than the first one
      found from the right. */
  lemma FindNotBeforeRFindNot(s: string, c: char)
    ensures FindNot(s, c) == -1 <==> RFindNot(s, c) == -1
    ensures FindNot(s, c) != -1 ==> FindNot(s, c) <= RFindNot(s, c)
  {
    var l, r := FindNot(s, c), RFindNot(s, c);
    if l != -1 {
      assert s[l] != c;
    }
  }

  /** `str.replace(pat, rep)` for a non-empty pattern: occurrences are
      replaced left to right and do not overlap. */
  function Replace(s: string, pat: string, rep: string): string
    requires |pat| > 0
    decreases |s|
  {
    if |s| < |pat| then s
    else if s[..|pat|] == pat then rep + Replace(s[|pat|..], pat, rep)
    else [s[0]] + Replace(s[1..], pat, rep)
  }

  /** Replacing one character works character by character. */
  lemma ReplaceCharCons(c: char, t: string, p: char, rep: string)
    ensures Replace([c] + t, [p], rep) == (if c == p then rep else [c]) + Replace(t, [p], rep)
  {
    assert ([c] + t)[..1] == [c];
    assert ([c] + t)[1..] == t;
  }

  /** Replacing one character by another leaves no occurrence of it. */
  lemma {:induction false} ReplaceCharRemoves(s: string, p: char, q: char)
    requires p != q
    ensures p !in Replace(s, [p], [q])
    decreases |s|
  {
    if s != [] {
      ReplaceCharRemoves(s[1..], p, q);
      ReplaceCharCons(s[0], s[1..], p, [q]);
      assert s == [s[0]] + s[1..];
    }
  }

  /** Replacing a character by itself changes nothing. */
  lemma {:induction false} ReplaceCharIdentity(s: string, p: char)
    ensures Replace(s, [p], [p]) == s
    decreases |s|
  {
    if s != [] {
      ReplaceCharIdentity(s[1..], p);
      ReplaceCharCons(s[0], s[1..], p, [p]);
      assert s == [s[0]] + s[1..];
    }
  }

  /** Replacing a character that does not occur changes nothing, and other
      characters are kept. */
  lemma {:induction false} ReplaceCharAbsent(s: string, p: char, rep: string)
    requires p !in s
    ensures Replace(s, [p], rep) == s
    decreases |s|
  {
    if s != [] {
      ReplaceCharAbsent(s[1..], p, rep);
      ReplaceCharCons(s[0], s[1..], p, rep);
      assert s == [s[0]] + s[1..];
    }
  }

  /** `canonical_eoln`: DOS line ends to Unix, then classic Mac line ends
      to Unix. */
  function CanonicalEoln(s: string): string
  {
    Replace(Replace(s, "\r\n", "\n"), "\r", "\n")
  }

  /** A single left-to-right reading of the same conversion: `\r\n` and a
      lone `\r` each become `\n`, everything else is kept. */
  function Canon(s: string): string
    decreases |s|
  {
    if s == [] then []
    else if s[0] == '\r' && |s| >= 2 && s[1] == '\n' then "\n" + Canon(s[2..])
    else if s[0] == '\r' then "\n" + Canon(s[1..])
    else [s[0]] + Canon(s[1..])
  }

  /** The two replacements perform the single reading. */
  lemma {:induction false} CanonicalEolnIsCanon(s: string)
    ensures CanonicalEoln(s) == Canon(s)
    decreases |s|
  {
    if s == [] {
    } else if s[0] == '\r' && |s| >= 2 && s[1] == '\n' {
      CanonicalEolnIsCanon(s[2..]);
      assert s[..2] == "\r\n";
      var rest := Replace(s[2..], "\r\n", "\n");
      assert Replace(s, "\r\n", "\n") == [('\n')] + rest;
      ReplaceCharCons('\n', rest, '\r', "\n");
    } else {
      CanonicalEolnIsCanon(s[1..]);
      var rest := Replace(s[1..], "\r\n", "\n");
      assert Replace(s, "\r\n", "\n") == [s[0]] + rest by {
        if |s| >= 2 {
          assert s[..2] == [s[0], s[1]];
        }
      }
      ReplaceCharCons(s[0], rest, '\r', "\n");
    }
  }

  /** After conversion no `\r` is left. */
  lemma {:induction false} CanonNoCarriageReturn(s: string)
    ensures '\r' !in Canon(s)
    decreases |s|
  {
    if s != [] {
      if s[0] == '\r' && |s| >= 2 && s[1] == '\n' {
        CanonNoCarriageReturn(s[2..]);
      } else {
        CanonNoCarriageReturn(s[1..]);
      }
    }
  }

  /** A string without `\r` is already canonical. */
  lemma {:induction false} CanonWithoutCarriageReturn(s: string)
    requires '\r' !in s
    ensures Canon(s) == s
    decreases |s|
  {
    if s != [] {
      CanonWithoutCarriageReturn(s[1..]);
      assert s == [s[0]] + s[1..];
    }
  }

  /** `canonical_eoln` leaves no `\r`, leaves `\r`-free strings alone and
      is therefore idempotent. */
  lemma CanonicalEolnProperties(s: string)
    ensures '\r' !in CanonicalEoln(s)
    ensures '\r' !in s ==> CanonicalEoln(s) == s
    ensures CanonicalEoln(CanonicalEoln(s)) == CanonicalEoln(s)
  {
    CanonicalEolnIsCanon(s);
    CanonNoCarriageReturn(s);
    if '\r' !in s {
      CanonWithoutCarriageReturn(s);
    }
    CanonicalEolnIsCanon(CanonicalEoln(s));
    CanonWithoutCarriageReturn(Canon(s));
  }

  /** `native_eoln` as written: DOS line ends to `linesep`, then `\r` to
      `linesep` unless `linesep` is `\r`, then `\r` to `linesep` again
      unless `linesep` is `\n`. The last step was meant for Unix line ends
      but replaces `\r`, not `\n`. */
  function NativeEolnAsWritten(s: string, linesep: string): string
  {
    var t := Replace(s, "\r\n", linesep);
    var t2 := if linesep != "\r" then Replace(t, "\r", linesep) else t;
    if linesep != "\n" then Replace(t2, "\r", linesep) else t2
  }

  /** On a Unix host `native_eoln` is `canonical_eoln`. */
  lemma NativeEolnAsWrittenUnix(s: string)
    ensures NativeEolnAsWritten(s, "\n") == CanonicalEoln(s)
  {
    assert "\n" != "\r" by {
      assert "\n"[0] != "\r"[0];
    }
  }

  /** On a Windows host the as-written conversion turns one DOS line end
      into three line ends: `a\r\nb` becomes `a\r\n\n\nb`, which no longer
      reads as the same lines. */
  lemma NativeEolnAsWrittenWindows()
    ensures NativeEolnAsWritten("a\r\nb", "\r\n") == "a\r\n\n\nb"
    ensures CanonicalEoln(NativeEolnAsWritten("a\r\nb", "\r\n")) != CanonicalEoln("a\r\nb")
  {
    var crlf := "\r\n";
    assert crlf != "\r" && crlf != "\n";
    WindowsFirstReplace();
    WindowsCarriageReturns();
    WindowsLinesDiffer();
  }

  /** The DOS line end of `a\r\nb` is replaced by itself. */
  lemma WindowsFirstReplace()
    ensures Replace("a\r\nb", "\r\n", "\r\n") == "a\r\nb"
  {
    var crlf := "\r\n";
    var s := "a\r\nb";
    assert Replace("b", crlf, crlf) == "b";
    assert s[1..][..2] == crlf && s[1..][2..] == "b";
    assert Replace(s[1..], crlf, crlf) == "\r\nb";
    assert s[..2] != crlf by {
      assert s[..2][0] == 'a';
    }
    assert Replace(s, crlf, crlf) == "a" + "\r\nb";
  }

  /** Each of the two `\r` passes adds a `\n` after the one `\r`. */
  lemma WindowsCarriageReturns()
    ensures Replace("a\r\nb", "\r", "\r\n") == "a\r\n\nb"
    ensures Replace("a\r\n\nb", "\r", "\r\n") == "a\r\n\n\nb"
  {
    var crlf := "\r\n";
    assert "\r" == ['\r'];
    assert "\r\nb"[1..] == "\nb";
    ReplaceStep('a', "\r\nb", crlf);
    assert "a\r\nb" == ['a'] + "\r\nb";
    assert "a\r\n\nb" == ['a'] + (crlf + "\nb");
    assert "\r\n\nb"[1..] == "\n\nb";
    ReplaceStep('a', "\r\n\nb", crlf);
    assert "a\r\n\nb" == ['a'] + "\r\n\nb";
    assert "a\r\n\n\nb" == ['a'] + (crlf + "\n\nb");
  }

  /** `a\r\nb` reads as two lines, `a\r\n\n\nb` as four. */
  lemma WindowsLinesDiffer()
    ensures CanonicalEoln("a\r\n\n\nb") != CanonicalEoln("a\r\nb")
  {
    var s, t3 := "a\r\nb", "a\r\n\n\nb";
    CanonicalEolnIsCanon(t3);
    CanonicalEolnIsCanon(s);
    assert |Canon(s)| == 3 by {
      assert Canon(s) == "a" + ("\n" + Canon("b"));
    }
    assert |Canon(t3)| == 5 by {
      assert t3[1..] == "\r\n\n\nb" && t3[1..][2..] == "\n\nb";
      assert Canon(t3) == "a" + ("\n" + Canon("\n\nb"));
      assert |Canon("\n\nb")| == 3;
    }
  }


  /** One `\r` replaced on a string whose only `\r` follows its first
      character. */
  lemma ReplaceStep(c: char, rest: string, rep: string)
    requires c != '\r' && |rest| >= 1 && rest[0] == '\r' && '\r' !in rest[1..]
    ensures Replace([c] + rest, ['\r'], rep) == [c] + (rep + rest[1..])
  {
    ReplaceCharCons(c, rest, '\r', rep);
    ReplaceCharCons('\r', rest[1..], '\r', rep);
    assert rest == ['\r'] + rest[1..];
    ReplaceCharAbsent(rest[1..], '\r', rep);
  }

  /** The three line separators `os.linesep` can be. */
  predicate IsLinesep(sep: string)
  {
    sep == "\n" || sep == "\r" || sep == "\r\n"
  }

  /** `native_eoln` as intended: every line end, in any of the three
      conventions, becomes `linesep`. */
  function NativeEoln(s: string, linesep: string): string
  {
    Replace(CanonicalEoln(s), "\n", linesep)
  }

  /** The intended conversion keeps the lines: reading its output back to
      Unix line ends gives the same text as reading the input, and on a
      Unix host it is `canonical_eoln`. */
  lemma NativeEolnKeepsLines(s: string, linesep: string)
    requires IsLinesep(linesep)
    ensures CanonicalEoln(NativeEoln(s, linesep)) == CanonicalEoln(s)
    ensures linesep == "\n" ==> NativeEoln(s, linesep) == CanonicalEoln(s)
  {
    var u := CanonicalEoln(s);
    CanonicalEolnProperties(s);
    CanonicalEolnIsCanon(Replace(u, "\n", linesep));
    if linesep == "\n" {
      ReplaceCharIdentity(u, '\n');
      CanonWithoutCarriageReturn(u);
    } else {
      NativeBackToUnix(u, linesep);
    }
  }

  /** Replacing the `\n` of a `\r`-free text by `\r` or `\r\n` and reading
      back gives the text again. */
  lemma {:induction false} NativeBackToUnix(u: string, sep: string)
    requires '\r' !in u
    requires sep == "\r" || sep == "\r\n"
    ensures Canon(Replace(u, "\n", sep)) == u
    decreases |u|
  {
    if u != [] {
      var t := u[1..];
      NativeBackToUnix(t, sep);
      var x := Replace(t, "\n", sep);
      ReplaceCharCons(u[0], t, '\n', sep);
      assert u == [u[0]] + t;
      if u[0] == '\n' {
        if sep == "\r" {
          ReplaceCharRemoves(t, '\n', '\r');
          assert Canon(sep + x) == "\n" + Canon(x) by {
            if |x| >= 1 {
              assert x[0] in x;
            }
            assert (sep + x)[1..] == x;
          }
        } else {
          assert (sep + x)[2..] == x;
        }
      } else {
        assert ([u[0]] + x)[1..] == x;
      }
    }
  }
}
