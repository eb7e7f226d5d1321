/** String operations of Python's `str` used by several modelled files:
    `sep.join`, `s.split(c)`, `str(n)` for integers, the built-in `cmp` on
    strings and `s.lower()` on ASCII text. */
module Strings {

  /** `sep.join(xs)`. */
  function Join(sep: string, xs: seq<string>): string
  {
    if |xs| == 0 then ""
    else if |xs| == 1 then xs[0]
    else xs[0] + sep + Join(sep, xs[1..])
  }

  /** `s.split(c)` for a one-character separator: every occurrence of `c`
      separates two fields, so there is always one field more than there
      are separators. */
  function Split(s: string, c: char): (r: seq<string>)
    ensures |r| >= 1
  {
    if s == [] then [""]
    else if s[0] == c then [""] + Split(s[1..], c)
    else
      var rest := Split(s[1..], c);
      [[s[0]] + rest[0]] + rest[1..]
  }

  /** A field free of the separator comes back from `Split` as one piece. */
  lemma {:induction false} SplitNoSeparator(s: string, c: char)
    requires c !in s
    ensures Split(s, c) == [s]
  {
    if s != [] {
      SplitNoSeparator(s[1..], c);
      assert [s[0]] + s[1..] == s;
    }
  }

  /** Splitting `x + [c] + t` at its first separator gives `x` and then the
      fields of `t`. */
  lemma {:induction false} SplitAfterField(x: string, c: char, t: string)
    requires c !in x
    ensures Split(x + [c] + t, c) == [x] + Split(t, c)
  {
    if x == [] {
      assert x + [c] + t == [c] + t;
      assert ([c] + t)[1..] == t;
    } else {
      var s := x + [c] + t;
      assert s[0] == x[0] && s[1..] == x[1..] + [c] + t;
      SplitAfterField(x[1..], c, t);
      assert [x[0]] + x[1..] == x;
    }
  }

  /** Round trip: splitting a join at the separator returns the pieces,
      provided no piece contains the separator. */
  lemma {:induction false} SplitJoin(xs: seq<string>, c: char)
    requires |xs| >= 1
    requires forall i :: 0 <= i < |xs| ==> c !in xs[i]
    ensures Split(Join([c], xs), c) == xs
  {
    if |xs| == 1 {
      SplitNoSeparator(xs[0], c);
    } else {
      SplitJoin(xs[1..], c);
      SplitAfterField(xs[0], c, Join([c], xs[1..]));
      assert [xs[0]] + xs[1..] == xs;
    }
  }

  /** Joining one more item adds the separator and that item. */
  lemma {:induction false} JoinSnoc(sep: string, xs: seq<string>, x: string)
    requires xs != []
    ensures Join(sep, xs + [x]) == Join(sep, xs) + sep + x
    decreases |xs|
  {
    if |xs| == 1 {
      assert (xs + [x])[1..] == [x];
    } else {
      assert (xs + [x])[1..] == xs[1..] + [x];
      JoinSnoc(sep, xs[1..], x);
    }
  }

  /** The decimal digit character for `d`. */
  function DigitChar(d: nat): (c: char)
    requires d < 10
    ensures '0' <= c <= '9'
  {
    ('0' as int + d) as char
  }

  /** `str(n)` for a natural number: its decimal digits, most significant
      first, without leading zeros. */
  function NatToString(n: nat): (s: string)
    ensures |s| >= 1
    ensures forall i :: 0 <= i < |s| ==> '0' <= s[i] <= '9'
  {
    if n < 10 then [DigitChar(n)] else NatToString(n / 10) + [DigitChar(n % 10)]
  }

  /** The value of a string of decimal digits (`int(s)` on such strings). */
  function ParseNat(s: string): nat
  {
    if s == [] then 0
    else
      var c := s[|s| - 1];
      var d := if '0' <= c <= '9' then c as int - '0' as int else 0;
      ParseNat(s[..|s| - 1]) * 10 + d
  }

  /** `int(str(n)) == n`. */
  lemma {:induction false} ParseNatToString(n: nat)
    ensures ParseNat(NatToString(n)) == n
  {
    var s := NatToString(n);
    if n >= 10 {
      ParseNatToString(n / 10);
      assert s[..|s| - 1] == NatToString(n / 10);
    }
  }

  /** Distinct numbers have distinct decimal strings. */
  lemma NatToStringInjective(m: nat, n: nat)
    requires NatToString(m) == NatToString(n)
    ensures m == n
  {
    ParseNatToString(m);
    ParseNatToString(n);
  }

  /** `str(i)` for any integer: a minus sign before the digits of a
      negative number. */
  function IntToString(i: int): string
  {
    if i < 0 then "-" + NatToString(-i) else NatToString(i)
  }

  /** Python 2's `cmp(a, b)` on strings: -1, 0 or 1 as `a` sorts before,
      equal to or after `b`, comparing character codes left to right and a
      proper prefix first. */
  function Cmp(a: string, b: string): (r: int)
    ensures -1 <= r <= 1
    ensures r == 0 <==> a == b
  {
    if a == [] && b == [] then 0
    else if a == [] then -1
    else if b == [] then 1
    else if a[0] < b[0] then -1
    else if a[0] > b[0] then 1
    else
      assert a == [a[0]] + a[1..] && b == [b[0]] + b[1..];
      Cmp(a[1..], b[1..])
  }

  /** Swapping the operands negates the comparison. */
  lemma {:induction false} CmpAntisymmetric(a: string, b: string)
    ensures Cmp(b, a) == -Cmp(a, b)
  {
    if a != [] && b != [] && a[0] == b[0] {
      CmpAntisymmetric(a[1..], b[1..]);
    }
  }

  /** The order `Cmp(a, b) <= 0` is transitive. */
  lemma {:induction false} CmpTransitive(a: string, b: string, c: string)
    requires Cmp(a, b) <= 0 && Cmp(b, c) <= 0
    ensures Cmp(a, c) <= 0
  {
    if a != [] && b != [] && c != [] && a[0] == b[0] && b[0] == c[0] {
      CmpTransitive(a[1..], b[1..], c[1..]);
    }
  }

  /** The order `Cmp(a, b) <= 0` is total. */
  lemma CmpTotal(a: string, b: string)
    ensures Cmp(a, b) <= 0 || Cmp(b, a) <= 0
  {
    CmpAntisymmetric(a, b);
  }

  /** `c.lower()` on one character: ASCII capitals become small letters. */
  function LowerChar(c: char): char
  {
    if 'A' <= c <= 'Z' then (c as int + 32) as char else c
  }

  /** `s.lower()` on a byte string: characters outside `A`..`Z` are kept. */
  function Lower(s: string): (r: string)
  {
    seq(|s|, i requires 0 <= i < |s| => LowerChar(s[i]))
  }

  /** No capital letter survives `Lower`, the length is kept, and lowering
      twice is lowering once. */
  lemma LowerProperties(s: string)
    ensures |Lower(s)| == |s|
    ensures forall i :: 0 <= i < |s| ==> !('A' <= Lower(s)[i] <= 'Z')
    ensures Lower(Lower(s)) == Lower(s)
  {
  }
}
