/** The text form of objects (relais/dev/reprobj.py): the class name and
    the fields listed in `_repr_fields`, sorted alphabetically, each shown as
    `name: 'value'`. An object is modelled by its class name, its field list
    and the `str` of each attribute it has. */
module ReprObj {
  import opened Strings

  /** `a` sorts no later than `b` under Python's string comparison. */
  predicate Le(a: string, b: string)
  {
    Cmp(a, b) <= 0
  }

  predicate SortedStrings(xs: seq<string>)
  {
    forall i, j :: 0 <= i < j < |xs| ==> Le(xs[i], xs[j])
  }

  /** Insert `x` into a sorted list, before the first element it does not
      sort after. */
  function Insert(x: string, xs: seq<string>): (r: seq<string>)
    requires SortedStrings(xs)
    ensures SortedStrings(r)
    ensures multiset(r) == multiset(xs) + multiset{x}
  {
    if xs == [] then [x]
    else if Le(x, xs[0]) then
      assert forall j :: 0 <= j < |xs| ==> Le(x, xs[j]) by {
        forall j | 0 <= j < |xs| ensures Le(x, xs[j]) {
          CmpTransitive(x, xs[0], xs[j]);
        }
      }
      [x] + xs
    else
      var rest := Insert(x, xs[1..]);
      CmpTotal(x, xs[0]);
      assert forall j :: 0 <= j < |rest| ==> Le(xs[0], rest[j]) by {
        forall j | 0 <= j < |rest| ensures Le(xs[0], rest[j]) {
          assert rest[j] in multiset(rest);
          assert rest[j] == x || rest[j] in multiset(xs[1..]);
          if rest[j] != x {
            var k :| 0 <= k < |xs[1..]| && xs[1..][k] == rest[j];
            assert xs[1..][k] == xs[k + 1];
          }
        }
      }
      assert xs == [xs[0]] + xs[1..];
      [xs[0]] + rest
  }

  /** `sorted(fields)` for strings: sorted and a permutation of its input. */
  function Sort(xs: seq<string>): (r: seq<string>)
    ensures SortedStrings(r)
    ensures multiset(r) == multiset(xs)
  {
    if xs == [] then []
    else
      assert xs == [xs[0]] + xs[1..];
      Insert(xs[0], Sort(xs[1..]))
  }

  /** The first element of a non-empty sorted list sorts no later than
      any element of the list. */
  lemma SortedHeadFirst(xs: seq<string>, y: string)
    requires SortedStrings(xs) && y in xs
    ensures Le(xs[0], y)
  {
    var k :| 0 <= k < |xs| && xs[k] == y;
    if k > 0 {
      assert Le(xs[0], xs[k]);
    }
  }

  /** Two sorted lists with the same elements start with the same one. */
  lemma SortedHeadsEqual(a: seq<string>, b: seq<string>)
    requires SortedStrings(a) && SortedStrings(b)
    requires multiset(a) == multiset(b) && a != []
    ensures b != [] && a[0] == b[0]
  {
    assert a[0] in multiset(b);
    assert b[0] in multiset(a);
    SortedHeadFirst(a, b[0]);
    SortedHeadFirst(b, a[0]);
    CmpAntisymmetric(a[0], b[0]);
  }

  /** Removing equal heads keeps the multisets equal. */
  lemma TailsSameElements(a: seq<string>, b: seq<string>)
    requires a != [] && b != [] && a[0] == b[0] && multiset(a) == multiset(b)
    ensures multiset(a[1..]) == multiset(b[1..])
  {
    assert a == [a[0]] + a[1..] && b == [b[0]] + b[1..];
    assert multiset(a) == multiset{a[0]} + multiset(a[1..]);
    assert multiset(b) == multiset{b[0]} + multiset(b[1..]);
    assert multiset(a[1..]) == multiset(a) - multiset{a[0]};
  }

  /** A sorted permutation is unique: two sorted lists with the same
      elements are the same list. */
  lemma {:induction false} SortedUnique(a: seq<string>, b: seq<string>)
    requires SortedStrings(a) && SortedStrings(b)
    requires multiset(a) == multiset(b)
    ensures a == b
    decreases |a|
  {
    if a == [] {
      assert |multiset(b)| == 0;
    } else {
      SortedHeadsEqual(a, b);
      TailsSameElements(a, b);
      SortedUnique(a[1..], b[1..]);
      assert a == [a[0]] + a[1..] && b == [b[0]] + b[1..];
    }
  }

  /** `getattr(self, field, '?')`, shown with `%s`. */
  function FieldValue(attrs: map<string, string>, field: string): string
  {
    if field in attrs then attrs[field] else "?"
  }

  /** One field as `name: 'value'`. */
  function FieldText(attrs: map<string, string>, field: string): string
  {
    field + ": '" + FieldValue(attrs, field) + "'"
  }

  /** The list comprehension: each field rendered, in the given order. */
  function FieldTexts(attrs: map<string, string>, fields: seq<string>): (r: seq<string>)
    ensures |r| == |fields|
    ensures forall i :: 0 <= i < |fields| ==> r[i] == FieldText(attrs, fields[i])
  {
    if fields == [] then [] else [FieldText(attrs, fields[0])] + FieldTexts(attrs, fields[1..])
  }

  /** `__unicode__`: `ClassName (f1: 'v1', f2: 'v2')` over the sorted
      fields. */
  function Unicode(className: string, reprFields: seq<string>, attrs: map<string, string>): string
  {
    className + " (" + Join(", ", FieldTexts(attrs, Sort(reprFields))) + ")"
  }

  /** `__str__`: the UTF-8 encoding of the unicode form, the same text for
      the strings modelled here. */
  function Str(className: string, reprFields: seq<string>, attrs: map<string, string>): (r: string)
    ensures r == Unicode(className, reprFields, attrs)
  {
    Unicode(className, reprFields, attrs)
  }

  /** `__repr__`: `str(self)`. */
  function Repr(className: string, reprFields: seq<string>, attrs: map<string, string>): (r: string)
    ensures r == Unicode(className, reprFields, attrs)
  {
    Str(className, reprFields, attrs)
  }

  /** The declaration order of the fields does not matter: any two field
      lists with the same elements render identically. */
  lemma UnicodeOrderIndependent(className: string, f1: seq<string>, f2: seq<string>, attrs: map<string, string>)
    requires multiset(f1) == multiset(f2)
    ensures Unicode(className, f1, attrs) == Unicode(className, f2, attrs)
  {
    SortedUnique(Sort(f1), Sort(f2));
  }

  /** The text opens with the class name and ` (` and closes with `)`;
      an empty field list gives `ClassName ()`. */
  lemma UnicodeShape(className: string, reprFields: seq<string>, attrs: map<string, string>)
    ensures var text := Unicode(className, reprFields, attrs);
      |text| >= |className| + 3 && text[..|className| + 2] == className + " (" && text[|text| - 1] == ')'
    ensures reprFields == [] ==> Unicode(className, reprFields, attrs) == className + " ()"
  {
    var inner := Join(", ", FieldTexts(attrs, Sort(reprFields)));
    assert Unicode(className, reprFields, attrs) == (className + " (") + (inner + ")");
  }

  /** Two fields sort alphabetically whichever way they are declared. */
  lemma SortTwo(f: string, g: string)
    requires Cmp(f, g) < 0
    ensures Sort([g, f]) == [f, g] && Sort([f, g]) == [f, g]
  {
    CmpAntisymmetric(f, g);
    assert [g, f][1..] == [f] && [f, g][1..] == [g];
    assert [f][1..] == [] && [g][1..] == [];
    assert Sort([f]) == [f] && Sort([g]) == [g];
    assert Insert(g, [f]) == [f] + Insert(g, []);
  }

  /** Two fields render in alphabetical order whichever way they are
      declared. */
  lemma TwoFields(className: string, f: string, g: string, attrs: map<string, string>)
    requires Cmp(f, g) < 0
    ensures Unicode(className, [g, f], attrs) == className + " (" + FieldText(attrs, f) + ", " + FieldText(attrs, g) + ")"
  {
    SortTwo(f, g);
    var texts := FieldTexts(attrs, [f, g]);
    assert texts == [FieldText(attrs, f), FieldText(attrs, g)];
    assert texts[1..] == [FieldText(attrs, g)];
    assert Join(", ", texts) == FieldText(attrs, f) + ", " + FieldText(attrs, g);
  }
}
