/** Run-time checks (relais/dev/rcheck.py): wrapping single values as
    sequences, and assertions that pass or fail with an `AssertionError`
    carrying the source's message. Python values are modelled by the kinds
    these checks tell apart. */
module RCheck {
  import opened Results
  import Strings

  datatype PyValue =
    | PyInt(i: int)
    | PyBool(b: bool)
    | PyStr(s: string)
    | PyNone
    | PyList(items: seq<PyValue>)
    | PyTuple(items: seq<PyValue>)

  datatype PyType = IntType | BoolType | StrType | NoneType | ListType | TupleType

  /** `type(v)`. */
  function TypeOf(v: PyValue): PyType
  {
    match v
    case PyInt(_) => IntType
    case PyBool(_) => BoolType
    case PyStr(_) => StrType
    case PyNone => NoneType
    case PyList(_) => ListType
    case PyTuple(_) => TupleType
  }

  /** The number a boolean stands for in comparisons. */
  function BoolInt(b: bool): int
  {
    if b then 1 else 0
  }

  /** Python's `==`: numbers compare by value (`True == 1`), a string only
      equals a string, a list only a list and a tuple only a tuple, item by
      item. */
  function PyEq(a: PyValue, b: PyValue): bool
    decreases a
  {
    match (a, b)
    case (PyInt(x), PyInt(y)) => x == y
    case (PyInt(x), PyBool(y)) => x == BoolInt(y)
    case (PyBool(x), PyInt(y)) => BoolInt(x) == y
    case (PyBool(x), PyBool(y)) => x == y
    case (PyStr(x), PyStr(y)) => x == y
    case (PyNone, PyNone) => true
    case (PyList(xs), PyList(ys)) => ItemsEq(xs, ys)
    case (PyTuple(xs), PyTuple(ys)) => ItemsEq(xs, ys)
    case _ => false
  }

  /** Item-wise `==` of two sequences of the same length. */
  function ItemsEq(xs: seq<PyValue>, ys: seq<PyValue>): bool
    decreases xs
  {
    |xs| == |ys| && (xs == [] || (PyEq(xs[0], ys[0]) && ItemsEq(xs[1..], ys[1..])))
  }

  /** Every value equals itself. */
  lemma {:induction false} PyEqReflexive(v: PyValue)
    ensures PyEq(v, v)
    decreases v
  {
    match v
    case PyList(xs) => ItemsEqReflexive(xs);
    case PyTuple(xs) => ItemsEqReflexive(xs);
    case _ =>
  }

  lemma {:induction false} ItemsEqReflexive(xs: seq<PyValue>)
    ensures ItemsEq(xs, xs)
    decreases xs
  {
    if xs != [] {
      PyEqReflexive(xs[0]);
      ItemsEqReflexive(xs[1..]);
    }
  }

  /** `x in xs`: some item equals `x`. */
  function Contains(xs: seq<PyValue>, x: PyValue): (r: bool)
    ensures r <==> exists i :: 0 <= i < |xs| && PyEq(x, xs[i])
  {
    if xs == [] then false
    else
      assert forall i :: 1 <= i < |xs| ==> xs[i] == xs[1..][i - 1];
      PyEq(x, xs[0]) || Contains(xs[1..], x)
  }

  /** `is_sequence`: the object is a list or a tuple. */
  predicate IsSequence(v: PyValue)
  {
    TypeOf(v) == ListType || TypeOf(v) == TupleType
  }

  /** `make_sequence`: lists and tuples as they are, anything else (a string
      included) in a list of one. */
  function MakeSequence(v: PyValue): (r: PyValue)
    ensures IsSequence(r)
    ensures IsSequence(v) ==> r == v
    ensures !IsSequence(v) ==> r == PyList([v])
  {
    if IsSequence(v) then v else PyList([v])
  }

  /** The items of a wrapped value. */
  function Items(v: PyValue): seq<PyValue>
  {
    if v.PyList? || v.PyTuple? then v.items else []
  }

  /** Wrapping twice is wrapping once. */
  lemma MakeSequenceIdempotent(v: PyValue)
    ensures MakeSequence(MakeSequence(v)) == MakeSequence(v)
  {
  }

  /** A string is wrapped whole, not split into characters. */
  lemma MakeSequenceString(s: string)
    ensures Items(MakeSequence(PyStr(s))) == [PyStr(s)]
  {
  }

  /** `str(v)`: the value as `%s` shows it. */
  function Str(v: PyValue): string
  {
    if v.PyStr? then v.s else Repr(v)
  }

  /** `repr(v)`: strings in single quotes (escaping is not modelled), lists
      in brackets, tuples in parentheses with a trailing comma for one item. */
  function Repr(v: PyValue): string
    decreases v, 1
  {
    match v
    case PyInt(i) => Strings.IntToString(i)
    case PyBool(b) => if b then "True" else "False"
    case PyStr(s) => "'" + s + "'"
    case PyNone => "None"
    case PyList(xs) => "[" + Strings.Join(", ", ReprItems(xs)) + "]"
    case PyTuple(xs) => if |xs| == 1 then "(" + ReprItems(xs)[0] + ",)" else "(" + Strings.Join(", ", ReprItems(xs)) + ")"
  }

  function ReprItems(xs: seq<PyValue>): (r: seq<string>)
    ensures |r| == |xs|
    decreases xs, 0
  {
    if xs == [] then [] else [Repr(xs[0])] + ReprItems(xs[1..])
  }

  /** `assert_val_equal`: passes iff `v` equals one of the allowed values,
      a single allowed value counting as a list of one. */
  function AssertValEqual(v: PyValue, allowed: PyValue): (r: Outcome)
    ensures r.Pass? <==> exists i :: 0 <= i < |Items(MakeSequence(allowed))| && PyEq(v, Items(MakeSequence(allowed))[i])
    ensures r.Fail? ==> r.error == AssertionError("found '" + Str(v) + "', expected one of '" + Str(allowed) + "'")
  {
    if Contains(Items(MakeSequence(allowed)), v) then Pass
    else Fail(AssertionError("found '" + Str(v) + "', expected one of '" + Str(allowed) + "'"))
  }

  /** A single allowed value and a list holding just it are interchangeable;
      a value always passes against itself. */
  lemma AssertValEqualSingle(v: PyValue, x: PyValue)
    requires !IsSequence(x)
    ensures AssertValEqual(v, x).Pass? == AssertValEqual(v, PyList([x])).Pass?
    ensures AssertValEqual(x, x).Pass?
  {
    PyEqReflexive(x);
    assert Items(MakeSequence(x)) == [x];
  }

  /** The loop of `assert_vals_in`: the first item not among the allowed
      values fails, naming it and the (wrapped) allowed values. */
  function CheckAllIn(vs: seq<PyValue>, allowed: PyValue): (r: Outcome)
    ensures r.Pass? <==> forall i :: 0 <= i < |vs| ==> Contains(Items(allowed), vs[i])
    ensures r.Fail? ==>
      exists k :: 0 <= k < |vs| && !Contains(Items(allowed), vs[k]) &&
        (forall i :: 0 <= i < k ==> Contains(Items(allowed), vs[i])) &&
        r.error == AssertionError("'" + Str(vs[k]) + "' not in '" + Str(allowed) + "'")
  {
    if vs == [] then Pass
    else if !Contains(Items(allowed), vs[0]) then Fail(AssertionError("'" + Str(vs[0]) + "' not in '" + Str(allowed) + "'"))
    else
      var rest := CheckAllIn(vs[1..], allowed);
      assert forall i :: 1 <= i < |vs| ==> vs[i] == vs[1..][i - 1];
      if rest.Fail? then
        var k :| 0 <= k < |vs[1..]| && !Contains(Items(allowed), vs[1..][k]) &&
          (forall i :: 0 <= i < k ==> Contains(Items(allowed), vs[1..][i])) &&
          rest.error == AssertionError("'" + Str(vs[1..][k]) + "' not in '" + Str(allowed) + "'");
        assert !Contains(Items(allowed), vs[k + 1]);
        rest
      else rest
  }

  /** `assert_vals_in`: both arguments are wrapped, then every value must be
      among the allowed ones. */
  function AssertValsIn(v: PyValue, allowed: PyValue): (r: Outcome)
    ensures r.Pass? <==> forall i :: 0 <= i < |Items(MakeSequence(v))| ==> Contains(Items(MakeSequence(allowed)), Items(MakeSequence(v))[i])
  {
    CheckAllIn(Items(MakeSequence(v)), MakeSequence(allowed))
  }

  /** A single value is checked like a list holding it, and every list of
      allowed values accepts its own items. */
  lemma AssertValsInLaws(v: PyValue, xs: seq<PyValue>)
    requires !IsSequence(v)
    ensures AssertValsIn(v, PyList(xs)).Pass? <==> Contains(xs, v)
    ensures AssertValsIn(PyList(xs), PyList(xs)).Pass?
  {
    assert AssertValsIn(v, PyList(xs)).Pass? <==> Contains(xs, v) by {
      assert Items(MakeSequence(v)) == [v];
    }
    assert AssertValsIn(PyList(xs), PyList(xs)).Pass? by {
      forall i | 0 <= i < |xs| ensures Contains(xs, xs[i]) {
        PyEqReflexive(xs[i]);
      }
    }
  }

  /** `repr` of a type object. */
  function TypeRepr(t: PyType): string
  {
    "<type '" + (match t
      case IntType => "int"
      case BoolType => "bool"
      case StrType => "str"
      case NoneType => "NoneType"
      case ListType => "list"
      case TupleType => "tuple") + "'>"
  }

  function TypeReprs(ts: seq<PyType>): (r: seq<string>)
    ensures |r| == |ts|
  {
    if ts == [] then [] else [TypeRepr(ts[0])] + TypeReprs(ts[1..])
  }

  /** `assert_type` with a list of type objects: passes iff the value's type
      is one of them. */
  function AssertType(v: PyValue, types: seq<PyType>): (r: Outcome)
    ensures r.Pass? <==> TypeOf(v) in types
    ensures r.Fail? ==> r.error == AssertionError("found '" + Str(v) + "' of type '" + TypeRepr(TypeOf(v)) +
      "', expected one of [" + Strings.Join(", ", TypeReprs(types)) + "]")
  {
    if TypeOf(v) in types then Pass
    else Fail(AssertionError("found '" + Str(v) + "' of type '" + TypeRepr(TypeOf(v)) +
      "', expected one of [" + Strings.Join(", ", TypeReprs(types)) + "]"))
  }

  /** The types of a list of values, in order. */
  function TypesOf(xs: seq<PyValue>): (r: seq<PyType>)
    ensures |r| == |xs|
    ensures forall i :: 0 <= i < |xs| ==> r[i] == TypeOf(xs[i])
  {
    if xs == [] then [] else [TypeOf(xs[0])] + TypesOf(xs[1..])
  }

  /** `assert_type_like`: passes iff the value has the type of one of the
      allowed values. */
  function AssertTypeLike(v: PyValue, allowed: PyValue): (r: Outcome)
    ensures r.Pass? <==> exists i :: 0 <= i < |Items(MakeSequence(allowed))| && TypeOf(Items(MakeSequence(allowed))[i]) == TypeOf(v)
  {
    var types := TypesOf(Items(MakeSequence(allowed)));
    assert forall t :: t in types <==> exists i :: 0 <= i < |types| && types[i] == t;
    AssertType(v, types)
  }

  /** `assert_in_bounds`: the lower bound is checked first, both bounds are
      inclusive. */
  function AssertInBounds(v: int, lower: int, upper: int): (r: Outcome)
    ensures r.Pass? <==> lower <= v <= upper
    ensures v < lower ==> r == Fail(AssertionError("'" + Strings.IntToString(v) + "' is less than lower bound '" + Strings.IntToString(lower) + "'"))
    ensures lower <= v && upper < v ==> r == Fail(AssertionError("'" + Strings.IntToString(v) + "' is greater than upper bound '" + Strings.IntToString(upper) + "'"))
  {
    if !(lower <= v) then Fail(AssertionError("'" + Strings.IntToString(v) + "' is less than lower bound '" + Strings.IntToString(lower) + "'"))
    else if !(v <= upper) then Fail(AssertionError("'" + Strings.IntToString(v) + "' is greater than upper bound '" + Strings.IntToString(upper) + "'"))
    else Pass
  }

  /** `failure`: always fails; the message is `shouldn't get here`, followed
      by `: ` and the message when one is given and non-empty. */
  function Failure(msg: Option<string>): (r: Outcome)
    ensures r.Fail? && r.error.AssertionError?
    ensures |r.error.message| >= 18 && r.error.message[..18] == "shouldn't get here"
    ensures (msg.None? || msg.value == "") <==> r.error.message == "shouldn't get here"
    ensures msg.Some? && msg.value != "" ==> r.error.message[18..] == ": " + msg.value
  {
    var finalMsg := "shouldn't get here";
    if msg.Some? && msg.value != "" then Fail(AssertionError(finalMsg + ": " + msg.value))
    else Fail(AssertionError(finalMsg))
  }
}
