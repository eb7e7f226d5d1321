/** The doctests of relais/dev/rcheck.py, for the value 5. */
module RCheckDoctests {
  import opened Results
  import opened RCheck
  import Strings

  /** The decimal forms of the small numbers the doctests use. */
  lemma SmallNumbers()
    ensures Strings.IntToString(4) == "4" && Strings.IntToString(5) == "5" && Strings.IntToString(6) == "6"
  {
    assert Strings.DigitChar(4) == '4' && Strings.DigitChar(5) == '5' && Strings.DigitChar(6) == '6';
  }

  /** The doctest: 5 against `['z', 6]`. */
  lemma AssertValEqualExample()
    ensures AssertValEqual(PyInt(5), PyList([PyStr("z"), PyInt(6)])) == Fail(AssertionError("found '5', expected one of '['z', 6]'"))
    ensures AssertValEqual(PyInt(5), PyList([PyStr("a"), PyInt(4), PyInt(5)])) == Pass
  {
    var zs := [PyStr("z"), PyInt(6)];
    SmallNumbers();
    assert zs[1..] == [PyInt(6)] && [PyInt(6)][1..] == [];
    var six := Repr(PyInt(6));
    var z := Repr(PyStr("z"));
    assert ReprItems(zs) == [z, six];
    assert Strings.Join(", ", [z, six]) == z + ", " + six;
    ValEqualMessage(Str(PyInt(5)), z, six);
  }

  lemma ValEqualMessage(five: string, z: string, six: string)
    requires five == "5" && z == "'z'" && six == "6"
    ensures "found '" + five + "', expected one of '" + ("[" + (z + ", " + six) + "]") + "'" == "found '5', expected one of '['z', 6]'"
  {
  }

  /** The doctest for a type mismatch: 5 is not like `'a'`, but is like
      `['a', 10]`; the message shows the value and names its type and the
      types of the allowed values. */
  lemma AssertTypeLikeExample()
    ensures AssertTypeLike(PyInt(5), PyList([PyStr("a"), PyInt(10)])) == Pass
    ensures AssertTypeLike(PyInt(5), PyList([PyStr("a")])) ==
      Fail(AssertionError("found '" + "5" + "' of type '" + "<type 'int'>" + "', expected one of [" + "<type 'str'>" + "]"))
  {
    SmallNumbers();
    assert TypesOf([PyStr("a")]) == [StrType];
    assert [StrType][1..] == [];
    assert TypeReprs([StrType]) == [TypeRepr(StrType)];
    assert Strings.Join(", ", [TypeRepr(StrType)]) == TypeRepr(StrType);
    assert TypeRepr(IntType) == "<type 'int'>" && TypeRepr(StrType) == "<type 'str'>";
  }

  /** The doctests for 5: both ends inclusive, and the two messages. */
  lemma AssertInBoundsExamples()
    ensures AssertInBounds(5, 5, 5) == Pass && AssertInBounds(5, 0, 10) == Pass
    ensures AssertInBounds(5, 6, 10) == Fail(AssertionError("'5' is less than lower bound '6'"))
    ensures AssertInBounds(5, 0, 4) == Fail(AssertionError("'5' is greater than upper bound '4'"))
  {
    SmallNumbers();
    LowerBoundMessage(Strings.IntToString(5), Strings.IntToString(6));
    UpperBoundMessage(Strings.IntToString(5), Strings.IntToString(4));
  }

  lemma LowerBoundMessage(five: string, six: string)
    requires five == "5" && six == "6"
    ensures "'" + five + "' is less than lower bound '" + six + "'" == "'5' is less than lower bound '6'"
  {
  }

  lemma UpperBoundMessage(five: string, four: string)
    requires five == "5" && four == "4"
    ensures "'" + five + "' is greater than upper bound '" + four + "'" == "'5' is greater than upper bound '4'"
  {
  }
}
