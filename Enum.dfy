/** Ordinal enumerations (relais/dev/enum.py): `Enum(*names)` makes one
    enumeration object whose values carry their ordinal and their
    enumeration, compare by ordinal within one enumeration, and invert
    with `~` to the mirror ordinal. */
module Enum {
  import opened Results

  /** Python 2's `cmp` on integers. */
  function CmpInt(a: int, b: int): (r: int)
    ensures r == -1 <==> a < b
    ensures r == 0 <==> a == b
    ensures r == 1 <==> a > b
  {
    if a < b then -1 else if a == b then 0 else 1
  }

  /** An `EnumValue`: its ordinal, and the enumeration object it belongs to
      (its `EnumType`). */
  datatype EnumValue = EnumValue(owner: EnumClass, value: nat)

  /** The `EnumClass` instance `Enum` returns, with the tuple `constants`
      it closes over. */
  class EnumClass {
    const names: seq<string>
    var constants: seq<EnumValue>

    /** The `i`-th constant is the value with ordinal `i` of this enum. */
    ghost predicate Valid()
      reads this
    {
      |constants| == |names| &&
      forall i :: 0 <= i < |constants| ==> constants[i] == EnumValue(this, i)
    }

    /** `Enum(*names)`: one value per name, made in order by the filling
        loop, the `i`-th with ordinal `i`. */
    constructor (names: seq<string>)
      ensures Valid() && this.names == names
    {
      this.names := names;
      constants := [];
      new;
      for i := 0 to |names|
        invariant |constants| == i
        invariant forall j :: 0 <= j < i ==> constants[j] == EnumValue(this, j)
      {
        constants := constants + [EnumValue(this, i)];
      }
    }

    /** `len(enum)`: the number of names. */
    function Len(): (n: nat)
      requires Valid()
      reads this
      ensures n == |names|
    {
      |constants|
    }

    /** `iter(enum)`: the values in ordinal order. */
    function Iter(): (vs: seq<EnumValue>)
      requires Valid()
      reads this
      ensures |vs| == |names|
      ensures forall i :: 0 <= i < |vs| ==> vs[i].owner == this && vs[i].value == i
    {
      constants
    }

    /** `enum[i]`: tuple indexing, negative indices counting from the end,
        anything else out of range an `IndexError`. */
    function GetItem(i: int): (r: Result<EnumValue>)
      requires Valid()
      reads this
      ensures r.Ok? <==> -|names| <= i < |names|
      ensures r.Ok? ==> r.value == EnumValue(this, if i < 0 then i + |names| else i)
      ensures r.Err? ==> r.error == IndexError
    {
      if 0 <= i < |constants| then Ok(constants[i])
      else if -|constants| <= i < 0 then Ok(constants[i + |constants|])
      else Err(IndexError)
    }

    /** The position a name is bound to: the last one, since a later
        `setattr` of the same name replaces an earlier one. */
    function LastIndexOf(name: string, upTo: nat): (r: int)
      requires upTo <= |names|
      ensures -1 <= r < upTo
      ensures r >= 0 ==> names[r] == name && forall j :: r < j < upTo ==> names[j] != name
      ensures r == -1 ==> forall j :: 0 <= j < upTo ==> names[j] != name
    {
      if upTo == 0 then -1
      else if names[upTo - 1] == name then upTo - 1
      else LastIndexOf(name, upTo - 1)
    }

    /** `enum.name`: the value the factory bound to that name. */
    function Attr(name: string): (r: Result<EnumValue>)
      ensures r.Ok? <==> name in names
      ensures r.Ok? ==> r.value.owner == this && r.value.value < |names| && names[r.value.value] == name
    {
      var i := LastIndexOf(name, |names|);
      if i < 0 then Err(AttributeError(name)) else Ok(EnumValue(this, i))
    }

    /** `~v`: the constant at the mirror position `(n - 1) - ordinal`. */
    function Invert(v: EnumValue): (r: EnumValue)
      requires Valid() && v.owner == this && v.value < |names|
      reads this
      ensures r.owner == this && r.value == |names| - 1 - v.value
    {
      constants[|names| - 1 - v.value]
    }

    /** `~` is an involution. */
    lemma InvertInvolutive(v: EnumValue)
      requires Valid() && v.owner == this && v.value < |names|
      ensures Invert(Invert(v)) == v
    {
    }

    /** `~` reverses the order of values. */
    lemma InvertReversesOrder(a: EnumValue, b: EnumValue)
      requires Valid() && a.owner == this && b.owner == this
      requires a.value < |names| && b.value < |names|
      ensures Cmp(Invert(a), Invert(b)) == Cmp(b, a)
    {
    }

    /** With distinct names, each name gives the value at its position. */
    lemma AttrOfName(i: nat)
      requires Valid() && i < |names|
      requires forall j, k :: 0 <= j < k < |names| ==> names[j] != names[k]
      ensures Attr(names[i]) == Ok(constants[i])
      ensures Repr(Attr(names[i]).value) == names[i]
    {
    }

    /** Iteration and indexing agree, and index -1 is the last value. */
    lemma GetItemMatchesIter(i: nat)
      requires Valid() && i < |names|
      ensures GetItem(i) == Ok(Iter()[i])
      ensures GetItem(-1) == Ok(Iter()[|names| - 1])
    {
    }
  }

  /** `__cmp__`: values of one enumeration compare by ordinal; comparing
      values of different enumerations fails its assertion. */
  function Cmp(a: EnumValue, b: EnumValue): (r: Result<int>)
    ensures r.Err? <==> a.owner != b.owner
    ensures r.Err? ==> r.error == AssertionError("Only values from the same enum are comparable")
    ensures r.Ok? ==> (r.value < 0 <==> a.value < b.value) && (r.value == 0 <==> a == b)
    ensures r.Ok? ==> -1 <= r.value <= 1
  {
    if a.owner != b.owner then Err(AssertionError("Only values from the same enum are comparable"))
    else Ok(CmpInt(a.value, b.value))
  }

  /** `__hash__`: the hash of the ordinal, itself for small non-negative
      integers. */
  function Hash(v: EnumValue): int
  {
    v.value
  }

  /** Values that compare equal have equal hashes. */
  lemma HashConsistent(a: EnumValue, b: EnumValue)
    requires Cmp(a, b) == Ok(0)
    ensures Hash(a) == Hash(b)
  {
  }

  /** `__nonzero__`: a value is false exactly when its ordinal is 0. */
  function Nonzero(v: EnumValue): (r: bool)
    ensures r <==> v.value != 0
  {
    v.value != 0
  }

  /** `__repr__`: the value's name. */
  function Repr(v: EnumValue): (r: string)
    requires v.value < |v.owner.names|
    ensures r == v.owner.names[v.value]
  {
    v.owner.names[v.value]
  }
}
