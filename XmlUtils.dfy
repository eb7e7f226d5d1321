/** Pretty-printing an element tree (relais/dev/xml/utils.py): `indent`
    rewrites, in place, the `text` and `tail` of the elements so that each
    element starts on its own line, indented by `ind` per level. An element
    is a class whose tag, attributes and children are fixed and whose text
    and tail change; its values are read through a `Tree` snapshot, on which
    the effect of `indent` is specified. */
module XmlUtils {
  import opened Results

  /** A character `str.strip()` removes. */
  predicate IsSpace(c: char)
  {
    c == ' ' || c == '\t' || c == '\n' || c == '\r' || c as int == 11 || c as int == 12
  }

  predicate IsWhitespace(s: string)
  {
    forall i :: 0 <= i < |s| ==> IsSpace(s[i])
  }

  /** `not s or not s.strip()`: missing, empty or only whitespace. */
  predicate IsBlank(s: Option<string>)
  {
    s.None? || IsWhitespace(s.value)
  }

  /** `n * s`: `s` repeated `n` times, empty for `n <= 0`. */
  function Repeat(s: string, n: int): (r: string)
    ensures |r| == if n <= 0 then 0 else n * |s|
    decreases if n <= 0 then 0 else n
  {
    if n <= 0 then "" else Repeat(s, n - 1) + s
  }

  /** The value of an element and everything under it. */
  datatype Tree = Node(tag: string, attrib: map<string, string>, text: Option<string>, tail: Option<string>, kids: seq<Tree>)

  /** `indent(elem, level, ind)` on values: a blank text of an element with
      children becomes a new line indented one level deeper; the children
      are indented one level deeper; then the last child's tail, if blank,
      becomes a new line at this level; finally a blank tail of a non-root
      element becomes a new line at this level. */
  function IndentTree(t: Tree, level: int, ind: string): (r: Tree)
    decreases t, 1
  {
    var i := "\n" + Repeat(ind, level);
    Node(t.tag, t.attrib,
      if |t.kids| > 0 && IsBlank(t.text) then Some(i + ind) else t.text,
      if level != 0 && IsBlank(t.tail) then Some(i) else t.tail,
      if |t.kids| > 0 then CloseLast(IndentAll(t.kids, level + 1, ind), i) else t.kids)
  }

  /** The loop over the children: each indented at `level`. */
  function IndentAll(ks: seq<Tree>, level: int, ind: string): (r: seq<Tree>)
    decreases ks, 0
  {
    seq(|ks|, k requires 0 <= k < |ks| => IndentTree(ks[k], level, ind))
  }

  lemma IndentAllAt(ks: seq<Tree>, level: int, ind: string)
    ensures |IndentAll(ks, level, ind)| == |ks|
    ensures forall k :: 0 <= k < |ks| ==> IndentAll(ks, level, ind)[k] == IndentTree(ks[k], level, ind)
  {
  }

  /** After the loop: the last child's tail, if blank, becomes `i`. */
  function CloseLast(kids: seq<Tree>, i: string): (r: seq<Tree>)
    requires |kids| > 0
  {
    var last := kids[|kids| - 1];
    kids[..|kids| - 1] + [if IsBlank(last.tail) then last.(tail := Some(i)) else last]
  }

  /** `level * ind + ind` is `(level + 1) * ind`. */
  lemma {:induction false} RepeatOneMore(s: string, n: int)
    requires n >= 0
    ensures Repeat(s, n) + s == Repeat(s, n + 1)
  {
  }

  /** An indentation string made of whitespace gives whitespace lines. */
  lemma {:induction false} RepeatWhitespace(s: string, n: int)
    requires IsWhitespace(s)
    ensures IsWhitespace("\n" + Repeat(s, n))
    decreases if n <= 0 then 0 else n
  {
    if n > 0 {
      RepeatWhitespace(s, n - 1);
      var r := Repeat(s, n - 1);
      assert "\n" + Repeat(s, n) == ("\n" + r) + s;
    }
  }

  /** The element's own text and tail. */
  lemma IndentOwnFields(t: Tree, level: int, ind: string)
    requires level >= 0
    ensures IndentTree(t, level, ind).text ==
      if |t.kids| > 0 && IsBlank(t.text) then Some("\n" + Repeat(ind, level + 1)) else t.text
    ensures IndentTree(t, level, ind).tail ==
      if level != 0 && IsBlank(t.tail) then Some("\n" + Repeat(ind, level)) else t.tail
    ensures level == 0 ==> IndentTree(t, level, ind).tail == t.tail
  {
    RepeatOneMore(ind, level);
    assert "\n" + Repeat(ind, level) + ind == "\n" + (Repeat(ind, level) + ind);
  }

  /** With a whitespace indentation, every child but the last is indented
      one level deeper, and the last child's blank tail is a new line at the
      element's own level, replacing the one its own call set. */
  lemma IndentChildren(t: Tree, level: int, ind: string)
    requires level >= 0 && IsWhitespace(ind) && |t.kids| > 0
    ensures var r := IndentTree(t, level, ind);
      |r.kids| == |t.kids| &&
      (forall k :: 0 <= k < |t.kids| - 1 ==> r.kids[k] == IndentTree(t.kids[k], level + 1, ind)) &&
      r.kids[|t.kids| - 1].tail ==
        (if IsBlank(t.kids[|t.kids| - 1].tail) then Some("\n" + Repeat(ind, level)) else t.kids[|t.kids| - 1].tail)
  {
    var n := |t.kids|;
    var last := t.kids[n - 1];
    IndentOwnFields(last, level + 1, ind);
    RepeatWhitespace(ind, level + 1);
  }

  /** `<a><b/><c/></a>` indented with two spaces: `a`'s text and `b`'s
      tail open an indented line, `c`'s tail goes back to column 0, and the
      root keeps its tail. */
  lemma TwoChildrenExample()
    ensures var r := IndentTree(Node("a", map[], None, None, [Node("b", map[], None, None, []), Node("c", map[], None, None, [])]), 0, "  ");
      r.text == Some("\n  ") && r.tail == None && |r.kids| == 2 &&
      r.kids[0] == Node("b", map[], None, Some("\n  "), []) &&
      r.kids[1] == Node("c", map[], None, Some("\n"), [])
  {
    var t := Node("a", map[], None, None, [Node("b", map[], None, None, []), Node("c", map[], None, None, [])]);
    var r := IndentTree(t, 0, "  ");
    assert IsWhitespace("  ");
    assert Repeat("  ", 0) == "";
    assert Repeat("  ", 1) == "  ";
    IndentOwnFields(t, 0, "  ");
    IndentChildren(t, 0, "  ");
    IndentOwnFields(t.kids[0], 1, "  ");
    IndentPreserves(t, 0, "  ");
    assert SameShape(t.kids[0], r.kids[0]) && KeepsContent(t.kids[0], r.kids[0]);
    assert SameShape(t.kids[1], r.kids[1]) && KeepsContent(t.kids[1], r.kids[1]);
    assert r.kids[0].kids == [] && r.kids[1].kids == [];
    assert "\n" + Repeat("  ", 0) == "\n";
    assert "\n" + Repeat("  ", 1) == "\n  ";
    assert r.kids[1].tail == Some("\n");
  }

  /** Two trees with the same tags, attributes and children, in the same
      order; only texts and tails may differ. */
  predicate SameShape(t: Tree, u: Tree)
    decreases t
  {
    t.tag == u.tag && t.attrib == u.attrib && |t.kids| == |u.kids| &&
    forall k :: 0 <= k < |t.kids| ==> SameShape(t.kids[k], u.kids[k])
  }

  /** Text that is not blank survives, and so does the text of a leaf. */
  predicate KeepsContent(t: Tree, u: Tree)
    decreases t
  {
    (!IsBlank(t.text) ==> u.text == t.text) &&
    (!IsBlank(t.tail) ==> u.tail == t.tail) &&
    (|t.kids| == 0 ==> u.text == t.text) &&
    |t.kids| == |u.kids| &&
    forall k :: 0 <= k < |t.kids| ==> KeepsContent(t.kids[k], u.kids[k])
  }

  /** `indent` changes only texts and tails, never a non-blank one, and
      never the text of a leaf. */
  lemma {:induction false} IndentPreserves(t: Tree, level: int, ind: string)
    ensures SameShape(t, IndentTree(t, level, ind))
    ensures KeepsContent(t, IndentTree(t, level, ind))
    decreases t
  {
    var r := IndentTree(t, level, ind);
    if |t.kids| > 0 {
      var i := "\n" + Repeat(ind, level);
      var all := IndentAll(t.kids, level + 1, ind);
      IndentAllAt(t.kids, level + 1, ind);
      assert r.kids == CloseLast(all, i);
      forall k | 0 <= k < |t.kids|
        ensures SameShape(t.kids[k], r.kids[k]) && KeepsContent(t.kids[k], r.kids[k])
      {
        IndentPreserves(t.kids[k], level + 1, ind);
        if k == |t.kids| - 1 {
          ShapeIgnoresTail(t.kids[k], all[k], Some(i));
        } else {
          assert r.kids[k] == all[k];
        }
      }
    }
  }

  /** Changing a tail whose old value was blank keeps both relations. */
  lemma ShapeIgnoresTail(t: Tree, u: Tree, tail: Option<string>)
    requires SameShape(t, u) && KeepsContent(t, u)
    ensures SameShape(t, u.(tail := tail))
    ensures IsBlank(u.tail) ==> KeepsContent(t, u.(tail := tail))
  {
  }

  /** The union of the footprints of some elements. */
  ghost function ReprUnion(cs: seq<Element>): set<object>
  {
    if cs == [] then {} else cs[0].Repr() + ReprUnion(cs[1..])
  }

  lemma {:induction false} ReprUnionHas(cs: seq<Element>, k: nat)
    requires k < |cs|
    ensures cs[k].Repr() <= ReprUnion(cs)
  {
    if k > 0 {
      ReprUnionHas(cs[1..], k - 1);
    }
  }

  lemma {:induction false} ReprUnionExcludes(cs: seq<Element>, o: object)
    requires forall k :: 0 <= k < |cs| ==> o !in cs[k].Repr()
    ensures o !in ReprUnion(cs)
    decreases |cs|
  {
    if cs != [] {
      ReprUnionExcludes(cs[1..], o);
    }
  }

  /** A bound on the heights of some elements. */
  ghost function MaxHeight(cs: seq<Element>): (h: nat)
    ensures forall k :: 0 <= k < |cs| ==> cs[k].height <= h
  {
    if cs == [] then 0 else
      var rest := MaxHeight(cs[1..]);
      if cs[0].height > rest then cs[0].height else rest
  }

  /** An element of an ElementTree: tag, attributes and children are fixed
      here, the text and the tail are what `indent` rewrites. */
  class Element {
    const tag: string
    const attrib: map<string, string>
    const children: seq<Element>
    var text: Option<string>
    var tail: Option<string>
    /** Every element below this one. */
    ghost const below: set<object>
    ghost const height: nat

    ghost function Repr(): set<object>
    {
      {this} + below
    }

    /** An element over existing, separate subtrees. */
    constructor (tag: string, attrib: map<string, string>, children: seq<Element>, text: Option<string>, tail: Option<string>)
      requires forall k :: 0 <= k < |children| ==> children[k].Valid()
      requires forall j, k :: 0 <= j < k < |children| ==> children[j].Repr() !! children[k].Repr()
      ensures Valid()
      ensures this.tag == tag && this.attrib == attrib && this.children == children
      ensures this.text == text && this.tail == tail
    {
      this.tag := tag;
      this.attrib := attrib;
      this.children := children;
      this.text := text;
      this.tail := tail;
      below := ReprUnion(children);
      height := MaxHeight(children) + 1;
    }

    /** A proper tree: the children's subtrees are disjoint and do not
        contain this element. */
    ghost predicate Valid()
      decreases height
    {
      below == ReprUnion(children) &&
      (forall k :: 0 <= k < |children| ==> children[k].height < height && this !in children[k].Repr() && children[k].Valid()) &&
      (forall j, k :: 0 <= j < k < |children| ==> children[j].Repr() !! children[k].Repr())
    }

    /** The value of the subtree. */
    ghost function Snapshot(): Tree
      requires Valid()
      reads Repr()
      decreases height, 1, 0
    {
      Node(tag, attrib, text, tail, SnapshotSeq(children, height))
    }

    /** `indent(elem, level, ind)`, in place: the new value of the subtree
        is `IndentTree` of the old one. */
    method Indent(level: int, ind: string)
      requires Valid()
      modifies Repr()
      ensures Snapshot() == IndentTree(old(Snapshot()), level, ind)
      decreases height, 4
    {
      ghost var t := Snapshot();
      var i := "\n" + Repeat(ind, level);
      ReprUnionExcludes(children, this);
      if |children| > 0 {
        IndentContent(level, ind);
      }
      ghost var kids := SnapshotSeq(children, height);
      if level != 0 && IsBlank(tail) {
        tail := Some(i);
      }
      assert SnapshotSeq(children, height) == kids;
    }

    /** The part of `indent` for an element with children: its text, then
        its children. */
    method IndentContent(level: int, ind: string)
      requires Valid() && |children| > 0
      modifies Repr()
      ensures tail == old(tail)
      ensures text == if IsBlank(old(text)) then Some("\n" + Repeat(ind, level) + ind) else old(text)
      ensures SnapshotSeq(children, height) ==
        CloseLast(IndentAll(old(SnapshotSeq(children, height)), level + 1, ind), "\n" + Repeat(ind, level))
      decreases height, 3
    {
      ReprUnionExcludes(children, this);
      if IsBlank(text) {
        text := Some("\n" + Repeat(ind, level) + ind);
      }
      assert SnapshotSeq(children, height) == old(SnapshotSeq(children, height));
      IndentKids(level, ind);
    }

    /** The loop over the children, then the last child's tail. */
    method IndentKids(level: int, ind: string)
      requires Valid() && |children| > 0
      modifies below
      ensures SnapshotSeq(children, height) ==
        CloseLast(IndentAll(old(SnapshotSeq(children, height)), level + 1, ind), "\n" + Repeat(ind, level))
      decreases height, 2
    {
      IndentEach(level + 1, ind);
      ReprUnionHas(children, |children| - 1);
      CloseLastChild("\n" + Repeat(ind, level));
    }

    /** `if not e.tail or not e.tail.strip(): e.tail = i`, with `e` the
        last child left over from the loop. */
    method CloseLastChild(i: string)
      requires Valid() && |children| > 0
      modifies children[|children| - 1]
      ensures SnapshotSeq(children, height) == CloseLast(old(SnapshotSeq(children, height)), i)
    {
      var n := |children|;
      var e := children[n - 1];
      SnapshotSeqElems(children, height);
      ghost var before := SnapshotSeq(children, height);
      ReprUnionExcludes(e.children, e);
      if IsBlank(e.tail) {
        e.tail := Some(i);
        forall j | 0 <= j < n - 1
          ensures children[j].Snapshot() == before[j]
        {
          assert children[j].Repr() !! children[n - 1].Repr();
        }
        assert e.Snapshot() == before[n - 1].(tail := Some(i));
        SnapshotSeqIs(children, height, CloseLast(before, i));
      } else {
        assert CloseLast(before, i) == before;
      }
    }

    /** `for e in elem: indent(e, level, ind)`: each child is indented in
        turn, and nothing else changes. */
    method IndentEach(level: int, ind: string)
      requires Valid()
      modifies below
      ensures SnapshotSeq(children, height) == IndentAll(old(SnapshotSeq(children, height)), level, ind)
      decreases height, 1
    {
      var n := |children|;
      SnapshotSeqElems(children, height);
      ghost var before := SnapshotSeq(children, height);
      for k := 0 to n
        invariant forall j :: 0 <= j < k ==> children[j].Snapshot() == IndentTree(before[j], level, ind)
        invariant forall j :: k <= j < n ==> children[j].Snapshot() == before[j]
      {
        ReprUnionHas(children, k);
        IndentChild(k, level, ind);
      }
      IndentAllAt(before, level, ind);
      SnapshotSeqIs(children, height, IndentAll(before, level, ind));
    }

    /** One turn of the loop: the `k`-th child is indented, its siblings
        keep their values. */
    method IndentChild(k: nat, level: int, ind: string)
      requires Valid() && k < |children|
      modifies children[k].Repr()
      ensures children[k].Snapshot() == IndentTree(old(children[k].Snapshot()), level, ind)
      ensures forall j :: 0 <= j < |children| && j != k ==> children[j].Snapshot() == old(children[j].Snapshot())
      decreases height, 0
    {
      children[k].Indent(level, ind);
      forall j | 0 <= j < |children| && j != k
        ensures children[j].Snapshot() == old(children[j].Snapshot())
      {
        assert children[j].Repr() !! children[k].Repr();
      }
    }
  }

  /** The values of some elements, in order. */
  ghost function SnapshotSeq(cs: seq<Element>, h: nat): (r: seq<Tree>)
    requires forall c :: c in cs ==> c.Valid() && c.height < h
    reads ReprUnion(cs)
    decreases h, 0, |cs|
  {
    if cs == [] then [] else [cs[0].Snapshot()] + SnapshotSeq(cs[1..], h)
  }

  lemma {:induction false} SnapshotSeqElems(cs: seq<Element>, h: nat)
    requires forall c :: c in cs ==> c.Valid() && c.height < h
    ensures |SnapshotSeq(cs, h)| == |cs|
    ensures forall j :: 0 <= j < |cs| ==> SnapshotSeq(cs, h)[j] == cs[j].Snapshot()
    decreases |cs|
  {
    if cs != [] {
      SnapshotSeqElems(cs[1..], h);
      var r := SnapshotSeq(cs, h);
      assert r == [cs[0].Snapshot()] + SnapshotSeq(cs[1..], h);
      forall j | 1 <= j < |cs|
        ensures r[j] == cs[j].Snapshot()
      {
        assert cs[1..][j - 1] == cs[j];
      }
    }
  }

  /** Elements whose values are `ts` give `ts`. */
  lemma SnapshotSeqIs(cs: seq<Element>, h: nat, ts: seq<Tree>)
    requires forall c :: c in cs ==> c.Valid() && c.height < h
    requires |ts| == |cs| && forall j :: 0 <= j < |cs| ==> cs[j].Snapshot() == ts[j]
    ensures SnapshotSeq(cs, h) == ts
  {
    SnapshotSeqElems(cs, h);
  }
}
