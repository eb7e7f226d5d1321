/** Iteration helpers (relais/dev/iterutils.py). The generators are
    modelled by the finite list of what they yield. */
module IterUtils {

  /** `iter_adapt`: each item passed through the adaptor, in order. */
  method IterAdapt<T, U>(items: seq<T>, adaptor: T -> U) returns (r: seq<U>)
    ensures |r| == |items|
    ensures forall i :: 0 <= i < |items| ==> r[i] == adaptor(items[i])
  {
    r := [];
    for k := 0 to |items|
      invariant |r| == k
      invariant forall i :: 0 <= i < k ==> r[i] == adaptor(items[i])
    {
      r := r + [adaptor(items[k])];
    }
  }

  /** The first occurrence of each value, in input order: an item is kept
      when no earlier item equals it. */
  function Dedup<T(==)>(xs: seq<T>): seq<T>
  {
    if xs == [] then []
    else
      var kept := Dedup(xs[..|xs| - 1]);
      if xs[|xs| - 1] in kept then kept else kept + [xs[|xs| - 1]]
  }

  predicate NoDuplicates<T(==)>(xs: seq<T>)
  {
    forall i, j :: 0 <= i < j < |xs| ==> xs[i] != xs[j]
  }

  /** `a` can be obtained from `b` by deleting items. */
  predicate IsSubsequence<T(==)>(a: seq<T>, b: seq<T>)
    decreases |b|
  {
    if a == [] then true
    else if b == [] then false
    else (a[|a| - 1] == b[|b| - 1] && IsSubsequence(a[..|a| - 1], b[..|b| - 1])) || IsSubsequence(a, b[..|b| - 1])
  }

  /** `unique`: keep a `seen` set, yield an item the first time it is
      seen. */
  method Unique<T(==)>(xs: seq<T>) returns (r: seq<T>)
    ensures r == Dedup(xs)
  {
    var seen: set<T> := {};
    r := [];
    for k := 0 to |xs|
      invariant r == Dedup(xs[..k])
      invariant forall x :: x in seen <==> x in r
    {
      assert xs[..k + 1][..k] == xs[..k];
      if xs[k] !in seen {
        seen := seen + {xs[k]};
        r := r + [xs[k]];
      }
    }
    assert xs[..|xs|] == xs;
  }

  /** The output holds exactly the input's values. */
  lemma {:induction false} DedupSameValues<T>(xs: seq<T>)
    ensures forall x :: x in Dedup(xs) <==> x in xs
  {
    if xs != [] {
      var front := xs[..|xs| - 1];
      DedupSameValues(front);
      assert xs == front + [xs[|xs| - 1]];
    }
  }

  /** The output has no duplicates. */
  lemma {:induction false} DedupNoDuplicates<T>(xs: seq<T>)
    ensures NoDuplicates(Dedup(xs))
  {
    if xs != [] {
      DedupNoDuplicates(xs[..|xs| - 1]);
    }
  }

  /** The output is a subsequence of the input. */
  lemma {:induction false} DedupSubsequence<T>(xs: seq<T>)
    ensures IsSubsequence(Dedup(xs), xs)
  {
    if xs != [] {
      var front := xs[..|xs| - 1];
      DedupSubsequence(front);
      var kept := Dedup(front);
      if xs[|xs| - 1] !in kept {
        assert (kept + [xs[|xs| - 1]])[..|kept|] == kept;
      } else if kept != [] {
        SubsequenceOfPrefix(kept, front, xs);
      }
    }
  }

  /** A subsequence of `b` is a subsequence of `b` extended by one item. */
  lemma SubsequenceOfPrefix<T>(a: seq<T>, b: seq<T>, c: seq<T>)
    requires a != [] && IsSubsequence(a, b) && |c| == |b| + 1 && c[..|b|] == b
    ensures IsSubsequence(a, c)
  {
  }

  /** Values are kept in order of first occurrence: the output for a
      prefix of the input is a prefix of the output for the whole. */
  lemma {:induction false} DedupPrefix<T>(xs: seq<T>, k: nat)
    requires k <= |xs|
    ensures Dedup(xs[..k]) <= Dedup(xs)
    decreases |xs| - k
  {
    if k < |xs| {
      DedupPrefix(xs, k + 1);
      assert xs[..k + 1][..k] == xs[..k];
    } else {
      assert xs[..k] == xs;
    }
  }

  /** Input without duplicates comes back unchanged. */
  lemma {:induction false} DedupOfDistinct<T>(xs: seq<T>)
    requires NoDuplicates(xs)
    ensures Dedup(xs) == xs
  {
    if xs != [] {
      var front := xs[..|xs| - 1];
      DedupOfDistinct(front);
      assert xs == front + [xs[|xs| - 1]];
    }
  }

  /** `unique` of its own output gives that output again. */
  lemma DedupIdempotent<T>(xs: seq<T>)
    ensures Dedup(Dedup(xs)) == Dedup(xs)
  {
    DedupNoDuplicates(xs);
    DedupOfDistinct(Dedup(xs));
  }

  /** `tally`: count each value, adding a key with count 1 when the lookup
      raises `KeyError`. */
  method Tally<T(==)>(xs: seq<T>) returns (d: map<T, nat>)
    ensures forall x :: x in d <==> x in xs
    ensures forall x | x in d :: d[x] == multiset(xs)[x]
  {
    d := map[];
    for k := 0 to |xs|
      invariant forall x :: x in d <==> x in xs[..k]
      invariant forall x | x in d :: d[x] == multiset(xs[..k])[x]
    {
      assert xs[..k + 1] == xs[..k] + [xs[k]];
      if xs[k] in d {
        d := d[xs[k] := d[xs[k]] + 1];
      } else {
        d := d[xs[k] := 1];
      }
    }
    assert xs[..|xs|] == xs;
  }

  /** The sum of the counts in a tally. */
  ghost function SumCounts<T>(d: map<T, nat>): nat
    decreases |d|
  {
    if |d| == 0 then 0
    else
      var k := PickKey(d);
      d[k] + SumCounts(d - {k})
  }

  /** Some key of a non-empty map. */
  ghost function PickKey<T>(d: map<T, nat>): (k: T)
    requires |d| > 0
    ensures k in d
  {
    assert |d.Keys| == |d|;
    var k :| k in d.Keys;
    k
  }

  /** `n` copies of `x`. */
  function Copies<T>(x: T, n: nat): (s: seq<T>)
    ensures |s| == n
    ensures forall i :: 0 <= i < n ==> s[i] == x
  {
    if n == 0 then [] else [x] + Copies(x, n - 1)
  }

  /** A multiset of `n` copies of `x` holds `x` `n` times and nothing else. */
  lemma {:induction false} CopiesCount<T>(x: T, n: nat, y: T)
    ensures multiset(Copies(x, n))[y] == if y == x then n else 0
  {
    if n > 0 {
      CopiesCount(x, n - 1, y);
      assert Copies(x, n) == [x] + Copies(x, n - 1);
    }
  }

  /** The counts of a map sum to the size of any multiset it tallies. */
  lemma {:induction false} SumCountsIsSize<T>(d: map<T, nat>, m: multiset<T>)
    requires forall x :: m[x] == if x in d then d[x] else 0
    ensures SumCounts(d) == |m|
    decreases |d|
  {
    if |d| == 0 {
      assert d == map[];
      assert m == multiset{};
    } else {
      var k := PickKey(d);
      var single := multiset(Copies(k, d[k]));
      var rest := m - single;
      forall x ensures single[x] == if x == k then d[k] else 0 {
        CopiesCount(k, d[k], x);
      }
      assert m == rest + single;
      SumCountsIsSize(d - {k}, rest);
    }
  }

  /** The counts of a tally sum to the length of its input. */
  lemma TallyTotal<T>(xs: seq<T>, d: map<T, nat>)
    requires forall x :: x in d <==> x in xs
    requires forall x | x in d :: d[x] == multiset(xs)[x]
    ensures SumCounts(d) == |xs|
  {
    SumCountsIsSize(d, multiset(xs));
  }
}
