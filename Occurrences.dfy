/** Counting how often values occur in a sequence, and how those counts add up
    over a list of distinct keys. This is the arithmetic behind every
    "the counts add up" property of the comfort aggregation. */
module Occurrences {

  /** Number of positions of `xs` that hold `v`. */
  function Occ<T(==)>(xs: seq<T>, v: T): (n: nat)
    ensures n <= |xs|
    ensures n > 0 <==> v in xs
  {
    if xs == [] then 0
    else
      assert xs == xs[..|xs| - 1] + [xs[|xs| - 1]];
      Occ(xs[..|xs| - 1], v) + (if xs[|xs| - 1] == v then 1 else 0)
  }

  /** Number of positions of `xs` whose value is not one of `ks`. */
  function Outside<T(==)>(xs: seq<T>, ks: seq<T>): (n: nat)
    ensures n <= |xs|
    ensures n == 0 <==> forall x :: x in xs ==> x in ks
  {
    if xs == [] then 0
    else
      assert xs == xs[..|xs| - 1] + [xs[|xs| - 1]];
      Outside(xs[..|xs| - 1], ks) + (if xs[|xs| - 1] in ks then 0 else 1)
  }

  /** The occurrences in `xs` of each key of `ks`, added up. */
  function SumOcc<T(==)>(xs: seq<T>, ks: seq<T>): nat
  {
    if ks == [] then 0 else Occ(xs, ks[0]) + SumOcc(xs, ks[1..])
  }

  predicate Distinct<T(==)>(ks: seq<T>)
  {
    forall i, j :: 0 <= i < j < |ks| ==> ks[i] != ks[j]
  }

  lemma {:induction false} OccSnoc<T>(xs: seq<T>, x: T, v: T)
    ensures Occ(xs + [x], v) == Occ(xs, v) + (if x == v then 1 else 0)
  {
    assert (xs + [x])[..|xs + [x]| - 1] == xs;
  }

  /** A key occurs at most once in a list of distinct keys. */
  lemma {:induction false} OccDistinct<T>(ks: seq<T>, v: T)
    requires Distinct(ks)
    ensures Occ(ks, v) == (if v in ks then 1 else 0)
  {
    if ks != [] {
      var init, last := ks[..|ks| - 1], ks[|ks| - 1];
      assert ks == init + [last];
      assert Distinct(init);
      OccDistinct(init, v);
      if last == v {
        assert v !in init by {
          forall i | 0 <= i < |init| ensures init[i] != v {
            assert ks[i] != ks[|ks| - 1];
          }
        }
      }
    }
  }

  /** Appending `x` to `xs` adds to the key-wise total the number of times `x` is a key. */
  lemma {:induction false} SumOccSnoc<T>(xs: seq<T>, x: T, ks: seq<T>)
    ensures SumOcc(xs + [x], ks) == SumOcc(xs, ks) + Occ(ks, x)
  {
    if ks != [] {
      OccSnoc(xs, x, ks[0]);
      SumOccSnoc(xs, x, ks[1..]);
      assert ks == [ks[0]] + ks[1..];
      OccCons(ks[0], ks[1..], x);
    }
  }

  lemma {:induction false} OccCons<T>(k: T, ks: seq<T>, v: T)
    ensures Occ([k] + ks, v) == Occ(ks, v) + (if k == v then 1 else 0)
  {
    if ks != [] {
      var init, last := ks[..|ks| - 1], ks[|ks| - 1];
      assert ([k] + ks)[..|[k] + ks| - 1] == [k] + init;
      OccCons(k, init, v);
    } else {
      assert [k] + ks == [] + [k];
      OccSnoc([], k, v);
    }
  }

  /** Partition: every position of `xs` is counted exactly once, either under
      its own key or as lying outside the keys. */
  lemma {:induction false} Partition<T>(xs: seq<T>, ks: seq<T>)
    requires Distinct(ks)
    ensures SumOcc(xs, ks) + Outside(xs, ks) == |xs|
  {
    if xs == [] {
      SumOccEmpty(ks);
    } else {
      var init, last := xs[..|xs| - 1], xs[|xs| - 1];
      assert xs == init + [last];
      Partition(init, ks);
      SumOccSnoc(init, last, ks);
      OccDistinct(ks, last);
    }
  }

  lemma {:induction false} SumOccEmpty<T>(ks: seq<T>)
    ensures SumOcc([], ks) == 0
  {
    if ks != [] {
      SumOccEmpty(ks[1..]);
    }
  }

  /** Corollary of `Partition`: the key-wise counts never exceed the length,
      and reach it exactly when every value is one of the keys. */
  lemma SumOccBound<T>(xs: seq<T>, ks: seq<T>)
    requires Distinct(ks)
    ensures SumOcc(xs, ks) <= |xs|
    ensures SumOcc(xs, ks) == |xs| <==> forall x :: x in xs ==> x in ks
  {
    Partition(xs, ks);
  }

  /** Two maps with the same keys and the same value at every key are equal. */
  lemma MapExt<K, V>(a: map<K, V>, b: map<K, V>)
    requires a.Keys == b.Keys
    requires forall k :: k in a ==> a[k] == b[k]
    ensures a == b
  {
  }
}
