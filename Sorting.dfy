/** Python's `sorted` on integer keys that are distinct, as dictionary keys
    are: an insertion sort that keeps each key once. */
module Sorting {
  import opened Occurrences

  predicate StrictlyAscending(hs: seq<int>)
  {
    forall i, j :: 0 <= i < j < |hs| ==> hs[i] < hs[j]
  }

  /** Puts `x` in its place in an ascending list (a key already there stays once). */
  function Insert(x: int, hs: seq<int>): (r: seq<int>)
    requires StrictlyAscending(hs)
    ensures StrictlyAscending(r)
    ensures forall y :: y in r <==> y == x || y in hs
  {
    if hs == [] then [x]
    else if x < hs[0] then [x] + hs
    else if x == hs[0] then hs
    else
      var rest := Insert(x, hs[1..]);
      assert forall j :: 0 <= j < |rest| ==> hs[0] < rest[j] by {
        forall j | 0 <= j < |rest| ensures hs[0] < rest[j] {
          assert rest[j] in rest;
          if rest[j] != x {
            var k :| 0 <= k < |hs[1..]| && hs[1..][k] == rest[j];
            assert hs[0] < hs[k + 1];
          }
        }
      }
      [hs[0]] + rest
  }

  /** The keys of `xs` in strictly ascending order, each once. */
  function SortedKeys(xs: seq<int>): (hs: seq<int>)
    ensures StrictlyAscending(hs)
    ensures forall y :: y in hs <==> y in xs
  {
    if xs == [] then []
    else
      var init := xs[..|xs| - 1];
      assert xs == init + [xs[|xs| - 1]];
      Insert(xs[|xs| - 1], SortedKeys(init))
  }

  lemma AscendingIsDistinct(hs: seq<int>)
    requires StrictlyAscending(hs)
    ensures Distinct(hs)
  {
  }

  /** A list without repeats has as many elements as the set of its elements. */
  lemma {:induction false} DistinctCardinality(hs: seq<int>)
    requires Distinct(hs)
    ensures |set x | x in hs| == |hs|
  {
    if hs != [] {
      var init, last := hs[..|hs| - 1], hs[|hs| - 1];
      assert hs == init + [last];
      assert Distinct(init);
      DistinctCardinality(init);
      assert last !in init by {
        forall i | 0 <= i < |init| ensures init[i] != last {
          assert hs[i] != hs[|hs| - 1];
        }
      }
      assert (set x | x in hs) == (set x | x in init) + {last};
    }
  }
}
