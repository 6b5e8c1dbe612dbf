/**
 * Counting the elements of a list by key, as the dashboard's
 * `defaultdict` accumulators do, and the fact that the per-key counts over
 * all keys add up to the size of the list.
 */
module Tallies {

  /** The number of elements `x` of `xs` with `key(x) == k` that satisfy `keep`. */
  function CountWhere<T>(xs: seq<T>, key: T -> string, keep: T -> bool, k: string): (n: nat)
    ensures n <= |xs|
  {
    if xs == [] then 0
    else
      var x := xs[|xs| - 1];
      CountWhere(xs[..|xs| - 1], key, keep, k) + (if key(x) == k && keep(x) then 1 else 0)
  }

  /** The number of elements of `xs` that satisfy `keep`. */
  function CountKept<T>(xs: seq<T>, keep: T -> bool): (n: nat)
    ensures n <= |xs|
  {
    if xs == [] then 0
    else CountKept(xs[..|xs| - 1], keep) + (if keep(xs[|xs| - 1]) then 1 else 0)
  }

  /** Keeps every element. */
  predicate Always<T>(x: T) {
    true
  }

  lemma {:induction false} CountKeptAlways<T>(xs: seq<T>)
    ensures CountKept(xs, Always) == |xs|
  {
    if xs != [] {
      CountKeptAlways(xs[..|xs| - 1]);
    }
  }

  /** The position of the first element whose key is `k`; `|xs|` when there is none. */
  function FirstIndex<T>(xs: seq<T>, key: T -> string, k: string): (r: nat)
    ensures r <= |xs|
    ensures r < |xs| ==> key(xs[r]) == k
    ensures forall i :: 0 <= i < r ==> key(xs[i]) != k
  {
    if xs == [] then 0
    else if key(xs[0]) == k then 0
    else
      var r := FirstIndex(xs[1..], key, k);
      assert forall i :: 1 <= i < |xs| ==> xs[i] == xs[1..][i - 1];
      1 + r
  }

  /** The per-key counts of `xs` summed over the keys `ks`. */
  function SumOver<T>(xs: seq<T>, key: T -> string, keep: T -> bool, ks: seq<string>): nat {
    if ks == [] then 0
    else SumOver(xs, key, keep, ks[..|ks| - 1]) + CountWhere(xs, key, keep, ks[|ks| - 1])
  }

  predicate Distinct(ks: seq<string>) {
    forall i, j :: 0 <= i < j < |ks| ==> ks[i] != ks[j]
  }

  /** How often `k` occurs in `ks`. */
  function Occurrences(ks: seq<string>, k: string): (n: nat)
    ensures n <= |ks|
  {
    if ks == [] then 0
    else Occurrences(ks[..|ks| - 1], k) + (if ks[|ks| - 1] == k then 1 else 0)
  }

  /** In a list without repetitions a key occurs once if it is there and never otherwise. */
  lemma {:induction false} OccurrencesOfDistinct(ks: seq<string>, k: string)
    requires Distinct(ks)
    ensures Occurrences(ks, k) == if k in ks then 1 else 0
  {
    if ks != [] {
      var init := ks[..|ks| - 1];
      assert Distinct(init) by {
        forall i, j | 0 <= i < j < |init| ensures init[i] != init[j] {
          assert init[i] == ks[i] && init[j] == ks[j];
        }
      }
      OccurrencesOfDistinct(init, k);
      assert ks == init + [ks[|ks| - 1]];
      if ks[|ks| - 1] == k {
        assert k !in init by {
          forall i | 0 <= i < |init| ensures init[i] != k {
            assert init[i] == ks[i];
          }
        }
      }
    }
  }

  /** Counting one more element adds one to the count of its own key only. */
  lemma CountWhereAppend<T>(xs: seq<T>, x: T, key: T -> string, keep: T -> bool, k: string)
    ensures CountWhere(xs + [x], key, keep, k)
         == CountWhere(xs, key, keep, k) + (if key(x) == k && keep(x) then 1 else 0)
  {
    assert (xs + [x])[..|xs|] == xs;
  }

  /** A key no element carries has count 0. */
  lemma {:induction false} CountWhereAbsent<T>(xs: seq<T>, key: T -> string, keep: T -> bool, k: string)
    requires forall i :: 0 <= i < |xs| ==> key(xs[i]) != k
    ensures CountWhere(xs, key, keep, k) == 0
  {
    if xs != [] {
      var init := xs[..|xs| - 1];
      assert forall i :: 0 <= i < |init| ==> init[i] == xs[i];
      CountWhereAbsent(init, key, keep, k);
    }
  }

  lemma {:induction false} SumOverAppend<T>(xs: seq<T>, x: T, key: T -> string, keep: T -> bool, ks: seq<string>)
    ensures SumOver(xs + [x], key, keep, ks)
         == SumOver(xs, key, keep, ks) + (if keep(x) then Occurrences(ks, key(x)) else 0)
  {
    if ks != [] {
      SumOverAppend(xs, x, key, keep, ks[..|ks| - 1]);
      CountWhereAppend(xs, x, key, keep, ks[|ks| - 1]);
    }
  }

  lemma {:induction false} SumOverEmpty<T>(xs: seq<T>, key: T -> string, keep: T -> bool, ks: seq<string>)
    requires xs == []
    ensures SumOver(xs, key, keep, ks) == 0
  {
    if ks != [] {
      SumOverEmpty(xs, key, keep, ks[..|ks| - 1]);
    }
  }

  /**
   * Grouping by key loses and duplicates nothing: when every element's key
   * occurs exactly once in `ks`, the per-key counts add up to the number
   * of elements counted.
   */
  lemma {:induction false} PartitionSum<T>(xs: seq<T>, key: T -> string, keep: T -> bool, ks: seq<string>)
    requires Distinct(ks)
    requires forall i :: 0 <= i < |xs| ==> key(xs[i]) in ks
    ensures SumOver(xs, key, keep, ks) == CountKept(xs, keep)
  {
    if xs == [] {
      SumOverEmpty(xs, key, keep, ks);
    } else {
      var init, x := xs[..|xs| - 1], xs[|xs| - 1];
      assert forall i :: 0 <= i < |init| ==> init[i] == xs[i];
      PartitionSum(init, key, keep, ks);
      assert xs == init + [x];
      SumOverAppend(init, x, key, keep, ks);
      assert key(xs[|xs| - 1]) in ks;
      OccurrencesOfDistinct(ks, key(x));
      assert CountKept(xs, keep) == CountKept(init, keep) + (if keep(x) then 1 else 0);
    }
  }
}
