/**
 * `/api/dashboard/nanoparticle-types`: the stored predictions counted by
 * nanoparticle identifier, most frequent first; identifiers with the same
 * count keep the order in which they were first seen (Python's sort is
 * stable and its dictionaries keep insertion order).
 *
 * The counting and sorting are stated for any list `xs` and any key
 * function `key`; the endpoint uses the predictions and TypeOf.
 */
module TypeSeries {
  import opened Text
  import opened Events
  import opened Tallies

  /**
   * `(p.get('nanoparticle_id') or 'unknown').strip() or 'unknown'`: the
   * stripped identifier, with "unknown" for a missing or blank one.
   */
  function TypeKey(id: string): string {
    var raw := if id == "" then "unknown" else id;
    var key := Strip(raw);
    if key == "" then "unknown" else key
  }

  /** The key is the stripped identifier unless that is empty; it is never blank. */
  lemma TypeKeyIsStrippedId(id: string)
    ensures TypeKey(id) == if Strip(id) == "" then "unknown" else Strip(id)
    ensures TypeKey(id) != "" && NoEdgeSpace(TypeKey(id))
  {
    assert NoEdgeSpace("unknown");
    StripKeepsTrimmed("unknown");
  }

  /** Identifiers that differ only in surrounding whitespace are counted together. */
  lemma TypeKeyIgnoresEdgeSpace(a: string, b: string)
    requires Strip(a) == Strip(b)
    ensures TypeKey(a) == TypeKey(b)
  {
    TypeKeyIsStrippedId(a);
    TypeKeyIsStrippedId(b);
  }

  function TypeOf(p: Prediction): string {
    TypeKey(p.nanoparticleId)
  }

  /** The number of elements of `xs` whose key is `id`. */
  function KeyCount<T>(xs: seq<T>, key: T -> string, id: string): nat {
    CountWhere(xs, key, Always, id)
  }

  // ---------------------------------------------------------------------
  // sorted(counts.items(), key=lambda x: -x[1])
  // ---------------------------------------------------------------------

  datatype TypePoint = TypePoint(nanoparticleId: string, count: nat)

  /**
   * `a` comes before `b` in the result: a larger count, or the same count
   * and an identifier seen earlier.
   */
  predicate Before<T>(xs: seq<T>, key: T -> string, a: TypePoint, b: TypePoint) {
    a.count > b.count
    || (a.count == b.count && FirstIndex(xs, key, a.nanoparticleId) < FirstIndex(xs, key, b.nanoparticleId))
  }

  predicate SortedByCount<T>(xs: seq<T>, key: T -> string, s: seq<TypePoint>) {
    forall i :: 0 <= i < |s| - 1 ==> Before(xs, key, s[i], s[i + 1])
  }

  /** The entries are listed in the order their identifiers were first seen. */
  predicate InFirstSeenOrder<T>(xs: seq<T>, key: T -> string, s: seq<TypePoint>) {
    forall i, j :: 0 <= i < j < |s| ==>
      FirstIndex(xs, key, s[i].nanoparticleId) < FirstIndex(xs, key, s[j].nanoparticleId)
  }

  /** Puts `x` after every entry whose count is at least its own. */
  function InsertByCount(x: TypePoint, r: seq<TypePoint>): (res: seq<TypePoint>)
    ensures |res| == |r| + 1
    ensures multiset(res) == multiset(r) + multiset{x}
    ensures res[0] == x || (r != [] && res[0] == r[0])
  {
    if r == [] || r[0].count < x.count then [x] + r
    else
      assert r == [r[0]] + r[1..];
      [r[0]] + InsertByCount(x, r[1..])
  }

  /** The stable sort by descending count, inserting the entries from the first to the last. */
  function SortByCount(s: seq<TypePoint>): (r: seq<TypePoint>)
    ensures |r| == |s|
    ensures multiset(r) == multiset(s)
  {
    if s == [] then []
    else
      var init := s[..|s| - 1];
      assert s == init + [s[|s| - 1]];
      InsertByCount(s[|s| - 1], SortByCount(init))
  }

  lemma {:induction false} InsertByCountSorted<T>(xs: seq<T>, key: T -> string, x: TypePoint, r: seq<TypePoint>)
    requires SortedByCount(xs, key, r)
    requires forall k :: 0 <= k < |r| ==>
      FirstIndex(xs, key, r[k].nanoparticleId) < FirstIndex(xs, key, x.nanoparticleId)
    ensures SortedByCount(xs, key, InsertByCount(x, r))
  {
    if r != [] && r[0].count >= x.count {
      var t := r[1..];
      assert SortedByCount(xs, key, t) by {
        forall i | 0 <= i < |t| - 1 ensures Before(xs, key, t[i], t[i + 1]) {
          assert t[i] == r[i + 1] && t[i + 1] == r[i + 2];
        }
      }
      assert forall k :: 0 <= k < |t| ==> t[k] == r[k + 1];
      InsertByCountSorted(xs, key, x, t);
      var u := InsertByCount(x, t);
      assert Before(xs, key, r[0], u[0]) by {
        if u[0] != x {
          assert u[0] == r[1];
        }
      }
      var res := [r[0]] + u;
      forall i | 0 <= i < |res| - 1 ensures Before(xs, key, res[i], res[i + 1]) {
        if i > 0 {
          assert res[i] == u[i - 1] && res[i + 1] == u[i];
        }
      }
    }
  }

  /**
   * Sorting entries given in first-seen order yields descending counts with
   * ties in first-seen order, which is what the stable sort of the handler
   * produces from the insertion-ordered dictionary.
   */
  lemma {:induction false} SortByCountSorted<T>(xs: seq<T>, key: T -> string, s: seq<TypePoint>)
    requires InFirstSeenOrder(xs, key, s)
    ensures SortedByCount(xs, key, SortByCount(s))
  {
    if s != [] {
      var init, x := s[..|s| - 1], s[|s| - 1];
      assert InFirstSeenOrder(xs, key, init) by {
        forall i, j | 0 <= i < j < |init|
          ensures FirstIndex(xs, key, init[i].nanoparticleId) < FirstIndex(xs, key, init[j].nanoparticleId)
        {
          assert init[i] == s[i] && init[j] == s[j];
        }
      }
      SortByCountSorted(xs, key, init);
      var r := SortByCount(init);
      forall k | 0 <= k < |r|
        ensures FirstIndex(xs, key, r[k].nanoparticleId) < FirstIndex(xs, key, x.nanoparticleId)
      {
        assert r[k] in multiset(init);
        var m :| 0 <= m < |init| && init[m] == r[k];
        assert init[m] == s[m];
      }
      InsertByCountSorted(xs, key, x, r);
    }
  }

  /** Sorting neither loses nor invents an entry. */
  lemma SortByCountSameEntries(points: seq<TypePoint>)
    ensures var series := SortByCount(points);
      && (forall i :: 0 <= i < |series| ==> series[i] in points)
      && (forall j :: 0 <= j < |points| ==> points[j] in series)
  {
    var series := SortByCount(points);
    forall i | 0 <= i < |series|
      ensures series[i] in points
    {
      assert series[i] in multiset(points);
    }
    forall j | 0 <= j < |points|
      ensures points[j] in series
    {
      assert points[j] in multiset(series);
    }
  }

  // ---------------------------------------------------------------------
  // dashboard_nanoparticle_types
  // ---------------------------------------------------------------------

  /** `[{'nanoparticle_id': k, 'count': v} ...]` for the keys in `keys`. */
  function Points(keys: seq<string>, counts: map<string, nat>): (r: seq<TypePoint>)
    requires forall j :: 0 <= j < |keys| ==> keys[j] in counts
    ensures |r| == |keys|
    ensures forall j :: 0 <= j < |keys| ==> r[j] == TypePoint(keys[j], counts[keys[j]])
  {
    if keys == [] then []
    else
      var k := keys[|keys| - 1];
      Points(keys[..|keys| - 1], counts) + [TypePoint(k, counts[k])]
  }

  /** Each entry holds the number of elements with its identifier. */
  predicate CountsMatch<T>(xs: seq<T>, key: T -> string, series: seq<TypePoint>) {
    forall i :: 0 <= i < |series| ==>
      series[i].count == KeyCount(xs, key, series[i].nanoparticleId) && series[i].count > 0
  }

  /** Some entry is for identifier `id`. */
  predicate HasType(series: seq<TypePoint>, id: string) {
    exists i :: 0 <= i < |series| && series[i].nanoparticleId == id
  }

  /** The identifier of every element has an entry. */
  predicate CoversTypes<T>(xs: seq<T>, key: T -> string, series: seq<TypePoint>) {
    forall k :: 0 <= k < |xs| ==> HasType(series, key(xs[k]))
  }

  /** `keys` lists the keys of `counts`, in the order of their first occurrence in `xs`, all before `i`. */
  ghost predicate KeysInOrder<T>(xs: seq<T>, key: T -> string, i: nat, keys: seq<string>, counts: map<string, nat>) {
    && (forall d :: d in counts <==> d in keys)
    && (forall j1, j2 :: 0 <= j1 < j2 < |keys| ==> FirstIndex(xs, key, keys[j1]) < FirstIndex(xs, key, keys[j2]))
    && (forall j :: 0 <= j < |keys| ==> FirstIndex(xs, key, keys[j]) < i)
  }

  /** Each key among the first `i` elements has the number of those elements with it as its count. */
  ghost predicate CountsOfPrefix<T>(xs: seq<T>, key: T -> string, i: nat, counts: map<string, nat>)
    requires i <= |xs|
  {
    && (forall k :: 0 <= k < i ==> key(xs[k]) in counts)
    && (forall d :: d in counts ==> counts[d] == KeyCount(xs[..i], key, d) && counts[d] > 0)
  }

  /**
   * What the loop has built after the first `i` elements of `xs`: `keys`
   * lists the keys of `counts` in insertion order, which is the order of
   * their first occurrence in `xs`; each count is the number of elements
   * among the first `i` with that key.
   */
  ghost predicate Counted<T>(xs: seq<T>, key: T -> string, i: nat, keys: seq<string>, counts: map<string, nat>)
    requires i <= |xs|
  {
    KeysInOrder(xs, key, i, keys, counts) && CountsOfPrefix(xs, key, i, counts)
  }

  /** An element whose key none of the elements before it carries is where that key is first seen. */
  lemma FirstIndexAt<T>(xs: seq<T>, key: T -> string, i: nat)
    requires i < |xs|
    requires forall k :: 0 <= k < i ==> key(xs[k]) != key(xs[i])
    ensures FirstIndex(xs, key, key(xs[i])) == i
  {
    var r := FirstIndex(xs, key, key(xs[i]));
    assert r <= i;
  }

  /**
   * Keys listed in increasing order of `pos`, all below `i`, stay so when a
   * key at position `i` is added at the end.
   */
  lemma AppendKeepsOrder(keys: seq<string>, id: string, pos: string -> int, i: int)
    requires forall j1, j2 :: 0 <= j1 < j2 < |keys| ==> pos(keys[j1]) < pos(keys[j2])
    requires forall j :: 0 <= j < |keys| ==> pos(keys[j]) < i
    requires pos(id) == i
    ensures var keys2 := keys + [id];
      && (forall j1, j2 :: 0 <= j1 < j2 < |keys2| ==> pos(keys2[j1]) < pos(keys2[j2]))
      && (forall j :: 0 <= j < |keys2| ==> pos(keys2[j]) < i + 1)
  {
    var keys2 := keys + [id];
    forall j1, j2 | 0 <= j1 < j2 < |keys2|
      ensures pos(keys2[j1]) < pos(keys2[j2])
    {
      assert keys2[j1] == keys[j1];
      if j2 < |keys| {
        assert keys2[j2] == keys[j2];
      }
    }
    forall j | 0 <= j < |keys2|
      ensures pos(keys2[j]) < i + 1
    {
      if j < |keys| {
        assert keys2[j] == keys[j];
      }
    }
  }

  /** A key met for the first time enters at the end of the insertion order. */
  lemma KeysInOrderStep<T>(xs: seq<T>, key: T -> string, i: nat, keys: seq<string>, counts: map<string, nat>,
                           keys2: seq<string>, counts2: map<string, nat>)
    requires i < |xs| && KeysInOrder(xs, key, i, keys, counts)
    requires forall k :: 0 <= k < i ==> key(xs[k]) in counts
    requires var id := key(xs[i]);
      && keys2 == (if id in counts then keys else keys + [id])
      && counts2.Keys == counts.Keys + {id}
    ensures KeysInOrder(xs, key, i + 1, keys2, counts2)
  {
    var id := key(xs[i]);
    if id !in counts {
      assert forall k :: 0 <= k < i ==> key(xs[k]) != id;
      FirstIndexAt(xs, key, i);
      var pos := (k: string) => FirstIndex(xs, key, k) as int;
      AppendKeepsOrder(keys, id, pos, i);
    }
  }

  /** `counts[nid] += 1` on a `defaultdict(int)` counts element `i`. */
  lemma CountsOfPrefixStep<T>(xs: seq<T>, key: T -> string, i: nat, counts: map<string, nat>, counts2: map<string, nat>)
    requires i < |xs| && CountsOfPrefix(xs, key, i, counts)
    requires var id := key(xs[i]);
      counts2 == counts[id := (if id in counts then counts[id] else 0) + 1]
    ensures CountsOfPrefix(xs, key, i + 1, counts2)
  {
    var id := key(xs[i]);
    assert xs[..i + 1] == xs[..i] + [xs[i]];
    if id !in counts {
      CountWhereAbsent(xs[..i], key, Always, id);
    }
    forall d | d in counts2
      ensures counts2[d] == KeyCount(xs[..i + 1], key, d)
    {
      CountWhereAppend(xs[..i], xs[i], key, Always, d);
    }
    forall k | 0 <= k < i + 1
      ensures key(xs[k]) in counts2
    {
    }
  }

  /** Before the loop nothing is counted. */
  lemma CountedInit<T>(xs: seq<T>, key: T -> string)
    ensures Counted(xs, key, 0, [], map[])
  {
  }

  /** Counting element `i`. */
  lemma CountedStep<T>(xs: seq<T>, key: T -> string, i: nat, keys: seq<string>, counts: map<string, nat>,
                       i2: nat, keys2: seq<string>, counts2: map<string, nat>)
    requires i < |xs| && Counted(xs, key, i, keys, counts)
    requires var id := key(xs[i]);
      && keys2 == (if id in counts then keys else keys + [id])
      && counts2 == counts[id := (if id in counts then counts[id] else 0) + 1]
    requires i2 == i + 1
    ensures Counted(xs, key, i2, keys2, counts2)
  {
    KeysInOrderStep(xs, key, i, keys, counts, keys2, counts2);
    CountsOfPrefixStep(xs, key, i, counts, counts2);
  }

  /** The unsorted entries of a finished count hold the right counts. */
  lemma PointsCountsMatch<T>(xs: seq<T>, key: T -> string, keys: seq<string>, counts: map<string, nat>)
    requires forall j :: 0 <= j < |keys| ==> keys[j] in counts
    requires CountsOfPrefix(xs, key, |xs|, counts)
    ensures CountsMatch(xs, key, Points(keys, counts))
  {
    assert xs[..|xs|] == xs;
  }

  /** The unsorted entries of a finished count cover every element. */
  lemma PointsCoverTypes<T>(xs: seq<T>, key: T -> string, keys: seq<string>, counts: map<string, nat>)
    requires forall d :: d in counts <==> d in keys
    requires forall k :: 0 <= k < |xs| ==> key(xs[k]) in counts
    ensures CoversTypes(xs, key, Points(keys, counts))
  {
    var points := Points(keys, counts);
    forall k | 0 <= k < |xs|
      ensures HasType(points, key(xs[k]))
    {
      assert key(xs[k]) in keys;
      var j :| 0 <= j < |keys| && keys[j] == key(xs[k]);
      assert points[j].nanoparticleId == keys[j];
    }
  }

  /** The unsorted entries of a finished count already hold the right counts. */
  lemma PointsOfCounted<T>(xs: seq<T>, key: T -> string, keys: seq<string>, counts: map<string, nat>)
    requires Counted(xs, key, |xs|, keys, counts)
    ensures forall j :: 0 <= j < |keys| ==> keys[j] in counts
    ensures var points := Points(keys, counts);
      CountsMatch(xs, key, points) && CoversTypes(xs, key, points) && InFirstSeenOrder(xs, key, points)
  {
    PointsCountsMatch(xs, key, keys, counts);
    PointsCoverTypes(xs, key, keys, counts);
  }

  lemma CountsMatchOfEntries<T>(xs: seq<T>, key: T -> string, a: seq<TypePoint>, b: seq<TypePoint>)
    requires CountsMatch(xs, key, a)
    requires forall i :: 0 <= i < |b| ==> b[i] in a
    ensures CountsMatch(xs, key, b)
  {
    forall i | 0 <= i < |b|
      ensures b[i].count == KeyCount(xs, key, b[i].nanoparticleId) && b[i].count > 0
    {
      var j :| 0 <= j < |a| && a[j] == b[i];
    }
  }

  lemma CoversTypesOfEntries<T>(xs: seq<T>, key: T -> string, a: seq<TypePoint>, b: seq<TypePoint>)
    requires CoversTypes(xs, key, a)
    requires forall j :: 0 <= j < |a| ==> a[j] in b
    ensures CoversTypes(xs, key, b)
  {
    forall k | 0 <= k < |xs|
      ensures HasType(b, key(xs[k]))
    {
      assert HasType(a, key(xs[k]));
      var j :| 0 <= j < |a| && a[j].nanoparticleId == key(xs[k]);
      assert a[j] in b;
      var m :| 0 <= m < |b| && b[m] == a[j];
    }
  }

  /** The sorted entries of a finished count form the series. */
  lemma SeriesOfCounted<T>(xs: seq<T>, key: T -> string, keys: seq<string>, counts: map<string, nat>)
    requires Counted(xs, key, |xs|, keys, counts)
    ensures forall j :: 0 <= j < |keys| ==> keys[j] in counts
    ensures var series := SortByCount(Points(keys, counts));
      SortedByCount(xs, key, series) && CountsMatch(xs, key, series) && CoversTypes(xs, key, series)
  {
    PointsOfCounted(xs, key, keys, counts);
    var points := Points(keys, counts);
    SortByCountSorted(xs, key, points);
    SortByCountSameEntries(points);
    CountsMatchOfEntries(xs, key, points, SortByCount(points));
    CoversTypesOfEntries(xs, key, points, SortByCount(points));
  }

  /**
   * The loop and the sort of `dashboard_nanoparticle_types()` for any key
   * function: one entry per key, holding the number of elements with it, by
   * descending count with ties in first-seen order.
   */
  method CountByKey<T>(xs: seq<T>, key: T -> string) returns (series: seq<TypePoint>)
    ensures SortedByCount(xs, key, series)
    ensures CountsMatch(xs, key, series)
    ensures CoversTypes(xs, key, series)
  {
    var counts: map<string, nat> := map[];
    var keys: seq<string> := [];
    var i := 0;
    CountedInit(xs, key);
    while i < |xs|
      invariant 0 <= i <= |xs|
      invariant Counted(xs, key, i, keys, counts)
    {
      var nid := key(xs[i]);
      ghost var i0, keys0, counts0 := i, keys, counts;
      // counts[nid] += 1 on a defaultdict(int): a new key starts at 0 and goes last
      var c := if nid in counts then counts[nid] else 0;
      if nid !in counts {
        keys := keys + [nid];
      }
      counts := counts[nid := c + 1];
      i := i + 1;
      CountedStep(xs, key, i0, keys0, counts0, i, keys, counts);
    }
    assert i == |xs|;
    SeriesOfCounted(xs, key, keys, counts);
    series := SortByCount(Points(keys, counts));
  }

  /**
   * `dashboard_nanoparticle_types()`: the stored predictions counted by
   * TypeOf, most frequent first, ties in first-seen order.
   */
  method NanoparticleTypes(ps: seq<Prediction>) returns (series: seq<TypePoint>)
    ensures SortedByCount(ps, TypeOf, series)
    ensures CountsMatch(ps, TypeOf, series)
    ensures CoversTypes(ps, TypeOf, series)
  {
    series := CountByKey(ps, TypeOf);
  }

  // ---------------------------------------------------------------------
  // The counts partition the predictions
  // ---------------------------------------------------------------------

  function Ids(series: seq<TypePoint>): (ids: seq<string>)
    ensures |ids| == |series|
    ensures forall i :: 0 <= i < |series| ==> ids[i] == series[i].nanoparticleId
  {
    if series == [] then [] else Ids(series[..|series| - 1]) + [series[|series| - 1].nanoparticleId]
  }

  function SumCounts(series: seq<TypePoint>): nat {
    if series == [] then 0 else SumCounts(series[..|series| - 1]) + series[|series| - 1].count
  }

  lemma {:induction false} SumCountsIsSumOver<T>(xs: seq<T>, key: T -> string, series: seq<TypePoint>)
    requires CountsMatch(xs, key, series)
    ensures SumCounts(series) == SumOver(xs, key, Always, Ids(series))
  {
    if series != [] {
      var init := series[..|series| - 1];
      assert forall i :: 0 <= i < |init| ==> init[i] == series[i];
      SumCountsIsSumOver(xs, key, init);
      assert Ids(series)[..|series| - 1] == Ids(init);
    }
  }

  /** Sorted adjacent entries are sorted pairwise. */
  lemma {:induction false} SortedByCountStrict<T>(xs: seq<T>, key: T -> string, s: seq<TypePoint>)
    requires SortedByCount(xs, key, s)
    ensures forall i, j :: 0 <= i < j < |s| ==> Before(xs, key, s[i], s[j])
  {
    if s != [] {
      var t := s[1..];
      assert SortedByCount(xs, key, t) by {
        forall i | 0 <= i < |t| - 1 ensures Before(xs, key, t[i], t[i + 1]) {
          assert t[i] == s[i + 1] && t[i + 1] == s[i + 2];
        }
      }
      SortedByCountStrict(xs, key, t);
      forall i, j | 0 <= i < j < |s| ensures Before(xs, key, s[i], s[j]) {
        if i > 0 {
          assert s[i] == t[i - 1] && s[j] == t[j - 1];
        } else if j > 1 {
          assert s[1] == t[0] && s[j] == t[j - 1];
        }
      }
    }
  }

  /** No identifier has two entries. */
  lemma SortedByCountDistinct<T>(xs: seq<T>, key: T -> string, s: seq<TypePoint>)
    requires SortedByCount(xs, key, s) && CountsMatch(xs, key, s)
    ensures Distinct(Ids(s))
  {
    SortedByCountStrict(xs, key, s);
  }

  /**
   * The counts lose and duplicate no element: they add up to the length of
   * the list.
   */
  lemma TypesPartition<T>(xs: seq<T>, key: T -> string, series: seq<TypePoint>)
    requires SortedByCount(xs, key, series) && CountsMatch(xs, key, series) && CoversTypes(xs, key, series)
    ensures SumCounts(series) == |xs|
  {
    SortedByCountDistinct(xs, key, series);
    var ids := Ids(series);
    forall k | 0 <= k < |xs| ensures key(xs[k]) in ids {
      assert HasType(series, key(xs[k]));
      var i :| 0 <= i < |series| && series[i].nanoparticleId == key(xs[k]);
      assert ids[i] == key(xs[k]);
    }
    SumCountsIsSumOver(xs, key, series);
    PartitionSum(xs, key, Always, ids);
    CountKeptAlways(xs);
  }
}
