/**
 * Sequence operations with the meaning Python gives them on lists:
 * slicing with clamped and negative bounds, `reversed`, and the
 * "newest entries" view that a bounded list or deque keeps.
 */
module Seqs {

  function Min(a: int, b: int): int { if a <= b then a else b }

  function Max(a: int, b: int): int { if a >= b then a else b }

  /** The newest `maxlen` elements of `s`, oldest first: what a list trimmed to `maxlen` keeps. */
  function Newest<T>(s: seq<T>, maxlen: nat): (r: seq<T>)
    ensures |r| == Min(|s|, maxlen)
    ensures forall i :: 0 <= i < |r| ==> r[i] == s[|s| - |r| + i]
  {
    if |s| > maxlen then s[|s| - maxlen..] else s
  }

  /** Trimming is a no-op while the list fits. */
  lemma NewestWhenFits<T>(s: seq<T>, maxlen: nat)
    requires |s| <= maxlen
    ensures Newest(s, maxlen) == s
  {
  }

  /**
   * Appending to an already trimmed list and trimming again gives the same
   * list as trimming the whole history: trimming after every append keeps
   * exactly the newest `maxlen` events ever appended, in their original order.
   */
  lemma NewestAppend<T>(h: seq<T>, x: T, maxlen: nat)
    ensures Newest(Newest(h, maxlen) + [x], maxlen) == Newest(h + [x], maxlen)
  {
    var t := Newest(h, maxlen);
    var l := Newest(t + [x], maxlen);
    var r := Newest(h + [x], maxlen);
    assert |l| == |r|;
    forall k | 0 <= k < |l|
      ensures l[k] == r[k]
    {
      if k == |l| - 1 {
        assert l[k] == x && r[k] == x;
      } else {
        assert l[k] == t[|t| + 1 - |l| + k];
        assert r[k] == h[|h| + 1 - |r| + k];
      }
    }
  }

  /**
   * Pushing one more event than the capacity evicts only the first one:
   * the oldest survivor is the event inserted second.
   */
  lemma NewestEvictsOldest<T>(s: seq<T>, maxlen: nat)
    requires |s| == maxlen + 1
    ensures Newest(s, maxlen) == s[1..]
    ensures maxlen > 0 ==> Newest(s, maxlen)[0] == s[1]
  {
  }

  /** `list(reversed(s))`. */
  function Reverse<T>(s: seq<T>): (r: seq<T>)
    ensures |r| == |s|
    ensures forall k :: 0 <= k < |s| ==> r[k] == s[|s| - 1 - k]
  {
    if s == [] then [] else Reverse(s[1..]) + [s[0]]
  }

  /** The newest `maxlen` elements reversed: the newest first, then the one before it, and so on. */
  lemma NewestReversed<T>(s: seq<T>, maxlen: nat)
    ensures forall k :: 0 <= k < Min(|s|, maxlen) ==> Reverse(Newest(s, maxlen))[k] == s[|s| - 1 - k]
  {
    var n := Newest(s, maxlen);
    var r := Reverse(n);
    forall k | 0 <= k < Min(|s|, maxlen)
      ensures r[k] == s[|s| - 1 - k]
    {
      assert r[k] == n[|n| - 1 - k];
    }
  }

  /** Reversing twice gives the original order back. */
  lemma ReverseInvolutive<T>(s: seq<T>)
    ensures Reverse(Reverse(s)) == s
  {
    var r := Reverse(Reverse(s));
    forall k | 0 <= k < |s|
      ensures r[k] == s[k]
    {
      assert r[k] == Reverse(s)[|s| - 1 - k];
    }
  }

  /** Python's clamping of one bound `i` of a slice of a list of length `n`. */
  function SliceBound(i: int, n: nat): (r: nat)
    ensures r <= n
  {
    if i < 0 then (if n + i < 0 then 0 else n + i)
    else if i > n then n
    else i
  }

  /** `s[lo:hi]` with Python's semantics (step 1, either bound may be negative or out of range). */
  function PySlice<T>(s: seq<T>, lo: int, hi: int): (r: seq<T>)
    ensures |r| <= |s|
  {
    var a, b := SliceBound(lo, |s|), SliceBound(hi, |s|);
    if a < b then s[a..b] else []
  }

  /** With non-negative bounds a Python slice is the ordinary slice clamped at the end of the list. */
  lemma PySliceNonNegative<T>(s: seq<T>, lo: int, hi: int)
    requires 0 <= lo && 0 <= hi
    ensures PySlice(s, lo, hi) == s[Min(lo, |s|)..Max(Min(lo, |s|), Min(hi, |s|))]
  {
  }

  /** `s[-k:]` for `k >= 1` is the newest `k` elements. */
  lemma PySliceNegativeStart<T>(s: seq<T>, k: int)
    requires k >= 1
    ensures PySlice(s, -k, |s|) == Newest(s, k)
  {
  }

  /** `s[:n]`: the first `min(n, |s|)` elements. */
  lemma PySlicePrefix<T>(s: seq<T>, n: nat)
    ensures PySlice(s, 0, n) == s[..Min(n, |s|)]
  {
  }

  /** `s[offset:offset + limit]` for a non-negative offset and limit: at most `limit` consecutive elements from `offset` on. */
  function Window<T>(s: seq<T>, offset: nat, limit: nat): (r: seq<T>)
    ensures |r| == Min(limit, |s| - Min(offset, |s|))
    ensures forall k :: 0 <= k < |r| ==> r[k] == s[offset + k]
  {
    s[Min(offset, |s|)..Min(offset + limit, |s|)]
  }

  /** A Python slice with non-negative bounds `offset` and `offset + limit` is a window. */
  lemma PySliceWindow<T>(s: seq<T>, offset: nat, limit: nat)
    ensures PySlice(s, offset, offset + limit) == Window(s, offset, limit)
  {
    PySliceNonNegative(s, offset, offset + limit);
  }

  /** Two consecutive windows of one size make up the window of twice that size. */
  lemma WindowsAdjoin<T>(s: seq<T>, offset: nat, limit: nat)
    ensures Window(s, offset, limit) + Window(s, offset + limit, limit) == Window(s, offset, 2 * limit)
  {
    var lo, mid, hi := Min(offset, |s|), Min(offset + limit, |s|), Min(offset + 2 * limit, |s|);
    assert s[lo..mid] + s[mid..hi] == s[lo..hi];
  }
}
