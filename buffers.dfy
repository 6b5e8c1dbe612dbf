/**
 * The two mutable containers behind the dashboard: a Python list that the
 * handlers append to and `_limit_list` trims in place, and the
 * `deque(maxlen=...)` of response times.
 */
module Buffers {
  import opened Seqs

  /** A Python list of events, updated in place. */
  class EventList<T> {
    var items: seq<T>

    /** `[]` */
    constructor()
      ensures items == []
    {
      items := [];
    }

    /** `lst.append(x)` */
    method Append(x: T)
      modifies this
      ensures items == old(items) + [x]
    {
      items := items + [x];
    }

    /** `del lst[:k]` for `k >= 0`: drops the first `k` entries (all of them when there are fewer). */
    method DeletePrefix(k: nat)
      modifies this
      ensures items == old(items)[Min(k, |old(items)|)..]
    {
      if k < |items| {
        items := items[k..];
      } else {
        items := [];
      }
    }
  }

  /**
   * `_limit_list(lst, maxlen)`: deletes the oldest entries so that at most
   * `maxlen` remain; the survivors are the newest ones, in their order.
   */
  method LimitList<T>(lst: EventList<T>, maxlen: nat)
    modifies lst
    ensures lst.items == Newest(old(lst.items), maxlen)
    ensures |old(lst.items)| <= maxlen ==> lst.items == old(lst.items)
  {
    if |lst.items| > maxlen {
      lst.DeletePrefix(|lst.items| - maxlen);
    }
  }

  /** `collections.deque(maxlen=maxlen)` restricted to `append`. */
  class BoundedDeque<T> {
    const maxlen: nat
    var items: seq<T>

    ghost predicate Valid()
      reads this
    {
      |items| <= maxlen
    }

    constructor(maxlen: nat)
      ensures Valid() && this.maxlen == maxlen && items == []
    {
      this.maxlen := maxlen;
      items := [];
    }

    /**
     * `d.append(x)`: when the deque is full the oldest element is discarded
     * first; a deque of capacity 0 stays empty.
     */
    method Append(x: T)
      requires Valid()
      modifies this
      ensures Valid()
      ensures items == Newest(old(items) + [x], maxlen)
    {
      if maxlen > 0 {
        if |items| == maxlen {
          items := items[1..] + [x];
        } else {
          items := items + [x];
        }
      }
    }
  }
}
