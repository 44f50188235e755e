/** The bounded FIFO history (FixedSizeQueue.cs). */
module Queues {

  /** The last `n` elements of `s` (all of `s` when it is shorter). */
  function LastN<T>(s: seq<T>, n: nat): (r: seq<T>)
  {
    if |s| <= n then s else s[|s| - n..]
  }

  /** `LastN` keeps `min(|s|, n)` elements, and they are a suffix of `s` in their original order. */
  lemma LastNShape<T>(s: seq<T>, n: nat)
    ensures |LastN(s, n)| == if |s| <= n then |s| else n
    ensures LastN(s, n) == s[|s| - |LastN(s, n)|..]
    ensures forall i :: 0 <= i < |LastN(s, n)| ==> LastN(s, n)[i] == s[|s| - |LastN(s, n)| + i]
  {
  }

  /**
    A queue of capacity `limit` (a settable property) whose Enqueue evicts the
    oldest items until at most `limit` remain. The items are those of the
    inherited Queue<T>, oldest first.
  */
  class FixedSizeQueue<T> {
    var items: seq<T>
    var limit: int

    constructor (limit: int)
      ensures items == [] && this.limit == limit
    {
      items := [];
      this.limit := limit;
    }

    /** Count */
    function Count(): (n: nat)
      reads this
      ensures n == |items|
    {
      |items|
    }

    /** The Limit setter: it only records the value; nothing is evicted until the next Enqueue. */
    method SetLimit(limit: int)
      modifies this`limit
      ensures this.limit == limit && items == old(items)
    {
      this.limit := limit;
    }

    /**
      Append, then Dequeue while Count > Limit. A negative Limit would make the
      loop dequeue from an empty queue, which throws; callers keep Limit >= 0.
    */
    method Enqueue(x: T)
      requires limit >= 0
      modifies this`items
      ensures items == LastN(old(items) + [x], limit)
    {
      ghost var all := items + [x];
      items := items + [x];
      while |items| > limit
        invariant items == all[|all| - |items|..]
        invariant items == all || |items| >= limit
        decreases |items|
      {
        items := items[1..];
      }
    }
  }

  /** With a positive limit the item just enqueued is the newest one retained. */
  lemma NewestIsRetained<T>(s: seq<T>, x: T, limit: nat)
    requires limit >= 1
    ensures |LastN(s + [x], limit)| >= 1
    ensures LastN(s + [x], limit)[|LastN(s + [x], limit)| - 1] == x
  {
  }

  /** With limit 0 every Enqueue leaves the queue empty. */
  lemma ZeroLimitKeepsNothing<T>(s: seq<T>, x: T)
    ensures LastN(s + [x], 0) == []
  {
  }

  /** An Enqueue removes nothing when the queue fits after the append, and exactly Count - Limit items otherwise. */
  lemma EvictionCount<T>(s: seq<T>, x: T, limit: nat)
    ensures |s| + 1 <= limit ==> LastN(s + [x], limit) == s + [x]
    ensures |s| + 1 > limit ==> |s| + 1 - |LastN(s + [x], limit)| == |s| + 1 - limit
  {
  }

  /** Evicting from the already-trimmed queue gives the same result as evicting from everything ever inserted. */
  lemma {:induction false} LastNAppend<T>(s: seq<T>, x: T, n: nat)
    ensures LastN(LastN(s, n) + [x], n) == LastN(s + [x], n)
  {
    if |s| > n {
      var t := s[|s| - n..];
      assert LastN(s, n) == t;
      if n == 0 {
        assert LastN(t + [x], n) == [] == LastN(s + [x], n);
      } else {
        var a, b := t + [x], s + [x];
        assert a[|a| - n..] == b[|b| - n..];
      }
    }
  }

  /** The contents after enqueueing `xs`, one by one, into an empty queue of capacity `n`. */
  function Replay<T>(xs: seq<T>, n: nat): seq<T>
  {
    if xs == [] then [] else LastN(Replay(xs[..|xs| - 1], n) + [xs[|xs| - 1]], n)
  }

  /** After any sequence of insertions the queue holds exactly the `n` most recent ones, oldest first. */
  lemma {:induction false} ReplayKeepsMostRecent<T>(xs: seq<T>, n: nat)
    ensures Replay(xs, n) == LastN(xs, n)
    ensures |Replay(xs, n)| <= n
  {
    if xs != [] {
      var init := xs[..|xs| - 1];
      ReplayKeepsMostRecent(init, n);
      LastNAppend(init, xs[|xs| - 1], n);
      assert init + [xs[|xs| - 1]] == xs;
    }
  }
}
