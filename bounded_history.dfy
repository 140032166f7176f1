/**
 * The recent-history buffer each sensor thread keeps: a vector that is
 * push_back'ed and, when it grows past its cap, loses its first element.
 */
module BoundedHistory {
  import opened SeqFacts

  /** The contents after one push_back followed by the conditional erase(begin()). */
  function Appended<T>(s: seq<T>, x: T, cap: nat): (r: seq<T>)
    requires |s| <= cap
    ensures |r| <= cap
    ensures |r| == if |s| < cap then |s| + 1 else cap
    ensures cap > 0 ==> r[|r| - 1] == x
    ensures r == (s + [x])[|s| + 1 - |r|..]
  {
    var t := s + [x];
    if |t| > cap then t[1..] else t
  }

  /** Pushing every element of `xs` in order. */
  function AppendedAll<T>(s: seq<T>, xs: seq<T>, cap: nat): (r: seq<T>)
    requires |s| <= cap
    ensures |r| <= cap
    decreases |xs|
  {
    if |xs| == 0 then s else Appended(AppendedAll(s, xs[..|xs| - 1], cap), xs[|xs| - 1], cap)
  }

  /** The last `cap` elements of `t` (all of `t` when it is shorter). */
  function Window<T>(t: seq<T>, cap: nat): seq<T>
  {
    if |t| <= cap then t else t[|t| - cap..]
  }

  /** One push keeps the window: pushing onto the window of `t` gives the window of `t + [x]`. */
  lemma WindowSnoc<T>(t: seq<T>, x: T, cap: nat)
    ensures |Window(t, cap)| <= cap
    ensures Appended(Window(t, cap), x, cap) == Window(t + [x], cap)
  {
    var w := Window(t, cap);
    var u := t + [x];
    if |t| < cap {
      assert w == t;
    } else {
      assert w + [x] == u[|u| - (cap + 1)..];
      if cap > 0 {
        assert (w + [x])[1..] == u[|u| - cap..];
      }
    }
  }

  /**
   * FIFO eviction: after any run of pushes the buffer holds exactly the most
   * recent min(total, cap) items, oldest first.
   */
  lemma {:induction false} AppendedAllKeepsNewest<T>(s: seq<T>, xs: seq<T>, cap: nat)
    requires |s| <= cap
    ensures AppendedAll(s, xs, cap) == Window(s + xs, cap)
    decreases |xs|
  {
    if |xs| > 0 {
      var xs', x := xs[..|xs| - 1], xs[|xs| - 1];
      AppendedAllKeepsNewest(s, xs', cap);
      WindowSnoc(s + xs', x, cap);
      ConcatSnoc(s, xs);
    } else {
      assert s + xs == s;
    }
  }

  /** A capped history of samples guarded, in the source, by its own mutex. */
  class History<T> {
    const capacity: nat
    var items: seq<T>

    ghost predicate Valid()
      reads this
    {
      |items| <= capacity
    }

    constructor (capacity: nat)
      ensures Valid()
      ensures this.capacity == capacity && items == []
    {
      this.capacity := capacity;
      items := [];
    }

    /** push_back, then erase(begin()) if the size went over the cap. */
    method Append(x: T)
      requires Valid()
      modifies this
      ensures Valid()
      ensures items == Appended(old(items), x, capacity)
    {
      items := items + [x];
      if |items| > capacity {
        items := items[1..];
      }
    }

    /** The copy taken under the lock (`snapshot = buffer`). */
    method Snapshot() returns (s: seq<T>)
      ensures s == items
    {
      s := items;
    }
  }
}
