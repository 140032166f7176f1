/**
 * The contract of std::nth_element: after it, the element at position k is the
 * one a full ascending sort would put there. The sort is given here by insertion.
 */
module OrderStatistics {
  import opened SeqFacts

  predicate Ascending(t: seq<real>)
  {
    forall i, j :: 0 <= i < j < |t| ==> t[i] <= t[j]
  }

  /** `x` inserted into `t` before the first element not smaller than it. */
  function Insert(x: real, t: seq<real>): (r: seq<real>)
    ensures |r| == |t| + 1
  {
    if |t| == 0 then [x]
    else if x <= t[0] then [x] + t
    else [t[0]] + Insert(x, t[1..])
  }

  /** The elements of `s` in ascending order. */
  function Sort(s: seq<real>): (t: seq<real>)
    ensures |t| == |s|
  {
    if |s| == 0 then [] else Insert(s[|s| - 1], Sort(s[..|s| - 1]))
  }

  /** The element at position k of the sorted sequence (nth_element's pivot). */
  function NthSmallest(s: seq<real>, k: nat): real
    requires k < |s|
  {
    Sort(s)[k]
  }

  lemma {:induction false} InsertAscending(x: real, t: seq<real>)
    requires Ascending(t)
    ensures Ascending(Insert(x, t))
    decreases |t|
  {
    if |t| > 0 && x > t[0] {
      var rest := t[1..];
      assert Ascending(rest);
      InsertAscending(x, rest);
      InsertBounds(x, rest, t[0]);
    }
  }

  /** A lower bound of `x` and of all of `t` bounds the insertion. */
  lemma {:induction false} InsertBounds(x: real, t: seq<real>, lo: real)
    requires lo <= x && forall i :: 0 <= i < |t| ==> lo <= t[i]
    ensures forall i :: 0 <= i < |Insert(x, t)| ==> lo <= Insert(x, t)[i]
    decreases |t|
  {
    if |t| > 0 && x > t[0] {
      InsertBounds(x, t[1..], lo);
    }
  }

  lemma {:induction false} InsertMultiset(x: real, t: seq<real>)
    ensures multiset(Insert(x, t)) == multiset(t) + multiset{x}
    decreases |t|
  {
    if |t| > 0 {
      ConsTail(t);
      if x > t[0] {
        InsertMultiset(x, t[1..]);
      }
    }
  }

  /** Sort gives an ascending permutation of its input. */
  lemma {:induction false} SortSpec(s: seq<real>)
    ensures Ascending(Sort(s))
    ensures multiset(Sort(s)) == multiset(s)
  {
    if |s| > 0 {
      var front := s[..|s| - 1];
      SortSpec(front);
      InsertAscending(s[|s| - 1], Sort(front));
      InsertMultiset(s[|s| - 1], Sort(front));
      FrontLast(s);
    }
  }

  /** The order statistic is an element of the input, with everything before it in sorted order no larger. */
  lemma NthSmallestSpec(s: seq<real>, k: nat)
    requires k < |s|
    ensures NthSmallest(s, k) in multiset(s)
    ensures forall i :: 0 <= i < k ==> Sort(s)[i] <= NthSmallest(s, k)
    ensures forall i :: k < i < |s| ==> NthSmallest(s, k) <= Sort(s)[i]
  {
    SortSpec(s);
    assert Sort(s)[k] in multiset(Sort(s));
  }
}
