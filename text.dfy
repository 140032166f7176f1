/** Character-level helpers: searching, splitting on a separator, joining. */
module Text {
  import opened SeqFacts

  /** Position of the first `c` in `s`, or `|s|` when there is none (find, with npos as |s|). */
  function IndexOf(s: string, c: char): (i: nat)
    ensures i <= |s|
    ensures i < |s| ==> s[i] == c
  {
    IndexFrom(s, c, 0)
  }

  /** Position of the first `c` at or after `k` (find(c, k)), or `|s|` when there is none. */
  function IndexFrom(s: string, c: char, k: nat): (i: nat)
    requires k <= |s|
    ensures k <= i <= |s|
    ensures i < |s| ==> s[i] == c
    decreases |s| - k
  {
    if k < |s| then (if s[k] == c then k else IndexFrom(s, c, k + 1)) else |s|
  }

  /** `sub` occurs somewhere in `s` (string::find(sub) != npos). */
  predicate Contains(s: string, sub: string)
  {
    exists i :: 0 <= i <= |s| - |sub| && OccursAt(s, sub, i)
  }

  predicate OccursAt(s: string, sub: string, i: int)
    requires 0 <= i <= |s| - |sub|
  {
    s[i..i + |sub|] == sub
  }

  /** Every piece between separators, including empty ones and the piece after the last separator. */
  function Split(s: string, c: char): (parts: seq<string>)
    ensures |parts| >= 1
    decreases |s|
  {
    var i := IndexOf(s, c);
    if i < |s| then [s[..i]] + Split(s[i + 1..], c) else [s]
  }

  /** The pieces with one `c` between neighbours. */
  function Join(parts: seq<string>, c: char): string
  {
    if |parts| == 0 then ""
    else if |parts| == 1 then parts[0]
    else parts[0] + [c] + Join(parts[1..], c)
  }

  /** No `c` lies between `k` and the position `IndexFrom` reports. */
  lemma {:induction false} IndexFromFirst(s: string, c: char, k: nat)
    requires k <= |s|
    ensures forall j :: k <= j < IndexFrom(s, c, k) ==> s[j] != c
    decreases |s| - k
  {
    if k < |s| && s[k] != c {
      IndexFromFirst(s, c, k + 1);
    }
  }

  /** No `c` comes before the position `IndexOf` reports. */
  lemma IndexOfFirst(s: string, c: char)
    ensures forall j :: 0 <= j < IndexOf(s, c) ==> s[j] != c
  {
    IndexFromFirst(s, c, 0);
  }

  /** `IndexOf` reaches the end exactly when `c` does not occur. */
  lemma IndexOfAbsent(s: string, c: char)
    ensures IndexOf(s, c) == |s| <==> c !in s
  {
    IndexOfFirst(s, c);
    var i := IndexOf(s, c);
    if i < |s| {
      assert s[i] == c;
    } else {
      assert forall j :: 0 <= j < |s| ==> s[j] != c;
    }
  }

  /** No piece produced by Split contains the separator. */
  lemma {:induction false} SplitPiecesFree(s: string, c: char)
    ensures forall k :: 0 <= k < |Split(s, c)| ==> c !in Split(s, c)[k]
    decreases |s|
  {
    var i := IndexOf(s, c);
    IndexOfAbsent(s, c);
    IndexOfFirst(s, c);
    if i < |s| {
      SplitPiecesFree(s[i + 1..], c);
      assert forall j :: 0 <= j < i ==> s[..i][j] != c;
    }
  }

  /** One step of Split: the piece before the first separator, then the split of the rest. */
  lemma SplitUnfold(s: string, c: char)
    requires IndexOf(s, c) < |s|
    ensures Split(s, c) == [s[..IndexOf(s, c)]] + Split(s[IndexOf(s, c) + 1..], c)
  {
  }

  lemma JoinCons(p: string, tail: seq<string>, c: char)
    requires |tail| >= 1
    ensures Join([p] + tail, c) == p + [c] + Join(tail, c)
  {
    TailOfCons(p, tail);
  }

  /** Joining the pieces back gives the original text. */
  lemma {:induction false} JoinSplit(s: string, c: char)
    ensures Join(Split(s, c), c) == s
    decreases |s|
  {
    var i := IndexOf(s, c);
    if i < |s| {
      var rest := s[i + 1..];
      SplitUnfold(s, c);
      JoinCons(s[..i], Split(rest, c), c);
      JoinSplit(rest, c);
      CutAt(s, i);
    }
  }

  /** Splitting a join of separator-free pieces gives the pieces back. */
  lemma {:induction false} SplitJoin(parts: seq<string>, c: char)
    requires |parts| >= 1
    requires forall k :: 0 <= k < |parts| ==> c !in parts[k]
    ensures Split(Join(parts, c), c) == parts
  {
    if |parts| > 1 {
      var p, rest := parts[0], Join(parts[1..], c);
      JoinCons(p, parts[1..], c);
      ConsTail(parts);
      SeparatorAfter(p, c, rest);
      SplitUnfold(p + [c] + rest, c);
      SplitJoin(parts[1..], c);
    } else {
      IndexOfAbsent(parts[0], c);
      Single(parts);
    }
  }

  /** In `p + [c] + t` with `c` absent from `p`, the first `c` is the one after `p`. */
  lemma SeparatorAfter(p: string, c: char, t: string)
    requires c !in p
    ensures var s := p + [c] + t;
      && IndexOf(s, c) == |p| && s[..|p|] == p && s[|p| + 1..] == t
  {
    var s := p + [c] + t;
    assert s == p + ([c] + t);
    IndexOfPrefix(p, [c] + t, c);
  }

  /** The first `c` is pinned down by its position: a `c` with no `c` before it. */
  lemma IndexOfIs(s: string, c: char, j: nat)
    requires j < |s| && s[j] == c
    requires forall m :: 0 <= m < j ==> s[m] != c
    ensures IndexOf(s, c) == j
  {
    IndexFromIs(s, c, 0, j);
  }

  lemma {:induction false} IndexFromIs(s: string, c: char, k: nat, j: nat)
    requires k <= j < |s| && s[j] == c
    requires forall m :: k <= m < j ==> s[m] != c
    ensures IndexFrom(s, c, k) == j
    decreases j - k
  {
    if k < j {
      IndexFromIs(s, c, k + 1, j);
    }
  }

  /** With no `c` from `k` on, `IndexFrom` reports the end. */
  lemma {:induction false} IndexFromNone(s: string, c: char, k: nat)
    requires k <= |s|
    requires forall m :: k <= m < |s| ==> s[m] != c
    ensures IndexFrom(s, c, k) == |s|
    decreases |s| - k
  {
    if k < |s| {
      IndexFromNone(s, c, k + 1);
    }
  }

  /** When `c` is absent from `p`, the first `c` of `p + t` is the first `c` of `t`, shifted. */
  lemma IndexOfPrefix(p: string, t: string, c: char)
    requires c !in p
    ensures IndexOf(p + t, c) == |p| + IndexOf(t, c)
  {
    var j := IndexOf(t, c);
    IndexOfFirst(t, c);
    if j < |t| {
      IndexOfIs(p + t, c, |p| + j);
    } else {
      IndexFromNone(p + t, c, 0);
    }
  }

  /** Splitting text that opens with a separator-free piece peels that piece off first. */
  lemma SplitCons(p: string, t: string, c: char)
    requires c !in p
    ensures Split(p + [c] + t, c) == [p] + Split(t, c)
  {
    SeparatorAfter(p, c, t);
    SplitUnfold(p + [c] + t, c);
  }

  /** Splitting separator-free text gives it back as the only piece. */
  lemma SplitNone(s: string, c: char)
    requires c !in s
    ensures Split(s, c) == [s]
  {
    IndexOfAbsent(s, c);
  }

  /** Joining one more piece adds a separator and the piece at the end. */
  lemma {:induction false} JoinSnoc(parts: seq<string>, e: string, c: char)
    requires |parts| >= 1
    ensures Join(parts + [e], c) == Join(parts, c) + [c] + e
  {
    var all := parts + [e];
    assert all[1..] == parts[1..] + [e];
    if |parts| > 1 {
      JoinSnoc(parts[1..], e, c);
      assert Join(all, c) == parts[0] + [c] + (Join(parts[1..], c) + [c] + e);
    }
  }

  /** Splitting joined separator-free pieces followed by a separator and more text. */
  lemma {:induction false} SplitJoinThen(parts: seq<string>, t: string, c: char)
    requires |parts| >= 1
    requires forall k :: 0 <= k < |parts| ==> c !in parts[k]
    ensures Split(Join(parts, c) + [c] + t, c) == parts + Split(t, c)
  {
    if |parts| == 1 {
      SplitCons(parts[0], t, c);
      Single(parts);
    } else {
      var rest := Join(parts[1..], c);
      JoinCons(parts[0], parts[1..], c);
      ConsTail(parts);
      assert Join(parts, c) + [c] + t == parts[0] + [c] + (rest + [c] + t);
      SplitCons(parts[0], rest + [c] + t, c);
      SplitJoinThen(parts[1..], t, c);
      ConsAssoc(parts[0], parts[1..], Split(t, c));
    }
  }
}
