/**
 * The order std::map<std::string, …> keeps its keys in: std::string's
 * lexicographic comparison, character by character, a proper prefix first.
 */
module StringOrder {

  /** `a` sorts strictly before `b`. */
  predicate Less(a: string, b: string)
  {
    LessFrom(a, b, 0)
  }

  /** Lexicographic comparison of `a` and `b` from position `k` on, the first `k` characters being equal. */
  predicate LessFrom(a: string, b: string, k: nat)
    requires k <= |a| && k <= |b|
    decreases |a| - k
  {
    if k == |a| then k < |b|
    else if k == |b| then false
    else if a[k] < b[k] then true
    else if b[k] < a[k] then false
    else LessFrom(a, b, k + 1)
  }

  /** `a` and `b` agree from position `k` on. */
  predicate SameFrom(a: string, b: string, k: nat)
    requires k <= |a| && k <= |b|
  {
    |a| == |b| && forall j :: k <= j < |a| ==> a[j] == b[j]
  }

  lemma {:induction false} LessFromIrreflexive(a: string, k: nat)
    requires k <= |a|
    ensures !LessFrom(a, a, k)
    decreases |a| - k
  {
    if k < |a| {
      LessFromIrreflexive(a, k + 1);
    }
  }

  lemma {:induction false} LessFromTransitive(a: string, b: string, c: string, k: nat)
    requires k <= |a| && k <= |b| && k <= |c|
    requires LessFrom(a, b, k) && LessFrom(b, c, k)
    ensures LessFrom(a, c, k)
    decreases |a| - k
  {
    if k < |a| && k < |b| && k < |c| && a[k] == b[k] && b[k] == c[k] {
      LessFromTransitive(a, b, c, k + 1);
    }
  }

  lemma {:induction false} LessFromTotal(a: string, b: string, k: nat)
    requires k <= |a| && k <= |b|
    ensures LessFrom(a, b, k) || LessFrom(b, a, k) || SameFrom(a, b, k)
    decreases |a| - k
  {
    if k < |a| && k < |b| && a[k] == b[k] {
      LessFromTotal(a, b, k + 1);
    }
  }

  /** No string sorts before itself. */
  lemma Irreflexive(a: string)
    ensures !Less(a, a)
  {
    LessFromIrreflexive(a, 0);
  }

  lemma Transitive(a: string, b: string, c: string)
    requires Less(a, b) && Less(b, c)
    ensures Less(a, c)
  {
    LessFromTransitive(a, b, c, 0);
  }

  /** Any two different strings are ordered one way or the other. */
  lemma Total(a: string, b: string)
    requires a != b
    ensures Less(a, b) || Less(b, a)
  {
    LessFromTotal(a, b, 0);
    SameFromStart(a, b);
  }

  lemma SameFromStart(a: string, b: string)
    ensures SameFrom(a, b, 0) ==> a == b
  {
    if SameFrom(a, b, 0) {
      assert a == b;
    }
  }

  /** Never both ways. */
  lemma Asymmetric(a: string, b: string)
    requires Less(a, b)
    ensures !Less(b, a)
  {
    if Less(b, a) {
      Transitive(a, b, a);
      Irreflexive(a);
    }
  }
}
