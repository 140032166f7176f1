/**
 * std::map<std::string, std::vector<float>> as the summary logger uses it: a
 * list of (key, values) entries kept in ascending key order with distinct keys,
 * grown by `m[k].push_back(v)` and read in key order.
 */
module OrderedMap {
  import opened StringOrder

  type Entries = seq<(string, seq<real>)>

  /** Keys strictly ascending, hence distinct. */
  predicate Sorted(e: Entries)
  {
    forall i, j :: 0 <= i < j < |e| ==> Less(e[i].0, e[j].0)
  }

  /** Every key holds at least one value: a key only appears through a push_back. */
  predicate NonEmpty(e: Entries)
  {
    forall i :: 0 <= i < |e| ==> |e[i].1| > 0
  }

  predicate HasKey(e: Entries, k: string)
  {
    exists j :: 0 <= j < |e| && e[j].0 == k
  }

  /** lower_bound: the first position whose key does not sort before `k`. */
  function LowerBound(e: Entries, k: string): (p: nat)
    ensures p <= |e|
    ensures forall j :: 0 <= j < p ==> Less(e[j].0, k)
    ensures p < |e| ==> !Less(e[p].0, k)
  {
    LowerBoundFrom(e, k, 0)
  }

  function LowerBoundFrom(e: Entries, k: string, i: nat): (p: nat)
    requires i <= |e|
    ensures i <= p <= |e|
    ensures forall j :: i <= j < p ==> Less(e[j].0, k)
    ensures p < |e| ==> !Less(e[p].0, k)
    decreases |e| - i
  {
    if i < |e| then (if Less(e[i].0, k) then LowerBoundFrom(e, k, i + 1) else i) else i
  }

  /** `e` with position `p` replaced by `x`. */
  function Replace(e: Entries, p: nat, x: (string, seq<real>)): (r: Entries)
    requires p < |e|
    ensures |r| == |e|
    ensures forall i :: 0 <= i < |r| ==> r[i] == if i == p then x else e[i]
  {
    e[..p] + [x] + e[p + 1..]
  }

  /** `e` with `x` inserted before position `p`. */
  function Insert(e: Entries, p: nat, x: (string, seq<real>)): (r: Entries)
    requires p <= |e|
    ensures |r| == |e| + 1
    ensures forall i :: 0 <= i < |r| ==> r[i] == if i < p then e[i] else if i == p then x else e[i - 1]
  {
    e[..p] + [x] + e[p..]
  }

  /** `m[k].push_back(v)`: append to the entry of `k`, creating it (empty) first if absent. */
  function PushBack(e: Entries, k: string, v: real): Entries
  {
    var p := LowerBound(e, k);
    if p < |e| && e[p].0 == k then Replace(e, p, (k, e[p].1 + [v])) else Insert(e, p, (k, [v]))
  }

  /** The values stored under `k`, or none. */
  function Get(e: Entries, k: string): seq<real>
  {
    GetFrom(e, k, 0)
  }

  function GetFrom(e: Entries, k: string, i: nat): seq<real>
    requires i <= |e|
    decreases |e| - i
  {
    if i < |e| then (if e[i].0 == k then e[i].1 else GetFrom(e, k, i + 1)) else []
  }

  lemma {:induction false} GetFromAt(e: Entries, k: string, i: nat, j: nat)
    requires i <= j < |e| && e[j].0 == k
    requires forall m :: i <= m < j ==> e[m].0 != k
    ensures GetFrom(e, k, i) == e[j].1
    decreases j - i
  {
    if i < j {
      GetFromAt(e, k, i + 1, j);
    }
  }

  lemma {:induction false} GetFromNone(e: Entries, k: string, i: nat)
    requires i <= |e|
    requires forall m :: i <= m < |e| ==> e[m].0 != k
    ensures GetFrom(e, k, i) == []
    decreases |e| - i
  {
    if i < |e| {
      GetFromNone(e, k, i + 1);
    }
  }

  /** In a sorted map the entry holding `k` is the one `Get` finds. */
  lemma GetAt(e: Entries, k: string, j: nat)
    requires Sorted(e) && j < |e| && e[j].0 == k
    ensures Get(e, k) == e[j].1
  {
    forall m | 0 <= m < j
      ensures e[m].0 != k
    {
      if e[m].0 == k {
        Irreflexive(k);
      }
    }
    GetFromAt(e, k, 0, j);
  }

  /** A missing key has no values. */
  lemma GetAbsent(e: Entries, k: string)
    requires !HasKey(e, k)
    ensures Get(e, k) == []
  {
    GetFromNone(e, k, 0);
  }

  /** With sorted keys, every key from the lower bound on sorts after `k` or is `k`. */
  lemma AtOrAfter(e: Entries, k: string, j: nat)
    requires Sorted(e) && LowerBound(e, k) <= j < |e|
    ensures e[j].0 == k || Less(k, e[j].0)
  {
    var p := LowerBound(e, k);
    if e[p].0 != k {
      Total(e[p].0, k);
      if j > p {
        Transitive(k, e[p].0, e[j].0);
      }
    } else if j > p {
      assert Less(e[p].0, e[j].0);
    }
  }

  /** When the entry at the lower bound is not `k`, the key is absent. */
  lemma AbsentBeyondLowerBound(e: Entries, k: string)
    requires Sorted(e)
    requires var p := LowerBound(e, k); !(p < |e| && e[p].0 == k)
    ensures !HasKey(e, k)
  {
    var p := LowerBound(e, k);
    forall j | 0 <= j < |e|
      ensures e[j].0 != k
    {
      if j < p {
        if e[j].0 == k {
          Irreflexive(k);
        }
      } else {
        AtOrAfter(e, k, j);
        if e[j].0 == k {
          Irreflexive(k);
        }
      }
    }
  }

  /** push_back keeps the keys ascending and every entry non-empty. */
  lemma PushBackSorted(e: Entries, k: string, v: real)
    requires Sorted(e) && NonEmpty(e)
    ensures Sorted(PushBack(e, k, v)) && NonEmpty(PushBack(e, k, v))
  {
    var p := LowerBound(e, k);
    var r := PushBack(e, k, v);
    if !(p < |e| && e[p].0 == k) {
      AbsentBeyondLowerBound(e, k);
      forall i, j | 0 <= i < j < |r|
        ensures Less(r[i].0, r[j].0)
      {
        InsertOrdered(e, k, v, i, j);
      }
    }
  }

  lemma InsertOrdered(e: Entries, k: string, v: real, i: nat, j: nat)
    requires Sorted(e)
    requires var p := LowerBound(e, k); !(p < |e| && e[p].0 == k)
    requires i < j < |e| + 1
    ensures var r := Insert(e, LowerBound(e, k), (k, [v])); Less(r[i].0, r[j].0)
  {
    var p := LowerBound(e, k);
    if i < p && j > p {
      AtOrAfter(e, k, j - 1);
      Transitive(e[i].0, k, e[j - 1].0);
    } else if i == p {
      AtOrAfter(e, k, j - 1);
    }
  }

  /** Pushing `v` under `k` appends `v` to the values of `k` and leaves every other key alone. */
  lemma PushBackGet(e: Entries, k: string, v: real, q: string)
    requires Sorted(e) && NonEmpty(e)
    ensures Get(PushBack(e, k, v), q) == if q == k then Get(e, k) + [v] else Get(e, q)
  {
    var p := LowerBound(e, k);
    var r := PushBack(e, k, v);
    PushBackSorted(e, k, v);
    if p < |e| && e[p].0 == k {
      GetAt(e, k, p);
      if q == k {
        GetAt(r, k, p);
      } else if j :| 0 <= j < |e| && e[j].0 == q {
        GetAt(e, q, j);
        GetAt(r, q, j);
      } else {
        GetAbsent(e, q);
        assert !HasKey(r, q);
        GetAbsent(r, q);
      }
    } else {
      AbsentBeyondLowerBound(e, k);
      GetAbsent(e, k);
      if q == k {
        GetAt(r, k, p);
      } else if j :| 0 <= j < |e| && e[j].0 == q {
        GetAt(e, q, j);
        GetAt(r, q, if j < p then j else j + 1);
      } else {
        GetAbsent(e, q);
        assert !HasKey(r, q);
        GetAbsent(r, q);
      }
    }
  }

  /** In a map whose entries are non-empty, a key is present exactly when it has values. */
  lemma HasKeyIffValues(e: Entries, k: string)
    requires Sorted(e) && NonEmpty(e)
    ensures HasKey(e, k) <==> Get(e, k) != []
  {
    if j :| 0 <= j < |e| && e[j].0 == k {
      GetAt(e, k, j);
    } else {
      GetAbsent(e, k);
    }
  }
}
