/** Numeric helpers shared by the loggers: sums over sequences and the C conversions to integers. */
module Numbers {
  import opened SeqFacts

  /** Left-to-right sum, as std::accumulate computes it (over reals). */
  function Sum(s: seq<real>): real
  {
    if |s| == 0 then 0.0 else Sum(s[..|s| - 1]) + s[|s| - 1]
  }

  /** Every element minus `c`. */
  function Shift(s: seq<real>, c: real): (r: seq<real>)
    ensures |r| == |s|
  {
    seq(|s|, i requires 0 <= i < |s| => s[i] - c)
  }

  /** The pointwise combination a*x + b*y over the length of `x`. */
  function Combine(x: seq<real>, y: seq<real>, a: real, b: real): (r: seq<real>)
    requires |y| >= |x|
    ensures |r| == |x|
  {
    seq(|x|, i requires 0 <= i < |x| => a * x[i] + b * y[i])
  }

  lemma SumSnoc(s: seq<real>, x: real)
    ensures Sum(s + [x]) == Sum(s) + x
  {
    FrontOfSnoc(s, x);
  }

  /** Sum distributes over concatenation. */
  lemma {:induction false} SumConcat(a: seq<real>, b: seq<real>)
    ensures Sum(a + b) == Sum(a) + Sum(b)
    decreases |b|
  {
    if |b| > 0 {
      var b', last := b[..|b| - 1], b[|b| - 1];
      ConcatSnoc(a, b);
      SumSnoc(a + b', last);
      SumConcat(a, b');
    } else {
      ConcatEmpty(a);
    }
  }

  /** Subtracting a constant from every element lowers the sum by |s| times it. */
  lemma {:induction false} SumShift(s: seq<real>, c: real)
    ensures Sum(Shift(s, c)) == Sum(s) - (|s| as real) * c
    decreases |s|
  {
    if |s| > 0 {
      var s' := s[..|s| - 1];
      ShiftFront(s, c);
      SumShift(s', c);
      ShiftStep(Sum(s'), s[|s| - 1], (|s'| as real), c);
    }
  }

  lemma ShiftStep(a: real, b: real, k: real, c: real)
    ensures a - k * c + (b - c) == (a + b) - (k + 1.0) * c
  {
  }

  lemma ShiftFront(s: seq<real>, c: real)
    requires |s| > 0
    ensures Shift(s, c)[..|s| - 1] == Shift(s[..|s| - 1], c)
  {
  }

  /** Subtracting the mean leaves a sequence that sums to zero. */
  lemma CenteredSumsToZero(s: seq<real>)
    requires |s| > 0
    ensures Sum(Shift(s, Sum(s) / (|s| as real))) == 0.0
  {
    SumShift(s, Sum(s) / (|s| as real));
  }

  /** C's conversion of a floating value to an integer type: truncation toward zero. */
  function TruncToZero(x: real): (n: int)
    ensures x >= 0.0 ==> n as real <= x < n as real + 1.0
    ensures x < 0.0 ==> n as real - 1.0 < x <= n as real
  {
    if x >= 0.0 then x.Floor else -((-x).Floor)
  }

  /** C's round(): nearest integer, halfway cases away from zero. */
  function Round(x: real): (n: int)
    ensures x - 0.5 <= n as real <= x + 0.5
    ensures x >= 0.0 ==> n >= 0
    ensures x >= 0.0 ==> x - 0.5 < n as real
    ensures x < 0.0 ==> n <= 0 && n as real < x + 0.5
  {
    if x >= 0.0 then (x + 0.5).Floor else -((-x + 0.5).Floor)
  }
}
