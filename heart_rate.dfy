/**
 * Heart-rate estimation from the mean face colour (the POS, "plane orthogonal
 * to skin", method): detrend the colour channels, project them onto the pulse
 * plane with a robust scale ratio, band-pass filter, remove the mean, and take
 * the strongest frequency between 0.7 and 4 Hz.
 */
module HeartRate {
  import opened Shared
  import opened Numbers
  import opened SeqFacts
  import opened OrderStatistics

  // ---------------------------------------------------------------------------
  // robust_std: scaled median absolute deviation
  // ---------------------------------------------------------------------------

  /** The factor that makes the median absolute deviation a consistent estimate of a normal standard deviation. */
  const MadScale: real := 1.4826

  function Abs(x: real): (r: real)
    ensures r >= 0.0 && (r == x || r == -x)
  {
    if x < 0.0 then -x else x
  }

  /** |d - m| for every element d. */
  function AbsDev(data: seq<real>, m: real): (dev: seq<real>)
    ensures |dev| == |data|
  {
    seq(|data|, i requires 0 <= i < |data| => Abs(data[i] - m))
  }

  /**
   * 1.4826 times the middle (index n/2) of the sorted absolute deviations from
   * the middle (index n/2) of the sorted data.
   */
  function RobustStd(data: seq<real>): real
    requires |data| > 0
  {
    var median := NthSmallest(data, |data| / 2);
    MadScale * NthSmallest(AbsDev(data, median), |data| / 2)
  }

  /** robust_std: the absolute deviations are collected in a loop before the second selection. */
  method ComputeRobustStd(data: seq<real>) returns (result: real)
    requires |data| > 0
    ensures result == RobustStd(data)
  {
    var median := NthSmallest(data, |data| / 2);
    var absDev: seq<real> := [];
    for i := 0 to |data|
      invariant |absDev| == i
      invariant forall j :: 0 <= j < i ==> absDev[j] == Abs(data[j] - median)
    {
      absDev := absDev + [Abs(data[i] - median)];
    }
    assert absDev == AbsDev(data, median);
    var mad := NthSmallest(absDev, |absDev| / 2);
    result := MadScale * mad;
  }

  /** The robust scale is never negative: the selected deviation is one of the deviations. */
  lemma RobustStdNonNegative(data: seq<real>)
    requires |data| > 0
    ensures RobustStd(data) >= 0.0
  {
    var median := NthSmallest(data, |data| / 2);
    var dev := AbsDev(data, median);
    NthSmallestSpec(dev, |data| / 2);
    var mad := NthSmallest(dev, |data| / 2);
    assert mad in multiset(dev);
    assert mad in dev;
    var k :| 0 <= k < |dev| && dev[k] == mad;
  }

  /** The median used is an element of the data. */
  lemma MedianIsSample(data: seq<real>)
    requires |data| > 0
    ensures NthSmallest(data, |data| / 2) in data
  {
    NthSmallestSpec(data, |data| / 2);
    assert NthSmallest(data, |data| / 2) in multiset(data);
  }

  // ---------------------------------------------------------------------------
  // pos_algorithm: projection onto the pulse plane
  // ---------------------------------------------------------------------------

  datatype Rgb = Rgb(r: real, g: real, b: real)

  function ChromX(c: Rgb): real
  {
    3.0 * c.r - 2.0 * c.g
  }

  function ChromY(c: Rgb): real
  {
    1.5 * c.r + c.g - 1.5 * c.b
  }

  function Xs(rgb: seq<Rgb>): (x: seq<real>)
    ensures |x| == |rgb|
  {
    seq(|rgb|, i requires 0 <= i < |rgb| => ChromX(rgb[i]))
  }

  function Ys(rgb: seq<Rgb>): (y: seq<real>)
    ensures |y| == |rgb|
  {
    seq(|rgb|, i requires 0 <= i < |rgb| => ChromY(rgb[i]))
  }

  /** std::clamp. */
  function Clamp(v: real, lo: real, hi: real): (r: real)
    requires lo <= hi
    ensures lo <= r <= hi
    ensures lo <= v <= hi ==> r == v
  {
    if v < lo then lo else if hi < v then hi else v
  }

  const AlphaMin: real := 0.3
  const AlphaMax: real := 3.0
  /** Stand-in for a zero scale of the y signal. */
  const ZeroStdReplacement: real := 0.000001

  /** The scale ratio std_x / std_y, a zero std_y replaced by 1e-6, clamped to [0.3, 3.0]. */
  function Alpha(stdX: real, stdY: real): (alpha: real)
    ensures AlphaMin <= alpha <= AlphaMax
  {
    var denominator := if stdY == 0.0 then ZeroStdReplacement else stdY;
    Clamp(stdX / denominator, AlphaMin, AlphaMax)
  }

  /** A ratio already inside the clamp range is used unchanged. */
  lemma AlphaUnclamped(stdX: real, stdY: real)
    requires stdY != 0.0 && AlphaMin <= stdX / stdY <= AlphaMax
    ensures Alpha(stdX, stdY) == stdX / stdY
  {
  }

  /** s[i] = x[i] - alpha * y[i]. */
  function Projection(x: seq<real>, y: seq<real>, alpha: real): (s: seq<real>)
    requires |y| == |x|
    ensures |s| == |x|
  {
    seq(|x|, i requires 0 <= i < |x| => x[i] - alpha * y[i])
  }

  /** The band-pass cut-offs used for the pulse signal, in Hz. */
  const PulseLowCut: real := 0.8
  const PulseHighCut: real := 2.5

  /** The projected pulse signal before filtering. */
  function PulseSignal(rgb: seq<Rgb>): (s: seq<real>)
    requires |rgb| > 0
    ensures |s| == |rgb|
  {
    var x, y := Xs(rgb), Ys(rgb);
    Projection(x, y, Alpha(RobustStd(x), RobustStd(y)))
  }

  /** pos_algorithm: project, then band-pass between 0.8 and 2.5 Hz. */
  function Pos(rgb: seq<Rgb>, fps: real, itaOf: real -> real, q: real): (s: seq<real>)
    requires |rgb| > 0 && q * q == 2.0
    ensures |s| == |rgb|
  {
    ButterBandpass(PulseSignal(rgb), fps, PulseLowCut, PulseHighCut, itaOf, q)
  }

  /** The weight of y in the projection, from the robust scales of x and y. */
  function PulseAlpha(rgb: seq<Rgb>): (alpha: real)
    requires |rgb| > 0
    ensures AlphaMin <= alpha <= AlphaMax
  {
    Alpha(RobustStd(Xs(rgb)), RobustStd(Ys(rgb)))
  }

  /** Each projected sample is x - alpha * y of its own colour, with alpha in [0.3, 3.0]. */
  lemma PulseSignalAt(rgb: seq<Rgb>, i: nat)
    requires i < |rgb|
    ensures AlphaMin <= PulseAlpha(rgb) <= AlphaMax
    ensures PulseSignal(rgb)[i] == ChromX(rgb[i]) - PulseAlpha(rgb) * ChromY(rgb[i])
  {
  }

  /** The chrominance loop: x and y of every sample. */
  method Chrominance(rgb: seq<Rgb>) returns (x: seq<real>, y: seq<real>)
    ensures x == Xs(rgb) && y == Ys(rgb)
  {
    x, y := [], [];
    for i := 0 to |rgb|
      invariant |x| == i && |y| == i
      invariant forall j :: 0 <= j < i ==> x[j] == ChromX(rgb[j])
      invariant forall j :: 0 <= j < i ==> y[j] == ChromY(rgb[j])
    {
      x := x + [3.0 * rgb[i].r - 2.0 * rgb[i].g];
      y := y + [1.5 * rgb[i].r + rgb[i].g - 1.5 * rgb[i].b];
    }
  }

  /** The projection loop. */
  method Project(x: seq<real>, y: seq<real>, alpha: real) returns (s: seq<real>)
    requires |y| == |x|
    ensures s == Projection(x, y, alpha)
  {
    s := [];
    for i := 0 to |x|
      invariant |s| == i
      invariant forall j :: 0 <= j < i ==> s[j] == x[j] - alpha * y[j]
    {
      s := s + [x[i] - alpha * y[i]];
    }
    assert forall j :: 0 <= j < |x| ==> Projection(x, y, alpha)[j] == x[j] - alpha * y[j];
  }

  method PosAlgorithm(rgb: seq<Rgb>, fps: real, itaOf: real -> real, q: real) returns (s: seq<real>)
    requires |rgb| > 0 && q * q == 2.0
    ensures s == Pos(rgb, fps, itaOf, q)
  {
    var x, y := Chrominance(rgb);
    var stdX := ComputeRobustStd(x);
    var stdY := ComputeRobustStd(y);
    if stdY == 0.0 {
      stdY := ZeroStdReplacement;
    }
    var alpha := Clamp(stdX / stdY, AlphaMin, AlphaMax);
    var projected := Project(x, y, alpha);
    s := ButterBandpassFilter(projected, fps, PulseLowCut, PulseHighCut, itaOf, q);
  }

  // ---------------------------------------------------------------------------
  // butter_bandpass_filter: guard and recurrence
  // ---------------------------------------------------------------------------

  /** The filter runs only on signals of at least this many samples. */
  const MinFilterLength: nat := 5

  /**
   * The passthrough guard: a normalised cut-off (cut / (fs / 2)) at or above 1,
   * or fewer than 5 samples. With fs == 0 a positive cut-off divides to +infinity.
   */
  predicate PassThrough(n: nat, fs: real, lowcut: real, highcut: real)
  {
    if fs == 0.0 then lowcut > 0.0 || highcut > 0.0 || n < MinFilterLength
    else lowcut / (0.5 * fs) >= 1.0 || highcut / (0.5 * fs) >= 1.0 || n < MinFilterLength
  }

  datatype Coefficients = Coefficients(b0: real, b1: real, b2: real, a1: real, a2: real)

  /** 1 + q·ita + ita² stays at or above 1/2 when q² = 2, so the normalisation never divides by zero. */
  lemma DenominatorPositive(ita: real, q: real)
    requires q * q == 2.0
    ensures 1.0 + q * ita + ita * ita >= 0.5
  {
    var h := ita + q / 2.0;
    assert h * h == ita * ita + q * ita + q * q / 4.0;
    assert h * h >= 0.0;
  }

  /** The second-order coefficients from ita = 1 / tan(pi (high - low) / 2) and q = sqrt 2. */
  function Butterworth(ita: real, q: real): (c: Coefficients)
    requires q * q == 2.0
    ensures c.b1 == 2.0 * c.b0 && c.b2 == c.b0
  {
    DenominatorPositive(ita, q);
    var b0 := 1.0 / (1.0 + q * ita + ita * ita);
    Coefficients(b0, 2.0 * b0, b0, 2.0 * b0 * (ita * ita - 1.0), b0 * (1.0 - q * ita + ita * ita))
  }

  /** Output sample i of the recurrence; the first two stay 0. */
  function FilterOut(x: seq<real>, c: Coefficients, i: nat): real
    requires i < |x|
  {
    if i < 2 then 0.0
    else c.b0 * x[i] + c.b1 * x[i - 1] + c.b2 * x[i - 2]
         - c.a1 * FilterOut(x, c, i - 1) - c.a2 * FilterOut(x, c, i - 2)
  }

  function Filtered(x: seq<real>, c: Coefficients): (y: seq<real>)
    ensures |y| == |x|
  {
    seq(|x|, i requires 0 <= i < |x| => FilterOut(x, c, i))
  }

  /** The filtered signal, or the input itself when the guard passes it through. */
  function ButterBandpass(signal: seq<real>, fs: real, lowcut: real, highcut: real,
                          itaOf: real -> real, q: real): (y: seq<real>)
    requires q * q == 2.0
    requires fs != 0.0 || lowcut > 0.0 || highcut > 0.0
    ensures |y| == |signal|
  {
    if PassThrough(|signal|, fs, lowcut, highcut) then signal
    else
      var low, high := lowcut / (0.5 * fs), highcut / (0.5 * fs);
      Filtered(signal, Butterworth(itaOf(high - low), q))
  }

  /** Passthrough returns the input unchanged; otherwise the first two outputs are 0. */
  lemma ButterBandpassShape(signal: seq<real>, fs: real, lowcut: real, highcut: real,
                            itaOf: real -> real, q: real)
    requires q * q == 2.0
    requires fs != 0.0 || lowcut > 0.0 || highcut > 0.0
    ensures var y := ButterBandpass(signal, fs, lowcut, highcut, itaOf, q);
      if PassThrough(|signal|, fs, lowcut, highcut) then y == signal
      else |signal| >= MinFilterLength && y[0] == 0.0 && y[1] == 0.0
  {
  }

  /** One step of the recurrence, from the two previous outputs. */
  lemma FilterStep(x: seq<real>, c: Coefficients, i: nat)
    requires 2 <= i < |x|
    ensures FilterOut(x, c, i) == c.b0 * x[i] + c.b1 * x[i - 1] + c.b2 * x[i - 2]
      - c.a1 * FilterOut(x, c, i - 1) - c.a2 * FilterOut(x, c, i - 2)
  {
  }

  /** The recurrence loop over a zero-initialised output array. */
  method Recurrence(x: seq<real>, c: Coefficients) returns (y: array<real>)
    ensures fresh(y)
    ensures y[..] == Filtered(x, c)
  {
    y := new real[|x|](i => 0.0);
    var i := 2;
    while i < |x|
      invariant i == 2 || i <= |x|
      invariant forall j :: 0 <= j < y.Length && j < i ==> y[j] == FilterOut(x, c, j)
      invariant forall j :: i <= j < y.Length ==> y[j] == 0.0
    {
      FilterStep(x, c, i);
      var prev1, prev2 := y[i - 1], y[i - 2];
      y[i] := c.b0 * x[i] + c.b1 * x[i - 1] + c.b2 * x[i - 2] - c.a1 * prev1 - c.a2 * prev2;
      i := i + 1;
    }
    assert y[..] == Filtered(x, c);
  }

  method ButterBandpassFilter(signal: seq<real>, fs: real, lowcut: real, highcut: real,
                              itaOf: real -> real, q: real) returns (y: seq<real>)
    requires q * q == 2.0
    requires fs != 0.0 || lowcut > 0.0 || highcut > 0.0
    ensures y == ButterBandpass(signal, fs, lowcut, highcut, itaOf, q)
  {
    if PassThrough(|signal|, fs, lowcut, highcut) {
      return signal;
    }
    var nyq := 0.5 * fs;
    var low := lowcut / nyq;
    var high := highcut / nyq;
    var c := Butterworth(itaOf(high - low), q);
    var out := Recurrence(signal, c);
    y := out[..];
  }

  // ---------------------------------------------------------------------------
  // Mean removal and peak search
  // ---------------------------------------------------------------------------

  function Average(s: seq<real>): real
    requires |s| > 0
  {
    Sum(s) / |s| as real
  }

  /** `for (auto& v : signal) v -= mean;` */
  method RemoveMean(a: array<real>)
    requires a.Length > 0
    modifies a
    ensures a[..] == Shift(old(a[..]), Average(old(a[..])))
  {
    var mean := Sum(a[..]) / a.Length as real;
    ghost var original := a[..];
    for i := 0 to a.Length
      invariant forall j :: 0 <= j < i ==> a[j] == original[j] - mean
      invariant forall j :: i <= j < a.Length ==> a[j] == original[j]
    {
      a[i] := a[i] - mean;
    }
    assert a[..] == Shift(original, mean);
  }

  /** After mean removal the signal sums to zero. */
  lemma RemovedMeanSumsToZero(s: seq<real>)
    requires |s| > 0
    ensures Sum(Shift(s, Average(s))) == 0.0
  {
    CenteredSumsToZero(s);
  }

  /** The pulse band searched, in Hz. */
  const BandLow: real := 0.7
  const BandHigh: real := 4.0

  predicate InBand(f: real)
  {
    BandLow <= f <= BandHigh
  }

  /** The frequency of DFT bin i for `len` samples at `fps`. */
  function Freq(i: nat, fps: real, len: nat): real
    requires len > 0
  {
    i as real * fps / len as real
  }

  /** The running maximum after bins [0, m) and the bin that set it. */
  datatype Peak = Peak(maxVal: real, best: Option<nat>)

  function Scan(mags: seq<real>, fps: real, len: nat, m: nat): Peak
    requires len > 0 && m <= |mags|
  {
    if m == 0 then Peak(0.0, None)
    else
      var p := Scan(mags, fps, len, m - 1);
      if InBand(Freq(m - 1, fps, len)) && mags[m - 1] > p.maxVal then Peak(mags[m - 1], Some(m - 1)) else p
  }

  /**
   * The scan finds the strictly positive in-band maximum, the earliest bin on a
   * tie, or nothing when no in-band magnitude is positive.
   */
  lemma {:induction false} ScanSpec(mags: seq<real>, fps: real, len: nat, m: nat)
    requires len > 0 && m <= |mags|
    ensures var p := Scan(mags, fps, len, m);
      && (p.best.None? ==> p.maxVal == 0.0)
      && (p.best.Some? ==>
            p.best.value < m && InBand(Freq(p.best.value, fps, len))
            && p.maxVal == mags[p.best.value] > 0.0
            && forall i :: 0 <= i < p.best.value && InBand(Freq(i, fps, len)) ==> mags[i] < p.maxVal)
      && forall i :: 0 <= i < m && InBand(Freq(i, fps, len)) ==> mags[i] <= p.maxVal
  {
    if m > 0 {
      ScanSpec(mags, fps, len, m - 1);
    }
  }

  /** peak_freq: the frequency of the winning bin, or 0. */
  function PeakFreq(mags: seq<real>, fps: real, len: nat): (f: real)
    requires len > 0
  {
    match Scan(mags, fps, len, |mags|).best
    case None => 0.0
    case Some(b) => Freq(b, fps, len)
  }

  /** The peak frequency is 0 or the in-band frequency i * fps / len of some bin i. */
  lemma PeakFreqInBand(mags: seq<real>, fps: real, len: nat)
    requires len > 0
    ensures PeakFreq(mags, fps, len) == 0.0 || InBand(PeakFreq(mags, fps, len))
    ensures PeakFreq(mags, fps, len) == 0.0
      || exists i :: 0 <= i < |mags| && PeakFreq(mags, fps, len) == Freq(i, fps, len) && InBand(Freq(i, fps, len))
  {
    ScanSpec(mags, fps, len, |mags|);
    var best := Scan(mags, fps, len, |mags|).best;
    if best.Some? {
      var i := best.value;
      assert 0 <= i < |mags| && PeakFreq(mags, fps, len) == Freq(i, fps, len) && InBand(Freq(i, fps, len));
    }
  }

  /** The search loop over the bins 0 .. len/2 with their magnitudes. */
  method PeakSearch(mags: seq<real>, fps: real, len: nat) returns (peakFreq: real)
    requires len > 0
    ensures peakFreq == PeakFreq(mags, fps, len)
  {
    var maxVal := 0.0;
    peakFreq := 0.0;
    ghost var best: Option<nat> := None;
    for i := 0 to |mags|
      invariant Scan(mags, fps, len, i) == Peak(maxVal, best)
      invariant peakFreq == match best case None => 0.0 case Some(b) => Freq(b, fps, len)
    {
      var freq := Freq(i, fps, len);
      if freq >= BandLow && freq <= BandHigh {
        var magnitude := mags[i];
        if magnitude > maxVal {
          maxVal := magnitude;
          peakFreq := freq;
          best := Some(i);
        }
      }
    }
  }

  /** round(peak * 60 * 10) / 10: beats per minute to one decimal. */
  function Bpm(peak: real): real
  {
    Round(peak * 60.0 * 10.0) as real / 10.0
  }

  /** No peak gives 0 bpm; a peak in the band gives 42 to 240 bpm, within 0.05 of 60 times the frequency. */
  lemma BpmRange(peak: real)
    ensures peak == 0.0 ==> Bpm(peak) == 0.0
    ensures InBand(peak) ==> 42.0 <= Bpm(peak) <= 240.0
    ensures -0.05 <= Bpm(peak) - peak * 60.0 <= 0.05
  {
    var n := Round(peak * 600.0);
    if InBand(peak) {
      assert 420.0 <= peak * 600.0 <= 2400.0;
    }
  }

  // ---------------------------------------------------------------------------
  // estimate_heart_rate_from_rgb
  // ---------------------------------------------------------------------------

  /** The minimum window, in seconds of samples. */
  const MinSeconds: real := 5.0

  /** The length guard as the source writes it: n < (size_t)(fps * 5). */
  predicate TooShortAsWritten(n: nat, fps: real)
    requires fps >= 0.0
  {
    n < TruncToZero(fps * MinSeconds)
  }

  /** The guard with the empty window excluded, as the rest of the estimator needs. */
  predicate TooShort(n: nat, fps: real)
    requires fps >= 0.0
  {
    n == 0 || TooShortAsWritten(n, fps)
  }

  /** As written, an empty window at 0.1 frames per second passes the guard, yet the median of no samples is then read. */
  lemma EmptyWindowPassesGuard()
    ensures !TooShortAsWritten(0, 0.1)
  {
    assert TruncToZero(0.1 * MinSeconds) == 0;
  }

  /** From 0.2 frames per second on the two guards agree; the corrected one lets no empty window through. */
  lemma GuardsAgree(n: nat, fps: real)
    requires fps >= 0.2
    ensures TooShort(n, fps) == TooShortAsWritten(n, fps)
    ensures !TooShort(n, fps) ==> n >= 1
  {
  }

  /** The colour channels minus their own means, over the first n = |r| samples. */
  function Detrended(r: seq<real>, g: seq<real>, b: seq<real>): (rgb: seq<Rgb>)
    requires 0 < |r| <= |g| && |r| <= |b|
    ensures |rgb| == |r|
  {
    var rm, gm, bm := Average(r), Average(g), Average(b);
    seq(|r|, i requires 0 <= i < |r| => Rgb(r[i] - rm, g[i] - gm, b[i] - bm))
  }

  function Reds(rgb: seq<Rgb>): (s: seq<real>)
    ensures |s| == |rgb|
  {
    seq(|rgb|, i requires 0 <= i < |rgb| => rgb[i].r)
  }

  function Greens(rgb: seq<Rgb>): (s: seq<real>)
    ensures |s| == |rgb|
  {
    seq(|rgb|, i requires 0 <= i < |rgb| => rgb[i].g)
  }

  function Blues(rgb: seq<Rgb>): (s: seq<real>)
    ensures |s| == |rgb|
  {
    seq(|rgb|, i requires 0 <= i < |rgb| => rgb[i].b)
  }

  /**
   * Each detrended channel is its first |r| samples minus the mean of the whole
   * channel. Red always sums to zero; green and blue do when they are exactly
   * as long as red, since a longer channel's mean also covers samples past |r|.
   */
  lemma DetrendedCentered(r: seq<real>, g: seq<real>, b: seq<real>)
    requires 0 < |r| <= |g| && |r| <= |b|
    ensures Reds(Detrended(r, g, b)) == Shift(r, Average(r))
    ensures Greens(Detrended(r, g, b)) == Shift(g[..|r|], Average(g))
    ensures Blues(Detrended(r, g, b)) == Shift(b[..|r|], Average(b))
    ensures Sum(Reds(Detrended(r, g, b))) == 0.0
    ensures |g| == |r| ==> Sum(Greens(Detrended(r, g, b))) == 0.0
    ensures |b| == |r| ==> Sum(Blues(Detrended(r, g, b))) == 0.0
  {
    assert Reds(Detrended(r, g, b)) == Shift(r, Average(r));
    assert Greens(Detrended(r, g, b)) == Shift(g[..|r|], Average(g));
    assert Blues(Detrended(r, g, b)) == Shift(b[..|r|], Average(b));
    CenteredSumsToZero(r);
    if |g| == |r| {
      assert g[..|r|] == g;
      CenteredSumsToZero(g);
    }
    if |b| == |r| {
      assert b[..|r|] == b;
      CenteredSumsToZero(b);
    }
  }

  /** The magnitudes of bins 0 .. len/2 of the signal's DFT. */
  function Spectrum(signal: seq<real>, magnitude: (seq<real>, nat) -> real): (mags: seq<real>)
    ensures |mags| == |signal| / 2 + 1
  {
    seq(|signal| / 2 + 1, i requires 0 <= i <= |signal| / 2 => magnitude(signal, i))
  }

  /**
   * The estimate: 0 for a window that is too short; otherwise detrend, project,
   * filter, remove the mean and convert the peak frequency of the spectrum to bpm.
   */
  function HeartRateOf(r: seq<real>, g: seq<real>, b: seq<real>, fps: real,
                       itaOf: real -> real, q: real, magnitude: (seq<real>, nat) -> real): real
    requires fps >= 0.0 && |g| >= |r| && |b| >= |r| && q * q == 2.0
  {
    if TooShort(|r|, fps) then 0.0
    else
      var s := Pos(Detrended(r, g, b), fps, itaOf, q);
      var centred := Shift(s, Average(s));
      Bpm(PeakFreq(Spectrum(centred, magnitude), fps, |centred|))
  }

  /** The estimate is 0 (nothing found, or too short) or between 42 and 240 bpm. */
  lemma HeartRateRange(r: seq<real>, g: seq<real>, b: seq<real>, fps: real,
                       itaOf: real -> real, q: real, magnitude: (seq<real>, nat) -> real)
    requires fps >= 0.0 && |g| >= |r| && |b| >= |r| && q * q == 2.0
    ensures var hr := HeartRateOf(r, g, b, fps, itaOf, q, magnitude);
      hr == 0.0 || 42.0 <= hr <= 240.0
    ensures TooShort(|r|, fps) ==> HeartRateOf(r, g, b, fps, itaOf, q, magnitude) == 0.0
  {
    if !TooShort(|r|, fps) {
      var s := Pos(Detrended(r, g, b), fps, itaOf, q);
      var centred := Shift(s, Average(s));
      var peak := PeakFreq(Spectrum(centred, magnitude), fps, |centred|);
      PeakFreqInBand(Spectrum(centred, magnitude), fps, |centred|);
      BpmRange(peak);
    }
  }

  lemma HeartRateUnfold(r: seq<real>, g: seq<real>, b: seq<real>, fps: real,
                        itaOf: real -> real, q: real, magnitude: (seq<real>, nat) -> real)
    requires fps >= 0.0 && |g| >= |r| && |b| >= |r| && q * q == 2.0
    requires !TooShort(|r|, fps)
    ensures var s := Pos(Detrended(r, g, b), fps, itaOf, q);
      var centred := Shift(s, Average(s));
      HeartRateOf(r, g, b, fps, itaOf, q, magnitude) == Bpm(PeakFreq(Spectrum(centred, magnitude), fps, |centred|))
  {
  }

  /** The detrending loop. */
  method Detrend(r: seq<real>, g: seq<real>, b: seq<real>) returns (rgb: seq<Rgb>)
    requires 0 < |r| <= |g| && |r| <= |b|
    ensures rgb == Detrended(r, g, b)
  {
    var rMean, gMean, bMean := Sum(r) / |r| as real, Sum(g) / |g| as real, Sum(b) / |b| as real;
    rgb := [];
    for i := 0 to |r|
      invariant |rgb| == i
      invariant forall j :: 0 <= j < i ==> rgb[j] == Rgb(r[j] - rMean, g[j] - gMean, b[j] - bMean)
    {
      rgb := rgb + [Rgb(r[i] - rMean, g[i] - gMean, b[i] - bMean)];
    }
  }

  method EstimateHeartRate(r: seq<real>, g: seq<real>, b: seq<real>, fps: real,
                           itaOf: real -> real, q: real, magnitude: (seq<real>, nat) -> real)
    returns (bpm: real)
    requires fps >= 0.0 && |g| >= |r| && |b| >= |r| && q * q == 2.0
    ensures bpm == HeartRateOf(r, g, b, fps, itaOf, q, magnitude)
  {
    if TooShort(|r|, fps) {
      return 0.0;
    }
    var rgb := Detrend(r, g, b);
    var s := PosAlgorithm(rgb, fps, itaOf, q);
    var centred := Centre(s);
    var peak := PeakSearch(Spectrum(centred, magnitude), fps, |centred|);
    bpm := Bpm(peak);
    HeartRateUnfold(r, g, b, fps, itaOf, q, magnitude);
  }

  /** The pulse signal copied into a buffer and centred in place. */
  method Centre(s: seq<real>) returns (centred: seq<real>)
    requires |s| > 0
    ensures centred == Shift(s, Average(s))
  {
    var signal := new real[|s|](i requires 0 <= i < |s| => s[i]);
    assert signal[..] == s;
    RemoveMean(signal);
    centred := signal[..];
  }
}
