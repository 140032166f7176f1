/**
 * The inertial-sensor thread: it reads the BNO055's linear-acceleration and
 * Euler-heading registers, remaps the acceleration axes, turns the heading into
 * a wrapped change since the previous sample, and pushes the sample into the
 * IMU history (capped at 100).
 */
module ImuThread {
  import opened Shared
  import opened Numbers
  import opened SeqFacts
  import opened BoundedHistory

  const ImuBufferMaxSize: nat := 100

  // ---------------------------------------------------------------------------
  // Register decoding
  // ---------------------------------------------------------------------------

  /** An unsigned byte (uint8_t). */
  newtype Byte = x: int | 0 <= x < 0x100

  /** The two bytes of one 16-bit register, least significant first. */
  datatype RegisterPair = RegisterPair(lo: Byte, hi: Byte)

  predicate IsInt16(v: int)
  {
    -0x8000 <= v < 0x8000
  }

  /**
   * The unsigned 16-bit word `lo | hi << 8`: the two bytes occupy disjoint bits,
   * so the OR is their sum (OrIsSum shows this on bit-vectors).
   */
  function Word(r: RegisterPair): (w: int)
    ensures 0 <= w < 0x1_0000
  {
    r.lo as int + 0x100 * r.hi as int
  }

  /** On 16-bit vectors, OR-ing the low byte with the shifted high byte adds them. */
  lemma OrIsSum(lo: bv8, hi: bv8)
    ensures (lo as bv16) | ((hi as bv16) << 8) == (lo as bv16) + ((hi as bv16) << 8)
  {
  }

  /** read16: the word reinterpreted as a two's-complement int16. */
  function Read16(r: RegisterPair): (v: int)
    ensures IsInt16(v)
    ensures v == Word(r) || v == Word(r) - 0x1_0000
  {
    var u := Word(r);
    if u < 0x8000 then u else u - 0x1_0000
  }

  /** The bytes an int16 value is stored as. */
  function Encode16(v: int): RegisterPair
    requires IsInt16(v)
  {
    var u := if v < 0 then v + 0x1_0000 else v;
    RegisterPair((u % 0x100) as Byte, (u / 0x100) as Byte)
  }

  /** Every int16 survives being stored as two bytes and read back. */
  lemma Read16OfEncode(v: int)
    requires IsInt16(v)
    ensures Read16(Encode16(v)) == v
  {
    var u := if v < 0 then v + 0x1_0000 else v;
    assert Word(Encode16(v)) == u;
  }

  /** Every byte pair survives being decoded and stored again: read16 is a bijection onto int16. */
  lemma EncodeOfRead16(r: RegisterPair)
    ensures Encode16(Read16(r)) == r
  {
    var u := Word(r);
    assert u % 0x100 == r.lo as int && u / 0x100 == r.hi as int;
  }

  // ---------------------------------------------------------------------------
  // Heading and acceleration
  // ---------------------------------------------------------------------------

  /** The Euler heading register counts 1/16 degree. */
  function HeadingDegrees(raw: int): (deg: real)
    ensures IsInt16(raw) ==> -2048.0 <= deg < 2048.0
    ensures deg * 16.0 == raw as real
  {
    raw as real / 16.0
  }

  /**
   * The heading change since `previous`, brought back by one full turn when it
   * is more than half a turn in size.
   */
  function WrapDelta(heading: real, previous: real): real
  {
    var d := heading - previous;
    if d > 180.0 || d < -180.0 then (if d < 0.0 then d + 360.0 else d - 360.0) else d
  }

  /** The full turns WrapDelta adds: -1, 0 or 1. */
  function Turns(heading: real, previous: real): (t: int)
    ensures -1 <= t <= 1
  {
    var d := heading - previous;
    if d > 180.0 then -1 else if d < -180.0 then 1 else 0
  }

  /** The wrapped change is the raw change plus a whole number of turns. */
  lemma WrapDeltaIsChangeModTurns(heading: real, previous: real)
    ensures WrapDelta(heading, previous) == heading - previous + 360.0 * Turns(heading, previous) as real
  {
  }

  /** For headings within one turn, the wrapped change is at most half a turn in size. */
  lemma WrapDeltaBounded(heading: real, previous: real)
    requires 0.0 <= heading < 360.0 && 0.0 <= previous < 360.0
    ensures -180.0 <= WrapDelta(heading, previous) <= 180.0
  {
  }

  /** Swapping the two headings negates the wrapped change. */
  lemma WrapDeltaAntisymmetric(heading: real, previous: real)
    ensures WrapDelta(previous, heading) == -WrapDelta(heading, previous)
  {
  }

  /** A change already within half a turn is kept as is. */
  lemma WrapDeltaSmall(heading: real, previous: real)
    requires -180.0 <= heading - previous <= 180.0
    ensures WrapDelta(heading, previous) == heading - previous
  {
  }

  /** The accelerometer axes in the logger's frame: (-z, x, y), in units of 1/100. */
  function Accel(ax: int, ay: int, az: int): (a: Vec3)
    ensures a.x * 100.0 == -(az as real) && a.y * 100.0 == ax as real && a.z * 100.0 == ay as real
  {
    Vec3(-(az as real) / 100.0, ax as real / 100.0, ay as real / 100.0)
  }

  /** The four registers read per sample, with the time the sample was taken. */
  datatype ImuRegisters = ImuRegisters(
    now: real, ax: RegisterPair, ay: RegisterPair, az: RegisterPair, heading: RegisterPair)

  function HeadingOf(regs: ImuRegisters): real
  {
    HeadingDegrees(Read16(regs.heading))
  }

  /** The sample built from the registers, given the heading of the previous sample. */
  function ImuSample(regs: ImuRegisters, previous: real): (d: ImuData)
    ensures d.sourceTimestamp == regs.now
    ensures d.gyro.y == 0.0 && d.gyro.z == 0.0
  {
    ImuData(regs.now,
      Accel(Read16(regs.ax), Read16(regs.ay), Read16(regs.az)),
      Vec3(WrapDelta(HeadingOf(regs), previous), 0.0, 0.0))
  }

  /** The heading before the next one of a run: the run's last heading, or `start` for an empty run. */
  function LastOr(headings: seq<real>, start: real): real
  {
    if |headings| == 0 then start else headings[|headings| - 1]
  }

  /** The heading change of every sample in a run, the first measured from `start`. */
  function Deltas(headings: seq<real>, start: real): (ds: seq<real>)
    ensures |ds| == |headings|
  {
    if |headings| == 0 then []
    else
      var front := headings[..|headings| - 1];
      Deltas(front, start) + [WrapDelta(headings[|headings| - 1], LastOr(front, start))]
  }

  /** The full turns added over a run. */
  function TurnCount(headings: seq<real>, start: real): int
  {
    if |headings| == 0 then 0
    else
      var front := headings[..|headings| - 1];
      TurnCount(front, start) + Turns(headings[|headings| - 1], LastOr(front, start))
  }

  /**
   * The heading changes of a run add up to the last heading minus the starting
   * one, up to whole turns: integrating the stored deltas recovers the heading.
   */
  lemma {:induction false} DeltasTelescope(headings: seq<real>, start: real)
    ensures Sum(Deltas(headings, start))
      == LastOr(headings, start) - start + 360.0 * TurnCount(headings, start) as real
  {
    if |headings| > 0 {
      var front, h := headings[..|headings| - 1], headings[|headings| - 1];
      DeltasTelescope(front, start);
      SumSnoc(Deltas(front, start), WrapDelta(h, LastOr(front, start)));
      WrapDeltaIsChangeModTurns(h, LastOr(front, start));
    }
  }

  // ---------------------------------------------------------------------------
  // The persistent previous heading and one iteration of the thread loop
  // ---------------------------------------------------------------------------

  /** The function-local `static previous_heading`, zero before the first sample. */
  class HeadingTracker {
    var previousHeading: real

    constructor ()
      ensures previousHeading == 0.0
    {
      previousHeading := 0.0;
    }

    /** The wrapped change from the stored heading; the new heading is stored. */
    method Delta(heading: real) returns (d: real)
      modifies this
      ensures d == WrapDelta(heading, old(previousHeading))
      ensures previousHeading == heading
    {
      d := heading - previousHeading;
      if d > 180.0 || d < -180.0 {
        if d < 0.0 {
          d := d + 360.0;
        } else {
          d := d - 360.0;
        }
      }
      previousHeading := heading;
    }
  }

  /** One iteration: decode the registers, compute the heading delta, and push the sample. */
  method ImuStep(history: History<ImuData>, tracker: HeadingTracker, regs: ImuRegisters)
    returns (sample: ImuData)
    requires history.Valid()
    requires history.capacity == ImuBufferMaxSize
    modifies history, tracker
    ensures |history.items| <= ImuBufferMaxSize
    ensures history.Valid()
    ensures sample == ImuSample(regs, old(tracker.previousHeading))
    ensures history.items == Appended(old(history.items), sample, history.capacity)
    ensures tracker.previousHeading == HeadingOf(regs)
  {
    var ax := Read16(regs.ax);
    var ay := Read16(regs.ay);
    var az := Read16(regs.az);
    var headingDeg := HeadingDegrees(Read16(regs.heading));
    var accel := Accel(ax, ay, az);
    var delta := tracker.Delta(headingDeg);
    sample := ImuData(regs.now, accel, Vec3(delta, 0.0, 0.0));
    history.Append(sample);
  }

  /** The headings of a run of register reads. */
  function Headings(run: seq<ImuRegisters>): (hs: seq<real>)
    ensures |hs| == |run|
  {
    if |run| == 0 then [] else Headings(run[..|run| - 1]) + [HeadingOf(run[|run| - 1])]
  }

  /** The samples of a run, each with the heading of the one before it (or `start`). */
  function Samples(run: seq<ImuRegisters>, start: real): (ds: seq<ImuData>)
    ensures |ds| == |run|
  {
    if |run| == 0 then []
    else
      var front := run[..|run| - 1];
      Samples(front, start) + [ImuSample(run[|run| - 1], LastOr(Headings(front), start))]
  }

  /** The gyro x component of each sample. */
  function GyroX(samples: seq<ImuData>): (xs: seq<real>)
    ensures |xs| == |samples|
  {
    if |samples| == 0 then [] else GyroX(samples[..|samples| - 1]) + [samples[|samples| - 1].gyro.x]
  }

  /** The gyro x components of a run are exactly the heading deltas of its headings. */
  lemma {:induction false} SamplesCarryDeltas(run: seq<ImuRegisters>, start: real)
    ensures GyroX(Samples(run, start)) == Deltas(Headings(run), start)
  {
    if |run| > 0 {
      var front := run[..|run| - 1];
      var last := ImuSample(run[|run| - 1], LastOr(Headings(front), start));
      SamplesCarryDeltas(front, start);
      FrontOfSnoc(Samples(front, start), last);
      FrontOfSnoc(Headings(front), HeadingOf(run[|run| - 1]));
    }
  }

  lemma SamplesSnoc(run: seq<ImuRegisters>, regs: ImuRegisters, start: real)
    ensures Samples(run + [regs], start) == Samples(run, start) + [ImuSample(regs, LastOr(Headings(run), start))]
  {
    FrontOfSnoc(run, regs);
  }

  /** The last heading of a run is the heading of its last register read. */
  lemma LastHeading(run: seq<ImuRegisters>, start: real)
    ensures LastOr(Headings(run), start) == if |run| == 0 then start else HeadingOf(run[|run| - 1])
  {
  }

  /**
   * The thread loop over a run of register reads: the history ends as the last
   * 100 of everything pushed, and the tracker holds the last heading.
   */
  method ImuLoop(history: History<ImuData>, tracker: HeadingTracker, run: seq<ImuRegisters>)
    requires history.Valid()
    requires history.capacity == ImuBufferMaxSize
    modifies history, tracker
    ensures |history.items| <= ImuBufferMaxSize
    ensures history.Valid()
    ensures history.items
      == Window(old(history.items) + Samples(run, old(tracker.previousHeading)), history.capacity)
    ensures tracker.previousHeading == LastOr(Headings(run), old(tracker.previousHeading))
  {
    ghost var start := tracker.previousHeading;
    ghost var before := history.items;
    var i := 0;
    while i < |run|
      invariant i <= |run|
      invariant history.Valid()
      invariant history.items == AppendedAll(before, Samples(run[..i], start), history.capacity)
      invariant tracker.previousHeading == LastOr(Headings(run[..i]), start)
    {
      var sample := ImuStep(history, tracker, run[i]);
      PrefixSnoc(run, i);
      SamplesSnoc(run[..i], run[i], start);
      LastHeading(run[..i + 1], start);
      FrontOfSnoc(run[..i], run[i]);
      i := i + 1;
    }
    assert run[..i] == run;
    AppendedAllKeepsNewest(before, Samples(run, start), history.capacity);
  }
}
