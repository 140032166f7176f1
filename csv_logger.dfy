/**
 * The once-a-second summary logger: from snapshots of the face and IMU
 * histories it computes the mean face colour, the RMS of every IMU axis and the
 * mean of every blendshape, and appends one CSV row.
 */
module CsvLogger {
  import opened Shared
  import opened Numbers
  import opened SeqFacts
  import opened StringOrder
  import opened OrderedMap
  import opened Text

  // ---------------------------------------------------------------------------
  // compute_rms
  // ---------------------------------------------------------------------------

  function SumSquares(vs: seq<real>): real
  {
    if |vs| == 0 then 0.0 else SumSquares(vs[..|vs| - 1]) + vs[|vs| - 1] * vs[|vs| - 1]
  }

  lemma {:induction false} SumSquaresNonNegative(vs: seq<real>)
    ensures SumSquares(vs) >= 0.0
  {
    if |vs| > 0 {
      SumSquaresNonNegative(vs[..|vs| - 1]);
      SquareNonNegative(vs[|vs| - 1]);
    }
  }

  lemma SquareNonNegative(x: real)
    ensures x * x >= 0.0
  {
  }

  /** `sqrt` behaves as the square root on the non-negative reals. */
  ghost predicate IsSqrt(sqrt: real -> real)
  {
    forall x :: 0.0 <= x ==> 0.0 <= sqrt(x) && sqrt(x) * sqrt(x) == x
  }

  /** The root mean square: 0 for no values, else the square root of the mean of the squares. */
  function Rms(vs: seq<real>, sqrt: real -> real): real
  {
    if |vs| == 0 then 0.0 else sqrt(SumSquares(vs) / |vs| as real)
  }

  /** compute_rms: the squares are accumulated in a loop, then averaged and rooted. */
  method ComputeRms(values: seq<real>, sqrt: real -> real) returns (rms: real)
    ensures rms == Rms(values, sqrt)
  {
    if |values| == 0 {
      return 0.0;
    }
    var sumSq := 0.0;
    for i := 0 to |values|
      invariant sumSq == SumSquares(values[..i])
    {
      PrefixSnoc(values, i);
      sumSq := sumSq + values[i] * values[i];
    }
    assert values[..|values|] == values;
    rms := sqrt(sumSq / |values| as real);
  }

  /** With a true square root, the RMS is non-negative and squares back to the mean of the squares. */
  lemma RmsIsRootMeanSquare(vs: seq<real>, sqrt: real -> real)
    requires IsSqrt(sqrt)
    ensures Rms(vs, sqrt) >= 0.0
    ensures |vs| == 0 ==> Rms(vs, sqrt) == 0.0
    ensures |vs| > 0 ==> Rms(vs, sqrt) * Rms(vs, sqrt) == SumSquares(vs) / |vs| as real
  {
    SumSquaresNonNegative(vs);
  }

  // ---------------------------------------------------------------------------
  // Means
  // ---------------------------------------------------------------------------

  /** The sum divided by max(1, count). */
  function Mean(vs: seq<real>): real
  {
    Sum(vs) / (if |vs| >= 1 then |vs| as real else 1.0)
  }

  /** No values give 0; otherwise the mean times the count is the sum. */
  lemma MeanProperties(vs: seq<real>)
    ensures |vs| == 0 ==> Mean(vs) == 0.0
    ensures |vs| > 0 ==> Mean(vs) * |vs| as real == Sum(vs)
  {
  }

  // ---------------------------------------------------------------------------
  // Face snapshot: colour channels and blendshape groups
  // ---------------------------------------------------------------------------

  /** Only a sample with at least three colour entries contributes to the colour means. */
  predicate HasRgb(f: FaceData)
  {
    |f.avgRgb| >= 3
  }

  /** Channel `c` (0 = r, 1 = g, 2 = b) of every sample that has a colour, in snapshot order. */
  function Channel(faces: seq<FaceData>, c: nat): seq<real>
    requires c < 3
  {
    if |faces| == 0 then []
    else
      var f := faces[|faces| - 1];
      Channel(faces[..|faces| - 1], c) + (if HasRgb(f) then [f.avgRgb[c]] else [])
  }

  /** The number of samples that have a colour. */
  function RgbCount(faces: seq<FaceData>): nat
  {
    if |faces| == 0 then 0
    else RgbCount(faces[..|faces| - 1]) + (if HasRgb(faces[|faces| - 1]) then 1 else 0)
  }

  /** The three channel lists always have the same length: one entry per sample with a colour. */
  lemma {:induction false} ChannelLength(faces: seq<FaceData>, c: nat)
    requires c < 3
    ensures |Channel(faces, c)| == RgbCount(faces)
  {
    if |faces| > 0 {
      ChannelLength(faces[..|faces| - 1], c);
    }
  }

  /** The values stored under `k` in one blendshape table, in its order. */
  function Lookups(bs: Blendshapes, k: string): seq<real>
  {
    if |bs| == 0 then []
    else Lookups(bs[..|bs| - 1], k) + (if bs[|bs| - 1].0 == k then [bs[|bs| - 1].1] else [])
  }

  /** The values of key `k` over the snapshot: one per sample holding it, in snapshot order. */
  function ValuesOf(faces: seq<FaceData>, k: string): seq<real>
  {
    if |faces| == 0 then []
    else ValuesOf(faces[..|faces| - 1], k) + Lookups(faces[|faces| - 1].blendshapes, k)
  }

  predicate DistinctKeys(bs: Blendshapes)
  {
    forall i, j :: 0 <= i < j < |bs| ==> bs[i].0 != bs[j].0
  }

  /** A hash-map table holds each key at most once, so it adds at most one value per key. */
  lemma {:induction false} LookupsAtMostOne(bs: Blendshapes, k: string)
    requires DistinctKeys(bs)
    ensures |Lookups(bs, k)| <= 1
    ensures |Lookups(bs, k)| == 1 <==> exists i :: 0 <= i < |bs| && bs[i].0 == k
  {
    if |bs| > 0 {
      var front := bs[..|bs| - 1];
      assert DistinctKeys(front);
      LookupsAtMostOne(front, k);
      if bs[|bs| - 1].0 == k {
        assert !exists i :: 0 <= i < |front| && front[i].0 == k;
      }
    }
  }

  /** Every (k, v) of a table pushed in order. */
  function PushAll(e: Entries, bs: Blendshapes): Entries
  {
    if |bs| == 0 then e
    else PushBack(PushAll(e, bs[..|bs| - 1]), bs[|bs| - 1].0, bs[|bs| - 1].1)
  }

  /** The blendshape map after every sample of the snapshot has been pushed. */
  function Group(faces: seq<FaceData>): Entries
  {
    if |faces| == 0 then [] else PushAll(Group(faces[..|faces| - 1]), faces[|faces| - 1].blendshapes)
  }

  lemma {:induction false} PushAllSpec(e: Entries, bs: Blendshapes, k: string)
    requires Sorted(e) && NonEmpty(e)
    ensures Sorted(PushAll(e, bs)) && NonEmpty(PushAll(e, bs))
    ensures Get(PushAll(e, bs), k) == Get(e, k) + Lookups(bs, k)
  {
    if |bs| > 0 {
      var front, last := bs[..|bs| - 1], bs[|bs| - 1];
      PushAllSpec(e, front, k);
      PushBackSorted(PushAll(e, front), last.0, last.1);
      PushBackGet(PushAll(e, front), last.0, last.1, k);
      Assoc(Get(e, k), Lookups(front, k), if last.0 == k then [last.1] else []);
    } else {
      ConcatEmpty(Get(e, k));
    }
  }

  /**
   * The grouping of the snapshot: keys ascending, and each key holds exactly the
   * values of that key over the snapshot, in snapshot order.
   */
  lemma {:induction false} GroupSpec(faces: seq<FaceData>, k: string)
    ensures Sorted(Group(faces)) && NonEmpty(Group(faces))
    ensures Get(Group(faces), k) == ValuesOf(faces, k)
  {
    if |faces| > 0 {
      var front := faces[..|faces| - 1];
      GroupSpec(front, k);
      PushAllSpec(Group(front), faces[|faces| - 1].blendshapes, k);
    } else {
      GetAbsent([], k);
    }
  }

  /** A key gets a column exactly when some sample of the snapshot holds it. */
  lemma GroupKeys(faces: seq<FaceData>, k: string)
    ensures HasKey(Group(faces), k) <==> ValuesOf(faces, k) != []
  {
    GroupSpec(faces, k);
    HasKeyIffValues(Group(faces), k);
  }

  /** The loop over the face snapshot: colour channels of well-formed samples, and every blendshape pushed. */
  method CollectFaces(faces: seq<FaceData>) returns (r: seq<real>, g: seq<real>, b: seq<real>, groups: Entries)
    ensures r == Channel(faces, 0) && g == Channel(faces, 1) && b == Channel(faces, 2)
    ensures groups == Group(faces)
  {
    r, g, b, groups := [], [], [], [];
    for i := 0 to |faces|
      invariant r == Channel(faces[..i], 0) && g == Channel(faces[..i], 1) && b == Channel(faces[..i], 2)
      invariant groups == Group(faces[..i])
    {
      var face := faces[i];
      PrefixSnoc(faces, i);
      FrontOfSnoc(faces[..i], face);
      if |face.avgRgb| >= 3 {
        r := r + [face.avgRgb[0]];
        g := g + [face.avgRgb[1]];
        b := b + [face.avgRgb[2]];
      } else {
        ConcatEmpty(r);
        ConcatEmpty(g);
        ConcatEmpty(b);
      }
      ghost var before := groups;
      for j := 0 to |face.blendshapes|
        invariant groups == PushAll(before, face.blendshapes[..j])
      {
        PrefixSnoc(face.blendshapes, j);
        FrontOfSnoc(face.blendshapes[..j], face.blendshapes[j]);
        groups := PushBack(groups, face.blendshapes[j].0, face.blendshapes[j].1);
      }
      assert face.blendshapes[..|face.blendshapes|] == face.blendshapes;
    }
    assert faces[..|faces|] == faces;
  }

  // ---------------------------------------------------------------------------
  // IMU snapshot: the six axis lists
  // ---------------------------------------------------------------------------

  datatype Axis = AccelX | AccelY | AccelZ | GyroX | GyroY | GyroZ

  function Component(d: ImuData, a: Axis): real
  {
    match a
    case AccelX => d.accel.x
    case AccelY => d.accel.y
    case AccelZ => d.accel.z
    case GyroX => d.gyro.x
    case GyroY => d.gyro.y
    case GyroZ => d.gyro.z
  }

  /** One value per sample for axis `a`, in snapshot order. */
  function AxisValues(imus: seq<ImuData>, a: Axis): (vs: seq<real>)
    ensures |vs| == |imus|
  {
    if |imus| == 0 then [] else AxisValues(imus[..|imus| - 1], a) + [Component(imus[|imus| - 1], a)]
  }

  /** Every sample contributes exactly its own component at its own position. */
  lemma {:induction false} AxisValuesAt(imus: seq<ImuData>, a: Axis, i: nat)
    requires i < |imus|
    ensures AxisValues(imus, a)[i] == Component(imus[i], a)
  {
    if i < |imus| - 1 {
      var front := imus[..|imus| - 1];
      AxisValuesAt(front, a, i);
    }
  }

  /** The loop over the IMU snapshot pushing one value into each of the six lists. */
  method CollectAxes(imus: seq<ImuData>)
    returns (ax: seq<real>, ay: seq<real>, az: seq<real>, gx: seq<real>, gy: seq<real>, gz: seq<real>)
    ensures ax == AxisValues(imus, AccelX) && ay == AxisValues(imus, AccelY) && az == AxisValues(imus, AccelZ)
    ensures gx == AxisValues(imus, GyroX) && gy == AxisValues(imus, GyroY) && gz == AxisValues(imus, GyroZ)
  {
    ax, ay, az, gx, gy, gz := [], [], [], [], [], [];
    for i := 0 to |imus|
      invariant ax == AxisValues(imus[..i], AccelX) && ay == AxisValues(imus[..i], AccelY)
      invariant az == AxisValues(imus[..i], AccelZ) && gx == AxisValues(imus[..i], GyroX)
      invariant gy == AxisValues(imus[..i], GyroY) && gz == AxisValues(imus[..i], GyroZ)
    {
      var imu := imus[i];
      PrefixSnoc(imus, i);
      FrontOfSnoc(imus[..i], imu);
      ax, ay, az := ax + [imu.accel.x], ay + [imu.accel.y], az + [imu.accel.z];
      gx, gy, gz := gx + [imu.gyro.x], gy + [imu.gyro.y], gz + [imu.gyro.z];
    }
    assert imus[..|imus|] == imus;
  }

  // ---------------------------------------------------------------------------
  // The row
  // ---------------------------------------------------------------------------

  /** One field of the row, before it is formatted. */
  datatype Cell = Stamp(text: string) | Count(n: int) | Value(x: real)

  /** One mean per map entry, in the map's key order. */
  function GroupMeans(e: Entries): (cells: seq<Cell>)
    ensures |cells| == |e|
  {
    if |e| == 0 then [] else GroupMeans(e[..|e| - 1]) + [Value(Mean(e[|e| - 1].1))]
  }

  lemma {:induction false} GroupMeansAt(e: Entries, i: nat)
    requires i < |e|
    ensures GroupMeans(e)[i] == Value(Mean(e[i].1))
  {
    if i < |e| - 1 {
      GroupMeansAt(e[..|e| - 1], i);
    }
  }

  /** The three toggle states read at the tick. */
  datatype Toggles = Toggles(t0: int, t1: int, t2: int)

  /**
   * The row: time stamp, the three toggles, the r/g/b means, the RMS of
   * ax, ay, az, gx, gy, gz, then one blendshape mean per key in ascending key order.
   */
  function SummaryRow(stamp: string, toggles: Toggles, faces: seq<FaceData>, imus: seq<ImuData>,
                      sqrt: real -> real): seq<Cell>
  {
    [Stamp(stamp), Count(toggles.t0), Count(toggles.t1), Count(toggles.t2),
     Value(Mean(Channel(faces, 0))), Value(Mean(Channel(faces, 1))), Value(Mean(Channel(faces, 2))),
     Value(Rms(AxisValues(imus, AccelX), sqrt)), Value(Rms(AxisValues(imus, AccelY), sqrt)),
     Value(Rms(AxisValues(imus, AccelZ), sqrt)),
     Value(Rms(AxisValues(imus, GyroX), sqrt)), Value(Rms(AxisValues(imus, GyroY), sqrt)),
     Value(Rms(AxisValues(imus, GyroZ), sqrt))]
    + GroupMeans(Group(faces))
  }

  /** The number of fixed columns before the blendshape means. */
  const FixedColumns: nat := 13

  /**
   * The column layout: 13 fixed fields followed by one mean per distinct key,
   * keys strictly ascending, each the mean of that key's values over the snapshot.
   */
  lemma RowLayout(stamp: string, toggles: Toggles, faces: seq<FaceData>, imus: seq<ImuData>,
                  sqrt: real -> real, i: nat)
    requires i < |Group(faces)|
    ensures |SummaryRow(stamp, toggles, faces, imus, sqrt)| == FixedColumns + |Group(faces)|
    ensures SummaryRow(stamp, toggles, faces, imus, sqrt)[FixedColumns + i]
      == Value(Mean(ValuesOf(faces, Group(faces)[i].0)))
    ensures forall j :: i < j < |Group(faces)| ==> Less(Group(faces)[i].0, Group(faces)[j].0)
  {
    var e := Group(faces);
    GroupSpec(faces, e[i].0);
    GroupMeansAt(e, i);
    GetAt(e, e[i].0, i);
  }

  /** Building the blendshape columns in map order. */
  method MeanColumns(groups: Entries) returns (cells: seq<Cell>)
    ensures cells == GroupMeans(groups)
  {
    cells := [];
    for i := 0 to |groups|
      invariant cells == GroupMeans(groups[..i])
    {
      PrefixSnoc(groups, i);
      FrontOfSnoc(groups[..i], groups[i]);
      cells := cells + [Value(Mean(groups[i].1))];
    }
    assert groups[..|groups|] == groups;
  }

  /** One tick of the logger over the two snapshots. */
  method SummaryTick(stamp: string, toggles: Toggles, faces: seq<FaceData>, imus: seq<ImuData>,
                     sqrt: real -> real) returns (row: seq<Cell>)
    ensures row == SummaryRow(stamp, toggles, faces, imus, sqrt)
  {
    var r, g, b, groups := CollectFaces(faces);
    var ax, ay, az, gx, gy, gz := CollectAxes(imus);
    var axRms := ComputeRms(ax, sqrt);
    var ayRms := ComputeRms(ay, sqrt);
    var azRms := ComputeRms(az, sqrt);
    var gxRms := ComputeRms(gx, sqrt);
    var gyRms := ComputeRms(gy, sqrt);
    var gzRms := ComputeRms(gz, sqrt);
    var means := MeanColumns(groups);
    row := [Stamp(stamp), Count(toggles.t0), Count(toggles.t1), Count(toggles.t2),
            Value(Mean(r)), Value(Mean(g)), Value(Mean(b)),
            Value(axRms), Value(ayRms), Value(azRms), Value(gxRms), Value(gyRms), Value(gzRms)]
           + means;
  }

  // ---------------------------------------------------------------------------
  // The text written to the file
  // ---------------------------------------------------------------------------

  /** Each cell through the stream formatter. */
  function Rendered(cells: seq<Cell>, format: Cell -> string): (texts: seq<string>)
    ensures |texts| == |cells|
  {
    if |cells| == 0 then [] else Rendered(cells[..|cells| - 1], format) + [format(cells[|cells| - 1])]
  }

  /** The line appended to the file: the formatted cells separated by ',' and ended by '\n'. */
  function RowText(cells: seq<Cell>, format: Cell -> string): string
  {
    Join(Rendered(cells, format), ',') + "\n"
  }

  lemma {:induction false} RenderedFree(cells: seq<Cell>, format: Cell -> string)
    requires forall c :: ',' !in format(c)
    ensures forall k :: 0 <= k < |Rendered(cells, format)| ==> ',' !in Rendered(cells, format)[k]
  {
    if |cells| > 0 {
      RenderedFree(cells[..|cells| - 1], format);
    }
  }

  /**
   * As long as no formatted field holds a ',', splitting the line (without its
   * '\n') at ',' gives back the fields in column order.
   */
  lemma RowTextSplits(cells: seq<Cell>, format: Cell -> string)
    requires |cells| >= 1
    requires forall c :: ',' !in format(c)
    ensures var t := RowText(cells, format);
      t[|t| - 1] == '\n' && Split(t[..|t| - 1], ',') == Rendered(cells, format)
  {
    var t := RowText(cells, format);
    var body := Join(Rendered(cells, format), ',');
    FrontOfSnoc(body, '\n');
    RenderedFree(cells, format);
    SplitJoin(Rendered(cells, format), ',');
  }
}
