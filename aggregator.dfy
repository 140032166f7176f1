/**
 * The aggregator loop of the main program: once per tick it copies each sensor buffer and
 * forwards to the database logger only the samples newer than the last timestamp it
 * forwarded for that sensor. Each sensor has its own watermark, starting at 0.0.
 */
module Aggregator {
  import opened Shared
  import opened SeqFacts
  import opened Database

  // ---------------------------------------------------------------------------------------
  // The watermark rule, for any kind of sample
  // ---------------------------------------------------------------------------------------

  /** The watermark after a pass over `xs` that starts from `last`. */
  function Watermark<T>(xs: seq<T>, stamp: T -> real, last: real): real
  {
    if |xs| == 0 then last
    else
      var w := Watermark(xs[..|xs| - 1], stamp, last);
      if stamp(xs[|xs| - 1]) > w then stamp(xs[|xs| - 1]) else w
  }

  /** The samples a pass forwards: each one newer than the watermark reached before it. */
  function Forwarded<T>(xs: seq<T>, stamp: T -> real, last: real): seq<T>
  {
    if |xs| == 0 then []
    else
      var front := xs[..|xs| - 1];
      Forwarded(front, stamp, last)
        + (if stamp(xs[|xs| - 1]) > Watermark(front, stamp, last) then [xs[|xs| - 1]] else [])
  }

  function FaceStamp(f: FaceData): real { f.sourceTimestamp }
  function ImuStamp(m: ImuData): real { m.sourceTimestamp }
  function GpsStamp(g: GpsData): real { g.sourceTimestamp }

  /** One more sample: the watermark and the forwarded run extend as the loop body does. */
  lemma PassStep<T>(xs: seq<T>, stamp: T -> real, last: real, i: nat)
    requires i < |xs|
    ensures var w := Watermark(xs[..i], stamp, last);
      && Watermark(xs[..i + 1], stamp, last) == (if stamp(xs[i]) > w then stamp(xs[i]) else w)
      && Forwarded(xs[..i + 1], stamp, last)
         == Forwarded(xs[..i], stamp, last) + (if stamp(xs[i]) > w then [xs[i]] else [])
  {
    PrefixSnoc(xs, i);
    FrontOfSnoc(xs[..i], xs[i]);
  }

  /**
   * The watermark never falls below where it started, bounds every timestamp of the pass,
   * and is either the starting value or one of those timestamps: it is their maximum.
   */
  lemma {:induction false} WatermarkIsMax<T>(xs: seq<T>, stamp: T -> real, last: real)
    ensures var w := Watermark(xs, stamp, last);
      && last <= w
      && (forall i :: 0 <= i < |xs| ==> stamp(xs[i]) <= w)
      && (w == last || exists i :: 0 <= i < |xs| && w == stamp(xs[i]))
  {
    if |xs| > 0 {
      var front := xs[..|xs| - 1];
      WatermarkIsMax(front, stamp, last);
      var w := Watermark(front, stamp, last);
      assert forall i :: 0 <= i < |front| ==> front[i] == xs[i];
      if w != last && stamp(xs[|xs| - 1]) <= w {
        var j :| 0 <= j < |front| && w == stamp(front[j]);
        assert w == stamp(xs[j]);
      }
    }
  }

  /** What a pass forwards lies strictly above the starting watermark and at or below the final one. */
  lemma {:induction false} ForwardedBounds<T>(xs: seq<T>, stamp: T -> real, last: real)
    ensures forall i :: 0 <= i < |Forwarded(xs, stamp, last)| ==>
      last < stamp(Forwarded(xs, stamp, last)[i]) <= Watermark(xs, stamp, last)
  {
    if |xs| > 0 {
      var front := xs[..|xs| - 1];
      ForwardedBounds(front, stamp, last);
      WatermarkIsMax(front, stamp, last);
      var w := Watermark(front, stamp, last);
      var x := xs[|xs| - 1];
      var before := Forwarded(front, stamp, last);
      if stamp(x) > w {
        var fw := before + [x];
        assert Forwarded(xs, stamp, last) == fw;
        forall i | 0 <= i < |fw|
          ensures last < stamp(fw[i]) <= stamp(x)
        {
          if i < |before| {
            assert fw[i] == before[i];
          }
        }
      } else {
        ConcatEmpty(before);
      }
    }
  }

  /** What a pass forwards comes out in strictly increasing timestamp order. */
  lemma {:induction false} ForwardedIncreasing<T>(xs: seq<T>, stamp: T -> real, last: real)
    ensures forall i, j :: 0 <= i < j < |Forwarded(xs, stamp, last)| ==>
      stamp(Forwarded(xs, stamp, last)[i]) < stamp(Forwarded(xs, stamp, last)[j])
  {
    if |xs| > 0 {
      var front := xs[..|xs| - 1];
      ForwardedIncreasing(front, stamp, last);
      ForwardedBounds(front, stamp, last);
      var w := Watermark(front, stamp, last);
      var x := xs[|xs| - 1];
      var before := Forwarded(front, stamp, last);
      if stamp(x) > w {
        var fw := before + [x];
        assert Forwarded(xs, stamp, last) == fw;
        forall i, j | 0 <= i < j < |fw|
          ensures stamp(fw[i]) < stamp(fw[j])
        {
          assert fw[i] == before[i];
          if j < |before| {
            assert fw[j] == before[j];
          }
        }
      } else {
        ConcatEmpty(before);
      }
    }
  }

  /** A pass forwards samples of the snapshot, each at most as often as it occurs there. */
  lemma {:induction false} ForwardedFromSnapshot<T>(xs: seq<T>, stamp: T -> real, last: real)
    ensures multiset(Forwarded(xs, stamp, last)) <= multiset(xs)
  {
    if |xs| > 0 {
      var front := xs[..|xs| - 1];
      ForwardedFromSnapshot(front, stamp, last);
      FrontLast(xs);
      assert multiset(xs) == multiset(front) + multiset{xs[|xs| - 1]};
    }
  }

  /** When nothing in the snapshot is newer than the watermark, a pass forwards nothing and keeps it. */
  lemma {:induction false} NothingNewer<T>(xs: seq<T>, stamp: T -> real, last: real)
    requires forall i :: 0 <= i < |xs| ==> stamp(xs[i]) <= last
    ensures Forwarded(xs, stamp, last) == []
    ensures Watermark(xs, stamp, last) == last
  {
    if |xs| > 0 {
      var front := xs[..|xs| - 1];
      assert forall i :: 0 <= i < |front| ==> front[i] == xs[i];
      NothingNewer(front, stamp, last);
    }
  }

  /** Running the same pass again over the same snapshot forwards nothing and leaves the watermark. */
  lemma PassIdempotent<T>(xs: seq<T>, stamp: T -> real, last: real)
    ensures var w := Watermark(xs, stamp, last);
      Forwarded(xs, stamp, w) == [] && Watermark(xs, stamp, w) == w
  {
    WatermarkIsMax(xs, stamp, last);
    NothingNewer(xs, stamp, Watermark(xs, stamp, last));
  }

  /** A snapshot already in strictly increasing time order and newer than the watermark is forwarded whole. */
  lemma {:induction false} InOrderForwardsAll<T>(xs: seq<T>, stamp: T -> real, last: real)
    requires forall i :: 0 <= i < |xs| ==> last < stamp(xs[i])
    requires forall i, j :: 0 <= i < j < |xs| ==> stamp(xs[i]) < stamp(xs[j])
    ensures Forwarded(xs, stamp, last) == xs
    ensures |xs| > 0 ==> Watermark(xs, stamp, last) == stamp(xs[|xs| - 1])
  {
    if |xs| > 0 {
      var front := xs[..|xs| - 1];
      assert forall i :: 0 <= i < |front| ==> front[i] == xs[i];
      InOrderForwardsAll(front, stamp, last);
      FrontLast(xs);
    }
  }

  /**
   * A sample the socket receiver can produce (its colour list arrives empty) that a fresh
   * watermark lets through: the face INSERT, which reads three channels, would be built for it.
   */
  lemma ShortColourListForwarded()
    ensures var face := FaceData(1.0, [], []);
      Forwarded([face], FaceStamp, 0.0) == [face] && |face.avgRgb| < 3
  {
    var face := FaceData(1.0, [], []);
    assert [face][..0] == [];
  }

  // ---------------------------------------------------------------------------------------
  // The aggregator's state and its tick
  // ---------------------------------------------------------------------------------------

  /** The three per-sensor watermarks, kept across ticks. */
  class Aggregator {
    var lastFace: real
    var lastImu: real
    var lastGps: real

    constructor ()
      ensures lastFace == 0.0 && lastImu == 0.0 && lastGps == 0.0
    {
      lastFace, lastImu, lastGps := 0.0, 0.0, 0.0;
    }

    /** The face loop: insert each newer sample and raise the face watermark. */
    method ForwardFaces(faces: seq<FaceData>, db: DatabaseLogger, toString: real -> string, show: real -> string)
      modifies this, db
      ensures lastFace == Watermark(faces, FaceStamp, old(lastFace))
      ensures lastImu == old(lastImu) && lastGps == old(lastGps)
      ensures db.open == old(db.open)
      ensures db.executed == old(db.executed)
        + (if db.open then FaceRows(Forwarded(faces, FaceStamp, old(lastFace)), toString, show) else [])
    {
      for i := 0 to |faces|
        invariant lastFace == Watermark(faces[..i], FaceStamp, old(lastFace))
        invariant lastImu == old(lastImu) && lastGps == old(lastGps)
        invariant db.open == old(db.open)
        invariant db.executed == old(db.executed)
          + (if db.open then FaceRows(Forwarded(faces[..i], FaceStamp, old(lastFace)), toString, show) else [])
      {
        var face := faces[i];
        ghost var sent := Forwarded(faces[..i], FaceStamp, old(lastFace));
        PassStep(faces, FaceStamp, old(lastFace), i);
        if face.sourceTimestamp > lastFace {
          db.InsertFaceData(face, toString, show);
          FaceRowsSnoc(sent, face, toString, show);
          if db.open {
            Assoc(old(db.executed), FaceRows(sent, toString, show), FaceRow(face, toString, show));
          }
          if face.sourceTimestamp > lastFace {
            lastFace := face.sourceTimestamp;
          }
        } else {
          ConcatEmpty(sent);
        }
      }
      assert faces[..|faces|] == faces;
    }

    /** The inertial loop: insert each newer sample and raise the inertial watermark. */
    method ForwardImus(imus: seq<ImuData>, db: DatabaseLogger, toString: real -> string)
      modifies this, db
      ensures lastImu == Watermark(imus, ImuStamp, old(lastImu))
      ensures lastFace == old(lastFace) && lastGps == old(lastGps)
      ensures db.open == old(db.open)
      ensures db.executed == old(db.executed)
        + (if db.open then ImuRows(Forwarded(imus, ImuStamp, old(lastImu)), toString) else [])
    {
      for i := 0 to |imus|
        invariant lastImu == Watermark(imus[..i], ImuStamp, old(lastImu))
        invariant lastFace == old(lastFace) && lastGps == old(lastGps)
        invariant db.open == old(db.open)
        invariant db.executed == old(db.executed)
          + (if db.open then ImuRows(Forwarded(imus[..i], ImuStamp, old(lastImu)), toString) else [])
      {
        var imu := imus[i];
        ghost var sent := Forwarded(imus[..i], ImuStamp, old(lastImu));
        PassStep(imus, ImuStamp, old(lastImu), i);
        if imu.sourceTimestamp > lastImu {
          db.InsertImuData(imu, toString);
          ImuRowsSnoc(sent, imu, toString);
          if db.open {
            Assoc(old(db.executed), ImuRows(sent, toString), [ImuInsert(imu, toString)]);
          }
          if imu.sourceTimestamp > lastImu {
            lastImu := imu.sourceTimestamp;
          }
        } else {
          ConcatEmpty(sent);
        }
      }
      assert imus[..|imus|] == imus;
    }

    /** The position loop: collect each newer sample and raise the position watermark. */
    method ForwardGps(fixes: seq<GpsData>) returns (forwarded: seq<GpsData>)
      modifies this
      ensures forwarded == Forwarded(fixes, GpsStamp, old(lastGps))
      ensures lastGps == Watermark(fixes, GpsStamp, old(lastGps))
      ensures lastFace == old(lastFace) && lastImu == old(lastImu)
    {
      forwarded := [];
      for i := 0 to |fixes|
        invariant lastGps == Watermark(fixes[..i], GpsStamp, old(lastGps))
        invariant forwarded == Forwarded(fixes[..i], GpsStamp, old(lastGps))
        invariant lastFace == old(lastFace) && lastImu == old(lastImu)
      {
        var fix := fixes[i];
        PassStep(fixes, GpsStamp, old(lastGps), i);
        if fix.sourceTimestamp > lastGps {
          forwarded := forwarded + [fix];
          lastGps := fix.sourceTimestamp;
        }
      }
      assert fixes[..|fixes|] == fixes;
    }

    /**
     * One tick over the three snapshots: faces, then inertial samples, then positions. The
     * snapshots are values, so the shared buffers they were copied from are untouched.
     */
    method Tick(faces: seq<FaceData>, imus: seq<ImuData>, fixes: seq<GpsData>,
                db: DatabaseLogger, toString: real -> string, show: real -> string)
      returns (gpsForwarded: seq<GpsData>)
      modifies this, db
      ensures lastFace == Watermark(faces, FaceStamp, old(lastFace))
      ensures lastImu == Watermark(imus, ImuStamp, old(lastImu))
      ensures lastGps == Watermark(fixes, GpsStamp, old(lastGps))
      ensures gpsForwarded == Forwarded(fixes, GpsStamp, old(lastGps))
      ensures db.open == old(db.open)
      ensures db.executed == old(db.executed)
        + (if db.open
           then FaceRows(Forwarded(faces, FaceStamp, old(lastFace)), toString, show)
                + ImuRows(Forwarded(imus, ImuStamp, old(lastImu)), toString)
           else [])
    {
      ghost var before := db.executed;
      ghost var faceRows := FaceRows(Forwarded(faces, FaceStamp, lastFace), toString, show);
      ghost var imuRows := ImuRows(Forwarded(imus, ImuStamp, lastImu), toString);
      ForwardFaces(faces, db, toString, show);
      ForwardImus(imus, db, toString);
      if db.open {
        Assoc(before, faceRows, imuRows);
      }
      gpsForwarded := ForwardGps(fixes);
    }
  }
}
