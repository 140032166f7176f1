/**
 * The SQLite logger: the blendshape column text, the INSERT statements for face and
 * inertial samples, and the guard that turns every insert into a no-op when the
 * database could not be opened. The database itself is reduced to the list of
 * statements handed to it; number formatting is a parameter (`toString` for
 * std::to_string, `show` for the stream's `<<` of a float).
 */
module Database {
  import opened Shared
  import opened Text
  import opened SeqFacts

  // ---------------------------------------------------------------------------------------
  // Blendshape column
  // ---------------------------------------------------------------------------------------

  /** One `"key":value` entry of the blendshape column; the key goes in as it is. */
  function Entry(key: string, value: real, show: real -> string): string
  {
    "\"" + key + "\":" + show(value)
  }

  /** The entries of a blendshape table, in its iteration order. */
  function Entries(bs: Blendshapes, show: real -> string): (es: seq<string>)
    ensures |es| == |bs|
  {
    if |bs| == 0 then []
    else Entries(bs[..|bs| - 1], show) + [Entry(bs[|bs| - 1].0, bs[|bs| - 1].1, show)]
  }

  /** What the string stream holds after the loop: each entry followed by a comma. */
  function Streamed(es: seq<string>): string
  {
    if |es| == 0 then "" else Streamed(es[..|es| - 1]) + es[|es| - 1] + ","
  }

  /** The blendshape column: the entries separated by single commas, inside braces. */
  function BlendshapeJson(bs: Blendshapes, show: real -> string): (text: string)
    ensures |text| >= 2 && text[0] == '{' && text[|text| - 1] == '}'
  {
    "{" + Join(Entries(bs, show), ',') + "}"
  }

  lemma {:induction false} EntriesAt(bs: Blendshapes, show: real -> string, i: nat)
    requires i < |bs|
    ensures Entries(bs, show)[i] == Entry(bs[i].0, bs[i].1, show)
    decreases |bs|
  {
    if i < |bs| - 1 {
      EntriesAt(bs[..|bs| - 1], show, i);
    }
  }

  lemma EntriesPrefix(bs: Blendshapes, show: real -> string, i: nat)
    requires i < |bs|
    ensures Entries(bs[..i + 1], show) == Entries(bs[..i], show) + [Entry(bs[i].0, bs[i].1, show)]
  {
    PrefixSnoc(bs, i);
    FrontOfSnoc(bs[..i], bs[i]);
  }

  lemma StreamedSnoc(es: seq<string>, e: string)
    ensures Streamed(es + [e]) == Streamed(es) + e + ","
  {
    FrontOfSnoc(es, e);
  }

  /** Before the trailing comma is removed, the stream is the joined entries plus one comma. */
  lemma {:induction false} StreamedIsJoin(es: seq<string>)
    requires |es| >= 1
    ensures Streamed(es) == Join(es, ',') + ","
  {
    var front, last := es[..|es| - 1], es[|es| - 1];
    FrontLast(es);
    if |front| == 0 {
      assert es == [last];
    } else {
      StreamedIsJoin(front);
      JoinSnoc(front, last, ',');
      assert Streamed(es) == (Join(front, ',') + "," + last) + ",";
    }
  }

  /** One pass of the loop writes the next entry and a comma. */
  lemma StreamStep(bs: Blendshapes, show: real -> string, i: nat)
    requires i < |bs|
    ensures "{" + Streamed(Entries(bs[..i + 1], show))
         == "{" + Streamed(Entries(bs[..i], show)) + Entry(bs[i].0, bs[i].1, show) + ","
  {
    EntriesPrefix(bs, show, i);
    StreamedSnoc(Entries(bs[..i], show), Entry(bs[i].0, bs[i].1, show));
  }

  /** Dropping the trailing comma (when there is one) and closing the brace gives the column text. */
  lemma StreamClosed(bs: Blendshapes, show: real -> string)
    ensures var stream := "{" + Streamed(Entries(bs, show));
      (if |bs| > 0 then stream[..|stream| - 1] else stream) + "}" == BlendshapeJson(bs, show)
  {
    if |bs| > 0 {
      StreamedIsJoin(Entries(bs, show));
      FrontOfSnoc("{" + Join(Entries(bs, show), ','), ',');
    }
  }

  /** The source's loop: write each entry and a comma, drop the last comma if any, close the brace. */
  method BlendshapeText(bs: Blendshapes, show: real -> string) returns (text: string)
    ensures text == BlendshapeJson(bs, show)
  {
    var stream := "{";
    for i := 0 to |bs|
      invariant stream == "{" + Streamed(Entries(bs[..i], show))
    {
      StreamStep(bs, show, i);
      stream := stream + Entry(bs[i].0, bs[i].1, show) + ",";
    }
    assert bs[..|bs|] == bs;
    StreamClosed(bs, show);
    text := stream;
    if |bs| > 0 {
      text := text[..|text| - 1];
    }
    text := text + "}";
  }

  /** An empty table gives exactly `{}`, and only an empty table does. */
  lemma EmptyIsBraces(bs: Blendshapes, show: real -> string)
    ensures BlendshapeJson(bs, show) == "{}" <==> |bs| == 0
  {
    if |bs| > 0 {
      var es := Entries(bs, show);
      EntriesAt(bs, show, 0);
      assert |Join(es, ',')| >= |es[0]| >= 3;
    }
  }

  /** With comma-free keys and numbers, the text between the braces splits back into the entries. */
  lemma BlendshapeJsonSplits(bs: Blendshapes, show: real -> string)
    requires |bs| >= 1
    requires forall i :: 0 <= i < |bs| ==> ',' !in bs[i].0
    requires forall v :: ',' !in show(v)
    ensures var text := BlendshapeJson(bs, show);
      Split(text[1..|text| - 1], ',') == Entries(bs, show)
  {
    var es := Entries(bs, show);
    forall k | 0 <= k < |es|
      ensures ',' !in es[k]
    {
      EntriesAt(bs, show, k);
    }
    var text := BlendshapeJson(bs, show);
    assert text[1..|text| - 1] == Join(es, ',');
    SplitJoin(es, ',');
  }

  /** Keys are written verbatim: a key without `"` is the text between an entry's first two quotes. */
  lemma EntryKeyVerbatim(key: string, value: real, show: real -> string)
    requires '"' !in key
    ensures var e := Entry(key, value, show);
      e[0] == '"' && IndexOf(e[1..], '"') == |key| && e[1..|key| + 1] == key
  {
    var e := Entry(key, value, show);
    var rest := "\":" + show(value);
    assert e[1..] == key + rest;
    IndexOfPrefix(key, rest, '"');
  }

  // ---------------------------------------------------------------------------------------
  // Statements
  // ---------------------------------------------------------------------------------------

  const FaceTableSql: string := @"
        CREATE TABLE IF NOT EXISTS face_data (
            timestamp REAL,
            r REAL, g REAL, b REAL,
            blendshapes TEXT
        );
    "

  const ImuTableSql: string := @"
        CREATE TABLE IF NOT EXISTS imu_data (
            timestamp REAL,
            ax REAL, ay REAL, az REAL,
            gx REAL, gy REAL, gz REAL
        );
    "

  const FaceInsertHead: string := "INSERT INTO face_data VALUES ("
  const ImuInsertHead: string := "INSERT INTO imu_data VALUES ("

  /** The face INSERT as the source concatenates it; it reads the first three colour channels. */
  function FaceInsert(data: FaceData, bsText: string, toString: real -> string): string
    requires |data.avgRgb| >= 3
  {
    FaceInsertHead + toString(data.sourceTimestamp) + "," +
      toString(data.avgRgb[0]) + "," +
      toString(data.avgRgb[1]) + "," +
      toString(data.avgRgb[2]) + ",'" +
      bsText + "');"
  }

  /** The inertial INSERT: timestamp, then the accelerometer, then the gyroscope components. */
  function ImuInsert(data: ImuData, toString: real -> string): string
  {
    ImuInsertHead + toString(data.sourceTimestamp) + "," +
      toString(data.accel.x) + "," + toString(data.accel.y) + "," + toString(data.accel.z) + "," +
      toString(data.gyro.x) + "," + toString(data.gyro.y) + "," + toString(data.gyro.z) + ");"
  }

  /** Writing a comma and one more value after joined values is joining one more value. */
  lemma AppendColumn(head: string, cols: seq<string>, x: string)
    requires |cols| >= 1
    ensures head + Join(cols, ',') + "," + x == head + Join(cols + [x], ',')
  {
    JoinSnoc(cols, x, ',');
  }

  /** The face value list, on plain strings: four comma-free columns, then the quoted text. */
  lemma FourColumnsThenQuoted(head: string, t: string, r: string, g: string, b: string, bsText: string)
    requires ',' !in t && ',' !in r && ',' !in g && ',' !in b
    ensures var sql := head + t + "," + r + "," + g + "," + b + ",'" + bsText + "');";
      && |sql| >= |head| + 2
      && sql[..|head|] == head
      && sql[|sql| - 2..] == ");"
      && Split(sql[|head|..|sql| - 2], ',') == [t, r, g, b] + Split("'" + bsText + "'", ',')
  {
    var sql := head + t + "," + r + "," + g + "," + b + ",'" + bsText + "');";
    var c1 := [t];
    var c2 := c1 + [r];
    var c3 := c2 + [g];
    var c4 := c3 + [b];
    assert Join(c1, ',') == t;
    AppendColumn(head, c1, r);
    AppendColumn(head, c2, g);
    AppendColumn(head, c3, b);
    assert c4 == [t, r, g, b];
    var quoted := "'" + bsText + "'";
    var values := Join(c4, ',') + "," + quoted;
    assert sql == head + values + ");";
    assert sql[|head|..|sql| - 2] == values;
    SplitJoinThen(c4, quoted, ',');
  }

  /**
   * Column order of the face INSERT: after the head, the value list opens with the timestamp
   * and the three channels, and the rest is the quoted blendshape text.
   */
  lemma FaceInsertColumns(data: FaceData, bsText: string, toString: real -> string)
    requires |data.avgRgb| >= 3
    requires forall v :: ',' !in toString(v)
    ensures var sql := FaceInsert(data, bsText, toString);
      && |sql| >= |FaceInsertHead| + 2
      && sql[..|FaceInsertHead|] == FaceInsertHead
      && sql[|sql| - 2..] == ");"
      && Split(sql[|FaceInsertHead|..|sql| - 2], ',')
         == [toString(data.sourceTimestamp), toString(data.avgRgb[0]),
             toString(data.avgRgb[1]), toString(data.avgRgb[2])]
            + Split("'" + bsText + "'", ',')
  {
    var red: real, green: real, blue: real := data.avgRgb[0], data.avgRgb[1], data.avgRgb[2];
    assert ',' !in toString(red) && ',' !in toString(green) && ',' !in toString(blue);
    FourColumnsThenQuoted(FaceInsertHead, toString(data.sourceTimestamp), toString(data.avgRgb[0]),
      toString(data.avgRgb[1]), toString(data.avgRgb[2]), bsText);
  }

  /** Column order of the inertial INSERT: the value list splits into exactly the seven numbers. */
  lemma ImuInsertColumns(data: ImuData, toString: real -> string)
    requires forall v :: ',' !in toString(v)
    ensures var sql := ImuInsert(data, toString);
      && |sql| >= |ImuInsertHead| + 2
      && sql[..|ImuInsertHead|] == ImuInsertHead
      && sql[|sql| - 2..] == ");"
      && Split(sql[|ImuInsertHead|..|sql| - 2], ',')
         == [toString(data.sourceTimestamp),
             toString(data.accel.x), toString(data.accel.y), toString(data.accel.z),
             toString(data.gyro.x), toString(data.gyro.y), toString(data.gyro.z)]
  {
    var sql := ImuInsert(data, toString);
    var head := ImuInsertHead;
    var c1 := [toString(data.sourceTimestamp)];
    var c2 := c1 + [toString(data.accel.x)];
    var c3 := c2 + [toString(data.accel.y)];
    var c4 := c3 + [toString(data.accel.z)];
    var c5 := c4 + [toString(data.gyro.x)];
    var c6 := c5 + [toString(data.gyro.y)];
    var c7 := c6 + [toString(data.gyro.z)];
    assert Join(c1, ',') == toString(data.sourceTimestamp);
    AppendColumn(head, c1, toString(data.accel.x));
    AppendColumn(head, c2, toString(data.accel.y));
    AppendColumn(head, c3, toString(data.accel.z));
    AppendColumn(head, c4, toString(data.gyro.x));
    AppendColumn(head, c5, toString(data.gyro.y));
    AppendColumn(head, c6, toString(data.gyro.z));
    assert sql == head + Join(c7, ',') + ");";
    assert sql[|head|..|sql| - 2] == Join(c7, ',');
    assert c7 == [toString(data.sourceTimestamp),
                  toString(data.accel.x), toString(data.accel.y), toString(data.accel.z),
                  toString(data.gyro.x), toString(data.gyro.y), toString(data.gyro.z)];
    SplitJoin(c7, ',');
  }

  /**
   * The statements one face sample produces: its INSERT when it carries three colour
   * channels, nothing otherwise (the guard the source lacks; see FaceInsert).
   */
  function FaceRow(data: FaceData, toString: real -> string, show: real -> string): (rows: seq<string>)
    ensures |rows| <= 1
    ensures |rows| == 1 <==> |data.avgRgb| >= 3
  {
    if |data.avgRgb| >= 3 then [FaceInsert(data, BlendshapeJson(data.blendshapes, show), toString)] else []
  }

  /** The statements a run of face samples produces, in order. */
  function FaceRows(faces: seq<FaceData>, toString: real -> string, show: real -> string): seq<string>
  {
    if |faces| == 0 then []
    else FaceRows(faces[..|faces| - 1], toString, show) + FaceRow(faces[|faces| - 1], toString, show)
  }

  /** The statements a run of inertial samples produces, one per sample, in order. */
  function ImuRows(imus: seq<ImuData>, toString: real -> string): (rows: seq<string>)
    ensures |rows| == |imus|
  {
    if |imus| == 0 then []
    else ImuRows(imus[..|imus| - 1], toString) + [ImuInsert(imus[|imus| - 1], toString)]
  }

  lemma FaceRowsSnoc(faces: seq<FaceData>, f: FaceData, toString: real -> string, show: real -> string)
    ensures FaceRows(faces + [f], toString, show) == FaceRows(faces, toString, show) + FaceRow(f, toString, show)
  {
    FrontOfSnoc(faces, f);
  }

  lemma ImuRowsSnoc(imus: seq<ImuData>, m: ImuData, toString: real -> string)
    ensures ImuRows(imus + [m], toString) == ImuRows(imus, toString) + [ImuInsert(m, toString)]
  {
    FrontOfSnoc(imus, m);
  }

  /** Each inertial statement is the INSERT of the sample at the same position. */
  lemma {:induction false} ImuRowsAt(imus: seq<ImuData>, toString: real -> string, i: nat)
    requires i < |imus|
    ensures ImuRows(imus, toString)[i] == ImuInsert(imus[i], toString)
    decreases |imus|
  {
    if i < |imus| - 1 {
      ImuRowsAt(imus[..|imus| - 1], toString, i);
    }
  }

  /** Only samples with three channels yield a statement, so the count never exceeds the samples. */
  lemma {:induction false} FaceRowsCount(faces: seq<FaceData>, toString: real -> string, show: real -> string)
    ensures |FaceRows(faces, toString, show)| <= |faces|
    ensures (forall i :: 0 <= i < |faces| ==> |faces[i].avgRgb| >= 3)
            ==> |FaceRows(faces, toString, show)| == |faces|
  {
    if |faces| > 0 {
      var front := faces[..|faces| - 1];
      FaceRowsCount(front, toString, show);
      assert forall i :: 0 <= i < |front| ==> front[i] == faces[i];
    }
  }

  // ---------------------------------------------------------------------------------------
  // The logger object
  // ---------------------------------------------------------------------------------------

  /**
   * The logger. `open` is false when opening the file failed and the handle was set to
   * null; `executed` lists every statement handed to the database, in order (their result
   * codes are ignored by the source).
   */
  class DatabaseLogger {
    var open: bool
    var executed: seq<string>

    /** Opening either fails (`succeeded` false), or succeeds and creates both tables. */
    constructor (succeeded: bool)
      ensures open == succeeded
      ensures executed == if succeeded then [FaceTableSql, ImuTableSql] else []
    {
      open := succeeded;
      executed := [];
      if succeeded {
        executed := [FaceTableSql, ImuTableSql];
      }
    }

    /** Insert one face sample; nothing happens without a database or without three channels. */
    method InsertFaceData(data: FaceData, toString: real -> string, show: real -> string)
      modifies this
      ensures open == old(open)
      ensures executed == old(executed) + (if open then FaceRow(data, toString, show) else [])
    {
      if !open {
        return;
      }
      var bsText := BlendshapeText(data.blendshapes, show);
      if |data.avgRgb| >= 3 {
        executed := executed + [FaceInsert(data, bsText, toString)];
      }
    }

    /** Insert one inertial sample; nothing happens without a database. */
    method InsertImuData(data: ImuData, toString: real -> string)
      modifies this
      ensures open == old(open)
      ensures executed == old(executed) + (if open then [ImuInsert(data, toString)] else [])
    {
      if !open {
        return;
      }
      executed := executed + [ImuInsert(data, toString)];
    }
  }
}
