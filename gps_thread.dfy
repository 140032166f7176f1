/**
 * The GPS reader thread: it reads one line from the serial port, keeps only
 * RMC ("Recommended Minimum Specific GNSS Data") sentences of NMEA 0183 with an
 * active fix, converts their coordinates to signed decimal degrees and their
 * speed to km/h, and pushes the sample into the GPS history (capped at 100).
 */
module GpsThread {
  import opened Shared
  import opened Text
  import opened Numbers
  import opened SeqFacts
  import opened BoundedHistory

  const GpsBufferMaxSize: nat := 100

  /** Knots to kilometres per hour. */
  const KnotsToKmh: real := 1.852

  // ---------------------------------------------------------------------------
  // Reading a line from the serial port
  // ---------------------------------------------------------------------------

  /** `s` with every carriage return removed, other characters kept in order. */
  function StripCR(s: string): string
  {
    if |s| == 0 then []
    else StripCR(s[..|s| - 1]) + (if s[|s| - 1] == '\r' then [] else [s[|s| - 1]])
  }

  /**
   * The bytes one call of the line reader takes from `available` (the bytes the
   * non-blocking port can deliver before `read` stops returning one byte):
   * everything up to and including the first '\n', or all of them.
   */
  function LineExtent(available: string): nat
  {
    var i := IndexOf(available, '\n');
    if i < |available| then i + 1 else |available|
  }

  /**
   * Reads byte by byte: a '\n' ends the line and is dropped, a '\r' is dropped,
   * any other byte is appended. Running out of bytes also ends the line.
   */
  method ReadLine(available: string) returns (line: string, consumed: nat)
    ensures consumed == LineExtent(available)
    ensures line == StripCR(available[..IndexOf(available, '\n')])
  {
    line := [];
    consumed := 0;
    while consumed < |available|
      invariant consumed <= IndexOf(available, '\n')
      invariant line == StripCR(available[..consumed])
    {
      var c := available[consumed];
      consumed := consumed + 1;
      if c == '\n' {
        IndexOfFirst(available, '\n');
        return;
      }
      PrefixSnoc(available, consumed - 1);
      if c != '\r' {
        line := line + [c];
      }
    }
  }

  lemma {:induction false} StripCRHasNoCR(s: string)
    ensures '\r' !in StripCR(s)
  {
    if |s| > 0 {
      StripCRHasNoCR(s[..|s| - 1]);
    }
  }

  /** Removing carriage returns keeps every other character: it only ever deletes. */
  lemma {:induction false} StripCRKeeps(s: string, c: char)
    requires c != '\r'
    ensures c in StripCR(s) <==> c in s
  {
    if |s| > 0 {
      StripCRKeeps(s[..|s| - 1], c);
      FrontLast(s);
    }
  }

  /** A text without carriage returns is returned unchanged. */
  lemma {:induction false} StripCRIdentity(s: string)
    requires '\r' !in s
    ensures StripCR(s) == s
  {
    if |s| > 0 {
      StripCRIdentity(s[..|s| - 1]);
      FrontLast(s);
    }
  }

  /** The line read holds neither '\r' nor '\n'. */
  lemma LineIsClean(available: string)
    ensures var line := StripCR(available[..IndexOf(available, '\n')]);
      '\r' !in line && '\n' !in line
  {
    var prefix := available[..IndexOf(available, '\n')];
    StripCRHasNoCR(prefix);
    IndexOfFirst(available, '\n');
    assert '\n' !in prefix;
    StripCRKeeps(prefix, '\n');
  }

  // ---------------------------------------------------------------------------
  // Splitting a sentence into fields with getline(ss, field, ',')
  // ---------------------------------------------------------------------------

  /** Where the field starting at `k` ends: the next ',' or the end of the line. */
  function FieldEnd(line: string, k: nat): (e: nat)
    requires k <= |line|
    ensures k <= e <= |line|
  {
    IndexFrom(line, ',', k)
  }

  /** Where getline resumes after the field starting at `k`: past its ',' or at the end. */
  function NextStart(line: string, k: nat): (n: nat)
    requires k < |line|
    ensures k < n <= |line|
  {
    var e := FieldEnd(line, k);
    if e < |line| then e + 1 else |line|
  }

  /**
   * The fields getline extracts from position `k` on: each runs to the next ','
   * (which is consumed) or to the end; nothing is extracted once the end is
   * reached, so a trailing ',' yields no empty last field.
   */
  function FieldsFrom(line: string, k: nat): seq<string>
    requires k <= |line|
    decreases |line| - k
  {
    if k < |line| then [line[k..FieldEnd(line, k)]] + FieldsFrom(line, NextStart(line, k)) else []
  }

  /** A list of pieces without its last one when that one is empty. */
  function DropEmptyLast(parts: seq<string>): seq<string>
    requires |parts| >= 1
  {
    if parts[|parts| - 1] == [] then parts[..|parts| - 1] else parts
  }

  /** The reference reading: split at every ',' and drop the last piece when it is empty. */
  function GetlineFields(line: string): seq<string>
  {
    DropEmptyLast(Split(line, ','))
  }

  /** The `while (getline(ss, field, ','))` loop that push_backs every field. */
  method SplitFields(line: string) returns (fields: seq<string>)
    ensures fields == FieldsFrom(line, 0)
  {
    fields := [];
    var pos := 0;
    while pos < |line|
      invariant pos <= |line|
      invariant FieldsFrom(line, 0) == fields + FieldsFrom(line, pos)
      decreases |line| - pos
    {
      FieldsStep(line, pos, fields);
      fields := fields + [line[pos..FieldEnd(line, pos)]];
      pos := NextStart(line, pos);
    }
    ConcatEmpty(fields);
  }

  /** One field taken off the front, as an equation on the fields collected so far. */
  lemma FieldsStep(line: string, pos: nat, fields: seq<string>)
    requires pos < |line|
    ensures fields + FieldsFrom(line, pos)
      == (fields + [line[pos..FieldEnd(line, pos)]]) + FieldsFrom(line, NextStart(line, pos))
  {
    Assoc(fields, [line[pos..FieldEnd(line, pos)]], FieldsFrom(line, NextStart(line, pos)));
  }

  /** Searching from `k` is searching the suffix from `k`, shifted by `k`. */
  lemma IndexFromShift(s: string, c: char, k: nat)
    requires k <= |s|
    ensures IndexFrom(s, c, k) == k + IndexOf(s[k..], c)
  {
    var t := s[k..];
    var j := IndexOf(t, c);
    IndexOfFirst(t, c);
    IndexFromFirst(s, c, k);
    if j < |t| {
      IndexFromIs(s, c, k, k + j);
    } else {
      IndexFromNone(s, c, k);
    }
  }

  lemma SuffixPieces(line: string, k: nat, e: nat)
    requires k <= e < |line|
    ensures line[k..][..e - k] == line[k..e] && line[k..][e - k + 1..] == line[e + 1..]
  {
  }

  /** Split of a suffix whose first field ends at a ','. */
  lemma SplitSuffix(line: string, k: nat)
    requires k < |line| && FieldEnd(line, k) < |line|
    ensures Split(line[k..], ',') == [line[k..FieldEnd(line, k)]] + Split(line[FieldEnd(line, k) + 1..], ',')
  {
    IndexFromShift(line, ',', k);
    SuffixPieces(line, k, FieldEnd(line, k));
    SplitUnfold(line[k..], ',');
  }

  /** Split of a suffix with no ',' at all. */
  lemma SplitSuffixLast(line: string, k: nat)
    requires k < |line| && FieldEnd(line, k) == |line|
    ensures Split(line[k..], ',') == [line[k..FieldEnd(line, k)]]
  {
    IndexFromShift(line, ',', k);
    assert line[k..FieldEnd(line, k)] == line[k..];
  }

  /** Dropping an empty last piece commutes with putting a piece in front. */
  lemma DropEmptyLastCons(x: string, parts: seq<string>)
    requires |parts| >= 1
    ensures DropEmptyLast([x] + parts) == [x] + DropEmptyLast(parts)
  {
  }

  /** getline's fields are exactly the reference reading of the suffix. */
  lemma {:induction false} FieldsFromIsGetline(line: string, k: nat)
    requires k <= |line|
    ensures FieldsFrom(line, k) == GetlineFields(line[k..])
    decreases |line| - k
  {
    if k == |line| {
      NoFieldsAtEnd(line);
    } else if FieldEnd(line, k) < |line| {
      var e := FieldEnd(line, k);
      FieldsFromIsGetline(line, e + 1);
      FieldsMiddle(line, k);
    } else {
      FieldsLast(line, k);
    }
  }

  lemma NoFieldsAtEnd(line: string)
    ensures FieldsFrom(line, |line|) == GetlineFields(line[|line|..]) == []
  {
    assert line[|line|..] == [];
    assert Split([], ',') == [[]];
  }

  lemma FieldsLast(line: string, k: nat)
    requires k < |line| && FieldEnd(line, k) == |line|
    ensures FieldsFrom(line, k) == GetlineFields(line[k..])
  {
    SplitSuffixLast(line, k);
    assert FieldsFrom(line, |line|) == [];
  }

  /** The inductive step: a field ended by ',' is the first piece on both sides. */
  lemma FieldsMiddle(line: string, k: nat)
    requires k < |line| && FieldEnd(line, k) < |line|
    requires FieldsFrom(line, FieldEnd(line, k) + 1) == GetlineFields(line[FieldEnd(line, k) + 1..])
    ensures FieldsFrom(line, k) == GetlineFields(line[k..])
  {
    var e := FieldEnd(line, k);
    SplitSuffix(line, k);
    DropEmptyLastCons(line[k..e], Split(line[e + 1..], ','));
  }

  /** The fields of the whole sentence are its reference reading. */
  lemma FieldsAreGetline(line: string)
    ensures FieldsFrom(line, 0) == GetlineFields(line)
  {
    FieldsFromIsGetline(line, 0);
    assert line[0..] == line;
  }

  /** The fields are the reference reading of the whole sentence, none holds a ',', and splitting loses nothing. */
  lemma FieldsRebuildLine(line: string)
    ensures FieldsFrom(line, 0) == GetlineFields(line)
    ensures forall k :: 0 <= k < |GetlineFields(line)| ==> ',' !in GetlineFields(line)[k]
    ensures Join(Split(line, ','), ',') == line
  {
    FieldsAreGetline(line);
    SplitPiecesFree(line, ',');
    JoinSplit(line, ',');
  }

  // ---------------------------------------------------------------------------
  // Coordinates: NMEA ddmm.mmmm to signed decimal degrees
  // ---------------------------------------------------------------------------

  /** The whole degrees of a raw ddmm.mmmm value: its hundreds, truncated toward zero. */
  function Degrees(raw: real): int
  {
    TruncToZero(raw / 100.0)
  }

  /** The minutes left after the whole degrees are taken out. */
  function Minutes(raw: real): real
  {
    raw - (Degrees(raw) * 100) as real
  }

  /**
   * nmea_to_decimal: an empty coordinate gives 0.0; otherwise degrees plus
   * minutes / 60, negated for the southern and western hemispheres. `stod`
   * returns None where std::stod would throw.
   */
  function NmeaToDecimal(coord: string, dir: string, stod: string -> Option<real>): (r: Option<real>)
    ensures coord == [] ==> r == Some(0.0)
    ensures coord != [] ==> (r.None? <==> stod(coord).None?)
  {
    if coord == [] then Some(0.0)
    else match stod(coord)
      case None => None
      case Some(raw) =>
        var decimal := Degrees(raw) as real + Minutes(raw) / 60.0;
        if dir == "S" || dir == "W" then Some(-decimal) else Some(decimal)
  }

  /** The raw value splits into whole degrees times 100 plus minutes, with minutes below 100 in size and of the raw value's sign. */
  lemma DegreesMinutesSplit(raw: real)
    ensures raw == (Degrees(raw) * 100) as real + Minutes(raw)
    ensures raw >= 0.0 ==> 0.0 <= Minutes(raw) < 100.0
    ensures raw < 0.0 ==> -100.0 < Minutes(raw) <= 0.0
  {
  }

  /** For a northern or eastern ddmm.mmmm value with minutes below 60, the whole degrees are the integer part of the result. */
  lemma WholeDegreesKept(coord: string, dir: string, stod: string -> Option<real>)
    requires coord != [] && stod(coord).Some? && stod(coord).value >= 0.0
    requires Minutes(stod(coord).value) < 60.0
    requires dir != "S" && dir != "W"
    ensures var r := NmeaToDecimal(coord, dir, stod);
      r.Some? && Degrees(stod(coord).value) as real <= r.value < Degrees(stod(coord).value) as real + 1.0
  {
    DegreesMinutesSplit(stod(coord).value);
  }

  /** The hemisphere only flips the sign: f(c, "S") == -f(c, "N"), and likewise for "W" and "E". */
  lemma HemisphereSymmetry(coord: string, stod: string -> Option<real>)
    ensures NmeaToDecimal(coord, "S", stod) == Negated(NmeaToDecimal(coord, "N", stod))
    ensures NmeaToDecimal(coord, "W", stod) == Negated(NmeaToDecimal(coord, "E", stod))
  {
  }

  function Negated(r: Option<real>): Option<real>
  {
    match r
    case None => None
    case Some(x) => Some(-x)
  }

  // ---------------------------------------------------------------------------
  // One iteration of the thread loop
  // ---------------------------------------------------------------------------

  /** What one line leads to. */
  datatype RmcOutcome =
    | NotRmc                  // no "$GPRMC" in the line: skipped silently
    | NoFix                   // too few fields or status other than "A": "No fix yet"
    | Fixed(data: GpsData)    // a sample is pushed into the history and the queue
    | ConversionFailure       // std::stod threw: the exception leaves the thread

  /** The RMC decoding of one line read at time `now`. */
  function DecodeRmc(line: string, now: real, stod: string -> Option<real>): (o: RmcOutcome)
    ensures o.Fixed? ==> o.data.sourceTimestamp == now
  {
    if !Contains(line, "$GPRMC") then NotRmc
    else
      var fields := GetlineFields(line);
      if !(|fields| > 8 && fields[2] == "A") then NoFix
      else
        var lat := NmeaToDecimal(fields[3], fields[4], stod);
        var lon := NmeaToDecimal(fields[5], fields[6], stod);
        var knots := stod(fields[7]);
        if lat.None? || lon.None? || knots.None? then ConversionFailure
        else Fixed(GpsData(now, lat.value, lon.value, knots.value * KnotsToKmh))
  }

  /** A sample is produced only from an RMC sentence with more than 8 fields, status "A", and every number converted. */
  lemma FixedOnlyWhenValid(line: string, now: real, stod: string -> Option<real>)
    ensures var o := DecodeRmc(line, now, stod);
      o.Fixed? <==>
        && Contains(line, "$GPRMC")
        && |GetlineFields(line)| > 8
        && GetlineFields(line)[2] == "A"
        && NmeaToDecimal(GetlineFields(line)[3], GetlineFields(line)[4], stod).Some?
        && NmeaToDecimal(GetlineFields(line)[5], GetlineFields(line)[6], stod).Some?
        && stod(GetlineFields(line)[7]).Some?
  {
  }

  /** A produced sample carries the converted coordinates and the speed field times 1.852. */
  lemma FixedSampleFields(line: string, now: real, stod: string -> Option<real>)
    requires DecodeRmc(line, now, stod).Fixed?
    ensures var f, d := GetlineFields(line), DecodeRmc(line, now, stod).data;
      && |f| > 8
      && Some(d.lat) == NmeaToDecimal(f[3], f[4], stod)
      && Some(d.lon) == NmeaToDecimal(f[5], f[6], stod)
      && Some(d.speed / KnotsToKmh) == stod(f[7])
  {
  }

  /**
   * The body of the thread loop for one line: split, validate, convert, and
   * push a fixed sample into the capped history.
   */
  method HandleLine(history: History<GpsData>, line: string, now: real, stod: string -> Option<real>)
    returns (outcome: RmcOutcome)
    requires history.Valid()
    requires history.capacity == GpsBufferMaxSize
    modifies history
    ensures |history.items| <= GpsBufferMaxSize
    ensures history.Valid()
    ensures outcome == DecodeRmc(line, now, stod)
    ensures outcome.Fixed? ==> history.items == Appended(old(history.items), outcome.data, history.capacity)
    ensures !outcome.Fixed? ==> history.items == old(history.items)
  {
    if !Contains(line, "$GPRMC") {
      return NotRmc;
    }
    var fields := SplitFields(line);
    FieldsAreGetline(line);
    if !(|fields| > 8 && fields[2] == "A") {
      return NoFix;
    }
    var lat := NmeaToDecimal(fields[3], fields[4], stod);
    var lon := NmeaToDecimal(fields[5], fields[6], stod);
    var knots := stod(fields[7]);
    if lat.None? || lon.None? || knots.None? {
      return ConversionFailure;
    }
    var data := GpsData(now, lat.value, lon.value, knots.value * KnotsToKmh);
    history.Append(data);
    outcome := Fixed(data);
  }
}
