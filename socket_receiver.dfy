/**
 * The face-data receiver: bytes from the socket are accumulated in a text
 * buffer, cut into newline-terminated lines, and every line that decodes to a
 * face sample is pushed into the face history (capped at 100 samples).
 */
module SocketReceiver {
  import opened Shared
  import opened Text
  import opened BoundedHistory
  import opened SeqFacts

  const FaceBufferMaxSize: nat := 100

  /** The complete lines of `s`, in stream order, each without its terminating `sep`. */
  function Lines(s: string, sep: char): seq<string>
    decreases |s|
  {
    var i := IndexOf(s, sep);
    if i < |s| then [s[..i]] + Lines(s[i + 1..], sep) else []
  }

  /** What is left of `s` after its last `sep`: an incomplete line. */
  function Remainder(s: string, sep: char): string
    decreases |s|
  {
    var i := IndexOf(s, sep);
    if i < |s| then Remainder(s[i + 1..], sep) else s
  }

  /** Each line followed by its `sep`. */
  function Terminated(lines: seq<string>, sep: char): string
  {
    if |lines| == 0 then [] else lines[0] + [sep] + Terminated(lines[1..], sep)
  }

  /** Concatenation of the chunks delivered by successive reads. */
  function Flatten(chunks: seq<string>): string
  {
    if |chunks| == 0 then [] else Flatten(chunks[..|chunks| - 1]) + chunks[|chunks| - 1]
  }

  /** The samples of the lines that decode, in line order; the others are skipped. */
  function Decoded(lines: seq<string>, decode: string -> Option<FaceData>): seq<FaceData>
  {
    if |lines| == 0 then []
    else Decoded(lines[..|lines| - 1], decode) + Sample(decode(lines[|lines| - 1]))
  }

  /** A decoded line contributes its sample; a line that failed contributes nothing. */
  function Sample(r: Option<FaceData>): seq<FaceData>
  {
    match r
    case Some(d) => [d]
    case None => []
  }

  /** One step of the framing: the first line, and the text after its separator. */
  lemma LinesUnfold(s: string, sep: char)
    requires IndexOf(s, sep) < |s|
    ensures var i := IndexOf(s, sep);
      && Lines(s, sep) == [s[..i]] + Lines(s[i + 1..], sep)
      && Remainder(s, sep) == Remainder(s[i + 1..], sep)
  {
    LinesStep(s, sep);
    RemainderStep(s, sep);
  }

  lemma LinesStep(s: string, sep: char)
    requires IndexOf(s, sep) < |s|
    ensures Lines(s, sep) == [s[..IndexOf(s, sep)]] + Lines(s[IndexOf(s, sep) + 1..], sep)
  {
  }

  lemma RemainderStep(s: string, sep: char)
    requires IndexOf(s, sep) < |s|
    ensures Remainder(s, sep) == Remainder(s[IndexOf(s, sep) + 1..], sep)
  {
  }

  /** A text with no separator yields no line and is kept whole. */
  lemma NoLines(s: string, sep: char)
    requires IndexOf(s, sep) == |s|
    ensures Lines(s, sep) == [] && Remainder(s, sep) == s
  {
  }

  /** No extracted line contains the separator: each is exactly the text before one. */
  lemma {:induction false} LinesHaveNoSeparator(s: string, sep: char)
    ensures forall k :: 0 <= k < |Lines(s, sep)| ==> sep !in Lines(s, sep)[k]
    decreases |s|
  {
    var i := IndexOf(s, sep);
    if i < |s| {
      LinesStep(s, sep);
      IndexOfFirst(s, sep);
      LinesHaveNoSeparator(s[i + 1..], sep);
      assert forall j :: 0 <= j < i ==> s[..i][j] != sep;
    }
  }

  /** The buffer left behind after the inner loop holds no separator. */
  lemma RemainderHasNoSeparator(s: string, sep: char)
    ensures sep !in Remainder(s, sep)
  {
    RemainderUnterminated(s, sep);
    IndexOfAbsent(Remainder(s, sep), sep);
  }

  lemma {:induction false} RemainderUnterminated(s: string, sep: char)
    ensures IndexOf(Remainder(s, sep), sep) == |Remainder(s, sep)|
    decreases |s|
  {
    var i := IndexOf(s, sep);
    if i < |s| {
      RemainderStep(s, sep);
      RemainderUnterminated(s[i + 1..], sep);
    } else {
      NoLines(s, sep);
    }
  }

  lemma TerminatedCons(line: string, lines: seq<string>, sep: char)
    ensures Terminated([line] + lines, sep) == line + [sep] + Terminated(lines, sep)
  {
    TailOfCons(line, lines);
  }

  /** Conservation: the lines, each with its separator, followed by the remainder, are the input. */
  lemma {:induction false} FramingConserves(s: string, sep: char)
    ensures Terminated(Lines(s, sep), sep) + Remainder(s, sep) == s
    decreases |s|
  {
    var i := IndexOf(s, sep);
    if i < |s| {
      var rest := s[i + 1..];
      LinesUnfold(s, sep);
      CutAt(s, i);
      FramingConserves(rest, sep);
      TerminatedCons(s[..i], Lines(rest, sep), sep);
      Assoc(s[..i] + [sep], Terminated(Lines(rest, sep), sep), Remainder(rest, sep));
    }
  }

  /** Terminating two runs of lines one after the other is terminating their concatenation. */
  lemma {:induction false} TerminatedConcat(a: seq<string>, b: seq<string>, sep: char)
    ensures Terminated(a + b, sep) == Terminated(a, sep) + Terminated(b, sep)
    decreases |a|
  {
    if |a| > 0 {
      ConsTail(a);
      ConsAssoc(a[0], a[1..], b);
      TerminatedCons(a[0], a[1..] + b, sep);
      TerminatedConcat(a[1..], b, sep);
      TerminatedCons(a[0], a[1..], sep);
      Assoc(a[0] + [sep], Terminated(a[1..], sep), Terminated(b, sep));
    } else {
      EmptyConcat(b);
      EmptyConcat(Terminated(b, sep));
    }
  }

  /**
   * Uniqueness: any separator-free lines, each terminated, followed by a
   * separator-free tail, are framed back into exactly those lines and that tail.
   */
  lemma FramingUnique(lines: seq<string>, rest: string, sep: char)
    requires forall k :: 0 <= k < |lines| ==> sep !in lines[k]
    requires sep !in rest
    ensures Lines(Terminated(lines, sep) + rest, sep) == lines
    ensures Remainder(Terminated(lines, sep) + rest, sep) == rest
  {
    LinesUnique(lines, rest, sep);
    RemainderUnique(lines, rest, sep);
  }

  /** The text after the first terminated line is the framing of the other lines. */
  lemma FirstLine(lines: seq<string>, rest: string, sep: char)
    requires |lines| > 0 && sep !in lines[0]
    ensures var s, t := Terminated(lines, sep) + rest, Terminated(lines[1..], sep) + rest;
      && IndexOf(s, sep) == |lines[0]| && s[..|lines[0]|] == lines[0] && s[|lines[0]| + 1..] == t
  {
    var l, t := lines[0], Terminated(lines[1..], sep) + rest;
    ConsTail(lines);
    TerminatedCons(l, lines[1..], sep);
    Assoc(l + [sep], Terminated(lines[1..], sep), rest);
    SeparatorAfter(l, sep, t);
  }

  lemma {:induction false} LinesUnique(lines: seq<string>, rest: string, sep: char)
    requires forall k :: 0 <= k < |lines| ==> sep !in lines[k]
    requires sep !in rest
    ensures Lines(Terminated(lines, sep) + rest, sep) == lines
    decreases |lines|
  {
    if |lines| > 0 {
      var s := Terminated(lines, sep) + rest;
      FirstLine(lines, rest, sep);
      LinesStep(s, sep);
      LinesUnique(lines[1..], rest, sep);
      ConsTail(lines);
    } else {
      EmptyConcat(rest);
      IndexOfAbsent(rest, sep);
      NoLines(rest, sep);
    }
  }

  lemma {:induction false} RemainderUnique(lines: seq<string>, rest: string, sep: char)
    requires forall k :: 0 <= k < |lines| ==> sep !in lines[k]
    requires sep !in rest
    ensures Remainder(Terminated(lines, sep) + rest, sep) == rest
    decreases |lines|
  {
    if |lines| > 0 {
      var s := Terminated(lines, sep) + rest;
      FirstLine(lines, rest, sep);
      RemainderStep(s, sep);
      RemainderUnique(lines[1..], rest, sep);
    } else {
      EmptyConcat(rest);
      IndexOfAbsent(rest, sep);
      NoLines(rest, sep);
    }
  }

  /** Framing a stream piecewise gives the same lines as framing it at once. */
  lemma FramingAppend(s: string, t: string, sep: char)
    ensures Lines(s + t, sep) == Lines(s, sep) + Lines(Remainder(s, sep) + t, sep)
    ensures Remainder(s + t, sep) == Remainder(Remainder(s, sep) + t, sep)
  {
    var a, r := Lines(s, sep), Remainder(s, sep);
    var b, r' := Lines(r + t, sep), Remainder(r + t, sep);
    FramingConserves(s, sep);
    FramingConserves(r + t, sep);
    TerminatedConcat(a, b, sep);
    Assoc(Terminated(a, sep), r, t);
    Assoc(Terminated(a, sep), Terminated(b, sep), r');
    LinesHaveNoSeparator(s, sep);
    LinesHaveNoSeparator(r + t, sep);
    RemainderHasNoSeparator(r + t, sep);
    FreeConcat(a, b, sep);
    FramingUnique(a + b, r', sep);
  }

  lemma FreeConcat(a: seq<string>, b: seq<string>, sep: char)
    requires forall k :: 0 <= k < |a| ==> sep !in a[k]
    requires forall k :: 0 <= k < |b| ==> sep !in b[k]
    ensures forall k :: 0 <= k < |a + b| ==> sep !in (a + b)[k]
  {
  }

  lemma DecodedSnoc(lines: seq<string>, line: string, decode: string -> Option<FaceData>)
    ensures Decoded(lines + [line], decode) == Decoded(lines, decode) + Sample(decode(line))
  {
    FrontOfSnoc(lines, line);
  }

  lemma {:induction false} DecodedConcat(a: seq<string>, b: seq<string>, decode: string -> Option<FaceData>)
    ensures Decoded(a + b, decode) == Decoded(a, decode) + Decoded(b, decode)
    decreases |b|
  {
    if |b| > 0 {
      var b', last := b[..|b| - 1], b[|b| - 1];
      ConcatSnoc(a, b);
      DecodedSnoc(a + b', last, decode);
      DecodedConcat(a, b', decode);
      Assoc(Decoded(a, decode), Decoded(b', decode), Sample(decode(last)));
    } else {
      ConcatEmpty(a);
      ConcatEmpty(Decoded(a, decode));
    }
  }

  lemma AppendedAllSnoc<T>(s: seq<T>, xs: seq<T>, x: T, cap: nat)
    requires |s| <= cap
    ensures AppendedAll(s, xs + [x], cap) == Appended(AppendedAll(s, xs, cap), x, cap)
  {
    FrontOfSnoc(xs, x);
  }

  /** Pushing two runs one after the other is pushing their concatenation. */
  lemma {:induction false} AppendedAllConcat<T>(s: seq<T>, xs: seq<T>, ys: seq<T>, cap: nat)
    requires |s| <= cap
    ensures AppendedAll(s, xs + ys, cap) == AppendedAll(AppendedAll(s, xs, cap), ys, cap)
    decreases |ys|
  {
    if |ys| > 0 {
      var ys', y := ys[..|ys| - 1], ys[|ys| - 1];
      ConcatSnoc(xs, ys);
      AppendedAllSnoc(s, xs + ys', y, cap);
      AppendedAllConcat(s, xs, ys', cap);
      FrontLast(ys);
      AppendedAllSnoc(AppendedAll(s, xs, cap), ys', y, cap);
    } else {
      ConcatEmpty(xs);
    }
  }

  /** Handling one more line extends the pushed samples by that line's sample, if any. */
  lemma PushLine(s: seq<FaceData>, done: seq<string>, line: string,
                 decode: string -> Option<FaceData>, cap: nat)
    requires |s| <= cap
    ensures decode(line).None? ==>
      AppendedAll(s, Decoded(done + [line], decode), cap) == AppendedAll(s, Decoded(done, decode), cap)
    ensures decode(line).Some? ==>
      AppendedAll(s, Decoded(done + [line], decode), cap)
        == Appended(AppendedAll(s, Decoded(done, decode), cap), decode(line).value, cap)
  {
    DecodedSnoc(done, line, decode);
    match decode(line) {
      case Some(d) =>
        AppendedAllSnoc(s, Decoded(done, decode), d, cap);
      case None =>
        assert Decoded(done + [line], decode) == Decoded(done, decode);
    }
  }

  /** How many reads, from the first, delivered at least one byte before one delivered none. */
  function ReadsTaken(chunks: seq<string>): nat
  {
    if |chunks| == 0 || |chunks[0]| == 0 then 0 else 1 + ReadsTaken(chunks[1..])
  }

  /**
   * The reads taken in are exactly the leading ones that delivered bytes: all
   * of them did, and the read after them (if any) delivered none.
   */
  lemma {:induction false} ReadsTakenStops(chunks: seq<string>)
    ensures ReadsTaken(chunks) <= |chunks|
    ensures forall k :: 0 <= k < ReadsTaken(chunks) ==> |chunks[k]| > 0
    ensures ReadsTaken(chunks) < |chunks| ==> |chunks[ReadsTaken(chunks)]| == 0
  {
    if |chunks| > 0 && |chunks[0]| > 0 {
      ReadsTakenStops(chunks[1..]);
    }
  }

  lemma TakenStep(chunks: seq<string>, k: nat)
    requires k < |chunks| && |chunks[k]| > 0
    ensures ReadsTaken(chunks[k..]) == 1 + ReadsTaken(chunks[k + 1..])
  {
    assert chunks[k..][1..] == chunks[k + 1..];
  }

  lemma FlattenSnoc(chunks: seq<string>, k: nat)
    requires k < |chunks|
    ensures Flatten(chunks[..k + 1]) == Flatten(chunks[..k]) + chunks[k]
  {
    assert chunks[..k + 1][..k] == chunks[..k];
  }

  /**
   * What one read adds: handling the lines of the kept remainder plus the new
   * chunk continues exactly where handling the earlier stream stopped.
   */
  lemma ReadStep(s: seq<FaceData>, before: string, chunk: string,
                 decode: string -> Option<FaceData>, cap: nat, sep: char)
    requires |s| <= cap
    ensures Remainder(Remainder(before, sep) + chunk, sep) == Remainder(before + chunk, sep)
    ensures AppendedAll(AppendedAll(s, Decoded(Lines(before, sep), decode), cap),
                        Decoded(Lines(Remainder(before, sep) + chunk, sep), decode), cap)
         == AppendedAll(s, Decoded(Lines(before + chunk, sep), decode), cap)
  {
    var first, next := Lines(before, sep), Lines(Remainder(before, sep) + chunk, sep);
    FramingAppend(before, chunk, sep);
    DecodedConcat(first, next, decode);
    AppendedAllConcat(s, Decoded(first, decode), Decoded(next, decode), cap);
  }

  /**
   * The body of the try block for one line: decode it and, only when every
   * field decoded, push the sample.
   */
  method HandleLine(history: History<FaceData>, line: string, decode: string -> Option<FaceData>)
    requires history.Valid()
    modifies history
    ensures history.Valid()
    ensures decode(line).None? ==> history.items == old(history.items)
    ensures decode(line).Some? ==> history.items == Appended(old(history.items), decode(line).value, history.capacity)
  {
    match decode(line) {
      case Some(data) => history.Append(data);
      case None =>
    }
  }

  /**
   * One pass of the inner `while (find('\n'))` loop after a read appended
   * `chunk` to `buffer`: every complete line is handled in order and the
   * incomplete tail is kept for the next read.
   */
  method ReceiveChunk(history: History<FaceData>, buffer: string, chunk: string,
                      decode: string -> Option<FaceData>) returns (rest: string)
    requires history.Valid()
    modifies history
    ensures history.Valid()
    ensures rest == Remainder(buffer + chunk, '\n')
    ensures history.items
         == AppendedAll(old(history.items), Decoded(Lines(buffer + chunk, '\n'), decode), history.capacity)
  {
    var buf := buffer + chunk;
    ghost var done: seq<string> := [];
    while IndexOf(buf, '\n') < |buf|
      invariant history.Valid()
      invariant Lines(buffer + chunk, '\n') == done + Lines(buf, '\n')
      invariant Remainder(buffer + chunk, '\n') == Remainder(buf, '\n')
      invariant history.items == AppendedAll(old(history.items), Decoded(done, decode), history.capacity)
      decreases |buf|
    {
      var pos := IndexOf(buf, '\n');
      var line := buf[..pos];
      LinesUnfold(buf, '\n');
      Assoc(done, [line], Lines(buf[pos + 1..], '\n'));
      PushLine(old(history.items), done, line, decode, history.capacity);
      buf := buf[pos + 1..];
      HandleLine(history, line, decode);
      done := done + [line];
    }
    NoLines(buf, '\n');
    ConcatEmpty(done);
    rest := buf;
  }

  /**
   * The outer receive loop over successive reads. A read that delivers no
   * bytes (the source's `bytes_read <= 0`) ends the loop; `consumed` is the
   * number of reads whose bytes were taken in.
   */
  method ReceiveLoop(history: History<FaceData>, received: seq<string>, decode: string -> Option<FaceData>)
    returns (consumed: nat, rest: string)
    requires history.Valid()
    requires history.capacity == FaceBufferMaxSize
    modifies history
    ensures |history.items| <= FaceBufferMaxSize
    ensures history.Valid()
    ensures consumed <= |received|
    ensures consumed == ReadsTaken(received)
    ensures rest == Remainder(Flatten(received[..consumed]), '\n')
    ensures history.items
         == AppendedAll(old(history.items), Decoded(Lines(Flatten(received[..consumed]), '\n'), decode), history.capacity)
  {
    var buffer := "";
    consumed := 0;
    while consumed < |received| && |received[consumed]| > 0
      invariant history.Valid()
      invariant consumed <= |received|
      invariant ReadsTaken(received) == consumed + ReadsTaken(received[consumed..])
      invariant buffer == Remainder(Flatten(received[..consumed]), '\n')
      invariant history.items
             == AppendedAll(old(history.items), Decoded(Lines(Flatten(received[..consumed]), '\n'), decode), history.capacity)
    {
      ghost var before := Flatten(received[..consumed]);
      var chunk := received[consumed];
      FlattenSnoc(received, consumed);
      ReadStep(old(history.items), before, chunk, decode, history.capacity, '\n');
      buffer := ReceiveChunk(history, buffer, chunk, decode);
      TakenStep(received, consumed);
      consumed := consumed + 1;
    }
    rest := buffer;
  }
}
