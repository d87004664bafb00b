/** The lines of a buffer, from the first to the last and from the last to the first. A callback
    sees the lines one by one and may stop; it is a predicate of the lines it has seen so far. */
module FileLines {
  import opened Basics

  // ---------------------------------------------------------------------------------------
  // Forward
  // ---------------------------------------------------------------------------------------

  /** The first newline at or behind `from`, or the end. */
  function LineEnd(buf: string, from: nat, size: nat): (end: nat)
    requires from <= size <= |buf|
    ensures from <= end <= size && (end < size ==> buf[end] == '\n')
    ensures forall i :: from <= i < end ==> buf[i] != '\n'
    decreases size - from
  {
    if from == size || buf[from] == '\n' then from else LineEnd(buf, from + 1, size)
  }

  /** The text of a line without the carriage return before its end. */
  function LineText(buf: string, pos: nat, end: nat): string
    requires pos <= end <= |buf|
  {
    if end > pos && buf[end - 1] == '\r' then buf[pos..end - 1] else buf[pos..end]
  }

  function Lines(buf: string, pos: nat, size: nat): (r: seq<string>)
    requires size <= |buf|
    decreases size - pos
  {
    if pos >= size then []
    else
      var end := LineEnd(buf, pos, size);
      [LineText(buf, pos, end)] + Lines(buf, end + 1, size)
  }

  // ---------------------------------------------------------------------------------------
  // Backward
  // ---------------------------------------------------------------------------------------

  /** The start of the line that ends at `end`. */
  function LineStart(buf: string, end: nat): (pos: nat)
    requires end <= |buf|
    ensures pos <= end && (pos > 0 ==> buf[pos - 1] == '\n')
    ensures forall i :: pos <= i < end ==> buf[i] != '\n'
    decreases end
  {
    if end > 0 && buf[end - 1] != '\n' then LineStart(buf, end - 1) else end
  }

  /** Where the text of the line that ends at `end` ends. */
  function TextEnd(buf: string, end: nat): nat
    requires end < |buf|
    ensures TextEnd(buf, end) <= end
  {
    if end > 1 && buf[end] == '\n' && buf[end - 1] == '\r' then end - 1 else end
  }

  function LinesBackward(buf: string, end: int): (r: seq<string>)
    requires -1 <= end < |buf|
    decreases end + 1
  {
    if end < 0 then []
    else
      var stop := TextEnd(buf, end);
      var pos := LineStart(buf, stop);
      [buf[pos..stop]] + LinesBackward(buf, pos - 1)
  }

  // ---------------------------------------------------------------------------------------
  // Both ways
  // ---------------------------------------------------------------------------------------

  lemma {:induction false} LinesUnfold(buf: string, pos: nat, size: nat)
    requires pos < size <= |buf|
    ensures var end := LineEnd(buf, pos, size);
            Lines(buf, pos, size) == [LineText(buf, pos, end)] + Lines(buf, end + 1, size)
  {
  }

  lemma LineTextIs(buf: string, pos: nat, end: nat, len: nat)
    requires pos <= end <= |buf|
    requires len == if end > pos && buf[end - 1] == '\r' then end - pos - 1 else end - pos
    ensures LineText(buf, pos, end) == buf[pos..pos + len]
  {
  }

  lemma {:induction false} NoLines(buf: string, pos: nat, size: nat)
    requires size <= |buf| && size <= pos
    ensures Lines(buf, pos, size) == []
  {
  }

  lemma Regroup(a: seq<string>, line: string, b: seq<string>)
    ensures a + ([line] + b) == a + [line] + b
  {
  }

  /** A buffer cut at the start of a line has the lines of both parts. */
  lemma {:induction false} LinesSplit(buf: string, from: nat, pos: nat, size: nat)
    requires from <= pos <= size <= |buf| && (pos == from || buf[pos - 1] == '\n')
    ensures Lines(buf, from, size) == Lines(buf, from, pos) + Lines(buf, pos, size)
    decreases pos - from
  {
    hide Lines, LineEnd, LineText;
    if from < pos {
      var end := LineEnd(buf, from, size);
      SameEnd(buf, from, pos, size);
      LinesUnfold(buf, from, pos);
      LinesUnfold(buf, from, size);
      LinesSplit(buf, end + 1, pos, size);
      assert [LineText(buf, from, end)] + (Lines(buf, end + 1, pos) + Lines(buf, pos, size)) ==
             [LineText(buf, from, end)] + Lines(buf, end + 1, pos) + Lines(buf, pos, size);
    } else {
      NoLines(buf, from, pos);
    }
  }

  lemma {:induction false} SameEnd(buf: string, from: nat, pos: nat, size: nat)
    requires from < pos <= size <= |buf| && buf[pos - 1] == '\n'
    ensures LineEnd(buf, from, pos) == LineEnd(buf, from, size) < pos
    decreases pos - from
  {
    if buf[from] != '\n' {
      SameEnd(buf, from + 1, pos, size);
    }
  }

  /** The last character ends a line both ways. */
  predicate EndsLine(buf: string) {
    |buf| == 0 || buf[|buf| - 1] == '\n' || buf[|buf| - 1] == '\r'
  }

  predicate StartsWithCrLf(buf: string) {
    |buf| >= 2 && buf[0] == '\r' && buf[1] == '\n'
  }

  /** The last line, when it is not the empty line of CR LF at the very start. */
  lemma {:induction false} LastLine(buf: string, end: nat)
    requires end < |buf| && (buf[end] == '\n' || (buf[end] == '\r' && end == |buf| - 1))
    requires !StartsWithCrLf(buf)
    ensures var stop := TextEnd(buf, end);
            var pos := LineStart(buf, stop);
            pos <= end && Lines(buf, pos, end + 1) == [buf[pos..stop]]
  {
    var stop := TextEnd(buf, end);
    var pos := LineStart(buf, stop);
    var e := LineEnd(buf, pos, end + 1);
    assert e == if buf[end] == '\n' then end else end + 1;
    assert LineText(buf, pos, e) == buf[pos..stop];
    assert Lines(buf, e + 1, end + 1) == [];
  }

  lemma {:induction false} BackwardUnfold(buf: string, end: nat)
    requires end < |buf|
    ensures var stop := TextEnd(buf, end);
            var pos := LineStart(buf, stop);
            LinesBackward(buf, end) == [buf[pos..stop]] + LinesBackward(buf, pos - 1)
  {
  }

  lemma NothingBackward(buf: string)
    ensures LinesBackward(buf, -1) == []
  {
  }

  lemma {:induction false} BackwardIsReversed(buf: string, end: int)
    requires -1 <= end < |buf| && !StartsWithCrLf(buf)
    requires end < 0 || buf[end] == '\n' || (buf[end] == '\r' && end == |buf| - 1)
    ensures LinesBackward(buf, end) == Reversed(Lines(buf, 0, end + 1))
    decreases end + 1
  {
    hide Lines, LineStart, TextEnd, Reversed, StartsWithCrLf, LinesBackward;
    if end < 0 {
      NothingBackward(buf);
      NoLines(buf, 0, end + 1);
      NothingReversed();
    } else {
      var stop := TextEnd(buf, end);
      var pos := LineStart(buf, stop);
      LastLine(buf, end);
      LinesSplit(buf, 0, pos, end + 1);
      ReversedSnoc(Lines(buf, 0, pos), buf[pos..stop]);
      var start: int := pos;
      BackwardIsReversed(buf, start - 1);
      BackwardUnfold(buf, end);
    }
  }

  lemma NothingReversed()
    ensures Reversed<string>([]) == []
  {
  }

  /** The last line of a buffer that ends otherwise loses its last character. */
  lemma {:induction false} LastCharacterLost(buf: string)
    requires !EndsLine(buf)
    ensures LinesBackward(buf, |buf| - 1) != Reversed(Lines(buf, 0, |buf|))
  {
    hide Lines, LineStart, TextEnd, LineEnd, Reversed, LinesBackward;
    var end := |buf| - 1;
    var pos := LineStart(buf, end);
    LinesSplit(buf, 0, pos, |buf|);
    OpenLine(buf, pos);
    ReversedSnoc(Lines(buf, 0, pos), buf[pos..]);
    OpenEnd(buf);
    BackwardUnfold(buf, end);
    assert Reversed(Lines(buf, 0, |buf|))[0] == buf[pos..];
    assert LinesBackward(buf, end)[0] == buf[pos..end];
    assert |buf[pos..end]| != |buf[pos..]|;
  }

  /** The last line of a buffer that does not end a line. */
  lemma {:induction false} OpenLine(buf: string, pos: nat)
    requires !EndsLine(buf) && pos == LineStart(buf, |buf| - 1)
    ensures Lines(buf, pos, |buf|) == [buf[pos..]]
  {
    hide Lines, LineStart;
    assert LineEnd(buf, pos, |buf|) == |buf|;
    LinesUnfold(buf, pos, |buf|);
    NoLines(buf, |buf| + 1, |buf|);
    assert buf[pos..|buf|] == buf[pos..];
  }

  lemma OpenEnd(buf: string)
    requires !EndsLine(buf)
    ensures TextEnd(buf, |buf| - 1) == |buf| - 1
  {
  }

  /** The line that ends with the very first CR LF keeps its carriage return. */
  lemma {:induction false} FirstLineBackward(buf: string, end: nat)
    requires end < |buf| && StartsWithCrLf(buf) && end >= 1
    ensures var r := LinesBackward(buf, end); r != [] && r[|r| - 1] == "\r"
    decreases end
  {
    var stop := TextEnd(buf, end);
    var pos := LineStart(buf, stop);
    if end == 1 {
      assert LineStart(buf, 1) == 0;
      assert buf[0..1] == "\r";
    } else {
      assert stop >= 2;
      assert buf[1] == '\n';
      assert pos >= 2;
      FirstLineBackward(buf, pos - 1);
    }
  }

  /** Reading backward gives the lines of reading forward in reverse order exactly when the
      buffer is empty or ends with a newline or carriage return, and does not start with CR LF. */
  lemma ReverseIff(buf: string)
    ensures LinesBackward(buf, |buf| - 1) == Reversed(Lines(buf, 0, |buf|))
            <==> EndsLine(buf) && !StartsWithCrLf(buf)
  {
    if !EndsLine(buf) {
      LastCharacterLost(buf);
    } else if StartsWithCrLf(buf) {
      FirstLineBackward(buf, |buf| - 1);
      assert LineEnd(buf, 0, |buf|) == 1;
      assert Lines(buf, 0, |buf|)[0] == "";
    } else {
      BackwardIsReversed(buf, |buf| - 1);
    }
  }

  // ---------------------------------------------------------------------------------------
  // What lines are
  // ---------------------------------------------------------------------------------------

  function JoinedLines(lines: seq<string>, ends: seq<string>): string
    requires |lines| == |ends|
    decreases |lines|
  {
    if lines == [] then "" else lines[0] + (ends[0] + JoinedLines(lines[1..], ends[1..]))
  }

  predicate EndsWithReturn(line: string) {
    line != "" && line[|line| - 1] == '\r'
  }

  /** How a line may end: with a newline, with a carriage return and a newline, and at the end of the
      buffer with a carriage return or nothing. */
  predicate MayEnd(line: string, end: string, last: bool) {
    && '\n' !in line
    && (|| (end == "\n" && !EndsWithReturn(line))
        || end == "\r\n"
        || (last && end == "\r")
        || (last && end == "" && line != "" && !EndsWithReturn(line)))
  }

  predicate AreLines(lines: seq<string>, ends: seq<string>, s: string) {
    && |lines| == |ends|
    && s == JoinedLines(lines, ends)
    && forall i :: 0 <= i < |lines| ==> MayEnd(lines[i], ends[i], i == |lines| - 1)
  }

  lemma OneMoreLine(line: string, end: string, lines: seq<string>, ends: seq<string>, s: string)
    requires AreLines(lines, ends, s) && MayEnd(line, end, lines == [])
    ensures AreLines([line] + lines, [end] + ends, line + (end + s))
  {
    hide MayEnd;
    var all, tails := [line] + lines, [end] + ends;
    assert all[1..] == lines && tails[1..] == ends;
  }

  /** The end of the line from `pos` on. */
  function EndText(buf: string, pos: nat): string
    requires pos < |buf|
  {
    var end := LineEnd(buf, pos, |buf|);
    (if end > pos && buf[end - 1] == '\r' then "\r" else "") + if end < |buf| then "\n" else ""
  }

  lemma LineAndEnd(buf: string, pos: nat)
    requires pos < |buf|
    ensures var end := LineEnd(buf, pos, |buf|);
            var line := LineText(buf, pos, end);
            && buf[pos..] == line + (EndText(buf, pos) + buf[if end < |buf| then end + 1 else end..])
            && MayEnd(line, EndText(buf, pos), true)
            && (end < |buf| ==> MayEnd(line, EndText(buf, pos), false))
  {
    hide LineEnd;
    var end := LineEnd(buf, pos, |buf|);
    var line := LineText(buf, pos, end);
    var k := pos + |line|;
    assert line == buf[pos..k];
    assert EndText(buf, pos) == buf[k..if end < |buf| then end + 1 else end];
    assert end < |buf| && k == end ==> EndText(buf, pos) == "\n";
    assert end < |buf| && k + 1 == end ==> EndText(buf, pos) == "\r\n";
  }

  /** The lines, each with its end, make up the whole buffer. */
  lemma {:induction false} LinesMakeUp(buf: string, pos: nat) returns (ends: seq<string>)
    requires pos <= |buf|
    ensures AreLines(Lines(buf, pos, |buf|), ends, buf[pos..])
    decreases |buf| - pos
  {
    hide Lines, LineEnd, LineText, MayEnd, AreLines, EndText;
    if pos == |buf| {
      ends := [];
      NoLines(buf, pos, |buf|);
      NoLinesAtAll();
      assert buf[pos..] == "";
    } else {
      var end := LineEnd(buf, pos, |buf|);
      LinesUnfold(buf, pos, |buf|);
      LineAndEnd(buf, pos);
      var next := if end < |buf| then end + 1 else end;
      var more := LinesMakeUp(buf, next);
      if end == |buf| {
        NoLines(buf, next, |buf|);
        NoLines(buf, end + 1, |buf|);
      }
      OneMoreLine(LineText(buf, pos, end), EndText(buf, pos), Lines(buf, next, |buf|), more, buf[next..]);
      ends := [EndText(buf, pos)] + more;
    }
  }

  lemma NoLinesAtAll()
    ensures AreLines([], [], "")
  {
  }

  // ---------------------------------------------------------------------------------------
  // The two loops
  // ---------------------------------------------------------------------------------------

  /** The lines a callback gets to see: it stops after the first line it returns true for. */
  function Seen(lines: seq<string>, stop: seq<string> -> bool, n: nat): (r: seq<string>)
    requires n <= |lines|
    ensures r <= lines && n <= |r|
    decreases |lines| - n
  {
    if n == |lines| || stop(lines[..n + 1]) then lines[..if n == |lines| then n else n + 1]
    else Seen(lines, stop, n + 1)
  }

  /** The callback sees the lines up to the first one after which it says to stop, or all. */
  lemma {:induction false} SeenIs(lines: seq<string>, stop: seq<string> -> bool, n: nat)
    requires n <= |lines|
    ensures var r := Seen(lines, stop, n);
            && n <= |r| <= |lines| && r == lines[..|r|]
            && (forall k :: n < k < |r| ==> !stop(lines[..k]))
            && (|r| < |lines| ==> n < |r| && stop(r))
    decreases |lines| - n
  {
    if n == |lines| {
      assert lines[..n] == lines;
    } else if !stop(lines[..n + 1]) {
      SeenIs(lines, stop, n + 1);
    }
  }

  method FindLineEnd(buf: string, pos: nat) returns (end: nat)
    requires pos <= |buf|
    ensures end == LineEnd(buf, pos, |buf|)
  {
    end := pos;
    while end < |buf| && buf[end] != '\n'
      invariant pos <= end <= |buf| && LineEnd(buf, end, |buf|) == LineEnd(buf, pos, |buf|)
    {
      end := end + 1;
    }
  }

  method BufferForEachLine(buf: string, stop: seq<string> -> bool) returns (seen: seq<string>)
    ensures seen == Seen(Lines(buf, 0, |buf|), stop, 0)
  {
    hide Lines, Seen, LineText, LineEnd;
    ghost var all := Lines(buf, 0, |buf|);
    seen := [];
    var pos := 0;
    assert [] + all == all;
    while pos < |buf|
      invariant seen + Lines(buf, pos, |buf|) == all
      invariant Seen(all, stop, |seen|) == Seen(all, stop, 0)
      decreases |buf| - pos
    {
      LinesUnfold(buf, pos, |buf|);
      var end := FindLineEnd(buf, pos);
      var len := end - pos;
      if end > pos && buf[end - 1] == '\r' {
        len := len - 1;
      }
      var line := buf[pos..pos + len];
      LineTextIs(buf, pos, end, len);
      SeenNext(all, stop, seen, line, Lines(buf, end + 1, |buf|));
      seen := seen + [line];
      pos := end + 1;
      if stop(seen) {
        return;
      }
    }
    NoLines(buf, pos, |buf|);
    SeenAll(all, stop, seen);
  }

  /** One more line is shown. */
  lemma {:induction false} SeenNext(all: seq<string>, stop: seq<string> -> bool, seen: seq<string>, line: string, rest: seq<string>)
    requires all == seen + ([line] + rest)
    ensures all == seen + [line] + rest && |seen| < |all|
    ensures Seen(all, stop, |seen|) == if stop(seen + [line]) then seen + [line] else Seen(all, stop, |seen| + 1)
  {
    hide Seen;
    Regroup(seen, line, rest);
    assert all[..|seen| + 1] == seen + [line];
    SeenStep(all, stop, |seen|);
  }

  lemma {:induction false} SeenAll(all: seq<string>, stop: seq<string> -> bool, seen: seq<string>)
    requires seen + [] == all
    ensures Seen(all, stop, |seen|) == seen == all
  {
    assert all[..|all|] == all;
  }

  lemma {:induction false} SeenStep(lines: seq<string>, stop: seq<string> -> bool, n: nat)
    requires n < |lines|
    ensures Seen(lines, stop, n) == if stop(lines[..n + 1]) then lines[..n + 1] else Seen(lines, stop, n + 1)
  {
  }

  method FindLineStart(buf: string, end: nat) returns (pos: nat)
    requires end <= |buf|
    ensures pos == LineStart(buf, end)
  {
    pos := end;
    while pos > 0 && buf[pos - 1] != '\n'
      invariant pos <= end && LineStart(buf, pos) == LineStart(buf, end)
    {
      pos := pos - 1;
    }
  }

  method BufferForEachLineReverse(buf: string, stop: seq<string> -> bool) returns (seen: seq<string>)
    ensures seen == Seen(LinesBackward(buf, |buf| - 1), stop, 0)
  {
    hide Seen, LinesBackward, LineStart;
    ghost var all := LinesBackward(buf, |buf| - 1);
    seen := [];
    var end: int := |buf| - 1;
    assert [] + all == all;
    while end >= 0
      invariant -1 <= end < |buf|
      invariant seen + LinesBackward(buf, end) == all
      invariant Seen(all, stop, |seen|) == Seen(all, stop, 0)
      decreases end + 1
    {
      ghost var last := end;
      if end > 1 && buf[end] == '\n' && buf[end - 1] == '\r' {
        end := end - 1;
      }
      assert end == TextEnd(buf, last);
      var pos: int := FindLineStart(buf, end);
      var line := buf[pos..end];
      BackwardUnfold(buf, last);
      SeenNext(all, stop, seen, line, LinesBackward(buf, pos - 1));
      seen := seen + [line];
      end := pos - 1;
      if stop(seen) {
        return;
      }
    }
    NothingBackward(buf);
    SeenAll(all, stop, seen);
  }
}
