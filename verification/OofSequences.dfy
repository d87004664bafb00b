/** The escape sequences that the incremental terminal renderer emits, the text it writes for
    them, and an independent reading of that text as ECMA-48 control functions. */
module OofSequences {
  import opened Basics

  type Byte = x: int | 0 <= x < 256

  /** A control parameter: at most three decimal digits. */
  type Param = x: int | 0 <= x < 1000

  datatype Color = Color(red: Byte, green: Byte, blue: Byte)

  datatype Format = Format(underline: bool, bold: bool, foreground: Color, background: Color)

  datatype Cell = Cell(letter: char, format: Format)

  /** The alternatives of the sequence variant that a screen produces. */
  datatype Sequence =
    | Reset
    | Foreground(color: Color)
    | Background(color: Color)
    | Underline(on: bool)
    | Bold(on: bool)
    | Position(line: Byte, column: Byte)
    | Letter(letter: char)

  const ESC: char := '\U{001B}'

  // ---------------------------------------------------------------------------------------
  // Writing
  // ---------------------------------------------------------------------------------------

  function DigitChar(d: int): char
    requires 0 <= d < 10
  {
    ('0' as int + d) as char
  }

  function IntText(value: Param): string {
    (if value >= 100 then [DigitChar(value / 100)] else [])
    + (if value >= 10 then [DigitChar(value % 100 / 10)] else [])
    + [DigitChar(value % 10)]
  }

  function ParamsText(values: seq<Param>): string
    requires values != []
  {
    if |values| == 1 then IntText(values[0])
    else IntText(values[0]) + ";" + ParamsText(values[1..])
  }

  /** The parameters and the final byte of the control sequence a renderer sequence becomes. */
  function ControlParams(sequence: Sequence): (values: seq<Param>)
    requires !sequence.Letter?
    ensures values != []
  {
    match sequence
    case Reset => [0]
    case Foreground(c) => [38, 2, c.red, c.green, c.blue]
    case Background(c) => [48, 2, c.red, c.green, c.blue]
    case Underline(on) => [if on then 4 else 24]
    case Bold(on) => [if on then 1 else 22]
    case Position(line, column) => [line + 1, column + 1]
  }

  function ControlFinal(sequence: Sequence): char
    requires !sequence.Letter?
  {
    if sequence.Position? then 'H' else 'm'
  }

  function SequenceText(sequence: Sequence): string {
    if sequence.Letter? then [sequence.letter]
    else [ESC] + "[" + ParamsText(ControlParams(sequence)) + [ControlFinal(sequence)]
  }

  function SequencesText(sequences: seq<Sequence>): string {
    if sequences == [] then ""
    else SequencesText(sequences[..|sequences| - 1]) + SequenceText(sequences[|sequences| - 1])
  }

  method WriteIntToString(target: string, value: Param, withLeadingSemicolon: bool) returns (r: string)
    ensures r == target + (if withLeadingSemicolon then ";" else "") + IntText(value)
  {
    r := target;
    if withLeadingSemicolon {
      r := r + ";";
    }
    var hundreds := value / 100;
    if value >= 100 {
      r := r + [DigitChar(hundreds)];
    }
    if value >= 10 {
      r := r + [DigitChar(value % 100 / 10)];
    }
    r := r + [DigitChar(value % 10)];
  }

  method WriteIntsIntoString(target: string, values: seq<Param>) returns (r: string)
    requires values != []
    ensures r == target + ParamsText(values)
  {
    hide IntText;
    r := WriteIntToString(target, values[0], false);
    for i := 1 to |values|
      invariant r + (if i < |values| then ";" + ParamsText(values[i..]) else "") == target + ParamsText(values)
    {
      assert values[i..][1..] == values[i + 1..];
      r := WriteIntToString(r, values[i], true);
    }
  }

  method WriteSequenceIntoString(target: string, sequence: Sequence) returns (r: string)
    ensures r == target + SequenceText(sequence)
  {
    hide ParamsText;
    if sequence.Letter? {
      r := target + [sequence.letter];
      return;
    }
    var intro := target + [ESC] + ['['];
    match sequence {
      case Reset =>
        r := WriteIntsIntoString(intro, [0]);
        r := r + ['m'];
      case Foreground(c) =>
        r := WriteIntsIntoString(intro, [38, 2, c.red, c.green, c.blue]);
        r := r + ['m'];
      case Background(c) =>
        r := WriteIntsIntoString(intro, [48, 2, c.red, c.green, c.blue]);
        r := r + ['m'];
      case Underline(on) =>
        r := WriteIntsIntoString(intro, [if on then 4 else 24]);
        r := r + ['m'];
      case Bold(on) =>
        r := WriteIntsIntoString(intro, [if on then 1 else 22]);
        r := r + ['m'];
      case Position(line, column) =>
        r := WriteIntsIntoString(intro, [line + 1, column + 1]);
        r := r + ['H'];
    }
    ConcatAssociates(target, ParamsText(ControlParams(sequence)), [ControlFinal(sequence)]);
  }

  lemma ConcatAssociates(target: string, params: string, last: string)
    ensures target + [ESC] + ['['] + params + last == target + ([ESC] + "[" + params + last)
  {
  }

  method WriteSequencesIntoString(target: string, sequences: seq<Sequence>) returns (r: string)
    ensures r == target + SequencesText(sequences)
  {
    hide SequenceText;
    r := target;
    for i := 0 to |sequences|
      invariant r == target + SequencesText(sequences[..i])
    {
      assert sequences[..i + 1][..i] == sequences[..i];
      r := WriteSequenceIntoString(r, sequences[i]);
    }
    assert sequences[..|sequences|] == sequences;
  }

  // ---------------------------------------------------------------------------------------
  // Reading, after ECMA-48: SGR is section 8.3.117 and CUP is section 8.3.21
  // ---------------------------------------------------------------------------------------

  datatype Control =
    | Print(letter: char)
    | Sgr(params: seq<nat>)
    | Cup(params: seq<nat>)

  datatype ParserState = Ground | Escape | Csi(finished: seq<nat>, current: nat)

  datatype Parsed = Parsed(state: ParserState, controls: seq<Control>)

  /** One character of input. An omitted parameter reads as 0, as a default value does. */
  function ReadChar(p: ParserState, c: char): Parsed {
    match p
    case Ground => if c == ESC then Parsed(Escape, []) else Parsed(Ground, [Print(c)])
    case Escape => if c == '[' then Parsed(Csi([], 0), []) else Parsed(Ground, [])
    case Csi(finished, current) =>
      if '0' <= c <= '9' then Parsed(Csi(finished, current * 10 + (c as int - '0' as int)), [])
      else if c == ';' then Parsed(Csi(finished + [current], 0), [])
      else if c == 'm' then Parsed(Ground, [Sgr(finished + [current])])
      else if c == 'H' then Parsed(Ground, [Cup(finished + [current])])
      else if '@' <= c <= '~' then Parsed(Ground, [])
      else Parsed(p, [])
  }

  function ReadText(p: ParserState, s: string): Parsed
    decreases s
  {
    if s == "" then Parsed(p, [])
    else
      var first := ReadChar(p, s[0]);
      var rest := ReadText(first.state, s[1..]);
      Parsed(rest.state, first.controls + rest.controls)
  }

  lemma {:induction false} ReadTextConcat(p: ParserState, a: string, b: string)
    ensures ReadText(p, a + b) ==
            Parsed(ReadText(ReadText(p, a).state, b).state,
                   ReadText(p, a).controls + ReadText(ReadText(p, a).state, b).controls)
    decreases a
  {
    if a == "" {
      assert a + b == b;
    } else {
      assert (a + b)[1..] == a[1..] + b;
      ReadTextConcat(ReadChar(p, a[0]).state, a[1..], b);
    }
  }

  lemma ReadOne(p: ParserState, c: char)
    ensures ReadText(p, [c]) == ReadChar(p, c)
  {
    assert [c][1..] == "";
    assert ReadText(ReadChar(p, c).state, "") == Parsed(ReadChar(p, c).state, []);
  }

  lemma ReadEmpty()
    ensures forall p :: ReadText(p, "") == Parsed(p, [])
  {
  }

  lemma ReadInt(finished: seq<nat>, value: Param)
    ensures ReadText(Csi(finished, 0), IntText(value)) == Parsed(Csi(finished, value), [])
  {
    hide ReadText;
    assert forall p :: ReadText(p, "") == Parsed(p, []) by { ReadEmpty(); }
    var hundreds := if value >= 100 then [DigitChar(value / 100)] else [];
    var tens := if value >= 10 then [DigitChar(value % 100 / 10)] else [];
    var units := [DigitChar(value % 10)];
    ReadTextConcat(Csi(finished, 0), hundreds + tens, units);
    ReadTextConcat(Csi(finished, 0), hundreds, tens);
    if value >= 100 {
      ReadOne(Csi(finished, 0), DigitChar(value / 100));
    }
    if value >= 10 {
      ReadOne(Csi(finished, value / 100), DigitChar(value % 100 / 10));
    }
    ReadOne(Csi(finished, value / 10), DigitChar(value % 10));
  }

  lemma {:induction false} ReadParams(finished: seq<nat>, values: seq<Param>)
    requires values != []
    ensures ReadText(Csi(finished, 0), ParamsText(values)) ==
            Parsed(Csi(finished + values[..|values| - 1], values[|values| - 1]), [])
    decreases |values|
  {
    ReadInt(finished, values[0]);
    if |values| == 1 {
      assert finished + values[..0] == finished;
    } else {
      var rest := ParamsText(values[1..]);
      var next := finished + [values[0] as nat];
      ReadTextConcat(Csi(finished, 0), IntText(values[0]) + ";", rest);
      ReadTextConcat(Csi(finished, 0), IntText(values[0]), ";");
      ReadOne(Csi(finished, values[0]), ';');
      ReadParams(next, values[1..]);
      assert next + values[1..][..|values| - 2] == finished + values[..|values| - 1];
    }
  }

  function ControlOf(sequence: Sequence): Control {
    match sequence
    case Letter(c) => Print(c)
    case Position(line, column) => Cup([line + 1, column + 1])
    case Reset => Sgr([0])
    case Foreground(c) => Sgr([38, 2, c.red, c.green, c.blue])
    case Background(c) => Sgr([48, 2, c.red, c.green, c.blue])
    case Underline(on) => Sgr([if on then 4 else 24])
    case Bold(on) => Sgr([if on then 1 else 22])
  }

  function ControlsOf(sequences: seq<Sequence>): (controls: seq<Control>)
    ensures |controls| == |sequences|
    ensures forall i :: 0 <= i < |sequences| ==> controls[i] == ControlOf(sequences[i])
  {
    seq(|sequences|, i requires 0 <= i < |sequences| => ControlOf(sequences[i]))
  }

  lemma ReadControl(params: seq<Param>, last: char)
    requires params != []
    requires last == 'm' || last == 'H'
    ensures ReadText(Ground, [ESC] + "[" + ParamsText(params) + [last]) ==
            Parsed(Ground, [if last == 'm' then Sgr(params) else Cup(params)])
  {
    hide ParamsText;
    var n := |params| - 1;
    ReadTextConcat(Ground, [ESC] + "[" + ParamsText(params), [last]);
    ReadTextConcat(Ground, [ESC] + "[", ParamsText(params));
    ReadTextConcat(Ground, [ESC], "[");
    ReadOne(Ground, ESC);
    ReadOne(Escape, '[');
    ReadParams([], params);
    assert [] + params[..n] == params[..n];
    ReadOne(Csi(params[..n], params[n]), last);
    assert params[..n] + [params[n]] == params;
  }

  lemma ReadSequence(sequence: Sequence)
    requires sequence != Letter(ESC)
    ensures ReadText(Ground, SequenceText(sequence)) == Parsed(Ground, [ControlOf(sequence)])
  {
    hide ParamsText;
    if sequence.Letter? {
      ReadOne(Ground, sequence.letter);
    } else {
      ReadControl(ControlParams(sequence), ControlFinal(sequence));
    }
  }

  /** The text of any list of sequences reads back as exactly that list of control functions,
      and the reader ends between two of them. */
  lemma {:induction false} ReadSequences(sequences: seq<Sequence>)
    requires Letter(ESC) !in sequences
    ensures ReadText(Ground, SequencesText(sequences)) == Parsed(Ground, ControlsOf(sequences))
    decreases |sequences|
  {
    hide ReadText, SequenceText, ControlOf, SequencesText;
    if sequences == [] {
      ReadNothing();
    } else {
      var n := |sequences| - 1;
      SequencesTextSnoc(sequences);
      ReadSequences(sequences[..n]);
      ReadSequence(sequences[n]);
      ReadTextConcat(Ground, SequencesText(sequences[..n]), SequenceText(sequences[n]));
      assert ControlsOf(sequences[..n]) + [ControlOf(sequences[n])] == ControlsOf(sequences);
    }
  }

  lemma ReadNothing()
    ensures ReadText(Ground, SequencesText([])) == Parsed(Ground, ControlsOf([]))
  {
  }

  lemma {:induction false} SequencesTextSnoc(sequences: seq<Sequence>)
    requires sequences != []
    ensures var n := |sequences| - 1;
            SequencesText(sequences) == SequencesText(sequences[..n]) + SequenceText(sequences[n])
  {
    hide SequenceText;
  }

  lemma ControlOfInjective(a: Sequence, b: Sequence)
    requires ControlOf(a) == ControlOf(b)
    ensures a == b
  {
    match a
    case Letter(_) =>
    case Position(line, column) =>
      assert ControlOf(a).params[0] == line + 1 && ControlOf(a).params[1] == column + 1;
      assert b.Position? && ControlOf(b).params[0] == b.line + 1 && ControlOf(b).params[1] == b.column + 1;
    case Reset =>
      assert ControlOf(a).params[0] == 0;
    case Foreground(c) =>
      var p := ControlOf(a).params;
      assert p[0] == 38 && p[2] == c.red && p[3] == c.green && p[4] == c.blue;
    case Background(c) =>
      var p := ControlOf(a).params;
      assert p[0] == 48 && p[2] == c.red && p[3] == c.green && p[4] == c.blue;
    case Underline(on) =>
      assert ControlOf(a).params[0] == if on then 4 else 24;
      assert |ControlOf(a).params| == 1;
    case Bold(on) =>
      assert ControlOf(a).params[0] == if on then 1 else 22;
      assert |ControlOf(a).params| == 1;
  }

  /** Two lists of sequences with the same text are the same list. */
  lemma SequencesTextInjective(a: seq<Sequence>, b: seq<Sequence>)
    requires Letter(ESC) !in a && Letter(ESC) !in b
    requires SequencesText(a) == SequencesText(b)
    ensures a == b
  {
    ReadSequences(a);
    ReadSequences(b);
    forall i | 0 <= i < |a|
      ensures a[i] == b[i]
    {
      assert ControlsOf(a)[i] == ControlsOf(b)[i];
      ControlOfInjective(a[i], b[i]);
    }
  }

  // ---------------------------------------------------------------------------------------
  // The reserve estimate
  // ---------------------------------------------------------------------------------------

  function ParamLength(param: int): int {
    if param < 10 then 1 else if param < 100 then 2 else 3
  }

  function ReserveSize(sequence: Sequence): int {
    match sequence
    case Letter(_) => 1
    case Foreground(c) =>
      2 + 1 + 1 + 1 + ParamLength(c.red) + 1 + ParamLength(c.green) + 1 + ParamLength(c.blue) + 3
    case Background(c) =>
      2 + 1 + 1 + 1 + ParamLength(c.red) + 1 + ParamLength(c.green) + 1 + ParamLength(c.blue) + 3
    case Underline(on) => (if on then 1 else 2) + 3
    case Bold(on) => (if on then 1 else 2) + 3
    case Position(line, column) => ParamLength(line) + 1 + ParamLength(column) + 3
    case Reset => 1 + 3
  }

  method GetStringReserveSize(sequences: seq<Sequence>) returns (size: int)
    ensures size == TotalReserve(sequences)
  {
    size := 0;
    for i := 0 to |sequences|
      invariant size == TotalReserve(sequences[..i])
    {
      assert sequences[..i + 1][..i] == sequences[..i];
      size := size + ReserveSize(sequences[i]);
    }
    assert sequences[..|sequences|] == sequences;
  }

  ghost function TotalReserve(sequences: seq<Sequence>): int {
    if sequences == [] then 0
    else TotalReserve(sequences[..|sequences| - 1]) + ReserveSize(sequences[|sequences| - 1])
  }

  /** A coordinate is written one larger than it is stored, so 9 and 99 take one more digit
      than the estimate counts. */
  function Shortfall(sequence: Sequence): nat {
    if !sequence.Position? then 0
    else (if sequence.line == 9 || sequence.line == 99 then 1 else 0)
         + (if sequence.column == 9 || sequence.column == 99 then 1 else 0)
  }

  ghost function TotalShortfall(sequences: seq<Sequence>): nat {
    if sequences == [] then 0
    else TotalShortfall(sequences[..|sequences| - 1]) + Shortfall(sequences[|sequences| - 1])
  }

  lemma {:induction false} ParamsTextLength(values: seq<Param>)
    requires values != []
    ensures |ParamsText(values)| == ParamLength(values[0])
              + (if |values| == 1 then 0 else 1 + |ParamsText(values[1..])|)
  {
  }

  lemma SequenceTextLength(sequence: Sequence)
    ensures |SequenceText(sequence)| == ReserveSize(sequence) + Shortfall(sequence)
  {
    if !sequence.Letter? {
      var params := ControlParams(sequence);
      ParamsTextLength(params);
      if sequence.Position? {
        ParamsTextLength(params[1..]);
      } else if |params| > 1 {
        ParamsTextLength(params[1..]);
        assert params[1..][1..] == params[2..];
        ParamsTextLength(params[2..]);
        assert params[2..][1..] == params[3..];
        ParamsTextLength(params[3..]);
        assert params[3..][1..] == params[4..];
        ParamsTextLength(params[4..]);
      }
    }
  }

  /** The estimate is exact up to one character for every coordinate 9 or 99: it never exceeds
      the text, and it is at most two short for each position sequence. */
  lemma {:induction false} ReserveIsLowerEstimate(sequences: seq<Sequence>)
    ensures |SequencesText(sequences)| == TotalReserve(sequences) + TotalShortfall(sequences)
    decreases |sequences|
  {
    if sequences != [] {
      ReserveIsLowerEstimate(sequences[..|sequences| - 1]);
      SequenceTextLength(sequences[|sequences| - 1]);
    }
  }
}
