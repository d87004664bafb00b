/** Format strings: the validator, and the interpreter that relies on it. A format is a C
    string: reading it at its end gives the terminator. */
module FormatPrint {
  import opened Basics
  import opened FilterTokens
  import opened FilterExpr
  import opened ShortMeaning

  /** An option of a format: its letter, its long name if there is one, and whether it may be
      padded with zeros. */
  datatype FormatOption = FormatOption(ch: char, name: Option<string>, padZero: bool)

  function At(f: string, i: nat): char {
    if i < |f| then f[i] else '\0'
  }

  /** The next index if the character at this one is `c`. */
  function Past(f: string, i: nat, c: char): (r: nat)
    requires i <= |f|
    ensures i <= r <= |f|
  {
    if i < |f| && f[i] == c then i + 1 else i
  }

  function PastDigits(f: string, i: nat): (r: nat)
    requires i <= |f|
    ensures i <= r <= |f| && !IsDigit(At(f, r))
    ensures forall k :: i <= k < r ==> IsDigit(f[k])
    decreases |f| - i
  {
    if i < |f| && IsDigit(f[i]) then PastDigits(f, i + 1) else i
  }

  /** The characters that make a whole directive with the percent sign. */
  predicate IsPlainMark(u: char) {
    u == '%' || u == '?' || u == '!' || u == '='
  }

  // ---------------------------------------------------------------------------------------
  // Conditions
  // ---------------------------------------------------------------------------------------

  /** Past an optional minus, an optional dot and digits. */
  function PastSign(f: string, i: nat): (r: nat)
    requires i <= |f|
    ensures i <= r <= |f|
  {
    PastDigits(f, Past(f, Past(f, i, '-'), '.'))
  }

  /** Behind `level` open braces: the index after the one that closes the outermost, or nothing
      when the format ends first. */
  function PastBraces(f: string, s: nat, level: nat): (r: Option<nat>)
    requires s <= |f|
    ensures r.Some? ==> s <= r.value <= |f|
    decreases |f| - s
  {
    if level == 0 then Some(s)
    else if s == |f| then None
    else if f[s] == '}' then PastBraces(f, s + 1, level - 1)
    else if f[s] != '%' then PastBraces(f, s + 1, level)
    else if s + 1 < |f| && IsPlainMark(f[s + 1]) then PastBraces(f, s + 2, level)
    else
      var i := PastSign(f, s + 1);
      if i == |f| then None
      else PastBraces(f, i + 1, if f[i] == '{' then level + 1 else level)
  }

  /** The index of the next `}` or `?` that belongs to the condition itself. */
  function NextMark(f: string, s: nat): (r: Option<nat>)
    requires s <= |f|
    ensures r.Some? ==> s <= r.value < |f| && (f[r.value] == '}' || f[r.value] == '?')
    decreases |f| - s
  {
    if s == |f| then None
    else if f[s] == '}' || f[s] == '?' then Some(s)
    else if f[s] != '%' then NextMark(f, s + 1)
    else if s + 1 < |f| && IsPlainMark(f[s + 1]) then NextMark(f, s + 2)
    else
      var i := PastSign(f, s + 1);
      if i == |f| then None
      else if f[i] != '{' then NextMark(f, i + 1)
      else
        var t := PastBraces(f, i + 1, 1);
        if t.None? then None else NextMark(f, t.value)
  }

  /** From the character at `start` over digits to the first other character. */
  method ReadDigits(f: string, start: nat) returns (u: char, s: nat)
    requires start <= |f|
    ensures s == PastDigits(f, start) + 1 && u == At(f, s - 1)
  {
    u, s := At(f, start), start + 1;
    while IsDigit(u)
      invariant start + 1 <= s <= |f| + 1 && u == At(f, s - 1)
      invariant PastDigits(f, s - 1) == PastDigits(f, start)
      decreases |f| + 1 - s
    {
      u, s := At(f, s), s + 1;
    }
  }

  method ReadSign(f: string, start: nat) returns (u: char, s: nat)
    requires start <= |f| && '\0' !in f
    ensures u == At(f, PastSign(f, start)) && s == PastSign(f, start) + 1
  {
    u, s := At(f, start), start + 1;
    if u == '-' {
      u, s := At(f, s), s + 1;
    }
    if u == '.' {
      u, s := At(f, s), s + 1;
    }
    u, s := ReadDigits(f, s - 1);
  }

  /** The inner loop of FormatSkipCondExpr: to the brace that closes the one just read. */
  method SkipBraced(f: string, start: nat) returns (u: char, s: nat)
    requires '\0' !in f && start <= |f|
    ensures match PastBraces(f, start, 1)
            case None => u == '\0'
            case Some(i) => u != '\0' && s == i
  {
    s, u := start, '{';
    var level := 1;
    while level > 0
      invariant start <= s <= |f| && u != '\0'
      invariant PastBraces(f, s, level) == PastBraces(f, start, 1)
      decreases |f| - s
    {
      hide PastSign;
      u := At(f, s);
      if u == '\0' {
        return;
      }
      s := s + 1;
      if u == '}' {
        level := level - 1;
      }
      if u != '%' {
        continue;
      }
      u := At(f, s);
      if IsPlainMark(u) {
        s := s + 1;
        continue;
      }
      u, s := ReadSign(f, s);
      if u == '\0' {
        return;
      }
      if u == '{' {
        level := level + 1;
      }
    }
  }

  method FormatSkipCondExpr(f: string, start: nat) returns (u: char, s: nat)
    requires '\0' !in f && start <= |f|
    ensures match NextMark(f, start)
            case None => u == '\0'
            case Some(i) => u == f[i] && s == i + 1
  {
    s := start;
    while s < |f|
      invariant s <= |f| && NextMark(f, s) == NextMark(f, start)
      decreases |f| - s
    {
      hide PastSign, PastBraces;
      u, s := f[s], s + 1;
      if u == '}' || u == '?' {
        return;
      }
      if u != '%' {
        continue;
      }
      u := At(f, s);
      if IsPlainMark(u) {
        s := s + 1;
        continue;
      }
      u, s := ReadSign(f, s);
      if u == '\0' {
        return;
      }
      if u == '{' {
        u, s := SkipBraced(f, s);
        if u == '\0' {
          return;
        }
      }
    }
    u := '\0';
  }

  /** The places of the parts of a condition: the mark before the text shown when it holds, the
      mark before the other text, and the closing brace. */
  datatype Cond = Cond(yes: nat, no: Option<nat>, close: nat)

  function ReadCond(f: string, s: nat): (r: Option<Cond>)
    requires s <= |f|
    ensures r.Some? ==>
              && s <= r.value.yes < r.value.close < |f|
              && (r.value.no.Some? ==> r.value.yes < r.value.no.value < r.value.close)
  {
    var a := NextMark(f, s);
    if a.None? || f[a.value] != '?' then None
    else
      var b := NextMark(f, a.value + 1);
      if b.None? then None
      else if f[b.value] == '}' then Some(Cond(a.value, None, b.value))
      else
        var c := NextMark(f, b.value + 1);
        if c.None? || f[c.value] != '}' then None else Some(Cond(a.value, b, c.value))
  }

  /** Where the text shown when the condition holds ends. */
  function YesEnd(c: Cond): nat {
    if c.no.Some? then c.no.value else c.close
  }

  method FormatReadCond(f: string, start: nat)
    returns (failed: bool, s: nat, a: int, b: int, end: int)
    requires '\0' !in f && start <= |f|
    ensures failed <==> ReadCond(f, start).None?
    ensures !failed ==>
              var c := ReadCond(f, start).value;
              a == c.yes && end == c.close && s == c.close + 1 && b == if c.no.Some? then c.no.value else -1
  {
    hide NextMark;
    a, b, end := -1, -1, -1;
    var t;
    t, s := FormatSkipCondExpr(f, start);
    if t != '?' {
      return true, s, a, b, end;
    }
    a := s - 1;
    t, s := FormatSkipCondExpr(f, s);
    if t == '\0' {
      return true, s, a, b, end;
    }
    if t == '?' {
      b := s - 1;
      t, s := FormatSkipCondExpr(f, s);
      if t != '}' {
        return true, s, a, b, end;
      }
    }
    end := s - 1;
    failed := false;
  }

  /** A condition is a filter expression of the long kind. */
  function ParsedCond(f: string, from: nat, to: nat): Option<Expr>
    requires from <= to <= |f|
  {
    if HasControl(f[from..to]) then None else ParsedText(f[from..to])
  }

  // ---------------------------------------------------------------------------------------
  // Options
  // ---------------------------------------------------------------------------------------

  /** A long name is compared as a whole; without one, the character decides. */
  predicate Selects(o: FormatOption, name: string, u: char) {
    if name != "" then o.name == Some(name) else o.ch == u
  }

  function FindOption(opts: seq<FormatOption>, name: string, u: char, from: nat := 0): (r: Option<nat>)
    requires from <= |opts|
    ensures r.Some? ==> from <= r.value < |opts| && Selects(opts[r.value], name, u)
    ensures r.Some? ==> forall k :: from <= k < r.value ==> !Selects(opts[k], name, u)
    ensures r.None? ==> forall k :: from <= k < |opts| ==> !Selects(opts[k], name, u)
    decreases |opts| - from
  {
    if from == |opts| then None
    else if Selects(opts[from], name, u) then Some(from)
    else FindOption(opts, name, u, from + 1)
  }

  /** The closing brace of a long name, before the end of the text. */
  function NameEnd(f: string, s: nat, end: nat): (r: Option<nat>)
    requires end <= |f|
    ensures r.Some? ==> s <= r.value < end && f[r.value] == '}'
    decreases end - s
  {
    if s >= end then None else if f[s] == '}' then Some(s) else NameEnd(f, s + 1, end)
  }

  // ---------------------------------------------------------------------------------------
  // The validator
  // ---------------------------------------------------------------------------------------

  /** What the validator keeps of a directive up to its letter or brace: the index of that
      character and whether zero padding was asked for. */
  datatype ValidHead = ValidHead(at: nat, padZero: bool)

  function ReadValidHead(f: string, i: nat): (h: ValidHead)
    requires i <= |f|
    ensures i <= h.at <= |f|
  {
    var j := Past(f, Past(f, i, '-'), '.');
    var z := Past(f, j, '0');
    ValidHead(Past(f, PastDigits(f, z), '%'), z > j)
  }

  /** Whether an option answers to the name or letter and may be padded as asked. */
  predicate KnownOption(opts: seq<FormatOption>, name: string, u: char, padZero: bool) {
    var o := FindOption(opts, name, u);
    o.Some? && (padZero ==> opts[o.value].padZero)
  }

  /** The part of a format from `s` to `end` is valid. */
  predicate ValidSub(f: string, opts: seq<FormatOption>, s: nat, end: nat)
    requires end <= |f|
    decreases |f| + 1 - s
  {
    if s >= end then true
    else if f[s] != '%' then ValidSub(f, opts, s + 1, end)
    else if s + 1 < |f| && IsPlainMark(f[s + 1]) then ValidSub(f, opts, s + 2, end)
    else
      var h := ReadValidHead(f, s + 1);
      if At(f, h.at) != '{' then
        KnownOption(opts, "", At(f, h.at), h.padZero) && ValidSub(f, opts, h.at + 1, end)
      else if At(f, h.at + 1) == '?' then
        ValidIf(f, opts, h.at + 2) &&
        var close := ReadCond(f, h.at + 2).value.close;
        close < end && ValidSub(f, opts, close + 1, end)
      else
        var n := NameEnd(f, h.at + 1, end);
        n.Some? && KnownOption(opts, f[h.at + 1..n.value], '}', h.padZero) && ValidSub(f, opts, n.value + 1, end)
  }

  /** The condition behind `%{?` can be read and both texts are valid. */
  predicate ValidIf(f: string, opts: seq<FormatOption>, s: nat)
    requires s <= |f|
    ensures ValidIf(f, opts, s) ==> ReadCond(f, s).Some?
    decreases |f| + 1 - s
  {
    var c := ReadCond(f, s);
    && c.Some?
    && ParsedCond(f, s, c.value.yes).Some?
    && ValidSub(f, opts, c.value.yes + 1, YesEnd(c.value))
    && (c.value.no.Some? ==> ValidSub(f, opts, c.value.no.value + 1, c.value.close))
  }

  predicate Valid(f: string, opts: seq<FormatOption>) {
    ValidSub(f, opts, 0, |f|)
  }

  method LookUp(opts: seq<FormatOption>, name: string, u: char) returns (fo: nat)
    ensures match FindOption(opts, name, u) case None => fo == |opts| case Some(i) => fo == i
  {
    fo := 0;
    while fo < |opts| && !Selects(opts[fo], name, u)
      invariant fo <= |opts| && FindOption(opts, name, u, fo) == FindOption(opts, name, u)
    {
      fo := fo + 1;
    }
  }

  /** Reads a long name up to its brace; `closed` says that the brace comes before the end. */
  method ReadName(f: string, start: nat, end: nat) returns (closed: bool, s: nat)
    requires end <= |f|
    ensures match NameEnd(f, start, end)
            case None => !closed
            case Some(n) => closed && s == n + 1
  {
    s := start;
    while true
      invariant start <= s && NameEnd(f, s, end) == NameEnd(f, start, end)
      decreases end - s
    {
      if s >= end {
        return false, s;
      }
      var u := f[s];
      s := s + 1;
      if u == '}' {
        return true, s;
      }
    }
  }

  method ReadHeadToValidate(f: string, start: nat) returns (u: char, s: nat, padZero: bool)
    requires start <= |f| && '\0' !in f
    ensures var h := ReadValidHead(f, start);
            u == At(f, h.at) && s == h.at + 1 && padZero == h.padZero
  {
    hide PastDigits;
    u, s, padZero := At(f, start), start + 1, false;
    if u == '-' {
      u, s := At(f, s), s + 1;
    }
    if u == '.' {
      u, s := At(f, s), s + 1;
    }
    ghost var j := s - 1;
    assert j == Past(f, Past(f, start, '-'), '.');
    if u == '0' {
      padZero := true;
      u, s := At(f, s), s + 1;
    }
    ghost var z := s - 1;
    assert z == Past(f, j, '0');
    u, s := ReadDigits(f, s - 1);
    if u == '%' {
      u, s := At(f, s), s + 1;
    }
  }

  method FormatValidSub(f: string, opts: seq<FormatOption>, from: nat, end: nat) returns (valid: bool)
    requires '\0' !in f && end <= |f|
    ensures valid == ValidSub(f, opts, from, end)
    decreases |f| + 1 - from
  {
    hide ReadCond, ReadValidHead, FindOption, NameEnd, ValidIf, Selects;
    var s := from;
    while s < end
      invariant from <= s && ValidSub(f, opts, s, end) == ValidSub(f, opts, from, end)
      decreases end - s
    {
      var u := f[s];
      s := s + 1;
      if u == '%' {
        u := At(f, s);
        if IsPlainMark(u) {
          s := s + 1;
          continue;
        }
        var padZero;
        u, s, padZero := ReadHeadToValidate(f, s);
        var name := "";
        if u == '{' {
          if At(f, s) == '?' {
            s := s + 1;
            var ok;
            ok, s := FormatValidIf(f, opts, s);
            if !ok {
              return false;
            }
            if s > end {
              return false;
            }
            continue;
          }
          var begin := s;
          var closed;
          closed, s := ReadName(f, s, end);
          if !closed {
            return false;
          }
          u, name := '}', f[begin..s - 1];
        }
        var fo := LookUp(opts, name, u);
        if fo == |opts| {
          return false;
        }
        if padZero && !opts[fo].padZero {
          return false;
        }
      }
    }
    valid := true;
  }

  method FormatValidIf(f: string, opts: seq<FormatOption>, start: nat) returns (valid: bool, s: nat)
    requires '\0' !in f && start <= |f|
    ensures valid == ValidIf(f, opts, start)
    ensures valid ==> s == ReadCond(f, start).value.close + 1
    decreases |f| + 1 - start
  {
    hide ReadCond, ValidSub, ParsedCond;
    var failed, a, b, close;
    failed, s, a, b, close := FormatReadCond(f, start);
    if failed {
      return false, s;
    }
    if ParsedCond(f, start, a).None? {
      return false, s;
    }
    var ok := FormatValidSub(f, opts, a + 1, if b > 0 then b else close);
    if !ok {
      return false, s;
    }
    if b > 0 {
      ok := FormatValidSub(f, opts, b + 1, close);
      if !ok {
        return false, s;
      }
    }
    return true, close + 1;
  }

  method FormatValid(f: string, opts: seq<FormatOption>) returns (valid: bool)
    requires '\0' !in f
    ensures valid == Valid(f, opts)
  {
    valid := FormatValidSub(f, opts, 0, |f|);
  }

  // ---------------------------------------------------------------------------------------
  // The interpreter
  // ---------------------------------------------------------------------------------------

  datatype Section = LeftText | MiddleText | RightText

  /** A letter, or the value of an option with the way it is to be laid out. */
  datatype Piece =
    | Letter(ch: char)
    | Field(option: nat, width: nat, exact: bool, alignLeft: bool, pad: char)

  /** The output: three texts, and the one that is being written. */
  datatype Output = Output(section: Section, left: seq<Piece>, middle: seq<Piece>, right: seq<Piece>)

  function Emit(o: Output, p: Piece): Output {
    match o.section
    case LeftText => o.(left := o.left + [p])
    case MiddleText => o.(middle := o.middle + [p])
    case RightText => o.(right := o.right + [p])
  }

  /** What `%%`, `%?`, `%!` and `%=` do. */
  function EmitMark(o: Output, u: char): Output {
    if u == '!' then o.(section := MiddleText)
    else if u == '=' then o.(section := RightText)
    else Emit(o, Letter(u))
  }

  /** What the interpreter keeps of a directive up to its letter or brace. */
  datatype PrintHead = PrintHead(at: nat, width: nat, exact: bool, alignLeft: bool, pad: char)

  function DigitsValue(f: string, i: nat, width: nat): (w: nat)
    requires i <= |f|
    decreases |f| - i
  {
    if i < |f| && IsDigit(f[i]) then DigitsValue(f, i + 1, width * 10 + (f[i] as int - '0' as int)) else width
  }

  /** A share of the width in percent, rounded to the nearest integer. */
  function PercentOf(width: nat, strWidth: nat): nat {
    (2 * width * strWidth + 100) / 200
  }

  function ReadPrintHead(f: string, i: nat, strWidth: nat): (h: PrintHead)
    requires i <= |f|
    ensures i <= h.at <= |f|
  {
    var a := Past(f, i, '-');
    var b := Past(f, a, '.');
    var c := Past(f, b, '0');
    var d := PastDigits(f, c);
    var e := Past(f, d, '%');
    var w := DigitsValue(f, c, 0);
    PrintHead(e, if e > d then PercentOf(w, strWidth) else w, b == a, a > i, if c > b then '0' else ' ')
  }

  function FieldOf(o: nat, h: PrintHead): Piece {
    Field(o, h.width, h.exact, h.alignLeft, h.pad)
  }

  /** Interprets the part of a format from `s` to `end`. There is no result when an internal
      check fails, which ends the program. */
  function Interpret(f: string, opts: seq<FormatOption>, truth: Expr -> bool, strWidth: nat, s: nat, end: nat, out: Output): Option<Output>
    requires end <= |f|
    decreases |f| + 1 - s
  {
    if s >= end then Some(out)
    else if f[s] != '%' then Interpret(f, opts, truth, strWidth, s + 1, end, Emit(out, Letter(f[s])))
    else if s + 1 < |f| && IsPlainMark(f[s + 1]) then
      Interpret(f, opts, truth, strWidth, s + 2, end, EmitMark(out, f[s + 1]))
    else
      var h := ReadPrintHead(f, s + 1, strWidth);
      if At(f, h.at) != '{' then
        var o := FindOption(opts, "", At(f, h.at));
        if o.None? then None
        else Interpret(f, opts, truth, strWidth, h.at + 1, end, Emit(out, FieldOf(o.value, h)))
      else if At(f, h.at + 1) == '?' then
        var r := InterpretIf(f, opts, truth, strWidth, h.at + 2, out);
        if r.None? || ReadCond(f, h.at + 2).value.close >= end then None
        else Interpret(f, opts, truth, strWidth, ReadCond(f, h.at + 2).value.close + 1, end, r.value)
      else
        var n := NameEnd(f, h.at + 1, end);
        if n.None? then None
        else
          var o := FindOption(opts, f[h.at + 1..n.value], '}');
          if o.None? then None
          else Interpret(f, opts, truth, strWidth, n.value + 1, end, Emit(out, FieldOf(o.value, h)))
  }

  function InterpretIf(f: string, opts: seq<FormatOption>, truth: Expr -> bool, strWidth: nat, s: nat, out: Output): (r: Option<Output>)
    requires s <= |f|
    ensures r.Some? ==> ReadCond(f, s).Some?
    decreases |f| + 1 - s
  {
    var c := ReadCond(f, s);
    if c.None? then None
    else
      var e := ParsedCond(f, s, c.value.yes);
      if e.None? then None
      else if truth(e.value) then Interpret(f, opts, truth, strWidth, c.value.yes + 1, YesEnd(c.value), out)
      else if c.value.no.Some? then Interpret(f, opts, truth, strWidth, c.value.no.value + 1, c.value.close, out)
      else Some(out)
  }

  const EMPTY_OUTPUT := Output(LeftText, [], [], [])

  /** The two read the part of a directive before its letter alike. */
  lemma HeadsAgree(f: string, i: nat, strWidth: nat)
    requires i <= |f|
    ensures ReadPrintHead(f, i, strWidth).at == ReadValidHead(f, i).at
  {
  }

  /** What was found valid is interpreted to its end, whatever the conditions say. */
  lemma {:induction false} ValidSubNeverAborts(f: string, opts: seq<FormatOption>, truth: Expr -> bool, strWidth: nat, s: nat, end: nat, out: Output)
    requires end <= |f| && ValidSub(f, opts, s, end)
    ensures Interpret(f, opts, truth, strWidth, s, end, out).Some?
    decreases |f| + 1 - s
  {
    hide ReadCond, ParsedCond, ReadValidHead, ReadPrintHead;
    if s < end {
      if f[s] != '%' {
        ValidSubNeverAborts(f, opts, truth, strWidth, s + 1, end, Emit(out, Letter(f[s])));
      } else if s + 1 < |f| && IsPlainMark(f[s + 1]) {
        ValidSubNeverAborts(f, opts, truth, strWidth, s + 2, end, EmitMark(out, f[s + 1]));
      } else {
        HeadsAgree(f, s + 1, strWidth);
        var h := ReadPrintHead(f, s + 1, strWidth);
        if At(f, h.at) != '{' {
          var o := FindOption(opts, "", At(f, h.at)).value;
          ValidSubNeverAborts(f, opts, truth, strWidth, h.at + 1, end, Emit(out, FieldOf(o, h)));
        } else if At(f, h.at + 1) == '?' {
          ValidIfNeverAborts(f, opts, truth, strWidth, h.at + 2, out);
          var close := ReadCond(f, h.at + 2).value.close;
          ValidSubNeverAborts(f, opts, truth, strWidth, close + 1, end,
                              InterpretIf(f, opts, truth, strWidth, h.at + 2, out).value);
        } else {
          var n := NameEnd(f, h.at + 1, end).value;
          var o := FindOption(opts, f[h.at + 1..n], '}').value;
          ValidSubNeverAborts(f, opts, truth, strWidth, n + 1, end, Emit(out, FieldOf(o, h)));
        }
      }
    }
  }

  lemma {:induction false} ValidIfNeverAborts(f: string, opts: seq<FormatOption>, truth: Expr -> bool, strWidth: nat, s: nat, out: Output)
    requires s <= |f| && ValidIf(f, opts, s)
    ensures InterpretIf(f, opts, truth, strWidth, s, out).Some?
    decreases |f| + 1 - s
  {
    hide Interpret, ValidSub, ParsedCond;
    var c := ReadCond(f, s).value;
    ValidSubNeverAborts(f, opts, truth, strWidth, c.yes + 1, YesEnd(c), out);
    if c.no.Some? {
      ValidSubNeverAborts(f, opts, truth, strWidth, c.no.value + 1, c.close, out);
    }
  }

  /** A format accepted by the validator is interpreted to the end. */
  lemma ValidNeverAborts(f: string, opts: seq<FormatOption>, truth: Expr -> bool, strWidth: nat)
    requires Valid(f, opts)
    ensures Interpret(f, opts, truth, strWidth, 0, |f|, EMPTY_OUTPUT).Some?
  {
    ValidSubNeverAborts(f, opts, truth, strWidth, 0, |f|, EMPTY_OUTPUT);
  }

  /** The interpreter with the three buffers it appends to. */
  class Printer {
    var section: Section
    var left: seq<Piece>
    var middle: seq<Piece>
    var right: seq<Piece>

    function Written(): Output
      reads this
    {
      Output(section, left, middle, right)
    }

    constructor ()
      ensures Written() == EMPTY_OUTPUT
    {
      section, left, middle, right := LeftText, [], [], [];
    }

    method Add(p: Piece)
      modifies this
      ensures Written() == Emit(old(Written()), p)
    {
      match section
      case LeftText => left := left + [p];
      case MiddleText => middle := middle + [p];
      case RightText => right := right + [p];
    }

    method ReadWidth(f: string, start: nat) returns (u: char, s: nat, width: nat)
      requires start <= |f|
      ensures s == PastDigits(f, start) + 1 && u == At(f, s - 1) && width == DigitsValue(f, start, 0)
    {
      u, s, width := At(f, start), start + 1, 0;
      while IsDigit(u)
        invariant start + 1 <= s <= |f| + 1 && u == At(f, s - 1)
        invariant PastDigits(f, s - 1) == PastDigits(f, start)
        invariant DigitsValue(f, s - 1, width) == DigitsValue(f, start, 0)
        decreases |f| + 1 - s
      {
        width := width * 10;
        width := width + (u as int - '0' as int);
        u, s := At(f, s), s + 1;
      }
    }

    method ReadHeadToPrint(f: string, start: nat, strWidth: nat) returns (u: char, s: nat, h: PrintHead)
      requires start <= |f| && '\0' !in f
      ensures h == ReadPrintHead(f, start, strWidth) && u == At(f, h.at) && s == h.at + 1
    {
      hide PastDigits, DigitsValue, PercentOf, IsDigit;
      u, s := At(f, start), start + 1;
      var alignLeft, exact, pad := false, true, ' ';
      if u == '-' {
        alignLeft := true;
        u, s := At(f, s), s + 1;
      }
      ghost var i := s - 1;
      assert i == Past(f, start, '-') && alignLeft == (i > start);
      if u == '.' {
        exact := false;
        u, s := At(f, s), s + 1;
      }
      ghost var j := s - 1;
      assert j == Past(f, i, '.') && exact == (j == i);
      if u == '0' {
        pad := '0';
        u, s := At(f, s), s + 1;
      }
      ghost var z := s - 1;
      assert z == Past(f, j, '0') && pad == if z > j then '0' else ' ';
      var width;
      u, s, width := ReadWidth(f, s - 1);
      ghost var d := s - 1;
      if u == '%' {
        width := PercentOf(width, strWidth);
        u, s := At(f, s), s + 1;
      }
      assert s - 1 == Past(f, d, '%');
      h := PrintHead(s - 1, width, exact, alignLeft, pad);
    }

    /** Appends what a part of a format shows. The result is false when an internal check fails. */
    method FormatParse(f: string, opts: seq<FormatOption>, truth: Expr -> bool, strWidth: nat, from: nat, end: nat)
      returns (ok: bool)
      requires '\0' !in f && end <= |f|
      modifies this
      ensures var r := Interpret(f, opts, truth, strWidth, from, end, old(Written()));
              ok == r.Some? && (ok ==> Written() == r.value)
      decreases |f| + 1 - from
    {
      hide ReadCond, ReadPrintHead, Emit, FindOption, NameEnd, InterpretIf, FieldOf, Selects;
      var s := from;
      while s < end
        invariant from <= s
        invariant Interpret(f, opts, truth, strWidth, s, end, Written()) ==
                  Interpret(f, opts, truth, strWidth, from, end, old(Written()))
        decreases end - s
      {
        var u := f[s];
        s := s + 1;
        if u != '%' {
          Add(Letter(u));
          continue;
        }
        u := At(f, s);
        if u == '%' || u == '?' {
          s := s + 1;
          Add(Letter(u));
          continue;
        }
        if u == '!' {
          s := s + 1;
          section := MiddleText;
          continue;
        }
        if u == '=' {
          s := s + 1;
          section := RightText;
          continue;
        }
        var h;
        u, s, h := ReadHeadToPrint(f, s, strWidth);
        var name := "";
        if u == '{' {
          if At(f, s) == '?' {
            s := s + 1;
            ok, s := FormatParseIf(f, opts, truth, strWidth, s);
            if !ok || s > end {
              return false;
            }
            continue;
          }
          var begin := s;
          ok, s := ReadName(f, s, end);
          if !ok {
            return false;
          }
          u, name := '}', f[begin..s - 1];
        }
        var fo := LookUp(opts, name, u);
        if fo == |opts| {
          return false;
        }
        Add(FieldOf(fo, h));
      }
      ok := true;
    }

    method FormatParseIf(f: string, opts: seq<FormatOption>, truth: Expr -> bool, strWidth: nat, start: nat)
      returns (ok: bool, s: nat)
      requires '\0' !in f && start <= |f|
      modifies this
      ensures var r := InterpretIf(f, opts, truth, strWidth, start, old(Written()));
              ok == r.Some? && (ok ==> Written() == r.value && s == ReadCond(f, start).value.close + 1)
      decreases |f| + 1 - start
    {
      hide ReadCond, Interpret, ParsedCond;
      var failed, a, b, close;
      failed, s, a, b, close := FormatReadCond(f, start);
      if failed {
        return false, s;
      }
      var cond := ParsedCond(f, start, a);
      if cond.None? {
        return false, s;
      }
      if truth(cond.value) {
        ok := FormatParse(f, opts, truth, strWidth, a + 1, if b > 0 then b else close);
      } else if b > 0 {
        ok := FormatParse(f, opts, truth, strWidth, b + 1, close);
      } else {
        ok := true;
      }
      s := close + 1;
    }
  }
}
