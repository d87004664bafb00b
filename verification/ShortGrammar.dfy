/** The grammar of short filters, and what the expander makes of every filter of that grammar. */
module ShortGrammar {
  import opened Basics
  import opened FilterTokens
  import opened FilterExpr
  import opened ShortFilter

  // ---------------------------------------------------------------------------------------
  // Syntax. A `pad` is a number of spaces.
  // ---------------------------------------------------------------------------------------

  datatype IntArg =
    | Below(digits: string)                // <5
    | Above(digits: string)                // >5
    | AtMost(digits: string)               // -5
    | Exactly(digits: string)              // 5
    | AtLeast(digits: string)              // 5-
    | Between(low: string, high: string)   // 5-7

  datatype StrArg = Quoted(text: string) | Bare(text: string)

  datatype Term =
    | BoolTerm(key: char)
    | IntTerm(key: char, pad: nat, number: IntArg)
    | StrTerm(key: char, pad: nat, str: StrArg)

  datatype Operand =
    | Negated(pad: nat, operand: Operand)
    | Group(pad: nat, first: Operand, rest: Chain, close: nat)
    | TermOperand(term: Term, pad: nat)

  /** Operands set side by side, or joined by a bar. */
  datatype Chain =
    | End
    | Beside(operand: Operand, rest: Chain)
    | Either(pad: nat, operand: Operand, rest: Chain)

  datatype Short = Short(pad: nat, first: Operand, rest: Chain)

  predicate IsNumber(s: string) {
    s != "" && AllDigits(s)
  }

  predicate IsIntArg(a: IntArg) {
    match a
    case Between(low, high) => IsNumber(low) && IsNumber(high)
    case _ => IsNumber(a.digits)
  }

  /** A quoted argument ends at its quote for the tokenizer. A bare one starts at a character that
      is no space and ends before an operator. */
  predicate IsStrArg(a: StrArg) {
    match a
    case Quoted(text) => IsQuotable(text) && '\0' !in text
    case Bare(text) =>
      && text != ""
      && text[0] != ' '
      && text[|text| - 1] != ' '
      && (forall i :: 0 <= i < |text| ==> text[i] != '"' && text[i] != '\\' && text[i] != '\0')
      && (forall i :: 1 <= i < |text| ==> !EndsText(text[i]))
  }

  predicate IsTerm(t: Term) {
    && IsShortKey(t.key)
    && match t
       case BoolTerm(key) => ShortKeyType(key) == BoolKey
       case IntTerm(key, _, number) => ShortKeyType(key) == IntKey && IsIntArg(number)
       case StrTerm(key, _, str) => ShortKeyType(key) == StrKey && IsStrArg(str)
  }

  predicate IsOperand(o: Operand) {
    match o
    case Negated(_, x) => IsOperand(x)
    case Group(_, first, rest, _) => IsOperand(first) && IsChain(rest)
    case TermOperand(term, _) => IsTerm(term)
  }

  predicate IsChain(c: Chain) {
    match c
    case End => true
    case Beside(x, rest) => IsOperand(x) && IsChain(rest)
    case Either(_, x, rest) => IsOperand(x) && IsChain(rest)
  }

  predicate IsShort(s: Short) {
    IsOperand(s.first) && IsChain(s.rest)
  }

  /** The expander looks back one character only, and takes a quote behind a backslash for a part
      of the text even if that backslash is protected itself. */
  predicate StrCloses(a: StrArg) {
    a.Quoted? && a.text != "" ==> a.text[|a.text| - 1] != '\\'
  }

  /** Every quoted argument ends at its quote for the expander too. */
  predicate OperandCloses(o: Operand) {
    match o
    case Negated(_, x) => OperandCloses(x)
    case Group(_, first, rest, _) => OperandCloses(first) && ChainCloses(rest)
    case TermOperand(term, _) => term.StrTerm? ==> StrCloses(term.str)
  }

  predicate ChainCloses(c: Chain) {
    match c
    case End => true
    case Beside(x, rest) => OperandCloses(x) && ChainCloses(rest)
    case Either(_, x, rest) => OperandCloses(x) && ChainCloses(rest)
  }

  predicate ShortCloses(s: Short) {
    OperandCloses(s.first) && ChainCloses(s.rest)
  }

  // ---------------------------------------------------------------------------------------
  // Text
  // ---------------------------------------------------------------------------------------

  function Spaces(n: nat): string {
    seq(n, _ => ' ')
  }

  function IntArgText(a: IntArg): string {
    match a
    case Below(ds) => "<" + ds
    case Above(ds) => ">" + ds
    case AtMost(ds) => "-" + ds
    case Exactly(ds) => ds
    case AtLeast(ds) => ds + "-"
    case Between(low, high) => low + "-" + high
  }

  function StrArgText(a: StrArg): string {
    match a
    case Quoted(text) => "\"" + text + "\""
    case Bare(text) => text
  }

  function ArgText(t: Term): string {
    match t
    case BoolTerm(_) => ""
    case IntTerm(_, pad, number) => Spaces(pad) + IntArgText(number)
    case StrTerm(_, pad, str) => Spaces(pad) + StrArgText(str)
  }

  function OperandText(o: Operand): (s: string)
    ensures s != "" && (s[0] == '~' || s[0] == '!' || s[0] == '(')
  {
    match o
    case Negated(pad, x) => "!" + (Spaces(pad) + OperandText(x))
    case Group(pad, first, rest, close) =>
      "(" + (Spaces(pad) + (OperandText(first) + (ChainText(rest) + (")" + Spaces(close)))))
    case TermOperand(term, pad) => "~" + ([term.key] + (ArgText(term) + Spaces(pad)))
  }

  function ChainText(c: Chain): string {
    match c
    case End => ""
    case Beside(x, rest) => OperandText(x) + ChainText(rest)
    case Either(pad, x, rest) => "|" + (Spaces(pad) + (OperandText(x) + ChainText(rest)))
  }

  function ShortText(s: Short): string {
    Spaces(s.pad) + (OperandText(s.first) + ChainText(s.rest))
  }

  // ---------------------------------------------------------------------------------------
  // The long text. `carry` holds digits left over from a range; with `clear` there are none.
  // ---------------------------------------------------------------------------------------

  datatype Long = Long(text: string, carry: string)

  /** What follows the key of a number. */
  function LongIntTail(key: string, a: IntArg, carry: string): string {
    match a
    case Below(ds) => "<" + ds + ")"
    case Above(ds) => ">" + ds + ")"
    case AtMost(ds) => "<=" + ds + ")"
    case Exactly(ds) => "=" + carry + ds + ")"
    case AtLeast(ds) => ">=" + carry + ds + ")"
    case Between(low, high) => ">=" + carry + low + "&" + key + "<=" + high + ")"
  }

  function CarryAfter(a: IntArg, carry: string, clear: bool): string {
    match a
    case Exactly(_) => ""
    case AtLeast(_) => ""
    case Between(_, high) => if clear then "" else high
    case _ => carry
  }

  function LongInt(key: string, a: IntArg, carry: string, clear: bool): Long {
    Long("(" + key + LongIntTail(key, a, carry), CarryAfter(a, carry, clear))
  }

  function LongStr(a: StrArg): string {
    match a
    case Quoted(text) => "=\"" + text + "\""
    case Bare(text) => "=\"*" + text + "*\""
  }

  function LongTerm(t: Term, carry: string, clear: bool): Long {
    match t
    case BoolTerm(key) => Long(LongKey(key), carry)
    case IntTerm(key, _, number) => LongInt(LongKey(key), number, carry, clear)
    case StrTerm(key, _, str) => Long(LongKey(key) + LongStr(str), carry)
  }

  function LongOperand(o: Operand, carry: string, clear: bool): Long {
    match o
    case Negated(_, x) =>
      var l := LongOperand(x, carry, clear);
      Long("!" + l.text, l.carry)
    case Group(_, first, rest, _) =>
      var l := LongOperand(first, carry, clear);
      var r := LongChain(rest, l.carry, clear);
      Long("(" + l.text + r.text + ")", r.carry)
    case TermOperand(term, _) => LongTerm(term, carry, clear)
  }

  function LongChain(c: Chain, carry: string, clear: bool): Long {
    match c
    case End => Long("", carry)
    case Beside(x, rest) =>
      var l := LongOperand(x, carry, clear);
      var r := LongChain(rest, l.carry, clear);
      Long("&" + l.text + r.text, r.carry)
    case Either(_, x, rest) =>
      var l := LongOperand(x, carry, clear);
      var r := LongChain(rest, l.carry, clear);
      Long("|" + l.text + r.text, r.carry)
  }

  function LongShort(s: Short, clear: bool): string {
    var l := LongOperand(s.first, "", clear);
    l.text + LongChain(s.rest, l.carry, clear).text
  }

  // ---------------------------------------------------------------------------------------
  // Steps of the machine
  // ---------------------------------------------------------------------------------------

  /** The machine in all but what the next turns cannot see. */
  predicate At(m: Machine, stack: seq<State>, out: string, num: string, level: int) {
    m.stack == stack && m.out == out && m.num == num && m.level == level
  }

  lemma RunTake(m: Machine, c: char, rest: string, m': Machine)
    requires Shape(m.stack) && Step(m, c) == Take(m')
    ensures Shape(m'.stack) && Run(m, [c] + rest) == Run(m', rest)
  {
    hide Step;
    StepShape(m, c);
    assert ([c] + rest)[1..] == rest;
  }

  lemma RunStay(m: Machine, rest: string, m': Machine)
    requires Shape(m.stack) && Step(m, if rest == "" then '\0' else rest[0]) == Stay(m')
    ensures Shape(m'.stack) && Run(m, rest) == Run(m', rest)
  {
    hide Step;
    StepShape(m, if rest == "" then '\0' else rest[0]);
  }

  predicate NoSpaceFirst(rest: string) {
    rest == "" || rest[0] != ' '
  }

  /** What follows an operand. */
  predicate Follows(rest: string) {
    rest == "" || rest[0] == '~' || rest[0] == '!' || rest[0] == '|' || rest[0] == '(' || rest[0] == ')'
  }

  predicate AfterNumber(rest: string) {
    Follows(rest) || rest[0] == ' '
  }

  lemma {:induction false} SkipRun(m: Machine, pad: nat, rest: string)
    requires Shape(m.stack) && m.stack[|m.stack| - 1] == SkipSpace
    requires NoSpaceFirst(rest)
    ensures Shape(Pop(m).stack) && Run(m, Spaces(pad) + rest) == Run(Pop(m), rest)
    decreases pad
  {
    hide Run, Step;
    StepAtSpace(m, ' ');
    StepAtSpace(m, if rest == "" then '\0' else rest[0]);
    if pad == 0 {
      assert Spaces(0) + rest == rest;
      RunStay(m, rest, Pop(m));
    } else {
      assert Spaces(pad) + rest == [' '] + (Spaces(pad - 1) + rest);
      RunTake(m, ' ', Spaces(pad - 1) + rest, m);
      SkipRun(m, pad - 1, rest);
    }
  }

  // ---------------------------------------------------------------------------------------
  // Terms
  // ---------------------------------------------------------------------------------------

  lemma {:induction false} InIntRun(m: Machine, ds: string, rest: string) returns (m': Machine)
    requires Shape(m.stack) && m.stack[|m.stack| - 1] == InInt && AllDigits(ds)
    requires rest == "" || !IsDigit(rest[0])
    ensures At(m', Pop(m).stack, m.out + ds + ")", m.num, m.level)
    ensures Shape(m'.stack) && Run(m, ds + rest) == Run(m', rest)
    decreases |ds|
  {
    hide Run, Step;
    if ds == "" {
      m' := Emit(Pop(m), ")");
      StepInInt(m, if rest == "" then '\0' else rest[0]);
      assert ds + rest == rest && m.out + ds == m.out;
      RunStay(m, rest, m');
    } else {
      assert IsDigit(ds[0]);
      assert ds + rest == [ds[0]] + (ds[1..] + rest);
      StepInInt(m, ds[0]);
      RunTake(m, ds[0], ds[1..] + rest, Emit(m, [ds[0]]));
      m' := InIntRun(Emit(m, [ds[0]]), ds[1..], rest);
      assert m.out + [ds[0]] + ds[1..] == m.out + ds;
    }
  }

  lemma {:induction false} DigitsRun(m: Machine, ds: string, rest: string)
    requires Shape(m.stack) && AllDigits(ds)
    requires m.stack[|m.stack| - 1] == MemInt || m.stack[|m.stack| - 1] == In2ndInt
    ensures Run(m, ds + rest) == Run(m.(num := m.num + ds), rest)
    decreases |ds|
  {
    hide Run, Step;
    if ds == "" {
      assert ds + rest == rest && m.num + ds == m.num;
    } else {
      var m1 := m.(num := m.num + [ds[0]]);
      if m.stack[|m.stack| - 1] == MemInt {
        StepMemInt(m, ds[0]);
      } else {
        StepIn2ndInt(m, ds[0]);
      }
      assert IsDigit(ds[0]);
      assert ds + rest == [ds[0]] + (ds[1..] + rest);
      RunTake(m, ds[0], ds[1..] + rest, m1);
      DigitsRun(m1, ds[1..], rest);
      assert m.num + [ds[0]] + ds[1..] == m.num + ds;
    }
  }

  const INT_STACK := [Top, ExpectOp, SkipSpace]

  /** Below, above and at most: the digits are copied. */
  lemma BoundRun(m: Machine, a: IntArg, rest: string) returns (m': Machine)
    requires m.stack == INT_STACK + [ExpectInt] && IsIntArg(a) && AfterNumber(rest)
    requires a.Below? || a.Above? || a.AtMost?
    ensures m'.stack == INT_STACK && m'.num == m.num && m'.level == m.level
    ensures m'.out == m.out + (match a case Below(_) => "<" case Above(_) => ">" case _ => "<=") + a.digits + ")"
    ensures Run(m, IntArgText(a) + rest) == Run(m', rest)
  {
    hide Run, Step;
    var sign := match a case Below(_) => "<" case Above(_) => ">" case _ => "<=";
    var c := match a case Below(_) => '<' case Above(_) => '>' case _ => '-';
    var m1 := ReplaceTop(Emit(m, sign), InInt);
    assert IntArgText(a) + rest == [c] + (a.digits + rest);
    StepAtInt(m, c);
    RunTake(m, c, a.digits + rest, m1);
    m' := InIntRun(m1, a.digits, rest);
  }

  /** From the first digit of a number to its end, whatever ends it. */
  lemma MemRun(m: Machine, ds: string, tail: string) returns (m': Machine)
    requires m.stack == INT_STACK + [ExpectInt] && IsNumber(ds)
    ensures m'.stack == INT_STACK + [MemInt] && m'.num == m.num + ds
    ensures m'.out == m.out && m'.key == m.key && m'.level == m.level
    ensures Run(m, ds + tail) == Run(m', tail)
  {
    hide Run, Step;
    assert IsDigit(ds[0]);
    assert ds + tail == [ds[0]] + (ds[1..] + tail);
    var m1 := ReplaceTop(m.(num := m.num + [ds[0]]), MemInt);
    StepAtInt(m, ds[0]);
    RunTake(m, ds[0], ds[1..] + tail, m1);
    DigitsRun(m1, ds[1..], tail);
    assert m.num + [ds[0]] + ds[1..] == m.num + ds;
    m' := m1.(num := m.num + ds);
  }

  /** From the minus after a number on. */
  lemma OpenEndRun(m: Machine, tail: string) returns (m': Machine)
    requires m.stack == INT_STACK + [MemInt]
    ensures m'.stack == INT_STACK + [In2ndInt] && m'.num == "" && m'.out == m.out + (">=" + m.num)
    ensures m'.key == m.key && m'.level == m.level
    ensures Run(m, ['-'] + tail) == Run(m', tail)
  {
    hide Run, Step;
    m' := ReplaceTop(Emit(m.(num := ""), ">=" + m.num), In2ndInt);
    StepMemInt(m, '-');
    RunTake(m, '-', tail, m');
  }

  lemma ExactRun(m: Machine, ds: string, rest: string) returns (m': Machine)
    requires m.stack == INT_STACK + [ExpectInt] && IsNumber(ds) && AfterNumber(rest)
    ensures At(m', INT_STACK, m.out + ("=" + (m.num + ds) + ")"), "", m.level)
    ensures Run(m, ds + rest) == Run(m', rest)
  {
    hide Run, Step;
    var m1 := MemRun(m, ds, rest);
    StepMemInt(m1, if rest == "" then '\0' else rest[0]);
    m' := Pop(Emit(m1.(num := ""), "=" + m1.num + ")"));
    RunStay(m1, rest, m');
  }

  lemma AtLeastRun(m: Machine, ds: string, rest: string) returns (m': Machine)
    requires m.stack == INT_STACK + [ExpectInt] && IsNumber(ds) && AfterNumber(rest)
    ensures At(m', INT_STACK, m.out + (">=" + (m.num + ds)) + ")", "", m.level)
    ensures Run(m, ds + (['-'] + rest)) == Run(m', rest)
  {
    hide Run, Step;
    var m1 := MemRun(m, ds, ['-'] + rest);
    var m2 := OpenEndRun(m1, rest);
    StepIn2ndInt(m2, if rest == "" then '\0' else rest[0]);
    m' := Pop(Emit(m2, ")"));
    RunStay(m2, rest, m');
  }

  /** A closed range; its upper bound stays in the accumulator. */
  lemma RangeRun(m: Machine, low: string, high: string, rest: string) returns (m': Machine)
    requires m.stack == INT_STACK + [ExpectInt] && IsNumber(low) && IsNumber(high) && AfterNumber(rest)
    ensures At(m', INT_STACK, m.out + (">=" + (m.num + low)) + ("&" + m.key + "<=" + high + ")"), high, m.level)
    ensures Run(m, low + (['-'] + (high + rest))) == Run(m', rest)
  {
    hide Run, Step;
    var m1 := MemRun(m, low, ['-'] + (high + rest));
    var m2 := OpenEndRun(m1, high + rest);
    DigitsRun(m2, high, rest);
    assert m2.num + high == high;
    var m3 := m2.(num := high);
    StepIn2ndInt(m3, if rest == "" then '\0' else rest[0]);
    m' := Pop(Emit(m3, "&" + m.key + "<=" + high + ")"));
    RunStay(m3, rest, m');
  }

  lemma IntArgRun(m: Machine, a: IntArg, rest: string) returns (m': Machine)
    requires m.stack == INT_STACK + [ExpectInt] && IsIntArg(a) && AfterNumber(rest)
    ensures At(m', INT_STACK, m.out + LongIntTail(m.key, a, m.num), CarryAfter(a, m.num, false), m.level)
    ensures Run(m, IntArgText(a) + rest) == Run(m', rest)
  {
    hide Run, IntArgText;
    IntArgTexts(a, rest);
    match a {
      case Between(low, high) =>
        m' := RangeRun(m, low, high, rest);
        RangeConcat(m.out, m.num, low, m.key, high);
      case Exactly(ds) =>
        m' := ExactRun(m, ds, rest);
        assert "=" + (m.num + ds) + ")" == "=" + m.num + ds + ")";
      case AtLeast(ds) =>
        m' := AtLeastRun(m, ds, rest);
        assert m.out + (">=" + (m.num + ds)) + ")" == m.out + (">=" + m.num + ds + ")");
      case Below(ds) =>
        m' := BoundRun(m, a, rest);
        Concat4(m.out, "<", ds, ")");
      case Above(ds) =>
        m' := BoundRun(m, a, rest);
        Concat4(m.out, ">", ds, ")");
      case AtMost(ds) =>
        m' := BoundRun(m, a, rest);
        Concat4(m.out, "<=", ds, ")");
    }
  }

  lemma IntArgTexts(a: IntArg, rest: string)
    ensures a.Between? ==> IntArgText(a) + rest == a.low + (['-'] + (a.high + rest))
    ensures a.Exactly? ==> IntArgText(a) == a.digits
    ensures a.AtLeast? ==> IntArgText(a) + rest == a.digits + (['-'] + rest)
  {
  }

  lemma Concat4(a: string, b: string, c: string, d: string)
    ensures a + b + c + d == a + (b + c + d)
  {
  }

  lemma RangeConcat(out: string, num: string, low: string, key: string, high: string)
    ensures out + (">=" + (num + low)) + ("&" + key + "<=" + high + ")") ==
            out + (">=" + num + low + "&" + key + "<=" + high + ")")
  {
    var a, b := ">=" + num + low, key + "<=" + high + ")";
    assert ">=" + (num + low) == a;
    assert "&" + key + "<=" + high + ")" == "&" + b;
    assert a + "&" + key + "<=" + high + ")" == a + ("&" + b);
  }

  /** In a quotable text every quote has a backslash before it. */
  lemma {:induction false} QuotesProtected(text: string, i: nat)
    requires QuotedLength(text + "\"") == Some(|text|)
    requires i < |text| && text[i] == '"'
    ensures i > 0 && text[i - 1] == '\\'
    decreases |text|
  {
    var s := text + "\"";
    assert s[0] == text[0];
    if text[0] == '\\' {
      if i >= 2 {
        assert s[2..] == text[2..] + "\"";
        QuotesProtected(text[2..], i - 2);
      }
    } else {
      assert s[1..] == text[1..] + "\"";
      QuotesProtected(text[1..], i - 1);
    }
  }

  function CharBefore(previous: char, text: string, i: nat): char
    requires i < |text|
  {
    if i == 0 then previous else text[i - 1]
  }

  lemma {:induction false} InQuoteRun(m: Machine, text: string, rest: string) returns (m': Machine)
    requires m.stack == INT_STACK + [InQuoteStr]
    requires forall i :: 0 <= i < |text| && text[i] == '"' ==> CharBefore(m.previous, text, i) == '\\'
    requires (if text == "" then m.previous else text[|text| - 1]) != '\\'
    ensures At(m', INT_STACK, m.out + text + "\"", m.num, m.level)
    ensures Run(m, text + "\"" + rest) == Run(m', rest)
    decreases |text|
  {
    hide Run, Step;
    if text == "" {
      m' := Emit(Pop(m), "\"").(previous := ' ');
      StepInQuote(m, '"');
      assert text + "\"" + rest == ['"'] + rest && m.out + text == m.out;
      RunTake(m, '"', rest, m');
    } else {
      var m1 := Emit(m, [text[0]]).(previous := text[0]);
      var tail := text[1..];
      assert text + "\"" + rest == [text[0]] + (tail + "\"" + rest);
      assert text[0] == '"' ==> CharBefore(m.previous, text, 0) == '\\';
      StepInQuote(m, text[0]);
      RunTake(m, text[0], tail + "\"" + rest, m1);
      forall i | 0 <= i < |tail| && tail[i] == '"'
        ensures CharBefore(m1.previous, tail, i) == '\\'
      {
        assert text[i + 1] == '"' && CharBefore(m.previous, text, i + 1) == '\\';
      }
      m' := InQuoteRun(m1, tail, rest);
      assert m.out + [text[0]] + tail == m.out + text;
    }
  }

  lemma QuotableIs(text: string)
    requires IsQuotable(text)
    ensures QuotedLength(text + "\"") == Some(|text|)
  {
  }

  lemma QuotedRun(m: Machine, text: string, rest: string) returns (m': Machine)
    requires m.stack == INT_STACK + [ExpectStr] && IsStrArg(Quoted(text)) && StrCloses(Quoted(text))
    ensures At(m', INT_STACK, m.out + LongStr(Quoted(text)), m.num, m.level)
    ensures Run(m, "\"" + text + "\"" + rest) == Run(m', rest)
  {
    hide Run, Step, IsQuotable;
    var m1 := ReplaceTop(Emit(m, "=\""), InQuoteStr).(previous := '"');
    StepAtStr(m, '"');
    assert "\"" + text + "\"" + rest == ['"'] + (text + "\"" + rest);
    RunTake(m, '"', text + "\"" + rest, m1);
    forall i | 0 <= i < |text| && text[i] == '"'
      ensures CharBefore(m1.previous, text, i) == '\\'
    {
      QuotableIs(text);
      QuotesProtected(text, i);
    }
    m' := InQuoteRun(m1, text, rest);
    assert m.out + "=\"" + text + "\"" == m.out + LongStr(Quoted(text));
  }

  lemma {:induction false} InStrRun(m: Machine, text: string, rest: string)
    requires m.stack == INT_STACK + [InStr]
    requires forall i :: 0 <= i < |text| ==> !EndsText(text[i])
    ensures exists high :: Run(m, text + rest) == Run(m.(out := m.out + text, high := high), rest)
    decreases |text|
  {
    hide Run, Step;
    if text == "" {
      assert text + rest == rest && m.out + text == m.out;
      assert m.(out := m.out + text, high := m.high) == m;
    } else {
      var m1 := Emit(m, [text[0]]);
      assert text + rest == [text[0]] + (text[1..] + rest);
      StepInStr(m, text[0]);
      RunTake(m, text[0], text[1..] + rest, m1);
      InStrRun(m1, text[1..], rest);
      assert m.out + [text[0]] + text[1..] == m.out + text;
    }
  }

  lemma {:induction false} TrimSpaces(s: string, n: nat)
    requires s != "" && s[|s| - 1] != ' '
    ensures TrimmedRight(s + Spaces(n)) == s
    decreases n
  {
    if n == 0 {
      assert s + Spaces(0) == s;
    } else {
      assert (s + Spaces(n))[..|s| + n - 1] == s + Spaces(n - 1);
      TrimSpaces(s, n - 1);
    }
  }

  /** The spaces after a bare argument are read as part of it and then removed. */
  lemma BareRun(m: Machine, text: string, pad: nat, rest: string) returns (m': Machine)
    requires m.stack == INT_STACK + [ExpectStr] && IsStrArg(Bare(text)) && Follows(rest)
    ensures At(m', INT_STACK, m.out + LongStr(Bare(text)), m.num, m.level)
    ensures Run(m, text + Spaces(pad) + rest) == Run(m', rest)
  {
    hide Run, TrimmedRight, Step, Spaces;
    var tail := text[1..] + Spaces(pad);
    var m1 := ReplaceTop(Emit(m, "=\"*" + [text[0]]), InStr);
    BareText(m.out, text, Spaces(pad), rest);
    StepAtStr(m, text[0]);
    RunTake(m, text[0], tail + rest, m1);
    SpacesAreIn(text, pad);
    InStrRun(m1, tail, rest);
    var high :| Run(m1, tail + rest) == Run(m1.(out := m1.out + tail, high := high), rest);
    var m2 := m1.(out := m1.out + tail, high := high);
    m' := BareEnd(m2, m.out + "=\"*" + text, pad, rest);
  }

  lemma BareText(out: string, text: string, spaces: string, rest: string)
    requires text != ""
    ensures text + spaces + rest == [text[0]] + (text[1..] + spaces + rest)
    ensures out + ("=\"*" + [text[0]]) + (text[1..] + spaces) == out + "=\"*" + text + spaces
    ensures out + "=\"*" + text + "*\"" == out + LongStr(Bare(text))
  {
    var a, b, open, close := [text[0]], text[1..], "=\"*", "*\"";
    assert text == a + b;
    BareGroups(out, open, a, b, spaces, rest);
    assert out + open + text + close == out + (open + text + close);
  }

  lemma BareGroups(out: string, open: string, a: string, b: string, spaces: string, rest: string)
    ensures a + b + spaces + rest == a + (b + spaces + rest)
    ensures out + (open + a) + (b + spaces) == out + open + (a + b) + spaces
  {
  }

  lemma SpacesAreIn(text: string, pad: nat)
    requires IsStrArg(Bare(text))
    ensures var tail := text[1..] + Spaces(pad); forall i :: 0 <= i < |tail| ==> !EndsText(tail[i])
  {
  }

  /** Behind a bare argument its spaces are removed and the stars and quotes closed. */
  lemma BareEnd(m: Machine, trimmed: string, pad: nat, rest: string) returns (m': Machine)
    requires m.stack == INT_STACK + [InStr] && m.out == trimmed + Spaces(pad) && Follows(rest)
    requires trimmed != "" && trimmed[|trimmed| - 1] != ' '
    ensures At(m', INT_STACK, trimmed + "*\"", m.num, m.level) && Run(m, rest) == Run(m', rest)
  {
    hide Run, TrimmedRight, Step, Spaces;
    TrimSpaces(trimmed, pad);
    m' := Pop(Emit(m.(out := TrimmedRight(m.out)), "*\""));
    StepInStr(m, if rest == "" then '\0' else rest[0]);
    RunStay(m, rest, m');
  }

  // ---------------------------------------------------------------------------------------
  // Operands and chains
  // ---------------------------------------------------------------------------------------

  /** From the key on. */
  lemma KeyRun(m: Machine, c: char, rest: string) returns (m': Machine)
    requires m.stack == INT_STACK + [ExpectKey] && IsShortKey(c)
    ensures m'.stack == INT_STACK + (match ShortKeyType(c) case IntKey => [ExpectInt, SkipSpace]
                                     case StrKey => [ExpectStr, SkipSpace] case BoolKey => [SkipSpace])
    ensures m'.out == m.out + (if ShortKeyType(c) == IntKey then "(" else "") + LongKey(c)
    ensures m'.num == m.num && m'.level == m.level && m'.key == LongKey(c)
    ensures Shape(m'.stack) && Run(m, [c] + rest) == Run(m', rest)
  {
    hide Run, LongKey, Step, IsShortKey, ShortKeyType;
    KeyTaken(m, c);
    StepShapeKey(m, c);
    m' := Step(m, c).m;
    assert INT_STACK == m.stack[..|m.stack| - 1];
    RunTake(m, c, rest, m');
  }

  const OP_STACK := [Top, ExpectOp]

  lemma IntTermRun(m: Machine, t: Term, pad: nat, rest: string) returns (m': Machine)
    requires m.stack == INT_STACK + [ExpectKey] && t.IntTerm? && IsTerm(t) && Follows(rest)
    ensures At(m', OP_STACK, m.out + LongTerm(t, m.num, false).text, LongTerm(t, m.num, false).carry, m.level)
    ensures Run(m, [t.key] + (ArgText(t) + Spaces(pad)) + rest) == Run(m', rest)
  {
    hide Run, LongKey, LongIntTail, CarryAfter;
    var after := IntArgText(t.number) + (Spaces(pad) + rest);
    assert [t.key] + (ArgText(t) + Spaces(pad)) + rest == [t.key] + (Spaces(t.pad) + after);
    var m1 := KeyRun(m, t.key, Spaces(t.pad) + after);
    IntArgStart(t.number);
    SkipRun(m1, t.pad, after);
    var m2 := Pop(m1);
    var m3 := IntArgRun(m2, t.number, Spaces(pad) + rest);
    SkipRun(m3, pad, rest);
    m' := Pop(m3);
    Concat4(m.out, "(", LongKey(t.key), LongIntTail(m2.key, t.number, m.num));
  }

  lemma IntArgStart(a: IntArg)
    requires IsIntArg(a)
    ensures IntArgText(a) != "" && IntArgText(a)[0] != ' '
  {
    if a.Between? {
      assert IsDigit(a.low[0]);
    } else if a.Exactly? || a.AtLeast? {
      assert IsDigit(a.digits[0]);
    }
  }

  lemma StrArgStart(a: StrArg)
    requires IsStrArg(a)
    ensures StrArgText(a) != "" && StrArgText(a)[0] != ' '
  {
  }

  lemma StrTermRun(m: Machine, t: Term, pad: nat, rest: string) returns (m': Machine)
    requires m.stack == INT_STACK + [ExpectKey] && t.StrTerm? && IsTerm(t) && StrCloses(t.str) && Follows(rest)
    ensures At(m', OP_STACK, m.out + LongTerm(t, m.num, false).text, LongTerm(t, m.num, false).carry, m.level)
    ensures Run(m, [t.key] + (ArgText(t) + Spaces(pad)) + rest) == Run(m', rest)
  {
    hide Run, LongKey, LongStr, IsQuotable, IsStrArg, StrCloses, Step, Spaces, StrArgText, IsShortKey;
    var after := StrArgText(t.str) + (Spaces(pad) + rest);
    StrTermGroups(t, pad, rest);
    var m1 := KeyRun(m, t.key, Spaces(t.pad) + after);
    StrArgStart(t.str);
    SkipRun(m1, t.pad, after);
    var m2 := Pop(m1);
    assert m2.stack == INT_STACK + [ExpectStr];
    m' := StrArgRun(m2, t.str, pad, rest);
    assert m.out + ("" + LongKey(t.key)) + LongStr(t.str) == m.out + (LongKey(t.key) + LongStr(t.str));
  }

  lemma StrTermGroups(t: Term, pad: nat, rest: string)
    requires t.StrTerm?
    ensures [t.key] + (ArgText(t) + Spaces(pad)) + rest ==
            [t.key] + (Spaces(t.pad) + (StrArgText(t.str) + (Spaces(pad) + rest)))
  {
    hide Spaces, StrArgText;
    Concat4(Spaces(t.pad), StrArgText(t.str), Spaces(pad), rest);
    assert [t.key] + (Spaces(t.pad) + StrArgText(t.str) + Spaces(pad)) + rest ==
           [t.key] + (Spaces(t.pad) + StrArgText(t.str) + Spaces(pad) + rest);
  }

  /** An argument and the spaces after it. */
  lemma StrArgRun(m: Machine, a: StrArg, pad: nat, rest: string) returns (m': Machine)
    requires m.stack == INT_STACK + [ExpectStr] && IsStrArg(a) && StrCloses(a) && Follows(rest)
    ensures At(m', OP_STACK, m.out + LongStr(a), m.num, m.level)
    ensures Run(m, StrArgText(a) + (Spaces(pad) + rest)) == Run(m', rest)
  {
    hide Run, LongStr, IsQuotable, IsStrArg, StrCloses, Step, Spaces;
    var m1;
    if a.Quoted? {
      m1 := QuotedRun(m, a.text, Spaces(pad) + rest);
      SkipRun(m1, pad, rest);
    } else {
      assert a.text + (Spaces(pad) + rest) == a.text + Spaces(pad) + rest;
      m1 := BareRun(m, a.text, pad, rest);
      NoSpaces(rest);
      SkipRun(m1, 0, rest);
    }
    m' := Pop(m1);
  }

  lemma NoSpaces(rest: string)
    ensures Spaces(0) + rest == rest
  {
  }

  lemma BoolTermRun(m: Machine, t: Term, pad: nat, rest: string) returns (m': Machine)
    requires m.stack == INT_STACK + [ExpectKey] && t.BoolTerm? && IsTerm(t) && Follows(rest)
    ensures At(m', OP_STACK, m.out + LongTerm(t, m.num, false).text, LongTerm(t, m.num, false).carry, m.level)
    ensures Run(m, [t.key] + (ArgText(t) + Spaces(pad)) + rest) == Run(m', rest)
  {
    hide Run, LongKey;
    assert [t.key] + (ArgText(t) + Spaces(pad)) + rest == [t.key] + (Spaces(pad) + rest);
    var m1 := KeyRun(m, t.key, Spaces(pad) + rest);
    SkipRun(m1, pad, rest);
    assert Spaces(0) + rest == rest;
    SkipRun(Pop(m1), 0, rest);
    m' := Pop(Pop(m1));
    assert m.out + "" + LongKey(t.key) == m.out + LongKey(t.key);
  }

  lemma TermRun(m: Machine, t: Term, pad: nat, rest: string) returns (m': Machine)
    requires m.stack == [Top] && IsTerm(t) && (t.StrTerm? ==> StrCloses(t.str)) && Follows(rest)
    ensures At(m', OP_STACK, m.out + LongTerm(t, m.num, false).text, LongTerm(t, m.num, false).carry, m.level)
    ensures Run(m, OperandText(TermOperand(t, pad)) + rest) == Run(m', rest)
  {
    hide Run, LongTerm, ArgText, IsTerm, Step, StrCloses;
    var body := [t.key] + (ArgText(t) + Spaces(pad));
    var m1 := Push(m, [ExpectOp, SkipSpace, ExpectKey]);
    assert OperandText(TermOperand(t, pad)) + rest == ['~'] + (body + rest);
    StepAtTop(m, '~');
    RunTake(m, '~', body + rest, m1);
    assert m1.stack == INT_STACK + [ExpectKey];
    match t
    case BoolTerm(_) => m' := BoolTermRun(m1, t, pad, rest);
    case IntTerm(_, _, _) => m' := IntTermRun(m1, t, pad, rest);
    case StrTerm(_, _, _) => m' := StrTermRun(m1, t, pad, rest);
  }

  /** A single character that opens something: `(`, `!` or `|`, with the spaces after it. */
  lemma OpenRun(m: Machine, c: char, pad: nat, rest: string) returns (m': Machine)
    requires m.stack == [Top] && (c == '(' || c == '!' || c == '|')
    requires NoSpaceFirst(rest)
    ensures At(m', [Top], m.out + [c], m.num, m.level + if c == '(' then 1 else 0)
    ensures Run(m, [c] + (Spaces(pad) + rest)) == Run(m', rest)
  {
    hide Run, Step;
    StepAtTop(m, c);
    var m1 := Step(m, c).m;
    RunTake(m, c, Spaces(pad) + rest, m1);
    SkipRun(m1, pad, rest);
    m' := Pop(m1);
  }

  /** From behind an operand back to the base state; an operand set beside it brings an `&`. */
  lemma BetweenRun(m: Machine, rest: string) returns (m': Machine)
    requires m.stack == OP_STACK && Follows(rest)
    ensures At(m', [Top], m.out + (if rest != "" && (rest[0] == '~' || rest[0] == '(' || rest[0] == '!')
                                   then "&" else ""), m.num, m.level)
    ensures Run(m, rest) == Run(m', rest)
  {
    hide Run, Step;
    StepAtOp(m, if rest == "" then '\0' else rest[0]);
    var and := rest != "" && (rest[0] == '~' || rest[0] == '(' || rest[0] == '!');
    var m1 := ReplaceTop(if and then Emit(m, "&") else m, SkipSpace);
    RunStay(m, rest, m1);
    assert Spaces(0) + rest == rest;
    SkipRun(m1, 0, rest);
    m' := Pop(m1);
  }

  lemma {:induction false} ChainStart(c: Chain, rest: string)
    requires rest == "" || rest[0] == ')'
    ensures Follows(ChainText(c) + rest)
  {
    match c
    case End => assert ChainText(c) + rest == rest;
    case Beside(x, r) => assert (ChainText(c) + rest)[0] == OperandText(x)[0];
    case Either(pad, x, r) => assert (ChainText(c) + rest)[0] == '|';
  }

  lemma OperandCases(o: Operand, carry: string)
    ensures o.TermOperand? ==> (IsOperand(o) <==> IsTerm(o.term))
    ensures o.TermOperand? ==> (OperandCloses(o) <==> (o.term.StrTerm? ==> StrCloses(o.term.str)))
    ensures o.TermOperand? ==> LongOperand(o, carry, false) == LongTerm(o.term, carry, false)
  {
    hide IsTerm, LongTerm;
  }

  lemma {:induction false} OperandRun(m: Machine, o: Operand, rest: string) returns (m': Machine)
    requires m.stack == [Top] && IsOperand(o) && OperandCloses(o) && Follows(rest)
    ensures var l := LongOperand(o, m.num, false);
            At(m', OP_STACK, m.out + l.text, l.carry, m.level)
    ensures Run(m, OperandText(o) + rest) == Run(m', rest)
    decreases o, 1
  {
    hide Run, OperandText, LongOperand, IsOperand, OperandCloses;
    OperandCases(o, m.num);
    match o
    case TermOperand(term, pad) => m' := TermRun(m, term, pad, rest);
    case Negated(pad, x) => m' := NegatedRun(m, o, rest);
    case Group(pad, first, others, close) => m' := GroupRun(m, o, rest);
  }

  lemma {:induction false} NegatedRun(m: Machine, o: Operand, rest: string) returns (m': Machine)
    requires m.stack == [Top] && o.Negated? && IsOperand(o) && OperandCloses(o) && Follows(rest)
    ensures var l := LongOperand(o, m.num, false);
            At(m', OP_STACK, m.out + l.text, l.carry, m.level)
    ensures Run(m, OperandText(o) + rest) == Run(m', rest)
    decreases o, 0
  {
    hide Run, Follows, OperandText, LongOperand;
    var after := OperandText(o.operand) + rest;
    NegatedText(o, rest);
    NegatedLong(o, m.out, m.num);
    assert NoSpaceFirst(after) by { assert after[0] == OperandText(o.operand)[0]; }
    var m1 := OpenRun(m, '!', o.pad, after);
    m' := OperandRun(m1, o.operand, rest);
  }

  lemma {:induction false} GroupRun(m: Machine, o: Operand, rest: string) returns (m': Machine)
    requires m.stack == [Top] && o.Group? && IsOperand(o) && OperandCloses(o) && Follows(rest)
    ensures var l := LongOperand(o, m.num, false);
            At(m', OP_STACK, m.out + l.text, l.carry, m.level)
    ensures Run(m, OperandText(o) + rest) == Run(m', rest)
    decreases o, 0
  {
    hide Run, OperandText, ChainText;
    var tail := [')'] + (Spaces(o.close) + rest);
    var inner := ChainText(o.rest) + tail;
    var after := OperandText(o.first) + inner;
    GroupText(o, rest);
    assert NoSpaceFirst(after) by { assert after[0] == OperandText(o.first)[0]; }
    var m1 := OpenRun(m, '(', o.pad, after);
    ChainStart(o.rest, tail);
    var m2 := OperandRun(m1, o.first, inner);
    var m3 := ChainRun(m2, o.rest, tail);
    m' := CloseRun(m3, o.close, rest);
    GroupLong(m.out, LongOperand(o.first, m.num, false).text,
              LongChain(o.rest, LongOperand(o.first, m.num, false).carry, false).text);
  }

  lemma {:induction false} NegatedText(o: Operand, rest: string)
    requires o.Negated?
    ensures OperandText(o) + rest == ['!'] + (Spaces(o.pad) + (OperandText(o.operand) + rest))
  {
    hide Spaces;
  }

  lemma {:induction false} NegatedLong(o: Operand, out: string, carry: string)
    requires o.Negated?
    ensures var l := LongOperand(o.operand, carry, false);
            LongOperand(o, carry, false).carry == l.carry
            && out + ['!'] + l.text == out + LongOperand(o, carry, false).text
  {
    hide LongTerm, LongChain;
    var text := LongOperand(o.operand, carry, false).text;
    assert LongOperand(o, carry, false).text == "!" + text;
    assert out + ['!'] + text == out + ("!" + text);
  }

  lemma {:induction false} GroupText(o: Operand, rest: string)
    requires o.Group?
    ensures OperandText(o) + rest ==
            ['('] + (Spaces(o.pad) + (OperandText(o.first) + (ChainText(o.rest) + ([')'] + (Spaces(o.close) + rest)))))
  {
    var t := Spaces(o.close);
    assert ")" + t + rest == [')'] + (t + rest);
    var c := ChainText(o.rest);
    assert c + (")" + t) + rest == c + ([')'] + (t + rest));
    var f := OperandText(o.first);
    assert f + (c + (")" + t)) + rest == f + (c + ([')'] + (t + rest)));
  }

  lemma GroupLong(out: string, first: string, others: string)
    ensures out + ['('] + first + others + [')'] == out + ("(" + first + others + ")")
  {
  }

  lemma CloseRun(m: Machine, close: nat, rest: string) returns (m': Machine)
    requires m.stack == OP_STACK && Follows(rest)
    ensures At(m', OP_STACK, m.out + [')'], m.num, m.level - 1)
    ensures Run(m, [')'] + (Spaces(close) + rest)) == Run(m', rest)
  {
    hide Run, Step;
    var m1 := BetweenRun(m, [')'] + (Spaces(close) + rest));
    StepAtTop(m1, ')');
    var m2 := Step(m1, ')').m;
    RunTake(m1, ')', Spaces(close) + rest, m2);
    SkipRun(m2, close, rest);
    m' := Pop(m2);
  }

  lemma {:induction false} ChainRun(m: Machine, c: Chain, rest: string) returns (m': Machine)
    requires m.stack == OP_STACK && IsChain(c) && ChainCloses(c) && (rest == "" || rest[0] == ')')
    ensures var l := LongChain(c, m.num, false);
            At(m', OP_STACK, m.out + l.text, l.carry, m.level)
    ensures Run(m, ChainText(c) + rest) == Run(m', rest)
    decreases c, 1
  {
    hide Run;
    match c
    case End =>
      m' := m;
      assert ChainText(c) + rest == rest && m.out + "" == m.out;
    case Beside(x, others) => m' := BesideRun(m, x, others, rest);
    case Either(pad, x, others) => m' := EitherRun(m, pad, x, others, rest);
  }

  lemma {:induction false} BesideRun(m: Machine, x: Operand, others: Chain, rest: string) returns (m': Machine)
    requires m.stack == OP_STACK && IsOperand(x) && IsChain(others) && (rest == "" || rest[0] == ')')
    requires OperandCloses(x) && ChainCloses(others)
    ensures var l := LongChain(Beside(x, others), m.num, false);
            At(m', OP_STACK, m.out + l.text, l.carry, m.level)
    ensures Run(m, ChainText(Beside(x, others)) + rest) == Run(m', rest)
    decreases Beside(x, others), 0
  {
    hide Run, IsOperand, OperandCloses, LongOperand;
    var l := LongOperand(x, m.num, false);
    var tail := ChainText(others) + rest;
    var text := OperandText(x) + tail;
    assert OperandText(x) + ChainText(others) + rest == text;
    ChainStart(others, rest);
    var m1 := BetweenRun(m, text);
    var m2 := OperandRun(m1, x, tail);
    m' := ChainRun(m2, others, rest);
    LinkLong(m.out, "&", l.text, LongChain(others, l.carry, false).text);
  }

  lemma {:induction false} EitherRun(m: Machine, pad: nat, x: Operand, others: Chain, rest: string)
    returns (m': Machine)
    requires m.stack == OP_STACK && IsOperand(x) && IsChain(others) && (rest == "" || rest[0] == ')')
    requires OperandCloses(x) && ChainCloses(others)
    ensures var l := LongChain(Either(pad, x, others), m.num, false);
            At(m', OP_STACK, m.out + l.text, l.carry, m.level)
    ensures Run(m, ChainText(Either(pad, x, others)) + rest) == Run(m', rest)
    decreases Either(pad, x, others), 0
  {
    hide Run, IsOperand, OperandCloses, LongOperand;
    var l := LongOperand(x, m.num, false);
    var tail := ChainText(others) + rest;
    var text := OperandText(x) + tail;
    assert ChainText(Either(pad, x, others)) + rest == ['|'] + (Spaces(pad) + text);
    ChainStart(others, rest);
    var m1 := BetweenRun(m, ['|'] + (Spaces(pad) + text));
    assert m.out + "" == m.out;
    var m2 := OpenRun(m1, '|', pad, text);
    var m3 := OperandRun(m2, x, tail);
    m' := ChainRun(m3, others, rest);
    LinkLong(m.out, "|", l.text, LongChain(others, l.carry, false).text);
  }

  lemma LinkLong(out: string, op: string, operand: string, others: string)
    ensures out + op + operand + others == out + (op + operand + others)
  {
  }

  lemma OperandStart(o: Operand)
    ensures OperandText(o) != "" && OperandText(o)[0] != ' '
  {
  }

  /** The expander accepts every short filter whose quoted arguments end for it where they end, and
      writes its long text and the ending character. */
  lemma ShortRun(s: Short)
    requires IsShort(s) && ShortCloses(s)
    ensures Run(START, ShortText(s)).Expanded?
    ensures Run(START, ShortText(s)).out == LongShort(s, false) + ['\0']
  {
    hide Run, IsOperand, IsChain, OperandCloses, ChainCloses, LongOperand, LongChain, Spaces, OperandText, ChainText;
    var tail := ChainText(s.rest);
    var text := OperandText(s.first) + tail;
    assert tail + "" == tail;
    assert NoSpaceFirst(text) by { OperandStart(s.first); assert text[0] == OperandText(s.first)[0]; }
    SkipRun(START, s.pad, text);
    var m := Pop(START);
    assert m.stack == [Top];
    ChainStart(s.rest, "");
    var m1 := OperandRun(m, s.first, tail);
    var m2 := ChainRun(m1, s.rest, "");
    var m3 := BetweenRun(m2, "");
    assert m3.out == LongShort(s, false);
    RunEnd(m3);
  }

  lemma RunEnd(m: Machine)
    requires m.stack == [Top] && m.level == 0
    ensures Run(m, "").Expanded? && Run(m, "").out == m.out + ['\0']
  {
    StepAtTop(m, '\0');
  }
}
