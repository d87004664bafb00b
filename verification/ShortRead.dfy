/** What short filters are read as, and when that is what they mean: digits left over from a range
    and quotes behind a backslash are the two things that can go wrong. */
module ShortRead {
  import Glob
  import opened Basics
  import opened FilterTokens
  import opened FilterExpr
  import opened ShortFilter
  import opened ShortGrammar
  import opened ShortMeaning

  // ---------------------------------------------------------------------------------------
  // Numbers with left-over digits before them
  // ---------------------------------------------------------------------------------------

  /** The first digits of an argument that begins with a digit. */
  function FirstDigits(a: IntArg): (ds: string)
    requires IsIntArg(a) && DigitLed(a)
    ensures IsNumber(ds)
  {
    if a.Between? then a.low else a.digits
  }

  /** Left-over digits before a number do not change the integer it is converted to. */
  predicate KeepsValue(carry: string, ds: string)
    requires AllDigits(carry) && IsNumber(ds)
  {
    NumberIsToken(carry + ds);
    NumberIsToken(ds);
    IntWordValue(carry + ds) == IntWordValue(ds)
  }

  /** No number is changed by the digits left over before it. */
  predicate KeepsValues(ns: seq<IntArg>, carry: string)
    requires AllDigits(carry) && forall i :: 0 <= i < |ns| ==> IsIntArg(ns[i])
    decreases |ns|
  {
    ns == [] ||
    (assert IsIntArg(ns[0]);
     (DigitLed(ns[0]) ==> KeepsValue(carry, FirstDigits(ns[0])))
     && KeepsValues(ns[1..], CarryAfter(ns[0], carry, false)))
  }

  lemma {:induction false} KeepsValuesConcat(a: seq<IntArg>, b: seq<IntArg>, carry: string)
    requires AllDigits(carry)
    requires forall i :: 0 <= i < |a| ==> IsIntArg(a[i])
    requires forall i :: 0 <= i < |b| ==> IsIntArg(b[i])
    ensures AllDigits(Carried(a, carry))
    ensures KeepsValues(a + b, carry) <==> KeepsValues(a, carry) && KeepsValues(b, Carried(a, carry))
    decreases |a|
  {
    hide KeepsValue;
    CarriedDigits(a, carry);
    if a == [] {
      assert a + b == b;
    } else {
      assert (a + b)[1..] == a[1..] + b;
      KeepsValuesConcat(a[1..], b, CarryAfter(a[0], carry, false));
    }
  }

  lemma {:induction false} OperandNumbersAre(o: Operand)
    requires IsOperand(o)
    ensures forall i :: 0 <= i < |OperandNumbers(o)| ==> IsIntArg(OperandNumbers(o)[i])
    decreases o
  {
    hide IsIntArg, IsStrArg;
    match o
    case TermOperand(_, _) =>
    case Negated(_, x) => OperandNumbersAre(x);
    case Group(_, first, rest, _) =>
      OperandNumbersAre(first);
      ChainNumbersAre(rest);
  }

  lemma {:induction false} ChainNumbersAre(c: Chain)
    requires IsChain(c)
    ensures forall i :: 0 <= i < |ChainNumbers(c)| ==> IsIntArg(ChainNumbers(c)[i])
    decreases c
  {
    hide IsIntArg, OperandNumbers, IsOperand;
    match c
    case End =>
    case Beside(x, rest) =>
      OperandNumbersAre(x);
      ChainNumbersAre(rest);
    case Either(_, x, rest) =>
      OperandNumbersAre(x);
      ChainNumbersAre(rest);
  }

  lemma NumbersAre(s: Short)
    requires ShortGrammar.IsShort(s)
    ensures forall i :: 0 <= i < |Numbers(s)| ==> IsIntArg(Numbers(s)[i])
  {
    hide OperandNumbers, ChainNumbers, IsOperand, IsChain, IsIntArg;
    OperandNumbersAre(s.first);
    ChainNumbersAre(s.rest);
  }

  lemma JoinedTermExpr(t: Term, carry: string)
    requires IsTerm(t) && AllDigits(carry)
    ensures IsTerm(JoinedTerm(t, carry))
    ensures TermExpr(JoinedTerm(t, carry)) == TermExpr(t) <==>
            (t.IntTerm? && DigitLed(t.number) ==> KeepsValue(carry, FirstDigits(t.number)))
  {
    hide LongKey, IntWordValue, IsStrArg;
  }

  lemma {:induction false} JoinedOperandExpr(o: Operand, carry: string)
    requires IsOperand(o) && AllDigits(carry)
    ensures IsOperand(JoinedOperand(o, carry)) && forall i :: 0 <= i < |OperandNumbers(o)| ==> IsIntArg(OperandNumbers(o)[i])
    ensures OperandExpr(JoinedOperand(o, carry)) == OperandExpr(o) <==> KeepsValues(OperandNumbers(o), carry)
    decreases o
  {
    hide TermExpr, KeepsValue, JoinedTerm, Carried, IsIntArg, IsTerm;
    JoinedIsOperand(o, carry);
    OperandNumbersAre(o);
    match o
    case TermOperand(term, _) =>
      JoinedTermExpr(term, carry);
      OneNumberKeeps(term, carry);
    case Negated(_, x) => JoinedOperandExpr(x, carry);
    case Group(_, first, rest, _) =>
      var next := Carried(OperandNumbers(first), carry);
      ChainNumbersAre(rest);
      JoinedOperandExpr(first, carry);
      KeepsValuesConcat(OperandNumbers(first), ChainNumbers(rest), carry);
      JoinedChainExpr(OperandExpr(JoinedOperand(first, carry)), OperandExpr(first), rest, next);
  }

  lemma OneNumberKeeps(term: Term, carry: string)
    requires IsTerm(term) && AllDigits(carry)
    ensures var ns := if term.IntTerm? then [term.number] else [];
            && (forall i :: 0 <= i < |ns| ==> IsIntArg(ns[i]))
            && (KeepsValues(ns, carry) <==>
                (term.IntTerm? && DigitLed(term.number) ==> KeepsValue(carry, FirstDigits(term.number))))
  {
    hide KeepsValue;
    if term.IntTerm? {
      assert [term.number][1..] == [];
    }
  }

  lemma {:induction false} JoinedChainExpr(sofar': Expr, sofar: Expr, c: Chain, carry: string)
    requires IsChain(c) && AllDigits(carry)
    ensures IsChain(JoinedChain(c, carry)) && forall i :: 0 <= i < |ChainNumbers(c)| ==> IsIntArg(ChainNumbers(c)[i])
    ensures ChainExpr(sofar', JoinedChain(c, carry)) == ChainExpr(sofar, c) <==>
            sofar' == sofar && KeepsValues(ChainNumbers(c), carry)
    decreases c
  {
    hide OperandExpr, KeepsValue, Carried, JoinedOperand, OperandNumbers, IsOperand, IsIntArg;
    JoinedIsChain(c, carry);
    ChainNumbersAre(c);
    if !c.End? {
      var x, rest := c.operand, c.rest;
      var next := Carried(OperandNumbers(x), carry);
      JoinedIsOperand(x, carry);
      JoinedOperandExpr(x, carry);
      ChainNumbersAre(rest);
      KeepsValuesConcat(OperandNumbers(x), ChainNumbers(rest), carry);
      var x', x0 := OperandExpr(JoinedOperand(x, carry)), OperandExpr(x);
      if c.Beside? {
        JoinedChainExpr(AndExpr(sofar', x'), AndExpr(sofar, x0), rest, next);
      } else {
        JoinedChainExpr(OrExpr(sofar', x'), OrExpr(sofar, x0), rest, next);
      }
    }
  }

  /** The filter with left-over digits put before the next numbers has the same tree exactly when no
      number is changed by them. */
  lemma JoinedExprIff(s: Short)
    requires ShortGrammar.IsShort(s)
    ensures ShortGrammar.IsShort(JoinedShort(s)) && forall i :: 0 <= i < |Numbers(s)| ==> IsIntArg(Numbers(s)[i])
    ensures ShortExpr(JoinedShort(s)) == ShortExpr(s) <==> KeepsValues(Numbers(s), "")
  {
    hide OperandExpr, ChainExpr, OperandNumbers, ChainNumbers, JoinedOperand, JoinedChain, IsOperand, IsChain,
      Carried, KeepsValues, IsIntArg;
    var next := Carried(OperandNumbers(s.first), "");
    JoinedIsShort(s);
    JoinedIsOperand(s.first, "");
    NumbersAre(s);
    OperandNumbersAre(s.first);
    ChainNumbersAre(s.rest);
    JoinedOperandExpr(s.first, "");
    KeepsValuesConcat(OperandNumbers(s.first), ChainNumbers(s.rest), "");
    JoinedChainExpr(OperandExpr(JoinedOperand(s.first, "")), OperandExpr(s.first), s.rest, next);
  }

  // ---------------------------------------------------------------------------------------
  // Which left-over digits keep a number
  // ---------------------------------------------------------------------------------------

  function Power10(n: nat): (p: nat)
    ensures p >= 1
  {
    if n == 0 then 1 else 10 * Power10(n - 1)
  }

  lemma {:induction false} DigitsConcat(a: string, b: string)
    requires AllDigits(a) && AllDigits(b)
    ensures Digits(a + b) == Digits(a) * Power10(|b|) + Digits(b)
    decreases |b|
  {
    hide Digits;
    if b == "" {
      assert a + b == a;
      NoDigit();
    } else {
      var n := |b| - 1;
      var front, c := b[..n], b[n];
      assert IsDigit(c);
      assert b == front + [c] && a + b == (a + front) + [c];
      DigitsConcat(a, front);
      OneMoreDigit(front, c);
      OneMoreDigit(a + front, c);
      TenTimes(Digits(a), n);
    }
  }

  lemma TenTimes(k: nat, n: nat)
    ensures k * Power10(n + 1) == 10 * (k * Power10(n))
  {
    var p := Power10(n);
    assert k * (10 * p) == 10 * (k * p);
  }

  lemma {:induction false} ZeroDigits(ds: string)
    requires AllDigits(ds)
    ensures Digits(ds) == 0 <==> forall i :: 0 <= i < |ds| ==> ds[i] == '0'
    decreases |ds|
  {
    if ds != "" {
      var n := |ds| - 1;
      assert IsDigit(ds[n]);
      ZeroDigits(ds[..n]);
      assert forall i :: 0 <= i < n ==> ds[..n][i] == ds[i];
    }
  }

  /** While the number with the digits before it stays below 2 to the 31st, they keep it exactly when
      they are all zeros. */
  lemma KeepsValueIffZeros(carry: string, ds: string)
    requires AllDigits(carry) && IsNumber(ds) && Digits(carry + ds) < 0x8000_0000
    ensures KeepsValue(carry, ds) <==> forall i :: 0 <= i < |carry| ==> carry[i] == '0'
  {
    hide IntWordValue, Digits, Power10;
    NumberIsToken(carry + ds);
    DigitsConcat(carry, ds);
    ZeroDigits(carry);
    var p := Digits(carry) * Power10(|ds|);
    assert p >= Digits(carry);
    assert Digits(carry) == 0 ==> p == 0;
    NumberValue(carry + ds);
    NumberValue(ds);
  }

  /** Beyond that other digits may keep it too: 41943040000000003 and 3 are the same 32-bit integer. */
  lemma OthersKeepValue()
    ensures KeepsValue("4194304", "0000000003")
  {
    hide Power10, Digits, IntWordValue;
    var a, b := "4194304", "0000000003";
    DigitsConcat(a, b);
    assert Power10(10) == 10_000_000_000 by { TenPower(); }
    assert Digits(a) == 4194304 by { FourMillion(); }
    assert Digits(b) == 3 by { PaddedThree(); }
    NumberIsToken(a + b);
    NumberIsToken(b);
    WordValue(a + b);
    WordValue(b);
    assert Narrowed(Saturated(41943040000000003)) == 3;
  }

  lemma WordValue(ds: string)
    requires IsNumber(ds)
    ensures IsIntWord(ds) && IntWordValue(ds) == Narrowed(Saturated(Digits(ds)))
  {
    NumberIsToken(ds);
  }

  lemma TenPower()
    ensures Power10(10) == 10_000_000_000
  {
    assert Power10(2) == 100;
    assert Power10(4) == 10000;
    assert Power10(6) == 1000000;
    assert Power10(8) == 100000000;
  }

  lemma OneMoreDigit(ds: string, c: char)
    requires AllDigits(ds) && IsDigit(c)
    ensures AllDigits(ds + [c]) && Digits(ds + [c]) == 10 * Digits(ds) + (c as int - '0' as int)
  {
    assert (ds + [c])[..|ds|] == ds;
  }

  lemma NoDigit()
    ensures Digits("") == 0
  {
  }

  lemma FourMillion()
    ensures AllDigits("4194304") && Digits("4194304") == 4194304
  {
    hide Digits, Power10;
    ThreeDigits('4', '1', '9');
    ThreeDigits('4', '3', '0');
    DigitsConcat("419", "430");
    Thousand();
    OneMoreDigit("419430", '4');
    assert "419" + "430" == "419430" && "419430" + ['4'] == "4194304";
  }

  lemma Thousand()
    ensures Power10(3) == 1000
  {
    assert Power10(1) == 10;
  }

  lemma ThreeDigits(a: char, b: char, c: char)
    requires IsDigit(a) && IsDigit(b) && IsDigit(c)
    ensures AllDigits([a, b, c])
    ensures Digits([a, b, c]) == 100 * (a as int - '0' as int) + 10 * (b as int - '0' as int) + (c as int - '0' as int)
  {
    hide Digits;
    NoDigit();
    OneMoreDigit("", a);
    OneMoreDigit([a], b);
    OneMoreDigit([a, b], c);
    assert "" + [a] == [a] && [a] + [b] == [a, b] && [a, b] + [c] == [a, b, c];
  }

  lemma PaddedThree()
    ensures AllDigits("0000000003") && Digits("0000000003") == 3
  {
    hide Digits;
    var zeros := "000000000";
    ZeroDigits(zeros);
    OneMoreDigit(zeros, '3');
    assert zeros + ['3'] == "0000000003";
  }

  /** Where no number that begins with a digit follows a closed range, nothing is left over. */
  lemma {:induction false} UndisturbedKeeps(ns: seq<IntArg>, carry: string)
    requires AllDigits(carry) && forall i :: 0 <= i < |ns| ==> IsIntArg(ns[i])
    requires Undisturbed(ns, carry != "")
    ensures KeepsValues(ns, carry)
    decreases |ns|
  {
    if ns != [] {
      assert carry == "" ==> DigitLed(ns[0]) ==> carry + FirstDigits(ns[0]) == FirstDigits(ns[0]);
      UndisturbedKeeps(ns[1..], CarryAfter(ns[0], carry, false));
    }
  }

  // ---------------------------------------------------------------------------------------
  // A quote that stays open for the expander
  // ---------------------------------------------------------------------------------------

  /** What follows the first quoted argument that ends in a backslash. */
  function OperandTail(o: Operand): string
    requires !OperandCloses(o)
  {
    match o
    case Negated(_, x) => OperandTail(x)
    case Group(_, first, rest, close) =>
      (if !OperandCloses(first) then OperandTail(first) + ChainText(rest) else ChainTail(rest)) + (")" + Spaces(close))
    case TermOperand(_, pad) => Spaces(pad)
  }

  function ChainTail(c: Chain): string
    requires !ChainCloses(c)
  {
    if !OperandCloses(c.operand) then OperandTail(c.operand) + ChainText(c.rest) else ChainTail(c.rest)
  }

  function ShortTail(s: Short): string
    requires !ShortCloses(s)
  {
    if !OperandCloses(s.first) then OperandTail(s.first) + ChainText(s.rest) else ChainTail(s.rest)
  }

  function Link(c: Chain): Token
    requires !c.End?
  {
    if c.Beside? then And else Or
  }

  /** The tokens up to that argument and with it. */
  function OperandHead(o: Operand): (ts: seq<Token>)
    requires !OperandCloses(o)
    ensures ts != [] && ts[|ts| - 1].Str?
  {
    match o
    case Negated(_, x) => [Not] + OperandHead(x)
    case Group(_, first, rest, _) =>
      [LParen] + (if !OperandCloses(first) then OperandHead(first) else OperandTokens(first) + ChainHead(rest))
    case TermOperand(term, _) => TermTokens(term)
  }

  function ChainHead(c: Chain): (ts: seq<Token>)
    requires !ChainCloses(c)
    ensures ts != [] && ts[|ts| - 1].Str?
  {
    [Link(c)] + (if !OperandCloses(c.operand) then OperandHead(c.operand) else OperandTokens(c.operand) + ChainHead(c.rest))
  }

  function ShortHead(s: Short): (ts: seq<Token>)
    requires !ShortCloses(s)
    ensures ts != [] && ts[|ts| - 1].Str?
  {
    if !OperandCloses(s.first) then OperandHead(s.first) else OperandTokens(s.first) + ChainHead(s.rest)
  }

  const QUOTE_STACK := INT_STACK + [InQuoteStr]

  lemma {:induction false} QuoteCharsRun(m: Machine, text: string, rest: string) returns (m': Machine)
    requires m.stack == QUOTE_STACK
    requires forall i :: 0 <= i < |text| && text[i] == '"' ==> CharBefore(m.previous, text, i) == '\\'
    ensures m'.stack == QUOTE_STACK && m'.out == m.out + text
    ensures Run(m, text + rest) == Run(m', rest)
    decreases |text|
  {
    hide Run, Step;
    if text == "" {
      m' := m;
      assert text + rest == rest && m.out + text == m.out;
    } else {
      var m1 := Emit(m, [text[0]]).(previous := text[0]);
      var tail := text[1..];
      assert text + rest == [text[0]] + (tail + rest);
      assert text[0] == '"' ==> CharBefore(m.previous, text, 0) == '\\';
      StepInQuote(m, text[0]);
      RunTake(m, text[0], tail + rest, m1);
      forall i | 0 <= i < |tail| && tail[i] == '"'
        ensures CharBefore(m1.previous, tail, i) == '\\'
      {
        assert text[i + 1] == '"' && CharBefore(m.previous, text, i + 1) == '\\';
      }
      m' := QuoteCharsRun(m1, tail, rest);
      assert m.out + [text[0]] + tail == m.out + text;
    }
  }

  /** An argument that ends in a backslash is copied with its quote, and the quote stays open. */
  lemma OpenQuoteRun(m: Machine, a: StrArg, rest: string) returns (m': Machine)
    requires m.stack == INT_STACK + [ExpectStr] && IsStrArg(a) && !StrCloses(a)
    ensures m'.stack == QUOTE_STACK && m'.out == m.out + LongStr(a)
    ensures Run(m, StrArgText(a) + rest) == Run(m', rest)
  {
    var text := a.text;
    hide Run, Step, IsQuotable;
    var body := text + "\"";
    var m1 := ReplaceTop(Emit(m, "=\""), InQuoteStr).(previous := '"');
    StepAtStr(m, '"');
    assert "\"" + text + "\"" + rest == ['"'] + (body + rest);
    RunTake(m, '"', body + rest, m1);
    forall i | 0 <= i < |body| && body[i] == '"'
      ensures CharBefore(m1.previous, body, i) == '\\'
    {
      if i < |text| {
        QuotableIs(text);
        QuotesProtected(text, i);
      }
    }
    m' := QuoteCharsRun(m1, body, rest);
    assert m.out + "=\"" + body == m.out + LongStr(a);
  }

  lemma OpenKeyRun(m: Machine, t: Term, rest: string) returns (m': Machine)
    requires m.stack == INT_STACK + [ExpectKey] && t.StrTerm? && IsTerm(t) && !StrCloses(t.str)
    ensures m'.stack == QUOTE_STACK && m'.out == m.out + (LongKey(t.key) + LongStr(t.str))
    ensures Run(m, [t.key] + (Spaces(t.pad) + (StrArgText(t.str) + rest))) == Run(m', rest)
  {
    hide Run, LongKey, LongStr, IsStrArg, StrCloses, IsShortKey, ShortKeyType, Step, Spaces, StrArgText;
    var after := StrArgText(t.str) + rest;
    var m1 := KeyRun(m, t.key, Spaces(t.pad) + after);
    ArgStarts(t.str, rest);
    SkipRun(m1, t.pad, after);
    var m2 := Pop(m1);
    assert m2.stack == INT_STACK + [ExpectStr];
    m' := OpenQuoteRun(m2, t.str, rest);
    assert m.out + "" == m.out;
    Group3(m.out, LongKey(t.key), LongStr(t.str));
  }

  lemma ArgStarts(a: StrArg, rest: string)
    requires IsStrArg(a)
    ensures NoSpaceFirst(StrArgText(a) + rest)
  {
    hide IsStrArg, StrArgText;
    StrArgStart(a);
  }

  lemma OpenTermRun(m: Machine, t: Term, pad: nat, rest: string) returns (m': Machine)
    requires m.stack == [Top] && t.StrTerm? && IsTerm(t) && !StrCloses(t.str)
    ensures m'.stack == QUOTE_STACK && m'.out == m.out + TokensText(TermTokens(t))
    ensures Run(m, OperandText(TermOperand(t, pad)) + rest) == Run(m', Spaces(pad) + rest)
  {
    hide Run, Step, LongKey, LongStr, IsTerm, StrCloses, TokensText, StrArgText;
    var body := [t.key] + (Spaces(t.pad) + (StrArgText(t.str) + (Spaces(pad) + rest)));
    StrTermText(t, pad, rest);
    StepAtTop(m, '~');
    var m1 := Push(m, [ExpectOp, SkipSpace, ExpectKey]);
    RunTake(m, '~', body, m1);
    assert m1.stack == INT_STACK + [ExpectKey];
    m' := OpenKeyRun(m1, t, Spaces(pad) + rest);
    TermText(t);
  }

  lemma StrTermText(t: Term, pad: nat, rest: string)
    requires t.StrTerm?
    ensures OperandText(TermOperand(t, pad)) + rest ==
            ['~'] + ([t.key] + (Spaces(t.pad) + (StrArgText(t.str) + (Spaces(pad) + rest))))
  {
    hide StrArgText, Spaces;
    var arg := StrArgText(t.str);
    assert Spaces(t.pad) + arg + Spaces(pad) + rest == Spaces(t.pad) + (arg + (Spaces(pad) + rest));
    assert "~" + ([t.key] + (Spaces(t.pad) + arg + Spaces(pad))) + rest ==
           ['~'] + ([t.key] + (Spaces(t.pad) + arg + Spaces(pad) + rest));
  }

  // Concatenations, grouped as the runs need them.

  lemma Group4<T>(a: seq<T>, b: seq<T>, c: seq<T>, d: seq<T>)
    ensures a + b + c + d == a + (b + (c + d))
  {
  }

  lemma Group3<T>(a: seq<T>, b: seq<T>, c: seq<T>)
    ensures a + b + c == a + (b + c)
  {
  }

  lemma HeadText(first: Token, ts: seq<Token>)
    ensures TokensText([first] + ts) == TokenText(first) + TokensText(ts)
  {
    hide TokensText;
    TokensTextConcat([first], ts);
    TokensTextOne(first);
  }

  /** What the expander has written for an operand it has read. */
  lemma OperandWritten(m: Machine, o: Operand)
    requires IsOperand(o) && AllDigits(m.num)
    ensures LongOperand(o, m.num, false) ==
            Long(TokensText(OperandTokens(JoinedOperand(o, m.num))), Carried(OperandNumbers(o), m.num))
    ensures AllDigits(Carried(OperandNumbers(o), m.num))
  {
    hide LongOperand, OperandTokens, JoinedOperand, IsOperand, TokensText, Carried;
    JoinedIsOperand(o, m.num);
    JoinedOperandLong(o, m.num);
    OperandTokensText(JoinedOperand(o, m.num));
  }

  /** What stays of an operand after its quote was left open. */
  ghost predicate Opened(m: Machine, m': Machine, head: seq<Token>) {
    m'.stack == QUOTE_STACK && m'.out == m.out + TokensText(head)
  }

  lemma {:induction false} OpenOperandRun(m: Machine, o: Operand, rest: string) returns (m': Machine)
    requires m.stack == [Top] && IsOperand(o) && !OperandCloses(o) && AllDigits(m.num)
    requires rest == "" || Follows(rest)
    ensures !OperandCloses(JoinedOperand(o, m.num))
    ensures Opened(m, m', OperandHead(JoinedOperand(o, m.num)))
    ensures Shape(m'.stack) && Run(m, OperandText(o) + rest) == Run(m', OperandTail(o) + rest)
    decreases o, 1
  {
    hide Run, OperandText, OperandTail, OperandHead, IsTerm;
    JoinedIsOperand(o, m.num);
    match o
    case TermOperand(term, pad) =>
      OpenTerm(o, m.num);
      m' := OpenTermRun(m, term, pad, rest);
    case Negated(_, _) => m' := OpenNegatedRun(m, o, rest);
    case Group(_, first, _, _) =>
      if OperandCloses(first) {
        m' := OpenRestRun(m, o, rest);
      } else {
        m' := OpenFirstRun(m, o, rest);
      }
  }

  lemma OpenTerm(o: Operand, carry: string)
    requires o.TermOperand? && !OperandCloses(o)
    ensures o.term.StrTerm? && !StrCloses(o.term.str) && JoinedOperand(o, carry) == o
    ensures OperandHead(o) == TermTokens(o.term) && OperandTail(o) == Spaces(o.pad)
  {
  }

  lemma {:induction false} OpenNegatedRun(m: Machine, o: Operand, rest: string) returns (m': Machine)
    requires o.Negated? && m.stack == [Top] && IsOperand(o) && !OperandCloses(o) && AllDigits(m.num)
    requires rest == "" || Follows(rest)
    ensures !OperandCloses(JoinedOperand(o, m.num))
    ensures Opened(m, m', OperandHead(JoinedOperand(o, m.num)))
    ensures Shape(m'.stack) && Run(m, OperandText(o) + rest) == Run(m', OperandTail(o) + rest)
    decreases o, 0
  {
    hide Run, Follows, OperandText, TokensText;
    var x := o.operand;
    var after := OperandText(x) + rest;
    NegatedText(o, rest);
    assert NoSpaceFirst(after) by { assert after[0] == OperandText(x)[0]; }
    var m1 := OpenRun(m, '!', o.pad, after);
    m' := OpenOperandRun(m1, x, rest);
    var head := OperandHead(JoinedOperand(x, m.num));
    HeadText(Not, head);
    Group3(m.out, ['!'], TokensText(head));
  }

  /** The opening parenthesis of a group. */
  lemma OpenParenRun(m: Machine, o: Operand, rest: string) returns (m': Machine)
    requires o.Group? && m.stack == [Top]
    ensures At(m', [Top], m.out + ['('], m.num, m.level + 1)
    ensures var inner := ChainText(o.rest) + ([')'] + (Spaces(o.close) + rest));
            Follows(inner) && Run(m, OperandText(o) + rest) == Run(m', OperandText(o.first) + inner)
  {
    hide Run, OperandText, ChainText, Follows, Spaces;
    var tail := [')'] + (Spaces(o.close) + rest);
    var after := OperandText(o.first) + (ChainText(o.rest) + tail);
    GroupText(o, rest);
    assert NoSpaceFirst(after) by { OperandStart(o.first); assert after[0] == OperandText(o.first)[0]; }
    m' := OpenRun(m, '(', o.pad, after);
    ChainStart(o.rest, tail);
  }

  /** What is read and left of a group whose first operand does not end. */
  lemma GroupFirstParts(o: Operand, carry: string, rest: string)
    requires o.Group? && IsOperand(o) && !OperandCloses(o.first) && AllDigits(carry)
    ensures IsOperand(o.first) && !OperandCloses(o)
    ensures !OperandCloses(JoinedOperand(o.first, carry)) && !OperandCloses(JoinedOperand(o, carry))
    ensures TokensText(OperandHead(JoinedOperand(o, carry))) ==
            ['('] + TokensText(OperandHead(JoinedOperand(o.first, carry)))
    ensures OperandTail(o) + rest ==
            OperandTail(o.first) + (ChainText(o.rest) + ([')'] + (Spaces(o.close) + rest)))
  {
    hide TokensText, Carried, ChainText, Spaces;
    JoinedIsOperand(o.first, carry);
    HeadText(LParen, OperandHead(JoinedOperand(o.first, carry)));
    CloseText(OperandTail(o.first) + ChainText(o.rest), Spaces(o.close), rest);
    Group3(OperandTail(o.first), ChainText(o.rest), [')'] + (Spaces(o.close) + rest));
  }

  lemma {:induction false} OpenFirstRun(m: Machine, o: Operand, rest: string) returns (m': Machine)
    requires o.Group? && m.stack == [Top] && IsOperand(o) && !OperandCloses(o.first) && AllDigits(m.num)
    ensures !OperandCloses(o) && !OperandCloses(JoinedOperand(o, m.num))
    ensures Opened(m, m', OperandHead(JoinedOperand(o, m.num)))
    ensures Shape(m'.stack) && Run(m, OperandText(o) + rest) == Run(m', OperandTail(o) + rest)
    decreases o, 0
  {
    hide Run, OperandText, ChainText, TokensText, Carried, LongOperand, Follows, Spaces, JoinedOperand, OperandHead,
      OperandTail, OperandCloses, IsOperand;
    GroupFirstParts(o, m.num, rest);
    var m1 := OpenParenRun(m, o, rest);
    m' := OpenOperandRun(m1, o.first, ChainText(o.rest) + ([')'] + (Spaces(o.close) + rest)));
    Group3(m.out, ['('], TokensText(OperandHead(JoinedOperand(o.first, m.num))));
  }

  /** What is read and left of a group in which a later operand does not end. */
  lemma GroupRestParts(o: Operand, carry: string, rest: string)
    requires o.Group? && IsOperand(o) && !OperandCloses(o) && OperandCloses(o.first) && AllDigits(carry)
    ensures IsOperand(o.first) && IsChain(o.rest) && !ChainCloses(o.rest) && !OperandCloses(JoinedOperand(o, carry))
    ensures var next := Carried(OperandNumbers(o.first), carry);
            && !ChainCloses(JoinedChain(o.rest, next))
            && TokensText(OperandHead(JoinedOperand(o, carry))) ==
               ['('] + (TokensText(OperandTokens(JoinedOperand(o.first, carry)))
                        + TokensText(ChainHead(JoinedChain(o.rest, next))))
    ensures OperandTail(o) + rest == ChainTail(o.rest) + ([')'] + (Spaces(o.close) + rest))
  {
    hide TokensText, Carried, ChainText, Spaces, OperandTokens;
    var next := Carried(OperandNumbers(o.first), carry);
    JoinedIsOperand(o.first, carry);
    JoinedIsChain(o.rest, next);
    var ts, head := OperandTokens(JoinedOperand(o.first, carry)), ChainHead(JoinedChain(o.rest, next));
    HeadText(LParen, ts + head);
    TokensTextConcat(ts, head);
    CloseText(ChainTail(o.rest), Spaces(o.close), rest);
  }

  lemma {:induction false} OpenRestRun(m: Machine, o: Operand, rest: string) returns (m': Machine)
    requires o.Group? && m.stack == [Top] && IsOperand(o) && !OperandCloses(o) && OperandCloses(o.first)
    requires AllDigits(m.num)
    ensures !OperandCloses(JoinedOperand(o, m.num))
    ensures Opened(m, m', OperandHead(JoinedOperand(o, m.num)))
    ensures Shape(m'.stack) && Run(m, OperandText(o) + rest) == Run(m', OperandTail(o) + rest)
    decreases o, 0
  {
    hide Run, OperandText, ChainText, TokensText, Carried, LongOperand, Follows, Spaces, JoinedOperand, JoinedChain,
      OperandHead, OperandTail, ChainHead, ChainTail, OperandCloses, ChainCloses, IsOperand, IsChain, OperandTokens,
      OperandNumbers;
    var first := o.first;
    var tail := [')'] + (Spaces(o.close) + rest);
    GroupRestParts(o, m.num, rest);
    var m1 := OpenParenRun(m, o, rest);
    var m2 := OperandRun(m1, first, ChainText(o.rest) + tail);
    OperandWritten(m1, first);
    m' := OpenChainRun(m2, o.rest, tail);
    Group4(m.out, ['('], TokensText(OperandTokens(JoinedOperand(first, m.num))),
           TokensText(ChainHead(JoinedChain(o.rest, m2.num))));
  }

  lemma CloseText(inner: string, spaces: string, rest: string)
    ensures inner + (")" + spaces) + rest == inner + ([')'] + (spaces + rest))
  {
  }

  /** From behind an operand to the next one, which the expander is told to join. */
  lemma LinkRun(m: Machine, c: Chain, rest: string) returns (m': Machine)
    requires m.stack == OP_STACK && !c.End?
    ensures At(m', [Top], m.out + TokenText(Link(c)), m.num, m.level)
    ensures Run(m, ChainText(c) + rest) == Run(m', OperandText(c.operand) + (ChainText(c.rest) + rest))
  {
    hide Run, OperandText, Spaces;
    var text := OperandText(c.operand) + (ChainText(c.rest) + rest);
    if c.Beside? {
      Group3(OperandText(c.operand), ChainText(c.rest), rest);
      m' := BetweenRun(m, text);
    } else {
      assert ChainText(c) + rest == ['|'] + (Spaces(c.pad) + text);
      var m1 := BetweenRun(m, ['|'] + (Spaces(c.pad) + text));
      assert m.out + "" == m.out;
      m' := OpenRun(m1, '|', c.pad, text);
    }
  }

  lemma {:induction false} OpenChainRun(m: Machine, c: Chain, rest: string) returns (m': Machine)
    requires m.stack == OP_STACK && IsChain(c) && !ChainCloses(c) && AllDigits(m.num)
    requires rest == "" || rest[0] == ')'
    ensures !ChainCloses(JoinedChain(c, m.num))
    ensures Opened(m, m', ChainHead(JoinedChain(c, m.num)))
    ensures Shape(m'.stack) && Run(m, ChainText(c) + rest) == Run(m', ChainTail(c) + rest)
    decreases c
  {
    hide Run, OperandText, ChainText, TokensText, TokenText, Carried, LongOperand, Follows, OperandCloses, IsOperand,
      OperandHead, OperandTail, OperandTokens, JoinedOperand;
    var x := c.operand;
    var tail := ChainText(c.rest) + rest;
    JoinedIsChain(c, m.num);
    JoinedIsOperand(x, m.num);
    var m1 := LinkRun(m, c, rest);
    ChainStart(c.rest, rest);
    var link := Link(c);
    if !OperandCloses(x) {
      m' := OpenOperandRun(m1, x, tail);
      var head := OperandHead(JoinedOperand(x, m.num));
      HeadText(link, head);
      Group3(m.out, TokenText(link), TokensText(head));
      Group3(OperandTail(x), ChainText(c.rest), rest);
    } else {
      var m2 := OperandRun(m1, x, tail);
      OperandWritten(m1, x);
      m' := OpenChainRun(m2, c.rest, rest);
      var ts, head := OperandTokens(JoinedOperand(x, m.num)), ChainHead(JoinedChain(c.rest, m2.num));
      HeadText(link, ts + head);
      TokensTextConcat(ts, head);
      Group4(m.out, TokenText(link), TokensText(ts), TokensText(head));
    }
  }

  /** The expander copies all that follows the quote that stays open. */
  lemma OpenShortRun(s: Short) returns (m': Machine)
    requires ShortGrammar.IsShort(s) && !ShortCloses(s)
    ensures !ShortCloses(JoinedShort(s)) && m'.stack == QUOTE_STACK
    ensures m'.out == TokensText(ShortHead(JoinedShort(s)))
    ensures Shape(m'.stack) && Run(START, ShortText(s)) == Run(m', ShortTail(s))
  {
    hide Run, OperandText, ChainText, TokensText, Carried, LongOperand, OperandCloses, ChainCloses, IsOperand, IsChain,
      OperandHead, OperandTail, ChainHead, ChainTail, JoinedOperand, JoinedChain, OperandTokens;
    var x, c := s.first, s.rest;
    var tail := ChainText(c);
    JoinedIsShort(s);
    JoinedIsOperand(x, "");
    SkipRun(START, s.pad, OperandText(x) + tail);
    var m := Pop(START);
    assert m.stack == [Top] && m.num == "";
    assert tail + "" == tail;
    ChainStart(c, "");
    if !OperandCloses(x) {
      m' := OpenOperandRun(m, x, tail);
      assert "" + TokensText(OperandHead(JoinedOperand(x, ""))) == TokensText(OperandHead(JoinedOperand(x, "")));
    } else {
      var m2 := OperandRun(m, x, tail);
      OperandWritten(m, x);
      m' := OpenChainRun(m2, c, "");
      assert ChainTail(c) + "" == ChainTail(c);
      var ts, head := OperandTokens(JoinedOperand(x, "")), ChainHead(JoinedChain(c, m2.num));
      TokensTextConcat(ts, head);
      assert "" + TokensText(ts) == TokensText(ts);
    }
  }

  // ---------------------------------------------------------------------------------------
  // What may follow an open quote
  // ---------------------------------------------------------------------------------------

  /** Only spaces and closing parentheses. */
  predicate Harmless(t: string) {
    forall i :: 0 <= i < |t| ==> t[i] == ' ' || t[i] == ')'
  }

  predicate IsJunk(c: char) {
    c == ' ' || c == ')' || c == '(' || c == '!' || c == '|'
  }

  /** A key comes, with nothing but operators before it. */
  predicate KeyComes(t: string)
    decreases |t|
  {
    t != "" && (t[0] == '~' || (IsJunk(t[0]) && KeyComes(t[1..])))
  }

  lemma {:induction false} KeyComesFirst(a: string, b: string)
    requires KeyComes(a)
    ensures KeyComes(a + b)
    decreases |a|
  {
    assert (a + b)[0] == a[0];
    if a[0] != '~' {
      assert (a + b)[1..] == a[1..] + b;
      KeyComesFirst(a[1..], b);
    }
  }

  lemma {:induction false} KeyComesAfter(a: string, b: string)
    requires (forall i :: 0 <= i < |a| ==> IsJunk(a[i])) && KeyComes(b)
    ensures KeyComes(a + b)
    decreases |a|
  {
    if a == "" {
      assert a + b == b;
    } else {
      assert (a + b)[0] == a[0] && (a + b)[1..] == a[1..] + b;
      KeyComesAfter(a[1..], b);
    }
  }

  lemma {:induction false} KeyNotHarmless(t: string)
    requires KeyComes(t)
    ensures !Harmless(t)
    decreases |t|
  {
    if t[0] != '~' {
      KeyNotHarmless(t[1..]);
      var i :| 0 <= i < |t[1..]| && t[1..][i] != ' ' && t[1..][i] != ')';
      assert t[i + 1] == t[1..][i];
    }
  }

  lemma SpacesAreJunk(n: nat)
    ensures forall i :: 0 <= i < |Spaces(n)| ==> IsJunk(Spaces(n)[i])
    ensures Harmless(Spaces(n))
  {
  }

  lemma HarmlessConcat(a: string, b: string)
    ensures Harmless(a + b) <==> Harmless(a) && Harmless(b)
  {
    assert forall i :: 0 <= i < |a| ==> (a + b)[i] == a[i];
    assert forall i :: 0 <= i < |b| ==> (a + b)[|a| + i] == b[i];
  }

  lemma {:induction false} OperandHasKey(o: Operand)
    ensures KeyComes(OperandText(o))
    decreases o, 0
  {
    hide Spaces;
    match o
    case TermOperand(_, _) =>
    case Negated(pad, x) => OpenHasKey('!', pad, x, "");
    case Group(pad, first, rest, close) => OpenHasKey('(', pad, first, ChainText(rest) + (")" + Spaces(close)));
  }

  lemma {:induction false} OpenHasKey(c: char, pad: nat, x: Operand, rest: string)
    requires c == '!' || c == '(' || c == '|'
    ensures KeyComes([c] + (Spaces(pad) + (OperandText(x) + rest)))
    ensures rest == "" ==> KeyComes([c] + (Spaces(pad) + OperandText(x)))
    decreases x, 1
  {
    hide Spaces, OperandText, KeyComes;
    OperandHasKey(x);
    var t := OperandText(x) + rest;
    KeyComesFirst(OperandText(x), rest);
    SpacesAreJunk(pad);
    KeyComesAfter(Spaces(pad), t);
    KeyComesAfter([c], Spaces(pad) + t);
    if rest == "" {
      assert t == OperandText(x);
    }
  }

  lemma ChainHasKey(c: Chain)
    requires !c.End?
    ensures KeyComes(ChainText(c))
  {
    hide OperandText, KeyComes, Spaces;
    if c.Beside? {
      OperandHasKey(c.operand);
      KeyComesFirst(OperandText(c.operand), ChainText(c.rest));
    } else {
      OpenHasKey('|', c.pad, c.operand, ChainText(c.rest));
    }
  }

  predicate TailDecides(t: string) {
    Harmless(t) || KeyComes(t)
  }

  lemma TailThenChain(t: string, c: Chain)
    requires TailDecides(t)
    ensures TailDecides(t + ChainText(c)) && (Harmless(t + ChainText(c)) <==> Harmless(t) && c.End?)
  {
    hide KeyComes;
    HarmlessConcat(t, ChainText(c));
    if KeyComes(t) {
      KeyComesFirst(t, ChainText(c));
      KeyNotHarmless(t);
    } else if !c.End? {
      hide ChainText;
      ChainHasKey(c);
      KeyComesAfter(t, ChainText(c));
      KeyNotHarmless(ChainText(c));
    }
  }

  lemma TailThenClose(t: string, close: nat)
    requires TailDecides(t)
    ensures TailDecides(t + (")" + Spaces(close))) && (Harmless(t + (")" + Spaces(close))) <==> Harmless(t))
  {
    hide KeyComes, Spaces;
    var end := ")" + Spaces(close);
    SpacesAreJunk(close);
    HarmlessConcat(")", Spaces(close));
    HarmlessConcat(t, end);
    if KeyComes(t) {
      KeyComesFirst(t, end);
    }
  }

  /** Behind the open quote either nothing matters any more, or a key comes. */
  lemma {:induction false} OperandTailDecides(o: Operand)
    requires !OperandCloses(o)
    ensures TailDecides(OperandTail(o))
    decreases o
  {
    hide TailDecides, Spaces, ChainText;
    match o
    case TermOperand(_, pad) => assert TailDecides(Spaces(pad)) by { SpacesAreJunk(pad); SpacesDecide(pad); }
    case Negated(_, x) => OperandTailDecides(x);
    case Group(_, first, rest, close) =>
      if !OperandCloses(first) {
        OperandTailDecides(first);
        TailThenChain(OperandTail(first), rest);
        TailThenClose(OperandTail(first) + ChainText(rest), close);
      } else {
        ChainTailDecides(rest);
        TailThenClose(ChainTail(rest), close);
      }
  }

  lemma SpacesDecide(n: nat)
    ensures TailDecides(Spaces(n))
  {
  }

  lemma {:induction false} ChainTailDecides(c: Chain)
    requires !ChainCloses(c)
    ensures TailDecides(ChainTail(c))
    decreases c
  {
    hide TailDecides, ChainText, OperandTail, OperandCloses;
    if !OperandCloses(c.operand) {
      OperandTailDecides(c.operand);
      TailThenChain(OperandTail(c.operand), c.rest);
    } else {
      ChainTailDecides(c.rest);
    }
  }

  lemma ShortTailDecides(s: Short)
    requires !ShortCloses(s)
    ensures TailDecides(ShortTail(s))
  {
    hide TailDecides, ChainText, OperandTail, ChainTail, OperandCloses, ChainCloses;
    if !OperandCloses(s.first) {
      OperandTailDecides(s.first);
      TailThenChain(OperandTail(s.first), s.rest);
    } else {
      ChainTailDecides(s.rest);
    }
  }

  // ---------------------------------------------------------------------------------------
  // Harmless tails
  // ---------------------------------------------------------------------------------------

  function Parens(t: string): seq<Token>
    decreases |t|
  {
    if t == "" then [] else (if t[0] == ')' then [RParen] else []) + Parens(t[1..])
  }

  lemma {:induction false} ParensConcat(a: string, b: string)
    ensures Parens(a + b) == Parens(a) + Parens(b)
    decreases |a|
  {
    if a == "" {
      assert a + b == b;
    } else {
      assert (a + b)[0] == a[0] && (a + b)[1..] == a[1..] + b;
      ParensConcat(a[1..], b);
      Group3(if a[0] == ')' then [RParen] else [], Parens(a[1..]), Parens(b));
    }
  }

  lemma {:induction false} NoParens(n: nat)
    ensures Parens(Spaces(n)) == []
    decreases n
  {
    if n > 0 {
      assert Spaces(n)[1..] == Spaces(n - 1);
      NoParens(n - 1);
    }
  }

  lemma ParensClose(t: string, close: nat)
    ensures Parens(t + (")" + Spaces(close))) == Parens(t) + [RParen]
  {
    hide Spaces;
    var end := ")" + Spaces(close);
    ParensConcat(t, end);
    assert end[0] == ')' && end[1..] == Spaces(close);
    NoParens(close);
    assert Parens(end) == [RParen] + [];
  }

  lemma {:induction false} OperandTokensTail(o: Operand, carry: string)
    requires !OperandCloses(o) && !OperandCloses(JoinedOperand(o, carry)) && Harmless(OperandTail(o))
    ensures OperandTokens(JoinedOperand(o, carry)) == OperandHead(JoinedOperand(o, carry)) + Parens(OperandTail(o))
    decreases o
  {
    hide Spaces, ChainText, Harmless, Carried;
    match o
    case TermOperand(term, pad) =>
      OpenTerm(o, carry);
      NoParens(pad);
    case Negated(_, x) => OperandTokensTail(x, carry);
    case Group(_, _, _, _) => GroupTokensTail(o, carry);
  }

  lemma {:induction false} JoinedCloses(o: Operand, carry: string)
    ensures OperandCloses(JoinedOperand(o, carry)) == OperandCloses(o)
    decreases o
  {
    hide Carried, StrCloses;
    match o
    case TermOperand(_, _) =>
    case Negated(_, x) => JoinedCloses(x, carry);
    case Group(_, first, rest, _) =>
      JoinedCloses(first, carry);
      JoinedChainCloses(rest, Carried(OperandNumbers(first), carry));
  }

  lemma {:induction false} JoinedChainCloses(c: Chain, carry: string)
    ensures ChainCloses(JoinedChain(c, carry)) == ChainCloses(c)
    decreases c
  {
    hide Carried, OperandCloses, JoinedOperand;
    if !c.End? {
      JoinedCloses(c.operand, carry);
      JoinedChainCloses(c.rest, Carried(OperandNumbers(c.operand), carry));
    }
  }

  lemma {:induction false} GroupTokensTail(o: Operand, carry: string)
    requires o.Group?
    requires !OperandCloses(o) && !OperandCloses(JoinedOperand(o, carry)) && Harmless(OperandTail(o))
    ensures OperandTokens(JoinedOperand(o, carry)) == OperandHead(JoinedOperand(o, carry)) + Parens(OperandTail(o))
    decreases o, 0
  {
    hide Spaces, Harmless, Carried, TailDecides, Parens, OperandHead, ChainHead, OperandTokens;
    var first, rest := o.first, o.rest;
    var next := Carried(OperandNumbers(first), carry);
    JoinedCloses(first, carry);
    JoinedChainCloses(rest, next);
    GroupTokens(JoinedOperand(o, carry));
    if !OperandCloses(first) {
      var t := OperandTail(first);
      OperandTailDecides(first);
      TailThenChain(t, rest);
      TailThenClose(t + ChainText(rest), o.close);
      assert rest.End? && t + ChainText(rest) == t;
      ParensClose(t, o.close);
      OperandTokensTail(first, carry);
      Group4([LParen], OperandHead(JoinedOperand(first, carry)), Parens(t), [RParen]);
      Group3([LParen], OperandHead(JoinedOperand(first, carry)), Parens(t) + [RParen]);
    } else {
      var t := ChainTail(rest);
      ChainTailDecides(rest);
      TailThenClose(t, o.close);
      ParensClose(t, o.close);
      ChainTokensTail(rest, next);
      var ts, head := OperandTokens(JoinedOperand(first, carry)), ChainHead(JoinedChain(rest, next));
      assert [LParen] + ts + (head + Parens(t)) + [RParen] == [LParen] + (ts + head) + (Parens(t) + [RParen]);
    }
  }

  /** The tokens of a group and those before its open quote. */
  lemma GroupTokens(o: Operand)
    requires o.Group? && !OperandCloses(o)
    ensures OperandTokens(o) == [LParen] + OperandTokens(o.first) + ShortMeaning.ChainTokens(o.rest) + [RParen]
    ensures o.rest.End? ==> OperandTokens(o) == [LParen] + OperandTokens(o.first) + [RParen]
    ensures !OperandCloses(o.first) ==> OperandHead(o) == [LParen] + OperandHead(o.first)
    ensures OperandCloses(o.first) ==>
              !ChainCloses(o.rest) && OperandHead(o) == [LParen] + (OperandTokens(o.first) + ChainHead(o.rest))
  {
    hide ChainHead;
  }

  lemma {:induction false} ChainTokensTail(c: Chain, carry: string)
    requires !ChainCloses(c) && !ChainCloses(JoinedChain(c, carry)) && Harmless(ChainTail(c))
    ensures ShortMeaning.ChainTokens(JoinedChain(c, carry)) == ChainHead(JoinedChain(c, carry)) + Parens(ChainTail(c))
    decreases c
  {
    hide Harmless, Carried, TailDecides, OperandTail, OperandHead, OperandCloses, OperandTokens, JoinedOperand,
      OperandNumbers, Parens, TermTokens;
    var x, rest := c.operand, c.rest;
    JoinedCloses(x, carry);
    if !OperandCloses(x) {
      OperandTailDecides(x);
      TailThenChain(OperandTail(x), rest);
      assert rest.End? && OperandTail(x) + ChainText(rest) == OperandTail(x);
      OperandTokensTail(x, carry);
    } else {
      var next := Carried(OperandNumbers(x), carry);
      JoinedChainCloses(rest, next);
      ChainTokensTail(rest, next);
      Group4([Link(c)], OperandTokens(JoinedOperand(x, carry)), ChainHead(JoinedChain(rest, next)),
             Parens(ChainTail(rest)));
    }
  }

  lemma ShortTokensTail(s: Short)
    requires !ShortCloses(s) && !ShortCloses(JoinedShort(s)) && Harmless(ShortTail(s))
    ensures ShortTokens(JoinedShort(s)) == ShortHead(JoinedShort(s)) + Parens(ShortTail(s))
  {
    hide Harmless, Carried, TailDecides, OperandTail, ChainTail, OperandHead, ChainHead, OperandCloses, OperandTokens,
      JoinedOperand, OperandNumbers;
    var x, rest := s.first, s.rest;
    JoinedCloses(x, "");
    var next := Carried(OperandNumbers(x), "");
    JoinedChainCloses(rest, next);
    if !OperandCloses(x) {
      OperandTailDecides(x);
      TailThenChain(OperandTail(x), rest);
      assert rest.End? && OperandTail(x) + ChainText(rest) == OperandTail(x);
      OperandTokensTail(x, "");
    } else {
      ChainTokensTail(rest, next);
    }
  }

  lemma {:induction false} ParensTokenized(t: string)
    requires Harmless(t)
    ensures Tokenized(t) == Some(Parens(t))
    decreases |t|
  {
    hide FirstToken;
    if t != "" {
      ParensTokenized(t[1..]);
      if t[0] == ')' {
        FirstTokenOf(RParen, t[1..]);
        assert TokenText(RParen) + t[1..] == t;
        assert !IsSpace(t[0]) && FirstToken(t) == Some(Lexed(RParen, 1));
      } else {
        assert IsSpace(t[0]);
        assert [] + Parens(t[1..]) == Parens(t[1..]);
      }
    }
  }

  /** Tokens that end with a quoted text are read whatever comes behind. */
  lemma {:induction false} TokenizedThen(ts: seq<Token>, t: string)
    requires IsTokenList(ts) && ts != [] && ts[|ts| - 1].Str?
    ensures Tokenized(TokensText(ts) + t) ==
            if Tokenized(t).None? then None else Some(ts + Tokenized(t).value)
    decreases |ts|
  {
    hide FirstToken, TokenText, IsToken;
    var rest := TokensText(ts[1..]) + t;
    assert IsToken(ts[0]);
    Group3(TokenText(ts[0]), TokensText(ts[1..]), t);
    if |ts| == 1 {
      assert ts[1..] == [];
      assert rest == t;
    } else {
      TokenizedThen(ts[1..], t);
      TokensTextStart(ts[1..]);
      assert MayFollow(ts[0], ts[1]);
      StartsSpecial(ts[1]);
      assert rest[0] == TokensText(ts[1..])[0];
    }
    FirstTokenOf(ts[0], rest);
    TokenThenRest(ts[0], rest);
    if Tokenized(t).Some? {
      Group3([ts[0]], ts[1..], Tokenized(t).value);
      assert [ts[0]] + ts[1..] == ts;
      assert |ts| == 1 ==> ts[1..] + Tokenized(t).value == Tokenized(t).value;
    }
  }

  lemma TokenThenRest(first: Token, rest: string)
    requires var s := TokenText(first) + rest;
             && s != "" && !IsSpace(s[0]) && FirstToken(s) == Some(Lexed(first, |TokenText(first)|))
             && s[|TokenText(first)|..] == rest
    ensures Tokenized(TokenText(first) + rest) ==
            if Tokenized(rest).None? then None else Some([first] + Tokenized(rest).value)
  {
    hide FirstToken, TokenText;
  }

  // ---------------------------------------------------------------------------------------
  // Tails in which a key comes
  // ---------------------------------------------------------------------------------------

  lemma {:induction false} KeyNotTokenized(t: string)
    requires KeyComes(t)
    ensures Tokenized(t) == None
    decreases |t|
  {
    hide FirstToken, WordLength;
    if t[0] == '~' {
      TildeIsNoToken(t);
    } else {
      KeyNotTokenized(t[1..]);
      assert t[1..][0] != '=';
      if t[0] == ' ' {
        assert IsSpace(t[0]);
      } else {
        OperatorIsToken(t);
        assert !IsSpace(t[0]) && t[FirstToken(t).value.used..] == t[1..];
      }
    }
  }

  lemma TildeIsNoToken(t: string)
    requires t != "" && t[0] == '~'
    ensures FirstToken(t) == None
  {
  }

  lemma OperatorIsToken(t: string)
    requires t != "" && IsJunk(t[0]) && t[0] != ' ' && (|t| > 1 ==> t[1] != '=')
    ensures FirstToken(t) == Some(Lexed(SpecialToken(t[0]), 1))
  {
  }

  /** The text up to the key and the rest. */
  lemma {:induction false} KeySplits(t: string) returns (k: nat)
    requires KeyComes(t)
    ensures k < |t| && t[k] == '~' && KeyComes(t[..k + 1]) && forall i :: 0 <= i < k ==> IsJunk(t[i])
    decreases |t|
  {
    if t[0] == '~' {
      k := 0;
      assert t[..1][0] == '~';
    } else {
      var j := KeySplits(t[1..]);
      k := j + 1;
      assert t[..k + 1][0] == t[0] && t[..k + 1][1..] == t[1..][..j + 1];
      assert forall i :: 0 < i < k ==> t[i] == t[1..][i - 1];
    }
  }

  predicate Lasting(p: string) {
    p != "" && p[|p| - 1] != ' '
  }

  lemma {:induction false} TrimmedKeeps(s: string, p: string)
    requires Lasting(p) && p <= s
    ensures p <= TrimmedRight(s)
    decreases |s|
  {
    if s[|s| - 1] == ' ' {
      assert p != s;
      TrimmedKeeps(s[..|s| - 1], p);
    }
  }

  /** Nothing that was written up to a character other than a space is ever taken back. */
  lemma StepKeeps(m: Machine, c: char, p: string)
    requires m.stack != [] && Lasting(p) && p <= m.out && !Step(m, c).Reject?
    ensures p <= Step(m, c).m.out
  {
    hide LongKey, TrimmedRight, IsShortKey, ShortKeyType;
    if m.stack[|m.stack| - 1] == InStr {
      TrimmedKeeps(m.out, p);
    }
  }

  lemma {:induction false} RunKeeps(m: Machine, rest: string, p: string)
    requires Shape(m.stack) && Lasting(p) && p <= m.out && Run(m, rest).Expanded?
    ensures p <= Run(m, rest).out
    decreases |rest|, Rank(m.stack)
  {
    hide Step, Lasting;
    var c := if rest == "" then '\0' else rest[0];
    StepShape(m, c);
    StepKeeps(m, c, p);
    match Step(m, c)
    case Reject(_, _) =>
    case Stay(m') => RunKeeps(m', rest, p);
    case Take(m') =>
      if rest != "" {
        RunKeeps(m', rest[1..], p);
      }
  }

  lemma {:induction false} CStringKeeps(s: string, p: string)
    requires p <= s && '\0' !in p
    ensures p <= CString(s)
    decreases |p|
  {
    if p != "" {
      assert s[0] == p[0] && p[0] in p;
      CStringKeeps(s[1..], p[1..]);
      assert p == [p[0]] + p[1..];
    }
  }

  // ---------------------------------------------------------------------------------------
  // The tokens before the open quote
  // ---------------------------------------------------------------------------------------

  lemma PrefixOfConcat<T>(a: seq<T>, b: seq<T>, c: seq<T>)
    requires b <= c
    ensures a + b <= a + c
  {
  }

  lemma PrefixThenMore<T>(a: seq<T>, b: seq<T>, c: seq<T>)
    requires a <= b
    ensures a <= b + c
  {
  }

  lemma {:induction false} OperandHeadPrefix(o: Operand)
    requires !OperandCloses(o)
    ensures OperandHead(o) <= OperandTokens(o)
    decreases o
  {
    match o
    case TermOperand(_, _) =>
    case Negated(_, x) =>
      OperandHeadPrefix(x);
      PrefixOfConcat([Not], OperandHead(x), OperandTokens(x));
    case Group(_, first, rest, _) =>
      var ts, cs := OperandTokens(first), ShortMeaning.ChainTokens(rest);
      Group4([LParen], ts, cs, [RParen]);
      if !OperandCloses(first) {
        OperandHeadPrefix(first);
        PrefixThenMore(OperandHead(first), ts, cs + [RParen]);
        PrefixOfConcat([LParen], OperandHead(first), ts + (cs + [RParen]));
      } else {
        ChainHeadPrefix(rest);
        PrefixThenMore(ChainHead(rest), cs, [RParen]);
        PrefixOfConcat(ts, ChainHead(rest), cs + [RParen]);
        PrefixOfConcat([LParen], ts + ChainHead(rest), ts + (cs + [RParen]));
      }
  }

  lemma {:induction false} ChainHeadPrefix(c: Chain)
    requires !ChainCloses(c)
    ensures ChainHead(c) <= ShortMeaning.ChainTokens(c)
    decreases c
  {
    hide OperandHead, OperandTokens, OperandCloses;
    var x, rest := c.operand, c.rest;
    var ts, cs := OperandTokens(x), ShortMeaning.ChainTokens(rest);
    Group3([Link(c)], ts, cs);
    if !OperandCloses(x) {
      OperandHeadPrefix(x);
      PrefixThenMore(OperandHead(x), ts, cs);
      PrefixOfConcat([Link(c)], OperandHead(x), ts + cs);
    } else {
      ChainHeadPrefix(rest);
      PrefixOfConcat(ts, ChainHead(rest), cs);
      PrefixOfConcat([Link(c)], ts + ChainHead(rest), ts + cs);
    }
  }

  lemma ShortHeadPrefix(s: Short)
    requires !ShortCloses(s)
    ensures ShortHead(s) <= ShortTokens(s)
  {
    hide OperandHead, ChainHead, OperandTokens, OperandCloses, ChainCloses;
    var ts, cs := OperandTokens(s.first), ShortMeaning.ChainTokens(s.rest);
    if !OperandCloses(s.first) {
      OperandHeadPrefix(s.first);
      PrefixThenMore(OperandHead(s.first), ts, cs);
    } else {
      ChainHeadPrefix(s.rest);
      PrefixOfConcat(ts, ChainHead(s.rest), cs);
    }
  }

  lemma ShortTokensNoNul(s: Short)
    requires ShortGrammar.IsShort(s)
    ensures NoNul(ShortTokens(s))
  {
    hide NoNul, OperandTokens, IsOperand, IsChain;
    OperandHasNoNul(s.first);
    ChainHasNoNul(s.rest);
    NoNulConcat(OperandTokens(s.first), ShortMeaning.ChainTokens(s.rest));
  }

  lemma ShortHeadIs(s: Short)
    requires ShortGrammar.IsShort(s) && !ShortCloses(s)
    ensures IsTokenList(ShortHead(s)) && '\0' !in TokensText(ShortHead(s))
  {
    hide ShortHead, ShortTokens, NoNul, IsToken, TokensText, TokenText, MayFollow, LongShort;
    var head, all := ShortHead(s), ShortTokens(s);
    ShortHeadPrefix(s);
    ShortTokensText(s);
    ShortTokensNoNul(s);
    assert head == all[0..|head|];
    NoNulPart(all, 0, |head|);
    TokensHaveNoNul(head);
    assert forall i :: 0 <= i < |head| ==> head[i] == all[i];
  }

  // ---------------------------------------------------------------------------------------
  // What is read
  // ---------------------------------------------------------------------------------------

  lemma TextIsShort(s: Short)
    ensures IsShortText(ShortText(s))
  {
    hide OperandText, ChainText, IsShortText, Spaces;
    OperandIsShort(s.first, ChainText(s.rest));
    SpacesThenShort(s.pad, OperandText(s.first) + ChainText(s.rest));
  }

  lemma FilterReadShort(s: Short)
    requires !HasControl(ShortText(s))
    ensures FilterRead(ShortText(s)) ==
            match Run(START, ShortText(s)) case Expanded(out, _) => ParsedText(CString(out)) case Rejected(_, _) => None
  {
    hide Run, ShortText, HasControl, IsShortText, ParsedText, CString;
    TextIsShort(s);
  }

  /** Where every quote closes, the filter read is the one with left-over digits put before the next
      numbers. */
  lemma ClosedReads(s: Short)
    requires ShortGrammar.IsShort(s) && ShortCloses(s) && !HasControl(ShortText(s))
    ensures ShortGrammar.IsShort(JoinedShort(s)) && FilterRead(ShortText(s)) == Some(ShortExpr(JoinedShort(s)))
  {
    hide Run, ShortText, HasControl, ParsedText, CString, LongShort, ShortExpr, FilterRead, JoinedShort, ShortCloses;
    var j := JoinedShort(s);
    JoinedIsShort(s);
    FilterReadShort(s);
    ShortRun(s);
    JoinedLong(s);
    LongHasNoNul(j);
    CStringOf(LongShort(j, true));
    IntendedParses(j);
  }

  /** A quote that stays open does no harm as long as only spaces and parentheses follow. */
  lemma HarmlessReads(s: Short)
    requires ShortGrammar.IsShort(s) && !ShortCloses(s) && !HasControl(ShortText(s)) && Harmless(ShortTail(s))
    ensures ShortGrammar.IsShort(JoinedShort(s)) && FilterRead(ShortText(s)) == Some(ShortExpr(JoinedShort(s)))
  {
    hide Run, ShortText, HasControl, CString, LongShort, ShortExpr, FilterRead, JoinedShort, ShortCloses, ShortTail,
      ShortHead, ShortTokens, TokensText, IsTokenList, Tokenized, ParsedLevel, Step, Parens;
    var j, tail := JoinedShort(s), ShortTail(s);
    JoinedIsShort(s);
    FilterReadShort(s);
    var m := OpenShortRun(s);
    assert tail + "" == tail;
    var m' := QuoteCharsRun(m, tail, "");
    OpenEnd(m');
    ShortHeadIs(j);
    var out := TokensText(ShortHead(j)) + tail;
    assert '\0' !in out;
    CStringOf(out);
    TokenizedThen(ShortHead(j), tail);
    ParensTokenized(tail);
    ShortTokensTail(s);
    ShortTokensParse(j);
  }

  lemma OpenEnd(m: Machine)
    requires m.stack == QUOTE_STACK
    ensures Run(m, "") == Expanded(m.out + ['\0'], Run(m, "").high)
  {
    StepInQuote(m, '\0');
  }

  /** Where a key comes behind the open quote, nothing is read at all. */
  lemma KeyReadsNothing(s: Short)
    requires ShortGrammar.IsShort(s) && !ShortCloses(s) && !HasControl(ShortText(s)) && KeyComes(ShortTail(s))
    ensures FilterRead(ShortText(s)) == None
  {
    hide Run, ShortText, HasControl, CString, ShortExpr, FilterRead, JoinedShort, ShortCloses, ShortTail,
      ShortHead, ShortTokens, TokensText, IsTokenList, Tokenized, Step, KeyComes;
    var j, tail := JoinedShort(s), ShortTail(s);
    JoinedIsShort(s);
    FilterReadShort(s);
    var m := OpenShortRun(s);
    var k := KeySplits(tail);
    var front, more := tail[..k + 1], tail[k + 1..];
    assert front + more == tail;
    var m' := QuoteCharsRun(m, front, more);
    ShortHeadIs(j);
    var head := TokensText(ShortHead(j));
    var p := head + front;
    assert p[|p| - 1] == '~';
    assert '\0' !in p;
    if Run(m', more).Expanded? {
      RunKeeps(m', more, p);
      var read := CString(Run(m', more).out);
      CStringKeeps(Run(m', more).out, p);
      var rest := read[|p|..];
      assert read == head + (front + rest);
      KeyComesFirst(front, rest);
      KeyNotTokenized(front + rest);
      TokenizedThen(ShortHead(j), front + rest);
    }
  }

  lemma ControlReadsNothing(s: string)
    requires HasControl(s)
    ensures FilterRead(s) == None
  {
  }

  /** No digits are left over that change a number, and behind a quoted argument that ends in a
      backslash there are only spaces and closing parentheses. */
  predicate ReadRight(s: Short)
    requires ShortGrammar.IsShort(s)
  {
    NumbersAre(s);
    KeepsValues(Numbers(s), "") && (ShortCloses(s) || Harmless(ShortTail(s)))
  }

  /** A short filter is expanded, tokenized and parsed to the tree of its grammar exactly when it has
      no control characters, no digits left over from a closed range change a number, and nothing
      but spaces and closing parentheses follows a quoted argument that ends in a backslash. With
      numbers that fit an integer that tree holds of exactly the tracks the grammar describes. */
  lemma ShortFilterMeans(fold: Glob.Fold, s: Short, t: Track)
    requires ShortGrammar.IsShort(s)
    ensures FilterRead(ShortText(s)) == Some(ShortExpr(s)) <==> !HasControl(ShortText(s)) && ReadRight(s)
    ensures OperandFits(s.first) && ChainFits(s.rest) ==>
              (Holds(fold, ShortExpr(s), t) <==> ShortHolds(fold, s, t))
  {
    hide ShortText, HasControl, FilterRead, JoinedShort, ShortCloses, ShortTail, KeepsValues, Numbers, KeyComes, Harmless,
      OperandExpr, ChainExpr, OperandHolds, ShortMeaning.ChainHolds, Holds, IsOperand, IsChain, OperandFits, ChainFits;
    JoinedExprIff(s);
    if HasControl(ShortText(s)) {
      ControlReadsNothing(ShortText(s));
    } else if ShortCloses(s) {
      ClosedReads(s);
    } else {
      ShortTailDecides(s);
      if Harmless(ShortTail(s)) {
        HarmlessReads(s);
      } else {
        KeyReadsNothing(s);
      }
    }
    if OperandFits(s.first) && ChainFits(s.rest) {
      OperandExprHolds(fold, s.first, t);
      ChainExprHolds(fold, OperandExpr(s.first), s.rest, t);
    }
  }

  /** Without a number after a closed range and without a backslash at the end of a quoted argument
      nothing goes wrong. */
  lemma UsuallyReadRight(s: Short)
    requires ShortGrammar.IsShort(s) && NoNumberAfterRange(Numbers(s)) && ShortCloses(s)
    ensures ReadRight(s)
  {
    hide NoNumberAfterRange, KeepsValues, Undisturbed, Numbers;
    NumbersAre(s);
    UndisturbedIff(Numbers(s), false);
    UndisturbedKeeps(Numbers(s), "");
  }

  /** `x` and two backslashes. */
  const TWO_BACKSLASHES := ['x', '\\', '\\']

  /** `~a"x\\"`, in quotes the text above. */
  function ArtistTerm(): Operand {
    TermOperand(StrTerm('a', 0, Quoted(TWO_BACKSLASHES)), 0)
  }

  lemma ArtistTermIs()
    ensures IsOperand(ArtistTerm()) && !OperandCloses(ArtistTerm())
    ensures OperandText(ArtistTerm()) == "~a\"x\\\\\"" && OperandTail(ArtistTerm()) == ""
  {
    var body := TWO_BACKSLASHES + "\"";
    assert body[1..][2..] == "\"";
    assert QuotedLength("\"") == Some(0);
    assert QuotedLength(body[1..]) == Some(2);
    assert QuotedLength(body) == Some(3);
    var arg := StrArgText(Quoted(TWO_BACKSLASHES));
    assert arg == "\"x\\\\\"";
    assert Spaces(0) == "" && "" + arg + "" == arg;
    assert "~" + (['a'] + arg) == "~a\"x\\\\\"";
  }

  lemma NoControl(s: string)
    requires forall i :: 0 <= i < |s| ==> s[i] >= ' '
    ensures !HasControl(s)
  {
  }

  /** `~a"x\\"` alone is read, `~a"x\\"~s` is not: the expander takes `~s` for a part of the text. */
  lemma BackslashBeforeQuote()
    ensures FilterRead("~a\"x\\\\\"") == Some(LeafExpr(StrLeaf("artist", OpEq, TWO_BACKSLASHES)))
    ensures FilterRead("~a\"x\\\\\"~s") == None
  {
    hide FilterRead, OperandText, OperandTail, OperandCloses, IsOperand, JoinedShort, HasControl, KeepsValues;
    var x, y := ArtistTerm(), TermOperand(BoolTerm('s'), 0);
    var alone, both := Short(0, x, End), Short(0, x, Beside(y, End));
    ArtistTermIs();
    StreamTerm();
    assert Spaces(0) == "";
    assert ShortText(alone) == "~a\"x\\\\\"";
    assert ShortText(both) == "~a\"x\\\\\"~s";
    NoControl("~a\"x\\\\\"");
    NoControl("~a\"x\\\\\"~s");
    HarmlessReads(alone);
    JoinedExprIff(alone);
    AloneKeeps(alone);
    assert ShortTail(both) == "" + ChainText(Beside(y, End));
    KeyReadsNothing(both);
  }

  lemma StreamTerm()
    ensures var y := TermOperand(BoolTerm('s'), 0);
            IsOperand(y) && OperandText(y) == "~s" && ChainText(Beside(y, End)) == "~s" && KeyComes("~s")
  {
    assert Spaces(0) == "";
  }

  lemma AloneKeeps(s: Short)
    requires s == Short(0, ArtistTerm(), End) && ShortGrammar.IsShort(s)
    ensures Numbers(s) == [] && KeepsValues([], "")
    ensures ShortExpr(s) == LeafExpr(StrLeaf("artist", OpEq, TWO_BACKSLASHES))
  {
  }
}
