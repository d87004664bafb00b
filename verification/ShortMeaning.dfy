/** What short filters mean: their long text, read by the ordinary parser, evaluates as the
    short grammar says. */
module ShortMeaning {
  import Glob
  import opened Basics
  import opened FilterTokens
  import opened FilterExpr
  import opened ShortFilter
  import opened ShortGrammar

  // ---------------------------------------------------------------------------------------
  // When digits left over from a range do no harm
  // ---------------------------------------------------------------------------------------

  /** The numeric arguments in reading order. */
  function OperandNumbers(o: Operand): seq<IntArg> {
    match o
    case Negated(_, x) => OperandNumbers(x)
    case Group(_, first, rest, _) => OperandNumbers(first) + ChainNumbers(rest)
    case TermOperand(term, _) => if term.IntTerm? then [term.number] else []
  }

  function ChainNumbers(c: Chain): seq<IntArg> {
    match c
    case End => []
    case Beside(x, rest) => OperandNumbers(x) + ChainNumbers(rest)
    case Either(_, x, rest) => OperandNumbers(x) + ChainNumbers(rest)
  }

  function Numbers(s: Short): seq<IntArg> {
    OperandNumbers(s.first) + ChainNumbers(s.rest)
  }

  predicate DigitLed(a: IntArg) {
    a.Exactly? || a.AtLeast? || a.Between?
  }

  /** No argument that begins with a digit comes after a closed range. */
  predicate NoNumberAfterRange(ns: seq<IntArg>) {
    forall i, j :: 0 <= i < j < |ns| && ns[i].Between? ==> !DigitLed(ns[j])
  }

  function LeftOver(a: IntArg, before: bool): bool {
    match a
    case Between(_, _) => true
    case Exactly(_) => false
    case AtLeast(_) => false
    case _ => before
  }

  function LeftOverAfter(ns: seq<IntArg>, before: bool): bool
    decreases |ns|
  {
    if ns == [] then before else LeftOverAfter(ns[1..], LeftOver(ns[0], before))
  }

  /** No number is read while digits are left over. */
  predicate Undisturbed(ns: seq<IntArg>, before: bool)
    decreases |ns|
  {
    ns == [] || ((before ==> !DigitLed(ns[0])) && Undisturbed(ns[1..], LeftOver(ns[0], before)))
  }

  lemma {:induction false} UndisturbedConcat(a: seq<IntArg>, b: seq<IntArg>, before: bool)
    ensures Undisturbed(a + b, before) <==> Undisturbed(a, before) && Undisturbed(b, LeftOverAfter(a, before))
    ensures LeftOverAfter(a + b, before) == LeftOverAfter(b, LeftOverAfter(a, before))
    decreases |a|
  {
    if a == [] {
      assert a + b == b;
    } else {
      assert (a + b)[1..] == a[1..] + b;
      UndisturbedConcat(a[1..], b, LeftOver(a[0], before));
    }
  }

  lemma {:induction false} UndisturbedIff(ns: seq<IntArg>, before: bool)
    ensures Undisturbed(ns, before) <==>
            NoNumberAfterRange(ns) && (before ==> forall j :: 0 <= j < |ns| ==> !DigitLed(ns[j]))
    decreases |ns|
  {
    if ns != [] {
      var tail := ns[1..];
      UndisturbedIff(tail, LeftOver(ns[0], before));
      if Undisturbed(ns, before) {
        forall i, j | 0 <= i < j < |ns| && ns[i].Between?
          ensures !DigitLed(ns[j])
        {
          assert ns[j] == tail[j - 1];
          assert i > 0 ==> ns[i] == tail[i - 1];
        }
        forall j | 0 <= j < |ns| && before
          ensures !DigitLed(ns[j])
        {
          assert j > 0 ==> ns[j] == tail[j - 1];
        }
      }
      if NoNumberAfterRange(ns) {
        forall i, j | 0 <= i < j < |tail| && tail[i].Between?
          ensures !DigitLed(tail[j])
        {
          assert tail[i] == ns[i + 1] && tail[j] == ns[j + 1];
        }
        assert forall j :: 0 <= j < |tail| ==> tail[j] == ns[j + 1];
      }
    }
  }

  /** The text written with what is left over, against the text written with a cleared one. */
  predicate Compares(actual: Long, intended: Long, ns: seq<IntArg>, before: bool) {
    && intended.carry == ""
    && |actual.text| >= |intended.text|
    && (Undisturbed(ns, before) ==>
          actual.text == intended.text && (actual.carry != "" <==> LeftOverAfter(ns, before)))
    && (!Undisturbed(ns, before) ==> |actual.text| > |intended.text|)
  }

  lemma TermCompares(t: Term, carry: string)
    requires IsTerm(t)
    ensures Compares(LongTerm(t, carry, false), LongTerm(t, "", true),
                     if t.IntTerm? then [t.number] else [], carry != "")
  {
    hide LongKey;
    if t.IntTerm? {
      var ns := [t.number];
      assert ns[1..] == [];
      assert Undisturbed(ns, carry != "") <==> carry == "" || !DigitLed(t.number);
      assert LeftOverAfter(ns, carry != "") == LeftOver(t.number, carry != "");
      assert carry == "" ==> LongIntTail(LongKey(t.key), t.number, carry) == LongIntTail(LongKey(t.key), t.number, "");
    }
  }

  lemma JoinCompares(a1: Long, b1: Long, n1: seq<IntArg>, a2: Long, b2: Long, n2: seq<IntArg>,
                     before: bool, open: string, close: string)
    requires Compares(a1, b1, n1, before)
    requires Compares(a2, b2, n2, a1.carry != "")
    ensures Compares(Long(open + a1.text + a2.text + close, a2.carry),
                     Long(open + b1.text + b2.text + close, b2.carry), n1 + n2, before)
  {
    UndisturbedConcat(n1, n2, before);
  }

  lemma {:induction false} OperandCompares(o: Operand, carry: string)
    requires IsOperand(o)
    ensures Compares(LongOperand(o, carry, false), LongOperand(o, "", true), OperandNumbers(o), carry != "")
    decreases o
  {
    hide Undisturbed, LeftOverAfter;
    match o
    case TermOperand(term, _) => TermCompares(term, carry);
    case Negated(_, x) => OperandCompares(x, carry);
    case Group(_, first, rest, _) =>
      OperandCompares(first, carry);
      var l, k := LongOperand(first, carry, false), LongOperand(first, "", true);
      ChainCompares(rest, l.carry);
      JoinCompares(l, k, OperandNumbers(first), LongChain(rest, l.carry, false), LongChain(rest, "", true),
                   ChainNumbers(rest), carry != "", "(", ")");
  }

  lemma {:induction false} ChainCompares(c: Chain, carry: string)
    requires IsChain(c)
    ensures Compares(LongChain(c, carry, false), LongChain(c, "", true), ChainNumbers(c), carry != "")
    decreases c, 1
  {
    match c
    case End =>
    case Beside(x, rest) => LinkCompares("&", c, x, rest, carry);
    case Either(_, x, rest) => LinkCompares("|", c, x, rest, carry);
  }

  lemma {:induction false} LinkCompares(op: string, c: Chain, x: Operand, rest: Chain, carry: string)
    requires IsOperand(x) && IsChain(rest)
    requires !c.End? && c.operand == x && c.rest == rest
    ensures var l, k := LongOperand(x, carry, false), LongOperand(x, "", true);
            var r, q := LongChain(rest, l.carry, false), LongChain(rest, k.carry, true);
            Compares(Long(op + l.text + r.text, r.carry), Long(op + k.text + q.text, q.carry),
                     OperandNumbers(x) + ChainNumbers(rest), carry != "")
    decreases c, 0
  {
    hide Undisturbed, LeftOverAfter;
    OperandCompares(x, carry);
    var l, k := LongOperand(x, carry, false), LongOperand(x, "", true);
    ChainCompares(rest, l.carry);
    var r, q := LongChain(rest, l.carry, false), LongChain(rest, k.carry, true);
    JoinCompares(l, k, OperandNumbers(x), r, q, ChainNumbers(rest), carry != "", op, "");
    assert op + l.text + r.text + "" == op + l.text + r.text;
    assert op + k.text + q.text + "" == op + k.text + q.text;
  }

  /** The expander writes the intended long text exactly when no number that begins with a
      digit follows a closed range. */
  lemma IntendedIff(s: Short)
    requires ShortGrammar.IsShort(s)
    ensures LongShort(s, false) == LongShort(s, true) <==> NoNumberAfterRange(Numbers(s))
  {
    hide LongOperand, LongChain, OperandNumbers, ChainNumbers, IsOperand, IsChain, Undisturbed, LeftOverAfter,
      NoNumberAfterRange;
    var l, k := LongOperand(s.first, "", false), LongOperand(s.first, "", true);
    OperandCompares(s.first, "");
    assert k.carry == "";
    var r, q := LongChain(s.rest, l.carry, false), LongChain(s.rest, "", true);
    ChainCompares(s.rest, l.carry);
    JoinCompares(l, k, OperandNumbers(s.first), r, q, ChainNumbers(s.rest), false, "", "");
    UndisturbedIff(Numbers(s), false);
    assert "" + l.text + r.text + "" == l.text + r.text;
    assert "" + k.text + q.text + "" == k.text + q.text;
  }

  function DateTerm(a: IntArg): Operand {
    TermOperand(IntTerm('y', 0, a), 0)
  }

  lemma DateText(a: IntArg)
    requires IsIntArg(a)
    ensures IsOperand(DateTerm(a)) && OperandCloses(DateTerm(a))
    ensures OperandText(DateTerm(a)) == "~y" + IntArgText(a)
  {
    hide IntArgText, IsIntArg;
    var t := IntArgText(a);
    assert Spaces(0) + t + Spaces(0) == t;
    assert "~" + (['y'] + (Spaces(0) + t + Spaces(0))) == "~y" + t;
  }

  lemma DateLong(a: IntArg, carry: string)
    ensures LongOperand(DateTerm(a), carry, false) ==
            Long("(date" + LongIntTail("date", a, carry), CarryAfter(a, carry, false))
  {
    hide LongIntTail, CarryAfter;
    assert "(" + "date" == "(date";
  }

  lemma TwoDates()
    ensures LongIntTail("date", Between("1", "2"), "") == ">=1&date<=2)"
    ensures LongIntTail("date", Exactly("3"), "2") == "=23)"
  {
    assert ">=" + "" + "1" + "&" == ">=1&";
    assert ">=1&" + "date" + "<=" + "2" + ")" == ">=1&date<=2)";
    assert "=" + "2" + "3" + ")" == "=23)";
  }

  /** `~y1-2~y3`: the second date becomes 23. */
  lemma LeftOverDigits()
    ensures Run(START, "~y1-2~y3").Expanded?
    ensures Run(START, "~y1-2~y3").out == "(date>=1&date<=2)&(date=23)" + ['\0']
  {
    hide Run, OperandText, LongOperand, IsOperand, OperandCloses, LongIntTail, IntArgText;
    var x, y := DateTerm(Between("1", "2")), DateTerm(Exactly("3"));
    var s := Short(0, x, Beside(y, End));
    DateText(Between("1", "2"));
    DateText(Exactly("3"));
    DateLong(Between("1", "2"), "");
    DateLong(Exactly("3"), "2");
    TwoDates();
    LeftOverText(s);
    ShortRun(s);
  }

  lemma LeftOverText(s: Short)
    requires s == Short(0, DateTerm(Between("1", "2")), Beside(DateTerm(Exactly("3")), End))
    requires OperandText(s.first) == "~y" + IntArgText(Between("1", "2"))
    requires OperandText(s.rest.operand) == "~y" + IntArgText(Exactly("3"))
    requires LongOperand(s.first, "", false) == Long("(date" + ">=1&date<=2)", "2")
    requires LongOperand(s.rest.operand, "2", false).text == "(date" + "=23)"
    ensures ShortText(s) == "~y1-2~y3"
    ensures LongShort(s, false) == "(date>=1&date<=2)&(date=23)"
  {
    hide OperandText, LongOperand;
    LeftOverInput(s);
    LeftOverLong(s);
  }

  lemma LeftOverInput(s: Short)
    requires s == Short(0, DateTerm(Between("1", "2")), Beside(DateTerm(Exactly("3")), End))
    requires OperandText(s.first) == "~y" + IntArgText(Between("1", "2"))
    requires OperandText(s.rest.operand) == "~y" + IntArgText(Exactly("3"))
    ensures ShortText(s) == "~y1-2~y3"
  {
    hide OperandText;
    assert Spaces(0) == "";
    assert IntArgText(Between("1", "2")) == "1-2";
    assert ChainText(s.rest) == "~y3";
    assert "~y" + "1-2" + "~y3" == "~y1-2~y3";
  }

  lemma LeftOverLong(s: Short)
    requires s == Short(0, DateTerm(Between("1", "2")), Beside(DateTerm(Exactly("3")), End))
    requires LongOperand(s.first, "", false) == Long("(date" + ">=1&date<=2)", "2")
    requires LongOperand(s.rest.operand, "2", false).text == "(date" + "=23)"
    ensures LongShort(s, false) == "(date>=1&date<=2)&(date=23)"
  {
    hide LongOperand;
    assert LongChain(s.rest, "2", false).text == "&" + ("(date" + "=23)") + "";
  }

  // ---------------------------------------------------------------------------------------
  // The filter that is read: digits left over are put before the next number
  // ---------------------------------------------------------------------------------------

  function JoinedNumber(a: IntArg, carry: string): IntArg {
    match a
    case Exactly(ds) => Exactly(carry + ds)
    case AtLeast(ds) => AtLeast(carry + ds)
    case Between(low, high) => Between(carry + low, high)
    case _ => a
  }

  function JoinedTerm(t: Term, carry: string): Term {
    if t.IntTerm? then IntTerm(t.key, t.pad, JoinedNumber(t.number, carry)) else t
  }

  /** What is left over after numbers. */
  function Carried(ns: seq<IntArg>, carry: string): string
    decreases |ns|
  {
    if ns == [] then carry else Carried(ns[1..], CarryAfter(ns[0], carry, false))
  }

  function JoinedOperand(o: Operand, carry: string): Operand {
    match o
    case Negated(pad, x) => Negated(pad, JoinedOperand(x, carry))
    case Group(pad, first, rest, close) =>
      Group(pad, JoinedOperand(first, carry), JoinedChain(rest, Carried(OperandNumbers(first), carry)), close)
    case TermOperand(term, pad) => TermOperand(JoinedTerm(term, carry), pad)
  }

  function JoinedChain(c: Chain, carry: string): Chain {
    match c
    case End => End
    case Beside(x, rest) => Beside(JoinedOperand(x, carry), JoinedChain(rest, Carried(OperandNumbers(x), carry)))
    case Either(pad, x, rest) =>
      Either(pad, JoinedOperand(x, carry), JoinedChain(rest, Carried(OperandNumbers(x), carry)))
  }

  function JoinedShort(s: Short): Short {
    Short(s.pad, JoinedOperand(s.first, ""), JoinedChain(s.rest, Carried(OperandNumbers(s.first), "")))
  }

  lemma {:induction false} CarriedConcat(a: seq<IntArg>, b: seq<IntArg>, carry: string)
    ensures Carried(a + b, carry) == Carried(b, Carried(a, carry))
    decreases |a|
  {
    if a == [] {
      assert a + b == b;
    } else {
      assert (a + b)[1..] == a[1..] + b;
      CarriedConcat(a[1..], b, CarryAfter(a[0], carry, false));
    }
  }

  lemma JoinedTermLong(t: Term, carry: string)
    ensures LongTerm(t, carry, false).text == LongTerm(JoinedTerm(t, carry), "", true).text
    ensures LongTerm(t, carry, false).carry == Carried(if t.IntTerm? then [t.number] else [], carry)
  {
    hide LongKey, LongStr;
    if t.IntTerm? {
      assert [t.number][1..] == [];
      JoinedTail(LongKey(t.key), t.number, carry);
    }
  }

  lemma JoinedTail(key: string, a: IntArg, carry: string)
    ensures LongIntTail(key, a, carry) == LongIntTail(key, JoinedNumber(a, carry), "")
  {
    match a
    case Exactly(ds) => assert "=" + carry + ds == "=" + "" + (carry + ds);
    case AtLeast(ds) => assert ">=" + carry + ds == ">=" + "" + (carry + ds);
    case Between(low, _) => assert ">=" + carry + low == ">=" + "" + (carry + low);
    case _ =>
  }

  /** What the expander writes for an operand is what is intended for the joined one. */
  lemma {:induction false} JoinedOperandLong(o: Operand, carry: string)
    requires IsOperand(o)
    ensures LongOperand(o, carry, false).text == LongOperand(JoinedOperand(o, carry), "", true).text
    ensures LongOperand(o, carry, false).carry == Carried(OperandNumbers(o), carry)
    ensures LongOperand(JoinedOperand(o, carry), "", true).carry == ""
    decreases o
  {
    hide LongTerm, Carried, JoinedTerm;
    match o
    case TermOperand(term, _) =>
      JoinedTermLong(term, carry);
      ClearedTerm(JoinedTerm(term, carry));
    case Negated(_, x) => JoinedOperandLong(x, carry);
    case Group(_, first, rest, _) =>
      JoinedOperandLong(first, carry);
      JoinedChainLong(rest, Carried(OperandNumbers(first), carry));
      CarriedConcat(OperandNumbers(first), ChainNumbers(rest), carry);
  }

  lemma ClearedTerm(t: Term)
    ensures LongTerm(t, "", true).carry == ""
  {
    hide LongKey;
  }

  lemma {:induction false} JoinedChainLong(c: Chain, carry: string)
    requires IsChain(c)
    ensures LongChain(c, carry, false).text == LongChain(JoinedChain(c, carry), "", true).text
    ensures LongChain(c, carry, false).carry == Carried(ChainNumbers(c), carry)
    ensures LongChain(JoinedChain(c, carry), "", true).carry == ""
    decreases c
  {
    hide Carried, JoinedOperand, LongOperand, OperandNumbers;
    match c
    case End => assert Carried([], carry) == carry by { NothingCarried(carry); }
    case Beside(x, rest) =>
      JoinedOperandLong(x, carry);
      JoinedChainLong(rest, Carried(OperandNumbers(x), carry));
      CarriedConcat(OperandNumbers(x), ChainNumbers(rest), carry);
    case Either(_, x, rest) =>
      JoinedOperandLong(x, carry);
      JoinedChainLong(rest, Carried(OperandNumbers(x), carry));
      CarriedConcat(OperandNumbers(x), ChainNumbers(rest), carry);
  }

  lemma NothingCarried(carry: string)
    ensures Carried([], carry) == carry
  {
  }

  lemma JoinedLong(s: Short)
    requires ShortGrammar.IsShort(s)
    ensures LongShort(s, false) == LongShort(JoinedShort(s), true)
  {
    hide LongOperand, LongChain, JoinedOperand, JoinedChain, IsOperand, IsChain, Carried;
    JoinedOperandLong(s.first, "");
    JoinedChainLong(s.rest, Carried(OperandNumbers(s.first), ""));
  }

  lemma {:induction false} CarriedDigits(ns: seq<IntArg>, carry: string)
    requires AllDigits(carry) && forall i :: 0 <= i < |ns| ==> IsIntArg(ns[i])
    ensures AllDigits(Carried(ns, carry))
    decreases |ns|
  {
    if ns != [] {
      CarriedDigits(ns[1..], CarryAfter(ns[0], carry, false));
    }
  }

  lemma {:induction false} JoinedIsOperand(o: Operand, carry: string)
    requires IsOperand(o) && AllDigits(carry)
    ensures IsOperand(JoinedOperand(o, carry)) && AllDigits(Carried(OperandNumbers(o), carry))
    ensures OperandCloses(JoinedOperand(o, carry)) == OperandCloses(o)
    decreases o
  {
    hide IsStrArg, Carried;
    match o
    case TermOperand(term, _) =>
      if term.IntTerm? {
        CarriedDigits([term.number], carry);
      } else {
        NothingCarried(carry);
      }
    case Negated(_, x) => JoinedIsOperand(x, carry);
    case Group(_, first, rest, _) =>
      JoinedIsOperand(first, carry);
      JoinedIsChain(rest, Carried(OperandNumbers(first), carry));
      CarriedConcat(OperandNumbers(first), ChainNumbers(rest), carry);
  }

  lemma {:induction false} JoinedIsChain(c: Chain, carry: string)
    requires IsChain(c) && AllDigits(carry)
    ensures IsChain(JoinedChain(c, carry)) && AllDigits(Carried(ChainNumbers(c), carry))
    ensures ChainCloses(JoinedChain(c, carry)) == ChainCloses(c)
    decreases c
  {
    hide Carried, IsOperand, OperandCloses, OperandNumbers, JoinedOperand;
    match c
    case End => NothingCarried(carry);
    case Beside(x, rest) =>
      JoinedIsOperand(x, carry);
      JoinedIsChain(rest, Carried(OperandNumbers(x), carry));
      CarriedConcat(OperandNumbers(x), ChainNumbers(rest), carry);
    case Either(_, x, rest) =>
      JoinedIsOperand(x, carry);
      JoinedIsChain(rest, Carried(OperandNumbers(x), carry));
      CarriedConcat(OperandNumbers(x), ChainNumbers(rest), carry);
  }

  lemma JoinedIsShort(s: Short)
    requires ShortGrammar.IsShort(s)
    ensures ShortGrammar.IsShort(JoinedShort(s)) && ShortCloses(JoinedShort(s)) == ShortCloses(s)
  {
    hide IsOperand, IsChain, OperandCloses, ChainCloses, JoinedOperand, JoinedChain, Carried;
    JoinedIsOperand(s.first, "");
    JoinedIsChain(s.rest, Carried(OperandNumbers(s.first), ""));
  }

  // ---------------------------------------------------------------------------------------
  // The tokens of the intended long text
  // ---------------------------------------------------------------------------------------

  function NumberTokens(key: string, a: IntArg): seq<Token> {
    match a
    case Below(ds) => [LParen, Key(key), Lt, IntOrKey(ds), RParen]
    case Above(ds) => [LParen, Key(key), Gt, IntOrKey(ds), RParen]
    case AtMost(ds) => [LParen, Key(key), Le, IntOrKey(ds), RParen]
    case Exactly(ds) => [LParen, Key(key), Eq, IntOrKey(ds), RParen]
    case AtLeast(ds) => [LParen, Key(key), Ge, IntOrKey(ds), RParen]
    case Between(low, high) =>
      [LParen, Key(key), Ge, IntOrKey(low), And, Key(key), Le, IntOrKey(high), RParen]
  }

  function StrPattern(a: StrArg): string {
    match a
    case Quoted(text) => text
    case Bare(text) => "*" + text + "*"
  }

  function TermTokens(t: Term): seq<Token> {
    match t
    case BoolTerm(key) => [Key(LongKey(key))]
    case IntTerm(key, _, number) => NumberTokens(LongKey(key), number)
    case StrTerm(key, _, str) => [Key(LongKey(key)), Eq, Str(StrPattern(str))]
  }

  function OperandTokens(o: Operand): (ts: seq<Token>)
    ensures ts != [] && (ts[0] == Not || ts[0] == LParen || ts[0].Key?)
  {
    match o
    case Negated(_, x) => [Not] + OperandTokens(x)
    case Group(_, first, rest, _) => [LParen] + OperandTokens(first) + ChainTokens(rest) + [RParen]
    case TermOperand(term, _) => TermTokens(term)
  }

  function ChainTokens(c: Chain): seq<Token> {
    match c
    case End => []
    case Beside(x, rest) => [And] + OperandTokens(x) + ChainTokens(rest)
    case Either(_, x, rest) => [Or] + OperandTokens(x) + ChainTokens(rest)
  }

  lemma {:induction false} TokensTextConcat(a: seq<Token>, b: seq<Token>)
    ensures TokensText(a + b) == TokensText(a) + TokensText(b)
    decreases |a|
  {
    hide TokenText;
    if a == [] {
      assert a + b == b;
    } else {
      assert (a + b)[1..] == a[1..] + b;
      TokensTextConcat(a[1..], b);
    }
  }

  lemma TokensTextOne(t: Token)
    ensures TokensText([t]) == TokenText(t)
  {
    hide TokenText;
    assert [t][1..] == [];
    assert TokenText(t) + "" == TokenText(t);
  }

  lemma TokensTextFour(a: Token, b: Token, c: Token, d: Token)
    ensures TokensText([a, b, c, d]) == TokenText(a) + TokenText(b) + TokenText(c) + TokenText(d)
  {
    hide TokenText, TokensText;
    TokensTextConcat([a, b, c], [d]);
    TokensTextConcat([a, b], [c]);
    TokensTextConcat([a], [b]);
    TokensTextOne(a);
    TokensTextOne(b);
    TokensTextOne(c);
    TokensTextOne(d);
    assert [a] + [b] == [a, b] && [a, b] + [c] == [a, b, c] && [a, b, c] + [d] == [a, b, c, d];
  }

  lemma NumberText(key: string, a: IntArg)
    ensures TokensText(NumberTokens(key, a)) == "(" + key + LongIntTail(key, a, "")
  {
    hide TokensText;
    match a {
      case Between(low, high) =>
        TokensTextFour(LParen, Key(key), Ge, IntOrKey(low));
        TokensTextFour(And, Key(key), Le, IntOrKey(high));
        TokensTextOne(RParen);
        var x, y := [LParen, Key(key), Ge, IntOrKey(low)], [And, Key(key), Le, IntOrKey(high)];
        assert NumberTokens(key, a) == x + y + [RParen];
        TokensTextConcat(x + y, [RParen]);
        TokensTextConcat(x, y);
        RangeConcat(key, low, high);
      case Below(ds) => OneBoundText(key, Lt, ds);
      case Above(ds) => OneBoundText(key, Gt, ds);
      case AtMost(ds) => OneBoundText(key, Le, ds);
      case Exactly(ds) => OneBoundText(key, Eq, ds); assert "=" + "" + ds == "=" + ds;
      case AtLeast(ds) => OneBoundText(key, Ge, ds); assert ">=" + "" + ds == ">=" + ds;
    }
  }

  lemma RangeConcat(key: string, low: string, high: string)
    ensures "(" + key + ">=" + low + ("&" + key + "<=" + high) + ")" ==
            "(" + key + (">=" + "" + low + "&" + key + "<=" + high + ")")
  {
    assert ">=" + "" == ">=";
    var rest := key + "<=" + high + ")";
    assert ">=" + low + "&" + key + "<=" + high + ")" == ">=" + low + ("&" + rest);
    assert ("&" + key + "<=" + high) + ")" == "&" + rest;
  }

  lemma OneBoundText(key: string, op: Token, ds: string)
    ensures TokensText([LParen, Key(key), op, IntOrKey(ds), RParen]) ==
            "(" + key + (TokenText(op) + ds + ")")
  {
    hide TokensText;
    TokensTextFour(LParen, Key(key), op, IntOrKey(ds));
    TokensTextOne(RParen);
    var x := [LParen, Key(key), op, IntOrKey(ds)];
    assert x + [RParen] == [LParen, Key(key), op, IntOrKey(ds), RParen];
    TokensTextConcat(x, [RParen]);
    assert "(" + key + TokenText(op) + ds + ")" == "(" + key + (TokenText(op) + ds + ")");
  }

  lemma TermText(t: Term)
    ensures TokensText(TermTokens(t)) == LongTerm(t, "", true).text
  {
    hide TokensText, LongIntTail;
    match t
    case BoolTerm(key) => TokensTextOne(Key(LongKey(key)));
    case IntTerm(key, _, number) => NumberText(LongKey(key), number);
    case StrTerm(key, _, str) =>
      var k, p := Key(LongKey(key)), Str(StrPattern(str));
      TokensTextConcat([k, Eq], [p]);
      TokensTextConcat([k], [Eq]);
      TokensTextOne(k);
      TokensTextOne(Eq);
      TokensTextOne(p);
      assert [k] + [Eq] == [k, Eq] && [k, Eq] + [p] == [k, Eq, p];
      StrConcat(LongKey(key), str);
  }

  lemma StrConcat(key: string, a: StrArg)
    ensures key + "=" + ("\"" + StrPattern(a) + "\"") == key + LongStr(a)
  {
    match a
    case Quoted(text) => assert "=" + ("\"" + text + "\"") == "=\"" + text + "\"";
    case Bare(text) => assert "=" + ("\"" + ("*" + text + "*") + "\"") == "=\"*" + text + "*\"";
  }

  lemma {:induction false} OperandTokensText(o: Operand)
    requires IsOperand(o)
    ensures TokensText(OperandTokens(o)) == LongOperand(o, "", true).text
    ensures LongOperand(o, "", true).carry == ""
    decreases o
  {
    hide TokensText, TermTokens, LongTerm;
    match o
    case TermOperand(term, _) =>
      TermText(term);
      TermCompares(term, "");
    case Negated(_, x) =>
      OperandTokensText(x);
      TokensTextConcat([Not], OperandTokens(x));
      TokensTextOne(Not);
    case Group(_, first, rest, _) =>
      OperandTokensText(first);
      ChainTokensText(rest);
      TokensTextConcat([LParen] + OperandTokens(first) + ChainTokens(rest), [RParen]);
      TokensTextConcat([LParen] + OperandTokens(first), ChainTokens(rest));
      TokensTextConcat([LParen], OperandTokens(first));
      TokensTextOne(LParen);
      TokensTextOne(RParen);
  }

  lemma {:induction false} ChainTokensText(c: Chain)
    requires IsChain(c)
    ensures TokensText(ChainTokens(c)) == LongChain(c, "", true).text
    ensures LongChain(c, "", true).carry == ""
    decreases c
  {
    hide TokensText, OperandTokens, LongOperand;
    match c
    case End => assert TokensText([]) == "" by { NoTokensText(); }
    case Beside(x, rest) =>
      OperandTokensText(x);
      ChainTokensText(rest);
      LinkTokensText(And, x, rest);
    case Either(_, x, rest) =>
      OperandTokensText(x);
      ChainTokensText(rest);
      LinkTokensText(Or, x, rest);
  }

  lemma NoTokensText()
    ensures TokensText([]) == ""
  {
  }

  lemma LinkTokensText(op: Token, x: Operand, rest: Chain)
    ensures TokensText([op] + OperandTokens(x) + ChainTokens(rest)) ==
            TokenText(op) + TokensText(OperandTokens(x)) + TokensText(ChainTokens(rest))
  {
    hide TokensText, TokenText, OperandTokens, ChainTokens;
    TokensTextConcat([op] + OperandTokens(x), ChainTokens(rest));
    TokensTextConcat([op], OperandTokens(x));
    TokensTextOne(op);
  }

  // ---------------------------------------------------------------------------------------
  // The tokens can be read back
  // ---------------------------------------------------------------------------------------

  lemma JoinTokenLists(a: seq<Token>, b: seq<Token>)
    requires IsTokenList(a) && IsTokenList(b)
    requires a != [] && b != [] ==> MayFollow(a[|a| - 1], b[0])
    ensures IsTokenList(a + b)
  {
    hide IsToken;
    var ts := a + b;
    forall i | 0 <= i < |ts| - 1
      ensures MayFollow(ts[i], ts[i + 1])
    {
      if i < |a| - 1 {
        assert MayFollow(a[i], a[i + 1]);
      } else if i >= |a| {
        assert MayFollow(b[i - |a|], b[i - |a| + 1]);
      }
    }
  }

  lemma NumberIsToken(ds: string)
    requires IsNumber(ds)
    ensures IsToken(IntOrKey(ds)) && ds[0] != '-'
  {
    assert IsDigit(ds[0]);
  }

  lemma PatternIsToken(a: StrArg)
    requires IsStrArg(a)
    ensures IsToken(Str(StrPattern(a)))
  {
    match a
    case Quoted(_) =>
    case Bare(text) =>
      PlainIsQuotable("*" + text + "*");
  }

  lemma {:induction false} PlainIsQuotable(s: string)
    requires forall i :: 0 <= i < |s| ==> s[i] != '"' && s[i] != '\\'
    ensures QuotedLength(s + "\"") == Some(|s|)
    decreases |s|
  {
    if s == "" {
      assert s + "\"" == "\"";
    } else {
      assert (s + "\"")[0] == s[0];
      assert (s + "\"")[1..] == s[1..] + "\"";
      PlainIsQuotable(s[1..]);
    }
  }

  lemma TermIsTokenList(t: Term)
    requires IsTerm(t)
    ensures IsTokenList(TermTokens(t))
  {
    hide IsWord, IsIntWord, IsQuotable, LongKey, IsShortKey, IsStrArg, StrPattern, IsNumber;
    assert IsToken(Key(LongKey(t.key))) by { KeyIsToken(t.key); }
    if t.StrTerm? {
      PatternIsToken(t.str);
    } else if t.IntTerm? {
      if t.number.Between? {
        NumberIsToken(t.number.low);
        NumberIsToken(t.number.high);
      } else {
        NumberIsToken(t.number.digits);
      }
    }
  }

  lemma KeyIsToken(c: char)
    requires IsShortKey(c)
    ensures IsToken(Key(LongKey(c)))
  {
    hide LongKey, IsIntWord;
  }

  lemma SingleIsTokenList(t: Token)
    requires t == Not || t == LParen || t == RParen || t == And || t == Or
    ensures IsTokenList([t])
  {
  }

  lemma {:induction false} OperandIsTokenList(o: Operand)
    requires IsOperand(o)
    ensures IsTokenList(OperandTokens(o))
    decreases o
  {
    hide IsTokenList, TermTokens;
    match o
    case TermOperand(term, _) => TermIsTokenList(term);
    case Negated(_, x) =>
      OperandIsTokenList(x);
      SingleIsTokenList(Not);
      JoinTokenLists([Not], OperandTokens(x));
    case Group(_, first, rest, _) =>
      OperandIsTokenList(first);
      ChainIsTokenList(rest);
      SingleIsTokenList(LParen);
      SingleIsTokenList(RParen);
      JoinTokenLists([LParen], OperandTokens(first));
      JoinTokenLists([LParen] + OperandTokens(first), ChainTokens(rest));
      JoinTokenLists([LParen] + OperandTokens(first) + ChainTokens(rest), [RParen]);
  }

  lemma {:induction false} ChainIsTokenList(c: Chain)
    requires IsChain(c)
    ensures IsTokenList(ChainTokens(c))
    ensures ChainTokens(c) != [] ==> ChainTokens(c)[0] == And || ChainTokens(c)[0] == Or
    decreases c
  {
    hide IsTokenList;
    match c
    case End => assert IsTokenList([]) by { NoTokens(); }
    case Beside(x, rest) =>
      OperandIsTokenList(x);
      ChainIsTokenList(rest);
      LinkIsTokenList(And, OperandTokens(x), ChainTokens(rest));
    case Either(_, x, rest) =>
      OperandIsTokenList(x);
      ChainIsTokenList(rest);
      LinkIsTokenList(Or, OperandTokens(x), ChainTokens(rest));
  }

  lemma NoTokens()
    ensures IsTokenList([])
  {
  }

  lemma LinkIsTokenList(op: Token, operand: seq<Token>, rest: seq<Token>)
    requires op == And || op == Or
    requires IsTokenList(operand) && IsTokenList(rest)
    requires rest != [] ==> rest[0] == And || rest[0] == Or
    ensures IsTokenList([op] + operand + rest)
  {
    hide IsTokenList;
    SingleIsTokenList(op);
    JoinTokenLists([op], operand);
    JoinTokenLists([op] + operand, rest);
  }

  // ---------------------------------------------------------------------------------------
  // The tree
  // ---------------------------------------------------------------------------------------

  function Compare(key: string, op: Op, ds: string): Expr
    requires IsNumber(ds)
  {
    NumberIsToken(ds);
    LeafExpr(IntLeaf(key, op, IntWordValue(ds)))
  }

  function NumberExpr(key: string, a: IntArg): Expr
    requires IsIntArg(a)
  {
    match a
    case Below(ds) => Compare(key, OpLt, ds)
    case Above(ds) => Compare(key, OpGt, ds)
    case AtMost(ds) => Compare(key, OpLe, ds)
    case Exactly(ds) => Compare(key, OpEq, ds)
    case AtLeast(ds) => Compare(key, OpGe, ds)
    case Between(low, high) => AndExpr(Compare(key, OpGe, low), Compare(key, OpLe, high))
  }

  function TermExpr(t: Term): Expr
    requires IsTerm(t)
  {
    match t
    case BoolTerm(key) => LeafExpr(BoolLeaf(LongKey(key)))
    case IntTerm(key, _, number) => NumberExpr(LongKey(key), number)
    case StrTerm(key, _, str) => LeafExpr(StrLeaf(LongKey(key), OpEq, StrPattern(str)))
  }

  function OperandExpr(o: Operand): Expr
    requires IsOperand(o)
  {
    match o
    case Negated(_, x) => NotExpr(OperandExpr(x))
    case Group(_, first, rest, _) => ChainExpr(OperandExpr(first), rest)
    case TermOperand(term, _) => TermExpr(term)
  }

  function ChainExpr(sofar: Expr, c: Chain): Expr
    requires IsChain(c)
    decreases c
  {
    match c
    case End => sofar
    case Beside(x, rest) => ChainExpr(AndExpr(sofar, OperandExpr(x)), rest)
    case Either(_, x, rest) => ChainExpr(OrExpr(sofar, OperandExpr(x)), rest)
  }

  function ShortExpr(s: Short): Expr
    requires ShortGrammar.IsShort(s)
  {
    ChainExpr(OperandExpr(s.first), s.rest)
  }

  lemma CompareParses(key: string, opToken: Token, op: Op, ds: string, rest: seq<Token>)
    requires IsNumber(ds) && TokenOp(opToken) == Some(op)
    ensures ParsedOne([Key(key), opToken, IntOrKey(ds)] + rest) == Parsed(Compare(key, op, ds), rest)
  {
    hide IntWordValue;
    NumberIsToken(ds);
    var ts := [Key(key), opToken, IntOrKey(ds)] + rest;
    assert ts[1..][2..] == rest;
    assert ts[0] == Key(key) && ts[1..][0] == opToken && ts[1..][1] == IntOrKey(ds);
  }

  lemma OneBoundParses(key: string, opToken: Token, op: Op, ds: string, rest: seq<Token>)
    requires IsNumber(ds) && TokenOp(opToken) == Some(op)
    ensures ParsedOne([LParen, Key(key), opToken, IntOrKey(ds), RParen] + rest) == Parsed(Compare(key, op, ds), rest)
  {
    hide ParsedOne, ParsedTail, Compare;
    var inner := [Key(key), opToken, IntOrKey(ds)] + ([RParen] + rest);
    assert [LParen, Key(key), opToken, IntOrKey(ds), RParen] + rest == [LParen] + inner;
    CompareParses(key, opToken, op, ds, [RParen] + rest);
    GroupParses(inner);
    CloseParses(Compare(key, op, ds), rest);
  }

  lemma {:induction false} GroupParses(inner: seq<Token>)
    ensures ParsedOne([LParen] + inner) == ParsedLevel(inner, 1)
  {
    hide ParsedLevel;
    assert ([LParen] + inner)[1..] == inner;
  }

  lemma {:induction false} CloseParses(e: Expr, rest: seq<Token>)
    ensures ParsedTail(e, [RParen] + rest, 1) == Parsed(e, rest)
  {
    hide ParsedOne;
    assert ([RParen] + rest)[1..] == rest;
  }

  lemma {:induction false} AndParses(l: Expr, r: Expr, second: seq<Token>, rest: seq<Token>, level: nat)
    requires ParsedOne(second) == Parsed(r, rest)
    ensures ParsedTail(l, [And] + second, level) == ParsedTail(AndExpr(l, r), rest, level)
  {
    hide ParsedOne;
    assert ([And] + second)[1..] == second;
  }

  lemma RangeParses(key: string, low: string, high: string, rest: seq<Token>)
    requires IsNumber(low) && IsNumber(high)
    ensures ParsedOne(NumberTokens(key, Between(low, high)) + rest) ==
            Parsed(NumberExpr(key, Between(low, high)), rest)
  {
    hide ParsedOne, ParsedTail, Compare;
    var close := [RParen] + rest;
    var second := [Key(key), Le, IntOrKey(high)] + close;
    var first := [Key(key), Ge, IntOrKey(low)] + ([And] + second);
    assert NumberTokens(key, Between(low, high)) + rest == [LParen] + first;
    CompareParses(key, Ge, OpGe, low, [And] + second);
    CompareParses(key, Le, OpLe, high, close);
    var l, r := Compare(key, OpGe, low), Compare(key, OpLe, high);
    GroupParses(first);
    AndParses(l, r, second, close, 1);
    CloseParses(AndExpr(l, r), rest);
  }

  lemma KeyParses(key: string, rest: seq<Token>)
    requires EndsOperand(rest)
    ensures ParsedOne([Key(key)] + rest) == Parsed(LeafExpr(BoolLeaf(key)), rest)
  {
    var ts := [Key(key)] + rest;
    assert ts[0] == Key(key) && ts[1..] == rest;
  }

  lemma StrParses(key: string, pattern: string, rest: seq<Token>)
    ensures ParsedOne([Key(key), Eq, Str(pattern)] + rest) == Parsed(LeafExpr(StrLeaf(key, OpEq, pattern)), rest)
  {
    var ts := [Key(key), Eq, Str(pattern)] + rest;
    assert ts[0] == Key(key) && ts[1..][0] == Eq && ts[1..][1] == Str(pattern);
    assert ts[1..][2..] == rest;
  }

  lemma NumberParses(key: string, a: IntArg, rest: seq<Token>)
    requires IsIntArg(a)
    ensures ParsedOne(NumberTokens(key, a) + rest) == Parsed(NumberExpr(key, a), rest)
  {
    hide ParsedOne, Compare;
    match a
    case Below(ds) => OneBoundParses(key, Lt, OpLt, ds, rest);
    case Above(ds) => OneBoundParses(key, Gt, OpGt, ds, rest);
    case AtMost(ds) => OneBoundParses(key, Le, OpLe, ds, rest);
    case Exactly(ds) => OneBoundParses(key, Eq, OpEq, ds, rest);
    case AtLeast(ds) => OneBoundParses(key, Ge, OpGe, ds, rest);
    case Between(low, high) => RangeParses(key, low, high, rest);
  }

  lemma TermParses(t: Term, rest: seq<Token>)
    requires IsTerm(t) && EndsOperand(rest)
    ensures ParsedOne(TermTokens(t) + rest) == Parsed(TermExpr(t), rest)
  {
    hide LongKey, ParsedOne, NumberTokens, NumberExpr, EndsOperand, IsStrArg;
    match t
    case BoolTerm(key) => KeyParses(LongKey(key), rest);
    case StrTerm(key, _, str) => StrParses(LongKey(key), StrPattern(str), rest);
    case IntTerm(key, _, number) => NumberParses(LongKey(key), number, rest);
  }

  lemma {:induction false} OperandParses(o: Operand, rest: seq<Token>)
    requires IsOperand(o) && EndsOperand(rest)
    ensures ParsedOne(OperandTokens(o) + rest) == Parsed(OperandExpr(o), rest)
    decreases o
  {
    hide TermTokens, TermExpr, ParsedLeaf;
    match o
    case TermOperand(term, _) => TermParses(term, rest);
    case Negated(_, x) =>
      assert (OperandTokens(o) + rest)[1..] == OperandTokens(x) + rest;
      OperandParses(x, rest);
    case Group(_, first, others, _) =>
      hide ParsedOne, ParsedTail;
      var close := [RParen] + rest;
      var tail := ChainTokens(others) + close;
      var inner := OperandTokens(first) + tail;
      assert OperandTokens(o) + rest == [LParen] + inner;
      ChainEndsOperand(others, close);
      OperandParses(first, tail);
      ChainParsesTail(OperandExpr(first), others, close, 1);
      GroupParses(inner);
      CloseParses(OperandExpr(o), rest);
  }

  lemma ChainEndsOperand(c: Chain, rest: seq<Token>)
    requires EndsOperand(rest)
    ensures EndsOperand(ChainTokens(c) + rest)
  {
    if c.End? {
      assert ChainTokens(c) + rest == rest;
    }
  }

  lemma {:induction false} ChainParsesTail(sofar: Expr, c: Chain, rest: seq<Token>, level: nat)
    requires IsChain(c) && EndsOperand(rest)
    ensures ParsedTail(sofar, ChainTokens(c) + rest, level) == ParsedTail(ChainExpr(sofar, c), rest, level)
    decreases c, 1
  {
    match c
    case End => assert ChainTokens(c) + rest == rest;
    case Beside(x, others) => LinkParsesTail(And, sofar, c, rest, level);
    case Either(_, x, others) => LinkParsesTail(Or, sofar, c, rest, level);
  }

  lemma {:induction false} LinkParsesTail(op: Token, sofar: Expr, c: Chain, rest: seq<Token>, level: nat)
    requires IsChain(c) && EndsOperand(rest)
    requires (c.Beside? && op == And) || (c.Either? && op == Or)
    ensures ParsedTail(sofar, ChainTokens(c) + rest, level) == ParsedTail(ChainExpr(sofar, c), rest, level)
    decreases c, 0
  {
    hide ParsedOne, OperandTokens, OperandExpr;
    var tail := ChainTokens(c.rest) + rest;
    var ts := ChainTokens(c) + rest;
    assert ts == [op] + (OperandTokens(c.operand) + tail);
    assert ts[0] == op && ts[1..] == OperandTokens(c.operand) + tail;
    ChainEndsOperand(c.rest, rest);
    OperandParses(c.operand, tail);
    ChainParsesTail(Joined(op, sofar, OperandExpr(c.operand)), c.rest, rest, level);
  }

  function ShortTokens(s: Short): seq<Token> {
    OperandTokens(s.first) + ChainTokens(s.rest)
  }

  lemma ShortTokensParse(s: Short)
    requires ShortGrammar.IsShort(s)
    ensures ParsedLevel(ShortTokens(s), 0) == Parsed(ShortExpr(s), [])
  {
    hide ParsedOne, OperandTokens, OperandExpr, ChainTokens, ChainExpr, IsOperand, IsChain;
    var x, c := OperandTokens(s.first), ChainTokens(s.rest);
    assert c + [] == c;
    ChainEndsOperand(s.rest, []);
    OperandParses(s.first, c);
    ChainParsesTail(OperandExpr(s.first), s.rest, [], 0);
    assert ParsedTail(ShortExpr(s), [], 0) == Parsed(ShortExpr(s), []);
  }

  lemma ShortTokensText(s: Short)
    requires ShortGrammar.IsShort(s)
    ensures IsTokenList(ShortTokens(s)) && TokensText(ShortTokens(s)) == LongShort(s, true)
  {
    hide OperandTokens, ChainTokens, TokensText, IsTokenList, LongOperand, LongChain, IsOperand, IsChain;
    var x, c := OperandTokens(s.first), ChainTokens(s.rest);
    OperandTokensText(s.first);
    ChainTokensText(s.rest);
    TokensTextConcat(x, c);
    OperandIsTokenList(s.first);
    ChainIsTokenList(s.rest);
    assert c != [] ==> MayFollow(x[|x| - 1], c[0]);
    JoinTokenLists(x, c);
  }

  /** The intended long text of a short filter parses to the tree of its grammar. */
  lemma IntendedParses(s: Short)
    requires ShortGrammar.IsShort(s)
    ensures ParsedText(LongShort(s, true)) == Some(ShortExpr(s))
  {
    hide ShortTokens, ShortExpr, ParsedLevel, LongShort, Tokenized, TokensText, IsTokenList;
    ShortTokensText(s);
    TokenizedText(ShortTokens(s));
    ShortTokensParse(s);
  }

  // ---------------------------------------------------------------------------------------
  // Meaning
  // ---------------------------------------------------------------------------------------

  predicate NumberHolds(a: IntArg, val: int)
    requires IsIntArg(a)
  {
    && val != -1
    && match a
       case Below(ds) => val < Digits(ds)
       case Above(ds) => val > Digits(ds)
       case AtMost(ds) => val <= Digits(ds)
       case Exactly(ds) => val == Digits(ds)
       case AtLeast(ds) => val >= Digits(ds)
       case Between(low, high) => Digits(low) <= val <= Digits(high)
  }

  ghost predicate TermHolds(fold: Glob.Fold, term: Term, t: Track)
    requires IsTerm(term)
  {
    match term
    case BoolTerm(key) => if key == 's' then t.stream else t.hasTag
    case IntTerm(key, _, number) => NumberHolds(number, IntVal(t, LongKey(key)))
    case StrTerm(key, _, str) =>
      var value := if LongKey(key) in t.strings then t.strings[LongKey(key)] else "";
      Glob.Meaning(fold, StrPattern(str), value)
  }

  ghost predicate OperandHolds(fold: Glob.Fold, o: Operand, t: Track)
    requires IsOperand(o)
  {
    match o
    case Negated(_, x) => !OperandHolds(fold, x, t)
    case Group(_, first, rest, _) => ChainHolds(fold, OperandHolds(fold, first, t), rest, t)
    case TermOperand(term, _) => TermHolds(fold, term, t)
  }

  /** Operands side by side must both hold; a bar asks for either; both apply from left to right. */
  ghost predicate ChainHolds(fold: Glob.Fold, sofar: bool, c: Chain, t: Track)
    requires IsChain(c)
    decreases c
  {
    match c
    case End => sofar
    case Beside(x, rest) => ChainHolds(fold, sofar && OperandHolds(fold, x, t), rest, t)
    case Either(_, x, rest) => ChainHolds(fold, sofar || OperandHolds(fold, x, t), rest, t)
  }

  ghost predicate ShortHolds(fold: Glob.Fold, s: Short, t: Track)
    requires ShortGrammar.IsShort(s)
  {
    ChainHolds(fold, OperandHolds(fold, s.first, t), s.rest, t)
  }

  predicate Fits32(ds: string)
    requires IsNumber(ds)
  {
    Digits(ds) < 0x8000_0000
  }

  predicate NumberFits(a: IntArg)
    requires IsIntArg(a)
  {
    match a
    case Between(low, high) => Fits32(low) && Fits32(high)
    case _ => Fits32(a.digits)
  }

  /** Every number is below 2 to the 31st. */
  predicate OperandFits(o: Operand)
    requires IsOperand(o)
  {
    match o
    case Negated(_, x) => OperandFits(x)
    case Group(_, first, rest, _) => OperandFits(first) && ChainFits(rest)
    case TermOperand(term, _) => term.IntTerm? ==> NumberFits(term.number)
  }

  predicate ChainFits(c: Chain)
    requires IsChain(c)
  {
    match c
    case End => true
    case Beside(x, rest) => OperandFits(x) && ChainFits(rest)
    case Either(_, x, rest) => OperandFits(x) && ChainFits(rest)
  }

  lemma NumberValue(ds: string)
    requires IsNumber(ds) && Fits32(ds)
    ensures IsIntWord(ds) && IntWordValue(ds) == Digits(ds)
  {
    NumberIsToken(ds);
  }

  lemma CompareHolds(fold: Glob.Fold, key: string, op: Op, ds: string, t: Track)
    requires IsNumber(ds) && Fits32(ds)
    ensures Holds(fold, Compare(key, op, ds), t) <==>
            IntVal(t, key) != -1 && OpToBool(IntVal(t, key) - Digits(ds), op)
  {
    hide IntWordValue;
    NumberValue(ds);
  }

  lemma NumberExprHolds(fold: Glob.Fold, key: string, a: IntArg, t: Track)
    requires IsIntArg(a) && NumberFits(a)
    ensures Holds(fold, NumberExpr(key, a), t) <==> NumberHolds(a, IntVal(t, key))
  {
    hide Compare;
    match a
    case Below(ds) => CompareHolds(fold, key, OpLt, ds, t);
    case Above(ds) => CompareHolds(fold, key, OpGt, ds, t);
    case AtMost(ds) => CompareHolds(fold, key, OpLe, ds, t);
    case Exactly(ds) => CompareHolds(fold, key, OpEq, ds, t);
    case AtLeast(ds) => CompareHolds(fold, key, OpGe, ds, t);
    case Between(low, high) =>
      CompareHolds(fold, key, OpGe, low, t);
      CompareHolds(fold, key, OpLe, high, t);
  }

  lemma TermExprHolds(fold: Glob.Fold, term: Term, t: Track)
    requires IsTerm(term) && (term.IntTerm? ==> NumberFits(term.number))
    ensures Holds(fold, TermExpr(term), t) <==> TermHolds(fold, term, t)
  {
    match term
    case BoolTerm(key) => BoolKeys(key);
    case IntTerm(key, _, number) =>
      hide NumberExpr, NumberHolds;
      NumberExprHolds(fold, LongKey(key), number, t);
    case StrTerm(_, _, _) =>
  }

  lemma BoolKeys(key: char)
    requires IsShortKey(key) && ShortKeyType(key) == BoolKey
    ensures LongKey(key) == "stream" <==> key == 's'
  {
  }

  lemma {:induction false} OperandExprHolds(fold: Glob.Fold, o: Operand, t: Track)
    requires IsOperand(o) && OperandFits(o)
    ensures Holds(fold, OperandExpr(o), t) <==> OperandHolds(fold, o, t)
    decreases o
  {
    hide TermExpr, TermHolds;
    match o
    case TermOperand(term, _) => TermExprHolds(fold, term, t);
    case Negated(_, x) => OperandExprHolds(fold, x, t);
    case Group(_, first, rest, _) =>
      OperandExprHolds(fold, first, t);
      ChainExprHolds(fold, OperandExpr(first), rest, t);
  }

  lemma {:induction false} ChainExprHolds(fold: Glob.Fold, sofar: Expr, c: Chain, t: Track)
    requires IsChain(c) && ChainFits(c)
    ensures Holds(fold, ChainExpr(sofar, c), t) <==> ChainHolds(fold, Holds(fold, sofar, t), c, t)
    decreases c
  {
    hide LeafHolds;
    match c
    case End =>
    case Beside(x, rest) =>
      OperandExprHolds(fold, x, t);
      ChainExprHolds(fold, AndExpr(sofar, OperandExpr(x)), rest, t);
    case Either(_, x, rest) =>
      OperandExprHolds(fold, x, t);
      ChainExprHolds(fold, OrExpr(sofar, OperandExpr(x)), rest, t);
  }

  // ---------------------------------------------------------------------------------------
  // Bare arguments
  // ---------------------------------------------------------------------------------------

  predicate IsPlain(s: string) {
    forall i :: 0 <= i < |s| ==> s[i] != '*' && s[i] != '?' && s[i] != '\\'
  }

  lemma {:induction false} PlainThenStar(fold: Glob.Fold, s: string, text: string)
    requires IsPlain(s)
    ensures Glob.Meaning(fold, s + "*", text) <==> Glob.StartsWith(fold, text, s)
    decreases |s|
  {
    if s == "" {
      assert s + "*" == "*" && "*"[1..] == "";
      assert text[|text|..] == "" && Glob.Meaning(fold, "", text[|text|..]);
    } else {
      var p := s + "*";
      assert p[0] == s[0] && p[1..] == s[1..] + "*";
      if text != "" {
        PlainThenStar(fold, s[1..], text[1..]);
        if Glob.StartsWith(fold, text[1..], s[1..]) && fold(text[0]) == fold(s[0]) {
          forall i | 0 <= i < |s|
            ensures fold(s[i]) == fold(text[i])
          {
            assert i > 0 ==> s[i] == s[1..][i - 1] && text[i] == text[1..][i - 1];
          }
        }
        if Glob.StartsWith(fold, text, s) {
          forall i | 0 <= i < |s[1..]|
            ensures fold(s[1..][i]) == fold(text[1..][i])
          {
            assert s[1..][i] == s[i + 1] && text[1..][i] == text[i + 1];
          }
        }
      }
    }
  }

  /** An argument without wildcards asks whether the value contains it. */
  lemma BareContains(fold: Glob.Fold, s: string, text: string)
    requires IsPlain(s)
    ensures Glob.Meaning(fold, StrPattern(Bare(s)), text) <==>
            exists k :: 0 <= k <= |text| && Glob.StartsWith(fold, text[k..], s)
  {
    var p := "*" + s + "*";
    assert p[0] == '*' && p[1..] == s + "*";
    forall k | 0 <= k <= |text|
      ensures Glob.Meaning(fold, p[1..], text[k..]) <==> Glob.StartsWith(fold, text[k..], s)
    {
      PlainThenStar(fold, s, text[k..]);
    }
  }

  // ---------------------------------------------------------------------------------------
  // Reading a filter of either kind
  // ---------------------------------------------------------------------------------------

  /** A filter is short when its first character besides `!`, `(` and space is `~`. */
  predicate IsShortText(s: string)
    decreases |s|
  {
    s != "" && (s[0] == '~' || ((s[0] == '!' || s[0] == '(' || s[0] == ' ') && IsShortText(s[1..])))
  }

  method ExprIsShort(s: string) returns (r: bool)
    ensures r == IsShortText(s)
  {
    var i := 0;
    while i < |s|
      invariant 0 <= i <= |s|
      invariant IsShortText(s) <==> IsShortText(s[i..])
    {
      assert s[i..][1..] == s[i + 1..];
      if s[i] == '~' {
        return true;
      }
      if s[i] != '!' && s[i] != '(' && s[i] != ' ' {
        return false;
      }
      i := i + 1;
    }
    r := false;
  }

  predicate HasControl(s: string) {
    exists i :: 0 <= i < |s| && s[i] < ' '
  }

  /** The part of a buffer before its first terminator. */
  function CString(s: string): string
    decreases |s|
  {
    if s == "" || s[0] == '\0' then "" else [s[0]] + CString(s[1..])
  }

  function ExpandedText(s: string): Option<string> {
    match Run(START, s)
    case Expanded(out, _) => Some(CString(out))
    case Rejected(_, _) => None
  }

  /** What a filter text is read as. */
  function FilterRead(s: string): Option<Expr> {
    if HasControl(s) then None
    else if IsShortText(s) then
      var long := ExpandedText(s);
      if long.None? then None else ParsedText(long.value)
    else ParsedText(s)
  }

  method ExprParse(s: string) returns (tree: Node)
    ensures tree == match FilterRead(s) case None => Nil case Some(e) => TreeOf(e)
  {
    for i := 0 to |s|
      invariant forall j :: 0 <= j < i ==> s[j] >= ' '
    {
      if s[i] < ' ' {
        return Nil;
      }
    }
    var long := s;
    var short := ExprIsShort(s);
    if short {
      var out := ExpandShortExpr(s);
      if out.None? {
        return Nil;
      }
      long := CString(out.value);
    }
    tree := ParseText(long);
  }

  lemma {:induction false} SpacesThenShort(pad: nat, rest: string)
    ensures IsShortText(Spaces(pad) + rest) <==> IsShortText(rest)
    decreases pad
  {
    if pad == 0 {
      assert Spaces(0) + rest == rest;
    } else {
      assert (Spaces(pad) + rest)[1..] == Spaces(pad - 1) + rest;
      SpacesThenShort(pad - 1, rest);
    }
  }

  lemma OpenIsShort(c: char, pad: nat, rest: string)
    requires c == '!' || c == '('
    ensures IsShortText([c] + (Spaces(pad) + rest)) <==> IsShortText(rest)
  {
    hide Spaces;
    var s := [c] + (Spaces(pad) + rest);
    assert s[0] == c && s[1..] == Spaces(pad) + rest;
    SpacesThenShort(pad, rest);
  }

  lemma {:induction false} OperandIsShort(o: Operand, rest: string)
    ensures IsShortText(OperandText(o) + rest)
    decreases o
  {
    hide Spaces, IsShortText;
    match o
    case TermOperand(term, pad) => TildeIsShort(OperandText(o) + rest);
    case Negated(pad, x) =>
      NegatedText(o, rest);
      OperandIsShort(x, rest);
      OpenIsShort('!', pad, OperandText(x) + rest);
    case Group(pad, first, others, close) =>
      var tail := ChainText(others) + ([')'] + (Spaces(close) + rest));
      GroupText(o, rest);
      OperandIsShort(first, tail);
      OpenIsShort('(', pad, OperandText(first) + tail);
  }

  lemma TildeIsShort(s: string)
    requires s != "" && s[0] == '~'
    ensures IsShortText(s)
  {
  }

  lemma {:induction false} CStringOf(s: string)
    requires '\0' !in s
    ensures CString(s + ['\0']) == s
    decreases |s|
  {
    if s == "" {
      assert s + ['\0'] == ['\0'];
    } else {
      assert (s + ['\0'])[0] == s[0];
      assert (s + ['\0'])[1..] == s[1..] + ['\0'];
      CStringOf(s[1..]);
    }
  }

  predicate NoNul(ts: seq<Token>) {
    forall i :: 0 <= i < |ts| ==> '\0' !in TokenText(ts[i])
  }

  lemma {:induction false} TokensHaveNoNul(ts: seq<Token>)
    requires NoNul(ts)
    ensures '\0' !in TokensText(ts)
    decreases |ts|
  {
    hide TokenText;
    if ts != [] {
      assert NoNul(ts[1..]);
      TokensHaveNoNul(ts[1..]);
    }
  }

  lemma NumberHasNoNul(ds: string)
    requires IsNumber(ds)
    ensures '\0' !in ds
  {
    forall i | 0 <= i < |ds|
      ensures ds[i] != '\0'
    {
      assert IsDigit(ds[i]);
    }
  }

  lemma KeyHasNoNul(c: char)
    requires IsShortKey(c)
    ensures '\0' !in LongKey(c)
  {
    hide LongKey, IsIntWord;
    forall i | 0 <= i < |LongKey(c)|
      ensures LongKey(c)[i] != '\0'
    {
      assert IsWordChar(LongKey(c)[i]);
    }
  }

  lemma OneBoundHasNoNul(key: string, op: Token, ds: string)
    requires '\0' !in key && '\0' !in ds
    requires op == Lt || op == Gt || op == Le || op == Eq || op == Ge
    ensures NoNul([LParen, Key(key), op, IntOrKey(ds), RParen])
  {
  }

  lemma RangeHasNoNul(key: string, low: string, high: string)
    requires '\0' !in key && '\0' !in low && '\0' !in high
    ensures NoNul(NumberTokens(key, Between(low, high)))
  {
    hide NoNul;
    OneBoundHasNoNul(key, Ge, low);
    OneBoundHasNoNul(key, Le, high);
    PunctuationHasNoNul();
    var x, y := [LParen, Key(key), Ge, IntOrKey(low), RParen], [LParen, Key(key), Le, IntOrKey(high), RParen];
    NoNulPart(x, 0, 4);
    NoNulPart(y, 1, 5);
    NoNulConcat(x[0..4], [And]);
    NoNulConcat(x[0..4] + [And], y[1..5]);
    assert NumberTokens(key, Between(low, high)) == x[0..4] + [And] + y[1..5];
  }

  lemma NoNulPart(ts: seq<Token>, from: nat, to: nat)
    requires NoNul(ts) && from <= to <= |ts|
    ensures NoNul(ts[from..to])
  {
    hide TokenText;
  }

  lemma TermHasNoNul(t: Term)
    requires IsTerm(t)
    ensures NoNul(TermTokens(t))
  {
    hide LongKey, IsQuotable, NoNul, IsShortKey, IsNumber;
    KeyHasNoNul(t.key);
    var key := LongKey(t.key);
    match t
    case BoolTerm(_) => KeyTokenHasNoNul(key);
    case StrTerm(_, _, str) => StrHasNoNul(key, str);
    case IntTerm(_, _, number) =>
      match number {
        case Between(low, high) =>
          NumberHasNoNul(low);
          NumberHasNoNul(high);
          RangeHasNoNul(key, low, high);
        case Below(ds) => NumberHasNoNul(ds); OneBoundHasNoNul(key, Lt, ds);
        case Above(ds) => NumberHasNoNul(ds); OneBoundHasNoNul(key, Gt, ds);
        case AtMost(ds) => NumberHasNoNul(ds); OneBoundHasNoNul(key, Le, ds);
        case Exactly(ds) => NumberHasNoNul(ds); OneBoundHasNoNul(key, Eq, ds);
        case AtLeast(ds) => NumberHasNoNul(ds); OneBoundHasNoNul(key, Ge, ds);
      }
  }

  lemma KeyTokenHasNoNul(key: string)
    requires '\0' !in key
    ensures NoNul([Key(key)])
  {
  }

  lemma StrHasNoNul(key: string, a: StrArg)
    requires '\0' !in key && IsStrArg(a)
    ensures NoNul([Key(key), Eq, Str(StrPattern(a))])
  {
    hide IsQuotable;
  }

  lemma {:induction false} OperandHasNoNul(o: Operand)
    requires IsOperand(o)
    ensures NoNul(OperandTokens(o))
    decreases o
  {
    hide TermTokens, TokenText;
    PunctuationHasNoNul();
    match o
    case TermOperand(term, _) => TermHasNoNul(term);
    case Negated(_, x) =>
      OperandHasNoNul(x);
      NoNulConcat([Not], OperandTokens(x));
    case Group(_, first, rest, _) =>
      OperandHasNoNul(first);
      ChainHasNoNul(rest);
      NoNulConcat([LParen], OperandTokens(first));
      NoNulConcat([LParen] + OperandTokens(first), ChainTokens(rest));
      NoNulConcat([LParen] + OperandTokens(first) + ChainTokens(rest), [RParen]);
  }

  lemma PunctuationHasNoNul()
    ensures NoNul([LParen]) && NoNul([RParen]) && NoNul([And]) && NoNul([Or]) && NoNul([Not])
  {
  }

  lemma NoNulConcat(a: seq<Token>, b: seq<Token>)
    requires NoNul(a) && NoNul(b)
    ensures NoNul(a + b)
  {
  }

  lemma {:induction false} ChainHasNoNul(c: Chain)
    requires IsChain(c)
    ensures NoNul(ChainTokens(c))
    decreases c
  {
    hide TokenText;
    PunctuationHasNoNul();
    match c
    case End =>
    case Beside(x, rest) =>
      OperandHasNoNul(x);
      ChainHasNoNul(rest);
      NoNulConcat([And], OperandTokens(x));
      NoNulConcat([And] + OperandTokens(x), ChainTokens(rest));
    case Either(_, x, rest) =>
      OperandHasNoNul(x);
      ChainHasNoNul(rest);
      NoNulConcat([Or], OperandTokens(x));
      NoNulConcat([Or] + OperandTokens(x), ChainTokens(rest));
  }

  lemma LongHasNoNul(s: Short)
    requires ShortGrammar.IsShort(s)
    ensures '\0' !in LongShort(s, true)
  {
    hide TokensText, LongOperand, LongChain, NoNul, OperandTokens, ChainTokens;
    OperandTokensText(s.first);
    ChainTokensText(s.rest);
    OperandHasNoNul(s.first);
    ChainHasNoNul(s.rest);
    TokensHaveNoNul(OperandTokens(s.first));
    TokensHaveNoNul(ChainTokens(s.rest));
  }
}
