/** What filter texts look like, told without the tokenizer and the parser: tokens with white space
    around them, arranged by a grammar. Exactly these texts are read, each as the tree of its
    arrangement. */
module FilterSyntax {
  import opened Basics
  import opened FilterTokens
  import opened FilterExpr

  // ---------------------------------------------------------------------------------------
  // Tokens with white space around them
  // ---------------------------------------------------------------------------------------

  predicate IsGap(gap: string) {
    forall i :: 0 <= i < |gap| ==> IsSpace(gap[i])
  }

  function Laid(ts: seq<Token>, gaps: seq<string>): string
    requires |gaps| == |ts| + 1
    decreases |ts|
  {
    if ts == [] then gaps[0] else gaps[0] + (TokenText(ts[0]) + Laid(ts[1..], gaps[1..]))
  }

  /** Tokens that would be taken for one another are kept apart by white space. */
  predicate KeptApart(ts: seq<Token>, gaps: seq<string>)
    requires |gaps| == |ts| + 1
  {
    forall i :: 0 <= i < |ts| - 1 ==> gaps[i + 1] != "" || MayFollow(ts[i], ts[i + 1])
  }

  /** A text consists of these tokens. */
  predicate IsLayout(ts: seq<Token>, gaps: seq<string>, s: string) {
    && |gaps| == |ts| + 1
    && (forall i :: 0 <= i < |ts| ==> IsToken(ts[i]))
    && (forall i :: 0 <= i < |gaps| ==> IsGap(gaps[i]))
    && KeptApart(ts, gaps)
    && s == Laid(ts, gaps)
  }

  ghost predicate Spells(ts: seq<Token>, s: string) {
    exists gaps :: IsLayout(ts, gaps, s)
  }

  /** Between quotes a backslash protects the character after it, and every quote is protected. */
  predicate Protected(s: string)
    decreases |s|
  {
    if s == "" then true
    else if s[0] == '\\' then |s| >= 2 && Protected(s[2..])
    else s[0] != '"' && Protected(s[1..])
  }

  lemma {:induction false} QuotableIff(s: string)
    ensures IsQuotable(s) <==> Protected(s)
    decreases |s|
  {
    var t := s + "\"";
    if s == "" {
    } else if s[0] == '\\' {
      if |s| >= 2 {
        assert t[2..] == s[2..] + "\"";
        QuotableIff(s[2..]);
      } else {
        assert t == ['\\', '"'] && t[2..] == "";
      }
    } else {
      assert t[1..] == s[1..] + "\"";
      QuotableIff(s[1..]);
    }
  }

  lemma LayoutHead(ts: seq<Token>, gaps: seq<string>, s: string)
    requires |gaps| == |ts| + 1 && ts != []
    ensures IsLayout(ts, gaps, s) <==>
            && IsGap(gaps[0])
            && IsToken(ts[0])
            && (|ts| > 1 ==> gaps[1] != "" || MayFollow(ts[0], ts[1]))
            && IsLayout(ts[1..], gaps[1..], Laid(ts[1..], gaps[1..]))
            && s == gaps[0] + (TokenText(ts[0]) + Laid(ts[1..], gaps[1..]))
  {
    hide IsToken, MayFollow, IsGap, TokenText;
    var us, more := ts[1..], gaps[1..];
    assert forall i :: 0 <= i < |us| ==> us[i] == ts[i + 1];
    assert forall i :: 0 <= i < |more| ==> more[i] == gaps[i + 1];
    assert forall i :: 1 <= i < |ts| ==> ts[i] == us[i - 1];
    assert forall i :: 1 <= i < |gaps| ==> gaps[i] == more[i - 1];
    if IsLayout(ts, gaps, s) {
      assert |ts| > 1 ==> gaps[0 + 1] != "" || MayFollow(ts[0], ts[0 + 1]);
      forall i | 0 <= i < |us| - 1
        ensures more[i + 1] != "" || MayFollow(us[i], us[i + 1])
      {
        assert gaps[i + 2] != "" || MayFollow(ts[i + 1], ts[i + 2]);
      }
    }
    if |ts| > 1 && (gaps[1] != "" || MayFollow(ts[0], ts[1])) && KeptApart(us, more) {
      forall i | 0 <= i < |ts| - 1
        ensures gaps[i + 1] != "" || MayFollow(ts[i], ts[i + 1])
      {
        if i > 0 {
          assert more[i] != "" || MayFollow(us[i - 1], us[i]);
        }
      }
    }
  }

  lemma OneMoreSpace(ts: seq<Token>, gaps: seq<string>, s: string, c: char)
    requires IsLayout(ts, gaps, s) && IsSpace(c)
    ensures IsLayout(ts, gaps[0 := [c] + gaps[0]], [c] + s)
  {
    hide IsToken, MayFollow, TokenText;
    var wider := gaps[0 := [c] + gaps[0]];
    assert wider[1..] == gaps[1..];
    assert IsGap([c] + gaps[0]) by { WiderGap(c, gaps[0]); }
  }

  lemma WiderGap(c: char, gap: string)
    requires IsSpace(c) && IsGap(gap)
    ensures IsGap([c] + gap)
  {
    hide IsSpace;
  }

  /** A text begins with the first gap or, if that is empty, with the first token. */
  lemma LaidStart(ts: seq<Token>, gaps: seq<string>)
    requires |gaps| == |ts| + 1
    ensures gaps[0] != "" ==> Laid(ts, gaps) != "" && Laid(ts, gaps)[0] == gaps[0][0]
    ensures gaps[0] == "" && ts != [] ==> Laid(ts, gaps) == TokenText(ts[0]) + Laid(ts[1..], gaps[1..])
    ensures gaps[0] == "" && ts == [] ==> Laid(ts, gaps) == ""
  {
    hide TokenText;
    if ts != [] && gaps[0] == "" {
      var rest := TokenText(ts[0]) + Laid(ts[1..], gaps[1..]);
      assert "" + rest == rest;
    }
  }

  // ---------------------------------------------------------------------------------------
  // From the layout to the tokens
  // ---------------------------------------------------------------------------------------

  /** What follows a token in a layout does not extend it. */
  lemma LaidFollows(t: Token, ts: seq<Token>, gaps: seq<string>)
    requires |gaps| == |ts| + 1 && IsToken(t) && IsLayout([t] + ts, [""] + gaps, Laid([t] + ts, [""] + gaps))
    ensures IsWordToken(t) ==> EndsWord(Laid(ts, gaps))
    ensures (t.Not? || t.Lt? || t.Gt?) && Laid(ts, gaps) != "" ==> Laid(ts, gaps)[0] != '='
  {
    hide IsToken, TokenText, Laid;
    assert ([t] + ts)[1..] == ts && ([""] + gaps)[1..] == gaps;
    LayoutHead([t] + ts, [""] + gaps, Laid([t] + ts, [""] + gaps));
    LaidStart(ts, gaps);
    if gaps[0] != "" {
      GapStart(gaps[0]);
    } else if ts != [] {
      assert ([t] + ts)[1] == ts[0] && ([""] + gaps)[1] == gaps[0];
      assert IsToken(ts[0]);
      StartsSpecial(ts[0]);
    }
  }

  lemma GapStart(gap: string)
    requires IsGap(gap) && gap != ""
    ensures IsSpace(gap[0]) && gap[0] != '='
  {
  }

  /** White space before a text is skipped. */
  lemma {:induction false} GapSkipped(gap: string, s: string)
    requires IsGap(gap)
    ensures Tokenized(gap + s) == Tokenized(s)
    decreases |gap|
  {
    hide FirstToken;
    if gap == "" {
      assert gap + s == s;
    } else {
      assert (gap + s)[0] == gap[0] && (gap + s)[1..] == gap[1..] + s;
      GapSkipped(gap[1..], s);
    }
  }

  lemma {:induction false} LaidTokenized(ts: seq<Token>, gaps: seq<string>)
    requires |gaps| == |ts| + 1 && IsLayout(ts, gaps, Laid(ts, gaps))
    ensures Tokenized(Laid(ts, gaps)) == Some(ts)
    decreases |ts|
  {
    hide Tokenized, FirstToken, TokenText, IsToken, MayFollow, IsGap;
    if ts == [] {
      GapSkipped(gaps[0], "");
      assert gaps[0] + "" == gaps[0];
      NothingTokenized();
    } else {
      LayoutHead(ts, gaps, Laid(ts, gaps));
      var us, more := ts[1..], gaps[1..];
      var rest := Laid(us, more);
      LaidTokenized(us, more);
      assert [ts[0]] + us == ts;
      CloseGap(ts, gaps);
      LaidFollows(ts[0], us, more);
      GapSkipped(gaps[0], TokenText(ts[0]) + rest);
      FirstTokenOf(ts[0], rest);
      TokenizedFirst(TokenText(ts[0]) + rest, ts[0], rest, us);
    }
  }

  lemma {:induction false} NothingTokenized()
    ensures Tokenized("") == Some([])
  {
  }

  lemma CloseGap(ts: seq<Token>, gaps: seq<string>)
    requires ts != [] && |gaps| == |ts| + 1 && IsLayout(ts, gaps, Laid(ts, gaps))
    ensures IsLayout([ts[0]] + ts[1..], [""] + gaps[1..], Laid([ts[0]] + ts[1..], [""] + gaps[1..]))
  {
    hide IsToken, MayFollow, TokenText, IsLayout, IsGap, Laid;
    var closed := [""] + gaps[1..];
    assert [ts[0]] + ts[1..] == ts;
    assert closed[1..] == gaps[1..] && (|ts| > 1 ==> closed[1] == gaps[1]);
    LayoutHead(ts, gaps, Laid(ts, gaps));
    EmptyGap();
    LaidHead(ts, closed);
    LayoutHead(ts, closed, Laid(ts, closed));
  }

  lemma LaidHead(ts: seq<Token>, gaps: seq<string>)
    requires |gaps| == |ts| + 1 && ts != []
    ensures Laid(ts, gaps) == gaps[0] + (TokenText(ts[0]) + Laid(ts[1..], gaps[1..]))
  {
    hide TokenText;
  }

  lemma {:induction false} TokenizedFirst(s: string, t: Token, rest: string, us: seq<Token>)
    requires s != "" && !IsSpace(s[0]) && FirstToken(s) == Some(Lexed(t, |TokenText(t)|))
    requires s[|TokenText(t)|..] == rest && Tokenized(rest) == Some(us)
    ensures Tokenized(s) == Some([t] + us)
  {
    hide FirstToken, TokenText;
  }

  // ---------------------------------------------------------------------------------------
  // From the tokens to the layout
  // ---------------------------------------------------------------------------------------

  /** The first token stands at the front of the text and ends where it must. */
  lemma FirstTokenStands(s: string)
    requires s != "" && !IsSpace(s[0]) && FirstToken(s).Some?
    ensures var t, used := FirstToken(s).value.token, FirstToken(s).value.used;
            && IsToken(t)
            && s == TokenText(t) + s[used..]
            && (IsWordToken(t) ==> EndsWord(s[used..]))
            && ((t.Not? || t.Lt? || t.Gt?) && s[used..] != "" ==> s[used] != '=')
  {
    hide QuotedLength, WordLength, IsQuotable;
    if IsSpecial(s[0]) {
      SpecialStands(s);
    } else if s[0] == '"' {
      QuoteStands(s);
    } else {
      WordStands(s);
    }
  }

  lemma SpecialStands(s: string)
    requires s != "" && IsSpecial(s[0]) && !IsSpace(s[0])
    ensures FirstToken(s).Some?
    ensures var t, used := FirstToken(s).value.token, FirstToken(s).value.used;
            && IsToken(t) && !IsWordToken(t)
            && s == TokenText(t) + s[used..]
            && ((t.Not? || t.Lt? || t.Gt?) && s[used..] != "" ==> s[used] != '=')
  {
    hide QuotedLength, WordLength;
    var t, used := FirstToken(s).value.token, FirstToken(s).value.used;
    assert s[0] == TokenText(t)[0];
    assert used == 2 ==> s[1] == TokenText(t)[1];
    assert s[..used] == TokenText(t);
  }

  lemma QuoteStands(s: string)
    requires s != "" && s[0] == '"' && FirstToken(s).Some?
    ensures var t, used := FirstToken(s).value.token, FirstToken(s).value.used;
            t.Str? && IsToken(t) && s == TokenText(t) + s[used..]
  {
    hide WordLength, IsQuotable;
    var n := QuotedLength(s[1..]).value;
    var text := s[1..n + 1];
    QuotedPrefix(s[1..], n);
    assert text == s[1..][..n];
    assert s[n + 1] == s[1..][n] == '"';
    assert s == ['"'] + text + ['"'] + s[n + 2..];
    assert "\"" + text + "\"" == ['"'] + text + ['"'];
  }

  lemma {:induction false} QuotedPrefix(s: string, n: nat)
    requires QuotedLength(s) == Some(n)
    ensures n < |s| && IsQuotable(s[..n])
    decreases |s|
  {
    QuotableIff(s[..n]);
    if s[0] == '\\' {
      QuotedPrefix(s[2..], n - 2);
      assert s[2..][..n - 2] == s[..n][2..];
      QuotableIff(s[..n][2..]);
    } else if s[0] != '"' {
      QuotedPrefix(s[1..], n - 1);
      assert s[1..][..n - 1] == s[..n][1..];
      QuotableIff(s[..n][1..]);
    }
  }

  lemma WordStands(s: string)
    requires s != "" && !IsSpace(s[0]) && !IsSpecial(s[0]) && s[0] != '"' && FirstToken(s).Some?
    ensures var t, used := FirstToken(s).value.token, FirstToken(s).value.used;
            IsWordToken(t) && IsToken(t) && s == TokenText(t) + s[used..] && EndsWord(s[used..])
  {
    hide QuotedLength, IsIntWord, IsWordChar, IsSpace, IsSpecial;
    var n := WordLength(s).value;
    assert n > 0;
    assert s == s[..n] + s[n..];
  }

  lemma {:induction false} TokenizedLaid(s: string) returns (gaps: seq<string>)
    requires Tokenized(s).Some?
    ensures IsLayout(Tokenized(s).value, gaps, s)
    decreases |s|
  {
    hide FirstToken, IsToken, TokenText, MayFollow, IsGap, IsLayout;
    if s == "" {
      gaps := [""];
      NothingLaid();
    } else if IsSpace(s[0]) {
      var more := TokenizedLaid(s[1..]);
      LayoutLengths(Tokenized(s[1..]).value, more, s[1..]);
      OneMoreSpace(Tokenized(s[1..]).value, more, s[1..], s[0]);
      gaps := more[0 := [s[0]] + more[0]];
      assert [s[0]] + s[1..] == s;
    } else {
      var t, used := FirstToken(s).value.token, FirstToken(s).value.used;
      var us := Tokenized(s[used..]).value;
      var more := TokenizedLaid(s[used..]);
      FirstTokenStands(s);
      gaps := [""] + more;
      TokenLaid(t, us, more, s[used..]);
    }
  }

  lemma LayoutLengths(ts: seq<Token>, gaps: seq<string>, s: string)
    requires IsLayout(ts, gaps, s)
    ensures |gaps| == |ts| + 1
  {
  }

  lemma NothingLaid()
    ensures IsLayout([], [""], "")
  {
  }

  /** A token put before a layout that does not extend it. */
  lemma TokenLaid(t: Token, ts: seq<Token>, gaps: seq<string>, rest: string)
    requires IsLayout(ts, gaps, rest) && IsToken(t)
    requires IsWordToken(t) ==> EndsWord(rest)
    requires (t.Not? || t.Lt? || t.Gt?) && rest != "" ==> rest[0] != '='
    ensures IsLayout([t] + ts, [""] + gaps, TokenText(t) + rest)
  {
    hide IsToken, TokenText, MayFollow, IsGap, IsLayout, EndsWord;
    LayoutLengths(ts, gaps, rest);
    LayoutText(ts, gaps, rest);
    assert ([t] + ts)[1..] == ts && ([""] + gaps)[1..] == gaps;
    LayoutHead([t] + ts, [""] + gaps, TokenText(t) + rest);
    assert IsGap("") by { EmptyGap(); }
    assert "" + (TokenText(t) + rest) == TokenText(t) + rest;
    if ts != [] && gaps[0] == "" {
      LayoutHead(ts, gaps, rest);
      LaidStart(ts, gaps);
      NextMayFollow(t, ts[0], Laid(ts[1..], gaps[1..]));
      assert ([t] + ts)[1] == ts[0] && ([""] + gaps)[1] == gaps[0];
    }
  }

  lemma LayoutText(ts: seq<Token>, gaps: seq<string>, s: string)
    requires IsLayout(ts, gaps, s)
    ensures |gaps| == |ts| + 1 && s == Laid(ts, gaps)
  {
  }

  lemma EmptyGap()
    ensures IsGap("")
  {
  }

  lemma NextMayFollow(t: Token, next: Token, rest: string)
    requires IsToken(next)
    requires IsWordToken(t) ==> EndsWord(TokenText(next) + rest)
    requires (t.Not? || t.Lt? || t.Gt?) ==> (TokenText(next) + rest != "" ==> (TokenText(next) + rest)[0] != '=')
    ensures MayFollow(t, next)
  {
    hide IsQuotable, IsIntWord;
    var s := TokenText(next) + rest;
    StartsSpecial(next);
    assert s[0] == TokenText(next)[0];
    if IsWordToken(next) {
      assert IsWordChar(next.text[0]);
    }
  }

  /** The tokenizer finds exactly the tokens that a text consists of. */
  lemma TokenizedIff(s: string, ts: seq<Token>)
    ensures Tokenized(s) == Some(ts) <==> Spells(ts, s)
  {
    hide Tokenized, IsLayout;
    if Tokenized(s) == Some(ts) {
      var gaps := TokenizedLaid(s);
    }
    if Spells(ts, s) {
      var gaps :| IsLayout(ts, gaps, s);
      LayoutText(ts, gaps, s);
      LaidTokenized(ts, gaps);
    }
  }

  // ---------------------------------------------------------------------------------------
  // The grammar
  // ---------------------------------------------------------------------------------------

  /** A key alone or compared with something, a negation, or a series in parentheses. */
  datatype Primary =
    | Flag(key: Token)
    | Compared(key: Token, op: Token, value: Token)
    | Negated(of: Primary)
    | Grouped(series: Series)

  /** Primaries joined by `&` and `|`. */
  datatype Series = Series(first: Primary, tail: Tail)

  datatype Tail = Nothing | Then(op: Token, next: Primary, rest: Tail)

  predicate IsComparison(t: Token) {
    t.Lt? || t.Gt? || t.Eq? || t.Ne? || t.Le? || t.Ge?
  }

  function ComparisonOf(t: Token): Op
    requires IsComparison(t)
  {
    if t.Lt? then OpLt else if t.Gt? then OpGt else if t.Eq? then OpEq
    else if t.Ne? then OpNe else if t.Le? then OpLe else OpGe
  }

  predicate IsPrimary(p: Primary) {
    match p
    case Flag(key) => IsWordToken(key)
    case Compared(key, op, value) =>
      && IsWordToken(key)
      && IsComparison(op)
      && match value {
           case Str(_) => op.Eq? || op.Ne?
           case IntOrKey(word) => word != "" && IsIntWord(word)
           case Key(_) => true
           case _ => false
         }
    case Negated(x) => IsPrimary(x)
    case Grouped(series) => IsSeries(series)
  }

  predicate IsSeries(s: Series) {
    IsPrimary(s.first) && IsTail(s.tail)
  }

  predicate IsTail(t: Tail) {
    t.Then? ==> (t.op.And? || t.op.Or?) && IsPrimary(t.next) && IsTail(t.rest)
  }

  function PrimaryTokens(p: Primary): (ts: seq<Token>)
    ensures ts != []
  {
    match p
    case Flag(key) => [key]
    case Compared(key, op, value) => [key, op, value]
    case Negated(x) => [Not] + PrimaryTokens(x)
    case Grouped(series) => [LParen] + (SeriesTokens(series) + [RParen])
  }

  function SeriesTokens(s: Series): (ts: seq<Token>)
    ensures ts != []
  {
    PrimaryTokens(s.first) + TailTokens(s.tail)
  }

  function TailTokens(t: Tail): seq<Token> {
    match t
    case Nothing => []
    case Then(op, x, rest) => [op] + (PrimaryTokens(x) + TailTokens(rest))
  }

  /** The tree: comparisons by kind of value, and operators of equal precedence from left to right. */
  function PrimaryExpr(p: Primary): Expr
    requires IsPrimary(p)
  {
    match p
    case Flag(key) => LeafExpr(BoolLeaf(key.text))
    case Compared(key, op, value) =>
      LeafExpr(match value
               case Str(pattern) => StrLeaf(key.text, ComparisonOf(op), pattern)
               case IntOrKey(word) => IntLeaf(key.text, ComparisonOf(op), IntWordValue(word))
               case Key(other) => IdLeaf(key.text, ComparisonOf(op), other))
    case Negated(x) => NotExpr(PrimaryExpr(x))
    case Grouped(series) => SeriesExpr(series)
  }

  function SeriesExpr(s: Series): Expr
    requires IsSeries(s)
  {
    TailExpr(PrimaryExpr(s.first), s.tail)
  }

  function TailExpr(sofar: Expr, t: Tail): Expr
    requires IsTail(t)
    decreases t
  {
    match t
    case Nothing => sofar
    case Then(op, x, rest) =>
      TailExpr(if op.And? then AndExpr(sofar, PrimaryExpr(x)) else OrExpr(sofar, PrimaryExpr(x)), rest)
  }

  // ---------------------------------------------------------------------------------------
  // From the arrangement to the tree
  // ---------------------------------------------------------------------------------------

  /** What follows does not extend a key. */
  predicate NotExtending(rest: seq<Token>) {
    rest != [] ==> !IsComparison(rest[0])
  }

  lemma LeafArranged(p: Primary, rest: seq<Token>)
    requires IsPrimary(p) && (p.Flag? || p.Compared?) && NotExtending(rest)
    ensures ParsedOne(PrimaryTokens(p) + rest) == Parsed(PrimaryExpr(p), rest)
  {
    hide IntWordValue, IsIntWord, ParsedOne;
    var ts := PrimaryTokens(p);
    assert ts + rest == [p.key] + (ts[1..] + rest);
    LeafStarts(p.key, ts[1..] + rest);
    if p.Flag? {
      assert ts[1..] + rest == rest;
    } else {
      assert (ts[1..] + rest)[2..] == rest;
    }
  }

  lemma {:induction false} GroupStarts(inner: seq<Token>)
    ensures ParsedOne([LParen] + inner) == ParsedLevel(inner, 1)
  {
    hide ParsedLevel;
    assert ([LParen] + inner)[1..] == inner;
  }

  lemma {:induction false} NotStarts(inner: seq<Token>)
    ensures ParsedOne([Not] + inner) ==
            var r := ParsedOne(inner); if r.Failed? then r else Parsed(NotExpr(r.expr), r.rest)
  {
    assert ([Not] + inner)[1..] == inner;
  }

  lemma {:induction false} TailStarts(sofar: Expr, ts: seq<Token>, level: nat)
    requires ts != []
    ensures ParsedTail(sofar, ts, level) ==
            if ts[0] == RParen then
              if level == 0 then Failed(UnexpectedClose) else Parsed(sofar, ts[1..])
            else if ts[0] == And || ts[0] == Or then
              var one := ParsedOne(ts[1..]);
              if one.Failed? then one
              else ParsedTail(if ts[0] == And then AndExpr(sofar, one.expr) else OrExpr(sofar, one.expr), one.rest, level)
            else Failed(OperatorExpected)
  {
    hide ParsedOne;
  }

  /** What a series ends with: nothing at the outermost level, a parenthesis inside. */
  predicate EndsSeries(end: seq<Token>, level: nat) {
    if level == 0 then end == [] else end != [] && end[0] == RParen
  }

  function Behind(end: seq<Token>, level: nat): seq<Token>
    requires EndsSeries(end, level)
  {
    if level == 0 then end else end[1..]
  }

  lemma {:induction false} PrimaryArranged(p: Primary, rest: seq<Token>)
    requires IsPrimary(p) && NotExtending(rest)
    ensures ParsedOne(PrimaryTokens(p) + rest) == Parsed(PrimaryExpr(p), rest)
    decreases p
  {
    hide ParsedOne, IsIntWord, IntWordValue;
    match p
    case Flag(_) => LeafArranged(p, rest);
    case Compared(_, _, _) => LeafArranged(p, rest);
    case Negated(x) =>
      PrimaryArranged(x, rest);
      NotStarts(PrimaryTokens(x) + rest);
      assert [Not] + PrimaryTokens(x) + rest == [Not] + (PrimaryTokens(x) + rest);
    case Grouped(series) =>
      var inner := SeriesTokens(series) + ([RParen] + rest);
      assert [LParen] + (SeriesTokens(series) + [RParen]) + rest == [LParen] + inner;
      GroupStarts(inner);
      SeriesArranged(series, [RParen] + rest, 1);
      assert ([RParen] + rest)[1..] == rest;
  }

  lemma {:induction false} SeriesArranged(s: Series, end: seq<Token>, level: nat)
    requires IsSeries(s) && EndsSeries(end, level)
    ensures ParsedLevel(SeriesTokens(s) + end, level) == Parsed(SeriesExpr(s), Behind(end, level))
    decreases s
  {
    hide ParsedOne, ParsedTail, IsIntWord, PrimaryTokens, PrimaryExpr, TailTokens;
    var tail := TailTokens(s.tail) + end;
    assert PrimaryTokens(s.first) + TailTokens(s.tail) + end == PrimaryTokens(s.first) + tail;
    TailNotExtending(s.tail, end);
    PrimaryArranged(s.first, tail);
    TailArranged(PrimaryExpr(s.first), s.tail, end, level);
  }

  lemma TailNotExtending(t: Tail, end: seq<Token>)
    requires IsTail(t) && NotExtending(end)
    ensures NotExtending(TailTokens(t) + end)
  {
    if t.Nothing? {
      assert TailTokens(t) + end == end;
    }
  }

  lemma {:induction false} TailArranged(sofar: Expr, t: Tail, end: seq<Token>, level: nat)
    requires IsTail(t) && EndsSeries(end, level)
    ensures ParsedTail(sofar, TailTokens(t) + end, level) == Parsed(TailExpr(sofar, t), Behind(end, level))
    decreases t
  {
    hide ParsedOne, IsIntWord, PrimaryTokens, PrimaryExpr;
    match t
    case Nothing =>
      assert TailTokens(t) + end == end;
      if level > 0 {
        TailStarts(sofar, end, level);
      } else {
        TailAtEnd(sofar, 0);
      }
    case Then(op, x, rest) =>
      hide ParsedTail;
      var more := TailTokens(rest) + end;
      var ts := [op] + (PrimaryTokens(x) + more);
      assert TailTokens(t) + end == ts;
      assert ts[1..] == PrimaryTokens(x) + more;
      TailNotExtending(rest, end);
      PrimaryArranged(x, more);
      TailStarts(sofar, ts, level);
      TailArranged(if op.And? then AndExpr(sofar, PrimaryExpr(x)) else OrExpr(sofar, PrimaryExpr(x)), rest, end, level);
  }

  // ---------------------------------------------------------------------------------------
  // From the tree to the arrangement
  // ---------------------------------------------------------------------------------------

  lemma LeafFound(ts: seq<Token>) returns (p: Primary)
    requires ts != [] && IsWordToken(ts[0]) && ParsedOne(ts).Parsed?
    ensures IsPrimary(p) && PrimaryTokens(p) + ParsedOne(ts).rest == ts && PrimaryExpr(p) == ParsedOne(ts).expr
  {
    hide IntWordValue, IsIntWord, ParsedOne;
    var key, more := ts[0], ts[1..];
    assert ts == [key] + more;
    LeafStarts(key, more);
    if more == [] || TokenOp(more[0]).None? {
      p := Flag(key);
    } else {
      p := Compared(key, more[0], more[1]);
      assert more == [more[0], more[1]] + more[2..];
    }
  }

  lemma {:induction false} PrimaryFound(ts: seq<Token>) returns (p: Primary)
    requires ParsedOne(ts).Parsed?
    ensures IsPrimary(p) && PrimaryTokens(p) + ParsedOne(ts).rest == ts && PrimaryExpr(p) == ParsedOne(ts).expr
    decreases |ts|, 0
  {
    hide IntWordValue, IsIntWord, ParsedLeaf, ParsedLevel;
    var more := ts[1..];
    assert ts == [ts[0]] + more;
    match ts[0]
    case Not =>
      var x := PrimaryFound(more);
      p := Negated(x);
      assert [Not] + PrimaryTokens(x) + ParsedOne(ts).rest == [Not] + (PrimaryTokens(x) + ParsedOne(ts).rest);
    case LParen =>
      var series := SeriesFound(more, 1);
      p := Grouped(series);
      var rest := ParsedOne(ts).rest;
      assert [LParen] + (SeriesTokens(series) + [RParen]) + rest == [LParen] + (SeriesTokens(series) + ([RParen] + rest));
    case Key(_) => p := LeafFound(ts);
    case IntOrKey(_) => p := LeafFound(ts);
  }

  lemma {:induction false} SeriesFound(ts: seq<Token>, level: nat) returns (s: Series)
    requires ParsedLevel(ts, level).Parsed?
    ensures IsSeries(s) && SeriesExpr(s) == ParsedLevel(ts, level).expr
    ensures var rest := ParsedLevel(ts, level).rest;
            if level == 0 then rest == [] && SeriesTokens(s) == ts else SeriesTokens(s) + ([RParen] + rest) == ts
    decreases |ts|, 1
  {
    hide ParsedOne, ParsedTail, IsIntWord, PrimaryTokens, PrimaryExpr;
    var one := ParsedOne(ts);
    var first := PrimaryFound(ts);
    var tail := TailFound(one.expr, one.rest, level);
    s := Series(first, tail);
    var rest := ParsedLevel(ts, level).rest;
    assert PrimaryTokens(first) + TailTokens(tail) + ([RParen] + rest) ==
           PrimaryTokens(first) + (TailTokens(tail) + ([RParen] + rest));
  }

  lemma {:induction false} TailFound(sofar: Expr, ts: seq<Token>, level: nat) returns (t: Tail)
    requires ParsedTail(sofar, ts, level).Parsed?
    ensures IsTail(t) && TailExpr(sofar, t) == ParsedTail(sofar, ts, level).expr
    ensures var rest := ParsedTail(sofar, ts, level).rest;
            if level == 0 then rest == [] && TailTokens(t) == ts else TailTokens(t) + ([RParen] + rest) == ts
    decreases |ts|, 0
  {
    hide ParsedOne, ParsedTail, IsIntWord, PrimaryTokens, PrimaryExpr;
    if ts == [] {
      t := Nothing;
      TailAtEnd(sofar, level);
    } else {
      TailStarts(sofar, ts, level);
      assert ts == [ts[0]] + ts[1..];
      if ts[0] == RParen {
        t := Nothing;
        assert [] + ([RParen] + ts[1..]) == ts;
      } else {
        var one := ParsedOne(ts[1..]);
        var x := PrimaryFound(ts[1..]);
        var next := if ts[0] == And then AndExpr(sofar, one.expr) else OrExpr(sofar, one.expr);
        var rest := TailFound(next, one.rest, level);
        t := Then(ts[0], x, rest);
        ThenTokens(ts[0], PrimaryTokens(x), TailTokens(rest), [RParen] + ParsedTail(sofar, ts, level).rest);
      }
    }
  }

  lemma ThenTokens(op: Token, x: seq<Token>, rest: seq<Token>, end: seq<Token>)
    ensures [op] + (x + rest) + end == [op] + (x + (rest + end))
  {
  }

  // ---------------------------------------------------------------------------------------
  // Texts and trees
  // ---------------------------------------------------------------------------------------

  /** The parser accepts exactly the token lists that are arranged as a series, as the tree of
      that series. */
  lemma ParsedIff(ts: seq<Token>, e: Expr)
    ensures ParsedLevel(ts, 0) == Parsed(e, []) <==>
            exists s :: IsSeries(s) && SeriesTokens(s) == ts && SeriesExpr(s) == e
    ensures ParsedLevel(ts, 0).Parsed? ==> ParsedLevel(ts, 0).rest == []
  {
    hide ParsedLevel, SeriesTokens, SeriesExpr, IsSeries;
    if ParsedLevel(ts, 0).Parsed? {
      var s := SeriesFound(ts, 0);
    }
    if exists s :: IsSeries(s) && SeriesTokens(s) == ts && SeriesExpr(s) == e {
      var s :| IsSeries(s) && SeriesTokens(s) == ts && SeriesExpr(s) == e;
      SeriesParses(s);
    }
  }

  lemma SeriesParses(s: Series)
    requires IsSeries(s)
    ensures ParsedLevel(SeriesTokens(s), 0) == Parsed(SeriesExpr(s), [])
  {
    hide ParsedLevel, SeriesTokens, SeriesExpr, IsSeries;
    SeriesArranged(s, [], 0);
    assert SeriesTokens(s) + [] == SeriesTokens(s);
  }

  /** A text consists of the tokens of a series with this tree. */
  ghost predicate ReadsAs(text: string, e: Expr) {
    exists s :: IsSeries(s) && SeriesExpr(s) == e && Spells(SeriesTokens(s), text)
  }

  /** Tokenizing and parsing accept exactly the texts of series, as their trees. */
  lemma ParsedTextIff(text: string, e: Expr)
    ensures ParsedText(text) == Some(e) <==> ReadsAs(text, e)
  {
    hide ParsedLevel, SeriesTokens, SeriesExpr, IsSeries, Tokenized, Spells;
    if ParsedText(text) == Some(e) {
      var ts := Tokenized(text).value;
      TokenizedIff(text, ts);
      ParsedIff(ts, e);
    }
    if ReadsAs(text, e) {
      var s :| IsSeries(s) && SeriesExpr(s) == e && Spells(SeriesTokens(s), text);
      var ts := SeriesTokens(s);
      TokenizedIff(text, ts);
      SeriesParses(s);
    }
  }

  // ---------------------------------------------------------------------------------------
  // What is said of token lists that are refused
  // ---------------------------------------------------------------------------------------

  /** Where a primary is expected. */
  lemma {:induction false} PrimaryErrors(t: Token, rest: seq<Token>)
    ensures ParsedOne([]) == Failed(ExpressionExpected)
    ensures !IsWordToken(t) && t != Not && t != LParen ==> ParsedOne([t] + rest) == Failed(KeyExpected)
  {
    hide ParsedLeaf, ParsedLevel;
  }

  /** Behind a key and a comparison. */
  lemma ComparisonErrors(key: Token, op: Token, value: Token, rest: seq<Token>)
    requires IsWordToken(key) && IsComparison(op)
    ensures ParsedOne([key, op]) == Failed(RightSideExpected)
    ensures value.Str? && !op.Eq? && !op.Ne? ==> ParsedOne([key, op, value] + rest) == Failed(InvalidStringOperator)
    ensures !value.Str? && !IsWordToken(value) ==>
              ParsedOne([key, op, value] + rest) ==
              Failed(if op.Eq? || op.Ne? then IntegerOrStringExpected else IntegerExpected)
  {
    hide ParsedOne;
    assert [key, op] == [key] + [op];
    LeafStarts(key, [op]);
    assert [key, op, value] + rest == [key] + ([op, value] + rest);
    LeafStarts(key, [op, value] + rest);
  }

  /** What is said behind a series that should not end there. */
  function EndError(end: seq<Token>, level: nat): Option<ParseError> {
    if end == [] then if level > 0 then Some(CloseExpected) else None
    else if end[0] == RParen then if level == 0 then Some(UnexpectedClose) else None
    else if end[0] == And || end[0] == Or then None
    else Some(OperatorExpected)
  }

  lemma {:induction false} TailErrors(sofar: Expr, t: Tail, end: seq<Token>, level: nat)
    requires IsTail(t) && NotExtending(end) && EndError(end, level).Some?
    ensures ParsedTail(sofar, TailTokens(t) + end, level) == Failed(EndError(end, level).value)
    decreases t
  {
    hide ParsedOne, PrimaryTokens, PrimaryExpr, IsPrimary;
    match t
    case Nothing => assert TailTokens(t) + end == end;
    case Then(op, x, rest) =>
      hide ParsedTail;
      var more := TailTokens(rest) + end;
      var ts := [op] + (PrimaryTokens(x) + more);
      assert TailTokens(t) + end == ts && ts[1..] == PrimaryTokens(x) + more;
      TailNotExtending(rest, end);
      PrimaryArranged(x, more);
      TailStarts(sofar, ts, level);
      TailErrors(if op.And? then AndExpr(sofar, PrimaryExpr(x)) else OrExpr(sofar, PrimaryExpr(x)), rest, end, level);
  }

  /** Behind a series: a parenthesis that is not closed, one that was not opened, and something that
      no operator joins. */
  lemma SeriesErrors(s: Series, end: seq<Token>, level: nat)
    requires IsSeries(s) && NotExtending(end) && EndError(end, level).Some?
    ensures ParsedLevel(SeriesTokens(s) + end, level) == Failed(EndError(end, level).value)
  {
    hide ParsedOne, ParsedTail, PrimaryTokens, PrimaryExpr, TailTokens, IsPrimary, EndError;
    var tail := TailTokens(s.tail) + end;
    assert PrimaryTokens(s.first) + TailTokens(s.tail) + end == PrimaryTokens(s.first) + tail;
    TailNotExtending(s.tail, end);
    PrimaryArranged(s.first, tail);
    TailErrors(PrimaryExpr(s.first), s.tail, end, level);
  }
}
