/** What format strings mean: a tree of their parts, its text, and the proof that the validator
    and the interpreter read that text as the tree says. */
module FormatMeaning {
  import opened Basics
  import opened FilterExpr
  import FilterSyntax
  import opened ShortMeaning
  import opened FormatPrint

  datatype Name = ByLetter(ch: char) | ByName(name: string)

  /** A directive that prints an option. */
  datatype Value = Value(alignLeft: bool, loose: bool, zero: bool, digits: string, percent: bool, name: Name)

  datatype Items =
    | Done
    | Plain(ch: char, rest: Items)
    | Mark(mark: char, rest: Items)
    | Show(value: Value, rest: Items)
    | If(cond: string, yes: Items, rest: Items)
    | IfElse(cond: string, yes: Items, no: Items, rest: Items)

  // ---------------------------------------------------------------------------------------
  // Text
  // ---------------------------------------------------------------------------------------

  function Flag(b: bool, c: char): string {
    if b then [c] else ""
  }

  function NameText(n: Name): (s: string)
    ensures s != ""
  {
    match n
    case ByLetter(c) => [c]
    case ByName(name) => "{" + (name + "}")
  }

  function ValueText(v: Value): string {
    Flag(v.alignLeft, '-') + (Flag(v.loose, '.') + (Flag(v.zero, '0') + (v.digits + (Flag(v.percent, '%') + NameText(v.name)))))
  }

  function Text(items: Items): string {
    match items
    case Done => ""
    case Plain(c, rest) => [c] + Text(rest)
    case Mark(c, rest) => ['%', c] + Text(rest)
    case Show(v, rest) => "%" + (ValueText(v) + Text(rest))
    case If(c, yes, rest) => "%{?" + (c + ("?" + (Text(yes) + ("}" + Text(rest)))))
    case IfElse(c, yes, no, rest) => "%{?" + (c + ("?" + (Text(yes) + ("?" + (Text(no) + ("}" + Text(rest)))))))
  }

  // ---------------------------------------------------------------------------------------
  // Shape and meaning
  // ---------------------------------------------------------------------------------------

  /** Neither a mark nor a part of what may precede a letter. */
  predicate IsLetter(c: char) {
    !IsDigit(c) && !IsPlainMark(c) && c != '-' && c != '.' && c != '{' && c != '}' && c != '\0'
  }

  predicate IsName(n: Name) {
    match n
    case ByLetter(c) => IsLetter(c)
    case ByName(s) => s != "" && s[0] != '?' && forall i :: 0 <= i < |s| ==> s[i] != '}' && s[i] != '%'
  }

  /** A width starts with a zero only as a flag, and a percent sign follows something. */
  predicate IsValue(v: Value) {
    && AllDigits(v.digits)
    && (v.digits != "" && !v.zero ==> v.digits[0] != '0')
    && (v.percent ==> v.alignLeft || v.loose || v.zero || v.digits != "")
    && IsName(v.name)
  }

  /** The first mark that belongs to the condition is the one that is put behind it. */
  predicate IsCond(c: string) {
    NextMark(c + "?", 0) == Some(|c|)
  }

  /** The parts of the items are as their kinds ask. Inside a condition a bare question mark or brace
      would end the text. */
  predicate Loose(items: Items, inner: bool) {
    match items
    case Done => true
    case Plain(c, rest) => c != '%' && (inner ==> c != '?' && c != '}') && Loose(rest, inner)
    case Mark(c, rest) => IsPlainMark(c) && Loose(rest, inner)
    case Show(v, rest) => IsValue(v) && Loose(rest, inner)
    case If(c, yes, rest) => IsCond(c) && Loose(yes, true) && Loose(rest, inner)
    case IfElse(c, yes, no, rest) => IsCond(c) && Loose(yes, true) && Loose(no, true) && Loose(rest, inner)
  }

  /** Moreover no long name stands behind a percent width inside a condition. */
  predicate Shaped(items: Items, inner: bool) {
    match items
    case Done => true
    case Plain(c, rest) => c != '%' && (inner ==> c != '?' && c != '}') && Shaped(rest, inner)
    case Mark(c, rest) => IsPlainMark(c) && Shaped(rest, inner)
    case Show(v, rest) => IsValue(v) && (inner ==> v.percent ==> v.name.ByLetter?) && Shaped(rest, inner)
    case If(c, yes, rest) => IsCond(c) && Shaped(yes, true) && Shaped(rest, inner)
    case IfElse(c, yes, no, rest) => IsCond(c) && Shaped(yes, true) && Shaped(no, true) && Shaped(rest, inner)
  }

  function CondExpr(c: string): Option<Expr> {
    if HasControl(c) then None else ParsedText(c)
  }

  function LongName(n: Name): string {
    if n.ByName? then n.name else ""
  }

  function LetterOf(n: Name): char {
    if n.ByLetter? then n.ch else '}'
  }

  /** Every option named is known, zeros are asked for only where they are allowed, and every
      condition is a filter expression. */
  predicate Known(items: Items, opts: seq<FormatOption>) {
    match items
    case Done => true
    case Plain(_, rest) => Known(rest, opts)
    case Mark(_, rest) => Known(rest, opts)
    case Show(v, rest) => KnownOption(opts, LongName(v.name), LetterOf(v.name), v.zero) && Known(rest, opts)
    case If(c, yes, rest) => CondExpr(c).Some? && Known(yes, opts) && Known(rest, opts)
    case IfElse(c, yes, no, rest) => CondExpr(c).Some? && Known(yes, opts) && Known(no, opts) && Known(rest, opts)
  }

  function WidthOf(v: Value, strWidth: nat): nat
    requires AllDigits(v.digits)
  {
    if v.percent then PercentOf(Digits(v.digits), strWidth) else Digits(v.digits)
  }

  function Shown(v: Value, opts: seq<FormatOption>, strWidth: nat): Piece
    requires IsValue(v) && KnownOption(opts, LongName(v.name), LetterOf(v.name), v.zero)
  {
    Field(FindOption(opts, LongName(v.name), LetterOf(v.name)).value, WidthOf(v, strWidth), !v.loose, v.alignLeft,
          if v.zero then '0' else ' ')
  }

  /** What the items print, given which conditions hold. */
  function Meaning(items: Items, inner: bool, opts: seq<FormatOption>, truth: Expr -> bool, strWidth: nat, out: Output): Output
    requires Shaped(items, inner) && Known(items, opts)
    decreases items
  {
    match items
    case Done => out
    case Plain(c, rest) => Meaning(rest, inner, opts, truth, strWidth, Emit(out, Letter(c)))
    case Mark(c, rest) => Meaning(rest, inner, opts, truth, strWidth, EmitMark(out, c))
    case Show(v, rest) => Meaning(rest, inner, opts, truth, strWidth, Emit(out, Shown(v, opts, strWidth)))
    case If(c, yes, rest) =>
      var shown := if truth(CondExpr(c).value) then Meaning(yes, true, opts, truth, strWidth, out) else out;
      Meaning(rest, inner, opts, truth, strWidth, shown)
    case IfElse(c, yes, no, rest) =>
      var shown := if truth(CondExpr(c).value) then Meaning(yes, true, opts, truth, strWidth, out)
                   else Meaning(no, true, opts, truth, strWidth, out);
      Meaning(rest, inner, opts, truth, strWidth, shown)
  }

  // ---------------------------------------------------------------------------------------
  // Texts within a format
  // ---------------------------------------------------------------------------------------

  predicate IsAt(f: string, s: nat, t: string) {
    s + |t| <= |f| && f[s..s + |t|] == t
  }

  lemma AtSplit(f: string, s: nat, a: string, b: string)
    requires IsAt(f, s, a + b)
    ensures IsAt(f, s, a) && IsAt(f, s + |a|, b)
  {
    var t := f[s..s + |a + b|];
    assert f[s..s + |a|] == t[..|a|] == a;
    assert f[s + |a|..s + |a| + |b|] == t[|a|..] == b;
  }

  lemma AtChar(f: string, s: nat, t: string, i: nat)
    requires IsAt(f, s, t) && i < |t|
    ensures s + i < |f| && f[s + i] == t[i]
  {
    assert f[s..s + |t|][i] == t[i];
  }

  // ---------------------------------------------------------------------------------------
  // The part before the letter
  // ---------------------------------------------------------------------------------------

  /** Where the parts of a directive are. */
  datatype Places = Places(dot: nat, zero: nat, digits: nat, percent: nat, name: nat)

  function PlacesOf(v: Value, i: nat): (p: Places)
    ensures i <= p.dot <= p.zero <= p.digits <= p.percent <= p.name
  {
    var dot := i + |Flag(v.alignLeft, '-')|;
    var zero := dot + |Flag(v.loose, '.')|;
    var digits := zero + |Flag(v.zero, '0')|;
    var percent := digits + |v.digits|;
    Places(dot, zero, digits, percent, percent + |Flag(v.percent, '%')|)
  }

  lemma PlacesAt(f: string, i: nat, v: Value)
    requires IsAt(f, i, ValueText(v))
    ensures var p := PlacesOf(v, i);
            && IsAt(f, i, Flag(v.alignLeft, '-')) && IsAt(f, p.dot, Flag(v.loose, '.'))
            && IsAt(f, p.zero, Flag(v.zero, '0')) && IsAt(f, p.digits, v.digits)
            && IsAt(f, p.percent, Flag(v.percent, '%')) && IsAt(f, p.name, NameText(v.name))
            && p.name + |NameText(v.name)| == i + |ValueText(v)|
  {
    hide IsAt, Flag, NameText;
    var p := PlacesOf(v, i);
    var e := Flag(v.percent, '%') + NameText(v.name);
    var d := v.digits + e;
    var c := Flag(v.zero, '0') + d;
    var b := Flag(v.loose, '.') + c;
    AtSplit(f, i, Flag(v.alignLeft, '-'), b);
    AtSplit(f, p.dot, Flag(v.loose, '.'), c);
    AtSplit(f, p.zero, Flag(v.zero, '0'), d);
    AtSplit(f, p.digits, v.digits, e);
    AtSplit(f, p.percent, Flag(v.percent, '%'), NameText(v.name));
  }

  function First(n: Name): char {
    if n.ByLetter? then n.ch else '{'
  }

  lemma FirstOfName(n: Name)
    ensures NameText(n)[0] == First(n)
  {
  }

  lemma PercentPlace(v: Value, i: nat)
    ensures !v.percent ==> PlacesOf(v, i).percent == PlacesOf(v, i).name
    ensures PlacesOf(v, i).percent == PlacesOf(v, i).digits + |v.digits|
  {
  }

  lemma FlagAt(f: string, i: nat, b: bool, c: char)
    requires IsAt(f, i, Flag(b, c))
    ensures b ==> i < |f| && f[i] == c
  {
    if b {
      AtChar(f, i, Flag(b, c), 0);
    }
  }

  /** The characters at those places. */
  lemma CharsAt(f: string, i: nat, v: Value)
    requires IsAt(f, i, ValueText(v)) && IsValue(v)
    ensures var p := PlacesOf(v, i);
            && p.name < |f| && f[p.name] == First(v.name)
            && f[p.percent] == (if v.percent then '%' else f[p.name])
            && (forall k :: p.digits <= k < p.percent ==> IsDigit(f[k]))
            && (v.digits != "" ==> f[p.digits] == v.digits[0])
            && (v.zero ==> f[p.zero] == '0') && (v.loose ==> f[p.dot] == '.') && (v.alignLeft ==> f[i] == '-')
  {
    hide IsAt, ValueText, NameText, IsName, Flag;
    var p := PlacesOf(v, i);
    PlacesAt(f, i, v);
    AtChar(f, p.name, NameText(v.name), 0);
    FirstOfName(v.name);
    PercentPlace(v, i);
    FlagAt(f, p.percent, v.percent, '%');
    FlagAt(f, p.zero, v.zero, '0');
    FlagAt(f, p.dot, v.loose, '.');
    FlagAt(f, i, v.alignLeft, '-');
    forall k | p.digits <= k < p.percent
      ensures IsDigit(f[k])
    {
      AtChar(f, p.digits, v.digits, k - p.digits);
    }
    if v.digits != "" {
      AtChar(f, p.digits, v.digits, 0);
    }
  }

  lemma DigitsEnd(f: string, i: nat, j: nat)
    requires i <= j < |f| && !IsDigit(f[j]) && forall k :: i <= k < j ==> IsDigit(f[k])
    ensures PastDigits(f, i) == j
  {
    hide PastDigits;
    assert forall k :: i <= k < j ==> IsDigit(At(f, k));
    assert !IsDigit(At(f, PastDigits(f, i)));
  }

  lemma FlagsPassed(f: string, i: nat, v: Value)
    requires IsAt(f, i, ValueText(v)) && IsValue(v)
    ensures var p := PlacesOf(v, i);
            && p.name < |f|
            && Past(f, i, '-') == p.dot && Past(f, p.dot, '.') == p.zero && Past(f, p.zero, '0') == p.digits
            && Past(f, p.percent, '%') == p.name && !IsPlainMark(f[i])
  {
    hide ValueText, IsAt;
    CharsAt(f, i, v);
  }

  lemma DigitsPassed(f: string, i: nat, v: Value)
    requires IsAt(f, i, ValueText(v)) && IsValue(v)
    ensures var p := PlacesOf(v, i);
            p.name < |f| && PastDigits(f, p.zero) == p.percent && PastDigits(f, p.digits) == p.percent
  {
    hide ValueText, IsAt, PastDigits;
    CharsAt(f, i, v);
    var p := PlacesOf(v, i);
    DigitsEnd(f, p.digits, p.percent);
    DigitsEnd(f, p.zero, p.percent);
  }

  /** The three readings of that part. */
  lemma HeadIs(f: string, i: nat, v: Value, strWidth: nat)
    requires IsAt(f, i, ValueText(v)) && IsValue(v)
    ensures var p := PlacesOf(v, i);
            && PastSign(f, i) == p.percent
            && ReadValidHead(f, i) == ValidHead(p.name, v.zero)
            && ReadPrintHead(f, i, strWidth) ==
               PrintHead(p.name, WidthOf(v, strWidth), !v.loose, v.alignLeft, if v.zero then '0' else ' ')
            && !(i < |f| && IsPlainMark(f[i]))
  {
    hide ValueText, IsAt, IsValue, Digits, PastDigits, DigitsValue, PercentOf, Past, IsPlainMark;
    FlagsPassed(f, i, v);
    DigitsPassed(f, i, v);
    WidthRead(f, i, v);
  }

  lemma NoDigits()
    ensures Digits("") == 0
  {
  }

  lemma WidthRead(f: string, i: nat, v: Value)
    requires IsAt(f, i, ValueText(v)) && IsValue(v)
    ensures var p := PlacesOf(v, i);
            p.digits <= |f| && DigitsValue(f, p.digits, 0) == Digits(v.digits)
  {
    hide ValueText, IsValue, IsAt, Flag, NameText, PlacesOf, Digits, DigitsValue;
    PlacesAt(f, i, v);
    DigitsStop(f, i, v);
    PercentPlace(v, i);
    ReadDigitsValue(f, PlacesOf(v, i).digits, v.digits, 0);
    assert v.digits[..0] == "";
    NoDigits();
  }

  lemma DigitsStop(f: string, i: nat, v: Value)
    requires IsAt(f, i, ValueText(v)) && IsValue(v)
    ensures AllDigits(v.digits) && PlacesOf(v, i).percent < |f| && !IsDigit(f[PlacesOf(v, i).percent])
  {
    hide ValueText, IsAt;
    CharsAt(f, i, v);
  }

  lemma {:induction false} ReadDigitsValue(f: string, i: nat, ds: string, k: nat)
    requires IsAt(f, i, ds) && AllDigits(ds) && k <= |ds|
    requires i + |ds| < |f| && !IsDigit(f[i + |ds|])
    ensures DigitsValue(f, i + k, Digits(ds[..k])) == Digits(ds)
    decreases |ds| - k
  {
    if k == |ds| {
      assert ds[..k] == ds;
    } else {
      AtChar(f, i, ds, k);
      assert ds[..k + 1][..k] == ds[..k];
      ReadDigitsValue(f, i, ds, k + 1);
    }
  }

  // ---------------------------------------------------------------------------------------
  // Where the parts of a condition are
  // ---------------------------------------------------------------------------------------

  /** The beginning of a condition, up to the text shown when it holds. */
  lemma CondAt(f: string, s: nat, c: string, t: string)
    requires IsAt(f, s, "%{?" + (c + ("?" + t)))
    ensures var q := s + 3 + |c|;
            && q < |f| && f[s] == '%' && f[s + 1] == '{' && f[s + 2] == '?' && f[q] == '?'
            && IsAt(f, s + 3, c) && IsAt(f, q + 1, t)
  {
    hide IsAt;
    AtSplit(f, s, "%{?", c + ("?" + t));
    AtChar(f, s, "%{?", 0);
    AtChar(f, s, "%{?", 1);
    AtChar(f, s, "%{?", 2);
    AtSplit(f, s + 3, c, "?" + t);
    AtSplit(f, s + 3 + |c|, "?", t);
    AtChar(f, s + 3 + |c|, "?", 0);
  }

  /** Items up to the character behind them. */
  lemma ItemsThenChar(f: string, s: nat, t: string, ch: char, more: string)
    requires IsAt(f, s, t + ([ch] + more))
    ensures IsAt(f, s, t) && s + |t| < |f| && f[s + |t|] == ch && IsAt(f, s + |t| + 1, more)
  {
    hide IsAt;
    AtSplit(f, s, t, [ch] + more);
    AtSplit(f, s + |t|, [ch], more);
    AtChar(f, s + |t|, [ch], 0);
  }

  lemma IfAt(f: string, s: nat, c: string, yes: Items, rest: Items)
    requires IsAt(f, s, Text(If(c, yes, rest)))
    ensures var q := s + 3 + |c|;
            var e := q + 1 + |Text(yes)|;
            && e < |f| && f[s] == '%' && f[s + 1] == '{' && f[s + 2] == '?' && f[q] == '?' && f[e] == '}'
            && IsAt(f, s + 3, c) && IsAt(f, q + 1, Text(yes)) && IsAt(f, e + 1, Text(rest))
            && s + |Text(If(c, yes, rest))| == e + 1 + |Text(rest)|
  {
    hide IsAt, Text;
    TextOfIf(c, yes, rest);
    CondAt(f, s, c, Text(yes) + ("}" + Text(rest)));
    ItemsThenChar(f, s + 4 + |c|, Text(yes), '}', Text(rest));
  }

  lemma TextOfIf(c: string, yes: Items, rest: Items)
    ensures Text(If(c, yes, rest)) == "%{?" + (c + ("?" + (Text(yes) + ("}" + Text(rest)))))
    ensures |Text(If(c, yes, rest))| == 5 + |c| + |Text(yes)| + |Text(rest)|
  {
  }

  lemma TextOfIfElse(c: string, yes: Items, no: Items, rest: Items)
    ensures Text(IfElse(c, yes, no, rest)) ==
            "%{?" + (c + ("?" + (Text(yes) + ("?" + (Text(no) + ("}" + Text(rest)))))))
    ensures |Text(IfElse(c, yes, no, rest))| == 6 + |c| + |Text(yes)| + |Text(no)| + |Text(rest)|
  {
  }

  lemma IfElseAt(f: string, s: nat, c: string, yes: Items, no: Items, rest: Items)
    requires IsAt(f, s, Text(IfElse(c, yes, no, rest)))
    ensures var q := s + 3 + |c|;
            var e := q + 1 + |Text(yes)|;
            var g := e + 1 + |Text(no)|;
            && g < |f| && f[s] == '%' && f[s + 1] == '{' && f[s + 2] == '?' && f[q] == '?' && f[e] == '?' && f[g] == '}'
            && IsAt(f, s + 3, c) && IsAt(f, q + 1, Text(yes)) && IsAt(f, e + 1, Text(no)) && IsAt(f, g + 1, Text(rest))
            && s + |Text(IfElse(c, yes, no, rest))| == g + 1 + |Text(rest)|
  {
    hide IsAt, Text;
    TextOfIfElse(c, yes, no, rest);
    var t := Text(no) + ("}" + Text(rest));
    CondAt(f, s, c, Text(yes) + ("?" + t));
    ItemsThenChar(f, s + 4 + |c|, Text(yes), '?', t);
    ItemsThenChar(f, s + 5 + |c| + |Text(yes)|, Text(no), '}', Text(rest));
  }

  lemma PlainAt(f: string, s: nat, c: char, rest: Items)
    requires IsAt(f, s, Text(Plain(c, rest)))
    ensures s < |f| && f[s] == c && IsAt(f, s + 1, Text(rest)) && |Text(Plain(c, rest))| == 1 + |Text(rest)|
  {
    hide IsAt;
    AtSplit(f, s, [c], Text(rest));
    AtChar(f, s, [c], 0);
  }

  lemma MarkAt(f: string, s: nat, c: char, rest: Items)
    requires IsAt(f, s, Text(Mark(c, rest)))
    ensures s + 1 < |f| && f[s] == '%' && f[s + 1] == c && IsAt(f, s + 2, Text(rest))
    ensures |Text(Mark(c, rest))| == 2 + |Text(rest)|
  {
    hide IsAt;
    AtSplit(f, s, ['%', c], Text(rest));
    AtChar(f, s, ['%', c], 0);
    AtChar(f, s, ['%', c], 1);
  }

  lemma ShowAt(f: string, s: nat, v: Value, rest: Items)
    requires IsAt(f, s, Text(Show(v, rest)))
    ensures s < |f| && f[s] == '%' && IsAt(f, s + 1, ValueText(v)) && IsAt(f, s + 1 + |ValueText(v)|, Text(rest))
    ensures |Text(Show(v, rest))| == 1 + |ValueText(v)| + |Text(rest)|
  {
    hide IsAt, ValueText;
    AtSplit(f, s, "%", ValueText(v) + Text(rest));
    AtChar(f, s, "%", 0);
    AtSplit(f, s + 1, ValueText(v), Text(rest));
  }

  // ---------------------------------------------------------------------------------------
  // Looking for the ends of conditions
  // ---------------------------------------------------------------------------------------

  lemma {:induction false} BracesSkipText(f: string, s: nat, t: string, k: nat, level: nat)
    requires IsAt(f, s, t) && k <= |t| && level > 0
    requires forall i :: 0 <= i < |t| ==> t[i] != '}' && t[i] != '%'
    ensures PastBraces(f, s + k, level) == PastBraces(f, s + |t|, level)
    decreases |t| - k
  {
    if k < |t| {
      AtChar(f, s, t, k);
      BracesSkipText(f, s, t, k + 1, level);
    }
  }

  // What a text is searched for is found wherever the text stands.

  lemma {:induction false} DigitsLocal(f: string, s: nat, t: string, i: nat)
    requires IsAt(f, s, t) && i <= |t| && PastDigits(t, i) < |t|
    ensures s + i <= |f| && PastDigits(f, s + i) == s + PastDigits(t, i)
    decreases |t| - i
  {
    AtChar(f, s, t, i);
    if IsDigit(t[i]) {
      DigitsLocal(f, s, t, i + 1);
    }
  }

  lemma PastLocal(f: string, s: nat, t: string, i: nat, c: char)
    requires IsAt(f, s, t) && i < |t|
    ensures s + i <= |f| && Past(f, s + i, c) == s + Past(t, i, c)
  {
    AtChar(f, s, t, i);
  }

  lemma SignLocal(f: string, s: nat, t: string, i: nat)
    requires IsAt(f, s, t) && i <= |t| && PastSign(t, i) < |t|
    ensures s + i <= |f| && PastSign(f, s + i) == s + PastSign(t, i)
  {
    hide IsAt, PastDigits;
    PastLocal(f, s, t, i, '-');
    var j := Past(t, i, '-');
    PastLocal(f, s, t, j, '.');
    DigitsLocal(f, s, t, Past(t, j, '.'));
  }

  lemma {:induction false} BracesLocal(f: string, s: nat, t: string, k: nat, level: nat)
    requires IsAt(f, s, t) && k <= |t| && PastBraces(t, k, level).Some?
    ensures s + k <= |f| && PastBraces(f, s + k, level) == Some(s + PastBraces(t, k, level).value)
    decreases |t| - k
  {
    hide IsAt, PastSign;
    AtLength(f, s, t);
    if level > 0 {
      AtChar(f, s, t, k);
      if t[k] == '}' {
        BracesLocal(f, s, t, k + 1, level - 1);
      } else if t[k] != '%' {
        BracesLocal(f, s, t, k + 1, level);
      } else if k + 1 < |t| && IsPlainMark(t[k + 1]) {
        AtChar(f, s, t, k + 1);
        BracesLocal(f, s, t, k + 2, level);
      } else {
        var i := PastSign(t, k + 1);
        SignLocal(f, s, t, k + 1);
        AtChar(f, s, t, k + 1);
        AtChar(f, s, t, i);
        BracesLocal(f, s, t, i + 1, if t[i] == '{' then level + 1 else level);
      }
    }
  }

  lemma {:induction false} MarkUnfold(f: string, s: nat)
    requires s < |f|
    ensures NextMark(f, s) ==
            if f[s] == '}' || f[s] == '?' then Some(s)
            else if f[s] != '%' then NextMark(f, s + 1)
            else if s + 1 < |f| && IsPlainMark(f[s + 1]) then NextMark(f, s + 2)
            else
              var i := PastSign(f, s + 1);
              if i == |f| then None
              else if f[i] != '{' then NextMark(f, i + 1)
              else
                var t := PastBraces(f, i + 1, 1);
                if t.None? then None else NextMark(f, t.value)
  {
    hide PastSign, PastBraces;
  }

  lemma {:induction false} MarkLocal(f: string, s: nat, t: string, k: nat)
    requires IsAt(f, s, t) && k <= |t| && NextMark(t, k).Some?
    ensures s + k <= |f| && NextMark(f, s + k) == Some(s + NextMark(t, k).value)
    decreases |t| - k
  {
    hide IsAt, PastSign, PastBraces, NextMark;
    MarkUnfold(t, k);
    AtChar(f, s, t, k);
    MarkUnfold(f, s + k);
    if t[k] == '}' || t[k] == '?' {
    } else if t[k] != '%' {
      MarkLocal(f, s, t, k + 1);
    } else if k + 1 < |t| && IsPlainMark(t[k + 1]) {
      AtChar(f, s, t, k + 1);
      MarkLocal(f, s, t, k + 2);
    } else {
      var i := PastSign(t, k + 1);
      SignLocal(f, s, t, k + 1);
      AtChar(f, s, t, k + 1);
      AtChar(f, s, t, i);
      if t[i] == '{' {
        BracesLocal(f, s, t, i + 1, 1);
        MarkLocal(f, s, t, PastBraces(t, i + 1, 1).value);
      } else {
        MarkLocal(f, s, t, i + 1);
      }
    }
  }

  /** Braces within braces are passed alike at every depth. */
  lemma {:induction false} BracesNest(f: string, s: nat, n: nat, level: nat)
    requires s <= |f| && PastBraces(f, s, n).Some?
    ensures PastBraces(f, s, n + level) == PastBraces(f, PastBraces(f, s, n).value, level)
    decreases |f| - s
  {
    hide PastSign;
    if n > 0 {
      if f[s] == '}' {
        BracesNest(f, s + 1, n - 1, level);
      } else if f[s] != '%' {
        BracesNest(f, s + 1, n, level);
      } else if s + 1 < |f| && IsPlainMark(f[s + 1]) {
        BracesNest(f, s + 2, n, level);
      } else {
        var i := PastSign(f, s + 1);
        BracesNest(f, i + 1, if f[i] == '{' then n + 1 else n, level);
      }
    }
  }

  /** What is passed on the way to a mark is passed inside braces too. */
  lemma {:induction false} BracesToMark(f: string, s: nat, level: nat)
    requires s <= |f| && NextMark(f, s).Some? && level > 0
    ensures PastBraces(f, s, level) == PastBraces(f, NextMark(f, s).value, level)
    decreases |f| - s
  {
    hide PastSign;
    if f[s] == '}' || f[s] == '?' {
    } else if f[s] != '%' {
      BracesToMark(f, s + 1, level);
    } else if s + 1 < |f| && IsPlainMark(f[s + 1]) {
      BracesToMark(f, s + 2, level);
    } else {
      var i := PastSign(f, s + 1);
      if f[i] == '{' {
        BracesNest(f, i + 1, 1, level);
        BracesToMark(f, PastBraces(f, i + 1, 1).value, level);
      } else {
        BracesToMark(f, i + 1, level);
      }
    }
  }

  /** The mark behind a condition is the first that is found. */
  lemma CondMark(f: string, s: nat, c: string)
    requires IsAt(f, s, c) && IsCond(c) && s + |c| < |f| && f[s + |c|] == '?'
    ensures NextMark(f, s) == Some(s + |c|)
  {
    var t := c + "?";
    assert f[s..s + |t|] == f[s..s + |c|] + [f[s + |c|]];
    MarkLocal(f, s, t, 0);
  }

  lemma CondBraces(f: string, s: nat, c: string, level: nat)
    requires IsAt(f, s, c) && IsCond(c) && s + |c| < |f| && f[s + |c|] == '?' && level > 0
    ensures PastBraces(f, s, level) == PastBraces(f, s + |c|, level)
  {
    hide NextMark, PastBraces, IsAt, IsCond;
    CondMark(f, s, c);
    BracesToMark(f, s, level);
  }

  /** A long name and its braces. */
  lemma NameParts(f: string, s: nat, name: string)
    requires IsAt(f, s, NameText(ByName(name)))
    ensures s + |name| + 2 <= |f| && f[s] == '{' && f[s + 1 + |name|] == '}' && IsAt(f, s + 1, name)
  {
    hide IsAt;
    var open, close := "{", "}";
    AtSplit(f, s, open, name + close);
    AtChar(f, s, open, 0);
    AtSplit(f, s + |open|, name, close);
    AtChar(f, s + |open| + |name|, close, 0);
  }

  /** A long name with its braces, behind the opening one. */
  lemma BracesSkipName(f: string, s: nat, name: string, level: nat)
    requires IsAt(f, s, NameText(ByName(name))) && IsName(ByName(name))
    ensures s + 1 <= |f| && s + |name| + 2 <= |f| && f[s + |name| + 1] == '}'
    ensures PastBraces(f, s + 1, level + 1) == PastBraces(f, s + |name| + 2, level)
  {
    hide IsAt, PastBraces, NameText;
    NameParts(f, s, name);
    BracesSkipText(f, s + 1, name, 0, level + 1);
    ClosingBrace(f, s + 1 + |name|, level);
  }

  lemma ClosingBrace(f: string, s: nat, level: nat)
    requires s < |f| && f[s] == '}'
    ensures PastBraces(f, s, level + 1) == PastBraces(f, s + 1, level)
  {
  }

  /** A directive inside braces. */
  lemma BracesSkipValue(f: string, s: nat, v: Value, level: nat)
    requires s < |f| && f[s] == '%' && IsAt(f, s + 1, ValueText(v)) && level > 0
    requires IsValue(v) && (v.percent ==> v.name.ByLetter?)
    ensures s + 1 + |ValueText(v)| <= |f|
    ensures PastBraces(f, s, level) == PastBraces(f, s + 1 + |ValueText(v)|, level)
  {
    hide IsAt, ValueText, PastSign, ReadValidHead, ReadPrintHead, PlacesOf, WidthOf;
    HeadIs(f, s + 1, v, 0);
    PlacesAt(f, s + 1, v);
    CharsAt(f, s + 1, v);
    PercentPlace(v, s + 1);
    PercentWidth(v, s + 1);
    if v.name.ByName? {
      BracesSkipName(f, PlacesOf(v, s + 1).name, v.name.name, level);
    }
  }

  lemma PercentWidth(v: Value, i: nat)
    ensures v.percent ==> PlacesOf(v, i).name == PlacesOf(v, i).percent + 1
  {
  }

  lemma OpenBrace(f: string, s: nat)
    requires s + 1 < |f| && f[s] == '%' && f[s + 1] == '{'
    ensures PastSign(f, s + 1) == s + 1
    ensures forall level: nat :: level > 0 ==> PastBraces(f, s, level) == PastBraces(f, s + 2, level + 1)
  {
  }

  /** Whole items inside braces. */
  lemma {:induction false} BracesSkipItems(f: string, s: nat, items: Items, level: nat)
    requires IsAt(f, s, Text(items)) && Shaped(items, true) && level > 0
    ensures s + |Text(items)| <= |f| && PastBraces(f, s, level) == PastBraces(f, s + |Text(items)|, level)
    decreases items, 1
  {
    hide IsAt, PastBraces, ValueText, IsValue, IsCond, Text;
    match items
    case Done => AtEmpty(f, s);
    case Plain(c, rest) =>
      PlainAt(f, s, c, rest);
      BracesPlain(f, s, level);
      BracesSkipItems(f, s + 1, rest, level);
    case Mark(c, rest) =>
      MarkAt(f, s, c, rest);
      BracesMark(f, s, level);
      BracesSkipItems(f, s + 2, rest, level);
    case Show(v, rest) =>
      ShowAt(f, s, v, rest);
      BracesSkipValue(f, s, v, level);
      BracesSkipItems(f, s + 1 + |ValueText(v)|, rest, level);
    case If(c, yes, rest) =>
      IfAt(f, s, c, yes, rest);
      OpenBrace(f, s);
      BracesSkipIf(f, s, items, level);
      BracesSkipItems(f, s + 5 + |c| + |Text(yes)|, rest, level);
    case IfElse(c, yes, no, rest) =>
      IfElseAt(f, s, c, yes, no, rest);
      OpenBrace(f, s);
      BracesSkipIfElse(f, s, items, level);
      BracesSkipItems(f, s + 6 + |c| + |Text(yes)| + |Text(no)|, rest, level);
  }

  lemma AtEmpty(f: string, s: nat)
    requires IsAt(f, s, Text(Done))
    ensures s <= |f| && |Text(Done)| == 0
  {
  }

  lemma BracesPlain(f: string, s: nat, level: nat)
    requires s < |f| && level > 0 && f[s] != '%' && f[s] != '}'
    ensures PastBraces(f, s, level) == PastBraces(f, s + 1, level)
  {
  }

  lemma BracesMark(f: string, s: nat, level: nat)
    requires s + 1 < |f| && level > 0 && f[s] == '%' && IsPlainMark(f[s + 1])
    ensures PastBraces(f, s, level) == PastBraces(f, s + 2, level)
  {
  }

  lemma BracesClose(f: string, s: nat, level: nat)
    requires s < |f| && f[s] == '}'
    ensures PastBraces(f, s, level + 1) == PastBraces(f, s + 1, level)
  {
  }

  /** The inside of a condition, up to its closing brace. */
  lemma {:induction false} BracesSkipIf(f: string, s: nat, items: Items, level: nat)
    requires items.If? && IsAt(f, s, Text(items)) && IsCond(items.cond) && Shaped(items.yes, true)
    ensures var to := s + 5 + |items.cond| + |Text(items.yes)|;
            s + 2 <= to <= |f| && PastBraces(f, s + 2, level + 1) == PastBraces(f, to, level)
    decreases items, 0
  {
    hide IsAt, PastBraces, Text, Shaped;
    var c, yes := items.cond, items.yes;
    IfAt(f, s, c, yes, items.rest);
    BracesPlain(f, s + 2, level + 1);
    CondBraces(f, s + 3, c, level + 1);
    BracesPlain(f, s + 3 + |c|, level + 1);
    BracesSkipItems(f, s + 4 + |c|, yes, level + 1);
    BracesClose(f, s + 4 + |c| + |Text(yes)|, level);
  }

  lemma {:induction false} BracesSkipIfElse(f: string, s: nat, items: Items, level: nat)
    requires items.IfElse? && IsAt(f, s, Text(items))
    requires IsCond(items.cond) && Shaped(items.yes, true) && Shaped(items.no, true)
    ensures var to := s + 6 + |items.cond| + |Text(items.yes)| + |Text(items.no)|;
            s + 2 <= to <= |f| && PastBraces(f, s + 2, level + 1) == PastBraces(f, to, level)
    decreases items, 0
  {
    hide IsAt, PastBraces, Text, Shaped;
    var c, yes, no := items.cond, items.yes, items.no;
    IfElseAt(f, s, c, yes, no, items.rest);
    BracesPlain(f, s + 2, level + 1);
    CondBraces(f, s + 3, c, level + 1);
    BracesPlain(f, s + 3 + |c|, level + 1);
    BracesSkipItems(f, s + 4 + |c|, yes, level + 1);
    BracesPlain(f, s + 4 + |c| + |Text(yes)|, level + 1);
    BracesSkipItems(f, s + 5 + |c| + |Text(yes)|, no, level + 1);
    BracesClose(f, s + 5 + |c| + |Text(yes)| + |Text(no)|, level);
  }

  // ---------------------------------------------------------------------------------------
  // The marks of a condition
  // ---------------------------------------------------------------------------------------

  lemma MarkPlain(f: string, s: nat)
    requires s < |f| && f[s] != '%' && f[s] != '}' && f[s] != '?'
    ensures NextMark(f, s) == NextMark(f, s + 1)
  {
  }

  lemma MarkMark(f: string, s: nat)
    requires s + 1 < |f| && f[s] == '%' && IsPlainMark(f[s + 1])
    ensures NextMark(f, s) == NextMark(f, s + 2)
  {
  }

  lemma MarkStop(f: string, s: nat)
    requires s < |f| && (f[s] == '}' || f[s] == '?')
    ensures NextMark(f, s) == Some(s)
  {
  }

  /** Behind an opening brace the search goes on past the closing one. */
  lemma MarkBraces(f: string, s: nat, open: nat, to: nat)
    requires s < open < to <= |f| && f[s] == '%' && !IsPlainMark(f[s + 1]) && PastSign(f, s + 1) == open
    requires f[open] == '{' && PastBraces(f, open + 1, 1) == PastBraces(f, to, 0)
    ensures NextMark(f, s) == NextMark(f, to)
  {
    hide PastSign;
    assert PastBraces(f, to, 0) == Some(to);
  }

  lemma MarkSkipLetter(f: string, s: nat, at: nat)
    requires s < at < |f| && f[s] == '%' && !IsPlainMark(f[s + 1]) && PastSign(f, s + 1) == at && f[at] != '{'
    ensures NextMark(f, s) == NextMark(f, at + 1)
  {
    hide PastSign;
  }

  lemma SignIs(f: string, i: nat, v: Value)
    requires IsAt(f, i, ValueText(v)) && IsValue(v)
    ensures var p := PlacesOf(v, i);
            && i <= p.percent <= p.name < |f| && PastSign(f, i) == p.percent && !IsPlainMark(f[i])
            && f[p.name] == First(v.name) && (v.percent ==> f[p.percent] == '%' && p.name == p.percent + 1)
            && (!v.percent ==> p.percent == p.name)
            && IsAt(f, p.name, NameText(v.name)) && p.name + |NameText(v.name)| == i + |ValueText(v)|
  {
    hide IsAt, ValueText, PastSign, ReadValidHead, ReadPrintHead, PlacesOf, WidthOf, NameText;
    HeadIs(f, i, v, 0);
    PlacesAt(f, i, v);
    CharsAt(f, i, v);
    PercentPlace(v, i);
    PercentWidth(v, i);
  }

  lemma MarkSkipValue(f: string, s: nat, v: Value)
    requires s < |f| && f[s] == '%' && IsAt(f, s + 1, ValueText(v))
    requires IsValue(v) && (v.percent ==> v.name.ByLetter?)
    ensures s + 1 + |ValueText(v)| <= |f| && NextMark(f, s) == NextMark(f, s + 1 + |ValueText(v)|)
  {
    hide IsAt, ValueText, PastSign, PlacesOf, NextMark, PastBraces, NameText;
    SignIs(f, s + 1, v);
    NameLength(v.name);
    var p := PlacesOf(v, s + 1);
    if v.name.ByName? {
      BracesSkipName(f, p.name, v.name.name, 0);
      MarkBraces(f, s, p.name, s + 1 + |ValueText(v)|);
    } else {
      MarkSkipLetter(f, s, p.percent);
      if v.percent {
        MarkPlain(f, p.name);
      }
    }
  }

  /** Whole items of a text shown on a condition hold no mark of the condition itself. */
  lemma {:induction false} MarkSkipItems(f: string, s: nat, items: Items)
    requires IsAt(f, s, Text(items)) && Shaped(items, true)
    ensures s + |Text(items)| <= |f| && NextMark(f, s) == NextMark(f, s + |Text(items)|)
    decreases items
  {
    hide IsAt, PastBraces, ValueText, IsValue, IsCond, NextMark, PastSign, Text;
    match items
    case Done => AtEmpty(f, s);
    case Plain(c, rest) =>
      PlainAt(f, s, c, rest);
      MarkPlain(f, s);
      MarkSkipItems(f, s + 1, rest);
    case Mark(c, rest) =>
      MarkAt(f, s, c, rest);
      MarkMark(f, s);
      MarkSkipItems(f, s + 2, rest);
    case Show(v, rest) =>
      ShowAt(f, s, v, rest);
      MarkSkipValue(f, s, v);
      MarkSkipItems(f, s + 1 + |ValueText(v)|, rest);
    case If(c, yes, rest) =>
      IfAt(f, s, c, yes, rest);
      OpenBrace(f, s);
      BracesSkipIf(f, s, items, 0);
      var to := s + 5 + |c| + |Text(yes)|;
      MarkBraces(f, s, s + 1, to);
      MarkSkipItems(f, to, rest);
    case IfElse(c, yes, no, rest) =>
      IfElseAt(f, s, c, yes, no, rest);
      OpenBrace(f, s);
      BracesSkipIfElse(f, s, items, 0);
      var to := s + 6 + |c| + |Text(yes)| + |Text(no)|;
      MarkBraces(f, s, s + 1, to);
      MarkSkipItems(f, to, rest);
  }

  /** A condition is found with its parts. */
  lemma ReadIf(f: string, s: nat, items: Items)
    requires items.If? && IsAt(f, s, Text(items)) && IsCond(items.cond) && Shaped(items.yes, true)
    ensures var q := s + 3 + |items.cond|;
            s + 3 <= |f| && ReadCond(f, s + 3) == Some(Cond(q, None, q + 1 + |Text(items.yes)|))
            && q + 1 + |Text(items.yes)| < |f| && f[s + 3..q] == items.cond
  {
    hide IsAt, NextMark, Text, Shaped;
    var c, yes := items.cond, items.yes;
    IfAt(f, s, c, yes, items.rest);
    var q := s + 3 + |c|;
    CondMark(f, s + 3, c);
    MarkSkipItems(f, q + 1, yes);
    MarkStop(f, q + 1 + |Text(yes)|);
    AtSlice(f, s + 3, c);
  }

  lemma ReadIfElse(f: string, s: nat, items: Items)
    requires items.IfElse? && IsAt(f, s, Text(items))
    requires IsCond(items.cond) && Shaped(items.yes, true) && Shaped(items.no, true)
    ensures var q := s + 3 + |items.cond|;
            var e := q + 1 + |Text(items.yes)|;
            s + 3 <= |f| && ReadCond(f, s + 3) == Some(Cond(q, Some(e), e + 1 + |Text(items.no)|))
            && e + 1 + |Text(items.no)| < |f| && f[s + 3..q] == items.cond
  {
    hide IsAt, NextMark, Text, Shaped;
    var c, yes, no := items.cond, items.yes, items.no;
    IfElseAt(f, s, c, yes, no, items.rest);
    var q := s + 3 + |c|;
    var e := q + 1 + |Text(yes)|;
    CondMark(f, s + 3, c);
    MarkSkipItems(f, q + 1, yes);
    MarkStop(f, e);
    MarkSkipItems(f, e + 1, no);
    MarkStop(f, e + 1 + |Text(no)|);
    AtSlice(f, s + 3, c);
  }

  lemma AtSlice(f: string, s: nat, t: string)
    requires IsAt(f, s, t)
    ensures s + |t| <= |f| && f[s..s + |t|] == t
  {
  }

  // ---------------------------------------------------------------------------------------
  // The validator and the interpreter on the text of items
  // ---------------------------------------------------------------------------------------

  lemma {:induction false} NameEndIs(f: string, s: nat, name: string, k: nat, end: nat)
    requires IsAt(f, s, name) && k <= |name| && s + |name| < end <= |f| && f[s + |name|] == '}'
    requires forall i :: 0 <= i < |name| ==> name[i] != '}'
    ensures NameEnd(f, s + k, end) == Some(s + |name|)
    decreases |name| - k
  {
    if k < |name| {
      AtChar(f, s, name, k);
      NameEndIs(f, s, name, k + 1, end);
    }
  }

  /** A long name is found whole. */
  lemma NameIs(f: string, at: nat, name: string, end: nat)
    requires IsAt(f, at, NameText(ByName(name))) && IsName(ByName(name))
    requires at + |name| + 2 <= end <= |f|
    ensures f[at] == '{' && At(f, at + 1) != '?'
    ensures NameEnd(f, at + 1, end) == Some(at + 1 + |name|) && f[at + 1..at + 1 + |name|] == name
  {
    hide IsAt, NameEnd, NameText;
    NameParts(f, at, name);
    AtChar(f, at + 1, name, 0);
    NameEndIs(f, at + 1, name, 0, end);
    AtSlice(f, at + 1, name);
  }

  lemma LetterIs(f: string, at: nat, c: char)
    requires at < |f| && f[at] == c
    ensures At(f, at) == c
  {
  }

  /** The validator at a directive that prints an option. */
  lemma ValidAtValue(f: string, opts: seq<FormatOption>, s: nat, end: nat, v: Value)
    requires end <= |f| && s + 1 + |ValueText(v)| <= end && f[s] == '%' && IsAt(f, s + 1, ValueText(v)) && IsValue(v)
    ensures ValidSub(f, opts, s, end) <==>
              KnownOption(opts, LongName(v.name), LetterOf(v.name), v.zero) && ValidSub(f, opts, s + 1 + |ValueText(v)|, end)
  {
    hide IsAt, ValueText, PastSign, ReadValidHead, ReadPrintHead, PlacesOf, WidthOf, KnownOption, NameEnd, ValidIf, NameText;
    HeadIs(f, s + 1, v, 0);
    PlacesAt(f, s + 1, v);
    CharsAt(f, s + 1, v);
    var at := PlacesOf(v, s + 1).name;
    LetterIs(f, at, First(v.name));
    NameLength(v.name);
    if v.name.ByName? {
      NameIs(f, at, v.name.name, end);
    }
  }

  lemma NameLength(n: Name)
    ensures |NameText(n)| == if n.ByName? then |n.name| + 2 else 1
  {
  }

  lemma InterpretLetter(f: string, opts: seq<FormatOption>, truth: Expr -> bool, strWidth: nat, s: nat, end: nat, out: Output)
    requires s < end <= |f| && f[s] == '%' && s + 1 < |f| && !IsPlainMark(f[s + 1])
    requires var h := ReadPrintHead(f, s + 1, strWidth);
             At(f, h.at) != '{' && FindOption(opts, "", At(f, h.at)).Some?
    ensures var h := ReadPrintHead(f, s + 1, strWidth);
            Interpret(f, opts, truth, strWidth, s, end, out) ==
            Interpret(f, opts, truth, strWidth, h.at + 1, end, Emit(out, FieldOf(FindOption(opts, "", At(f, h.at)).value, h)))
  {
    hide ReadPrintHead, Emit, FindOption, FieldOf;
  }

  lemma InterpretName(f: string, opts: seq<FormatOption>, truth: Expr -> bool, strWidth: nat, s: nat, end: nat, name: string, out: Output)
    requires s < end <= |f| && f[s] == '%' && s + 1 < |f| && !IsPlainMark(f[s + 1])
    requires var h := ReadPrintHead(f, s + 1, strWidth);
             && At(f, h.at) == '{' && At(f, h.at + 1) != '?'
             && NameEnd(f, h.at + 1, end) == Some(h.at + 1 + |name|) && f[h.at + 1..h.at + 1 + |name|] == name
    requires FindOption(opts, name, '}').Some?
    ensures var h := ReadPrintHead(f, s + 1, strWidth);
            Interpret(f, opts, truth, strWidth, s, end, out) ==
            Interpret(f, opts, truth, strWidth, h.at + |name| + 2, end, Emit(out, FieldOf(FindOption(opts, name, '}').value, h)))
  {
    hide ReadPrintHead, Emit, FindOption, FieldOf, NameEnd;
  }

  /** The interpreter there. */
  lemma InterpretAtValue(f: string, opts: seq<FormatOption>, truth: Expr -> bool, strWidth: nat, s: nat, end: nat, v: Value, out: Output)
    requires end <= |f| && s + 1 + |ValueText(v)| <= end && f[s] == '%' && IsAt(f, s + 1, ValueText(v)) && IsValue(v)
    requires KnownOption(opts, LongName(v.name), LetterOf(v.name), v.zero)
    ensures Interpret(f, opts, truth, strWidth, s, end, out) ==
            Interpret(f, opts, truth, strWidth, s + 1 + |ValueText(v)|, end, Emit(out, Shown(v, opts, strWidth)))
  {
    hide IsAt, ValueText, PastSign, ReadValidHead, ReadPrintHead, PlacesOf, WidthOf, NameEnd, Interpret, NameText, Emit, FindOption;
    HeadIs(f, s + 1, v, strWidth);
    SignIs(f, s + 1, v);
    NameLength(v.name);
    var at := PlacesOf(v, s + 1).name;
    LetterIs(f, at, First(v.name));
    if v.name.ByName? {
      NameIs(f, at, v.name.name, end);
      InterpretName(f, opts, truth, strWidth, s, end, v.name.name, out);
    } else {
      InterpretLetter(f, opts, truth, strWidth, s, end, out);
    }
  }

  lemma BraceHead(f: string, s: nat, strWidth: nat)
    requires s + 2 < |f| && f[s] == '%' && f[s + 1] == '{' && f[s + 2] == '?'
    ensures ReadValidHead(f, s + 1).at == ReadPrintHead(f, s + 1, strWidth).at == s + 1
    ensures At(f, s + 1) == '{' && At(f, s + 2) == '?' && !IsPlainMark(f[s + 1])
  {
  }

  lemma ValidAtIf(f: string, opts: seq<FormatOption>, s: nat, end: nat)
    requires s + 2 < |f| && f[s] == '%' && f[s + 1] == '{' && f[s + 2] == '?' && s < end <= |f|
    requires ReadCond(f, s + 3).Some?
    ensures var close := ReadCond(f, s + 3).value.close;
            ValidSub(f, opts, s, end) <==> ValidIf(f, opts, s + 3) && close < end && ValidSub(f, opts, close + 1, end)
  {
    hide ReadCond, ReadValidHead, ReadPrintHead, ValidIf, KnownOption;
    BraceHead(f, s, 0);
  }

  lemma InterpretAtIf(f: string, opts: seq<FormatOption>, truth: Expr -> bool, strWidth: nat, s: nat, end: nat, out: Output)
    requires s + 2 < |f| && f[s] == '%' && f[s + 1] == '{' && f[s + 2] == '?' && s < end <= |f|
    requires ReadCond(f, s + 3).Some? && ReadCond(f, s + 3).value.close < end
    requires InterpretIf(f, opts, truth, strWidth, s + 3, out).Some?
    ensures Interpret(f, opts, truth, strWidth, s, end, out) ==
            Interpret(f, opts, truth, strWidth, ReadCond(f, s + 3).value.close + 1, end,
                      InterpretIf(f, opts, truth, strWidth, s + 3, out).value)
  {
    hide ReadCond, ReadValidHead, ReadPrintHead, InterpretIf, Emit, EmitMark;
    BraceHead(f, s, strWidth);
  }

  lemma ValidAtText(f: string, opts: seq<FormatOption>, s: nat, end: nat)
    requires s <= end <= |f|
    ensures s == end ==> ValidSub(f, opts, s, end)
    ensures s < end && f[s] != '%' ==> ValidSub(f, opts, s, end) == ValidSub(f, opts, s + 1, end)
    ensures s + 1 < end && f[s] == '%' && IsPlainMark(f[s + 1]) ==> ValidSub(f, opts, s, end) == ValidSub(f, opts, s + 2, end)
  {
    hide ReadCond, ReadValidHead, KnownOption;
  }

  lemma InterpretAtText(f: string, opts: seq<FormatOption>, truth: Expr -> bool, strWidth: nat, s: nat, end: nat, out: Output)
    requires s <= end <= |f|
    ensures s == end ==> Interpret(f, opts, truth, strWidth, s, end, out) == Some(out)
    ensures s < end && f[s] != '%' ==>
              Interpret(f, opts, truth, strWidth, s, end, out) ==
              Interpret(f, opts, truth, strWidth, s + 1, end, Emit(out, Letter(f[s])))
    ensures s + 1 < end && f[s] == '%' && IsPlainMark(f[s + 1]) ==>
              Interpret(f, opts, truth, strWidth, s, end, out) ==
              Interpret(f, opts, truth, strWidth, s + 2, end, EmitMark(out, f[s + 1]))
  {
    hide Emit, EmitMark, ReadCond, ReadPrintHead;
  }

  /** The validator accepts the text of items exactly when it knows all that they name. */
  lemma {:induction false} ValidSubIff(f: string, opts: seq<FormatOption>, s: nat, items: Items, inner: bool)
    requires IsAt(f, s, Text(items)) && Shaped(items, inner)
    ensures s + |Text(items)| <= |f| && (ValidSub(f, opts, s, s + |Text(items)|) <==> Known(items, opts))
    decreases items, 1
  {
    hide IsAt, ValueText, IsValue, IsCond, ReadCond, KnownOption, CondExpr, ValidSub, ValidIf, Text;
    AtLength(f, s, Text(items));
    var end := s + |Text(items)|;
    match items
    case Done =>
      AtEmpty(f, s);
      ValidAtText(f, opts, s, end);
    case Plain(c, rest) =>
      PlainAt(f, s, c, rest);
      ValidAtText(f, opts, s, end);
      ValidSubIff(f, opts, s + 1, rest, inner);
    case Mark(c, rest) =>
      MarkAt(f, s, c, rest);
      ValidAtText(f, opts, s, end);
      ValidSubIff(f, opts, s + 2, rest, inner);
    case Show(v, rest) =>
      ShowAt(f, s, v, rest);
      ValidAtValue(f, opts, s, end, v);
      ValidSubIff(f, opts, s + 1 + |ValueText(v)|, rest, inner);
    case If(c, yes, rest) =>
      IfAt(f, s, c, yes, rest);
      ReadIf(f, s, items);
      ValidAtIf(f, opts, s, end);
      ValidIfIff(f, opts, s, items);
      ValidSubIff(f, opts, s + 5 + |c| + |Text(yes)|, rest, inner);
    case IfElse(c, yes, no, rest) =>
      IfElseAt(f, s, c, yes, no, rest);
      ReadIfElse(f, s, items);
      ValidAtIf(f, opts, s, end);
      ValidIfElseIff(f, opts, s, items);
      ValidSubIff(f, opts, s + 6 + |c| + |Text(yes)| + |Text(no)|, rest, inner);
  }

  lemma AtLength(f: string, s: nat, t: string)
    requires IsAt(f, s, t)
    ensures s + |t| <= |f|
  {
  }

  lemma {:induction false} ValidIfIff(f: string, opts: seq<FormatOption>, s: nat, items: Items)
    requires items.If? && IsAt(f, s, Text(items)) && IsCond(items.cond) && Shaped(items.yes, true)
    ensures s + 3 <= |f| && (ValidIf(f, opts, s + 3) <==> CondExpr(items.cond).Some? && Known(items.yes, opts))
    decreases items, 0
  {
    hide IsAt, Text, Shaped, Known, ReadCond, ValidSub, IsCond, HasControl, ParsedText;
    IfAt(f, s, items.cond, items.yes, items.rest);
    ReadIf(f, s, items);
    ValidSubIff(f, opts, s + 4 + |items.cond|, items.yes, true);
  }

  lemma {:induction false} ValidIfElseIff(f: string, opts: seq<FormatOption>, s: nat, items: Items)
    requires items.IfElse? && IsAt(f, s, Text(items))
    requires IsCond(items.cond) && Shaped(items.yes, true) && Shaped(items.no, true)
    ensures s + 3 <= |f| &&
            (ValidIf(f, opts, s + 3) <==> CondExpr(items.cond).Some? && Known(items.yes, opts) && Known(items.no, opts))
    decreases items, 0
  {
    hide IsAt, Text, Shaped, Known, ReadCond, ValidSub, IsCond;
    IfElseAt(f, s, items.cond, items.yes, items.no, items.rest);
    ReadIfElse(f, s, items);
    ValidSubIff(f, opts, s + 4 + |items.cond|, items.yes, true);
    ValidSubIff(f, opts, s + 5 + |items.cond| + |Text(items.yes)|, items.no, true);
  }

  /** The interpreter prints what the items mean. */
  lemma {:induction false} InterpretMeans(f: string, opts: seq<FormatOption>, truth: Expr -> bool, strWidth: nat, s: nat, items: Items, inner: bool, out: Output)
    requires IsAt(f, s, Text(items)) && Shaped(items, inner) && Known(items, opts)
    ensures s + |Text(items)| <= |f|
    ensures Interpret(f, opts, truth, strWidth, s, s + |Text(items)|, out) ==
            Some(Meaning(items, inner, opts, truth, strWidth, out))
    decreases items, 1
  {
    hide IsAt, ValueText, IsValue, IsCond, ReadCond, KnownOption, CondExpr, Interpret, InterpretIf, Emit, EmitMark, Shown, Text;
    AtLength(f, s, Text(items));
    var end := s + |Text(items)|;
    match items
    case Done =>
      AtEmpty(f, s);
      InterpretAtText(f, opts, truth, strWidth, s, end, out);
    case Plain(c, rest) =>
      PlainAt(f, s, c, rest);
      InterpretAtText(f, opts, truth, strWidth, s, end, out);
      InterpretMeans(f, opts, truth, strWidth, s + 1, rest, inner, Emit(out, Letter(c)));
    case Mark(c, rest) =>
      MarkAt(f, s, c, rest);
      InterpretAtText(f, opts, truth, strWidth, s, end, out);
      InterpretMeans(f, opts, truth, strWidth, s + 2, rest, inner, EmitMark(out, c));
    case Show(v, rest) =>
      ShowAt(f, s, v, rest);
      InterpretAtValue(f, opts, truth, strWidth, s, end, v, out);
      InterpretMeans(f, opts, truth, strWidth, s + 1 + |ValueText(v)|, rest, inner, Emit(out, Shown(v, opts, strWidth)));
    case If(c, yes, rest) =>
      IfAt(f, s, c, yes, rest);
      ReadIf(f, s, items);
      InterpretIfMeans(f, opts, truth, strWidth, s, items, out);
      InterpretAtIf(f, opts, truth, strWidth, s, end, out);
      var shown := if truth(CondExpr(c).value) then Meaning(yes, true, opts, truth, strWidth, out) else out;
      InterpretMeans(f, opts, truth, strWidth, s + 5 + |c| + |Text(yes)|, rest, inner, shown);
    case IfElse(c, yes, no, rest) =>
      IfElseAt(f, s, c, yes, no, rest);
      ReadIfElse(f, s, items);
      InterpretIfElseMeans(f, opts, truth, strWidth, s, items, out);
      InterpretAtIf(f, opts, truth, strWidth, s, end, out);
      var shown := if truth(CondExpr(c).value) then Meaning(yes, true, opts, truth, strWidth, out)
                   else Meaning(no, true, opts, truth, strWidth, out);
      InterpretMeans(f, opts, truth, strWidth, s + 6 + |c| + |Text(yes)| + |Text(no)|, rest, inner, shown);
  }

  lemma {:induction false} InterpretIfMeans(f: string, opts: seq<FormatOption>, truth: Expr -> bool, strWidth: nat, s: nat, items: Items, out: Output)
    requires items.If? && IsAt(f, s, Text(items)) && IsCond(items.cond) && Shaped(items.yes, true)
    requires CondExpr(items.cond).Some? && Known(items.yes, opts)
    ensures s + 3 <= |f|
    ensures InterpretIf(f, opts, truth, strWidth, s + 3, out) ==
            Some(if truth(CondExpr(items.cond).value) then Meaning(items.yes, true, opts, truth, strWidth, out) else out)
    decreases items, 0
  {
    hide IsAt, Text, Shaped, Known, ReadCond, Interpret, IsCond, Meaning;
    IfAt(f, s, items.cond, items.yes, items.rest);
    ReadIf(f, s, items);
    InterpretMeans(f, opts, truth, strWidth, s + 4 + |items.cond|, items.yes, true, out);
  }

  lemma {:induction false} InterpretIfElseMeans(f: string, opts: seq<FormatOption>, truth: Expr -> bool, strWidth: nat, s: nat, items: Items, out: Output)
    requires items.IfElse? && IsAt(f, s, Text(items))
    requires IsCond(items.cond) && Shaped(items.yes, true) && Shaped(items.no, true)
    requires CondExpr(items.cond).Some? && Known(items.yes, opts) && Known(items.no, opts)
    ensures s + 3 <= |f|
    ensures InterpretIf(f, opts, truth, strWidth, s + 3, out) ==
            Some(if truth(CondExpr(items.cond).value) then Meaning(items.yes, true, opts, truth, strWidth, out)
                 else Meaning(items.no, true, opts, truth, strWidth, out))
    decreases items, 0
  {
    hide IsAt, Text, Shaped, Known, ReadCond, Interpret, IsCond, Meaning;
    IfElseAt(f, s, items.cond, items.yes, items.no, items.rest);
    ReadIfElse(f, s, items);
    InterpretMeans(f, opts, truth, strWidth, s + 4 + |items.cond|, items.yes, true, out);
    InterpretMeans(f, opts, truth, strWidth, s + 5 + |items.cond| + |Text(items.yes)|, items.no, true, out);
  }

  // ---------------------------------------------------------------------------------------
  // A long name behind a percent width inside a condition
  // ---------------------------------------------------------------------------------------

  /** A mark before the brace of the name, or that brace, is found; the brace lies beyond it. */
  lemma {:induction false} MarkInName(f: string, s: nat, name: string, k: nat)
    requires IsAt(f, s, name) && k <= |name| && s + |name| < |f| && f[s + |name|] == '}'
    requires forall i :: 0 <= i < |name| ==> name[i] != '}' && name[i] != '%'
    ensures var m := NextMark(f, s + k);
            m.Some? && s + k <= m.value <= s + |name| && NameEnd(f, s + k, m.value) == None
    decreases |name| - k
  {
    if k < |name| {
      AtChar(f, s, name, k);
      MarkInName(f, s, name, k + 1);
    }
  }

  lemma NameTextIs(f: string, at: nat, name: string)
    requires IsAt(f, at, NameText(ByName(name)))
    ensures IsAt(f, at + 1, name) && at + 1 + |name| < |f| && f[at] == '{' && f[at + 1 + |name|] == '}'
  {
    hide IsAt;
    AtSplit(f, at, "{", name + "}");
    AtChar(f, at, "{", 0);
    AtSplit(f, at + 1, name, "}");
    AtChar(f, at + 1 + |name|, "}", 0);
  }

  /** The search for a mark steps over the brace of the name and stops inside the name, so that the
      text up to the mark holds a name that does not end. */
  lemma NameIsCut(f: string, opts: seq<FormatOption>, s: nat, v: Value)
    requires s < |f| && f[s] == '%' && IsAt(f, s + 1, ValueText(v)) && IsValue(v) && v.percent && v.name.ByName?
    ensures NextMark(f, s).Some? && !ValidSub(f, opts, s, NextMark(f, s).value)
  {
    hide IsAt, ValueText, PastSign, PlacesOf, NextMark, NameText, NameEnd, ReadValidHead, ReadPrintHead, WidthOf;
    SignIs(f, s + 1, v);
    HeadIs(f, s + 1, v, 0);
    var p := PlacesOf(v, s + 1);
    var name := v.name.name;
    NameTextIs(f, p.name, name);
    MarkSkipLetter(f, s, p.percent);
    MarkPlain(f, p.name);
    MarkInName(f, p.name + 1, name, 0);
    NameFirst(f, p.name, name);
  }

  lemma NameFirst(f: string, at: nat, name: string)
    requires IsAt(f, at, NameText(ByName(name))) && IsName(ByName(name))
    ensures At(f, at) == '{' && At(f, at + 1) != '?'
  {
    hide IsAt, NameText;
    NameTextIs(f, at, name);
    AtChar(f, at + 1, name, 0);
  }

  /** Nothing is found, or what is found ends a text that is not valid. */
  predicate Cut(f: string, opts: seq<FormatOption>, s: nat)
    requires s <= |f|
  {
    var m := NextMark(f, s);
    m.None? || !ValidSub(f, opts, s, m.value)
  }

  lemma YesIsCut(f: string, opts: seq<FormatOption>, s: nat, q: nat)
    requires s <= q < |f| && f[q] == '?' && NextMark(f, s) == Some(q) && Cut(f, opts, q + 1)
    ensures !ValidIf(f, opts, s)
  {
    hide NextMark, ValidSub, ParsedCond;
  }

  lemma NoIsCut(f: string, opts: seq<FormatOption>, s: nat, q: nat, e: nat)
    requires s <= q < e < |f| && f[q] == '?' && f[e] == '?'
    requires NextMark(f, s) == Some(q) && NextMark(f, q + 1) == Some(e) && Cut(f, opts, e + 1)
    ensures !ValidIf(f, opts, s)
  {
    hide NextMark, ValidSub, ParsedCond;
  }

  lemma RefusedAtIf(f: string, opts: seq<FormatOption>, s: nat, end: nat)
    requires s + 2 < |f| && f[s] == '%' && f[s + 1] == '{' && f[s + 2] == '?' && s < end <= |f|
    requires !ValidIf(f, opts, s + 3)
    ensures !ValidSub(f, opts, s, end)
  {
    hide ReadCond, ReadValidHead, ReadPrintHead, ValidIf, KnownOption;
    BraceHead(f, s, 0);
  }

  lemma {:induction false} IfIsCut(f: string, opts: seq<FormatOption>, s: nat, items: Items)
    requires items.If? && IsAt(f, s, Text(items)) && IsCond(items.cond)
    requires Loose(items.yes, true) && !Shaped(items.yes, true)
    ensures s + 3 <= |f| && !ValidIf(f, opts, s + 3)
    decreases items, 0
  {
    hide IsAt, NextMark, Text, Shaped, Loose, ValidIf, IsCond;
    var q := s + 3 + |items.cond|;
    IfAt(f, s, items.cond, items.yes, items.rest);
    CondMark(f, s + 3, items.cond);
    ItemsAreCut(f, opts, q + 1, items.yes);
    YesIsCut(f, opts, s + 3, q);
  }

  lemma {:induction false} IfElseIsCut(f: string, opts: seq<FormatOption>, s: nat, items: Items)
    requires items.IfElse? && IsAt(f, s, Text(items)) && IsCond(items.cond)
    requires Loose(items.yes, true) && Loose(items.no, true) && !(Shaped(items.yes, true) && Shaped(items.no, true))
    ensures s + 3 <= |f| && !ValidIf(f, opts, s + 3)
    decreases items, 0
  {
    hide IsAt, NextMark, Text, Shaped, Loose, ValidIf, IsCond;
    var q := s + 3 + |items.cond|;
    var e := q + 1 + |Text(items.yes)|;
    IfElseAt(f, s, items.cond, items.yes, items.no, items.rest);
    CondMark(f, s + 3, items.cond);
    if Shaped(items.yes, true) {
      MarkSkipItems(f, q + 1, items.yes);
      MarkStop(f, e);
      ItemsAreCut(f, opts, e + 1, items.no);
      NoIsCut(f, opts, s + 3, q, e);
    } else {
      ItemsAreCut(f, opts, q + 1, items.yes);
      YesIsCut(f, opts, s + 3, q);
    }
  }

  /** A step that neither the search nor the validator stops at. */
  lemma CutLater(f: string, opts: seq<FormatOption>, s: nat, to: nat)
    requires s <= to <= |f| && NextMark(f, s) == NextMark(f, to) && Cut(f, opts, to)
    requires forall end: nat :: to <= end <= |f| && ValidSub(f, opts, s, end) ==> ValidSub(f, opts, to, end)
    ensures Cut(f, opts, s)
  {
    hide NextMark, ValidSub;
  }

  /** Inside a condition. */
  lemma {:induction false} ItemsAreCut(f: string, opts: seq<FormatOption>, s: nat, items: Items)
    requires IsAt(f, s, Text(items)) && Loose(items, true) && !Shaped(items, true)
    ensures s <= |f| && Cut(f, opts, s)
    decreases items, 2
  {
    hide IsAt, PastBraces, ValueText, IsValue, IsCond, NextMark, PastSign, Text, ValidSub, ValidIf, KnownOption, ReadCond;
    match items
    case Plain(c, rest) =>
      PlainAt(f, s, c, rest);
      MarkPlain(f, s);
      ItemsAreCut(f, opts, s + 1, rest);
      forall end: nat | s + 1 <= end <= |f|
        ensures ValidSub(f, opts, s, end) ==> ValidSub(f, opts, s + 1, end)
      {
        ValidAtText(f, opts, s, end);
      }
      CutLater(f, opts, s, s + 1);
    case Mark(c, rest) =>
      MarkAt(f, s, c, rest);
      MarkMark(f, s);
      ItemsAreCut(f, opts, s + 2, rest);
      forall end: nat | s + 2 <= end <= |f|
        ensures ValidSub(f, opts, s, end) ==> ValidSub(f, opts, s + 2, end)
      {
        ValidAtText(f, opts, s, end);
      }
      CutLater(f, opts, s, s + 2);
    case Show(v, rest) =>
      ShowAt(f, s, v, rest);
      if v.percent && v.name.ByName? {
        NameIsCut(f, opts, s, v);
      } else {
        var to := s + 1 + |ValueText(v)|;
        MarkSkipValue(f, s, v);
        ItemsAreCut(f, opts, to, rest);
        forall end: nat | to <= end <= |f|
          ensures ValidSub(f, opts, s, end) ==> ValidSub(f, opts, to, end)
        {
          ValidAtValue(f, opts, s, end, v);
        }
        CutLater(f, opts, s, to);
      }
    case If(c, yes, rest) => IfItemsAreCut(f, opts, s, items);
    case IfElse(c, yes, no, rest) => IfElseItemsAreCut(f, opts, s, items);
  }

  lemma {:induction false} IfItemsAreCut(f: string, opts: seq<FormatOption>, s: nat, items: Items)
    requires items.If? && IsAt(f, s, Text(items)) && Loose(items, true) && !Shaped(items, true)
    ensures s <= |f| && Cut(f, opts, s)
    decreases items, 1
  {
    hide IsAt, PastBraces, IsCond, NextMark, PastSign, Text, ValidSub, ValidIf, ReadCond;
    IfAt(f, s, items.cond, items.yes, items.rest);
    if !Shaped(items.yes, true) {
      IfIsCut(f, opts, s, items);
      CutHere(f, opts, s);
    } else {
      OpenBrace(f, s);
      BracesSkipIf(f, s, items, 0);
      var to := s + 5 + |items.cond| + |Text(items.yes)|;
      MarkBraces(f, s, s + 1, to);
      ReadIf(f, s, items);
      ItemsAreCut(f, opts, to, items.rest);
      CutBehind(f, opts, s, to);
    }
  }

  lemma {:induction false} IfElseItemsAreCut(f: string, opts: seq<FormatOption>, s: nat, items: Items)
    requires items.IfElse? && IsAt(f, s, Text(items)) && Loose(items, true) && !Shaped(items, true)
    ensures s <= |f| && Cut(f, opts, s)
    decreases items, 1
  {
    hide IsAt, PastBraces, IsCond, NextMark, PastSign, Text, ValidSub, ValidIf, ReadCond;
    IfElseAt(f, s, items.cond, items.yes, items.no, items.rest);
    if !(Shaped(items.yes, true) && Shaped(items.no, true)) {
      IfElseIsCut(f, opts, s, items);
      CutHere(f, opts, s);
    } else {
      OpenBrace(f, s);
      BracesSkipIfElse(f, s, items, 0);
      var to := s + 6 + |items.cond| + |Text(items.yes)| + |Text(items.no)|;
      MarkBraces(f, s, s + 1, to);
      ReadIfElse(f, s, items);
      ItemsAreCut(f, opts, to, items.rest);
      CutBehind(f, opts, s, to);
    }
  }

  /** A condition that is not valid is met before any mark that is found behind its beginning. */
  lemma CutHere(f: string, opts: seq<FormatOption>, s: nat)
    requires s + 2 < |f| && f[s] == '%' && f[s + 1] == '{' && f[s + 2] == '?' && !ValidIf(f, opts, s + 3)
    ensures Cut(f, opts, s)
  {
    hide NextMark, ValidSub, ValidIf;
    var m := NextMark(f, s);
    if m.Some? {
      assert s < m.value;
      RefusedAtIf(f, opts, s, m.value);
    }
  }

  lemma CutBehind(f: string, opts: seq<FormatOption>, s: nat, to: nat)
    requires s + 2 < |f| && f[s] == '%' && f[s + 1] == '{' && f[s + 2] == '?' && s < to <= |f|
    requires ReadCond(f, s + 3).Some? && ReadCond(f, s + 3).value.close + 1 == to
    requires NextMark(f, s) == NextMark(f, to) && Cut(f, opts, to)
    ensures Cut(f, opts, s)
  {
    hide NextMark, ValidSub, ValidIf, ReadCond;
    forall end: nat | to <= end <= |f|
      ensures ValidSub(f, opts, s, end) ==> ValidSub(f, opts, to, end)
    {
      ValidAtIf(f, opts, s, end);
    }
    CutLater(f, opts, s, to);
  }

  /** Outside, the validator comes to the condition that is not valid. */
  lemma {:induction false} CutIsRefused(f: string, opts: seq<FormatOption>, s: nat, items: Items)
    requires IsAt(f, s, Text(items)) && Loose(items, false) && !Shaped(items, false)
    ensures s + |Text(items)| <= |f| && !ValidSub(f, opts, s, s + |Text(items)|)
    decreases items
  {
    hide IsAt, ValueText, IsValue, IsCond, ReadCond, KnownOption, ValidSub, ValidIf, Text;
    AtLength(f, s, Text(items));
    var end := s + |Text(items)|;
    match items
    case Plain(c, rest) =>
      PlainAt(f, s, c, rest);
      ValidAtText(f, opts, s, end);
      CutIsRefused(f, opts, s + 1, rest);
    case Mark(c, rest) =>
      MarkAt(f, s, c, rest);
      ValidAtText(f, opts, s, end);
      CutIsRefused(f, opts, s + 2, rest);
    case Show(v, rest) =>
      ShowAt(f, s, v, rest);
      ValidAtValue(f, opts, s, end, v);
      CutIsRefused(f, opts, s + 1 + |ValueText(v)|, rest);
    case If(c, yes, rest) =>
      IfAt(f, s, c, yes, rest);
      if !Shaped(yes, true) {
        IfIsCut(f, opts, s, items);
        RefusedAtIf(f, opts, s, end);
      } else {
        ReadIf(f, s, items);
        ValidAtIf(f, opts, s, end);
        CutIsRefused(f, opts, s + 5 + |c| + |Text(yes)|, rest);
      }
    case IfElse(c, yes, no, rest) =>
      IfElseAt(f, s, c, yes, no, rest);
      if !(Shaped(yes, true) && Shaped(no, true)) {
        IfElseIsCut(f, opts, s, items);
        RefusedAtIf(f, opts, s, end);
      } else {
        ReadIfElse(f, s, items);
        ValidAtIf(f, opts, s, end);
        CutIsRefused(f, opts, s + 6 + |c| + |Text(yes)| + |Text(no)|, rest);
      }
  }

  lemma WholeAt(f: string)
    ensures IsAt(f, 0, f)
  {
  }

  /** A format with a long name behind a percent width anywhere inside a condition is refused,
      whatever options there are. */
  lemma PercentNameIsRefused(items: Items, opts: seq<FormatOption>)
    requires Loose(items, false) && !Shaped(items, false)
    ensures !Valid(Text(items), opts)
  {
    hide IsAt, ValidSub, Loose, Shaped, Text;
    WholeAt(Text(items));
    CutIsRefused(Text(items), opts, 0, items);
  }

  // ---------------------------------------------------------------------------------------
  // What is printed, told from the path through the items
  // ---------------------------------------------------------------------------------------

  /** What stands on the path through the items that the conditions leave. */
  datatype Atom = PlainAtom(ch: char) | MarkAtom(mark: char) | ValueAtom(value: Value)

  function Taken(items: Items, truth: Expr -> bool): seq<Atom> {
    match items
    case Done => []
    case Plain(c, rest) => [PlainAtom(c)] + Taken(rest, truth)
    case Mark(c, rest) => [MarkAtom(c)] + Taken(rest, truth)
    case Show(v, rest) => [ValueAtom(v)] + Taken(rest, truth)
    case If(c, yes, rest) =>
      (if CondExpr(c).Some? && truth(CondExpr(c).value) then Taken(yes, truth) else []) + Taken(rest, truth)
    case IfElse(c, yes, no, rest) =>
      (if CondExpr(c).Some? && truth(CondExpr(c).value) then Taken(yes, truth) else Taken(no, truth)) + Taken(rest, truth)
  }

  /** The text that is written after a path: the one that its last `%!` or `%=` opens. */
  function SectionAfter(path: seq<Atom>): Section
    decreases |path|
  {
    if path == [] then LeftText
    else
      var last := path[|path| - 1];
      if last == MarkAtom('!') then MiddleText
      else if last == MarkAtom('=') then RightText
      else SectionAfter(path[..|path| - 1])
  }

  /** What is printed into one of the texts, in order. */
  function PrintedInto(section: Section, path: seq<Atom>): seq<Atom>
    decreases |path|
  {
    if path == [] then []
    else
      var front, last := path[..|path| - 1], path[|path| - 1];
      PrintedInto(section, front)
      + if last != MarkAtom('!') && last != MarkAtom('=') && SectionAfter(front) == section then [last] else []
  }

  predicate Named(o: FormatOption, n: Name) {
    match n
    case ByLetter(c) => o.ch == c
    case ByName(s) => o.name == Some(s)
  }

  /** The first option of that name. */
  predicate IsChosen(opts: seq<FormatOption>, n: Name, i: int) {
    0 <= i < |opts| && Named(opts[i], n) && forall j :: 0 <= j < i ==> !Named(opts[j], n)
  }

  /** The width itself, or the integer nearest to so many hundredths of the whole width, halves
      upwards. */
  predicate IsWidth(v: Value, strWidth: nat, width: nat) {
    AllDigits(v.digits) &&
    if v.percent then 100 * width - 50 <= Digits(v.digits) * strWidth < 100 * width + 50
    else width == Digits(v.digits)
  }

  /** How a printed piece comes from what stands in the format. */
  predicate Prints(p: Piece, a: Atom, opts: seq<FormatOption>, strWidth: nat) {
    match a
    case PlainAtom(c) => p == Letter(c)
    case MarkAtom(c) => p == Letter(c)
    case ValueAtom(v) =>
      && p.Field?
      && IsChosen(opts, v.name, p.option)
      && IsWidth(v, strWidth, p.width)
      && p.exact == !v.loose
      && p.alignLeft == v.alignLeft
      && p.pad == (if v.zero then '0' else ' ')
  }

  predicate PrintsAll(pieces: seq<Piece>, atoms: seq<Atom>, opts: seq<FormatOption>, strWidth: nat) {
    |pieces| == |atoms| && forall i :: 0 <= i < |atoms| ==> Prints(pieces[i], atoms[i], opts, strWidth)
  }

  /** The three texts hold what was printed while each of them was open. */
  predicate IsOutput(out: Output, path: seq<Atom>, opts: seq<FormatOption>, strWidth: nat) {
    && out.section == SectionAfter(path)
    && PrintsAll(out.left, PrintedInto(LeftText, path), opts, strWidth)
    && PrintsAll(out.middle, PrintedInto(MiddleText, path), opts, strWidth)
    && PrintsAll(out.right, PrintedInto(RightText, path), opts, strWidth)
  }

  /** The option that is found is the first one with the letter or the long name. */
  lemma FoundIsChosen(opts: seq<FormatOption>, n: Name)
    requires IsName(n)
    ensures FindOption(opts, LongName(n), LetterOf(n)).Some? ==>
              IsChosen(opts, n, FindOption(opts, LongName(n), LetterOf(n)).value)
    ensures FindOption(opts, LongName(n), LetterOf(n)).None? ==>
              forall i :: 0 <= i < |opts| ==> !Named(opts[i], n)
  {
    assert forall o: FormatOption :: Selects(o, LongName(n), LetterOf(n)) <==> Named(o, n);
  }

  /** A condition is known when it is the text of a series without control characters: a filter of
      the long kind. */
  lemma CondIff(c: string, e: Expr)
    ensures CondExpr(c) == Some(e) <==> !HasControl(c) && FilterSyntax.ReadsAs(c, e)
  {
    hide ParsedText, FilterSyntax.ReadsAs;
    FilterSyntax.ParsedTextIff(c, e);
  }

  /** Without a percent sign a condition must not hold a question mark or a brace. */
  lemma PlainCondIff(c: string)
    requires '%' !in c
    ensures IsCond(c) <==> '?' !in c && '}' !in c
  {
    hide PastSign, PastBraces;
    FirstMark(c, 0);
  }

  lemma {:induction false} FirstMark(c: string, k: nat)
    requires '%' !in c && k <= |c|
    ensures NextMark(c + "?", k) == Some(|c|) <==> '?' !in c[k..] && '}' !in c[k..]
    decreases |c| - k
  {
    hide PastSign, PastBraces;
    var f := c + "?";
    if k == |c| {
      assert f[k] == '?';
    } else {
      assert f[k] == c[k] == c[k..][0] && c[k] in c;
      assert c[k..] == [c[k]] + c[k + 1..];
      FirstMark(c, k + 1);
    }
  }

  /** A value is known when an option is chosen for it that may be padded as it asks. */
  lemma KnownOptionIff(opts: seq<FormatOption>, v: Value)
    requires IsValue(v)
    ensures KnownOption(opts, LongName(v.name), LetterOf(v.name), v.zero) <==>
            exists i :: IsChosen(opts, v.name, i) && (v.zero ==> opts[i].padZero)
  {
    hide FindOption, IsName;
    ValueHasName(v);
    FoundIsChosen(opts, v.name);
    var found := FindOption(opts, LongName(v.name), LetterOf(v.name));
    forall i | IsChosen(opts, v.name, i)
      ensures found == Some(i)
    {
    }
  }

  lemma ValueHasName(v: Value)
    requires IsValue(v)
    ensures IsName(v.name) && AllDigits(v.digits)
  {
  }

  lemma PercentIsNearest(n: nat, strWidth: nat)
    ensures 100 * PercentOf(n, strWidth) - 50 <= n * strWidth < 100 * PercentOf(n, strWidth) + 50
  {
    var x := n * strWidth;
    assert 2 * n * strWidth == 2 * x;
  }

  lemma ShownPrints(v: Value, opts: seq<FormatOption>, strWidth: nat)
    requires IsValue(v) && KnownOption(opts, LongName(v.name), LetterOf(v.name), v.zero)
    ensures Prints(Shown(v, opts, strWidth), ValueAtom(v), opts, strWidth)
  {
    hide FindOption, IsName, PercentOf, IsChosen;
    ValueHasName(v);
    FoundIsChosen(opts, v.name);
    PercentIsNearest(Digits(v.digits), strWidth);
  }

  lemma PrintsOneMore(ps: seq<Piece>, atoms: seq<Atom>, p: Piece, a: Atom, opts: seq<FormatOption>, strWidth: nat)
    requires PrintsAll(ps, atoms, opts, strWidth) && Prints(p, a, opts, strWidth)
    ensures PrintsAll(ps + [p], atoms + [a], opts, strWidth)
  {
    hide Prints;
  }

  /** One atom more on the path. */
  lemma {:induction false} PathSnoc(section: Section, path: seq<Atom>, a: Atom)
    ensures SectionAfter(path + [a]) == if a == MarkAtom('!') then MiddleText else if a == MarkAtom('=') then RightText
                                        else SectionAfter(path)
    ensures PrintedInto(section, path + [a]) ==
            if a != MarkAtom('!') && a != MarkAtom('=') && SectionAfter(path) == section
            then PrintedInto(section, path) + [a] else PrintedInto(section, path)
  {
    assert (path + [a])[..|path|] == path;
    assert PrintedInto(section, path) + [] == PrintedInto(section, path);
  }

  lemma EmitPrints(out: Output, path: seq<Atom>, p: Piece, a: Atom, opts: seq<FormatOption>, strWidth: nat)
    requires IsOutput(out, path, opts, strWidth) && Prints(p, a, opts, strWidth)
    requires a != MarkAtom('!') && a != MarkAtom('=')
    ensures IsOutput(Emit(out, p), path + [a], opts, strWidth)
  {
    hide Prints, PrintsAll, PrintedInto, SectionAfter;
    PathSnoc(LeftText, path, a);
    PathSnoc(MiddleText, path, a);
    PathSnoc(RightText, path, a);
    var text := match out.section case LeftText => out.left case MiddleText => out.middle case RightText => out.right;
    PrintsOneMore(text, PrintedInto(out.section, path), p, a, opts, strWidth);
  }

  lemma MarkPrints(out: Output, path: seq<Atom>, c: char, opts: seq<FormatOption>, strWidth: nat)
    requires IsOutput(out, path, opts, strWidth) && IsPlainMark(c)
    ensures IsOutput(EmitMark(out, c), path + [MarkAtom(c)], opts, strWidth)
  {
    hide PrintsAll, PrintedInto, SectionAfter, Emit, Prints;
    if c == '!' || c == '=' {
      PathSnoc(LeftText, path, MarkAtom(c));
      PathSnoc(MiddleText, path, MarkAtom(c));
      PathSnoc(RightText, path, MarkAtom(c));
    } else {
      assert Prints(Letter(c), MarkAtom(c), opts, strWidth) by { LetterPrints(c, opts, strWidth); }
      EmitPrints(out, path, Letter(c), MarkAtom(c), opts, strWidth);
    }
  }

  lemma LetterPrints(c: char, opts: seq<FormatOption>, strWidth: nat)
    ensures Prints(Letter(c), MarkAtom(c), opts, strWidth) && Prints(Letter(c), PlainAtom(c), opts, strWidth)
  {
  }

  lemma PathConcat(a: seq<Atom>, b: seq<Atom>, c: seq<Atom>)
    ensures a + (b + c) == a + b + c && a + [] == a
  {
  }

  /** Printing the items appends what stands on the path through them. */
  lemma {:induction false} MeaningPrints(items: Items, inner: bool, opts: seq<FormatOption>, truth: Expr -> bool,
                                         strWidth: nat, out: Output, path: seq<Atom>)
    requires Shaped(items, inner) && Known(items, opts) && IsOutput(out, path, opts, strWidth)
    ensures IsOutput(Meaning(items, inner, opts, truth, strWidth, out), path + Taken(items, truth), opts, strWidth)
    decreases items
  {
    hide IsOutput, Emit, EmitMark, Shown, Prints, IsValue, IsCond, CondExpr, KnownOption;
    match items
    case Done => PathConcat(path, [], []);
    case Plain(c, rest) =>
      LetterPrints(c, opts, strWidth);
      EmitPrints(out, path, Letter(c), PlainAtom(c), opts, strWidth);
      MeaningPrints(rest, inner, opts, truth, strWidth, Emit(out, Letter(c)), path + [PlainAtom(c)]);
      PathConcat(path, [PlainAtom(c)], Taken(rest, truth));
    case Mark(c, rest) =>
      MarkPrints(out, path, c, opts, strWidth);
      MeaningPrints(rest, inner, opts, truth, strWidth, EmitMark(out, c), path + [MarkAtom(c)]);
      PathConcat(path, [MarkAtom(c)], Taken(rest, truth));
    case Show(v, rest) =>
      ShownPrints(v, opts, strWidth);
      EmitPrints(out, path, Shown(v, opts, strWidth), ValueAtom(v), opts, strWidth);
      MeaningPrints(rest, inner, opts, truth, strWidth, Emit(out, Shown(v, opts, strWidth)), path + [ValueAtom(v)]);
      PathConcat(path, [ValueAtom(v)], Taken(rest, truth));
    case If(c, yes, rest) =>
      var holds := truth(CondExpr(c).value);
      var way := if holds then Taken(yes, truth) else [];
      var shown := if holds then Meaning(yes, true, opts, truth, strWidth, out) else out;
      if holds {
        MeaningPrints(yes, true, opts, truth, strWidth, out, path);
      } else {
        PathConcat(path, [], []);
      }
      MeaningPrints(rest, inner, opts, truth, strWidth, shown, path + way);
      PathConcat(path, way, Taken(rest, truth));
    case IfElse(c, yes, no, rest) =>
      var holds := truth(CondExpr(c).value);
      var way := if holds then Taken(yes, truth) else Taken(no, truth);
      var shown := if holds then Meaning(yes, true, opts, truth, strWidth, out)
                   else Meaning(no, true, opts, truth, strWidth, out);
      MeaningPrints(if holds then yes else no, true, opts, truth, strWidth, out, path);
      MeaningPrints(rest, inner, opts, truth, strWidth, shown, path + way);
      PathConcat(path, way, Taken(rest, truth));
  }

  /** The text of items is accepted exactly when every option and condition in it is known and no
      long name stands behind a percent width inside a condition. Then each of the three texts
      gets what stands on the path that the conditions leave while that text is open. */
  lemma FormatMeans(items: Items, opts: seq<FormatOption>, truth: Expr -> bool, strWidth: nat)
    requires Loose(items, false)
    ensures Valid(Text(items), opts) <==> Known(items, opts) && Shaped(items, false)
    ensures Known(items, opts) && Shaped(items, false) ==>
              var r := Interpret(Text(items), opts, truth, strWidth, 0, |Text(items)|, EMPTY_OUTPUT);
              r.Some? && IsOutput(r.value, Taken(items, truth), opts, strWidth)
  {
    hide ValidSub, Known, Meaning, Shaped, Loose, Interpret, Text, IsAt, IsOutput;
    var f := Text(items);
    WholeAt(f);
    if Shaped(items, false) {
      ValidSubIff(f, opts, 0, items, false);
      if Known(items, opts) {
        InterpretMeans(f, opts, truth, strWidth, 0, items, false, EMPTY_OUTPUT);
        EmptyIsOutput(opts, strWidth);
        MeaningPrints(items, false, opts, truth, strWidth, EMPTY_OUTPUT, []);
        assert [] + Taken(items, truth) == Taken(items, truth);
      }
    } else {
      PercentNameIsRefused(items, opts);
    }
  }

  lemma EmptyIsOutput(opts: seq<FormatOption>, strWidth: nat)
    ensures IsOutput(EMPTY_OUTPUT, [], opts, strWidth)
  {
  }
}
