/** What any filter text, short or long, is read as. */
module FilterReading {
  import opened Basics
  import opened FilterTokens
  import opened FilterExpr
  import opened FilterSyntax
  import opened ShortFilter
  import opened ShortMeaning

  /** A tilde comes before anything but exclamation marks, opening parentheses and spaces. */
  predicate StartsShort(s: string) {
    exists k :: 0 <= k < |s| && s[k] == '~' && OnlyOpening(s, k)
  }

  predicate OnlyOpening(s: string, k: nat)
    requires k <= |s|
  {
    forall i :: 0 <= i < k ==> s[i] == '!' || s[i] == '(' || s[i] == ' '
  }

  lemma StartsShortTail(s: string)
    requires s != "" && s[0] != '~'
    ensures StartsShort(s) <==> (s[0] == '!' || s[0] == '(' || s[0] == ' ') && StartsShort(s[1..])
  {
    var rest := s[1..];
    if StartsShort(s) {
      var k :| 0 <= k < |s| && s[k] == '~' && OnlyOpening(s, k);
      assert rest[k - 1] == '~' && OnlyOpening(rest, k - 1);
    }
    if (s[0] == '!' || s[0] == '(' || s[0] == ' ') && StartsShort(rest) {
      var k :| 0 <= k < |rest| && rest[k] == '~' && OnlyOpening(rest, k);
      assert forall i :: 1 <= i < k + 1 ==> s[i] == rest[i - 1];
      assert s[k + 1] == '~' && OnlyOpening(s, k + 1);
    }
  }

  lemma {:induction false} ShortTextIff(s: string)
    ensures IsShortText(s) <==> StartsShort(s)
    decreases |s|
  {
    if s != "" {
      if s[0] == '~' {
        assert OnlyOpening(s, 0);
      } else {
        StartsShortTail(s);
        ShortTextIff(s[1..]);
      }
    }
  }

  /** A tilde is no token. */
  lemma {:induction false} ShortIsNotTokenized(s: string)
    requires StartsShort(s)
    ensures Tokenized(s) == None
    decreases |s|
  {
    hide StartsShort, QuotedLength;
    ShortIsNotEmpty(s);
    if s[0] != '~' {
      StartsShortTail(s);
      ShortIsNotTokenized(s[1..]);
      if s[0] == '!' {
        NoEqualsFirst(s[1..]);
      }
    }
  }

  lemma ShortIsNotEmpty(s: string)
    requires StartsShort(s)
    ensures s != ""
  {
  }

  lemma NoEqualsFirst(s: string)
    requires StartsShort(s)
    ensures s != "" && s[0] != '='
  {
    var k :| 0 <= k < |s| && s[k] == '~' && OnlyOpening(s, k);
    assert k > 0 ==> s[0] == '!' || s[0] == '(' || s[0] == ' ';
  }

  /** No text of a series looks like a short filter. */
  lemma SeriesIsNotShort(text: string, e: Expr)
    requires ReadsAs(text, e)
    ensures !StartsShort(text)
  {
    hide ReadsAs, StartsShort, Tokenized;
    ParsedTextIff(text, e);
    if StartsShort(text) {
      ShortIsNotTokenized(text);
    }
  }

  /** What any filter text is read as. Control characters are refused. A text that starts like a short filter
      is expanded first. What remains is read exactly when it is the text of a series. */
  lemma FilterReadIff(s: string, e: Expr)
    ensures FilterRead(s) == Some(e) <==>
            && !HasControl(s)
            && if StartsShort(s) then ExpandedText(s).Some? && ReadsAs(ExpandedText(s).value, e) else ReadsAs(s, e)
  {
    hide ReadsAs, StartsShort, HasControl, ExpandedText, ParsedText, IsShortText;
    ShortTextIff(s);
    ParsedTextIff(s, e);
    if ExpandedText(s).Some? {
      ParsedTextIff(ExpandedText(s).value, e);
    }
  }

  /** Long filters: the text of a series without control characters is read as its tree, with or
      without white space between its tokens. */
  lemma SeriesIsRead(text: string, e: Expr)
    requires ReadsAs(text, e)
    ensures FilterRead(text) == if HasControl(text) then None else Some(e)
  {
    hide ReadsAs, StartsShort, HasControl, FilterRead, ExpandedText;
    SeriesIsNotShort(text, e);
    FilterReadIff(text, e);
    if HasControl(text) {
      ControlIsRefused(text);
    }
  }

  lemma ControlIsRefused(text: string)
    requires HasControl(text)
    ensures FilterRead(text) == None
  {
  }

  /** Every expression can be typed: its printed form is read back as the expression. */
  lemma PrintedIsRead(e: Expr)
    requires Printable(e)
    ensures FilterRead(PrintedText(e)) == if HasControl(PrintedText(e)) then None else Some(e)
  {
    hide ReadsAs, FilterRead, HasControl, PrintedText, ParsedText;
    PrintedTextParses(e);
    ParsedTextIff(PrintedText(e), e);
    SeriesIsRead(PrintedText(e), e);
  }

  /** What is neither short nor the text of a series is refused. */
  lemma OthersAreRefused(s: string)
    requires !StartsShort(s) && forall e :: !ReadsAs(s, e)
    ensures FilterRead(s) == None
  {
    hide ReadsAs, FilterRead, StartsShort;
    if FilterRead(s).Some? {
      FilterReadIff(s, FilterRead(s).value);
    }
  }
}
