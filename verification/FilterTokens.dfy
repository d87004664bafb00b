/** The tokens of filter expressions. */
module FilterTokens {
  import opened Basics

  datatype Token =
    | Not | Lt | Gt | Eq | And | Or | LParen | RParen
    | Ne | Le | Ge
    | Key(text: string) | IntOrKey(text: string) | Str(text: string)

  // ---------------------------------------------------------------------------------------
  // Characters
  // ---------------------------------------------------------------------------------------

  predicate IsSpace(c: char) {
    c == ' ' || '\t' <= c <= '\r'
  }

  predicate IsSpecial(c: char) {
    c == '!' || c == '<' || c == '>' || c == '=' || c == '&' || c == '|' || c == '(' || c == ')'
  }

  /** Letters, digits, underscore and minus. */
  predicate IsWordChar(c: char) {
    IsDigit(c) || 'a' <= c <= 'z' || 'A' <= c <= 'Z' || c == '_' || c == '-'
  }

  predicate IsWord(s: string) {
    s != "" && forall i :: 0 <= i < |s| ==> IsWordChar(s[i])
  }

  /** A word of digits with at most a leading minus reads as an integer or a key. */
  predicate IsIntWord(s: string)
    requires s != ""
  {
    AllDigits(if s[0] == '-' then s[1..] else s)
  }

  function WordToken(s: string): Token
    requires s != ""
  {
    if IsIntWord(s) then IntOrKey(s) else Key(s)
  }

  // ---------------------------------------------------------------------------------------
  // Tokens as functions of the remaining text
  // ---------------------------------------------------------------------------------------

  /** The length of a quoted text up to its closing quote; a backslash protects what follows. */
  function QuotedLength(s: string): (r: Option<nat>)
    ensures r.Some? ==> r.value < |s| && s[r.value] == '"'
    decreases |s|
  {
    if s == "" then None
    else if s[0] == '"' then Some(0)
    else if s[0] == '\\' then
      if |s| == 1 then None
      else var rest := QuotedLength(s[2..]); if rest.None? then None else Some(rest.value + 2)
    else var rest := QuotedLength(s[1..]); if rest.None? then None else Some(rest.value + 1)
  }

  /** The length of a word up to white space or a special character. */
  function WordLength(s: string): (r: Option<nat>)
    ensures r.Some? ==> r.value <= |s| && forall i :: 0 <= i < r.value ==> IsWordChar(s[i])
    ensures r.Some? && r.value < |s| ==> IsSpace(s[r.value]) || IsSpecial(s[r.value])
    decreases |s|
  {
    if s == "" || IsSpace(s[0]) || IsSpecial(s[0]) then Some(0)
    else if !IsWordChar(s[0]) then None
    else var rest := WordLength(s[1..]); if rest.None? then None else Some(rest.value + 1)
  }

  datatype Lexed = Lexed(token: Token, used: nat)

  function SpecialToken(c: char): Token
    requires IsSpecial(c)
  {
    if c == '!' then Not else if c == '<' then Lt else if c == '>' then Gt
    else if c == '=' then Eq else if c == '&' then And else if c == '|' then Or
    else if c == '(' then LParen else RParen
  }

  function CombinedToken(c: char): Token
    requires c == '!' || c == '<' || c == '>'
  {
    if c == '!' then Ne else if c == '<' then Le else Ge
  }

  function FirstToken(s: string): (r: Option<Lexed>)
    requires s != "" && !IsSpace(s[0])
    ensures r.Some? ==> 0 < r.value.used <= |s|
  {
    if IsSpecial(s[0]) then
      if (s[0] == '!' || s[0] == '<' || s[0] == '>') && |s| > 1 && s[1] == '='
      then Some(Lexed(CombinedToken(s[0]), 2))
      else Some(Lexed(SpecialToken(s[0]), 1))
    else if s[0] == '"' then
      var n := QuotedLength(s[1..]);
      if n.None? then None else Some(Lexed(Str(s[1..n.value + 1]), n.value + 2))
    else
      var n := WordLength(s);
      if n.None? then None else Some(Lexed(WordToken(s[..n.value]), n.value))
  }

  function Tokenized(s: string): Option<seq<Token>>
    decreases |s|
  {
    if s == "" then Some([])
    else if IsSpace(s[0]) then Tokenized(s[1..])
    else
      var first := FirstToken(s);
      if first.None? then None
      else
        var rest := Tokenized(s[first.value.used..]);
        if rest.None? then None else Some([first.value.token] + rest.value)
  }

  // ---------------------------------------------------------------------------------------
  // Tokenizing with an index
  // ---------------------------------------------------------------------------------------

  lemma QuotedFrom(s: string, i: nat)
    requires i < |s|
    ensures QuotedLength(s[i..]) ==
            if s[i] == '"' then Some(0)
            else if s[i] == '\\' && i + 1 == |s| then None
            else
              var skip: nat := if s[i] == '\\' then 2 else 1;
              var rest := QuotedLength(s[i + skip..]);
              if rest.None? then None else Some(rest.value + skip)
  {
    assert s[i..][1..] == s[i + 1..];
    if i + 1 < |s| {
      assert s[i..][2..] == s[i + 2..];
    }
  }

  method GetStr(s: string, idx: nat) returns (token: Option<Token>, next: nat)
    requires idx < |s| && s[idx] == '"'
    ensures token.Some? <==> FirstToken(s[idx..]).Some?
    ensures token.Some? ==> idx < next <= |s|
    ensures token.Some? ==> FirstToken(s[idx..]).value == Lexed(token.value, next - idx)
  {
    hide QuotedLength;
    assert QuotedLength("") == None by { NoQuote(); }
    var start := idx + 1;
    var e := start;
    assert s[idx..][1..] == s[start..];
    while e < |s| && s[e] != '"'
      invariant start <= e <= |s|
      invariant QuotedLength(s[start..]).None? <==> QuotedLength(s[e..]).None?
      invariant QuotedLength(s[start..]).Some? ==>
        QuotedLength(s[start..]).value == QuotedLength(s[e..]).value + (e - start)
    {
      QuotedFrom(s, e);
      if s[e] == '\\' {
        if e + 1 == |s| {
          return None, 0;
        }
        e := e + 2;
      } else {
        e := e + 1;
      }
    }
    if e == |s| {
      assert s[e..] == "";
      return None, 0;
    }
    QuotedFrom(s, e);
    token, next := Some(Str(s[start..e])), e + 1;
    assert s[idx..][1..e - start + 1] == s[start..e];
  }

  lemma NoQuote()
    ensures QuotedLength("") == None
  {
  }

  lemma WordFrom(s: string, i: nat)
    requires i < |s|
    ensures WordLength(s[i..]) ==
            if IsSpace(s[i]) || IsSpecial(s[i]) then Some(0)
            else if !IsWordChar(s[i]) then None
            else
              var rest := WordLength(s[i + 1..]);
              if rest.None? then None else Some(rest.value + 1)
  {
    assert s[i..][1..] == s[i + 1..];
  }

  lemma NoWord()
    ensures WordLength("") == Some(0)
  {
  }

  method GetIntOrKey(s: string, idx: nat) returns (token: Option<Token>, next: nat)
    requires idx < |s| && !IsSpace(s[idx]) && !IsSpecial(s[idx]) && s[idx] != '"'
    ensures token.Some? <==> FirstToken(s[idx..]).Some?
    ensures token.Some? ==> idx < next <= |s|
    ensures token.Some? ==> FirstToken(s[idx..]).value == Lexed(token.value, next - idx)
  {
    hide WordLength, FirstToken, AllDigits, IsSpecial, IsDigit;
    NoWord();
    var e := idx;
    var digitsOnly := true;
    if s[e] == '-' {
      WordFrom(s, e);
      e := e + 1;
    }
    ghost var first := e;
    while e < |s| && !IsSpace(s[e]) && !IsSpecial(s[e])
      invariant first <= e <= |s|
      invariant WordLength(s[idx..]).None? <==> WordLength(s[e..]).None?
      invariant WordLength(s[idx..]).Some? ==>
        WordLength(s[idx..]).value == WordLength(s[e..]).value + (e - idx)
      invariant digitsOnly <==> forall i :: first <= i < e ==> IsDigit(s[i])
    {
      WordFrom(s, e);
      if !IsDigit(s[e]) {
        digitsOnly := false;
        if !IsWordChar(s[e]) {
          BadWord(s, idx);
          return None, 0;
        }
      }
      e := e + 1;
    }
    if e < |s| {
      WordFrom(s, e);
    } else {
      assert s[e..] == "";
    }
    token, next := Some(if digitsOnly then IntOrKey(s[idx..e]) else Key(s[idx..e])), e;
    WordTokenFrom(s, idx, first, e);
  }

  lemma BadWord(s: string, idx: nat)
    requires idx < |s| && !IsSpace(s[idx]) && !IsSpecial(s[idx]) && s[idx] != '"'
    requires WordLength(s[idx..]).None?
    ensures FirstToken(s[idx..]).None?
  {
  }

  lemma WordTokenFrom(s: string, idx: nat, first: nat, e: nat)
    requires idx < e <= |s| && !IsSpace(s[idx]) && !IsSpecial(s[idx]) && s[idx] != '"'
    requires first == (if s[idx] == '-' then idx + 1 else idx)
    requires WordLength(s[idx..]) == Some(e - idx)
    ensures FirstToken(s[idx..]) ==
            Some(Lexed(if forall i :: first <= i < e ==> IsDigit(s[i]) then IntOrKey(s[idx..e]) else Key(s[idx..e]),
                       e - idx))
  {
    hide WordLength;
    var word := s[idx..e];
    assert s[idx..][..e - idx] == word;
    assert s[first..e] == if word[0] == '-' then word[1..] else word;
    DigitsFrom(s, first, e);
  }

  lemma DigitsFrom(s: string, from: nat, end: nat)
    requires from <= end <= |s|
    ensures AllDigits(s[from..end]) <==> forall i :: from <= i < end ==> IsDigit(s[i])
  {
    if AllDigits(s[from..end]) {
      forall i | from <= i < end
        ensures IsDigit(s[i])
      {
        assert s[from..end][i - from] == s[i];
      }
    }
  }

  method GetToken(s: string, idx: nat) returns (token: Option<Token>, next: nat)
    requires idx < |s| && !IsSpace(s[idx])
    ensures token.Some? <==> FirstToken(s[idx..]).Some?
    ensures token.Some? ==> idx < next <= |s|
    ensures token.Some? ==> FirstToken(s[idx..]).value == Lexed(token.value, next - idx)
  {
    var c := s[idx];
    if IsSpecial(c) {
      next := idx + 1;
      token := Some(SpecialToken(c));
      if (c == '!' || c == '<' || c == '>') && next < |s| && s[next] == '=' {
        token := Some(CombinedToken(c));
        next := next + 1;
      }
      return;
    }
    if c == '"' {
      token, next := GetStr(s, idx);
      return;
    }
    token, next := GetIntOrKey(s, idx);
  }

  method Tokenize(s: string) returns (tokens: Option<seq<Token>>)
    ensures tokens == Tokenized(s)
  {
    hide FirstToken, Tokenized, Prepended;
    var idx: nat := 0;
    var list: seq<Token> := [];
    assert s[0..] == s;
    TokensEmptyPrefix(Tokenized(s));
    while true
      invariant idx <= |s|
      invariant Tokenized(s) == Prepended(list, Tokenized(s[idx..]))
      decreases |s| - idx
    {
      while idx < |s| && IsSpace(s[idx])
        invariant idx <= |s|
        invariant Tokenized(s) == Prepended(list, Tokenized(s[idx..]))
      {
        TokensFrom(s, idx);
        idx := idx + 1;
      }
      if idx == |s| {
        NoTokens(list);
        return Some(list);
      }
      TokensFrom(s, idx);
      var token, next := GetToken(s, idx);
      if token.None? {
        NoneLeft(list);
        return None;
      }
      TokenAppended(list, token.value, Tokenized(s[next..]));
      list := list + [token.value];
      idx := next;
    }
  }

  lemma {:induction false} TokensFrom(s: string, i: nat)
    requires i < |s|
    ensures Tokenized(s[i..]) ==
            if IsSpace(s[i]) then Tokenized(s[i + 1..])
            else
              var first := FirstToken(s[i..]);
              if first.None? then None
              else Prepended([first.value.token], Tokenized(s[i + first.value.used..]))
  {
    hide FirstToken;
    assert s[i..][1..] == s[i + 1..];
    if !IsSpace(s[i]) && FirstToken(s[i..]).Some? {
      var used := FirstToken(s[i..]).value.used;
      assert s[i..][used..] == s[i + used..];
    }
  }

  lemma {:induction false} NoTokens(list: seq<Token>)
    ensures Prepended(list, Tokenized("")) == Some(list)
  {
    assert list + [] == list;
  }

  lemma NoneLeft(list: seq<Token>)
    ensures Prepended(list, None) == None
  {
  }

  function Prepended(list: seq<Token>, rest: Option<seq<Token>>): Option<seq<Token>> {
    if rest.None? then None else Some(list + rest.value)
  }

  lemma TokensEmptyPrefix(rest: Option<seq<Token>>)
    ensures Prepended([], rest) == rest
  {
    if rest.Some? {
      assert [] + rest.value == rest.value;
    }
  }

  lemma TokenAppended(list: seq<Token>, token: Token, rest: Option<seq<Token>>)
    ensures Prepended(list, Prepended([token], rest)) == Prepended(list + [token], rest)
  {
    if rest.Some? {
      assert list + ([token] + rest.value) == list + [token] + rest.value;
    }
  }

  // ---------------------------------------------------------------------------------------
  // Writing tokens back
  // ---------------------------------------------------------------------------------------

  /** Quoted text whose quotes and last backslash are protected. */
  predicate IsQuotable(s: string) {
    QuotedLength(s + "\"") == Some(|s|)
  }

  predicate IsToken(t: Token) {
    match t
    case Key(s) => IsWord(s) && !IsIntWord(s)
    case IntOrKey(s) => IsWord(s) && IsIntWord(s)
    case Str(s) => IsQuotable(s)
    case _ => true
  }

  function TokenText(t: Token): (s: string) {
    match t
    case Not => "!"
    case Lt => "<"
    case Gt => ">"
    case Eq => "="
    case And => "&"
    case Or => "|"
    case LParen => "("
    case RParen => ")"
    case Ne => "!="
    case Le => "<="
    case Ge => ">="
    case Key(s) => s
    case IntOrKey(s) => s
    case Str(s) => "\"" + s + "\""
  }

  function TokensText(ts: seq<Token>): string
    decreases |ts|
  {
    if ts == [] then "" else TokenText(ts[0]) + TokensText(ts[1..])
  }

  /** What may follow a token without being taken for part of it. */
  predicate MayFollow(t: Token, next: Token) {
    match t
    case Key(_) => !next.Key? && !next.IntOrKey? && !next.Str?
    case IntOrKey(_) => !next.Key? && !next.IntOrKey? && !next.Str?
    case Not => !next.Eq?
    case Lt => !next.Eq?
    case Gt => !next.Eq?
    case _ => true
  }

  predicate IsTokenList(ts: seq<Token>) {
    && (forall i :: 0 <= i < |ts| ==> IsToken(ts[i]))
    && (forall i :: 0 <= i < |ts| - 1 ==> MayFollow(ts[i], ts[i + 1]))
  }

  /** A word ends before white space, a special character, and the end of the text. */
  predicate EndsWord(rest: string) {
    rest == "" || IsSpace(rest[0]) || IsSpecial(rest[0])
  }

  lemma {:induction false} WordLengthOf(word: string, rest: string)
    requires forall i :: 0 <= i < |word| ==> IsWordChar(word[i])
    requires EndsWord(rest)
    ensures WordLength(word + rest) == Some(|word|)
    decreases |word|
  {
    if word == "" {
      assert word + rest == rest;
    } else {
      assert (word + rest)[0] == word[0];
      assert (word + rest)[1..] == word[1..] + rest;
      WordLengthOf(word[1..], rest);
    }
  }

  lemma {:induction false} QuotedLengthOf(s: string, rest: string)
    requires QuotedLength(s).Some?
    ensures QuotedLength(s + rest) == QuotedLength(s)
    decreases |s|
  {
    assert (s + rest)[0] == s[0];
    if s[0] == '\\' {
      assert (s + rest)[2..] == s[2..] + rest;
      QuotedLengthOf(s[2..], rest);
    } else if s[0] != '"' {
      assert (s + rest)[1..] == s[1..] + rest;
      QuotedLengthOf(s[1..], rest);
    }
  }

  predicate IsWordToken(t: Token) {
    t.Key? || t.IntOrKey?
  }

  lemma FirstWord(t: Token, rest: string)
    requires IsToken(t) && IsWordToken(t) && EndsWord(rest)
    ensures var s := t.text + rest;
            s != "" && !IsSpace(s[0]) && FirstToken(s) == Some(Lexed(t, |t.text|))
  {
    hide WordLength, IsIntWord;
    var s := t.text + rest;
    assert s[0] == t.text[0];
    WordLengthOf(t.text, rest);
    assert s[..|t.text|] == t.text;
  }

  lemma FirstStr(t: Token, rest: string)
    requires IsToken(t) && t.Str?
    ensures var s := TokenText(t) + rest;
            s != "" && !IsSpace(s[0]) && FirstToken(s) == Some(Lexed(t, |TokenText(t)|))
  {
    hide QuotedLength, WordLength;
    var s := TokenText(t) + rest;
    var body := t.text + "\"";
    assert s[0] == '"';
    assert s[1..] == body + rest;
    QuotedLengthOf(body, rest);
    assert s[1..][..|t.text|] == t.text;
    assert s[1..|t.text| + 1] == s[1..][..|t.text|];
  }

  lemma FirstSymbol(t: Token, rest: string)
    requires !IsWordToken(t) && !t.Str?
    requires (t.Not? || t.Lt? || t.Gt?) && rest != "" ==> rest[0] != '='
    ensures var s := TokenText(t) + rest;
            s != "" && !IsSpace(s[0]) && FirstToken(s) == Some(Lexed(t, |TokenText(t)|))
  {
    hide QuotedLength, WordLength;
    var s := TokenText(t) + rest;
    assert s[0] == TokenText(t)[0];
    assert |TokenText(t)| == 2 ==> s[1] == TokenText(t)[1];
    assert |TokenText(t)| == 1 && rest != "" ==> s[1] == rest[0];
  }

  lemma FirstTokenOf(t: Token, rest: string)
    requires IsToken(t)
    requires IsWordToken(t) ==> EndsWord(rest)
    requires (t.Not? || t.Lt? || t.Gt?) && rest != "" ==> rest[0] != '='
    ensures var s := TokenText(t) + rest;
            && s != ""
            && !IsSpace(s[0])
            && FirstToken(s) == Some(Lexed(t, |TokenText(t)|))
            && s[|TokenText(t)|..] == rest
  {
    hide FirstToken, IsToken;
    if IsWordToken(t) {
      FirstWord(t, rest);
    } else if t.Str? {
      FirstStr(t, rest);
    } else {
      FirstSymbol(t, rest);
    }
  }

  lemma TokensTextStart(ts: seq<Token>)
    requires ts != [] && IsToken(ts[0])
    ensures TokensText(ts) != "" && TokensText(ts)[0] == TokenText(ts[0])[0]
  {
  }

  /** A list of tokens written without separators is read back as that list. */
  lemma {:induction false} TokenizedText(ts: seq<Token>)
    requires IsTokenList(ts)
    ensures Tokenized(TokensText(ts)) == Some(ts)
    decreases |ts|
  {
    hide FirstToken, TokenText, IsToken;
    if ts != [] {
      var rest := TokensText(ts[1..]);
      assert IsToken(ts[0]);
      TokenizedText(ts[1..]);
      if |ts| > 1 {
        TokensTextStart(ts[1..]);
        assert MayFollow(ts[0], ts[1]);
        StartsSpecial(ts[1]);
      } else {
        assert rest == "";
      }
      FirstTokenOf(ts[0], rest);
      assert [ts[0]] + ts[1..] == ts;
    }
  }

  lemma StartsSpecial(t: Token)
    requires IsToken(t)
    ensures TokenText(t) != ""
    ensures !t.Key? && !t.IntOrKey? && !t.Str? ==> IsSpecial(TokenText(t)[0])
    ensures !t.Eq? ==> TokenText(t)[0] != '='
  {
  }
}
