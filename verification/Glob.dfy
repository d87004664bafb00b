/** Glob patterns: compilation to a list of items, the normal form of the list, and matching.
    Characters compare through `fold`, which stands for case folding and accent removal. */
module Glob {

  datatype Item = Star | QMark | Text(text: string)

  type Fold = char -> char

  // ---------------------------------------------------------------------------------------
  // What a pattern means
  // ---------------------------------------------------------------------------------------

  /** `*` stands for any text, `?` for any character, a backslash for the character after it,
      and a backslash that ends the pattern for itself. */
  ghost predicate Meaning(fold: Fold, pattern: string, text: string)
    decreases |pattern|
  {
    if pattern == "" then text == ""
    else if pattern[0] == '*' then exists k :: 0 <= k <= |text| && Meaning(fold, pattern[1..], text[k..])
    else if pattern[0] == '?' then text != "" && Meaning(fold, pattern[1..], text[1..])
    else if pattern[0] == '\\' && |pattern| > 1 then
      text != "" && fold(text[0]) == fold(pattern[1]) && Meaning(fold, pattern[2..], text[1..])
    else text != "" && fold(text[0]) == fold(pattern[0]) && Meaning(fold, pattern[1..], text[1..])
  }

  predicate StartsWith(fold: Fold, text: string, prefix: string) {
    |prefix| <= |text| && forall i :: 0 <= i < |prefix| ==> fold(prefix[i]) == fold(text[i])
  }

  /** The texts an item list accepts. */
  ghost predicate Accepts(fold: Fold, items: seq<Item>, text: string)
    decreases |items|
  {
    if items == [] then text == ""
    else match items[0]
      case Star => exists k :: 0 <= k <= |text| && Accepts(fold, items[1..], text[k..])
      case QMark => text != "" && Accepts(fold, items[1..], text[1..])
      case Text(t) => StartsWith(fold, text, t) && Accepts(fold, items[1..], text[|t|..])
  }

  // ---------------------------------------------------------------------------------------
  // Compilation
  // ---------------------------------------------------------------------------------------

  datatype Run = Run(text: string, used: nat)

  /** The longest literal run at the start of a pattern, without its escapes. */
  function Literal(pattern: string): (r: Run)
    ensures r.used <= |pattern|
    ensures pattern != "" && pattern[0] != '*' && pattern[0] != '?' ==> r.used > 0 && r.text != ""
    decreases |pattern|
  {
    if pattern == "" || pattern[0] == '*' || pattern[0] == '?' then Run("", 0)
    else if pattern[0] == '\\' then
      if |pattern| == 1 then Run("\\", 1)
      else var rest := Literal(pattern[2..]); Run([pattern[1]] + rest.text, 2 + rest.used)
    else var rest := Literal(pattern[1..]); Run([pattern[0]] + rest.text, 1 + rest.used)
  }

  function Items(pattern: string): seq<Item>
    decreases |pattern|
  {
    if pattern == "" then []
    else if pattern[0] == '*' then [Star] + Items(pattern[1..])
    else if pattern[0] == '?' then [QMark] + Items(pattern[1..])
    else [Text(Literal(pattern).text)] + Items(pattern[Literal(pattern).used..])
  }

  lemma TextSplits(fold: Fold, c: char, t: string, rest: seq<Item>, text: string)
    ensures Accepts(fold, [Text([c] + t)] + rest, text) <==>
            text != "" && fold(text[0]) == fold(c) && Accepts(fold, [Text(t)] + rest, text[1..])
  {
    var one, other := [Text([c] + t)] + rest, [Text(t)] + rest;
    assert one[1..] == rest && other[1..] == rest;
    if text != "" {
      var tail := text[1..];
      assert StartsWith(fold, text, [c] + t) <==> fold(text[0]) == fold(c) && StartsWith(fold, tail, t) by {
        if StartsWith(fold, text, [c] + t) {
          assert ([c] + t)[0] == c;
          forall i | 0 <= i < |t|
            ensures fold(t[i]) == fold(tail[i])
          {
            assert ([c] + t)[i + 1] == t[i];
          }
        }
      }
      if |t| <= |tail| {
        assert text[|[c] + t|..] == tail[|t|..];
      }
    }
  }

  lemma EmptyText(fold: Fold, rest: seq<Item>, text: string)
    ensures Accepts(fold, [Text("")] + rest, text) <==> Accepts(fold, rest, text)
  {
    assert ([Text("")] + rest)[1..] == rest;
    assert text[0..] == text;
  }

  lemma {:induction false} LiteralMeaning(fold: Fold, pattern: string, text: string)
    ensures Meaning(fold, pattern, text) <==>
            Accepts(fold, [Text(Literal(pattern).text)] + Items(pattern[Literal(pattern).used..]), text)
    decreases |pattern|, 0
  {
    var run := Literal(pattern);
    if run.used == 0 {
      assert pattern[0..] == pattern;
      EmptyText(fold, Items(pattern), text);
      ItemsMeaning(fold, pattern, text);
    } else if pattern[0] == '\\' && |pattern| == 1 {
      assert pattern[1..] == "";
      TextSplits(fold, '\\', "", [], text);
      assert "\\" == ['\\'] + "";
      assert run.text == ['\\'] + "";
      if text != "" {
        EmptyText(fold, [], text[1..]);
      }
    } else {
      var skip := if pattern[0] == '\\' then 2 else 1;
      var rest := Literal(pattern[skip..]);
      assert pattern[skip..][rest.used..] == pattern[run.used..];
      TextSplits(fold, pattern[skip - 1], rest.text, Items(pattern[run.used..]), text);
      if text != "" {
        LiteralMeaning(fold, pattern[skip..], text[1..]);
      }
    }
  }

  /** Compilation keeps the meaning of the escaped pattern. */
  lemma {:induction false} ItemsMeaning(fold: Fold, pattern: string, text: string)
    ensures Meaning(fold, pattern, text) <==> Accepts(fold, Items(pattern), text)
    decreases |pattern|, if pattern == "" || pattern[0] == '*' || pattern[0] == '?' then -1 else 1
  {
    if pattern != "" {
      assert Items(pattern)[1..] == (if pattern[0] == '*' || pattern[0] == '?' then Items(pattern[1..])
                                     else Items(pattern[Literal(pattern).used..]));
      if pattern[0] == '*' {
        forall k | 0 <= k <= |text|
          ensures Meaning(fold, pattern[1..], text[k..]) <==> Accepts(fold, Items(pattern[1..]), text[k..])
        {
          ItemsMeaning(fold, pattern[1..], text[k..]);
        }
      } else if pattern[0] == '?' {
        if text != "" {
          ItemsMeaning(fold, pattern[1..], text[1..]);
        }
      } else {
        LiteralMeaning(fold, pattern, text);
      }
    }
  }

  // ---------------------------------------------------------------------------------------
  // The normal form
  // ---------------------------------------------------------------------------------------

  /** The number of wildcards before the first text. */
  function Wildcards(items: seq<Item>): (n: nat)
    ensures n <= |items|
    ensures forall i :: 0 <= i < n ==> !items[i].Text?
    ensures n < |items| ==> items[n].Text?
    decreases |items|
  {
    if items == [] || items[0].Text? then 0 else 1 + Wildcards(items[1..])
  }

  function Count(item: Item, items: seq<Item>): (n: nat)
    ensures n > 0 <==> item in items
    decreases |items|
  {
    if items == [] then 0 else (if items[0] == item then 1 else 0) + Count(item, items[1..])
  }

  function Repeat(item: Item, n: nat): (r: seq<Item>)
    ensures |r| == n && forall i :: 0 <= i < n ==> r[i] == item
  {
    seq(n, _ => item)
  }

  /** Wildcards with a star among them: the question marks first, then one star. */
  function NormalWildcards(wild: seq<Item>): seq<Item> {
    if Star in wild then Repeat(QMark, Count(QMark, wild)) + [Star] else wild
  }

  function Simplified(items: seq<Item>): seq<Item>
    decreases |items|
  {
    var n := Wildcards(items);
    if n == |items| then NormalWildcards(items)
    else NormalWildcards(items[..n]) + [items[n]] + Simplified(items[n + 1..])
  }

  /** Every star comes last or stands directly before a text. */
  predicate Normal(items: seq<Item>) {
    forall i :: 0 <= i < |items| - 1 && items[i].Star? ==> items[i + 1].Text?
  }

  predicate NonEmptyTexts(items: seq<Item>) {
    forall i :: 0 <= i < |items| && items[i].Text? ==> items[i].text != ""
  }

  lemma {:induction false} QMarksAccept(fold: Fold, wild: seq<Item>, rest: seq<Item>, text: string)
    requires forall i :: 0 <= i < |wild| ==> wild[i].QMark?
    ensures Accepts(fold, wild + rest, text) <==> |wild| <= |text| && Accepts(fold, rest, text[|wild|..])
    decreases |wild|
  {
    if wild == [] {
      assert wild + rest == rest && text[0..] == text;
    } else {
      assert (wild + rest)[1..] == wild[1..] + rest;
      if text != "" {
        QMarksAccept(fold, wild[1..], rest, text[1..]);
        if |wild| <= |text| {
          assert text[1..][|wild[1..]|..] == text[|wild|..];
        }
      }
    }
  }

  lemma {:induction false} CountAll(wild: seq<Item>)
    requires forall i :: 0 <= i < |wild| ==> wild[i].QMark?
    ensures Count(QMark, wild) == |wild|
    decreases |wild|
  {
    if wild != [] {
      CountAll(wild[1..]);
    }
  }

  /** Some suffix after at least `least` characters is accepted by `rest`. */
  ghost predicate AcceptsAfter(fold: Fold, rest: seq<Item>, text: string, least: nat) {
    exists k :: least <= k <= |text| && Accepts(fold, rest, text[k..])
  }

  lemma AfterOneMore(fold: Fold, rest: seq<Item>, text: string, least: nat)
    requires text != ""
    ensures AcceptsAfter(fold, rest, text[1..], least) <==> AcceptsAfter(fold, rest, text, least + 1)
  {
    hide Accepts;
    var tail := text[1..];
    if AcceptsAfter(fold, rest, tail, least) {
      var k :| least <= k <= |tail| && Accepts(fold, rest, tail[k..]);
      assert tail[k..] == text[k + 1..];
    }
    if AcceptsAfter(fold, rest, text, least + 1) {
      var k :| least + 1 <= k <= |text| && Accepts(fold, rest, text[k..]);
      assert tail[k - 1..] == text[k..];
    }
  }

  lemma AfterSuffix(fold: Fold, rest: seq<Item>, text: string, skipped: nat, least: nat)
    requires skipped <= |text|
    ensures AcceptsAfter(fold, rest, text[skipped..], least) ==> AcceptsAfter(fold, rest, text, least)
  {
    hide Accepts;
    var tail := text[skipped..];
    if AcceptsAfter(fold, rest, tail, least) {
      var k :| least <= k <= |tail| && Accepts(fold, rest, tail[k..]);
      assert tail[k..] == text[skipped + k..];
    }
  }

  lemma AcceptsHead(fold: Fold, item: Item, items: seq<Item>, text: string)
    ensures item == QMark ==>
              (Accepts(fold, [item] + items, text) <==> text != "" && Accepts(fold, items, text[1..]))
    ensures item == Star ==>
              (Accepts(fold, [item] + items, text) <==>
               exists k :: 0 <= k <= |text| && Accepts(fold, items, text[k..]))
  {
    assert ([item] + items)[1..] == items;
  }

  lemma {:induction false} WildcardsAccept(fold: Fold, wild: seq<Item>, rest: seq<Item>, text: string)
    requires Star in wild && forall i :: 0 <= i < |wild| ==> !wild[i].Text?
    ensures Accepts(fold, wild + rest, text) <==> AcceptsAfter(fold, rest, text, Count(QMark, wild))
    decreases |wild|, 0
  {
    hide Accepts, AcceptsAfter;
    var tail := wild[1..];
    assert wild + rest == [wild[0]] + (tail + rest);
    AcceptsHead(fold, wild[0], tail + rest, text);
    if wild[0] == QMark {
      assert Star in tail;
      if text != "" {
        WildcardsAccept(fold, tail, rest, text[1..]);
        AfterOneMore(fold, rest, text, Count(QMark, tail));
      } else {
        NothingAfter(fold, rest, Count(QMark, wild));
      }
    } else {
      StarHeadAccepts(fold, tail, rest, text);
    }
  }

  lemma NothingAfter(fold: Fold, rest: seq<Item>, least: nat)
    requires least > 0
    ensures !AcceptsAfter(fold, rest, "", least)
  {
    hide Accepts;
  }

  lemma {:induction false} StarHeadAccepts(fold: Fold, tail: seq<Item>, rest: seq<Item>, text: string)
    requires forall i :: 0 <= i < |tail| ==> !tail[i].Text?
    ensures (exists k :: 0 <= k <= |text| && Accepts(fold, tail + rest, text[k..])) <==>
            AcceptsAfter(fold, rest, text, Count(QMark, tail))
    decreases |tail|, 2
  {
    hide Accepts, AcceptsAfter, Count;
    var q := Count(QMark, tail);
    if k :| 0 <= k <= |text| && Accepts(fold, tail + rest, text[k..]) {
      TailAccepts(fold, tail, rest, text[k..]);
      AfterSuffix(fold, rest, text, k, q);
    }
    if AcceptsAfter(fold, rest, text, q) {
      var k := AfterWitness(fold, rest, text, q);
      TailAccepts(fold, tail, rest, text[k - q..]);
      assert text[k - q..][q..] == text[k..];
      AfterIntro(fold, rest, text[k - q..], q, q);
      assert Accepts(fold, tail + rest, text[k - q..]);
    }
  }

  lemma AfterWitness(fold: Fold, rest: seq<Item>, text: string, least: nat) returns (k: nat)
    requires AcceptsAfter(fold, rest, text, least)
    ensures least <= k <= |text| && Accepts(fold, rest, text[k..])
  {
    hide Accepts;
    k :| least <= k <= |text| && Accepts(fold, rest, text[k..]);
  }

  lemma AfterIntro(fold: Fold, rest: seq<Item>, text: string, least: nat, k: nat)
    requires least <= k <= |text| && Accepts(fold, rest, text[k..])
    ensures AcceptsAfter(fold, rest, text, least)
  {
    hide Accepts;
  }

  lemma {:induction false} TailAccepts(fold: Fold, wild: seq<Item>, rest: seq<Item>, text: string)
    requires forall i :: 0 <= i < |wild| ==> !wild[i].Text?
    ensures Accepts(fold, wild + rest, text) ==> AcceptsAfter(fold, rest, text, Count(QMark, wild))
    ensures Star in wild && AcceptsAfter(fold, rest, text, Count(QMark, wild)) ==>
              Accepts(fold, wild + rest, text)
    ensures Star !in wild ==> Count(QMark, wild) == |wild|
    ensures Star !in wild ==>
              (Accepts(fold, wild + rest, text) <==> |wild| <= |text| && Accepts(fold, rest, text[|wild|..]))
    decreases |wild|, 1
  {
    hide Accepts, AcceptsAfter, Count;
    if Star in wild {
      WildcardsAccept(fold, wild, rest, text);
    } else {
      QMarksAccept(fold, wild, rest, text);
      CountAll(wild);
      if |wild| <= |text| && Accepts(fold, rest, text[|wild|..]) {
        AfterIntro(fold, rest, text, |wild|, |wild|);
      }
    }
  }

  lemma {:induction false} CountRepeat(item: Item, n: nat, last: Item)
    requires item != last
    ensures Count(item, Repeat(item, n) + [last]) == n
    decreases n
  {
    var all := Repeat(item, n) + [last];
    if n > 0 {
      assert all[1..] == Repeat(item, n - 1) + [last];
      CountRepeat(item, n - 1, last);
    } else {
      assert all == [last];
    }
  }

  lemma NormalWildcardsAccept(fold: Fold, wild: seq<Item>, rest: seq<Item>, text: string)
    requires forall i :: 0 <= i < |wild| ==> !wild[i].Text?
    ensures Accepts(fold, NormalWildcards(wild) + rest, text) <==> Accepts(fold, wild + rest, text)
  {
    hide Accepts, AcceptsAfter;
    if Star in wild {
      var q := Count(QMark, wild);
      CountRepeat(QMark, q, Star);
      assert (Repeat(QMark, q) + [Star])[q] == Star;
      WildcardsAccept(fold, wild, rest, text);
      WildcardsAccept(fold, NormalWildcards(wild), rest, text);
    }
  }

  lemma {:induction false} PrefixAccepts(fold: Fold, prefix: seq<Item>, a: seq<Item>, b: seq<Item>, text: string)
    requires forall t: string :: Accepts(fold, a, t) <==> Accepts(fold, b, t)
    ensures Accepts(fold, prefix + a, text) <==> Accepts(fold, prefix + b, text)
    decreases |prefix|
  {
    if prefix == [] {
      assert prefix + a == a && prefix + b == b;
    } else {
      assert (prefix + a)[1..] == prefix[1..] + a && (prefix + b)[1..] == prefix[1..] + b;
      forall k | 0 <= k <= |text|
        ensures Accepts(fold, prefix[1..] + a, text[k..]) <==> Accepts(fold, prefix[1..] + b, text[k..])
      {
        PrefixAccepts(fold, prefix[1..], a, b, text[k..]);
      }
    }
  }

  /** Simplification keeps the accepted texts. */
  lemma {:induction false} SimplifiedAccepts(fold: Fold, items: seq<Item>, text: string)
    ensures Accepts(fold, Simplified(items), text) <==> Accepts(fold, items, text)
    decreases |items|
  {
    hide Accepts, NormalWildcards, Wildcards;
    var n := Wildcards(items);
    var wild := items[..n];
    if n == |items| {
      assert wild == items && wild + [] == items && NormalWildcards(wild) + [] == NormalWildcards(items);
      NormalWildcardsAccept(fold, wild, [], text);
    } else {
      var rest := items[n + 1..];
      forall t: string
        ensures Accepts(fold, Simplified(rest), t) <==> Accepts(fold, rest, t)
      {
        SimplifiedAccepts(fold, rest, t);
      }
      assert items == wild + ([items[n]] + rest);
      NormalWildcardsAccept(fold, wild, [items[n]] + rest, text);
      PrefixAccepts(fold, NormalWildcards(wild) + [items[n]], Simplified(rest), rest, text);
      assert NormalWildcards(wild) + [items[n]] + rest == NormalWildcards(wild) + ([items[n]] + rest);
    }
  }

  lemma JoinedNormal(wild: seq<Item>, text: Item, rest: seq<Item>)
    requires Normal(wild) && Normal(rest) && text.Text?
    ensures Normal(wild + [text] + rest)
  {
    var all := wild + [text] + rest;
    forall i | 0 <= i < |all| - 1 && all[i].Star?
      ensures all[i + 1].Text?
    {
      if i < |wild| - 1 {
        assert all[i] == wild[i] && all[i + 1] == wild[i + 1];
      } else if i > |wild| {
        assert all[i] == rest[i - |wild| - 1] && all[i + 1] == rest[i - |wild|];
      }
    }
  }

  lemma {:induction false} SimplifiedNormal(items: seq<Item>)
    ensures Normal(Simplified(items))
    ensures NonEmptyTexts(items) ==> NonEmptyTexts(Simplified(items))
    decreases |items|
  {
    var n := Wildcards(items);
    if n < |items| {
      SimplifiedNormal(items[n + 1..]);
      JoinedNormal(NormalWildcards(items[..n]), items[n], Simplified(items[n + 1..]));
    }
  }

  lemma {:induction false} ItemsNonEmptyTexts(pattern: string)
    ensures NonEmptyTexts(Items(pattern))
    decreases |pattern|
  {
    if pattern != "" {
      if pattern[0] == '*' || pattern[0] == '?' {
        ItemsNonEmptyTexts(pattern[1..]);
      } else {
        ItemsNonEmptyTexts(pattern[Literal(pattern).used..]);
      }
    }
  }

  // ---------------------------------------------------------------------------------------
  // The compiled pattern
  // ---------------------------------------------------------------------------------------

  lemma {:induction false} CountConcat(item: Item, a: seq<Item>, b: seq<Item>)
    ensures Count(item, a + b) == Count(item, a) + Count(item, b)
    decreases |a|
  {
    if a == [] {
      assert a + b == b;
    } else {
      assert (a + b)[1..] == a[1..] + b;
      CountConcat(item, a[1..], b);
    }
  }

  lemma CountSnoc(items: seq<Item>, from: nat, i: nat)
    requires from <= i < |items|
    ensures items[from..i + 1] == items[from..i] + [items[i]]
    ensures forall item :: Count(item, items[from..i + 1]) ==
              Count(item, items[from..i]) + if items[i] == item then 1 else 0
  {
    assert items[from..i + 1] == items[from..i] + [items[i]];
    forall item
      ensures Count(item, items[from..i + 1]) ==
              Count(item, items[from..i]) + if items[i] == item then 1 else 0
    {
      CountConcat(item, items[from..i], [items[i]]);
    }
  }

  lemma {:induction false} WildcardsAre(items: seq<Item>, n: nat)
    requires n <= |items|
    requires forall i :: 0 <= i < n ==> !items[i].Text?
    requires n < |items| ==> items[n].Text?
    ensures Wildcards(items) == n
    decreases n
  {
    if n > 0 {
      WildcardsAre(items[1..], n - 1);
    }
  }

  lemma {:induction false} CountTotal(wild: seq<Item>)
    requires forall i :: 0 <= i < |wild| ==> !wild[i].Text?
    ensures Count(QMark, wild) + Count(Star, wild) == |wild|
    decreases |wild|
  {
    if wild != [] {
      CountTotal(wild[1..]);
    }
  }

  lemma RunTotal(items: seq<Item>, item: nat, i: nat)
    requires item <= i <= |items|
    requires forall j :: item <= j < i ==> !items[j].Text?
    requires i < |items| ==> items[i].Text?
    ensures i == item + Wildcards(items[item..])
    ensures Count(QMark, items[item..i]) + Count(Star, items[item..i]) == i - item
  {
    hide Count, Wildcards;
    var rest, run := items[item..], items[item..i];
    forall j | 0 <= j < i - item
      ensures !rest[j].Text? && !run[j].Text?
    {
      assert rest[j] == items[item + j] && run[j] == items[item + j];
    }
    WildcardsAre(rest, i - item);
    CountTotal(run);
  }

  lemma {:induction false} ItemsFrom(pattern: string, i: nat)
    requires i < |pattern|
    ensures Items(pattern[i..]) ==
            if pattern[i] == '*' then [Star] + Items(pattern[i + 1..])
            else if pattern[i] == '?' then [QMark] + Items(pattern[i + 1..])
            else [Text(Literal(pattern[i..]).text)] + Items(pattern[i + Literal(pattern[i..]).used..])
  {
    hide Items, Literal;
    var rest := pattern[i..];
    ItemsUnfold(rest);
    assert rest[0] == pattern[i] && rest[1..] == pattern[i + 1..];
    var used := Literal(rest).used;
    assert rest[used..] == pattern[i + used..];
  }

  lemma {:induction false} ItemsUnfold(pattern: string)
    requires pattern != ""
    ensures Items(pattern) ==
            if pattern[0] == '*' then [Star] + Items(pattern[1..])
            else if pattern[0] == '?' then [QMark] + Items(pattern[1..])
            else [Text(Literal(pattern).text)] + Items(pattern[Literal(pattern).used..])
  {
    hide Literal;
  }

  lemma Shift<T>(a: seq<T>, c: T, b: seq<T>)
    ensures a + ([c] + b) == a + [c] + b
  {
  }

  lemma NoLiteral()
    ensures Literal("") == Run("", 0)
  {
  }

  lemma NoItems()
    ensures Items("") == []
  {
  }

  lemma {:induction false} LiteralFrom(pattern: string, i: nat)
    requires i < |pattern|
    ensures Literal(pattern[i..]) ==
            if pattern[i] == '*' || pattern[i] == '?' then Run("", 0)
            else if pattern[i] == '\\' && i + 1 == |pattern| then Run("\\", 1)
            else if pattern[i] == '\\' then
              Run([pattern[i + 1]] + Literal(pattern[i + 2..]).text, 2 + Literal(pattern[i + 2..]).used)
            else Run([pattern[i]] + Literal(pattern[i + 1..]).text, 1 + Literal(pattern[i + 1..]).used)
  {
    assert pattern[i..][1..] == pattern[i + 1..];
    if i + 1 < |pattern| {
      assert pattern[i..][2..] == pattern[i + 2..];
    }
  }

  function MovedToFront(items: seq<Item>, start: nat, i: nat): (r: seq<Item>)
    requires start <= i < |items|
    ensures |r| == |items|
    ensures forall j :: 0 <= j < |items| ==>
              r[j] == if j == start then items[i] else if start < j <= i then items[j - 1] else items[j]
  {
    items[..start] + [items[i]] + items[start..i] + items[i + 1..]
  }

  /** The wildcards of a run up to i, question marks first, and the rest of the list untouched. */
  predicate QMarksInFront(items: seq<Item>, was: seq<Item>, start: nat, firstStar: nat, i: nat)
    requires |items| == |was|
  {
    forall j :: 0 <= j < |was| ==>
      items[j] == if start <= j < firstStar then QMark else if firstStar <= j < i then Star else was[j]
  }

  lemma NoCount()
    ensures forall item :: Count(item, []) == 0
  {
  }

  lemma CountHead(items: seq<Item>, i: nat, end: nat)
    requires i < end <= |items|
    ensures Count(QMark, items[i..end]) == (if items[i].QMark? then 1 else 0) + Count(QMark, items[i + 1..end])
  {
    assert items[i..end][1..] == items[i + 1..end];
  }

  lemma MoveKeepsFront(items: seq<Item>, was: seq<Item>, start: nat, firstStar: nat, i: nat)
    requires |items| == |was| && start <= firstStar <= i < |was|
    requires QMarksInFront(items, was, start, firstStar, i) && !was[i].Text?
    ensures items[i] == was[i]
    ensures was[i].QMark? ==> QMarksInFront(MovedToFront(items, start, i), was, start, firstStar + 1, i + 1)
    ensures was[i].Star? ==> QMarksInFront(items, was, start, firstStar, i + 1)
  {
  }

  lemma NothingInFront(items: seq<Item>, start: nat)
    ensures QMarksInFront(items, items, start, start, start)
  {
  }

  lemma FrontIs(items: seq<Item>, was: seq<Item>, start: nat, q: nat, i: nat, n: nat)
    requires |items| == |was| && start + q <= i <= start + n <= |was|
    requires QMarksInFront(items, was, start, start + q, i)
    requires forall j :: i <= j < start + n ==> was[j].Star?
    ensures items == was[..start] + Repeat(QMark, q) + Repeat(Star, n - q) + was[start + n..]
  {
  }

  lemma DropFirst(front: seq<Item>, was: seq<Item>, k: nat)
    requires k < |was|
    ensures var s := front + was[k..];
            s[|front|] == was[k] && s[..|front|] + s[|front| + 1..] == front + was[k + 1..]
  {
    var s := front + was[k..];
    assert s[..|front|] == front && s[|front| + 1..] == was[k + 1..];
  }

  lemma LastStarStays(was: seq<Item>, first: nat, last: nat)
    requires first <= last < |was| && was[first] == was[last]
    ensures was[..first] + was[last..] == was[..first + 1] + was[last + 1..]
  {
    assert was[last..] == [was[last]] + was[last + 1..];
    assert was[..first + 1] == was[..first] + [was[first]];
    Shift(was[..first], was[last], was[last + 1..]);
  }

  /** One run after its question marks are moved and all stars but the last removed. */
  lemma RunIsNormal(before: seq<Item>, item: nat, n: nat, q: nat, stars: nat, moved: seq<Item>)
    requires item + n <= |before| && n == q + stars && stars > 0
    requires q == Count(QMark, before[item..item + n]) && stars == Count(Star, before[item..item + n])
    requires moved == before[..item] + Repeat(QMark, q) + Repeat(Star, n - q) + before[item + n..]
    ensures moved[..item + q + 1] + moved[item + q + stars..] ==
            before[..item] + NormalWildcards(before[item..item + n]) + before[item + n..]
  {
    assert moved[..item + q + 1] == before[..item] + (Repeat(QMark, q) + [Star]);
    assert moved[item + q + stars..] == before[item + n..];
  }

  class Pattern {
    /** The item list, in order. */
    var items: seq<Item>

    constructor Empty()
      ensures items == []
    {
      items := [];
    }

    /** Compiles a pattern: its items, in normal form. */
    constructor Compile(pattern: string)
      ensures items == Simplified(Items(pattern))
      ensures Normal(items) && NonEmptyTexts(items)
    {
      items := [];
      new;
      items := ParseItems(pattern);
      ItemsNonEmptyTexts(pattern);
      SimplifiedNormal(Items(pattern));
      Simplify();
    }

    static method ParseItems(pattern: string) returns (items: seq<Item>)
      ensures items == Items(pattern)
    {
      hide Literal, Items;
      items := [];
      var i: nat := 0;
      while i < |pattern|
        invariant i <= |pattern|
        invariant items + Items(pattern[i..]) == Items(pattern)
      {
        ItemsFrom(pattern, i);
        ghost var used := if pattern[i] == '*' || pattern[i] == '?' then 1 else Literal(pattern[i..]).used;
        Shift(items, Items(pattern[i..])[0], Items(pattern[i + used..]));
        if pattern[i] == '*' {
          items := items + [Star];
          i := i + 1;
        } else if pattern[i] == '?' {
          items := items + [QMark];
          i := i + 1;
        } else {
          var start := i;
          var len: nat;
          len, i := MeasureText(pattern, start);
          var text := CopyText(pattern, start, len);
          items := items + [Text(text)];
        }
      }
      assert pattern[i..] == "";
      NoItems();
    }

    /** First pass over a literal run: its length without escapes and where it ends. */
    static method MeasureText(pattern: string, start: nat) returns (len: nat, end: nat)
      requires start < |pattern|
      ensures len == |Literal(pattern[start..]).text|
      ensures end == start + Literal(pattern[start..]).used
    {
      len, end := 0, start;
      while end < |pattern|
        invariant end <= |pattern|
        invariant len + |Literal(pattern[end..]).text| == |Literal(pattern[start..]).text|
        invariant end + Literal(pattern[end..]).used == start + Literal(pattern[start..]).used
      {
        hide Literal;
        LiteralFrom(pattern, end);
        if pattern[end] == '\\' {
          end := end + 1;
          len := len + 1;
          if end < |pattern| {
            end := end + 1;
          }
        } else if pattern[end] == '*' {
          break;
        } else if pattern[end] == '?' {
          break;
        } else {
          end := end + 1;
          len := len + 1;
        }
      }
    }

    /** Second pass: the text of a literal run. */
    static method CopyText(pattern: string, start: nat, len: nat) returns (text: string)
      requires start < |pattern| && len == |Literal(pattern[start..]).text|
      ensures text == Literal(pattern[start..]).text
    {
      hide Literal;
      text := "";
      var i := start;
      NoLiteral();
      while |text| < len
        invariant i <= |pattern|
        invariant text + Literal(pattern[i..]).text == Literal(pattern[start..]).text
        decreases |pattern| - i
      {
        LiteralFrom(pattern, i);
        ghost var skip := if pattern[i] == '\\' && i + 1 < |pattern| then 2 else 1;
        if i + skip <= |pattern| {
          Shift(text, pattern[i + skip - 1], Literal(pattern[i + skip..]).text);
        }
        if pattern[i] == '\\' {
          i := i + 1;
          if i < |pattern| {
            text := text + [pattern[i]];
            i := i + 1;
          } else {
            text := text + ['\\'];
          }
        } else {
          text := text + [pattern[i]];
          i := i + 1;
        }
      }
    }

    /** Where the wildcards from `item` on end, and how many question marks and stars they are. */
    method CountRun(item: nat) returns (i: nat, qcount: nat, scount: nat)
      requires item < |items|
      ensures i <= |items| && i == item + Wildcards(items[item..])
      ensures forall j :: item <= j < i ==> !items[j].Text?
      ensures qcount == Count(QMark, items[item..i])
      ensures scount == Count(Star, items[item..i])
      ensures qcount + scount == i - item
    {
      hide Count, Wildcards;
      i, qcount, scount := item, 0, 0;
      NoCount();
      while i < |items| && !items[i].Text?
        invariant item <= i <= |items|
        invariant forall j :: item <= j < i ==> !items[j].Text?
        invariant qcount == Count(QMark, items[item..i])
        invariant scount == Count(Star, items[item..i])
      {
        CountSnoc(items, item, i);
        if items[i].Star? {
          scount := scount + 1;
        } else {
          qcount := qcount + 1;
        }
        i := i + 1;
      }
      RunTotal(items, item, i);
    }

    /** In each run of wildcards that holds a star, moves the question marks to the front and
        removes all stars but the last. */
    method Simplify()
      modifies this
      ensures items == Simplified(old(items))
    {
      hide Simplified, NormalWildcards, Count, Wildcards;
      var item: nat := 0;
      while item < |items|
        invariant item <= |items|
        invariant items[..item] + Simplified(items[item..]) == Simplified(old(items))
        decreases |items| - item
      {
        ghost var before := items;
        var i, qcount, scount := CountRun(item);
        ghost var wild := items[item..i];
        var next := if i < |items| then i + 1 else i;
        WildcardsSize(wild, qcount, scount);
        if scount > 0 {
          SimplifyRun(item, i - item, qcount, scount);
          next := next - (scount - 1);
        } else {
          ThreeParts(items, item, i);
        }
        SegmentDone(before, item, i - item, NormalWildcards(wild), items, next);
        item := next;
      }
      NothingSimplified();
      assert items[..item] == items && items[item..] == [];
    }

    method SimplifyRun(item: nat, ghost n: nat, qcount: nat, scount: nat)
      requires 0 < scount && n == qcount + scount && item + n <= |items|
      requires forall j :: item <= j < item + n ==> !items[j].Text?
      requires qcount == Count(QMark, items[item..item + n])
      requires scount == Count(Star, items[item..item + n])
      modifies this
      ensures items == old(items)[..item] + NormalWildcards(old(items)[item..item + n]) + old(items)[item + n..]
    {
      hide NormalWildcards, Count;
      var first := if items[item].Star? then item + qcount else item + qcount - 1;
      assert qcount == 0 ==> items[item].Star? by { NoQMarks(items, item, item + n); }
      MoveQMarks(item, n, qcount);
      ghost var moved := items;
      RemoveStars(item, qcount, first, scount);
      RunIsNormal(old(items), item, n, qcount, scount, moved);
    }

    method MoveQMarks(start: nat, ghost n: nat, q: nat)
      requires start + n <= |items|
      requires forall j :: start <= j < start + n ==> !items[j].Text?
      requires q == Count(QMark, items[start..start + n])
      modifies this
      ensures q <= n
      ensures items == old(items)[..start] + Repeat(QMark, q) + Repeat(Star, n - q) + old(items)[start + n..]
    {
      hide MovedToFront, QMarksInFront, Count;
      ghost var end, was := start + n, items;
      var i, qcount := start, q;
      assert QMarksInFront(items, was, start, start, start) by { NothingInFront(items, start); }
      CountTotal(items[start..end]);
      while qcount > 0
        invariant start <= i <= end <= |items| == |was|
        invariant 0 <= qcount <= q && q - qcount <= i - start
        invariant qcount == Count(QMark, was[i..end])
        invariant QMarksInFront(items, was, start, start + q - qcount, i)
        decreases end - i
      {
        assert i < end;
        CountHead(was, i, end);
        MoveKeepsFront(items, was, start, start + q - qcount, i);
        if items[i].QMark? {
          items := MovedToFront(items, start, i);
          qcount := qcount - 1;
        }
        i := i + 1;
      }
      NoQMarks(was, i, end);
      FrontIs(items, was, start, q, i, n);
    }

    method RemoveStars(ghost start: nat, ghost q: nat, first: nat, stars: nat)
      requires 0 < stars && start + q + stars <= |items|
      requires start <= first && start + q - 1 <= first <= start + q
      requires forall j :: start <= j < start + q ==> items[j].QMark?
      requires forall j :: start + q <= j < start + q + stars ==> items[j].Star?
      modifies this
      ensures items == old(items)[..start + q + 1] + old(items)[start + q + stars..]
    {
      ghost var was := items;
      var i, scount := first, stars;
      while scount > 1
        invariant 1 <= scount <= stars && first <= i <= start + q
        invariant items == was[..start + q] + was[start + q + stars - scount..]
        decreases scount, start + q - i
      {
        ghost var k := start + q + stars - scount;
        DropFirst(was[..start + q], was, k);
        if items[i].Star? {
          assert i == start + q;
          items := items[..i] + items[i + 1..];
          scount := scount - 1;
        } else {
          assert i < start + q;
          i := i + 1;
        }
      }
      LastStarStays(was, start + q, start + q + stars - 1);
    }

    /** Whether the pattern accepts a text. */
    method Match(fold: Fold, text: string) returns (matched: bool)
      requires Normal(items) && NonEmptyTexts(items)
      ensures matched <==> Accepts(fold, items, text)
    {
      matched := DoGlobMatch(fold, items, 0, text);
      assert items[0..] == items;
    }
  }

  lemma WildcardsSize(wild: seq<Item>, q: nat, stars: nat)
    requires q == Count(QMark, wild) && stars == Count(Star, wild)
    ensures stars == 0 ==> NormalWildcards(wild) == wild
    ensures stars > 0 ==> |NormalWildcards(wild)| == q + 1
  {
  }

  lemma NoQMarks(items: seq<Item>, from: nat, end: nat)
    requires from <= end <= |items|
    requires forall j :: from <= j < end ==> !items[j].Text?
    ensures Count(QMark, items[from..end]) == 0 ==> forall j :: from <= j < end ==> items[j].Star?
  {
    forall j | from <= j < end && Count(QMark, items[from..end]) == 0
      ensures items[j].Star?
    {
      assert items[from..end][j - from] == items[j];
    }
  }

  lemma SegmentDone(before: seq<Item>, item: nat, n: nat, wild: seq<Item>, after: seq<Item>, next: nat)
    requires item + n <= |before| && n == Wildcards(before[item..])
    requires wild == NormalWildcards(before[item..item + n])
    requires after == before[..item] + wild + before[item + n..]
    requires next == item + |wild| + (if item + n < |before| then 1 else 0)
    ensures next <= |after|
    ensures after[..next] + Simplified(after[next..]) == before[..item] + Simplified(before[item..])
  {
    hide Simplified, NormalWildcards, Wildcards;
    var front, rest := before[..item], before[item..];
    SimplifiedUnfold(rest);
    assert rest[..n] == before[item..item + n];
    if item + n < |before| {
      var text, back := before[item + n], before[item + n + 1..];
      assert rest[n + 1..] == back;
      TextNext(before, item + n);
      assert after == front + (wild + [text]) + back by { FourParts(front, wild, [text], back); }
      CutAt(front, wild + [text], back);
      FourParts(front, wild, [text], Simplified(back));
      assert front + (wild + [text]) == front + wild + [text];
    } else {
      assert before[item..item + n] == rest;
      CutAt(front, wild, before[item + n..]);
      SimplifiedUnfold([]);
      WildcardsSize([], 0, 0);
    }
  }

  lemma ThreeParts(items: seq<Item>, i: nat, j: nat)
    requires i <= j <= |items|
    ensures items == items[..i] + items[i..j] + items[j..]
  {
  }

  lemma TextNext(items: seq<Item>, k: nat)
    requires k < |items|
    ensures items[k..] == [items[k]] + items[k + 1..]
  {
  }

  lemma CutAt<T>(a: seq<T>, b: seq<T>, c: seq<T>)
    ensures var k := |a| + |b|; (a + b + c)[..k] == a + b && (a + b + c)[k..] == c
  {
  }

  lemma FourParts<T>(a: seq<T>, b: seq<T>, c: seq<T>, d: seq<T>)
    ensures a + b + c + d == a + (b + c + d)
    ensures a + b + (c + d) == a + (b + c) + d
  {
  }

  lemma NothingSimplified()
    ensures Simplified([]) == []
  {
    hide NormalWildcards;
    SimplifiedUnfold([]);
    WildcardsSize([], 0, 0);
  }

  lemma {:induction false} SimplifiedUnfold(items: seq<Item>)
    ensures Simplified(items) ==
            var n := Wildcards(items);
            if n == |items| then NormalWildcards(items)
            else NormalWildcards(items[..n]) + [items[n]] + Simplified(items[n + 1..])
  {
    hide Wildcards, NormalWildcards;
  }

  // ---------------------------------------------------------------------------------------
  // Matching
  // ---------------------------------------------------------------------------------------

  /** Whether two texts agree on their first `len` characters; a text that ends early does not. */
  method StrNCaseEqual(fold: Fold, a: string, b: string, len: nat) returns (equal: bool)
    requires len == |a|
    ensures equal <==> StartsWith(fold, b, a)
  {
    for i := 0 to len
      invariant i <= |b| && forall j :: 0 <= j < i ==> fold(a[j]) == fold(b[j])
    {
      if i == |b| || fold(a[i]) != fold(b[i]) {
        return false;
      }
    }
    return true;
  }

  /** A text occurs nowhere before `end`. */
  predicate AbsentBefore(fold: Fold, haystack: string, needle: string, end: nat) {
    forall k :: 0 <= k < end && k <= |haystack| ==> !StartsWith(fold, haystack[k..], needle)
  }

  /** The first occurrence of a text. */
  method StrCaseStr(fold: Fold, haystack: string, needle: string) returns (found: bool, pos: nat)
    ensures found ==> pos <= |haystack| && StartsWith(fold, haystack[pos..], needle)
    ensures AbsentBefore(fold, haystack, needle, if found then pos else |haystack| + 1)
  {
    pos := 0;
    while true
      invariant pos <= |haystack| + 1 && AbsentBefore(fold, haystack, needle, pos)
      decreases |haystack| + 1 - pos
    {
      if pos > |haystack| || |haystack| - pos < |needle| {
        return false, 0;
      }
      var equal := StrNCaseEqual(fold, needle, haystack[pos..], |needle|);
      if equal {
        return true, pos;
      }
      pos := pos + 1;
    }
  }

  /** Matches the items from `first` on. After a star only successive occurrences of the text
      that follows are tried. */
  method DoGlobMatch(fold: Fold, items: seq<Item>, first: nat, text: string) returns (matched: bool)
    requires first <= |items| && Normal(items) && NonEmptyTexts(items)
    ensures matched <==> Accepts(fold, items[first..], text)
    decreases |items| - first
  {
    var item, t := first, text;
    while item < |items|
      invariant first <= item <= |items|
      invariant Accepts(fold, items[item..], t) <==> Accepts(fold, items[first..], text)
      decreases |items| - item
    {
      assert items[item..][1..] == items[item + 1..];
      match items[item] {
      case Text(s) =>
        var equal := StrNCaseEqual(fold, s, t, |s|);
        if !equal {
          return false;
        }
        t := t[|s|..];
      case QMark =>
        if t == "" {
          return false;
        }
        t := t[1..];
      case Star =>
        var next := item + 1;
        if next == |items| {
          assert t[|t|..] == "" && Accepts(fold, items[next..], t[|t|..]);
          return true;
        }
        assert items[next].Text?;
        matched := MatchAfterStar(fold, items, next, t);
        return;
      }
      item := item + 1;
    }
    matched := t == "";
  }

  /** What a text item asks for at one place. */
  lemma AcceptsFrom(fold: Fold, items: seq<Item>, next: nat, text: string, k: nat)
    requires next < |items| && items[next].Text? && k <= |text|
    ensures var t := items[next].text;
            && (StartsWith(fold, text[k..], t) ==> k + |t| <= |text|)
            && (Accepts(fold, items[next..], text[k..]) <==>
                StartsWith(fold, text[k..], t) && Accepts(fold, items[next + 1..], text[k + |t|..]))
  {
    var t := items[next].text;
    assert items[next..][1..] == items[next + 1..];
    if StartsWith(fold, text[k..], t) {
      assert text[k..][|t|..] == text[k + |t|..];
    }
  }

  /** None of the first suffixes is accepted. */
  ghost predicate RefusedBefore(fold: Fold, items: seq<Item>, text: string, end: nat) {
    forall k :: 0 <= k < end && k <= |text| ==> !Accepts(fold, items, text[k..])
  }

  /** Where the text does not occur, nothing is accepted. */
  lemma RefusedUpTo(fold: Fold, items: seq<Item>, next: nat, text: string, skipped: nat, end: nat)
    requires next < |items| && items[next].Text? && skipped <= |text|
    requires RefusedBefore(fold, items[next..], text, skipped)
    requires skipped <= end && AbsentBefore(fold, text[skipped..], items[next].text, end - skipped)
    ensures RefusedBefore(fold, items[next..], text, end)
  {
    hide Accepts, StartsWith;
    forall k | skipped <= k < end && k <= |text|
      ensures !Accepts(fold, items[next..], text[k..])
    {
      assert text[skipped..][k - skipped..] == text[k..];
      AcceptsFrom(fold, items, next, text, k);
    }
  }

  /** At an occurrence the items that follow decide. */
  lemma AtOccurrence(fold: Fold, items: seq<Item>, next: nat, text: string, skipped: nat, pos: nat)
    requires next < |items| && items[next].Text? && skipped + pos <= |text|
    requires StartsWith(fold, text[skipped..][pos..], items[next].text)
    requires RefusedBefore(fold, items[next..], text, skipped + pos)
    ensures var rest, end := text[skipped..], pos + |items[next].text|;
            && end <= |rest|
            && if Accepts(fold, items[next + 1..], rest[end..]) then AcceptsAfter(fold, items[next..], text, 0)
               else RefusedBefore(fold, items[next..], text, skipped + pos + 1)
  {
    hide Accepts, StartsWith;
    AcceptsFrom(fold, items, next, text, skipped + pos);
    var rest, end := text[skipped..], pos + |items[next].text|;
    assert rest[pos..] == text[skipped + pos..];
    assert rest[end..] == text[skipped + end..];
  }

  method MatchAfterStar(fold: Fold, items: seq<Item>, next: nat, text: string) returns (matched: bool)
    requires next < |items| && Normal(items) && NonEmptyTexts(items) && items[next].Text?
    ensures matched <==> AcceptsAfter(fold, items[next..], text, 0)
    decreases |items| - next
  {
    var t := items[next].text;
    assert t != "";
    hide Accepts, StartsWith, Normal, NonEmptyTexts, RefusedBefore, AcceptsAfter, AbsentBefore;
    var skipped := 0;
    NothingBefore(fold, items[next..], text);
    while true
      invariant skipped <= |text| && RefusedBefore(fold, items[next..], text, skipped)
      decreases |text| - skipped
    {
      var rest := text[skipped..];
      var found, pos := StrCaseStr(fold, rest, t);
      RefusedUpTo(fold, items, next, text, skipped, if found then skipped + pos else |text| + 1);
      if !found {
        NoneAccepted(fold, items[next..], text);
        return false;
      }
      AtOccurrence(fold, items, next, text, skipped, pos);
      matched := DoGlobMatch(fold, items, next + 1, rest[pos + |t|..]);
      if matched {
        return true;
      }
      skipped := skipped + pos + 1;
    }
  }

  lemma NothingBefore(fold: Fold, items: seq<Item>, text: string)
    ensures RefusedBefore(fold, items, text, 0)
  {
  }

  lemma NoneAccepted(fold: Fold, items: seq<Item>, text: string)
    requires RefusedBefore(fold, items, text, |text| + 1)
    ensures !AcceptsAfter(fold, items, text, 0)
  {
    hide Accepts;
  }

  /** Matching a compiled pattern is sound and complete for what the escaped pattern means. */
  lemma CompiledMeaning(fold: Fold, pattern: string, text: string)
    ensures Accepts(fold, Simplified(Items(pattern)), text) <==> Meaning(fold, pattern, text)
  {
    ItemsMeaning(fold, pattern, text);
    SimplifiedAccepts(fold, Items(pattern), text);
  }

  method GlobMatch(fold: Fold, pattern: string, text: string) returns (matched: bool)
    ensures matched <==> Meaning(fold, pattern, text)
  {
    var compiled := new Pattern.Compile(pattern);
    matched := compiled.Match(fold, text);
    CompiledMeaning(fold, pattern, text);
  }
}
