/** Filter expressions: the tree, the parser that grows it, its printed form and its meaning. */
module FilterExpr {
  import opened Basics
  import opened FilterTokens
  import Glob

  datatype Op = OpLt | OpLe | OpEq | OpGe | OpGt | OpNe

  datatype Leaf =
    | StrLeaf(key: string, op: Op, pattern: string)
    | IntLeaf(key: string, op: Op, val: Int32)
    | IdLeaf(key: string, op: Op, other: string)
    | BoolLeaf(key: string)

  datatype Expr =
    | AndExpr(left: Expr, right: Expr)
    | OrExpr(left: Expr, right: Expr)
    | NotExpr(operand: Expr)
    | LeafExpr(leaf: Leaf)

  // ---------------------------------------------------------------------------------------
  // Integers in filter text
  // ---------------------------------------------------------------------------------------

  /** The 64-bit conversion stops at its limits and the result is narrowed to 32 bits. */
  function Saturated(n: int): int {
    if n > 0x7fff_ffff_ffff_ffff then 0x7fff_ffff_ffff_ffff
    else if n < -0x8000_0000_0000_0000 then -0x8000_0000_0000_0000
    else n
  }

  function Narrowed(n: int): Int32 {
    var m := (n + 0x8000_0000) % 0x1_0000_0000;
    assert 0 <= m < 0x1_0000_0000;
    m - 0x8000_0000
  }

  function IntWordValue(s: string): Int32
    requires s != "" && IsIntWord(s)
  {
    var magnitude: int := Digits(if s[0] == '-' then s[1..] else s);
    Narrowed(Saturated(if s[0] == '-' then -magnitude else magnitude))
  }

  function IntText(n: Int32): (s: string)
    ensures IsWord(s) && IsIntWord(s) && IntWordValue(s) == n
  {
    var value: int := n;
    if value < 0 then
      assert ("-" + DigitsText(-value))[1..] == DigitsText(-value);
      "-" + DigitsText(-value)
    else DigitsText(value)
  }

  // ---------------------------------------------------------------------------------------
  // The grammar, as a function of the tokens that remain
  // ---------------------------------------------------------------------------------------

  datatype ParseError =
    | ExpressionExpected | RightSideExpected | InvalidStringOperator
    | IntegerOrStringExpected | IntegerExpected | KeyExpected
    | CloseExpected | UnexpectedClose | OperatorExpected

  datatype Parsed = Failed(error: ParseError) | Parsed(expr: Expr, rest: seq<Token>)

  function TokenOp(t: Token): Option<Op> {
    match t
    case Lt => Some(OpLt)
    case Gt => Some(OpGt)
    case Eq => Some(OpEq)
    case Ne => Some(OpNe)
    case Le => Some(OpLe)
    case Ge => Some(OpGe)
    case _ => None
  }

  /** A key with what is compared to it; a key alone is a boolean. */
  function ParsedLeaf(key: string, ts: seq<Token>): Parsed {
    if ts == [] || TokenOp(ts[0]).None? then Parsed(LeafExpr(BoolLeaf(key)), ts)
    else
      var op := TokenOp(ts[0]).value;
      if |ts| == 1 then Failed(RightSideExpected)
      else match ts[1]
        case Str(pattern) =>
          if op != OpEq && op != OpNe then Failed(InvalidStringOperator)
          else Parsed(LeafExpr(StrLeaf(key, op, pattern)), ts[2..])
        case IntOrKey(word) =>
          if word != "" && IsIntWord(word)
          then Parsed(LeafExpr(IntLeaf(key, op, IntWordValue(word))), ts[2..])
          else Failed(IntegerExpected)
        case Key(word) => Parsed(LeafExpr(IdLeaf(key, op, word)), ts[2..])
        case _ => Failed(if op == OpEq || op == OpNe then IntegerOrStringExpected else IntegerExpected)
  }

  function ParsedOne(ts: seq<Token>): (r: Parsed)
    ensures r.Parsed? ==> |r.rest| < |ts|
    decreases |ts|, 0
  {
    if ts == [] then Failed(ExpressionExpected)
    else match ts[0]
      case Not =>
        var r := ParsedOne(ts[1..]);
        if r.Failed? then r else Parsed(NotExpr(r.expr), r.rest)
      case LParen => ParsedLevel(ts[1..], 1)
      case Key(key) => ParsedLeaf(key, ts[1..])
      case IntOrKey(key) => ParsedLeaf(key, ts[1..])
      case _ => Failed(KeyExpected)
  }

  function ParsedLevel(ts: seq<Token>, level: nat): (r: Parsed)
    ensures r.Parsed? ==> |r.rest| < |ts|
    decreases |ts|, 1
  {
    var one := ParsedOne(ts);
    if one.Failed? then one else ParsedTail(one.expr, one.rest, level)
  }

  /** The operators after an operand, applied from left to right with equal precedence. */
  function ParsedTail(sofar: Expr, ts: seq<Token>, level: nat): (r: Parsed)
    ensures r.Parsed? ==> |r.rest| <= |ts|
    decreases |ts|, 0
  {
    if ts == [] then
      if level > 0 then Failed(CloseExpected) else Parsed(sofar, ts)
    else if ts[0] == RParen then
      if level == 0 then Failed(UnexpectedClose) else Parsed(sofar, ts[1..])
    else if ts[0] == And || ts[0] == Or then
      var one := ParsedOne(ts[1..]);
      if one.Failed? then one
      else ParsedTail(Joined(ts[0], sofar, one.expr), one.rest, level)
    else Failed(OperatorExpected)
  }

  function Joined(op: Token, left: Expr, right: Expr): Expr {
    if op == And then AndExpr(left, right) else OrExpr(left, right)
  }

  // ---------------------------------------------------------------------------------------
  // The parser, with the tree it grows
  // ---------------------------------------------------------------------------------------

  datatype Kind = KindAnd | KindOr | KindNot | KindLeaf(leaf: Leaf)

  /** A node whose children may still be missing. */
  datatype Node = Nil | Node(kind: Kind, left: Node, right: Node)

  function TreeOf(e: Expr): Node {
    match e
    case AndExpr(l, r) => Node(KindAnd, TreeOf(l), TreeOf(r))
    case OrExpr(l, r) => Node(KindOr, TreeOf(l), TreeOf(r))
    case NotExpr(x) => Node(KindNot, TreeOf(x), Nil)
    case LeafExpr(leaf) => Node(KindLeaf(leaf), Nil, Nil)
  }

  predicate IsBinary(n: Node) {
    n.Node? && (n.kind.KindAnd? || n.kind.KindOr?)
  }

  function Rightmost(n: Node): (r: Node)
    requires n.Node?
    ensures r.Node? && r.right == Nil
  {
    if n.right == Nil then n else Rightmost(n.right)
  }

  function WithRightmostChild(n: Node, child: Node): Node
    requires n.Node?
  {
    if n.right == Nil then n.(right := child) else n.(right := WithRightmostChild(n.right, child))
  }

  /** A binary operator that still lacks its right operand takes the new node; a complete tree
      becomes the left operand of the new node, which must then be a binary operator. */
  method Add(root: Node, e: Node) returns (r: Node)
    requires e.Node?
    requires root.Node? && !IsBinary(Rightmost(root)) ==> IsBinary(e)
    ensures r == if root == Nil then e
                 else if IsBinary(Rightmost(root)) then WithRightmostChild(root, e)
                 else e.(left := root)
  {
    if root == Nil {
      return e;
    }
    var tmp := root;
    while tmp.right != Nil
      invariant tmp.Node? && Rightmost(tmp) == Rightmost(root)
      decreases tmp
    {
      tmp := tmp.right;
    }
    if IsBinary(tmp) {
      return WithRightmostChild(root, e);
    }
    return e.(left := root);
  }

  lemma {:induction false} CompleteTree(e: Expr)
    ensures TreeOf(e).Node? && !IsBinary(Rightmost(TreeOf(e)))
  {
    match e
    case AndExpr(l, r) => CompleteTree(r);
    case OrExpr(l, r) => CompleteTree(r);
    case NotExpr(_) =>
    case LeafExpr(_) =>
  }

  datatype Built = BuildFailed(error: ParseError) | Built(tree: Node, item: nat)

  /** The parsed tree and the first token after it are those of the grammar. */
  predicate Agrees(b: Built, p: Parsed, ts: seq<Token>) {
    match p
    case Failed(error) => b == BuildFailed(error)
    case Parsed(e, rest) => b.Built? && b.tree == TreeOf(e) && b.item <= |ts| && ts[b.item..] == rest
  }

  predicate IntWordsAreInts(ts: seq<Token>) {
    forall i :: 0 <= i < |ts| && ts[i].IntOrKey? ==> ts[i].text != "" && IsIntWord(ts[i].text)
  }

  method ParseOne(ts: seq<Token>, start: nat) returns (b: Built)
    requires start <= |ts| && IntWordsAreInts(ts)
    ensures Agrees(b, ParsedOne(ts[start..]), ts)
    decreases |ts| - start, 0
  {
    if start == |ts| {
      return BuildFailed(ExpressionExpected);
    }
    assert ts[start..][1..] == ts[start + 1..];
    match ts[start]
    case Not =>
      b := ParseOne(ts, start + 1);
      if b.Built? {
        b := Built(Node(KindNot, b.tree, Nil), b.item);
      }
    case LParen =>
      b := Parse(ts, start + 1, 1);
    case Key(key) =>
      b := ParseKey(key, ts, start + 1);
    case IntOrKey(key) =>
      b := ParseKey(key, ts, start + 1);
    case _ =>
      return BuildFailed(KeyExpected);
  }

  method ParseKey(key: string, ts: seq<Token>, start: nat) returns (b: Built)
    requires start <= |ts| && IntWordsAreInts(ts)
    ensures Agrees(b, ParsedLeaf(key, ts[start..]), ts)
  {
    if start == |ts| || TokenOp(ts[start]).None? {
      return Built(Node(KindLeaf(BoolLeaf(key)), Nil, Nil), start);
    }
    var op := TokenOp(ts[start]).value;
    if start + 1 == |ts| {
      return BuildFailed(RightSideExpected);
    }
    assert ts[start..][2..] == ts[start + 2..];
    match ts[start + 1]
    case Str(pattern) =>
      if op != OpEq && op != OpNe {
        return BuildFailed(InvalidStringOperator);
      }
      b := Built(Node(KindLeaf(StrLeaf(key, op, pattern)), Nil, Nil), start + 2);
    case IntOrKey(word) =>
      b := Built(Node(KindLeaf(IntLeaf(key, op, IntWordValue(word))), Nil, Nil), start + 2);
    case Key(word) =>
      b := Built(Node(KindLeaf(IdLeaf(key, op, word)), Nil, Nil), start + 2);
    case _ =>
      b := BuildFailed(if op == OpEq || op == OpNe then IntegerOrStringExpected else IntegerExpected);
  }

  lemma {:induction false} TailUnfold(sofar: Expr, ts: seq<Token>, item: nat, level: nat)
    requires item < |ts|
    ensures ParsedTail(sofar, ts[item..], level) ==
            if ts[item] == RParen then
              if level == 0 then Failed(UnexpectedClose) else Parsed(sofar, ts[item + 1..])
            else if ts[item] == And || ts[item] == Or then
              var one := ParsedOne(ts[item + 1..]);
              if one.Failed? then one else ParsedTail(Joined(ts[item], sofar, one.expr), one.rest, level)
            else Failed(OperatorExpected)
  {
    hide ParsedOne, Joined;
    assert ts[item..][1..] == ts[item + 1..];
  }

  lemma {:induction false} TailAtEnd(sofar: Expr, level: nat)
    ensures ParsedTail(sofar, [], level) == if level > 0 then Failed(CloseExpected) else Parsed(sofar, [])
  {
  }

  /** A binary operator with a left operand only takes the next node as its right one. */
  lemma {:induction false} OpenNode(kind: Kind, left: Node)
    requires kind.KindAnd? || kind.KindOr?
    ensures var n := Node(kind, left, Nil);
            IsBinary(Rightmost(n)) && forall child :: WithRightmostChild(n, child) == n.(right := child)
  {
  }

  lemma {:induction false} JoinedTree(op: Token, l: Expr, r: Expr)
    requires op == And || op == Or
    ensures TreeOf(Joined(op, l, r)) == Node(if op == And then KindAnd else KindOr, TreeOf(l), TreeOf(r))
  {
  }

  method Parse(ts: seq<Token>, start: nat, level: nat) returns (b: Built)
    requires start <= |ts| && IntWordsAreInts(ts)
    ensures Agrees(b, ParsedLevel(ts[start..], level), ts)
    decreases |ts| - start, 1
  {
    hide ParsedOne, ParsedTail, ParsedLeaf, IntWordsAreInts, TreeOf, Rightmost, WithRightmostChild;
    ghost var target := ParsedLevel(ts[start..], level);
    b := ParseOne(ts, start);
    if b.BuildFailed? {
      return;
    }
    ghost var sofar := ParsedOne(ts[start..]).expr;
    CompleteTree(sofar);
    var root := Add(Nil, b.tree);
    var item := b.item;
    while true
      invariant start < item <= |ts|
      invariant root == TreeOf(sofar)
      invariant ParsedTail(sofar, ts[item..], level) == target
      decreases |ts| - item
    {
      if item == |ts| {
        TailAtEnd(sofar, level);
        if level > 0 {
          return BuildFailed(CloseExpected);
        }
        return Built(root, item);
      }
      TailUnfold(sofar, ts, item, level);
      if ts[item] == RParen {
        if level == 0 {
          return BuildFailed(UnexpectedClose);
        }
        return Built(root, item + 1);
      }
      var kind;
      if ts[item] == And {
        kind := KindAnd;
      } else if ts[item] == Or {
        kind := KindOr;
      } else {
        return BuildFailed(OperatorExpected);
      }
      CompleteTree(sofar);
      OpenNode(kind, root);
      ghost var half := Node(kind, root, Nil);
      root := Add(root, Node(kind, Nil, Nil));
      b := ParseOne(ts, item + 1);
      if b.BuildFailed? {
        return;
      }
      ghost var one := ParsedOne(ts[item + 1..]);
      CompleteTree(one.expr);
      JoinedTree(ts[item], sofar, one.expr);
      assert root == half;
      root := Add(root, b.tree);
      sofar := Joined(ts[item], sofar, one.expr);
      item := b.item;
    }
  }

  // ---------------------------------------------------------------------------------------
  // The printed form
  // ---------------------------------------------------------------------------------------

  function OpToken(op: Op): Token {
    match op
    case OpLt => Lt
    case OpLe => Le
    case OpEq => Eq
    case OpGe => Ge
    case OpGt => Gt
    case OpNe => Ne
  }

  function LeafTokens(leaf: Leaf): seq<Token>
    requires PrintableLeaf(leaf)
  {
    match leaf
    case StrLeaf(key, op, pattern) => [WordToken(key), OpToken(op), Str(pattern)]
    case IntLeaf(key, op, val) => [WordToken(key), OpToken(op), IntOrKey(IntText(val))]
    case IdLeaf(key, op, other) => [WordToken(key), OpToken(op), Key(other)]
    case BoolLeaf(key) => [WordToken(key)]
  }

  predicate PrintableLeaf(leaf: Leaf) {
    && IsWord(leaf.key)
    && (leaf.StrLeaf? ==> (leaf.op == OpEq || leaf.op == OpNe) && IsQuotable(leaf.pattern))
    && (leaf.IdLeaf? ==> IsWord(leaf.other) && !IsIntWord(leaf.other))
  }

  predicate Printable(e: Expr) {
    match e
    case AndExpr(l, r) => Printable(l) && Printable(r)
    case OrExpr(l, r) => Printable(l) && Printable(r)
    case NotExpr(x) => Printable(x)
    case LeafExpr(leaf) => PrintableLeaf(leaf)
  }

  /** Every binary operator in parentheses. */
  function ExprTokens(e: Expr): (ts: seq<Token>)
    requires Printable(e)
    ensures ts != []
  {
    match e
    case AndExpr(l, r) => [LParen] + ExprTokens(l) + [And] + ExprTokens(r) + [RParen]
    case OrExpr(l, r) => [LParen] + ExprTokens(l) + [Or] + ExprTokens(r) + [RParen]
    case NotExpr(x) => [Not] + ExprTokens(x)
    case LeafExpr(leaf) => LeafTokens(leaf)
  }

  /** What follows an operand does not extend it. */
  predicate EndsOperand(ts: seq<Token>) {
    ts == [] || ts[0] == And || ts[0] == Or || ts[0] == RParen
  }

  lemma LeafParses(leaf: Leaf, rest: seq<Token>)
    requires PrintableLeaf(leaf) && EndsOperand(rest)
    ensures ParsedOne(LeafTokens(leaf) + rest) == Parsed(LeafExpr(leaf), rest)
  {
    hide IntText, IntWordValue, IsIntWord, IsQuotable, ParsedOne, ParsedLeaf, LeafTokens;
    LeafTokensAre(leaf, rest);
    WordTokenText(leaf.key);
    LeafStarts(WordToken(leaf.key), LeafTokens(leaf)[1..] + rest);
    ComparedParses(leaf, rest);
  }

  lemma LeafTokensAre(leaf: Leaf, rest: seq<Token>)
    requires PrintableLeaf(leaf)
    ensures LeafTokens(leaf) != [] &&
            LeafTokens(leaf) + rest == [WordToken(leaf.key)] + (LeafTokens(leaf)[1..] + rest)
  {
    hide IntText, IntWordValue, IsIntWord, IsQuotable, WordToken;
  }

  lemma LeafStarts(key: Token, rest: seq<Token>)
    requires key.Key? || key.IntOrKey?
    ensures ParsedOne([key] + rest) == ParsedLeaf(key.text, rest)
  {
    hide ParsedLeaf;
    assert ([key] + rest)[1..] == rest;
  }

  lemma ComparedParses(leaf: Leaf, rest: seq<Token>)
    requires PrintableLeaf(leaf) && EndsOperand(rest)
    ensures ParsedLeaf(leaf.key, LeafTokens(leaf)[1..] + rest) == Parsed(LeafExpr(leaf), rest)
  {
    hide IntText, IntWordValue, IsIntWord, IsQuotable;
    var ts := LeafTokens(leaf)[1..] + rest;
    if leaf.BoolLeaf? {
      assert ts == rest;
    } else {
      assert ts[2..] == rest;
    }
  }

  lemma WordTokenText(s: string)
    requires s != ""
    ensures WordToken(s).Key? || WordToken(s).IntOrKey?
    ensures WordToken(s).text == s
  {
  }

  lemma {:induction false} PrintedParses(e: Expr, rest: seq<Token>)
    requires Printable(e) && EndsOperand(rest)
    ensures ParsedOne(ExprTokens(e) + rest) == Parsed(e, rest)
    decreases e, 1
  {
    match e
    case LeafExpr(leaf) => LeafParses(leaf, rest);
    case NotExpr(x) =>
      assert (ExprTokens(e) + rest)[1..] == ExprTokens(x) + rest;
      PrintedParses(x, rest);
    case AndExpr(l, r) => PrintedPairParses(And, l, r, rest);
    case OrExpr(l, r) => PrintedPairParses(Or, l, r, rest);
  }

  lemma {:induction false} PrintedPairParses(op: Token, l: Expr, r: Expr, rest: seq<Token>)
    requires op == And || op == Or
    requires Printable(l) && Printable(r)
    ensures ParsedOne([LParen] + ExprTokens(l) + [op] + ExprTokens(r) + [RParen] + rest) ==
            Parsed(Joined(op, l, r), rest)
    decreases Joined(op, l, r), 0
  {
    hide ExprTokens, ParsedLeaf;
    var close := [RParen] + rest;
    var second := ExprTokens(r) + close;
    var inner := ExprTokens(l) + ([op] + second);
    var ts := [LParen] + ExprTokens(l) + [op] + ExprTokens(r) + [RParen] + rest;
    assert ts == [LParen] + inner;
    assert ts[0] == LParen && ts[1..] == inner;
    PrintedParses(l, [op] + second);
    assert ([op] + second)[1..] == second;
    PrintedParses(r, close);
    assert close[1..] == rest;
    assert ParsedTail(Joined(op, l, r), close, 1) == Parsed(Joined(op, l, r), rest);
    assert ParsedTail(l, [op] + second, 1) == Parsed(Joined(op, l, r), rest);
    assert ParsedLevel(inner, 1) == Parsed(Joined(op, l, r), rest);
  }

  lemma LeafIsTokenList(leaf: Leaf)
    requires PrintableLeaf(leaf)
    ensures IsTokenList(LeafTokens(leaf))
    ensures var t := LeafTokens(leaf)[0]; !t.Eq? && !t.Str?
  {
    hide IntText, IsQuotable, QuotedLength;
    assert IsToken(WordToken(leaf.key));
    if !leaf.BoolLeaf? {
      assert MayFollow(WordToken(leaf.key), OpToken(leaf.op));
      assert MayFollow(OpToken(leaf.op), LeafTokens(leaf)[2]);
    }
  }

  lemma {:induction false} PrintedIsTokenList(e: Expr)
    requires Printable(e)
    ensures IsTokenList(ExprTokens(e))
    ensures var t := ExprTokens(e)[0]; !t.Eq? && !t.Str?
    decreases e
  {
    hide IsToken, LeafTokens, PrintableLeaf, IsTokenList;
    match e
    case LeafExpr(leaf) => LeafIsTokenList(leaf);
    case NotExpr(x) =>
      PrintedIsTokenList(x);
      NotIsTokenList(ExprTokens(x));
    case AndExpr(l, r) =>
      PrintedIsTokenList(l);
      PrintedIsTokenList(r);
      PairIsTokenList(And, ExprTokens(l), ExprTokens(r));
    case OrExpr(l, r) =>
      PrintedIsTokenList(l);
      PrintedIsTokenList(r);
      PairIsTokenList(Or, ExprTokens(l), ExprTokens(r));
  }

  lemma NotIsTokenList(ts: seq<Token>)
    requires ts != [] && IsTokenList(ts) && !ts[0].Eq?
    ensures IsTokenList([Not] + ts)
  {
    assert IsToken(Not);
    forall i | 0 <= i < |ts|
      ensures MayFollow(([Not] + ts)[i], ([Not] + ts)[i + 1])
    {
      if i > 0 {
        assert MayFollow(ts[i - 1], ts[i]);
      }
    }
  }

  lemma PairIsTokenList(op: Token, l: seq<Token>, r: seq<Token>)
    requires op == And || op == Or
    requires l != [] && r != [] && IsTokenList(l) && IsTokenList(r)
    ensures IsTokenList([LParen] + l + [op] + r + [RParen])
  {
    hide IsToken;
    var ts := [LParen] + l + [op] + r + [RParen];
    assert IsToken(LParen) && IsToken(op) && IsToken(RParen) by { PunctuationIsToken(op); }
    forall i | 0 <= i < |ts| - 1
      ensures MayFollow(ts[i], ts[i + 1])
    {
      if 1 <= i < |l| {
        assert MayFollow(l[i - 1], l[i]);
      } else if |l| + 2 <= i < |l| + |r| + 1 {
        assert MayFollow(r[i - |l| - 2], r[i - |l| - 1]);
      }
    }
  }

  lemma PunctuationIsToken(op: Token)
    requires op == And || op == Or
    ensures IsToken(LParen) && IsToken(op) && IsToken(RParen)
  {
  }

  function PrintedText(e: Expr): string
    requires Printable(e)
  {
    TokensText(ExprTokens(e))
  }

  /** What a filter text parses to. */
  function ParsedText(s: string): Option<Expr> {
    var ts := Tokenized(s);
    if ts.None? then None
    else
      var p := ParsedLevel(ts.value, 0);
      if p.Failed? then None else Some(p.expr)
  }

  /** Any tree, printed with full parentheses, is read back as the same tree. */
  lemma PrintedTextParses(e: Expr)
    requires Printable(e)
    ensures ParsedText(PrintedText(e)) == Some(e)
  {
    hide ExprTokens, ParsedOne, Tokenized, TokensText, IsTokenList;
    PrintedIsTokenList(e);
    TokenizedText(ExprTokens(e));
    PrintedParses(e, []);
    assert ExprTokens(e) + [] == ExprTokens(e);
    assert ParsedTail(e, [], 0) == Parsed(e, []);
    assert ParsedLevel(ExprTokens(e), 0) == Parsed(e, []);
  }

  lemma {:induction false} TokenizedIntWords(s: string)
    ensures Tokenized(s).Some? ==> IntWordsAreInts(Tokenized(s).value)
    decreases |s|
  {
    if s != "" {
      if IsSpace(s[0]) {
        TokenizedIntWords(s[1..]);
      } else if FirstToken(s).Some? {
        TokenizedIntWords(s[FirstToken(s).value.used..]);
      }
    }
  }

  /** Tokenizing and parsing together, as a filter text is read. */
  method ParseText(s: string) returns (tree: Node)
    ensures tree == match ParsedText(s) case None => Nil case Some(e) => TreeOf(e)
  {
    var ts := Tokenize(s);
    if ts.None? {
      return Nil;
    }
    TokenizedIntWords(s);
    assert ts.value[0..] == ts.value;
    var b := Parse(ts.value, 0, 0);
    if b.BuildFailed? {
      return Nil;
    }
    tree := b.tree;
  }

  // ---------------------------------------------------------------------------------------
  // Chains without parentheses
  // ---------------------------------------------------------------------------------------

  /** One more operator and operand. */
  datatype Link = Link(op: Token, operand: Expr)

  predicate IsLinkChain(links: seq<Link>) {
    forall i :: 0 <= i < |links| ==> (links[i].op == And || links[i].op == Or) && Printable(links[i].operand)
  }

  function ChainTokens(links: seq<Link>): seq<Token>
    requires IsLinkChain(links)
    decreases |links|
  {
    if links == [] then []
    else [links[0].op] + ExprTokens(links[0].operand) + ChainTokens(links[1..])
  }

  function LeftFold(first: Expr, links: seq<Link>): Expr
    decreases |links|
  {
    if links == [] then first
    else LeftFold(Joined(links[0].op, first, links[0].operand), links[1..])
  }

  lemma {:induction false} ChainTail(sofar: Expr, links: seq<Link>)
    requires IsLinkChain(links)
    ensures ParsedTail(sofar, ChainTokens(links), 0) == Parsed(LeftFold(sofar, links), [])
    decreases |links|
  {
    hide ParsedOne, ExprTokens;
    if links != [] {
      var ts, rest := ChainTokens(links), ChainTokens(links[1..]);
      assert ts[1..] == ExprTokens(links[0].operand) + rest;
      assert EndsOperand(rest) by {
        if |links| > 1 {
          assert rest[0] == links[1].op;
        }
      }
      PrintedParses(links[0].operand, rest);
      ChainTail(Joined(links[0].op, sofar, links[0].operand), links[1..]);
    }
  }

  /** Operands joined by operators without parentheses parse to the left fold. */
  lemma ChainParses(first: Expr, links: seq<Link>)
    requires Printable(first) && IsLinkChain(links)
    ensures ParsedLevel(ExprTokens(first) + ChainTokens(links), 0) == Parsed(LeftFold(first, links), [])
  {
    hide ParsedOne, ExprTokens;
    PrintedParses(first, ChainTokens(links));
    ChainTail(first, links);
  }

  // ---------------------------------------------------------------------------------------
  // Evaluation
  // ---------------------------------------------------------------------------------------

  /** What a filter can ask of a track. Integers that are not set are -1. */
  datatype Track = Track(
    strings: map<string, string>,
    ints: map<string, int>,
    stream: bool,
    hasTag: bool)

  function IntVal(t: Track, key: string): int {
    if key in t.ints then t.ints[key] else -1
  }

  function OpToBool(res: int, op: Op): bool {
    match op
    case OpLt => res < 0
    case OpLe => res <= 0
    case OpEq => res == 0
    case OpGe => res >= 0
    case OpGt => res > 0
    case OpNe => res != 0
  }

  /** The sign of the lexicographic comparison. */
  function StrCmp(a: string, b: string): int
    decreases |a|
  {
    if a == "" then if b == "" then 0 else -1
    else if b == "" then 1
    else if a[0] < b[0] then -1
    else if a[0] > b[0] then 1
    else StrCmp(a[1..], b[1..])
  }

  ghost predicate LeafHolds(fold: Glob.Fold, leaf: Leaf, t: Track) {
    match leaf
    case StrLeaf(key, op, pattern) =>
      var matched := Glob.Meaning(fold, pattern, if key in t.strings then t.strings[key] else "");
      if op == OpEq then matched else !matched
    case IntLeaf(key, op, v) =>
      var val := IntVal(t, key);
      if v == -1 && op == OpEq then val == -1
      else if v == -1 && op == OpNe then val != -1
      else if val == -1 then false
      else OpToBool(val - v, op)
    case IdLeaf(key, op, other) =>
      if key in t.strings then
        if other in t.strings then OpToBool(StrCmp(t.strings[key], t.strings[other]), op) else false
      else
        var a, b := IntVal(t, key), IntVal(t, other);
        if a == -1 || b == -1 then (op == OpEq && a == b) || (op == OpNe && a != b)
        else OpToBool(a - b, op)
    case BoolLeaf(key) => if key == "stream" then t.stream else t.hasTag
  }

  ghost predicate Holds(fold: Glob.Fold, e: Expr, t: Track) {
    match e
    case AndExpr(l, r) => Holds(fold, l, t) && Holds(fold, r, t)
    case OrExpr(l, r) => Holds(fold, l, t) || Holds(fold, r, t)
    case NotExpr(x) => !Holds(fold, x, t)
    case LeafExpr(leaf) => LeafHolds(fold, leaf, t)
  }

  // ---------------------------------------------------------------------------------------
  // What comparisons ask, told without their table
  // ---------------------------------------------------------------------------------------

  predicate Compares(a: int, op: Op, b: int) {
    match op
    case OpLt => a < b
    case OpLe => a <= b
    case OpEq => a == b
    case OpGe => a >= b
    case OpGt => a > b
    case OpNe => a != b
  }

  /** An integer that is set is compared; one that is not set is only equal to -1. */
  lemma IntLeafMeans(fold: Glob.Fold, key: string, op: Op, v: Int32, t: Track)
    ensures LeafHolds(fold, IntLeaf(key, op, v), t) <==>
            if key in t.ints && t.ints[key] != -1 then Compares(t.ints[key], op, v) else op == OpEq && v == -1
  {
  }

  /** A text that is missing is empty; `!=` is the negation of `=`. */
  lemma StrLeafMeans(fold: Glob.Fold, key: string, pattern: string, t: Track)
    ensures var text := if key in t.strings then t.strings[key] else "";
            && (LeafHolds(fold, StrLeaf(key, OpEq, pattern), t) <==> Glob.Meaning(fold, pattern, text))
            && (LeafHolds(fold, StrLeaf(key, OpNe, pattern), t) <==> !Glob.Meaning(fold, pattern, text))
  {
  }

  /** Two keys are compared as texts when the first is one, and else as integers; a missing second
      text makes the comparison fail, and integers that are not set are only equal or different. */
  lemma IdLeafMeans(fold: Glob.Fold, key: string, op: Op, other: string, t: Track)
    ensures var a, b := IntVal(t, key), IntVal(t, other);
            LeafHolds(fold, IdLeaf(key, op, other), t) <==>
            if key in t.strings then other in t.strings && Compares(StrCmp(t.strings[key], t.strings[other]), op, 0)
            else Compares(a, op, b) && (a == -1 || b == -1 ==> op == OpEq || op == OpNe)
  {
  }

  /** Texts are ordered by the first character in which they differ, and a prefix comes first. */
  predicate ComesBefore(a: string, b: string) {
    exists n :: 0 <= n <= |a| && n <= |b| && a[..n] == b[..n] && n < |b| && (n == |a| || a[n] < b[n])
  }

  lemma ComesBeforeTail(a: string, b: string)
    requires a != "" && b != "" && a[0] == b[0]
    ensures ComesBefore(a, b) <==> ComesBefore(a[1..], b[1..])
  {
    var x, y := a[1..], b[1..];
    if ComesBefore(a, b) {
      var n :| 0 <= n <= |a| && n <= |b| && a[..n] == b[..n] && n < |b| && (n == |a| || a[n] < b[n]);
      assert n > 0;
      assert x[..n - 1] == a[..n][1..] && y[..n - 1] == b[..n][1..];
    }
    if ComesBefore(x, y) {
      var n :| 0 <= n <= |x| && n <= |y| && x[..n] == y[..n] && n < |y| && (n == |x| || x[n] < y[n]);
      assert a[..n + 1] == [a[0]] + x[..n] && b[..n + 1] == [b[0]] + y[..n];
    }
  }

  lemma {:induction false} StrCmpIff(a: string, b: string)
    ensures StrCmp(a, b) == 0 <==> a == b
    ensures StrCmp(a, b) < 0 <==> ComesBefore(a, b)
    ensures StrCmp(a, b) > 0 <==> ComesBefore(b, a)
    decreases |a|
  {
    if a == "" || b == "" || a[0] != b[0] {
      FirstDiffers(a, b);
      FirstDiffers(b, a);
    } else {
      ComesBeforeTail(a, b);
      ComesBeforeTail(b, a);
      StrCmpIff(a[1..], b[1..]);
      assert a == [a[0]] + a[1..] && b == [b[0]] + b[1..];
    }
  }

  lemma PrefixStart(a: string, b: string, n: nat)
    requires 0 < n <= |a| && n <= |b| && a[..n] == b[..n]
    ensures a[0] == b[0]
  {
    assert a[0] == a[..n][0] && b[0] == b[..n][0];
  }

  lemma FirstDiffers(a: string, b: string)
    requires a == "" || b == "" || a[0] != b[0]
    ensures ComesBefore(a, b) <==> b != "" && (a == "" || a[0] < b[0])
  {
    if ComesBefore(a, b) {
      var n :| 0 <= n <= |a| && n <= |b| && a[..n] == b[..n] && n < |b| && (n == |a| || a[n] < b[n]);
      if n > 0 {
        PrefixStart(a, b, n);
      }
    }
    if b != "" && (a == "" || a[0] < b[0]) {
      assert a[..0] == b[..0];
    }
  }

  /** Evaluates an expression, looking at a right operand only when the left one does not decide. */
  method ExprEval(fold: Glob.Fold, e: Expr, t: Track) returns (b: bool)
    ensures b <==> Holds(fold, e, t)
    decreases e
  {
    match e
    case AndExpr(l, r) =>
      b := ExprEval(fold, l, t);
      if b {
        b := ExprEval(fold, r, t);
      }
    case OrExpr(l, r) =>
      b := ExprEval(fold, l, t);
      if !b {
        b := ExprEval(fold, r, t);
      }
    case NotExpr(x) =>
      b := ExprEval(fold, x, t);
      b := !b;
    case LeafExpr(leaf) =>
      b := EvalLeaf(fold, leaf, t);
  }

  method EvalLeaf(fold: Glob.Fold, leaf: Leaf, t: Track) returns (b: bool)
    ensures b <==> LeafHolds(fold, leaf, t)
  {
    match leaf
    case StrLeaf(key, op, pattern) =>
      var val := if key in t.strings then t.strings[key] else "";
      b := Glob.GlobMatch(fold, pattern, val);
      if op != OpEq {
        b := !b;
      }
    case IntLeaf(key, op, v) =>
      var val := IntVal(t, key);
      if v == -1 {
        if op == OpEq {
          return val == -1;
        }
        if op == OpNe {
          return val != -1;
        }
      }
      if val == -1 {
        return false;
      }
      b := OpToBool(val - v, op);
    case IdLeaf(key, op, other) =>
      if key in t.strings {
        return other in t.strings && OpToBool(StrCmp(t.strings[key], t.strings[other]), op);
      }
      var x, y := IntVal(t, key), IntVal(t, other);
      if x == -1 || y == -1 {
        return if op == OpEq then x == y else op == OpNe && x != y;
      }
      b := OpToBool(x - y, op);
    case BoolLeaf(key) => b := if key == "stream" then t.stream else t.hasTag;
  }

  /** The links evaluated in order: an operand is only looked at when the value so far does not
      decide its operator. */
  ghost predicate ChainHolds(fold: Glob.Fold, sofar: bool, links: seq<Link>, t: Track)
    decreases |links|
  {
    if links == [] then sofar
    else if sofar == (links[0].op == And) then
      ChainHolds(fold, Holds(fold, links[0].operand, t), links[1..], t)
    else ChainHolds(fold, sofar, links[1..], t)
  }

  lemma {:induction false} LeftFoldHolds(fold: Glob.Fold, first: Expr, links: seq<Link>, t: Track)
    requires IsLinkChain(links)
    ensures Holds(fold, LeftFold(first, links), t) == ChainHolds(fold, Holds(fold, first, t), links, t)
    decreases |links|
  {
    hide LeafHolds;
    if links != [] {
      LeftFoldHolds(fold, Joined(links[0].op, first, links[0].operand), links[1..], t);
    }
  }
}
