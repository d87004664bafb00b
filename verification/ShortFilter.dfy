/** The state machine that expands short filter expressions. */
module ShortFilter {
  import opened Basics
  import opened FilterTokens
  import opened FilterExpr

  // ---------------------------------------------------------------------------------------
  // Keys
  // ---------------------------------------------------------------------------------------

  datatype KeyType = StrKey | IntKey | BoolKey

  function Builtin(key: string): Option<KeyType> {
    if key == "album" || key == "albumartist" || key == "artist" || key == "codec"
       || key == "codec_profile" || key == "comment" || key == "filename" || key == "genre"
       || key == "media" || key == "title" then Some(StrKey)
    else if key == "bitrate" || key == "bpm" || key == "date" || key == "discnumber"
            || key == "duration" || key == "originaldate" || key == "play_count"
            || key == "tracknumber" then Some(IntKey)
    else if key == "stream" || key == "tag" then Some(BoolKey)
    else None
  }

  function LongKey(c: char): (key: string)
    ensures |key| <= 11
    ensures IsShortKey(c) ==> IsWord(key) && !IsIntWord(key)
  {
    if c == 'A' then "albumartist"
    else if c == 'D' then "discnumber"
    else if c == 'T' then "tag"
    else if c == 'a' then "artist"
    else if c == 'c' then "comment"
    else if c == 'd' then "duration"
    else if c == 'f' then "filename"
    else if c == 'g' then "genre"
    else if c == 'l' then "album"
    else if c == 'n' then "tracknumber"
    else if c == 'X' then "play_count"
    else if c == 's' then "stream"
    else if c == 't' then "title"
    else if c == 'y' then "date"
    else ""
  }

  predicate IsShortKey(c: char) {
    c == 'A' || c == 'D' || c == 'T' || c == 'a' || c == 'c' || c == 'd' || c == 'f'
    || c == 'g' || c == 'l' || c == 'n' || c == 'X' || c == 's' || c == 't' || c == 'y'
  }

  function ShortKeyType(c: char): KeyType
    requires IsShortKey(c)
  {
    if c == 'D' || c == 'd' || c == 'n' || c == 'X' || c == 'y' then IntKey
    else if c == 'T' || c == 's' then BoolKey
    else StrKey
  }

  lemma ShortKeyIsBuiltin(c: char)
    requires IsShortKey(c)
    ensures Builtin(LongKey(c)) == Some(ShortKeyType(c))
  {
  }

  // ---------------------------------------------------------------------------------------
  // The machine
  // ---------------------------------------------------------------------------------------

  datatype State =
    | SkipSpace | Top | ExpectKey | ExpectOp | ExpectInt | InInt | MemInt | In2ndInt
    | ExpectStr | InQuoteStr | InStr

  /** The variables of the expander. `previous` is the last character read inside a quoted
      text, `high` the highest position of the output buffer written so far. */
  datatype Machine = Machine(
    stack: seq<State>,
    out: string,
    num: string,
    key: string,
    level: int,
    previous: char,
    high: nat)

  datatype Error = CloseExpected | UnexpectedChar | UnknownKey | IntegerExpected

  datatype Next = Take(m: Machine) | Stay(m: Machine) | Reject(error: Error, m: Machine)

  const START := Machine([Top, SkipSpace], "", "", "", 0, ' ', 0)

  function Max(a: nat, b: nat): nat {
    if a < b then b else a
  }

  function Emit(m: Machine, text: string): Machine {
    m.(out := m.out + text, high := Max(m.high, |m.out| + |text|))
  }

  /** Copying a key also writes the character that ends it. */
  function EmitKey(m: Machine, key: string): Machine {
    var m' := Emit(m, key);
    m'.(high := Max(m'.high, |m'.out| + 1))
  }

  function Push(m: Machine, states: seq<State>): Machine {
    m.(stack := m.stack + states)
  }

  function Pop(m: Machine): Machine
    requires m.stack != []
  {
    m.(stack := m.stack[..|m.stack| - 1])
  }

  function ReplaceTop(m: Machine, s: State): Machine
    requires m.stack != []
  {
    m.(stack := m.stack[|m.stack| - 1 := s])
  }

  function TrimmedRight(s: string): string
    decreases |s|
  {
    if s != "" && s[|s| - 1] == ' ' then TrimmedRight(s[..|s| - 1]) else s
  }

  predicate EndsText(c: char) {
    c == '~' || c == '!' || c == '|' || c == '(' || c == ')' || c == '\0'
  }

  /** One turn of the loop on character c, '\0' after the last one. Stay reads c again. */
  function Step(m: Machine, c: char): Next
    requires m.stack != []
  {
    match m.stack[|m.stack| - 1]
    case SkipSpace => if c != ' ' then Stay(Pop(m)) else Take(m)
    case Top =>
      if c == '~' then Take(Push(m, [ExpectOp, SkipSpace, ExpectKey]))
      else if c == '(' then Take(Push(Emit(m.(level := m.level + 1), [c]), [SkipSpace]))
      else if c == '!' || c == '|' then Take(Push(Emit(m, [c]), [SkipSpace]))
      else if c == ')' then Take(Push(Emit(m.(level := m.level - 1), [c]), [ExpectOp, SkipSpace]))
      else if c == '\0' then
        if m.level > 0 then Reject(Error.CloseExpected, m) else Take(Emit(m, [c]))
      else Reject(UnexpectedChar, m)
    case ExpectKey =>
      if !IsShortKey(c) then Reject(UnknownKey, Pop(m))
      else
        var m1 := Pop(m).(key := LongKey(c));
        (match ShortKeyType(c)
         case IntKey => Take(EmitKey(Emit(Push(m1, [ExpectInt, SkipSpace]), "("), LongKey(c)))
         case StrKey => Take(EmitKey(Push(m1, [ExpectStr, SkipSpace]), LongKey(c)))
         case BoolKey => Take(EmitKey(Push(m1, [SkipSpace]), LongKey(c))))
    case ExpectOp =>
      Stay(ReplaceTop(if c == '~' || c == '(' || c == '!' then Emit(m, "&") else m, SkipSpace))
    case ExpectInt =>
      if c == '<' || c == '>' then Take(ReplaceTop(Emit(m, [c]), InInt))
      else if c == '-' then Take(ReplaceTop(Emit(m, "<="), InInt))
      else if IsDigit(c) then Take(ReplaceTop(m.(num := m.num + [c]), MemInt))
      else Reject(Error.IntegerExpected, m)
    case InInt =>
      if IsDigit(c) then Take(Emit(m, [c])) else Stay(Emit(Pop(m), ")"))
    case MemInt =>
      if IsDigit(c) then Take(m.(num := m.num + [c]))
      else if c == '-' then Take(ReplaceTop(Emit(m.(num := ""), ">=" + m.num), In2ndInt))
      else Stay(Pop(Emit(m.(num := ""), "=" + m.num + ")")))
    case In2ndInt =>
      if IsDigit(c) then Take(m.(num := m.num + [c]))
      else if m.num != "" then Stay(Pop(Emit(m, "&" + m.key + "<=" + m.num + ")")))
      else Stay(Pop(Emit(m, ")")))
    case ExpectStr =>
      if c == '"' then Take(ReplaceTop(Emit(m, "=\""), InQuoteStr).(previous := c))
      else Take(ReplaceTop(Emit(m, "=\"*" + [c]), InStr))
    case InQuoteStr =>
      if c == '"' && m.previous != '\\' then Take(Emit(Pop(m), [c]).(previous := ' '))
      else Take(Emit(m, [c]).(previous := c))
    case InStr =>
      if !EndsText(c) then Take(Emit(m, [c]))
      else Stay(Pop(Emit(m.(out := TrimmedRight(m.out)), "*\"")))
  }

  // One equation for each state, so that nothing else of Step need be looked at.

  lemma StepAtTop(m: Machine, c: char)
    requires m.stack == [Top]
    ensures Step(m, c) ==
            if c == '~' then Take(Push(m, [ExpectOp, SkipSpace, ExpectKey]))
            else if c == '(' then Take(Push(Emit(m.(level := m.level + 1), [c]), [SkipSpace]))
            else if c == '!' || c == '|' then Take(Push(Emit(m, [c]), [SkipSpace]))
            else if c == ')' then Take(Push(Emit(m.(level := m.level - 1), [c]), [ExpectOp, SkipSpace]))
            else if c == '\0' then
              if m.level > 0 then Reject(Error.CloseExpected, m) else Take(Emit(m, [c]))
            else Reject(UnexpectedChar, m)
  {
  }

  lemma StepAtKey(m: Machine, c: char)
    requires m.stack != [] && m.stack[|m.stack| - 1] == ExpectKey
    ensures Step(m, c) ==
            if !IsShortKey(c) then Reject(UnknownKey, Pop(m))
            else
              var m1 := Pop(m).(key := LongKey(c));
              (match ShortKeyType(c)
               case IntKey => Take(EmitKey(Emit(Push(m1, [ExpectInt, SkipSpace]), "("), LongKey(c)))
               case StrKey => Take(EmitKey(Push(m1, [ExpectStr, SkipSpace]), LongKey(c)))
               case BoolKey => Take(EmitKey(Push(m1, [SkipSpace]), LongKey(c))))
  {
    hide LongKey, Emit, EmitKey, Push;
  }

  /** The states that follow a key. */
  function AfterKey(t: KeyType): seq<State> {
    match t
    case IntKey => [ExpectInt, SkipSpace]
    case StrKey => [ExpectStr, SkipSpace]
    case BoolKey => [SkipSpace]
  }

  lemma KeyTaken(m: Machine, c: char)
    requires m.stack != [] && m.stack[|m.stack| - 1] == ExpectKey && IsShortKey(c)
    ensures var r, t := Step(m, c), ShortKeyType(c);
            && r.Take?
            && r.m.stack == m.stack[..|m.stack| - 1] + AfterKey(t)
            && r.m.out == m.out + (if t == IntKey then "(" else "") + LongKey(c)
            && r.m.key == LongKey(c) && r.m.num == m.num && r.m.level == m.level && r.m.previous == m.previous
            && r.m.high == Max(m.high, |r.m.out| + 1)
  {
    hide LongKey, IsShortKey, ShortKeyType, Step;
    StepAtKey(m, c);
    assert m.out + "" == m.out;
  }

  lemma StepAtOp(m: Machine, c: char)
    requires m.stack != [] && m.stack[|m.stack| - 1] == ExpectOp
    ensures Step(m, c) ==
            Stay(ReplaceTop(if c == '~' || c == '(' || c == '!' then Emit(m, "&") else m, SkipSpace))
  {
    hide Emit;
  }

  lemma StepAtInt(m: Machine, c: char)
    requires m.stack != [] && m.stack[|m.stack| - 1] == ExpectInt
    ensures Step(m, c) ==
            if c == '<' || c == '>' then Take(ReplaceTop(Emit(m, [c]), InInt))
            else if c == '-' then Take(ReplaceTop(Emit(m, "<="), InInt))
            else if IsDigit(c) then Take(ReplaceTop(m.(num := m.num + [c]), MemInt))
            else Reject(Error.IntegerExpected, m)
  {
    hide Emit;
  }

  lemma StepInInt(m: Machine, c: char)
    requires m.stack != [] && m.stack[|m.stack| - 1] == InInt
    ensures Step(m, c) == if IsDigit(c) then Take(Emit(m, [c])) else Stay(Emit(Pop(m), ")"))
  {
    hide Emit;
  }

  lemma StepMemInt(m: Machine, c: char)
    requires m.stack != [] && m.stack[|m.stack| - 1] == MemInt
    ensures Step(m, c) ==
            if IsDigit(c) then Take(m.(num := m.num + [c]))
            else if c == '-' then Take(ReplaceTop(Emit(m.(num := ""), ">=" + m.num), In2ndInt))
            else Stay(Pop(Emit(m.(num := ""), "=" + m.num + ")")))
  {
    hide Emit;
  }

  lemma StepIn2ndInt(m: Machine, c: char)
    requires m.stack != [] && m.stack[|m.stack| - 1] == In2ndInt
    ensures Step(m, c) ==
            if IsDigit(c) then Take(m.(num := m.num + [c]))
            else if m.num != "" then Stay(Pop(Emit(m, "&" + m.key + "<=" + m.num + ")")))
            else Stay(Pop(Emit(m, ")")))
  {
    hide Emit;
  }

  lemma StepAtStr(m: Machine, c: char)
    requires m.stack != [] && m.stack[|m.stack| - 1] == ExpectStr
    ensures Step(m, c) ==
            if c == '"' then Take(ReplaceTop(Emit(m, "=\""), InQuoteStr).(previous := c))
            else Take(ReplaceTop(Emit(m, "=\"*" + [c]), InStr))
  {
    hide Emit;
  }

  lemma StepInQuote(m: Machine, c: char)
    requires m.stack != [] && m.stack[|m.stack| - 1] == InQuoteStr
    ensures Step(m, c) ==
            if c == '"' && m.previous != '\\' then Take(Emit(Pop(m), [c]).(previous := ' '))
            else Take(Emit(m, [c]).(previous := c))
  {
    hide Emit;
  }

  lemma StepInStr(m: Machine, c: char)
    requires m.stack != [] && m.stack[|m.stack| - 1] == InStr
    ensures Step(m, c) ==
            if !EndsText(c) then Take(Emit(m, [c]))
            else Stay(Pop(Emit(m.(out := TrimmedRight(m.out)), "*\"")))
  {
    hide Emit, TrimmedRight;
  }

  lemma StepAtSpace(m: Machine, c: char)
    requires m.stack != [] && m.stack[|m.stack| - 1] == SkipSpace
    ensures Step(m, c) == if c != ' ' then Stay(Pop(m)) else Take(m)
  {
  }

  // ---------------------------------------------------------------------------------------
  // The stack
  // ---------------------------------------------------------------------------------------

  predicate InTerm(s: State) {
    s.ExpectInt? || s.InInt? || s.MemInt? || s.In2ndInt? || s.ExpectStr? || s.InQuoteStr? || s.InStr?
  }

  /** The stacks that occur: the base state, and above it at most four others. */
  predicate Shape(stack: seq<State>) {
    && 1 <= |stack| <= 5
    && stack[0] == Top
    && (|stack| == 2 ==> stack[1] == SkipSpace || stack[1] == ExpectOp)
    && (|stack| >= 3 ==> stack[1] == ExpectOp && stack[2] == SkipSpace)
    && (|stack| == 4 ==> stack[3] == SkipSpace || stack[3] == ExpectKey || InTerm(stack[3]))
    && (|stack| == 5 ==> (stack[3] == ExpectInt || stack[3] == ExpectStr) && stack[4] == SkipSpace)
  }

  function Rank(stack: seq<State>): nat {
    2 * |stack| - (if stack != [] && stack[|stack| - 1] == SkipSpace then 1 else 0)
  }

  lemma StepShapeKey(m: Machine, c: char)
    requires Shape(m.stack) && m.stack[|m.stack| - 1] == ExpectKey
    ensures Shape(Step(m, c).m.stack) || Step(m, c).Reject?
    ensures !Step(m, c).Stay?
  {
    hide LongKey, Step, IsShortKey, ShortKeyType;
    if IsShortKey(c) {
      KeyTaken(m, c);
    } else {
      StepAtKey(m, c);
    }
  }

  lemma StepShapeOutside(m: Machine, c: char)
    requires Shape(m.stack) && !InTerm(m.stack[|m.stack| - 1])
    ensures Shape(Step(m, c).m.stack) || Step(m, c).Reject?
    ensures Step(m, c).Stay? ==> Rank(Step(m, c).m.stack) < Rank(m.stack)
  {
    hide LongKey, Step;
    match m.stack[|m.stack| - 1]
    case ExpectKey => StepShapeKey(m, c);
    case Top => StepAtTop(m, c);
    case ExpectOp => StepAtOp(m, c);
    case SkipSpace => StepAtSpace(m, c);
  }

  lemma StepShapeInside(m: Machine, c: char)
    requires Shape(m.stack) && InTerm(m.stack[|m.stack| - 1])
    ensures Shape(Step(m, c).m.stack) || Step(m, c).Reject?
    ensures Step(m, c).Stay? ==> Rank(Step(m, c).m.stack) < Rank(m.stack)
  {
    hide LongKey, TrimmedRight;
  }

  /** The machine never pops its base state, holds at most five states, and a character that is
      read again meets a smaller stack. */
  lemma StepShape(m: Machine, c: char)
    requires Shape(m.stack)
    ensures Shape(Step(m, c).m.stack) || Step(m, c).Reject?
    ensures Step(m, c).Stay? ==> Rank(Step(m, c).m.stack) < Rank(m.stack)
  {
    hide Step;
    if InTerm(m.stack[|m.stack| - 1]) {
      StepShapeInside(m, c);
    } else {
      StepShapeOutside(m, c);
    }
  }

  /** Exactly these characters are refused: anything but an opening, a closing, an operator or the end
      between operands, an end before all parentheses are closed, anything but a key behind a tilde,
      and anything but a digit, a minus or a comparison behind the key of a number. */
  lemma RejectIff(m: Machine, c: char)
    requires Shape(m.stack)
    ensures var top, r := m.stack[|m.stack| - 1], Step(m, c);
            && (r.Reject? <==>
                  || (top == Top && c !in "~(!|)\0")
                  || (top == Top && c == '\0' && m.level > 0)
                  || (top == ExpectKey && !IsShortKey(c))
                  || (top == ExpectInt && !IsDigit(c) && c !in "<>-"))
            && (r.Reject? ==>
                  r.error == match top case ExpectKey => UnknownKey case ExpectInt => Error.IntegerExpected
                                       case _ => if c == '\0' then Error.CloseExpected else UnexpectedChar)
  {
    hide LongKey, IsShortKey, ShortKeyType, Emit, EmitKey, TrimmedRight;
  }

  datatype Outcome = Expanded(out: string, high: nat) | Rejected(error: Error, high: nat)

  /** Runs the machine on the rest of the input and the character that ends it. */
  function Run(m: Machine, rest: string): Outcome
    requires Shape(m.stack)
    decreases |rest|, Rank(m.stack)
  {
    StepShape(m, if rest == "" then '\0' else rest[0]);
    match Step(m, if rest == "" then '\0' else rest[0])
    case Reject(error, m') => Rejected(error, m'.high)
    case Stay(m') => Run(m', rest)
    case Take(m') => if rest == "" then Expanded(m'.out, m'.high) else Run(m', rest[1..])
  }

  // ---------------------------------------------------------------------------------------
  // The packed stack
  // ---------------------------------------------------------------------------------------

  function Code(s: State): (code: nat)
    ensures 1 <= code <= 11
  {
    match s
    case SkipSpace => 1
    case Top => 2
    case ExpectKey => 3
    case ExpectOp => 4
    case ExpectInt => 5
    case InInt => 6
    case MemInt => 7
    case In2ndInt => 8
    case ExpectStr => 9
    case InQuoteStr => 10
    case InStr => 11
  }

  function StateOf(code: nat): State
    requires 1 <= code <= 11
  {
    [SkipSpace, Top, ExpectKey, ExpectOp, ExpectInt, InInt, MemInt, In2ndInt, ExpectStr, InQuoteStr,
     InStr][code - 1]
  }

  /** Four bits for each state, the top state in the lowest four. */
  function Packed(stack: seq<State>): nat
    decreases |stack|
  {
    if stack == [] then 0
    else Packed(stack[..|stack| - 1]) * 16 + Code(stack[|stack| - 1])
  }

  const WORD: nat := 0x1_0000_0000

  function Power16(n: nat): nat {
    if n == 0 then 1 else 16 * Power16(n - 1)
  }

  lemma {:induction false} PackedBound(stack: seq<State>)
    ensures Packed(stack) < Power16(|stack|)
    decreases |stack|
  {
    if stack != [] {
      PackedBound(stack[..|stack| - 1]);
    }
  }

  lemma PackedShape(stack: seq<State>)
    requires |stack| <= 5
    ensures Packed(stack) < 0x10_0000
  {
    PackedBound(stack);
    assert Power16(5) == 0x10_0000;
    Power16Monotone(|stack|, 5);
  }

  lemma {:induction false} Power16Monotone(a: nat, b: nat)
    requires a <= b
    ensures Power16(a) <= Power16(b)
    decreases b - a
  {
    if a < b {
      Power16Monotone(a, b - 1);
    }
  }

  class Stack4 {
    /** A word of at least 32 bits. */
    var word: nat

    constructor ()
      ensures word == Packed([])
    {
      word := 0;
    }

    /** Shifting in a state loses nothing while there is room for it. */
    method Push(ghost stack: seq<State>, s: State)
      requires word == Packed(stack) && |stack| < 5
      modifies this
      ensures word == Packed(stack + [s])
    {
      word := word * 16 % WORD + Code(s);
      PackedShape(stack);
      assert (stack + [s])[..|stack|] == stack;
    }

    method Pop(ghost stack: seq<State>)
      requires word == Packed(stack) && stack != []
      modifies this
      ensures word == Packed(stack[..|stack| - 1])
    {
      word := word / 16;
    }

    method Top(ghost stack: seq<State>) returns (s: State)
      requires word == Packed(stack) && stack != []
      ensures s == stack[|stack| - 1]
    {
      s := StateOf(word % 16);
    }

    method ReplaceTop(ghost stack: seq<State>, s: State)
      requires word == Packed(stack) && stack != []
      modifies this
      ensures word == Packed(stack[|stack| - 1 := s])
    {
      word := word - word % 16 + Code(s);
      ghost var n := |stack| - 1;
      assert stack[n := s][..n] == stack[..n];
    }
  }

  // ---------------------------------------------------------------------------------------
  // The expander
  // ---------------------------------------------------------------------------------------

  method TrimRight(s: string) returns (r: string)
    ensures r == TrimmedRight(s)
  {
    r := s;
    while r != "" && r[|r| - 1] == ' '
      invariant TrimmedRight(r) == TrimmedRight(s)
      decreases |r|
    {
      r := r[..|r| - 1];
    }
  }

  datatype Turn = Advance | Repeat | Abort(error: Error)

  class Expander {
    var out: string
    var num: string
    var key: string
    var level: int
    var states: Stack4
    /** The abstract machine these variables hold. */
    ghost var m: Machine

    ghost predicate Valid()
      reads this, states
    {
      && out == m.out
      && num == m.num
      && key == m.key
      && level == m.level
      && states.word == Packed(m.stack)
      && Shape(m.stack)
    }

    constructor ()
      ensures Valid() && fresh(states) && m == START
    {
      out, num, key, level := "", "", "", 0;
      states := new Stack4();
      m := START;
      new;
      states.Push([], Top);
      states.Push([Top], SkipSpace);
      assert [] + [Top] == [Top] && [Top] + [SkipSpace] == START.stack;
    }

    ghost predicate Took(turn: Turn, m0: Machine, c: char)
      requires m0.stack != []
      reads this, states
    {
      match Step(m0, c)
      case Take(m1) => turn == Advance && Valid() && m == m1
      case Stay(m1) => turn == Repeat && Valid() && m == m1
      case Reject(error, _) => turn == Abort(error)
    }

    method TurnTop(c: char) returns (turn: Turn)
      requires Valid() && m.stack == [Top]
      modifies this, states
      ensures states == old(states) && Took(turn, old(m), c)
    {
      hide Packed, Step;
      StepAtTop(m, c);
      ghost var st := m.stack;
      m := Step(m, c).m;
      if c == '~' {
        states.Push(st, ExpectOp);
        states.Push(st + [ExpectOp], SkipSpace);
        states.Push(st + [ExpectOp] + [SkipSpace], ExpectKey);
        assert st + [ExpectOp] + [SkipSpace] + [ExpectKey] == m.stack;
        return Advance;
      } else if c == '(' || c == '!' || c == '|' {
        if c == '(' {
          level := level + 1;
        }
        out := out + [c];
        states.Push(st, SkipSpace);
        return Advance;
      } else if c == ')' {
        level := level - 1;
        out := out + [c];
        states.Push(st, ExpectOp);
        states.Push(st + [ExpectOp], SkipSpace);
        assert st + [ExpectOp] + [SkipSpace] == m.stack;
        return Advance;
      } else if c == '\0' {
        if level > 0 {
          return Abort(Error.CloseExpected);
        }
        out := out + [c];
        return Advance;
      }
      return Abort(UnexpectedChar);
    }

    method TurnKey(c: char) returns (turn: Turn)
      requires Valid() && m.stack == [Top, ExpectOp, SkipSpace, ExpectKey]
      modifies this, states
      ensures states == old(states) && Took(turn, old(m), c)
    {
      hide Packed, LongKey, Step, IsShortKey, ShortKeyType, Emit, EmitKey;
      ghost var st := m.stack;
      StepShapeKey(m, c);
      ghost var below := st[..3];
      states.Pop(st);
      if !IsShortKey(c) {
        StepAtKey(m, c);
        return Abort(UnknownKey);
      }
      KeyTaken(m, c);
      assert out + "" == out;
      m := Step(m, c).m;
      key := LongKey(c);
      if ShortKeyType(c) == IntKey {
        states.Push(below, ExpectInt);
        out := out + "(";
        out := out + key;
        states.Push(below + [ExpectInt], SkipSpace);
        assert below + [ExpectInt] + [SkipSpace] == m.stack;
      } else if ShortKeyType(c) == StrKey {
        states.Push(below, ExpectStr);
        out := out + key;
        states.Push(below + [ExpectStr], SkipSpace);
        assert below + [ExpectStr] + [SkipSpace] == m.stack;
      } else {
        out := out + key;
        states.Push(below, SkipSpace);
      }
      return Advance;
    }

    method TurnInt(top: State, c: char) returns (turn: Turn)
      requires Valid() && top == m.stack[|m.stack| - 1]
      requires top == ExpectInt || top == InInt || top == MemInt || top == In2ndInt
      modifies this, states
      ensures states == old(states) && Took(turn, old(m), c)
    {
      hide Packed, LongKey, Step;
      StepShape(m, c);
      ghost var st, m0 := m.stack, m;
      m := Step(m, c).m;
      match top {
        case ExpectInt =>
          StepAtInt(m0, c);
          if c == '<' || c == '>' {
            out := out + [c];
            states.ReplaceTop(st, InInt);
          } else if c == '-' {
            out := out + "<=";
            states.ReplaceTop(st, InInt);
          } else if IsDigit(c) {
            num := num + [c];
            states.ReplaceTop(st, MemInt);
          } else {
            return Abort(Error.IntegerExpected);
          }
          return Advance;
        case InInt =>
          StepInInt(m0, c);
          if IsDigit(c) {
            out := out + [c];
            return Advance;
          }
          states.Pop(st);
          out := out + ")";
          return Repeat;
        case MemInt =>
          StepMemInt(m0, c);
          if IsDigit(c) {
            num := num + [c];
            return Advance;
          }
          if c == '-' {
            out := out + (">=" + num);
            num := "";
            states.ReplaceTop(st, In2ndInt);
            return Advance;
          }
          states.Pop(st);
          out := out + ("=" + num + ")");
          num := "";
          return Repeat;
        case In2ndInt =>
          StepIn2ndInt(m0, c);
          if IsDigit(c) {
            num := num + [c];
            return Advance;
          }
          states.Pop(st);
          if num != "" {
            out := out + ("&" + key + "<=" + num + ")");
          } else {
            out := out + ")";
          }
          return Repeat;
      }
    }

    method TurnStr(top: State, c: char, before: char) returns (turn: Turn)
      requires Valid() && top == m.stack[|m.stack| - 1]
      requires top == ExpectStr || top == InQuoteStr || top == InStr
      requires top == InQuoteStr ==> before == m.previous
      modifies this, states
      ensures states == old(states) && Took(turn, old(m), c)
    {
      hide Packed, LongKey, TrimmedRight, Step;
      StepShape(m, c);
      ghost var st, m0 := m.stack, m;
      m := Step(m, c).m;
      match top {
        case ExpectStr =>
          StepAtStr(m0, c);
          if c == '"' {
            states.ReplaceTop(st, InQuoteStr);
            out := out + "=\"";
          } else {
            states.ReplaceTop(st, InStr);
            out := out + ("=\"*" + [c]);
          }
          return Advance;
        case InQuoteStr =>
          StepInQuote(m0, c);
          if c == '"' && before != '\\' {
            states.Pop(st);
          }
          out := out + [c];
          return Advance;
        case InStr =>
          StepInStr(m0, c);
          if !EndsText(c) {
            out := out + [c];
            return Advance;
          }
          out := TrimRight(out);
          out := out + "*\"";
          states.Pop(st);
          return Repeat;
      }
    }

    method TakeTurn(c: char, before: char) returns (turn: Turn)
      requires Valid()
      requires m.stack[|m.stack| - 1] == InQuoteStr ==> before == m.previous
      modifies this, states
      ensures states == old(states) && Took(turn, old(m), c)
    {
      hide Packed, LongKey, TrimmedRight, Step;
      var top := states.Top(m.stack);
      StepShape(m, c);
      match top {
        case SkipSpace =>
          StepAtSpace(m, c);
          ghost var st := m.stack;
          m := Step(m, c).m;
          if c != ' ' {
            states.Pop(st);
            return Repeat;
          }
          return Advance;
        case Top =>
          turn := TurnTop(c);
        case ExpectKey =>
          turn := TurnKey(c);
        case ExpectOp =>
          StepAtOp(m, c);
          ghost var st := m.stack;
          m := Step(m, c).m;
          if c == '~' || c == '(' || c == '!' {
            out := out + "&";
          }
          states.ReplaceTop(st, SkipSpace);
          return Repeat;
        case ExpectStr => turn := TurnStr(top, c, before);
        case InQuoteStr => turn := TurnStr(top, c, before);
        case InStr => turn := TurnStr(top, c, before);
        case _ => turn := TurnInt(top, c);
      }
    }
  }

  predicate InQuote(m: Machine) {
    m.stack != [] && m.stack[|m.stack| - 1] == InQuoteStr
  }

  lemma QuoteInside(m: Machine, c: char)
    requires Shape(m.stack) && InTerm(m.stack[|m.stack| - 1]) && InQuote(Step(m, c).m)
    ensures Step(m, c).Take? && Step(m, c).m.previous == c
  {
    hide LongKey, TrimmedRight;
  }

  lemma NoQuoteOutside(m: Machine, c: char)
    requires Shape(m.stack) && !InTerm(m.stack[|m.stack| - 1])
    ensures !InQuote(Step(m, c).m)
  {
    hide LongKey, Step, Emit, EmitKey, IsShortKey, ShortKeyType;
    match m.stack[|m.stack| - 1]
    case ExpectKey =>
      if IsShortKey(c) {
        KeyTaken(m, c);
      } else {
        StepAtKey(m, c);
      }
    case Top => StepAtTop(m, c); EmitKeepsStack(m, [c]);
    case ExpectOp => StepAtOp(m, c); EmitKeepsStack(m, "&");
    case SkipSpace => StepAtSpace(m, c);
  }

  lemma EmitKeepsStack(m: Machine, text: string)
    ensures Emit(m, text).stack == m.stack
  {
  }

  lemma QuoteRemembered(m: Machine, c: char)
    requires Shape(m.stack) && InQuote(Step(m, c).m)
    ensures Step(m, c).Take? && Step(m, c).m.previous == c
  {
    hide Step;
    if InTerm(m.stack[|m.stack| - 1]) {
      QuoteInside(m, c);
    } else {
      NoQuoteOutside(m, c);
    }
  }

  /** The expanded text with the character that ends it, or nothing for a malformed input. */
  method ExpandShortExpr(s: string) returns (r: Option<string>)
    ensures r == match Run(START, s) case Expanded(out, _) => Some(out) case Rejected(_, _) => None
  {
    hide Step;
    var e := new Expander();
    var i: nat := 0;
    assert s[0..] == s;
    while i <= |s|
      invariant e.Valid() && fresh(e) && fresh(e.states) && i <= |s| + 1
      invariant i <= |s| ==> Run(START, s) == Run(e.m, s[i..])
      invariant i > |s| ==> Run(START, s).Expanded? && Run(START, s).out == e.out
      invariant InQuote(e.m) ==> i > 0 && (i <= |s| ==> e.m.previous == s[i - 1])
      decreases |s| + 1 - i, Rank(e.m.stack)
    {
      var c := if i < |s| then s[i] else '\0';
      ghost var m0 := e.m;
      assert i < |s| ==> s[i..][1..] == s[i + 1..];
      var turn := e.TakeTurn(c, if i > 0 then s[i - 1] else ' ');
      StepShape(m0, c);
      match turn {
        case Abort(_) => return None;
        case Repeat =>
        case Advance => i := i + 1;
      }
      if InQuote(e.m) {
        QuoteRemembered(m0, c);
      }
    }
    r := Some(e.out);
  }
}
