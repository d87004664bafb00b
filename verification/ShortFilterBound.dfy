/** The size of the expander's output buffer: seven times the input. */
module ShortFilterBound {
  import opened Basics
  import opened FilterTokens
  import opened ShortFilter

  /** What the machine may still write without reading another character. A digit of the second
      bound counts twice, because it can be written once more for a later number. */
  function Weight(m: Machine): nat {
    (if |m.stack| >= 2 && m.stack[1] == ExpectOp then 2 else 1)
    + |m.num|
    + if |m.stack| < 4 then 0
      else match m.stack[3]
        case ExpectKey => 6
        case InInt => 1
        case MemInt => 5
        case In2ndInt => if m.num == "" then 10 else 15 + |m.num|
        case ExpectStr => 2
        case InStr => 2
        case _ => 0
  }

  /** The first two characters may leave less room than usual. */
  predicate Early(m: Machine, i: nat, s: string) {
    && m.num == ""
    && i <= |s|
    && if i == 0 then (m.stack == [Top, SkipSpace] || m.stack == [Top]) && m.out == "" && m.high == 0
       else if i == 1 then
         s[0] == '~' && m.stack == [Top, ExpectOp, SkipSpace, ExpectKey] && m.out == "" && m.high == 0
       else
         && i == 2
         && s[..2] == "~A"
         && (m.stack == [Top, ExpectOp, SkipSpace, ExpectStr]
             || m.stack == [Top, ExpectOp, SkipSpace, ExpectStr, SkipSpace])
         && |m.out| == 11
         && m.high == 12
  }

  /** After i characters: the output so far and all that is still owed fit in seven times i. */
  predicate Paid(m: Machine, i: nat) {
    |m.out| + Weight(m) <= 7 * i && m.high <= 7 * i
  }

  predicate Known(m: Machine) {
    Shape(m.stack) && |m.key| <= 11
  }

  lemma {:induction false} TrimmedShorter(s: string)
    ensures |TrimmedRight(s)| <= |s|
    decreases |s|
  {
    if s != "" && s[|s| - 1] == ' ' {
      TrimmedShorter(s[..|s| - 1]);
    }
  }

  lemma StayPaid(m: Machine, i: nat, c: char)
    requires Known(m) && Paid(m, i) && Step(m, c).Stay?
    ensures Known(Step(m, c).m) && Paid(Step(m, c).m, i)
  {
    hide LongKey;
    TrimmedShorter(m.out);
    hide TrimmedRight;
    StepShape(m, c);
  }

  lemma TakePaidTop(m: Machine, i: nat, c: char)
    requires Known(m) && Paid(m, i) && Step(m, c).Take?
    requires m.stack == [Top] || m.stack[|m.stack| - 1] == SkipSpace
    ensures Known(Step(m, c).m) && Paid(Step(m, c).m, i + 1)
  {
    hide LongKey, TrimmedRight;
    StepShape(m, c);
  }

  lemma TakePaidKey(m: Machine, i: nat, c: char)
    requires Known(m) && Paid(m, i) && Step(m, c).Take? && m.stack[|m.stack| - 1] == ExpectKey
    ensures Known(Step(m, c).m) && Paid(Step(m, c).m, i + 1)
  {
    hide LongKey, Step, IsShortKey, ShortKeyType;
    StepShape(m, c);
    if IsShortKey(c) {
      KeyTaken(m, c);
    } else {
      StepAtKey(m, c);
      assert false;
    }
  }

  predicate InText(s: State) {
    s.ExpectStr? || s.InQuoteStr? || s.InStr?
  }

  lemma TakePaidText(m: Machine, i: nat, c: char)
    requires Known(m) && Paid(m, i) && Step(m, c).Take? && InText(m.stack[|m.stack| - 1])
    ensures Known(Step(m, c).m) && Paid(Step(m, c).m, i + 1)
  {
    hide LongKey, TrimmedRight;
    StepShape(m, c);
  }

  lemma TakePaidNumber(m: Machine, i: nat, c: char)
    requires Known(m) && Paid(m, i) && Step(m, c).Take?
    requires InTerm(m.stack[|m.stack| - 1]) && !InText(m.stack[|m.stack| - 1])
    ensures Known(Step(m, c).m) && Paid(Step(m, c).m, i + 1)
  {
    hide LongKey, TrimmedRight;
    StepShape(m, c);
  }

  lemma ExpectOpStays(m: Machine, c: char)
    requires Shape(m.stack)
    ensures m.stack[|m.stack| - 1] == ExpectOp ==> Step(m, c).Stay?
  {
    hide LongKey, TrimmedRight;
  }

  lemma TakePaid(m: Machine, i: nat, c: char)
    requires Known(m) && Paid(m, i) && Step(m, c).Take?
    ensures Known(Step(m, c).m) && Paid(Step(m, c).m, i + 1)
  {
    hide Step, Paid;
    if InText(m.stack[|m.stack| - 1]) {
      TakePaidText(m, i, c);
    } else if InTerm(m.stack[|m.stack| - 1]) {
      TakePaidNumber(m, i, c);
    } else if m.stack[|m.stack| - 1] == ExpectKey {
      TakePaidKey(m, i, c);
    } else {
      ExpectOpStays(m, c);
      TakePaidTop(m, i, c);
    }
  }

  /** At the end of the input and in a rejection no more is written than is owed. */
  lemma EndPaid(m: Machine, i: nat)
    requires Known(m) && Paid(m, i)
    ensures Step(m, '\0').Take? ==> Step(m, '\0').m.high <= 7 * i
  {
    hide LongKey, TrimmedRight;
  }

  lemma RejectPaid(m: Machine, c: char)
    requires Known(m) && Step(m, c).Reject?
    ensures Step(m, c).m.high == m.high
  {
    hide LongKey, TrimmedRight;
  }

  lemma EarlyStep(m: Machine, i: nat, s: string)
    requires Known(m) && Early(m, i, s) && s != "" && s != "~A" && '\0' !in s
    ensures var c := if i < |s| then s[i] else '\0';
            match Step(m, c)
            case Stay(m') => Known(m') && (Paid(m', i) || Early(m', i, s))
            case Take(m') => i < |s| && Known(m') && (Paid(m', i + 1) || Early(m', i + 1, s))
            case Reject(_, m') => m'.high <= 7 * |s|
  {
    StepShape(m, if i < |s| then s[i] else '\0');
    if i == 0 {
      EarlyStepFirst(m, s);
    } else if i == 1 {
      EarlyStepKey(m, s);
    } else {
      EarlyStepText(m, s);
    }
  }

  lemma EarlyStepFirst(m: Machine, s: string)
    requires Known(m) && Early(m, 0, s) && s != "" && '\0' !in s
    ensures match Step(m, s[0])
            case Stay(m') => Known(m') && Early(m', 0, s)
            case Take(m') => Known(m') && (Paid(m', 1) || Early(m', 1, s))
            case Reject(_, m') => m'.high == 0
  {
    hide LongKey, TrimmedRight;
    StepShape(m, s[0]);
    assert s[0] in s;
  }

  lemma KeyLengths(c: char)
    ensures IsShortKey(c) && ShortKeyType(c) == StrKey && c != 'A' ==> |LongKey(c)| <= 8
    ensures IsShortKey('A') && ShortKeyType('A') == StrKey && |LongKey('A')| == 11
  {
  }

  lemma EarlyStepKey(m: Machine, s: string)
    requires Known(m) && Early(m, 1, s) && s != "~A" && '\0' !in s
    ensures var c := if 1 < |s| then s[1] else '\0';
            match Step(m, c)
            case Stay(_) => false
            case Take(m') => 1 < |s| && Known(m') && (Paid(m', 2) || Early(m', 2, s))
            case Reject(_, m') => m'.high == 0
  {
    hide Step, LongKey, IsShortKey, ShortKeyType, Paid, Known, Shape;
    var c := if 1 < |s| then s[1] else '\0';
    if IsShortKey(c) {
      NoKeyEnds();
      if c == 'A' {
        assert s[..2] == "~A";
        LongestKeyEarly(m, s);
      } else {
        KeyPaid(m, c);
      }
    } else {
      StepAtKey(m, c);
    }
  }

  lemma NoKeyEnds()
    ensures !IsShortKey('\0')
  {
  }

  /** Any key but `A` right after the first character is paid for. */
  lemma KeyPaid(m: Machine, c: char)
    requires m.stack == [Top, ExpectOp, SkipSpace, ExpectKey] && m.num == "" && m.out == "" && m.high == 0
    requires IsShortKey(c) && c != 'A'
    ensures Step(m, c).Take? && Known(Step(m, c).m) && Paid(Step(m, c).m, 2)
  {
    hide Step, LongKey, IsShortKey, ShortKeyType, Emit, EmitKey, Push, Weight, Shape, AfterKey;
    KeyTaken(m, c);
    StartShape(m.stack);
    StepShapeKey(m, c);
    KeyLengths(c);
    WeightAfterKey(Step(m, c).m, ShortKeyType(c));
  }

  lemma LongestKeyEarly(m: Machine, s: string)
    requires m.stack == [Top, ExpectOp, SkipSpace, ExpectKey] && m.num == "" && m.out == "" && m.high == 0
    requires |s| >= 2 && s[..2] == "~A"
    ensures Step(m, 'A').Take? && Known(Step(m, 'A').m) && Early(Step(m, 'A').m, 2, s)
  {
    hide Step, LongKey, IsShortKey, ShortKeyType, Emit, EmitKey, Push, Weight, Shape;
    KeyLengths('A');
    KeyTaken(m, 'A');
    StartShape(m.stack);
    StepShapeKey(m, 'A');
    assert [Top, ExpectOp, SkipSpace] + [ExpectStr, SkipSpace] == [Top, ExpectOp, SkipSpace, ExpectStr, SkipSpace];
  }

  lemma StartShape(stack: seq<State>)
    requires stack == [Top, ExpectOp, SkipSpace, ExpectKey]
    ensures Shape(stack) && stack[..|stack| - 1] == [Top, ExpectOp, SkipSpace]
  {
  }

  lemma WeightAfterKey(m: Machine, t: KeyType)
    requires m.stack == [Top, ExpectOp, SkipSpace] + AfterKey(t) && m.num == ""
    ensures Weight(m) == if t == StrKey then 4 else 2
  {
    assert m.stack[1] == ExpectOp && m.stack[3] == AfterKey(t)[0];
  }

  lemma EarlyStepText(m: Machine, s: string)
    requires Known(m) && Early(m, 2, s) && s != "~A" && '\0' !in s
    ensures 2 < |s|
    ensures match Step(m, s[2])
            case Stay(m') => Known(m') && Early(m', 2, s)
            case Take(m') => Known(m') && Paid(m', 3)
            case Reject(_, _) => false
  {
    hide LongKey, TrimmedRight;
    WholeOfTwo(s);
    StepShape(m, s[2]);
  }

  lemma WholeOfTwo(s: string)
    ensures |s| == 2 ==> s[..2] == s
  {
  }

  lemma {:induction false} RunFits(m: Machine, i: nat, s: string)
    requires Known(m) && i <= |s| && (Paid(m, i) || Early(m, i, s))
    requires s != "" && s != "~A" && '\0' !in s
    ensures Run(m, s[i..]).high <= 7 * |s|
    decreases |s| - i, Rank(m.stack)
  {
    hide Step, Paid, Early, Weight;
    var c := if i < |s| then s[i] else '\0';
    StepShape(m, c);
    assert i < |s| ==> s[i..][1..] == s[i + 1..];
    if Early(m, i, s) {
      EarlyStep(m, i, s);
      match Step(m, c)
      case Stay(m') => RunFits(m', i, s);
      case Take(m') => RunFits(m', i + 1, s);
      case Reject(_, _) =>
    } else {
      PaidHigh(m, i);
      match Step(m, c)
      case Stay(m') =>
        StayPaid(m, i, c);
        RunFits(m', i, s);
      case Take(m') =>
        if i < |s| {
          TakePaid(m, i, c);
          RunFits(m', i + 1, s);
        } else {
          EndPaid(m, i);
        }
      case Reject(_, _) =>
        RejectPaid(m, c);
    }
  }

  lemma PaidHigh(m: Machine, i: nat)
    requires Paid(m, i)
    ensures m.high <= 7 * i
  {
  }

  lemma RunUnfold(m: Machine, rest: string)
    requires Shape(m.stack)
    ensures Shape(Step(m, if rest == "" then '\0' else rest[0]).m.stack)
            || Step(m, if rest == "" then '\0' else rest[0]).Reject?
    ensures Run(m, rest) ==
            match Step(m, if rest == "" then '\0' else rest[0])
            case Reject(error, m') => Rejected(error, m'.high)
            case Stay(m') => Run(m', rest)
            case Take(m') => if rest == "" then Expanded(m'.out, m'.high) else Run(m', rest[1..])
  {
    hide Step;
    StepShape(m, if rest == "" then '\0' else rest[0]);
  }

  lemma LoneKeyStart()
    ensures Run(START, "~A") == Run(START.(stack := [Top, ExpectOp, SkipSpace, ExpectKey]), "A")
  {
    hide Run, Step;
    var m1 := START.(stack := [Top]);
    RunUnfold(START, "~A");
    StepAtSpace(START, '~');
    assert Pop(START) == m1;
    RunUnfold(m1, "~A");
    StepAtTop(m1, '~');
    assert [Top] + [ExpectOp, SkipSpace, ExpectKey] == [Top, ExpectOp, SkipSpace, ExpectKey];
    assert "~A"[1..] == "A";
  }

  lemma LoneKeyRead(m: Machine) returns (m': Machine)
    requires m == START.(stack := [Top, ExpectOp, SkipSpace, ExpectKey])
    ensures m'.stack == [Top, ExpectOp, SkipSpace, ExpectStr, SkipSpace]
    ensures |m'.out| == 11 && m'.high == 12
    ensures Run(m, "A") == Run(m', "")
  {
    hide Run, Step, LongKey, IsShortKey, ShortKeyType;
    KeyLengths('A');
    RunUnfold(m, "A");
    KeyTaken(m, 'A');
    m' := Step(m, 'A').m;
    assert [Top, ExpectOp, SkipSpace, ExpectKey][..3] + [ExpectStr, SkipSpace] == m'.stack;
    assert "A"[0] == 'A' && "A"[1..] == "";
  }

  lemma LoneKeyEnd(m: Machine)
    requires m.stack == [Top, ExpectOp, SkipSpace, ExpectStr, SkipSpace]
    ensures Run(m, "").high == Max(m.high, |m.out| + 4)
  {
    hide Run, Step;
    RunUnfold(m, "");
    StepAtSpace(m, '\0');
    assert Pop(m).stack == [Top, ExpectOp, SkipSpace, ExpectStr];
    RunUnfold(Pop(m), "");
    StepAtStr(Pop(m), '\0');
  }

  /** A key that is given neither argument nor room: 15 characters where 14 fit. */
  lemma LoneKeyDoesNotFit()
    ensures Run(START, "~A").high == 15
  {
    hide Run;
    LoneKeyStart();
    var m := LoneKeyRead(START.(stack := [Top, ExpectOp, SkipSpace, ExpectKey]));
    LoneKeyEnd(m);
  }

  lemma EmptyDoesNotFit()
    ensures Run(START, "").high == 1
  {
    hide Run;
    var m1 := START.(stack := [Top]);
    RunUnfold(START, "");
    assert Step(START, '\0') == Stay(m1);
    RunUnfold(m1, "");
  }

  /** Everything the expander writes, terminators included, fits in seven times the input,
      except for the empty input and for `~A`. */
  lemma OutputFits(s: string)
    requires '\0' !in s
    ensures Run(START, s).high <= 7 * |s| <==> s != "" && s != "~A"
  {
    if s == "" {
      EmptyDoesNotFit();
    } else if s == "~A" {
      LoneKeyDoesNotFit();
    } else {
      assert s[0..] == s;
      RunFits(START, 0, s);
    }
  }
}
