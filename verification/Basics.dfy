/** What several parts of the model share. */
module Basics {
  datatype Option<+T> = None | Some(value: T)

  type Int32 = x: int | -0x8000_0000 <= x < 0x8000_0000

  predicate IsDigit(c: char) {
    '0' <= c <= '9'
  }

  predicate AllDigits(s: string) {
    forall i :: 0 <= i < |s| ==> IsDigit(s[i])
  }

  /** The number that decimal digits stand for. */
  function Digits(s: string): nat
    requires AllDigits(s)
    decreases |s|
  {
    if s == "" then 0
    else
      assert IsDigit(s[|s| - 1]);
      10 * Digits(s[..|s| - 1]) + (s[|s| - 1] as int - '0' as int)
  }

  /** A number as decimal digits. */
  function DigitsText(n: nat): (s: string)
    ensures s != "" && AllDigits(s) && Digits(s) == n
    decreases n
  {
    var last := [('0' as int + n % 10) as char];
    if n < 10 then last else DigitsText(n / 10) + last
  }

  function Reversed<T>(s: seq<T>): (r: seq<T>)
    ensures |r| == |s|
    ensures forall i :: 0 <= i < |s| ==> r[i] == s[|s| - 1 - i]
  {
    if s == [] then [] else Reversed(s[1..]) + [s[0]]
  }

  lemma ReversedSnoc<T>(s: seq<T>, last: T)
    ensures Reversed(s + [last]) == [last] + Reversed(s)
  {
    var l, r := Reversed(s + [last]), [last] + Reversed(s);
    assert |l| == |r|;
    forall i | 0 <= i < |l|
      ensures l[i] == r[i]
    {
    }
  }
}
