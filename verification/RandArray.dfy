/** Random distinct indices in ascending order, and the loop that turns the indices not wanted
    into those wanted within one array. */
module RandArray {
  import opened Basics

  predicate Increasing(s: seq<int>) {
    forall i, j :: 0 <= i < j < |s| ==> s[i] < s[j]
  }

  predicate Inside(s: seq<int>, nmax: int) {
    forall i :: 0 <= i < |s| ==> 0 <= s[i] < nmax
  }

  predicate Distinct(s: seq<int>) {
    forall i, j :: 0 <= i < j < |s| ==> s[i] != s[j]
  }

  // ---------------------------------------------------------------------------------------
  // Drawing
  // ---------------------------------------------------------------------------------------

  /** The first `count` different remainders of the draws, in the order in which they came up;
      nothing when there are fewer. */
  function Accepted(draws: seq<nat>, nmax: nat, count: nat, chosen: seq<int>): (r: Option<seq<int>>)
    requires |chosen| <= count && (nmax == 0 ==> count == 0)
    requires Inside(chosen, nmax) && Distinct(chosen)
    ensures r.Some? ==> |r.value| == count && Inside(r.value, nmax) && Distinct(r.value)
    decreases |draws|
  {
    if |chosen| == count then Some(chosen)
    else if draws == [] then None
    else
      var v := draws[0] % nmax;
      if v in chosen then Accepted(draws[1..], nmax, count, chosen)
      else Accepted(draws[1..], nmax, count, chosen + [v])
  }

  function Insert(s: seq<int>, v: int): (r: seq<int>)
    decreases |s|
  {
    if s == [] || v <= s[0] then [v] + s else [s[0]] + Insert(s[1..], v)
  }

  function Sorted(s: seq<int>): (r: seq<int>)
    decreases |s|
  {
    if s == [] then [] else Insert(Sorted(s[1..]), s[0])
  }

  lemma {:induction false} InsertKeeps(s: seq<int>, v: int)
    requires Increasing(s) && v !in s
    ensures var r := Insert(s, v); |r| == |s| + 1 && Increasing(r) && forall x :: x in r <==> x in s || x == v
    decreases |s|
  {
    if s != [] && v > s[0] {
      InsertKeeps(s[1..], v);
      var rest := Insert(s[1..], v);
      assert forall x :: x in s <==> x == s[0] || x in s[1..];
      assert forall k :: 0 <= k < |rest| ==> rest[k] in rest;
      assert forall k :: 0 < k < |s| ==> s[k] == s[1..][k - 1];
      forall k | 0 <= k < |rest|
        ensures s[0] < rest[k]
      {
        assert rest[k] == v || rest[k] in s[1..];
      }
    }
  }

  /** Sorting keeps the values and puts them in ascending order. */
  lemma {:induction false} SortedKeeps(s: seq<int>)
    requires Distinct(s)
    ensures |Sorted(s)| == |s| && Increasing(Sorted(s)) && forall x :: x in Sorted(s) <==> x in s
    decreases |s|
  {
    if s != [] {
      SortedKeeps(s[1..]);
      assert s[0] !in s[1..];
      InsertKeeps(Sorted(s[1..]), s[0]);
      assert forall x :: x in s <==> x == s[0] || x in s[1..];
    }
  }

  // ---------------------------------------------------------------------------------------
  // What is left of a range
  // ---------------------------------------------------------------------------------------

  /** The numbers from `n` to `nmax` that are not excluded, in ascending order. */
  function Without(n: nat, nmax: nat, excluded: seq<int>): (r: seq<int>)
    decreases nmax - n
  {
    if n >= nmax then []
    else if n in excluded then Without(n + 1, nmax, excluded)
    else [n] + Without(n + 1, nmax, excluded)
  }

  lemma EmptyIncreasing()
    ensures Increasing([])
  {
  }

  lemma PrependKeeps(v: int, s: seq<int>)
    requires Increasing(s) && forall x :: x in s ==> v < x
    ensures Increasing([v] + s) && forall x :: x in [v] + s <==> x == v || x in s
  {
    var r := [v] + s;
    assert forall k :: 0 < k < |r| ==> r[k] == s[k - 1] && s[k - 1] in s;
  }

  /** Exactly the numbers of the range that are not excluded, in ascending order. */
  lemma {:induction false} WithoutIsComplement(n: nat, nmax: nat, excluded: seq<int>)
    ensures var r := Without(n, nmax, excluded);
            Increasing(r) && forall v :: v in r <==> n <= v < nmax && v !in excluded
    decreases nmax - n
  {
    hide Increasing;
    EmptyIncreasing();
    if n < nmax {
      WithoutIsComplement(n + 1, nmax, excluded);
      if n !in excluded {
        PrependKeeps(n, Without(n + 1, nmax, excluded));
      }
    }
  }

  /** As many numbers are left as were not excluded. */
  lemma {:induction false} WithoutLength(n: nat, nmax: nat, x: seq<int>, k: nat)
    requires n <= nmax && Increasing(x) && Inside(x, nmax)
    requires k <= |x| && (k < |x| ==> n <= x[k]) && (k > 0 ==> x[k - 1] < n)
    ensures |Without(n, nmax, x)| == nmax - n - (|x| - k)
    decreases nmax - n
  {
    if n < nmax {
      if k < |x| && x[k] == n {
        WithoutLength(n + 1, nmax, x, k + 1);
      } else {
        NotExcluded(x, k, n);
        WithoutLength(n + 1, nmax, x, k);
      }
    } else {
      assert k == |x|;
    }
  }

  lemma NotExcluded(x: seq<int>, k: nat, n: int)
    requires Increasing(x) && k <= |x| && (k < |x| ==> n < x[k]) && (k > 0 ==> x[k - 1] < n)
    ensures n !in x
  {
  }

  // ---------------------------------------------------------------------------------------
  // What the loop in place leaves out
  // ---------------------------------------------------------------------------------------

  /** The loop leaves out these numbers: while it fills the slot whose excluded number it still
      compares with, it overwrites that number. */
  function Skipped(e: seq<int>, offset: int): (x: seq<int>)
    ensures |x| == |e|
    ensures forall k :: 0 <= k < |e| ==> x[k] == if e[k] <= offset + 2 * k + 1 then e[k] else offset + 2 * k + 1
  {
    seq(|e|, k requires 0 <= k < |e| => if e[k] <= offset + 2 * k + 1 then e[k] else offset + 2 * k + 1)
  }

  /** Every excluded number comes early enough to be compared before it is overwritten. */
  predicate EarlyEnough(e: seq<int>, offset: int) {
    forall k :: 0 <= k < |e| ==> e[k] <= offset + 2 * k + 1
  }

  /** The numbers that are returned when `e` are the sorted draws. */
  function Chosen(size: nat, nmax: nat, e: seq<int>): seq<int> {
    if size > nmax / 2 then Without(0, nmax, Skipped(e, 2 * size - nmax)) else e
  }

  /** Whatever was drawn, the result is of the size asked for, ascending and within range. */
  lemma ChosenIsIncreasing(size: nat, nmax: nat, e: seq<int>)
    requires size <= nmax && Increasing(e) && Inside(e, nmax)
    requires |e| == if size > nmax / 2 then nmax - size else size
    ensures var r := Chosen(size, nmax, e); |r| == size && Increasing(r) && Inside(r, nmax)
  {
    if size > nmax / 2 {
      var x := Skipped(e, 2 * size - nmax);
      WithoutLength(0, nmax, x, 0);
      WithoutIsComplement(0, nmax, x);
      var r := Without(0, nmax, x);
      assert forall i :: 0 <= i < |r| ==> r[i] in r;
    }
  }

  /** The first number that comes too late: the loop leaves out another one in its place. */
  lemma LateOneIsMissed(e: seq<int>, offset: nat, nmax: nat, k: nat)
    requires Increasing(e) && Inside(e, nmax) && k < |e|
    requires forall j :: 0 <= j < k ==> e[j] <= offset + 2 * j + 1
    requires e[k] > offset + 2 * k + 1
    ensures Without(0, nmax, Skipped(e, offset)) != Without(0, nmax, e)
  {
    hide Without;
    var x := Skipped(e, offset);
    var late := offset + 2 * k + 1;
    assert x[k] == late;
    NotExcluded(e, k, late);
    WithoutIsComplement(0, nmax, x);
    WithoutIsComplement(0, nmax, e);
    assert late in Without(0, nmax, e);
    assert late !in Without(0, nmax, x);
  }

  /** The loop returns the complement of the excluded numbers exactly when each of them comes
      early enough. */
  lemma ComplementIff(size: nat, nmax: nat, e: seq<int>)
    requires nmax / 2 < size <= nmax && Increasing(e) && Inside(e, nmax) && |e| == nmax - size
    ensures Chosen(size, nmax, e) == Without(0, nmax, e) <==> EarlyEnough(e, 2 * size - nmax)
  {
    hide Without, Increasing, Inside;
    var offset := 2 * size - nmax;
    if EarlyEnough(e, offset) {
      assert Skipped(e, offset) == e;
    } else if Without(0, nmax, Skipped(e, offset)) == Without(0, nmax, e) {
      for k := 0 to |e|
        invariant forall j :: 0 <= j < k ==> e[j] <= offset + 2 * j + 1
      {
        if e[k] > offset + 2 * k + 1 {
          LateOneIsMissed(e, offset, nmax, k);
        }
      }
    }
  }

  lemma WithoutLastFour()
    ensures Without(0, 10, [6, 7, 8, 9]) == [0, 1, 2, 3, 4, 5]
  {
    assert Without(4, 10, [6, 7, 8, 9]) == [4, 5] by { assert Without(7, 10, [6, 7, 8, 9]) == []; }
  }

  lemma WithoutOddOnes()
    ensures Without(0, 10, [3, 5, 7, 9]) == [0, 1, 2, 4, 6, 8]
  {
    assert Without(4, 10, [3, 5, 7, 9]) == [4, 6, 8] by { assert Without(8, 10, [3, 5, 7, 9]) == [8]; }
  }

  /** Excluding the last four of ten numbers does not leave the first six. */
  lemma LateOnesAreMissed()
    ensures Without(0, 10, [6, 7, 8, 9]) == [0, 1, 2, 3, 4, 5]
    ensures Chosen(6, 10, [6, 7, 8, 9]) == [0, 1, 2, 4, 6, 8]
  {
    hide Without;
    WithoutLastFour();
    WithoutOddOnes();
    assert Skipped([6, 7, 8, 9], 2) == [3, 5, 7, 9];
  }

  // ---------------------------------------------------------------------------------------
  // What is drawn
  // ---------------------------------------------------------------------------------------

  function Elements(s: seq<int>): set<int> {
    set x | x in s
  }

  function Remainders(draws: seq<nat>, nmax: nat): set<int>
    requires nmax > 0
  {
    set i | 0 <= i < |draws| :: draws[i] % nmax
  }

  lemma RemaindersHead(draws: seq<nat>, nmax: nat, n: nat)
    requires nmax > 0 && draws != [] && n <= |draws| - 1
    ensures Remainders(draws[..n + 1], nmax) == {draws[0] % nmax} + Remainders(draws[1..][..n], nmax)
  {
    var all, rest := draws[..n + 1], draws[1..][..n];
    assert forall i :: 0 <= i < n ==> all[i + 1] == rest[i];
    forall x | x in Remainders(all, nmax)
      ensures x in {draws[0] % nmax} + Remainders(rest, nmax)
    {
      var i :| 0 <= i < |all| && all[i] % nmax == x;
      assert i > 0 ==> rest[i - 1] % nmax == x;
    }
    forall x | x in {draws[0] % nmax} + Remainders(rest, nmax)
      ensures x in Remainders(all, nmax)
    {
      if x in Remainders(rest, nmax) {
        var i :| 0 <= i < |rest| && rest[i] % nmax == x;
        assert all[i + 1] % nmax == x;
      } else {
        assert all[0] % nmax == x;
      }
    }
  }

  lemma {:induction false} DistinctCount(s: seq<int>)
    requires Distinct(s)
    ensures |Elements(s)| == |s|
    decreases |s|
  {
    if s != [] {
      DistinctCount(s[1..]);
      assert Elements(s) == {s[0]} + Elements(s[1..]);
      assert s[0] !in s[1..];
    }
  }

  lemma {:induction false} AcceptedAre(draws: seq<nat>, nmax: nat, count: nat, chosen: seq<int>) returns (n: nat)
    requires |chosen| <= count && nmax > 0
    requires Inside(chosen, nmax) && Distinct(chosen)
    ensures n <= |draws|
    ensures var a := Accepted(draws, nmax, count, chosen);
            if a.Some? then Elements(a.value) == Elements(chosen) + Remainders(draws[..n], nmax)
            else n == |draws| && |Elements(chosen) + Remainders(draws[..n], nmax)| < count
    decreases |draws|
  {
    hide Inside, Distinct, Elements, Remainders, Accepted;
    n := 0;
    NoRemainders(draws, nmax);
    AcceptedUnfold(draws, nmax, count, chosen);
    assert Elements(chosen) + {} == Elements(chosen);
    if |chosen| < count {
      if draws == [] {
        DistinctCount(chosen);
      } else {
        var v := draws[0] % nmax;
        var next := if v in chosen then chosen else chosen + [v];
        OneMoreDistinct(chosen, v, nmax);
        var k := AcceptedAre(draws[1..], nmax, count, next);
        n := k + 1;
        RemaindersHead(draws, nmax, k);
        MoveOver(Elements(chosen), v, Remainders(draws[1..][..k], nmax));
      }
    }
  }

  lemma OneMoreDistinct(s: seq<int>, v: int, nmax: nat)
    requires Inside(s, nmax) && Distinct(s) && 0 <= v < nmax
    ensures var next := if v in s then s else s + [v];
            Inside(next, nmax) && Distinct(next) && Elements(next) == Elements(s) + {v}
  {
  }

  lemma NoRemainders(draws: seq<nat>, nmax: nat)
    requires nmax > 0
    ensures Remainders(draws[..0], nmax) == {}
  {
  }

  lemma MoveOver(a: set<int>, v: int, b: set<int>)
    ensures a + ({v} + b) == a + {v} + b
  {
  }

  lemma {:induction false} AcceptedUnfold(draws: seq<nat>, nmax: nat, count: nat, chosen: seq<int>)
    requires |chosen| <= count && nmax > 0 && Inside(chosen, nmax) && Distinct(chosen)
    ensures Accepted(draws, nmax, count, chosen) ==
            if |chosen| == count then Some(chosen)
            else if draws == [] then None
            else
              var v := draws[0] % nmax;
              (OneMoreDistinct(chosen, v, nmax);
               Accepted(draws[1..], nmax, count, if v in chosen then chosen else chosen + [v]))
  {
    hide Inside, Distinct;
  }

  /** The draws last exactly when they have so many different remainders, and the numbers are then
      all the remainders of the first so many draws. */
  lemma AcceptedIff(draws: seq<nat>, nmax: nat, count: nat)
    requires nmax > 0
    ensures var a := Accepted(draws, nmax, count, []);
            && (a.Some? <==> |Remainders(draws, nmax)| >= count)
            && (a.Some? ==> |a.value| == count
                            && exists n :: 0 <= n <= |draws| && Elements(a.value) == Remainders(draws[..n], nmax))
  {
    var n := AcceptedAre(draws, nmax, count, []);
    var a := Accepted(draws, nmax, count, []);
    assert Elements([]) + Remainders(draws[..n], nmax) == Remainders(draws[..n], nmax);
    assert draws[..|draws|] == draws;
    if a.Some? {
      DistinctCount(a.value);
      SubsetCount(Remainders(draws[..n], nmax), Remainders(draws, nmax));
    }
  }

  lemma SubsetCount(a: set<int>, b: set<int>)
    requires a <= b
    ensures |a| <= |b|
  {
    assert b == a + (b - a);
  }

  /** Up to half of the range, the numbers returned are those that were drawn. */
  lemma PlainIsDrawn(size: nat, nmax: nat, a: seq<int>)
    requires 2 * size <= nmax && Distinct(a)
    ensures Elements(Chosen(size, nmax, Sorted(a))) == Elements(a)
  {
    SortedKeeps(a);
  }

  // ---------------------------------------------------------------------------------------
  // The function as it runs
  // ---------------------------------------------------------------------------------------

  /** Puts a part of an array in ascending order. */
  method SortPart(r: array<int>, from: nat, count: nat)
    requires from + count <= r.Length && Distinct(r[from..from + count])
    modifies r
    ensures r[from..from + count] == Sorted(old(r[from..from + count]))
    ensures forall k :: 0 <= k < r.Length && !(from <= k < from + count) ==> r[k] == old(r[k])
  {
    SortedKeeps(r[from..from + count]);
    var s := Sorted(r[from..from + count]);
    for k := 0 to count
      invariant forall q :: from <= q < from + k ==> r[q] == s[q - from]
      invariant forall q :: 0 <= q < r.Length && !(from <= q < from + count) ==> r[q] == old(r[q])
    {
      r[from + k] := s[k];
    }
  }

  /** Draws until `count` different numbers are stored behind `offset`; false when the draws do
      not last. */
  method Draw(r: array<int>, offset: nat, count: nat, nmax: nat, draws: seq<nat>) returns (ok: bool)
    requires offset + count <= r.Length && (nmax == 0 ==> count == 0)
    modifies r
    ensures var a := Accepted(draws, nmax, count, []);
            ok == a.Some? && (ok ==> r[offset..offset + count] == a.value)
  {
    var i, next := 0, 0;
    while i < count
      invariant i <= count && next <= |draws|
      invariant Inside(r[offset..offset + i], nmax) && Distinct(r[offset..offset + i])
      invariant Accepted(draws[next..], nmax, count, r[offset..offset + i]) == Accepted(draws, nmax, count, [])
      decreases |draws| - next
    {
      if next == |draws| {
        return false;
      }
      var v := draws[next] % nmax;
      ghost var chosen := r[offset..offset + i];
      assert draws[next..][1..] == draws[next + 1..];
      next := next + 1;
      var found := false;
      for j := 0 to i
        invariant found <==> v in chosen[..j]
      {
        assert chosen[..j + 1] == chosen[..j] + [r[offset + j]];
        if r[offset + j] == v {
          found := true;
        }
      }
      assert chosen[..i] == chosen;
      if found {
        continue;
      }
      r[offset + i] := v;
      i := i + 1;
      assert r[offset..offset + i] == chosen + [v];
    }
    ok := true;
  }

  lemma SkippedIncreasing(e: seq<int>, offset: nat, nmax: nat)
    requires Increasing(e) && Inside(e, nmax)
    ensures Increasing(Skipped(e, offset)) && Inside(Skipped(e, offset), nmax)
  {
  }

  /** A number that the inner loop writes is not left out. */
  lemma Kept(e: seq<int>, offset: nat, nmax: nat, k: nat, n: nat)
    requires Increasing(e) && Inside(e, nmax) && k <= |e|
    requires n < (if k < |e| then e[k] else nmax) && n <= offset + 2 * k
    requires k > 0 ==> Skipped(e, offset)[k - 1] < n
    ensures Without(n, nmax, Skipped(e, offset)) == [n] + Without(n + 1, nmax, Skipped(e, offset))
  {
    var x := Skipped(e, offset);
    SkippedIncreasing(e, offset, nmax);
    NotExcluded(x, k, n);
    assert k < |e| ==> n < e[k] < nmax;
  }

  /** The number at which the inner loop stops is left out. */
  lemma LeftOut(e: seq<int>, offset: nat, nmax: nat, k: nat, n: nat)
    requires Increasing(e) && Inside(e, nmax) && k <= |e|
    requires if k < |e| then n == Skipped(e, offset)[k] else n == nmax
    ensures Without(n, nmax, Skipped(e, offset)) == Without(n + 1, nmax, Skipped(e, offset))
  {
    assert k < |e| ==> n in Skipped(e, offset);
  }

  /** What holds between two rounds of the loop; `k` excluded numbers have been passed. */
  ghost predicate Between(r: seq<int>, size: nat, nmax: nat, offset: nat, e: seq<int>, i: nat, n: nat, k: nat) {
    && size < |r| && |e| == size - offset && nmax == 2 * size - offset
    && k <= |e| && n == i + k && i <= offset + k
    && n <= Limit(e, nmax, k)
    && (k > 0 ==> Skipped(e, offset)[k - 1] < n)
    && (forall q :: offset + k <= q < size ==> r[q] == e[q - offset]) && r[size] == nmax
  }

  /** The number that the inner loop runs up to unless it overwrites it. */
  function Limit(e: seq<int>, nmax: int, k: nat): int {
    if k < |e| then e[k] else nmax
  }

  /** What holds inside a round: `was` is the array at its start, `all` what it will hold. */
  ghost predicate Filling(r: seq<int>, was: seq<int>, size: nat, nmax: nat, offset: nat, e: seq<int>,
                          i: nat, n: nat, k: nat, all: seq<int>) {
    var j, limit := offset + k, Limit(e, nmax, k);
    && |r| == |was| && j <= size < |r| && k <= |e| == size - offset && nmax == 2 * size - offset
    && n == i + k && n <= limit && i <= size && i <= j + 1
    && (if i <= j then r[j] == limit else j < size && r[j] == n - 1)
    && (forall q :: j < q < |r| ==> r[q] == was[q])
    && (k > 0 ==> Skipped(e, offset)[k - 1] < n)
    && r[..i] + Without(n, nmax, Skipped(e, offset)) == all
  }

  lemma FillingStarts(r: seq<int>, size: nat, nmax: nat, offset: nat, e: seq<int>, i: nat, n: nat, k: nat)
    requires Between(r, size, nmax, offset, e, i, n, k) && 0 < offset <= size
    ensures i <= size < |r|
    ensures Filling(r, r, size, nmax, offset, e, i, n, k, r[..i] + Without(n, nmax, Skipped(e, offset)))
  {
    hide Skipped, Without;
    if k < |e| {
      assert r[offset + k] == e[k];
    }
  }

  lemma FillingNext(r: seq<int>, was: seq<int>, size: nat, nmax: nat, offset: nat, e: seq<int>,
                    i: nat, n: nat, k: nat, all: seq<int>)
    requires Increasing(e) && Inside(e, nmax) && 0 < offset <= size
    requires Filling(r, was, size, nmax, offset, e, i, n, k, all) && n < r[offset + k]
    ensures i < |r| && Filling(r[i := n], was, size, nmax, offset, e, i + 1, n + 1, k, all)
  {
    hide Skipped, Without, Increasing, Inside;
    Kept(e, offset, nmax, k, n);
    var rest := Without(n + 1, nmax, Skipped(e, offset));
    assert r[..i] + ([n] + rest) == r[..i] + [n] + rest;
    assert r[i := n][..i + 1] == r[..i] + [n];
  }

  lemma FillingEnds(r: seq<int>, was: seq<int>, size: nat, nmax: nat, offset: nat, e: seq<int>,
                    i0: nat, n0: nat, i: nat, n: nat, k: nat, all: seq<int>)
    requires Increasing(e) && Inside(e, nmax) && 0 < offset <= size
    requires Between(was, size, nmax, offset, e, i0, n0, k)
    requires Filling(r, was, size, nmax, offset, e, i, n, k, all) && n >= r[offset + k]
    ensures i < size ==> offset + k < size && Between(r, size, nmax, offset, e, i, n + 1, k + 1)
    ensures r[..i] + Without(n + 1, nmax, Skipped(e, offset)) == all
  {
    hide Without, Increasing, Inside;
    LeftOut(e, offset, nmax, k, n);
    if k < |e| {
      RoundFollows(e, offset, nmax, k, n);
    }
  }

  /** The inner loop. It writes no slot behind the slot compared with. */
  method FillRound(r: array<int>, size: nat, nmax: nat, offset: nat, i0: nat, j: nat, n0: nat, ghost e: seq<int>, ghost k: nat)
    returns (i: nat, n: nat)
    requires Increasing(e) && Inside(e, nmax) && j == offset + k && 0 < offset <= size
    requires Between(r[..], size, nmax, offset, e, i0, n0, k)
    modifies r
    ensures i <= j + 1 && forall q :: j < q < r.Length ==> r[q] == old(r[q])
    ensures i <= size && (i < size ==> j < size && Between(r[..], size, nmax, offset, e, i, n + 1, k + 1))
    ensures r[..i] + Without(n + 1, nmax, Skipped(e, offset)) == old(r[..i0]) + Without(n0, nmax, Skipped(e, offset))
  {
    hide Between, Increasing, Inside, Without, Skipped;
    i, n := i0, n0;
    ghost var was := r[..];
    FillingStarts(was, size, nmax, offset, e, i, n, k);
    ghost var all := was[..i] + Without(n, nmax, Skipped(e, offset));
    assert r[..i] == was[..i];
    while n < r[j]
      invariant Filling(r[..], was, size, nmax, offset, e, i, n, k, all)
      decreases Limit(e, nmax, k) - n
    {
      ghost var before := r[..];
      FillingNext(before, was, size, nmax, offset, e, i, n, k, all);
      r[i] := n;
      assert r[..] == before[i := n];
      i := i + 1;
      n := n + 1;
    }
    FillingEnds(r[..], was, size, nmax, offset, e, i0, n0, i, n, k, all);
    assert r[..i] == r[..][..i];
  }

  /** Fills the array from the front with the numbers that are not left out. The excluded
      numbers are behind `offset` in the same array, and the last slot holds the end of the
      range. */
  method FillInPlace(r: array<int>, size: nat, nmax: nat, offset: nat, ghost e: seq<int>)
    requires size < r.Length && 0 < offset <= size && nmax == 2 * size - offset
    requires Increasing(e) && Inside(e, nmax) && |e| == size - offset
    requires (forall q :: offset <= q < size ==> r[q] == e[q - offset]) && r[size] == nmax
    modifies r
    ensures r[..size] == Without(0, nmax, Skipped(e, offset))
  {
    ghost var x := Skipped(e, offset);
    ghost var all := Without(0, nmax, x);
    SkippedIncreasing(e, offset, nmax);
    WithoutLength(0, nmax, x, 0);
    var i: nat, j: nat, n: nat := 0, offset, 0;
    ghost var k: nat := 0;
    var more := true;
    while more
      invariant j == offset + k && i <= size && (more <==> i < size) && (more ==> j <= size)
      invariant more ==> Between(r[..], size, nmax, offset, e, i, n, k)
      invariant r[..i] + Without(n, nmax, x) == all
      decreases size + 1 - j
    {
      hide Without, Skipped, Between, Increasing, Inside;
      i, n := FillRound(r, size, nmax, offset, i, j, n, e, k);
      j := j + 1;
      n := n + 1;
      k := k + 1;
      more := i < size;
    }
    assert |r[..i] + Without(n, nmax, x)| == size;
    assert r[..size] == r[..i] == all;
  }

  lemma RoundFollows(e: seq<int>, offset: nat, nmax: nat, k: nat, n: nat)
    requires Increasing(e) && Inside(e, nmax) && k < |e| && n == Skipped(e, offset)[k]
    ensures n + 1 <= Limit(e, nmax, k + 1)
  {
  }

  lemma SortedInside(s: seq<int>, nmax: nat)
    requires Distinct(s) && Inside(s, nmax)
    ensures |Sorted(s)| == |s| && Increasing(Sorted(s)) && Inside(Sorted(s), nmax)
  {
    SortedKeeps(s);
    var r := Sorted(s);
    assert forall k :: 0 <= k < |r| ==> r[k] in r;
  }

  lemma SliceAt(s: seq<int>, from: nat, to: nat, e: seq<int>)
    requires from <= to <= |s| && s[from..to] == e
    ensures forall q :: from <= q < to ==> s[q] == e[q - from]
  {
    assert forall q :: from <= q < to ==> s[q] == s[from..to][q - from];
  }

  /** The array that is returned has one slot more than asked for. Nothing is returned when the
      draws do not last. */
  method RandArray(size: nat, nmax: nat, draws: seq<nat>) returns (r: array<int>, ok: bool)
    requires size <= nmax
    ensures fresh(r) && r.Length == size + 1
    ensures var inverted := size > nmax / 2;
            var a := Accepted(draws, nmax, if inverted then nmax - size else size, []);
            ok == a.Some? && (ok ==> r[..size] == Chosen(size, nmax, Sorted(a.value)))
  {
    hide Accepted, Sorted, Without, Skipped, Distinct, Increasing, Inside;
    r := new int[size + 1];
    var offset, count := 0, size;
    if count > nmax / 2 {
      count := nmax - count;
      offset := size - count;
    }
    ok := Draw(r, offset, count, nmax, draws);
    if !ok {
      return;
    }
    ghost var e := Sorted(r[offset..offset + count]);
    SortedInside(r[offset..offset + count], nmax);
    SortPart(r, offset, count);
    if offset > 0 {
      assert r[offset..size] == e;
      r[size] := nmax;
      assert r[offset..size] == e;
      SliceAt(r[..], offset, size, e);
      FillInPlace(r, size, nmax, offset, e);
    } else {
      assert r[..size] == e;
    }
  }
}
