/** The largest product over all contiguous parts of a list of integers. */
module MaxProduct {
  import opened Basics

  /** A part of the list: its first and its last index. */
  datatype Range = Range(first: nat, last: nat)

  /** A product and the part that has it. */
  datatype Candidate = Candidate(value: int, range: Range)

  function Product(nums: seq<int>, first: nat, last: nat): int
    requires first <= last < |nums|
    decreases last
  {
    if first == last then nums[last] else Product(nums, first, last - 1) * nums[last]
  }

  /** The order of tuples: by value, then by first index, then by last index. */
  predicate NotAfter(a: Candidate, b: Candidate) {
    a.value < b.value ||
    (a.value == b.value &&
     (a.range.first < b.range.first || (a.range.first == b.range.first && a.range.last <= b.range.last)))
  }

  function Lesser(a: Candidate, b: Candidate): Candidate {
    if NotAfter(a, b) then a else b
  }

  function Greater(a: Candidate, b: Candidate): Candidate {
    if NotAfter(a, b) then b else a
  }

  /** The first and the last of three candidates put in order. */
  function Outer(a: Candidate, b: Candidate, c: Candidate): (r: (Candidate, Candidate)) {
    (Lesser(Lesser(a, b), c), Greater(Greater(a, b), c))
  }

  lemma OuterBounds(a: Candidate, b: Candidate, c: Candidate)
    ensures var (least, greatest) := Outer(a, b, c);
            && (least == a || least == b || least == c)
            && (greatest == a || greatest == b || greatest == c)
            && NotAfter(least, a) && NotAfter(least, b) && NotAfter(least, c)
            && NotAfter(a, greatest) && NotAfter(b, greatest) && NotAfter(c, greatest)
  {
  }

  predicate Has(nums: seq<int>, c: Candidate, last: nat) {
    c.range.first <= c.range.last == last < |nums| && c.value == Product(nums, c.range.first, last)
  }

  /** A number between two others, times a factor, lies between their products with it. */
  lemma TimesBetween(low: int, p: int, high: int, x: int)
    requires low <= p <= high
    ensures low * x <= p * x <= high * x || high * x <= p * x <= low * x
  {
    if x >= 0 {
      assert low * x <= p * x;
      assert p * x <= high * x;
    } else {
      assert high * x <= p * x;
      assert p * x <= low * x;
    }
  }

  /** Bounds of the products of all parts that end at an index. */
  predicate Bounds(nums: seq<int>, last: nat, low: int, high: int)
    requires last < |nums|
  {
    forall a :: 0 <= a <= last ==> low <= Product(nums, a, last) <= high
  }

  /** The bounds at an index follow from those at the index before. */
  lemma NextBounds(nums: seq<int>, i: nat, mn: int, mx: int, least: int, greatest: int)
    requires 0 < i < |nums| && Bounds(nums, i - 1, mn, mx)
    requires least <= nums[i] <= greatest && least <= nums[i] * mx <= greatest && least <= nums[i] * mn <= greatest
    ensures Bounds(nums, i, least, greatest)
  {
    forall a | 0 <= a <= i
      ensures least <= Product(nums, a, i) <= greatest
    {
      if a < i {
        TimesBetween(mn, Product(nums, a, i - 1), mx, nums[i]);
      }
    }
  }

  /** One round of the loop. */
  lemma Round(nums: seq<int>, i: nat, mn: Candidate, mx: Candidate)
    requires 0 < i < |nums| && Has(nums, mn, i - 1) && Has(nums, mx, i - 1)
    requires Bounds(nums, i - 1, mn.value, mx.value)
    ensures var (least, greatest) := Outer(Candidate(nums[i], Range(i, i)),
                                           Candidate(nums[i] * mx.value, Range(mx.range.first, i)),
                                           Candidate(nums[i] * mn.value, Range(mn.range.first, i)));
            Has(nums, least, i) && Has(nums, greatest, i) && Bounds(nums, i, least.value, greatest.value)
  {
    hide Outer, Bounds;
    var alone := Candidate(nums[i], Range(i, i));
    var up := Candidate(nums[i] * mx.value, Range(mx.range.first, i));
    var down := Candidate(nums[i] * mn.value, Range(mn.range.first, i));
    OuterBounds(alone, up, down);
    Extended(nums, mx, i);
    Extended(nums, mn, i);
    var (least, greatest) := Outer(alone, up, down);
    NextBounds(nums, i, mn.value, mx.value, least.value, greatest.value);
  }

  lemma Extended(nums: seq<int>, c: Candidate, i: nat)
    requires 0 < i < |nums| && Has(nums, c, i - 1)
    ensures Has(nums, Candidate(nums[i] * c.value, Range(c.range.first, i)), i)
  {
  }

  /** No part has a larger product than the result, and the recorded part has it. There is no
      result for the empty list. */
  method MaxProduct(nums: seq<int>) returns (z: Option<Candidate>)
    ensures z.None? <==> nums == []
    ensures z.Some? ==> Has(nums, z.value, z.value.range.last)
    ensures z.Some? ==> forall a, b :: 0 <= a <= b < |nums| ==> Product(nums, a, b) <= z.value.value
  {
    if nums == [] {
      return None;
    }
    var best := Candidate(nums[0], Range(0, 0));
    var mx, mn := best, best;
    for i := 1 to |nums|
      invariant Has(nums, mx, i - 1) && Has(nums, mn, i - 1)
      invariant Bounds(nums, i - 1, mn.value, mx.value)
      invariant best.range.last < i && Has(nums, best, best.range.last)
      invariant forall a, b :: 0 <= a <= b < i ==> Product(nums, a, b) <= best.value
    {
      hide Outer, Product;
      Round(nums, i, mn, mx);
      var s := Outer(Candidate(nums[i], Range(i, i)),
                     Candidate(nums[i] * mx.value, Range(mx.range.first, i)),
                     Candidate(nums[i] * mn.value, Range(mn.range.first, i)));
      mn := s.0;
      mx := s.1;
      if mx.value > best.value {
        best := mx;
      }
    }
    z := Some(best);
  }
}
