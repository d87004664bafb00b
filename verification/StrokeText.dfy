/** Strokes as the path text of an SVG file: the writer with its carried rounding errors, and the
    reader. Coordinates are real numbers; a grid unit is one unit of the written text. */
module StrokeText {
  import opened Basics

  datatype Point = Point(x: real, y: real)

  /** The way from one written point to the next. */
  datatype Delta = Delta(x: Int32, y: Int32)

  /** What a path text says. */
  datatype Path = Path(x: Int32, y: Int32, deltas: seq<Delta>)

  const MAX_INT: int := 0x7fff_ffff
  const MIN_INT: int := -0x8000_0000

  // ---------------------------------------------------------------------------------------
  // Rounding
  // ---------------------------------------------------------------------------------------

  /** To the nearest integer, halves upwards, stopping at the limits of 32 bits. */
  function Round(v: real): Int32 {
    var n := (v + 0.5).Floor;
    if n > MAX_INT then MAX_INT else if n < MIN_INT then MIN_INT else n
  }

  predicate Within(v: real, bound: real) {
    -bound <= v <= bound
  }

  predicate Near(a: Point, b: Point, bound: real) {
    Within(a.x - b.x, bound) && Within(a.y - b.y, bound)
  }

  /** Rounding does not stop at a limit. */
  predicate Fits(v: real) {
    MIN_INT <= (v + 0.5).Floor <= MAX_INT
  }

  lemma FitsIff(v: real)
    ensures -0.5 <= v - Round(v) as real < 0.5 <==> Fits(v)
  {
    var n := (v + 0.5).Floor;
    assert n as real <= v + 0.5 < n as real + 1.0;
  }

  lemma RoundInteger(n: Int32)
    ensures Round(n as real) == n
  {
    assert (n as real + 0.5).Floor == n;
  }

  // ---------------------------------------------------------------------------------------
  // Deltas
  // ---------------------------------------------------------------------------------------

  function Scaled(p: Point, scale: real): Point {
    Point(p.x * scale, p.y * scale)
  }

  function ScaledAll(ps: seq<Point>, scale: real): (r: seq<Point>)
    ensures |r| == |ps| && forall i :: 0 <= i < |ps| ==> r[i] == Scaled(ps[i], scale)
  {
    seq(|ps|, i requires 0 <= i < |ps| => Scaled(ps[i], scale))
  }

  /** The way to the next grid point and the rounding error that is left so far. */
  function Sum(from: Point, error: Point, to: Point): Point {
    Point(to.x - from.x + error.x, to.y - from.y + error.y)
  }

  function Rounded(p: Point): Delta {
    Delta(Round(p.x), Round(p.y))
  }

  function Remainder(p: Point): Point {
    Point(p.x - Round(p.x) as real, p.y - Round(p.y) as real)
  }

  /** The deltas of a stroke in grid units, with the error carried from each to the next. */
  function Deltas(from: Point, error: Point, rest: seq<Point>): (r: seq<Delta>)
    ensures |r| == |rest|
    decreases |rest|
  {
    if rest == [] then []
    else
      var sum := Sum(from, error, rest[0]);
      [Rounded(sum)] + Deltas(rest[0], Remainder(sum), rest[1..])
  }

  /** The path that is written for a stroke. */
  function Saved(points: seq<Point>, scale: real): Path
    requires points != []
  {
    var grid := ScaledAll(points, scale);
    Path(Round(grid[0].x), Round(grid[0].y), Deltas(grid[0], Point(0.0, 0.0), grid[1..]))
  }

  function Moved(at: Point, d: Delta, scale: real): Point
    requires scale != 0.0
  {
    Point(at.x + d.x as real / scale, at.y + d.y as real / scale)
  }

  function Follow(at: Point, deltas: seq<Delta>, scale: real): (r: seq<Point>)
    requires scale != 0.0
    ensures |r| == |deltas|
    decreases |deltas|
  {
    if deltas == [] then []
    else [Moved(at, deltas[0], scale)] + Follow(Moved(at, deltas[0], scale), deltas[1..], scale)
  }

  /** The stroke that a path is loaded as; `origin` is the translation of the enclosing group. */
  function Loaded(path: Path, origin: Point, scale: real): (r: seq<Point>)
    requires scale != 0.0
    ensures |r| == 1 + |path.deltas|
  {
    var first := Point((origin.x + path.x as real) / scale, (origin.y + path.y as real) / scale);
    [first] + Follow(first, path.deltas, scale)
  }

  // ---------------------------------------------------------------------------------------
  // How far points move
  // ---------------------------------------------------------------------------------------

  /** The error that is left after each delta. */
  function Carried(from: Point, error: Point, rest: seq<Point>): (r: seq<Point>)
    ensures |r| == |rest|
    decreases |rest|
  {
    if rest == [] then []
    else
      var left := Remainder(Sum(from, error, rest[0]));
      [left] + Carried(rest[0], left, rest[1..])
  }

  /** The error of the first point, which is dropped, and those carried along the deltas. */
  function Errors(points: seq<Point>, scale: real): (r: seq<Point>)
    requires points != []
    ensures |r| == |points|
  {
    var grid := ScaledAll(points, scale);
    [Remainder(grid[0])] + Carried(grid[0], Point(0.0, 0.0), grid[1..])
  }

  predicate Halved(error: Point) {
    -0.5 <= error.x < 0.5 && -0.5 <= error.y < 0.5
  }

  predicate AllHalved(errors: seq<Point>) {
    forall k :: 0 <= k < |errors| ==> Halved(errors[k])
  }

  predicate DeltasFit(from: Point, error: Point, rest: seq<Point>)
    decreases |rest|
  {
    rest != [] ==>
      var sum := Sum(from, error, rest[0]);
      Fits(sum.x) && Fits(sum.y) && DeltasFit(rest[0], Remainder(sum), rest[1..])
  }

  /** No number that is written for a stroke stops at a limit of 32 bits. */
  predicate NoneSaturates(points: seq<Point>, scale: real)
    requires points != []
  {
    var grid := ScaledAll(points, scale);
    Fits(grid[0].x) && Fits(grid[0].y) && DeltasFit(grid[0], Point(0.0, 0.0), grid[1..])
  }

  /** No two neighbours are too far apart for a delta of 32 bits. */
  predicate Steady(from: Point, rest: seq<Point>)
    decreases |rest|
  {
    rest != [] ==> Near(rest[0], from, MAX_INT as real - 1.0) && Steady(rest[0], rest[1..])
  }

  /** The first point and all steps of a stroke stay within 32 bits. */
  predicate InRange(points: seq<Point>, scale: real)
    requires points != []
  {
    var grid := ScaledAll(points, scale);
    Near(grid[0], Point(0.0, 0.0), MAX_INT as real - 1.0) && Steady(grid[0], grid[1..])
  }

  lemma HalvedIff(p: Point)
    ensures Halved(Remainder(p)) <==> Fits(p.x) && Fits(p.y)
  {
    hide Round, Fits;
    FitsIff(p.x);
    FitsIff(p.y);
  }

  lemma {:induction false} CarriedHalvedIff(from: Point, error: Point, rest: seq<Point>)
    ensures AllHalved(Carried(from, error, rest)) <==> DeltasFit(from, error, rest)
    decreases |rest|
  {
    hide Fits, Halved, AllHalved, Remainder, Sum;
    NoneHalved();
    if rest != [] {
      var sum := Sum(from, error, rest[0]);
      HalvedIff(sum);
      CarriedHalvedIff(rest[0], Remainder(sum), rest[1..]);
      HeadAndTailHalved(Remainder(sum), Carried(rest[0], Remainder(sum), rest[1..]));
    }
  }

  lemma NoneHalved()
    ensures AllHalved([])
  {
  }

  lemma HeadAndTailHalved(e: Point, es: seq<Point>)
    ensures AllHalved([e] + es) <==> Halved(e) && AllHalved(es)
  {
    hide Halved;
    var all := [e] + es;
    assert all[0] == e && forall k :: 0 <= k < |es| ==> all[k + 1] == es[k];
  }

  /** All rounding errors of a stroke stay within half a grid unit exactly when no written number
      stops at a limit. */
  lemma ErrorsHalvedIff(points: seq<Point>, scale: real)
    requires points != []
    ensures AllHalved(Errors(points, scale)) <==> NoneSaturates(points, scale)
  {
    hide Fits, Halved, AllHalved, Remainder, DeltasFit, Carried;
    var grid := ScaledAll(points, scale);
    var carried := Carried(grid[0], Point(0.0, 0.0), grid[1..]);
    HalvedIff(grid[0]);
    CarriedHalvedIff(grid[0], Point(0.0, 0.0), grid[1..]);
    HeadAndTailHalved(Remainder(grid[0]), carried);
    assert Errors(points, scale) == [Remainder(grid[0])] + carried;
  }

  lemma {:induction false} SteadyFits(from: Point, error: Point, rest: seq<Point>)
    requires Steady(from, rest) && Within(error.x, 0.5) && Within(error.y, 0.5)
    ensures DeltasFit(from, error, rest)
    decreases |rest|
  {
    hide Round;
    if rest != [] {
      var sum := Sum(from, error, rest[0]);
      HalvedIff(sum);
      SteadyFits(rest[0], Remainder(sum), rest[1..]);
    }
  }

  /** A test on the points alone under which nothing stops at a limit. */
  lemma InRangeFits(points: seq<Point>, scale: real)
    requires points != [] && InRange(points, scale)
    ensures NoneSaturates(points, scale)
  {
    hide Round, Steady, DeltasFit;
    var grid := ScaledAll(points, scale);
    SteadyFits(grid[0], Point(0.0, 0.0), grid[1..]);
  }

  lemma ScaleMoved(at: Point, d: Delta, scale: real)
    requires scale != 0.0
    ensures Scaled(Moved(at, d, scale), scale) ==
            Point(Scaled(at, scale).x + d.x as real, Scaled(at, scale).y + d.y as real)
  {
    assert d.x as real / scale * scale == d.x as real;
    assert d.y as real / scale * scale == d.y as real;
    assert (at.x + d.x as real / scale) * scale == at.x * scale + d.x as real / scale * scale;
    assert (at.y + d.y as real / scale) * scale == at.y * scale + d.y as real / scale * scale;
  }

  /** A step of the writer and the step of the reader that answers it: what the reader is off by
      and what the writer carries keep the same sum. */
  lemma StepKeepsOffset(from: Point, error: Point, to: Point, at: Point, scale: real)
    requires scale != 0.0
    ensures var sum := Sum(from, error, to);
            var g, h := Scaled(at, scale), Scaled(Moved(at, Rounded(sum), scale), scale);
            && h.x - to.x + Remainder(sum).x == g.x - from.x + error.x
            && h.y - to.y + Remainder(sum).y == g.y - from.y + error.y
  {
    hide Round, Scaled, Moved;
    ScaleMoved(at, Rounded(Sum(from, error, to)), scale);
  }

  /** The difference of two points and an error make up an offset. */
  predicate Apart(g: Point, p: Point, error: Point, offset: Point) {
    g.x - p.x + error.x == offset.x && g.y - p.y + error.y == offset.y
  }

  lemma {:induction false} FollowOffset(from: Point, error: Point, rest: seq<Point>, at: Point, scale: real, offset: Point)
    requires scale != 0.0 && Apart(Scaled(at, scale), from, error, offset)
    ensures var r := Follow(at, Deltas(from, error, rest), scale);
            forall k :: 0 <= k < |rest| ==> Apart(Scaled(r[k], scale), rest[k], Carried(from, error, rest)[k], offset)
    decreases |rest|
  {
    hide Scaled, Moved, Sum, Rounded, Remainder;
    if rest != [] {
      var sum := Sum(from, error, rest[0]);
      var next := Moved(at, Rounded(sum), scale);
      StepKeepsOffset(from, error, rest[0], at, scale);
      FollowOffset(rest[0], Remainder(sum), rest[1..], next, scale, offset);
      var ds := Deltas(from, error, rest);
      assert ds[0] == Rounded(sum) && ds[1..] == Deltas(rest[0], Remainder(sum), rest[1..]);
      var r, es := Follow(at, ds, scale), Carried(from, error, rest);
      assert r == [next] + Follow(next, ds[1..], scale);
      assert es == [Remainder(sum)] + Carried(rest[0], Remainder(sum), rest[1..]);
      forall k | 0 <= k < |rest|
        ensures Apart(Scaled(r[k], scale), rest[k], es[k], offset)
      {
        hide Apart;
        if k > 0 {
          assert r[k] == Follow(next, ds[1..], scale)[k - 1] && rest[k] == rest[1..][k - 1];
          assert es[k] == Carried(rest[0], Remainder(sum), rest[1..])[k - 1];
        }
      }
    }
  }

  function Opposite(p: Point): Point {
    Point(-p.x, -p.y)
  }

  /** Saving and loading moves the first point by its rounding error, and every other point by
      that error and the one carried to it; nothing adds up along the stroke. */
  lemma LoadedMovesByErrors(points: seq<Point>, scale: real)
    requires points != [] && scale != 0.0
    ensures var r, es := Loaded(Saved(points, scale), Point(0.0, 0.0), scale), Errors(points, scale);
            && |r| == |points|
            && Apart(Scaled(r[0], scale), Scaled(points[0], scale), es[0], Point(0.0, 0.0))
            && forall k :: 1 <= k < |points| ==>
                 Apart(Scaled(r[k], scale), Scaled(points[k], scale), es[k], Opposite(es[0]))
  {
    hide Round, Deltas, Follow, Carried;
    var grid := ScaledAll(points, scale);
    var path, es := Saved(points, scale), Errors(points, scale);
    var r := Loaded(path, Point(0.0, 0.0), scale);
    assert Scaled(r[0], scale) == Point(path.x as real, path.y as real);
    assert Apart(Scaled(r[0], scale), grid[0], Point(0.0, 0.0), Opposite(es[0]));
    FollowOffset(grid[0], Point(0.0, 0.0), grid[1..], r[0], scale, Opposite(es[0]));
    forall k | 1 <= k < |points|
      ensures Apart(Scaled(r[k], scale), Scaled(points[k], scale), es[k], Opposite(es[0]))
    {
      hide Apart, Scaled;
      assert r[k] == Follow(r[0], path.deltas, scale)[k - 1] && grid[k] == grid[1..][k - 1];
      assert es[k] == Carried(grid[0], Point(0.0, 0.0), grid[1..])[k - 1];
    }
  }

  /** A point that is a shift away from another. */
  predicate Shifted(p: Point, from: Point, shift: Point) {
    p == Point(from.x + shift.x, from.y + shift.y)
  }

  predicate AllShifted(ps: seq<Point>, from: seq<Point>, shift: Point) {
    |ps| == |from| && forall k :: 0 <= k < |ps| ==> Shifted(ps[k], from[k], shift)
  }

  lemma HeadAndTailShifted(p: Point, q: Point, ps: seq<Point>, qs: seq<Point>, shift: Point)
    requires Shifted(p, q, shift) && AllShifted(ps, qs, shift)
    ensures AllShifted([p] + ps, [q] + qs, shift)
  {
    hide Shifted;
  }

  lemma {:induction false} FollowShifts(from: Point, at: Point, shift: Point, deltas: seq<Delta>, scale: real)
    requires scale != 0.0 && Shifted(from, at, shift)
    ensures AllShifted(Follow(from, deltas, scale), Follow(at, deltas, scale), shift)
    decreases |deltas|
  {
    hide AllShifted;
    if deltas == [] {
      NoneShifted(shift);
    } else {
      var m, m0, rest := Moved(from, deltas[0], scale), Moved(at, deltas[0], scale), deltas[1..];
      assert Shifted(m, m0, shift);
      FollowShifts(m, m0, shift, rest, scale);
      HeadAndTailShifted(m, m0, Follow(m, rest, scale), Follow(m0, rest, scale), shift);
    }
  }

  lemma NoneShifted(shift: Point)
    ensures AllShifted([], [], shift)
  {
  }

  lemma Quotients(a: real, b: real, scale: real)
    requires scale != 0.0
    ensures (a + b) / scale == (0.0 + b) / scale + a / scale
  {
  }

  /** The translation of the enclosing group shifts the whole stroke by so many grid units. */
  lemma LoadedShifts(path: Path, origin: Point, scale: real)
    requires scale != 0.0
    ensures AllShifted(Loaded(path, origin, scale), Loaded(path, Point(0.0, 0.0), scale),
                       Point(origin.x / scale, origin.y / scale))
  {
    hide Follow, AllShifted;
    var shift := Point(origin.x / scale, origin.y / scale);
    var p := Point((origin.x + path.x as real) / scale, (origin.y + path.y as real) / scale);
    var q := Point((0.0 + path.x as real) / scale, (0.0 + path.y as real) / scale);
    Quotients(origin.x, path.x as real, scale);
    Quotients(origin.y, path.y as real, scale);
    assert Shifted(p, q, shift);
    FollowShifts(p, q, shift, path.deltas, scale);
    HeadAndTailShifted(p, q, Follow(p, path.deltas, scale), Follow(q, path.deltas, scale), shift);
  }

  /** However long a stroke is, saving and loading it moves no point by more than one grid unit
      along either axis, as long as no written number stops at a limit. */
  lemma LoadedStaysNear(points: seq<Point>, scale: real)
    requires points != [] && scale != 0.0 && NoneSaturates(points, scale)
    ensures var r := Loaded(Saved(points, scale), Point(0.0, 0.0), scale);
            && |r| == |points|
            && forall k :: 0 <= k < |points| ==> Near(Scaled(r[k], scale), Scaled(points[k], scale), 1.0)
  {
    hide Saved, Loaded, Scaled, NoneSaturates, Errors;
    LoadedMovesByErrors(points, scale);
    ErrorsHalvedIff(points, scale);
    var r, es := Loaded(Saved(points, scale), Point(0.0, 0.0), scale), Errors(points, scale);
    forall k | 0 <= k < |points|
      ensures Near(Scaled(r[k], scale), Scaled(points[k], scale), 1.0)
    {
      assert Halved(es[0]) && Halved(es[k]);
    }
  }

  /** Beyond 32 bits the bound fails. */
  lemma FarPointMoves()
    ensures var far := [Point(0x8000_0001 as real, 0.0)];
            !Near(Loaded(Saved(far, 1.0), Point(0.0, 0.0), 1.0)[0], far[0], 1.0)
  {
    assert (0x8000_0001 as real + 0.5).Floor == 0x8000_0001;
  }

  // ---------------------------------------------------------------------------------------
  // The text of a path
  // ---------------------------------------------------------------------------------------

  function NumberText(n: Int32): (s: string)
    ensures s != "" && (s[0] == '-' <==> n < 0)
    ensures AllDigits(s[1..]) && (IsDigit(s[0]) || s[0] == '-')
  {
    var v: int := n;
    if v < 0 then
      assert ("-" + DigitsText(-v))[1..] == DigitsText(-v);
      "-" + DigitsText(-v)
    else
      assert IsDigit(DigitsText(v)[0]);
      DigitsText(v)
  }

  /** A minus sign separates as well as a space does. */
  function Separated(n: Int32): (s: string)
    ensures s != "" && (s[0] == ' ' || s[0] == '-')
  {
    if NumberText(n)[0] == '-' then NumberText(n) else " " + NumberText(n)
  }

  function DeltasText(deltas: seq<Delta>): (s: string)
    ensures s == "" || s[0] == ' ' || s[0] == '-'
    decreases |deltas|
  {
    if deltas == [] then ""
    else Separated(deltas[0].x) + (Separated(deltas[0].y) + DeltasText(deltas[1..]))
  }

  function PathText(path: Path): string {
    "M" + (NumberText(path.x) + (" " + (NumberText(path.y) + ("l" + DeltasText(path.deltas)))))
  }

  /** One path in full: a space before a number that has no sign, and none before a minus. */
  lemma SamplePathText()
    ensures PathText(Path(1, -2, [Delta(3, -4)])) == "M1 -2l 3-4"
  {
    hide DeltasText, DigitsText;
    SampleDeltas();
    OneDigitTexts();
    assert "M" + ("1" + (" " + ("-2" + ("l" + " 3-4")))) == "M1 -2l 3-4";
  }

  lemma OneDigitTexts()
    ensures DigitsText(1) == "1" && DigitsText(2) == "2" && DigitsText(3) == "3" && DigitsText(4) == "4"
  {
  }

  lemma SampleDeltas()
    ensures DeltasText([Delta(3, -4)]) == " 3-4"
  {
    hide DigitsText;
    OneDigitTexts();
    assert [Delta(3, -4)][1..] == [];
    assert DeltasText([]) == "";
    assert " 3" + ("-4" + "") == " 3-4";
  }

  // ---------------------------------------------------------------------------------------
  // Reading the text
  // ---------------------------------------------------------------------------------------

  /** An optional sign and digits, within 32 bits; anything else is refused. */
  function ParseInt(s: string): Option<Int32> {
    var digits := if s != "" && (s[0] == '-' || s[0] == '+') then s[1..] else s;
    if digits == "" || !AllDigits(digits) then None
    else
      var size: int := Digits(digits);
      var n := if s[0] == '-' then -size else size;
      if MIN_INT <= n <= MAX_INT then Some(n) else None
  }

  /** How many characters precede the first `c`. */
  function UpTo(t: string, c: char): (n: nat)
    ensures n <= |t| && (n < |t| ==> t[n] == c)
    ensures forall i :: 0 <= i < n ==> t[i] != c
    decreases |t|
  {
    if t == "" || t[0] == c then 0 else 1 + UpTo(t[1..], c)
  }

  function Drop(t: string, n: nat): string {
    if n <= |t| then t[n..] else ""
  }

  /** The length of a text up to the next space or minus sign. */
  function Stretch(t: string): (n: nat)
    ensures n <= |t| && (n < |t| ==> t[n] == ' ' || t[n] == '-')
    ensures forall i :: 0 <= i < n ==> t[i] != ' ' && t[i] != '-'
    decreases |t|
  {
    if t == "" || t[0] == ' ' || t[0] == '-' then 0 else 1 + Stretch(t[1..])
  }

  datatype Number = Number(value: Int32, rest: string)

  /** One number of a delta: a space is skipped, and the first character belongs to the number
      whatever it is. */
  function ReadNumber(t: string): (r: Option<Number>)
    ensures r.Some? ==> |r.value.rest| < |t|
  {
    var u := if t != "" && t[0] == ' ' then t[1..] else t;
    if u == "" then None
    else
      var n := 1 + Stretch(u[1..]);
      var value := ParseInt(u[..n]);
      if value.None? then None else Some(Number(value.value, u[n..]))
  }

  /** The deltas of a text; nothing when the reader throws. */
  function ReadDeltas(t: string): Option<seq<Delta>>
    decreases |t|
  {
    if t == "" then Some([])
    else
      var x := ReadNumber(t);
      if x.None? then None
      else
        var y := ReadNumber(x.value.rest);
        if y.None? then None
        else
          var more := ReadDeltas(y.value.rest);
          if more.None? then None else Some([Delta(x.value.value, y.value.value)] + more.value)
  }

  function ReadPath(d: string): Option<Path> {
    var t := Drop(d, 1);
    var x := ParseInt(t[..UpTo(t, ' ')]);
    if x.None? then None
    else
      var u := Drop(t, UpTo(t, ' ') + 1);
      var y := ParseInt(u[..UpTo(u, 'l')]);
      if y.None? then None
      else
        var deltas := ReadDeltas(Drop(u, UpTo(u, 'l') + 1));
        if deltas.None? then None else Some(Path(x.value, y.value, deltas.value))
  }

  /** A text is an optional sign of either kind and digits, and means this number. */
  predicate IsNumeral(s: string, sign: string, digits: string, n: int) {
    && s == sign + digits
    && (sign == "" || sign == "+" || sign == "-")
    && digits != ""
    && AllDigits(digits)
    && var size: int := Digits(digits);
       n == if sign == "-" then -size else size
  }

  /** Numbers are exactly the numerals within 32 bits. */
  lemma ParseIntIff(s: string, n: Int32)
    ensures ParseInt(s) == Some(n) <==> exists sign, digits :: IsNumeral(s, sign, digits, n)
  {
    hide Digits;
    if ParseInt(s) == Some(n) {
      var k := if s[0] == '-' || s[0] == '+' then 1 else 0;
      assert s == s[..k] + s[k..];
      assert IsNumeral(s, s[..k], s[k..], n);
    }
    if exists sign, digits :: IsNumeral(s, sign, digits, n) {
      var sign, digits :| IsNumeral(s, sign, digits, n);
      assert s[|sign|..] == digits;
      assert IsDigit(digits[0]);
      assert sign != "" ==> s[0] == sign[0];
    }
  }

  lemma ParseNumber(n: Int32)
    ensures ParseInt(NumberText(n)) == Some(n)
  {
    var v: int := n;
    if v < 0 {
      assert NumberText(n)[1..] == DigitsText(-v);
    } else {
      assert IsDigit(DigitsText(v)[0]);
    }
  }

  lemma {:induction false} UpToPrefix(a: string, c: char, rest: string)
    requires forall i :: 0 <= i < |a| ==> a[i] != c
    ensures UpTo(a + [c] + rest, c) == |a|
  {
    var t := a + [c] + rest;
    assert t[|a|] == c;
    assert forall i :: 0 <= i < |a| ==> t[i] == a[i];
  }

  lemma {:induction false} StretchPrefix(a: string, rest: string)
    requires AllDigits(a) && (rest == "" || rest[0] == ' ' || rest[0] == '-')
    ensures Stretch(a + rest) == |a|
  {
    var t := a + rest;
    assert forall i :: 0 <= i < |a| ==> t[i] == a[i] && IsDigit(a[i]);
    assert rest != "" ==> t[|a|] == rest[0];
  }

  lemma SkipSpace(n: Int32, rest: string)
    ensures var t := Separated(n) + rest;
            t != "" && (if t[0] == ' ' then t[1..] else t) == NumberText(n) + rest
  {
    hide NumberText;
    assert (" " + NumberText(n) + rest)[1..] == NumberText(n) + rest;
  }

  /** A number is read back whether or not a space was left out before it. */
  lemma ReadSeparated(n: Int32, rest: string)
    requires rest == "" || rest[0] == ' ' || rest[0] == '-'
    ensures ReadNumber(Separated(n) + rest) == Some(Number(n, rest))
  {
    hide Stretch, ParseInt, NumberText, Separated;
    var a := NumberText(n);
    SkipSpace(n, rest);
    var u := a + rest;
    assert u[1..] == a[1..] + rest;
    StretchPrefix(a[1..], rest);
    assert u[..|a|] == a && u[|a|..] == rest;
    ParseNumber(n);
  }

  lemma {:induction false} ReadDeltasText(deltas: seq<Delta>)
    ensures ReadDeltas(DeltasText(deltas)) == Some(deltas)
    decreases |deltas|
  {
    hide ReadNumber, Separated;
    if deltas != [] {
      var d := deltas[0];
      var more := DeltasText(deltas[1..]);
      ReadSeparated(d.x, Separated(d.y) + more);
      ReadSeparated(d.y, more);
      ReadDeltasText(deltas[1..]);
      assert [d] + deltas[1..] == deltas;
    }
  }

  lemma NumberHasNone(n: Int32, c: char)
    requires !IsDigit(c) && c != '-'
    ensures forall i :: 0 <= i < |NumberText(n)| ==> NumberText(n)[i] != c
  {
    var s := NumberText(n);
    forall i | 0 <= i < |s|
      ensures s[i] != c
    {
      if i > 0 {
        assert s[i] == s[1..][i - 1];
      }
    }
  }

  /** A number and the character behind it, taken apart as the reader does. */
  lemma ReadUpTo(n: Int32, c: char, rest: string)
    requires c == ' ' || c == 'l'
    ensures var t, k := NumberText(n) + ([c] + rest), |NumberText(n)|;
            UpTo(t, c) == k && ParseInt(t[..k]) == Some(n) && Drop(t, k + 1) == rest
  {
    hide NumberText, ParseInt, UpTo;
    var a := NumberText(n);
    var t := a + ([c] + rest);
    assert t == a + [c] + rest;
    NumberHasNone(n, c);
    UpToPrefix(a, c, rest);
    assert t[..|a|] == a && t[|a| + 1..] == rest;
    ParseNumber(n);
  }

  lemma PathTextParts(path: Path)
    ensures Drop(PathText(path), 1) ==
            NumberText(path.x) + ([' '] + (NumberText(path.y) + (['l'] + DeltasText(path.deltas))))
  {
    hide NumberText, DeltasText;
  }

  /** The reader finds exactly the numbers that the writer wrote. */
  lemma ReadPathText(path: Path)
    ensures ReadPath(PathText(path)) == Some(path)
  {
    hide NumberText, ParseInt, UpTo, ReadDeltas, DeltasText, PathText, Drop;
    var z := DeltasText(path.deltas);
    var u := NumberText(path.y) + (['l'] + z);
    PathTextParts(path);
    ReadUpTo(path.x, ' ', u);
    ReadUpTo(path.y, 'l', z);
    ReadDeltasText(path.deltas);
  }

  /** A number without a partner makes the reader throw. */
  lemma {:induction false} OddNumbersThrow(deltas: seq<Delta>, n: Int32)
    ensures ReadDeltas(DeltasText(deltas) + Separated(n)) == None
    decreases |deltas|
  {
    hide ReadNumber, Separated;
    var last := Separated(n);
    if deltas == [] {
      assert DeltasText(deltas) + last == last + "";
      ReadSeparated(n, "");
      NoNumber();
    } else {
      var rest := DeltasText(deltas[1..]) + last;
      OddNumbersThrow(deltas[1..], n);
      RestStarts(deltas[1..], n);
      var second := Separated(deltas[0].y) + rest;
      assert DeltasText(deltas) + last == Separated(deltas[0].x) + second;
      ReadSeparated(deltas[0].x, second);
      ReadSeparated(deltas[0].y, rest);
    }
  }

  lemma NoNumber()
    ensures ReadNumber("") == None
  {
  }

  lemma RestStarts(deltas: seq<Delta>, n: Int32)
    ensures var t := DeltasText(deltas) + Separated(n); t != "" && (t[0] == ' ' || t[0] == '-')
  {
    hide Separated;
    if deltas == [] {
      assert DeltasText(deltas) + Separated(n) == Separated(n);
    }
  }

  /** The reader does not look at the first character. */
  lemma FirstLetterIsIgnored(c: char, d: string)
    requires d != ""
    ensures ReadPath([c] + d[1..]) == ReadPath(d)
  {
    hide ParseInt, UpTo, ReadDeltas, Drop;
    SameRest(c, d);
  }

  lemma SameRest(c: char, d: string)
    requires d != ""
    ensures Drop([c] + d[1..], 1) == Drop(d, 1)
  {
  }

  // ---------------------------------------------------------------------------------------
  // Saving what was loaded
  // ---------------------------------------------------------------------------------------

  lemma {:induction false} FollowedDeltas(at: Point, deltas: seq<Delta>, scale: real, from: Point)
    requires scale != 0.0 && from == Scaled(at, scale)
    ensures Deltas(from, Point(0.0, 0.0), ScaledAll(Follow(at, deltas, scale), scale)) == deltas
    decreases |deltas|
  {
    hide Scaled, Moved, Round;
    if deltas != [] {
      var next := Moved(at, deltas[0], scale);
      var r := Follow(at, deltas, scale);
      ScaleMoved(at, deltas[0], scale);
      var sum := Sum(from, Point(0.0, 0.0), Scaled(next, scale));
      RoundInteger(deltas[0].x);
      RoundInteger(deltas[0].y);
      assert sum == Point(deltas[0].x as real, deltas[0].y as real);
      assert Rounded(sum) == deltas[0] && Remainder(sum) == Point(0.0, 0.0);
      assert ScaledAll(r, scale)[1..] == ScaledAll(r[1..], scale);
      assert r[1..] == Follow(next, deltas[1..], scale);
      FollowedDeltas(next, deltas[1..], scale, Scaled(next, scale));
    }
  }

  /** A loaded stroke is written with the text it was loaded from, whatever the stroke. */
  lemma LoadedSavesAlike(path: Path, scale: real)
    requires scale > 0.0
    ensures Saved(Loaded(path, Point(0.0, 0.0), scale), scale) == path
  {
    hide Round, Deltas, Follow;
    var r := Loaded(path, Point(0.0, 0.0), scale);
    var grid := ScaledAll(r, scale);
    assert grid[0] == Point(path.x as real, path.y as real);
    RoundInteger(path.x);
    RoundInteger(path.y);
    assert r[1..] == Follow(r[0], path.deltas, scale);
    assert grid[1..] == ScaledAll(r[1..], scale);
    FollowedDeltas(r[0], path.deltas, scale, grid[0]);
  }

  // ---------------------------------------------------------------------------------------
  // The writer and the reader as they run
  // ---------------------------------------------------------------------------------------

  lemma {:induction false} DeltasTextUnfold(text: string, from: Point, error: Point, rest: seq<Point>)
    requires rest != []
    ensures var sum := Sum(from, error, rest[0]);
            text + DeltasText(Deltas(from, error, rest)) ==
            text + Separated(Round(sum.x)) + Separated(Round(sum.y))
            + DeltasText(Deltas(rest[0], Remainder(sum), rest[1..]))
  {
    hide Separated, Round;
    var sum := Sum(from, error, rest[0]);
    var d, more := Rounded(sum), Deltas(rest[0], Remainder(sum), rest[1..]);
    var ds := Deltas(from, error, rest);
    assert ds[0] == d && ds[1..] == more;
    var x, y, z := Separated(d.x), Separated(d.y), DeltasText(more);
    assert text + (x + (y + z)) == text + x + y + z;
  }

  /** Writes one path; a stroke has at least one point. */
  method SavePath(points: seq<Point>, scale: real) returns (text: string)
    requires points != []
    ensures text == PathText(Saved(points, scale))
  {
    hide NumberText, Separated, Round, Deltas, DeltasText, PathText, Scaled;
    var point := points[0];
    var start := Scaled(point, scale);
    var head := "M" + (NumberText(Round(start.x)) + (" " + (NumberText(Round(start.y)) + "l")));
    ghost var grid := ScaledAll(points, scale);
    ghost var path := Saved(points, scale);
    assert grid[0] == start;
    ghost var all := DeltasText(Deltas(grid[0], Point(0.0, 0.0), grid[1..]));
    var roundError := Point(0.0, 0.0);
    var tail := "";
    for i := 1 to |points|
      invariant point == points[i - 1]
      invariant tail + DeltasText(Deltas(grid[i - 1], roundError, grid[i..])) == all
    {
      assert grid[i..][1..] == grid[i + 1..];
      DeltasTextUnfold(tail, grid[i - 1], roundError, grid[i..]);
      var nextPoint := points[i];
      var next, last := Scaled(nextPoint, scale), Scaled(point, scale);
      assert grid[i] == next && grid[i - 1] == last;
      var pointDelta := Point(next.x - last.x + roundError.x, next.y - last.y + roundError.y);
      roundError := Point(pointDelta.x - Round(pointDelta.x) as real, pointDelta.y - Round(pointDelta.y) as real);
      tail := tail + Separated(Round(pointDelta.x));
      tail := tail + Separated(Round(pointDelta.y));
      point := nextPoint;
    }
    NoDeltas(grid[|points| - 1], roundError, grid[|points|..]);
    assert tail + "" == tail;
    text := head + tail;
    HeadAndTail(path, head, tail);
  }

  lemma {:induction false} NoDeltas(from: Point, error: Point, rest: seq<Point>)
    requires rest == []
    ensures DeltasText(Deltas(from, error, rest)) == ""
  {
  }

  lemma HeadAndTail(path: Path, head: string, tail: string)
    requires head == "M" + (NumberText(path.x) + (" " + (NumberText(path.y) + "l")))
    requires tail == DeltasText(path.deltas)
    ensures head + tail == PathText(path)
  {
    hide NumberText, DeltasText;
    var x, y := NumberText(path.x), NumberText(path.y);
    assert y + "l" + tail == y + ("l" + tail);
    assert " " + (y + "l") + tail == " " + (y + ("l" + tail));
    assert x + (" " + (y + "l")) + tail == x + (" " + (y + ("l" + tail)));
  }

  lemma {:induction false} DropOne(d: string, i: nat)
    requires i < |d|
    ensures Drop(d, i) != "" && Drop(d, i)[0] == d[i] && Drop(d, i)[1..] == Drop(d, i + 1)
  {
  }

  lemma NoneLeft(d: string, i: nat)
    ensures Drop(d, i) == "" <==> i >= |d|
    ensures i < |d| ==> Drop(d, i)[0] == d[i] && Drop(d, i)[1..] == Drop(d, i + 1)
  {
  }

  lemma {:induction false} UpToEnds(d: string, i: nat, c: char)
    ensures i >= |d| || d[i] == c ==> UpTo(Drop(d, i), c) == 0
    ensures i < |d| && d[i] != c ==> UpTo(Drop(d, i), c) == 1 + UpTo(Drop(d, i + 1), c)
  {
    if i < |d| {
      DropOne(d, i);
    }
  }

  lemma {:induction false} StretchEnds(d: string, i: nat)
    ensures i >= |d| || d[i] == ' ' || d[i] == '-' ==> Stretch(Drop(d, i)) == 0
    ensures i < |d| && d[i] != ' ' && d[i] != '-' ==> Stretch(Drop(d, i)) == 1 + Stretch(Drop(d, i + 1))
  {
    if i < |d| {
      DropOne(d, i);
    }
  }

  lemma DropAll(d: string, start: nat, i: nat)
    requires start <= i <= |d|
    ensures i - start <= |Drop(d, start)| && Drop(d, start)[i - start..] == Drop(d, i)
  {
  }

  lemma DropPrefix(d: string, start: nat, i: nat)
    requires start <= i <= |d|
    ensures i - start <= |Drop(d, start)|
    ensures i < |d| ==> i - start < |Drop(d, start)| && Drop(d, start)[..i - start + 1] == Drop(d, start)[..i - start] + [d[i]]
  {
  }

  lemma DropSum(d: string, i: nat, n: nat)
    ensures Drop(Drop(d, i), n) == Drop(d, i + n)
  {
    if i + n <= |d| {
      assert d[i..][n..] == d[i + n..];
    }
  }

  method ReadUntil(d: string, start: nat, c: char) returns (buffer: string, i: nat)
    ensures var t := Drop(d, start);
            && buffer == t[..UpTo(t, c)] && i == start + UpTo(t, c)
            && Drop(t, UpTo(t, c) + 1) == Drop(d, i + 1)
  {
    hide Drop, UpTo;
    ghost var t := Drop(d, start);
    buffer, i := "", start;
    UpToEnds(d, i, c);
    while i < |d| && d[i] != c
      invariant start <= i && (i <= |d| || i == start) && i - start <= |t| && buffer == t[..i - start]
      invariant UpTo(t, c) == i - start + UpTo(Drop(d, i), c)
      decreases |d| - i
    {
      UpToEnds(d, i, c);
      DropPrefix(d, start, i);
      buffer := buffer + [d[i]];
      i := i + 1;
    }
    UpToEnds(d, i, c);
    DropSum(d, start, UpTo(t, c) + 1);
  }

  /** Nothing when an index or a number is refused. */
  method ReadOne(d: string, start: nat) returns (value: Option<Int32>, i: nat)
    requires start <= |d|
    ensures match ReadNumber(Drop(d, start))
            case None => value.None?
            case Some(n) => value == Some(n.value) && start < i <= |d| && n.rest == Drop(d, i)
  {
    hide ParseInt, Stretch, Drop;
    NoneLeft(d, start);
    i := start;
    if i < |d| && d[i] == ' ' {
      i := i + 1;
    }
    NoneLeft(d, i);
    if i >= |d| {
      return None, i;
    }
    ghost var u := Drop(d, i);
    DropOne(d, i);
    var buffer;
    buffer, i := ReadStretch(d, i);
    value := ParseInt(buffer);
  }

  /** The character at `start` and what follows up to the next space or minus sign. */
  method ReadStretch(d: string, start: nat) returns (buffer: string, i: nat)
    requires start < |d|
    ensures var u := Drop(d, start);
            var n := 1 + Stretch(u[1..]);
            buffer == u[..n] && i == start + n <= |d| && u[n..] == Drop(d, i)
  {
    hide Drop, Stretch;
    ghost var u := Drop(d, start);
    DropOne(d, start);
    buffer, i := [d[start]], start + 1;
    DropPrefix(d, start, i);
    StretchEnds(d, i);
    while i < |d| && d[i] != ' ' && d[i] != '-'
      invariant start < i <= |d| && i - start <= |u| && buffer == u[..i - start]
      invariant Stretch(u[1..]) == i - start - 1 + Stretch(Drop(d, i))
      decreases |d| - i
    {
      StretchEnds(d, i);
      DropPrefix(d, start, i);
      buffer := buffer + [d[i]];
      i := i + 1;
    }
    StretchEnds(d, i);
    DropAll(d, start, i);
  }

  lemma {:induction false} FollowOne(at: Point, d: Delta, more: seq<Delta>, scale: real)
    requires scale != 0.0
    ensures Follow(at, [d] + more, scale) == [Moved(at, d, scale)] + Follow(Moved(at, d, scale), more, scale)
  {
  }

  /** What is known of a text while its deltas are being read. */
  ghost predicate Reading(all: Option<seq<Delta>>, more: Option<seq<Delta>>, first: Point, last: Point, path: seq<Point>, scale: real)
    requires scale != 0.0
  {
    && (all.None? <==> more.None?)
    && (all.Some? ==> path + Follow(last, more.value, scale) == [first] + Follow(first, all.value, scale))
  }

  /** Reads one path; nothing when the reader throws. */
  method LoadPath(d: string, origin: Point, scale: real) returns (points: Option<seq<Point>>)
    requires scale > 0.0
    ensures points == match ReadPath(d) case None => None case Some(p) => Some(Loaded(p, origin, scale))
  {
    hide ParseInt, UpTo, ReadDeltas, Follow, Drop;
    var buffer, i := ReadUntil(d, 1, ' ');
    var x := ParseInt(buffer);
    if x.None? {
      return None;
    }
    buffer, i := ReadUntil(d, i + 1, 'l');
    var y := ParseInt(buffer);
    if y.None? {
      return None;
    }
    var lastPoint := Point((origin.x + x.value as real) / scale, (origin.y + y.value as real) / scale);
    points := LoadRest(d, i + 1, lastPoint, scale);
  }

  /** Reads the deltas that follow the first point. */
  method LoadRest(d: string, start: nat, first: Point, scale: real) returns (points: Option<seq<Point>>)
    requires scale > 0.0
    ensures points == match ReadDeltas(Drop(d, start))
                      case None => None
                      case Some(ds) => Some([first] + Follow(first, ds, scale))
  {
    hide ParseInt, ReadNumber;
    var i, lastPoint, path := start, first, [first];
    ghost var all := ReadDeltas(Drop(d, i));
    while i < |d|
      invariant Reading(all, ReadDeltas(Drop(d, i)), first, lastPoint, path, scale)
      decreases |d| - i
    {
      hide Reading;
      ghost var from := i;
      var dx, dy;
      dx, i := ReadOne(d, i);
      if dx.None? {
        ReadingFails(d, from, all, first, lastPoint, path, scale);
        return None;
      }
      dy, i := ReadOne(d, i);
      if dy.None? {
        ReadingFails(d, from, all, first, lastPoint, path, scale);
        return None;
      }
      var delta := Delta(dx.value, dy.value);
      var next := Point(lastPoint.x + dx.value as real / scale, lastPoint.y + dy.value as real / scale);
      ReadingGoesOn(d, from, i, delta, all, first, lastPoint, next, path, scale);
      lastPoint := next;
      path := path + [lastPoint];
    }
    assert Drop(d, i) == "";
    assert path + [] == path;
    points := Some(path);
  }

  lemma {:induction false} ReadingFails(d: string, i: nat, all: Option<seq<Delta>>, first: Point, last: Point, path: seq<Point>, scale: real)
    requires scale != 0.0 && Reading(all, ReadDeltas(Drop(d, i)), first, last, path, scale)
    requires i < |d|
    requires var x := ReadNumber(Drop(d, i)); x.None? || ReadNumber(x.value.rest).None?
    ensures all.None?
  {
    hide ReadNumber, Follow;
  }

  lemma {:induction false} ReadingGoesOn(d: string, i: nat, j: nat, delta: Delta, all: Option<seq<Delta>>, first: Point, last: Point, next: Point, path: seq<Point>, scale: real)
    requires scale != 0.0 && Reading(all, ReadDeltas(Drop(d, i)), first, last, path, scale)
    requires i < |d|
    requires var x := ReadNumber(Drop(d, i));
             x.Some? && x.value.value == delta.x && ReadNumber(x.value.rest) == Some(Number(delta.y, Drop(d, j)))
    requires next == Moved(last, delta, scale)
    ensures Reading(all, ReadDeltas(Drop(d, j)), first, next, path + [next], scale)
  {
    hide ReadNumber, Follow, Moved;
    var more := ReadDeltas(Drop(d, j));
    if all.Some? {
      FollowOne(last, delta, more.value, scale);
      var tail := Follow(next, more.value, scale);
      assert path + [next] + tail == path + ([next] + tail);
    }
  }
}
