/** The screen that is drawn incrementally: cells are compared with the last drawn cells and
    only the differences are emitted. */
module OofScreen {
  import opened Basics
  import opened OofSequences
  import opened TerminalModel

  datatype Geometry = Geometry(width: nat, height: nat, originLine: int, originColumn: int)

  function Size(g: Geometry): nat {
    g.width * g.height
  }

  // ---------------------------------------------------------------------------------------
  // One frame
  // ---------------------------------------------------------------------------------------

  /** What a drawing pass believes about the console. */
  datatype Draw = Draw(lastWritten: Option<nat>, format: Option<Format>)

  predicate PositionNecessary(g: Geometry, lastWritten: Option<nat>, target: nat)
    requires g.width > 0
  {
    match lastWritten
    case None => true
    case Some(last) => target != last + 1 || (last + 1) / g.width != last / g.width
  }

  function FormatChanges(format: Option<Format>, target: Format): seq<Sequence> {
    match format
    case None =>
      [Foreground(target.foreground), Background(target.background),
       Underline(target.underline), Bold(target.bold)]
    case Some(f) =>
      (if target.foreground != f.foreground then [Foreground(target.foreground)] else [])
      + (if target.background != f.background then [Background(target.background)] else [])
      + (if target.underline != f.underline then [Underline(target.underline)] else [])
      + (if target.bold != f.bold then [Bold(target.bold)] else [])
  }

  /** Coordinates are narrowed to eight bits. */
  function PositionSequence(g: Geometry, k: nat): Sequence
    requires g.width > 0
  {
    Position((k / g.width + g.originLine) % 256, (k % g.width + g.originColumn) % 256)
  }

  function EmitCell(g: Geometry, draw: Draw, target: Cell, drawn: Option<Cell>, k: nat): seq<Sequence>
    requires g.width > 0
  {
    if drawn == Some(target) then []
    else
      FormatChanges(draw.format, target.format)
      + (if PositionNecessary(g, draw.lastWritten, k) then [PositionSequence(g, k)] else [])
      + [Letter(target.letter)]
  }

  function NextDraw(draw: Draw, target: Cell, drawn: Option<Cell>, k: nat): Draw {
    if drawn == Some(target) then draw else Draw(Some(k), Some(target.format))
  }

  function OldCell(drawn: seq<Cell>, k: nat): Option<Cell>
    requires drawn == [] || k < |drawn|
  {
    if drawn == [] then None else Some(drawn[k])
  }

  function FrameFrom(g: Geometry, cells: seq<Cell>, drawn: seq<Cell>, k: nat, draw: Draw): seq<Sequence>
    requires g.width > 0
    requires k <= |cells| && (drawn == [] || |drawn| == |cells|)
    decreases |cells| - k
  {
    if k == |cells| then []
    else
      EmitCell(g, draw, cells[k], OldCell(drawn, k), k)
      + FrameFrom(g, cells, drawn, k + 1, NextDraw(draw, cells[k], OldCell(drawn, k), k))
  }

  function Frame(g: Geometry, cells: seq<Cell>, drawn: seq<Cell>): seq<Sequence>
    requires g.width > 0
    requires drawn == [] || |drawn| == |cells|
  {
    [Reset] + FrameFrom(g, cells, drawn, 0, Draw(None, None))
  }

  // ---------------------------------------------------------------------------------------
  // What a terminal shows
  // ---------------------------------------------------------------------------------------

  function PlaceOf(g: Geometry, k: nat): Place
    requires g.width > 0
  {
    Place(g.originLine + k / g.width, g.originColumn + k % g.width)
  }

  predicate InWindow(g: Geometry, p: Place) {
    && g.originLine <= p.line < g.originLine + g.height
    && g.originColumn <= p.column < g.originColumn + g.width
  }

  predicate Fits(g: Geometry, t: Terminal) {
    && 0 < g.width
    && 0 < g.height
    && 0 <= g.originLine
    && g.originLine + g.height <= t.lines
    && 0 <= g.originColumn
    && g.originColumn + g.width <= t.columns
  }

  /** Every coordinate of the window survives being narrowed to eight bits. */
  predicate Addressable(g: Geometry) {
    g.originLine + g.height <= 256 && g.originColumn + g.width <= 256
  }

  ghost predicate Shows(t: Terminal, g: Geometry, cells: seq<Cell>)
    requires g.width > 0
  {
    forall k :: 0 <= k < |cells| ==>
      PlaceOf(g, k) in t.grid && t.grid[PlaceOf(g, k)] == cells[k]
  }

  ghost predicate SameOutside(t: Terminal, t0: Terminal, g: Geometry) {
    && t.lines == t0.lines
    && t.columns == t0.columns
    && t.grid.Keys == t0.grid.Keys
    && forall p :: p in t0.grid && !InWindow(g, p) ==> t.grid[p] == t0.grid[p]
  }

  predicate GraphicCells(cells: seq<Cell>) {
    forall k :: 0 <= k < |cells| ==> Graphic(cells[k].letter)
  }

  function Shown(t: Terminal, sequences: seq<Sequence>): (t': Terminal)
    requires t.Valid()
    ensures t'.Valid()
  {
    ExecutedAll(t, ControlsOf(sequences))
  }

  lemma ShownConcat(t: Terminal, a: seq<Sequence>, b: seq<Sequence>)
    requires t.Valid()
    ensures Shown(t, a + b) == Shown(Shown(t, a), b)
  {
    hide ExecutedAll;
    assert ControlsOf(a + b) == ControlsOf(a) + ControlsOf(b);
    ExecutedConcat(t, ControlsOf(a), ControlsOf(b));
  }

  lemma ShownOne(t: Terminal, s: Sequence)
    requires t.Valid()
    ensures Shown(t, [s]) == Executed(t, ControlOf(s))
  {
    hide Executed;
    ExecutedValid(t, ControlOf(s));
    assert ControlsOf([s])[1..] == [];
    assert ExecutedAll(Executed(t, ControlOf(s)), []) == Executed(t, ControlOf(s));
  }

  lemma ShownMaybe(t: Terminal, b: bool, s: Sequence)
    requires t.Valid()
    ensures Shown(t, if b then [s] else []) == if b then Executed(t, ControlOf(s)) else t
  {
    if b {
      ShownOne(t, s);
    }
  }

  /** One change of the pen, written only when it changes something. */
  lemma PenShown(t: Terminal, needed: bool, s: Sequence, pen: Format)
    requires t.Valid()
    requires Executed(t, ControlOf(s)) == t.(pen := pen)
    requires needed || t.pen == pen
    ensures Shown(t, if needed then [s] else []) == t.(pen := pen)
  {
    hide Executed, Shown;
    ShownMaybe(t, needed, s);
  }

  lemma FormatChangesShown(t: Terminal, format: Option<Format>, target: Format)
    requires t.Valid()
    requires format.Some? ==> t.pen == format.value
    ensures Shown(t, FormatChanges(format, target)) == t.(pen := target)
  {
    hide Executed, Shown, FormatChanges;
    var fg := format.None? || target.foreground != format.value.foreground;
    var bg := format.None? || target.background != format.value.background;
    var ul := format.None? || target.underline != format.value.underline;
    var bd := format.None? || target.bold != format.value.bold;
    var s1, s2 := Foreground(target.foreground), Background(target.background);
    var s3, s4 := Underline(target.underline), Bold(target.bold);
    var a1, a2 := if fg then [s1] else [], if bg then [s2] else [];
    var a3, a4 := if ul then [s3] else [], if bd then [s4] else [];
    var p1 := t.pen.(foreground := target.foreground);
    var p2 := p1.(background := target.background);
    var p3 := p2.(underline := target.underline);
    FormatChangesParts(format, target);
    ExecutedSequence(t, s1);
    PenShown(t, fg, s1, p1);
    ExecutedSequence(t.(pen := p1), s2);
    PenShown(t.(pen := p1), bg, s2, p2);
    ExecutedSequence(t.(pen := p2), s3);
    PenShown(t.(pen := p2), ul, s3, p3);
    ExecutedSequence(t.(pen := p3), s4);
    PenShown(t.(pen := p3), bd, s4, target);
    ShownConcat(t, a1 + a2 + a3, a4);
    ShownConcat(t, a1 + a2, a3);
    ShownConcat(t, a1, a2);
  }

  lemma FormatChangesParts(format: Option<Format>, target: Format)
    ensures FormatChanges(format, target) ==
            (if format.None? || target.foreground != format.value.foreground
             then [Foreground(target.foreground)] else [])
            + (if format.None? || target.background != format.value.background
               then [Background(target.background)] else [])
            + (if format.None? || target.underline != format.value.underline
               then [Underline(target.underline)] else [])
            + (if format.None? || target.bold != format.value.bold then [Bold(target.bold)] else [])
  {
  }

  // ---------------------------------------------------------------------------------------
  // Window arithmetic
  // ---------------------------------------------------------------------------------------

  lemma PlaceInWindow(g: Geometry, k: nat)
    requires g.width > 0 && k < Size(g)
    ensures InWindow(g, PlaceOf(g, k))
  {
    var line := k / g.width;
    assert k == line * g.width + k % g.width;
    if line >= g.height {
      MultiplyMonotone(g.height, line, g.width);
    }
  }

  lemma MultiplyMonotone(a: nat, b: nat, c: nat)
    requires a <= b
    ensures a * c <= b * c
  {
  }

  lemma PlacesDiffer(g: Geometry, j: nat, k: nat)
    requires g.width > 0 && j != k
    ensures PlaceOf(g, j) != PlaceOf(g, k)
  {
    assert j == j / g.width * g.width + j % g.width;
    assert k == k / g.width * g.width + k % g.width;
  }

  lemma NextPlace(g: Geometry, last: nat)
    requires g.width > 0 && (last + 1) / g.width == last / g.width
    ensures PlaceOf(g, last + 1) == Place(PlaceOf(g, last).line, PlaceOf(g, last).column + 1)
  {
    assert last == last / g.width * g.width + last % g.width;
    assert last + 1 == (last + 1) / g.width * g.width + (last + 1) % g.width;
  }

  lemma PositionShown(t: Terminal, g: Geometry, k: nat)
    requires t.Valid() && Fits(g, t) && Addressable(g) && k < Size(g)
    ensures Shown(t, [PositionSequence(g, k)]) == t.(cursor := PlaceOf(g, k))
  {
    hide Executed, Shown;
    PlaceInWindow(g, k);
    ShownOne(t, PositionSequence(g, k));
    ExecutedSequence(t, PositionSequence(g, k));
  }

  // ---------------------------------------------------------------------------------------
  // A frame brings the window up to date
  // ---------------------------------------------------------------------------------------

  /** Before cell k: the cells already visited show the target, the others still show what was
      drawn last, and the pass knows where the cursor is and which format the pen has. */
  ghost predicate Synced(t: Terminal, t0: Terminal, g: Geometry, cells: seq<Cell>, drawn: seq<Cell>,
                         k: nat, draw: Draw)
    requires g.width > 0
  {
    && t.Valid()
    && SameOutside(t, t0, g)
    && (forall i :: 0 <= i < |cells| && (i < k || drawn != []) ==>
          PlaceOf(g, i) in t.grid
          && (i < k ==> t.grid[PlaceOf(g, i)] == cells[i])
          && (i >= k ==> i < |drawn| && t.grid[PlaceOf(g, i)] == drawn[i]))
    && (draw.format.Some? ==> t.pen == draw.format.value)
    && (draw.lastWritten.Some? ==>
          && draw.lastWritten.value < k
          && t.cursor == Place(PlaceOf(g, draw.lastWritten.value).line,
                               PlaceOf(g, draw.lastWritten.value).column + 1))
  }

  lemma LetterShown(t: Terminal, t0: Terminal, g: Geometry, cells: seq<Cell>, drawn: seq<Cell>,
                    k: nat, draw: Draw, t': Terminal)
    requires g.width > 0 && k < |cells| == Size(g)
    requires Fits(g, t) && Graphic(cells[k].letter)
    requires Synced(t, t0, g, cells, drawn, k, draw)
    requires t' == t.(pen := cells[k].format, cursor := PlaceOf(g, k))
    ensures t'.Valid()
    ensures Synced(Shown(t', [Letter(cells[k].letter)]), t0, g, cells, drawn, k + 1,
                   Draw(Some(k), Some(cells[k].format)))
  {
    PlaceInWindow(g, k);
    assert t'.Valid();
    assert Shown(t', [Letter(cells[k].letter)]) == Printed(t', cells[k].letter) by {
      hide Executed, Shown;
      ShownOne(t', Letter(cells[k].letter));
      ExecutedSequence(t', Letter(cells[k].letter));
    }
    hide Shown;
    forall i | 0 <= i < |cells| && i != k
      ensures PlaceOf(g, i) != PlaceOf(g, k)
    {
      PlacesDiffer(g, i, k);
    }
  }

  lemma CellShown(t: Terminal, t0: Terminal, g: Geometry, cells: seq<Cell>, drawn: seq<Cell>,
                  k: nat, draw: Draw)
    requires g.width > 0 && k < |cells| == Size(g)
    requires drawn == [] || |drawn| == |cells|
    requires Fits(g, t) && Addressable(g) && Graphic(cells[k].letter)
    requires Synced(t, t0, g, cells, drawn, k, draw)
    ensures Synced(Shown(t, EmitCell(g, draw, cells[k], OldCell(drawn, k), k)), t0, g, cells, drawn, k + 1,
                   NextDraw(draw, cells[k], OldCell(drawn, k), k))
  {
    hide Shown;
    if OldCell(drawn, k) == Some(cells[k]) {
      assert Shown(t, []) == t by { ShownNothing(t); }
    } else {
      var changes := FormatChanges(draw.format, cells[k].format);
      var move := if PositionNecessary(g, draw.lastWritten, k) then [PositionSequence(g, k)] else [];
      var letter := [Letter(cells[k].letter)];
      var t1 := t.(pen := cells[k].format);
      var t2 := t1.(cursor := PlaceOf(g, k));
      FormatChangesShown(t, draw.format, cells[k].format);
      if move == [] {
        NextPlace(g, draw.lastWritten.value);
        ShownNothing(t1);
      } else {
        PositionShown(t1, g, k);
      }
      assert Shown(t1, move) == t2;
      ShownConcat(t, changes + move, letter);
      ShownConcat(t, changes, move);
      LetterShown(t, t0, g, cells, drawn, k, draw, t2);
    }
  }

  lemma ShownNothing(t: Terminal)
    requires t.Valid()
    ensures Shown(t, []) == t
  {
    assert ControlsOf([]) == [];
  }

  lemma {:induction false} FrameFromShown(t: Terminal, t0: Terminal, g: Geometry, cells: seq<Cell>,
                                          drawn: seq<Cell>, k: nat, draw: Draw)
    requires g.width > 0 && k <= |cells| == Size(g)
    requires drawn == [] || |drawn| == |cells|
    requires Fits(g, t) && Addressable(g) && GraphicCells(cells)
    requires Synced(t, t0, g, cells, drawn, k, draw)
    ensures var t' := Shown(t, FrameFrom(g, cells, drawn, k, draw));
            Shows(t', g, cells) && SameOutside(t', t0, g)
    decreases |cells| - k
  {
    hide Shown, EmitCell, NextDraw;
    if k == |cells| {
      ShownNothing(t);
    } else {
      var emitted := EmitCell(g, draw, cells[k], OldCell(drawn, k), k);
      var draw' := NextDraw(draw, cells[k], OldCell(drawn, k), k);
      CellShown(t, t0, g, cells, drawn, k, draw);
      FrameFromShown(Shown(t, emitted), t0, g, cells, drawn, k + 1, draw');
      ShownConcat(t, emitted, FrameFrom(g, cells, drawn, k + 1, draw'));
    }
  }

  /** A terminal that shows the last drawn cells shows the current cells after one frame, and
      nothing outside the window changes. Nothing need be shown before the first frame. */
  lemma FrameShown(t: Terminal, g: Geometry, cells: seq<Cell>, drawn: seq<Cell>)
    requires t.Valid() && Fits(g, t) && Addressable(g)
    requires |cells| == Size(g) && GraphicCells(cells)
    requires drawn == [] || (|drawn| == |cells| && Shows(t, g, drawn))
    ensures var t' := Shown(t, Frame(g, cells, drawn));
            Shows(t', g, cells) && SameOutside(t', t, g)
  {
    hide Shown, Executed;
    ShownOne(t, Reset);
    ExecutedSequence(t, Reset);
    var t1 := Shown(t, [Reset]);
    FrameFromShown(t1, t, g, cells, drawn, 0, Draw(None, None));
    ShownConcat(t, [Reset], FrameFrom(g, cells, drawn, 0, Draw(None, None)));
  }

  /** The incremental frame leaves the terminal with the same picture as drawing everything. */
  lemma FrameRefinesFullRedraw(t: Terminal, g: Geometry, cells: seq<Cell>, drawn: seq<Cell>)
    requires t.Valid() && Fits(g, t) && Addressable(g)
    requires |cells| == Size(g) && GraphicCells(cells)
    requires drawn == [] || (|drawn| == |cells| && Shows(t, g, drawn))
    ensures Shown(t, Frame(g, cells, drawn)).grid == Shown(t, Frame(g, cells, [])).grid
  {
    hide Shown, Frame;
    FrameShown(t, g, cells, drawn);
    FrameShown(t, g, cells, []);
    var a, b := Shown(t, Frame(g, cells, drawn)).grid, Shown(t, Frame(g, cells, [])).grid;
    forall p | p in t.grid
      ensures a[p] == b[p]
    {
      if InWindow(g, p) {
        var k := WindowIndex(g, p);
        assert PlaceOf(g, k) == p;
      }
    }
  }

  lemma WindowIndex(g: Geometry, p: Place) returns (k: nat)
    requires InWindow(g, p)
    ensures g.width > 0 && k < Size(g) && PlaceOf(g, k) == p
  {
    var line, column := p.line - g.originLine, p.column - g.originColumn;
    k := line * g.width + column;
    assert k / g.width == line && k % g.width == column by { Divided(line, column, g.width); }
    MultiplyMonotone(line + 1, g.height, g.width);
    assert (line + 1) * g.width == line * g.width + g.width;
  }

  lemma Divided(q: nat, r: nat, d: nat)
    requires r < d
    ensures (q * d + r) / d == q && (q * d + r) % d == r
  {
    var n := q * d + r;
    assert n == n / d * d + n % d;
    if n / d < q {
      MultiplyMonotone(n / d + 1, q, d);
    } else if n / d > q {
      MultiplyMonotone(q + 1, n / d, d);
    }
  }

  // ---------------------------------------------------------------------------------------
  // How much is emitted
  // ---------------------------------------------------------------------------------------

  function Letters(sequences: seq<Sequence>): nat {
    if sequences == [] then 0
    else (if sequences[0].Letter? then 1 else 0) + Letters(sequences[1..])
  }

  lemma {:induction false} LettersConcat(a: seq<Sequence>, b: seq<Sequence>)
    ensures Letters(a + b) == Letters(a) + Letters(b)
    decreases a
  {
    if a == [] {
      assert a + b == b;
    } else {
      assert (a + b)[1..] == a[1..] + b;
      LettersConcat(a[1..], b);
    }
  }

  /** How many cells from k on differ from the last drawn ones. */
  function Differences(cells: seq<Cell>, drawn: seq<Cell>, k: nat): nat
    requires k <= |cells| && (drawn == [] || |drawn| == |cells|)
    decreases |cells| - k
  {
    if k == |cells| then 0
    else (if drawn != [] && drawn[k] == cells[k] then 0 else 1) + Differences(cells, drawn, k + 1)
  }

  lemma FormatChangesLetters(format: Option<Format>, target: Format)
    ensures forall s <- FormatChanges(format, target) :: !s.Letter?
  {
  }

  lemma {:induction false} NoLetters(sequences: seq<Sequence>)
    requires forall s <- sequences :: !s.Letter?
    ensures Letters(sequences) == 0
    decreases sequences
  {
    if sequences != [] {
      NoLetters(sequences[1..]);
    }
  }

  lemma {:induction false} FrameFromLetters(g: Geometry, cells: seq<Cell>, drawn: seq<Cell>, k: nat, draw: Draw)
    requires g.width > 0
    requires k <= |cells| && (drawn == [] || |drawn| == |cells|)
    ensures Letters(FrameFrom(g, cells, drawn, k, draw)) == Differences(cells, drawn, k)
    decreases |cells| - k
  {
    hide FormatChanges, PositionNecessary;
    if k < |cells| {
      var emitted := EmitCell(g, draw, cells[k], OldCell(drawn, k), k);
      var draw' := NextDraw(draw, cells[k], OldCell(drawn, k), k);
      if emitted != [] {
        var before := emitted[..|emitted| - 1];
        FormatChangesLetters(draw.format, cells[k].format);
        assert before == FormatChanges(draw.format, cells[k].format)
                         + (if PositionNecessary(g, draw.lastWritten, k) then [PositionSequence(g, k)] else []);
        NoLetters(before);
        assert emitted == before + [Letter(cells[k].letter)];
        LettersConcat(before, [Letter(cells[k].letter)]);
      }
      FrameFromLetters(g, cells, drawn, k + 1, draw');
      LettersConcat(emitted, FrameFrom(g, cells, drawn, k + 1, draw'));
    }
  }

  /** One letter is written for every cell that differs from the last drawn one. */
  lemma FrameLetters(g: Geometry, cells: seq<Cell>, drawn: seq<Cell>)
    requires g.width > 0
    requires drawn == [] || |drawn| == |cells|
    ensures Letters(Frame(g, cells, drawn)) == Differences(cells, drawn, 0)
  {
    FrameFromLetters(g, cells, drawn, 0, Draw(None, None));
    LettersConcat([Reset], FrameFrom(g, cells, drawn, 0, Draw(None, None)));
  }

  // ---------------------------------------------------------------------------------------
  // The limit of eight-bit coordinates
  // ---------------------------------------------------------------------------------------

  /** The frame for these cells brings this terminal up to date. */
  ghost predicate FrameWorks(g: Geometry, t: Terminal, cells: seq<Cell>, drawn: seq<Cell>)
    requires g.width > 0
  {
    t.Valid() && |cells| == |drawn| == Size(g) && GraphicCells(cells) && Shows(t, g, drawn) ==>
      Shows(Shown(t, Frame(g, cells, drawn)), g, cells)
  }

  lemma {:induction false} NothingToEmit(g: Geometry, cells: seq<Cell>, k: nat, draw: Draw)
    requires g.width > 0 && k <= |cells|
    ensures FrameFrom(g, cells, cells, k, draw) == []
    decreases |cells| - k
  {
    hide FormatChanges, PositionNecessary, PositionSequence;
    if k < |cells| {
      NothingToEmit(g, cells, k + 1, draw);
    }
  }

  lemma {:induction false} NothingAfter(g: Geometry, cells: seq<Cell>, drawn: seq<Cell>, k: nat, draw: Draw)
    requires g.width > 0 && k <= |cells| == |drawn|
    requires forall i :: k <= i < |cells| ==> cells[i] == drawn[i]
    ensures FrameFrom(g, cells, drawn, k, draw) == []
    decreases |cells| - k
  {
    hide FormatChanges, PositionNecessary, PositionSequence;
    if k < |cells| {
      NothingAfter(g, cells, drawn, k + 1, draw);
    }
  }

  lemma {:induction false} OneDifference(g: Geometry, cells: seq<Cell>, drawn: seq<Cell>, j: nat, k: nat)
    requires g.width > 0 && j <= k < |cells| == |drawn|
    requires forall i :: 0 <= i < |cells| ==> (cells[i] == drawn[i] <==> i != k)
    ensures FrameFrom(g, cells, drawn, j, Draw(None, None)) ==
            EmitCell(g, Draw(None, None), cells[k], Some(drawn[k]), k)
    decreases k - j
  {
    hide FormatChanges, PositionNecessary;
    if j < k {
      OneDifference(g, cells, drawn, j + 1, k);
    } else {
      NothingAfter(g, cells, drawn, k + 1, NextDraw(Draw(None, None), cells[k], Some(drawn[k]), k));
    }
  }

  /** A lone changed cell is written to the narrowed coordinates and nowhere else. */
  lemma LoneCellWritten(t: Terminal, g: Geometry, cells: seq<Cell>, drawn: seq<Cell>, k: nat)
    requires t.Valid() && Fits(g, t) && k < |cells| == |drawn| == Size(g)
    requires forall i :: 0 <= i < |cells| ==> (cells[i] == drawn[i] <==> i != k)
    requires Graphic(cells[k].letter)
    ensures var p := PlaceOf(g, k);
            Shown(t, Frame(g, cells, drawn)).grid ==
            t.grid[Place(p.line % 256, p.column % 256) := cells[k]]
  {
    hide Shown, Frame;
    LoneCellFrame(g, cells, drawn, k);
    LoneCellShown(t, g, cells[k], k);
  }

  /** All that is written for a lone changed cell. */
  function LoneCell(g: Geometry, cell: Cell, k: nat): seq<Sequence>
    requires g.width > 0
  {
    [Reset] + FormatChanges(None, cell.format) + [PositionSequence(g, k)] + [Letter(cell.letter)]
  }

  lemma LoneCellFrame(g: Geometry, cells: seq<Cell>, drawn: seq<Cell>, k: nat)
    requires g.width > 0 && k < |cells| == |drawn|
    requires forall i :: 0 <= i < |cells| ==> (cells[i] == drawn[i] <==> i != k)
    ensures Frame(g, cells, drawn) == LoneCell(g, cells[k], k)
  {
    hide FormatChanges, FrameFrom;
    OneDifference(g, cells, drawn, 0, k);
  }

  lemma LoneCellShown(t: Terminal, g: Geometry, cell: Cell, k: nat)
    requires t.Valid() && Fits(g, t) && k < Size(g) && Graphic(cell.letter)
    ensures Shown(t, LoneCell(g, cell, k)).grid ==
            t.grid[Place(PlaceOf(g, k).line % 256, PlaceOf(g, k).column % 256) := cell]
  {
    hide Shown, Executed, FormatChanges, PositionSequence;
    var changes := FormatChanges(None, cell.format);
    var move, letter := PositionSequence(g, k), Letter(cell.letter);
    var t2 := t.(pen := cell.format);
    var p := PlaceOf(g, k);
    var t3 := t2.(cursor := Place(p.line % 256, p.column % 256));
    ShownConcat(t, [Reset] + changes + [move], [letter]);
    ShownConcat(t, [Reset] + changes, [move]);
    PenSet(t, cell.format);
    CursorSet(t2, g, k);
    ShownOne(t3, letter);
    ExecutedSequence(t3, letter);
  }

  lemma PenSet(t: Terminal, format: Format)
    requires t.Valid()
    ensures Shown(t, [Reset] + FormatChanges(None, format)) == t.(pen := format)
  {
    hide Shown, Executed, FormatChanges;
    ShownConcat(t, [Reset], FormatChanges(None, format));
    ShownOne(t, Reset);
    ExecutedSequence(t, Reset);
    FormatChangesShown(t.(pen := t.defaults), None, format);
  }

  lemma CursorSet(t: Terminal, g: Geometry, k: nat)
    requires t.Valid() && Fits(g, t) && k < Size(g)
    ensures var p := Place(PlaceOf(g, k).line % 256, PlaceOf(g, k).column % 256);
            t.(cursor := p).Valid() && Shown(t, [PositionSequence(g, k)]) == t.(cursor := p)
  {
    hide Shown, Executed;
    PlaceInWindow(g, k);
    ShownOne(t, PositionSequence(g, k));
    ExecutedSequence(t, PositionSequence(g, k));
  }

  lemma CornerLost(g: Geometry, t: Terminal, a: Cell) returns (cells: seq<Cell>, drawn: seq<Cell>)
    requires t.Valid() && Fits(g, t) && !Addressable(g)
    requires Graphic(a.letter) && forall p :: p in t.grid ==> t.grid[p] == a
    ensures !FrameWorks(g, t, cells, drawn)
  {
    hide Shown, Frame;
    var corner := Place(g.originLine + g.height - 1, g.originColumn + g.width - 1);
    var k := WindowIndex(g, corner);
    drawn := seq(Size(g), _ => a);
    cells := drawn[k := Cell(if a.letter == 'x' then 'y' else 'x', a.format)];
    LoneCellWritten(t, g, cells, drawn, k);
    forall i | 0 <= i < |drawn|
      ensures PlaceOf(g, i) in t.grid
    {
      PlaceInWindow(g, i);
    }
    assert t.grid[corner] == a;
    assert corner != Place(corner.line % 256, corner.column % 256);
    assert !Shows(Shown(t, Frame(g, cells, drawn)), g, cells) by {
      assert PlaceOf(g, k) == corner;
    }
  }

  /** Frames bring every terminal of a size up to date, whatever was drawn before, exactly when
      no coordinate of the window exceeds 255. */
  lemma WorksIffAddressable(g: Geometry, lines: nat, columns: nat)
    requires 0 < g.width && 0 < g.height
    requires 0 <= g.originLine && g.originLine + g.height <= lines
    requires 0 <= g.originColumn && g.originColumn + g.width <= columns
    ensures Addressable(g) <==>
            forall t: Terminal, cells: seq<Cell>, drawn: seq<Cell> ::
              t.lines == lines && t.columns == columns ==> FrameWorks(g, t, cells, drawn)
  {
    hide Shown, Frame;
    if Addressable(g) {
      forall t: Terminal, cells: seq<Cell>, drawn: seq<Cell> | t.lines == lines && t.columns == columns
        ensures FrameWorks(g, t, cells, drawn)
      {
        if t.Valid() && |cells| == |drawn| == Size(g) && GraphicCells(cells) && Shows(t, g, drawn) {
          FrameShown(t, g, cells, drawn);
        }
      }
    } else {
      var format := Format(false, false, Color(255, 255, 255), Color(0, 0, 0));
      var a := Cell('a', format);
      var places := set l, c | 0 <= l < lines && 0 <= c < columns :: Place(l, c);
      var t := Terminal(lines, columns, format, map p | p in places :: a, Place(0, 0), format);
      var cells, drawn := CornerLost(g, t, a);
    }
  }

  // ---------------------------------------------------------------------------------------
  // The screen object
  // ---------------------------------------------------------------------------------------

  /** The state a screen carries between calls. */
  datatype ScreenState = ScreenState(g: Geometry, background: Cell, cells: seq<Cell>, drawn: seq<Cell>)
  {
    predicate Valid() {
      && 0 < g.width
      && 0 < g.height
      && |cells| == Size(g)
      && (drawn == [] || |drawn| == |cells|)
    }
  }

  /** A call on the screen. */
  datatype Action =
    | EditCell(column: int, line: int, cell: Cell)
    | WriteInto(text: string, column: int, line: int, format: Format)
    | Clear
    | GetString

  predicate IsInside(g: Geometry, column: int, line: int) {
    0 <= line < g.height && 0 <= column < g.width
  }

  lemma IndexInside(g: Geometry, column: int, line: int)
    requires IsInside(g, column, line)
    ensures 0 <= line * g.width && line * g.width + g.width <= Size(g)
  {
    MultiplyMonotone(line + 1, g.height, g.width);
    assert (line + 1) * g.width == line * g.width + g.width;
  }

  /** A position outside the screen designates its first cell. */
  function CellIndex(g: Geometry, column: int, line: int): (index: nat)
    requires 0 < g.width && 0 < g.height
    ensures index < Size(g)
    ensures IsInside(g, column, line) ==>
              PlaceOf(g, index) == Place(g.originLine + line, g.originColumn + column)
  {
    IndexInside(g, 0, 0);
    if IsInside(g, column, line) then
      IndexInside(g, column, line);
      Divided(line, column, g.width);
      line * g.width + column
    else 0
  }

  /** Text that does not fit on its line leaves the screen as it is. */
  function AfterWrite(s: ScreenState, text: string, column: int, line: int, format: Format): (s': ScreenState)
    requires s.Valid()
    ensures s'.Valid() && s'.g == s.g && s'.background == s.background && s'.drawn == s.drawn
  {
    if IsInside(s.g, column, line) && column + |text| <= s.g.width then
      var start := line * s.g.width + column;
      s.(cells := seq(|s.cells|, i requires 0 <= i < |s.cells| =>
           if start <= i < start + |text| then Cell(text[i - start], format) else s.cells[i]))
    else s
  }

  function After(s: ScreenState, action: Action): (s': ScreenState)
    requires s.Valid()
    ensures s'.Valid() && s'.g == s.g && s'.background == s.background
  {
    match action
    case EditCell(column, line, cell) => s.(cells := s.cells[CellIndex(s.g, column, line) := cell])
    case WriteInto(text, column, line, format) => AfterWrite(s, text, column, line, format)
    case Clear => s.(cells := seq(|s.cells|, _ => s.background))
    case GetString => s.(drawn := s.cells)
  }

  class DrawState {
    var lastWritten: Option<nat>
    var format: Option<Format>

    ghost function Value(): Draw
      reads this
    {
      Draw(lastWritten, format)
    }

    constructor ()
      ensures Value() == Draw(None, None)
    {
      lastWritten := None;
      format := None;
    }

    method WriteSequence(buffer: seq<Sequence>, target: Cell, drawn: Option<Cell>, k: nat, g: Geometry)
      returns (r: seq<Sequence>)
      requires g.width > 0
      modifies this
      ensures r == buffer + EmitCell(g, old(Value()), target, drawn, k)
      ensures Value() == NextDraw(old(Value()), target, drawn, k)
    {
      hide PositionNecessary, PositionSequence, FormatChanges;
      if drawn == Some(target) {
        return buffer;
      }
      r := ApplyFormat(buffer, target.format);
      ghost var changes := FormatChanges(format, target.format);
      if PositionNecessary(g, lastWritten, k) {
        r := r + [PositionSequence(g, k)];
        assert r == buffer + (changes + [PositionSequence(g, k)]);
      } else {
        assert r == buffer + (changes + []);
      }
      r := r + [Letter(target.letter)];
      lastWritten := Some(k);
      format := Some(target.format);
    }

    /** The sequences that turn the console's format into the target's. */
    method ApplyFormat(buffer: seq<Sequence>, target: Format) returns (r: seq<Sequence>)
      ensures r == buffer + FormatChanges(format, target)
    {
      r := buffer;
      if format == None {
        r := r + [Foreground(target.foreground)];
        r := r + [Background(target.background)];
        r := r + [Underline(target.underline)];
        r := r + [Bold(target.bold)];
      } else {
        if target.foreground != format.value.foreground {
          r := r + [Foreground(target.foreground)];
        }
        if target.background != format.value.background {
          r := r + [Background(target.background)];
        }
        if target.underline != format.value.underline {
          r := r + [Underline(target.underline)];
        }
        if target.bold != format.value.bold {
          r := r + [Bold(target.bold)];
        }
      }
    }
  }

  class Screen {
    const g: Geometry
    const background: Cell
    var cells: seq<Cell>
    var drawn: seq<Cell>
    var sequenceBuffer: seq<Sequence>

    ghost function State(): ScreenState
      reads this
    {
      ScreenState(g, background, cells, drawn)
    }

    constructor (width: nat, height: nat, startColumn: int, startLine: int, background: Cell)
      requires 0 < width && 0 < height
      ensures State().Valid()
      ensures State() == ScreenState(Geometry(width, height, startLine, startColumn), background,
                                     seq(width * height, _ => background), [])
    {
      g := Geometry(width, height, startLine, startColumn);
      this.background := background;
      cells := seq(width * height, _ => background);
      drawn := [];
      sequenceBuffer := [];
    }

    method UpdateSequenceBuffer()
      requires State().Valid()
      modifies this`sequenceBuffer
      ensures sequenceBuffer == Frame(g, cells, drawn)
    {
      hide FormatChanges, PositionNecessary;
      var state := new DrawState();
      sequenceBuffer := [Reset];
      var k := 0;
      while k < g.width * g.height
        invariant k <= |cells|
        invariant fresh(state)
        invariant sequenceBuffer + FrameFrom(g, cells, drawn, k, state.Value()) == Frame(g, cells, drawn)
      {
        ghost var was := state.Value();
        var drawnCell := None;
        if drawn != [] {
          drawnCell := Some(drawn[k]);
        }
        ghost var before := sequenceBuffer;
        ghost var emitted := EmitCell(g, was, cells[k], drawnCell, k);
        sequenceBuffer := state.WriteSequence(sequenceBuffer, cells[k], drawnCell, k, g);
        ConcatAssociative(before, emitted, FrameFrom(g, cells, drawn, k + 1, state.Value()));
        k := k + 1;
      }
    }

    /** The string that brings a console up to date; the drawn cells become the current ones. */
    method GetString() returns (text: string)
      requires State().Valid()
      modifies this
      ensures text == SequencesText(Frame(g, old(cells), old(drawn)))
      ensures State() == After(old(State()), Action.GetString)
    {
      UpdateSequenceBuffer();
      text := WriteSequencesIntoString("", sequenceBuffer);
      drawn := cells;
    }

    method EditCell(column: int, line: int, cell: Cell)
      requires State().Valid()
      modifies this`cells
      ensures State() == After(old(State()), Action.EditCell(column, line, cell))
    {
      var index := CellIndex(g, column, line);
      cells := cells[index := cell];
    }

    method WriteInto(text: string, column: int, line: int, format: Format)
      requires State().Valid()
      modifies this`cells
      ensures State() == After(old(State()), Action.WriteInto(text, column, line, format))
    {
      if line < 0 || line >= g.height || column < 0 || column >= g.width {
        return;
      }
      if column + |text| > g.width {
        return;
      }
      IndexInside(g, column, line);
      ghost var start := line * g.width + column;
      for i := 0 to |text|
        invariant |cells| == |old(cells)|
        invariant forall j :: 0 <= j < |cells| ==>
          cells[j] == if start <= j < start + i then Cell(text[j - start], format) else old(cells)[j]
      {
        cells := cells[line * g.width + column + i := Cell(text[i], format)];
      }
      assert cells == After(old(State()), Action.WriteInto(text, column, line, format)).cells;
    }

    method Clear()
      requires State().Valid()
      modifies this`cells
      ensures State() == After(old(State()), Action.Clear)
    {
      for i := 0 to |cells|
        invariant |cells| == |old(cells)|
        invariant forall j :: 0 <= j < i ==> cells[j] == background
      {
        cells := cells[i := background];
      }
      assert cells == After(old(State()), Action.Clear).cells;
    }
  }

  lemma ConcatAssociative<T>(a: seq<T>, b: seq<T>, c: seq<T>)
    ensures a + (b + c) == a + b + c
  {
  }

  // ---------------------------------------------------------------------------------------
  // Runs
  // ---------------------------------------------------------------------------------------

  /** A screen, the console that is fed its strings, and the console's reader. */
  datatype Session = Session(screen: ScreenState, console: Terminal, reader: ParserState)

  function Fed(s: Session, text: string): (s': Session)
    requires s.console.Valid()
    ensures s'.console.Valid() && s'.screen == s.screen
  {
    var parsed := ReadText(s.reader, text);
    s.(console := ExecutedAll(s.console, parsed.controls), reader := parsed.state)
  }

  function Step(s: Session, action: Action): (s': Session)
    requires s.screen.Valid() && s.console.Valid()
    ensures s'.screen == After(s.screen, action) && s'.console.Valid()
  {
    var fed := if action.GetString?
               then Fed(s, SequencesText(Frame(s.screen.g, s.screen.cells, s.screen.drawn)))
               else s;
    fed.(screen := After(s.screen, action))
  }

  function Run(s: Session, actions: seq<Action>): (s': Session)
    requires s.screen.Valid() && s.console.Valid()
    ensures s'.screen.Valid() && s'.console.Valid() && s'.screen.g == s.screen.g
    ensures s'.screen.background == s.screen.background
    decreases |actions|
  {
    if actions == [] then s
    else Step(Run(s, actions[..|actions| - 1]), actions[|actions| - 1])
  }

  predicate GraphicAction(action: Action) {
    match action
    case EditCell(_, _, cell) => Graphic(cell.letter)
    case WriteInto(text, _, _, _) => forall i :: 0 <= i < |text| ==> Graphic(text[i])
    case _ => true
  }

  ghost predicate InSync(s: Session, t0: Terminal) {
    && s.screen.Valid()
    && s.console.Valid()
    && Fits(s.screen.g, s.console)
    && Addressable(s.screen.g)
    && GraphicCells(s.screen.cells)
    && Graphic(s.screen.background.letter)
    && s.reader == Ground
    && SameOutside(s.console, t0, s.screen.g)
    && (s.screen.drawn != [] ==> Shows(s.console, s.screen.g, s.screen.drawn))
  }

  lemma {:induction false} FrameFromHasNoEscape(g: Geometry, cells: seq<Cell>, drawn: seq<Cell>, k: nat, draw: Draw)
    requires g.width > 0
    requires k <= |cells| && (drawn == [] || |drawn| == |cells|)
    requires GraphicCells(cells)
    ensures Letter(ESC) !in FrameFrom(g, cells, drawn, k, draw)
    decreases |cells| - k
  {
    hide FormatChanges, PositionNecessary;
    if k < |cells| {
      FormatChangesLetters(draw.format, cells[k].format);
      FrameFromHasNoEscape(g, cells, drawn, k + 1, NextDraw(draw, cells[k], OldCell(drawn, k), k));
    }
  }

  lemma StepKeepsSync(s: Session, action: Action, t0: Terminal)
    requires InSync(s, t0) && GraphicAction(action)
    ensures InSync(Step(s, action), t0)
    ensures action == Action.GetString ==>
              Step(s, action).screen.drawn == Step(s, action).screen.cells == s.screen.cells
  {
    hide Frame, ReadText, SequencesText, ExecutedAll;
    if action.GetString? {
      var g, cells, drawn := s.screen.g, s.screen.cells, s.screen.drawn;
      assert Letter(ESC) !in Frame(g, cells, drawn) by {
        FrameFromHasNoEscape(g, cells, drawn, 0, Draw(None, None));
        assert Frame(g, cells, drawn) == [Reset] + FrameFrom(g, cells, drawn, 0, Draw(None, None)) by {
          FrameUnfold(g, cells, drawn);
        }
      }
      ReadSequences(Frame(g, cells, drawn));
      FrameShown(s.console, g, cells, drawn);
    }
  }

  lemma FrameUnfold(g: Geometry, cells: seq<Cell>, drawn: seq<Cell>)
    requires g.width > 0
    requires drawn == [] || |drawn| == |cells|
    ensures Frame(g, cells, drawn) == [Reset] + FrameFrom(g, cells, drawn, 0, Draw(None, None))
  {
  }

  lemma {:induction false} RunKeepsSync(s: Session, actions: seq<Action>, t0: Terminal)
    requires InSync(s, t0)
    requires forall i :: 0 <= i < |actions| ==> GraphicAction(actions[i])
    ensures InSync(Run(s, actions), t0)
    decreases |actions|
  {
    hide Step, InSync;
    assert s.screen.Valid() && s.console.Valid() by { InSyncValid(s, t0); }
    if actions != [] {
      var n := |actions| - 1;
      RunKeepsSync(s, actions[..n], t0);
      StepKeepsSync(Run(s, actions[..n]), actions[n], t0);
    }
  }

  lemma InSyncValid(s: Session, t0: Terminal)
    requires InSync(s, t0)
    ensures s.screen.Valid() && s.console.Valid()
  {
  }

  /** Whatever was edited, cleared and drawn before, and whatever the console showed at first:
      once the console has read the characters of the last string, its window shows exactly the
      cells of the screen and everything outside the window is as it was at the beginning. */
  lemma EveryDrawShowsTheCells(g: Geometry, background: Cell, console: Terminal, actions: seq<Action>)
    requires console.Valid() && Fits(g, console) && Addressable(g)
    requires Graphic(background.letter)
    requires forall i :: 0 <= i < |actions| ==> GraphicAction(actions[i])
    ensures var s := Session(ScreenState(g, background, seq(Size(g), _ => background), []), console, Ground);
            var before := Run(s, actions);
            var after := Run(s, actions + [Action.GetString]);
            && after.screen.cells == before.screen.cells
            && Shows(after.console, g, before.screen.cells)
            && SameOutside(after.console, console, g)
  {
    hide Step;
    var s := Session(ScreenState(g, background, seq(Size(g), _ => background), []), console, Ground);
    var all := actions + [Action.GetString];
    IndexInside(g, 0, 0);
    assert InSync(s, console);
    RunKeepsSync(s, actions, console);
    assert all[..|all| - 1] == actions;
    assert Run(s, all) == Step(Run(s, actions), Action.GetString);
    StepKeepsSync(Run(s, actions), Action.GetString, console);
  }

  // ---------------------------------------------------------------------------------------
  // The picture in lines and columns
  // ---------------------------------------------------------------------------------------

  /** What stands at a column and a line after some calls: told from the last call that touches the
      place, without looking at any list of cells. */
  function Painted(g: Geometry, background: Cell, actions: seq<Action>, column: nat, line: nat): Cell
    decreases |actions|
  {
    if actions == [] then background
    else
      var n := |actions| - 1;
      var earlier := Painted(g, background, actions[..n], column, line);
      match actions[n]
      case EditCell(c, l, cell) =>
        var inside := 0 <= c < g.width && 0 <= l < g.height;
        if (if inside then c == column && l == line else column == line == 0) then cell else earlier
      case WriteInto(text, c, l, format) =>
        if l == line && 0 <= c <= column < c + |text| <= g.width then Cell(text[column - c], format) else earlier
      case Clear => background
      case GetString => earlier
  }

  lemma SameIndex(g: Geometry, column: nat, line: nat, c: nat, l: nat)
    requires IsInside(g, column, line) && IsInside(g, c, l)
    ensures 0 <= line * g.width + column && 0 <= l * g.width + c
    ensures line * g.width + column == l * g.width + c <==> column == c && line == l
  {
    IndexInside(g, column, line);
    IndexInside(g, c, l);
    Divided(line, column, g.width);
    Divided(l, c, g.width);
  }

  lemma EditPaints(s: ScreenState, c: int, l: int, cell: Cell, column: nat, line: nat)
    requires s.Valid() && IsInside(s.g, column, line)
    ensures var at := CellIndex(s.g, column, line);
            After(s, Action.EditCell(c, l, cell)).cells[at] ==
            if (if IsInside(s.g, c, l) then c == column && l == line else column == line == 0) then cell else s.cells[at]
  {
    if IsInside(s.g, c, l) {
      SameIndex(s.g, column, line, c, l);
    } else {
      SameIndex(s.g, column, line, 0, 0);
    }
  }

  lemma WritePaints(s: ScreenState, text: string, c: int, l: int, format: Format, column: nat, line: nat)
    requires s.Valid() && IsInside(s.g, column, line)
    ensures var at := CellIndex(s.g, column, line);
            After(s, Action.WriteInto(text, c, l, format)).cells[at] ==
            if l == line && 0 <= c <= column < c + |text| <= s.g.width then Cell(text[column - c], format) else s.cells[at]
  {
    IndexInside(s.g, column, line);
    if IsInside(s.g, c, l) && c + |text| <= s.g.width {
      var start, at := l * s.g.width + c, line * s.g.width + column;
      if start <= at < start + |text| {
        var k := at - start;
        IndexInside(s.g, c + k, l);
        SameIndex(s.g, column, line, c + k, l);
      }
    }
  }

  lemma {:induction false} CellsArePainted(s: Session, actions: seq<Action>, column: nat, line: nat)
    requires s.screen.Valid() && s.console.Valid() && IsInside(s.screen.g, column, line)
    requires s.screen.cells == seq(Size(s.screen.g), _ => s.screen.background)
    ensures Run(s, actions).screen.cells[CellIndex(s.screen.g, column, line)] ==
            Painted(s.screen.g, s.screen.background, actions, column, line)
    decreases |actions|
  {
    hide Step, CellIndex;
    if actions != [] {
      var n := |actions| - 1;
      var before := Run(s, actions[..n]).screen;
      CellsArePainted(s, actions[..n], column, line);
      match actions[n]
      case EditCell(c, l, cell) => EditPaints(before, c, l, cell, column, line);
      case WriteInto(text, c, l, format) => WritePaints(before, text, c, l, format, column, line);
      case Clear =>
      case GetString =>
    }
  }

  /** After any calls on a new screen the next string makes the console show, at every line and
      column of the window, what the calls put there. */
  lemma EveryDrawShowsThePicture(g: Geometry, background: Cell, console: Terminal, actions: seq<Action>,
                                 column: nat, line: nat)
    requires console.Valid() && Fits(g, console) && Addressable(g)
    requires Graphic(background.letter)
    requires forall i :: 0 <= i < |actions| ==> GraphicAction(actions[i])
    requires column < g.width && line < g.height
    ensures var s := Session(ScreenState(g, background, seq(Size(g), _ => background), []), console, Ground);
            var grid := Run(s, actions + [Action.GetString]).console.grid;
            var p := Place(g.originLine + line, g.originColumn + column);
            p in grid && grid[p] == Painted(g, background, actions, column, line)
  {
    hide Step, Run, Painted, After, Fits;
    var s := Session(ScreenState(g, background, seq(Size(g), _ => background), []), console, Ground);
    FitsSize(g, console);
    EveryDrawShowsTheCells(g, background, console, actions);
    CellsArePainted(s, actions, column, line);
    var k := CellIndex(g, column, line);
    assert PlaceOf(g, k) == Place(g.originLine + line, g.originColumn + column);
  }

  lemma FitsSize(g: Geometry, t: Terminal)
    requires Fits(g, t)
    ensures 0 < g.width && 0 < g.height
  {
  }

  // ---------------------------------------------------------------------------------------
  // Writing a text is editing its cells
  // ---------------------------------------------------------------------------------------

  function AfterAll(s: ScreenState, actions: seq<Action>): (s': ScreenState)
    requires s.Valid()
    ensures s'.Valid() && s'.g == s.g
    decreases |actions|
  {
    if actions == [] then s else AfterAll(After(s, actions[0]), actions[1..])
  }

  function Edits(text: string, column: int, line: int, format: Format): (actions: seq<Action>)
    decreases |text|
  {
    if text == "" then []
    else [Action.EditCell(column, line, Cell(text[0], format))] + Edits(text[1..], column + 1, line, format)
  }

  lemma WriteHead(s: ScreenState, text: string, column: int, line: int, format: Format)
    requires s.Valid() && IsInside(s.g, column, line) && 1 < |text| <= s.g.width - column
    ensures After(s, Action.WriteInto(text, column, line, format)) ==
            After(After(s, Action.EditCell(column, line, Cell(text[0], format))),
                  Action.WriteInto(text[1..], column + 1, line, format))
  {
    hide CellIndex;
    var s1 := After(s, Action.EditCell(column, line, Cell(text[0], format)));
    IndexInside(s.g, column, line);
    IndexInside(s.g, column + 1, line);
    IndexIs(s.g, column, line);
    assert After(s, Action.WriteInto(text, column, line, format)).cells ==
           After(s1, Action.WriteInto(text[1..], column + 1, line, format)).cells;
  }

  lemma IndexIs(g: Geometry, column: int, line: int)
    requires 0 < g.width && 0 < g.height && IsInside(g, column, line)
    ensures CellIndex(g, column, line) == line * g.width + column
  {
    IndexInside(g, column, line);
  }

  lemma WriteNothing(s: ScreenState, column: int, line: int, format: Format)
    requires s.Valid() && IsInside(s.g, column, line)
    ensures After(s, Action.WriteInto("", column, line, format)) == s
  {
    assert After(s, Action.WriteInto("", column, line, format)).cells == s.cells;
  }

  lemma WriteOne(s: ScreenState, c: char, column: int, line: int, format: Format)
    requires s.Valid() && IsInside(s.g, column, line)
    ensures After(s, Action.WriteInto([c], column, line, format)) ==
            After(s, Action.EditCell(column, line, Cell(c, format)))
  {
    hide CellIndex;
    IndexInside(s.g, column, line);
    IndexIs(s.g, column, line);
    assert After(s, Action.WriteInto([c], column, line, format)).cells ==
           After(s, Action.EditCell(column, line, Cell(c, format))).cells;
  }

  /** A text that fits on its line is written like its characters one after another. */
  lemma {:induction false} WriteIsEdits(s: ScreenState, text: string, column: int, line: int, format: Format)
    requires s.Valid() && IsInside(s.g, column, line) && column + |text| <= s.g.width
    ensures After(s, Action.WriteInto(text, column, line, format)) == AfterAll(s, Edits(text, column, line, format))
    decreases |text|
  {
    hide After;
    if text == "" {
      WriteNothing(s, column, line, format);
    } else {
      var s1 := After(s, Action.EditCell(column, line, Cell(text[0], format)));
      var rest := Edits(text[1..], column + 1, line, format);
      assert Edits(text, column, line, format)[1..] == rest;
      if |text| > 1 {
        WriteHead(s, text, column, line, format);
        WriteIsEdits(s1, text[1..], column + 1, line, format);
      } else {
        assert text == [text[0]] && text[1..] == "";
        WriteOne(s, text[0], column, line, format);
      }
    }
  }
}
