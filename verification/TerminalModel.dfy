/** A character terminal with automatic margins: what a console shows after it has read a
    stream of control functions. */
module TerminalModel {
  import opened Basics
  import opened OofSequences

  datatype Place = Place(line: int, column: int)

  /** A cursor column equal to `columns` is the pending wrap after a write in the last column. */
  datatype Terminal = Terminal(
    lines: nat,
    columns: nat,
    defaults: Format,
    grid: map<Place, Cell>,
    cursor: Place,
    pen: Format)
  {
    predicate Valid() {
      && 0 < lines
      && 0 < columns
      && 0 <= cursor.line < lines
      && 0 <= cursor.column <= columns
      && (forall l, c :: 0 <= l < lines && 0 <= c < columns ==> Place(l, c) in grid)
    }
  }

  /** Every line moves up by one and the last line becomes blank. */
  function Scrolled(t: Terminal): map<Place, Cell> {
    map p | p in t.grid :: if Place(p.line + 1, p.column) in t.grid
                           then t.grid[Place(p.line + 1, p.column)]
                           else Cell(' ', t.pen)
  }

  function Wrapped(t: Terminal): Terminal {
    if t.cursor.column < t.columns then t
    else if t.cursor.line + 1 < t.lines then t.(cursor := Place(t.cursor.line + 1, 0))
    else t.(cursor := Place(t.cursor.line, 0), grid := Scrolled(t))
  }

  /** Control characters occupy no cell; here the terminal passes over them. */
  predicate Graphic(letter: char) {
    ' ' <= letter < '\U{007F}' || '\U{00A0}' <= letter
  }

  function Printed(t: Terminal, letter: char): Terminal {
    var w := Wrapped(t);
    w.(grid := w.grid[w.cursor := Cell(letter, w.pen)],
       cursor := Place(w.cursor.line, w.cursor.column + 1))
  }

  function AtMost255(n: nat): Byte {
    if n < 256 then n else 255
  }

  function Rendition(pen: Format, defaults: Format, params: seq<nat>): Format
    decreases |params|
  {
    if params == [] then pen
    else
      var code := params[0];
      if (code == 38 || code == 48) && |params| >= 5 && params[1] == 2 then
        var color := Color(AtMost255(params[2]), AtMost255(params[3]), AtMost255(params[4]));
        Rendition(if code == 38 then pen.(foreground := color) else pen.(background := color),
                  defaults, params[5..])
      else
        var pen' :=
          if code == 0 then defaults
          else if code == 1 then pen.(bold := true)
          else if code == 22 then pen.(bold := false)
          else if code == 4 then pen.(underline := true)
          else if code == 24 then pen.(underline := false)
          else pen;
        Rendition(pen', defaults, params[1..])
  }

  /** CUP coordinates count from 1, a missing or zero one means 1, and the cursor stops at the
      edges of the terminal. */
  function Coordinate(params: seq<nat>, i: nat, size: nat): nat
    requires 0 < size
  {
    var n := if i < |params| && params[i] > 0 then params[i] - 1 else 0;
    if n < size then n else size - 1
  }

  function Executed(t: Terminal, control: Control): Terminal
    requires t.Valid()
  {
    match control
    case Print(letter) => if Graphic(letter) then Printed(t, letter) else t
    case Sgr(params) => t.(pen := Rendition(t.pen, t.defaults, params))
    case Cup(params) =>
      t.(cursor := Place(Coordinate(params, 0, t.lines), Coordinate(params, 1, t.columns)))
  }

  lemma ExecutedValid(t: Terminal, control: Control)
    requires t.Valid()
    ensures Executed(t, control).Valid()
  {
  }

  function ExecutedAll(t: Terminal, controls: seq<Control>): (t': Terminal)
    requires t.Valid()
    ensures t'.Valid()
    decreases controls
  {
    if controls == [] then t
    else
      ExecutedValid(t, controls[0]);
      ExecutedAll(Executed(t, controls[0]), controls[1..])
  }

  lemma {:induction false} ExecutedConcat(t: Terminal, a: seq<Control>, b: seq<Control>)
    requires t.Valid()
    ensures ExecutedAll(t, a + b) == ExecutedAll(ExecutedAll(t, a), b)
    decreases a
  {
    hide Executed;
    if a == [] {
      assert a + b == b;
    } else {
      ExecutedValid(t, a[0]);
      assert (a + b)[1..] == a[1..] + b;
      ExecutedConcat(Executed(t, a[0]), a[1..], b);
    }
  }

  lemma RenditionOne(pen: Format, defaults: Format, code: nat)
    requires code != 38 && code != 48
    ensures Rendition(pen, defaults, [code]) ==
            if code == 0 then defaults
            else if code == 1 then pen.(bold := true)
            else if code == 22 then pen.(bold := false)
            else if code == 4 then pen.(underline := true)
            else if code == 24 then pen.(underline := false)
            else pen
  {
    assert [code][1..] == [];
  }

  /** What the terminal does with one renderer sequence. */
  lemma ExecutedSequence(t: Terminal, sequence: Sequence)
    requires t.Valid()
    ensures Executed(t, ControlOf(sequence)) ==
            match sequence
            case Letter(c) => if Graphic(c) then Printed(t, c) else t
            case Position(line, column) =>
              t.(cursor := Place(if line < t.lines then line else t.lines - 1,
                                 if column < t.columns then column else t.columns - 1))
            case Reset => t.(pen := t.defaults)
            case Foreground(c) => t.(pen := t.pen.(foreground := c))
            case Background(c) => t.(pen := t.pen.(background := c))
            case Underline(on) => t.(pen := t.pen.(underline := on))
            case Bold(on) => t.(pen := t.pen.(bold := on))
  {
    var control := ControlOf(sequence);
    if control.Sgr? {
      var params := control.params;
      if |params| == 5 {
        assert params[5..] == [];
        assert Rendition(t.pen, t.defaults, params) ==
               if params[0] == 38
               then t.pen.(foreground := Color(params[2], params[3], params[4]))
               else t.pen.(background := Color(params[2], params[3], params[4]));
      } else {
        RenditionOne(t.pen, t.defaults, params[0]);
      }
    }
  }
}
