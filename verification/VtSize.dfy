/** How a terminal comes to be and how it changes size: whatever the memory it was given
    held, it starts blank, and a new size keeps the text around the cursor.
 */
module VtSize {
  import opened Grid
  import opened Vt

  // ---- vt_init ----

  const CLEARED: Pen := Pen(0, 0, false, false, false)

  /** The fields cleared, cells and flags as the allocator left them, and then a reset. */
  function Created(cols: nat, rows: nat, cells: seq<Cell>, dirty: seq<bool>): Vt
    requires Shaped(Grid(cols, rows, cells, dirty))
  {
    Reset(Vt(Grid(cols, rows, cells, dirty), Cursor(0, 0), CLEARED, Cursor(0, 0), CLEARED, false, false,
             Parser(Normal, false, NoParams(MAX_PARAMS), 0), []))
  }

  /** A blank terminal that has never been written to. */
  function Unwritten(cols: nat, rows: nat): Vt {
    Vt(Grid(cols, rows, seq(Line(cols, rows), _ => Blank(DEFAULT_PEN)), seq(rows, _ => true)),
       Cursor(0, 0), DEFAULT_PEN, Cursor(0, 0), DEFAULT_PEN, false, true,
       Parser(Normal, false, NoParams(MAX_PARAMS), 0), [])
  }

  /** `vt_init` leaves a blank terminal in order, whatever its memory held. */
  lemma CreatedIsBlank(cols: nat, rows: nat, cells: seq<Cell>, dirty: seq<bool>)
    requires Shaped(Grid(cols, rows, cells, dirty))
    ensures Created(cols, rows, cells, dirty) == Unwritten(cols, rows)
    ensures Ok(Unwritten(cols, rows)) && WrapsAtEnd(Unwritten(cols, rows))
  {
    var g, n := Grid(cols, rows, cells, dirty), |cells|;
    LinesOrdered(cols, 1, rows);
    FillRows(g, 0, n);
    LastRow(g);
    var h := Fill(g, 0, n, Blank(DEFAULT_PEN));
    forall i | 0 <= i < n ensures h.cells[i] == Blank(DEFAULT_PEN) {
      FilledAt(cells, 0, n, Blank(DEFAULT_PEN), i);
    }
    forall r | 0 <= r < rows ensures h.dirty[r] {
      FlaggedAt(dirty, 0, rows, r);
    }
    assert h == Unwritten(cols, rows).g;
  }

  /** The last place is in the last row. */
  lemma LastRow(g: Grid)
    requires Shaped(g)
    ensures |g.cells| > 0 && RowOf(g, |g.cells| - 1) == g.rows - 1
  {
    RowOfAt(g.cols, g.rows - 1, g.cols - 1);
  }

  // ---- vt_resize ----

  /** How many rows go off the top so that the cursor's row stays. */
  function Shift(v: Vt, rows: nat): nat {
    if v.cur.y >= rows then v.cur.y - rows + 1 else 0
  }

  /** What a new size shows in column `x` of row `y`. */
  function Carried(v: Vt, rows: nat, y: nat, x: nat): (c: Cell)
    requires Ok(v)
    ensures CellOk(c)
  {
    var row := y + Shift(v, rows);
    if row < v.g.rows && x < v.g.cols then
      AtFacts(v.g, row, x);
      v.g.cells[At(v.g, row, x)]
    else Blank(v.pen)
  }

  function CarriedAt(v: Vt, cols: nat, rows: nat, i: nat): Cell
    requires Ok(v) && cols > 0
  {
    RowHolds(cols, i);
    Carried(v, rows, RowAt(cols, i), i - Line(cols, RowAt(cols, i)))
  }

  function CarriedCells(v: Vt, cols: nat, rows: nat, n: nat): (r: seq<Cell>)
    requires Ok(v) && cols > 0
    ensures |r| == n && forall i :: 0 <= i < n ==> r[i] == CarriedAt(v, cols, rows, i)
  {
    seq(n, i requires i >= 0 => CarriedAt(v, cols, rows, i))
  }

  /** `vt_resize`, with memory for it */
  function Resized(v: Vt, cols: nat, rows: nat): Vt
    requires Ok(v) && cols > 0 && rows > 0
  {
    if cols == v.g.cols && rows == v.g.rows then v
    else
      v.(g := Grid(cols, rows, CarriedCells(v, cols, rows, Line(cols, rows)), seq(rows, _ => true)),
         cur := Cursor(Clamp(v.cur.x, cols), v.cur.y - Shift(v, rows)),
         savedCur := Cursor(Clamp(v.savedCur.x, cols), Clamp(v.savedCur.y, rows)))
  }

  /** A new size keeps the terminal in order; it leaves a wrap pending short of the last
      column if and only if one was pending and the lines grew. */
  lemma ResizedOk(v: Vt, cols: nat, rows: nat)
    requires Ok(v) && cols > 0 && rows > 0
    ensures Ok(Resized(v, cols, rows))
    ensures Resized(v, cols, rows).g.cols == cols && Resized(v, cols, rows).g.rows == rows
    ensures WrapsAtEnd(v) ==> (WrapsAtEnd(Resized(v, cols, rows)) <==> !v.wrap || cols <= v.g.cols)
  {
    var cells := CarriedCells(v, cols, rows, Line(cols, rows));
    forall i | 0 <= i < |cells| ensures CellOk(cells[i]) {
      assert cells[i] == CarriedAt(v, cols, rows, i);
    }
  }

  /** Cell by cell: the old text moved up by the shift, and blanks around it. */
  lemma ResizedCell(v: Vt, cols: nat, rows: nat, y: nat, x: nat)
    requires Ok(v) && y < rows && x < cols
    ensures At(Resized(v, cols, rows).g, y, x) < |Resized(v, cols, rows).g.cells|
    ensures Resized(v, cols, rows).g.cells[At(Resized(v, cols, rows).g, y, x)] == Carried(v, rows, y, x)
  {
    var w := Resized(v, cols, rows);
    ResizedOk(v, cols, rows);
    AtFacts(w.g, y, x);
    RowOfAt(cols, y, x);
  }

  /** The character under the cursor stays under it as long as its column is there, and the
      cursor's row is the bottom row when rows had to go. */
  lemma CursorKeepsItsText(v: Vt, cols: nat, rows: nat)
    requires Ok(v) && v.cur.x < cols && rows > 0
    ensures var w := Resized(v, cols, rows);
      && At(v.g, v.cur.y, v.cur.x) < |v.g.cells| && At(w.g, w.cur.y, w.cur.x) < |w.g.cells|
      && w.g.cells[At(w.g, w.cur.y, w.cur.x)] == v.g.cells[At(v.g, v.cur.y, v.cur.x)]
      && (v.cur.y >= rows ==> w.cur.y == rows - 1)
  {
    var w := Resized(v, cols, rows);
    ResizedOk(v, cols, rows);
    ResizedCell(v, cols, rows, w.cur.y, w.cur.x);
    AtFacts(v.g, v.cur.y, v.cur.x);
  }

  /** A larger size and back again changes nothing but the flags. */
  lemma GrowAndBack(v: Vt, cols: nat, rows: nat)
    requires Ok(v) && cols >= v.g.cols && rows >= v.g.rows
    ensures var w := Resized(v, cols, rows);
      && Ok(w)
      && Resized(w, v.g.cols, v.g.rows) ==
         if w == v then v else v.(g := v.g.(dirty := seq(v.g.rows, _ => true)))
  {
    var w := Resized(v, cols, rows);
    ResizedOk(v, cols, rows);
    if cols != v.g.cols || rows != v.g.rows {
      var u := Resized(w, v.g.cols, v.g.rows);
      ResizedOk(w, v.g.cols, v.g.rows);
      forall i | 0 <= i < |v.g.cells| ensures u.g.cells[i] == v.g.cells[i] {
        BackAt(v, w, cols, rows, i);
      }
      assert u.g.cells == v.g.cells;
    }
  }

  lemma BackAt(v: Vt, w: Vt, cols: nat, rows: nat, i: nat)
    requires Ok(v) && cols >= v.g.cols && rows >= v.g.rows && (cols != v.g.cols || rows != v.g.rows)
    requires w == Resized(v, cols, rows) && Ok(w) && i < |v.g.cells|
    ensures i < |Resized(w, v.g.cols, v.g.rows).g.cells|
    ensures Resized(w, v.g.cols, v.g.rows).g.cells[i] == v.g.cells[i]
  {
    var y := RowAt(v.g.cols, i);
    RowHolds(v.g.cols, i);
    RowInGrid(v.g, i);
    var x := i - Line(v.g.cols, y);
    ResizedCell(v, cols, rows, y, x);
    ResizedCell(w, v.g.cols, v.g.rows, y, x);
  }

  /** `vt_resize` as it goes: a terminal that got no memory keeps its size. */
  function Tried(v: Vt, cols: nat, rows: nat, memory: bool): Vt
    requires Ok(v) && cols > 0 && rows > 0
  {
    if memory then Resized(v, cols, rows) else v
  }

  /** It has the size asked for if and only if there was memory or nothing to do. */
  lemma TriedSizeIff(v: Vt, cols: nat, rows: nat, memory: bool)
    requires Ok(v) && cols > 0 && rows > 0
    ensures var w := Tried(v, cols, rows, memory);
      && Ok(w)
      && ((w.g.cols == cols && w.g.rows == rows) <==> memory || (v.g.cols == cols && v.g.rows == rows))
  {
    ResizedOk(v, cols, rows);
  }

  // ---- a terminal and a screen of different sizes ----

  /** A screen of `cols` by `rows` once all of a grid has been drawn on it: what lies beyond
      the screen is passed over, and what lies beyond the grid stays. */
  function PaintedAt(g: Grid, cols: nat, screen: seq<Cell>, i: nat): Cell
    requires Shaped(g) && cols > 0 && i < |screen|
  {
    RowHolds(cols, i);
    var y, x := RowAt(cols, i), i - Line(cols, RowAt(cols, i));
    if y < g.rows && x < g.cols then
      AtFacts(g, y, x);
      g.cells[At(g, y, x)]
    else screen[i]
  }

  function Painted(g: Grid, cols: nat, screen: seq<Cell>): (r: seq<Cell>)
    requires Shaped(g) && cols > 0
    ensures |r| == |screen| && forall i :: 0 <= i < |r| ==> r[i] == PaintedAt(g, cols, screen, i)
  {
    seq(|screen|, i requires 0 <= i < |screen| => PaintedAt(g, cols, screen, i))
  }

  /** The whole screen is the grid's, whatever it showed before. */
  ghost predicate Filled(g: Grid, cols: nat, rows: nat)
    requires Shaped(g) && cols > 0
  {
    forall screen: seq<Cell>, before: seq<Cell> :: |screen| == |before| == Line(cols, rows) ==>
      Painted(g, cols, screen) == Painted(g, cols, before)
  }

  lemma PaintedPlace(g: Grid, cols: nat, rows: nat, screen: seq<Cell>, y: nat, x: nat)
    requires Shaped(g) && y < rows && x < cols && |screen| == Line(cols, rows)
    ensures Line(cols, y) + x < |screen|
    ensures y < g.rows && x < g.cols ==> At(g, y, x) < |g.cells|
    ensures Painted(g, cols, screen)[Line(cols, y) + x] ==
      if y < g.rows && x < g.cols then g.cells[At(g, y, x)] else screen[Line(cols, y) + x]
  {
    RowOfAt(cols, y, x);
    LinesOrdered(cols, y + 1, rows);
    if y < g.rows && x < g.cols {
      AtFacts(g, y, x);
    }
  }

  /** It is, if and only if the grid is no smaller than the screen. */
  lemma FilledIff(g: Grid, cols: nat, rows: nat)
    requires Shaped(g) && cols > 0 && rows > 0
    ensures Filled(g, cols, rows) <==> g.cols >= cols && g.rows >= rows
  {
    var n := Line(cols, rows);
    LinesOrdered(cols, 1, rows);
    if g.cols >= cols && g.rows >= rows {
      forall a: seq<Cell>, b: seq<Cell> | |a| == |b| == n ensures Painted(g, cols, a) == Painted(g, cols, b) {
        forall i | 0 <= i < n ensures Painted(g, cols, a)[i] == Painted(g, cols, b)[i] {
          RowHolds(cols, i);
          RowBetween(Grid(cols, rows, a, []), i, 0, rows);
        }
      }
    } else {
      var y, x := if g.rows < rows then g.rows else 0, if g.rows < rows then 0 else g.cols;
      var a, b := seq(n, _ => Cell(0, 0, 0, 0)), seq(n, _ => Cell(1, 0, 0, 0));
      PaintedPlace(g, cols, rows, a, y, x);
      PaintedPlace(g, cols, rows, b, y, x);
      assert Painted(g, cols, a)[Line(cols, y) + x] != Painted(g, cols, b)[Line(cols, y) + x];
    }
  }

  /** With the screen's own size the grid is what the screen shows. */
  lemma PaintedSame(g: Grid, screen: seq<Cell>)
    requires Shaped(g) && |screen| == |g.cells|
    ensures Painted(g, g.cols, screen) == g.cells
  {
    forall i | 0 <= i < |screen| ensures Painted(g, g.cols, screen)[i] == g.cells[i] {
      RowHolds(g.cols, i);
      RowInGrid(g, i);
    }
  }

  /** After a change of mode for which a terminal may get no memory: the screen shows it, all
      of it and nothing else, if there was memory or the size was right already; without, it
      covers the screen if and only if its old size does. */
  lemma ModeShows(v: Vt, cols: nat, rows: nat, memory: bool, screen: seq<Cell>)
    requires Ok(v) && cols > 0 && rows > 0 && |screen| == Line(cols, rows)
    ensures var w := Tried(v, cols, rows, memory);
      && Ok(w)
      && (memory || (v.g.cols == cols && v.g.rows == rows) ==> Painted(w.g, cols, screen) == w.g.cells)
      && (Filled(w.g, cols, rows) <==> memory || (v.g.cols >= cols && v.g.rows >= rows))
  {
    TriedSizeIff(v, cols, rows, memory);
    var w := Tried(v, cols, rows, memory);
    FilledIff(w.g, cols, rows);
    if w.g.cols == cols && w.g.rows == rows {
      PaintedSame(w.g, screen);
    }
  }
}
