/** The cell grid of a terminal: a flat array of rows, and a dirty flag for each row.
    Every operation stays in bounds and flags each row it changes.
 */
module Grid {
  import Modular

  datatype Cell = Cell(ch: nat, fg: nat, bg: nat, attr: nat)

  datatype Grid = Grid(cols: nat, rows: nat, cells: seq<Cell>, dirty: seq<bool>)

  const COLOURS: nat := 16

  predicate CellOk(c: Cell) {
    c.fg < COLOURS && c.bg < COLOURS
  }

  predicate CellsOk(cells: seq<Cell>) {
    forall i :: 0 <= i < |cells| ==> CellOk(cells[i])
  }

  /** Where row `y` starts, by repeated addition, and which row a place is in, by repeated
      subtraction: product and quotient. */
  function Line(cols: nat, y: nat): nat {
    if y == 0 then 0 else Line(cols, y - 1) + cols
  }

  function RowAt(cols: nat, i: nat): nat {
    if cols == 0 || i < cols then 0 else 1 + RowAt(cols, i - cols)
  }

  lemma {:induction false} LineIsProduct(cols: nat, y: nat)
    ensures Line(cols, y) == y * cols
    decreases y
  {
    if y > 0 {
      LineIsProduct(cols, y - 1);
      assert y * cols == (y - 1) * cols + cols;
    }
  }

  lemma {:induction false} RowIsQuotient(cols: nat, i: nat)
    requires cols > 0
    ensures RowAt(cols, i) == i / cols
    decreases i
  {
    if i < cols {
      Modular.SmallMod(i, cols);
    } else {
      RowIsQuotient(cols, i - cols);
      Modular.ModStep(i - cols, cols);
    }
  }

  predicate Shaped(g: Grid) {
    g.cols > 0 && g.rows > 0 && |g.cells| == Line(g.cols, g.rows) && |g.dirty| == g.rows
  }

  predicate GridOk(g: Grid) {
    Shaped(g) && CellsOk(g.cells)
  }

  function RowOf(g: Grid, i: nat): nat {
    RowAt(g.cols, i)
  }

  // ---- places ----

  /** The place of column `x` in row `y`. */
  function At(g: Grid, y: nat, x: nat): nat {
    Line(g.cols, y) + x
  }

  lemma {:induction false} LinesOrdered(cols: nat, a: nat, b: nat)
    requires a <= b
    ensures Line(cols, a) <= Line(cols, b)
    decreases b
  {
    if a < b {
      LinesOrdered(cols, a, b - 1);
    }
  }

  lemma {:induction false} LineSum(cols: nat, a: nat, b: nat)
    ensures Line(cols, a + b) == Line(cols, a) + Line(cols, b)
    decreases b
  {
    if b > 0 {
      LineSum(cols, a, b - 1);
    }
  }

  lemma {:induction false} RowOfAt(cols: nat, y: nat, x: nat)
    requires x < cols
    ensures RowAt(cols, Line(cols, y) + x) == y
    decreases y
  {
    if y > 0 {
      RowOfAt(cols, y - 1, x);
    }
  }

  lemma AtFacts(g: Grid, y: nat, x: nat)
    requires y < g.rows && x < g.cols
    ensures At(g, y, x) < Line(g.cols, g.rows) && RowOf(g, At(g, y, x)) == y
    ensures Line(g.cols, y + 1) == Line(g.cols, y) + g.cols <= Line(g.cols, g.rows)
  {
    RowOfAt(g.cols, y, x);
    LinesOrdered(g.cols, y + 1, g.rows);
  }

  /** A place is in its row. */
  lemma {:induction false} RowHolds(cols: nat, i: nat)
    requires cols > 0
    ensures Line(cols, RowAt(cols, i)) <= i < Line(cols, RowAt(cols, i)) + cols
    decreases i
  {
    if i >= cols {
      RowHolds(cols, i - cols);
    }
  }

  /** A place between the starts of two rows is in a row between them. */
  lemma RowBetween(g: Grid, i: nat, top: nat, bottom: nat)
    requires g.cols > 0 && Line(g.cols, top) <= i < Line(g.cols, bottom)
    ensures top <= RowOf(g, i) < bottom
  {
    var r := RowOf(g, i);
    RowHolds(g.cols, i);
    if r < top {
      LinesOrdered(g.cols, r + 1, top);
    } else if r >= bottom {
      LinesOrdered(g.cols, bottom, r);
    }
  }

  lemma RowInGrid(g: Grid, i: nat)
    requires g.cols > 0 && i < Line(g.cols, g.rows)
    ensures RowOf(g, i) < g.rows
  {
    RowBetween(g, i, 0, g.rows);
  }

  lemma {:induction false} RowsOrdered(cols: nat, i: nat, j: nat)
    requires i <= j
    ensures RowAt(cols, i) <= RowAt(cols, j)
    decreases j
  {
    if cols > 0 && i >= cols {
      RowsOrdered(cols, i - cols, j - cols);
    }
  }

  // ---- what every operation keeps ----

  /** The same grid but for cells in rows now flagged; no flag is lowered. */
  ghost predicate Honest(g: Grid, h: Grid) {
    && h.cols == g.cols && h.rows == g.rows && |h.cells| == |g.cells| && |h.dirty| == |g.dirty|
    && (forall r :: 0 <= r < |g.dirty| && g.dirty[r] ==> h.dirty[r])
    && forall i :: 0 <= i < |g.cells| && h.cells[i] != g.cells[i] ==>
         RowOf(g, i) < |h.dirty| && h.dirty[RowOf(g, i)]
  }

  lemma HonestThen(g: Grid, h: Grid, k: Grid)
    requires Honest(g, h) && Honest(h, k)
    ensures Honest(g, k)
  {
    forall i | 0 <= i < |g.cells| && k.cells[i] != g.cells[i]
      ensures RowOf(g, i) < |k.dirty| && k.dirty[RowOf(g, i)]
    {
      if h.cells[i] == g.cells[i] {
        assert k.cells[i] != h.cells[i];
      }
    }
  }

  // ---- flags ----

  function Flagged(dirty: seq<bool>, top: nat, bottom: nat): (r: seq<bool>)
    requires top <= bottom <= |dirty|
    ensures |r| == |dirty|
  {
    if top == bottom then dirty else Flagged(dirty, top, bottom - 1)[bottom - 1 := true]
  }

  lemma {:induction false} FlaggedAt(dirty: seq<bool>, top: nat, bottom: nat, i: nat)
    requires top <= bottom <= |dirty| && i < |dirty|
    ensures Flagged(dirty, top, bottom)[i] == (dirty[i] || top <= i < bottom)
    decreases bottom
  {
    if top < bottom {
      FlaggedAt(dirty, top, bottom - 1, i);
    }
  }

  // ---- vt_fill ----

  function Filled(cells: seq<Cell>, from: nat, to: nat, c: Cell): (r: seq<Cell>)
    requires to <= |cells|
    ensures |r| == |cells|
  {
    if from >= to then cells else Filled(cells, from, to - 1, c)[to - 1 := c]
  }

  lemma {:induction false} FilledAt(cells: seq<Cell>, from: nat, to: nat, c: Cell, i: nat)
    requires to <= |cells| && i < |cells|
    ensures Filled(cells, from, to, c)[i] == if from <= i < to then c else cells[i]
    decreases |cells|, to
  {
    if from < to {
      FilledAt(cells, from, to - 1, c, i);
    }
  }

  lemma FillRows(g: Grid, from: nat, to: nat)
    requires Shaped(g) && from < to <= |g.cells|
    ensures RowOf(g, from) <= RowOf(g, to - 1) < g.rows
  {
    RowsOrdered(g.cols, from, to - 1);
    RowInGrid(g, to - 1);
  }

  /** `vt_fill`: blank cells `from` up to `to`, and the flags of their rows. */
  function Fill(g: Grid, from: nat, to: nat, c: Cell): Grid
    requires Shaped(g) && to <= |g.cells|
  {
    if from >= to then g
    else
      FillRows(g, from, to);
      g.(cells := Filled(g.cells, from, to, c), dirty := Flagged(g.dirty, RowOf(g, from), RowOf(g, to - 1) + 1))
  }

  lemma FillKeeps(g: Grid, from: nat, to: nat, c: Cell)
    requires GridOk(g) && to <= |g.cells| && CellOk(c)
    ensures GridOk(Fill(g, from, to, c)) && Honest(g, Fill(g, from, to, c))
  {
    if from < to {
      FillRows(g, from, to);
      var h, top, bottom := Fill(g, from, to, c), RowOf(g, from), RowOf(g, to - 1) + 1;
      forall r | 0 <= r < |g.dirty| && g.dirty[r] ensures h.dirty[r] {
        FlaggedAt(g.dirty, top, bottom, r);
      }
      forall i | 0 <= i < |g.cells| ensures CellOk(h.cells[i]) {
        FilledAt(g.cells, from, to, c, i);
      }
      forall i | 0 <= i < |g.cells| && h.cells[i] != g.cells[i]
        ensures RowOf(g, i) < |h.dirty| && h.dirty[RowOf(g, i)]
      {
        FilledAt(g.cells, from, to, c, i);
        RowsOrdered(g.cols, from, i);
        RowsOrdered(g.cols, i, to - 1);
        FlaggedAt(g.dirty, top, bottom, RowOf(g, i));
      }
    }
  }

  // ---- moving lines ----

  /** `memmove` within the cells */
  function Moved(cells: seq<Cell>, dst: nat, src: nat, len: nat): (r: seq<Cell>)
    requires dst + len <= |cells| && src + len <= |cells|
    ensures |r| == |cells|
  {
    cells[..dst] + cells[src..src + len] + cells[dst + len..]
  }

  function Least(a: nat, b: nat): nat {
    if a > b then b else a
  }

  /** Where a scroll of `n` lines between two rows moves cells from, to, and how many. */
  lemma ScrollPlaces(g: Grid, top: nat, bottom: nat, n: nat)
    requires top <= bottom <= g.rows && n <= bottom - top
    ensures var len := Line(g.cols, bottom - top - n);
      && Line(g.cols, top) + len == Line(g.cols, bottom - n)
      && Line(g.cols, top + n) + len == Line(g.cols, bottom)
      && Line(g.cols, top) <= Line(g.cols, top + n) <= Line(g.cols, bottom) <= Line(g.cols, g.rows)
      && Line(g.cols, bottom - n) <= Line(g.cols, bottom)
  {
    LineSum(g.cols, top, bottom - top - n);
    LineSum(g.cols, top + n, bottom - top - n);
    LinesOrdered(g.cols, top, top + n);
    LinesOrdered(g.cols, bottom - n, bottom);
    LinesOrdered(g.cols, bottom, g.rows);
  }

  /** Cells moved, and one stretch blanked after that. */
  function Shuffled(cells: seq<Cell>, dst: nat, src: nat, len: nat, from: nat, to: nat, c: Cell): (r: seq<Cell>)
    requires dst + len <= |cells| && src + len <= |cells| && to <= |cells|
    ensures |r| == |cells|
  {
    Filled(Moved(cells, dst, src, len), from, to, c)
  }

  lemma ShuffledAt(cells: seq<Cell>, dst: nat, src: nat, len: nat, from: nat, to: nat, c: Cell, i: nat)
    requires dst + len <= |cells| && src + len <= |cells| && to <= |cells| && i < |cells|
    ensures Shuffled(cells, dst, src, len, from, to, c)[i] ==
      if from <= i < to then c else if dst <= i < dst + len then cells[src + (i - dst)] else cells[i]
  {
    FilledAt(Moved(cells, dst, src, len), from, to, c, i);
  }

  /** Two cell arrays differ only between two places. */
  predicate Within(a: seq<Cell>, b: seq<Cell>, lo: nat, hi: nat) {
    |a| == |b| && forall i :: 0 <= i < |a| && b[i] != a[i] ==> lo <= i < hi
  }

  lemma ShuffledWithin(cells: seq<Cell>, dst: nat, src: nat, len: nat, from: nat, to: nat, c: Cell, lo: nat, hi: nat)
    requires dst + len <= |cells| && src + len <= |cells| && to <= |cells| && CellsOk(cells) && CellOk(c)
    requires lo <= dst && dst + len <= hi && lo <= from && to <= hi
    ensures Within(cells, Shuffled(cells, dst, src, len, from, to, c), lo, hi)
    ensures CellsOk(Shuffled(cells, dst, src, len, from, to, c))
  {
    var r := Shuffled(cells, dst, src, len, from, to, c);
    forall i | 0 <= i < |cells| ensures CellOk(r[i]) && (r[i] != cells[i] ==> lo <= i < hi) {
      ShuffledAt(cells, dst, src, len, from, to, c, i);
    }
  }

  /** New cells, and the rows from `top` to `bottom` flagged. */
  function Redrawn(g: Grid, top: nat, bottom: nat, cells: seq<Cell>): Grid
    requires top <= bottom <= |g.dirty|
  {
    g.(cells := cells, dirty := Flagged(g.dirty, top, bottom))
  }

  lemma RedrawnKeeps(g: Grid, top: nat, bottom: nat, cells: seq<Cell>)
    requires GridOk(g) && top <= bottom <= g.rows && CellsOk(cells)
    requires Within(g.cells, cells, Line(g.cols, top), Line(g.cols, bottom))
    ensures GridOk(Redrawn(g, top, bottom, cells)) && Honest(g, Redrawn(g, top, bottom, cells))
  {
    var h := Redrawn(g, top, bottom, cells);
    forall r | 0 <= r < |g.dirty| && g.dirty[r] ensures h.dirty[r] {
      FlaggedAt(g.dirty, top, bottom, r);
    }
    forall i | 0 <= i < |g.cells| && h.cells[i] != g.cells[i] ensures RowOf(g, i) < |h.dirty| && h.dirty[RowOf(g, i)] {
      RowBetween(g, i, top, bottom);
      FlaggedAt(g.dirty, top, bottom, RowOf(g, i));
    }
  }

  /** `vt_scroll_up` */
  function ScrollUp(g: Grid, top: nat, bottom: nat, n0: nat, c: Cell): Grid
    requires GridOk(g) && top <= bottom <= g.rows
  {
    var n := Least(n0, bottom - top);
    ScrollPlaces(g, top, bottom, n);
    Redrawn(g, top, bottom,
      Shuffled(g.cells, Line(g.cols, top), Line(g.cols, top + n), Line(g.cols, bottom - top - n),
               Line(g.cols, bottom - n), Line(g.cols, bottom), c))
  }

  /** `vt_scroll_down` */
  function ScrollDown(g: Grid, top: nat, bottom: nat, n0: nat, c: Cell): Grid
    requires GridOk(g) && top <= bottom <= g.rows
  {
    var n := Least(n0, bottom - top);
    ScrollPlaces(g, top, bottom, n);
    Redrawn(g, top, bottom,
      Shuffled(g.cells, Line(g.cols, top + n), Line(g.cols, top), Line(g.cols, bottom - top - n),
               Line(g.cols, top), Line(g.cols, top + n), c))
  }

  lemma ScrollUpKeeps(g: Grid, top: nat, bottom: nat, n0: nat, c: Cell)
    requires GridOk(g) && top <= bottom <= g.rows && CellOk(c)
    ensures GridOk(ScrollUp(g, top, bottom, n0, c)) && Honest(g, ScrollUp(g, top, bottom, n0, c))
  {
    var n := Least(n0, bottom - top);
    ScrollPlaces(g, top, bottom, n);
    ShuffledWithin(g.cells, Line(g.cols, top), Line(g.cols, top + n), Line(g.cols, bottom - top - n),
                   Line(g.cols, bottom - n), Line(g.cols, bottom), c, Line(g.cols, top), Line(g.cols, bottom));
    RedrawnKeeps(g, top, bottom, ScrollUp(g, top, bottom, n0, c).cells);
  }

  lemma ScrollDownKeeps(g: Grid, top: nat, bottom: nat, n0: nat, c: Cell)
    requires GridOk(g) && top <= bottom <= g.rows && CellOk(c)
    ensures GridOk(ScrollDown(g, top, bottom, n0, c)) && Honest(g, ScrollDown(g, top, bottom, n0, c))
  {
    var n := Least(n0, bottom - top);
    ScrollPlaces(g, top, bottom, n);
    ShuffledWithin(g.cells, Line(g.cols, top + n), Line(g.cols, top), Line(g.cols, bottom - top - n),
                   Line(g.cols, top), Line(g.cols, top + n), c, Line(g.cols, top), Line(g.cols, bottom));
    RedrawnKeeps(g, top, bottom, ScrollDown(g, top, bottom, n0, c).cells);
  }

  lemma LineFits(g: Grid, y: nat)
    requires GridOk(g) && y < g.rows
    ensures Line(g.cols, y + 1) == Line(g.cols, y) + g.cols <= |g.cells|
  {
    LinesOrdered(g.cols, y + 1, g.rows);
  }

  /** Opening `n` blank cells at column `x` of row `y` and pushing the rest of the line
      right. */
  function Opened(g: Grid, y: nat, x: nat, n: nat, c: Cell): seq<Cell>
    requires GridOk(g) && y < g.rows && x + n <= g.cols
  {
    LineFits(g, y);
    Shuffled(g.cells, At(g, y, x + n), At(g, y, x), g.cols - x - n, At(g, y, x), At(g, y, x + n), c)
  }

  /** Closing up over `n` cells there and blanking the end of the line. */
  function Closed(g: Grid, y: nat, x: nat, n: nat, c: Cell): seq<Cell>
    requires GridOk(g) && y < g.rows && x + n <= g.cols
  {
    LineFits(g, y);
    Shuffled(g.cells, At(g, y, x), At(g, y, x + n), g.cols - x - n, At(g, y, g.cols - n), Line(g.cols, y + 1), c)
  }

  lemma OpenedWithin(g: Grid, y: nat, x: nat, n: nat, c: Cell)
    requires GridOk(g) && y < g.rows && x + n <= g.cols && CellOk(c)
    ensures Within(g.cells, Opened(g, y, x, n, c), Line(g.cols, y), Line(g.cols, y + 1))
    ensures CellsOk(Opened(g, y, x, n, c))
  {
    LineFits(g, y);
    ShuffledWithin(g.cells, At(g, y, x + n), At(g, y, x), g.cols - x - n, At(g, y, x), At(g, y, x + n), c,
                   Line(g.cols, y), Line(g.cols, y + 1));
  }

  lemma ClosedWithin(g: Grid, y: nat, x: nat, n: nat, c: Cell)
    requires GridOk(g) && y < g.rows && x + n <= g.cols && CellOk(c)
    ensures Within(g.cells, Closed(g, y, x, n, c), Line(g.cols, y), Line(g.cols, y + 1))
    ensures CellsOk(Closed(g, y, x, n, c))
  {
    LineFits(g, y);
    ShuffledWithin(g.cells, At(g, y, x), At(g, y, x + n), g.cols - x - n, At(g, y, g.cols - n), Line(g.cols, y + 1), c,
                   Line(g.cols, y), Line(g.cols, y + 1));
  }

  /** `vt_shift_line` at column `x` of row `y` */
  function ShiftLine(g: Grid, y: nat, x: nat, n0: nat, insert: bool, c: Cell): Grid
    requires GridOk(g) && y < g.rows && x < g.cols
  {
    var n := Least(n0, g.cols - x);
    Redrawn(g, y, y + 1, if insert then Opened(g, y, x, n, c) else Closed(g, y, x, n, c))
  }

  lemma ShiftLineKeeps(g: Grid, y: nat, x: nat, n0: nat, insert: bool, c: Cell)
    requires GridOk(g) && y < g.rows && x < g.cols && CellOk(c)
    ensures GridOk(ShiftLine(g, y, x, n0, insert, c)) && Honest(g, ShiftLine(g, y, x, n0, insert, c))
  {
    var n := Least(n0, g.cols - x);
    if insert {
      OpenedWithin(g, y, x, n, c);
      RedrawnKeeps(g, y, y + 1, Opened(g, y, x, n, c));
    } else {
      ClosedWithin(g, y, x, n, c);
      RedrawnKeeps(g, y, y + 1, Closed(g, y, x, n, c));
    }
  }

  /** One cell written. */
  function Put(g: Grid, y: nat, x: nat, c: Cell): Grid
    requires GridOk(g) && y < g.rows && x < g.cols
  {
    AtFacts(g, y, x);
    g.(cells := g.cells[At(g, y, x) := c], dirty := g.dirty[y := true])
  }

  lemma PutKeeps(g: Grid, y: nat, x: nat, c: Cell)
    requires GridOk(g) && y < g.rows && x < g.cols && CellOk(c)
    ensures GridOk(Put(g, y, x, c)) && Honest(g, Put(g, y, x, c))
  {
    AtFacts(g, y, x);
  }

  // ---- what scrolling means ----

  /** Where the rows of a scroll lie among the places it moves and blanks. */
  lemma ScrollUpPlaces(g: Grid, top: nat, bottom: nat, n: nat, y: nat, x: nat)
    requires GridOk(g) && top <= bottom <= g.rows && n <= bottom - top && y < g.rows && x < g.cols
    ensures var i, len := At(g, y, x), Line(g.cols, bottom - top - n);
      && (top <= y < bottom - n ==> Line(g.cols, top) <= i < Line(g.cols, top) + len <= Line(g.cols, bottom - n))
      && (top <= y < bottom - n ==> Line(g.cols, top + n) + (i - Line(g.cols, top)) == At(g, y + n, x))
      && (bottom - n <= y < bottom ==> Line(g.cols, bottom - n) <= i < Line(g.cols, bottom))
      && (y < top ==> i < Line(g.cols, top)) && (bottom <= y ==> Line(g.cols, bottom) <= i)
  {
    ScrollPlaces(g, top, bottom, n);
    Around(g, y, top);
    Around(g, y, bottom);
    Around(g, y, bottom - n);
    LineSum(g.cols, top, n);
    LineSum(g.cols, y, n);
  }

  lemma ScrollUpCell(g: Grid, top: nat, bottom: nat, n: nat, c: Cell, y: nat, x: nat, i: nat, j: nat)
    requires GridOk(g) && top <= bottom <= g.rows && n <= bottom - top && y < g.rows && x < g.cols
    requires i == At(g, y, x) < |g.cells| && j == At(g, y + n, x)
    ensures top <= y < bottom - n ==> j < |g.cells|
    ensures (ScrollPlaces(g, top, bottom, n);
      Shuffled(g.cells, Line(g.cols, top), Line(g.cols, top + n), Line(g.cols, bottom - top - n),
               Line(g.cols, bottom - n), Line(g.cols, bottom), c)[i] ==
        if top <= y < bottom - n then g.cells[j] else if bottom - n <= y < bottom then c else g.cells[i])
  {
    ScrollPlaces(g, top, bottom, n);
    ScrollUpPlaces(g, top, bottom, n, y, x);
    ShuffledAt(g.cells, Line(g.cols, top), Line(g.cols, top + n), Line(g.cols, bottom - top - n),
               Line(g.cols, bottom - n), Line(g.cols, bottom), c, i);
  }

  /** Scrolling up shows, row by row, the row `n` below, and blank rows at the bottom. */
  lemma ScrollUpMeans(g: Grid, top: nat, bottom: nat, n0: nat, c: Cell, y: nat, x: nat)
    requires GridOk(g) && top <= bottom <= g.rows && y < g.rows && x < g.cols
    ensures var n, h := Least(n0, bottom - top), ScrollUp(g, top, bottom, n0, c);
      var i, j := At(g, y, x), At(g, y + n, x);
      && i < |g.cells| == |h.cells| && (top <= y < bottom - n ==> j < |g.cells|)
      && h.cells[i] == if top <= y < bottom - n then g.cells[j] else if bottom - n <= y < bottom then c else g.cells[i]
  {
    var n := Least(n0, bottom - top);
    AtFacts(g, y, x);
    ScrollUpCell(g, top, bottom, n, c, y, x, At(g, y, x), At(g, y + n, x));
  }

  lemma ScrollDownPlaces(g: Grid, top: nat, bottom: nat, n: nat, y: nat, x: nat)
    requires GridOk(g) && top <= bottom <= g.rows && n <= bottom - top && y < g.rows && x < g.cols
    ensures var i, len := At(g, y, x), Line(g.cols, bottom - top - n);
      && (top + n <= y < bottom ==> Line(g.cols, top + n) <= i < Line(g.cols, top + n) + len)
      && (top + n <= y < bottom ==> Line(g.cols, top) + (i - Line(g.cols, top + n)) == At(g, y - n, x))
      && (top <= y < top + n ==> Line(g.cols, top) <= i < Line(g.cols, top + n))
      && (y < top ==> i < Line(g.cols, top)) && (bottom <= y ==> Line(g.cols, bottom) <= i)
      && Line(g.cols, top + n) + len == Line(g.cols, bottom)
  {
    ScrollPlaces(g, top, bottom, n);
    Around(g, y, top);
    Around(g, y, bottom);
    Around(g, y, top + n);
    LineSum(g.cols, top, n);
    if top + n <= y {
      LineSum(g.cols, y - n, n);
    }
  }

  lemma ScrollDownCell(g: Grid, top: nat, bottom: nat, n: nat, c: Cell, y: nat, x: nat, i: nat, j: nat)
    requires GridOk(g) && top <= bottom <= g.rows && n <= bottom - top && y < g.rows && x < g.cols
    requires i == At(g, y, x) < |g.cells| && (n <= y ==> j == At(g, y - n, x))
    ensures top + n <= y < bottom ==> j < |g.cells|
    ensures (ScrollPlaces(g, top, bottom, n);
      Shuffled(g.cells, Line(g.cols, top + n), Line(g.cols, top), Line(g.cols, bottom - top - n),
               Line(g.cols, top), Line(g.cols, top + n), c)[i] ==
        if top + n <= y < bottom then g.cells[j] else if top <= y < top + n then c else g.cells[i])
  {
    ScrollPlaces(g, top, bottom, n);
    ScrollDownPlaces(g, top, bottom, n, y, x);
    ShuffledAt(g.cells, Line(g.cols, top + n), Line(g.cols, top), Line(g.cols, bottom - top - n),
               Line(g.cols, top), Line(g.cols, top + n), c, i);
  }

  /** Scrolling down shows the row `n` above, and blank rows at the top. */
  lemma ScrollDownMeans(g: Grid, top: nat, bottom: nat, n0: nat, c: Cell, y: nat, x: nat)
    requires GridOk(g) && top <= bottom <= g.rows && y < g.rows && x < g.cols
    ensures var n, h := Least(n0, bottom - top), ScrollDown(g, top, bottom, n0, c);
      var i, j := At(g, y, x), if n <= y then At(g, y - n, x) else 0;
      && i < |g.cells| == |h.cells| && (top + n <= y < bottom ==> j < |g.cells|)
      && h.cells[i] == if top + n <= y < bottom then g.cells[j] else if top <= y < top + n then c else g.cells[i]
  {
    var n := Least(n0, bottom - top);
    AtFacts(g, y, x);
    ScrollDownCell(g, top, bottom, n, c, y, x, At(g, y, x), if n <= y then At(g, y - n, x) else 0);
  }

  lemma OpenedCell(g: Grid, y: nat, x: nat, n: nat, c: Cell, k: nat, i: nat)
    requires GridOk(g) && y < g.rows && x + n <= g.cols && k < g.cols && i == At(g, y, k)
    ensures i < |g.cells| && Opened(g, y, x, n, c)[i] ==
      if k < x then g.cells[i] else if k < x + n then c else g.cells[i - n]
  {
    AtFacts(g, y, k);
    LineFits(g, y);
    ShuffledAt(g.cells, At(g, y, x + n), At(g, y, x), g.cols - x - n, At(g, y, x), At(g, y, x + n), c, i);
  }

  lemma ClosedCell(g: Grid, y: nat, x: nat, n: nat, c: Cell, k: nat, i: nat)
    requires GridOk(g) && y < g.rows && x + n <= g.cols && k < g.cols && i == At(g, y, k)
    ensures i < |g.cells| && (k < g.cols - n ==> i + n < |g.cells|)
    ensures Closed(g, y, x, n, c)[i] == if k < x then g.cells[i] else if k < g.cols - n then g.cells[i + n] else c
  {
    AtFacts(g, y, k);
    LineFits(g, y);
    ShuffledAt(g.cells, At(g, y, x), At(g, y, x + n), g.cols - x - n, At(g, y, g.cols - n), Line(g.cols, y + 1), c, i);
  }

  /** Inserting opens blank cells at the cursor and pushes the rest of the line right;
      deleting pulls the rest left and blanks the end; other lines stay. */
  lemma ShiftLineMeans(g: Grid, y: nat, x: nat, n0: nat, insert: bool, c: Cell, r: nat, k: nat)
    requires GridOk(g) && y < g.rows && x < g.cols && r < g.rows && k < g.cols && CellOk(c)
    ensures var n, h, i := Least(n0, g.cols - x), ShiftLine(g, y, x, n0, insert, c), At(g, r, k);
      && i < |g.cells| == |h.cells|
      && (r != y || k < x ==> h.cells[i] == g.cells[i])
      && (r == y && k >= x && insert ==> h.cells[i] == if k < x + n then c else g.cells[i - n])
      && (r == y && k >= x && !insert && k >= g.cols - n ==> h.cells[i] == c)
      && (r == y && k >= x && !insert && k < g.cols - n ==> i + n < |g.cells| && h.cells[i] == g.cells[i + n])
  {
    var n, i := Least(n0, g.cols - x), At(g, r, k);
    AtFacts(g, r, k);
    if r != y {
      ShiftLineElsewhere(g, y, x, n0, insert, c, r, k);
    } else if insert {
      OpenedCell(g, y, x, n, c, k, i);
    } else {
      ClosedCell(g, y, x, n, c, k, i);
    }
  }

  lemma ShiftLineElsewhere(g: Grid, y: nat, x: nat, n0: nat, insert: bool, c: Cell, r: nat, k: nat)
    requires GridOk(g) && y < g.rows && x < g.cols && r < g.rows && k < g.cols && CellOk(c) && r != y
    ensures var h, i := ShiftLine(g, y, x, n0, insert, c), At(g, r, k);
      i < |g.cells| == |h.cells| && h.cells[i] == g.cells[i]
  {
    var n := Least(n0, g.cols - x);
    AtFacts(g, r, k);
    Around(g, r, y);
    Around(g, r, y + 1);
    if insert {
      OpenedWithin(g, y, x, n, c);
    } else {
      ClosedWithin(g, y, x, n, c);
    }
  }

  /** A row is wholly before or wholly from the start of another. */
  lemma Around(g: Grid, y: nat, r: nat)
    ensures y < r ==> Line(g.cols, y) + g.cols <= Line(g.cols, r)
    ensures r <= y ==> Line(g.cols, r) <= Line(g.cols, y)
  {
    if y < r {
      LinesOrdered(g.cols, y + 1, r);
    } else {
      LinesOrdered(g.cols, r, y);
    }
  }
}
