/** The terminal code that works in place: cells and flags in arrays, filled, moved,
    flagged and drawn by loops, against the functions that say what they do.
 */
module TerminalCalls {
  import opened Grid
  import opened Terminal

  lemma {:induction false} FlaggedAbsorbs(dirty: seq<bool>, a: nat, b: nat, top: nat, bottom: nat)
    requires top <= a <= b <= bottom <= |dirty|
    ensures Flagged(Flagged(dirty, a, b), top, bottom) == Flagged(dirty, top, bottom)
  {
    var l, r := Flagged(Flagged(dirty, a, b), top, bottom), Flagged(dirty, top, bottom);
    forall i | 0 <= i < |dirty| ensures l[i] == r[i] {
      FlaggedAt(dirty, a, b, i);
      FlaggedAt(Flagged(dirty, a, b), top, bottom, i);
      FlaggedAt(dirty, top, bottom, i);
    }
  }

  lemma CopiedMore(screen: seq<Cell>, cells: seq<Cell>, a: nat, i: nat)
    requires a <= i < |screen| == |cells|
    ensures Copied(screen, cells, a, i)[i := cells[i]] == Copied(screen, cells, a, i + 1)
  {}

  /** The places of a scroll are in bounds, and what happens there is the scroll. */
  lemma UpTarget(g: Grid, top: nat, bottom: nat, n: nat, n0: nat, c: Cell, dst: nat, src: nat, len: nat, from: nat,
                 to: nat)
    requires GridOk(g) && top <= bottom <= g.rows && CellOk(c) && n == Least(n0, bottom - top)
    requires dst == Line(g.cols, top) && src == Line(g.cols, top + n) && len == Line(g.cols, bottom - top - n)
    requires from == Line(g.cols, bottom - n) && to == Line(g.cols, bottom)
    ensures dst + len <= |g.cells| && src + len <= |g.cells| && Line(g.cols, top) <= from <= to <= |g.cells|
    ensures Redrawn(g, top, bottom, Shuffled(g.cells, dst, src, len, from, to, c)) == ScrollUp(g, top, bottom, n0, c)
  {
    ScrollPlaces(g, top, bottom, n);
  }

  lemma UpOk(g: Grid, top: nat, bottom: nat, n0: nat, c: Cell)
    requires GridOk(g) && top <= bottom <= g.rows && CellOk(c)
    ensures GridOk(ScrollUp(g, top, bottom, n0, c))
  {
    ScrollUpKeeps(g, top, bottom, n0, c);
  }

  lemma DownTarget(g: Grid, top: nat, bottom: nat, n: nat, n0: nat, c: Cell, dst: nat, src: nat, len: nat)
    requires GridOk(g) && top <= bottom <= g.rows && CellOk(c) && n == Least(n0, bottom - top)
    requires dst == Line(g.cols, top + n) && src == Line(g.cols, top) && len == Line(g.cols, bottom - top - n)
    ensures dst + len <= |g.cells| && src + len <= |g.cells| && src <= dst <= Line(g.cols, bottom) <= |g.cells|
    ensures Redrawn(g, top, bottom, Shuffled(g.cells, dst, src, len, src, dst, c)) == ScrollDown(g, top, bottom, n0, c)
  {
    ScrollPlaces(g, top, bottom, n);
  }

  lemma DownOk(g: Grid, top: nat, bottom: nat, n0: nat, c: Cell)
    requires GridOk(g) && top <= bottom <= g.rows && CellOk(c)
    ensures GridOk(ScrollDown(g, top, bottom, n0, c))
  {
    ScrollDownKeeps(g, top, bottom, n0, c);
  }

  lemma OpenBounds(g: Grid, y: nat, x: nat, n: nat, dst: nat, src: nat, len: nat)
    requires GridOk(g) && y < g.rows && x + n <= g.cols
    requires dst == At(g, y, x + n) && src == At(g, y, x) && len == g.cols - x - n
    ensures dst + len <= |g.cells| && src + len <= |g.cells|
    ensures Line(g.cols, y) <= src <= dst <= Line(g.cols, y + 1) <= |g.cells|
  {
    LineFits(g, y);
  }

  lemma OpenTarget(g: Grid, y: nat, x: nat, n: nat, c: Cell, dst: nat, src: nat, len: nat)
    requires GridOk(g) && y < g.rows && x + n <= g.cols && dst + len <= |g.cells| && src + len <= |g.cells|
    requires dst <= |g.cells|
    requires dst == At(g, y, x + n) && src == At(g, y, x) && len == g.cols - x - n
    ensures Shuffled(g.cells, dst, src, len, src, dst, c) == Opened(g, y, x, n, c)
  {}

  lemma CloseBounds(g: Grid, y: nat, x: nat, n: nat, dst: nat, src: nat, len: nat, from: nat, to: nat)
    requires GridOk(g) && y < g.rows && x + n <= g.cols
    requires dst == At(g, y, x) && src == At(g, y, x + n) && len == g.cols - x - n
    requires from == At(g, y, g.cols - n) && to == Line(g.cols, y + 1)
    ensures dst + len <= |g.cells| && src + len <= |g.cells| && Line(g.cols, y) <= from <= to <= |g.cells|
  {
    LineFits(g, y);
  }

  lemma CloseTarget(g: Grid, y: nat, x: nat, n: nat, c: Cell, dst: nat, src: nat, len: nat, from: nat, to: nat)
    requires GridOk(g) && y < g.rows && x + n <= g.cols && dst + len <= |g.cells| && src + len <= |g.cells|
    requires to <= |g.cells|
    requires dst == At(g, y, x) && src == At(g, y, x + n) && len == g.cols - x - n
    requires from == At(g, y, g.cols - n) && to == Line(g.cols, y + 1)
    ensures Shuffled(g.cells, dst, src, len, from, to, c) == Closed(g, y, x, n, c)
  {}

  lemma ShiftOk(g: Grid, y: nat, x: nat, n0: nat, insert: bool, c: Cell)
    requires GridOk(g) && y < g.rows && x < g.cols && CellOk(c)
    ensures GridOk(ShiftLine(g, y, x, n0, insert, c))
  {
    ShiftLineKeeps(g, y, x, n0, insert, c);
  }

  class Screen {
    const cols: nat
    const rows: nat
    var cells: array<Cell>
    var dirty: array<bool>
    var drawn: array<Cell>   // what the backend shows

    ghost predicate Valid()
      reads this, cells, dirty
    {
      cells != drawn && GridOk(View())
    }

    ghost function View(): Grid
      reads this, cells, dirty
    {
      Grid(cols, rows, cells[..], dirty[..])
    }

    constructor (g: Grid)
      requires GridOk(g)
      ensures Valid() && fresh(cells) && fresh(dirty) && fresh(drawn) && View() == g && drawn.Length == |g.cells|
    {
      cols, rows := g.cols, g.rows;
      cells := new Cell[|g.cells|](i requires 0 <= i < |g.cells| => g.cells[i]);
      dirty := new bool[|g.dirty|](i requires 0 <= i < |g.dirty| => g.dirty[i]);
      drawn := new Cell[|g.cells|](_ => Cell(32, 0, 0, 0));
    }

    method LineStart(y: nat) returns (p: nat)
      ensures p == Line(cols, y)
    {
      LineIsProduct(cols, y);
      p := y * cols;
    }

    method RowNumber(i: nat) returns (r: nat)
      requires cols > 0
      ensures r == RowAt(cols, i)
    {
      RowIsQuotient(cols, i);
      r := i / cols;
    }

    /** The cell loop of `vt_fill` */
    method FillCells(from: nat, to: nat, c: Cell)
      requires to <= cells.Length
      modifies cells
      ensures cells[..] == Filled(old(cells[..]), from, to, c)
    {
      var i := from;
      while i < to
        invariant i <= to || i == from
        invariant cells[..] == Filled(old(cells[..]), from, if i <= to then i else to, c)
      {
        cells[i] := c;
        i := i + 1;
      }
    }

    /** `memset` on the flags */
    method FlagRows(top: nat, bottom: nat)
      requires top <= bottom <= dirty.Length
      modifies dirty
      ensures dirty[..] == Flagged(old(dirty[..]), top, bottom)
    {
      var r := top;
      while r < bottom
        invariant top <= r <= bottom && dirty[..] == Flagged(old(dirty[..]), top, r)
      {
        dirty[r] := true;
        r := r + 1;
      }
    }

    /** `vt_fill` */
    method FillRange(from: nat, to: nat, c: Cell)
      requires Valid() && CellOk(c) && to <= cells.Length
      modifies cells, dirty
      ensures Valid() && View() == Fill(old(View()), from, to, c)
    {
      ghost var g := View();
      FillKeeps(g, from, to, c);
      FillCells(from, to, c);
      if from < to {
        FillRows(g, from, to);
        var first := RowNumber(from);
        var last := RowNumber(to - 1);
        FlagRows(first, last + 1);
      }
    }

    /** `memmove` */
    method MoveCells(dst: nat, src: nat, len: nat)
      requires dst + len <= cells.Length && src + len <= cells.Length
      modifies cells
      ensures cells[..] == Moved(old(cells[..]), dst, src, len)
    {
      forall i | dst <= i < dst + len {
        cells[i] := cells[src + (i - dst)];
      }
    }

    /** Cells moved, a stretch within the rows from `top` to `bottom` blanked, and those
        rows flagged: the shape of the scrolls and the line shift. */
    method Redraw(top: nat, bottom: nat, dst: nat, src: nat, len: nat, from: nat, to: nat, c: Cell)
      requires GridOk(View()) && top <= bottom <= rows && dst + len <= cells.Length && src + len <= cells.Length
      requires from <= to <= cells.Length && CellOk(c)
      requires Line(cols, top) <= from && to <= Line(cols, bottom)
      modifies cells, dirty
      ensures View() == Redrawn(old(View()), top, bottom, Shuffled(old(cells[..]), dst, src, len, from, to, c))
    {
      MoveCells(dst, src, len);
      FillCells(from, to, c);
      if from < to {
        FillRows(old(View()), from, to);
        RowBetween(old(View()), from, top, bottom);
        RowBetween(old(View()), to - 1, top, bottom);
        var first := RowNumber(from);
        var last := RowNumber(to - 1);
        FlaggedAbsorbs(dirty[..], first, last + 1, top, bottom);
        FlagRows(first, last + 1);
      }
      FlagRows(top, bottom);
    }

    /** `vt_scroll_up` */
    method ScrollRowsUp(top: nat, bottom: nat, n0: nat, c: Cell)
      requires Valid() && top <= bottom <= rows && CellOk(c)
      modifies cells, dirty
      ensures Valid() && View() == ScrollUp(old(View()), top, bottom, n0, c)
    {
      var n := if n0 > bottom - top then bottom - top else n0;
      var dst := LineStart(top);
      var src := LineStart(top + n);
      var len := LineStart(bottom - top - n);
      var from := LineStart(bottom - n);
      var to := LineStart(bottom);
      UpOk(View(), top, bottom, n0, c);
      UpTarget(View(), top, bottom, n, n0, c, dst, src, len, from, to);
      Redraw(top, bottom, dst, src, len, from, to, c);
    }

    /** `vt_scroll_down` */
    method ScrollRowsDown(top: nat, bottom: nat, n0: nat, c: Cell)
      requires Valid() && top <= bottom <= rows && CellOk(c)
      modifies cells, dirty
      ensures Valid() && View() == ScrollDown(old(View()), top, bottom, n0, c)
    {
      var n := if n0 > bottom - top then bottom - top else n0;
      var src := LineStart(top);
      var dst := LineStart(top + n);
      var len := LineStart(bottom - top - n);
      DownOk(View(), top, bottom, n0, c);
      DownTarget(View(), top, bottom, n, n0, c, dst, src, len);
      Redraw(top, bottom, dst, src, len, src, dst, c);
    }

    /** Cells pushed right. */
    method OpenCells(y: nat, x: nat, n: nat, ghost n0: nat, c: Cell)
      requires Valid() && y < rows && x < cols && CellOk(c) && n == Least(n0, cols - x)
      modifies cells, dirty
      ensures View() == ShiftLine(old(View()), y, x, n0, true, c)
    {
      var line := LineStart(y);
      var dst, src, len := line + x + n, line + x, cols - x - n;
      OpenBounds(View(), y, x, n, dst, src, len);
      OpenTarget(View(), y, x, n, c, dst, src, len);
      Redraw(y, y + 1, dst, src, len, src, dst, c);
    }

    /** Cells pulled left. */
    method CloseCells(y: nat, x: nat, n: nat, ghost n0: nat, c: Cell)
      requires Valid() && y < rows && x < cols && CellOk(c) && n == Least(n0, cols - x)
      modifies cells, dirty
      ensures View() == ShiftLine(old(View()), y, x, n0, false, c)
    {
      var line := LineStart(y);
      var end := LineStart(y + 1);
      var dst, src, len, from := line + x, line + x + n, cols - x - n, line + cols - n;
      CloseBounds(View(), y, x, n, dst, src, len, from, end);
      CloseTarget(View(), y, x, n, c, dst, src, len, from, end);
      Redraw(y, y + 1, dst, src, len, from, end, c);
    }

    /** `vt_shift_line` */
    method ShiftCells(y: nat, x: nat, n0: nat, insert: bool, c: Cell)
      requires Valid() && y < rows && x < cols && CellOk(c)
      modifies cells, dirty
      ensures Valid() && View() == ShiftLine(old(View()), y, x, n0, insert, c)
    {
      var n := if n0 < cols - x then n0 else cols - x;
      ShiftOk(View(), y, x, n0, insert, c);
      if insert {
        OpenCells(y, x, n, n0, c);
      } else {
        CloseCells(y, x, n, n0, c);
      }
    }

    /** The cell `vt_put_char` writes. */
    method PutCell(y: nat, x: nat, c: Cell)
      requires Valid() && y < rows && x < cols && CellOk(c)
      modifies cells, dirty
      ensures Valid() && View() == Put(old(View()), y, x, c)
    {
      PutKeeps(View(), y, x, c);
      AtFacts(View(), y, x);
      var line := LineStart(y);
      cells[line + x] := c;
      dirty[y] := true;
    }

    /** The loop of `terminal_flush_row` */
    method DrawCells(from: nat, to: nat)
      requires from <= to <= drawn.Length == cells.Length && drawn != cells
      modifies drawn
      ensures drawn[..] == Copied(old(drawn[..]), cells[..], from, to)
    {
      var i := from;
      assert Copied(drawn[..], cells[..], from, from) == drawn[..];
      while i < to
        invariant from <= i <= to && drawn[..] == Copied(old(drawn[..]), cells[..], from, i)
      {
        CopiedMore(old(drawn[..]), cells[..], from, i);
        drawn[i] := cells[i];
        i := i + 1;
      }
    }

    /** `terminal_flush_row` */
    method FlushRow(r: nat)
      requires Valid() && r < rows && drawn.Length == cells.Length
      modifies dirty, drawn
      ensures Valid() && View() == Clean(old(View()), r) && cells[..] == old(cells[..])
      ensures drawn[..] == DrawRow(old(View()), old(drawn[..]), r)
    {
      if !dirty[r] {
        return;
      }
      LinesOrdered(cols, r + 1, rows);
      var from := LineStart(r);
      var to := LineStart(r + 1);
      dirty[r] := false;
      DrawCells(from, to);
    }

    /** `terminal_flush` */
    method FlushAll()
      requires Valid() && drawn.Length == cells.Length
      modifies dirty, drawn
      ensures Valid() && (View(), drawn[..]) == Drew(old(View()), old(drawn[..]), rows)
    {
      var y := 0;
      while y < rows
        invariant y <= rows && Valid() && drawn.Length == cells.Length && cells[..] == old(cells[..])
        invariant (View(), drawn[..]) == Drew(old(View()), old(drawn[..]), y)
      {
        FlushRow(y);
        y := y + 1;
      }
    }
  }
}
