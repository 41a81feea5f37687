/** The escape-sequence machine as it changes its own fields, against the functions of
    `Vt`.
 */
module VtCalls {
  import Seqs
  import opened Grid
  import opened Vt
  import opened VtSize
  import opened TerminalCalls

  /** The first `k` elements from the last to the first. */
  function Backwards(s: seq<nat>, k: nat): seq<nat>
    requires k <= |s|
    decreases k, s
  {
    if k == 0 then [] else [s[k - 1]] + Backwards(s, k - 1)
  }

  lemma {:induction false} BackwardsSame(s: seq<nat>, t: seq<nat>, k: nat)
    requires k <= |s| && k <= |t| && forall i :: 0 <= i < k ==> s[i] == t[i]
    ensures Backwards(s, k) == Backwards(t, k)
    decreases k
  {
    if k > 0 {
      BackwardsSame(s, t, k - 1);
    }
  }

  lemma BackwardsMore(s: seq<nat>, d: nat)
    ensures Backwards(s + [d], |s| + 1) == [d] + Backwards(s, |s|)
  {
    BackwardsSame(s + [d], s, |s|);
  }

  lemma ReplyOne(r: seq<nat>, c: nat, s: seq<nat>)
    requires |r| < RESPONSE_MAX
    ensures Reply(r, [c] + s) == Reply(r + [c], s)
  {
    if |r| + 1 + |s| <= RESPONSE_MAX {
      assert r + ([c] + s) == r + [c] + s;
    } else {
      var k := RESPONSE_MAX - |r|;
      assert ([c] + s)[..k] == [c] + s[..k - 1];
      assert r + ([c] + s[..k - 1]) == r + [c] + s[..k - 1];
    }
  }

  lemma ReplyFull(r: seq<nat>, s: seq<nat>)
    requires |r| == RESPONSE_MAX
    ensures Reply(r, s) == r
  {}

  lemma ReplyNil(r: seq<nat>)
    requires |r| <= RESPONSE_MAX
    ensures Reply(r, []) == r
  {}

  lemma DigitsNext(n: nat, tail: seq<nat>)
    requires n > 0
    ensures Digits(n) + tail == Above(n / 10) + ([48 + n % 10] + tail)
  {
    if n < 10 {
      Seqs.Nil([48 + n % 10] + tail);
    } else {
      Seqs.Assoc(Digits(n / 10), [48 + n % 10], tail);
    }
  }

  /** The digits still to come, none for zero. */
  function Above(n: nat): seq<nat> {
    if n > 0 then Digits(n) else []
  }

  /** The digit loop of `vt_respond_number`: the last digit first. */
  method CollectDigits(n: nat) returns (digits: seq<nat>)
    ensures Backwards(digits, |digits|) == Digits(n)
  {
    var rest: nat := n / 10;
    digits := [48 + n % 10];
    assert Backwards(digits, 1) == [48 + n % 10] + Backwards(digits, 0);
    assert Digits(n) == Above(rest) + [48 + n % 10];
    while rest > 0
      invariant Digits(n) == Above(rest) + Backwards(digits, |digits|)
    {
      BackwardsMore(digits, 48 + rest % 10);
      DigitsNext(rest, Backwards(digits, |digits|));
      digits := digits + [48 + rest % 10];
      rest := rest / 10;
    }
    Seqs.Nil(Backwards(digits, |digits|));
  }

  function Position(r: seq<nat>, x: nat, y: nat): seq<nat>
    requires |r| <= RESPONSE_MAX
  {
    Reply(Reply(Reply(Reply(Reply(r, [27, 91]), Digits(y + 1)), [59]), Digits(x + 1)), [82])
  }

  /** Cells first, then the cursor, then the reply. */
  lemma WorkedInSteps(v: Vt, c: char)
    requires Ok(v)
    ensures var v1 := v.(wrap := v.wrap && c in {'n', 'c'});
      && Ok(v1)
      && var v2 := v1.(g := Edit(v1, c));
      && Ok(v2)
      && var v3 := v2.(cur := Move(v2, c));
      && Ok(v3) && v3.(response := Asked(v3, c)) == Worked(v, c) && Ok(Worked(v, c))
  {
    var v1 := v.(wrap := v.wrap && c in {'n', 'c'});
    EditOf(v, v1, c);
    EditSteps(v1, c);
    var v2 := v1.(g := Edit(v1, c));
    MoveOf(v, v2, c);
    MoveOk(v2, c);
    AskedOf(v, v2.(cur := Move(v2, c)), c);
    AskedOk(v, c);
  }

  lemma MoveOf(v: Vt, w: Vt, c: char)
    requires Ok(v) && Ok(w) && w.g.cols == v.g.cols && w.g.rows == v.g.rows && w.cur == v.cur && w.parser == v.parser
    ensures Move(w, c) == Move(v, c)
  {}

  lemma AskedOf(v: Vt, w: Vt, c: char)
    requires Ok(v) && Ok(w) && w.parser == v.parser && w.response == v.response && (c in {'n', 'c'} ==> w.cur == v.cur)
    ensures Asked(w, c) == Asked(v, c)
  {}

  /** Edits look at the parser, the cursor, the pen and the cells. */
  lemma EditOf(v: Vt, w: Vt, c: char)
    requires Ok(v) && Ok(w) && w.g == v.g && w.cur == v.cur && w.pen == v.pen && w.parser == v.parser
    ensures Edit(w, c) == Edit(v, c)
  {}

  lemma CarriedMore(v: Vt, cols: nat, rows: nat, row: nat, x: nat, n: nat, cells: seq<Cell>, c: Cell)
    requires Ok(v) && x < cols && n == Line(cols, row) + x && cells == CarriedCells(v, cols, rows, n)
    requires c == Carried(v, rows, row, x)
    ensures cells + [c] == CarriedCells(v, cols, rows, n + 1)
  {
    RowOfAt(cols, row, x);
  }

  class Machine {
    const screen: Screen
    const params: array<nat>
    var x: nat
    var y: nat
    var pen: Pen
    var savedCur: Cursor
    var savedPen: Pen
    var wrap: bool
    var visible: bool
    var mode: Mode
    var priv: bool
    var count: nat
    var response: seq<nat>

    ghost function View(): Vt
      reads this, params, screen, screen.cells, screen.dirty
    {
      Vt(screen.View(), Cursor(x, y), pen, savedCur, savedPen, wrap, visible,
         Parser(mode, priv, params[..], count), response)
    }

    ghost predicate Valid()
      reads this, params, screen, screen.cells, screen.dirty
    {
      screen.Valid() && Ok(View())
    }

    constructor (v: Vt)
      requires Ok(v)
      ensures Valid() && View() == v && fresh(params) && fresh(screen) && fresh(screen.cells) && fresh(screen.dirty)
    {
      screen := new Screen(v.g);
      params := new nat[MAX_PARAMS](i requires 0 <= i < MAX_PARAMS => v.parser.params[i]);
      x, y, pen, savedCur, savedPen := v.cur.x, v.cur.y, v.pen, v.savedCur, v.savedPen;
      wrap, visible, response := v.wrap, v.visible, v.response;
      mode, priv, count := v.parser.mode, v.parser.priv, v.parser.count;
      new;
      assert params[..] == v.parser.params;
    }

    /** `vt_linefeed` */
    method LineFeed()
      requires Valid() && !wrap
      modifies this`y, screen.cells, screen.dirty
      ensures Valid() && View() == Linefeed(old(View()))
    {
      LinefeedSteps(View());
      if y + 1 >= screen.rows {
        screen.ScrollRowsUp(0, screen.rows, 1, Blank(pen));
      } else {
        y := y + 1;
      }
    }

    /** `vt_reverse_index` */
    method LineBack()
      requires Valid() && !wrap
      modifies this`y, screen.cells, screen.dirty
      ensures Valid() && View() == ReverseIndex(old(View()))
    {
      ReverseSteps(View());
      if y == 0 {
        screen.ScrollRowsDown(0, screen.rows, 1, Blank(pen));
      } else {
        y := y - 1;
      }
    }

    /** `vt_reset` */
    method Restart()
      requires Valid()
      modifies this, screen.cells, screen.dirty
      ensures Valid() && View() == Reset(old(View()))
    {
      ResetSteps(View());
      x, y, savedCur := 0, 0, Cursor(0, 0);
      pen, savedPen := DEFAULT_PEN, DEFAULT_PEN;
      wrap, visible, mode := false, true, Normal;
      screen.FillRange(0, screen.cells.Length, Blank(pen));
    }

    /** The cell loops of `vt_resize` */
    method ResizeCells(cols: nat, rows: nat) returns (cells: array<Cell>)
      requires Valid() && cols > 0 && rows > 0
      ensures fresh(cells) && cells[..] == CarriedCells(View(), cols, rows, Line(cols, rows))
    {
      ghost var v := View();
      var shift := if y >= rows then y - rows + 1 else 0;
      var blank := Blank(pen);
      LineIsProduct(cols, rows);
      cells := new Cell[rows * cols](_ => blank);
      var row := 0;
      while row < rows
        invariant row <= rows && v == View() && Line(cols, row) <= cells.Length == Line(cols, rows)
        invariant cells[..Line(cols, row)] == CarriedCells(v, cols, rows, Line(cols, row))
      {
        LineIsProduct(cols, row);
        LinesOrdered(cols, row + 1, rows);
        ResizeRow(v, cols, rows, row, row * cols, shift, blank, cells);
        row := row + 1;
      }
      assert cells[..] == cells[..Line(cols, rows)];
    }

    /** One row of it. */
    method ResizeRow(ghost v: Vt, cols: nat, ghost rows: nat, row: nat, line: nat, shift: nat, blank: Cell,
                     cells: array<Cell>)
      requires v == View() && Ok(v) && cols > 0 && cells != screen.cells && line == Line(cols, row)
      requires shift == Shift(v, rows) && blank == Blank(v.pen) && line + cols <= cells.Length
      requires cells[..line] == CarriedCells(v, cols, rows, line)
      modifies cells
      ensures cells[..line + cols] == CarriedCells(v, cols, rows, line + cols)
    {
      var x := 0;
      while x < cols
        invariant x <= cols && v == View()
        invariant cells[..line + x] == CarriedCells(v, cols, rows, line + x)
      {
        var c := OldCell(row + shift, x, blank);
        CarriedMore(v, cols, rows, row, x, line + x, cells[..line + x], c);
        cells[line + x] := c;
        assert cells[..line + (x + 1)] == cells[..line + x] + [c];
        x := x + 1;
      }
    }

    /** The cell an old row and column held, if there were such. */
    method OldCell(row: nat, x: nat, blank: Cell) returns (c: Cell)
      requires Ok(View())
      ensures row < screen.rows && x < screen.cols ==> At(View().g, row, x) < |View().g.cells|
      ensures c == if row < screen.rows && x < screen.cols then View().g.cells[At(View().g, row, x)] else blank
    {
      c := blank;
      if row < screen.rows && x < screen.cols {
        AtFacts(View().g, row, x);
        var line := screen.LineStart(row);
        c := screen.cells[line + x];
      }
    }

    /** `vt_save_cursor` */
    method Save()
      requires Valid()
      modifies this`savedCur, this`savedPen
      ensures Valid() && View() == SaveCursor(old(View()))
    {
      savedCur, savedPen := Cursor(x, y), pen;
    }

    /** `vt_restore_cursor` */
    method Restore()
      requires Valid()
      modifies this`x, this`y, this`pen, this`wrap
      ensures Valid() && View() == RestoreCursor(old(View()))
    {
      x, y, pen, wrap := savedCur.x, savedCur.y, savedPen, false;
    }

    /** `vt_control` */
    method ControlByte(c: nat)
      requires Valid()
      modifies this, screen.cells, screen.dirty
      ensures Valid() && View() == Control(old(View()), c)
    {
      ControlSteps(View(), c);
      if c == 10 || c == 11 || c == 12 {
        wrap := false;
        LineFeed();
      } else if c == 13 {
        wrap, x := false, 0;
      } else if c == 8 {
        wrap := false;
        if x > 0 {
          x := x - 1;
        }
      } else if c == 9 {
        wrap, x := false, (x / 8 + 1) * 8;
        if x >= screen.cols {
          x := screen.cols - 1;
        }
      } else if c == 27 {
        mode := Escape;
      }
    }

    /** The start of `vt_put_char`: a pending wrap goes to the next line. */
    method TakeWrap()
      requires Valid()
      modifies this`x, this`y, this`wrap, screen.cells, screen.dirty
      ensures Valid() && !wrap
      ensures View() ==
        if old(wrap) then Linefeed(old(View()).(wrap := false, cur := Cursor(0, old(y)))) else old(View())
    {
      if wrap {
        wrap, x := false, 0;
        LineFeed();
      }
    }

    /** `vt_put_char` */
    method PutOne(c: nat)
      requires Valid()
      modifies this`x, this`y, this`wrap, screen.cells, screen.dirty
      ensures Valid() && View() == PutChar(old(View()), c)
    {
      PutCharSteps(View(), c);
      TakeWrap();
      screen.PutCell(y, x, Styled(pen, c));
      if x + 1 >= screen.cols {
        wrap := true;
      } else {
        x := x + 1;
      }
    }

    /** `vt_param` */
    method ParamOr(i: nat, default: nat) returns (r: nat)
      requires Valid()
      ensures r == Param(View().parser, i, default)
    {
      r := if i < count && params[i] != 0 then params[i] else default;
    }

    /** `vt_sgr_extended` */
    method ExtendedColour(i: nat, colour: nat) returns (skip: nat, out: nat)
      requires Valid()
      ensures (skip, out) == Extended(View().parser, i, colour)
    {
      out := colour;
      var kind := ParamOr(i + 1, 0);
      if kind == 5 {
        var idx := ParamOr(i + 2, 0);
        if idx < 16 {
          out := idx;
        }
        return 2, out;
      }
      skip := if kind == 2 then 4 else 1;
    }

    /** One turn of the loop of `vt_sgr`. */
    method OneRendition(i: nat) returns (next: nat)
      requires Valid() && i < count
      modifies this`pen
      ensures Valid() && View() == old(View()).(pen := pen) && next > i
      ensures SgrFrom(pen, View().parser, next) == SgrFrom(old(pen), View().parser, i)
    {
      var n := params[i];
      if n == 38 {
        var skip, colour := ExtendedColour(i, pen.fg);
        pen := pen.(fg := colour);
        next := i + skip + 1;
      } else if n == 48 {
        var skip, colour := ExtendedColour(i, pen.bg);
        pen := pen.(bg := colour);
        next := i + skip + 1;
      } else {
        pen := Rendition(pen, n);
        next := i + 1;
      }
    }

    /** `vt_sgr` */
    method SetRendition()
      requires Valid()
      modifies this`pen
      ensures Valid() && View() == old(View()).(pen := Sgr(old(pen), old(View()).parser))
    {
      ghost var p := View().parser;
      if count == 0 {
        pen := DEFAULT_PEN;
        return;
      }
      var i := 0;
      while i < count
        invariant Valid() && View() == old(View()).(pen := pen)
        invariant SgrFrom(pen, p, i) == SgrFrom(old(pen), p, 0)
      {
        i := OneRendition(i);
      }
    }

    /** `vt_respond` */
    method Respond(s: seq<nat>)
      requires |response| <= RESPONSE_MAX
      modifies this`response
      ensures |response| <= RESPONSE_MAX && response == Reply(old(response), s)
    {
      var i := 0;
      while i < |s| && |response| < RESPONSE_MAX
        invariant i <= |s| && |response| <= RESPONSE_MAX
        invariant Reply(response, s[i..]) == Reply(old(response), s)
      {
        assert s[i..] == [s[i]] + s[i + 1..];
        ReplyOne(response, s[i], s[i + 1..]);
        response := response + [s[i]];
        i := i + 1;
      }
      if i == |s| {
        assert s[i..] == [];
        ReplyNil(response);
      } else {
        ReplyFull(response, s[i..]);
      }
    }

    /** `vt_respond_number` */
    method RespondNumber(n: nat)
      requires |response| <= RESPONSE_MAX
      modifies this`response
      ensures |response| <= RESPONSE_MAX && response == Reply(old(response), Digits(n))
    {
      var digits := CollectDigits(n);
      var len: nat := |digits|;
      while len > 0 && |response| < RESPONSE_MAX
        invariant len <= |digits| && |response| <= RESPONSE_MAX
        invariant Reply(response, Backwards(digits, len)) == Reply(old(response), Digits(n))
      {
        len := len - 1;
        ReplyOne(response, digits[len], Backwards(digits, len));
        response := response + [digits[len]];
      }
      if len == 0 {
        ReplyNil(response);
      } else {
        ReplyFull(response, Backwards(digits, len));
      }
    }

    /** The position report of `vt_csi`. */
    method RespondPosition()
      requires |response| <= RESPONSE_MAX
      modifies this`response
      ensures |response| <= RESPONSE_MAX && response == Position(old(response), x, y)
    {
      Respond([27, 91]);
      RespondNumber(y + 1);
      Respond([59]);
      RespondNumber(x + 1);
      Respond([82]);
    }

    /** The reports of `vt_csi`. */
    method Answer(c: char)
      requires Valid()
      modifies this`response
      ensures Valid() && View() == old(View()).(response := Asked(old(View()), c))
    {
      AskedOk(View(), c);
      if c == 'n' {
        var what := ParamOr(0, 0);
        if what == 5 {
          Respond([27, 91, 48, 110]);
        } else if what == 6 {
          RespondPosition();
        }
      } else if c == 'c' && !priv {
        Respond([27, 91, 63, 49, 59, 50, 99]);
      }
    }

    /** The cursor movements of `vt_csi`. */
    method MoveCursor(c: char)
      requires Valid() && !(wrap && c !in {'n', 'c'})
      modifies this`x, this`y
      ensures Valid() && View() == old(View()).(cur := Move(old(View()), c))
    {
      MoveOk(View(), c);
      var n := ParamOr(0, 1);
      var m := ParamOr(1, 1);
      if c == 'A' {
        y := Clamp(y - n, screen.rows);
      } else if c == 'B' || c == 'e' {
        y := Clamp(y + n, screen.rows);
      } else if c == 'C' || c == 'a' {
        x := Clamp(x + n, screen.cols);
      } else if c == 'D' {
        x := Clamp(x - n, screen.cols);
      } else if c == 'E' {
        x, y := 0, Clamp(y + n, screen.rows);
      } else if c == 'F' {
        x, y := 0, Clamp(y - n, screen.rows);
      } else if c == 'G' || c == '`' {
        x := Clamp(n - 1, screen.cols);
      } else if c == 'd' {
        y := Clamp(n - 1, screen.rows);
      } else if c == 'H' || c == 'f' {
        x, y := Clamp(m - 1, screen.cols), Clamp(n - 1, screen.rows);
      } else if c == 'L' || c == 'M' {
        x := 0;
      }
    }

    /** Erase in display. */
    method EraseScreen(pos: nat, what: nat, blank: Cell)
      requires screen.Valid() && pos < screen.cells.Length && CellOk(blank)
      modifies screen.cells, screen.dirty
      ensures screen.Valid() && screen.View() == EraseDisplay(old(screen.View()), pos, what, blank)
    {
      if what == 0 {
        screen.FillRange(pos, screen.cells.Length, blank);
      } else if what == 1 {
        screen.FillRange(0, pos + 1, blank);
      } else if what == 2 || what == 3 {
        screen.FillRange(0, screen.cells.Length, blank);
      }
    }

    /** Erase in line. */
    method EraseRow(line: nat, pos: nat, next: nat, what: nat, blank: Cell)
      requires screen.Valid() && line <= pos < next <= screen.cells.Length && CellOk(blank)
      modifies screen.cells, screen.dirty
      ensures screen.Valid() && screen.View() == EraseLine(old(screen.View()), line, pos, next, what, blank)
    {
      if what == 0 {
        screen.FillRange(pos, next, blank);
      } else if what == 1 {
        screen.FillRange(line, pos + 1, blank);
      } else if what == 2 {
        screen.FillRange(line, next, blank);
      }
    }

    /** The erasing functions of `vt_csi`. */
    method EraseCells(c: char)
      requires Valid()
      modifies screen.cells, screen.dirty
      ensures screen.Valid() && screen.View() == Erase(old(View()), c)
    {
      AtFacts(screen.View(), y, x);
      var line := screen.LineStart(y);
      var next := screen.LineStart(y + 1);
      var what := ParamOr(0, 0);
      var n := ParamOr(0, 1);
      if c == 'J' {
        EraseScreen(line + x, what, Blank(pen));
      } else if c == 'K' {
        EraseRow(line, line + x, next, what, Blank(pen));
      } else if c == 'X' {
        screen.FillRange(line + x, Least(line + x + n, next), Blank(pen));
      }
    }

    /** The functions of `vt_csi` that change cells. */
    method EditCells(c: char)
      requires Valid()
      modifies screen.cells, screen.dirty
      ensures screen.Valid() && screen.View() == Edit(old(View()), c)
    {
      var n := ParamOr(0, 1);
      if c == '@' {
        screen.ShiftCells(y, x, n, true, Blank(pen));
      } else if c == 'P' {
        screen.ShiftCells(y, x, n, false, Blank(pen));
      } else if c == 'L' {
        screen.ScrollRowsDown(y, screen.rows, n, Blank(pen));
      } else if c == 'M' {
        screen.ScrollRowsUp(y, screen.rows, n, Blank(pen));
      } else if c == 'S' {
        screen.ScrollRowsUp(0, screen.rows, n, Blank(pen));
      } else if c == 'T' {
        screen.ScrollRowsDown(0, screen.rows, n, Blank(pen));
      } else {
        EraseCells(c);
      }
    }

    /** The functions of `vt_csi` on cells, cursor and reply. */
    method Work(c: char)
      requires Valid()
      modifies this, screen.cells, screen.dirty
      ensures Valid() && View() == Worked(old(View()), c)
    {
      WorkedInSteps(View(), c);
      if c != 'n' && c != 'c' {
        wrap := false;
      }
      EditCells(c);
      MoveCursor(c);
      Answer(c);
    }

    /** The loop of `vt_csi` over private modes. */
    method ShowCursor(on: bool)
      requires Valid()
      modifies this`visible
      ensures Valid() && View() == old(View()).(visible := Shows(old(View()).parser, 0, on, old(visible)))
    {
      ghost var p := View().parser;
      var i := 0;
      while i < count
        invariant i <= count && Valid() && View() == old(View()).(visible := visible)
        invariant Shows(p, i, on, visible) == Shows(p, 0, on, old(visible))
      {
        if params[i] == 25 {
          visible := on;
        }
        i := i + 1;
      }
    }

    /** `vt_csi` */
    method FinalByte(c: char)
      requires Valid()
      modifies this, screen.cells, screen.dirty
      ensures Valid() && View() == ApplyCsi(old(View()), c)
    {
      if c == 'm' {
        SetRendition();
      } else if c == 's' {
        wrap := false;
        Save();
      } else if c == 'u' {
        wrap := false;
        Restore();
      } else if c == 'h' || c == 'l' {
        wrap := false;
        if priv {
          ShowCursor(c == 'h');
        }
      } else {
        Work(c);
      }
    }

    /** The parser's part of `vt_esc`. */
    method EnterMode(c: nat)
      requires Valid()
      modifies this`mode, this`priv, this`count, params
      ensures Valid() && View() == old(View()).(parser := EscapeMode(old(View()).parser, c))
    {
      mode := Normal;
      if c == 91 {
        mode, priv, count := Csi, false, 0;
        forall i | 0 <= i < params.Length {
          params[i] := 0;
        }
        assert params[..] == NoParams(MAX_PARAMS);
      } else if c == 93 {
        mode := Osc;
      } else if c == 40 || c == 41 || c == 42 || c == 43 {
        mode := Charset;
      }
    }

    /** `vt_esc` */
    method EscapeByte(c: nat)
      requires Valid()
      modifies this, params, screen.cells, screen.dirty
      ensures Valid() && View() == ApplyEscape(old(View()), c)
    {
      EnterMode(c);
      if c == 55 {
        Save();
      } else if c == 56 {
        Restore();
      } else if c == 68 {
        wrap := false;
        LineFeed();
      } else if c == 69 {
        wrap, x := false, 0;
        LineFeed();
      } else if c == 77 {
        wrap := false;
        LineBack();
      } else if c == 99 {
        Restart();
      }
    }

    /** The parameter bytes of `vt_csi_byte`. */
    method AddDigit(d: nat)
      requires Valid() && d < 10
      modifies this`count, params
      ensures Valid() && View() == old(View()).(parser := Digit(old(View()).parser, d))
    {
      ghost var p := View().parser;
      if count == 0 {
        count := 1;
      }
      if params[count - 1] < 10000 {
        params[count - 1] := params[count - 1] * 10 + d;
      }
      assert params[..] == Digit(p, d).params;
    }

    /** `vt_csi_byte` */
    method ParameterByte(c: nat)
      requires Valid()
      modifies this, params, screen.cells, screen.dirty
      ensures Valid() && View() == CsiByte(old(View()), c)
    {
      if 48 <= c <= 57 {
        AddDigit(c - 48);
      } else if c == 59 {
        if count == 0 {
          count := 1;
        }
        if count < MAX_PARAMS {
          count := count + 1;
        }
      } else if c == 61 || c == 62 || c == 63 {
        priv := true;
      } else if c < 32 {
        ControlByte(c);
      } else if 64 <= c <= 126 {
        mode := Normal;
        FinalByte(c as char);
      }
    }

    /** `vt_putc` outside an escape sequence. */
    method PlainByte(c: nat)
      requires Valid() && c < 256 && mode == Normal
      modifies this, params, screen.cells, screen.dirty
      ensures Valid() && View() == Putc(old(View()), c)
    {
      if c < 32 || c == 127 {
        ControlByte(c);
      } else if c >= 128 {
        if c >= 192 {
          PutOne(63);
        }
      } else {
        PutOne(c);
      }
    }

    /** `vt_putc` */
    method PutByte(c: nat)
      requires Valid() && c < 256
      modifies this, params, screen.cells, screen.dirty
      ensures Valid() && View() == Putc(old(View()), c)
    {
      match mode
      case Escape => EscapeByte(c);
      case Csi =>
        if c == 27 {
          mode := Escape;
        } else {
          ParameterByte(c);
        }
      case Osc =>
        if c == 7 {
          mode := Normal;
        } else if c == 27 {
          mode := OscEscape;
        }
      case OscEscape => mode := Normal;
      case Charset => mode := Normal;
      case Normal => PlainByte(c);
    }
  }
}
