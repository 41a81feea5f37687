/** The terminal's escape-sequence machine (control functions of ECMA-48) over a cell
    grid: one step for each byte, whatever the byte.
 */
module Vt {
  import opened Grid

  const MAX_PARAMS: nat := 16
  const PARAM_TOP: nat := 99999
  const RESPONSE_MAX: nat := 32

  datatype Cursor = Cursor(x: nat, y: nat)

  datatype Pen = Pen(fg: nat, bg: nat, bold: bool, underline: bool, reverse: bool)

  datatype Mode = Normal | Escape | Csi | Osc | OscEscape | Charset

  datatype Parser = Parser(mode: Mode, priv: bool, params: seq<nat>, count: nat)

  datatype Vt = Vt(
    g: Grid, cur: Cursor, pen: Pen, savedCur: Cursor, savedPen: Pen,
    wrap: bool,            // the next character goes to the next line
    visible: bool, parser: Parser, response: seq<nat>)

  const DEFAULT_PEN: Pen := Pen(7, 0, false, false, false)

  // ---- the invariant ----

  predicate InGrid(g: Grid, c: Cursor) {
    c.x < g.cols && c.y < g.rows
  }

  predicate PenOk(p: Pen) {
    p.fg < COLOURS && p.bg < COLOURS
  }

  predicate ParserOk(p: Parser) {
    |p.params| == MAX_PARAMS && p.count <= MAX_PARAMS && forall i :: 0 <= i < MAX_PARAMS ==> p.params[i] <= PARAM_TOP
  }

  predicate Ok(v: Vt) {
    && GridOk(v.g) && InGrid(v.g, v.cur) && InGrid(v.g, v.savedCur) && PenOk(v.pen) && PenOk(v.savedPen)
    && ParserOk(v.parser) && |v.response| <= RESPONSE_MAX
  }

  /** A wrap is pending only in the last column. */
  predicate WrapsAtEnd(v: Vt) {
    v.wrap ==> v.cur.x == v.g.cols - 1
  }

  // ---- drawing ----

  function Blank(p: Pen): Cell {
    if p.reverse then Cell(32, p.bg, p.fg, 0) else Cell(32, p.fg, p.bg, 0)
  }

  function Styled(p: Pen, c: nat): Cell {
    var fg := if p.bold && p.fg < 8 then p.fg + 8 else p.fg;
    var attr := if p.underline then 2 else 0;
    if p.reverse then Cell(c, p.bg, fg, attr) else Cell(c, fg, p.bg, attr)
  }

  function Linefeed(v: Vt): Vt
    requires Ok(v)
  {
    if v.cur.y + 1 >= v.g.rows then v.(g := ScrollUp(v.g, 0, v.g.rows, 1, Blank(v.pen)))
    else v.(cur := v.cur.(y := v.cur.y + 1))
  }

  function ReverseIndex(v: Vt): Vt
    requires Ok(v)
  {
    if v.cur.y == 0 then v.(g := ScrollDown(v.g, 0, v.g.rows, 1, Blank(v.pen)))
    else v.(cur := v.cur.(y := v.cur.y - 1))
  }

  function Reset(v: Vt): Vt
    requires Shaped(v.g)
  {
    v.(cur := Cursor(0, 0), savedCur := Cursor(0, 0), pen := DEFAULT_PEN, savedPen := DEFAULT_PEN, wrap := false,
       visible := true, parser := v.parser.(mode := Normal),
       g := Fill(v.g, 0, |v.g.cells|, Blank(DEFAULT_PEN)))
  }

  function SaveCursor(v: Vt): Vt {
    v.(savedCur := v.cur, savedPen := v.pen)
  }

  function RestoreCursor(v: Vt): Vt {
    v.(cur := v.savedCur, pen := v.savedPen, wrap := false)
  }

  /** Control characters: line feeds, return, backspace, tab, escape. */
  function Control(v: Vt, c: nat): Vt
    requires Ok(v)
  {
    if c in {10, 11, 12} then Linefeed(v.(wrap := false))
    else if c == 13 then v.(wrap := false, cur := v.cur.(x := 0))
    else if c == 8 then v.(wrap := false, cur := v.cur.(x := if v.cur.x > 0 then v.cur.x - 1 else 0))
    else if c == 9 then
      v.(wrap := false, cur := v.cur.(x := Clamp((v.cur.x / 8 + 1) * 8, v.g.cols)))
    else if c == 27 then v.(parser := v.parser.(mode := Escape))
    else v
  }

  function PutChar(v: Vt, c: nat): Vt
    requires Ok(v)
  {
    var w := if v.wrap then Linefeed(v.(wrap := false, cur := v.cur.(x := 0))) else v;
    WrapOk(v);
    var g := Put(w.g, w.cur.y, w.cur.x, Styled(w.pen, c));
    if w.cur.x + 1 >= w.g.cols then w.(g := g, wrap := true) else w.(g := g, cur := w.cur.(x := w.cur.x + 1))
  }

  // ---- CSI ----

  function Param(p: Parser, i: nat, default: nat): nat
    requires ParserOk(p)
  {
    if i < p.count && p.params[i] != 0 then p.params[i] else default
  }

  function Clamp(v: int, max: nat): nat
    requires max > 0
  {
    if v < 0 then 0 else if v >= max then max - 1 else v
  }

  /** How many parameters an extended colour takes up, and the colour. */
  function Extended(p: Parser, i: nat, colour: nat): (nat, nat)
    requires ParserOk(p)
  {
    var kind := Param(p, i + 1, 0);
    if kind == 5 then (2, if Param(p, i + 2, 0) < COLOURS then Param(p, i + 2, 0) else colour)
    else if kind == 2 then (4, colour) else (1, colour)
  }

  /** One rendition parameter that stands alone. */
  function Rendition(pen: Pen, p: nat): Pen {
    if p == 0 then DEFAULT_PEN
    else if p == 1 then pen.(bold := true)
    else if p == 4 then pen.(underline := true)
    else if p == 7 then pen.(reverse := true)
    else if p == 22 then pen.(bold := false)
    else if p == 24 then pen.(underline := false)
    else if p == 27 then pen.(reverse := false)
    else if 30 <= p <= 37 then pen.(fg := p - 30)
    else if p == 39 then pen.(fg := DEFAULT_PEN.fg)
    else if 40 <= p <= 47 then pen.(bg := p - 40)
    else if p == 49 then pen.(bg := DEFAULT_PEN.bg)
    else if 90 <= p <= 97 then pen.(fg := p - 90 + 8)
    else if 100 <= p <= 107 then pen.(bg := p - 100 + 8)
    else pen
  }

  /** `vt_sgr` from the `i`-th parameter on */
  function SgrFrom(pen: Pen, p: Parser, i: nat): Pen
    requires ParserOk(p)
    decreases if i < p.count then p.count - i else 0
  {
    if i >= p.count then pen
    else if p.params[i] == 38 then
      var (skip, colour) := Extended(p, i, pen.fg);
      SgrFrom(pen.(fg := colour), p, i + skip + 1)
    else if p.params[i] == 48 then
      var (skip, colour) := Extended(p, i, pen.bg);
      SgrFrom(pen.(bg := colour), p, i + skip + 1)
    else SgrFrom(Rendition(pen, p.params[i]), p, i + 1)
  }

  function Sgr(pen: Pen, p: Parser): Pen
    requires ParserOk(p)
  {
    if p.count == 0 then DEFAULT_PEN else SgrFrom(pen, p, 0)
  }

  /** Where a cursor movement leads. */
  function Move(v: Vt, c: char): Cursor
    requires Ok(v)
  {
    var n, x, y, cols, rows := Param(v.parser, 0, 1), v.cur.x, v.cur.y, v.g.cols, v.g.rows;
    match c
    case 'A' => Cursor(x, Clamp(y - n, rows))
    case 'B' => Cursor(x, Clamp(y + n, rows))
    case 'e' => Cursor(x, Clamp(y + n, rows))
    case 'C' => Cursor(Clamp(x + n, cols), y)
    case 'a' => Cursor(Clamp(x + n, cols), y)
    case 'D' => Cursor(Clamp(x - n, cols), y)
    case 'E' => Cursor(0, Clamp(y + n, rows))
    case 'F' => Cursor(0, Clamp(y - n, rows))
    case 'G' => Cursor(Clamp(n - 1, cols), y)
    case '`' => Cursor(Clamp(n - 1, cols), y)
    case 'd' => Cursor(x, Clamp(n - 1, rows))
    case 'H' => Cursor(Clamp(Param(v.parser, 1, 1) - 1, cols), Clamp(n - 1, rows))
    case 'f' => Cursor(Clamp(Param(v.parser, 1, 1) - 1, cols), Clamp(n - 1, rows))
    case 'L' => Cursor(0, y)
    case 'M' => Cursor(0, y)
    case _ => v.cur
  }

  /** Erase in display: from the cursor, up to it, or all. */
  function EraseDisplay(g: Grid, pos: nat, mode: nat, blank: Cell): Grid
    requires GridOk(g) && pos < |g.cells|
  {
    if mode == 0 then Fill(g, pos, |g.cells|, blank)
    else if mode == 1 then Fill(g, 0, pos + 1, blank)
    else if mode == 2 || mode == 3 then Fill(g, 0, |g.cells|, blank)
    else g
  }

  /** Erase in line. */
  function EraseLine(g: Grid, line: nat, pos: nat, next: nat, mode: nat, blank: Cell): Grid
    requires GridOk(g) && line <= pos < next <= |g.cells|
  {
    if mode == 0 then Fill(g, pos, next, blank)
    else if mode == 1 then Fill(g, line, pos + 1, blank)
    else if mode == 2 then Fill(g, line, next, blank)
    else g
  }

  function Erase(v: Vt, c: char): Grid
    requires Ok(v)
  {
    var g, blank := v.g, Blank(v.pen);
    AtFacts(g, v.cur.y, v.cur.x);
    var pos, line, next := At(g, v.cur.y, v.cur.x), Line(g.cols, v.cur.y), Line(g.cols, v.cur.y + 1);
    match c
    case 'J' => EraseDisplay(g, pos, Param(v.parser, 0, 0), blank)
    case 'K' => EraseLine(g, line, pos, next, Param(v.parser, 0, 0), blank)
    case 'X' => Fill(g, pos, Least(pos + Param(v.parser, 0, 1), next), blank)
    case _ => g
  }

  /** What an erasing, inserting, deleting or scrolling function makes of the grid. */
  function Edit(v: Vt, c: char): Grid
    requires Ok(v)
  {
    var n, x, y, g, blank := Param(v.parser, 0, 1), v.cur.x, v.cur.y, v.g, Blank(v.pen);
    match c
    case '@' => ShiftLine(g, y, x, n, true, blank)
    case 'P' => ShiftLine(g, y, x, n, false, blank)
    case 'L' => ScrollDown(g, y, g.rows, n, blank)
    case 'M' => ScrollUp(g, y, g.rows, n, blank)
    case 'S' => ScrollUp(g, 0, g.rows, n, blank)
    case 'T' => ScrollDown(g, 0, g.rows, n, blank)
    case _ => Erase(v, c)
  }

  /** Characters added to the reply, as far as there is room. */
  function Reply(r: seq<nat>, s: seq<nat>): seq<nat>
    requires |r| <= RESPONSE_MAX
  {
    if |r| + |s| <= RESPONSE_MAX then r + s else r + s[..RESPONSE_MAX - |r|]
  }

  function Digits(n: nat): seq<nat> {
    if n < 10 then [48 + n] else Digits(n / 10) + [48 + n % 10]
  }

  function Report(v: Vt): seq<nat> {
    [27, 91] + Digits(v.cur.y + 1) + [59] + Digits(v.cur.x + 1) + [82]
  }

  function Asked(v: Vt, c: char): seq<nat>
    requires Ok(v)
  {
    var what := Param(v.parser, 0, 0);
    if c == 'n' && what == 5 then Reply(v.response, [27, 91, 48, 110])
    else if c == 'n' && what == 6 then
      var r := Reply(Reply(v.response, [27, 91]), Digits(v.cur.y + 1));
      Reply(Reply(Reply(r, [59]), Digits(v.cur.x + 1)), [82])
    else if c == 'c' && !v.parser.priv then Reply(v.response, [27, 91, 63, 49, 59, 50, 99])
    else v.response
  }

  /** Whether the cursor shows after `h` or `l` with these parameters. */
  function Shows(p: Parser, i: nat, on: bool, was: bool): bool
    requires ParserOk(p) && i <= p.count
    decreases p.count - i
  {
    if i == p.count then was else Shows(p, i + 1, on, if p.params[i] == 25 then on else was)
  }

  /** The functions that work on the grid, the cursor or the reply. */
  function Worked(v: Vt, c: char): Vt
    requires Ok(v)
  {
    v.(wrap := v.wrap && c in {'n', 'c'}, g := Edit(v, c), cur := Move(v, c), response := Asked(v, c))
  }

  /** `vt_csi`; all but three functions drop a pending wrap. */
  function ApplyCsi(v: Vt, c: char): Vt
    requires Ok(v)
  {
    match c
    case 'm' => v.(pen := Sgr(v.pen, v.parser))
    case 's' => SaveCursor(v.(wrap := false))
    case 'u' => RestoreCursor(v)
    case 'h' => v.(wrap := false, visible := if v.parser.priv then Shows(v.parser, 0, true, v.visible) else v.visible)
    case 'l' => v.(wrap := false, visible := if v.parser.priv then Shows(v.parser, 0, false, v.visible) else v.visible)
    case _ => Worked(v, c)
  }

  // ---- bytes ----

  function NoParams(n: nat): (r: seq<nat>)
    ensures |r| == n && forall i :: 0 <= i < n ==> r[i] == 0
  {
    if n == 0 then [] else NoParams(n - 1) + [0]
  }

  /** What an escape and one more byte lead into. */
  function EscapeMode(p: Parser, c: nat): Parser {
    if c == 91 then Parser(Csi, false, NoParams(MAX_PARAMS), 0)
    else if c == 93 then p.(mode := Osc)
    else if c in {40, 41, 42, 43} then p.(mode := Charset)
    else p.(mode := Normal)
  }

  /** `vt_esc` */
  function ApplyEscape(v: Vt, c: nat): Vt
    requires Ok(v)
  {
    EscapeAction(v.(parser := EscapeMode(v.parser, c)), c)
  }

  function EscapeAction(w: Vt, c: nat): Vt
    requires Ok(w)
  {
    if c == 55 then SaveCursor(w)
    else if c == 56 then RestoreCursor(w)
    else if c == 68 then Linefeed(w.(wrap := false))
    else if c == 69 then Linefeed(w.(wrap := false, cur := w.cur.(x := 0)))
    else if c == 77 then ReverseIndex(w.(wrap := false))
    else if c == 99 then Reset(w)
    else w
  }

  function Digit(p: Parser, d: nat): Parser
    requires ParserOk(p)
  {
    var k := if p.count == 0 then 1 else p.count;
    p.(count := k, params := if p.params[k - 1] < 10000 then p.params[k - 1 := p.params[k - 1] * 10 + d] else p.params)
  }

  function NextParam(p: Parser): Parser {
    var k := if p.count == 0 then 1 else p.count;
    p.(count := if k < MAX_PARAMS then k + 1 else k)
  }

  /** `vt_csi_byte` */
  function CsiByte(v: Vt, c: nat): Vt
    requires Ok(v)
  {
    if 48 <= c <= 57 then v.(parser := Digit(v.parser, c - 48))
    else if c == 59 then v.(parser := NextParam(v.parser))
    else if c in {61, 62, 63} then v.(parser := v.parser.(priv := true))
    else if c < 32 then Control(v, c)
    else if 64 <= c <= 126 then ApplyCsi(v.(parser := v.parser.(mode := Normal)), c as char)
    else v
  }

  /** `vt_putc` */
  function Putc(v: Vt, c: nat): Vt
    requires Ok(v) && c < 256
  {
    match v.parser.mode
    case Escape => ApplyEscape(v, c)
    case Csi => if c == 27 then v.(parser := v.parser.(mode := Escape)) else CsiByte(v, c)
    case Osc =>
      if c == 7 then v.(parser := v.parser.(mode := Normal))
      else if c == 27 then v.(parser := v.parser.(mode := OscEscape))
      else v
    case OscEscape => v.(parser := v.parser.(mode := Normal))
    case Charset => v.(parser := v.parser.(mode := Normal))
    case Normal =>
      if c < 32 || c == 127 then Control(v, c)
      else if 128 <= c < 192 then v
      else if c >= 192 then PutChar(v, 63)
      else PutChar(v, c)
  }

  // ---- every byte keeps the invariant ----

  /** A step keeps the terminal in order and flags every row it changes. */
  ghost predicate Steps(v: Vt, w: Vt) {
    Ok(w) && Honest(v.g, w.g)
  }

  lemma Same(v: Vt, w: Vt)
    requires Ok(v) && Ok(w) && w.g == v.g
    ensures Steps(v, w)
  {}

  lemma LinefeedSteps(v: Vt)
    requires Ok(v) && !v.wrap
    ensures Steps(v, Linefeed(v)) && Linefeed(v).cur.x == v.cur.x && Linefeed(v).pen == v.pen
    ensures Linefeed(v).parser == v.parser && !Linefeed(v).wrap
  {
    ScrollUpKeeps(v.g, 0, v.g.rows, 1, Blank(v.pen));
  }

  lemma ReverseSteps(v: Vt)
    requires Ok(v) && !v.wrap
    ensures Steps(v, ReverseIndex(v))
  {
    ScrollDownKeeps(v.g, 0, v.g.rows, 1, Blank(v.pen));
  }

  lemma WrapOk(v: Vt)
    requires Ok(v)
    ensures var w := if v.wrap then Linefeed(v.(wrap := false, cur := v.cur.(x := 0))) else v;
      Ok(w) && Honest(v.g, w.g)
  {
    if v.wrap {
      LinefeedSteps(v.(wrap := false, cur := v.cur.(x := 0)));
    }
  }

  lemma PutCharSteps(v: Vt, c: nat)
    requires Ok(v)
    ensures Steps(v, PutChar(v, c))
  {
    WrapOk(v);
    var w := if v.wrap then Linefeed(v.(wrap := false, cur := v.cur.(x := 0))) else v;
    if v.wrap {
      LinefeedSteps(v.(wrap := false, cur := v.cur.(x := 0)));
    }
    var g := Put(w.g, w.cur.y, w.cur.x, Styled(w.pen, c));
    PutKeeps(w.g, w.cur.y, w.cur.x, Styled(w.pen, c));
    HonestThen(v.g, w.g, g);
  }

  lemma ControlSteps(v: Vt, c: nat)
    requires Ok(v)
    ensures Steps(v, Control(v, c))
  {
    if c in {10, 11, 12} {
      LinefeedSteps(v.(wrap := false));
    }
  }

  lemma {:induction false} SgrOk(pen: Pen, p: Parser, i: nat)
    requires ParserOk(p) && PenOk(pen)
    ensures PenOk(SgrFrom(pen, p, i))
    decreases if i < p.count then p.count - i else 0
  {
    if i < p.count {
      if p.params[i] == 38 {
        var (skip, colour) := Extended(p, i, pen.fg);
        SgrOk(pen.(fg := colour), p, i + skip + 1);
      } else if p.params[i] == 48 {
        var (skip, colour) := Extended(p, i, pen.bg);
        SgrOk(pen.(bg := colour), p, i + skip + 1);
      } else {
        SgrOk(Rendition(pen, p.params[i]), p, i + 1);
      }
    }
  }

  lemma EraseDisplayKeeps(g: Grid, pos: nat, mode: nat, blank: Cell)
    requires GridOk(g) && pos < |g.cells| && CellOk(blank)
    ensures GridOk(EraseDisplay(g, pos, mode, blank)) && Honest(g, EraseDisplay(g, pos, mode, blank))
  {
    if mode == 0 {
      FillKeeps(g, pos, |g.cells|, blank);
    } else if mode == 1 {
      FillKeeps(g, 0, pos + 1, blank);
    } else if mode == 2 || mode == 3 {
      FillKeeps(g, 0, |g.cells|, blank);
    }
  }

  lemma EraseLineKeeps(g: Grid, line: nat, pos: nat, next: nat, mode: nat, blank: Cell)
    requires GridOk(g) && line <= pos < next <= |g.cells| && CellOk(blank)
    ensures GridOk(EraseLine(g, line, pos, next, mode, blank)) && Honest(g, EraseLine(g, line, pos, next, mode, blank))
  {
    if mode == 0 {
      FillKeeps(g, pos, next, blank);
    } else if mode == 1 {
      FillKeeps(g, line, pos + 1, blank);
    } else if mode == 2 {
      FillKeeps(g, line, next, blank);
    }
  }

  lemma EraseSteps(v: Vt, c: char)
    requires Ok(v)
    ensures GridOk(Erase(v, c)) && Honest(v.g, Erase(v, c))
  {
    var g, blank := v.g, Blank(v.pen);
    AtFacts(g, v.cur.y, v.cur.x);
    var pos, line, next := At(g, v.cur.y, v.cur.x), Line(g.cols, v.cur.y), Line(g.cols, v.cur.y + 1);
    if c == 'J' {
      EraseDisplayKeeps(g, pos, Param(v.parser, 0, 0), blank);
    } else if c == 'K' {
      EraseLineKeeps(g, line, pos, next, Param(v.parser, 0, 0), blank);
    } else if c == 'X' {
      FillKeeps(g, pos, Least(pos + Param(v.parser, 0, 1), next), blank);
    }
  }

  lemma EditSteps(v: Vt, c: char)
    requires Ok(v)
    ensures GridOk(Edit(v, c)) && Honest(v.g, Edit(v, c))
  {
    var n, x, y, g, blank := Param(v.parser, 0, 1), v.cur.x, v.cur.y, v.g, Blank(v.pen);
    match c
    case '@' => ShiftLineKeeps(g, y, x, n, true, blank);
    case 'P' => ShiftLineKeeps(g, y, x, n, false, blank);
    case 'L' => ScrollDownKeeps(g, y, g.rows, n, blank);
    case 'M' => ScrollUpKeeps(g, y, g.rows, n, blank);
    case 'S' => ScrollUpKeeps(g, 0, g.rows, n, blank);
    case 'T' => ScrollDownKeeps(g, 0, g.rows, n, blank);
    case _ => EraseSteps(v, c);
  }

  lemma MoveOk(v: Vt, c: char)
    requires Ok(v)
    ensures InGrid(v.g, Move(v, c))
    ensures c in {'n', 'c'} ==> Move(v, c) == v.cur
  {}

  lemma AskedOk(v: Vt, c: char)
    requires Ok(v)
    ensures |Asked(v, c)| <= RESPONSE_MAX
  {}

  lemma WorkedSteps(v: Vt, c: char)
    requires Ok(v)
    ensures Steps(v, Worked(v, c))
  {
    EditSteps(v, c);
    MoveOk(v, c);
    AskedOk(v, c);
  }

  lemma ApplyCsiSteps(v: Vt, c: char)
    requires Ok(v)
    ensures Steps(v, ApplyCsi(v, c))
  {
    match c
    case 'm' => SgrOk(v.pen, v.parser, 0);
    case 's' =>
    case 'u' =>
    case 'h' =>
    case 'l' =>
    case _ => WorkedSteps(v, c);
  }

  lemma ResetSteps(v: Vt)
    requires Ok(v)
    ensures Steps(v, Reset(v))
  {
    FillKeeps(v.g, 0, |v.g.cells|, Blank(DEFAULT_PEN));
  }

  lemma EscapeActionSteps(w: Vt, c: nat)
    requires Ok(w)
    ensures Steps(w, EscapeAction(w, c))
  {
    if c == 68 {
      LinefeedSteps(w.(wrap := false));
    } else if c == 69 {
      LinefeedSteps(w.(wrap := false, cur := w.cur.(x := 0)));
    } else if c == 77 {
      ReverseSteps(w.(wrap := false));
    } else if c == 99 {
      ResetSteps(w);
    }
  }

  lemma ApplyEscapeSteps(v: Vt, c: nat)
    requires Ok(v)
    ensures Steps(v, ApplyEscape(v, c))
  {
    EscapeActionSteps(v.(parser := EscapeMode(v.parser, c)), c);
  }

  lemma CsiByteSteps(v: Vt, c: nat)
    requires Ok(v)
    ensures Steps(v, CsiByte(v, c))
  {
    if 48 <= c <= 57 {
      Same(v, CsiByte(v, c));
    } else if c < 32 {
      ControlSteps(v, c);
    } else if 64 <= c <= 126 {
      ApplyCsiSteps(v.(parser := v.parser.(mode := Normal)), c as char);
    }
  }

  /** Whatever byte comes, the cursor, the saved cursor and every write stay in bounds, the
      parser's parameters and the reply stay within their arrays, and every row that
      changes is flagged. */
  lemma PutcSteps(v: Vt, c: nat)
    requires Ok(v) && c < 256
    ensures Steps(v, Putc(v, c))
  {
    match v.parser.mode
    case Escape => ApplyEscapeSteps(v, c);
    case Csi =>
      if c != 27 {
        CsiByteSteps(v, c);
      }
    case Normal =>
      ControlSteps(v, c);
      PutCharSteps(v, c);
      PutCharSteps(v, 63);
    case _ =>
  }
}
