/** What control sequences mean to the program that writes them: which cells an erase
    blanks, which pen a rendition leaves, and where a saved cursor comes back.
 */
module VtMeaning {
  import opened Grid
  import opened Vt
  import opened VtRuns

  // ---- erasing ----

  /** Whether an erase with the cursor at `c` blanks column `x` of row `y`. */
  predicate Covers(c: Cursor, final: char, n: nat, y: nat, x: nat) {
    if final == 'J' then
      if n == 0 then y > c.y || (y == c.y && x >= c.x)
      else if n == 1 then y < c.y || (y == c.y && x <= c.x)
      else n == 2 || n == 3
    else if final == 'K' then
      y == c.y && (if n == 0 then x >= c.x else if n == 1 then x <= c.x else n == 2)
    else
      y == c.y && c.x <= x < c.x + if n == 0 then 1 else n
  }

  /** Places are in reading order. */
  lemma PlacesOrdered(g: Grid, y: nat, x: nat, b: nat, a: nat)
    requires x < g.cols && a < g.cols
    ensures At(g, b, a) <= At(g, y, x) <==> y > b || (y == b && x >= a)
  {
    if y > b {
      LinesOrdered(g.cols, b + 1, y);
    } else if y < b {
      LinesOrdered(g.cols, y + 1, b);
    }
  }

  lemma FillCell(g: Grid, from: nat, to: nat, c: Cell, i: nat)
    requires GridOk(g) && to <= |g.cells| && i < |g.cells|
    ensures Fill(g, from, to, c).cells[i] == if from <= i < to then c else g.cells[i]
  {
    FilledAt(g.cells, from, to, c, i);
  }

  lemma DisplayCell(g: Grid, c: Cursor, n: nat, blank: Cell, y: nat, x: nat)
    requires GridOk(g) && InGrid(g, c) && y < g.rows && x < g.cols
    requires At(g, c.y, c.x) < |g.cells| && At(g, y, x) < |g.cells|
    ensures EraseDisplay(g, At(g, c.y, c.x), n, blank).cells[At(g, y, x)] ==
      if Covers(c, 'J', n, y, x) then blank else g.cells[At(g, y, x)]
  {
    var pos, i := At(g, c.y, c.x), At(g, y, x);
    PlacesOrdered(g, y, x, c.y, c.x);
    PlacesOrdered(g, c.y, c.x, y, x);
    FillCell(g, pos, |g.cells|, blank, i);
    FillCell(g, 0, pos + 1, blank, i);
    FillCell(g, 0, |g.cells|, blank, i);
  }

  /** A stretch of one row, from column `a` up to column `b`. */
  lemma StretchCell(g: Grid, row: nat, a: nat, b: nat, blank: Cell, y: nat, x: nat)
    requires GridOk(g) && row < g.rows && a <= b <= g.cols && y < g.rows && x < g.cols
    requires At(g, row, b) <= |g.cells| && At(g, y, x) < |g.cells|
    ensures Fill(g, At(g, row, a), At(g, row, b), blank).cells[At(g, y, x)] ==
      if y == row && a <= x < b then blank else g.cells[At(g, y, x)]
  {
    FillCell(g, At(g, row, a), At(g, row, b), blank, At(g, y, x));
    if y > row {
      LinesOrdered(g.cols, row + 1, y);
    } else if y < row {
      LinesOrdered(g.cols, y + 1, row);
    }
  }

  lemma LineCell(g: Grid, c: Cursor, n: nat, blank: Cell, y: nat, x: nat)
    requires GridOk(g) && InGrid(g, c) && y < g.rows && x < g.cols
    requires Line(g.cols, c.y + 1) <= |g.cells| && At(g, y, x) < |g.cells|
    ensures EraseLine(g, Line(g.cols, c.y), At(g, c.y, c.x), Line(g.cols, c.y + 1), n, blank).cells[At(g, y, x)] ==
      if Covers(c, 'K', n, y, x) then blank else g.cells[At(g, y, x)]
  {
    StretchCell(g, c.y, c.x, g.cols, blank, y, x);
    StretchCell(g, c.y, 0, c.x + 1, blank, y, x);
    StretchCell(g, c.y, 0, g.cols, blank, y, x);
  }

  lemma CharsCell(g: Grid, c: Cursor, n: nat, blank: Cell, y: nat, x: nat)
    requires GridOk(g) && InGrid(g, c) && y < g.rows && x < g.cols
    requires Line(g.cols, c.y + 1) <= |g.cells| && At(g, y, x) < |g.cells|
    ensures var m := if n == 0 then 1 else n;
      Fill(g, At(g, c.y, c.x), Least(At(g, c.y, c.x) + m, Line(g.cols, c.y + 1)), blank).cells[At(g, y, x)] ==
      if Covers(c, 'X', n, y, x) then blank else g.cells[At(g, y, x)]
  {
    var m := if n == 0 then 1 else n;
    StretchCell(g, c.y, c.x, Least(c.x + m, g.cols), blank, y, x);
  }

  lemma EraseCell(v: Vt, final: char, n: nat, y: nat, x: nat)
    requires Ok(v) && final in {'J', 'K', 'X'} && v.parser.count == 1 && v.parser.params[0] == n
    requires y < v.g.rows && x < v.g.cols
    ensures At(v.g, y, x) < |v.g.cells| == |Erase(v, final).cells|
    ensures Erase(v, final).cells[At(v.g, y, x)] ==
      if Covers(v.cur, final, n, y, x) then Blank(v.pen) else v.g.cells[At(v.g, y, x)]
  {
    AtFacts(v.g, y, x);
    AtFacts(v.g, v.cur.y, v.cur.x);
    if final == 'J' {
      DisplayCell(v.g, v.cur, n, Blank(v.pen), y, x);
    } else if final == 'K' {
      LineCell(v.g, v.cur, n, Blank(v.pen), y, x);
    } else {
      CharsCell(v.g, v.cur, n, Blank(v.pen), y, x);
    }
  }

  /** The bytes of an erase blank, in the pen's colours, exactly the cells the erase covers,
      for every cursor, every number (its first five digits count) and every cell; nothing
      else moves. */
  lemma ErasesExactly(v: Vt, final: char, n: nat, y: nat, x: nat)
    requires Ok(v) && v.parser.mode == Normal && final in {'J', 'K', 'X'}
    requires y < v.g.rows && x < v.g.cols
    ensures var s := Sequence([n], final as nat);
      && Bytes(s)
      && var w := Feed(v, s);
      && At(v.g, y, x) < |v.g.cells| == |w.g.cells|
      && w.g.cells[At(v.g, y, x)] ==
         (if Covers(v.cur, final, Kept(n), y, x) then Blank(v.pen) else v.g.cells[At(v.g, y, x)])
      && w.cur == v.cur && w.pen == v.pen && w.response == v.response && !w.wrap && w.parser.mode == Normal
  {
    SequenceActs(v, [n], final as nat);
    EraseActs(v, [n], final, y, x);
  }

  lemma EraseActs(v: Vt, ps: seq<nat>, final: char, y: nat, x: nat)
    requires Ok(v) && final in {'J', 'K', 'X'} && |ps| == 1
    requires y < v.g.rows && x < v.g.cols && Ok(v.(parser := Parser(Normal, false, Loaded(ps, 1), 1)))
    ensures var w := ApplyCsi(v.(parser := Parser(Normal, false, Loaded(ps, 1), 1)), final);
      && At(v.g, y, x) < |v.g.cells| == |w.g.cells|
      && w.g.cells[At(v.g, y, x)] ==
         (if Covers(v.cur, final, Kept(ps[0]), y, x) then Blank(v.pen) else v.g.cells[At(v.g, y, x)])
      && w.cur == v.cur && w.pen == v.pen && w.response == v.response && !w.wrap && w.parser.mode == Normal
  {
    EraseCell(v.(parser := Parser(Normal, false, Loaded(ps, 1), 1)), final, Kept(ps[0]), y, x);
  }

  // ---- renditions ----

  /** What a program asks of the pen. */
  datatype Style =
    | Plain
    | Bold(on: bool)
    | Underline(on: bool)
    | Reverse(on: bool)
    | Fg(colour: nat)
    | Bg(colour: nat)
    | FgDefault
    | BgDefault
    | FgIndexed(index: nat)
    | BgIndexed(index: nat)
    | FgRgb(r: nat, g: nat, b: nat)
    | BgRgb(r: nat, g: nat, b: nat)

  /** Its numbers in a rendition sequence (section 8.3.117 of ECMA-48, and the extended and
      bright colours of common terminals). */
  function Codes(s: Style): seq<nat> {
    match s
    case Plain => [0]
    case Bold(on) => [if on then 1 else 22]
    case Underline(on) => [if on then 4 else 24]
    case Reverse(on) => [if on then 7 else 27]
    case Fg(c) => [if c < 8 then 30 + c else 90 + (c - 8)]
    case Bg(c) => [if c < 8 then 40 + c else 100 + (c - 8)]
    case FgDefault => [39]
    case BgDefault => [49]
    case FgIndexed(i) => [38, 5, i]
    case BgIndexed(i) => [48, 5, i]
    case FgRgb(r, g, b) => [38, 2, r, g, b]
    case BgRgb(r, g, b) => [48, 2, r, g, b]
  }

  /** What the terminal makes of it: sixteen colours, and others passed over. */
  function Dress(pen: Pen, s: Style): Pen {
    match s
    case Plain => DEFAULT_PEN
    case Bold(on) => pen.(bold := on)
    case Underline(on) => pen.(underline := on)
    case Reverse(on) => pen.(reverse := on)
    case Fg(c) => pen.(fg := c)
    case Bg(c) => pen.(bg := c)
    case FgDefault => pen.(fg := DEFAULT_PEN.fg)
    case BgDefault => pen.(bg := DEFAULT_PEN.bg)
    case FgIndexed(i) => if i < COLOURS then pen.(fg := i) else pen
    case BgIndexed(i) => if i < COLOURS then pen.(bg := i) else pen
    case FgRgb(_, _, _) => pen
    case BgRgb(_, _, _) => pen
  }

  predicate Named(s: Style) {
    (s.Fg? || s.Bg?) ==> s.colour < COLOURS
  }

  function AllCodes(styles: seq<Style>, k: nat): seq<nat>
    requires k <= |styles|
    decreases |styles| - k, styles
  {
    if k == |styles| then [] else Codes(styles[k]) + AllCodes(styles, k + 1)
  }

  function Dressed(pen: Pen, styles: seq<Style>, k: nat): Pen
    requires k <= |styles|
    decreases |styles| - k, styles
  {
    if k == |styles| then pen else Dressed(Dress(pen, styles[k]), styles, k + 1)
  }

  lemma CodeMeans(pen: Pen, s: Style)
    requires Named(s) && |Codes(s)| == 1
    ensures Rendition(pen, Codes(s)[0]) == Dress(pen, s) && Codes(s)[0] != 38 && Codes(s)[0] != 48
  {}

  lemma ExtendedMeans(pen: Pen, p: Parser, i: nat, s: Style)
    requires ParserOk(p) && |Codes(s)| > 1 && i + |Codes(s)| <= p.count
    requires p.params[i] == Codes(s)[0] && p.params[i + 1] == Codes(s)[1] && p.params[i + 2] == Codes(s)[2]
    ensures SgrFrom(pen, p, i) == SgrFrom(Dress(pen, s), p, i + |Codes(s)|)
  {}

  lemma CodesStand(p: Parser, i: nat, codes: seq<nat>, rest: seq<nat>)
    requires ParserOk(p) && i + |codes| + |rest| == p.count && p.params[i..p.count] == codes + rest
    ensures forall j :: 0 <= j < |codes| ==> p.params[i + j] == codes[j]
    ensures p.params[i + |codes|..p.count] == rest
  {
    forall j | 0 <= j < |codes| ensures p.params[i + j] == codes[j] {
      assert p.params[i..p.count][j] == (codes + rest)[j];
    }
    assert p.params[i + |codes|..p.count] == p.params[i..p.count][|codes|..] == rest;
  }

  /** One style's numbers, read from the `i`-th parameter on, change the pen as the style
      says and leave the reading just behind them. */
  lemma OneStyle(pen: Pen, p: Parser, i: nat, s: Style, rest: seq<nat>)
    requires ParserOk(p) && Named(s) && i + |Codes(s)| + |rest| == p.count
    requires p.params[i..p.count] == Codes(s) + rest
    ensures SgrFrom(pen, p, i) == SgrFrom(Dress(pen, s), p, i + |Codes(s)|)
    ensures p.params[i + |Codes(s)|..p.count] == rest
  {
    var codes := Codes(s);
    CodesStand(p, i, codes, rest);
    assert p.params[i + 0] == codes[0];
    if |codes| == 1 {
      CodeMeans(pen, s);
    } else {
      assert p.params[i + 1] == codes[1] && p.params[i + 2] == codes[2];
      ExtendedMeans(pen, p, i, s);
    }
  }

  lemma {:induction false} StylesApply(pen: Pen, p: Parser, i: nat, styles: seq<Style>, k: nat)
    requires ParserOk(p) && k <= |styles| && i + |AllCodes(styles, k)| == p.count
    requires p.params[i..p.count] == AllCodes(styles, k) && forall j :: 0 <= j < |styles| ==> Named(styles[j])
    ensures SgrFrom(pen, p, i) == Dressed(pen, styles, k)
    decreases |styles| - k
  {
    if k < |styles| {
      OneStyle(pen, p, i, styles[k], AllCodes(styles, k + 1));
      StylesApply(Dress(pen, styles[k]), p, i + |Codes(styles[k])|, styles, k + 1);
    }
  }

  predicate Askable(styles: seq<Style>) {
    (forall j :: 0 <= j < |styles| ==> Named(styles[j])) && Small(AllCodes(styles, 0))
  }

  lemma RenditionActs(v: Vt, styles: seq<Style>, ps: seq<nat>)
    requires Ok(v) && Askable(styles) && ps == AllCodes(styles, 0)
    requires Ok(v.(parser := Parser(Normal, false, Loaded(ps, |ps|), |ps|)))
    ensures var w := ApplyCsi(v.(parser := Parser(Normal, false, Loaded(ps, |ps|), |ps|)), 'm');
      && w.pen == (if ps == [] then DEFAULT_PEN else Dressed(v.pen, styles, 0))
      && w == v.(pen := w.pen, parser := w.parser) && w.parser.mode == Normal
  {
    var p := Parser(Normal, false, Loaded(ps, |ps|), |ps|);
    assert p.params[0..p.count] == ps;
    StylesApply(v.pen, p, 0, styles, 0);
  }

  /** The bytes of a rendition sequence, for every list of styles that fits in sixteen
      numbers, leave the pen with those styles put on in order (none at all: the default
      pen), and change nothing else. */
  lemma PenIsDressed(v: Vt, styles: seq<Style>)
    requires Ok(v) && v.parser.mode == Normal && Askable(styles)
    ensures var s := Sequence(AllCodes(styles, 0), 109);
      && Bytes(s)
      && var w := Feed(v, s);
      && w.pen == (if styles == [] then DEFAULT_PEN else Dressed(v.pen, styles, 0))
      && w == v.(pen := w.pen, parser := w.parser) && w.parser.mode == Normal
  {
    var ps := AllCodes(styles, 0);
    assert styles != [] ==> |ps| >= |Codes(styles[0])| > 0;
    SequenceActs(v, ps, 109);
    RenditionActs(v, styles, ps);
  }

  /** The styles that spell a pen. */
  function Spelling(pen: Pen): seq<Style> {
    [Bold(pen.bold), Underline(pen.underline), Reverse(pen.reverse), Fg(pen.fg), Bg(pen.bg)]
  }

  lemma SpellingIs(was: Pen, pen: Pen)
    requires PenOk(pen)
    ensures Askable(Spelling(pen)) && Dressed(was, Spelling(pen), 0) == pen
  {
    var s := Spelling(pen);
    var codes := [Codes(s[0])[0], Codes(s[1])[0], Codes(s[2])[0], Codes(s[3])[0], Codes(s[4])[0]];
    assert AllCodes(s, 5) == [];
    assert AllCodes(s, 4) == codes[4..];
    assert AllCodes(s, 3) == codes[3..];
    assert AllCodes(s, 2) == codes[2..];
    assert AllCodes(s, 1) == codes[1..];
    assert AllCodes(s, 0) == codes;
    var a := Dress(was, s[0]);
    var b := Dress(a, s[1]);
    var c := Dress(b, s[2]);
    var d := Dress(c, s[3]);
    assert Dressed(was, s, 0) == Dressed(a, s, 1) == Dressed(b, s, 2) == Dressed(c, s, 3) == Dressed(d, s, 4);
    assert Dressed(d, s, 4) == Dressed(Dress(d, s[4]), s, 5) == pen;
  }

  /** Every pen can be asked for, whatever the pen was. */
  lemma AnyPen(v: Vt, pen: Pen)
    requires Ok(v) && v.parser.mode == Normal && PenOk(pen)
    ensures Bytes(Sequence(AllCodes(Spelling(pen), 0), 109))
    ensures Feed(v, Sequence(AllCodes(Spelling(pen), 0), 109)).pen == pen
  {
    SpellingIs(v.pen, pen);
    PenIsDressed(v, Spelling(pen));
  }

  // ---- showing the cursor ----

  lemma {:induction false} ShowsFrom(p: Parser, i: nat, on: bool, was: bool)
    requires ParserOk(p) && i <= p.count
    ensures Shows(p, i, on, was) == if 25 in p.params[i..p.count] then on else was
    decreases p.count - i
  {
    if i < p.count {
      ShowsFrom(p, i + 1, on, if p.params[i] == 25 then on else was);
      assert p.params[i..p.count] == [p.params[i]] + p.params[i + 1..p.count];
    }
  }

  /** A private `h` or `l` shows or hides the cursor if and only if 25 is among its numbers,
      wherever it stands; one that is not private leaves it. */
  lemma CursorShows(v: Vt, c: char)
    requires Ok(v) && c in {'h', 'l'}
    ensures ApplyCsi(v, c).visible ==
      if v.parser.priv && 25 in v.parser.params[..v.parser.count] then c == 'h' else v.visible
  {
    ShowsFrom(v.parser, 0, c == 'h', v.visible);
  }

  // ---- saving and restoring ----

  /** Whether the byte saves the cursor or resets the terminal. */
  predicate Saves(v: Vt, c: nat) {
    || (v.parser.mode == Escape && (c == 55 || c == 99))
    || (v.parser.mode == Csi && c == 115)
  }

  lemma ControlSaved(v: Vt, c: nat)
    requires Ok(v)
    ensures Control(v, c).savedCur == v.savedCur && Control(v, c).savedPen == v.savedPen
  {}

  lemma CsiSaved(v: Vt, c: nat)
    requires Ok(v) && c != 115
    ensures CsiByte(v, c).savedCur == v.savedCur && CsiByte(v, c).savedPen == v.savedPen
  {
    ControlSaved(v, c);
  }

  lemma EscapeSaved(v: Vt, c: nat)
    requires Ok(v) && c != 55 && c != 99
    ensures ApplyEscape(v, c).savedCur == v.savedCur && ApplyEscape(v, c).savedPen == v.savedPen
  {}

  lemma CharSaved(v: Vt, c: nat)
    requires Ok(v)
    ensures PutChar(v, c).savedCur == v.savedCur && PutChar(v, c).savedPen == v.savedPen
  {}

  /** Every other byte leaves what was saved alone. */
  lemma OthersKeepSaved(v: Vt, c: nat)
    requires Ok(v) && c < 256 && !Saves(v, c)
    ensures Feed(v, [c]).savedCur == v.savedCur && Feed(v, [c]).savedPen == v.savedPen
  {
    FeedOne(v, c);
    match v.parser.mode
    case Escape => EscapeSaved(v, c);
    case Csi =>
      if c != 27 {
        CsiSaved(v, c);
      }
    case Normal =>
      ControlSaved(v, c);
      CharSaved(v, c);
      CharSaved(v, 63);
    case _ =>
  }

  /** None of the first `k` bytes saves. */
  ghost predicate NoSave(v: Vt, s: seq<nat>, k: nat)
    requires Ok(v) && Bytes(s) && k <= |s|
    decreases k, v
  {
    k == 0 || (NoSave(v, s, k - 1) && !Saves(Feed(v, s[..k - 1]), s[k - 1]))
  }

  lemma {:induction false} SavedStays(v: Vt, s: seq<nat>, k: nat)
    requires Ok(v) && Bytes(s) && k <= |s| && NoSave(v, s, k)
    ensures Feed(v, s[..k]).savedCur == v.savedCur && Feed(v, s[..k]).savedPen == v.savedPen
    decreases k
  {
    if k > 0 {
      SavedStays(v, s, k - 1);
      FeedSnoc(v, s[..k - 1], s[k - 1]);
      assert s[..k - 1] + [s[k - 1]] == s[..k];
      OthersKeepSaved(Feed(v, s[..k - 1]), s[k - 1]);
    }
  }

  /** ESC 7 saves, and ESC 8 restores. */
  lemma SaveActs(v: Vt)
    requires Ok(v) && v.parser.mode == Normal
    ensures Bytes([27] + [55]) && Feed(v, [27] + [55]) == SaveCursor(v)
  {
    var w := v.(parser := v.parser.(mode := Escape));
    EscapeOpens(v);
    FeedOne(w, 55);
    Then(v, [27], w, [55], SaveCursor(v));
  }

  lemma RestoreActs(v: Vt)
    requires Ok(v) && v.parser.mode == Normal
    ensures Bytes([27] + [56]) && Feed(v, [27] + [56]) == RestoreCursor(v)
  {
    var w := v.(parser := v.parser.(mode := Escape));
    EscapeOpens(v);
    FeedOne(w, 56);
    Then(v, [27], w, [56], RestoreCursor(v));
  }

  /** After a save, any bytes that do not save again, and a restore, the cursor and the pen
      are those of the save; the cells are what the bytes between made them. */
  lemma SavedComesBack(v: Vt, s: seq<nat>)
    requires Ok(v) && v.parser.mode == Normal && Bytes(s)
    requires NoSave(SaveCursor(v), s, |s|) && Feed(SaveCursor(v), s).parser.mode == Normal
    ensures var all := [27] + [55] + s + ([27] + [56]);
      && Bytes(all)
      && var w := Feed(v, all);
      && w.cur == v.cur && w.pen == v.pen && !w.wrap && w.g == Feed(SaveCursor(v), s).g
  {
    var a := SaveCursor(v);
    var b := Feed(a, s);
    SaveActs(v);
    SavedStays(a, s, |s|);
    assert s[..|s|] == s;
    RestoreActs(b);
    Then(v, [27] + [55], a, s, b);
    Then(v, [27] + [55] + s, b, [27] + [56], RestoreCursor(b));
  }

  // ---- wrapping ----

  lemma ControlWraps(v: Vt, c: nat)
    requires Ok(v) && WrapsAtEnd(v)
    ensures WrapsAtEnd(Control(v, c))
  {}

  lemma CsiWraps(v: Vt, c: char)
    requires Ok(v) && WrapsAtEnd(v)
    ensures WrapsAtEnd(ApplyCsi(v, c))
  {
    WorkedSteps(v, c);
    MoveOk(v, c);
    if c == 'm' {
      SgrOk(v.pen, v.parser, 0);
    }
  }

  lemma CharWraps(v: Vt, c: nat)
    requires Ok(v)
    ensures WrapsAtEnd(PutChar(v, c))
  {
    WrapOk(v);
  }

  lemma EscapeWraps(v: Vt, c: nat)
    requires Ok(v) && WrapsAtEnd(v)
    ensures WrapsAtEnd(ApplyEscape(v, c))
  {}

  lemma ByteWraps(v: Vt, c: nat)
    requires Ok(v) && WrapsAtEnd(v) && c < 256
    ensures WrapsAtEnd(Feed(v, [c]))
  {
    FeedOne(v, c);
    match v.parser.mode
    case Escape => EscapeWraps(v, c);
    case Csi =>
      if c < 32 {
        ControlWraps(v, c);
      } else if 64 <= c <= 126 {
        CsiWraps(v.(parser := v.parser.(mode := Normal)), c as char);
      }
    case Normal =>
      ControlWraps(v, c);
      CharWraps(v, c);
      CharWraps(v, 63);
    case _ =>
  }

  /** Whatever bytes come, a wrap is pending only in the last column. */
  lemma {:induction false} BytesWrapAtEnd(v: Vt, s: seq<nat>)
    requires Ok(v) && WrapsAtEnd(v) && Bytes(s)
    ensures WrapsAtEnd(Feed(v, s))
    decreases |s|
  {
    if s != [] {
      var k := |s| - 1;
      BytesWrapAtEnd(v, s[..k]);
      FeedSnoc(v, s[..k], s[k]);
      assert s[..k] + [s[k]] == s;
      ByteWraps(Feed(v, s[..k]), s[k]);
    }
  }

  /** A line of text. */
  function Text(k: nat): seq<nat> {
    seq(k, _ => 97)
  }

  lemma OneLetter(v: Vt)
    requires Ok(v) && v.parser.mode == Normal && !v.wrap
    ensures var w := Feed(v, [97]);
      && w.parser == v.parser && w.g.cols == v.g.cols && w.g.rows == v.g.rows
      && w.cur == v.cur.(x := if v.cur.x + 1 < v.g.cols then v.cur.x + 1 else v.cur.x)
      && (w.wrap <==> v.cur.x + 1 == v.g.cols)
  {
    FeedOne(v, 97);
  }

  /** A wrap is pending exactly when the line is full. */
  lemma {:induction false} LineFills(v: Vt, k: nat)
    requires Ok(v) && v.parser.mode == Normal && !v.wrap && v.cur.x == 0 && k <= v.g.cols
    ensures Bytes(Text(k))
    ensures var w := Feed(v, Text(k));
      && w.parser == v.parser && w.g.cols == v.g.cols && w.g.rows == v.g.rows
      && w.cur == v.cur.(x := if k < v.g.cols then k else k - 1) && (w.wrap <==> k == v.g.cols)
    decreases k
  {
    if k == 0 {
      assert Text(0) == [];
    } else {
      LineFills(v, k - 1);
      assert Text(k) == Text(k - 1) + [97];
      FeedSnoc(v, Text(k - 1), 97);
      OneLetter(Feed(v, Text(k - 1)));
    }
  }
}
