/** Several terminals and one screen: output marks rows, a refresher draws them row by row
    between outputs and switches, and a clean row is always one the screen shows.
 */
module Terminal {
  import opened Basics
  import opened Grid
  import opened Vt
  import opened VtRuns
  import opened VtMeaning
  import opened VtSize

  datatype Term = Term(
    vts: seq<Vt>, active: nat,
    screen: seq<Cell>,       // what the backend has drawn
    started: bool,           // the refresher runs
    pending: bool,           // it has been asked to draw
    refresh: Option<nat>)    // the row it will draw next, while it draws

  function Shown(t: Term): Vt
    requires t.active < |t.vts|
  {
    t.vts[t.active]
  }

  // ---- the invariant ----

  ghost predicate Shape(t: Term) {
    && t.active < |t.vts| && (forall k :: 0 <= k < |t.vts| ==> Ok(t.vts[k]))
    && (forall k :: 0 <= k < |t.vts| ==> t.vts[k].g.cols == Shown(t).g.cols && t.vts[k].g.rows == Shown(t).g.rows)
    && |t.screen| == |Shown(t).g.cells|
  }

  /** A cell of a clean row is on the screen. */
  ghost predicate Drawn(g: Grid, screen: seq<Cell>) {
    && |screen| == |g.cells|
    && forall i :: 0 <= i < |screen| && RowOf(g, i) < |g.dirty| && !g.dirty[RowOf(g, i)] ==> screen[i] == g.cells[i]
  }

  /** A dirty row of the shown terminal is still to be drawn. */
  ghost predicate Awaited(t: Term)
    requires t.active < |t.vts|
  {
    forall r :: 0 <= r < |Shown(t).g.dirty| && Shown(t).g.dirty[r] ==>
      t.pending || (t.refresh.Some? && t.refresh.value <= r)
  }

  ghost predicate Inv(t: Term) {
    Shape(t) && Drawn(Shown(t).g, t.screen) && Awaited(t)
  }

  // ---- drawing ----

  /** The screen with cells `a` up to `b` drawn. */
  function Copied(screen: seq<Cell>, cells: seq<Cell>, a: nat, b: nat): (r: seq<Cell>)
    requires a <= b <= |screen| == |cells|
    ensures |r| == |screen|
  {
    screen[..a] + cells[a..b] + screen[b..]
  }

  /** `terminal_flush_row`: the row's flag lowered and the row drawn, if it was flagged. */
  function Clean(g: Grid, r: nat): Grid
    requires r < |g.dirty|
  {
    g.(dirty := g.dirty[r := false])
  }

  function DrawRow(g: Grid, screen: seq<Cell>, r: nat): seq<Cell>
    requires GridOk(g) && r < g.rows && |screen| == |g.cells|
  {
    LinesOrdered(g.cols, r + 1, g.rows);
    if g.dirty[r] then Copied(screen, g.cells, Line(g.cols, r), Line(g.cols, r + 1)) else screen
  }

  lemma DrawRowKeeps(g: Grid, screen: seq<Cell>, r: nat)
    requires GridOk(g) && r < g.rows && Drawn(g, screen)
    ensures GridOk(Clean(g, r)) && Drawn(Clean(g, r), DrawRow(g, screen, r))
  {
    var h, now := Clean(g, r), DrawRow(g, screen, r);
    LinesOrdered(g.cols, r + 1, g.rows);
    forall i | 0 <= i < |now| && RowOf(h, i) < |h.dirty| && !h.dirty[RowOf(h, i)] ensures now[i] == h.cells[i] {
      RowHolds(g.cols, i);
      if RowOf(g, i) == r {
        assert Line(g.cols, r + 1) == Line(g.cols, r) + g.cols;
      } else {
        Apart(g, i, r);
      }
    }
  }

  /** A place in another row is outside the row's stretch. */
  lemma Apart(g: Grid, i: nat, r: nat)
    requires g.cols > 0 && RowOf(g, i) != r
    ensures i < Line(g.cols, r) || Line(g.cols, r + 1) <= i
  {
    RowHolds(g.cols, i);
    if RowOf(g, i) < r {
      LinesOrdered(g.cols, RowOf(g, i) + 1, r);
    } else {
      LinesOrdered(g.cols, r + 1, RowOf(g, i));
    }
  }

  /** The rows below `k` drawn, from the top. */
  function Drew(g: Grid, screen: seq<Cell>, k: nat): (r: (Grid, seq<Cell>))
    requires GridOk(g) && k <= g.rows && |screen| == |g.cells|
    ensures GridOk(r.0) && |r.1| == |screen| && r.0 == g.(dirty := r.0.dirty)
  {
    if k == 0 then (g, screen)
    else
      var (h, s) := Drew(g, screen, k - 1);
      (Clean(h, k - 1), DrawRow(h, s, k - 1))
  }

  lemma {:induction false} DrewKeeps(g: Grid, screen: seq<Cell>, k: nat)
    requires GridOk(g) && k <= g.rows && Drawn(g, screen)
    ensures Drawn(Drew(g, screen, k).0, Drew(g, screen, k).1)
    ensures forall r :: 0 <= r < k ==> !Drew(g, screen, k).0.dirty[r]
    decreases k
  {
    if k > 0 {
      DrewKeeps(g, screen, k - 1);
      var (h, s) := Drew(g, screen, k - 1);
      DrawRowKeeps(h, s, k - 1);
    }
  }

  function WithShown(t: Term, g: Grid): Term
    requires t.active < |t.vts|
  {
    t.(vts := t.vts[t.active := Shown(t).(g := g)])
  }

  /** `terminal_flush` */
  function Flush(t: Term): Term
    requires t.active < |t.vts| && Ok(Shown(t)) && |t.screen| == |Shown(t).g.cells|
  {
    var (g, s) := Drew(Shown(t).g, t.screen, Shown(t).g.rows);
    WithShown(t, g).(screen := s)
  }

  // ---- steps ----

  datatype Action =
    | Output(index: nat, s: seq<nat>, sync: bool)   // terminal_output, its bytes after line-end expansion
    | Switch(index: nat)                            // terminal_switch
    | Start                                         // terminal_start_refresh
    | Begin                                         // terminal_refresh takes the request
    | Row                                           // it draws one row
    | Finish                                        // it is past the last row
    | Mode(cols: nat, rows: nat, screen: seq<Cell>) // terminal_switch_mode, to a screen that shows this

  predicate Enabled(t: Term, a: Action)
    requires t.active < |t.vts|
  {
    match a
    case Output(index, s, _) => index < |t.vts| && Bytes(s)
    case Switch(index) => index < |t.vts|
    case Start => true
    case Begin => t.refresh.None?
    case Row => t.refresh.Some? && t.refresh.value < Shown(t).g.rows
    case Finish => t.refresh.Some? && t.refresh.value >= Shown(t).g.rows
    case Mode(cols, rows, screen) => cols > 0 && rows > 0 && |screen| == Line(cols, rows)
  }

  /** The terminal written to, its reply handed on. */
  ghost function Wrote(v: Vt, s: seq<nat>): Vt
    requires Ok(v) && Bytes(s)
  {
    EveryInputIsSafe(v, s);
    Feed(v, s).(response := [])
  }

  function AllDirty(g: Grid): Grid {
    g.(dirty := seq(|g.dirty|, _ => true))
  }

  function AllResized(vts: seq<Vt>, cols: nat, rows: nat): (r: seq<Vt>)
    requires cols > 0 && rows > 0 && forall k :: 0 <= k < |vts| ==> Ok(vts[k])
    ensures |r| == |vts| && forall k :: 0 <= k < |vts| ==> r[k] == Resized(vts[k], cols, rows)
  {
    seq(|vts|, k requires 0 <= k < |vts| => Resized(vts[k], cols, rows))
  }

  /** `terminal_attach` up to its flush: every terminal of the screen's size, and all of the
      shown one to be drawn. */
  function Attached(t: Term, cols: nat, rows: nat, screen: seq<Cell>): Term
    requires t.active < |t.vts| && cols > 0 && rows > 0 && forall k :: 0 <= k < |t.vts| ==> Ok(t.vts[k])
  {
    var w := t.(vts := AllResized(t.vts, cols, rows), screen := screen);
    WithShown(w, AllDirty(Shown(w).g))
  }

  lemma AttachedShape(t: Term, cols: nat, rows: nat, screen: seq<Cell>)
    requires t.active < |t.vts| && cols > 0 && rows > 0 && |screen| == Line(cols, rows)
    requires forall k :: 0 <= k < |t.vts| ==> Ok(t.vts[k])
    ensures var w := Attached(t, cols, rows, screen);
      Shape(w) && Drawn(Shown(w).g, w.screen) && Shown(w).g.rows == rows
  {
    forall k | 0 <= k < |t.vts|
      ensures var w := Resized(t.vts[k], cols, rows); Ok(w) && w.g.cols == cols && w.g.rows == rows
    {
      ResizedOk(t.vts[k], cols, rows);
    }
  }

  ghost function Apply(t: Term, a: Action): Term
    requires Inv(t) && Enabled(t, a)
  {
    match a
    case Output(index, s, sync) =>
      WroteSteps(t.vts[index], s);
      var w := t.(vts := t.vts[index := Wrote(t.vts[index], s)]);
      if index != t.active then w
      else if sync || !t.started then Flush(w)
      else w.(pending := true)
    case Switch(index) =>
      if index == t.active then t
      else
        var w := t.(active := index);
        SameSize(t, index);
        Flush(WithShown(w, AllDirty(Shown(w).g)))
    case Start => t.(started := true)
    case Begin => if t.pending then t.(pending := false, refresh := Some(0)) else t
    case Row =>
      var g, r := Shown(t).g, t.refresh.value;
      WithShown(t, Clean(g, r)).(screen := DrawRow(g, t.screen, r), refresh := Some(r + 1))
    case Finish => t.(refresh := None)
    case Mode(cols, rows, screen) =>
      AttachedShape(t, cols, rows, screen);
      Flush(Attached(t, cols, rows, screen))
  }

  lemma SameSize(t: Term, index: nat)
    requires Shape(t) && index < |t.vts|
    ensures |t.screen| == |t.vts[index].g.cells|
  {}

  lemma WroteSteps(v: Vt, s: seq<nat>)
    requires Ok(v) && Bytes(s)
    ensures Steps(v, Wrote(v, s))
  {
    EveryInputIsSafe(v, s);
  }

  /** Output that flags what it changes keeps clean rows drawn. */
  lemma HonestDrawn(g: Grid, h: Grid, screen: seq<Cell>)
    requires Drawn(g, screen) && Honest(g, h)
    ensures Drawn(h, screen)
  {
    forall i | 0 <= i < |screen| && RowOf(h, i) < |h.dirty| && !h.dirty[RowOf(h, i)] ensures screen[i] == h.cells[i] {
      assert RowOf(h, i) == RowOf(g, i);
    }
  }

  lemma FlushKeeps(t: Term)
    requires Shape(t) && Drawn(Shown(t).g, t.screen)
    ensures Inv(Flush(t)) && forall r :: 0 <= r < Shown(t).g.rows ==> !Shown(Flush(t)).g.dirty[r]
  {
    DrewKeeps(Shown(t).g, t.screen, Shown(t).g.rows);
  }

  lemma OutputKeeps(t: Term, index: nat, s: seq<nat>, sync: bool)
    requires Inv(t) && Enabled(t, Output(index, s, sync))
    ensures Inv(Apply(t, Output(index, s, sync)))
  {
    WroteSteps(t.vts[index], s);
    var w := t.(vts := t.vts[index := Wrote(t.vts[index], s)]);
    if index == t.active {
      HonestDrawn(Shown(t).g, Shown(w).g, t.screen);
      if sync || !t.started {
        FlushKeeps(w);
      }
    }
  }

  lemma SwitchKeeps(t: Term, index: nat)
    requires Inv(t) && index < |t.vts|
    ensures Inv(Apply(t, Switch(index)))
  {
    if index != t.active {
      var w := t.(active := index);
      FlushKeeps(WithShown(w, AllDirty(Shown(w).g)));
    }
  }

  lemma RowKeeps(t: Term)
    requires Inv(t) && Enabled(t, Row)
    ensures Inv(Apply(t, Row))
  {
    DrawRowKeeps(Shown(t).g, t.screen, t.refresh.value);
  }

  lemma ApplyKeeps(t: Term, a: Action)
    requires Inv(t) && Enabled(t, a)
    ensures Inv(Apply(t, a))
  {
    match a
    case Output(index, s, sync) => OutputKeeps(t, index, s, sync);
    case Switch(index) => SwitchKeeps(t, index);
    case Row => RowKeeps(t);
    case Mode(cols, rows, screen) =>
      AttachedShape(t, cols, rows, screen);
      FlushKeeps(Attached(t, cols, rows, screen));
    case _ =>
  }

  // ---- runs ----

  ghost predicate CanRun(t: Term, acts: seq<Action>)
    requires Inv(t)
    decreases |acts|
  {
    acts == [] || (Enabled(t, acts[0]) && (ApplyKeeps(t, acts[0]); CanRun(Apply(t, acts[0]), acts[1..])))
  }

  ghost function After(t: Term, acts: seq<Action>): Term
    requires Inv(t) && CanRun(t, acts)
    decreases |acts|
  {
    if acts == [] then t
    else
      ApplyKeeps(t, acts[0]);
      After(Apply(t, acts[0]), acts[1..])
  }

  lemma {:induction false} RunKeeps(t: Term, acts: seq<Action>)
    requires Inv(t) && CanRun(t, acts)
    ensures Inv(After(t, acts))
    decreases |acts|
  {
    if acts != [] {
      ApplyKeeps(t, acts[0]);
      RunKeeps(Apply(t, acts[0]), acts[1..]);
    }
  }

  /** When no refresh is pending or under way, the screen is the shown terminal's grid. */
  lemma QuietScreen(t: Term)
    requires Inv(t) && !t.pending && t.refresh.None?
    ensures t.screen == Shown(t).g.cells
  {
    var g := Shown(t).g;
    forall i | 0 <= i < |t.screen| ensures t.screen[i] == g.cells[i] {
      RowInGrid(g, i);
    }
  }

  /** For every interleaving of output, switches, mode changes and row-by-row refreshes: what a clean row
      of the shown terminal holds is on the screen, and between refreshes all of it is. */
  lemma ScreenAgrees(t: Term, acts: seq<Action>)
    requires Inv(t) && CanRun(t, acts)
    ensures var w := After(t, acts);
      && Inv(w) && Drawn(Shown(w).g, w.screen)
      && (!w.pending && w.refresh.None? ==> w.screen == Shown(w).g.cells)
  {
    RunKeeps(t, acts);
    var w := After(t, acts);
    if !w.pending && w.refresh.None? {
      QuietScreen(w);
    }
  }

  // ---- the start ----

  const COUNT: nat := 6

  /** `vt_init` on every terminal, each with the memory it got. */
  function AllCreated(cols: nat, rows: nat, memory: seq<(seq<Cell>, seq<bool>)>): (r: seq<Vt>)
    requires forall k :: 0 <= k < |memory| ==> Shaped(Grid(cols, rows, memory[k].0, memory[k].1))
    ensures |r| == |memory|
    ensures forall k :: 0 <= k < |memory| ==> r[k] == Created(cols, rows, memory[k].0, memory[k].1)
  {
    seq(|memory|, k requires 0 <= k < |memory| => Created(cols, rows, memory[k].0, memory[k].1))
  }

  ghost predicate Starting(cols: nat, rows: nat, memory: seq<(seq<Cell>, seq<bool>)>, screen: seq<Cell>) {
    && cols > 0 && rows > 0 && |memory| == COUNT && |screen| == Line(cols, rows)
    && forall k :: 0 <= k < COUNT ==> Shaped(Grid(cols, rows, memory[k].0, memory[k].1))
  }

  lemma CreatedOk(cols: nat, rows: nat, memory: seq<(seq<Cell>, seq<bool>)>, screen: seq<Cell>)
    requires Starting(cols, rows, memory, screen)
    ensures forall k :: 0 <= k < COUNT ==>
      AllCreated(cols, rows, memory)[k] == Unwritten(cols, rows) && Ok(AllCreated(cols, rows, memory)[k])
  {
    forall k | 0 <= k < COUNT
      ensures AllCreated(cols, rows, memory)[k] == Unwritten(cols, rows) && Ok(AllCreated(cols, rows, memory)[k])
    {
      CreatedIsBlank(cols, rows, memory[k].0, memory[k].1);
    }
  }

  /** `terminal_initialize` */
  ghost function Initialized(cols: nat, rows: nat, memory: seq<(seq<Cell>, seq<bool>)>, screen: seq<Cell>): Term
    requires Starting(cols, rows, memory, screen)
  {
    CreatedOk(cols, rows, memory, screen);
    var t := Term(AllCreated(cols, rows, memory), 0, screen, false, false, None);
    AttachedShape(t, cols, rows, screen);
    Flush(Attached(t, cols, rows, screen))
  }

  /** Whatever the memory and the screen held, the terminals start in order, and the screen
      shows the first of them, blank. */
  lemma StartsInOrder(cols: nat, rows: nat, memory: seq<(seq<Cell>, seq<bool>)>, screen: seq<Cell>)
    requires Starting(cols, rows, memory, screen)
    ensures var t := Initialized(cols, rows, memory, screen);
      Inv(t) && t.screen == Unwritten(cols, rows).g.cells
  {
    CreatedOk(cols, rows, memory, screen);
    var t := Term(AllCreated(cols, rows, memory), 0, screen, false, false, None);
    AttachedShape(t, cols, rows, screen);
    FlushKeeps(Attached(t, cols, rows, screen));
    var w := Initialized(cols, rows, memory, screen);
    QuietScreen(w);
    assert Shown(w).g.cells == Shown(t).g.cells;
  }

  /** So in every run from the start the screen agrees with the shown terminal. */
  lemma ScreenAgreesFromStart(cols: nat, rows: nat, memory: seq<(seq<Cell>, seq<bool>)>, screen: seq<Cell>,
                              acts: seq<Action>)
    requires Starting(cols, rows, memory, screen)
    requires (StartsInOrder(cols, rows, memory, screen);
              CanRun(Initialized(cols, rows, memory, screen), acts))
    ensures (StartsInOrder(cols, rows, memory, screen);
             var w := After(Initialized(cols, rows, memory, screen), acts);
             && Inv(w) && Drawn(Shown(w).g, w.screen)
             && (!w.pending && w.refresh.None? ==> w.screen == Shown(w).g.cells))
  {
    StartsInOrder(cols, rows, memory, screen);
    ScreenAgrees(Initialized(cols, rows, memory, screen), acts);
  }

  // ---- a wrap left behind ----

  /** What flushing leaves alone. */
  lemma FlushLeaves(t: Term)
    requires Shape(t)
    ensures Flush(t).active == t.active && |Flush(t).vts| == |t.vts|
    ensures var v, w := Shown(t), Shown(Flush(t)); w == v.(g := w.g) && w.g.cols == v.g.cols && w.g.rows == v.g.rows
  {}

  lemma StartsBlank(cols: nat, rows: nat, memory: seq<(seq<Cell>, seq<bool>)>, screen: seq<Cell>)
    requires Starting(cols, rows, memory, screen)
    ensures var t := Initialized(cols, rows, memory, screen);
      && t.active == 0 < |t.vts|
      && var v := Shown(t);
      && v.cur == Cursor(0, 0) && v.parser.mode == Normal && !v.wrap && v.g.cols == cols && v.g.rows == rows
  {
    CreatedOk(cols, rows, memory, screen);
    var t := Term(AllCreated(cols, rows, memory), 0, screen, false, false, None);
    AttachedShape(t, cols, rows, screen);
    FlushLeaves(Attached(t, cols, rows, screen));
  }

  lemma FillsLine(t: Term, cols: nat)
    requires Inv(t) && Shown(t).g.cols == cols && Shown(t).parser.mode == Normal
    requires !Shown(t).wrap && Shown(t).cur.x == 0
    ensures Enabled(t, Output(t.active, Text(cols), true))
    ensures var u := Apply(t, Output(t.active, Text(cols), true));
      && u.active == t.active < |u.vts| && Shown(u).g.cols == cols && Shown(u).g.rows == Shown(t).g.rows
      && Shown(u).wrap && Shown(u).cur.x == cols - 1
  {
    LineFills(Shown(t), cols);
    WroteSteps(Shown(t), Text(cols));
    FlushLeaves(t.(vts := t.vts[t.active := Wrote(Shown(t), Text(cols))]));
  }

  lemma Widens(u: Term, wider: nat, screen: seq<Cell>)
    requires Inv(u) && Shown(u).wrap && Shown(u).cur.x == Shown(u).g.cols - 1
    requires wider > Shown(u).g.cols && |screen| == Line(wider, Shown(u).g.rows)
    ensures Enabled(u, Mode(wider, Shown(u).g.rows, screen))
    ensures var w := Apply(u, Mode(wider, Shown(u).g.rows, screen));
      w.active < |w.vts| && Shown(w).wrap && !WrapsAtEnd(Shown(w))
  {
    var rows := Shown(u).g.rows;
    AttachedShape(u, wider, rows, screen);
    ResizedOk(Shown(u), wider, rows);
    FlushLeaves(Attached(u, wider, rows, screen));
  }

  /** From the start: a line is filled, and the screen then has longer ones; the pending wrap
      is short of the end, so the next character goes to the next line all the same. */
  lemma WrapLeftBehind(cols: nat, rows: nat, memory: seq<(seq<Cell>, seq<bool>)>, screen: seq<Cell>,
                       wider: nat, wide: seq<Cell>)
    returns (t: Term, u: Term, w: Term)
    requires Starting(cols, rows, memory, screen) && wider > cols && |wide| == Line(wider, rows)
    ensures t == Initialized(cols, rows, memory, screen) && Inv(t) && Enabled(t, Output(0, Text(cols), true))
    ensures u == Apply(t, Output(0, Text(cols), true)) && Inv(u) && Enabled(u, Mode(wider, rows, wide))
    ensures w == Apply(u, Mode(wider, rows, wide)) && Inv(w) && Shown(w).wrap && !WrapsAtEnd(Shown(w))
  {
    StartsInOrder(cols, rows, memory, screen);
    StartsBlank(cols, rows, memory, screen);
    t := Initialized(cols, rows, memory, screen);
    FillsLine(t, cols);
    OutputKeeps(t, 0, Text(cols), true);
    u := Apply(t, Output(0, Text(cols), true));
    Widens(u, wider, wide);
    ApplyKeeps(u, Mode(wider, rows, wide));
    w := Apply(u, Mode(wider, rows, wide));
  }

  // ---- a refresh ----

  /** A refresh left alone draws everything: from its request, the rows in turn, to a screen
      that is the shown grid. */
  function Rows(n: nat): seq<Action> {
    if n == 0 then [] else [Row] + Rows(n - 1)
  }

  lemma {:induction false} RowsRun(t: Term, n: nat)
    requires Inv(t) && t.refresh == Some(Shown(t).g.rows - n) && n <= Shown(t).g.rows
    ensures CanRun(t, Rows(n) + [Finish])
    ensures After(t, Rows(n) + [Finish]).refresh.None? && After(t, Rows(n) + [Finish]).pending == t.pending
    decreases n
  {
    var acts := Rows(n) + [Finish];
    if n == 0 {
      assert acts[0] == Finish && acts[1..] == [];
    } else {
      ApplyKeeps(t, Row);
      RowsRun(Apply(t, Row), n - 1);
      assert acts[0] == Row && acts[1..] == Rows(n - 1) + [Finish];
    }
  }

  lemma RefreshDrawsAll(t: Term)
    requires Inv(t) && t.pending && t.refresh.None?
    ensures var acts := [Begin] + (Rows(Shown(t).g.rows) + [Finish]);
      CanRun(t, acts) && (RunKeeps(t, acts); After(t, acts).screen == Shown(After(t, acts)).g.cells)
  {
    var rest := Rows(Shown(t).g.rows) + [Finish];
    var acts := [Begin] + rest;
    ApplyKeeps(t, Begin);
    RowsRun(Apply(t, Begin), Shown(t).g.rows);
    assert acts[0] == Begin && acts[1..] == rest;
    RunKeeps(t, acts);
    QuietScreen(After(t, acts));
  }
}
