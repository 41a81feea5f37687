/** Which stacks handlers run on: when a frame is clear of the active ones, when the alternate
    stack setting comes back, and a program that loses a frame.
 */
module SignalStacks {
  import opened Basics
  import opened Signals
  import opened SignalRuns
  import Seqs

  // ---- a discipline that keeps frames apart ----

  /** The frame lies, in part at least, on the alternate stack. */
  predicate Touches(alt: AltStack, e: Entry) {
    alt.size != 0 && e.addr + FRAME_SIZE > alt.sp && e.addr < alt.sp + alt.size
  }

  /** The code is on the alternate stack while a frame is there, and has not climbed over an
      active frame of the stack it is on. */
  predicate Disciplined(alt: AltStack, rsp: Word, e: Entry) {
    if OnAlt(alt, rsp) then Touches(alt, e) ==> rsp <= e.addr + RED_ZONE
    else !Touches(alt, e) && (rsp <= e.addr + RED_ZONE || e.addr + FRAME_SIZE + 600 <= rsp)
  }

  /** Where `FramePlacement` puts a frame, it is clear of such an entry. */
  lemma PlacedClear(alt: AltStack, rsp: Word, e: Entry, sp: Word, toAlt: bool)
    requires Disciplined(alt, rsp, e) && (toAlt ==> alt.size != 0 && !OnAlt(alt, rsp))
    requires toAlt || OnAlt(alt, rsp) ==> alt.sp <= sp && sp + FRAME_SIZE <= alt.sp + alt.size
    requires !toAlt ==> sp + FRAME_SIZE <= rsp - RED_ZONE && rsp - RED_ZONE - 472 < sp
    ensures !Overlaps(e.addr, sp)
  {}

  lemma BaseOf(p: Proc, act: Handler, rsp: Word)
    requires !ToAlt(p, act, rsp) && rsp >= RED_ZONE
    ensures Base(p, act, rsp) == rsp - RED_ZONE
  {}

  /** Under the discipline every new frame is clear of the active ones. */
  lemma DisciplineKeepsClear(m: Machine, writable: bool)
    requires Inv(m) && Enabled(m, DeliverSignals(writable)) && DeliverStep(m, writable).Some?
    requires Settle(m.r.proc.(syscallNr := -1)).1.Some?
    requires forall i :: 0 <= i < |m.shadow| ==> Disciplined(m.r.proc.alt, m.r.ctx.rsp, m.shadow[i])
    ensures Clear(m.shadow, DeliverStep(m, writable).value.r.ctx.rsp)
  {
    var (p, sig) := Settle(m.r.proc.(syscallNr := -1));
    SettledProc(m.r.proc);
    var c := Interrupted(m.r.ctx, m.r.proc, sig.value);
    FramePlacement(c, p, m.r.mem, sig.value, writable);
    var sp, act := DeliverStep(m, writable).value.r.ctx.rsp, ActionOf(p, sig.value);
    var toAlt := ToAlt(p, act, c.rsp);
    if !toAlt {
      BaseOf(p, act, c.rsp);
    }
    forall i | 0 <= i < |m.shadow| ensures !Overlaps(m.shadow[i].addr, sp) {
      PlacedClear(m.r.proc.alt, m.r.ctx.rsp, m.shadow[i], sp, toAlt);
    }
  }

  // ---- the alternate stack when nobody sets it ----

  function AltAt(shadow: seq<Entry>, n: nat, base: AltStack, i: nat): AltStack
    requires n <= i <= |shadow|
  {
    if i == n then base else shadow[i - 1].after
  }

  /** From depth `n` on each handler started with the setting the one below it began with. */
  ghost predicate Chain(shadow: seq<Entry>, alt: AltStack, n: nat, base: AltStack) {
    && n <= |shadow|
    && (forall i :: n <= i < |shadow| ==> shadow[i].alt == AltAt(shadow, n, base, i))
    && alt == AltAt(shadow, n, base, |shadow|)
  }

  ghost predicate Chained(m: Machine, n: nat, base: AltStack) {
    Chain(m.shadow, m.r.proc.alt, n, base)
  }

  lemma PopChain(shadow: seq<Entry>, alt: AltStack, n: nat, base: AltStack)
    requires Chain(shadow, alt, n, base) && n < |shadow|
    ensures alt == shadow[|shadow| - 1].after
    ensures Chain(shadow[..|shadow| - 1], shadow[|shadow| - 1].alt, n, base)
  {
    var k := |shadow| - 1;
    assert forall i :: n <= i <= k ==> AltAt(shadow[..k], n, base, i) == AltAt(shadow, n, base, i);
  }

  /** From the setting the handler began with, a return always brings the frame's back. */
  lemma ReturnAlt(m: Machine)
    requires Inv(m) && Enabled(m, Return) && m.r.proc.alt == m.shadow[|m.shadow| - 1].after
    ensures m.shadow[|m.shadow| - 1].addr in m.r.mem
    ensures ReturnStep(m).Some? ==> ReturnStep(m).value.r.proc.alt == m.shadow[|m.shadow| - 1].alt
    ensures ReturnStep(m).Some? ==> ReturnStep(m).value.shadow == m.shadow[..|m.shadow| - 1]
  {
    ReturnRestores(m);
    assert FrameIntact(m.r.mem, m.shadow[|m.shadow| - 1]);
  }

  lemma ReturnChained(m: Machine, n: nat, base: AltStack)
    requires Inv(m) && Enabled(m, Return) && Chained(m, n, base) && n < |m.shadow|
    ensures m.shadow[|m.shadow| - 1].addr in m.r.mem
    ensures ReturnStep(m).Some? ==>
              Chain(ReturnStep(m).value.shadow, ReturnStep(m).value.r.proc.alt, n, base)
  {
    PopChain(m.shadow, m.r.proc.alt, n, base);
    ReturnAlt(m);
  }

  lemma PushChain(shadow: seq<Entry>, n: nat, base: AltStack, e: Entry)
    requires Chain(shadow, e.alt, n, base)
    ensures Chain(shadow + [e], e.after, n, base)
  {
    var s := shadow + [e];
    assert forall i :: n <= i <= |shadow| ==> AltAt(s, n, base, i) == AltAt(shadow, n, base, i);
  }

  lemma DeliverChained(m: Machine, writable: bool, n: nat, base: AltStack)
    requires Inv(m) && Enabled(m, DeliverSignals(writable)) && Spares(m, DeliverSignals(writable))
    requires Chained(m, n, base)
    requires DeliverStep(m, writable).Some?
    ensures Chained(DeliverStep(m, writable).value, n, base)
  {
    if Settle(m.r.proc.(syscallNr := -1)).1.Some? {
      HandlerStarts(m, writable);
      PushChain(m.shadow, n, base, DeliverStep(m, writable).value.shadow[|m.shadow|]);
    } else {
      QuietAlt(m, writable);
    }
  }

  lemma QuietAlt(m: Machine, writable: bool)
    requires Inv(m) && Enabled(m, DeliverSignals(writable)) && Settle(m.r.proc.(syscallNr := -1)).1.None?
    ensures DeliverStep(m, writable).Some?
    ensures DeliverStep(m, writable).value.r.proc.alt == m.r.proc.alt
    ensures DeliverStep(m, writable).value.shadow == m.shadow
  {
    QuietDeliverKeeps(m, writable);
  }

  lemma UntouchedAll(shadow: seq<Entry>, kept: set<int>)
    requires forall i :: 0 <= i < |shadow| ==> shadow[i].addr in kept
    ensures Untouched(shadow, kept) == shadow
  {
    UntouchedFirst(shadow, kept, |shadow|);
    UntouchedMost(shadow, kept);
    assert shadow[..|shadow|] == shadow;
  }

  lemma StepChained(m: Machine, s: Step, t: Machine, n: nat, base: AltStack)
    requires Inv(m) && Enabled(m, s) && Spares(m, s) && !s.Sigaltstack? && Chained(m, n, base) && n > 0
    requires (NextKeeps(m, s); Next(m, s) == Some(t)) && n <= |t.shadow| && LeavesFirst(m, s, |m.shadow|)
    ensures Chained(t, n, base)
  {
    NextKeeps(m, s);
    match s
    case UserCode(c, kept) => UntouchedAll(m.shadow, kept);
    case Return =>
      ReturnRestores(m);
      ReturnChained(m, n, base);
    case ForgedReturn(uc) =>
    case DeliverSignals(w) => DeliverChained(m, w, n, base);
    case _ => MaskStepFrame(m, s);
  }

  /** Nobody sets the alternate stack, and user code writes over no active frame. */
  ghost predicate LetsBe(m: Machine, steps: seq<Step>)
    requires Inv(m) && IsRun(m, steps)
    decreases |steps|
  {
    steps == [] ||
    (!steps[0].Sigaltstack? && LeavesFirst(m, steps[0], |m.shadow|) &&
     (NextKeeps(m, steps[0]); LetsBe(Next(m, steps[0]).value, steps[1..])))
  }

  lemma {:induction false} RunChained(m: Machine, steps: seq<Step>, n: nat, base: AltStack)
    requires Inv(m) && IsRun(m, steps) && StaysAbove(m, steps, n) && LetsBe(m, steps) && Chained(m, n, base) && n > 0
    ensures Chained(After(m, steps), n, base)
    decreases |steps|
  {
    if steps != [] {
      NextKeeps(m, steps[0]);
      var t := Next(m, steps[0]).value;
      StepChained(m, steps[0], t, n, base);
      RunChained(t, steps[1..], n, base);
    }
  }

  /** When nobody sets it in between or writes over a frame, the alternate stack setting is back too, autodisarm
      included. */
  lemma AltComesBack(m: Machine, writable: bool, h: Machine, steps: seq<Step>, r: Machine)
    requires Inv(m) && Enabled(m, DeliverSignals(writable)) && Spares(m, DeliverSignals(writable))
    requires Settle(m.r.proc.(syscallNr := -1)).1.Some? && DeliverStep(m, writable) == Some(h)
    requires Inv(h) && IsRun(h, steps) && StaysAbove(h, steps, |m.shadow| + 1) && r == After(h, steps)
    requires Inv(r) && |r.shadow| == |m.shadow| + 1 && Enabled(r, Return) && LetsBe(h, steps)
    ensures r.shadow[|m.shadow|].addr in r.r.mem
    ensures ReturnStep(r).Some? ==> ReturnStep(r).value.r.proc.alt == m.r.proc.alt
  {
    HandlerStarts(m, writable);
    RunChained(h, steps, |m.shadow| + 1, h.r.proc.alt);
    RoundTripAtAnyDepth(m, writable, h, steps, r);
    assert FrameIntact(h.r.mem, h.shadow[|m.shadow|]);
  }

  // ---- a program that loses a frame ----

  const ALT := AltStack(0x5000_0000, 0x4000, 0)
  const STACK: Word := 0x7000_0000
  const FRAME: Word := 0x5000_3E38

  /** A handler on the alternate stack that does not block its own signal. */
  const HANDLER := Handler(0x4000_0000, SA_ONSTACK | SA_NODEFER, 0, {})

  ghost predicate Reaches(a: Machine, b: Machine) {
    Inv(a) && exists steps :: IsRun(a, steps) && After(a, steps) == b
  }

  lemma {:induction false} RunSnoc(m: Machine, steps: seq<Step>, s: Step, t: Machine)
    requires Inv(m) && IsRun(m, steps) && (RunKeeps(m, steps); Enabled(After(m, steps), s))
    requires (RunKeeps(m, steps); NextKeeps(After(m, steps), s); Next(After(m, steps), s) == Some(t))
    ensures IsRun(m, steps + [s]) && After(m, steps + [s]) == t
    decreases |steps|
  {
    RunKeeps(m, steps);
    NextKeeps(After(m, steps), s);
    if steps == [] {
      Seqs.Nil([s]);
      assert [s][1..] == [];
    } else {
      NextKeeps(m, steps[0]);
      Seqs.ConcatTail(steps, [s]);
      RunSnoc(Next(m, steps[0]).value, steps[1..], s, t);
    }
  }

  lemma ReachStep(a: Machine, m: Machine, s: Step, t: Machine)
    requires Reaches(a, m) && Inv(m) && Enabled(m, s) && (NextKeeps(m, s); Next(m, s) == Some(t))
    ensures Reaches(a, t) && Inv(t)
  {
    NextKeeps(m, s);
    var steps :| IsRun(a, steps) && After(a, steps) == m;
    RunSnoc(a, steps, s, t);
  }

  /** Reached, with these settings and nothing masked or pending. */
  ghost predicate Set(a: Machine, m: Machine, alt: AltStack, actions: map<nat, Handler>, user: bool) {
    && Reaches(a, m) && Inv(m) && m.user == user && m.polling.None? && m.r.ctx.rsp == STACK && m.r.ctx.vector == 0
    && m.r.proc.alt == alt && m.r.proc.actions == actions
    && m.r.proc.pending == {} && m.r.proc.blocked == {} && !m.r.proc.restoreMask
  }

  /** Back to user code when nothing is pending. */
  lemma GoOn(a: Machine, m: Machine, alt: AltStack, actions: map<nat, Handler>) returns (t: Machine)
    requires Set(a, m, alt, actions, false)
    ensures Set(a, t, alt, actions, true) && t.shadow == m.shadow
  {
    QuietDeliverKeeps(m, true);
    t := DeliverStep(m, true).value;
    ReachStep(a, m, DeliverSignals(true), t);
  }

  lemma SetStack(a: Machine) returns (m: Machine)
    requires Set(a, a, NO_ALT, map[], true) && a.shadow == []
    ensures Set(a, m, ALT, map[], true) && m.shadow == []
  {
    var b := Next(a, Sigaltstack(ALT)).value;
    ReachStep(a, a, Sigaltstack(ALT), b);
    assert (0 as bv32) & !SS_AUTODISARM == 0 && (0 as bv32) & SS_AUTODISARM == 0;
    m := GoOn(a, b, ALT, map[]);
  }

  lemma SetHandler(a: Machine, c: Machine) returns (m: Machine)
    requires Set(a, c, ALT, map[], true) && c.shadow == []
    ensures Set(a, m, ALT, map[10 := HANDLER], true) && m.shadow == []
  {
    var d := Next(c, Sigaction(10, HANDLER)).value;
    ReachStep(a, c, Sigaction(10, HANDLER), d);
    assert HANDLER.mask - UNBLOCKABLE == {};
    assert HANDLER.(mask := HANDLER.mask - UNBLOCKABLE) == HANDLER;
    m := GoOn(a, d, ALT, map[10 := HANDLER]);
  }

  /** In the kernel with signal 10 pending. */
  ghost predicate Ready(a: Machine, m: Machine) {
    && Reaches(a, m) && Inv(m) && !m.user && m.polling.None? && m.r.ctx.rsp == STACK && m.r.ctx.vector == 0
    && m.r.proc.alt == ALT && m.r.proc.actions == map[10 := HANDLER]
    && m.r.proc.pending == {10} && m.r.proc.blocked == {} && !m.r.proc.restoreMask
  }

  lemma Raise(a: Machine, m: Machine, info: Info) returns (t: Machine)
    requires Set(a, m, ALT, map[10 := HANDLER], true)
    ensures Ready(a, t) && t.shadow == m.shadow
  {
    var b := Next(m, Trap(-1, 0, 0)).value;
    ReachStep(a, m, Trap(-1, 0, 0), b);
    t := Next(b, Post(10, info)).value;
    ReachStep(a, b, Post(10, info), t);
  }

  lemma PicksTen(p: Proc)
    requires p.pending == {10} && p.blocked == {} && p.actions == map[10 := HANDLER]
    ensures InRange(p.pending) && Settle(p.(syscallNr := -1)) == (p.(syscallNr := -1, pending := {}), Some(10))
  {
    var q := p.(syscallNr := -1);
    assert LowestDeliverable(q) == 10;
    assert q.pending - {10} == {};
  }

  lemma HandlerBits()
    ensures Has(HANDLER.flags, SA_ONSTACK) && Has(HANDLER.flags, SA_NODEFER) && !Has(HANDLER.flags, SA_RESETHAND)
  {}

  lemma FrameThere(c: Context, p: Proc, mem: Memory)
    requires p.alt == ALT && p.actions == map[10 := HANDLER] && p.blocked == {} && !p.restoreMask && c.rsp == STACK
    ensures var r := SetupFrame(c, p, mem, 10, true);
      && r.Some? && r.value.ctx.rsp == FRAME && r.value.proc == p
  {
    HandlerBits();
    assert FrameAddr(Wrap(ALT.sp + ALT.size)) == FRAME;
    assert HandlerMask(p, HANDLER, 10) == {};
    assert ALT.flags & SS_AUTODISARM == 0;
  }

  /** The frame goes to the top of the alternate stack. */
  lemma Enter(a: Machine, m: Machine) returns (t: Machine)
    requires Ready(a, m)
    ensures DeliverStep(m, true) == Some(t) && Reaches(a, t) && Inv(t) && t.r.ctx.rsp == FRAME && t.user
    ensures t.polling.None?
    ensures t.r.proc.alt == ALT && t.r.proc.actions == map[10 := HANDLER] && t.r.proc.pending == {}
    ensures t.r.proc.blocked == {} && !t.r.proc.restoreMask && t.shadow != [] && t.shadow[|t.shadow| - 1].addr == FRAME
  {
    PicksTen(m.r.proc);
    FrameThere(m.r.ctx, m.r.proc.(syscallNr := -1, pending := {}), m.r.mem);
    t := DeliverStep(m, true).value;
    ReachStep(a, m, DeliverSignals(true), t);
  }

  /** The handler goes on with the stack pointer off the alternate stack, its frame left
      there. */
  lemma Leave(a: Machine, m: Machine) returns (t: Machine)
    requires Reaches(a, m) && Inv(m) && m.user && m.polling.None? && m.shadow != []
    requires m.r.proc.alt == ALT && m.r.proc.actions == map[10 := HANDLER] && m.r.proc.pending == {}
    requires m.r.proc.blocked == {} && !m.r.proc.restoreMask
    ensures Set(a, t, ALT, map[10 := HANDLER], true) && t.shadow == m.shadow
  {
    var c := m.r.ctx.(rsp := STACK, vector := 0, cs := USER_CS);
    var kept := set i | 0 <= i < |m.shadow| :: m.shadow[i].addr;
    UntouchedAll(m.shadow, kept);
    t := Next(m, UserCode(c, kept)).value;
    ReachStep(a, m, UserCode(c, kept), t);
  }

  /** From a fresh process: a handler that leaves the alternate stack without returning has
      its frame overwritten by the next one. */
  lemma LeavingLosesFrame(c: Context, mem: Memory, info: Info) returns (a: Machine, m: Machine, t: Machine)
    requires c.cs == USER_CS && c.rsp == STACK && c.vector == 0
    ensures a == Machine(Running(c, Proc({}, {}, {}, false, map[], map[], -1, NO_ALT), mem), true, None, {}, [])
    ensures Reaches(a, m) && Inv(m) && DeliverStep(m, true) == Some(t)
    ensures m.shadow != [] && m.shadow[|m.shadow| - 1].addr == t.r.ctx.rsp == FRAME
    ensures !Clear(m.shadow, t.r.ctx.rsp) && |t.shadow| == 1
  {
    a := Machine(Running(c, Proc({}, {}, {}, false, map[], map[], -1, NO_ALT), mem), true, None, {}, []);
    FreshProcess(c, mem);
    assert IsRun(a, []) && After(a, []) == a;
    var b := SetStack(a);
    var d := SetHandler(a, b);
    var e := Raise(a, d, info);
    var f := Enter(a, e);
    var g := Leave(a, f);
    m := Raise(a, g, info);
    t := Enter(a, m);
    assert Overlaps(m.shadow[|m.shadow| - 1].addr, FRAME);
    PicksTen(m.r.proc);
    HandlerStarts(m, true);
  }
}
