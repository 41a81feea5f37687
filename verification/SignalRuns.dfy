/** Whole runs of a process under signals: handlers nested to any depth, mask
    calls, temporary masks and hostile returns, in any order. */
module SignalRuns {
  import opened Basics
  import opened Signals
  import Seqs

  const ERESTARTSYS := 512
  const EINTR := 4

  // ---- signal_deliver ----

  ghost predicate InRange(s: SigSet) {
    forall n :: n in s ==> 1 <= n <= SIGNAL_MAX
  }

  /** The lowest signal of a set, as counting trailing zeroes finds it. */
  function Lowest(s: SigSet, i: nat): (r: nat)
    requires exists n :: n in s && i <= n <= SIGNAL_MAX
    ensures r in s && i <= r <= SIGNAL_MAX
    ensures forall n :: n in s && i <= n ==> r <= n
    decreases SIGNAL_MAX - i
  {
    if i in s then i else Lowest(s, i + 1)
  }

  /** The loop of `signal_deliver`: ignored signals are dropped until one is found that
      is not. */
  function Settle(p: Proc): (r: (Proc, Option<nat>))
    requires InRange(p.pending)
    ensures r.0 == p.(pending := r.0.pending) && r.0.pending <= p.pending
    ensures r.1.Some? ==> 1 <= r.1.value <= SIGNAL_MAX && r.1.value in p.pending && r.1.value !in p.blocked
    decreases |p.pending|
  {
    if p.pending <= p.blocked then (p, None)
    else
      var sig := LowestDeliverable(p);
      var p' := p.(pending := p.pending - {sig});
      if Ignored(p, sig) then Settle(p') else (p', Some(sig))
  }

  function LowestDeliverable(p: Proc): (sig: nat)
    requires InRange(p.pending) && !(p.pending <= p.blocked)
    ensures 1 <= sig <= SIGNAL_MAX && sig in p.pending && sig !in p.blocked
    ensures forall n :: n in p.pending && n !in p.blocked ==> sig <= n
  {
    assert exists n :: n in p.pending - p.blocked && 1 <= n <= SIGNAL_MAX by {
      var n :| n in p.pending && n !in p.blocked;
      assert n in p.pending - p.blocked;
    }
    assert forall n :: n in p.pending && n !in p.blocked ==> n in p.pending - p.blocked;
    Lowest(p.pending - p.blocked, 1)
  }

  /** What the loop picks: the lowest deliverable signal that is not ignored, and all
      it discards on the way is ignored. */
  lemma {:induction false} SettlePicks(p: Proc)
    requires InRange(p.pending)
    ensures var (q, sig) := Settle(p);
      && (sig.None? ==> q.pending <= p.blocked)
      && (sig.Some? ==>
            && !Ignored(p, sig.value) && sig.value !in q.pending
            && forall n :: n in p.pending && n !in p.blocked && n < sig.value ==> Ignored(p, n))
      && (forall n :: n in p.pending && !Ignored(p, n) && sig != Some(n) ==> n in q.pending)
    decreases |p.pending|
  {
    if !(p.pending <= p.blocked) {
      var sig := LowestDeliverable(p);
      if Ignored(p, sig) {
        var p' := p.(pending := p.pending - {sig});
        SettlePicks(p');
        assert forall n :: Ignored(p', n) == Ignored(p, n);
      }
    }
  }

  datatype Fate = Dead | Alive(r: Running)

  function Restart(c: Context, nr: int): Context {
    c.(rax := Wrap(nr), rip := Wrap(c.rip - 2))
  }

  predicate Restartable(c: Context, p: Proc) {
    c.vector == SYSCALL_VECTOR && p.syscallNr >= 0 && c.rax == WORD - ERESTARTSYS
  }

  /** What a handler's frame will bring back: the context after the decision to
      restart the interrupted call or to report the interruption. */
  function Interrupted(c: Context, p: Proc, sig: nat): Context {
    if !Restartable(c, p) then c
    else if Has(ActionOf(p, sig).flags, SA_RESTART) then Restart(c, p.syscallNr)
    else c.(rax := WORD - EINTR)
  }

  function Unmask(p: Proc): Proc {
    if p.restoreMask then p.(blocked := p.savedBlocked, restoreMask := false) else p
  }

  function Deliver(r: Running, writable: bool): Fate
    requires InRange(r.proc.pending)
  {
    var (p, sig) := Settle(r.proc.(syscallNr := -1));
    if r.ctx.cs % 4 != 3 then Alive(r)
    else if sig.None? then
      Alive(Running(if Restartable(r.ctx, r.proc) then Restart(r.ctx, r.proc.syscallNr) else r.ctx, Unmask(p), r.mem))
    else if ActionOf(p, sig.value).handler == SIG_DFL then Dead
    else
      (match SetupFrame(Interrupted(r.ctx, r.proc, sig.value), p, r.mem, sig.value, writable)
       case None => Dead
       case Some(r') => Alive(r'))
  }

  // ---- the machine ----

  /** An active handler: where its frame lies, what it interrupted, the mask and the
      alternate stack to come back to, and the alternate stack it started with. */
  datatype Entry = Entry(addr: int, ctx: Context, mask: SigSet, alt: AltStack, after: AltStack)

  /** `want` is the mask the user code at this level has asked for. */
  datatype Machine = Machine(
    r: Running,
    user: bool,
    polling: Option<SigSet>,
    want: SigSet,
    shadow: seq<Entry>)

  datatype How = Block | Unblock | SetMask

  datatype Step =
    | UserCode(ctx: Context, kept: set<int>)
    | Trap(nr: int, rax: Word, vector: Word)
    | Procmask(how: How, set_: SigSet)
    | Suspend(mask: SigSet)
    | PollBegin(mask: SigSet)
    | PollEnd(interrupted: bool)
    | Sigaction(sig: nat, act: Handler)
    | Sigaltstack(ss: AltStack)
    | Post(sig: nat, info: Info)
    | DeliverSignals(writable: bool)
    | Return
    | ForgedReturn(uc: UContext)

  function UserMask(m: Machine): SigSet {
    if m.polling.Some? then m.polling.value else ReturnMask(m.r.proc)
  }

  function ApplyMask(how: How, old_: SigSet, s: SigSet): SigSet {
    (match how
     case Block => old_ + s
     case Unblock => old_ - s
     case SetMask => s) - UNBLOCKABLE
  }

  /** A frame at `addr` is clear of every active handler's frame. */
  predicate Clear(shadow: seq<Entry>, addr: int) {
    forall i :: 0 <= i < |shadow| ==> !Overlaps(shadow[i].addr, addr)
  }

  ghost predicate Enabled(m: Machine, s: Step)
    requires InRange(m.r.proc.pending)
  {
    match s
    case UserCode(c, _) => m.user && c.cs == USER_CS
    case Trap(_, _, _) => m.user
    case Procmask(_, s) => m.user && InRange(s)
    case Suspend(mask) => m.user && InRange(mask)
    case PollBegin(mask) => m.user && InRange(mask)
    case PollEnd(_) => m.polling.Some?
    case Sigaction(sig, act) => m.user && 1 <= sig <= SIGNAL_MAX && InRange(act.mask)
    case Post(sig, _) => 1 <= sig <= SIGNAL_MAX
    case Sigaltstack(_) => m.user
    case DeliverSignals(_) => !m.user && m.polling.None?
    case Return => m.user && m.shadow != [] && m.r.ctx.rsp == m.shadow[|m.shadow| - 1].addr + 8
    case ForgedReturn(uc) => m.user && InRange(uc.sigmask)
  }

  /** The handlers whose frames user code has not written over. */
  function Untouched(shadow: seq<Entry>, kept: set<int>): seq<Entry> {
    if shadow == [] then []
    else
      var n := |shadow| - 1;
      Untouched(shadow[..n], kept) + if shadow[n].addr in kept then [shadow[n]] else []
  }

  /** A handler's frame written over an active one leaves none of the older handlers to count
      on. */
  function Push(m: Machine, r: Running, sig: nat): Machine
    requires InRange(m.r.proc.pending)
  {
    var e := Entry(r.ctx.rsp, Interrupted(m.r.ctx, m.r.proc, sig), UserMask(m), m.r.proc.alt, r.proc.alt);
    Machine(r, true, None, r.proc.blocked, (if Clear(m.shadow, e.addr) then m.shadow else []) + [e])
  }

  /** `None` when the process is killed. */
  function Next(m: Machine, s: Step): Option<Machine>
    requires InRange(m.r.proc.pending)
    requires s.Return? ==> m.shadow != [] && m.shadow[|m.shadow| - 1].addr in m.r.mem
  {
    var r := m.r;
    var p := r.proc;
    match s
    case UserCode(c, kept) =>
      Some(m.(r := r.(ctx := c, mem := map a | a in r.mem && a in kept :: r.mem[a]),
              shadow := Untouched(m.shadow, kept)))
    case Trap(nr, rax, vector) =>
      Some(m.(user := false, r := r.(ctx := r.ctx.(rax := rax, vector := vector), proc := p.(syscallNr := nr))))
    case Procmask(how, s) =>
      var b := ApplyMask(how, p.blocked, s);
      Some(m.(user := false, want := b, r := r.(proc := p.(blocked := b))))
    case Suspend(mask) =>
      Some(m.(user := false,
              r := r.(proc := p.(savedBlocked := p.blocked, restoreMask := true, blocked := mask - UNBLOCKABLE))))
    case PollBegin(mask) =>
      Some(m.(user := false, polling := Some(p.blocked), r := r.(proc := p.(blocked := mask - UNBLOCKABLE))))
    case PollEnd(interrupted) =>
      if m.polling.None? then Some(m)
      else if interrupted then
        Some(m.(polling := None, r := r.(proc := p.(savedBlocked := m.polling.value, restoreMask := true))))
      else Some(m.(polling := None, r := r.(proc := p.(blocked := m.polling.value))))
    case Sigaction(sig, act) =>
      if sig in UNBLOCKABLE || (act.handler != SIG_DFL && act.handler != SIG_IGN && act.handler >= LIMIT) then
        Some(m.(user := false))
      else
        var q := p.(actions := p.actions[sig := act.(mask := act.mask - UNBLOCKABLE)]);
        Some(m.(user := false, r := r.(proc := if Ignored(q, sig) then q.(pending := q.pending - {sig}) else q)))
    case Sigaltstack(ss) =>
      Some(m.(user := false, r := r.(proc := p.(alt := SetAlt(p.alt, ss, r.ctx.rsp).0))))
    case Post(sig, info) =>
      if Ignored(p, sig) then Some(m)
      else Some(m.(r := r.(proc := p.(pending := p.pending + {sig}, info := p.info[sig := info]))))
    case DeliverSignals(writable) => DeliverStep(m, writable)
    case Return => ReturnStep(m)
    case ForgedReturn(uc) => ForgedStep(m, uc)
  }

  function DeliverStep(m: Machine, writable: bool): Option<Machine>
    requires InRange(m.r.proc.pending)
  {
    var fate := Deliver(m.r, writable);
    var sig := Settle(m.r.proc.(syscallNr := -1)).1;
    if fate.Dead? then None
    else if sig.None? || m.r.ctx.cs % 4 != 3 then Some(m.(r := fate.r, user := true))
    else Some(Push(m, fate.r, sig.value))
  }

  function ReturnStep(m: Machine): Option<Machine>
    requires m.shadow != [] && m.shadow[|m.shadow| - 1].addr in m.r.mem
  {
    var n := |m.shadow| - 1;
    match Sigreturn(m.r.ctx, m.r.proc, m.r.mem[m.shadow[n].addr].uc)
    case None => None
    case Some((c, q)) =>
      Some(m.(r := Running(c, q, m.r.mem), user := false, want := q.blocked, shadow := m.shadow[..n]))
  }

  function ForgedStep(m: Machine, uc: UContext): Option<Machine> {
    match Sigreturn(m.r.ctx, m.r.proc, uc)
    case None => None
    case Some((c, q)) => Some(Machine(Running(c, q, m.r.mem), false, None, q.blocked, []))
  }

  // ---- invariant ----

  ghost predicate MasksValid(p: Proc) {
    && InRange(p.pending) && InRange(p.blocked) && InRange(p.savedBlocked)
    && p.blocked !! UNBLOCKABLE && p.savedBlocked !! UNBLOCKABLE
    && (forall n :: n in p.actions ==> InRange(p.actions[n].mask))
    && (forall n :: n in p.actions && n in UNBLOCKABLE ==> p.actions[n].handler == SIG_DFL)
  }

  /** The frame in user memory still says what was interrupted. */
  ghost predicate FrameIntact(mem: Memory, e: Entry) {
    && e.addr in mem
    && mem[e.addr].uc == UContext(GetAlt(e.alt, e.ctx.rsp), Save(e.ctx, e.mask), e.mask)
    && AltValid(e.alt) && e.mask !! UNBLOCKABLE && InRange(e.mask)
    && (e.after == e.alt || e.after == NO_ALT)
  }

  ghost predicate AllIntact(mem: Memory, shadow: seq<Entry>) {
    forall i :: 0 <= i < |shadow| ==> FrameIntact(mem, shadow[i])
  }

  /** The active handlers: frames intact and apart. */
  ghost predicate Nested(mem: Memory, shadow: seq<Entry>) {
    && AllIntact(mem, shadow)
    && forall i, j :: 0 <= i < j < |shadow| ==> !Overlaps(shadow[i].addr, shadow[j].addr)
  }

  ghost predicate Masks(m: Machine) {
    && MasksValid(m.r.proc) && AltValid(m.r.proc.alt)
    && (m.user ==> m.polling.None? && !m.r.proc.restoreMask)
    && (m.polling.Some? ==>
          !m.r.proc.restoreMask && m.polling.value !! UNBLOCKABLE && InRange(m.polling.value))
    && m.r.ctx.cs % 4 == 3
    && UserMask(m) == m.want
  }

  ghost predicate Inv(m: Machine) {
    Masks(m) && Nested(m.r.mem, m.shadow)
  }

  lemma NestedPush(mem: Memory, shadow: seq<Entry>, e: Entry, mem': Memory)
    requires Nested(mem, shadow) && FrameIntact(mem', e) && AllIntact(mem', shadow) && Clear(shadow, e.addr)
    ensures Nested(mem', shadow + [e])
  {
    forall i | 0 <= i < |shadow + [e]| ensures FrameIntact(mem', (shadow + [e])[i]) {
      assert (shadow + [e])[i] == if i < |shadow| then shadow[i] else e;
    }
  }

  // ---- every step keeps it ----

  /** Steps that leave memory, active handlers and the alternate stack alone. */
  predicate IsMaskStep(s: Step) {
    s.Trap? || s.Procmask? || s.Suspend? || s.PollBegin? || s.PollEnd? || s.Sigaction? || s.Post?
  }

  lemma MaskStepMasks(m: Machine, s: Step)
    requires Masks(m) && Enabled(m, s) && IsMaskStep(s)
    ensures Next(m, s).Some? && Masks(Next(m, s).value)
  {}

  lemma MaskStepFrame(m: Machine, s: Step)
    requires Masks(m) && Enabled(m, s) && IsMaskStep(s)
    ensures Next(m, s).Some?
    ensures var t := Next(m, s).value;
      t.shadow == m.shadow && t.r.mem == m.r.mem && t.r.proc.alt == m.r.proc.alt
  {}

  lemma UserCodeKeeps(m: Machine, c: Context, kept: set<int>)
    requires Inv(m) && Enabled(m, UserCode(c, kept))
    ensures Next(m, UserCode(c, kept)).Some? && Inv(Next(m, UserCode(c, kept)).value)
  {
    UntouchedNested(m.r.mem, m.shadow, kept, Next(m, UserCode(c, kept)).value.r.mem);
  }

  lemma {:induction false} UntouchedIn(shadow: seq<Entry>, kept: set<int>)
    ensures forall i :: 0 <= i < |Untouched(shadow, kept)| ==> Untouched(shadow, kept)[i] in shadow
    decreases |shadow|
  {
    if shadow != [] {
      var n := |shadow| - 1;
      UntouchedIn(shadow[..n], kept);
      assert forall e :: e in shadow[..n] ==> e in shadow;
    }
  }

  lemma {:induction false} UntouchedNested(mem: Memory, shadow: seq<Entry>, kept: set<int>, now: Memory)
    requires Nested(mem, shadow) && now == map a | a in mem && a in kept :: mem[a]
    ensures Nested(now, Untouched(shadow, kept))
    decreases |shadow|
  {
    if shadow != [] {
      var n := |shadow| - 1;
      var rest, e := shadow[..n], shadow[n];
      assert Nested(mem, rest);
      UntouchedNested(mem, rest, kept, now);
      if e.addr in kept {
        assert FrameIntact(mem, e);
        UntouchedClear(mem, shadow, kept);
        NestedPush(now, Untouched(rest, kept), e, now);
      }
    }
  }

  lemma UntouchedClear(mem: Memory, shadow: seq<Entry>, kept: set<int>)
    requires Nested(mem, shadow) && shadow != []
    ensures Clear(Untouched(shadow[..|shadow| - 1], kept), shadow[|shadow| - 1].addr)
  {
    var n := |shadow| - 1;
    var left := Untouched(shadow[..n], kept);
    UntouchedIn(shadow[..n], kept);
    forall i | 0 <= i < |left| ensures !Overlaps(left[i].addr, shadow[n].addr) {
      var j :| 0 <= j < n && shadow[..n][j] == left[i];
    }
  }

  /** As long as the first `k` frames are not written over, those handlers stay first. */
  lemma {:induction false} UntouchedFirst(shadow: seq<Entry>, kept: set<int>, k: nat)
    requires k <= |shadow| && forall i :: 0 <= i < k ==> shadow[i].addr in kept
    ensures k <= |Untouched(shadow, kept)| && Untouched(shadow, kept)[..k] == shadow[..k]
    decreases |shadow|
  {
    if shadow != [] {
      var n := |shadow| - 1;
      if k <= n {
        UntouchedFirst(shadow[..n], kept, k);
        assert shadow[..n][..k] == shadow[..k];
      } else {
        UntouchedFirst(shadow[..n], kept, n);
        assert shadow[..n][..n] == shadow[..n] && shadow == shadow[..n] + [shadow[n]];
        UntouchedMost(shadow[..n], kept);
        assert Untouched(shadow[..n], kept) == shadow[..n];
      }
    }
  }

  lemma {:induction false} UntouchedMost(shadow: seq<Entry>, kept: set<int>)
    ensures |Untouched(shadow, kept)| <= |shadow|
    decreases |shadow|
  {
    if shadow != [] {
      UntouchedMost(shadow[..|shadow| - 1], kept);
    }
  }

  /** With nothing deliverable a temporary mask is undone at once. */
  lemma QuietDeliverKeeps(m: Machine, writable: bool)
    requires Inv(m) && Enabled(m, DeliverSignals(writable))
    requires Settle(m.r.proc.(syscallNr := -1)).1.None?
    ensures DeliverStep(m, writable).Some? && Inv(DeliverStep(m, writable).value)
    ensures var t := DeliverStep(m, writable).value;
      t.shadow == m.shadow && t.r.proc.blocked == m.want && !t.r.proc.restoreMask
  {}

  lemma SettledProc(p: Proc)
    requires MasksValid(p) && AltValid(p.alt)
    ensures var q := Settle(p.(syscallNr := -1)).0;
      MasksValid(q) && q.alt == p.alt && ReturnMask(q) == ReturnMask(p) && q.restoreMask == p.restoreMask
  {}

  lemma HandlerMaskValid(p: Proc, sig: nat)
    requires MasksValid(p) && 1 <= sig <= SIGNAL_MAX
    ensures InRange(HandlerMask(p, ActionOf(p, sig), sig)) && HandlerMask(p, ActionOf(p, sig), sig) !! UNBLOCKABLE
  {}

  /** The new frame, and the old ones that are clear of it. */
  lemma WriteKeepsFrames(mem: Memory, shadow: seq<Entry>, e: Entry, f: Frame)
    requires AllIntact(mem, shadow)
    requires f.uc == UContext(GetAlt(e.alt, e.ctx.rsp), Save(e.ctx, e.mask), e.mask)
    requires AltValid(e.alt) && e.mask !! UNBLOCKABLE && InRange(e.mask) && (e.after == e.alt || e.after == NO_ALT)
    ensures var now := Write(mem, e.addr, f);
      && FrameIntact(now, e)
      && forall i :: 0 <= i < |shadow| ==> OldFrame(mem, now, shadow[i], e.addr)
  {
    forall i | 0 <= i < |shadow| ensures OldFrame(mem, Write(mem, e.addr, f), shadow[i], e.addr) {
      assert FrameIntact(mem, shadow[i]);
    }
  }

  /** What becomes of an older frame when one is written at `addr`: it stands if it is clear
      of it, and is gone if not, unless the new one is in the very same place. */
  ghost predicate OldFrame(mem: Memory, now: Memory, e: Entry, addr: int) {
    && (!Overlaps(e.addr, addr) ==> FrameIntact(now, e))
    && (Overlaps(e.addr, addr) && e.addr != addr ==> e.addr !in now)
  }

  /** A handler starts: the frame keeps the interrupted context, the mask the user
      code asked for (not a temporary one standing in for it) and the alternate
      stack; each older frame stands exactly as far as the new one is clear of it. */
  lemma HandlerStarts(m: Machine, writable: bool)
    requires Inv(m) && Enabled(m, DeliverSignals(writable))
    requires Settle(m.r.proc.(syscallNr := -1)).1.Some? && DeliverStep(m, writable).Some?
    ensures var t := DeliverStep(m, writable).value;
      var sig := Settle(m.r.proc.(syscallNr := -1)).1.value;
      var e := Entry(t.r.ctx.rsp, Interrupted(m.r.ctx, m.r.proc, sig), m.want, m.r.proc.alt, t.r.proc.alt);
      && t.shadow == (if Clear(m.shadow, e.addr) then m.shadow else []) + [e] && FrameIntact(t.r.mem, e)
      && (forall i :: 0 <= i < |m.shadow| ==> OldFrame(m.r.mem, t.r.mem, m.shadow[i], e.addr))
  {
    var (p, sig) := Settle(m.r.proc.(syscallNr := -1));
    SettledProc(m.r.proc);
    var c := Interrupted(m.r.ctx, m.r.proc, sig.value);
    FramePlacement(c, p, m.r.mem, sig.value, writable);
    var t := DeliverStep(m, writable).value;
    var e := Entry(t.r.ctx.rsp, c, m.want, m.r.proc.alt, t.r.proc.alt);
    WriteKeepsFrames(m.r.mem, m.shadow, e, BuildFrame(c, p, sig.value, e.addr));
  }

  lemma HandlerStartMasks(m: Machine, writable: bool)
    requires Masks(m) && Enabled(m, DeliverSignals(writable))
    requires Settle(m.r.proc.(syscallNr := -1)).1.Some? && DeliverStep(m, writable).Some?
    ensures Masks(DeliverStep(m, writable).value)
  {
    var (p, sig) := Settle(m.r.proc.(syscallNr := -1));
    SettledProc(m.r.proc);
    HandlerMaskValid(p, sig.value);
  }

  lemma HandlerStartKeeps(m: Machine, writable: bool)
    requires Inv(m) && Enabled(m, DeliverSignals(writable))
    requires Settle(m.r.proc.(syscallNr := -1)).1.Some? && DeliverStep(m, writable).Some?
    ensures Inv(DeliverStep(m, writable).value)
  {
    HandlerStarts(m, writable);
    HandlerStartMasks(m, writable);
    var t := DeliverStep(m, writable).value;
    var e := t.shadow[|t.shadow| - 1];
    if Clear(m.shadow, e.addr) {
      NestedPush(m.r.mem, m.shadow, e, t.r.mem);
    } else {
      NestedPush(m.r.mem, [], e, t.r.mem);
    }
  }

  /** The setting a return leaves: the frame's, unless the return lands on the stack that is
      set now. */
  function AltAfter(now: AltStack, e: Entry): AltStack {
    if OnAlt(now, e.ctx.rsp) then now else e.alt
  }

  /** A return through an intact frame. */
  lemma SigreturnOf(c: Context, p: Proc, mem: Memory, e: Entry)
    requires FrameIntact(mem, e)
    ensures var back := Sigreturn(c, p, mem[e.addr].uc);
      && (back.Some? <==> e.ctx.rip < LIMIT && e.ctx.rsp < LIMIT)
      && (back.Some? ==>
            && SameUserState(back.value.0, e.ctx) && back.value.0.cs == USER_CS
            && back.value.1 == p.(blocked := e.mask, syscallNr := -1, alt := AltAfter(p.alt, e)))
  {
    AltRoundTrip(e.alt, p.alt, e.ctx.rsp);
    RestoredFlags(c.rflags, e.ctx.rflags);
    assert e.mask - UNBLOCKABLE == e.mask;
  }

  /** The return of the innermost handler whose frame is intact.  The alternate stack is the
      frame's again if and only if the return does not land on the stack set now, or the two
      are the same. */
  lemma ReturnRestores(m: Machine)
    requires Inv(m) && Enabled(m, Return)
    ensures m.shadow[|m.shadow| - 1].addr in m.r.mem
    ensures var e := m.shadow[|m.shadow| - 1];
      && (ReturnStep(m).Some? <==> e.ctx.rip < LIMIT && e.ctx.rsp < LIMIT)
      && (ReturnStep(m).Some? ==>
            var t := ReturnStep(m).value;
            && SameUserState(t.r.ctx, e.ctx) && t.r.ctx.cs == USER_CS
            && t.r.proc == m.r.proc.(blocked := e.mask, syscallNr := -1, alt := t.r.proc.alt)
            && (t.r.proc.alt == e.alt <==> !OnAlt(m.r.proc.alt, e.ctx.rsp) || m.r.proc.alt == e.alt)
            && (t.r.proc.alt == e.alt || t.r.proc.alt == m.r.proc.alt)
            && t.want == e.mask && !t.user && t.polling.None?
            && t.shadow == m.shadow[..|m.shadow| - 1] && t.r.mem == m.r.mem)
  {
    assert FrameIntact(m.r.mem, m.shadow[|m.shadow| - 1]);
    SigreturnOf(m.r.ctx, m.r.proc, m.r.mem, m.shadow[|m.shadow| - 1]);
  }

  lemma RestoredMasks(m: Machine, e: Entry, t: Machine)
    requires Masks(m) && m.user && AltValid(e.alt) && e.mask !! UNBLOCKABLE && InRange(e.mask)
    requires t.r.proc == m.r.proc.(blocked := e.mask, syscallNr := -1, alt := t.r.proc.alt)
    requires t.r.proc.alt == e.alt || t.r.proc.alt == m.r.proc.alt
    requires t.want == e.mask && !t.user && t.polling.None? && t.r.ctx.cs == USER_CS
    ensures Masks(t)
  {}

  lemma ReturnKeeps(m: Machine)
    requires Inv(m) && Enabled(m, Return)
    ensures m.shadow[|m.shadow| - 1].addr in m.r.mem
    ensures ReturnStep(m).Some? ==> Inv(ReturnStep(m).value)
  {
    ReturnRestores(m);
    if ReturnStep(m).Some? {
      assert FrameIntact(m.r.mem, m.shadow[|m.shadow| - 1]);
      RestoredMasks(m, m.shadow[|m.shadow| - 1], ReturnStep(m).value);
    }
  }

  lemma ForgedReturnKeeps(m: Machine, uc: UContext)
    requires Inv(m) && Enabled(m, ForgedReturn(uc))
    ensures ForgedStep(m, uc).Some? ==> Inv(ForgedStep(m, uc).value)
  {
    SetAltValid(m.r.proc.alt, uc.stack, uc.mcontext.rsp);
  }

  lemma NextKeeps(m: Machine, s: Step)
    requires Inv(m) && Enabled(m, s)
    ensures s.Return? ==> m.shadow[|m.shadow| - 1].addr in m.r.mem
    ensures Next(m, s).Some? ==> Inv(Next(m, s).value)
  {
    match s
    case UserCode(c, kept) => UserCodeKeeps(m, c, kept);
    case Return => ReturnKeeps(m);
    case ForgedReturn(uc) => ForgedReturnKeeps(m, uc);
    case Sigaltstack(ss) => SetAltValid(m.r.proc.alt, ss, m.r.ctx.rsp);
    case DeliverSignals(w) =>
      if Settle(m.r.proc.(syscallNr := -1)).1.None? {
        QuietDeliverKeeps(m, w);
      } else if Next(m, s).Some? {
        HandlerStartKeeps(m, w);
      }
    case _ => MaskStepMasks(m, s); MaskStepFrame(m, s);
  }

  // ---- whole runs ----

  ghost predicate IsRun(m: Machine, steps: seq<Step>)
    requires Inv(m)
    decreases |steps|
  {
    steps == [] ||
    (Enabled(m, steps[0]) && (NextKeeps(m, steps[0]);
      Next(m, steps[0]).Some? && IsRun(Next(m, steps[0]).value, steps[1..])))
  }

  ghost function After(m: Machine, steps: seq<Step>): Machine
    requires Inv(m) && IsRun(m, steps)
    decreases |steps|
  {
    if steps == [] then m else NextKeeps(m, steps[0]); After(Next(m, steps[0]).value, steps[1..])
  }

  lemma {:induction false} RunKeeps(m: Machine, steps: seq<Step>)
    requires Inv(m) && IsRun(m, steps)
    ensures Inv(After(m, steps))
    decreases |steps|
  {
    if steps != [] {
      NextKeeps(m, steps[0]);
      RunKeeps(Next(m, steps[0]).value, steps[1..]);
    }
  }

  /** Over every run, whatever handlers, mask calls and forged frames do: SIGKILL and
      SIGSTOP are in no mask, a pending SIGKILL is deliverable, and the mask that
      user code asked for is in force or stands behind a temporary one.  In user
      mode there is no temporary mask left, so each has been undone exactly once. */
  lemma MasksOverEveryRun(m: Machine, steps: seq<Step>)
    requires Inv(m) && IsRun(m, steps)
    ensures var t := After(m, steps);
      && t.r.proc.blocked !! UNBLOCKABLE && t.r.proc.savedBlocked !! UNBLOCKABLE && t.want !! UNBLOCKABLE
      && (SIGKILL in t.r.proc.pending ==> SIGKILL in t.r.proc.pending - t.r.proc.blocked)
      && UserMask(t) == t.want
      && (t.user ==> t.r.proc.blocked == t.want && !t.r.proc.restoreMask)
  {
    RunKeeps(m, steps);
  }

  /** The step writes no frame over an active handler's. */
  ghost predicate Spares(m: Machine, s: Step)
    requires Inv(m)
  {
    s.DeliverSignals? && DeliverStep(m, s.writable).Some? && Settle(m.r.proc.(syscallNr := -1)).1.Some? ==>
      Clear(m.shadow, DeliverStep(m, s.writable).value.r.ctx.rsp)
  }

  /** User code writes over none of the first `n` frames. */
  predicate LeavesFirst(m: Machine, s: Step, n: nat) {
    s.UserCode? ==> forall i :: 0 <= i < n && i < |m.shadow| ==> m.shadow[i].addr in s.kept
  }

  /** The run never leaves the handlers below depth `n`, and neither a new frame nor user code
      is written over theirs. */
  ghost predicate StaysAbove(m: Machine, steps: seq<Step>, n: nat)
    requires Inv(m) && IsRun(m, steps)
    decreases |steps|
  {
    |m.shadow| >= n &&
    (steps == [] ||
     (Spares(m, steps[0]) && LeavesFirst(m, steps[0], n) &&
      (NextKeeps(m, steps[0]); StaysAbove(Next(m, steps[0]).value, steps[1..], n))))
  }

  lemma DeliverShadow(m: Machine, writable: bool, n: nat)
    requires Inv(m) && Enabled(m, DeliverSignals(writable)) && DeliverStep(m, writable).Some? && n <= |m.shadow|
    requires Spares(m, DeliverSignals(writable))
    ensures n <= |DeliverStep(m, writable).value.shadow| && DeliverStep(m, writable).value.shadow[..n] == m.shadow[..n]
  {
    if Settle(m.r.proc.(syscallNr := -1)).1.None? {
      QuietDeliverKeeps(m, writable);
    } else {
      HandlerStarts(m, writable);
      Seqs.TakeConcat(m.shadow, [DeliverStep(m, writable).value.shadow[|m.shadow|]], n);
    }
  }

  lemma StepShadow(m: Machine, s: Step, t: Machine, n: nat)
    requires Inv(m) && Enabled(m, s) && (NextKeeps(m, s); Next(m, s) == Some(t)) && Spares(m, s)
    requires 0 < n <= |m.shadow| && n <= |t.shadow| && LeavesFirst(m, s, n)
    ensures t.shadow[..n] == m.shadow[..n]
  {
    NextKeeps(m, s);
    match s
    case UserCode(c, kept) => UntouchedFirst(m.shadow, kept, n);
    case Return => ReturnRestores(m); Seqs.TakeTake(m.shadow, |m.shadow| - 1, n);
    case ForgedReturn(uc) =>
    case Sigaltstack(ss) =>
    case DeliverSignals(w) => DeliverShadow(m, w, n);
    case _ => MaskStepFrame(m, s);
  }

  lemma {:induction false} ShadowStands(m: Machine, steps: seq<Step>, n: nat)
    requires Inv(m) && IsRun(m, steps) && StaysAbove(m, steps, n) && n > 0
    ensures |After(m, steps).shadow| >= n && After(m, steps).shadow[..n] == m.shadow[..n]
    decreases |steps|
  {
    if steps != [] {
      NextKeeps(m, steps[0]);
      StepShadow(m, steps[0], Next(m, steps[0]).value, n);
      ShadowStands(Next(m, steps[0]).value, steps[1..], n);
    }
  }

  lemma ReturnTo(r: Machine, below: seq<Entry>, e: Entry)
    requires Inv(r) && Enabled(r, Return) && r.shadow == below + [e]
    ensures r.shadow[|r.shadow| - 1].addr in r.r.mem
    ensures ReturnStep(r).Some? <==> e.ctx.rip < LIMIT && e.ctx.rsp < LIMIT
    ensures ReturnStep(r).Some? ==>
      var t := ReturnStep(r).value;
      && SameUserState(t.r.ctx, e.ctx) && t.r.proc.blocked == e.mask
      && (t.r.proc.alt == e.alt <==> !OnAlt(r.r.proc.alt, e.ctx.rsp) || r.r.proc.alt == e.alt)
      && t.shadow == below && t.want == e.mask
  {
    ReturnRestores(r);
    assert r.shadow[|r.shadow| - 1] == e && r.shadow[..|r.shadow| - 1] == below;
  }

  lemma HandlerStands(m: Machine, writable: bool, h: Machine, steps: seq<Step>, r: Machine) returns (e: Entry)
    requires Inv(m) && Enabled(m, DeliverSignals(writable)) && Spares(m, DeliverSignals(writable))
    requires Settle(m.r.proc.(syscallNr := -1)).1.Some? && DeliverStep(m, writable) == Some(h)
    requires Inv(h) && IsRun(h, steps) && StaysAbove(h, steps, |m.shadow| + 1) && r == After(h, steps)
    requires |r.shadow| == |m.shadow| + 1
    ensures r.shadow == m.shadow + [e]
    ensures e.ctx == Interrupted(m.r.ctx, m.r.proc, Settle(m.r.proc.(syscallNr := -1)).1.value)
    ensures e.mask == m.want && e.alt == m.r.proc.alt
  {
    HandlerStarts(m, writable);
    e := h.shadow[|m.shadow|];
    ShadowStands(h, steps, |m.shadow| + 1);
    SameEntries(h.shadow, r.shadow, m.shadow, e);
  }

  /** The round trip at any depth.  A signal is delivered to a handler; then comes any
      run of user code, mask calls, changes of the alternate stack and further handlers that
      come and go above it, with nothing written over this frame; then the handler returns.
      The interrupted registers, pointers and user flags and the mask the user code had asked
      for are back, if and only if the pointers were user addresses.  The alternate stack
      setting is back if and only if the return does not land on the stack set at that time,
      or that is the old one. */
  lemma RoundTripAtAnyDepth(m: Machine, writable: bool, h: Machine, steps: seq<Step>, r: Machine)
    requires Inv(m) && Enabled(m, DeliverSignals(writable)) && Spares(m, DeliverSignals(writable))
    requires Settle(m.r.proc.(syscallNr := -1)).1.Some? && DeliverStep(m, writable) == Some(h)
    requires Inv(h) && IsRun(h, steps) && StaysAbove(h, steps, |m.shadow| + 1) && r == After(h, steps)
    requires Inv(r) && |r.shadow| == |m.shadow| + 1 && Enabled(r, Return)
    ensures r.shadow[|m.shadow|].addr in r.r.mem
    ensures var c := Interrupted(m.r.ctx, m.r.proc, Settle(m.r.proc.(syscallNr := -1)).1.value);
      && (ReturnStep(r).Some? <==> c.rip < LIMIT && c.rsp < LIMIT)
      && (ReturnStep(r).Some? ==>
            var t := ReturnStep(r).value;
            && SameUserState(t.r.ctx, c) && t.r.proc.blocked == m.want
            && (t.r.proc.alt == m.r.proc.alt <==> !OnAlt(r.r.proc.alt, c.rsp) || r.r.proc.alt == m.r.proc.alt)
            && t.shadow == m.shadow && t.want == m.want)
  {
    var e := HandlerStands(m, writable, h, steps, r);
    ReturnTo(r, m.shadow, e);
  }

  lemma SameEntries(h: seq<Entry>, r: seq<Entry>, below: seq<Entry>, e: Entry)
    requires |h| == |r| == |below| + 1 && r[..|r|] == h[..|r|] && h == below + [e]
    ensures r == h && r[..|below|] == below
  {
    assert r == r[..|r|] && h == h[..|r|];
  }

  /** A fresh process: no handler active, nothing masked. */
  lemma FreshProcess(c: Context, mem: Memory)
    requires c.cs == USER_CS
    ensures Inv(Machine(Running(c, Proc({}, {}, {}, false, map[], map[], -1, NO_ALT), mem), true, None, {}, []))
  {}
}
