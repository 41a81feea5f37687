/** Signal delivery and return.

    A signal set is the set of its signal numbers (number `n` is bit `n - 1` of
    the kernel's 64-bit mask).  User memory is represented by the signal frames
    that still lie intact in it: writing over any byte of a frame removes it.
 */
module Signals {
  import opened Basics

  const LIMIT := 0x8000_0000_0000
  const RED_ZONE := 128
  const FRAME_SIZE := 448
  const SYSCALL_VECTOR := 0x80
  const USER_CS := 0x23
  const USER_SS := 0x1B
  const MINSIGSTKSZ := 2048

  const SIGKILL := 9
  const SIGSTOP := 19
  const SIGNAL_MAX := 64

  const SI_USER := 0
  const SI_KERNEL := 0x80

  const SIG_DFL := 0
  const SIG_IGN := 1

  const SA_RESTORER: bv64 := 0x0400_0000
  const SA_ONSTACK: bv64 := 0x0800_0000
  const SA_RESTART: bv64 := 0x1000_0000
  const SA_NODEFER: bv64 := 0x4000_0000
  const SA_RESETHAND: bv64 := 0x8000_0000

  const SS_ONSTACK: bv32 := 1
  const SS_DISABLE: bv32 := 2
  const SS_AUTODISARM: bv32 := 0x8000_0000

  const RFLAGS_IF: bv64 := 0x200
  const RFLAGS_TF: bv64 := 0x100
  const RFLAGS_DF: bv64 := 0x400
  const RFLAGS_USER: bv64 := 0x50DD5

  type Word = x: int | 0 <= x < WORD
  type SigSet = set<nat>

  const UNBLOCKABLE: SigSet := {SIGKILL, SIGSTOP}
  const DEFAULT_IGNORED: SigSet := {17, 18, 19, 20, 21, 22, 23, 28}

  /** `interrupt_context` */
  datatype Context = Context(
    r8: Word, r9: Word, r10: Word, r11: Word, r12: Word, r13: Word, r14: Word, r15: Word,
    rdi: Word, rsi: Word, rbp: Word, rbx: Word, rdx: Word, rax: Word, rcx: Word,
    rsp: Word, rip: Word, rflags: bv64, cs: Word, ss: Word, vector: Word, error: Word)

  /** `sigcontext_s` */
  datatype Saved = Saved(
    r8: Word, r9: Word, r10: Word, r11: Word, r12: Word, r13: Word, r14: Word, r15: Word,
    rdi: Word, rsi: Word, rbp: Word, rbx: Word, rdx: Word, rax: Word, rcx: Word,
    rsp: Word, rip: Word, eflags: bv64, cs: Word, ss: Word, err: Word, trapno: Word, oldmask: SigSet)

  datatype AltStack = AltStack(sp: Word, size: Word, flags: bv32)

  datatype UContext = UContext(stack: AltStack, mcontext: Saved, sigmask: SigSet)

  datatype Info = Info(code: int, pid: int, addr: Word)

  datatype Frame = Frame(pretcode: Word, uc: UContext, signo: nat, info: Info)

  datatype Handler = Handler(handler: Word, flags: bv64, restorer: Word, mask: SigSet)

  datatype Proc = Proc(
    pending: SigSet,
    blocked: SigSet,
    savedBlocked: SigSet,
    restoreMask: bool,
    actions: map<nat, Handler>,
    info: map<nat, Info>,
    syscallNr: int,
    alt: AltStack)

  type Memory = map<int, Frame>

  const NO_ALT := AltStack(0, 0, 0)
  const DEFAULT := Handler(SIG_DFL, 0, 0, {})

  function Wrap(x: int): Word {
    x % WORD
  }

  predicate Has(flags: bv64, bit: bv64) {
    flags & bit != 0
  }

  function ActionOf(p: Proc, sig: nat): Handler {
    if sig in p.actions then p.actions[sig] else DEFAULT
  }

  /** `signal_ignored` */
  predicate Ignored(p: Proc, sig: nat) {
    var h := ActionOf(p, sig).handler;
    h == SIG_IGN || (h == SIG_DFL && sig in DEFAULT_IGNORED)
  }

  // ---- alternate stacks ----

  /** `signal_on_altstack` */
  predicate OnAlt(alt: AltStack, sp: Word) {
    alt.size != 0 && sp > alt.sp && sp - alt.sp <= alt.size
  }

  /** `signal_altstack_get` */
  function GetAlt(alt: AltStack, sp: Word): AltStack {
    AltStack(alt.sp, alt.size,
      if alt.size == 0 then SS_DISABLE else (if OnAlt(alt, sp) then SS_ONSTACK else 0) | alt.flags)
  }

  /** `signal_altstack_set`: the new setting, or the old one and an error */
  function SetAlt(alt: AltStack, ss: AltStack, sp: Word): (AltStack, bool) {
    var mode := ss.flags & !SS_AUTODISARM;
    if OnAlt(alt, sp) then (alt, false)
    else if mode != 0 && mode != SS_ONSTACK && mode != SS_DISABLE then (alt, false)
    else if mode == SS_DISABLE then (NO_ALT, true)
    else if ss.size < MINSIGSTKSZ then (alt, false)
    else if ss.sp + ss.size >= WORD || ss.sp + ss.size > LIMIT then (alt, false)
    else (AltStack(ss.sp, ss.size, ss.flags & SS_AUTODISARM), true)
  }

  /** What `SetAlt` leaves behind. */
  predicate AltValid(alt: AltStack) {
    if alt.size == 0 then alt == NO_ALT
    else
      && alt.size >= MINSIGSTKSZ && alt.sp + alt.size <= LIMIT
      && (alt.flags == 0 || alt.flags == SS_AUTODISARM)
  }

  lemma SetAltValid(alt: AltStack, ss: AltStack, sp: Word)
    requires AltValid(alt)
    ensures AltValid(SetAlt(alt, ss, sp).0)
  {
    assert ss.flags & SS_AUTODISARM == 0 || ss.flags & SS_AUTODISARM == SS_AUTODISARM;
  }

  /** Saving the setting and putting it back, when nothing refuses it. */
  lemma AltRoundTrip(alt: AltStack, now: AltStack, sp: Word)
    requires AltValid(alt)
    ensures SetAlt(now, GetAlt(alt, sp), sp).0 == if OnAlt(now, sp) then now else alt
  {
    var f := GetAlt(alt, sp).flags;
    AltFlagBits(alt.flags);
    assert SS_DISABLE & !SS_AUTODISARM == SS_DISABLE;
  }

  lemma AltFlagBits(f: bv32)
    requires f == 0 || f == SS_AUTODISARM
    ensures (SS_ONSTACK | f) & !SS_AUTODISARM == SS_ONSTACK && (0 | f) & !SS_AUTODISARM == 0
    ensures (SS_ONSTACK | f) & SS_AUTODISARM == f && (0 | f) & SS_AUTODISARM == f
  {}

  // ---- frames ----

  /** `signal_save_context` */
  function Save(c: Context, mask: SigSet): Saved {
    Saved(c.r8, c.r9, c.r10, c.r11, c.r12, c.r13, c.r14, c.r15,
          c.rdi, c.rsi, c.rbp, c.rbx, c.rdx, c.rax, c.rcx,
          c.rsp, c.rip, c.rflags, c.cs % 0x10000, c.ss % 0x10000, c.error, c.vector, mask)
  }

  predicate ToAlt(p: Proc, act: Handler, rsp: Word) {
    Has(act.flags, SA_ONSTACK) && p.alt.size != 0 && !OnAlt(p.alt, rsp)
  }

  /** The stack top below which the frame is built. */
  function Base(p: Proc, act: Handler, rsp: Word): Word {
    if ToAlt(p, act, rsp) then Wrap(p.alt.sp + p.alt.size) else Wrap(rsp - RED_ZONE)
  }

  function FrameAddr(base: Word): Word {
    var sp := Wrap(base - FRAME_SIZE);
    Wrap(sp - sp % 16 - 8)
  }

  /** The mask to return to: the one a temporary mask stands in for, if there is one. */
  function ReturnMask(p: Proc): SigSet {
    if p.restoreMask then p.savedBlocked else p.blocked
  }

  predicate Overlaps(a: int, b: int) {
    a < b + FRAME_SIZE && b < a + FRAME_SIZE
  }

  /** `copy_to_user` of a frame: whatever it overlaps is gone. */
  function Write(mem: Memory, addr: int, f: Frame): Memory {
    (map a | a in mem && !Overlaps(a, addr) :: mem[a])[addr := f]
  }

  datatype Running = Running(ctx: Context, proc: Proc, mem: Memory)

  function HandlerMask(p: Proc, act: Handler, sig: nat): SigSet {
    (p.blocked + (act.mask - UNBLOCKABLE) + (if Has(act.flags, SA_NODEFER) then {} else {sig})) - UNBLOCKABLE
  }

  function BuildFrame(c: Context, p: Proc, sig: nat, sp: Word): Frame {
    var act := ActionOf(p, sig);
    Frame(if Has(act.flags, SA_RESTORER) then act.restorer else Wrap(sp + FRAME_SIZE - 8),
          UContext(GetAlt(p.alt, c.rsp), Save(c, ReturnMask(p)), ReturnMask(p)),
          sig,
          UserInfo(if sig in p.info then p.info[sig] else Info(SI_USER, 0, 0)))
  }

  /** `si_pid` and `si_addr` share a word: which one is filled depends on the code. */
  function UserInfo(i: Info): Info {
    if i.code == SI_USER || i.code == SI_KERNEL then i.(addr := 0) else i.(pid := 0)
  }

  function EnteredContext(c: Context, act: Handler, sig: nat, sp: Word): Context
    requires sig <= SIGNAL_MAX
  {
    c.(rip := act.handler, rsp := sp, rdi := sig, rsi := Wrap(sp + 8 + 304), rdx := Wrap(sp + 8),
       rax := 0, rflags := c.rflags & !(RFLAGS_DF | RFLAGS_TF))
  }

  function EnteredProc(p: Proc, act: Handler, sig: nat, toAlt: bool): Proc {
    p.(restoreMask := false,
       blocked := HandlerMask(p, act, sig),
       actions := if Has(act.flags, SA_RESETHAND) then p.actions[sig := DEFAULT] else p.actions,
       alt := if toAlt && p.alt.flags & SS_AUTODISARM != 0 then NO_ALT else p.alt)
  }

  /** The state a handler starts in, its frame being at `sp`. */
  function Entered(c: Context, p: Proc, mem: Memory, sig: nat, sp: Word): Running
    requires sig <= SIGNAL_MAX
  {
    var act := ActionOf(p, sig);
    Running(EnteredContext(c, act, sig, sp),
            EnteredProc(p, act, sig, ToAlt(p, act, c.rsp)),
            Write(mem, sp, BuildFrame(c, p, sig, sp)))
  }

  /** Whether a frame can be built at `sp`.  `writable` says whether user memory accepts
      it; memory at or above the limit never does. */
  predicate FrameFits(c: Context, p: Proc, sig: nat, sp: Word, writable: bool) {
    var act := ActionOf(p, sig);
    && act.handler < LIMIT
    && !((ToAlt(p, act, c.rsp) || OnAlt(p.alt, c.rsp)) && sp < p.alt.sp)
    && writable && sp + FRAME_SIZE <= LIMIT
  }

  /** `signal_setup_frame` */
  function SetupFrame(c: Context, p: Proc, mem: Memory, sig: nat, writable: bool): (r: Option<Running>)
    requires sig <= SIGNAL_MAX
  {
    var sp := FrameAddr(Base(p, ActionOf(p, sig), c.rsp));
    if FrameFits(c, p, sig, sp, writable) then Some(Entered(c, p, mem, sig, sp)) else None
  }

  /** Where a frame may lie: inside the alternate stack when it moves there, otherwise
      wholly below the red zone of the interrupted code, and never under the bottom
      of an alternate stack that is in use. */
  lemma FramePlacement(c: Context, p: Proc, mem: Memory, sig: nat, writable: bool)
    requires sig <= SIGNAL_MAX && AltValid(p.alt) && SetupFrame(c, p, mem, sig, writable).Some?
    ensures var sp := SetupFrame(c, p, mem, sig, writable).value.ctx.rsp;
      && (sp + 8) % 16 == 0
      && (if ToAlt(p, ActionOf(p, sig), c.rsp)
          then p.alt.sp <= sp && sp + FRAME_SIZE <= p.alt.sp + p.alt.size
          else sp + FRAME_SIZE <= c.rsp - RED_ZONE)
      && (OnAlt(p.alt, c.rsp) ==> p.alt.sp <= sp && sp + FRAME_SIZE <= p.alt.sp + p.alt.size)
      && Base(p, ActionOf(p, sig), c.rsp) - 472 < sp
      && sp + FRAME_SIZE <= Base(p, ActionOf(p, sig), c.rsp)
  {
    FrameAddrFacts(Base(p, ActionOf(p, sig), c.rsp));
  }

  lemma FrameAddrFacts(base: Word)
    requires FrameAddr(base) + FRAME_SIZE <= LIMIT
    ensures base - 472 < FrameAddr(base) && FrameAddr(base) + FRAME_SIZE <= base
    ensures base < LIMIT + 32 && (FrameAddr(base) + 8) % 16 == 0
  {
    if base < FRAME_SIZE {
      assert false;
    } else {
      var sp := base - FRAME_SIZE;
      assert Wrap(sp) == sp;
      if sp - sp % 16 < 8 {
        assert false;
      }
    }
  }

  // ---- return ----

  /** The general registers, stack and instruction pointers and user flags. */
  predicate SameUserState(a: Context, b: Context) {
    && a.r8 == b.r8 && a.r9 == b.r9 && a.r10 == b.r10 && a.r11 == b.r11
    && a.r12 == b.r12 && a.r13 == b.r13 && a.r14 == b.r14 && a.r15 == b.r15
    && a.rdi == b.rdi && a.rsi == b.rsi && a.rbp == b.rbp && a.rbx == b.rbx
    && a.rdx == b.rdx && a.rax == b.rax && a.rcx == b.rcx
    && a.rsp == b.rsp && a.rip == b.rip
    && a.rflags & RFLAGS_USER == b.rflags & RFLAGS_USER
  }

  /** `sys_rt_sigreturn` of a user context that could be read; `None` is the kill. */
  function Sigreturn(c: Context, p: Proc, uc: UContext): Option<(Context, Proc)> {
    var m := uc.mcontext;
    if m.rip >= LIMIT || m.rsp >= LIMIT then None
    else
      var c' := c.(
        r8 := m.r8, r9 := m.r9, r10 := m.r10, r11 := m.r11, r12 := m.r12, r13 := m.r13, r14 := m.r14, r15 := m.r15,
        rdi := m.rdi, rsi := m.rsi, rbp := m.rbp, rbx := m.rbx, rdx := m.rdx, rax := m.rax, rcx := m.rcx,
        rsp := m.rsp, rip := m.rip,
        rflags := (c.rflags & !RFLAGS_USER) | (m.eflags & RFLAGS_USER) | RFLAGS_IF,
        cs := USER_CS, ss := USER_SS);
      Some((c', p.(blocked := uc.sigmask - UNBLOCKABLE, syscallNr := -1, alt := SetAlt(p.alt, uc.stack, m.rsp).0)))
  }

  lemma RestoredFlags(now: bv64, saved: bv64)
    ensures ((now & !RFLAGS_USER) | (saved & RFLAGS_USER) | RFLAGS_IF) & RFLAGS_USER == saved & RFLAGS_USER
  {}

  /** Delivery followed by return, whatever the handler did to registers and process
      meanwhile: the interrupted user state and mask come back exactly when the
      interrupted pointers were user addresses, otherwise the process is killed; and
      the alternate stack comes back exactly when the setting in force at the return
      does not cover the restored stack pointer, or is the old one. */
  lemma DeliverThenReturn(c: Context, p: Proc, mem: Memory, sig: nat, later: Context, proc: Proc)
    requires sig <= SIGNAL_MAX && AltValid(p.alt) && SetupFrame(c, p, mem, sig, true).Some?
    requires ReturnMask(p) !! UNBLOCKABLE
    ensures var r := SetupFrame(c, p, mem, sig, true).value;
      && r.ctx.rsp in r.mem
      && var back := Sigreturn(later, proc, r.mem[r.ctx.rsp].uc);
      && (back.Some? <==> c.rip < LIMIT && c.rsp < LIMIT)
      && (back.Some? ==>
            && SameUserState(back.value.0, c)
            && back.value.1.blocked == ReturnMask(p)
            && (back.value.1.alt == p.alt <==> !OnAlt(proc.alt, c.rsp) || proc.alt == p.alt))
  {
    AltRoundTrip(p.alt, proc.alt, c.rsp);
    RestoredFlags(later.rflags, c.rflags);
  }

  /** A process can be killed by returning from a handler that it was right to run:
      with a wild stack pointer and a handler on the alternate stack, delivery
      succeeds and the return does not. */
  lemma WildStackIsFatal(c: Context, mem: Memory, later: Context, proc: Proc)
    requires c.rsp == 0x9000_0000_0000
    ensures var act := Handler(0x4000_0000, SA_ONSTACK, 0, {});
      var p := Proc({}, {}, {}, false, map[10 := act], map[], -1, AltStack(0x5000_0000, 0x4000, 0));
      && SetupFrame(c, p, mem, 10, true).Some?
      && var r := SetupFrame(c, p, mem, 10, true).value;
      r.ctx.rsp in r.mem && Sigreturn(later, proc, r.mem[r.ctx.rsp].uc).None?
  {
    assert SA_ONSTACK & SA_ONSTACK != 0;
  }
}
