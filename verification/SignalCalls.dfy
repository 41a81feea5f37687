/** The signal entry points as they update a process in place, proved against the
    functions of `Signals` and `SignalRuns`. */
module SignalCalls {
  import opened Basics
  import opened Signals
  import opened SignalRuns

  class Task {
    var ctx: Context
    var proc: Proc
    var mem: Memory

    constructor (c: Context, p: Proc, m: Memory)
      ensures ctx == c && proc == p && mem == m
    {
      ctx, proc, mem := c, p, m;
    }

    function Run(): Running
      reads this
    {
      Running(ctx, proc, mem)
    }

    /** Where `signal_setup_frame` puts the frame. */
    method FramePointer(act: Handler) returns (toAlt: bool, sp: Word)
      ensures toAlt == ToAlt(proc, act, ctx.rsp) && sp == FrameAddr(Base(proc, act, ctx.rsp))
    {
      toAlt := Has(act.flags, SA_ONSTACK) && proc.alt.size != 0 && !OnAlt(proc.alt, ctx.rsp);
      sp := if toAlt then Wrap(proc.alt.sp + proc.alt.size) else Wrap(ctx.rsp - RED_ZONE);
      sp := Wrap(sp - FRAME_SIZE);
      sp := Wrap(sp - sp % 16 - 8);
    }

    /** The changes `signal_setup_frame` makes to the process. */
    method MaskAndDisarm(act: Handler, sig: nat, toAlt: bool)
      modifies this`proc
      ensures proc == EnteredProc(old(proc), act, sig, toAlt)
    {
      proc := proc.(restoreMask := false, blocked := HandlerMask(proc, act, sig));
      if Has(act.flags, SA_RESETHAND) {
        proc := proc.(actions := proc.actions[sig := DEFAULT]);
      }
      if toAlt && proc.alt.flags & SS_AUTODISARM != 0 {
        proc := proc.(alt := NO_ALT);
      }
    }

    /** `signal_setup_frame` */
    method SignalSetupFrame(sig: nat, writable: bool) returns (ok: bool)
      requires sig <= SIGNAL_MAX
      modifies this
      ensures ok <==> SetupFrame(old(ctx), old(proc), old(mem), sig, writable).Some?
      ensures ok ==> Run() == SetupFrame(old(ctx), old(proc), old(mem), sig, writable).value
    {
      var act := ActionOf(proc, sig);
      var toAlt, sp := FramePointer(act);
      ok := act.handler < LIMIT;
      if ok && (toAlt || OnAlt(proc.alt, ctx.rsp)) && sp < proc.alt.sp {
        ok := false;
      }
      if ok && (!writable || sp + FRAME_SIZE > LIMIT) {
        ok := false;
      }
      if ok {
        mem := Write(mem, sp, BuildFrame(ctx, proc, sig, sp));
        MaskAndDisarm(act, sig, toAlt);
        ctx := EnteredContext(ctx, act, sig, sp);
      }
    }

    /** `signal_deliver`; false when it ends the process */
    method SignalDeliver(writable: bool) returns (alive: bool)
      requires InRange(proc.pending)
      modifies this
      ensures alive <==> Deliver(old(Run()), writable).Alive?
      ensures alive ==> Run() == Deliver(old(Run()), writable).r
    {
      if ctx.cs % 4 != 3 {
        return true;
      }
      ghost var start := Run();
      var restartable, nr := Restartable(ctx, proc), proc.syscallNr;
      proc := proc.(syscallNr := -1);
      while true
        invariant InRange(proc.pending) && ctx == start.ctx && mem == start.mem
        invariant Settle(proc) == Settle(start.proc.(syscallNr := -1))
        invariant proc.actions == start.proc.actions
        decreases |proc.pending|
      {
        if proc.pending <= proc.blocked {
          if restartable {
            ctx := Restart(ctx, nr);
          }
          if proc.restoreMask {
            proc := proc.(blocked := proc.savedBlocked, restoreMask := false);
          }
          return true;
        }
        var sig := LowestDeliverable(proc);
        var ignored := Ignored(proc, sig);
        proc := proc.(pending := proc.pending - {sig});
        if ignored {
          continue;
        }
        if ActionOf(proc, sig).handler == SIG_DFL {
          return false;
        }
        if restartable {
          if Has(ActionOf(proc, sig).flags, SA_RESTART) {
            ctx := Restart(ctx, nr);
          } else {
            ctx := ctx.(rax := WORD - EINTR);
          }
        }
        alive := SignalSetupFrame(sig, writable);
        return;
      }
    }

    /** `sys_rt_sigreturn`, the user context having been read; false when it ends the
        process */
    method RtSigreturn(uc: UContext) returns (alive: bool)
      modifies this
      ensures alive <==> Sigreturn(old(ctx), old(proc), uc).Some?
      ensures alive ==> (ctx, proc) == Sigreturn(old(ctx), old(proc), uc).value
      ensures mem == old(mem)
    {
      var m := uc.mcontext;
      if m.rip >= LIMIT || m.rsp >= LIMIT {
        return false;
      }
      ctx := ctx.(r8 := m.r8, r9 := m.r9, r10 := m.r10, r11 := m.r11);
      ctx := ctx.(r12 := m.r12, r13 := m.r13, r14 := m.r14, r15 := m.r15);
      ctx := ctx.(rdi := m.rdi, rsi := m.rsi, rbp := m.rbp, rbx := m.rbx, rdx := m.rdx, rax := m.rax, rcx := m.rcx);
      ctx := ctx.(rsp := m.rsp, rip := m.rip);
      ctx := ctx.(rflags := (ctx.rflags & !RFLAGS_USER) | (m.eflags & RFLAGS_USER) | RFLAGS_IF);
      ctx := ctx.(cs := USER_CS, ss := USER_SS);
      proc := proc.(blocked := uc.sigmask - UNBLOCKABLE, syscallNr := -1);
      var (alt, _) := SetAlt(proc.alt, uc.stack, ctx.rsp);
      proc := proc.(alt := alt);
      return true;
    }
  }
}
