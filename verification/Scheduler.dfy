/** The process scheduler as a machine of many CPUs.

    A state is everything `sched_lock` and the kernel lock protect: the process
    slots, the ready queue, the wait tree (as its in-order sequence), the killed
    list and what each CPU runs.  Every action is one critical section.  A
    section that switches context ends with `sched_lock` still held and the CPU
    still on the old stack; `FinishSwitch` is the switch and the release that the
    incoming process performs.
 */
module Scheduler {
  import opened Basics
  import opened WaitTree
  import Seqs

  const SLOTS: nat := 128

  datatype PState = Unused | Init | Ready | Running | Sleeping | Killed

  datatype Proc = Proc(
    state: PState,
    idle: bool,
    waitId: int,
    interruptible: bool,
    detached: bool,
    signalled: bool,
    interest: bv64)

  /** What a CPU has in hand between two sections of `wait4` or of the reaper. */
  datatype Task = NoTask | Claimed(zombie: nat) | Freeing(victim: nat)

  datatype State = State(
    procs: seq<Proc>,
    ready: seq<nat>,
    waiting: seq<Waiter>,
    killed: seq<nat>,
    current: seq<nat>,
    idleOf: seq<nat>,
    stack: seq<nat>,
    task: seq<Task>,
    schedLock: Option<nat>,
    kernelLock: Option<nat>,
    born: seq<nat>,
    freed: seq<nat>)

  const BLANK := Proc(Unused, false, 0, false, false, false, 0)

  // ---- invariant ----

  ghost predicate Shape(s: State) {
    && |s.procs| == |s.born| == |s.freed| == SLOTS
    && |s.current| == |s.idleOf| == |s.stack| == |s.task|
    && (forall c :: 0 <= c < |s.current| ==> s.current[c] < SLOTS)
    && (forall c :: 0 <= c < |s.idleOf| ==> s.idleOf[c] < SLOTS)
    && (forall c :: 0 <= c < |s.stack| ==> s.stack[c] < SLOTS)
    && (forall i :: 0 <= i < |s.ready| ==> s.ready[i] < SLOTS)
    && (forall i :: 0 <= i < |s.killed| ==> s.killed[i] < SLOTS)
    && (forall i :: 0 <= i < |s.waiting| ==>
          s.waiting[i].slot < SLOTS && s.waiting[i].key == s.procs[s.waiting[i].slot].waitId)
  }

  predicate IsCpu(s: State, c: nat) {
    c < |s.current| && c < |s.stack| && c < |s.task| && c < |s.idleOf|
  }

  /** Slot `p` is current on some CPU other than `hole`. */
  ghost predicate RunsOutside(s: State, hole: Option<nat>, p: nat) {
    exists c: nat :: c < |s.current| && hole != Some(c) && s.current[c] == p
  }

  ghost predicate BeingFreed(s: State, p: nat) {
    exists c: nat :: c < |s.task| && s.task[c] == Freeing(p)
  }

  /** Each slot is in the one place its state names.  With `hole` set, the CPU
      `hole` is between processes and its `current` does not count. */
  ghost predicate PlaceMatchesState(s: State, hole: Option<nat>, p: nat)
    requires p < |s.procs|
  {
    var st := s.procs[p].state;
    && (p in s.ready <==> st == Ready && !s.procs[p].idle)
    && (HasSlot(s.waiting, p) <==> st == Sleeping)
    && (p in s.killed <==> st == Killed && !BeingFreed(s, p))
    && (RunsOutside(s, hole, p) <==> st == Running)
    && (s.procs[p].idle ==> st == Ready || st == Running)
  }

  ghost predicate Lists(s: State) {
    Distinct(s.ready) && Distinct(s.killed) && DistinctSlots(s.waiting) && Sorted(s.waiting)
  }

  ghost predicate Idles(s: State)
    requires Shape(s)
  {
    && Distinct(s.idleOf)
    && (forall c :: 0 <= c < |s.idleOf| ==> s.procs[s.idleOf[c]].idle)
    && (forall c :: 0 <= c < |s.current| ==> s.procs[s.current[c]].idle ==> s.current[c] == s.idleOf[c])
  }

  ghost predicate OneCpuEach(s: State, hole: Option<nat>) {
    forall c, d :: 0 <= c < d < |s.current| && hole != Some(c) && hole != Some(d) ==>
      s.current[c] != s.current[d]
  }

  ghost predicate Placed(s: State, hole: Option<nat>)
    requires Shape(s)
  {
    && Lists(s) && Idles(s) && OneCpuEach(s, hole)
    && forall p :: 0 <= p < SLOTS ==> PlaceMatchesState(s, hole, p)
  }

  /** No stack is used by two CPUs, and only a CPU in the middle of a switch, which
      holds `sched_lock`, runs on a stack other than its current process's. */
  ghost predicate StacksAgree(s: State)
    requires Shape(s)
  {
    && (s.schedLock.Some? ==>
          s.schedLock.value < |s.task| && s.task[s.schedLock.value] == NoTask && s.kernelLock != s.schedLock)
    && (forall c :: 0 <= c < |s.stack| && s.schedLock != Some(c) ==> s.stack[c] == s.current[c])
    && Distinct(s.stack)
  }

  /** Work in hand is on a killed process, under the kernel lock, off every stack. */
  ghost predicate TasksOwned(s: State)
    requires Shape(s)
  {
    forall c :: 0 <= c < |s.task| && s.task[c] != NoTask ==>
      && s.kernelLock == Some(c)
      && match s.task[c] {
           case NoTask => true
           case Claimed(p) => p < SLOTS && s.procs[p].state == Killed && !s.procs[p].detached && p in s.killed
           case Freeing(p) => p < SLOTS && s.procs[p].state == Killed && !OnStack(s, p)
         }
  }

  ghost predicate OnStack(s: State, p: nat) {
    exists c: nat :: c < |s.stack| && s.stack[c] == p
  }

  /** Every creation is undone at most once, and exactly once when the slot is unused. */
  ghost predicate Ledger(s: State)
    requires Shape(s)
  {
    forall p :: 0 <= p < SLOTS ==>
      s.born[p] == s.freed[p] + if s.procs[p].state == Unused then 0 else 1
  }

  ghost predicate Inv(s: State) {
    Shape(s) && Placed(s, None) && StacksAgree(s) && TasksOwned(s) && Ledger(s)
  }

  // ---- actions ----

  datatype Action =
    | Yield(cpu: nat)
    | Sleep(cpu: nat, key: int)
    | SleepUnlessSignalled(cpu: nat, key: int)
    | Exit(cpu: nat)
    | FinishSwitch(cpu: nat)
    | WakeupN(key: int, count: int)
    | WakeupPoll(channel: int, interests: bv64)
    | Wake(proc: nat)
    | Interrupt(proc: nat)
    | Detach(cpu: nat, procs: set<nat>)
    | WaitClaim(cpu: nat, child: nat)
    | WaitRemove(cpu: nat)
    | ReapRemove(cpu: nat)
    | Free(cpu: nat)
    | Create(cpu: nat, slot: nat)
    | Publish(slot: nat)
    | Abort(cpu: nat, slot: nat)
    | KernelEnter(cpu: nat)
    | KernelExit(cpu: nat)
    | Mark(proc: nat, interruptible: bool, signalled: bool, interest: bv64)

  function SetState(s: State, p: nat, st: PState): State
    requires p < |s.procs|
  {
    s.(procs := s.procs[p := s.procs[p].(state := st)])
  }

  /** One sleeper leaves the tree for the tail of the ready queue. */
  function MoveToReady(s: State, p: nat): State
    requires p < |s.procs|
  {
    SetState(s, p, Ready).(waiting := RemoveSlot(s.waiting, p), ready := s.ready + [p])
  }

  /** `schedule` and the lock drop around it: the head of the ready queue, or the
      CPU's own idle process. */
  function Switch(s: State, c: nat): State
    requires Shape(s) && IsCpu(s, c)
  {
    var next := if s.ready == [] then s.idleOf[c] else s.ready[0];
    var rest := if s.ready == [] then [] else s.ready[1..];
    SetState(s, next, Running).(
      ready := rest,
      current := s.current[c := next],
      schedLock := Some(c),
      kernelLock := if s.kernelLock == Some(c) then None else s.kernelLock)
  }

  function DepartYield(s: State, c: nat): State
    requires Shape(s) && IsCpu(s, c)
  {
    var p := s.current[c];
    SetState(s, p, Ready).(ready := if s.procs[p].idle then s.ready else s.ready + [p])
  }

  function DepartSleep(s: State, c: nat, key: int): State
    requires Shape(s) && IsCpu(s, c)
  {
    var p := s.current[c];
    s.(procs := s.procs[p := s.procs[p].(state := Sleeping, waitId := key)],
       waiting := InsertSeq(s.waiting, Waiter(p, key)))
  }

  function DepartExit(s: State, c: nat): State
    requires Shape(s) && IsCpu(s, c)
  {
    var p := s.current[c];
    SetState(s, p, Killed).(killed := s.killed + [p])
  }

  /** Wake the first `n` of the listed sleepers, in order. */
  function WakeAll(s: State, ws: seq<Waiter>): State
    requires Shape(s)
    requires forall i :: 0 <= i < |ws| ==> ws[i].slot < SLOTS
    decreases |ws|
  {
    if ws == [] then s
    else
      MoveToReadyShape(s, ws[0].slot);
      WakeAll(MoveToReady(s, ws[0].slot), ws[1..])
  }

  lemma MoveToReadyShape(s: State, p: nat)
    requires Shape(s) && p < SLOTS
    ensures Shape(MoveToReady(s, p))
  {
    RemoveSlotSubset(s.waiting, p);
  }

  lemma {:induction false} RemoveSlotSubset(ws: seq<Waiter>, slot: nat)
    ensures forall i :: 0 <= i < |RemoveSlot(ws, slot)| ==> RemoveSlot(ws, slot)[i] in ws
  {
    if ws != [] {
      RemoveSlotSubset(ws[1..], slot);
      assert forall w :: w in ws[1..] ==> w in ws;
    }
  }

  predicate Overlap(a: bv64, b: bv64) {
    a & b != 0
  }

  /** The sleepers of a channel that `process_wakeup_poll` moves. */
  function Interested(s: State, ws: seq<Waiter>, interests: bv64): (r: seq<Waiter>)
    requires forall i :: 0 <= i < |ws| ==> ws[i].slot < |s.procs|
    ensures forall i :: 0 <= i < |r| ==> r[i] in ws
  {
    if ws == [] then []
    else
      var rest := Interested(s, ws[1..], interests);
      if Overlap(s.procs[ws[0].slot].interest, interests) then [ws[0]] + rest else rest
  }

  lemma {:induction false} InterestedMembers(s: State, ws: seq<Waiter>, interests: bv64, w: Waiter)
    requires forall i :: 0 <= i < |ws| ==> ws[i].slot < |s.procs|
    ensures w in Interested(s, ws, interests) <==> w in ws && Overlap(s.procs[w.slot].interest, interests)
  {
    if ws != [] {
      InterestedMembers(s, ws[1..], interests, w);
      assert w in ws <==> w == ws[0] || w in ws[1..];
    }
  }

  function Without(xs: seq<nat>, p: nat): seq<nat> {
    if xs == [] then [] else if xs[0] == p then xs[1..] else [xs[0]] + Without(xs[1..], p)
  }

  /** The reaper's pick: the first killed process that nobody will wait for. */
  function FirstDetached(procs: seq<Proc>, killed: seq<nat>): (r: Option<nat>)
    requires forall i :: 0 <= i < |killed| ==> killed[i] < |procs|
    ensures r.Some? ==> r.value in killed && procs[r.value].detached
    ensures r.None? ==> forall p :: p in killed ==> !procs[p].detached
  {
    if killed == [] then None
    else if procs[killed[0]].detached then Some(killed[0])
    else
      var r := FirstDetached(procs, killed[1..]);
      assert forall p :: p in killed ==> p == killed[0] || p in killed[1..];
      r
  }

  function Take(count: int, n: nat): (k: nat)
    ensures k <= n
  {
    if count < 0 || count > n then n else count
  }

  lemma QueueSlots(s: State, key: int)
    requires Shape(s)
    ensures forall i :: 0 <= i < |Queue(s.waiting, key)| ==> Queue(s.waiting, key)[i].slot < SLOTS
  {
    forall i | 0 <= i < |Queue(s.waiting, key)| ensures Queue(s.waiting, key)[i].slot < SLOTS {
      QueueMembers(s.waiting, key, Queue(s.waiting, key)[i]);
    }
  }

  /** The sleepers that an action of `WakeupN` or `WakeupPoll` moves, oldest first. */
  function Woken(s: State, a: Action): (ws: seq<Waiter>)
    requires Shape(s) && (a.WakeupN? || a.WakeupPoll?)
    ensures forall i :: 0 <= i < |ws| ==> ws[i].slot < SLOTS
  {
    if a.WakeupN? then
      QueueSlots(s, a.key);
      var q := Queue(s.waiting, a.key);
      q[..Take(a.count, |q|)]
    else
      QueueSlots(s, a.channel);
      Interested(s, Queue(s.waiting, a.channel), a.interests)
  }

  predicate MayRun(s: State, c: nat) {
    IsCpu(s, c) && s.schedLock.None? && s.task[c] == NoTask
  }

  predicate Enabled(s: State, a: Action)
    requires |s.procs| == SLOTS
    requires forall c :: 0 <= c < |s.current| ==> s.current[c] < SLOTS
  {
    match a
    case Yield(c) => MayRun(s, c)
    case Sleep(c, _) => MayRun(s, c) && !s.procs[s.current[c]].idle
    case SleepUnlessSignalled(c, _) => MayRun(s, c) && !s.procs[s.current[c]].idle
    case Exit(c) => MayRun(s, c) && !s.procs[s.current[c]].idle && s.kernelLock == Some(c)
    case FinishSwitch(c) => IsCpu(s, c) && s.schedLock == Some(c)
    case WakeupN(_, _) => s.schedLock.None?
    case WakeupPoll(_, _) => s.schedLock.None?
    case Wake(p) => s.schedLock.None? && p < SLOTS
    case Interrupt(p) => s.schedLock.None? && p < SLOTS
    case Detach(c, ps) => IsCpu(s, c) && s.kernelLock == Some(c) && s.task[c] == NoTask
    case WaitClaim(c, p) =>
      && IsCpu(s, c) && s.kernelLock == Some(c) && s.task[c] == NoTask && p < SLOTS
      && s.procs[p].state == Killed && !s.procs[p].detached
    case WaitRemove(c) => IsCpu(s, c) && s.schedLock.None? && s.task[c].Claimed?
    case ReapRemove(c) => MayRun(s, c) && s.kernelLock == Some(c)
    case Free(c) => IsCpu(s, c) && s.task[c].Freeing?
    case Create(c, p) =>
      IsCpu(s, c) && s.kernelLock == Some(c) && s.task[c] == NoTask && p < SLOTS && s.procs[p].state == Unused
    case Publish(p) => s.schedLock.None? && p < SLOTS && s.procs[p].state == Init
    case Abort(c, p) => IsCpu(s, c) && s.kernelLock == Some(c) && p < SLOTS && s.procs[p].state == Init
    case KernelEnter(c) => IsCpu(s, c) && s.kernelLock.None? && s.schedLock != Some(c)
    case KernelExit(c) => IsCpu(s, c) && s.kernelLock == Some(c) && s.task[c] == NoTask
    case Mark(p, _, _, _) => p < SLOTS
  }

  /** The actions that end in a context switch. */
  function ApplySwitch(s: State, a: Action): State
    requires Inv(s) && Enabled(s, a) && (a.Yield? || a.Sleep? || a.SleepUnlessSignalled? || a.Exit?)
  {
    match a
    case Yield(c) =>
      if s.ready == [] then s else DepartYieldKeeps(s, c); Switch(DepartYield(s, c), c)
    case Sleep(c, key) =>
      DepartSleepKeeps(s, c, key); Switch(DepartSleep(s, c, key), c)
    case SleepUnlessSignalled(c, key) =>
      if s.procs[s.current[c]].signalled then s
      else DepartSleepKeeps(s, c, key); Switch(DepartSleep(s, c, key), c)
    case Exit(c) => DepartExitKeeps(s, c); Switch(DepartExit(s, c), c)
  }

  function DetachAll(procs: seq<Proc>, ps: set<nat>): (r: seq<Proc>)
    ensures |r| == |procs|
    ensures forall i :: 0 <= i < |procs| ==>
              r[i] == if i in ps && procs[i].state != Unused then procs[i].(detached := true) else procs[i]
  {
    seq(|procs|, i requires 0 <= i < |procs| =>
      if i in ps && procs[i].state != Unused then procs[i].(detached := true) else procs[i])
  }

  /** `p` leaves the killed list and is in CPU `c`'s hands. */
  function Unlink(s: State, c: nat, p: nat): State
    requires c < |s.task|
  {
    s.(killed := Without(s.killed, p), task := s.task[c := Freeing(p)])
  }

  function Erase(s: State, p: nat): State
    requires p < |s.procs| && p < |s.freed|
  {
    s.(procs := s.procs[p := BLANK], freed := s.freed[p := s.freed[p] + 1])
  }

  function Apply(s: State, a: Action): State
    requires Inv(s) && Enabled(s, a)
  {
    match a
    case FinishSwitch(c) => s.(stack := s.stack[c := s.current[c]], schedLock := None)
    case WakeupN(_, _) => WakeAll(s, Woken(s, a))
    case WakeupPoll(_, _) => WakeAll(s, Woken(s, a))
    case Wake(p) => if s.procs[p].state == Sleeping then MoveToReady(s, p) else s
    case Interrupt(p) =>
      if s.procs[p].state == Sleeping && s.procs[p].interruptible then MoveToReady(s, p) else s
    case Detach(c, ps) => s.(procs := DetachAll(s.procs, ps))
    case WaitClaim(c, p) => s.(task := s.task[c := Claimed(p)])
    case WaitRemove(c) => Unlink(s, c, s.task[c].zombie)
    case ReapRemove(c) =>
      var r := FirstDetached(s.procs, s.killed);
      if r.None? then s else Unlink(s, c, r.value)
    case Free(c) => Erase(s, s.task[c].victim).(task := s.task[c := NoTask])
    case Create(c, p) =>
      s.(procs := s.procs[p := BLANK.(state := Init)], born := s.born[p := s.born[p] + 1])
    case Publish(p) => SetState(s, p, Ready).(ready := s.ready + [p])
    case Abort(c, p) => Erase(s, p)
    case KernelEnter(c) => s.(kernelLock := Some(c))
    case KernelExit(c) => s.(kernelLock := None)
    case Mark(p, i, g, w) =>
      s.(procs := s.procs[p := s.procs[p].(interruptible := i, signalled := g, interest := w)])
    case _ => ApplySwitch(s, a)
  }

  // ---- each action keeps the invariant ----

  lemma AppendDistinct(xs: seq<nat>, p: nat)
    requires Distinct(xs) && p !in xs
    ensures Distinct(xs + [p])
    ensures forall q :: q in xs + [p] <==> q in xs || q == p
  {}

  lemma DepartYieldKeeps(s: State, c: nat)
    requires Inv(s) && MayRun(s, c)
    ensures Shape(DepartYield(s, c)) && Placed(DepartYield(s, c), Some(c))
  {
    var p, t := s.current[c], DepartYield(s, c);
    assert RunsOutside(s, None, p) && PlaceMatchesState(s, None, p);
    AppendDistinct(s.ready, p);
    forall q | 0 <= q < SLOTS ensures PlaceMatchesState(t, Some(c), q) {
      assert PlaceMatchesState(s, None, q);
      assert BeingFreed(t, q) == BeingFreed(s, q);
      assert q != p ==> RunsOutside(t, Some(c), q) == RunsOutside(s, None, q);
    }
  }

  lemma DepartExitKeeps(s: State, c: nat)
    requires Inv(s) && MayRun(s, c) && !s.procs[s.current[c]].idle
    ensures Shape(DepartExit(s, c)) && Placed(DepartExit(s, c), Some(c))
  {
    var p, t := s.current[c], DepartExit(s, c);
    assert RunsOutside(s, None, p) && PlaceMatchesState(s, None, p);
    AppendDistinct(s.killed, p);
    forall q | 0 <= q < SLOTS ensures PlaceMatchesState(t, Some(c), q) {
      assert PlaceMatchesState(s, None, q);
      assert BeingFreed(t, q) == BeingFreed(s, q);
      assert q != p ==> RunsOutside(t, Some(c), q) == RunsOutside(s, None, q);
    }
  }

  lemma DepartSleepKeeps(s: State, c: nat, key: int)
    requires Inv(s) && MayRun(s, c) && !s.procs[s.current[c]].idle
    ensures Shape(DepartSleep(s, c, key)) && Placed(DepartSleep(s, c, key), Some(c))
  {
    var p, t := s.current[c], DepartSleep(s, c, key);
    var w := Waiter(p, key);
    assert RunsOutside(s, None, p) && PlaceMatchesState(s, None, p);
    InsertSorted(s.waiting, w);
    InsertMembers(s.waiting, w);
    forall k | 0 <= k < |t.waiting|
      ensures t.waiting[k].slot < SLOTS && t.waiting[k].key == t.procs[t.waiting[k].slot].waitId
    {
      if t.waiting[k] != w {
        assert t.waiting[k] in s.waiting;
      }
    }
    forall q | 0 <= q < SLOTS ensures PlaceMatchesState(t, Some(c), q) {
      assert PlaceMatchesState(s, None, q);
      assert BeingFreed(t, q) == BeingFreed(s, q);
      assert q != p ==> RunsOutside(t, Some(c), q) == RunsOutside(s, None, q);
    }
  }

  lemma SwitchKeeps(s: State, c: nat)
    requires Shape(s) && IsCpu(s, c) && Placed(s, Some(c))
    ensures Shape(Switch(s, c)) && Placed(Switch(s, c), None)
  {
    var t := Switch(s, c);
    var n := t.current[c];
    assert PlaceMatchesState(s, Some(c), n);
    assert s.ready == [] ==> forall d: nat :: d < |s.current| && d != c ==> s.current[d] != n;
    assert !RunsOutside(s, Some(c), n);
    forall q | 0 <= q < SLOTS ensures PlaceMatchesState(t, None, q) {
      assert PlaceMatchesState(s, Some(c), q);
      assert BeingFreed(t, q) == BeingFreed(s, q);
      if q == n {
        assert t.current[c] == q;
      } else {
        assert RunsOutside(t, None, q) == RunsOutside(s, Some(c), q) by {
          if RunsOutside(s, Some(c), q) {
            var d: nat :| d < |s.current| && d != c && s.current[d] == q;
            assert t.current[d] == q;
          }
        }
      }
    }
  }

  lemma SwitchInv(s: State, d: State, c: nat)
    requires Inv(s) && MayRun(s, c)
    requires Shape(d) && Placed(d, Some(c))
    requires d == s.(procs := d.procs, ready := d.ready, waiting := d.waiting, killed := d.killed)
    requires forall p :: 0 <= p < SLOTS && p != s.current[c] ==> d.procs[p] == s.procs[p]
    requires d.procs[s.current[c]].state in {Ready, Sleeping, Killed}
    requires forall p :: p in s.killed ==> p in d.killed
    ensures Inv(Switch(d, c))
  {
    SwitchKeeps(d, c);
    var t := Switch(d, c);
    assert PlaceMatchesState(d, Some(c), t.current[c]);
    assert RunsOutside(s, None, s.current[c]) && PlaceMatchesState(s, None, s.current[c]);
    forall p | 0 <= p < SLOTS
      ensures t.procs[p].state != Unused <==> s.procs[p].state != Unused
      ensures s.procs[p].state == Killed ==> t.procs[p] == s.procs[p]
    {
      assert PlaceMatchesState(d, Some(c), p);
    }
    assert forall p :: OnStack(t, p) <==> OnStack(s, p);
  }

  lemma MoveToReadyKeeps(s: State, p: nat)
    requires Inv(s) && p < SLOTS && s.procs[p].state == Sleeping
    ensures Inv(MoveToReady(s, p))
  {
    MoveToReadyShape(s, p);
    var t := MoveToReady(s, p);
    assert PlaceMatchesState(s, None, p);
    RemoveSlotFacts(s.waiting, p);
    AppendDistinct(s.ready, p);
    forall q | 0 <= q < SLOTS ensures PlaceMatchesState(t, None, q) {
      assert PlaceMatchesState(s, None, q);
      assert BeingFreed(t, q) == BeingFreed(s, q);
      assert RunsOutside(t, None, q) == RunsOutside(s, None, q);
      if q != p {
        assert HasSlot(t.waiting, q) == HasSlot(s.waiting, q) by {
          if HasSlot(s.waiting, q) {
            var k :| 0 <= k < |s.waiting| && s.waiting[k].slot == q;
            assert s.waiting[k] in t.waiting;
          }
        }
      }
    }
    assert forall q :: OnStack(t, q) <==> OnStack(s, q);
  }

  lemma WakeFirst(s: State, ws: seq<Waiter>)
    requires Inv(s) && DistinctSlots(ws) && ws != []
    requires forall i :: 0 <= i < |ws| ==> ws[i] in s.waiting && ws[i].slot < SLOTS
    ensures s.procs[ws[0].slot].state == Sleeping
    ensures forall w :: w in RemoveSlot(s.waiting, ws[0].slot) <==> w in s.waiting && w != ws[0]
    ensures forall i :: 0 <= i < |ws[1..]| ==> ws[1..][i] in RemoveSlot(s.waiting, ws[0].slot)
  {
    var p := ws[0].slot;
    var k :| 0 <= k < |s.waiting| && s.waiting[k] == ws[0];
    assert HasSlot(s.waiting, p) && PlaceMatchesState(s, None, p);
    RemoveSlotFacts(s.waiting, p);
    forall w | w in s.waiting ensures w.slot == p <==> w == ws[0] {
      var j :| 0 <= j < |s.waiting| && s.waiting[j] == w;
    }
    forall i | 0 <= i < |ws[1..]| ensures ws[1..][i] in RemoveSlot(s.waiting, p) {
      assert ws[1..][i] == ws[i + 1];
    }
  }

  lemma {:induction false} WakeAllKeeps(s: State, ws: seq<Waiter>)
    requires Inv(s) && DistinctSlots(ws)
    requires forall i :: 0 <= i < |ws| ==> ws[i] in s.waiting && ws[i].slot < SLOTS
    ensures Inv(WakeAll(s, ws))
    decreases |ws|
  {
    if ws != [] {
      WakeFirst(s, ws);
      MoveToReadyKeeps(s, ws[0].slot);
      WakeAllKeeps(MoveToReady(s, ws[0].slot), ws[1..]);
    }
  }

  lemma HasSlotCons(ws: seq<Waiter>, q: nat)
    requires ws != []
    ensures HasSlot(ws, q) <==> q == ws[0].slot || HasSlot(ws[1..], q)
  {
    if HasSlot(ws, q) && q != ws[0].slot {
      var j :| 0 <= j < |ws| && ws[j].slot == q;
      assert ws[1..][j - 1].slot == q;
    }
  }

  lemma {:induction false} WakeAllFrame(s: State, ws: seq<Waiter>)
    requires Shape(s) && forall i :: 0 <= i < |ws| ==> ws[i].slot < SLOTS
    ensures WakeAll(s, ws).(procs := s.procs, ready := s.ready, waiting := s.waiting) == s
    decreases |ws|
  {
    if ws != [] {
      MoveToReadyShape(s, ws[0].slot);
      WakeAllFrame(MoveToReady(s, ws[0].slot), ws[1..]);
    }
  }

  lemma {:induction false} WakeAllOrder(s: State, ws: seq<Waiter>)
    requires Shape(s) && forall i :: 0 <= i < |ws| ==> ws[i].slot < SLOTS
    ensures WakeAll(s, ws).ready == s.ready + Slots(ws)
    decreases |ws|
  {
    if ws == [] {
      assert Slots(ws) == [];
      Seqs.Nil(s.ready);
    } else {
      MoveToReadyShape(s, ws[0].slot);
      WakeAllOrder(MoveToReady(s, ws[0].slot), ws[1..]);
      SlotsCons(ws);
      Seqs.Assoc(s.ready, [ws[0].slot], Slots(ws[1..]));
    }
  }

  lemma SlotsCons(ws: seq<Waiter>)
    requires ws != []
    ensures Slots(ws) == [ws[0].slot] + Slots(ws[1..])
  {}

  lemma {:induction false} WakeAllState(s: State, ws: seq<Waiter>, p: nat)
    requires Shape(s) && forall i :: 0 <= i < |ws| ==> ws[i].slot < SLOTS
    requires p < SLOTS
    ensures |WakeAll(s, ws).procs| == SLOTS
    ensures WakeAll(s, ws).procs[p] == if HasSlot(ws, p) then s.procs[p].(state := Ready) else s.procs[p]
    decreases |ws|
  {
    if ws != [] {
      MoveToReadyShape(s, ws[0].slot);
      WakeAllState(MoveToReady(s, ws[0].slot), ws[1..], p);
      HasSlotCons(ws, p);
    }
  }

  function Slots(ws: seq<Waiter>): (r: seq<nat>)
    ensures |r| == |ws| && forall i :: 0 <= i < |ws| ==> r[i] == ws[i].slot
  {
    seq(|ws|, i requires 0 <= i < |ws| => ws[i].slot)
  }

  lemma {:induction false} QueueDistinct(ws: seq<Waiter>, key: int)
    requires DistinctSlots(ws)
    ensures DistinctSlots(Queue(ws, key))
  {
    if ws != [] {
      QueueDistinct(ws[1..], key);
      var q := Queue(ws[1..], key);
      forall j | 0 <= j < |q| ensures q[j].slot != ws[0].slot {
        QueueMembers(ws[1..], key, q[j]);
        var k :| 0 <= k < |ws[1..]| && ws[1..][k] == q[j];
        assert ws[k + 1] == q[j];
      }
    }
  }

  lemma {:induction false} InterestedDistinct(s: State, ws: seq<Waiter>, interests: bv64)
    requires forall i :: 0 <= i < |ws| ==> ws[i].slot < |s.procs|
    requires DistinctSlots(ws)
    ensures DistinctSlots(Interested(s, ws, interests))
  {
    if ws != [] {
      InterestedDistinct(s, ws[1..], interests);
      var q := Interested(s, ws[1..], interests);
      forall j | 0 <= j < |q| ensures q[j].slot != ws[0].slot {
        var k :| 0 <= k < |ws[1..]| && ws[1..][k] == q[j];
        assert ws[k + 1] == q[j];
      }
    }
  }

  lemma WokenFacts(s: State, a: Action)
    requires Inv(s) && (a.WakeupN? || a.WakeupPoll?)
    ensures DistinctSlots(Woken(s, a))
    ensures forall i :: 0 <= i < |Woken(s, a)| ==> Woken(s, a)[i] in s.waiting
  {
    var key := if a.WakeupN? then a.key else a.channel;
    QueueSlots(s, key);
    QueueDistinct(s.waiting, key);
    var q := Queue(s.waiting, key);
    forall i | 0 <= i < |q| ensures q[i] in s.waiting {
      QueueMembers(s.waiting, key, q[i]);
    }
    if a.WakeupPoll? {
      InterestedDistinct(s, q, a.interests);
    }
  }

  lemma {:induction false} WithoutFacts(xs: seq<nat>, p: nat)
    requires Distinct(xs)
    ensures Distinct(Without(xs, p))
    ensures forall q :: q in Without(xs, p) <==> q in xs && q != p
  {
    if xs != [] {
      WithoutFacts(xs[1..], p);
      assert forall q :: q in xs <==> q == xs[0] || q in xs[1..];
      assert xs[0] !in xs[1..];
    }
  }

  lemma RemoveVictimKeeps(s: State, c: nat, p: nat)
    requires Inv(s) && IsCpu(s, c) && s.schedLock.None? && s.kernelLock == Some(c)
    requires s.task[c] == NoTask || s.task[c] == Claimed(p)
    requires p in s.killed
    ensures Inv(s.(killed := Without(s.killed, p), task := s.task[c := Freeing(p)]))
  {
    var t := s.(killed := Without(s.killed, p), task := s.task[c := Freeing(p)]);
    WithoutFacts(s.killed, p);
    assert PlaceMatchesState(s, None, p);
    assert BeingFreed(t, p) by { assert t.task[c] == Freeing(p); }
    forall i | 0 <= i < |t.killed| ensures t.killed[i] < SLOTS {
      assert t.killed[i] in t.killed;
    }
    forall q | 0 <= q < SLOTS ensures PlaceMatchesState(t, None, q) {
      assert PlaceMatchesState(s, None, q);
      assert RunsOutside(t, None, q) == RunsOutside(s, None, q);
    }
    assert forall q :: OnStack(t, q) <==> OnStack(s, q);
  }

  lemma YieldKeeps(s: State, c: nat)
    requires Inv(s) && MayRun(s, c)
    ensures Inv(Apply(s, Yield(c)))
  {
    if s.ready != [] {
      DepartYieldKeeps(s, c);
      SwitchInv(s, DepartYield(s, c), c);
    }
  }

  lemma SleepKeeps(s: State, c: nat, key: int)
    requires Inv(s) && MayRun(s, c) && !s.procs[s.current[c]].idle
    ensures (DepartSleepKeeps(s, c, key); Inv(Switch(DepartSleep(s, c, key), c)))
  {
    DepartSleepKeeps(s, c, key);
    SwitchInv(s, DepartSleep(s, c, key), c);
  }

  lemma ExitKeeps(s: State, c: nat)
    requires Inv(s) && Enabled(s, Exit(c))
    ensures Inv(Apply(s, Exit(c)))
  {
    DepartExitKeeps(s, c);
    SwitchInv(s, DepartExit(s, c), c);
  }

  /** Changes that touch neither lists nor CPUs, on slots whose place does not change. */
  lemma SamePlaces(s: State, t: State)
    requires Inv(s) && |t.procs| == SLOTS
    requires t == s.(procs := t.procs, task := t.task, born := t.born, freed := t.freed, kernelLock := t.kernelLock)
    requires |t.task| == |s.task| && |t.born| == |s.born| && |t.freed| == |s.freed|
    requires forall p :: 0 <= p < SLOTS ==>
               && s.procs[p].waitId == t.procs[p].waitId
               && s.procs[p].idle == t.procs[p].idle
               && s.procs[p].state == t.procs[p].state
               && (BeingFreed(s, p) <==> BeingFreed(t, p))
    ensures Shape(t) && Placed(t, None)
  {
    forall q | 0 <= q < SLOTS ensures PlaceMatchesState(t, None, q) {
      assert PlaceMatchesState(s, None, q);
      assert RunsOutside(t, None, q) == RunsOutside(s, None, q);
    }
  }

  lemma NewOrGoneKeeps(s: State, p: nat, st: PState, born: seq<nat>, freed: seq<nat>)
    requires Inv(s) && p < SLOTS
    requires s.procs[p].state in {Init, Unused} && st in {Init, Unused}
    requires |born| == |freed| == SLOTS
    requires forall q :: 0 <= q < SLOTS && q != p ==> born[q] == s.born[q] && freed[q] == s.freed[q]
    requires born[p] == freed[p] + if st == Unused then 0 else 1
    ensures Inv(s.(procs := s.procs[p := BLANK.(state := st)], born := born, freed := freed))
  {
    var t := s.(procs := s.procs[p := BLANK.(state := st)], born := born, freed := freed);
    assert PlaceMatchesState(s, None, p);
    forall q | 0 <= q < SLOTS ensures PlaceMatchesState(t, None, q) {
      assert PlaceMatchesState(s, None, q);
      assert RunsOutside(t, None, q) == RunsOutside(s, None, q);
      assert BeingFreed(t, q) == BeingFreed(s, q);
    }
    forall i | 0 <= i < |t.waiting| ensures t.waiting[i].key == t.procs[t.waiting[i].slot].waitId {
      assert HasSlot(s.waiting, s.waiting[i].slot);
      assert s.waiting[i].slot != p;
    }
    forall d | 0 <= d < |t.current| ensures t.procs[t.current[d]].idle == s.procs[s.current[d]].idle {
      assert RunsOutside(s, None, s.current[d]);
      assert s.current[d] != p;
    }
    assert forall q :: OnStack(t, q) <==> OnStack(s, q);
  }

  lemma FreePlaced(s: State, c: nat)
    requires Inv(s) && Enabled(s, Free(c))
    ensures Shape(Apply(s, Free(c))) && Placed(Apply(s, Free(c)), None)
  {
    var p, t := s.task[c].victim, Apply(s, Free(c));
    assert BeingFreed(s, p);
    assert PlaceMatchesState(s, None, p);
    forall i | 0 <= i < |t.waiting| ensures t.waiting[i].key == t.procs[t.waiting[i].slot].waitId {
      assert HasSlot(s.waiting, s.waiting[i].slot);
      assert s.waiting[i].slot != p;
    }
    forall d | 0 <= d < |t.current| ensures t.procs[t.current[d]].idle == s.procs[s.current[d]].idle {
      assert RunsOutside(s, None, s.current[d]);
      assert s.current[d] != p;
    }
    forall q | 0 <= q < SLOTS ensures PlaceMatchesState(t, None, q) {
      assert PlaceMatchesState(s, None, q);
      assert RunsOutside(t, None, q) == RunsOutside(s, None, q);
      assert q != p ==> BeingFreed(t, q) == BeingFreed(s, q);
    }
  }

  lemma FreeKeeps(s: State, c: nat)
    requires Inv(s) && Enabled(s, Free(c))
    ensures Inv(Apply(s, Free(c)))
  {
    FreePlaced(s, c);
    assert forall q :: OnStack(Apply(s, Free(c)), q) <==> OnStack(s, q);
  }

  lemma PublishKeeps(s: State, p: nat)
    requires Inv(s) && Enabled(s, Publish(p))
    ensures Inv(Apply(s, Publish(p)))
  {
    var t := Apply(s, Publish(p));
    assert PlaceMatchesState(s, None, p);
    AppendDistinct(s.ready, p);
    forall q | 0 <= q < SLOTS ensures PlaceMatchesState(t, None, q) {
      assert PlaceMatchesState(s, None, q);
      assert RunsOutside(t, None, q) == RunsOutside(s, None, q);
      assert BeingFreed(t, q) == BeingFreed(s, q);
    }
    assert forall q :: OnStack(t, q) <==> OnStack(s, q);
  }

  lemma FinishSwitchPlaced(s: State, c: nat)
    requires Inv(s) && Enabled(s, FinishSwitch(c))
    ensures Shape(Apply(s, FinishSwitch(c))) && Placed(Apply(s, FinishSwitch(c)), None)
  {
    var t := Apply(s, FinishSwitch(c));
    forall q | 0 <= q < SLOTS ensures PlaceMatchesState(t, None, q) {
      assert PlaceMatchesState(s, None, q);
      assert RunsOutside(t, None, q) == RunsOutside(s, None, q);
      assert BeingFreed(t, q) == BeingFreed(s, q);
    }
  }

  lemma FinishSwitchKeeps(s: State, c: nat)
    requires Inv(s) && Enabled(s, FinishSwitch(c))
    ensures Inv(Apply(s, FinishSwitch(c)))
  {
    FinishSwitchPlaced(s, c);
    var t := Apply(s, FinishSwitch(c));
    assert RunsOutside(s, None, s.current[c]) && PlaceMatchesState(s, None, s.current[c]);
    forall q | OnStack(t, q) ensures q == s.current[c] || OnStack(s, q) {
      var d: nat :| d < |t.stack| && t.stack[d] == q;
      assert d != c ==> s.stack[d] == q;
    }
  }

  lemma ClaimKeeps(s: State, c: nat, p: nat)
    requires Inv(s) && Enabled(s, WaitClaim(c, p))
    ensures Inv(Apply(s, WaitClaim(c, p)))
  {
    var t := Apply(s, WaitClaim(c, p));
    assert PlaceMatchesState(s, None, p);
    assert !BeingFreed(s, p);
    assert forall q :: 0 <= q < SLOTS ==> (BeingFreed(s, q) <==> BeingFreed(t, q));
    SamePlaces(s, t);
    assert forall q :: OnStack(t, q) <==> OnStack(s, q);
  }

  lemma PlainKeeps(s: State, a: Action)
    requires Inv(s) && Enabled(s, a) && (a.Detach? || a.KernelEnter? || a.KernelExit? || a.Mark?)
    ensures Inv(Apply(s, a))
  {
    var t := Apply(s, a);
    assert forall q :: BeingFreed(t, q) <==> BeingFreed(s, q);
    SamePlaces(s, t);
    assert forall q :: OnStack(t, q) <==> OnStack(s, q);
  }

  lemma RemovalKeeps(s: State, a: Action)
    requires Inv(s) && Enabled(s, a) && (a.WaitRemove? || a.ReapRemove?)
    ensures Inv(Apply(s, a))
  {
    var c := a.cpu;
    if a.WaitRemove? {
      RemoveVictimKeeps(s, c, s.task[c].zombie);
    } else {
      match FirstDetached(s.procs, s.killed)
      case None =>
      case Some(p) => RemoveVictimKeeps(s, c, p);
    }
  }

  lemma WakeActionKeeps(s: State, a: Action)
    requires Inv(s) && Enabled(s, a) && (a.WakeupN? || a.WakeupPoll?)
    ensures Inv(Apply(s, a))
  {
    WokenFacts(s, a);
    WakeAllKeeps(s, Woken(s, a));
  }

  lemma WakeOneKeeps(s: State, a: Action)
    requires Inv(s) && Enabled(s, a) && (a.Wake? || a.Interrupt?)
    ensures Inv(Apply(s, a))
  {
    if s.procs[a.proc].state == Sleeping {
      MoveToReadyKeeps(s, a.proc);
    }
  }

  lemma CreateKeeps(s: State, c: nat, p: nat)
    requires Inv(s) && Enabled(s, Create(c, p))
    ensures Inv(Apply(s, Create(c, p)))
  {
    var born := s.born[p := s.born[p] + 1];
    UnusedIsFree(s, p);
    NewOrGoneKeeps(s, p, Init, born, s.freed);
    assert Apply(s, Create(c, p)) == s.(procs := s.procs[p := BLANK.(state := Init)], born := born, freed := s.freed);
  }

  lemma UnusedIsFree(s: State, p: nat)
    requires Inv(s) && p < SLOTS && s.procs[p].state == Unused
    ensures |s.born| == |s.freed| == SLOTS && s.born[p] == s.freed[p]
  {}

  lemma AbortKeeps(s: State, c: nat, p: nat)
    requires Inv(s) && Enabled(s, Abort(c, p))
    ensures Inv(Apply(s, Abort(c, p)))
  {
    NewOrGoneKeeps(s, p, Unused, s.born, s.freed[p := s.freed[p] + 1]);
    assert BLANK.(state := Unused) == BLANK;
  }

  /** Every action of every CPU keeps the invariant. */
  lemma ApplyKeeps(s: State, a: Action)
    requires Inv(s) && Enabled(s, a)
    ensures Inv(Apply(s, a))
  {
    if a.Yield? {
      YieldKeeps(s, a.cpu);
    } else if a.Sleep? || a.SleepUnlessSignalled? {
      SleepKeeps(s, a.cpu, a.key);
    } else if a.Exit? {
      ExitKeeps(s, a.cpu);
    } else if a.WakeupN? || a.WakeupPoll? {
      WakeActionKeeps(s, a);
    } else if a.Wake? || a.Interrupt? {
      WakeOneKeeps(s, a);
    } else if a.WaitRemove? || a.ReapRemove? {
      RemovalKeeps(s, a);
    } else if a.Create? {
      CreateKeeps(s, a.cpu, a.slot);
    } else if a.Abort? {
      AbortKeeps(s, a.cpu, a.slot);
    } else if a.Publish? {
      PublishKeeps(s, a.slot);
    } else if a.Free? {
      FreeKeeps(s, a.cpu);
    } else if a.FinishSwitch? {
      FinishSwitchKeeps(s, a.cpu);
    } else if a.WaitClaim? {
      ClaimKeeps(s, a.cpu, a.child);
    } else {
      PlainKeeps(s, a);
    }
  }

  // ---- whole runs ----

  /** `n` CPUs, each on its idle process, and every other slot unused. */
  function Boot(n: nat): State
    requires n <= SLOTS
  {
    var ids := seq(n, i requires 0 <= i < n => i);
    State(
      seq(SLOTS, i requires 0 <= i < SLOTS =>
        if i < n then BLANK.(state := Running, idle := true) else BLANK),
      [], [], [], ids, ids, ids, seq(n, i => NoTask), None, None,
      seq(SLOTS, i requires 0 <= i < SLOTS => if i < n then 1 else 0),
      seq(SLOTS, i => 0))
  }

  lemma BootInv(n: nat)
    requires n <= SLOTS
    ensures Inv(Boot(n))
  {
    var s := Boot(n);
    forall p | 0 <= p < SLOTS ensures PlaceMatchesState(s, None, p) {
      if p < n {
        assert s.current[p] == p;
      }
    }
  }

  ghost predicate CanRun(s: State, acts: seq<Action>)
    requires Inv(s)
    decreases |acts|
  {
    acts == [] || (Enabled(s, acts[0]) && (ApplyKeeps(s, acts[0]); CanRun(Apply(s, acts[0]), acts[1..])))
  }

  /** The state after an interleaving of critical sections of all CPUs. */
  ghost function After(s: State, acts: seq<Action>): State
    requires Inv(s) && CanRun(s, acts)
    decreases |acts|
  {
    if acts == [] then s else ApplyKeeps(s, acts[0]); After(Apply(s, acts[0]), acts[1..])
  }

  lemma {:induction false} RunKeeps(s: State, acts: seq<Action>)
    requires Inv(s) && CanRun(s, acts)
    ensures Inv(After(s, acts))
    decreases |acts|
  {
    if acts != [] {
      ApplyKeeps(s, acts[0]);
      RunKeeps(Apply(s, acts[0]), acts[1..]);
    }
  }

  /** In how many places a process is to be found. */
  ghost function PlacesOf(s: State, p: nat): nat {
    (if p in s.ready then 1 else 0) + (if HasSlot(s.waiting, p) then 1 else 0)
    + (if p in s.killed then 1 else 0) + |set c: nat | c < |s.current| && s.current[c] == p|
  }

  /** A live process is in exactly one place and that place is the one its state
      names, no process and no kernel stack is on two CPUs, and no slot is freed
      twice for one creation or freed while some CPU is still on its stack. */
  ghost predicate Safe(s: State, p: nat) {
    && p < |s.procs| && p < |s.born| && p < |s.freed|
    && Distinct(s.current) && Distinct(s.stack)
    && var st := s.procs[p].state;
    && (st in {Ready, Running, Sleeping} && !s.procs[p].idle ==> PlacesOf(s, p) == 1)
    && (st == Killed ==> PlacesOf(s, p) == if BeingFreed(s, p) then 0 else 1)
    && (st in {Unused, Init} ==> PlacesOf(s, p) == 0)
    && (p in s.ready ==> st == Ready) && (HasSlot(s.waiting, p) ==> st == Sleeping)
    && (p in s.killed ==> st == Killed) && (p in s.current ==> st == Running)
    && (BeingFreed(s, p) ==> st == Killed && !OnStack(s, p))
    && s.freed[p] <= s.born[p] <= s.freed[p] + 1
    && (s.born[p] == s.freed[p] <==> st == Unused)
  }

  lemma InvIsSafe(s: State, p: nat)
    requires Inv(s) && p < SLOTS
    ensures Safe(s, p)
  {
    assert PlaceMatchesState(s, None, p);
    assert p in s.current ==> RunsOutside(s, None, p);
    var on := set c: nat | c < |s.current| && s.current[c] == p;
    if RunsOutside(s, None, p) {
      var c: nat :| c < |s.current| && s.current[c] == p;
      assert on == {c};
    } else {
      assert on == {};
    }
  }

  /** Safety over every interleaving of the critical sections of any number of CPUs. */
  lemma EveryRunIsSafe(n: nat, acts: seq<Action>)
    requires n <= SLOTS && (BootInv(n); CanRun(Boot(n), acts))
    ensures (BootInv(n); forall p :: 0 <= p < SLOTS ==> Safe(After(Boot(n), acts), p))
  {
    BootInv(n);
    RunKeeps(Boot(n), acts);
    forall p | 0 <= p < SLOTS ensures Safe(After(Boot(n), acts), p) {
      InvIsSafe(After(Boot(n), acts), p);
    }
  }

  /** The one freeing of a process: it happens to a killed process that has been
      created once more than freed, is on no list and on no CPU's stack, while no
      other CPU has a process in hand. */
  lemma FreeHappensOnce(s: State, acts: seq<Action>, c: nat)
    requires Inv(s) && CanRun(s, acts)
    requires (RunKeeps(s, acts); Enabled(After(s, acts), Free(c)))
    ensures var t := After(s, acts);
      var p := t.task[c].victim;
      && p < SLOTS && t.procs[p].state == Killed && t.born[p] == t.freed[p] + 1
      && PlacesOf(t, p) == 0 && !OnStack(t, p)
      && (forall d :: 0 <= d < |t.task| && d != c ==> t.task[d] == NoTask)
  {
    RunKeeps(s, acts);
    var t := After(s, acts);
    assert BeingFreed(t, t.task[c].victim);
    InvIsSafe(t, t.task[c].victim);
  }

  // ---- one FIFO per channel ----

  /** What an action does to the queue of one wait channel. */
  function QueueStep(s: State, a: Action, key: int): seq<Waiter>
    requires Inv(s) && Enabled(s, a)
  {
    var q := Queue(s.waiting, key);
    match a
    case Sleep(c, k) => if k == key then q + [Waiter(s.current[c], k)] else q
    case SleepUnlessSignalled(c, k) =>
      if k == key && !s.procs[s.current[c]].signalled then q + [Waiter(s.current[c], k)] else q
    case WakeupN(k, count) => if k == key then q[Take(count, |q|)..] else q
    case WakeupPoll(k, i) => if k == key then QueueSlots(s, key); Uninterested(s, q, i) else q
    case Wake(p) => if s.procs[p].state == Sleeping then RemoveSlot(q, p) else q
    case Interrupt(p) =>
      if s.procs[p].state == Sleeping && s.procs[p].interruptible then RemoveSlot(q, p) else q
    case _ => q
  }

  function Uninterested(s: State, ws: seq<Waiter>, interests: bv64): seq<Waiter>
    requires forall i :: 0 <= i < |ws| ==> ws[i].slot < |s.procs|
  {
    if ws == [] then []
    else
      (if Overlap(s.procs[ws[0].slot].interest, interests) then [] else [ws[0]])
      + Uninterested(s, ws[1..], interests)
  }

  function RemoveAll(q: seq<Waiter>, ws: seq<Waiter>): seq<Waiter>
    decreases |ws|
  {
    if ws == [] then q else RemoveAll(RemoveSlot(q, ws[0].slot), ws[1..])
  }

  lemma {:induction false} WakeAllQueue(s: State, ws: seq<Waiter>, key: int)
    requires Shape(s) && DistinctSlots(s.waiting)
    requires forall i :: 0 <= i < |ws| ==> ws[i].slot < SLOTS
    ensures Queue(WakeAll(s, ws).waiting, key) == RemoveAll(Queue(s.waiting, key), ws)
    decreases |ws|
  {
    if ws != [] {
      MoveToReadyShape(s, ws[0].slot);
      RemoveSlotFacts(s.waiting, ws[0].slot);
      RemoveQueue(s.waiting, ws[0].slot, key);
      WakeAllQueue(MoveToReady(s, ws[0].slot), ws[1..], key);
    }
  }

  lemma {:induction false} RemovePrefix(q: seq<Waiter>, n: nat)
    requires n <= |q|
    ensures RemoveAll(q, q[..n]) == q[n..]
    decreases n
  {
    if n > 0 {
      assert q[..n][1..] == q[1..][..n - 1];
      RemovePrefix(q[1..], n - 1);
      assert q[1..][n - 1..] == q[n..];
    }
  }

  lemma {:induction false} RemoveDisjoint(q: seq<Waiter>, ws: seq<Waiter>)
    requires forall i, j :: 0 <= i < |q| && 0 <= j < |ws| ==> q[i].slot != ws[j].slot
    ensures RemoveAll(q, ws) == q
    decreases |ws|
  {
    if ws != [] {
      RemoveAbsent(q, ws[0].slot);
      RemoveDisjoint(q, ws[1..]);
    }
  }

  /** Waking part of a stretch of the tree leaves the rest of it in order. */
  lemma {:induction false} PassStretch(s: State, a: seq<Waiter>, q: seq<Waiter>, b: seq<Waiter>, interests: bv64)
    requires DistinctSlots(a + q + b) && forall i :: 0 <= i < |q| ==> q[i].slot < |s.procs|
    ensures RemoveAll(a + q + b, Interested(s, q, interests)) == a + Uninterested(s, q, interests) + b
    ensures DistinctSlots(a + Uninterested(s, q, interests) + b)
    decreases |q|
  {
    if q != [] {
      var rest := q[1..];
      Regroup(a, q, b);
      if Overlap(s.procs[q[0].slot].interest, interests) {
        DropMiddle(a, q[0], rest + b);
        PassStretch(s, a, rest, b, interests);
        Seqs.Cons(q[0], Interested(s, rest, interests));
        Seqs.Nil(Uninterested(s, rest, interests));
      } else {
        PassStretch(s, a + [q[0]], rest, b, interests);
        Regroup(a, [q[0]] + Uninterested(s, rest, interests), b);
        Seqs.Cons(q[0], Uninterested(s, rest, interests));
      }
    }
  }

  lemma Regroup(a: seq<Waiter>, q: seq<Waiter>, b: seq<Waiter>)
    requires q != []
    ensures a + q + b == a + [q[0]] + (q[1..] + b) == (a + [q[0]]) + q[1..] + b
    ensures a + (q[1..] + b) == a + q[1..] + b
  {}

  lemma RemoveInterested(s: State, q: seq<Waiter>, interests: bv64)
    requires forall i :: 0 <= i < |q| ==> q[i].slot < |s.procs|
    requires DistinctSlots(q)
    ensures RemoveAll(q, Interested(s, q, interests)) == Uninterested(s, q, interests)
  {
    Seqs.Nil(q);
    PassStretch(s, [], q, [], interests);
    Seqs.Nil(Uninterested(s, q, interests));
  }

  lemma OtherQueueDisjoint(s: State, key: int, ws: seq<Waiter>)
    requires Inv(s) && forall j :: 0 <= j < |ws| ==> ws[j] in s.waiting && ws[j].key != key
    ensures RemoveAll(Queue(s.waiting, key), ws) == Queue(s.waiting, key)
  {
    var q := Queue(s.waiting, key);
    forall i, j | 0 <= i < |q| && 0 <= j < |ws| ensures q[i].slot != ws[j].slot {
      QueueMembers(s.waiting, key, q[i]);
      var x :| 0 <= x < |s.waiting| && s.waiting[x] == q[i];
      var y :| 0 <= y < |s.waiting| && s.waiting[y] == ws[j];
      assert s.waiting[x].key != s.waiting[y].key;
    }
    RemoveDisjoint(q, ws);
  }

  lemma WakeQueueStep(s: State, a: Action, key: int)
    requires Inv(s) && Enabled(s, a) && (a.WakeupN? || a.WakeupPoll?)
    ensures Queue(Apply(s, a).waiting, key) == QueueStep(s, a, key)
  {
    WokenFacts(s, a);
    var ws, q := Woken(s, a), Queue(s.waiting, key);
    WakeAllQueue(s, ws, key);
    var k := if a.WakeupN? then a.key else a.channel;
    QueueSlots(s, k);
    if k != key {
      forall j | 0 <= j < |ws| ensures ws[j].key != key {
        QueueMembers(s.waiting, k, ws[j]);
      }
      OtherQueueDisjoint(s, key, ws);
    } else if a.WakeupN? {
      RemovePrefix(q, Take(a.count, |q|));
    } else {
      QueueDistinct(s.waiting, key);
      RemoveInterested(s, q, a.interests);
    }
  }

  /** The wait tree refines one FIFO per channel, whatever the action: sleepers join
      at the tail, a wake-up of `n` takes the `n` longest waiting, and single
      wake-ups take out one process without disturbing the others. */
  lemma TreeIsFifoPerChannel(s: State, a: Action, key: int)
    requires Inv(s) && Enabled(s, a)
    ensures Queue(Apply(s, a).waiting, key) == QueueStep(s, a, key)
    ensures a.WakeupN? || a.WakeupPoll? ==> Apply(s, a).ready == s.ready + Slots(Woken(s, a))
  {
    match a
    case Sleep(c, k) => InsertQueue(s.waiting, Waiter(s.current[c], k), key);
      assert Queue(s.waiting, key) + [] == Queue(s.waiting, key);
    case SleepUnlessSignalled(c, k) => InsertQueue(s.waiting, Waiter(s.current[c], k), key);
      assert Queue(s.waiting, key) + [] == Queue(s.waiting, key);
    case WakeupN(_, _) => WakeQueueStep(s, a, key); WakeAllOrder(s, Woken(s, a));
    case WakeupPoll(_, _) => WakeQueueStep(s, a, key); WakeAllOrder(s, Woken(s, a));
    case Wake(p) => RemoveQueue(s.waiting, p, key);
    case Interrupt(p) => RemoveQueue(s.waiting, p, key);
    case _ =>
  }

  // ---- what an action does to one process ----

  predicate Switches(b: Action) {
    b.Yield? || b.Sleep? || b.SleepUnlessSignalled? || b.Exit?
  }

  lemma SwitchEffect(d: State, c: nat, p: nat)
    requires Shape(d) && IsCpu(d, c) && Placed(d, Some(c)) && p < SLOTS
    ensures d.procs[p].state in {Sleeping, Running} ==> Switch(d, c).procs[p] == d.procs[p]
    ensures Switch(d, c).procs[p].waitId == d.procs[p].waitId && Switch(d, c).procs[p].interest == d.procs[p].interest
    ensures d.procs[p].state != Sleeping ==> Switch(d, c).procs[p].state != Sleeping
  {
    assert PlaceMatchesState(d, Some(c), Switch(d, c).current[c]);
    if d.ready == [] {
      assert forall e: nat :: e < |d.current| && e != c ==> d.current[e] != d.idleOf[c];
    }
  }

  lemma SwitchSpares(s: State, b: Action, p: nat)
    requires Inv(s) && Enabled(s, b) && Switches(b) && p < SLOTS && p != s.current[b.cpu]
    ensures |Apply(s, b).procs| == SLOTS
    ensures s.procs[p].state in {Sleeping, Running} ==> Apply(s, b).procs[p].state == s.procs[p].state
    ensures s.procs[p].state != Sleeping ==> Apply(s, b).procs[p].state != Sleeping
    ensures Apply(s, b).procs[p].waitId == s.procs[p].waitId && Apply(s, b).procs[p].interest == s.procs[p].interest
  {
    var c := b.cpu;
    if b.Yield? {
      if s.ready != [] {
        DepartYieldKeeps(s, c);
        SwitchEffect(DepartYield(s, c), c, p);
      }
    } else if b.Exit? {
      DepartExitKeeps(s, c);
      SwitchEffect(DepartExit(s, c), c, p);
    } else {
      DepartSleepKeeps(s, c, b.key);
      SwitchEffect(DepartSleep(s, c, b.key), c, p);
    }
  }

  lemma SwitchSelf(s: State, b: Action)
    requires Inv(s) && Enabled(s, b) && Switches(b)
    ensures |Apply(s, b).procs| == SLOTS
    ensures var me := Apply(s, b).procs[s.current[b.cpu]];
      me.state == Sleeping ==> (b.Sleep? || b.SleepUnlessSignalled?) && me.waitId == b.key
  {
    var c := b.cpu;
    var p := s.current[c];
    assert RunsOutside(s, None, p) && PlaceMatchesState(s, None, p);
    if b.Yield? && s.ready != [] {
      DepartYieldKeeps(s, c);
      SwitchEffect(DepartYield(s, c), c, p);
    } else if b.Exit? {
      DepartExitKeeps(s, c);
      SwitchEffect(DepartExit(s, c), c, p);
    }
  }

  lemma WokenSleep(s: State, b: Action, p: nat)
    requires Inv(s) && Enabled(s, b) && (b.WakeupN? || b.WakeupPoll?) && p < SLOTS
    requires HasSlot(Woken(s, b), p)
    ensures s.procs[p].state == Sleeping
  {
    WokenFacts(s, b);
    var ws := Woken(s, b);
    var j :| 0 <= j < |ws| && ws[j].slot == p;
    var k :| 0 <= k < |s.waiting| && s.waiting[k] == ws[j];
    assert HasSlot(s.waiting, p) && PlaceMatchesState(s, None, p);
  }

  /** Actions that neither switch context nor wake anyone. */
  lemma PlainStep(s: State, b: Action, p: nat)
    requires Inv(s) && Enabled(s, b) && p < SLOTS
    requires !Switches(b) && !b.WakeupN? && !b.WakeupPoll? && !b.Wake? && !b.Interrupt?
    ensures var t := Apply(s, b);
      && |t.procs| == SLOTS && t.current == s.current
      && (t.procs[p].state == Sleeping <==> s.procs[p].state == Sleeping)
      && (s.procs[p].state in {Sleeping, Running} ==>
            && t.procs[p].state == s.procs[p].state && t.procs[p].waitId == s.procs[p].waitId
            && (t.procs[p].interest == s.procs[p].interest || (b.Mark? && b.proc == p)))
      && (t.kernelLock == s.kernelLock || b.KernelEnter? || b.KernelExit?)
  {}

  lemma SleepsNow(s: State, c: nat, key: int)
    requires Inv(s) && Enabled(s, SleepUnlessSignalled(c, key)) && !s.procs[s.current[c]].signalled
    ensures var t := Apply(s, SleepUnlessSignalled(c, key));
      && |t.procs| == SLOTS
      && t.procs[s.current[c]] == s.procs[s.current[c]].(state := Sleeping, waitId := key)
  {
    var p := s.current[c];
    assert RunsOutside(s, None, p) && PlaceMatchesState(s, None, p);
    DepartSleepKeeps(s, c, key);
    SwitchEffect(DepartSleep(s, c, key), c, p);
  }
}
