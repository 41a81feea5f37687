/** Futex wait and wake under the kernel lock.

    `futex_wait` compares the word and goes to sleep without letting go of the
    kernel lock in between; the lock is dropped only when the waiter is already
    in the wait tree.  `futex_wake` runs under the same lock.  User code may
    store to the word at any time.
 */
module Futex {
  import opened Basics
  import opened WaitTree
  import opened Scheduler
  import opened FutexKeys

  /** `word` is user memory; `waiting` holds the processes that have found the expected
      value and whose wait has not ended, with their words. */
  datatype Futex = Futex(s: State, word: map<Word, bv32>, waiting: map<nat, Word>)

  datatype FutexAction =
    | Store(w: Word, value: bv32)
    | Check(cpu: nat, asked: Asked, expected: bv32)
    | GoToSleep(cpu: nat)
    | WakeWaiters(cpu: nat, asked: Asked, count: int)
    | Timeout(proc: nat)
    | Signal(proc: nat)
    | Other(a: Action)

  /** A waiter is in the tree on its key, or it runs and its CPU has the kernel lock. */
  ghost predicate WaiterPlaced(m: Futex, p: nat)
    requires p in m.waiting
  {
    && p < |m.s.procs|
    && ((m.s.procs[p].state == Sleeping && m.s.procs[p].waitId == Key(m.waiting[p]))
        || (m.s.procs[p].state == Running
            && exists c: nat :: c < |m.s.current| && m.s.current[c] == p && m.s.kernelLock == Some(c)))
  }

  ghost predicate FutexInv(m: Futex) {
    && Inv(m.s)
    && (forall p :: p in m.waiting ==> WaiterPlaced(m, p))
    && (forall p :: 0 <= p < SLOTS && m.s.procs[p].state == Sleeping && IsFutexKey(m.s.procs[p].waitId) ==>
          p in m.waiting)
  }

  /** CPU `c` is not inside a futex wait between the comparison and the sleep. */
  predicate Outside(m: Futex, c: nat) {
    c < |m.s.current| && m.s.current[c] !in m.waiting
  }

  /** The CPU an action runs on, where it matters which. */
  function CpuOf(a: Action): Option<nat> {
    match a
    case Yield(c) => Some(c)
    case Sleep(c, _) => Some(c)
    case SleepUnlessSignalled(c, _) => Some(c)
    case Exit(c) => Some(c)
    case FinishSwitch(c) => Some(c)
    case Detach(c, _) => Some(c)
    case WaitClaim(c, _) => Some(c)
    case WaitRemove(c) => Some(c)
    case ReapRemove(c) => Some(c)
    case Free(c) => Some(c)
    case Create(c, _) => Some(c)
    case Abort(c, _) => Some(c)
    case KernelEnter(c) => Some(c)
    case KernelExit(c) => Some(c)
    case _ => None
  }

  predicate FutexEnabled(m: Futex, a: FutexAction)
    requires |m.s.procs| == SLOTS
    requires forall c :: 0 <= c < |m.s.current| ==> m.s.current[c] < SLOTS
  {
    match a
    case Store(_, _) => true
    case Check(c, _, _) =>
      && MayRun(m.s, c) && m.s.kernelLock == Some(c) && Outside(m, c)
      && !m.s.procs[m.s.current[c]].idle
    case GoToSleep(c) => MayRun(m.s, c) && !Outside(m, c) && !m.s.procs[m.s.current[c]].idle
    case WakeWaiters(c, _, _) =>
      IsCpu(m.s, c) && m.s.kernelLock == Some(c) && m.s.schedLock.None? && Outside(m, c)
    case Timeout(p) => m.s.schedLock.None? && p < SLOTS
    case Signal(p) => m.s.schedLock.None? && p < SLOTS
    case Other(b) =>
      && Enabled(m.s, b)
      && !b.Wake? && !b.Interrupt?
      && (b.WakeupN? ==> !IsFutexKey(b.key)) && (b.WakeupPoll? ==> !IsFutexKey(b.channel))
      && (b.Sleep? || b.SleepUnlessSignalled? ==> !IsFutexKey(b.key))
      && (CpuOf(b).Some? ==> Outside(m, CpuOf(b).value))
  }

  /** Those whose wait has not ended when `b` may have made sleepers ready. */
  function StillWaiting(m: Futex, b: Action): map<nat, Word>
    requires Inv(m.s) && Enabled(m.s, b)
  {
    var t := Apply(m.s, b);
    map p | p in m.waiting && p < |t.procs| && t.procs[p].state != Ready :: m.waiting[p]
  }

  function FutexApply(m: Futex, a: FutexAction): Futex
    requires FutexInv(m) && FutexEnabled(m, a)
  {
    match a
    case Store(w, v) => m.(word := m.word[w := v])
    case Check(c, asked, expected) =>
      var w := Named(asked);
      if w.Some? && w.value in m.word && m.word[w.value] == expected then
        m.(waiting := m.waiting[m.s.current[c] := w.value])
      else m
    case GoToSleep(c) =>
      var p := m.s.current[c];
      if m.s.procs[p].signalled then m.(waiting := m.waiting - {p})
      else m.(s := Apply(m.s, SleepUnlessSignalled(c, Key(m.waiting[p]))))
    case WakeWaiters(c, asked, count) =>
      if Named(asked).None? then m
      else
        var b := WakeupN(Key(Named(asked).value), count);
        m.(s := Apply(m.s, b), waiting := StillWaiting(m, b))
    case Timeout(p) => m.(s := Apply(m.s, Wake(p)), waiting := StillWaiting(m, Wake(p)))
    case Signal(p) => m.(s := Apply(m.s, Interrupt(p)), waiting := StillWaiting(m, Interrupt(p)))
    case Other(b) => m.(s := Apply(m.s, b))
  }

  // ---- preservation ----

  predicate Allowed(m: Futex, b: Action)
    requires |m.s.procs| == SLOTS
    requires forall c :: 0 <= c < |m.s.current| ==> m.s.current[c] < SLOTS
  {
    FutexEnabled(m, FutexAction.Other(b))
  }

  lemma OtherWakesSpare(s: State, b: Action, p: nat)
    requires Inv(s) && (b.WakeupN? || b.WakeupPoll?) && Enabled(s, b) && p < SLOTS
    requires s.procs[p].state == Sleeping
    requires s.procs[p].waitId != if b.WakeupN? then b.key else b.channel
    ensures !HasSlot(Woken(s, b), p)
  {
    var key := if b.WakeupN? then b.key else b.channel;
    var ws := Woken(s, b);
    WokenFacts(s, b);
    QueueSlots(s, key);
    forall j | 0 <= j < |ws| ensures ws[j].slot != p {
      QueueMembers(s.waiting, key, ws[j]);
      var k :| 0 <= k < |s.waiting| && s.waiting[k] == ws[j];
      assert s.waiting[k].key == s.procs[s.waiting[k].slot].waitId;
    }
  }

  /** What others do leaves a sleeping futex waiter alone and makes no new one. */
  lemma SleeperStable(s: State, b: Action, p: nat)
    requires Inv(s) && Enabled(s, b) && p < SLOTS && !b.Wake? && !b.Interrupt?
    requires b.WakeupN? ==> !IsFutexKey(b.key)
    requires b.WakeupPoll? ==> !IsFutexKey(b.channel)
    requires b.Sleep? || b.SleepUnlessSignalled? ==> !IsFutexKey(b.key)
    ensures |Apply(s, b).procs| == SLOTS
    ensures var u, v := s.procs[p], Apply(s, b).procs[p];
      && (u.state == Sleeping && IsFutexKey(u.waitId) ==> v.state == Sleeping && v.waitId == u.waitId)
      && (v.state == Sleeping && IsFutexKey(v.waitId) ==> u.state == Sleeping && v.waitId == u.waitId)
  {
    if b.WakeupN? || b.WakeupPoll? {
      WakeAllState(s, Woken(s, b), p);
      if s.procs[p].state == Sleeping && IsFutexKey(s.procs[p].waitId) {
        OtherWakesSpare(s, b, p);
      }
    } else if !Switches(b) {
      PlainStep(s, b, p);
    } else if p == s.current[b.cpu] {
      assert RunsOutside(s, None, p) && PlaceMatchesState(s, None, p);
      SwitchSelf(s, b);
    } else {
      SwitchSpares(s, b, p);
    }
  }

  lemma SwitchOther(s: State, b: Action, c: nat)
    requires Inv(s) && Enabled(s, b) && Switches(b)
    requires c < |s.current| && c != b.cpu && s.kernelLock == Some(c)
    ensures var t := Apply(s, b);
      c < |t.current| && t.current[c] == s.current[c] && t.kernelLock == Some(c)
  {}

  lemma RunnerStable(s: State, b: Action, p: nat, c: nat)
    requires Inv(s) && Enabled(s, b) && !b.Wake? && !b.Interrupt? && CpuOf(b) != Some(c)
    requires c < |s.current| && s.current[c] == p && s.kernelLock == Some(c) && s.procs[p].state == Running
    ensures var t := Apply(s, b);
      && p < |t.procs| && t.procs[p].state == Running
      && c < |t.current| && t.current[c] == p && t.kernelLock == Some(c)
  {
    if b.WakeupN? || b.WakeupPoll? {
      WakeAllState(s, Woken(s, b), p);
      WakeAllFrame(s, Woken(s, b));
      if HasSlot(Woken(s, b), p) {
        WokenSleep(s, b, p);
      }
    } else if Switches(b) {
      SwitchOther(s, b, c);
      assert p != s.current[b.cpu];
      SwitchSpares(s, b, p);
    } else {
      PlainStep(s, b, p);
    }
  }

  lemma OtherKeeps(m: Futex, b: Action)
    requires FutexInv(m) && Allowed(m, b)
    ensures FutexInv(m.(s := Apply(m.s, b)))
  {
    ApplyKeeps(m.s, b);
    var t := m.(s := Apply(m.s, b));
    forall p | p in t.waiting ensures WaiterPlaced(t, p) {
      assert WaiterPlaced(m, p);
      SleeperStable(m.s, b, p);
      if m.s.procs[p].state == Running {
        var c: nat :| c < |m.s.current| && m.s.current[c] == p && m.s.kernelLock == Some(c);
        RunnerStable(m.s, b, p, c);
      }
    }
    forall p | 0 <= p < SLOTS && t.s.procs[p].state == Sleeping && IsFutexKey(t.s.procs[p].waitId)
      ensures p in t.waiting
    {
      SleeperStable(m.s, b, p);
    }
  }

  lemma GoToSleepKeeps(m: Futex, c: nat)
    requires FutexInv(m) && FutexEnabled(m, GoToSleep(c))
    ensures FutexInv(FutexApply(m, GoToSleep(c)))
  {
    var me := m.s.current[c];
    assert WaiterPlaced(m, me);
    assert RunsOutside(m.s, None, me) && PlaceMatchesState(m.s, None, me);
    var t := FutexApply(m, GoToSleep(c));
    if m.s.procs[me].signalled {
      forall p | p in t.waiting ensures WaiterPlaced(t, p) {
        assert WaiterPlaced(m, p);
      }
    } else {
      var b := SleepUnlessSignalled(c, Key(m.waiting[me]));
      ApplyKeeps(m.s, b);
      SleepsNow(m.s, c, Key(m.waiting[me]));
      forall p | p in t.waiting && p != me ensures WaiterPlaced(t, p) {
        assert WaiterPlaced(m, p);
        assert m.s.procs[p].state == Sleeping;
        SwitchSpares(m.s, b, p);
      }
      forall p | 0 <= p < SLOTS && p != me && t.s.procs[p].state == Sleeping && IsFutexKey(t.s.procs[p].waitId)
        ensures p in t.waiting
      {
        SwitchSpares(m.s, b, p);
      }
    }
  }

  /** Steps that may make sleepers ready and do nothing else. */
  lemma WakingKeeps(m: Futex, b: Action)
    requires FutexInv(m) && Enabled(m.s, b) && (b.WakeupN? || b.Wake? || b.Interrupt?)
    ensures FutexInv(m.(s := Apply(m.s, b), waiting := StillWaiting(m, b)))
  {
    ApplyKeeps(m.s, b);
    var t := m.(s := Apply(m.s, b), waiting := StillWaiting(m, b));
    forall p | 0 <= p < SLOTS
      ensures t.s.procs[p] == m.s.procs[p]
              || (m.s.procs[p].state == Sleeping && t.s.procs[p].state == Ready)
    {
      OnlySleepersChange(m.s, b, p);
    }
    WakeFrame(m.s, b);
    forall p | p in t.waiting ensures WaiterPlaced(t, p) {
      assert WaiterPlaced(m, p);
    }
  }

  lemma OnlySleepersChange(s: State, b: Action, p: nat)
    requires Inv(s) && Enabled(s, b) && (b.WakeupN? || b.Wake? || b.Interrupt?) && p < SLOTS
    ensures |Apply(s, b).procs| == SLOTS
    ensures Apply(s, b).procs[p] == s.procs[p]
            || (s.procs[p].state == Sleeping && Apply(s, b).procs[p].state == Ready)
  {
    if b.WakeupN? {
      WakeAllState(s, Woken(s, b), p);
      if HasSlot(Woken(s, b), p) {
        WokenSleep(s, b, p);
      }
    }
  }

  lemma WakeFrame(s: State, b: Action)
    requires Inv(s) && Enabled(s, b) && (b.WakeupN? || b.Wake? || b.Interrupt?)
    ensures Apply(s, b).current == s.current && Apply(s, b).kernelLock == s.kernelLock
  {
    if b.WakeupN? {
      WakeAllFrame(s, Woken(s, b));
    }
  }

  lemma FutexKeeps(m: Futex, a: FutexAction)
    requires FutexInv(m) && FutexEnabled(m, a)
    ensures FutexInv(FutexApply(m, a))
  {
    match a
    case Store(_, _) =>
      var t := FutexApply(m, a);
      forall p | p in t.waiting ensures WaiterPlaced(t, p) { assert WaiterPlaced(m, p); }
    case Check(c, _, _) =>
      var t, me := FutexApply(m, a), m.s.current[c];
      assert RunsOutside(m.s, None, me) && PlaceMatchesState(m.s, None, me);
      forall p | p in t.waiting ensures WaiterPlaced(t, p) { assert p in m.waiting ==> WaiterPlaced(m, p); }
    case GoToSleep(c) => GoToSleepKeeps(m, c);
    case WakeWaiters(_, asked, count) =>
      if Named(asked).Some? {
        WakingKeeps(m, WakeupN(Key(Named(asked).value), count));
      }
    case Timeout(p) => WakingKeeps(m, Wake(p));
    case Signal(p) => WakingKeeps(m, Interrupt(p));
    case Other(b) => OtherKeeps(m, b);
  }

  // ---- no lost wake-up ----

  /** When a wake-up of a word runs, everyone who has seen the expected value of a word with
      its key and is still waiting is in the tree, and only they are. */
  lemma WaitersAreInTree(m: Futex, c: nat, asked: Asked, w: Word, count: int, p: nat)
    requires FutexInv(m) && FutexEnabled(m, WakeWaiters(c, asked, count)) && Named(asked) == Some(w)
    ensures p in m.waiting && Key(m.waiting[p]) == Key(w) <==> HasSlot(Queue(m.s.waiting, Key(w)), p)
  {
    var key := Key(w);
    var q := Queue(m.s.waiting, key);
    if p in m.waiting && Key(m.waiting[p]) == key {
      assert WaiterPlaced(m, p) && PlaceMatchesState(m.s, None, p);
      assert m.s.procs[p].state == Sleeping;
      var k :| 0 <= k < |m.s.waiting| && m.s.waiting[k].slot == p;
      QueueMembers(m.s.waiting, key, m.s.waiting[k]);
      var j :| 0 <= j < |q| && q[j] == m.s.waiting[k];
    }
    if HasSlot(q, p) {
      var j :| 0 <= j < |q| && q[j].slot == p;
      QueueMembers(m.s.waiting, key, q[j]);
      var k :| 0 <= k < |m.s.waiting| && m.s.waiting[k] == q[j];
      assert HasSlot(m.s.waiting, p) && PlaceMatchesState(m.s, None, p);
      assert WaiterPlaced(m, p);
    }
  }

  ghost predicate CanFutex(m: Futex, acts: seq<FutexAction>)
    requires FutexInv(m)
    decreases |acts|
  {
    acts == [] || (FutexEnabled(m, acts[0]) && (FutexKeeps(m, acts[0]); CanFutex(FutexApply(m, acts[0]), acts[1..])))
  }

  ghost function AfterFutex(m: Futex, acts: seq<FutexAction>): Futex
    requires FutexInv(m) && CanFutex(m, acts)
    decreases |acts|
  {
    if acts == [] then m else FutexKeeps(m, acts[0]); AfterFutex(FutexApply(m, acts[0]), acts[1..])
  }

  lemma {:induction false} FutexRunKeeps(m: Futex, acts: seq<FutexAction>)
    requires FutexInv(m) && CanFutex(m, acts)
    ensures FutexInv(AfterFutex(m, acts))
    decreases |acts|
  {
    if acts != [] {
      FutexKeeps(m, acts[0]);
      FutexRunKeeps(FutexApply(m, acts[0]), acts[1..]);
    }
  }

  /** No lost wake-up, and no queue jumping.  After any run, a wake-up of `w` makes ready
      exactly the min(count, waiters) longest waiting of those that saw the expected value of
      a word with its key and have not been released, in the order they went to sleep. */
  lemma NoLostFutexWakeup(m: Futex, acts: seq<FutexAction>, c: nat, asked: Asked, w: Word, count: int)
    requires FutexInv(m) && CanFutex(m, acts) && Named(asked) == Some(w)
    requires (FutexRunKeeps(m, acts); FutexEnabled(AfterFutex(m, acts), WakeWaiters(c, asked, count)))
    ensures (FutexRunKeeps(m, acts);
      var u := AfterFutex(m, acts);
      var v := FutexApply(u, WakeWaiters(c, asked, count));
      var q := Queue(u.s.waiting, Key(w));
      var n := Take(count, |q|);
      && (forall p: nat :: p in u.waiting && Key(u.waiting[p]) == Key(w) <==> HasSlot(q, p))
      && v.s.ready == u.s.ready + Slots(q[..n])
      && Queue(v.s.waiting, Key(w)) == q[n..])
  {
    FutexRunKeeps(m, acts);
    var u := AfterFutex(m, acts);
    var key := Key(w);
    forall p: nat ensures p in u.waiting && Key(u.waiting[p]) == key <==> HasSlot(Queue(u.s.waiting, key), p) {
      WaitersAreInTree(u, c, asked, w, count, p);
    }
    TreeIsFifoPerChannel(u.s, WakeupN(key, count), key);
  }

  // ---- words that share a key ----

  /** Somebody waits on another word with the same key. */
  ghost predicate Crowded(m: Futex, w: Word) {
    exists p :: p in m.waiting && m.waiting[p] != w && Key(m.waiting[p]) == Key(w)
  }

  /** The sleepers a wake-up of `w` chooses from are the waiters of `w` if and only if nobody
      waits on another word with its key. */
  lemma OwnWaitersIff(m: Futex, c: nat, asked: Asked, w: Word, count: int)
    requires FutexInv(m) && FutexEnabled(m, WakeWaiters(c, asked, count)) && Named(asked) == Some(w)
    ensures (forall p: nat :: p in m.waiting && m.waiting[p] == w <==> HasSlot(Queue(m.s.waiting, Key(w)), p)) <==>
      !Crowded(m, w)
  {
    forall p: nat
      ensures p in m.waiting && Key(m.waiting[p]) == Key(w) <==> HasSlot(Queue(m.s.waiting, Key(w)), p)
    {
      WaitersAreInTree(m, c, asked, w, count, p);
    }
  }

  /** A wake-up of one, when the longest waiting with the key waits on another word, makes
      that one ready; the waiters of `w` sleep on. */
  lemma WrongWordWoken(m: Futex, c: nat, asked: Asked, w: Word, p: nat)
    requires FutexInv(m) && FutexEnabled(m, WakeWaiters(c, asked, 1)) && Named(asked) == Some(w)
    requires p in m.waiting && m.waiting[p] == w
    requires var q := Queue(m.s.waiting, Key(w)); q != [] && q[0].slot in m.waiting && m.waiting[q[0].slot] != w
    ensures var v := FutexApply(m, WakeWaiters(c, asked, 1));
      v.s.ready == m.s.ready + [Queue(m.s.waiting, Key(w))[0].slot] && HasSlot(v.s.waiting, p)
  {
    var key := Key(w);
    var q := Queue(m.s.waiting, key);
    var v := FutexApply(m, WakeWaiters(c, asked, 1));
    WaitersAreInTree(m, c, asked, w, 1, p);
    TreeIsFifoPerChannel(m.s, WakeupN(key, 1), key);
    assert q[..1] == [q[0]] && Slots(q[..1]) == [q[0].slot];
    var j :| 0 <= j < |q| && q[j].slot == p;
    assert q[1..][j - 1] == q[j];
    QueueMembers(v.s.waiting, key, q[j]);
  }

  lemma BootIsQuiet(n: nat, word: map<Word, bv32>)
    requires n <= SLOTS
    ensures FutexInv(Futex(Boot(n), word, map[]))
  {
    BootInv(n);
  }
}
