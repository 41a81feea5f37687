/** Waiting for poll events: `poll_wait` against `process_wakeup_poll`.

    A waiter reads the wake sequence number, scans its descriptors without any
    lock, and then sleeps only if the number has not moved.  A wake-up first
    bumps the number and only later, under `sched_lock`, passes over the
    sleepers.  The machine below interleaves these steps with everything else
    the scheduler does.
 */
module PollWait {
  import opened Basics
  import Seqs
  import opened WaitTree
  import opened Scheduler

  const POLL: int := 0x38000000

  /** `wakes` counts the bumps, so `poll_wake_seq` is `wakes % WORD`.  `token` is the
      count at a process's last reading and `slept` at its last falling asleep; `flying`
      and `done` are the wake-ups, by number, that have yet to make and that have made
      their pass. */
  datatype Poll = Poll(
    s: State,
    wakes: nat,
    token: map<nat, nat>,
    slept: map<nat, nat>,
    flying: map<nat, bv64>,
    done: map<nat, bv64>)

  datatype PollAction =
    | ReadSeq(cpu: nat)
    | SleepPoll(cpu: nat)
    | WakeBegin(interests: bv64)
    | WakePass(number: nat)
    | Other(a: Action)

  predicate SleepsOnPoll(s: State, p: int) {
    0 <= p < |s.procs| && s.procs[p].state == Sleeping && s.procs[p].waitId == POLL
  }

  /** Nobody sleeps past a finished wake-up that began after its reading and names
      something it waits for. */
  ghost predicate NoneMissed(m: Poll) {
    forall p, n :: SleepsOnPoll(m.s, p) && p in m.token && n in m.done && m.token[p] < n ==>
      !Overlap(m.s.procs[p].interest, m.done[n])
  }

  /** Whoever sleeps has fallen asleep at a count equal to its reading as 64-bit words, and
      can only have missed what came between the two. */
  ghost predicate SleptAt(m: Poll, p: nat) {
    && p in m.token && p in m.slept && m.token[p] <= m.slept[p] <= m.wakes
    && (m.slept[p] - m.token[p]) % WORD == 0
    && (p < |m.s.procs| ==> forall n :: n in m.done && m.slept[p] < n ==> !Overlap(m.s.procs[p].interest, m.done[n]))
  }

  ghost predicate PollInv(m: Poll) {
    && Inv(m.s)
    && (forall p :: SleepsOnPoll(m.s, p) ==> SleptAt(m, p))
    && (forall p :: p in m.token ==> m.token[p] <= m.wakes)
    && (forall n :: n in m.flying ==> n <= m.wakes)
    && (forall n :: n in m.done ==> n <= m.wakes)
  }

  /** The comparison of `sleep_interruptible`, on 64-bit words. */
  predicate SeqMoved(m: Poll, p: nat)
    requires p in m.token
  {
    m.token[p] % WORD != m.wakes % WORD
  }

  predicate PollEnabled(m: Poll, a: PollAction)
    requires |m.s.procs| == SLOTS
    requires forall c :: 0 <= c < |m.s.current| ==> m.s.current[c] < SLOTS
  {
    match a
    case ReadSeq(c) => IsCpu(m.s, c)
    case SleepPoll(c) => MayRun(m.s, c) && !m.s.procs[m.s.current[c]].idle && m.s.current[c] in m.token
    case WakeBegin(_) => true
    case WakePass(n) => m.s.schedLock.None? && n in m.flying
    case Other(a) =>
      && Enabled(m.s, a)
      && (a.Sleep? || a.SleepUnlessSignalled? ==> a.key != POLL)
      && (a.Mark? && m.s.procs[a.proc].state == Sleeping ==> a.interest == m.s.procs[a.proc].interest)
  }

  function PollApply(m: Poll, a: PollAction): Poll
    requires PollInv(m) && PollEnabled(m, a)
  {
    match a
    case ReadSeq(c) => m.(token := m.token[m.s.current[c] := m.wakes])
    case SleepPoll(c) =>
      if SeqMoved(m, m.s.current[c]) then m
      else m.(s := Apply(m.s, SleepUnlessSignalled(c, POLL)), slept := m.slept[m.s.current[c] := m.wakes])
    case WakeBegin(i) => m.(wakes := m.wakes + 1, flying := m.flying[m.wakes + 1 := i])
    case WakePass(n) =>
      m.(s := Apply(m.s, WakeupPoll(POLL, m.flying[n])),
         flying := m.flying - {n},
         done := m.done[n := m.flying[n]])
    case Other(a) => m.(s := Apply(m.s, a))
  }

  /** Only going to sleep on the poll channel makes a poll sleeper, and a sleeper's
      interest stands still. */
  lemma SleepersOnlyBySleeping(s: State, a: Action, p: nat)
    requires Inv(s) && Enabled(s, a)
    requires a.Sleep? || a.SleepUnlessSignalled? ==> a.key != POLL
    requires a.Mark? && s.procs[a.proc].state == Sleeping ==> a.interest == s.procs[a.proc].interest
    requires p < SLOTS && SleepsOnPoll(Apply(s, a), p)
    ensures SleepsOnPoll(s, p) && Apply(s, a).procs[p].interest == s.procs[p].interest
  {
    if a.WakeupN? || a.WakeupPoll? {
      WakeAllState(s, Woken(s, a), p);
    } else if !Switches(a) {
      if !a.Wake? && !a.Interrupt? {
        PlainStep(s, a, p);
      }
    } else if p == s.current[a.cpu] {
      SwitchSelf(s, a);
    } else {
      SwitchSpares(s, a, p);
    }
  }

  lemma SleepPollOnlySelf(s: State, c: nat, p: nat)
    requires Inv(s) && Enabled(s, SleepUnlessSignalled(c, POLL))
    requires p < SLOTS && SleepsOnPoll(Apply(s, SleepUnlessSignalled(c, POLL)), p) && p != s.current[c]
    ensures SleepsOnPoll(s, p)
    ensures Apply(s, SleepUnlessSignalled(c, POLL)).procs[p].interest == s.procs[p].interest
  {
    SwitchSpares(s, SleepUnlessSignalled(c, POLL), p);
  }

  lemma OverlapIsWoken(s: State, interests: bv64, p: nat)
    requires Inv(s) && SleepsOnPoll(s, p) && Overlap(s.procs[p].interest, interests)
    ensures HasSlot(Woken(s, WakeupPoll(POLL, interests)), p)
  {
    var ws := Woken(s, WakeupPoll(POLL, interests));
    assert PlaceMatchesState(s, None, p);
    var k :| 0 <= k < |s.waiting| && s.waiting[k].slot == p;
    var w := s.waiting[k];
    QueueSlots(s, POLL);
    QueueMembers(s.waiting, POLL, w);
    InterestedMembers(s, Queue(s.waiting, POLL), interests, w);
    var j :| 0 <= j < |ws| && ws[j] == w;
  }

  /** The pass leaves nobody on the channel who waits for what it announces. */
  lemma PassMissesNobody(s: State, interests: bv64, p: nat)
    requires Inv(s) && Enabled(s, WakeupPoll(POLL, interests))
    requires p < SLOTS && SleepsOnPoll(Apply(s, WakeupPoll(POLL, interests)), p)
    ensures SleepsOnPoll(s, p) && !Overlap(s.procs[p].interest, interests)
    ensures Apply(s, WakeupPoll(POLL, interests)).procs[p].interest == s.procs[p].interest
  {
    WakeAllState(s, Woken(s, WakeupPoll(POLL, interests)), p);
    if Overlap(s.procs[p].interest, interests) {
      OverlapIsWoken(s, interests, p);
    }
  }

  lemma PollKeeps(m: Poll, a: PollAction)
    requires PollInv(m) && PollEnabled(m, a)
    ensures PollInv(PollApply(m, a))
  {
    match a
    case ReadSeq(c) => ReadSeqKeeps(m, c);
    case WakeBegin(i) => WakeBeginKeeps(m, i);
    case SleepPoll(c) => SleepPollKeeps(m, c);
    case WakePass(n) => WakePassKeeps(m, n);
    case Other(b) => OtherKeeps(m, b);
  }

  /** Sleepers who slept before, with the same interest, have still missed nothing. */
  lemma StillSleeping(m: Poll, t: Poll, p: nat)
    requires SleepsOnPoll(m.s, p) && SleptAt(m, p) && SleepsOnPoll(t.s, p)
    requires p in t.token && p in t.slept && t.token[p] == m.token[p] && t.slept[p] == m.slept[p]
    requires m.wakes <= t.wakes && t.done == m.done && t.s.procs[p].interest == m.s.procs[p].interest
    ensures SleptAt(t, p)
  {}

  lemma ReadSeqKeeps(m: Poll, c: nat)
    requires PollInv(m) && PollEnabled(m, ReadSeq(c))
    ensures PollInv(PollApply(m, ReadSeq(c)))
  {
    var me, t := m.s.current[c], PollApply(m, ReadSeq(c));
    assert RunsOutside(m.s, None, me) && PlaceMatchesState(m.s, None, me);
    forall p | SleepsOnPoll(t.s, p) ensures SleptAt(t, p) {
      assert SleptAt(m, p) && p != me;
    }
  }

  lemma WakeBeginKeeps(m: Poll, interests: bv64)
    requires PollInv(m)
    ensures PollInv(PollApply(m, WakeBegin(interests)))
  {
    var t := PollApply(m, WakeBegin(interests));
    forall p | SleepsOnPoll(t.s, p) ensures SleptAt(t, p) {
      StillSleeping(m, t, p);
    }
  }

  lemma OtherKeeps(m: Poll, b: Action)
    requires PollInv(m) && PollEnabled(m, Other(b))
    ensures PollInv(PollApply(m, Other(b)))
  {
    ApplyKeeps(m.s, b);
    var t := PollApply(m, Other(b));
    forall p | SleepsOnPoll(t.s, p) ensures SleptAt(t, p) {
      SleepersOnlyBySleeping(m.s, b, p);
      StillSleeping(m, t, p);
    }
  }

  lemma SameWord(a: nat, b: nat)
    requires a <= b
    ensures a % WORD == b % WORD <==> (b - a) % WORD == 0
  {}

  lemma OthersStillSleep(m: Poll, c: nat, p: nat)
    requires PollInv(m) && PollEnabled(m, SleepPoll(c)) && !SeqMoved(m, m.s.current[c]) && p != m.s.current[c]
    requires p < SLOTS && SleepsOnPoll(PollApply(m, SleepPoll(c)).s, p)
    ensures SleptAt(PollApply(m, SleepPoll(c)), p)
  {
    SleepPollOnlySelf(m.s, c, p);
    StillSleeping(m, PollApply(m, SleepPoll(c)), p);
  }

  /** Whoever falls asleep now has missed nothing that is yet to begin. */
  lemma SelfSlept(m: Poll, t: Poll, me: nat)
    requires me in m.token && m.token[me] <= m.wakes && !SeqMoved(m, me)
    requires t.token == m.token && t.slept == m.slept[me := m.wakes] && t.wakes == m.wakes && t.done == m.done
    requires forall n :: n in m.done ==> n <= m.wakes
    ensures SleptAt(t, me)
  {
    SameWord(m.token[me], m.wakes);
  }

  lemma SleepPollKeeps(m: Poll, c: nat)
    requires PollInv(m) && PollEnabled(m, SleepPoll(c))
    ensures PollInv(PollApply(m, SleepPoll(c)))
  {
    var me := m.s.current[c];
    if !SeqMoved(m, me) {
      ApplyKeeps(m.s, SleepUnlessSignalled(c, POLL));
      var t := PollApply(m, SleepPoll(c));
      SelfSlept(m, t, me);
      forall p | SleepsOnPoll(t.s, p) ensures SleptAt(t, p) {
        if p != me {
          OthersStillSleep(m, c, p);
        }
      }
    }
  }

  /** A sleeper the finished wake-up did not name has still missed nothing since it slept. */
  lemma SleptThrough(m: Poll, t: Poll, n: nat, p: nat)
    requires SleptAt(m, p) && n in m.flying && p < |m.s.procs| && p < |t.s.procs|
    requires !Overlap(m.s.procs[p].interest, m.flying[n]) && t.s.procs[p].interest == m.s.procs[p].interest
    requires t.token == m.token && t.slept == m.slept && t.wakes == m.wakes && t.done == m.done[n := m.flying[n]]
    ensures SleptAt(t, p)
  {}

  lemma WakePassKeeps(m: Poll, n: nat)
    requires PollInv(m) && PollEnabled(m, WakePass(n))
    ensures PollInv(PollApply(m, WakePass(n)))
  {
    ApplyKeeps(m.s, WakeupPoll(POLL, m.flying[n]));
    var t := PollApply(m, WakePass(n));
    forall p | SleepsOnPoll(t.s, p) ensures SleptAt(t, p) {
      PassMissesNobody(m.s, m.flying[n], p);
      SleptThrough(m, t, n, p);
    }
  }

  // ---- whole runs ----

  ghost predicate CanPoll(m: Poll, acts: seq<PollAction>)
    requires PollInv(m)
    decreases |acts|
  {
    acts == [] || (PollEnabled(m, acts[0]) && (PollKeeps(m, acts[0]); CanPoll(PollApply(m, acts[0]), acts[1..])))
  }

  ghost function AfterPoll(m: Poll, acts: seq<PollAction>): Poll
    requires PollInv(m) && CanPoll(m, acts)
    decreases |acts|
  {
    if acts == [] then m else PollKeeps(m, acts[0]); AfterPoll(PollApply(m, acts[0]), acts[1..])
  }

  lemma {:induction false} PollRunKeeps(m: Poll, acts: seq<PollAction>)
    requires PollInv(m) && CanPoll(m, acts)
    ensures PollInv(AfterPoll(m, acts))
    decreases |acts|
  {
    if acts != [] {
      PollKeeps(m, acts[0]);
      PollRunKeeps(PollApply(m, acts[0]), acts[1..]);
    }
  }

  function Start(n: nat): Poll
    requires n <= SLOTS
  {
    Poll(Boot(n), 0, map[], map[], map[], map[])
  }

  lemma StartInv(n: nat)
    requires n <= SLOTS
    ensures PollInv(Start(n))
  {
    BootInv(n);
  }

  /** No lost wake-up.  Take any run; if at its end `p` sleeps on the poll channel and has
      missed a finished wake-up that began after `p` read the sequence number, then between
      its reading and its falling asleep the number went round a whole number of times, and
      that wake-up began in between.  With fewer than 2^64 wake-ups in between there is none. */
  lemma NoLostPollWakeup(n: nat, acts: seq<PollAction>, p: nat, wake: nat)
    requires n <= SLOTS && (StartInv(n); CanPoll(Start(n), acts))
    ensures (StartInv(n);
      var m := AfterPoll(Start(n), acts);
      SleepsOnPoll(m.s, p) && wake in m.done ==>
        && p in m.token && p in m.slept && m.token[p] <= m.slept[p]
        && (m.token[p] < wake && Overlap(m.s.procs[p].interest, m.done[wake]) ==>
              wake <= m.slept[p] && (m.slept[p] - m.token[p]) % WORD == 0 && m.slept[p] - m.token[p] >= WORD))
  {
    StartInv(n);
    PollRunKeeps(Start(n), acts);
    MissedOnlyBetween(AfterPoll(Start(n), acts), p, wake);
  }

  lemma MissedOnlyBetween(m: Poll, p: nat, wake: nat)
    requires PollInv(m)
    ensures SleepsOnPoll(m.s, p) && wake in m.done ==>
      && p in m.token && p in m.slept && m.token[p] <= m.slept[p]
      && (m.token[p] < wake && Overlap(m.s.procs[p].interest, m.done[wake]) ==>
            wake <= m.slept[p] && (m.slept[p] - m.token[p]) % WORD == 0 && m.slept[p] - m.token[p] >= WORD)
  {
    if SleepsOnPoll(m.s, p) && wake in m.done {
      assert SleptAt(m, p);
    }
  }

  /** A waiter declines to sleep if and only if the wake-ups begun since its reading are not a
      multiple of 2^64; then nothing changes, and it scans again.  Otherwise it sleeps, unless
      it has a signal. */
  lemma LateWaiterDeclines(m: Poll, c: nat)
    requires PollInv(m) && PollEnabled(m, SleepPoll(c))
    ensures var me := m.s.current[c];
      && (SeqMoved(m, me) <==> (m.wakes - m.token[me]) % WORD != 0)
      && (SeqMoved(m, me) ==> PollApply(m, SleepPoll(c)) == m)
      && (!SeqMoved(m, me) && !m.s.procs[me].signalled ==> SleepsOnPoll(PollApply(m, SleepPoll(c)).s, me))
  {
    SameWord(m.token[m.s.current[c]], m.wakes);
    if !SeqMoved(m, m.s.current[c]) && !m.s.procs[m.s.current[c]].signalled {
      SleepsNow(m.s, c, POLL);
    }
  }

  /** A finished wake-up after `p`'s reading names something `p` waits for. */
  ghost predicate Missing(m: Poll, p: nat)
    requires p in m.token && p < |m.s.procs|
  {
    exists n :: n in m.done && m.token[p] < n && Overlap(m.s.procs[p].interest, m.done[n])
  }

  /** Exactly when falling asleep loses a wake-up: the sequence number has gone round once or
      more since the reading and is back, and a wake-up in between is over. */
  lemma SleepLosesIff(m: Poll, c: nat)
    requires PollInv(m) && NoneMissed(m) && PollEnabled(m, SleepPoll(c))
    ensures var me := m.s.current[c];
      NoneMissed(PollApply(m, SleepPoll(c))) <==>
        || m.s.procs[me].signalled || m.wakes == m.token[me] || (m.wakes - m.token[me]) % WORD != 0 || !Missing(m, me)
  {
    var me, t := m.s.current[c], PollApply(m, SleepPoll(c));
    LateWaiterDeclines(m, c);
    if !SeqMoved(m, me) {
      forall p | SleepsOnPoll(t.s, p) && p != me
        ensures SleepsOnPoll(m.s, p) && t.s.procs[p].interest == m.s.procs[p].interest
      {
        SleepPollOnlySelf(m.s, c, p);
      }
      if m.s.procs[me].signalled {
        assert t.s == m.s;
      } else {
        SleepsNow(m.s, c, POLL);
        assert t.s.procs[me].interest == m.s.procs[me].interest;
      }
    }
  }

  /** No other step loses one. */
  lemma OthersLoseNone(m: Poll, a: PollAction)
    requires PollInv(m) && NoneMissed(m) && PollEnabled(m, a) && !a.SleepPoll?
    ensures NoneMissed(PollApply(m, a))
  {
    PollKeeps(m, a);
    match a
    case ReadSeq(c) => assert RunsOutside(m.s, None, m.s.current[c]) && PlaceMatchesState(m.s, None, m.s.current[c]);
    case WakeBegin(_) =>
    case WakePass(k) => PassLosesNone(m, k);
    case Other(b) => ActionLosesNone(m, b);
  }

  lemma PassLosesNone(m: Poll, k: nat)
    requires PollInv(m) && NoneMissed(m) && PollEnabled(m, WakePass(k)) && PollInv(PollApply(m, WakePass(k)))
    ensures NoneMissed(PollApply(m, WakePass(k)))
  {
    var t := PollApply(m, WakePass(k));
    forall p | SleepsOnPoll(t.s, p)
      ensures SleepsOnPoll(m.s, p) && t.s.procs[p].interest == m.s.procs[p].interest
      ensures !Overlap(m.s.procs[p].interest, m.flying[k])
    {
      PassMissesNobody(m.s, m.flying[k], p);
    }
  }

  lemma ActionLosesNone(m: Poll, b: Action)
    requires PollInv(m) && NoneMissed(m) && PollEnabled(m, Other(b)) && PollInv(PollApply(m, Other(b)))
    ensures NoneMissed(PollApply(m, Other(b)))
  {
    var t := PollApply(m, Other(b));
    forall p | SleepsOnPoll(t.s, p)
      ensures SleepsOnPoll(m.s, p) && t.s.procs[p].interest == m.s.procs[p].interest
    {
      SleepersOnlyBySleeping(m.s, b, p);
    }
  }

  // ---- a lost wake-up, from boot ----

  /** Reached by some run. */
  ghost predicate Reached(m: Poll) {
    exists acts :: (StartInv(1); CanPoll(Start(1), acts) && AfterPoll(Start(1), acts) == m)
  }

  lemma {:induction false} RunSnoc(m: Poll, acts: seq<PollAction>, a: PollAction)
    requires PollInv(m) && CanPoll(m, acts) && (PollRunKeeps(m, acts); PollEnabled(AfterPoll(m, acts), a))
    ensures (PollRunKeeps(m, acts);
             CanPoll(m, acts + [a]) && AfterPoll(m, acts + [a]) == PollApply(AfterPoll(m, acts), a))
    decreases |acts|
  {
    PollRunKeeps(m, acts);
    if acts == [] {
      Seqs.Nil([a]);
      PollKeeps(m, a);
      assert [a][1..] == [];
    } else {
      PollKeeps(m, acts[0]);
      Seqs.ConcatTail(acts, [a]);
      RunSnoc(PollApply(m, acts[0]), acts[1..], a);
    }
  }

  lemma StartReached()
    ensures Reached(Start(1)) && PollInv(Start(1))
  {
    StartInv(1);
    assert CanPoll(Start(1), []) && AfterPoll(Start(1), []) == Start(1);
  }

  lemma StepReached(m: Poll, a: PollAction)
    requires Reached(m) && PollInv(m) && PollEnabled(m, a)
    ensures PollInv(PollApply(m, a)) && Reached(PollApply(m, a))
  {
    StartInv(1);
    var acts :| CanPoll(Start(1), acts) && AfterPoll(Start(1), acts) == m;
    RunSnoc(Start(1), acts, a);
    PollKeeps(m, a);
    assert CanPoll(Start(1), acts + [a]) && AfterPoll(Start(1), acts + [a]) == PollApply(m, a);
  }

  /** One user process, alone on the one CPU, awake and waiting for interest 1. */
  ghost predicate Alone(s: State) {
    && |s.current| == |s.stack| == |s.task| == |s.idleOf| == 1 && s.current[0] == 1 && s.task[0] == NoTask
    && |s.procs| == SLOTS && s.schedLock.None? && s.waiting == []
    && !s.procs[1].idle && !s.procs[1].signalled && s.procs[1].interest == 1
  }

  /** The same on the way there: `cur` runs, `ready` wait for the CPU. */
  ghost predicate Small(m: Poll, cur: nat, ready: seq<nat>, st: PState) {
    && |m.s.current| == |m.s.stack| == |m.s.task| == |m.s.idleOf| == 1 && m.s.current[0] == cur && m.s.task[0] == NoTask
    && |m.s.procs| == SLOTS && m.s.waiting == [] && m.s.ready == ready
    && m.s.procs[0].idle && m.s.procs[1].state == st && !m.s.procs[1].idle
    && m.wakes == 0 && m.done == map[] && m.flying == map[]
  }

  lemma Entered() returns (m: Poll)
    ensures PollInv(m) && Reached(m) && Small(m, 0, [], Unused) && m.s.schedLock.None? && m.s.kernelLock == Some(0)
  {
    StartReached();
    StepReached(Start(1), Other(KernelEnter(0)));
    m := PollApply(Start(1), Other(KernelEnter(0)));
  }

  lemma Created() returns (m: Poll)
    ensures PollInv(m) && Reached(m) && Small(m, 0, [], Init) && m.s.schedLock.None?
  {
    var k := Entered();
    StepReached(k, Other(Create(0, 1)));
    m := PollApply(k, Other(Create(0, 1)));
  }

  lemma Published() returns (m: Poll)
    ensures PollInv(m) && Reached(m) && Small(m, 0, [1], Ready) && m.s.schedLock.None?
  {
    var k := Created();
    StepReached(k, Other(Publish(1)));
    m := PollApply(k, Other(Publish(1)));
  }

  lemma Yielded() returns (m: Poll)
    ensures PollInv(m) && Reached(m) && Small(m, 1, [], Running) && m.s.schedLock == Some(0)
  {
    var k := Published();
    StepReached(k, Other(Yield(0)));
    m := PollApply(k, Other(Yield(0)));
    assert [1][1..] == [];
  }

  lemma Switched() returns (m: Poll)
    ensures PollInv(m) && Reached(m) && Small(m, 1, [], Running) && m.s.schedLock.None?
  {
    var k := Yielded();
    StepReached(k, Other(FinishSwitch(0)));
    m := PollApply(k, Other(FinishSwitch(0)));
  }

  lemma SomebodyRuns() returns (m: Poll)
    ensures PollInv(m) && Reached(m) && Alone(m.s) && m.wakes == 0 && m.done == map[] && m.flying == map[]
  {
    var k := Switched();
    StepReached(k, Other(Mark(1, false, false, 1)));
    m := PollApply(k, Other(Mark(1, false, false, 1)));
  }

  /** It reads the number; then a wake-up for interest 1 begins. */
  lemma WakeUpBegins() returns (m: Poll)
    ensures PollInv(m) && Reached(m) && Alone(m.s) && m.wakes == 1 && m.done == map[] && m.flying == map[1 := 1]
    ensures 1 in m.token && m.token[1] == 0
  {
    var k := SomebodyRuns();
    StepReached(k, ReadSeq(0));
    var l := PollApply(k, ReadSeq(0));
    StepReached(l, WakeBegin(1));
    m := PollApply(l, WakeBegin(1));
  }

  lemma PassOverNobody(s: State, interests: bv64)
    requires Inv(s) && s.schedLock.None? && s.waiting == []
    ensures Apply(s, WakeupPoll(POLL, interests)) == s
  {
    assert Queue(s.waiting, POLL) == [];
    assert Woken(s, WakeupPoll(POLL, interests)) == [];
  }

  /** It makes its pass. */
  lemma WakeUpPasses() returns (m: Poll)
    ensures PollInv(m) && Reached(m) && Alone(m.s) && m.wakes == 1 && m.done == map[1 := 1]
    ensures 1 in m.token && m.token[1] == 0
  {
    var k := WakeUpBegins();
    StepReached(k, WakePass(1));
    m := PollApply(k, WakePass(1));
    PassOverNobody(k.s, 1);
  }

  /** Then others, for nothing it waits for. */
  lemma {:induction false} Bumps(m: Poll, k: nat) returns (t: Poll)
    requires PollInv(m) && Reached(m)
    ensures PollInv(t) && Reached(t) && t.s == m.s && t.token == m.token && t.done == m.done && t.wakes == m.wakes + k
    decreases k
  {
    t := m;
    if k > 0 {
      StepReached(m, WakeBegin(0));
      t := Bumps(PollApply(m, WakeBegin(0)), k - 1);
    }
  }

  /** After 2^64 wake-ups the number is back, and the process sleeps on top of the one that
      was for it. */
  lemma LostAfterWrap() returns (m: Poll)
    ensures Reached(m) && PollInv(m) && SleepsOnPoll(m.s, 1) && !NoneMissed(m)
  {
    var a := WakeUpPasses();
    var b := Bumps(a, WORD - 1);
    SameWord(0, b.wakes);
    assert !SeqMoved(b, 1);
    StepReached(b, SleepPoll(0));
    m := PollApply(b, SleepPoll(0));
    SleepsNow(b.s, 0, POLL);
    assert 1 in m.token && 1 in m.done && m.token[1] < 1 && Overlap(m.s.procs[1].interest, m.done[1]);
  }
}
