/** The scheduler's critical sections as the code runs them, on mutable state.

    The wait queue is a tree here and the wake-ups are loops over it; each
    section is proved to be one action of the machine in `Scheduler`.
 */
module SchedulerSections {
  import opened Basics
  import opened WaitTree
  import opened Scheduler

  lemma {:induction false} WakeAllSnoc(s: State, ws: seq<Waiter>, w: Waiter)
    requires Shape(s) && w.slot < SLOTS
    requires forall i :: 0 <= i < |ws| ==> ws[i].slot < SLOTS
    ensures (forall i :: 0 <= i < |ws + [w]| ==> (ws + [w])[i].slot < SLOTS)
    ensures Shape(WakeAll(s, ws))
    ensures WakeAll(s, ws + [w]) == MoveToReady(WakeAll(s, ws), w.slot)
    decreases |ws|
  {
    if ws == [] {
      assert [] + [w] == [w] && [w][1..] == [];
    } else {
      MoveToReadyShape(s, ws[0].slot);
      WakeAllSnoc(MoveToReady(s, ws[0].slot), ws[1..], w);
      assert (ws + [w])[1..] == ws[1..] + [w];
    }
  }

  lemma {:induction false} InterestedSnoc(s: State, ws: seq<Waiter>, w: Waiter, interests: bv64)
    requires w.slot < |s.procs| && forall i :: 0 <= i < |ws| ==> ws[i].slot < |s.procs|
    ensures (forall i :: 0 <= i < |ws + [w]| ==> (ws + [w])[i].slot < |s.procs|)
    ensures Interested(s, ws + [w], interests) ==
            Interested(s, ws, interests) + (if Overlap(s.procs[w.slot].interest, interests) then [w] else [])
  {
    if ws == [] {
      assert [] + [w] == [w] && [w][1..] == [];
    } else {
      InterestedSnoc(s, ws[1..], w, interests);
      assert (ws + [w])[1..] == ws[1..] + [w];
    }
  }

  /** `rb_next`: the waiter after `slot` in tree order. */
  function Next(ws: seq<Waiter>, slot: nat): Option<Waiter> {
    if ws == [] then None
    else if ws[0].slot == slot then Head(ws[1..])
    else Next(ws[1..], slot)
  }

  lemma {:induction false} NextAt(ws: seq<Waiter>, i: nat)
    requires i < |ws| && DistinctSlots(ws)
    ensures Next(ws, ws[i].slot) == Head(ws[i + 1..])
  {
    if i > 0 {
      NextAt(ws[1..], i - 1);
      assert ws[1..][i - 1 + 1..] == ws[i + 1..];
    }
  }

  function Below(ws: seq<Waiter>, key: int): (i: nat)
    ensures i <= |ws|
    ensures i < |ws| ==> ws[i].key >= key
    ensures forall k :: 0 <= k < i ==> ws[k].key < key
  {
    if ws == [] || ws[0].key >= key then 0 else 1 + Below(ws[1..], key)
  }

  lemma {:induction false} QueueOfChannel(ws: seq<Waiter>, key: int)
    requires forall i :: 0 <= i < |ws| ==> ws[i].key == key
    ensures Queue(ws, key) == ws
  {
    if ws != [] {
      QueueOfChannel(ws[1..], key);
    }
  }

  lemma QueueOfParts(a: seq<Waiter>, b: seq<Waiter>, c: seq<Waiter>, key: int)
    requires forall i :: 0 <= i < |a| ==> a[i].key != key
    requires forall i :: 0 <= i < |b| ==> b[i].key == key
    requires forall i :: 0 <= i < |c| ==> c[i].key != key
    ensures Queue(a + b + c, key) == b
  {
    QueueSkips(a, key);
    QueueOfChannel(b, key);
    QueueSkips(c, key);
    QueueConcat(a + b, c, key);
    QueueConcat(a, b, key);
  }

  /** A channel's queue is a contiguous stretch of the tree order. */
  lemma QueueIsStretch(ws: seq<Waiter>, key: int)
    requires Sorted(ws)
    ensures Below(ws, key) <= InsertPos(ws, key)
    ensures Queue(ws, key) == ws[Below(ws, key)..InsertPos(ws, key)]
  {
    var i, j := Below(ws, key), InsertPos(ws, key);
    assert i <= j;
    forall k | i <= k < |ws| ensures ws[k].key >= key {
      assert ws[i].key <= ws[k].key || k == i;
    }
    forall k | j <= k < |ws| ensures ws[k].key > key {
      assert ws[j].key <= ws[k].key || k == j;
    }
    QueueOfParts(ws[..i], ws[i..j], ws[j..], key);
    assert ws == ws[..i] + ws[i..j] + ws[j..];
  }

  // ---- the two wake-up loops, turn by turn ----

  /** The state after `n` turns of `process_wakeup_n`. */
  ghost function Woke(s: State, key: int, n: nat): State
    requires Inv(s) && n <= |Queue(s.waiting, key)|
  {
    QueueSlots(s, key);
    WakeAll(s, Queue(s.waiting, key)[..n])
  }

  lemma WokeStart(s: State, key: int)
    requires Inv(s)
    ensures Woke(s, key, 0) == s
  {}

  lemma WokeNext(s: State, key: int, n: nat)
    requires Inv(s) && n <= |Queue(s.waiting, key)|
    ensures Sorted(Woke(s, key, n).waiting)
    ensures Queue(Woke(s, key, n).waiting, key) == Queue(s.waiting, key)[n..]
    ensures n < |Queue(s.waiting, key)| ==>
              && Queue(s.waiting, key)[n].slot < |Woke(s, key, n).procs|
              && Woke(s, key, n + 1) == MoveToReady(Woke(s, key, n), Queue(s.waiting, key)[n].slot)
  {
    var q := Queue(s.waiting, key);
    QueueSlots(s, key);
    WakePrefixKeeps(s, key, n);
    RemovePrefix(q, n);
    WakeAllQueue(s, q[..n], key);
    if n < |q| {
      WakeAllSnoc(s, q[..n], q[n]);
      assert q[..n] + [q[n]] == q[..n + 1];
    }
  }

  lemma WokeEnd(s: State, key: int, count: int, n: nat)
    requires Inv(s) && s.schedLock.None? && n == Take(count, |Queue(s.waiting, key)|)
    ensures Woke(s, key, n) == Apply(s, WakeupN(key, count))
  {}

  /** The state after `process_wakeup_poll` has passed `n` sleepers of the channel. */
  ghost function Passed(s: State, key: int, interests: bv64, n: nat): State
    requires Inv(s) && n <= |Queue(s.waiting, key)|
  {
    QueueSlots(s, key);
    WakeAll(s, Interested(s, Queue(s.waiting, key)[..n], interests))
  }

  lemma PassStart(s: State, key: int, interests: bv64)
    requires Inv(s)
    ensures Passed(s, key, interests, 0) == s
  {}

  lemma {:induction false} WakeAllTree(s: State, ws: seq<Waiter>)
    requires Shape(s) && forall i :: 0 <= i < |ws| ==> ws[i].slot < SLOTS
    ensures WakeAll(s, ws).waiting == RemoveAll(s.waiting, ws)
    decreases |ws|
  {
    if ws != [] {
      MoveToReadyShape(s, ws[0].slot);
      WakeAllTree(MoveToReady(s, ws[0].slot), ws[1..]);
    }
  }

  /** What is left in the tree after passing `n` sleepers: the channel from there on,
      and after it larger channels. */
  lemma PassedTree(s: State, key: int, interests: bv64, n: nat) returns (kept: seq<Waiter>)
    requires Inv(s) && n <= |Queue(s.waiting, key)|
    ensures Below(s.waiting, key) + n <= |s.waiting|
    ensures Passed(s, key, interests, n).waiting == kept + s.waiting[Below(s.waiting, key) + n..]
    ensures DistinctSlots(Passed(s, key, interests, n).waiting)
  {
    var q, lo := Queue(s.waiting, key), Below(s.waiting, key);
    QueueIsStretch(s.waiting, key);
    QueueSlots(s, key);
    var a, b := s.waiting[..lo], s.waiting[lo + n..];
    assert s.waiting == a + q[..n] + b;
    WakeAllTree(s, Interested(s, q[..n], interests));
    PassStretch(s, a, q[..n], b, interests);
    kept := a + Uninterested(s, q[..n], interests);
  }

  lemma NextAfter(kept: seq<Waiter>, rest: seq<Waiter>)
    requires DistinctSlots(kept + rest) && rest != []
    ensures Next(kept + rest, rest[0].slot) == Head(rest[1..])
  {
    NextAt(kept + rest, |kept|);
    assert (kept + rest)[|kept| + 1..] == rest[1..];
  }

  lemma ChannelFrom(ws: seq<Waiter>, key: int, n: nat)
    requires Sorted(ws) && n <= |Queue(ws, key)|
    ensures Below(ws, key) + n <= |ws|
    ensures var h := Head(ws[Below(ws, key) + n..]);
      && (n < |Queue(ws, key)| ==> h == Some(Queue(ws, key)[n]))
      && (n == |Queue(ws, key)| ==> h.None? || h.value.key != key)
  {
    QueueIsStretch(ws, key);
  }

  lemma NextInChannel(kept: seq<Waiter>, ws: seq<Waiter>, key: int, n: nat)
    requires Sorted(ws) && n < |Queue(ws, key)| && Below(ws, key) + n <= |ws|
    requires DistinctSlots(kept + ws[Below(ws, key) + n..])
    ensures var q, h := Queue(ws, key), Next(kept + ws[Below(ws, key) + n..], Queue(ws, key)[n].slot);
      && (n + 1 < |q| ==> h == Some(q[n + 1]))
      && (n + 1 == |q| ==> h.None? || h.value.key != key)
  {
    ChannelFrom(ws, key, n);
    ChannelFrom(ws, key, n + 1);
    var rest := ws[Below(ws, key) + n..];
    NextAfter(kept, rest);
    assert rest[1..] == ws[Below(ws, key) + n + 1..];
  }

  lemma PassNextTree(s: State, key: int, interests: bv64, n: nat)
    requires Inv(s) && n < |Queue(s.waiting, key)|
    ensures var q := Queue(s.waiting, key);
      var h := Next(Passed(s, key, interests, n).waiting, Queue(s.waiting, key)[n].slot);
      && (n + 1 < |q| ==> h == Some(q[n + 1]))
      && (n + 1 == |q| ==> h.None? || h.value.key != key)
  {
    var kept := PassedTree(s, key, interests, n);
    NextInChannel(kept, s.waiting, key, n);
  }

  lemma InterestedSlots(s: State, ws: seq<Waiter>, interests: bv64)
    requires Shape(s) && forall i :: 0 <= i < |ws| ==> ws[i].slot < SLOTS
    ensures forall i :: 0 <= i < |Interested(s, ws, interests)| ==> Interested(s, ws, interests)[i].slot < SLOTS
  {
    var r := Interested(s, ws, interests);
    forall i | 0 <= i < |r| ensures r[i].slot < SLOTS {
      assert r[i] in ws;
    }
  }

  /** One more sleeper passed: it is woken if it has an interest, else left. */
  lemma PassOneMore(s: State, ws: seq<Waiter>, w: Waiter, interests: bv64, woken: seq<Waiter>, more: seq<Waiter>)
    requires Shape(s) && w.slot < SLOTS && forall i :: 0 <= i < |woken| ==> woken[i].slot < SLOTS
    requires forall i :: 0 <= i < |more| ==> more[i].slot < SLOTS
    requires more == woken + (if Overlap(s.procs[w.slot].interest, interests) then [w] else [])
    ensures var t := WakeAll(s, woken);
      && |t.procs| == SLOTS
      && WakeAll(s, more) == if Overlap(t.procs[w.slot].interest, interests) then MoveToReady(t, w.slot) else t
  {
    WakeAllState(s, woken, w.slot);
    if Overlap(s.procs[w.slot].interest, interests) {
      WakeAllSnoc(s, woken, w);
    } else {
      Seqs.Nil(woken);
    }
  }

  lemma PassNext(s: State, key: int, interests: bv64, n: nat)
    requires Inv(s) && n < |Queue(s.waiting, key)|
    ensures var t, p := Passed(s, key, interests, n), Queue(s.waiting, key)[n].slot;
      && p < |t.procs|
      && Passed(s, key, interests, n + 1) ==
         if Overlap(t.procs[p].interest, interests) then MoveToReady(t, p) else t
  {
    var q := Queue(s.waiting, key);
    QueueSlots(s, key);
    var w := q[n];
    Seqs.TakeSnoc(q, n);
    InterestedSnoc(s, q[..n], w, interests);
    InterestedSlots(s, q[..n], interests);
    InterestedSlots(s, q[..n + 1], interests);
    PassOneMore(s, q[..n], w, interests, Interested(s, q[..n], interests), Interested(s, q[..n + 1], interests));
  }

  lemma PassEnd(s: State, key: int, interests: bv64)
    requires Inv(s) && s.schedLock.None?
    ensures Passed(s, key, interests, |Queue(s.waiting, key)|) == Apply(s, WakeupPoll(key, interests))
  {
    var q := Queue(s.waiting, key);
    assert q[..|q|] == q;
  }

  /** Waking part of a channel's queue keeps the invariant. */
  lemma WakePrefixKeeps(s: State, key: int, n: nat)
    requires Inv(s) && n <= |Queue(s.waiting, key)|
    ensures (QueueSlots(s, key); Inv(WakeAll(s, Queue(s.waiting, key)[..n])))
  {
    QueueSlots(s, key);
    var a := WakeupN(key, n);
    WokenFacts(s, a);
    WakeAllKeeps(s, Woken(s, a));
    assert Woken(s, a) == Queue(s.waiting, key)[..n];
  }

  class Sections {
    var procs: seq<Proc>
    var ready: seq<nat>
    var waiting: Tree
    var killed: seq<nat>
    var current: seq<nat>
    var idleOf: seq<nat>
    var schedLock: Option<nat>
    var kernelLock: Option<nat>
    ghost var stack: seq<nat>
    ghost var task: seq<Task>
    ghost var born: seq<nat>
    ghost var freed: seq<nat>

    ghost function View(): State
      reads this
    {
      State(procs, ready, InOrder(waiting), killed, current, idleOf, stack, task, schedLock, kernelLock, born, freed)
    }

    constructor (n: nat)
      requires n <= SLOTS
      ensures View() == Boot(n) && Inv(View())
    {
      var b := Boot(n);
      procs, ready, waiting, killed := b.procs, [], Leaf, [];
      current, idleOf, stack, task := b.current, b.idleOf, b.stack, b.task;
      schedLock, kernelLock, born, freed := None, None, b.born, b.freed;
      BootInv(n);
    }

    /** `schedule`, with the kernel lock dropped and `sched_lock` kept for the newcomer. */
    method Schedule(c: nat)
      requires Shape(View()) && IsCpu(View(), c)
      modifies this
      ensures View() == Switch(old(View()), c)
    {
      if kernelLock == Some(c) {
        kernelLock := None;
      }
      var next;
      if ready == [] {
        next := idleOf[c];
      } else {
        next := ready[0];
        ready := ready[1..];
      }
      procs := procs[next := procs[next].(state := Running)];
      current := current[c := next];
      schedLock := Some(c);
    }

    /** `process_yield` */
    method YieldCpu(c: nat)
      requires Inv(View()) && Enabled(View(), Yield(c))
      modifies this
      ensures View() == Apply(old(View()), Yield(c))
    {
      if ready == [] {
        return;
      }
      ghost var s := View();
      DepartYieldKeeps(s, c);
      var p := current[c];
      procs := procs[p := procs[p].(state := Ready)];
      if !procs[p].idle {
        ready := ready + [p];
      }
      assert View() == DepartYield(s, c);
      Schedule(c);
    }

    method SleepOn(c: nat, key: int)
      requires Inv(View()) && Enabled(View(), Sleep(c, key))
      modifies this
      ensures View() == Apply(old(View()), Sleep(c, key))
    {
      ghost var s := View();
      DepartSleepKeeps(s, c, key);
      var p := current[c];
      InsertInOrder(waiting, Waiter(p, key));
      procs := procs[p := procs[p].(state := Sleeping, waitId := key)];
      waiting := Insert(waiting, Waiter(p, key));
      assert View() == DepartSleep(s, c, key);
      Schedule(c);
    }

    /** `process_exit`, from taking `sched_lock` on */
    method ExitCpu(c: nat)
      requires Inv(View()) && Enabled(View(), Exit(c))
      modifies this
      ensures View() == Apply(old(View()), Exit(c))
    {
      ghost var s := View();
      DepartExitKeeps(s, c);
      var p := current[c];
      procs := procs[p := procs[p].(state := Killed)];
      killed := killed + [p];
      assert View() == DepartExit(s, c);
      Schedule(c);
    }

    method ToReady(p: nat)
      requires p < |procs|
      modifies this`waiting, this`procs, this`ready
      ensures View() == MoveToReady(old(View()), p)
    {
      RemoveInOrder(waiting, p);
      waiting := Remove(waiting, p);
      procs := procs[p := procs[p].(state := Ready)];
      ready := ready + [p];
    }

    /** `process_wakeup_n`: the loop takes the first waiter of the channel until the
        count is reached or the channel is empty. */
    method WakeupCount(key: int, count: int) returns (woken: nat)
      requires Inv(View()) && Enabled(View(), WakeupN(key, count))
      modifies this
      ensures View() == Apply(old(View()), WakeupN(key, count))
      ensures woken == Take(count, |Queue(old(View()).waiting, key)|)
    {
      ghost var s, q := View(), Queue(View().waiting, key);
      woken := 0;
      WokeStart(s, key);
      while count < 0 || woken < count
        invariant woken <= |q| && (count >= 0 ==> woken <= count)
        invariant View() == Woke(s, key, woken)
        decreases |q| - woken
      {
        WokeNext(s, key, woken);
        var first := First(waiting, key);
        if first.None? {
          break;
        }
        ToReady(first.value.slot);
        woken := woken + 1;
      }
      WokeEnd(s, key, count, woken);
    }

    /** One turn of the loop in `process_wakeup_poll`: the successor is read first. */
    method PassOne(p: nat, interests: bv64) returns (next: Option<Waiter>)
      requires p < |procs|
      modifies this`waiting, this`procs, this`ready
      ensures next == Next(old(View()).waiting, p)
      ensures View() == if Overlap(old(procs[p].interest), interests) then MoveToReady(old(View()), p) else old(View())
    {
      next := Next(InOrder(waiting), p);
      if Overlap(procs[p].interest, interests) {
        ToReady(p);
      }
    }

    /** The loop of `process_wakeup_poll`: one pass over the channel that moves the
        sleepers with an overlapping interest. */
    method PassChannel(ghost s: State, key: int, interests: bv64)
      requires Inv(s) && View() == s
      modifies this
      ensures View() == Passed(s, key, interests, |Queue(s.waiting, key)|)
    {
      ghost var i, q := 0, Queue(s.waiting, key);
      PassStart(s, key, interests);
      forall k | 0 <= k < |q| ensures q[k].key == key {
        QueueMembers(s.waiting, key, q[k]);
      }
      var proc := First(waiting, key);
      while proc.Some? && proc.value.key == key
        invariant i <= |q|
        invariant View() == Passed(s, key, interests, i)
        invariant i < |q| ==> proc == Some(q[i])
        invariant i == |q| ==> proc.None? || proc.value.key != key
        decreases |q| - i
      {
        PassNext(s, key, interests, i);
        PassNextTree(s, key, interests, i);
        proc := PassOne(proc.value.slot, interests);
        i := i + 1;
      }
    }

    /** `process_wakeup_poll`, the part under `sched_lock` */
    method WakeupInterested(key: int, interests: bv64)
      requires Inv(View()) && Enabled(View(), WakeupPoll(key, interests))
      modifies this
      ensures View() == Apply(old(View()), WakeupPoll(key, interests))
    {
      ghost var s := View();
      PassChannel(s, key, interests);
      PassEnd(s, key, interests);
    }

    /** The search of `reap_detached`: the first killed process nobody waits for is
        unlinked and handed to the caller to free. */
    method ReapPick(c: nat) returns (victim: Option<nat>)
      requires Inv(View()) && Enabled(View(), ReapRemove(c))
      modifies this
      ensures View() == Apply(old(View()), ReapRemove(c))
      ensures victim.Some? ==> task[c] == Freeing(victim.value)
    {
      victim := None;
      var i := 0;
      assert killed[0..] == killed;
      while i < |killed|
        invariant i <= |killed| && victim.None? && View() == old(View())
        invariant FirstDetached(procs, killed) == FirstDetached(procs, killed[i..])
      {
        var p := killed[i];
        assert killed[i..][1..] == killed[i + 1..];
        if procs[p].detached {
          killed := Without(killed, p);
          task := task[c := Freeing(p)];
          return Some(p);
        }
        i := i + 1;
      }
    }
  }
}
