/** The timer wheel's data structure and its tick loop, proved to be runs of the
    flat list of timers in `Timers`. */
module TimerWheel {
  import opened Basics
  import Seqs
  import opened Timers

  /** The part of the flat list that lives in one slot. */
  function OfSlot(armed: seq<Timer>, k: nat): seq<Timer> {
    if armed == [] then []
    else (if armed[0].expires % SLOTS == k then [armed[0]] else []) + OfSlot(armed[1..], k)
  }

  function Ids(ts: seq<Timer>): (r: seq<nat>)
    ensures |r| == |ts| && forall i :: 0 <= i < |ts| ==> r[i] == ts[i].id
  {
    seq(|ts|, i requires 0 <= i < |ts| => ts[i].id)
  }

  /** `dlist_remove` of a node on the list */
  function RemoveId(ids: seq<nat>, id: nat): seq<nat> {
    if ids == [] then [] else if ids[0] == id then ids[1..] else [ids[0]] + RemoveId(ids[1..], id)
  }

  lemma {:induction false} OfSlotConcat(a: seq<Timer>, b: seq<Timer>, k: nat)
    ensures OfSlot(a + b, k) == OfSlot(a, k) + OfSlot(b, k)
  {
    if a == [] {
      Seqs.Nil(b);
      Seqs.Nil(OfSlot(b, k));
    } else {
      Seqs.ConcatTail(a, b);
      OfSlotConcat(a[1..], b, k);
      Seqs.Assoc(if a[0].expires % SLOTS == k then [a[0]] else [], OfSlot(a[1..], k), OfSlot(b, k));
    }
  }

  lemma {:induction false} OfSlotMembers(armed: seq<Timer>, k: nat, t: Timer)
    ensures t in OfSlot(armed, k) <==> t in armed && t.expires % SLOTS == k
  {
    if armed != [] {
      OfSlotMembers(armed[1..], k, t);
      assert t in armed <==> t == armed[0] || t in armed[1..];
    }
  }

  lemma {:induction false} OfSlotDrop(armed: seq<Timer>, id: nat, k: nat)
    requires DistinctIds(armed)
    ensures OfSlot(Drop(armed, id), k) == Drop(OfSlot(armed, k), id)
    decreases |armed|
  {
    if armed != [] {
      var rest := armed[1..];
      OfSlotDrop(rest, id, k);
      var here := if armed[0].expires % SLOTS == k then [armed[0]] else [];
      Seqs.Nil(OfSlot(rest, k));
      Seqs.Nil(Drop(OfSlot(rest, k), id));
      Seqs.Nil(OfSlot(Drop(rest, id), k));
      if armed[0].id == id {
        if armed[0].expires % SLOTS == k {
          Seqs.Cons(armed[0], OfSlot(rest, k));
        } else {
          DropAbsent(OfSlot(rest, k), id) by {
            forall i | 0 <= i < |OfSlot(rest, k)| ensures OfSlot(rest, k)[i].id != id {
              OfSlotMembers(rest, k, OfSlot(rest, k)[i]);
              var j :| 0 <= j < |rest| && rest[j] == OfSlot(rest, k)[i];
              assert armed[j + 1] == rest[j];
            }
          }
        }
      } else {
        Seqs.Cons(armed[0], Drop(rest, id));
        Seqs.Cons(armed[0], OfSlot(rest, k));
      }
    }
  }

  lemma {:induction false} DropAbsent(ts: seq<Timer>, id: nat)
    requires forall i :: 0 <= i < |ts| ==> ts[i].id != id
    ensures Drop(ts, id) == ts
  {
    if ts != [] {
      DropAbsent(ts[1..], id);
      Seqs.HeadTail(ts);
    }
  }

  lemma {:induction false} IdsDrop(ts: seq<Timer>, id: nat)
    ensures Ids(Drop(ts, id)) == RemoveId(Ids(ts), id)
  {
    if ts != [] {
      assert Ids(ts)[1..] == Ids(ts[1..]);
      IdsDrop(ts[1..], id);
      if ts[0].id != id {
        assert Ids([ts[0]] + Drop(ts[1..], id)) == [ts[0].id] + Ids(Drop(ts[1..], id));
      }
    }
  }

  lemma IdsSnoc(ts: seq<Timer>, t: Timer)
    ensures Ids(ts + [t]) == Ids(ts) + [t.id]
  {}

  lemma OfSlotSnoc(armed: seq<Timer>, t: Timer, k: nat)
    ensures OfSlot(armed + [t], k) == if t.expires % SLOTS == k then OfSlot(armed, k) + [t] else OfSlot(armed, k)
  {
    OfSlotConcat(armed, [t], k);
    Seqs.Nil(OfSlot(armed, k));
    assert [t][1..] == [];
    assert OfSlot([t], k) == (if t.expires % SLOTS == k then [t] else []) + OfSlot([], k);
    Seqs.Nil(if t.expires % SLOTS == k then [t] else []);
  }

  /** The search of the current tick's slot finds what is due first of all. */
  lemma {:induction false} SlotHoldsAllDue(armed: seq<Timer>, ticks: nat)
    ensures FirstDue(OfSlot(armed, ticks % SLOTS), ticks) == FirstDue(armed, ticks)
  {
    if armed != [] {
      SlotHoldsAllDue(armed[1..], ticks);
      var rest := OfSlot(armed[1..], ticks % SLOTS);
      Seqs.Nil(rest);
      Seqs.Cons(armed[0], rest);
    }
  }

  // ---- termination of a tick ----

  function Due(armed: seq<Timer>, ticks: nat): nat {
    if armed == [] then 0 else (if IsDue(armed[0].expires, ticks) then 1 else 0) + Due(armed[1..], ticks)
  }

  lemma {:induction false} DueConcat(a: seq<Timer>, b: seq<Timer>, ticks: nat)
    ensures Due(a + b, ticks) == Due(a, ticks) + Due(b, ticks)
  {
    if a == [] {
      Seqs.Nil(b);
    } else {
      Seqs.ConcatTail(a, b);
      DueConcat(a[1..], b, ticks);
    }
  }

  lemma {:induction false} DueDrop(armed: seq<Timer>, id: nat, ticks: nat)
    ensures Due(Drop(armed, id), ticks) ==
            Due(armed, ticks) -
            (match Find(armed, id) case None => 0 case Some(t) => if IsDue(t.expires, ticks) then 1 else 0)
  {
    if armed != [] && armed[0].id != id {
      DueDrop(armed[1..], id, ticks);
      Seqs.Cons(armed[0], Drop(armed[1..], id));
    }
  }

  /** An operation that makes nothing due in the tick it comes in. */
  predicate Tame(ticks: nat, op: Op) {
    op.Arm? ==> Delay(op.delay) % SLOTS != 0 || ticks + Delay(op.delay) < WORD
  }

  /** A new arming is due at once if and only if its deadline wraps into the slot of the tick
      that is being dispatched. */
  lemma DueAtOnceIff(f: Flat, id: nat, delay: nat)
    requires delay < WORD
    ensures IsDue(NewTimer(f, id, delay).expires, Ticks(f)) <==> !Tame(Ticks(f), Arm(id, delay))
  {
    DueLater(Arming(f.now, Delay(delay), true), 0);
  }

  /** Nothing else that is armed or stopped in the middle of a tick makes a timer due in it. */
  lemma OpAddsNoneDue(f: Flat, op: Op)
    requires IsOp(op)
    ensures Tame(Ticks(f), op) ==> Due(Apply(f, op, true).armed, Ticks(f)) <= Due(f.armed, Ticks(f))
    ensures Ticks(Apply(f, op, true)) == Ticks(f)
  {
    var id := op.id;
    DueDrop(f.armed, id, Ticks(f));
    FindFacts(f.armed, id);
    if op.Arm? {
      var g := Cancel(f, id);
      DueAtOnceIff(f, id, op.delay);
      DueConcat(g.armed, [NewTimer(f, id, op.delay)], Ticks(f));
    }
  }

  /** A timer that arms itself again, `n` times. */
  function Again(id: nat, n: nat): seq<Step> {
    if n == 0 then [] else [Dispatch, Do(Arm(id, WORD - SLOTS))] + Again(id, n - 1)
  }

  /** Without that condition a tick need not end: a callback that arms its timer for
      2^64 - 256 ticks is dispatched again and again in the same tick. */
  lemma {:induction false} EndlessTick(m: Machine, t: Timer, n: nat)
    requires m.dispatching && m.f.armed == [t] && IsDue(t.expires, Ticks(m.f)) && Ticks(m.f) >= SLOTS
    ensures IsRun(m, Again(t.id, n)) && After(m, Again(t.id, n)).f.now == m.f.now
    ensures |After(m, Again(t.id, n)).f.fired| == |m.f.fired| + n
    decreases n
  {
    if n > 0 {
      var pair := [Dispatch, Do(Arm(t.id, WORD - SLOTS))];
      var a := Next(m, Dispatch);
      var b := Next(a, Do(Arm(t.id, WORD - SLOTS)));
      var u := NewTimer(a.f, t.id, WORD - SLOTS);
      assert a.f.armed == [];
      assert b.f.armed == [u];
      DueAtOnceIff(a.f, t.id, WORD - SLOTS);
      assert pair[1..] == [Do(Arm(t.id, WORD - SLOTS))] && pair[1..][1..] == [];
      assert IsRun(a, pair[1..]) && After(a, pair[1..]) == b;
      assert IsRun(m, pair) && After(m, pair) == b;
      EndlessTick(b, u, n - 1);
      RunJoin(m, pair, Again(t.id, n - 1));
    }
  }

  /** From boot: a timer armed in tick 1 for 2^64 - 1 ticks comes up in tick 256, and its
      callback keeps that tick going for as long as one likes. */
  lemma EndlessFromStart(k: nat, n: nat)
    requires k == 254
    ensures var steps := [Begin, End, Do(Arm(0, WORD - 1))] + (Idle(k) + ([Begin] + Again(0, n)));
      && IsRun(INITIAL, steps)
      && After(INITIAL, steps).f.now == 256 && |After(INITIAL, steps).f.fired| == n
  {
    LongArmingRuns();
    RunKeeps(INITIAL, [Begin, End, Do(Arm(0, WORD - 1))]);
    var m, t := LongArming(), Timer(0, 0, 0);
    assert Comes(Arming(1, WORD - 1, false)) == 256;
    IdleRuns(m, t, k);
    var a, b := Machine(m.f.(now := 255), false), Machine(m.f.(now := 256), true);
    OneStep(a, Begin, [Begin]);
    EndlessTick(b, t, n);
    RunJoin(a, [Begin], Again(0, n));
    RunJoin(m, Idle(k), [Begin] + Again(0, n));
    RunJoin(INITIAL, [Begin, End, Do(Arm(0, WORD - 1))], Idle(k) + ([Begin] + Again(0, n)));
  }

  // ---- the structure ----

  datatype Callout = Callout(expires: nat, pending: bool, mpsafe: bool)

  /** The slot lists hold exactly the armed timers, each in the slot of its deadline,
      in arming order. */
  ghost predicate Spread(wheel: seq<seq<nat>>, armed: seq<Timer>) {
    && |wheel| == SLOTS
    && forall k :: 0 <= k < SLOTS ==> wheel[k] == Ids(OfSlot(armed, k))
  }

  ghost predicate Recorded(callouts: map<nat, Callout>, armed: seq<Timer>) {
    && (forall i :: 0 <= i < |armed| ==>
          armed[i].id in callouts && callouts[armed[i].id].pending && callouts[armed[i].id].expires == armed[i].expires)
    && (forall id :: id in callouts && callouts[id].pending ==> Find(armed, id).Some?)
  }

  lemma SpreadDrop(wheel: seq<seq<nat>>, armed: seq<Timer>, t: Timer)
    requires Spread(wheel, armed) && DistinctIds(armed) && t in armed
    ensures var k := t.expires % SLOTS;
      Spread(wheel[k := RemoveId(wheel[k], t.id)], Drop(armed, t.id))
  {
    var k := t.expires % SLOTS;
    var w, rest := wheel[k := RemoveId(wheel[k], t.id)], Drop(armed, t.id);
    forall j | 0 <= j < SLOTS ensures w[j] == Ids(OfSlot(rest, j)) {
      OfSlotDrop(armed, t.id, j);
      IdsDrop(OfSlot(armed, j), t.id);
      if j != k {
        OtherSlot(armed, t, j);
        DropAbsent(OfSlot(armed, j), t.id);
      }
    }
  }

  lemma OtherSlot(armed: seq<Timer>, t: Timer, j: nat)
    requires DistinctIds(armed) && t in armed && t.expires % SLOTS != j
    ensures forall i :: 0 <= i < |OfSlot(armed, j)| ==> OfSlot(armed, j)[i].id != t.id
  {
    var ts := OfSlot(armed, j);
    forall i | 0 <= i < |ts| ensures ts[i].id != t.id {
      OfSlotMembers(armed, j, ts[i]);
      var x :| 0 <= x < |armed| && armed[x] == ts[i];
      var y :| 0 <= y < |armed| && armed[y] == t;
    }
  }

  lemma SpreadSnoc(wheel: seq<seq<nat>>, armed: seq<Timer>, t: Timer)
    requires Spread(wheel, armed)
    ensures var k := t.expires % SLOTS;
      Spread(wheel[k := wheel[k] + [t.id]], armed + [t])
  {
    var k := t.expires % SLOTS;
    var w := wheel[k := wheel[k] + [t.id]];
    forall j | 0 <= j < SLOTS ensures w[j] == Ids(OfSlot(armed + [t], j)) {
      OfSlotSnoc(armed, t, j);
      IdsSnoc(OfSlot(armed, j), t);
    }
  }

  lemma {:induction false} FindDrop(armed: seq<Timer>, id: nat, x: nat)
    requires x != id
    ensures Find(Drop(armed, id), x) == Find(armed, x)
  {
    if armed != [] && armed[0].id != id {
      FindDrop(armed[1..], id, x);
      Seqs.Cons(armed[0], Drop(armed[1..], id));
    }
  }

  lemma DropFacts(armed: seq<Timer>, id: nat)
    requires DistinctIds(armed)
    ensures DistinctIds(Drop(armed, id))
    ensures forall k :: 0 <= k < |Drop(armed, id)| ==> Drop(armed, id)[k] in armed && Drop(armed, id)[k].id != id
  {
    FindFacts(armed, id);
    if Find(armed, id).Some? {
      var i :| 0 <= i < |armed| && armed[i] == Find(armed, id).value;
      DropAt(armed, i);
      var rest := Drop(armed, id);
      assert forall k :: 0 <= k < |rest| ==> rest[k] == armed[if k < i then k else k + 1];
    }
  }

  lemma DropRecords(callouts: map<nat, Callout>, armed: seq<Timer>, id: nat)
    requires Recorded(callouts, armed) && DistinctIds(armed) && id in callouts && callouts[id].pending
    ensures var t := Find(armed, id);
      && t.Some? && t.value in armed && t.value.id == id && t.value.expires == callouts[id].expires
      && Recorded(callouts[id := callouts[id].(pending := false)], Drop(armed, id))
      && DistinctIds(Drop(armed, id))
  {
    FindFacts(armed, id);
    DropFacts(armed, id);
    forall x | x in callouts && callouts[x].pending && x != id ensures Find(Drop(armed, id), x).Some? {
      FindDrop(armed, id, x);
    }
  }

  lemma SnocRecords(callouts: map<nat, Callout>, armed: seq<Timer>, t: Timer)
    requires Recorded(callouts, armed) && t.id in callouts && !callouts[t.id].pending
    ensures Recorded(callouts[t.id := callouts[t.id].(expires := t.expires, pending := true)], armed + [t])
    ensures forall i :: 0 <= i < |armed| ==> armed[i].id != t.id
  {
    var c, a := callouts[t.id := callouts[t.id].(expires := t.expires, pending := true)], armed + [t];
    assert forall i :: 0 <= i < |armed| ==> armed[i].id != t.id;
    forall x | x in c && c[x].pending ensures Find(a, x).Some? {
      FindFacts(a, x);
      if x == t.id {
        assert a[|armed|].id == x;
      } else {
        FindFacts(armed, x);
        var j :| 0 <= j < |armed| && armed[j] == Find(armed, x).value;
        assert a[j].id == x;
      }
    }
  }

  lemma NotPending(callouts: map<nat, Callout>, armed: seq<Timer>, id: nat)
    requires Recorded(callouts, armed) && (id !in callouts || !callouts[id].pending)
    ensures Find(armed, id).None?
  {
    FindFacts(armed, id);
  }

  /** What a slot's list says of a timer. */
  predicate SlotEntry(callouts: map<nat, Callout>, id: nat, t: Timer, ticks: nat) {
    id == t.id && id in callouts && callouts[id].expires == t.expires && t.expires % SLOTS == ticks % SLOTS
  }

  lemma SlotEntries(callouts: map<nat, Callout>, wheel: seq<seq<nat>>, armed: seq<Timer>, ticks: nat)
    requires Spread(wheel, armed) && Recorded(callouts, armed)
    ensures var slot, ts := wheel[ticks % SLOTS], OfSlot(armed, ticks % SLOTS);
      |slot| == |ts| && forall i :: 0 <= i < |ts| ==> SlotEntry(callouts, slot[i], ts[i], ticks)
  {
    var slot, ts := wheel[ticks % SLOTS], OfSlot(armed, ticks % SLOTS);
    forall i | 0 <= i < |ts| ensures SlotEntry(callouts, slot[i], ts[i], ticks) {
      OfSlotMembers(armed, ticks % SLOTS, ts[i]);
    }
  }

  lemma OneStep(n: Machine, s: Step, one: seq<Step>)
    requires one == [s] && Enabled(n, s)
    ensures IsRun(n, one) && After(n, one) == Next(n, s)
  {
    assert one[0] == s && one[1..] == [];
    assert IsRun(Next(n, s), []) && After(Next(n, s), []) == Next(n, s);
  }

  lemma EndsTick(f: Flat, m: Machine, steps: seq<Step>)
    requires Inv(f, true) && IsRun(m, steps) && After(m, steps) == Machine(f, true)
    requires FirstDue(f.armed, Ticks(f)).None?
    ensures Inv(f, false) && IsRun(m, steps + [End]) && After(m, steps + [End]) == Machine(f, false)
  {
    TickEndKeeps(f);
    RunSnoc(m, steps, End);
  }

  lemma RunSnoc(m: Machine, steps: seq<Step>, s: Step)
    requires IsRun(m, steps) && Enabled(After(m, steps), s)
    ensures IsRun(m, steps + [s]) && After(m, steps + [s]) == Next(After(m, steps), s)
  {
    OneStep(After(m, steps), s, [s]);
    RunJoin(m, steps, [s]);
  }

  class Wheel {
    var ticks: nat
    var wheel: seq<seq<nat>>
    var callouts: map<nat, Callout>
    ghost var flat: Flat

    ghost predicate Valid()
      reads this
    {
      && ticks == Ticks(flat) && DistinctIds(flat.armed)
      && Spread(wheel, flat.armed) && Recorded(callouts, flat.armed)
    }

    /** `callout_initialize`, and `callout_init` of the timers that will be used */
    constructor (mpsafe: map<nat, bool>)
      ensures Valid() && flat == INITIAL.f && callouts.Keys == mpsafe.Keys
    {
      ticks := 0;
      wheel := seq(SLOTS, _ => []);
      callouts := map id | id in mpsafe :: Callout(0, false, mpsafe[id]);
      flat := INITIAL.f;
      new;
      assert forall k :: 0 <= k < SLOTS ==> Ids(OfSlot([], k)) == [];
    }

    /** `callout_unlink` */
    method Unlink(id: nat)
      requires Valid() && id in callouts && callouts[id].pending
      modifies this
      ensures Valid() && callouts == old(callouts)[id := old(callouts)[id].(pending := false)]
      ensures ticks == old(ticks) && flat == old(flat).(armed := Drop(old(flat).armed, id))
    {
      DropRecords(callouts, flat.armed, id);
      SpreadDrop(wheel, flat.armed, Find(flat.armed, id).value);
      var k := callouts[id].expires % SLOTS;
      wheel := wheel[k := RemoveId(wheel[k], id)];
      callouts := callouts[id := callouts[id].(pending := false)];
      flat := flat.(armed := Drop(flat.armed, id));
    }

    /** `callout_stop` */
    method StopTimer(id: nat) returns (was: bool)
      requires Valid() && id in callouts
      modifies this
      ensures Valid() && flat == Cancel(old(flat), id) && ticks == old(ticks)
      ensures callouts.Keys == old(callouts.Keys)
      ensures was <==> Find(old(flat).armed, id).Some?
    {
      was := callouts[id].pending;
      if was {
        DropRecords(callouts, flat.armed, id);
        ghost var t := Find(flat.armed, id).value;
        Unlink(id);
        flat := flat.(gone := flat.gone + {t.serial});
      } else {
        NotPending(callouts, flat.armed, id);
      }
    }

    /** The tail of `callout_reset`: a timer that is not pending joins its slot. */
    method Link(id: nat, expires: nat, ghost t: Timer)
      requires Valid() && id in callouts && !callouts[id].pending && t.id == id && t.expires == expires
      modifies this
      ensures Valid() && callouts.Keys == old(callouts.Keys) && ticks == old(ticks)
      ensures flat == old(flat).(armed := old(flat).armed + [t])
    {
      SnocRecords(callouts, flat.armed, t);
      SpreadSnoc(wheel, flat.armed, t);
      var k := expires % SLOTS;
      callouts := callouts[id := callouts[id].(expires := expires, pending := true)];
      wheel := wheel[k := wheel[k] + [id]];
      flat := flat.(armed := flat.armed + [t]);
    }

    /** `callout_reset` */
    method ResetTimer(id: nat, delay: nat, ghost mid: bool)
      requires Valid() && id in callouts
      modifies this
      ensures Valid() && flat == Reset(old(flat), id, delay, mid) && ticks == old(ticks)
      ensures callouts.Keys == old(callouts.Keys)
    {
      var d := if delay == 0 then 1 else delay;
      ghost var f := flat;
      var was := StopTimer(id);
      StoppedIsNotPending(flat, f, id, callouts);
      Link(id, (ticks + d) % WORD, NewTimer(f, id, delay));
      flat := flat.(plan := flat.plan + [Arming(flat.now, d, mid)]);
    }

    /** What happens while the lock is released: any arming and stopping, by a callback
        or by another CPU.  Each is one step of the run recorded in `steps`. */
    method Interlude(ops: seq<Op>, ghost m: Machine, ghost steps: seq<Step>) returns (ghost steps': seq<Step>)
      requires Valid() && Inv(flat, true) && IsRun(m, steps) && After(m, steps) == Machine(flat, true)
      requires forall i :: 0 <= i < |ops| ==> ops[i].id in callouts && IsOp(ops[i])
      modifies this
      ensures Valid() && Inv(flat, true) && IsRun(m, steps') && After(m, steps') == Machine(flat, true)
      ensures callouts.Keys == old(callouts.Keys) && flat.now == old(flat.now) && flat.fired == old(flat.fired)
      ensures ticks == old(ticks)
      ensures AllTame(ticks, ops) ==> Due(flat.armed, ticks) <= Due(old(flat.armed), ticks)
    {
      steps' := steps;
      var i := 0;
      while i < |ops|
        invariant i <= |ops| && Valid() && Inv(flat, true) && ticks == old(ticks)
        invariant IsRun(m, steps') && After(m, steps') == Machine(flat, true)
        invariant callouts.Keys == old(callouts.Keys) && flat.now == old(flat.now) && flat.fired == old(flat.fired)
        invariant AllTame(ticks, ops) ==> Due(flat.armed, ticks) <= Due(old(flat.armed), ticks)
      {
        OpKeeps(flat, ops[i], true);
        OpAddsNoneDue(flat, ops[i]);
        RunSnoc(m, steps', Do(ops[i]));
        steps' := steps' + [Do(ops[i])];
        match ops[i] {
          case Arm(id, delay) => ResetTimer(id, delay, true);
          case Stop(id) => var was := StopTimer(id);
        }
        i := i + 1;
      }
    }

    /** The search loop of `callout_tick`: the first timer of the slot that is due. */
    method FindDue() returns (due: Option<nat>)
      requires Valid()
      ensures var d := FirstDue(flat.armed, ticks);
        && (due.Some? <==> d.Some?)
        && (due.Some? ==> d.value.id == due.value && due.value in callouts && callouts[due.value].pending)
    {
      SlotHoldsAllDue(flat.armed, ticks);
      FirstDueFacts(flat.armed, ticks);
      SlotEntries(callouts, wheel, flat.armed, ticks);
      due := SearchSlot(wheel[ticks % SLOTS], OfSlot(flat.armed, ticks % SLOTS));
    }

    method SearchSlot(slot: seq<nat>, ghost ts: seq<Timer>) returns (due: Option<nat>)
      requires |slot| == |ts| && forall i :: 0 <= i < |ts| ==> SlotEntry(callouts, slot[i], ts[i], ticks)
      ensures due.Some? <==> FirstDue(ts, ticks).Some?
      ensures due.Some? ==> FirstDue(ts, ticks).value.id == due.value
    {
      var i := 0;
      while i < |slot|
        invariant i <= |slot|
        invariant FirstDue(ts, ticks) == FirstDue(ts[i..], ticks)
      {
        assert SlotEntry(callouts, slot[i], ts[i], ticks);
        Seqs.DropDrop(ts, i, 1);
        if callouts[slot[i]].expires <= ticks {
          return Some(slot[i]);
        }
        i := i + 1;
      }
      return None;
    }

    /** Dispatch of one due timer: unlinked first, then its callback runs. */
    method DispatchDue(due: nat, ops: seq<Op>, ghost m: Machine, ghost steps: seq<Step>)
      returns (ghost steps': seq<Step>)
      requires Valid() && Inv(flat, true) && IsRun(m, steps) && After(m, steps) == Machine(flat, true)
      requires FirstDue(flat.armed, ticks).Some? && FirstDue(flat.armed, ticks).value.id == due
      requires due in callouts && callouts[due].pending
      requires forall i :: 0 <= i < |ops| ==> ops[i].id in callouts && IsOp(ops[i])
      modifies this
      ensures Valid() && Inv(flat, true) && IsRun(m, steps') && After(m, steps') == Machine(flat, true)
      ensures callouts.Keys == old(callouts.Keys) && flat.now == old(flat.now) && ticks == old(ticks)
      ensures AllTame(ticks, ops) ==> Due(flat.armed, ticks) < Due(old(flat.armed), ticks)
      ensures flat.fired == old(flat.fired) + [Firing(FirstDue(old(flat.armed), old(ticks)).value.serial, flat.now)]
    {
      ghost var f, t := flat, FirstDue(flat.armed, ticks).value;
      FireKeeps(f, t);
      DueDropped(f, t);
      RunSnoc(m, steps, Dispatch);
      Unlink(due);
      flat := Fire(f, t);
      steps' := Interlude(ops, m, steps + [Dispatch]);
    }

    /** The counter moves on. */
    method BeginTick() returns (ghost steps: seq<Step>)
      requires Valid() && Inv(flat, false)
      modifies this
      ensures Valid() && Inv(flat, true) && flat.now == old(flat.now) + 1 && flat.armed == old(flat.armed)
      ensures callouts == old(callouts) && flat.fired == old(flat.fired)
      ensures IsRun(Machine(old(flat), false), steps) && After(Machine(old(flat), false), steps) == Machine(flat, true)
    {
      TickBeginKeeps(flat);
      OneStep(Machine(flat, false), Begin, [Begin]);
      ticks := (ticks + 1) % WORD;
      flat := TickBegin(flat);
      steps := [Begin];
    }

    /** One turn of the loop of `callout_tick`: the big locks are taken for a timer that
        needs them, or it is dispatched. */
    method TakeTurn(due: nat, ops: seq<Op>, bigLocks: bool, ghost m: Machine, ghost steps: seq<Step>)
      returns (fired: nat, locks: bool, ghost steps': seq<Step>)
      requires Valid() && Inv(flat, true) && IsRun(m, steps) && After(m, steps) == Machine(flat, true)
      requires FirstDue(flat.armed, ticks).Some? && FirstDue(flat.armed, ticks).value.id == due
      requires due in callouts && callouts[due].pending
      requires forall i :: 0 <= i < |ops| ==> ops[i].id in callouts && IsOp(ops[i])
      modifies this
      ensures Valid() && Inv(flat, true) && IsRun(m, steps') && After(m, steps') == Machine(flat, true)
      ensures callouts.Keys == old(callouts.Keys) && flat.now == old(flat.now) && ticks == old(ticks)
      ensures |flat.fired| == |old(flat.fired)| + fired && (fired == 0 ==> locks && !bigLocks)
      ensures AllTame(ticks, ops) ==> fired + Due(flat.armed, ticks) <= Due(old(flat.armed), ticks)
    {
      if !callouts[due].mpsafe && !bigLocks {
        steps' := Interlude(ops, m, steps);
        return 0, true, steps';
      }
      steps' := DispatchDue(due, ops, m, steps);
      return 1, bigLocks, steps';
    }

    /** `callout_tick`, with what happens at each release of the lock given by
        `interludes`.  It is one whole tick of the flat list: nothing due is left behind, and
        the run of the flat list has the same dispatches.  When the interludes make nothing
        due in this tick, it dispatches no more than was due when it began. */
    method Tick(interludes: seq<seq<Op>>) returns (dispatched: nat, ghost steps: seq<Step>)
      requires Valid() && Inv(flat, false)
      requires forall i, j :: 0 <= i < |interludes| && 0 <= j < |interludes[i]| ==>
                 interludes[i][j].id in callouts && IsOp(interludes[i][j])
      modifies this
      ensures Valid() && Inv(flat, false) && flat.now == old(flat.now) + 1
      ensures IsRun(Machine(old(flat), false), steps) && After(Machine(old(flat), false), steps) == Machine(flat, false)
      ensures |flat.fired| == |old(flat.fired)| + dispatched
      ensures (forall i :: 0 <= i < |interludes| ==> AllTame(ticks, interludes[i])) ==>
                dispatched <= Due(old(flat.armed), ticks)
    {
      ghost var m := Machine(flat, false);
      steps := BeginTick();
      dispatched := 0;
      ghost var tame := forall i :: 0 <= i < |interludes| ==> AllTame(ticks, interludes[i]);
      ghost var counter := ticks;
      var bigLocks, turn := false, 0;
      while true
        invariant Valid() && Inv(flat, true) && flat.now == old(flat.now) + 1 && ticks == counter
        invariant IsRun(m, steps) && After(m, steps) == Machine(flat, true)
        invariant callouts.Keys == old(callouts.Keys) && turn <= |interludes|
        invariant |flat.fired| == |old(flat.fired)| + dispatched
        invariant tame ==> dispatched + Due(flat.armed, ticks) <= Due(old(flat.armed), ticks)
        decreases |interludes| - turn, Due(flat.armed, ticks), if bigLocks then 0 else 1
      {
        var due := FindDue();
        if due.None? {
          break;
        }
        var ops := [];
        if turn < |interludes| {
          ops, turn := interludes[turn], turn + 1;
        }
        var fired;
        fired, bigLocks, steps := TakeTurn(due.value, ops, bigLocks, m, steps);
        dispatched := dispatched + fired;
      }
      EndsTick(flat, m, steps);
      steps := steps + [End];
    }
  }

  ghost predicate AllTame(ticks: nat, ops: seq<Op>) {
    forall i :: 0 <= i < |ops| ==> Tame(ticks, ops[i])
  }

  lemma DueDropped(f: Flat, t: Timer)
    requires DistinctIds(f.armed) && FirstDue(f.armed, Ticks(f)) == Some(t)
    ensures Due(Fire(f, t).armed, Ticks(f)) == Due(f.armed, Ticks(f)) - 1
  {
    FirstDueFacts(f.armed, Ticks(f));
    var i :| 0 <= i < |f.armed| && f.armed[i] == t;
    DropAt(f.armed, i);
    DueDrop(f.armed, t.id, Ticks(f));
  }

  lemma StoppedIsNotPending(g: Flat, f: Flat, id: nat, callouts: map<nat, Callout>)
    requires DistinctIds(f.armed) && g == Cancel(f, id) && Recorded(callouts, g.armed) && id in callouts
    ensures !callouts[id].pending
  {
    FindFacts(f.armed, id);
    DropFacts(f.armed, id);
    FindFacts(g.armed, id);
  }
}
