/** The timer wheel.

    `Flat` is what the wheel stands for: the armed timers in arming order with
    their deadlines.  The wheel spreads them over 256 slot lists and looks into
    one slot per tick.  The lock is released around every callback, so other
    CPUs and the callback itself may arm and stop timers in the middle of a
    tick; these are the interludes below.
 */
module Timers {
  import opened Basics
  import Modular
  import Seqs

  const SLOTS: nat := 256

  datatype Timer = Timer(id: nat, expires: nat, serial: nat)

  datatype Firing = Firing(serial: nat, tick: nat)

  /** A call of `callout_reset`: the tick it came in, the delay, and whether it came in the
      middle of that tick's dispatching. */
  datatype Arming = Arming(at: nat, delay: nat, mid: bool)

  /** `now` counts all ticks; the code's counter is `now % WORD`.  Each arming has a
      serial number; `fired` and `gone` record the armings that were dispatched and
      cancelled. */
  datatype Flat = Flat(now: nat, armed: seq<Timer>, plan: seq<Arming>, fired: seq<Firing>, gone: set<nat>)

  datatype Op = Arm(id: nat, delay: nat) | Stop(id: nat)

  // ---- operations on the flat list ----

  function Ticks(f: Flat): nat {
    f.now % WORD
  }

  function Delay(delay: nat): (d: nat)
    ensures 0 < d
  {
    if delay == 0 then 1 else delay
  }

  function Find(armed: seq<Timer>, id: nat): Option<Timer> {
    if armed == [] then None
    else if armed[0].id == id then Some(armed[0])
    else Find(armed[1..], id)
  }

  function Drop(armed: seq<Timer>, id: nat): seq<Timer> {
    if armed == [] then []
    else if armed[0].id == id then armed[1..]
    else [armed[0]] + Drop(armed[1..], id)
  }

  /** `callout_stop`, and the first half of a re-arming */
  function Cancel(f: Flat, id: nat): Flat {
    match Find(f.armed, id)
    case None => f
    case Some(t) => f.(armed := Drop(f.armed, id), gone := f.gone + {t.serial})
  }

  function NewTimer(f: Flat, id: nat, delay: nat): Timer {
    Timer(id, (Ticks(f) + Delay(delay)) % WORD, |f.plan|)
  }

  /** `callout_reset` */
  function Reset(f: Flat, id: nat, delay: nat, mid: bool): Flat {
    var g := Cancel(f, id);
    g.(armed := g.armed + [NewTimer(f, id, delay)], plan := f.plan + [Arming(f.now, Delay(delay), mid)])
  }

  function Apply(f: Flat, op: Op, mid: bool): Flat {
    match op
    case Arm(id, delay) => Reset(f, id, delay, mid)
    case Stop(id) => Cancel(f, id)
  }

  /** Delays are 64-bit words. */
  predicate IsOp(op: Op) {
    op.Arm? ==> op.delay < WORD
  }

  /** What a tick dispatches when its counter is `ticks`: the timers of one slot whose
      deadline the counter has reached. */
  predicate IsDue(expires: nat, ticks: nat) {
    expires <= ticks && expires % SLOTS == ticks % SLOTS
  }

  function FirstDue(armed: seq<Timer>, ticks: nat): Option<Timer> {
    if armed == [] then None
    else if IsDue(armed[0].expires, ticks) then Some(armed[0])
    else FirstDue(armed[1..], ticks)
  }

  function Fire(f: Flat, t: Timer): Flat {
    f.(armed := Drop(f.armed, t.id), fired := f.fired + [Firing(t.serial, f.now)])
  }

  // ---- when an arming comes up ----

  /** How far off the first look into an arming's slot is; in the middle of a tick the
      tick's own slot is still being looked into. */
  function FirstLook(a: Arming): nat
    requires a.delay > 0
  {
    if a.mid then a.delay % SLOTS else (a.delay - 1) % SLOTS + 1
  }

  /** The counter reaches the deadline without wrapping, or wraps before the slot is first
      looked into. */
  predicate OnTime(a: Arming)
    requires a.delay > 0
  {
    a.at % WORD + a.delay < WORD || a.at % WORD + FirstLook(a) >= WORD
  }

  /** The tick that dispatches an arming. */
  function Comes(a: Arming): (n: nat)
    requires a.delay > 0
  {
    if OnTime(a) then a.at + a.delay else a.at + FirstLook(a)
  }

  /** The deadline the code stores. */
  function Expires(a: Arming): nat {
    (a.at % WORD + a.delay) % WORD
  }

  predicate ArmingOk(a: Arming) {
    0 < a.delay < WORD
  }

  /** Whether the timer with that deadline is due in tick `n`. */
  predicate DueIn(expires: nat, n: nat) {
    IsDue(expires, n % WORD)
  }

  /** The counter some ticks later: it has wrapped once or not at all. */
  lemma CounterLater(at: nat, k: nat)
    requires k < WORD
    ensures (at + k) % WORD == if at % WORD + k < WORD then at % WORD + k else at % WORD + k - WORD
  {
    var q, r := at / WORD, at % WORD;
    if r + k < WORD {
      Modular.DivModUnique(at + k, WORD, q, r + k);
    } else {
      Modular.DivModUnique(at + k, WORD, q + 1, r + k - WORD);
    }
  }

  lemma SlotLater(at: nat, k: nat)
    requires k < WORD
    ensures (at + k) % WORD % SLOTS == (at % WORD + k) % SLOTS
  {
    CounterLater(at, k);
  }

  /** In which of the next ticks an arming is due. */
  lemma DueLater(a: Arming, k: nat)
    requires ArmingOk(a) && k <= a.delay
    ensures var t := a.at % WORD;
      DueIn(Expires(a), a.at + k) <==> k % SLOTS == a.delay % SLOTS && (k == a.delay || t + a.delay >= WORD > t + k)
  {
    CounterLater(a.at, a.delay);
    CounterLater(a.at, k);
    SlotLater(a.at, a.delay);
    SlotLater(a.at, k);
    var t := a.at % WORD;
    assert Expires(a) == (a.at + a.delay) % WORD;
    SameSlot(t, k, a.delay);
  }

  lemma SameSlot(t: nat, k: nat, d: nat)
    ensures (t + k) % SLOTS == (t + d) % SLOTS <==> k % SLOTS == d % SLOTS
  {}

  lemma FirstLookIs(a: Arming)
    requires ArmingOk(a)
    ensures FirstLook(a) % SLOTS == a.delay % SLOTS && FirstLook(a) <= a.delay && (!a.mid ==> FirstLook(a) > 0)
    ensures forall k: nat :: k < FirstLook(a) && (k > 0 || a.mid) ==> k % SLOTS != a.delay % SLOTS
  {}

  /** The closed form is right: the arming is due in that tick, and in none before it that
      still comes. */
  lemma ComesFirst(a: Arming, n: nat)
    requires ArmingOk(a) && a.at <= n <= Comes(a) && (n == a.at ==> a.mid)
    ensures Comes(a) >= a.at && (!a.mid ==> Comes(a) > a.at)
    ensures DueIn(Expires(a), n) <==> n == Comes(a)
  {
    FirstLookIs(a);
    DueLater(a, n - a.at);
  }

  /** An arming comes up on time if and only if its deadline fits the counter, or the counter
      wraps before the wheel first looks into its slot. */
  lemma OnTimeIff(a: Arming)
    requires ArmingOk(a)
    ensures Comes(a) == a.at + a.delay <==>
              a.at % WORD + a.delay < WORD || a.at % WORD + FirstLook(a) >= WORD
  {
    FirstLookIs(a);
  }

  // ---- invariant ----

  ghost predicate DistinctIds(armed: seq<Timer>) {
    forall i, j :: 0 <= i < j < |armed| ==> armed[i].id != armed[j].id
  }

  /** An armed timer's tick is not past; while no tick is being dispatched it is strictly
      ahead, and in the ticks until then the timer is not due. */
  ghost predicate Ahead(f: Flat, t: Timer, dispatching: bool) {
    && t.serial < |f.plan| && ArmingOk(f.plan[t.serial]) && t.expires == Expires(f.plan[t.serial])
    && f.plan[t.serial].at <= f.now <= Comes(f.plan[t.serial])
    && (f.now == f.plan[t.serial].at && dispatching ==> f.plan[t.serial].mid)
    && (!dispatching ==> f.now < Comes(f.plan[t.serial]))
  }

  ghost predicate Armed(f: Flat, serial: nat) {
    exists i :: 0 <= i < |f.armed| && f.armed[i].serial == serial
  }

  ghost predicate Fired(f: Flat, serial: nat) {
    exists i :: 0 <= i < |f.fired| && f.fired[i].serial == serial
  }

  /** Every arming has exactly one fate. */
  ghost predicate OneFate(f: Flat, serial: nat) {
    && (Armed(f, serial) || Fired(f, serial) || serial in f.gone)
    && !(Armed(f, serial) && Fired(f, serial))
    && !(Armed(f, serial) && serial in f.gone)
    && !(Fired(f, serial) && serial in f.gone)
  }

  ghost predicate Inv(f: Flat, dispatching: bool) {
    && DistinctIds(f.armed)
    && (forall i, j :: 0 <= i < j < |f.armed| ==> f.armed[i].serial != f.armed[j].serial)
    && (forall i :: 0 <= i < |f.armed| ==> Ahead(f, f.armed[i], dispatching))
    && (forall i, j :: 0 <= i < j < |f.fired| ==> f.fired[i].serial != f.fired[j].serial)
    && (forall s: nat :: s < |f.plan| ==> ArmingOk(f.plan[s]))
    && (forall i :: 0 <= i < |f.fired| ==>
          f.fired[i].serial < |f.plan| && f.fired[i].tick == Comes(f.plan[f.fired[i].serial]))
    && (forall s :: s in f.gone ==> s < |f.plan|)
    && (forall s: nat :: s < |f.plan| ==> OneFate(f, s))
  }

  // ---- lists ----

  lemma {:induction false} FindFacts(armed: seq<Timer>, id: nat)
    ensures Find(armed, id).Some? ==> Find(armed, id).value in armed && Find(armed, id).value.id == id
    ensures Find(armed, id).None? ==> forall i :: 0 <= i < |armed| ==> armed[i].id != id
    ensures Find(armed, id).None? ==> Drop(armed, id) == armed
  {
    if armed != [] && armed[0].id != id {
      FindFacts(armed[1..], id);
      Seqs.HeadTail(armed);
    }
  }

  lemma {:induction false} DropAt(armed: seq<Timer>, i: nat)
    requires i < |armed| && DistinctIds(armed)
    ensures Drop(armed, armed[i].id) == armed[..i] + armed[i + 1..]
    ensures Find(armed, armed[i].id) == Some(armed[i])
  {
    if i > 0 {
      DropAt(armed[1..], i - 1);
      assert armed[1..][..i - 1] == armed[1..i];
      assert armed[1..][i..] == armed[i + 1..];
      assert [armed[0]] + armed[1..i] == armed[..i];
    }
  }

  lemma DropLeavesNone(armed: seq<Timer>, i: nat, r: seq<Timer>)
    requires i < |armed| && DistinctIds(armed) && r == armed[..i] + armed[i + 1..]
    ensures forall k :: 0 <= k < |r| ==> r[k].id != armed[i].id
  {
    assert forall k :: 0 <= k < |r| ==> r[k] == armed[if k < i then k else k + 1];
  }

  /** `g` is `f` with the `i`-th armed timer cancelled or fired. */
  ghost predicate Taken(f: Flat, i: nat, g: Flat) {
    && i < |f.armed| && g.armed == f.armed[..i] + f.armed[i + 1..] && g.plan == f.plan && g.now == f.now
    && ((g.fired == f.fired && g.gone == f.gone + {f.armed[i].serial})
        || (g.gone == f.gone && g.fired == f.fired + [Firing(f.armed[i].serial, f.now)]))
  }

  lemma FateAfterTaking(f: Flat, i: nat, g: Flat, x: nat)
    requires Taken(f, i, g) && OneFate(f, x)
    requires forall j, k :: 0 <= j < k < |f.armed| ==> f.armed[j].serial != f.armed[k].serial
    ensures OneFate(g, x)
  {
    assert forall k :: 0 <= k < |g.armed| ==> g.armed[k] == f.armed[if k < i then k else k + 1];
    if x == f.armed[i].serial {
      assert Armed(f, x);
      assert g.fired != f.fired ==> g.fired[|f.fired|].serial == x;
    } else {
      if Armed(f, x) {
        var k :| 0 <= k < |f.armed| && f.armed[k].serial == x;
        assert g.armed[if k < i then k else k - 1].serial == x;
      }
      if Fired(f, x) {
        var k :| 0 <= k < |f.fired| && f.fired[k].serial == x;
        assert g.fired[k].serial == x;
      }
    }
  }

  /** Taking one arming off the list and giving it another fate. */
  lemma RemoveArming(f: Flat, i: nat, g: Flat, dispatching: bool)
    requires Inv(f, dispatching) && Taken(f, i, g)
    requires g.fired != f.fired ==>
      && f.armed[i].serial < |f.plan| && ArmingOk(f.plan[f.armed[i].serial])
      && Comes(f.plan[f.armed[i].serial]) == f.now
    ensures Inv(g, dispatching)
  {
    assert forall k :: 0 <= k < |g.armed| ==> g.armed[k] == f.armed[if k < i then k else k + 1];
    assert Ahead(f, f.armed[i], dispatching);
    assert Armed(f, f.armed[i].serial) && OneFate(f, f.armed[i].serial);
    forall x: nat | x < |g.plan| ensures OneFate(g, x) {
      FateAfterTaking(f, i, g, x);
    }
    forall k | 0 <= k < |g.armed| ensures Ahead(g, g.armed[k], dispatching) {
      assert Ahead(f, f.armed[if k < i then k else k + 1], dispatching);
    }
  }

  lemma CancelKeeps(f: Flat, id: nat, dispatching: bool)
    requires Inv(f, dispatching)
    ensures Inv(Cancel(f, id), dispatching)
    ensures forall i :: 0 <= i < |Cancel(f, id).armed| ==> Cancel(f, id).armed[i].id != id
  {
    FindFacts(f.armed, id);
    if Find(f.armed, id).Some? {
      var i :| 0 <= i < |f.armed| && f.armed[i] == Find(f.armed, id).value;
      DropAt(f.armed, i);
      DropLeavesNone(f.armed, i, Drop(f.armed, id));
      RemoveArming(f, i, Cancel(f, id), dispatching);
    }
  }

  lemma ResetKeeps(f: Flat, id: nat, delay: nat, dispatching: bool)
    requires Inv(f, dispatching) && delay < WORD
    ensures Inv(Reset(f, id, delay, dispatching), dispatching)
  {
    CancelKeeps(f, id, dispatching);
    var g, h := Cancel(f, id), Reset(f, id, delay, dispatching);
    var a := Arming(f.now, Delay(delay), dispatching);
    ComesFirst(a, if dispatching then f.now else f.now + 1) by {
      FirstLookIs(a);
    }
    forall i | 0 <= i < |h.armed| ensures Ahead(h, h.armed[i], dispatching) {
      if i < |g.armed| {
        assert Ahead(g, g.armed[i], dispatching);
      }
    }
    forall x: nat | x < |h.plan| ensures OneFate(h, x) {
      if x < |g.plan| {
        assert OneFate(g, x);
        if Armed(g, x) {
          var k :| 0 <= k < |g.armed| && g.armed[k].serial == x;
          assert h.armed[k].serial == x;
        }
      } else {
        assert h.armed[|g.armed|].serial == x;
      }
    }
  }

  lemma OpKeeps(f: Flat, op: Op, dispatching: bool)
    requires Inv(f, dispatching) && IsOp(op)
    ensures Inv(Apply(f, op, dispatching), dispatching)
  {
    match op
    case Arm(id, delay) => ResetKeeps(f, id, delay, dispatching);
    case Stop(id) => CancelKeeps(f, id, dispatching);
  }

  // ---- ticks ----

  lemma {:induction false} FirstDueFacts(armed: seq<Timer>, ticks: nat)
    ensures FirstDue(armed, ticks).Some? ==>
              FirstDue(armed, ticks).value in armed && IsDue(FirstDue(armed, ticks).value.expires, ticks)
    ensures FirstDue(armed, ticks).None? ==> forall i :: 0 <= i < |armed| ==> !IsDue(armed[i].expires, ticks)
  {
    if armed != [] && !IsDue(armed[0].expires, ticks) {
      FirstDueFacts(armed[1..], ticks);
    }
  }

  /** A timer is due on the counter exactly when its tick is reached. */
  lemma DueOnTime(f: Flat, t: Timer)
    requires Ahead(f, t, true)
    ensures IsDue(t.expires, Ticks(f)) <==> Comes(f.plan[t.serial]) == f.now
  {
    ComesFirst(f.plan[t.serial], f.now);
  }

  function TickBegin(f: Flat): Flat {
    f.(now := f.now + 1)
  }

  lemma TickBeginKeeps(f: Flat)
    requires Inv(f, false)
    ensures Inv(TickBegin(f), true)
  {
    var g := TickBegin(f);
    forall i | 0 <= i < |g.armed| ensures Ahead(g, g.armed[i], true) {
      assert Ahead(f, f.armed[i], false);
    }
    forall x: nat | x < |g.plan| ensures OneFate(g, x) {
      assert OneFate(f, x);
      assert Armed(f, x) == Armed(g, x) && Fired(f, x) == Fired(g, x);
    }
  }

  lemma FireKeeps(f: Flat, t: Timer)
    requires Inv(f, true) && FirstDue(f.armed, Ticks(f)) == Some(t)
    ensures Inv(Fire(f, t), true)
    ensures t.serial < |f.plan| && ArmingOk(f.plan[t.serial]) && Comes(f.plan[t.serial]) == f.now
  {
    FirstDueFacts(f.armed, Ticks(f));
    var i :| 0 <= i < |f.armed| && f.armed[i] == t;
    assert Ahead(f, t, true);
    DueOnTime(f, t);
    DropAt(f.armed, i);
    RemoveArming(f, i, Fire(f, t), true);
  }

  lemma TickEndKeeps(f: Flat)
    requires Inv(f, true) && FirstDue(f.armed, Ticks(f)).None?
    ensures Inv(f, false)
  {
    FirstDueFacts(f.armed, Ticks(f));
    forall i | 0 <= i < |f.armed| ensures Ahead(f, f.armed[i], false) {
      assert Ahead(f, f.armed[i], true);
      DueOnTime(f, f.armed[i]);
    }
  }

  // ---- whole runs ----

  datatype Step = Do(op: Op) | Begin | Dispatch | End

  datatype Machine = Machine(f: Flat, dispatching: bool)

  predicate Enabled(m: Machine, s: Step) {
    match s
    case Do(op) => IsOp(op)
    case Begin => !m.dispatching
    case Dispatch => m.dispatching && FirstDue(m.f.armed, Ticks(m.f)).Some?
    case End => m.dispatching && FirstDue(m.f.armed, Ticks(m.f)).None?
  }

  function Next(m: Machine, s: Step): Machine
    requires Enabled(m, s)
  {
    match s
    case Do(op) => m.(f := Apply(m.f, op, m.dispatching))
    case Begin => Machine(TickBegin(m.f), true)
    case Dispatch => m.(f := Fire(m.f, FirstDue(m.f.armed, Ticks(m.f)).value))
    case End => m.(dispatching := false)
  }

  ghost predicate IsRun(m: Machine, steps: seq<Step>)
    decreases |steps|
  {
    steps == [] || (Enabled(m, steps[0]) && IsRun(Next(m, steps[0]), steps[1..]))
  }

  ghost function After(m: Machine, steps: seq<Step>): Machine
    requires IsRun(m, steps)
    decreases |steps|
  {
    if steps == [] then m else After(Next(m, steps[0]), steps[1..])
  }

  lemma {:induction false} RunKeeps(m: Machine, steps: seq<Step>)
    requires Inv(m.f, m.dispatching) && IsRun(m, steps)
    ensures Inv(After(m, steps).f, After(m, steps).dispatching)
    decreases |steps|
  {
    if steps != [] {
      match steps[0] {
        case Do(op) => OpKeeps(m.f, op, m.dispatching);
        case Begin => TickBeginKeeps(m.f);
        case Dispatch => FireKeeps(m.f, FirstDue(m.f.armed, Ticks(m.f)).value);
        case End => TickEndKeeps(m.f);
      }
      RunKeeps(Next(m, steps[0]), steps[1..]);
    }
  }

  const INITIAL := Machine(Flat(0, [], [], [], {}), false)

  /** Exactly once, in its tick.  In every run, whatever callbacks and other CPUs arm and stop
      and with whatever delays: an arming is never dispatched in another tick than the one it
      comes up in, nor twice; before that tick it is armed or cancelled; and once the
      dispatching of that tick is over it has been dispatched, unless it was stopped or
      re-armed. */
  lemma DispatchedExactlyOnce(steps: seq<Step>, serial: nat)
    requires IsRun(INITIAL, steps) && serial < |After(INITIAL, steps).f.plan|
    ensures var m := After(INITIAL, steps);
      && ArmingOk(m.f.plan[serial])
      && var due := Comes(m.f.plan[serial]);
      && (forall i :: 0 <= i < |m.f.fired| && m.f.fired[i].serial == serial ==> m.f.fired[i].tick == due <= m.f.now)
      && (forall i, j :: 0 <= i < j < |m.f.fired| ==> m.f.fired[i].serial != m.f.fired[j].serial)
      && (m.f.now < due ==> !Fired(m.f, serial) && (Armed(m.f, serial) || serial in m.f.gone))
      && (due < m.f.now || (due == m.f.now && !m.dispatching) ==>
            !Armed(m.f, serial) && (Fired(m.f, serial) <==> serial !in m.f.gone))
  {
    RunKeeps(INITIAL, steps);
    FiredInPast(INITIAL, steps);
    var m := After(INITIAL, steps);
    assert OneFate(m.f, serial);
  }

  lemma {:induction false} FiredInPast(m: Machine, steps: seq<Step>)
    requires IsRun(m, steps)
    requires forall i :: 0 <= i < |m.f.fired| ==> m.f.fired[i].tick <= m.f.now
    ensures forall i :: 0 <= i < |After(m, steps).f.fired| ==>
              After(m, steps).f.fired[i].tick <= After(m, steps).f.now
    decreases |steps|
  {
    if steps != [] {
      FiredInPast(Next(m, steps[0]), steps[1..]);
    }
  }

  /** An arming that is dispatched is dispatched when it was meant to be if and only if its
      deadline fits the counter, or the counter wraps before the wheel first looks into its
      slot. */
  lemma FiresOnTimeIff(steps: seq<Step>, i: nat)
    requires IsRun(INITIAL, steps) && i < |After(INITIAL, steps).f.fired|
    ensures var f := After(INITIAL, steps).f;
      && f.fired[i].serial < |f.plan|
      && var a := f.plan[f.fired[i].serial];
      && ArmingOk(a)
      && (f.fired[i].tick == a.at + a.delay <==>
            a.at % WORD + a.delay < WORD || a.at % WORD + FirstLook(a) >= WORD)
  {
    RunKeeps(INITIAL, steps);
    var f := After(INITIAL, steps).f;
    OnTimeIff(f.plan[f.fired[i].serial]);
  }

  // ---- an arming that comes up too early ----

  /** `k` ticks in which nothing is due. */
  function Idle(k: nat): seq<Step> {
    if k == 0 then [] else [Begin, End] + Idle(k - 1)
  }

  lemma {:induction false} RunJoin(m: Machine, a: seq<Step>, b: seq<Step>)
    requires IsRun(m, a) && IsRun(After(m, a), b)
    ensures IsRun(m, a + b) && After(m, a + b) == After(After(m, a), b)
    decreases |a|
  {
    if a == [] {
      Seqs.Nil(b);
    } else {
      Seqs.ConcatTail(a, b);
      RunJoin(Next(m, a[0]), a[1..], b);
    }
  }

  /** One tick in which the only timer is not due. */
  lemma IdleTick(m: Machine, t: Timer)
    requires Inv(m.f, false) && !m.dispatching && m.f.armed == [t] && t.serial < |m.f.plan|
    requires ArmingOk(m.f.plan[t.serial]) && m.f.now + 1 < Comes(m.f.plan[t.serial])
    ensures var n := Machine(TickBegin(m.f), false);
      IsRun(m, [Begin, End]) && After(m, [Begin, End]) == n && Inv(n.f, false)
  {
    TickBeginKeeps(m.f);
    var g := TickBegin(m.f);
    assert Ahead(g, g.armed[0], true);
    DueOnTime(g, t);
    FirstDueFacts(g.armed, Ticks(g));
    TickEndKeeps(g);
    var n := Machine(g, true);
    assert [Begin, End][1..] == [End] && [End][1..] == [];
    assert IsRun(n, [End]) && After(n, [End]) == Machine(g, false);
  }

  lemma {:induction false} IdleRuns(m: Machine, t: Timer, k: nat)
    requires Inv(m.f, false) && !m.dispatching && m.f.armed == [t] && t.serial < |m.f.plan|
    requires ArmingOk(m.f.plan[t.serial]) && m.f.now + k < Comes(m.f.plan[t.serial])
    ensures var n := Machine(m.f.(now := m.f.now + k), false);
      IsRun(m, Idle(k)) && After(m, Idle(k)) == n && Inv(n.f, false)
    decreases k
  {
    if k > 0 {
      IdleTick(m, t);
      var n := Machine(TickBegin(m.f), false);
      IdleRuns(n, t, k - 1);
      RunJoin(m, [Begin, End], Idle(k - 1));
    }
  }

  /** The only timer is dispatched when its tick comes. */
  lemma DueTick(m: Machine, t: Timer)
    requires Inv(m.f, false) && !m.dispatching && m.f.armed == [t] && t.serial < |m.f.plan|
    requires ArmingOk(m.f.plan[t.serial]) && m.f.now + 1 == Comes(m.f.plan[t.serial])
    ensures IsRun(m, [Begin, Dispatch])
    ensures After(m, [Begin, Dispatch]).f.fired == m.f.fired + [Firing(t.serial, m.f.now + 1)]
    ensures After(m, [Begin, Dispatch]).f.plan == m.f.plan
  {
    TickBeginKeeps(m.f);
    var g := TickBegin(m.f);
    assert Ahead(g, g.armed[0], true);
    DueOnTime(g, t);
    var n := Machine(g, true);
    assert [Begin, Dispatch][1..] == [Dispatch] && [Dispatch][1..] == [];
    assert IsRun(n, [Dispatch]) && After(n, [Dispatch]) == Next(n, Dispatch);
  }

  /** From boot: after one tick a timer is armed for 2^64 - 1 ticks. */
  function LongArming(): Machine {
    Machine(Flat(1, [Timer(0, 0, 0)], [Arming(1, WORD - 1, false)], [], {}), false)
  }

  lemma LongArmingRuns()
    ensures var steps := [Begin, End, Do(Arm(0, WORD - 1))];
      IsRun(INITIAL, steps) && After(INITIAL, steps) == LongArming()
  {
    var f := Flat(1, [], [], [], {});
    var a, b, c := Machine(f, true), Machine(f, false), LongArming();
    var steps := [Begin, End, Do(Arm(0, WORD - 1))];
    assert steps[1..] == [End, Do(Arm(0, WORD - 1))] && steps[1..][1..] == [Do(Arm(0, WORD - 1))];
    assert steps[1..][1..][1..] == [];
    assert Next(INITIAL, Begin) == a && Next(a, End) == b && Next(b, Do(Arm(0, WORD - 1))) == c;
    assert IsRun(b, steps[1..][1..]) && After(b, steps[1..][1..]) == c;
    assert IsRun(a, steps[1..]) && After(a, steps[1..]) == c;
  }

  /** It is dispatched in tick 256 instead of tick 2^64. */
  lemma LongDelayFiresEarly(k: nat)
    requires k == 254
    ensures var steps := [Begin, End, Do(Arm(0, WORD - 1))] + (Idle(k) + [Begin, Dispatch]);
      && IsRun(INITIAL, steps)
      && After(INITIAL, steps).f.plan == [Arming(1, WORD - 1, false)]
      && After(INITIAL, steps).f.fired == [Firing(0, 256)]
  {
    LongArmingRuns();
    RunKeeps(INITIAL, [Begin, End, Do(Arm(0, WORD - 1))]);
    var m, t := LongArming(), Timer(0, 0, 0);
    assert Comes(Arming(1, WORD - 1, false)) == 256;
    IdleRuns(m, t, k);
    var n := Machine(m.f.(now := 255), false);
    DueTick(n, t);
    RunJoin(m, Idle(k), [Begin, Dispatch]);
    RunJoin(INITIAL, [Begin, End, Do(Arm(0, WORD - 1))], Idle(k) + [Begin, Dispatch]);
  }
}
