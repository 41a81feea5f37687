/** A wake-up spent on the wrong word, from boot: two processes wait on words that share a
    key, and the wake-up of the second word makes the first process ready.
 */
module FutexCrowd {
  import opened Basics
  import opened WaitTree
  import opened Scheduler
  import opened FutexKeys
  import opened Futex
  import Seqs

  // ---- runs from boot ----

  function Begun(word: map<Word, bv32>): Futex {
    Futex(Boot(1), word, map[])
  }

  /** Reached by some run on one CPU, whatever memory held. */
  ghost predicate Reached(word: map<Word, bv32>, m: Futex) {
    exists acts :: (BootIsQuiet(1, word); CanFutex(Begun(word), acts) && AfterFutex(Begun(word), acts) == m)
  }

  lemma {:induction false} RunSnoc(m: Futex, acts: seq<FutexAction>, a: FutexAction)
    requires FutexInv(m) && CanFutex(m, acts) && (FutexRunKeeps(m, acts); FutexEnabled(AfterFutex(m, acts), a))
    ensures (FutexRunKeeps(m, acts);
             CanFutex(m, acts + [a]) && AfterFutex(m, acts + [a]) == FutexApply(AfterFutex(m, acts), a))
    decreases |acts|
  {
    FutexRunKeeps(m, acts);
    if acts == [] {
      Seqs.Nil([a]);
      FutexKeeps(m, a);
      assert [a][1..] == [];
    } else {
      FutexKeeps(m, acts[0]);
      Seqs.ConcatTail(acts, [a]);
      RunSnoc(FutexApply(m, acts[0]), acts[1..], a);
    }
  }

  lemma Step(word: map<Word, bv32>, m: Futex, a: FutexAction)
    requires Reached(word, m) && FutexInv(m) && FutexEnabled(m, a)
    ensures FutexInv(FutexApply(m, a)) && Reached(word, FutexApply(m, a))
  {
    BootIsQuiet(1, word);
    var acts :| CanFutex(Begun(word), acts) && AfterFutex(Begun(word), acts) == m;
    RunSnoc(Begun(word), acts, a);
    FutexKeeps(m, a);
    assert CanFutex(Begun(word), acts + [a]) && AfterFutex(Begun(word), acts + [a]) == FutexApply(m, a);
  }

  // ---- one CPU, the idle process and three more ----

  datatype Scene = Scene(
    cur: nat, ready: seq<nat>, tree: seq<Waiter>,
    kernel: bool,       // the CPU has the kernel lock
    switching: bool,    // and the scheduler's
    st: seq<PState>, waits: map<nat, Word>)

  datatype Cue = Enter | Make(slot: nat) | Announce(slot: nat) | IdleYield | Finish | Look(w: Word) | Retire

  /** The CPU goes on with the first that is ready. */
  function Passed(x: Scene): Scene
    requires x.ready != [] && x.ready[0] < |x.st|
  {
    x.(cur := x.ready[0], ready := x.ready[1..], kernel := false, switching := true,
       st := x.st[x.ready[0] := Running])
  }

  /** The current process in the tree. */
  function Down(x: Scene): Scene
    requires x.cur in x.waits && x.cur < |x.st|
  {
    x.(st := x.st[x.cur := Sleeping], tree := InsertSeq(x.tree, Waiter(x.cur, Key(x.waits[x.cur]))))
  }

  predicate CanPass(x: Scene) {
    x.ready != [] && 1 <= x.ready[0] < 4 && !x.switching
  }

  predicate Allows(x: Scene, cue: Cue) {
    && |x.st| == 4 && x.cur < 4
    && match cue
       case Enter => !x.kernel && !x.switching && x.cur !in x.waits
       case Make(k) => x.kernel && !x.switching && x.cur !in x.waits && 1 <= k < 4 && x.st[k] == Unused
       case Announce(k) => !x.switching && 1 <= k < 4 && x.st[k] == Init
       case IdleYield => CanPass(x) && x.cur == 0 && 0 !in x.waits
       case Finish => x.switching && x.cur !in x.waits
       case Look(_) => x.kernel && !x.switching && 1 <= x.cur && x.cur !in x.waits
       case Retire => x.kernel && CanPass(x) && 1 <= x.cur && x.cur in x.waits && x.ready[0] != x.cur
  }

  function Next(x: Scene, cue: Cue): Scene
    requires Allows(x, cue)
  {
    match cue
    case Enter => x.(kernel := true)
    case Make(k) => x.(st := x.st[k := Init])
    case Announce(k) => x.(st := x.st[k := Ready], ready := x.ready + [k])
    case IdleYield => Passed(x)
    case Finish => x.(switching := false)
    case Look(w) => x.(waits := x.waits[x.cur := w])
    case Retire => Passed(Down(x))
  }

  ghost predicate StateStands(s: State, x: Scene) {
    && |s.current| == |s.stack| == |s.task| == |s.idleOf| == 1
    && s.current[0] == x.cur < 4 && s.task[0] == NoTask
    && s.ready == x.ready && s.waiting == x.tree
    && s.kernelLock == (if x.kernel then Some(0) else None)
    && s.schedLock == (if x.switching then Some(0) else None)
    && |s.procs| == SLOTS && |x.st| == 4 && s.procs[0].idle
    && forall k :: 1 <= k < 4 ==> s.procs[k].state == x.st[k] && !s.procs[k].idle && !s.procs[k].signalled
  }

  ghost predicate Stands(word: map<Word, bv32>, m: Futex, x: Scene) {
    StateStands(m.s, x) && m.word == word && m.waiting == x.waits
  }

  /** What the scheduler does at a cue, other than a look. */
  function Does(x: Scene, cue: Cue): Action
    requires Allows(x, cue) && !cue.Look?
  {
    match cue
    case Enter => KernelEnter(0)
    case Make(k) => Create(0, k)
    case Announce(k) => Publish(k)
    case IdleYield => Yield(0)
    case Finish => FinishSwitch(0)
    case Retire => SleepUnlessSignalled(0, Key(x.waits[x.cur]))
  }

  lemma YieldStands(s: State, x: Scene)
    requires Inv(s) && StateStands(s, x) && Allows(x, IdleYield)
    ensures Enabled(s, Yield(0)) && StateStands(Apply(s, Yield(0)), Passed(x))
  {}

  lemma SleepStands(s: State, x: Scene, key: int)
    requires Inv(s) && StateStands(s, x) && Allows(x, Retire) && key == Key(x.waits[x.cur])
    ensures Enabled(s, SleepUnlessSignalled(0, key))
    ensures StateStands(Apply(s, SleepUnlessSignalled(0, key)), Passed(Down(x)))
  {}

  lemma DoesStand(s: State, x: Scene, cue: Cue)
    requires Inv(s) && StateStands(s, x) && Allows(x, cue) && !cue.Look?
    ensures Enabled(s, Does(x, cue)) && StateStands(Apply(s, Does(x, cue)), Next(x, cue))
  {
    match cue
    case IdleYield => YieldStands(s, x);
    case Retire => SleepStands(s, x, Key(x.waits[x.cur]));
    case _ =>
  }

  /** The words the cues look at can be named. */
  ghost predicate Known(word: map<Word, bv32>, w: Word) {
    w in word && exists asked :: Named(asked) == Some(w)
  }

  ghost predicate Follows(word: map<Word, bv32>, x: Scene, cue: Cue, y: Scene) {
    Allows(x, cue) && Next(x, cue) == y && (cue.Look? ==> Known(word, cue.w))
  }

  /** What the kernel does at a cue. */
  lemma CueStands(word: map<Word, bv32>, m: Futex, x: Scene, cue: Cue, y: Scene) returns (a: FutexAction)
    requires FutexInv(m) && Stands(word, m, x) && Follows(word, x, cue, y)
    ensures FutexEnabled(m, a) && Stands(word, FutexApply(m, a), y)
  {
    if cue.Look? {
      var asked :| Named(asked) == Some(cue.w);
      a := Check(0, asked, word[cue.w]);
    } else {
      DoesStand(m.s, x, cue);
      a := if cue.Retire? then GoToSleep(0) else Other(Does(x, cue));
    }
  }

  /** Scenes, and what leads from each to the next. */
  ghost predicate IsStory(word: map<Word, bv32>, xs: seq<Scene>, cues: seq<Cue>) {
    |xs| == |cues| + 1 && forall i :: 0 <= i < |cues| ==> Follows(word, xs[i], cues[i], xs[i + 1])
  }

  /** The scene before the `i`-th of those to come. */
  function Before(xs: seq<Scene>, ys: seq<Scene>, i: nat): Scene
    requires xs != [] && i <= |ys|
  {
    if i == 0 then xs[|xs| - 1] else ys[i - 1]
  }

  lemma GoesOn(word: map<Word, bv32>, xs: seq<Scene>, cues: seq<Cue>, ys: seq<Scene>, more: seq<Cue>)
    returns (zs: seq<Scene>, all: seq<Cue>)
    requires IsStory(word, xs, cues) && |ys| == |more| > 0
    requires forall i :: 0 <= i < |more| ==> Follows(word, Before(xs, ys, i), more[i], ys[i])
    ensures IsStory(word, zs, all) && zs[0] == xs[0] && zs[|zs| - 1] == ys[|ys| - 1]
  {
    zs, all := xs + ys, cues + more;
    forall i | 0 <= i < |all| ensures Follows(word, zs[i], all[i], zs[i + 1]) {
      if i >= |cues| {
        assert Follows(word, Before(xs, ys, i - |cues|), more[i - |cues|], ys[i - |cues|]);
      }
    }
  }

  /** A story is a run. */
  lemma {:induction false} StoryRuns(word: map<Word, bv32>, xs: seq<Scene>, cues: seq<Cue>, k: nat) returns (m: Futex)
    requires IsStory(word, xs, cues) && k <= |cues| && xs[0] == OPENING
    ensures FutexInv(m) && Reached(word, m) && Stands(word, m, xs[k])
    decreases k
  {
    if k == 0 {
      Opens(word);
      m := Begun(word);
    } else {
      var was := StoryRuns(word, xs, cues, k - 1);
      m := OneMore(word, xs, cues, k, was);
    }
  }

  lemma OneMore(word: map<Word, bv32>, xs: seq<Scene>, cues: seq<Cue>, k: nat, was: Futex) returns (m: Futex)
    requires IsStory(word, xs, cues) && 0 < k <= |cues|
    requires FutexInv(was) && Reached(word, was) && Stands(word, was, xs[k - 1])
    ensures FutexInv(m) && Reached(word, m) && Stands(word, m, xs[k])
  {
    assert Follows(word, xs[k - 1], cues[k - 1], xs[k - 1 + 1]);
    m := NextRuns(word, was, xs[k - 1], cues[k - 1], xs[k]);
  }

  lemma NextRuns(word: map<Word, bv32>, m: Futex, x: Scene, cue: Cue, y: Scene) returns (t: Futex)
    requires FutexInv(m) && Reached(word, m) && Stands(word, m, x) && Follows(word, x, cue, y)
    ensures FutexInv(t) && Reached(word, t) && Stands(word, t, y)
  {
    var a := CueStands(word, m, x, cue, y);
    Step(word, m, a);
    t := FutexApply(m, a);
  }

  // ---- the run ----

  const OPENING: Scene := Scene(0, [], [], false, false, [Running, Unused, Unused, Unused], map[])

  lemma Opens(word: map<Word, bv32>)
    ensures FutexInv(Begun(word)) && Reached(word, Begun(word)) && Stands(word, Begun(word), OPENING)
  {
    BootIsQuiet(1, word);
    var m := Begun(word);
    assert CanFutex(m, []) && AfterFutex(m, []) == m;
  }

  /** Three processes are made, and the first is switched to. */
  const MAKING: seq<Cue> := [Enter, Make(1), Make(2), Make(3), Announce(1), Announce(2), Announce(3), IdleYield]

  function Made(): seq<Scene> {
    [ OPENING,
      Scene(0, [], [], true, false, [Running, Unused, Unused, Unused], map[]),
      Scene(0, [], [], true, false, [Running, Init, Unused, Unused], map[]),
      Scene(0, [], [], true, false, [Running, Init, Init, Unused], map[]),
      Scene(0, [], [], true, false, [Running, Init, Init, Init], map[]),
      Scene(0, [1], [], true, false, [Running, Ready, Init, Init], map[]),
      Scene(0, [1, 2], [], true, false, [Running, Ready, Ready, Init], map[]),
      Scene(0, [1, 2, 3], [], true, false, [Running, Ready, Ready, Ready], map[]),
      Scene(1, [2, 3], [], false, true, [Running, Running, Ready, Ready], map[])]
  }

  /** It waits on a word. */
  function Waiting(w1: Word): seq<Cue> {
    [Finish, Enter, Look(w1), Retire]
  }

  function Waited(w1: Word, key: int): seq<Scene> {
    [ Scene(1, [2, 3], [], false, false, [Running, Running, Ready, Ready], map[]),
      Scene(1, [2, 3], [], true, false, [Running, Running, Ready, Ready], map[]),
      Scene(1, [2, 3], [], true, false, [Running, Running, Ready, Ready], map[1 := w1]),
      Scene(2, [3], [Waiter(1, key)], false, true, [Running, Sleeping, Running, Ready], map[1 := w1])]
  }

  /** The second waits on another. */
  function Crowd(w1: Word, w2: Word, key: int): seq<Scene> {
    var t1, n2 := [Waiter(1, key)], map[1 := w1, 2 := w2];
    [ Scene(2, [3], t1, false, false, [Running, Sleeping, Running, Ready], map[1 := w1]),
      Scene(2, [3], t1, true, false, [Running, Sleeping, Running, Ready], map[1 := w1]),
      Scene(2, [3], t1, true, false, [Running, Sleeping, Running, Ready], n2),
      Scene(3, [], t1 + [Waiter(2, key)], false, true, [Running, Sleeping, Sleeping, Running], n2)]
  }

  /** The third goes into the kernel. */
  function Calls(x: Scene): seq<Scene> {
    [x.(switching := false), x.(switching := false, kernel := true)]
  }

  lemma InsertAfter(key: int)
    ensures InsertSeq([], Waiter(1, key)) == [Waiter(1, key)]
    ensures InsertSeq([Waiter(1, key)], Waiter(2, key)) == [Waiter(1, key), Waiter(2, key)]
  {}

  lemma MadeFollows(word: map<Word, bv32>, i: nat)
    requires i < 8
    ensures Follows(word, Made()[i], MAKING[i], Made()[i + 1])
  {
    assert [1, 2, 3][1..] == [2, 3];
  }

  lemma WaitedFollows(word: map<Word, bv32>, w1: Word, key: int, i: nat)
    requires Known(word, w1) && key == Key(w1) && i < 4
    ensures Follows(word, if i == 0 then Made()[8] else Waited(w1, key)[i - 1], Waiting(w1)[i], Waited(w1, key)[i])
  {
    if i == 3 {
      InsertAfter(key);
      assert [2, 3][1..] == [3];
    }
  }

  lemma CrowdFollows(word: map<Word, bv32>, w1: Word, w2: Word, key: int, i: nat)
    requires Known(word, w2) && key == Key(w2) && i < 4
    ensures var before := if i == 0 then Waited(w1, key)[3] else Crowd(w1, w2, key)[i - 1];
      Follows(word, before, Waiting(w2)[i], Crowd(w1, w2, key)[i])
  {
    if i == 2 {
      assert map[1 := w1][2 := w2] == map[1 := w1, 2 := w2];
    } else if i == 3 {
      InsertAfter(key);
      assert [3][1..] == [];
    }
  }

  lemma CrowdReached(word: map<Word, bv32>, w1: Word, w2: Word, key: int) returns (m: Futex)
    requires Known(word, w1) && Known(word, w2) && key == Key(w1) == Key(w2)
    ensures FutexInv(m) && Reached(word, m) && Stands(word, m, Calls(Crowd(w1, w2, key)[3])[1])
  {
    var xs, cues := WholeStory(word, w1, w2, key);
    m := StoryRuns(word, xs, cues, |cues|);
  }

  lemma WholeStory(word: map<Word, bv32>, w1: Word, w2: Word, key: int) returns (xs: seq<Scene>, cues: seq<Cue>)
    requires Known(word, w1) && Known(word, w2) && key == Key(w1) == Key(w2)
    ensures IsStory(word, xs, cues) && xs[0] == OPENING && xs[|cues|] == Calls(Crowd(w1, w2, key)[3])[1]
  {
    xs, cues := FirstParts(word, w1, key);
    forall i | 0 <= i < 4
      ensures Follows(word, Before(xs, Crowd(w1, w2, key), i), Waiting(w2)[i], Crowd(w1, w2, key)[i])
    {
      CrowdFollows(word, w1, w2, key, i);
    }
    xs, cues := GoesOn(word, xs, cues, Crowd(w1, w2, key), Waiting(w2));
    xs, cues := GoesOn(word, xs, cues, Calls(xs[|xs| - 1]), [Finish, Enter]);
  }

  lemma FirstParts(word: map<Word, bv32>, w1: Word, key: int) returns (xs: seq<Scene>, cues: seq<Cue>)
    requires Known(word, w1) && key == Key(w1)
    ensures IsStory(word, xs, cues) && xs[0] == OPENING && xs[|cues|] == Waited(w1, key)[3]
  {
    xs, cues := Made(), MAKING;
    forall i | 0 <= i < 8 ensures Follows(word, xs[i], cues[i], xs[i + 1]) {
      MadeFollows(word, i);
    }
    forall i | 0 <= i < 4 ensures Follows(word, Before(xs, Waited(w1, key), i), Waiting(w1)[i], Waited(w1, key)[i]) {
      WaitedFollows(word, w1, key, i);
    }
    xs, cues := GoesOn(word, xs, cues, Waited(w1, key), Waiting(w1));
  }

  lemma QueueOfTwo(key: int)
    ensures Queue([Waiter(1, key), Waiter(2, key)], key) == [Waiter(1, key), Waiter(2, key)]
  {
    var a, b := Waiter(1, key), Waiter(2, key);
    assert [a, b][1..] == [b] && [b][1..] == [];
    assert Queue([b], key) == [b];
  }

  /** From there a wake-up of one waiter of the second word makes the first process ready. */
  lemma Misdirected(word: map<Word, bv32>, m: Futex, x: Scene, asked: Asked, w1: Word, w2: Word)
    requires FutexInv(m) && Stands(word, m, x) && w1 != w2 && Named(asked) == Some(w2)
    requires x.cur == 3 && x.kernel && !x.switching && x.ready == []
    requires x.tree == [Waiter(1, Key(w2)), Waiter(2, Key(w2))] && x.waits == map[1 := w1, 2 := w2]
    ensures FutexEnabled(m, WakeWaiters(0, asked, 1))
    ensures var t := FutexApply(m, WakeWaiters(0, asked, 1)); t.s.ready == [1] && HasSlot(t.s.waiting, 2)
  {
    QueueOfTwo(Key(w2));
    WrongWordWoken(m, 0, asked, w2, 2);
  }

  /** For any two words that share a key: a process waits on the one, a second on the other,
      a third wakes one waiter of the other, and it is the first that becomes ready. */
  lemma WrongWordFromBoot(word: map<Word, bv32>, w1: Word, asked: Asked, w2: Word) returns (m: Futex)
    requires Known(word, w1) && Known(word, w2) && w1 != w2 && Key(w1) == Key(w2) && Named(asked) == Some(w2)
    ensures Reached(word, m) && FutexInv(m) && m.waiting == map[1 := w1, 2 := w2]
    ensures FutexEnabled(m, WakeWaiters(0, asked, 1))
    ensures var t := FutexApply(m, WakeWaiters(0, asked, 1)); t.s.ready == [1] && HasSlot(t.s.waiting, 2)
  {
    m := CrowdReached(word, w1, w2, Key(w2));
    Misdirected(word, m, Calls(Crowd(w1, w2, Key(w2))[3])[1], asked, w1, w2);
  }
}
