/** Runs of a virtio queue: requests come and go, the device reports used ids in any
    order, and the indices wrap.
 */
module VirtioRuns {
  import opened Basics
  import opened DescTable
  import opened VirtioRing

  ghost predicate CanRun(st: State, acts: seq<Action>)
    requires Inv(st)
    decreases |acts|
  {
    acts == [] || (Enabled(st, acts[0]) && (ApplyKeeps(st, acts[0]); CanRun(Apply(st, acts[0]), acts[1..])))
  }

  ghost function After(st: State, acts: seq<Action>): State
    requires Inv(st) && CanRun(st, acts)
    decreases |acts|
  {
    if acts == [] then st
    else
      ApplyKeeps(st, acts[0]);
      After(Apply(st, acts[0]), acts[1..])
  }

  lemma {:induction false} RunKeeps(st: State, acts: seq<Action>)
    requires Inv(st) && CanRun(st, acts)
    ensures Inv(After(st, acts))
    decreases |acts|
  {
    if acts != [] {
      ApplyKeeps(st, acts[0]);
      RunKeeps(Apply(st, acts[0]), acts[1..]);
    }
  }

  /** In every state of every run of a fresh queue: free descriptors and chains with the
      device make up the table, `num_free` is the number of free ones, a claimed slot has
      descriptors for the largest request, and each request published so far is completed
      once or still with the device under exactly one slot, never both. */
  lemma EveryRunAccounts(q: nat, maxSegs: nat, acts: seq<Action>)
    requires 0 < q < WRAP && WRAP % q == 0
    requires (SetupInv(q, maxSegs); CanRun(Setup(q, maxSegs), acts))
    ensures (SetupInv(q, maxSegs);
      var st := After(Setup(q, maxSegs), acts);
      && Sizes(st) && Partition(|st.t.desc|, st.free, st.flight) && st.t.numFree == |st.free|
      && (st.claim.Some? ==> st.t.numFree >= st.maxSegs + 2)
      && Distinct(st.completed)
      && forall k :: 0 <= k < st.issued ==>
           (k in st.completed <==> !exists s :: 0 <= s < SLOTS && st.flight[s] != [] && st.ticket[s] == k))
  {
    SetupInv(q, maxSegs);
    RunKeeps(Setup(q, maxSegs), acts);
    var st := After(Setup(q, maxSegs), acts);
    forall k | 0 <= k < st.issued
      ensures k in st.completed <==> !exists s :: 0 <= s < SLOTS && st.flight[s] != [] && st.ticket[s] == k
    {
      if s :| 0 <= s < SLOTS && st.flight[s] != [] && st.ticket[s] == k {
        assert TicketOk(st, s);
      }
    }
  }

  /** The driver takes used ids in the order the device reported them, across wraps. */
  lemma ReapsInOrder(st: State)
    requires Inv(st)
    ensures Enabled(st, Reap) <==> st.reaped < |st.used.all|
    ensures Enabled(st, Reap) ==> st.used.cells[st.lastUsed % |st.used.cells|] == st.used.all[st.reaped]
  {
    NextIsThere(st.used, st.reaped);
  }

  /** A used id completes a request exactly when, cut to 16 bits, it heads a chain the
      device has; any other id, a repeated one included, changes nothing but the index. */
  lemma ReapCompletesIff(st: State)
    requires Inv(st) && Enabled(st, Reap)
    ensures var id := st.used.all[st.reaped];
      var k := Apply(st, Reap);
      && st.reaped < |st.used.all|
      && ((exists s :: 0 <= s < SLOTS && st.flight[s] != [] && st.flight[s][0] == id % WRAP) <==> k != Skipped(st))
      && (k != Skipped(st) ==>
            exists s :: 0 <= s < SLOTS && st.flight[s] != [] && st.flight[s][0] == id % WRAP
              && k.completed == st.completed + [st.ticket[s]] && k.reqs == st.reqs[s := Req(true, true)])
  {
    ReapsInOrder(st);
    var id := st.used.all[st.reaped];
    if s :| 0 <= s < SLOTS && st.flight[s] != [] && st.flight[s][0] == id % WRAP {
      assert FlightOk(st, s);
      assert SlotOf(st, id) == s;
      assert Apply(st, Reap).completed == st.completed + [st.ticket[s]];
    }
    if SlotOf(st, id) >= 0 {
      assert OwnerOk(st, id % WRAP) && FlightOk(st, SlotOf(st, id));
    }
  }

  /** Once taken, an id stands for no request until it is published anew, so reporting it
      again is ignored. */
  lemma RepeatIgnored(st: State)
    requires Inv(st) && Enabled(st, Reap)
    ensures st.reaped < |st.used.all| && SlotOf(Apply(st, Reap), st.used.all[st.reaped]) == -1
  {
    ReapsInOrder(st);
    var id := st.used.all[st.reaped];
    if id % WRAP < |st.owner| {
      assert OwnerOk(st, id % WRAP);
    }
  }

  // ---- a chain says what it was built to say ----

  /** The slot's chain, what it says and whose it is. */
  predicate SameChain(st: State, k: State, s: nat) {
    && s < |st.flight| && s < |st.wants| && s < |st.ticket|
    && |k.flight| == |st.flight| && |k.wants| == |st.wants| && |k.ticket| == |st.ticket|
    && k.flight[s] == st.flight[s] && k.wants[s] == st.wants[s] && k.ticket[s] == st.ticket[s]
  }

  lemma ReapFlight(st: State, s: nat)
    requires Inv(st) && Enabled(st, Reap) && s < SLOTS
    ensures var k := Apply(st, Reap);
      && |k.flight| == SLOTS && k.wants == st.wants && k.ticket == st.ticket
      && (k.flight[s] == [] || k.flight[s] == st.flight[s])
  {
    ReapsInOrder(st);
    var id := st.used.all[st.reaped];
    if id % WRAP < |st.owner| {
      assert OwnerOk(st, id % WRAP);
    }
  }

  lemma ApplyKeepsChain(st: State, a: Action, s: nat)
    requires Inv(st) && Enabled(st, a) && s < SLOTS && st.flight[s] != []
    ensures Sizes(Apply(st, a)) && (Apply(st, a).flight[s] == [] || SameChain(st, Apply(st, a), s))
  {
    ApplyKeeps(st, a);
    match a
    case Reap => ReapFlight(st, s);
    case Publish(segments, write) => assert st.claim.value != s;
    case _ =>
  }

  /** From publication to completion a request's chain reads as its header, its segments
      in order and its status byte, whatever else goes on. */
  lemma {:induction false} ChainStands(st: State, acts: seq<Action>, s: nat, items: seq<Item>)
    requires Inv(st) && CanRun(st, acts) && s < SLOTS && st.flight[s] != [] && st.wants[s] == items
    ensures var k := After(st, acts);
      && Sizes(k)
      && (st.ticket[s] !in k.completed ==>
            && k.flight[s] == st.flight[s]
            && InRange(k.flight[s], |k.t.desc|) && Reads(k.t.desc, k.flight[s]) == items)
    decreases |acts|
  {
    if acts == [] {
      assert FlightOk(st, s);
    } else {
      ApplyKeeps(st, acts[0]);
      ApplyKeepsChain(st, acts[0], s);
      var k := Apply(st, acts[0]);
      if k.flight[s] != [] {
        ChainStands(k, acts[1..], s, items);
      } else {
        CompletedHere(st, acts[0], s);
        RunKeepsCompleted(k, acts[1..], st.ticket[s]);
        RunKeeps(k, acts[1..]);
      }
    }
  }

  lemma CompletedHere(st: State, a: Action, s: nat)
    requires Inv(st) && Enabled(st, a) && s < SLOTS && st.flight[s] != [] && Sizes(Apply(st, a))
    requires Apply(st, a).flight[s] == []
    ensures st.ticket[s] in Apply(st, a).completed
  {
    assert FlightOk(st, s);
  }

  lemma {:induction false} RunKeepsCompleted(st: State, acts: seq<Action>, k: nat)
    requires Inv(st) && CanRun(st, acts) && k in st.completed
    ensures k in After(st, acts).completed
    decreases |acts|
  {
    if acts != [] {
      ApplyKeeps(st, acts[0]);
      RunKeepsCompleted(Apply(st, acts[0]), acts[1..], k);
    }
  }

  // ---- draining the used ring ----

  /** `reap_locked`: turns until the indices meet. */
  ghost function ReapAll(st: State): State
    requires Inv(st)
    decreases |st.used.all| - st.reaped
  {
    if st.lastUsed == st.used.idx then st
    else
      ReapKeeps(st);
      ReapsInOrder(st);
      ReapAll(Apply(st, Reap))
  }

  /** It ends with every reported id taken, once each, and nothing more completed than
      the requests those ids stood for. */
  lemma {:induction false} ReapAllDrains(st: State)
    requires Inv(st)
    ensures Inv(ReapAll(st)) && ReapAll(st).reaped == |st.used.all| && ReapAll(st).used == st.used
    ensures |st.completed| <= |ReapAll(st).completed| <= |st.completed| + (|st.used.all| - st.reaped)
    ensures st.completed == ReapAll(st).completed[..|st.completed|]
    decreases |st.used.all| - st.reaped
  {
    ReapsInOrder(st);
    if Enabled(st, Reap) {
      ReapKeeps(st);
      ReapAllDrains(Apply(st, Reap));
    }
  }
}
