/** The available ring: what the driver offers is what the device takes, in order and across
    the wrap of the indices, as long as nothing is completed before it is taken.
 */
module VirtioAvail {
  import opened Basics
  import opened VirtioRing
  import opened VirtioRuns

  /** The ring holds every entry not yet taken, and no request is completed before. */
  ghost predicate AvailOk(st: State) {
    Keeps(st.avail, st.taken) && forall k :: k in st.completed ==> k < st.taken
  }

  /** An id that heads a chain which the device has not taken. */
  ghost predicate Premature(st: State, id: nat) {
    exists k :: st.taken <= k < |st.avail.all| && st.avail.all[k] == id % WRAP
  }

  /** Slot `s` has a chain with the device that begins at `h`. */
  ghost predicate Heads(st: State, s: int, h: nat) {
    && |st.flight| == |st.ticket| == SLOTS
    && 0 <= s < SLOTS && st.flight[s] != [] && st.flight[s][0] == h
  }

  /** The chain of request `k`, with the device, begins at `h`. */
  ghost predicate Serves(st: State, k: nat, h: nat) {
    exists s :: Heads(st, s, h) && st.ticket[s] == k
  }

  // ---- room ----

  lemma DropOne(s: seq<nat>, i: nat, r: seq<nat>)
    requires Distinct(s) && i < |s| && r == s[..i] + s[i + 1..]
    ensures Distinct(r) && forall j :: 0 <= j < |r| ==> r[j] in s && r[j] != s[i]
  {
    assert forall j :: 0 <= j < |r| ==> r[j] == s[if j < i then j else j + 1];
  }

  /** There are no more than `q` different numbers below `q`. */
  lemma {:induction false} Pigeons(s: seq<nat>, q: nat)
    requires Distinct(s) && forall i :: 0 <= i < |s| ==> s[i] < q
    ensures |s| <= q
    decreases q
  {
    assert s != [] ==> s[0] < q;
    if i :| 0 <= i < |s| && s[i] == q - 1 {
      var r := s[..i] + s[i + 1..];
      DropOne(s, i, r);
      Pigeons(r, q - 1);
    } else if q > 0 {
      Pigeons(s, q - 1);
    }
  }

  /** A request that is not completed is with the device, in the chain it was offered with. */
  lemma SlotFor(st: State, k: nat) returns (s: nat)
    requires Inv(st) && k < st.issued && k !in st.completed
    ensures s < SLOTS && st.flight[s] != [] && st.ticket[s] == k && st.avail.all[k] == st.flight[s][0]
    ensures FlightOk(st, s)
  {
    s :| 0 <= s < SLOTS && st.flight[s] != [] && st.ticket[s] == k;
    assert FlightOk(st, s);
  }

  lemma HeadsApart(st: State, i: nat, j: nat)
    requires Inv(st) && AvailOk(st) && st.taken <= i < j < st.issued
    ensures st.avail.all[i] != st.avail.all[j]
  {
    var s := SlotFor(st, i);
    var r := SlotFor(st, j);
    Apart(st, s, st.flight[s][0]);
    assert st.flight[r][0] in st.flight[r];
  }

  lemma HeadTaken(st: State, i: nat)
    requires Inv(st) && AvailOk(st) && st.taken <= i < st.issued
    ensures st.avail.all[i] < |st.t.desc| && st.avail.all[i] !in st.free
  {
    var s := SlotFor(st, i);
    Apart(st, s, st.flight[s][0]);
  }

  /** While a descriptor is free there is room for one more entry. */
  lemma RoomToOffer(st: State)
    requires Inv(st) && AvailOk(st) && st.free != []
    ensures |st.avail.all| < st.taken + |st.avail.cells|
  {
    var heads := st.avail.all[st.taken..];
    var s := heads + [st.free[0]];
    forall i, j | 0 <= i < j < |s| ensures s[i] != s[j] {
      if j < |heads| {
        HeadsApart(st, st.taken + i, st.taken + j);
      } else {
        HeadTaken(st, st.taken + i);
      }
    }
    forall i | 0 <= i < |s| ensures s[i] < |st.t.desc| {
      if i < |heads| {
        HeadTaken(st, st.taken + i);
      }
    }
    Pigeons(s, |st.t.desc|);
  }

  // ---- steps ----

  lemma PublishOffers(st: State, segments: seq<(nat, nat)>, write: bool)
    requires Inv(st) && AvailOk(st) && Enabled(st, Publish(segments, write))
    ensures AvailOk(Apply(st, Publish(segments, write)))
  {
    RoomToOffer(st);
    PutKeeps(st.avail, st.taken, st.free[0]);
  }

  lemma ReapCompletes(st: State)
    requires Inv(st) && Enabled(st, Reap)
    ensures st.reaped < |st.used.all|
    ensures var id, k := st.used.all[st.reaped], Apply(st, Reap);
      && k.avail == st.avail && k.taken == st.taken
      && (k.completed == st.completed ||
          exists s :: Heads(st, s, id % WRAP) && k.completed == st.completed + [st.ticket[s]])
      && forall s :: Heads(st, s, id % WRAP) ==> st.ticket[s] in k.completed
  {
    ReapsInOrder(st);
    var id := st.used.all[st.reaped];
    forall s | Heads(st, s, id % WRAP) ensures st.ticket[s] in Apply(st, Reap).completed {
      assert FlightOk(st, s);
      assert SlotOf(st, id) == s;
    }
    if SlotOf(st, id) >= 0 {
      assert OwnerOk(st, id % WRAP) && Heads(st, SlotOf(st, id), id % WRAP);
    }
  }

  /** Taking a used id keeps the available ring right if and only if the id does not head a
      chain that the device has yet to take. */
  lemma ReapAvailIff(st: State)
    requires Inv(st) && AvailOk(st) && Enabled(st, Reap)
    ensures st.reaped < |st.used.all| && (AvailOk(Apply(st, Reap)) <==> !Premature(st, st.used.all[st.reaped]))
  {
    ReapCompletes(st);
    var id := st.used.all[st.reaped];
    if Premature(st, id) {
      var k :| st.taken <= k < |st.avail.all| && st.avail.all[k] == id % WRAP;
      var s := SlotFor(st, k);
      assert Heads(st, s, id % WRAP);
    } else if s :| Heads(st, s, id % WRAP) {
      assert TicketOk(st, s);
    }
  }

  /** Every other step keeps it, whatever the device reports. */
  lemma AvailKeeps(st: State, a: Action)
    requires Inv(st) && AvailOk(st) && Enabled(st, a) && !a.Reap?
    ensures AvailOk(Apply(st, a))
  {
    match a
    case Publish(segments, write) => PublishOffers(st, segments, write);
    case Take => NextIsThere(st.avail, st.taken);
    case _ =>
  }

  /** What the device finds: the indices differ exactly while there is an entry, and the entry
      at its own index is the head of the next request's chain. */
  lemma TakeFinds(st: State)
    requires Inv(st) && AvailOk(st)
    ensures Enabled(st, Take) <==> st.taken < st.issued
    ensures st.taken < st.issued ==>
      var h := st.avail.cells[st.taken % WRAP % |st.avail.cells|];
      h == st.avail.all[st.taken] && Serves(st, st.taken, h)
  {
    NextIsThere(st.avail, st.taken);
    if st.taken < st.issued {
      var s := SlotFor(st, st.taken);
      assert Heads(st, s, st.avail.all[st.taken]);
    }
  }

  // ---- runs ----

  /** No used id is taken by the driver before its chain is taken by the device. */
  ghost predicate NonePremature(st: State, acts: seq<Action>)
    requires Inv(st) && CanRun(st, acts)
    decreases |acts|
  {
    acts == [] || (
      && (acts[0].Reap? ==> (ReapsInOrder(st); !Premature(st, st.used.all[st.reaped])))
      && (ApplyKeeps(st, acts[0]); NonePremature(Apply(st, acts[0]), acts[1..]))
    )
  }

  lemma {:induction false} AvailRunKeeps(st: State, acts: seq<Action>)
    requires Inv(st) && AvailOk(st) && CanRun(st, acts) && NonePremature(st, acts)
    ensures AvailOk(After(st, acts))
    decreases |acts|
  {
    if acts != [] {
      ApplyKeeps(st, acts[0]);
      if acts[0].Reap? {
        ReapAvailIff(st);
      } else {
        AvailKeeps(st, acts[0]);
      }
      AvailRunKeeps(Apply(st, acts[0]), acts[1..]);
    }
  }

  lemma ApplyGrows(st: State, a: Action)
    requires Inv(st) && Enabled(st, a)
    ensures var k := Apply(st, a);
      && st.avail.all <= k.avail.all && st.taken <= k.taken <= st.taken + 1
      && (k.taken == st.taken + 1 <==> a.Take?)
      && (a.Publish? <==> |k.avail.all| == |st.avail.all| + 1)
  {
    if a.Reap? {
      ReapCompletes(st);
    }
  }

  function Takes(acts: seq<Action>): nat {
    if acts == [] then 0 else (if acts[0].Take? then 1 else 0) + Takes(acts[1..])
  }

  /** Entries are never changed after they are offered, and each take moves on by one. */
  lemma {:induction false} RunGrows(st: State, acts: seq<Action>)
    requires Inv(st) && CanRun(st, acts)
    ensures st.avail.all <= After(st, acts).avail.all && After(st, acts).taken == st.taken + Takes(acts)
    decreases |acts|
  {
    if acts != [] {
      ApplyKeeps(st, acts[0]);
      ApplyGrows(st, acts[0]);
      RunGrows(Apply(st, acts[0]), acts[1..]);
    }
  }

  /** In every run of a fresh queue in which nothing is completed before it is taken: the
      device's n-th take finds, at its own 16-bit index, the head of the n-th chain that was
      published, which it still has to serve; so each is taken once, in order. */
  lemma TakesInOrder(q: nat, maxSegs: nat, acts: seq<Action>)
    requires 0 < q < WRAP && WRAP % q == 0
    requires (SetupInv(q, maxSegs); CanRun(Setup(q, maxSegs), acts) && NonePremature(Setup(q, maxSegs), acts))
    ensures (SetupInv(q, maxSegs);
      var st := After(Setup(q, maxSegs), acts);
      && AvailOk(st) && st.taken == Takes(acts)
      && (Enabled(st, Take) <==> Takes(acts) < st.issued)
      && (Takes(acts) < st.issued ==>
            var h := st.avail.cells[Takes(acts) % WRAP % |st.avail.cells|];
            h == st.avail.all[Takes(acts)] && Serves(st, Takes(acts), h)))
  {
    SetupInv(q, maxSegs);
    RunKeeps(Setup(q, maxSegs), acts);
    AvailRunKeeps(Setup(q, maxSegs), acts);
    RunGrows(Setup(q, maxSegs), acts);
    TakeFinds(After(Setup(q, maxSegs), acts));
  }

  // ---- a device that reports what it has not taken ----

  /** A fresh queue with one slot claimed. */
  ghost predicate FreshClaim(b: State) {
    && Inv(b) && Enabled(b, Publish([], false)) && b.claim == Some(0) && b.free != [] && b.free[0] == 0
    && b.avail.all == [] && b.taken == 0 && b.used.all == [] && b.reaped == 0 && b.completed == [] && b.issued == 0
  }

  lemma ClaimFresh(q: nat)
    requires 2 <= q < WRAP && WRAP % q == 0
    ensures Inv(Setup(q, 0)) && Enabled(Setup(q, 0), Claim(0)) && FreshClaim(Apply(Setup(q, 0), Claim(0)))
  {
    SetupInv(q, 0);
    ApplyKeeps(Setup(q, 0), Claim(0));
  }

  lemma PublishFresh(b: State)
    requires FreshClaim(b)
    ensures var st := Apply(b, Publish([], false));
      && Inv(st) && st.avail.all == [0] && st.taken == 0 && st.used.all == [] && st.reaped == 0 && st.completed == []
      && Heads(st, 0, 0) && st.ticket[0] == 0
  {
    ApplyKeeps(b, Publish([], false));
  }

  lemma Offered(q: nat) returns (st: State)
    requires 2 <= q < WRAP && WRAP % q == 0
    ensures Inv(Setup(q, 0)) && CanRun(Setup(q, 0), [Claim(0), Publish([], false)])
    ensures After(Setup(q, 0), [Claim(0), Publish([], false)]) == st
    ensures Inv(st) && st.avail.all == [0] && st.taken == 0 && st.used.all == [] && st.reaped == 0 && st.completed == []
    ensures Heads(st, 0, 0) && st.ticket[0] == 0
  {
    ClaimFresh(q);
    var a := Setup(q, 0);
    var b := Apply(a, Claim(0));
    PublishFresh(b);
    st := Apply(b, Publish([], false));
    TwoSteps(a, Claim(0), Publish([], false));
  }

  lemma TwoSteps(st: State, a: Action, b: Action)
    requires Inv(st) && Enabled(st, a) && Inv(Apply(st, a)) && Enabled(Apply(st, a), b)
    ensures CanRun(st, [a, b]) && After(st, [a, b]) == Apply(Apply(st, a), b)
  {
    var k := Apply(st, a);
    ApplyKeeps(k, b);
    var n := Apply(k, b);
    assert CanRun(n, []) && After(n, []) == n;
    assert [b][1..] == [] && [a, b][1..] == [b];
    assert CanRun(k, [b]) && After(k, [b]) == n;
  }

  /** The request is completed and its chain given back while its entry still waits to be
      taken: what the device would take then heads no chain. */
  lemma PrematureDangles(st: State) returns (k: State)
    requires Inv(st) && st.avail.all == [0] && st.taken == 0 && st.used.all == [] && st.reaped == 0
    requires st.completed == []
    requires Heads(st, 0, 0) && st.ticket[0] == 0
    ensures CanRun(st, [Use(0), Reap]) && After(st, [Use(0), Reap]) == k
    ensures Inv(k) && Enabled(k, Take) && !Serves(k, 0, 0) && !AvailOk(k)
  {
    ApplyKeeps(st, Use(0));
    var u := Apply(st, Use(0));
    ReapsInOrder(u);
    ApplyKeeps(u, Reap);
    k := Apply(u, Reap);
    ReapCompletes(u);
    assert Heads(u, 0, 0 % WRAP);
    TwoSteps(st, Use(0), Reap);
    CompletedIsGone(k, 0, 0);
  }

  /** A fresh queue gets there in four steps. */
  lemma DanglesFromStart(q: nat) returns (k: State)
    requires 2 <= q < WRAP && WRAP % q == 0
    ensures Inv(Setup(q, 0)) && CanRun(Setup(q, 0), [Claim(0), Publish([], false)])
    ensures var st := After(Setup(q, 0), [Claim(0), Publish([], false)]);
      && Inv(st) && CanRun(st, [Use(0), Reap]) && After(st, [Use(0), Reap]) == k
      && Inv(k) && Enabled(k, Take) && !Serves(k, 0, 0) && !AvailOk(k)
  {
    var st := Offered(q);
    k := PrematureDangles(st);
  }

  lemma CompletedIsGone(st: State, k: nat, h: nat)
    requires Inv(st) && k in st.completed
    ensures !Serves(st, k, h)
  {
    forall s | Heads(st, s, h) ensures st.ticket[s] != k {
      assert TicketOk(st, s);
    }
  }
}
