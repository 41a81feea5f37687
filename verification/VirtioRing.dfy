/** A virtio block queue: slots, descriptor chains, the available and the used ring.
    Steps are the sections run under the device lock, and what the device does; a
    request is serialised from claiming its slot to publishing its chain.
 */
module VirtioRing {
  import opened Basics
  import Modular
  import Seqs
  import opened DescTable

  const SLOTS: nat := 32
  const WRAP: nat := 65536

  datatype Req = Req(inUse: bool, done: bool)

  /** A ring of `q` cells written at a 16-bit index, with the log of all it was given. */
  datatype Log = Log(cells: seq<nat>, idx: nat, all: seq<nat>)

  /** What the driver keeps, the two rings, and (from `free` on) the bookkeeping that says
      what they stand for. */
  datatype State = State(
    t: Table, owner: seq<int>, reqs: seq<Req>, maxSegs: nat,
    avail: Log, used: Log, lastUsed: nat, reaped: nat,
    taken: nat,                 // entries of the available ring the device has taken
    free: seq<nat>,             // the free list
    flight: seq<seq<nat>>,      // each slot's chain while the device has it
    wants: seq<seq<Item>>,      // what that chain was built to say
    claim: Option<nat>,         // the slot claimed and not yet published
    ticket: seq<nat>,           // each slot's request
    issued: nat,                // requests published so far
    completed: seq<nat>)        // requests completed, in order

  // ---- rings ----

  /** The device and the driver write a ring at the index modulo its size. */
  function Put(l: Log, v: nat): Log
    requires |l.cells| > 0
  {
    Log(l.cells[l.idx % |l.cells| := v], (l.idx + 1) % WRAP, l.all + [v])
  }

  /** The ring still holds everything given to it from position `from` on. */
  ghost predicate Keeps(l: Log, from: nat) {
    && 0 < |l.cells| < WRAP && WRAP % |l.cells| == 0
    && l.idx == |l.all| % WRAP && from <= |l.all| <= from + |l.cells|
    && forall k :: from <= k < |l.all| ==> l.cells[k % |l.cells|] == l.all[k]
  }

  /** 16-bit indices name distinct cells for any `q` entries in a row exactly when `q`
      divides 65536; a power of two does. */
  lemma WindowsFitIff(q: nat)
    requires 0 < q < WRAP
    ensures (forall a: nat, b: nat :: a < b < a + q ==> a % WRAP % q != b % WRAP % q) <==> WRAP % q == 0
  {
    if WRAP % q == 0 {
      forall a: nat, b: nat | a < b < a + q ensures a % WRAP % q != b % WRAP % q {
        Modular.ModMod(a, WRAP, q);
        Modular.ModMod(b, WRAP, q);
        Modular.NearDiffer(a, b, q);
      }
    } else {
      var r := WRAP % q;
      var a, b := WRAP - r, WRAP;
      Modular.DivModUnique(a, q, WRAP / q, 0);
      Modular.SmallMod(0, q);
      assert a % WRAP == a && b % WRAP == 0;
      assert a < b < a + q && a % WRAP % q == b % WRAP % q;
    }
  }

  /** Adding to a ring with room loses nothing. */
  lemma PutKeeps(l: Log, from: nat, v: nat)
    requires Keeps(l, from) && |l.all| < from + |l.cells|
    ensures Keeps(Put(l, v), from)
  {
    var p, q := Put(l, v), |l.cells|;
    var n := |l.all|;
    Modular.ModMod(n, WRAP, q);
    NextIndex(n);
    forall k | from <= k < n + 1 ensures p.cells[k % q] == p.all[k] {
      if k < n {
        Modular.NearDiffer(k, n, q);
      }
    }
  }

  lemma NextIndex(n: nat)
    ensures (n % WRAP + 1) % WRAP == (n + 1) % WRAP
  {}

  /** Reading at the driver's own 16-bit index finds the next entry, and the indices
      differ exactly while there is one. */
  lemma NextIsThere(l: Log, from: nat)
    requires Keeps(l, from)
    ensures from % WRAP != l.idx <==> from < |l.all|
    ensures from < |l.all| ==> l.cells[from % WRAP % |l.cells|] == l.all[from]
  {
    Modular.ModMod(from, WRAP, |l.cells|);
    if from < |l.all| {
      Modular.NearDiffer(from, |l.all|, WRAP);
    }
  }

  // ---- chains and the free list ----

  function CountAll(fs: seq<seq<nat>>, d: nat): nat {
    if fs == [] then 0 else Count(fs[0], d) + CountAll(fs[1..], d)
  }

  lemma {:induction false} CountAllUpdate(fs: seq<seq<nat>>, s: nat, c: seq<nat>, d: nat)
    requires s < |fs|
    ensures CountAll(fs[s := c], d) + Count(fs[s], d) == CountAll(fs, d) + Count(c, d)
    decreases |fs|
  {
    if s == 0 {
      assert fs[s := c][1..] == fs[1..];
    } else {
      assert fs[s := c][1..] == fs[1..][s - 1 := c];
      CountAllUpdate(fs[1..], s - 1, c, d);
    }
  }

  lemma CountAllAt(fs: seq<seq<nat>>, s: nat, d: nat)
    requires s < |fs|
    ensures CountAll(fs, d) >= Count(fs[s], d)
  {
    CountAllUpdate(fs, s, [], d);
  }

  lemma CountTwo(fs: seq<seq<nat>>, s: nat, r: nat, d: nat)
    requires s < |fs| && r < |fs| && s != r
    ensures CountAll(fs, d) >= Count(fs[s], d) + Count(fs[r], d)
  {
    CountAllUpdate(fs, s, [], d);
    CountAllAt(fs[s := []], r, d);
  }

  /** Every descriptor is in exactly one place: the free list or one request's chain. */
  ghost predicate Partition(q: nat, free: seq<nat>, flight: seq<seq<nat>>) {
    forall d: nat :: Count(free, d) + CountAll(flight, d) == if d < q then 1 else 0
  }

  ghost predicate FlightOk(st: State, s: nat)
    requires s < |st.flight| == |st.reqs| == |st.wants|
  {
    var c := st.flight[s];
    c != [] ==>
      && Chain(st.t.desc, c) && Reads(st.t.desc, c) == st.wants[s] && c[0] < |st.owner| && st.owner[c[0]] == s
      && st.reqs[s].inUse && !st.reqs[s].done
  }

  ghost predicate OwnerOk(st: State, h: nat)
    requires h < |st.owner|
  {
    var s := st.owner[h];
    s == -1 || (0 <= s < |st.flight| && st.flight[s] != [] && st.flight[s][0] == h)
  }

  ghost predicate Sizes(st: State) {
    && |st.owner| == |st.t.desc| == |st.used.cells| == |st.avail.cells|
    && |st.reqs| == |st.flight| == |st.wants| == |st.ticket| == SLOTS
  }

  ghost predicate Descriptors(st: State) {
    && Sizes(st) && FreeList(st.t, st.free) && Partition(|st.t.desc|, st.free, st.flight)
    && (forall s :: 0 <= s < SLOTS ==> FlightOk(st, s))
    && (forall h :: 0 <= h < |st.owner| ==> OwnerOk(st, h))
  }

  /** A claimed slot is set aside with descriptors enough for the largest request; a slot
      in use is claimed, with the device, or done. */
  ghost predicate Slots(st: State)
    requires Sizes(st)
  {
    && (st.claim.Some? ==>
          && st.claim.value < SLOTS && st.flight[st.claim.value] == []
          && st.reqs[st.claim.value] == Req(true, false) && st.t.numFree >= st.maxSegs + 2)
    && forall s :: 0 <= s < SLOTS ==>
         (st.reqs[s] == Req(true, false) ==> st.flight[s] != [] || st.claim == Some(s))
  }

  ghost predicate TicketOk(st: State, s: nat)
    requires s < |st.flight| == |st.reqs| == |st.ticket|
  {
    && (st.flight[s] != [] ==> st.ticket[s] < st.issued && st.ticket[s] !in st.completed)
    && (st.reqs[s] == Req(true, true) ==> st.ticket[s] in st.completed)
  }

  /** Every request published is with the device or completed, and never both or twice. */
  ghost predicate Tickets(st: State)
    requires Sizes(st)
  {
    && (forall s :: 0 <= s < SLOTS ==> TicketOk(st, s))
    && (forall s, r :: 0 <= s < r < SLOTS && st.flight[s] != [] && st.flight[r] != [] ==> st.ticket[s] != st.ticket[r])
    && Distinct(st.completed)
    && (forall k :: k in st.completed ==> k < st.issued)
    && forall k :: 0 <= k < st.issued ==>
         k in st.completed || exists s :: 0 <= s < SLOTS && st.flight[s] != [] && st.ticket[s] == k
  }

  ghost predicate Rings(st: State) {
    Keeps(st.used, st.reaped) && st.lastUsed == st.reaped % WRAP
  }

  /** The available ring was given the head of each request's chain, in order. */
  ghost predicate Offers(st: State)
    requires Sizes(st)
  {
    && 0 < |st.avail.cells| < WRAP && WRAP % |st.avail.cells| == 0 && st.avail.idx == |st.avail.all| % WRAP
    && |st.avail.all| == st.issued && st.taken <= |st.avail.all|
    && forall s :: 0 <= s < SLOTS && st.flight[s] != [] && st.ticket[s] < st.issued ==>
         st.avail.all[st.ticket[s]] == st.flight[s][0]
  }

  ghost predicate Inv(st: State) {
    Descriptors(st) && Slots(st) && Tickets(st) && Rings(st) && Offers(st)
  }

  // ---- steps ----

  datatype Action =
    | Claim(slot: nat)                                    // take_slot_locked
    | Abort                                               // the buffer could not be mapped
    | Publish(segments: seq<(nat, nat)>, write: bool)     // the chain is built and offered
    | Take                                                // the device takes the next chain
    | Use(id: nat)                                        // the device reports a used id
    | Reap                                                // one turn of reap_locked
    | Release(slot: nat)                                  // the requester is done with its slot

  ghost predicate Enabled(st: State, a: Action) {
    match a
    case Claim(s) => st.claim.None? && s < |st.reqs| && !st.reqs[s].inUse && st.t.numFree >= st.maxSegs + 2
    case Abort => st.claim.Some?
    case Publish(segments, _) => st.claim.Some? && |segments| <= st.maxSegs
    case Take => st.taken % WRAP != st.avail.idx
    case Use(_) => |st.used.all| < st.reaped + |st.used.cells|
    case Reap => st.lastUsed != st.used.idx
    case Release(s) => s < |st.reqs| && st.reqs[s] == Req(true, true)
  }

  function WithReq(st: State, s: nat, r: Req): State
    requires s < |st.reqs|
  {
    st.(reqs := st.reqs[s := r])
  }

  function Published(st: State, s: nat, items: seq<Item>): State
    requires FreeList(st.t, st.free) && 0 < |items| <= |st.free| && Sizes(st) && s < SLOTS
  {
    var c := st.free[..|items|];
    st.(t := Built(st.t, st.free, items), free := st.free[|items|..],
        flight := st.flight[s := c], wants := st.wants[s := items], owner := st.owner[c[0] := s],
        avail := Put(st.avail, c[0]), claim := None,
        ticket := st.ticket[s := st.issued], issued := st.issued + 1)
  }

  /** The slot a used id stands for: ids are cut to 16 bits, and one that heads no chain
      stands for none. */
  function SlotOf(st: State, id: nat): int {
    if id % WRAP < |st.owner| then st.owner[id % WRAP] else -1
  }

  function Skipped(st: State): State {
    st.(lastUsed := (st.lastUsed + 1) % WRAP, reaped := st.reaped + 1)
  }

  function Completed(st: State, s: nat): State
    requires Sizes(st) && s < SLOTS && st.flight[s] != [] && InRange(st.flight[s], |st.t.desc|)
  {
    var c := st.flight[s];
    st.(t := Returned(st.t, c), free := Reversed(c) + st.free, owner := st.owner[c[0] := -1],
        flight := st.flight[s := []], reqs := st.reqs[s := st.reqs[s].(done := true)],
        completed := st.completed + [st.ticket[s]])
  }

  ghost function Apply(st: State, a: Action): State
    requires Inv(st) && Enabled(st, a)
  {
    match a
    case Claim(s) => WithReq(st, s, Req(true, false)).(claim := Some(s))
    case Abort => WithReq(st, st.claim.value, Req(false, st.reqs[st.claim.value].done)).(claim := None)
    case Publish(segments, write) => Published(st, st.claim.value, Items(st.claim.value, segments, write))
    case Take => st.(taken := st.taken + 1)
    case Use(id) => st.(used := Put(st.used, id))
    case Reap =>
      NextIsThere(st.used, st.reaped);
      var s := SlotOf(st, st.used.cells[st.lastUsed % |st.used.cells|]);
      if s < 0 then Skipped(st)
      else
        assert OwnerOk(st, st.used.cells[st.lastUsed % |st.used.cells|] % WRAP) && FlightOk(st, s);
        Completed(Skipped(st), s)
    case Release(s) => WithReq(st, s, Req(false, true))
  }

  // ---- nothing is in two places ----

  lemma Apart(st: State, s: nat, d: nat)
    requires Sizes(st) && Partition(|st.t.desc|, st.free, st.flight) && s < SLOTS && d in st.flight[s]
    ensures d !in st.free && forall r :: 0 <= r < SLOTS && r != s ==> d !in st.flight[r]
  {
    CountIn(st.flight[s], d);
    CountIn(st.free, d);
    CountAllAt(st.flight, s, d);
    assert Count(st.free, d) + CountAll(st.flight, d) <= 1;
    forall r | 0 <= r < SLOTS && r != s ensures d !in st.flight[r] {
      CountIn(st.flight[r], d);
      CountTwo(st.flight, s, r, d);
    }
  }

  /** Chains, ownership and slots see only these fields. */
  lemma FlightStands(st: State, k: State, r: nat)
    requires Sizes(st) && Sizes(k) && r < SLOTS && FlightOk(st, r) && k.flight[r] == st.flight[r]
    requires k.reqs[r] == st.reqs[r]
    requires |k.t.desc| == |st.t.desc| && k.wants[r] == st.wants[r]
    requires forall d :: d in st.flight[r] && d < |st.t.desc| ==> k.t.desc[d] == st.t.desc[d]
    requires st.flight[r] != [] ==> k.owner[st.flight[r][0]] == st.owner[st.flight[r][0]]
    ensures FlightOk(k, r)
  {
    var c := st.flight[r];
    if c != [] {
      assert forall i :: 0 <= i < |c| ==> c[i] in c && k.t.desc[c[i]] == st.t.desc[c[i]];
      assert Reads(k.t.desc, c) == Reads(st.t.desc, c);
    }
  }

  // ---- publishing ----

  lemma PublishedPartition(st: State, s: nat, n: nat)
    requires Sizes(st) && Partition(|st.t.desc|, st.free, st.flight) && s < SLOTS && st.flight[s] == []
    requires n <= |st.free|
    ensures Partition(|st.t.desc|, st.free[n..], st.flight[s := st.free[..n]])
  {
    forall d: nat
      ensures Count(st.free[n..], d) + CountAll(st.flight[s := st.free[..n]], d) == if d < |st.t.desc| then 1 else 0
    {
      Seqs.Split(st.free, n);
      CountJoin(st.free[..n], st.free[n..], d);
      CountAllUpdate(st.flight, s, st.free[..n], d);
      assert Count(st.free, d) + CountAll(st.flight, d) == if d < |st.t.desc| then 1 else 0;
    }
  }

  lemma PublishedDescriptors(st: State, s: nat, items: seq<Item>)
    requires Descriptors(st) && s < SLOTS && st.flight[s] == [] && st.reqs[s] == Req(true, false)
    requires 0 < |items| <= |st.free|
    ensures Descriptors(Published(st, s, items))
  {
    var k, c := Published(st, s, items), st.free[..|items|];
    BuiltIs(st.t, st.free, items);
    PublishedPartition(st, s, |items|);
    forall r | 0 <= r < SLOTS ensures FlightOk(k, r) {
      if r != s {
        forall d | d in st.flight[r] ensures d !in c {
          Apart(st, r, d);
        }
        assert FlightOk(st, r);
        assert st.flight[r] != [] ==> st.flight[r][0] in st.flight[r];
        FlightStands(st, k, r);
      }
    }
    forall h | 0 <= h < |k.owner| ensures OwnerOk(k, h) {
      assert OwnerOk(st, h);
    }
  }

  lemma PublishedTickets(st: State, s: nat, items: seq<Item>)
    requires Sizes(st) && FreeList(st.t, st.free) && Tickets(st) && s < SLOTS && st.flight[s] == []
    requires 0 < |items| <= |st.free| && st.reqs[s] == Req(true, false)
    ensures Tickets(Published(st, s, items))
  {
    var k := Published(st, s, items);
    forall r | 0 <= r < SLOTS ensures TicketOk(k, r) {
      assert TicketOk(st, r);
    }
    forall r, u | 0 <= r < u < SLOTS && k.flight[r] != [] && k.flight[u] != [] ensures k.ticket[r] != k.ticket[u] {
      assert TicketOk(st, r) && TicketOk(st, u);
    }
    forall j | 0 <= j < k.issued
      ensures j in k.completed || exists r :: 0 <= r < SLOTS && k.flight[r] != [] && k.ticket[r] == j
    {
      if j == st.issued {
        assert k.flight[s] != [] && k.ticket[s] == j;
      } else if j !in st.completed {
        var r :| 0 <= r < SLOTS && st.flight[r] != [] && st.ticket[r] == j;
        assert k.flight[r] != [] && k.ticket[r] == j;
      }
    }
  }

  lemma PublishKeeps(st: State, segments: seq<(nat, nat)>, write: bool)
    requires Inv(st) && Enabled(st, Publish(segments, write))
    ensures Inv(Apply(st, Publish(segments, write)))
  {
    var s := st.claim.value;
    var items := Items(s, segments, write);
    PublishedDescriptors(st, s, items);
    PublishedTickets(st, s, items);
    PublishedOffers(st, s, items);
  }

  lemma PublishedOffers(st: State, s: nat, items: seq<Item>)
    requires Sizes(st) && FreeList(st.t, st.free) && Tickets(st) && Offers(st) && s < SLOTS && 0 < |items| <= |st.free|
    ensures Sizes(Published(st, s, items)) && Offers(Published(st, s, items))
  {
    var k := Published(st, s, items);
    NextIndex(|st.avail.all|);
    forall r | 0 <= r < SLOTS && k.flight[r] != [] && k.ticket[r] < k.issued
      ensures k.avail.all[k.ticket[r]] == k.flight[r][0]
    {
      assert TicketOk(st, r);
    }
  }

  // ---- completing ----

  lemma CompletedPartition(st: State, s: nat)
    requires Sizes(st) && Partition(|st.t.desc|, st.free, st.flight) && s < SLOTS
    ensures Partition(|st.t.desc|, Reversed(st.flight[s]) + st.free, st.flight[s := []])
  {
    var c := st.flight[s];
    forall d: nat
      ensures Count(Reversed(c) + st.free, d) + CountAll(st.flight[s := []], d) == if d < |st.t.desc| then 1 else 0
    {
      CountJoin(Reversed(c), st.free, d);
      CountReversed(c, d);
      CountAllUpdate(st.flight, s, [], d);
      assert Count(st.free, d) + CountAll(st.flight, d) == if d < |st.t.desc| then 1 else 0;
    }
  }

  lemma CompletedDescriptors(st: State, s: nat)
    requires Descriptors(st) && s < SLOTS && st.flight[s] != []
    ensures FlightOk(st, s) && Descriptors(Completed(st, s))
  {
    assert FlightOk(st, s);
    var k, c := Completed(st, s), st.flight[s];
    forall d | d in c ensures d !in st.free {
      Apart(st, s, d);
    }
    ReturnedFree(st.t, st.free, c);
    CompletedPartition(st, s);
    forall r | 0 <= r < SLOTS ensures FlightOk(k, r) {
      if r != s {
        forall d | d in st.flight[r] ensures d !in c {
          Apart(st, r, d);
        }
        assert FlightOk(st, r);
        assert st.flight[r] != [] ==> st.flight[r][0] in st.flight[r];
        FlightStands(st, k, r);
      }
    }
    forall h | 0 <= h < |k.owner| ensures OwnerOk(k, h) {
      assert OwnerOk(st, h);
    }
  }

  lemma CompletedTickets(st: State, s: nat)
    requires Sizes(st) && Tickets(st) && s < SLOTS && st.flight[s] != [] && InRange(st.flight[s], |st.t.desc|)
    ensures Tickets(Completed(st, s))
  {
    var k := Completed(st, s);
    assert TicketOk(st, s);
    forall r | 0 <= r < SLOTS ensures TicketOk(k, r) {
      assert TicketOk(st, r);
      if r != s && st.flight[r] != [] {
        assert st.ticket[r] != st.ticket[s];
      }
    }
    forall j | 0 <= j < k.issued
      ensures j in k.completed || exists r :: 0 <= r < SLOTS && k.flight[r] != [] && k.ticket[r] == j
    {
      if j !in k.completed {
        var r :| 0 <= r < SLOTS && st.flight[r] != [] && st.ticket[r] == j;
        assert k.flight[r] != [] && k.ticket[r] == j;
      }
    }
  }

  lemma SkippedRings(st: State)
    requires Rings(st) && st.lastUsed != st.used.idx
    ensures Rings(Skipped(st)) && st.reaped < |st.used.all|
  {
    NextIsThere(st.used, st.reaped);
    NextIndex(st.reaped);
  }

  lemma ReapKeeps(st: State)
    requires Inv(st) && Enabled(st, Reap)
    ensures Inv(Apply(st, Reap))
  {
    SkippedRings(st);
    var id := st.used.cells[st.lastUsed % |st.used.cells|];
    var s, k := SlotOf(st, id), Skipped(st);
    assert forall r :: 0 <= r < SLOTS ==> FlightOk(st, r) == FlightOk(k, r) && TicketOk(st, r) == TicketOk(k, r);
    assert forall h :: 0 <= h < |st.owner| ==> OwnerOk(st, h) == OwnerOk(k, h);
    if s >= 0 {
      assert OwnerOk(st, id % WRAP);
      CompletedDescriptors(k, s);
      CompletedTickets(k, s);
    }
  }

  // ---- the other steps ----

  /** A step that leaves the table, the chains and the log alone, and changes one slot
      that is not with the device. */
  lemma SlotKeeps(st: State, k: State, s: nat)
    requires Inv(st) && s < SLOTS && st.flight[s] == [] && st.claim in {None, Some(s)}
    requires k == st.(reqs := k.reqs, claim := k.claim) && |k.reqs| == SLOTS && k.reqs == st.reqs[s := k.reqs[s]]
    requires k.claim == None || (k.claim == Some(s) && k.reqs[s] == Req(true, false) && st.t.numFree >= st.maxSegs + 2)
    requires k.reqs[s] == Req(true, false) ==> k.claim == Some(s)
    requires k.reqs[s] != Req(true, true)
    ensures Inv(k)
  {
    forall r | 0 <= r < SLOTS ensures FlightOk(k, r) && TicketOk(k, r) {
      assert FlightOk(st, r) && TicketOk(st, r);
    }
    assert forall h :: 0 <= h < |st.owner| ==> OwnerOk(st, h) == OwnerOk(k, h);
  }

  lemma SlotIsFree(st: State, s: nat)
    requires Inv(st) && s < SLOTS && st.reqs[s] != Req(true, false)
    ensures st.flight[s] == [] && st.claim != Some(s)
  {
    assert FlightOk(st, s);
  }

  lemma TakeKeeps(st: State)
    requires Inv(st) && Enabled(st, Take)
    ensures Inv(Apply(st, Take))
  {
    var k := Apply(st, Take);
    assert forall r :: 0 <= r < SLOTS ==> FlightOk(st, r) == FlightOk(k, r) && TicketOk(st, r) == TicketOk(k, r);
    assert forall h :: 0 <= h < |st.owner| ==> OwnerOk(st, h) == OwnerOk(k, h);
  }

  lemma UseKeeps(st: State, id: nat)
    requires Inv(st) && Enabled(st, Use(id))
    ensures Inv(Apply(st, Use(id)))
  {
    var k := Apply(st, Use(id));
    PutKeeps(st.used, st.reaped, id);
    assert forall r :: 0 <= r < SLOTS ==> FlightOk(st, r) == FlightOk(k, r) && TicketOk(st, r) == TicketOk(k, r);
    assert forall h :: 0 <= h < |st.owner| ==> OwnerOk(st, h) == OwnerOk(k, h);
  }

  /** Releasing one slot while another is claimed. */
  lemma ReleaseKeeps(st: State, s: nat)
    requires Inv(st) && Enabled(st, Release(s))
    ensures Inv(Apply(st, Release(s)))
  {
    var k := Apply(st, Release(s));
    SlotIsFree(st, s);
    forall r | 0 <= r < SLOTS ensures FlightOk(k, r) && TicketOk(k, r) {
      assert FlightOk(st, r) && TicketOk(st, r);
    }
    assert forall h :: 0 <= h < |st.owner| ==> OwnerOk(st, h) == OwnerOk(k, h);
  }

  lemma ApplyKeeps(st: State, a: Action)
    requires Inv(st) && Enabled(st, a)
    ensures Inv(Apply(st, a))
  {
    match a
    case Claim(s) =>
      SlotIsFree(st, s);
      SlotKeeps(st, Apply(st, a), s);
    case Abort => SlotKeeps(st, Apply(st, a), st.claim.value);
    case Publish(segments, write) => PublishKeeps(st, segments, write);
    case Take => TakeKeeps(st);
    case Use(id) => UseKeeps(st, id);
    case Reap => ReapKeeps(st);
    case Release(s) => ReleaseKeeps(st, s);
  }

  // ---- a fresh queue ----

  /** Descriptors `i` to `q - 1` in order, as `vblk_setup_queue` links them. */
  function Upto(i: nat, q: nat): (r: seq<nat>)
    requires i <= q
    ensures |r| == q - i && forall k :: 0 <= k < |r| ==> r[k] == i + k
    decreases q - i
  {
    if i == q then [] else [i] + Upto(i + 1, q)
  }

  lemma {:induction false} CountUpto(i: nat, q: nat, d: nat)
    requires i <= q
    ensures Count(Upto(i, q), d) == if i <= d < q then 1 else 0
    decreases q - i
  {
    if i < q {
      CountUpto(i + 1, q, d);
      assert Upto(i, q)[1..] == Upto(i + 1, q);
    }
  }

  function Setup(q: nat, maxSegs: nat): State {
    State(
      Table(seq(q, (i: nat) => Desc(Header(0), false, false, i + 1)), 0, q),
      seq(q, _ => -1), seq(SLOTS, _ => Req(false, false)), maxSegs,
      Log(seq(q, _ => 0), 0, []), Log(seq(q, _ => 0), 0, []), 0, 0, 0,
      Upto(0, q), seq(SLOTS, _ => []), seq(SLOTS, _ => []), None, seq(SLOTS, _ => 0), 0, [])
  }

  lemma {:induction false} CountNone(fs: seq<seq<nat>>, d: nat)
    requires forall s :: 0 <= s < |fs| ==> fs[s] == []
    ensures CountAll(fs, d) == 0
    decreases |fs|
  {
    if fs != [] {
      CountNone(fs[1..], d);
    }
  }

  lemma SetupInv(q: nat, maxSegs: nat)
    requires 0 < q < WRAP && WRAP % q == 0
    ensures Inv(Setup(q, maxSegs))
  {
    var st := Setup(q, maxSegs);
    forall d: nat ensures Count(st.free, d) + CountAll(st.flight, d) == if d < q then 1 else 0 {
      CountUpto(0, q, d);
      CountNone(st.flight, d);
    }
  }
}
