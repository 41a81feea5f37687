/** The queue code itself: descriptors taken and given back, chains built segment by
    segment, and the used ring drained, against the steps that say what they do.
 */
module VirtioCalls {
  import opened Basics
  import opened DescTable
  import opened VirtioRing
  import opened VirtioRuns

  class Queue {
    var desc: seq<Desc>
    var freeHead: nat
    var numFree: nat
    var owner: seq<int>
    var reqs: seq<Req>
    var maxSegs: nat
    var avail: Log
    var used: Log
    var lastUsed: nat
    ghost var notes: State   // the bookkeeping; its driver fields are stale

    ghost function View(): State
      reads this
    {
      notes.(t := Table(desc, freeHead, numFree), owner := owner, reqs := reqs, maxSegs := maxSegs,
             avail := avail, used := used, lastUsed := lastUsed)
    }

    /** `vblk_setup_queue`, once the ring's memory is there and cleared */
    constructor (q: nat, segs: nat)
      ensures View() == Setup(q, segs)
    {
      var d: seq<Desc>, o: seq<int> := [], [];
      var i := 0;
      while i < q
        invariant i <= q && |d| == |o| == i
        invariant forall k :: 0 <= k < i ==> d[k] == Desc(Header(0), false, false, k + 1) && o[k] == -1
      {
        d, o := d + [Desc(Header(0), false, false, i + 1)], o + [-1];
        i := i + 1;
      }
      desc, owner := d, o;
      freeHead, numFree, lastUsed, maxSegs := 0, q, 0, segs;
      reqs := seq(SLOTS, _ => Req(false, false));
      avail, used := Log(seq(q, _ => 0), 0, []), Log(seq(q, _ => 0), 0, []);
      notes := Setup(q, segs);
    }

    /** `take_slot_locked`: the first slot not in use, if there are descriptors enough. */
    method TakeSlot(ndesc: nat) returns (slot: int)
      requires |reqs| == SLOTS
      ensures -1 <= slot < SLOTS
      ensures slot >= 0 ==> numFree >= ndesc && !reqs[slot].inUse && forall i :: 0 <= i < slot ==> reqs[i].inUse
      ensures slot < 0 <==> numFree < ndesc || forall i :: 0 <= i < SLOTS ==> reqs[i].inUse
    {
      if numFree < ndesc {
        return -1;
      }
      slot := 0;
      while slot < SLOTS
        invariant 0 <= slot <= SLOTS && forall i :: 0 <= i < slot ==> reqs[i].inUse
      {
        if !reqs[slot].inUse {
          return;
        }
        slot := slot + 1;
      }
      slot := -1;
    }

    /** `take_desc_locked` */
    method TakeOne() returns (i: nat)
      requires freeHead < |desc| && numFree > 0
      modifies this`freeHead, this`numFree
      ensures (i, Table(desc, freeHead, numFree)) == TakeDesc(Table(desc, old(freeHead), old(numFree)))
    {
      i := freeHead;
      freeHead := desc[i].next;
      numFree := numFree - 1;
    }

    /** `free_chain_locked`: `c` is the chain that starts at `head`. */
    method FreeChain(head: nat, ghost c: seq<nat>)
      requires Chain(desc, c) && c[0] == head
      modifies this`desc, this`freeHead, this`numFree
      ensures Table(desc, freeHead, numFree) == Returned(old(Table(desc, freeHead, numFree)), c)
    {
      var h := head;
      ghost var k := 0;
      while true
        invariant 0 <= k < |c| && h == c[k] && |desc| == |old(desc)|
        invariant forall j :: k <= j < |c| ==> desc[c[j]] == old(desc)[c[j]]
        invariant InRange(c[k..], |desc|)
        invariant Returned(Table(desc, freeHead, numFree), c[k..]) == Returned(old(Table(desc, freeHead, numFree)), c)
        decreases |c| - k
      {
        var more, next := desc[h].more, desc[h].next;
        assert c[k..][1..] == c[k + 1..];
        desc := desc[h := desc[h].(next := freeHead)];
        freeHead := h;
        numFree := numFree + 1;
        if !more {
          assert c[k + 1..] == [];
          break;
        }
        h := next;
        k := k + 1;
      }
    }

    /** `k` items of a request are in place, from a table that was `t0`. */
    ghost predicate Building(t0: Table, free0: seq<nat>, items: seq<Item>, k: nat)
      reads this
    {
      && FreeList(t0, free0) && k <= |items| <= |free0|
      && desc == Filled(t0.desc, free0, items, k) && numFree == t0.numFree - k
      && (k > 0 ==> freeHead == t0.desc[free0[k - 1]].next)
      && (k == 0 ==> freeHead == t0.freeHead)
    }

    /** One descriptor taken, filled, and linked from the one before it. */
    method AddItem(prev: Option<nat>, item: Item, more: bool,
                   ghost t0: Table, ghost free0: seq<nat>, ghost items: seq<Item>, ghost k: nat) returns (n: nat)
      requires Building(t0, free0, items, k) && k < |items| && item == items[k] && more == (k + 1 < |items|)
      requires prev == if k == 0 then None else Some(free0[k - 1])
      modifies this`desc, this`freeHead, this`numFree
      ensures Building(t0, free0, items, k + 1) && n == free0[k]
    {
      assert freeHead == free0[k];
      FilledAt(t0.desc, free0, items, k, free0[k]);
      assert desc[freeHead] == t0.desc[free0[k]];
      n := TakeOne();
      desc := desc[n := Desc(item.part, item.write, more, desc[n].next)];
      if prev.Some? {
        FilledAt(t0.desc, free0, items, k + 1, free0[k - 1]);
        assert desc[prev.value].next == n;
        desc := desc[prev.value := desc[prev.value].(next := n)];
      }
    }

    /** The chain of a request: header, one descriptor a segment, status byte. */
    method BuildChain(slot: nat, segments: seq<(nat, nat)>, write: bool) returns (head: nat)
      requires FreeList(Table(desc, freeHead, numFree), notes.free) && |segments| + 2 <= numFree
      modifies this`desc, this`freeHead, this`numFree
      ensures head == notes.free[0]
      ensures Table(desc, freeHead, numFree) ==
        Built(old(Table(desc, freeHead, numFree)), notes.free, Items(slot, segments, write))
    {
      ghost var t0, items, free := Table(desc, freeHead, numFree), Items(slot, segments, write), notes.free;
      head := AddItem(None, Item(Header(slot), false), true, t0, free, items, 0);
      var prev, i := head, 0;
      while i < |segments|
        invariant i <= |segments| && Building(t0, free, items, i + 1) && prev == free[i]
      {
        prev := AddItem(Some(prev), Item(Data(segments[i].0, segments[i].1), !write), true, t0, free, items, i + 1);
        i := i + 1;
      }
      prev := AddItem(Some(prev), Item(Status(slot), true), false, t0, free, items, i + 1);
    }

    method OfferChain(slot: nat, segments: seq<(nat, nat)>, write: bool)
      requires Sizes(View()) && slot < SLOTS && FreeList(View().t, notes.free) && |segments| + 2 <= numFree
      modifies this
      ensures View() == Published(old(View()), slot, Items(slot, segments, write))
    {
      ghost var k := Published(View(), slot, Items(slot, segments, write));
      var head := BuildChain(slot, segments, write);
      owner := owner[head := slot];
      avail := Put(avail, head);
      notes := k;
    }

    /** The second locked section of `vblk_request` */
    method PublishChain(slot: nat, segments: seq<(nat, nat)>, write: bool)
      requires Inv(View()) && Enabled(View(), Publish(segments, write)) && notes.claim == Some(slot)
      modifies this
      ensures View() == Apply(old(View()), Publish(segments, write))
    {
      OfferChain(slot, segments, write);
    }

    method CompleteSlot(slot: nat, head: nat)
      requires Sizes(View()) && slot < SLOTS && Chain(desc, notes.flight[slot]) && notes.flight[slot][0] == head
      modifies this
      ensures View() == Completed(old(View()), slot)
    {
      ghost var k := Completed(View(), slot);
      owner := owner[head := -1];
      FreeChain(head, notes.flight[slot]);
      reqs := reqs[slot := reqs[slot].(done := true)];
      notes := k;
    }

    /** One turn of `reap_locked` */
    method ReapOne() returns (completes: bool)
      requires Inv(View()) && Enabled(View(), Reap)
      modifies this
      ensures View() == Apply(old(View()), Reap)
      ensures completes <==> notes.completed != old(notes.completed)
    {
      var head := used.cells[lastUsed % |used.cells|] % WRAP;
      var slot := if head < |owner| then owner[head] else -1;
      if slot >= 0 {
        assert OwnerOk(View(), head) && FlightOk(View(), slot);
      }
      lastUsed, notes := (lastUsed + 1) % WRAP, notes.(reaped := notes.reaped + 1);
      if slot < 0 {
        return false;
      }
      CompleteSlot(slot, head);
      completes := true;
    }

    /** `reap_locked` */
    method ReapQueue() returns (any: bool)
      requires Inv(View())
      modifies this
      ensures View() == ReapAll(old(View())) && Inv(View())
      ensures any <==> notes.completed != old(notes.completed)
    {
      any := false;
      while lastUsed != used.idx
        invariant Inv(View()) && ReapAll(View()) == ReapAll(old(View()))
        invariant |notes.completed| >= |old(notes.completed)|
        invariant any <==> |notes.completed| > |old(notes.completed)|
        invariant !any ==> notes.completed == old(notes.completed)
        decreases |used.all| - notes.reaped
      {
        ReapsInOrder(View());
        ReapKeeps(View());
        ghost var before := notes.completed;
        var completes := ReapOne();
        assert notes.completed == before || |notes.completed| == |before| + 1;
        any := any || completes;
      }
    }
  }
}
