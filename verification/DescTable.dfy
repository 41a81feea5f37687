/** The descriptor table of a virtio queue: a free list threaded through the `next`
    fields, and request chains built from it and given back to it.
 */
module DescTable {
  import opened Basics
  import Seqs

  /** What a descriptor points at. */
  datatype Part = Header(slot: nat) | Data(addr: nat, len: nat) | Status(slot: nat)

  datatype Desc = Desc(part: Part, write: bool, more: bool, next: nat)

  datatype Table = Table(desc: seq<Desc>, freeHead: nat, numFree: nat)

  // ---- lists through the table ----

  predicate InRange(s: seq<nat>, q: nat) {
    forall i :: 0 <= i < |s| ==> s[i] < q
  }

  /** Following `next` from `s[0]` visits `s`. */
  predicate Linked(desc: seq<Desc>, s: seq<nat>)
    requires InRange(s, |desc|)
  {
    forall i :: 0 <= i < |s| - 1 ==> desc[s[i]].next == s[i + 1]
  }

  /** `s` is the free list. */
  predicate FreeList(t: Table, s: seq<nat>) {
    && InRange(s, |t.desc|) && Distinct(s) && Linked(t.desc, s)
    && t.numFree == |s| && (s != [] ==> t.freeHead == s[0])
  }

  /** `c` is a request chain: linked, with the more flag on all but its last. */
  predicate Chain(desc: seq<Desc>, c: seq<nat>) {
    && c != [] && InRange(c, |desc|) && Distinct(c) && Linked(desc, c)
    && forall i :: 0 <= i < |c| ==> desc[c[i]].more == (i < |c| - 1)
  }

  // ---- take_desc_locked ----

  function TakeDesc(t: Table): (nat, Table)
    requires t.freeHead < |t.desc| && t.numFree > 0
  {
    (t.freeHead, t.(freeHead := t.desc[t.freeHead].next, numFree := t.numFree - 1))
  }

  /** Taking a descriptor hands out the first of the free list. */
  lemma TakeDescFree(t: Table, s: seq<nat>)
    requires FreeList(t, s) && s != []
    ensures t.freeHead < |t.desc| && t.numFree > 0
    ensures TakeDesc(t).0 == s[0] && FreeList(TakeDesc(t).1, s[1..])
  {
    assert forall i :: 0 <= i < |s| - 1 ==> s[1..][i] == s[i + 1];
  }

  // ---- building a chain ----

  /** What a chain is to hold, in order. */
  datatype Item = Item(part: Part, write: bool)

  /** The items of a request: header, segments, status byte. */
  function Items(slot: nat, segments: seq<(nat, nat)>, write: bool): seq<Item> {
    [Item(Header(slot), false)] + SegmentItems(segments, write) + [Item(Status(slot), true)]
  }

  function SegmentItems(segments: seq<(nat, nat)>, write: bool): (r: seq<Item>)
    ensures |r| == |segments|
    ensures forall i :: 0 <= i < |r| ==> r[i] == Item(Data(segments[i].0, segments[i].1), !write)
  {
    seq(|segments|, i requires 0 <= i < |segments| => Item(Data(segments[i].0, segments[i].1), !write))
  }

  /** The table after filling the first `k` descriptors of the free list; `next` fields
      already lead from each to the one after it. */
  function Filled(desc: seq<Desc>, free: seq<nat>, items: seq<Item>, k: nat): (r: seq<Desc>)
    requires k <= |items| <= |free| && InRange(free, |desc|)
    ensures |r| == |desc|
  {
    if k == 0 then desc
    else
      var n := free[k - 1];
      Filled(desc, free, items, k - 1)[n := Desc(items[k - 1].part, items[k - 1].write, k < |items|, desc[n].next)]
  }

  /** A request's descriptors taken and filled. */
  function Built(t: Table, free: seq<nat>, items: seq<Item>): Table
    requires FreeList(t, free) && 0 < |items| <= |free|
  {
    Table(Filled(t.desc, free, items, |items|), t.desc[free[|items| - 1]].next, t.numFree - |items|)
  }

  /** What the device reads from a chain. */
  function Reads(desc: seq<Desc>, c: seq<nat>): (r: seq<Item>)
    requires InRange(c, |desc|)
    ensures |r| == |c| && forall i :: 0 <= i < |r| ==> r[i] == Item(desc[c[i]].part, desc[c[i]].write)
  {
    seq(|c|, i requires 0 <= i < |c| => Item(desc[c[i]].part, desc[c[i]].write))
  }

  lemma {:induction false} FilledAt(desc: seq<Desc>, free: seq<nat>, items: seq<Item>, k: nat, d: nat)
    requires k <= |items| <= |free| && InRange(free, |desc|) && Distinct(free) && d < |desc|
    ensures d !in free[..k] ==> Filled(desc, free, items, k)[d] == desc[d]
    ensures forall i :: 0 <= i < k && free[i] == d ==>
      Filled(desc, free, items, k)[d] == Desc(items[i].part, items[i].write, i + 1 < |items|, desc[d].next)
    decreases k
  {
    if k > 0 {
      FilledAt(desc, free, items, k - 1, d);
      assert free[..k] == free[..k - 1] + [free[k - 1]];
    }
  }

  /** A built request is a chain of the first free descriptors that reads back as its
      items; the rest stay free, and no other descriptor changes. */
  lemma BuiltIs(t: Table, free: seq<nat>, items: seq<Item>)
    requires FreeList(t, free) && 0 < |items| <= |free|
    ensures var b := Built(t, free, items);
      && |b.desc| == |t.desc| && InRange(free[..|items|], |b.desc|)
      && Chain(b.desc, free[..|items|]) && Reads(b.desc, free[..|items|]) == items
      && FreeList(b, free[|items|..])
      && forall d :: 0 <= d < |t.desc| && d !in free[..|items|] ==> b.desc[d] == t.desc[d]
  {
    var n, b := |items|, Built(t, free, items);
    var c, rest := free[..n], free[n..];
    forall d | 0 <= d < |t.desc| && d !in c ensures b.desc[d] == t.desc[d] {
      FilledAt(t.desc, free, items, n, d);
    }
    forall i | 0 <= i < n
      ensures b.desc[c[i]] == Desc(items[i].part, items[i].write, i + 1 < n, t.desc[c[i]].next)
    {
      FilledAt(t.desc, free, items, n, free[i]);
    }
    BuiltRest(t, free, n, b.desc);
  }

  lemma BuiltRest(t: Table, free: seq<nat>, n: nat, desc: seq<Desc>)
    requires FreeList(t, free) && 0 < n <= |free| && |desc| == |t.desc|
    requires forall d :: 0 <= d < |desc| && d !in free[..n] ==> desc[d] == t.desc[d]
    ensures FreeList(Table(desc, t.desc[free[n - 1]].next, t.numFree - n), free[n..])
  {
    var rest := free[n..];
    forall i | 0 <= i < |rest| ensures rest[i] == free[n + i] && desc[rest[i]] == t.desc[free[n + i]] {
      assert free[n + i] !in free[..n];
    }
  }

  // ---- free_chain_locked ----

  function Push(t: Table, h: nat): Table
    requires h < |t.desc|
  {
    Table(t.desc[h := t.desc[h].(next := t.freeHead)], h, t.numFree + 1)
  }

  /** Giving back the descriptors of a chain one by one. */
  function Returned(t: Table, c: seq<nat>): (r: Table)
    requires InRange(c, |t.desc|)
    ensures |r.desc| == |t.desc|
    decreases |c|
  {
    if c == [] then t else Returned(Push(t, c[0]), c[1..])
  }

  function Reversed(c: seq<nat>): (r: seq<nat>)
    ensures |r| == |c|
  {
    if c == [] then [] else Reversed(c[1..]) + [c[0]]
  }

  lemma PushFree(t: Table, free: seq<nat>, h: nat)
    requires FreeList(t, free) && h < |t.desc| && h !in free
    ensures FreeList(Push(t, h), [h] + free)
  {
    var p, s := Push(t, h), [h] + free;
    forall i | 0 <= i < |s| - 1 ensures p.desc[s[i]].next == s[i + 1] {
      if i > 0 {
        assert s[i] == free[i - 1] && free[i - 1] != h;
      }
    }
  }

  /** Giving a chain back puts all of it, and nothing else, on the free list. */
  lemma {:induction false} ReturnedFree(t: Table, free: seq<nat>, c: seq<nat>)
    requires FreeList(t, free) && InRange(c, |t.desc|) && Distinct(c) && forall d :: d in c ==> d !in free
    ensures FreeList(Returned(t, c), Reversed(c) + free)
    ensures forall d :: 0 <= d < |t.desc| && d !in c ==> Returned(t, c).desc[d] == t.desc[d]
    decreases |c|
  {
    if c == [] {
      assert Reversed(c) + free == free;
    } else {
      PushFree(t, free, c[0]);
      forall d | d in c[1..] ensures d !in [c[0]] + free {
        var i :| 0 <= i < |c[1..]| && c[1..][i] == d;
        assert c[i + 1] == d && d in c;
      }
      ReturnedFree(Push(t, c[0]), [c[0]] + free, c[1..]);
      Seqs.Assoc(Reversed(c[1..]), [c[0]], free);
      assert forall d :: d !in c ==> d !in c[1..];
    }
  }

  // ---- counting ----

  function Count(s: seq<nat>, d: nat): nat {
    if s == [] then 0 else (if s[0] == d then 1 else 0) + Count(s[1..], d)
  }

  lemma {:induction false} CountJoin(a: seq<nat>, b: seq<nat>, d: nat)
    ensures Count(a + b, d) == Count(a, d) + Count(b, d)
    decreases |a|
  {
    if a == [] {
      Seqs.Nil(b);
    } else {
      Seqs.ConcatTail(a, b);
      CountJoin(a[1..], b, d);
    }
  }

  lemma {:induction false} CountReversed(c: seq<nat>, d: nat)
    ensures Count(Reversed(c), d) == Count(c, d)
    decreases |c|
  {
    if c != [] {
      CountReversed(c[1..], d);
      CountJoin(Reversed(c[1..]), [c[0]], d);
    }
  }

  lemma {:induction false} CountIn(s: seq<nat>, d: nat)
    ensures Count(s, d) > 0 <==> d in s
    decreases |s|
  {
    if s != [] {
      CountIn(s[1..], d);
    }
  }
}
