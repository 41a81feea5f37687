/** The address-ordered free list of the kernel heap: coalescing insertion and first-fit
    removal, with every byte accounted for.
 */
module FreeList {
  import opened Basics
  import Seqs

  const HEADER: nat := 16
  const STEP: nat := 16

  /** A stretch of memory.  A heap block is its header and its `Size` usable bytes. */
  datatype Extent = Extent(at: nat, len: nat)

  function End(e: Extent): nat {
    e.at + e.len
  }

  function Size(e: Extent): int {
    e.len - HEADER
  }

  /** How often `e` covers byte `x`: once or not at all. */
  function Hits(e: Extent, x: nat): nat {
    if e.at <= x < End(e) then 1 else 0
  }

  /** How many extents of a list cover byte `x`. */
  function Cover(es: seq<Extent>, x: nat): nat {
    if es == [] then 0 else Hits(es[0], x) + Cover(es[1..], x)
  }

  lemma {:induction false} CoverJoin(a: seq<Extent>, b: seq<Extent>, x: nat)
    ensures Cover(a + b, x) == Cover(a, x) + Cover(b, x)
    decreases |a|
  {
    if a == [] {
      Seqs.Nil(b);
    } else {
      Seqs.ConcatTail(a, b);
      CoverJoin(a[1..], b, x);
    }
  }

  lemma CoverOne(e: Extent, x: nat)
    ensures Cover([e], x) == Hits(e, x)
  {
    assert [e][1..] == [];
  }

  lemma CoverAt(es: seq<Extent>, k: nat, x: nat)
    requires k < |es|
    ensures Cover(es, x) == Cover(es[..k], x) + Hits(es[k], x) + Cover(es[k + 1..], x)
  {
    Seqs.Split(es, k);
    CoverJoin(es[..k], es[k..], x);
    assert es[k..][1..] == es[k + 1..];
  }

  lemma CoverMember(es: seq<Extent>, k: nat, x: nat)
    requires k < |es|
    ensures Cover(es, x) >= Hits(es[k], x)
  {
    CoverAt(es, k, x);
  }

  /** A heap block: 16-byte aligned, a multiple of 16 long, with room for 16 bytes. */
  predicate IsBlock(e: Extent) {
    e.at % STEP == 0 && e.len % STEP == 0 && e.len >= HEADER + STEP
  }

  predicate AllBlocks(es: seq<Extent>) {
    forall i :: 0 <= i < |es| ==> IsBlock(es[i])
  }

  /** Address order with a gap between any two neighbours. */
  predicate Apart(es: seq<Extent>) {
    forall i, j :: 0 <= i < j < |es| ==> End(es[i]) < es[j].at
  }

  ghost predicate Clear(es: seq<Extent>, e: Extent) {
    forall i :: 0 <= i < |es| ==> End(es[i]) <= e.at || End(e) <= es[i].at
  }

  // ---- insert_free_locked ----

  /** Where the search stops: the first block not below `at`. */
  function Pos(es: seq<Extent>, at: nat): (k: nat)
    ensures k <= |es|
    ensures forall i :: 0 <= i < k ==> es[i].at < at
    ensures k < |es| ==> es[k].at >= at
  {
    if es == [] || es[0].at >= at then 0 else 1 + Pos(es[1..], at)
  }

  /** Joining a block to the one that starts where it ends. */
  function JoinRight(e: Extent, right: seq<Extent>): (Extent, seq<Extent>) {
    if right != [] && End(e) == right[0].at then (Extent(e.at, e.len + right[0].len), right[1..]) else (e, right)
  }

  /** Joining it to the one that ends where it starts. */
  function JoinLeft(left: seq<Extent>, e: Extent): seq<Extent> {
    if left != [] && End(left[|left| - 1]) == e.at then
      left[..|left| - 1] + [Extent(left[|left| - 1].at, left[|left| - 1].len + e.len)]
    else left + [e]
  }

  /** `insert_free_locked` */
  function InsertFree(es: seq<Extent>, e: Extent): seq<Extent> {
    var k := Pos(es, e.at);
    var (m, right) := JoinRight(e, es[k..]);
    JoinLeft(es[..k], m) + right
  }

  /** Nothing is empty. */
  predicate Solid(es: seq<Extent>) {
    forall i :: 0 <= i < |es| ==> es[i].len > 0
  }

  lemma BlocksAreSolid(es: seq<Extent>)
    requires AllBlocks(es)
    ensures Solid(es)
  {}

  predicate EndsBy(es: seq<Extent>, at: nat) {
    forall i :: 0 <= i < |es| ==> End(es[i]) <= at
  }

  predicate StartsAfter(es: seq<Extent>, at: nat) {
    forall i :: 0 <= i < |es| ==> at < es[i].at
  }

  lemma JoinRightOrder(e: Extent, right: seq<Extent>)
    requires Apart(right) && Solid(right) && (right != [] ==> End(e) <= right[0].at)
    ensures var (m, rest) := JoinRight(e, right);
      && m.at == e.at && m.len >= e.len && Apart(rest) && Solid(rest) && StartsAfter(rest, End(m))
  {
    var (m, rest) := JoinRight(e, right);
    if right != [] && End(e) == right[0].at {
      forall i | 0 <= i < |rest| ensures End(m) < rest[i].at {
        assert rest[i] == right[i + 1];
      }
    } else {
      forall i | 0 <= i < |rest| ensures End(m) < rest[i].at {
        if i > 0 {
          assert End(right[0]) < right[i].at;
        }
      }
    }
  }

  lemma ApartSnoc(es: seq<Extent>, e: Extent)
    requires Apart(es) && forall i :: 0 <= i < |es| ==> End(es[i]) < e.at
    ensures Apart(es + [e])
  {}

  lemma JoinLeftOrder(left: seq<Extent>, e: Extent)
    requires Apart(left) && Solid(left) && e.len > 0 && EndsBy(left, e.at)
    ensures var r := JoinLeft(left, e);
      r != [] && Apart(r) && Solid(r) && EndsBy(r, End(e)) && r[|r| - 1].len >= e.len
  {
    if left != [] {
      var k := |left| - 1;
      assert forall i :: 0 <= i < k ==> End(left[i]) < left[k].at;
      if End(left[k]) == e.at {
        ApartSnoc(left[..k], Extent(left[k].at, left[k].len + e.len));
      } else {
        ApartSnoc(left, e);
      }
    }
  }

  lemma ApartJoin(a: seq<Extent>, b: seq<Extent>, mid: nat)
    requires Apart(a) && Apart(b) && EndsBy(a, mid) && StartsAfter(b, mid)
    ensures Apart(a + b)
  {}

  lemma ApartParts(es: seq<Extent>, k: nat)
    requires Apart(es) && Solid(es) && k <= |es|
    ensures Apart(es[..k]) && Solid(es[..k]) && Apart(es[k..]) && Solid(es[k..])
  {
    assert forall i :: 0 <= i < |es| - k ==> es[k..][i] == es[k + i];
  }

  /** Around the insertion point: what lies below the block and what lies above. */
  lemma PosSplits(es: seq<Extent>, e: Extent, k: nat)
    requires Clear(es, e) && e.len > 0 && Solid(es) && k <= |es|
    requires (forall i :: 0 <= i < k ==> es[i].at < e.at) && (k < |es| ==> es[k].at >= e.at)
    ensures EndsBy(es[..k], e.at) && (k < |es| ==> End(e) <= es[k].at)
  {
    forall i | 0 <= i < k ensures End(es[i]) <= e.at {
      assert es[i].at < e.at;
    }
  }

  /** Inserting keeps address order and leaves no two adjacent blocks. */
  lemma InsertOrder(es: seq<Extent>, e: Extent)
    requires Apart(es) && Solid(es) && Clear(es, e) && e.len > 0
    ensures Apart(InsertFree(es, e))
    ensures exists i :: 0 <= i < |InsertFree(es, e)| && InsertFree(es, e)[i].len >= e.len
  {
    var k := Pos(es, e.at);
    ApartParts(es, k);
    PosSplits(es, e, k);
    JoinRightOrder(e, es[k..]);
    var (m, rest) := JoinRight(e, es[k..]);
    JoinLeftOrder(es[..k], m);
    var head := JoinLeft(es[..k], m);
    ApartJoin(head, rest, End(m));
    assert InsertFree(es, e)[|head| - 1] == head[|head| - 1];
  }

  lemma JoinRightCover(e: Extent, right: seq<Extent>, x: nat)
    ensures var (m, rest) := JoinRight(e, right);
      Hits(m, x) + Cover(rest, x) == Hits(e, x) + Cover(right, x)
  {}

  lemma JoinLeftCover(left: seq<Extent>, e: Extent, x: nat)
    ensures Cover(JoinLeft(left, e), x) == Cover(left, x) + Hits(e, x)
  {
    if left != [] && End(left[|left| - 1]) == e.at {
      var k := |left| - 1;
      var m := Extent(left[k].at, left[k].len + e.len);
      CoverJoin(left[..k], [m], x);
      CoverAt(left, k, x);
      CoverOne(m, x);
    } else {
      CoverJoin(left, [e], x);
      CoverOne(e, x);
    }
  }

  /** Inserting covers exactly the bytes covered before and the new block's. */
  lemma InsertCover(es: seq<Extent>, e: Extent, x: nat)
    ensures Cover(InsertFree(es, e), x) == Cover(es, x) + Hits(e, x)
  {
    var k := Pos(es, e.at);
    Seqs.Split(es, k);
    CoverJoin(es[..k], es[k..], x);
    JoinRightCover(e, es[k..], x);
    var (m, rest) := JoinRight(e, es[k..]);
    JoinLeftCover(es[..k], m, x);
    CoverJoin(JoinLeft(es[..k], m), rest, x);
  }

  lemma JoinBlocks(e: Extent, f: Extent)
    requires IsBlock(e) && IsBlock(f)
    ensures IsBlock(Extent(e.at, e.len + f.len))
  {}

  lemma JoinLeftBlocks(left: seq<Extent>, e: Extent)
    requires AllBlocks(left) && IsBlock(e)
    ensures AllBlocks(JoinLeft(left, e))
  {
    if left != [] {
      JoinBlocks(left[|left| - 1], e);
    }
  }

  lemma InsertBlocks(es: seq<Extent>, e: Extent)
    requires AllBlocks(es) && IsBlock(e)
    ensures AllBlocks(InsertFree(es, e))
  {
    var k := Pos(es, e.at);
    if k < |es| {
      JoinBlocks(e, es[k]);
    }
    JoinLeftBlocks(es[..k], JoinRight(e, es[k..]).0);
  }

  // ---- heap_take ----

  /** The first block with room for `n` bytes. */
  function FirstFit(es: seq<Extent>, n: nat): (k: nat)
    ensures k <= |es|
    ensures forall i :: 0 <= i < k ==> Size(es[i]) < n
    ensures k < |es| ==> Size(es[k]) >= n
  {
    if es == [] || Size(es[0]) >= n then 0 else 1 + FirstFit(es[1..], n)
  }

  /** How a block is cut for `n` bytes: what is handed out and what stays free. */
  function Cut(e: Extent, n: nat): (Extent, seq<Extent>) {
    if Size(e) >= n + HEADER + STEP then
      (Extent(e.at, n + HEADER), [Extent(e.at + n + HEADER, e.len - n - HEADER)])
    else (e, [])
  }

  /** `heap_take`: the block handed out, and the list left. */
  function Take(es: seq<Extent>, n: nat): Option<(Extent, seq<Extent>)> {
    var k := FirstFit(es, n);
    if k == |es| then None
    else
      var (taken, left) := Cut(es[k], n);
      Some((taken, es[..k] + left + es[k + 1..]))
  }

  lemma CutFacts(e: Extent, n: nat, x: nat)
    requires IsBlock(e) && n % STEP == 0 && n > 0 && Size(e) >= n
    ensures var (taken, left) := Cut(e, n);
      && IsBlock(taken) && n <= Size(taken) < n + HEADER + STEP && taken.at == e.at
      && AllBlocks(left) && |left| <= 1 && (left != [] ==> e.at < left[0].at && End(left[0]) == End(e))
      && Hits(taken, x) + Cover(left, x) == Hits(e, x)
  {
    var (taken, left) := Cut(e, n);
    if left != [] {
      CoverOne(left[0], x);
    }
  }

  lemma TakeApart(es: seq<Extent>, k: nat, left: seq<Extent>)
    requires Solid(es) && Apart(es) && k < |es| && |left| <= 1
    requires left != [] ==> es[k].at < left[0].at && End(left[0]) == End(es[k])
    ensures Apart(es[..k] + left + es[k + 1..])
  {
    var a, b := es[..k], es[k + 1..];
    assert forall i :: 0 <= i < |b| ==> b[i] == es[k + 1 + i];
    if left != [] {
      ApartSnoc(a, left[0]);
      assert left == [left[0]];
    } else {
      assert a + left == a;
    }
    assert EndsBy(a + left, End(es[k]));
    ApartJoin(a + left, b, End(es[k]));
  }

  lemma TakeCover(es: seq<Extent>, n: nat, x: nat)
    requires AllBlocks(es) && n % STEP == 0 && n > 0 && Take(es, n).Some?
    ensures var (taken, rest) := Take(es, n).value;
      Hits(taken, x) + Cover(rest, x) == Cover(es, x)
  {
    var k := FirstFit(es, n);
    var (taken, left) := Cut(es[k], n);
    CutFacts(es[k], n, x);
    CoverAt(es, k, x);
    CoverJoin(es[..k] + left, es[k + 1..], x);
    CoverJoin(es[..k], left, x);
  }

  /** First fit fails exactly when no block has room.  Otherwise it hands out a block
      with room, wasting less than a header and a step, and the list keeps its order
      and its gaps. */
  lemma TakeKeeps(es: seq<Extent>, n: nat)
    requires AllBlocks(es) && Apart(es) && n % STEP == 0 && n > 0
    ensures Take(es, n).Some? <==> Room(es, n)
    ensures Take(es, n).Some? ==>
      var (taken, rest) := Take(es, n).value;
      IsBlock(taken) && n <= Size(taken) < n + HEADER + STEP && AllBlocks(rest) && Apart(rest)
  {
    var k := FirstFit(es, n);
    if k < |es| {
      CutFacts(es[k], n, 0);
      BlocksAreSolid(es);
      TakeApart(es, k, Cut(es[k], n).1);
    }
  }

  /** Some free block has room for `n` bytes. */
  predicate Room(es: seq<Extent>, n: nat) {
    exists i :: 0 <= i < |es| && Size(es[i]) >= n
  }

  lemma RoomAt(es: seq<Extent>, n: nat, i: nat)
    requires i < |es| && Size(es[i]) >= n
    ensures Room(es, n)
  {}

  /** Inserting never takes room away: blocks only grow. */
  lemma InsertKeepsRoom(es: seq<Extent>, e: Extent, n: nat)
    requires Apart(es) && Solid(es) && Clear(es, e) && e.len > 0 && (Room(es, n) || Size(e) >= n)
    ensures Room(InsertFree(es, e), n)
  {
    if Size(e) >= n {
      InsertOrder(es, e);
    } else {
      var i :| 0 <= i < |es| && Size(es[i]) >= n;
      InsertGrows(es, e, Pos(es, e.at), i);
    }
  }

  /** Every block of the list is, whole, in some block after the insertion. */
  lemma InsertGrows(es: seq<Extent>, e: Extent, k: nat, i: nat)
    requires k <= |es| && i < |es|
    ensures var (m, rest) := JoinRight(e, es[k..]);
      exists j :: 0 <= j < |JoinLeft(es[..k], m) + rest| && (JoinLeft(es[..k], m) + rest)[j].len >= es[i].len
  {
    var (m, rest) := JoinRight(e, es[k..]);
    var head := JoinLeft(es[..k], m);
    var joined := k < |es| && End(e) == es[k].at;
    var j := if i < k then i else if joined then |head| - 1 + (i - k) else |head| + (i - k);
    if i >= k && !(joined && i == k) {
      assert rest[j - |head|] == es[i];
    }
    assert (head + rest)[j].len >= es[i].len;
  }
}
