/** The heap code itself: list searches, batches and slabs as loops over the lists,
    against the steps that say what they do.
 */
module HeapCalls {
  import opened Basics
  import opened FreeList
  import opened Heap

  const GROW: nat := 4194304
  const LARGE: nat := 32768
  const MALLOC_MAX: nat := 0x100_0000_0000

  /** What `malloc` may answer: a block of the heap or a large one, new and big enough,
      or nothing, and then nothing was handed out. */
  predicate Answers(live0: seq<Live>, large0: seq<Live>, live: seq<Live>, large: seq<Live>, block: Option<Extent>,
                    asked: nat) {
    match block
    case None => live == live0 && large == large0
    case Some(e) =>
      && LiveOk(Live(e, asked))
      && ((live == live0 + [Live(e, asked)] && large == large0)
          || (live == live0 && large == large0 + [Live(e, asked)]))
  }

  /** The step frees the block in use whose header is at `at`, on behalf of `cpu`. */
  predicate FreesAt(h: State, a: Action, at: nat, cpu: nat) {
    match a
    case FreeLarge(i) => i < |h.large| && h.large[i].ext.at == at
    case FreeSmall(c, i) => i < |h.live| && h.live[i].ext.at == at && c / BINS == cpu
    case FreeBig(i) => i < |h.live| && h.live[i].ext.at == at
    case _ => false
  }

  class Allocator {
    var free: seq<Extent>
    var bins: seq<seq<Extent>>
    var caches: seq<seq<Extent>>
    var counts: seq<nat>
    var live: seq<Live>    // blocks whose header says used
    var large: seq<Live>   // blocks whose header says large
    ghost var slack: seq<Extent>
    ghost var chunks: seq<Extent>
    var brk: nat           // where the page allocator's unused pages begin and end
    var limit: nat

    ghost function View(): State
      reads this
    {
      State(free, bins, caches, counts, live, large, slack, chunks)
    }

    /** The heap is sound and holds nothing of the unused pages. */
    ghost predicate Valid()
      reads this
    {
      Inv(View()) && brk % PAGE == 0 && forall x :: x >= brk ==> Held(View(), x) == 0
    }

    constructor (h: State, from: nat, to: nat)
      ensures View() == h && brk == from && limit == to
    {
      brk, limit := from, to;
      free, bins, caches, counts := h.free, h.bins, h.caches, h.counts;
      live, large, slack, chunks := h.live, h.large, h.slack, h.chunks;
    }

    /** The search of `insert_free_locked` */
    static method FindPos(es: seq<Extent>, at: nat) returns (k: nat)
      ensures k == Pos(es, at)
    {
      k := 0;
      while k < |es| && es[k].at < at
        invariant k <= |es| && Pos(es, at) == k + Pos(es[k..], at)
      {
        assert es[k..][1..] == es[k + 1..];
        k := k + 1;
      }
    }

    /** `insert_free_locked` */
    method InsertFreeLocked(block: Extent)
      modifies this`free
      ensures free == InsertFree(old(free), block)
    {
      var k := FindPos(free, block.at);
      var left, joined, right := free[..k], block, free[k..];
      if k < |free| && End(block) == right[0].at {
        joined, right := Extent(block.at, block.len + right[0].len), right[1..];
      }
      if k > 0 && End(left[k - 1]) == joined.at {
        left := left[..k - 1] + [Extent(left[k - 1].at, left[k - 1].len + joined.len)];
      } else {
        left := left + [joined];
      }
      free := left + right;
    }

    /** `heap_add_chunk`, with the pages the page allocator gave. */
    method AddPages(pages: Extent)
      requires Inv(View()) && Fresh(View(), pages)
      modifies this`free, this`chunks
      ensures View() == Apply(old(View()), AddChunk(pages))
    {
      InsertFreeLocked(pages);
      chunks := chunks + [pages];
    }

    /** The search of `heap_take` */
    static method FindFit(es: seq<Extent>, n: nat) returns (k: nat)
      ensures k == FirstFit(es, n)
    {
      k := 0;
      while k < |es| && Size(es[k]) < n
        invariant k <= |es| && FirstFit(es, n) == k + FirstFit(es[k..], n)
      {
        assert es[k..][1..] == es[k + 1..];
        k := k + 1;
      }
    }

    method Unlink(k: nat, n: nat) returns (block: Extent)
      requires k < |free|
      modifies this`free
      ensures var (taken, left) := Cut(old(free)[k], n);
        block == taken && free == old(free)[..k] + left + old(free)[k + 1..]
    {
      block := free[k];
      var left: seq<Extent> := [];
      if Size(block) >= n + HEADER + STEP {
        left := [Extent(block.at + n + HEADER, block.len - n - HEADER)];
        block := Extent(block.at, n + HEADER);
      }
      free := free[..k] + left + free[k + 1..];
    }

    /** `heap_take` */
    method TakeBlock(asked: nat) returns (block: Option<Extent>)
      requires Inv(View()) && asked > 0
      modifies this`free, this`live
      ensures View() == Apply(old(View()), HeapTake(asked))
      ensures block.Some? <==> Room(old(free), Round16(asked))
      ensures block.Some? ==> live == old(live) + [Live(block.value, asked)]
    {
      var n := Round16(asked);
      RoundFacts(asked);
      TakeKeeps(free, n);
      var k := FindFit(free, n);
      if k == |free| {
        return None;
      }
      var e := Unlink(k, n);
      live := live + [Live(e, asked)];
      block := Some(e);
    }

    /** The loop of `bin_refill_locked`: what goes with the first object, and what stays. */
    static method TakeBatch(l: seq<Extent>) returns (tail: seq<Extent>, rest: seq<Extent>)
      requires l != []
      ensures 1 <= Batch(|l|) <= |l| && tail == l[1..Batch(|l|)] && rest == l[Batch(|l|)..]
    {
      tail, rest := [], l[1..];
      while |tail| + 1 < CACHE_BATCH && rest != []
        invariant |tail| + 1 <= Batch(|l|) && tail == l[1..|tail| + 1] && rest == l[|tail| + 1..]
        decreases |rest|
      {
        tail, rest := tail + [rest[0]], rest[1..];
      }
    }

    /** `bin_refill_locked` and what `bin_alloc` hands out after it */
    method RefillCache(c: nat, asked: nat) returns (item: Extent)
      requires Inv(View()) && Enabled(View(), Refill(c, asked))
      modifies this`bins, this`caches, this`counts, this`live
      ensures View() == Apply(old(View()), Refill(c, asked))
      ensures live == old(live) + [Live(item, asked)]
    {
      var l := bins[c % BINS];
      var tail, rest := TakeBatch(l);
      item := l[0];
      bins := bins[c % BINS := rest];
      caches := caches[c := tail];
      counts := counts[c := |tail|];
      live := live + [Live(item, asked)];
    }

    /** `bin_alloc` when the CPU's own list has an object */
    method PopCache(c: nat, asked: nat) returns (item: Extent)
      requires Inv(View()) && Enabled(View(), CachePop(c, asked))
      modifies this`caches, this`counts, this`live
      ensures View() == Apply(old(View()), CachePop(c, asked))
      ensures live == old(live) + [Live(item, asked)]
    {
      assert CacheOk(c, caches[c], counts[c]);
      item := caches[c][0];
      caches := caches[c := caches[c][1..]];
      counts := counts[c := counts[c] - 1];
      live := live + [Live(item, asked)];
    }

    /** The cutting loop of `bin_add_slab`: from the top of the slab down. */
    static method CutSlab(stride: nat, at: nat) returns (objects: seq<Extent>)
      requires stride > 0
      ensures objects == Objects(at, stride, SLAB / stride)
    {
      objects := [];
      ghost var k := SLAB / stride;
      var top: nat := SLAB / stride * stride;
      while top >= stride
        invariant top == k * stride && k <= SLAB / stride
        invariant objects == Objects(at + top, stride, SLAB / stride - k)
        decreases top
      {
        Lower(k, stride);
        top, k := top - stride, k - 1;
        objects := [Extent(at + top, stride)] + objects;
      }
      AtBottom(k, stride);
    }

    static lemma Lower(k: nat, stride: nat)
      requires k * stride >= stride > 0
      ensures k > 0 && k * stride - stride == (k - 1) * stride
    {}

    static lemma AtBottom(k: nat, stride: nat)
      requires k * stride < stride
      ensures k == 0
    {}

    /** `bin_add_slab`, with the pages the page allocator gave. */
    method AddSlabPages(bin: nat, at: nat)
      requires Inv(View()) && Enabled(View(), AddSlab(bin, at))
      modifies this`bins, this`slack, this`chunks
      ensures View() == Apply(old(View()), AddSlab(bin, at))
    {
      var stride := ObjectLen(bin);
      SlabCounts(stride);
      var objects := CutSlab(stride, at);
      bins := bins[bin := objects + bins[bin]];
      ghost var n := SLAB / stride;
      slack := slack + [Extent(at + n * stride, SLAB - n * stride)];
      chunks := chunks + [Extent(at, SLAB)];
    }

    /** `bin_free` */
    method FreeToCache(c: nat, i: nat)
      requires Inv(View()) && Enabled(View(), FreeSmall(c, i))
      modifies this`bins, this`caches, this`counts, this`live
      ensures View() == Apply(old(View()), FreeSmall(c, i))
    {
      assert CacheOk(c, caches[c], counts[c]);
      var l := [live[i].ext] + caches[c];
      live := Dropped(live, i);
      counts := counts[c := counts[c] + 1];
      if counts[c] >= CACHE_MAX {
        var spilt, rest := l[..1], l[1..];
        for k := 1 to CACHE_BATCH
          invariant spilt == l[..k] && rest == l[k..]
        {
          spilt, rest := spilt + [rest[0]], rest[1..];
        }
        bins := bins[c % BINS := spilt + bins[c % BINS]];
        caches := caches[c := rest];
        counts := counts[c := counts[c] - CACHE_BATCH];
      } else {
        caches := caches[c := l];
      }
    }

    /** `alloc_kernel_pages`, as a supply of pages never handed out before */
    method GetPages(bytes: nat) returns (pages: Option<Extent>)
      requires Valid() && bytes % PAGE == 0 && bytes > 0
      modifies this`brk
      ensures Valid()
      ensures pages.Some? ==>
        && Fresh(View(), pages.value) && pages.value.len == bytes && End(pages.value) == brk
        && old(brk) < brk <= limit
      ensures pages.None? ==> brk == old(brk) && brk + bytes > limit
    {
      if brk + bytes > limit {
        return None;
      }
      pages := Some(Extent(brk, bytes));
      brk := brk + bytes;
    }

    lemma HoldsMore(k: State, e: Extent, x: nat)
      requires End(e) <= brk <= x && Held(View(), x) == 0
      requires
        || (k.chunks == chunks + [e] && k.large == large)
        || (k.chunks == chunks && |k.large| == |large| + 1 && k.large == large + [Live(e, k.large[|large|].asked)])
      ensures Held(k, x) == 0
    {
      if k.large == large {
        CoverJoin(chunks, [e], x);
        CoverOne(e, x);
      } else {
        CoverLiveAdd(large, Live(e, k.large[|large|].asked), x);
      }
    }

    /** `heap_add_chunk` */
    method AddChunkOf(bytes: nat) returns (ok: bool)
      requires Valid() && bytes % PAGE == 0 && bytes > 0
      modifies this`free, this`chunks, this`brk
      ensures Valid()
      ensures ok ==> old(brk) < brk <= limit && Room(free, bytes - HEADER)
      ensures !ok ==> View() == old(View()) && brk == old(brk) && brk + bytes > limit
    {
      var pages := GetPages(bytes);
      if pages.None? {
        return false;
      }
      ghost var k := Apply(View(), AddChunk(pages.value));
      ApplyKeeps(View(), AddChunk(pages.value));
      ChunkClear(View(), pages.value);
      InsertKeepsRoom(free, pages.value, bytes - HEADER);
      forall x | x >= brk ensures Held(k, x) == 0 {
        HoldsMore(k, pages.value, x);
      }
      AddPages(pages.value);
      ok := true;
    }

    /** `heap_grow` */
    method GrowFor(asked: nat) returns (ok: bool)
      requires Valid() && asked > 0
      modifies this`free, this`chunks, this`brk
      ensures Valid()
      ensures ok ==> old(brk) < brk <= limit && Room(free, Round16(asked))
      ensures !ok ==> View() == old(View()) && brk == old(brk) && brk + PageAlignUp(Round16(asked) + HEADER) > limit
    {
      var needed := PageAlignUp(Round16(asked) + HEADER);
      RoundFacts(Round16(asked) + HEADER);
      RoundFacts(asked);
      if needed < GROW {
        ok := AddChunkOf(GROW);
        if ok {
          RoomForLess(free, GROW - HEADER, Round16(asked));
          return;
        }
      }
      ok := AddChunkOf(needed);
      if ok {
        RoomForLess(free, needed - HEADER, Round16(asked));
      }
    }

    static lemma RoomForLess(es: seq<Extent>, n: nat, m: nat)
      requires Room(es, n) && m <= n
      ensures Room(es, m)
    {
      var i :| 0 <= i < |es| && Size(es[i]) >= n;
      RoomAt(es, m, i);
    }

    /** `large_alloc` */
    method TakeLarge(asked: nat) returns (block: Option<Extent>)
      requires Valid() && asked > 0
      modifies this`large, this`brk
      ensures Valid()
      ensures block.Some? ==> LargeOk(Live(block.value, asked)) && large == old(large) + [Live(block.value, asked)]
      ensures block.None? ==> large == old(large) && brk == old(brk)
    {
      var bytes := PageAlignUp(Round16(asked) + HEADER);
      RoundFacts(Round16(asked) + HEADER);
      block := GetPages(bytes);
      if block.Some? {
        LargeOkMade(block.value.at, asked);
        ghost var k := Apply(View(), LargeAlloc(block.value.at, asked));
        ApplyKeeps(View(), LargeAlloc(block.value.at, asked));
        forall x | x >= brk ensures Held(k, x) == 0 {
          HoldsMore(k, block.value, x);
        }
        large := large + [Live(block.value, asked)];
      }
    }

    /** One turn of `bin_alloc`: from the CPU's list, else from the bin. */
    method TakeObject(c: nat, asked: nat) returns (found: Option<Extent>)
      requires Valid() && c < |caches| && FitsBin(c, asked)
      modifies this`bins, this`caches, this`counts, this`live
      ensures Valid() && |caches| == old(|caches|)
      ensures found.Some? ==> LiveOk(Live(found.value, asked)) && live == old(live) + [Live(found.value, asked)]
      ensures found.None? ==> View() == old(View())
    {
      if caches[c] != [] {
        ApplyKeeps(View(), CachePop(c, asked));
        var item := PopCache(c, asked);
        assert LiveOk(live[|live| - 1]);
        return Some(item);
      }
      if bins[c % BINS] == [] {
        return None;
      }
      ApplyKeeps(View(), Refill(c, asked));
      var item := RefillCache(c, asked);
      assert LiveOk(live[|live| - 1]);
      found := Some(item);
    }

    /** `bin_add_slab` */
    method AddSlabFor(bin: nat) returns (ok: bool)
      requires Valid() && bin < BINS
      modifies this`bins, this`slack, this`chunks, this`brk
      ensures Valid()
      ensures ok ==> old(brk) < brk <= limit
      ensures !ok ==> View() == old(View()) && brk == old(brk)
    {
      var pages := GetPages(SLAB);
      if pages.None? {
        return false;
      }
      ghost var k := Apply(View(), AddSlab(bin, pages.value.at));
      ApplyKeeps(View(), AddSlab(bin, pages.value.at));
      forall x | x >= brk ensures Held(k, x) == 0 {
        HoldsMore(k, pages.value, x);
      }
      AddSlabPages(bin, pages.value.at);
      ok := true;
    }

    /** `bin_alloc` */
    method TakeSmall(c: nat, asked: nat) returns (found: Option<Extent>)
      requires Valid() && c < |caches| && FitsBin(c, asked)
      modifies this`bins, this`caches, this`counts, this`live, this`slack, this`chunks, this`brk
      ensures Valid()
      ensures found.Some? ==> LiveOk(Live(found.value, asked)) && live == old(live) + [Live(found.value, asked)]
      ensures found.None? ==> live == old(live)
    {
      found := TakeObject(c, asked);
      while found.None?
        invariant Valid() && |caches| == old(|caches|)
        invariant found.Some? ==> LiveOk(Live(found.value, asked)) && live == old(live) + [Live(found.value, asked)]
        invariant found.None? ==> live == old(live)
        decreases if found.None? then 1 else 0, limit - brk
      {
        var ok := AddSlabFor(c % BINS);
        if !ok {
          return None;
        }
        found := TakeObject(c, asked);
      }
    }

    static lemma SlotBin(cpu: nat, bin: nat)
      requires bin < BINS
      ensures (cpu * BINS + bin) % BINS == bin && (cpu * BINS + bin) / BINS == cpu
    {}

    /** `malloc`: refuses zero and more than 2^40 bytes, and otherwise fails only when the
        pages it would need for this request are not to be had. */
    method Malloc(size: nat, cpu: nat) returns (block: Option<Extent>)
      requires Valid() && (cpu + 1) * BINS <= |caches|
      modifies this
      ensures Valid() && Answers(old(live), old(large), live, large, block, size)
      ensures size == 0 || size > MALLOC_MAX ==> block.None?
      ensures block.None? && 0 < size <= MALLOC_MAX ==> brk + PageAlignUp(Round16(size) + HEADER) > limit
    {
      if size == 0 || size > MALLOC_MAX {
        return None;
      }
      var aligned := Round16(size);
      RoundFacts(size);
      block := None;
      if aligned <= BIN_MAX {
        SlotBin(cpu, aligned / STEP - 1);
        block := TakeSmall(cpu * BINS + (aligned / STEP - 1), size);
      } else if aligned >= LARGE {
        block := TakeLarge(size);
      }
      while block.None?
        invariant Valid() && Answers(old(live), old(large), live, large, block, size)
        decreases if block.None? then 1 else 0, limit - brk
      {
        block := TakeChecked(size);
        if block.None? {
          var ok := GrowFor(size);
          if !ok {
            return None;
          }
        }
      }
    }

    method TakeChecked(asked: nat) returns (block: Option<Extent>)
      requires Valid() && asked > 0
      modifies this`free, this`live
      ensures Valid()
      ensures block.Some? <==> Room(old(free), Round16(asked))
      ensures block.Some? ==> LiveOk(Live(block.value, asked)) && live == old(live) + [Live(block.value, asked)]
      ensures block.None? ==> View() == old(View())
    {
      ApplyKeeps(View(), HeapTake(asked));
      RoundFacts(asked);
      TakeKeeps(free, Round16(asked));
      block := TakeBlock(asked);
      if block.Some? {
        assert LiveOk(live[|live| - 1]);
      }
    }

    static method Find(ls: seq<Live>, at: nat) returns (i: nat)
      ensures i <= |ls| && (i < |ls| ==> ls[i].ext.at == at)
      ensures forall j :: 0 <= j < i ==> ls[j].ext.at != at
    {
      i := 0;
      while i < |ls| && ls[i].ext.at != at
        invariant i <= |ls| && forall j :: 0 <= j < i ==> ls[j].ext.at != at
      {
        i := i + 1;
      }
    }

    /** `free` of a block in use that is not large */
    method ReleaseBlock(i: nat, cpu: nat) returns (ghost step: Action)
      requires Inv(View()) && i < |live| && (cpu + 1) * BINS <= |caches|
      modifies this`free, this`bins, this`caches, this`counts, this`live
      ensures FreesAt(old(View()), step, old(live)[i].ext.at, cpu)
      ensures Enabled(old(View()), step) && View() == Apply(old(View()), step)
    {
      var e := live[i].ext;
      assert LiveOk(live[i]);
      if Size(e) <= BIN_MAX {
        var c := cpu * BINS + BinOf(e);
        SlotBin(cpu, BinOf(e));
        step := FreeSmall(c, i);
        FreeToCache(c, i);
      } else {
        step := FreeBig(i);
        InsertFreeLocked(e);
        live := Dropped(live, i);
      }
    }

    /** `free` of the block whose header is at `at`: the one step its kind calls for, and
        nothing at all when no block in use starts there, as after a first `free`. */
    method Release(at: nat, cpu: nat) returns (ghost step: Option<Action>)
      requires Inv(View()) && (cpu + 1) * BINS <= |caches|
      modifies this`free, this`bins, this`caches, this`counts, this`live, this`large
      ensures step.None? ==> View() == old(View())
      ensures step.None? <==> forall l :: l in old(live) || l in old(large) ==> l.ext.at != at
      ensures step.Some? ==> Enabled(old(View()), step.value) && View() == Apply(old(View()), step.value)
      ensures step.Some? ==> FreesAt(old(View()), step.value, at, cpu)
    {
      var i := Find(large, at);
      if i < |large| {
        step := Some(FreeLarge(i));
        large := Dropped(large, i);
        return;
      }
      var j := Find(live, at);
      if j == |live| {
        return None;
      }
      ghost var act := ReleaseBlock(j, cpu);
      step := Some(act);
    }
  }
}
