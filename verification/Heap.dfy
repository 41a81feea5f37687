/** The kernel heap as a whole: free list, size bins, per-CPU caches, slabs and large
    blocks.  Each step is one section the code runs under the heap lock or with
    interrupts off; a run is any interleaving of them.
 */
module Heap {
  import opened Basics
  import Seqs
  import opened FreeList

  const BINS: nat := 64
  const BIN_MAX: nat := 1024
  const CACHE_MAX: nat := 32
  const CACHE_BATCH: nat := 16
  const SLAB: nat := 65536

  /** A block handed out, and the size that was asked for. */
  datatype Live = Live(ext: Extent, asked: nat)

  datatype State = State(
    free: seq<Extent>,
    bins: seq<seq<Extent>>,
    caches: seq<seq<Extent>>,   // one list per CPU and bin: list c is for bin c % BINS
    counts: seq<nat>,
    live: seq<Live>,
    large: seq<Live>,
    slack: seq<Extent>,         // what a slab leaves over
    chunks: seq<Extent>)        // pages obtained for the heap and never returned

  // ---- accounting ----

  function CoverLists(ls: seq<seq<Extent>>, x: nat): nat {
    if ls == [] then 0 else Cover(ls[0], x) + CoverLists(ls[1..], x)
  }

  function CoverLive(ls: seq<Live>, x: nat): nat {
    if ls == [] then 0 else Hits(ls[0].ext, x) + CoverLive(ls[1..], x)
  }

  lemma {:induction false} CoverListsUpdate(ls: seq<seq<Extent>>, i: nat, l: seq<Extent>, x: nat)
    requires i < |ls|
    ensures CoverLists(ls[i := l], x) + Cover(ls[i], x) == CoverLists(ls, x) + Cover(l, x)
    decreases |ls|
  {
    if i == 0 {
      assert ls[i := l][1..] == ls[1..];
    } else {
      assert ls[i := l][1..] == ls[1..][i - 1 := l];
      CoverListsUpdate(ls[1..], i - 1, l, x);
    }
  }

  lemma {:induction false} CoverLiveJoin(a: seq<Live>, b: seq<Live>, x: nat)
    ensures CoverLive(a + b, x) == CoverLive(a, x) + CoverLive(b, x)
    decreases |a|
  {
    if a == [] {
      Seqs.Nil(b);
    } else {
      Seqs.ConcatTail(a, b);
      CoverLiveJoin(a[1..], b, x);
    }
  }

  lemma CoverLiveAdd(ls: seq<Live>, l: Live, x: nat)
    ensures CoverLive(ls + [l], x) == CoverLive(ls, x) + Hits(l.ext, x)
  {
    CoverLiveJoin(ls, [l], x);
    assert [l][1..] == [];
  }

  function Dropped<T>(s: seq<T>, i: nat): seq<T>
    requires i < |s|
  {
    s[..i] + s[i + 1..]
  }

  lemma CoverLiveAt(ls: seq<Live>, i: nat, x: nat)
    requires i < |ls|
    ensures CoverLive(ls, x) == CoverLive(Dropped(ls, i), x) + Hits(ls[i].ext, x)
  {
    Seqs.Split(ls, i);
    CoverLiveJoin(ls[..i], ls[i..], x);
    assert ls[i..][1..] == ls[i + 1..];
    CoverLiveJoin(ls[..i], ls[i + 1..], x);
  }

  /** How often the heap's parts cover byte `x`. */
  function Pieces(h: State, x: nat): nat {
    Cover(h.free, x) + CoverLists(h.bins, x) + CoverLists(h.caches, x) + CoverLive(h.live, x) + Cover(h.slack, x)
  }

  /** How often the memory held covers byte `x`. */
  function Held(h: State, x: nat): nat {
    Cover(h.chunks, x) + CoverLive(h.large, x)
  }

  // ---- the invariant ----

  function ObjectLen(bin: nat): nat {
    (bin + 1) * STEP + HEADER
  }

  predicate InBin(bin: nat, l: seq<Extent>) {
    forall i :: 0 <= i < |l| ==> l[i].len == ObjectLen(bin) && l[i].at % STEP == 0
  }

  predicate BinsOk(bins: seq<seq<Extent>>) {
    |bins| == BINS && forall b :: 0 <= b < BINS ==> InBin(b, bins[b])
  }

  predicate CacheOk(c: nat, l: seq<Extent>, count: nat) {
    InBin(c % BINS, l) && count == |l| < CACHE_MAX
  }

  predicate CachesOk(caches: seq<seq<Extent>>, counts: seq<nat>) {
    |caches| == |counts| && forall c :: 0 <= c < |caches| ==> CacheOk(c, caches[c], counts[c])
  }

  predicate LiveOk(l: Live) {
    IsBlock(l.ext) && 0 < l.asked <= Size(l.ext)
  }

  predicate LargeOk(l: Live) {
    LiveOk(l) && l.ext.at % PAGE == 0 && l.ext.len % PAGE == 0
  }

  /** Every byte the heap holds is in exactly one part of it, and no byte is held twice. */
  ghost predicate Tally(h: State) {
    forall x :: Pieces(h, x) == Cover(h.chunks, x) && Held(h, x) <= 1
  }

  ghost predicate Shape(h: State) {
    && AllBlocks(h.free) && Apart(h.free) && BinsOk(h.bins) && CachesOk(h.caches, h.counts)
    && (forall i :: 0 <= i < |h.live| ==> LiveOk(h.live[i]))
    && (forall i :: 0 <= i < |h.large| ==> LargeOk(h.large[i]))
  }

  ghost predicate Inv(h: State) {
    Shape(h) && Tally(h)
  }

  // ---- steps ----

  function Round16(n: nat): nat {
    (n + 15) / 16 * 16
  }

  function PageAlignUp(n: nat): nat {
    (n + 4095) / 4096 * 4096
  }

  /** The objects cut from a slab, in list order. */
  function Objects(at: nat, stride: nat, n: nat): seq<Extent>
    decreases n
  {
    if n == 0 then [] else [Extent(at, stride)] + Objects(at + stride, stride, n - 1)
  }

  function BinOf(e: Extent): int {
    Size(e) / STEP - 1
  }

  /** Taking up to `CACHE_BATCH` objects from a bin. */
  function Batch(n: nat): nat {
    if n < CACHE_BATCH then n else CACHE_BATCH
  }

  datatype Action =
    | AddChunk(pages: Extent)           // heap_add_chunk
    | HeapTake(asked: nat)              // heap_take
    | LargeAlloc(at: nat, asked: nat)   // large_alloc
    | CachePop(c: nat, asked: nat)      // bin_alloc from the CPU's own list
    | Refill(c: nat, asked: nat)        // bin_alloc through bin_refill_locked
    | AddSlab(bin: nat, at: nat)        // bin_add_slab
    | FreeSmall(c: nat, i: nat)         // free into bin_free
    | FreeBig(i: nat)                   // free into insert_free_locked
    | FreeLarge(i: nat)                 // free of a large block

  /** Pages the page allocator may hand out: aligned and not held. */
  ghost predicate Fresh(h: State, pages: Extent) {
    && pages.at % PAGE == 0 && pages.len % PAGE == 0 && pages.len > 0
    && forall x :: Hits(pages, x) == 1 ==> Held(h, x) == 0
  }

  predicate FitsBin(c: nat, asked: nat) {
    asked > 0 && Round16(asked) == (c % BINS + 1) * STEP
  }

  ghost predicate Enabled(h: State, a: Action) {
    match a
    case AddChunk(pages) => Fresh(h, pages)
    case HeapTake(asked) => asked > 0
    case LargeAlloc(at, asked) => asked > 0 && Fresh(h, Extent(at, PageAlignUp(Round16(asked) + HEADER)))
    case CachePop(c, asked) => c < |h.caches| && h.caches[c] != [] && FitsBin(c, asked)
    case Refill(c, asked) =>
      c < |h.caches| && h.caches[c] == [] && |h.bins| == BINS && h.bins[c % BINS] != [] && FitsBin(c, asked)
    case AddSlab(bin, at) => bin < BINS && Fresh(h, Extent(at, SLAB))
    case FreeSmall(c, i) =>
      i < |h.live| && Size(h.live[i].ext) <= BIN_MAX && c < |h.caches| && c % BINS == BinOf(h.live[i].ext)
    case FreeBig(i) => i < |h.live| && Size(h.live[i].ext) > BIN_MAX
    case FreeLarge(i) => i < |h.large|
  }

  function Taken(h: State, asked: nat): State {
    match Take(h.free, Round16(asked))
    case None => h
    case Some(r) => h.(free := r.1, live := h.live + [Live(r.0, asked)])
  }

  function Popped(h: State, c: nat, asked: nat): State
    requires c < |h.caches| == |h.counts| && h.caches[c] != [] && h.counts[c] > 0
  {
    h.(caches := h.caches[c := h.caches[c][1..]], counts := h.counts[c := h.counts[c] - 1],
       live := h.live + [Live(h.caches[c][0], asked)])
  }

  function Refilled(h: State, c: nat, asked: nat): State
    requires c < |h.caches| == |h.counts| && |h.bins| == BINS && h.bins[c % BINS] != []
  {
    var b := c % BINS;
    var n := Batch(|h.bins[b]|);
    h.(bins := h.bins[b := h.bins[b][n..]], caches := h.caches[c := h.bins[b][1..n]],
       counts := h.counts[c := n - 1], live := h.live + [Live(h.bins[b][0], asked)])
  }

  function Slabbed(h: State, bin: nat, at: nat): State
    requires bin < |h.bins|
  {
    var stride := ObjectLen(bin);
    var n := SLAB / stride;
    h.(bins := h.bins[bin := Objects(at, stride, n) + h.bins[bin]],
       slack := h.slack + [Extent(at + n * stride, SLAB - n * stride)],
       chunks := h.chunks + [Extent(at, SLAB)])
  }

  /** `bin_free`: onto the CPU's list, and the newest half of a full list to the bin. */
  function Cached(h: State, c: nat, i: nat): State
    requires c < |h.caches| == |h.counts| && |h.bins| == BINS && i < |h.live|
  {
    var l := [h.live[i].ext] + h.caches[c];
    var k := h.(live := Dropped(h.live, i));
    if h.counts[c] + 1 >= CACHE_MAX && |l| >= CACHE_BATCH then
      k.(bins := h.bins[c % BINS := l[..CACHE_BATCH] + h.bins[c % BINS]],
         caches := h.caches[c := l[CACHE_BATCH..]],
         counts := h.counts[c := h.counts[c] + 1 - CACHE_BATCH])
    else k.(caches := h.caches[c := l], counts := h.counts[c := h.counts[c] + 1])
  }

  ghost function Apply(h: State, a: Action): State
    requires Inv(h) && Enabled(h, a)
  {
    match a
    case AddChunk(pages) => h.(free := InsertFree(h.free, pages), chunks := h.chunks + [pages])
    case HeapTake(asked) => Taken(h, asked)
    case LargeAlloc(at, asked) =>
      h.(large := h.large + [Live(Extent(at, PageAlignUp(Round16(asked) + HEADER)), asked)])
    case CachePop(c, asked) => assert CacheOk(c, h.caches[c], h.counts[c]); Popped(h, c, asked)
    case Refill(c, asked) => Refilled(h, c, asked)
    case AddSlab(bin, at) => Slabbed(h, bin, at)
    case FreeSmall(c, i) => Cached(h, c, i)
    case FreeBig(i) => h.(free := InsertFree(h.free, h.live[i].ext), live := Dropped(h.live, i))
    case FreeLarge(i) => h.(large := Dropped(h.large, i))
  }

  // ---- the free list ----

  lemma ClearByCover(es: seq<Extent>, e: Extent)
    requires Solid(es) && e.len > 0 && forall x :: Hits(e, x) == 1 ==> Cover(es, x) == 0
    ensures Clear(es, e)
  {
    forall i | 0 <= i < |es| ensures End(es[i]) <= e.at || End(e) <= es[i].at {
      var x := if es[i].at < e.at then e.at else es[i].at;
      CoverMember(es, i, x);
    }
  }

  lemma PageMultiple(n: nat)
    requires n % PAGE == 0
    ensures n % STEP == 0
  {
    var q := n / PAGE;
    assert n == 16 * (256 * q);
  }

  lemma PagesAreBlock(pages: Extent)
    requires pages.at % PAGE == 0 && pages.len % PAGE == 0 && pages.len > 0
    ensures IsBlock(pages)
  {
    PageMultiple(pages.at);
    PageMultiple(pages.len);
  }

  lemma ChunkClear(h: State, pages: Extent)
    requires Inv(h) && Fresh(h, pages)
    ensures Clear(h.free, pages) && Solid(h.free) && IsBlock(pages)
  {
    PagesAreBlock(pages);
    BlocksAreSolid(h.free);
    forall x | Hits(pages, x) == 1 ensures Cover(h.free, x) == 0 {
      assert Held(h, x) == 0;
      assert Pieces(h, x) == Cover(h.chunks, x);
    }
    ClearByCover(h.free, pages);
  }

  lemma ChunkKeeps(h: State, pages: Extent)
    requires Inv(h) && Fresh(h, pages)
    ensures Inv(Apply(h, AddChunk(pages)))
  {
    var k := Apply(h, AddChunk(pages));
    ChunkClear(h, pages);
    InsertOrder(h.free, pages);
    InsertBlocks(h.free, pages);
    forall x ensures Pieces(k, x) == Cover(k.chunks, x) && Held(k, x) <= 1 {
      InsertCover(h.free, pages, x);
      CoverJoin(h.chunks, [pages], x);
      CoverOne(pages, x);
      assert Pieces(h, x) == Cover(h.chunks, x);
    }
  }

  lemma RoundFacts(n: nat)
    ensures Round16(n) % STEP == 0 && n <= Round16(n) < n + STEP
    ensures PageAlignUp(n) % PAGE == 0 && n <= PageAlignUp(n) < n + PAGE
  {}

  lemma TakenKeeps(h: State, asked: nat)
    requires Inv(h) && asked > 0
    ensures Inv(Taken(h, asked))
  {
    var n, k := Round16(asked), Taken(h, asked);
    RoundFacts(asked);
    TakeKeeps(h.free, n);
    if Take(h.free, n).Some? {
      var (e, rest) := Take(h.free, n).value;
      forall x ensures Pieces(k, x) == Cover(k.chunks, x) && Held(k, x) <= 1 {
        TakeCover(h.free, n, x);
        CoverLiveAdd(h.live, Live(e, asked), x);
        assert Pieces(h, x) == Cover(h.chunks, x);
      }
    }
  }

  lemma FreeBigClear(h: State, i: nat)
    requires Inv(h) && i < |h.live|
    ensures Clear(h.free, h.live[i].ext) && Solid(h.free) && IsBlock(h.live[i].ext)
  {
    var e := h.live[i].ext;
    assert LiveOk(h.live[i]);
    BlocksAreSolid(h.free);
    forall x | Hits(e, x) == 1 ensures Cover(h.free, x) == 0 {
      CoverLiveAt(h.live, i, x);
      assert Pieces(h, x) == Cover(h.chunks, x) && Held(h, x) <= 1;
    }
    ClearByCover(h.free, e);
  }

  lemma FreeBigKeeps(h: State, i: nat)
    requires Inv(h) && Enabled(h, FreeBig(i))
    ensures Inv(Apply(h, FreeBig(i)))
  {
    var e, k := h.live[i].ext, Apply(h, FreeBig(i));
    FreeBigClear(h, i);
    InsertOrder(h.free, e);
    InsertBlocks(h.free, e);
    forall x ensures Pieces(k, x) == Cover(k.chunks, x) && Held(k, x) <= 1 {
      InsertCover(h.free, e, x);
      CoverLiveAt(h.live, i, x);
      assert Pieces(h, x) == Cover(h.chunks, x) && Held(h, x) <= 1;
    }
  }

  // ---- large blocks ----

  lemma LargeOkMade(at: nat, asked: nat)
    requires at % PAGE == 0 && asked > 0
    ensures LargeOk(Live(Extent(at, PageAlignUp(Round16(asked) + HEADER)), asked))
  {
    var n := Round16(asked) + HEADER;
    RoundFacts(asked);
    RoundFacts(n);
    PagesAreBlock(Extent(at, PageAlignUp(n)));
  }

  lemma LargeAllocKeeps(h: State, at: nat, asked: nat)
    requires Inv(h) && Enabled(h, LargeAlloc(at, asked))
    ensures Inv(Apply(h, LargeAlloc(at, asked)))
  {
    var l := Live(Extent(at, PageAlignUp(Round16(asked) + HEADER)), asked);
    var k := Apply(h, LargeAlloc(at, asked));
    LargeOkMade(at, asked);
    forall x ensures Pieces(k, x) == Cover(k.chunks, x) && Held(k, x) <= 1 {
      CoverLiveAdd(h.large, l, x);
      assert Pieces(h, x) == Cover(h.chunks, x) && Held(h, x) <= 1;
    }
  }

  lemma FreeLargeKeeps(h: State, i: nat)
    requires Inv(h) && i < |h.large|
    ensures Inv(Apply(h, FreeLarge(i)))
  {
    var k := Apply(h, FreeLarge(i));
    forall x ensures Pieces(k, x) == Cover(k.chunks, x) && Held(k, x) <= 1 {
      CoverLiveAt(h.large, i, x);
      assert Pieces(h, x) == Cover(h.chunks, x) && Held(h, x) <= 1;
    }
  }

  // ---- bins and caches ----

  lemma ObjectIsLive(c: nat, l: seq<Extent>, asked: nat)
    requires InBin(c % BINS, l) && l != [] && FitsBin(c, asked)
    ensures LiveOk(Live(l[0], asked))
  {
    RoundFacts(asked);
    assert l[0].len == (c % BINS + 2) * STEP;
  }

  lemma PoppedKeeps(h: State, c: nat, asked: nat)
    requires Inv(h) && Enabled(h, CachePop(c, asked))
    ensures Inv(Apply(h, CachePop(c, asked)))
  {
    assert CacheOk(c, h.caches[c], h.counts[c]);
    var k, l := Apply(h, CachePop(c, asked)), h.caches[c];
    ObjectIsLive(c, l, asked);
    assert InBin(c % BINS, l[1..]);
    forall d | 0 <= d < |k.caches| ensures CacheOk(d, k.caches[d], k.counts[d]) {
      assert CacheOk(d, h.caches[d], h.counts[d]);
    }
    forall x ensures Pieces(k, x) == Cover(k.chunks, x) && Held(k, x) <= 1 {
      CoverListsUpdate(h.caches, c, l[1..], x);
      CoverLiveAdd(h.live, Live(l[0], asked), x);
      assert Pieces(h, x) == Cover(h.chunks, x) && Held(h, x) <= 1;
    }
  }

  lemma BatchCover(l: seq<Extent>, n: nat, x: nat)
    requires 1 <= n <= |l|
    ensures Cover(l, x) == Hits(l[0], x) + Cover(l[1..n], x) + Cover(l[n..], x)
  {
    Seqs.Split(l, n);
    CoverJoin(l[..n], l[n..], x);
    assert l[..n][1..] == l[1..n];
  }

  lemma RefilledShape(h: State, c: nat, asked: nat)
    requires Shape(h) && Enabled(h, Refill(c, asked))
    ensures Shape(Refilled(h, c, asked))
  {
    var b, k := c % BINS, Refilled(h, c, asked);
    var l := h.bins[b];
    var n := Batch(|l|);
    assert InBin(b, l);
    ObjectIsLive(c, l, asked);
    assert InBin(b, l[n..]) && InBin(b, l[1..n]);
    forall d | 0 <= d < |k.caches| ensures CacheOk(d, k.caches[d], k.counts[d]) {
      assert CacheOk(d, h.caches[d], h.counts[d]);
    }
    forall d | 0 <= d < BINS ensures InBin(d, k.bins[d]) {
      assert InBin(d, h.bins[d]);
    }
  }

  lemma RefilledKeeps(h: State, c: nat, asked: nat)
    requires Inv(h) && Enabled(h, Refill(c, asked))
    ensures Inv(Apply(h, Refill(c, asked)))
  {
    var b, k := c % BINS, Refilled(h, c, asked);
    var l := h.bins[b];
    var n := Batch(|l|);
    RefilledShape(h, c, asked);
    forall x ensures Pieces(k, x) == Cover(k.chunks, x) && Held(k, x) <= 1 {
      BatchCover(l, n, x);
      CoverListsUpdate(h.bins, b, l[n..], x);
      CoverListsUpdate(h.caches, c, l[1..n], x);
      CoverLiveAdd(h.live, Live(l[0], asked), x);
      assert Pieces(h, x) == Cover(h.chunks, x) && Held(h, x) <= 1;
    }
  }

  lemma CachedShape(h: State, c: nat, i: nat)
    requires Shape(h) && Enabled(h, FreeSmall(c, i))
    ensures Shape(Cached(h, c, i))
  {
    var b, k, e := c % BINS, Cached(h, c, i), h.live[i].ext;
    var l := [e] + h.caches[c];
    assert CacheOk(c, h.caches[c], h.counts[c]) && InBin(b, h.bins[b]) && LiveOk(h.live[i]);
    assert e.len == ObjectLen(b) by {
      assert e.len == e.len / STEP * STEP;
    }
    assert InBin(b, l);
    forall d | 0 <= d < |k.caches| ensures CacheOk(d, k.caches[d], k.counts[d]) {
      assert CacheOk(d, h.caches[d], h.counts[d]);
    }
    forall d | 0 <= d < BINS ensures InBin(d, k.bins[d]) {
      assert InBin(d, h.bins[d]);
    }
  }

  lemma CachedKeeps(h: State, c: nat, i: nat)
    requires Inv(h) && Enabled(h, FreeSmall(c, i))
    ensures Inv(Apply(h, FreeSmall(c, i)))
  {
    var b, k, e := c % BINS, Cached(h, c, i), h.live[i].ext;
    var l := [e] + h.caches[c];
    CachedShape(h, c, i);
    assert CacheOk(c, h.caches[c], h.counts[c]);
    forall x ensures Pieces(k, x) == Cover(k.chunks, x) && Held(k, x) <= 1 {
      CoverLiveAt(h.live, i, x);
      assert l[1..] == h.caches[c];
      if |l| >= CACHE_MAX {
        Seqs.Split(l, CACHE_BATCH);
        CoverJoin(l[..CACHE_BATCH], l[CACHE_BATCH..], x);
        CoverJoin(l[..CACHE_BATCH], h.bins[b], x);
        CoverListsUpdate(h.bins, b, l[..CACHE_BATCH] + h.bins[b], x);
        CoverListsUpdate(h.caches, c, l[CACHE_BATCH..], x);
      } else {
        CoverListsUpdate(h.caches, c, l, x);
      }
      assert Pieces(h, x) == Cover(h.chunks, x) && Held(h, x) <= 1;
    }
  }

  // ---- slabs ----

  lemma {:induction false} ObjectsCover(at: nat, stride: nat, n: nat, x: nat)
    requires stride > 0
    ensures Cover(Objects(at, stride, n), x) == Hits(Extent(at, n * stride), x)
    decreases n
  {
    if n > 0 {
      ObjectsCover(at + stride, stride, n - 1, x);
      var rest := Objects(at + stride, stride, n - 1);
      assert Objects(at, stride, n)[1..] == rest;
      assert n * stride == stride + (n - 1) * stride;
    }
  }

  lemma {:induction false} ObjectsInBin(bin: nat, at: nat, n: nat)
    requires at % STEP == 0
    ensures InBin(bin, Objects(at, ObjectLen(bin), n))
    decreases n
  {
    if n > 0 {
      assert (at + ObjectLen(bin)) % STEP == 0;
      ObjectsInBin(bin, at + ObjectLen(bin), n - 1);
    }
  }

  lemma SlabCounts(stride: nat)
    requires stride > 0
    ensures SLAB / stride * stride <= SLAB
  {}

  lemma SlabShape(h: State, bin: nat, at: nat)
    requires Shape(h) && bin < BINS && at % PAGE == 0
    ensures Shape(Slabbed(h, bin, at))
  {
    var k := Slabbed(h, bin, at);
    SlabCounts(ObjectLen(bin));
    PageMultiple(at);
    ObjectsInBin(bin, at, SLAB / ObjectLen(bin));
    forall d | 0 <= d < BINS ensures InBin(d, k.bins[d]) {
      assert InBin(d, h.bins[d]);
    }
  }

  lemma SlabPieces(at: nat, stride: nat, x: nat)
    requires stride > 0
    ensures var n := SLAB / stride;
      n * stride <= SLAB
      && Cover(Objects(at, stride, n), x) + Hits(Extent(at + n * stride, SLAB - n * stride), x) ==
         Hits(Extent(at, SLAB), x)
  {
    SlabCounts(stride);
    ObjectsCover(at, stride, SLAB / stride, x);
  }

  lemma SlabTally(h: State, k: State, bin: nat, objects: seq<Extent>, rest: Extent, slab: Extent, x: nat)
    requires bin < |h.bins|
    requires k == h.(bins := h.bins[bin := objects + h.bins[bin]], slack := h.slack + [rest],
                     chunks := h.chunks + [slab])
    requires Cover(objects, x) + Hits(rest, x) == Hits(slab, x)
    ensures Pieces(k, x) == Pieces(h, x) + Hits(slab, x) && Held(k, x) == Held(h, x) + Hits(slab, x)
    ensures Cover(k.chunks, x) == Cover(h.chunks, x) + Hits(slab, x)
  {
    CoverJoin(objects, h.bins[bin], x);
    CoverListsUpdate(h.bins, bin, objects + h.bins[bin], x);
    CoverJoin(h.slack, [rest], x);
    CoverOne(rest, x);
    CoverJoin(h.chunks, [slab], x);
    CoverOne(slab, x);
  }

  lemma SlabKeeps(h: State, bin: nat, at: nat)
    requires Inv(h) && Enabled(h, AddSlab(bin, at))
    ensures Inv(Apply(h, AddSlab(bin, at)))
  {
    var k, stride := Slabbed(h, bin, at), ObjectLen(bin);
    var n, slab := SLAB / stride, Extent(at, SLAB);
    SlabCounts(stride);
    SlabShape(h, bin, at);
    forall x ensures Pieces(k, x) == Cover(k.chunks, x) && Held(k, x) <= 1 {
      SlabPieces(at, stride, x);
      SlabTally(h, k, bin, Objects(at, stride, n), Extent(at + n * stride, SLAB - n * stride), slab, x);
      assert Pieces(h, x) == Cover(h.chunks, x) && Held(h, x) <= 1;
    }
  }

  // ---- runs ----

  lemma ApplyKeeps(h: State, a: Action)
    requires Inv(h) && Enabled(h, a)
    ensures Inv(Apply(h, a))
  {
    match a
    case AddChunk(pages) => ChunkKeeps(h, pages);
    case HeapTake(asked) => TakenKeeps(h, asked);
    case LargeAlloc(at, asked) => LargeAllocKeeps(h, at, asked);
    case CachePop(c, asked) => PoppedKeeps(h, c, asked);
    case Refill(c, asked) => RefilledKeeps(h, c, asked);
    case AddSlab(bin, at) => SlabKeeps(h, bin, at);
    case FreeSmall(c, i) => CachedKeeps(h, c, i);
    case FreeBig(i) => FreeBigKeeps(h, i);
    case FreeLarge(i) => FreeLargeKeeps(h, i);
  }
}
