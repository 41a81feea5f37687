/** What every run of the heap keeps: blocks handed out never overlap each other or
    anything the heap may hand out next, and a failed search that grows the heap finds
    room unless another search took it first.
 */
module HeapRuns {
  import opened Basics
  import opened FreeList
  import opened Heap

  /** Before the first chunk is added. */
  function Boot(cpus: nat): State {
    State([], seq(BINS, _ => []), seq(cpus * BINS, _ => []), seq(cpus * BINS, _ => 0), [], [], [], [])
  }

  lemma {:induction false} NoLists(ls: seq<seq<Extent>>, x: nat)
    requires forall i :: 0 <= i < |ls| ==> ls[i] == []
    ensures CoverLists(ls, x) == 0
    decreases |ls|
  {
    if ls != [] {
      NoLists(ls[1..], x);
    }
  }

  lemma BootInv(cpus: nat)
    ensures Inv(Boot(cpus))
  {
    var h := Boot(cpus);
    forall x ensures Pieces(h, x) == Cover(h.chunks, x) && Held(h, x) <= 1 {
      NoLists(h.bins, x);
      NoLists(h.caches, x);
    }
  }

  ghost predicate CanRun(h: State, acts: seq<Action>)
    requires Inv(h)
    decreases |acts|
  {
    acts == [] || (Enabled(h, acts[0]) && (ApplyKeeps(h, acts[0]); CanRun(Apply(h, acts[0]), acts[1..])))
  }

  ghost function After(h: State, acts: seq<Action>): State
    requires Inv(h) && CanRun(h, acts)
    decreases |acts|
  {
    if acts == [] then h
    else
      ApplyKeeps(h, acts[0]);
      After(Apply(h, acts[0]), acts[1..])
  }

  lemma {:induction false} RunKeeps(h: State, acts: seq<Action>)
    requires Inv(h) && CanRun(h, acts)
    ensures Inv(After(h, acts))
    decreases |acts|
  {
    if acts != [] {
      ApplyKeeps(h, acts[0]);
      RunKeeps(Apply(h, acts[0]), acts[1..]);
    }
  }

  // ---- blocks never overlap ----

  predicate Disjoint(a: Extent, b: Extent) {
    End(a) <= b.at || End(b) <= a.at
  }

  /** The later start of two extents: a common byte if there is one. */
  function Meet(a: Extent, b: Extent): nat {
    if a.at < b.at then b.at else a.at
  }

  lemma MeetFacts(a: Extent, b: Extent)
    requires a.len > 0 && b.len > 0 && Hits(a, Meet(a, b)) + Hits(b, Meet(a, b)) <= 1
    ensures Disjoint(a, b)
  {}

  lemma TwoLive(ls: seq<Live>, i: nat, j: nat, x: nat)
    requires i < j < |ls|
    ensures CoverLive(ls, x) >= Hits(ls[i].ext, x) + Hits(ls[j].ext, x)
  {
    CoverLiveAt(ls, j, x);
    CoverLiveAt(Dropped(ls, j), i, x);
  }

  lemma {:induction false} ListMember(ls: seq<seq<Extent>>, b: nat, i: nat, x: nat)
    requires b < |ls| && i < |ls[b]|
    ensures CoverLists(ls, x) >= Hits(ls[b][i], x)
    decreases |ls|
  {
    if b == 0 {
      CoverMember(ls[0], i, x);
    } else {
      ListMember(ls[1..], b - 1, i, x);
    }
  }

  /** Blocks in use: two of them never share a byte, header included. */
  lemma LiveApart(h: State, i: nat, j: nat)
    requires Inv(h) && i < j < |h.live|
    ensures Disjoint(h.live[i].ext, h.live[j].ext)
  {
    var a, b := h.live[i].ext, h.live[j].ext;
    assert LiveOk(h.live[i]) && LiveOk(h.live[j]);
    var x := Meet(a, b);
    TwoLive(h.live, i, j, x);
    assert Pieces(h, x) == Cover(h.chunks, x) && Held(h, x) <= 1;
    MeetFacts(a, b);
  }

  lemma LargeApart(h: State, i: nat, j: nat)
    requires Inv(h) && i < j < |h.large|
    ensures Disjoint(h.large[i].ext, h.large[j].ext)
  {
    var a, b := h.large[i].ext, h.large[j].ext;
    assert LargeOk(h.large[i]) && LargeOk(h.large[j]);
    var x := Meet(a, b);
    TwoLive(h.large, i, j, x);
    assert Pieces(h, x) == Cover(h.chunks, x) && Held(h, x) <= 1;
    MeetFacts(a, b);
  }

  /** A block in use shares no byte with a large block, a free block, or an object
      waiting in a bin or a cache. */
  lemma LiveAlone(h: State, i: nat, e: Extent)
    requires Inv(h) && i < |h.live| && e.len > 0
    requires
      || (exists j :: 0 <= j < |h.large| && h.large[j].ext == e)
      || (exists j :: 0 <= j < |h.free| && h.free[j] == e)
      || (exists b, j :: 0 <= b < |h.bins| && 0 <= j < |h.bins[b]| && h.bins[b][j] == e)
      || (exists c, j :: 0 <= c < |h.caches| && 0 <= j < |h.caches[c]| && h.caches[c][j] == e)
    ensures Disjoint(h.live[i].ext, e)
  {
    var a := h.live[i].ext;
    assert LiveOk(h.live[i]);
    var x := Meet(a, e);
    CoverLiveAt(h.live, i, x);
    assert Pieces(h, x) == Cover(h.chunks, x) && Held(h, x) <= 1;
    if j :| 0 <= j < |h.large| && h.large[j].ext == e {
      CoverLiveAt(h.large, j, x);
    } else if j :| 0 <= j < |h.free| && h.free[j] == e {
      CoverMember(h.free, j, x);
    } else if b, j :| 0 <= b < |h.bins| && 0 <= j < |h.bins[b]| && h.bins[b][j] == e {
      ListMember(h.bins, b, j, x);
    } else if c, j :| 0 <= c < |h.caches| && 0 <= j < |h.caches[c]| && h.caches[c][j] == e {
      ListMember(h.caches, c, j, x);
    }
    MeetFacts(a, e);
  }

  predicate Frees(h: State, a: Action, l: Live) {
    match a
    case FreeSmall(_, i) => i < |h.live| && h.live[i] == l
    case FreeBig(i) => i < |h.live| && h.live[i] == l
    case _ => false
  }

  lemma DropOther<T>(s: seq<T>, i: nat, t: T)
    requires i < |s| && t in s && s[i] != t
    ensures t in Dropped(s, i)
  {
    var j :| 0 <= j < |s| && s[j] == t;
    assert Dropped(s, i)[if j < i then j else j - 1] == t;
  }

  lemma ApplyUses(h: State, a: Action, l: Live)
    requires Inv(h) && Enabled(h, a) && l in h.live && !Frees(h, a, l)
    ensures l in Apply(h, a).live
  {
    match a
    case FreeSmall(_, i) => DropOther(h.live, i, l);
    case FreeBig(i) => DropOther(h.live, i, l);
    case _ =>
  }

  ghost predicate NeverFrees(h: State, acts: seq<Action>, l: Live)
    requires Inv(h) && CanRun(h, acts)
    decreases |acts|
  {
    acts != [] ==>
      && !Frees(h, acts[0], l)
      && (ApplyKeeps(h, acts[0]); NeverFrees(Apply(h, acts[0]), acts[1..], l))
  }

  /** A block stays handed out, where it was and as large as it was, until it is freed;
      so no run can hand any of its bytes to anyone else. */
  lemma {:induction false} BlockStays(h: State, acts: seq<Action>, l: Live)
    requires Inv(h) && CanRun(h, acts) && l in h.live && NeverFrees(h, acts, l)
    ensures l in After(h, acts).live
    ensures forall k :: k in After(h, acts).live && k != l ==> Disjoint(k.ext, l.ext)
    decreases |acts|
  {
    if acts == [] {
      forall k | k in h.live && k != l ensures Disjoint(k.ext, l.ext) {
        var i :| 0 <= i < |h.live| && h.live[i] == l;
        var j :| 0 <= j < |h.live| && h.live[j] == k;
        LiveApart(h, if i < j then i else j, if i < j then j else i);
      }
    } else {
      ApplyKeeps(h, acts[0]);
      ApplyUses(h, acts[0], l);
      BlockStays(Apply(h, acts[0]), acts[1..], l);
    }
  }

  // ---- the retry loop of malloc ----

  /** Whatever `heap_grow` adds has room for the request it was called for. */
  lemma GrowMakesRoom(h: State, asked: nat, pages: Extent)
    requires Inv(h) && asked > 0 && Fresh(h, pages) && pages.len >= PageAlignUp(Round16(asked) + HEADER)
    ensures Room(Apply(h, AddChunk(pages)).free, Round16(asked))
  {
    RoundFacts(Round16(asked) + HEADER);
    ChunkClear(h, pages);
    InsertKeepsRoom(h.free, pages, Round16(asked));
  }

  /** Only another search can take that room away. */
  lemma ApplyKeepsRoom(h: State, a: Action, n: nat)
    requires Inv(h) && Enabled(h, a) && !a.HeapTake? && Room(h.free, n)
    ensures Room(Apply(h, a).free, n)
  {
    match a
    case AddChunk(pages) =>
      ChunkClear(h, pages);
      InsertKeepsRoom(h.free, pages, n);
    case FreeBig(i) =>
      FreeBigClear(h, i);
      InsertKeepsRoom(h.free, h.live[i].ext, n);
    case _ =>
  }

  lemma {:induction false} RunKeepsRoom(h: State, acts: seq<Action>, n: nat)
    requires Inv(h) && CanRun(h, acts) && Room(h.free, n)
    requires forall i :: 0 <= i < |acts| ==> !acts[i].HeapTake?
    ensures Room(After(h, acts).free, n)
    decreases |acts|
  {
    if acts != [] {
      ApplyKeeps(h, acts[0]);
      ApplyKeepsRoom(h, acts[0], n);
      RunKeepsRoom(Apply(h, acts[0]), acts[1..], n);
    }
  }

  /** After the heap grew for a request, the next search succeeds whatever ran in
      between, unless another search did: so each extra turn of the retry loop is paid
      for by a block some other CPU was given. */
  lemma RetrySucceeds(h: State, asked: nat, pages: Extent, acts: seq<Action>)
    requires Inv(h) && asked > 0 && Fresh(h, pages) && pages.len >= PageAlignUp(Round16(asked) + HEADER)
    requires Inv(Apply(h, AddChunk(pages))) && CanRun(Apply(h, AddChunk(pages)), acts)
    requires forall i :: 0 <= i < |acts| ==> !acts[i].HeapTake?
    ensures Take(After(Apply(h, AddChunk(pages)), acts).free, Round16(asked)).Some?
  {
    var g := Apply(h, AddChunk(pages));
    GrowMakesRoom(h, asked, pages);
    RunKeepsRoom(g, acts, Round16(asked));
    RunKeeps(g, acts);
    RoundFacts(asked);
    TakeKeeps(After(g, acts).free, Round16(asked));
  }
}
