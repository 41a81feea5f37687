/** Whole runs of the memory map: spaces are built, mapped into, changed page by page and
    freed in any order, and the kernel maps pages of its own in between.
 */
module SpaceRuns {
  import opened Basics
  import opened PageTables
  import opened AddressSpaces
  import opened SpaceLife
  import opened SpaceFree

  // ---- after free_vm ----

  /** The tables once those of `o` have gone back to the allocator. */
  ghost function Without(v: Vm, o: Owner): Vm {
    Vm(map t | t in v.mem && !Owned(v, o, t) :: v.mem[t],
       map t | t in v.tag && !Owned(v, o, t) :: v.tag[t],
       v.roots - {o})
  }

  lemma WithoutSpares(v: Vm, o: Owner, o': Owner)
    requires WellTagged(v) && o.Space? && o' != o
    ensures Spares(v, Without(v, o).mem, o')
  {}

  lemma WithoutTagged(v: Vm, o: Owner)
    requires WellTagged(v) && o.Space?
    ensures WellTagged(Without(v, o))
  {
    var w := Without(v, o);
    forall t, i | t in w.mem && 0 <= i < |w.mem[t]| ensures t in w.tag && EntryTagged(w, t, i) {
      assert EntryTagged(v, t, i);
    }
  }

  lemma {:induction false} ReachSpared(v: Vm, w: Memory, o: Owner, p: Path)
    requires WellTagged(v) && o in v.roots && Spares(v, w, o) && Reach(v.mem, v.roots[o], p).Some?
    ensures Reach(w, v.roots[o], p) == Reach(v.mem, v.roots[o], p)
    decreases Depth(p)
  {
    if !p.Root? {
      ReachTagged(v, o, Up(p));
      ReachSpared(v, w, o, Up(p));
      SparedStep(v, w, o, Reach(v.mem, v.roots[o], Up(p)).value, Up(p), Last(p));
    }
  }

  lemma WithoutLinked(v: Vm, o: Owner)
    requires WellTagged(v) && Linked(v) && o.Space?
    ensures Linked(Without(v, o))
  {
    var w := Without(v, o);
    forall t | t in w.tag && w.tag[t].owner.Space?
      ensures w.tag[t].owner in w.roots && Reach(w.mem, w.roots[w.tag[t].owner], w.tag[t].path) == Some(t)
    {
      WithoutSpares(v, o, v.tag[t].owner);
      ReachSpared(v, w.mem, v.tag[t].owner, v.tag[t].path);
    }
  }

  lemma WithoutAt(v: Vm, o: Owner, t: nat, i: nat)
    requires WellTagged(v) && t in v.mem && !Owned(v, o, t) && i < ENTRIES
    ensures At(Without(v, o).mem, t, i) == At(v.mem, t, i)
  {}

  lemma WithoutShared(v: Vm, o: Owner)
    requires Inv(v) && o.Space?
    ensures Kernel in Without(v, o).roots && Shared(Without(v, o)) && Open(Without(v, o))
  {
    var w := Without(v, o);
    forall t, i | t in w.tag && 0 <= i < ENTRIES ensures SharedEntry(w, t, i) && OpenEntry(w, t, i) {
      assert SharedEntry(v, t, i) && OpenEntry(v, t, i);
      WithoutAt(v, o, t, i);
      if v.tag[t].owner.Space? && !v.tag[t].path.L1? && !UserPath(Child(v.tag[t].path, i)) {
        SharedPlaces(v, t, i);
        WithoutAt(v, o, v.roots[Kernel], 0);
        WithoutAt(v, o, KernelTwin(v, v.tag[t].path), i);
      }
    }
  }

  lemma WithoutLow(v: Vm, o: Owner)
    requires Inv(v) && o.Space?
    ensures LowOwned(Without(v, o)) && KernelLow(Without(v, o))
  {
    KernelTables(v);
    WithoutAt(v, o, LowOf(v), 0);
    WithoutAt(v, o, v.roots[Kernel], 0);
    var w := Without(v, o);
    forall k | k in w.roots
      ensures var e := At(w.mem, w.roots[k], 0);
        Bit(e, PRESENT) && Frame(e) in w.tag && w.tag[Frame(e)].owner == k
    {
      WithoutAt(v, o, v.roots[k], 0);
    }
  }

  lemma WithoutKeeps(v: Vm, o: Owner)
    requires Inv(v) && o.Space?
    ensures Inv(Without(v, o))
  {
    WithoutTagged(v, o);
    WithoutLinked(v, o);
    WithoutShared(v, o);
    WithoutLow(v, o);
  }

  // ---- actions ----

  datatype Action =
    | Map(o: Owner, q: Page, physical: bv64, flags: bv64)
    | Rewrite(o: Owner, q: Page, e: bv64)   // through mmu_find_pte: unmap, protect, copy on write
    | Setup(id: nat)
    | Free(id: nat)
    | Stock(frame: bv64)   // the allocator comes by a frame that no table uses

  ghost predicate Enabled(m: Mmu, a: Action) {
    match a
    case Map(o, q, _, flags) => o in m.v.roots && OwnPage(o, q) && FlagsFit(o, flags)
    case Rewrite(o, q, _) => o in m.v.roots && OwnPage(o, q)
    case Setup(id) => Space(id) !in m.v.roots
    case Free(id) => Space(id) in m.v.roots
    case Stock(f) => Spare(m.v, f) && forall i :: 0 <= i < |m.supply| ==> Frame(m.supply[i]) != Frame(f)
  }

  /** `mmu_find_pte`: the last-level table of a page, unless an entry on the way is absent or
      marked as a large page. */
  function FindTable(mem: Memory, root: nat, q: Page): Option<nat>
    requires IsPage(q)
  {
    Follow(mem, Follow(mem, Follow(mem, Some(root), q.i4), q.i3), q.i2)
  }

  function Follow(mem: Memory, t: Option<nat>, i: nat): Option<nat>
    requires i < ENTRIES
  {
    if t.None? then None
    else
      var e := At(mem, t.value, i);
      if Bit(e, PRESENT) && !Huge(e) then Some(Frame(e)) else None
  }

  /** What it finds is where the walk ends; on a space's own pages it finds whatever the walk
      does. */
  lemma FindIsWalk(v: Vm, o: Owner, q: Page)
    requires Inv(v) && o in v.roots && IsPage(q)
    ensures var t, k := FindTable(v.mem, v.roots[o], q), Walk(v.mem, v.roots[o], q);
      && (t.Some? ==> k.Some? && k.value.table == t.value)
      && (o.Space? && UserPage(q) ==> (t.Some? <==> k.Some?))
  {
    if o.Space? && UserPage(q) && Walk(v.mem, v.roots[o], q).Some? {
      NoLargeOnTheWay(v, o, q);
    }
  }

  lemma NoLargeOnTheWay(v: Vm, o: Owner, q: Page)
    requires Inv(v) && o in v.roots && o.Space? && UserPage(q) && Walk(v.mem, v.roots[o], q).Some?
    ensures var e4 := At(v.mem, v.roots[o], q.i4); !Huge(e4) && !Huge(At(v.mem, Frame(e4), q.i3))
  {
    var t4 := v.roots[o];
    assert EntryTagged(v, t4, q.i4) && OpenEntry(v, t4, q.i4);
    var t3 := Frame(v.mem[t4][q.i4]);
    assert OwnPath(v.tag[t3].owner, v.tag[t3].path);
    assert OpenEntry(v, t3, q.i3);
  }

  /** The entry it finds, if there is one, written over. */
  function Rewritten(m: Mmu, o: Owner, q: Page, e: bv64): Mmu
    requires Sound(m) && o in m.v.roots && OwnPage(o, q)
  {
    var t := FindTable(m.v.mem, m.v.roots[o], q);
    if t.None? then m
    else
      FindIsWalk(m.v, o, q);
      WalkTagged(m.v, o, q);
      WriteLeaf(m, t.value, q.i1, e)
  }

  /** On an owner's own pages the walk ends in the owner's own table. */
  lemma WalkOwn(v: Vm, o: Owner, q: Page)
    requires Inv(v) && o in v.roots && OwnPage(o, q) && Walk(v.mem, v.roots[o], q).Some?
    ensures var t := Walk(v.mem, v.roots[o], q).value.table;
      t in v.mem && t in v.tag && v.tag[t] == Tag(o, L1(q.i4, q.i3, q.i2))
  {
    WalkTagged(v, o, q);
    var t := Walk(v.mem, v.roots[o], q).value.table;
    assert OwnPath(v.tag[t].owner, v.tag[t].path);
  }

  /** Rewriting keeps the ownership of tables; the page then means the word written, under
      the rights of its path, or was not there to be written. */
  lemma RewriteKeeps(m: Mmu, o: Owner, q: Page, e: bv64)
    requires Sound(m) && o in m.v.roots && OwnPage(o, q)
    ensures var n, k := Rewritten(m, o, q, e), Walk(m.v.mem, m.v.roots[o], q);
      && Sound(n) && n.v.roots == m.v.roots
      && (if FindTable(m.v.mem, m.v.roots[o], q).None? then n == m
          else k.Some? && Meaning(n.v.mem, m.v.roots[o], q) == Small(e, k.value.user, k.value.writable))
  {
    FindIsWalk(m.v, o, q);
    if FindTable(m.v.mem, m.v.roots[o], q).Some? {
      WalkOwn(m.v, o, q);
      var t := Walk(m.v.mem, m.v.roots[o], q).value.table;
      LeafWriteSound(m, t, q.i1, e);
      LeafWriteMeaning(m.v, t, q.i1, e, o, q);
    }
  }

  /** It shows on no other page, and made in a space in no other space. */
  lemma RewriteElsewhere(m: Mmu, o: Owner, q: Page, e: bv64, o': Owner, q': Page)
    requires Sound(m) && o in m.v.roots && OwnPage(o, q)
    requires o' in m.v.roots && IsPage(q') && (q' != q || (o.Space? && o' != o))
    ensures Meaning(Rewritten(m, o, q, e).v.mem, m.v.roots[o'], q') == Meaning(m.v.mem, m.v.roots[o'], q')
  {
    FindIsWalk(m.v, o, q);
    if FindTable(m.v.mem, m.v.roots[o], q).Some? {
      WalkOwn(m.v, o, q);
      LeafWriteShows(m.v, o, Walk(m.v.mem, m.v.roots[o], q).value.table, e, q, o', q');
    }
  }

  ghost function Apply(m: Mmu, a: Action): Mmu
    requires Sound(m) && Enabled(m, a)
  {
    match a
    case Map(o, q, physical, flags) => MapPageIn(m, o, q, physical, flags).0
    case Rewrite(o, q, e) => Rewritten(m, o, q, e)
    case Setup(id) => SetupKvm(m, id).0
    case Free(id) => m.(v := Without(m.v, Space(id)))
    case Stock(f) => m.(supply := m.supply + [f])
  }

  lemma FreeSound(m: Mmu, id: nat)
    requires Sound(m) && Space(id) in m.v.roots
    ensures Sound(m.(v := Without(m.v, Space(id))))
  {
    var n := m.(v := Without(m.v, Space(id)));
    WithoutKeeps(m.v, Space(id));
    forall i | 0 <= i < |n.supply| ensures Spare(n.v, n.supply[i]) {
      assert Spare(m.v, m.supply[i]);
    }
  }

  lemma ApplyKeeps(m: Mmu, a: Action)
    requires Sound(m) && Enabled(m, a)
    ensures Sound(Apply(m, a))
  {
    match a
    case Map(o, q, physical, flags) => MapPageInKeeps(m, o, q, physical, flags);
    case Rewrite(o, q, e) => RewriteKeeps(m, o, q, e);
    case Setup(id) => SetupKvmKeeps(m, id);
    case Free(id) => FreeSound(m, id);
    case Stock(f) =>
  }

  /** Which actions work on a space. */
  predicate Touches(a: Action, id: nat) {
    match a
    case Map(o, _, _, _) => o == Space(id)
    case Rewrite(o, _, _) => o == Space(id)
    case Setup(i) => i == id
    case Free(i) => i == id
    case Stock(_) => false
  }

  /** Whatever is done elsewhere, a space's own pages mean what they meant. */
  lemma ApplySpares(m: Mmu, a: Action, id: nat, q: Page)
    requires Sound(m) && Enabled(m, a) && Space(id) in m.v.roots && !Touches(a, id) && UserPage(q)
    ensures var n := Apply(m, a);
      && Space(id) in n.v.roots && n.v.roots[Space(id)] == m.v.roots[Space(id)]
      && Meaning(n.v.mem, m.v.roots[Space(id)], q) == Meaning(m.v.mem, m.v.roots[Space(id)], q)
  {
    match a
    case Map(o, q', physical, flags) =>
      MapPageInKeeps(m, o, q', physical, flags);
      MapPageInElsewhere(m, o, q', physical, flags, Space(id), q);
    case Rewrite(o, q', e) =>
      RewriteKeeps(m, o, q', e);
      RewriteElsewhere(m, o, q', e, Space(id), q);
    case Setup(i) => SetupKvmSpares(m, i, Space(id), q);
    case Free(i) =>
      WithoutSpares(m.v, Space(i), Space(id));
      SparedMeaning(m.v, Without(m.v, Space(i)).mem, Space(id), q);
    case Stock(_) =>
  }

  // ---- runs ----

  ghost predicate CanRun(m: Mmu, acts: seq<Action>)
    requires Sound(m)
    decreases |acts|
  {
    acts == [] || (Enabled(m, acts[0]) && (ApplyKeeps(m, acts[0]); CanRun(Apply(m, acts[0]), acts[1..])))
  }

  ghost function After(m: Mmu, acts: seq<Action>): Mmu
    requires Sound(m) && CanRun(m, acts)
    decreases |acts|
  {
    if acts == [] then m
    else
      ApplyKeeps(m, acts[0]);
      After(Apply(m, acts[0]), acts[1..])
  }

  /** The ownership of tables holds in every state of every run. */
  lemma {:induction false} EveryRunIsSound(m: Mmu, acts: seq<Action>)
    requires Sound(m) && CanRun(m, acts)
    ensures Sound(After(m, acts))
    decreases |acts|
  {
    if acts != [] {
      ApplyKeeps(m, acts[0]);
      EveryRunIsSound(Apply(m, acts[0]), acts[1..]);
    }
  }

  /** Isolation: no run that leaves a space alone changes what any of its pages means,
      however many spaces come, map, change and go and whatever the kernel maps. */
  lemma {:induction false} SpacesAreIsolated(m: Mmu, acts: seq<Action>, id: nat, q: Page)
    requires Sound(m) && CanRun(m, acts) && Space(id) in m.v.roots && UserPage(q)
    requires forall i :: 0 <= i < |acts| ==> !Touches(acts[i], id)
    ensures var n := After(m, acts);
      && Space(id) in n.v.roots && n.v.roots[Space(id)] == m.v.roots[Space(id)]
      && Meaning(n.v.mem, n.v.roots[Space(id)], q) == Meaning(m.v.mem, m.v.roots[Space(id)], q)
    decreases |acts|
  {
    if acts != [] {
      ApplyKeeps(m, acts[0]);
      ApplySpares(m, acts[0], id, q);
      SpacesAreIsolated(Apply(m, acts[0]), acts[1..], id, q);
    }
  }
}
