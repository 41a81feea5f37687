/** The life of an address space: built by sharing the kernel's tables, used, and
    freed table by table.
 */
module SpaceLife {
  import opened Basics
  import opened PageTables
  import opened AddressSpaces

  // ---- what a page means depends on its own tables only ----

  /** Every table a walk of `o` can meet stands in `w` as it was. */
  ghost predicate Spares(v: Vm, w: Memory, o: Owner) {
    forall t :: t in v.mem && t in v.tag && (v.tag[t].owner == o || v.tag[t].owner == Kernel) ==>
      t in w && w[t] == v.mem[t]
  }

  ghost predicate Met(v: Vm, o: Owner, t: nat, p: Path) {
    t in v.mem && t in v.tag && v.tag[t].path == p && (v.tag[t].owner == o || v.tag[t].owner == Kernel)
  }

  lemma SparedStep(v: Vm, w: Memory, o: Owner, t: nat, p: Path, i: nat)
    requires WellTagged(v) && i < ENTRIES && Spares(v, w, o) && Met(v, o, t, p)
    ensures At(w, t, i) == At(v.mem, t, i)
    ensures RefersToTable(p, At(v.mem, t, i)) ==> Met(v, o, Frame(At(v.mem, t, i)), Child(p, i))
  {
    assert EntryTagged(v, t, i);
  }

  lemma SparedMeaning3(v: Vm, w: Memory, o: Owner, t: nat, q: Page, user: bool, wr: bool)
    requires WellTagged(v) && IsPage(q) && Spares(v, w, o) && Met(v, o, t, L3(q.i4))
    ensures Meaning3(w, t, q, user, wr) == Meaning3(v.mem, t, q, user, wr)
  {
    SparedStep(v, w, o, t, L3(q.i4), q.i3);
    var e3 := At(v.mem, t, q.i3);
    if Bit(e3, PRESENT) {
      SparedStep(v, w, o, Frame(e3), L2(q.i4, q.i3), q.i2);
      var e2 := At(v.mem, Frame(e3), q.i2);
      if Bit(e2, PRESENT) && !Huge(e2) {
        SparedStep(v, w, o, Frame(e2), L1(q.i4, q.i3, q.i2), q.i1);
      }
    }
  }

  lemma SparedMeaning(v: Vm, w: Memory, o: Owner, q: Page)
    requires WellTagged(v) && o in v.roots && IsPage(q) && Spares(v, w, o)
    ensures Meaning(w, v.roots[o], q) == Meaning(v.mem, v.roots[o], q)
  {
    var t4 := v.roots[o];
    SparedStep(v, w, o, t4, Root, q.i4);
    var e4 := At(v.mem, t4, q.i4);
    if Bit(e4, PRESENT) {
      SparedMeaning3(v, w, o, Frame(e4), q, Bit(e4, USER), Bit(e4, WRITABLE));
    }
  }

  // ---- setup_kvm ----

  /** The kernel's low table. */
  function LowOf(v: Vm): nat
    requires Kernel in v.roots
  {
    Frame(At(v.mem, v.roots[Kernel], 0))
  }

  /** The kernel's root and low tables are there to be copied. */
  predicate KernelStands(v: Vm) {
    && Kernel in v.roots && v.roots[Kernel] in v.mem && |v.mem[v.roots[Kernel]]| == ENTRIES
    && LowOf(v) in v.mem && |v.mem[LowOf(v)]| == ENTRIES
  }

  /** A root and a low table copied from the kernel's, the root's first entry leading to
      the new low table. */
  function NewSpace(v: Vm, id: nat, r: bv64, l: bv64): Vm
    requires KernelStands(v)
  {
    Vm(v.mem[Frame(r) := v.mem[v.roots[Kernel]][0 := l | PRESENT | WRITABLE | USER]][Frame(l) := v.mem[LowOf(v)]],
       v.tag[Frame(r) := Tag(Space(id), Root)][Frame(l) := Tag(Space(id), L3(0))],
       v.roots[Space(id) := Frame(r)])
  }

  /** `setup_kvm`: both frames or neither. */
  function SetupKvm(m: Mmu, id: nat): (Mmu, Option<nat>)
    requires Sound(m)
  {
    KernelTables(m.v);
    if |m.supply| < 2 then (m, None)
    else (Mmu(NewSpace(m.v, id, m.supply[0], m.supply[1]), m.supply[2..]), Some(Frame(m.supply[0])))
  }

  lemma LowBits(l: bv64)
    requires l & ADDR == l
    ensures var e := l | PRESENT | WRITABLE | USER;
      Frame(e) == Frame(l) && Bit(e, PRESENT) && !Huge(e) && Bit(e, WRITABLE) && Bit(e, USER)
  {
    assert (l | PRESENT | WRITABLE | USER) & ADDR == l;
  }

  lemma KernelTables(v: Vm)
    requires Inv(v)
    ensures KernelStands(v)
    ensures LowOf(v) in v.mem && v.tag[LowOf(v)] == Tag(Kernel, L3(0)) && v.tag[v.roots[Kernel]] == Tag(Kernel, Root)
    ensures forall i :: 1 <= i < 256 ==> !Bit(At(v.mem, v.roots[Kernel], i), PRESENT)
    ensures forall i :: 1 <= i < ENTRIES ==> !Bit(At(v.mem, LowOf(v), i), PRESENT)
  {
    assert EntryTagged(v, v.roots[Kernel], 0);
    forall i | 1 <= i < 256 ensures !Bit(At(v.mem, v.roots[Kernel], i), PRESENT) {
      assert EntryTagged(v, v.roots[Kernel], i);
    }
    forall i | 1 <= i < ENTRIES ensures !Bit(At(v.mem, LowOf(v), i), PRESENT) {
      assert EntryTagged(v, LowOf(v), i);
    }
  }

  /** Two frames the allocator hands out for a new space. */
  predicate Pair(v: Vm, id: nat, r: bv64, l: bv64) {
    KernelStands(v) && Spare(v, r) && Spare(v, l) && Frame(r) != Frame(l) && Space(id) !in v.roots
  }

  lemma CopiedAt(mem: Memory, r: nat, root: Table, e: bv64, l: nat, low: Table, t: nat, i: nat)
    requires i < ENTRIES && |root| == ENTRIES && |low| == ENTRIES && r != l
    ensures At(mem[r := root[0 := e]][l := low], t, i) ==
      if t == l then low[i] else if t == r then (if i == 0 then e else root[i]) else At(mem, t, i)
  {}

  lemma NewSpaceAt(v: Vm, id: nat, r: bv64, l: bv64, t: nat, i: nat)
    requires Pair(v, id, r, l) && i < ENTRIES
    ensures var w := NewSpace(v, id, r, l);
      At(w.mem, t, i) ==
        if t == Frame(l) then At(v.mem, LowOf(v), i)
        else if t == Frame(r) then (if i == 0 then l | PRESENT | WRITABLE | USER else At(v.mem, v.roots[Kernel], i))
        else At(v.mem, t, i)
  {
    CopiedAt(v.mem, Frame(r), v.mem[v.roots[Kernel]], l | PRESENT | WRITABLE | USER, Frame(l), v.mem[LowOf(v)], t, i);
  }

  lemma NewSpaceEntry(v: Vm, id: nat, r: bv64, l: bv64, t: nat, i: nat)
    requires Inv(v) && Pair(v, id, r, l) && i < ENTRIES && (t == Frame(r) || t == Frame(l))
    ensures var w := NewSpace(v, id, r, l);
      t in w.mem && t in w.tag && |w.mem[t]| == ENTRIES && EntryTagged(w, t, i)
  {
    KernelTables(v);
    LowBits(l);
    assert EntryTagged(v, LowOf(v), i) && EntryTagged(v, v.roots[Kernel], i);
  }

  lemma NewSpaceOldEntry(v: Vm, id: nat, r: bv64, l: bv64, t: nat, i: nat)
    requires WellTagged(v) && Pair(v, id, r, l) && i < ENTRIES && t in v.mem
    ensures var w := NewSpace(v, id, r, l);
      t in w.mem && t in w.tag && |w.mem[t]| == ENTRIES && EntryTagged(w, t, i)
  {
    assert EntryTagged(v, t, i);
  }

  lemma NewSpaceTagged(v: Vm, id: nat, r: bv64, l: bv64)
    requires Inv(v) && Pair(v, id, r, l)
    ensures WellTagged(NewSpace(v, id, r, l))
  {
    var w := NewSpace(v, id, r, l);
    KernelTables(v);
    LowBits(l);
    assert w.mem.Keys == v.mem.Keys + {Frame(r), Frame(l)};
    assert forall t :: t in w.mem ==> |w.mem[t]| == ENTRIES;
    forall t, i | t in w.mem && 0 <= i < |w.mem[t]| ensures t in w.tag && EntryTagged(w, t, i) {
      if t == Frame(l) || t == Frame(r) {
        NewSpaceEntry(v, id, r, l, t, i);
      } else {
        NewSpaceOldEntry(v, id, r, l, t, i);
      }
    }
  }

  lemma NewSpaceGrows(v: Vm, id: nat, r: bv64, l: bv64)
    requires WellTagged(v) && Pair(v, id, r, l)
    ensures Grows(v, NewSpace(v, id, r, l))
  {}

  lemma NewSpaceSpares(v: Vm, id: nat, r: bv64, l: bv64, o: Owner)
    requires WellTagged(v) && Pair(v, id, r, l)
    ensures Spares(v, NewSpace(v, id, r, l).mem, o)
  {}

  lemma NewSpaceLinked(v: Vm, id: nat, r: bv64, l: bv64)
    requires WellTagged(v) && Linked(v) && Pair(v, id, r, l)
    ensures Linked(NewSpace(v, id, r, l))
  {
    var w := NewSpace(v, id, r, l);
    NewSpaceGrows(v, id, r, l);
    LowBits(l);
    forall t | t in w.tag && w.tag[t].owner.Space?
      ensures w.tag[t].owner in w.roots && Reach(w.mem, w.roots[w.tag[t].owner], w.tag[t].path) == Some(t)
    {
      if t == Frame(l) {
        NewSpaceAt(v, id, r, l, Frame(r), 0);
        assert Reach(w.mem, Frame(r), Root) == Some(Frame(r));
      } else if t != Frame(r) {
        ReachGrows(v, w, v.tag[t].owner, v.tag[t].path);
      }
    }
  }

  lemma NewSpaceShared(v: Vm, id: nat, r: bv64, l: bv64)
    requires Inv(v) && Pair(v, id, r, l)
    ensures Shared(NewSpace(v, id, r, l))
  {
    var w := NewSpace(v, id, r, l);
    NewSpaceGrows(v, id, r, l);
    KernelTables(v);
    NewSpaceAt(v, id, r, l, v.roots[Kernel], 0);
    forall t, i | t in w.tag && 0 <= i < ENTRIES ensures SharedEntry(w, t, i) {
      NewSpaceAt(v, id, r, l, t, i);
      if t == Frame(l) || t == Frame(r) {
        NewSpaceAt(v, id, r, l, KernelTwin(w, w.tag[t].path), i);
      } else if v.tag[t].owner.Space? && !v.tag[t].path.L1? && !UserPath(Child(v.tag[t].path, i)) {
        SharedGrows(v, w, t, i);
      }
    }
  }

  lemma NewSpaceOpen(v: Vm, id: nat, r: bv64, l: bv64)
    requires Inv(v) && Pair(v, id, r, l)
    ensures Open(NewSpace(v, id, r, l))
  {
    var w := NewSpace(v, id, r, l);
    KernelTables(v);
    LowBits(l);
    forall t, i | t in w.tag && 0 <= i < ENTRIES ensures OpenEntry(w, t, i) {
      NewSpaceAt(v, id, r, l, t, i);
      if t != Frame(l) && t != Frame(r) {
        assert OpenEntry(v, t, i);
      }
    }
  }

  lemma NewSpaceLow(v: Vm, id: nat, r: bv64, l: bv64)
    requires WellTagged(v) && LowOwned(v) && KernelLow(v) && Pair(v, id, r, l)
    ensures LowOwned(NewSpace(v, id, r, l)) && KernelLow(NewSpace(v, id, r, l))
  {
    var w := NewSpace(v, id, r, l);
    LowBits(l);
    NewSpaceAt(v, id, r, l, LowOf(v), 0);
    forall o | o in w.roots
      ensures var e := At(w.mem, w.roots[o], 0);
        Bit(e, PRESENT) && Frame(e) in w.tag && w.tag[Frame(e)].owner == o
    {
      NewSpaceAt(v, id, r, l, w.roots[o], 0);
    }
  }

  lemma NewSpaceKeeps(v: Vm, id: nat, r: bv64, l: bv64)
    requires Inv(v) && Pair(v, id, r, l)
    ensures Inv(NewSpace(v, id, r, l))
  {
    NewSpaceTagged(v, id, r, l);
    NewSpaceLinked(v, id, r, l);
    NewSpaceShared(v, id, r, l);
    NewSpaceOpen(v, id, r, l);
    NewSpaceLow(v, id, r, l);
  }

  lemma SetupKvmSupply(m: Mmu, id: nat)
    requires Valid(m) && |m.supply| >= 2 && Pair(m.v, id, m.supply[0], m.supply[1])
    requires WellTagged(NewSpace(m.v, id, m.supply[0], m.supply[1]))
    ensures Valid(Mmu(NewSpace(m.v, id, m.supply[0], m.supply[1]), m.supply[2..]))
  {
    var w, supply := NewSpace(m.v, id, m.supply[0], m.supply[1]), m.supply[2..];
    forall i | 0 <= i < |supply| ensures Spare(w, supply[i]) {
      assert Spare(m.v, m.supply[i + 2]);
    }
  }

  /** `setup_kvm` takes two frames or none, and changes no translation of any space
      that was there. */
  lemma SetupKvmKeeps(m: Mmu, id: nat)
    requires Sound(m) && Space(id) !in m.v.roots
    ensures var (n, root) := SetupKvm(m, id);
      && Sound(n)
      && (root.None? <==> |m.supply| < 2) && (root.None? ==> n == m)
      && (root.Some? ==> n.v.roots == m.v.roots[Space(id) := root.value])
  {
    KernelTables(m.v);
    if |m.supply| >= 2 {
      assert Spare(m.v, m.supply[0]) && Spare(m.v, m.supply[1]);
      NewSpaceKeeps(m.v, id, m.supply[0], m.supply[1]);
      SetupKvmSupply(m, id);
    }
  }

  lemma SetupKvmSpares(m: Mmu, id: nat, o: Owner, q: Page)
    requires Sound(m) && Space(id) !in m.v.roots && o in m.v.roots && IsPage(q)
    ensures var n := SetupKvm(m, id).0;
      o in n.v.roots && n.v.roots[o] == m.v.roots[o]
      && Meaning(n.v.mem, m.v.roots[o], q) == Meaning(m.v.mem, m.v.roots[o], q)
  {
    KernelTables(m.v);
    if |m.supply| >= 2 {
      assert Spare(m.v, m.supply[0]) && Spare(m.v, m.supply[1]);
      NewSpaceSpares(m.v, id, m.supply[0], m.supply[1], o);
      SparedMeaning(m.v, SetupKvm(m, id).0.v.mem, o, q);
    }
  }

  // ---- what a space shares with the kernel ----

  /** The space has the kernel's entry on the way to a page outside its own half. */
  predicate SeesKernel(v: Vm, o: Owner, q: Page)
    requires o in v.roots && IsPage(q)
  {
    var e4 := At(v.mem, v.roots[o], q.i4);
    Bit(e4, PRESENT) && (q.i4 == 0 ==> Bit(At(v.mem, Frame(e4), 0), PRESENT))
  }

  /** Outside its own half a space's page is the kernel's, rights included, exactly where
      the space holds the kernel's entry; elsewhere it is unmapped. */
  lemma KernelHalfAgrees(v: Vm, o: Owner, q: Page)
    requires Inv(v) && o in v.roots && o.Space? && IsPage(q) && !UserPage(q)
    ensures Meaning(v.mem, v.roots[o], q) ==
      if SeesKernel(v, o, q) then Meaning(v.mem, v.roots[Kernel], q) else Unmapped
  {
    var root := v.roots[o];
    if q.i4 == 0 {
      LowHalfAgrees(v, o, q);
    } else {
      assert SharedEntry(v, root, q.i4);
    }
  }

  lemma LowHalfAgrees(v: Vm, o: Owner, q: Page)
    requires Inv(v) && o in v.roots && o.Space? && IsPage(q) && q.i4 == 0 && q.i3 == 0
    ensures Meaning(v.mem, v.roots[o], q) ==
      if SeesKernel(v, o, q) then Meaning(v.mem, v.roots[Kernel], q) else Unmapped
  {
    var root := v.roots[o];
    var low := Frame(At(v.mem, root, 0));
    assert EntryTagged(v, root, 0) && OpenEntry(v, root, 0) && SharedEntry(v, low, 0);
  }

  /** A new space starts with its own half empty and the kernel's as the kernel has it. */
  lemma NewSpaceMeans(m: Mmu, id: nat, q: Page)
    requires Sound(m) && Space(id) !in m.v.roots && |m.supply| >= 2 && IsPage(q)
    ensures var n := SetupKvm(m, id).0;
      && Space(id) in n.v.roots && Kernel in n.v.roots
      && Meaning(n.v.mem, n.v.roots[Space(id)], q) ==
         if UserPage(q) then Unmapped else Meaning(n.v.mem, n.v.roots[Kernel], q)
  {
    var n := SetupKvm(m, id).0;
    var r, l := m.supply[0], m.supply[1];
    SetupKvmKeeps(m, id);
    KernelTables(m.v);
    LowBits(l);
    assert Spare(m.v, r) && Spare(m.v, l);
    NewSpaceAt(m.v, id, r, l, Frame(r), q.i4);
    NewSpaceAt(m.v, id, r, l, Frame(l), q.i3);
    NewSpaceAt(m.v, id, r, l, m.v.roots[Kernel], q.i4);
    if !UserPage(q) {
      KernelHalfAgrees(n.v, Space(id), q);
      if q.i4 != 0 && !Bit(At(m.v.mem, m.v.roots[Kernel], q.i4), PRESENT) {
        assert Meaning(n.v.mem, n.v.roots[Kernel], q) == Unmapped;
      }
    }
  }
}
