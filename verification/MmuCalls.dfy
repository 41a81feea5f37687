/** The page-table code itself: `map_page_in`, `setup_kvm` and `free_vm` as they write
    and walk tables, against the functions that say what they do.
 */
module MmuCalls {
  import opened Basics
  import opened PageTables
  import opened AddressSpaces
  import opened SpaceLife
  import opened SpaceFree
  import opened SpaceRuns

  class PageMap {
    var mem: Memory
    var supply: seq<bv64>
    ghost var tag: map<nat, Tag>
    ghost var roots: map<Owner, nat>

    constructor (m: Mmu)
      ensures View() == m
    {
      mem, supply, tag, roots := m.v.mem, m.supply, m.v.tag, m.v.roots;
    }

    ghost function View(): Mmu
      reads this
    {
      Mmu(Vm(mem, tag, roots), supply)
    }

    /** The filling loop of `split_two_mb_page` */
    static method Parts(entry: bv64) returns (pt: Table)
      ensures pt == SplitWords(entry, ENTRIES)
    {
      pt := Zeroes(ENTRIES);
      var i := 0;
      while i < ENTRIES
        invariant i <= ENTRIES && |pt| == ENTRIES && forall j :: 0 <= j < i ==> pt[j] == SplitWord(entry, j)
      {
        var word := SplitWord(entry, i);
        pt := pt[i := word];
        i := i + 1;
      }
      PartsAre(entry, pt);
    }

    static lemma PartsAre(entry: bv64, pt: Table)
      requires |pt| == ENTRIES && forall j :: 0 <= j < ENTRIES ==> pt[j] == SplitWord(entry, j)
      ensures pt == SplitWords(entry, ENTRIES)
    {}

    method HangTable(t: nat, i: nat, f: bv64, content: Table, flags: bv64)
      requires supply != [] && f == supply[0] && t in mem && t in tag && !tag[t].path.L1? && i < |mem[t]|
      modifies this
      ensures View() == HangNext(old(View()), t, i, content, flags)
    {
      supply := supply[1..];
      tag := tag[Frame(f) := Tag(tag[t].owner, Child(tag[t].path, i))];
      mem := SetEntry(mem, t, i, f | PRESENT | WRITABLE | (flags & USER))[Frame(f) := content];
    }

    /** `get_or_create_table` */
    method GetOrCreateTable(t: nat, i: nat, flags: bv64) returns (child: Option<nat>)
      requires t in mem && t in tag && !tag[t].path.L1? && i < |mem[t]|
      modifies this
      ensures (View(), child) == GetOrCreate(old(View()), t, i, flags)
    {
      var e := mem[t][i];
      if Bit(e, PRESENT) {
        return Some(Frame(e));
      }
      if supply == [] {
        return None;
      }
      var f := supply[0];
      HangTable(t, i, f, Zeroes(ENTRIES), flags);
      child := Some(Frame(f));
    }

    /** `get_or_create_pt` with `split_two_mb_page` */
    method GetOrCreatePageTable(t: nat, i: nat, flags: bv64) returns (child: Option<nat>)
      requires t in mem && t in tag && !tag[t].path.L1? && i < |mem[t]|
      modifies this
      ensures (View(), child) == GetOrCreatePt(old(View()), t, i, flags)
    {
      var e := mem[t][i];
      if Bit(e, PRESENT) && Huge(e) {
        if supply == [] {
          return None;
        }
        var f := supply[0];
        var pt := Parts(e);
        HangTable(t, i, f, pt, e);
        child := Some(Frame(f));
      } else {
        child := GetOrCreateTable(t, i, flags);
      }
    }

    /** One level of `map_page_in`, unless an earlier one ran out of frames. */
    method StepOn(at: Option<nat>, i: nat, flags: bv64, directory: bool) returns (next: Option<nat>)
      requires at.Some? ==> at.value in mem && i < |mem[at.value]|
      requires at.Some? ==> at.value in tag && !tag[at.value].path.L1? && directory == tag[at.value].path.L2?
      modifies this
      ensures Progress(View(), next) == Onward(Progress(old(View()), at), i, flags)
    {
      if at.None? {
        return None;
      }
      if directory {
        next := GetOrCreatePageTable(at.value, i, flags);
      } else {
        next := GetOrCreateTable(at.value, i, flags);
      }
    }

    method FindDirectory(ghost o: Owner, root: nat, q: Page, flags: bv64) returns (pd: Option<nat>)
      requires Sound(View()) && o in roots && roots[o] == root && OwnPage(o, q) && FlagsFit(o, flags)
      modifies this
      ensures Progress(View(), pd) == FindPd(old(View()), o, q, flags)
    {
      ghost var m := View();
      StartGets(m, o);
      OnwardGets(m, Progress(m, Some(root)), o, Root, q.i4, flags);
      var pdpt := StepOn(Some(root), q.i4, flags, false);
      pd := StepOn(pdpt, q.i3, flags, false);
    }

    /** `map_page_in` */
    method MapPage(ghost o: Owner, root: nat, q: Page, physical: bv64, flags: bv64) returns (ok: bool)
      requires Sound(View()) && o in roots && roots[o] == root && OwnPage(o, q) && FlagsFit(o, flags)
      modifies this
      ensures (View(), ok) == MapPageIn(old(View()), o, q, physical, flags)
    {
      ghost var m := View();
      FindPdKeeps(m, o, q, flags);
      var pd := FindDirectory(o, root, q, flags);
      var pt := StepOn(pd, q.i2, flags, true);
      FindPtKeeps(m, o, q, flags);
      ok := WritePage(pt, q.i1, physical | flags);
    }

    /** `map_page_in` from the address on */
    method MapAddress(ghost o: Owner, root: nat, va: nat, physical: bv64, flags: bv64) returns (ok: bool)
      requires Sound(View()) && o in roots && roots[o] == root && OwnPage(o, PageOf(va)) && FlagsFit(o, flags)
      modifies this
      ensures (View(), ok) == MapPageIn(old(View()), o, PageOf(va), physical, flags)
    {
      var i4, i3 := va / 0x80_0000_0000 % 512, va / 0x4000_0000 % 512;
      var i2, i1 := va / 0x20_0000 % 512, va / 0x1000 % 512;
      ok := MapPage(o, root, Page(i4, i3, i2, i1), physical, flags);
    }

    method WritePage(pt: Option<nat>, i: nat, e: bv64) returns (ok: bool)
      requires pt.Some? ==> pt.value in mem && i < |mem[pt.value]|
      modifies this
      ensures (View(), ok) == Finished(Progress(old(View()), pt), i, e)
    {
      if pt.None? {
        return false;
      }
      mem := SetEntry(mem, pt.value, i, e);
      ok := true;
    }

    /** The copying loops of `setup_kvm` */
    static method Copy(from: Table) returns (to: Table)
      requires |from| == ENTRIES
      ensures to == from
    {
      to := Zeroes(ENTRIES);
      var i := 0;
      while i < ENTRIES
        invariant i <= ENTRIES && |to| == ENTRIES && forall j :: 0 <= j < i ==> to[j] == from[j]
      {
        to := to[i := from[i]];
        i := i + 1;
      }
    }

    method Build(ghost id: nat, kernel: nat, r: bv64, l: bv64)
      requires KernelStands(View().v) && roots[Kernel] == kernel && Frame(r) != Frame(l)
      modifies this
      ensures View() == Mmu(NewSpace(old(View().v), id, r, l), old(supply))
    {
      var pml4 := Copy(mem[kernel]);
      var low := Copy(mem[Frame(mem[kernel][0])]);
      mem := mem[Frame(r) := pml4[0 := l | PRESENT | WRITABLE | USER]][Frame(l) := low];
      tag := tag[Frame(r) := Tag(Space(id), Root)][Frame(l) := Tag(Space(id), L3(0))];
      roots := roots[Space(id) := Frame(r)];
    }

    /** `setup_kvm` */
    method Setup(ghost id: nat, kernel: nat) returns (root: Option<nat>)
      requires Sound(View()) && Space(id) !in roots && roots[Kernel] == kernel
      modifies this
      ensures (View(), root) == SetupKvm(old(View()), id)
    {
      KernelTables(View().v);
      if |supply| < 2 {
        return None;
      }
      var r, l := supply[0], supply[1];
      supply := supply[2..];
      Build(id, kernel, r, l);
      root := Some(Frame(r));
    }
  }

  // ---- free_vm ----

  lemma ExpandOne(v: Vm, below: seq<nat>, c: nat)
    ensures Expand(v, below + [c]) == Expand(v, below) + FreedFor(v, c)
  {
    assert (below + [c])[..|below|] == below;
  }

  /** What is freed below a table, before the table itself. */
  ghost function Below(v: Vm, o: Owner, c: nat): seq<nat>
    requires Inv(v) && Owned(v, o, c)
  {
    if v.tag[c].path.L1? then UserFrames(v.mem, c, ENTRIES) else Expand(v, Tables(v, o, c, ENTRIES))
  }

  lemma ExpandBelow(v: Vm, o: Owner, c: nat)
    requires Inv(v) && Owned(v, o, c)
    ensures Expand(v, Tables(v, o, c, ENTRIES) + [c]) == Below(v, o, c) + [c]
  {
    ExpandOne(v, Tables(v, o, c, ENTRIES), c);
    if v.tag[c].path.L1? {
      assert Tables(v, o, c, ENTRIES) == [];
    }
  }

  /** `freed` is what the `i`-th entry of `t` adds. */
  ghost predicate Adds(v: Vm, o: Owner, t: nat, i: nat, freed: seq<nat>)
    requires Inv(v) && Owned(v, o, t) && i < ENTRIES
  {
    Expand(v, Tables(v, o, t, i + 1)) == Expand(v, Tables(v, o, t, i)) + freed
  }

  lemma InsideAdds(v: Vm, o: Owner, t: nat, i: nat)
    requires Inv(v) && Owned(v, o, t) && i < ENTRIES && !v.tag[t].path.L1? && Descends(v, t, i)
    requires Owned(v, o, Frame(At(v.mem, t, i)))
    ensures Adds(v, o, t, i, Below(v, o, Frame(At(v.mem, t, i))) + [Frame(At(v.mem, t, i))])
  {
    var c := Frame(At(v.mem, t, i));
    ExpandJoin(v, Tables(v, o, t, i), Tables(v, o, c, ENTRIES) + [c]);
    ExpandBelow(v, o, c);
  }

  lemma OutsideAdds(v: Vm, o: Owner, t: nat, i: nat)
    requires Inv(v) && Owned(v, o, t) && i < ENTRIES && !v.tag[t].path.L1? && !Descends(v, t, i)
    ensures Adds(v, o, t, i, [])
  {
    assert Tables(v, o, t, i + 1) == Tables(v, o, t, i);
  }

  lemma ChildIsOwned(v: Vm, o: Owner, t: nat, i: nat)
    requires Inv(v) && Owned(v, o, t) && i < ENTRIES && !v.tag[t].path.L1? && Descends(v, t, i)
    ensures var c := Frame(At(v.mem, t, i)); Owned(v, o, c) && v.tag[c].path == Child(v.tag[t].path, i)
  {
    DescendsIffOwned(v, o, t, i);
    assert EntryTagged(v, t, i);
  }

  /** `mmu_find_pte` */
  method FindPte(mem: Memory, root: nat, q: Page) returns (pt: Option<nat>)
    requires IsPage(q)
    ensures pt == FindTable(mem, root, q)
  {
    var turns := [q.i4, q.i3, q.i2];
    var table := root;
    var level := 0;
    while level < 3
      invariant level <= 3
      invariant FindTable(mem, root, q) ==
        if level == 0 then Follow(mem, Follow(mem, Follow(mem, Some(table), q.i4), q.i3), q.i2)
        else if level == 1 then Follow(mem, Follow(mem, Some(table), q.i3), q.i2)
        else if level == 2 then Follow(mem, Some(table), q.i2)
        else Some(table)
    {
      var e := At(mem, table, turns[level]);
      if !Bit(e, PRESENT) || Huge(e) {
        return None;
      }
      table := Frame(e);
      level := level + 1;
    }
    pt := Some(table);
  }

  /** The innermost loop: the user frames of a last-level table. */
  method FreePt(mem: Memory, t: nat) returns (freed: seq<nat>)
    ensures freed == UserFrames(mem, t, ENTRIES)
  {
    freed := [];
    var l := 0;
    while l < ENTRIES
      invariant l <= ENTRIES && freed == UserFrames(mem, t, l)
    {
      var e := At(mem, t, l);
      if Bit(e, USER) && Bit(e, ADDR) {
        freed := freed + [Frame(e)];
      }
      l := l + 1;
    }
  }

  method FreePdEntry(ghost v: Vm, ghost o: Owner, mem: Memory, t: nat, k: nat) returns (freed: seq<nat>)
    requires Inv(v) && v.mem == mem && Owned(v, o, t) && v.tag[t].path.L2? && k < ENTRIES
    ensures Adds(v, o, t, k, freed)
  {
    var e := At(mem, t, k);
    if !Bit(e, PRESENT) || Huge(e) {
      OutsideAdds(v, o, t, k);
      return [];
    }
    ChildIsOwned(v, o, t, k);
    InsideAdds(v, o, t, k);
    freed := FreePt(mem, Frame(e));
    freed := freed + [Frame(e)];
  }

  method FreePd(ghost v: Vm, ghost o: Owner, mem: Memory, t: nat) returns (freed: seq<nat>)
    requires Inv(v) && v.mem == mem && Owned(v, o, t) && v.tag[t].path.L2?
    ensures freed == Expand(v, Tables(v, o, t, ENTRIES))
  {
    freed := [];
    var k := 0;
    while k < ENTRIES
      invariant k <= ENTRIES && freed == Expand(v, Tables(v, o, t, k))
    {
      var more := FreePdEntry(v, o, mem, t, k);
      freed := freed + more;
      k := k + 1;
    }
  }

  method FreePdptEntry(ghost v: Vm, ghost o: Owner, mem: Memory, t: nat, low: bool, kernelLow: nat, j: nat)
    returns (freed: seq<nat>)
    requires Inv(v) && v.mem == mem && Owned(v, o, t) && v.tag[t].path.L3? && kernelLow == LowOf(v) && j < ENTRIES
    requires low == (v.tag[t].path == L3(0))
    ensures Adds(v, o, t, j, freed)
  {
    var e := At(mem, t, j);
    if !Bit(e, PRESENT) || (low && e == At(mem, kernelLow, j)) {
      OutsideAdds(v, o, t, j);
      return [];
    }
    ChildIsOwned(v, o, t, j);
    InsideAdds(v, o, t, j);
    freed := FreePd(v, o, mem, Frame(e));
    freed := freed + [Frame(e)];
  }

  method FreePdpt(ghost v: Vm, ghost o: Owner, mem: Memory, t: nat, low: bool, kernelLow: nat) returns (freed: seq<nat>)
    requires Inv(v) && v.mem == mem && Owned(v, o, t) && v.tag[t].path.L3? && kernelLow == LowOf(v)
    requires low == (v.tag[t].path == L3(0))
    ensures freed == Expand(v, Tables(v, o, t, ENTRIES))
  {
    freed := [];
    var j := 0;
    while j < ENTRIES
      invariant j <= ENTRIES && freed == Expand(v, Tables(v, o, t, j))
    {
      var more := FreePdptEntry(v, o, mem, t, low, kernelLow, j);
      freed := freed + more;
      j := j + 1;
    }
  }

  method FreeRootEntry(ghost v: Vm, ghost o: Owner, mem: Memory, root: nat, kernel: nat,
                       i: nat) returns (freed: seq<nat>)
    requires Inv(v) && v.mem == mem && Owned(v, o, root) && v.tag[root].path.Root? && kernel == v.roots[Kernel]
    requires i < ENTRIES
    ensures Adds(v, o, root, i, freed)
  {
    var e := At(mem, root, i);
    if !Bit(e, PRESENT) || e == At(mem, kernel, i) {
      OutsideAdds(v, o, root, i);
      return [];
    }
    ChildIsOwned(v, o, root, i);
    InsideAdds(v, o, root, i);
    freed := FreePdpt(v, o, mem, Frame(e), i == 0, Frame(At(mem, kernel, 0)));
    freed := freed + [Frame(e)];
  }

  /** `free_vm` */
  method Free(ghost v: Vm, ghost o: Owner, mem: Memory, root: nat, kernel: nat) returns (freed: seq<nat>)
    requires Inv(v) && v.mem == mem && o in v.roots && o.Space? && root == v.roots[o] && kernel == v.roots[Kernel]
    ensures freed == FreeVm(v, o)
  {
    freed := [];
    var i := 0;
    while i < ENTRIES
      invariant i <= ENTRIES && freed == Expand(v, Tables(v, o, root, i))
    {
      var more := FreeRootEntry(v, o, mem, root, kernel, i);
      freed := freed + more;
      i := i + 1;
    }
    ExpandOne(v, Tables(v, o, root, ENTRIES), root);
    freed := freed + [root];
  }
}
