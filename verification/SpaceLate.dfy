/** What a space misses: the kernel's mappings under a top-level entry the kernel did not
    have when the space was made.
 */
module SpaceLate {
  import opened Basics
  import opened PageTables
  import opened AddressSpaces
  import opened SpaceLife

  /** Table `u` holds what it held and is whose it was. */
  predicate SameTable(v: Vm, w: Vm, u: nat) {
    u in v.mem && u in w.mem && u in v.tag && u in w.tag && w.mem[u] == v.mem[u] && w.tag[u] == v.tag[u]
  }

  lemma HangForeign(m: Mmu, t: nat, i: nat, content: Table, flags: bv64, u: nat)
    requires m.supply != [] && t in m.v.mem && t in m.v.tag && !m.v.tag[t].path.L1? && i < |m.v.mem[t]|
    requires Spare(m.v, m.supply[0]) && u in m.v.mem && u in m.v.tag && u != t
    ensures SameTable(m.v, HangNext(m, t, i, content, flags).v, u)
  {}

  /** A step down writes the table it stands at and a new one. */
  lemma StepForeign(m: Mmu, t: nat, i: nat, flags: bv64, u: nat)
    requires t in m.v.mem && t in m.v.tag && !m.v.tag[t].path.L1? && i < |m.v.mem[t]|
    requires m.supply != [] ==> Spare(m.v, m.supply[0])
    requires u in m.v.mem && u in m.v.tag && u != t
    ensures SameTable(m.v, StepDown(m, t, i, flags).0.v, u)
  {
    if m.supply != [] {
      HangForeign(m, t, i, Zeroes(ENTRIES), flags, u);
      HangForeign(m, t, i, SplitWords(m.v.mem[t][i], ENTRIES), m.v.mem[t][i], u);
    }
  }

  lemma OnwardForeign(m: Mmu, r: Progress, o: Owner, p: Path, i: nat, flags: bv64, u: nat)
    requires Sound(m) && Got(m, r, o, p) && !p.L1? && i < ENTRIES
    requires SameTable(m.v, r.m.v, u) && m.v.tag[u].owner != o
    ensures SameTable(m.v, Onward(r, i, flags).m.v, u)
  {
    if r.at.Some? {
      StepForeign(r.m, r.at.value, i, flags, u);
    }
  }

  /** Mapping a page writes no table of any other owner. */
  lemma MapForeign(m: Mmu, o: Owner, q: Page, physical: bv64, flags: bv64, u: nat)
    requires Sound(m) && o in m.v.roots && OwnPage(o, q) && FlagsFit(o, flags)
    requires u in m.v.mem && u in m.v.tag && m.v.tag[u].owner != o
    ensures SameTable(m.v, MapPageIn(m, o, q, physical, flags).0.v, u)
  {
    FindForeign(m, o, q, flags, u);
    FindPtKeeps(m, o, q, flags);
    FinishForeign(m, FindPt(m, o, q, flags), o, q, physical | flags, u);
  }

  lemma FinishForeign(m: Mmu, r: Progress, o: Owner, q: Page, e: bv64, u: nat)
    requires r.at.Some? ==> r.at.value in r.m.v.mem && q.i1 < |r.m.v.mem[r.at.value]|
    requires r.at.Some? ==> r.at.value in r.m.v.tag && r.m.v.tag[r.at.value].owner == o
    requires SameTable(m.v, r.m.v, u) && m.v.tag[u].owner != o
    ensures SameTable(m.v, Finished(r, q.i1, e).0.v, u)
  {}

  lemma FindForeign(m: Mmu, o: Owner, q: Page, flags: bv64, u: nat)
    requires Sound(m) && o in m.v.roots && OwnPage(o, q) && FlagsFit(o, flags)
    requires u in m.v.mem && u in m.v.tag && m.v.tag[u].owner != o
    ensures SameTable(m.v, FindPt(m, o, q, flags).m.v, u)
  {
    FindPdForeign(m, o, q, flags, u);
    FindPdKeeps(m, o, q, flags);
    OnwardForeign(m, FindPd(m, o, q, flags), o, L2(q.i4, q.i3), q.i2, flags, u);
  }

  lemma FindPdForeign(m: Mmu, o: Owner, q: Page, flags: bv64, u: nat)
    requires Sound(m) && o in m.v.roots && OwnPage(o, q) && FlagsFit(o, flags)
    requires u in m.v.mem && u in m.v.tag && m.v.tag[u].owner != o
    ensures SameTable(m.v, FindPd(m, o, q, flags).m.v, u)
  {
    var r4 := Progress(m, Some(m.v.roots[o]));
    StartGets(m, o);
    OnwardForeign(m, r4, o, Root, q.i4, flags, u);
    OnwardGets(m, r4, o, Root, q.i4, flags);
    OnwardForeign(m, Onward(r4, q.i4, flags), o, L3(q.i4), q.i3, flags, u);
  }

  // ---- frames ----

  lemma StepSupply(m: Mmu, t: nat, i: nat, flags: bv64)
    requires t in m.v.mem && t in m.v.tag && !m.v.tag[t].path.L1? && i < |m.v.mem[t]|
    ensures |StepDown(m, t, i, flags).0.supply| + 1 >= |m.supply|
  {}

  lemma OnwardSupply(m: Mmu, r: Progress, o: Owner, p: Path, i: nat, flags: bv64)
    requires Sound(m) && Got(m, r, o, p) && !p.L1? && i < ENTRIES
    ensures |Onward(r, i, flags).m.supply| + 1 >= |r.m.supply|
  {
    if r.at.Some? {
      StepSupply(r.m, r.at.value, i, flags);
    }
  }

  lemma FindPdSupply(m: Mmu, o: Owner, q: Page, flags: bv64)
    requires Sound(m) && o in m.v.roots && OwnPage(o, q) && FlagsFit(o, flags)
    ensures |FindPd(m, o, q, flags).m.supply| + 2 >= |m.supply|
  {
    var r4 := Progress(m, Some(m.v.roots[o]));
    StartGets(m, o);
    OnwardSupply(m, r4, o, Root, q.i4, flags);
    OnwardGets(m, r4, o, Root, q.i4, flags);
    OnwardSupply(m, Onward(r4, q.i4, flags), o, L3(q.i4), q.i3, flags);
  }

  /** Mapping a page takes three frames at most, so with a fourth it succeeds. */
  lemma FourFramesDo(m: Mmu, o: Owner, q: Page, physical: bv64, flags: bv64)
    requires Sound(m) && o in m.v.roots && OwnPage(o, q) && FlagsFit(o, flags) && |m.supply| >= 4
    ensures MapPageIn(m, o, q, physical, flags).1
  {
    FindPdSupply(m, o, q, flags);
    FindPdKeeps(m, o, q, flags);
    OnwardSupply(m, FindPd(m, o, q, flags), o, L2(q.i4, q.i3), q.i2, flags);
    FindPtKeeps(m, o, q, flags);
  }

  lemma AbsentToo(v: Vm, o: Owner, i: nat)
    requires Inv(v) && o in v.roots && o.Space? && 256 <= i < ENTRIES
    requires !Bit(At(v.mem, v.roots[Kernel], i), PRESENT)
    ensures !Bit(At(v.mem, v.roots[o], i), PRESENT)
  {
    assert SharedEntry(v, v.roots[o], i);
  }

  /** A kernel page mapped under a top-level entry the kernel did not have is mapped for the
      kernel, and stays unmapped in every space there was. */
  lemma LateMappingIsMissed(m: Mmu, o: Owner, q: Page, physical: bv64, flags: bv64)
    requires Sound(m) && o in m.v.roots && o.Space? && IsPage(q) && q.i4 >= 256
    requires !Bit(At(m.v.mem, m.v.roots[Kernel], q.i4), PRESENT) && Bit(physical | flags, PRESENT)
    ensures var (n, ok) := MapPageIn(m, Kernel, q, physical, flags);
      && (|m.supply| >= 4 ==> ok)
      && (ok ==> Meaning(n.v.mem, m.v.roots[Kernel], q) != Unmapped && Meaning(n.v.mem, m.v.roots[o], q) == Unmapped)
  {
    if |m.supply| >= 4 {
      FourFramesDo(m, Kernel, q, physical, flags);
    }
    var (n, ok) := MapPageIn(m, Kernel, q, physical, flags);
    MapPageInKeeps(m, Kernel, q, physical, flags);
    AbsentToo(m.v, o, q.i4);
    MapForeign(m, Kernel, q, physical, flags, m.v.roots[o]);
  }

  /** A space is built, then the kernel maps a page: mapped for the kernel, and not there in
      the space. */
  ghost predicate BuiltThenMissed(m: Mmu, id: nat, q: Page, physical: bv64, flags: bv64)
    requires Sound(m) && Space(id) !in m.v.roots && |m.supply| >= 2 && IsPage(q) && q.i4 >= 256
  {
    SetupKvmKeeps(m, id);
    var n := SetupKvm(m, id).0;
    var (k, ok) := MapPageIn(n, Kernel, q, physical, flags);
    && ok && Meaning(k.v.mem, n.v.roots[Kernel], q) != Unmapped
    && Meaning(k.v.mem, n.v.roots[Space(id)], q) == Unmapped
  }

  lemma StillAbsent(m: Mmu, id: nat, i: nat)
    requires Sound(m) && Space(id) !in m.v.roots && |m.supply| >= 2 && i < ENTRIES
    requires !Bit(At(m.v.mem, m.v.roots[Kernel], i), PRESENT)
    ensures var (n, root) := SetupKvm(m, id);
      n.v.roots[Kernel] == m.v.roots[Kernel] && !Bit(At(n.v.mem, m.v.roots[Kernel], i), PRESENT)
  {
    KernelTables(m.v);
    assert Spare(m.v, m.supply[0]) && Spare(m.v, m.supply[1]);
    NewSpaceAt(m.v, id, m.supply[0], m.supply[1], m.v.roots[Kernel], i);
  }

  /** So it goes in every sound state with frames to spare, the one boot leaves among them,
      for every page under a root entry the kernel does not have yet. */
  lemma BuildThenMiss(m: Mmu, id: nat, q: Page, physical: bv64, flags: bv64)
    requires Sound(m) && Space(id) !in m.v.roots && |m.supply| >= 6 && IsPage(q) && q.i4 >= 256
    requires !Bit(At(m.v.mem, m.v.roots[Kernel], q.i4), PRESENT) && Bit(physical | flags, PRESENT)
    ensures BuiltThenMissed(m, id, q, physical, flags)
  {
    SetupKvmKeeps(m, id);
    StillAbsent(m, id, q.i4);
    LateMappingIsMissed(SetupKvm(m, id).0, Space(id), q, physical, flags);
  }
}
