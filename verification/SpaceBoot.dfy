/** The tables the kernel starts with: `mmu_initialize` leaves them as every later operation
    expects them.
 */
module SpaceBoot {
  import opened Basics
  import opened PageTables
  import opened AddressSpaces
  import opened SpaceLife
  import SpaceRuns

  const TWO_MEGABYTES: nat := 0x20_0000
  const DIRECT_MAP_BASE: nat := 0xFFFF_8000_0000_0000

  function HugeEntry(physical: bv64): bv64 {
    physical | PRESENT | WRITABLE | TWO_MB
  }

  lemma HugeEntryIs(p: bv64)
    ensures Bit(HugeEntry(p), PRESENT) && Huge(HugeEntry(p))
  {}

  // ---- a 2 MiB page in a directory ----

  /** Storing a 2 MiB page in one of the kernel's directories keeps the tables in order. */
  lemma HugeWriteTagged(v: Vm, t: nat, i: nat, p: bv64)
    requires WellTagged(v) && t in v.mem && v.tag[t].path.L2? && i < ENTRIES
    ensures WellTagged(v.(mem := SetEntry(v.mem, t, i, HugeEntry(p))))
  {
    var w := v.(mem := SetEntry(v.mem, t, i, HugeEntry(p)));
    HugeEntryIs(p);
    forall u, j | u in w.mem && 0 <= j < |w.mem[u]| ensures EntryTagged(w, u, j) {
      assert EntryTagged(v, u, j);
    }
  }

  // ---- before there are spaces ----

  /** All tables are the kernel's, on its own paths. */
  ghost predicate Early(v: Vm, root: nat) {
    && WellTagged(v) && v.roots == map[Kernel := root]
    && forall t :: t in v.tag ==> v.tag[t].owner == Kernel && KernelPath(v.tag[t].path)
  }

  ghost predicate EarlyMmu(m: Mmu, root: nat) {
    Valid(m) && Early(m.v, root)
  }

  /** With a low table and a directory under it, that is all there is to ask. */
  lemma EarlyIsSound(m: Mmu, root: nat)
    requires EarlyMmu(m, root) && KernelLow(m.v)
    ensures Sound(m)
  {
    var v := m.v;
    assert EntryTagged(v, root, 0);
    assert LowOwned(v);
    assert forall t, i :: t in v.tag && 0 <= i < ENTRIES ==> SharedEntry(v, t, i);
    assert forall t, i :: t in v.tag && 0 <= i < ENTRIES ==> OpenEntry(v, t, i);
  }

  /** A directory or a table above one hung where there was none. */
  lemma EarlyHang(m: Mmu, root: nat, t: nat, i: nat)
    requires EarlyMmu(m, root) && m.supply != [] && t in m.v.mem && !m.v.tag[t].path.L1? && i < ENTRIES
    requires KernelPath(Child(m.v.tag[t].path, i))
    ensures var n, c := HangNext(m, t, i, Zeroes(ENTRIES), 0), Frame(m.supply[0]);
      && EarlyMmu(n, root) && c in n.v.mem && c !in m.v.mem && n.v.tag[c].path == Child(m.v.tag[t].path, i)
      && n.v.mem == SetEntry(m.v.mem, t, i, m.supply[0] | PRESENT | WRITABLE)[c := Zeroes(ENTRIES)]
      && (forall u :: u in m.v.tag ==> u in n.v.tag && n.v.tag[u] == m.v.tag[u])
  {
    var f := m.supply[0];
    assert Spare(m.v, f);
    HangTagged(m.v, t, i, f, Zeroes(ENTRIES), 0);
    HangNextValid(m, t, i, Zeroes(ENTRIES), 0);
    assert f | PRESENT | WRITABLE | (0 & USER) == f | PRESENT | WRITABLE;
  }

  lemma EarlyHuge(m: Mmu, root: nat, t: nat, i: nat, p: bv64)
    requires EarlyMmu(m, root) && t in m.v.mem && m.v.tag[t].path.L2? && i < ENTRIES
    ensures EarlyMmu(m.(v := m.v.(mem := SetEntry(m.v.mem, t, i, HugeEntry(p)))), root)
  {
    HugeWriteTagged(m.v, t, i, p);
    var n := m.(v := m.v.(mem := SetEntry(m.v.mem, t, i, HugeEntry(p))));
    forall j | 0 <= j < |n.supply| ensures Spare(n.v, n.supply[j]) {
      assert Spare(m.v, m.supply[j]);
    }
  }

  // ---- setup_kernel_mapping and setup_identity_mapping ----

  /** The `k`-th 2 MiB from `start` on. */
  function Piece(start: bv64, k: nat): bv64
    decreases k, start
  {
    if k == 0 then start else Piece(start, k - 1) + 0x20_0000
  }

  /** The first `k` entries of directory `t` map 2 MiB each from `start` on. */
  function Filled(m: Mmu, t: nat, start: bv64, k: nat): (n: Mmu)
    requires t in m.v.mem && |m.v.mem[t]| == ENTRIES && k <= ENTRIES
    ensures t in n.v.mem && |n.v.mem[t]| == ENTRIES && n == m.(v := m.v.(mem := m.v.mem[t := n.v.mem[t]]))
    decreases k, m
  {
    if k == 0 then m
    else
      var n := Filled(m, t, start, k - 1);
      n.(v := n.v.(mem := SetEntry(n.v.mem, t, k - 1, HugeEntry(Piece(start, k - 1)))))
  }

  lemma {:induction false} FilledEarly(m: Mmu, root: nat, t: nat, start: bv64, k: nat)
    requires EarlyMmu(m, root) && t in m.v.mem && m.v.tag[t].path.L2? && k <= ENTRIES
    ensures EarlyMmu(Filled(m, t, start, k), root)
    decreases k
  {
    if k > 0 {
      FilledEarly(m, root, t, start, k - 1);
      EarlyHuge(Filled(m, t, start, k - 1), root, t, k - 1, Piece(start, k - 1));
    }
  }

  /** The root alone. */
  function RootOnly(f: bv64, supply: seq<bv64>): Mmu {
    Mmu(Vm(map[Frame(f) := Zeroes(ENTRIES)], map[Frame(f) := Tag(Kernel, Root)], map[Kernel := Frame(f)]), supply)
  }

  /** Frames as the page allocator gives them: aligned and different. */
  predicate Fresh(fs: seq<bv64>) {
    && (forall i :: 0 <= i < |fs| ==> fs[i] & ADDR == fs[i])
    && forall i, j :: 0 <= i < j < |fs| ==> Frame(fs[i]) != Frame(fs[j])
  }

  lemma RootOnlyTagged(f: bv64, supply: seq<bv64>)
    ensures WellTagged(RootOnly(f, supply).v)
  {
    var v := RootOnly(f, supply).v;
    forall t, i | t in v.mem && 0 <= i < |v.mem[t]| ensures EntryTagged(v, t, i) {
      assert v.mem[t][i] == 0;
    }
  }

  lemma RootOnlyEarly(fs: seq<bv64>)
    requires Fresh(fs) && fs != []
    ensures EarlyMmu(RootOnly(fs[0], fs[1..]), Frame(fs[0]))
  {
    RootOnlyTagged(fs[0], fs[1..]);
    var m := RootOnly(fs[0], fs[1..]);
    forall i | 0 <= i < |m.supply| ensures Spare(m.v, m.supply[i]) {
      assert Frame(fs[0]) != Frame(fs[i + 1]);
    }
  }

  /** A table hung under the root at `i`, a directory under that at `j`, filled from `start`. */
  function Gigabyte(m: Mmu, t: nat, i: nat, j: nat, start: bv64): Mmu
    requires |m.supply| >= 2 && t in m.v.mem && t in m.v.tag && |m.v.mem[t]| == ENTRIES && i < ENTRIES && j < ENTRIES
    requires m.v.tag[t].path == Root && Frame(m.supply[0]) != Frame(m.supply[1])
  {
    var a := HangNext(m, t, i, Zeroes(ENTRIES), 0);
    var b := HangNext(a, Frame(m.supply[0]), j, Zeroes(ENTRIES), 0);
    Filled(b, Frame(m.supply[1]), start, ENTRIES)
  }

  lemma GigabyteEarly(m: Mmu, root: nat, i: nat, j: nat, start: bv64)
    requires EarlyMmu(m, root) && |m.supply| >= 2 && i < ENTRIES && j < ENTRIES
    requires KernelPath(L3(i)) && KernelPath(L2(i, j))
    ensures m.v.tag[root].path == Root && Frame(m.supply[0]) != Frame(m.supply[1])
    ensures var n := Gigabyte(m, root, i, j, start);
      && EarlyMmu(n, root) && n.supply == m.supply[2..]
      && At(n.v.mem, root, i) == m.supply[0] | PRESENT | WRITABLE
      && At(n.v.mem, Frame(m.supply[0]), j) == m.supply[1] | PRESENT | WRITABLE
  {
    var high, dir := Frame(m.supply[0]), Frame(m.supply[1]);
    EarlyHang(m, root, root, i);
    var a := HangNext(m, root, i, Zeroes(ENTRIES), 0);
    EarlyHang(a, root, high, j);
    var b := HangNext(a, high, j, Zeroes(ENTRIES), 0);
    FilledEarly(b, root, dir, start, ENTRIES);
    assert m.supply[1..][1..] == m.supply[2..];
    assert root in m.v.mem && high in a.v.mem && dir !in a.v.mem && high !in m.v.mem;
  }

  /** After both mappings. */
  function FirstTables(fs: seq<bv64>): Mmu
    requires Fresh(fs) && |fs| >= 5
  {
    RootOnlyEarly(fs);
    var m := RootOnly(fs[0], fs[1..]);
    GigabyteEarly(m, Frame(fs[0]), 511, 510, 0x40_0000);
    var n := Gigabyte(m, Frame(fs[0]), 511, 510, 0x40_0000);
    GigabyteEarly(n, Frame(fs[0]), 0, 0, 0);
    Gigabyte(n, Frame(fs[0]), 0, 0, 0)
  }

  lemma EntryBits(t: bv64)
    requires t & ADDR == t
    ensures var e := t | PRESENT | WRITABLE;
      Frame(e) == Frame(t) && Bit(e, PRESENT) && Bit(e, WRITABLE) && !Bit(e, USER)
  {
    assert (t | PRESENT | WRITABLE) & ADDR == t;
  }

  lemma ClosedBelow(v: Vm, root: nat, a: bv64, b: bv64)
    requires v.roots == map[Kernel := root] && a & ADDR == a && b & ADDR == b
    requires At(v.mem, root, 0) == a | PRESENT | WRITABLE && At(v.mem, Frame(a), 0) == b | PRESENT | WRITABLE
    ensures KernelLow(v)
  {
    EntryBits(a);
    EntryBits(b);
  }

  lemma FreshAligned(fs: seq<bv64>, i: nat, a: bv64)
    requires Fresh(fs) && i < |fs| && a == fs[i]
    ensures a & ADDR == a
  {}

  lemma MappedEntries(fs: seq<bv64>, g: Mmu)
    requires Fresh(fs) && |fs| >= 5 && g == FirstTables(fs)
    ensures g.v.roots == map[Kernel := Frame(fs[0])] && At(g.v.mem, Frame(fs[0]), 0) == fs[3] | PRESENT | WRITABLE
    ensures At(g.v.mem, Frame(fs[3]), 0) == fs[4] | PRESENT | WRITABLE
  {
    RootOnlyEarly(fs);
    var root, m := Frame(fs[0]), RootOnly(fs[0], fs[1..]);
    GigabyteEarly(m, root, 511, 510, 0x40_0000);
    var n := Gigabyte(m, root, 511, 510, 0x40_0000);
    assert n.supply[0] == fs[3] && n.supply[1] == fs[4];
    GigabyteEarly(n, root, 0, 0, 0);
  }

  lemma MappedLow(fs: seq<bv64>, g: Mmu)
    requires Fresh(fs) && |fs| >= 5 && g == FirstTables(fs)
    ensures Kernel in g.v.roots && KernelLow(g.v)
  {
    var a, b := fs[3], fs[4];
    FreshAligned(fs, 3, a);
    FreshAligned(fs, 4, b);
    MappedEntries(fs, g);
    ClosedBelow(g.v, Frame(fs[0]), a, b);
  }

  lemma MappedIsEarly(fs: seq<bv64>, g: Mmu)
    requires Fresh(fs) && |fs| >= 5 && g == FirstTables(fs)
    ensures EarlyMmu(g, Frame(fs[0]))
  {
    RootOnlyEarly(fs);
    var root, m := Frame(fs[0]), RootOnly(fs[0], fs[1..]);
    GigabyteEarly(m, root, 511, 510, 0x40_0000);
    GigabyteEarly(Gigabyte(m, root, 511, 510, 0x40_0000), root, 0, 0, 0);
  }

  /** The kernel's first tables are sound. */
  lemma MappedSound(fs: seq<bv64>, g: Mmu)
    requires Fresh(fs) && |fs| >= 5 && g == FirstTables(fs)
    ensures OnlyKernel(g, Frame(fs[0]))
  {
    MappedIsEarly(fs, g);
    MappedLow(fs, g);
    EarlyIsSound(g, Frame(fs[0]));
  }

  /** No spaces yet. */
  ghost predicate OnlyKernel(m: Mmu, root: nat) {
    Sound(m) && m.v.roots == map[Kernel := root]
  }

  // ---- setup_direct_mapping ----

  lemma SoundIsEarly(m: Mmu, root: nat)
    requires Sound(m) && m.v.roots == map[Kernel := root]
    ensures EarlyMmu(m, root)
  {}

  /** Where the direct map has a physical address. */
  function DirectPage(phys: nat): Page {
    PageOf(DIRECT_MAP_BASE + phys)
  }

  lemma DirectIsKernels(phys: nat)
    requires phys < 0x8000_0000_0000
    ensures OwnPage(Kernel, DirectPage(phys))
  {
    var va := DIRECT_MAP_BASE + phys;
    assert va / 0x80_0000_0000 == 0x1FFFF00 + phys / 0x80_0000_0000;
    assert phys / 0x80_0000_0000 < 256;
  }

  /** One 2 MiB of the direct map, or `None`, the panic, when frames have run out. */
  ghost function DirectStep(m: Mmu, phys: nat): Option<Mmu>
    requires Sound(m) && Kernel in m.v.roots && phys < 0x8000_0000_0000
  {
    DirectIsKernels(phys);
    var q := DirectPage(phys);
    FindPdKeeps(m, Kernel, q, 0);
    var r := FindPd(m, Kernel, q, 0);
    if r.at.None? then None
    else Some(r.m.(v := r.m.v.(mem := SetEntry(r.m.v.mem, r.at.value, q.i2, HugeEntry(phys as bv64)))))
  }

  lemma HugeStepSound(m: Mmu, root: nat, t: nat, i: nat, p: bv64)
    requires Sound(m) && m.v.roots == map[Kernel := root] && t in m.v.mem && m.v.tag[t].path.L2? && i < ENTRIES
    ensures var n := m.(v := m.v.(mem := SetEntry(m.v.mem, t, i, HugeEntry(p)))); Sound(n) && n.v.roots == m.v.roots
  {
    SoundIsEarly(m, root);
    EarlyHuge(m, root, t, i, p);
    KernelTables(m.v);
    var n := m.(v := m.v.(mem := SetEntry(m.v.mem, t, i, HugeEntry(p))));
    assert LowOf(m.v) != t && root != t;
    EarlyIsSound(n, root);
  }

  lemma DirectStepSound(m: Mmu, root: nat, phys: nat)
    requires Sound(m) && m.v.roots == map[Kernel := root] && phys < 0x8000_0000_0000
    ensures var n := DirectStep(m, phys); n.Some? ==> Sound(n.value) && n.value.v.roots == m.v.roots
  {
    DirectIsKernels(phys);
    var q := DirectPage(phys);
    FindPdKeeps(m, Kernel, q, 0);
    var r := FindPd(m, Kernel, q, 0);
    if r.at.Some? {
      HugeStepSound(r.m, root, r.at.value, q.i2, phys as bv64);
    }
  }

  /** The direct map of a region, from the 2 MiB boundary below `phys` to its end. */
  ghost function DirectRegion(m: Mmu, root: nat, phys: nat, end: nat): (n: Option<Mmu>)
    requires Sound(m) && m.v.roots == map[Kernel := root] && end <= 0x8000_0000_0000
    ensures n.Some? ==> Sound(n.value) && n.value.v.roots == m.v.roots
    decreases if phys < end then end - phys else 0
  {
    if phys >= end then Some(m)
    else
      DirectStepSound(m, root, phys);
      var n := DirectStep(m, phys);
      if n.None? then None else DirectRegion(n.value, root, phys + TWO_MEGABYTES, end)
  }

  /** A usable region of physical memory. */
  datatype Region = Region(addr: nat, length: nat)

  predicate RegionsOk(regions: seq<Region>) {
    forall i :: 0 <= i < |regions| ==> regions[i].addr + regions[i].length <= 0x8000_0000_0000
  }

  ghost function RegionMapped(m: Mmu, root: nat, r: Region): (n: Option<Mmu>)
    requires OnlyKernel(m, root) && r.addr + r.length <= 0x8000_0000_0000
    ensures n.Some? ==> OnlyKernel(n.value, root)
  {
    DirectRegion(m, root, r.addr - r.addr % TWO_MEGABYTES, r.addr + r.length)
  }

  ghost function DirectMap(m: Mmu, root: nat, regions: seq<Region>, k: nat): (n: Option<Mmu>)
    requires OnlyKernel(m, root) && k <= |regions| && RegionsOk(regions)
    ensures n.Some? ==> OnlyKernel(n.value, root)
    decreases k, m
  {
    if k == 0 then Some(m)
    else
      var n := DirectMap(m, root, regions, k - 1);
      if n.None? then None else RegionMapped(n.value, root, regions[k - 1])
  }

  // ---- mmu_initialize ----

  const DEVICE: nat := 0xFFFF_FFFF_FEC0_0000
  const DEVICE_FLAGS: bv64 := PRESENT | WRITABLE | 0x10

  lemma DeviceIsKernels()
    ensures OwnPage(Kernel, PageOf(DEVICE))
  {}

  lemma DeviceSound(m: Mmu, root: nat)
    requires OnlyKernel(m, root) && OwnPage(Kernel, PageOf(DEVICE))
    ensures OnlyKernel(MapPageIn(m, Kernel, PageOf(DEVICE), 0xFEC0_0000, DEVICE_FLAGS).0, root)
  {
    MapPageInKeeps(m, Kernel, PageOf(DEVICE), 0xFEC0_0000, DEVICE_FLAGS);
  }

  /** `mmu_initialize` after its first two mappings; `None` is the panic when the direct map
      cannot be built. */
  ghost function Initialized(g: Mmu, root: nat, regions: seq<Region>): (n: Option<Mmu>)
    requires OnlyKernel(g, root) && RegionsOk(regions)
    ensures n.Some? ==> OnlyKernel(n.value, root)
  {
    DeviceIsKernels();
    var m := DirectMap(g, root, regions, |regions|);
    if m.None? then None
    else
      DeviceSound(m.value, root);
      Some(MapPageIn(m.value, Kernel, PageOf(DEVICE), 0xFEC0_0000, DEVICE_FLAGS).0)
  }

  /** Whatever memory there is, below 128 TiB, the kernel starts with sound tables. */
  lemma BootIsSound(fs: seq<bv64>, g: Mmu, regions: seq<Region>)
    requires Fresh(fs) && |fs| >= 5 && g == FirstTables(fs) && RegionsOk(regions)
    ensures OnlyKernel(g, Frame(fs[0]))
    ensures Initialized(g, Frame(fs[0]), regions).Some? ==>
      OnlyKernel(Initialized(g, Frame(fs[0]), regions).value, Frame(fs[0]))
  {
    MappedSound(fs, g);
  }

  /** So every run from the start keeps the ownership of tables. */
  lemma EveryRunFromBoot(fs: seq<bv64>, g: Mmu, regions: seq<Region>, m: Mmu, acts: seq<SpaceRuns.Action>)
    requires Fresh(fs) && |fs| >= 5 && g == FirstTables(fs) && RegionsOk(regions)
    requires (BootIsSound(fs, g, regions);
              Initialized(g, Frame(fs[0]), regions) == Some(m) && SpaceRuns.CanRun(m, acts))
    ensures (BootIsSound(fs, g, regions);
             Sound(SpaceRuns.After(m, acts)))
  {
    BootIsSound(fs, g, regions);
    SpaceRuns.EveryRunIsSound(m, acts);
  }
}
