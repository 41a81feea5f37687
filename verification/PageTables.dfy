/** Four-level page tables with shared kernel subtrees.

    Physical memory is the set of frames that hold tables, each with its 512
    entries.  Every table frame carries a tag: the address space that owns it and
    the index path that leads to it.  `Meaning` is what the processor makes of a
    virtual page.
 */
module PageTables {
  import opened Basics

  const PRESENT: bv64 := 0x001
  const WRITABLE: bv64 := 0x002
  const USER: bv64 := 0x004
  const TWO_MB: bv64 := 0x080
  const NX: bv64 := 0x8000_0000_0000_0000
  const ADDR: bv64 := 0x000F_FFFF_FFFF_F000
  const HUGE_ADDR: bv64 := 0x000F_FFFF_FFE0_0000
  const FLAGS: bv64 := 0x8000_0000_0000_0FFF

  const ENTRIES: nat := 512

  type Table = seq<bv64>

  type Memory = map<nat, Table>

  /** The four indices that name a virtual page. */
  datatype Page = Page(i4: nat, i3: nat, i2: nat, i1: nat)

  predicate IsPage(q: Page) {
    q.i4 < ENTRIES && q.i3 < ENTRIES && q.i2 < ENTRIES && q.i1 < ENTRIES
  }

  function PageOf(va: nat): (q: Page)
    ensures IsPage(q)
  {
    Page(va / 0x80_0000_0000 % 512, va / 0x4000_0000 % 512, va / 0x20_0000 % 512, va / 0x1000 % 512)
  }

  predicate Bit(e: bv64, b: bv64) {
    e & b != 0
  }

  predicate Huge(e: bv64) {
    Bit(e, TWO_MB)
  }

  /** The frame an entry refers to. */
  function Frame(e: bv64): nat {
    (e & ADDR) as nat
  }

  // ---- meaning ----

  /** What a page maps to: the frame, the flag bits of the leaf entry, and whether the
      whole path lets user code in and lets anyone write. */
  datatype Mapping = Unmapped | Mapped(frame: bv64, flags: bv64, user: bool, writable: bool)

  function PageOffset(i: nat): bv64
    requires i < ENTRIES
  {
    ((i as bv9) as bv64) << 12
  }

  /** A 4 KiB entry; one that is not present but not empty still holds its frame. */
  function Small(e: bv64, user: bool, writable: bool): Mapping {
    if e == 0 then Unmapped
    else Mapped(e & ADDR, e & FLAGS, user && Bit(e, USER), writable && Bit(e, WRITABLE))
  }

  /** One 4 KiB part of a 2 MiB entry. */
  function Part(e: bv64, i1: nat, user: bool, writable: bool): Mapping
    requires i1 < ENTRIES
  {
    PartAt(e, PageOffset(i1), user, writable)
  }

  function PartAt(e: bv64, off: bv64, user: bool, writable: bool): Mapping {
    Mapped((e & HUGE_ADDR) + off, e & FLAGS & !TWO_MB, user && Bit(e, USER), writable && Bit(e, WRITABLE))
  }

  function At(mem: Memory, t: nat, i: nat): bv64
    requires i < ENTRIES
  {
    if t in mem && i < |mem[t]| then mem[t][i] else 0
  }

  function Meaning(mem: Memory, root: nat, q: Page): Mapping
    requires IsPage(q)
  {
    var e4 := At(mem, root, q.i4);
    if !Bit(e4, PRESENT) then Unmapped else Meaning3(mem, Frame(e4), q, Bit(e4, USER), Bit(e4, WRITABLE))
  }

  function Meaning3(mem: Memory, t: nat, q: Page, user: bool, writable: bool): Mapping
    requires IsPage(q)
  {
    var e3 := At(mem, t, q.i3);
    if !Bit(e3, PRESENT) then Unmapped
    else Meaning2(mem, Frame(e3), q, user && Bit(e3, USER), writable && Bit(e3, WRITABLE))
  }

  function Meaning2(mem: Memory, t: nat, q: Page, user: bool, writable: bool): Mapping
    requires IsPage(q)
  {
    var e2 := At(mem, t, q.i2);
    if !Bit(e2, PRESENT) then Unmapped
    else if Huge(e2) then Part(e2, q.i1, user, writable)
    else Small(At(mem, Frame(e2), q.i1), user && Bit(e2, USER), writable && Bit(e2, WRITABLE))
  }

  // ---- tags ----

  datatype Owner = Kernel | Space(id: nat)

  datatype Path = Root | L3(i4: nat) | L2(i4: nat, i3: nat) | L1(i4: nat, i3: nat, i2: nat)

  datatype Tag = Tag(owner: Owner, path: Path)

  function Child(p: Path, i: nat): Path
    requires !p.L1?
  {
    match p
    case Root => L3(i)
    case L3(i4) => L2(i4, i)
    case L2(i4, i3) => L1(i4, i3, i)
  }

  /** The entry at this place in the tree refers to a table. */
  predicate RefersToTable(p: Path, e: bv64) {
    !p.L1? && Bit(e, PRESENT) && !(p.L2? && Huge(e))
  }

  datatype Vm = Vm(mem: Memory, tag: map<nat, Tag>, roots: map<Owner, nat>)

  /** A table's children are where its entries say, one level down the same path,
      and belong to the same space or to the kernel. */
  ghost predicate EntryTagged(v: Vm, t: nat, i: nat)
    requires t in v.mem && t in v.tag && i < |v.mem[t]|
  {
    var e := v.mem[t][i];
    RefersToTable(v.tag[t].path, e) ==>
      && Frame(e) in v.mem && Frame(e) in v.tag
      && v.tag[Frame(e)].path == Child(v.tag[t].path, i)
      && (v.tag[Frame(e)].owner == v.tag[t].owner || v.tag[Frame(e)].owner == Kernel)
  }

  ghost predicate WellTagged(v: Vm) {
    && v.mem.Keys == v.tag.Keys
    && (forall t :: t in v.mem ==> |v.mem[t]| == ENTRIES)
    && (forall t, i :: t in v.mem && 0 <= i < |v.mem[t]| ==> EntryTagged(v, t, i))
    && (forall o :: o in v.roots ==> v.roots[o] in v.mem && v.tag[v.roots[o]] == Tag(o, Root))
    && Kernel in v.roots
  }

  /** Frames the allocator has in store: not in use and page aligned. */
  predicate Spare(v: Vm, f: bv64) {
    f & ADDR == f && Frame(f) !in v.mem
  }

  // ---- bits ----

  lemma TableEntryBits(t: bv64, flags: bv64)
    requires t & ADDR == t
    ensures var e := t | PRESENT | WRITABLE | (flags & USER);
      && Frame(e) == Frame(t) && Bit(e, PRESENT) && !Huge(e) && Bit(e, WRITABLE)
      && (Bit(e, USER) <==> Bit(flags, USER))
  {
    assert (t | PRESENT | WRITABLE | (flags & USER)) & ADDR == t;
  }

  lemma OffsetBits(i: nat)
    requires i < ENTRIES
    ensures PageOffset(i) & !0x1F_F000 == 0
  {}

  /** The entry `split_two_mb_page` writes for the `i`-th part. */
  function SplitWord(e: bv64, i: nat): bv64
    requires i < ENTRIES
  {
    SplitWordAt(e, PageOffset(i))
  }

  function SplitWordAt(e: bv64, off: bv64): bv64 {
    ((e & HUGE_ADDR) + off) | ((e & 0xFFF & !TWO_MB) | (e & NX))
  }

  lemma SplitWordBits(e: bv64, off: bv64)
    requires off & !0x1F_F000 == 0 && Bit(e, PRESENT)
    ensures var w := SplitWordAt(e, off);
      && w & ADDR == (e & HUGE_ADDR) + off && w & FLAGS == e & FLAGS & !TWO_MB && w != 0
      && (Bit(w, USER) <==> Bit(e, USER)) && (Bit(w, WRITABLE) <==> Bit(e, WRITABLE))
  {}

  /** A part means the same before and after the split, whatever path leads to it. */
  lemma SplitPart(e: bv64, i: nat, user: bool, writable: bool)
    requires i < ENTRIES && Bit(e, PRESENT)
    ensures Small(SplitWord(e, i), user && Bit(e, USER), writable) == Part(e, i, user, writable)
  {
    OffsetBits(i);
    SplitOff(e, PageOffset(i), user, writable);
  }

  lemma SplitOff(e: bv64, off: bv64, user: bool, writable: bool)
    requires off & !0x1F_F000 == 0 && Bit(e, PRESENT)
    ensures Small(SplitWordAt(e, off), user && Bit(e, USER), writable) == PartAt(e, off, user, writable)
  {
    SplitWordBits(e, off);
  }

  // ---- changing one entry ----

  function SetEntry(mem: Memory, t: nat, i: nat, e: bv64): Memory
    requires t in mem && i < |mem[t]|
  {
    mem[t := mem[t][i := e]]
  }

  /** What `allocate_page_table` clears a frame to. */
  function Zeroes(n: nat): (r: Table)
    ensures |r| == n && forall i :: 0 <= i < n ==> r[i] == 0
  {
    seq(n, _ => 0)
  }

  predicate Empty(t: Table) {
    |t| == ENTRIES && forall i :: 0 <= i < |t| ==> t[i] == 0
  }

  /** Hanging a table under an entry that referred to none. */
  function Hang(v: Vm, t: nat, i: nat, f: bv64, content: Table, flags: bv64): Vm
    requires t in v.mem && t in v.tag && !v.tag[t].path.L1? && i < |v.mem[t]|
  {
    Vm(SetEntry(v.mem, t, i, f | PRESENT | WRITABLE | (flags & USER))[Frame(f) := content],
       v.tag[Frame(f) := Tag(v.tag[t].owner, Child(v.tag[t].path, i))],
       v.roots)
  }

  lemma HangStands(v: Vm, t: nat, i: nat, f: bv64, content: Table, flags: bv64, u: nat, j: nat)
    requires WellTagged(v) && t in v.mem && !v.tag[t].path.L1? && i < ENTRIES && Spare(v, f)
    requires u in v.mem && j < ENTRIES && (u != t || j != i)
    ensures At(Hang(v, t, i, f, content, flags).mem, u, j) == At(v.mem, u, j)
  {}

  lemma HangEntry(v: Vm, t: nat, i: nat, f: bv64, content: Table, flags: bv64, u: nat, j: nat)
    requires WellTagged(v) && t in v.mem && !v.tag[t].path.L1? && i < ENTRIES && Spare(v, f)
    requires u in v.mem && j < |v.mem[u]|
    ensures var w := Hang(v, t, i, f, content, flags);
      u in w.mem && u in w.tag && j < |w.mem[u]| && EntryTagged(w, u, j)
  {
    TableEntryBits(f, flags);
    assert EntryTagged(v, u, j);
    if !(u == t && j == i) {
      assert Hang(v, t, i, f, content, flags).mem[u][j] == v.mem[u][j];
    }
  }

  lemma HangTagged(v: Vm, t: nat, i: nat, f: bv64, content: Table, flags: bv64)
    requires WellTagged(v) && t in v.mem && !v.tag[t].path.L1? && i < ENTRIES && Spare(v, f)
    requires |content| == ENTRIES && (Empty(content) || v.tag[t].path.L2?)
    ensures WellTagged(Hang(v, t, i, f, content, flags))
  {
    var w := Hang(v, t, i, f, content, flags);
    assert w.mem.Keys == v.mem.Keys + {Frame(f)};
    forall u, j | u in w.mem && 0 <= j < |w.mem[u]| ensures u in w.tag && EntryTagged(w, u, j) {
      if u != Frame(f) {
        HangEntry(v, t, i, f, content, flags, u, j);
      }
    }
  }

  /** The first `n` entries of a split table. */
  function SplitWords(e: bv64, n: nat): (r: Table)
    requires n <= ENTRIES
    ensures |r| == n
    ensures forall i :: 0 <= i < n ==> r[i] == SplitWord(e, i)
  {
    if n == 0 then [] else SplitWords(e, n - 1) + [SplitWord(e, n - 1)]
  }

  /** The table content with which an entry may be replaced without changing what any
      page means: nothing under an absent entry, its parts under a 2 MiB entry. */
  predicate Neutral(p: Path, e: bv64, content: Table, flags: bv64) {
    if p.L2? && Bit(e, PRESENT) && Huge(e) then content == SplitWords(e, ENTRIES) && flags == e
    else !Bit(e, PRESENT) && Empty(content)
  }

  lemma HangMeaning2(v: Vm, t: nat, i: nat, f: bv64, content: Table, flags: bv64, t2: nat, q: Page, user: bool,
                     wr: bool)
    requires WellTagged(v) && t in v.mem && !v.tag[t].path.L1? && i < ENTRIES && Spare(v, f) && IsPage(q)
    requires Neutral(v.tag[t].path, v.mem[t][i], content, flags)
    requires t2 in v.mem && v.tag[t2].path == L2(q.i4, q.i3)
    ensures Meaning2(Hang(v, t, i, f, content, flags).mem, t2, q, user, wr) == Meaning2(v.mem, t2, q, user, wr)
  {
    TableEntryBits(f, flags);
    var w, e2 := Hang(v, t, i, f, content, flags), v.mem[t2][q.i2];
    if t2 == t && q.i2 == i {
      if Bit(e2, PRESENT) {
        SplitPart(e2, q.i1, user, wr);
      } else {
        assert w.mem[Frame(f)][q.i1] == 0;
      }
    } else {
      assert EntryTagged(v, t2, q.i2);
      HangStands(v, t, i, f, content, flags, t2, q.i2);
    }
  }

  /** An empty table under an entry that was absent. */
  lemma HungHere3(v: Vm, t: nat, f: bv64, content: Table, flags: bv64, q: Page, user: bool, wr: bool)
    requires WellTagged(v) && t in v.mem && v.tag[t].path == L3(q.i4) && Spare(v, f) && IsPage(q)
    requires !Bit(v.mem[t][q.i3], PRESENT) && Empty(content)
    ensures Meaning3(Hang(v, t, q.i3, f, content, flags).mem, t, q, user, wr) == Meaning3(v.mem, t, q, user, wr)
  {
    TableEntryBits(f, flags);
    assert Hang(v, t, q.i3, f, content, flags).mem[Frame(f)][q.i2] == 0;
  }

  lemma HangMeaning3(v: Vm, t: nat, i: nat, f: bv64, content: Table, flags: bv64, t3: nat, q: Page, user: bool,
                     wr: bool)
    requires WellTagged(v) && t in v.mem && !v.tag[t].path.L1? && i < ENTRIES && Spare(v, f) && IsPage(q)
    requires Neutral(v.tag[t].path, v.mem[t][i], content, flags)
    requires t3 in v.mem && v.tag[t3].path == L3(q.i4)
    ensures Meaning3(Hang(v, t, i, f, content, flags).mem, t3, q, user, wr) == Meaning3(v.mem, t3, q, user, wr)
  {
    var e3 := v.mem[t3][q.i3];
    if t3 == t && q.i3 == i {
      HungHere3(v, t, f, content, flags, q, user, wr);
    } else {
      assert EntryTagged(v, t3, q.i3);
      HangStands(v, t, i, f, content, flags, t3, q.i3);
      if Bit(e3, PRESENT) {
        HangMeaning2(v, t, i, f, content, flags, Frame(e3), q, user && Bit(e3, USER), wr && Bit(e3, WRITABLE));
      }
    }
  }

  /** Hanging a neutral table changes no translation of any space. */
  lemma HangMeaning(v: Vm, t: nat, i: nat, f: bv64, content: Table, flags: bv64, o: Owner, q: Page)
    requires WellTagged(v) && t in v.mem && !v.tag[t].path.L1? && i < ENTRIES && Spare(v, f) && IsPage(q)
    requires Neutral(v.tag[t].path, v.mem[t][i], content, flags) && o in v.roots
    ensures Meaning(Hang(v, t, i, f, content, flags).mem, v.roots[o], q) == Meaning(v.mem, v.roots[o], q)
  {
    TableEntryBits(f, flags);
    var w, t4 := Hang(v, t, i, f, content, flags), v.roots[o];
    var e4 := v.mem[t4][q.i4];
    if t4 == t && q.i4 == i {
      assert w.mem[Frame(f)][q.i3] == 0;
    } else {
      assert EntryTagged(v, t4, q.i4);
      HangStands(v, t, i, f, content, flags, t4, q.i4);
      if Bit(e4, PRESENT) {
        HangMeaning3(v, t, i, f, content, flags, Frame(e4), q, Bit(e4, USER), Bit(e4, WRITABLE));
      }
    }
  }

  // ---- writing a leaf ----

  /** The last-level table a page's walk ends in, with the rights of the path. */
  datatype LeafTable = LeafTable(table: nat, user: bool, writable: bool)

  function Walk(mem: Memory, root: nat, q: Page): Option<LeafTable>
    requires IsPage(q)
  {
    var e4 := At(mem, root, q.i4);
    var e3 := At(mem, Frame(e4), q.i3);
    var e2 := At(mem, Frame(e3), q.i2);
    if Bit(e4, PRESENT) && Bit(e3, PRESENT) && Bit(e2, PRESENT) && !Huge(e2) then
      Some(LeafTable(Frame(e2),
        Bit(e4, USER) && Bit(e3, USER) && Bit(e2, USER),
        Bit(e4, WRITABLE) && Bit(e3, WRITABLE) && Bit(e2, WRITABLE)))
    else None
  }

  lemma WalkTagged(v: Vm, o: Owner, q: Page)
    requires WellTagged(v) && o in v.roots && IsPage(q) && Walk(v.mem, v.roots[o], q).Some?
    ensures var t := Walk(v.mem, v.roots[o], q).value.table;
      && t in v.mem && v.tag[t].path == L1(q.i4, q.i3, q.i2)
      && (v.tag[t].owner == o || v.tag[t].owner == Kernel)
      && Meaning(v.mem, v.roots[o], q) ==
         Small(v.mem[t][q.i1], Walk(v.mem, v.roots[o], q).value.user, Walk(v.mem, v.roots[o], q).value.writable)
  {
    var t4 := v.roots[o];
    assert EntryTagged(v, t4, q.i4);
    var t3 := Frame(v.mem[t4][q.i4]);
    assert EntryTagged(v, t3, q.i3);
    var t2 := Frame(v.mem[t3][q.i3]);
    assert EntryTagged(v, t2, q.i2);
  }

  lemma OtherTablesStand(mem: Memory, t: nat, i: nat, e: bv64, u: nat, j: nat)
    requires t in mem && i < |mem[t]| && j < ENTRIES && (u != t || j != i)
    ensures At(SetEntry(mem, t, i, e), u, j) == At(mem, u, j)
  {}

  /** Writing a last-level entry leaves every walk to the last level as it was. */
  lemma WalkStands(v: Vm, t: nat, i: nat, e: bv64, o: Owner, q: Page)
    requires WellTagged(v) && t in v.mem && v.tag[t].path.L1? && i < ENTRIES && o in v.roots && IsPage(q)
    ensures var w := SetEntry(v.mem, t, i, e);
      var t4 := v.roots[o];
      && At(w, t4, q.i4) == At(v.mem, t4, q.i4)
      && (Bit(At(v.mem, t4, q.i4), PRESENT) ==>
            var t3 := Frame(At(v.mem, t4, q.i4));
            && At(w, t3, q.i3) == At(v.mem, t3, q.i3)
            && (Bit(At(v.mem, t3, q.i3), PRESENT) ==>
                  var t2 := Frame(At(v.mem, t3, q.i3));
                  At(w, t2, q.i2) == At(v.mem, t2, q.i2)))
  {
    var t4 := v.roots[o];
    assert EntryTagged(v, t4, q.i4);
    OtherTablesStand(v.mem, t, i, e, t4, q.i4);
    var e4 := v.mem[t4][q.i4];
    if Bit(e4, PRESENT) {
      var t3 := Frame(e4);
      assert EntryTagged(v, t3, q.i3);
      OtherTablesStand(v.mem, t, i, e, t3, q.i3);
      var e3 := v.mem[t3][q.i3];
      if Bit(e3, PRESENT) {
        OtherTablesStand(v.mem, t, i, e, Frame(e3), q.i2);
      }
    }
  }

  /** A page keeps its meaning when a leaf entry is written that is not its own. */
  lemma LeafWriteMeaning(v: Vm, t: nat, i: nat, e: bv64, o: Owner, q: Page)
    requires WellTagged(v) && t in v.mem && v.tag[t].path.L1? && i < ENTRIES && o in v.roots && IsPage(q)
    ensures var w := SetEntry(v.mem, t, i, e);
      var k := Walk(v.mem, v.roots[o], q);
      Meaning(w, v.roots[o], q) ==
        if k.Some? && k.value.table == t && q.i1 == i then Small(e, k.value.user, k.value.writable)
        else Meaning(v.mem, v.roots[o], q)
  {
    WalkStands(v, t, i, e, o, q);
    var k := Walk(v.mem, v.roots[o], q);
    if k.Some? && !(k.value.table == t && q.i1 == i) {
      OtherTablesStand(v.mem, t, i, e, k.value.table, q.i1);
    }
  }

  lemma LeafWriteTagged(v: Vm, t: nat, i: nat, e: bv64)
    requires WellTagged(v) && t in v.mem && v.tag[t].path.L1? && i < ENTRIES
    ensures WellTagged(v.(mem := SetEntry(v.mem, t, i, e)))
  {
    var w := v.(mem := SetEntry(v.mem, t, i, e));
    forall u, j | u in w.mem && 0 <= j < |w.mem[u]| ensures u in w.tag && EntryTagged(w, u, j) {
      assert EntryTagged(v, u, j);
    }
  }

  // ---- map_page_in ----

  /** The tables and the frames the allocator will hand out next. */
  datatype Mmu = Mmu(v: Vm, supply: seq<bv64>)

  ghost predicate Valid(m: Mmu) {
    && WellTagged(m.v)
    && (forall i :: 0 <= i < |m.supply| ==> Spare(m.v, m.supply[i]))
    && (forall i, j :: 0 <= i < j < |m.supply| ==> Frame(m.supply[i]) != Frame(m.supply[j]))
  }

  function HangNext(m: Mmu, t: nat, i: nat, content: Table, flags: bv64): Mmu
    requires m.supply != [] && t in m.v.mem && t in m.v.tag && !m.v.tag[t].path.L1? && i < |m.v.mem[t]|
  {
    Mmu(Hang(m.v, t, i, m.supply[0], content, flags), m.supply[1..])
  }

  /** `get_or_create_table` */
  function GetOrCreate(m: Mmu, t: nat, i: nat, flags: bv64): (Mmu, Option<nat>)
    requires t in m.v.mem && t in m.v.tag && !m.v.tag[t].path.L1? && i < |m.v.mem[t]|
  {
    var e := m.v.mem[t][i];
    if Bit(e, PRESENT) then (m, Some(Frame(e)))
    else if m.supply == [] then (m, None)
    else (HangNext(m, t, i, Zeroes(ENTRIES), flags), Some(Frame(m.supply[0])))
  }

  /** `get_or_create_pt`, with `split_two_mb_page` */
  function GetOrCreatePt(m: Mmu, t: nat, i: nat, flags: bv64): (Mmu, Option<nat>)
    requires t in m.v.mem && t in m.v.tag && !m.v.tag[t].path.L1? && i < |m.v.mem[t]|
  {
    var e := m.v.mem[t][i];
    if Bit(e, PRESENT) && Huge(e) then
      if m.supply == [] then (m, None)
      else (HangNext(m, t, i, SplitWords(e, ENTRIES), e), Some(Frame(m.supply[0])))
    else GetOrCreate(m, t, i, flags)
  }

  /** Every page of every space means what it meant. */
  ghost predicate SameMeanings(v: Vm, w: Vm) {
    && v.roots == w.roots
    && forall o, q :: o in v.roots && IsPage(q) ==>
         Meaning(w.mem, v.roots[o], q) == Meaning(v.mem, v.roots[o], q)
  }

  lemma HangNextValid(m: Mmu, t: nat, i: nat, content: Table, flags: bv64)
    requires Valid(m) && m.supply != [] && t in m.v.mem && !m.v.tag[t].path.L1? && i < ENTRIES
    requires |content| == ENTRIES && (Empty(content) || m.v.tag[t].path.L2?)
    ensures Valid(HangNext(m, t, i, content, flags))
  {
    var n := HangNext(m, t, i, content, flags);
    HangTagged(m.v, t, i, m.supply[0], content, flags);
    forall j | 0 <= j < |n.supply| ensures Spare(n.v, n.supply[j]) {
      assert n.supply[j] == m.supply[j + 1];
      assert Spare(m.v, m.supply[j + 1]);
    }
  }

  lemma HangNextMeaning(m: Mmu, t: nat, i: nat, content: Table, flags: bv64)
    requires Valid(m) && m.supply != [] && t in m.v.mem && !m.v.tag[t].path.L1? && i < ENTRIES
    requires Neutral(m.v.tag[t].path, m.v.mem[t][i], content, flags)
    ensures SameMeanings(m.v, HangNext(m, t, i, content, flags).v)
  {
    var n := HangNext(m, t, i, content, flags);
    forall o, q | o in m.v.roots && IsPage(q)
      ensures Meaning(n.v.mem, m.v.roots[o], q) == Meaning(m.v.mem, m.v.roots[o], q)
    {
      HangMeaning(m.v, t, i, m.supply[0], content, flags, o, q);
    }
  }

  /** What a step down does: nothing means anything new, no table changes its tag, and
      the child it returns is the one the entry now refers to. */
  ghost predicate SteppedDown(m: Mmu, t: nat, i: nat, n: Mmu, child: nat) {
    && Valid(n) && SameMeanings(m.v, n.v)
    && (forall u :: u in m.v.mem ==> u in n.v.mem && u in m.v.tag && n.v.tag[u] == m.v.tag[u])
    && t in n.v.mem && i < |n.v.mem[t]| && child in n.v.mem
    && RefersToTable(n.v.tag[t].path, n.v.mem[t][i]) && Frame(n.v.mem[t][i]) == child
  }

  lemma HangLocal(v: Vm, t: nat, i: nat, f: bv64, content: Table, flags: bv64)
    requires t in v.mem && v.mem.Keys == v.tag.Keys && !v.tag[t].path.L1? && i < |v.mem[t]| && Spare(v, f)
    ensures var w := Hang(v, t, i, f, content, flags);
      && (forall u :: u in v.mem ==> u in w.mem && u in w.tag && w.tag[u] == v.tag[u])
      && Frame(f) in w.mem && Frame(f) in w.tag && w.tag[Frame(f)].owner == v.tag[t].owner
      && i < |w.mem[t]| && RefersToTable(v.tag[t].path, w.mem[t][i]) && Frame(w.mem[t][i]) == Frame(f)
  {
    TableEntryBits(f, flags);
  }

  lemma HangNextSteps(m: Mmu, t: nat, i: nat, content: Table, flags: bv64)
    requires Valid(m) && m.supply != [] && t in m.v.mem && !m.v.tag[t].path.L1? && i < ENTRIES
    requires Neutral(m.v.tag[t].path, m.v.mem[t][i], content, flags)
    ensures SteppedDown(m, t, i, HangNext(m, t, i, content, flags), Frame(m.supply[0]))
    ensures HangNext(m, t, i, content, flags).v.tag[Frame(m.supply[0])].owner == m.v.tag[t].owner
  {
    HangLocal(m.v, t, i, m.supply[0], content, flags);
    HangNextValid(m, t, i, content, flags);
    HangNextMeaning(m, t, i, content, flags);
  }
}
