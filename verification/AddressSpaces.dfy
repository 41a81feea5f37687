/** Address spaces over the page tables: who owns which table, what mapping a page
    does to every space, and what building or freeing a space leaves behind.
 */
module AddressSpaces {
  import opened Basics
  import opened PageTables

  // ---- which paths are private ----

  /** Tables a space keeps for itself: the lower half, except what the low table
      shares with the kernel under its first entry. */
  predicate UserPath(p: Path) {
    match p
    case Root => false
    case L3(i4) => i4 < 256
    case L2(i4, i3) => i4 < 256 && !(i4 == 0 && i3 == 0)
    case L1(i4, i3, _) => i4 < 256 && !(i4 == 0 && i3 == 0)
  }

  /** Where the kernel keeps tables; both sides have a low table of their own. */
  predicate KernelPath(p: Path) {
    !UserPath(p) || p == L3(0)
  }

  /** Pages user programs live in. */
  predicate UserPage(q: Page) {
    IsPage(q) && UserPath(L1(q.i4, q.i3, q.i2))
  }

  /** The indices are the digits of an address to base 512. */
  lemma PageDigits(va: nat)
    requires va < 0x1_0000_0000_0000
    ensures var q := PageOf(va); va / 0x1000 == ((q.i4 * 512 + q.i3) * 512 + q.i2) * 512 + q.i1
  {
    var a, b, c := va / 0x1000, va / 0x20_0000, va / 0x4000_0000;
    assert a / 512 == b && b / 512 == c && c / 512 == va / 0x80_0000_0000;
    assert va / 0x80_0000_0000 % 512 == va / 0x80_0000_0000;
  }

  /** A space's own half begins at 1 GiB and ends at the top of the lower half. */
  lemma UserPageIff(va: nat)
    requires va < 0x1_0000_0000_0000
    ensures UserPage(PageOf(va)) <==> 0x4000_0000 <= va < 0x8000_0000_0000
  {
    PageDigits(va);
  }

  /** Two addresses have the same indices exactly when they are in the same 4 KiB. */
  lemma SamePageIff(va: nat, wa: nat)
    requires va < 0x1_0000_0000_0000 && wa < 0x1_0000_0000_0000
    ensures PageOf(va) == PageOf(wa) <==> va / 0x1000 == wa / 0x1000
  {
    PageDigits(va);
    PageDigits(wa);
  }

  predicate OwnPath(o: Owner, p: Path) {
    if o.Kernel? then KernelPath(p) else p == Root || UserPath(p)
  }

  /** The pages `o` may map: its own half of the addresses. */
  predicate OwnPage(o: Owner, q: Page) {
    IsPage(q) && (o.Space? <==> UserPage(q))
  }

  // ---- the invariant ----

  ghost predicate Placed(v: Vm) {
    forall t :: t in v.tag ==> OwnPath(v.tag[t].owner, v.tag[t].path)
  }

  /** Every space, and the kernel, has a low table of its own. */
  ghost predicate LowOwned(v: Vm) {
    forall o :: o in v.roots ==>
      var e := At(v.mem, v.roots[o], 0);
      Bit(e, PRESENT) && Frame(e) in v.tag && v.tag[Frame(e)].owner == o
  }

  /** The kernel's table in the same place as a space's root or low table. */
  function KernelTwin(v: Vm, p: Path): nat
    requires Kernel in v.roots
  {
    if p.Root? then v.roots[Kernel] else Frame(At(v.mem, v.roots[Kernel], 0))
  }

  /** Entries a space holds outside its own paths are copies of the kernel's. */
  ghost predicate SharedEntry(v: Vm, t: nat, i: nat)
    requires Kernel in v.roots && t in v.tag && i < ENTRIES
  {
    && v.tag[t].owner.Space? && !v.tag[t].path.L1? && Bit(At(v.mem, t, i), PRESENT)
    && !UserPath(Child(v.tag[t].path, i)) ==>
      At(v.mem, t, i) == At(v.mem, KernelTwin(v, v.tag[t].path), i)
  }

  ghost predicate Shared(v: Vm)
    requires Kernel in v.roots
  {
    forall t, i :: t in v.tag && 0 <= i < ENTRIES ==> SharedEntry(v, t, i)
  }

  function Up(p: Path): Path
    requires !p.Root?
  {
    match p
    case L3(i4) => Root
    case L2(i4, i3) => L3(i4)
    case L1(i4, i3, i2) => L2(i4, i3)
  }

  function Last(p: Path): nat
    requires !p.Root?
  {
    match p
    case L3(i4) => i4
    case L2(i4, i3) => i3
    case L1(i4, i3, i2) => i2
  }

  function Depth(p: Path): nat {
    match p
    case Root => 0
    case L3(_) => 1
    case L2(_, _) => 2
    case L1(_, _, _) => 3
  }

  /** The table found by following a path from a root. */
  function Reach(mem: Memory, root: nat, p: Path): Option<nat>
    decreases Depth(p)
  {
    if p.Root? then Some(root)
    else
      var up := Reach(mem, root, Up(p));
      if up.None? || Last(p) >= ENTRIES then None
      else
        var e := At(mem, up.value, Last(p));
        if RefersToTable(Up(p), e) then Some(Frame(e)) else None
  }

  /** Every table a space owns is the one its root leads to along the tag's path. */
  ghost predicate Linked(v: Vm) {
    forall t :: t in v.tag && v.tag[t].owner.Space? ==>
      v.tag[t].owner in v.roots && Reach(v.mem, v.roots[v.tag[t].owner], v.tag[t].path) == Some(t)
  }

  /** On its own paths a space leads to tables only, and lets user code through. */
  ghost predicate OpenEntry(v: Vm, t: nat, i: nat)
    requires t in v.tag && i < ENTRIES
  {
    var e := At(v.mem, t, i);
    && v.tag[t].owner.Space? && !v.tag[t].path.L1? && Bit(e, PRESENT) && UserPath(Child(v.tag[t].path, i)) ==>
      Bit(e, USER) && Bit(e, WRITABLE) && !Huge(e)
  }

  ghost predicate Open(v: Vm) {
    forall t, i :: t in v.tag && 0 <= i < ENTRIES ==> OpenEntry(v, t, i)
  }

  /** The kernel's own first entries: a low table, and under it one closed to user code. */
  predicate KernelLow(v: Vm)
    requires Kernel in v.roots
  {
    var e4 := At(v.mem, v.roots[Kernel], 0);
    var e3 := At(v.mem, Frame(e4), 0);
    Bit(e4, PRESENT) && Bit(e4, WRITABLE) && !Bit(e4, USER) && Bit(e3, PRESENT) && !Bit(e3, USER)
  }

  ghost predicate Inv(v: Vm) {
    WellTagged(v) && Placed(v) && LowOwned(v) && Shared(v) && Linked(v) && Open(v) && KernelLow(v)
  }

  // ---- growth: what every change to the tables keeps ----

  /** Tables stay, keep their tags, and keep every entry that refers to a table. */
  ghost predicate Grows(v: Vm, w: Vm) {
    && (forall t :: t in v.mem ==> t in w.mem && t in v.tag && t in w.tag && w.tag[t] == v.tag[t])
    && (forall o :: o in v.roots ==> o in w.roots && w.roots[o] == v.roots[o])
    && forall t, i :: t in v.mem && 0 <= i < ENTRIES && RefersToTable(v.tag[t].path, At(v.mem, t, i)) ==>
         At(w.mem, t, i) == At(v.mem, t, i)
  }

  lemma {:induction false} ReachTagged(v: Vm, o: Owner, p: Path)
    requires WellTagged(v) && o in v.roots && Reach(v.mem, v.roots[o], p).Some?
    ensures var t := Reach(v.mem, v.roots[o], p).value;
      && t in v.mem && v.tag[t].path == p && (v.tag[t].owner == o || v.tag[t].owner == Kernel)
    decreases Depth(p)
  {
    if !p.Root? {
      ReachTagged(v, o, Up(p));
      assert EntryTagged(v, Reach(v.mem, v.roots[o], Up(p)).value, Last(p));
    }
  }

  lemma {:induction false} ReachGrows(v: Vm, w: Vm, o: Owner, p: Path)
    requires WellTagged(v) && Grows(v, w) && o in v.roots && Reach(v.mem, v.roots[o], p).Some?
    ensures Reach(w.mem, w.roots[o], p) == Reach(v.mem, v.roots[o], p)
    decreases Depth(p)
  {
    if !p.Root? {
      ReachTagged(v, o, Up(p));
      ReachGrows(v, w, o, Up(p));
    }
  }

  lemma HangGrows(v: Vm, t: nat, i: nat, f: bv64, content: Table, flags: bv64)
    requires WellTagged(v) && t in v.mem && !v.tag[t].path.L1? && i < ENTRIES && Spare(v, f)
    requires !RefersToTable(v.tag[t].path, v.mem[t][i])
    ensures Grows(v, Hang(v, t, i, f, content, flags))
  {}

  lemma LeafWriteGrows(v: Vm, t: nat, i: nat, e: bv64)
    requires WellTagged(v) && t in v.mem && v.tag[t].path.L1? && i < ENTRIES
    ensures Grows(v, v.(mem := SetEntry(v.mem, t, i, e)))
  {}

  lemma HangReach(v: Vm, o: Owner, t: nat, i: nat, f: bv64, content: Table, flags: bv64)
    requires WellTagged(v) && o in v.roots && t in v.mem && !v.tag[t].path.L1? && i < ENTRIES && Spare(v, f)
    requires !RefersToTable(v.tag[t].path, v.mem[t][i])
    requires Reach(v.mem, v.roots[o], v.tag[t].path) == Some(t)
    ensures Reach(Hang(v, t, i, f, content, flags).mem, v.roots[o], Child(v.tag[t].path, i)) == Some(Frame(f))
  {
    var w := Hang(v, t, i, f, content, flags);
    HangGrows(v, t, i, f, content, flags);
    ReachGrows(v, w, o, v.tag[t].path);
    TableEntryBits(f, flags);
    assert Up(Child(v.tag[t].path, i)) == v.tag[t].path && Last(Child(v.tag[t].path, i)) == i;
  }

  lemma HangLinked(v: Vm, t: nat, i: nat, f: bv64, content: Table, flags: bv64)
    requires WellTagged(v) && Linked(v) && t in v.mem && !v.tag[t].path.L1? && i < ENTRIES && Spare(v, f)
    requires !RefersToTable(v.tag[t].path, v.mem[t][i])
    ensures Linked(Hang(v, t, i, f, content, flags))
  {
    var w := Hang(v, t, i, f, content, flags);
    HangGrows(v, t, i, f, content, flags);
    forall u | u in w.tag && w.tag[u].owner.Space?
      ensures w.tag[u].owner in w.roots && Reach(w.mem, w.roots[w.tag[u].owner], w.tag[u].path) == Some(u)
    {
      if u == Frame(f) {
        HangReach(v, v.tag[t].owner, t, i, f, content, flags);
      } else {
        ReachGrows(v, w, v.tag[u].owner, v.tag[u].path);
      }
    }
  }

  /** A space's entries outside its own paths sit in its root and its low table. */
  lemma SharedPlaces(v: Vm, t: nat, i: nat)
    requires Inv(v) && t in v.tag && v.tag[t].owner.Space? && !v.tag[t].path.L1? && i < ENTRIES
    requires !UserPath(Child(v.tag[t].path, i))
    ensures v.tag[t].path == Root || v.tag[t].path == L3(0)
    ensures var twin := KernelTwin(v, v.tag[t].path);
      twin in v.mem && v.tag[twin] == Tag(Kernel, v.tag[t].path)
  {
    assert OwnPath(v.tag[t].owner, v.tag[t].path);
    assert EntryTagged(v, v.roots[Kernel], 0);
  }

  lemma SharedGrows(v: Vm, w: Vm, t: nat, i: nat)
    requires Inv(v) && Grows(v, w) && t in v.tag && i < ENTRIES && Kernel in w.roots
    requires v.tag[t].owner.Space? && !v.tag[t].path.L1? && !UserPath(Child(v.tag[t].path, i))
    requires At(w.mem, t, i) == At(v.mem, t, i)
    ensures SharedEntry(w, t, i)
  {
    assert SharedEntry(v, t, i);
    if Bit(At(v.mem, t, i), PRESENT) {
      SharedPlaces(v, t, i);
      var twin := KernelTwin(v, v.tag[t].path);
      assert RefersToTable(v.tag[twin].path, At(v.mem, twin, i));
      assert RefersToTable(Root, At(v.mem, v.roots[Kernel], 0));
      assert At(w.mem, v.roots[Kernel], 0) == At(v.mem, v.roots[Kernel], 0);
    }
  }

  lemma HangShared(v: Vm, t: nat, i: nat, f: bv64, content: Table, flags: bv64)
    requires Inv(v) && t in v.mem && !v.tag[t].path.L1? && i < ENTRIES && Spare(v, f)
    requires !RefersToTable(v.tag[t].path, v.mem[t][i])
    requires OwnPath(v.tag[t].owner, Child(v.tag[t].path, i)) && |content| == ENTRIES
    requires Empty(content) || v.tag[t].path.L2?
    ensures Shared(Hang(v, t, i, f, content, flags))
  {
    var w := Hang(v, t, i, f, content, flags);
    HangGrows(v, t, i, f, content, flags);
    forall u, j | u in w.tag && 0 <= j < ENTRIES ensures SharedEntry(w, u, j) {
      if u != Frame(f) && v.tag[u].owner.Space? && !v.tag[u].path.L1? && !UserPath(Child(v.tag[u].path, j)) {
        HangStands(v, t, i, f, content, flags, u, j);
        SharedGrows(v, w, u, j);
      }
    }
  }

  lemma HangOpen(v: Vm, t: nat, i: nat, f: bv64, content: Table, flags: bv64)
    requires WellTagged(v) && Open(v) && t in v.mem && !v.tag[t].path.L1? && i < ENTRIES && Spare(v, f)
    requires v.tag[t].owner.Space? ==> Bit(flags, USER)
    requires Empty(content) || v.tag[t].path.L2?
    ensures Open(Hang(v, t, i, f, content, flags))
  {
    var w := Hang(v, t, i, f, content, flags);
    TableEntryBits(f, flags);
    forall u, j | u in w.tag && 0 <= j < ENTRIES ensures OpenEntry(w, u, j) {
      if u != Frame(f) && (u != t || j != i) {
        HangStands(v, t, i, f, content, flags, u, j);
        assert OpenEntry(v, u, j);
      }
    }
  }

  lemma LowOwnedGrows(v: Vm, w: Vm)
    requires WellTagged(v) && LowOwned(v) && KernelLow(v) && Grows(v, w) && w.roots == v.roots
    ensures LowOwned(w) && KernelLow(w)
  {
    assert EntryTagged(v, v.roots[Kernel], 0);
    assert RefersToTable(L3(0), At(v.mem, Frame(At(v.mem, v.roots[Kernel], 0)), 0));
    forall o | o in w.roots
      ensures var e := At(w.mem, w.roots[o], 0);
        Bit(e, PRESENT) && Frame(e) in w.tag && w.tag[Frame(e)].owner == o
    {
      assert RefersToTable(v.tag[v.roots[o]].path, At(v.mem, v.roots[o], 0));
      assert EntryTagged(v, v.roots[o], 0);
    }
  }

  /** Hanging a table on one of its owner's own paths keeps the invariant. */
  lemma HangKeeps(v: Vm, t: nat, i: nat, f: bv64, content: Table, flags: bv64)
    requires Inv(v) && t in v.mem && !v.tag[t].path.L1? && i < ENTRIES && Spare(v, f)
    requires !RefersToTable(v.tag[t].path, v.mem[t][i])
    requires OwnPath(v.tag[t].owner, Child(v.tag[t].path, i)) && |content| == ENTRIES
    requires Empty(content) || v.tag[t].path.L2?
    requires v.tag[t].owner.Space? ==> Bit(flags, USER)
    ensures Inv(Hang(v, t, i, f, content, flags))
  {
    var w := Hang(v, t, i, f, content, flags);
    HangTagged(v, t, i, f, content, flags);
    HangLinked(v, t, i, f, content, flags);
    HangShared(v, t, i, f, content, flags);
    HangOpen(v, t, i, f, content, flags);
    HangGrows(v, t, i, f, content, flags);
    LowOwnedGrows(v, w);
  }

  lemma LeafWriteLinked(v: Vm, t: nat, i: nat, e: bv64)
    requires WellTagged(v) && Linked(v) && t in v.mem && v.tag[t].path.L1? && i < ENTRIES
    ensures Linked(v.(mem := SetEntry(v.mem, t, i, e)))
  {
    var w := v.(mem := SetEntry(v.mem, t, i, e));
    LeafWriteGrows(v, t, i, e);
    forall u | u in w.tag && w.tag[u].owner.Space?
      ensures w.tag[u].owner in w.roots && Reach(w.mem, w.roots[w.tag[u].owner], w.tag[u].path) == Some(u)
    {
      ReachGrows(v, w, v.tag[u].owner, v.tag[u].path);
    }
  }

  lemma LeafWriteShared(v: Vm, t: nat, i: nat, e: bv64)
    requires Inv(v) && t in v.mem && v.tag[t].path.L1? && i < ENTRIES
    ensures Shared(v.(mem := SetEntry(v.mem, t, i, e)))
  {
    var w := v.(mem := SetEntry(v.mem, t, i, e));
    LeafWriteGrows(v, t, i, e);
    forall u, j | u in w.tag && 0 <= j < ENTRIES ensures SharedEntry(w, u, j) {
      if v.tag[u].owner.Space? && !v.tag[u].path.L1? && !UserPath(Child(v.tag[u].path, j)) {
        SharedGrows(v, w, u, j);
      }
    }
  }

  lemma LeafWriteOpen(v: Vm, t: nat, i: nat, e: bv64)
    requires WellTagged(v) && Open(v) && t in v.mem && v.tag[t].path.L1? && i < ENTRIES
    ensures Open(v.(mem := SetEntry(v.mem, t, i, e)))
  {
    var w := v.(mem := SetEntry(v.mem, t, i, e));
    forall u, j | u in w.tag && 0 <= j < ENTRIES ensures OpenEntry(w, u, j) {
      assert OpenEntry(v, u, j);
    }
  }

  lemma LeafWriteKeeps(v: Vm, t: nat, i: nat, e: bv64)
    requires Inv(v) && t in v.mem && v.tag[t].path.L1? && i < ENTRIES
    ensures Inv(v.(mem := SetEntry(v.mem, t, i, e)))
  {
    LeafWriteTagged(v, t, i, e);
    LeafWriteGrows(v, t, i, e);
    LeafWriteLinked(v, t, i, e);
    LeafWriteShared(v, t, i, e);
    LeafWriteOpen(v, t, i, e);
    LowOwnedGrows(v, v.(mem := SetEntry(v.mem, t, i, e)));
  }

  // ---- map_page_in ----

  ghost predicate Sound(m: Mmu) {
    Valid(m) && Inv(m.v)
  }

  /** One level down: `get_or_create_pt` at the page directory, `get_or_create_table`
      above it. */
  function StepDown(m: Mmu, t: nat, i: nat, flags: bv64): (Mmu, Option<nat>)
    requires t in m.v.mem && t in m.v.tag && !m.v.tag[t].path.L1? && i < |m.v.mem[t]|
  {
    if m.v.tag[t].path.L2? then GetOrCreatePt(m, t, i, flags) else GetOrCreate(m, t, i, flags)
  }

  /** A table of `o` at path `p`, reached from its root. */
  ghost predicate Stands(m: Mmu, o: Owner, p: Path, t: nat) {
    && o in m.v.roots && t in m.v.mem && t in m.v.tag && m.v.tag[t] == Tag(o, p)
    && Reach(m.v.mem, m.v.roots[o], p) == Some(t)
  }

  /** Which flags a step may carry: user mappings are the ones made in spaces. */
  predicate FlagsFit(o: Owner, flags: bv64) {
    o.Space? ==> Bit(flags, USER)
  }

  lemma HangSteps(m: Mmu, o: Owner, p: Path, t: nat, i: nat, content: Table, flags: bv64)
    requires Sound(m) && Stands(m, o, p, t) && !p.L1? && i < ENTRIES && OwnPath(o, Child(p, i)) && FlagsFit(o, flags)
    requires m.supply != [] && Neutral(p, m.v.mem[t][i], content, flags)
    ensures var n := HangNext(m, t, i, content, flags);
      && Sound(n) && Stands(n, o, Child(p, i), Frame(m.supply[0])) && SameMeanings(m.v, n.v) && Grows(m.v, n.v)
  {
    var n := HangNext(m, t, i, content, flags);
    var f := m.supply[0];
    HangNextSteps(m, t, i, content, flags);
    HangKeeps(m.v, t, i, f, content, flags);
    HangGrows(m.v, t, i, f, content, flags);
    HangReach(m.v, o, t, i, f, content, flags);
  }

  lemma ChildStands(m: Mmu, o: Owner, p: Path, t: nat, i: nat)
    requires Sound(m) && Stands(m, o, p, t) && !p.L1? && i < ENTRIES && OwnPath(o, Child(p, i))
    requires RefersToTable(p, m.v.mem[t][i])
    ensures Stands(m, o, Child(p, i), Frame(m.v.mem[t][i]))
  {
    assert EntryTagged(m.v, t, i);
    var c := Frame(m.v.mem[t][i]);
    assert OwnPath(m.v.tag[c].owner, m.v.tag[c].path);
  }

  /** A step that makes a table: an empty one, or the parts of a 2 MiB page. */
  lemma MakeSteps(m: Mmu, o: Owner, p: Path, t: nat, i: nat, flags: bv64)
    requires Sound(m) && Stands(m, o, p, t) && !p.L1? && i < ENTRIES && OwnPath(o, Child(p, i)) && FlagsFit(o, flags)
    requires !RefersToTable(p, m.v.mem[t][i]) && m.supply != []
    ensures var (n, c) := StepDown(m, t, i, flags);
      && Sound(n) && SameMeanings(m.v, n.v) && Grows(m.v, n.v)
      && c == Some(Frame(m.supply[0])) && Stands(n, o, Child(p, i), Frame(m.supply[0]))
  {
    var e := m.v.mem[t][i];
    if Bit(e, PRESENT) {
      assert OpenEntry(m.v, t, i);
      HangSteps(m, o, p, t, i, SplitWords(e, ENTRIES), e);
    } else {
      HangSteps(m, o, p, t, i, Zeroes(ENTRIES), flags);
    }
  }

  /** A step down leads to the owner's own table, changes no translation anywhere and
      fails only when frames have run out. */
  lemma StepDownSteps(m: Mmu, o: Owner, p: Path, t: nat, i: nat, flags: bv64)
    requires Sound(m) && Stands(m, o, p, t) && !p.L1? && i < ENTRIES && OwnPath(o, Child(p, i)) && FlagsFit(o, flags)
    ensures var (n, c) := StepDown(m, t, i, flags);
      && Sound(n) && SameMeanings(m.v, n.v) && Grows(m.v, n.v)
      && (if c.Some? then Stands(n, o, Child(p, i), c.value) else n == m && m.supply == [])
  {
    if RefersToTable(p, m.v.mem[t][i]) {
      ChildStands(m, o, p, t, i);
    } else if m.supply != [] {
      MakeSteps(m, o, p, t, i, flags);
    }
  }

  lemma GrowsOn(u: Vm, v: Vm, w: Vm)
    requires WellTagged(u) && WellTagged(v) && Grows(u, v) && Grows(v, w) && SameMeanings(u, v) && SameMeanings(v, w)
    ensures Grows(u, w) && SameMeanings(u, w)
  {
    forall t, i | t in u.mem && 0 <= i < ENTRIES && RefersToTable(u.tag[t].path, At(u.mem, t, i))
      ensures At(w.mem, t, i) == At(u.mem, t, i)
    {
      assert At(v.mem, t, i) == At(u.mem, t, i);
    }
  }

  /** What making room leaves as it was. */
  ghost predicate Kept(m: Mmu, n: Mmu) {
    Sound(n) && SameMeanings(m.v, n.v) && Grows(m.v, n.v)
  }

  /** How far `map_page_in` has come: the state, and the table it stands at unless the
      frames ran out. */
  datatype Progress = Progress(m: Mmu, at: Option<nat>)

  ghost predicate Got(m: Mmu, r: Progress, o: Owner, p: Path) {
    Kept(m, r.m) && if r.at.Some? then Stands(r.m, o, p, r.at.value) else r.m.supply == []
  }

  function Onward(r: Progress, i: nat, flags: bv64): Progress
    requires r.at.Some? ==> r.at.value in r.m.v.mem && i < |r.m.v.mem[r.at.value]|
    requires r.at.Some? ==> r.at.value in r.m.v.tag && !r.m.v.tag[r.at.value].path.L1?
  {
    if r.at.None? then r
    else
      var (n, c) := StepDown(r.m, r.at.value, i, flags);
      Progress(n, c)
  }

  lemma OnwardGets(m: Mmu, r: Progress, o: Owner, p: Path, i: nat, flags: bv64)
    requires Sound(m) && Got(m, r, o, p)
    requires !p.L1? && i < ENTRIES && OwnPath(o, Child(p, i)) && FlagsFit(o, flags)
    ensures Got(m, Onward(r, i, flags), o, Child(p, i))
  {
    if r.at.Some? {
      StepDownSteps(r.m, o, p, r.at.value, i, flags);
      GrowsOn(m.v, r.m.v, StepDown(r.m, r.at.value, i, flags).0.v);
    }
  }

  lemma StartGets(m: Mmu, o: Owner)
    requires Sound(m) && o in m.v.roots
    ensures Got(m, Progress(m, Some(m.v.roots[o])), o, Root)
  {}

  /** The first two levels of `map_page_in`. */
  function FindPd(m: Mmu, o: Owner, q: Page, flags: bv64): Progress
    requires Sound(m) && o in m.v.roots && OwnPage(o, q) && FlagsFit(o, flags)
  {
    var r4 := Progress(m, Some(m.v.roots[o]));
    StartGets(m, o);
    OnwardGets(m, r4, o, Root, q.i4, flags);
    Onward(Onward(r4, q.i4, flags), q.i3, flags)
  }

  lemma FindPdKeeps(m: Mmu, o: Owner, q: Page, flags: bv64)
    requires Sound(m) && o in m.v.roots && OwnPage(o, q) && FlagsFit(o, flags)
    ensures Got(m, FindPd(m, o, q, flags), o, L2(q.i4, q.i3))
  {
    var r4 := Progress(m, Some(m.v.roots[o]));
    StartGets(m, o);
    OnwardGets(m, r4, o, Root, q.i4, flags);
    OnwardGets(m, Onward(r4, q.i4, flags), o, L3(q.i4), q.i3, flags);
  }

  /** `map_page_in` down to the last-level table. */
  function FindPt(m: Mmu, o: Owner, q: Page, flags: bv64): Progress
    requires Sound(m) && o in m.v.roots && OwnPage(o, q) && FlagsFit(o, flags)
  {
    FindPdKeeps(m, o, q, flags);
    Onward(FindPd(m, o, q, flags), q.i2, flags)
  }

  /** Making room for a mapping changes no translation of any space, and fails only
      when frames run out. */
  lemma FindPtKeeps(m: Mmu, o: Owner, q: Page, flags: bv64)
    requires Sound(m) && o in m.v.roots && OwnPage(o, q) && FlagsFit(o, flags)
    ensures Got(m, FindPt(m, o, q, flags), o, L1(q.i4, q.i3, q.i2))
  {
    FindPdKeeps(m, o, q, flags);
    OnwardGets(m, FindPd(m, o, q, flags), o, L2(q.i4, q.i3), q.i2, flags);
  }

  function WriteLeaf(m: Mmu, t: nat, i: nat, e: bv64): Mmu
    requires t in m.v.mem && i < |m.v.mem[t]|
  {
    m.(v := m.v.(mem := SetEntry(m.v.mem, t, i, e)))
  }

  function Finished(r: Progress, i: nat, e: bv64): (Mmu, bool)
    requires r.at.Some? ==> r.at.value in r.m.v.mem && i < |r.m.v.mem[r.at.value]|
  {
    if r.at.None? then (r.m, false) else (WriteLeaf(r.m, r.at.value, i, e), true)
  }

  /** `map_page_in`, for the page a virtual address names. */
  function MapPageIn(m: Mmu, o: Owner, q: Page, physical: bv64, flags: bv64): (Mmu, bool)
    requires Sound(m) && o in m.v.roots && OwnPage(o, q) && FlagsFit(o, flags)
  {
    FindPtKeeps(m, o, q, flags);
    Finished(FindPt(m, o, q, flags), q.i1, physical | flags)
  }

  lemma ReachWalk(mem: Memory, root: nat, q: Page)
    requires IsPage(q) && Reach(mem, root, L1(q.i4, q.i3, q.i2)).Some?
    ensures Walk(mem, root, q).Some?
    ensures Walk(mem, root, q).value.table == Reach(mem, root, L1(q.i4, q.i3, q.i2)).value
  {
    assert Reach(mem, root, L2(q.i4, q.i3)).Some?;
    assert Reach(mem, root, L3(q.i4)).Some?;
  }

  /** In a space every walk on a user path grants all rights; the leaf decides. */
  lemma OpenWalk(v: Vm, o: Owner, q: Page)
    requires Inv(v) && o in v.roots && o.Space? && UserPage(q) && Walk(v.mem, v.roots[o], q).Some?
    ensures Walk(v.mem, v.roots[o], q).value.user && Walk(v.mem, v.roots[o], q).value.writable
  {
    var t4 := v.roots[o];
    assert EntryTagged(v, t4, q.i4) && OpenEntry(v, t4, q.i4);
    var t3 := Frame(v.mem[t4][q.i4]);
    assert OwnPath(v.tag[t3].owner, v.tag[t3].path);
    assert EntryTagged(v, t3, q.i3) && OpenEntry(v, t3, q.i3);
    var t2 := Frame(v.mem[t3][q.i3]);
    assert OwnPath(v.tag[t2].owner, v.tag[t2].path);
    assert OpenEntry(v, t2, q.i2);
  }

  /** Where a leaf write shows: on one page, and beyond its owner only when the owner
      is the kernel. */
  lemma LeafWriteShows(v: Vm, o: Owner, t: nat, e: bv64, q: Page, o': Owner, q': Page)
    requires Inv(v) && IsPage(q) && IsPage(q') && o' in v.roots
    requires t in v.mem && v.tag[t] == Tag(o, L1(q.i4, q.i3, q.i2))
    requires q' != q || (o.Space? && o' != o)
    ensures Meaning(SetEntry(v.mem, t, q.i1, e), v.roots[o'], q') == Meaning(v.mem, v.roots[o'], q')
  {
    LeafWriteMeaning(v, t, q.i1, e, o', q');
    if Walk(v.mem, v.roots[o'], q').Some? {
      WalkTagged(v, o', q');
    }
  }

  lemma LeafWriteSupply(m: Mmu, t: nat, i: nat, e: bv64)
    requires Valid(m) && t in m.v.mem && m.v.tag[t].path.L1? && i < ENTRIES
    ensures Valid(WriteLeaf(m, t, i, e))
  {
    LeafWriteTagged(m.v, t, i, e);
    var n := WriteLeaf(m, t, i, e);
    forall j | 0 <= j < |n.supply| ensures Spare(n.v, n.supply[j]) {
      assert Spare(m.v, m.supply[j]);
    }
  }

  lemma LeafWriteSound(m: Mmu, t: nat, i: nat, e: bv64)
    requires Sound(m) && t in m.v.mem && m.v.tag[t].path.L1? && i < ENTRIES
    ensures Sound(WriteLeaf(m, t, i, e))
  {
    LeafWriteSupply(m, t, i, e);
    LeafWriteKeeps(m.v, t, i, e);
  }

  /** A page means the word `e` under whatever rights its path grants; in a space the
      path grants all of them. */
  predicate Means(mem: Memory, root: nat, o: Owner, q: Page, e: bv64)
    requires IsPage(q)
  {
    var k := Walk(mem, root, q);
    && k.Some? && Meaning(mem, root, q) == Small(e, k.value.user, k.value.writable)
    && (o.Space? ==> k.value.user && k.value.writable)
  }

  /** What a leaf write in `o`'s own table makes of the page. */
  lemma LeafWriteHere(m: Mmu, o: Owner, t: nat, e: bv64, q: Page)
    requires Sound(m) && OwnPage(o, q) && Stands(m, o, L1(q.i4, q.i3, q.i2), t)
    ensures Means(WriteLeaf(m, t, q.i1, e).v.mem, m.v.roots[o], o, q, e)
  {
    ReachWalk(m.v.mem, m.v.roots[o], q);
    LeafWriteMeaning(m.v, t, q.i1, e, o, q);
    WalkStands(m.v, t, q.i1, e, o, q);
    if o.Space? {
      OpenWalk(m.v, o, q);
    }
  }

  lemma FinishedKeeps(m: Mmu, r: Progress, o: Owner, q: Page, e: bv64)
    requires Sound(m) && OwnPage(o, q) && Got(m, r, o, L1(q.i4, q.i3, q.i2)) && o in m.v.roots
    ensures var (n, ok) := Finished(r, q.i1, e);
      && Sound(n) && n.v.roots == m.v.roots
      && (if ok then Means(n.v.mem, m.v.roots[o], o, q, e) else n.supply == [] && SameMeanings(m.v, n.v))
  {
    if r.at.Some? {
      LeafWriteSound(r.m, r.at.value, q.i1, e);
      LeafWriteHere(r.m, o, r.at.value, e, q);
    }
  }

  lemma FinishedElsewhere(m: Mmu, r: Progress, o: Owner, q: Page, e: bv64, o': Owner, q': Page)
    requires Sound(m) && OwnPage(o, q) && Got(m, r, o, L1(q.i4, q.i3, q.i2))
    requires o' in m.v.roots && IsPage(q') && (q' != q || (o.Space? && o' != o))
    ensures Meaning(Finished(r, q.i1, e).0.v.mem, m.v.roots[o'], q') == Meaning(m.v.mem, m.v.roots[o'], q')
  {
    if r.at.Some? {
      LeafWriteShows(r.m.v, o, r.at.value, e, q, o', q');
    }
  }

  /** Mapping a page keeps the invariant; failure (only for want of frames) changes no
      translation, and success makes the page mean the word written. */
  lemma MapPageInKeeps(m: Mmu, o: Owner, q: Page, physical: bv64, flags: bv64)
    requires Sound(m) && o in m.v.roots && OwnPage(o, q) && FlagsFit(o, flags)
    ensures var (n, ok) := MapPageIn(m, o, q, physical, flags);
      && Sound(n) && n.v.roots == m.v.roots
      && (if ok then Means(n.v.mem, m.v.roots[o], o, q, physical | flags)
          else n.supply == [] && SameMeanings(m.v, n.v))
  {
    FindPtKeeps(m, o, q, flags);
    FinishedKeeps(m, FindPt(m, o, q, flags), o, q, physical | flags);
  }

  /** Mapping a page changes no other page of any space; made in a space, it is seen by
      no other space and not by the kernel. */
  lemma MapPageInElsewhere(m: Mmu, o: Owner, q: Page, physical: bv64, flags: bv64, o': Owner, q': Page)
    requires Sound(m) && o in m.v.roots && OwnPage(o, q) && FlagsFit(o, flags)
    requires o' in m.v.roots && IsPage(q') && (q' != q || (o.Space? && o' != o))
    ensures Meaning(MapPageIn(m, o, q, physical, flags).0.v.mem, m.v.roots[o'], q')
      == Meaning(m.v.mem, m.v.roots[o'], q')
  {
    FindPtKeeps(m, o, q, flags);
    FinishedElsewhere(m, FindPt(m, o, q, flags), o, q, physical | flags, o', q');
  }
}
