/** Freeing an address space: `free_vm` gives back every table the space owns exactly
    once, every user frame its leaf entries hold, and nothing of the kernel's.
 */
module SpaceFree {
  import opened Basics
  import opened PageTables
  import opened AddressSpaces
  import opened SpaceLife

  ghost predicate Owned(v: Vm, o: Owner, t: nat) {
    o.Space? && t in v.mem && t in v.tag && v.tag[t].owner == o
  }

  /** `free_vm` goes into the table an entry refers to: it is there, it is not the
      kernel's own entry, and at the last level but one it is not a 2 MiB page. */
  predicate Descends(v: Vm, t: nat, i: nat)
    requires Kernel in v.roots && t in v.tag && i < ENTRIES
  {
    var e := At(v.mem, t, i);
    match v.tag[t].path
    case Root => Bit(e, PRESENT) && e != At(v.mem, v.roots[Kernel], i)
    case L3(i4) => Bit(e, PRESENT) && !(i4 == 0 && e == At(v.mem, LowOf(v), i))
    case L2(_, _) => Bit(e, PRESENT) && !Huge(e)
    case L1(_, _, _) => false
  }

  /** An entry that leads out of the space's half is the kernel's own, and is passed over. */
  lemma SharedStays(v: Vm, o: Owner, t: nat, i: nat)
    requires Inv(v) && Owned(v, o, t) && !v.tag[t].path.L1? && i < ENTRIES
    requires RefersToTable(v.tag[t].path, At(v.mem, t, i)) && !UserPath(Child(v.tag[t].path, i))
    ensures !Descends(v, t, i) && !Owned(v, o, Frame(At(v.mem, t, i)))
  {
    ChildOwner(v, o, t, i);
    assert SharedEntry(v, t, i);
  }

  lemma PrivateDescends(v: Vm, o: Owner, t: nat, i: nat)
    requires Inv(v) && Owned(v, o, t) && !v.tag[t].path.L1? && i < ENTRIES
    requires RefersToTable(v.tag[t].path, At(v.mem, t, i)) && UserPath(Child(v.tag[t].path, i))
    ensures Descends(v, t, i) && Owned(v, o, Frame(At(v.mem, t, i)))
  {
    var p := v.tag[t].path;
    ChildOwner(v, o, t, i);
    if p == Root || p == L3(0) {
      KernelAbsent(v, p, i);
    }
  }

  /** Comparing entries with the kernel's tells private tables from shared ones. */
  lemma DescendsIffOwned(v: Vm, o: Owner, t: nat, i: nat)
    requires Inv(v) && Owned(v, o, t) && !v.tag[t].path.L1? && i < ENTRIES
    ensures Descends(v, t, i) <==>
      RefersToTable(v.tag[t].path, At(v.mem, t, i)) && Owned(v, o, Frame(At(v.mem, t, i)))
  {
    var e, p := At(v.mem, t, i), v.tag[t].path;
    if RefersToTable(p, e) {
      if UserPath(Child(p, i)) {
        PrivateDescends(v, o, t, i);
      } else {
        SharedStays(v, o, t, i);
      }
    }
  }

  /** A space's table refers to tables of its own on its own paths and to the kernel's
      elsewhere. */
  lemma ChildOwner(v: Vm, o: Owner, t: nat, i: nat)
    requires Inv(v) && Owned(v, o, t) && i < ENTRIES && RefersToTable(v.tag[t].path, At(v.mem, t, i))
    ensures var c := Frame(At(v.mem, t, i));
      && c in v.mem && c in v.tag
      && v.tag[c].owner == if UserPath(Child(v.tag[t].path, i)) then o else Kernel
    ensures !UserPath(Child(v.tag[t].path, i)) ==> v.tag[t].path == Root || v.tag[t].path == L3(0)
  {
    var c := Frame(At(v.mem, t, i));
    assert EntryTagged(v, t, i);
    assert OwnPath(v.tag[c].owner, v.tag[c].path) && OwnPath(o, v.tag[t].path);
    if Child(v.tag[t].path, i) == L3(0) {
      assert Reach(v.mem, v.roots[o], Root) == Some(t);
    }
  }

  /** On a space's own paths the kernel's twin table has nothing, or its own low table. */
  lemma KernelAbsent(v: Vm, p: Path, i: nat)
    requires Inv(v) && (p == Root || p == L3(0)) && i < ENTRIES && UserPath(Child(p, i))
    ensures var e := At(v.mem, KernelTwin(v, p), i);
      Bit(e, PRESENT) ==> Frame(e) in v.tag && v.tag[Frame(e)].owner == Kernel
  {
    KernelTables(v);
  }

  // ---- the walk ----

  /** The tables below `t` that `free_vm` frees for its first `n` entries, in order. */
  ghost function Tables(v: Vm, o: Owner, t: nat, n: nat): seq<nat>
    requires Inv(v) && Owned(v, o, t) && n <= ENTRIES
    decreases 3 - Depth(v.tag[t].path), n
  {
    if v.tag[t].path.L1? || n == 0 then []
    else Tables(v, o, t, n - 1) + TablesAt(v, o, t, n - 1)
  }

  /** The same for one entry: all below it, then the table itself. */
  ghost function TablesAt(v: Vm, o: Owner, t: nat, i: nat): seq<nat>
    requires Inv(v) && Owned(v, o, t) && i < ENTRIES && !v.tag[t].path.L1?
    decreases 3 - Depth(v.tag[t].path), i, 0
  {
    DescendsIffOwned(v, o, t, i);
    assert EntryTagged(v, t, i);
    if Descends(v, t, i) then
      var c := Frame(At(v.mem, t, i));
      Tables(v, o, c, ENTRIES) + [c]
    else []
  }

  predicate UserLeaf(e: bv64) {
    Bit(e, USER) && Bit(e, ADDR)
  }

  /** The user frames a last-level table's first `n` entries hold. */
  function UserFrames(mem: Memory, t: nat, n: nat): seq<nat>
    requires n <= ENTRIES
  {
    if n == 0 then []
    else
      var e := At(mem, t, n - 1);
      UserFrames(mem, t, n - 1) + if UserLeaf(e) then [Frame(e)] else []
  }

  // ---- which tables: exactly the owned ones ----

  predicate Under(p: Path, r: Path) {
    match p
    case Root => true
    case L3(a) => !r.Root? && r.i4 == a
    case L2(a, b) => (r.L2? || r.L1?) && r.i4 == a && r.i3 == b
    case L1(_, _, _) => r == p
  }

  /** Which entry of the table at `p` leads towards `r`. */
  function Turn(p: Path, r: Path): nat
    requires Under(p, r) && r != p
  {
    match p
    case Root => r.i4
    case L3(_) => r.i3
    case L2(_, _) => r.i2
  }

  lemma UpOwned(v: Vm, o: Owner, x: nat)
    requires Inv(v) && Owned(v, o, x) && !v.tag[x].path.Root?
    ensures var up := Reach(v.mem, v.roots[o], Up(v.tag[x].path));
      && up.Some? && Owned(v, o, up.value) && v.tag[up.value].path == Up(v.tag[x].path)
      && Last(v.tag[x].path) < ENTRIES && Frame(At(v.mem, up.value, Last(v.tag[x].path))) == x
      && RefersToTable(Up(v.tag[x].path), At(v.mem, up.value, Last(v.tag[x].path)))
  {
    var p := v.tag[x].path;
    assert Reach(v.mem, v.roots[o], p) == Some(x);
    ReachTagged(v, o, Up(p));
    assert EntryTagged(v, Reach(v.mem, v.roots[o], Up(p)).value, Last(p));
  }

  lemma OwnedUnique(v: Vm, o: Owner, x: nat, y: nat)
    requires Inv(v) && Owned(v, o, x) && Owned(v, o, y) && v.tag[x].path == v.tag[y].path
    ensures x == y
  {
    assert Reach(v.mem, v.roots[o], v.tag[x].path) == Some(x);
    assert Reach(v.mem, v.roots[o], v.tag[y].path) == Some(y);
  }

  /** Going down from an owned table towards an owned one below it stays among owned
      tables. */
  lemma {:induction false} TurnOwned(v: Vm, o: Owner, t: nat, x: nat)
    requires Inv(v) && Owned(v, o, t) && Owned(v, o, x)
    requires Under(v.tag[t].path, v.tag[x].path) && v.tag[x].path != v.tag[t].path
    ensures var i := Turn(v.tag[t].path, v.tag[x].path);
      && i < ENTRIES && Descends(v, t, i)
      && var c := Frame(At(v.mem, t, i));
      && Owned(v, o, c) && v.tag[c].path == Child(v.tag[t].path, i) && Under(v.tag[c].path, v.tag[x].path)
    decreases Depth(v.tag[x].path)
  {
    UpOwned(v, o, x);
    var p, r := v.tag[t].path, v.tag[x].path;
    var up := Reach(v.mem, v.roots[o], Up(r)).value;
    if Up(r) == p {
      OwnedUnique(v, o, t, up);
      DescendsIffOwned(v, o, t, Turn(p, r));
    } else {
      TurnOwned(v, o, t, up);
    }
  }

  ghost predicate BelowFirst(v: Vm, o: Owner, t: nat, n: nat, x: nat)
    requires t in v.tag
  {
    && Owned(v, o, x) && Under(v.tag[t].path, v.tag[x].path) && v.tag[x].path != v.tag[t].path
    && Turn(v.tag[t].path, v.tag[x].path) < n
  }

  lemma {:induction false} TablesExact(v: Vm, o: Owner, t: nat, n: nat, x: nat)
    requires Inv(v) && Owned(v, o, t) && n <= ENTRIES
    ensures x in Tables(v, o, t, n) <==> BelowFirst(v, o, t, n, x)
    decreases 3 - Depth(v.tag[t].path), n
  {
    if !v.tag[t].path.L1? && n > 0 {
      TablesExact(v, o, t, n - 1, x);
      TablesAtExact(v, o, t, n - 1, x);
    }
  }

  lemma DescendsTo(v: Vm, o: Owner, t: nat, i: nat)
    requires Inv(v) && Owned(v, o, t) && i < ENTRIES && !v.tag[t].path.L1? && Descends(v, t, i)
    ensures var c := Frame(At(v.mem, t, i)); Owned(v, o, c) && v.tag[c].path == Child(v.tag[t].path, i)
  {
    DescendsIffOwned(v, o, t, i);
    assert EntryTagged(v, t, i);
  }

  lemma ChildUnder(p: Path, i: nat, r: Path)
    requires !p.L1?
    ensures Under(Child(p, i), r) <==> Under(p, r) && r != p && Turn(p, r) == i
  {}

  lemma TurnFits(v: Vm, o: Owner, t: nat, x: nat)
    requires Inv(v) && Owned(v, o, t) && Owned(v, o, x)
    requires Under(v.tag[t].path, v.tag[x].path) && v.tag[x].path != v.tag[t].path
    ensures Turn(v.tag[t].path, v.tag[x].path) < ENTRIES
  {
    TurnOwned(v, o, t, x);
  }

  /** What lies below the `i`-th entry: its table, and what lies below that. */
  lemma BelowEntry(v: Vm, o: Owner, t: nat, i: nat, c: nat, x: nat)
    requires Inv(v) && Owned(v, o, t) && i < ENTRIES && !v.tag[t].path.L1?
    requires Owned(v, o, c) && v.tag[c].path == Child(v.tag[t].path, i)
    ensures BelowFirst(v, o, c, ENTRIES, x) || x == c <==>
              BelowFirst(v, o, t, i + 1, x) && !BelowFirst(v, o, t, i, x)
  {
    if Owned(v, o, x) {
      var r := v.tag[x].path;
      ChildUnder(v.tag[t].path, i, r);
      if r == v.tag[c].path {
        OwnedUnique(v, o, x, c);
      } else if Under(v.tag[c].path, r) {
        TurnFits(v, o, c, x);
      }
    }
  }

  lemma NothingBelow(v: Vm, o: Owner, t: nat, i: nat, x: nat)
    requires Inv(v) && Owned(v, o, t) && i < ENTRIES && !Descends(v, t, i)
    ensures BelowFirst(v, o, t, i + 1, x) ==> BelowFirst(v, o, t, i, x)
  {
    if BelowFirst(v, o, t, i + 1, x) {
      TurnOwned(v, o, t, x);
    }
  }

  lemma {:induction false} TablesAtExact(v: Vm, o: Owner, t: nat, i: nat, x: nat)
    requires Inv(v) && Owned(v, o, t) && i < ENTRIES && !v.tag[t].path.L1?
    ensures x in TablesAt(v, o, t, i) <==> BelowFirst(v, o, t, i + 1, x) && !BelowFirst(v, o, t, i, x)
    decreases 3 - Depth(v.tag[t].path), i, 0
  {
    if Descends(v, t, i) {
      var c := Frame(At(v.mem, t, i));
      DescendsTo(v, o, t, i);
      TablesExact(v, o, c, ENTRIES, x);
      BelowEntry(v, o, t, i, c, x);
    } else {
      NothingBelow(v, o, t, i, x);
    }
  }

  // ---- each once ----

  lemma DistinctJoin(a: seq<nat>, b: seq<nat>)
    requires Distinct(a) && Distinct(b) && forall x :: x in a ==> x !in b
    ensures Distinct(a + b)
  {
    var s := a + b;
    forall i, j | 0 <= i < j < |s| ensures s[i] != s[j] {
      if i < |a| <= j {
        assert s[i] in a && s[j] in b;
      }
    }
  }

  lemma {:induction false} TablesDistinct(v: Vm, o: Owner, t: nat, n: nat)
    requires Inv(v) && Owned(v, o, t) && n <= ENTRIES
    ensures Distinct(Tables(v, o, t, n))
    decreases 3 - Depth(v.tag[t].path), n
  {
    if !v.tag[t].path.L1? && n > 0 {
      TablesDistinct(v, o, t, n - 1);
      TablesAtDistinct(v, o, t, n - 1);
      var a, b := Tables(v, o, t, n - 1), TablesAt(v, o, t, n - 1);
      forall x | x in a ensures x !in b {
        TablesExact(v, o, t, n - 1, x);
        TablesAtExact(v, o, t, n - 1, x);
      }
      DistinctJoin(a, b);
    }
  }

  lemma {:induction false} TablesAtDistinct(v: Vm, o: Owner, t: nat, i: nat)
    requires Inv(v) && Owned(v, o, t) && i < ENTRIES && !v.tag[t].path.L1?
    ensures Distinct(TablesAt(v, o, t, i))
    decreases 3 - Depth(v.tag[t].path), i, 0
  {
    DescendsIffOwned(v, o, t, i);
    if Descends(v, t, i) {
      assert EntryTagged(v, t, i);
      var c := Frame(At(v.mem, t, i));
      TablesDistinct(v, o, c, ENTRIES);
      TablesExact(v, o, c, ENTRIES, c);
      DistinctJoin(Tables(v, o, c, ENTRIES), [c]);
    }
  }

  // ---- the frames between the tables ----

  /** The user frames held by the last-level tables of a list. */
  ghost function Leaves(v: Vm, ts: seq<nat>): seq<nat> {
    if ts == [] then []
    else
      var t := ts[|ts| - 1];
      Leaves(v, ts[..|ts| - 1]) +
        if t in v.tag && v.tag[t].path.L1? then UserFrames(v.mem, t, ENTRIES) else []
  }

  /** What is freed for a list of tables: each one, the last-level ones after the user
      frames they hold. */
  ghost function Expand(v: Vm, ts: seq<nat>): seq<nat> {
    if ts == [] then []
    else
      var t := ts[|ts| - 1];
      Expand(v, ts[..|ts| - 1]) + FreedFor(v, t)
  }

  ghost function FreedFor(v: Vm, t: nat): seq<nat> {
    (if t in v.tag && v.tag[t].path.L1? then UserFrames(v.mem, t, ENTRIES) else []) + [t]
  }

  lemma {:induction false} ExpandJoin(v: Vm, a: seq<nat>, b: seq<nat>)
    ensures Expand(v, a + b) == Expand(v, a) + Expand(v, b)
    decreases |b|
  {
    if b == [] {
      assert a + b == a;
    } else {
      var k := |b| - 1;
      assert (a + b)[..|a + b| - 1] == a + b[..k];
      ExpandJoin(v, a, b[..k]);
    }
  }

  lemma {:induction false} ExpandCounts(v: Vm, ts: seq<nat>)
    ensures multiset(Expand(v, ts)) == multiset(ts) + multiset(Leaves(v, ts))
    decreases |ts|
  {
    if ts != [] {
      var k := |ts| - 1;
      ExpandCounts(v, ts[..k]);
      assert ts == ts[..k] + [ts[k]];
    }
  }

  /** The tables of a space, as `free_vm` meets them. */
  ghost function SpaceTables(v: Vm, o: Owner): seq<nat>
    requires Inv(v) && o in v.roots && o.Space?
  {
    Tables(v, o, v.roots[o], ENTRIES) + [v.roots[o]]
  }

  /** `free_vm`, as the list of frames it frees in order. */
  ghost function FreeVm(v: Vm, o: Owner): seq<nat>
    requires Inv(v) && o in v.roots && o.Space?
  {
    Expand(v, SpaceTables(v, o))
  }

  /** `free_vm` frees each table the space owns once, no other table, and besides them
      exactly the user frames of its last-level tables, once per mapping. */
  lemma FreeVmExact(v: Vm, o: Owner)
    requires Inv(v) && o in v.roots && o.Space?
    ensures Distinct(SpaceTables(v, o))
    ensures forall x :: x in SpaceTables(v, o) <==> Owned(v, o, x)
    ensures multiset(FreeVm(v, o)) == multiset(SpaceTables(v, o)) + multiset(Leaves(v, SpaceTables(v, o)))
  {
    var root := v.roots[o];
    TablesDistinct(v, o, root, ENTRIES);
    TablesExact(v, o, root, ENTRIES, root);
    DistinctJoin(Tables(v, o, root, ENTRIES), [root]);
    forall x ensures x in SpaceTables(v, o) <==> Owned(v, o, x) {
      TablesExact(v, o, root, ENTRIES, x);
      if Owned(v, o, x) {
        if v.tag[x].path.Root? {
          OwnedUnique(v, o, x, root);
        } else {
          TurnOwned(v, o, root, x);
        }
      }
    }
    ExpandCounts(v, SpaceTables(v, o));
  }
}
