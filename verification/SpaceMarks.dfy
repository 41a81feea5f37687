/** The accessed bit, which the processor sets in the entries it walks.  It changes no
    translation, but `free_vm` compares whole entries with the kernel's.
 */
module SpaceMarks {
  import opened PageTables
  import opened AddressSpaces
  import opened SpaceLife
  import opened SpaceFree

  const ACCESSED: bv64 := 0x20

  /** Which entries, by table and place, have been walked since they were written. */
  type Marks = set<(nat, nat)>

  function Mark(e: bv64): bv64 {
    e | ACCESSED
  }

  /** An entry as it stands in memory. */
  function SeenAt(v: Vm, marks: Marks, t: nat, i: nat): bv64
    requires i < ENTRIES
  {
    if (t, i) in marks then Mark(At(v.mem, t, i)) else At(v.mem, t, i)
  }

  lemma MarkPresent(e: bv64)
    ensures Bit(Mark(e), PRESENT) == Bit(e, PRESENT) && Huge(Mark(e)) == Huge(e)
  {}

  lemma MarkFrame(e: bv64)
    ensures Frame(Mark(e)) == Frame(e)
  {
    assert (e | ACCESSED) & ADDR == e & ADDR;
  }

  lemma MarkSameIff(e: bv64)
    ensures Mark(e) == e <==> Bit(e, ACCESSED)
  {}

  lemma SeenBits(v: Vm, marks: Marks, t: nat, i: nat)
    requires i < ENTRIES
    ensures Bit(SeenAt(v, marks, t, i), PRESENT) == Bit(At(v.mem, t, i), PRESENT)
    ensures Huge(SeenAt(v, marks, t, i)) == Huge(At(v.mem, t, i))
    ensures Frame(SeenAt(v, marks, t, i)) == Frame(At(v.mem, t, i))
  {
    MarkPresent(At(v.mem, t, i));
    MarkFrame(At(v.mem, t, i));
  }

  /** What `free_vm` goes into, on the tables as they stand. */
  predicate DescendsOn(v: Vm, marks: Marks, t: nat, i: nat)
    requires Kernel in v.roots && t in v.tag && i < ENTRIES
  {
    var e := SeenAt(v, marks, t, i);
    match v.tag[t].path
    case Root => Bit(e, PRESENT) && e != SeenAt(v, marks, v.roots[Kernel], i)
    case L3(i4) =>
      Bit(e, PRESENT) && !(i4 == 0 && e == SeenAt(v, marks, Frame(SeenAt(v, marks, v.roots[Kernel], 0)), i))
    case L2(_, _) => Bit(e, PRESENT) && !Huge(e)
    case L1(_, _, _) => false
  }

  /** Before anything is walked this is the comparison of `SpaceFree`. */
  lemma UnmarkedIs(v: Vm, t: nat, i: nat)
    requires Kernel in v.roots && t in v.tag && i < ENTRIES
    ensures DescendsOn(v, {}, t, i) == Descends(v, t, i)
  {}

  /** One of the copied entry and the kernel's own has been walked and the other has not,
      and the bit was not set when the copy was made. */
  predicate Differs(v: Vm, marks: Marks, t: nat, i: nat)
    requires Kernel in v.roots && t in v.tag && i < ENTRIES
  {
    !Bit(At(v.mem, t, i), ACCESSED) && ((t, i) in marks) != ((KernelTwin(v, v.tag[t].path), i) in marks)
  }

  /** An entry that leads out of the space's half. */
  ghost predicate Borrowed(v: Vm, o: Owner, t: nat, i: nat) {
    && Owned(v, o, t) && !v.tag[t].path.L1? && i < ENTRIES
    && RefersToTable(v.tag[t].path, At(v.mem, t, i)) && !UserPath(Child(v.tag[t].path, i))
  }

  /** A borrowed entry is the kernel's own, and the two stand alike unless they differ so. */
  lemma BorrowedSeen(v: Vm, marks: Marks, o: Owner, t: nat, i: nat)
    requires Inv(v) && Borrowed(v, o, t, i)
    ensures v.tag[t].path == Root || v.tag[t].path == L3(0)
    ensures SeenAt(v, marks, t, i) == SeenAt(v, marks, KernelTwin(v, v.tag[t].path), i) <==> !Differs(v, marks, t, i)
    ensures Frame(At(v.mem, t, i)) in v.tag && v.tag[Frame(At(v.mem, t, i))].owner == Kernel
  {
    ChildOwner(v, o, t, i);
    assert SharedEntry(v, t, i);
    MarkSameIff(At(v.mem, t, i));
  }

  /** It is gone into, and so a table of the kernel's freed, exactly when they differ. */
  lemma BorrowedMarked(v: Vm, marks: Marks, o: Owner, t: nat, i: nat)
    requires Inv(v) && Borrowed(v, o, t, i)
    ensures DescendsOn(v, marks, t, i) <==> Differs(v, marks, t, i)
  {
    BorrowedSeen(v, marks, o, t, i);
    SeenBits(v, marks, t, i);
    SeenBits(v, marks, v.roots[Kernel], 0);
  }

  /** The space's own tables are gone into whatever has been walked. */
  lemma OwnMarked(v: Vm, marks: Marks, o: Owner, t: nat, i: nat)
    requires Inv(v) && Owned(v, o, t) && !v.tag[t].path.L1? && i < ENTRIES
    requires RefersToTable(v.tag[t].path, At(v.mem, t, i)) && UserPath(Child(v.tag[t].path, i))
    ensures DescendsOn(v, marks, t, i) && Owned(v, o, Frame(At(v.mem, t, i)))
  {
    var p := v.tag[t].path;
    PrivateDescends(v, o, t, i);
    SeenBits(v, marks, t, i);
    SeenBits(v, marks, v.roots[Kernel], 0);
    if p == Root || p == L3(0) {
      KernelAbsent(v, p, i);
      SeenBits(v, marks, KernelTwin(v, p), i);
    }
  }

  /** What `free_vm` goes into: the space's own tables, and those of the kernel's under
      entries that differ. */
  lemma DescendsMarkedIff(v: Vm, marks: Marks, o: Owner, t: nat, i: nat)
    requires Inv(v) && Owned(v, o, t) && !v.tag[t].path.L1? && i < ENTRIES
    ensures DescendsOn(v, marks, t, i) <==>
      && RefersToTable(v.tag[t].path, At(v.mem, t, i))
      && (Owned(v, o, Frame(At(v.mem, t, i))) || Differs(v, marks, t, i))
  {
    if !RefersToTable(v.tag[t].path, At(v.mem, t, i)) {
      NotGoneInto(v, marks, t, i);
    } else if UserPath(Child(v.tag[t].path, i)) {
      OwnMarked(v, marks, o, t, i);
    } else {
      BorrowedIsKernels(v, marks, o, t, i);
    }
  }

  /** `free_vm` keeps to the space's own tables. */
  ghost predicate KeepsToOwn(v: Vm, marks: Marks, o: Owner)
    requires Kernel in v.roots
  {
    forall t, i: nat :: Owned(v, o, t) && !v.tag[t].path.L1? && i < ENTRIES && DescendsOn(v, marks, t, i) ==>
      Owned(v, o, Frame(At(v.mem, t, i)))
  }

  /** It does if and only if no borrowed entry differs from the kernel's. */
  lemma KeepsToOwnIff(v: Vm, marks: Marks, o: Owner)
    requires Inv(v)
    ensures KeepsToOwn(v, marks, o) <==> forall t, i: nat :: Borrowed(v, o, t, i) ==> !Differs(v, marks, t, i)
  {
    forall t, i: nat | Owned(v, o, t) && !v.tag[t].path.L1? && i < ENTRIES
      ensures DescendsOn(v, marks, t, i) && !Owned(v, o, Frame(At(v.mem, t, i))) <==>
        Borrowed(v, o, t, i) && Differs(v, marks, t, i)
    {
      OneEntry(v, marks, o, t, i);
    }
  }

  lemma OneEntry(v: Vm, marks: Marks, o: Owner, t: nat, i: nat)
    requires Inv(v) && Owned(v, o, t) && !v.tag[t].path.L1? && i < ENTRIES
    ensures DescendsOn(v, marks, t, i) && !Owned(v, o, Frame(At(v.mem, t, i))) <==>
      Borrowed(v, o, t, i) && Differs(v, marks, t, i)
  {
    if !RefersToTable(v.tag[t].path, At(v.mem, t, i)) {
      NotGoneInto(v, marks, t, i);
    } else if UserPath(Child(v.tag[t].path, i)) {
      OwnMarked(v, marks, o, t, i);
    } else {
      BorrowedIsKernels(v, marks, o, t, i);
    }
  }

  lemma NotGoneInto(v: Vm, marks: Marks, t: nat, i: nat)
    requires Kernel in v.roots && t in v.tag && i < ENTRIES && !RefersToTable(v.tag[t].path, At(v.mem, t, i))
    ensures !DescendsOn(v, marks, t, i)
  {
    SeenBits(v, marks, t, i);
  }

  lemma BorrowedIsKernels(v: Vm, marks: Marks, o: Owner, t: nat, i: nat)
    requires Inv(v) && Borrowed(v, o, t, i)
    ensures !Owned(v, o, Frame(At(v.mem, t, i))) && (DescendsOn(v, marks, t, i) <==> Differs(v, marks, t, i))
  {
    BorrowedSeen(v, marks, o, t, i);
    BorrowedMarked(v, marks, o, t, i);
  }

  /** A walk in the space through a borrowed root entry that nobody walked before makes them
      differ: `free_vm` then goes into a table of the kernel's. */
  lemma FirstWalkBetrays(v: Vm, o: Owner, i: nat)
    requires Inv(v) && o in v.roots && o.Space? && 256 <= i < ENTRIES
    requires Bit(At(v.mem, v.roots[o], i), PRESENT) && !Bit(At(v.mem, v.roots[o], i), ACCESSED)
    ensures DescendsOn(v, {(v.roots[o], i)}, v.roots[o], i) && !KeepsToOwn(v, {(v.roots[o], i)}, o)
  {
    var t := v.roots[o];
    assert Borrowed(v, o, t, i);
    BorrowedMarked(v, {(t, i)}, o, t, i);
    KeepsToOwnIff(v, {(t, i)}, o);
  }
}
