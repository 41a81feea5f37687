/** Scatter lists for device access: a buffer's physical bytes cut into segments under a
    boundary, a segment size, a segment count and an address limit, with a bounce buffer
    when the buffer itself will not do.
 */
module Dma {
  import opened Basics
  import Modular
  import Seqs

  /** What a device can take; a `boundary` of 0 means none, and it and `alignment` are
      powers of two, so that masking by them is division. */
  datatype Tag = Tag(alignment: nat, boundary: nat, maxAddr: nat, maxSize: nat, maxSegments: nat, maxSegment: nat)

  predicate TagOk(tag: Tag) {
    tag.alignment > 0 && tag.maxSize > 0 && tag.maxSegments > 0 && tag.maxSegment > 0
  }

  datatype Segment = Segment(addr: nat, len: nat)

  // ---- physical bytes in order ----

  /** The addresses `a`, `a + 1`, ... of `n` bytes. */
  function Bytes(a: nat, n: nat): seq<nat>
    decreases n
  {
    if n == 0 then [] else [a] + Bytes(a + 1, n - 1)
  }

  lemma {:induction false} BytesAre(a: nat, n: nat)
    ensures |Bytes(a, n)| == n && forall i :: 0 <= i < n ==> Bytes(a, n)[i] == a + i
    decreases n
  {
    if n > 0 {
      BytesAre(a + 1, n - 1);
    }
  }

  /** All bytes the first `k` segments name, in order. */
  function FlatTo(segs: seq<Segment>, k: nat): seq<nat>
    requires k <= |segs|
  {
    if k == 0 then [] else FlatTo(segs, k - 1) + Bytes(segs[k - 1].addr, segs[k - 1].len)
  }

  /** All bytes a list of segments names, in order. */
  function Flat(segs: seq<Segment>): seq<nat> {
    FlatTo(segs, |segs|)
  }

  lemma {:induction false} FlatPrefix(a: seq<Segment>, b: seq<Segment>, k: nat)
    requires k <= |a| && k <= |b| && forall i :: 0 <= i < k ==> a[i] == b[i]
    ensures FlatTo(a, k) == FlatTo(b, k)
    decreases k
  {
    if k > 0 {
      FlatPrefix(a, b, k - 1);
    }
  }

  lemma BytesJoin(a: nat, n: nat, m: nat)
    ensures Bytes(a, n) + Bytes(a + n, m) == Bytes(a, n + m)
  {
    BytesAre(a, n);
    BytesAre(a + n, m);
    BytesAre(a, n + m);
  }

  lemma ThenBytes(f: seq<nat>, a: nat, n: nat, m: nat)
    ensures f + Bytes(a, n) + Bytes(a + n, m) == f + Bytes(a, n + m)
  {
    BytesJoin(a, n, m);
    Seqs.Assoc(f, Bytes(a, n), Bytes(a + n, m));
  }

  lemma FlatSnoc(segs: seq<Segment>, s: Segment)
    ensures Flat(segs + [s]) == Flat(segs) + Bytes(s.addr, s.len)
  {
    FlatPrefix(segs + [s], segs, |segs|);
  }

  // ---- add_segment ----

  /** Which boundary window an address lies in, and how far into it: quotient and
      remainder by the boundary, by repeated subtraction. */
  function Window(b: nat, addr: nat): nat {
    if b == 0 || addr < b then 0 else 1 + Window(b, addr - b)
  }

  function Into(b: nat, addr: nat): (r: nat)
    ensures b > 0 ==> r < b
  {
    if b == 0 || addr < b then addr else Into(b, addr - b)
  }

  lemma {:induction false} WindowIsQuotient(b: nat, addr: nat)
    requires b > 0
    ensures Window(b, addr) == addr / b && Into(b, addr) == addr % b
    decreases addr
  {
    if addr < b {
      Modular.SmallMod(addr, b);
    } else {
      WindowIsQuotient(b, addr - b);
      Modular.ModStep(addr - b, b);
    }
  }

  /** The bytes from `addr` up to the next boundary, at most `len`. */
  function ToBoundary(tag: Tag, addr: nat, len: nat): nat {
    if tag.boundary > 0 && len > tag.boundary - Into(tag.boundary, addr) then tag.boundary - Into(tag.boundary, addr)
    else len
  }

  /** The last segment can take `chunk` more bytes at `addr`. */
  predicate Joins(tag: Tag, segs: seq<Segment>, addr: nat, chunk: nat) {
    && segs != []
    && var last := segs[|segs| - 1];
    && last.addr + last.len == addr && last.len + chunk <= tag.maxSegment
    && Window(tag.boundary, last.addr) == Window(tag.boundary, addr)
  }

  function Longer(segs: seq<Segment>, chunk: nat): seq<Segment>
    requires segs != []
  {
    segs[..|segs| - 1] + [Segment(segs[|segs| - 1].addr, segs[|segs| - 1].len + chunk)]
  }

  /** One turn of `add_segment`: the new list and the bytes it took, none if full. */
  function Turn(tag: Tag, segs: seq<Segment>, addr: nat, len: nat): Option<(seq<Segment>, nat)> {
    var chunk := ToBoundary(tag, addr, len);
    if Joins(tag, segs, addr, chunk) then Some((Longer(segs, chunk), chunk))
    else if |segs| == tag.maxSegments then None
    else
      var n := if chunk > tag.maxSegment then tag.maxSegment else chunk;
      Some((segs + [Segment(addr, n)], n))
  }

  lemma TurnMoves(tag: Tag, segs: seq<Segment>, addr: nat, len: nat)
    requires TagOk(tag) && len > 0 && Turn(tag, segs, addr, len).Some?
    ensures 0 < Turn(tag, segs, addr, len).value.1 <= len
  {}

  /** `add_segment` */
  function AddSegment(tag: Tag, segs: seq<Segment>, addr: nat, len: nat): Option<seq<Segment>>
    requires TagOk(tag)
    decreases len
  {
    if len == 0 then Some(segs)
    else
      var r := Turn(tag, segs, addr, len);
      if r.None? then None
      else
        TurnMoves(tag, segs, addr, len);
        AddSegment(tag, r.value.0, addr + r.value.1, len - r.value.1)
  }

  /** What a device may be given. */
  predicate SegmentOk(tag: Tag, s: Segment) {
    0 < s.len <= tag.maxSegment && Window(tag.boundary, s.addr) == Window(tag.boundary, s.addr + s.len - 1)
  }

  predicate Good(tag: Tag, segs: seq<Segment>) {
    |segs| <= tag.maxSegments && forall i :: 0 <= i < |segs| ==> SegmentOk(tag, segs[i])
  }

  /** No byte of a good segment lies past the boundary its first byte lies before. */
  lemma NoneCrosses(tag: Tag, segs: seq<Segment>, i: nat, j: nat)
    requires Good(tag, segs) && tag.boundary > 0 && i < |segs| && j < segs[i].len
    ensures (segs[i].addr + j) / tag.boundary == segs[i].addr / tag.boundary
  {
    var b, s := tag.boundary, segs[i];
    assert SegmentOk(tag, s);
    WindowIsQuotient(b, s.addr);
    WindowIsQuotient(b, s.addr + j);
    WindowsOrdered(b, s.addr, s.addr + j);
    WindowsOrdered(b, s.addr + j, s.addr + s.len - 1);
  }

  lemma {:induction false} WindowsOrdered(b: nat, addr: nat, next: nat)
    requires addr <= next
    ensures Window(b, addr) <= Window(b, next)
    decreases next
  {
    if b > 0 && addr >= b {
      WindowsOrdered(b, addr - b, next - b);
    }
  }

  predicate EndsBy(segs: seq<Segment>, limit: nat) {
    forall i :: 0 <= i < |segs| ==> segs[i].addr + segs[i].len - 1 <= limit
  }

  lemma {:induction false} WindowReaches(b: nat, addr: nat, n: nat)
    requires b > 0 && n < b - Into(b, addr)
    ensures Window(b, addr + n) == Window(b, addr)
    decreases addr
  {
    if addr >= b {
      WindowReaches(b, addr - b, n);
    }
  }

  /** Bytes up to the boundary share their window. */
  lemma SameWindow(tag: Tag, addr: nat, n: nat)
    requires 0 < n <= ToBoundary(tag, addr, n)
    ensures Window(tag.boundary, addr) == Window(tag.boundary, addr + n - 1)
  {
    if tag.boundary > 0 {
      WindowReaches(tag.boundary, addr, n - 1);
    }
  }

  lemma LongerFlat(segs: seq<Segment>, chunk: nat)
    requires segs != []
    ensures Flat(Longer(segs, chunk)) ==
      Flat(segs) + Bytes(segs[|segs| - 1].addr + segs[|segs| - 1].len, chunk)
  {
    var k, last := |segs| - 1, segs[|segs| - 1];
    FlatPrefix(Longer(segs, chunk), segs, k);
    ThenBytes(FlatTo(segs, k), last.addr, last.len, chunk);
  }

  lemma LongerGood(tag: Tag, segs: seq<Segment>, addr: nat, chunk: nat, limit: nat)
    requires Good(tag, segs) && chunk > 0 && Joins(tag, segs, addr, chunk)
    requires Window(tag.boundary, addr) == Window(tag.boundary, addr + chunk - 1) && EndsBy(segs, limit)
    requires addr + chunk - 1 <= limit
    ensures Good(tag, Longer(segs, chunk)) && EndsBy(Longer(segs, chunk), limit)
    ensures Longer(segs, chunk)[0].addr == segs[0].addr
  {
    var r, k := Longer(segs, chunk), |segs| - 1;
    assert SegmentOk(tag, r[k]);
    assert forall i :: 0 <= i < k ==> r[i] == segs[i];
  }

  lemma NewGood(tag: Tag, segs: seq<Segment>, addr: nat, n: nat, limit: nat)
    requires Good(tag, segs) && |segs| < tag.maxSegments && 0 < n <= tag.maxSegment
    requires Window(tag.boundary, addr) == Window(tag.boundary, addr + n - 1) && EndsBy(segs, limit)
    requires addr + n - 1 <= limit
    ensures Good(tag, segs + [Segment(addr, n)]) && EndsBy(segs + [Segment(addr, n)], limit)
  {}

  lemma TurnFlat(tag: Tag, segs: seq<Segment>, addr: nat, len: nat)
    requires Turn(tag, segs, addr, len).Some?
    ensures var (r, n) := Turn(tag, segs, addr, len).value; Flat(r) == Flat(segs) + Bytes(addr, n)
  {
    var (r, n) := Turn(tag, segs, addr, len).value;
    if Joins(tag, segs, addr, ToBoundary(tag, addr, len)) {
      LongerFlat(segs, n);
    } else {
      FlatSnoc(segs, Segment(addr, n));
    }
  }

  lemma TurnGood(tag: Tag, segs: seq<Segment>, addr: nat, len: nat, limit: nat)
    requires TagOk(tag) && Good(tag, segs) && len > 0 && EndsBy(segs, limit) && addr + len - 1 <= limit
    requires Turn(tag, segs, addr, len).Some?
    ensures var (r, n) := Turn(tag, segs, addr, len).value;
      && 0 < n <= len && Good(tag, r) && EndsBy(r, limit) && r != []
      && r[0].addr == if segs == [] then addr else segs[0].addr
  {
    var n := Turn(tag, segs, addr, len).value.1;
    TurnMoves(tag, segs, addr, len);
    SameWindow(tag, addr, n);
    if Joins(tag, segs, addr, ToBoundary(tag, addr, len)) {
      LongerGood(tag, segs, addr, n, limit);
    } else {
      NewGood(tag, segs, addr, n, limit);
    }
  }

  /** Adding a run of bytes: the list grows by exactly those bytes, in order. */
  lemma {:induction false} AddSegmentFlat(tag: Tag, segs: seq<Segment>, addr: nat, len: nat, r: seq<Segment>)
    requires TagOk(tag) && AddSegment(tag, segs, addr, len) == Some(r)
    ensures Flat(r) == Flat(segs) + Bytes(addr, len)
    decreases len
  {
    if len == 0 {
      Seqs.Nil(Flat(segs));
    } else {
      var (t, n) := Turn(tag, segs, addr, len).value;
      TurnMoves(tag, segs, addr, len);
      AddSegmentFlat(tag, t, addr + n, len - n, r);
      TurnFlat(tag, segs, addr, len);
      ThenBytes(Flat(segs), addr, n, len - n);
    }
  }

  /** Every segment stays within the boundary, the size and the address limit. */
  lemma {:induction false} AddSegmentGood(tag: Tag, segs: seq<Segment>, addr: nat, len: nat, limit: nat)
    requires TagOk(tag) && Good(tag, segs) && EndsBy(segs, limit) && addr + len - 1 <= limit
    requires AddSegment(tag, segs, addr, len).Some?
    ensures var r := AddSegment(tag, segs, addr, len).value;
      && Good(tag, r) && EndsBy(r, limit)
      && (segs != [] || len > 0 ==> r != [] && r[0].addr == if segs == [] then addr else segs[0].addr)
    decreases len
  {
    if len > 0 {
      TurnGood(tag, segs, addr, len, limit);
      var (t, n) := Turn(tag, segs, addr, len).value;
      AddSegmentGood(tag, t, addr + n, len - n, limit);
    }
  }

  // ---- load_buffer ----

  /** Which frame each mapped page is in. */
  type Frames = map<nat, nat>

  /** `translate` */
  function Phys(frames: Frames, v: nat): Option<nat> {
    if v / PAGE in frames then Some(frames[v / PAGE] + v % PAGE) else None
  }

  predicate Mapped(frames: Frames, v: nat, len: nat) {
    forall a :: v <= a < v + len ==> Phys(frames, a).Some?
  }

  /** The physical bytes of a buffer, in order. */
  function BufferBytes(frames: Frames, v: nat, len: nat): (r: seq<nat>)
    requires Mapped(frames, v, len)
    ensures |r| == len && forall i :: 0 <= i < len ==> r[i] == Phys(frames, v + i).value
  {
    seq(len, i requires 0 <= i < len => assert Phys(frames, v + i).Some?; Phys(frames, v + i).value)
  }

  /** The bytes from `v` to the end of its page, at most `len`. */
  function PageChunk(v: nat, len: nat): nat {
    if PAGE - v % PAGE > len then len else PAGE - v % PAGE
  }

  lemma WithinPage(frames: Frames, v: nat, len: nat)
    requires Phys(frames, v).Some?
    ensures var n := PageChunk(v, len);
      Mapped(frames, v, n) && BufferBytes(frames, v, n) == Bytes(Phys(frames, v).value, n)
  {
    var n := PageChunk(v, len);
    BytesAre(Phys(frames, v).value, n);
    forall a | v <= a < v + n ensures Phys(frames, a) == Some(Phys(frames, v).value + (a - v)) {
      Modular.DivModUnique(a, PAGE, v / PAGE, v % PAGE + (a - v));
    }
  }

  lemma BufferJoin(frames: Frames, v: nat, n: nat, m: nat)
    requires Mapped(frames, v, n) && Mapped(frames, v + n, m)
    ensures Mapped(frames, v, n + m)
    ensures BufferBytes(frames, v, n) + BufferBytes(frames, v + n, m) == BufferBytes(frames, v, n + m)
  {}

  lemma ThenBuffer(f: seq<nat>, frames: Frames, v: nat, n: nat, m: nat)
    requires Mapped(frames, v, n) && Mapped(frames, v + n, m)
    ensures Mapped(frames, v, n + m)
    ensures f + BufferBytes(frames, v, n) + BufferBytes(frames, v + n, m) == f + BufferBytes(frames, v, n + m)
  {
    BufferJoin(frames, v, n, m);
    Seqs.Assoc(f, BufferBytes(frames, v, n), BufferBytes(frames, v + n, m));
  }

  datatype Outcome = Fault | TooBig | Bounce | Loaded(segs: seq<Segment>)

  /** The device cannot reach these bytes, or the first is not aligned. */
  predicate NeedsBounce(tag: Tag, segs: seq<Segment>, phys: nat, n: nat) {
    phys + n - 1 > tag.maxAddr || (segs == [] && tag.alignment > 0 && phys % tag.alignment != 0)
  }

  /** `load_buffer` */
  function Load(tag: Tag, frames: Frames, segs: seq<Segment>, v: nat, len: nat): Outcome
    requires TagOk(tag)
    decreases len
  {
    if len == 0 then Loaded(segs)
    else
      var phys, n := Phys(frames, v), PageChunk(v, len);
      if phys.None? then Fault
      else if NeedsBounce(tag, segs, phys.value, n) then Bounce
      else
        var r := AddSegment(tag, segs, phys.value, n);
        if r.None? then TooBig else Load(tag, frames, r.value, v + n, len - n)
  }

  predicate FirstAligned(tag: Tag, segs: seq<Segment>) {
    segs != [] && tag.alignment > 0 ==> segs[0].addr % tag.alignment == 0
  }

  /** A loaded list names exactly the buffer's bytes, in order. */
  lemma {:induction false} LoadFlat(tag: Tag, frames: Frames, segs: seq<Segment>, v: nat, len: nat)
    requires TagOk(tag) && Load(tag, frames, segs, v, len).Loaded?
    ensures Mapped(frames, v, len)
    ensures Flat(Load(tag, frames, segs, v, len).segs) == Flat(segs) + BufferBytes(frames, v, len)
    decreases len
  {
    if len == 0 {
      Seqs.Nil(Flat(segs));
    } else {
      var phys, n := Phys(frames, v).value, PageChunk(v, len);
      var t := AddSegment(tag, segs, phys, n).value;
      AddSegmentFlat(tag, segs, phys, n, t);
      LoadFlat(tag, frames, t, v + n, len - n);
      WithinPage(frames, v, len);
      ThenBuffer(Flat(segs), frames, v, n, len - n);
    }
  }

  /** And the device can take it. */
  lemma {:induction false} LoadGood(tag: Tag, frames: Frames, segs: seq<Segment>, v: nat, len: nat)
    requires TagOk(tag) && Good(tag, segs) && EndsBy(segs, tag.maxAddr) && FirstAligned(tag, segs)
    requires Load(tag, frames, segs, v, len).Loaded?
    ensures var r := Load(tag, frames, segs, v, len).segs;
      Good(tag, r) && EndsBy(r, tag.maxAddr) && FirstAligned(tag, r)
    decreases len
  {
    if len > 0 {
      var phys, n := Phys(frames, v).value, PageChunk(v, len);
      AddSegmentGood(tag, segs, phys, n, tag.maxAddr);
      LoadGood(tag, frames, AddSegment(tag, segs, phys, n).value, v + n, len - n);
    }
  }

  // ---- alloc_pages ----

  function RoundTo(n: nat, unit: nat): nat
    requires unit > 0
  {
    (n + unit - 1) / unit * unit
  }

  /** How `alloc_pages` cuts an aligned stretch out of the pages it was given. */
  lemma AlignedWithin(raw: nat, count: nat, alignment: nat)
    requires alignment >= PAGE && alignment % PAGE == 0 && raw % PAGE == 0 && count > 0
    ensures var base, total := RoundTo(raw, alignment), count + alignment / PAGE - 1;
      && base % alignment == 0 && base % PAGE == 0 && raw <= base
      && (base - raw) / PAGE + count <= total
      && base + count * PAGE <= raw + total * PAGE
  {
    var base, total := RoundTo(raw, alignment), count + alignment / PAGE - 1;
    var q := (raw + alignment - 1) / alignment;
    assert base == q * alignment;
    Modular.DivModUnique(base, alignment, q, 0);
    assert base <= raw + alignment - 1;
    assert base > raw - 1 by {
      assert raw + alignment - 1 == q * alignment + (raw + alignment - 1) % alignment;
    }
    var k := alignment / PAGE;
    assert alignment == k * PAGE;
    assert base == (q * k) * PAGE by {
      assert q * alignment == q * (k * PAGE) == (q * k) * PAGE;
    }
    Modular.DivModUnique(base, PAGE, q * k, 0);
    assert (base - raw) % PAGE == 0;
  }
}
