/** Loading and syncing a DMA map: what a device reads and writes through the segments is
    what the buffer holds, with or without a bounce buffer in between.
 */
module DmaMaps {
  import opened Basics
  import Modular
  import opened Dma

  datatype Errno = Einval | Ebusy | Efault | Efbig | Enomem | Success

  /** A physically contiguous stand-in for the buffer. */
  datatype Stand = Stand(phys: nat, len: nat)

  datatype Map = Map(tag: Tag, segs: seq<Segment>, buffer: nat, len: nat, bounce: Option<Stand>, bounced: bool,
                     loaded: bool)

  /** Powers of two divide one another. */
  predicate AlignmentOk(tag: Tag) {
    TagOk(tag) && (PAGE % tag.alignment == 0 || tag.alignment % PAGE == 0)
  }

  function PageCount(len: nat): nat {
    (len + PAGE - 1) / PAGE
  }

  /** What `alloc_pages` gives: aligned for the device and within its reach. */
  predicate StandOk(tag: Tag, s: Stand)
    requires tag.alignment > 0
  {
    s.phys % tag.alignment == 0 && s.len > 0 && s.phys + s.len - 1 <= tag.maxAddr
  }

  predicate MapOk(m: Map) {
    AlignmentOk(m.tag) && (m.bounce.Some? ==> StandOk(m.tag, m.bounce.value))
  }

  /** The unit `alloc_pages` aligns to. */
  function PageAlignment(tag: Tag): nat {
    if tag.alignment < PAGE then PAGE else tag.alignment
  }

  /** Pages aligned to that unit suit the device. */
  lemma PagesSuit(tag: Tag, base: nat, len: nat)
    requires AlignmentOk(tag) && base % PageAlignment(tag) == 0 && len > 0 && base + len - 1 <= tag.maxAddr
    ensures StandOk(tag, Stand(base, len))
  {
    if tag.alignment < PAGE {
      if PAGE % tag.alignment == 0 {
        Modular.ModMod(base, PAGE, tag.alignment);
        Modular.SmallMod(0, tag.alignment);
      } else {
        Modular.SmallMod(tag.alignment, PAGE);
        assert false;
      }
    }
  }

  /** `bounce_reserve`, given what the page allocator offers: where its pages begin. */
  function Reserve(m: Map, len: nat, offer: Option<nat>): Map {
    if m.bounce.Some? && m.bounce.value.len >= len then m
    else if offer.None? || offer.value + PageCount(len) * PAGE - 1 > m.tag.maxAddr then m.(bounce := None)
    else m.(bounce := Some(Stand(offer.value, PageCount(len) * PAGE)))
  }

  predicate OfferOk(tag: Tag, offer: Option<nat>) {
    offer.Some? ==> offer.value % PageAlignment(tag) == 0
  }

  lemma ReserveKeeps(m: Map, len: nat, offer: Option<nat>)
    requires MapOk(m) && len > 0 && OfferOk(m.tag, offer)
    ensures MapOk(Reserve(m, len, offer)) && Reserve(m, len, offer).tag == m.tag
    ensures Reserve(m, len, offer).bounce.Some? ==> Reserve(m, len, offer).bounce.value.len >= len
  {
    assert PageCount(len) * PAGE >= len;
    if offer.Some? && offer.value + PageCount(len) * PAGE - 1 <= m.tag.maxAddr {
      PagesSuit(m.tag, offer.value, PageCount(len) * PAGE);
    }
  }

  function Held(m: Map, segs: seq<Segment>, v: nat, len: nat, bounced: bool): Map {
    m.(segs := segs, buffer := v, len := len, bounced := bounced, loaded := true)
  }

  /** `dma_map_load` */
  function MapLoad(m: Map, frames: Frames, v: nat, len: nat, offer: Option<nat>): (Map, Errno)
    requires MapOk(m)
  {
    if v == 0 || len == 0 || len > m.tag.maxSize then (m, Einval)
    else if m.loaded then (m, Ebusy)
    else
      match Load(m.tag, frames, [], v, len)
      case Fault => (m, Efault)
      case TooBig => (m, Efbig)
      case Loaded(segs) => (Held(m, segs, v, len, false), Success)
      case Bounce =>
        var r := Reserve(m, len, offer);
        if r.bounce.None? then (r, Enomem)
        else
          var segs := AddSegment(m.tag, [], r.bounce.value.phys, len);
          if segs.None? then (r, Efbig) else (Held(r, segs.value, v, len, true), Success)
  }

  /** The bytes the device will be sent to. */
  function Target(m: Map, frames: Frames): seq<nat>
    requires m.bounced ==> m.bounce.Some?
    requires !m.bounced ==> Mapped(frames, m.buffer, m.len)
  {
    if m.bounced then Bytes(m.bounce.value.phys, m.len) else BufferBytes(frames, m.buffer, m.len)
  }

  ghost predicate LoadedRight(m: Map, frames: Frames) {
    && m.loaded && (m.bounced ==> m.bounce.Some? && m.bounce.value.len >= m.len)
    && (!m.bounced ==> Mapped(frames, m.buffer, m.len))
    && Good(m.tag, m.segs) && EndsBy(m.segs, m.tag.maxAddr) && FirstAligned(m.tag, m.segs)
    && Flat(m.segs) == Target(m, frames)
  }

  /** A successful load: the segments are, in order, the buffer's physical bytes or the
      bounce buffer's; each keeps to the boundary, the size and the address limit, there are
      not too many, and the first is aligned. */
  lemma MapLoadExact(m: Map, frames: Frames, v: nat, len: nat, offer: Option<nat>)
    requires MapOk(m) && OfferOk(m.tag, offer)
    ensures var (r, e) := MapLoad(m, frames, v, len, offer);
      && MapOk(r) && (e == Success ==> LoadedRight(r, frames) && r.buffer == v && r.len == len)
      && (e != Success ==> r.loaded == m.loaded)
  {
    if v != 0 && 0 < len <= m.tag.maxSize && !m.loaded {
      var o := Load(m.tag, frames, [], v, len);
      if o.Loaded? {
        BufferLoads(m, frames, v, len);
      } else if o.Bounce? {
        ReserveKeeps(m, len, offer);
        var r := Reserve(m, len, offer);
        if r.bounce.Some? && AddSegment(m.tag, [], r.bounce.value.phys, len).Some? {
          BounceLoads(r, frames, v, len);
        }
      }
    }
  }

  lemma BufferLoads(m: Map, frames: Frames, v: nat, len: nat)
    requires MapOk(m) && Load(m.tag, frames, [], v, len).Loaded?
    ensures LoadedRight(Held(m, Load(m.tag, frames, [], v, len).segs, v, len, false), frames)
  {
    LoadFlat(m.tag, frames, [], v, len);
    LoadGood(m.tag, frames, [], v, len);
    assert [] + BufferBytes(frames, v, len) == BufferBytes(frames, v, len);
  }

  lemma BounceLoads(r: Map, frames: Frames, v: nat, len: nat)
    requires MapOk(r) && len > 0 && r.bounce.Some? && r.bounce.value.len >= len
    requires AddSegment(r.tag, [], r.bounce.value.phys, len).Some?
    ensures LoadedRight(Held(r, AddSegment(r.tag, [], r.bounce.value.phys, len).value, v, len, true), frames)
  {
    var at := r.bounce.value.phys;
    var segs := AddSegment(r.tag, [], at, len).value;
    AddSegmentFlat(r.tag, [], at, len, segs);
    AddSegmentGood(r.tag, [], at, len, r.tag.maxAddr);
    assert [] + Bytes(at, len) == Bytes(at, len);
  }

  // ---- contents ----

  predicate InRam(ram: seq<Byte>, addrs: seq<nat>) {
    forall i :: 0 <= i < |addrs| ==> addrs[i] < |ram|
  }

  function Gather(ram: seq<Byte>, addrs: seq<nat>): (r: seq<Byte>)
    requires InRam(ram, addrs)
    ensures |r| == |addrs| && forall i :: 0 <= i < |r| ==> r[i] == ram[addrs[i]]
  {
    seq(|addrs|, i requires 0 <= i < |addrs| => ram[addrs[i]])
  }

  /** The first `k` bytes of `data` stored one after another. */
  function Scatter(ram: seq<Byte>, addrs: seq<nat>, data: seq<Byte>, k: nat): (r: seq<Byte>)
    requires InRam(ram, addrs) && k <= |data| && |data| == |addrs|
    ensures |r| == |ram|
  {
    if k == 0 then ram else Scatter(ram, addrs, data, k - 1)[addrs[k - 1] := data[k - 1]]
  }

  predicate Avoids(a: seq<nat>, b: seq<nat>) {
    forall i, j :: 0 <= i < |a| && 0 <= j < |b| ==> a[i] != b[j]
  }

  /** Bytes for the same place are the same byte. */
  ghost predicate Agrees(addrs: seq<nat>, data: seq<Byte>) {
    |addrs| == |data| && forall i, j :: 0 <= i < j < |addrs| && addrs[i] == addrs[j] ==> data[i] == data[j]
  }

  lemma {:induction false} ScatterAt(ram: seq<Byte>, addrs: seq<nat>, data: seq<Byte>, k: nat, i: nat)
    requires InRam(ram, addrs) && k <= |data| && |data| == |addrs| && Agrees(addrs, data) && i < k
    ensures Scatter(ram, addrs, data, k)[addrs[i]] == data[i]
    decreases k
  {
    if i < k - 1 {
      ScatterAt(ram, addrs, data, k - 1, i);
    }
  }

  lemma {:induction false} ScatterMisses(ram: seq<Byte>, addrs: seq<nat>, data: seq<Byte>, k: nat, a: nat)
    requires InRam(ram, addrs) && k <= |data| && |data| == |addrs| && a < |ram|
    requires forall i :: 0 <= i < k ==> addrs[i] != a
    ensures Scatter(ram, addrs, data, k)[a] == ram[a]
    decreases k
  {
    if k > 0 {
      ScatterMisses(ram, addrs, data, k - 1, a);
    }
  }

  function Stored(ram: seq<Byte>, addrs: seq<nat>, data: seq<Byte>): (r: seq<Byte>)
    requires InRam(ram, addrs) && |data| == |addrs|
    ensures |r| == |ram|
  {
    Scatter(ram, addrs, data, |data|)
  }

  /** What is stored can be read back if and only if it agrees with itself. */
  lemma StoredThereIff(ram: seq<Byte>, addrs: seq<nat>, data: seq<Byte>)
    requires InRam(ram, addrs) && |data| == |addrs|
    ensures Gather(Stored(ram, addrs, data), addrs) == data <==> Agrees(addrs, data)
  {
    var now := Stored(ram, addrs, data);
    if Agrees(addrs, data) {
      forall i | 0 <= i < |data| ensures now[addrs[i]] == data[i] {
        ScatterAt(ram, addrs, data, |data|, i);
      }
    } else {
      var i, j :| 0 <= i < j < |addrs| && addrs[i] == addrs[j] && data[i] != data[j];
      assert Gather(now, addrs)[i] == Gather(now, addrs)[j];
    }
  }

  lemma StoredThere(ram: seq<Byte>, addrs: seq<nat>, data: seq<Byte>)
    requires InRam(ram, addrs) && |data| == |addrs| && Distinct(addrs)
    ensures Gather(Stored(ram, addrs, data), addrs) == data
  {
    StoredThereIff(ram, addrs, data);
  }

  lemma StoredElsewhere(ram: seq<Byte>, addrs: seq<nat>, data: seq<Byte>, other: seq<nat>)
    requires InRam(ram, addrs) && |data| == |addrs| && InRam(ram, other) && Avoids(addrs, other)
    ensures Gather(Stored(ram, addrs, data), other) == Gather(ram, other)
  {
    forall i | 0 <= i < |other| ensures Stored(ram, addrs, data)[other[i]] == ram[other[i]] {
      ScatterMisses(ram, addrs, data, |data|, other[i]);
    }
  }

  /** The buffer is all mapped, in memory, and clear of the bounce buffer. */
  ghost predicate Placed(m: Map, frames: Frames, ram: seq<Byte>) {
    && LoadedRight(m, frames) && Mapped(frames, m.buffer, m.len)
    && InRam(ram, BufferBytes(frames, m.buffer, m.len)) && InRam(ram, Target(m, frames))
    && (m.bounced ==> Avoids(Target(m, frames), BufferBytes(frames, m.buffer, m.len)))
  }

  /** `dma_map_sync` before the device reads, and after it has written. */
  ghost function PreWrite(m: Map, frames: Frames, ram: seq<Byte>): seq<Byte>
    requires Placed(m, frames, ram)
  {
    if !m.bounced then ram
    else
      BytesAre(m.bounce.value.phys, m.len);
      Stored(ram, Target(m, frames), Gather(ram, BufferBytes(frames, m.buffer, m.len)))
  }

  ghost function PostRead(m: Map, frames: Frames, ram: seq<Byte>): seq<Byte>
    requires Placed(m, frames, ram)
  {
    if !m.bounced then ram
    else
      BytesAre(m.bounce.value.phys, m.len);
      Stored(ram, BufferBytes(frames, m.buffer, m.len), Gather(ram, Target(m, frames)))
  }

  lemma BytesDistinct(a: nat, n: nat)
    ensures Distinct(Bytes(a, n)) && |Bytes(a, n)| == n
  {
    BytesAre(a, n);
  }

  /** What the device reads through the segments after the sync is what the buffer held,
      and the buffer still holds it. */
  lemma DeviceReadsBuffer(m: Map, frames: Frames, ram: seq<Byte>)
    requires Placed(m, frames, ram)
    ensures var now := PreWrite(m, frames, ram);
      var held := BufferBytes(frames, m.buffer, m.len);
      && InRam(now, Flat(m.segs)) && InRam(now, held)
      && Gather(now, Flat(m.segs)) == Gather(ram, held) && Gather(now, held) == Gather(ram, held)
  {
    if m.bounced {
      var held := BufferBytes(frames, m.buffer, m.len);
      BytesDistinct(m.bounce.value.phys, m.len);
      StoredThere(ram, Target(m, frames), Gather(ram, held));
      StoredElsewhere(ram, Target(m, frames), Gather(ram, held), held);
    }
  }

  /** What the device wrote through the segments is, after the sync, what the buffer
      holds, if and only if it agrees with itself wherever bytes of the buffer share a
      physical byte; so it always is when none do. */
  lemma BufferHoldsDevice(m: Map, frames: Frames, ram: seq<Byte>, data: seq<Byte>)
    requires Placed(m, frames, ram) && |data| == m.len == |Flat(m.segs)|
    ensures var held := BufferBytes(frames, m.buffer, m.len);
      var written := Stored(ram, Flat(m.segs), data);
      && Placed(m, frames, written) && |PostRead(m, frames, written)| == |ram|
      && (Gather(PostRead(m, frames, written), held) == data <==> Agrees(held, data))
      && (Distinct(held) ==> Agrees(held, data))
  {
    var held := BufferBytes(frames, m.buffer, m.len);
    var written := Stored(ram, Flat(m.segs), data);
    if m.bounced {
      BytesDistinct(m.bounce.value.phys, m.len);
      StoredThere(ram, Target(m, frames), data);
      StoredThereIff(written, held, Gather(written, Target(m, frames)));
    } else {
      StoredThereIff(ram, held, data);
    }
  }

  // ---- the loops ----

  /** `add_segment` */
  method AddSegments(tag: Tag, segs: seq<Segment>, addr: nat, len: nat) returns (r: Option<seq<Segment>>)
    requires TagOk(tag)
    ensures r == AddSegment(tag, segs, addr, len)
  {
    var s, at: nat, left: nat := segs, addr, len;
    while left > 0
      invariant AddSegment(tag, s, at, left) == AddSegment(tag, segs, addr, len)
    {
      ChunkMoves(tag, s, at, left);
      var chunk := ToBoundary(tag, at, left);
      if Joins(tag, s, at, chunk) {
        s := Longer(s, chunk);
      } else {
        if chunk > tag.maxSegment {
          chunk := tag.maxSegment;
        }
        if |s| == tag.maxSegments {
          return None;
        }
        s := s + [Segment(at, chunk)];
      }
      at, left := at + chunk, left - chunk;
    }
    r := Some(s);
  }

  lemma ChunkMoves(tag: Tag, segs: seq<Segment>, addr: nat, len: nat)
    requires TagOk(tag) && len > 0
    ensures 0 < ToBoundary(tag, addr, len) <= len
  {}

  /** `load_buffer` */
  method LoadBuffer(tag: Tag, frames: Frames, v: nat, len: nat) returns (r: Outcome)
    requires TagOk(tag)
    ensures r == Load(tag, frames, [], v, len)
  {
    var s: seq<Segment>, at: nat, left: nat := [], v, len;
    while left > 0
      invariant Load(tag, frames, s, at, left) == Load(tag, frames, [], v, len)
    {
      var phys, chunk := Phys(frames, at), PageChunk(at, left);
      if phys.None? {
        return Fault;
      }
      if NeedsBounce(tag, s, phys.value, chunk) {
        return Bounce;
      }
      var t := AddSegments(tag, s, phys.value, chunk);
      if t.None? {
        return TooBig;
      }
      s, at, left := t.value, at + chunk, left - chunk;
    }
    r := Loaded(s);
  }
}
