/** Byte-granular disk access built from sector commands, for the ATA and the virtio
    driver.  A command may fail, and a failing write may have stored any first part of
    its data.
 */
module BlockIo {
  import opened Basics
  import Modular

  const SECTOR: nat := 512
  const TWO_32: nat := 0x1_0000_0000

  /** A byte array with `b` written over it at `at`. */
  function Patched(a: seq<Byte>, at: nat, b: seq<Byte>): (r: seq<Byte>)
    requires at + |b| <= |a|
    ensures |r| == |a|
    ensures forall i :: 0 <= i < |a| ==> r[i] == if at <= i < at + |b| then b[i - at] else a[i]
  {
    a[..at] + b + a[at + |b|..]
  }

  /** Two writes in a row, the second right after the first, are one. */
  lemma PatchMore(a: seq<Byte>, at: nat, b: seq<Byte>, c: seq<Byte>)
    requires at + |b| + |c| <= |a|
    ensures Patched(Patched(a, at, b), at + |b|, c) == Patched(a, at, b + c)
  {}

  /** Read, modify, write: what surrounds the bytes in the sectors stays as it is. */
  lemma PatchWithin(a: seq<Byte>, start: nat, n: nat, in_: nat, b: seq<Byte>)
    requires start + n <= |a| && in_ + |b| <= n
    ensures Patched(a, start, Patched(a[start..start + n], in_, b)) == Patched(a, start + in_, b)
  {}

  /** Every byte is as it was, or it is one of `b`, written over at `at`. */
  ghost predicate Partly(a: seq<Byte>, r: seq<Byte>, at: nat, b: seq<Byte>) {
    |r| == |a| && forall i :: 0 <= i < |a| ==> r[i] == a[i] || (at <= i < at + |b| && r[i] == b[i - at])
  }

  /** However much of that write got through, each byte is an old one or one of the new. */
  lemma PartWithin(a: seq<Byte>, r: seq<Byte>, start: nat, n: nat, in_: nat, b: seq<Byte>)
    requires start + n <= |a| && in_ + |b| <= n
    requires Partly(a, r, start, Patched(a[start..start + n], in_, b))
    ensures Partly(a, r, start + in_, b)
  {}

  lemma SectorWritten(a: seq<Byte>, start: nat, in_: nat, b: seq<Byte>, k: nat)
    requires start + SECTOR <= |a| && in_ + |b| <= SECTOR && k <= SECTOR
    ensures var r := Patched(a, start, Patched(a[start..start + SECTOR], in_, b)[..k]);
      Partly(a, r, start + in_, b) && (k == SECTOR ==> r == Patched(a, start + in_, b))
  {
    var sector := Patched(a[start..start + SECTOR], in_, b);
    PartWithin(a, Patched(a, start, sector[..k]), start, SECTOR, in_, b);
    if k == SECTOR {
      assert sector[..k] == sector;
      PatchWithin(a, start, SECTOR, in_, b);
    }
  }

  lemma SliceSlice(a: seq<Byte>, at: nat, len: nat, from: nat, n: nat)
    requires at + len <= |a| && from + n <= len
    ensures a[at..at + len][from..from + n] == a[at + from..at + from + n]
  {
    var l, r := a[at..at + len][from..from + n], a[at + from..at + from + n];
    forall k | 0 <= k < n ensures l[k] == r[k] {}
  }

  /** The disk once the first `done` bytes of a write are stored. */
  function SoFar(a: seq<Byte>, at: nat, src: seq<Byte>, done: nat): (r: seq<Byte>)
    requires done <= |src| && (done > 0 ==> at + done <= |a|)
    ensures |r| == |a|
  {
    if done == 0 then a else Patched(a, at, src[..done])
  }

  lemma SoFarMore(a: seq<Byte>, at: nat, src: seq<Byte>, done: nat, n: nat)
    requires done + n <= |src| && at + done + n <= |a|
    ensures Patched(SoFar(a, at, src, done), at + done, src[done..][..n]) == SoFar(a, at, src, done + n)
  {
    if done == 0 {
      assert src[0..][..n] == src[..n];
      if n == 0 {
        assert Patched(a, at, src[..0]) == a;
      }
    } else {
      PatchMore(a, at, src[..done], src[done..][..n]);
      assert src[..done] + src[done..][..n] == src[..done + n];
    }
  }

  lemma SoFarPartly(a: seq<Byte>, at: nat, src: seq<Byte>, done: nat, r: seq<Byte>, n: nat)
    requires done + n <= |src| && (done > 0 ==> at + done <= |a|)
    requires Partly(SoFar(a, at, src, done), r, at + done, src[done..][..n])
    ensures Partly(a, r, at, src)
  {}

  lemma SoFarRest(a: seq<Byte>, at: nat, src: seq<Byte>, done: nat, r: seq<Byte>)
    requires done <= |src| && (done > 0 ==> at + done <= |a|)
    requires Partly(SoFar(a, at, src, done), r, at + done, src[done..])
    ensures Partly(a, r, at, src)
  {
    assert src[done..][..|src| - done] == src[done..];
    SoFarPartly(a, at, src, done, r, |src| - done);
  }

  lemma SoFarAll(a: seq<Byte>, at: nat, src: seq<Byte>)
    requires src != [] ==> at + |src| <= |a|
    ensures Partly(a, SoFar(a, at, src, |src|), at, src)
    ensures src != [] ==> SoFar(a, at, src, |src|) == Patched(a, at, src)
  {
    assert src[..|src|] == src;
  }

  datatype Result = Ok | Eio | Erofs | Enomem

  datatype Fault = Fine | Fails(stored: nat)

  predicate AllFine(faults: seq<Fault>) {
    faults == [] || (faults[0] == Fine && AllFine(faults[1..]))
  }

  /** A place on a disk of whole sectors is in a sector of it. */
  lemma SectorWithin(pos: nat, size: nat)
    requires pos < size && size % SECTOR == 0
    ensures (pos / SECTOR + 1) * SECTOR <= size
  {}

  class Disk {
    var data: seq<Byte>
    var faults: seq<Fault>   // how the commands to come will go

    constructor (d: seq<Byte>, f: seq<Fault>)
      ensures data == d && faults == f
    {
      data, faults := d, f;
    }

    method NextFault() returns (f: Fault)
      modifies this`faults
      ensures AllFine(old(faults)) ==> AllFine(faults) && f == Fine
    {
      f := Fine;
      if faults != [] {
        f, faults := faults[0], faults[1..];
      }
    }

    /** A read command for `count` sectors; the device refuses what is beyond its end. */
    method ReadSectors(lba: nat, count: nat) returns (ok: bool, buf: seq<Byte>)
      modifies this`faults
      ensures ok ==> (lba + count) * SECTOR <= |data| && buf == data[lba * SECTOR..(lba + count) * SECTOR]
      ensures AllFine(old(faults)) ==> AllFine(faults) && (ok <==> (lba + count) * SECTOR <= |data|)
    {
      var f := NextFault();
      if f != Fine || (lba + count) * SECTOR > |data| {
        return false, [];
      }
      ok, buf := true, data[lba * SECTOR..(lba + count) * SECTOR];
    }

    /** A write command; when it fails, some first part may have been stored. */
    method WriteSectors(lba: nat, buf: seq<Byte>) returns (ok: bool, ghost stored: nat)
      modifies this
      ensures stored <= |buf| && (ok ==> stored == |buf|) && (stored > 0 ==> lba * SECTOR + |buf| <= old(|data|))
      ensures ok ==> lba * SECTOR + |buf| <= old(|data|)
      ensures AllFine(old(faults)) ==> AllFine(faults) && (ok <==> lba * SECTOR + |buf| <= old(|data|))
      ensures if lba * SECTOR + |buf| <= old(|data|) then data == Patched(old(data), lba * SECTOR, buf[..stored])
        else data == old(data)
    {
      var f := NextFault();
      if lba * SECTOR + |buf| > |data| {
        return false, 0;
      }
      match f
      case Fine =>
        data := Patched(data, lba * SECTOR, buf);
        ok, stored := true, |buf|;
        assert buf[..stored] == buf;
      case Fails(k) =>
        var n := if k <= |buf| then k else |buf|;
        data := Patched(data, lba * SECTOR, buf[..n]);
        ok, stored := false, n;
    }

    // ---- ata ----

    /** `ata_full_sectors`: whole sectors to move in one command, none off a boundary. */
    static function FullSectors(pos: nat, left: nat, most: nat): (n: nat)
      requires most > 0
      ensures n <= most && n * SECTOR <= left && (n > 0 ==> pos % SECTOR == 0)
      ensures n == 0 ==> pos % SECTOR != 0 || left < SECTOR
    {
      if pos % SECTOR != 0 || left < SECTOR then 0
      else if left / SECTOR > most then most else left / SECTOR
    }

    static lemma SectorOf(pos: nat)
      ensures pos / SECTOR * SECTOR + pos % SECTOR == pos
    {}

    /** How far one turn of the partial-sector path goes. */
    static function Partial(pos: nat, left: nat): (n: nat)
      requires left > 0
      ensures 0 < n <= left && pos % SECTOR + n <= SECTOR
    {
      if left < SECTOR - pos % SECTOR then left else SECTOR - pos % SECTOR
    }

    /** One turn of the loop of `ata_read_bytes` */
    method AtaReadTurn(pos: nat, left: nat, most: nat) returns (ok: bool, part: seq<Byte>)
      requires left > 0 && most > 0
      modifies this`faults
      ensures ok ==> 0 < |part| <= left && pos + |part| <= |data| && part == data[pos..pos + |part|]
      ensures AllFine(old(faults)) ==> AllFine(faults) && (|data| % SECTOR == 0 && pos + left <= |data| ==> ok)
    {
      SectorOf(pos);
      if |data| % SECTOR == 0 && pos < |data| {
        SectorWithin(pos, |data|);
      }
      var sectors := FullSectors(pos, left, most);
      if sectors > 0 {
        ok, part := ReadSectors(pos / SECTOR, sectors);
        return;
      }
      var within, n := pos % SECTOR, Partial(pos, left);
      var bounce;
      ok, bounce := ReadSectors(pos / SECTOR, 1);
      if !ok {
        return false, [];
      }
      part := bounce[within..within + n];
      SliceSlice(data, pos / SECTOR * SECTOR, SECTOR, within, n);
    }

    static lemma SliceMore(a: seq<Byte>, i: nat, j: nat, k: nat)
      requires i <= j <= k <= |a|
      ensures a[i..j] + a[j..k] == a[i..k]
    {}

    /** `ata_read_bytes`: on success exactly the bytes `[begin, end)`. */
    method AtaRead(begin: nat, end: nat, most: nat) returns (ok: bool, out: seq<Byte>)
      requires begin <= end && most > 0
      modifies this`faults
      ensures ok ==> |out| == end - begin && (begin < end ==> end <= |data| && out == data[begin..end])
      ensures AllFine(old(faults)) ==> AllFine(faults) && (|data| % SECTOR == 0 && end <= |data| ==> ok)
    {
      var pos := begin;
      out := [];
      while pos < end
        invariant begin <= pos <= end && |out| == pos - begin && (AllFine(old(faults)) ==> AllFine(faults))
        invariant begin < pos ==> pos <= |data| && out == data[begin..pos]
        decreases end - pos
      {
        var got, part := AtaReadTurn(pos, end - pos, most);
        if !got {
          return false, [];
        }
        SliceMore(data, begin, pos, pos + |part|);
        out := out + part;
        pos := pos + |part|;
      }
      ok := true;
    }

    method WriteRun(pos: nat, src: seq<Byte>) returns (ok: bool)
      requires pos % SECTOR == 0
      modifies this
      ensures Partly(old(data), data, pos, src)
      ensures ok ==> pos + |src| <= |data| && data == Patched(old(data), pos, src)
      ensures AllFine(old(faults)) ==> AllFine(faults) && (pos + |src| <= |data| ==> ok)
    {
      SectorOf(pos);
      ghost var stored;
      ok, stored := WriteSectors(pos / SECTOR, src);
      assert src[..|src|] == src;
    }

    /** Part of one sector: read it, change it, write it back. */
    method ChangeSector(lba: nat, within: nat, src: seq<Byte>) returns (ok: bool)
      requires within + |src| <= SECTOR
      modifies this
      ensures Partly(old(data), data, lba * SECTOR + within, src)
      ensures ok ==> (lba + 1) * SECTOR <= |data| && data == Patched(old(data), lba * SECTOR + within, src)
      ensures AllFine(old(faults)) ==> AllFine(faults) && ((lba + 1) * SECTOR <= |data| ==> ok)
    {
      var bounce;
      ok, bounce := ReadSectors(lba, 1);
      if !ok {
        return;
      }
      ghost var before := data;
      ghost var stored;
      ok, stored := WriteSectors(lba, Patched(bounce, within, src));
      SectorWritten(before, lba * SECTOR, within, src, stored);
    }

    method AtaWritePart(pos: nat, src: seq<Byte>) returns (ok: bool)
      requires pos % SECTOR + |src| <= SECTOR
      modifies this
      ensures Partly(old(data), data, pos, src)
      ensures ok ==> pos + |src| <= |data| && data == Patched(old(data), pos, src)
      ensures AllFine(old(faults)) ==> AllFine(faults) && (|data| % SECTOR == 0 && pos < |data| ==> ok)
    {
      SectorOf(pos);
      if |data| % SECTOR == 0 && pos < |data| {
        SectorWithin(pos, |data|);
      }
      ok := ChangeSector(pos / SECTOR, pos % SECTOR, src);
    }

    /** One turn of the loop of `ata_write_bytes` */
    method AtaWriteTurn(pos: nat, src: seq<Byte>, most: nat) returns (ok: bool, n: nat)
      requires |src| > 0 && most > 0
      modifies this
      ensures 0 < n <= |src| && |data| == |old(data)|
      ensures if ok then pos + n <= |data| && data == Patched(old(data), pos, src[..n])
        else Partly(old(data), data, pos, src)
      ensures AllFine(old(faults)) ==> AllFine(faults) && (|data| % SECTOR == 0 && pos + |src| <= |data| ==> ok)
    {
      n := FullSectors(pos, |src|, most) * SECTOR;
      if n > 0 {
        ok := WriteRun(pos, src[..n]);
      } else {
        n := Partial(pos, |src|);
        ok := AtaWritePart(pos, src[..n]);
      }
    }

    /** The same, as a write that has come to `done` sees it. */
    method AtaWriteOn(ghost was: seq<Byte>, begin: nat, src: seq<Byte>, done: nat, most: nat)
      returns (ok: bool, n: nat)
      requires done < |src| && most > 0 && (done > 0 ==> begin + done <= |was|) && data == SoFar(was, begin, src, done)
      modifies this
      ensures 0 < n <= |src| - done && |data| == |was|
      ensures if ok then begin + done + n <= |was| && data == SoFar(was, begin, src, done + n)
        else Partly(was, data, begin, src)
      ensures AllFine(old(faults)) ==> AllFine(faults) && (|was| % SECTOR == 0 && begin + |src| <= |was| ==> ok)
    {
      ok, n := AtaWriteTurn(begin + done, src[done..], most);
      if ok {
        SoFarMore(was, begin, src, done, n);
      } else {
        SoFarRest(was, begin, src, done, data);
      }
    }

    /** `ata_write_bytes`: on success the disk is as one write of the bytes would leave
        it; in any case each byte is as it was or one of the new. */
    method AtaWrite(begin: nat, src: seq<Byte>, most: nat) returns (ok: bool)
      requires most > 0
      modifies this
      ensures Partly(old(data), data, begin, src)
      ensures ok && src != [] ==> begin + |src| <= |data| && data == Patched(old(data), begin, src)
      ensures AllFine(old(faults)) ==> AllFine(faults) && (|data| % SECTOR == 0 && begin + |src| <= |data| ==> ok)
    {
      var done := 0;
      while done < |src|
        invariant done <= |src| && (AllFine(old(faults)) ==> AllFine(faults))
        invariant (done > 0 ==> begin + done <= |old(data)|) && data == SoFar(old(data), begin, src, done)
        decreases |src| - done
      {
        var put, n := AtaWriteOn(old(data), begin, src, done, most);
        if !put {
          return false;
        }
        done := done + n;
      }
      SoFarAll(old(data), begin, src);
      ok := true;
    }

    // ---- virtio ----

    static lemma AddAligned(a: nat, b: nat)
      requires a % SECTOR == 0 && b % SECTOR == 0
      ensures (a + b) % SECTOR == 0
    {}

    static lemma Sectors(pos: nat, n: nat)
      requires pos % SECTOR == 0 && n % SECTOR == 0
      ensures pos / SECTOR * SECTOR == pos && (pos / SECTOR + n / SECTOR) * SECTOR == pos + n
    {}

    /** The bytes of the next request of `vblk_rw_aligned` */
    static function Chunk(left: nat, maxBytes: nat): (n: nat)
      requires left % SECTOR == 0 && maxBytes % SECTOR == 0 && left > 0 && maxBytes > 0
      ensures 0 < n <= left && n % SECTOR == 0 && (left - n) % SECTOR == 0
    {
      if left < maxBytes then left else maxBytes
    }

    /** One request: whole sectors from a boundary. */
    method ReadRun(pos: nat, n: nat) returns (ok: bool, part: seq<Byte>)
      requires pos % SECTOR == 0 && n % SECTOR == 0
      modifies this`faults
      ensures ok ==> pos + n <= |data| && part == data[pos..pos + n]
      ensures AllFine(old(faults)) ==> AllFine(faults) && (pos + n <= |data| ==> ok)
    {
      Sectors(pos, n);
      ok, part := ReadSectors(pos / SECTOR, n / SECTOR);
    }

    /** `vblk_rw_aligned`, reading */
    method AlignedRead(off: nat, len: nat, maxBytes: nat) returns (ok: bool, out: seq<Byte>)
      requires off % SECTOR == 0 && len % SECTOR == 0 && maxBytes % SECTOR == 0 && maxBytes > 0
      modifies this`faults
      ensures ok ==> |out| == len && (len > 0 ==> off + len <= |data| && out == data[off..off + len])
      ensures AllFine(old(faults)) ==> AllFine(faults) && (off + len <= |data| || len == 0 ==> ok)
    {
      var pos, left := off, len;
      out := [];
      while left > 0
        invariant 0 <= left && pos + left == off + len && pos >= off && pos % SECTOR == 0 && left % SECTOR == 0
        invariant |out| == pos - off && (pos > off ==> pos <= |data| && out == data[off..pos])
        invariant AllFine(old(faults)) ==> AllFine(faults)
        decreases left
      {
        var n := Chunk(left, maxBytes);
        var got, part := ReadRun(pos, n);
        if !got {
          return false, [];
        }
        SliceMore(data, off, pos, pos + n);
        AddAligned(pos, n);
        out := out + part;
        pos, left := pos + n, left - n;
      }
      ok := true;
    }

    /** `vblk_rw_aligned`, writing */
    method AlignedWrite(off: nat, src: seq<Byte>, maxBytes: nat) returns (ok: bool)
      requires off % SECTOR == 0 && |src| % SECTOR == 0 && maxBytes % SECTOR == 0 && maxBytes > 0
      modifies this
      ensures Partly(old(data), data, off, src)
      ensures ok && src != [] ==> off + |src| <= |data| && data == Patched(old(data), off, src)
      ensures ok && src == [] ==> data == old(data)
      ensures AllFine(old(faults)) ==> AllFine(faults) && (off + |src| <= |data| || src == [] ==> ok)
    {
      var done, left := 0, |src|;
      while left > 0
        invariant 0 <= done && 0 <= left && done + left == |src| && left % SECTOR == 0 && (off + done) % SECTOR == 0
        invariant (done > 0 ==> off + done <= |old(data)|) && data == SoFar(old(data), off, src, done)
        invariant AllFine(old(faults)) ==> AllFine(faults)
        decreases left
      {
        var n := Chunk(left, maxBytes);
        var put := WriteRun(off + done, src[done..][..n]);
        if !put {
          SoFarPartly(old(data), off, src, done, data, n);
          return false;
        }
        SoFarMore(old(data), off, src, done, n);
        AddAligned(off + done, n);
        done, left := done + n, left - n;
      }
      SoFarAll(old(data), off, src);
      ok := true;
    }

    /** The request passes the size check of `vblk_rw`, whose sum is cut to 64 bits. */
    static predicate Admitted(off: nat, len: nat, size: nat) {
      (off + len + SECTOR - 1) % WORD / SECTOR <= size / SECTOR
    }

    /** `vblk_rw`, reading.  `heap` is what the transfer buffer held before, if there was
        room for one. */
    method VblkRead(off: nat, len: nat, maxBytes: nat, heap: Option<seq<Byte>>) returns (r: Result, out: seq<Byte>)
      requires off < WORD && len < TWO_32 && maxBytes % SECTOR == 0 && maxBytes > 0
      requires heap.Some? ==> |heap.value| == Span64(off, len)
      modifies this`faults
      ensures len == 0 ==> r == Ok
      ensures Sound(old(faults), data, off, len) && (IsAligned(off, len) || heap.Some?) ==> r == Ok
      ensures len > 0 && !Admitted(off, len, |data|) ==> r == Eio
      ensures r == Ok && len > 0 && (IsAligned(off, len) || Span(off, len) < TWO_32) ==>
        off + len <= |data| && out == data[off..off + len]
      ensures r == Ok && len > 0 && !IsAligned(off, len) ==>
        && heap.Some? && |heap.value| == Span(off, len) && Reaches(data, off, len)
        && out == ReadOut(data, off, len, heap.value)
    {
      if len == 0 {
        return Ok, [];
      }
      if Sound(faults, data, off, len) {
        FitsAdmitted(off, len, |data|);
      }
      if !Admitted(off, len, |data|) {
        return Eio, [];
      }
      if IsAligned(off, len) {
        var ok, got := AlignedRead(off, len, maxBytes);
        return if ok then Ok else Eio, got;
      }
      if heap.None? {
        return Enomem, [];
      }
      SpanWraps(off, len);
      r, out := ReadSpan(off, len, maxBytes, heap.value);
    }

    /** The path of `vblk_rw` through a transfer buffer, reading */
    method ReadSpan(off: nat, len: nat, maxBytes: nat, heap: seq<Byte>) returns (r: Result, out: seq<Byte>)
      requires len > 0 && |heap| == Span(off, len) && maxBytes % SECTOR == 0 && maxBytes > 0
      modifies this`faults
      ensures r == Ok || r == Eio
      ensures Sound(old(faults), data, off, len) ==> r == Ok
      ensures r == Ok ==> Reaches(data, off, len) && out == ReadOut(data, off, len, heap)
      ensures r == Ok && Span(off, len) < TWO_32 ==> off + len <= |data| && out == data[off..off + len]
    {
      SpanFacts(off, len);
      var start, t := Down(off), Cut(|heap|);
      CutAligned(|heap|);
      if Sound(faults, data, off, len) {
        SpanWithin(off, len, |data|);
      }
      var ok, got := AlignedRead(start, t, maxBytes);
      if !ok {
        return Eio, [];
      }
      var tmp := got + heap[t..];
      assert t == 0 ==> got == [];
      out := tmp[off - start..off - start + len];
      r := Ok;
      if Span(off, len) < TWO_32 {
        Modular.SmallMod(|heap|, TWO_32);
        ReadOutRight(data, off, len, heap);
      }
    }

    /** `vblk_rw`, writing; whatever comes of it, each byte of the disk is as it was or one
        of the caller's in its place. */
    method VblkWrite(off: nat, src: seq<Byte>, maxBytes: nat, heap: Option<seq<Byte>>,
                     readOnly: bool) returns (r: Result)
      requires off < WORD && |src| < TWO_32 && maxBytes % SECTOR == 0 && maxBytes > 0
      requires heap.Some? ==> |heap.value| == Span64(off, |src|)
      modifies this
      ensures Partly(old(data), data, off, src)
      ensures src == [] ==> r == Ok && data == old(data)
      ensures Sound(old(faults), old(data), off, |src|) && !readOnly && (IsAligned(off, |src|) || heap.Some?) ==>
                r == Ok
      ensures src != [] && !Admitted(off, |src|, |old(data)|) ==> r == Eio
      ensures src != [] && Admitted(off, |src|, |old(data)|) && readOnly ==> r == Erofs
      ensures r in {Enomem, Erofs} ==> data == old(data)
      ensures r == Ok && src != [] && (IsAligned(off, |src|) || Span(off, |src|) < TWO_32) ==>
        off + |src| <= |data| && data == Patched(old(data), off, src)
      ensures r == Ok && src != [] && !IsAligned(off, |src|) ==>
        && heap.Some? && |heap.value| == Span(off, |src|) && Reaches(old(data), off, |src|)
        && data == WriteOut(old(data), off, src, heap.value)
    {
      if src == [] {
        return Ok;
      }
      if Sound(faults, data, off, |src|) {
        FitsAdmitted(off, |src|, |data|);
      }
      if !Admitted(off, |src|, |data|) {
        return Eio;
      }
      if readOnly {
        return Erofs;
      }
      if IsAligned(off, |src|) {
        var ok := AlignedWrite(off, src, maxBytes);
        return if ok then Ok else Eio;
      }
      if heap.None? {
        return Enomem;
      }
      SpanWraps(off, |src|);
      r := WriteSpan(off, src, maxBytes, heap.value);
    }

    /** The path of `vblk_rw` through a transfer buffer, writing */
    method WriteSpan(off: nat, src: seq<Byte>, maxBytes: nat, heap: seq<Byte>) returns (r: Result)
      requires src != [] && |heap| == Span(off, |src|) && maxBytes % SECTOR == 0 && maxBytes > 0
      modifies this
      ensures Partly(old(data), data, off, src) && (r == Ok || r == Eio)
      ensures Sound(old(faults), old(data), off, |src|) ==> r == Ok
      ensures r == Ok ==> Reaches(old(data), off, |src|) && data == WriteOut(old(data), off, src, heap)
      ensures r == Ok && Span(off, |src|) < TWO_32 ==> off + |src| <= |data| && data == Patched(old(data), off, src)
    {
      r := ChangeSpan(off, src, maxBytes, heap);
      if r == Ok && Span(off, |src|) < TWO_32 {
        Modular.SmallMod(|heap|, TWO_32);
        SpanFacts(off, |src|);
        WriteOutRight(old(data), off, src, heap);
      }
    }

    method ChangeSpan(off: nat, src: seq<Byte>, maxBytes: nat, heap: seq<Byte>) returns (r: Result)
      requires src != [] && |heap| == Span(off, |src|) && maxBytes % SECTOR == 0 && maxBytes > 0
      modifies this
      ensures Partly(old(data), data, off, src) && (r == Ok || r == Eio)
      ensures Sound(old(faults), old(data), off, |src|) ==> r == Ok
      ensures r == Ok ==> Reaches(old(data), off, |src|) && data == WriteOut(old(data), off, src, heap)
    {
      SpanFacts(off, |src|);
      var start, t := Down(off), Cut(|heap|);
      CutAligned(|heap|);
      if Sound(faults, data, off, |src|) {
        SpanWithin(off, |src|, |data|);
      }
      var ok, got := AlignedRead(start, t, maxBytes);
      if !ok {
        return Eio;
      }
      assert t == 0 ==> got == [];
      ok := WriteBack(start, t, got + heap[t..], off, src, maxBytes);
      r := if ok then Ok else Eio;
    }

    /** The caller's bytes put into the buffer, and its first `t` bytes written back. */
    method WriteBack(start: nat, t: nat, buf: seq<Byte>, off: nat, src: seq<Byte>, maxBytes: nat) returns (ok: bool)
      requires start % SECTOR == 0 && t % SECTOR == 0 && maxBytes % SECTOR == 0 && maxBytes > 0
      requires start <= off && off - start + |src| <= |buf| && t <= |buf|
      requires t > 0 ==> start + t <= |data| && buf[..t] == data[start..start + t]
      modifies this
      ensures Partly(old(data), data, off, src)
      ensures ok && t > 0 ==> data == Patched(old(data), start, Patched(buf, off - start, src)[..t])
      ensures ok && t == 0 ==> data == old(data)
      ensures AllFine(old(faults)) ==> ok
    {
      ghost var before := data;
      ok := AlignedWrite(start, Patched(buf, off - start, src)[..t], maxBytes);
      SpanPartly(before, data, start, t, off, src, buf);
    }
  }

  // ---- vblk_rw ----

  /** No fault to come, and the bytes on a disk of whole sectors. */
  predicate Sound(faults: seq<Fault>, data: seq<Byte>, off: nat, len: nat) {
    AllFine(faults) && |data| % SECTOR == 0 && off + len <= |data|
  }

  lemma FitsAdmitted(off: nat, len: nat, size: nat)
    requires off + len <= size && size % SECTOR == 0
    ensures Disk.Admitted(off, len, size)
  {
    var e := off + len + SECTOR - 1;
    assert e / SECTOR <= size / SECTOR;
    assert e % WORD <= e;
  }

  lemma SpanWithin(off: nat, len: nat, size: nat)
    requires off + len <= size && size % SECTOR == 0
    ensures Down(off) + Span(off, len) <= size
  {}

  function Down(n: nat): nat {
    n / SECTOR * SECTOR
  }

  function UpTo(n: nat): nat {
    (n + SECTOR - 1) / SECTOR * SECTOR
  }

  /** The bytes of the sectors that hold `[off, off + len)`. */
  function Span(off: nat, len: nat): nat {
    UpTo(off + len) - Down(off)
  }

  /** The same in 64-bit arithmetic, as the code computes it. */
  function Span64(off: nat, len: nat): nat {
    ((off + len + SECTOR - 1) % WORD / SECTOR * SECTOR - Down(off)) % WORD
  }

  predicate IsAligned(off: nat, len: nat) {
    off % SECTOR == 0 && len % SECTOR == 0
  }

  lemma CutAligned(n: nat)
    requires n % SECTOR == 0
    ensures Cut(n) % SECTOR == 0 && Cut(n) <= n
  {
    Modular.ModMod(n, TWO_32, SECTOR);
  }

  lemma SpanFacts(off: nat, len: nat)
    ensures Down(off) <= off && off - Down(off) + len <= Span(off, len) < len + 1024
    ensures Down(off) % SECTOR == 0 && Span(off, len) % SECTOR == 0
  {}

  lemma SpanWraps(off: nat, len: nat)
    requires off < WORD && len < TWO_32
    ensures Span64(off, len) == Span(off, len)
  {
    var e := off + len + SECTOR - 1;
    SpanFacts(off, len);
    if e >= WORD {
      assert e % WORD == e - WORD;
      assert (e - WORD) / SECTOR * SECTOR == e / SECTOR * SECTOR - WORD;
      assert Span64(off, len) == (Span(off, len) - WORD) % WORD;
    }
  }

  /** What the transfer buffer holds after its first `t` bytes were read into it. */
  function Tmp(data: seq<Byte>, start: nat, t: nat, heap: seq<Byte>): seq<Byte>
    requires t <= |heap| && (t > 0 ==> start + t <= |data|)
  {
    (if t > 0 then data[start..start + t] else []) + heap[t..]
  }

  /** The length `vblk_rw_aligned` is given for the whole buffer: cut to 32 bits. */
  function Cut(n: nat): nat {
    n % TWO_32
  }

  /** What an unaligned read leaves in the caller's buffer. */
  function ReadOutAt(data: seq<Byte>, start: nat, t: nat, within: nat, len: nat, heap: seq<Byte>): seq<Byte>
    requires t <= |heap| && (t > 0 ==> start + t <= |data|) && within + len <= |heap|
  {
    Tmp(data, start, t, heap)[within..within + len]
  }

  /** What an unaligned write leaves on the disk. */
  function WriteOutAt(data: seq<Byte>, start: nat, t: nat, within: nat, src: seq<Byte>, heap: seq<Byte>): seq<Byte>
    requires t <= |heap| && (t > 0 ==> start + t <= |data|) && within + |src| <= |heap|
  {
    if t > 0 then Patched(data, start, Patched(Tmp(data, start, t, heap), within, src)[..t]) else data
  }

  /** The sectors of the request are on the disk as far as the cut length goes. */
  predicate Reaches(data: seq<Byte>, off: nat, len: nat) {
    Cut(Span(off, len)) > 0 ==> Down(off) + Cut(Span(off, len)) <= |data|
  }

  function ReadOut(data: seq<Byte>, off: nat, len: nat, heap: seq<Byte>): seq<Byte>
    requires |heap| == Span(off, len) && Reaches(data, off, len)
  {
    SpanFacts(off, len);
    ReadOutAt(data, Down(off), Cut(|heap|), off - Down(off), len, heap)
  }

  function WriteOut(data: seq<Byte>, off: nat, src: seq<Byte>, heap: seq<Byte>): seq<Byte>
    requires |heap| == Span(off, |src|) && Reaches(data, off, |src|)
  {
    SpanFacts(off, |src|);
    WriteOutAt(data, Down(off), Cut(|heap|), off - Down(off), src, heap)
  }

  /** Sectors read, changed and written back as far as `t` bytes: only the caller's bytes
      can differ. */
  lemma SpanPartly(a: seq<Byte>, r: seq<Byte>, start: nat, t: nat, off: nat, src: seq<Byte>, buf: seq<Byte>)
    requires start <= off && off - start + |src| <= |buf| && t <= |buf|
    requires t > 0 ==> start + t <= |a| && buf[..t] == a[start..start + t]
    requires Partly(a, r, start, Patched(buf, off - start, src)[..t])
    ensures Partly(a, r, off, src)
  {
    var new_ := Patched(buf, off - start, src)[..t];
    forall i | 0 <= i < |a| ensures r[i] == a[i] || (off <= i < off + |src| && r[i] == src[i - off]) {
      if start <= i < start + t {
        assert buf[..t][i - start] == a[start..start + t][i - start];
        assert new_[i - start] == if off <= i < off + |src| then src[i - off] else buf[i - start];
      }
    }
  }

  lemma TmpWhole(data: seq<Byte>, start: nat, heap: seq<Byte>)
    requires heap != [] && start + |heap| <= |data|
    ensures Tmp(data, start, |heap|, heap) == data[start..start + |heap|]
  {}

  lemma ReadOutAtRight(data: seq<Byte>, start: nat, within: nat, len: nat, heap: seq<Byte>)
    requires heap != [] && start + |heap| <= |data| && within + len <= |heap|
    ensures ReadOutAt(data, start, |heap|, within, len, heap) == data[start + within..start + within + len]
  {
    TmpWhole(data, start, heap);
    SliceSlice(data, start, |heap|, within, len);
  }

  lemma ReadOutRight(data: seq<Byte>, off: nat, len: nat, heap: seq<Byte>)
    requires |heap| == Span(off, len) < TWO_32 && len > 0 && Down(off) + Span(off, len) <= |data|
    ensures off + len <= |data| && Reaches(data, off, len) && ReadOut(data, off, len, heap) == data[off..off + len]
  {
    SpanFacts(off, len);
    Modular.SmallMod(|heap|, TWO_32);
    ReadOutAtRight(data, Down(off), off - Down(off), len, heap);
  }

  lemma WriteOutAtRight(data: seq<Byte>, start: nat, within: nat, src: seq<Byte>, heap: seq<Byte>)
    requires heap != [] && start + |heap| <= |data| && within + |src| <= |heap|
    ensures WriteOutAt(data, start, |heap|, within, src, heap) == Patched(data, start + within, src)
  {
    TmpWhole(data, start, heap);
    var tmp := Patched(data[start..start + |heap|], within, src);
    assert tmp[..|heap|] == tmp;
    PatchWithin(data, start, |heap|, within, src);
  }

  lemma WriteOutRight(data: seq<Byte>, off: nat, src: seq<Byte>, heap: seq<Byte>)
    requires |heap| == Span(off, |src|) < TWO_32 && src != [] && Down(off) + Span(off, |src|) <= |data|
    ensures off + |src| <= |data| && Reaches(data, off, |src|)
    ensures WriteOut(data, off, src, heap) == Patched(data, off, src)
  {
    SpanFacts(off, |src|);
    Modular.SmallMod(|heap|, TWO_32);
    WriteOutAtRight(data, Down(off), off - Down(off), src, heap);
  }

  function Fill(n: nat, b: Byte): (r: seq<Byte>)
    ensures |r| == n && forall i :: 0 <= i < n ==> r[i] == b
  {
    seq(n, _ => b)
  }

  /** When the sectors span 2^32 bytes or more, the cut length falls short of the last
      byte wanted. */
  lemma CutShort(off: nat, len: nat)
    requires 0 < len < TWO_32 && Span(off, len) >= TWO_32
    ensures Cut(Span(off, len)) <= SECTOR < off - Down(off) + len
  {
    SpanFacts(off, len);
    assert Span(off, len) < 2 * TWO_32;
    assert Cut(Span(off, len)) == Span(off, len) - TWO_32;
  }

  /** Successful unaligned reads of these bytes give what the disk holds, whatever the disk
      and the heap hold. */
  ghost predicate ReadsRight(off: nat, len: nat) {
    forall data: seq<Byte>, heap: seq<Byte> ::
      |heap| == Span(off, len) && Down(off) + Span(off, len) <= |data| ==>
        off + len <= |data| && Reaches(data, off, len) && ReadOut(data, off, len, heap) == data[off..off + len]
  }

  /** Successful unaligned writes of these bytes store them and touch nothing else. */
  ghost predicate WritesRight(off: nat, len: nat) {
    forall data: seq<Byte>, src: seq<Byte>, heap: seq<Byte> ::
      |src| == len && |heap| == Span(off, len) && Down(off) + Span(off, len) <= |data| ==>
        off + len <= |data| && Reaches(data, off, len) && WriteOut(data, off, src, heap) == Patched(data, off, src)
  }

  /** Exactly when the sectors touched span less than 2^32 bytes. */
  lemma ReadsRightIff(off: nat, len: nat)
    requires 0 < len < TWO_32
    ensures ReadsRight(off, len) <==> Span(off, len) < TWO_32
  {
    if Span(off, len) < TWO_32 {
      forall data: seq<Byte>, heap: seq<Byte> | |heap| == Span(off, len) && Down(off) + Span(off, len) <= |data|
        ensures off + len <= |data| && Reaches(data, off, len) && ReadOut(data, off, len, heap) == data[off..off + len]
      {
        ReadOutRight(data, off, len, heap);
      }
    } else {
      LongReadWrong(off, len);
    }
  }

  lemma WritesRightIff(off: nat, len: nat)
    requires 0 < len < TWO_32
    ensures WritesRight(off, len) <==> Span(off, len) < TWO_32
  {
    if Span(off, len) < TWO_32 {
      forall data: seq<Byte>, src: seq<Byte>, heap: seq<Byte> |
        |src| == len && |heap| == Span(off, len) && Down(off) + Span(off, len) <= |data|
        ensures off + len <= |data| && Reaches(data, off, len)
        ensures WriteOut(data, off, src, heap) == Patched(data, off, src)
      {
        WriteOutRight(data, off, src, heap);
      }
    } else {
      LongWriteWrong(off, len);
    }
  }

  lemma LongReadWrong(off: nat, len: nat)
    requires 0 < len < TWO_32 && Span(off, len) >= TWO_32
    ensures var data, heap := Fill(Down(off) + Span(off, len), 0), Fill(Span(off, len), 1);
      off + len <= |data| && Reaches(data, off, len) && ReadOut(data, off, len, heap) != data[off..off + len]
  {
    SpanFacts(off, len);
    CutShort(off, len);
    var data, heap := Fill(Down(off) + Span(off, len), 0), Fill(Span(off, len), 1);
    assert ReadOut(data, off, len, heap)[len - 1] == 1;
    assert data[off..off + len][len - 1] == 0;
  }

  lemma LongWriteWrong(off: nat, len: nat)
    requires 0 < len < TWO_32 && Span(off, len) >= TWO_32
    ensures var data, src, heap := Fill(Down(off) + Span(off, len), 0), Fill(len, 1), Fill(Span(off, len), 0);
      && off + len <= |data| && Reaches(data, off, len) && |WriteOut(data, off, src, heap)| == |data|
      && WriteOut(data, off, src, heap) != Patched(data, off, src)
      && WriteOut(data, off, src, heap)[off..off + len] != src
  {
    SpanFacts(off, len);
    CutShort(off, len);
    var data, src, heap := Fill(Down(off) + Span(off, len), 0), Fill(len, 1), Fill(Span(off, len), 0);
    var now := WriteOut(data, off, src, heap);
    assert now[off + len - 1] == 0 && Patched(data, off, src)[off + len - 1] == 1;
    assert now[off..off + len][len - 1] == 0 && src[len - 1] == 1;
  }

  lemma SpanFits(off: nat, len: nat)
    requires off < WORD && len < TWO_32
    ensures Span64(off, len) == Span(off, len)
    ensures (Down(off) + Span(off, len)) % SECTOR == 0 && off + len <= Down(off) + Span(off, len)
  {
    SpanFacts(off, len);
    SpanWraps(off, len);
    Disk.AddAligned(Down(off), Span(off, len));
  }

  /** So a call on a sound disk comes back with success and other bytes than the disk holds. */
  method WrongRead(off: nat, len: nat, maxBytes: nat) returns (r: Result, out: seq<Byte>, held: seq<Byte>)
    requires off < WORD && 0 < len < TWO_32 && Span(off, len) >= TWO_32 && !IsAligned(off, len)
    requires maxBytes % SECTOR == 0 && maxBytes > 0
    ensures r == Ok && |held| == len && out != held
  {
    SpanFits(off, len);
    LongReadWrong(off, len);
    var data, heap := Fill(Down(off) + Span(off, len), 0), Fill(Span(off, len), 1);
    var disk := new Disk(data, []);
    r, out := disk.VblkRead(off, len, maxBytes, Some(heap));
    held := disk.data[off..off + len];
  }

  /** And one reports success without having stored all it was given. */
  method WrongWrite(off: nat, len: nat, maxBytes: nat) returns (r: Result, src: seq<Byte>, held: seq<Byte>)
    requires off < WORD && 0 < len < TWO_32 && Span(off, len) >= TWO_32 && !IsAligned(off, len)
    requires maxBytes % SECTOR == 0 && maxBytes > 0
    ensures r == Ok && |src| == |held| == len && held != src
  {
    SpanFits(off, len);
    LongWriteWrong(off, len);
    src := Fill(len, 1);
    var disk := new Disk(Fill(Down(off) + Span(off, len), 0), []);
    r := disk.VblkWrite(off, src, maxBytes, Some(Fill(Span(off, len), 0)), false);
    held := disk.data[off..off + len];
  }
}
