/** The words a futex call can name, and the 28 bits by which the kernel knows them.
 */
module FutexKeys {
  import opened Basics

  const CHANNEL: int := 0x10000000

  predicate IsFutexKey(key: int) {
    CHANNEL <= key < 2 * CHANNEL
  }

  /** A word of a space's own, by the space's tag and the word's number in it, or a word of
      memory that spaces share, by its number in memory. */
  datatype Word = Own(tag: bv64, index: bv64) | Common(index: bv64)

  /** What a space has at an address. */
  datatype Area = Nothing | PrivateArea | SharedArea(phys: bv64)

  /** What a caller gives, and what is there. */
  datatype Asked = Asked(vm: bv64, addr: bv64, area: Area)

  /** The word that names, unless it is misaligned or not there.  A space is an object on an
      8-byte boundary. */
  function Named(a: Asked): Option<Word> {
    if a.addr & 3 != 0 || a.area.Nothing? then None
    else if a.area.SharedArea? then Some(Common(a.area.phys >> 2))
    else Some(Own(a.vm >> 3, a.addr >> 2))
  }

  /** The low 28 bits. */
  function Low(id: bv64): bv28 {
    (id & 0x0FFF_FFFF) as bv28
  }

  function OwnBits(tag: bv64, index: bv64): bv28 {
    Low(index ^ tag)
  }

  function WordBits(w: Word): bv28 {
    match w
    case Own(tag, index) => OwnBits(tag, index)
    case Common(index) => Low(index)
  }

  /** `futex_key` */
  function Key(w: Word): (key: int)
    ensures IsFutexKey(key)
  {
    CHANNEL + WordBits(w) as int
  }

  lemma LowBitsMeet(tag: bv64, i: bv64)
    requires i & 0x1000_0000 == 0
    ensures OwnBits(tag, i) == OwnBits(tag, i | 0x1000_0000)
  {}

  lemma BitDiffers(i: bv64)
    requires i & 0x1000_0000 == 0
    ensures i != i | 0x1000_0000
  {}

  lemma SameBitsSameKey(v: Word, w: Word)
    requires WordBits(v) == WordBits(w)
    ensures Key(v) == Key(w)
  {}

  /** Two words 2^28 words, or 1 GiB, apart in one space have one key, wherever they are. */
  lemma KeysCollide(tag: bv64, i: bv64, v: Word, w: Word)
    requires i & 0x1000_0000 == 0 && v == Own(tag, i) && w == Own(tag, i | 0x1000_0000)
    ensures v != w && Key(v) == Key(w)
  {
    BitDiffers(i);
    LowBitsMeet(tag, i);
    SameBitsSameKey(v, w);
  }
}
