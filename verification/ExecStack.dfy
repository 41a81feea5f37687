/** The initial stack of a program (section 3.4.1 of the System V AMD64 ABI): strings from
    the top down, then the vector of words that points at them.
 */
module ExecStack {
  import opened Basics
  import Seqs
  import opened LittleEndian

  const TOP: nat := 0x7FFF_FFFF_F000
  const STACK_LIMIT: nat := 8 * 1024 * 1024
  const ARG_MAX: nat := 128 * 1024
  const AUXC: nat := 18
  const RANDOM: nat := 16

  /** What `execve` was given, and what the loader found. */
  datatype Request = Request(path: seq<nat>, argv: seq<seq<nat>>, envp: seq<seq<nat>>, random: seq<nat>, image: Elf)

  datatype Elf = Elf(phdr: nat, phent: nat, phnum: nat, interpBase: nat, entry: nat)

  /** A C string's characters: bytes, none of them zero. */
  predicate Chars(s: seq<nat>) {
    forall i :: 0 <= i < |s| ==> 0 < s[i] < 256
  }

  predicate AllChars(ss: seq<seq<nat>>) {
    forall i :: 0 <= i < |ss| ==> Chars(ss[i])
  }

  predicate RequestOk(q: Request) {
    && Chars(q.path) && AllChars(q.argv) && AllChars(q.envp) && |q.random| == RANDOM
    && q.image.phdr < WORD && q.image.phent < WORD && q.image.phnum < WORD
    && q.image.interpBase < WORD && q.image.entry < WORD
  }

  // ---- sizes ----

  /** The bytes the first `k` strings take, with their ends. */
  function StringBytes(ss: seq<seq<nat>>, k: nat): nat
    requires k <= |ss|
    decreases k, ss
  {
    if k == 0 then 0 else StringBytes(ss, k - 1) + |ss[k - 1]| + 1
  }

  function ByteCount(q: Request): nat {
    |q.path| + 1 + RANDOM + StringBytes(q.argv, |q.argv|) + StringBytes(q.envp, |q.envp|)
  }

  function WordCount(q: Request): nat {
    1 + |q.argv| + 1 + |q.envp| + 1 + AUXC * 2
  }

  function Total(q: Request): nat {
    (ByteCount(q) + WordCount(q) * 8 + 64 + PAGE - 1) / PAGE * PAGE
  }

  predicate TooBig(q: Request) {
    ByteCount(q) > ARG_MAX
  }

  lemma {:induction false} AStringIsAByte(ss: seq<seq<nat>>, k: nat)
    requires k <= |ss|
    ensures k <= StringBytes(ss, k)
    decreases k
  {
    if k > 0 {
      AStringIsAByte(ss, k - 1);
    }
  }

  /** With the string limit, the whole image fits the stack by far. */
  lemma ImageFits(q: Request)
    requires !TooBig(q)
    ensures Total(q) <= STACK_LIMIT && ByteCount(q) + WordCount(q) * 8 + 64 <= Total(q)
  {
    AStringIsAByte(q.argv, |q.argv|);
    AStringIsAByte(q.envp, |q.envp|);
  }

  function StringsEnd(q: Request): int {
    TOP - ByteCount(q)
  }

  /** The stack pointer: below the strings, aligned down, and below the vector. */
  function StackTop(q: Request): int {
    StringsEnd(q) / 16 * 16 - (if WordCount(q) % 2 == 1 then 8 else 0) - WordCount(q) * 8
  }

  /** The zero bytes between the vector and the strings. */
  function Gap(q: Request): int {
    StringsEnd(q) - (StackTop(q) + WordCount(q) * 8)
  }

  /** The stack pointer is 16-byte aligned, the gap is small, and everything written lies in
      the image, which lies in the stack. */
  lemma StackFits(q: Request)
    requires !TooBig(q)
    ensures StackTop(q) % 16 == 0 && 0 <= Gap(q) < 24
    ensures TOP - STACK_LIMIT <= TOP - Total(q) <= StackTop(q) < TOP
  {
    ImageFits(q);
  }

  // ---- the strings ----

  function ItemCount(q: Request): nat {
    2 + |q.argv| + |q.envp|
  }

  /** What is pushed, in order: the path, the random bytes, the arguments, the
      environment. */
  function ItemAt(q: Request, j: nat): seq<nat> {
    var n := |q.argv|;
    if j == 0 then q.path + [0]
    else if j == 1 then q.random
    else if j < 2 + n then q.argv[j - 2] + [0]
    else if j < 2 + n + |q.envp| then q.envp[j - (2 + n)] + [0]
    else []
  }

  function Items(q: Request): (r: seq<seq<nat>>)
    ensures |r| == ItemCount(q)
  {
    seq(ItemCount(q), j requires 0 <= j => ItemAt(q, j))
  }

  /** The stack's bytes after `k` pushes, upwards from its top. */
  function Pushed(items: seq<seq<nat>>, k: nat): seq<nat>
    requires k <= |items|
    decreases k, items
  {
    if k == 0 then [] else items[k - 1] + Pushed(items, k - 1)
  }

  /** Where the `i`-th item begins. */
  function AddressOf(items: seq<seq<nat>>, i: nat): nat
    requires i < |items|
  {
    if |Pushed(items, i + 1)| <= TOP then TOP - |Pushed(items, i + 1)| else 0
  }

  function Addresses(items: seq<seq<nat>>): (r: seq<nat>)
    ensures |r| == |items|
  {
    seq(|items|, i requires 0 <= i < |items| => AddressOf(items, i))
  }

  /** From the `j`-th item on come the strings `ss` with their ends. */
  predicate StringsAre(items: seq<seq<nat>>, j: nat, ss: seq<seq<nat>>, n: nat)
    requires n <= |ss| && j + n <= |items|
    decreases n, j
  {
    n == 0 || (items[j + n - 1] == ss[n - 1] + [0] && StringsAre(items, j, ss, n - 1))
  }

  lemma {:induction false} StringsAreAt(items: seq<seq<nat>>, j: nat, ss: seq<seq<nat>>, n: nat, i: nat)
    requires i < n <= |ss| && j + n <= |items| && StringsAre(items, j, ss, n)
    ensures items[j + i] == ss[i] + [0]
    decreases n
  {
    if i < n - 1 {
      StringsAreAt(items, j, ss, n - 1, i);
    }
  }

  lemma {:induction false} ArgItems(q: Request, items: seq<seq<nat>>, n: nat)
    requires items == Items(q) && n <= |q.argv|
    ensures StringsAre(items, 2, q.argv, n)
    decreases n
  {
    if n > 0 {
      ArgItems(q, items, n - 1);
    }
  }

  lemma {:induction false} EnvItems(q: Request, items: seq<seq<nat>>, n: nat)
    requires items == Items(q) && n <= |q.envp|
    ensures StringsAre(items, 2 + |q.argv|, q.envp, n)
    decreases n
  {
    if n > 0 {
      EnvItems(q, items, n - 1);
    }
  }

  lemma {:induction false} StringsLength(items: seq<seq<nat>>, j: nat, ss: seq<seq<nat>>, n: nat)
    requires n <= |ss| && j + n <= |items| && StringsAre(items, j, ss, n)
    ensures |Pushed(items, j + n)| == |Pushed(items, j)| + StringBytes(ss, n)
    decreases n
  {
    if n > 0 {
      StringsLength(items, j, ss, n - 1);
    }
  }

  lemma FirstLength(items: seq<seq<nat>>)
    requires |items| >= 2
    ensures |Pushed(items, 2)| == |items[0]| + |items[1]|
  {
    assert |Pushed(items, 1)| == |items[0]| + |Pushed(items, 0)|;
  }

  lemma ItemsLength(q: Request, items: seq<seq<nat>>)
    requires |items| == ItemCount(q) && |items[0]| == |q.path| + 1 && |items[1]| == RANDOM
    requires StringsAre(items, 2, q.argv, |q.argv|) && StringsAre(items, 2 + |q.argv|, q.envp, |q.envp|)
    ensures |Pushed(items, |items|)| == ByteCount(q)
  {
    FirstLength(items);
    StringsLength(items, 2, q.argv, |q.argv|);
    StringsLength(items, 2 + |q.argv|, q.envp, |q.envp|);
  }

  lemma FirstItems(q: Request, items: seq<seq<nat>>)
    requires items == Items(q)
    ensures |items| == ItemCount(q) && items[0] == q.path + [0] && items[1] == q.random
  {}

  /** The strings take the bytes that were counted. */
  lemma PushedBytes(q: Request, items: seq<seq<nat>>)
    requires |q.random| == RANDOM && items == Items(q)
    ensures |Pushed(items, |items|)| == ByteCount(q)
  {
    FirstItems(q, items);
    ArgItems(q, items, |q.argv|);
    EnvItems(q, items, |q.envp|);
    ItemsLength(q, items);
  }

  lemma HoldsFirst(a: seq<nat>, b: seq<nat>)
    ensures Holds(a + b, 0, a)
  {}

  lemma HoldsLater(a: seq<nat>, b: seq<nat>, at: nat, r: seq<nat>)
    requires Holds(b, at, r)
    ensures Holds(a + b, |a| + at, r)
  {
    forall j | |a| + at <= j < |a| + at + |r| ensures (a + b)[j] == r[j - (|a| + at)] {
      assert (a + b)[j] == b[j - |a|];
    }
  }

  lemma PushedNext(items: seq<seq<nat>>, k: nat)
    requires k < |items|
    ensures Pushed(items, k + 1) == items[k] + Pushed(items, k)
  {}

  /** Every item stands where it was pushed. */
  lemma {:induction false} ItemStands(items: seq<seq<nat>>, k: nat, i: nat)
    requires i < k <= |items|
    ensures |Pushed(items, i + 1)| <= |Pushed(items, k)|
    ensures Holds(Pushed(items, k), |Pushed(items, k)| - |Pushed(items, i + 1)|, items[i])
    decreases k
  {
    PushedNext(items, k - 1);
    if i == k - 1 {
      HoldsFirst(items[i], Pushed(items, i));
    } else {
      ItemStands(items, k - 1, i);
      HoldsLater(items[k - 1], Pushed(items, k - 1), |Pushed(items, k - 1)| - |Pushed(items, i + 1)|, items[i]);
    }
  }

  // ---- the vector ----

  /** The keys of the auxiliary vector; two ends keep the word count what it is. */
  function AuxKey(k: nat): nat {
    match k
    case 0 => 3      // program headers
    case 1 => 4
    case 2 => 5
    case 3 => 6      // page size
    case 4 => 7      // interpreter base
    case 5 => 8
    case 6 => 9      // entry point
    case 7 => 11     // user and group ids
    case 8 => 12
    case 9 => 13
    case 10 => 14
    case 11 => 16
    case 12 => 17    // clock ticks
    case 13 => 23
    case 14 => 25    // random bytes
    case 15 => 31    // file name
    case _ => 0
  }

  function AuxValue(e: Elf, execfn: nat, random: nat, k: nat): nat {
    match k
    case 0 => e.phdr
    case 1 => e.phent
    case 2 => e.phnum
    case 3 => PAGE
    case 4 => e.interpBase
    case 6 => e.entry
    case 12 => 100
    case 14 => random
    case 15 => execfn
    case _ => 0
  }

  /** The `j`-th word the program finds at its stack pointer: the argument count, the
      arguments, an end, the environment, an end, the auxiliary pairs. */
  function VectorWord(q: Request, addr: seq<nat>, j: nat): nat
    requires |addr| == ItemCount(q)
  {
    var n, m := |q.argv|, |q.envp|;
    if j == 0 then n
    else if j < 1 + n then addr[1 + j]
    else if j == 1 + n then 0
    else if j < 2 + n + m then addr[j]
    else if j == 2 + n + m then 0
    else
      var t := j - (3 + n + m);
      if t % 2 == 0 then AuxKey(t / 2) else AuxValue(q.image, addr[0], addr[1], t / 2)
  }

  function Vector(q: Request, addr: seq<nat>): (r: seq<nat>)
    requires |addr| == ItemCount(q)
    ensures |r| == WordCount(q)
  {
    seq(WordCount(q), j requires 0 <= j && |addr| == ItemCount(q) => VectorWord(q, addr, j))
  }

  // ---- the image ----

  function Zeroes(n: nat): (r: seq<nat>)
    ensures |r| == n
    decreases n, 0
  {
    if n == 0 then [] else Zeroes(n - 1) + [0]
  }

  /** Words, a gap, and strings. */
  function Laid(w: seq<nat>, gap: nat, strings: seq<nat>): seq<nat> {
    Concat(Words(w), |w|) + Zeroes(gap) + strings
  }

  lemma LaidParts(w: seq<nat>, gap: nat, strings: seq<nat>)
    ensures var r := Laid(w, gap, strings);
      && |r| == 8 * |w| + gap + |strings|
      && Holds(r, 0, Concat(Words(w), |w|)) && Holds(r, |r| - |strings|, strings)
  {
    WordsLength(w, |w|);
    var a, z := Concat(Words(w), |w|), Zeroes(gap);
    HoldsFirst(a, z);
    HoldsMore(a + z, strings, 0, a);
    HoldsLast(a + z, strings);
  }

  /** The image from the stack pointer up. */
  function Region(q: Request): seq<nat>
    requires !TooBig(q)
  {
    StackFits(q);
    var items := Items(q);
    Laid(Vector(q, Addresses(items)), Gap(q), Pushed(items, |items|))
  }

  /** The image fills the stack from its pointer to its top exactly. */
  lemma RegionFills(q: Request)
    requires !TooBig(q) && |q.random| == RANDOM
    ensures |Region(q)| == TOP - StackTop(q)
  {
    StackFits(q);
    var items := Items(q);
    PushedBytes(q, items);
    LaidParts(Vector(q, Addresses(items)), Gap(q), Pushed(items, |items|));
  }

  // ---- what the program reads ----

  function Word(r: seq<nat>, i: nat): nat {
    if 8 * i + 8 <= |r| then Get(r, 8 * i, 8) else 0
  }

  /** A C string in memory, up to its end. */
  function CString(r: seq<nat>, at: nat): seq<nat>
    decreases |r| - at
  {
    if at >= |r| || r[at] == 0 then [] else [r[at]] + CString(r, at + 1)
  }

  /** The string a pointer leads to. */
  function StringAt(r: seq<nat>, top: int, a: nat): seq<nat> {
    if top <= a then CString(r, a - top) else []
  }

  /** The strings that `n` pointers from the `i`-th word on lead to. */
  function Strings(r: seq<nat>, top: int, i: nat, n: nat): (s: seq<seq<nat>>)
    ensures |s| == n
    decreases n, i
  {
    if n == 0 then [] else Strings(r, top, i, n - 1) + [StringAt(r, top, Word(r, i + n - 1))]
  }

  /** How many pointers come before the null pointer. */
  function Pointers(r: seq<nat>, i: nat): nat
    decreases |r| - 8 * i
  {
    if 8 * i + 8 > |r| || Word(r, i) == 0 then 0 else 1 + Pointers(r, i + 1)
  }

  lemma {:induction false} CStringRead(data: seq<nat>, at: nat, s: seq<nat>)
    requires Holds(data, at, s + [0]) && Chars(s)
    ensures CString(data, at) == s
    decreases |s|
  {
    if s == [] {
      assert data[at] == (s + [0])[0];
    } else {
      assert data[at] == (s + [0])[0] == s[0];
      assert s + [0] == [s[0]] + (s[1..] + [0]);
      HoldsPart(data, at, [s[0]], s[1..] + [0]);
      CStringRead(data, at + 1, s[1..]);
      assert s == [s[0]] + s[1..];
    }
  }

  // ---- reading back ----

  /** The first `k` words can be read. */
  predicate WordsIn(r: seq<nat>, w: seq<nat>, k: nat)
    requires k <= |w|
    decreases k, w
  {
    k == 0 || (Word(r, k - 1) == w[k - 1] && WordsIn(r, w, k - 1))
  }

  lemma {:induction false} WordsInAt(r: seq<nat>, w: seq<nat>, k: nat, j: nat)
    requires j < k <= |w| && WordsIn(r, w, k)
    ensures Word(r, j) == w[j]
    decreases k
  {
    if j < k - 1 {
      WordsInAt(r, w, k - 1, j);
    }
  }

  /** The first `k` items stand where their addresses say. */
  predicate ItemsIn(r: seq<nat>, top: nat, items: seq<seq<nat>>, addr: seq<nat>, k: nat)
    requires k <= |items| == |addr|
    decreases k, items
  {
    k == 0 || (
      && 0 < top <= addr[k - 1] && Holds(r, addr[k - 1] - top, items[k - 1])
      && ItemsIn(r, top, items, addr, k - 1)
    )
  }

  lemma {:induction false} ItemsInAt(r: seq<nat>, top: nat, items: seq<seq<nat>>, addr: seq<nat>, k: nat, i: nat)
    requires i < k <= |items| == |addr| && ItemsIn(r, top, items, addr, k)
    ensures 0 < top <= addr[i] && Holds(r, addr[i] - top, items[i])
    decreases k
  {
    if i < k - 1 {
      ItemsInAt(r, top, items, addr, k - 1, i);
    }
  }

  /** From the `i`-th word on come `n` addresses from the `j`-th on. */
  predicate PointersAre(w: seq<nat>, i: nat, addr: seq<nat>, j: nat, n: nat)
    requires i + n <= |w| && j + n <= |addr|
    decreases n, i
  {
    n == 0 || (w[i + n - 1] == addr[j + n - 1] && PointersAre(w, i, addr, j, n - 1))
  }

  /** What makes an image readable. */
  predicate Readable(r: seq<nat>, top: nat, w: seq<nat>, items: seq<seq<nat>>, addr: seq<nat>) {
    && |items| == |addr| && |r| >= 8 * |w|
    && WordsIn(r, w, |w|) && ItemsIn(r, top, items, addr, |items|)
  }

  /** One pointer leads to its string. */
  lemma StringReads(r: seq<nat>, top: nat, w: seq<nat>, items: seq<seq<nat>>, addr: seq<nat>, j: nat, i: nat,
                    s: seq<nat>)
    requires Readable(r, top, w, items, addr)
    requires j < |w| && i < |items| && w[j] == addr[i] && items[i] == s + [0] && Chars(s)
    ensures StringAt(r, top, Word(r, j)) == s && Word(r, j) != 0
  {
    WordsInAt(r, w, |w|, j);
    ItemsInAt(r, top, items, addr, |items|, i);
    CStringRead(r, addr[i] - top, s);
  }

  /** A row of pointers leads to a list of strings. */
  lemma {:induction false} StringsRead(r: seq<nat>, top: nat, w: seq<nat>, items: seq<seq<nat>>, addr: seq<nat>,
                                       i: nat, j: nat, ss: seq<seq<nat>>, n: nat)
    requires Readable(r, top, w, items, addr) && AllChars(ss)
    requires i + n <= |w| && j + n <= |items| && n <= |ss|
    requires PointersAre(w, i, addr, j, n) && StringsAre(items, j, ss, n)
    ensures Strings(r, top, i, n) == ss[..n]
    decreases n
  {
    if n > 0 {
      StringsRead(r, top, w, items, addr, i, j, ss, n - 1);
      StringReads(r, top, w, items, addr, i + n - 1, j + n - 1, ss[n - 1]);
      Seqs.TakeSnoc(ss, n - 1);
    }
  }

  lemma {:induction false} PointersShorten(w: seq<nat>, i: nat, addr: seq<nat>, j: nat, n: nat)
    requires 0 < n && i + n <= |w| && j + n <= |addr| && PointersAre(w, i, addr, j, n)
    ensures w[i] == addr[j] && PointersAre(w, i + 1, addr, j + 1, n - 1)
    decreases n
  {
    if n > 1 {
      PointersShorten(w, i, addr, j, n - 1);
    }
  }

  /** A row of addresses ends at its null pointer. */
  lemma {:induction false} PointersCounted(r: seq<nat>, top: nat, w: seq<nat>, items: seq<seq<nat>>, addr: seq<nat>,
                                           i: nat, j: nat, n: nat)
    requires Readable(r, top, w, items, addr)
    requires i + n < |w| && j + n <= |items| && PointersAre(w, i, addr, j, n) && w[i + n] == 0
    ensures Pointers(r, i) == n
    decreases n
  {
    WordsInAt(r, w, |w|, i);
    if n > 0 {
      PointersShorten(w, i, addr, j, n);
      ItemsInAt(r, top, items, addr, |items|, j);
      PointersCounted(r, top, w, items, addr, i + 1, j + 1, n - 1);
    }
  }

  // ---- the image is readable ----

  lemma {:induction false} WordsStand(r: seq<nat>, w: seq<nat>, k: nat)
    requires k <= |w| && Holds(r, 0, Concat(Words(w), |w|)) && forall j :: 0 <= j < |w| ==> w[j] < WORD
    ensures WordsIn(r, w, k)
    decreases k
  {
    if k > 0 {
      WordsStand(r, w, k - 1);
      WordAt(r, 0, w, k - 1);
    }
  }

  lemma EndsWithin(r: seq<nat>, strings: seq<nat>, end: nat, item: seq<nat>)
    requires end <= |strings| <= |r| && Holds(strings, |strings| - end, item) && Holds(r, |r| - |strings|, strings)
    ensures Holds(r, |r| - end, item)
  {
    HoldsWithin(r, |r| - |strings|, strings, |strings| - end, item);
  }

  lemma ItemReads(r: seq<nat>, top: nat, items: seq<seq<nat>>, strings: seq<nat>, i: nat)
    requires strings == Pushed(items, |items|) && i < |items| && 0 < top
    requires |strings| <= |r| == TOP - top && Holds(r, |r| - |strings|, strings)
    ensures top <= AddressOf(items, i) && Holds(r, AddressOf(items, i) - top, items[i])
  {
    ItemStands(items, |items|, i);
    EndsWithin(r, strings, |Pushed(items, i + 1)|, items[i]);
  }

  lemma {:induction false} ItemsStand(r: seq<nat>, top: nat, items: seq<seq<nat>>, addr: seq<nat>, strings: seq<nat>,
                                      k: nat)
    requires addr == Addresses(items) && strings == Pushed(items, |items|) && k <= |items| && 0 < top
    requires |strings| <= |r| == TOP - top && Holds(r, |r| - |strings|, strings)
    ensures ItemsIn(r, top, items, addr, k)
    decreases k
  {
    if k > 0 {
      ItemsStand(r, top, items, addr, strings, k - 1);
      ItemReads(r, top, items, strings, k - 1);
    }
  }

  lemma AddressBound(items: seq<seq<nat>>, addr: seq<nat>)
    requires addr == Addresses(items)
    ensures forall i :: 0 <= i < |addr| ==> addr[i] < WORD
  {}

  lemma WordFits(q: Request, addr: seq<nat>, j: nat)
    requires RequestOk(q) && !TooBig(q) && |addr| == ItemCount(q) && j < WordCount(q)
    requires forall i :: 0 <= i < |addr| ==> addr[i] < WORD
    ensures VectorWord(q, addr, j) < WORD
  {
    AStringIsAByte(q.argv, |q.argv|);
  }

  lemma VectorFits(q: Request, addr: seq<nat>, w: seq<nat>)
    requires RequestOk(q) && !TooBig(q) && |addr| == ItemCount(q) && w == Vector(q, addr)
    requires forall i :: 0 <= i < |addr| ==> addr[i] < WORD
    ensures forall j :: 0 <= j < |w| ==> w[j] < WORD
  {
    forall j | 0 <= j < |w| ensures w[j] < WORD {
      WordFits(q, addr, j);
    }
  }

  lemma RegionReadable(q: Request, items: seq<seq<nat>>, addr: seq<nat>, w: seq<nat>)
    requires RequestOk(q) && !TooBig(q) && items == Items(q) && addr == Addresses(items) && w == Vector(q, addr)
    ensures StackTop(q) > 0 && Readable(Region(q), StackTop(q), w, items, addr)
  {
    StackFits(q);
    RegionFills(q);
    var r, top, strings := Region(q), StackTop(q), Pushed(items, |items|);
    LaidParts(w, Gap(q), strings);
    AddressBound(items, addr);
    VectorFits(q, addr, w);
    WordsStand(r, w, |w|);
    ItemsStand(r, top, items, addr, strings, |items|);
  }

  lemma {:induction false} ArgPointers(q: Request, addr: seq<nat>, w: seq<nat>, n: nat)
    requires |addr| == ItemCount(q) && w == Vector(q, addr) && n <= |q.argv|
    ensures PointersAre(w, 1, addr, 2, n)
    decreases n
  {
    if n > 0 {
      ArgPointers(q, addr, w, n - 1);
    }
  }

  lemma {:induction false} EnvPointers(q: Request, addr: seq<nat>, w: seq<nat>, n: nat)
    requires |addr| == ItemCount(q) && w == Vector(q, addr) && n <= |q.envp|
    ensures PointersAre(w, 2 + |q.argv|, addr, 2 + |q.argv|, n)
    decreases n
  {
    if n > 0 {
      EnvPointers(q, addr, w, n - 1);
    }
  }

  /** What the vector and the strings are, and how they belong together. */
  predicate Wired(q: Request, w: seq<nat>, items: seq<seq<nat>>, addr: seq<nat>) {
    && |items| == |addr| == ItemCount(q) && |w| == WordCount(q)
    && w[0] == |q.argv| && w[1 + |q.argv|] == 0 && w[2 + |q.argv| + |q.envp|] == 0
    && PointersAre(w, 1, addr, 2, |q.argv|) && PointersAre(w, 2 + |q.argv|, addr, 2 + |q.argv|, |q.envp|)
    && StringsAre(items, 2, q.argv, |q.argv|) && StringsAre(items, 2 + |q.argv|, q.envp, |q.envp|)
    && items[0] == q.path + [0] && items[1] == q.random
  }

  lemma VectorEnds(q: Request, addr: seq<nat>, w: seq<nat>)
    requires |addr| == ItemCount(q) && w == Vector(q, addr)
    ensures |w| == WordCount(q) && w[0] == |q.argv| && w[1 + |q.argv|] == 0 && w[2 + |q.argv| + |q.envp|] == 0
  {}

  lemma ImageReadable(q: Request, r: seq<nat>) returns (w: seq<nat>, items: seq<seq<nat>>, addr: seq<nat>)
    requires RequestOk(q) && !TooBig(q) && r == Region(q)
    ensures StackTop(q) > 0 && Readable(r, StackTop(q), w, items, addr) && Wired(q, w, items, addr)
    ensures w == Vector(q, addr)
  {
    items := Items(q);
    addr := Addresses(items);
    w := Vector(q, addr);
    FirstItems(q, items);
    VectorEnds(q, addr, w);
    RegionReadable(q, items, addr, w);
    ArgPointers(q, addr, w, |q.argv|);
    EnvPointers(q, addr, w, |q.envp|);
    ArgItems(q, items, |q.argv|);
    EnvItems(q, items, |q.envp|);
  }

  /** A whole list, up to its null pointer. */
  lemma ListReads(r: seq<nat>, top: nat, w: seq<nat>, items: seq<seq<nat>>, addr: seq<nat>, i: nat, j: nat,
                  ss: seq<seq<nat>>)
    requires Readable(r, top, w, items, addr) && AllChars(ss)
    requires i + |ss| < |w| && j + |ss| <= |items| && w[i + |ss|] == 0
    requires PointersAre(w, i, addr, j, |ss|) && StringsAre(items, j, ss, |ss|)
    ensures Pointers(r, i) == |ss| && Strings(r, top, i, |ss|) == ss && Word(r, i + |ss|) == 0
  {
    WordsInAt(r, w, |w|, i + |ss|);
    StringsRead(r, top, w, items, addr, i, j, ss, |ss|);
    PointersCounted(r, top, w, items, addr, i, j, |ss|);
    assert ss[..|ss|] == ss;
  }

  lemma WiredReads(q: Request, r: seq<nat>, top: nat, w: seq<nat>, items: seq<seq<nat>>, addr: seq<nat>)
    requires RequestOk(q) && Readable(r, top, w, items, addr) && Wired(q, w, items, addr)
    ensures Word(r, 0) == |q.argv| && Pointers(r, 1) == |q.argv| && Strings(r, top, 1, |q.argv|) == q.argv
    ensures var i := 2 + |q.argv|; Pointers(r, i) == |q.envp| && Strings(r, top, i, |q.envp|) == q.envp
  {
    WordsInAt(r, w, |w|, 0);
    ListReads(r, top, w, items, addr, 1, 2, q.argv);
    ListReads(r, top, w, items, addr, 2 + |q.argv|, 2 + |q.argv|, q.envp);
  }

  /** The arguments and the environment that the program reads, each up to its null pointer,
      are those it was given. */
  lemma StringsReadBack(q: Request, r: seq<nat>, top: nat)
    requires RequestOk(q) && !TooBig(q) && r == Region(q) && top == StackTop(q)
    ensures Word(r, 0) == |q.argv| && Pointers(r, 1) == |q.argv| && Strings(r, top, 1, |q.argv|) == q.argv
    ensures var i := 2 + |q.argv|; Pointers(r, i) == |q.envp| && Strings(r, top, i, |q.envp|) == q.envp
  {
    var w, items, addr := ImageReadable(q, r);
    WiredReads(q, r, top, w, items, addr);
  }

  lemma AuxWords(q: Request, addr: seq<nat>, w: seq<nat>, k: nat, at: nat)
    requires |addr| == ItemCount(q) && w == Vector(q, addr) && k < AUXC && at == 3 + |q.argv| + |q.envp| + 2 * k
    ensures |w| > at + 1 && w[at] == AuxKey(k) && w[at + 1] == AuxValue(q.image, addr[0], addr[1], k)
  {
    assert (2 * k) / 2 == k && (2 * k + 1) / 2 == k;
  }

  /** What the program finds as its `k`-th auxiliary pair: the file name and the random
      bytes are behind pointers. */
  predicate AuxFound(q: Request, r: seq<nat>, top: nat, k: nat, key: nat, value: nat) {
    && key == AuxKey(k)
    && (k != 14 && k != 15 ==> value == AuxValue(q.image, 0, 0, k))
    && (k == 15 ==> StringAt(r, top, value) == q.path)
    && (k == 14 ==> top <= value && Holds(r, value - top, q.random))
  }

  lemma WiredAux(q: Request, r: seq<nat>, top: nat, w: seq<nat>, items: seq<seq<nat>>, addr: seq<nat>, k: nat, at: nat)
    requires Readable(r, top, w, items, addr) && Chars(q.path) && |items| >= 2 && at + 1 < |w|
    requires items[0] == q.path + [0] && items[1] == q.random
    requires w[at] == AuxKey(k) && w[at + 1] == AuxValue(q.image, addr[0], addr[1], k)
    ensures AuxFound(q, r, top, k, Word(r, at), Word(r, at + 1))
  {
    WordsInAt(r, w, |w|, at);
    WordsInAt(r, w, |w|, at + 1);
    if k == 14 {
      ItemsInAt(r, top, items, addr, |items|, 1);
    } else if k == 15 {
      StringReads(r, top, w, items, addr, at + 1, 0, q.path);
    }
  }

  /** So are the auxiliary values, in their order. */
  lemma AuxReadsBack(q: Request, r: seq<nat>, top: nat, k: nat, at: nat)
    requires RequestOk(q) && !TooBig(q) && r == Region(q) && top == StackTop(q)
    requires k < AUXC && at == 3 + |q.argv| + |q.envp| + 2 * k
    ensures AuxFound(q, r, top, k, Word(r, at), Word(r, at + 1))
  {
    var w, items, addr := ImageReadable(q, r);
    AuxWords(q, addr, w, k, at);
    WiredAux(q, r, top, w, items, addr, k, at);
  }
}
