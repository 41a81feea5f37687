/** The construction of the initial stack, step by step in a buffer.
 */
module ExecCalls {
  import opened Basics
  import Seqs
  import opened LittleEndian
  import opened ExecStack

  const E2BIG: int := 7
  const ENOMEM: int := 12

  /** What the memory manager answers on the way. */
  datatype Answers = Answers(mapError: int, image: bool, pointers: bool, writeError: int)

  /** The strings and the bytes they take. */
  method CountStrings(list: seq<seq<nat>>, bytes: nat) returns (n: nat, total: nat)
    ensures n == |list| && total == bytes + StringBytes(list, |list|)
  {
    n, total := 0, bytes;
    while n < |list|
      invariant n <= |list| && total == bytes + StringBytes(list, n)
    {
      total := total + |list[n]| + 1;
      n := n + 1;
    }
  }

  class Image {
    const bytes: array<nat>
    const base: nat
    var top: nat

    predicate Valid()
      reads this
    {
      base <= top <= TOP && bytes.Length == TOP - base
    }

    /** What has been pushed. */
    function Above(): seq<nat>
      requires Valid()
      reads this, bytes
    {
      bytes[top - base..]
    }

    constructor (total: nat)
      requires total <= TOP
      ensures Valid() && fresh(bytes) && base == TOP - total && top == TOP && Above() == []
    {
      bytes := new nat[total];
      base := TOP - total;
      top := TOP;
    }

    /** Puts bytes below those already there. */
    method Push(s: seq<nat>) returns (at: nat)
      requires Valid() && base + |s| <= top
      modifies this, bytes
      ensures Valid() && at == top == old(top) - |s| && Above() == s + old(Above())
    {
      top := top - |s|;
      var from := top - base;
      forall i | 0 <= i < |s| {
        bytes[from + i] := s[i];
      }
      at := top;
    }

    /** Pushes one string, the next item. */
    method PushString(str: seq<nat>, ghost items: seq<seq<nat>>, ghost addr: seq<nat>, ghost j: nat) returns (at: nat)
      requires Valid() && j < |items| == |addr| && items[j] == str + [0]
      requires Above() == Pushed(items, j) && base + |str| + 1 <= top
      requires Placed(items, addr, |items|)
      modifies this, bytes
      ensures Valid() && Above() == Pushed(items, j + 1) && at == top == old(top) - |str| - 1 == addr[j]
    {
      PushedNext(items, j);
      at := Push(str + [0]);
      PlacedAt(items, addr, |items|, j);
    }

    /** Pushes strings that are the next items. */
    method PushStrings(list: seq<seq<nat>>, ghost items: seq<seq<nat>>, ghost addr: seq<nat>, ghost j: nat)
      returns (ptrs: seq<nat>)
      requires Valid() && j + |list| <= |items| == |addr| && StringsAre(items, j, list, |list|)
      requires Above() == Pushed(items, j) && base + StringBytes(list, |list|) <= top
      requires Placed(items, addr, |items|)
      modifies this, bytes
      ensures Valid() && Above() == Pushed(items, j + |list|) && top == old(top) - StringBytes(list, |list|)
      ensures |ptrs| == |list| && PointersAre(ptrs, 0, addr, j, |list|)
    {
      ptrs := [];
      var i := 0;
      while i < |list|
        invariant Valid() && i <= |list| && |ptrs| == i
        invariant Above() == Pushed(items, j + i) && top == old(top) - StringBytes(list, i)
        invariant PointersAre(ptrs, 0, addr, j, i)
      {
        BytesGrow(list, i);
        StringsAreAt(items, j, list, |list|, i);
        var at := PushString(list[i], items, addr, j + i);
        PointersMore(ptrs, at, addr, j, i);
        ptrs := ptrs + [at];
        i := i + 1;
      }
    }

    /** Stores one 64-bit word. */
    method PutWord(at: nat, v: nat)
      requires at + 8 <= bytes.Length
      modifies bytes
      ensures bytes[..] == old(bytes[..at]) + Put(v, 8) + old(bytes[at + 8..])
    {
      var i, rest := 0, v;
      while i < 8
        invariant i <= 8
        invariant bytes[..at] == old(bytes[..at]) && bytes[at + 8..] == old(bytes[at + 8..])
        invariant bytes[at..at + i] + Put(rest, 8 - i) == Put(v, 8)
      {
        ghost var done := bytes[at..at + i];
        PutNext(rest, 8 - i);
        bytes[at + i] := rest % 256;
        assert bytes[at..at + i + 1] == done + [rest % 256];
        rest := rest / 256;
        i := i + 1;
      }
      assert bytes[..] == bytes[..at] + bytes[at..at + 8] + bytes[at + 8..];
    }

    /** The first `n` bytes of `c` are in place. */
    predicate Filled(at: nat, c: seq<nat>, n: nat)
      reads bytes
    {
      at + |c| <= bytes.Length && n <= |c| && bytes[at..at + n] == c[..n]
    }

    /** Stores the next word of a vector whose bytes are `c`. */
    method Append(at: nat, ghost w: seq<nat>, ghost c: seq<nat>, k: nat, v: nat)
      requires k < |w| && w[k] == v && Encodes(w, c, |w|) && Filled(at, c, 8 * k)
      modifies bytes
      ensures Filled(at, c, 8 * (k + 1)) && bytes[at + |c|..] == old(bytes[at + |c|..])
    {
      EncodesAt(w, c, |w|, k);
      ghost var was := bytes[..];
      PutWord(at + 8 * k, v);
      Spliced(was, bytes[..], at, 8 * k, Put(v, 8), c);
    }

    /** Stores pointers from the `k`-th word on. */
    method AppendAll(at: nat, ghost w: seq<nat>, ghost c: seq<nat>, k: nat, ptrs: seq<nat>)
      requires k + |ptrs| <= |w| && Encodes(w, c, |w|) && Filled(at, c, 8 * k)
      requires PointersAre(w, k, ptrs, 0, |ptrs|)
      modifies bytes
      ensures Filled(at, c, 8 * (k + |ptrs|)) && bytes[at + |c|..] == old(bytes[at + |c|..])
    {
      var i := 0;
      while i < |ptrs|
        invariant i <= |ptrs| && Filled(at, c, 8 * (k + i))
        invariant bytes[at + |c|..] == old(bytes[at + |c|..])
      {
        PointersAt(w, k, ptrs, 0, |ptrs|, i);
        Append(at, w, c, k + i, ptrs[i]);
        i := i + 1;
      }
    }

    /** Stores one auxiliary pair. */
    method AppendPair(at: nat, ghost w: seq<nat>, ghost c: seq<nat>, k: nat, key: nat, value: nat)
      requires k + 1 < |w| && w[k] == key && w[k + 1] == value && Encodes(w, c, |w|) && Filled(at, c, 8 * k)
      modifies bytes
      ensures Filled(at, c, 8 * (k + 2)) && bytes[at + |c|..] == old(bytes[at + |c|..])
    {
      Append(at, w, c, k, key);
      Append(at, w, c, k + 1, value);
    }

    /** Stores the auxiliary pairs, the rest of the vector. */
    method AppendAux(at: nat, ghost w: seq<nat>, ghost c: seq<nat>, k: nat, e: Elf, execfn: nat, random: nat)
      requires |w| == k + 2 * AUXC && Encodes(w, c, |w|) && Filled(at, c, 8 * k)
      requires AuxPairs(w, k, e, execfn, random, AUXC)
      modifies bytes
      ensures Filled(at, c, 8 * |w|) && bytes[at + |c|..] == old(bytes[at + |c|..])
    {
      var i := 0;
      while i < AUXC
        invariant i <= AUXC && Filled(at, c, 8 * (k + 2 * i))
        invariant bytes[at + |c|..] == old(bytes[at + |c|..])
      {
        AuxPairAt(w, k, e, execfn, random, AUXC, i);
        AppendPair(at, w, c, k + 2 * i, AuxKey(i), AuxValue(e, execfn, random, i));
        i := i + 1;
      }
    }

    /** Clears the bytes between the vector and the strings. */
    method Clear(from: nat, n: nat)
      requires from + n <= bytes.Length
      modifies bytes
      ensures bytes[from..] == Zeroes(n) + old(bytes[from + n..])
    {
      var i := 0;
      while i < n
        invariant i <= n && bytes[from..from + i] == Zeroes(i)
        invariant bytes[from + n..] == old(bytes[from + n..])
      {
        bytes[from + i] := 0;
        assert bytes[from..from + i + 1] == bytes[from..from + i] + [0];
        i := i + 1;
      }
      assert bytes[from..] == bytes[from..from + n] + bytes[from + n..];
    }

    /** Pushes everything: the path, the random bytes, the arguments, the environment. */
    method PushRequest(q: Request, ghost items: seq<seq<nat>>, ghost addr: seq<nat>)
      returns (execfn: nat, random: nat, args: seq<nat>, envs: seq<nat>)
      requires Valid() && top == TOP && Above() == [] && base + ByteCount(q) <= top
      requires |items| == |addr| == ItemCount(q) && Placed(items, addr, |items|)
      requires |q.random| == RANDOM && items[0] == q.path + [0] && items[1] == q.random
      requires StringsAre(items, 2, q.argv, |q.argv|) && StringsAre(items, 2 + |q.argv|, q.envp, |q.envp|)
      modifies this, bytes
      ensures Valid() && top == StringsEnd(q) && Above() == Pushed(items, |items|)
      ensures execfn == addr[0] && random == addr[1] && |args| == |q.argv| && |envs| == |q.envp|
      ensures PointersAre(args, 0, addr, 2, |args|) && PointersAre(envs, 0, addr, 2 + |args|, |envs|)
    {
      execfn := PushString(q.path, items, addr, 0);
      PushedNext(items, 1);
      random := Push(q.random);
      PlacedAt(items, addr, |items|, 1);
      args := PushStrings(q.argv, items, addr, 2);
      envs := PushStrings(q.envp, items, addr, 2 + |q.argv|);
    }

    /** Stores the whole vector. */
    method StoreVector(at: nat, ghost w: seq<nat>, ghost c: seq<nat>, e: Elf, execfn: nat, random: nat,
                       args: seq<nat>, envs: seq<nat>)
      requires Encodes(w, c, |w|) && Filled(at, c, 0) && VectorOf(w, e, execfn, random, args, envs)
      modifies bytes
      ensures Filled(at, c, |c|) && bytes[at + |c|..] == old(bytes[at + |c|..])
    {
      var n, m := |args|, |envs|;
      Append(at, w, c, 0, n);
      AppendAll(at, w, c, 1, args);
      Append(at, w, c, 1 + n, 0);
      AppendAll(at, w, c, 2 + n, envs);
      Append(at, w, c, 2 + n + m, 0);
      AppendAux(at, w, c, 3 + n + m, e, execfn, random);
    }

    /** The vector and what is above it. */
    method WriteVector(at: nat, ghost w: seq<nat>, ghost c: seq<nat>, e: Elf, execfn: nat, random: nat,
                       args: seq<nat>, envs: seq<nat>)
      requires Encodes(w, c, |w|) && Filled(at, c, 0) && VectorOf(w, e, execfn, random, args, envs)
      modifies bytes
      ensures bytes[at..] == c + old(bytes[at + |c|..])
    {
      StoreVector(at, w, c, e, execfn, random, args, envs);
      assert bytes[at..] == bytes[at..at + |c|] + bytes[at + |c|..];
      assert c[..|c|] == c;
    }

    /** Moves the stack pointer below the strings and `words` words, and clears the gap. */
    method Align(words: nat) returns (at: nat)
      requires Valid() && base <= Lowered(top, words)
      modifies this, bytes
      ensures Valid() && top == Lowered(old(top), words) && at == top - base && at + words * 8 <= bytes.Length
      ensures var gap := old(top) - (top + words * 8);
                gap >= 0 && bytes[at + words * 8..] == Zeroes(gap) + old(Above())
    {
      var stringsEnd := top;
      top := top / 16 * 16;
      if words % 2 == 1 {
        top := top - 8;
      }
      top := top - words * 8;
      at := top - base;
      var from, gap := at + words * 8, stringsEnd - (top + words * 8);
      Clear(from, gap);
    }

    /** Puts the vector below the strings. */
    method PlaceVector(words: nat, ghost w: seq<nat>, ghost c: seq<nat>, e: Elf, execfn: nat, random: nat,
                       args: seq<nat>, envs: seq<nat>)
      requires Valid() && |w| == words && |c| == words * 8 && Encodes(w, c, words)
      requires VectorOf(w, e, execfn, random, args, envs) && base <= Lowered(top, words)
      modifies this, bytes
      ensures Valid() && top == Lowered(old(top), words)
      ensures var gap := old(top) - (top + words * 8); gap >= 0 && Above() == c + Zeroes(gap) + old(Above())
    {
      ghost var strings, end := Above(), top;
      var at := Align(words);
      WriteVector(at, w, c, e, execfn, random, args, envs);
      Seqs.Assoc(c, Zeroes(end - (top + words * 8)), strings);
    }
  }

  /** The stack pointer below `words` words and aligned. */
  function Lowered(top: int, words: nat): int {
    top / 16 * 16 - (if words % 2 == 1 then 8 else 0) - words * 8
  }

  /** Builds the stack and gives it to the program: the error, the stack pointer, and the
      bytes written there. */
  method SetupStack(q: Request, answers: Answers) returns (err: int, sp: int, out: seq<nat>)
    requires |q.random| == RANDOM
    ensures TooBig(q) ==> err == -E2BIG && out == []
    ensures !TooBig(q) && answers.mapError != 0 ==> err == answers.mapError && out == []
    ensures !TooBig(q) && answers.mapError == 0 && !(answers.image && answers.pointers) ==> err == -ENOMEM && out == []
    ensures !TooBig(q) && answers.mapError == 0 && answers.image && answers.pointers ==>
              err == answers.writeError && sp == StackTop(q) && out == Region(q)
  {
    sp, out := 0, [];
    var argc, bytes := CountStrings(q.argv, |q.path| + 1 + RANDOM);
    var envc, total := CountStrings(q.envp, bytes);
    if total > ARG_MAX {
      return -E2BIG, sp, out;
    }
    if answers.mapError != 0 {
      return answers.mapError, sp, out;
    }
    if !answers.image || !answers.pointers {
      return -ENOMEM, sp, out;
    }
    var words := 1 + argc + 1 + envc + 1 + AUXC * 2;
    var size := (total + words * 8 + 64 + PAGE - 1) / PAGE * PAGE;
    StackFits(q);
    sp, out := Build(q, words, size);
    err := answers.writeError;
  }

  /** The image itself. */
  method Build(q: Request, words: nat, size: nat) returns (sp: int, out: seq<nat>)
    requires |q.random| == RANDOM && !TooBig(q) && words == WordCount(q) && size == Total(q) <= TOP
    ensures sp == StackTop(q) && out == Region(q)
  {
    ghost var items := Items(q);
    ghost var addr := Addresses(items);
    ghost var w := Vector(q, addr);
    ghost var c := Concat(Words(w), |w|);
    Facts(q, items, addr, w, c);
    ImageFits(q);
    StackFits(q);
    var image := new Image(size);
    var execfn, random, args, envs := image.PushRequest(q, items, addr);
    VectorIs(q, addr, w, args, envs);
    image.PlaceVector(words, w, c, q.image, execfn, random, args, envs);
    sp := image.top;
    out := image.bytes[image.top - image.base..];
  }

  /** What the loops rely on. */
  lemma Facts(q: Request, items: seq<seq<nat>>, addr: seq<nat>, w: seq<nat>, c: seq<nat>)
    requires |q.random| == RANDOM && !TooBig(q)
    requires items == Items(q) && addr == Addresses(items) && w == Vector(q, addr) && c == Concat(Words(w), |w|)
    ensures |items| == |addr| == ItemCount(q) && |w| == WordCount(q) && Placed(items, addr, |items|)
    ensures items[0] == q.path + [0] && items[1] == q.random && Encodes(w, c, |w|)
    ensures StringsAre(items, 2, q.argv, |q.argv|) && StringsAre(items, 2 + |q.argv|, q.envp, |q.envp|)
  {
    FirstItems(q, items);
    ArgItems(q, items, |q.argv|);
    EnvItems(q, items, |q.envp|);
    PushedBytes(q, items);
    AddressesPlaced(items, addr);
    ConcatEncodes(w, c, |w|);
  }

  /** The vector in terms of the pointers collected while pushing. */
  predicate VectorOf(w: seq<nat>, e: Elf, execfn: nat, random: nat, args: seq<nat>, envs: seq<nat>) {
    var n, m := |args|, |envs|;
    && |w| == 3 + n + m + 2 * AUXC && w[0] == n && w[1 + n] == 0 && w[2 + n + m] == 0
    && PointersAre(w, 1, args, 0, n) && PointersAre(w, 2 + n, envs, 0, m)
    && AuxPairs(w, 3 + n + m, e, execfn, random, AUXC)
  }

  lemma {:induction false} PointersVia(w: seq<nat>, i: nat, addr: seq<nat>, j: nat, ptrs: seq<nat>, n: nat)
    requires i + n <= |w| && j + n <= |addr| && n <= |ptrs|
    requires PointersAre(w, i, addr, j, n) && PointersAre(ptrs, 0, addr, j, n)
    ensures PointersAre(w, i, ptrs, 0, n)
    decreases n
  {
    if n > 0 {
      PointersVia(w, i, addr, j, ptrs, n - 1);
    }
  }

  lemma {:induction false} AuxPairsFrom(w: seq<nat>, k: nat, e: Elf, execfn: nat, random: nat, n: nat)
    requires k + 2 * n <= |w|
    requires forall i :: 0 <= i < n ==> w[k + 2 * i] == AuxKey(i) && w[k + 2 * i + 1] == AuxValue(e, execfn, random, i)
    ensures AuxPairs(w, k, e, execfn, random, n)
    decreases n
  {
    if n > 0 {
      assert w[k + 2 * (n - 1)] == AuxKey(n - 1);
      AuxPairsFrom(w, k, e, execfn, random, n - 1);
    }
  }

  lemma AuxPairsAre(q: Request, addr: seq<nat>, w: seq<nat>, k: nat)
    requires |addr| == ItemCount(q) && w == Vector(q, addr) && k == 3 + |q.argv| + |q.envp|
    ensures AuxPairs(w, k, q.image, addr[0], addr[1], AUXC)
  {
    forall i | 0 <= i < AUXC
      ensures w[k + 2 * i] == AuxKey(i) && w[k + 2 * i + 1] == AuxValue(q.image, addr[0], addr[1], i)
    {
      AuxWords(q, addr, w, i, k + 2 * i);
    }
    AuxPairsFrom(w, k, q.image, addr[0], addr[1], AUXC);
  }

  lemma PointersJoin(w: seq<nat>, addr: seq<nat>, e: Elf, args: seq<nat>, envs: seq<nat>)
    requires var n, m := |args|, |envs|;
      && |addr| == 2 + n + m && |w| == 3 + n + m + 2 * AUXC
      && w[0] == n && w[1 + n] == 0 && w[2 + n + m] == 0
      && PointersAre(w, 1, addr, 2, n) && PointersAre(w, 2 + n, addr, 2 + n, m)
      && PointersAre(args, 0, addr, 2, n) && PointersAre(envs, 0, addr, 2 + n, m)
      && AuxPairs(w, 3 + n + m, e, addr[0], addr[1], AUXC)
    ensures VectorOf(w, e, addr[0], addr[1], args, envs)
  {
    PointersVia(w, 1, addr, 2, args, |args|);
    PointersVia(w, 2 + |args|, addr, 2 + |args|, envs, |envs|);
  }

  lemma VectorIs(q: Request, addr: seq<nat>, w: seq<nat>, args: seq<nat>, envs: seq<nat>)
    requires |addr| == ItemCount(q) && w == Vector(q, addr) && |args| == |q.argv| && |envs| == |q.envp|
    requires PointersAre(args, 0, addr, 2, |args|) && PointersAre(envs, 0, addr, 2 + |args|, |envs|)
    ensures VectorOf(w, q.image, addr[0], addr[1], args, envs)
  {
    VectorEnds(q, addr, w);
    ArgPointers(q, addr, w, |args|);
    EnvPointers(q, addr, w, |envs|);
    AuxPairsAre(q, addr, w, 3 + |args| + |envs|);
    PointersJoin(w, addr, q.image, args, envs);
  }

  lemma BytesGrow(ss: seq<seq<nat>>, i: nat)
    requires i < |ss|
    ensures StringBytes(ss, i) + |ss[i]| + 1 <= StringBytes(ss, |ss|)
  {
    BytesMono(ss, i + 1, |ss|);
  }

  lemma {:induction false} BytesMono(ss: seq<seq<nat>>, i: nat, k: nat)
    requires i <= k <= |ss|
    ensures StringBytes(ss, i) <= StringBytes(ss, k)
    decreases k
  {
    if i < k {
      BytesMono(ss, i, k - 1);
    }
  }

  lemma {:induction false} PointersSame(a: seq<nat>, b: seq<nat>, addr: seq<nat>, j: nat, n: nat)
    requires n <= |a| && n <= |b| && a[..n] == b[..n] && j + n <= |addr| && PointersAre(a, 0, addr, j, n)
    ensures PointersAre(b, 0, addr, j, n)
    decreases n
  {
    if n > 0 {
      assert a[..n][..n - 1] == a[..n - 1] && b[..n][..n - 1] == b[..n - 1];
      assert a[..n][n - 1] == b[..n][n - 1];
      PointersSame(a, b, addr, j, n - 1);
    }
  }

  lemma PointersMore(ptrs: seq<nat>, at: nat, addr: seq<nat>, j: nat, n: nat)
    requires |ptrs| == n && j + n < |addr| && addr[j + n] == at && PointersAre(ptrs, 0, addr, j, n)
    ensures PointersAre(ptrs + [at], 0, addr, j, n + 1)
  {
    assert ptrs[..n] == (ptrs + [at])[..n];
    PointersSame(ptrs, ptrs + [at], addr, j, n);
  }

  lemma {:induction false} PointersAt(w: seq<nat>, i: nat, addr: seq<nat>, j: nat, n: nat, t: nat)
    requires t < n && i + n <= |w| && j + n <= |addr| && PointersAre(w, i, addr, j, n)
    ensures w[i + t] == addr[j + t]
    decreases n
  {
    if t < n - 1 {
      PointersAt(w, i, addr, j, n - 1, t);
    }
  }

  lemma PutNext(n: nat, k: nat)
    requires k > 0
    ensures Put(n, k) == [n % 256] + Put(n / 256, k - 1)
  {}

  lemma Spliced(was: seq<nat>, now: seq<nat>, at: nat, n: nat, p: seq<nat>, c: seq<nat>)
    requires at + |c| <= |was| && n + |p| <= |c| && was[at..at + n] == c[..n] && c[n..n + |p|] == p
    requires now == was[..at + n] + p + was[at + n + |p|..]
    ensures now[at..at + n + |p|] == c[..n + |p|] && now[at + |c|..] == was[at + |c|..]
  {
    assert now[at..at + n + |p|] == was[at..at + n] + p;
    assert c[..n + |p|] == c[..n] + c[n..n + |p|];
  }

  /** The first `k` addresses are where the items come to stand. */
  predicate Placed(items: seq<seq<nat>>, addr: seq<nat>, k: nat)
    requires k <= |items| == |addr|
    decreases k, items
  {
    k == 0 || (addr[k - 1] + |Pushed(items, k)| == TOP && Placed(items, addr, k - 1))
  }

  lemma {:induction false} PlacedAt(items: seq<seq<nat>>, addr: seq<nat>, k: nat, i: nat)
    requires i < k <= |items| == |addr| && Placed(items, addr, k)
    ensures addr[i] + |Pushed(items, i + 1)| == TOP
    decreases k
  {
    if i < k - 1 {
      PlacedAt(items, addr, k - 1, i);
    }
  }

  lemma {:induction false} PushedGrows(items: seq<seq<nat>>, i: nat, k: nat)
    requires i <= k <= |items|
    ensures |Pushed(items, i)| <= |Pushed(items, k)|
    decreases k
  {
    if i < k {
      PushedGrows(items, i, k - 1);
    }
  }

  lemma AddressPlaced(items: seq<seq<nat>>, addr: seq<nat>, i: nat)
    requires addr == Addresses(items) && i < |items| && |Pushed(items, |items|)| <= TOP
    ensures addr[i] + |Pushed(items, i + 1)| == TOP
  {
    PushedGrows(items, i + 1, |items|);
  }

  lemma {:induction false} AllPlaced(items: seq<seq<nat>>, addr: seq<nat>, k: nat)
    requires k <= |items| == |addr|
    requires forall i :: 0 <= i < |items| ==> addr[i] + |Pushed(items, i + 1)| == TOP
    ensures Placed(items, addr, k)
    decreases k
  {
    if k > 0 {
      AllPlaced(items, addr, k - 1);
    }
  }

  lemma AddressesPlaced(items: seq<seq<nat>>, addr: seq<nat>)
    requires addr == Addresses(items) && |Pushed(items, |items|)| <= TOP
    ensures Placed(items, addr, |items|)
  {
    forall i | 0 <= i < |items| ensures addr[i] + |Pushed(items, i + 1)| == TOP {
      AddressPlaced(items, addr, i);
    }
    AllPlaced(items, addr, |items|);
  }

  /** `c` is the words of `w` in bytes, up to the `k`-th. */
  predicate Encodes(w: seq<nat>, c: seq<nat>, k: nat)
    requires k <= |w|
    decreases k, w
  {
    && |c| == 8 * |w|
    && (k == 0 || (c[8 * k - 8..8 * k] == Put(w[k - 1], 8) && Encodes(w, c, k - 1)))
  }

  lemma {:induction false} EncodesAt(w: seq<nat>, c: seq<nat>, k: nat, i: nat)
    requires i < k <= |w| && Encodes(w, c, k)
    ensures |c| == 8 * |w| && c[8 * i..8 * i + 8] == Put(w[i], 8)
    decreases k
  {
    if i < k - 1 {
      EncodesAt(w, c, k - 1, i);
    }
  }

  lemma HeldSlice(c: seq<nat>, at: nat, p: seq<nat>)
    requires Holds(c, at, p)
    ensures c[at..at + |p|] == p
  {}

  lemma RecordBytes(recs: seq<seq<nat>>, c: seq<nat>, i: nat, at: nat, end: nat, p: seq<nat>)
    requires c == Concat(recs, |recs|) && i < |recs| && at == |Concat(recs, i)| && p == recs[i] && end == at + |p|
    ensures end <= |c| && c[at..end] == p
  {
    ConcatHolds(recs, |recs|, i);
    HeldSlice(c, at, p);
  }

  lemma WordBytes(w: seq<nat>, c: seq<nat>, i: nat, at: nat, end: nat, p: seq<nat>)
    requires c == Concat(Words(w), |w|) && i < |w| && at == 8 * i && end == at + 8 && p == Put(w[i], 8)
    ensures end <= |c| && c[at..end] == p
  {
    WordsLength(w, i);
    RecordBytes(Words(w), c, i, at, end, p);
  }

  lemma {:induction false} ConcatEncodes(w: seq<nat>, c: seq<nat>, k: nat)
    requires c == Concat(Words(w), |w|) && k <= |w|
    ensures Encodes(w, c, k)
    decreases k
  {
    WordsLength(w, |w|);
    if k > 0 {
      ConcatEncodes(w, c, k - 1);
      WordBytes(w, c, k - 1, 8 * k - 8, 8 * k, Put(w[k - 1], 8));
    }
  }

  /** The vector's rest is the first `n` auxiliary pairs. */
  predicate AuxPairs(w: seq<nat>, k: nat, e: Elf, execfn: nat, random: nat, n: nat)
    requires k + 2 * n <= |w|
    decreases n, k
  {
    n == 0 || (
      && w[k + 2 * n - 2] == AuxKey(n - 1) && w[k + 2 * n - 1] == AuxValue(e, execfn, random, n - 1)
      && AuxPairs(w, k, e, execfn, random, n - 1)
    )
  }

  lemma {:induction false} AuxPairAt(w: seq<nat>, k: nat, e: Elf, execfn: nat, random: nat, n: nat, i: nat)
    requires i < n && k + 2 * n <= |w| && AuxPairs(w, k, e, execfn, random, n)
    ensures w[k + 2 * i] == AuxKey(i) && w[k + 2 * i + 1] == AuxValue(e, execfn, random, i)
    decreases n
  {
    if i < n - 1 {
      AuxPairAt(w, k, e, execfn, random, n - 1, i);
    }
  }
}
