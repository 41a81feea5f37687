/** Walking saved frame pointers up a kernel stack, through interrupt contexts, within the
    bounds of the stack and for at most so many entries.
 */
module Stackwalk {
  import Seqs

  const CTX_RBP: nat := 64
  const CTX_RIP: nat := 136
  const CTX_CS: nat := 144
  const CTX_SIZE: nat := 176

  datatype Bounds = Bounds(stackLow: nat, stackHigh: nat, textLow: nat, textHigh: nat, trapReturn: nat)

  /** The 64-bit words of memory, by address. */
  type Memory = map<nat, nat>

  /** A whole word inside the stack. */
  predicate InStack(b: Bounds, a: nat) {
    b.stackLow <= a && a + 8 <= b.stackHigh
  }

  /** The stack, and perhaps nothing else, can be read. */
  ghost predicate Readable(mem: Memory, b: Bounds) {
    forall a :: InStack(b, a) ==> a in mem
  }

  predicate Roomy(b: Bounds) {
    b.stackLow <= b.stackHigh && b.stackHigh - b.stackLow >= CTX_SIZE + 16
  }

  predicate InText(b: Bounds, a: nat) {
    b.textLow <= a < b.textHigh
  }

  // ---- the walk without a limit ----

  /** A frame may be here: aligned, and both its words in the stack. */
  predicate FrameAt(b: Bounds, rbp: nat) {
    rbp % 8 == 0 && b.stackLow <= rbp && rbp + 16 < b.stackHigh
  }

  /** Where an interrupt context above a trap's return address was interrupted in kernel
      text, and what the frame pointer was then. */
  datatype Interrupted = Nowhere | Kernel(rip: nat, rbp: nat)

  function Context(mem: Memory, b: Bounds, ctx: nat): Interrupted
    requires Readable(mem, b) && Roomy(b) && b.stackLow <= ctx
  {
    if ctx + CTX_SIZE > b.stackHigh then Nowhere
    else
      assert InStack(b, ctx + CTX_CS) && InStack(b, ctx + CTX_RIP) && InStack(b, ctx + CTX_RBP);
      if mem[ctx + CTX_CS] % 4 != 0 || !InText(b, mem[ctx + CTX_RIP]) then Nowhere
      else Kernel(mem[ctx + CTX_RIP], mem[ctx + CTX_RBP])
  }

  /** One frame: the entries it gives, none if it is not a frame, and where to go next. */
  datatype Frame = Frame(entries: seq<nat>, next: nat)

  function FrameOf(mem: Memory, b: Bounds, rbp: nat): Frame
    requires Readable(mem, b) && Roomy(b)
  {
    if !FrameAt(b, rbp) then Frame([], 0)
    else
      assert InStack(b, rbp) && InStack(b, rbp + 8);
      var ret := mem[rbp + 8];
      if ret == b.trapReturn then
        match Context(mem, b, rbp + 16)
        case Nowhere => Frame([ret], 0)
        case Kernel(rip, next) => Frame([ret, rip], next)
      else if InText(b, ret) then Frame([ret], mem[rbp])
      else Frame([], 0)
  }

  /** All entries, however many: each frame's, as long as the frame pointer rises. */
  function Walk(mem: Memory, b: Bounds, rbp: nat): seq<nat>
    requires Readable(mem, b) && Roomy(b)
    decreases if rbp < b.stackHigh then b.stackHigh - rbp else 0
  {
    var f := FrameOf(mem, b, rbp);
    if f.entries == [] || f.next <= rbp then f.entries else f.entries + Walk(mem, b, f.next)
  }

  /** The first `max` of a list. */
  function First(s: seq<nat>, max: nat): seq<nat> {
    if |s| <= max then s else s[..max]
  }

  /** Every entry is an address in kernel text or the trap's return. */
  lemma {:induction false} WalkEntries(mem: Memory, b: Bounds, rbp: nat)
    requires Readable(mem, b) && Roomy(b)
    ensures forall i :: 0 <= i < |Walk(mem, b, rbp)| ==>
      InText(b, Walk(mem, b, rbp)[i]) || Walk(mem, b, rbp)[i] == b.trapReturn
    decreases if rbp < b.stackHigh then b.stackHigh - rbp else 0
  {
    var f := FrameOf(mem, b, rbp);
    if f.entries != [] && f.next > rbp {
      WalkEntries(mem, b, f.next);
    }
  }

  /** There are at most two entries for every eight bytes of stack. */
  lemma {:induction false} WalkBounded(mem: Memory, b: Bounds, rbp: nat)
    requires Readable(mem, b) && Roomy(b)
    ensures rbp <= b.stackHigh ==> |Walk(mem, b, rbp)| * 4 <= b.stackHigh - rbp
    ensures rbp > b.stackHigh ==> Walk(mem, b, rbp) == []
    decreases if rbp < b.stackHigh then b.stackHigh - rbp else 0
  {
    var f := FrameOf(mem, b, rbp);
    if f.entries != [] && f.next > rbp {
      WalkBounded(mem, b, f.next);
      if FrameAt(b, f.next) {
        assert f.next >= rbp + 8;
      } else {
        assert Walk(mem, b, f.next) == [];
      }
    }
  }

  // ---- the walk of the code ----

  lemma FirstStops(s: seq<nat>, t: seq<nat>, max: nat)
    requires |s| == max && t != []
    ensures First(s + t, max) == s && |s + t| > max
  {}

  /** The reads of an interrupt context */
  method ReadContext(mem: Memory, b: Bounds, ctx: nat) returns (i: Interrupted)
    requires Readable(mem, b) && Roomy(b) && b.stackLow <= ctx
    ensures i == Context(mem, b, ctx)
  {
    if ctx > b.stackHigh - CTX_SIZE {
      return Nowhere;
    }
    assert InStack(b, ctx + CTX_CS) && InStack(b, ctx + CTX_RIP) && InStack(b, ctx + CTX_RBP);
    if mem[ctx + CTX_CS] % 4 != 0 {
      return Nowhere;
    }
    var rip := mem[ctx + CTX_RIP];
    if !InText(b, rip) {
      return Nowhere;
    }
    i := Kernel(rip, mem[ctx + CTX_RBP]);
  }

  /** `stackwalk`: the first `max` entries of that walk, and whether it has more. */
  method Walks(mem: Memory, b: Bounds, start: nat, max: nat) returns (out: seq<nat>, truncated: bool)
    requires Readable(mem, b)
    ensures !Roomy(b) ==> out == [] && !truncated
    ensures Roomy(b) ==> out == First(Walk(mem, b, start), max) && truncated == (|Walk(mem, b, start)| > max)
  {
    out, truncated := [], false;
    if b.stackHigh < b.stackLow || b.stackHigh - b.stackLow < CTX_SIZE + 16 {
      return;
    }
    var rbp := start;
    Seqs.Nil(Walk(mem, b, start));
    while true
      invariant |out| <= max && out + Walk(mem, b, rbp) == Walk(mem, b, start)
      decreases if rbp < b.stackHigh then b.stackHigh - rbp else 0
    {
      ghost var rest, f := Walk(mem, b, rbp), FrameOf(mem, b, rbp);
      Seqs.Nil(out);
      if rbp % 8 != 0 || rbp < b.stackLow || rbp >= b.stackHigh - 16 {
        break;
      }
      assert InStack(b, rbp) && InStack(b, rbp + 8);
      var next, ret := mem[rbp], mem[rbp + 8];
      var isTrap := ret == b.trapReturn;
      if !isTrap && !InText(b, ret) {
        break;
      }
      if |out| == max {
        FirstStops(out, rest, max);
        truncated := true;
        break;
      }
      ghost var before := out;
      out := out + [ret];
      if isTrap {
        var i := ReadContext(mem, b, rbp + 16);
        if i.Nowhere? {
          break;
        }
        if |out| == max {
          Seqs.Assoc(before, [ret], rest[1..]);
          Seqs.HeadTail(rest);
          FirstStops(out, rest[1..], max);
          truncated := true;
          break;
        }
        Seqs.Assoc(before, [ret], [i.rip]);
        out := out + [i.rip];
        next := i.rbp;
      }
      assert out == before + f.entries && next == f.next;
      if next <= rbp {
        break;
      }
      Seqs.Assoc(before, f.entries, Walk(mem, b, next));
      rbp := next;
    }
  }
}
