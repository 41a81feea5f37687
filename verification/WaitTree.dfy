/** The ordered tree of sleeping processes.

    The scheduler keeps sleepers in a red-black tree ordered by wait channel.
    Insertion descends to the right on equal channels and the search for the
    first waiter keeps descending to the left, so the tree behaves as one FIFO
    per channel.  Trees are values here; colours are not modelled, and
    `RotationsKeepOrder` is why they cannot matter.
 */
module WaitTree {
  import opened Basics
  import Seqs

  datatype Waiter = Waiter(slot: nat, key: int)

  datatype Tree = Leaf | Node(left: Tree, item: Waiter, right: Tree)

  function InOrder(t: Tree): seq<Waiter> {
    match t
    case Leaf => []
    case Node(l, w, r) => InOrder(l) + [w] + InOrder(r)
  }

  ghost predicate Sorted(ws: seq<Waiter>) {
    forall i, j :: 0 <= i < j < |ws| ==> ws[i].key <= ws[j].key
  }

  // ---- the FIFO that a channel is meant to be ----

  /** The waiters of one channel, in tree order. */
  function Queue(ws: seq<Waiter>, key: int): seq<Waiter> {
    if ws == [] then []
    else (if ws[0].key == key then [ws[0]] else []) + Queue(ws[1..], key)
  }

  lemma {:induction false} QueueConcat(a: seq<Waiter>, b: seq<Waiter>, key: int)
    ensures Queue(a + b, key) == Queue(a, key) + Queue(b, key)
  {
    if a == [] {
      Seqs.Nil(b);
      Seqs.Nil(Queue(b, key));
    } else {
      Seqs.ConcatTail(a, b);
      QueueConcat(a[1..], b, key);
      Seqs.Assoc(if a[0].key == key then [a[0]] else [], Queue(a[1..], key), Queue(b, key));
    }
  }

  lemma {:induction false} QueueSkips(ws: seq<Waiter>, key: int)
    requires forall i :: 0 <= i < |ws| ==> ws[i].key != key
    ensures Queue(ws, key) == []
  {
    if ws != [] {
      QueueSkips(ws[1..], key);
    }
  }

  lemma {:induction false} QueueMembers(ws: seq<Waiter>, key: int, w: Waiter)
    ensures w in Queue(ws, key) <==> w in ws && w.key == key
  {
    if ws != [] {
      QueueMembers(ws[1..], key, w);
      assert ws == [ws[0]] + ws[1..];
    }
  }

  // ---- insertion ----

  /** Where an equal-goes-right descent puts a new key: after every key not larger. */
  function InsertPos(ws: seq<Waiter>, key: int): (i: nat)
    ensures i <= |ws|
    ensures i < |ws| ==> ws[i].key > key
    ensures forall k :: 0 <= k < i ==> ws[k].key <= key
  {
    if ws == [] || ws[0].key > key then 0 else 1 + InsertPos(ws[1..], key)
  }

  function InsertSeq(ws: seq<Waiter>, w: Waiter): seq<Waiter> {
    var i := InsertPos(ws, w.key);
    ws[..i] + [w] + ws[i..]
  }

  /** `waiting_insert`: descend right when the node's channel is not larger. */
  function Insert(t: Tree, w: Waiter): Tree {
    match t
    case Leaf => Node(Leaf, w, Leaf)
    case Node(l, o, r) =>
      if o.key <= w.key then Node(l, o, Insert(r, w)) else Node(Insert(l, w), o, r)
  }

  lemma SortedSplit(t: Tree)
    requires t.Node? && Sorted(InOrder(t))
    ensures Sorted(InOrder(t.left)) && Sorted(InOrder(t.right))
    ensures forall i :: 0 <= i < |InOrder(t.left)| ==> InOrder(t.left)[i].key <= t.item.key
    ensures forall i :: 0 <= i < |InOrder(t.right)| ==> t.item.key <= InOrder(t.right)[i].key
  {
    var l, r, s := InOrder(t.left), InOrder(t.right), InOrder(t);
    forall i | 0 <= i < |l| ensures s[i] == l[i] {}
    forall i | 0 <= i < |r| ensures s[|l| + 1 + i] == r[i] {}
    assert s[|l|] == t.item;
  }

  lemma InsertPosUnique(ws: seq<Waiter>, key: int, i: nat)
    requires Sorted(ws) && i <= |ws|
    requires forall k :: 0 <= k < i ==> ws[k].key <= key
    requires i < |ws| ==> ws[i].key > key
    ensures i == InsertPos(ws, key)
  {
    var j := InsertPos(ws, key);
    if i < j {
      assert false;
    } else if j < i {
      assert false;
    }
  }

  lemma InsertRight(a: seq<Waiter>, o: Waiter, b: seq<Waiter>, w: Waiter)
    requires Sorted(a + [o] + b) && o.key <= w.key
    requires forall k :: 0 <= k < |a| ==> a[k].key <= o.key
    ensures InsertSeq(a + [o] + b, w) == a + [o] + InsertSeq(b, w)
  {
    var s, i := a + [o] + b, InsertPos(b, w.key);
    var at := |a| + 1 + i;
    forall k | 0 <= k < at ensures s[k].key <= w.key {
      if k > |a| {
        assert s[k] == b[k - |a| - 1];
      }
    }
    assert i < |b| ==> s[at] == b[i];
    InsertPosUnique(s, w.key, at);
    Seqs.CutRight(a, o, b, i);
    Seqs.Assoc5(a, o, b[..i], w, b[i..]);
  }

  lemma InsertLeft(a: seq<Waiter>, o: Waiter, b: seq<Waiter>, w: Waiter)
    requires Sorted(a + [o] + b) && o.key > w.key
    ensures InsertSeq(a + [o] + b, w) == InsertSeq(a, w) + [o] + b
  {
    var s, i := a + [o] + b, InsertPos(a, w.key);
    assert s[i] == if i < |a| then a[i] else o;
    assert forall k :: 0 <= k < i ==> s[k] == a[k];
    InsertPosUnique(s, w.key, i);
    Seqs.CutLeft(a, o, b, i);
    Seqs.Assoc5(a[..i], w, a[i..], o, b);
  }

  /** The descent puts the newcomer behind everyone already waiting on its channel. */
  lemma {:induction false} InsertInOrder(t: Tree, w: Waiter)
    requires Sorted(InOrder(t))
    ensures InOrder(Insert(t, w)) == InsertSeq(InOrder(t), w)
  {
    match t
    case Leaf =>
    case Node(l, o, r) =>
      SortedSplit(t);
      if o.key <= w.key {
        InsertInOrder(r, w);
        InsertRight(InOrder(l), o, InOrder(r), w);
      } else {
        InsertInOrder(l, w);
        InsertLeft(InOrder(l), o, InOrder(r), w);
      }
  }

  lemma InsertMembers(ws: seq<Waiter>, w: Waiter)
    requires !HasSlot(ws, w.slot)
    ensures forall q: nat :: HasSlot(InsertSeq(ws, w), q) <==> HasSlot(ws, q) || q == w.slot
    ensures forall k :: 0 <= k < |InsertSeq(ws, w)| ==> InsertSeq(ws, w)[k] == w || InsertSeq(ws, w)[k] in ws
    ensures DistinctSlots(ws) ==> DistinctSlots(InsertSeq(ws, w))
  {
    var i, t := InsertPos(ws, w.key), InsertSeq(ws, w);
    Seqs.Inserted(ws, i, w);
    forall q: nat | HasSlot(ws, q) ensures HasSlot(t, q) {
      var k :| 0 <= k < |ws| && ws[k].slot == q;
      assert t[if k < i then k else k + 1].slot == q;
    }
  }

  lemma InsertSorted(ws: seq<Waiter>, w: Waiter)
    requires Sorted(ws)
    ensures Sorted(InsertSeq(ws, w))
  {
    Seqs.Inserted(ws, InsertPos(ws, w.key), w);
  }

  lemma QueueOfOne(w: Waiter, key: int)
    ensures Queue([w], key) == if w.key == key then [w] else []
  {
    Seqs.Nil([w]);
    assert [w][1..] == [];
  }

  lemma QueueInserted(a: seq<Waiter>, w: Waiter, b: seq<Waiter>, key: int)
    requires w.key == key ==> Queue(b, key) == []
    ensures Queue(a + [w] + b, key) == Queue(a + b, key) + (if w.key == key then [w] else [])
  {
    QueueConcat(a, b, key);
    QueueConcat(a + [w], b, key);
    QueueConcat(a, [w], key);
    QueueOfOne(w, key);
    Seqs.Nil(Queue(a, key));
    Seqs.Nil(Queue(a, key) + [w]);
    Seqs.Nil(Queue(a + b, key));
  }

  /** A newcomer joins the tail of its own channel's queue and no other. */
  lemma InsertQueue(ws: seq<Waiter>, w: Waiter, key: int)
    requires Sorted(ws)
    ensures Queue(InsertSeq(ws, w), key) == Queue(ws, key) + (if w.key == key then [w] else [])
  {
    var i := InsertPos(ws, w.key);
    var b := ws[i..];
    if w.key == key {
      forall k | 0 <= k < |b| ensures b[k].key != key {
        assert b[k] == ws[i + k];
        assert ws[i].key <= ws[i + k].key || k == 0;
      }
      QueueSkips(b, key);
    }
    Seqs.Split(ws, i);
    QueueInserted(ws[..i], w, b, key);
  }

  // ---- search ----

  lemma SearchRight(before: seq<Waiter>, l: seq<Waiter>, w: Waiter, key: int)
    requires Queue(before, key) == [] && w.key < key
    requires forall i :: 0 <= i < |l| ==> l[i].key <= w.key
    ensures Queue(before + (l + [w]), key) == []
  {
    QueueSkips(l + [w], key);
    QueueConcat(before, l + [w], key);
  }

  lemma SearchLeft(w: Waiter, r: seq<Waiter>, after: seq<Waiter>, key: int)
    requires w.key >= key
    requires forall i :: 0 <= i < |r| ==> w.key <= r[i].key
    ensures Head(Queue([w] + r + after, key)) ==
            if w.key == key then Some(w) else Head(Queue(after, key))
  {
    assert [w] + r + after == [w] + (r + after);
    QueueConcat([w], r + after, key);
    if w.key != key {
      QueueSkips(r, key);
      QueueConcat(r, after, key);
    }
  }

  /** The subtree at which the search stands, with what lies on either side of it. */
  ghost predicate Spans(t: Tree, before: seq<Waiter>, node: Tree, after: seq<Waiter>) {
    InOrder(t) == before + InOrder(node) + after
  }

  lemma StepRight(t: Tree, before: seq<Waiter>, node: Tree, after: seq<Waiter>, key: int)
    requires node.Node? && Spans(t, before, node, after) && Sorted(InOrder(node))
    requires Queue(before, key) == [] && node.item.key < key
    ensures var before' := before + (InOrder(node.left) + [node.item]);
      Spans(t, before', node.right, after) && Queue(before', key) == [] && Sorted(InOrder(node.right))
  {
    SortedSplit(node);
    var lw, r := InOrder(node.left) + [node.item], InOrder(node.right);
    Seqs.Assoc(before, lw, r);
    SearchRight(before, InOrder(node.left), node.item, key);
  }

  lemma StepLeft(t: Tree, before: seq<Waiter>, node: Tree, after: seq<Waiter>, key: int)
    requires node.Node? && Spans(t, before, node, after) && Sorted(InOrder(node)) && node.item.key >= key
    ensures var after' := [node.item] + InOrder(node.right) + after;
      && Spans(t, before, node.left, after') && Sorted(InOrder(node.left))
      && Head(Queue(after', key)) == if node.item.key == key then Some(node.item) else Head(Queue(after, key))
  {
    SortedSplit(node);
    var l, w, r := InOrder(node.left), [node.item], InOrder(node.right);
    Seqs.Assoc(l, w, r);
    Seqs.Assoc(before, l, w + r);
    Seqs.Assoc(before + l, w + r, after);
    SearchLeft(node.item, r, after, key);
  }

  /** `waiting_first`: the loop keeps going left so that it ends on the oldest
      waiter of the channel, or on none when the channel is empty. */
  method First(t: Tree, key: int) returns (found: Option<Waiter>)
    requires Sorted(InOrder(t))
    ensures found == Head(Queue(InOrder(t), key))
  {
    found := None;
    var node := t;
    ghost var before: seq<Waiter>, after: seq<Waiter> := [], [];
    Seqs.Nil(InOrder(t));
    while node.Node?
      invariant Sorted(InOrder(node))
      invariant Spans(t, before, node, after)
      invariant Queue(before, key) == []
      invariant found == Head(Queue(after, key))
      decreases node
    {
      if node.item.key < key {
        StepRight(t, before, node, after, key);
        before := before + (InOrder(node.left) + [node.item]);
        node := node.right;
      } else {
        StepLeft(t, before, node, after, key);
        if node.item.key == key {
          found := Some(node.item);
        }
        after := [node.item] + InOrder(node.right) + after;
        node := node.left;
      }
    }
    Seqs.Nil(before);
    QueueConcat(before, after, key);
    Seqs.Nil(Queue(after, key));
  }

  function Head<T>(s: seq<T>): Option<T> {
    if s == [] then None else Some(s[0])
  }

  // ---- removal ----

  function RemoveSlot(ws: seq<Waiter>, slot: nat): seq<Waiter> {
    if ws == [] then []
    else if ws[0].slot == slot then ws[1..]
    else [ws[0]] + RemoveSlot(ws[1..], slot)
  }

  lemma {:induction false} RemoveSlotConcat(a: seq<Waiter>, b: seq<Waiter>, slot: nat)
    ensures RemoveSlot(a + b, slot) ==
            if HasSlot(a, slot) then RemoveSlot(a, slot) + b else a + RemoveSlot(b, slot)
  {
    if a == [] {
      Seqs.Nil(b);
      Seqs.Nil(RemoveSlot(b, slot));
    } else {
      Seqs.ConcatTail(a, b);
      RemoveSlotConcat(a[1..], b, slot);
      Seqs.HeadTail(a);
      Seqs.Assoc([a[0]], RemoveSlot(a[1..], slot), b);
      Seqs.Assoc([a[0]], a[1..], RemoveSlot(b, slot));
    }
  }

  ghost predicate HasSlot(ws: seq<Waiter>, slot: nat) {
    exists i :: 0 <= i < |ws| && ws[i].slot == slot
  }

  predicate Holds(t: Tree, slot: nat) {
    match t
    case Leaf => false
    case Node(l, w, r) => Holds(l, slot) || w.slot == slot || Holds(r, slot)
  }

  lemma {:induction false} HoldsInOrder(t: Tree, slot: nat)
    ensures Holds(t, slot) <==> HasSlot(InOrder(t), slot)
  {
    match t
    case Leaf =>
    case Node(l, w, r) =>
      HoldsInOrder(l, slot);
      HoldsInOrder(r, slot);
      var a, b, s := InOrder(l), InOrder(r), InOrder(t);
      forall i | 0 <= i < |a| ensures s[i] == a[i] {}
      forall i | 0 <= i < |b| ensures s[|a| + 1 + i] == b[i] {}
      assert s[|a|] == w;
  }

  /** Leftmost node, the in-order successor that takes a removed node's place. */
  function TakeMin(t: Tree): (r: (Waiter, Tree))
    requires t.Node?
    ensures InOrder(t) == [r.0] + InOrder(r.1)
  {
    if t.left.Leaf? then (t.item, t.right)
    else
      var (m, l) := TakeMin(t.left);
      (m, Node(l, t.item, t.right))
  }

  function RemoveRoot(t: Tree): (r: Tree)
    requires t.Node?
    ensures InOrder(r) == InOrder(t.left) + InOrder(t.right)
  {
    if t.left.Leaf? then t.right
    else if t.right.Leaf? then t.left
    else
      var (m, right) := TakeMin(t.right);
      Node(t.left, m, right)
  }

  /** `rb_remove` of a process's own node. */
  function Remove(t: Tree, slot: nat): Tree {
    match t
    case Leaf => Leaf
    case Node(l, w, r) =>
      if Holds(l, slot) then Node(Remove(l, slot), w, r)
      else if w.slot == slot then RemoveRoot(t)
      else Node(l, w, Remove(r, slot))
  }

  lemma {:induction false} RemoveInOrder(t: Tree, slot: nat)
    ensures InOrder(Remove(t, slot)) == RemoveSlot(InOrder(t), slot)
  {
    match t
    case Leaf =>
    case Node(l, w, r) =>
      RemoveInOrder(l, slot);
      RemoveInOrder(r, slot);
      HoldsInOrder(l, slot);
      RemoveSlotConcat(InOrder(l) + [w], InOrder(r), slot);
      RemoveSlotConcat(InOrder(l), [w], slot);
      if HasSlot(InOrder(l), slot) {
        var i :| 0 <= i < |InOrder(l)| && InOrder(l)[i].slot == slot;
        assert (InOrder(l) + [w])[i].slot == slot;
      } else if w.slot == slot {
        assert (InOrder(l) + [w])[|InOrder(l)|].slot == slot;
        assert [w][1..] == [];
      }
  }

  ghost predicate DistinctSlots(ws: seq<Waiter>) {
    forall i, j :: 0 <= i < j < |ws| ==> ws[i].slot != ws[j].slot
  }

  lemma {:induction false} RemoveAt(ws: seq<Waiter>, i: nat)
    requires i < |ws| && DistinctSlots(ws)
    ensures RemoveSlot(ws, ws[i].slot) == ws[..i] + ws[i + 1..]
  {
    if i > 0 {
      RemoveAt(ws[1..], i - 1);
      assert ws[1..][..i - 1] == ws[1..i];
      assert ws[1..][i..] == ws[i + 1..];
      assert [ws[0]] + ws[1..i] == ws[..i];
    }
  }

  lemma DropAt(ws: seq<Waiter>, i: nat, r: seq<Waiter>)
    requires i < |ws| && DistinctSlots(ws) && r == ws[..i] + ws[i + 1..]
    ensures !HasSlot(r, ws[i].slot) && DistinctSlots(r)
    ensures forall w :: w in r <==> w in ws && w.slot != ws[i].slot
    ensures Sorted(ws) ==> Sorted(r)
  {
    assert forall k :: 0 <= k < |r| ==> r[k] == ws[if k < i then k else k + 1];
    forall w | w in ws && w.slot != ws[i].slot ensures w in r {
      var k :| 0 <= k < |ws| && ws[k] == w;
      assert r[if k < i then k else k - 1] == w;
    }
  }

  lemma RemoveSlotFacts(ws: seq<Waiter>, slot: nat)
    requires DistinctSlots(ws)
    ensures !HasSlot(RemoveSlot(ws, slot), slot)
    ensures forall w :: w in RemoveSlot(ws, slot) <==> w in ws && w.slot != slot
    ensures DistinctSlots(RemoveSlot(ws, slot))
    ensures Sorted(ws) ==> Sorted(RemoveSlot(ws, slot))
  {
    if HasSlot(ws, slot) {
      var i :| 0 <= i < |ws| && ws[i].slot == slot;
      RemoveAt(ws, i);
      DropAt(ws, i, RemoveSlot(ws, slot));
    } else {
      RemoveAbsent(ws, slot);
    }
  }

  lemma DropMiddle(a: seq<Waiter>, w: Waiter, b: seq<Waiter>)
    requires DistinctSlots(a + [w] + b)
    ensures RemoveSlot(a + [w] + b, w.slot) == a + b
    ensures DistinctSlots(a + b)
  {
    var ws := a + [w] + b;
    assert ws[|a|] == w;
    RemoveAt(ws, |a|);
    assert ws[..|a|] == a && ws[|a| + 1..] == b;
    DropAt(ws, |a|, a + b);
  }

  /** Removing one sleeper drops it from its channel's queue and keeps every order. */
  lemma {:induction false} RemoveQueue(ws: seq<Waiter>, slot: nat, key: int)
    requires DistinctSlots(ws)
    ensures Queue(RemoveSlot(ws, slot), key) == RemoveSlot(Queue(ws, key), slot)
  {
    if ws != [] {
      RemoveQueue(ws[1..], slot, key);
      var q := Queue(ws[1..], key);
      if ws[0].slot == slot {
        if ws[0].key == key {
          assert Queue(ws, key) == [ws[0]] + q;
        } else {
          forall i | 0 <= i < |q| ensures q[i].slot != slot {
            QueueMembers(ws[1..], key, q[i]);
            assert q[i] in ws[1..];
          }
          RemoveAbsent(q, slot);
          assert [] + q == q;
        }
      } else {
        var rest := RemoveSlot(ws[1..], slot);
        assert ([ws[0]] + rest)[1..] == rest;
        if ws[0].key == key {
          assert ([ws[0]] + q)[1..] == q;
        } else {
          assert [] + q == q && [] + Queue(rest, key) == Queue(rest, key);
        }
      }
    }
  }

  lemma {:induction false} RemoveAbsent(ws: seq<Waiter>, slot: nat)
    requires forall i :: 0 <= i < |ws| ==> ws[i].slot != slot
    ensures RemoveSlot(ws, slot) == ws
  {
    if ws != [] {
      RemoveAbsent(ws[1..], slot);
    }
  }

  // ---- rebalancing ----

  function RotateLeft(t: Tree): Tree
    requires t.Node? && t.right.Node?
  {
    Node(Node(t.left, t.item, t.right.left), t.right.item, t.right.right)
  }

  function RotateRight(t: Tree): Tree
    requires t.Node? && t.left.Node?
  {
    Node(t.left.left, t.left.item, Node(t.left.right, t.item, t.right))
  }

  /** A rotation at any node below the root. */
  function RotateAt(t: Tree, path: seq<bool>, left: bool): Tree {
    if t.Leaf? then t
    else if path != [] then
      if path[0] then t.(left := RotateAt(t.left, path[1..], left))
      else t.(right := RotateAt(t.right, path[1..], left))
    else if left then (if t.right.Node? then RotateLeft(t) else t)
    else (if t.left.Node? then RotateRight(t) else t)
  }

  /** Whatever rotations rebalancing performs, the order and so every queue stays. */
  lemma {:induction false} RotationsKeepOrder(t: Tree, path: seq<bool>, left: bool)
    ensures InOrder(RotateAt(t, path, left)) == InOrder(t)
    decreases |path|
  {
    if t.Node? && path != [] {
      RotationsKeepOrder(t.left, path[1..], left);
      RotationsKeepOrder(t.right, path[1..], left);
    }
  }
}
