/** Equations between sequence expressions that the proofs use by name. */
module Seqs {
  lemma ConcatTail<T>(a: seq<T>, b: seq<T>)
    requires a != []
    ensures (a + b)[0] == a[0] && (a + b)[1..] == a[1..] + b
  {}

  lemma Assoc<T>(a: seq<T>, b: seq<T>, c: seq<T>)
    ensures (a + b) + c == a + (b + c)
  {}

  lemma Nil<T>(a: seq<T>)
    ensures [] + a == a && a + [] == a
  {}

  lemma Cons<T>(x: T, a: seq<T>)
    ensures ([x] + a)[0] == x && ([x] + a)[1..] == a
  {}

  lemma HeadTail<T>(a: seq<T>)
    requires a != []
    ensures [a[0]] + a[1..] == a
  {}

  lemma Split<T>(a: seq<T>, i: nat)
    requires i <= |a|
    ensures a[..i] + a[i..] == a
  {}

  lemma DropDrop<T>(a: seq<T>, i: nat, j: nat)
    requires i + j <= |a|
    ensures a[i..][j..] == a[i + j..]
  {}

  lemma TakeConcat<T>(a: seq<T>, b: seq<T>, n: nat)
    requires n <= |a|
    ensures (a + b)[..n] == a[..n]
  {}

  lemma TakeTake<T>(a: seq<T>, k: nat, n: nat)
    requires n <= k <= |a|
    ensures a[..k][..n] == a[..n]
  {}

  lemma TakeSnoc<T>(a: seq<T>, i: nat)
    requires i < |a|
    ensures a[..i] + [a[i]] == a[..i + 1]
  {}

  lemma Inserted<T>(a: seq<T>, i: nat, x: T)
    requires i <= |a|
    ensures |a[..i] + [x] + a[i..]| == |a| + 1
    ensures (a[..i] + [x] + a[i..])[i] == x
    ensures forall k :: 0 <= k < i ==> (a[..i] + [x] + a[i..])[k] == a[k]
    ensures forall k :: i < k <= |a| ==> (a[..i] + [x] + a[i..])[k] == a[k - 1]
  {}

  /** Cutting `a + [x] + b` behind or in front of `x`. */
  lemma CutRight<T>(a: seq<T>, x: T, b: seq<T>, i: nat)
    requires i <= |b|
    ensures |a| + 1 + i <= |a + [x] + b|
    ensures (a + [x] + b)[..|a| + 1 + i] == a + [x] + b[..i]
    ensures (a + [x] + b)[|a| + 1 + i..] == b[i..]
  {}

  lemma CutLeft<T>(a: seq<T>, x: T, b: seq<T>, i: nat)
    requires i <= |a|
    ensures (a + [x] + b)[..i] == a[..i]
    ensures (a + [x] + b)[i..] == a[i..] + [x] + b
  {}

  lemma Assoc5<T>(a: seq<T>, x: T, b: seq<T>, y: T, c: seq<T>)
    ensures (a + [x] + b) + [y] + c == a + [x] + (b + [y] + c)
    ensures a + [x] + (b + [y] + c) == (a + [x] + b) + [y] + c
  {}
}
