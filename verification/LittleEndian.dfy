/** Unsigned numbers as little-endian bytes and back.
 */
module LittleEndian {
  import opened Basics
  function Limit(k: nat): nat {
    if k == 0 then 1 else 256 * Limit(k - 1)
  }

  /** `k` bytes, the least significant first. */
  function Put(n: nat, k: nat): (r: seq<nat>)
    ensures |r| == k
    decreases k, n
  {
    if k == 0 then [] else [n % 256] + Put(n / 256, k - 1)
  }

  /** The number in `k` bytes of `s` from `at`. */
  function Get(s: seq<nat>, at: nat, k: nat): nat
    requires at + k <= |s|
    decreases k, at, s
  {
    if k == 0 then 0 else s[at] + 256 * Get(s, at + 1, k - 1)
  }

  /** `r` stands in `data` at `at`. */
  predicate Holds(data: seq<nat>, at: nat, r: seq<nat>) {
    at + |r| <= |data| && forall j :: at <= j < at + |r| ==> data[j] == r[j - at]
  }

  lemma HoldsPart(data: seq<nat>, at: nat, a: seq<nat>, b: seq<nat>)
    requires Holds(data, at, a + b)
    ensures Holds(data, at, a) && Holds(data, at + |a|, b)
  {
    forall j | at <= j < at + |a| ensures data[j] == a[j - at] {
      assert (a + b)[j - at] == a[j - at];
    }
    forall j | at + |a| <= j < at + |a| + |b| ensures data[j] == b[j - (at + |a|)] {
      assert data[j] == (a + b)[j - at];
    }
  }

  /** Some byte strings one after another. */
  function Concat(recs: seq<seq<nat>>, k: nat): seq<nat>
    requires k <= |recs|
    decreases k, recs
  {
    if k == 0 then [] else Concat(recs, k - 1) + recs[k - 1]
  }

  lemma HoldsLast(a: seq<nat>, b: seq<nat>)
    ensures Holds(a + b, |a|, b)
  {}

  lemma HoldsMore(a: seq<nat>, b: seq<nat>, at: nat, r: seq<nat>)
    requires Holds(a, at, r)
    ensures Holds(a + b, at, r)
  {
    forall j | at <= j < at + |r| ensures (a + b)[j] == r[j - at] {
      assert (a + b)[j] == a[j];
    }
  }

  /** Each stands right after those before it. */
  lemma {:induction false} ConcatHolds(recs: seq<seq<nat>>, k: nat, j: nat)
    requires j < k <= |recs|
    ensures Holds(Concat(recs, k), |Concat(recs, j)|, recs[j])
    ensures |Concat(recs, j + 1)| == |Concat(recs, j)| + |recs[j]|
    decreases k
  {
    if j == k - 1 {
      HoldsLast(Concat(recs, j), recs[j]);
    } else {
      ConcatHolds(recs, k - 1, j);
      HoldsMore(Concat(recs, k - 1), recs[k - 1], |Concat(recs, j)|, recs[j]);
    }
  }

  /** What stands within something that stands. */
  lemma HoldsWithin(data: seq<nat>, at: nat, r: seq<nat>, i: nat, p: seq<nat>)
    requires Holds(data, at, r) && Holds(r, i, p)
    ensures Holds(data, at + i, p)
  {
    forall j | at + i <= j < at + i + |p| ensures data[j] == p[j - (at + i)] {
      assert data[j] == r[j - at];
    }
  }

  /** Reading where a number was written gives it back, if it fits. */
  lemma {:induction false} GetPut(s: seq<nat>, at: nat, n: nat, k: nat)
    requires n < Limit(k) && Holds(s, at, Put(n, k))
    ensures Get(s, at, k) == n
    decreases k
  {
    if k > 0 {
      HoldsPart(s, at, [n % 256], Put(n / 256, k - 1));
      GetPut(s, at + 1, n / 256, k - 1);
    }
  }

  lemma Widths()
    ensures Limit(1) == 0x100 && Limit(2) == 0x1_0000 && Limit(4) == 0x1_0000_0000
    ensures Limit(8) == 0x1_0000_0000_0000_0000
  {
    assert Limit(2) == 256 * Limit(1) && Limit(3) == 256 * Limit(2) && Limit(4) == 256 * Limit(3);
    assert Limit(5) == 256 * Limit(4) && Limit(6) == 256 * Limit(5) && Limit(7) == 256 * Limit(6);
  }

  // ---- 64-bit words ----

  lemma WordRead(data: seq<nat>, at: nat, n: nat)
    requires Holds(data, at, Put(n, 8)) && n < WORD
    ensures Get(data, at, 8) == n
  {
    Widths();
    GetPut(data, at, n, 8);
  }

  /** Each word as bytes. */
  function Words(ws: seq<nat>): (r: seq<seq<nat>>)
    ensures |r| == |ws| && forall i :: 0 <= i < |r| ==> r[i] == Put(ws[i], 8)
  {
    seq(|ws|, i requires 0 <= i < |ws| => Put(ws[i], 8))
  }

  lemma {:induction false} WordsLength(ws: seq<nat>, k: nat)
    requires k <= |ws|
    ensures |Concat(Words(ws), k)| == 8 * k
    decreases k
  {
    if k > 0 {
      WordsLength(ws, k - 1);
    }
  }

  /** Each of a row of words can be read back. */
  lemma WordAt(data: seq<nat>, at: nat, ws: seq<nat>, i: nat)
    requires i < |ws| && ws[i] < WORD && Holds(data, at, Concat(Words(ws), |ws|))
    ensures at + 8 * i + 8 <= |data| && Get(data, at + 8 * i, 8) == ws[i]
  {
    ConcatHolds(Words(ws), |ws|, i);
    WordsLength(ws, i);
    HoldsWithin(data, at, Concat(Words(ws), |ws|), 8 * i, Put(ws[i], 8));
    WordRead(data, at + 8 * i, ws[i]);
  }
}
