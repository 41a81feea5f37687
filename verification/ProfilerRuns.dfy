/** A round of profiling: samples taken one after another into a buffer that may fill up,
    the counters beside it, and what the host reads when the round is over.
 */
module ProfilerRuns {
  import Seqs
  import opened LittleEndian
  import opened ProfilerLog

  /** One processor's buffer and counters. */
  datatype Log = Log(buffer: seq<nat>, offset: nat, nmiCount: nat, samples: nat, dropped: nat, truncated: nat,
                     user: nat)

  /** `arm`: everything from zero. */
  function Armed(buffer: seq<nat>): Log {
    Log(buffer, 0, 0, 0, 0, 0, 0)
  }

  /** `r` written over `s` at `at`. */
  function Over(s: seq<nat>, at: nat, r: seq<nat>): (t: seq<nat>)
    requires at + |r| <= |s|
    ensures |t| == |s|
  {
    s[..at] + r + s[at + |r|..]
  }

  predicate Fits(l: Log, s: Shot) {
    l.dropped == 0 && l.offset + |Encode(s)| <= |l.buffer|
  }

  /** `profiler_nmi_handler` and `record_sample` for a counter overflow: once one sample was
      dropped, so is every later one. */
  function Take(l: Log, s: Shot): Log {
    var n := l.(nmiCount := l.nmiCount + 1);
    if !Fits(l, s) then n.(dropped := l.dropped + 1)
    else
      n.(buffer := Over(l.buffer, l.offset, Encode(s)), offset := l.offset + |Encode(s)|, samples := l.samples + 1,
         user := l.user + (if s.user then 1 else 0), truncated := l.truncated + (if s.truncated then 1 else 0))
  }

  /** After the first `k` samples of a round. */
  function Taken(buffer: seq<nat>, shots: seq<Shot>, k: nat): Log
    requires k <= |shots|
  {
    if k == 0 then Armed(buffer) else Take(Taken(buffer, shots, k - 1), shots[k - 1])
  }

  /** How many of the first `k` shots were in user code, and how many cut short. */
  function Users(shots: seq<Shot>, k: nat): nat
    requires k <= |shots|
  {
    if k == 0 then 0 else Users(shots, k - 1) + if shots[k - 1].user then 1 else 0
  }

  function Cuts(shots: seq<Shot>, k: nat): nat
    requires k <= |shots|
  {
    if k == 0 then 0 else Cuts(shots, k - 1) + if shots[k - 1].truncated then 1 else 0
  }

  /** After `k` of the shots: the buffer begins with the records of the first `samples`. */
  ghost predicate Kept(l: Log, buffer: seq<nat>, shots: seq<Shot>, k: nat, recs: seq<seq<nat>>) {
    && k <= |shots| && |l.buffer| == |buffer| && l.offset <= |l.buffer|
    && l.nmiCount == k == l.samples + l.dropped && (l.dropped == 0 ==> l.samples == k)
    && |recs| == l.samples && Records(shots, recs, l.samples) && l.buffer[..l.offset] == Concat(recs, l.samples)
    && l.user == Users(shots, l.samples) && l.truncated == Cuts(shots, l.samples)
  }

  lemma OverTakes(s: seq<nat>, at: nat, r: seq<nat>)
    requires at + |r| <= |s|
    ensures Over(s, at, r)[..at + |r|] == s[..at] + r
  {}

  lemma {:induction false} RecordsMore(shots: seq<Shot>, recs: seq<seq<nat>>, r: seq<nat>, k: nat)
    requires Records(shots, recs, k) && k <= |recs|
    ensures Records(shots, recs + [r], k) && Concat(recs + [r], k) == Concat(recs, k)
    decreases k
  {
    if k > 0 {
      RecordsMore(shots, recs, r, k - 1);
    }
  }

  lemma KeptRecords(l: Log, shots: seq<Shot>, recs: seq<seq<nat>>, s: Shot, r: seq<nat>)
    requires Fits(l, s) && r == Encode(s) && |recs| == l.samples < |shots| && shots[l.samples] == s
    requires l.offset <= |l.buffer|
    requires Records(shots, recs, l.samples) && l.buffer[..l.offset] == Concat(recs, l.samples)
    ensures Records(shots, recs + [r], l.samples + 1)
    ensures Take(l, s).buffer[..Take(l, s).offset] == Concat(recs + [r], l.samples + 1)
  {
    RecordsMore(shots, recs, r, l.samples);
    OverTakes(l.buffer, l.offset, r);
  }

  /** Each sample keeps it, whether it is recorded or dropped. */
  lemma TakeKeeps(l: Log, buffer: seq<nat>, shots: seq<Shot>, k: nat, recs: seq<seq<nat>>) returns (next: seq<seq<nat>>)
    requires Kept(l, buffer, shots, k, recs) && k < |shots|
    ensures Kept(Take(l, shots[k]), buffer, shots, k + 1, next)
  {
    next := recs;
    if Fits(l, shots[k]) {
      next := recs + [Encode(shots[k])];
      KeptRecords(l, shots, recs, shots[k], Encode(shots[k]));
    }
  }

  lemma {:induction false} TakenKeeps(buffer: seq<nat>, shots: seq<Shot>, k: nat) returns (recs: seq<seq<nat>>)
    requires k <= |shots|
    ensures Kept(Taken(buffer, shots, k), buffer, shots, k, recs)
    decreases k
  {
    recs := [];
    if k > 0 {
      var before := TakenKeeps(buffer, shots, k - 1);
      recs := TakeKeeps(Taken(buffer, shots, k - 1), buffer, shots, k - 1, before);
    }
  }

  /** For every sequence of samples of a round: the host reads from the written part of the
      buffer exactly the recorded ones, in order; they are the first of those taken; the
      counters count them; and nothing is written past the buffer. */
  lemma RoundReadsBack(buffer: seq<nat>, shots: seq<Shot>, k: nat)
    requires k <= |shots| && AllOk(shots)
    ensures var l := Taken(buffer, shots, k);
      && l.offset <= |l.buffer| == |buffer| && l.nmiCount == k == l.samples + l.dropped && l.samples <= |shots|
      && ParseFrom(l.buffer[..l.offset], 0) == Parsed(Samples(shots, 0, l.samples), true)
      && l.user == Users(shots, l.samples) && l.truncated == Cuts(shots, l.samples)
  {
    var recs := TakenKeeps(buffer, shots, k);
    ParseReadsBack(shots, recs, Taken(buffer, shots, k).samples);
  }

  lemma {:induction false} FirstDrops(buffer: seq<nat>, shots: seq<Shot>, k: nat, j: nat)
    requires j < k <= |shots|
    ensures Taken(buffer, shots, j).dropped <= Taken(buffer, shots, k).dropped
    ensures Taken(buffer, shots, j).dropped > 0 ==> Taken(buffer, shots, k).samples == Taken(buffer, shots, j).samples
    decreases k
  {
    if j < k - 1 {
      FirstDrops(buffer, shots, k - 1, j);
    }
  }

  // ---- the code ----

  class Recorder {
    var buffer: array<nat>
    var offset: nat
    var nmiCount: nat
    var samples: nat
    var dropped: nat
    var truncated: nat
    var user: nat

    ghost function View(): Log
      reads this, buffer
    {
      Log(buffer[..], offset, nmiCount, samples, dropped, truncated, user)
    }

    constructor (b: array<nat>)
      ensures View() == Armed(b[..]) && buffer == b
    {
      buffer := b;
      offset, nmiCount, samples, dropped, truncated, user := 0, 0, 0, 0, 0, 0;
    }

    method Store(at: nat, r: seq<nat>)
      requires at + |r| <= buffer.Length
      modifies buffer
      ensures buffer[..] == Over(old(buffer[..]), at, r)
    {
      var i := 0;
      while i < |r|
        invariant i <= |r|
        invariant forall j :: 0 <= j < buffer.Length ==>
          buffer[j] == if at <= j < at + i then r[j - at] else old(buffer[..])[j]
      {
        buffer[at + i] := r[i];
        i := i + 1;
      }
      assert buffer[..] == Over(old(buffer[..]), at, r);
    }

    /** `record_sample` */
    method Record(s: Shot)
      requires offset <= buffer.Length
      modifies this, buffer
      ensures buffer == old(buffer) && View() == Take(old(View()), s) && offset <= buffer.Length
    {
      nmiCount := nmiCount + 1;
      var r := Encode(s);
      if dropped > 0 || |r| > buffer.Length - offset {
        dropped := dropped + 1;
        return;
      }
      Store(offset, r);
      samples := samples + 1;
      if s.user {
        user := user + 1;
      }
      if s.truncated {
        truncated := truncated + 1;
      }
      offset := offset + |r|;
    }
  }

  /** `parse_samples` */
  method ParseSamples(data: seq<nat>) returns (samples: seq<Sample>, ok: bool)
    ensures Parsed(samples, ok) == ParseFrom(data, 0)
  {
    var offset := 0;
    samples := [];
    Seqs.Nil(ParseFrom(data, 0).samples);
    while offset < |data|
      invariant offset <= |data|
      invariant ParseFrom(data, 0) == Parsed(samples + ParseFrom(data, offset).samples, ParseFrom(data, offset).ok)
      decreases |data| - offset
    {
      Seqs.Nil(samples);
      if |data| - offset < RECORD {
        return samples, false;
      }
      var depth := Get(data, offset + 16, 2);
      if depth > MAX_DEPTH {
        return samples, false;
      }
      var end := offset + RECORD + depth * 8;
      if end > |data| {
        return samples, false;
      }
      var sample := SampleAt(data, offset, depth);
      Seqs.Assoc(samples, [sample], ParseFrom(data, end).samples);
      samples := samples + [sample];
      offset := end;
    }
    Seqs.Nil(samples);
    ok := true;
  }
}
