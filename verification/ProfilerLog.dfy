/** The profiler's sample buffer, written by the kernel and read back by the host: every
    record is parsed to the sample it was made from.
 */
module ProfilerLog {
  import opened Basics
  import Seqs
  import opened LE = LittleEndian

  const MAX_DEPTH: nat := 32
  const RECORD: nat := 32

  /** What an interrupt found: the sample, and the frame pointer the record also keeps. */
  datatype Shot = Shot(tsc: nat, rip: nat, cpu: nat, user: bool, truncated: bool, interruptsOn: bool, rbp: nat,
                       frames: seq<nat>)

  /** What the host gets back. */
  datatype Sample = Sample(tsc: nat, rip: nat, cpu: nat, user: bool, truncated: bool, frames: seq<nat>,
                           interruptsOn: bool)

  predicate ShotOk(s: Shot) {
    && s.tsc < WORD && s.rip < WORD && s.rbp < WORD && s.cpu < 256 && |s.frames| <= MAX_DEPTH
    && forall i :: 0 <= i < |s.frames| ==> s.frames[i] < WORD
  }

  function AsSample(s: Shot): Sample {
    Sample(s.tsc, s.rip, s.cpu, s.user, s.truncated, s.frames, s.interruptsOn)
  }

  // ---- writing a record ----

  function Flags(s: Shot): nat {
    (if s.user then 1 else 0) + (if s.truncated then 2 else 0) + (if s.interruptsOn then 4 else 0)
  }

  /** The header of a record. */
  function Head(s: Shot): (r: seq<nat>)
    ensures |r| == RECORD
  {
    Put(s.tsc, 8) + Put(s.rip, 8) + Put(|s.frames|, 2) + [s.cpu] + [Flags(s)] + Put(0, 4) + Put(s.rbp, 8)
  }

  function Encode(s: Shot): (r: seq<nat>)
    ensures |r| == RECORD + 8 * |s.frames|
  {
    WordsLength(s.frames, |s.frames|);
    Head(s) + Concat(Words(s.frames), |s.frames|)
  }

  // ---- parsing ----

  datatype Parsed = Parsed(samples: seq<Sample>, ok: bool)

  function GetFrames(data: seq<nat>, at: nat, k: nat): (r: seq<nat>)
    requires at + 8 * k <= |data|
    ensures |r| == k
    decreases k, at, data
  {
    if k == 0 then [] else GetFrames(data, at, k - 1) + [Get(data, at + 8 * (k - 1), 8)]
  }

  function SampleAt(data: seq<nat>, at: nat, depth: nat): Sample
    requires at + RECORD + 8 * depth <= |data|
  {
    var flags := data[at + 19];
    Sample(Get(data, at, 8), Get(data, at + 8, 8), data[at + 18], flags % 2 == 1, flags / 2 % 2 == 1,
           GetFrames(data, at + RECORD, depth), flags / 4 % 2 == 1)
  }

  /** `parse_samples` from an offset: the samples it yields, and whether it ends without an
      error. */
  function ParseFrom(data: seq<nat>, at: nat): Parsed
    requires at <= |data|
    decreases |data| - at
  {
    if at == |data| then Parsed([], true)
    else if |data| - at < RECORD then Parsed([], false)
    else
      var depth := Get(data, at + 16, 2);
      if depth > MAX_DEPTH || at + RECORD + 8 * depth > |data| then Parsed([], false)
      else
        var rest := ParseFrom(data, at + RECORD + 8 * depth);
        Parsed([SampleAt(data, at, depth)] + rest.samples, rest.ok)
  }

  // ---- reading back one record ----

  lemma {:induction false} FramesRead(data: seq<nat>, at: nat, frames: seq<nat>, k: nat)
    requires Holds(data, at, Concat(Words(frames), |frames|)) && k <= |frames| && at + 8 * k <= |data|
    requires forall i :: 0 <= i < |frames| ==> frames[i] < WORD
    ensures GetFrames(data, at, k) == frames[..k]
    decreases k
  {
    if k > 0 {
      FramesRead(data, at, frames, k - 1);
      WordAt(data, at, frames, k - 1);
      Seqs.TakeSnoc(frames, k - 1);
    }
  }

  lemma FlagsRead(s: Shot)
    ensures var f := Flags(s);
      (f % 2 == 1) == s.user && (f / 2 % 2 == 1) == s.truncated && (f / 4 % 2 == 1) == s.interruptsOn
  {}

  lemma HeadRead(data: seq<nat>, at: nat, s: Shot)
    requires ShotOk(s) && Holds(data, at, Head(s))
    ensures Get(data, at, 8) == s.tsc && Get(data, at + 8, 8) == s.rip && Get(data, at + 16, 2) == |s.frames|
    ensures data[at + 18] == s.cpu && data[at + 19] == Flags(s)
  {
    var a, b, c := Put(s.tsc, 8), Put(s.rip, 8), Put(|s.frames|, 2);
    var d, e, z := [s.cpu], [Flags(s)], Put(0, 4);
    HoldsPart(data, at, a + b + c + d + e + z, Put(s.rbp, 8));
    HoldsPart(data, at, a + b + c + d + e, z);
    HoldsPart(data, at, a + b + c + d, e);
    HoldsPart(data, at, a + b + c, d);
    HoldsPart(data, at, a + b, c);
    HoldsPart(data, at, a, b);
    WordRead(data, at, s.tsc);
    WordRead(data, at + 8, s.rip);
    Widths();
    GetPut(data, at + 16, |s.frames|, 2);
    assert data[at + 18] == d[0] && data[at + 19] == e[0];
  }

  /** Where a record was written the host reads the sample it was made from. */
  lemma RecordRead(data: seq<nat>, at: nat, s: Shot)
    requires ShotOk(s) && Holds(data, at, Encode(s))
    ensures Get(data, at + 16, 2) == |s.frames| && SampleAt(data, at, |s.frames|) == AsSample(s)
  {
    HoldsPart(data, at, Head(s), Concat(Words(s.frames), |s.frames|));
    HeadRead(data, at, s);
    WordsLength(s.frames, |s.frames|);
    FramesRead(data, at + RECORD, s.frames, |s.frames|);
    assert s.frames[..|s.frames|] == s.frames;
    FlagsRead(s);
  }

  /** Parsing at a record yields its sample and goes on after it. */
  lemma ParseRecord(data: seq<nat>, at: nat, next: nat, s: Shot)
    requires |s.frames| <= MAX_DEPTH && next == at + RECORD + 8 * |s.frames| <= |data|
    requires Get(data, at + 16, 2) == |s.frames| && SampleAt(data, at, |s.frames|) == AsSample(s)
    ensures var rest := ParseFrom(data, next);
      ParseFrom(data, at) == Parsed([AsSample(s)] + rest.samples, rest.ok)
  {}

  // ---- many records ----

  predicate AllOk(shots: seq<Shot>) {
    forall i :: 0 <= i < |shots| ==> ShotOk(shots[i])
  }

  /** The first `k` of `recs` are the records of the first `k` shots. */
  predicate Records(shots: seq<Shot>, recs: seq<seq<nat>>, k: nat) {
    k <= |shots| && k <= |recs| && (k == 0 || (recs[k - 1] == Encode(shots[k - 1]) && Records(shots, recs, k - 1)))
  }

  lemma {:induction false} RecordAt(shots: seq<Shot>, recs: seq<seq<nat>>, k: nat, j: nat)
    requires Records(shots, recs, k) && j < k
    ensures j < |shots| && j < |recs| && recs[j] == Encode(shots[j])
    decreases k
  {
    if j < k - 1 {
      RecordAt(shots, recs, k - 1, j);
    }
  }

  /** The samples of shots `i` up to `k`. */
  function Samples(shots: seq<Shot>, i: nat, k: nat): seq<Sample>
    requires i <= k <= |shots|
    decreases k - i
  {
    if i == k then [] else [AsSample(shots[i])] + Samples(shots, i + 1, k)
  }

  /** One more record off the front of the rest. */
  lemma ParseStep(shots: seq<Shot>, recs: seq<seq<nat>>, k: nat, j: nat)
    requires Records(shots, recs, k) && j < k && ShotOk(shots[j])
    ensures |Concat(recs, j)| < |Concat(recs, j + 1)| <= |Concat(recs, k)|
    ensures var rest := ParseFrom(Concat(recs, k), |Concat(recs, j + 1)|);
      ParseFrom(Concat(recs, k), |Concat(recs, j)|) == Parsed([AsSample(shots[j])] + rest.samples, rest.ok)
  {
    RecordAt(shots, recs, k, j);
    ConcatHolds(recs, k, j);
    RecordRead(Concat(recs, k), |Concat(recs, j)|, shots[j]);
    ParseRecord(Concat(recs, k), |Concat(recs, j)|, |Concat(recs, j + 1)|, shots[j]);
  }

  /** From the `j`-th record on, each parses to its sample and the rest. */
  ghost predicate StepsFrom(shots: seq<Shot>, recs: seq<seq<nat>>, data: seq<nat>, k: nat, j: nat)
    requires j <= k <= |shots| && k <= |recs|
    decreases k - j
  {
    && |Concat(recs, j)| <= |data|
    && if j == k then |Concat(recs, j)| == |data|
      else
        && StepsFrom(shots, recs, data, k, j + 1)
        && var rest := ParseFrom(data, |Concat(recs, j + 1)|);
        ParseFrom(data, |Concat(recs, j)|) == Parsed([AsSample(shots[j])] + rest.samples, rest.ok)
  }

  lemma {:induction false} StepsHold(shots: seq<Shot>, recs: seq<seq<nat>>, k: nat, j: nat)
    requires Records(shots, recs, k) && j <= k && AllOk(shots)
    ensures StepsFrom(shots, recs, Concat(recs, k), k, j)
    decreases k - j
  {
    if j < k {
      StepsHold(shots, recs, k, j + 1);
      ParseStep(shots, recs, k, j);
    }
  }

  lemma {:induction false} StepsParse(shots: seq<Shot>, recs: seq<seq<nat>>, data: seq<nat>, k: nat, j: nat)
    requires j <= k <= |shots| && k <= |recs| && StepsFrom(shots, recs, data, k, j)
    ensures ParseFrom(data, |Concat(recs, j)|) == Parsed(Samples(shots, j, k), true)
    decreases k - j
  {
    if j < k {
      StepsParse(shots, recs, data, k, j + 1);
    }
  }

  /** What the kernel wrote, the host parses: every record, in order, without an error. */
  lemma ParseReadsBack(shots: seq<Shot>, recs: seq<seq<nat>>, k: nat)
    requires Records(shots, recs, k) && AllOk(shots)
    ensures ParseFrom(Concat(recs, k), 0) == Parsed(Samples(shots, 0, k), true)
  {
    StepsHold(shots, recs, k, 0);
    StepsParse(shots, recs, Concat(recs, k), k, 0);
  }
}
