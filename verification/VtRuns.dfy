/** Byte sequences through the terminal: nothing a program writes can break it, and the
    numbers in a control sequence are the numbers the terminal acts on.
 */
module VtRuns {
  import Seqs
  import opened Grid
  import opened Vt

  predicate Bytes(s: seq<nat>) {
    forall i :: 0 <= i < |s| ==> s[i] < 256
  }

  /** The terminal after the bytes `s`: all but the last, and then the last. */
  ghost function Feed(v: Vt, s: seq<nat>): (w: Vt)
    requires Ok(v) && Bytes(s)
    ensures Ok(w)
    decreases |s|, v
  {
    if s == [] then v
    else if |s| == 1 then
      PutcSteps(v, s[0]);
      Putc(v, s[0])
    else Feed(Feed(v, s[..|s| - 1]), s[|s| - 1..])
  }

  /** Feeding one more byte. */
  lemma FeedSnoc(v: Vt, s: seq<nat>, c: nat)
    requires Ok(v) && Bytes(s) && c < 256
    ensures Bytes(s + [c]) && Feed(v, s + [c]) == Feed(Feed(v, s), [c])
  {
    if s == [] {
      assert s + [c] == [c];
    } else {
      assert (s + [c])[..|s|] == s && (s + [c])[|s|..] == [c];
    }
  }

  lemma FeedOne(v: Vt, c: nat)
    requires Ok(v) && c < 256
    ensures Feed(v, [c]) == Putc(v, c)
  {}

  /** Every byte sequence keeps the cursor and every write in bounds, and flags every row
      it changes. */
  lemma {:induction false} EveryInputIsSafe(v: Vt, s: seq<nat>)
    requires Ok(v) && Bytes(s)
    ensures Steps(v, Feed(v, s))
    decreases |s|
  {
    if s != [] {
      var k := |s| - 1;
      EveryInputIsSafe(v, s[..k]);
      FeedSnoc(v, s[..k], s[k]);
      assert s[..k] + [s[k]] == s;
      var w := Feed(v, s[..k]);
      OneByteSteps(w, s[k]);
      HonestThen(v.g, w.g, Feed(v, s).g);
    }
  }

  lemma OneByteSteps(v: Vt, c: nat)
    requires Ok(v) && c < 256
    ensures Steps(v, Feed(v, [c]))
  {
    PutcSteps(v, c);
    FeedOne(v, c);
  }

  lemma {:induction false} FeedJoin(v: Vt, s: seq<nat>, t: seq<nat>)
    requires Ok(v) && Bytes(s) && Bytes(t)
    ensures Bytes(s + t) && Ok(Feed(v, s)) && Feed(v, s + t) == Feed(Feed(v, s), t)
    decreases |t|
  {
    if t == [] {
      assert s + t == s;
    } else {
      var k := |t| - 1;
      FeedJoin(v, s, t[..k]);
      assert t == t[..k] + [t[k]];
      assert s + t == (s + t[..k]) + [t[k]];
      FeedSnoc(v, s + t[..k], t[k]);
      FeedSnoc(Feed(v, s), t[..k], t[k]);
    }
  }

  /** One stretch of bytes and then another. */
  lemma Then(v: Vt, s: seq<nat>, a: Vt, t: seq<nat>, b: Vt)
    requires Ok(v) && Ok(a) && Bytes(s) && Bytes(t) && Feed(v, s) == a && Feed(a, t) == b
    ensures Bytes(s + t) && Feed(v, s + t) == b
  {
    FeedJoin(v, s, t);
  }

  // ---- numbers ----

  lemma {:induction false} DigitsAreBytes(n: nat)
    ensures Bytes(Digits(n)) && Digits(n) != []
    decreases n
  {
    if n >= 10 {
      DigitsAreBytes(n / 10);
    }
  }

  /** The place the next digit goes. */
  function Slot(p: Parser): nat {
    if p.count == 0 then 0 else p.count - 1
  }

  /** A parser that has read the number `n` into its current parameter. */
  function Numbered(p: Parser, n: nat): Parser
    requires ParserOk(p)
  {
    p.(count := Slot(p) + 1, params := p.params[Slot(p) := n])
  }

  /** What a parameter that holds `x` holds after one more digit, or the digits of `n`. */
  function Pushed(x: nat, d: nat): nat {
    if x < 10000 then x * 10 + d else x
  }

  function Typed(x: nat, n: nat): nat {
    if n < 10 then Pushed(x, n) else Pushed(Typed(x, n / 10), n % 10)
  }

  /** A number, or its first five digits. */
  function Kept(n: nat): nat {
    if n <= PARAM_TOP then n else Kept(n / 10)
  }

  lemma {:induction false} TypedFits(x: nat, n: nat)
    requires x <= PARAM_TOP
    ensures Typed(x, n) <= PARAM_TOP
    decreases n
  {
    if n >= 10 {
      TypedFits(x, n / 10);
    }
  }

  lemma {:induction false} KeptFive(n: nat)
    requires n > PARAM_TOP
    ensures 10000 <= Kept(n) <= PARAM_TOP
    decreases n
  {
    if n / 10 > PARAM_TOP {
      KeptFive(n / 10);
    }
  }

  /** Into a fresh parameter a number goes whole, or as its first five digits. */
  lemma {:induction false} TypedFresh(n: nat)
    ensures Typed(0, n) == Kept(n)
    decreases n
  {
    if n >= 10 {
      TypedFresh(n / 10);
      if n / 10 > PARAM_TOP {
        KeptFive(n / 10);
      }
    }
  }

  lemma FirstDigit(v: Vt, d: nat)
    requires Ok(v) && v.parser.mode == Csi && d < 10
    ensures Feed(v, [48 + d]) == v.(parser := Numbered(v.parser, Pushed(v.parser.params[Slot(v.parser)], d)))
  {
    assert Digit(v.parser, d) == Numbered(v.parser, Pushed(v.parser.params[Slot(v.parser)], d));
    FeedOne(v, 48 + d);
  }

  lemma NextDigit(v: Vt, m: nat, d: nat)
    requires Ok(v) && v.parser.mode == Csi && d < 10 && m <= PARAM_TOP
    ensures Ok(v.(parser := Numbered(v.parser, m)))
    ensures Feed(v.(parser := Numbered(v.parser, m)), [48 + d]) == v.(parser := Numbered(v.parser, Pushed(m, d)))
  {
    assert Digit(Numbered(v.parser, m), d) == Numbered(v.parser, Pushed(m, d));
    FeedOne(v.(parser := Numbered(v.parser, m)), 48 + d);
  }

  lemma DigitAdds(v: Vt, s: seq<nat>, m: nat, d: nat)
    requires Ok(v) && v.parser.mode == Csi && d < 10 && m <= PARAM_TOP && Bytes(s)
    requires Feed(v, s) == v.(parser := Numbered(v.parser, m))
    ensures Bytes(s + [48 + d]) && Feed(v, s + [48 + d]) == v.(parser := Numbered(v.parser, Pushed(m, d)))
  {
    FeedSnoc(v, s, 48 + d);
    NextDigit(v, m, d);
  }

  /** Typing any number changes the current parameter by its digits, and nothing else. */
  lemma {:induction false} NumberIsTyped(v: Vt, n: nat)
    requires Ok(v) && v.parser.mode == Csi
    ensures Bytes(Digits(n))
    ensures Feed(v, Digits(n)) == v.(parser := Numbered(v.parser, Typed(v.parser.params[Slot(v.parser)], n)))
    decreases n
  {
    DigitsAreBytes(n);
    if n < 10 {
      FirstDigit(v, n);
    } else {
      NumberIsTyped(v, n / 10);
      TypedFits(v.parser.params[Slot(v.parser)], n / 10);
      DigitAdds(v, Digits(n / 10), Typed(v.parser.params[Slot(v.parser)], n / 10), n % 10);
    }
  }

  /** Typed into a fresh parameter, a number is read whole if and only if it has at most five
      digits, and otherwise its first five remain; nothing else changes. */
  lemma NumberIsRead(v: Vt, n: nat)
    requires Ok(v) && v.parser.mode == Csi && v.parser.params[Slot(v.parser)] == 0
    ensures Bytes(Digits(n)) && Feed(v, Digits(n)) == v.(parser := Numbered(v.parser, Kept(n)))
    ensures Kept(n) == n <==> n <= PARAM_TOP
  {
    NumberIsTyped(v, n);
    TypedFresh(n);
    if n > PARAM_TOP {
      KeptFive(n);
    }
  }

  lemma EscapeOpens(v: Vt)
    requires Ok(v) && v.parser.mode == Normal
    ensures Feed(v, [27]) == v.(parser := v.parser.(mode := Escape))
  {
    FeedOne(v, 27);
  }

  lemma BracketOpens(v: Vt)
    requires Ok(v) && v.parser.mode == Escape
    ensures Feed(v, [91]) == v.(parser := Parser(Csi, false, NoParams(MAX_PARAMS), 0))
  {
    FeedOne(v, 91);
  }

  lemma Opening(v: Vt, open: seq<nat>)
    requires Ok(v) && v.parser.mode == Normal && open == [27] + [91]
    ensures Bytes(open) && Feed(v, open) == v.(parser := Parser(Csi, false, NoParams(MAX_PARAMS), 0))
  {
    var w := v.(parser := v.parser.(mode := Escape));
    EscapeOpens(v);
    BracketOpens(w);
    Then(v, [27], w, [91], v.(parser := Parser(Csi, false, NoParams(MAX_PARAMS), 0)));
  }

  // ---- control sequences ----

  predicate Small(ps: seq<nat>) {
    |ps| <= MAX_PARAMS && forall i :: 0 <= i < |ps| ==> ps[i] <= PARAM_TOP
  }

  /** The first `k` numbers in digits, with semicolons between. */
  function Listed(ps: seq<nat>, k: nat): seq<nat>
    requires k <= |ps|
    decreases k, ps
  {
    if k == 0 then [] else if k == 1 then Digits(ps[0]) else Listed(ps, k - 1) + [59] + Digits(ps[k - 1])
  }

  /** ESC [ numbers final */
  function Sequence(ps: seq<nat>, final: nat): seq<nat> {
    [27, 91] + Listed(ps, |ps|) + [final]
  }

  /** What the last parameter holds after `k` numbers: the sixteenth, and the digits of all
      that came after it. */
  function Last(ps: seq<nat>, k: nat): nat
    requires MAX_PARAMS <= k <= |ps|
    decreases k, ps
  {
    if k == MAX_PARAMS then Kept(ps[k - 1]) else Typed(Last(ps, k - 1), ps[k - 1])
  }

  /** The parameter array after `k` numbers, and how many of it are in use. */
  function Loaded(ps: seq<nat>, k: nat): (r: seq<nat>)
    requires k <= |ps|
    ensures |r| == MAX_PARAMS
    ensures forall i :: 0 <= i < MAX_PARAMS ==>
      r[i] == if i >= k then 0 else if i == MAX_PARAMS - 1 then Last(ps, k) else Kept(ps[i])
  {
    seq(MAX_PARAMS, i requires 0 <= i < MAX_PARAMS =>
      if i >= k then 0 else if i == MAX_PARAMS - 1 then Last(ps, k) else Kept(ps[i]))
  }

  function Count(k: nat): nat {
    if k <= MAX_PARAMS then k else MAX_PARAMS
  }

  lemma {:induction false} LastFits(ps: seq<nat>, k: nat)
    requires MAX_PARAMS <= k <= |ps|
    ensures Last(ps, k) <= PARAM_TOP
    decreases k
  {
    if k == MAX_PARAMS {
      KeptFits(ps[k - 1]);
    } else {
      LastFits(ps, k - 1);
      TypedFits(Last(ps, k - 1), ps[k - 1]);
    }
  }

  lemma KeptFits(n: nat)
    ensures Kept(n) <= PARAM_TOP
  {
    if n > PARAM_TOP {
      KeptFive(n);
    }
  }

  lemma LoadedFits(ps: seq<nat>, k: nat)
    requires k <= |ps|
    ensures forall i :: 0 <= i < MAX_PARAMS ==> Loaded(ps, k)[i] <= PARAM_TOP
  {
    forall i | 0 <= i < MAX_PARAMS ensures Loaded(ps, k)[i] <= PARAM_TOP {
      if i < k {
        KeptFits(ps[i]);
        if i == MAX_PARAMS - 1 {
          LastFits(ps, k);
        }
      }
    }
  }

  /** The parser inside a sequence, `k` numbers read. */
  function Reading(v: Vt, ps: seq<nat>, k: nat): Vt
    requires k <= |ps|
  {
    v.(parser := Parser(Csi, false, Loaded(ps, k), Count(k)))
  }

  /** The place the `k`-th number's digits go, and what it then holds. */
  lemma LoadedMore(ps: seq<nat>, k: nat)
    requires 1 <= k <= |ps|
    ensures var x := Loaded(ps, k - 1)[Count(k) - 1];
      Loaded(ps, k - 1)[Count(k) - 1 := Typed(x, ps[k - 1])] == Loaded(ps, k)
  {
    TypedFresh(ps[k - 1]);
  }

  lemma NumberLoads(v: Vt, ps: seq<nat>, k: nat)
    requires Ok(v) && 1 <= k <= |ps|
    ensures var w := v.(parser := Parser(Csi, false, Loaded(ps, k - 1), if k == 1 then 0 else Count(k)));
      && Ok(w) && Bytes(Digits(ps[k - 1])) && Feed(w, Digits(ps[k - 1])) == Reading(v, ps, k)
  {
    var w := v.(parser := Parser(Csi, false, Loaded(ps, k - 1), if k == 1 then 0 else Count(k)));
    LoadedFits(ps, k - 1);
    NumberIsTyped(w, ps[k - 1]);
    LoadedMore(ps, k);
  }

  /** A semicolon makes room for the next number, as long as there is any. */
  lemma SemicolonReads(v: Vt, ps: seq<nat>, k: nat)
    requires Ok(v) && 1 <= k <= |ps|
    ensures Ok(Reading(v, ps, k))
    ensures Feed(Reading(v, ps, k), [59]) == v.(parser := Parser(Csi, false, Loaded(ps, k), Count(k + 1)))
  {
    LoadedFits(ps, k);
    FeedOne(Reading(v, ps, k), 59);
  }

  lemma NextRead(v: Vt, ps: seq<nat>, k: nat, before: seq<nat>)
    requires Ok(v) && 2 <= k <= |ps| && Bytes(before) && Feed(v, before) == Reading(v, ps, k - 1)
    ensures Bytes(before + [59] + Digits(ps[k - 1])) && Feed(v, before + [59] + Digits(ps[k - 1])) == Reading(v, ps, k)
  {
    SemicolonReads(v, ps, k - 1);
    NumberLoads(v, ps, k);
    var w := v.(parser := Parser(Csi, false, Loaded(ps, k - 1), Count(k)));
    Then(v, before, Reading(v, ps, k - 1), [59], w);
    Then(v, before + [59], w, Digits(ps[k - 1]), Reading(v, ps, k));
  }

  lemma FirstRead(v: Vt, ps: seq<nat>, opening: seq<nat>)
    requires Ok(v) && 1 <= |ps| && Bytes(opening) && Feed(v, opening) == Reading(v, ps, 0)
    ensures Bytes(opening + Digits(ps[0])) && Feed(v, opening + Digits(ps[0])) == Reading(v, ps, 1)
  {
    NumberLoads(v, ps, 1);
    Then(v, opening, Reading(v, ps, 0), Digits(ps[0]), Reading(v, ps, 1));
  }

  lemma ListedMore(ps: seq<nat>, k: nat, opening: seq<nat>)
    requires 1 <= k <= |ps|
    ensures k == 1 ==> opening + Listed(ps, k - 1) == opening && opening + Listed(ps, k) == opening + Digits(ps[0])
    ensures k > 1 ==> opening + Listed(ps, k) == opening + Listed(ps, k - 1) + [59] + Digits(ps[k - 1])
  {}

  /** Whatever numbers come between ESC [ and the final byte: the first fifteen are, each in
      its place and cut to five digits, parameters; the sixteenth takes the digits of all that
      follow; nothing else changes while they are read. */
  lemma {:induction false} ParametersAreRead(v: Vt, ps: seq<nat>, k: nat)
    requires Ok(v) && v.parser.mode == Normal && k <= |ps|
    ensures Bytes([27, 91] + Listed(ps, k)) && Feed(v, [27, 91] + Listed(ps, k)) == Reading(v, ps, k)
    decreases k
  {
    if k == 0 {
      Opening(v, [27, 91] + Listed(ps, 0));
      assert Loaded(ps, 0) == NoParams(MAX_PARAMS);
    } else {
      ParametersAreRead(v, ps, k - 1);
      var before := [27, 91] + Listed(ps, k - 1);
      ListedMore(ps, k, [27, 91]);
      if k == 1 {
        FirstRead(v, ps, before);
      } else {
        NextRead(v, ps, k, before);
      }
    }
  }

  /** More digits change a parameter unless it is full, or is zero and they are. */
  lemma {:induction false} TypedSameIff(x: nat, n: nat)
    requires x <= PARAM_TOP
    ensures Typed(x, n) >= x && (Typed(x, n) == x <==> x >= 10000 || (x == 0 && n == 0))
    decreases n
  {
    if n >= 10 {
      TypedSameIff(x, n / 10);
      TypedFits(x, n / 10);
    }
  }

  predicate NoneAfter(ps: seq<nat>, k: nat) {
    MAX_PARAMS <= k <= |ps| && forall j :: MAX_PARAMS <= j < k ==> ps[j] == 0
  }

  lemma {:induction false} LastSameIff(ps: seq<nat>, k: nat)
    requires MAX_PARAMS <= k <= |ps| && ps[15] <= PARAM_TOP
    ensures Last(ps, k) >= ps[15]
    ensures Last(ps, k) == ps[15] <==> k == MAX_PARAMS || ps[15] >= 10000 || (ps[15] == 0 && NoneAfter(ps, k))
    decreases k
  {
    if k > MAX_PARAMS {
      LastSameIff(ps, k - 1);
      LastFits(ps, k - 1);
      TypedSameIff(Last(ps, k - 1), ps[k - 1]);
      assert NoneAfter(ps, k) <==> NoneAfter(ps, k - 1) && ps[k - 1] == 0;
    }
  }

  /** The parameters are the first sixteen numbers, as they were typed, if and only if each of
      those has at most five digits, and there were no more numbers, or the sixteenth has five
      digits, or it and all after it are zero. */
  lemma SixteenRightIff(ps: seq<nat>, k: nat)
    requires MAX_PARAMS <= k <= |ps|
    ensures Loaded(ps, k) == ps[..MAX_PARAMS] <==>
      && (forall i :: 0 <= i < MAX_PARAMS ==> ps[i] <= PARAM_TOP)
      && (k == MAX_PARAMS || ps[15] >= 10000 || (ps[15] == 0 && NoneAfter(ps, k)))
  {
    var r := Loaded(ps, k);
    forall i | 0 <= i < MAX_PARAMS ensures r[i] == ps[i] ==> ps[i] <= PARAM_TOP {
      LoadedFits(ps, k);
    }
    if ps[15] <= PARAM_TOP {
      LastSameIff(ps, k);
    }
    if r == ps[..MAX_PARAMS] {
      assert forall i :: 0 <= i < MAX_PARAMS ==> r[i] == ps[i];
    }
  }

  /** Fewer are right if and only if each has at most five digits. */
  lemma FewRightIff(ps: seq<nat>, k: nat)
    requires k <= |ps| && k <= MAX_PARAMS
    ensures Loaded(ps, k)[..k] == ps[..k] <==> forall i :: 0 <= i < k ==> ps[i] <= PARAM_TOP
  {
    LoadedFits(ps, k);
    var r := Loaded(ps, k);
    if r[..k] == ps[..k] {
      forall i | 0 <= i < k ensures ps[i] <= PARAM_TOP {
        assert r[..k][i] == ps[..k][i];
      }
    }
  }

  lemma FinalActs(v: Vt, ps: seq<nat>, final: nat)
    requires Ok(v) && 64 <= final <= 126
    ensures Ok(Reading(v, ps, |ps|)) && Ok(v.(parser := Parser(Normal, false, Loaded(ps, |ps|), Count(|ps|))))
    ensures Feed(Reading(v, ps, |ps|), [final]) ==
      ApplyCsi(v.(parser := Parser(Normal, false, Loaded(ps, |ps|), Count(|ps|))), final as char)
  {
    LoadedFits(ps, |ps|);
    FeedOne(Reading(v, ps, |ps|), final);
  }

  /** A whole control sequence is its function applied to its numbers, as they are read. */
  lemma SequenceActs(v: Vt, ps: seq<nat>, final: nat)
    requires Ok(v) && v.parser.mode == Normal && 64 <= final <= 126
    ensures Bytes(Sequence(ps, final)) && Ok(v.(parser := Parser(Normal, false, Loaded(ps, |ps|), Count(|ps|))))
    ensures Feed(v, Sequence(ps, final)) ==
      ApplyCsi(v.(parser := Parser(Normal, false, Loaded(ps, |ps|), Count(|ps|))), final as char)
  {
    ParametersAreRead(v, ps, |ps|);
    FinalActs(v, ps, final);
    var w := ApplyCsi(v.(parser := Parser(Normal, false, Loaded(ps, |ps|), Count(|ps|))), final as char);
    Then(v, [27, 91] + Listed(ps, |ps|), Reading(v, ps, |ps|), [final], w);
  }

  /** A number as a position: zero counts as one. */
  function AtLeastOne(n: nat): nat {
    if Kept(n) == 0 then 1 else Kept(n)
  }

  lemma CursorGoes(v: Vt, ps: seq<nat>)
    requires Ok(v) && |ps| == 2 && Ok(v.(parser := Parser(Normal, false, Loaded(ps, 2), 2)))
    ensures var w := ApplyCsi(v.(parser := Parser(Normal, false, Loaded(ps, 2), 2)), 'H');
      && w.cur == Cursor(Clamp(AtLeastOne(ps[1]) - 1, v.g.cols), Clamp(AtLeastOne(ps[0]) - 1, v.g.rows))
      && w.g == v.g && w.pen == v.pen && w.parser.mode == Normal && !w.wrap && w.response == v.response
  {}

  /** Cursor addressing goes where it says, one-based, or to the nearest edge, for any
      numbers; it draws nothing. */
  lemma CursorIsAddressed(v: Vt, row: nat, col: nat)
    requires Ok(v) && v.parser.mode == Normal
    ensures Bytes(Sequence([row, col], 72))
    ensures var w := Feed(v, Sequence([row, col], 72));
      && w.cur == Cursor(Clamp(AtLeastOne(col) - 1, v.g.cols), Clamp(AtLeastOne(row) - 1, v.g.rows))
      && w.g == v.g && w.pen == v.pen && w.parser.mode == Normal && !w.wrap && w.response == v.response
  {
    SequenceActs(v, [row, col], 72);
    CursorGoes(v, [row, col]);
  }

  // ---- the position report ----

  function Value(s: seq<nat>): int {
    if s == [] then 0 else Value(s[..|s| - 1]) * 10 + (s[|s| - 1] as int - 48)
  }

  lemma {:induction false} DigitsValue(n: nat)
    ensures Value(Digits(n)) == n
    decreases n
  {
    if n >= 10 {
      DigitsValue(n / 10);
      assert Digits(n)[..|Digits(n)| - 1] == Digits(n / 10);
    } else {
      assert [48 + n][..0] == [];
    }
  }

  lemma ReplyJoin(r: seq<nat>, s: seq<nat>, t: seq<nat>)
    requires |r| <= RESPONSE_MAX && |r| + |s| + |t| <= RESPONSE_MAX
    ensures Reply(Reply(r, s), t) == Reply(r, s + t) && |Reply(r, s)| == |r| + |s|
  {
    Seqs.Assoc(r, s, t);
  }

  /** With room for it, the answer to a position request is the whole report, whose
      numbers are the cursor's, one-based. */
  lemma ReportIsExact(v: Vt)
    requires Ok(v) && Param(v.parser, 0, 0) == 6 && |v.response| + |Report(v)| <= RESPONSE_MAX
    ensures Asked(v, 'n') == v.response + Report(v)
    ensures Value(Digits(v.cur.y + 1)) == v.cur.y + 1 && Value(Digits(v.cur.x + 1)) == v.cur.x + 1
  {
    DigitsValue(v.cur.y + 1);
    DigitsValue(v.cur.x + 1);
    var r, a, b := v.response, Digits(v.cur.y + 1), Digits(v.cur.x + 1);
    ReplyJoin(r, [27, 91], a);
    ReplyJoin(r, [27, 91] + a, [59]);
    ReplyJoin(r, [27, 91] + a + [59], b);
    ReplyJoin(r, [27, 91] + a + [59] + b, [82]);
  }
}
