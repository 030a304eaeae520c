/**
 * The fragment of Python's `re.search` the statement-line patterns use: a
 * sequence of single-character classes, each repeated between a minimum
 * and a maximum number of times, greedily or lazily. Matching backtracks
 * in the order Python's engine does (a greedy repeat tries its longest
 * run first, a lazy one its shortest), and the search tries start
 * positions from left to right.
 */
module Regex {
  import opened Wrappers
  import Text

  /** `\d`, `\s`, `.`, a literal character, and `[\d,]`. */
  datatype CharClass = Digit | Space | NotNewline | Char(c: char) | DigitOrComma

  predicate InClass(cls: CharClass, c: char) {
    match cls
    case Digit => Text.IsDigit(c)
    case Space => Text.IsSpace(c)
    case NotNewline => c != '\n'
    case Char(x) => c == x
    case DigitOrComma => Text.IsDigit(c) || c == ','
  }

  datatype Bound = AtMost(n: nat) | Unbounded

  /** `cls{min,max}`, lazy when written with a trailing `?`. */
  datatype Repeat = Repeat(cls: CharClass, min: nat, max: Bound, lazy: bool)

  type Pattern = seq<Repeat>

  /** One repeat covers `s[b..e]`: a count within its bounds, every character in its class. */
  predicate PieceFits(r: Repeat, s: string, b: int, e: int) {
    && 0 <= b <= e <= |s|
    && r.min <= e - b
    && (r.max.AtMost? ==> e - b <= r.max.n)
    && forall k :: b <= k < e ==> InClass(r.cls, s[k])
  }

  /** The pattern matches `s` from `i`, repeat `j` ending at `ends[j]`. */
  predicate Fits(p: Pattern, s: string, i: int, ends: seq<nat>)
    decreases |p|
  {
    && |ends| == |p|
    && (p != [] ==> PieceFits(p[0], s, i, ends[0]) && Fits(p[1..], s, ends[0], ends[1..]))
  }

  /** Length of the longest run of class characters starting at `i`. */
  function Run(cls: CharClass, s: string, i: nat): (n: nat)
    requires i <= |s|
    ensures i + n <= |s|
    ensures forall k :: i <= k < i + n ==> InClass(cls, s[k])
    ensures i + n == |s| || !InClass(cls, s[i + n])
    decreases |s| - i
  {
    if i < |s| && InClass(cls, s[i]) then 1 + Run(cls, s, i + 1) else 0
  }

  /** The largest count the repeat may take at `i`. */
  function Avail(r: Repeat, s: string, i: nat): (n: nat)
    requires i <= |s|
    ensures i + n <= |s|
  {
    var run := Run(r.cls, s, i);
    match r.max
    case Unbounded => run
    case AtMost(m) => if m < run then m else run
  }

  function Up(lo: nat, hi: nat): (r: seq<nat>)
    ensures forall k :: k in r <==> lo <= k <= hi
    decreases hi + 1 - lo
  {
    if lo > hi then [] else [lo] + Up(lo + 1, hi)
  }

  function Down(hi: nat, lo: nat): (r: seq<nat>)
    ensures forall k :: k in r <==> lo <= k <= hi
    decreases hi + 1 - lo
  {
    if lo > hi then [] else [hi] + (if hi == 0 then [] else Down(hi - 1, lo))
  }

  /** The counts the engine tries, in its order: longest first when greedy, shortest first when lazy. */
  function Counts(r: Repeat, s: string, i: nat): (ks: seq<nat>)
    requires i <= |s|
    ensures forall k :: k in ks <==> r.min <= k <= Avail(r, s, i)
  {
    var a := Avail(r, s, i);
    if r.lazy then Up(r.min, a) else Down(a, r.min)
  }

  /** The first match of `p` at `i` in backtracking order, as the end of each repeat. */
  function MatchAt(p: Pattern, s: string, i: nat): Option<seq<nat>>
    requires i <= |s|
    decreases |p|, 1, 0
  {
    if p == [] then Some([]) else TryCounts(p, s, i, Counts(p[0], s, i))
  }

  function TryCounts(p: Pattern, s: string, i: nat, ks: seq<nat>): Option<seq<nat>>
    requires p != [] && i <= |s|
    requires forall k :: k in ks ==> k <= Avail(p[0], s, i)
    decreases |p|, 0, |ks|
  {
    if ks == [] then None
    else
      assert ks[0] in ks;
      assert forall x :: x in ks[1..] ==> x in ks;
      assert i + ks[0] <= i + Avail(p[0], s, i) <= |s|;
      match MatchAt(p[1..], s, i + ks[0])
      case Some(ends) => Some([i + ks[0]] + ends)
      case None => TryCounts(p, s, i, ks[1..])
  }

  lemma AvailFits(r: Repeat, s: string, i: nat, k: nat)
    requires i <= |s| && r.min <= k <= Avail(r, s, i)
    ensures PieceFits(r, s, i, i + k)
  {
  }

  lemma AvailBounds(r: Repeat, s: string, i: nat, e: nat)
    requires i <= |s| && PieceFits(r, s, i, e)
    ensures e - i <= Avail(r, s, i)
  {
    var run := Run(r.cls, s, i);
    assert i + run == |s| || !InClass(r.cls, s[i + run]);
  }

  /** What the matcher returns is a match. */
  lemma {:induction false} MatchAtSound(p: Pattern, s: string, i: nat)
    requires i <= |s| && MatchAt(p, s, i).Some?
    ensures Fits(p, s, i, MatchAt(p, s, i).value)
    decreases |p|, 1, 0
  {
    if p != [] {
      TryCountsSound(p, s, i, Counts(p[0], s, i));
    }
  }

  lemma {:induction false} TryCountsSound(p: Pattern, s: string, i: nat, ks: seq<nat>)
    requires p != [] && i <= |s|
    requires forall k :: k in ks ==> p[0].min <= k <= Avail(p[0], s, i)
    requires TryCounts(p, s, i, ks).Some?
    ensures Fits(p, s, i, TryCounts(p, s, i, ks).value)
    decreases |p|, 0, |ks|
  {
    assert ks[0] in ks;
    match MatchAt(p[1..], s, i + ks[0])
    case Some(ends) =>
      MatchAtSound(p[1..], s, i + ks[0]);
      AvailFits(p[0], s, i, ks[0]);
      var r := [i + ks[0]] + ends;
      assert r[1..] == ends;
    case None =>
      assert forall k :: k in ks[1..] ==> k in ks;
      TryCountsSound(p, s, i, ks[1..]);
  }

  /** Backtracking is exhaustive: whenever a match exists at `i`, the matcher finds one. */
  lemma {:induction false} MatchAtComplete(p: Pattern, s: string, i: nat, ends: seq<nat>)
    requires i <= |s| && Fits(p, s, i, ends)
    ensures MatchAt(p, s, i).Some?
    decreases |p|, 1
  {
    if p != [] {
      AvailBounds(p[0], s, i, ends[0]);
      var k: nat := ends[0] - i;
      assert k in Counts(p[0], s, i);
      TryCountsComplete(p, s, i, Counts(p[0], s, i), k, ends);
    }
  }

  lemma {:induction false} TryCountsComplete(p: Pattern, s: string, i: nat, ks: seq<nat>, k: nat, ends: seq<nat>)
    requires p != [] && i <= |s|
    requires forall x :: x in ks ==> x <= Avail(p[0], s, i)
    requires k in ks && |ends| == |p| && ends[0] == i + k && Fits(p[1..], s, i + k, ends[1..])
    ensures TryCounts(p, s, i, ks).Some?
    decreases |p|, 0, |ks|
  {
    assert ks[0] in ks;
    if ks[0] == k {
      MatchAtComplete(p[1..], s, i + k, ends[1..]);
    } else if MatchAt(p[1..], s, i + ks[0]).None? {
      assert k in ks[1..];
      assert forall x :: x in ks[1..] ==> x in ks;
      TryCountsComplete(p, s, i, ks[1..], k, ends);
    }
  }

  /** `re.search`: the first start position, from `from` on, at which the pattern matches. */
  function SearchFrom(p: Pattern, s: string, from: nat): (r: Option<(nat, seq<nat>)>)
    requires from <= |s|
    ensures r.Some? ==> from <= r.value.0 <= |s| && Fits(p, s, r.value.0, r.value.1)
    decreases |s| - from
  {
    match MatchAt(p, s, from)
    case Some(ends) =>
      MatchAtSound(p, s, from);
      Some((from, ends))
    case None => if from == |s| then None else SearchFrom(p, s, from + 1)
  }

  function Search(p: Pattern, s: string): (r: Option<(nat, seq<nat>)>)
    ensures r.Some? ==> r.value.0 <= |s| && Fits(p, s, r.value.0, r.value.1)
  {
    SearchFrom(p, s, 0)
  }

  /** The pattern matches somewhere in `s`. */
  ghost predicate Matches(p: Pattern, s: string) {
    exists i: nat, ends :: i <= |s| && Fits(p, s, i, ends)
  }

  lemma {:induction false} SearchFromLeftmost(p: Pattern, s: string, from: nat)
    requires from <= |s|
    ensures SearchFrom(p, s, from).None? ==> forall i: nat, ends :: from <= i <= |s| ==> !Fits(p, s, i, ends)
    ensures SearchFrom(p, s, from).Some? ==>
      forall i: nat, ends :: from <= i < SearchFrom(p, s, from).value.0 ==> !Fits(p, s, i, ends)
    decreases |s| - from
  {
    if MatchAt(p, s, from).Some? {
      SearchHere(p, s, from);
    } else {
      NoFitAt(p, s, from);
      if from < |s| {
        SearchFromLeftmost(p, s, from + 1);
        SearchSkip(p, s, from);
      } else {
        SearchEnd(p, s, from);
      }
    }
  }

  /** Where the matcher fails, nothing matches. */
  lemma NoFitAt(p: Pattern, s: string, i: nat)
    requires i <= |s| && MatchAt(p, s, i).None?
    ensures forall ends :: !Fits(p, s, i, ends)
  {
    forall ends | Fits(p, s, i, ends) ensures MatchAt(p, s, i).Some? {
      MatchAtComplete(p, s, i, ends);
    }
  }

  lemma SearchHere(p: Pattern, s: string, from: nat)
    requires from <= |s| && MatchAt(p, s, from).Some?
    ensures SearchFrom(p, s, from) == Some((from, MatchAt(p, s, from).value))
  {
  }

  lemma SearchSkip(p: Pattern, s: string, from: nat)
    requires from < |s| && MatchAt(p, s, from).None?
    ensures SearchFrom(p, s, from) == SearchFrom(p, s, from + 1)
  {
  }

  lemma SearchEnd(p: Pattern, s: string, from: nat)
    requires from == |s| && MatchAt(p, s, from).None?
    ensures SearchFrom(p, s, from) == None
  {
  }

  /**
   * `re.search` finds a match exactly when one exists, and the one it finds
   * starts at the leftmost position where the pattern matches.
   */
  lemma SearchSpec(p: Pattern, s: string)
    ensures Search(p, s).Some? <==> Matches(p, s)
    ensures Search(p, s).Some? ==>
      forall i: nat, ends :: i < Search(p, s).value.0 ==> !Fits(p, s, i, ends)
  {
    SearchFromLeftmost(p, s, 0);
  }

  /** Where repeat `j` of a match starting at `i` begins. */
  function Begin(i: nat, ends: seq<nat>, j: nat): nat
    requires j <= |ends|
  {
    if j == 0 then i else ends[j - 1]
  }

  /** Each repeat of a match covers its own stretch of the text. */
  lemma {:induction false} FitsPiece(p: Pattern, s: string, i: nat, ends: seq<nat>, j: nat)
    requires Fits(p, s, i, ends) && j < |p|
    ensures PieceFits(p[j], s, Begin(i, ends, j), ends[j])
    ensures i <= Begin(i, ends, j)
    decreases j
  {
    if j > 0 {
      FitsPiece(p[1..], s, ends[0], ends[1..], j - 1);
      assert p[1..][j - 1] == p[j];
      if j > 1 {
        assert Begin(ends[0], ends[1..], j - 1) == ends[j - 1];
      }
    }
  }

  /** The text a group spanning repeats `lo` to `hi - 1` captures. */
  function Capture(p: Pattern, s: string, i: nat, ends: seq<nat>, lo: nat, hi: nat): string
    requires Fits(p, s, i, ends) && lo < hi <= |p|
  {
    FitsOrdered(p, s, i, ends, lo, hi - 1);
    FitsPiece(p, s, i, ends, hi - 1);
    s[Begin(i, ends, lo)..ends[hi - 1]]
  }

  lemma {:induction false} FitsOrdered(p: Pattern, s: string, i: nat, ends: seq<nat>, lo: nat, hi: nat)
    requires Fits(p, s, i, ends) && lo <= hi < |p|
    ensures Begin(i, ends, lo) <= Begin(i, ends, hi) <= ends[hi] <= |s|
    decreases hi - lo
  {
    FitsPiece(p, s, i, ends, hi);
    if lo < hi {
      FitsOrdered(p, s, i, ends, lo, hi - 1);
      FitsPiece(p, s, i, ends, hi - 1);
    }
  }

  /** A capture is the concatenation of the stretches its repeats cover. */
  lemma CaptureSplit(p: Pattern, s: string, i: nat, ends: seq<nat>, lo: nat, hi: nat)
    requires Fits(p, s, i, ends) && lo + 1 < hi <= |p|
    ensures Capture(p, s, i, ends, lo, hi) == Capture(p, s, i, ends, lo, lo + 1) + Capture(p, s, i, ends, lo + 1, hi)
  {
    FitsOrdered(p, s, i, ends, lo, hi - 1);
    FitsOrdered(p, s, i, ends, lo + 1, hi - 1);
    FitsPiece(p, s, i, ends, lo);
    FitsPiece(p, s, i, ends, hi - 1);
  }

  /** A one-repeat capture is the stretch that repeat covers. */
  lemma CaptureOne(p: Pattern, s: string, i: nat, ends: seq<nat>, j: nat)
    requires Fits(p, s, i, ends) && j < |p|
    ensures var c := Capture(p, s, i, ends, j, j + 1);
      && p[j].min <= |c|
      && (p[j].max.AtMost? ==> |c| <= p[j].max.n)
      && forall k :: 0 <= k < |c| ==> InClass(p[j].cls, c[k])
  {
    FitsPiece(p, s, i, ends, j);
  }
}
