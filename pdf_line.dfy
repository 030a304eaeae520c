/**
 * `parse_pdf_line`: the two statement-line patterns, tried in order, and
 * the transaction built from the first one that matches.
 *
 *   A: `(\d{1,2}/\d{1,2}/\d{2,4})\s+(.*?)\s+([\d,]+\.\d{2})\s+([\d,]+\.\d{2})`
 *   B: `(\d{1,2}-\d{1,2}-\d{2,4})\s+(.*?)\s+(-?[\d,]+\.\d{2})`
 *
 * Each pattern is a sequence of repeats; a group is the run of repeats it
 * spans: the date is repeats 0-4, the description repeat 6, and the amount
 * repeats 8-10 in A (repeats 11-14, the balance, are matched but unused)
 * and 8-11 in B.
 */
module PdfLine {
  import opened Wrappers
  import opened Values
  import opened Regex
  import Text
  import Decimal
  import Taxonomy

  /** `\d{1,2}<sep>\d{1,2}<sep>\d{2,4}` */
  function DatePart(sep: char): Pattern {
    [ Repeat(Digit, 1, AtMost(2), false), Repeat(Char(sep), 1, AtMost(1), false),
      Repeat(Digit, 1, AtMost(2), false), Repeat(Char(sep), 1, AtMost(1), false),
      Repeat(Digit, 2, AtMost(4), false) ]
  }

  /** `\s+` */
  const Gap := Repeat(Space, 1, Unbounded, false)

  /** `.*?` */
  const Anything := Repeat(NotNewline, 0, Unbounded, true)

  /** `[\d,]+`, `\.` and `\d{2}`: the three repeats of a money token. */
  const Figures := Repeat(DigitOrComma, 1, Unbounded, false)
  const Point := Repeat(Char('.'), 1, AtMost(1), false)
  const Cents := Repeat(Digit, 2, AtMost(2), false)

  /** `[\d,]+\.\d{2}` */
  function Money(): Pattern {
    [Figures, Point, Cents]
  }

  /** `-?` */
  const Minus := Repeat(Char('-'), 0, AtMost(1), false)

  /** A line pattern and the repeats `[amountFrom, amountTo)` its amount group spans. */
  datatype LinePattern = LinePattern(items: Pattern, amountFrom: nat, amountTo: nat)

  predicate WellFormed(lp: LinePattern) {
    7 <= lp.amountFrom < lp.amountTo <= |lp.items|
  }

  function PatternA(): LinePattern {
    LinePattern(DatePart('/') + [Gap, Anything, Gap] + Money() + [Gap] + Money(), 8, 11)
  }

  function PatternB(): LinePattern {
    LinePattern(DatePart('-') + [Gap, Anything, Gap, Minus] + Money(), 8, 12)
  }

  /** The patterns in the order `parse_pdf_line` tries them. */
  function Patterns(): (ps: seq<LinePattern>)
    ensures forall k :: 0 <= k < |ps| ==> WellFormed(ps[k])
  {
    [PatternA(), PatternB()]
  }

  /** Group 3 with its commas removed: the text handed to `float`. */
  function AmountText(lp: LinePattern, line: string, start: nat, ends: seq<nat>): string
    requires WellFormed(lp) && Fits(lp.items, line, start, ends)
  {
    Text.RemoveAll(Capture(lp.items, line, start, ends, lp.amountFrom, lp.amountTo), ",")
  }

  /** The transaction built from a match; `None` where `float` raises `ValueError`. */
  function FromMatch(lp: LinePattern, line: string, start: nat, ends: seq<nat>): Option<Transaction>
    requires WellFormed(lp) && Fits(lp.items, line, start, ends)
  {
    var date := Capture(lp.items, line, start, ends, 0, 5);
    var description := Text.Strip(Capture(lp.items, line, start, ends, 6, 7));
    match Decimal.ParseDecimal(AmountText(lp, line, start, ends))
    case None => None
    case Some(amount) =>
      Some(Transaction(date, description, amount,
                       Taxonomy.Categorize(Taxonomy.ChartOfAccounts(), description), KindOf(amount)))
  }

  /** Try each pattern in turn; the first that matches and converts decides. */
  function ParseWith(patterns: seq<LinePattern>, line: string): Option<Transaction>
    requires forall k :: 0 <= k < |patterns| ==> WellFormed(patterns[k])
  {
    if patterns == [] then None
    else
      var rest := ParseWith(patterns[1..], line);
      match Search(patterns[0].items, line)
      case None => rest
      case Some(m) =>
        match FromMatch(patterns[0], line, m.0, m.1)
        case Some(t) => Some(t)
        case None => rest
  }

  function ParseLine(line: string): Option<Transaction> {
    ParseWith(Patterns(), line)
  }

  /**
   * A `[\d,]+\.\d{2}` match at repeat `j`, commas removed, is digits, a
   * point and exactly two digits.
   */
  lemma MoneyText(p: Pattern, line: string, start: nat, ends: seq<nat>, j: nat)
    returns (whole: string, frac: string)
    requires Fits(p, line, start, ends) && j + 3 <= |p|
    requires p[j] == Figures && p[j + 1] == Point && p[j + 2] == Cents
    ensures Decimal.AllDigits(whole) && Decimal.AllDigits(frac) && |frac| == 2
    ensures Text.RemoveAll(Capture(p, line, start, ends, j, j + 3), ",") == whole + "." + frac
  {
    var c0 := Capture(p, line, start, ends, j, j + 1);
    var c1 := Capture(p, line, start, ends, j + 1, j + 2);
    var c2 := Capture(p, line, start, ends, j + 2, j + 3);
    CaptureSplit(p, line, start, ends, j, j + 3);
    CaptureSplit(p, line, start, ends, j + 1, j + 3);
    CaptureOne(p, line, start, ends, j);
    CaptureOne(p, line, start, ends, j + 1);
    CaptureOne(p, line, start, ends, j + 2);
    assert c1 == "." by { assert |c1| == 1 && c1[0] == '.'; }
    whole, frac := MoneyPieces(c0, c1, c2);
  }

  /** Figures, a point and two digits, commas removed: digits, '.', two digits. */
  lemma MoneyPieces(c0: string, c1: string, c2: string) returns (whole: string, frac: string)
    requires forall k :: 0 <= k < |c0| ==> Text.IsDigit(c0[k]) || c0[k] == ','
    requires c1 == "."
    requires |c2| == 2 && Decimal.AllDigits(c2)
    ensures Decimal.AllDigits(whole) && Decimal.AllDigits(frac) && |frac| == 2
    ensures Text.RemoveAll(c0 + (c1 + c2), ",") == whole + "." + frac
  {
    Text.RemoveCharConcat(c0, c1 + c2, ',');
    Text.RemoveCharConcat(c1, c2, ',');
    whole := Text.RemoveAll(c0, ",");
    Text.RemoveCharSpec(c0, ',');
    forall k | 0 <= k < |whole| ensures Text.IsDigit(whole[k]) {
      var x := whole[k];
      assert x in multiset(whole);
      assert x in multiset(c0);
    }
    Text.RemoveCharSpec(c1, ',');
    Text.RemoveCharSpec(c2, ',');
    frac := c2;
  }

  /** Digits, '.', digits: `float` accepts it and gives a non-negative number. */
  lemma PointNumber(whole: string, frac: string)
    requires Decimal.AllDigits(whole) && Decimal.AllDigits(frac) && |frac| == 2
    ensures Decimal.ParseDecimal(whole + "." + frac) == Decimal.ParseUnsigned(whole + "." + frac)
    ensures Decimal.ParseUnsigned(whole + "." + frac).Some?
    ensures Decimal.ParseUnsigned(whole + "." + frac).value >= 0.0
  {
    Decimal.PointNumberParses(whole, frac);
    var s := whole + "." + frac;
    if whole != [] {
      assert s[0] == whole[0];
    } else {
      assert s[0] == '.';
    }
  }

  /** A money token as the amount group converts, to a number that is never negative. */
  lemma AmountUnsigned(lp: LinePattern, line: string, start: nat, ends: seq<nat>)
    requires WellFormed(lp) && Fits(lp.items, line, start, ends) && lp.amountTo == lp.amountFrom + 3
    requires lp.items[lp.amountFrom] == Figures && lp.items[lp.amountFrom + 1] == Point
    requires lp.items[lp.amountFrom + 2] == Cents
    ensures Decimal.ParseDecimal(AmountText(lp, line, start, ends)).Some?
    ensures Decimal.ParseDecimal(AmountText(lp, line, start, ends)).value >= 0.0
  {
    var whole, frac := MoneyText(lp.items, line, start, ends, lp.amountFrom);
    PointNumber(whole, frac);
  }

  /** An optional '-' and a money token as the amount group converts; the '-' negates. */
  lemma AmountSigned(lp: LinePattern, line: string, start: nat, ends: seq<nat>)
    requires WellFormed(lp) && Fits(lp.items, line, start, ends) && lp.amountTo == lp.amountFrom + 4
    requires lp.items[lp.amountFrom] == Minus && lp.items[lp.amountFrom + 1] == Figures
    requires lp.items[lp.amountFrom + 2] == Point && lp.items[lp.amountFrom + 3] == Cents
    ensures Decimal.ParseDecimal(AmountText(lp, line, start, ends)).Some?
  {
    var p, j := lp.items, lp.amountFrom;
    var whole, frac := MoneyText(p, line, start, ends, j + 1);
    PointNumber(whole, frac);
    var sign := Capture(p, line, start, ends, j, j + 1);
    CaptureSplit(p, line, start, ends, j, j + 4);
    CaptureOne(p, line, start, ends, j);
    Text.RemoveCharConcat(sign, Capture(p, line, start, ends, j + 1, j + 4), ',');
    Text.RemoveCharSpec(sign, ',');
    var s := whole + "." + frac;
    if sign == [] {
      assert AmountText(lp, line, start, ends) == s;
    } else {
      assert sign == "-" by { assert |sign| == 1 && sign[0] == '-'; }
      var t := AmountText(lp, line, start, ends);
      assert t == "-" + s;
      assert t[1..] == s;
    }
  }

  lemma PatternAShape()
    ensures WellFormed(PatternA()) && PatternA().amountTo == PatternA().amountFrom + 3
    ensures PatternA().items[8] == Figures && PatternA().items[9] == Point && PatternA().items[10] == Cents
  {
  }

  lemma PatternBShape()
    ensures WellFormed(PatternB()) && PatternB().amountTo == PatternB().amountFrom + 4
    ensures PatternB().items[8] == Minus && PatternB().items[9] == Figures
    ensures PatternB().items[10] == Point && PatternB().items[11] == Cents
  {
  }

  /** Pattern A's amount group always converts, to a number that is never negative. */
  lemma AmountA(line: string, start: nat, ends: seq<nat>)
    requires Fits(PatternA().items, line, start, ends)
    ensures Decimal.ParseDecimal(AmountText(PatternA(), line, start, ends)).Some?
    ensures Decimal.ParseDecimal(AmountText(PatternA(), line, start, ends)).value >= 0.0
  {
    PatternAShape();
    AmountUnsigned(PatternA(), line, start, ends);
  }

  /** Pattern B's amount group always converts. */
  lemma AmountB(line: string, start: nat, ends: seq<nat>)
    requires Fits(PatternB().items, line, start, ends)
    ensures Decimal.ParseDecimal(AmountText(PatternB(), line, start, ends)).Some?
  {
    PatternBShape();
    AmountSigned(PatternB(), line, start, ends);
  }

  /** Every match of either pattern yields a transaction: the `except ValueError` branch is dead. */
  lemma FromMatchTotal(k: nat, line: string, start: nat, ends: seq<nat>)
    requires k < |Patterns()| && Fits(Patterns()[k].items, line, start, ends)
    ensures FromMatch(Patterns()[k], line, start, ends).Some?
  {
    if k == 0 {
      AmountA(line, start, ends);
    } else {
      AmountB(line, start, ends);
    }
  }

  /** Two patterns tried in order: the first one that matches decides, provided its matches always convert. */
  lemma ParseTwo(a: LinePattern, b: LinePattern, line: string)
    requires WellFormed(a) && WellFormed(b)
    ensures Search(a.items, line).Some? ==>
      var m := Search(a.items, line).value;
      ParseWith([a, b], line) == (if FromMatch(a, line, m.0, m.1).Some? then FromMatch(a, line, m.0, m.1) else ParseWith([b], line))
    ensures Search(a.items, line).None? ==> ParseWith([a, b], line) == ParseWith([b], line)
    ensures Search(b.items, line).Some? ==>
      var m := Search(b.items, line).value;
      ParseWith([b], line) == FromMatch(b, line, m.0, m.1)
    ensures Search(b.items, line).None? ==> ParseWith([b], line) == None
  {
    assert [a, b][1..] == [b];
    assert [b][1..] == [];
  }

  /**
   * `parse_pdf_line` yields a transaction exactly when one of the patterns
   * matches somewhere in the line: no match is rejected, a zero amount
   * included.
   */
  lemma ParseLineMatches(line: string)
    ensures ParseLine(line).Some? <==> Matches(PatternA().items, line) || Matches(PatternB().items, line)
  {
    SearchSpec(PatternA().items, line);
    SearchSpec(PatternB().items, line);
    ParseTwo(PatternA(), PatternB(), line);
    match Search(PatternA().items, line)
    case Some(m) =>
      AmountA(line, m.0, m.1);
    case None =>
      match Search(PatternB().items, line)
      case Some(m) =>
        AmountB(line, m.0, m.1);
      case None =>
  }

  /** A match yields a transaction exactly when its amount text converts, and carries that amount. */
  lemma FromMatchAmount(lp: LinePattern, line: string, start: nat, ends: seq<nat>)
    requires WellFormed(lp) && Fits(lp.items, line, start, ends)
    ensures FromMatch(lp, line, start, ends).Some? <==> Decimal.ParseDecimal(AmountText(lp, line, start, ends)).Some?
    ensures FromMatch(lp, line, start, ends).Some? ==>
      FromMatch(lp, line, start, ends).value.amount == Decimal.ParseDecimal(AmountText(lp, line, start, ends)).value
  {
  }

  /** When the first pattern matches and its amount converts, it decides, with that amount. */
  lemma FirstDecides(a: LinePattern, b: LinePattern, line: string)
    requires WellFormed(a) && WellFormed(b) && Search(a.items, line).Some?
    requires var m := Search(a.items, line).value;
      Decimal.ParseDecimal(AmountText(a, line, m.0, m.1)).Some?
    ensures var m := Search(a.items, line).value;
      && ParseWith([a, b], line) == FromMatch(a, line, m.0, m.1)
      && ParseWith([a, b], line).Some?
      && ParseWith([a, b], line).value.amount == Decimal.ParseDecimal(AmountText(a, line, m.0, m.1)).value
  {
    ParseTwo(a, b, line);
  }

  /** When the first pattern matches nowhere and the second does, the second decides. */
  lemma SecondDecides(a: LinePattern, b: LinePattern, line: string)
    requires WellFormed(a) && WellFormed(b)
    requires Search(a.items, line).None? && Search(b.items, line).Some?
    ensures var m := Search(b.items, line).value;
      ParseWith([a, b], line) == FromMatch(b, line, m.0, m.1)
  {
    ParseTwo(a, b, line);
  }

  /** The slash-date pattern takes precedence, and what it yields is never negative. */
  lemma ParseLinePrefersA(line: string)
    requires Search(PatternA().items, line).Some?
    ensures var m := Search(PatternA().items, line).value;
      && ParseLine(line) == FromMatch(PatternA(), line, m.0, m.1)
      && ParseLine(line).Some? && ParseLine(line).value.amount >= 0.0
  {
    var m := Search(PatternA().items, line).value;
    PatternAShape();
    PatternBShape();
    AmountA(line, m.0, m.1);
    FirstDecides(PatternA(), PatternB(), line);
  }

  /** Only when the slash-date pattern matches nowhere does the dash-date one decide. */
  lemma ParseLineFallsBack(line: string)
    requires Search(PatternA().items, line).None? && Search(PatternB().items, line).Some?
    ensures var m := Search(PatternB().items, line).value;
      ParseLine(line) == FromMatch(PatternB(), line, m.0, m.1)
  {
    PatternAShape();
    PatternBShape();
    SecondDecides(PatternA(), PatternB(), line);
  }

  /** A parsed line is income exactly when its amount is positive, and carries its description's category. */
  lemma {:induction false} ParseWithFields(patterns: seq<LinePattern>, line: string)
    requires forall k :: 0 <= k < |patterns| ==> WellFormed(patterns[k])
    ensures ParseWith(patterns, line).Some? ==>
      var t := ParseWith(patterns, line).value;
      && (t.kind == Income <==> t.amount > 0.0)
      && t.category == Taxonomy.Categorize(Taxonomy.ChartOfAccounts(), t.description)
  {
    if patterns != [] {
      ParseWithFields(patterns[1..], line);
    }
  }
}
