/**
 * `extract_transaction`: the ordered, short-circuiting scan that finds the
 * amount of a raw record and fixes its sign from the key, followed by the
 * description and date lookups. Both copies of the pipeline share it; they
 * differ only in the amount parser and the description placeholder they
 * pass in.
 */
module Extraction {
  import opened Wrappers
  import opened Values
  import Text
  import Taxonomy
  import Seqs

  const AmountTerms: seq<string> := ["amount", "amt", "value"]
  const DebitTerms: seq<string> := ["debit", "withdrawal", "dr"]
  const CreditTerms: seq<string> := ["credit", "deposit", "cr"]
  const DescriptionTerms: seq<string> := ["description", "desc", "particulars", "narration", "details"]
  const DateTerms: seq<string> := ["date"]

  /** Which sign rule a key selects: the tests run in this order on the lower-cased key. */
  datatype KeyClass = AmountLike | DebitLike | CreditLike | Unclassified

  function Classify(key: string): KeyClass {
    var k := Text.Lower(key);
    if Text.ContainsAny(k, AmountTerms) then AmountLike
    else if Text.ContainsAny(k, DebitTerms) then DebitLike
    else if Text.ContainsAny(k, CreditTerms) then CreditLike
    else Unclassified
  }

  /** The field stops the amount scan: non-empty key, non-`None` value, a classified key. */
  predicate Decides(f: Field) {
    f.0 != "" && f.1 != VNone && Classify(f.0) != Unclassified
  }

  function Abs(x: real): real {
    if x < 0.0 then -x else x
  }

  /** The amount a deciding field yields: as parsed, `-abs(...)` or `abs(...)`. */
  function Signed(c: KeyClass, x: real): (r: real)
    requires c != Unclassified
    ensures c == AmountLike ==> r == x
    ensures c == DebitLike ==> r <= 0.0 && Abs(r) == Abs(x)
    ensures c == CreditLike ==> r >= 0.0 && Abs(r) == Abs(x)
  {
    match c
    case AmountLike => x
    case DebitLike => -Abs(x)
    case CreditLike => Abs(x)
  }

  /** Index of the first deciding field at or after `from`. */
  function FirstDeciding(row: Record, from: nat): (r: Option<nat>)
    requires from <= |row|
    ensures r.Some? ==> from <= r.value < |row| && Decides(row[r.value])
    ensures r.Some? ==> forall j :: from <= j < r.value ==> !Decides(row[j])
    ensures r.None? ==> forall j :: from <= j < |row| ==> !Decides(row[j])
    decreases |row| - from
  {
    if from == |row| then None
    else if Decides(row[from]) then Some(from)
    else FirstDeciding(row, from + 1)
  }

  /** The amount the scan settles on; 0 when no field decides. */
  function ResolvedAmount(row: Record, parse: Value -> real): real {
    match FirstDeciding(row, 0)
    case None => 0.0
    case Some(i) => Signed(Classify(row[i].0), parse(row[i].1))
  }

  /** `next((str(value) for key, value in row.items() if key and <key matches terms>), default)`. */
  function FirstKeyed(row: Record, terms: seq<string>, default: string): (r: string)
    ensures || (exists i :: 0 <= i < |row| && KeyedBy(row[i], terms) && r == Str(row[i].1)
                            && forall j :: 0 <= j < i ==> !KeyedBy(row[j], terms))
            || ((forall i :: 0 <= i < |row| ==> !KeyedBy(row[i], terms)) && r == default)
    decreases |row|
  {
    if row == [] then default
    else if KeyedBy(row[0], terms) then Str(row[0].1)
    else
      var r := FirstKeyed(row[1..], terms, default);
      assert forall i :: 1 <= i < |row| ==> row[i] == row[1..][i - 1];
      r
  }

  predicate KeyedBy(f: Field, terms: seq<string>) {
    f.0 != "" && Text.ContainsAny(Text.Lower(f.0), terms)
  }

  function DescriptionOf(row: Record, placeholder: string): string {
    FirstKeyed(row, DescriptionTerms, placeholder)
  }

  function DateOf(row: Record): string {
    FirstKeyed(row, DateTerms, "")
  }

  /** The transaction a record yields, or `None` when the resolved amount is 0. */
  function Extract(row: Record, parse: Value -> real, placeholder: string, chart: Taxonomy.Chart): Option<Transaction> {
    var amount := ResolvedAmount(row, parse);
    if amount == 0.0 then None
    else
      var description := DescriptionOf(row, placeholder);
      Some(Transaction(DateOf(row), description, amount,
                       Taxonomy.Categorize(chart, description), KindOf(amount)))
  }

  /** The loop over `row.items()` that sets `amount` and breaks, then the lookups. */
  method ExtractTransaction(row: Record, parse: Value -> real, placeholder: string, chart: Taxonomy.Chart)
    returns (t: Option<Transaction>)
    ensures t == Extract(row, parse, placeholder, chart)
  {
    var amount := 0.0;
    var i := 0;
    while i < |row|
      invariant 0 <= i <= |row|
      invariant FirstDeciding(row, 0) == FirstDeciding(row, i)
    {
      var (key, value) := row[i];
      if key != "" && value != VNone {
        var keyLower := Text.Lower(key);
        if Text.ContainsAny(keyLower, AmountTerms) {
          amount := parse(value);
          break;
        } else if Text.ContainsAny(keyLower, DebitTerms) {
          amount := -Abs(parse(value));
          break;
        } else if Text.ContainsAny(keyLower, CreditTerms) {
          amount := Abs(parse(value));
          break;
        }
      }
      i := i + 1;
    }
    if amount == 0.0 {
      return None;
    }
    var description := DescriptionOf(row, placeholder);
    var date := DateOf(row);
    var category := Taxonomy.Categorize(chart, description);
    t := Some(Transaction(date, description, amount, category, KindOf(amount)));
  }

  /**
   * A record is dropped exactly when its resolved amount is 0 (no deciding
   * field at all included); a kept one has a non-zero amount, is income
   * exactly when the amount is positive, and carries the looked-up
   * description, date and the description's category.
   */
  lemma ExtractSpec(row: Record, parse: Value -> real, placeholder: string, chart: Taxonomy.Chart)
    ensures Extract(row, parse, placeholder, chart).None? <==> ResolvedAmount(row, parse) == 0.0
    ensures FirstDeciding(row, 0).None? ==> Extract(row, parse, placeholder, chart).None?
    ensures match Extract(row, parse, placeholder, chart)
      case None => true
      case Some(t) =>
        && t.amount == ResolvedAmount(row, parse) != 0.0
        && (t.kind == Income <==> t.amount > 0.0)
        && t.description == DescriptionOf(row, placeholder)
        && t.date == DateOf(row)
        && t.category == Taxonomy.Categorize(chart, t.description)
  {
  }

  lemma {:induction false} FirstDecidingPrefix(row: Record, rest: Record, from: nat)
    requires from <= |row| && FirstDeciding(row, from).Some?
    ensures FirstDeciding(row + rest, from) == FirstDeciding(row, from)
    decreases |row| - from
  {
    assert (row + rest)[from] == row[from];
    if !Decides(row[from]) {
      FirstDecidingPrefix(row, rest, from + 1);
    }
  }

  /** Fields after the deciding one never change the amount: the scan short-circuits. */
  lemma LaterFieldsIgnored(row: Record, rest: Record, parse: Value -> real)
    requires FirstDeciding(row, 0).Some?
    ensures ResolvedAmount(row + rest, parse) == ResolvedAmount(row, parse)
  {
    FirstDecidingPrefix(row, rest, 0);
    var i := FirstDeciding(row, 0).value;
    assert (row + rest)[i] == row[i];
  }

  /** A debit-like key can only produce an expense, a credit-like key only income. */
  lemma SignFollowsKey(row: Record, parse: Value -> real, placeholder: string, chart: Taxonomy.Chart)
    requires FirstDeciding(row, 0).Some?
    requires Extract(row, parse, placeholder, chart).Some?
    ensures var c := Classify(row[FirstDeciding(row, 0).value].0);
      && (c == DebitLike ==> Extract(row, parse, placeholder, chart).value.kind == Expense)
      && (c == CreditLike ==> Extract(row, parse, placeholder, chart).value.kind == Income)
  {
  }

  lemma NoTermOccurs(k: string, terms: seq<string>, missing: seq<nat>)
    requires |missing| == |terms|
    requires forall t :: 0 <= t < |terms| ==> missing[t] < |terms[t]| && terms[t][missing[t]] !in k
    ensures !Text.ContainsAny(k, terms)
  {
    forall t | 0 <= t < |terms| ensures !Text.Contains(k, terms[t]) {
      Text.NotContainsMissingChar(k, terms[t], missing[t]);
    }
  }

  /** Classification is plain substring search: "description" contains "cr", so a Description column is credit-like. */
  lemma DescriptionKeyIsCredit()
    ensures Classify("Description") == CreditLike
  {
    var d := Text.Lower("Description");
    assert d == "description";
    NoTermOccurs(d, AmountTerms, [0, 0, 0]);
    DescriptionNotDebit();
    assert Text.ContainsAny(d, CreditTerms) by {
      Text.ContainsAt(d, "cr", 3);
      assert CreditTerms[2] == "cr";
    }
  }

  lemma DescriptionNotDebit()
    ensures !Text.ContainsAny("description", DebitTerms)
  {
    var d := "description";
    forall k | 0 <= k < |d| - 1 && d[k] == 'd' ensures d[k + 1] != 'r' {
      assert k == 0;
    }
    NoDebitTerm(d);
  }

  /** A key without 'b' or 'w', whose every 'd' is followed by something other than 'r', holds no debit term. */
  lemma NoDebitTerm(k: string)
    requires 'b' !in k && 'w' !in k
    requires forall i :: 0 <= i < |k| - 1 && k[i] == 'd' ==> k[i + 1] != 'r'
    ensures !Text.ContainsAny(k, DebitTerms)
  {
    forall t | 0 <= t < |DebitTerms| ensures !Text.Contains(k, DebitTerms[t]) {
      if t == 0 {
        Text.NotContainsMissingChar(k, "debit", 2);
      } else if t == 1 {
        Text.NotContainsMissingChar(k, "withdrawal", 0);
      } else {
        Text.NotContainsPair(k, 'd', 'r');
      }
    }
  }

  /** "value date" contains "value": a Value Date column is amount-like. */
  lemma ValueDateKeyIsAmount()
    ensures Classify("Value Date") == AmountLike
  {
    var v := Text.Lower("Value Date");
    assert v == "value date";
    Text.ContainsAt(v, "value", 0);
    assert AmountTerms[2] == "value";
  }

  /** "debit amount" contains "amount", which is tested first: the sign is kept as parsed. */
  lemma DebitAmountKeyIsAmount()
    ensures Classify("Debit Amount") == AmountLike
  {
    var a := Text.Lower("Debit Amount");
    assert a == "debit amount";
    Text.ContainsAt(a, "amount", 6);
    assert AmountTerms[0] == "amount";
  }

  /**
   * A Description column placed before the amount column decides the scan as
   * credit-like; when its text parses to 0 the whole record is dropped,
   * whatever the later columns hold.
   */
  lemma DescriptionFirstDropsRow(text: string, rest: Record, parse: Value -> real, placeholder: string, chart: Taxonomy.Chart)
    requires parse(VStr(text)) == 0.0
    ensures Extract([("Description", VStr(text))] + rest, parse, placeholder, chart) == None
  {
    DescriptionKeyIsCredit();
    var row := [("Description", VStr(text))] + rest;
    assert row[0] == ("Description", VStr(text));
    assert Decides(row[0]);
  }

  /** The transaction a result contributes to a list: none, or itself. */
  function Kept(t: Option<Transaction>): seq<Transaction> {
    match t
    case None => []
    case Some(x) => [x]
  }

  /** The non-`None` results of `extract_transaction` over rows, in row order. */
  function ExtractAll(rows: seq<Record>, parse: Value -> real, placeholder: string, chart: Taxonomy.Chart): (ts: seq<Transaction>)
    ensures |ts| <= |rows|
  {
    if rows == [] then []
    else Kept(Extract(rows[0], parse, placeholder, chart)) + ExtractAll(rows[1..], parse, placeholder, chart)
  }

  /** Rows are handled one by one: the result over two batches is the concatenation of the results. */
  lemma {:induction false} ExtractAllAppend(a: seq<Record>, b: seq<Record>, parse: Value -> real, placeholder: string, chart: Taxonomy.Chart)
    ensures ExtractAll(a + b, parse, placeholder, chart) == ExtractAll(a, parse, placeholder, chart) + ExtractAll(b, parse, placeholder, chart)
    decreases |a|
  {
    if a == [] {
      assert a + b == b;
    } else {
      ExtractAllAppend(a[1..], b, parse, placeholder, chart);
      var head := Kept(Extract(a[0], parse, placeholder, chart));
      Seqs.AppendFront(a, b);
      Seqs.Assoc(head, ExtractAll(a[1..], parse, placeholder, chart), ExtractAll(b, parse, placeholder, chart));
    }
  }

  /** Every transaction kept is what `extract_transaction` made of one of the rows. */
  lemma {:induction false} ExtractAllFromRows(rows: seq<Record>, parse: Value -> real, placeholder: string, chart: Taxonomy.Chart)
    ensures forall t :: t in ExtractAll(rows, parse, placeholder, chart) ==>
      exists i :: 0 <= i < |rows| && Extract(rows[i], parse, placeholder, chart) == Some(t)
    decreases |rows|
  {
    if rows != [] {
      ExtractAllFromRows(rows[1..], parse, placeholder, chart);
      var head := Kept(Extract(rows[0], parse, placeholder, chart));
      assert ExtractAll(rows, parse, placeholder, chart) == head + ExtractAll(rows[1..], parse, placeholder, chart);
      forall t | t in ExtractAll(rows, parse, placeholder, chart)
        ensures exists i :: 0 <= i < |rows| && Extract(rows[i], parse, placeholder, chart) == Some(t)
      {
        if t in head {
          assert Extract(rows[0], parse, placeholder, chart) == Some(t);
        } else {
          var i :| 0 <= i < |rows[1..]| && Extract(rows[1..][i], parse, placeholder, chart) == Some(t);
          assert rows[1..][i] == rows[i + 1];
        }
      }
    }
  }

  /** Every transaction kept has a non-zero amount and is income exactly when that amount is positive. */
  lemma ExtractAllNonZero(rows: seq<Record>, parse: Value -> real, placeholder: string, chart: Taxonomy.Chart)
    ensures forall t :: t in ExtractAll(rows, parse, placeholder, chart) ==>
      t.amount != 0.0 && (t.kind == Income <==> t.amount > 0.0)
  {
    ExtractAllFromRows(rows, parse, placeholder, chart);
    forall i | 0 <= i < |rows| {
      ExtractSpec(rows[i], parse, placeholder, chart);
    }
  }

  /** When no row is dropped there is one transaction per row. */
  lemma {:induction false} ExtractAllCount(rows: seq<Record>, parse: Value -> real, placeholder: string, chart: Taxonomy.Chart)
    requires forall i :: 0 <= i < |rows| ==> Extract(rows[i], parse, placeholder, chart).Some?
    ensures |ExtractAll(rows, parse, placeholder, chart)| == |rows|
    decreases |rows|
  {
    if rows != [] {
      assert forall i :: 0 <= i < |rows[1..]| ==> rows[1..][i] == rows[i + 1];
      ExtractAllCount(rows[1..], parse, placeholder, chart);
      assert Extract(rows[0], parse, placeholder, chart).Some?;
    }
  }
}
