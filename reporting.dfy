/**
 * `generate_reports`: the fold that accumulates the income and expense
 * breakdowns, and the three statements derived from their totals by fixed
 * ratios.
 */
module Reporting {
  import opened Values
  import Seqs

  /**
   * A Python dict from category to amount. Python dicts keep insertion
   * order, and the breakdown is emitted in that order, so it is an
   * association list whose keys are unique.
   */
  type Dict = seq<(string, real)>

  predicate UniqueKeys(d: Dict) {
    forall i, j :: 0 <= i < j < |d| ==> d[i].0 != d[j].0
  }

  function Keys(d: Dict): set<string> {
    set i | 0 <= i < |d| :: d[i].0
  }

  /** `d.get(k, default)`. */
  function Get(d: Dict, k: string, default: real): real {
    if d == [] then default else if d[0].0 == k then d[0].1 else Get(d[1..], k, default)
  }

  /** `d[k] = v`: overwrite in place when present, append otherwise. */
  function Put(d: Dict, k: string, v: real): Dict {
    if d == [] then [(k, v)]
    else if d[0].0 == k then [(k, v)] + d[1..]
    else [d[0]] + Put(d[1..], k, v)
  }

  /** `sum(d.values())`. */
  function Sum(d: Dict): real {
    if d == [] then 0.0 else d[0].1 + Sum(d[1..])
  }

  lemma KeysCons(x: (string, real), d: Dict)
    ensures Keys([x] + d) == {x.0} + Keys(d)
  {
    var c := [x] + d;
    forall y | y in Keys(c) ensures y in {x.0} + Keys(d) {
      var i :| 0 <= i < |c| && c[i].0 == y;
      if i > 0 { assert d[i - 1] == c[i]; }
    }
    forall y | y in Keys(d) ensures y in Keys(c) {
      var i :| 0 <= i < |d| && d[i].0 == y;
      assert c[i + 1] == d[i];
    }
    assert c[0].0 == x.0;
  }

  /** `[x] + d` has unique keys exactly when `d` does and lacks `x`'s key. */
  lemma UniqueCons(x: (string, real), d: Dict)
    ensures UniqueKeys([x] + d) <==> UniqueKeys(d) && x.0 !in Keys(d)
  {
    var c := [x] + d;
    if UniqueKeys(c) {
      forall i, j | 0 <= i < j < |d| ensures d[i].0 != d[j].0 {
        assert c[i + 1] == d[i] && c[j + 1] == d[j];
      }
      forall i | 0 <= i < |d| ensures d[i].0 != x.0 {
        assert c[i + 1] == d[i] && c[0] == x;
        assert 0 < i + 1 < |c|;
        assert c[0].0 != c[i + 1].0;
      }
    }
    if UniqueKeys(d) && x.0 !in Keys(d) {
      forall i, j | 0 <= i < j < |c| ensures c[i].0 != c[j].0 {
        assert c[j] == d[j - 1];
        if i > 0 { assert c[i] == d[i - 1]; }
      }
    }
  }

  /** Writing one key keeps the keys unique and adds that key. */
  lemma {:induction false} PutKeys(d: Dict, k: string, v: real)
    requires UniqueKeys(d)
    ensures UniqueKeys(Put(d, k, v))
    ensures Keys(Put(d, k, v)) == Keys(d) + {k}
    decreases |d|
  {
    if d == [] {
      KeysCons((k, v), []);
    } else {
      var tail := d[1..];
      assert d == [d[0]] + tail;
      UniqueCons(d[0], tail);
      KeysCons(d[0], tail);
      if d[0].0 == k {
        UniqueCons((k, v), tail);
        KeysCons((k, v), tail);
      } else {
        PutKeys(tail, k, v);
        UniqueCons(d[0], Put(tail, k, v));
        KeysCons(d[0], Put(tail, k, v));
      }
    }
  }

  /** Writing one key changes that key's value only, and moves the total by the difference. */
  lemma {:induction false} PutValues(d: Dict, k: string, v: real)
    requires UniqueKeys(d)
    ensures Get(Put(d, k, v), k, 0.0) == v
    ensures forall other :: other != k ==> Get(Put(d, k, v), other, 0.0) == Get(d, other, 0.0)
    ensures Sum(Put(d, k, v)) == Sum(d) - Get(d, k, 0.0) + v
    decreases |d|
  {
    if d != [] {
      var tail := d[1..];
      assert d == [d[0]] + tail;
      UniqueCons(d[0], tail);
      if d[0].0 == k {
        GetAbsent(tail, k);
        assert Put(d, k, v)[1..] == tail;
      } else {
        PutValues(tail, k, v);
      }
    }
  }

  lemma {:induction false} GetAbsent(d: Dict, k: string)
    requires k !in Keys(d)
    ensures Get(d, k, 0.0) == 0.0
    decreases |d|
  {
    if d != [] {
      assert d[0].0 in Keys(d);
      assert Keys(d[1..]) <= Keys(d) by {
        forall x | x in Keys(d[1..]) ensures x in Keys(d) {
          var i :| 0 <= i < |d[1..]| && d[1..][i].0 == x;
          assert d[i + 1] == d[1..][i];
        }
      }
      GetAbsent(d[1..], k);
    }
  }

  function Abs(x: real): real {
    if x < 0.0 then -x else x
  }

  /** `income_breakdown` after the loop has seen `ts`. */
  function IncomeBreakdown(ts: seq<Transaction>): Dict
    decreases |ts|
  {
    if ts == [] then []
    else
      var d := IncomeBreakdown(ts[..|ts| - 1]);
      var t := ts[|ts| - 1];
      if t.amount > 0.0 then Put(d, t.category, Get(d, t.category, 0.0) + t.amount) else d
  }

  /** `expense_breakdown` after the loop has seen `ts`. */
  function ExpenseBreakdown(ts: seq<Transaction>): Dict
    decreases |ts|
  {
    if ts == [] then []
    else
      var d := ExpenseBreakdown(ts[..|ts| - 1]);
      var t := ts[|ts| - 1];
      if t.amount > 0.0 then d else Put(d, t.category, Get(d, t.category, 0.0) + Abs(t.amount))
  }

  /** Sum of the strictly positive amounts. */
  function IncomeTotal(ts: seq<Transaction>): real
    decreases |ts|
  {
    if ts == [] then 0.0
    else IncomeTotal(ts[..|ts| - 1]) + (if ts[|ts| - 1].amount > 0.0 then ts[|ts| - 1].amount else 0.0)
  }

  /** Sum of `|amount|` over the amounts that are not positive. */
  function ExpenseTotal(ts: seq<Transaction>): real
    decreases |ts|
  {
    if ts == [] then 0.0
    else ExpenseTotal(ts[..|ts| - 1]) + (if ts[|ts| - 1].amount > 0.0 then 0.0 else -ts[|ts| - 1].amount)
  }

  /** Sum of all amounts. */
  function AmountTotal(ts: seq<Transaction>): real
    decreases |ts|
  {
    if ts == [] then 0.0 else AmountTotal(ts[..|ts| - 1]) + ts[|ts| - 1].amount
  }

  /** Sum of the positive amounts of one category. */
  function CategoryIncome(ts: seq<Transaction>, c: string): real
    decreases |ts|
  {
    if ts == [] then 0.0
    else
      var t := ts[|ts| - 1];
      CategoryIncome(ts[..|ts| - 1], c) + (if t.amount > 0.0 && t.category == c then t.amount else 0.0)
  }

  /** Sum of `|amount|` over the non-positive amounts of one category. */
  function CategoryExpense(ts: seq<Transaction>, c: string): real
    decreases |ts|
  {
    if ts == [] then 0.0
    else
      var t := ts[|ts| - 1];
      CategoryExpense(ts[..|ts| - 1], c) + (if t.amount <= 0.0 && t.category == c then -t.amount else 0.0)
  }

  /**
   * The income breakdown holds, per category, the sum of that category's
   * positive amounts, and its values add up to the total income.
   */
  lemma {:induction false} IncomeBreakdownSpec(ts: seq<Transaction>)
    ensures UniqueKeys(IncomeBreakdown(ts))
    ensures forall c :: Get(IncomeBreakdown(ts), c, 0.0) == CategoryIncome(ts, c)
    ensures Sum(IncomeBreakdown(ts)) == IncomeTotal(ts)
    decreases |ts|
  {
    if ts != [] {
      var init := ts[..|ts| - 1];
      IncomeBreakdownSpec(init);
      var d := IncomeBreakdown(init);
      var t := ts[|ts| - 1];
      if t.amount > 0.0 {
        var v := Get(d, t.category, 0.0) + t.amount;
        assert IncomeBreakdown(ts) == Put(d, t.category, v);
        PutValues(d, t.category, v);
        PutKeys(d, t.category, v);
        forall c ensures Get(IncomeBreakdown(ts), c, 0.0) == CategoryIncome(ts, c) {
          assert CategoryIncome(ts, c) == CategoryIncome(init, c) + (if t.category == c then t.amount else 0.0);
        }
        assert IncomeTotal(ts) == IncomeTotal(init) + t.amount;
      } else {
        assert IncomeBreakdown(ts) == d;
        forall c ensures Get(IncomeBreakdown(ts), c, 0.0) == CategoryIncome(ts, c) {
          assert CategoryIncome(ts, c) == CategoryIncome(init, c);
        }
        assert IncomeTotal(ts) == IncomeTotal(init);
      }
    }
  }

  /** The same for the expense breakdown, summing absolute values of the non-positive amounts. */
  lemma {:induction false} ExpenseBreakdownSpec(ts: seq<Transaction>)
    ensures UniqueKeys(ExpenseBreakdown(ts))
    ensures forall c :: Get(ExpenseBreakdown(ts), c, 0.0) == CategoryExpense(ts, c)
    ensures Sum(ExpenseBreakdown(ts)) == ExpenseTotal(ts)
    decreases |ts|
  {
    if ts != [] {
      var init := ts[..|ts| - 1];
      ExpenseBreakdownSpec(init);
      var d := ExpenseBreakdown(init);
      var t := ts[|ts| - 1];
      if t.amount <= 0.0 {
        var v := Get(d, t.category, 0.0) + Abs(t.amount);
        assert ExpenseBreakdown(ts) == Put(d, t.category, v);
        PutValues(d, t.category, v);
        PutKeys(d, t.category, v);
        forall c ensures Get(ExpenseBreakdown(ts), c, 0.0) == CategoryExpense(ts, c) {
          assert CategoryExpense(ts, c) == CategoryExpense(init, c) + (if t.category == c then -t.amount else 0.0);
        }
        assert ExpenseTotal(ts) == ExpenseTotal(init) - t.amount;
      } else {
        assert ExpenseBreakdown(ts) == d;
        forall c ensures Get(ExpenseBreakdown(ts), c, 0.0) == CategoryExpense(ts, c) {
          assert CategoryExpense(ts, c) == CategoryExpense(init, c);
        }
        assert ExpenseTotal(ts) == ExpenseTotal(init);
      }
    }
  }

  /** `{f"expense_{k}": -v for k, v in expense_breakdown.items()}`. */
  function ExpenseEntries(d: Dict): (r: Dict)
    ensures |r| == |d|
    ensures forall i :: 0 <= i < |d| ==> r[i] == ("expense_" + d[i].0, -d[i].1)
  {
    if d == [] then [] else [("expense_" + d[0].0, -d[0].1)] + ExpenseEntries(d[1..])
  }

  /** `{**a, **b}`: the keys of `b` written into `a` in order. */
  function Merge(a: Dict, b: Dict): Dict
    decreases |b|
  {
    if b == [] then a else Merge(Put(a, b[0].0, b[0].1), b[1..])
  }

  datatype IncomeStatement = IncomeStatement(totalIncome: real, totalExpenses: real, netIncome: real, breakdown: Dict)
  datatype BalanceSheet = BalanceSheet(totalAssets: real, totalLiabilities: real, totalEquity: real)
  datatype CashFlow = CashFlow(
    operatingActivities: real, investingActivities: real, financingActivities: real, netCashFlow: real)
  datatype Reports = Reports(
    transactions: seq<Transaction>, incomeStatement: IncomeStatement, balanceSheet: BalanceSheet, cashFlow: CashFlow)

  /** The statements derived from the two breakdowns. */
  function Statements(ts: seq<Transaction>, income: Dict, expense: Dict): Reports {
    var totalIncome := Sum(income);
    var totalExpenses := Sum(expense);
    var netIncome := totalIncome - totalExpenses;
    var assets := totalIncome * 0.7;
    var liabilities := totalExpenses * 0.3;
    var investing := totalIncome * 0.1;
    var financing := totalExpenses * 0.1;
    Reports(
      ts,
      IncomeStatement(totalIncome, totalExpenses, netIncome, Merge(income, ExpenseEntries(expense))),
      BalanceSheet(assets, liabilities, assets - liabilities),
      CashFlow(netIncome, investing, financing, netIncome + investing + financing))
  }

  /** `generate_reports(ts)`. */
  function Generate(ts: seq<Transaction>): Reports {
    Statements(ts, IncomeBreakdown(ts), ExpenseBreakdown(ts))
  }

  /** The loop that fills the two breakdown dicts, then the derived statements. */
  method GenerateReports(ts: seq<Transaction>) returns (r: Reports)
    ensures r == Generate(ts)
    ensures r.transactions == ts
    ensures r.incomeStatement.totalIncome == IncomeTotal(ts)
    ensures r.incomeStatement.totalExpenses == ExpenseTotal(ts)
    ensures r.incomeStatement.netIncome == AmountTotal(ts)
  {
    var income: Dict := [];
    var expense: Dict := [];
    for i := 0 to |ts|
      invariant income == IncomeBreakdown(ts[..i])
      invariant expense == ExpenseBreakdown(ts[..i])
    {
      var t := ts[i];
      Seqs.TakeLast(ts, i);
      if t.amount > 0.0 {
        income := Put(income, t.category, Get(income, t.category, 0.0) + t.amount);
      } else {
        expense := Put(expense, t.category, Get(expense, t.category, 0.0) + Abs(t.amount));
      }
    }
    Seqs.TakeAll(ts);
    r := Statements(ts, income, expense);
    ReportTotals(ts);
  }

  lemma {:induction false} NetIsAmountTotal(ts: seq<Transaction>)
    ensures IncomeTotal(ts) - ExpenseTotal(ts) == AmountTotal(ts)
    ensures IncomeTotal(ts) >= 0.0 && ExpenseTotal(ts) >= 0.0
    decreases |ts|
  {
    if ts != [] {
      NetIsAmountTotal(ts[..|ts| - 1]);
    }
  }

  /**
   * Total income is the sum of the positive amounts and total expenses the
   * sum of the magnitudes of the others; both are non-negative, net income
   * is their difference and equals the sum of all amounts, and the
   * transactions come back unchanged and in order.
   */
  lemma ReportTotals(ts: seq<Transaction>)
    ensures Generate(ts).transactions == ts
    ensures Generate(ts).incomeStatement.totalIncome == IncomeTotal(ts) >= 0.0
    ensures Generate(ts).incomeStatement.totalExpenses == ExpenseTotal(ts) >= 0.0
    ensures Generate(ts).incomeStatement.netIncome == AmountTotal(ts)
  {
    IncomeBreakdownSpec(ts);
    ExpenseBreakdownSpec(ts);
    NetIsAmountTotal(ts);
  }

  /** The balance sheet and cash flow follow from the two totals by the fixed ratios. */
  lemma DerivedStatements(ts: seq<Transaction>)
    ensures var r := Generate(ts);
      var income := IncomeTotal(ts);
      var expenses := ExpenseTotal(ts);
      && r.balanceSheet == BalanceSheet(income * 0.7, expenses * 0.3, income * 0.7 - expenses * 0.3)
      && r.cashFlow.operatingActivities == AmountTotal(ts)
      && r.cashFlow.investingActivities == income * 0.1
      && r.cashFlow.financingActivities == expenses * 0.1
      && r.cashFlow.netCashFlow == AmountTotal(ts) + income * 0.1 + expenses * 0.1
  {
    ReportTotals(ts);
  }

  /** A key the expense entries could collide with: one that starts with "expense_". */
  predicate ExpensePrefixed(k: string) {
    8 <= |k| && k[..8] == "expense_"
  }

  lemma KeysSnoc(d: Dict, x: (string, real))
    ensures Keys(d + [x]) == Keys(d) + {x.0}
  {
    var e := d + [x];
    assert e[|d|] == x;
    forall k | k in Keys(e) ensures k in Keys(d) + {x.0} {
      var i :| 0 <= i < |e| && e[i].0 == k;
      if i < |d| { assert e[i] == d[i]; }
    }
    forall k | k in Keys(d) ensures k in Keys(e) {
      var i :| 0 <= i < |d| && d[i].0 == k;
      assert e[i] == d[i];
    }
  }

  /** Writing a key that is not there appends it at the end. */
  lemma {:induction false} PutAbsent(d: Dict, k: string, v: real)
    requires k !in Keys(d)
    ensures Put(d, k, v) == d + [(k, v)]
    decreases |d|
  {
    if d != [] {
      assert d == [d[0]] + d[1..];
      KeysCons(d[0], d[1..]);
      PutAbsent(d[1..], k, v);
      Seqs.Assoc([d[0]], d[1..], [(k, v)]);
    }
  }

  /** `{**a, **b}` over disjoint keys lays out `a`'s entries, then `b`'s, each in its own order. */
  lemma {:induction false} MergeDisjoint(a: Dict, b: Dict)
    requires UniqueKeys(b)
    requires Keys(a) !! Keys(b)
    ensures Merge(a, b) == a + b
    decreases |b|
  {
    if b != [] {
      assert b == [b[0]] + b[1..];
      KeysCons(b[0], b[1..]);
      UniqueCons(b[0], b[1..]);
      PutAbsent(a, b[0].0, b[0].1);
      KeysSnoc(a, b[0]);
      MergeDisjoint(a + [b[0]], b[1..]);
      Seqs.Assoc(a, [b[0]], b[1..]);
    }
  }

  /** Every key of the income breakdown is the category of a positive transaction. */
  lemma {:induction false} IncomeKeys(ts: seq<Transaction>)
    ensures forall k :: k in Keys(IncomeBreakdown(ts)) ==> exists i :: 0 <= i < |ts| && ts[i].category == k
    decreases |ts|
  {
    if ts != [] {
      var init := ts[..|ts| - 1];
      IncomeKeys(init);
      IncomeBreakdownSpec(init);
      var d := IncomeBreakdown(init);
      var t := ts[|ts| - 1];
      if t.amount > 0.0 {
        PutKeys(d, t.category, Get(d, t.category, 0.0) + t.amount);
      }
      forall k | k in Keys(IncomeBreakdown(ts)) ensures exists i :: 0 <= i < |ts| && ts[i].category == k {
        if k in Keys(d) {
          var i :| 0 <= i < |init| && init[i].category == k;
          assert ts[i] == init[i];
        } else {
          assert ts[|ts| - 1].category == k;
        }
      }
    }
  }

  /** The expense entries keep unique keys, each the prefixed key of the breakdown entry it comes from. */
  lemma EntriesKeys(d: Dict)
    requires UniqueKeys(d)
    ensures UniqueKeys(ExpenseEntries(d))
    ensures forall k :: k in Keys(ExpenseEntries(d)) ==> ExpensePrefixed(k)
  {
    var e := ExpenseEntries(d);
    forall i, j | 0 <= i < j < |e| ensures e[i].0 != e[j].0 {
      Seqs.DropPrefix("expense_", d[i].0);
      Seqs.DropPrefix("expense_", d[j].0);
    }
    forall k | k in Keys(e) ensures ExpensePrefixed(k) {
      var i :| 0 <= i < |e| && e[i].0 == k;
      assert k[..8] == "expense_";
    }
  }

  /**
   * When no category starts with "expense_", the merged breakdown is the
   * income breakdown followed by the negated expense entries: no key of one
   * overwrites a key of the other.
   */
  lemma BreakdownLayout(ts: seq<Transaction>)
    requires forall i :: 0 <= i < |ts| ==> !ExpensePrefixed(ts[i].category)
    ensures Generate(ts).incomeStatement.breakdown ==
      IncomeBreakdown(ts) + ExpenseEntries(ExpenseBreakdown(ts))
  {
    ExpenseBreakdownSpec(ts);
    EntriesKeys(ExpenseBreakdown(ts));
    IncomeKeys(ts);
    MergeDisjoint(IncomeBreakdown(ts), ExpenseEntries(ExpenseBreakdown(ts)));
  }

  /** No transactions: every total is 0 and the breakdown is empty. */
  lemma EmptyReports()
    ensures Generate([]) == Reports([], IncomeStatement(0.0, 0.0, 0.0, []),
                                    BalanceSheet(0.0, 0.0, 0.0), CashFlow(0.0, 0.0, 0.0, 0.0))
  {
    assert IncomeBreakdown([]) == [] && ExpenseBreakdown([]) == [];
    assert ExpenseEntries([]) == [] && Merge([], []) == [];
    assert Sum([]) == 0.0;
  }

  lemma {:induction false} TotalsAdditive(a: seq<Transaction>, b: seq<Transaction>)
    ensures IncomeTotal(a + b) == IncomeTotal(a) + IncomeTotal(b)
    ensures ExpenseTotal(a + b) == ExpenseTotal(a) + ExpenseTotal(b)
    ensures AmountTotal(a + b) == AmountTotal(a) + AmountTotal(b)
    decreases |b|
  {
    if b == [] {
      assert a + b == a;
    } else {
      var b' := b[..|b| - 1];
      TotalsAdditive(a, b');
      assert (a + b)[..|a + b| - 1] == a + b';
      assert (a + b)[|a + b| - 1] == b[|b| - 1];
    }
  }

  /** Every total and derived figure of a concatenation is the sum of those of its parts. */
  lemma ReportsAdditive(a: seq<Transaction>, b: seq<Transaction>)
    ensures var ra, rb, r := Generate(a), Generate(b), Generate(a + b);
      && r.incomeStatement.totalIncome == ra.incomeStatement.totalIncome + rb.incomeStatement.totalIncome
      && r.incomeStatement.totalExpenses == ra.incomeStatement.totalExpenses + rb.incomeStatement.totalExpenses
      && r.incomeStatement.netIncome == ra.incomeStatement.netIncome + rb.incomeStatement.netIncome
      && r.balanceSheet.totalAssets == ra.balanceSheet.totalAssets + rb.balanceSheet.totalAssets
      && r.balanceSheet.totalLiabilities == ra.balanceSheet.totalLiabilities + rb.balanceSheet.totalLiabilities
      && r.balanceSheet.totalEquity == ra.balanceSheet.totalEquity + rb.balanceSheet.totalEquity
      && r.cashFlow.operatingActivities == ra.cashFlow.operatingActivities + rb.cashFlow.operatingActivities
      && r.cashFlow.investingActivities == ra.cashFlow.investingActivities + rb.cashFlow.investingActivities
      && r.cashFlow.financingActivities == ra.cashFlow.financingActivities + rb.cashFlow.financingActivities
      && r.cashFlow.netCashFlow == ra.cashFlow.netCashFlow + rb.cashFlow.netCashFlow
  {
    ReportTotals(a);
    ReportTotals(b);
    ReportTotals(a + b);
    TotalsAdditive(a, b);
  }
}
