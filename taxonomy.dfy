/** The chart of accounts and the keyword categoriser that searches it. */
module Taxonomy {
  import opened Wrappers
  import Text

  datatype SubCategory = SubCategory(name: string, keywords: seq<string>)
  datatype MainCategory = MainCategory(name: string, subs: seq<SubCategory>)
  type Chart = seq<MainCategory>

  /** The fixed two-level table, in declaration order: income before expenses. */
  function ChartOfAccounts(): Chart {
    [MainCategory("income", IncomeSubs()), MainCategory("expenses", ExpenseSubs())]
  }

  function IncomeSubs(): seq<SubCategory> {
    [
        SubCategory("salary", ["salary", "payroll", "wages"]),
        SubCategory("business", ["freelance", "consulting", "client", "project"]),
        SubCategory("investment", ["dividend", "interest", "return", "yield"]),
        SubCategory("other_income", ["refund", "reimbursement", "gift"])]
  }

  function ExpenseSubs(): seq<SubCategory> {
    [
        SubCategory("housing", ["rent", "mortgage", "emi", "house", "apartment"]),
        SubCategory("utilities", ["electric", "water", "bill", "utility", "internet", "mobile"]),
        SubCategory("food", ["grocery", "restaurant", "food", "dining", "supermarket"]),
        SubCategory("transport", ["fuel", "petrol", "uber", "ola", "transport", "bus", "train"]),
        SubCategory("healthcare", ["medical", "hospital", "doctor", "pharmacy", "medicine"]),
        SubCategory("entertainment", ["movie", "netflix", "prime", "entertainment", "game"]),
        SubCategory("shopping", ["shopping", "mall", "amazon", "flipkart", "purchase"])]
  }

  const Uncategorized := "uncategorized"

  /** `f"{main_cat}_{sub_cat}"`. */
  function Label(main: string, sub: string): string {
    main + "_" + sub
  }

  /** One (label, keywords) entry per sub-category, in the order the nested loops visit them. */
  function Entries(chart: Chart): seq<(string, seq<string>)> {
    if chart == [] then [] else SubEntries(chart[0].name, chart[0].subs) + Entries(chart[1..])
  }

  function SubEntries(main: string, subs: seq<SubCategory>): seq<(string, seq<string>)> {
    if subs == [] then [] else [(Label(main, subs[0].name), subs[0].keywords)] + SubEntries(main, subs[1..])
  }

  /** The inner loop over one main category's sub-categories, with its early return. */
  function SearchSubs(main: string, subs: seq<SubCategory>, d: string): Option<string> {
    if subs == [] then None
    else if Text.ContainsAny(d, subs[0].keywords) then Some(Label(main, subs[0].name))
    else SearchSubs(main, subs[1..], d)
  }

  /** The outer loop over main categories; `"uncategorized"` when nothing matched. */
  function SearchMains(chart: Chart, d: string): string {
    if chart == [] then Uncategorized
    else match SearchSubs(chart[0].name, chart[0].subs, d)
      case Some(found) => found
      case None => SearchMains(chart[1..], d)
  }

  /** `categorize_transaction(description)` over a given chart. */
  function Categorize(chart: Chart, description: string): string {
    SearchMains(chart, Text.Lower(description))
  }

  predicate EntryMatches(e: (string, seq<string>), d: string) {
    Text.ContainsAny(d, e.1)
  }

  /** `r` is the label of the first entry whose keywords occur in `d`, or no entry matches and `r` is "uncategorized". */
  predicate FirstMatch(entries: seq<(string, seq<string>)>, d: string, r: string) {
    || (exists i :: 0 <= i < |entries| && EntryMatches(entries[i], d) && r == entries[i].0
                    && forall j :: 0 <= j < i ==> !EntryMatches(entries[j], d))
    || ((forall i :: 0 <= i < |entries| ==> !EntryMatches(entries[i], d)) && r == Uncategorized)
  }

  lemma {:induction false} SearchSubsFirstMatch(main: string, subs: seq<SubCategory>, d: string)
    ensures var es := SubEntries(main, subs);
      SearchSubs(main, subs, d).Some? ==>
        exists i :: 0 <= i < |es| && EntryMatches(es[i], d) && SearchSubs(main, subs, d).value == es[i].0
                    && forall j :: 0 <= j < i ==> !EntryMatches(es[j], d)
    ensures var es := SubEntries(main, subs);
      SearchSubs(main, subs, d).None? ==> forall i :: 0 <= i < |es| ==> !EntryMatches(es[i], d)
    decreases |subs|
  {
    if subs != [] {
      SearchSubsFirstMatch(main, subs[1..], d);
      var es := SubEntries(main, subs);
      assert es[1..] == SubEntries(main, subs[1..]);
      if !Text.ContainsAny(d, subs[0].keywords) {
        match SearchSubs(main, subs[1..], d)
        case Some(r) =>
          var i :| 0 <= i < |es| - 1 && EntryMatches(es[1..][i], d) && r == es[1..][i].0
                   && forall j :: 0 <= j < i ==> !EntryMatches(es[1..][j], d);
          assert forall j :: 0 <= j < i + 1 ==> !EntryMatches(es[j], d) by {
            forall j | 0 <= j < i + 1 ensures !EntryMatches(es[j], d) {
              if j > 0 { assert es[j] == es[1..][j - 1]; }
            }
          }
          assert EntryMatches(es[i + 1], d) && r == es[i + 1].0;
        case None =>
          forall i | 0 <= i < |es| ensures !EntryMatches(es[i], d) {
            if i > 0 { assert es[i] == es[1..][i - 1]; }
          }
      } else {
        assert EntryMatches(es[0], d);
      }
    }
  }

  lemma {:induction false} SearchMainsFirstMatch(chart: Chart, d: string)
    ensures FirstMatch(Entries(chart), d, SearchMains(chart, d))
    decreases |chart|
  {
    var es := Entries(chart);
    if chart != [] {
      var head := SubEntries(chart[0].name, chart[0].subs);
      var tail := Entries(chart[1..]);
      assert es == head + tail;
      SearchSubsFirstMatch(chart[0].name, chart[0].subs, d);
      match SearchSubs(chart[0].name, chart[0].subs, d)
      case Some(r) =>
        var i :| 0 <= i < |head| && EntryMatches(head[i], d) && r == head[i].0
                 && forall j :: 0 <= j < i ==> !EntryMatches(head[j], d);
        assert es[i] == head[i];
        assert forall j :: 0 <= j < i ==> es[j] == head[j];
      case None =>
        SearchMainsFirstMatch(chart[1..], d);
        var r := SearchMains(chart[1..], d);
        assert forall j :: 0 <= j < |head| ==> !EntryMatches(head[j], d);
        assert forall j :: 0 <= j < |head| ==> es[j] == head[j];
        assert forall j :: 0 <= j < |tail| ==> es[|head| + j] == tail[j];
        if exists i :: 0 <= i < |tail| && EntryMatches(tail[i], d) && r == tail[i].0
                       && forall j :: 0 <= j < i ==> !EntryMatches(tail[j], d) {
          var i :| 0 <= i < |tail| && EntryMatches(tail[i], d) && r == tail[i].0
                   && forall j :: 0 <= j < i ==> !EntryMatches(tail[j], d);
          assert es[|head| + i] == tail[i];
          forall j | 0 <= j < |head| + i ensures !EntryMatches(es[j], d) {
            if j >= |head| { assert es[j] == tail[j - |head|]; }
          }
        } else {
          forall j | 0 <= j < |es| ensures !EntryMatches(es[j], d) {
            if j >= |head| { assert es[j] == tail[j - |head|]; }
          }
        }
    }
  }

  /**
   * The categoriser returns the label of the first sub-category, income
   * before expenses and each in declaration order, one of whose keywords
   * occurs in the lower-cased description; "uncategorized" when none does.
   */
  lemma CategorizeFirstMatch(chart: Chart, description: string)
    ensures FirstMatch(Entries(chart), Text.Lower(description), Categorize(chart, description))
  {
    SearchMainsFirstMatch(chart, Text.Lower(description));
  }

  /** The eleven `{main}_{sub}` labels of the chart and "uncategorized". */
  function AllCategories(): seq<string> {
    [ Label("income", "salary"), Label("income", "business"), Label("income", "investment"),
      Label("income", "other_income"), Label("expenses", "housing"), Label("expenses", "utilities"),
      Label("expenses", "food"), Label("expenses", "transport"), Label("expenses", "healthcare"),
      Label("expenses", "entertainment"), Label("expenses", "shopping"), Uncategorized ]
  }

  lemma {:induction false} SubEntriesAt(main: string, subs: seq<SubCategory>)
    ensures |SubEntries(main, subs)| == |subs|
    ensures forall k :: 0 <= k < |subs| ==> SubEntries(main, subs)[k] == (Label(main, subs[k].name), subs[k].keywords)
    decreases |subs|
  {
    if subs != [] {
      SubEntriesAt(main, subs[1..]);
      var es := SubEntries(main, subs);
      forall k | 0 <= k < |subs| ensures es[k] == (Label(main, subs[k].name), subs[k].keywords) {
        if k > 0 { assert es[k] == SubEntries(main, subs[1..])[k - 1]; }
      }
    }
  }

  lemma IncomeLabels()
    ensures |SubEntries("income", IncomeSubs())| == 4
    ensures forall k :: 0 <= k < 4 ==> SubEntries("income", IncomeSubs())[k].0 == AllCategories()[0 + k]
  {
    var subs := IncomeSubs();
    SubEntriesAt("income", subs);
    assert subs[0].name == "salary";
    assert subs[1].name == "business";
    assert subs[2].name == "investment";
    assert subs[3].name == "other_income";
  }

  lemma ExpenseLabels()
    ensures |SubEntries("expenses", ExpenseSubs())| == 7
    ensures forall k :: 0 <= k < 7 ==> SubEntries("expenses", ExpenseSubs())[k].0 == AllCategories()[4 + k]
  {
    var subs := ExpenseSubs();
    SubEntriesAt("expenses", subs);
    assert subs[0].name == "housing";
    assert subs[1].name == "utilities";
    assert subs[2].name == "food";
    assert subs[3].name == "transport";
    assert subs[4].name == "healthcare";
    assert subs[5].name == "entertainment";
    assert subs[6].name == "shopping";
  }

  lemma ChartLabels()
    ensures |Entries(ChartOfAccounts())| == 11
    ensures forall i :: 0 <= i < 11 ==> Entries(ChartOfAccounts())[i].0 == AllCategories()[i]
  {
    var c := ChartOfAccounts();
    var inc := SubEntries("income", IncomeSubs());
    var exp := SubEntries("expenses", ExpenseSubs());
    IncomeLabels();
    ExpenseLabels();
    assert Entries(c[1..][1..]) == [];
    assert Entries(c) == inc + exp;
    forall i | 0 <= i < 11 ensures Entries(c)[i].0 == AllCategories()[i] {
      if i >= 4 { assert Entries(c)[i] == exp[i - 4]; }
    }
  }

  /** Every category the pipeline assigns is one of the twelve fixed labels. */
  lemma CategoryIsKnown(description: string)
    ensures Categorize(ChartOfAccounts(), description) in AllCategories()
  {
    CategorizeFirstMatch(ChartOfAccounts(), description);
    ChartLabels();
  }

  /** No label starts with "expense_": income labels start with 'i', expense labels with "expenses_". */
  lemma LabelsNotExpensePrefixed(c: string)
    requires c in AllCategories()
    ensures !(8 <= |c| && c[..8] == "expense_")
  {
    var i :| 0 <= i < |AllCategories()| && AllCategories()[i] == c;
    if 8 <= |c| {
      assert c[..8][0] == c[0] && c[..8][7] == c[7];
      if i < 4 {
        assert c[0] == 'i';
      } else if i < 11 {
        assert c[7] == 's';
      } else {
        assert c[0] == 'u';
      }
    }
  }
}
