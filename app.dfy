/**
 * The module-level pipeline of the web service: `parse_amount`, the
 * record extractor with its "Unknown Transaction" placeholder, the CSV
 * and Excel filter-maps, and the `/process` handler that turns a batch of
 * uploads into per-file statuses, a summary and the reports.
 */
module App {
  import opened Wrappers
  import opened Values
  import Text
  import Decimal
  import Taxonomy
  import Seqs
  import Extraction
  import Reporting

  const Rupee: char := '\U{20B9}'
  const Euro: char := '\U{20AC}'

  /** What `parse_amount` deletes, in the order it deletes them. */
  const Symbols: seq<string> := [",", [Rupee], "$", [Euro]]

  predicate IsSymbol(c: char) {
    c == ',' || c == Rupee || c == '$' || c == Euro
  }

  lemma SymbolsAreChars()
    ensures forall k :: 0 <= k < |Symbols| ==> |Symbols[k]| == 1
    ensures forall c :: IsSymbol(c) <==> [c] in Symbols
    ensures forall c :: IsSymbol(c) <==> exists k :: 0 <= k < |Symbols| && Symbols[k][0] == c
  {
    assert Symbols[0][0] == ',' && Symbols[2][0] == '$';
  }

  /** The text with every ',', '₹', '$' and '€' deleted, one `replace` after another. */
  function Unsymbolled(s: string): string {
    Text.RemoveEach(s, Symbols)
  }

  /** The text `parse_amount` hands to `float`. */
  function Clean(s: string): string {
    Text.Strip(Unsymbolled(s))
  }

  /** `float(cleaned) if cleaned else 0`, a `ValueError` caught as 0. */
  function ParseCleaned(cleaned: string): real {
    if cleaned == "" then 0.0 else Decimal.ParseDecimal(cleaned).GetOr(0.0)
  }

  /** `parse_amount(value)`: never raises; every failure is 0. */
  function ParseAmount(v: Value): real {
    match v
    case VNone => 0.0
    case VStr(s) => if s == "" then 0.0 else ParseCleaned(Clean(s))
    case VBool(b) => if b then 1.0 else 0.0
    case VInt(i) => i as real
    case VFloat(x, _) => x
  }

  /** The removals delete every symbol and keep every other character. */
  lemma UnsymbolledSpec(s: string)
    ensures forall c :: IsSymbol(c) ==> c !in Unsymbolled(s)
    ensures forall c :: !IsSymbol(c) ==> multiset(Unsymbolled(s))[c] == multiset(s)[c]
  {
    SymbolsAreChars();
    Text.RemoveEachSpec(s, Symbols);
  }

  /**
   * The text handed to `float` holds none of the symbols and neither starts
   * nor ends with whitespace.
   */
  lemma CleanSpec(s: string)
    ensures forall c :: IsSymbol(c) ==> c !in Clean(s)
    ensures Clean(s) == [] || (!Text.IsSpace(Clean(s)[0]) && !Text.IsSpace(Clean(s)[|Clean(s)| - 1]))
  {
    var u := Unsymbolled(s);
    UnsymbolledSpec(s);
    Text.StripSpec(u);
    var i, j :| 0 <= i <= j <= |u| && Clean(s) == u[i..j];
    forall k | 0 <= k < |Clean(s)| ensures !IsSymbol(Clean(s)[k]) {
      assert Clean(s)[k] == u[i + k];
    }
  }

  /** A symbol spliced in anywhere is deleted before anything else looks at the text. */
  lemma UnsymbolledSplice(a: string, b: string, c: char)
    requires IsSymbol(c)
    ensures Unsymbolled(a + [c] + b) == Unsymbolled(a + b)
  {
    SymbolsAreChars();
    Text.RemoveEachSplice(a, b, c, Symbols);
  }

  /** Currency symbols and thousands separators anywhere in the text do not change the amount. */
  lemma SymbolIgnored(a: string, b: string, c: char)
    requires IsSymbol(c)
    ensures ParseAmount(VStr(a + [c] + b)) == ParseAmount(VStr(a + b))
  {
    UnsymbolledSplice(a, b, c);
    if a + b == "" {
      assert Unsymbolled(a + b) == "";
    }
  }

  /** The text of an integer parses to that integer, as the integer itself does. */
  lemma IntTextAgrees(n: int)
    ensures ParseAmount(VStr(Decimal.IntToString(n))) == ParseAmount(VInt(n)) == n as real
  {
    var s := Decimal.IntToString(n);
    var digits := Decimal.NatDigits(if n < 0 then -n else n);
    assert forall k :: 0 <= k < |s| ==> s[k] == '-' || Text.IsDigit(s[k]) by {
      if n < 0 {
        assert forall k :: 1 <= k < |s| ==> s[k] == digits[k - 1];
      }
    }
    UnsymbolledSpec(s);
    assert Unsymbolled(s) == s by {
      assert forall c :: IsSymbol(c) ==> c !in s;
      NoSymbolsKept(s);
    }
    assert s[|s| - 1] == digits[|digits| - 1];
    Text.StripUnpadded(s);
    Decimal.IntToStringParses(n);
  }

  lemma {:induction false} NoSymbolsKept(s: string)
    requires forall c :: IsSymbol(c) ==> c !in s
    ensures Unsymbolled(s) == s
  {
    SymbolsAreChars();
    Text.RemoveEachAbsent(s, Symbols);
  }

  /** "€500", "$500", "₹500" and ",500" all give 500. */
  lemma SymbolPrefixed(c: char, n: int)
    requires IsSymbol(c)
    ensures ParseAmount(VStr([c] + Decimal.IntToString(n))) == n as real
  {
    SymbolIgnored([], Decimal.IntToString(n), c);
    assert [] + [c] + Decimal.IntToString(n) == [c] + Decimal.IntToString(n);
    assert [] + Decimal.IntToString(n) == Decimal.IntToString(n);
    IntTextAgrees(n);
  }

  const Placeholder := "Unknown Transaction"

  /** `extract_transaction` with this module's amount parser and placeholder. */
  method ExtractTransaction(row: Record) returns (t: Option<Transaction>)
    ensures t == Extraction.Extract(row, ParseAmount, Placeholder, Taxonomy.ChartOfAccounts())
    ensures t.Some? && (forall i :: 0 <= i < |row| ==> !Extraction.KeyedBy(row[i], Extraction.DescriptionTerms)) ==>
      t.value.description == Placeholder
  {
    t := Extraction.ExtractTransaction(row, ParseAmount, Placeholder, Taxonomy.ChartOfAccounts());
  }

  /** `process_csv` / `process_excel` once the reader has produced the rows. */
  function ProcessRows(rows: seq<Record>): seq<Transaction> {
    Extraction.ExtractAll(rows, ParseAmount, Placeholder, Taxonomy.ChartOfAccounts())
  }

  /** One uploaded file: its name and what the readers make of its bytes. */
  datatype Upload = Upload(filename: string, content: Content)

  /** An entry of `processed_files`. */
  datatype FileStatus = Processed(filename: string, count: nat) | Failed(filename: string, error: string)

  datatype Summary = Summary(totalTransactions: nat, totalIncome: real, totalExpenses: real, netIncome: real)

  datatype Response = Response(processedFiles: seq<FileStatus>, summary: Summary, reports: Reporting.Reports)

  /** The handler's answer: the response body, or the `HTTPException` it raises. */
  datatype Outcome = Success(response: Response) | HttpError(status: nat, detail: string)

  const UnsupportedFormat := "Unsupported file format"
  const NoTransactions := "No valid transactions found in any file"

  /** A decoded spreadsheet: its status and transactions, or the reader's error message. */
  function Decoded(filename: string, rows: Result<seq<Record>>): (FileStatus, seq<Transaction>) {
    match rows
    case Raised(message) => (Failed(filename, message), [])
    case Ok(rs) =>
      var ts := ProcessRows(rs);
      (Processed(filename, |ts|), ts)
  }

  /** What one upload contributes: nothing without a filename, otherwise its status and transactions. */
  function FileResult(u: Upload): Option<(FileStatus, seq<Transaction>)> {
    if u.filename == "" then None
    else
      var name := Text.Lower(u.filename);
      if Text.EndsWith(name, ".csv") then Some(Decoded(u.filename, u.content.csv))
      else if Text.EndsWith(name, ".xlsx") || Text.EndsWith(name, ".xls") then Some(Decoded(u.filename, u.content.excel))
      else Some((Failed(u.filename, UnsupportedFormat), []))
  }

  /** One file's contribution put in front of the rest's. */
  function Combine(one: Option<(FileStatus, seq<Transaction>)>, rest: (seq<FileStatus>, seq<Transaction>))
    : (seq<FileStatus>, seq<Transaction>)
  {
    match one
    case None => rest
    case Some(r) => ([r.0] + rest.0, r.1 + rest.1)
  }

  /** `processed_files_status` and `all_transactions` after the loop over `files`. */
  function Batch(files: seq<Upload>): (r: (seq<FileStatus>, seq<Transaction>))
    ensures |r.0| <= |files|
  {
    if files == [] then ([], []) else Combine(FileResult(files[0]), Batch(files[1..]))
  }

  function SummaryOf(ts: seq<Transaction>, reports: Reporting.Reports): Summary {
    Summary(|ts|, reports.incomeStatement.totalIncome, reports.incomeStatement.totalExpenses,
            reports.incomeStatement.netIncome)
  }

  /** `process_files(files)`. */
  function Process(files: seq<Upload>): Outcome {
    Respond(Batch(files).0, Batch(files).1)
  }

  /** The tail of the handler: the 400 error, or the response built from the batch. */
  function Respond(statuses: seq<FileStatus>, ts: seq<Transaction>): Outcome {
    if ts == [] then HttpError(400, NoTransactions)
    else
      var reports := Reporting.Generate(ts);
      Success(Response(statuses, SummaryOf(ts, reports), reports))
  }

  /**
   * The body of the handler's loop for one upload: `None` where it
   * `continue`s without a status, otherwise the status it appends and the
   * transactions it adds.
   */
  method ProcessUpload(file: Upload) returns (entry: Option<(FileStatus, seq<Transaction>)>)
    ensures entry == FileResult(file)
  {
    if file.filename == "" {
      return None;
    }
    var name := Text.Lower(file.filename);
    var decoded: Result<seq<Record>>;
    if Text.EndsWith(name, ".csv") {
      decoded := file.content.csv;
    } else if Text.EndsWith(name, ".xlsx") || Text.EndsWith(name, ".xls") {
      decoded := file.content.excel;
    } else {
      return Some((Failed(file.filename, UnsupportedFormat), []));
    }
    assert FileResult(file) == Some(Decoded(file.filename, decoded));
    match decoded {
      case Raised(message) =>
        entry := Some((Failed(file.filename, message), []));
      case Ok(rows) =>
        var transactions := ProcessRows(rows);
        entry := Some((Processed(file.filename, |transactions|), transactions));
    }
  }

  /** The handler's loop over the uploads, appending each file's status and transactions. */
  method CollectFiles(files: seq<Upload>) returns (statuses: seq<FileStatus>, allTransactions: seq<Transaction>)
    ensures statuses == Batch(files).0 && allTransactions == Batch(files).1
  {
    statuses, allTransactions := [], [];
    assert files[0..] == files;
    for i := 0 to |files|
      invariant statuses + Batch(files[i..]).0 == Batch(files).0
      invariant allTransactions + Batch(files[i..]).1 == Batch(files).1
    {
      BatchStep(files, i);
      var entry := ProcessUpload(files[i]);
      if entry.Some? {
        var (status, transactions) := entry.value;
        Recorded(statuses, allTransactions, status, transactions, Batch(files[i + 1..]));
        statuses := statuses + [status];
        allTransactions := allTransactions + transactions;
      }
    }
    assert files[|files|..] == [];
  }

  /** `process_files(files)`: the loop over the uploads, then the 400 error or the response. */
  method ProcessFiles(files: seq<Upload>) returns (out: Outcome)
    ensures out == Process(files)
  {
    var statuses, allTransactions := CollectFiles(files);
    if allTransactions == [] {
      return HttpError(400, NoTransactions);
    }
    var reports := Reporting.GenerateReports(allTransactions);
    out := Success(Response(statuses, SummaryOf(allTransactions, reports), reports));
    assert out == Respond(statuses, allTransactions);
  }

  lemma Recorded(statuses: seq<FileStatus>, all: seq<Transaction>, status: FileStatus, ts: seq<Transaction>,
                 rest: (seq<FileStatus>, seq<Transaction>))
    ensures var c := Combine(Some((status, ts)), rest);
      && statuses + c.0 == (statuses + [status]) + rest.0
      && all + c.1 == (all + ts) + rest.1
  {
  }

  lemma BatchStep(files: seq<Upload>, i: nat)
    requires i < |files|
    ensures Batch(files[i..]) == Combine(FileResult(files[i]), Batch(files[i + 1..]))
  {
    Seqs.DropStep(files, i);
  }

  /**
   * Files are handled independently and in order: the statuses and
   * transactions of a batch are those of its parts, concatenated. So an
   * error in one file does not stop the files after it.
   */
  lemma {:induction false} BatchAppend(a: seq<Upload>, b: seq<Upload>)
    ensures Batch(a + b) == (Batch(a).0 + Batch(b).0, Batch(a).1 + Batch(b).1)
    decreases |a|
  {
    if a == [] {
      assert a + b == b;
      assert Batch(a) == ([], []);
      assert [] + Batch(b).0 == Batch(b).0 && [] + Batch(b).1 == Batch(b).1;
    } else {
      BatchAppend(a[1..], b);
      Seqs.AppendFront(a, b);
      var one := FileResult(a[0]);
      assert Batch(a + b) == Combine(one, Batch(a[1..] + b));
      assert Batch(a) == Combine(one, Batch(a[1..]));
      CombineAppend(one, Batch(a[1..]), Batch(b));
    }
  }

  /** Putting one file's contribution in front commutes with appending later files'. */
  lemma CombineAppend(one: Option<(FileStatus, seq<Transaction>)>, x: (seq<FileStatus>, seq<Transaction>),
                      y: (seq<FileStatus>, seq<Transaction>))
    ensures Combine(one, (x.0 + y.0, x.1 + y.1)) == (Combine(one, x).0 + y.0, Combine(one, x).1 + y.1)
  {
    if one.Some? {
      Seqs.Assoc([one.value.0], x.0, y.0);
      Seqs.Assoc(one.value.1, x.1, y.1);
    }
  }

  lemma BatchOne(u: Upload)
    ensures Batch([u]) == Combine(FileResult(u), ([], []))
  {
    assert [u][1..] == [] && [u][0] == u;
  }

  /** A file without a filename adds no entry and no transactions. */
  lemma NamelessSkipped(u: Upload)
    requires u.filename == ""
    ensures Batch([u]) == ([], [])
  {
    BatchOne(u);
  }

  /**
   * A named file adds exactly one entry, under its name; a failed one adds
   * no transactions, a processed one as many as its count says.
   */
  lemma NamedRecorded(u: Upload)
    requires u.filename != ""
    ensures var (statuses, ts) := Batch([u]);
      && |statuses| == 1 && statuses[0].filename == u.filename
      && (statuses[0].Failed? ==> ts == [])
      && (statuses[0].Processed? ==> statuses[0].count == |ts|)
  {
    BatchOne(u);
  }

  /** A named file whose lower-cased name ends in none of the suffixes is an unsupported-format error. */
  lemma UnsupportedRecorded(u: Upload)
    requires u.filename != ""
    requires var name := Text.Lower(u.filename);
      !Text.EndsWith(name, ".csv") && !Text.EndsWith(name, ".xlsx") && !Text.EndsWith(name, ".xls")
    ensures Batch([u]) == ([Failed(u.filename, UnsupportedFormat)], [])
  {
    BatchOne(u);
    assert FileResult(u) == Some((Failed(u.filename, UnsupportedFormat), []));
    assert [Failed(u.filename, UnsupportedFormat)] + [] == [Failed(u.filename, UnsupportedFormat)];
  }

  /**
   * The handler fails with 400 exactly when no file yields a transaction;
   * otherwise the summary counts the transactions and repeats the report's
   * totals, which are the sums of the positive amounts and of the others'
   * magnitudes, with net income the sum of all amounts.
   */
  lemma ProcessSpec(files: seq<Upload>)
    ensures Process(files).HttpError? <==> Batch(files).1 == []
    ensures Process(files).HttpError? ==> Process(files) == HttpError(400, NoTransactions)
    ensures Process(files).Success? ==>
      var ts := Batch(files).1;
      var r := Process(files).response;
      && r.processedFiles == Batch(files).0
      && r.reports.transactions == ts
      && r.summary.totalTransactions == |ts|
      && r.summary.totalIncome == Reporting.IncomeTotal(ts) >= 0.0
      && r.summary.totalExpenses == Reporting.ExpenseTotal(ts) >= 0.0
      && r.summary.netIncome == Reporting.AmountTotal(ts)
  {
    Reporting.ReportTotals(Batch(files).1);
  }

  /** Every transaction of a batch carries one of the chart's labels. */
  lemma {:induction false} BatchCategories(files: seq<Upload>)
    ensures forall t :: t in Batch(files).1 ==> t.category in Taxonomy.AllCategories()
    decreases |files|
  {
    if files != [] {
      BatchCategories(files[1..]);
      var u := files[0];
      var chart := Taxonomy.ChartOfAccounts();
      if u.content.csv.Ok? {
        RowsCategories(u.content.csv.value);
      }
      if u.content.excel.Ok? {
        RowsCategories(u.content.excel.value);
      }
    }
  }

  lemma RowsCategories(rows: seq<Record>)
    ensures forall t :: t in ProcessRows(rows) ==> t.category in Taxonomy.AllCategories()
  {
    var chart := Taxonomy.ChartOfAccounts();
    Extraction.ExtractAllFromRows(rows, ParseAmount, Placeholder, chart);
    forall t | t in ProcessRows(rows) ensures t.category in Taxonomy.AllCategories() {
      var i :| 0 <= i < |rows| && Extraction.Extract(rows[i], ParseAmount, Placeholder, chart) == Some(t);
      Extraction.ExtractSpec(rows[i], ParseAmount, Placeholder, chart);
      Taxonomy.CategoryIsKnown(t.description);
    }
  }

  /**
   * The response's breakdown holds the income categories first, then one
   * "expense_" entry per expense category: no entry overwrites another.
   */
  lemma BreakdownSeparated(files: seq<Upload>)
    ensures Process(files).Success? ==>
      var ts := Batch(files).1;
      Process(files).response.reports.incomeStatement.breakdown ==
        Reporting.IncomeBreakdown(ts) + Reporting.ExpenseEntries(Reporting.ExpenseBreakdown(ts))
  {
    var ts := Batch(files).1;
    BatchCategories(files);
    forall i | 0 <= i < |ts| ensures !Reporting.ExpensePrefixed(ts[i].category) {
      Taxonomy.LabelsNotExpensePrefixed(ts[i].category);
    }
    Reporting.BreakdownLayout(ts);
  }
}
