/**
 * `FinancialProcessor`: the second copy of the pipeline, as a class whose
 * chart of accounts is fixed by its constructor. It reads PDF statements
 * and JSON documents besides spreadsheets, uses "Unknown" as its
 * description placeholder, and has its own `parse_amount`, which deletes
 * ',', '$' and the rupee sign as mis-decoded text ('â‚¹', the sign's UTF-8
 * bytes read as Windows-1252) but neither '₹' itself nor '€'.
 */
module Processor {
  import opened Wrappers
  import opened Values
  import Text
  import Decimal
  import Taxonomy
  import Extraction
  import Regex
  import PdfLine
  import Reporting
  import App
  import Seqs

  /** 'â‚¹': U+00E2, U+201A, U+00B9. */
  const MisencodedRupee: string := ['\U{E2}', '\U{201A}', '\U{B9}']

  /** What this `parse_amount` deletes, in the order it deletes them. */
  const Separators: seq<string> := [",", MisencodedRupee, "$"]

  /** The text this `parse_amount` hands to `float`. */
  function Clean(s: string): string {
    Text.Strip(Text.RemoveEach(s, Separators))
  }

  /** `parse_amount(value)`: never raises; every failure is 0. */
  function ParseAmount(v: Value): real {
    match v
    case VNone => 0.0
    case VBool(b) => if b then 1.0 else 0.0
    case VInt(i) => i as real
    case VFloat(x, _) => x
    case VStr(s) =>
      var cleaned := Clean(s);
      if cleaned == "" then 0.0 else Decimal.ParseDecimal(cleaned).GetOr(0.0)
  }

  const Placeholder := "Unknown"

  lemma SeparatorsInTurn(s: string)
    ensures Text.RemoveEach(s, Separators) ==
      Text.RemoveAll(Text.RemoveAll(Text.RemoveAll(s, ","), MisencodedRupee), "$")
  {
    Text.RemoveEachThree(s, ",", MisencodedRupee, "$");
  }

  /** Removing the separators from a text holding neither ',', '$' nor 'â' leaves it as it is. */
  lemma SeparatorsAbsent(s: string)
    requires ',' !in s && '$' !in s && MisencodedRupee[0] !in s
    ensures Text.RemoveEach(s, Separators) == s
  {
    SeparatorsInTurn(s);
    Text.RemoveCharSpec(s, ',');
    Text.NotContainsMissingChar(s, MisencodedRupee, 0);
    Text.RemoveAbsent(s, MisencodedRupee);
    Text.RemoveCharSpec(s, '$');
  }

  /** Without 'â' this parser only deletes ',' and '$'. */
  lemma ProcessorRemovals(s: string)
    requires MisencodedRupee[0] !in s
    ensures Text.RemoveEach(s, Separators) == Text.RemoveAll(Text.RemoveAll(s, ","), "$")
  {
    SeparatorsInTurn(s);
    var s1 := Text.RemoveAll(s, ",");
    Text.RemoveCharSpec(s, ',');
    assert MisencodedRupee[0] !in s1 by {
      assert multiset(s1)[MisencodedRupee[0]] == multiset(s)[MisencodedRupee[0]];
    }
    Text.NotContainsMissingChar(s1, MisencodedRupee, 0);
    Text.RemoveAbsent(s1, MisencodedRupee);
  }

  /** Without '₹' and '€' the other copy's parser also only deletes ',' and '$'. */
  lemma AppRemovals(s: string)
    requires App.Rupee !in s && App.Euro !in s
    ensures App.Unsymbolled(s) == Text.RemoveAll(Text.RemoveAll(s, ","), "$")
  {
    Text.RemoveEachFour(s, ",", [App.Rupee], "$", [App.Euro]);
    var s1 := Text.RemoveAll(s, ",");
    var s3 := Text.RemoveAll(s1, "$");
    Text.RemoveCharSpec(s, ',');
    Text.RemoveCharSpec(s1, App.Rupee);
    Text.RemoveCharSpec(s1, '$');
    Text.RemoveCharSpec(s3, App.Euro);
    assert App.Rupee !in s1 by { assert multiset(s1)[App.Rupee] == multiset(s)[App.Rupee]; }
    assert App.Euro !in s3 by {
      assert multiset(s3)[App.Euro] == multiset(s1)[App.Euro] == multiset(s)[App.Euro];
    }
  }

  /**
   * On text without '₹', '€' or 'â' the two copies of `parse_amount` agree,
   * and on every value that is not text.
   */
  lemma CopiesAgree(v: Value)
    requires v.VStr? ==> App.Rupee !in v.s && App.Euro !in v.s && MisencodedRupee[0] !in v.s
    ensures App.ParseAmount(v) == ParseAmount(v)
  {
    if v.VStr? {
      AppRemovals(v.s);
      ProcessorRemovals(v.s);
      if v.s == "" {
        assert Clean(v.s) == "";
      }
    }
  }

  /** Text that starts with a sign this parser keeps is not a number: "€500" and "₹500" give 0 here. */
  lemma KeptSignIsZero(c: char, n: int)
    requires c == App.Euro || c == App.Rupee
    ensures ParseAmount(VStr([c] + Decimal.IntToString(n))) == 0.0
    ensures App.ParseAmount(VStr([c] + Decimal.IntToString(n))) == n as real
  {
    var digits := Decimal.IntToString(n);
    var s := [c] + digits;
    var m := Decimal.NatDigits(if n < 0 then -n else n);
    assert forall k :: 0 <= k < |digits| ==> digits[k] == '-' || Text.IsDigit(digits[k]) by {
      if n < 0 {
        assert forall k :: 1 <= k < |digits| ==> digits[k] == m[k - 1];
      }
    }
    assert forall k :: 0 <= k < |s| ==> s[k] == c || s[k] == '-' || Text.IsDigit(s[k]) by {
      assert forall k :: 1 <= k < |s| ==> s[k] == digits[k - 1];
    }
    SeparatorsAbsent(s);
    assert s[|s| - 1] == m[|m| - 1];
    Text.StripUnpadded(s);
    Decimal.BadLeadParses(c, digits);
    App.SymbolPrefixed(c, n);
  }

  /** Digits behind the mis-decoded sign: removing the separators leaves just the digits. */
  lemma MisencodedPrefixRemoved(digits: string)
    requires Decimal.AllDigits(digits)
    ensures Text.RemoveEach(MisencodedRupee + digits, Separators) == digits
  {
    var s := MisencodedRupee + digits;
    SeparatorsInTurn(s);
    assert ',' !in s by {
      forall k | 0 <= k < |s| ensures s[k] != ',' {
        if k >= 3 { assert s[k] == digits[k - 3]; }
      }
    }
    Text.RemoveCharSpec(s, ',');
    assert s[..3] == MisencodedRupee && s[3..] == digits;
    Text.NotContainsMissingChar(digits, MisencodedRupee, 0);
    Text.RemoveAbsent(digits, MisencodedRupee);
    assert Text.RemoveAll(s, MisencodedRupee) == digits;
    Text.RemoveCharSpec(digits, '$');
  }

  /** The mis-decoded sign is what this parser deletes: "â‚¹500" gives 500. */
  lemma MisencodedRupeeRemoved(n: nat)
    ensures ParseAmount(VStr(MisencodedRupee + Decimal.NatDigits(n))) == n as real
  {
    var digits := Decimal.NatDigits(n);
    MisencodedPrefixRemoved(digits);
    Text.StripUnpadded(digits);
    Decimal.IntToStringParses(n);
  }


  /** The transactions the rows of a decoded spreadsheet yield. */
  function Rows(rows: seq<Record>): seq<Transaction> {
    Extraction.ExtractAll(rows, ParseAmount, Placeholder, Taxonomy.ChartOfAccounts())
  }

  /** The transactions the lines of one page yield, in line order. */
  function LineTransactions(lines: seq<string>): seq<Transaction> {
    if lines == [] then []
    else Extraction.Kept(PdfLine.ParseLine(lines[0])) + LineTransactions(lines[1..])
  }

  /** One page: nothing when it has no text, otherwise its lines' transactions. */
  function PageTransactions(page: Option<string>): seq<Transaction> {
    match page
    case None => []
    case Some(text) => if text == "" then [] else LineTransactions(Text.Split(text, '\n'))
  }

  /** `process_pdf` once the reader has produced each page's text. */
  function PdfTransactions(pages: seq<Option<string>>): seq<Transaction> {
    if pages == [] then [] else PageTransactions(pages[0]) + PdfTransactions(pages[1..])
  }

  /** The message of the `AttributeError` a non-object list element raises. */
  function NoItemsMessage(typeName: string): string {
    "'" + typeName + "' object has no attribute 'items'"
  }

  /** The transactions of a JSON list's elements, or the error its first non-object raises. */
  function JsonItems(items: seq<JsonItem>): Result<seq<Transaction>> {
    if items == [] then Ok([])
    else match items[0]
      case JOther(typeName) => Raised(NoItemsMessage(typeName))
      case JObject(fields) =>
        match JsonItems(items[1..])
        case Raised(message) => Raised(message)
        case Ok(ts) => Ok(Extraction.Kept(Extraction.Extract(fields, ParseAmount, Placeholder, Taxonomy.ChartOfAccounts())) + ts)
  }

  /** `process_json` once the document is decoded: a document that is not a list yields nothing. */
  function JsonTransactions(doc: JsonDoc): Result<seq<Transaction>> {
    match doc
    case JNotList => Ok([])
    case JList(items) => JsonItems(items)
  }

  /** A reader's outcome: its error passed on, or what `f` makes of its output. */
  function Decode<T>(r: Result<T>, f: T -> seq<Transaction>): Result<seq<Transaction>> {
    match r
    case Raised(message) => Raised(message)
    case Ok(x) => Ok(f(x))
  }

  /** `process_file_in_memory(content, filename)`. */
  function FileInMemory(content: Content, filename: string): Result<seq<Transaction>> {
    var name := Text.Lower(filename);
    if Text.EndsWith(name, ".csv") then Decode(content.csv, Rows)
    else if Text.EndsWith(name, ".xlsx") || Text.EndsWith(name, ".xls") then Decode(content.excel, Rows)
    else if Text.EndsWith(name, ".pdf") then Decode(content.pdf, PdfTransactions)
    else if Text.EndsWith(name, ".json") then
      match content.json
      case Raised(message) => Raised(message)
      case Ok(doc) => JsonTransactions(doc)
    else Raised("Unsupported file format: " + filename)
  }

  /** What every transaction the processor builds satisfies: its type follows its sign, its category is a chart label. */
  predicate Typed(t: Transaction) {
    (t.kind == Income <==> t.amount > 0.0) && t.category in Taxonomy.AllCategories()
  }

  /** Spreadsheet rows yield typed transactions with non-zero amounts. */
  lemma RowsTyped(rows: seq<Record>)
    ensures forall t :: t in Rows(rows) ==> Typed(t) && t.amount != 0.0
  {
    var chart := Taxonomy.ChartOfAccounts();
    Extraction.ExtractAllFromRows(rows, ParseAmount, Placeholder, chart);
    forall t | t in Rows(rows) ensures Typed(t) && t.amount != 0.0 {
      var i :| 0 <= i < |rows| && Extraction.Extract(rows[i], ParseAmount, Placeholder, chart) == Some(t);
      Extraction.ExtractSpec(rows[i], ParseAmount, Placeholder, chart);
      Taxonomy.CategoryIsKnown(t.description);
    }
  }

  /** Statement lines yield typed transactions (a zero amount is an expense). */
  lemma {:induction false} LinesTyped(lines: seq<string>)
    ensures forall t :: t in LineTransactions(lines) ==> Typed(t)
    decreases |lines|
  {
    if lines != [] {
      LinesTyped(lines[1..]);
      var first := PdfLine.ParseLine(lines[0]);
      PdfLine.ParseWithFields(PdfLine.Patterns(), lines[0]);
      if first.Some? {
        Taxonomy.CategoryIsKnown(first.value.description);
      }
      assert LineTransactions(lines) == Extraction.Kept(first) + LineTransactions(lines[1..]);
    }
  }

  lemma {:induction false} PdfTyped(pages: seq<Option<string>>)
    ensures forall t :: t in PdfTransactions(pages) ==> Typed(t)
    decreases |pages|
  {
    if pages != [] {
      PdfTyped(pages[1..]);
      if pages[0].Some? && pages[0].value != "" {
        LinesTyped(Text.Split(pages[0].value, '\n'));
      }
    }
  }

  lemma {:induction false} JsonTyped(items: seq<JsonItem>)
    ensures JsonItems(items).Ok? ==> forall t :: t in JsonItems(items).value ==> Typed(t) && t.amount != 0.0
    decreases |items|
  {
    if items != [] && items[0].JObject? {
      JsonTyped(items[1..]);
      RowsTyped([items[0].fields]);
      assert Rows([items[0].fields]) == Extraction.Kept(Extraction.Extract(items[0].fields, ParseAmount, Placeholder, Taxonomy.ChartOfAccounts()));
    }
  }

  /** Whatever a successful `process_file_in_memory` returns is typed, and outside PDFs never zero. */
  lemma FileTyped(content: Content, filename: string)
    ensures FileInMemory(content, filename).Ok? ==>
      forall t :: t in FileInMemory(content, filename).value ==> Typed(t)
    ensures FileInMemory(content, filename).Ok? && !Text.EndsWith(Text.Lower(filename), ".pdf") ==>
      forall t :: t in FileInMemory(content, filename).value ==> t.amount != 0.0
  {
    if content.csv.Ok? { RowsTyped(content.csv.value); }
    if content.excel.Ok? { RowsTyped(content.excel.value); }
    if content.pdf.Ok? { PdfTyped(content.pdf.value); }
    if content.json.Ok? && content.json.value.JList? { JsonTyped(content.json.value.items); }
  }

  /** A name with none of the five suffixes raises `ValueError`, whatever the content. */
  lemma UnsupportedRaises(content: Content, filename: string)
    requires var name := Text.Lower(filename);
      && !Text.EndsWith(name, ".csv") && !Text.EndsWith(name, ".xlsx") && !Text.EndsWith(name, ".xls")
      && !Text.EndsWith(name, ".pdf") && !Text.EndsWith(name, ".json")
    ensures FileInMemory(content, filename) == Raised("Unsupported file format: " + filename)
  {
  }

  /** The reader the suffix selects decides: its exception is passed on unchanged. */
  lemma ReaderErrorPassedOn(content: Content, filename: string)
    ensures var name := Text.Lower(filename);
      Text.EndsWith(name, ".csv") && content.csv.Raised? ==>
        FileInMemory(content, filename) == Raised(content.csv.message)
    ensures var name := Text.Lower(filename);
      (Text.EndsWith(name, ".xlsx") || Text.EndsWith(name, ".xls")) && content.excel.Raised? ==>
        FileInMemory(content, filename) == Raised(content.excel.message)
    ensures var name := Text.Lower(filename);
      Text.EndsWith(name, ".pdf") && content.pdf.Raised? ==>
        FileInMemory(content, filename) == Raised(content.pdf.message)
    ensures var name := Text.Lower(filename);
      Text.EndsWith(name, ".json") && content.json.Raised? ==>
        FileInMemory(content, filename) == Raised(content.json.message)
  {
    var name := Text.Lower(filename);
    if Text.EndsWith(name, ".xlsx") || Text.EndsWith(name, ".xls") || Text.EndsWith(name, ".pdf")
      || Text.EndsWith(name, ".json") {
      SuffixesExclusive(name);
    }
  }

  /** A name ends in at most one of ".csv", ".xls", ".pdf" and ".json". */
  lemma SuffixesExclusive(name: string)
    ensures Text.EndsWith(name, ".xlsx") || Text.EndsWith(name, ".xls") ==> !Text.EndsWith(name, ".csv")
    ensures Text.EndsWith(name, ".pdf") ==>
      !Text.EndsWith(name, ".csv") && !Text.EndsWith(name, ".xlsx") && !Text.EndsWith(name, ".xls")
    ensures Text.EndsWith(name, ".json") ==>
      !Text.EndsWith(name, ".csv") && !Text.EndsWith(name, ".xlsx") && !Text.EndsWith(name, ".xls")
      && !Text.EndsWith(name, ".pdf")
  {
    if Text.EndsWith(name, ".xlsx") {
      assert name[|name| - 1] == 'x';
    }
    if Text.EndsWith(name, ".xls") {
      assert name[|name| - 1] == 's';
    }
    if Text.EndsWith(name, ".pdf") {
      assert name[|name| - 1] == 'f';
    }
    if Text.EndsWith(name, ".json") {
      assert name[|name| - 1] == 'n';
    }
  }

  /** The records of a list of JSON objects. */
  function Fields(items: seq<JsonItem>): (rows: seq<Record>)
    requires forall i :: 0 <= i < |items| ==> items[i].JObject?
    ensures |rows| == |items|
    ensures forall i :: 0 <= i < |items| ==> rows[i] == items[i].fields
  {
    if items == [] then [] else [items[0].fields] + Fields(items[1..])
  }

  /** A list of objects yields exactly what the same records yield as spreadsheet rows. */
  lemma {:induction false} JsonObjectsAsRows(items: seq<JsonItem>)
    requires forall i :: 0 <= i < |items| ==> items[i].JObject?
    ensures JsonItems(items) == Ok(Rows(Fields(items)))
    decreases |items|
  {
    if items != [] {
      JsonObjectsAsRows(items[1..]);
      var rows := Fields(items);
      Seqs.AppendFront([items[0].fields], Fields(items[1..]));
      assert rows[0] == items[0].fields && rows[1..] == Fields(items[1..]);
    }
  }

  /** The first element that is not an object raises, whatever follows it. */
  lemma {:induction false} JsonFirstNonObject(items: seq<JsonItem>, i: nat)
    requires i < |items| && items[i].JOther?
    requires forall j :: 0 <= j < i ==> items[j].JObject?
    ensures JsonItems(items) == Raised(NoItemsMessage(items[i].typeName))
    decreases i
  {
    if i > 0 {
      var tail := items[1..];
      assert tail[i - 1] == items[i];
      assert forall j :: 0 <= j < i - 1 ==> tail[j] == items[j + 1];
      JsonFirstNonObject(tail, i - 1);
    }
  }

  /** Pages are read one by one: the pages of two documents yield the two results in turn. */
  lemma {:induction false} PdfPagesAppend(a: seq<Option<string>>, b: seq<Option<string>>)
    ensures PdfTransactions(a + b) == PdfTransactions(a) + PdfTransactions(b)
    decreases |a|
  {
    if a == [] {
      assert a + b == b;
    } else {
      PdfPagesAppend(a[1..], b);
      Seqs.AppendFront(a, b);
      Seqs.Assoc(PageTransactions(a[0]), PdfTransactions(a[1..]), PdfTransactions(b));
    }
  }

  /** A page without text, or with empty text, adds nothing wherever it stands. */
  lemma BlankPageSkipped(a: seq<Option<string>>, page: Option<string>, b: seq<Option<string>>)
    requires page == None || page == Some("")
    ensures PdfTransactions(a + [page] + b) == PdfTransactions(a + b)
  {
    PdfPagesAppend(a + [page], b);
    PdfPagesAppend(a, [page]);
    PdfPagesAppend(a, b);
    assert PdfTransactions([page]) == [];
    assert PdfTransactions(a) + [] == PdfTransactions(a);
  }

  class FinancialProcessor {
    const chartOfAccounts: Taxonomy.Chart

    /** The chart is the one the constructor sets; nothing writes it afterwards. */
    predicate Valid() {
      chartOfAccounts == Taxonomy.ChartOfAccounts()
    }

    constructor()
      ensures Valid()
    {
      chartOfAccounts := Taxonomy.ChartOfAccounts();
    }

    /** `categorize_transaction`: one of the twelve labels, found by the shared first-match search. */
    function CategorizeTransaction(description: string): (r: string)
      requires Valid()
      ensures r == Taxonomy.Categorize(Taxonomy.ChartOfAccounts(), description)
      ensures r in Taxonomy.AllCategories()
    {
      Taxonomy.CategoryIsKnown(description);
      Taxonomy.Categorize(chartOfAccounts, description)
    }

    /** `extract_transaction` with this class's amount parser and placeholder. */
    method ExtractTransaction(row: Record) returns (t: Option<Transaction>)
      requires Valid()
      ensures t == Extraction.Extract(row, ParseAmount, Placeholder, Taxonomy.ChartOfAccounts())
      ensures t.Some? && (forall i :: 0 <= i < |row| ==> !Extraction.KeyedBy(row[i], Extraction.DescriptionTerms)) ==>
        t.value.description == Placeholder
    {
      t := Extraction.ExtractTransaction(row, ParseAmount, Placeholder, chartOfAccounts);
    }

    /** The loop of `process_csv` and `process_excel` over the decoded rows. */
    method ProcessRows(rows: seq<Record>) returns (transactions: seq<Transaction>)
      requires Valid()
      ensures transactions == Rows(rows)
    {
      transactions := [];
      for i := 0 to |rows|
        invariant transactions == Rows(rows[..i])
      {
        var t := ExtractTransaction(rows[i]);
        Seqs.TakeStep(rows, i);
        Extraction.ExtractAllAppend(rows[..i], [rows[i]], ParseAmount, Placeholder, Taxonomy.ChartOfAccounts());
        assert Rows([rows[i]]) == Extraction.Kept(t);
        if t.Some? {
          transactions := transactions + [t.value];
        }
      }
      assert rows[..|rows|] == rows;
    }

    /** `parse_pdf_line`: the patterns in order; a match whose amount does not convert moves on. */
    method ParsePdfLine(line: string) returns (t: Option<Transaction>)
      requires Valid()
      ensures t == PdfLine.ParseLine(line)
    {
      var patterns := PdfLine.Patterns();
      for i := 0 to |patterns|
        invariant PdfLine.ParseWith(patterns[i..], line) == PdfLine.ParseLine(line)
      {
        Seqs.DropStep(patterns, i);
        var pattern := patterns[i];
        var found := Regex.Search(pattern.items, line);
        if found.Some? {
          var (start, ends) := found.value;
          var date := Regex.Capture(pattern.items, line, start, ends, 0, 5);
          var description := Text.Strip(Regex.Capture(pattern.items, line, start, ends, 6, 7));
          var amountText := Text.RemoveAll(Regex.Capture(pattern.items, line, start, ends, pattern.amountFrom, pattern.amountTo), ",");
          var amount := Decimal.ParseDecimal(amountText);
          if amount.None? {
            continue;
          }
          var category := CategorizeTransaction(description);
          return Some(Transaction(date, description, amount.value, category, KindOf(amount.value)));
        }
      }
      assert patterns[|patterns|..] == [];
      return None;
    }

    /** `process_pdf`: pages in order, lines of each non-empty page in order. */
    method ProcessPdf(pages: seq<Option<string>>) returns (transactions: seq<Transaction>)
      requires Valid()
      ensures transactions == PdfTransactions(pages)
    {
      transactions := [];
      assert pages[0..] == pages;
      for i := 0 to |pages|
        invariant PdfTransactions(pages) == transactions + PdfTransactions(pages[i..])
      {
        PageAdvance(pages, i, transactions);
        var text := pages[i];
        ghost var before := transactions;
        if text.Some? && text.value != "" {
          var lines := Text.Split(text.value, '\n');
          assert lines[0..] == lines;
          for j := 0 to |lines|
            invariant before + LineTransactions(lines) == transactions + LineTransactions(lines[j..])
          {
            LinesStep(lines, j);
            var t := ParsePdfLine(lines[j]);
            ghost var rest := LineTransactions(lines[j + 1..]);
            Advance(before + LineTransactions(lines), transactions, t, rest);
            if t.Some? {
              transactions := transactions + [t.value];
            }
          }
          assert LineTransactions(lines[|lines|..]) == [];
          assert transactions + [] == transactions;
        }
        assert transactions == before + PageTransactions(text);
      }
      assert pages[|pages|..] == [];
    }

    /** `process_json`: list elements in order; a non-object element raises. */
    method ProcessJson(doc: JsonDoc) returns (r: Result<seq<Transaction>>)
      requires Valid()
      ensures r == JsonTransactions(doc)
    {
      var transactions: seq<Transaction> := [];
      if doc.JList? {
        var items := doc.items;
        assert items[0..] == items;
        PrefixedEmpty(JsonItems(items));
        for i := 0 to |items|
          invariant JsonItems(items) == Prefixed(transactions, JsonItems(items[i..]))
        {
          match items[i] {
            case JOther(typeName) =>
              JsonStepOther(items, i);
              return Raised(NoItemsMessage(typeName));
            case JObject(fields) =>
              var t := ExtractTransaction(fields);
              JsonStepObject(items, i);
              PrefixedAssoc(transactions, Extraction.Kept(t), JsonItems(items[i + 1..]));
              if t.Some? {
                assert Extraction.Kept(t) == [t.value];
                transactions := transactions + [t.value];
              } else {
                assert transactions + Extraction.Kept(t) == transactions;
              }
          }
        }
        assert items[|items|..] == [];
        PrefixedDone(transactions);
      }
      r := Ok(transactions);
    }

    /** `generate_reports`: the shared aggregation. */
    method GenerateReports(transactions: seq<Transaction>) returns (r: Reporting.Reports)
      requires Valid()
      ensures r == Reporting.Generate(transactions)
      ensures r.incomeStatement.netIncome == Reporting.AmountTotal(transactions)
    {
      r := Reporting.GenerateReports(transactions);
    }

    /** `process_file_in_memory`: dispatch on the lower-cased suffix. */
    method ProcessFileInMemory(content: Content, filename: string) returns (r: Result<seq<Transaction>>)
      requires Valid()
      ensures r == FileInMemory(content, filename)
    {
      var name := Text.Lower(filename);
      if Text.EndsWith(name, ".csv") {
        match content.csv {
          case Raised(message) => r := Raised(message);
          case Ok(rows) =>
            var ts := ProcessRows(rows);
            r := Ok(ts);
        }
      } else if Text.EndsWith(name, ".xlsx") || Text.EndsWith(name, ".xls") {
        match content.excel {
          case Raised(message) => r := Raised(message);
          case Ok(rows) =>
            var ts := ProcessRows(rows);
            r := Ok(ts);
        }
      } else if Text.EndsWith(name, ".pdf") {
        match content.pdf {
          case Raised(message) => r := Raised(message);
          case Ok(pages) =>
            var ts := ProcessPdf(pages);
            r := Ok(ts);
        }
      } else if Text.EndsWith(name, ".json") {
        match content.json {
          case Raised(message) => r := Raised(message);
          case Ok(doc) => r := ProcessJson(doc);
        }
      } else {
        r := Raised("Unsupported file format: " + filename);
      }
    }
  }

  /** Transactions already collected in front of what the rest of a list yields. */
  function Prefixed(ts: seq<Transaction>, r: Result<seq<Transaction>>): Result<seq<Transaction>> {
    match r
    case Raised(message) => Raised(message)
    case Ok(rest) => Ok(ts + rest)
  }

  /** The step of the inner loop of `process_pdf`: one line's result moves into the accumulator. */
  lemma Advance(total: seq<Transaction>, acc: seq<Transaction>, t: Option<Transaction>, rest: seq<Transaction>)
    requires total == acc + (Extraction.Kept(t) + rest)
    ensures t.None? ==> total == acc + rest
    ensures t.Some? ==> total == (acc + [t.value]) + rest
  {
    if t.Some? {
      Seqs.Assoc(acc, [t.value], rest);
    } else {
      assert [] + rest == rest;
    }
  }

  lemma JsonStepOther(items: seq<JsonItem>, i: nat)
    requires i < |items| && items[i].JOther?
    ensures JsonItems(items[i..]) == Raised(NoItemsMessage(items[i].typeName))
  {
    Seqs.DropStep(items, i);
  }

  lemma JsonStepObject(items: seq<JsonItem>, i: nat)
    requires i < |items| && items[i].JObject?
    ensures JsonItems(items[i..]) ==
      Prefixed(Extraction.Kept(Extraction.Extract(items[i].fields, ParseAmount, Placeholder, Taxonomy.ChartOfAccounts())), JsonItems(items[i + 1..]))
  {
    Seqs.DropStep(items, i);
  }

  lemma PrefixedDone(ts: seq<Transaction>)
    ensures Prefixed(ts, JsonItems([])) == Ok(ts)
  {
    assert ts + [] == ts;
  }

  lemma PrefixedEmpty(r: Result<seq<Transaction>>)
    ensures Prefixed([], r) == r
  {
    if r.Ok? {
      assert [] + r.value == r.value;
    }
  }

  lemma LinesStep(lines: seq<string>, j: nat)
    requires j < |lines|
    ensures LineTransactions(lines[j..]) == Extraction.Kept(PdfLine.ParseLine(lines[j])) + LineTransactions(lines[j + 1..])
  {
    Seqs.DropStep(lines, j);
  }

  lemma PageAdvance(pages: seq<Option<string>>, i: nat, acc: seq<Transaction>)
    requires i < |pages|
    requires PdfTransactions(pages) == acc + PdfTransactions(pages[i..])
    ensures PdfTransactions(pages) == (acc + PageTransactions(pages[i])) + PdfTransactions(pages[i + 1..])
  {
    PagesStep(pages, i);
    var page, rest := PageTransactions(pages[i]), PdfTransactions(pages[i + 1..]);
    Seqs.Assoc(acc, page, rest);
  }

  lemma PagesStep(pages: seq<Option<string>>, i: nat)
    requires i < |pages|
    ensures PdfTransactions(pages[i..]) == PageTransactions(pages[i]) + PdfTransactions(pages[i + 1..])
  {
    var tail := pages[i..];
    assert PdfTransactions(tail) == PageTransactions(tail[0]) + PdfTransactions(tail[1..]);
    Seqs.DropStep(pages, i);
  }

  lemma PrefixedAssoc(ts: seq<Transaction>, more: seq<Transaction>, r: Result<seq<Transaction>>)
    ensures Prefixed(ts, Prefixed(more, r)) == Prefixed(ts + more, r)
  {
    if r.Ok? {
      Seqs.Assoc(ts, more, r.value);
    }
  }
}
